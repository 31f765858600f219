/**
 JSON string escaping as the serialiser does it, its inverse (section 7 of RFC 8259), and the brace
 counter that completes tool-call arguments. Models json_brace_depth and escape_json_string_inner of
 common/chat-peg-parser.cpp.
 */
module JsonText {
  import opened Common

  const HEX: string := "0123456789abcdef"

  /** How one character appears inside a dumped JSON string. */
  function EscapeChar(c: char): (r: string)
    ensures r != ""
  {
    if c == '"' then "\\\""
    else if c == '\\' then "\\\\"
    else if c == '\U{0008}' then "\\b"
    else if c == '\U{000C}' then "\\f"
    else if c == '\n' then "\\n"
    else if c == '\r' then "\\r"
    else if c == '\t' then "\\t"
    else if c < ' ' then "\\u00" + [HEX[c as int / 16], HEX[c as int % 16]]
    else [c]
  }

  /** The content of a dumped JSON string, without the surrounding quotes. */
  function Escape(s: string): string {
    if s == "" then "" else EscapeChar(s[0]) + Escape(s[1..])
  }

  function Quote(s: string): string {
    "\"" + Escape(s) + "\""
  }

  lemma EscapeNothing()
    ensures Escape("") == ""
  {
  }

  lemma {:induction false} EscapeAppend(s: string, t: string)
    ensures Escape(s + t) == Escape(s) + Escape(t)
  {
    if s == "" {
      assert s + t == t;
    } else {
      assert (s + t)[1..] == s[1..] + t;
      EscapeAppend(s[1..], t);
    }
  }

  /** Escaping a longer text only adds at the end. */
  lemma EscapeMonotone(s: string, t: string)
    requires s <= t
    ensures Escape(s) <= Escape(t)
  {
    assert t == s + t[|s|..];
    EscapeAppend(s, t[|s|..]);
  }

  predicate NeedsEscape(c: char) {
    c == '"' || c == '\\' || c < ' '
  }

  lemma {:induction false} EscapeLonger(s: string)
    ensures |Escape(s)| >= |s|
  {
    if s != "" {
      EscapeLonger(s[1..]);
    }
    hide EscapeChar;
  }

  /** A text is left as it is exactly when it has no quote, backslash or control character. */
  lemma {:induction false} UnescapedExactly(s: string)
    ensures Escape(s) == s <==> forall i :: 0 <= i < |s| ==> !NeedsEscape(s[i])
  {
    if s != "" {
      UnescapedExactly(s[1..]);
      EscapeLonger(s[1..]);
      OneOrMore(s[0]);
      hide EscapeChar;
      assert s == [s[0]] + s[1..];
      assert NeedsEscape(s[0]) ==> |Escape(s)| > |s|;
      if !NeedsEscape(s[0]) {
        assert Escape(s)[1..] == Escape(s[1..]);
      }
    }
  }

  lemma OneOrMore(c: char)
    ensures if NeedsEscape(c) then |EscapeChar(c)| > 1 else EscapeChar(c) == [c]
  {
  }

  // ---- the inverse ----

  /** The character a two-character escape stands for. */
  function ShortEscape(c: char): Option<char> {
    if c == '"' || c == '\\' || c == '/' then Some(c)
    else if c == 'b' then Some('\U{0008}')
    else if c == 'f' then Some('\U{000C}')
    else if c == 'n' then Some('\n')
    else if c == 'r' then Some('\r')
    else if c == 't' then Some('\t')
    else None
  }

  /** The text that the content of a JSON string denotes; code points past 0xFF in \u escapes are left out. */
  function Decode(s: string): Option<string> {
    if s == "" then Some("")
    else if s[0] == '"' || s[0] < ' ' then None
    else if s[0] != '\\' then Push(s[0], Decode(s[1..]))
    else if |s| >= 2 && ShortEscape(s[1]).Some? then Push(ShortEscape(s[1]).value, Decode(s[2..]))
    else if |s| >= 6 && s[1] == 'u' && s[2] == '0' && s[3] == '0' && HexValue(s[4]).Some? && HexValue(s[5]).Some? then
      Push((HexValue(s[4]).value * 16 + HexValue(s[5]).value) as char, Decode(s[6..]))
    else None
  }

  function Push(c: char, rest: Option<string>): Option<string> {
    if rest.Some? then Some([c] + rest.value) else None
  }

  lemma HexDigits(d: nat)
    requires d < 16
    ensures HexValue(HEX[d]) == Some(d)
  {
  }

  /** The step of the inverse on a character, a short escape or a control code. */
  lemma DecodeStep(e: string, c: char, rest: string)
    requires (e == [c] && c != '"' && c != '\\' && c >= ' ')
             || (|e| == 2 && e[0] == '\\' && ShortEscape(e[1]) == Some(c))
             || (|e| == 6 && e[..4] == "\\u00" && HexValue(e[4]).Some? && HexValue(e[5]).Some?
                 && (HexValue(e[4]).value * 16 + HexValue(e[5]).value) as char == c)
    ensures Decode(e + rest) == Push(c, Decode(rest))
  {
    hide HexValue;
    var t := e + rest;
    assert t[|e|..] == rest;
    if |e| == 6 {
      assert e[0] == '\\' && e[1] == 'u' && e[2] == '0' && e[3] == '0' by {
        assert e[..4][0] == e[0] && e[..4][1] == e[1] && e[..4][2] == e[2] && e[..4][3] == e[3];
      }
    }
  }

  lemma DecodeChar(c: char, rest: string)
    ensures Decode(EscapeChar(c) + rest) == Push(c, Decode(rest))
  {
    hide Decode;
    if c < ' ' {
      HexDigits(c as int / 16);
      HexDigits(c as int % 16);
      hide HexValue;
    }
    DecodeStep(EscapeChar(c), c, rest);
  }

  /** Every dumped string reads back as the text it was made from. */
  lemma {:induction false} DecodeEscape(s: string)
    ensures Decode(Escape(s)) == Some(s)
  {
    if s != "" {
      DecodeChar(s[0], Escape(s[1..]));
      DecodeEscape(s[1..]);
      assert s == [s[0]] + s[1..];
    }
  }

  // ---- where an escaped text ends ----

  lemma FirstOfEscape(c: char)
    ensures EscapeChar(c)[0] != '"'
  {
  }

  lemma HexInjective(d: nat, e: nat)
    requires d < 16 && e < 16 && HEX[d] == HEX[e]
    ensures d == e
  {
    HexDigits(d);
    HexDigits(e);
  }

  /** No character's escaped form is the beginning of another's. */
  lemma CharPrefixFree(c: char, d: char, x: string, y: string)
    requires EscapeChar(c) + x <= EscapeChar(d) + y
    ensures c == d
  {
    var e, f := EscapeChar(c), EscapeChar(d);
    var s, t := e + x, f + y;
    assert s[0] == t[0] && (|e| > 1 && |f| > 1 ==> s[1] == t[1]);
    if |e| == 6 && |f| == 6 {
      assert s[4] == t[4] && s[5] == t[5];
      HexInjective(c as int / 16, d as int / 16);
      HexInjective(c as int % 16, d as int % 16);
    }
  }

  /** A closing quote after an escaped text can only be that of the same text. */
  lemma {:induction false} EscapedPrefix(a: string, b: string, x: string, y: string)
    requires Escape(a) + ("\"" + x) <= Escape(b) + ("\"" + y)
    ensures a == b
    decreases |a|
  {
    hide EscapeChar;
    var s, t := Escape(a) + ("\"" + x), Escape(b) + ("\"" + y);
    assert s[0] == t[0];
    if a != "" {
      FirstOfEscape(a[0]);
      assert s == EscapeChar(a[0]) + (Escape(a[1..]) + ("\"" + x));
    }
    if b != "" {
      FirstOfEscape(b[0]);
      assert t == EscapeChar(b[0]) + (Escape(b[1..]) + ("\"" + y));
    }
    if a != "" && b != "" {
      CharPrefixFree(a[0], b[0], Escape(a[1..]) + ("\"" + x), Escape(b[1..]) + ("\"" + y));
      PrefixTail(EscapeChar(a[0]), Escape(a[1..]) + ("\"" + x), Escape(b[1..]) + ("\"" + y));
      EscapedPrefix(a[1..], b[1..], x, y);
      assert a == [a[0]] + a[1..] && b == [b[0]] + b[1..];
    }
  }

  lemma PrefixTail(x: string, y: string, z: string)
    ensures x + y <= x + z <==> y <= z
  {
    if x + y <= x + z {
      assert y == (x + y)[|x|..] && z == (x + z)[|x|..];
      assert (x + z)[..|x + y|] == x + y;
      assert z[..|y|] == (x + z)[..|x + y|][|x|..];
    }
  }

  // ---- counting braces ----

  datatype Scan = Scan(depth: int, inString: bool, escaped: bool)

  function ScanChar(st: Scan, c: char): Scan {
    if st.escaped then st.(escaped := false)
    else if c == '\\' && st.inString then st.(escaped := true)
    else if c == '"' then st.(inString := !st.inString)
    else if !st.inString && c == '{' then st.(depth := st.depth + 1)
    else if !st.inString && c == '}' then st.(depth := st.depth - 1)
    else st
  }

  function ScanFrom(st: Scan, s: string): Scan
    decreases |s|
  {
    if s == "" then st else ScanFrom(ScanChar(st, s[0]), s[1..])
  }

  const OUTSIDE: Scan := Scan(0, false, false)

  function BraceDepth(s: string): int {
    ScanFrom(OUTSIDE, s).depth
  }

  lemma {:induction false} ScanAppend(st: Scan, s: string, t: string)
    ensures ScanFrom(st, s + t) == ScanFrom(ScanFrom(st, s), t)
    decreases |s|
  {
    if s == "" {
      assert s + t == t;
    } else {
      assert (s + t)[1..] == s[1..] + t;
      ScanAppend(ScanChar(st, s[0]), s[1..], t);
    }
  }

  function Count(s: string, c: char): nat {
    multiset(s)[c]
  }

  /** Outside strings only the braces count, each once; other brackets and backslashes do not. */
  lemma PlainDepth(s: string)
    requires '"' !in s
    ensures BraceDepth(s) == Count(s, '{') - Count(s, '}')
  {
    PlainScan(0, s);
  }

  lemma {:induction false} PlainScan(d: int, s: string)
    requires '"' !in s
    ensures ScanFrom(Scan(d, false, false), s) == Scan(d + Count(s, '{') - Count(s, '}'), false, false)
    decreases |s|
  {
    if s != "" {
      var c := s[0];
      PlainScan(if c == '{' then d + 1 else if c == '}' then d - 1 else d, s[1..]);
      CountFirst(s, '{');
      CountFirst(s, '}');
      hide Count;
    }
  }

  lemma CountFirst(s: string, c: char)
    requires s != ""
    ensures Count(s, c) == (if s[0] == c then 1 else 0) + Count(s[1..], c)
  {
    assert s == [s[0]] + s[1..];
  }

  method JsonBraceDepth(s: string) returns (depth: int)
    ensures depth == BraceDepth(s)
  {
    depth := 0;
    var inString, escaped := false, false;
    for i := 0 to |s|
      invariant ScanFrom(Scan(depth, inString, escaped), s[i..]) == ScanFrom(OUTSIDE, s)
    {
      var c := s[i];
      assert s[i..][0] == c && s[i..][1..] == s[i + 1..];
      if escaped {
        escaped := false;
        continue;
      }
      if c == '\\' && inString {
        escaped := true;
        continue;
      }
      if c == '"' {
        inString := !inString;
        continue;
      }
      if !inString {
        if c == '{' {
          depth := depth + 1;
        } else if c == '}' {
          depth := depth - 1;
        }
      }
    }
    assert s[|s|..] == "";
  }

  lemma ScanOne(st: Scan, c: char)
    ensures ScanFrom(st, [c]) == ScanChar(st, c)
  {
    assert [c][1..] == "";
  }

  lemma ScanTwo(st: Scan, c: char, d: char)
    ensures ScanFrom(st, [c, d]) == ScanChar(ScanChar(st, c), d)
  {
    assert [c, d][1..] == [d];
    ScanOne(ScanChar(st, c), d);
  }

  /** Inside a string, the escaped form of a character leaves the scanner where it was. */
  lemma ScanEscapedChar(d: int, c: char)
    ensures ScanFrom(Scan(d, true, false), EscapeChar(c)) == Scan(d, true, false)
  {
    var st, e := Scan(d, true, false), EscapeChar(c);
    if |e| == 1 {
      ScanOne(st, e[0]);
    } else if |e| == 2 {
      assert e == [e[0], e[1]];
      ScanTwo(st, e[0], e[1]);
    } else {
      assert e == [e[0], e[1]] + [e[2], e[3]] + [e[4], e[5]];
      ScanAppend(st, [e[0], e[1]] + [e[2], e[3]], [e[4], e[5]]);
      ScanAppend(st, [e[0], e[1]], [e[2], e[3]]);
      ScanTwo(st, e[0], e[1]);
      ScanTwo(st, e[2], e[3]);
      ScanTwo(st, e[4], e[5]);
    }
  }

  lemma {:induction false} ScanEscaped(d: int, s: string)
    ensures ScanFrom(Scan(d, true, false), Escape(s)) == Scan(d, true, false)
  {
    if s != "" {
      ScanAppend(Scan(d, true, false), EscapeChar(s[0]), Escape(s[1..]));
      ScanEscapedChar(d, s[0]);
      ScanEscaped(d, s[1..]);
    }
  }

  /** The scanner crosses a whole dumped string, whatever braces and quotes its text holds. */
  lemma ScanQuoted(d: int, s: string)
    ensures ScanFrom(Scan(d, false, false), Quote(s)) == Scan(d, false, false)
  {
    var st := Scan(d, false, false);
    ScanAppend(st, "\"" + Escape(s), "\"");
    ScanAppend(st, "\"", Escape(s));
    ScanOne(st, '"');
    ScanEscaped(d, s);
    ScanOne(Scan(d, true, false), '"');
  }

  /** Text that the scanner crosses from outside a string to outside a string at the same depth. */
  predicate Balanced(s: string) {
    ScanFrom(OUTSIDE, s) == OUTSIDE
  }

  lemma {:induction false} ScanShift(st: Scan, k: int, s: string)
    ensures ScanFrom(st.(depth := st.depth + k), s) == var r := ScanFrom(st, s); r.(depth := r.depth + k)
    decreases |s|
  {
    if s != "" {
      ScanShift(ScanChar(st, s[0]), k, s[1..]);
    }
  }

  lemma ScanBalanced(d: int, s: string)
    requires Balanced(s)
    ensures ScanFrom(Scan(d, false, false), s) == Scan(d, false, false)
  {
    ScanShift(OUTSIDE, d, s);
  }

  // ---- every printed JSON value is balanced ----

  datatype Json =
    | Atom(text: string)
    | Str(s: string)
    | Arr(items: seq<Json>)
    | Obj(keys: seq<string>, values: seq<Json>)

  /** Numbers and literals hold no quotes, braces or backslashes; objects have a value for each key. */
  predicate ValidJson(j: Json) {
    match j
    case Atom(text) => forall i :: 0 <= i < |text| ==> text[i] !in "\"{}\\"
    case Str(_) => true
    case Arr(items) => forall i :: 0 <= i < |items| ==> ValidJson(items[i])
    case Obj(keys, values) => |keys| == |values| && forall i :: 0 <= i < |values| ==> ValidJson(values[i])
  }

  function PrintJson(j: Json): string
    requires ValidJson(j)
    decreases j, 0
  {
    match j
    case Atom(text) => text
    case Str(s) => Quote(s)
    case Arr(items) => "[" + PrintItems(items) + "]"
    case Obj(keys, values) => "{" + PrintMembers(keys, values) + "}"
  }

  function PrintItems(items: seq<Json>): string
    requires forall i :: 0 <= i < |items| ==> ValidJson(items[i])
    decreases items
  {
    if items == [] then ""
    else PrintJson(items[0]) + (if |items| == 1 then "" else "," + PrintItems(items[1..]))
  }

  function PrintMembers(keys: seq<string>, values: seq<Json>): string
    requires |keys| == |values| && forall i :: 0 <= i < |values| ==> ValidJson(values[i])
    decreases values
  {
    if keys == [] then ""
    else
      Quote(keys[0]) + ":" + PrintJson(values[0])
      + (if |keys| == 1 then "" else "," + PrintMembers(keys[1..], values[1..]))
  }

  ghost predicate Crosses(s: string) {
    forall d :: ScanFrom(Scan(d, false, false), s) == Scan(d, false, false)
  }

  lemma CrossesAppend(s: string, t: string)
    requires Crosses(s) && Crosses(t)
    ensures Crosses(s + t)
  {
    forall d
      ensures ScanFrom(Scan(d, false, false), s + t) == Scan(d, false, false)
    {
      ScanAppend(Scan(d, false, false), s, t);
    }
  }

  lemma CrossesChar(c: char)
    requires c !in "\"{}\\"
    ensures Crosses([c])
  {
    assert c != "\"{}\\"[0] && c != "\"{}\\"[1] && c != "\"{}\\"[2];
    forall d
      ensures ScanFrom(Scan(d, false, false), [c]) == Scan(d, false, false)
    {
      ScanOne(Scan(d, false, false), c);
    }
  }

  lemma CrossesQuoted(s: string)
    ensures Crosses(Quote(s))
  {
    forall d
      ensures ScanFrom(Scan(d, false, false), Quote(s)) == Scan(d, false, false)
    {
      ScanQuoted(d, s);
    }
  }

  lemma {:induction false} CrossesPlain(s: string)
    requires forall i :: 0 <= i < |s| ==> s[i] !in "\"{}\\"
    ensures Crosses(s)
  {
    if s != "" {
      CrossesChar(s[0]);
      CrossesPlain(s[1..]);
      CrossesAppend([s[0]], s[1..]);
      assert s == [s[0]] + s[1..];
    }
  }

  lemma ScanBraces(d: int, s: string)
    requires ScanFrom(Scan(d + 1, false, false), s) == Scan(d + 1, false, false)
    ensures ScanFrom(Scan(d, false, false), "{" + s + "}") == Scan(d, false, false)
  {
    ScanOne(Scan(d, false, false), '{');
    ScanOne(Scan(d + 1, false, false), '}');
    assert ScanChar(Scan(d, false, false), '{') == Scan(d + 1, false, false);
    assert ScanChar(Scan(d + 1, false, false), '}') == Scan(d, false, false);
    hide ScanFrom, ScanChar;
    ScanAppend(Scan(d, false, false), "{" + s, "}");
    ScanAppend(Scan(d, false, false), "{", s);
  }

  lemma CrossesBraces(s: string)
    requires Crosses(s)
    ensures Crosses("{" + s + "}")
  {
    hide ScanFrom;
    forall d
      ensures ScanFrom(Scan(d, false, false), "{" + s + "}") == Scan(d, false, false)
    {
      ScanBraces(d, s);
    }
  }

  lemma {:induction false} PrintCrosses(j: Json)
    requires ValidJson(j)
    ensures Crosses(PrintJson(j))
    decreases j, 0
  {
    match j
    case Atom(text) => CrossesPlain(text);
    case Str(s) => CrossesQuoted(s);
    case Arr(items) =>
      ItemsCross(items);
      CrossesChar('[');
      CrossesChar(']');
      CrossesAppend("[", PrintItems(items));
      CrossesAppend("[" + PrintItems(items), "]");
    case Obj(keys, values) =>
      MembersCross(keys, values);
      CrossesBraces(PrintMembers(keys, values));
  }

  lemma {:induction false} ItemsCross(items: seq<Json>)
    requires forall i :: 0 <= i < |items| ==> ValidJson(items[i])
    ensures Crosses(PrintItems(items))
    decreases items
  {
    if items != [] {
      PrintCrosses(items[0]);
      if |items| > 1 {
        ItemsCross(items[1..]);
        CrossesChar(',');
        CrossesAppend(",", PrintItems(items[1..]));
        CrossesAppend(PrintJson(items[0]), "," + PrintItems(items[1..]));
      } else {
        assert PrintItems(items) == PrintJson(items[0]);
      }
    }
  }

  lemma {:induction false} MembersCross(keys: seq<string>, values: seq<Json>)
    requires |keys| == |values| && forall i :: 0 <= i < |values| ==> ValidJson(values[i])
    ensures Crosses(PrintMembers(keys, values))
    decreases values
  {
    if keys != [] {
      var head := Quote(keys[0]) + ":" + PrintJson(values[0]);
      PrintCrosses(values[0]);
      CrossesQuoted(keys[0]);
      CrossesChar(':');
      CrossesAppend(Quote(keys[0]), ":");
      CrossesAppend(Quote(keys[0]) + ":", PrintJson(values[0]));
      if |keys| > 1 {
        MembersCross(keys[1..], values[1..]);
        CrossesChar(',');
        CrossesAppend(",", PrintMembers(keys[1..], values[1..]));
        CrossesAppend(head, "," + PrintMembers(keys[1..], values[1..]));
      } else {
        assert PrintMembers(keys, values) == head;
      }
    }
  }

  /** The brace counter sees every printed JSON value as closed. */
  lemma PrintBalanced(j: Json)
    requires ValidJson(j)
    ensures Balanced(PrintJson(j)) && BraceDepth(PrintJson(j)) == 0
  {
    PrintCrosses(j);
  }
}
