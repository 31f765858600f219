/**
 Rewriting of Python quoting to JSON, and exactly when it may be streamed: which cuts of the input give
 a prefix of the full output. Models normalize_quotes_to_json of common/chat-peg-parser.cpp.
 */
module QuoteNormalizer {
  import opened Common
  import opened JsonText

  datatype Mode = Out | Single | Double

  predicate IsWordChar(c: char) {
    '0' <= c <= '9' || 'a' <= c <= 'z' || 'A' <= c <= 'Z' || c == '_'
  }

  /** The number of word characters from position i. */
  function WordLen(s: string, i: nat): (n: nat)
    requires i <= |s|
    ensures i + n <= |s|
    ensures forall k :: i <= k < i + n ==> IsWordChar(s[k])
    ensures i + n < |s| ==> !IsWordChar(s[i + n])
    decreases |s| - i
  {
    if i < |s| && IsWordChar(s[i]) then 1 + WordLen(s, i + 1) else 0
  }

  /** The JSON spelling of a word that begins one of the Python literals, cut to the same length. */
  function Literal(token: string): (r: Option<string>)
    ensures r.Some? ==> |r.value| == |token|
  {
    if token <= "True" then Some("true"[..|token|])
    else if token <= "False" then Some("false"[..|token|])
    else if token <= "None" then Some("null"[..|token|])
    else None
  }

  predicate IsInitial(c: char) {
    c == 'T' || c == 'F' || c == 'N'
  }

  predicate StartsLiteral(s: string, i: nat, q: Mode)
    requires i < |s|
  {
    q == Out && IsInitial(s[i]) && (i == 0 || !IsWordChar(s[i - 1]))
  }

  /** The word at position i. */
  function Word(s: string, i: nat): string
    requires i <= |s|
  {
    s[i..i + WordLen(s, i)]
  }

  /** How far one step reads, what it writes, and the mode it leaves. */
  datatype Move = Move(next: nat, text: string, mode: Mode)

  function Step(s: string, i: nat, q: Mode): (m: Move)
    requires i < |s|
    ensures i < m.next <= |s|
  {
    var c := s[i];
    if c == '\\' && i + 1 < |s| && q == Out then Move(i + 1, [c], q)
    else if c == '\\' && i + 1 < |s| then
      Move(i + 2, if q == Single && s[i + 1] == '\'' then "'" else [c, s[i + 1]], q)
    else if c == '"' then
      if q == Single then Move(i + 1, "\\\"", q) else Move(i + 1, [c], if q == Double then Out else Double)
    else if c == '\'' then
      if q == Double then Move(i + 1, [c], q) else Move(i + 1, "\"", if q == Single then Out else Single)
    else if StartsLiteral(s, i, q) && Literal(Word(s, i)).Some? then
      Move(i + |Word(s, i)|, Literal(Word(s, i)).value, q)
    else Move(i + 1, [c], q)
  }

  function NormalizeFrom(s: string, i: nat, q: Mode): string
    requires i <= |s|
    decreases |s| - i
  {
    if i == |s| then "" else
      var m := Step(s, i, q);
      m.text + NormalizeFrom(s, m.next, m.mode)
  }

  function Normalize(s: string): string {
    NormalizeFrom(s, 0, Out)
  }

  function ModeOf(inSingle: bool, inDouble: bool): Mode {
    if inSingle then Single else if inDouble then Double else Out
  }

  lemma Advance(done: string, s: string, i: nat, q: Mode)
    requires i < |s|
    ensures var m := Step(s, i, q);
      done + NormalizeFrom(s, i, q) == done + m.text + NormalizeFrom(s, m.next, m.mode)
  {
    hide Step;
  }

  method ScanWord(input: string, i: nat) returns (n: nat)
    requires i <= |input|
    ensures n == WordLen(input, i)
  {
    n := 0;
    while i + n < |input| && IsWordChar(input[i + n])
      invariant i + n <= |input| && n + WordLen(input, i + n) == WordLen(input, i)
    {
      n := n + 1;
    }
  }

  /** One round of the loop: what it appends, where it moves to and the two flags. */
  method Convert(input: string, i: nat, inSingle: bool, inDouble: bool)
    returns (piece: string, next: nat, single: bool, double: bool)
    requires i < |input| && !(inSingle && inDouble)
    ensures Move(next, piece, ModeOf(single, double)) == Step(input, i, ModeOf(inSingle, inDouble))
    ensures !(single && double)
  {
    hide Literal, WordLen;
    var c := input[i];
    piece, next, single, double := [c], i + 1, inSingle, inDouble;
    if c == '\\' && i + 1 < |input| {
      var following := input[i + 1];
      if inSingle {
        piece := if following == '\'' then "'" else if following == '"' then "\\\"" else [c, following];
        next := i + 2;
      } else if inDouble {
        piece := [c, following];
        next := i + 2;
      }
    } else if c == '"' {
      if inSingle {
        piece := "\\\"";
      } else {
        double := !inDouble;
      }
    } else if c == '\'' {
      if !inDouble {
        single := !inSingle;
        piece := "\"";
      }
    } else if !inSingle && !inDouble && (c == 'T' || c == 'F' || c == 'N') && (i == 0 || !IsWordChar(input[i - 1])) {
      var n := ScanWord(input, i);
      var matched := Literal(input[i..i + n]);
      if matched.Some? {
        piece := matched.value;
        next := i + n;
      }
    }
  }

  /** The loop of the original, with its two flags. */
  method NormalizeQuotes(input: string) returns (result: string)
    ensures result == Normalize(input)
  {
    result := "";
    var inSingle, inDouble := false, false;
    var i := 0;
    while i < |input|
      invariant i <= |input| && !(inSingle && inDouble)
      invariant result + NormalizeFrom(input, i, ModeOf(inSingle, inDouble)) == Normalize(input)
    {
      hide Step;
      Advance(result, input, i, ModeOf(inSingle, inDouble));
      var piece;
      piece, i, inSingle, inDouble := Convert(input, i, inSingle, inDouble);
      result := result + piece;
    }
  }

  // ---- streaming ----

  /**
   The cuts that are not safe: between the backslash and the quote of \' in a single-quoted string, and
   inside an unquoted word that only so far looks like True, False or None.
   */
  predicate BadCutFrom(s: string, i: nat, q: Mode, p: nat)
    requires i <= |s| && p <= |s|
    decreases |s| - i
  {
    if i >= p then false
    else if s[i] == '\\' && i + 1 == p < |s| && q != Out then q == Single && s[p] == '\''
    else if StartsLiteral(s, i, q) && i + WordLen(s, i) > p then
      if Literal(Word(s, i)).Some? then false
      else Literal(s[i..p]).Some? || BadCutFrom(s, i + 1, q, p)
    else BadCutFrom(s, Step(s, i, q).next, Step(s, i, q).mode, p)
  }

  predicate BadCut(s: string, p: nat)
    requires p <= |s|
  {
    BadCutFrom(s, 0, Out, p)
  }

  lemma {:induction false} WordLenCut(s: string, i: nat, p: nat)
    requires i <= p <= |s|
    ensures WordLen(s[..p], i) == if i + WordLen(s, i) <= p then WordLen(s, i) else p - i
    decreases p - i
  {
    if i < p && IsWordChar(s[i]) {
      WordLenCut(s, i + 1, p);
    }
  }

  lemma PrefixCons(e: string, x: string, y: string)
    ensures e + x <= e + y <==> x <= y
  {
    if e + x <= e + y {
      assert (e + x)[|e|..] == x && (e + y)[|e|..] == y;
      assert (e + y)[..|e + x|] == e + x;
      assert y[..|x|] == x;
    }
  }

  /** A step that does not reach past the cut, nor looks at what the cut removed, is the same step. */
  lemma StepCut(s: string, i: nat, q: Mode, p: nat)
    requires i < p <= |s|
    requires !(s[i] == '\\' && i + 1 == p < |s| && q != Out)
    requires StartsLiteral(s, i, q) ==> i + WordLen(s, i) <= p
    ensures Step(s[..p], i, q) == Step(s, i, q)
  {
    hide WordLen, Literal, Word;
    if StartsLiteral(s, i, q) {
      WordSame(s, i, p);
    }
    assert s[..p][i] == s[i];
    assert i > 0 ==> s[..p][i - 1] == s[i - 1];
  }

  lemma WordSame(s: string, i: nat, p: nat)
    requires i <= p <= |s| && i + WordLen(s, i) <= p
    ensures Word(s[..p], i) == Word(s, i)
  {
    WordLenCut(s, i, p);
    assert s[..p][i..i + WordLen(s, i)] == s[i..i + WordLen(s, i)];
  }

  lemma LiteralPrefix(token: string, k: nat)
    requires Literal(token).Some? && 0 < k <= |token|
    ensures Literal(token[..k]).Some? && Literal(token[..k]).value <= Literal(token).value
  {
    assert token[0] == token[..k][0];
    if token <= "True" {
      assert token[..k] <= "True";
    } else if token <= "False" {
      assert token[..k] <= "False" && !(token[..k] <= "True");
    } else {
      assert token[..k] <= "None" && !(token[..k] <= "True") && !(token[..k] <= "False");
    }
  }

  lemma LiteralFirst(token: string)
    requires Literal(token).Some? && token != ""
    ensures IsInitial(token[0]) && !IsInitial(Literal(token).value[0])
  {
  }

  lemma WordPart(s: string, i: nat, p: nat)
    requires i < p <= |s| && i + WordLen(s, i) > p
    ensures Word(s[..p], i) == s[i..p] == Word(s, i)[..p - i]
  {
    hide WordLen;
    WordLenCut(s, i, p);
    assert s[..p][i..p] == s[i..p];
  }

  /** A word cut before its end. */
  lemma WordCut(s: string, i: nat, q: Mode, p: nat)
    requires i < p <= |s| && StartsLiteral(s, i, q) && i + WordLen(s, i) > p
    ensures
      Step(s[..p], i, q)
      == if Literal(s[i..p]).Some? then Move(p, Literal(s[i..p]).value, q) else Move(i + 1, [s[i]], q)
    ensures Literal(Word(s, i)).Some? ==>
      Literal(s[i..p]).Some? && Literal(s[i..p]).value <= Literal(Word(s, i)).value
  {
    hide WordLen, Literal, Word;
    WordPart(s, i, p);
    assert s[..p][i] == s[i] && (i > 0 ==> s[..p][i - 1] == s[i - 1]);
    if Literal(Word(s, i)).Some? {
      assert |Word(s, i)| >= p - i by {
        WordSize(s, i);
      }
      LiteralPrefix(Word(s, i), p - i);
    }
  }

  lemma WordSize(s: string, i: nat)
    requires i <= |s|
    ensures |Word(s, i)| == WordLen(s, i)
  {
    hide WordLen;
  }

  lemma NormalizeStep(s: string, i: nat, q: Mode)
    requires i < |s|
    ensures NormalizeFrom(s, i, q) == Step(s, i, q).text + NormalizeFrom(s, Step(s, i, q).next, Step(s, i, q).mode)
  {
    hide Step;
  }

  /** The cut leaves an escape's backslash as the last character. */
  lemma CutEscape(s: string, i: nat, q: Mode)
    requires i + 1 < |s| && s[i] == '\\' && q != Out
    ensures NormalizeFrom(s[..i + 1], i, q) == "\\"
    ensures "\\" <= NormalizeFrom(s, i, q) <==> !(q == Single && s[i + 1] == '\'')
  {
    NormalizeStep(s, i, q);
    NormalizeStep(s[..i + 1], i, q);
    var m, tail := Step(s, i, q), NormalizeFrom(s, Step(s, i, q).next, Step(s, i, q).mode);
    assert (m.text + tail)[0] == m.text[0];
  }

  lemma {:induction false} CutFrom(s: string, i: nat, q: Mode, p: nat)
    requires i <= p <= |s|
    ensures NormalizeFrom(s[..p], i, q) <= NormalizeFrom(s, i, q) <==> !BadCutFrom(s, i, q, p)
    decreases p - i
  {
    hide Step, Literal, WordLen, StartsLiteral, NormalizeFrom, Word;
    if i == p {
      CutNothing(s, i, q);
    } else if s[i] == '\\' && i + 1 == p < |s| && q != Out {
      CutEscape(s, i, q);
    } else if StartsLiteral(s, i, q) && i + WordLen(s, i) > p {
      CutWord(s, i, q, p);
      if Literal(s[i..p]).None? {
        CutFrom(s, i + 1, q, p);
      }
    } else {
      var m := Step(s, i, q);
      StepCut(s, i, q, p);
      StepWithin(s, i, q, p);
      CutFrom(s, m.next, m.mode, p);
      NormalizeStep(s, i, q);
      NormalizeStep(s[..p], i, q);
      PrefixCons(m.text, NormalizeFrom(s[..p], m.next, m.mode), NormalizeFrom(s, m.next, m.mode));
    }
  }

  lemma CutNothing(s: string, i: nat, q: Mode)
    requires i <= |s|
    ensures NormalizeFrom(s[..i], i, q) <= NormalizeFrom(s, i, q)
  {
  }

  /** The cut falls inside a word. */
  lemma CutWord(s: string, i: nat, q: Mode, p: nat)
    requires i < p <= |s| && StartsLiteral(s, i, q) && i + WordLen(s, i) > p
    ensures var u, v := NormalizeFrom(s[..p], i, q), NormalizeFrom(s, i, q);
      if Literal(s[i..p]).Some? then u <= v <==> Literal(Word(s, i)).Some?
      else Literal(Word(s, i)).None? && (u <= v <==> NormalizeFrom(s[..p], i + 1, q) <= NormalizeFrom(s, i + 1, q))
  {
    hide WordLen, Literal, NormalizeFrom;
    WordCut(s, i, q, p);
    NormalizeStep(s, i, q);
    NormalizeStep(s[..p], i, q);
    var u, v, m := NormalizeFrom(s[..p], i, q), NormalizeFrom(s, i, q), Step(s, i, q);
    if Literal(s[i..p]).Some? {
      NormalizeEnd(s[..p], q);
      assert u == Literal(s[i..p]).value;
      if Literal(Word(s, i)).Some? {
        assert u <= m.text <= v;
      } else {
        LiteralFirst(s[i..p]);
        assert v[0] == s[i] && u[0] != v[0];
      }
    } else {
      PrefixCons([s[i]], NormalizeFrom(s[..p], i + 1, q), NormalizeFrom(s, i + 1, q));
    }
  }

  lemma NormalizeEnd(s: string, q: Mode)
    ensures NormalizeFrom(s, |s|, q) == ""
  {
  }

  lemma StepWithin(s: string, i: nat, q: Mode, p: nat)
    requires i < p <= |s|
    requires !(s[i] == '\\' && i + 1 == p < |s| && q != Out)
    requires StartsLiteral(s, i, q) ==> i + WordLen(s, i) <= p
    ensures Step(s, i, q).next <= p
  {
  }

  /** Cutting the input gives a prefix of the full output exactly at the cuts that are not bad. */
  lemma PrefixMonotone(s: string, p: nat)
    requires p <= |s|
    ensures Normalize(s[..p]) <= Normalize(s) <==> !BadCut(s, p)
  {
    CutFrom(s, 0, Out, p);
  }

  /** Outside quotes, every word that starts with T, F or N begins one of the literals. */
  predicate LiteralWords(s: string, i: nat, q: Mode)
    requires i <= |s|
    decreases |s| - i
  {
    i == |s| ||
    ((StartsLiteral(s, i, q) ==> Literal(Word(s, i)).Some?) && LiteralWords(s, Step(s, i, q).next, Step(s, i, q).mode))
  }

  lemma {:induction false} SafeFrom(s: string, i: nat, q: Mode, p: nat)
    requires i <= |s| && p <= |s| && LiteralWords(s, i, q) && (0 < p < |s| ==> s[p - 1] != '\\')
    ensures !BadCutFrom(s, i, q, p)
    decreases |s| - i
  {
    hide Literal, Step, StartsLiteral;
    if i < p && !StartsLiteral(s, i, q) {
      SafeFrom(s, Step(s, i, q).next, Step(s, i, q).mode, p);
    } else if i < p && i + WordLen(s, i) <= p {
      SafeFrom(s, Step(s, i, q).next, Step(s, i, q).mode, p);
    }
  }

  /** With only literals as such words, any cut that does not follow a backslash may be streamed. */
  lemma SafeCut(s: string, p: nat)
    requires p <= |s| && LiteralWords(s, 0, Out) && (0 < p < |s| ==> s[p - 1] != '\\')
    ensures Normalize(s[..p]) <= Normalize(s)
  {
    SafeFrom(s, 0, Out, p);
    PrefixMonotone(s, p);
  }

  // ---- strings keep their text ----

  /** The text of a single-quoted Python string's body, for the escapes that JSON shares and \'. */
  function PyDecode(b: string): Option<string> {
    if b == "" then Some("")
    else if b[0] == '\'' || b[0] < ' ' then None
    else if b[0] != '\\' then Push(b[0], PyDecode(b[1..]))
    else if |b| >= 2 && PyEscape(b[1]).Some? then Push(PyEscape(b[1]).value, PyDecode(b[2..]))
    else None
  }

  function PyEscape(c: char): Option<char> {
    if c == '\'' then Some(c) else if c == '/' then None else ShortEscape(c)
  }

  /** The body of the JSON string that a Python body becomes. */
  function BodyToJson(b: string): string {
    if b == "" then ""
    else if b[0] == '"' then "\\\"" + BodyToJson(b[1..])
    else if b[0] == '\\' && |b| >= 2 && b[1] == '\'' then "'" + BodyToJson(b[2..])
    else if b[0] == '\\' && |b| >= 2 then [b[0], b[1]] + BodyToJson(b[2..])
    else [b[0]] + BodyToJson(b[1..])
  }

  lemma {:induction false} BodyDecodes(b: string)
    requires PyDecode(b).Some?
    ensures Decode(BodyToJson(b)) == PyDecode(b)
  {
    if b != "" {
      var k := if b[0] == '\\' then 2 else 1;
      BodyDecodes(b[k..]);
      var j := BodyToJson(b[k..]);
      if b[0] == '"' {
        assert ("\\\"" + j)[2..] == j;
      } else if k == 2 && b[1] != '\'' {
        assert ([b[0], b[1]] + j)[2..] == j;
      } else {
        assert BodyToJson(b)[1..] == j;
      }
    }
  }

  /** A single-quoted string is converted as a whole wherever it stands. */
  lemma {:induction false} BodyConverts(s: string, i: nat, b: string, rest: string)
    requires i <= |s| && s[i..] == b + "'" + rest && PyDecode(b).Some?
    ensures i + |b| + 1 <= |s|
    ensures NormalizeFrom(s, i, Single) == BodyToJson(b) + "\"" + NormalizeFrom(s, i + |b| + 1, Out)
    decreases |b|
  {
    hide NormalizeFrom, BodyToJson, Literal, WordLen;
    assert |s[i..]| == |b| + 1 + |rest|;
    assert s[i] == s[i..][0];
    NormalizeStep(s, i, Single);
    var tail := NormalizeFrom(s, i + |b| + 1, Out);
    if b == "" {
      assert "" + "\"" + tail == "\"" + tail;
      BodyEmpty();
    } else {
      assert s[i] == b[0];
      var k := if b[0] == '\\' then 2 else 1;
      if k == 2 {
        assert s[i + 1] == s[i..][1] == b[1];
      }
      assert s[i + k..] == s[i..][k..] == b[k..] + "'" + rest;
      BodyConverts(s, i + k, b[k..], rest);
      BodyStep(b);
      var m := Step(s, i, Single);
      assert m.next == i + k && m.mode == Single;
      assert m.text + (BodyToJson(b[k..]) + "\"" + tail) == (m.text + BodyToJson(b[k..])) + "\"" + tail;
    }
  }

  lemma BodyEmpty()
    ensures BodyToJson("") == ""
  {
  }

  lemma BodyStep(b: string)
    requires b != "" && PyDecode(b).Some?
    ensures b[0] == '\\' ==> |b| >= 2
    ensures b[0] == '\\' ==> BodyToJson(b) == (if b[1] == '\'' then "'" else [b[0], b[1]]) + BodyToJson(b[2..])
    ensures b[0] != '\\' ==> BodyToJson(b) == (if b[0] == '"' then "\\\"" else [b[0]]) + BodyToJson(b[1..])
  {
  }

  /** A single-quoted Python string becomes a JSON string that reads back as the same text. */
  lemma StringKeepsText(b: string)
    requires PyDecode(b).Some?
    ensures Normalize("'" + b + "'") == "\"" + BodyToJson(b) + "\"" && Decode(BodyToJson(b)) == PyDecode(b)
  {
    hide Literal, WordLen, BodyToJson, PyDecode, Decode;
    var s := "'" + b + "'";
    NormalizeStep(s, 0, Out);
    assert s[1..] == b + "'" + "";
    BodyConverts(s, 1, b, "");
    NormalizeEnd(s, Out);
    BodyDecodes(b);
    assert "\"" + (BodyToJson(b) + "\"" + "") == "\"" + BodyToJson(b) + "\"";
  }

  /** Printed by Python and rewritten to JSON, a text comes back unchanged. */
  lemma ReprRoundTrip(t: string)
    requires Printable(t)
    ensures exists j :: Normalize("'" + PyRepr(t, '\'') + "'") == "\"" + j + "\"" && Decode(j) == Some(t)
  {
    DecodeRepr(t);
    StringKeepsText(PyRepr(t, '\''));
  }

  /** How Python prints one character of a text between two such quotes. */
  function ReprChar(c: char, quote: char): (r: string)
    ensures r != ""
  {
    if c == quote || c == '\\' then ['\\', c]
    else if c == '\n' then "\\n" else if c == '\r' then "\\r" else if c == '\t' then "\\t" else [c]
  }

  function PyRepr(t: string, quote: char): string {
    if t == "" then "" else ReprChar(t[0], quote) + PyRepr(t[1..], quote)
  }

  predicate PrintableChar(c: char) {
    c >= ' ' || c == '\n' || c == '\r' || c == '\t'
  }

  predicate Printable(t: string) {
    forall i :: 0 <= i < |t| ==> PrintableChar(t[i])
  }

  lemma DecodeReprChar(c: char, rest: string)
    requires PrintableChar(c)
    ensures PyDecode(ReprChar(c, '\'') + rest) == Push(c, PyDecode(rest))
  {
    var b := ReprChar(c, '\'') + rest;
    assert |ReprChar(c, '\'')| == 1 ==> b[1..] == rest;
    assert |ReprChar(c, '\'')| == 2 ==> b[2..] == rest && b[1] == ReprChar(c, '\'')[1];
  }

  lemma {:induction false} DecodeRepr(t: string)
    requires Printable(t)
    ensures PyDecode(PyRepr(t, '\'')) == Some(t)
  {
    if t != "" {
      hide PyDecode, ReprChar;
      DecodeRepr(t[1..]);
      DecodeReprChar(t[0], PyRepr(t[1..], '\''));
      assert t == [t[0]] + t[1..];
    } else {
      assert PyRepr(t, '\'') == "";
    }
  }
}
