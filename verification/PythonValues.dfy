/**
 What the rewriting of quotes is for: a value as Python prints it becomes the JSON text of the same value.
 */
module PythonValues {
  import opened Common
  import opened JsonText
  import opened QuoteNormalizer

  datatype Value =
    | True
    | False
    | None
    | Number(text: string)
    | Text(t: string)
    | List(items: seq<Value>)
    | Dict(keys: seq<string>, values: seq<Value>)

  predicate NumberChar(c: char) {
    '0' <= c <= '9' || c == '+' || c == '-' || c == '.' || c == 'e' || c == 'E'
  }

  /** Numbers are written with digits, signs, points and exponents; texts need no numeric escapes. */
  predicate Writable(v: Value) {
    match v
    case Number(text) => forall i :: 0 <= i < |text| ==> NumberChar(text[i])
    case Text(t) => Printable(t)
    case List(items) => AllWritable(items)
    case Dict(keys, values) =>
      |keys| == |values| && AllPrintable(keys) && AllWritable(values)
    case _ => true
  }

  predicate AllWritable(vs: seq<Value>) {
    vs != [] ==> Writable(vs[0]) && AllWritable(vs[1..])
  }

  // ---- how Python prints it ----

  /** Double quotes for a text that has single ones only, single quotes for every other. */
  function PyText(t: string): string {
    if '\'' in t && '"' !in t then "\"" + PyRepr(t, '"') + "\"" else "'" + PyRepr(t, '\'') + "'"
  }

  /** With this gap, which Python makes one space, after commas and colons. */
  function PyPrint(v: Value, gap: string): string
    requires Writable(v)
    decreases v, 0
  {
    match v
    case True => "True"
    case False => "False"
    case None => "None"
    case Number(text) => text
    case Text(t) => PyText(t)
    case List(items) => "[" + PyItems(items, gap) + "]"
    case Dict(keys, values) => "{" + PyMembers(keys, values, gap) + "}"
  }

  function PyItems(items: seq<Value>, gap: string): string
    requires AllWritable(items)
    decreases items, 1
  {
    if items == [] then "" else PyPrint(items[0], gap) + PyMore(items[1..], gap)
  }

  /** The items after the first. */
  function PyMore(items: seq<Value>, gap: string): string
    requires AllWritable(items)
    decreases items, 2
  {
    if items == [] then "" else AfterComma(PyItems(items, gap), gap)
  }

  function AfterComma(rest: string, gap: string): (r: string)
    ensures |r| == 1 + |gap| + |rest|
  {
    ("," + gap) + rest
  }

  function PyMembers(keys: seq<string>, values: seq<Value>, gap: string): string
    requires |keys| == |values| && AllWritable(values)
    decreases values, 1
  {
    if keys == [] then ""
    else PyText(keys[0]) + ((":" + gap) + (PyPrint(values[0], gap) + PyMoreMembers(keys[1..], values[1..], gap)))
  }

  function PyMoreMembers(keys: seq<string>, values: seq<Value>, gap: string): string
    requires |keys| == |values| && AllWritable(values)
    decreases values, 2
  {
    if keys == [] then "" else AfterComma(PyMembers(keys, values, gap), gap)
  }

  // ---- the JSON text of the same value ----

  function ToJson(v: Value): (j: Json)
    requires Writable(v)
    ensures ValidJson(j)
  {
    match v
    case True => Atom("true")
    case False => Atom("false")
    case None => Atom("null")
    case Number(text) => Atom(text)
    case Text(t) => Str(t)
    case List(items) => Arr(AllToJson(items))
    case Dict(keys, values) => Obj(keys, AllToJson(values))
  }

  function AllToJson(vs: seq<Value>): (js: seq<Json>)
    requires AllWritable(vs)
    ensures |js| == |vs| && AllValid(js)
  {
    if vs == [] then [] else [ToJson(vs[0])] + AllToJson(vs[1..])
  }

  predicate AllValid(js: seq<Json>) {
    forall i :: 0 <= i < |js| ==> ValidJson(js[i])
  }

  /** JSON with the same gap; without a gap it is the compact text. */
  function PrintSpaced(j: Json, gap: string): string
    requires ValidJson(j)
    decreases j, 0
  {
    match j
    case Atom(text) => text
    case Str(s) => Quote(s)
    case Arr(items) => "[" + SpacedItems(items, gap) + "]"
    case Obj(keys, values) => "{" + SpacedMembers(keys, values, gap) + "}"
  }

  function SpacedItems(items: seq<Json>, gap: string): string
    requires AllValid(items)
    decreases items, 1
  {
    if items == [] then "" else PrintSpaced(items[0], gap) + SpacedMore(items[1..], gap)
  }

  function SpacedMore(items: seq<Json>, gap: string): string
    requires AllValid(items)
    decreases items, 2
  {
    if items == [] then "" else AfterComma(SpacedItems(items, gap), gap)
  }

  function SpacedMembers(keys: seq<string>, values: seq<Json>, gap: string): string
    requires |keys| == |values| && AllValid(values)
    decreases values, 1
  {
    if keys == [] then ""
    else Quote(keys[0]) + ((":" + gap) + (PrintSpaced(values[0], gap) + SpacedMoreMembers(keys[1..], values[1..], gap)))
  }

  function SpacedMoreMembers(keys: seq<string>, values: seq<Json>, gap: string): string
    requires |keys| == |values| && AllValid(values)
    decreases values, 2
  {
    if keys == [] then "" else AfterComma(SpacedMembers(keys, values, gap), gap)
  }

  lemma {:induction false} NoGap(j: Json)
    requires ValidJson(j)
    ensures PrintSpaced(j, "") == PrintJson(j)
    decreases j, 0
  {
    match j
    case Arr(items) => NoGapItems(items);
    case Obj(keys, values) => NoGapMembers(keys, values);
    case _ =>
  }

  lemma {:induction false} NoGapItems(items: seq<Json>)
    requires AllValid(items)
    ensures SpacedItems(items, "") == PrintItems(items)
    decreases items, 0
  {
    if items != [] {
      NoGap(items[0]);
      NoGapItems(items[1..]);
      hide PrintSpaced, PrintJson;
      assert "," + "" == ",";
    }
  }

  lemma {:induction false} NoGapMembers(keys: seq<string>, values: seq<Json>)
    requires |keys| == |values| && AllValid(values)
    ensures SpacedMembers(keys, values, "") == PrintMembers(keys, values)
    decreases values, 0
  {
    if keys != [] {
      NoGap(values[0]);
      NoGapMembers(keys[1..], values[1..]);
      hide PrintSpaced, PrintJson, Quote;
      assert "," + "" == "," && ":" + "" == ":";
      var rest := if |keys| == 1 then "" else "," + PrintMembers(keys[1..], values[1..]);
      Regroup(Quote(keys[0]), ":", PrintJson(values[0]), rest);
      assert SpacedMembers(keys, values, "") == Quote(keys[0]) + (":" + (PrintJson(values[0]) + rest));
    }
  }

  lemma Regroup(a: string, b: string, c: string, d: string)
    ensures a + (b + (c + d)) == a + b + c + d
  {
  }

  // ---- pieces of the input, in place ----

  predicate Reads(s: string, i: nat, x: string) {
    i + |x| <= |s| && s[i..i + |x|] == x
  }

  /** Outside quotes, the piece x at i is rewritten to out, whatever follows. */
  predicate Turns(s: string, i: nat, x: string, out: string)
    requires i + |x| <= |s|
  {
    NormalizeFrom(s, i, Out) == out + NormalizeFrom(s, i + |x|, Out)
  }

  lemma ReadsParts(s: string, i: nat, x: string, y: string)
    requires Reads(s, i, x + y)
    ensures Reads(s, i, x) && Reads(s, i + |x|, y) && i + |x| + |y| <= |s|
  {
    assert s[i..i + |x|] == s[i..i + |x + y|][..|x|];
    assert s[i + |x|..i + |x| + |y|] == s[i..i + |x + y|][|x|..];
  }

  lemma TurnsParts(s: string, i: nat, x: string, y: string, out: string, more: string)
    requires i + |x| + |y| <= |s| && Turns(s, i, x, out) && Turns(s, i + |x|, y, more)
    ensures Turns(s, i, x + y, out + more)
  {
    hide NormalizeFrom;
  }

  /** Characters that are copied wherever they stand outside quotes. */
  predicate Copied(c: char) {
    c != '\\' && c != '"' && c != '\'' && !IsInitial(c)
  }

  lemma {:induction false} CopiedTurns(s: string, i: nat, x: string)
    requires Reads(s, i, x) && forall k :: 0 <= k < |x| ==> Copied(x[k])
    ensures Turns(s, i, x, x)
    decreases |x|
  {
    if x != "" {
      assert s[i] == s[i..i + |x|][0] == x[0];
      assert x == [x[0]] + x[1..];
      ReadsParts(s, i, [x[0]], x[1..]);
      CopiedTurns(s, i + 1, x[1..]);
      NormalizeStep(s, i, Out);
      hide NormalizeFrom;
      assert Turns(s, i, [x[0]], [x[0]]);
      TurnsParts(s, i, [x[0]], x[1..], [x[0]], x[1..]);
    }
  }

  predicate WordStarts(s: string, i: nat)
    requires i <= |s|
  {
    i == 0 || !IsWordChar(s[i - 1])
  }

  predicate WordEnds(s: string, i: nat)
    requires i <= |s|
  {
    i == |s| || !IsWordChar(s[i])
  }

  lemma {:induction false} WordLenIs(s: string, i: nat, x: string)
    requires Reads(s, i, x) && WordEnds(s, i + |x|) && forall k :: 0 <= k < |x| ==> IsWordChar(x[k])
    ensures WordLen(s, i) == |x|
    decreases |x|
  {
    if x != "" {
      assert s[i] == s[i..i + |x|][0] == x[0];
      ReadsParts(s, i, [x[0]], x[1..]);
      assert x == [x[0]] + x[1..];
      WordLenIs(s, i + 1, x[1..]);
    }
  }

  lemma WordTurns(s: string, i: nat, x: string, out: string)
    requires (x == "True" && out == "true") || (x == "False" && out == "false") || (x == "None" && out == "null")
    requires Reads(s, i, x) && WordStarts(s, i) && WordEnds(s, i + |x|)
    ensures Turns(s, i, x, out)
  {
    WordLenIs(s, i, x);
    assert s[i] == s[i..i + |x|][0] == x[0];
    NormalizeStep(s, i, Out);
    assert Word(s, i) == x;
    LiteralIs(x, out);
    hide NormalizeFrom, Literal, WordLen, Word;
    assert Step(s, i, Out) == Move(i + |x|, out, Out);
  }

  lemma LiteralIs(x: string, out: string)
    requires (x == "True" && out == "true") || (x == "False" && out == "false") || (x == "None" && out == "null")
    ensures Literal(x) == Some(out)
  {
    assert "true"[..4] == "true" && "false"[..5] == "false" && "null"[..4] == "null";
    assert x[0] == 'T' || x[0] == 'F' || x[0] == 'N';
    assert x[0] != 'T' ==> !(x <= "True");
    assert x[0] != 'F' ==> !(x <= "False");
  }

  // ---- strings ----

  /** The body of the JSON string is the text, escaped. */
  lemma {:induction false} ReprIsEscape(t: string)
    requires Printable(t)
    ensures BodyToJson(PyRepr(t, '\'')) == Escape(t)
    ensures '"' !in t ==> PyRepr(t, '"') == Escape(t)
  {
    if t != "" {
      var rest := PyRepr(t[1..], '\'');
      ReprIsEscape(t[1..]);
      ReprCharIsEscape(t[0], rest);
      hide ReprChar, EscapeChar, BodyToJson;
      assert t == [t[0]] + t[1..];
    }
  }

  lemma ReprCharIsEscape(c: char, rest: string)
    requires PrintableChar(c)
    ensures BodyToJson(ReprChar(c, '\'') + rest) == EscapeChar(c) + BodyToJson(rest)
    ensures c != '"' ==> ReprChar(c, '"') == EscapeChar(c)
  {
    var b := ReprChar(c, '\'') + rest;
    assert |ReprChar(c, '\'')| == 1 ==> b[1..] == rest;
    assert |ReprChar(c, '\'')| == 2 ==> b[2..] == rest && b[1] == ReprChar(c, '\'')[1];
  }

  lemma SingleTurns(s: string, i: nat, t: string)
    requires Printable(t) && Reads(s, i, "'" + PyRepr(t, '\'') + "'")
    ensures Turns(s, i, "'" + PyRepr(t, '\'') + "'", Quote(t))
  {
    hide NormalizeFrom, PyRepr, BodyToJson, Escape, PyDecode;
    var b := PyRepr(t, '\'');
    DecodeRepr(t);
    ReprIsEscape(t);
    assert "'" + b + "'" == "'" + (b + "'");
    ReadsParts(s, i, "'", b + "'");
    assert s[i] == s[i..i + 1][0];
    NormalizeStep(s, i, Out);
    assert s[i + 1..] == s[i + 1..i + 1 + |b + "'"|] + s[i + 1 + |b| + 1..] == b + "'" + s[i + 1 + |b| + 1..];
    BodyConverts(s, i + 1, b, s[i + 1 + |b| + 1..]);
    var tail := NormalizeFrom(s, i + |b| + 2, Out);
    QuotesAround(Escape(t), tail);
  }

  /** Between double quotes every character and every escape is copied. */
  lemma {:induction false} DoubleBody(s: string, i: nat, t: string)
    requires '"' !in t && Printable(t) && Reads(s, i, PyRepr(t, '"') + "\"")
    ensures
      var n := i + |PyRepr(t, '"')| + 1;
      n <= |s| && NormalizeFrom(s, i, Double) == PyRepr(t, '"') + "\"" + NormalizeFrom(s, n, Out)
    decreases |t|
  {
    hide NormalizeFrom;
    var b := PyRepr(t, '"');
    if t == "" {
      assert b + "\"" == "\"";
      assert s[i] == s[i..i + 1][0];
      NormalizeStep(s, i, Double);
      assert "" + "\"" + NormalizeFrom(s, i + 1, Out) == "\"" + NormalizeFrom(s, i + 1, Out);
    } else {
      var c, rest := ReprChar(t[0], '"'), PyRepr(t[1..], '"');
      assert b + "\"" == c + (rest + "\"");
      ReadsParts(s, i, c, rest + "\"");
      DoubleChar(s, i, t[0]);
      DoubleBody(s, i + |c|, t[1..]);
      hide ReprChar, PyRepr;
      var tail := NormalizeFrom(s, i + |b| + 1, Out);
      assert c + (rest + "\"" + tail) == b + "\"" + tail;
    }
  }

  lemma DoubleChar(s: string, i: nat, c: char)
    requires c != '"' && Reads(s, i, ReprChar(c, '"'))
    ensures
      var r := ReprChar(c, '"');
      NormalizeFrom(s, i, Double) == r + NormalizeFrom(s, i + |r|, Double)
  {
    hide NormalizeFrom;
    var r := ReprChar(c, '"');
    assert s[i] == s[i..i + |r|][0] == r[0];
    assert |r| == 2 ==> s[i + 1] == s[i..i + |r|][1] == r[1];
    NormalizeStep(s, i, Double);
  }

  lemma TextTurns(s: string, i: nat, t: string)
    requires Printable(t) && Reads(s, i, PyText(t))
    ensures Turns(s, i, PyText(t), Quote(t))
  {
    hide NormalizeFrom, PyRepr, Escape, Reads, Turns, Quote;
    if '\'' in t && '"' !in t {
      DoubleTurns(s, i, t);
    } else {
      SingleTurns(s, i, t);
    }
  }

  lemma DoubleTurns(s: string, i: nat, t: string)
    requires '"' !in t && Printable(t) && Reads(s, i, "\"" + PyRepr(t, '"') + "\"")
    ensures Turns(s, i, "\"" + PyRepr(t, '"') + "\"", Quote(t))
  {
    hide NormalizeFrom, PyRepr, Escape;
    var b := PyRepr(t, '"');
    ReprIsEscape(t);
    assert "\"" + b + "\"" == "\"" + (b + "\"");
    ReadsParts(s, i, "\"", b + "\"");
    assert s[i] == s[i..i + 1][0];
    NormalizeStep(s, i, Out);
    DoubleBody(s, i + 1, t);
    QuotesAround(b, NormalizeFrom(s, i + |b| + 2, Out));
  }

  lemma QuotesAround(b: string, tail: string)
    ensures "\"" + (b + "\"" + tail) == "\"" + b + "\"" + tail
  {
  }

  // ---- whole values ----

  predicate Gap(gap: string) {
    forall k :: 0 <= k < |gap| ==> gap[k] == ' ' || gap[k] == '\n' || gap[k] == '\r' || gap[k] == '\t'
  }

  /** After a mark and a gap a word may start. */
  lemma MarkTurns(s: string, i: nat, mark: char, gap: string)
    requires Gap(gap) && (mark == ',' || mark == ':' || mark == '[' || mark == '{' || mark == ']' || mark == '}')
    requires Reads(s, i, [mark] + gap)
    ensures Turns(s, i, [mark] + gap, [mark] + gap) && WordStarts(s, i + 1 + |gap|) && WordEnds(s, i)
  {
    var x := [mark] + gap;
    CopiedTurns(s, i, x);
    assert s[i + |gap|] == s[i..i + |x|][|gap|] == x[|gap|];
    assert s[i] == s[i..i + |x|][0] == x[0];
  }

  lemma {:induction false} ValueTurns(s: string, i: nat, v: Value, gap: string)
    requires Writable(v) && Gap(gap) && Reads(s, i, PyPrint(v, gap))
    requires WordStarts(s, i) && WordEnds(s, i + |PyPrint(v, gap)|)
    ensures Turns(s, i, PyPrint(v, gap), PrintSpaced(ToJson(v), gap))
    decreases v, 1
  {
    hide Turns, Reads, Quote, PyText, Gap;
    match v
    case True => WordTurns(s, i, "True", "true");
    case False => WordTurns(s, i, "False", "false");
    case None => WordTurns(s, i, "None", "null");
    case Number(text) => CopiedTurns(s, i, text);
    case Text(t) => TextTurns(s, i, t);
    case List(items) =>
      BracketTurns(s, i, '[', PyItems(items, gap), ']');
      ItemsTurn(s, i + 1, items, gap);
      Bracketed(s, i, '[', PyItems(items, gap), SpacedItems(AllToJson(items), gap), ']');
    case Dict(keys, values) =>
      BracketTurns(s, i, '{', PyMembers(keys, values, gap), '}');
      MembersTurn(s, i + 1, keys, values, gap);
      Bracketed(s, i, '{', PyMembers(keys, values, gap), SpacedMembers(keys, AllToJson(values), gap), '}');
  }

  lemma BracketTurns(s: string, i: nat, open: char, x: string, close: char)
    requires (open == '[' && close == ']') || (open == '{' && close == '}')
    requires Reads(s, i, [open] + x + [close])
    ensures i + |x| + 2 <= |s| && Reads(s, i + 1, x) && WordStarts(s, i + 1) && WordEnds(s, i + 1 + |x|)
    ensures Turns(s, i, [open], [open]) && Turns(s, i + 1 + |x|, [close], [close])
  {
    hide Turns;
    ReadsParts(s, i, [open] + x, [close]);
    ReadsParts(s, i, [open], x);
    assert [open] + "" == [open] && [close] + "" == [close];
    MarkTurns(s, i, open, "");
    MarkTurns(s, i + 1 + |x|, close, "");
  }

  lemma Bracketed(s: string, i: nat, open: char, x: string, out: string, close: char)
    requires i + |x| + 2 <= |s|
    requires Turns(s, i, [open], [open]) && Turns(s, i + 1, x, out) && Turns(s, i + 1 + |x|, [close], [close])
    ensures Turns(s, i, [open] + x + [close], [open] + out + [close])
  {
    TurnsParts(s, i, [open], x, [open], out);
    TurnsParts(s, i, [open] + x, [close], [open] + out, [close]);
    hide Turns;
  }

  lemma EmptyTurns(s: string, i: nat)
    requires i <= |s|
    ensures Turns(s, i, "", "")
  {
  }

  lemma AllToJsonTail(vs: seq<Value>)
    requires vs != [] && AllWritable(vs)
    ensures Writable(vs[0]) && AllWritable(vs[1..])
    ensures |AllToJson(vs)| == |vs| && AllToJson(vs)[0] == ToJson(vs[0]) && AllToJson(vs)[1..] == AllToJson(vs[1..])
  {
    hide ToJson;
  }

  lemma ItemsStep(items: seq<Value>, gap: string)
    requires items != [] && AllWritable(items)
    ensures Writable(items[0]) && AllWritable(items[1..])
    ensures PyItems(items, gap) == PyPrint(items[0], gap) + PyMore(items[1..], gap)
    ensures
      SpacedItems(AllToJson(items), gap) == PrintSpaced(ToJson(items[0]), gap) + SpacedMore(AllToJson(items[1..]), gap)
  {
    AllToJsonTail(items);
    hide PyPrint, PrintSpaced, ToJson, AllToJson, Writable, ValidJson, PyMore, SpacedMore;
  }

  lemma NothingTurns(s: string, i: nat, gap: string)
    requires Reads(s, i, "")
    ensures PyItems([], gap) == "" == PyMembers([], [], gap)
    ensures Turns(s, i, PyItems([], gap), SpacedItems(AllToJson([]), gap))
    ensures Turns(s, i, PyMembers([], [], gap), SpacedMembers([], AllToJson([]), gap))
  {
    EmptyTurns(s, i);
  }

  lemma NoItems(gap: string)
    ensures PyItems([], gap) == "" == PyMembers([], [], gap)
  {
  }

  lemma {:induction false} ItemsTurn(s: string, i: nat, items: seq<Value>, gap: string)
    requires AllWritable(items) && Gap(gap) && Reads(s, i, PyItems(items, gap))
    requires WordStarts(s, i) && WordEnds(s, i + |PyItems(items, gap)|)
    ensures Turns(s, i, PyItems(items, gap), SpacedItems(AllToJson(items), gap))
    decreases items, 3
  {
    hide *;
    if items == [] {
      NoItems(gap);
      NothingTurns(s, i, gap);
    } else {
      ItemsStep(items, gap);
      var first, tail := PyPrint(items[0], gap), PyMore(items[1..], gap);
      ReadsParts(s, i, first, tail);
      MoreTurn(s, i + |first|, items[1..], gap);
      ValueTurns(s, i, items[0], gap);
      TurnsParts(s, i, first, tail, PrintSpaced(ToJson(items[0]), gap), SpacedMore(AllToJson(items[1..]), gap));
    }
  }

  lemma {:induction false} MoreTurn(s: string, i: nat, items: seq<Value>, gap: string)
    requires AllWritable(items) && Gap(gap) && Reads(s, i, PyMore(items, gap)) && WordEnds(s, i + |PyMore(items, gap)|)
    ensures i <= |s| && WordEnds(s, i) && Turns(s, i, PyMore(items, gap), SpacedMore(AllToJson(items), gap))
    decreases items, 4
  {
    hide *;
    MoreStep(items, gap);
    if items == [] {
      BlankTurns(s, i);
    } else {
      var rest, out := PyItems(items, gap), SpacedItems(AllToJson(items), gap);
      CommaTurns(s, i, rest, gap);
      ItemsTurn(s, i + 1 + |gap|, items, gap);
      CommaThen(s, i, rest, out, gap);
    }
  }

  lemma MoreStep(items: seq<Value>, gap: string)
    requires AllWritable(items)
    ensures items == [] ==> PyMore(items, gap) == SpacedMore(AllToJson(items), gap) == ""
    ensures items != [] ==>
      && PyMore(items, gap) == AfterComma(PyItems(items, gap), gap)
      && SpacedMore(AllToJson(items), gap) == AfterComma(SpacedItems(AllToJson(items), gap), gap)
  {
    hide PyItems, SpacedItems, ToJson;
  }

  lemma MoreMembersStep(keys: seq<string>, values: seq<Value>, gap: string)
    requires |keys| == |values| && AllWritable(values)
    ensures keys == [] ==>
      PyMoreMembers(keys, values, gap) == SpacedMoreMembers(keys, AllToJson(values), gap) == ""
    ensures keys != [] ==>
      && PyMoreMembers(keys, values, gap) == AfterComma(PyMembers(keys, values, gap), gap)
      && SpacedMoreMembers(keys, AllToJson(values), gap) == AfterComma(SpacedMembers(keys, AllToJson(values), gap), gap)
  {
    hide PyMembers, SpacedMembers, ToJson;
  }

  lemma BlankTurns(s: string, i: nat)
    requires Reads(s, i, "") && WordEnds(s, i + |""|)
    ensures i <= |s| && WordEnds(s, i) && Turns(s, i, "", "")
  {
  }

  lemma CommaTurns(s: string, i: nat, rest: string, gap: string)
    requires Gap(gap) && Reads(s, i, AfterComma(rest, gap))
    ensures Turns(s, i, [','] + gap, [','] + gap) && WordEnds(s, i) && i + 1 + |gap| + |rest| <= |s|
    ensures WordStarts(s, i + 1 + |gap|) && Reads(s, i + 1 + |gap|, rest)
  {
    ReadsParts(s, i, [','] + gap, rest);
    MarkTurns(s, i, ',', gap);
    hide Turns, Reads, WordStarts, WordEnds;
  }

  lemma CommaThen(s: string, i: nat, rest: string, out: string, gap: string)
    requires i + 1 + |gap| + |rest| <= |s| && Turns(s, i, [','] + gap, [','] + gap)
    requires Turns(s, i + 1 + |gap|, rest, out)
    ensures Turns(s, i, AfterComma(rest, gap), AfterComma(out, gap))
  {
    hide Turns;
    TurnsParts(s, i, [','] + gap, rest, [','] + gap, out);
  }

  lemma FourTurn(s: string, i: nat, a: string, b: string, c: string, d: string,
                 aOut: string, bOut: string, cOut: string, dOut: string)
    requires i + |a| + |b| + |c| + |d| <= |s|
    requires Turns(s, i, a, aOut) && Turns(s, i + |a|, b, bOut)
    requires Turns(s, i + |a| + |b|, c, cOut) && Turns(s, i + |a| + |b| + |c|, d, dOut)
    ensures Turns(s, i, a + (b + (c + d)), aOut + (bOut + (cOut + dOut)))
  {
    hide Turns;
    TurnsParts(s, i + |a| + |b|, c, d, cOut, dOut);
    TurnsParts(s, i + |a|, b, c + d, bOut, cOut + dOut);
    TurnsParts(s, i, a, b + (c + d), aOut, bOut + (cOut + dOut));
  }

  lemma FourRead(s: string, i: nat, a: string, b: string, c: string, d: string)
    requires Reads(s, i, a + (b + (c + d)))
    ensures i + |a| + |b| + |c| + |d| <= |s| && Reads(s, i, a) && Reads(s, i + |a|, b)
    ensures Reads(s, i + |a| + |b|, c) && Reads(s, i + |a| + |b| + |c|, d)
  {
    ReadsParts(s, i, a, b + (c + d));
    ReadsParts(s, i + |a|, b, c + d);
    ReadsParts(s, i + |a| + |b|, c, d);
  }

  lemma MembersStep(keys: seq<string>, values: seq<Value>, gap: string)
    requires |keys| == |values| > 0 && AllWritable(values)
    ensures Writable(values[0]) && AllWritable(values[1..])
    ensures
      PyMembers(keys, values, gap)
      == PyText(keys[0]) + (([':'] + gap) + (PyPrint(values[0], gap) + PyMoreMembers(keys[1..], values[1..], gap)))
    ensures
      SpacedMembers(keys, AllToJson(values), gap)
      == Quote(keys[0]) + (([':'] + gap) + (PrintSpaced(ToJson(values[0]), gap)
         + SpacedMoreMembers(keys[1..], AllToJson(values[1..]), gap)))
  {
    AllToJsonTail(values);
    hide PyPrint, PrintSpaced, ToJson, AllToJson, Writable, ValidJson, PyText, Quote, PyMoreMembers, SpacedMoreMembers;
  }

  predicate AllPrintable(keys: seq<string>) {
    forall k :: 0 <= k < |keys| ==> Printable(keys[k])
  }

  lemma TailPrintable(keys: seq<string>)
    requires AllPrintable(keys) && keys != []
    ensures Printable(keys[0]) && AllPrintable(keys[1..])
  {
    hide Printable;
  }

  lemma {:induction false} MembersTurn(s: string, i: nat, keys: seq<string>, values: seq<Value>, gap: string)
    requires |keys| == |values| && AllWritable(values) && Gap(gap)
    requires AllPrintable(keys) && Reads(s, i, PyMembers(keys, values, gap))
    requires WordStarts(s, i) && WordEnds(s, i + |PyMembers(keys, values, gap)|)
    ensures Turns(s, i, PyMembers(keys, values, gap), SpacedMembers(keys, AllToJson(values), gap))
    decreases values, 3
  {
    hide *;
    if keys == [] {
      NoItems(gap);
      NothingTurns(s, i, gap);
    } else {
      TailPrintable(keys);
      MembersStep(keys, values, gap);
      var key, colon, first := PyText(keys[0]), [':'] + gap, PyPrint(values[0], gap);
      var tail := PyMoreMembers(keys[1..], values[1..], gap);
      var more := SpacedMoreMembers(keys[1..], AllToJson(values[1..]), gap);
      FourRead(s, i, key, colon, first, tail);
      var j := i + |key| + |colon|;
      MarkTurns(s, i + |key|, ':', gap);
      MoreMembersTurn(s, j + |first|, keys[1..], values[1..], gap);
      ValueTurns(s, j, values[0], gap);
      TextTurns(s, i, keys[0]);
      FourTurn(s, i, key, colon, first, tail, Quote(keys[0]), colon, PrintSpaced(ToJson(values[0]), gap), more);
    }
  }

  lemma {:induction false} MoreMembersTurn(s: string, i: nat, keys: seq<string>, values: seq<Value>, gap: string)
    requires |keys| == |values| && AllWritable(values) && Gap(gap)
    requires AllPrintable(keys) && Reads(s, i, PyMoreMembers(keys, values, gap))
    requires WordEnds(s, i + |PyMoreMembers(keys, values, gap)|)
    ensures i <= |s| && WordEnds(s, i)
    ensures Turns(s, i, PyMoreMembers(keys, values, gap), SpacedMoreMembers(keys, AllToJson(values), gap))
    decreases values, 4
  {
    hide *;
    MoreMembersStep(keys, values, gap);
    if keys == [] {
      BlankTurns(s, i);
    } else {
      var rest, out := PyMembers(keys, values, gap), SpacedMembers(keys, AllToJson(values), gap);
      CommaTurns(s, i, rest, gap);
      MembersTurn(s, i + 1 + |gap|, keys, values, gap);
      CommaThen(s, i, rest, out, gap);
    }
  }

  /** What Python prints for a value, rewritten, is the JSON text of the value with the same gaps. */
  lemma PrintedValue(v: Value, gap: string)
    requires Writable(v) && Gap(gap)
    ensures Normalize(PyPrint(v, gap)) == PrintSpaced(ToJson(v), gap)
    ensures gap == "" ==> Normalize(PyPrint(v, gap)) == PrintJson(ToJson(v))
  {
    var s := PyPrint(v, gap);
    assert s[0..|s|] == s;
    ValueTurns(s, 0, v, gap);
    NormalizeEnd(s, Out);
    hide NormalizeFrom, PrintSpaced, PrintJson;
    NoGap(ToJson(v));
    assert PrintSpaced(ToJson(v), gap) + "" == PrintSpaced(ToJson(v), gap);
  }

  // ---- other words ----

  predicate WordChar(c: char) {
    '0' <= c <= '9' || 'a' <= c <= 'z' || 'A' <= c <= 'Z' || c == '_'
  }

  lemma {:induction false} RestKept(s: string, i: nat)
    requires 0 < i <= |s| && forall k :: 0 <= k < |s| ==> WordChar(s[k])
    ensures NormalizeFrom(s, i, Out) == s[i..]
    decreases |s| - i
  {
    if i == |s| {
      NormalizeEnd(s, Out);
    } else {
      NormalizeStep(s, i, Out);
      assert WordChar(s[i - 1]) && WordChar(s[i]);
      RestKept(s, i + 1);
      assert s[i..] == [s[i]] + s[i + 1..];
      hide NormalizeFrom, Literal, WordLen;
    }
  }

  /** A word is rewritten as a beginning of one of the three literals, or not at all. */
  lemma OtherWords(s: string)
    requires s != "" && forall k :: 0 <= k < |s| ==> WordChar(s[k])
    ensures
      Normalize(s)
      == if s <= "True" then "true"[..|s|]
         else if s <= "False" then "false"[..|s|]
         else if s <= "None" then "null"[..|s|]
         else s
  {
    assert WordChar(s[0]);
    RestKept(s, 1);
    NormalizeEnd(s, Out);
    NormalizeStep(s, 0, Out);
    WholeWord(s);
    assert s == [s[0]] + s[1..];
    hide NormalizeFrom, Step;
    if Literal(s).Some? {
      assert Literal(s).value + "" == Literal(s).value;
    }
  }

  /** The first step on a word takes all of it, or one character. */
  lemma WholeWord(s: string)
    requires s != "" && forall k :: 0 <= k < |s| ==> WordChar(s[k])
    ensures Step(s, 0, Out) == if Literal(s).Some? then Move(|s|, Literal(s).value, Out) else Move(1, [s[0]], Out)
  {
    forall k | 0 <= k < |s|
      ensures IsWordChar(s[k])
    {
      assert WordChar(s[k]);
    }
    assert s[0..|s|] == s;
    WordLenIs(s, 0, s);
    assert Word(s, 0) == s;
    if Literal(s).Some? {
      LiteralFirst(s);
    }
    hide WordLen, Word, Literal;
  }
}
