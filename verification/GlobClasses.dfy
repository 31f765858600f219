/** What the single-character tokens of a pattern mean, told by how they are written. */
module GlobClasses {
  import opened Common
  import opened GlobMatch

  /** One entry of a class: a character, or all from lo to hi. */
  datatype Entry = Single(c: char) | Span(lo: char, hi: char)

  function Write(e: Entry): (r: string)
    ensures r != ""
  {
    match e
    case Single(c) => [c]
    case Span(lo, hi) => [lo, '-', hi]
  }

  function WriteAll(es: seq<Entry>): string {
    if es == [] then "" else Write(es[0]) + WriteAll(es[1..])
  }

  function ClassText(es: seq<Entry>, negated: bool): string {
    (if negated then "!" else "") + WriteAll(es)
  }

  predicate Holds(e: Entry, c: char, signed: bool) {
    match e
    case Single(x) => c == x
    case Span(lo, hi) => Code(lo, signed) <= Code(c, signed) <= Code(hi, signed)
  }

  predicate SomeHolds(es: seq<Entry>, c: char, signed: bool) {
    exists k :: 0 <= k < |es| && Holds(es[k], c, signed)
  }

  /** An entry after the first: no bracket, and a dash for itself only at the end. */
  predicate Later(e: Entry, last: bool) {
    match e
    case Single(c) => c != ']' && (c == '-' ==> last)
    case Span(lo, hi) => lo != ']' && lo != '-' && hi != ']'
  }

  predicate AllLater(es: seq<Entry>)
    decreases |es|
  {
    es != [] ==> Later(es[0], |es| == 1) && AllLater(es[1..])
  }

  /** The first entry may be a dash for itself and, if the class is not negated, a bracket; no `!` unless it negates. */
  predicate Legal(es: seq<Entry>, negated: bool) {
    && es != [] && AllLater(es[1..])
    && (es[0] == Single('-') || (es[0] == Single(']') && !negated) || Later(es[0], false))
    && (!negated ==> Write(es[0])[0] != '!')
  }

  // ---- reading the entries back ----

  lemma SomeHoldsStep(e: Entry, rest: seq<Entry>, c: char, signed: bool)
    ensures SomeHolds([e] + rest, c, signed) <==> Holds(e, c, signed) || SomeHolds(rest, c, signed)
  {
    hide Holds;
    var all := [e] + rest;
    if Holds(e, c, signed) {
      assert Holds(all[0], c, signed);
    }
    if SomeHolds(rest, c, signed) {
      var k :| 0 <= k < |rest| && Holds(rest[k], c, signed);
      assert Holds(all[k + 1], c, signed);
    }
    if SomeHolds(all, c, signed) {
      var k :| 0 <= k < |all| && Holds(all[k], c, signed);
      assert k > 0 ==> all[k] == rest[k - 1];
    }
  }

  /** A character is never followed by a dash and more. */
  lemma AfterEntry(es: seq<Entry>)
    requires AllLater(es)
    ensures es != [] ==> var text := WriteAll(es); text != "" && (text[0] == '-' ==> |text| == 1)
  {
    if es != [] && |es| == 1 {
      assert WriteAll(es[1..]) == "";
    }
  }

  lemma {:induction false} EntriesRead(s: string, i: nat, es: seq<Entry>, c: char, signed: bool)
    requires i <= |s| && s[i..] == WriteAll(es) && AllLater(es)
    ensures InSome(ItemsFrom(s, i), c, signed) <==> SomeHolds(es, c, signed)
    decreases |es|
  {
    hide InSome, SomeHolds, Has, Holds;
    if es == [] {
      NoItems(s, i, c, signed);
      NoEntries(c, signed);
    } else {
      var e, rest := es[0], es[1..];
      var n := |Write(e)|;
      assert es == [e] + rest;
      assert s[i..] == Write(e) + WriteAll(rest);
      assert s[i + n..] == s[i..][n..] == WriteAll(rest);
      AfterEntry(rest);
      EntryRead(s, i, e, WriteAll(rest));
      EntriesRead(s, i + n, rest, c, signed);
      var item := if e.Single? then Item(e.c, e.c) else Item(e.lo, e.hi);
      InSomeStep(item, ItemsFrom(s, i + n), c, signed);
      SomeHoldsStep(e, rest, c, signed);
      EntryHas(e, item, c, signed);
    }
  }

  lemma NoEntries(c: char, signed: bool)
    ensures !SomeHolds([], c, signed)
  {
  }

  lemma EntryHas(e: Entry, item: Item, c: char, signed: bool)
    requires item == if e.Single? then Item(e.c, e.c) else Item(e.lo, e.hi)
    ensures Has(item, c, signed) <==> Holds(e, c, signed)
  {
  }

  lemma EntryRead(s: string, i: nat, e: Entry, rest: string)
    requires i <= |s| && s[i..] == Write(e) + rest
    requires Later(e, rest == "") && (rest != "" && rest[0] == '-' ==> |rest| == 1)
    ensures
      ItemsFrom(s, i)
      == [if e.Single? then Item(e.c, e.c) else Item(e.lo, e.hi)] + ItemsFrom(s, i + |Write(e)|)
  {
    hide ItemsFrom;
    assert |s| == i + |Write(e)| + |rest|;
    assert s[i] == s[i..][0];
    assert i + 1 < |s| ==> s[i + 1] == s[i..][1];
    assert i + 2 < |s| ==> s[i + 2] == s[i..][2];
    ItemsStep(s, i);
  }

  lemma ItemsStep(s: string, i: nat)
    requires i < |s|
    ensures
      ItemsFrom(s, i)
      == if i + 2 < |s| && s[i + 1] == '-' && s[i + 2] != ']' then [Item(s[i], s[i + 2])] + ItemsFrom(s, i + 3)
         else [Item(s[i], s[i])] + ItemsFrom(s, i + 1)
  {
  }

  /** A written class has exactly the characters of its entries, or exactly the others if negated. */
  lemma ClassReads(es: seq<Entry>, negated: bool, c: char, signed: bool)
    requires Legal(es, negated)
    ensures InClass(ClassText(es, negated), c, signed) <==> SomeHolds(es, c, signed) != negated
  {
    hide ItemsFrom, InSome, SomeHolds, Has, Holds;
    var content, i := ClassText(es, negated), if negated then 1 else 0;
    assert es == [es[0]] + es[1..];
    assert content[i..] == WriteAll(es) == Write(es[0]) + WriteAll(es[1..]);
    assert content[i] == content[i..][0] == Write(es[0])[0];
    if es[0] == Single('-') || es[0] == Single(']') {
      assert content[i + 1..] == content[i..][1..] == WriteAll(es[1..]);
      EntriesRead(content, i + 1, es[1..], c, signed);
      InSomeStep(Item(content[i], content[i]), ItemsFrom(content, i + 1), c, signed);
      SomeHoldsStep(es[0], es[1..], c, signed);
      EntryHas(es[0], Item(content[i], content[i]), c, signed);
    } else {
      EntriesRead(content, i, es, c, signed);
    }
  }

  // ---- where the class ends ----

  lemma {:induction false} BracketAt(p: string, i: nat, end: nat)
    requires i <= end <= |p| && (end < |p| ==> p[end] == ']') && forall k :: i <= k < end ==> p[k] != ']'
    ensures BracketFrom(p, i) == end
    decreases end - i
  {
    if i < end {
      BracketAt(p, i + 1, end);
    }
  }

  lemma {:induction false} NoBracket(es: seq<Entry>)
    requires AllLater(es)
    ensures ']' !in WriteAll(es)
    decreases |es|
  {
    if es != [] {
      NoBracket(es[1..]);
    }
  }

  lemma InPlace(p: string, i: nat, text: string, rest: string)
    requires i < |p| && p[i..] == "[" + text + "]" + rest
    ensures i + 1 + |text| < |p| && p[i] == '[' && p[i + 1 + |text|] == ']' && p[i + 1..i + 1 + |text|] == text
    ensures forall k :: i < k <= i + |text| ==> p[k] == text[k - i - 1]
  {
    var end := i + 1 + |text|;
    assert |p| == end + 1 + |rest|;
    assert p[i] == p[i..][0];
    assert p[end] == p[i..][1 + |text|] == ']';
    var whole := "[" + text + "]" + rest;
    forall k | i < k <= i + |text|
      ensures p[k] == text[k - i - 1]
    {
      assert p[k] == p[i..][k - i] == whole[k - i];
    }
    assert p[i + 1..end] == text;
  }

  lemma FirstCharacter(es: seq<Entry>, negated: bool)
    requires Legal(es, negated)
    ensures ClassText(es, negated) != ""
    ensures ClassText(es, negated)[0] == if negated then '!' else Write(es[0])[0]
  {
  }

  lemma ClassCloses(p: string, i: nat, es: seq<Entry>, negated: bool, rest: string)
    requires i < |p| && p[i..] == "[" + ClassText(es, negated) + "]" + rest && Legal(es, negated)
    ensures i + 1 + |ClassText(es, negated)| < |p| && ClassEnd(p, i + 1) == i + 1 + |ClassText(es, negated)|
    ensures p[i] == '[' && p[i + 1..i + 1 + |ClassText(es, negated)|] == ClassText(es, negated)
  {
    hide BracketFrom, ClassText, Legal, Write;
    var text := ClassText(es, negated);
    InPlace(p, i, text, rest);
    FirstCharacter(es, negated);
    var from := if p[i + 1] == ']' || p[i + 1] == '-' then i + 2 else i + 1;
    forall k | from <= k <= i + |text|
      ensures p[k] != ']'
    {
      LaterText(es, negated, k - i - 1);
    }
    BracketAt(p, from, i + 1 + |text|);
  }

  /** Only a first entry can be a bracket. */
  lemma LaterText(es: seq<Entry>, negated: bool, k: nat)
    requires Legal(es, negated) && k < |ClassText(es, negated)|
    ensures ClassText(es, negated)[k] == ']' ==> k == 0 && !negated
  {
    NoBracket(es[1..]);
    var mark, first, tail := if negated then "!" else "", Write(es[0]), WriteAll(es[1..]);
    assert ClassText(es, negated) == mark + (first + tail);
    FirstText(es, negated);
    hide WriteAll, AllLater, Write, Legal;
    if k >= |mark| + |first| {
      assert (mark + (first + tail))[k] == tail[k - |mark| - |first|];
      assert tail[k - |mark| - |first|] in tail;
    } else if k >= |mark| {
      assert (mark + (first + tail))[k] == first[k - |mark|];
    }
  }

  lemma FirstText(es: seq<Entry>, negated: bool)
    requires Legal(es, negated)
    ensures forall k :: 0 <= k < |Write(es[0])| && Write(es[0])[k] == ']' ==> k == 0 && !negated
  {
  }

  // ---- what a pattern with one accepts ----

  /** A class takes one character, which one of its entries has, or none if it is negated. */
  lemma ClassAccepts(p: string, i: nat, es: seq<Entry>, negated: bool, rest: string, s: string, signed: bool)
    requires i < |p| && p[i..] == "[" + ClassText(es, negated) + "]" + rest && Legal(es, negated)
    ensures i + 2 + |ClassText(es, negated)| <= |p|
    ensures
      Accepts(TokensFrom(p, i), s, signed)
      <==> && s != "" && SomeHolds(es, s[0], signed) != negated
           && Accepts(TokensFrom(p, i + 2 + |ClassText(es, negated)|), s[1..], signed)
  {
    hide Accepts, SomeHolds, InClass, ClassText, ClassEnd, Legal;
    ClassCloses(p, i, es, negated, rest);
    IsClass(p, i);
    TokensStep(p, i);
    hide TokensFrom, TokenAt, NextAt;
    AcceptsOne(Class(ClassText(es, negated)), TokensFrom(p, i + 2 + |ClassText(es, negated)|), s, signed);
    if s != "" {
      ClassReads(es, negated, s[0], signed);
    }
  }

  /** A pattern that is one class accepts the texts of one character that it has. */
  lemma OneClass(es: seq<Entry>, negated: bool, s: string, signed: bool)
    requires Legal(es, negated)
    ensures
      Accepts(TokensFrom("[" + ClassText(es, negated) + "]", 0), s, signed)
      <==> |s| == 1 && SomeHolds(es, s[0], signed) != negated
  {
    hide Accepts, SomeHolds, ClassText, Legal, TokensFrom;
    var p := "[" + ClassText(es, negated) + "]";
    assert p[0..] == p + "";
    ClassAccepts(p, 0, es, negated, "", s, signed);
    TokensEnd(p);
    if s != "" {
      AcceptsNothing(s[1..], signed);
    }
  }

  /** A question mark takes one character that is not a slash. */
  lemma QuestionAccepts(p: string, i: nat, s: string, signed: bool)
    requires i < |p| && p[i] == '?'
    ensures
      Accepts(TokensFrom(p, i), s, signed)
      <==> s != "" && s[0] != '/' && Accepts(TokensFrom(p, i + 1), s[1..], signed)
  {
    hide Accepts;
    IsOne(p, i);
    TokensStep(p, i);
    AcceptsOne(One, TokensFrom(p, i + 1), s, signed);
  }

  /** A bracket that no later one closes takes itself. */
  lemma OpenBracketAccepts(p: string, i: nat, s: string, signed: bool)
    requires i < |p| && p[i] == '[' && (forall k :: i + 2 <= k < |p| ==> p[k] != ']')
    ensures
      Accepts(TokensFrom(p, i), s, signed)
      <==> s != "" && s[0] == '[' && Accepts(TokensFrom(p, i + 1), s[1..], signed)
  {
    hide Accepts;
    BracketAt(p, if i + 1 < |p| && (p[i + 1] == ']' || p[i + 1] == '-') then i + 2 else i + 1, |p|);
    IsLit(p, i);
    TokensStep(p, i);
    AcceptsOne(Lit('['), TokensFrom(p, i + 1), s, signed);
  }

  /** After `[!` a bracket closes the class, which then has every character; it does not stand for itself. */
  lemma NegatedBracket(p: string, i: nat, s: string, signed: bool)
    requires i + 3 <= |p| && p[i..i + 3] == "[!]"
    ensures Accepts(TokensFrom(p, i), s, signed) <==> s != "" && Accepts(TokensFrom(p, i + 3), s[1..], signed)
  {
    hide Accepts;
    assert p[i] == p[i..i + 3][0] && p[i + 1] == p[i..i + 3][1] && p[i + 2] == p[i..i + 3][2];
    BracketAt(p, i + 1, i + 2);
    IsClass(p, i);
    TokensStep(p, i);
    assert p[i + 1..i + 2] == "!";
    AcceptsOne(Class("!"), TokensFrom(p, i + 3), s, signed);
    if s != "" {
      assert Items("!") == [];
    }
  }
}
