/**
 Glob matching against the language a pattern declares. Models glob_match and glob_class_match of
 common/common.cpp; texts end at the first NUL, as C strings do.
 */
module GlobMatch {
  import opened Common

  // ---- what a pattern declares ----

  datatype Token =
    | AnyAll
    | Any
    | One
    | Class(content: string)
    | Lit(c: char)

  /** The characters from lo to hi. */
  datatype Item = Item(lo: char, hi: char)

  /** The order of a platform's plain char, which may be signed: a byte from 128 on is then negative. */
  function Code(c: char, signed: bool): int {
    if signed && 128 <= c as int < 256 then c as int - 256 else c as int
  }

  predicate Has(item: Item, c: char, signed: bool) {
    Code(item.lo, signed) <= Code(c, signed) <= Code(item.hi, signed)
  }

  /** Ranges `a-z` and single characters, from position i of a class on. */
  function ItemsFrom(s: string, i: nat): seq<Item>
    decreases |s| - i
  {
    if i >= |s| then []
    else if i + 2 < |s| && s[i + 1] == '-' && s[i + 2] != ']' then [Item(s[i], s[i + 2])] + ItemsFrom(s, i + 3)
    else [Item(s[i], s[i])] + ItemsFrom(s, i + 1)
  }

  predicate Negated(content: string) {
    content != "" && content[0] == '!'
  }

  /** A `]` or `-` at the start of a class, after the negation if there is one, stands for itself. */
  function Items(content: string): seq<Item> {
    var i := if Negated(content) then 1 else 0;
    if i < |content| && (content[i] == ']' || content[i] == '-') then
      [Item(content[i], content[i])] + ItemsFrom(content, i + 1)
    else ItemsFrom(content, i)
  }

  predicate InSome(items: seq<Item>, c: char, signed: bool) {
    exists k :: 0 <= k < |items| && Has(items[k], c, signed)
  }

  predicate InClass(content: string, c: char, signed: bool) {
    InSome(Items(content), c, signed) != Negated(content)
  }

  /** The position of the `]` that closes the class opened before position i, or the end. */
  function ClassEnd(p: string, i: nat): (r: nat)
    requires i <= |p|
    ensures i <= r <= |p| && (r < |p| ==> p[r] == ']')
  {
    BracketFrom(p, if i < |p| && (p[i] == ']' || p[i] == '-') then i + 1 else i)
  }

  function BracketFrom(p: string, i: nat): (r: nat)
    requires i <= |p|
    ensures i <= r <= |p| && (r < |p| ==> p[r] == ']')
    decreases |p| - i
  {
    if i == |p| || p[i] == ']' then i else BracketFrom(p, i + 1)
  }

  function TokenAt(p: string, i: nat): Token
    requires i < |p|
  {
    if p[i] == '*' then if i + 1 < |p| && p[i + 1] == '*' then AnyAll else Any
    else if p[i] == '?' then One
    else if p[i] == '[' && ClassEnd(p, i + 1) < |p| then Class(p[i + 1..ClassEnd(p, i + 1)])
    else Lit(p[i])
  }

  function NextAt(p: string, i: nat): (j: nat)
    requires i < |p|
    ensures i < j <= |p|
  {
    if TokenAt(p, i).AnyAll? then i + 2
    else if TokenAt(p, i).Class? then ClassEnd(p, i + 1) + 1
    else i + 1
  }

  function TokensFrom(p: string, i: nat): seq<Token>
    requires i <= |p|
    decreases |p| - i
  {
    if i == |p| then [] else [TokenAt(p, i)] + TokensFrom(p, NextAt(p, i))
  }

  /** `**` stands for any text, `*` for text without a slash, the others for one character. */
  predicate Fits(t: Token, piece: string, signed: bool) {
    match t
    case AnyAll => true
    case Any => forall k :: 0 <= k < |piece| ==> piece[k] != '/'
    case One => |piece| == 1 && piece[0] != '/'
    case Class(content) => |piece| == 1 && InClass(content, piece[0], signed)
    case Lit(c) => |piece| == 1 && piece[0] == c
  }

  predicate FitAll(tokens: seq<Token>, pieces: seq<string>, signed: bool) {
    |pieces| == |tokens| && forall k :: 0 <= k < |tokens| ==> Fits(tokens[k], pieces[k], signed)
  }

  /** The language: a text is accepted when it can be cut into one fitting piece for each token. */
  ghost predicate Accepts(tokens: seq<Token>, s: string, signed: bool) {
    exists pieces :: FitAll(tokens, pieces, signed) && Concat(pieces) == s
  }

  // ---- how acceptance unfolds ----

  lemma AcceptsNothing(s: string, signed: bool)
    ensures Accepts([], s, signed) <==> s == ""
  {
    if s == "" {
      assert FitAll([], [], signed) && Concat<char>([]) == s;
    }
  }

  lemma AcceptsCons(t: Token, rest: seq<Token>, s: string, k: nat, signed: bool)
    requires k <= |s| && Fits(t, s[..k], signed) && Accepts(rest, s[k..], signed)
    ensures Accepts([t] + rest, s, signed)
  {
    hide Fits;
    var pieces :| FitAll(rest, pieces, signed) && Concat(pieces) == s[k..];
    var all := [s[..k]] + pieces;
    assert all[1..] == pieces;
    assert Concat(all) == s[..k] + s[k..] == s;
    assert FitAll([t] + rest, all, signed);
  }

  lemma AcceptsSplit(t: Token, rest: seq<Token>, s: string, signed: bool) returns (k: nat)
    requires Accepts([t] + rest, s, signed)
    ensures k <= |s| && Fits(t, s[..k], signed) && Accepts(rest, s[k..], signed)
  {
    hide Fits;
    var pieces :| FitAll([t] + rest, pieces, signed) && Concat(pieces) == s;
    k := |pieces[0]|;
    var others := pieces[1..];
    assert s == pieces[0] + Concat(others);
    assert s[..k] == pieces[0] && s[k..] == Concat(others);
    assert Fits(([t] + rest)[0], pieces[0], signed);
    forall m | 0 <= m < |rest|
      ensures Fits(rest[m], others[m], signed)
    {
      assert rest[m] == ([t] + rest)[m + 1] && others[m] == pieces[m + 1];
    }
    assert FitAll(rest, others, signed);
  }

  /** A token for one character takes the first one. */
  lemma AcceptsOne(t: Token, rest: seq<Token>, s: string, signed: bool)
    requires !t.AnyAll? && !t.Any?
    ensures Accepts([t] + rest, s, signed) <==> s != "" && Fits(t, [s[0]], signed) && Accepts(rest, s[1..], signed)
  {
    hide Accepts;
    if Accepts([t] + rest, s, signed) {
      var k := AcceptsSplit(t, rest, s, signed);
      assert k == 1 && s[..1] == [s[0]];
    }
    if s != "" && Fits(t, [s[0]], signed) && Accepts(rest, s[1..], signed) {
      assert s[..1] == [s[0]];
      AcceptsCons(t, rest, s, 1, signed);
    }
  }

  /** `**` takes nothing, or one character more. */
  lemma AcceptsAnyAll(rest: seq<Token>, s: string, signed: bool)
    ensures Accepts([AnyAll] + rest, s, signed)
      <==> Accepts(rest, s, signed) || (s != "" && Accepts([AnyAll] + rest, s[1..], signed))
  {
    hide Accepts;
    if Accepts([AnyAll] + rest, s, signed) {
      var k := AcceptsSplit(AnyAll, rest, s, signed);
      if k == 0 {
        assert s[0..] == s;
      } else {
        assert s[1..][k - 1..] == s[k..];
        AcceptsCons(AnyAll, rest, s[1..], k - 1, signed);
      }
    }
    if Accepts(rest, s, signed) {
      assert s[0..] == s;
      AcceptsCons(AnyAll, rest, s, 0, signed);
    }
    if s != "" && Accepts([AnyAll] + rest, s[1..], signed) {
      var k := AcceptsSplit(AnyAll, rest, s[1..], signed);
      assert s[1..][k..] == s[k + 1..];
      AcceptsCons(AnyAll, rest, s, k + 1, signed);
    }
  }

  // ---- the matcher ----

  lemma InSomeStep(item: Item, rest: seq<Item>, c: char, signed: bool)
    ensures InSome([item] + rest, c, signed) <==> Has(item, c, signed) || InSome(rest, c, signed)
  {
    hide Has;
    var all := [item] + rest;
    if Has(item, c, signed) {
      assert Has(all[0], c, signed);
    }
    if InSome(rest, c, signed) {
      var k :| 0 <= k < |rest| && Has(rest[k], c, signed);
      assert Has(all[k + 1], c, signed);
    }
    if InSome(all, c, signed) {
      var k :| 0 <= k < |all| && Has(all[k], c, signed);
      assert k > 0 ==> all[k] == rest[k - 1];
    }
  }

  method GlobClassMatch(c: char, content: string, signed: bool) returns (r: bool)
    ensures r == InClass(content, c, signed)
  {
    hide Has, InSome;
    var i := 0;
    var negated := false;
    if i < |content| && content[i] == '!' {
      negated := true;
      i := i + 1;
    }
    if i < |content| && (content[i] == ']' || content[i] == '-') {
      InSomeStep(Item(content[i], content[i]), ItemsFrom(content, i + 1), c, signed);
      HasOne(content[i], c, signed);
      if content[i] == c {
        return !negated;
      }
      i := i + 1;
    }
    assert InSome(Items(content), c, signed) == InSome(ItemsFrom(content, i), c, signed);
    var matched := ScanClass(c, content, i, signed);
    r := if negated then !matched else matched;
  }

  lemma HasOne(x: char, c: char, signed: bool)
    ensures Has(Item(x, x), c, signed) <==> x == c
  {
  }

  method ScanClass(c: char, content: string, from: nat, signed: bool) returns (matched: bool)
    ensures matched == InSome(ItemsFrom(content, from), c, signed)
  {
    hide InSome;
    var i := from;
    while i < |content|
      invariant InSome(ItemsFrom(content, from), c, signed) == InSome(ItemsFrom(content, i), c, signed)
      decreases |content| - i
    {
      if i + 2 < |content| && content[i + 1] == '-' && content[i + 2] != ']' {
        InSomeStep(Item(content[i], content[i + 2]), ItemsFrom(content, i + 3), c, signed);
        if Code(content[i], signed) <= Code(c, signed) && Code(c, signed) <= Code(content[i + 2], signed) {
          return true;
        }
        i := i + 3;
      } else {
        InSomeStep(Item(content[i], content[i]), ItemsFrom(content, i + 1), c, signed);
        if content[i] == c {
          return true;
        }
        i := i + 1;
      }
    }
    NoItems(content, i, c, signed);
    return false;
  }

  lemma NoItems(content: string, i: nat, c: char, signed: bool)
    requires i >= |content|
    ensures !InSome(ItemsFrom(content, i), c, signed)
  {
  }

  method FindClassEnd(p: string, i: nat) returns (end: nat)
    requires i <= |p|
    ensures end == ClassEnd(p, i)
  {
    end := i;
    if end < |p| && (p[end] == ']' || p[end] == '-') {
      end := end + 1;
    }
    while end < |p| && p[end] != ']'
      invariant end <= |p| && BracketFrom(p, end) == ClassEnd(p, i)
    {
      end := end + 1;
    }
  }

  lemma TokensStep(p: string, i: nat)
    requires i < |p|
    ensures TokensFrom(p, i) == [TokenAt(p, i)] + TokensFrom(p, NextAt(p, i))
  {
  }

  lemma TokensEnd(p: string)
    ensures TokensFrom(p, |p|) == []
  {
  }

  lemma Tail(s: string, j: nat)
    requires j < |s|
    ensures s[j..] != "" && s[j..][0] == s[j] && s[j..][1..] == s[j + 1..]
  {
  }

  /** The pattern from position i against the text from position j. */
  method MatchFrom(p: string, i: nat, s: string, j: nat, signed: bool) returns (r: bool)
    requires i <= |p| && j <= |s|
    ensures r == Accepts(TokensFrom(p, i), s[j..], signed)
    decreases |p| - i, |s| - j, 1
  {
    hide TokensFrom, Accepts, TokenAt, NextAt, ClassEnd;
    if i == |p| {
      TokensEnd(p);
      AcceptsNothing(s[j..], signed);
      return j == |s|;
    }
    TokensStep(p, i);
    if i + 1 < |p| && p[i] == '*' && p[i + 1] == '*' {
      IsAnyAll(p, i);
      AcceptsAnyAll(TokensFrom(p, i + 2), s[j..], signed);
      r := MatchFrom(p, i + 2, s, j, signed);
      if !r && j < |s| {
        Tail(s, j);
        r := MatchFrom(p, i, s, j + 1, signed);
      }
      return;
    }
    if p[i] == '*' {
      r := MatchAny(p, i, s, j, signed);
      return;
    }
    if j < |s| {
      Tail(s, j);
    }
    r := MatchChar(p, i, s, j, signed);
  }

  lemma IsAnyAll(p: string, i: nat)
    requires i + 1 < |p| && p[i] == '*' && p[i + 1] == '*'
    ensures TokenAt(p, i) == AnyAll && NextAt(p, i) == i + 2
  {
  }

  lemma IsAny(p: string, i: nat)
    requires i < |p| && p[i] == '*' && !(i + 1 < |p| && p[i + 1] == '*')
    ensures TokenAt(p, i) == Any && NextAt(p, i) == i + 1
  {
  }

  lemma IsOne(p: string, i: nat)
    requires i < |p| && p[i] == '?'
    ensures TokenAt(p, i) == One && NextAt(p, i) == i + 1
  {
  }

  lemma IsClass(p: string, i: nat)
    requires i < |p| && p[i] == '[' && ClassEnd(p, i + 1) < |p|
    ensures TokenAt(p, i) == Class(p[i + 1..ClassEnd(p, i + 1)]) && NextAt(p, i) == ClassEnd(p, i + 1) + 1
  {
    hide ClassEnd;
  }

  lemma IsLit(p: string, i: nat)
    requires i < |p| && p[i] != '*' && p[i] != '?' && (p[i] == '[' ==> ClassEnd(p, i + 1) == |p|)
    ensures TokenAt(p, i) == Lit(p[i]) && NextAt(p, i) == i + 1
  {
    hide ClassEnd;
  }

  /** A single star: the rest is tried after each piece without a slash, the shortest first. */
  method MatchAny(p: string, i: nat, s: string, j: nat, signed: bool) returns (r: bool)
    requires i < |p| && j <= |s| && p[i] == '*' && !(i + 1 < |p| && p[i + 1] == '*')
    ensures r == Accepts([TokenAt(p, i)] + TokensFrom(p, NextAt(p, i)), s[j..], signed)
    decreases |p| - i, |s| - j, 0
  {
    hide TokensFrom, Accepts, TokenAt, NextAt;
    IsAny(p, i);
    var k := j;
    while k < |s| && s[k] != '/'
      invariant j <= k <= |s|
      invariant forall m :: j <= m < k ==> s[m] != '/' && !Accepts(TokensFrom(p, i + 1), s[m..], signed)
    {
      r := MatchFrom(p, i + 1, s, k, signed);
      if r {
        AnyFound(TokensFrom(p, i + 1), s, j, k, signed);
        return;
      }
      k := k + 1;
    }
    r := MatchFrom(p, i + 1, s, k, signed);
    if r {
      AnyFound(TokensFrom(p, i + 1), s, j, k, signed);
    } else {
      AnyNotFound(TokensFrom(p, i + 1), s, j, k, signed);
    }
  }

  lemma AnyFound(rest: seq<Token>, s: string, j: nat, k: nat, signed: bool)
    requires j <= k <= |s| && Accepts(rest, s[k..], signed) && forall m :: j <= m < k ==> s[m] != '/'
    ensures Accepts([Any] + rest, s[j..], signed)
  {
    hide Accepts;
    assert s[j..][k - j..] == s[k..] && s[j..][..k - j] == s[j..k];
    AcceptsCons(Any, rest, s[j..], k - j, signed);
  }

  lemma AnySplit(rest: seq<Token>, s: string, j: nat, signed: bool) returns (k: nat)
    requires j <= |s| && Accepts([Any] + rest, s[j..], signed)
    ensures j <= k <= |s| && Accepts(rest, s[k..], signed) && forall m :: j <= m < k ==> s[m] != '/'
  {
    hide Accepts;
    var n := AcceptsSplit(Any, rest, s[j..], signed);
    k := j + n;
    assert s[j..][n..] == s[k..] && s[j..][..n] == s[j..k];
    forall m | j <= m < k
      ensures s[m] != '/'
    {
      assert s[m] == s[j..k][m - j];
    }
  }

  lemma AnyNotFound(rest: seq<Token>, s: string, j: nat, k: nat, signed: bool)
    requires j <= k <= |s| && (k < |s| ==> s[k] == '/')
    requires forall m :: j <= m <= k ==> !Accepts(rest, s[m..], signed)
    ensures !Accepts([Any] + rest, s[j..], signed)
  {
    hide Accepts;
    if Accepts([Any] + rest, s[j..], signed) {
      var m := AnySplit(rest, s, j, signed);
    }
  }

  /** A question mark, a class or a literal, each for one character. */
  method MatchChar(p: string, i: nat, s: string, j: nat, signed: bool) returns (r: bool)
    requires i < |p| && j <= |s| && p[i] != '*'
    ensures r == Accepts([TokenAt(p, i)] + TokensFrom(p, NextAt(p, i)), s[j..], signed)
    decreases |p| - i, |s| - j, 0
  {
    hide TokensFrom, Accepts, TokenAt, NextAt, ClassEnd, InClass;
    if j < |s| {
      Tail(s, j);
    }
    if p[i] == '?' && j < |s| && s[j] != '/' {
      IsOne(p, i);
      AcceptsOne(One, TokensFrom(p, i + 1), s[j..], signed);
      r := MatchFrom(p, i + 1, s, j + 1, signed);
      return;
    }
    if p[i] == '[' {
      var end := FindClassEnd(p, i + 1);
      if end < |p| {
        IsClass(p, i);
        AcceptsOne(Class(p[i + 1..end]), TokensFrom(p, end + 1), s[j..], signed);
        if j == |s| {
          return false;
        }
        r := GlobClassMatch(s[j], p[i + 1..end], signed);
        if r {
          r := MatchFrom(p, end + 1, s, j + 1, signed);
        }
        return;
      }
      IsLit(p, i);
    } else if p[i] == '?' {
      IsOne(p, i);
    } else {
      IsLit(p, i);
    }
    AcceptsOne(TokenAt(p, i), TokensFrom(p, i + 1), s[j..], signed);
    if j < |s| && p[i] == s[j] {
      r := MatchFrom(p, i + 1, s, j + 1, signed);
      return;
    }
    return false;
  }

  /** The text before the first NUL. */
  function CString(s: string): (r: string)
    ensures r <= s && forall k :: 0 <= k < |r| ==> r[k] != '\0'
    ensures |r| < |s| ==> s[|r|] == '\0'
  {
    if s == "" || s[0] == '\0' then "" else [s[0]] + CString(s[1..])
  }

  /** The matcher accepts exactly the declared language. */
  method Match(pattern: string, str: string, signed: bool) returns (r: bool)
    ensures r == Accepts(TokensFrom(CString(pattern), 0), CString(str), signed)
  {
    var p, s := CString(pattern), CString(str);
    assert s[0..] == s;
    r := MatchFrom(p, 0, s, 0, signed);
  }

  // ---- patterns whose language is known ----

  predicate Special(c: char) {
    c == '*' || c == '?' || c == '['
  }

  /** A pattern without special characters accepts itself and nothing else. */
  lemma {:induction false} PlainPattern(p: string, i: nat, s: string, signed: bool)
    requires i <= |p| && forall k :: i <= k < |p| ==> !Special(p[k])
    ensures Accepts(TokensFrom(p, i), s, signed) <==> s == p[i..]
    decreases |p| - i
  {
    hide Accepts;
    if i == |p| {
      AcceptsNothing(s, signed);
    } else {
      AcceptsOne(Lit(p[i]), TokensFrom(p, i + 1), s, signed);
      if s != "" {
        PlainPattern(p, i + 1, s[1..], signed);
        assert s == [s[0]] + s[1..] && p[i..] == [p[i]] + p[i + 1..];
      }
    }
  }

  /** `prefix*` accepts the texts that continue the prefix without a slash, `prefix**` all that continue it. */
  lemma {:induction false} StarAfter(p: string, i: nat, n: nat, s: string, signed: bool)
    requires i <= n <= |p| && (p[n..] == "*" || p[n..] == "**") && forall k :: i <= k < n ==> !Special(p[k])
    ensures
      Accepts(TokensFrom(p, i), s, signed)
      <==> p[i..n] <= s && (p[n..] == "*" ==> forall k :: n - i <= k < |s| ==> s[k] != '/')
    decreases n - i
  {
    hide Accepts;
    if i == n {
      StarAlone(p, n, s, signed);
    } else {
      AcceptsOne(Lit(p[i]), TokensFrom(p, i + 1), s, signed);
      if s != "" {
        StarAfter(p, i + 1, n, s[1..], signed);
        assert p[i..n] == [p[i]] + p[i + 1..n] && s == [s[0]] + s[1..];
        assert forall k :: n - i <= k < |s| ==> s[k] == s[1..][k - 1];
        assert forall k :: n - i - 1 <= k < |s[1..]| ==> s[1..][k] == s[k + 1];
      }
    }
  }

  lemma StarAlone(p: string, n: nat, s: string, signed: bool)
    requires n <= |p| && (p[n..] == "*" || p[n..] == "**")
    ensures Accepts(TokensFrom(p, n), s, signed) <==> (p[n..] == "*" ==> forall k :: 0 <= k < |s| ==> s[k] != '/')
  {
    hide Accepts;
    var t := TokenAt(p, n);
    if p[n..] == "*" {
      assert p[n] == p[n..][0];
      IsAny(p, n);
    } else {
      assert p[n] == p[n..][0] && p[n + 1] == p[n..][1];
      IsAnyAll(p, n);
    }
    TokensEnd(p);
    TokensStep(p, n);
    assert NextAt(p, n) == |p|;
    hide TokenAt, NextAt, TokensFrom;
    assert TokensFrom(p, n) == [t] + [];
    if Accepts([t] + [], s, signed) {
      var k := AcceptsSplit(t, [], s, signed);
      AcceptsNothing(s[k..], signed);
      assert s[..k] == s;
    }
    if Fits(t, s, signed) {
      assert s[..|s|] == s && s[|s|..] == "";
      AcceptsNothing("", signed);
      AcceptsCons(t, [], s, |s|, signed);
    }
  }
}
