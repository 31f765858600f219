/**
 A grammar for the members of a list in any order, with one rule per set of members still to come. Models
 permute of common/chat-peg-parser.cpp.
 */
module PermuteGrammar {
  import opened Common

  // ---- sets of members as bit masks ----

  predicate Has(m: nat, i: nat) {
    if i == 0 then m % 2 == 1 else Has(m / 2, i - 1)
  }

  function Bit(i: nat): (r: nat)
    ensures r > 0
  {
    if i == 0 then 1 else 2 * Bit(i - 1)
  }

  /** The mask without a bit that it has. */
  function Clear(m: nat, i: nat): (r: nat)
    requires Has(m, i)
    ensures r < m
  {
    BitFits(m, i);
    m - Bit(i)
  }

  lemma {:induction false} BitFits(m: nat, i: nat)
    requires Has(m, i)
    ensures Bit(i) <= m
  {
    if i > 0 {
      BitFits(m / 2, i - 1);
    }
  }

  lemma {:induction false} ClearHas(m: nat, i: nat, j: nat)
    requires Has(m, i)
    ensures Has(Clear(m, i), j) <==> Has(m, j) && j != i
  {
    BitFits(m, i);
    if i > 0 {
      BitFits(m / 2, i - 1);
      assert Clear(m, i) / 2 == Clear(m / 2, i - 1);
      if j > 0 {
        ClearHas(m / 2, i - 1, j - 1);
      }
    }
  }

  lemma {:induction false} Below(m: nat, n: nat, i: nat)
    requires m < Bit(n) && Has(m, i)
    ensures i < n
  {
    if n > 0 && i > 0 {
      Below(m / 2, n - 1, i - 1);
    } else if n == 0 {
      BitFits(m, i);
    }
  }

  /** A bit in which two masks differ. */
  function Difference(m: nat, k: nat): (i: nat)
    requires m != k
    ensures Has(m, i) != Has(k, i)
    decreases m + k
  {
    if m % 2 != k % 2 then 0 else 1 + Difference(m / 2, k / 2)
  }

  lemma {:induction false} Empty(i: nat)
    ensures !Has(0, i)
  {
    if i > 0 {
      Empty(i - 1);
    }
  }

  lemma {:induction false} FullHas(n: nat, i: nat)
    ensures Has(Bit(n) - 1, i) <==> i < n
  {
    if n == 0 {
      Empty(i);
    } else if i > 0 {
      FullHas(n - 1, i - 1);
      assert (Bit(n) - 1) / 2 == Bit(n - 1) - 1;
    }
  }

  // ---- grammars ----

  datatype Parser =
    | Eps
    | Leaf(i: nat)
    | Sequence(parts: seq<Parser>)
    | Choice(alts: seq<Parser>)
    | Rule(mask: nat)

  type Grammar = map<nat, Parser>

  /** The parser derives the word, with rules used at most d deep. */
  ghost predicate Derives(g: Grammar, p: Parser, w: seq<nat>, d: nat)
    decreases d, p
  {
    match p
    case Eps => w == []
    case Leaf(i) => w == [i]
    case Sequence(parts) => DerivesAll(g, parts, w, d)
    case Choice(alts) => exists k :: 0 <= k < |alts| && Derives(g, alts[k], w, d)
    case Rule(mask) => mask in g && d > 0 && Derives(g, g[mask], w, d - 1)
  }

  ghost predicate DerivesAll(g: Grammar, parts: seq<Parser>, w: seq<nat>, d: nat)
    decreases d, parts
  {
    if parts == [] then w == []
    else exists k :: 0 <= k <= |w| && Derives(g, parts[0], w[..k], d) && DerivesAll(g, parts[1..], w[k..], d)
  }

  const MAX_PERMUTE: nat := 6

  /** What stands for the members still to come. */
  function Remaining(m: nat): Parser {
    if m == 0 then Eps else Rule(m)
  }

  /** One alternative for each member below i: that member, then the rest without it. */
  function Alternatives(m: nat, i: nat): seq<Parser> {
    if i == 0 then []
    else Alternatives(m, i - 1) + if Has(m, i - 1) then [Sequence([Leaf(i - 1), Remaining(Clear(m, i - 1))])] else []
  }

  function Body(m: nat, n: nat): Parser {
    Choice(Alternatives(m, n))
  }

  // ---- the builder ----

  /** Every rule has the body of its mask, and the rules it uses are there. */
  ghost predicate WellFormed(g: Grammar, n: nat) {
    && (forall m :: m in g ==> 0 < m < Bit(n) && g[m] == Body(m, n))
    && (forall m, i: nat :: m in g && Has(m, i) && Clear(m, i) != 0 ==> Clear(m, i) in g)
  }

  class Builder {
    const n: nat
    /** The rules made so far, which also serve as the cache of the recursion. */
    var rules: Grammar
    /** The masks in the order in which rules were made for them. */
    var made: seq<nat>

    constructor (n: nat)
      ensures this.n == n && rules == map[] && made == []
    {
      this.n := n;
      rules, made := map[], [];
    }

    /** One rule for each mask, never a second one. */
    ghost predicate Valid()
      reads this
    {
      && WellFormed(rules, n)
      && (forall k :: 0 <= k < |made| ==> made[k] in rules)
      && (forall m :: m in rules ==> m in made)
      && (forall k, l :: 0 <= k < l < |made| ==> made[k] != made[l])
    }

    /** Registers the rule of a mask whose smaller masks have theirs. */
    method AddRule(mask: nat, alternatives: seq<Parser>)
      requires Valid() && 0 < mask < Bit(n) && mask !in rules && alternatives == Alternatives(mask, n)
      requires forall j: nat :: j < n && Has(mask, j) && Clear(mask, j) != 0 ==> Clear(mask, j) in rules
      modifies this
      ensures Valid() && rules == old(rules)[mask := Choice(alternatives)] && made == old(made) + [mask]
    {
      hide Has, Bit;
      forall j: nat | Has(mask, j)
        ensures j < n
      {
        Below(mask, n, j);
      }
      rules := rules[mask := Choice(alternatives)];
      made := made + [mask];
    }

    method RemainingOf(remaining: nat) returns (p: Parser)
      requires Valid() && remaining < Bit(n)
      modifies this
      ensures Valid() && p == Remaining(remaining) && (remaining != 0 ==> remaining in rules)
      ensures forall m :: m in old(rules) ==> m in rules
      ensures old(made) <= made && forall m :: m in rules && m !in old(rules) ==> m <= remaining
      decreases remaining
    {
      hide Has, Body, Bit, WellFormed;
      if remaining == 0 {
        return Eps;
      }
      if remaining in rules {
        return Rule(remaining);
      }
      var alternatives := [];
      for i := 0 to n
        invariant Valid() && remaining !in rules && old(made) <= made
        invariant alternatives == Alternatives(remaining, i)
        invariant forall m :: m in old(rules) ==> m in rules
        invariant forall m :: m in rules && m !in old(rules) ==> m < remaining
        invariant forall j: nat :: j < i && Has(remaining, j) && Clear(remaining, j) != 0 ==>
          Clear(remaining, j) in rules
      {
        if Has(remaining, i) {
          var rest := RemainingOf(Clear(remaining, i));
          alternatives := alternatives + [Sequence([Leaf(i), rest])];
        }
      }
      AddRule(remaining, alternatives);
      return Rule(remaining);
    }
  }

  function Leaves(n: nat): (r: seq<Parser>)
    ensures |r| == n && forall i :: 0 <= i < n ==> r[i] == Leaf(i)
  {
    seq(n, i requires 0 <= i < n => Leaf(i))
  }

  /** Nothing, the members in order, or the rule for all of them. */
  function PermuteParser(n: nat): Parser {
    if n == 0 then Eps else if n == 1 || n > MAX_PERMUTE then Sequence(Leaves(n)) else Rule(Bit(n) - 1)
  }

  /** The parser for n members, and the rules it uses. */
  method Permute(n: nat) returns (p: Parser, b: Builder)
    ensures fresh(b) && b.n == n && b.Valid() && p == PermuteParser(n)
    ensures if p.Rule? then p.mask in b.rules else b.made == []
  {
    hide Bit;
    b := new Builder(n);
    if n == 0 {
      return Eps, b;
    }
    if n == 1 || n > MAX_PERMUTE {
      return Sequence(Leaves(n)), b;
    }
    FullNotEmpty(n);
    p := b.RemainingOf(Bit(n) - 1);
  }

  lemma FullNotEmpty(n: nat)
    requires n > 0
    ensures Bit(n) > 1
  {
  }

  // ---- one rule for every mask ----

  lemma {:induction false} Reaches(g: Grammar, n: nat, m: nat, k: nat)
    requires WellFormed(g, n) && m in g && k != 0 && forall i: nat :: Has(k, i) ==> Has(m, i)
    ensures k in g
    decreases m
  {
    hide Has, Body, Bit;
    if m != k {
      var i := Difference(m, k);
      var next := Clear(m, i);
      forall j: nat
        ensures Has(next, j) <==> Has(m, j) && j != i
      {
        ClearHas(m, i, j);
      }
      if next == 0 {
        var j := Difference(k, 0);
        Empty(j);
      } else {
        Reaches(g, n, next, k);
      }
    }
  }

  /** Starting from the full mask, there is a rule for each non-empty mask, and no other. */
  lemma EveryMask(g: Grammar, n: nat, k: nat)
    requires WellFormed(g, n) && n > 0 && Bit(n) - 1 in g
    ensures k in g <==> 0 < k < Bit(n)
  {
    if 0 < k < Bit(n) {
      forall i: nat | Has(k, i)
        ensures Has(Bit(n) - 1, i)
      {
        Below(k, n, i);
        FullHas(n, i);
      }
      hide Has, Bit;
      Reaches(g, n, Bit(n) - 1, k);
    }
  }

  // ---- the language ----

  /** Each member of the mask once, in some order. */
  ghost predicate IsOrdering(w: seq<nat>, m: nat) {
    && (forall k, l :: 0 <= k < l < |w| ==> w[k] != w[l])
    && (forall i: nat :: i in w <==> Has(m, i))
  }

  lemma OrderingNone(w: seq<nat>)
    ensures IsOrdering(w, 0) <==> w == []
  {
    hide Has;
    forall i
      ensures !Has(0, i)
    {
      Empty(i);
    }
    if w != [] {
      assert w[0] in w;
    }
  }

  lemma OrderingStep(w: seq<nat>, m: nat)
    requires m != 0
    ensures IsOrdering(w, m) <==> w != [] && Has(m, w[0]) && IsOrdering(w[1..], Clear(m, w[0]))
  {
    hide Has;
    if w == [] {
      var i := Difference(m, 0);
      Empty(i);
    } else if Has(m, w[0]) {
      forall j: nat
        ensures Has(Clear(m, w[0]), j) <==> Has(m, j) && j != w[0]
      {
        ClearHas(m, w[0], j);
      }
      OrderingTail(w, m);
    } else {
      assert w[0] in w;
    }
  }

  lemma OrderingTail(w: seq<nat>, m: nat)
    requires w != [] && Has(m, w[0])
    requires forall j: nat :: Has(Clear(m, w[0]), j) <==> Has(m, j) && j != w[0]
    ensures IsOrdering(w, m) <==> IsOrdering(w[1..], Clear(m, w[0]))
  {
    hide Has, Clear;
    var t := w[1..];
    assert w == [w[0]] + t;
    assert forall j: nat :: j in w <==> j == w[0] || j in t;
    if IsOrdering(t, Clear(m, w[0])) {
      assert w[0] !in t;
      assert forall l :: 1 <= l < |w| ==> w[l] == t[l - 1];
    }
    if IsOrdering(w, m) {
      assert forall l :: 0 <= l < |t| ==> t[l] == w[l + 1];
    }
  }

  /** The alternatives are those of the members below i, in order. */
  lemma {:induction false} AlternativesHave(m: nat, i: nat, p: Parser)
    ensures
      p in Alternatives(m, i)
      <==> exists j: nat :: j < i && Has(m, j) && p == Sequence([Leaf(j), Remaining(Clear(m, j))])
  {
    hide Has, Bit;
    if i > 0 {
      AlternativesHave(m, i - 1, p);
    }
  }

  lemma LeafFirst(g: Grammar, j: nat, parts: seq<Parser>, w: seq<nat>, d: nat)
    requires parts != [] && parts[0] == Leaf(j)
    ensures DerivesAll(g, parts, w, d) <==> w != [] && w[0] == j && DerivesAll(g, parts[1..], w[1..], d)
  {
    if DerivesAll(g, parts, w, d) {
      var k :| 0 <= k <= |w| && Derives(g, parts[0], w[..k], d) && DerivesAll(g, parts[1..], w[k..], d);
      assert w[..k] == [j];
    }
    if w != [] && w[0] == j && DerivesAll(g, parts[1..], w[1..], d) {
      assert w[..1] == [j];
      assert Derives(g, parts[0], w[..1], d);
    }
  }

  lemma DerivesPair(g: Grammar, j: nat, rest: Parser, w: seq<nat>, d: nat)
    ensures
      Derives(g, Sequence([Leaf(j), rest]), w, d) <==> w != [] && w[0] == j && Derives(g, rest, w[1..], d)
  {
    var parts := [Leaf(j), rest];
    assert parts[1..] == [rest];
    LeafFirst(g, j, parts, w, d);
    if w != [] {
      DerivesLast(g, rest, w[1..], d);
    }
  }

  lemma DerivesLast(g: Grammar, p: Parser, w: seq<nat>, d: nat)
    ensures DerivesAll(g, [p], w, d) <==> Derives(g, p, w, d)
  {
    assert [p][1..] == [];
    assert w[..|w|] == w && w[|w|..] == [];
  }

  lemma DerivesBody(g: Grammar, m: nat, n: nat, w: seq<nat>, d: nat)
    requires m < Bit(n)
    ensures
      Derives(g, Body(m, n), w, d)
      <==> w != [] && Has(m, w[0]) && Derives(g, Remaining(Clear(m, w[0])), w[1..], d)
  {
    hide Has, Bit, Remaining;
    var alts := Alternatives(m, n);
    if Derives(g, Body(m, n), w, d) {
      var k :| 0 <= k < |alts| && Derives(g, alts[k], w, d);
      AlternativesHave(m, n, alts[k]);
      var j: nat :| j < n && Has(m, j) && alts[k] == Sequence([Leaf(j), Remaining(Clear(m, j))]);
      DerivesPair(g, j, Remaining(Clear(m, j)), w, d);
    }
    if w != [] && Has(m, w[0]) && Derives(g, Remaining(Clear(m, w[0])), w[1..], d) {
      var j := w[0];
      Below(m, n, j);
      var p := Sequence([Leaf(j), Remaining(Clear(m, j))]);
      AlternativesHave(m, n, p);
      DerivesPair(g, j, Remaining(Clear(m, j)), w, d);
      var k :| 0 <= k < |alts| && alts[k] == p;
    }
  }

  /** The rule of a mask derives exactly the orderings of its members, one rule deep for each member. */
  lemma {:induction false} RuleOrderings(g: Grammar, n: nat, m: nat, w: seq<nat>, d: nat)
    requires WellFormed(g, n) && (m == 0 || m in g)
    ensures Derives(g, Remaining(m), w, d) <==> IsOrdering(w, m) && |w| <= d
    decreases m
  {
    if m == 0 {
      OrderingNone(w);
    } else {
      OrderingStep(w, m);
      if d > 0 {
        DerivesBody(g, m, n, w, d - 1);
        if w != [] && Has(m, w[0]) {
          RuleOrderings(g, n, Clear(m, w[0]), w[1..], d - 1);
        }
      }
      hide Has, Bit, IsOrdering, Body, Clear;
    }
  }

  /** The words a parser derives, at any depth. */
  ghost predicate InLanguage(g: Grammar, p: Parser, w: seq<nat>) {
    exists d :: Derives(g, p, w, d)
  }

  /** Each of the members 0 to n - 1 once, in some order. */
  ghost predicate IsPermutation(w: seq<nat>, n: nat) {
    && (forall k, l :: 0 <= k < l < |w| ==> w[k] != w[l])
    && (forall i: nat :: i in w <==> i < n)
  }

  /** Up to six members, the words are exactly the members in every order. */
  lemma PermuteLanguage(g: Grammar, n: nat, w: seq<nat>)
    requires WellFormed(g, n) && 1 < n <= MAX_PERMUTE && Bit(n) - 1 in g
    ensures InLanguage(g, Rule(Bit(n) - 1), w) <==> IsPermutation(w, n)
  {
    var full := Bit(n) - 1;
    FullNotEmpty(n);
    forall i: nat
      ensures Has(full, i) <==> i < n
    {
      FullHas(n, i);
    }
    hide Has, Bit;
    forall d
      ensures Derives(g, Rule(full), w, d) <==> IsOrdering(w, full) && |w| <= d
    {
      RuleOrderings(g, n, full, w, d);
    }
    assert IsOrdering(w, full) ==> Derives(g, Rule(full), w, |w|);
  }

  function InOrder(i: nat, n: nat): (r: seq<nat>)
    requires i <= n
    ensures |r| == n - i && forall k :: 0 <= k < |r| ==> r[k] == i + k
  {
    seq(n - i, k requires 0 <= k < n - i => i + k)
  }

  lemma {:induction false} LeavesLanguage(g: Grammar, leaves: seq<Parser>, i: nat, n: nat, w: seq<nat>, d: nat)
    requires i <= n && |leaves| == n - i && forall k :: 0 <= k < |leaves| ==> leaves[k] == Leaf(i + k)
    ensures DerivesAll(g, leaves, w, d) <==> w == InOrder(i, n)
    decreases n - i
  {
    if i < n {
      LeafFirst(g, i, leaves, w, d);
      assert InOrder(i, n) == [i] + InOrder(i + 1, n);
      if w != [] {
        LeavesLanguage(g, leaves[1..], i + 1, n, w[1..], d);
        assert w == [w[0]] + w[1..];
      }
    }
  }

  /** One member, or more than six, are only derived in the given order. */
  lemma SequenceLanguage(g: Grammar, n: nat, w: seq<nat>)
    ensures
      InLanguage(g, Sequence(Leaves(n)), w) <==> w == InOrder(0, n)
  {
    var leaves := Leaves(n);
    forall d
      ensures Derives(g, Sequence(leaves), w, d) <==> w == InOrder(0, n)
    {
      LeavesLanguage(g, leaves, 0, n, w, d);
    }
    assert Derives(g, Sequence(leaves), w, 0) <==> w == InOrder(0, n);
  }

  /** So every order is derived exactly up to the limit: above it, swapping the first two members is not. */
  lemma LimitedOrders(g: Grammar, n: nat)
    requires n > MAX_PERMUTE
    ensures
      var w := [1, 0] + InOrder(2, n);
      IsPermutation(w, n) && !InLanguage(g, Sequence(Leaves(n)), w)
  {
    var w := [1, 0] + InOrder(2, n);
    SequenceLanguage(g, n, w);
    assert w[0] != InOrder(0, n)[0];
    forall i: nat
      ensures i in w <==> i < n
    {
      if i < n {
        assert w[0] == 1 && w[1] == 0 && (i >= 2 ==> w[i] == i);
      }
    }
  }

  lemma NoMembers(w: seq<nat>)
    ensures IsPermutation(w, 0) <==> w == []
  {
    if w != [] {
      assert w[0] in w;
    }
  }

  lemma OneMember(w: seq<nat>)
    ensures IsPermutation(w, 1) <==> w == [0]
  {
    if IsPermutation(w, 1) {
      assert 0 in w;
      forall k | 0 <= k < |w|
        ensures k == 0 && w[k] == 0
      {
        assert w[k] in w && w[0] in w;
      }
      assert |w| > 0 && w[|w| - 1] == 0;
    }
    if w == [0] {
      assert forall i: nat :: i in w <==> i == 0;
    }
  }

  lemma EpsLanguage(g: Grammar, w: seq<nat>)
    ensures InLanguage(g, Eps, w) <==> w == []
  {
    assert Derives(g, Eps, w, 0) <==> w == [];
  }

  /** All orders of the members, and nothing else, are derived exactly when there are six members or fewer. */
  lemma AllOrders(g: Grammar, n: nat)
    requires WellFormed(g, n) && (1 < n <= MAX_PERMUTE ==> Bit(n) - 1 in g)
    ensures (forall w :: InLanguage(g, PermuteParser(n), w) <==> IsPermutation(w, n)) <==> n <= MAX_PERMUTE
  {
    hide InLanguage, IsPermutation, WellFormed, Bit;
    if n > MAX_PERMUTE {
      LimitedOrders(g, n);
    } else {
      forall w
        ensures InLanguage(g, PermuteParser(n), w) <==> IsPermutation(w, n)
      {
        if n == 0 {
          NoMembers(w);
          EpsLanguage(g, w);
        } else if n == 1 {
          OneMember(w);
          SequenceLanguage(g, n, w);
          assert InOrder(0, 1) == [0];
        } else {
          PermuteLanguage(g, n, w);
        }
      }
    }
  }
}
