/**
 The longest common substring by a table of longest common suffixes. Models string_lcs of
 common/common.cpp.
 */
module LongestCommonSubstring {
  import opened Common

  /** The length of the longest common suffix of a[..i] and b[..j]. */
  function Suffix(a: string, i: nat, b: string, j: nat): (n: nat)
    requires i <= |a| && j <= |b|
    ensures n <= i && n <= j
  {
    if i == 0 || j == 0 || a[i - 1] != b[j - 1] then 0 else 1 + Suffix(a, i - 1, b, j - 1)
  }

  /** The texts that end at i and j agree on their last n characters. */
  predicate Agree(a: string, i: nat, b: string, j: nat, n: nat)
    requires i <= |a| && j <= |b|
  {
    n <= i && n <= j && a[i - n..i] == b[j - n..j]
  }

  /** It is the longest: exactly the lengths up to it are common suffixes. */
  lemma {:induction false} SuffixIsLongest(a: string, i: nat, b: string, j: nat, n: nat)
    requires i <= |a| && j <= |b|
    ensures Agree(a, i, b, j, n) <==> n <= Suffix(a, i, b, j)
  {
    if n > 0 && i > 0 && j > 0 {
      SuffixIsLongest(a, i - 1, b, j - 1, n - 1);
      AgreeStep(a, i, b, j, n);
    }
  }

  lemma AgreeStep(a: string, i: nat, b: string, j: nat, n: nat)
    requires 0 < i <= |a| && 0 < j <= |b| && n > 0
    ensures Agree(a, i, b, j, n) <==> a[i - 1] == b[j - 1] && Agree(a, i - 1, b, j - 1, n - 1)
  {
    if n <= i && n <= j {
      var x, y := a[i - n..i], b[j - n..j];
      assert x == a[i - n..i - 1] + [a[i - 1]] && y == b[j - n..j - 1] + [b[j - 1]];
      if x == y {
        assert x[n - 1] == y[n - 1];
        assert a[i - n..i - 1] == x[..n - 1] && b[j - n..j - 1] == y[..n - 1];
      }
    }
  }

  predicate OccursAt(s: string, t: string, p: nat) {
    p + |s| <= |t| && t[p..p + |s|] == s
  }

  ghost predicate Occurs(s: string, t: string) {
    exists p: nat :: OccursAt(s, t, p)
  }

  /** The cells (x, y) that come before cell (i, j) in row order. */
  predicate Before(x: nat, y: nat, i: nat, j: nat) {
    x < i || (x == i && y < j)
  }

  /** The best value of the cells before (i, j), and the first row that has it. */
  ghost predicate Best(a: string, b: string, i: nat, j: nat, len: nat, endA: nat, endB: nat) {
    && endA <= |a| && endB <= |b|
    && Suffix(a, endA, b, endB) == len
    && (forall x: nat, y: nat | x <= |a| && y <= |b| && Before(x, y, i, j) :: Suffix(a, x, b, y) <= len)
    && (forall x: nat, y: nat | x < endA && y <= |b| :: Suffix(a, x, b, y) < len)
  }

  /** Filling one cell keeps the best value right. */
  lemma BestStep(a: string, b: string, i: nat, j: nat, len: nat, endA: nat, endB: nat)
    requires 1 <= i <= |a| && 1 <= j <= |b| && Best(a, b, i, j, len, endA, endB)
    ensures Suffix(a, i, b, j) <= len ==> Best(a, b, i, j + 1, len, endA, endB)
    ensures Suffix(a, i, b, j) > len ==> Best(a, b, i, j + 1, Suffix(a, i, b, j), i, j)
  {
    hide Suffix;
  }

  lemma BestRow(a: string, b: string, i: nat, len: nat, endA: nat, endB: nat)
    requires i <= |a| && Best(a, b, i, |b| + 1, len, endA, endB)
    ensures Best(a, b, i + 1, 1, len, endA, endB)
  {
    if i < |a| {
      assert Suffix(a, i + 1, b, 0) == 0;
    }
    hide Suffix;
  }

  lemma BestStart(a: string, b: string)
    ensures Best(a, b, 1, 1, 0, 0, 0)
  {
    if |a| > 0 {
      assert Suffix(a, 1, b, 0) == 0;
    }
  }

  /** The best cell gives a common substring; no common one is longer, and none as long starts earlier in a. */
  lemma BestIsLongest(a: string, b: string, len: nat, endA: nat, endB: nat)
    requires Best(a, b, |a| + 1, 1, len, endA, endB)
    ensures
      var r := a[endA - len..endA];
      && OccursAt(r, a, endA - len) && Occurs(r, b)
      && (forall s: string | Occurs(s, a) && Occurs(s, b) :: |s| <= |r|)
      && (forall s: string, p: nat | |s| == len && OccursAt(s, a, p) && Occurs(s, b) :: endA - len <= p)
  {
    var r := a[endA - len..endA];
    SuffixIsLongest(a, endA, b, endB, len);
    assert OccursAt(r, b, endB - len);
    forall s: string, p: nat | OccursAt(s, a, p) && Occurs(s, b)
      ensures |s| <= len && (|s| == len ==> endA - len <= p)
    {
      var q: nat :| OccursAt(s, b, q);
      assert Agree(a, p + |s|, b, q + |s|, |s|);
      SuffixIsLongest(a, p + |s|, b, q + |s|, |s|);
      hide Suffix, Agree;
      assert Before(p + |s|, q + |s|, |a| + 1, 1);
    }
    hide Best, Suffix, OccursAt;
    forall s: string | Occurs(s, a) && Occurs(s, b)
      ensures |s| <= len
    {
      var p: nat :| OccursAt(s, a, p);
    }
  }

  /** Rows before i are filled, and row i up to column j; the other cells are zero. */
  ghost predicate Filled(dp: array2<nat>, a: string, b: string, i: nat, j: nat)
    reads dp
    requires dp.Length0 == |a| + 1 && dp.Length1 == |b| + 1
  {
    forall x: nat, y: nat | x <= |a| && y <= |b| ::
      dp[x, y] == if Before(x, y, i, j) || y == 0 then Suffix(a, x, b, y) else 0
  }

  method Lcs(a: string, b: string) returns (r: string)
    ensures Occurs(r, a) && Occurs(r, b)
    ensures forall s: string | Occurs(s, a) && Occurs(s, b) :: |s| <= |r|
    ensures exists p: nat :: OccursAt(r, a, p)
              && forall s: string, q: nat | |s| == |r| && OccursAt(s, a, q) && Occurs(s, b) :: p <= q
  {
    hide Suffix;
    if a == "" || b == "" {
      NoneCommon(a, b);
      return "";
    }
    var dp := new nat[|a| + 1, |b| + 1]((_, _) => 0);
    var bestLen, bestEnd := 0, 0;
    ghost var endB := 0;
    BestStart(a, b);
    StartFilled(dp, a, b);
    for i := 1 to |a| + 1
      invariant Filled(dp, a, b, i, 1)
      invariant Best(a, b, i, 1, bestLen, bestEnd, endB)
    {
      for j := 1 to |b| + 1
        invariant Filled(dp, a, b, i, j)
        invariant Best(a, b, i, j, bestLen, bestEnd, endB)
      {
        BestStep(a, b, i, j, bestLen, bestEnd, endB);
        CellIs(a, b, i, j);
        if a[i - 1] == b[j - 1] {
          dp[i, j] := dp[i - 1, j - 1] + 1;
          if dp[i, j] > bestLen {
            bestLen := dp[i, j];
            bestEnd := i;
            endB := j;
          }
        }
      }
      BestRow(a, b, i, bestLen, bestEnd, endB);
      NextRow(dp, a, b, i);
    }
    BestIsLongest(a, b, bestLen, bestEnd, endB);
    r := a[bestEnd - bestLen..bestEnd];
  }

  lemma CellIs(a: string, b: string, i: nat, j: nat)
    requires 1 <= i <= |a| && 1 <= j <= |b|
    ensures Suffix(a, i, b, j) == if a[i - 1] == b[j - 1] then Suffix(a, i - 1, b, j - 1) + 1 else 0
  {
  }

  lemma StartFilled(dp: array2<nat>, a: string, b: string)
    requires dp.Length0 == |a| + 1 && dp.Length1 == |b| + 1
    requires forall x: nat, y: nat | x <= |a| && y <= |b| :: dp[x, y] == 0
    ensures Filled(dp, a, b, 1, 1)
  {
    forall x: nat, y: nat | x <= |a| && y <= |b| && (x == 0 || y == 0)
      ensures Suffix(a, x, b, y) == 0
    {
    }
    hide Suffix;
  }

  lemma NextRow(dp: array2<nat>, a: string, b: string, i: nat)
    requires dp.Length0 == |a| + 1 && dp.Length1 == |b| + 1 && i <= |a| && Filled(dp, a, b, i, |b| + 1)
    ensures Filled(dp, a, b, i + 1, 1)
  {
    hide Suffix;
  }

  lemma NoneCommon(a: string, b: string)
    requires a == "" || b == ""
    ensures OccursAt("", a, 0) && OccursAt("", b, 0)
    ensures forall s: string | Occurs(s, a) && Occurs(s, b) :: |s| <= 0
  {
  }
}
