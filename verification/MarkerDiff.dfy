/**
 The marker-aware difference of two template outputs, and exactly when it loses nothing. Models
 calculate_diff_split of common/chat-auto-parser-helpers.cpp.
 */
module MarkerDiff {
  import opened Common
  import opened Segments

  datatype DiffSplit = DiffSplit(prefix: string, suffix: string, left: string, right: string)

  /** The first input is prefix + left + suffix, the second one prefix + right + suffix. */
  predicate Lossless(left: string, right: string, d: DiffSplit) {
    d.prefix + d.left + d.suffix == left && d.prefix + d.right + d.suffix == right
  }

  // ---- shared ends of two texts ----

  function PrefixFrom(s: string, t: string, i: nat): (n: nat)
    requires i <= |s| && i <= |t|
    ensures i <= n <= |s| && n <= |t| && (n < |s| && n < |t| ==> s[n] != t[n])
    ensures forall k :: i <= k < n ==> s[k] == t[k]
    decreases |s| - i
  {
    if i == |s| || i == |t| || s[i] != t[i] then i else PrefixFrom(s, t, i + 1)
  }

  function PrefixLen(s: string, t: string): (n: nat)
    ensures n <= |s| && n <= |t| && s[..n] == t[..n]
    ensures n < |s| && n < |t| ==> s[n] != t[n]
  {
    PrefixFrom(s, t, 0)
  }

  function SuffixFrom(s: string, t: string, i: nat): (n: nat)
    requires i <= |s| && i <= |t|
    ensures i <= n <= |s| && n <= |t| && (n < |s| && n < |t| ==> s[|s| - 1 - n] != t[|t| - 1 - n])
    ensures forall k :: |s| - n <= k < |s| - i ==> s[k] == t[k - |s| + |t|]
    decreases |s| - i
  {
    if i == |s| || i == |t| || s[|s| - 1 - i] != t[|t| - 1 - i] then i else SuffixFrom(s, t, i + 1)
  }

  function SuffixLen(s: string, t: string): (n: nat)
    ensures n <= |s| && n <= |t| && s[|s| - n..] == t[|t| - n..]
    ensures n < |s| && n < |t| ==> s[|s| - 1 - n] != t[|t| - 1 - n]
  {
    SuffixFrom(s, t, 0)
  }

  method CommonPrefixLen(left: string, right: string) returns (n: nat)
    ensures n == PrefixLen(left, right)
  {
    n := 0;
    var least := if |left| < |right| then |left| else |right|;
    while n < least && left[n] == right[n]
      invariant n <= least && PrefixFrom(left, right, n) == PrefixLen(left, right)
    {
      n := n + 1;
    }
  }

  method CommonSuffixLen(left: string, right: string) returns (n: nat)
    ensures n == SuffixLen(left, right)
  {
    n := 0;
    var least := if |left| < |right| then |left| else |right|;
    while n < least && left[|left| - 1 - n] == right[|right| - 1 - n]
      invariant n <= least && SuffixFrom(left, right, n) == SuffixLen(left, right)
    {
      n := n + 1;
    }
  }

  // ---- the text of a range of segments ----

  function Between(segs: seq<Segment>, i: nat, j: nat): string
    requires j <= |segs|
    decreases j - i
  {
    if i >= j then "" else segs[i].value + Between(segs, i + 1, j)
  }

  lemma {:induction false} BetweenSplit(segs: seq<Segment>, i: nat, j: nat, k: nat)
    requires i <= j <= k <= |segs|
    ensures Between(segs, i, k) == Between(segs, i, j) + Between(segs, j, k)
    decreases j - i
  {
    if i < j {
      BetweenSplit(segs, i + 1, j, k);
    }
  }

  lemma BetweenOne(segs: seq<Segment>, i: nat)
    requires i < |segs|
    ensures Between(segs, i, i + 1) == segs[i].value
  {
  }

  lemma {:induction false} BetweenAll(segs: seq<Segment>, i: nat)
    requires i <= |segs|
    ensures Between(segs, i, |segs|) == TextOf(segs[i..])
    decreases |segs| - i
  {
    if i < |segs| {
      BetweenAll(segs, i + 1);
      assert segs[i..][0] == segs[i] && segs[i..][1..] == segs[i + 1..];
    }
  }

  // ---- narrowing from both ends ----

  /**
   What is left to compare: segments ls to le of the first input and rs to re of the second. A side whose
   last segment went into the suffix while the range had no other is marked as used.
   */
  datatype Ends = Ends(ls: nat, le: nat, rs: nat, re: nat, lUsed: bool, rUsed: bool, prefix: string, suffix: string)

  predicate InRange(L: seq<Segment>, R: seq<Segment>, e: Ends) {
    && e.ls <= e.le < |L| && e.rs <= e.re < |R|
    && (e.lUsed ==> e.ls == e.le) && (e.rUsed ==> e.rs == e.re)
  }

  predicate Wide(e: Ends) {
    e.ls != e.le && e.rs != e.re
  }

  /** Segments that match at the start go to the prefix. */
  function TakeFront(L: seq<Segment>, R: seq<Segment>, e: Ends): (r: Ends)
    requires InRange(L, R, e) && Wide(e)
    ensures InRange(L, R, r)
  {
    if L[e.ls] == R[e.rs] then e.(ls := e.ls + 1, rs := e.rs + 1, prefix := e.prefix + L[e.ls].value) else e
  }

  /** Segments that match at the end go to the suffix. */
  function TakeBack(L: seq<Segment>, R: seq<Segment>, e: Ends): (r: Ends)
    requires InRange(L, R, e)
    ensures InRange(L, R, r)
  {
    if L[e.le] == R[e.re] then
      e.(suffix := L[e.le].value + e.suffix,
         le := if e.ls != e.le then e.le - 1 else e.le, lUsed := e.ls == e.le,
         re := if e.rs != e.re then e.re - 1 else e.re, rUsed := e.rs == e.re)
    else e
  }

  predicate Advances(L: seq<Segment>, R: seq<Segment>, e: Ends)
    requires InRange(L, R, e) && Wide(e)
  {
    var f := TakeFront(L, R, e);
    L[e.ls] == R[e.rs] || L[f.le] == R[f.re]
  }

  function Narrow(L: seq<Segment>, R: seq<Segment>, e: Ends): (r: Ends)
    requires InRange(L, R, e)
    ensures InRange(L, R, r)
    decreases e.le - e.ls + e.re - e.rs
  {
    if Wide(e) && Advances(L, R, e) then Narrow(L, R, TakeBack(L, R, TakeFront(L, R, e))) else e
  }

  /** Which way the range is settled once one side is down to a single segment. */
  datatype Ending = Open | SingleLeftBack | SingleLeftFront | SingleRightBack | SingleRightFront | BothSame

  function EndingOf(L: seq<Segment>, R: seq<Segment>, e: Ends): Ending
    requires InRange(L, R, e)
  {
    if e.ls == e.le && e.rs != e.re then
      if L[e.ls] == R[e.re] then SingleLeftBack
      else if L[e.ls] == R[e.rs] then SingleLeftFront
      else Open
    else if e.rs == e.re && e.ls != e.le then
      if L[e.le] == R[e.rs] then SingleRightBack
      else if L[e.ls] == R[e.rs] then SingleRightFront
      else Open
    else if e.ls == e.le && e.rs == e.re && L[e.ls] == R[e.rs] && L[e.ls].kind == MARKER then BothSame
    else Open
  }

  function Settle(L: seq<Segment>, R: seq<Segment>, e: Ends): (r: Ends)
    requires InRange(L, R, e)
    ensures r.ls <= r.le < |L| && r.rs <= r.re < |R|
  {
    match EndingOf(L, R, e)
    case Open => e
    case SingleLeftBack => e.(suffix := R[e.re].value + e.suffix, re := e.re - 1, lUsed := true)
    case SingleLeftFront => e.(prefix := e.prefix + R[e.rs].value, rs := e.rs + 1, lUsed := true)
    case SingleRightBack => e.(suffix := L[e.le].value + e.suffix, le := e.le - 1, rUsed := true)
    case SingleRightFront => e.(prefix := e.prefix + L[e.ls].value, ls := e.ls + 1, rUsed := true)
    case BothSame => e.(prefix := e.prefix + R[e.rs].value, lUsed := true, rUsed := true)
  }

  function LeftRest(L: seq<Segment>, e: Ends): string
    requires e.le < |L|
  {
    Between(L, e.ls, if e.lUsed then e.le else e.le + 1)
  }

  function RightRest(R: seq<Segment>, e: Ends): string
    requires e.re < |R|
  {
    Between(R, e.rs, if e.rUsed then e.re else e.re + 1)
  }

  // ---- the result ----

  /** Text shared by the two remainders moves to the prefix and the suffix. */
  function TrimTexts(prefix: string, l: string, r: string, suffix: string, front: bool, back: bool): DiffSplit {
    var n := if back then SuffixLen(l, r) else 0;
    var m := if front then PrefixLen(l[..|l| - n], r[..|r| - n]) else 0;
    DiffSplit(prefix + l[..m], l[|l| - n..] + suffix, l[m..|l| - n], r[m..|r| - n])
  }

  /** Only text is split: a remainder that starts or ends with a marker keeps it whole. */
  function Trim(L: seq<Segment>, R: seq<Segment>, e: Ends): DiffSplit
    requires e.ls <= e.le < |L| && e.rs <= e.re < |R|
  {
    TrimTexts(e.prefix, LeftRest(L, e), RightRest(R, e), e.suffix,
              R[e.rs].kind == TEXT && L[e.ls].kind == TEXT, L[e.le].kind == TEXT && R[e.re].kind == TEXT)
  }

  /** The two corrections at the end: no difference at all, and a first input that starts the second. */
  function Adjust(left: string, right: string, d: DiffSplit): DiffSplit {
    var same := if d.left == "" && d.right == "" then d.(prefix := left, suffix := "") else d;
    if same.left == "" && same.right != "" && left <= right then DiffSplit(left, "", "", right[|left|..]) else same
  }

  function Whole(L: seq<Segment>, R: seq<Segment>): (e: Ends)
    requires L != [] && R != []
    ensures InRange(L, R, e)
  {
    Ends(0, |L| - 1, 0, |R| - 1, false, false, "", "")
  }

  function Diff(left: string, right: string): DiffSplit {
    var L, R := SegmentsOf(left), SegmentsOf(right);
    if L == [] then DiffSplit("", "", "", right)
    else if R == [] then DiffSplit("", "", left, "")
    else Adjust(left, right, Trim(L, R, Settle(L, R, Narrow(L, R, Whole(L, R)))))
  }

  // ---- the algorithm ----

  method NarrowEnds(L: seq<Segment>, R: seq<Segment>) returns (e: Ends)
    requires L != [] && R != []
    ensures InRange(L, R, e) && e == Narrow(L, R, Whole(L, R))
  {
    var ls, le, rs, re := 0, |L| - 1, 0, |R| - 1;
    var prefix, suffix := "", "";
    var lUsed, rUsed := false, false;
    while ls != le && rs != re
      invariant ls <= le && rs <= re
      invariant InRange(L, R, Ends(ls, le, rs, re, lUsed, rUsed, prefix, suffix))
      invariant Narrow(L, R, Ends(ls, le, rs, re, lUsed, rUsed, prefix, suffix)) == Narrow(L, R, Whole(L, R))
      decreases le - ls + re - rs
    {
      ghost var was := Ends(ls, le, rs, re, lUsed, rUsed, prefix, suffix);
      var advanced := false;
      if L[ls] == R[rs] {
        prefix := prefix + L[ls].value;
        ls := ls + 1;
        rs := rs + 1;
        advanced := true;
      }
      if L[le] == R[re] {
        suffix := L[le].value + suffix;
        if ls != le {
          le := le - 1;
        } else {
          lUsed := true;
        }
        if rs != re {
          re := re - 1;
        } else {
          rUsed := true;
        }
        advanced := true;
      }
      assert Ends(ls, le, rs, re, lUsed, rUsed, prefix, suffix) == TakeBack(L, R, TakeFront(L, R, was));
      assert advanced == Advances(L, R, was);
      if !advanced {
        break;
      }
    }
    e := Ends(ls, le, rs, re, lUsed, rUsed, prefix, suffix);
  }

  method JoinRange(segs: seq<Segment>, i: nat, j: nat) returns (s: string)
    requires i <= j <= |segs|
    ensures s == Between(segs, i, j)
  {
    s := "";
    for k := i to j
      invariant s == Between(segs, i, k)
    {
      BetweenSplit(segs, i, k, k + 1);
      BetweenOne(segs, k);
      s := s + segs[k].value;
    }
  }

  method TrimBoth(prefix: string, l: string, r: string, suffix: string, front: bool, back: bool) returns (d: DiffSplit)
    ensures d == TrimTexts(prefix, l, r, suffix, front, back)
  {
    hide PrefixLen, SuffixLen;
    var n, m := 0, 0;
    if back {
      n := CommonSuffixLen(l, r);
    }
    if front {
      m := CommonPrefixLen(l[..|l| - n], r[..|r| - n]);
    }
    d := DiffSplit(prefix + l[..m], l[|l| - n..] + suffix, l[m..|l| - n], r[m..|r| - n]);
  }

  method TrimRest(L: seq<Segment>, R: seq<Segment>, e: Ends) returns (d: DiffSplit)
    requires e.ls <= e.le < |L| && e.rs <= e.re < |R|
    ensures d == Trim(L, R, e)
  {
    hide Between, TrimTexts;
    var back := L[e.le].kind == TEXT && R[e.re].kind == TEXT;
    var front := R[e.rs].kind == TEXT && L[e.ls].kind == TEXT;
    var l := JoinRange(L, e.ls, if e.lUsed then e.le else e.le + 1);
    var r := JoinRange(R, e.rs, if e.rUsed then e.re else e.re + 1);
    d := TrimBoth(e.prefix, l, r, e.suffix, front, back);
  }

  method CalculateDiffSplit(left: string, right: string) returns (d: DiffSplit)
    ensures d == Diff(left, right)
  {
    hide Narrow, Trim, SegmentsOf;
    var L := SegmentizeMarkers(left);
    var R := SegmentizeMarkers(right);
    if L == [] {
      return DiffSplit("", "", "", right);
    }
    if R == [] {
      return DiffSplit("", "", left, "");
    }
    var e := NarrowEnds(L, R);
    if e.ls == e.le && e.rs != e.re {
      if L[e.ls] == R[e.re] {
        e := e.(suffix := R[e.re].value + e.suffix, re := e.re - 1, lUsed := true);
      } else if L[e.ls] == R[e.rs] {
        e := e.(prefix := e.prefix + R[e.rs].value, rs := e.rs + 1, lUsed := true);
      }
    } else if e.rs == e.re && e.ls != e.le {
      if L[e.le] == R[e.rs] {
        e := e.(suffix := L[e.le].value + e.suffix, le := e.le - 1, rUsed := true);
      } else if L[e.ls] == R[e.rs] {
        e := e.(prefix := e.prefix + L[e.ls].value, ls := e.ls + 1, rUsed := true);
      }
    } else if e.ls == e.le && e.rs == e.re && L[e.ls] == R[e.rs] && L[e.ls].kind == MARKER {
      e := e.(prefix := e.prefix + R[e.rs].value, lUsed := true, rUsed := true);
    }
    d := TrimRest(L, R, e);
    if d.left == "" && d.right == "" {
      d := d.(prefix := left, suffix := "");
    }
    if d.left == "" && d.right != "" && left <= right {
      d := DiffSplit(left, "", "", right[|left|..]);
    }
  }

  // ---- narrowing keeps both texts ----

  function LeftText(L: seq<Segment>, e: Ends): string
    requires e.le < |L|
  {
    e.prefix + LeftRest(L, e) + e.suffix
  }

  function RightText(R: seq<Segment>, e: Ends): string
    requires e.re < |R|
  {
    e.prefix + RightRest(R, e) + e.suffix
  }

  lemma Regroup(a: string, b: string, c: string, d: string)
    ensures a + (b + c) + d == (a + b) + c + d && a + (b + c) + d == a + b + (c + d)
  {
  }

  /** Moving the first segment of a range to the text before it. */
  lemma MoveFront(segs: seq<Segment>, i: nat, j: nat, prefix: string, suffix: string)
    requires i < j <= |segs|
    ensures prefix + Between(segs, i, j) + suffix == (prefix + segs[i].value) + Between(segs, i + 1, j) + suffix
  {
    BetweenSplit(segs, i, i + 1, j);
    BetweenOne(segs, i);
    hide Between;
    Regroup(prefix, segs[i].value, Between(segs, i + 1, j), suffix);
  }

  /** Moving the last segment of a range to the text after it. */
  lemma MoveBack(segs: seq<Segment>, i: nat, j: nat, prefix: string, suffix: string)
    requires i < j <= |segs|
    ensures prefix + Between(segs, i, j) + suffix == prefix + Between(segs, i, j - 1) + (segs[j - 1].value + suffix)
  {
    BetweenSplit(segs, i, j - 1, j);
    BetweenOne(segs, j - 1);
    hide Between;
    Regroup(prefix, Between(segs, i, j - 1), segs[j - 1].value, suffix);
  }

  lemma FrontKeeps(L: seq<Segment>, R: seq<Segment>, e: Ends)
    requires InRange(L, R, e) && Wide(e)
    ensures
      var r := TakeFront(L, R, e);
      LeftText(L, r) == LeftText(L, e) && RightText(R, r) == RightText(R, e) && r.lUsed == r.rUsed == false
  {
    hide Between;
    if L[e.ls] == R[e.rs] {
      MoveFront(L, e.ls, e.le + 1, e.prefix, e.suffix);
      MoveFront(R, e.rs, e.re + 1, e.prefix, e.suffix);
    }
  }

  lemma BackKeeps(L: seq<Segment>, R: seq<Segment>, e: Ends)
    requires InRange(L, R, e) && !e.lUsed && !e.rUsed
    ensures
      var r := TakeBack(L, R, e);
      LeftText(L, r) == LeftText(L, e) && RightText(R, r) == RightText(R, e)
  {
    hide Between;
    if L[e.le] == R[e.re] {
      MoveBack(L, e.ls, e.le + 1, e.prefix, e.suffix);
      MoveBack(R, e.rs, e.re + 1, e.prefix, e.suffix);
    }
  }

  lemma {:induction false} NarrowKeeps(L: seq<Segment>, R: seq<Segment>, e: Ends)
    requires InRange(L, R, e)
    ensures
      var r := Narrow(L, R, e);
      LeftText(L, r) == LeftText(L, e) && RightText(R, r) == RightText(R, e)
    decreases e.le - e.ls + e.re - e.rs
  {
    hide LeftText, RightText;
    if Wide(e) && Advances(L, R, e) {
      FrontKeeps(L, R, e);
      BackKeeps(L, R, TakeFront(L, R, e));
      NarrowKeeps(L, R, TakeBack(L, R, TakeFront(L, R, e)));
    }
  }

  // ---- settling, and the segment that may be used twice ----

  /** A segment that the narrowing already put into the suffix is matched again. */
  predicate Rematches(L: seq<Segment>, R: seq<Segment>, e: Ends)
    requires InRange(L, R, e)
  {
    match EndingOf(L, R, e)
    case Open => false
    case SingleLeftBack => e.lUsed
    case SingleLeftFront => e.lUsed
    case SingleRightBack => e.rUsed
    case SingleRightFront => e.rUsed
    case BothSame => e.lUsed || e.rUsed
  }

  lemma SettleLeft(L: seq<Segment>, R: seq<Segment>, e: Ends)
    requires InRange(L, R, e) && (EndingOf(L, R, e).SingleLeftBack? || EndingOf(L, R, e).SingleLeftFront?)
    ensures
      var r := Settle(L, R, e);
      && RightText(R, r) == RightText(R, e) && LeftRest(L, r) == ""
      && RightRest(R, r) == Between(R, r.rs, r.re + 1)
      && (!e.lUsed ==> LeftText(L, r) == LeftText(L, e))
      && (e.lUsed ==> |LeftText(L, r)| == |LeftText(L, e)| + |L[e.ls].value|)
  {
    MoveFront(R, e.rs, e.re + 1, e.prefix, e.suffix);
    MoveBack(R, e.rs, e.re + 1, e.prefix, e.suffix);
    BetweenOne(L, e.ls);
    assert Between(L, e.ls, e.ls) == "";
    hide Between;
  }

  lemma SettleRight(L: seq<Segment>, R: seq<Segment>, e: Ends)
    requires InRange(L, R, e) && (EndingOf(L, R, e).SingleRightBack? || EndingOf(L, R, e).SingleRightFront?)
    ensures
      var r := Settle(L, R, e);
      && LeftText(L, r) == LeftText(L, e) && RightRest(R, r) == ""
      && LeftRest(L, r) == Between(L, r.ls, r.le + 1)
      && (!e.rUsed ==> RightText(R, r) == RightText(R, e))
      && (e.rUsed ==> |RightText(R, r)| == |RightText(R, e)| + |R[e.rs].value|)
  {
    MoveFront(L, e.ls, e.le + 1, e.prefix, e.suffix);
    MoveBack(L, e.ls, e.le + 1, e.prefix, e.suffix);
    BetweenOne(R, e.rs);
    assert Between(R, e.rs, e.rs) == "";
    hide Between;
  }

  lemma SettleBoth(L: seq<Segment>, R: seq<Segment>, e: Ends)
    requires InRange(L, R, e) && EndingOf(L, R, e).BothSame?
    ensures
      var r := Settle(L, R, e);
      && LeftRest(L, r) == "" && RightRest(R, r) == ""
      && |LeftText(L, e)| == |e.prefix| + (if e.lUsed then 0 else |L[e.ls].value|) + |e.suffix|
      && |RightText(R, e)| == |e.prefix| + (if e.rUsed then 0 else |L[e.ls].value|) + |e.suffix|
      && (e.lUsed == e.rUsed ==> LeftText(L, e) == RightText(R, e))
  {
    BetweenOne(L, e.ls);
    BetweenOne(R, e.rs);
    assert Between(L, e.ls, e.ls) == "" && Between(R, e.rs, e.rs) == "";
    hide Between;
  }

  // ---- trimming and adjusting ----

  lemma SameCut(l: string, r: string, m: nat, n: nat)
    requires m + n <= |l| && m + n <= |r| && l[..|l| - n][..m] == r[..|r| - n][..m]
    ensures l[..m] == r[..m]
  {
    assert l[..m] == l[..|l| - n][..m] && r[..m] == r[..|r| - n][..m];
  }

  lemma TextsEmptied(prefix: string, l: string, r: string, suffix: string, front: bool, back: bool)
    ensures
      var d := TrimTexts(prefix, l, r, suffix, front, back);
      (l == "" ==> d.left == "" && d.right == r) && (r == "" ==> d.right == "" && d.left == l)
  {
    hide PrefixLen, SuffixLen;
    assert l[0..|l|] == l && r[0..|r|] == r;
  }

  lemma TextsKeep(prefix: string, l: string, r: string, suffix: string, front: bool, back: bool)
    ensures
      var d := TrimTexts(prefix, l, r, suffix, front, back);
      && d.prefix + d.left + d.suffix == prefix + l + suffix && d.prefix + d.right + d.suffix == prefix + r + suffix
      && (l == "" ==> d.left == "" && d.right == r) && (r == "" ==> d.right == "" && d.left == l)
  {
    var n := if back then SuffixLen(l, r) else 0;
    var m := if front then PrefixLen(l[..|l| - n], r[..|r| - n]) else 0;
    assert m + n <= |l| && m + n <= |r| && l[|l| - n..] == r[|r| - n..];
    assert l[..|l| - n][..m] == r[..|r| - n][..m];
    var d := TrimTexts(prefix, l, r, suffix, front, back);
    assert d == DiffSplit(prefix + l[..m], l[|l| - n..] + suffix, l[m..|l| - n], r[m..|r| - n]);
    hide PrefixLen, SuffixLen, TrimTexts;
    TextsEmptied(prefix, l, r, suffix, front, back);
    SameCut(l, r, m, n);
    Parts(prefix, l, suffix, m, n);
    Parts(prefix, r, suffix, m, n);
  }

  lemma TrimKeeps(L: seq<Segment>, R: seq<Segment>, e: Ends)
    requires e.ls <= e.le < |L| && e.rs <= e.re < |R|
    ensures
      var d := Trim(L, R, e);
      && d.prefix + d.left + d.suffix == LeftText(L, e) && d.prefix + d.right + d.suffix == RightText(R, e)
      && (LeftRest(L, e) == "" ==> d.left == "" && d.right == RightRest(R, e))
      && (RightRest(R, e) == "" ==> d.right == "" && d.left == LeftRest(L, e))
  {
    hide TrimTexts, LeftRest, RightRest;
    TextsKeep(e.prefix, LeftRest(L, e), RightRest(R, e), e.suffix,
              R[e.rs].kind == TEXT && L[e.ls].kind == TEXT, L[e.le].kind == TEXT && R[e.re].kind == TEXT);
  }

  lemma Parts(prefix: string, s: string, suffix: string, m: nat, n: nat)
    requires m + n <= |s|
    ensures (prefix + s[..m]) + s[m..|s| - n] + (s[|s| - n..] + suffix) == prefix + s + suffix
  {
    var a, b, c := s[..m], s[m..|s| - n], s[|s| - n..];
    assert s == a + b + c;
    FiveParts(prefix, a, b, c, suffix);
  }

  lemma FiveParts(prefix: string, a: string, b: string, c: string, suffix: string)
    ensures (prefix + a) + b + (c + suffix) == prefix + (a + b + c) + suffix
  {
  }

  /** The corrections repair or keep a difference that is right about one of the inputs. */
  lemma AdjustKeeps(left: string, right: string, d: DiffSplit)
    ensures Lossless(left, right, d) ==> Lossless(left, right, Adjust(left, right, d))
    ensures d.left == "" && d.right == "" ==> (Lossless(left, right, Adjust(left, right, d)) <==> left == right)
    ensures
      d.left == "" && d.right != "" && d.prefix + d.left + d.suffix != left ==>
        (Lossless(left, right, Adjust(left, right, d)) <==> left <= right)
    ensures
      d.left != "" && d.prefix + d.right + d.suffix != right ==> !Lossless(left, right, Adjust(left, right, d))
  {
    if d.left == "" && d.right == "" {
      assert left + "" + "" == left;
      assert d.prefix + d.left == d.prefix + d.right;
    } else if d.left == "" && left <= right {
      assert left + "" + "" == left && left + right[|left|..] + "" == right;
    }
  }

  // ---- exactly when nothing is lost ----

  /** The narrowing's outcome for two inputs that both have segments. */
  function Narrowed(left: string, right: string): (e: Ends)
    requires SegmentsOf(left) != [] && SegmentsOf(right) != []
    ensures InRange(SegmentsOf(left), SegmentsOf(right), e)
  {
    Narrow(SegmentsOf(left), SegmentsOf(right), Whole(SegmentsOf(left), SegmentsOf(right)))
  }

  /**
   A segment is used twice to the harm of the result. It does no harm when the whole inputs are equal, or
   when only the first input's last segment was used and the first input starts the second.
   */
  predicate Loses(left: string, right: string) {
    var L, R := SegmentsOf(left), SegmentsOf(right);
    && L != [] && R != []
    && var e := Narrowed(left, right);
      && Rematches(L, R, e)
      && match EndingOf(L, R, e)
         case SingleLeftBack => !(left <= right)
         case SingleLeftFront => !(left <= right)
         case BothSame => !(e.lUsed && e.rUsed)
         case _ => true
  }

  lemma SegmentsNonEmpty(s: string)
    ensures forall k :: 0 <= k < |SegmentsOf(s)| ==> SegmentsOf(s)[k].value != ""
    ensures s == TextOf(SegmentsOf(s))
  {
    SegmentsCharacterised(SegmentsOf(s), s);
    SegmentsNotEmpty(SegmentsOf(s));
  }

  lemma NarrowedTexts(left: string, right: string)
    requires SegmentsOf(left) != [] && SegmentsOf(right) != []
    ensures LeftText(SegmentsOf(left), Narrowed(left, right)) == left
    ensures RightText(SegmentsOf(right), Narrowed(left, right)) == right
  {
    var L, R := SegmentsOf(left), SegmentsOf(right);
    SegmentsNonEmpty(left);
    SegmentsNonEmpty(right);
    hide SegmentsOf, TextOf, Narrow, Between;
    NarrowKeeps(L, R, Whole(L, R));
    BetweenAll(L, 0);
    BetweenAll(R, 0);
    assert L[0..] == L && R[0..] == R;
    assert "" + left + "" == left && "" + right + "" == right;
  }

  lemma RestNotEmpty(segs: seq<Segment>, i: nat, j: nat)
    requires i < j <= |segs| && segs[i].value != ""
    ensures Between(segs, i, j) != ""
  {
  }

  lemma SettledLoses(left: string, right: string, L: seq<Segment>, R: seq<Segment>, e: Ends)
    requires InRange(L, R, e) && LeftText(L, e) == left && RightText(R, e) == right
    requires forall k :: 0 <= k < |L| ==> L[k].value != ""
    requires forall k :: 0 <= k < |R| ==> R[k].value != ""
    ensures
      Lossless(left, right, Adjust(left, right, Trim(L, R, Settle(L, R, e))))
      <==> !(Rematches(L, R, e) &&
             match EndingOf(L, R, e)
             case SingleLeftBack => !(left <= right)
             case SingleLeftFront => !(left <= right)
             case BothSame => !(e.lUsed && e.rUsed)
             case _ => true)
  {
    hide Trim, LeftText, RightText, LeftRest, RightRest, Adjust;
    var s := Settle(L, R, e);
    var d := Trim(L, R, s);
    TrimKeeps(L, R, s);
    AdjustKeeps(left, right, d);
    match EndingOf(L, R, e) {
      case Open =>
      case BothSame => SettleBoth(L, R, e);
      case SingleLeftBack =>
        SettleLeft(L, R, e);
        RestNotEmpty(R, s.rs, s.re + 1);
      case SingleLeftFront =>
        SettleLeft(L, R, e);
        RestNotEmpty(R, s.rs, s.re + 1);
      case SingleRightBack =>
        SettleRight(L, R, e);
        RestNotEmpty(L, s.ls, s.le + 1);
      case SingleRightFront =>
        SettleRight(L, R, e);
        RestNotEmpty(L, s.ls, s.le + 1);
    }
  }

  /** The difference loses and invents nothing, except exactly when a segment is used twice to its harm. */
  lemma DiffLossless(left: string, right: string)
    ensures Lossless(left, right, Diff(left, right)) <==> !Loses(left, right)
  {
    var L, R := SegmentsOf(left), SegmentsOf(right);
    SegmentsNonEmpty(left);
    SegmentsNonEmpty(right);
    hide SegmentsOf, Trim, Adjust, Settle, LeftText, RightText;
    if L == [] {
      assert "" + "" + "" == "" && "" + right + "" == right;
    } else if R == [] {
      assert "" + "" + "" == "" && "" + left + "" == left;
    } else {
      NarrowedTexts(left, right);
      SettledLoses(left, right, L, R, Narrowed(left, right));
    }
  }

  // ---- when it cannot happen, and when it does ----

  predicate Distinct(segs: seq<Segment>) {
    forall i, j :: 0 <= i < j < |segs| ==> segs[i] != segs[j]
  }

  /** The segment that only one side used up is the other side's segment after its range. */
  predicate UsedOnce(L: seq<Segment>, R: seq<Segment>, e: Ends)
    requires InRange(L, R, e)
  {
    && (e.lUsed && !e.rUsed ==> e.re + 1 < |R| && R[e.re + 1] == L[e.ls])
    && (e.rUsed && !e.lUsed ==> e.le + 1 < |L| && L[e.le + 1] == R[e.rs])
  }

  lemma {:induction false} NarrowUses(L: seq<Segment>, R: seq<Segment>, e: Ends)
    requires InRange(L, R, e) && UsedOnce(L, R, e)
    ensures UsedOnce(L, R, Narrow(L, R, e))
    decreases e.le - e.ls + e.re - e.rs
  {
    if Wide(e) && Advances(L, R, e) {
      NarrowUses(L, R, TakeBack(L, R, TakeFront(L, R, e)));
    }
  }

  /** When no segment repeats within either input, nothing is lost. */
  lemma DistinctIsLossless(left: string, right: string)
    requires Distinct(SegmentsOf(left)) && Distinct(SegmentsOf(right))
    ensures Lossless(left, right, Diff(left, right))
  {
    hide SegmentsOf, Diff, Narrow;
    var L, R := SegmentsOf(left), SegmentsOf(right);
    if L != [] && R != [] {
      NarrowUses(L, R, Whole(L, R));
    }
    DiffLossless(left, right);
  }

  lemma TagsOf(tags: seq<Segment>)
    requires forall k :: 0 <= k < |tags| ==> tags[k].kind == MARKER && IsMarker(tags[k].value)
    ensures WellSegmented(tags)
  {
    if tags != [] {
      TagsOf(tags[1..]);
    }
  }

  /** A repeated marker: the second copy is matched with the one already used, and is gone from the result. */
  lemma RepeatedMarker()
    ensures Diff("<x><a>", "<x><a><a>") == DiffSplit("<x><a>", "", "", "")
    ensures !Lossless("<x><a>", "<x><a><a>", Diff("<x><a>", "<x><a><a>"))
  {
    var x, a := Segment(MARKER, "<x>"), Segment(MARKER, "<a>");
    var L, R := [x, a], [x, a, a];
    TagsOf(L);
    TagsOf(R);
    assert L[1..] == [a] && R[1..] == [a, a] && [a, a][1..] == [a] && [a][1..] == [];
    assert TextOf([a]) == "<a>" && TextOf([a, a]) == "<a><a>";
    assert TextOf(L) == "<x><a>" && TextOf(R) == "<x><a><a>";
    SegmentsCharacterised(L, "<x><a>");
    SegmentsCharacterised(R, "<x><a><a>");
    var e := Ends(1, 1, 1, 1, true, false, "<x>", "<a>");
    assert TakeFront(L, R, Whole(L, R)) == Ends(1, 1, 1, 2, false, false, "<x>", "");
    assert TakeBack(L, R, TakeFront(L, R, Whole(L, R))) == e;
    assert Narrow(L, R, Whole(L, R)) == Narrow(L, R, e) == e;
    hide SegmentsOf, Narrow, Trim;
    SettleBoth(L, R, e);
    TrimKeeps(L, R, Settle(L, R, e));
  }

  // ---- the difference is tight ----

  /** Narrowing stops only where the ends differ, or where one side is down to one segment. */
  lemma {:induction false} NarrowStops(L: seq<Segment>, R: seq<Segment>, e: Ends)
    requires InRange(L, R, e)
    ensures
      var r := Narrow(L, R, e);
      !Wide(r) || (L[r.ls] != R[r.rs] && L[r.le] != R[r.re])
    decreases e.le - e.ls + e.re - e.rs
  {
    if Wide(e) && Advances(L, R, e) {
      NarrowStops(L, R, TakeBack(L, R, TakeFront(L, R, e)));
    }
  }

  lemma SettledRest(L: seq<Segment>, R: seq<Segment>, e: Ends)
    requires InRange(L, R, e) && EndingOf(L, R, e) != Open
    ensures var s := Settle(L, R, e); LeftRest(L, s) == "" || RightRest(R, s) == ""
  {
  }

  lemma TextsTight(prefix: string, l: string, r: string, suffix: string, front: bool, back: bool)
    ensures
      var d := TrimTexts(prefix, l, r, suffix, front, back);
      d.left != "" && d.right != "" ==>
        (front ==> d.left[0] != d.right[0]) && (back ==> Last(d.left) != Last(d.right))
  {
    var n := if back then SuffixLen(l, r) else 0;
    var x, y := l[..|l| - n], r[..|r| - n];
    var m := if front then PrefixLen(x, y) else 0;
    hide PrefixLen, SuffixLen;
    assert l[m..|l| - n] == x[m..] && r[m..|r| - n] == y[m..];
    if x[m..] != "" && y[m..] != "" {
      assert Last(x[m..]) == l[|l| - 1 - n] && Last(y[m..]) == r[|r| - 1 - n];
    }
  }

  lemma TrimTight(L: seq<Segment>, R: seq<Segment>, e: Ends)
    requires e.ls <= e.le < |L| && e.rs <= e.re < |R|
    ensures
      var d := Trim(L, R, e);
      d.left != "" && d.right != "" ==>
        && (L[e.ls].kind == R[e.rs].kind == TEXT ==> d.left[0] != d.right[0])
        && (L[e.le].kind == R[e.re].kind == TEXT ==> Last(d.left) != Last(d.right))
  {
    hide TrimTexts, LeftRest, RightRest;
    TextsTight(e.prefix, LeftRest(L, e), RightRest(R, e), e.suffix,
               R[e.rs].kind == TEXT && L[e.ls].kind == TEXT, L[e.le].kind == TEXT && R[e.re].kind == TEXT);
  }

  lemma TextsSame(prefix: string, v: string, suffix: string, front: bool)
    ensures TrimTexts(prefix, v, v, suffix, front, true).left == ""
  {
    var n := SuffixLen(v, v);
    hide PrefixLen, SuffixLen;
    assert n == |v|;
  }

  lemma SingleRest(segs: seq<Segment>, i: nat, used: bool)
    requires i < |segs|
    ensures Between(segs, i, if used then i else i + 1) == if used then "" else segs[i].value
  {
    BetweenOne(segs, i);
  }

  lemma SameSingle(L: seq<Segment>, R: seq<Segment>, e: Ends)
    requires InRange(L, R, e) && e.ls == e.le && e.rs == e.re && L[e.ls] == R[e.rs] && L[e.ls].kind == TEXT
    ensures Trim(L, R, e).left == "" || Trim(L, R, e).right == ""
  {
    hide Between, TrimTexts;
    SingleRest(L, e.ls, e.lUsed);
    SingleRest(R, e.rs, e.rUsed);
    TextsSame(e.prefix, L[e.ls].value, e.suffix, true);
    TrimKeeps(L, R, e);
    hide LeftText, RightText;
  }

  /** What is reported as different begins and ends with different segments, and shares no text at its ends. */
  lemma DiffTight(left: string, right: string)
    ensures
      var L, R, d := SegmentsOf(left), SegmentsOf(right), Diff(left, right);
      d.left != "" && d.right != "" && L != [] && R != [] ==>
        var e := Narrowed(left, right);
        && L[e.ls] != R[e.rs] && L[e.le] != R[e.re]
        && (L[e.ls].kind == R[e.rs].kind == TEXT ==> d.left[0] != d.right[0])
        && (L[e.le].kind == R[e.re].kind == TEXT ==> Last(d.left) != Last(d.right))
  {
    var L, R, d := SegmentsOf(left), SegmentsOf(right), Diff(left, right);
    hide SegmentsOf, Narrow, Trim, LeftRest, RightRest;
    if L != [] && R != [] && d.left != "" && d.right != "" {
      var e := Narrowed(left, right);
      var s := Settle(L, R, e);
      NarrowStops(L, R, Whole(L, R));
      TrimKeeps(L, R, s);
      if EndingOf(L, R, e) != Open {
        SettledRest(L, R, e);
      } else {
        TrimTight(L, R, e);
        if e.ls == e.le && e.rs == e.re && L[e.ls] == R[e.rs] {
          SameSingle(L, R, e);
        }
      }
    }
  }
}
