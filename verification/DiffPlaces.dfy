/**
 Where the difference puts what fits at either end: the segments and the text that the two inputs share at
 their ends, and of text that would fit at both, as much as possible at the end.
 */
module DiffPlaces {
  import opened Common
  import opened Segments
  import opened MarkerDiff

  // ---- longest shared ends, without saying how they are found ----

  predicate SharedSuffix(s: string, t: string, n: nat) {
    n <= |s| && n <= |t| && s[|s| - n..] == t[|t| - n..]
  }

  predicate SharedPrefix(s: string, t: string, n: nat) {
    n <= |s| && n <= |t| && s[..n] == t[..n]
  }

  ghost predicate LongestSuffix(s: string, t: string, n: nat) {
    SharedSuffix(s, t, n) && forall m: nat :: SharedSuffix(s, t, m) ==> m <= n
  }

  ghost predicate LongestPrefix(s: string, t: string, n: nat) {
    SharedPrefix(s, t, n) && forall m: nat :: SharedPrefix(s, t, m) ==> m <= n
  }

  /** Element k counted from the end. */
  function FromEnd<T>(s: seq<T>, k: nat): T
    requires k < |s|
  {
    s[|s| - 1 - k]
  }

  lemma SuffixCharacters(s: string, t: string, n: nat)
    requires SharedSuffix(s, t, n)
    ensures forall k :: 0 <= k < n ==> FromEnd(s, k) == FromEnd(t, k)
  {
    forall k | 0 <= k < n
      ensures FromEnd(s, k) == FromEnd(t, k)
    {
      assert s[|s| - n..][n - 1 - k] == s[|s| - 1 - k] && t[|t| - n..][n - 1 - k] == t[|t| - 1 - k];
    }
  }

  lemma PrefixCharacters(s: string, t: string, n: nat)
    requires SharedPrefix(s, t, n)
    ensures forall k :: 0 <= k < n ==> s[k] == t[k]
  {
    forall k | 0 <= k < n
      ensures s[k] == t[k]
    {
      assert s[..n][k] == s[k] && t[..n][k] == t[k];
    }
  }

  lemma SuffixLenIsLongest(s: string, t: string)
    ensures LongestSuffix(s, t, SuffixLen(s, t))
  {
    var n := SuffixLen(s, t);
    assert n < |s| && n < |t| ==> FromEnd(s, n) != FromEnd(t, n);
    forall m: nat | SharedSuffix(s, t, m)
      ensures m <= n
    {
      SuffixCharacters(s, t, m);
    }
  }

  lemma PrefixLenIsLongest(s: string, t: string)
    ensures LongestPrefix(s, t, PrefixLen(s, t))
  {
    var n := PrefixLen(s, t);
    forall m: nat | SharedPrefix(s, t, m)
      ensures m <= n
    {
      PrefixCharacters(s, t, m);
    }
  }

  /**
   The remainders l and r are cut: their longest shared suffix first, if text may be shared there, and the
   longest prefix that what is left of them shares.
   */
  ghost predicate Placed(d: DiffSplit, prefix: string, l: string, r: string, suffix: string, front: bool, back: bool)
  {
    && |d.suffix| >= |suffix| && |d.prefix| >= |prefix|
    && var n, m := |d.suffix| - |suffix|, |d.prefix| - |prefix|;
      && (if back then LongestSuffix(l, r, n) else n == 0)
      && n <= |l| && n <= |r|
      && (if front then LongestPrefix(l[..|l| - n], r[..|r| - n], m) else m == 0)
      && d.prefix + d.left + d.suffix == prefix + l + suffix && d.prefix + d.right + d.suffix == prefix + r + suffix
  }

  lemma TextsPlaced(prefix: string, l: string, r: string, suffix: string, front: bool, back: bool)
    ensures Placed(TrimTexts(prefix, l, r, suffix, front, back), prefix, l, r, suffix, front, back)
  {
    var n := if back then SuffixLen(l, r) else 0;
    var x, y := l[..|l| - n], r[..|r| - n];
    var m := if front then PrefixLen(x, y) else 0;
    SuffixLenIsLongest(l, r);
    PrefixLenIsLongest(x, y);
    TextsKeep(prefix, l, r, suffix, front, back);
    TextsLengths(prefix, l, r, suffix, front, back, n, m);
    hide TrimTexts, SuffixLen, PrefixLen, LongestSuffix, LongestPrefix;
    PlacedBy(TrimTexts(prefix, l, r, suffix, front, back), prefix, l, r, suffix, front, back, n, m);
  }

  lemma PlacedBy(d: DiffSplit, prefix: string, l: string, r: string, suffix: string, front: bool, back: bool,
                 n: nat, m: nat)
    requires |d.suffix| == |suffix| + n && |d.prefix| == |prefix| + m && n <= |l| && n <= |r|
    requires if back then LongestSuffix(l, r, n) else n == 0
    requires if front then LongestPrefix(l[..|l| - n], r[..|r| - n], m) else m == 0
    requires d.prefix + d.left + d.suffix == prefix + l + suffix && d.prefix + d.right + d.suffix == prefix + r + suffix
    ensures Placed(d, prefix, l, r, suffix, front, back)
  {
    hide LongestSuffix, LongestPrefix;
  }

  lemma TextsLengths(prefix: string, l: string, r: string, suffix: string, front: bool, back: bool, n: nat, m: nat)
    requires n == if back then SuffixLen(l, r) else 0
    requires m == if front then PrefixLen(l[..|l| - n], r[..|r| - n]) else 0
    ensures
      var d := TrimTexts(prefix, l, r, suffix, front, back);
      |d.suffix| == |suffix| + n && |d.prefix| == |prefix| + m
  {
    hide SuffixLen, PrefixLen;
  }

  // ---- texts without markers ----

  predicate Plain(s: string) {
    forall k :: 0 <= k < |s| ==> !IsOpener(s[k])
  }

  lemma PlainSegments(s: string)
    requires Plain(s)
    ensures SegmentsOf(s) == if s == "" then [] else [Segment(TEXT, s)]
  {
    SegmentsEnd(s);
    if s != "" {
      PlainFirst(s, 0, |s|);
      assert s[0..|s|] == s;
    }
    hide SegmentsFrom, IsOpener;
  }

  /**
   Two texts without markers: if the first starts the second, it is all prefix; otherwise the suffix is their
   longest shared one, and the prefix the longest shared one of the rest.
   */
  lemma PlainDiff(left: string, right: string)
    requires Plain(left) && Plain(right)
    ensures left <= right ==> Diff(left, right) == DiffSplit(left, "", "", right[|left|..])
    ensures
      var d := Diff(left, right);
      !(left <= right) ==>
        && LongestSuffix(left, right, |d.suffix|) && |d.suffix| <= |left| && |d.suffix| <= |right|
        && LongestPrefix(left[..|left| - |d.suffix|], right[..|right| - |d.suffix|], |d.prefix|)
        && Lossless(left, right, d)
  {
    hide SegmentsOf, IsOpener;
    PlainSegments(left);
    PlainSegments(right);
    if left == "" {
      assert right[0..] == right;
    } else if right == "" {
      NothingShared(left);
    } else {
      OneSegment(left, right);
    }
  }

  lemma NothingShared(s: string)
    ensures LongestSuffix(s, "", 0) && LongestPrefix(s, "", 0)
    ensures s[..|s| - 0] == s && ""[..0] == "" && Lossless(s, "", DiffSplit("", "", s, ""))
  {
    assert "" + s + "" == s && "" + "" + "" == "";
  }

  lemma OneSegment(left: string, right: string)
    requires left != "" && right != ""
    requires SegmentsOf(left) == [Segment(TEXT, left)] && SegmentsOf(right) == [Segment(TEXT, right)]
    ensures left <= right ==> Diff(left, right) == DiffSplit(left, "", "", right[|left|..])
    ensures
      var d := Diff(left, right);
      !(left <= right) ==>
        && LongestSuffix(left, right, |d.suffix|) && |d.suffix| <= |left| && |d.suffix| <= |right|
        && LongestPrefix(left[..|left| - |d.suffix|], right[..|right| - |d.suffix|], |d.prefix|)
        && Lossless(left, right, d)
  {
    hide SegmentsOf, TrimTexts, LongestSuffix, LongestPrefix;
    var L, R := SegmentsOf(left), SegmentsOf(right);
    var e := Whole(L, R);
    BetweenOne(L, 0);
    BetweenOne(R, 0);
    assert Narrow(L, R, e) == e && EndingOf(L, R, e) == Open;
    var d := TrimTexts("", left, right, "", true, true);
    assert Trim(L, R, e) == d;
    TextsPlaced("", left, right, "", true, true);
    Bare(left);
    Bare(right);
    if left <= right {
      Starts(left, right, d);
    }
  }

  lemma Bare(s: string)
    ensures "" + s + "" == s
  {
  }

  /** If the first text starts the second, nothing of it remains. */
  lemma Starts(left: string, right: string, d: DiffSplit)
    requires left <= right && Placed(d, "", left, right, "", true, true)
    ensures d.left == "" && (d.right == "" ==> left == right)
    ensures Adjust(left, right, d) == DiffSplit(left, "", "", right[|left|..])
  {
    var n, m := |d.suffix|, |d.prefix|;
    var x, y := left[..|left| - n], right[..|right| - n];
    assert x <= y by {
      assert x == left[..|x|] && y[..|x|] == right[..|x|];
    }
    assert SharedPrefix(x, y, |x|);
    Bare(left);
    Bare(right);
    assert |d.prefix| + |d.left| + |d.suffix| == |left|;
    if d.right == "" {
      assert |right| == |left|;
      assert right[|left|..] == "";
    }
  }

  // ---- inputs with markers ----

  /** The number of segments that the two inputs share at the start, and at the end. */
  predicate FrontRun(L: seq<Segment>, R: seq<Segment>, f: nat) {
    && f <= |L| && f <= |R| && (forall k :: 0 <= k < f ==> L[k] == R[k])
    && (f < |L| && f < |R| ==> L[f] != R[f])
  }

  predicate BackRun(L: seq<Segment>, R: seq<Segment>, b: nat) {
    && b <= |L| && b <= |R| && (forall k :: 0 <= k < b ==> FromEnd(L, k) == FromEnd(R, k))
    && (b < |L| && b < |R| ==> FromEnd(L, b) != FromEnd(R, b))
  }

  /** The state after i segments went to the prefix and j to the suffix. */
  function Taken(L: seq<Segment>, R: seq<Segment>, i: nat, j: nat): Ends
    requires i + j < |L| && i + j < |R|
  {
    Ends(i, |L| - 1 - j, i, |R| - 1 - j, false, false, Between(L, 0, i), Between(L, |L| - j, |L|))
  }

  lemma TakesFront(L: seq<Segment>, R: seq<Segment>, f: nat, i: nat, j: nat)
    requires FrontRun(L, R, f) && i <= f && i + j + 1 < |L| && i + j + 1 < |R|
    ensures TakeFront(L, R, Taken(L, R, i, j)) == Taken(L, R, if i < f then i + 1 else i, j)
    ensures L[i] == R[i] <==> i < f
  {
    if i < f {
      BetweenSplit(L, 0, i, i + 1);
      BetweenOne(L, i);
    }
    hide Between;
  }

  lemma TakesBack(L: seq<Segment>, R: seq<Segment>, b: nat, i: nat, j: nat)
    requires BackRun(L, R, b) && i + j < |L| && i + j < |R| && j <= b
    requires j < b ==> i + j + 1 < |L| && i + j + 1 < |R|
    ensures TakeBack(L, R, Taken(L, R, i, j)) == Taken(L, R, i, if j < b then j + 1 else j)
    ensures L[|L| - 1 - j] == R[|R| - 1 - j] <==> j < b
  {
    assert FromEnd(L, j) == FromEnd(R, j) <==> j < b;
    if j < b {
      BackText(L, j);
    }
    hide Between;
  }

  lemma BackText(L: seq<Segment>, j: nat)
    requires j < |L|
    ensures Between(L, |L| - j - 1, |L|) == L[|L| - 1 - j].value + Between(L, |L| - j, |L|)
  {
    BetweenSplit(L, |L| - 1 - j, |L| - j, |L|);
    BetweenOne(L, |L| - 1 - j);
  }

  /** If the shared runs leave a segment of each input over, they are taken in full. */
  lemma {:induction false} NarrowTakes(L: seq<Segment>, R: seq<Segment>, f: nat, b: nat, i: nat, j: nat)
    requires FrontRun(L, R, f) && BackRun(L, R, b) && f + b < |L| && f + b < |R| && i <= f && j <= b
    ensures Narrow(L, R, Taken(L, R, i, j)) == Taken(L, R, f, b)
    decreases f - i + b - j
  {
    hide Between, TakeFront, TakeBack, FrontRun, BackRun;
    var e := Taken(L, R, i, j);
    if i + j != |L| - 1 && i + j != |R| - 1 {
      var i', j' := if i < f then i + 1 else i, if j < b then j + 1 else j;
      TakesFront(L, R, f, i, j);
      TakesBack(L, R, b, i', j);
      if i' + j' > i + j {
        NarrowTakes(L, R, f, b, i', j');
      }
    }
  }

  /**
   Two inputs of which each has a segment between the shared ones: the shared segments go to the prefix and
   the suffix, and the remainders are cut like plain texts where they begin or end with text. Only if the first
   input starts the second, and nothing of it would remain, it is all prefix.
   */
  lemma MiddleDiff(left: string, right: string, f: nat, b: nat)
    requires
      var L, R := SegmentsOf(left), SegmentsOf(right);
      FrontRun(L, R, f) && BackRun(L, R, b) && f + b < |L| && f + b < |R|
    ensures
      var L, R, d := SegmentsOf(left), SegmentsOf(right), Diff(left, right);
      || (left <= right && d == DiffSplit(left, "", "", right[|left|..]))
      || ((left <= right ==> d.left != "") &&
          Placed(d, Between(L, 0, f), Between(L, f, |L| - b), Between(R, f, |R| - b),
                 Between(L, |L| - b, |L|), L[f].kind == R[f].kind == TEXT,
                 L[|L| - 1 - b].kind == R[|R| - 1 - b].kind == TEXT))
  {
    var L, R := SegmentsOf(left), SegmentsOf(right);
    hide SegmentsOf, Narrow, TrimTexts, Placed, Between;
    var e := Taken(L, R, f, b);
    NarrowTakes(L, R, f, b, 0, 0);
    StartsWhole(L, R);
    assert Narrow(L, R, Whole(L, R)) == e;
    MiddleOpen(L, R, f, b);
    var front, back := R[f].kind == TEXT && L[f].kind == TEXT, L[e.le].kind == TEXT && R[e.re].kind == TEXT;
    var l, r := Between(L, f, |L| - b), Between(R, f, |R| - b);
    var d := TrimTexts(e.prefix, l, r, e.suffix, front, back);
    assert Trim(L, R, e) == d;
    TextsPlaced(e.prefix, l, r, e.suffix, front, back);
    assert left != right;
    MiddleTexts(left, right, e, d);
  }

  lemma StartsWhole(L: seq<Segment>, R: seq<Segment>)
    requires L != [] && R != []
    ensures Taken(L, R, 0, 0) == Whole(L, R)
  {
  }

  lemma MiddleOpen(L: seq<Segment>, R: seq<Segment>, f: nat, b: nat)
    requires FrontRun(L, R, f) && BackRun(L, R, b) && f + b < |L| && f + b < |R|
    ensures EndingOf(L, R, Taken(L, R, f, b)) == Open
  {
    hide Between;
  }

  /** Inputs that differ are not both empty after trimming, so at most the second correction applies. */
  lemma MiddleTexts(left: string, right: string, e: Ends, d: DiffSplit)
    requires SegmentsOf(left) != [] && SegmentsOf(right) != [] && left != right
    requires Narrowed(left, right) == e && d == Trim(SegmentsOf(left), SegmentsOf(right), e)
    ensures
      Adjust(left, right, d)
      == if left <= right && d.left == "" then DiffSplit(left, "", "", right[|left|..]) else d
  {
    hide SegmentsOf, Narrow, Trim, LeftText, RightText;
    NarrowedTexts(left, right);
    TrimKeeps(SegmentsOf(left), SegmentsOf(right), e);
  }

  // ---- when the shared runs use up the shorter input ----

  function Shorter(L: seq<Segment>, R: seq<Segment>): nat {
    if |L| < |R| then |L| else |R|
  }

  /**
   Of k segments that all fit, how many go to the prefix: half of them, rounded down, unless fewer fit at the
   start or more must go there because they do not fit at the end.
   */
  function FrontShare(f: nat, b: nat, k: nat): (i: nat)
    requires f + b >= k
    ensures i <= f && i <= k && (b <= k ==> k - i <= b)
  {
    var half := if f < k / 2 then f else k / 2;
    if half + b < k then k - b else half
  }

  /** The narrowing takes one segment at each end in turn. */
  predicate InTurn(f: nat, b: nat, i: nat, j: nat) {
    i <= f && j <= b && (i == j || (i == f && f < j) || (j == b && b < i))
  }

  /** Both runs reach the middle of an even number of segments, and the last round takes two. */
  predicate Meets(f: nat, b: nat, k: nat) {
    k % 2 == 0 && f >= k / 2 && b >= k / 2
  }

  /** What the narrowing leaves of k segments that all fit: one, or none. */
  function Stop(L: seq<Segment>, R: seq<Segment>, f: nat, b: nat): Ends
    requires L != [] && R != [] && |L| != |R| && f + b >= Shorter(L, R)
  {
    var k := Shorter(L, R);
    if Meets(f, b, k) then
      Taken(L, R, k / 2, k / 2 - 1).(le := if |R| == k then |L| - 1 - k / 2 else k / 2,
                                     re := if |R| == k then k / 2 else |R| - 1 - k / 2,
                                     lUsed := |L| == k, rUsed := |R| == k,
                                     suffix := Between(L, |L| - k / 2, |L|))
    else
      var i := LastFront(f, b, k);
      Taken(L, R, i, k - 1 - i)
  }

  function LastFront(f: nat, b: nat, k: nat): (i: nat)
    requires 0 < k <= f + b
    ensures i < k
  {
    var half := if f < (k - 1) / 2 then f else (k - 1) / 2;
    if half + b < k - 1 then k - 1 - b else half
  }

  lemma LastTurn(f: nat, b: nat, k: nat, i: nat, j: nat)
    requires 0 < k <= f + b && InTurn(f, b, i, j) && i + j == k - 1 && !Meets(f, b, k)
    ensures i == LastFront(f, b, k)
  {
  }

  lemma MeetingRound(L: seq<Segment>, R: seq<Segment>, f: nat, b: nat, h: nat)
    requires FrontRun(L, R, f) && BackRun(L, R, b) && |L| != |R| && Shorter(L, R) == 2 * h && 0 < h <= f && h <= b
    ensures
      var e := Taken(L, R, h - 1, h - 1);
      && Wide(e) && Advances(L, R, e) && TakeBack(L, R, TakeFront(L, R, e)) == Stop(L, R, f, b)
      && !Wide(Stop(L, R, f, b)) && InRange(L, R, Stop(L, R, f, b))
  {
    hide Between, Stop;
    TakesFront(L, R, f, h - 1, h - 1);
    LastRound(L, R, h);
    assert FromEnd(L, h - 1) == FromEnd(R, h - 1);
    assert Meets(f, b, 2 * h);
    if |R| < |L| {
      var g := MetRightStop(L, R, f, b);
    } else {
      var g := MetLeftStop(L, R, f, b);
    }
    hide TakeFront, TakeBack;
  }

  lemma LastRound(L: seq<Segment>, R: seq<Segment>, h: nat)
    requires |L| != |R| && Shorter(L, R) == 2 * h && h > 0
    ensures
      var r := TakeBack(L, R, Taken(L, R, h, h - 1));
      FromEnd(L, h - 1) == FromEnd(R, h - 1) ==>
        r == if |R| < |L|
             then Ends(h, |L| - 1 - h, h, h, false, true, Between(L, 0, h), Between(L, |L| - h, |L|))
             else Ends(h, h, h, |R| - 1 - h, true, false, Between(L, 0, h), Between(L, h, |L|))
  {
    BackText(L, h - 1);
    hide Between;
  }

  lemma {:induction false} NarrowInTurn(L: seq<Segment>, R: seq<Segment>, f: nat, b: nat, i: nat, j: nat)
    requires FrontRun(L, R, f) && BackRun(L, R, b) && |L| != |R| && L != [] && R != []
    requires f + b >= Shorter(L, R) > i + j && InTurn(f, b, i, j)
    ensures Narrow(L, R, Taken(L, R, i, j)) == Stop(L, R, f, b)
    decreases Shorter(L, R) - i - j
  {
    hide Between, TakeFront, TakeBack, FrontRun, BackRun;
    var k, e := Shorter(L, R), Taken(L, R, i, j);
    if i + j == k - 1 {
      assert !Wide(e);
      LastTurn(f, b, k, i, j);
    } else if i + j == k - 2 && i < f && j < b {
      hide Taken;
      MeetingRound(L, R, f, b, i + 1);
    } else {
      var i', j' := if i < f then i + 1 else i, if j < b then j + 1 else j;
      TakesFront(L, R, f, i, j);
      TakesBack(L, R, b, i', j);
      NarrowInTurn(L, R, f, b, i', j');
    }
  }

  lemma LastFits(f: nat, b: nat, k: nat)
    requires 0 < k <= f + b && !Meets(f, b, k) && f <= k && b <= k
    ensures
      var i := LastFront(f, b, k);
      && i <= f && k - 1 - i <= b
      && FrontShare(f, b, k) == if k - 1 - i < b then i else i + 1
  {
  }

  /** The segments of a range and those on both sides of it, after i at the start and j at the end. */
  lemma LastOne(L: seq<Segment>, R: seq<Segment>, f: nat, b: nat, i: nat, j: nat)
    requires FrontRun(L, R, f) && BackRun(L, R, b) && i <= f && j <= b && i + j < |L| && i + j < |R| && f + b > i + j
    ensures L[|L| - 1 - j] == R[|R| - 1 - j] <==> j < b
    ensures j == b ==> L[i] == R[i] && Between(L, 0, i + 1) == Between(L, 0, i) + L[i].value
    ensures j < b ==> Between(L, |L| - j - 1, |L|) == L[|L| - 1 - j].value + Between(L, |L| - j, |L|)
  {
    assert FromEnd(L, j) == FromEnd(R, j) <==> j < b;
    if j < b {
      BackText(L, j);
    } else {
      BetweenSplit(L, 0, i, i + 1);
      BetweenOne(L, i);
    }
    hide Between;
  }

  /** After settling, all of the second input's segments are taken, this many of them at the start. */
  lemma SettledRight(L: seq<Segment>, R: seq<Segment>, f: nat, b: nat)
    requires FrontRun(L, R, f) && BackRun(L, R, b) && 0 < |R| < |L| && f + b >= |R|
    requires InRange(L, R, Stop(L, R, f, b)) && !Rematches(L, R, Stop(L, R, f, b))
    ensures
      var s, i := Settle(L, R, Stop(L, R, f, b)), FrontShare(f, b, |R|);
      && s.prefix == Between(L, 0, i) && s.suffix == Between(L, |L| - (|R| - i), |L|)
      && LeftRest(L, s) == Between(L, i, |L| - (|R| - i)) && RightRest(R, s) == ""
  {
    hide *;
    var k := |R|;
    RunsFit(L, R, f, b);
    if Meets(f, b, k) {
      var h := MetRightStop(L, R, f, b);
      MetRight(L, R, Stop(L, R, f, b), h);
    } else {
      var i := LastFront(f, b, k);
      StopsAt(L, R, f, b);
      LastFits(f, b, k);
      LastOne(L, R, f, b, i, k - 1 - i);
      SettledOneRight(L, R, i, k - 1 - i, k - 1 - i < b);
    }
  }

  lemma RunsFit(L: seq<Segment>, R: seq<Segment>, f: nat, b: nat)
    requires FrontRun(L, R, f) && BackRun(L, R, b)
    ensures f <= |L| && f <= |R| && b <= |L| && b <= |R|
    ensures Shorter(L, R) == if |L| < |R| then |L| else |R|
  {
  }

  lemma StopsAt(L: seq<Segment>, R: seq<Segment>, f: nat, b: nat)
    requires L != [] && R != [] && |L| != |R| && f + b >= Shorter(L, R) && !Meets(f, b, Shorter(L, R))
    ensures
      var k := Shorter(L, R);
      var i := LastFront(f, b, k);
      i + (k - 1 - i) < |L| && i + (k - 1 - i) < |R| && Stop(L, R, f, b) == Taken(L, R, i, k - 1 - i)
  {
    hide LastFront, Taken;
  }

  lemma NoneBetween(segs: seq<Segment>, i: nat)
    requires i <= |segs|
    ensures Between(segs, i, i) == ""
  {
  }

  lemma MetRight(L: seq<Segment>, R: seq<Segment>, e: Ends, h: nat)
    requires 2 * h == |R| < |L| && h > 0
    requires e == Ends(h, |L| - 1 - h, h, h, false, true, Between(L, 0, h), Between(L, |L| - h, |L|))
    requires InRange(L, R, e) && !Rematches(L, R, e)
    ensures Settle(L, R, e) == e && LeftRest(L, e) == Between(L, h, |L| - h) && RightRest(R, e) == ""
  {
    NoneBetween(R, h);
    UsedIsOpen(L, R, e);
    hide Between, Settle, Rematches;
  }

  /** Where a segment is used already and is not matched again, nothing is settled. */
  lemma UsedIsOpen(L: seq<Segment>, R: seq<Segment>, e: Ends)
    requires InRange(L, R, e) && !Rematches(L, R, e)
    requires (e.rUsed && e.rs == e.re) || (e.lUsed && e.ls == e.le)
    ensures Settle(L, R, e) == e
  {
  }

  lemma MetRightStop(L: seq<Segment>, R: seq<Segment>, f: nat, b: nat) returns (h: nat)
    requires 0 < |R| < |L| && f + b >= |R| && Meets(f, b, |R|)
    ensures 2 * h == |R| && h > 0 && FrontShare(f, b, |R|) == h
    ensures
      Stop(L, R, f, b) == Ends(h, |L| - 1 - h, h, h, false, true, Between(L, 0, h), Between(L, |L| - h, |L|))
  {
    h := |R| / 2;
    hide Between;
  }

  lemma SettledOneRight(L: seq<Segment>, R: seq<Segment>, i: nat, j: nat, fits: bool)
    requires i + j + 1 == |R| < |L| && (L[|L| - 1 - j] == R[|R| - 1 - j] <==> fits)
    requires !fits ==> L[i] == R[i] && Between(L, 0, i + 1) == Between(L, 0, i) + L[i].value
    requires fits ==> Between(L, |L| - j - 1, |L|) == L[|L| - 1 - j].value + Between(L, |L| - j, |L|)
    ensures
      var s, m := Settle(L, R, Taken(L, R, i, j)), if fits then i else i + 1;
      && s.prefix == Between(L, 0, m) && s.suffix == Between(L, |L| - (|R| - m), |L|)
      && LeftRest(L, s) == Between(L, m, |L| - (|R| - m)) && RightRest(R, s) == ""
  {
    NoneBetween(R, i);
    hide Between;
    assert EndingOf(L, R, Taken(L, R, i, j)) == if fits then SingleRightBack else SingleRightFront;
  }

  lemma SettledLeft(L: seq<Segment>, R: seq<Segment>, f: nat, b: nat)
    requires FrontRun(L, R, f) && BackRun(L, R, b) && 0 < |L| < |R| && f + b >= |L|
    requires InRange(L, R, Stop(L, R, f, b)) && !Rematches(L, R, Stop(L, R, f, b))
    ensures
      var s, i := Settle(L, R, Stop(L, R, f, b)), FrontShare(f, b, |L|);
      && s.prefix == Between(L, 0, i) && s.suffix == Between(L, i, |L|)
      && LeftRest(L, s) == "" && RightRest(R, s) == Between(R, i, |R| - (|L| - i))
  {
    hide *;
    var k := |L|;
    RunsFit(L, R, f, b);
    if Meets(f, b, k) {
      var h := MetLeftStop(L, R, f, b);
      MetLeft(L, R, Stop(L, R, f, b), h);
    } else {
      var i := LastFront(f, b, k);
      StopsAt(L, R, f, b);
      LastFits(f, b, k);
      LastOne(L, R, f, b, i, k - 1 - i);
      SettledOneLeft(L, R, i, k - 1 - i, k - 1 - i < b);
    }
  }

  lemma MetLeft(L: seq<Segment>, R: seq<Segment>, e: Ends, h: nat)
    requires 2 * h == |L| < |R| && h > 0
    requires e == Ends(h, h, h, |R| - 1 - h, true, false, Between(L, 0, h), Between(L, h, |L|))
    requires InRange(L, R, e) && !Rematches(L, R, e)
    ensures Settle(L, R, e) == e && LeftRest(L, e) == "" && RightRest(R, e) == Between(R, h, |R| - h)
  {
    NoneBetween(L, h);
    UsedIsOpen(L, R, e);
    hide Between, Settle, Rematches;
  }

  lemma MetLeftStop(L: seq<Segment>, R: seq<Segment>, f: nat, b: nat) returns (h: nat)
    requires 0 < |L| < |R| && f + b >= |L| && Meets(f, b, |L|)
    ensures 2 * h == |L| && h > 0 && FrontShare(f, b, |L|) == h
    ensures Stop(L, R, f, b) == Ends(h, h, h, |R| - 1 - h, true, false, Between(L, 0, h), Between(L, h, |L|))
  {
    h := |L| / 2;
    hide Between;
  }

  lemma SettledOneLeft(L: seq<Segment>, R: seq<Segment>, i: nat, j: nat, fits: bool)
    requires i + j + 1 == |L| < |R| && (L[|L| - 1 - j] == R[|R| - 1 - j] <==> fits)
    requires !fits ==> L[i] == R[i] && Between(L, 0, i + 1) == Between(L, 0, i) + L[i].value
    requires fits ==> Between(L, |L| - j - 1, |L|) == L[|L| - 1 - j].value + Between(L, |L| - j, |L|)
    ensures
      var s, m := Settle(L, R, Taken(L, R, i, j)), if fits then i else i + 1;
      && s.prefix == Between(L, 0, m) && s.suffix == Between(L, m, |L|)
      && LeftRest(L, s) == "" && RightRest(R, s) == Between(R, m, |R| - (|L| - m))
  {
    NoneBetween(L, i);
    hide Between;
    assert EndingOf(L, R, Taken(L, R, i, j)) == if fits then SingleLeftBack else SingleLeftFront;
  }

  lemma NothingLeft(prefix: string, l: string, suffix: string, front: bool, back: bool)
    ensures TrimTexts(prefix, l, "", suffix, front, back) == DiffSplit(prefix, suffix, l, "")
    ensures TrimTexts(prefix, "", l, suffix, front, back) == DiffSplit(prefix, suffix, "", l)
  {
    assert l[0..|l|] == l && l[|l|..] == "";
    assert prefix + "" == prefix && "" + suffix == suffix;
  }

  lemma StopsThere(L: seq<Segment>, R: seq<Segment>, f: nat, b: nat)
    requires FrontRun(L, R, f) && BackRun(L, R, b) && |L| != |R| && L != [] && R != [] && f + b >= Shorter(L, R)
    ensures Narrow(L, R, Whole(L, R)) == Stop(L, R, f, b) && InRange(L, R, Stop(L, R, f, b))
  {
    StartsWhole(L, R);
    NarrowInTurn(L, R, f, b, 0, 0);
    hide Narrow, Between, FrontRun, BackRun;
  }

  lemma DiffIs(left: string, right: string, e: Ends)
    requires SegmentsOf(left) != [] && SegmentsOf(right) != [] && e == Narrowed(left, right)
    ensures
      var L, R := SegmentsOf(left), SegmentsOf(right);
      Diff(left, right) == Adjust(left, right, Trim(L, R, Settle(L, R, e)))
  {
    hide SegmentsOf, Narrow, Trim, Settle, Adjust;
  }

  /** Of unequal numbers of segments, only the first input's may be matched again without harm. */
  lemma NoRematch(left: string, right: string)
    requires SegmentsOf(left) != [] && SegmentsOf(right) != [] && Lossless(left, right, Diff(left, right))
    ensures
      var L, R, e := SegmentsOf(left), SegmentsOf(right), Narrowed(left, right);
      Rematches(L, R, e) ==> (e.ls == e.le && left <= right && EndingOf(L, R, e) != BothSame) || (e.lUsed && e.rUsed)
  {
    DiffLossless(left, right);
    hide SegmentsOf, Narrow, Diff;
  }

  lemma StopUses(L: seq<Segment>, R: seq<Segment>, f: nat, b: nat)
    requires L != [] && R != [] && |L| != |R| && f + b >= Shorter(L, R)
    ensures var e := Stop(L, R, f, b); !(e.lUsed && e.rUsed) && (|R| < |L| ==> e.rs == e.re && !e.lUsed)
  {
    hide Between;
  }

  /**
   The second input has fewer segments and all of them fit: they go to the prefix and the suffix in turn, and
   what is between them in the first input is the difference, if nothing is lost.
   */
  lemma OverlapRight(left: string, right: string, f: nat, b: nat)
    requires
      var L, R := SegmentsOf(left), SegmentsOf(right);
      FrontRun(L, R, f) && BackRun(L, R, b) && 0 < |R| < |L| && f + b >= |R|
    requires Lossless(left, right, Diff(left, right))
    ensures
      var L, R := SegmentsOf(left), SegmentsOf(right);
      var i := FrontShare(f, b, |R|);
      Diff(left, right)
      == DiffSplit(Between(L, 0, i), Between(L, |L| - (|R| - i), |L|), Between(L, i, |L| - (|R| - i)), "")
  {
    var L, R := SegmentsOf(left), SegmentsOf(right);
    hide SegmentsOf, Narrow, TrimTexts, Between, Diff, FrontRun, BackRun, Settle, Stop;
    StopsThere(L, R, f, b);
    var e, i := Stop(L, R, f, b), FrontShare(f, b, |R|);
    NoRematch(left, right);
    StopUses(L, R, f, b);
    assert !Rematches(L, R, e);
    hide EndingOf, Rematches;
    SettledRight(L, R, f, b);
    var s := Settle(L, R, e);
    NothingLeft(s.prefix, LeftRest(L, s), s.suffix,
                R[s.rs].kind == TEXT && L[s.ls].kind == TEXT, L[s.le].kind == TEXT && R[s.re].kind == TEXT);
    SegmentsNonEmpty(left);
    RestNotEmpty(L, i, |L| - (|R| - i));
    DiffIs(left, right, e);
  }

  lemma AdjustStart(left: string, right: string, d: DiffSplit)
    requires left <= right && d.left == "" && Lossless(left, right, Adjust(left, right, d)) && left != right
    ensures Adjust(left, right, d) == DiffSplit(left, "", "", right[|left|..])
  {
    assert left + "" + "" == left;
  }

  lemma LeftGone(L: seq<Segment>, R: seq<Segment>, f: nat, b: nat)
    requires FrontRun(L, R, f) && BackRun(L, R, b) && 0 < |L| < |R| && f + b >= |L|
    requires InRange(L, R, Stop(L, R, f, b))
    ensures LeftRest(L, Settle(L, R, Stop(L, R, f, b))) == ""
    ensures var e := Stop(L, R, f, b); e.ls == e.le && !e.rUsed
  {
    RunsFit(L, R, f, b);
    if Meets(f, b, |L|) {
      var h := MetLeftStop(L, R, f, b);
      NoneBetween(L, h);
    } else {
      var i := LastFront(f, b, |L|);
      StopsAt(L, R, f, b);
      LastFits(f, b, |L|);
      LastOne(L, R, f, b, i, |L| - 1 - i);
      NoneBetween(L, i);
    }
    hide Between, Stop, FrontRun, BackRun;
  }

  /** The first input has fewer segments and all of them fit. If it starts the second, it is all prefix. */
  lemma OverlapLeft(left: string, right: string, f: nat, b: nat)
    requires
      var L, R := SegmentsOf(left), SegmentsOf(right);
      FrontRun(L, R, f) && BackRun(L, R, b) && 0 < |L| < |R| && f + b >= |L|
    requires Lossless(left, right, Diff(left, right))
    ensures
      var L, R := SegmentsOf(left), SegmentsOf(right);
      var i := FrontShare(f, b, |L|);
      Diff(left, right)
      == if left <= right then DiffSplit(left, "", "", right[|left|..])
         else DiffSplit(Between(L, 0, i), Between(L, i, |L|), "", Between(R, i, |R| - (|L| - i)))
  {
    var L, R := SegmentsOf(left), SegmentsOf(right);
    hide SegmentsOf, Narrow, Trim, Between, Diff, FrontRun, BackRun, Settle, Stop, Adjust, LeftText, RightText;
    StopsThere(L, R, f, b);
    var e, i := Stop(L, R, f, b), FrontShare(f, b, |L|);
    LeftGone(L, R, f, b);
    NoRematch(left, right);
    hide EndingOf, Rematches;
    var s := Settle(L, R, e);
    TrimKeeps(L, R, s);
    DiffIs(left, right, e);
    if left <= right {
      assert left != right;
      AdjustStart(left, right, Trim(L, R, s));
    } else {
      SettledLeft(L, R, f, b);
      TrimmedLeft(L, R, s);
      SegmentsNonEmpty(right);
      RestNotEmpty(R, i, |R| - (|L| - i));
      NotAdjusted(left, right, Trim(L, R, s));
    }
  }

  lemma NotAdjusted(left: string, right: string, d: DiffSplit)
    requires !(left <= right) && (d.left != "" || d.right != "")
    ensures Adjust(left, right, d) == d
  {
  }

  lemma TrimmedLeft(L: seq<Segment>, R: seq<Segment>, s: Ends)
    requires s.ls <= s.le < |L| && s.rs <= s.re < |R| && LeftRest(L, s) == ""
    ensures Trim(L, R, s) == DiffSplit(s.prefix, s.suffix, "", RightRest(R, s))
  {
    hide TrimTexts, LeftRest, RightRest;
    NothingLeft(s.prefix, RightRest(R, s), s.suffix,
                R[s.rs].kind == TEXT && L[s.ls].kind == TEXT, L[s.le].kind == TEXT && R[s.re].kind == TEXT);
  }

  // ---- equal inputs ----

  predicate Level(e: Ends) {
    e.ls == e.rs && e.le == e.re && e.lUsed == e.rUsed
  }

  lemma {:induction false} NarrowLevel(L: seq<Segment>, e: Ends)
    requires InRange(L, L, e) && Level(e)
    ensures Level(Narrow(L, L, e))
    decreases e.le - e.ls
  {
    if Wide(e) && Advances(L, L, e) {
      NarrowLevel(L, TakeBack(L, L, TakeFront(L, L, e)));
    }
  }

  lemma SameLossless(s: string)
    ensures Lossless(s, s, Diff(s, s))
  {
    var L := SegmentsOf(s);
    DiffLossless(s, s);
    hide SegmentsOf, Narrow, Diff;
    if L != [] {
      NarrowLevel(L, Whole(L, L));
    }
  }

  lemma SameParts(s: string, d: DiffSplit)
    requires Lossless(s, s, d)
    ensures d.left == d.right
  {
    var n, m := |d.prefix|, |d.suffix|;
    assert (d.prefix + d.left + d.suffix)[n..|s| - m] == d.left;
    assert (d.prefix + d.right + d.suffix)[n..|s| - m] == d.right;
  }

  /** Equal inputs do not differ, and all of them is prefix. */
  lemma SameInputs(s: string)
    ensures Diff(s, s) == DiffSplit(s, "", "", "")
  {
    var L, d := SegmentsOf(s), Diff(s, s);
    SameLossless(s);
    SameParts(s, d);
    DiffTight(s, s);
    SegmentsNonEmpty(s);
    hide SegmentsOf, Narrow, Trim, Settle;
    if L != [] {
      NarrowLevel(L, Whole(L, L));
      DiffIs(s, s, Narrowed(s, s));
      assert s[|s|..] == "";
    }
  }
}
