/**
 Splitting a tokenised prompt into message spans at delimiter tokens, past regions that must be skipped.
 Models common_chat_msg_delimiters::split of common/chat.cpp and common_chat_msg_spans of common/chat.h.
 */
module MessageSpans {
  import opened Common

  datatype Role = Unknown | System | Assistant | User | Tool

  datatype Span = Span(role: Role, pos: nat, len: nat)

  datatype Delimiter = Delimiter(role: Role, tokens: seq<int>)

  /** A region of tokens that holds no delimiters; the original keeps them ordered by start. */
  datatype Skip = Skip(start: nat, len: nat)

  datatype Match = Match(role: Role, pos: nat)

  // ---- matching a delimiter ----

  predicate MatchesAt(d: Delimiter, tokens: seq<int>, i: nat) {
    i + |d.tokens| <= |tokens| && tokens[i..i + |d.tokens|] == d.tokens
  }

  /** The role of the first delimiter that matches at position i. */
  function RoleAt(delimiters: seq<Delimiter>, tokens: seq<int>, i: nat): (r: Option<Role>)
    ensures r == None <==> forall k :: 0 <= k < |delimiters| ==> !MatchesAt(delimiters[k], tokens, i)
    ensures
      r.Some? ==>
        exists k :: 0 <= k < |delimiters| && MatchesAt(delimiters[k], tokens, i) && delimiters[k].role == r.value
                    && forall m :: 0 <= m < k ==> !MatchesAt(delimiters[m], tokens, i)
    decreases |delimiters|
  {
    if delimiters == [] then None
    else if MatchesAt(delimiters[0], tokens, i) then Some(delimiters[0].role)
    else
      var rest := RoleAt(delimiters[1..], tokens, i);
      assert forall k :: 0 <= k < |delimiters| - 1 ==> delimiters[1..][k] == delimiters[k + 1];
      assert rest.Some? ==> forall k :: 0 <= k < |delimiters| - 1 && MatchesAt(delimiters[1..][k], tokens, i)
                                        ==> MatchesAt(delimiters[k + 1], tokens, i);
      RoleShift(delimiters, tokens, i, rest);
      rest
  }

  lemma RoleShift(delimiters: seq<Delimiter>, tokens: seq<int>, i: nat, rest: Option<Role>)
    requires delimiters != [] && !MatchesAt(delimiters[0], tokens, i)
    requires rest == None <==> forall k :: 0 <= k < |delimiters[1..]| ==> !MatchesAt(delimiters[1..][k], tokens, i)
    requires
      rest.Some? ==>
        exists k :: 0 <= k < |delimiters[1..]| && MatchesAt(delimiters[1..][k], tokens, i)
                    && delimiters[1..][k].role == rest.value
                    && forall m :: 0 <= m < k ==> !MatchesAt(delimiters[1..][m], tokens, i)
    ensures rest == None <==> forall k :: 0 <= k < |delimiters| ==> !MatchesAt(delimiters[k], tokens, i)
    ensures
      rest.Some? ==>
        exists k :: 0 <= k < |delimiters| && MatchesAt(delimiters[k], tokens, i) && delimiters[k].role == rest.value
                    && forall m :: 0 <= m < k ==> !MatchesAt(delimiters[m], tokens, i)
  {
    hide MatchesAt;
    var tail := delimiters[1..];
    if rest.Some? {
      var k :| 0 <= k < |tail| && MatchesAt(tail[k], tokens, i) && tail[k].role == rest.value
               && forall m :: 0 <= m < k ==> !MatchesAt(tail[m], tokens, i);
      assert delimiters[k + 1] == tail[k];
      forall m | 0 <= m < k + 1
        ensures !MatchesAt(delimiters[m], tokens, i)
      {
        if m > 0 {
          assert tail[m - 1] == delimiters[m];
        }
      }
    } else {
      forall k | 0 <= k < |delimiters|
        ensures !MatchesAt(delimiters[k], tokens, i)
      {
        if k > 0 {
          assert tail[k - 1] == delimiters[k];
        }
      }
    }
  }

  // ---- the scan ----

  /** The matches from position i on, with the skips not yet reached. */
  function Scan(delimiters: seq<Delimiter>, tokens: seq<int>, skips: seq<Skip>, i: nat): seq<Match>
    decreases |tokens| - i, |skips|
  {
    if i >= |tokens| then []
    else if skips != [] && i == skips[0].start then Scan(delimiters, tokens, skips[1..], i + skips[0].len)
    else
      (match RoleAt(delimiters, tokens, i) case Some(role) => [Match(role, i)] case None => [])
      + Scan(delimiters, tokens, skips, i + 1)
  }

  /** Matches at increasing positions, from lo up to but not including hi. */
  predicate InOrder(matches: seq<Match>, lo: nat, hi: nat) {
    && (forall k :: 0 <= k < |matches| ==> lo <= matches[k].pos < hi)
    && (forall k, m :: 0 <= k < m < |matches| ==> matches[k].pos < matches[m].pos)
  }

  lemma InOrderMore(role: Role, matches: seq<Match>, lo: nat, hi: nat)
    requires lo < hi && InOrder(matches, lo + 1, hi)
    ensures InOrder([Match(role, lo)] + matches, lo, hi)
  {
  }

  /** Each match reaches to the next one, the last to the end. */
  function SpansOf(matches: seq<Match>, end: nat): (r: seq<Span>)
    requires InOrder(matches, 0, end)
    ensures |r| == |matches|
  {
    seq(|matches|, k requires 0 <= k < |matches| =>
      Span(matches[k].role, matches[k].pos, (if k + 1 < |matches| then matches[k + 1].pos else end) - matches[k].pos))
  }

  lemma NothingInOrder(lo: nat, hi: nat)
    ensures InOrder([], lo, hi)
  {
  }

  lemma InOrderWider(matches: seq<Match>, lo: nat, from: nat, hi: nat)
    requires lo <= from && InOrder(matches, from, hi)
    ensures InOrder(matches, lo, hi)
  {
  }

  lemma ScanSkip(delimiters: seq<Delimiter>, tokens: seq<int>, skips: seq<Skip>, i: nat)
    requires skips != [] && i < |tokens| && i == skips[0].start
    ensures Scan(delimiters, tokens, skips, i) == Scan(delimiters, tokens, skips[1..], i + skips[0].len)
  {
  }

  lemma ScanToken(delimiters: seq<Delimiter>, tokens: seq<int>, skips: seq<Skip>, i: nat)
    requires i < |tokens| && !(skips != [] && i == skips[0].start)
    ensures
      Scan(delimiters, tokens, skips, i)
      == (match RoleAt(delimiters, tokens, i) case Some(role) => [Match(role, i)] case None => [])
         + Scan(delimiters, tokens, skips, i + 1)
  {
    hide RoleAt;
  }

  lemma ScanEnd(delimiters: seq<Delimiter>, tokens: seq<int>, skips: seq<Skip>, i: nat)
    requires i >= |tokens|
    ensures Scan(delimiters, tokens, skips, i) == []
  {
  }

  lemma {:induction false} ScanOrdered(delimiters: seq<Delimiter>, tokens: seq<int>, skips: seq<Skip>, i: nat)
    ensures InOrder(Scan(delimiters, tokens, skips, i), i, |tokens|)
    decreases |tokens| - i, |skips|
  {
    hide RoleAt, InOrder, Scan;
    if i >= |tokens| {
      ScanEnd(delimiters, tokens, skips, i);
      NothingInOrder(i, |tokens|);
    } else if skips != [] && i == skips[0].start {
      var next := i + skips[0].len;
      ScanSkip(delimiters, tokens, skips, i);
      ScanOrdered(delimiters, tokens, skips[1..], next);
      InOrderWider(Scan(delimiters, tokens, skips[1..], next), i, next, |tokens|);
    } else {
      var rest := Scan(delimiters, tokens, skips, i + 1);
      ScanToken(delimiters, tokens, skips, i);
      ScanOrdered(delimiters, tokens, skips, i + 1);
      InOrderWider(rest, i, i + 1, |tokens|);
      var role := RoleAt(delimiters, tokens, i);
      if role.Some? {
        InOrderMore(role.value, rest, i, |tokens|);
      } else {
        assert [] + rest == rest;
      }
    }
  }

  lemma ScanInOrder(delimiters: seq<Delimiter>, tokens: seq<int>, skips: seq<Skip>)
    ensures InOrder(Scan(delimiters, tokens, skips, 0), 0, |tokens|)
  {
    ScanOrdered(delimiters, tokens, skips, 0);
  }

  /** The spans of a prompt. */
  function Spans(delimiters: seq<Delimiter>, tokens: seq<int>, skips: seq<Skip>): (r: seq<Span>) {
    ScanInOrder(delimiters, tokens, skips);
    SpansOf(Scan(delimiters, tokens, skips, 0), |tokens|)
  }

  /** Whatever is skipped, the spans follow each other without gap or overlap up to the last token. */
  lemma SpansTile(delimiters: seq<Delimiter>, tokens: seq<int>, skips: seq<Skip>)
    ensures
      var r := Spans(delimiters, tokens, skips);
      && (forall k :: 0 <= k < |r| ==> r[k].len > 0)
      && (forall k :: 0 <= k < |r| - 1 ==> r[k].pos + r[k].len == r[k + 1].pos)
      && (r != [] ==> Last(r).pos + Last(r).len == |tokens|)
  {
    hide RoleAt, Scan;
    ScanInOrder(delimiters, tokens, skips);
  }

  // ---- where spans start ----

  /**
   The skips that are obeyed: those up to the first one that starts before the end of its predecessor. The
   scan never comes past that one, so it and all later ones are ignored.
   */
  function Obeyed(skips: seq<Skip>, from: nat): (r: seq<Skip>)
    ensures r <= skips
    decreases |skips|
  {
    if skips == [] || skips[0].start < from then []
    else [skips[0]] + Obeyed(skips[1..], skips[0].start + skips[0].len)
  }

  predicate Covers(s: Skip, i: nat) {
    s.start <= i < s.start + s.len
  }

  predicate Outside(skips: seq<Skip>, i: nat) {
    forall k :: 0 <= k < |skips| ==> !Covers(skips[k], i)
  }

  lemma OutsideStep(skips: seq<Skip>, i: nat)
    requires skips != []
    ensures Outside(skips, i) <==> !Covers(skips[0], i) && Outside(skips[1..], i)
  {
    hide Covers;
    if !Covers(skips[0], i) && Outside(skips[1..], i) {
      forall k | 0 <= k < |skips|
        ensures !Covers(skips[k], i)
      {
        assert k > 0 ==> skips[k] == skips[1..][k - 1];
      }
    }
    if Outside(skips, i) {
      forall k | 0 <= k < |skips[1..]|
        ensures !Covers(skips[1..][k], i)
      {
        assert skips[1..][k] == skips[k + 1];
      }
    }
  }

  lemma {:induction false} ObeyedAfter(skips: seq<Skip>, from: nat, i: nat)
    requires i < from
    ensures Outside(Obeyed(skips, from), i)
    decreases |skips|
  {
    var r := Obeyed(skips, from);
    if r != [] {
      ObeyedAfter(skips[1..], skips[0].start + skips[0].len, i);
      OutsideStep(r, i);
      assert r[1..] == Obeyed(skips[1..], skips[0].start + skips[0].len);
    }
  }

  lemma NotBefore(matches: seq<Match>, lo: nat, hi: nat, role: Role, p: nat)
    requires InOrder(matches, lo, hi) && p < lo
    ensures Match(role, p) !in matches
  {
  }

  /** From position i on, the matches are exactly those outside the obeyed skips. */
  lemma {:induction false} ScanStarts(delimiters: seq<Delimiter>, tokens: seq<int>, skips: seq<Skip>, i: nat,
                                      p: nat, role: Role)
    requires i <= p
    ensures
      Match(role, p) in Scan(delimiters, tokens, skips, i)
      <==> p < |tokens| && Outside(Obeyed(skips, i), p) && RoleAt(delimiters, tokens, p) == Some(role)
    decreases |tokens| - i, |skips|
  {
    hide RoleAt;
    if i < |tokens| {
      if skips != [] && i == skips[0].start {
        var next := i + skips[0].len;
        var r := Obeyed(skips, i);
        OutsideStep(r, p);
        assert r[1..] == Obeyed(skips[1..], next);
        if p < next {
          ScanOrdered(delimiters, tokens, skips[1..], next);
          NotBefore(Scan(delimiters, tokens, skips[1..], next), next, |tokens|, role, p);
        } else {
          ScanStarts(delimiters, tokens, skips[1..], next, p, role);
        }
      } else {
        ScanStep(delimiters, tokens, skips, i, p, role);
      }
    }
  }

  lemma ScanStep(delimiters: seq<Delimiter>, tokens: seq<int>, skips: seq<Skip>, i: nat, p: nat, role: Role)
    requires i <= p && i < |tokens| && !(skips != [] && i == skips[0].start)
    ensures
      Match(role, p) in Scan(delimiters, tokens, skips, i)
      <==> p < |tokens| && Outside(Obeyed(skips, i), p) && RoleAt(delimiters, tokens, p) == Some(role)
    decreases |tokens| - i, |skips|, 0
  {
    hide RoleAt;
    assert Obeyed(skips, i) == Obeyed(skips, i + 1);
    if p == i {
      ScanOrdered(delimiters, tokens, skips, i + 1);
      NotBefore(Scan(delimiters, tokens, skips, i + 1), i + 1, |tokens|, role, p);
      ObeyedAfter(skips, i + 1, i);
    } else {
      ScanStarts(delimiters, tokens, skips, i + 1, p, role);
    }
  }

  /** Regions in order that do not overlap. */
  predicate Disjoint(skips: seq<Skip>) {
    forall k, m :: 0 <= k < m < |skips| ==> skips[k].start + skips[k].len <= skips[m].start
  }

  predicate StartsAt(spans: seq<Span>, role: Role, p: nat) {
    exists k :: 0 <= k < |spans| && spans[k].role == role && spans[k].pos == p
  }

  /**
   For any skips: a span with a role starts exactly where an obeyed skip does not forbid it and the first
   matching delimiter has that role.
   */
  lemma SpanStarts(delimiters: seq<Delimiter>, tokens: seq<int>, skips: seq<Skip>, p: nat, role: Role)
    ensures
      StartsAt(Spans(delimiters, tokens, skips), role, p)
      <==> p < |tokens| && Outside(Obeyed(skips, 0), p) && RoleAt(delimiters, tokens, p) == Some(role)
  {
    hide RoleAt, Scan, Outside, Obeyed;
    ScanStarts(delimiters, tokens, skips, 0, p, role);
    ScanInOrder(delimiters, tokens, skips);
    var matches, spans := Scan(delimiters, tokens, skips, 0), Spans(delimiters, tokens, skips);
    if Match(role, p) in matches {
      var k :| 0 <= k < |matches| && matches[k] == Match(role, p);
      assert spans[k].role == role && spans[k].pos == p;
    }
    if StartsAt(spans, role, p) {
      var k :| 0 <= k < |spans| && spans[k].role == role && spans[k].pos == p;
      assert matches[k] == Match(role, p);
    }
  }

  lemma {:induction false} DisjointObeyed(skips: seq<Skip>, from: nat)
    requires Disjoint(skips) && (skips != [] ==> from <= skips[0].start)
    ensures Obeyed(skips, from) == skips
    decreases |skips|
  {
    if skips != [] {
      DisjointObeyed(skips[1..], skips[0].start + skips[0].len);
    }
  }

  /** With disjoint skips, spans start exactly at the delimiters outside every skip. */
  lemma DisjointStarts(delimiters: seq<Delimiter>, tokens: seq<int>, skips: seq<Skip>, p: nat, role: Role)
    requires Disjoint(skips)
    ensures
      StartsAt(Spans(delimiters, tokens, skips), role, p)
      <==> p < |tokens| && Outside(skips, p) && RoleAt(delimiters, tokens, p) == Some(role)
  {
    hide Spans, RoleAt;
    DisjointObeyed(skips, 0);
    SpanStarts(delimiters, tokens, skips, p, role);
  }

  /**
   Every skip is respected, whatever the delimiters, exactly when each position that some skip covers is
   covered by an obeyed one.
   */
  lemma SkipsRespected(tokens: seq<int>, skips: seq<Skip>)
    ensures
      (forall delimiters, p: nat, role :: StartsAt(Spans(delimiters, tokens, skips), role, p) ==> Outside(skips, p))
      <==> (forall p :: 0 <= p < |tokens| && Outside(Obeyed(skips, 0), p) ==> Outside(skips, p))
  {
    hide RoleAt, Scan, Outside, Obeyed, Spans;
    forall delimiters, p: nat, role | StartsAt(Spans(delimiters, tokens, skips), role, p)
      ensures p < |tokens| && Outside(Obeyed(skips, 0), p)
    {
      SpanStarts(delimiters, tokens, skips, p, role);
    }
    forall p | 0 <= p < |tokens| && Outside(Obeyed(skips, 0), p)
      ensures StartsAt(Spans([Delimiter(User, [])], tokens, skips), User, p)
    {
      EmptyDelimiter(tokens, p);
      SpanStarts([Delimiter(User, [])], tokens, skips, p, User);
    }
  }

  lemma EmptyDelimiter(tokens: seq<int>, p: nat)
    requires p < |tokens|
    ensures RoleAt([Delimiter(User, [])], tokens, p) == Some(User)
  {
    assert MatchesAt(Delimiter(User, []), tokens, p);
  }

  /** Overlapping regions are not all skipped: the second and third of these are ignored. */
  lemma OverlapIgnored()
    ensures
      var skips := [Skip(0, 3), Skip(1, 1), Skip(4, 1)];
      StartsAt(Spans([Delimiter(User, [7])], [7, 7, 7, 7, 7], skips), User, 4) && !Outside(skips, 4)
  {
    var skips := [Skip(0, 3), Skip(1, 1), Skip(4, 1)];
    var d := Delimiter(User, [7]);
    assert skips[1..] == [Skip(1, 1), Skip(4, 1)];
    assert Obeyed(skips[1..], 3) == [];
    assert Obeyed(skips, 0) == [Skip(0, 3)];
    assert MatchesAt(d, [7, 7, 7, 7, 7], 4);
    assert [d][0] == d;
    SpanStarts([d], [7, 7, 7, 7, 7], skips, 4, User);
    assert Covers(skips[2], 4);
  }

  // ---- the spans as an object ----

  /** The value a size_t takes when cast to a 32-bit integer. */
  function ToInt32(n: nat): (r: int)
    ensures -0x8000_0000 <= r < 0x8000_0000
    ensures n < 0x8000_0000 ==> r == n
  {
    var m := n % 0x1_0000_0000;
    if m < 0x8000_0000 then m else m - 0x1_0000_0000
  }

  /** The last user span's position, or -1. */
  function LastUser(spans: seq<Span>): int
    decreases |spans|
  {
    if spans == [] then -1
    else if spans[|spans| - 1].role == User then ToInt32(spans[|spans| - 1].pos)
    else LastUser(spans[..|spans| - 1])
  }

  class ChatSpans {
    var spans: seq<Span>

    constructor ()
      ensures spans == []
    {
      spans := [];
    }

    method Add(role: Role, pos: nat, len: nat)
      modifies this
      ensures spans == old(spans) + [Span(role, pos, len)]
    {
      spans := spans + [Span(role, pos, len)];
    }

    method IsUserStart(pos: int) returns (r: bool)
      ensures r <==> exists k :: 0 <= k < |spans| && spans[k].role == User && ToInt32(spans[k].pos) == pos
    {
      hide ToInt32;
      for k := 0 to |spans|
        invariant forall m :: 0 <= m < k ==> !(spans[m].role == User && ToInt32(spans[m].pos) == pos)
      {
        if spans[k].role == User && pos == ToInt32(spans[k].pos) {
          return true;
        }
      }
      return false;
    }

    method LastUserMessagePos() returns (r: int)
      ensures r == LastUser(spans)
    {
      hide ToInt32;
      var k := |spans|;
      assert spans[..k] == spans;
      while k > 0
        invariant k <= |spans| && LastUser(spans[..k]) == LastUser(spans)
      {
        k := k - 1;
        assert spans[..k + 1][..k] == spans[..k];
        if spans[k].role == User {
          return ToInt32(spans[k].pos);
        }
      }
      return -1;
    }
  }

  lemma RoleFrom(delimiters: seq<Delimiter>, tokens: seq<int>, i: nat, k: nat)
    requires k < |delimiters|
    ensures
      RoleAt(delimiters[k..], tokens, i)
      == if MatchesAt(delimiters[k], tokens, i) then Some(delimiters[k].role)
         else RoleAt(delimiters[k + 1..], tokens, i)
  {
    assert delimiters[k..][0] == delimiters[k] && delimiters[k..][1..] == delimiters[k + 1..];
  }

  /** The first matching delimiter's role, in the order of the list. */
  method FindRole(delimiters: seq<Delimiter>, tokens: seq<int>, i: nat) returns (r: Option<Role>)
    ensures r == RoleAt(delimiters, tokens, i)
  {
    hide RoleAt;
    assert delimiters[0..] == delimiters;
    for k := 0 to |delimiters|
      invariant RoleAt(delimiters, tokens, i) == RoleAt(delimiters[k..], tokens, i)
    {
      var d := delimiters[k];
      RoleFrom(delimiters, tokens, i, k);
      if i + |d.tokens| > |tokens| {
        continue;
      }
      if d.tokens == tokens[i..i + |d.tokens|] {
        return Some(d.role);
      }
    }
    NoRole(tokens, i);
    assert delimiters[|delimiters|..] == [];
    return None;
  }

  lemma NoRole(tokens: seq<int>, i: nat)
    ensures RoleAt([], tokens, i) == None
  {
  }

  method FindMatches(delimiters: seq<Delimiter>, tokens: seq<int>, skips: seq<Skip>) returns (matches: seq<Match>)
    ensures matches == Scan(delimiters, tokens, skips, 0)
  {
    hide RoleAt, Scan;
    matches := [];
    var i, k := 0, 0;
    assert skips[0..] == skips;
    while i < |tokens|
      invariant k <= |skips|
      invariant matches + Scan(delimiters, tokens, skips[k..], i) == Scan(delimiters, tokens, skips, 0)
      decreases |tokens| - i, |skips| - k
    {
      if k < |skips| && i == skips[k].start {
        assert skips[k..][0] == skips[k] && skips[k..][1..] == skips[k + 1..];
        ScanSkip(delimiters, tokens, skips[k..], i);
        i := i + skips[k].len;
        k := k + 1;
        continue;
      }
      assert k < |skips| ==> skips[k..][0] == skips[k];
      ScanToken(delimiters, tokens, skips[k..], i);
      var role := FindRole(delimiters, tokens, i);
      if role.Some? {
        matches := matches + [Match(role.value, i)];
      }
      i := i + 1;
    }
    ScanEnd(delimiters, tokens, skips[k..], i);
  }

  method Split(delimiters: seq<Delimiter>, tokens: seq<int>, skips: seq<Skip>) returns (r: ChatSpans)
    ensures fresh(r) && r.spans == Spans(delimiters, tokens, skips)
  {
    hide Scan;
    var found := FindMatches(delimiters, tokens, skips);
    ScanInOrder(delimiters, tokens, skips);
    ghost var spans := Spans(delimiters, tokens, skips);
    var matches := found + [Match(Unknown, |tokens|)];
    r := new ChatSpans();
    for k := 0 to |matches| - 1
      invariant r.spans == spans[..k]
      modifies r
    {
      var curr, next := matches[k], matches[k + 1];
      r.Add(curr.role, curr.pos, next.pos - curr.pos);
    }
  }

  lemma {:induction false} LastUserIs(spans: seq<Span>)
    requires forall k, m :: 0 <= k < m < |spans| ==> spans[k].pos < spans[m].pos
    requires forall k :: 0 <= k < |spans| ==> spans[k].pos < 0x8000_0000
    ensures LastUser(spans) == -1 <==> forall k :: 0 <= k < |spans| ==> spans[k].role != User
    ensures
      LastUser(spans) != -1 ==>
        && (exists k :: 0 <= k < |spans| && spans[k].role == User && spans[k].pos == LastUser(spans))
        && (forall k :: 0 <= k < |spans| && spans[k].role == User ==> spans[k].pos <= LastUser(spans))
    decreases |spans|
  {
    if spans != [] {
      var n := |spans| - 1;
      if spans[n].role != User {
        var shorter := spans[..n];
        LastUserIs(shorter);
        assert forall k :: 0 <= k < n ==> spans[k] == shorter[k];
        if LastUser(shorter) != -1 {
          var k :| 0 <= k < n && shorter[k].role == User && shorter[k].pos == LastUser(shorter);
          assert spans[k].role == User && spans[k].pos == LastUser(spans);
        }
      }
    }
  }

  lemma SpansPositions(delimiters: seq<Delimiter>, tokens: seq<int>, skips: seq<Skip>)
    ensures
      var spans := Spans(delimiters, tokens, skips);
      && (forall k :: 0 <= k < |spans| ==> spans[k].pos < |tokens|)
      && (forall k, m :: 0 <= k < m < |spans| ==> spans[k].pos < spans[m].pos)
  {
    hide RoleAt, Scan;
    ScanInOrder(delimiters, tokens, skips);
    var matches, spans := Scan(delimiters, tokens, skips, 0), Spans(delimiters, tokens, skips);
    assert forall k :: 0 <= k < |spans| ==> spans[k].pos == matches[k].pos;
  }

  lemma LastUserStarts(spans: seq<Span>, end: nat)
    requires forall k :: 0 <= k < |spans| ==> spans[k].pos < end
    requires LastUser(spans) == -1 <==> forall k :: 0 <= k < |spans| ==> spans[k].role != User
    requires
      LastUser(spans) != -1 ==>
        && (exists k :: 0 <= k < |spans| && spans[k].role == User && spans[k].pos == LastUser(spans))
        && (forall k :: 0 <= k < |spans| && spans[k].role == User ==> spans[k].pos <= LastUser(spans))
    ensures
      var last := LastUser(spans);
      && (last == -1 <==> forall p :: 0 <= p < end ==> !StartsAt(spans, User, p))
      && (last != -1 ==>
            && 0 <= last < end && StartsAt(spans, User, last)
            && forall p :: last < p < end ==> !StartsAt(spans, User, p))
  {
    hide LastUser;
    forall k | 0 <= k < |spans| && spans[k].role == User
      ensures StartsAt(spans, User, spans[k].pos)
    {
    }
  }

  /** For a prompt that 32 bits can index, the answer is the greatest start of a user message, or -1. */
  lemma LastUserStart(delimiters: seq<Delimiter>, tokens: seq<int>, skips: seq<Skip>)
    requires |tokens| <= 0x8000_0000
    ensures
      var spans := Spans(delimiters, tokens, skips);
      var last := LastUser(spans);
      && (last == -1 <==> forall p :: 0 <= p < |tokens| ==> !StartsAt(spans, User, p))
      && (last != -1 ==>
            && 0 <= last < |tokens| && StartsAt(spans, User, last)
            && forall p :: last < p < |tokens| ==> !StartsAt(spans, User, p))
  {
    hide Spans, LastUser;
    var spans := Spans(delimiters, tokens, skips);
    SpansPositions(delimiters, tokens, skips);
    LastUserIs(spans);
    LastUserStarts(spans, |tokens|);
  }
}
