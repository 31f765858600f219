/**
 Where a stop word may have begun at the end of a text that is still growing. Models
 string_find_partial_stop of common/common.h.
 */
module PartialStop {
  import opened Common

  /** The last len characters of the text are the first len of the stop word. */
  predicate Overlaps(str: string, stop: string, len: nat) {
    0 < len <= |str| && len <= |stop| && str[|str| - len..] == stop[..len]
  }

  predicate EndsWith(str: string, suffix: string) {
    |suffix| <= |str| && str[|str| - |suffix|..] == suffix
  }

  lemma LastChar(str: string, stop: string, len: nat)
    requires Overlaps(str, stop, len)
    ensures stop[len - 1] == str[|str| - 1]
  {
    assert str[|str| - len..][len - 1] == stop[..len][len - 1];
  }

  /** The start of the longest end of the text that begins the stop word, if there is one. */
  ghost predicate LongestAt(str: string, stop: string, pos: Option<nat>) {
    match pos
    case None => forall n: nat :: !Overlaps(str, stop, n)
    case Some(p) =>
      p < |str| && Overlaps(str, stop, |str| - p) && forall n: nat :: Overlaps(str, stop, n) ==> n <= |str| - p
  }

  method FindPartialStop(str: string, stop: string) returns (pos: Option<nat>)
    ensures LongestAt(str, stop, pos)
  {
    if str != "" && stop != "" {
      var len := if |str| < |stop| then |str| else |stop|;
      var last := str[|str| - 1];
      while len > 0
        invariant len <= |str| && len <= |stop|
        invariant forall n: nat :: Overlaps(str, stop, n) ==> n <= len
      {
        if stop[len - 1] == last {
          if EndsWith(str, stop[..len]) {
            assert Overlaps(str, stop, len);
            return Some(|str| - len);
          }
        } else if Overlaps(str, stop, len) {
          LastChar(str, stop, len);
        }
        len := len - 1;
      }
    }
    return None;
  }

  predicate OccursAt(stop: string, text: string, p: nat) {
    p + |stop| <= |text| && text[p..p + |stop|] == stop
  }

  /** With some continuation, an occurrence starts at p inside the text and reaches its end. */
  ghost predicate MayStart(str: string, stop: string, p: nat) {
    p < |str| <= p + |stop| && exists more :: OccursAt(stop, str + more, p)
  }

  /** An occurrence may start exactly where the rest of the text begins the stop word. */
  lemma MayStartIs(str: string, stop: string, p: nat)
    ensures MayStart(str, stop, p) <==> p < |str| && Overlaps(str, stop, |str| - p)
  {
    if MayStart(str, stop, p) {
      var more :| OccursAt(stop, str + more, p);
      var n := |str| - p;
      assert (str + more)[p..p + |stop|][..n] == (str + more)[p..|str|] == str[p..];
    }
    if p < |str| && Overlaps(str, stop, |str| - p) {
      var n := |str| - p;
      var more := stop[n..];
      assert (str + more)[p..p + |stop|] == str[p..] + more == stop[..n] + stop[n..] == stop;
      assert OccursAt(stop, str + more, p);
    }
  }

  ghost predicate EarliestAt(str: string, stop: string, pos: Option<nat>) {
    match pos
    case None => forall p: nat :: !MayStart(str, stop, p)
    case Some(q) => MayStart(str, stop, q) && forall p: nat :: MayStart(str, stop, p) ==> q <= p
  }

  /**
   The longest overlap is the earliest possible start: what comes before it may be sent, whatever follows,
   and nothing more; without an overlap, the whole text may be sent.
   */
  lemma LongestIsEarliest(str: string, stop: string, pos: Option<nat>)
    ensures LongestAt(str, stop, pos) <==> EarliestAt(str, stop, pos)
  {
    forall p: nat
      ensures MayStart(str, stop, p) <==> p < |str| && Overlaps(str, stop, |str| - p)
    {
      MayStartIs(str, stop, p);
    }
    forall n: nat | Overlaps(str, stop, n)
      ensures MayStart(str, stop, |str| - n)
    {
      MayStartIs(str, stop, |str| - n);
    }
  }
}
