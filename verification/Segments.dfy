/**
 Cutting a template's output into markers, such as <tag> or [TAG], and the text between them. Models
 segmentize_markers of common/chat-auto-parser-helpers.cpp.
 */
module Segments {
  import opened Common

  datatype Kind = TEXT | MARKER

  datatype Segment = Segment(kind: Kind, value: string)

  predicate IsOpener(c: char) {
    c == '<' || c == '['
  }

  function Closer(opener: char): char {
    if opener == '<' then '>' else ']'
  }

  /** The first opener from position i, or the end. */
  function OpenerFrom(s: string, i: nat): (j: nat)
    requires i <= |s|
    ensures i <= j <= |s| && (j < |s| ==> IsOpener(s[j]))
    ensures forall k :: i <= k < j ==> !IsOpener(s[k])
    decreases |s| - i
  {
    if i == |s| || IsOpener(s[i]) then i else OpenerFrom(s, i + 1)
  }

  /** The first c from position i, or the end. */
  function CharFrom(s: string, c: char, i: nat): (j: nat)
    requires i <= |s|
    ensures i <= j <= |s| && (j < |s| ==> s[j] == c)
    ensures forall k :: i <= k < j ==> s[k] != c
    decreases |s| - i
  {
    if i == |s| || s[i] == c then i else CharFrom(s, c, i + 1)
  }

  /** A closed marker starts at position i. */
  predicate MarkerAt(s: string, i: nat)
    requires i < |s|
  {
    IsOpener(s[i]) && CharFrom(s, Closer(s[i]), i + 1) < |s|
  }

  /** Where the segment that starts at position i ends. */
  function EndOf(s: string, i: nat): (j: nat)
    requires i < |s|
    ensures i < j <= |s|
  {
    if MarkerAt(s, i) then CharFrom(s, Closer(s[i]), i + 1) + 1
    else if IsOpener(s[i]) then |s|
    else OpenerFrom(s, i)
  }

  function SegmentsFrom(s: string, i: nat): seq<Segment>
    requires i <= |s|
    decreases |s| - i
  {
    if i == |s| then []
    else [Segment(if MarkerAt(s, i) then MARKER else TEXT, s[i..EndOf(s, i)])] + SegmentsFrom(s, EndOf(s, i))
  }

  function SegmentsOf(s: string): seq<Segment> {
    SegmentsFrom(s, 0)
  }

  method SegmentizeMarkers(text: string) returns (r: seq<Segment>)
    ensures r == SegmentsOf(text)
  {
    hide IsOpener, Closer, SegmentsFrom;
    r := [];
    var inMarker, opener := false, '\0';
    var border := 0;
    for cur := 0 to |text|
      invariant border <= cur && (inMarker ==> border < cur && opener == text[border] && IsOpener(opener))
      invariant inMarker ==> forall k :: border < k < cur ==> text[k] != Closer(opener)
      invariant !inMarker ==> forall k :: border <= k < cur ==> !IsOpener(text[k])
      invariant r + SegmentsFrom(text, border) == SegmentsOf(text)
    {
      if !inMarker && IsOpener(text[cur]) {
        if border < cur {
          PlainFirst(text, border, cur);
          r := r + [Segment(TEXT, text[border..cur])];
        }
        border := cur;
        inMarker := true;
        opener := text[cur];
      } else if inMarker && text[cur] == Closer(opener) {
        MarkerFirst(text, border, cur);
        r := r + [Segment(MARKER, text[border..cur + 1])];
        border := cur + 1;
        inMarker := false;
        opener := '\0';
      }
    }
    SegmentsEnd(text);
    if border < |text| {
      if inMarker {
        UnclosedFirst(text, border);
      } else {
        PlainFirst(text, border, |text|);
      }
      assert text[border..|text|] == text[border..];
      r := r + [Segment(TEXT, text[border..])];
    }
  }

  lemma {:induction false} CharFound(s: string, c: char, i: nat, j: nat)
    requires i <= j <= |s| && (j < |s| ==> s[j] == c) && forall k :: i <= k < j ==> s[k] != c
    ensures CharFrom(s, c, i) == j
    decreases j - i
  {
    if i < j {
      CharFound(s, c, i + 1, j);
    }
  }

  lemma {:induction false} OpenerFound(s: string, i: nat, j: nat)
    requires i <= j <= |s| && (j < |s| ==> IsOpener(s[j])) && forall k :: i <= k < j ==> !IsOpener(s[k])
    ensures OpenerFrom(s, i) == j
    decreases j - i
  {
    if i < j {
      OpenerFound(s, i + 1, j);
    }
  }

  lemma PlainFirst(s: string, i: nat, j: nat)
    requires i < j <= |s| && (j < |s| ==> IsOpener(s[j])) && forall k :: i <= k < j ==> !IsOpener(s[k])
    ensures SegmentsFrom(s, i) == [Segment(TEXT, s[i..j])] + SegmentsFrom(s, j)
  {
    OpenerFound(s, i, j);
    assert !IsOpener(s[i]);
    hide IsOpener, OpenerFrom, CharFrom;
  }

  lemma MarkerEnds(s: string, i: nat, j: nat)
    requires i < j < |s| && IsOpener(s[i]) && s[j] == Closer(s[i])
    requires forall k :: i < k < j ==> s[k] != Closer(s[i])
    ensures MarkerAt(s, i) && EndOf(s, i) == j + 1
  {
    CharFound(s, Closer(s[i]), i + 1, j);
    hide IsOpener, OpenerFrom, CharFrom, Closer;
  }

  lemma MarkerFirst(s: string, i: nat, j: nat)
    requires i < j < |s| && IsOpener(s[i]) && s[j] == Closer(s[i])
    requires forall k :: i < k < j ==> s[k] != Closer(s[i])
    ensures SegmentsFrom(s, i) == [Segment(MARKER, s[i..j + 1])] + SegmentsFrom(s, j + 1)
  {
    MarkerEnds(s, i, j);
    hide IsOpener, Closer, MarkerAt, EndOf;
  }

  lemma UnclosedFirst(s: string, i: nat)
    requires i < |s| && IsOpener(s[i]) && forall k :: i < k < |s| ==> s[k] != Closer(s[i])
    ensures SegmentsFrom(s, i) == [Segment(TEXT, s[i..])]
  {
    CharFound(s, Closer(s[i]), i + 1, |s|);
    hide IsOpener, OpenerFrom, CharFrom, Closer;
    SegmentsEnd(s);
    assert s[i..|s|] == s[i..];
  }

  lemma SegmentsEnd(s: string)
    ensures SegmentsFrom(s, |s|) == []
  {
  }

  // ---- what the segments are ----

  /** An opener, its first closer, and nothing after it. */
  predicate IsMarker(v: string) {
    && |v| >= 2 && ((v[0] == '<' && v[|v| - 1] == '>') || (v[0] == '[' && v[|v| - 1] == ']'))
    && forall k :: 0 < k < |v| - 1 ==> v[k] != v[|v| - 1]
  }

  predicate IsPlain(v: string) {
    v != "" && forall k :: 0 <= k < |v| ==> v[k] != '<' && v[k] != '['
  }

  /** An opener that is never closed. */
  predicate IsUnclosed(v: string) {
    v != "" && IsOpener(v[0]) && forall k :: 0 < k < |v| ==> v[k] != Closer(v[0])
  }

  /** An unclosed marker is text, and comes last; plain text is not followed by more of it. */
  predicate FirstOk(segs: seq<Segment>)
    requires segs != []
  {
    var v := segs[0].value;
    match segs[0].kind
    case MARKER => IsMarker(v)
    case TEXT => (IsUnclosed(v) && |segs| == 1) || (IsPlain(v) && (|segs| > 1 ==> !IsPlain(segs[1].value)))
  }

  /** Markers and the longest plain texts between them. */
  predicate WellSegmented(segs: seq<Segment>) {
    segs != [] ==> FirstOk(segs) && WellSegmented(segs[1..])
  }

  function TextOf(segs: seq<Segment>): string {
    if segs == [] then "" else segs[0].value + TextOf(segs[1..])
  }

  /** The segment at position i is a marker, plain text up to an opener or the end, or an unclosed marker. */
  lemma SegmentShape(s: string, i: nat)
    requires i < |s|
    ensures
      var j := EndOf(s, i);
      if MarkerAt(s, i) then IsMarker(s[i..j])
      else if IsOpener(s[i]) then IsUnclosed(s[i..j]) && j == |s|
      else IsPlain(s[i..j]) && (j < |s| ==> IsOpener(s[j]))
  {
    var v := s[i..EndOf(s, i)];
    assert forall k :: 0 <= k < |v| ==> v[k] == s[i + k];
    hide IsOpener, Closer;
  }

  lemma {:induction false} SegmentsAre(s: string, i: nat)
    requires i <= |s|
    ensures WellSegmented(SegmentsFrom(s, i)) && TextOf(SegmentsFrom(s, i)) == s[i..]
    decreases |s| - i
  {
    if i < |s| {
      var j := EndOf(s, i);
      SegmentsAre(s, j);
      SegmentShape(s, i);
      if j < |s| {
        SegmentShape(s, j);
      }
      SegmentsStep(s, i);
    }
  }

  lemma SegmentsStep(s: string, i: nat)
    requires i < |s|
    requires WellSegmented(SegmentsFrom(s, EndOf(s, i))) && TextOf(SegmentsFrom(s, EndOf(s, i))) == s[EndOf(s, i)..]
    requires
      var j := EndOf(s, i);
      if MarkerAt(s, i) then IsMarker(s[i..j])
      else if IsOpener(s[i]) then IsUnclosed(s[i..j]) && j == |s|
      else IsPlain(s[i..j]) && (j < |s| ==> IsOpener(s[j]))
    ensures WellSegmented(SegmentsFrom(s, i)) && TextOf(SegmentsFrom(s, i)) == s[i..]
  {
    hide EndOf, MarkerAt, IsOpener, IsMarker, IsUnclosed, IsPlain, FirstOk, SegmentsFrom;
    var j := EndOf(s, i);
    var r, rest := SegmentsFrom(s, i), SegmentsFrom(s, j);
    SegmentsCons(s, i);
    FirstIsOk(s, i, rest);
    assert r[1..] == rest;
    assert s[i..] == s[i..j] + s[j..];
  }

  lemma SegmentsCons(s: string, i: nat)
    requires i < |s|
    ensures
      SegmentsFrom(s, i)
      == [Segment(if MarkerAt(s, i) then MARKER else TEXT, s[i..EndOf(s, i)])] + SegmentsFrom(s, EndOf(s, i))
  {
  }

  lemma FirstIsOk(s: string, i: nat, rest: seq<Segment>)
    requires i < |s| && rest == SegmentsFrom(s, EndOf(s, i))
    requires
      var j := EndOf(s, i);
      if MarkerAt(s, i) then IsMarker(s[i..j])
      else if IsOpener(s[i]) then IsUnclosed(s[i..j]) && j == |s|
      else IsPlain(s[i..j]) && (j < |s| ==> IsOpener(s[j]))
    ensures FirstOk([Segment(if MarkerAt(s, i) then MARKER else TEXT, s[i..EndOf(s, i)])] + rest)
  {
    hide SegmentsFrom, EndOf, MarkerAt, IsOpener, IsMarker, IsUnclosed, IsPlain;
    var j := EndOf(s, i);
    if j == |s| {
      SegmentsEnd(s);
    } else if IsOpener(s[j]) {
      OpensNext(s, j);
    }
  }

  lemma OpensNext(s: string, j: nat)
    requires j < |s| && IsOpener(s[j])
    ensures SegmentsFrom(s, j) != [] && !IsPlain(SegmentsFrom(s, j)[0].value)
  {
    hide MarkerAt, EndOf;
    assert SegmentsFrom(s, j)[0].value[0] == s[j];
  }

  lemma {:induction false} SegmentsUnique(segs: seq<Segment>, s: string, i: nat)
    requires i <= |s| && WellSegmented(segs) && TextOf(segs) == s[i..]
    ensures segs == SegmentsFrom(s, i)
    decreases |segs|
  {
    hide FirstOk, SegmentsFrom;
    if segs == [] {
      SegmentsEnd(s);
    } else {
      var j := i + |segs[0].value|;
      FirstSegment(segs, s, i);
      FirstIs(segs, s, i, j);
      SegmentsUnique(segs[1..], s, j);
      assert segs == [segs[0]] + segs[1..];
    }
  }

  lemma FirstSegment(segs: seq<Segment>, s: string, i: nat)
    requires i <= |s| && segs != [] && WellSegmented(segs) && TextOf(segs) == s[i..]
    ensures
      var j := i + |segs[0].value|;
      && i < j <= |s| && s[i..j] == segs[0].value && TextOf(segs[1..]) == s[j..]
      && (|segs| == 1 ==> j == |s|)
      && (|segs| > 1 && !IsPlain(segs[1].value) ==> j < |s| && IsOpener(s[j]))
  {
    hide IsOpener;
    var v := segs[0].value;
    assert s[i..][..|v|] == v && s[i..][|v|..] == TextOf(segs[1..]);
    if |segs| > 1 {
      assert segs[1..][0] == segs[1];
      SecondSegment(segs[1..], s, i + |v|);
    }
  }

  lemma SecondSegment(segs: seq<Segment>, s: string, j: nat)
    requires j <= |s| && segs != [] && FirstOk(segs) && TextOf(segs) == s[j..]
    ensures !IsPlain(segs[0].value) ==> j < |s| && IsOpener(s[j])
  {
    hide Closer;
    var v := segs[0].value;
    assert v != "";
    assert s[j..][0] == v[0];
  }

  lemma Forms(v: string)
    ensures
      IsMarker(v) ==>
        && |v| >= 2 && IsOpener(v[0]) && v[|v| - 1] == Closer(v[0])
        && forall k :: 0 < k < |v| - 1 ==> v[k] != Closer(v[0])
    ensures IsPlain(v) ==> v != "" && forall k :: 0 <= k < |v| ==> !IsOpener(v[k])
  {
  }

  lemma FirstIs(segs: seq<Segment>, s: string, i: nat, j: nat)
    requires segs != [] && FirstOk(segs)
    requires i < j <= |s| && j == i + |segs[0].value| && s[i..j] == segs[0].value
    requires |segs| == 1 ==> j == |s|
    requires |segs| > 1 && !IsPlain(segs[1].value) ==> j < |s| && IsOpener(s[j])
    ensures SegmentsFrom(s, i) == [segs[0]] + SegmentsFrom(s, j)
  {
    var v := segs[0].value;
    if segs[0].kind.MARKER? {
      FirstMarker(v, s, i, j);
    } else if IsUnclosed(v) && |segs| == 1 {
      FirstUnclosed(v, s, i);
    } else {
      FirstPlain(v, s, i, j);
    }
    hide SegmentsFrom, IsOpener, Closer, IsMarker, IsPlain, IsUnclosed;
  }

  lemma Characters(v: string, s: string, i: nat, j: nat)
    requires i <= j <= |s| && s[i..j] == v
    ensures |v| == j - i && forall k :: i <= k < j ==> s[k] == v[k - i]
  {
  }

  lemma FirstMarker(v: string, s: string, i: nat, j: nat)
    requires i < j <= |s| && s[i..j] == v && IsMarker(v)
    ensures SegmentsFrom(s, i) == [Segment(MARKER, v)] + SegmentsFrom(s, j)
  {
    hide SegmentsFrom, IsOpener, Closer;
    Forms(v);
    Characters(v, s, i, j);
    hide IsMarker;
    MarkerFirst(s, i, j - 1);
  }

  lemma FirstUnclosed(v: string, s: string, i: nat)
    requires i < |s| && s[i..|s|] == v && IsUnclosed(v)
    ensures SegmentsFrom(s, i) == [Segment(TEXT, v)] + SegmentsFrom(s, |s|)
  {
    hide SegmentsFrom, IsOpener, Closer;
    Characters(v, s, i, |s|);
    UnclosedFirst(s, i);
    SegmentsEnd(s);
    assert s[i..|s|] == s[i..];
  }

  lemma FirstPlain(v: string, s: string, i: nat, j: nat)
    requires i < j <= |s| && s[i..j] == v && IsPlain(v) && (j < |s| ==> IsOpener(s[j]))
    ensures SegmentsFrom(s, i) == [Segment(TEXT, v)] + SegmentsFrom(s, j)
  {
    hide SegmentsFrom, IsOpener, Closer;
    Forms(v);
    Characters(v, s, i, j);
    hide IsPlain;
    PlainFirst(s, i, j);
  }

  /** Segmenting loses nothing, and it is the only way to cut the text into markers and plain text. */
  lemma SegmentsCharacterised(segs: seq<Segment>, text: string)
    ensures segs == SegmentsOf(text) <==> WellSegmented(segs) && TextOf(segs) == text
  {
    SegmentsAre(text, 0);
    assert text[0..] == text;
    if WellSegmented(segs) && TextOf(segs) == text {
      SegmentsUnique(segs, text, 0);
    }
  }

  lemma {:induction false} SegmentsNotEmpty(segs: seq<Segment>)
    requires WellSegmented(segs)
    ensures forall k :: 0 <= k < |segs| ==> segs[k].value != ""
  {
    if segs != [] {
      SegmentsNotEmpty(segs[1..]);
      assert forall k :: 0 < k < |segs| ==> segs[k] == segs[1..][k - 1];
    }
  }
}
