/**
 Deltas between successive partial chat messages, the client that adds them up, and the cache that
 keeps tool-call ids stable. Models string_diff and common_chat_msg_diff::compute_diffs of
 common/chat.cpp and set_tool_call_ids of common/chat.h.
 */
module ChatDiff {
  import opened Common

  datatype ToolCall = ToolCall(name: string, arguments: string, id: string)

  datatype Msg = Msg(reasoning: string, content: string, toolCalls: seq<ToolCall>)

  /** A delta; toolCallIndex is None where the original has npos. */
  datatype Diff = Diff(reasoningDelta: string, contentDelta: string, toolCallIndex: Option<nat>,
                       toolCallDelta: ToolCall)

  datatype Error = InvalidDiff | FewerToolCalls | ToolCallMismatch

  const NO_CALL: ToolCall := ToolCall("", "", "")
  const NO_DIFF: Diff := Diff("", "", None, NO_CALL)
  const EMPTY: Msg := Msg("", "", [])

  /**
   What to send so that `last` becomes `current`; nothing when text was taken back, an error when it was
   rewritten.
   */
  function StringDiff(last: string, current: string): (r: Result<string, Error>)
    ensures r.Ok? <==> last <= current || current <= last
    ensures r.Ok? && last <= current ==> last + r.value == current
    ensures r.Ok? && !(last <= current) ==> r.value == ""
  {
    if last == "" then Ok(current)
    else if !(last <= current) then
      if current <= last then Ok("") else Err(InvalidDiff)
    else Ok(current[|last|..])
  }

  // ---- compute_diffs ----

  function TextDiffs(prv: Msg, new_: Msg): Result<seq<Diff>, Error> {
    var r :- if prv.reasoning != new_.reasoning then
        (var d :- StringDiff(prv.reasoning, new_.reasoning); Ok([NO_DIFF.(reasoningDelta := d)]))
      else Ok([]);
    var c :- if prv.content != new_.content then
        (var d :- StringDiff(prv.content, new_.content); Ok([NO_DIFF.(contentDelta := d)]))
      else Ok([]);
    Ok(r + c)
  }

  function CallDiff(idx: nat, pref: ToolCall, newf: ToolCall): Result<seq<Diff>, Error> {
    if pref.name != newf.name && pref.name != "" && newf.name != "" && !(pref.name <= newf.name)
    then Err(ToolCallMismatch)
    else
      var args :- StringDiff(pref.arguments, newf.arguments);
      var changed := pref.id != newf.id || pref.name != newf.name;
      Ok(if args != "" || changed then
           [Diff("", "", Some(idx), ToolCall(if changed then newf.name else "", args, if changed then newf.id else ""))]
         else [])
  }

  /** A delta per call from position idx, each carrying the whole call. */
  function NewCalls(calls: seq<ToolCall>, idx: nat): seq<Diff>
    requires idx <= |calls|
    decreases |calls| - idx
  {
    if idx == |calls| then [] else [Diff("", "", Some(idx), calls[idx])] + NewCalls(calls, idx + 1)
  }

  function Diffs(prv: Msg, new_: Msg): Result<seq<Diff>, Error> {
    var texts :- TextDiffs(prv, new_);
    var n := |prv.toolCalls|;
    if |new_.toolCalls| < n then Err(FewerToolCalls)
    else
      var last :- if n > 0 then CallDiff(n - 1, prv.toolCalls[n - 1], new_.toolCalls[n - 1]) else Ok([]);
      Ok(texts + last + NewCalls(new_.toolCalls, n))
  }

  lemma TextsAre(prv: Msg, new_: Msg, diffs: seq<Diff>)
    requires prv.reasoning != new_.reasoning ==> StringDiff(prv.reasoning, new_.reasoning).Ok?
    requires prv.content != new_.content ==> StringDiff(prv.content, new_.content).Ok?
    requires diffs
      == (if prv.reasoning != new_.reasoning
          then [NO_DIFF.(reasoningDelta := StringDiff(prv.reasoning, new_.reasoning).value)] else [])
       + (if prv.content != new_.content
          then [NO_DIFF.(contentDelta := StringDiff(prv.content, new_.content).value)] else [])
    ensures TextDiffs(prv, new_) == Ok(diffs)
  {
  }

  method ComputeDiffs(prv: Msg, new_: Msg) returns (r: Result<seq<Diff>, Error>)
    ensures r == Diffs(prv, new_)
  {
    var diffs: seq<Diff> := [];
    if prv.reasoning != new_.reasoning {
      var d :- StringDiff(prv.reasoning, new_.reasoning);
      diffs := diffs + [NO_DIFF.(reasoningDelta := d)];
    }
    if prv.content != new_.content {
      var d :- StringDiff(prv.content, new_.content);
      diffs := diffs + [NO_DIFF.(contentDelta := d)];
    }
    TextsAre(prv, new_, diffs);
    if |new_.toolCalls| < |prv.toolCalls| {
      return Err(FewerToolCalls);
    }
    ghost var texts := diffs;
    if prv.toolCalls != [] {
      var idx := |prv.toolCalls| - 1;
      var pref, newf := prv.toolCalls[idx], new_.toolCalls[idx];
      if pref.name != newf.name && pref.name != "" && newf.name != "" {
        var isPrefix := pref.name <= newf.name;
        if !isPrefix {
          return Err(ToolCallMismatch);
        }
      }
      var args :- StringDiff(pref.arguments, newf.arguments);
      if args != "" || pref.id != newf.id || pref.name != newf.name {
        var delta := NO_CALL;
        if pref.id != newf.id || pref.name != newf.name {
          delta := delta.(id := newf.id, name := newf.name);
        }
        delta := delta.(arguments := args);
        diffs := diffs + [Diff("", "", Some(idx), delta)];
      }
      assert diffs == texts + CallDiff(idx, pref, newf).value;
    }
    ghost var before := diffs;
    assert prv.toolCalls == [] ==> texts + [] == texts;
    var idx := |prv.toolCalls|;
    while idx < |new_.toolCalls|
      invariant |prv.toolCalls| <= idx <= |new_.toolCalls|
      invariant diffs + NewCalls(new_.toolCalls, idx) == before + NewCalls(new_.toolCalls, |prv.toolCalls|)
    {
      diffs := diffs + [Diff("", "", Some(idx), new_.toolCalls[idx])];
      idx := idx + 1;
    }
    assert diffs + [] == diffs;
    return Ok(diffs);
  }

  // ---- the client ----

  function PadCalls(calls: seq<ToolCall>, n: nat): (r: seq<ToolCall>)
    ensures |r| >= n && calls <= r
  {
    if |calls| < n then calls + Repeat(NO_CALL, n - |calls|) else calls
  }

  /** Names and ids are replaced when the delta carries one; arguments are appended. */
  function ApplyCall(call: ToolCall, delta: ToolCall): ToolCall {
    ToolCall(if delta.name != "" then delta.name else call.name,
             call.arguments + delta.arguments,
             if delta.id != "" then delta.id else call.id)
  }

  function Apply(msg: Msg, diff: Diff): Msg {
    Msg(msg.reasoning + diff.reasoningDelta, msg.content + diff.contentDelta,
        match diff.toolCallIndex
        case None => msg.toolCalls
        case Some(i) =>
          var calls := PadCalls(msg.toolCalls, i + 1);
          calls[i := ApplyCall(calls[i], diff.toolCallDelta)])
  }

  function Fold(msg: Msg, diffs: seq<Diff>): Msg
    decreases |diffs|
  {
    if diffs == [] then msg else Fold(Apply(msg, diffs[0]), diffs[1..])
  }

  lemma {:induction false} FoldAppend(msg: Msg, xs: seq<Diff>, ys: seq<Diff>)
    ensures Fold(msg, xs + ys) == Fold(Fold(msg, xs), ys)
    decreases |xs|
  {
    if xs == [] {
      assert xs + ys == ys;
    } else {
      assert (xs + ys)[1..] == xs[1..] + ys;
      FoldAppend(Apply(msg, xs[0]), xs[1..], ys);
    }
  }

  lemma FoldOne(msg: Msg, d: Diff)
    ensures Fold(msg, [d]) == Apply(msg, d)
  {
    assert [d][1..] == [];
  }

  // ---- exactly when the client ends with the new message ----

  /** The last known call only grew: its id, once replaced, is not emptied. */
  predicate CallExtends(prv: ToolCall, new_: ToolCall) {
    prv.name <= new_.name && prv.arguments <= new_.arguments && (prv.id == new_.id || new_.id != "")
  }

  /** Texts only grew, no call disappeared, all calls but the last known one are unchanged. */
  predicate Extends(prv: Msg, new_: Msg) {
    var n := |prv.toolCalls|;
    && prv.reasoning <= new_.reasoning && prv.content <= new_.content && n <= |new_.toolCalls|
    && (n > 0 ==>
          prv.toolCalls[..n - 1] == new_.toolCalls[..n - 1] && CallExtends(prv.toolCalls[n - 1], new_.toolCalls[n - 1]))
  }

  predicate Delivers(prv: Msg, new_: Msg) {
    Diffs(prv, new_).Ok? && Fold(prv, Diffs(prv, new_).value) == new_
  }

  lemma FoldTexts(prv: Msg, new_: Msg)
    requires TextDiffs(prv, new_).Ok?
    ensures var m := Fold(prv, TextDiffs(prv, new_).value);
      && m.toolCalls == prv.toolCalls
      && (m.reasoning == new_.reasoning <==> prv.reasoning <= new_.reasoning)
      && (m.content == new_.content <==> prv.content <= new_.content)
  {
    var ds := TextDiffs(prv, new_).value;
    if |ds| == 2 {
      assert ds == [ds[0]] + [ds[1]];
      FoldAppend(prv, [ds[0]], [ds[1]]);
      FoldOne(prv, ds[0]);
      FoldOne(Apply(prv, ds[0]), ds[1]);
    } else if |ds| == 1 {
      assert ds == [ds[0]];
      FoldOne(prv, ds[0]);
    }
  }

  lemma FoldLast(msg: Msg, new_: ToolCall)
    requires msg.toolCalls != [] && CallDiff(|msg.toolCalls| - 1, Last(msg.toolCalls), new_).Ok?
    ensures var n := |msg.toolCalls|; var m := Fold(msg, CallDiff(n - 1, Last(msg.toolCalls), new_).value);
      && m.reasoning == msg.reasoning && m.content == msg.content && |m.toolCalls| == n
      && m.toolCalls[..n - 1] == msg.toolCalls[..n - 1]
      && (m.toolCalls[n - 1] == new_ <==> CallExtends(Last(msg.toolCalls), new_))
  {
    var n, old_ := |msg.toolCalls|, Last(msg.toolCalls);
    var ds := CallDiff(n - 1, old_, new_).value;
    if ds != [] {
      FoldOne(msg, ds[0]);
      assert ds == [ds[0]];
    }
  }

  lemma {:induction false} FoldNew(msg: Msg, calls: seq<ToolCall>)
    requires |msg.toolCalls| <= |calls|
    ensures Fold(msg, NewCalls(calls, |msg.toolCalls|)) == msg.(toolCalls := msg.toolCalls + calls[|msg.toolCalls|..])
    decreases |calls| - |msg.toolCalls|
  {
    var n := |msg.toolCalls|;
    if n < |calls| {
      var d := Diff("", "", Some(n), calls[n]);
      var next := Apply(msg, d);
      assert PadCalls(msg.toolCalls, n + 1) == msg.toolCalls + [NO_CALL];
      assert calls[n] == ApplyCall(NO_CALL, calls[n]);
      assert next == msg.(toolCalls := msg.toolCalls + [calls[n]]);
      FoldAppend(msg, [d], NewCalls(calls, n + 1));
      FoldOne(msg, d);
      FoldNew(next, calls);
      assert next.toolCalls + calls[n + 1..] == msg.toolCalls + calls[n..];
    } else {
      assert msg.toolCalls + calls[n..] == msg.toolCalls;
    }
  }

  lemma HeadAndTail(calls: seq<ToolCall>, new_: seq<ToolCall>)
    requires |calls| <= |new_|
    ensures calls + new_[|calls|..] == new_ <==> calls == new_[..|calls|]
    ensures calls != [] ==> (calls == new_[..|calls|] <==>
      Init(calls) == new_[..|calls| - 1] && Last(calls) == new_[|calls| - 1])
  {
    var n := |calls|;
    assert new_ == new_[..n] + new_[n..];
    if calls + new_[n..] == new_ {
      assert calls == (calls + new_[n..])[..n];
    }
    if calls != [] && Init(calls) == new_[..n - 1] && Last(calls) == new_[n - 1] {
      assert calls == Init(calls) + [Last(calls)];
      assert new_[..n] == new_[..n - 1] + [new_[n - 1]];
    }
  }

  lemma DeliversParts(prv: Msg, new_: Msg)
    requires Diffs(prv, new_).Ok?
    ensures Delivers(prv, new_) <==> Extends(prv, new_)
  {
    hide TextDiffs, CallDiff, StringDiff, CallExtends, Apply, Fold, NewCalls;
    var n, texts := |prv.toolCalls|, TextDiffs(prv, new_).value;
    FoldTexts(prv, new_);
    var m1 := Fold(prv, texts);
    FoldAppend(prv, texts, if n > 0 then CallDiff(n - 1, Last(prv.toolCalls), new_.toolCalls[n - 1]).value else []);
    var last := if n > 0 then CallDiff(n - 1, Last(prv.toolCalls), new_.toolCalls[n - 1]).value else [];
    var m2 := Fold(m1, last);
    FoldAppend(prv, texts + last, NewCalls(new_.toolCalls, n));
    if n > 0 {
      FoldLast(m1, new_.toolCalls[n - 1]);
    } else {
      FoldNothing(m1);
    }
    FoldNew(m2, new_.toolCalls);
    HeadAndTail(m2.toolCalls, new_.toolCalls);
    assert n > 0 ==> Init(m2.toolCalls) == m2.toolCalls[..n - 1];
  }

  lemma FoldNothing(msg: Msg)
    ensures Fold(msg, []) == msg
  {
  }

  /**
   A step of the stream is computed without an error, and the client that applies its deltas ends with
   the new message, exactly when the new message extends the old one.
   */
  lemma DeliversExactly(prv: Msg, new_: Msg)
    ensures Delivers(prv, new_) <==> Extends(prv, new_)
  {
    if Diffs(prv, new_).Ok? {
      DeliversParts(prv, new_);
    }
  }

  // ---- what is refused, and what is not sent ----

  predicate Comparable(s: string, t: string) {
    s <= t || t <= s
  }

  /** The last known call was renamed, or its arguments were rewritten. */
  predicate Rewritten(prv: ToolCall, new_: ToolCall) {
    (prv.name != "" && new_.name != "" && !(prv.name <= new_.name)) || !Comparable(prv.arguments, new_.arguments)
  }

  /** A step is refused exactly when a text or the last known call was rewritten, or a call disappeared. */
  lemma RefusedExactly(prv: Msg, new_: Msg)
    ensures
      var n := |prv.toolCalls|;
      Diffs(prv, new_).Err?
      <==> || !Comparable(prv.reasoning, new_.reasoning) || !Comparable(prv.content, new_.content)
           || |new_.toolCalls| < n || (n > 0 && Rewritten(prv.toolCalls[n - 1], new_.toolCalls[n - 1]))
  {
    hide StringDiff, NewCalls;
  }

  lemma {:induction false} NewIndices(calls: seq<ToolCall>, idx: nat, k: nat)
    requires idx <= |calls| && k < |NewCalls(calls, idx)|
    ensures idx + k < |calls| && NewCalls(calls, idx)[k] == Diff("", "", Some(idx + k), calls[idx + k])
    decreases |calls| - idx
  {
    if k > 0 {
      NewIndices(calls, idx + 1, k - 1);
    }
  }

  lemma NewLength(calls: seq<ToolCall>, idx: nat)
    requires idx <= |calls|
    ensures NewCalls(calls, idx) == [] <==> idx == |calls|
  {
  }

  /** Nothing is sent exactly when nothing is new. */
  lemma SilentExactly(prv: Msg, new_: Msg)
    requires Extends(prv, new_)
    ensures Diffs(prv, new_).Ok? && (Diffs(prv, new_).value == [] <==> prv == new_)
  {
    DeliversExactly(prv, new_);
    FoldNothing(prv);
    NewLength(new_.toolCalls, |prv.toolCalls|);
    hide Fold, Apply, NewCalls;
    if prv == new_ {
      assert Comparable(prv.reasoning, new_.reasoning);
    }
  }

  /** A delta for a known call is for the last one, and repeats its name and id only if one of them changed. */
  lemma NamesOnce(prv: Msg, new_: Msg, k: nat)
    requires Extends(prv, new_) && Diffs(prv, new_).Ok? && k < |Diffs(prv, new_).value|
    ensures
      var n, d := |prv.toolCalls|, Diffs(prv, new_).value[k];
      d.toolCallIndex.Some? && d.toolCallIndex.value < n ==>
        && d.toolCallIndex.value == n - 1
        && (prv.toolCalls[n - 1].name == new_.toolCalls[n - 1].name
            && prv.toolCalls[n - 1].id == new_.toolCalls[n - 1].id ==>
              d.toolCallDelta.name == "" && d.toolCallDelta.id == "")
  {
    var n := |prv.toolCalls|;
    var texts := TextDiffs(prv, new_).value;
    var last := if n > 0 then CallDiff(n - 1, prv.toolCalls[n - 1], new_.toolCalls[n - 1]).value else [];
    var more := NewCalls(new_.toolCalls, n);
    assert Diffs(prv, new_).value == texts + last + more;
    hide NewCalls, StringDiff, CallExtends;
    if k >= |texts| + |last| {
      NewIndices(new_.toolCalls, n, k - |texts| - |last|);
      assert Diffs(prv, new_).value[k] == more[k - |texts| - |last|];
    }
  }

  /** What a delta is about: reasoning, content, or a call; nothing else is in it. */
  function Subject(d: Diff): nat {
    if d.toolCallIndex.Some? then 2 + d.toolCallIndex.value else if d.contentDelta != "" then 1 else 0
  }

  predicate OneSubject(d: Diff) {
    && (Subject(d) != 0 ==> d.reasoningDelta == "") && (Subject(d) != 1 ==> d.contentDelta == "")
    && (Subject(d) < 2 ==> d.toolCallDelta == NO_CALL)
  }

  /** Deltas come in the order of their subjects, one for each. */
  lemma InOrder(prv: Msg, new_: Msg, j: nat, k: nat)
    requires Extends(prv, new_) && Diffs(prv, new_).Ok? && j < k < |Diffs(prv, new_).value|
    ensures
      var ds := Diffs(prv, new_).value;
      Subject(ds[j]) < Subject(ds[k]) && OneSubject(ds[j]) && OneSubject(ds[k])
  {
    var n := |prv.toolCalls|;
    var texts := TextDiffs(prv, new_).value;
    var last := if n > 0 then CallDiff(n - 1, prv.toolCalls[n - 1], new_.toolCalls[n - 1]).value else [];
    var more := NewCalls(new_.toolCalls, n);
    var ds := Diffs(prv, new_).value;
    assert ds == texts + last + more;
    TextSubjects(prv, new_);
    LastSubject(prv, new_);
    hide TextDiffs, CallDiff, NewCalls, StringDiff, CallExtends, Diffs, Subject;
    var t, m := |texts|, |texts| + |last|;
    assert (j < t ==> ds[j] == texts[j]) && (k < t ==> ds[k] == texts[k]);
    assert (t <= j < m ==> ds[j] == last[j - t]) && (t <= k < m ==> ds[k] == last[k - t]);
    if j >= m {
      NewSubject(new_.toolCalls, n, j - m);
    }
    if k >= m {
      NewSubject(new_.toolCalls, n, k - m);
    }
  }

  lemma TextSubjects(prv: Msg, new_: Msg)
    requires prv.reasoning <= new_.reasoning && prv.content <= new_.content
    ensures TextDiffs(prv, new_).Ok?
    ensures
      var ds := TextDiffs(prv, new_).value;
      && (forall i :: 0 <= i < |ds| ==> OneSubject(ds[i]) && Subject(ds[i]) < 2)
      && (forall i, j :: 0 <= i < j < |ds| ==> Subject(ds[i]) < Subject(ds[j]))
  {
  }

  lemma LastSubject(prv: Msg, new_: Msg)
    requires Extends(prv, new_)
    ensures
      var n := |prv.toolCalls|;
      n > 0 ==>
        var r := CallDiff(n - 1, prv.toolCalls[n - 1], new_.toolCalls[n - 1]);
        r.Ok? && |r.value| <= 1 && (r.value != [] ==> Subject(r.value[0]) == n + 1 && OneSubject(r.value[0]))
  {
  }

  lemma NewSubject(calls: seq<ToolCall>, idx: nat, k: nat)
    requires idx <= |calls| && k < |NewCalls(calls, idx)|
    ensures Subject(NewCalls(calls, idx)[k]) == idx + k + 2 && OneSubject(NewCalls(calls, idx)[k])
  {
    NewIndices(calls, idx, k);
  }

  // ---- whole streams ----

  predicate Stream(msgs: seq<Msg>)
    decreases |msgs|
  {
    msgs != [] && msgs[0] == EMPTY
    && (|msgs| > 1 ==> Stream(Init(msgs)) && Extends(Last(Init(msgs)), Last(msgs)))
  }

  /** All the deltas sent over a stream, in order; an error if any step fails. */
  function Sent(msgs: seq<Msg>): Result<seq<Diff>, Error>
    decreases |msgs|
  {
    if |msgs| <= 1 then Ok([])
    else
      var before :- Sent(Init(msgs));
      var ds :- Diffs(Last(Init(msgs)), Last(msgs));
      Ok(before + ds)
  }

  /** Over any stream nothing is ever refused, and the deltas add up to the final message. */
  lemma {:induction false} StreamDelivers(msgs: seq<Msg>)
    requires Stream(msgs)
    ensures Sent(msgs).Ok? && Fold(EMPTY, Sent(msgs).value) == Last(msgs)
    decreases |msgs|
  {
    if |msgs| > 1 {
      hide Extends, Diffs, Fold;
      StreamDelivers(Init(msgs));
      var p, q := Last(Init(msgs)), Last(msgs);
      DeliversExactly(p, q);
      FoldAppend(EMPTY, Sent(Init(msgs)).value, Diffs(p, q).value);
    }
  }

  // ---- stable ids ----

  /** The cache after a message: known ids stay, later calls get their own id or a generated one. */
  function CacheAfter(calls: seq<ToolCall>, cache: seq<string>, gen: nat -> string): (r: seq<string>)
    ensures cache <= r && |r| == if |calls| > |cache| then |calls| else |cache|
    ensures forall i :: |cache| <= i < |calls| ==> r[i] == if calls[i].id != "" then calls[i].id else gen(i)
    decreases |calls| - |cache|
  {
    if |cache| >= |calls| then cache
    else
      var own := calls[|cache|].id;
      CacheAfter(calls, cache + [if own == "" then gen(|cache|) else own], gen)
  }

  function WithIds(calls: seq<ToolCall>, ids: seq<string>): (r: seq<ToolCall>)
    requires |ids| >= |calls|
    ensures |r| == |calls| && forall i :: 0 <= i < |calls| ==> r[i] == calls[i].(id := ids[i])
  {
    seq(|calls|, i requires 0 <= i < |calls| => calls[i].(id := ids[i]))
  }

  class IdCache {
    var ids: seq<string>

    constructor ()
      ensures ids == []
    {
      ids := [];
    }
  }

  class ChatMessage {
    var toolCalls: seq<ToolCall>

    constructor (calls: seq<ToolCall>)
      ensures toolCalls == calls
    {
      toolCalls := calls;
    }

    /** Fills in missing ids, `gen` giving the id generated for a position. */
    method SetToolCallIds(cache: IdCache, gen: nat -> string)
      modifies this, cache
      ensures cache.ids == CacheAfter(old(toolCalls), old(cache.ids), gen)
      ensures toolCalls == WithIds(old(toolCalls), cache.ids)
      ensures forall i :: 0 <= i < |toolCalls| ==>
        toolCalls[i].id
        == if i < |old(cache.ids)| then old(cache.ids)[i]
           else if old(toolCalls)[i].id != "" then old(toolCalls)[i].id
           else gen(i)
    {
      ghost var calls := toolCalls;
      for i := 0 to |toolCalls|
        invariant |toolCalls| == |calls|
        invariant |cache.ids| >= i
        invariant CacheAfter(calls, cache.ids, gen) == CacheAfter(calls, old(cache.ids), gen)
        invariant |cache.ids| > i ==> cache.ids == old(cache.ids)
        invariant forall k :: 0 <= k < i ==> toolCalls[k] == calls[k].(id := cache.ids[k])
        invariant forall k :: i <= k < |calls| ==> toolCalls[k] == calls[k]
      {
        if |cache.ids| <= i {
          var id := toolCalls[i].id;
          if id == "" {
            id := gen(i);
          }
          cache.ids := cache.ids + [id];
        }
        toolCalls := toolCalls[i := toolCalls[i].(id := cache.ids[i])];
      }
    }
  }

  predicate SameText(c: ToolCall, d: ToolCall) {
    c.name == d.name && c.arguments == d.arguments
  }

  /** Growth as the parser produces it: ids may come, go or change at will. */
  predicate Grows(prv: Msg, new_: Msg) {
    var n := |prv.toolCalls|;
    && prv.reasoning <= new_.reasoning && prv.content <= new_.content && n <= |new_.toolCalls|
    && (forall i :: 0 <= i < n - 1 ==> SameText(prv.toolCalls[i], new_.toolCalls[i]))
    && (n > 0 ==> prv.toolCalls[n - 1].name <= new_.toolCalls[n - 1].name
                  && prv.toolCalls[n - 1].arguments <= new_.toolCalls[n - 1].arguments)
  }

  /** The caches along a stream, one generator per message. */
  function Caches(msgs: seq<Msg>, gens: seq<nat -> string>): (r: seq<string>)
    requires |gens| == |msgs|
    ensures msgs != [] ==> |r| >= |Last(msgs).toolCalls|
    decreases |msgs|
  {
    if msgs == [] then []
    else CacheAfter(Last(msgs).toolCalls, Caches(Init(msgs), Init(gens)), Last(gens))
  }

  function Stamp(msg: Msg, ids: seq<string>): Msg
    requires |ids| >= |msg.toolCalls|
  {
    msg.(toolCalls := WithIds(msg.toolCalls, ids))
  }

  lemma StampExtends(prv: Msg, new_: Msg, ids: seq<string>, ids': seq<string>)
    requires Grows(prv, new_) && ids <= ids' && |ids| >= |prv.toolCalls| && |ids'| >= |new_.toolCalls|
    ensures Extends(Stamp(prv, ids), Stamp(new_, ids'))
  {
    var n, p, q := |prv.toolCalls|, Stamp(prv, ids).toolCalls, Stamp(new_, ids').toolCalls;
    if n > 0 {
      forall i | 0 <= i < n - 1
        ensures p[i] == q[i]
      {
        assert ids[i] == ids'[i];
      }
      assert p[..n - 1] == q[..n - 1];
    }
  }

  /** The messages as sent: each stamped with the ids cached up to it. */
  function Stamped(msgs: seq<Msg>, gens: seq<nat -> string>): (r: seq<Msg>)
    requires |gens| == |msgs|
    ensures |r| == |msgs|
    decreases |msgs|
  {
    if msgs == [] then [] else Stamped(Init(msgs), Init(gens)) + [Stamp(Last(msgs), Caches(msgs, gens))]
  }

  /** A stream that grows at every step, whatever its ids do. */
  predicate Growing(msgs: seq<Msg>)
    decreases |msgs|
  {
    msgs != [] && msgs[0] == EMPTY
    && (|msgs| > 1 ==> Growing(Init(msgs)) && Grows(Last(Init(msgs)), Last(msgs)))
  }

  /** With the cache, ids need not behave at all: a stream that grows otherwise is delivered, ids included. */
  lemma {:induction false} StampedStream(msgs: seq<Msg>, gens: seq<nat -> string>)
    requires |gens| == |msgs| && Growing(msgs)
    ensures Stream(Stamped(msgs, gens))
    decreases |msgs|
  {
    hide Grows, Extends, Caches;
    var out := Stamped(msgs, gens);
    if |msgs| > 1 {
      var shorter := Stamped(Init(msgs), Init(gens));
      StampedStream(Init(msgs), Init(gens));
      assert Init(out) == shorter;
      StampLast(msgs, gens);
    } else {
      assert out == [Stamp(EMPTY, Caches(msgs, gens))];
    }
  }

  lemma StampLast(msgs: seq<Msg>, gens: seq<nat -> string>)
    requires |gens| == |msgs| > 1 && Grows(Last(Init(msgs)), Last(msgs))
    ensures Extends(Last(Stamped(Init(msgs), Init(gens))), Stamp(Last(msgs), Caches(msgs, gens)))
  {
    hide Grows, Extends;
    StampExtends(Last(Init(msgs)), Last(msgs), Caches(Init(msgs), Init(gens)), Caches(msgs, gens));
  }

  /** An id once given to a position is the id of that position in every later message. */
  lemma {:induction false} IdsNeverChange(msgs: seq<Msg>, gens: seq<nat -> string>, i: nat, j: nat, k: nat)
    requires |gens| == |msgs| && i <= j < |msgs| && k < |msgs[i].toolCalls| && k < |msgs[j].toolCalls|
    ensures |Stamped(msgs, gens)| == |msgs|
    ensures k < |Stamped(msgs, gens)[i].toolCalls| && k < |Stamped(msgs, gens)[j].toolCalls|
    ensures Stamped(msgs, gens)[i].toolCalls[k].id == Stamped(msgs, gens)[j].toolCalls[k].id
  {
    CachesGrow(msgs, gens, i + 1, j + 1);
    StampedAt(msgs, gens, i);
    StampedAt(msgs, gens, j);
  }

  lemma {:induction false} CachesLength(msgs: seq<Msg>, gens: seq<nat -> string>, k: nat)
    requires |gens| == |msgs| && forall i :: 0 <= i < |msgs| ==> |msgs[i].toolCalls| <= k
    ensures |Caches(msgs, gens)| <= k
    decreases |msgs|
  {
    if msgs != [] {
      CachesLength(Init(msgs), Init(gens), k);
    }
  }

  /** A position carries the id that its call had when it first appeared; only if that was empty, a generated one. */
  lemma FirstIdStays(msgs: seq<Msg>, gens: seq<nat -> string>, first: nat, j: nat, k: nat)
    requires |gens| == |msgs| && first <= j < |msgs| && k < |msgs[first].toolCalls| && k < |msgs[j].toolCalls|
    requires forall i :: 0 <= i < first ==> |msgs[i].toolCalls| <= k
    ensures |Stamped(msgs, gens)| == |msgs| && k < |Stamped(msgs, gens)[j].toolCalls|
    ensures
      Stamped(msgs, gens)[j].toolCalls[k].id
      == if msgs[first].toolCalls[k].id != "" then msgs[first].toolCalls[k].id else gens[first](k)
  {
    hide Stamped, Caches;
    IdsNeverChange(msgs, gens, first, j, k);
    StampedAt(msgs, gens, first);
    FirstCached(msgs, gens, first, k);
  }

  lemma FirstCached(msgs: seq<Msg>, gens: seq<nat -> string>, first: nat, k: nat)
    requires |gens| == |msgs| && first < |msgs| && k < |msgs[first].toolCalls|
    requires forall i :: 0 <= i < first ==> |msgs[i].toolCalls| <= k
    ensures k < |Caches(msgs[..first + 1], gens[..first + 1])|
    ensures
      Caches(msgs[..first + 1], gens[..first + 1])[k]
      == if msgs[first].toolCalls[k].id != "" then msgs[first].toolCalls[k].id else gens[first](k)
  {
    CachesLength(msgs[..first], gens[..first], k);
    CachesStep(msgs, gens, first);
    hide Caches;
  }

  lemma CachesStep(msgs: seq<Msg>, gens: seq<nat -> string>, i: nat)
    requires |gens| == |msgs| && i < |msgs|
    ensures
      Caches(msgs[..i + 1], gens[..i + 1])
      == CacheAfter(msgs[i].toolCalls, Caches(msgs[..i], gens[..i]), gens[i])
  {
    hide CacheAfter;
    var ms, gs := msgs[..i + 1], gens[..i + 1];
    assert Init(ms) == msgs[..i] && Init(gs) == gens[..i];
  }

  lemma {:induction false} StampedAt(msgs: seq<Msg>, gens: seq<nat -> string>, i: nat)
    requires |gens| == |msgs| && i < |msgs|
    ensures |Caches(msgs[..i + 1], gens[..i + 1])| >= |msgs[i].toolCalls|
    ensures Stamped(msgs, gens)[i] == Stamp(msgs[i], Caches(msgs[..i + 1], gens[..i + 1]))
    decreases |msgs|
  {
    assert Last(msgs[..i + 1]) == msgs[i];
    if i == |msgs| - 1 {
      assert msgs[..i + 1] == msgs && gens[..i + 1] == gens;
    } else {
      assert Init(msgs)[..i + 1] == msgs[..i + 1] && Init(gens)[..i + 1] == gens[..i + 1];
      StampedAt(Init(msgs), Init(gens), i);
    }
  }

  lemma {:induction false} CachesGrow(msgs: seq<Msg>, gens: seq<nat -> string>, i: nat, j: nat)
    requires |gens| == |msgs| && i <= j <= |msgs|
    ensures Caches(msgs[..i], gens[..i]) <= Caches(msgs[..j], gens[..j])
    decreases j - i
  {
    hide Caches;
    if i < j {
      CachesGrow(msgs, gens, i, j - 1);
      CachesStep(msgs, gens, j - 1);
    }
  }
}
