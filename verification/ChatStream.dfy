/**
 The streaming obligation: partial parses of a growing text give messages that only grow, so their deltas
 are never refused and add up to the final message.
 */
module ChatStream {
  import opened Common
  import opened JsonText
  import Quotes = QuoteNormalizer
  import opened ChatDiff
  import opened ToolCallMapper
  import opened ToolCallProofs

  /** The message as far as it has been mapped. */
  function Raw(st: State): Msg {
    Msg(st.reasoning, st.content, st.calls)
  }

  /** The message after the last event of a parse. */
  function MessageOf(nodes: seq<Node>): Msg
    requires RunOk(START, nodes)
  {
    Raw(Finish(Run(START, nodes)))
  }

  // ---- every event in order only adds ----

  /** A call is named once and not blankly; arguments that come whole do not take back what was sent. */
  predicate Orderly(st: State, node: Node)
    requires Sound(st)
  {
    && Usable(st, node)
    && (node.tag.ToolName? && HasCurrent(st) ==> st.cursor.Pending? && TrimEnd(node.text) != "")
    && (node.tag.ToolArgs? && HasCurrent(st) && Opens(node.text) ==> Target(st) <= TrimEnd(node.text))
    && (node.tag.ToolClose? && st.cursor.Stored? ==> Current(st).name != "")
  }

  predicate RunOrderly(st: State, nodes: seq<Node>)
    requires Sound(st)
    decreases |nodes|
  {
    nodes == [] || (Orderly(st, nodes[0]) && RunOrderly(Step(st, nodes[0]), nodes[1..]))
  }

  lemma {:induction false} OrderlyOk(st: State, nodes: seq<Node>)
    requires Sound(st) && RunOrderly(st, nodes)
    ensures RunOk(st, nodes)
    decreases |nodes|
  {
    hide Step;
    if nodes != [] {
      OrderlyOk(Step(st, nodes[0]), nodes[1..]);
    }
  }

  lemma GrowsTransitive(x: Msg, y: Msg, z: Msg)
    requires Grows(x, y) && Grows(y, z)
    ensures Grows(x, z)
  {
  }

  lemma GrowsSelf(x: Msg)
    ensures Grows(x, x)
  {
  }

  /** Writing more into the current call's arguments. */
  lemma GrowTarget(st: State, text: string)
    requires Tidy(st) && HasCurrent(st) && Target(st) <= text
    ensures Grows(Raw(st), Raw(SetTarget(st, text)))
  {
  }

  /** Of two texts for the current call's arguments, the longer one gives the grown message. */
  lemma GrowTargets(st: State, s: string, t: string)
    requires Tidy(st) && HasCurrent(st) && s <= t
    ensures Grows(Raw(SetTarget(st, s)), Raw(SetTarget(st, t)))
  {
  }

  lemma GrowArg(st: State, node: Node)
    requires Tidy(st) && Orderly(st, node) && ArgTag(node.tag)
    ensures Grows(Raw(st), Raw(Step(st, node)))
  {
    GrowsSelf(Raw(st));
    if HasCurrent(st) {
      forall text | Target(st) <= text
        ensures Grows(Raw(st), Raw(SetTarget(st, text)))
      {
        GrowTarget(st, text);
      }
      EmptyTarget(st);
    }
    hide Grows, SetTarget, Target, Quote, TrimKey, TrimEnd, ValuePiece, Tidy;
  }

  /** A named call's arguments may be empty only before anything was written, and then `{` may follow. */
  lemma EmptyTarget(st: State)
    requires Tidy(st) && HasCurrent(st)
    ensures Target(st) == "" ==> forall text: string :: Grows(Raw(st), Raw(SetTarget(st, text)))
  {
  }

  lemma GrowName(st: State, text: string)
    requires Tidy(st) && st.cursor.Pending?
    ensures Grows(Raw(st), Raw(NameStep(st, text)))
  {
    hide TrimEnd;
  }

  lemma GrowClose(st: State)
    requires Tidy(st) && HasCurrent(st) && (st.cursor.Stored? ==> Current(st).name != "")
    ensures Grows(Raw(st), Raw(CloseStep(st)))
  {
    hide Braces;
  }

  lemma GrowId(st: State, id: string)
    requires Tidy(st) && HasCurrent(st)
    ensures Grows(Raw(st), Raw(SetCurrent(st, Current(st).(id := id))))
  {
  }

  lemma GrowOther(st: State, node: Node)
    requires Tidy(st) && Orderly(st, node) && HasCurrent(st) && !ArgTag(node.tag) && !node.tag.ToolClose?
    ensures Grows(Raw(st), Raw(Step(st, node)))
  {
    GrowId(st, CleanId(node.text));
    if st.cursor.Pending? {
      GrowName(st, node.text);
    }
    GrowsSelf(Raw(st));
    hide CleanId, NameStep, SetCurrent, Current, ArgTag, TrimEnd, Target;
  }

  lemma GrowStep(st: State, node: Node)
    requires Tidy(st) && Orderly(st, node)
    ensures Grows(Raw(st), Raw(Step(st, node)))
  {
    if ArgTag(node.tag) {
      GrowArg(st, node);
    } else if !HasCurrent(st) {
      GrowsSelf(Raw(st));
    } else if node.tag.ToolClose? {
      GrowClose(st);
      hide CloseStep, Grows;
    } else {
      GrowOther(st, node);
      hide Step, Grows;
    }
  }

  /** What a run in order has put into the message stays there as a prefix. */
  lemma {:induction false} RunGrows(st: State, nodes: seq<Node>)
    requires Tidy(st) && RunOrderly(st, nodes)
    ensures RunOk(st, nodes) && Grows(Raw(st), Raw(Run(st, nodes)))
    decreases |nodes|
  {
    hide Step, Grows;
    if nodes == [] {
      GrowsSelf(Raw(st));
    } else {
      var next := Step(st, nodes[0]);
      TidyStep(st, nodes[0]);
      GrowStep(st, nodes[0]);
      RunGrows(next, nodes[1..]);
      GrowsTransitive(Raw(st), Raw(next), Raw(Run(next, nodes[1..])));
    }
  }

  // ---- an event whose text is cut short ----

  /**
   The cuts that may be shown: an argument name has all but blanks, a value is not cut where its quotes
   cannot be rewritten yet, and a further chunk of a string is not emptied.
   */
  predicate CutNode(st: State, m: Node, n: Node) {
    && m.tag == n.tag && m.text <= n.text
    && (m.tag.ArgName? ==> TrimKey(m.text) == TrimKey(n.text))
    && (m.tag.ArgValue? ==> !Quotes.BadCut(n.text, |m.text|))
    && (m.tag.ArgStringValue? && st.quote && n.text != "" ==> m.text != "")
  }

  lemma {:induction false} TrimMonotone(s: string, t: string)
    requires s <= t
    ensures TrimEnd(s) <= TrimEnd(t)
    decreases |t|
  {
    if s != t && IsSpace(t[|t| - 1]) {
      TrimMonotone(s, t[..|t| - 1]);
    }
  }

  lemma CutPiece(st: State, m: Node, n: Node)
    requires CutNode(st, m, n) && (n.tag.ArgValue? || n.tag.ArgStringValue?)
    ensures ValuePiece(m.tag, m.text, st.quote).0 <= ValuePiece(n.tag, n.text, st.quote).0
  {
    if n.tag.ArgValue? {
      hide Quotes.Normalize, Quotes.BadCut;
      Quotes.PrefixMonotone(n.text, |m.text|);
      assert n.text[..|m.text|] == m.text;
    } else {
      hide Escape;
      EscapeMonotone(m.text, n.text);
    }
  }

  lemma CutArg(st: State, m: Node, n: Node)
    requires Tidy(st) && Orderly(st, n) && CutNode(st, m, n) && ArgTag(n.tag)
    ensures Usable(st, m) && Grows(Raw(Step(st, m)), Raw(Step(st, n)))
  {
    CutUsable(st, m, n);
    if HasCurrent(st) && (n.tag.ArgValue? || n.tag.ArgStringValue?) {
      CutValue(st, m, n);
    } else if HasCurrent(st) && n.tag.ToolArgs? {
      CutArgs(st, m.text, n.text);
    } else {
      GrowsSelf(Raw(Step(st, n)));
      hide SetTarget, Target, Quote, TrimKey, TrimEnd, Grows, Tidy;
    }
  }

  lemma CutUsable(st: State, m: Node, n: Node)
    requires Usable(st, n) && m.tag == n.tag && m.text <= n.text
    ensures Usable(st, m)
  {
    TrimMonotone(m.text, n.text);
    hide TrimEnd;
  }

  lemma CutValue(st: State, m: Node, n: Node)
    requires Tidy(st) && Usable(st, n) && Usable(st, m) && CutNode(st, m, n) && HasCurrent(st)
    requires n.tag.ArgValue? || n.tag.ArgStringValue?
    ensures Grows(Raw(Step(st, m)), Raw(Step(st, n)))
  {
    CutPiece(st, m, n);
    var p, q := ValuePiece(m.tag, m.text, st.quote).0, ValuePiece(n.tag, n.text, st.quote).0;
    GrowTargets(st, Target(st) + p, Target(st) + q);
    hide SetTarget, Target, ValuePiece, Tidy;
  }

  lemma CutArgs(st: State, s: string, t: string)
    requires Tidy(st) && HasCurrent(st) && s <= t && (Opens(t) ==> Target(st) <= TrimEnd(t))
    ensures Grows(Raw(Step(st, Node(ToolArgs, s))), Raw(Step(st, Node(ToolArgs, t))))
  {
    TrimMonotone(s, t);
    GrowsSelf(Raw(st));
    if Opens(t) {
      GrowTarget(st, TrimEnd(t));
      GrowTargets(st, TrimEnd(s), TrimEnd(t));
    }
    hide SetTarget, Target, TrimEnd, Grows, Tidy;
  }

  lemma CutName(st: State, s: string, t: string)
    requires Tidy(st) && st.cursor.Pending? && s <= t
    ensures Grows(Raw(NameStep(st, s)), Raw(NameStep(st, t)))
  {
    TrimMonotone(s, t);
    hide TrimEnd;
  }

  lemma CutId(st: State, s: string, t: string)
    requires Tidy(st) && HasCurrent(st)
    ensures Grows(Raw(SetCurrent(st, Current(st).(id := s))), Raw(SetCurrent(st, Current(st).(id := t))))
  {
  }

  lemma CutOther(st: State, m: Node, n: Node)
    requires Tidy(st) && Orderly(st, n) && CutNode(st, m, n) && !ArgTag(n.tag)
    ensures Usable(st, m) && Grows(Raw(Step(st, m)), Raw(Step(st, n)))
  {
    if n.tag.Reasoning? || n.tag.Content? || !HasCurrent(st) {
      GrowsSelf(Raw(st));
    } else {
      if st.cursor.Pending? {
        CutName(st, m.text, n.text);
      }
      CutId(st, CleanId(m.text), CleanId(n.text));
      GrowsSelf(Raw(Step(st, n)));
      hide CleanId, NameStep, CloseStep, SetCurrent, Current, Grows, Tidy;
    }
  }

  /** `xs` are the events of a shorter text: the first of `ys`, the last one perhaps cut. */
  predicate Cut(st: State, xs: seq<Node>, ys: seq<Node>)
    requires Sound(st) && RunOrderly(st, ys)
    decreases |ys|
  {
    || xs == []
    || (ys != [] && xs[0] == ys[0] && Cut(Step(st, ys[0]), xs[1..], ys[1..]))
    || (ys != [] && |xs| == 1 && CutNode(st, xs[0], ys[0]))
  }

  /** Cutting the events gives a message that the longer run only adds to. */
  lemma {:induction false} CutGrows(st: State, xs: seq<Node>, ys: seq<Node>)
    requires Tidy(st) && RunOrderly(st, ys) && Cut(st, xs, ys)
    ensures RunOk(st, xs) && RunOk(st, ys) && Grows(Raw(Run(st, xs)), Raw(Run(st, ys)))
    decreases |ys|
  {
    hide Step, Grows;
    OrderlyOk(st, ys);
    if xs == [] {
      RunGrows(st, ys);
    } else if xs[0] == ys[0] && Cut(Step(st, ys[0]), xs[1..], ys[1..]) {
      TidyStep(st, ys[0]);
      CutGrows(Step(st, ys[0]), xs[1..], ys[1..]);
    } else {
      CutLast(st, xs[0], ys);
      assert xs == [xs[0]];
    }
  }

  lemma CutLast(st: State, m: Node, ys: seq<Node>)
    requires Tidy(st) && ys != [] && RunOrderly(st, ys) && CutNode(st, m, ys[0])
    ensures RunOk(st, [m]) && RunOk(st, ys) && Grows(Raw(Run(st, [m])), Raw(Run(st, ys)))
  {
    if ArgTag(m.tag) {
      CutArg(st, m, ys[0]);
    } else {
      CutOther(st, m, ys[0]);
    }
    hide Step, Grows, CutNode;
    RunOne(st, m);
    var next := Step(st, ys[0]);
    TidyStep(st, ys[0]);
    RunGrows(next, ys[1..]);
    GrowsTransitive(Raw(Run(st, [m])), Raw(next), Raw(Run(next, ys[1..])));
  }

  /** Dropping blank reasoning at the end of a parse takes nothing back. */
  lemma CleanGrows(x: Msg, y: Msg)
    requires Grows(x, y)
    ensures Grows(x.(reasoning := if Blank(x.reasoning) then "" else x.reasoning),
                  y.(reasoning := if Blank(y.reasoning) then "" else y.reasoning))
  {
    if Blank(y.reasoning) {
      assert Blank(x.reasoning);
    }
  }

  /** The message of a cut parse is extended by the message of the whole one, by their visible events. */
  lemma CutMessage(xs: seq<Node>, ys: seq<Node>)
    requires RunOrderly(START, Visible(ys)) && Cut(START, Visible(xs), Visible(ys))
    ensures RunOk(START, xs) && RunOk(START, ys) && Grows(MessageOf(xs), MessageOf(ys))
  {
    CutGrows(START, Visible(xs), Visible(ys));
    VisibleRun(START, xs);
    VisibleRun(START, ys);
    hide Run, Grows, Blank, Visible;
    FlushNeverFires(xs);
    FlushNeverFires(ys);
    CleanGrows(Raw(Run(START, xs)), Raw(Run(START, ys)));
  }

  // ---- no other cut may be shown ----

  /** A named call's arguments are in the message, so they may only get longer. */
  lemma VisibleTarget(st: State, s: string, t: string)
    requires Tidy(st) && st.cursor.Stored? && Current(st).name != ""
    ensures Grows(Raw(SetTarget(st, s)), Raw(SetTarget(st, t))) <==> s <= t
  {
    GrowTargetsOnly(st, s, t);
    if s <= t {
      GrowTargets(st, s, t);
    }
  }

  lemma GrowTargetsOnly(st: State, s: string, t: string)
    requires Tidy(st) && st.cursor.Stored? && Current(st).name != ""
    ensures Grows(Raw(SetTarget(st, s)), Raw(SetTarget(st, t))) ==> s <= t
  {
  }

  /** A longer name gives another key, and its quote is closed already. */
  lemma NameCut(open: string, a: string, b: string)
    requires open + Quote(a) + ":" <= open + Quote(b) + ":"
    ensures a == b
  {
    var x, y := Escape(a) + ("\"" + ":"), Escape(b) + ("\"" + ":");
    hide Escape;
    assert open + Quote(a) + ":" == (open + "\"") + x && open + Quote(b) + ":" == (open + "\"") + y;
    PrefixTail(open + "\"", x, y);
    EscapedPrefix(a, b, ":", ":");
  }

  lemma EmptiedChunk(text: string)
    requires text != ""
    ensures !("\"" <= Escape(text))
  {
    FirstOfEscape(text[0]);
    assert Escape(text)[0] == EscapeChar(text[0])[0];
  }

  lemma PieceExactly(st: State, m: Node, n: Node)
    requires m.tag == n.tag && m.text <= n.text && (n.tag.ArgValue? || n.tag.ArgStringValue?)
    ensures
      ValuePiece(m.tag, m.text, st.quote).0 <= ValuePiece(n.tag, n.text, st.quote).0 <==> CutNode(st, m, n)
  {
    if CutNode(st, m, n) {
      CutPiece(st, m, n);
    } else if n.tag.ArgValue? {
      hide Quotes.Normalize, Quotes.BadCut;
      Quotes.PrefixMonotone(n.text, |m.text|);
      assert n.text[..|m.text|] == m.text;
    } else {
      EmptiedChunk(n.text);
      hide Escape;
      assert "" + Escape(n.text) == Escape(n.text);
    }
  }

  /** For arguments that are in the message already, no other cut may be shown. */
  lemma CutExactly(st: State, m: Node, n: Node)
    requires Tidy(st) && st.cursor.Stored? && Current(st).name != "" && m.tag == n.tag && m.text <= n.text
    requires n.tag.ArgName? || n.tag.ArgValue? || n.tag.ArgStringValue?
    ensures Grows(Raw(Step(st, m)), Raw(Step(st, n))) <==> CutNode(st, m, n)
  {
    if n.tag.ArgName? {
      NameExactly(st, m.text, n.text);
    } else {
      PieceExactly(st, m, n);
      var p, q := ValuePiece(m.tag, m.text, st.quote).0, ValuePiece(n.tag, n.text, st.quote).0;
      VisibleTarget(st, Target(st) + p, Target(st) + q);
      PrefixTail(Target(st), p, q);
      hide SetTarget, Target, ValuePiece, Tidy, CutNode, Grows;
    }
  }

  /** What an argument name leaves in the message. */
  lemma NameWritten(st: State, open: string, text: string)
    requires Sound(st) && HasCurrent(st)
    requires open == (if Target(st) == "" then "{" else Target(st)) + if st.argCount > 0 then "," else ""
    ensures Raw(Step(st, Node(ArgName, text))) == Raw(SetTarget(st, open + Quote(TrimKey(text)) + ":"))
  {
    hide SetTarget, Target, Quote, TrimKey;
  }

  lemma NameExactly(st: State, s: string, t: string)
    requires Tidy(st) && st.cursor.Stored? && Current(st).name != ""
    ensures
      Grows(Raw(Step(st, Node(ArgName, s))), Raw(Step(st, Node(ArgName, t)))) <==> TrimKey(s) == TrimKey(t)
  {
    var open := (if Target(st) == "" then "{" else Target(st)) + if st.argCount > 0 then "," else "";
    var x, y := open + Quote(TrimKey(s)) + ":", open + Quote(TrimKey(t)) + ":";
    VisibleTarget(st, x, y);
    if x <= y {
      NameCut(open, TrimKey(s), TrimKey(t));
    }
    NameWritten(st, open, s);
    NameWritten(st, open, t);
    hide *;
  }

  // ---- whole streams ----

  /** Successive partial parses, each of a text that continues the one before, by their visible events. */
  predicate Partials(runs: seq<seq<Node>>)
    decreases |runs|
  {
    runs != [] ==>
      && RunOrderly(START, Visible(Last(runs))) && Partials(Init(runs))
      && (|runs| > 1 ==> Cut(START, Visible(Last(Init(runs))), Visible(Last(runs))))
  }

  /** Parses whose visible events are in order can be mapped. */
  lemma VisibleOk(nodes: seq<Node>)
    requires RunOrderly(START, Visible(nodes))
    ensures RunOk(START, nodes)
  {
    hide Visible;
    OrderlyOk(START, Visible(nodes));
    VisibleRun(START, nodes);
  }

  /** The messages of the stream, from the empty one. */
  function Messages(runs: seq<seq<Node>>): (r: seq<Msg>)
    requires Partials(runs)
    ensures |r| == |runs| + 1
    decreases |runs|
  {
    if runs == [] then [EMPTY]
    else
      VisibleOk(Last(runs));
      Messages(Init(runs)) + [MessageOf(Last(runs))]
  }

  lemma {:induction false} PartialsGrow(runs: seq<seq<Node>>)
    requires Partials(runs)
    ensures Growing(Messages(runs))
    ensures runs != [] ==> RunOk(START, Last(runs)) && Last(Messages(runs)) == MessageOf(Last(runs))
    decreases |runs|
  {
    hide Grows, Cut, RunOrderly, RunOk, MessageOf, Visible;
    if runs != [] {
      VisibleOk(Last(runs));
      var shorter := Messages(Init(runs));
      PartialsGrow(Init(runs));
      assert Init(Messages(runs)) == shorter;
      if |runs| > 1 {
        CutMessage(Last(Init(runs)), Last(runs));
      } else {
        FromNothing(MessageOf(Last(runs)));
      }
    }
  }

  lemma FromNothing(m: Msg)
    ensures Grows(EMPTY, m)
  {
  }

  /**
   The pipeline end to end: whatever is parsed at each moment, the deltas of the stamped messages are
   computed without an error, and a client that applies them ends with the message of the final parse.
   */
  lemma PipelineDelivers(runs: seq<seq<Node>>, gens: seq<nat -> string>)
    requires Partials(runs) && runs != [] && |gens| == |runs| + 1
    ensures RunOk(START, Last(runs))
    ensures
      var sent := Sent(Stamped(Messages(runs), gens));
      sent.Ok? && Fold(EMPTY, sent.value) == Stamp(MessageOf(Last(runs)), Caches(Messages(runs), gens))
  {
    hide Partials, Growing, Sent, Fold, MessageOf, Stamp, Caches, RunOk;
    PartialsGrow(runs);
    StampedStream(Messages(runs), gens);
    StreamDelivers(Stamped(Messages(runs), gens));
  }

  // ---- the events of whole messages are in order ----

  /** An object that comes whole continues what is written of the arguments. */
  predicate ArgsGrow(a: Args, nodes: seq<Node>)
    requires ArgRunOk(a, nodes)
    decreases |nodes|
  {
    nodes != [] ==>
      && (nodes[0].tag.ToolArgs? && Opens(nodes[0].text) ==> a.text <= TrimEnd(nodes[0].text))
      && ArgsGrow(ArgStep(a, nodes[0]), nodes[1..])
  }

  lemma ArgsGrowStep(a: Args, nodes: seq<Node>)
    requires nodes != [] && ArgRunOk(a, ArgEvents(nodes)) && ArgsGrow(a, ArgEvents(nodes))
    ensures
      var next := if ArgTag(nodes[0].tag) then ArgStep(a, nodes[0]) else a;
      ArgRunOk(next, ArgEvents(nodes[1..])) && ArgsGrow(next, ArgEvents(nodes[1..]))
    ensures nodes[0].tag.ToolArgs? && Opens(nodes[0].text) ==> a.text <= TrimEnd(nodes[0].text)
  {
    hide ArgStep, TrimEnd;
    if ArgTag(nodes[0].tag) {
      assert ArgEvents(nodes)[0] == nodes[0] && ArgEvents(nodes)[1..] == ArgEvents(nodes[1..]);
    } else {
      assert ArgEvents(nodes) == ArgEvents(nodes[1..]);
    }
  }

  lemma OrderlyMatches(b: Build, node: Node)
    requires Inside(node, b.name != "") && Usable(Concrete(b), node)
    requires node.tag.ToolArgs? && Opens(node.text) ==> b.args.text <= TrimEnd(node.text)
    ensures Orderly(Concrete(b), node)
  {
    TargetIs(b);
    hide TrimEnd;
  }

  lemma {:induction false} BodyOrderly(b: Build, nodes: seq<Node>)
    requires Body(nodes, b.name != "") && ArgRunOk(b.args, ArgEvents(nodes)) && ArgsGrow(b.args, ArgEvents(nodes))
    ensures RunOrderly(Concrete(b), nodes)
    decreases |nodes|
  {
    hide Step, BuildStep, TrimEnd, Concrete, ArgsGrow, ArgRunOk, ArgEvents, Orderly, Opens;
    if nodes != [] {
      BuiltStep(b, nodes);
      ArgsGrowStep(b.args, nodes);
      StepMatches(b, nodes[0]);
      OrderlyMatches(b, nodes[0]);
      NamedStep(b, nodes[0]);
      StepArgs(b, nodes[0]);
      BodyOrderly(BuildStep(b, nodes[0]), nodes[1..]);
    }
  }

  lemma StepArgs(b: Build, node: Node)
    ensures BuildStep(b, node).args == if ArgTag(node.tag) then ArgStep(b.args, node) else b.args
  {
    hide ArgStep;
  }

  lemma {:induction false} OrderlyAppend(st: State, xs: seq<Node>, ys: seq<Node>)
    requires Sound(st) && RunOrderly(st, xs) && RunOk(st, xs) && RunOrderly(Run(st, xs), ys)
    ensures RunOrderly(st, xs + ys)
    decreases |xs|
  {
    hide Step, Orderly;
    if xs == [] {
      assert xs + ys == ys;
    } else {
      assert (xs + ys)[0] == xs[0] && (xs + ys)[1..] == xs[1..] + ys;
      OrderlyAppend(Step(st, xs[0]), xs[1..], ys);
    }
  }

  lemma OrderlyOne(st: State, node: Node)
    requires Sound(st) && Orderly(st, node)
    ensures RunOrderly(st, [node])
  {
    hide Step, Orderly;
    assert [node][1..] == [];
  }

  lemma BodyCloses(b: Build, nodes: seq<Node>, close: string)
    requires Body(nodes, b.name != "") && ArgRunOk(b.args, ArgEvents(nodes)) && ArgsGrow(b.args, ArgEvents(nodes))
    ensures RunOrderly(Concrete(b), nodes + [Node(ToolClose, close)])
  {
    hide Step, Body, ArgRun, ArgRunOk, ArgEvents, ArgsGrow, Texts, Run, RunOk;
    BodyOrderly(b, nodes);
    BodyRun(b, nodes);
    OrderlyOne(Concrete(Built(b, nodes)), Node(ToolClose, close));
    OrderlyAppend(Concrete(b), nodes, [Node(ToolClose, close)]);
  }

  /** The visible events of a call are in order, so its partial parses are covered by the stream theorem. */
  lemma CallOrderly(st: State, open: string, body: seq<Node>, close: string)
    requires Sound(st) && Body(body, false)
    requires ArgRunOk(NO_ARGS, ArgEvents(Visible(body))) && ArgsGrow(NO_ARGS, ArgEvents(Visible(body)))
    ensures RunOrderly(st, Visible(CallNodes(open, body, close)))
  {
    hide Body, Visible, ArgEvents, ArgRunOk, ArgsGrow, Concrete;
    VisibleParts(body, false, "", "");
    VisibleCall(open, body, close);
    OpenMatches(st, "");
    BodyCloses(Build(st.reasoning, st.content, st.calls, "", "", NO_ARGS), Visible(body), "");
    var nodes := CallNodes("", Visible(body), "");
    assert nodes[0] == Node(ToolOpen, "") && nodes[1..] == Visible(body) + [Node(ToolClose, "")];
  }

  lemma {:induction false} PiecesGrow(a: Args, nodes: seq<Node>)
    requires ArgRunOk(a, nodes) && forall i :: 0 <= i < |nodes| ==> !nodes[i].tag.ToolArgs?
    ensures ArgsGrow(a, nodes)
    decreases |nodes|
  {
    hide ArgStep;
    if nodes != [] {
      PiecesGrow(ArgStep(a, nodes[0]), nodes[1..]);
    }
  }

  lemma {:induction false} ArgsArePieces(args: seq<Arg>)
    ensures forall i :: 0 <= i < |ArgsNodes(args)| ==> !ArgsNodes(args)[i].tag.ToolArgs?
    decreases |args|
  {
    hide ArgNodes;
    if args != [] {
      ArgsArePieces(Init(args));
      ArgIsPieces(Last(args));
    }
  }

  lemma ArgIsPieces(arg: Arg)
    ensures forall i :: 0 <= i < |ArgNodes(arg)| ==> !ArgNodes(arg)[i].tag.ToolArgs?
  {
    if arg.value.Text? {
      TextIsPieces(arg.value.chunks);
    }
  }

  lemma {:induction false} TextIsPieces(chunks: seq<string>)
    ensures forall i :: 0 <= i < |TextNodes(chunks)| ==> TextNodes(chunks)[i].tag.ArgStringValue?
    decreases |chunks|
  {
    if chunks != [] {
      TextIsPieces(Init(chunks));
    }
  }

  lemma ValidCallOrderly(st: State, c: CallEvents)
    requires Sound(st) && ValidCall(c)
    ensures RunOrderly(st, Visible(CallNodes(c.open, c.body, c.close)))
  {
    ArgsRun(c.args);
    ArgsArePieces(c.args);
    PiecesGrow(NO_ARGS, ArgsNodes(c.args));
    hide Body, Visible, ArgEvents, ArgRunOk, ArgsGrow, ArgsNodes;
    CallOrderly(st, c.open, c.body, c.close);
  }

  lemma {:induction false} NeutralOrderly(st: State, nodes: seq<Node>)
    requires Sound(st) && Neutral(nodes)
    ensures RunOrderly(st, Visible(nodes))
    decreases |nodes|
  {
    hide Visible;
    if nodes == [] {
      NothingVisible();
    } else {
      NeutralOrderly(Step(st, nodes[0]), nodes[1..]);
      VisibleFirst(nodes);
      var visible := [Seen(nodes[0])] + Visible(nodes[1..]);
      assert visible[0] == Seen(nodes[0]) && visible[1..] == Visible(nodes[1..]);
    }
  }

  lemma VisibleJoin(st: State, xs: seq<Node>, ys: seq<Node>)
    requires Sound(st) && RunOk(st, xs) && RunOrderly(st, Visible(xs)) && RunOrderly(Run(st, xs), Visible(ys))
    ensures RunOrderly(st, Visible(xs + ys))
  {
    hide Visible;
    VisibleRun(st, xs);
    VisibleAppend(xs, ys);
    OrderlyAppend(st, Visible(xs), Visible(ys));
  }

  lemma OneCallOrderly(st: State, c: CallEvents)
    requires Sound(st) && st.pending == None && ValidCall(c)
    ensures RunOrderly(st, Visible(c.before + CallNodes(c.open, c.body, c.close)))
  {
    hide Body, Visible, ArgEvents, ArgsNodes, ValidArgs, CallNodes, RunOrderly, Run, RunOk;
    NeutralRun(st, c.before);
    NeutralOrderly(st, c.before);
    ValidCallOrderly(Run(st, c.before), c);
    VisibleJoin(st, c.before, CallNodes(c.open, c.body, c.close));
  }

  lemma {:induction false} CallsOrderly(calls: seq<CallEvents>)
    requires forall i :: 0 <= i < |calls| ==> ValidCall(calls[i])
    ensures RunOrderly(START, Visible(MessageNodes(calls)))
    decreases |calls|
  {
    hide Visible, ValidCall, CallNodes, Run, RunOk;
    if calls == [] {
      NothingVisible();
    } else {
      var c := Last(calls);
      CallsOrderly(Init(calls));
      CallsRun(Init(calls));
      OneCallOrderly(Run(START, MessageNodes(Init(calls))), c);
      hide RunOrderly;
      VisibleJoin(START, MessageNodes(Init(calls)), c.before + CallNodes(c.open, c.body, c.close));
    }
  }

  /** Every message of tagged calls, with reasoning and content anywhere, is covered by the stream theorem. */
  lemma MessageOrderly(calls: seq<CallEvents>, after: seq<Node>)
    requires (forall i :: 0 <= i < |calls| ==> ValidCall(calls[i])) && Neutral(after)
    ensures RunOrderly(START, Visible(MessageNodes(calls) + after))
  {
    hide Visible, ValidCall, MessageNodes, Run, RunOk, RunOrderly;
    CallsRun(calls);
    CallsOrderly(calls);
    NeutralOrderly(Run(START, MessageNodes(calls)), after);
    VisibleJoin(START, MessageNodes(calls), after);
  }
}
