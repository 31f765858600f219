/**
 From parse trees to streams: the tree of a shorter text is a cut of the tree of the longer one, every node
 on its last-child spine with less text, and the visible events of the two differ in the last one at most.
 Models visit of common/peg-parser.cpp and the partial nodes that its rules and tags make.
 */
module ChatTrees {
  import opened Common
  import opened ChatDiff
  import opened ToolCallMapper
  import opened ToolCallProofs
  import opened ChatStream

  /** A node of the tree; rules and tags without a meaning for the mapper have the tag OtherTag. */
  datatype Ast = Ast(node: Node, children: seq<Ast>)

  /** The nodes in the order of the visit, each before its children. */
  function Events(t: Ast): seq<Node>
    decreases t, 0
  {
    [t.node] + AllEvents(t.children)
  }

  function AllEvents(ts: seq<Ast>): seq<Node>
    decreases ts
  {
    if ts == [] then [] else Events(ts[0]) + AllEvents(ts[1..])
  }

  // ---- the tree of a shorter text ----

  /** Only the text of the node counts, and all of it. */
  predicate Shows(node: Node) {
    !Ignored(node) && Seen(node) == node
  }

  /** A node whose text counts holds no other event that does: its rules only read the text. */
  predicate Leafy(t: Ast)
    decreases t, 0
  {
    (Shows(t.node) ==> Visible(AllEvents(t.children)) == []) && AllLeafy(t.children)
  }

  predicate AllLeafy(ts: seq<Ast>)
    decreases ts
  {
    ts != [] ==> Leafy(ts[0]) && AllLeafy(ts[1..])
  }

  /** Every node of `s` is there in `t`; those open at the end of the shorter text have grown. */
  predicate Part(s: Ast, t: Ast)
    decreases s, 0
  {
    s == t || (s.node.tag == t.node.tag && s.node.text <= t.node.text && PartOfAll(s.children, t.children))
  }

  /** The first of the children, the last of them perhaps open. */
  predicate PartOfAll(ss: seq<Ast>, ts: seq<Ast>)
    decreases ss
  {
    || ss == []
    || (ts != [] && ss[0] == ts[0] && PartOfAll(ss[1..], ts[1..]))
    || (ts != [] && |ss| == 1 && Part(ss[0], ts[0]))
  }

  // ---- what it shows ----

  /** The first of the events, the last of them perhaps with less text. */
  predicate Shortened(xs: seq<Node>, ys: seq<Node>) {
    && |xs| <= |ys|
    && (forall i :: 0 <= i < |xs| - 1 ==> xs[i] == ys[i])
    && (xs != [] ==> xs[|xs| - 1].tag == ys[|xs| - 1].tag && xs[|xs| - 1].text <= ys[|xs| - 1].text)
  }

  lemma ShortenedAfter(p: seq<Node>, xs: seq<Node>, ys: seq<Node>)
    requires Shortened(xs, ys)
    ensures Shortened(p + xs, p + ys)
  {
  }

  lemma ShortenedBefore(xs: seq<Node>, ys: seq<Node>, q: seq<Node>)
    requires Shortened(xs, ys)
    ensures Shortened(xs, ys + q)
  {
  }

  lemma ShortenedSelf(xs: seq<Node>)
    ensures Shortened(xs, xs)
  {
  }

  lemma VisibleEvents(t: Ast)
    ensures Visible(Events(t)) == Visible([t.node]) + Visible(AllEvents(t.children))
  {
    hide Visible, AllEvents;
    VisibleAppend([t.node], AllEvents(t.children));
  }

  lemma VisibleAll(ts: seq<Ast>)
    requires ts != []
    ensures Visible(AllEvents(ts)) == Visible(Events(ts[0])) + Visible(AllEvents(ts[1..]))
  {
    hide Visible, Events;
    VisibleAppend(Events(ts[0]), AllEvents(ts[1..]));
  }

  /** An open node is seen like the grown one, or it shows text, or it is not seen yet. */
  lemma OpenNode(m: Node, n: Node)
    requires m.tag == n.tag && m.text <= n.text
    ensures !Shows(n) ==> Visible([m]) == Visible([n])
    ensures Shows(n) ==> Visible([n]) == [n] && (Visible([m]) == [] || Visible([m]) == [m])
  {
    VisibleOne(m);
    VisibleOne(n);
    TrimMonotone(m.text, n.text);
    hide TrimEnd, Visible;
  }

  /** The visible events of the tree of a shorter text are those of the longer one, cut in the last. */
  lemma {:induction false} PartShortened(s: Ast, t: Ast)
    requires Part(s, t) && Leafy(t)
    ensures Shortened(Visible(Events(s)), Visible(Events(t)))
    decreases s, 0
  {
    hide Visible, Events, AllEvents, Shortened, Shows;
    if s == t {
      ShortenedSelf(Visible(Events(s)));
    } else {
      PartsShortened(s.children, t.children);
      VisibleEvents(s);
      VisibleEvents(t);
      OpenNode(s.node, t.node);
      if Shows(t.node) {
        NothingShort(Visible(AllEvents(s.children)));
        LeafShortened(s.node, t.node, Visible([s.node]), Visible(AllEvents(s.children)));
        assert [t.node] + [] == [t.node];
      } else {
        ShortenedAfter(Visible([t.node]), Visible(AllEvents(s.children)), Visible(AllEvents(t.children)));
      }
    }
  }

  lemma NothingShort(xs: seq<Node>)
    ensures Shortened(xs, []) ==> xs == []
  {
  }

  lemma LeafShortened(m: Node, n: Node, seen: seq<Node>, below: seq<Node>)
    requires m.tag == n.tag && m.text <= n.text && (seen == [] || seen == [m]) && below == []
    ensures Shortened(seen + below, [n])
  {
  }

  lemma {:induction false} PartsShortened(ss: seq<Ast>, ts: seq<Ast>)
    requires PartOfAll(ss, ts) && AllLeafy(ts)
    ensures Shortened(Visible(AllEvents(ss)), Visible(AllEvents(ts)))
    decreases ss, 1
  {
    hide Visible, Events, Shortened, Leafy;
    if ss == [] {
      NothingVisible();
      NoneShortened(Visible(AllEvents(ts)));
    } else {
      VisibleAll(ss);
      VisibleAll(ts);
      if ss[0] == ts[0] && PartOfAll(ss[1..], ts[1..]) {
        PartsShortened(ss[1..], ts[1..]);
        ShortenedAfter(Visible(Events(ss[0])), Visible(AllEvents(ss[1..])), Visible(AllEvents(ts[1..])));
      } else {
        PartShortened(ss[0], ts[0]);
        NothingVisible();
        assert ss[1..] == [];
        ShortenedBefore(Visible(Events(ss[0])), Visible(Events(ts[0])), Visible(AllEvents(ts[1..])));
        assert Visible(Events(ss[0])) + [] == Visible(Events(ss[0]));
      }
    }
  }

  lemma NoneShortened(ys: seq<Node>)
    ensures Shortened([], ys)
  {
  }

  // ---- which of them the stream may show ----

  /** The last event may be shown where it is cut. */
  predicate LastCut(st: State, xs: seq<Node>, ys: seq<Node>)
    requires Sound(st) && RunOrderly(st, ys)
  {
    xs <= ys ||
    (0 < |xs| <= |ys| && RunOk(st, ys[..|xs| - 1]) && CutNode(Run(st, ys[..|xs| - 1]), Last(xs), ys[|xs| - 1]))
  }

  lemma RunFirst(st: State, nodes: seq<Node>)
    requires Sound(st) && nodes != []
    ensures RunOk(st, nodes) <==> Usable(st, nodes[0]) && RunOk(Step(st, nodes[0]), nodes[1..])
    ensures RunOk(st, nodes) ==> Run(st, nodes) == Run(Step(st, nodes[0]), nodes[1..])
  {
    hide Step, Usable;
  }

  lemma LastCutFirst(st: State, xs: seq<Node>, ys: seq<Node>)
    requires Sound(st) && RunOrderly(st, ys) && |ys| >= |xs| > 1 && xs[0] == ys[0]
    ensures LastCut(st, xs, ys) <==> LastCut(Step(st, ys[0]), xs[1..], ys[1..])
  {
    hide Step, CutNode, Run, RunOk, Usable;
    var xt, yt, before := xs[1..], ys[1..], ys[..|xs| - 1];
    assert before[0] == ys[0] && before[1..] == yt[..|xt| - 1];
    RunFirst(st, before);
    PrefixFirst(xs, ys);
    assert Last(xs) == Last(xt) && ys[|xs| - 1] == yt[|xt| - 1];
  }

  lemma PrefixFirst(xs: seq<Node>, ys: seq<Node>)
    requires xs != [] && ys != [] && xs[0] == ys[0]
    ensures xs <= ys <==> xs[1..] <= ys[1..]
  {
    assert xs == [xs[0]] + xs[1..] && ys == [ys[0]] + ys[1..];
  }

  lemma CutFirst(st: State, xs: seq<Node>, ys: seq<Node>)
    requires Sound(st) && RunOrderly(st, ys) && |ys| >= |xs| > 1 && xs[0] == ys[0]
    ensures Cut(st, xs, ys) <==> Cut(Step(st, ys[0]), xs[1..], ys[1..])
  {
    hide Step, CutNode, Usable;
  }

  lemma CutOne(st: State, xs: seq<Node>, ys: seq<Node>)
    requires Sound(st) && RunOrderly(st, ys) && ys != [] && |xs| == 1
    ensures Cut(st, xs, ys) <==> LastCut(st, xs, ys)
  {
    hide Step, CutNode, Orderly;
    assert xs[1..] == [] && ys[..0] == [];
  }

  /** Shortened events are a cut exactly when the last of them may be shown where it is cut. */
  lemma {:induction false} ShortenedCut(st: State, xs: seq<Node>, ys: seq<Node>)
    requires Sound(st) && RunOrderly(st, ys) && Shortened(xs, ys)
    ensures Cut(st, xs, ys) <==> LastCut(st, xs, ys)
    decreases |xs|
  {
    hide Step, CutNode, Run, RunOk, Usable;
    if |xs| == 1 {
      hide LastCut, Cut;
      CutOne(st, xs, ys);
    } else if |xs| > 1 {
      assert xs[0] == ys[0] && Usable(st, ys[0]);
      ShortenedCut(Step(st, ys[0]), xs[1..], ys[1..]);
      hide LastCut, Cut;
      CutFirst(st, xs, ys);
      LastCutFirst(st, xs, ys);
    }
  }

  // ---- streams of parses ----

  /** Successive partial parses, each grown from the one before, the last shown event cut where it may be. */
  predicate Growths(parses: seq<seq<Ast>>)
    decreases |parses|
  {
    parses != [] ==>
      var t := Last(parses);
      && AllLeafy(t) && RunOrderly(START, Visible(AllEvents(t))) && Growths(Init(parses))
      && (|parses| > 1 ==>
            var s := Last(Init(parses));
            PartOfAll(s, t) && LastCut(START, Visible(AllEvents(s)), Visible(AllEvents(t))))
  }

  function Runs(parses: seq<seq<Ast>>): (r: seq<seq<Node>>)
    ensures |r| == |parses|
  {
    seq(|parses|, i requires 0 <= i < |parses| => AllEvents(parses[i]))
  }

  lemma RunsInit(parses: seq<seq<Ast>>)
    requires parses != []
    ensures Runs(parses) != [] && Init(Runs(parses)) == Runs(Init(parses))
    ensures Last(Runs(parses)) == AllEvents(Last(parses))
  {
    hide AllEvents;
  }

  lemma {:induction false} GrowthsPartials(parses: seq<seq<Ast>>)
    requires Growths(parses)
    ensures Partials(Runs(parses))
    decreases |parses|
  {
    hide AllEvents, Visible, AllLeafy, PartOfAll, LastCut, RunOrderly, Cut, Runs;
    if parses != [] {
      GrowthsPartials(Init(parses));
      RunsInit(parses);
      if |parses| > 1 {
        var s, t := Last(Init(parses)), Last(parses);
        RunsInit(Init(parses));
        PartsShortened(s, t);
        ShortenedCut(START, Visible(AllEvents(s)), Visible(AllEvents(t)));
      }
    }
  }

  /** The deltas of growing parses are all accepted and add up to the message of the last parse. */
  lemma TreesDeliver(parses: seq<seq<Ast>>, gens: seq<nat -> string>)
    requires Growths(parses) && parses != [] && |gens| == |parses| + 1
    ensures Partials(Runs(parses)) && RunOk(START, AllEvents(Last(parses)))
    ensures
      var messages := Messages(Runs(parses));
      var sent := Sent(Stamped(messages, gens));
      sent.Ok? && Fold(EMPTY, sent.value) == Stamp(MessageOf(AllEvents(Last(parses))), Caches(messages, gens))
  {
    hide AllEvents, Growths, Partials, Runs, RunOk, MessageOf, Sent, Stamped, Fold, Stamp, Caches;
    GrowthsPartials(parses);
    RunsInit(parses);
    PipelineDelivers(Runs(parses), gens);
  }
}
