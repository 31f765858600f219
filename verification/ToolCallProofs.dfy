/**
 What the tool-call state machine builds: after the events of a call, with its name at any point, the stored
 arguments are exactly the JSON object of its members.
 */
module ToolCallProofs {
  import opened Common
  import opened JsonText
  import Quotes = QuoteNormalizer
  import opened ChatDiff
  import opened ToolCallMapper

  // ---- one text, wherever the call is kept ----

  /** The argument text being built, apart from where it is kept. */
  datatype Args = Args(text: string, count: nat, quote: bool)

  /** A message with one call in progress. */
  datatype Build = Build(reasoning: string, content: string, calls: seq<ToolCall>, name: string, id: string, args: Args)

  /** Before the name is known the call is pending and its text is in the buffer; afterwards both are in the result. */
  function Concrete(b: Build): (st: State)
    ensures Sound(st) && HasCurrent(st)
  {
    if b.name == "" then
      var call := ToolCall("", "", b.id);
      State(b.reasoning, b.content, b.calls, Some(call), Pending, b.args.count, b.args.quote, b.args.text)
    else
      var call := ToolCall(b.name, if b.args.text == "" then "{" else b.args.text, b.id);
      State(b.reasoning, b.content, b.calls + [call], None, Stored(|b.calls|), b.args.count, b.args.quote, "")
  }

  predicate ArgTag(tag: Tag) {
    tag.ToolArgs? || tag.ArgOpen? || tag.ArgClose? || tag.ArgName? || tag.ArgValue? || tag.ArgStringValue?
  }

  function ArgStep(a: Args, node: Node): Args
    requires ArgTag(node.tag)
  {
    match node.tag
    case ToolArgs => if Opens(node.text) then a.(text := TrimEnd(node.text)) else a
    case ArgOpen => a.(quote := false)
    case ArgName =>
      var open := if a.text == "" then "{" else a.text;
      Args(open + (if a.count > 0 then "," else "") + Quote(TrimKey(node.text)) + ":", a.count + 1, a.quote)
    case ArgClose => if a.quote then Args(a.text + "\"", a.count, false) else a
    case _ =>
      var (piece, quote) := ValuePiece(node.tag, node.text, a.quote);
      Args(a.text + piece, a.count, quote)
  }

  /** A value, or the end of one, comes after an argument name. */
  predicate ArgOk(a: Args, node: Node) {
    ArgTag(node.tag) && (node.tag.ArgValue? || node.tag.ArgStringValue? || node.tag.ArgClose? ==> a.text != "")
  }

  function BuildStep(b: Build, node: Node): Build {
    if ArgTag(node.tag) then b.(args := ArgStep(b.args, node))
    else match node.tag
      case Reasoning => b.(reasoning := b.reasoning + node.text)
      case Content => b.(content := b.content + node.text)
      case ToolId => b.(id := CleanId(node.text))
      case ToolName => b.(name := TrimEnd(node.text))
      case _ => b
  }

  /** An event inside a call: a name comes once and is not blank. */
  predicate Inside(node: Node, named: bool) {
    && !node.tag.ToolOpen? && !node.tag.ToolClose?
    && (node.tag.ToolName? ==> !named && TrimEnd(node.text) != "")
  }

  lemma NameMatches(b: Build, text: string)
    requires b.name == "" && TrimEnd(text) != ""
    ensures NameStep(Concrete(b), text) == Concrete(b.(name := TrimEnd(text)))
  {
    hide TrimEnd;
  }

  lemma TargetMatches(b: Build, text: string)
    requires text != ""
    ensures SetTarget(Concrete(b), text) == Concrete(b.(args := b.args.(text := text)))
  {
    var st := Concrete(b);
    if b.name != "" {
      var call := Current(st).(arguments := text);
      assert (b.calls + [Current(st)])[|b.calls| := call] == b.calls + [call];
    }
  }

  lemma TargetIs(b: Build)
    ensures b.args.text != "" ==> Target(Concrete(b)) == b.args.text
    ensures b.args.text == "" ==> Target(Concrete(b)) == "" || Target(Concrete(b)) == "{"
  {
  }

  /** The machine, with its buffer and its pending call, moves in step with the single text. */
  lemma ArgMatches(b: Build, node: Node)
    requires ArgOk(b.args, node)
    ensures Step(Concrete(b), node) == Concrete(BuildStep(b, node))
  {
    hide Quote, TrimKey, TrimEnd, ValuePiece, Target, SetTarget;
    var a := ArgStep(b.args, node);
    TargetIs(b);
    if a.text != "" {
      TargetMatches(b, a.text);
    }
  }

  lemma StepMatches(b: Build, node: Node)
    requires Inside(node, b.name != "") && (ArgTag(node.tag) ==> ArgOk(b.args, node))
    ensures Usable(Concrete(b), node)
    ensures Step(Concrete(b), node) == Concrete(BuildStep(b, node))
  {
    if ArgTag(node.tag) {
      ArgMatches(b, node);
    } else if node.tag.ToolName? {
      NameMatches(b, node.text);
    } else if node.tag.ToolId? && b.name != "" {
      hide CleanId;
      var st := Concrete(b);
      var call := Current(st).(id := CleanId(node.text));
      assert (b.calls + [Current(st)])[|b.calls| := call] == b.calls + [call];
    }
  }

  // ---- the events of a call ----

  predicate Body(nodes: seq<Node>, named: bool)
    decreases |nodes|
  {
    nodes == [] || (Inside(nodes[0], named) && Body(nodes[1..], named || nodes[0].tag.ToolName?))
  }

  /** The events that build the arguments, in order. */
  function ArgEvents(nodes: seq<Node>): seq<Node> {
    if nodes == [] then [] else (if ArgTag(nodes[0].tag) then [nodes[0]] else []) + ArgEvents(nodes[1..])
  }

  /** The texts of the events with a tag, put together. */
  function Texts(nodes: seq<Node>, tag: Tag): string {
    if nodes == [] then "" else (if nodes[0].tag == tag then nodes[0].text else "") + Texts(nodes[1..], tag)
  }

  /** The trimmed text of the name event, or the given text if there is none. */
  function NameIn(nodes: seq<Node>, name: string): string
    decreases |nodes|
  {
    if nodes == [] then name
    else NameIn(nodes[1..], if nodes[0].tag.ToolName? then TrimEnd(nodes[0].text) else name)
  }

  /** The id of the last id event, without its quotes. */
  function IdIn(nodes: seq<Node>, id: string): string
    decreases |nodes|
  {
    if nodes == [] then id
    else IdIn(nodes[1..], if nodes[0].tag.ToolId? then CleanId(nodes[0].text) else id)
  }

  predicate ArgRunOk(a: Args, nodes: seq<Node>)
    decreases |nodes|
  {
    nodes == [] || (ArgOk(a, nodes[0]) && ArgRunOk(ArgStep(a, nodes[0]), nodes[1..]))
  }

  function ArgRun(a: Args, nodes: seq<Node>): Args
    requires ArgRunOk(a, nodes)
    decreases |nodes|
  {
    if nodes == [] then a else ArgRun(ArgStep(a, nodes[0]), nodes[1..])
  }

  function Built(b: Build, nodes: seq<Node>): Build
    requires ArgRunOk(b.args, ArgEvents(nodes))
  {
    Build(b.reasoning + Texts(nodes, Reasoning), b.content + Texts(nodes, Content), b.calls,
          NameIn(nodes, b.name), IdIn(nodes, b.id), ArgRun(b.args, ArgEvents(nodes)))
  }

  lemma TextsStep(text: string, nodes: seq<Node>, tag: Tag)
    requires nodes != []
    ensures text + Texts(nodes, tag)
      == (text + if nodes[0].tag == tag then nodes[0].text else "") + Texts(nodes[1..], tag)
  {
  }

  lemma ArgEventsStep(a: Args, nodes: seq<Node>)
    requires nodes != [] && ArgRunOk(a, ArgEvents(nodes))
    ensures ArgTag(nodes[0].tag) ==> ArgOk(a, nodes[0])
    ensures
      var next := if ArgTag(nodes[0].tag) then ArgStep(a, nodes[0]) else a;
      && ArgRunOk(next, ArgEvents(nodes[1..]))
      && ArgRun(next, ArgEvents(nodes[1..])) == ArgRun(a, ArgEvents(nodes))
  {
    hide ArgStep;
    if ArgTag(nodes[0].tag) {
      assert ArgEvents(nodes)[0] == nodes[0] && ArgEvents(nodes)[1..] == ArgEvents(nodes[1..]);
    } else {
      assert ArgEvents(nodes) == ArgEvents(nodes[1..]);
    }
  }

  lemma BuiltStep(b: Build, nodes: seq<Node>)
    requires nodes != [] && ArgRunOk(b.args, ArgEvents(nodes))
    ensures ArgTag(nodes[0].tag) ==> ArgOk(b.args, nodes[0])
    ensures ArgRunOk(BuildStep(b, nodes[0]).args, ArgEvents(nodes[1..]))
    ensures Built(b, nodes) == Built(BuildStep(b, nodes[0]), nodes[1..])
  {
    hide TrimEnd, CleanId, ArgStep, ArgOk, ArgRun, ArgRunOk, ArgEvents, Texts;
    ArgEventsStep(b.args, nodes);
    TextsStep(b.reasoning, nodes, Reasoning);
    TextsStep(b.content, nodes, Content);
    assert b.reasoning + "" == b.reasoning && b.content + "" == b.content;
  }

  /** Argument events may be interleaved with the name, ids, reasoning and content in any order. */
  lemma {:induction false} BodyRun(b: Build, nodes: seq<Node>)
    requires Body(nodes, b.name != "") && ArgRunOk(b.args, ArgEvents(nodes))
    ensures RunOk(Concrete(b), nodes)
    ensures Run(Concrete(b), nodes) == Concrete(Built(b, nodes))
    decreases |nodes|
  {
    hide Step, Concrete, BuildStep;
    if nodes == [] {
      assert b.reasoning + "" == b.reasoning && b.content + "" == b.content;
    } else {
      BuiltStep(b, nodes);
      StepMatches(b, nodes[0]);
      NamedStep(b, nodes[0]);
      BodyRun(BuildStep(b, nodes[0]), nodes[1..]);
    }
  }

  lemma NamedStep(b: Build, node: Node)
    requires Inside(node, b.name != "")
    ensures BuildStep(b, node).name != "" <==> b.name != "" || node.tag.ToolName?
  {
  }

  lemma {:induction false} RunAppend(st: State, xs: seq<Node>, ys: seq<Node>)
    requires Sound(st) && RunOk(st, xs) && RunOk(Run(st, xs), ys)
    ensures RunOk(st, xs + ys) && Run(st, xs + ys) == Run(Run(st, xs), ys)
    decreases |xs|
  {
    hide Step;
    if xs == [] {
      assert xs + ys == ys;
    } else {
      assert (xs + ys)[0] == xs[0] && (xs + ys)[1..] == xs[1..] + ys;
      RunAppend(Step(st, xs[0]), xs[1..], ys);
    }
  }

  // ---- the events that matter ----

  /** Enclosing nodes and rules say nothing, nor do arguments that are not a JSON object. */
  predicate Ignored(node: Node) {
    node.tag.OtherTag? || (node.tag.ToolArgs? && !Opens(node.text))
  }

  /** Of the markers only the kind matters. */
  function Seen(node: Node): Node {
    var tag := node.tag;
    if tag.ToolOpen? || tag.ToolClose? || tag.ArgOpen? || tag.ArgClose? then Node(tag, "") else node
  }

  /** The events the machine looks at, in what it looks at. */
  function Visible(nodes: seq<Node>): seq<Node> {
    if nodes == [] then [] else (if Ignored(nodes[0]) then [] else [Seen(nodes[0])]) + Visible(nodes[1..])
  }

  lemma IgnoredStep(st: State, node: Node)
    requires Sound(st) && Ignored(node)
    ensures Usable(st, node) && Step(st, node) == st
  {
    hide TrimEnd;
  }

  lemma SeenStep(st: State, node: Node)
    requires Sound(st)
    ensures Usable(st, node) <==> Usable(st, Seen(node))
    ensures Usable(st, node) ==> Step(st, node) == Step(st, Seen(node))
  {
  }

  lemma VisibleFirst(nodes: seq<Node>)
    requires nodes != []
    ensures Ignored(nodes[0]) ==> Visible(nodes) == Visible(nodes[1..])
    ensures !Ignored(nodes[0]) ==> Visible(nodes) == [Seen(nodes[0])] + Visible(nodes[1..])
  {
    hide Ignored, Seen;
  }

  /** The machine does with all events what it does with the visible ones. */
  lemma {:induction false} VisibleRun(st: State, nodes: seq<Node>)
    requires Sound(st)
    ensures RunOk(st, nodes) <==> RunOk(st, Visible(nodes))
    ensures RunOk(st, nodes) ==> Run(st, nodes) == Run(st, Visible(nodes))
    decreases |nodes|
  {
    hide Step, Usable, Ignored, Seen, Visible;
    if nodes == [] {
      NothingVisible();
    } else {
      var node, rest := nodes[0], nodes[1..];
      VisibleFirst(nodes);
      if Ignored(node) {
        IgnoredStep(st, node);
        VisibleRun(st, rest);
      } else {
        SeenStep(st, node);
        var visible := [Seen(node)] + Visible(rest);
        assert visible[0] == Seen(node) && visible[1..] == Visible(rest);
        if Usable(st, node) {
          VisibleRun(Step(st, node), rest);
        }
      }
    }
  }

  lemma NothingVisible()
    ensures Visible([]) == []
  {
  }

  lemma {:induction false} VisibleAppend(xs: seq<Node>, ys: seq<Node>)
    ensures Visible(xs + ys) == Visible(xs) + Visible(ys)
  {
    hide Ignored, Seen;
    if xs == [] {
      assert xs + ys == ys;
    } else {
      assert (xs + ys)[0] == xs[0] && (xs + ys)[1..] == xs[1..] + ys;
      VisibleAppend(xs[1..], ys);
    }
  }

  lemma VisibleOne(node: Node)
    ensures Visible([node]) == if Ignored(node) then [] else [Seen(node)]
  {
    hide Ignored, Seen;
    assert [node][1..] == [];
  }

  /** What else is read off the events is the same for the visible ones. */
  lemma {:induction false} VisibleParts(nodes: seq<Node>, named: bool, name: string, id: string)
    ensures Body(nodes, named) ==> Body(Visible(nodes), named)
    ensures NameIn(Visible(nodes), name) == NameIn(nodes, name) && IdIn(Visible(nodes), id) == IdIn(nodes, id)
    ensures Texts(Visible(nodes), Reasoning) == Texts(nodes, Reasoning)
    ensures Texts(Visible(nodes), Content) == Texts(nodes, Content)
    decreases |nodes|
  {
    hide TrimEnd, CleanId, Opens, Visible;
    if nodes == [] {
      NothingVisible();
    } else {
      VisibleFirst(nodes);
      var node, rest := nodes[0], nodes[1..];
      VisibleParts(rest, named || node.tag.ToolName?, if node.tag.ToolName? then TrimEnd(node.text) else name,
                   if node.tag.ToolId? then CleanId(node.text) else id);
      if !Ignored(node) {
        var visible := [Seen(node)] + Visible(rest);
        assert visible[0] == Seen(node) && visible[1..] == Visible(rest);
      }
    }
  }

  // ---- tagged arguments ----

  /** A string given in chunks, or JSON in Python's or JSON's quoting; with the event that ends it, or without. */
  datatype Value = Text(chunks: seq<string>, closed: bool) | Data(text: string, closed: bool)

  datatype Arg = Arg(key: string, value: Value, begun: bool)

  function TextNodes(chunks: seq<string>): (r: seq<Node>)
    ensures |r| == |chunks|
    decreases |chunks|
  {
    if chunks == [] then [] else TextNodes(Init(chunks)) + [Node(ArgStringValue, Last(chunks))]
  }

  function ValueNodes(v: Value): seq<Node> {
    (match v
     case Text(chunks, _) => TextNodes(chunks)
     case Data(text, _) => [Node(ArgValue, text)])
    + if v.closed then [Node(ArgClose, "")] else []
  }

  /** The visible events of one argument; the markers at its beginning and end may be missing. */
  function ArgNodes(arg: Arg): seq<Node> {
    (if arg.begun then [Node(ArgOpen, "")] else []) + [Node(ArgName, arg.key)] + ValueNodes(arg.value)
  }

  function ArgsNodes(args: seq<Arg>): seq<Node>
    decreases |args|
  {
    if args == [] then [] else ArgsNodes(Init(args)) + ArgNodes(Last(args))
  }

  /** A string has an event at least; other JSON is balanced. */
  predicate ValidValue(v: Value) {
    match v
    case Text(chunks, _) => chunks != []
    case Data(text, _) => Balanced(Quotes.Normalize(text))
  }

  /** The end of a string may be left to the end of the call. */
  predicate ValidArgs(args: seq<Arg>) {
    && (forall i :: 0 <= i < |args| ==> ValidValue(args[i].value))
    && (forall i :: 0 <= i < |args| - 1 ==> !Unclosed(args[i].value))
  }

  predicate Unclosed(v: Value) {
    v.Text? && !v.closed
  }

  /** The chunks of a string put together. */
  function Joined(chunks: seq<string>): string
    decreases |chunks|
  {
    if chunks == [] then "" else Joined(Init(chunks)) + Last(chunks)
  }

  function ValueText(v: Value): string {
    match v
    case Text(chunks, _) => Quote(Joined(chunks))
    case Data(text, _) => Quotes.Normalize(text)
  }

  function MemberText(arg: Arg): string {
    Quote(TrimKey(arg.key)) + ":" + ValueText(arg.value)
  }

  /** The members of the object, comma-joined. */
  function Members(args: seq<Arg>): string
    decreases |args|
  {
    if args == [] then ""
    else (if |args| == 1 then "" else Members(Init(args)) + ",") + MemberText(Last(args))
  }

  function Object(args: seq<Arg>): string {
    "{" + Members(args) + "}"
  }

  // ---- what is written for them ----

  /** What is written after the opening quote: an empty chunk after the first adds a quote. */
  function ChunksText(chunks: seq<string>): string
    decreases |chunks|
  {
    if chunks == [] then ""
    else ChunksText(Init(chunks)) + if |chunks| > 1 && Last(chunks) == "" then "\"" else Escape(Last(chunks))
  }

  function WrittenValue(v: Value): string {
    match v
    case Text(chunks, _) => "\"" + ChunksText(chunks) + "\""
    case Data(text, _) => Quotes.Normalize(text)
  }

  function WrittenMember(arg: Arg): string {
    Quote(TrimKey(arg.key)) + ":" + WrittenValue(arg.value)
  }

  function WrittenMembers(args: seq<Arg>): string
    decreases |args|
  {
    if args == [] then ""
    else (if |args| == 1 then "" else WrittenMembers(Init(args)) + ",") + WrittenMember(Last(args))
  }

  lemma {:induction false} ArgRunAppend(a: Args, xs: seq<Node>, ys: seq<Node>)
    requires ArgRunOk(a, xs) && ArgRunOk(ArgRun(a, xs), ys)
    ensures ArgRunOk(a, xs + ys) && ArgRun(a, xs + ys) == ArgRun(ArgRun(a, xs), ys)
    decreases |xs|
  {
    hide ArgStep;
    if xs == [] {
      assert xs + ys == ys;
    } else {
      assert (xs + ys)[0] == xs[0] && (xs + ys)[1..] == xs[1..] + ys;
      ArgRunAppend(ArgStep(a, xs[0]), xs[1..], ys);
    }
  }

  lemma ArgRunOne(a: Args, node: Node)
    requires ArgOk(a, node)
    ensures ArgRunOk(a, [node]) && ArgRun(a, [node]) == ArgStep(a, node)
  {
    hide ArgStep, ArgOk;
    assert [node][1..] == [];
  }

  lemma {:induction false} TextRun(a: Args, chunks: seq<string>)
    requires chunks != [] && a.text != "" && !a.quote
    ensures ArgRunOk(a, TextNodes(chunks))
    ensures ArgRun(a, TextNodes(chunks)) == Args(a.text + "\"" + ChunksText(chunks), a.count, true)
    decreases |chunks|
  {
    hide Escape, ArgRun, ArgRunOk;
    var node := Node(ArgStringValue, Last(chunks));
    EscapeNothing();
    if |chunks| == 1 {
      assert Init(chunks) == [] && TextNodes(chunks) == [node];
      assert ChunksText(chunks) == Escape(Last(chunks));
      ArgRunOne(a, node);
      assert ArgStep(a, node).text == a.text + ("\"" + Escape(Last(chunks)));
    } else {
      var before := Args(a.text + "\"" + ChunksText(Init(chunks)), a.count, true);
      TextRun(a, Init(chunks));
      ArgRunOne(before, node);
      ArgRunAppend(a, TextNodes(Init(chunks)), [node]);
      var piece := if Last(chunks) == "" then "\"" else Escape(Last(chunks));
      assert "" + piece == piece && ArgStep(before, node).text == before.text + piece;
    }
  }

  /** The text with the closing quote that is still owed. */
  function Sealed(a: Args): string {
    a.text + if a.quote then "\"" else ""
  }

  lemma ValueRun(a: Args, v: Value)
    requires ValidValue(v) && a.text != "" && !a.quote
    ensures ArgRunOk(a, ValueNodes(v))
    ensures
      var r := ArgRun(a, ValueNodes(v));
      Sealed(r) == a.text + WrittenValue(v) && r.text != "" && r.count == a.count && r.quote == Unclosed(v)
  {
    hide Escape, ArgRun, ArgRunOk, Quotes.Normalize;
    var close := Node(ArgClose, "");
    match v
    case Text(chunks, closed) =>
      TextRun(a, chunks);
      var open := Args(a.text + "\"" + ChunksText(chunks), a.count, true);
      if closed {
        ArgRunOne(open, close);
        ArgRunAppend(a, TextNodes(chunks), [close]);
      } else {
        assert ValueNodes(v) == TextNodes(chunks);
      }
      assert open.text + "\"" == a.text + WrittenValue(v);
    case Data(text, closed) =>
      var node := Node(ArgValue, text);
      ArgRunOne(a, node);
      if closed {
        ArgRunOne(ArgStep(a, node), close);
        ArgRunAppend(a, [node], [close]);
      } else {
        assert ValueNodes(v) == [node];
      }
  }

  lemma ArgNameRun(a: Args, key: string)
    requires !a.quote
    ensures ArgRunOk(a, [Node(ArgName, key)])
    ensures
      var r := ArgRun(a, [Node(ArgName, key)]);
      r == Args((if a.text == "" then "{" else a.text) + (if a.count > 0 then "," else "") + Quote(TrimKey(key)) + ":",
                a.count + 1, false)
  {
    hide ArgRun, ArgRunOk, Quote, TrimKey;
    ArgRunOne(a, Node(ArgName, key));
  }

  lemma EntryText(open: string, key: string, value: string)
    ensures open + key + ":" + value == open + (key + ":" + value)
  {
  }

  lemma OneArg(a: Args, arg: Arg)
    requires ValidValue(arg.value) && !a.quote
    ensures ArgRunOk(a, ArgNodes(arg))
    ensures
      var r := ArgRun(a, ArgNodes(arg));
      && Sealed(r) == (if a.text == "" then "{" else a.text) + (if a.count > 0 then "," else "") + WrittenMember(arg)
      && r.text != "" && r.count == a.count + 1 && r.quote == Unclosed(arg.value)
  {
    hide ArgRun, ArgRunOk, Quote, TrimKey, WrittenValue, ValueNodes, ValidValue, ArgNodes, Quotes.Normalize, Sealed;
    var name := [Node(ArgName, arg.key)];
    ArgNameRun(a, arg.key);
    var named := ArgRun(a, name);
    ValueRun(named, arg.value);
    ArgRunAppend(a, name, ValueNodes(arg.value));
    var open := (if a.text == "" then "{" else a.text) + (if a.count > 0 then "," else "");
    EntryText(open, Quote(TrimKey(arg.key)), WrittenValue(arg.value));
    OpenMarker(a, arg);
  }

  lemma OpenMarker(a: Args, arg: Arg)
    requires !a.quote && ArgRunOk(a, [Node(ArgName, arg.key)] + ValueNodes(arg.value))
    ensures ArgRunOk(a, ArgNodes(arg))
    ensures ArgRun(a, ArgNodes(arg)) == ArgRun(a, [Node(ArgName, arg.key)] + ValueNodes(arg.value))
  {
    hide ArgRun, ArgRunOk, ValueNodes;
    var rest := [Node(ArgName, arg.key)] + ValueNodes(arg.value);
    var marker := Node(ArgOpen, "");
    if arg.begun {
      ArgRunOne(a, marker);
      ArgRunAppend(a, [marker], rest);
      assert ArgNodes(arg) == [marker] + rest;
    } else {
      assert ArgNodes(arg) == rest;
    }
  }

  const NO_ARGS: Args := Args("", 0, false)

  /** The text before the call is closed. */
  function OpenObject(args: seq<Arg>): string {
    if args == [] then "" else "{" + WrittenMembers(args)
  }

  /** A string of the last argument is not closed yet. */
  predicate OpenString(args: seq<Arg>) {
    args != [] && Unclosed(Last(args).value)
  }

  /** The argument events of a call leave an opened object with what is written for its members. */
  lemma {:induction false} ArgsRun(args: seq<Arg>)
    requires ValidArgs(args)
    ensures ArgRunOk(NO_ARGS, ArgsNodes(args))
    ensures
      var r := ArgRun(NO_ARGS, ArgsNodes(args));
      && Sealed(r) == OpenObject(args) && (args != [] ==> r.text != "") && r.count == |args|
      && r.quote == OpenString(args)
    decreases |args|
  {
    hide ArgRun, ArgRunOk, WrittenMember, ArgNodes, ValidValue, Unclosed;
    if args == [] {
      ArgRunNone(NO_ARGS);
    } else {
      ArgsRun(Init(args));
      ClosedBefore(args);
      var a := ArgRun(NO_ARGS, ArgsNodes(Init(args)));
      assert a.text + "" == a.text;
      OneArg(a, Last(args));
      ArgRunAppend(NO_ARGS, ArgsNodes(Init(args)), ArgNodes(Last(args)));
      if |args| == 1 {
        assert "{" + "" + WrittenMember(Last(args)) == "{" + WrittenMembers(args);
      } else {
        assert "{" + WrittenMembers(Init(args)) + "," + WrittenMember(Last(args)) == "{" + WrittenMembers(args);
      }
    }
  }

  lemma ClosedBefore(args: seq<Arg>)
    requires ValidArgs(args) && args != []
    ensures ValidArgs(Init(args)) && !OpenString(Init(args)) && ValidValue(Last(args).value)
  {
    hide ValidValue, Unclosed;
    forall i | 0 <= i < |args| - 1
      ensures Init(args)[i] == args[i]
    {
    }
  }

  lemma ArgRunNone(a: Args)
    ensures ArgRunOk(a, []) && ArgRun(a, []) == a
  {
  }

  // ---- stray quotes ----

  /** No chunk of a string but the first is empty. */
  predicate NoStrayIn(chunks: seq<string>) {
    forall i :: 0 < i < |chunks| ==> chunks[i] != ""
  }

  predicate NoStray(v: Value) {
    v.Text? ==> NoStrayIn(v.chunks)
  }

  predicate NoStrays(args: seq<Arg>) {
    forall i :: 0 <= i < |args| ==> NoStray(args[i].value)
  }

  function QuoteCount(s: string): nat {
    multiset(s)['"']
  }

  lemma CountAppend(s: string, t: string)
    ensures QuoteCount(s + t) == QuoteCount(s) + QuoteCount(t)
  {
  }

  /** Each stray chunk puts one quote more into the text than the string has. */
  lemma {:induction false} ChunksCount(chunks: seq<string>)
    ensures NoStrayIn(chunks) ==> ChunksText(chunks) == Escape(Joined(chunks))
    ensures QuoteCount(ChunksText(chunks)) >= QuoteCount(Escape(Joined(chunks)))
    ensures !NoStrayIn(chunks) ==> QuoteCount(ChunksText(chunks)) > QuoteCount(Escape(Joined(chunks)))
    decreases |chunks|
  {
    hide Escape, QuoteCount;
    EscapeNothing();
    if chunks != [] {
      var init, last := Init(chunks), Last(chunks);
      ChunksCount(init);
      EscapeAppend(Joined(init), last);
      CountAppend(Escape(Joined(init)), Escape(last));
      CountAppend(ChunksText(init), Escape(last));
      CountAppend(ChunksText(init), "\"");
      OneQuote();
      StrayStep(chunks);
    }
  }

  lemma OneQuote()
    ensures QuoteCount("\"") == 1 && QuoteCount("") == 0
  {
  }

  lemma StrayStep(chunks: seq<string>)
    requires chunks != []
    ensures NoStrayIn(chunks) <==> NoStrayIn(Init(chunks)) && (|chunks| > 1 ==> Last(chunks) != "")
  {
    forall i | 0 <= i < |chunks|
      ensures chunks[i] == if i < |chunks| - 1 then Init(chunks)[i] else Last(chunks)
    {
    }
  }

  lemma ValueCount(v: Value)
    ensures NoStray(v) ==> WrittenValue(v) == ValueText(v)
    ensures QuoteCount(WrittenValue(v)) >= QuoteCount(ValueText(v))
    ensures !NoStray(v) ==> QuoteCount(WrittenValue(v)) > QuoteCount(ValueText(v))
  {
    hide QuoteCount, Quotes.Normalize, Escape;
    if v.Text? {
      ChunksCount(v.chunks);
      var x, y := ChunksText(v.chunks), Escape(Joined(v.chunks));
      CountAppend("\"" + x, "\"");
      CountAppend("\"", x);
      CountAppend("\"" + y, "\"");
      CountAppend("\"", y);
    }
  }

  lemma MemberCount(arg: Arg)
    ensures NoStray(arg.value) ==> WrittenMember(arg) == MemberText(arg)
    ensures QuoteCount(WrittenMember(arg)) >= QuoteCount(MemberText(arg))
    ensures !NoStray(arg.value) ==> QuoteCount(WrittenMember(arg)) > QuoteCount(MemberText(arg))
  {
    hide QuoteCount, Quote, TrimKey, WrittenValue, ValueText, NoStray;
    ValueCount(arg.value);
    CountAppend(Quote(TrimKey(arg.key)) + ":", WrittenValue(arg.value));
    CountAppend(Quote(TrimKey(arg.key)) + ":", ValueText(arg.value));
  }

  lemma {:induction false} MembersCount(args: seq<Arg>)
    ensures NoStrays(args) ==> WrittenMembers(args) == Members(args)
    ensures QuoteCount(WrittenMembers(args)) >= QuoteCount(Members(args))
    ensures !NoStrays(args) ==> QuoteCount(WrittenMembers(args)) > QuoteCount(Members(args))
    decreases |args|
  {
    hide QuoteCount, WrittenMember, MemberText, NoStray;
    if args != [] {
      var init, last := Init(args), Last(args);
      MembersCount(init);
      MemberCount(last);
      StraysStep(args);
      CountAppend(WrittenMembers(init) + ",", WrittenMember(last));
      CountAppend(WrittenMembers(init), ",");
      CountAppend(Members(init) + ",", MemberText(last));
      CountAppend(Members(init), ",");
      assert "" + WrittenMember(last) == WrittenMember(last) && "" + MemberText(last) == MemberText(last);
      if |args| == 1 {
        assert init == [];
      }
    }
  }

  lemma StraysStep(args: seq<Arg>)
    requires args != []
    ensures NoStrays(args) <==> NoStrays(Init(args)) && NoStray(Last(args).value)
  {
    hide NoStray;
    forall i | 0 <= i < |args|
      ensures args[i] == if i < |args| - 1 then Init(args)[i] else Last(args)
    {
    }
  }

  // ---- the brace counter sees one open brace ----

  lemma ValueCrosses(v: Value)
    requires ValidValue(v)
    ensures Crosses(ValueText(v))
  {
    hide Quote, Quotes.Normalize, ScanFrom;
    match v
    case Text(chunks, _) => CrossesQuoted(Joined(chunks));
    case Data(text, _) =>
      forall d
        ensures ScanFrom(Scan(d, false, false), Quotes.Normalize(text)) == Scan(d, false, false)
      {
        ScanBalanced(d, Quotes.Normalize(text));
      }
  }

  lemma MemberCrosses(arg: Arg)
    requires ValidValue(arg.value)
    ensures Crosses(MemberText(arg))
  {
    hide Quote, Crosses, ValueText, ValidValue, TrimKey;
    CrossesQuoted(TrimKey(arg.key));
    CrossesChar(':');
    CrossesAppend(Quote(TrimKey(arg.key)), ":");
    ValueCrosses(arg.value);
    CrossesAppend(Quote(TrimKey(arg.key)) + ":", ValueText(arg.value));
  }

  lemma CrossesNothing()
    ensures Crosses("")
  {
  }

  lemma {:induction false} MembersCross(args: seq<Arg>)
    requires ValidArgs(args)
    ensures Crosses(Members(args))
    decreases |args|
  {
    hide Crosses, MemberText, ValidValue;
    if args == [] {
      CrossesNothing();
    } else {
      MemberCrosses(Last(args));
      if |args| > 1 {
        MembersCross(Init(args));
        CrossesChar(',');
        CrossesAppend(Members(Init(args)), ",");
        CrossesAppend(Members(Init(args)) + ",", MemberText(Last(args)));
      } else {
        assert Members(args) == MemberText(Last(args));
      }
    }
  }

  /** Whatever braces and quotes the keys and values hold, exactly one brace is found open. */
  lemma OneOpenBrace(args: seq<Arg>)
    requires ValidArgs(args)
    ensures BraceDepth("{" + Members(args)) == 1
  {
    hide Members;
    MembersCross(args);
    ScanAppend(OUTSIDE, "{", Members(args));
    ScanOne(OUTSIDE, '{');
  }

  // ---- the object is JSON ----

  function Keys(args: seq<Arg>): (r: seq<string>)
    ensures |r| == |args|
  {
    seq(|args|, i requires 0 <= i < |args| => TrimKey(args[i].key))
  }

  /** Each value is the text of a JSON value. */
  predicate Print(args: seq<Arg>, values: seq<Json>) {
    |args| == |values| && forall i :: 0 <= i < |args| ==>
      ValidJson(values[i]) && ValueText(args[i].value) == PrintJson(values[i])
  }

  lemma {:induction false} MembersSnoc(keys: seq<string>, values: seq<Json>)
    requires |keys| == |values| > 0 && forall i :: 0 <= i < |values| ==> ValidJson(values[i])
    ensures
      PrintMembers(keys, values)
      == (if |keys| == 1 then "" else PrintMembers(Init(keys), Init(values)) + ",")
        + (Quote(Last(keys)) + ":" + PrintJson(Last(values)))
    decreases |keys|
  {
    hide Quote, PrintJson;
    var head := Quote(keys[0]) + ":" + PrintJson(values[0]);
    if |keys| > 1 {
      var ks, vs := keys[1..], values[1..];
      MembersSnoc(ks, vs);
      assert Init(keys)[1..] == Init(ks) && Init(values)[1..] == Init(vs);
      assert Init(keys)[0] == keys[0] && Init(values)[0] == values[0];
      var last := Quote(Last(keys)) + ":" + PrintJson(Last(values));
      MembersJoin(head, PrintMembers(Init(ks), Init(vs)), last, |ks| == 1);
    }
  }

  lemma MembersJoin(head: string, middle: string, last: string, two: bool)
    ensures
      head + ("," + ((if two then "" else middle + ",") + last))
        == (head + (if two then "" else "," + middle)) + "," + last
  {
  }

  /** The arguments of a call are the printed JSON object of its keys and values. */
  lemma {:induction false} MembersPrint(args: seq<Arg>, values: seq<Json>)
    requires Print(args, values)
    ensures Members(args) == PrintMembers(Keys(args), values)
    decreases |args|
  {
    hide Quote, PrintJson, PrintMembers, ValueText, TrimKey;
    if args == [] {
      NoMembersPrint(Keys(args), values);
    } else {
      MembersPrint(Init(args), Init(values));
      MembersSnoc(Keys(args), values);
      assert Init(Keys(args)) == Keys(Init(args));
    }
  }

  lemma NoMembersPrint(keys: seq<string>, values: seq<Json>)
    requires keys == [] && values == []
    ensures PrintMembers(keys, values) == ""
  {
  }

  lemma ObjectIsJson(args: seq<Arg>, values: seq<Json>)
    requires Print(args, values)
    ensures ValidJson(Obj(Keys(args), values)) && Object(args) == PrintJson(Obj(Keys(args), values))
  {
    hide Members, PrintMembers, ValueText;
    MembersPrint(args, values);
  }

  // ---- whole calls ----

  function Braced(text: string): string {
    text + Braces(text)
  }

  /** The arguments after the closing event: an object if nothing came, an owed quote, and every open brace closed. */
  function Closed(a: Args): string {
    Braced(Sealed(if a.text == "" then a.(text := "{") else a))
  }

  lemma OpenMatches(st: State, text: string)
    requires Sound(st)
    ensures Step(st, Node(ToolOpen, text)) == Concrete(Build(st.reasoning, st.content, st.calls, "", "", NO_ARGS))
  {
  }

  /** Closing stores a named call with its braces closed, and drops an unnamed one. */
  lemma CloseMatches(b: Build, text: string)
    ensures
      var st := Step(Concrete(b), Node(ToolClose, text));
      && st.calls == b.calls + (if b.name == "" then [] else [ToolCall(b.name, Closed(b.args), b.id)])
      && st.pending == None && st.reasoning == b.reasoning && st.content == b.content
  {
    hide Braces;
    var st := Concrete(b);
    if b.name != "" {
      var call := ToolCall(b.name, Closed(b.args), b.id);
      var text := Current(st).arguments;
      assert text + "" == text;
      assert (b.calls + [Current(st)])[|b.calls| := call] == b.calls + [call];
    }
  }

  function CallNodes(open: string, body: seq<Node>, close: string): seq<Node> {
    [Node(ToolOpen, open)] + (body + [Node(ToolClose, close)])
  }

  /** The call that a body describes, given its arguments; none if no name came. */
  function CallOf(body: seq<Node>, arguments: string): (r: seq<ToolCall>)
    ensures |r| <= 1
  {
    if NameIn(body, "") == "" then [] else [ToolCall(NameIn(body, ""), arguments, IdIn(body, ""))]
  }

  lemma RunOne(st: State, node: Node)
    requires Sound(st) && Usable(st, node)
    ensures RunOk(st, [node]) && Run(st, [node]) == Step(st, node)
  {
    hide Step;
    assert [node][1..] == [];
  }

  /** What a run of events adds to a state that has no call left open. */
  ghost predicate Adds(st: State, nodes: seq<Node>, calls: seq<ToolCall>) {
    && Sound(st) && RunOk(st, nodes)
    && var r := Run(st, nodes);
      && r.calls == st.calls + calls && r.pending == None
      && r.reasoning == st.reasoning + Texts(nodes, Reasoning) && r.content == st.content + Texts(nodes, Content)
  }

  lemma {:induction false} TextsAppend(xs: seq<Node>, ys: seq<Node>, tag: Tag)
    ensures Texts(xs + ys, tag) == Texts(xs, tag) + Texts(ys, tag)
  {
    if xs == [] {
      assert xs + ys == ys;
    } else {
      assert (xs + ys)[0] == xs[0] && (xs + ys)[1..] == xs[1..] + ys;
      TextsAppend(xs[1..], ys, tag);
    }
  }

  lemma TextsOne(node: Node, tag: Tag)
    ensures Texts([node], tag) == if node.tag == tag then node.text else ""
  {
    assert [node][1..] == [];
  }

  lemma CallTexts(open: string, body: seq<Node>, close: string, tag: Tag)
    requires tag.Reasoning? || tag.Content?
    ensures Texts(CallNodes(open, body, close), tag) == Texts(body, tag)
  {
    hide Texts;
    TextsOne(Node(ToolOpen, open), tag);
    TextsOne(Node(ToolClose, close), tag);
    TextsAppend(body, [Node(ToolClose, close)], tag);
    TextsAppend([Node(ToolOpen, open)], body + [Node(ToolClose, close)], tag);
  }

  /** A call's events, started in any state, add one finished call, or nothing if it was never named. */
  lemma CallRun(st: State, open: string, body: seq<Node>, close: string)
    requires Sound(st) && Body(body, false)
    requires ArgRunOk(NO_ARGS, ArgEvents(body))
    ensures Adds(st, CallNodes(open, body, close), CallOf(body, Closed(ArgRun(NO_ARGS, ArgEvents(body)))))
  {
    hide Step, Concrete, Run, RunOk, Body, ArgRun, ArgRunOk, ArgEvents, Texts, Closed;
    var b := Build(st.reasoning, st.content, st.calls, "", "", NO_ARGS);
    OpenMatches(st, open);
    RunOne(st, Node(ToolOpen, open));
    BodyRun(b, body);
    CloseMatches(Built(b, body), close);
    RunOne(Concrete(Built(b, body)), Node(ToolClose, close));
    RunAppend(Concrete(b), body, [Node(ToolClose, close)]);
    RunAppend(st, [Node(ToolOpen, open)], body + [Node(ToolClose, close)]);
    CallTexts(open, body, close, Reasoning);
    CallTexts(open, body, close, Content);
  }

  lemma VisibleCall(open: string, body: seq<Node>, close: string)
    ensures Visible(CallNodes(open, body, close)) == CallNodes("", Visible(body), "")
  {
    hide Visible;
    VisibleOne(Node(ToolOpen, open));
    VisibleOne(Node(ToolClose, close));
    VisibleAppend(body, [Node(ToolClose, close)]);
    VisibleAppend([Node(ToolOpen, open)], body + [Node(ToolClose, close)]);
  }

  /** The same with only the visible events of the body known. */
  lemma VisibleCallRun(st: State, open: string, body: seq<Node>, close: string)
    requires Sound(st) && Body(body, false) && ArgRunOk(NO_ARGS, ArgEvents(Visible(body)))
    ensures Adds(st, CallNodes(open, body, close), CallOf(body, Closed(ArgRun(NO_ARGS, ArgEvents(Visible(body))))))
  {
    hide Run, RunOk, Body, ArgRun, ArgRunOk, ArgEvents, Visible, CallNodes, Closed, Texts;
    var nodes := CallNodes(open, body, close);
    VisibleParts(body, false, "", "");
    CallRun(st, "", Visible(body), "");
    VisibleCall(open, body, close);
    VisibleRun(st, nodes);
    VisibleParts(nodes, false, "", "");
  }

  /** The arguments stored for tagged events. */
  function StoredArgs(args: seq<Arg>): string {
    Braced("{" + WrittenMembers(args))
  }

  lemma BracesCount(text: string)
    ensures QuoteCount(text + Braces(text)) == QuoteCount(text)
  {
    CountAppend(text, Braces(text));
    hide BraceDepth;
  }

  /** They are the JSON object of the members exactly when no string has an empty chunk after the first. */
  lemma StoredExactly(args: seq<Arg>)
    requires ValidArgs(args)
    ensures StoredArgs(args) == Object(args) <==> NoStrays(args)
  {
    hide BraceDepth, QuoteCount, Members, WrittenMembers, NoStrays, Braces;
    MembersCount(args);
    NoneWritten();
    var t := "{" + WrittenMembers(args);
    if NoStrays(args) {
      OneOpenBrace(args);
      OneBrace(t);
    }
    BracesCount(t);
    CountAppend("{", WrittenMembers(args));
    CountAppend("{" + Members(args), "}");
    CountAppend("{", Members(args));
    NoQuotes();
  }

  lemma NoQuotes()
    ensures QuoteCount("}") == 0 && QuoteCount("{") == 0
  {
  }

  lemma NoneWritten()
    ensures WrittenMembers([]) == ""
  {
  }

  lemma OneBrace(text: string)
    requires BraceDepth(text) == 1
    ensures Braces(text) == "}"
  {
    hide BraceDepth;
  }

  lemma ClosedArgs(a: Args, args: seq<Arg>)
    requires Sealed(a) == OpenObject(args) && (args != [] ==> a.text != "")
    ensures Closed(a) == StoredArgs(args)
  {
    hide Braces;
    NoneWritten();
    assert "{" + "" == "{";
  }

  /**
   Tagged events add one call with these arguments, wherever the name came, whatever the markers say and
   whatever rules enclose them, and nothing without a name.
   */
  lemma TaggedCall(st: State, open: string, body: seq<Node>, close: string, args: seq<Arg>)
    requires Sound(st) && Body(body, false) && ArgEvents(Visible(body)) == ArgsNodes(args) && ValidArgs(args)
    ensures Adds(st, CallNodes(open, body, close), CallOf(body, StoredArgs(args)))
    ensures StoredArgs(args) == Object(args) <==> NoStrays(args)
  {
    hide Adds, ArgRun, ArgRunOk, ArgEvents, Body, ArgsNodes, Closed, Object, NoStrays, Visible, StoredArgs, Sealed;
    ArgsRun(args);
    ClosedArgs(ArgRun(NO_ARGS, ArgsNodes(args)), args);
    VisibleCallRun(st, open, body, close);
    StoredExactly(args);
  }

  /** Arguments that come as one JSON object are stored as they are, without trailing blanks. */
  lemma JsonCall(st: State, open: string, body: seq<Node>, close: string, text: string)
    requires Sound(st) && Body(body, false) && ArgEvents(Visible(body)) == [Node(ToolArgs, text)]
    requires Opens(text) && Balanced(TrimEnd(text))
    ensures Adds(st, CallNodes(open, body, close), CallOf(body, TrimEnd(text)))
  {
    hide Adds, ArgRun, ArgRunOk, ArgEvents, Body, TrimEnd, ScanFrom, Visible;
    ArgRunOne(NO_ARGS, Node(ToolArgs, text));
    VisibleCallRun(st, open, body, close);
    assert TrimEnd(text) + "" == TrimEnd(text);
  }

  // ---- whole messages ----

  datatype CallEvents = CallEvents(before: seq<Node>, open: string, body: seq<Node>, close: string, args: seq<Arg>)

  predicate Neutral(nodes: seq<Node>) {
    forall i :: 0 <= i < |nodes| ==> nodes[i].tag.Reasoning? || nodes[i].tag.Content? || nodes[i].tag.OtherTag?
  }

  predicate ValidCall(c: CallEvents) {
    Neutral(c.before) && Body(c.body, false) && ArgEvents(Visible(c.body)) == ArgsNodes(c.args) && ValidArgs(c.args)
  }

  function MessageNodes(calls: seq<CallEvents>): seq<Node>
    decreases |calls|
  {
    if calls == [] then []
    else
      var c := Last(calls);
      MessageNodes(Init(calls)) + (c.before + CallNodes(c.open, c.body, c.close))
  }

  /** One stored call for each call that was named. */
  function MessageCalls(calls: seq<CallEvents>): seq<ToolCall>
    decreases |calls|
  {
    if calls == [] then [] else MessageCalls(Init(calls)) + CallOf(Last(calls).body, StoredArgs(Last(calls).args))
  }

  lemma {:induction false} NeutralRun(st: State, nodes: seq<Node>)
    requires Sound(st) && st.pending == None && Neutral(nodes)
    ensures Adds(st, nodes, [])
    decreases |nodes|
  {
    if nodes == [] {
      assert st.reasoning + "" == st.reasoning && st.content + "" == st.content && st.calls + [] == st.calls;
    } else {
      NeutralRun(Step(st, nodes[0]), nodes[1..]);
      TextsStep(st.reasoning, nodes, Reasoning);
      TextsStep(st.content, nodes, Content);
    }
  }

  lemma AddsAppend(st: State, xs: seq<Node>, calls: seq<ToolCall>, ys: seq<Node>, more: seq<ToolCall>)
    requires Adds(st, xs, calls) && Adds(Run(st, xs), ys, more)
    ensures Adds(st, xs + ys, calls + more)
  {
    hide Texts, Run, RunOk, Sound;
    RunAppend(st, xs, ys);
    TextsAppend(xs, ys, Reasoning);
    TextsAppend(xs, ys, Content);
  }

  lemma OneMessageCall(st: State, c: CallEvents)
    requires Sound(st) && st.pending == None && ValidCall(c)
    ensures Adds(st, c.before + CallNodes(c.open, c.body, c.close), CallOf(c.body, StoredArgs(c.args)))
  {
    NeutralRun(st, c.before);
    hide Body, ArgEvents, ArgsNodes, ValidArgs, CallNodes, CallOf, Run, RunOk, Visible;
    TaggedCall(Run(st, c.before), c.open, c.body, c.close, c.args);
    AddsAppend(st, c.before, [], CallNodes(c.open, c.body, c.close), CallOf(c.body, StoredArgs(c.args)));
    assert [] + CallOf(c.body, StoredArgs(c.args)) == CallOf(c.body, StoredArgs(c.args));
  }

  lemma {:induction false} CallsRun(calls: seq<CallEvents>)
    requires forall i :: 0 <= i < |calls| ==> ValidCall(calls[i])
    ensures Adds(START, MessageNodes(calls), MessageCalls(calls))
    decreases |calls|
  {
    hide ValidCall, CallNodes, CallOf, Run;
    if calls == [] {
      NeutralRun(START, []);
    } else {
      CallsRun(Init(calls));
      var c := Last(calls);
      var st := Run(START, MessageNodes(Init(calls)));
      OneMessageCall(st, c);
      hide Adds;
      AddsAppend(START, MessageNodes(Init(calls)), MessageCalls(Init(calls)),
                 c.before + CallNodes(c.open, c.body, c.close), CallOf(c.body, StoredArgs(c.args)));
    }
  }

  /** Any sequence of tagged calls, with reasoning and content anywhere, stores exactly the named calls. */
  lemma MessageRun(calls: seq<CallEvents>, after: seq<Node>)
    requires (forall i :: 0 <= i < |calls| ==> ValidCall(calls[i])) && Neutral(after)
    ensures Adds(START, MessageNodes(calls) + after, MessageCalls(calls))
  {
    hide ValidCall, Run, RunOk, MessageNodes, MessageCalls, Texts;
    CallsRun(calls);
    NeutralRun(Run(START, MessageNodes(calls)), after);
    AddsAppend(START, MessageNodes(calls), MessageCalls(calls), after, []);
    assert MessageCalls(calls) + [] == MessageCalls(calls);
  }

  // ---- trimmed texts ----

  predicate Blanks(s: string) {
    forall i :: 0 <= i < |s| ==> IsSpace(s[i])
  }

  lemma {:induction false} TrimAppend(s: string, blanks: string)
    requires Blanks(blanks) && (s != "" ==> !IsSpace(s[|s| - 1]))
    ensures TrimEnd(s + blanks) == s
    decreases |blanks|
  {
    if blanks == "" {
      assert s + blanks == s;
    } else {
      var t := s + blanks;
      assert t[|t| - 1] == blanks[|blanks| - 1];
      assert t[..|t| - 1] == s + blanks[..|blanks| - 1];
      TrimAppend(s, blanks[..|blanks| - 1]);
    }
  }

  /** An id in quotes loses them, whatever blanks follow; any other only loses the blanks. */
  lemma CleanIds(id: string, blanks: string)
    requires Blanks(blanks)
    ensures CleanId("\"" + id + "\"" + blanks) == id
    ensures
      (id != "" ==> !IsSpace(id[|id| - 1])) && !(|id| >= 2 && id[0] == '"' && id[|id| - 1] == '"') ==>
        CleanId(id + blanks) == id
  {
    var quoted := "\"" + id + "\"";
    TrimAppend(quoted, blanks);
    assert quoted[1..|quoted| - 1] == id;
    if id != "" ==> !IsSpace(id[|id| - 1]) {
      TrimAppend(id, blanks);
    }
    hide TrimEnd;
  }

  /** A key loses one blank before it and all that follow. */
  lemma TrimKeys(key: string, before: string, blanks: string)
    requires Blanks(blanks) && Blanks(before) && |before| <= 1
    requires key != "" && !IsSpace(key[0]) && !IsSpace(key[|key| - 1])
    ensures TrimKey(before + key + blanks) == key
  {
    TrimAppend(key, blanks);
    var s := before + key + blanks;
    assert s == before + (key + blanks);
    if before == "" {
      assert s == key + blanks;
    } else {
      assert s[0] == before[0] && s[1..] == key + blanks;
    }
    hide TrimEnd;
  }

  // ---- every reachable state ----

  /** The pending call has no name yet, and the pointer is at the last stored call. */
  predicate Tidy(st: State) {
    && Sound(st)
    && (st.pending.Some? ==> st.pending.value.name == "" && st.pending.value.arguments == "")
    && (st.cursor.Stored? ==> st.cursor.i == |st.calls| - 1)
  }

  lemma TidyTarget(st: State, text: string)
    requires Tidy(st) && HasCurrent(st)
    ensures Tidy(SetTarget(st, text))
  {
  }

  lemma TidyClose(st: State)
    requires Tidy(st) && HasCurrent(st)
    ensures Tidy(CloseStep(st))
  {
    hide Braces;
  }

  lemma TidyName(st: State, text: string)
    requires Tidy(st) && HasCurrent(st)
    ensures Tidy(NameStep(st, text))
  {
    hide TrimEnd;
  }

  lemma TidyArg(st: State, node: Node)
    requires Tidy(st) && Usable(st, node) && ArgTag(node.tag)
    ensures Tidy(Step(st, node))
  {
    if HasCurrent(st) {
      forall text
        ensures Tidy(SetTarget(st, text))
      {
        TidyTarget(st, text);
      }
    }
    hide TrimEnd, ValuePiece, Quote, TrimKey, SetTarget, Target;
  }

  lemma TidyId(st: State, id: string)
    requires Tidy(st) && HasCurrent(st)
    ensures Tidy(SetCurrent(st, Current(st).(id := id)))
  {
  }

  /** Events other than those of the arguments, in a state with a current call. */
  lemma TidyOther(st: State, node: Node)
    requires Tidy(st) && HasCurrent(st) && !ArgTag(node.tag)
    ensures Tidy(Step(st, node))
  {
    TidyClose(st);
    TidyName(st, node.text);
    TidyId(st, CleanId(node.text));
    hide CleanId, NameStep, CloseStep, SetCurrent, Current;
  }

  lemma TidyStep(st: State, node: Node)
    requires Tidy(st) && Usable(st, node)
    ensures Tidy(Step(st, node))
  {
    if ArgTag(node.tag) {
      TidyArg(st, node);
    } else if HasCurrent(st) {
      TidyOther(st, node);
    }
    hide CleanId, NameStep, CloseStep, SetCurrent, ArgTag;
  }

  lemma {:induction false} TidyRun(st: State, nodes: seq<Node>)
    requires Tidy(st) && RunOk(st, nodes)
    ensures Tidy(Run(st, nodes))
    decreases |nodes|
  {
    hide Step;
    if nodes != [] {
      TidyStep(st, nodes[0]);
      TidyRun(Step(st, nodes[0]), nodes[1..]);
    }
  }

  /** The flush after the last event has nothing to do, for a call leaves the pending place when it is named. */
  lemma FlushNeverFires(nodes: seq<Node>)
    requires RunOk(START, nodes)
    ensures
      var r := Run(START, nodes);
      var blank := forall i :: 0 <= i < |r.reasoning| ==> r.reasoning[i] in " \n\r\t";
      Finish(r) == r.(reasoning := if blank then "" else r.reasoning)
  {
    TidyRun(START, nodes);
  }
}
