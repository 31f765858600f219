/**
 The state machine that turns parser events into tool calls, writing the JSON text of the arguments as
 it goes. Models common_chat_peg_mapper (map, from_ast, args_target) of common/chat-peg-parser.cpp.
 */
module ToolCallMapper {
  import opened Common
  import opened JsonText
  import Quotes = QuoteNormalizer
  import opened ChatDiff

  datatype Tag =
    | Reasoning | Content
    | ToolOpen | ToolClose | ToolId | ToolName | ToolArgs
    | ArgOpen | ArgClose | ArgName | ArgValue | ArgStringValue
    | OtherTag

  datatype Node = Node(tag: Tag, text: string)

  /** Where the pointer to the current call points; Gone once the pending call it pointed into is dropped. */
  datatype Cursor = Nowhere | Pending | Stored(i: nat) | Gone

  datatype State = State(
    reasoning: string,
    content: string,
    calls: seq<ToolCall>,
    pending: Option<ToolCall>,
    cursor: Cursor,
    argCount: nat,
    quote: bool,
    buffer: string)

  const START: State := State("", "", [], None, Nowhere, 0, false, "")

  // ---- trimming ----

  function TrimEnd(s: string): (r: string)
    ensures r <= s && (r != "" ==> !IsSpace(r[|r| - 1])) && forall i :: |r| <= i < |s| ==> IsSpace(s[i])
    decreases |s|
  {
    if s != "" && IsSpace(s[|s| - 1]) then TrimEnd(s[..|s| - 1]) else s
  }

  /** At most one leading space goes, every trailing one does. */
  function TrimKey(s: string): string {
    TrimEnd(if s != "" && IsSpace(s[0]) then s[1..] else s)
  }

  function CleanId(s: string): string {
    var t := TrimEnd(s);
    if |t| >= 2 && t[0] == '"' && t[|t| - 1] == '"' then t[1..|t| - 1] else t
  }

  // ---- the state machine ----

  /** The pointer is null, or points at a call that exists. */
  predicate Sound(st: State) {
    && (st.cursor.Pending? <==> st.pending.Some?)
    && (st.cursor.Stored? ==> st.cursor.i < |st.calls|)
  }

  predicate HasCurrent(st: State) {
    st.cursor.Pending? || st.cursor.Stored?
  }

  function Current(st: State): ToolCall
    requires Sound(st) && HasCurrent(st)
  {
    if st.cursor.Pending? then st.pending.value else st.calls[st.cursor.i]
  }

  function SetCurrent(st: State, call: ToolCall): (r: State)
    requires Sound(st) && HasCurrent(st)
    ensures Sound(r) && r.cursor == st.cursor && Current(r) == call
  {
    if st.cursor.Pending? then st.(pending := Some(call)) else st.(calls := st.calls[st.cursor.i := call])
  }

  function Target(st: State): string
    requires Sound(st) && HasCurrent(st)
  {
    if Current(st).name != "" then Current(st).arguments else st.buffer
  }

  function SetTarget(st: State, text: string): (r: State)
    requires Sound(st) && HasCurrent(st)
    ensures Sound(r) && r.cursor == st.cursor
  {
    if Current(st).name != "" then SetCurrent(st, Current(st).(arguments := text)) else st.(buffer := text)
  }

  /** Text that is taken for a whole JSON object. */
  predicate Opens(text: string) {
    TrimEnd(text) != "" && TrimEnd(text)[0] == '{'
  }

  /** Events that read or write the current call. */
  predicate UsesCurrent(node: Node, quote: bool) {
    match node.tag
    case Reasoning => false
    case Content => false
    case OtherTag => false
    case ToolOpen => false
    case ArgOpen => false
    case ToolArgs => Opens(node.text)
    case ArgClose => quote
    case _ => true
  }

  /** After the pending call is dropped there is no current call to use. */
  predicate Usable(st: State, node: Node) {
    st.cursor.Gone? ==> !UsesCurrent(node, st.quote)
  }

  function NameStep(st: State, text: string): (r: State)
    requires Sound(st) && HasCurrent(st)
  {
    var named := SetCurrent(st, Current(st).(name := TrimEnd(text)));
    var filled :=
      if named.buffer != "" then SetCurrent(named, Current(named).(arguments := named.buffer)).(buffer := "")
      else if Current(named).arguments == "" then SetCurrent(named, Current(named).(arguments := "{"))
      else named;
    if filled.pending.Some? then
      filled.(calls := filled.calls + [filled.pending.value], pending := None, cursor := Stored(|filled.calls|))
    else filled
  }

  /** The text of a value event, and whether a closing quote is owed after it. */
  function ValuePiece(tag: Tag, text: string, quote: bool): (string, bool)
    requires tag.ArgValue? || tag.ArgStringValue?
  {
    if tag.ArgValue? then (Quotes.Normalize(text), quote)
    else if text == "" then ("\"", true)
    else ((if quote then "" else "\"") + Escape(text), true)
  }

  function Braces(arguments: string): (r: string)
    ensures |r| == if BraceDepth(arguments) > 0 then BraceDepth(arguments) else 0
    ensures forall i :: 0 <= i < |r| ==> r[i] == '}'
  {
    Repeat('}', if BraceDepth(arguments) > 0 then BraceDepth(arguments) else 0)
  }

  /** Before closing: the buffer of an unnamed call is moved over, and an owed quote is written. */
  function Settle(st: State): (r: State)
    requires Sound(st) && HasCurrent(st)
    ensures Sound(r) && r.cursor == st.cursor
  {
    var flushed :=
      if Current(st).name == "" && st.buffer != "" then
        SetCurrent(st, Current(st).(arguments := st.buffer)).(buffer := "")
      else st;
    if flushed.quote then
      SetCurrent(flushed, Current(flushed).(arguments := Current(flushed).arguments + "\"")).(quote := false)
    else flushed
  }

  function CloseStep(st: State): (r: State)
    requires Sound(st) && HasCurrent(st)
  {
    var settled := Settle(st);
    var args := Current(settled).arguments;
    var closed := SetCurrent(settled, Current(settled).(arguments := args + Braces(args)));
    if closed.pending.Some? then
      closed.(calls := if Current(closed).name != "" then closed.calls + [closed.pending.value] else closed.calls,
              pending := None, cursor := Gone)
    else closed
  }

  function Step(st: State, node: Node): (r: State)
    requires Sound(st) && Usable(st, node)
    ensures Sound(r)
  {
    var text := node.text;
    match node.tag
    case Reasoning => st.(reasoning := st.reasoning + text)
    case Content => st.(content := st.content + text)
    case OtherTag => st
    case ToolOpen => st.(pending := Some(NO_CALL), cursor := Pending, argCount := 0, quote := false, buffer := "")
    case ArgOpen => st.(quote := false)
    case ToolId => if HasCurrent(st) then SetCurrent(st, Current(st).(id := CleanId(text))) else st
    case ToolName => if HasCurrent(st) then NameStep(st, text) else st
    case ToolArgs =>
      if HasCurrent(st) && Opens(text) then SetTarget(st, TrimEnd(text)) else st
    case ArgName =>
      if HasCurrent(st) then
        var open := if Target(st) == "" then "{" else Target(st);
        var comma := if st.argCount > 0 then "," else "";
        SetTarget(st, open + comma + Quote(TrimKey(text)) + ":").(argCount := st.argCount + 1)
      else st
    case ArgClose =>
      if HasCurrent(st) && st.quote then SetTarget(st, Target(st) + "\"").(quote := false) else st
    case ToolClose => if HasCurrent(st) then CloseStep(st) else st
    case _ =>
      if HasCurrent(st) then
        var (piece, quote) := ValuePiece(node.tag, text, st.quote);
        SetTarget(st, Target(st) + piece).(quote := quote)
      else st
  }

  predicate RunOk(st: State, nodes: seq<Node>)
    requires Sound(st)
    decreases |nodes|
  {
    nodes == [] || (Usable(st, nodes[0]) && RunOk(Step(st, nodes[0]), nodes[1..]))
  }

  function Run(st: State, nodes: seq<Node>): (r: State)
    requires Sound(st) && RunOk(st, nodes)
    ensures Sound(r)
    decreases |nodes|
  {
    if nodes == [] then st else Run(Step(st, nodes[0]), nodes[1..])
  }

  predicate Blank(s: string) {
    forall i :: 0 <= i < |s| ==> s[i] == ' ' || s[i] == '\n' || s[i] == '\r' || s[i] == '\t'
  }

  /** What from_ast does after the last event. */
  function Finish(st: State): State {
    var flushed :=
      if st.pending.Some? && st.pending.value.name != "" then
        var call := if st.buffer != "" then st.pending.value.(arguments := st.buffer) else st.pending.value;
        var quoted := if st.quote && call.arguments != "" then call.(arguments := call.arguments + "\"") else call;
        st.(calls := st.calls + [quoted], pending := None, cursor := Gone)
      else st;
    if Blank(flushed.reasoning) then flushed.(reasoning := "") else flushed
  }

  lemma EntryText(target: string, comma: string, key: string)
    ensures target + (comma + (key + ":")) == target + comma + key + ":"
  {
  }

  method IsBlank(s: string) returns (blank: bool)
    ensures blank == Blank(s)
  {
    blank := true;
    for k := 0 to |s|
      invariant blank <==> forall i :: 0 <= i < k ==> s[i] == ' ' || s[i] == '\n' || s[i] == '\r' || s[i] == '\t'
    {
      var c := s[k];
      if c != ' ' && c != '\n' && c != '\r' && c != '\t' {
        blank := false;
        break;
      }
    }
  }

  /** Appends one closing brace for each brace still open. */
  method CloseBraces(text: string) returns (r: string)
    ensures r == text + Braces(text)
  {
    hide BraceDepth;
    var depth := JsonBraceDepth(text);
    r := text;
    var d := depth;
    while d > 0
      invariant depth > 0 ==> d >= 0
      invariant r == text + Repeat('}', if depth > 0 then depth - d else 0)
    {
      r := r + "}";
      d := d - 1;
      assert Repeat('}', depth - d) == Repeat('}', depth - d - 1) + "}";
    }
  }

  class Mapper {
    var reasoning: string
    var content: string
    var calls: seq<ToolCall>
    var pending: Option<ToolCall>
    var cursor: Cursor
    var argCount: nat
    var closingQuotePending: bool
    var argsBuffer: string

    ghost function View(): State
      reads this
    {
      State(reasoning, content, calls, pending, cursor, argCount, closingQuotePending, argsBuffer)
    }

    constructor ()
      ensures View() == START
    {
      reasoning, content, calls, pending := "", "", [], None;
      cursor, argCount, closingQuotePending, argsBuffer := Nowhere, 0, false, "";
    }

    /** Writes the call the pointer points at. */
    method Store(call: ToolCall)
      requires Sound(View()) && HasCurrent(View())
      modifies this`pending, this`calls
      ensures View() == SetCurrent(old(View()), call)
    {
      if cursor.Pending? {
        pending := Some(call);
      } else {
        calls := calls[cursor.i := call];
      }
    }

    /** The call the pointer points at. */
    method Load() returns (call: ToolCall)
      requires Sound(View()) && HasCurrent(View())
      ensures call == Current(View())
    {
      call := if cursor.Pending? then pending.value else calls[cursor.i];
    }

    /** Appends to the arguments, which live in the buffer until the call has a name. */
    method AppendArgs(text: string)
      requires Sound(View()) && HasCurrent(View())
      modifies this`pending, this`calls, this`argsBuffer
      ensures View() == SetTarget(old(View()), Target(old(View())) + text)
    {
      var call := Load();
      if call.name != "" {
        Store(call.(arguments := call.arguments + text));
      } else {
        argsBuffer := argsBuffer + text;
      }
    }

    method ReplaceArgs(text: string)
      requires Sound(View()) && HasCurrent(View())
      modifies this`pending, this`calls, this`argsBuffer
      ensures View() == SetTarget(old(View()), text)
    {
      var call := Load();
      if call.name != "" {
        Store(call.(arguments := text));
      } else {
        argsBuffer := text;
      }
    }

    method MapName(text: string)
      requires Sound(View()) && HasCurrent(View())
      modifies this
      ensures View() == NameStep(old(View()), text)
    {
      var call := Load();
      Store(call.(name := TrimEnd(text)));
      call := Load();
      if argsBuffer != "" {
        Store(call.(arguments := argsBuffer));
        argsBuffer := "";
      } else if call.arguments == "" {
        Store(call.(arguments := "{"));
      }
      if pending.Some? {
        calls := calls + [pending.value];
        pending := None;
        cursor := Stored(|calls| - 1);
      }
    }

    method MapArgName(text: string)
      requires Sound(View()) && HasCurrent(View())
      modifies this
      ensures View() == Step(old(View()), Node(ArgName, text))
    {
      hide Quote, TrimKey;
      var comma := if argCount > 0 then "," else "";
      var entry := comma + (Quote(TrimKey(text)) + ":");
      argCount := argCount + 1;
      var call := Load();
      var target := if call.name != "" then call.arguments else argsBuffer;
      if target == "" {
        target := "{";
      }
      EntryText(target, comma, Quote(TrimKey(text)));
      ReplaceArgs(target + entry);
    }

    method MapValue(tag: Tag, text: string)
      requires Sound(View()) && HasCurrent(View()) && (tag.ArgValue? || tag.ArgStringValue?)
      modifies this
      ensures View() == Step(old(View()), Node(tag, text))
    {
      var piece := "";
      if text == "" && tag.ArgStringValue? {
        piece := "\"";
        closingQuotePending := true;
      } else if text != "" && tag.ArgStringValue? {
        if !closingQuotePending {
          piece := "\"";
          closingQuotePending := true;
        }
        piece := piece + Escape(text);
      } else if text != "" {
        piece := Quotes.NormalizeQuotes(text);
      }
      AppendArgs(piece);
    }

    method SettleCall()
      requires Sound(View()) && HasCurrent(View())
      modifies this
      ensures View() == Settle(old(View()))
    {
      var call := Load();
      if call.name == "" && argsBuffer != "" {
        Store(call.(arguments := argsBuffer));
        argsBuffer := "";
      }
      call := Load();
      if closingQuotePending {
        Store(call.(arguments := call.arguments + "\""));
        closingQuotePending := false;
      }
    }

    method MapClose()
      requires Sound(View()) && HasCurrent(View())
      modifies this
      ensures View() == CloseStep(old(View()))
    {
      hide Braces, Settle;
      SettleCall();
      var call := Load();
      var args := CloseBraces(call.arguments);
      Store(call.(arguments := args));
      if pending.Some? {
        if pending.value.name != "" {
          calls := calls + [pending.value];
        }
        pending := None;
        cursor := Gone;
      }
    }

    /** One parser event. */
    method Map(node: Node)
      requires Sound(View()) && Usable(View(), node)
      modifies this
      ensures View() == Step(old(View()), node) && Sound(View())
    {
      var tag, text := node.tag, node.text;
      var current := cursor.Pending? || cursor.Stored?;
      if tag.Reasoning? {
        reasoning := reasoning + text;
      } else if tag.Content? {
        content := content + text;
      } else if tag.ToolOpen? {
        pending := Some(NO_CALL);
        cursor := Pending;
        argCount := 0;
        argsBuffer := "";
        closingQuotePending := false;
      } else if tag.ToolId? && current {
        var call := Load();
        Store(call.(id := CleanId(text)));
      } else if tag.ToolName? && current {
        MapName(text);
      } else if tag.ToolArgs? && current {
        var t := TrimEnd(text);
        if t != "" && t[0] == '{' {
          ReplaceArgs(t);
        }
      } else if tag.ArgOpen? {
        closingQuotePending := false;
      } else if tag.ArgName? && current {
        MapArgName(text);
      } else if (tag.ArgValue? || tag.ArgStringValue?) && current {
        MapValue(tag, text);
      } else if tag.ArgClose? && current {
        if closingQuotePending {
          AppendArgs("\"");
          closingQuotePending := false;
        }
      } else if tag.ToolClose? && current {
        MapClose();
      }
    }

    /** All events of a parse, then the final flush and the clean-up of blank reasoning. */
    method FromAst(nodes: seq<Node>)
      requires Sound(View()) && RunOk(View(), nodes)
      modifies this
      ensures View() == Finish(Run(old(View()), nodes))
    {
      var i := 0;
      while i < |nodes|
        invariant i <= |nodes| && Sound(View()) && RunOk(View(), nodes[i..])
        invariant Run(View(), nodes[i..]) == Run(old(View()), nodes)
      {
        assert nodes[i..][0] == nodes[i] && nodes[i..][1..] == nodes[i + 1..];
        Map(nodes[i]);
        i := i + 1;
      }
      assert nodes[i..] == [];
      if pending.Some? && pending.value.name != "" {
        var call := pending.value;
        if argsBuffer != "" {
          call := call.(arguments := argsBuffer);
        }
        if closingQuotePending && call.arguments != "" {
          call := call.(arguments := call.arguments + "\"");
        }
        calls := calls + [call];
        pending := None;
        cursor := Gone;
      }
      if reasoning != "" {
        var blank := IsBlank(reasoning);
        if blank {
          reasoning := "";
        }
      }
    }
  }
}
