/**
 Rendering of a parsed argument tree as JSON: a tree cut off by the end of the text gives a prefix, and a
 complete tree gives the printed JSON value. Models gemma4_to_json of common/chat-peg-parser.cpp.
 */
module Gemma4 {
  import opened Common
  import opened JsonText
  import ChatDiff

  datatype Rule =
    | Number | Bool | Null
    | StringContent | String
    | Array
    | KeyName | Key | Member | Dict
    | Value
    | OtherRule

  datatype Tree = Tree(rule: Rule, text: string, partial: bool, children: seq<Tree>)

  function Render(t: Tree): string
    decreases t, 0
  {
    if t.text == "" then ""
    else
      match t.rule
      case Number => t.text
      case Bool => t.text
      case Null => t.text
      case StringContent => Escape(t.text)
      case String =>
        "\"" + if t.children == [] then "" else Render(t.children[0]) + if t.partial then "" else "\""
      case Array => "[" + RenderItems(t.children, true) + if t.partial then "" else "]"
      case KeyName => t.text
      case Key =>
        "\"" + (if t.children == [] then "" else Escape(Render(t.children[0]))) + if t.partial then "" else "\":"
      case Member => RenderAll(t.children)
      case Dict => "{" + RenderItems(t.children, true) + if t.partial then "" else "}"
      case Value => if t.children == [] then "" else Render(t.children[0])
      case OtherRule => ""
  }

  /** The children, each after a comma but the first. */
  function RenderItems(ts: seq<Tree>, first: bool): string
    decreases ts
  {
    if ts == [] then "" else (if first then "" else ",") + Render(ts[0]) + RenderItems(ts[1..], false)
  }

  function RenderAll(ts: seq<Tree>): string
    decreases ts
  {
    if ts == [] then "" else Render(ts[0]) + RenderAll(ts[1..])
  }

  // ---- cutting a tree ----

  /** The tree of a shorter text: cut nodes lie on the last-child spine, are marked, and hold less text. */
  predicate Cut(s: Tree, t: Tree)
    decreases s, 0
  {
    s == t || (s.rule == t.rule && s.partial && s.text <= t.text && CutList(s.children, t.children))
  }

  /** The first of the children, the last of them perhaps cut. */
  predicate CutList(ss: seq<Tree>, ts: seq<Tree>)
    decreases ss
  {
    || ss == []
    || (ts != [] && ss[0] == ts[0] && CutList(ss[1..], ts[1..]))
    || (ts != [] && |ss| == 1 && Cut(ss[0], ts[0]))
  }

  lemma PrefixAppend(x: string, y: string, z: string)
    requires y <= z
    ensures x + y <= x + z
  {
  }

  lemma PrefixMore(x: string, y: string, z: string)
    requires x <= y
    ensures x <= y + z
  {
  }

  /** What was rendered of a cut tree stays a prefix of what the whole tree renders to. */
  lemma {:induction false} RenderCut(s: Tree, t: Tree)
    requires Cut(s, t)
    ensures Render(s) <= Render(t)
    decreases s, 0
  {
    if s != t && s.text != "" {
      ItemsCut(s.children, t.children, true);
      AllCut(s.children, t.children);
      if s.children != [] {
        FirstCut(s.children, t.children);
        EscapeMonotone(Render(s.children[0]), Render(t.children[0]));
      }
      EscapeMonotone(s.text, t.text);
      SpineCut(s, t);
    }
  }

  lemma SpineCut(s: Tree, t: Tree)
    requires s.rule == t.rule && s.partial && s.text <= t.text && s.text != ""
    requires Escape(s.text) <= Escape(t.text)
    requires RenderItems(s.children, true) <= RenderItems(t.children, true)
    requires RenderAll(s.children) <= RenderAll(t.children)
    requires
      s.children != [] ==>
        && t.children != [] && Render(s.children[0]) <= Render(t.children[0])
        && Escape(Render(s.children[0])) <= Escape(Render(t.children[0]))
    ensures Render(s) <= Render(t)
  {
    hide Escape, RenderItems, RenderAll;
    var end := if t.rule.Array? then "]" else "}";
    var items, more := RenderItems(s.children, true), RenderItems(t.children, true) + if t.partial then "" else end;
    PrefixMore(items, RenderItems(t.children, true), if t.partial then "" else end);
    PrefixAppend("[", items, more);
    PrefixAppend("{", items, more);
  }

  lemma FirstCut(ss: seq<Tree>, ts: seq<Tree>)
    requires CutList(ss, ts) && ss != []
    ensures ts != [] && Render(ss[0]) <= Render(ts[0])
    decreases ss, 1
  {
    if ss[0] != ts[0] {
      RenderCut(ss[0], ts[0]);
    }
  }

  lemma {:induction false} ItemsCut(ss: seq<Tree>, ts: seq<Tree>, first: bool)
    requires CutList(ss, ts)
    ensures RenderItems(ss, first) <= RenderItems(ts, first)
    decreases ss, 2
  {
    if ss != [] {
      FirstCut(ss, ts);
      var comma := if first then "" else ",";
      PrefixAppend(comma, Render(ss[0]), Render(ts[0]));
      if ss[0] == ts[0] && CutList(ss[1..], ts[1..]) {
        ItemsCut(ss[1..], ts[1..], false);
        PrefixAppend(comma + Render(ss[0]), RenderItems(ss[1..], false), RenderItems(ts[1..], false));
      } else {
        assert ss[1..] == [];
        PrefixMore(comma + Render(ss[0]), comma + Render(ts[0]), RenderItems(ts[1..], false));
      }
    }
  }

  lemma {:induction false} AllCut(ss: seq<Tree>, ts: seq<Tree>)
    requires CutList(ss, ts)
    ensures RenderAll(ss) <= RenderAll(ts)
    decreases ss, 2
  {
    if ss != [] {
      FirstCut(ss, ts);
      if ss[0] == ts[0] && CutList(ss[1..], ts[1..]) {
        AllCut(ss[1..], ts[1..]);
        PrefixAppend(Render(ss[0]), RenderAll(ss[1..]), RenderAll(ts[1..]));
      } else {
        assert ss[1..] == [];
        PrefixMore(Render(ss[0]), Render(ts[0]), RenderAll(ts[1..]));
      }
    }
  }

  /** So the argument delta between two such trees is never refused, and appended to the old text gives the new one. */
  lemma DeltaOfCut(s: Tree, t: Tree)
    requires Cut(s, t)
    ensures ChatDiff.StringDiff(Render(s), Render(t)).Ok?
    ensures Render(s) + ChatDiff.StringDiff(Render(s), Render(t)).value == Render(t)
  {
    RenderCut(s, t);
  }

  // ---- the mark is needed ----

  lemma {:induction false} ItemsSplit(ts: seq<Tree>, us: seq<Tree>, first: bool)
    ensures RenderItems(ts + us, first) == RenderItems(ts, first) + RenderItems(us, first && ts == [])
    decreases ts
  {
    hide Render;
    if ts == [] {
      assert ts + us == us;
    } else {
      assert (ts + us)[0] == ts[0] && (ts + us)[1..] == ts[1..] + us;
      ItemsSplit(ts[1..], us, false);
    }
  }

  /** A closing mark where more text comes is a prefix only if that text begins with it. */
  lemma CloseFirst(text: string, close: string, more: string)
    requires |close| == 1
    ensures text + close <= text + more <==> more != "" && more[0] == close[0]
  {
    var s, t := text + close, text + more;
    assert s[|text|] == close[0];
    if more != "" {
      assert t[|text|] == more[0];
    }
  }

  lemma BracketText(t: Tree)
    requires (t.rule.Array? || t.rule.Dict?) && t.text != ""
    ensures
      Render(t)
      == ((if t.rule.Array? then "[" else "{") + RenderItems(t.children, true))
         + if t.partial then "" else if t.rule.Array? then "]" else "}"
  {
    hide RenderItems;
  }

  lemma MoreItems(ts: seq<Tree>)
    ensures ts == [] ==> RenderItems(ts, false) == ""
    ensures ts != [] ==> RenderItems(ts, false) != "" && RenderItems(ts, false)[0] == ','
  {
    hide Render;
  }

  /**
   A cut array or object with some child that is not marked partial closes too early: what it renders to is
   a prefix only if nothing was to follow.
   */
  lemma UnmarkedExactly(s: Tree, t: Tree)
    requires s.rule == t.rule && (s.rule.Array? || s.rule.Dict?) && !s.partial && s.text != "" && t.text != ""
    requires s.children != [] && s.children <= t.children
    ensures Render(s) <= Render(t) <==> s.children == t.children && !t.partial
  {
    hide Render, RenderItems;
    var rest := t.children[|s.children|..];
    assert t.children == s.children + rest;
    ItemsSplit(s.children, rest, true);
    MoreItems(rest);
    BracketText(s);
    BracketText(t);
    var close := if s.rule.Array? then "]" else "}";
    var head, items := (if s.rule.Array? then "[" else "{") + RenderItems(s.children, true), RenderItems(rest, false);
    var more := items + if t.partial then "" else close;
    assert Render(t) == head + more;
    CloseFirst(head, close, more);
  }

  /** The same for a string: its quote is closed too early unless its text is whole. */
  lemma UnmarkedString(s: Tree, t: Tree, c: Tree, d: Tree)
    requires s.rule == t.rule == String && !s.partial && s.text != "" && t.text != ""
    requires s.children == [c] && t.children == [d]
    requires c.rule == d.rule == StringContent && c.text <= d.text
    ensures Render(s) <= Render(t) <==> c.text == d.text && !t.partial
  {
    hide Escape, Render;
    var rest := d.text[|c.text|..];
    assert d.text == c.text + rest;
    EscapeAppend(c.text, rest);
    StringText(s, c);
    StringText(t, d);
    MoreText(rest);
    var head, more := "\"" + Escape(c.text), Escape(rest) + if t.partial then "" else "\"";
    assert Render(t) == head + more;
    CloseFirst(head, "\"", more);
  }

  lemma MoreText(text: string)
    ensures text == "" ==> Escape(text) == ""
    ensures text != "" ==> Escape(text) != "" && Escape(text)[0] != '"'
  {
    if text != "" {
      FirstOfEscape(text[0]);
      assert Escape(text)[0] == EscapeChar(text[0])[0];
    }
    hide EscapeChar;
  }

  lemma StringText(t: Tree, c: Tree)
    requires t.rule == String && t.text != "" && t.children == [c] && c.rule == StringContent
    ensures Render(t) == "\"" + Escape(c.text) + if t.partial then "" else "\""
  {
    hide Escape;
    EscapeNothing();
  }

  // ---- complete trees ----

  /** The tree of a whole value: every node holds some text, and none is marked. */
  predicate TreeOf(t: Tree, j: Json)
    decreases j, 1
  {
    t.rule == Value && t.text != "" && |t.children| == 1 && Whole(t.children[0], j)
  }

  predicate Whole(t: Tree, j: Json)
    decreases j, 0
  {
    && t.text != "" && !t.partial
    && match j
      case Atom(text) => (t.rule.Number? || t.rule.Bool? || t.rule.Null?) && t.text == text
      case Str(s) => t.rule == String && |t.children| == 1 && t.children[0].rule == StringContent
        && t.children[0].text == s
      case Arr(items) => t.rule == Array && TreesOf(t.children, items)
      case Obj(keys, values) => t.rule == Dict && MembersOf(t.children, keys, values)
  }

  predicate TreesOf(ts: seq<Tree>, items: seq<Json>)
    decreases items, 2
  {
    |ts| == |items| && (items != [] ==> TreeOf(ts[0], items[0]) && TreesOf(ts[1..], items[1..]))
  }

  predicate MembersOf(ts: seq<Tree>, keys: seq<string>, values: seq<Json>)
    decreases values, 2
  {
    && |ts| == |keys| == |values|
    && (values != [] ==>
        && KeyOf(ts[0], keys[0]) && TreeOf(ts[0].children[1], values[0])
        && MembersOf(ts[1..], keys[1..], values[1..]))
  }

  /** The key part of a member; the key may be empty. */
  predicate KeyOf(t: Tree, key: string) {
    && t.rule == Member && t.text != "" && |t.children| == 2
    && var k := t.children[0];
      && k.rule == Key && k.text != "" && !k.partial && |k.children| == 1
      && k.children[0].rule == KeyName && k.children[0].text == key
  }

  lemma RenderValue(t: Tree)
    requires t.rule == Value && t.text != "" && |t.children| == 1
    ensures Render(t) == Render(t.children[0])
  {
  }

  lemma RenderAtom(t: Tree, text: string)
    requires Whole(t, Atom(text)) && ValidJson(Atom(text))
    ensures Render(t) == PrintJson(Atom(text))
  {
  }

  lemma RenderBrackets(t: Tree, j: Json)
    requires Whole(t, j) && ValidJson(j)
    requires j.Arr? ==> RenderItems(t.children, true) == PrintItems(j.items)
    requires j.Obj? ==> RenderItems(t.children, true) == PrintMembers(j.keys, j.values)
    ensures j.Arr? || j.Obj? ==> Render(t) == PrintJson(j)
  {
    hide RenderItems, PrintItems, PrintMembers, TreesOf, MembersOf;
  }

  /** A complete tree renders to exactly the JSON text of its value. */
  lemma {:induction false} RenderWhole(t: Tree, j: Json)
    requires TreeOf(t, j) && ValidJson(j)
    ensures Render(t) == PrintJson(j)
    decreases j, 1
  {
    hide Render, PrintJson, RenderItems, PrintItems, PrintMembers, Quote;
    var c := t.children[0];
    RenderValue(t);
    match j
    case Atom(text) => RenderAtom(c, text);
    case Str(s) =>
      RenderString(c, s);
    case Arr(items) =>
      RenderArray(c.children, items, true);
      NoComma(PrintItems(items));
      RenderBrackets(c, j);
    case Obj(keys, values) =>
      RenderDict(c.children, keys, values, true);
      NoComma(PrintMembers(keys, values));
      RenderBrackets(c, j);
  }

  lemma NoComma(text: string)
    ensures "" + text == text
  {
  }

  lemma RenderString(t: Tree, s: string)
    requires Whole(t, Str(s))
    ensures Render(t) == Quote(s) == PrintJson(Str(s))
  {
    hide Escape;
    EscapeNothing();
  }

  function Comma(first: bool, empty: bool): string {
    if first || empty then "" else ","
  }

  lemma {:induction false} RenderArray(ts: seq<Tree>, items: seq<Json>, first: bool)
    requires TreesOf(ts, items) && ValidJson(Arr(items))
    ensures RenderItems(ts, first) == Comma(first, items == []) + PrintItems(items)
    decreases items, 2
  {
    hide Render, PrintJson;
    if items != [] {
      TreesStep(ts, items);
      RenderWhole(ts[0], items[0]);
      RenderArray(ts[1..], items[1..], false);
      hide TreesOf, ValidJson;
      ArrayStep(ts, items, first);
    }
  }

  lemma TreesStep(ts: seq<Tree>, items: seq<Json>)
    requires TreesOf(ts, items) && ValidJson(Arr(items)) && items != []
    ensures TreeOf(ts[0], items[0]) && ValidJson(items[0]) && TreesOf(ts[1..], items[1..]) && ValidJson(Arr(items[1..]))
  {
  }

  lemma ArrayStep(ts: seq<Tree>, items: seq<Json>, first: bool)
    requires |ts| == |items| > 0 && ValidJson(Arr(items)) && ValidJson(items[0]) && ValidJson(Arr(items[1..]))
    requires Render(ts[0]) == PrintJson(items[0])
    requires RenderItems(ts[1..], false) == Comma(false, items[1..] == []) + PrintItems(items[1..])
    ensures RenderItems(ts, first) == Comma(first, false) + PrintItems(items)
  {
    hide Render, PrintJson, ValidJson;
  }

  lemma RenderMember(t: Tree, key: string)
    requires KeyOf(t, key)
    ensures Render(t) == Quote(key) + ":" + Render(t.children[1])
  {
    hide Escape;
    EscapeNothing();
    var k, v := t.children[0], t.children[1];
    assert t.children[1..] == [v] && [v][1..] == [];
    assert RenderAll([v]) == Render(v) + "";
    assert Render(k.children[0]) == key;
    assert Render(k) == "\"" + Escape(key) + "\":";
    assert Quote(key) + ":" == Render(k);
  }

  lemma {:induction false} RenderDict(ts: seq<Tree>, keys: seq<string>, values: seq<Json>, first: bool)
    requires MembersOf(ts, keys, values) && ValidJson(Obj(keys, values))
    ensures RenderItems(ts, first) == Comma(first, values == []) + PrintMembers(keys, values)
    decreases values, 2
  {
    if values != [] {
      RenderMember(ts[0], keys[0]);
      RenderWhole(ts[0].children[1], values[0]);
      assert ValidJson(Obj(keys[1..], values[1..]));
      RenderDict(ts[1..], keys[1..], values[1..], false);
      hide Render, PrintJson, TreeOf, KeyOf, Quote;
      DictText(Comma(first, false), Quote(keys[0]), PrintJson(values[0]), RenderItems(ts[1..], false));
    }
  }

  lemma DictText(comma: string, key: string, value: string, rest: string)
    ensures comma + (key + ":" + value) + rest == comma + (key + ":" + value + rest)
  {
  }

  // ---- trees that are cut off ----

  /** The value received so far: complete, or marked where it, or its last part in turn, is cut off. */
  predicate OpenTree(t: Tree, j: Json)
    decreases j, 1
  {
    t.rule == Value && t.text != "" && |t.children| == 1 && (Whole(t.children[0], j) || OpenPart(t.children[0], j))
  }

  predicate OpenPart(t: Tree, j: Json)
    decreases j, 0
  {
    && t.text != "" && t.partial
    && match j
      case Atom(text) => (t.rule.Number? || t.rule.Bool? || t.rule.Null?) && t.text == text
      case Str(s) =>
        t.rule == String && if t.children == [] then s == ""
          else t.children[0].rule == StringContent && t.children[0].text == s
      case Arr(items) => t.rule == Array && OpenTrees(t.children, items)
      case Obj(keys, values) => t.rule == Dict && OpenMembers(t.children, keys, values)
  }

  predicate OpenTrees(ts: seq<Tree>, items: seq<Json>)
    decreases items, 2
  {
    && |ts| == |items|
    && (items != [] ==>
          if |items| == 1 then OpenTree(ts[0], items[0]) else TreeOf(ts[0], items[0]) && OpenTrees(ts[1..], items[1..]))
  }

  predicate OpenMembers(ts: seq<Tree>, keys: seq<string>, values: seq<Json>)
    decreases values, 2
  {
    && |ts| == |keys| == |values|
    && (values != [] ==>
          && KeyOf(ts[0], keys[0])
          && if |values| == 1 then OpenTree(ts[0].children[1], values[0])
             else TreeOf(ts[0].children[1], values[0]) && OpenMembers(ts[1..], keys[1..], values[1..]))
  }

  /** The closing marks that the marked nodes on the last-child spine still owe. */
  function Owed(t: Tree): string
    decreases t, 0
  {
    match t.rule
    case Value => if t.children == [] then "" else Owed(t.children[0])
    case String => if t.partial then "\"" else ""
    case Array => if t.partial then OwedLast(t.children) + "]" else ""
    case Dict => if t.partial then OwedLast(t.children) + "}" else ""
    case Member => OwedLast(t.children)
    case _ => ""
  }

  function OwedLast(ts: seq<Tree>): string
    decreases ts
  {
    if ts == [] then "" else if |ts| == 1 then Owed(ts[0]) else OwedLast(ts[1..])
  }

  lemma NothingOwed(t: Tree, j: Json)
    requires Whole(t, j)
    ensures Owed(t) == ""
  {
  }

  lemma NothingOwedWhole(t: Tree, j: Json)
    requires TreeOf(t, j)
    ensures Owed(t) == ""
  {
    NothingOwed(t.children[0], j);
  }

  /** What is rendered of a cut tree, and the closing marks owed, are the JSON text of the value so far. */
  lemma {:induction false} RenderOpen(t: Tree, j: Json)
    requires OpenTree(t, j) && ValidJson(j)
    ensures Render(t) + Owed(t) == PrintJson(j)
    decreases j, 1
  {
    hide Render, PrintJson, RenderItems, PrintItems, PrintMembers, Quote, Owed, OwedLast;
    var c := t.children[0];
    RenderValue(t);
    OwedValue(t);
    if Whole(c, j) {
      RenderWhole(t, j);
      NothingOwedWhole(t, j);
      NoMore(PrintJson(j));
    } else {
      match j
      case Atom(text) => OpenAtom(c, text);
      case Str(s) => OpenString(c, s);
      case Arr(items) =>
        OpenArray(c.children, items, true);
        NoComma(PrintItems(items));
        OpenBrackets(c, j);
      case Obj(keys, values) =>
        OpenDict(c.children, keys, values, true);
        NoComma(PrintMembers(keys, values));
        OpenBrackets(c, j);
    }
  }

  lemma NoMore(text: string)
    ensures text + "" == text
  {
  }

  lemma OwedValue(t: Tree)
    requires t.rule == Value && |t.children| == 1
    ensures Owed(t) == Owed(t.children[0])
  {
  }

  lemma OpenAtom(t: Tree, text: string)
    requires OpenPart(t, Atom(text)) && ValidJson(Atom(text))
    ensures Render(t) + Owed(t) == PrintJson(Atom(text))
  {
    NoMore(text);
  }

  lemma OpenString(t: Tree, s: string)
    requires OpenPart(t, Str(s))
    ensures Render(t) + Owed(t) == PrintJson(Str(s))
  {
    hide Escape;
    EscapeNothing();
    if t.children == [] {
      assert "\"" + "" + "\"" == Quote(s);
    } else {
      assert Render(t.children[0]) == Escape(s);
      assert Render(t) == "\"" + Escape(s);
    }
  }

  lemma OpenBrackets(t: Tree, j: Json)
    requires OpenPart(t, j) && ValidJson(j)
    requires j.Arr? ==> RenderItems(t.children, true) + OwedLast(t.children) == PrintItems(j.items)
    requires j.Obj? ==> RenderItems(t.children, true) + OwedLast(t.children) == PrintMembers(j.keys, j.values)
    ensures j.Arr? || j.Obj? ==> Render(t) + Owed(t) == PrintJson(j)
  {
    hide RenderItems, PrintItems, PrintMembers, OpenTrees, OpenMembers, OwedLast;
    var items, owed := RenderItems(t.children, true), OwedLast(t.children);
    if j.Arr? {
      assert "[" + items + "" == "[" + items;
      Enclosed("[", items, owed, "]");
    } else if j.Obj? {
      assert "{" + items + "" == "{" + items;
      Enclosed("{", items, owed, "}");
    }
  }

  lemma Enclosed(open: string, items: string, owed: string, close: string)
    ensures (open + items) + (owed + close) == open + (items + owed) + close
  {
  }

  lemma {:induction false} OpenArray(ts: seq<Tree>, items: seq<Json>, first: bool)
    requires OpenTrees(ts, items) && ValidJson(Arr(items))
    ensures RenderItems(ts, first) + OwedLast(ts) == Comma(first, items == []) + PrintItems(items)
    decreases items, 2
  {
    hide Render, PrintJson, Owed;
    if |items| == 1 {
      RenderOpen(ts[0], items[0]);
      hide OpenTrees, ValidJson;
      OneItem(ts, items, first);
    } else if items != [] {
      RenderWhole(ts[0], items[0]);
      assert ValidJson(Arr(items[1..]));
      OpenArray(ts[1..], items[1..], false);
      var c, v, w := Comma(first, false), PrintJson(items[0]), PrintItems(items[1..]);
      FirstItem(ts, first);
      MoreItemsOf(items);
      hide *;
      FourParts(c, v, RenderItems(ts[1..], false), OwedLast(ts[1..]), w);
    }
  }

  lemma OneItem(ts: seq<Tree>, items: seq<Json>, first: bool)
    requires |ts| == |items| == 1 && ValidJson(Arr(items)) && ValidJson(items[0])
    requires Render(ts[0]) + Owed(ts[0]) == PrintJson(items[0])
    ensures RenderItems(ts, first) + OwedLast(ts) == Comma(first, false) + PrintItems(items)
  {
    hide Render, PrintJson, ValidJson, Owed;
    assert ts[1..] == [] && RenderItems(ts[1..], false) == "";
    NoMore(Comma(first, false) + Render(ts[0]));
    NoMore(PrintJson(items[0]));
  }

  lemma FirstItem(ts: seq<Tree>, first: bool)
    requires |ts| > 1
    ensures RenderItems(ts, first) == (Comma(first, false) + Render(ts[0])) + RenderItems(ts[1..], false)
    ensures OwedLast(ts) == OwedLast(ts[1..])
  {
    hide Render, Owed;
  }

  lemma MoreItemsOf(items: seq<Json>)
    requires |items| > 1 && ValidJson(Arr(items)) && ValidJson(items[0]) && ValidJson(Arr(items[1..]))
    ensures PrintItems(items) == PrintJson(items[0]) + ("," + PrintItems(items[1..]))
  {
    hide PrintJson, ValidJson;
  }

  lemma FourParts(c: string, v: string, y: string, z: string, w: string)
    requires y + z == "," + w
    ensures ((c + v) + y) + z == c + (v + ("," + w))
  {
    assert ((c + v) + y) + z == c + (v + (y + z));
  }

  lemma {:induction false} OpenDict(ts: seq<Tree>, keys: seq<string>, values: seq<Json>, first: bool)
    requires OpenMembers(ts, keys, values) && ValidJson(Obj(keys, values))
    ensures RenderItems(ts, first) + OwedLast(ts) == Comma(first, values == []) + PrintMembers(keys, values)
    decreases values, 2
  {
    hide Render, PrintJson, Owed, KeyOf, Quote;
    if |values| == 1 {
      RenderMember(ts[0], keys[0]);
      OwedMember(ts[0], keys[0]);
      RenderOpen(ts[0].children[1], values[0]);
      hide OpenMembers, ValidJson;
      OneMember(ts, keys, values, first);
    } else if values != [] {
      RenderMember(ts[0], keys[0]);
      OwedMember(ts[0], keys[0]);
      RenderWhole(ts[0].children[1], values[0]);
      assert ValidJson(Obj(keys[1..], values[1..]));
      OpenDict(ts[1..], keys[1..], values[1..], false);
      var c, v := Comma(first, false), Quote(keys[0]) + ":" + PrintJson(values[0]);
      var w := PrintMembers(keys[1..], values[1..]);
      FirstItem(ts, first);
      MoreMembersOf(keys, values);
      hide *;
      FourParts(c, v, RenderItems(ts[1..], false), OwedLast(ts[1..]), w);
    }
  }

  lemma OwedMember(t: Tree, key: string)
    requires KeyOf(t, key)
    ensures |t.children| == 2 && Owed(t) == Owed(t.children[1])
  {
    assert t.children[1..] == [t.children[1]];
    assert OwedLast([t.children[1]]) == Owed(t.children[1]);
  }

  lemma OneMember(ts: seq<Tree>, keys: seq<string>, values: seq<Json>, first: bool)
    requires |ts| == |keys| == |values| == 1 && ValidJson(Obj(keys, values)) && ValidJson(values[0])
    requires |ts[0].children| == 2 && Owed(ts[0]) == Owed(ts[0].children[1])
    requires Render(ts[0]) == Quote(keys[0]) + ":" + Render(ts[0].children[1])
    requires Render(ts[0].children[1]) + Owed(ts[0].children[1]) == PrintJson(values[0])
    ensures RenderItems(ts, first) + OwedLast(ts) == Comma(first, false) + PrintMembers(keys, values)
  {
    hide Render, PrintJson, ValidJson, Owed, Quote;
    assert ts[1..] == [] && RenderItems(ts[1..], false) == "";
    var k, v, o := Quote(keys[0]), Render(ts[0].children[1]), Owed(ts[0].children[1]);
    NoMore(Comma(first, false) + (k + ":" + v));
    NoMore(k + ":" + PrintJson(values[0]));
    assert (Comma(first, false) + (k + ":" + v)) + o == Comma(first, false) + (k + ":" + (v + o));
  }

  lemma MoreMembersOf(keys: seq<string>, values: seq<Json>)
    requires |keys| == |values| > 1 && ValidJson(Obj(keys, values)) && ValidJson(values[0])
    requires ValidJson(Obj(keys[1..], values[1..]))
    ensures
      PrintMembers(keys, values)
      == (Quote(keys[0]) + ":" + PrintJson(values[0])) + ("," + PrintMembers(keys[1..], values[1..]))
  {
    hide PrintJson, ValidJson, Quote;
  }
}
