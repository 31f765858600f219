/** Which calls the factors accept, told by what the product accepts. */
module LoraAccepts {
  import opened Common
  import opened Tensors
  import opened LoraTensor
  import opened LoraProofs
  import opened LoraPermute
  import opened LoraIndex
  import opened LoraJoin
  import opened LoraKeys
  import opened LoraCat
  import opened LoraAxes
  import opened LoraChain

  // ---- reshape ----

  /**
   Of the shapes that B·A can take, with elements and a positive rank, the factors take those of two axes or
   more that keep the last one, if A has no real batch axes, and no others.
   */
  lemma ReshapeAccepts(l: Lora, newShape: seq<int>)
    requires l.Coherent() && l.Rank() > 0 && Last(l.Shape()) > 0 && OneHole(newShape)
    ensures
      ReshapeLora(l, newShape).Ok?
      <==> && |newShape| >= 2 && NoBatchAxes(l)
           && DenseReshape(Dense(l), newShape).Ok?
           && Last(DenseReshape(Dense(l), newShape).value.shape) == Last(l.Shape())
  {
    hide Dense, Prod, Expand, Infer, OneHole;
    BatchOnes(l);
    if ReshapeLora(l, newShape).Ok? {
      ReshapeParts(l, newShape);
      ReshapeCommutes(l, newShape);
      var r := ReshapeLora(l, newShape).value;
      SameSizeA(r);
      DataSizes(l, r);
      Positive2(l.Rank(), Last(l.A.shape));
      NoBatch(l);
    } else if |newShape| >= 2 && NoBatchAxes(l) && DenseReshape(Dense(l), newShape).Ok?
           && Last(DenseReshape(Dense(l), newShape).value.shape) == Last(l.Shape()) {
      ReshapeSucceeds(l, newShape);
    }
  }

  lemma DataSizes(l: Lora, r: Lora)
    requires l.WellFormed() && r.WellFormed() && r.A.data == l.A.data
    ensures Prod(r.A.shape) == Prod(l.A.shape)
  {
  }

  lemma Positive2(a: nat, b: nat)
    requires a > 0 && b > 0
    ensures a * b > 0
  {
  }

  // ---- scaling ----

  lemma OneLast(s: Shape, d: Shape, u: Shape)
    requires s != [] && d != [] && Init(s) == Init(d) && (u == [] || Last(u) == 1)
    ensures Broadcastable(s, u) <==> Broadcastable(d, u)
    ensures Broadcastable(s, u) && |u| <= |s| ==> |Broadcast(s, u)| == |s| && Last(Broadcast(s, u)) == Last(s)
  {
    if Broadcastable(s, u) {
      BroadcastLonger(s, u);
    }
  }

  /** Scaling is accepted if B·A can be scaled, the last axis of the factor is 1, and it has no axis more than B·A. */
  lemma ScaleAccepts(l: Lora, f: Factor)
    requires l.Coherent()
    ensures
      var o := AsTensor(f);
      ScaleLora(l, f).Ok?
      <==> Mul(Dense(l), o).Ok? && (o.shape == [] || Last(o.shape) == 1) && |o.shape| <= |l.Shape()|
  {
    hide Dense, Prod, Broadcast, Broadcastable;
    var o := AsTensor(f);
    Shapes(l);
    if o.shape == [] || Last(o.shape) == 1 {
      OneLast(l.B.shape, l.Shape(), o.shape);
      if Broadcastable(l.B.shape, o.shape) {
        BroadcastLonger(l.B.shape, o.shape);
      }
    }
  }

  // ---- one index on the first axis ----

  /** An integer is accepted for more than two axes, where it names an entry of both factors. */
  lemma IntKeyAccepts(l: Lora, j: int)
    requires l.Coherent()
    ensures
      GetItem(l, IntKey(j)).Ok?
      <==> |l.Shape()| > 2 && DenseIndex(Dense(l), [Int(j)]).Ok? && -l.A.shape[0] <= j < l.A.shape[0]
  {
    hide Take, Dense, DenseIndex, Prod;
    IndexFirst(l.A, Int(j));
    IndexFirst(l.B, Int(j));
    IndexFirst(Dense(l), Int(j));
    if |l.Shape()| > 2 {
      ShapeHead(l);
      if Resolve(Int(j), l.A.shape[0]).Ok? && Resolve(Int(j), l.B.shape[0]).Ok? {
        HeadTaken(l, Int(j));
      }
    }
  }

  /** l[1] of two entries when A is stretched over them: the factors refuse what B·A accepts. */
  lemma StretchedKey()
    ensures Zero([1, 1, 1], [2, 1, 1]).Coherent()
    ensures var l := Zero([1, 1, 1], [2, 1, 1]);
      GetItem(l, IntKey(1)).Err? && DenseIndex(Dense(l), [Int(1)]).Ok?
  {
    hide Take, Dense, DenseIndex, Prod;
    UnitShape(2);
    var l := Zero([1, 1, 1], [2, 1, 1]);
    assert l.Shape() == [2, 1, 1];
    IntKeyAccepts(l, 1);
    IndexFirst(Dense(l), Int(1));
  }

  /** A slice is accepted exactly where B·A accepts it. */
  lemma SliceKeyAccepts(l: Lora, s: Item)
    requires l.Coherent() && s.Slice?
    ensures GetItem(l, SliceKey(s)).Ok? <==> DenseIndex(Dense(l), [s]).Ok?
  {
    hide Take, Dense, DenseIndex, Prod;
    IndexFirst(l.A, s);
    IndexFirst(l.B, s);
    IndexFirst(Dense(l), s);
    if |l.Shape()| > 2 {
      ShapeHead(l);
    }
    if Resolve(s, l.B.shape[0]).Ok? {
      HeadTaken(l, s);
    }
  }

  lemma TakenHead(t: Tensor, p: Pick)
    requires |t.shape| >= 2
    ensures
      var s := TakeAt(t, 0, p).shape;
      s == if p.One? then t.shape[1..] else [p.count] + t.shape[1..]
  {
    hide Take;
    var items := Fulls(t.shape)[0 := p];
    FirstPicked(items, t.shape, p);
  }

  lemma {:induction false} FirstPicked(items: seq<Pick>, shape: Shape, p: Pick)
    requires |items| == |shape| > 0 && items[0] == p && forall i :: 0 < i < |shape| ==> items[i] == Full(shape[i])
    ensures PickedShape(items) == if p.One? then shape[1..] else [p.count] + shape[1..]
    decreases |items|
  {
    if |items| == 1 {
      assert Init(items) == [];
      assert PickedShape([]) == [];
    } else {
      FirstPicked(Init(items), Init(shape), p);
      assert shape[1..] == Init(shape)[1..] + [Last(shape)];
    }
  }

  /** The factors that one entry for the first axis leaves. */
  lemma HeadTaken(l: Lora, item: Item)
    requires l.WellFormed() && item != Ellipsis && (item.Int? ==> |l.Shape()| > 2)
    requires Resolve(item, l.A.shape[0]).Ok? && Resolve(item, l.B.shape[0]).Ok?
    ensures
      var A, B := TakeAt(l.A, 0, Resolve(item, l.A.shape[0]).value), TakeAt(l.B, 0, Resolve(item, l.B.shape[0]).value);
      Make(if |l.Shape()| > 2 then A else l.A, B).Ok?
  {
    hide Take, TakeAt, Prod, Resolve;
    TakenHead(l.A, Resolve(item, l.A.shape[0]).value);
    TakenHead(l.B, Resolve(item, l.B.shape[0]).value);
  }

  // ---- tuples ----

  lemma LeadNotEmpty(l: Lora, items: seq<Item>)
    requires l.Coherent() && |items| == |l.Shape()| && Resolves(Init(Init(items)), l.BLead()).Ok?
    ensures LeadItems(Init(Init(items)), l.A.shape).Ok?
  {
    hide Prod;
    var lead := Init(Init(items));
    forall i | 0 <= i < |lead| && lead[i].Int?
      ensures l.A.shape[i] > 0
    {
      assert Resolve(lead[i], l.BLead()[i]).Ok?;
      assert l.ALead()[i] == 1 || l.ALead()[i] == l.BLead()[i];
    }
    LeadItemsSucceed(lead, l.A.shape);
  }

  /** With two slices last, the factors accept exactly the complete keys that B·A accepts. */
  lemma TupleAccepts(l: Lora, items: seq<Item>)
    requires l.Coherent() && |items| == |l.Shape()| && Ellipsis !in items
    requires Last(items).Slice? && Last(Init(items)).Slice?
    ensures GetTuple(l, items).Ok? <==> DenseIndex(Dense(l), items).Ok?
  {
    hide Take, Dense, Resolve, Resolves, LeadItems, Prod, LeadItemSafe, LeadPairs;
    if GetTuple(l, items).Ok? {
      TupleParts(l, items);
    } else if DenseIndex(Dense(l), items).Ok? {
      var lead, row, col := Init(Init(items)), Last(Init(items)), Last(items);
      assert items == lead + [row] + [col] && Init(items) == lead + [row];
      Shapes(l);
      ResolvesParts(lead, row, col, l.BLead(), Last(Init(l.B.shape)), Last(l.A.shape));
      LeadNotEmpty(l, items);
      ItemParts(l, items);
      LeadPicks(lead, l.ALead(), l.BLead(), [l.Rank()] + [Last(l.A.shape)]);
      PairAccepted(l, lead, row, col);
    }
  }

  lemma PairAccepted(l: Lora, lead: seq<Item>, row: Item, col: Item)
    requires l.WellFormed() && |lead| == |l.ALead()| && row.Slice? && col.Slice?
    requires LeadItems(lead, l.A.shape).Ok? && Resolves(LeadItems(lead, l.A.shape).value, l.ALead()).Ok?
    requires Resolves(lead, l.BLead()).Ok?
    requires Resolve(row, Last(Init(l.B.shape))).Ok? && Resolve(col, Last(l.A.shape)).Ok?
    requires
      var ps, qs := Resolves(LeadItems(lead, l.A.shape).value, l.ALead()).value, Resolves(lead, l.BLead()).value;
      forall i :: 0 <= i < |lead| ==> (ps[i].Range? <==> qs[i].Range?)
    ensures GetTuple(l, lead + [row] + [col]).Ok?
  {
    hide Take, Dense, Resolve, Resolves, LeadItems, Prod;
    var items := lead + [row] + [col];
    assert Init(items) == lead + [row] && Init(Init(items)) == lead;
    var found := LeadItems(lead, l.A.shape).value;
    var ps, qs := Resolves(found, l.ALead()).value, Resolves(lead, l.BLead()).value;
    var p, q := Resolve(row, Last(Init(l.B.shape))).value, Resolve(col, Last(l.A.shape)).value;
    Shapes(l);
    ResolveColon(l.Rank());
    ResolvesParts(found, COLON, col, l.ALead(), l.Rank(), Last(l.A.shape));
    assert Pad(lead + [row], |l.B.shape|) == lead + [row] + [COLON];
    ResolvesParts(lead, row, COLON, l.BLead(), Last(Init(l.B.shape)), l.Rank());
    LeadMismatch(ps, qs);
    PickedLengths(ps, Full(l.Rank()), q);
    PickedLengths(qs, p, Full(l.Rank()));
    LastTwo(PickedShape(ps), l.Rank(), q.count);
    LastTwo(PickedShape(qs), p.count, l.Rank());
  }

  lemma LastTwo(s: Shape, x: nat, y: nat)
    ensures Last(s + [x] + [y]) == y && Last(Init(s + [x] + [y])) == x
  {
  }

  // ---- stack and cat ----

  /** Stacking is accepted, unless a keyword names another axis, if the products stack and the A's have one shape. */
  lemma StackAccepts(ls: seq<Lora>, dim: DimArg)
    requires AllCoherent(ls)
    ensures
      StackLora(ls, dim).Ok?
      <==> && KeywordDim(dim) == 0 && DenseStack(DenseAll(ls), Keyword(0)).Ok?
           && (forall c :: 0 <= c < |ls| ==> ls[c].A.shape == ls[0].A.shape)
  {
    hide Stack, Dense, Prod;
    if StackLora(ls, dim).Ok? {
      StackedShapes(ls);
      StackCommutes(ls, Keyword(0));
    } else if KeywordDim(dim) == 0 && DenseStack(DenseAll(ls), Keyword(0)).Ok?
           && forall c :: 0 <= c < |ls| ==> ls[c].A.shape == ls[0].A.shape {
      SameStacks(ls);
      StackedShapes(ls);
    }
  }

  lemma SameStacks(ls: seq<Lora>)
    requires AllCoherent(ls) && Stackable(DenseAll(ls)) && forall c :: 0 <= c < |ls| ==> ls[c].A.shape == ls[0].A.shape
    ensures Stackable(FactorsA(ls)) && Stackable(FactorsB(ls))
  {
    hide Dense, Prod;
    forall c | 0 <= c < |ls|
      ensures ls[c].B.shape == ls[0].B.shape
    {
      assert DenseAll(ls)[c] in DenseAll(ls);
      assert ls[c].Coherent() && ls[0].Coherent() && ls[c].Shape() == ls[0].Shape();
      Shapes(ls[c]);
      Shapes(ls[0]);
      assert Init(ls[c].Shape()) == Init(ls[0].Shape());
    }
    EachIs(FactorsA(ls));
    EachIs(FactorsB(ls));
  }

  lemma EachIs(ts: seq<Tensor>)
    requires ts != [] && forall c :: 0 <= c < |ts| ==> ts[c].shape == ts[0].shape
    ensures Stackable(ts)
  {
  }

  lemma TailOfB(l: Lora)
    requires l.WellFormed()
    ensures |l.Shape()| >= 2 && l.B.shape[1..] == Init(l.Shape()[1..]) + [l.Rank()]
  {
    hide Prod;
    assert l.B.shape == Init(l.Shape()) + [l.Rank()];
  }

  /** Operands of one rank whose products join have B's that join. */
  lemma JoinB(ls: seq<Lora>)
    requires AllCoherent(ls) && Joinable(DenseAll(ls), 0)
    requires forall c :: 0 <= c < |ls| ==> ls[c].Rank() == ls[0].Rank()
    ensures Joinable(FactorsB(ls), 0)
  {
    hide Dense, Prod;
    var ts := FactorsB(ls);
    forall c | 0 <= c < |ls|
      ensures ts[c].shape != [] && ts[c].shape[1..] == ts[0].shape[1..]
    {
      assert DenseAll(ls)[c] in DenseAll(ls);
      assert ls[c].Coherent() && ls[0].Coherent();
      TailOfB(ls[c]);
      TailOfB(ls[0]);
    }
    TailsJoin(ts);
  }

  lemma RankOfA(ls: seq<Lora>, c: nat)
    requires AllCoherent(ls) && c < |ls| && |ls[0].A.shape| > 2 && Joinable(FactorsA(ls), 0)
    ensures ls[c].Rank() == ls[0].Rank()
  {
    hide Prod;
    assert ls[c].Coherent() && ls[0].Coherent();
    assert FactorsA(ls)[c] in FactorsA(ls);
    var s, u := ls[c].A.shape, ls[0].A.shape;
    assert s[1..] == u[1..];
    assert s[|s| - 2] == s[1..][|s| - 3] && u[|u| - 2] == u[1..][|u| - 3];
  }

  /**
   Concatenating is accepted, unless a keyword names another axis, if the products join along the first one and
   the A's are one matrix, or join as well if there are more axes.
   */
  lemma CatAccepts(ls: seq<Lora>, dim: DimArg)
    requires AllCoherent(ls)
    ensures
      CatLora(ls, dim).Ok?
      <==> && KeywordDim(dim) == 0 && DenseCat(DenseAll(ls), Keyword(0)).Ok?
           && (if |ls[0].A.shape| > 2 then Joinable(FactorsA(ls), 0)
               else forall c :: 0 <= c < |ls| ==> ls[c].A == ls[0].A)
  {
    hide Cat, Dense, Prod, Joinable;
    if CatLora(ls, dim).Ok? {
      DenseTails(ls, dim);
    } else if KeywordDim(dim) == 0 && DenseCat(DenseAll(ls), Keyword(0)).Ok? {
      assert ls[0].Coherent();
      if |ls[0].A.shape| > 2 && Joinable(FactorsA(ls), 0) {
        forall c | 0 <= c < |ls|
          ensures ls[c].Rank() == ls[0].Rank()
        {
          RankOfA(ls, c);
        }
        JoinB(ls);
        JoinedShapes(ls);
      } else if |ls[0].A.shape| == 2 && forall c :: 0 <= c < |ls| ==> ls[c].A == ls[0].A {
        JoinB(ls);
        CatMatrices(ls);
      }
    }
  }
}
