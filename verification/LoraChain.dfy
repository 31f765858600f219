/** Whole chains of operations on the factors, and the calls on which the factors go wrong. */
module LoraChain {
  import opened Common
  import opened Tensors
  import opened LoraTensor
  import opened LoraProofs
  import opened LoraPermute
  import opened LoraJoin
  import opened LoraSplit
  import opened LoraKeys
  import opened LoraEllipsis
  import opened LoraCat

  datatype Op =
    | View(shape: seq<int>)
    | PermuteBy(dims: seq<int>)
    | SwapAxes(i: int, j: int)
    | Scale(f: Factor)
    | Chunk(spec: Sizes, dim: int, k: nat)

  function ApplyLora(l: Lora, op: Op): (r: LoraResult)
    requires l.WellFormed()
    ensures r.Ok? ==> r.value.WellFormed()
  {
    match op
    case View(shape) => ReshapeLora(l, shape)
    case PermuteBy(dims) => PermuteLora(l, dims)
    case SwapAxes(i, j) => TransposeLora(l, i, j)
    case Scale(f) => ScaleLora(l, f)
    case Chunk(spec, dim, k) =>
      var ls :- SplitLora(l, spec, dim);
      if k < |ls| then Ok(ls[k]) else Err(IndexError)
  }

  function ApplyDense(t: Tensor, op: Op): TensorResult {
    match op
    case View(shape) => DenseReshape(t, shape)
    case PermuteBy(dims) => DensePermute(t, dims)
    case SwapAxes(i, j) => DenseTranspose(t, i, j)
    case Scale(f) => Mul(t, AsTensor(f))
    case Chunk(spec, dim, k) =>
      var ts :- DenseSplit(t, spec, dim);
      if k < |ts| then Ok(ts[k]) else Err(IndexError)
  }

  function RunLora(l: Lora, ops: seq<Op>): (r: LoraResult)
    requires l.WellFormed()
    ensures r.Ok? ==> r.value.WellFormed()
    decreases |ops|
  {
    if ops == [] then Ok(l)
    else
      var next :- ApplyLora(l, ops[0]);
      RunLora(next, ops[1..])
  }

  function RunDense(t: Tensor, ops: seq<Op>): TensorResult
    decreases |ops|
  {
    if ops == [] then Ok(t)
    else
      var next :- ApplyDense(t, ops[0]);
      RunDense(next, ops[1..])
  }

  /** Every axis number names an axis, and a view leaves one size open at most and has the size of the product. */
  predicate OpOk(l: Lora, op: Op)
    requires l.WellFormed()
  {
    match op
    case View(shape) => OneHole(shape) && (l.Rank() > 0 || SizesAgree(l, shape))
    case PermuteBy(dims) => forall i :: 0 <= i < |dims| ==> dims[i] < |l.Shape()|
    case Chunk(_, dim, _) => dim + |l.Shape()| >= 0
    case _ => true
  }

  /** The same of every step, on what the steps before it give. */
  predicate Guarded(l: Lora, ops: seq<Op>)
    requires l.WellFormed() && RunLora(l, ops).Ok?
    decreases |ops|
  {
    ops == [] || (OpOk(l, ops[0]) && Guarded(ApplyLora(l, ops[0]).value, ops[1..]))
  }

  /** One step that returns is accepted by B·A exactly under its guard, and then means the same there. */
  lemma StepCommutes(l: Lora, op: Op)
    requires l.Coherent() && ApplyLora(l, op).Ok?
    ensures OpOk(l, op) <==> ApplyDense(Dense(l), op).Ok?
    ensures
      var r := ApplyLora(l, op).value;
      OpOk(l, op) ==> r.Coherent() && r.Rank() == l.Rank() && ApplyDense(Dense(l), op) == Ok(Dense(r))
  {
    hide Dense, ReshapeLora, PermuteLora, TransposeLora, ScaleLora, SplitLora, OneHole, SizesAgree;
    hide DenseReshape, DensePermute, DenseTranspose, Mul, DenseSplit, Prod;
    match op
    case View(shape) =>
      ReshapeParts(l, shape);
      ReshapeCommutes(l, shape);
    case PermuteBy(dims) =>
      PermuteCommutes(l, dims);
      PermuteRefuses(Dense(l), dims);
    case SwapAxes(i, j) =>
      TransposeCommutes(l, i, j);
    case Scale(f) =>
      ScaleCommutes(l, f);
    case Chunk(spec, dim, k) =>
      SplitCommutes(l, spec, dim);
      SplitRefuses(Dense(l), spec, dim);
  }

  lemma PermuteRefuses(t: Tensor, dims: seq<int>)
    ensures DensePermute(t, dims).Ok? ==> forall i :: 0 <= i < |dims| ==> dims[i] < |t.shape|
  {
    hide Permute;
  }

  lemma SplitRefuses(t: Tensor, spec: Sizes, dim: int)
    ensures DenseSplit(t, spec, dim).Ok? ==> dim + |t.shape| >= 0
  {
    hide SplitAxis;
  }

  /**
   A chain that runs on the factors runs on B·A exactly when every step is guarded, and then ends in factors
   of what it makes of B·A.
   */
  lemma {:induction false} ChainCommutes(l: Lora, ops: seq<Op>)
    requires l.Coherent() && RunLora(l, ops).Ok?
    ensures Guarded(l, ops) <==> RunDense(Dense(l), ops).Ok?
    ensures
      Guarded(l, ops) ==>
        RunLora(l, ops).value.Coherent() && RunDense(Dense(l), ops) == Ok(Dense(RunLora(l, ops).value))
    decreases |ops|
  {
    hide Dense, ApplyLora, ApplyDense, OpOk;
    if ops != [] {
      StepCommutes(l, ops[0]);
      if OpOk(l, ops[0]) {
        ChainCommutes(ApplyLora(l, ops[0]).value, ops[1..]);
      }
    }
  }

  // ---- a guard that looks at the call only ----

  /** On n axes: every axis number names an axis, and a view leaves one size open at most. */
  predicate InRange(op: Op, n: nat) {
    match op
    case View(shape) => OneHole(shape)
    case PermuteBy(dims) => forall i :: 0 <= i < |dims| ==> dims[i] < n
    case Chunk(_, dim, _) => dim + n >= 0
    case _ => true
  }

  /** How many axes there are after an operation. */
  function AxesAfter(op: Op, n: nat): nat {
    if op.View? then |op.shape| else n
  }

  predicate AllInRange(ops: seq<Op>, n: nat)
    decreases |ops|
  {
    ops == [] || (InRange(ops[0], n) && AllInRange(ops[1..], AxesAfter(ops[0], n)))
  }

  lemma PermuteAxes(t: Tensor, dims: seq<int>)
    ensures DensePermute(t, dims).Ok? ==> |DensePermute(t, dims).value.shape| == |t.shape|
  {
    hide Permute;
  }

  lemma TransposeAxes(t: Tensor, i: int, j: int)
    ensures DenseTranspose(t, i, j).Ok? ==> |DenseTranspose(t, i, j).value.shape| == |t.shape|
  {
    hide Exchanged;
  }

  lemma ScaleAxes(l: Lora, f: Factor)
    requires l.WellFormed() && ScaleLora(l, f).Ok?
    ensures |ScaleLora(l, f).value.Shape()| == |l.Shape()|
  {
    hide Mul, Prod;
  }

  lemma ChunkAxes(t: Tensor, spec: Sizes, dim: int, k: nat)
    ensures
      var r := DenseSplit(t, spec, dim);
      r.Ok? && k < |r.value| ==> |r.value[k].shape| == |t.shape|
  {
    hide Narrow, Chunks;
    var d := if dim < 0 then dim + |t.shape| else dim;
    if 0 <= d < |t.shape| && SplitAxis(t, spec, d).Ok? {
      SectionsTotal(spec, t.shape[d]);
      ChunkShapes(t, d, 0, Sections(spec, t.shape[d]).value);
    }
  }

  lemma StepAxes(l: Lora, op: Op)
    requires l.Coherent() && ApplyLora(l, op).Ok? && OpOk(l, op)
    ensures |ApplyLora(l, op).value.Shape()| == AxesAfter(op, |l.Shape()|)
  {
    hide Dense, ReshapeLora, PermuteLora, TransposeLora, ScaleLora, SplitLora, OneHole, SizesAgree;
    hide DenseReshape, DensePermute, DenseTranspose, Mul, DenseSplit, Prod;
    StepCommutes(l, op);
    match op
    case View(shape) => ReshapeParts(l, shape);
    case PermuteBy(dims) => PermuteAxes(Dense(l), dims);
    case SwapAxes(i, j) => TransposeAxes(Dense(l), i, j);
    case Scale(f) => ScaleAxes(l, f);
    case Chunk(spec, dim, k) => ChunkAxes(Dense(l), spec, dim, k);
  }

  /** For factors of a positive rank the guard can be read off the operations and the number of axes. */
  lemma {:induction false} RangeGuards(l: Lora, ops: seq<Op>)
    requires l.Coherent() && l.Rank() > 0 && RunLora(l, ops).Ok?
    ensures Guarded(l, ops) <==> AllInRange(ops, |l.Shape()|)
    decreases |ops|
  {
    hide ApplyLora, Dense, OneHole, SizesAgree;
    if ops != [] && OpOk(l, ops[0]) {
      StepCommutes(l, ops[0]);
      StepAxes(l, ops[0]);
      RangeGuards(ApplyLora(l, ops[0]).value, ops[1..]);
    }
  }

  // ---- where the factors go wrong ----

  /** Factors of the given shapes, all elements zero. */
  function Zero(a: Shape, b: Shape): (l: Lora)
    ensures l.A.shape == a && l.B.shape == b && l.A.Valid() && l.B.Valid()
  {
    Lora(Tensor(a, Repeat(0.0, Prod(a))), Tensor(b, Repeat(0.0, Prod(b))))
  }

  /** Factors of rank 0 take on a shape that their product cannot have. */
  lemma RankZeroReshape()
    ensures var l := Zero([0, 3], [2, 0]);
      l.Coherent() && ReshapeLora(l, [5, 3]).Ok? && DenseReshape(Dense(l), [5, 3]).Err?
  {
    hide Dense;
    var l := Zero([0, 3], [2, 0]);
    assert l.Coherent();
    assert Prod(l.A.shape) == 0 && Prod(l.B.shape) == 0;
    assert Prod([2, 3]) == 6 && Prod([5, 3]) == 15;
    assert l.Shape() == [2, 3];
    assert Natural([5, 3]).value == [5, 3];
    assert Ones(0) + [0] + [3] == [0, 3] && Init([5, 3]) + [0] == [5, 0];
    assert Prod([0, 3]) == 0 && Prod([5, 0]) == 0;
  }

  lemma {:induction false} UnitProd(s: Shape)
    requires forall i :: 0 <= i < |s| ==> s[i] == 1
    ensures Prod(s) == 1
    decreases |s|
  {
    if s != [] {
      UnitProd(Init(s));
    }
  }

  lemma HolesExpand(s: seq<int>)
    requires s == [-1, -1, 1, 1]
    ensures Expand(s, 1) == Ok([1, 1, 1, 1]) && !OneHole(s)
  {
    hide IntProd;
    OnesProduct(s);
    assert s[0] == -1 && s[1] == -1;
    assert Expand(s, 1).value == [1, 1, 1, 1];
  }

  lemma UnitReshape(t: Tensor, s: Shape)
    requires t.Valid() && (forall i :: 0 <= i < |t.shape| ==> t.shape[i] == 1) && forall i :: 0 <= i < |s| ==> s[i] == 1
    ensures Reshape(t, s) == Ok(Tensor(s, t.data))
  {
    UnitProd(t.shape);
    UnitProd(s);
    hide Prod;
  }

  /** Two sizes left open: the class replaces both by one quotient, a dense tensor refuses. */
  lemma TwoHoles()
    ensures Zero([1, 1], [1, 1]).Coherent() && Zero([1, 1], [1, 1]).Rank() == 1
    ensures var l := Zero([1, 1], [1, 1]);
      ReshapeLora(l, [-1, -1, 1, 1]).Ok? && DenseReshape(Dense(l), [-1, -1, 1, 1]).Err?
  {
    hide Dense, Prod, Expand, OneHole, Reshape;
    var l, s := Zero([1, 1], [1, 1]), [-1, -1, 1, 1];
    assert l.Shape() == [1, 1];
    UnitProd([1, 1]);
    HolesExpand(s);
    var u: Shape := [1, 1, 1, 1];
    assert Ones(2) + [1] + [1] == u && Init(u) + [1] == u;
    UnitReshape(l.A, u);
    UnitReshape(l.B, u);
    UnitProd(u);
    assert Tensor(u, l.A.data).Valid() && Tensor(u, l.B.data).Valid();
    assert Make(Tensor(u, l.A.data), Tensor(u, l.B.data)).Ok?;
  }

  lemma {:induction false} OnesProduct(s: seq<int>)
    requires forall i :: 0 <= i < |s| ==> s[i] == 1 || s[i] == -1
    ensures IntProd(Skip1(s)) == 1
    decreases |s|
  {
    if s != [] {
      OnesProduct(Init(s));
      assert Init(Skip1(s)) == Skip1(Init(s));
    }
  }

  lemma NoPairs(As: seq<Tensor>)
    requires forall t :: t in As ==> t.Valid()
    ensures MakeAll(As, []) == Ok([])
  {
  }

  lemma PairsStep(As: seq<Tensor>, Bs: seq<Tensor>, l: Lora, ls: seq<Lora>)
    requires (forall t :: t in As ==> t.Valid()) && (forall t :: t in Bs ==> t.Valid()) && As != [] && Bs != []
    requires Make(As[0], Bs[0]) == Ok(l) && MakeAll(As[1..], Bs[1..]) == Ok(ls)
    ensures MakeAll(As, Bs) == Ok([l] + ls)
  {
    hide Make;
  }

  lemma OnePair(As: seq<Tensor>, B: Tensor)
    requires (forall t :: t in As ==> t.Valid()) && B.Valid() && |As| > 0 && Lora(As[0], B).WellFormed()
    ensures MakeAll(As, [B]) == Ok([Lora(As[0], B)])
  {
    assert [B][1..] == [];
    NoPairs(As[1..]);
    hide MakeAll;
    PairsStep(As, [B], Lora(As[0], B), []);
    assert [Lora(As[0], B)] + [] == [Lora(As[0], B)];
  }

  /** Axis -3 of a matrix: B is cut on its rank axis, A on its columns, and one pair of chunks is returned. */
  lemma SplitPastTheFront()
    ensures Zero([4, 8], [6, 4]).Coherent()
    ensures var l := Zero([4, 8], [6, 4]);
      && SplitLora(l, Every(4), -3).Ok? && DenseSplit(Dense(l), Every(4), -3).Err?
      && |SplitLora(l, Every(4), -3).value| == 1 && SplitLora(l, Every(4), -3).value[0].Shape() == [6, 4]
  {
    hide Dense, Take, Prod;
    var l := Zero([4, 8], [6, 4]);
    assert |l.Shape()| == 2;
    CutInFours(l.A, 4, 8);
    CutInFours(l.B, 6, 4);
    hide SplitAxis, Zero;
    var As, Bs := SplitAxis(l.A, Every(4), 1).value, SplitAxis(l.B, Every(4), 1).value;
    assert Bs == [Bs[0]];
    assert Lora(As[0], Bs[0]).WellFormed() by {
      assert Init([4, 4]) == [4];
    }
    assert Init([4, 4]) == [4] && Init([6, 4]) == [6];
    OnePair(As, Bs[0]);
    assert Init([6, 4]) + [4] == [6, 4];
  }

  lemma CutInFours(t: Tensor, rows: nat, columns: nat)
    requires t.shape == [rows, columns] && (columns == 4 || columns == 8)
    ensures
      var r := SplitAxis(t, Every(4), 1);
      r.Ok? && |r.value| == columns / 4 && r.value[0].shape == [rows, 4]
  {
    hide Take, Prod, Narrow;
    assert EqualSections(4, 4) == [4] && EqualSections(4, 8) == [4] + EqualSections(4, 4) == [4, 4];
    SectionsTotal(Every(4), columns);
    ChunkShapes(t, 1, 0, EqualSections(4, columns));
    assert [rows, columns][1 := 4] == [rows, 4];
  }

  lemma UnitShape(n: nat)
    ensures Prod([n, 1, 1]) == n
    ensures Zero([1, 1, 1], [n, 1, 1]).Coherent()
  {
    assert Prod([n]) == n && Prod([n, 1]) == n by {
      assert Init([n]) == [] && Init([n, 1]) == [n];
    }
    assert Init([n, 1, 1]) == [n, 1];
  }

  /** Axis 3 of three axes: the factors count it from the end and accept it. */
  lemma AxisPastTheEnd()
    ensures Zero([1, 1, 1], [1, 1, 1]).Coherent()
    ensures var l := Zero([1, 1, 1], [1, 1, 1]);
      PermuteLora(l, [3, 1, 2]).Ok? && DensePermute(Dense(l), [3, 1, 2]).Err?
  {
    hide Dense, Permute;
    UnitShape(1);
    var l := Zero([1, 1, 1], [1, 1, 1]);
    assert |l.Shape()| == 3;
    var ds := FromEnd([3, 1, 2], 3);
    assert ds == [0, -2, -1];
    var fwd := seq<nat>(3, i requires 0 <= i < 3 => Wrap(ds[i], 3));
    assert fwd == [0, 1, 2];
    assert fwd[0] == 0 && fwd[1] == 1 && fwd[2] == 2;
    assert Axes(ds, 3).Ok?;
    assert l.ALead() == Ones(1);
    var p := Axes(ds, 3).value;
    assert p.fwd[2] == 2;
    PermuteKeepsLast(l, p);
    assert [3, 1, 2][0] == 3;
  }

  const SECOND: Item := Slice(Some(1), None, None)
  const FIRST: Item := Slice(Some(0), Some(1), None)

  /** l[1:] when A is stretched along the first axis: A loses its only entry. */
  lemma StretchedSlice()
    ensures Zero([1, 1, 1], [2, 1, 1]).Coherent()
    ensures var l := Zero([1, 1, 1], [2, 1, 1]);
      GetItem(l, SliceKey(SECOND)).Ok? && !GetItem(l, SliceKey(SECOND)).value.Coherent()
  {
    hide Take, Dense, DenseIndex, Prod;
    UnitShape(2);
    var l := Zero([1, 1, 1], [2, 1, 1]);
    IndexFirst(l.A, SECOND);
    IndexFirst(l.B, SECOND);
    TakeLeadShape(l.A, Range(1, 1, 0));
    TakeLeadShape(l.B, Range(1, 1, 1));
    var r := GetItem(l, SliceKey(SECOND)).value;
    assert r.A.shape == [0, 1, 1] && r.B.shape == [1, 1, 1];
    assert r.ALead()[0] == 0;
  }

  /** l[0:1, :, :] when A is not stretched: B is cut and A is not, and the result has no product. */
  lemma PartialLead()
    ensures Zero([2, 1, 1], [2, 1, 1]).Coherent()
    ensures var l := Zero([2, 1, 1], [2, 1, 1]);
      GetTuple(l, [FIRST, COLON, COLON]).Ok? && !GetTuple(l, [FIRST, COLON, COLON]).value.Coherent()
  {
    hide Take, Dense, DenseIndex, Prod, LeadItems, Pad;
    UnitShape(2);
    var l := Zero([2, 1, 1], [2, 1, 1]);
    var items := [FIRST, COLON, COLON];
    assert Init(items) == [FIRST, COLON] && Init(Init(items)) == [FIRST];
    LeadItemsSucceed([FIRST], l.A.shape);
    LeadItemsAt([FIRST], l.A.shape);
    assert LeadItems([FIRST], l.A.shape).value == [COLON];
    PadThree(COLON);
    PadThree(FIRST);
    IndexFirst(l.A, COLON);
    IndexFirst(l.B, FIRST);
    SamePad(l.A, [COLON, COLON, COLON], [COLON]);
    SamePad(l.B, [FIRST, COLON], [FIRST]);
    assert [COLON] + [COLON] + [COLON] == [COLON, COLON, COLON];
    TakeLeadShape(l.A, Range(0, 1, 2));
    TakeLeadShape(l.B, Range(0, 1, 1));
    assert l.ALead()[0] == 2 && l.BLead()[0] == 2;
    assert Resolve(FIRST, 2) == Ok(Range(0, 1, 1));
    assert !LeadItemSafe(items[0], 2, 2);
    hide GetTuple;
    SafeIsCoherent(l, items);
  }

  lemma PadThree(item: Item)
    ensures Pad([item], 3) == Pad([item, COLON], 3) == Pad([item, COLON, COLON], 3)
  {
    assert [item] + Repeat(COLON, 2) == [item, COLON, COLON] == [item, COLON] + Repeat(COLON, 1);
  }

  lemma SamePad(t: Tensor, items: seq<Item>, few: seq<Item>)
    requires |few| <= |items| <= |t.shape| && Pad(items, |t.shape|) == Pad(few, |t.shape|)
    ensures DenseIndex(t, items) == DenseIndex(t, few)
  {
  }

  lemma {:induction false} RangesShape(picks: seq<Pick>)
    requires forall i :: 0 <= i < |picks| ==> picks[i].Range?
    ensures |PickedShape(picks)| == |picks| && forall i :: 0 <= i < |picks| ==> PickedShape(picks)[i] == picks[i].count
    decreases |picks|
  {
    if picks != [] {
      RangesShape(Init(picks));
      forall i | 0 <= i < |picks|
        ensures PickedShape(picks)[i] == picks[i].count
      {
        if i < |picks| - 1 {
          assert picks[i] == Init(picks)[i];
        }
      }
    }
  }

  /** Slices taken of a tensor: the length of each axis is the number of entries its slice goes through. */
  lemma SlicesIndex(t: Tensor, items: seq<Item>, counts: Shape)
    requires |items| == |t.shape| == |counts|
    requires forall i :: 0 <= i < |items| ==>
      items[i].Slice? && Resolve(items[i], t.shape[i]).Ok? && Resolve(items[i], t.shape[i]).value.count == counts[i]
    ensures DenseIndex(t, items).Ok? && DenseIndex(t, items).value.shape == counts
  {
    hide Take, Resolve;
    IndexTakes(t, items);
    RangesShape(Resolves(items, t.shape).value);
  }

  lemma SecondAxisKey(l: Lora)
    requires l.WellFormed() && l.A.shape == [1, 1, 2] && l.B.shape == [1, 1, 1]
    ensures
      var r := GetTuple(l, [COLON, FIRST, COLON]);
      r.Ok? && r.value.WellFormed() && r.value.Shape() == [1, 1, 2]
  {
    hide Take, DenseIndex, Prod, LeadItems;
    var items := [COLON, FIRST, COLON];
    assert Init(items) == [COLON, FIRST] && Init(Init(items)) == [COLON];
    LeadItemsSucceed([COLON], l.A.shape);
    LeadItemsAt([COLON], l.A.shape);
    assert LeadItems([COLON], l.A.shape).value == [COLON];
    assert [COLON] + [COLON] + [COLON] == [COLON, COLON, COLON];
    hide Resolve;
    FirstOfOne();
    SlicesIndex(l.A, [COLON, COLON, COLON], [1, 1, 2]);
    SlicesIndex(l.B, [COLON, FIRST, COLON], [1, 1, 1]);
    ThreeAxes(l.B);
    TupleWellFormed(l, items);
    var r := GetTuple(l, items).value;
    assert Init(r.B.shape) + [Last(r.A.shape)] == [1, 1, 2];
  }

  lemma FirstOfOne()
    ensures Resolve(FIRST, 1) == Ok(Range(0, 1, 1)) && Resolve(FIRST, 2) == Ok(Range(0, 1, 1))
    ensures forall n: nat :: Resolve(COLON, n) == Ok(Full(n))
  {
  }

  /**
   l[..., 0:1] on three axes of which the last has two entries: the class takes the slice on the second
   axis, and returns factors for both entries of the last one.
   */
  lemma InnerEllipsis()
    ensures Zero([1, 1, 2], [1, 1, 1]).Coherent()
    ensures var l, key := Zero([1, 1, 2], [1, 1, 1]), TupleKey([Ellipsis, FIRST]);
      && GetItem(l, key).Ok? && GetItem(l, key).value.WellFormed() && GetItem(l, key).value.Shape() == [1, 1, 2]
      && FillEllipsis([Ellipsis, FIRST], 3).Ok?
      && DenseIndex(Dense(l), FillEllipsis([Ellipsis, FIRST], 3).value).Ok?
      && DenseIndex(Dense(l), FillEllipsis([Ellipsis, FIRST], 3).value).value.shape == [1, 1, 1]
  {
    hide Take, Dense, DenseIndex, Prod, FillEllipsis, GetItem, GetTuple, Resolve;
    var l := Zero([1, 1, 2], [1, 1, 1]);
    assert l.Coherent() && l.Shape() == [1, 1, 2];
    assert EllipsisKey([], [FIRST]) == [Ellipsis, FIRST];
    KeysAre(l, [], [FIRST]);
    assert ClassKey([], [FIRST], 3) == [COLON, FIRST, COLON] && MeantKey([], [FIRST], 3) == [COLON, COLON, FIRST];
    hide ClassKey, MeantKey;
    SecondAxisKey(l);
    FirstOfOne();
    SlicesIndex(Dense(l), [COLON, COLON, FIRST], [1, 1, 1]);
  }

  lemma ThreeAxes(t: Tensor)
    requires |t.shape| == 3
    ensures DenseIndex(t, [COLON, FIRST]) == DenseIndex(t, [COLON, FIRST, COLON])
  {
    hide Take;
    assert Pad([COLON, FIRST], 3) == [COLON, FIRST, COLON];
  }

  /** Two stretched operands: the joined A has two entries where the joined B has four. */
  lemma StretchedCat()
    ensures Zero([1, 1, 1], [2, 1, 1]).Coherent()
    ensures var l := Zero([1, 1, 1], [2, 1, 1]);
      CatLora([l, l], Omitted).Ok? && !CatLora([l, l], Omitted).value.Coherent()
  {
    hide Cat, Dense, Prod;
    UnitShape(2);
    var l := Zero([1, 1, 1], [2, 1, 1]);
    var ls := [l, l];
    forall c | 0 <= c < 2
      ensures ls[c] == l
    {
    }
    assert FactorsA(ls) == [l.A, l.A] && FactorsB(ls) == [l.B, l.B];
    assert Batched(ls);
    JoinedShapes(ls);
    assert HeadSize(ls[0].A) == 1 && HeadSize(ls[0].B) == 2;
    CatEnough(ls, Omitted);
    CatStretched(ls);
  }

  /** Factors of the given shapes, all elements of A equal and all elements of B equal. */
  function Constant(a: Shape, x: real, b: Shape, y: real): (l: Lora)
    ensures l.A.shape == a && l.B.shape == b && l.A.Valid() && l.B.Valid()
  {
    Lora(Tensor(a, Repeat(x, Prod(a))), Tensor(b, Repeat(y, Prod(b))))
  }

  lemma AtConstant(shape: Shape, x: real, idx: Index)
    requires InBounds(shape, idx)
    ensures At(Tensor(shape, Repeat(x, Prod(shape))), idx) == x
  {
    hide Prod;
  }

  const EMPTY: Lora := Constant([1, 1, 1], 2.0, [0, 1, 1], 0.0)
  const PAIR: Lora := Constant([1, 1, 1], 0.0, [2, 1, 1], 1.0)

  lemma EmptyShapes()
    ensures EMPTY.Coherent() && PAIR.Coherent() && AllCoherent([EMPTY, PAIR])
    ensures Batched([EMPTY, PAIR]) && !BatchesMatch([EMPTY, PAIR])
    ensures Total(HeadsA([EMPTY, PAIR])) == Total(SizesOf([EMPTY, PAIR])) == 2
    ensures FactorsA([EMPTY, PAIR]) == [EMPTY.A, PAIR.A] && FactorsB([EMPTY, PAIR]) == [EMPTY.B, PAIR.B]
  {
    hide Prod, Cat;
    var ls := [EMPTY, PAIR];
    assert FactorsA(ls) == [EMPTY.A, PAIR.A] && FactorsB(ls) == [EMPTY.B, PAIR.B];
    assert HeadsA(ls) == [1, 1] && SizesOf(ls) == [0, 2];
    assert [1, 1][1..] == [1] && [1][1..] == [] && [0, 2][1..] == [2] && [2][1..] == [];
    assert Total([1]) == 1 && Total([2]) == 2;
    assert HeadSize(ls[0].A) != HeadSize(ls[0].B);
  }

  lemma SecondOfTwo(t: Tensor, u: Tensor, idx: Index)
    requires |t.shape| == |u.shape| == |idx| > 0 && t.shape[0] <= idx[0] < t.shape[0] + u.shape[0]
    ensures CatAt([t, u], 0, idx) == At(u, idx[0 := idx[0] - t.shape[0]])
  {
    hide At;
    assert [t, u][1..] == [u];
  }

  /** An empty stretched operand before one of two entries: A is out of step with B, and the result is wrong. */
  lemma EmptyCat()
    ensures AllCoherent([EMPTY, PAIR]) && CatLora([EMPTY, PAIR], Omitted).Ok?
    ensures CatLora([EMPTY, PAIR], Omitted).value.Coherent() && !CatRight([EMPTY, PAIR], Omitted)
  {
    hide Prod, Cat, Dense, Total, HeadsA, SizesOf, BatchesMatch, Constant, CatAt, At, Clamp, Entry, Joinable;
    var ls := [EMPTY, PAIR];
    EmptyShapes();
    CatCoherent(ls);
    JoinedShapes(ls);
    var r := Joined(ls);
    assert CatLora(ls, Omitted) == Ok(r);
    EmptyCatWrong(r);
  }

  lemma TwoDense()
    ensures EMPTY.WellFormed() && PAIR.WellFormed()
    ensures
      var ts := DenseAll([EMPTY, PAIR]);
      ts == [Dense(EMPTY), Dense(PAIR)] && Dense(EMPTY).shape == [0, 1, 1] && Dense(PAIR).shape == [2, 1, 1]
  {
    hide Prod, Dense, Constant;
    EmptyShapes();
    var ls := [EMPTY, PAIR];
    var ts := DenseAll(ls);
    assert ts[0] == Dense(ls[0]) && ts[1] == Dense(ls[1]);
  }

  lemma EmptyCatWrong(r: Lora)
    requires Batched([EMPTY, PAIR]) && r == Joined([EMPTY, PAIR]) && r.Coherent()
    ensures DenseCat(DenseAll([EMPTY, PAIR]), Omitted) != Ok(Dense(r))
  {
    hide Prod, Cat, Dense, Total, BatchesMatch, Constant, CatAt, At, Clamp, Entry, Batched, Joined;
    var ls, idx := [EMPTY, PAIR], [0, 0, 0];
    EmptyShapes();
    JoinedHeads(ls);
    assert r.A.shape == [2, 1, 1] && r.B.shape == [2, 1, 1] && r.Shape() == [2, 1, 1];
    JoinedElement(r);
    TwoDense();
    hide DenseAll, HeadsA, SizesOf, Joinable, FactorsA, FactorsB;
    var ts := DenseAll(ls);
    if Joinable(ts, 0) && Cat(ts, 0) == Dense(r) {
      AtCat(ts, 0, idx);
      SecondOfTwo(ts[0], ts[1], idx);
      assert idx[0 := 0] == idx;
      PairElement();
    }
  }

  lemma DotOne(f: nat -> real, g: nat -> real)
    ensures Dot(1, f, g) == f(0) * g(0)
  {
    assert Dot(0, f, g) == 0.0;
  }

  lemma FirstTerm(l: Lora, idx: Index)
    requires l.WellFormed() && |l.ALead()| == 1 && idx == [0, 0, 0]
    ensures RowOf(l, Init(idx))(0) == At(l.B, [0, 0, 0])
    ensures ColumnOf(l, Init(Init(idx)), Last(idx))(0) == At(l.A, [0, 0, 0])
  {
    hide At, Prod, Clamp;
    var lead := Init(Init(idx));
    ClampAt(l.ALead(), lead);
    assert Init(idx) + [0] == [0, 0, 0];
    assert Clamp(l.ALead(), lead) == [0];
    assert [0] + [0] + [0] == [0, 0, 0];
  }

  lemma OneTerm(l: Lora, idx: Index)
    requires l.Coherent() && l.Rank() == 1 && |l.Shape()| == 3 && InBounds(l.Shape(), idx) && idx == [0, 0, 0]
    ensures At(Dense(l), idx) == At(l.B, [0, 0, 0]) * At(l.A, [0, 0, 0])
  {
    hide At, Prod, Dense, Entry, Clamp, Dot, RowOf, ColumnOf, LeadFits, InBounds;
    FirstTerm(l, idx);
    AtDense(l, idx);
    EntryParts(l, idx);
    DotOne(RowOf(l, Init(idx)), ColumnOf(l, Init(Init(idx)), Last(idx)));
  }

  lemma PairElement()
    ensures At(Dense(PAIR), [0, 0, 0]) == 0.0
  {
    hide At, Prod, Dense;
    assert PAIR.Coherent() && PAIR.Shape() == [2, 1, 1];
    OneTerm(PAIR, [0, 0, 0]);
    AtConstant([1, 1, 1], 0.0, [0, 0, 0]);
    AtConstant([2, 1, 1], 1.0, [0, 0, 0]);
  }

  lemma JoinedElement(r: Lora)
    requires Batched([EMPTY, PAIR]) && r == Joined([EMPTY, PAIR]) && r.Coherent()
    requires r.A.shape == [2, 1, 1] && r.B.shape == [2, 1, 1]
    ensures At(Dense(r), [0, 0, 0]) == 2.0
  {
    hide At, Prod, Dense, Cat, CatAt;
    var idx := [0, 0, 0];
    EmptyShapes();
    assert r.Shape() == [2, 1, 1];
    OneTerm(r, idx);
    AtCat([EMPTY.A, PAIR.A], 0, idx);
    AtCat([EMPTY.B, PAIR.B], 0, idx);
    FirstOfTwo(EMPTY.A, PAIR.A, idx);
    SecondOfTwo(EMPTY.B, PAIR.B, idx);
    assert idx[0 := 0] == idx;
    AtConstant([1, 1, 1], 2.0, idx);
    AtConstant([2, 1, 1], 1.0, idx);
  }

  lemma FirstOfTwo(t: Tensor, u: Tensor, idx: Index)
    requires |t.shape| == |u.shape| == |idx| > 0 && idx[0] < t.shape[0]
    ensures CatAt([t, u], 0, idx) == At(t, idx)
  {
    hide At;
  }

  lemma TwoLengths(t: Tensor, u: Tensor, dim: nat)
    requires dim < |t.shape| && dim < |u.shape|
    ensures Lengths([t, u], dim) == t.shape[dim] + u.shape[dim]
  {
    assert [t, u][1..] == [u] && [u][1..] == [];
    assert Lengths([u], dim) == u.shape[dim];
  }

  /** The axis given by position: the class joins along the first one all the same. */
  lemma PositionalCat()
    ensures Zero([1, 1], [1, 1]).Coherent()
    ensures var l := Zero([1, 1], [1, 1]);
      && CatLora([l, l], Positional(1)).Ok? && CatLora([l, l], Positional(1)).value.Shape() == [2, 1]
      && DenseCat([Dense(l), Dense(l)], Positional(1)).Ok?
      && DenseCat([Dense(l), Dense(l)], Positional(1)).value.shape == [1, 2]
  {
    hide Cat, Dense, Prod, Zero;
    var l := Zero([1, 1], [1, 1]);
    var t := Dense(l);
    assert l.Coherent() && t.shape == [1, 1];
    var Bs := [l.B, l.B];
    JoinableWith(l.B, 0);
    TwoLengths(l.B, l.B, 0);
    TwoLengths(t, t, 1);
    hide Lengths;
    var B := Cat(Bs, 0);
    assert B.shape == [2, 1];
    assert Make(l.A, B).Ok? && Init([2, 1]) == [2];
    SameMatrices(l, 1);
    JoinableWith(t, 1);
  }

  lemma SameMatrices(l: Lora, p: int)
    requires l.WellFormed() && |l.Shape()| == 2
    ensures Joinable([l.B, l.B], 0)
    ensures CatLora([l, l], Positional(p)) == Make(l.A, Cat([l.B, l.B], 0))
  {
    hide Cat, Prod;
    assert FactorsB([l, l]) == [l.B, l.B];
  }

  lemma JoinableWith(t: Tensor, d: nat)
    requires d < |t.shape|
    ensures Joinable([t, t], d)
  {
  }

  lemma PositionalStack()
    ensures Zero([1, 1], [1, 1]).Coherent()
    ensures var l := Zero([1, 1], [1, 1]);
      && StackLora([l, l], Positional(1)).Ok? && StackLora([l, l], Positional(1)).value.Shape() == [2, 1, 1]
      && DenseStack([Dense(l), Dense(l)], Positional(1)).Ok?
      && DenseStack([Dense(l), Dense(l)], Positional(1)).value.shape == [1, 2, 1]
  {
    hide Stack, Dense, Prod;
    var l := Zero([1, 1], [1, 1]);
    assert l.Coherent();
    assert FactorsA([l, l]) == [l.A, l.A] && FactorsB([l, l]) == [l.B, l.B];
    assert Init([2, 1, 1]) == [2, 1];
  }
}
