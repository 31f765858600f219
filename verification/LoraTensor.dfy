/**
 The low-rank tensor of the adapter converter: a tensor kept as two factors A and B, standing for
 the batched matrix product B·A. Operations rewrite the factors only.
 Models class LoraTorchTensor of convert_lora_to_gguf.py.
 */
module LoraTensor {
  import opened Common
  import opened Tensors

  datatype Lora = Lora(A: Tensor, B: Tensor) {
    /** What the constructor asserts about its arguments. */
    predicate WellFormed() {
      A.Valid() && B.Valid() && |A.shape| == |B.shape| >= 2 && Last(Init(A.shape)) == Last(B.shape)
    }

    function Rank(): nat
      requires WellFormed()
    {
      Last(B.shape)
    }

    /** The leading (batch) axes of each factor. */
    function ALead(): Shape
      requires WellFormed()
    {
      Init(Init(A.shape))
    }

    function BLead(): Shape
      requires WellFormed()
    {
      Init(Init(B.shape))
    }

    function Shape(): Shape
      requires WellFormed()
    {
      Init(B.shape) + [Last(A.shape)]
    }

    /** B·A is defined with exactly the reported shape: A's batch axes are B's, or stretch from 1. */
    predicate Coherent() {
      WellFormed() && LeadFits(ALead(), BLead())
    }
  }

  predicate LeadFits(a: Shape, b: Shape) {
    |a| == |b| && forall i :: 0 <= i < |a| ==> a[i] == 1 || a[i] == b[i]
  }

  type LoraResult = Result<Lora, Error>

  function Make(A: Tensor, B: Tensor): (r: LoraResult)
    requires A.Valid() && B.Valid()
    ensures r.Ok? <==> Lora(A, B).WellFormed()
    ensures r.Ok? ==> r.value == Lora(A, B)
  {
    if |A.shape| != |B.shape| then Err(AssertionError)
    else if |A.shape| < 2 then Err(IndexError)
    else if Last(Init(A.shape)) != Last(B.shape) then Err(AssertionError)
    else Ok(Lora(A, B))
  }

  // ---- the dense meaning ----

  /** The factors of the products that make up one element of B·A, A being broadcast over the batch axes. */
  function RowOf(l: Lora, rowIdx: Index): nat -> real {
    (k: nat) => At(l.B, rowIdx + [k])
  }

  function ColumnOf(l: Lora, lead: Index, col: nat): nat -> real
    requires l.WellFormed()
  {
    (k: nat) => At(l.A, Clamp(l.ALead(), lead) + [k] + [col])
  }

  /** One element of B·A: a sum over the rank index. */
  function Entry(l: Lora, idx: Index): real
    requires l.WellFormed()
  {
    if |idx| < 2 then 0.0
    else Dot(l.Rank(), RowOf(l, Init(idx)), ColumnOf(l, Init(Init(idx)), Last(idx)))
  }

  function Dense(l: Lora): (t: Tensor)
    requires l.WellFormed()
    ensures t.Valid() && t.shape == l.Shape()
  {
    var shape := l.Shape();
    Tensor(shape, seq(Prod(shape), i requires 0 <= i < Prod(shape) => Entry(l, Unravel(shape, i))))
  }

  lemma AtDense(l: Lora, idx: Index)
    requires l.WellFormed() && InBounds(l.Shape(), idx)
    ensures At(Dense(l), idx) == Entry(l, idx)
  {
    UnravelRavel(l.Shape(), idx);
  }

  // ---- reshape and view ----

  function IntProd(s: seq<int>): int
    decreases |s|
  {
    if s == [] then 1 else IntProd(Init(s)) * Last(s)
  }

  function Skip1(s: seq<int>): (r: seq<int>)
    ensures |r| == |s|
  {
    seq(|s|, i requires 0 <= i < |s| => if s[i] == -1 then 1 else s[i])
  }

  /** Python's %, which takes the sign of the divisor. */
  function PyMod(n: int, d: int): int
    requires d != 0
  {
    if d > 0 then n % d else -((-n) % (-d))
  }

  function PyDiv(n: int, d: int): int
    requires d != 0
  {
    (n - PyMod(n, d)) / d
  }

  /** Replaces each -1 by the size that the other axes leave over, and rejects other negative sizes. */
  function Expand(newShape: seq<int>, elements: nat): (r: Result<Shape, Error>)
    ensures r.Ok? ==> |r.value| == |newShape|
  {
    if -1 in newShape then
      var others := IntProd(Skip1(newShape));
      if others == 0 then Err(ZeroDivision)
      else if PyMod(elements, others) != 0 then Err(AssertionError)
      else Natural(seq(|newShape|, i requires 0 <= i < |newShape| =>
        if newShape[i] == -1 then PyDiv(elements, others) else newShape[i]))
    else Natural(newShape)
  }

  function Natural(s: seq<int>): (r: Result<Shape, Error>)
    ensures r.Ok? ==> r.value == s
  {
    if forall i :: 0 <= i < |s| ==> s[i] >= 0 then
      Ok(seq(|s|, i requires 0 <= i < |s| => s[i]))
    else Err(ValueError)
  }

  function ReshapeLora(l: Lora, newShape: seq<int>): (r: LoraResult)
    requires l.WellFormed()
    ensures r.Ok? ==> r.value.WellFormed()
  {
    if |newShape| < 2 then Err(NotImplemented)
    else
      var s :- Expand(newShape, Prod(l.Shape()));
      if Last(s) != Last(l.Shape()) then Err(NotImplemented)
      else
        var A :- Reshape(l.A, Ones(|s| - 2) + [l.Rank()] + [Last(s)]);
        var B :- Reshape(l.B, Init(s) + [l.Rank()]);
        Make(A, B)
  }

  /** At most one size is left to be inferred. */
  predicate OneHole(newShape: seq<int>) {
    forall i, j :: 0 <= i < j < |newShape| ==> !(newShape[i] == -1 && newShape[j] == -1)
  }

  /** The tensor library's rule: one size may be -1, no other may be negative, and it must be determined. */
  function Infer(newShape: seq<int>, elements: nat): (r: Result<Shape, Error>)
    ensures r.Ok? ==> |r.value| == |newShape|
  {
    if !OneHole(newShape) || exists i :: 0 <= i < |newShape| && newShape[i] < -1 then Err(ValueError)
    else if -1 !in newShape then Natural(newShape)
    else
      var others := IntProd(Skip1(newShape));
      if others <= 0 || elements % others != 0 then Err(ValueError)
      else Natural(seq(|newShape|, i requires 0 <= i < |newShape| =>
        if newShape[i] == -1 then elements / others else newShape[i]))
  }

  /** The same call on a dense tensor. */
  function DenseReshape(t: Tensor, newShape: seq<int>): TensorResult {
    var s :- Infer(newShape, Prod(t.shape));
    Reshape(t, s)
  }

  // ---- permute and transpose ----

  /** Axis numbers as the tensor library reads them: negative ones count from the end, none may repeat. */
  function Axes(dims: seq<int>, n: nat): (r: Result<Perm, Error>)
    ensures r.Ok? ==> IsPerm(r.value, n) && |dims| == n
    ensures r.Ok? ==> forall i :: 0 <= i < n ==> r.value.fwd[i] == Wrap(dims[i], n)
  {
    if |dims| != n || exists i :: 0 <= i < |dims| && !(0 <= dims[i] + n < n + n) then Err(IndexError)
    else
      var fwd := seq<nat>(|dims|, i requires 0 <= i < |dims| => Wrap(dims[i], n));
      if (exists d :: 0 <= d < n && d !in fwd) || (exists i, j :: 0 <= i < j < n && fwd[i] == fwd[j])
      then Err(ValueError)
      else Ok(Perm(fwd, seq<nat>(n, d requires 0 <= d < n => PosOf(fwd, d))))
  }

  function Wrap(i: int, n: nat): (r: int)
    ensures 0 <= i + n < n + n ==> 0 <= r < n
  {
    if i < 0 then i + n else i
  }

  function PosOf(s: seq<nat>, d: nat): (i: nat)
    requires d in s
    ensures i < |s| && s[i] == d
  {
    if s[0] == d then 0 else 1 + PosOf(s[1..], d)
  }

  function DensePermute(t: Tensor, dims: seq<int>): TensorResult {
    var axes :- Axes(dims, |t.shape|);
    Ok(Permute(t, axes))
  }

  function FromEnd(dims: seq<int>, n: nat): (r: seq<int>)
    ensures |r| == |dims|
  {
    seq(|dims|, i requires 0 <= i < |dims| => if dims[i] >= 0 then dims[i] - n else dims[i])
  }

  function PermuteLora(l: Lora, dims: seq<int>): (r: LoraResult)
    requires l.WellFormed()
    ensures r.Ok? ==> r.value.WellFormed()
  {
    var n := |l.Shape()|;
    var ds := FromEnd(dims, n);
    var m := |ds|;
    if m == 0 then Err(IndexError)
    else if ds[m - 1] == -1 then
      if l.ALead() != Ones(n - 2) then Err(AssertionError)
      else
        var B :- DensePermute(l.B, ds);
        Make(l.A, B)
    else if n == 2 && ds[m - 1] == -2 && m < 2 then Err(IndexError)
    else if n == 2 && ds[m - 1] == -2 && ds[m - 2] == -1 then
      var A :- DensePermute(l.B, ds);
      var B :- DensePermute(l.A, ds);
      Make(A, B)
    else Err(NotImplemented)
  }

  /** range(n) with two entries exchanged; Python list positions may be negative. */
  function SwappedDims(n: nat, i: int, j: int): (r: Result<seq<int>, Error>) {
    if 0 <= i + n < n + n && 0 <= j + n < n + n then
      var p, q := Wrap(i, n), Wrap(j, n);
      Ok(seq(n, k => if k == p then q else if k == q then p else k))
    else Err(IndexError)
  }

  function TransposeLora(l: Lora, i: int, j: int): (r: LoraResult)
    requires l.WellFormed()
    ensures r.Ok? ==> r.value.WellFormed()
  {
    var dims :- SwappedDims(|l.Shape()|, i, j);
    PermuteLora(l, dims)
  }

  function SwapAt<T>(s: seq<T>, p: nat, q: nat): (r: seq<T>)
  {
    if p < |s| && q < |s| then s[p := s[q]][q := s[p]] else s
  }

  /** The tensor with axes p and q exchanged. */
  function Exchanged(t: Tensor, p: nat, q: nat): (r: Tensor)
    ensures r.Valid() && r.shape == SwapAt(t.shape, p, q)
  {
    var shape := SwapAt(t.shape, p, q);
    Tensor(shape, seq(Prod(shape), i requires 0 <= i < Prod(shape) => At(t, SwapAt(Unravel(shape, i), p, q))))
  }

  lemma AtExchanged(t: Tensor, p: nat, q: nat, idx: Index)
    requires InBounds(SwapAt(t.shape, p, q), idx)
    ensures At(Exchanged(t, p, q), idx) == At(t, SwapAt(idx, p, q))
  {
    UnravelRavel(SwapAt(t.shape, p, q), idx);
  }

  /** Exchanges two axes of a dense tensor; negative axis numbers count from the end. */
  function DenseTranspose(t: Tensor, i: int, j: int): (r: TensorResult)
    ensures r.Ok? ==> r.value.Valid()
  {
    var n := |t.shape|;
    if 0 <= i + n < n + n && 0 <= j + n < n + n then
      Ok(Exchanged(t, Wrap(i, n), Wrap(j, n)))
    else Err(IndexError)
  }

  // ---- indexing ----

  datatype Item = Int(j: int) | Slice(start: Option<int>, stop: Option<int>, step: Option<int>) | Ellipsis

  const COLON := Slice(None, None, None)

  function Bound(o: Option<int>, default: nat, n: nat): (b: nat)
    requires default <= n
    ensures b <= n
  {
    match o
    case None => default
    case Some(v) => if v >= n then n else if v >= 0 then v else if v + n >= 0 then v + n else 0
  }

  /** One index entry against an axis of size n, as the tensor library resolves it. */
  function Resolve(item: Item, n: nat): (r: Result<Pick, Error>)
    ensures r.Ok? ==> PickFits(r.value, n) && (r.value.One? <==> item.Int?)
  {
    match item
    case Int(j) => if 0 <= j + n < n + n then Ok(One(Wrap(j, n))) else Err(IndexError)
    case Slice(start, stop, step) =>
      var st := if step.Some? then step.value else 1;
      if st <= 0 then Err(ValueError)
      else
        var lo, hi := Bound(start, 0, n), Bound(stop, n, n);
        var count := if hi > lo then (hi - lo - 1) / st + 1 else 0;
        SliceFits(lo, hi, st, n);
        Ok(Range(lo, st, count))
    case Ellipsis => Err(IndexError)
  }

  lemma SliceFits(lo: nat, hi: nat, st: nat, n: nat)
    requires hi <= n && st > 0
    ensures lo < hi ==> lo + st * ((hi - lo - 1) / st) < hi
  {
    if lo < hi {
      var m := hi - lo - 1;
      assert m == st * (m / st) + m % st;
    }
  }

  function Resolves(items: seq<Item>, shape: Shape): (r: Result<seq<Pick>, Error>)
    requires |items| == |shape|
    ensures r.Ok? ==> PicksFit(r.value, shape)
    ensures r.Ok? ==> forall i :: 0 <= i < |items| ==> Resolve(items[i], shape[i]) == Ok(r.value[i])
    ensures (forall i :: 0 <= i < |items| ==> Resolve(items[i], shape[i]).Ok?) ==> r.Ok?
    decreases |items|
  {
    if items == [] then Ok([])
    else
      var ps :- Resolves(Init(items), Init(shape));
      var p :- Resolve(Last(items), Last(shape));
      Ok(ps + [p])
  }

  function Pad(items: seq<Item>, n: nat): (r: seq<Item>)
    ensures |r| >= n && (|items| >= n ==> r == items)
  {
    if |items| < n then items + Repeat(COLON, n - |items|) else items
  }

  /** Tuple indexing of a dense tensor by entries without an ellipsis; missing axes are taken whole. */
  function DenseIndex(t: Tensor, items: seq<Item>): (r: TensorResult)
    ensures r.Ok? ==> r.value.Valid()
  {
    if |items| > |t.shape| then Err(IndexError)
    else
      var picks :- Resolves(Pad(items, |t.shape|), t.shape);
      Ok(Take(t, picks))
  }

  /** What an ellipsis means to the tensor library: as many whole axes as make up the rank. */
  function FillEllipsis(items: seq<Item>, n: nat): (r: Result<seq<Item>, Error>) {
    if Ellipsis !in items then Ok(items)
    else
      var k := FirstEllipsis(items);
      if Ellipsis in items[k + 1..] || |items| - 1 > n then Err(IndexError)
      else Ok(items[..k] + Repeat(COLON, n - (|items| - 1)) + items[k + 1..])
  }

  function FirstEllipsis(items: seq<Item>): (k: nat)
    requires Ellipsis in items
    ensures k < |items| && items[k] == Ellipsis && forall i :: 0 <= i < k ==> items[i] != Ellipsis
  {
    if items[0] == Ellipsis then 0
    else 1 + FirstEllipsis(items[1..])
  }

  /** The class's own expansion: every ellipsis becomes one whole axis fewer than the key has entries. */
  function ExpandEllipsis(items: seq<Item>, width: nat): seq<Item> {
    if items == [] then []
    else (if items[0] == Ellipsis then Repeat(COLON, width) else [items[0]]) + ExpandEllipsis(items[1..], width)
  }

  function DropTrailing(items: seq<Item>): (r: seq<Item>)
    ensures r == [] || Last(r) != Ellipsis
    decreases |items|
  {
    if items != [] && Last(items) == Ellipsis then DropTrailing(Init(items)) else items
  }

  /** The entries applied to A's batch axes: integers wrap by A's size, anything else takes the axis whole. */
  function LeadItems(items: seq<Item>, shape: Shape): (r: Result<seq<Item>, Error>)
    ensures r.Ok? ==> |r.value| == |items|
    decreases |items|
  {
    if items == [] then Ok([])
    else
      var init :- LeadItems(Init(items), shape);
      if !Last(items).Int? then Ok(init + [COLON])
      else if |items| > |shape| then Err(IndexError)
      else if shape[|items| - 1] == 0 then Err(ZeroDivision)
      else Ok(init + [Int(Last(items).j % shape[|items| - 1])])
  }

  datatype Key = IntKey(j: int) | SliceKey(s: Item) | TupleKey(items: seq<Item>)

  function GetItem(l: Lora, key: Key): (r: LoraResult)
    requires l.WellFormed()
  {
    var n := |l.Shape()|;
    match key
    case IntKey(j) =>
      if n > 2 then
        var A :- DenseIndex(l.A, [Int(j)]);
        var B :- DenseIndex(l.B, [Int(j)]);
        Make(A, B)
      else Err(NotImplemented)
    case SliceKey(s) =>
      if n > 2 then
        var A :- DenseIndex(l.A, [s]);
        var B :- DenseIndex(l.B, [s]);
        Make(A, B)
      else
        var B :- DenseIndex(l.B, [s]);
        Make(l.A, B)
    case TupleKey(all) =>
      var items := DropTrailing(all);
      if items == [] then Err(AssertionError)
      else
        GetTuple(l, Pad(ExpandEllipsis(items, |items| - 1), n))
  }

  function GetTuple(l: Lora, items: seq<Item>): (r: LoraResult)
    requires l.WellFormed() && |items| >= |l.Shape()|
  {
    var lead :- LeadItems(Init(Init(items)), l.A.shape);
    var A :- DenseIndex(l.A, lead + [COLON] + [Last(items)]);
    var B :- DenseIndex(l.B, Init(items));
    Make(A, B)
  }

  // ---- split ----

  datatype Sizes = Every(size: int) | Listed(sizes: seq<int>)

  /** The lengths of the chunks an axis of size n is cut into. */
  function Sections(spec: Sizes, n: nat): (r: Result<seq<nat>, Error>) {
    match spec
    case Every(size) =>
      if size < 0 || (size == 0 && n > 0) then Err(ValueError)
      else if n == 0 then Ok([0])
      else Ok(EqualSections(size, n))
    case Listed(sizes) =>
      if (exists i :: 0 <= i < |sizes| && sizes[i] < 0) then Err(ValueError)
      else
        var s := seq<nat>(|sizes|, i requires 0 <= i < |sizes| => sizes[i]);
        if Total(s) == n then Ok(s) else Err(ValueError)
  }

  function EqualSections(size: nat, n: nat): (r: seq<nat>)
    requires size > 0
    ensures Total(r) == n
  {
    if n == 0 then []
    else if n <= size then TotalSnoc([], n); [n]
    else
      assert ([size] + EqualSections(size, n - size))[1..] == EqualSections(size, n - size);
      [size] + EqualSections(size, n - size)
  }

  function Total(s: seq<nat>): nat {
    if s == [] then 0 else s[0] + Total(s[1..])
  }

  lemma {:induction false} TotalSnoc(s: seq<nat>, x: nat)
    ensures Total(s + [x]) == Total(s) + x
  {
    if s == [] {
      assert s + [x] == [x];
      assert [x][1..] == [];
    } else {
      assert (s + [x])[1..] == s[1..] + [x];
      TotalSnoc(s[1..], x);
    }
  }

  function Fulls(shape: Shape): (r: seq<Pick>)
    ensures |r| == |shape|
  {
    seq(|shape|, i requires 0 <= i < |shape| => Full(shape[i]))
  }

  /** `len` positions of one axis from `start`, every other axis whole. */
  function Narrow(t: Tensor, dim: nat, start: nat, len: nat): (r: Tensor)
    requires dim < |t.shape| && start + len <= t.shape[dim]
    ensures r.Valid()
  {
    Take(t, Fulls(t.shape)[dim := Range(start, 1, len)])
  }

  function Chunks(t: Tensor, dim: nat, start: nat, sizes: seq<nat>): (r: seq<Tensor>)
    requires dim < |t.shape| && start + Total(sizes) == t.shape[dim]
    ensures |r| == |sizes| && forall c :: c in r ==> c.Valid()
    decreases |sizes|
  {
    if sizes == [] then [] else [Narrow(t, dim, start, sizes[0])] + Chunks(t, dim, start + sizes[0], sizes[1..])
  }

  function SplitAxis(t: Tensor, spec: Sizes, dim: nat): (r: Result<seq<Tensor>, Error>)
    requires dim < |t.shape|
    ensures r.Ok? ==> forall c :: c in r.value ==> c.Valid()
  {
    var sizes :- Sections(spec, t.shape[dim]);
    SectionsTotal(spec, t.shape[dim]);
    Ok(Chunks(t, dim, 0, sizes))
  }

  lemma SectionsTotal(spec: Sizes, n: nat)
    ensures Sections(spec, n).Ok? ==> Total(Sections(spec, n).value) == n
  {
    if spec.Every? && n == 0 {
      assert [0][1..] == [];
    }
  }

  function DenseSplit(t: Tensor, spec: Sizes, dim: int): Result<seq<Tensor>, Error> {
    var n := |t.shape|;
    var d := if dim < 0 then dim + n else dim;
    if 0 <= d < n then SplitAxis(t, spec, d) else Err(IndexError)
  }

  /** One pair of factors for each pair of chunks; surplus chunks of the longer list are dropped. */
  function MakeAll(As: seq<Tensor>, Bs: seq<Tensor>): (r: Result<seq<Lora>, Error>)
    requires (forall t :: t in As ==> t.Valid()) && (forall t :: t in Bs ==> t.Valid())
    ensures r.Ok? ==> forall l :: l in r.value ==> l.WellFormed()
  {
    if As == [] || Bs == [] then Ok([])
    else
      var l :- Make(As[0], Bs[0]);
      var ls :- MakeAll(As[1..], Bs[1..]);
      Ok([l] + ls)
  }

  /**
   A negative axis number gets the number of axes added once; if it is still negative, the tensor library
   counts it from the end again.
   */
  function SplitLora(l: Lora, spec: Sizes, dim: int): (r: Result<seq<Lora>, Error>)
    requires l.WellFormed()
    ensures r.Ok? ==> forall c :: c in r.value ==> c.WellFormed()
  {
    var n := |l.Shape()|;
    var d := if dim < 0 then dim + n else dim;
    if d == n - 1 then
      var As :- SplitAxis(l.A, spec, d);
      MakeAll(As, Repeat(l.B, |As|))
    else if d == n - 2 then
      var Bs :- SplitAxis(l.B, spec, d);
      MakeAll(Repeat(l.A, |Bs|), Bs)
    else if !(0 <= d + n < n + n) then Err(IndexError)
    else
      var w := Wrap(d, n);
      var Bs :- SplitAxis(l.B, spec, w);
      if l.A.shape[w] == 1 then MakeAll(Repeat(l.A, |Bs|), Bs)
      else
        var As :- SplitAxis(l.A, spec, w);
        MakeAll(As, Bs)
  }

  // ---- scaling ----

  datatype Factor = Scalar(c: real) | Many(t: Tensor)

  function AsTensor(f: Factor): Tensor {
    match f
    case Scalar(c) => Tensor([], [c])
    case Many(t) => t
  }

  function ScaleLora(l: Lora, f: Factor): (r: LoraResult)
    requires l.WellFormed()
    ensures r.Ok? ==> r.value.WellFormed()
  {
    if f.Many? && f.t.shape != [] && Last(f.t.shape) != 1 then Err(NotImplemented)
    else
      var B :- Mul(l.B, AsTensor(f));
      Make(l.A, B)
  }

  // ---- cat and stack ----

  function FactorsA(ls: seq<Lora>): (r: seq<Tensor>)
    ensures |r| == |ls| && forall i :: 0 <= i < |ls| ==> r[i] == ls[i].A
  {
    seq(|ls|, i requires 0 <= i < |ls| => ls[i].A)
  }

  function FactorsB(ls: seq<Lora>): (r: seq<Tensor>)
    ensures |r| == |ls| && forall i :: 0 <= i < |ls| ==> r[i] == ls[i].B
  {
    seq(|ls|, i requires 0 <= i < |ls| => ls[i].B)
  }

  /** How the axis is given in a call; the class looks at the keyword only. */
  datatype DimArg = Omitted | Positional(d: int) | Keyword(d: int)

  function KeywordDim(dim: DimArg): int {
    if dim.Keyword? then dim.d else 0
  }

  /** The axis that a call on dense tensors means. */
  function AxisOf(dim: DimArg, n: nat): (r: Result<nat, Error>)
    ensures r.Ok? ==> r.value < n
  {
    var d := if dim.Omitted? then 0 else dim.d;
    if 0 <= d + n < n + n then Ok(Wrap(d, n)) else Err(IndexError)
  }

  function DenseCat(ts: seq<Tensor>, dim: DimArg): TensorResult {
    if ts == [] then Err(ValueError)
    else
      var d :- AxisOf(dim, |ts[0].shape|);
      if Joinable(ts, d) then Ok(Cat(ts, d)) else Err(ValueError)
  }

  function CatLora(ls: seq<Lora>, dim: DimArg): (r: LoraResult)
    requires forall i :: 0 <= i < |ls| ==> ls[i].WellFormed()
    ensures r.Ok? ==> r.value.WellFormed()
  {
    if KeywordDim(dim) != 0 then Err(AssertionError)
    else if ls == [] then Err(IndexError)
    else if |ls[0].Shape()| > 2 then
      var A :- DenseCat(FactorsA(ls), Keyword(0));
      var B :- DenseCat(FactorsB(ls), Keyword(0));
      Make(A, B)
    else if forall i :: 0 <= i < |ls| ==> ls[i].A == ls[0].A then
      var B :- DenseCat(FactorsB(ls), Keyword(0));
      Make(ls[0].A, B)
    else Err(NotImplemented)
  }

  function DenseStack(ts: seq<Tensor>, dim: DimArg): TensorResult {
    if ts == [] then Err(ValueError)
    else
      var d :- AxisOf(dim, |ts[0].shape| + 1);
      if Stackable(ts) then Ok(Stack(ts, d)) else Err(ValueError)
  }

  function StackLora(ls: seq<Lora>, dim: DimArg): (r: LoraResult)
    requires forall i :: 0 <= i < |ls| ==> ls[i].WellFormed()
    ensures r.Ok? ==> r.value.WellFormed()
  {
    hide Stack, Prod;
    if KeywordDim(dim) != 0 then Err(AssertionError)
    else
      var A :- DenseStack(FactorsA(ls), Keyword(0));
      var B :- DenseStack(FactorsB(ls), Keyword(0));
      Make(A, B)
  }
}
