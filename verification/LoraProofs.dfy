/**
 Reshaping the factors reshapes B·A: which shapes are accepted, and when the product accepts them too.
 */
module LoraProofs {
  import opened Common
  import opened Tensors
  import opened LoraTensor

  // ---- clamping (broadcast) indices ----

  lemma {:induction false} ClampAt(shape: Shape, idx: Index)
    requires |shape| == |idx|
    ensures |Clamp(shape, idx)| == |idx|
    ensures forall i :: 0 <= i < |idx| ==> Clamp(shape, idx)[i] == if shape[i] == 1 then 0 else idx[i]
    decreases |shape|
  {
    if shape != [] {
      ClampAt(Init(shape), Init(idx));
    }
  }

  lemma ClampSnoc(shape: Shape, d: nat, idx: Index, j: nat)
    requires |shape| == |idx|
    ensures Clamp(shape + [d], idx + [j]) == Clamp(shape, idx) + [if d == 1 then 0 else j]
  {
    assert Init(shape + [d]) == shape && Init(idx + [j]) == idx;
  }

  lemma ClampLead(l: Lora, lead: Index)
    requires l.Coherent() && InBounds(l.BLead(), lead)
    ensures InBounds(l.ALead(), Clamp(l.ALead(), lead))
  {
    ClampAt(l.ALead(), lead);
  }

  // ---- one element of the product ----

  lemma SplitIndex(l: Lora, idx: Index)
    requires l.WellFormed() && InBounds(l.Shape(), idx)
    ensures |idx| >= 2 && idx == Init(Init(idx)) + [Last(Init(idx))] + [Last(idx)]
    ensures InBounds(l.BLead(), Init(Init(idx))) && Last(Init(idx)) < Last(Init(l.B.shape))
      && Last(idx) < Last(l.A.shape)
    ensures InBounds(Init(l.B.shape), Init(idx))
  {
    assert idx == Init(Init(idx)) + [Last(Init(idx))] + [Last(idx)];
  }

  lemma Shapes(l: Lora)
    requires l.WellFormed()
    ensures l.A.shape == l.ALead() + [l.Rank()] + [Last(l.A.shape)]
    ensures l.B.shape == l.BLead() + [Last(Init(l.B.shape))] + [l.Rank()]
    ensures l.B.shape == Init(l.B.shape) + [l.Rank()] && Init(l.Shape()) == Init(l.B.shape)
    ensures l.Shape() == l.BLead() + [Last(Init(l.B.shape))] + [Last(l.A.shape)]
  {
  }

  /** Without a rank every element is an empty sum. */
  lemma ZeroAt(l: Lora, idx: Index)
    requires l.WellFormed() && l.Rank() == 0
    ensures At(Dense(l), idx) == 0.0
  {
    hide Dense, Prod;
    if InBounds(l.Shape(), idx) {
      hide At;
      AtDense(l, idx);
      SplitIndex(l, idx);
      EntryParts(l, idx);
    }
  }

  // ---- reshape ----

  /** An element of B·A when A has no real batch axes, addressed by flat row and column. */
  function FlatDot(a: seq<real>, b: seq<real>, rank: nat, width: nat, row: nat, col: nat): real {
    Dot(rank, (k: nat) => Get(b, row * rank + k), (k: nat) => Get(a, k * width + col))
  }

  lemma AtSnoc(t: Tensor, shape: Shape, d: nat, idx: Index, k: nat)
    requires t.shape == shape + [d] && InBounds(shape, idx) && k < d
    ensures At(t, idx + [k]) == Get(t.data, Ravel(shape, idx) * d + k)
  {
    RavelSnoc(shape, d, idx, k);
  }

  lemma AtOnes(t: Tensor, m: nat, rank: nat, width: nat, k: nat, col: nat)
    requires t.shape == Ones(m) + [rank] + [width] && k < rank && col < width
    ensures At(t, Zeros(m) + [k] + [col]) == Get(t.data, k * width + col)
  {
    RavelOnes(m);
    RavelSnoc(Ones(m), rank, Zeros(m), k);
    AtSnoc(t, Ones(m) + [rank], width, Zeros(m) + [k], col);
  }

  lemma ClampOnes(lead: Index)
    ensures Clamp(Ones(|lead|), lead) == Zeros(|lead|)
  {
    ClampAt(Ones(|lead|), lead);
  }

  lemma EntryParts(l: Lora, idx: Index)
    requires l.WellFormed() && |idx| >= 2
    ensures Entry(l, idx) == Dot(l.Rank(), RowOf(l, Init(idx)), ColumnOf(l, Init(Init(idx)), Last(idx)))
  {
  }

  lemma FlatEntry(l: Lora, idx: Index)
    requires l.WellFormed() && l.ALead() == Ones(|l.ALead()|) && InBounds(l.Shape(), idx)
    ensures InBounds(Init(l.B.shape), Init(idx))
    ensures Entry(l, idx)
         == FlatDot(l.A.data, l.B.data, l.Rank(), Last(l.A.shape), Ravel(Init(l.B.shape), Init(idx)), Last(idx))
  {
    hide At, Clamp, Prod, Entry, Ones, Zeros, Init, Ravel;
    SplitIndex(l, idx);
    Shapes(l);
    EntryParts(l, idx);
    var lead, col, rank, width := Init(Init(idx)), Last(idx), l.Rank(), Last(l.A.shape);
    var row := Ravel(Init(l.B.shape), Init(idx));
    ClampOnes(lead);
    forall k: nat | k < rank
      ensures RowOf(l, Init(idx))(k) == Get(l.B.data, row * rank + k)
    {
      AtSnoc(l.B, Init(l.B.shape), rank, Init(idx), k);
    }
    forall k: nat | k < rank
      ensures ColumnOf(l, lead, col)(k) == Get(l.A.data, k * width + col)
    {
      AtOnes(l.A, |lead|, rank, width, k, col);
    }
    DotCong(rank, RowOf(l, Init(idx)), ColumnOf(l, lead, col),
            (k: nat) => Get(l.B.data, row * rank + k), (k: nat) => Get(l.A.data, k * width + col));
  }

  /** With no batch axes in A, the elements of B·A in row-major order do not depend on the row axes' shape. */
  lemma FlatDense(l: Lora, p: nat)
    requires l.WellFormed() && l.ALead() == Ones(|l.ALead()|) && p < Prod(l.Shape())
    ensures Last(l.A.shape) > 0
    ensures
      var width := Last(l.A.shape);
      Dense(l).data[p] == FlatDot(l.A.data, l.B.data, l.Rank(), width, p / width, p % width)
  {
    var shape, d := l.Shape(), Last(l.A.shape);
    var idx := Unravel(shape, p);
    assert Init(shape) == Init(l.B.shape) && Last(shape) == d;
    Divided(p, Prod(Init(shape)), d);
    assert Last(idx) == p % d && Init(idx) == Unravel(Init(shape), p / d);
    assert Dense(l).data[p] == Entry(l, idx);
    hide Unravel, Dense, Prod, Entry, FlatDot, Ones;
    RavelUnravel(Init(shape), p / d);
    FlatEntry(l, idx);
  }

  lemma ProdParts(l: Lora)
    requires l.WellFormed()
    ensures Prod(l.A.shape) == Prod(l.ALead()) * l.Rank() * Last(l.A.shape)
    ensures Prod(l.B.shape) == Prod(Init(l.B.shape)) * l.Rank()
    ensures Prod(l.Shape()) == Prod(Init(l.B.shape)) * Last(l.A.shape)
  {
    Shapes(l);
    ProdSnoc(l.ALead() + [l.Rank()], Last(l.A.shape));
    ProdSnoc(l.ALead(), l.Rank());
    ProdSnoc(Init(l.B.shape), Last(l.A.shape));
  }

  lemma Cancel(a: nat, b: nat, c: nat)
    requires a * c == b * c && c > 0
    ensures a == b
  {
    MulMono(a + 1, b, c);
    MulMono(b + 1, a, c);
  }

  lemma NoBatch(l: Lora)
    requires l.WellFormed() && Prod(l.A.shape) == l.Rank() * Last(l.A.shape) > 0
    ensures l.ALead() == Ones(|l.ALead()|)
  {
    ProdParts(l);
    var w := l.Rank() * Last(l.A.shape);
    assert Prod(l.ALead()) * l.Rank() * Last(l.A.shape) == Prod(l.ALead()) * w;
    Cancel(Prod(l.ALead()), 1, w);
    ProdOne(l.ALead());
  }

  lemma RankZero(l: Lora, p: nat)
    requires l.WellFormed() && l.Rank() == 0 && p < Prod(l.Shape())
    ensures Dense(l).data[p] == 0.0
  {
    SplitIndex(l, Unravel(l.Shape(), p));
  }

  lemma TimesOne(a: nat, b: nat)
    ensures 1 * a * b == a * b
  {
  }

  lemma SameSizeA(r: Lora)
    requires r.WellFormed() && r.ALead() == Ones(|r.ALead()|)
    ensures Prod(r.A.shape) == r.Rank() * Last(r.A.shape)
  {
    hide Prod, Ones;
    ProdParts(r);
    RavelOnes(|r.ALead()|);
    assert Prod(r.ALead()) == 1;
    TimesOne(r.Rank(), Last(r.A.shape));
  }

  lemma SameFlat(l: Lora, r: Lora)
    requires l.WellFormed() && r.WellFormed()
    requires r.A.data == l.A.data && r.B.data == l.B.data && r.Rank() == l.Rank() && Last(r.A.shape) == Last(l.A.shape)
    requires r.ALead() == Ones(|r.ALead()|) && Prod(r.Shape()) == Prod(l.Shape())
    ensures Dense(r).data == Dense(l).data
  {
    hide Dense, Prod;
    forall p | 0 <= p < Prod(l.Shape())
      ensures Dense(r).data[p] == Dense(l).data[p]
    {
      SameFlatAt(l, r, p);
    }
  }

  lemma SameFlatAt(l: Lora, r: Lora, p: nat)
    requires l.WellFormed() && r.WellFormed()
    requires r.A.data == l.A.data && r.B.data == l.B.data && r.Rank() == l.Rank() && Last(r.A.shape) == Last(l.A.shape)
    requires r.ALead() == Ones(|r.ALead()|) && Prod(r.Shape()) == Prod(l.Shape())
    requires p < Prod(l.Shape())
    ensures Dense(r).data[p] == Dense(l).data[p]
  {
    hide Dense, Prod, Ones, FlatDot;
    if l.Rank() == 0 {
      RankZero(l, p);
      RankZero(r, p);
    } else {
      FlatDense(r, p);
      SameSizeA(r);
      NoBatch(l);
      FlatDense(l, p);
    }
  }

  /** The shape a reshape of the factors produces, when it produces one. */
  lemma ReshapeParts(l: Lora, newShape: seq<int>)
    requires l.WellFormed() && ReshapeLora(l, newShape).Ok?
    ensures |newShape| >= 2 && Expand(newShape, Prod(l.Shape())).Ok?
    ensures var r, s := ReshapeLora(l, newShape).value, Expand(newShape, Prod(l.Shape())).value;
      && r.WellFormed() && r.Shape() == s && r.Rank() == l.Rank() && Last(r.A.shape) == Last(l.A.shape)
      && r.A.data == l.A.data && r.B.data == l.B.data && r.ALead() == Ones(|s| - 2) && r.Coherent()
  {
    var r, s := ReshapeLora(l, newShape).value, Expand(newShape, Prod(l.Shape())).value;
    assert Init(r.A.shape) == Ones(|s| - 2) + [l.Rank()];
    assert r.ALead() == Ones(|s| - 2);
    assert Init(r.B.shape) == Init(s);
    assert r.Shape() == s;
  }

  lemma {:induction false} IntProdNatural(s: seq<int>)
    requires forall i :: 0 <= i < |s| ==> s[i] >= 0
    ensures IntProd(s) >= 0
    decreases |s|
  {
    if s != [] {
      IntProdNatural(Init(s));
    }
  }

  lemma ExpandNatural(newShape: seq<int>, elements: nat)
    requires Expand(newShape, elements).Ok?
    ensures forall i :: 0 <= i < |newShape| ==> newShape[i] >= -1
  {
    hide IntProd;
    forall i | 0 <= i < |newShape|
      ensures newShape[i] >= -1
    {
      assert newShape[i] == -1 || Expand(newShape, elements).value[i] == newShape[i];
    }
  }

  /** Where the class's expansion succeeds, the library agrees, unless more than one size is left open. */
  lemma ExpandIsInfer(newShape: seq<int>, elements: nat)
    ensures Expand(newShape, elements).Ok? && OneHole(newShape) ==>
      Infer(newShape, elements) == Expand(newShape, elements)
    ensures Infer(newShape, elements).Ok? ==>
      OneHole(newShape) && Expand(newShape, elements) == Infer(newShape, elements)
  {
    hide IntProd;
    if Expand(newShape, elements).Ok? {
      ExpandNatural(newShape, elements);
    }
    if forall i :: 0 <= i < |newShape| ==> newShape[i] >= -1 {
      IntProdNatural(Skip1(newShape));
    }
  }

  /** The number of elements of the shape asked for is that of B·A. */
  predicate SizesAgree(l: Lora, newShape: seq<int>)
    requires l.WellFormed()
  {
    var s := Expand(newShape, Prod(l.Shape()));
    s.Ok? && Prod(s.value) == Prod(l.Shape())
  }

  /**
   Reshaping the factors is reshaping B·A: a call that returns is accepted for B·A, with that result,
   exactly when it leaves one size open at most and either the rank is positive or the sizes agree.
   */
  lemma ReshapeCommutes(l: Lora, newShape: seq<int>)
    requires l.Coherent() && ReshapeLora(l, newShape).Ok?
    ensures ReshapeLora(l, newShape).value.Coherent()
    ensures DenseReshape(Dense(l), newShape).Ok? <==> OneHole(newShape) && (l.Rank() > 0 || SizesAgree(l, newShape))
    ensures DenseReshape(Dense(l), newShape).Ok? ==>
      DenseReshape(Dense(l), newShape) == Ok(Dense(ReshapeLora(l, newShape).value))
  {
    hide Prod, Expand, Infer, OneHole, Dense;
    var r := ReshapeLora(l, newShape).value;
    ExpandIsInfer(newShape, Prod(l.Shape()));
    ReshapeParts(l, newShape);
    if l.Rank() > 0 {
      ReshapeSize(l, r);
    }
    hide ReshapeLora;
    if Prod(r.Shape()) == Prod(l.Shape()) {
      SameFlat(l, r);
    }
  }

  lemma ReshapeSize(l: Lora, r: Lora)
    requires l.WellFormed() && r.WellFormed() && r.B.data == l.B.data && r.Rank() == l.Rank() > 0
    requires Last(r.A.shape) == Last(l.A.shape)
    ensures Prod(r.Shape()) == Prod(l.Shape())
  {
    hide Prod;
    ProdParts(l);
    ProdParts(r);
    Cancel(Prod(Init(r.B.shape)), Prod(Init(l.B.shape)), l.Rank());
  }

  /** A shape that fits B·A and keeps its last axis is never refused, when A has no real batch axes. */
  lemma ReshapeSucceeds(l: Lora, newShape: seq<int>)
    requires l.Coherent() && l.ALead() == Ones(|l.ALead()|) && |newShape| >= 2
    requires DenseReshape(Dense(l), newShape).Ok?
    requires Last(DenseReshape(Dense(l), newShape).value.shape) == Last(l.Shape()) > 0
    ensures ReshapeLora(l, newShape).Ok?
  {
    ExpandIsInfer(newShape, Prod(l.Shape()));
    var s := DenseReshape(Dense(l), newShape).value.shape;
    var width := Last(l.A.shape);
    ProdParts(l);
    RavelOnes(|l.ALead()|);
    RavelOnes(|s| - 2);
    ProdSnoc(Ones(|s| - 2) + [l.Rank()], width);
    ProdSnoc(Ones(|s| - 2), l.Rank());
    ProdSnoc(Init(s), l.Rank());
    assert Prod(s) == Prod(Init(s)) * width;
    Cancel(Prod(Init(s)), Prod(Init(l.B.shape)), width);
    assert Init(Ones(|s| - 2) + [l.Rank()] + [width]) == Ones(|s| - 2) + [l.Rank()];
  }
}
