/**
 The reordering of attention heads: view, swapaxes, view. It is accepted for the factors of every matrix
 with that many rows, and moves the rows of B·A as it moves those of a dense tensor.
 */
module LoraHeads {
  import opened Common
  import opened Tensors
  import opened LoraTensor
  import opened LoraProofs
  import opened LoraPermute
  import opened LoraChain

  lemma NaturalShape(s: Shape, elements: nat)
    ensures OneHole(s) && Natural(s) == Ok(s) && Expand(s, elements) == Ok(s) && Infer(s, elements) == Ok(s)
  {
    forall i | 0 <= i < |s|
      ensures s[i] != -1 && s[i] >= 0
    {
    }
  }

  lemma BatchSize(l: Lora)
    requires l.WellFormed() && NoBatchAxes(l)
    ensures Prod(l.A.shape) == l.Rank() * Last(l.A.shape) && Prod(l.B.shape) == Prod(Init(l.Shape())) * l.Rank()
  {
    hide Prod, Ones;
    BatchOnes(l);
    ProdParts(l);
    RavelOnes(|l.ALead()|);
    Shapes(l);
    TimesOne(l.Rank(), Last(l.A.shape));
  }

  /** A view that keeps the last axis and the number of rows. */
  lemma ViewFits(l: Lora, s: Shape)
    requires l.Coherent() && NoBatchAxes(l) && |s| >= 2 && Last(s) == Last(l.Shape())
    requires Prod(Init(s)) == Prod(Init(l.Shape()))
    ensures ReshapeLora(l, s).Ok? && ReshapeLora(l, s).value.Coherent() && ReshapeLora(l, s).value.Shape() == s
    ensures NoBatchAxes(ReshapeLora(l, s).value) && OneHole(s) && SizesAgree(l, s)
  {
    hide Prod, Expand, Infer, Natural;
    NaturalShape(s, Prod(l.Shape()));
    BatchSize(l);
    RavelOnes(|s| - 2);
    var a, b := Ones(|s| - 2) + [l.Rank()] + [Last(s)], Init(s) + [l.Rank()];
    ProdSnoc(Ones(|s| - 2) + [l.Rank()], Last(s));
    ProdSnoc(Ones(|s| - 2), l.Rank());
    ProdSnoc(Init(s), l.Rank());
    TimesOne(l.Rank(), Last(s));
    assert Init(a) == Ones(|s| - 2) + [l.Rank()];
    ProdInit(s);
    ProdInit(l.Shape());
    assert ReshapeLora(l, s).Ok?;
    ReshapeParts(l, s);
  }

  lemma ProdInit(s: Shape)
    requires s != []
    ensures Prod(s) == Prod(Init(s)) * Last(s)
  {
  }

  /** Swapping axes before the last leaves A alone. */
  lemma SwapKeepsA(l: Lora, i: int, j: int)
    requires l.Coherent() && |l.Shape()| > 2 && TransposeLora(l, i, j).Ok?
    ensures TransposeLora(l, i, j).value.A == l.A
  {
    hide Permute, Dense;
    TransposeAccepts(l, i, j);
  }

  /** The middle axes of four change places. */
  lemma SwapMiddle(l: Lora, h: nat, m: nat, k: nat, w: nat)
    requires l.Coherent() && NoBatchAxes(l) && l.Shape() == [h, m, k, w]
    ensures TransposeLora(l, 1, 2).Ok?
    ensures
      var r := TransposeLora(l, 1, 2).value;
      && r.Coherent() && NoBatchAxes(r) && r.Shape() == [h, k, m, w]
      && DenseTranspose(Dense(l), 1, 2) == Ok(Dense(r))
  {
    hide Dense, Exchanged, NoBatchAxes, TransposeLora;
    TransposeAccepts(l, 1, 2);
    TransposeCommutes(l, 1, 2);
    SwapKeepsA(l, 1, 2);
    SameBatch(l, TransposeLora(l, 1, 2).value);
    assert SwapAt([h, m, k, w], 1, 2) == [h, k, m, w];
  }

  lemma SameBatch(l: Lora, r: Lora)
    requires l.WellFormed() && r.WellFormed() && r.A == l.A
    ensures NoBatchAxes(l) <==> NoBatchAxes(r)
  {
  }

  function HeadOps(h: nat, m: nat, k: nat, w: nat): seq<Op> {
    [View([h, m, k, w]), SwapAxes(1, 2), View([h * m * k, w])]
  }

  lemma ProdThree(a: nat, b: nat, c: nat)
    ensures Prod([a, b, c]) == a * b * c
  {
    assert Init([a, b, c]) == [a, b] && Init([a, b]) == [a] && Init([a]) == [];
    assert Prod([]) == 1 && Prod([a]) == a && Prod([a, b]) == a * b;
  }

  lemma Commute(a: nat, b: nat, c: nat)
    ensures a * b * c == a * c * b
  {
  }

  lemma ProdOf(a: nat)
    ensures Prod([a]) == a
  {
    assert Init([a]) == [];
  }

  lemma RowsFit(h: nat, m: nat, k: nat, w: nat, four: Shape, swapped: Shape, two: Shape)
    requires four == [h, m, k, w] && swapped == [h, k, m, w] && two == [h * m * k, w]
    ensures Prod(Init(four)) == Prod(Init(two)) == Prod(Init(swapped))
  {
    hide Prod;
    assert Init(four) == [h, m, k] && Init(two) == [h * m * k] && Init(swapped) == [h, k, m];
    ProdThree(h, m, k);
    ProdThree(h, k, m);
    ProdOf(h * m * k);
    Commute(h, m, k);
  }

  lemma RunThree(l: Lora, x: Op, y: Op, z: Op, l1: Lora, l2: Lora, l3: Lora)
    requires l.WellFormed() && l1.WellFormed() && l2.WellFormed() && l3.WellFormed()
    requires ApplyLora(l, x) == Ok(l1) && ApplyLora(l1, y) == Ok(l2) && ApplyLora(l2, z) == Ok(l3)
    ensures RunLora(l, [x, y, z]) == Ok(l3)
    ensures Guarded(l, [x, y, z]) <==> OpOk(l, x) && OpOk(l1, y) && OpOk(l2, z)
  {
    assert [x, y, z][1..] == [y, z] && [y, z][1..] == [z] && [z][1..] == [];
    RunFirst(l2, [z], l3);
    RunFirst(l1, [y, z], l2);
    RunFirst(l, [x, y, z], l1);
    RunNone(l3);
    hide *;
  }

  lemma RunNone(l: Lora)
    requires l.WellFormed()
    ensures RunLora(l, []) == Ok(l) && Guarded(l, [])
  {
  }

  lemma RunFirst(l: Lora, ops: seq<Op>, next: Lora)
    requires l.WellFormed() && next.WellFormed() && ops != [] && ApplyLora(l, ops[0]) == Ok(next)
    ensures RunLora(l, ops) == RunLora(next, ops[1..])
    ensures RunLora(l, ops).Ok? ==> (Guarded(l, ops) <==> OpOk(l, ops[0]) && Guarded(next, ops[1..]))
  {
    hide ApplyLora, OpOk;
  }

  /** The chain is accepted for every matrix with h * m * k rows, and gives factors of what it makes of B·A. */
  lemma HeadsAccepted(l: Lora, h: nat, m: nat, k: nat, w: nat)
    requires l.Coherent() && |l.Shape()| == 2 && l.Shape()[0] == h * m * k && l.Shape()[1] == w
    ensures RunLora(l, HeadOps(h, m, k, w)).Ok?
    ensures
      var r := RunLora(l, HeadOps(h, m, k, w)).value;
      r.Coherent() && r.Shape() == l.Shape() && RunDense(Dense(l), HeadOps(h, m, k, w)) == Ok(Dense(r))
  {
    hide Dense, Prod, ReshapeLora, TransposeLora, NoBatchAxes, OneHole, SizesAgree;
    assert l.Shape() == [h * m * k, w];
    var four: Shape, two: Shape := [h, m, k, w], [h * m * k, w];
    RowsFit(h, m, k, w, four, [h, k, m, w], two);
    assert NoBatchAxes(l) by {
      Matrix(l);
    }
    ViewFits(l, four);
    var l1 := ReshapeLora(l, four).value;
    SwapMiddle(l1, h, m, k, w);
    var l2 := TransposeLora(l1, 1, 2).value;
    ViewFits(l2, two);
    var l3 := ReshapeLora(l2, two).value;
    RunThree(l, View(four), SwapAxes(1, 2), View(two), l1, l2, l3);
    ChainCommutes(l, HeadOps(h, m, k, w));
  }

  lemma Matrix(l: Lora)
    requires l.WellFormed() && |l.Shape()| == 2
    ensures NoBatchAxes(l)
  {
    hide Prod;
  }

  // ---- which rows move where ----

  lemma RavelTwo(s: Shape, r: nat, j: nat)
    requires |s| == 2 && r < s[0] && j < s[1]
    ensures InBounds(s, [r, j]) && Ravel(s, [r, j]) == r * s[1] + j
  {
    assert Init(s) == [s[0]] && Init([r, j]) == [r] && Init([r]) == [] && Init([s[0]]) == [];
    assert Ravel([s[0]], [r]) == r;
  }

  lemma RavelFour(s: Shape, a: nat, b: nat, c: nat, j: nat)
    requires |s| == 4 && a < s[0] && b < s[1] && c < s[2] && j < s[3]
    ensures InBounds(s, [a, b, c, j]) && Ravel(s, [a, b, c, j]) == ((a * s[1] + b) * s[2] + c) * s[3] + j
    ensures (a * s[1] + b) * s[2] + c < s[0] * s[1] * s[2]
  {
    var front := [s[0], s[1]];
    RavelTwo(front, a, b);
    RavelSnoc(front, s[2], [a, b], c);
    RavelSnoc(front + [s[2]], s[3], [a, b] + [c], j);
    assert s == front + [s[2]] + [s[3]] && [a, b, c, j] == [a, b] + [c] + [j];
    Scaled(a, s[0], s[1], b);
    Scaled(a * s[1] + b, s[0] * s[1], s[2], c);
  }

  /** An element of a four-axis view, and of the matrix with the same elements. */
  lemma SameElement(data: seq<real>, four: Shape, two: Shape, a: nat, b: nat, c: nat, j: nat)
    requires |four| == 4 && two == [four[0] * four[1] * four[2], four[3]]
    requires a < four[0] && b < four[1] && c < four[2] && j < four[3]
    ensures At(Tensor(four, data), [a, b, c, j]) == At(Tensor(two, data), [(a * four[1] + b) * four[2] + c, j])
  {
    RavelFour(four, a, b, c, j);
    RavelTwo(two, (a * four[1] + b) * four[2] + c, j);
    hide Ravel;
  }

  /** What the chain makes of a dense matrix. */
  function Reordered(t: Tensor, h: nat, m: nat, k: nat, w: nat): Tensor {
    Tensor(t.shape, Exchanged(Tensor([h, m, k, w], t.data), 1, 2).data)
  }

  /** The row of head a, half b and position c, where a head has m halves of k rows. */
  function Row(a: nat, b: nat, c: nat, m: nat, k: nat): nat {
    (a * m + b) * k + c
  }

  lemma MovedRow(t: Tensor, h: nat, m: nat, k: nat, w: nat, a: nat, b: nat, c: nat, j: nat)
    requires |t.shape| == 2 && t.shape[0] == h * m * k && t.shape[1] == w && a < h && b < m && c < k && j < w
    ensures At(Reordered(t, h, m, k, w), [Row(a, c, b, k, m), j]) == At(t, [Row(a, b, c, m, k), j])
  {
    hide At, Exchanged;
    assert t.shape == [h * m * k, w];
    var four: Shape, swapped: Shape := [h, m, k, w], [h, k, m, w];
    var u := Tensor(four, t.data);
    var v := Exchanged(u, 1, 2);
    assert v.shape == swapped && v == Tensor(swapped, v.data);
    Commute(h, m, k);
    SameElement(v.data, swapped, t.shape, a, c, b, j);
    RavelFour(swapped, a, c, b, j);
    AtExchanged(u, 1, 2, [a, c, b, j]);
    assert SwapAt([a, c, b, j], 1, 2) == [a, b, c, j];
    SameElement(t.data, four, t.shape, a, b, c, j);
  }

  lemma DenseView(t: Tensor, s: Shape)
    requires Prod(s) == Prod(t.shape)
    ensures ApplyDense(t, View(s)) == Ok(Tensor(s, t.data))
  {
    NaturalShape(s, Prod(t.shape));
    hide Prod, Infer;
  }

  lemma DenseThree(t: Tensor, x: Op, y: Op, z: Op, t1: Tensor, t2: Tensor, t3: Tensor)
    requires ApplyDense(t, x) == Ok(t1) && ApplyDense(t1, y) == Ok(t2) && ApplyDense(t2, z) == Ok(t3)
    ensures RunDense(t, [x, y, z]) == Ok(t3)
  {
    hide ApplyDense;
    assert [x, y, z][1..] == [y, z] && [y, z][1..] == [z] && [z][1..] == [];
    assert RunDense(t3, []) == Ok(t3);
    assert RunDense(t2, [z]) == Ok(t3);
    assert RunDense(t1, [y, z]) == Ok(t3);
  }

  lemma DenseReordered(t: Tensor, h: nat, m: nat, k: nat, w: nat)
    requires |t.shape| == 2 && t.shape[0] == h * m * k && t.shape[1] == w
    ensures RunDense(t, HeadOps(h, m, k, w)) == Ok(Reordered(t, h, m, k, w))
  {
    hide Prod, Exchanged;
    assert t.shape == [h * m * k, w];
    var four: Shape, swapped: Shape, two: Shape := [h, m, k, w], [h, k, m, w], [h * m * k, w];
    RowsFit(h, m, k, w, four, swapped, two);
    ProdInit(four);
    ProdInit(swapped);
    ProdInit(two);
    var u := Tensor(four, t.data);
    var v := Exchanged(u, 1, 2);
    assert v.shape == swapped;
    DenseView(t, four);
    DenseView(v, two);
    DenseThree(t, View(four), SwapAxes(1, 2), View(two), u, v, Tensor(two, v.data));
  }

  /**
   The factors of every matrix of h times m times k rows take the reordering, and row (a, c, b) of the result
   is row (a, b, c) of B·A.
   */
  lemma HeadsReorder(l: Lora, h: nat, m: nat, k: nat, w: nat, a: nat, b: nat, c: nat, j: nat)
    requires l.Coherent() && |l.Shape()| == 2 && l.Shape()[0] == h * m * k && l.Shape()[1] == w
    ensures RunLora(l, HeadOps(h, m, k, w)).Ok?
    ensures
      var r := RunLora(l, HeadOps(h, m, k, w)).value;
      && r.Coherent() && r.Shape() == l.Shape()
      && (a < h && b < m && c < k && j < w ==>
            At(Dense(r), [Row(a, c, b, k, m), j]) == At(Dense(l), [Row(a, b, c, m, k), j]))
  {
    hide Dense, RunLora, RunDense, HeadOps, Reordered, At, Row;
    HeadsAccepted(l, h, m, k, w);
    DenseReordered(Dense(l), h, m, k, w);
    if a < h && b < m && c < k && j < w {
      MovedRow(Dense(l), h, m, k, w, a, b, c, j);
    }
  }
}
