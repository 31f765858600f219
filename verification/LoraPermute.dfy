/** Permuting and transposing the factors permutes and transposes B·A. */
module LoraPermute {
  import opened Common
  import opened Tensors
  import opened LoraTensor
  import opened LoraProofs

  lemma AtPermute(t: Tensor, p: Perm, idx: Index)
    requires IsPerm(p, |t.shape|) && InBounds(PermutedShape(t.shape, p), idx)
    ensures At(Permute(t, p), idx) == At(t, Scatter(p, idx))
  {
    UnravelRavel(PermutedShape(t.shape, p), idx);
  }

  // ---- the last axis stays last ----

  predicate KeepsLast(p: Perm, n: nat) {
    n > 0 && IsPerm(p, n) && p.fwd[n - 1] == n - 1
  }

  /** Scattering leaves the last entry alone, and the other entries do not depend on it. */
  lemma ScatterLast(p: Perm, idx: Index, k: nat)
    requires KeepsLast(p, |idx|)
    ensures |Scatter(p, idx)| == |idx| && Last(Scatter(p, idx)) == Last(idx)
    ensures Scatter(p, Init(idx) + [k]) == Init(Scatter(p, idx)) + [k]
  {
    var n := |idx|;
    var u, v := Scatter(p, Init(idx) + [k]), Init(Scatter(p, idx)) + [k];
    forall d | 0 <= d < n
      ensures u[d] == v[d]
    {
      assert p.fwd[p.inv[d]] == d && p.inv[p.fwd[n - 1]] == n - 1;
    }
  }

  lemma PermutedShapeLast(shape: Shape, p: Perm, w: nat)
    requires KeepsLast(p, |shape|)
    ensures PermutedShape(Init(shape) + [w], p) == Init(PermutedShape(shape, p)) + [w]
  {
    var u, v := PermutedShape(Init(shape) + [w], p), Init(PermutedShape(shape, p)) + [w];
    forall i | 0 <= i < |shape|
      ensures u[i] == v[i]
    {
      assert p.inv[p.fwd[i]] == i && p.inv[p.fwd[|shape| - 1]] == |shape| - 1;
    }
  }

  lemma EntryKeepsLast(l: Lora, r: Lora, p: Perm, idx: Index)
    requires l.WellFormed() && r.WellFormed() && |idx| >= 2 && KeepsLast(p, |idx|)
    requires l.ALead() == Ones(|idx| - 2) && r.A == l.A && |l.B.shape| == |idx|
    requires r.B == Permute(l.B, p) && InBounds(Init(r.B.shape), Init(idx)) && r.Rank() == l.Rank()
    ensures Entry(l, Scatter(p, idx)) == Entry(r, idx)
  {
    hide Permute, Scatter;
    var src := Scatter(p, idx);
    ScatterLast(p, idx, 0);
    forall k: nat | k < l.Rank()
      ensures RowOf(l, Init(src))(k) == RowOf(r, Init(idx))(k)
    {
      ScatterLast(p, idx, k);
      assert r.B.shape == Init(r.B.shape) + [l.Rank()];
      AtPermute(l.B, p, Init(idx) + [k]);
    }
    ClampOnes(Init(Init(idx)));
    ClampOnes(Init(Init(src)));
    DotCong(l.Rank(), RowOf(l, Init(src)), ColumnOf(l, Init(Init(src)), Last(src)),
            RowOf(r, Init(idx)), ColumnOf(r, Init(Init(idx)), Last(idx)));
  }

  lemma PermuteKeepsLast(l: Lora, p: Perm)
    requires l.WellFormed() && l.ALead() == Ones(|l.Shape()| - 2) && KeepsLast(p, |l.Shape()|)
    ensures var r := Lora(l.A, Permute(l.B, p));
      r.Coherent() && r.Rank() == l.Rank() && Permute(Dense(l), p) == Dense(r)
  {
    hide Permute, Scatter;
    var r := Lora(l.A, Permute(l.B, p));
    Shapes(l);
    PermutedShapeLast(l.Shape(), p, l.Rank());
    PermutedShapeLast(l.Shape(), p, Last(l.A.shape));
    assert Init(l.Shape()) + [l.Rank()] == l.B.shape && Init(l.Shape()) + [Last(l.A.shape)] == l.Shape();
    var t := Permute(Dense(l), p);
    assert t.shape == r.Shape();
    forall idx | InBounds(t.shape, idx)
      ensures At(t, idx) == At(Dense(r), idx)
    {
      AtPermute(Dense(l), p, idx);
      ScatterAt(l.Shape(), p, idx);
      AtDense(l, Scatter(p, idx));
      AtDense(r, idx);
      EntryKeepsLast(l, r, p, idx);
    }
    Extensional(t, Dense(r));
  }

  // ---- the two axes of a matrix change places ----

  const FLIP: Perm := Perm([1, 0], [1, 0])

  lemma AtFlip(t: Tensor, i: nat, j: nat)
    requires |t.shape| == 2 && i < t.shape[1] && j < t.shape[0]
    ensures Permute(t, FLIP).shape == [t.shape[1], t.shape[0]]
    ensures At(Permute(t, FLIP), [i, j]) == At(t, [j, i])
  {
    hide Permute;
    assert Scatter(FLIP, [i, j]) == [j, i];
    AtPermute(t, FLIP, [i, j]);
  }

  lemma EntryOfMatrix(l: Lora, i: nat, j: nat)
    requires l.WellFormed() && |l.A.shape| == 2
    ensures Entry(l, [i, j]) == Dot(l.Rank(), (k: nat) => At(l.B, [i, k]), (k: nat) => At(l.A, [k, j]))
  {
    assert Init([i, j]) == [i] && Init([i]) == [];
    forall k: nat | k < l.Rank()
      ensures RowOf(l, [i])(k) == At(l.B, [i, k])
      ensures ColumnOf(l, [], j)(k) == At(l.A, [k, j])
    {
      assert [i] + [k] == [i, k];
      assert Clamp(l.ALead(), []) == [];
      assert [] + [k] + [j] == [k, j];
    }
    DotCong(l.Rank(), RowOf(l, [i]), ColumnOf(l, [], j), (k: nat) => At(l.B, [i, k]), (k: nat) => At(l.A, [k, j]));
  }

  lemma EntryOfFlipped(l: Lora, r: Lora, i: nat, j: nat)
    requires l.WellFormed() && r.WellFormed() && |l.A.shape| == |r.A.shape| == 2 && r.Rank() == l.Rank()
    requires forall k: nat :: k < l.Rank() ==> At(r.B, [i, k]) == At(l.A, [k, i]) && At(r.A, [k, j]) == At(l.B, [j, k])
    ensures Entry(r, [i, j]) == Entry(l, [j, i])
  {
    EntryOfMatrix(l, j, i);
    EntryOfMatrix(r, i, j);
    var f, g := (k: nat) => At(l.B, [j, k]), (k: nat) => At(l.A, [k, i]);
    DotSwap(l.Rank(), f, g);
    DotCong(l.Rank(), g, f, (k: nat) => At(r.B, [i, k]), (k: nat) => At(r.A, [k, j]));
  }

  lemma FlipShape(t: Tensor)
    requires |t.shape| == 2
    ensures IsPerm(FLIP, 2) && Permute(t, FLIP).shape == [t.shape[1], t.shape[0]]
  {
    hide Permute, Scatter;
  }

  /** (B·A)ᵀ is Aᵀ·Bᵀ. */
  lemma TransposeProduct(l: Lora)
    requires l.WellFormed() && |l.Shape()| == 2
    ensures var r := Lora(Permute(l.B, FLIP), Permute(l.A, FLIP));
      r.Coherent() && r.Rank() == l.Rank() && Permute(Dense(l), FLIP) == Dense(r)
  {
    hide Permute, Scatter;
    FlipShape(l.A);
    FlipShape(l.B);
    FlipShape(Dense(l));
    var r := Lora(Permute(l.B, FLIP), Permute(l.A, FLIP));
    var t := Permute(Dense(l), FLIP);
    assert t.shape == r.Shape() == [l.A.shape[1], l.B.shape[0]];
    forall idx | InBounds(t.shape, idx)
      ensures At(t, idx) == At(Dense(r), idx)
    {
      var i, j := idx[0], idx[1];
      assert idx == [i, j];
      AtFlip(Dense(l), i, j);
      AtDense(l, [j, i]);
      AtDense(r, idx);
      FlippedTerms(l, r, i, j);
      EntryOfFlipped(l, r, i, j);
    }
    Extensional(t, Dense(r));
  }

  lemma FlippedTerms(l: Lora, r: Lora, i: nat, j: nat)
    requires l.WellFormed() && |l.Shape()| == 2 && i < l.A.shape[1] && j < l.B.shape[0]
    requires r == Lora(Permute(l.B, FLIP), Permute(l.A, FLIP))
    ensures forall k: nat :: k < l.Rank() ==> At(r.B, [i, k]) == At(l.A, [k, i]) && At(r.A, [k, j]) == At(l.B, [j, k])
  {
    hide Permute, Scatter;
    forall k: nat | k < l.Rank()
      ensures At(r.B, [i, k]) == At(l.A, [k, i]) && At(r.A, [k, j]) == At(l.B, [j, k])
    {
      AtFlip(l.A, i, k);
      AtFlip(l.B, k, j);
    }
  }

  // ---- the method ----

  /** A permutation of two axes that moves the last one is the exchange. */
  lemma MovesLast(p: Perm)
    requires IsPerm(p, 2) && p.fwd[1] == 0
    ensures p == FLIP
  {
    assert p.inv[p.fwd[1]] == 1 && p.inv[p.fwd[0]] == 0;
    assert p.fwd == [1, 0];
    assert p.inv == [1, 0];
  }

  /** What a successful call does, in axis numbers counted from the end. */
  lemma PermuteByAxes(l: Lora, dims: seq<int>)
    requires l.Coherent() && PermuteLora(l, dims).Ok?
    ensures |dims| == |l.Shape()| && PermuteLora(l, dims).value.Coherent()
    ensures PermuteLora(l, dims).value.Rank() == l.Rank()
    ensures DensePermute(Dense(l), FromEnd(dims, |l.Shape()|)) == Ok(Dense(PermuteLora(l, dims).value))
  {
    hide Permute, Scatter;
    var n := |l.Shape()|;
    var ds := FromEnd(dims, n);
    var p := Axes(ds, n).value;
    assert p.fwd[n - 1] == Wrap(Last(ds), n);
    if Last(ds) == -1 {
      PermuteKeepsLast(l, p);
    } else {
      MovesLast(p);
      TransposeProduct(l);
    }
  }

  /** Counting from the end changes nothing for an axis number in range. */
  lemma AxesFromEnd(dims: seq<int>, n: nat)
    requires |dims| == n
    ensures (forall i :: 0 <= i < n ==> dims[i] < n) ==> Axes(FromEnd(dims, n), n) == Axes(dims, n)
    ensures (exists i :: 0 <= i < n && dims[i] >= n) ==> Axes(dims, n).Err?
  {
    var ds := FromEnd(dims, n);
    if forall i :: 0 <= i < n ==> dims[i] < n {
      forall i | 0 <= i < n
        ensures 0 <= ds[i] + n < n + n <==> 0 <= dims[i] + n < n + n
      {
      }
      if forall i :: 0 <= i < n ==> 0 <= dims[i] + n < n + n {
        assert seq<nat>(|ds|, i requires 0 <= i < |ds| => Wrap(ds[i], n))
            == seq<nat>(|dims|, i requires 0 <= i < |dims| => Wrap(dims[i], n));
      }
    }
  }

  /**
   Permuting the factors is permuting B·A, unless an axis number is past the last axis: the factors
   then accept a call that the dense tensor refuses.
   */
  lemma PermuteCommutes(l: Lora, dims: seq<int>)
    requires l.Coherent() && PermuteLora(l, dims).Ok?
    ensures |dims| == |l.Shape()| && PermuteLora(l, dims).value.Coherent()
    ensures PermuteLora(l, dims).value.Rank() == l.Rank()
    ensures DensePermute(Dense(l), dims) == Ok(Dense(PermuteLora(l, dims).value))
      <==> forall i :: 0 <= i < |dims| ==> dims[i] < |l.Shape()|
  {
    hide PermuteLora, Axes, Permute, Dense;
    PermuteByAxes(l, dims);
    AxesFromEnd(dims, |l.Shape()|);
  }

  /** Every permutation of a matrix is supported. */
  lemma MatrixPermuteSucceeds(l: Lora, dims: seq<int>)
    requires l.Coherent() && |l.Shape()| == 2 && DensePermute(Dense(l), dims).Ok?
    ensures PermuteLora(l, dims).Ok?
  {
    hide Permute, Scatter;
    AxesFromEnd(dims, 2);
    var ds := FromEnd(dims, 2);
    var p := Axes(ds, 2).value;
    assert p.fwd[1] == Wrap(ds[1], 2) && p.fwd[0] == Wrap(ds[0], 2);
    assert p.inv[p.fwd[0]] == 0 && p.inv[p.fwd[1]] == 1;
    assert l.ALead() == Ones(0);
    if Last(ds) == -1 {
      PermuteKeepsLast(l, p);
    } else {
      MovesLast(p);
      TransposeProduct(l);
    }
  }

  // ---- which calls are accepted ----

  /** The last axis number is that of the last axis. */
  predicate StaysLast(dims: seq<int>, n: nat) {
    dims != [] && (Last(dims) == n - 1 || Last(dims) == -1)
  }

  /** None of A's batch axes is longer than 1 (or empty); B's do not matter. */
  predicate NoBatchAxes(l: Lora) {
    forall i :: 0 <= i < |l.A.shape| - 2 ==> l.A.shape[i] == 1
  }

  lemma BatchOnes(l: Lora)
    requires l.WellFormed()
    ensures NoBatchAxes(l) <==> l.ALead() == Ones(|l.Shape()| - 2)
  {
    hide Prod;
    assert forall i :: 0 <= i < |l.ALead()| ==> l.ALead()[i] == l.A.shape[i];
  }

  /**
   Of the permutations that B·A accepts, those of a matrix are all accepted, and those of more axes exactly
   when the last axis stays last and A has no real batch axes.
   */
  lemma PermuteAccepts(l: Lora, dims: seq<int>)
    requires l.Coherent() && forall i :: 0 <= i < |dims| ==> dims[i] < |l.Shape()|
    ensures
      var n, r := |l.Shape()|, PermuteLora(l, dims);
      && (r.Ok? <==> DensePermute(Dense(l), dims).Ok? && (n == 2 || (StaysLast(dims, n) && NoBatchAxes(l))))
      && (DensePermute(Dense(l), dims).Ok? && n > 2 && !StaysLast(dims, n) ==> r == Err(NotImplemented))
      && (DensePermute(Dense(l), dims).Ok? && n > 2 && StaysLast(dims, n) && !NoBatchAxes(l) ==>
            r == Err(AssertionError))
  {
    hide Permute, Scatter, Dense, Axes, PermuteLora, NoBatchAxes;
    var n := |l.Shape()|;
    if PermuteLora(l, dims).Ok? {
      PermuteByAxes(l, dims);
    }
    if |dims| == n {
      AxesFromEnd(dims, n);
    }
    if DensePermute(Dense(l), dims).Ok? {
      if n == 2 {
        MatrixPermuteSucceeds(l, dims);
      } else {
        BatchPermutes(l, dims);
      }
    }
  }

  lemma BatchPermutes(l: Lora, dims: seq<int>)
    requires l.Coherent() && |l.Shape()| > 2 && |dims| == |l.Shape()|
    requires Axes(FromEnd(dims, |dims|), |dims|).Ok? && forall i :: 0 <= i < |dims| ==> dims[i] < |dims|
    ensures
      var r := PermuteLora(l, dims);
      if !StaysLast(dims, |dims|) then r == Err(NotImplemented)
      else if NoBatchAxes(l) then r.Ok?
      else r == Err(AssertionError)
  {
    hide Permute, Scatter, Dense, Axes;
    BatchOnes(l);
    var n := |dims|;
    var p := Axes(FromEnd(dims, n), n).value;
    assert Last(FromEnd(dims, n)) == -1 <==> StaysLast(dims, n);
    if StaysLast(dims, n) && NoBatchAxes(l) {
      assert p.fwd[n - 1] == Wrap(Last(FromEnd(dims, n)), n) == n - 1;
      PermuteKeepsLast(l, p);
    }
  }

  // ---- transpose ----

  function SwapPos(p: nat, q: nat, k: nat): nat {
    if k == p then q else if k == q then p else k
  }

  lemma SwapIsPerm(fwd: seq<nat>, p: nat, q: nat)
    requires p < |fwd| && q < |fwd| && forall k :: 0 <= k < |fwd| ==> fwd[k] == SwapPos(p, q, k)
    ensures IsPerm(Perm(fwd, fwd), |fwd|)
    ensures forall idx: Index :: |idx| == |fwd| ==> Scatter(Perm(fwd, fwd), idx) == SwapAt(idx, p, q)
  {
  }

  lemma SwappedAxes(n: nat, i: int, j: int)
    requires 0 <= i + n < n + n && 0 <= j + n < n + n
    ensures SwappedDims(n, i, j).Ok? && var dims := SwappedDims(n, i, j).value;
      && |dims| == n && (forall k :: 0 <= k < n ==> dims[k] == SwapPos(Wrap(i, n), Wrap(j, n), k) < n)
  {
  }

  lemma PermIsSwap(perm: Perm, n: nat, p: nat, q: nat)
    requires IsPerm(perm, n) && p < n && q < n && forall k :: 0 <= k < n ==> perm.fwd[k] == SwapPos(p, q, k)
    ensures perm.inv == perm.fwd
  {
    forall d | 0 <= d < n
      ensures perm.inv[d] == perm.fwd[d]
    {
      assert perm.inv[perm.fwd[SwapPos(p, q, d)]] == SwapPos(p, q, d);
      assert perm.fwd[SwapPos(p, q, d)] == d;
    }
  }

  lemma PermuteIsTranspose(t: Tensor, perm: Perm, i: int, j: int)
    requires t.Valid() && 0 <= i + |t.shape| < |t.shape| + |t.shape| && 0 <= j + |t.shape| < |t.shape| + |t.shape|
    requires IsPerm(perm, |t.shape|)
    requires forall k :: 0 <= k < |t.shape| ==> perm.fwd[k] == SwapPos(Wrap(i, |t.shape|), Wrap(j, |t.shape|), k)
    ensures DenseTranspose(t, i, j) == Ok(Permute(t, perm))
  {
    hide Permute, Scatter;
    var n := |t.shape|;
    var p: nat, q: nat := Wrap(i, n), Wrap(j, n);
    PermIsSwap(perm, n, p, q);
    SwapIsPerm(perm.fwd, p, q);
    var u, v := Permute(t, perm), DenseTranspose(t, i, j).value;
    assert u.shape == v.shape;
    forall idx | InBounds(u.shape, idx)
      ensures At(u, idx) == At(v, idx)
    {
      AtPermute(t, perm, idx);
      AtExchanged(t, p, q, idx);
    }
    Extensional(u, v);
  }

  /** Swapping two axes of the factors swaps them in B·A, negative axis numbers included. */
  lemma TransposeCommutes(l: Lora, i: int, j: int)
    requires l.Coherent() && TransposeLora(l, i, j).Ok?
    ensures TransposeLora(l, i, j).value.Coherent() && TransposeLora(l, i, j).value.Rank() == l.Rank()
    ensures DenseTranspose(Dense(l), i, j) == Ok(Dense(TransposeLora(l, i, j).value))
  {
    hide Permute, Scatter;
    var n := |l.Shape()|;
    SwappedAxes(n, i, j);
    var dims := SwappedDims(n, i, j).value;
    PermuteCommutes(l, dims);
    PermuteIsTranspose(Dense(l), Axes(dims, n).value, i, j);
  }

  lemma SwapStays(n: nat, i: int, j: int)
    requires 0 <= i + n < n + n && 0 <= j + n < n + n && n > 0
    ensures
      var dims := SwappedDims(n, i, j).value;
      StaysLast(dims, n) <==> Wrap(i, n) == Wrap(j, n) || (Wrap(i, n) < n - 1 && Wrap(j, n) < n - 1)
  {
    SwappedAxes(n, i, j);
  }

  /** Swapping is accepted for all axes of a matrix, and for two before the last if A has no real batch axes. */
  lemma TransposeAccepts(l: Lora, i: int, j: int)
    requires l.Coherent()
    ensures
      var n := |l.Shape()|;
      TransposeLora(l, i, j).Ok?
      <==> && DenseTranspose(Dense(l), i, j).Ok?
           && (n == 2 ||
               (NoBatchAxes(l) && (Wrap(i, n) == Wrap(j, n) || (Wrap(i, n) < n - 1 && Wrap(j, n) < n - 1))))
  {
    hide Exchanged, Dense, NoBatchAxes, StaysLast;
    var n := |l.Shape()|;
    if DenseTranspose(Dense(l), i, j).Ok? {
      SwappedAxes(n, i, j);
      SwapStays(n, i, j);
      var dims := SwappedDims(n, i, j).value;
      SwapAccepted(Dense(l), dims, Wrap(i, n), Wrap(j, n));
      PermuteAccepts(l, dims);
    }
  }

  lemma SwapAccepted(t: Tensor, dims: seq<int>, p: nat, q: nat)
    requires p < |t.shape| && q < |t.shape| && |dims| == |t.shape|
    requires forall k :: 0 <= k < |dims| ==> dims[k] == SwapPos(p, q, k)
    ensures DensePermute(t, dims).Ok?
  {
    hide Permute;
    var n := |dims|;
    var fwd := seq<nat>(n, i requires 0 <= i < n => Wrap(dims[i], n));
    forall d: nat | d < n
      ensures d in fwd
    {
      assert fwd[SwapPos(p, q, d)] == d;
    }
  }
}
