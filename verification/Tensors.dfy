/**
 Dense tensors as the original's tensor library stores them: a shape and the elements in row-major
 order. Every operation that moves elements is defined by the multi-index it reads from.
 */
module Tensors {
  import opened Common

  type Index = seq<nat>
  type Shape = seq<nat>

  function Prod(s: Shape): nat
    decreases |s|
  {
    if s == [] then 1 else Prod(Init(s)) * Last(s)
  }

  predicate InBounds(shape: Shape, idx: Index) {
    |idx| == |shape| && forall i {:trigger idx[i]} :: 0 <= i < |shape| ==> idx[i] < shape[i]
  }

  /** The row-major position of a multi-index, by Horner's rule. */
  function Ravel(shape: Shape, idx: Index): (n: nat)
    requires InBounds(shape, idx)
    ensures n < Prod(shape)
    decreases |shape|
  {
    if shape == [] then 0
    else
      var q := Ravel(Init(shape), Init(idx));
      Scaled(q, Prod(Init(shape)), Last(shape), Last(idx));
      q * Last(shape) + Last(idx)
  }

  /** The multi-index stored at a row-major position. */
  function Unravel(shape: Shape, n: nat): (idx: Index)
    requires n < Prod(shape)
    ensures InBounds(shape, idx)
    decreases |shape|
  {
    if shape == [] then []
    else
      var d := Last(shape);
      Divided(n, Prod(Init(shape)), d);
      var q := Unravel(Init(shape), n / d);
      SnocInBounds(shape, q, n % d);
      q + [n % d]
  }

  lemma {:induction false} RavelUnravel(shape: Shape, n: nat)
    requires n < Prod(shape)
    ensures Ravel(shape, Unravel(shape, n)) == n
    decreases |shape|
  {
    if shape != [] {
      var d := Last(shape);
      Divided(n, Prod(Init(shape)), d);
      RavelUnravel(Init(shape), n / d);
      SnocInBounds(shape, Unravel(Init(shape), n / d), n % d);
    }
  }

  lemma SnocInBounds(shape: Shape, q: Index, r: nat)
    requires shape != [] && InBounds(Init(shape), q) && r < Last(shape)
    ensures InBounds(shape, q + [r]) && Ravel(shape, q + [r]) == Ravel(Init(shape), q) * Last(shape) + r
  {
    assert Init(q + [r]) == q;
  }

  lemma Scaled(q: nat, p: nat, d: nat, r: nat)
    requires q < p && r < d
    ensures q * d + r < p * d
  {
    assert (q + 1) * d <= p * d;
  }

  lemma Divided(n: nat, p: nat, d: nat)
    requires n < p * d
    ensures d > 0 && n / d < p && n % d < d && (n / d) * d + n % d == n
  {
    MulMono(p, n / d, d);
  }

  lemma MulMono(a: nat, b: nat, d: nat)
    ensures a <= b ==> a * d <= b * d
  {
  }

  lemma DivisionUnique(q: nat, r: nat, d: nat)
    requires r < d
    ensures (q * d + r) / d == q && (q * d + r) % d == r
  {
    var n := q * d + r;
    assert (n / d) * d + n % d == n;
    MulMono(q + 1, n / d, d);
    MulMono(n / d + 1, q, d);
  }

  lemma {:induction false} UnravelRavel(shape: Shape, idx: Index)
    requires InBounds(shape, idx)
    ensures Unravel(shape, Ravel(shape, idx)) == idx
    decreases |shape|
  {
    if shape != [] {
      var q := Ravel(Init(shape), Init(idx));
      DivisionUnique(q, Last(idx), Last(shape));
      UnravelRavel(Init(shape), Init(idx));
      assert idx == Init(idx) + [Last(idx)];
    }
  }

  function Ones(n: nat): Shape {
    Repeat<nat>(1, n)
  }

  function Zeros(n: nat): Index {
    Repeat<nat>(0, n)
  }

  lemma RavelSnoc(shape: Shape, d: nat, idx: Index, j: nat)
    requires InBounds(shape, idx) && j < d
    ensures InBounds(shape + [d], idx + [j])
    ensures Ravel(shape + [d], idx + [j]) == Ravel(shape, idx) * d + j
  {
    assert Init(shape + [d]) == shape && Init(idx + [j]) == idx;
  }

  lemma {:induction false} RavelOnes(n: nat)
    ensures Prod(Ones(n)) == 1
    ensures InBounds(Ones(n), Zeros(n)) && Ravel(Ones(n), Zeros(n)) == 0
  {
    if n > 0 {
      RavelOnes(n - 1);
      assert Ones(n) == Ones(n - 1) + [1] && Zeros(n) == Zeros(n - 1) + [0];
      ProdSnoc(Ones(n - 1), 1);
      RavelSnoc(Ones(n - 1), 1, Zeros(n - 1), 0);
    }
  }

  lemma ProdSnoc(shape: Shape, d: nat)
    ensures Prod(shape + [d]) == Prod(shape) * d
  {
    assert Init(shape + [d]) == shape;
  }

  lemma {:induction false} ProdOne(shape: Shape)
    requires Prod(shape) == 1
    ensures shape == Ones(|shape|)
    decreases |shape|
  {
    if shape != [] {
      var p, d := Prod(Init(shape)), Last(shape);
      assert p == 1 && d == 1 by { FactorsOfOne(p, d); }
      ProdOne(Init(shape));
      assert shape == Init(shape) + [Last(shape)];
    }
  }

  lemma FactorsOfOne(p: nat, d: nat)
    requires p * d == 1
    ensures p == 1 && d == 1
  {
    MulMono(2, p, d);
  }

  // ---- tensors ----

  datatype Tensor = Tensor(shape: Shape, data: seq<real>) {
    predicate Valid() {
      |data| == Prod(shape)
    }
  }

  function Get(data: seq<real>, i: nat): real {
    if i < |data| then data[i] else 0.0
  }

  /** The element at a multi-index; zero outside the shape, so that it is total. */
  function At(t: Tensor, idx: Index): real {
    if InBounds(t.shape, idx) then Get(t.data, Ravel(t.shape, idx)) else 0.0
  }

  /** Two tensors of one shape with the same element everywhere are the same tensor. */
  lemma Extensional(t: Tensor, u: Tensor)
    requires t.Valid() && u.Valid() && t.shape == u.shape
    requires forall idx :: InBounds(t.shape, idx) ==> At(t, idx) == At(u, idx)
    ensures t == u
  {
    forall i | 0 <= i < |t.data|
      ensures t.data[i] == u.data[i]
    {
      var idx := Unravel(t.shape, i);
      RavelUnravel(t.shape, i);
      hide Ravel, Unravel;
      assert At(t, idx) == t.data[i];
      assert At(u, idx) == u.data[i];
    }
  }

  // ---- torch operations, defined by the index they read ----

  datatype Error = IndexError | ValueError | AssertionError | NotImplemented | ZeroDivision

  type TensorResult = Result<Tensor, Error>

  /** Same elements in the same order under another shape. */
  function Reshape(t: Tensor, shape: Shape): (r: TensorResult) {
    if Prod(shape) == Prod(t.shape) then Ok(Tensor(shape, t.data)) else Err(ValueError)
  }

  /** A reordering of axes and its inverse: axis i of the result is axis fwd[i] of the operand. */
  datatype Perm = Perm(fwd: seq<nat>, inv: seq<nat>)

  predicate IsPerm(p: Perm, n: nat) {
    && |p.fwd| == n && |p.inv| == n
    && (forall i :: 0 <= i < n ==> p.fwd[i] < n)
    && (forall d :: 0 <= d < n ==> p.inv[d] < n)
    && (forall i {:trigger p.inv[p.fwd[i]]} :: 0 <= i < n ==> p.inv[p.fwd[i]] == i)
    && (forall d {:trigger p.fwd[p.inv[d]]} :: 0 <= d < n ==> p.fwd[p.inv[d]] == d)
  }

  /** The index of the operand that a permuted index stands for: entry fwd[i] is idx[i]. */
  function Scatter(p: Perm, idx: Index): (r: Index) {
    if IsPerm(p, |idx|) then seq(|idx|, d requires 0 <= d < |idx| => idx[p.inv[d]]) else []
  }

  function PermutedShape(shape: Shape, p: Perm): (r: Shape)
    requires IsPerm(p, |shape|)
    ensures |r| == |shape| && forall i {:trigger r[i]} :: 0 <= i < |shape| ==> r[i] == shape[p.fwd[i]]
  {
    seq(|shape|, i requires 0 <= i < |shape| => shape[p.fwd[i]])
  }

  function Permute(t: Tensor, p: Perm): (r: Tensor)
    requires IsPerm(p, |t.shape|)
    ensures r.Valid() && r.shape == PermutedShape(t.shape, p)
  {
    var shape := PermutedShape(t.shape, p);
    Tensor(shape, seq(Prod(shape), i requires 0 <= i < Prod(shape) => At(t, Scatter(p, Unravel(shape, i)))))
  }

  lemma ScatterAt(shape: Shape, p: Perm, idx: Index)
    requires IsPerm(p, |shape|) && InBounds(PermutedShape(shape, p), idx)
    ensures InBounds(shape, Scatter(p, idx))
  {
    forall d | 0 <= d < |shape|
      ensures Scatter(p, idx)[d] < shape[d]
    {
      assert p.fwd[p.inv[d]] == d;
      assert idx[p.inv[d]] < PermutedShape(shape, p)[p.inv[d]];
    }
  }

  /** One entry of a resolved index: a single position, or `count` positions from `start` by `step`. */
  datatype Pick = One(pos: nat) | Range(start: nat, step: nat, count: nat)

  function Full(n: nat): Pick {
    Range(0, 1, n)
  }

  predicate PickFits(p: Pick, n: nat) {
    match p
    case One(i) => i < n
    case Range(s, st, c) => st > 0 && (c > 0 ==> s + st * (c - 1) < n)
  }

  predicate PicksFit(picks: seq<Pick>, shape: Shape) {
    |picks| == |shape| && forall i :: 0 <= i < |picks| ==> PickFits(picks[i], shape[i])
  }

  function PickedShape(picks: seq<Pick>): Shape
    decreases |picks|
  {
    if picks == [] then []
    else PickedShape(Init(picks)) + (if Last(picks).One? then [] else [Last(picks).count])
  }

  /** The position that entry j of a range stands for. */
  function Nth(p: Pick, j: nat): nat
    requires p.Range?
  {
    p.start + p.step * j
  }

  /** The operand's index that an index of the picked tensor stands for. */
  function Source(picks: seq<Pick>, idx: Index): Index
    decreases |picks|
  {
    if picks == [] then []
    else match Last(picks)
      case One(i) => Source(Init(picks), idx) + [i]
      case Range(_, _, _) => if idx == [] then [] else Source(Init(picks), Init(idx)) + [Nth(Last(picks), Last(idx))]
  }

  function Take(t: Tensor, picks: seq<Pick>): (r: Tensor)
    ensures r.Valid() && r.shape == PickedShape(picks)
  {
    var shape := PickedShape(picks);
    Tensor(shape, seq(Prod(shape), i requires 0 <= i < Prod(shape) => At(t, Source(picks, Unravel(shape, i)))))
  }

  lemma {:induction false} SourceInBounds(picks: seq<Pick>, shape: Shape, idx: Index)
    requires PicksFit(picks, shape) && InBounds(PickedShape(picks), idx)
    ensures InBounds(shape, Source(picks, idx))
    decreases |picks|
  {
    if picks != [] {
      match Last(picks)
      case One(i) =>
        assert PickedShape(picks) == PickedShape(Init(picks));
        SourceInBounds(Init(picks), Init(shape), idx);
      case Range(s, st, c) =>
        assert Init(PickedShape(picks)) == PickedShape(Init(picks));
        SourceInBounds(Init(picks), Init(shape), Init(idx));
        InRange(Last(picks), Last(idx), Last(shape));
    }
  }

  lemma InRange(p: Pick, j: nat, n: nat)
    requires p.Range? && PickFits(p, n) && j < p.count
    ensures Nth(p, j) < n
  {
    MulMono(j, p.count - 1, p.step);
  }

  lemma AtTake(t: Tensor, picks: seq<Pick>, idx: Index)
    requires InBounds(PickedShape(picks), idx)
    ensures At(Take(t, picks), idx) == At(t, Source(picks, idx))
  {
    UnravelRavel(PickedShape(picks), idx);
  }

  /** The total length of the operands along one axis. */
  function Lengths(ts: seq<Tensor>, dim: nat): nat
    requires forall t :: t in ts ==> dim < |t.shape|
  {
    if ts == [] then 0 else ts[0].shape[dim] + Lengths(ts[1..], dim)
  }

  predicate Joinable(ts: seq<Tensor>, dim: nat) {
    && ts != []
    && (forall t :: t in ts ==> dim < |t.shape|)
    && (forall t :: t in ts ==> t.shape[..dim] == ts[0].shape[..dim] && t.shape[dim + 1..] == ts[0].shape[dim + 1..])
  }

  function CatAt(ts: seq<Tensor>, dim: nat, idx: Index): real
    requires forall t :: t in ts ==> dim < |t.shape|
  {
    if ts == [] || dim >= |idx| then 0.0
    else if idx[dim] < ts[0].shape[dim] then At(ts[0], idx)
    else CatAt(ts[1..], dim, idx[dim := idx[dim] - ts[0].shape[dim]])
  }

  function Cat(ts: seq<Tensor>, dim: nat): (r: Tensor)
    requires Joinable(ts, dim)
    ensures r.Valid()
    ensures r.shape == ts[0].shape[dim := Lengths(ts, dim)]
  {
    var shape := ts[0].shape[dim := Lengths(ts, dim)];
    Tensor(shape, seq(Prod(shape), i requires 0 <= i < Prod(shape) => CatAt(ts, dim, Unravel(shape, i))))
  }

  lemma AtCat(ts: seq<Tensor>, dim: nat, idx: Index)
    requires Joinable(ts, dim) && InBounds(Cat(ts, dim).shape, idx)
    ensures At(Cat(ts, dim), idx) == CatAt(ts, dim, idx)
  {
    UnravelRavel(ts[0].shape[dim := Lengths(ts, dim)], idx);
  }

  predicate Stackable(ts: seq<Tensor>) {
    ts != [] && forall t :: t in ts ==> t.shape == ts[0].shape
  }

  function StackAt(ts: seq<Tensor>, dim: nat, idx: Index): real {
    if dim >= |idx| || idx[dim] >= |ts| then 0.0 else At(ts[idx[dim]], idx[..dim] + idx[dim + 1..])
  }

  /** Joins equal-shaped tensors along a new axis. */
  function Stack(ts: seq<Tensor>, dim: nat): (r: Tensor)
    requires Stackable(ts) && dim <= |ts[0].shape|
    ensures r.Valid() && r.shape == ts[0].shape[..dim] + [|ts|] + ts[0].shape[dim..]
  {
    var shape := ts[0].shape[..dim] + [|ts|] + ts[0].shape[dim..];
    Tensor(shape, seq(Prod(shape), i requires 0 <= i < Prod(shape) => StackAt(ts, dim, Unravel(shape, i))))
  }

  lemma StackShape(ts: seq<Tensor>)
    requires Stackable(ts)
    ensures Stack(ts, 0).shape == [|ts|] + ts[0].shape
  {
    assert ts[0].shape[..0] + [|ts|] + ts[0].shape[0..] == [|ts|] + ts[0].shape;
  }

  lemma AtStack(ts: seq<Tensor>, idx: Index)
    requires Stackable(ts) && InBounds([|ts|] + ts[0].shape, idx)
    ensures At(Stack(ts, 0), idx) == At(ts[idx[0]], idx[1..])
  {
    StackShape(ts);
    UnravelRavel([|ts|] + ts[0].shape, idx);
    assert idx[..0] + idx[1..] == idx[1..];
  }

  // ---- broadcasting ----

  /** Shapes are aligned at their last axis; a missing axis or one of size 1 stretches. */
  predicate Broadcastable(s: Shape, u: Shape)
    decreases |s|
  {
    s == [] || u == []
    || ((Last(s) == Last(u) || Last(s) == 1 || Last(u) == 1) && Broadcastable(Init(s), Init(u)))
  }

  function Broadcast(s: Shape, u: Shape): Shape
    requires Broadcastable(s, u)
    decreases |s|
  {
    if s == [] then u
    else if u == [] then s
    else Broadcast(Init(s), Init(u)) + [if Last(s) == 1 then Last(u) else Last(s)]
  }

  /** The operand's index that a broadcast index stands for. */
  function Clamp(shape: Shape, idx: Index): Index
    decreases |shape|
  {
    if shape == [] || idx == [] then []
    else Clamp(Init(shape), Init(idx)) + [if Last(shape) == 1 then 0 else Last(idx)]
  }

  function MulAt(t: Tensor, u: Tensor, idx: Index): real {
    At(t, Clamp(t.shape, idx)) * At(u, Clamp(u.shape, idx))
  }

  /** Elementwise product under broadcasting. */
  function Mul(t: Tensor, u: Tensor): (r: TensorResult)
    ensures r.Ok? ==> r.value.Valid()
  {
    if Broadcastable(t.shape, u.shape) then
      var shape := Broadcast(t.shape, u.shape);
      Ok(Tensor(shape, seq(Prod(shape), i requires 0 <= i < Prod(shape) => MulAt(t, u, Unravel(shape, i)))))
    else Err(ValueError)
  }

  lemma AtMul(t: Tensor, u: Tensor, idx: Index)
    requires Broadcastable(t.shape, u.shape) && InBounds(Broadcast(t.shape, u.shape), idx)
    ensures At(Mul(t, u).value, idx) == MulAt(t, u, idx)
  {
    UnravelRavel(Broadcast(t.shape, u.shape), idx);
  }

  // ---- inner products ----

  /** The sum of f(k) * g(k) over k < n. */
  function Dot(n: nat, f: nat -> real, g: nat -> real): real {
    if n == 0 then 0.0 else Dot(n - 1, f, g) + f(n - 1) * g(n - 1)
  }

  lemma {:induction false} DotCong(n: nat, f: nat -> real, g: nat -> real, f': nat -> real, g': nat -> real)
    requires forall k: nat :: k < n ==> f(k) == f'(k) && g(k) == g'(k)
    ensures Dot(n, f, g) == Dot(n, f', g')
  {
    if n > 0 {
      DotCong(n - 1, f, g, f', g');
    }
  }

  lemma {:induction false} DotSwap(n: nat, f: nat -> real, g: nat -> real)
    ensures Dot(n, f, g) == Dot(n, g, f)
  {
    if n > 0 {
      DotSwap(n - 1, f, g);
    }
  }

  lemma {:induction false} DotScale(n: nat, f: nat -> real, g: nat -> real, f': nat -> real, c: real)
    requires forall k: nat :: k < n ==> f'(k) == f(k) * c
    ensures Dot(n, f', g) == Dot(n, f, g) * c
  {
    if n > 0 {
      DotScale(n - 1, f, g, f', c);
    }
  }
}
