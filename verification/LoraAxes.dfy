/** Exactly when stacking and concatenating mean on the factors what the same call means on B·A. */
module LoraAxes {
  import opened Common
  import opened Tensors
  import opened LoraTensor
  import opened LoraProofs
  import opened LoraApart
  import opened LoraCat

  lemma SameDense(ls: seq<Lora>, ms: seq<Lora>)
    requires AllSameShapes(ls, ms)
    ensures forall c :: 0 <= c < |ls| ==> DenseAll(ms)[c].shape == ls[c].Shape() == ms[c].Shape()
  {
    hide Dense, Prod;
  }

  predicate Positive(shape: Shape) {
    forall i :: 0 <= i < |shape| ==> shape[i] > 0
  }

  // ---- stack ----

  /** The stacked factors have a product, and it is the dense tensors stacked by the same call. */
  ghost predicate StackRight(ls: seq<Lora>, dim: DimArg)
    requires AllCoherent(ls)
  {
    var r := StackLora(ls, dim);
    r.Ok? && r.value.Coherent() && DenseStack(DenseAll(ls), dim) == Ok(Dense(r.value))
  }

  predicate AllBefore(shape: Shape, d: nat, m: nat) {
    d <= |shape| && forall i :: 0 <= i < d ==> shape[i] == m
  }

  /**
   The call names the first axis, or all axes before the named one are as long as the list of operands and
   there is one operand or nothing to tell apart.
   */
  predicate StackGuard(ls: seq<Lora>, dim: DimArg)
    requires ls != [] && ls[0].WellFormed()
  {
    var s := ls[0].Shape();
    var d := AxisOf(dim, |s| + 1);
    && d.Ok?
    && (d.value == 0 ||
        (AllBefore(s, d.value, |ls|) && (|ls| == 1 || ls[0].Rank() == 0 || !Positive(s))))
  }

  lemma AtStackAny(ts: seq<Tensor>, d: nat, idx: Index)
    requires Stackable(ts) && d <= |ts[0].shape| && InBounds(Stack(ts, d).shape, idx)
    ensures d < |idx| && idx[d] < |ts| && At(Stack(ts, d), idx) == At(ts[idx[d]], idx[..d] + idx[d + 1..])
  {
    UnravelRavel(ts[0].shape[..d] + [|ts|] + ts[0].shape[d..], idx);
    assert (ts[0].shape[..d] + [|ts|] + ts[0].shape[d..])[d] == |ts|;
  }

  lemma SameStackShape(s: Shape, d: nat, m: nat)
    requires AllBefore(s, d, m)
    ensures s[..d] + [m] + s[d..] == [m] + s
  {
    var u, v := s[..d] + [m] + s[d..], [m] + s;
    forall i | 0 <= i < |u|
      ensures u[i] == v[i]
    {
      if 0 < i <= d {
        assert v[i] == s[i - 1] == m;
      }
    }
  }

  lemma StackOnes(t: Tensor, d: nat)
    requires AllBefore(t.shape, d, 1)
    ensures Stackable([t]) && Stack([t], d) == Stack([t], 0)
  {
    hide Stack, At;
    var u, v := Stack([t], d), Stack([t], 0);
    StackShape([t]);
    SameStackShape(t.shape, d, 1);
    assert u.shape == t.shape[..d] + [1] + t.shape[d..];
    forall idx: Index | InBounds(u.shape, idx)
      ensures At(u, idx) == At(v, idx)
    {
      AtStackAny([t], d, idx);
      AtStackAny([t], 0, idx);
      forall i | 0 <= i <= d
        ensures idx[i] == 0
      {
        assert u.shape[i] == 1;
      }
      assert idx[..d] + idx[d + 1..] == idx[..0] + idx[0 + 1..];
    }
    Extensional(u, v);
  }

  lemma Dropped(s: Shape, d: nat, m: nat, idx: Index)
    requires d <= |s| && InBounds(s[..d] + [m] + s[d..], idx)
    ensures InBounds(s, idx[..d] + idx[d + 1..])
  {
    var u, y := s[..d] + [m] + s[d..], idx[..d] + idx[d + 1..];
    forall i | 0 <= i < |s|
      ensures y[i] < s[i]
    {
      if i < d {
        assert u[i] == s[i] && y[i] == idx[i];
      } else {
        assert u[i + 1] == s[i] && y[i] == idx[i + 1];
      }
    }
  }

  lemma StackZeros(ts: seq<Tensor>, d: nat)
    requires Stackable(ts) && AllBefore(ts[0].shape, d, |ts|)
    requires forall c, y: Index :: 0 <= c < |ts| && InBounds(ts[0].shape, y) ==> At(ts[c], y) == 0.0
    ensures Stack(ts, d) == Stack(ts, 0)
  {
    hide Stack, At;
    var u, v, s := Stack(ts, d), Stack(ts, 0), ts[0].shape;
    StackShape(ts);
    SameStackShape(s, d, |ts|);
    forall idx: Index | InBounds(u.shape, idx)
      ensures At(u, idx) == At(v, idx)
    {
      AtStackAny(ts, d, idx);
      AtStack(ts, idx);
      Dropped(s, d, |ts|, idx);
      assert idx == [idx[0]] + idx[1..];
      assert s[..0] + [|ts|] + s[0..] == [|ts|] + s;
      Dropped(s, 0, |ts|, idx);
      assert idx[..0] + idx[0 + 1..] == idx[1..];
    }
    Extensional(u, v);
  }

  lemma AllInBounds(s: Shape, y: Index)
    requires InBounds(s, y)
    ensures Positive(s)
  {
    forall i | 0 <= i < |s|
      ensures s[i] > 0
    {
      assert y[i] < s[i];
    }
  }

  lemma {:induction false} StackedAlike(s: Shape, m: nat, d: nat, i: nat)
    requires i < d <= |s| && s[..d] + [m] + s[d..] == [m] + s
    ensures s[i] == m
    decreases i
  {
    assert (s[..d] + [m] + s[d..])[i] == s[i];
    if i > 0 {
      assert ([m] + s)[i] == s[i - 1];
      StackedAlike(s, m, d, i - 1);
    }
  }

  lemma StackEnough(ls: seq<Lora>, dim: DimArg)
    requires AllCoherent(ls) && StackLora(ls, dim).Ok? && ls != [] && StackGuard(ls, dim)
    ensures StackRight(ls, dim)
  {
    hide Stack, Dense, Prod, AllBefore, Positive, Stackable, At;
    StackCommutes(ls, dim);
    var d := AxisOf(dim, |ls[0].Shape()| + 1).value;
    if d > 0 {
      StackCommutes(ls, Keyword(0));
      SameDense(ls, ls);
      if |ls| == 1 {
        assert DenseAll(ls) == [Dense(ls[0])];
        StackOnes(Dense(ls[0]), d);
      } else {
        StackZero(ls);
        StackZeros(DenseAll(ls), d);
      }
    }
  }

  lemma StackZero(ls: seq<Lora>)
    requires AllCoherent(ls) && StackLora(ls, Keyword(0)).Ok? && ls != []
    requires ls[0].Rank() == 0 || !Positive(ls[0].Shape())
    ensures forall c, y: Index :: 0 <= c < |ls| && InBounds(ls[0].Shape(), y) ==> At(DenseAll(ls)[c], y) == 0.0
  {
    hide Dense, Prod, At, StackLora;
    forall c, y: Index | 0 <= c < |ls| && InBounds(ls[0].Shape(), y)
      ensures At(DenseAll(ls)[c], y) == 0.0
    {
      AllInBounds(ls[0].Shape(), y);
      OperandAlike(ls, c);
      ZeroAt(ls[c], y);
    }
  }

  lemma StackOfShapes(ls: seq<Lora>, ms: seq<Lora>, dim: DimArg)
    requires AllSameShapes(ls, ms) && StackLora(ls, dim).Ok?
    ensures StackLora(ms, dim).Ok? && ls != [] && (StackGuard(ls, dim) <==> StackGuard(ms, dim))
  {
    hide Stack, Prod, AllBefore, Stackable;
    StackableOfShapes(FactorsA(ls), FactorsA(ms));
    StackableOfShapes(FactorsB(ls), FactorsB(ms));
  }

  lemma StackableOfShapes(ts: seq<Tensor>, us: seq<Tensor>)
    requires Stackable(ts) && |ts| == |us| && forall i :: 0 <= i < |ts| ==> ts[i].shape == us[i].shape
    ensures Stackable(us) && Stack(us, 0).shape == Stack(ts, 0).shape
  {
    StackShape(ts);
    hide Stack;
    forall u | u in us
      ensures u.shape == us[0].shape
    {
      var i :| 0 <= i < |us| && us[i] == u;
      assert ts[i] in ts;
    }
    StackShape(us);
  }

  /** Stacked along a later axis, the second tensor shows where the first one should. */
  lemma StacksDiffer(ts: seq<Tensor>, d: nat, u: real, v: real)
    requires Stackable(ts) && |ts| > 1 && 0 < d <= |ts[0].shape| && Positive(ts[0].shape) && u != v
    requires forall i :: 0 <= i < d ==> ts[0].shape[i] == |ts|
    requires forall y: Index :: InBounds(ts[0].shape, y) ==> At(ts[0], y) == u && At(ts[1], y) == v
    ensures Stack(ts, d) != Stack(ts, 0)
  {
    hide Stack, At;
    var s := ts[0].shape;
    var idx := Zeros(|s| + 1)[d := 1];
    assert InBounds(s[..d] + [|ts|] + s[d..], idx);
    AtStackAny(ts, d, idx);
    assert idx[..d] + idx[d + 1..] == Zeros(|s|);
    assert InBounds([|ts|] + s, idx);
    AtStack(ts, idx);
    assert InBounds(s, idx[1..]);
    assert At(Stack(ts, d), idx) == v && At(Stack(ts, 0), idx) == u;
  }

  /** Factors stacked along a later axis show the second operand where the class shows the first. */
  lemma StackDiffers(ls: seq<Lora>, dim: DimArg)
    requires AllCoherent(ls) && |ls| > 1 && StackLora(ls, dim).Ok?
    requires ls[0].Rank() > 0 && Positive(ls[0].Shape())
    requires AllCoherent(Marked(ls)) && StackRight(Marked(ls), dim)
    requires AxisOf(dim, |ls[0].Shape()| + 1).Ok?
    requires forall i :: 0 <= i < AxisOf(dim, |ls[0].Shape()| + 1).value ==> ls[0].Shape()[i] == |ls|
    ensures AxisOf(dim, |ls[0].Shape()| + 1) == Ok(0)
  {
    hide Stack, Dense, Prod, At, Marked, Entry, Mark;
    var ms, d := Marked(ls), AxisOf(dim, |ls[0].Shape()| + 1).value;
    var ts := DenseAll(ms);
    StackBoth(ls, ms, dim);
    if d > 0 {
      forall y: Index | InBounds(ts[0].shape, y)
        ensures At(ts[0], y) == Mark(ls[0].Rank(), 0) && At(ts[1], y) == Mark(ls[0].Rank(), 1)
      {
        MarkedStack(ls, 0, y);
        MarkedStack(ls, 1, y);
      }
      MarksDiffer(ls[0].Rank(), 0, 1);
      StacksDiffer(ts, d, Mark(ls[0].Rank(), 0), Mark(ls[0].Rank(), 1));
    }
  }

  /** What the two calls give is one tensor. */
  lemma StackBoth(ls: seq<Lora>, ms: seq<Lora>, dim: DimArg)
    requires AllSameShapes(ls, ms) && AllCoherent(ms) && StackRight(ms, dim)
    ensures Stackable(DenseAll(ms)) && ms != [] && DenseAll(ms)[0].shape == ls[0].Shape()
    ensures AxisOf(dim, |ls[0].Shape()| + 1).Ok?
    ensures Stack(DenseAll(ms), AxisOf(dim, |ls[0].Shape()| + 1).value) == Stack(DenseAll(ms), 0)
  {
    hide Stack, Dense, Prod, Entry, Stackable;
    StackCommutes(ms, dim);
    StackCommutes(ms, Keyword(0));
    SameDense(ls, ms);
    SameDense(ms, ms);
  }

  lemma OperandAlike(ls: seq<Lora>, c: nat)
    requires AllCoherent(ls) && StackLora(ls, Keyword(0)).Ok? && c < |ls|
    ensures ls[c].Coherent() && ls[c].Shape() == ls[0].Shape() && ls[c].Rank() == ls[0].Rank()
  {
    hide Stack, Prod;
    StackedShapes(ls);
  }

  lemma MarkedStack(ls: seq<Lora>, c: nat, idx: Index)
    requires AllCoherent(ls) && StackLora(ls, Keyword(0)).Ok? && c < |ls| && InBounds(ls[0].Shape(), idx)
    ensures At(DenseAll(Marked(ls))[c], idx) == Mark(ls[0].Rank(), c)
  {
    hide At, Marked, Dense, Prod, Mark, StackLora;
    OperandAlike(ls, c);
    MarkedAt(ls, c, idx);
  }

  lemma StackNeeded(ls: seq<Lora>, dim: DimArg)
    requires AllCoherent(ls) && StackLora(ls, dim).Ok? && ls != []
    requires forall ms :: AllSameShapes(ls, ms) && AllCoherent(ms) ==> StackRight(ms, dim)
    ensures StackGuard(ls, dim)
  {
    hide Stack, Dense, Prod, StackRight, Marked, Positive;
    var s := ls[0].Shape();
    AllAlike(ls);
    StackedAxes(ls, dim);
    if |ls| > 1 && ls[0].Rank() > 0 && Positive(s) {
      MarkedCoherent(ls);
      StackDiffers(ls, dim);
    }
  }

  lemma AllAlike(ls: seq<Lora>)
    requires AllCoherent(ls)
    ensures AllSameShapes(ls, ls)
  {
    hide Prod;
  }

  lemma MarkedCoherent(ls: seq<Lora>)
    requires AllCoherent(ls)
    ensures AllCoherent(Marked(ls))
  {
    hide Marked, Prod;
    var ms := Marked(ls);
    forall c | 0 <= c < |ms|
      ensures ms[c].Coherent()
    {
      assert ls[c].Coherent() && SameShapes(ls[c], ms[c]);
    }
  }

  /** Where the two calls agree, the axes before the named one have as many entries as there are operands. */
  lemma StackedAxes(ls: seq<Lora>, dim: DimArg)
    requires AllCoherent(ls) && StackLora(ls, dim).Ok? && ls != [] && StackRight(ls, dim)
    ensures
      var d := AxisOf(dim, |ls[0].Shape()| + 1);
      d.Ok? && forall i :: 0 <= i < d.value ==> ls[0].Shape()[i] == |ls|
  {
    AllAlike(ls);
    StackBoth(ls, ls, dim);
    StackShape(DenseAll(ls));
    hide Stack, Dense, Prod, StackRight, StackLora, AllCoherent, Stackable;
    var s, d := ls[0].Shape(), AxisOf(dim, |ls[0].Shape()| + 1).value;
    assert s[..d] + [|ls|] + s[d..] == [|ls|] + s;
    forall i | 0 <= i < d
      ensures s[i] == |ls|
    {
      StackedAlike(s, |ls|, d, i);
    }
  }

  /**
   For all factors of the shapes, stacking means stacking the products by the same call if and only if the
   guard holds.
   */
  lemma StackExactly(ls: seq<Lora>, dim: DimArg)
    requires AllCoherent(ls) && StackLora(ls, dim).Ok?
    ensures ls != []
    ensures StackGuard(ls, dim) <==> forall ms :: AllSameShapes(ls, ms) && AllCoherent(ms) ==> StackRight(ms, dim)
  {
    hide Stack, Dense, Prod, StackRight, StackGuard, StackLora;
    AllAlike(ls);
    StackOfShapes(ls, ls, dim);
    if StackGuard(ls, dim) {
      forall ms | AllSameShapes(ls, ms) && AllCoherent(ms)
        ensures StackRight(ms, dim)
      {
        StackOfShapes(ls, ms, dim);
        StackEnough(ms, dim);
      }
    } else if forall ms :: AllSameShapes(ls, ms) && AllCoherent(ms) ==> StackRight(ms, dim) {
      StackNeeded(ls, dim);
    }
  }

  // ---- cat: the axis ----

  lemma {:induction false} LengthsMore(ts: seq<Tensor>, d: nat)
    requires |ts| > 1 && forall t :: t in ts ==> d < |t.shape|
    ensures Lengths(ts, d) >= ts[0].shape[d] + ts[1].shape[d]
  {
    assert ts[1..][0] == ts[1];
  }

  lemma {:induction false} TotalMore(sizes: seq<nat>)
    requires |sizes| > 1 && sizes[1] > 0
    ensures Total(sizes) > sizes[0]
  {
    assert sizes[1..][0] == sizes[1];
  }

  lemma MatrixShapes(ls: seq<Lora>)
    requires AllCoherent(ls) && ls != [] && Joinable(FactorsB(ls), 0) && |ls[0].A.shape| == 2
    requires forall c :: 0 <= c < |ls| ==> ls[c].A == ls[0].A
    ensures Lora(ls[0].A, Cat(FactorsB(ls), 0)).Shape() == [Total(SizesOf(ls))] + ls[0].Shape()[1..]
    ensures forall c :: 0 <= c < |ls| ==> ls[c].Shape() == [SizesOf(ls)[c]] + ls[0].Shape()[1..]
  {
    hide Cat, Prod, Total, Joinable;
    CatShapes(ls);
    var w := Last(ls[0].A.shape);
    forall c | 0 <= c < |ls|
      ensures ls[c].Shape() == [SizesOf(ls)[c], w]
    {
      assert ls[c].Coherent() && |ls[c].B.shape| == 2;
      assert ls[c].B.shape[1..] == ls[0].B.shape[1..];
    }
    assert ls[0].Shape()[1..] == [w];
  }

  lemma JoinedShape(ls: seq<Lora>)
    requires Batched(ls)
    ensures Joined(ls).Shape() == [Total(SizesOf(ls))] + ls[0].Shape()[1..]
    ensures forall c :: 0 <= c < |ls| ==> ls[c].Shape() == [SizesOf(ls)[c]] + ls[0].Shape()[1..]
  {
    hide Cat, Prod, Total, Joinable, Dense;
    JoinedShapes(ls);
    TailOfShape(ls[0]);
    forall c | 0 <= c < |ls|
      ensures ls[c].Shape() == [SizesOf(ls)[c]] + ls[0].Shape()[1..]
    {
      DenseTail(ls, c);
    }
  }

  /** The shape that the class's own call gives, for any number of axes. */
  lemma CatShape(ls: seq<Lora>, dim: DimArg)
    requires AllCoherent(ls) && CatLora(ls, dim).Ok?
    ensures ls != [] && CatLora(ls, dim).value.Shape() == [Total(SizesOf(ls))] + ls[0].Shape()[1..]
    ensures forall c :: 0 <= c < |ls| ==> ls[c].Shape() == [SizesOf(ls)[c]] + ls[0].Shape()[1..]
  {
    hide Cat, Prod, Total, SizesOf;
    if |ls[0].A.shape| == 2 {
      MatrixShapes(ls);
    } else {
      JoinedShape(ls);
    }
  }

  lemma OtherShape(s: Shape, d: nat, length: nat, n: nat)
    requires 0 < d < |s|
    ensures s[d := length] == [n] + s[1..] <==> length == s[d] && n == s[0]
  {
    assert s[d := length][0] == s[0] && s[d := length][d] == length;
    assert ([n] + s[1..])[0] == n && ([n] + s[1..])[d] == s[d];
  }

  /** No operand has anything along the first axis, nor along the named one. */
  predicate EmptyThere(sizes: seq<nat>, shape: Shape, d: nat) {
    d < |shape| && shape[d] == 0 && forall c :: 0 <= c < |sizes| ==> sizes[c] == 0
  }

  predicate SameTails(ts: seq<Tensor>, sizes: seq<nat>) {
    HeadSizes(ts, sizes) && forall c :: 0 <= c < |ts| ==> ts[c].shape[1..] == ts[0].shape[1..]
  }

  lemma HeadsJoined(ts: seq<Tensor>, sizes: seq<nat>, d: nat, c: nat)
    requires SameTails(ts, sizes) && Joinable(ts, d) && d > 0 && c < |ts|
    ensures sizes[c] == sizes[0]
  {
    assert ts[c] in ts && ts[0] in ts;
    assert ts[c].shape[..d][0] == ts[c].shape[0] && ts[0].shape[..d][0] == ts[0].shape[0];
  }

  /** Joined along another axis the tensors have the shape that they have joined along the first. */
  lemma OtherAxis(ts: seq<Tensor>, sizes: seq<nat>, d: nat)
    requires |ts| > 1 && SameTails(ts, sizes) && Joinable(ts, d) && d > 0
    requires Cat(ts, d).shape == [Total(sizes)] + ts[0].shape[1..]
    ensures EmptyThere(sizes, ts[0].shape, d)
  {
    hide Cat, Total;
    assert ts[0] in ts && ts[1] in ts;
    var s := ts[0].shape;
    LengthsMore(ts, d);
    assert ts[1].shape[1..][d - 1] == s[1..][d - 1];
    if sizes[1] > 0 {
      TotalMore(sizes);
    }
    OtherShape(s, d, Lengths(ts, d), Total(sizes));
    forall c | 0 <= c < |sizes|
      ensures sizes[c] == 0
    {
      HeadsJoined(ts, sizes, d, c);
      HeadsJoined(ts, sizes, d, 1);
    }
  }

  lemma DenseTails(ls: seq<Lora>, dim: DimArg)
    requires AllCoherent(ls) && CatLora(ls, dim).Ok?
    ensures ls != [] && SameTails(DenseAll(ls), SizesOf(ls)) && DenseAll(ls)[0].shape == ls[0].Shape()
    ensures Joinable(DenseAll(ls), 0)
  {
    hide CatLora, Dense, Prod, Total, SizesOf;
    CatShape(ls, dim);
    var ts := DenseAll(ls);
    forall c | 0 <= c < |ls|
      ensures |ts[c].shape| > 0 && ts[c].shape[0] == SizesOf(ls)[c] && ts[c].shape[1..] == ts[0].shape[1..]
    {
      assert ts[c].shape == ls[c].Shape() && ts[0].shape == ls[0].Shape();
    }
    TailsJoin(ts);
  }

  /** With two operands or more, the calls agree on the first axis, or where there is nothing to join. */
  lemma CatAxisNeeded(ls: seq<Lora>, dim: DimArg)
    requires AllCoherent(ls) && CatLora(ls, dim).Ok? && |ls| > 1 && CatRight(ls, dim)
    ensures
      var d := AxisOf(dim, |ls[0].Shape()|);
      d.Ok? && (d.value == 0 || EmptyThere(SizesOf(ls), ls[0].Shape(), d.value))
  {
    hide CatLora, Cat, Dense, Prod, Total, Joinable, SizesOf, SameTails, EmptyThere;
    CatShape(ls, dim);
    DenseTails(ls, dim);
    var d := AxisOf(dim, |ls[0].Shape()|).value;
    if d > 0 {
      OtherAxis(DenseAll(ls), SizesOf(ls), d);
    }
  }

  // ---- cat: one operand ----

  lemma CatOne(t: Tensor, d: nat)
    requires t.Valid() && d < |t.shape|
    ensures Joinable([t], d) && Cat([t], d) == t
  {
    hide At, Cat;
    assert [t][1..] == [];
    assert Lengths([t], d) == t.shape[d];
    assert t.shape[d := t.shape[d]] == t.shape;
    forall idx: Index | InBounds(t.shape, idx)
      ensures At(Cat([t], d), idx) == At(t, idx)
    {
      AtCat([t], d, idx);
    }
    Extensional(Cat([t], d), t);
  }

  lemma CatSingle(ls: seq<Lora>, dim: DimArg)
    requires AllCoherent(ls) && CatLora(ls, dim).Ok? && |ls| == 1
    ensures CatRight(ls, dim) <==> AxisOf(dim, |ls[0].Shape()|).Ok?
  {
    hide Cat, Dense, Prod, Joinable;
    assert FactorsA(ls) == [ls[0].A] && FactorsB(ls) == [ls[0].B] && DenseAll(ls) == [Dense(ls[0])];
    assert ls[0].Coherent();
    CatOne(ls[0].A, 0);
    CatOne(ls[0].B, 0);
    var d := AxisOf(dim, |ls[0].Shape()|);
    if d.Ok? {
      CatOne(Dense(ls[0]), d.value);
    }
  }

  // ---- cat: operands of which one only has entries ----

  lemma {:induction false} OnlyOne(sizes: seq<nat>) returns (k: nat)
    requires Total(sizes) == 1
    ensures k < |sizes| && forall c :: 0 <= c < |sizes| && c != k ==> sizes[c] == 0
  {
    if sizes[0] == 1 {
      NoneLeft(sizes[1..]);
      k := 0;
      forall c | 0 < c < |sizes|
        ensures sizes[c] == 0
      {
        assert sizes[1..][c - 1] == sizes[c];
      }
    } else {
      var j := OnlyOne(sizes[1..]);
      k := j + 1;
      forall c | 0 < c < |sizes| && c != k
        ensures sizes[c] == 0
      {
        assert sizes[1..][c - 1] == sizes[c];
      }
    }
  }

  lemma {:induction false} NoneLeft(sizes: seq<nat>)
    requires Total(sizes) == 0
    ensures forall c :: 0 <= c < |sizes| ==> sizes[c] == 0
  {
    if sizes != [] {
      NoneLeft(sizes[1..]);
      assert sizes == [sizes[0]] + sizes[1..];
    }
  }

  lemma {:induction false} Nothing(sizes: seq<nat>)
    requires forall c :: 0 <= c < |sizes| ==> sizes[c] == 0
    ensures Total(sizes) == 0
  {
    if sizes != [] {
      Nothing(sizes[1..]);
    }
  }

  lemma {:induction false} TotalOnly(sizes: seq<nat>, k: nat)
    requires k < |sizes| && forall c :: 0 <= c < |sizes| && c != k ==> sizes[c] == 0
    ensures Total(sizes) == sizes[k]
  {
    if k == 0 {
      Nothing(sizes[1..]);
    } else {
      TotalOnly(sizes[1..], k - 1);
    }
  }

  lemma {:induction false} LocateOnly(sizes: seq<nat>, k: nat, i: nat)
    requires k < |sizes| && forall c :: 0 <= c < |sizes| && c != k ==> sizes[c] == 0
    requires i < Total(sizes)
    ensures Locate(sizes, i) == (k, i)
  {
    TotalOnly(sizes, k);
    if k > 0 {
      LocateOnly(sizes[1..], k - 1, i);
    }
  }

  lemma CatOnly(ts: seq<Tensor>, sizes: seq<nat>, k: nat)
    requires Joinable(ts, 0) && HeadSizes(ts, sizes) && k < |ts| && ts[k].Valid()
    requires forall c :: 0 <= c < |sizes| && c != k ==> sizes[c] == 0
    ensures Cat(ts, 0) == ts[k]
  {
    hide At, Cat, Locate, Total;
    TotalOnly(sizes, k);
    LengthsTotal(ts, sizes);
    var t := ts[k];
    assert t in ts && t.shape[1..] == ts[0].shape[1..];
    assert t.shape == [sizes[k]] + t.shape[1..];
    assert ts[0].shape[0 := Total(sizes)] == [Total(sizes)] + ts[0].shape[1..];
    forall idx: Index | InBounds(t.shape, idx)
      ensures At(Cat(ts, 0), idx) == At(t, idx)
    {
      AtCatHead(ts, sizes, idx);
      LocateOnly(sizes, k, idx[0]);
      assert idx[0 := idx[0]] == idx;
    }
    Extensional(Cat(ts, 0), t);
  }

  /** If the A's have one entry in all, the joined factors are the one operand that is not empty. */
  lemma CatUnstretched(ls: seq<Lora>, dim: DimArg)
    requires AllCoherent(ls) && CatLora(ls, dim).Ok? && |ls[0].A.shape| > 2 && Total(HeadsA(ls)) == 1
    requires AxisOf(dim, |ls[0].Shape()|) == Ok(0)
    ensures CatRight(ls, dim)
  {
    hide Cat, Dense, Prod, Total, Joinable;
    var k := OnlyOne(HeadsA(ls));
    JoinedHeads(ls);
    DenseTails(ls, dim);
    forall c | 0 <= c < |ls| && c != k
      ensures SizesOf(ls)[c] == 0
    {
      HeadFits(ls, c);
      assert HeadsA(ls)[c] == 0;
    }
    CatOnly(FactorsA(ls), HeadsA(ls), k);
    CatOnly(FactorsB(ls), SizesOf(ls), k);
    CatOnly(DenseAll(ls), SizesOf(ls), k);
    assert Joined(ls) == ls[k] && ls[k].Coherent();
  }

  // ---- cat: products without elements, or without a rank ----

  /** The product has no element, or every element is an empty sum. */
  predicate Trivial(l: Lora)
    requires l.WellFormed()
  {
    l.Rank() == 0 || !Positive(l.Shape()[1..])
  }

  lemma InTail(n: nat, tail: Shape, idx: Index)
    requires InBounds([n] + tail, idx)
    ensures Positive(tail)
  {
    forall i | 0 <= i < |tail|
      ensures tail[i] > 0
    {
      assert idx[i + 1] < ([n] + tail)[i + 1] == tail[i];
    }
  }

  lemma InHead(n: nat, m: nat, tail: Shape, idx: Index, off: nat)
    requires InBounds([n] + tail, idx) && off < m
    ensures idx != [] && idx[0] < n && InBounds([m] + tail, idx[0 := off])
  {
    assert ([n] + tail)[0] == n;
  }

  lemma RanksAlike(ls: seq<Lora>, c: nat)
    requires Batched(ls) && c < |ls|
    ensures ls[0].WellFormed() && ls[c].WellFormed() && ls[c].Rank() == ls[0].Rank()
  {
    hide Prod;
    TailShapes(ls, c);
  }

  lemma CatTrivial(ls: seq<Lora>, dim: DimArg)
    requires AllCoherent(ls) && CatLora(ls, dim).Ok? && |ls[0].A.shape| > 2 && CatLora(ls, dim).value.Coherent()
    requires Trivial(ls[0]) && AxisOf(dim, |ls[0].Shape()|) == Ok(0)
    ensures CatRight(ls, dim)
  {
    hide Cat, Dense, Prod, Total, Joinable, At;
    var r, ts := Joined(ls), DenseAll(ls);
    CatShape(ls, dim);
    DenseTails(ls, dim);
    JoinedShapes(ls);
    LengthsTotal(ts, SizesOf(ls));
    assert ts[0].shape[0 := Total(SizesOf(ls))] == [Total(SizesOf(ls))] + ts[0].shape[1..];
    forall idx: Index | InBounds(r.Shape(), idx)
      ensures At(Cat(ts, 0), idx) == At(Dense(r), idx)
    {
      InTail(Total(SizesOf(ls)), ls[0].Shape()[1..], idx);
      ZeroAt(r, idx);
      CatZero(ls, idx);
    }
    Extensional(Cat(ts, 0), Dense(r));
  }

  lemma CatZero(ls: seq<Lora>, idx: Index)
    requires Batched(ls) && ls[0].WellFormed() && ls[0].Rank() == 0 && SameTails(DenseAll(ls), SizesOf(ls))
    requires Joinable(DenseAll(ls), 0) && InBounds([Total(SizesOf(ls))] + DenseAll(ls)[0].shape[1..], idx)
    ensures At(Cat(DenseAll(ls), 0), idx) == 0.0
  {
    hide Cat, Dense, Prod, Total, Joinable, At, Locate;
    var ts, sizes := DenseAll(ls), SizesOf(ls);
    AtCatHead(ts, sizes, idx);
    InHead(Total(sizes), Total(sizes), ts[0].shape[1..], idx, idx[0]);
    var (c, off) := Locate(sizes, idx[0]);
    DenseTail(ls, c);
    InHead(Total(sizes), sizes[c], ts[0].shape[1..], idx, off);
    RanksAlike(ls, c);
    ZeroAt(ls[c], idx[0 := off]);
  }

  lemma {:induction false} LengthsNone(ts: seq<Tensor>, d: nat)
    requires forall t :: t in ts ==> d < |t.shape| && t.shape[d] == 0
    ensures Lengths(ts, d) == 0
  {
    if ts != [] {
      LengthsNone(ts[1..], d);
    }
  }

  lemma EmptyJoin(ts: seq<Tensor>, sizes: seq<nat>, d: nat)
    requires ts != [] && SameTails(ts, sizes) && d > 0 && EmptyThere(sizes, ts[0].shape, d)
    ensures Joinable(ts, d) && Cat(ts, d).shape == ts[0].shape == [Total(sizes)] + ts[0].shape[1..]
  {
    hide Cat, Total;
    Nothing(sizes);
    forall t | t in ts
      ensures t.shape == ts[0].shape
    {
      var c :| 0 <= c < |ts| && ts[c] == t;
      assert t.shape == [0] + t.shape[1..] && ts[0].shape == [0] + ts[0].shape[1..];
    }
    LengthsNone(ts, d);
    assert ts[0].shape[d := 0] == ts[0].shape;
  }

  lemma NoElements(t: Tensor, u: Tensor, d: nat)
    requires t.Valid() && u.Valid() && t.shape == u.shape && d < |t.shape| && t.shape[d] == 0
    ensures t == u
  {
    hide At;
    forall idx: Index
      ensures !InBounds(t.shape, idx)
    {
      if |idx| == |t.shape| {
        assert idx[d] >= t.shape[d];
      }
    }
    Extensional(t, u);
  }

  lemma CatEmpty(ls: seq<Lora>, dim: DimArg)
    requires AllCoherent(ls) && CatLora(ls, dim).Ok? && CatLora(ls, dim).value.Coherent()
    requires
      var d := AxisOf(dim, |ls[0].Shape()|);
      d.Ok? && d.value > 0 && EmptyThere(SizesOf(ls), ls[0].Shape(), d.value)
    ensures CatRight(ls, dim)
  {
    hide Cat, CatLora, Dense, Prod, Total, Joinable, SizesOf, SameTails, EmptyThere;
    CatShape(ls, dim);
    DenseTails(ls, dim);
    var r, ts, d := CatLora(ls, dim).value, DenseAll(ls), AxisOf(dim, |ls[0].Shape()|).value;
    EmptyJoin(ts, SizesOf(ls), d);
    assert ts[0].shape[d] == 0 by {
      assert EmptyThere(SizesOf(ls), ts[0].shape, d);
      EmptyAxis(SizesOf(ls), ts[0].shape, d);
    }
    NoElements(Cat(ts, d), Dense(r), d);
  }

  lemma EmptyAxis(sizes: seq<nat>, shape: Shape, d: nat)
    requires EmptyThere(sizes, shape, d)
    ensures d < |shape| && shape[d] == 0
  {
  }

  // ---- cat: where the joined factors take another operand's A ----

  /** Two ways to cut one total place some entry differently. */
  lemma {:induction false} HeadsDiffer(a: seq<nat>, b: seq<nat>) returns (p: nat)
    requires |a| == |b| && Total(a) == Total(b) && a != b
    ensures p < Total(a) && Locate(a, p).0 != Locate(b, p).0
  {
    if a[0] == b[0] {
      assert a == [a[0]] + a[1..] && b == [b[0]] + b[1..];
      var q := HeadsDiffer(a[1..], b[1..]);
      p := a[0] + q;
    } else {
      p := if a[0] < b[0] then a[0] else b[0];
    }
  }

  lemma ClampedHead(l: Lora, lead: Index)
    requires l.WellFormed() && |lead| == |l.ALead()| && lead != [] && l.ALead()[0] != 1
    ensures |Clamp(l.ALead(), lead)| == |lead| && Clamp(l.ALead(), lead)[0] == lead[0]
  {
    ClampAt(l.ALead(), lead);
  }

  lemma HeadsOfShapes(ls: seq<Lora>, ms: seq<Lora>)
    requires AllSameShapes(ls, ms)
    ensures HeadsA(ms) == HeadsA(ls) && SizesOf(ms) == SizesOf(ls)
  {
    hide Prod;
    forall c | 0 <= c < |ls|
      ensures HeadsA(ms)[c] == HeadsA(ls)[c] && SizesOf(ms)[c] == SizesOf(ls)[c]
    {
      assert SameShapes(ls[c], ms[c]);
    }
  }

  lemma BatchedOfShapes(ls: seq<Lora>, ms: seq<Lora>)
    requires Batched(ls) && AllSameShapes(ls, ms) && AllCoherent(ms)
    ensures Batched(ms) && HeadsA(ms) == HeadsA(ls) && SizesOf(ms) == SizesOf(ls)
  {
    hide Prod, Joinable;
    HeadsOfShapes(ls, ms);
    forall c | 0 <= c < |ls|
      ensures FactorsA(ls)[c].shape == FactorsA(ms)[c].shape && FactorsB(ls)[c].shape == FactorsB(ms)[c].shape
    {
      assert SameShapes(ls[c], ms[c]);
    }
    hide AllSameShapes, AllCoherent, HeadsA, SizesOf;
    JoinableOfShapes(FactorsA(ls), FactorsA(ms));
    JoinableOfShapes(FactorsB(ls), FactorsB(ms));
  }

  lemma JoinableOfShapes(ts: seq<Tensor>, us: seq<Tensor>)
    requires Joinable(ts, 0) && |ts| == |us| && forall i :: 0 <= i < |ts| ==> ts[i].shape == us[i].shape
    ensures Joinable(us, 0)
  {
    forall u | u in us
      ensures 0 < |u.shape| && u.shape[..0] == us[0].shape[..0] && u.shape[1..] == us[0].shape[1..]
    {
      var i :| 0 <= i < |us| && us[i] == u;
      assert ts[i] in ts;
    }
  }

  /** Entries of the joined factors: B is 1 everywhere, A tells which operand it comes from. */
  lemma JoinedEntries(ls: seq<Lora>, a: Index, b: Index)
    requires Batched(ls) && Batched(Marked(ls))
    requires InBounds(Joined(Marked(ls)).A.shape, a) && InBounds(Joined(Marked(ls)).B.shape, b)
    ensures a != [] && a[0] < Total(HeadsA(ls))
    ensures At(Joined(Marked(ls)).A, a) == Locate(HeadsA(ls), a[0]).0 as real
    ensures At(Joined(Marked(ls)).B, b) == 1.0
  {
    hide At, Cat, Total, Locate, Marked, Joinable, Prod;
    var ms := Marked(ls);
    BatchedOfShapes(ls, ms);
    JoinedHeads(ms);
    assert ms[0].A.shape == ls[0].A.shape && ms[0].B.shape == ls[0].B.shape;
    InHead(Total(HeadsA(ls)), Total(HeadsA(ls)), ls[0].A.shape[1..], a, a[0]);
    InHead(Total(SizesOf(ls)), Total(SizesOf(ls)), ls[0].B.shape[1..], b, b[0]);
    AtCatHead(FactorsA(ms), HeadsA(ls), a);
    AtCatHead(FactorsB(ms), SizesOf(ls), b);
    var (c, off) := Locate(HeadsA(ls), a[0]);
    var (e, offset) := Locate(SizesOf(ls), b[0]);
    TailShapes(ls, c);
    TailShapes(ls, e);
    InHead(Total(HeadsA(ls)), HeadsA(ls)[c], ls[0].A.shape[1..], a, off);
    InHead(Total(SizesOf(ls)), SizesOf(ls)[e], ls[0].B.shape[1..], b, offset);
    MarkedFactors(ls, c, a[0 := off], []);
    MarkedFactors(ls, e, [], b[0 := offset]);
  }

  lemma JoinedTerm(ls: seq<Lora>, rowIdx: Index, lead: Index, col: nat, k: nat)
    requires Batched(ls) && Batched(Marked(ls)) && Total(HeadsA(ls)) != 1 && Joined(Marked(ls)).Coherent()
    requires
      var r := Joined(Marked(ls));
      InBounds(Init(r.B.shape), rowIdx) && InBounds(r.BLead(), lead) && k < r.Rank() && col < Last(r.A.shape)
    ensures lead != [] && lead[0] < Total(HeadsA(ls))
    ensures
      var r := Joined(Marked(ls));
      RowOf(r, rowIdx)(k) * ColumnOf(r, lead, col)(k) == Locate(HeadsA(ls), lead[0]).0 as real
  {
    hide At, Cat, Total, Locate, Marked, Joinable, Prod, Clamp, Batched, HeadsA, SizesOf;
    HeadsOfShapes(ls, Marked(ls));
    var r := Joined(Marked(ls));
    JoinedShapes(Marked(ls));
    Shapes(r);
    ClampLead(r, lead);
    assert |lead| == |r.ALead()| && lead != [];
    ClampedHead(r, lead);
    var z := Clamp(r.ALead(), lead);
    JoinedEntries(ls, z + [k] + [col], rowIdx + [k]);
    OneTimes(Locate(HeadsA(ls), lead[0]).0 as real);
  }

  lemma JoinedMark(ls: seq<Lora>, idx: Index)
    requires Batched(ls) && Batched(Marked(ls)) && Total(HeadsA(ls)) != 1
    requires Joined(Marked(ls)).Coherent() && InBounds(Joined(Marked(ls)).Shape(), idx)
    ensures idx != [] && idx[0] < Total(HeadsA(ls))
    ensures At(Dense(Joined(Marked(ls))), idx) == Mark(ls[0].Rank(), Locate(HeadsA(ls), idx[0]).0)
  {
    HeadOfIndex(ls, idx);
    JoinedRank(ls);
    JoinedEntry(ls, idx);
    hide *;
  }

  lemma JoinedEntry(ls: seq<Lora>, idx: Index)
    requires Batched(ls) && Batched(Marked(ls)) && Total(HeadsA(ls)) != 1
    requires Joined(Marked(ls)).Coherent() && InBounds(Joined(Marked(ls)).Shape(), idx)
    requires |idx| > 2 && idx[0] == Init(Init(idx))[0] && idx[0] < Total(HeadsA(ls))
    ensures At(Dense(Joined(Marked(ls))), idx) == Mark(Joined(Marked(ls)).Rank(), Locate(HeadsA(ls), idx[0]).0)
  {
    hide At, Cat, Total, Locate, Marked, Joinable, Prod, Dense, Entry, Clamp, Batched, HeadsA, SizesOf, Joined, RowOf,
         ColumnOf, Mark;
    var r := Joined(Marked(ls));
    SplitIndex(r, idx);
    AtDense(r, idx);
    EntryParts(r, idx);
    var lead, col := Init(Init(idx)), Last(idx);
    forall k: nat | k < r.Rank()
      ensures RowOf(r, Init(idx))(k) * ColumnOf(r, lead, col)(k) == Locate(HeadsA(ls), idx[0]).0 as real
    {
      JoinedTerm(ls, Init(idx), lead, col, k);
    }
    DotMark(r.Rank(), RowOf(r, Init(idx)), ColumnOf(r, lead, col), Locate(HeadsA(ls), idx[0]).0);
  }

  lemma JoinedRank(ls: seq<Lora>)
    requires Batched(ls) && Batched(Marked(ls))
    ensures Joined(Marked(ls)).Rank() == ls[0].Rank()
  {
    hide Cat, Total, Marked, Joinable, Prod;
    JoinedShapes(Marked(ls));
  }

  lemma HeadOfIndex(ls: seq<Lora>, idx: Index)
    requires Batched(ls) && Batched(Marked(ls)) && Total(HeadsA(ls)) != 1
    requires Joined(Marked(ls)).Coherent() && InBounds(Joined(Marked(ls)).Shape(), idx)
    ensures |idx| > 2 && idx[0] == Init(Init(idx))[0] && idx[0] < Total(HeadsA(ls))
  {
    hide Cat, Total, Marked, Joinable, Prod, HeadsA, SizesOf, Batched;
    HeadsOfShapes(ls, Marked(ls));
    var r := Joined(Marked(ls));
    JoinedShapes(Marked(ls));
    SplitIndex(r, idx);
    assert r.ALead()[0] == r.BLead()[0];
  }

  lemma CatMark(ls: seq<Lora>, idx: Index)
    requires Batched(ls) && Joinable(DenseAll(Marked(ls)), 0) && SameTails(DenseAll(Marked(ls)), SizesOf(ls))
    requires InBounds([Total(SizesOf(ls))] + DenseAll(Marked(ls))[0].shape[1..], idx)
    ensures idx != [] && idx[0] < Total(SizesOf(ls))
    ensures At(Cat(DenseAll(Marked(ls)), 0), idx) == Mark(ls[0].Rank(), Locate(SizesOf(ls), idx[0]).0)
  {
    hide At, Cat, Total, Locate, Marked, Joinable, Prod, Dense, Mark;
    var ts, sizes := DenseAll(Marked(ls)), SizesOf(ls);
    InHead(Total(sizes), Total(sizes), ts[0].shape[1..], idx, idx[0]);
    AtCatHead(ts, sizes, idx);
    var (c, off) := Locate(sizes, idx[0]);
    InHead(Total(sizes), sizes[c], ts[0].shape[1..], idx, off);
    SameDense(ls, Marked(ls));
    DenseTail(ls, c);
    DenseTail(ls, 0);
    RanksAlike(ls, c);
    MarkedAt(ls, c, idx[0 := off]);
  }

  lemma FirstInBounds(n: nat, tail: Shape, p: nat)
    requires p < n && Positive(tail)
    ensures InBounds([n] + tail, [p] + Zeros(|tail|)) && ([p] + Zeros(|tail|))[0] == p
  {
  }

  /** Joined factors with a product, of operands that are stretched along the axis: some values show it. */
  lemma CatMarkedWrong(ls: seq<Lora>, dim: DimArg)
    requires Batched(ls) && AllCoherent(Marked(ls)) && CatLora(Marked(ls), dim).Ok?
    requires !BatchesMatch(ls) && Total(HeadsA(ls)) == Total(SizesOf(ls)) != 1 && !Trivial(ls[0])
    requires AxisOf(dim, |ls[0].Shape()|) == Ok(0)
    ensures !CatRight(Marked(ls), dim)
  {
    hide At, Cat, Total, Locate, Marked, Joinable, Prod, Dense, Mark, SameTails, HeadsA, SizesOf, Entry;
    var ms, n := Marked(ls), Total(HeadsA(ls));
    BatchedOfShapes(ls, ms);
    CatCoherent(ms);
    CatShape(ms, dim);
    DenseTails(ms, dim);
    SameDense(ls, ms);
    SameDense(ms, ms);
    Mismatch(ls);
    var p := HeadsDiffer(HeadsA(ls), SizesOf(ls));
    var tail := ls[0].Shape()[1..];
    var idx := [p] + Zeros(|tail|);
    FirstInBounds(n, tail, p);
    JoinedMark(ls, idx);
    CatMark(ls, idx);
    MarksDiffer(ls[0].Rank(), Locate(HeadsA(ls), p).0, Locate(SizesOf(ls), p).0);
    assert Cat(DenseAll(ms), 0) != Dense(Joined(ms));
  }

  lemma Mismatch(ls: seq<Lora>)
    requires !BatchesMatch(ls)
    ensures HeadsA(ls) != SizesOf(ls)
  {
    var c :| 0 <= c < |ls| && HeadSize(ls[c].A) != HeadSize(ls[c].B);
    assert HeadsA(ls)[c] != SizesOf(ls)[c];
  }

  // ---- cat: exactly ----

  /** The joined factors have a product. */
  predicate HasProduct(ls: seq<Lora>)
    requires ls != []
  {
    |ls[0].A.shape| == 2 || Total(HeadsA(ls)) == 1 || Total(HeadsA(ls)) == Total(SizesOf(ls))
  }

  /** Some operand is not stretched along the joined axis and none takes another's entry of A. */
  predicate CatGuard(ls: seq<Lora>, dim: DimArg)
    requires ls != [] && forall c :: 0 <= c < |ls| ==> ls[c].WellFormed()
  {
    var d := AxisOf(dim, |ls[0].Shape()|);
    && d.Ok?
    && (|ls| == 1 ||
        (HasProduct(ls) &&
         if d.value > 0 then EmptyThere(SizesOf(ls), ls[0].Shape(), d.value)
         else |ls[0].A.shape| == 2 || BatchesMatch(ls) || Total(HeadsA(ls)) == 1 || Trivial(ls[0])))
  }

  lemma CatCoherentExactly(ls: seq<Lora>, dim: DimArg)
    requires AllCoherent(ls) && CatLora(ls, dim).Ok?
    ensures ls != [] && (CatLora(ls, dim).value.Coherent() <==> HasProduct(ls))
  {
    hide Cat, Prod, Total, HeadsA, SizesOf, Dense;
    if |ls[0].A.shape| == 2 {
      CatMatrices(ls);
    } else {
      CatCoherent(ls);
    }
  }

  lemma CatGuardRight(ls: seq<Lora>, dim: DimArg)
    requires AllCoherent(ls) && CatLora(ls, dim).Ok? && ls != [] && CatGuard(ls, dim)
    ensures CatRight(ls, dim)
  {
    hide CatLora, CatRight, Total, HeadsA, SizesOf, Trivial, BatchesMatch, EmptyThere;
    CatCoherentExactly(ls, dim);
    CatEnough(ls, dim);
    if |ls| == 1 {
      CatSingle(ls, dim);
    } else if AxisOf(dim, |ls[0].Shape()|).value > 0 {
      CatEmpty(ls, dim);
    } else if |ls[0].A.shape| > 2 && Total(HeadsA(ls)) == 1 {
      CatUnstretched(ls, dim);
    } else if |ls[0].A.shape| > 2 && Trivial(ls[0]) {
      CatTrivial(ls, dim);
    }
  }

  lemma CatGuardOfShapes(ls: seq<Lora>, ms: seq<Lora>, dim: DimArg)
    requires AllSameShapes(ls, ms) && ls != []
    ensures CatGuard(ls, dim) <==> CatGuard(ms, dim)
  {
    hide Total, Prod;
    HeadsOfShapes(ls, ms);
    MatchesOfShapes(ls, ms);
    assert SameShapes(ls[0], ms[0]);
    hide HeadsA, SizesOf, EmptyThere, BatchesMatch, Positive, AllSameShapes;
  }

  lemma MatchesOfShapes(ls: seq<Lora>, ms: seq<Lora>)
    requires AllSameShapes(ls, ms)
    ensures BatchesMatch(ls) <==> BatchesMatch(ms)
  {
    hide Prod;
    forall c | 0 <= c < |ls|
      ensures HeadSize(ls[c].A) == HeadSize(ms[c].A) && HeadSize(ls[c].B) == HeadSize(ms[c].B)
    {
      assert SameShapes(ls[c], ms[c]);
    }
  }

  lemma CatNeeded(ls: seq<Lora>, dim: DimArg)
    requires AllCoherent(ls) && CatLora(ls, dim).Ok? && CatRight(ls, dim) && ls != []
    requires |ls| > 1 && AllCoherent(Marked(ls)) && |ls[0].A.shape| > 2 ==>
      CatLora(Marked(ls), dim).Ok? && CatRight(Marked(ls), dim)
    ensures CatGuard(ls, dim)
  {
    hide CatLora, Total, HeadsA, SizesOf, Trivial, BatchesMatch, EmptyThere, Dense, DenseCat;
    CatCoherentExactly(ls, dim);
    if |ls| == 1 {
      CatSingle(ls, dim);
    } else {
      CatAxisNeeded(ls, dim);
      MarkedCoherent(ls);
      hide CatRight, AllCoherent;
      if AxisOf(dim, |ls[0].Shape()|) == Ok(0) && !CatGuard(ls, dim) {
        CatIsBatched(ls, dim);
        CatMarkedWrong(ls, dim);
        assert false;
      }
    }
  }

  lemma CatIsBatched(ls: seq<Lora>, dim: DimArg)
    requires AllCoherent(ls) && CatLora(ls, dim).Ok?
    ensures ls != [] && |ls[0].A.shape| >= 2 && (|ls[0].A.shape| > 2 ==> Batched(ls))
  {
    hide Cat, Prod, Dense;
  }

  lemma CatOkOfShapes(ls: seq<Lora>, ms: seq<Lora>, dim: DimArg)
    requires AllCoherent(ls) && CatLora(ls, dim).Ok? && AllSameShapes(ls, ms) && AllCoherent(ms)
    requires ls != [] && |ls[0].A.shape| > 2
    ensures CatLora(ms, dim).Ok?
  {
    hide Cat, Prod, Dense, Joinable, Total;
    CatIsBatched(ls, dim);
    BatchedOfShapes(ls, ms);
    JoinedShapes(ms);
  }

  /**
   For all operands of one list of shapes: concatenating the factors means concatenating the products by
   the same call if and only if the guard holds.
   */
  lemma CatExactly(ls: seq<Lora>, dim: DimArg)
    requires AllCoherent(ls) && CatLora(ls, dim).Ok?
    ensures ls != []
    ensures
      CatGuard(ls, dim)
      <==> forall ms :: AllSameShapes(ls, ms) && AllCoherent(ms) && CatLora(ms, dim).Ok? ==> CatRight(ms, dim)
  {
    hide CatLora, CatRight, CatGuard, Marked;
    CatCoherentExactly(ls, dim);
    AllAlike(ls);
    if CatGuard(ls, dim) {
      forall ms | AllSameShapes(ls, ms) && AllCoherent(ms) && CatLora(ms, dim).Ok?
        ensures CatRight(ms, dim)
      {
        CatGuardOfShapes(ls, ms, dim);
        CatGuardRight(ms, dim);
      }
    } else if forall ms :: AllSameShapes(ls, ms) && AllCoherent(ms) && CatLora(ms, dim).Ok? ==> CatRight(ms, dim) {
      MarkedCoherent(ls);
      if |ls[0].A.shape| > 2 {
        CatOkOfShapes(ls, Marked(ls), dim);
      }
      CatNeeded(ls, dim);
      assert false;
    }
  }

  /**
   Without empty operands, whatever the elements are: concatenating is right if and only if there is one
   operand and the axis exists, or the call names the first axis and the operands are matrices sharing A or
   batches where no A is stretched.
   */
  lemma CatCommutes(ls: seq<Lora>, dim: DimArg)
    requires AllCoherent(ls) && CatLora(ls, dim).Ok? && forall c :: 0 <= c < |ls| ==> HeadSize(ls[c].B) > 0
    ensures ls != []
    ensures
      var d := AxisOf(dim, |ls[0].Shape()|);
      CatRight(ls, dim)
      <==> d.Ok? && (|ls| == 1 || (d.value == 0 && (|ls[0].A.shape| == 2 || BatchesMatch(ls))))
  {
    hide CatLora, CatRight, HeadSize, BatchesMatch, AllCoherent;
    CatEnough(ls, dim);
    CatIsBatched(ls, dim);
    if |ls| == 1 {
      CatSingle(ls, dim);
    } else {
      assert SizesOf(ls)[0] > 0;
      if |ls[0].A.shape| > 2 && !BatchesMatch(ls) {
        CatStretched(ls);
        StretchedWrong(ls, dim);
      } else if CatRight(ls, dim) {
        CatAxisNeeded(ls, dim);
      }
    }
  }

  lemma StretchedWrong(ls: seq<Lora>, dim: DimArg)
    requires AllCoherent(ls) && CatLora(ls, dim).Ok? && Batched(ls) && !Joined(ls).Coherent()
    ensures !CatRight(ls, dim)
  {
    hide Cat, Prod, Dense, Joinable;
  }
}
