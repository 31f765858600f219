/** Splitting the factors splits B·A, and the chunks of a tensor join up to the tensor again. */
module LoraSplit {
  import opened Common
  import opened Tensors
  import opened LoraTensor
  import opened LoraIndex

  /** The factors that the method hands to one chunk. */
  function ChunkFactors(l: Lora, d: nat, start: nat, len: nat): (r: Lora)
    requires l.WellFormed() && d < |l.A.shape| && start + len <= l.Shape()[d]
    requires d < |l.A.shape| - 2 ==> l.A.shape[d] == 1 || l.A.shape[d] == l.B.shape[d]
  {
    if d == |l.A.shape| - 1 then Lora(Narrow(l.A, d, start, len), l.B)
    else if d == |l.A.shape| - 2 || l.A.shape[d] == 1 then Lora(l.A, Narrow(l.B, d, start, len))
    else Lora(Narrow(l.A, d, start, len), Narrow(l.B, d, start, len))
  }

  /** A chunk of the factors is the chunk of B·A. */
  lemma ChunkCommutes(l: Lora, d: nat, start: nat, len: nat)
    requires l.Coherent() && d < |l.Shape()| && start + len <= l.Shape()[d]
    requires d < |l.A.shape| - 2 ==> l.A.shape[d] == 1 || l.A.shape[d] == l.B.shape[d]
    ensures ChunkFactors(l, d, start, len).Coherent() && ChunkFactors(l, d, start, len).Rank() == l.Rank()
    ensures Dense(ChunkFactors(l, d, start, len)) == Narrow(Dense(l), d, start, len)
  {
    hide Take, Fulls, Dense, Prod;
    var p := Range(start, 1, len);
    assert PickFits(p, l.Shape()[d]);
    if d == |l.A.shape| - 1 {
      ColumnAt(l, p);
    } else if d == |l.A.shape| - 2 {
      RowAt(l, p);
    } else if l.A.shape[d] == 1 {
      BroadcastAt(l, d, p);
    } else {
      LeadAt(l, d, p, p);
    }
  }

  ghost predicate MatchChunks(ls: seq<Lora>, rank: nat, ts: seq<Tensor>) {
    |ls| == |ts| && forall i :: 0 <= i < |ls| ==> ls[i].Coherent() && ls[i].Rank() == rank && Dense(ls[i]) == ts[i]
  }

  predicate ChunkArgs(l: Lora, d: nat, start: nat, sizes: seq<nat>) {
    l.Coherent() && d < |l.Shape()| && start + Total(sizes) == l.Shape()[d]
    && (d < |l.A.shape| - 2 ==> l.A.shape[d] == 1 || l.A.shape[d] == l.B.shape[d])
  }

  function PartsA(l: Lora, d: nat, start: nat, sizes: seq<nat>): (r: seq<Tensor>)
    requires ChunkArgs(l, d, start, sizes)
    ensures forall c :: c in r ==> c.Valid()
  {
    if d == |l.A.shape| - 1 || (d < |l.A.shape| - 2 && l.A.shape[d] != 1)
    then Chunks(l.A, d, start, sizes) else Repeat(l.A, |sizes|)
  }

  function PartsB(l: Lora, d: nat, start: nat, sizes: seq<nat>): (r: seq<Tensor>)
    requires ChunkArgs(l, d, start, sizes)
    ensures forall c :: c in r ==> c.Valid()
  {
    if d == |l.A.shape| - 1 then Repeat(l.B, |sizes|) else Chunks(l.B, d, start, sizes)
  }

  lemma PartsStep(l: Lora, d: nat, start: nat, sizes: seq<nat>)
    requires ChunkArgs(l, d, start, sizes) && sizes != []
    requires ChunkArgs(l, d, start + sizes[0], sizes[1..]) && start + sizes[0] <= l.Shape()[d]
    ensures PartsA(l, d, start, sizes)
         == [ChunkFactors(l, d, start, sizes[0]).A] + PartsA(l, d, start + sizes[0], sizes[1..])
    ensures PartsB(l, d, start, sizes)
         == [ChunkFactors(l, d, start, sizes[0]).B] + PartsB(l, d, start + sizes[0], sizes[1..])
  {
    hide Narrow, Prod, Dense;
  }

  lemma MakeOne(A: Tensor, B: Tensor, restA: seq<Tensor>, restB: seq<Tensor>)
    requires Lora(A, B).WellFormed() && (forall t :: t in restA ==> t.Valid()) && (forall t :: t in restB ==> t.Valid())
    ensures forall t :: t in [A] + restA ==> t.Valid()
    ensures forall t :: t in [B] + restB ==> t.Valid()
    ensures
      MakeAll([A] + restA, [B] + restB)
      == match MakeAll(restA, restB) case Ok(ls) => Ok([Lora(A, B)] + ls) case Err(e) => Err(e)
  {
    hide Prod;
    assert ([A] + restA)[1..] == restA && ([B] + restB)[1..] == restB;
    assert Make(A, B) == Ok(Lora(A, B));
  }

  lemma {:induction false} MakeChunks(l: Lora, d: nat, start: nat, sizes: seq<nat>)
    requires ChunkArgs(l, d, start, sizes)
    ensures var made := MakeAll(PartsA(l, d, start, sizes), PartsB(l, d, start, sizes));
      made.Ok? && MatchChunks(made.value, l.Rank(), Chunks(Dense(l), d, start, sizes))
    decreases |sizes|
  {
    hide Narrow, Dense, Prod, ChunkFactors;
    if sizes != [] {
      hide PartsA, PartsB, Repeat, MakeAll;
      PartsStep(l, d, start, sizes);
      var c := ChunkFactors(l, d, start, sizes[0]);
      ChunkCommutes(l, d, start, sizes[0]);
      MakeChunks(l, d, start + sizes[0], sizes[1..]);
      MakeOne(c.A, c.B, PartsA(l, d, start + sizes[0], sizes[1..]), PartsB(l, d, start + sizes[0], sizes[1..]));
    }
  }

  lemma SplitInRange(l: Lora, spec: Sizes, d: nat)
    requires l.Coherent() && d < |l.Shape()|
    ensures
      var sections := Sections(spec, l.Shape()[d]);
      && (SplitLora(l, spec, d).Ok? <==> sections.Ok?)
      && (SplitAxis(Dense(l), spec, d).Ok? <==> sections.Ok?)
      && (sections.Ok? ==> MatchChunks(SplitLora(l, spec, d).value, l.Rank(), SplitAxis(Dense(l), spec, d).value))
  {
    hide Dense, Prod, Narrow;
    var n := |l.Shape()|;
    assert l.Shape()[d] == if d == n - 1 then Last(l.A.shape) else l.B.shape[d];
    assert d < n - 2 ==> l.ALead()[d] == 1 || l.ALead()[d] == l.BLead()[d];
    var sections := Sections(spec, l.Shape()[d]);
    if sections.Ok? {
      SectionsTotal(spec, l.Shape()[d]);
      MakeChunks(l, d, 0, sections.value);
    }
  }

  /** The axis named from the end is the same call as the axis named from the front. */
  lemma SplitFromEnd(l: Lora, spec: Sizes, dim: int)
    requires l.WellFormed() && 0 <= dim + |l.Shape()| < |l.Shape()| + |l.Shape()|
    ensures SplitLora(l, spec, dim) == SplitLora(l, spec, Wrap(dim, |l.Shape()|))
  {
    hide SplitAxis, MakeAll, Repeat, Prod;
  }

  /**
   For the axis numbers of a tensor, negative ones included, the method accepts exactly the calls that B·A
   accepts, and chunk i means chunk i of B·A. A call with any other number that returns means nothing.
   */
  lemma SplitCommutes(l: Lora, spec: Sizes, dim: int)
    requires l.Coherent()
    ensures dim >= -|l.Shape()| ==> (SplitLora(l, spec, dim).Ok? <==> DenseSplit(Dense(l), spec, dim).Ok?)
    ensures
      SplitLora(l, spec, dim).Ok? ==>
        (dim >= -|l.Shape()| <==>
           && DenseSplit(Dense(l), spec, dim).Ok?
           && MatchChunks(SplitLora(l, spec, dim).value, l.Rank(), DenseSplit(Dense(l), spec, dim).value))
  {
    hide Dense, Prod, MatchChunks;
    var n := |l.Shape()|;
    if 0 <= dim + n < n + n {
      SplitFromEnd(l, spec, dim);
      SplitInRange(l, spec, Wrap(dim, n));
    }
    hide Sections, SplitAxis;
  }

  // ---- joining the chunks ----

  lemma {:induction false} SourceRange(shape: Shape, d: nat, p: Pick, idx: Index)
    requires d < |shape| && p.Range? && |idx| == |shape|
    ensures Source(Fulls(shape)[d := p], idx) == idx[d := Nth(p, idx[d])]
    ensures PickedShape(Fulls(shape)[d := p]) == shape[d := p.count]
    decreases |shape|
  {
    hide Source, PickedShape, Nth;
    var picks := Fulls(shape)[d := p];
    var last := Last(picks);
    SourceSnoc(Init(picks), last, Init(idx), Last(idx));
    assert picks == Init(picks) + [last] && idx == Init(idx) + [Last(idx)];
    if d == |shape| - 1 {
      assert Init(picks) == Fulls(Init(shape));
      SourceWhole(Init(shape), Init(idx));
    } else {
      assert Init(picks) == Fulls(Init(shape))[d := p];
      SourceRange(Init(shape), d, p, Init(idx));
      NthFull(Last(shape), Last(idx));
    }
  }

  lemma NthFull(n: nat, j: nat)
    ensures Nth(Full(n), j) == j
  {
  }

  lemma {:induction false} SourceWhole(shape: Shape, idx: Index)
    requires |idx| == |shape|
    ensures PickedShape(Fulls(shape)) == shape && Source(Fulls(shape), idx) == idx
    decreases |shape|
  {
    if shape != [] {
      hide PickedShape, Source, Nth;
      SourceWhole(Init(shape), Init(idx));
      assert Fulls(shape) == Fulls(Init(shape)) + [Full(Last(shape))];
      SourceSnoc(Fulls(Init(shape)), Full(Last(shape)), Init(idx), Last(idx));
      NthFull(Last(shape), Last(idx));
      assert idx == Init(idx) + [Last(idx)];
    }
  }

  lemma AtNarrow(t: Tensor, d: nat, start: nat, len: nat, idx: Index)
    requires d < |t.shape| && start + len <= t.shape[d] && InBounds(t.shape[d := len], idx)
    ensures Narrow(t, d, start, len).shape == t.shape[d := len]
    ensures At(Narrow(t, d, start, len), idx) == At(t, idx[d := start + idx[d]])
  {
    hide At, Take, Source, PickedShape;
    SourceRange(t.shape, d, Range(start, 1, len), idx);
    AtTake(t, Fulls(t.shape)[d := Range(start, 1, len)], idx);
  }

  lemma NarrowShape(t: Tensor, d: nat, start: nat, len: nat)
    requires d < |t.shape| && start + len <= t.shape[d]
    ensures Narrow(t, d, start, len).shape == t.shape[d := len]
  {
    SourceRange(t.shape, d, Range(start, 1, len), Zeros(|t.shape|));
  }

  lemma {:induction false} ChunkShapes(t: Tensor, d: nat, start: nat, sizes: seq<nat>)
    requires d < |t.shape| && start + Total(sizes) == t.shape[d]
    ensures var cs := Chunks(t, d, start, sizes);
      && (forall c :: c in cs ==> d < |c.shape|)
      && (forall i :: 0 <= i < |cs| ==> cs[i].shape == t.shape[d := sizes[i]])
      && Lengths(cs, d) == Total(sizes)
    decreases |sizes|
  {
    hide Narrow;
    if sizes != [] {
      NarrowShape(t, d, start, sizes[0]);
      ChunkShapes(t, d, start + sizes[0], sizes[1..]);
      var rest := Chunks(t, d, start + sizes[0], sizes[1..]);
      assert Chunks(t, d, start, sizes)[1..] == rest;
    }
  }

  lemma {:induction false} ChunksAt(t: Tensor, d: nat, start: nat, sizes: seq<nat>, idx: Index)
    requires d < |t.shape| && start + Total(sizes) == t.shape[d]
    requires InBounds(t.shape, idx) && start <= idx[d]
    ensures forall c :: c in Chunks(t, d, start, sizes) ==> d < |c.shape|
    ensures CatAt(Chunks(t, d, start, sizes), d, idx[d := idx[d] - start]) == At(t, idx)
    decreases |sizes|
  {
    hide At, Narrow;
    ChunkShapes(t, d, start, sizes);
    if sizes != [] {
      var len := sizes[0];
      NarrowShape(t, d, start, len);
      var rest := Chunks(t, d, start + len, sizes[1..]);
      assert Chunks(t, d, start, sizes)[1..] == rest;
      var j := idx[d := idx[d] - start];
      if idx[d] - start < len {
        AtNarrow(t, d, start, len, j);
        assert j[d := start + j[d]] == idx;
      } else {
        ChunksAt(t, d, start + len, sizes[1..], idx);
        assert j[d := j[d] - len] == idx[d := idx[d] - (start + len)];
      }
    }
  }

  /** Concatenating the chunks of a tensor along the axis they were cut on gives the tensor back. */
  lemma SplitRejoins(t: Tensor, spec: Sizes, d: nat)
    requires t.Valid() && d < |t.shape| && SplitAxis(t, spec, d).Ok? && SplitAxis(t, spec, d).value != []
    ensures Joinable(SplitAxis(t, spec, d).value, d)
    ensures Cat(SplitAxis(t, spec, d).value, d) == t
  {
    hide Narrow, At, Cat;
    var sizes := Sections(spec, t.shape[d]).value;
    SectionsTotal(spec, t.shape[d]);
    var cs := Chunks(t, d, 0, sizes);
    ChunkShapes(t, d, 0, sizes);
    forall c | c in cs
      ensures d < |c.shape| && c.shape[..d] == cs[0].shape[..d] && c.shape[d + 1..] == cs[0].shape[d + 1..]
    {
      var i :| 0 <= i < |cs| && cs[i] == c;
    }
    assert cs[0].shape[d := Lengths(cs, d)] == t.shape;
    forall idx: Index | InBounds(t.shape, idx)
      ensures At(Cat(cs, d), idx) == At(t, idx)
    {
      AtCat(cs, d, idx);
      ChunksAt(t, d, 0, sizes, idx);
      assert idx[d := idx[d] - 0] == idx;
    }
    Extensional(Cat(cs, d), t);
  }
}
