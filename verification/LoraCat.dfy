/** Stacking and concatenating the factors stacks and concatenates B·A. */
module LoraCat {
  import opened Common
  import opened Tensors
  import opened LoraTensor
  import opened LoraProofs
  import opened LoraJoin

  predicate AllCoherent(ls: seq<Lora>) {
    forall i :: 0 <= i < |ls| ==> ls[i].Coherent()
  }

  function DenseAll(ls: seq<Lora>): (r: seq<Tensor>)
    requires forall i :: 0 <= i < |ls| ==> ls[i].WellFormed()
    ensures |r| == |ls| && forall i :: 0 <= i < |ls| ==> r[i] == Dense(ls[i])
  {
    seq(|ls|, i requires 0 <= i < |ls| => Dense(ls[i]))
  }

  // ---- stack ----

  lemma ClampCons(d: nat, shape: Shape, c: nat, idx: Index)
    requires |shape| == |idx| && c < d
    ensures Clamp([d] + shape, [c] + idx) == [c] + Clamp(shape, idx)
  {
    ClampAt([d] + shape, [c] + idx);
    ClampAt(shape, idx);
    var u, v := Clamp([d] + shape, [c] + idx), [c] + Clamp(shape, idx);
    forall i | 0 <= i < |u|
      ensures u[i] == v[i]
    {
      if i > 0 {
        assert ([d] + shape)[i] == shape[i - 1] && ([c] + idx)[i] == idx[i - 1];
      }
    }
  }

  lemma AtStackCons(ts: seq<Tensor>, c: nat, idx: Index)
    requires Stackable(ts) && c < |ts| && InBounds(ts[0].shape, idx)
    ensures At(Stack(ts, 0), [c] + idx) == At(ts[c], idx)
  {
    hide Stack, At;
    AtStack(ts, [c] + idx);
    assert ([c] + idx)[1..] == idx;
  }

  lemma StackedShapes(ls: seq<Lora>)
    requires AllCoherent(ls) && Stackable(FactorsA(ls)) && Stackable(FactorsB(ls))
    ensures var r := Lora(Stack(FactorsA(ls), 0), Stack(FactorsB(ls), 0));
      && ls != [] && r.Coherent() && r.Rank() == ls[0].Rank()
      && r.ALead() == [|ls|] + ls[0].ALead() && r.BLead() == [|ls|] + ls[0].BLead()
      && r.Shape() == [|ls|] + ls[0].Shape()
    ensures forall c :: 0 <= c < |ls| ==> ls[c].A.shape == ls[0].A.shape && ls[c].B.shape == ls[0].B.shape
  {
    hide Stack, Prod;
    forall c | 0 <= c < |ls|
      ensures ls[c].A.shape == ls[0].A.shape && ls[c].B.shape == ls[0].B.shape
    {
      assert FactorsA(ls)[c] in FactorsA(ls) && FactorsB(ls)[c] in FactorsB(ls);
    }
    var r := Lora(Stack(FactorsA(ls), 0), Stack(FactorsB(ls), 0));
    StackShape(FactorsA(ls));
    StackShape(FactorsB(ls));
    assert r.A.shape == [|ls|] + ls[0].A.shape && r.B.shape == [|ls|] + ls[0].B.shape;
    assert r.ALead() == [|ls|] + ls[0].ALead() && r.BLead() == [|ls|] + ls[0].BLead();
    assert LeadFits(ls[0].ALead(), ls[0].BLead());
  }

  lemma StackEntry(ls: seq<Lora>, c: nat, lead: Index, row: nat, col: nat)
    requires AllCoherent(ls) && Stackable(FactorsA(ls)) && Stackable(FactorsB(ls)) && c < |ls|
    requires InBounds(ls[0].BLead(), lead) && row < Last(Init(ls[0].B.shape)) && col < Last(ls[0].A.shape)
    ensures Lora(Stack(FactorsA(ls), 0), Stack(FactorsB(ls), 0)).WellFormed()
    ensures Entry(Lora(Stack(FactorsA(ls), 0), Stack(FactorsB(ls), 0)), [c] + (lead + [row]) + [col])
         == Entry(ls[c], lead + [row] + [col])
  {
    hide Stack, Prod, At, Clamp, Entry;
    StackedShapes(ls);
    var r, l := Lora(Stack(FactorsA(ls), 0), Stack(FactorsB(ls), 0)), ls[c];
    ClampCons(|ls|, l.ALead(), c, lead);
    ClampLead(l, lead);
    Shapes(l);
    forall k: nat | k < l.Rank()
      ensures RowOf(r, [c] + (lead + [row]))(k) == RowOf(l, lead + [row])(k)
      ensures ColumnOf(r, [c] + lead, col)(k) == ColumnOf(l, lead, col)(k)
    {
      assert [c] + (lead + [row]) + [k] == [c] + (lead + [row] + [k]);
      AtStackCons(FactorsB(ls), c, lead + [row] + [k]);
      var z := Clamp(l.ALead(), lead);
      assert [c] + z + [k] + [col] == [c] + (z + [k] + [col]);
      AtStackCons(FactorsA(ls), c, z + [k] + [col]);
    }
    DotCong(l.Rank(), RowOf(r, [c] + (lead + [row])), ColumnOf(r, [c] + lead, col),
            RowOf(l, lead + [row]), ColumnOf(l, lead, col));
    EntryOf(r, [c] + (lead + [row]), col);
    EntryOf(l, lead + [row], col);
    assert Init([c] + (lead + [row])) == [c] + lead && Init(lead + [row]) == lead;
  }

  lemma StackElement(ls: seq<Lora>, idx: Index)
    requires AllCoherent(ls) && Stackable(FactorsA(ls)) && Stackable(FactorsB(ls)) && Stackable(DenseAll(ls))
    requires ls != [] && InBounds([|ls|] + ls[0].Shape(), idx)
    ensures Lora(Stack(FactorsA(ls), 0), Stack(FactorsB(ls), 0)).WellFormed()
    ensures At(Stack(DenseAll(ls), 0), idx) == At(Dense(Lora(Stack(FactorsA(ls), 0), Stack(FactorsB(ls), 0))), idx)
  {
    hide Stack, Dense, Entry, Prod, At;
    StackedShapes(ls);
    var r, ts := Lora(Stack(FactorsA(ls), 0), Stack(FactorsB(ls), 0)), DenseAll(ls);
    var c, rest := idx[0], idx[1..];
    AtStack(ts, idx);
    AtDense(r, idx);
    AtDense(ls[c], rest);
    SplitIndex(ls[0], rest);
    var lead, row, col := Init(Init(rest)), Last(Init(rest)), Last(rest);
    StackEntry(ls, c, lead, row, col);
    assert idx == [c] + (lead + [row]) + [col];
  }

  /** Stacking the factors stacks the products, if the call names the first axis. */
  lemma StackCommutes(ls: seq<Lora>, dim: DimArg)
    requires AllCoherent(ls) && StackLora(ls, dim).Ok?
    ensures ls != [] && StackLora(ls, dim).value.Coherent()
    ensures AxisOf(dim, |ls[0].Shape()| + 1) == Ok(0) ==>
      DenseStack(DenseAll(ls), dim) == Ok(Dense(StackLora(ls, dim).value))
  {
    hide Stack, Dense, Entry, Prod, At;
    StackedShapes(ls);
    var r, ts := Lora(Stack(FactorsA(ls), 0), Stack(FactorsB(ls), 0)), DenseAll(ls);
    assert StackLora(ls, dim) == Ok(r);
    forall c | 0 <= c < |ls|
      ensures ts[c].shape == ts[0].shape
    {
      assert ls[c].Shape() == ls[0].Shape();
    }
    assert Stackable(ts) && ts[0].shape == ls[0].Shape();
    var t := Stack(ts, 0);
    StackShape(ts);
    hide StackLora, Stackable, DenseAll, AllCoherent;
    forall idx: Index | InBounds(t.shape, idx)
      ensures At(t, idx) == At(Dense(r), idx)
    {
      StackElement(ls, idx);
    }
    Extensional(t, Dense(r));
  }

  // ---- cat ----

  /** Which operand an index along the joined axis falls in, and where. */
  function Locate(sizes: seq<nat>, i: nat): (r: (nat, nat))
    requires i < Total(sizes)
    ensures r.0 < |sizes| && r.1 < sizes[r.0]
  {
    if i < sizes[0] then (0, i) else
      var r := Locate(sizes[1..], i - sizes[0]);
      (r.0 + 1, r.1)
  }

  predicate HeadSizes(ts: seq<Tensor>, sizes: seq<nat>) {
    |ts| == |sizes| && forall i :: 0 <= i < |ts| ==> |ts[i].shape| > 0 && ts[i].shape[0] == sizes[i]
  }

  lemma {:induction false} CatLocate(ts: seq<Tensor>, sizes: seq<nat>, idx: Index)
    requires HeadSizes(ts, sizes) && idx != [] && idx[0] < Total(sizes)
    ensures forall t :: t in ts ==> 0 < |t.shape|
    ensures var (c, off) := Locate(sizes, idx[0]); CatAt(ts, 0, idx) == At(ts[c], idx[0 := off])
  {
    hide At;
    if idx[0] < sizes[0] {
      assert idx[0 := idx[0]] == idx;
    } else {
      var rest := idx[0 := idx[0] - sizes[0]];
      CatLocate(ts[1..], sizes[1..], rest);
      var off := Locate(sizes, idx[0]).1;
      assert rest[0 := off] == idx[0 := off];
    }
  }

  lemma {:induction false} LengthsTotal(ts: seq<Tensor>, sizes: seq<nat>)
    requires HeadSizes(ts, sizes)
    ensures forall t :: t in ts ==> 0 < |t.shape|
    ensures Lengths(ts, 0) == Total(sizes)
  {
    if ts != [] {
      LengthsTotal(ts[1..], sizes[1..]);
    }
  }

  lemma AtCatHead(ts: seq<Tensor>, sizes: seq<nat>, idx: Index)
    requires Joinable(ts, 0) && HeadSizes(ts, sizes) && InBounds([Total(sizes)] + ts[0].shape[1..], idx)
    ensures Cat(ts, 0).shape == [Total(sizes)] + ts[0].shape[1..]
    ensures var (c, off) := Locate(sizes, idx[0]); At(Cat(ts, 0), idx) == At(ts[c], idx[0 := off])
  {
    hide At, CatAt, Cat;
    LengthsTotal(ts, sizes);
    assert ts[0].shape[0 := Total(sizes)] == [Total(sizes)] + ts[0].shape[1..];
    AtCat(ts, 0, idx);
    CatLocate(ts, sizes, idx);
  }

  function HeadSize(t: Tensor): nat {
    if t.shape == [] then 0 else t.shape[0]
  }

  /** The length of each operand along the joined axis. */
  function SizesOf(ls: seq<Lora>): (r: seq<nat>)
    ensures |r| == |ls| && forall i :: 0 <= i < |ls| ==> r[i] == HeadSize(ls[i].B)
  {
    seq(|ls|, i requires 0 <= i < |ls| => HeadSize(ls[i].B))
  }

  /** Entries that agree, row and column, with an operand's are that operand's. */
  lemma SameEntry(r: Lora, l: Lora, rowIdx: Index, src: Index, col: nat)
    requires r.WellFormed() && l.WellFormed() && r.Rank() == l.Rank() && rowIdx != [] && src != []
    requires forall k: nat :: k < l.Rank() ==> RowOf(r, rowIdx)(k) == RowOf(l, src)(k)
    requires forall k: nat :: k < l.Rank() ==> ColumnOf(r, Init(rowIdx), col)(k) == ColumnOf(l, Init(src), col)(k)
    ensures Entry(r, rowIdx + [col]) == Entry(l, src + [col])
  {
    EntryOf(r, rowIdx, col);
    EntryOf(l, src, col);
    DotCong(l.Rank(), RowOf(r, rowIdx), ColumnOf(r, Init(rowIdx), col), RowOf(l, src), ColumnOf(l, Init(src), col));
  }

  lemma CatRow(ls: seq<Lora>, rowIdx: Index, k: nat)
    requires AllCoherent(ls) && Joinable(FactorsB(ls), 0)
    requires InBounds([Total(SizesOf(ls))] + ls[0].B.shape[1..], rowIdx + [k])
    requires rowIdx != [] && rowIdx[0] < Total(SizesOf(ls))
    ensures var (c, off) := Locate(SizesOf(ls), rowIdx[0]);
      At(Cat(FactorsB(ls), 0), rowIdx + [k]) == At(ls[c].B, rowIdx[0 := off] + [k])
  {
    hide At, Cat, Locate;
    AtCatHead(FactorsB(ls), SizesOf(ls), rowIdx + [k]);
    var off := Locate(SizesOf(ls), rowIdx[0]).1;
    assert (rowIdx + [k])[0 := off] == rowIdx[0 := off] + [k];
  }

  lemma CatShapes(ls: seq<Lora>)
    requires AllCoherent(ls) && ls != [] && Joinable(FactorsB(ls), 0)
    ensures Cat(FactorsB(ls), 0).shape == [Total(SizesOf(ls))] + ls[0].B.shape[1..]
    ensures forall c :: 0 <= c < |ls| ==> ls[c].B.shape[1..] == ls[0].B.shape[1..] && ls[c].B.shape != []
  {
    hide Cat, Prod;
    LengthsTotal(FactorsB(ls), SizesOf(ls));
    forall c | 0 <= c < |ls|
      ensures ls[c].B.shape[1..] == ls[0].B.shape[1..]
    {
      assert FactorsB(ls)[c] in FactorsB(ls);
    }
    assert ls[0].B.shape[0 := Total(SizesOf(ls))] == [Total(SizesOf(ls))] + ls[0].B.shape[1..];
  }

  /** Matrices that share A: stacking the rows of B stacks the rows of B·A. */
  lemma CatMatrixEntry(ls: seq<Lora>, i: nat, j: nat)
    requires AllCoherent(ls) && ls != [] && Joinable(FactorsB(ls), 0) && |ls[0].Shape()| == 2
    requires forall c :: 0 <= c < |ls| ==> ls[c].A == ls[0].A
    requires i < Total(SizesOf(ls)) && j < Last(ls[0].A.shape)
    ensures Lora(ls[0].A, Cat(FactorsB(ls), 0)).WellFormed()
    ensures var (c, off) := Locate(SizesOf(ls), i);
      Entry(Lora(ls[0].A, Cat(FactorsB(ls), 0)), [i] + [j]) == Entry(ls[c], [off] + [j])
  {
    hide At, Cat, Locate, Entry, Clamp, Prod;
    CatShapes(ls);
    var r := Lora(ls[0].A, Cat(FactorsB(ls), 0));
    var (c, off) := Locate(SizesOf(ls), i);
    var l := ls[c];
    assert ls[0].B.shape[1..] == [ls[0].Rank()];
    assert l.A == ls[0].A && l.Rank() == ls[0].Rank();
    forall k: nat | k < l.Rank()
      ensures RowOf(r, [i])(k) == RowOf(l, [off])(k)
    {
      CatRow(ls, [i], k);
      assert [i][0 := off] == [off];
    }
    assert Init([i]) == [] && Init([off]) == [];
    SameEntry(r, l, [i], [off], j);
  }

  lemma TailOfShape(l: Lora)
    requires l.WellFormed()
    ensures l.Shape()[0] == l.B.shape[0] && l.Shape()[1..] == Init(l.B.shape[1..]) + [Last(l.A.shape)]
    ensures Init(l.B.shape)[1..] == Init(l.B.shape[1..])
  {
    hide Prod;
    var b := l.B.shape;
    assert Init(b)[1..] == Init(b[1..]);
    assert l.Shape()[1..] == Init(b)[1..] + [Last(l.A.shape)];
  }

  lemma DenseJoinable(ls: seq<Lora>)
    requires AllCoherent(ls) && ls != [] && Joinable(FactorsB(ls), 0)
    requires forall c :: 0 <= c < |ls| ==> Last(ls[c].A.shape) == Last(ls[0].A.shape)
    ensures Joinable(DenseAll(ls), 0) && HeadSizes(DenseAll(ls), SizesOf(ls))
    ensures DenseAll(ls)[0].shape[1..] == Init(ls[0].B.shape)[1..] + [Last(ls[0].A.shape)]
  {
    hide Dense, Prod, Init, Joinable;
    CatShapes(ls);
    var ts := DenseAll(ls);
    assert ls[0].Coherent();
    TailOfShape(ls[0]);
    forall c | 0 <= c < |ls|
      ensures ts[c].shape[1..] == ts[0].shape[1..] && ts[c].shape != [] && ts[c].shape[0] == SizesOf(ls)[c]
    {
      assert ls[c].Coherent();
      TailOfShape(ls[c]);
    }
    TailsJoin(ts);
  }

  lemma TailsJoin(ts: seq<Tensor>)
    requires ts != [] && (forall c :: 0 <= c < |ts| ==> ts[c].shape != [])
    requires forall c :: 0 <= c < |ts| ==> ts[c].shape[1..] == ts[0].shape[1..]
    ensures Joinable(ts, 0)
  {
    forall t | t in ts
      ensures 0 < |t.shape| && t.shape[..0] == ts[0].shape[..0] && t.shape[1..] == ts[0].shape[1..]
    {
      var c :| 0 <= c < |ts| && ts[c] == t;
    }
  }

  lemma CatMatrixAt(ls: seq<Lora>, idx: Index)
    requires AllCoherent(ls) && ls != [] && Joinable(FactorsB(ls), 0) && |ls[0].Shape()| == 2
    requires forall c :: 0 <= c < |ls| ==> ls[c].A == ls[0].A
    requires Joinable(DenseAll(ls), 0) && HeadSizes(DenseAll(ls), SizesOf(ls))
      && Lora(ls[0].A, Cat(FactorsB(ls), 0)).Coherent()
    requires
      var r := Lora(ls[0].A, Cat(FactorsB(ls), 0));
      |r.Shape()| == 2 && InBounds(r.Shape(), idx) && Cat(DenseAll(ls), 0).shape == r.Shape()
    ensures At(Cat(DenseAll(ls), 0), idx) == At(Dense(Lora(ls[0].A, Cat(FactorsB(ls), 0))), idx)
  {
    hide At, Cat, Locate, Entry, Dense, Prod;
    var r, ts, sizes := Lora(ls[0].A, Cat(FactorsB(ls), 0)), DenseAll(ls), SizesOf(ls);
    var i, j := idx[0], idx[1];
    assert idx == [i] + [j];
    LengthsTotal(ts, sizes);
    assert ts[0].shape[0 := Total(sizes)] == [Total(sizes)] + ts[0].shape[1..];
    AtCatHead(ts, sizes, idx);
    AtDense(r, idx);
    CatMatrixEntry(ls, i, j);
    var (c, off) := Locate(sizes, i);
    assert idx[0 := off] == [off] + [j];
    AtDense(ls[c], [off] + [j]);
  }

  /** Matrices with one A in common. */
  lemma CatMatrices(ls: seq<Lora>)
    requires AllCoherent(ls) && ls != [] && Joinable(FactorsB(ls), 0) && |ls[0].Shape()| == 2
    requires forall c :: 0 <= c < |ls| ==> ls[c].A == ls[0].A
    ensures var r := Lora(ls[0].A, Cat(FactorsB(ls), 0));
      r.Coherent() && DenseCat(DenseAll(ls), Keyword(0)) == Ok(Dense(r))
  {
    hide At, Cat, Entry, Dense, Prod;
    CatShapes(ls);
    DenseJoinable(ls);
    var r, ts, sizes := Lora(ls[0].A, Cat(FactorsB(ls), 0)), DenseAll(ls), SizesOf(ls);
    assert ls[0].B.shape[1..] == [ls[0].Rank()] && Init(ls[0].B.shape)[1..] == [];
    LengthsTotal(ts, sizes);
    var t := Cat(ts, 0);
    assert t.shape == r.Shape();
    forall idx: Index | InBounds(t.shape, idx)
      ensures At(t, idx) == At(Dense(r), idx)
    {
      CatMatrixAt(ls, idx);
    }
    Extensional(t, Dense(r));
  }

  // ---- batched operands ----

  predicate BatchesMatch(ls: seq<Lora>) {
    forall c :: 0 <= c < |ls| ==> HeadSize(ls[c].A) == HeadSize(ls[c].B)
  }

  predicate Batched(ls: seq<Lora>) {
    AllCoherent(ls) && ls != [] && |ls[0].A.shape| > 2 && Joinable(FactorsA(ls), 0) && Joinable(FactorsB(ls), 0)
  }

  function Joined(ls: seq<Lora>): Lora
    requires Batched(ls)
  {
    Lora(Cat(FactorsA(ls), 0), Cat(FactorsB(ls), 0))
  }

  lemma TailShapes(ls: seq<Lora>, c: nat)
    requires Batched(ls) && c < |ls|
    ensures ls[c].A.shape == [HeadSize(ls[c].A)] + ls[0].A.shape[1..]
    ensures ls[c].B.shape == [HeadSize(ls[c].B)] + ls[0].B.shape[1..]
    ensures |ls[0].A.shape| == |ls[0].B.shape| && ls[0].WellFormed() && ls[c].WellFormed()
  {
    hide Prod;
    assert ls[0].Coherent() && ls[c].Coherent();
    assert FactorsA(ls)[c] in FactorsA(ls) && FactorsB(ls)[c] in FactorsB(ls);
  }

  function HeadsA(ls: seq<Lora>): (r: seq<nat>)
    ensures |r| == |ls| && forall i :: 0 <= i < |ls| ==> r[i] == HeadSize(ls[i].A)
  {
    seq(|ls|, i requires 0 <= i < |ls| => HeadSize(ls[i].A))
  }

  lemma HeadParts(s: Shape, n: nat)
    requires |s| > 2
    ensures var u := [n] + s[1..];
      && |u| == |s| && Init(u) == [n] + Init(s)[1..] && Last(u) == Last(s)
      && Init(Init(u)) == [n] + Init(Init(s))[1..] && Last(Init(u)) == Last(Init(s))
      && u == [n] + Init(Init(s))[1..] + [Last(Init(s))] + [Last(s)]
  {
    var u := [n] + s[1..];
    assert Init(s)[1..] == s[1..][..|s| - 2];
    assert Init(Init(s))[1..] == s[1..][..|s| - 3];
    assert u == Init(Init(u)) + [Last(Init(u))] + [Last(u)];
  }

  lemma JoinedHeads(ls: seq<Lora>)
    requires Batched(ls)
    ensures HeadSizes(FactorsA(ls), HeadsA(ls)) && HeadSizes(FactorsB(ls), SizesOf(ls))
    ensures Joined(ls).A.shape == [Total(HeadsA(ls))] + ls[0].A.shape[1..]
    ensures Joined(ls).B.shape == [Total(SizesOf(ls))] + ls[0].B.shape[1..]
  {
    hide Cat, Prod;
    forall c | 0 <= c < |ls|
      ensures |ls[c].A.shape| > 0 && |ls[c].B.shape| > 0
    {
      TailShapes(ls, c);
    }
    LengthsTotal(FactorsA(ls), HeadsA(ls));
    LengthsTotal(FactorsB(ls), SizesOf(ls));
    assert ls[0].A.shape[0 := Total(HeadsA(ls))] == [Total(HeadsA(ls))] + ls[0].A.shape[1..];
    assert ls[0].B.shape[0 := Total(SizesOf(ls))] == [Total(SizesOf(ls))] + ls[0].B.shape[1..];
  }

  lemma JoinedShapes(ls: seq<Lora>)
    requires Batched(ls)
    ensures ls[0].WellFormed() && Joined(ls).WellFormed()
    ensures Joined(ls).ALead() == [Total(HeadsA(ls))] + ls[0].ALead()[1..]
    ensures Joined(ls).BLead() == [Total(SizesOf(ls))] + ls[0].BLead()[1..]
    ensures Joined(ls).Rank() == ls[0].Rank()
    ensures Last(Joined(ls).A.shape) == Last(ls[0].A.shape)
    ensures Init(Joined(ls).B.shape) == [Total(SizesOf(ls))] + Init(ls[0].B.shape)[1..]
  {
    hide Cat, Prod, Total, HeadsA, SizesOf, FactorsA, FactorsB, Joinable;
    JoinedHeads(ls);
    TailShapes(ls, 0);
    HeadParts(ls[0].A.shape, Total(HeadsA(ls)));
    HeadParts(ls[0].B.shape, Total(SizesOf(ls)));
  }

  lemma ClampJoined(n: nat, m: nat, tail: Shape, lead: Index, off: nat)
    requires |lead| == |tail| + 1 && lead[0] < n && off < m
    ensures Clamp([n] + tail, lead) == [lead[0]] + Clamp(tail, lead[1..])
    ensures Clamp([m] + tail, lead[0 := off]) == [off] + Clamp(tail, lead[1..])
  {
    hide Clamp;
    assert lead == [lead[0]] + lead[1..] && lead[0 := off] == [off] + lead[1..];
    ClampCons(n, tail, lead[0], lead[1..]);
    ClampCons(m, tail, off, lead[1..]);
  }

  lemma ColumnClamps(ls: seq<Lora>, lead: Index)
    requires Batched(ls) && BatchesMatch(ls) && ls[0].WellFormed() && Joined(ls).WellFormed()
    requires |lead| == |ls[0].ALead()| && lead[0] < Total(SizesOf(ls))
    ensures var (c, off) := Locate(SizesOf(ls), lead[0]); var z := Clamp(ls[0].ALead()[1..], lead[1..]);
      && ls[c].WellFormed() && Clamp(Joined(ls).ALead(), lead) == [lead[0]] + z
      && Clamp(ls[c].ALead(), lead[0 := off]) == [off] + z
  {
    hide Cat, Locate, Clamp, Prod, Total, InBounds, Joinable;
    var sizes := SizesOf(ls);
    assert HeadsA(ls) == sizes;
    JoinedShapes(ls);
    var (c, off) := Locate(sizes, lead[0]);
    TailShapes(ls, c);
    HeadParts(ls[0].A.shape, sizes[c]);
    ClampJoined(Total(sizes), sizes[c], ls[0].ALead()[1..], lead, off);
  }

  lemma ColumnInBounds(l: Lora, n: nat, lead: Index, col: nat, k: nat)
    requires l.Coherent() && |l.A.shape| > 2 && InBounds([n] + l.BLead()[1..], lead)
    requires k < l.Rank() && col < Last(l.A.shape)
    ensures |lead| == |l.ALead()| && lead[0] < n
    ensures InBounds([n] + l.A.shape[1..], [lead[0]] + Clamp(l.ALead()[1..], lead[1..]) + [k] + [col])
  {
    hide Clamp, Prod;
    HeadParts(l.A.shape, n);
    forall i | 0 <= i < |lead| - 1
      ensures lead[1..][i] < l.BLead()[1..][i]
    {
      assert ([n] + l.BLead()[1..])[i + 1] == l.BLead()[1..][i];
      assert lead[1..][i] == lead[i + 1];
    }
    assert ([n] + l.BLead()[1..])[0] == n;
    ClampTail(l, lead[1..]);
  }

  lemma CatColumn(ls: seq<Lora>, lead: Index, col: nat, k: nat)
    requires Batched(ls) && BatchesMatch(ls) && ls[0].WellFormed() && Joined(ls).WellFormed()
    requires InBounds([Total(SizesOf(ls))] + ls[0].BLead()[1..], lead) && k < ls[0].Rank() && col < Last(ls[0].A.shape)
    ensures lead != [] && lead[0] < Total(SizesOf(ls))
    ensures var (c, off) := Locate(SizesOf(ls), lead[0]);
      ls[c].WellFormed() && ColumnOf(Joined(ls), lead, col)(k) == ColumnOf(ls[c], lead[0 := off], col)(k)
  {
    hide At, Cat, Locate, Clamp, Prod, InBounds, Total, Joinable;
    var sizes := SizesOf(ls);
    assert HeadsA(ls) == sizes;
    JoinedHeads(ls);
    assert ls[0].Coherent();
    ColumnInBounds(ls[0], Total(sizes), lead, col, k);
    ColumnClamps(ls, lead);
    var (c, off) := Locate(sizes, lead[0]);
    var full := [lead[0]] + Clamp(ls[0].ALead()[1..], lead[1..]) + [k] + [col];
    AtCatHead(FactorsA(ls), sizes, full);
    assert full[0 := off] == [off] + Clamp(ls[0].ALead()[1..], lead[1..]) + [k] + [col];
  }

  lemma ClampTail(l: Lora, rest: Index)
    requires l.Coherent() && |l.A.shape| > 2 && InBounds(l.BLead()[1..], rest)
    ensures InBounds(l.ALead()[1..], Clamp(l.ALead()[1..], rest))
  {
    hide Prod;
    ClampAt(l.ALead()[1..], rest);
    forall i | 0 <= i < |rest|
      ensures Clamp(l.ALead()[1..], rest)[i] < l.ALead()[1..][i]
    {
      assert l.ALead()[1..][i] == l.ALead()[i + 1] && l.BLead()[1..][i] == l.BLead()[i + 1];
    }
  }

  lemma CatBatchedEntry(ls: seq<Lora>, lead: Index, row: nat, col: nat)
    requires Batched(ls) && BatchesMatch(ls) && ls[0].WellFormed() && Joined(ls).WellFormed()
    requires InBounds([Total(SizesOf(ls))] + ls[0].BLead()[1..], lead)
    requires row < Last(Init(ls[0].B.shape)) && col < Last(ls[0].A.shape)
    ensures var (c, off) := Locate(SizesOf(ls), lead[0]);
      ls[c].WellFormed() && Entry(Joined(ls), lead + [row] + [col]) == Entry(ls[c], lead[0 := off] + [row] + [col])
  {
    hide At, Cat, Locate, Clamp, Entry, Prod;
    var (c, off) := Locate(SizesOf(ls), lead[0]);
    var l, r := ls[c], Joined(ls);
    TailShapes(ls, c);
    JoinedShapes(ls);
    HeadParts(ls[0].B.shape, Total(SizesOf(ls)));
    var rowIdx := lead + [row];
    forall k: nat | k < l.Rank()
      ensures RowOf(r, rowIdx)(k) == RowOf(l, lead[0 := off] + [row])(k)
      ensures ColumnOf(r, lead, col)(k) == ColumnOf(l, lead[0 := off], col)(k)
    {
      CatRow(ls, rowIdx, k);
      assert rowIdx[0 := off] == lead[0 := off] + [row];
      CatColumn(ls, lead, col, k);
    }
    assert Init(rowIdx) == lead && Init(lead[0 := off] + [row]) == lead[0 := off];
    SameEntry(r, l, rowIdx, lead[0 := off] + [row], col);
  }

  lemma DenseBatched(ls: seq<Lora>)
    requires Batched(ls) && BatchesMatch(ls)
    ensures Joined(ls).Coherent() && ls[0].WellFormed() && Joinable(DenseAll(ls), 0)
    ensures HeadSizes(DenseAll(ls), SizesOf(ls)) && Joined(ls).BLead() == [Total(SizesOf(ls))] + ls[0].BLead()[1..]
    ensures Joined(ls).Shape() == [Total(SizesOf(ls))] + DenseAll(ls)[0].shape[1..]
    ensures Last(Init(Joined(ls).B.shape)) == Last(Init(ls[0].B.shape))
      && Last(Joined(ls).A.shape) == Last(ls[0].A.shape)
  {
    hide Cat, Dense, Prod, Total, Joinable;
    assert HeadsA(ls) == SizesOf(ls);
    JoinedShapes(ls);
    forall c | 0 <= c < |ls|
      ensures Last(ls[c].A.shape) == Last(ls[0].A.shape)
    {
      TailShapes(ls, c);
    }
    DenseJoinable(ls);
    TailShapes(ls, 0);
    JoinedHeads(ls);
    HeadParts(ls[0].B.shape, Total(SizesOf(ls)));
    assert ls[0].Coherent();
    assert LeadFits(ls[0].ALead(), ls[0].BLead());
  }

  lemma CatBatchedAt(ls: seq<Lora>, idx: Index)
    requires Batched(ls) && BatchesMatch(ls) && Joined(ls).Coherent() && InBounds(Joined(ls).Shape(), idx)
    ensures Joinable(DenseAll(ls), 0)
    ensures At(Cat(DenseAll(ls), 0), idx) == At(Dense(Joined(ls)), idx)
  {
    hide At, Cat, Locate, Entry, Dense, Clamp, Prod, Total, Joinable, FactorsA, FactorsB, DenseAll;
    var r, ts, sizes := Joined(ls), DenseAll(ls), SizesOf(ls);
    DenseBatched(ls);
    SplitIndex(r, idx);
    var lead, row, col := Init(Init(idx)), Last(Init(idx)), Last(idx);
    assert lead[0] == idx[0];
    AtCatHead(ts, sizes, idx);
    AtDense(r, idx);
    CatBatchedEntry(ls, lead, row, col);
    var (c, off) := Locate(sizes, idx[0]);
    assert idx[0 := off] == lead[0 := off] + [row] + [col];
    assert ts[c].shape == ls[c].Shape();
    assert InBounds(ls[c].Shape(), idx[0 := off]) by {
      DenseTail(ls, c);
    }
    AtDense(ls[c], idx[0 := off]);
  }

  lemma DenseTail(ls: seq<Lora>, c: nat)
    requires Batched(ls) && c < |ls|
    ensures ls[c].WellFormed() && ls[c].Shape() == [SizesOf(ls)[c]] + DenseAll(ls)[0].shape[1..]
  {
    hide Dense, Prod, Joinable;
    TailShapes(ls, c);
    TailShapes(ls, 0);
    HeadParts(ls[0].B.shape, SizesOf(ls)[c]);
    assert ls[c].Shape() == Init(ls[c].B.shape) + [Last(ls[0].A.shape)];
  }

  /** Batched operands whose A's are not stretched along the joined axis. */
  lemma CatBatched(ls: seq<Lora>)
    requires Batched(ls) && BatchesMatch(ls)
    ensures Joined(ls).Coherent() && DenseCat(DenseAll(ls), Keyword(0)) == Ok(Dense(Joined(ls)))
  {
    hide At, Cat, Dense, Prod, Total, Joinable;
    var r, ts := Joined(ls), DenseAll(ls);
    DenseBatched(ls);
    LengthsTotal(ts, SizesOf(ls));
    assert ts[0].shape[0 := Total(SizesOf(ls))] == [Total(SizesOf(ls))] + ts[0].shape[1..];
    forall idx: Index | InBounds(r.Shape(), idx)
      ensures At(Cat(ts, 0), idx) == At(Dense(r), idx)
    {
      CatBatchedAt(ls, idx);
    }
    Extensional(Cat(ts, 0), Dense(r));
  }

  // ---- when stretched operands are joined ----

  lemma {:induction false} TotalsCompare(a: seq<nat>, b: seq<nat>)
    requires |a| == |b| && forall i :: 0 <= i < |a| ==> b[i] > 0 && (a[i] == 1 || a[i] == b[i])
    ensures |a| <= Total(a) <= Total(b)
    ensures Total(a) == Total(b) ==> a == b
  {
    if a != [] {
      TotalsCompare(a[1..], b[1..]);
      assert a == [a[0]] + a[1..] && b == [b[0]] + b[1..];
    }
  }

  /** The joined factors have a product, and it is the dense tensors joined by the same call. */
  ghost predicate CatRight(ls: seq<Lora>, dim: DimArg)
    requires AllCoherent(ls) && CatLora(ls, dim).Ok?
  {
    CatLora(ls, dim).value.Coherent() && DenseCat(DenseAll(ls), dim) == Ok(Dense(CatLora(ls, dim).value))
  }

  /** Concatenating along the first axis is right for matrices sharing A and for batches where none is stretched. */
  lemma CatEnough(ls: seq<Lora>, dim: DimArg)
    requires AllCoherent(ls) && CatLora(ls, dim).Ok?
    ensures ls != [] && CatLora(ls, dim).value.WellFormed()
    ensures AxisOf(dim, |ls[0].Shape()|) == Ok(0) && (|ls[0].A.shape| == 2 || BatchesMatch(ls)) ==> CatRight(ls, dim)
  {
    hide Cat, Dense, Prod, Total, HeadsA, SizesOf, BatchesMatch, Joinable;
    assert DenseAll(ls)[0].shape == ls[0].Shape();
    if |ls[0].A.shape| == 2 {
      CatMatrices(ls);
    } else {
      CatBatchedRight(ls, dim);
    }
  }

  lemma CatBatchedRight(ls: seq<Lora>, dim: DimArg)
    requires AllCoherent(ls) && CatLora(ls, dim).Ok? && |ls[0].A.shape| > 2
    ensures BatchesMatch(ls) && AxisOf(dim, |ls[0].Shape()|) == Ok(0) ==> CatRight(ls, dim)
  {
    hide Cat, Dense, Prod, Total, HeadsA, SizesOf, BatchesMatch, Joinable;
    if BatchesMatch(ls) {
      assert DenseAll(ls)[0].shape == ls[0].Shape();
      JoinedShapes(ls);
      CatBatched(ls);
    }
  }

  /** For batched operands, empty ones included: when the joined factors have a product at all. */
  lemma CatCoherent(ls: seq<Lora>)
    requires Batched(ls)
    ensures
      Joined(ls).WellFormed()
      && (Joined(ls).Coherent() <==> Total(HeadsA(ls)) == 1 || Total(HeadsA(ls)) == Total(SizesOf(ls)))
  {
    hide Cat, Prod, Total;
    JoinedShapes(ls);
    var r, l := Joined(ls), ls[0];
    assert l.Coherent();
    assert r.ALead()[0] == Total(HeadsA(ls)) && r.BLead()[0] == Total(SizesOf(ls));
    forall i | 0 < i < |r.ALead()|
      ensures r.ALead()[i] == l.ALead()[i] && r.BLead()[i] == l.BLead()[i]
    {
      assert r.ALead()[i] == r.ALead()[1..][i - 1] && r.BLead()[i] == r.BLead()[1..][i - 1];
    }
  }

  lemma HeadFits(ls: seq<Lora>, c: nat)
    requires Batched(ls) && c < |ls|
    ensures HeadsA(ls)[c] == 1 || HeadsA(ls)[c] == SizesOf(ls)[c]
  {
    hide Prod;
    assert ls[c].Coherent();
    TailShapes(ls, c);
    assert ls[c].ALead()[0] == HeadSize(ls[c].A) && ls[c].BLead()[0] == HeadSize(ls[c].B);
  }

  lemma CatStretched(ls: seq<Lora>)
    requires Batched(ls) && !BatchesMatch(ls) && |ls| > 1 && forall c :: 0 <= c < |ls| ==> HeadSize(ls[c].B) > 0
    ensures Joined(ls).WellFormed() && !Joined(ls).Coherent()
  {
    hide Cat, Prod;
    JoinedShapes(ls);
    forall c | 0 <= c < |ls|
      ensures HeadsA(ls)[c] == 1 || HeadsA(ls)[c] == SizesOf(ls)[c]
    {
      HeadFits(ls, c);
    }
    TotalsCompare(HeadsA(ls), SizesOf(ls));
    assert Joined(ls).ALead()[0] == Total(HeadsA(ls)) && Joined(ls).BLead()[0] == Total(SizesOf(ls));
  }
}
