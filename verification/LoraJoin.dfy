/** Scaling, stacking and concatenating the factors do the same to B·A. */
module LoraJoin {
  import opened Common
  import opened Tensors
  import opened LoraTensor
  import opened LoraProofs
  import opened LoraIndex

  // ---- scaling ----

  lemma {:induction false} BroadcastOver(s: Shape, u: Shape)
    requires Broadcastable(s, u) && |u| <= |s|
    ensures |Broadcast(s, u)| == |s|
    ensures forall i :: 0 <= i < |s| ==> s[i] == 1 || Broadcast(s, u)[i] == s[i]
    decreases |s|
  {
    if s != [] && u != [] {
      BroadcastOver(Init(s), Init(u));
    }
  }

  lemma BroadcastSnoc(s: Shape, x: nat, u: Shape, y: nat)
    ensures Broadcastable(s + [x], u + [y]) <==> (x == y || x == 1 || y == 1) && Broadcastable(s, u)
    ensures Broadcastable(s + [x], u + [y]) ==>
      Broadcast(s + [x], u + [y]) == Broadcast(s, u) + [if x == 1 then y else x]
  {
    assert Init(s + [x]) == s && Init(u + [y]) == u;
  }

  lemma {:induction false} BroadcastLonger(s: Shape, u: Shape)
    requires Broadcastable(s, u)
    ensures |Broadcast(s, u)| == if |s| >= |u| then |s| else |u|
    decreases |s|
  {
    if s != [] && u != [] {
      BroadcastLonger(Init(s), Init(u));
    }
  }

  lemma {:induction false} ClampBroadcast(s: Shape, u: Shape, idx: Index)
    requires Broadcastable(s, u) && |u| <= |s| && InBounds(Broadcast(s, u), idx)
    ensures InBounds(s, Clamp(s, idx))
  {
    BroadcastOver(s, u);
    ClampAt(s, idx);
  }

  lemma ClampTwice(a: Shape, b: Shape, lead: Index)
    requires LeadFits(a, b) && |lead| == |b|
    ensures Clamp(a, Clamp(b, lead)) == Clamp(a, lead)
  {
    ClampAt(b, lead);
    ClampAt(a, lead);
    ClampAt(a, Clamp(b, lead));
  }

  /** The multiplier's element at an index does not depend on the last entry. */
  function ScaleOf(o: Tensor, rowIdx: Index): real {
    At(o, Clamp(o.shape, rowIdx + [0]))
  }

  lemma ScaleIgnoresLast(o: Tensor, rowIdx: Index, k: nat)
    requires o.shape == [] || Last(o.shape) == 1
    ensures At(o, Clamp(o.shape, rowIdx + [k])) == ScaleOf(o, rowIdx)
  {
    if o.shape != [] {
      assert Init(rowIdx + [k]) == rowIdx && Init(rowIdx + [0]) == rowIdx;
    }
  }

  lemma ScaledShapes(l: Lora, o: Tensor)
    requires l.Coherent() && (o.shape == [] || Last(o.shape) == 1) && |o.shape| <= |l.B.shape|
    requires Broadcastable(l.B.shape, o.shape)
    ensures Broadcastable(l.Shape(), o.shape)
    ensures var bs, ds := Broadcast(l.B.shape, o.shape), Broadcast(l.Shape(), o.shape);
      && |bs| == |ds| == |l.B.shape| && Last(bs) == l.Rank() && Last(ds) == Last(l.A.shape) && Init(bs) == Init(ds)
      && forall i :: 0 <= i < |l.BLead()| ==> l.BLead()[i] == 1 || bs[i] == l.BLead()[i]
  {
    hide Broadcast, Broadcastable;
    Shapes(l);
    var rows := Init(l.B.shape);
    assert l.Shape() == rows + [Last(l.A.shape)];
    if o.shape == [] {
      BroadcastNone(l.B.shape);
      BroadcastNone(l.Shape());
    } else {
      assert o.shape == Init(o.shape) + [1];
      BroadcastSnoc(rows, l.Rank(), Init(o.shape), 1);
      BroadcastSnoc(rows, Last(l.A.shape), Init(o.shape), 1);
      BroadcastOver(rows, Init(o.shape));
    }
  }

  lemma BroadcastNone(s: Shape)
    ensures Broadcastable(s, []) && Broadcast(s, []) == s
  {
  }

  lemma ScaleTerm(l: Lora, rowIdx: Index, k: nat)
    requires l.WellFormed() && |rowIdx| == |l.B.shape| - 1 && k < l.Rank()
    ensures Clamp(l.B.shape, rowIdx + [k]) == Clamp(Init(l.B.shape), rowIdx) + [k]
  {
    hide Clamp, Prod, Init;
    Shapes(l);
    ClampSnoc(Init(l.B.shape), l.Rank(), rowIdx, k);
  }

  lemma ScaleIndex(l: Lora, rowIdx: Index, col: nat)
    requires l.Coherent() && |rowIdx| == |l.B.shape| - 1 && col < Last(l.A.shape)
    ensures var src := Clamp(Init(l.B.shape), rowIdx);
      && Clamp(l.Shape(), rowIdx + [col]) == src + [col] && |src| == |rowIdx|
      && Init(src) == Clamp(l.BLead(), Init(rowIdx))
      && Clamp(l.ALead(), Init(src)) == Clamp(l.ALead(), Init(rowIdx))
  {
    hide Clamp;
    Shapes(l);
    var lead := Init(rowIdx);
    assert rowIdx == lead + [Last(rowIdx)];
    assert Init(l.B.shape) == l.BLead() + [Last(Init(l.B.shape))];
    ClampSnoc(Init(l.B.shape), Last(l.A.shape), rowIdx, col);
    ClampSnoc(l.BLead(), Last(Init(l.B.shape)), lead, Last(rowIdx));
    ClampAt(Init(l.B.shape), rowIdx);
    ClampTwice(l.ALead(), l.BLead(), lead);
  }

  lemma ScaleRow(l: Lora, r: Lora, o: Tensor, rowIdx: Index, k: nat)
    requires l.Coherent() && Broadcastable(l.B.shape, o.shape) && (o.shape == [] || Last(o.shape) == 1)
    requires r == Lora(l.A, Mul(l.B, o).value)
    requires |rowIdx| == |l.B.shape| - 1 == |Broadcast(l.B.shape, o.shape)| - 1
    requires InBounds(Init(Broadcast(l.B.shape, o.shape)), rowIdx) && Last(Broadcast(l.B.shape, o.shape)) == l.Rank()
    requires k < l.Rank()
    ensures RowOf(r, rowIdx)(k) == RowOf(l, Clamp(Init(l.B.shape), rowIdx))(k) * ScaleOf(o, rowIdx)
  {
    hide At, Broadcast, Broadcastable, Mul, Clamp, ScaleOf, Prod, Ravel;
    assert Broadcast(l.B.shape, o.shape) == Init(Broadcast(l.B.shape, o.shape)) + [l.Rank()];
    AtMul(l.B, o, rowIdx + [k]);
    ScaleTerm(l, rowIdx, k);
    ScaleIgnoresLast(o, rowIdx, k);
  }

  lemma EntryOf(l: Lora, rowIdx: Index, col: nat)
    requires l.WellFormed() && rowIdx != []
    ensures Entry(l, rowIdx + [col]) == Dot(l.Rank(), RowOf(l, rowIdx), ColumnOf(l, Init(rowIdx), col))
  {
    assert Init(rowIdx + [col]) == rowIdx;
  }

  lemma ScaleEntry(l: Lora, r: Lora, o: Tensor, rowIdx: Index, col: nat)
    requires l.Coherent() && Broadcastable(l.B.shape, o.shape) && (o.shape == [] || Last(o.shape) == 1)
    requires r == Lora(l.A, Mul(l.B, o).value) && r.WellFormed() && r.Rank() == l.Rank()
    requires |rowIdx| == |l.B.shape| - 1 == |Broadcast(l.B.shape, o.shape)| - 1
    requires InBounds(Init(Broadcast(l.B.shape, o.shape)), rowIdx) && Last(Broadcast(l.B.shape, o.shape)) == l.Rank()
    requires col < Last(l.A.shape)
    ensures Entry(r, rowIdx + [col]) == Entry(l, Clamp(Init(l.B.shape), rowIdx) + [col]) * ScaleOf(o, rowIdx)
  {
    hide At, Broadcast, Broadcastable, Mul, Clamp, ScaleOf, Entry, Dot, Ravel, Prod;
    var lead, src, c := Init(rowIdx), Clamp(Init(l.B.shape), rowIdx), ScaleOf(o, rowIdx);
    ScaleIndex(l, rowIdx, col);
    forall k: nat | k < l.Rank()
      ensures RowOf(r, rowIdx)(k) == RowOf(l, src)(k) * c
    {
      ScaleRow(l, r, o, rowIdx, k);
    }
    DotScale(l.Rank(), RowOf(l, src), ColumnOf(l, Init(src), col), RowOf(r, rowIdx), c);
    DotCong(l.Rank(), RowOf(r, rowIdx), ColumnOf(r, lead, col), RowOf(r, rowIdx), ColumnOf(l, Init(src), col));
    EntryOf(r, rowIdx, col);
    EntryOf(l, src, col);
  }

  /** Multiplying the output side of the factors multiplies B·A, by a number or by a column that broadcasts. */
  lemma ScaleCommutes(l: Lora, f: Factor)
    requires l.Coherent() && ScaleLora(l, f).Ok?
    ensures ScaleLora(l, f).value.Coherent() && ScaleLora(l, f).value.Rank() == l.Rank()
    ensures Mul(Dense(l), AsTensor(f)) == Ok(Dense(ScaleLora(l, f).value))
  {
    hide Dense, Entry, At, Broadcast, Broadcastable, Clamp;
    var o, r := AsTensor(f), ScaleLora(l, f).value;
    BroadcastLonger(l.B.shape, o.shape);
    ScaledShapes(l, o);
    var bs, ds := Broadcast(l.B.shape, o.shape), Broadcast(l.Shape(), o.shape);
    assert r.Shape() == ds;
    var t := Mul(Dense(l), o).value;
    forall idx: Index | InBounds(ds, idx)
      ensures At(t, idx) == At(Dense(r), idx)
    {
      AtMul(Dense(l), o, idx);
      AtDense(r, idx);
      ClampBroadcast(l.Shape(), o.shape, idx);
      AtDense(l, Clamp(l.Shape(), idx));
      var rowIdx, col := Init(idx), Last(idx);
      assert idx == rowIdx + [col];
      ScaleIndex(l, rowIdx, col);
      ScaleEntry(l, r, o, rowIdx, col);
      ScaleIgnoresLast(o, rowIdx, col);
    }
    Extensional(t, Dense(r));
  }
}
