/** Indexing and splitting the factors indexes and splits B·A. */
module LoraIndex {
  import opened Common
  import opened Tensors
  import opened LoraTensor
  import opened LoraProofs

  // ---- picking from both factors at once ----

  /** A pick of A's axis (size a) stands for a pick of B's axis (size b) under broadcasting. */
  predicate LeadPair(p: Pick, q: Pick, a: nat, b: nat) {
    (a == 1 || a == b)
    && match (p, q)
       case (One(i), One(j)) => i == if a == 1 then 0 else j
       case (Range(s, _, c), Range(_, _, d)) => (a == 1 && s == 0 && c == 1) || (a == b && p == q) || (d == 0 && c <= 1)
       case _ => false
  }

  predicate LeadPairs(ps: seq<Pick>, qs: seq<Pick>, a: Shape, b: Shape) {
    PicksFit(ps, a) && PicksFit(qs, b) && |a| == |b| && forall i :: 0 <= i < |a| ==> LeadPair(ps[i], qs[i], a[i], b[i])
  }

  lemma {:induction false} LeadShapes(ps: seq<Pick>, qs: seq<Pick>, a: Shape, b: Shape)
    requires LeadPairs(ps, qs, a, b)
    ensures LeadFits(PickedShape(ps), PickedShape(qs))
    decreases |ps|
  {
    if ps != [] {
      LeadShapes(Init(ps), Init(qs), Init(a), Init(b));
      assert LeadPair(Last(ps), Last(qs), Last(a), Last(b));
    }
  }

  lemma {:induction false} LeadSource(ps: seq<Pick>, qs: seq<Pick>, a: Shape, b: Shape, lead: Index)
    requires LeadPairs(ps, qs, a, b) && InBounds(PickedShape(qs), lead)
    ensures |PickedShape(ps)| == |lead|
    ensures Source(ps, Clamp(PickedShape(ps), lead)) == Clamp(a, Source(qs, lead))
    decreases |ps|
  {
    hide Source, Clamp, PickedShape, Nth;
    LeadShapes(ps, qs, a, b);
    if ps == [] {
      LeadSourceNone(lead);
    } else {
      var p, q := Last(ps), Last(qs);
      assert ps == Init(ps) + [p] && qs == Init(qs) + [q] && a == Init(a) + [Last(a)];
      assert LeadPair(p, q, Last(a), Last(b));
      LeadShapes(Init(ps), Init(qs), Init(a), Init(b));
      if p.One? {
        SourceOne(Init(ps), p, Clamp(PickedShape(ps), lead));
        SourceOne(Init(qs), q, lead);
        LeadSource(Init(ps), Init(qs), Init(a), Init(b), lead);
        SourceInBounds(Init(qs), Init(b), lead);
        ClampSnoc(Init(a), Last(a), Source(Init(qs), lead), q.pos);
      } else {
        SourceSnoc(Init(qs), q, [], 0);
        assert lead == Init(lead) + [Last(lead)];
        LeadSource(Init(ps), Init(qs), Init(a), Init(b), Init(lead));
        SourceInBounds(Init(qs), Init(b), Init(lead));
        LeadSourceSnoc(Init(ps), Init(qs), Init(a), Init(lead), p, q, Last(a), Last(b), Last(lead));
      }
    }
  }

  lemma LeadSourceNone(lead: Index)
    requires InBounds(PickedShape([]), lead)
    ensures Source([], Clamp(PickedShape([]), lead)) == Clamp([], Source([], lead))
  {
  }

  lemma SourceOne(picks: seq<Pick>, p: Pick, idx: Index)
    requires p.One?
    ensures PickedShape(picks + [p]) == PickedShape(picks)
    ensures Source(picks + [p], idx) == Source(picks, idx) + [p.pos]
  {
    assert Init(picks + [p]) == picks;
  }

  lemma LeadSourceSnoc(ps: seq<Pick>, qs: seq<Pick>, a: Shape, lead: Index, p: Pick, q: Pick, x: nat, y: nat, j: nat)
    requires p.Range? && LeadPair(p, q, x, y) && PickFits(p, x) && PickFits(q, y) && j < q.count
    requires |PickedShape(ps)| == |lead| && |a| == |Source(qs, lead)|
    requires Source(ps, Clamp(PickedShape(ps), lead)) == Clamp(a, Source(qs, lead))
    ensures Source(ps + [p], Clamp(PickedShape(ps + [p]), lead + [j])) == Clamp(a + [x], Source(qs + [q], lead + [j]))
  {
    hide Source, Clamp, PickedShape, Nth;
    var i := if p.count == 1 then 0 else j;
    SourceSnoc(ps, p, Clamp(PickedShape(ps), lead), i);
    SourceSnoc(qs, q, lead, j);
    ClampSnoc(PickedShape(ps), p.count, lead, j);
    ClampSnoc(a, x, Source(qs, lead), Nth(q, j));
    NthClamped(p, q, x, y, j);
  }

  lemma NthClamped(p: Pick, q: Pick, x: nat, y: nat, j: nat)
    requires p.Range? && LeadPair(p, q, x, y) && PickFits(p, x) && PickFits(q, y) && j < q.count
    ensures Nth(p, if p.count == 1 then 0 else j) == if x == 1 then 0 else Nth(q, j)
  {
    InRange(q, j, y);
    if p.count == 1 {
      assert p.step * 0 == 0;
    }
  }

  lemma SourceSnoc(picks: seq<Pick>, p: Pick, idx: Index, j: nat)
    requires p.Range?
    ensures PickedShape(picks + [p]) == PickedShape(picks) + [p.count]
    ensures Source(picks + [p], idx + [j]) == Source(picks, idx) + [Nth(p, j)]
  {
    assert Init(picks + [p]) == picks && Init(idx + [j]) == idx;
  }

  /** The same picks applied to the row and batch axes of B and to the column and batch axes of A. */
  function TakeLora(l: Lora, ps: seq<Pick>, qs: seq<Pick>, row: Pick, col: Pick): Lora
    requires l.WellFormed()
  {
    Lora(Take(l.A, ps + [Full(l.Rank())] + [col]), Take(l.B, qs + [row] + [Full(l.Rank())]))
  }

  lemma AtTakeTwo(t: Tensor, picks: seq<Pick>, p: Pick, q: Pick, idx: Index, i: nat, j: nat)
    requires p.Range? && q.Range? && InBounds(PickedShape(picks), idx) && i < p.count && j < q.count
    ensures InBounds(PickedShape(picks + [p] + [q]), idx + [i] + [j])
    ensures At(Take(t, picks + [p] + [q]), idx + [i] + [j])
         == At(t, Source(picks, idx) + [Nth(p, i)] + [Nth(q, j)])
  {
    hide Take, Source, PickedShape, Nth, At;
    SourceSnoc(picks, p, idx, i);
    SourceSnoc(picks + [p], q, idx + [i], j);
    AtTake(t, picks + [p] + [q], idx + [i] + [j]);
  }

  lemma TakeShapes(l: Lora, ps: seq<Pick>, qs: seq<Pick>, row: Pick, col: Pick)
    requires l.WellFormed() && row.Range? && col.Range? && LeadPairs(ps, qs, l.ALead(), l.BLead())
    ensures var r := TakeLora(l, ps, qs, row, col);
      && r.Coherent() && r.Rank() == l.Rank() && r.ALead() == PickedShape(ps) && r.BLead() == PickedShape(qs)
      && r.Shape() == PickedShape(qs + [row] + [col])
  {
    hide Take;
    var r := TakeLora(l, ps, qs, row, col);
    SourceSnoc(ps, Full(l.Rank()), [], 0);
    SourceSnoc(ps + [Full(l.Rank())], col, [], 0);
    SourceSnoc(qs, row, [], 0);
    SourceSnoc(qs + [row], Full(l.Rank()), [], 0);
    SourceSnoc(qs + [row], col, [], 0);
    LeadShapes(ps, qs, l.ALead(), l.BLead());
    assert Init(r.A.shape) == PickedShape(ps) + [l.Rank()] && Init(r.B.shape) == PickedShape(qs) + [row.count];
  }

  lemma TakeTerms(l: Lora, ps: seq<Pick>, qs: seq<Pick>, row: Pick, col: Pick, lead: Index, i: nat, j: nat, k: nat)
    requires l.WellFormed() && row.Range? && col.Range? && LeadPairs(ps, qs, l.ALead(), l.BLead())
    requires InBounds(PickedShape(qs), lead) && i < row.count && j < col.count && k < l.Rank()
    ensures TakeLora(l, ps, qs, row, col).WellFormed()
    ensures var r := TakeLora(l, ps, qs, row, col);
      && RowOf(r, lead + [i])(k) == RowOf(l, Source(qs, lead) + [Nth(row, i)])(k)
      && ColumnOf(r, lead, j)(k) == ColumnOf(l, Source(qs, lead), Nth(col, j))(k)
  {
    hide Take, Prod, Source, PickedShape, At;
    var r := TakeLora(l, ps, qs, row, col);
    TakeShapes(l, ps, qs, row, col);
    LeadSource(ps, qs, l.ALead(), l.BLead(), lead);
    ClampLead(r, lead);
    AtTakeTwo(l.B, qs, row, Full(l.Rank()), lead, i, k);
    AtTakeTwo(l.A, ps, Full(l.Rank()), col, Clamp(r.ALead(), lead), k, j);
    assert Nth(Full(l.Rank()), k) == k;
  }

  lemma TakeEntry(l: Lora, ps: seq<Pick>, qs: seq<Pick>, row: Pick, col: Pick, lead: Index, i: nat, j: nat)
    requires l.WellFormed() && row.Range? && col.Range? && LeadPairs(ps, qs, l.ALead(), l.BLead())
    requires InBounds(PickedShape(qs), lead) && i < row.count && j < col.count
    ensures TakeLora(l, ps, qs, row, col).WellFormed()
    ensures Entry(TakeLora(l, ps, qs, row, col), lead + [i] + [j])
         == Entry(l, Source(qs, lead) + [Nth(row, i)] + [Nth(col, j)])
  {
    hide Take, Prod, Nth, Source, PickedShape, At, Entry;
    var r := TakeLora(l, ps, qs, row, col);
    TakeShapes(l, ps, qs, row, col);
    var src, si, sj := Source(qs, lead), Nth(row, i), Nth(col, j);
    forall k: nat | k < l.Rank()
      ensures RowOf(r, lead + [i])(k) == RowOf(l, src + [si])(k)
      ensures ColumnOf(r, lead, j)(k) == ColumnOf(l, src, sj)(k)
    {
      TakeTerms(l, ps, qs, row, col, lead, i, j, k);
    }
    DotCong(l.Rank(), RowOf(r, lead + [i]), ColumnOf(r, lead, j), RowOf(l, src + [si]), ColumnOf(l, src, sj));
    EntryAt(r, lead, i, j);
    EntryAt(l, src, si, sj);
  }

  lemma EntryAt(l: Lora, lead: Index, i: nat, j: nat)
    requires l.WellFormed()
    ensures Entry(l, lead + [i] + [j]) == Dot(l.Rank(), RowOf(l, lead + [i]), ColumnOf(l, lead, j))
  {
    assert Init(lead + [i] + [j]) == lead + [i] && Init(lead + [i]) == lead;
  }

  /** Picking from the factors is picking from B·A. */
  lemma TakeCommutes(l: Lora, ps: seq<Pick>, qs: seq<Pick>, row: Pick, col: Pick)
    requires l.Coherent() && row.Range? && col.Range? && LeadPairs(ps, qs, l.ALead(), l.BLead())
    requires PickFits(row, Last(Init(l.B.shape))) && PickFits(col, Last(l.A.shape))
    ensures TakeLora(l, ps, qs, row, col).Coherent() && TakeLora(l, ps, qs, row, col).Rank() == l.Rank()
    ensures Take(Dense(l), qs + [row] + [col]) == Dense(TakeLora(l, ps, qs, row, col))
  {
    hide Take, Prod, TakeLora, Entry;
    var r, picks := TakeLora(l, ps, qs, row, col), qs + [row] + [col];
    TakeShapes(l, ps, qs, row, col);
    assert PicksFit(picks, l.Shape());
    var t := Take(Dense(l), picks);
    forall idx: Index | InBounds(t.shape, idx)
      ensures At(t, idx) == At(Dense(r), idx)
    {
      SplitIndex(r, idx);
      var lead, i, j := Init(Init(idx)), Last(Init(idx)), Last(idx);
      SourceSnoc(qs, row, lead, i);
      SourceSnoc(qs + [row], col, lead + [i], j);
      AtTake(Dense(l), picks, idx);
      SourceInBounds(picks, l.Shape(), idx);
      AtDense(l, Source(picks, idx));
      AtDense(r, idx);
      TakeEntry(l, ps, qs, row, col, lead, i, j);
    }
    Extensional(t, Dense(r));
  }

  // ---- one axis picked, the others whole ----

  lemma {:induction false} SourceFulls(shape: Shape, idx: Index)
    requires InBounds(shape, idx)
    ensures PickedShape(Fulls(shape)) == shape && Source(Fulls(shape), idx) == idx
    decreases |shape|
  {
    hide PickedShape, Prod;
    FullsShape(shape);
    if shape != [] {
      SourceFulls(Init(shape), Init(idx));
      assert Fulls(shape) == Fulls(Init(shape)) + [Full(Last(shape))];
      SourceSnoc(Fulls(Init(shape)), Full(Last(shape)), Init(idx), Last(idx));
      assert idx == Init(idx) + [Nth(Full(Last(shape)), Last(idx))];
    }
  }

  lemma {:induction false} FullsShape(shape: Shape)
    ensures PickedShape(Fulls(shape)) == shape
    decreases |shape|
  {
    if shape != [] {
      FullsShape(Init(shape));
      assert Fulls(shape) == Fulls(Init(shape)) + [Full(Last(shape))];
      SourceSnoc(Fulls(Init(shape)), Full(Last(shape)), [], 0);
    }
  }

  lemma TakeFulls(t: Tensor)
    requires t.Valid()
    ensures Take(t, Fulls(t.shape)) == t
  {
    hide Take;
    FullsShape(t.shape);
    forall idx: Index | InBounds(t.shape, idx)
      ensures At(Take(t, Fulls(t.shape)), idx) == At(t, idx)
    {
      SourceFulls(t.shape, idx);
      AtTake(t, Fulls(t.shape), idx);
    }
    Extensional(Take(t, Fulls(t.shape)), t);
  }

  function TakeAt(t: Tensor, d: nat, p: Pick): (r: Tensor)
    requires d < |t.shape|
    ensures r.Valid()
  {
    Take(t, Fulls(t.shape)[d := p])
  }

  lemma FullsParts(l: Lora)
    requires l.WellFormed()
    ensures Fulls(l.A.shape) == Fulls(l.ALead()) + [Full(l.Rank())] + [Full(Last(l.A.shape))]
    ensures Fulls(l.B.shape) == Fulls(l.BLead()) + [Full(Last(Init(l.B.shape)))] + [Full(l.Rank())]
    ensures Fulls(l.Shape()) == Fulls(l.BLead()) + [Full(Last(Init(l.B.shape)))] + [Full(Last(l.A.shape))]
  {
  }

  lemma FullLeads(l: Lora)
    requires l.Coherent()
    ensures LeadPairs(Fulls(l.ALead()), Fulls(l.BLead()), l.ALead(), l.BLead())
  {
    assert forall n: nat :: PickFits(Full(n), n);
  }

  /** A batch axis picked in both factors. */
  lemma LeadAt(l: Lora, d: nat, p: Pick, q: Pick)
    requires l.Coherent() && d < |l.BLead()| && LeadPair(p, q, l.ALead()[d], l.BLead()[d])
    requires PickFits(p, l.ALead()[d]) && PickFits(q, l.BLead()[d])
    ensures var r := Lora(TakeAt(l.A, d, p), TakeAt(l.B, d, q));
      r.Coherent() && r.Rank() == l.Rank() && TakeAt(Dense(l), d, q) == Dense(r)
  {
    hide Take, PickedShape;
    FullsParts(l);
    FullLeads(l);
    var ps, qs := Fulls(l.ALead())[d := p], Fulls(l.BLead())[d := q];
    var row, col := Full(Last(Init(l.B.shape))), Full(Last(l.A.shape));
    assert LeadPairs(ps, qs, l.ALead(), l.BLead());
    assert Fulls(l.A.shape)[d := p] == ps + [Full(l.Rank())] + [col];
    assert Fulls(l.B.shape)[d := q] == qs + [row] + [Full(l.Rank())];
    assert Fulls(l.Shape())[d := q] == qs + [row] + [col];
    TakeCommutes(l, ps, qs, row, col);
  }

  lemma SetSecondLast<T>(s: seq<T>, x: T, y: T, z: T)
    ensures (s + [x] + [y])[|s| := z] == s + [z] + [y]
    ensures (s + [x] + [y])[|s| + 1 := z] == s + [x] + [z]
  {
  }

  lemma RowTake(l: Lora, q: Pick)
    requires l.Coherent() && q.Range?
    ensures Take(l.B, Fulls(l.BLead()) + [q] + [Full(l.Rank())]) == TakeAt(l.B, |l.B.shape| - 2, q)
    ensures Take(Dense(l), Fulls(l.BLead()) + [q] + [Full(Last(l.A.shape))]) == TakeAt(Dense(l), |l.B.shape| - 2, q)
  {
    hide Take, Fulls, Prod;
    FullsParts(l);
    var qs, row, col := Fulls(l.BLead()), Full(Last(Init(l.B.shape))), Full(Last(l.A.shape));
    SetSecondLast(qs, row, Full(l.Rank()), q);
    SetSecondLast(qs, row, col, q);
  }

  lemma WholeA(l: Lora)
    requires l.Coherent()
    ensures Take(l.A, Fulls(l.ALead()) + [Full(l.Rank())] + [Full(Last(l.A.shape))]) == l.A
  {
    hide Take, Fulls, Prod;
    FullsParts(l);
    TakeFulls(l.A);
  }

  lemma ColumnTake(l: Lora, p: Pick)
    requires l.Coherent() && p.Range?
    ensures Take(l.A, Fulls(l.ALead()) + [Full(l.Rank())] + [p]) == TakeAt(l.A, |l.A.shape| - 1, p)
    ensures Take(Dense(l), Fulls(l.BLead()) + [Full(Last(Init(l.B.shape)))] + [p])
      == TakeAt(Dense(l), |l.A.shape| - 1, p)
    ensures Take(l.B, Fulls(l.BLead()) + [Full(Last(Init(l.B.shape)))] + [Full(l.Rank())]) == l.B
  {
    hide Take, Fulls, Prod;
    FullsParts(l);
    var ps, qs, row, col := Fulls(l.ALead()), Fulls(l.BLead()), Full(Last(Init(l.B.shape))), Full(Last(l.A.shape));
    SetSecondLast(ps, Full(l.Rank()), col, p);
    SetSecondLast(qs, row, col, p);
    TakeFulls(l.B);
  }

  lemma FullFits(n: nat)
    ensures PickFits(Full(n), n)
  {
  }

  /** The row axis picked: only B changes. */
  lemma RowAt(l: Lora, q: Pick)
    requires l.Coherent() && q.Range? && PickFits(q, Last(Init(l.B.shape)))
    ensures var r := Lora(l.A, TakeAt(l.B, |l.B.shape| - 2, q));
      r.Coherent() && r.Rank() == l.Rank() && TakeAt(Dense(l), |l.B.shape| - 2, q) == Dense(r)
  {
    hide Take, TakeAt, PickedShape, Fulls, Prod;
    RowTake(l, q);
    WholeA(l);
    FullLeads(l);
    FullFits(Last(l.A.shape));
    TakeCommutes(l, Fulls(l.ALead()), Fulls(l.BLead()), q, Full(Last(l.A.shape)));
  }

  /** The column axis picked: only A changes. */
  lemma ColumnAt(l: Lora, p: Pick)
    requires l.Coherent() && p.Range? && PickFits(p, Last(l.A.shape))
    ensures var r := Lora(TakeAt(l.A, |l.A.shape| - 1, p), l.B);
      r.Coherent() && r.Rank() == l.Rank() && TakeAt(Dense(l), |l.A.shape| - 1, p) == Dense(r)
  {
    hide Take, TakeAt, PickedShape, Fulls, Prod;
    ColumnTake(l, p);
    FullLeads(l);
    FullFits(Last(Init(l.B.shape)));
    TakeCommutes(l, Fulls(l.ALead()), Fulls(l.BLead()), Full(Last(Init(l.B.shape))), p);
  }

  /** A batch axis picked in B only, A's being broadcast. */
  lemma BroadcastAt(l: Lora, d: nat, q: Pick)
    requires l.Coherent() && d < |l.BLead()| && l.A.shape[d] == 1 && q.Range? && PickFits(q, l.BLead()[d])
    ensures
      var r := Lora(l.A, TakeAt(l.B, d, q));
      r.Coherent() && r.Rank() == l.Rank() && TakeAt(Dense(l), d, q) == Dense(r)
  {
    hide Take, PickedShape;
    LeadAt(l, d, Full(1), q);
    assert Fulls(l.A.shape)[d := Full(1)] == Fulls(l.A.shape);
    TakeFulls(l.A);
  }
}
