/** Subscripting the factors subscripts B·A, exactly when the key meets a stated condition. */
module LoraKeys {
  import opened Common
  import opened Tensors
  import opened LoraTensor
  import opened LoraProofs
  import opened LoraIndex

  lemma ResolveColon(n: nat)
    ensures Resolve(COLON, n) == Ok(Full(n))
  {
  }

  /** One entry, the remaining axes whole. */
  lemma IndexFirst(t: Tensor, item: Item)
    requires t.shape != []
    ensures DenseIndex(t, [item]).Ok? <==> Resolve(item, t.shape[0]).Ok?
    ensures DenseIndex(t, [item]).Ok? ==> DenseIndex(t, [item]) == Ok(TakeAt(t, 0, Resolve(item, t.shape[0]).value))
  {
    hide Take, Resolve;
    var items := Pad([item], |t.shape|);
    assert items == [item] + Repeat(COLON, |t.shape| - 1);
    forall i | 0 < i < |t.shape|
      ensures Resolve(items[i], t.shape[i]) == Ok(Full(t.shape[i]))
    {
      ResolveColon(t.shape[i]);
    }
    if Resolves(items, t.shape).Ok? {
      assert Resolve(items[0], t.shape[0]) == Ok(Resolves(items, t.shape).value[0]);
      assert Resolves(items, t.shape).value == Fulls(t.shape)[0 := Resolve(item, t.shape[0]).value];
    }
  }

  lemma ShapeHead(l: Lora)
    requires l.WellFormed() && |l.Shape()| > 2
    ensures l.Shape()[0] == l.B.shape[0] == l.BLead()[0] && l.A.shape[0] == l.ALead()[0]
  {
  }

  /** An integer key, whenever the call returns. */
  lemma IntKeyCommutes(l: Lora, j: int)
    requires l.Coherent() && GetItem(l, IntKey(j)).Ok?
    ensures GetItem(l, IntKey(j)).value.Coherent()
    ensures DenseIndex(Dense(l), [Int(j)]) == Ok(Dense(GetItem(l, IntKey(j)).value))
  {
    hide Take, Dense, DenseIndex, Prod;
    ShapeHead(l);
    IndexFirst(l.A, Int(j));
    IndexFirst(l.B, Int(j));
    IndexFirst(Dense(l), Int(j));
    var p, q := Resolve(Int(j), l.A.shape[0]).value, Resolve(Int(j), l.B.shape[0]).value;
    LeadAt(l, 0, p, q);
  }

  /** The guard for a slice key: A is not stretched along the first axis, or the slice keeps its one entry. */
  predicate SliceSafe(l: Lora, s: Item)
    requires l.WellFormed() && Resolve(s, l.A.shape[0]).Ok? && Resolve(s, l.B.shape[0]).Ok?
    requires s.Slice?
  {
    |l.Shape()| == 2 || l.A.shape[0] == l.B.shape[0]
    || Resolve(s, l.A.shape[0]).value.count == 1
    || Resolve(s, l.B.shape[0]).value.count == 0
  }

  lemma SliceOfOne(s: Item)
    requires s.Slice? && Resolve(s, 1).Ok?
    ensures var p := Resolve(s, 1).value; p.count <= 1 && (p.count == 1 ==> p.start == 0)
  {
  }

  lemma TakeLeadShape(t: Tensor, p: Pick)
    requires |t.shape| > 0 && p.Range?
    ensures TakeAt(t, 0, p).shape == t.shape[0 := p.count]
  {
    hide Take;
    PickedHead(t.shape, p);
  }

  lemma {:induction false} PickedHead(shape: Shape, p: Pick)
    requires |shape| > 0 && p.Range?
    ensures PickedShape(Fulls(shape)[0 := p]) == shape[0 := p.count]
    decreases |shape|
  {
    var picks := Fulls(shape)[0 := p];
    if |shape| == 1 {
      assert picks == [] + [p];
      SourceSnoc([], p, [], 0);
    } else {
      PickedHead(Init(shape), p);
      assert Init(picks) == Fulls(Init(shape))[0 := p];
    }
  }

  /** A slice key works on the factors exactly when it does not separate a stretched A from B. */
  lemma SliceKeyCommutes(l: Lora, s: Item)
    requires l.Coherent() && s.Slice? && GetItem(l, SliceKey(s)).Ok?
    ensures Resolve(s, l.A.shape[0]).Ok? && Resolve(s, l.B.shape[0]).Ok?
    ensures SliceSafe(l, s) <==>
      GetItem(l, SliceKey(s)).value.Coherent()
      && DenseIndex(Dense(l), [s]) == Ok(Dense(GetItem(l, SliceKey(s)).value))
  {
    hide Take, Dense, DenseIndex, Prod;
    IndexFirst(l.A, s);
    IndexFirst(l.B, s);
    IndexFirst(Dense(l), s);
    assert Resolve(s, l.A.shape[0]).Ok?;
    var p, q := Resolve(s, l.A.shape[0]).value, Resolve(s, l.B.shape[0]).value;
    if |l.Shape()| == 2 {
      RowAt(l, q);
    } else {
      ShapeHead(l);
      if l.A.shape[0] == 1 {
        SliceOfOne(s);
      }
      if SliceSafe(l, s) {
        LeadAt(l, 0, p, q);
      } else {
        TakeLeadShape(l.A, p);
        TakeLeadShape(l.B, q);
        var r := GetItem(l, SliceKey(s)).value;
        assert r.ALead()[0] == p.count && r.BLead()[0] == q.count;
      }
    }
  }

  // ---- tuples ----

  /** Entry i of the key an axis of B takes whole, or stretches over A. */
  predicate LeadItemSafe(item: Item, a: nat, b: nat)
    requires Resolve(item, b).Ok?
  {
    item.Int? || a == 1 || Resolve(item, b).value.count == a
  }

  lemma WholeSlice(s: Item, n: nat)
    requires s.Slice? && Resolve(s, n).Ok? && Resolve(s, n).value.count == n > 1
    ensures Resolve(s, n) == Ok(Full(n))
  {
    var p := Resolve(s, n).value;
    assert PickFits(p, n);
    MulMono(2, p.step, n - 1);
  }

  lemma ModWrap(j: int, a: nat)
    requires 0 <= j + a < a + a
    ensures j % a == Wrap(j, a)
  {
    if j < 0 {
      DivisionUnique(0, j + a, a);
    } else {
      DivisionUnique(0, j, a);
    }
  }

  lemma LeadIntPair(j: int, a: nat, b: nat)
    requires (a == 1 || a == b) && Resolve(Int(j), b).Ok? && a > 0
    ensures Resolve(Int(j % a), a) == Ok(One(if a == 1 then 0 else Wrap(j, b)))
  {
    if a == b {
      ModWrap(j, a);
    }
  }

  lemma LeadItemPair(item: Item, a: nat, b: nat)
    requires item != Ellipsis && (a == 1 || a == b) && Resolve(item, b).Ok? && (item.Int? ==> a > 0)
    ensures var p := if item.Int? then Resolve(Int(item.j % a), a) else Resolve(COLON, a);
      && p.Ok? && PickFits(p.value, a) && (p.value.Range? ==> p.value.count == a)
      && (LeadItemSafe(item, a, b) ==> LeadPair(p.value, Resolve(item, b).value, a, b))
  {
    ResolveColon(a);
    if item.Int? {
      LeadIntPair(item.j, a, b);
    } else {
      hide Resolve;
      if LeadItemSafe(item, a, b) && a > 1 {
        WholeSlice(item, b);
      }
    }
  }

  /** The guard for a complete tuple key: two trailing slices, and no leading slice that separates A from B. */
  predicate TupleSafe(l: Lora, items: seq<Item>)
    requires l.WellFormed() && |items| == |l.Shape()|
    requires forall i :: 0 <= i < |l.BLead()| ==> Resolve(items[i], l.BLead()[i]).Ok?
  {
    Last(items).Slice? && Last(Init(items)).Slice?
    && forall i :: 0 <= i < |l.BLead()| ==> LeadItemSafe(items[i], l.ALead()[i], l.BLead()[i])
  }

  lemma {:induction false} LeadItemsAt(items: seq<Item>, shape: Shape)
    requires LeadItems(items, shape).Ok?
    ensures forall i :: 0 <= i < |items| && items[i].Int? ==> i < |shape| && shape[i] > 0
    ensures forall i :: 0 <= i < |items| ==>
      LeadItems(items, shape).value[i] == if items[i].Int? then Int(items[i].j % shape[i]) else COLON
    decreases |items|
  {
    if items != [] {
      var n := |items| - 1;
      LeadItemsAt(Init(items), shape);
      forall i | 0 <= i < |items|
        ensures items[i].Int? ==> i < |shape| && shape[i] > 0
        ensures LeadItems(items, shape).value[i] == if items[i].Int? then Int(items[i].j % shape[i]) else COLON
      {
        if i < n {
          assert items[i] == Init(items)[i];
          assert LeadItems(items, shape).value[i] == LeadItems(Init(items), shape).value[i];
        } else {
          assert items[i] == Last(items);
        }
      }
    }
  }

  lemma {:induction false} LeadItemsSucceed(items: seq<Item>, shape: Shape)
    requires |items| <= |shape| && forall i :: 0 <= i < |items| && items[i].Int? ==> shape[i] > 0
    ensures LeadItems(items, shape).Ok?
    decreases |items|
  {
    if items != [] {
      LeadItemsSucceed(Init(items), shape);
    }
  }

  lemma {:induction false} ResolvesParts(items: seq<Item>, p: Item, q: Item, shape: Shape, x: nat, y: nat)
    requires |items| == |shape|
    ensures var r := Resolves(items + [p] + [q], shape + [x] + [y]);
      && (r.Ok? <==> Resolves(items, shape).Ok? && Resolve(p, x).Ok? && Resolve(q, y).Ok?)
      && (r.Ok? ==> r.value == Resolves(items, shape).value + [Resolve(p, x).value] + [Resolve(q, y).value])
  {
    hide Resolve;
    assert Init(items + [p] + [q]) == items + [p] && Init(items + [p]) == items;
    assert Init(shape + [x] + [y]) == shape + [x] && Init(shape + [x]) == shape;
  }

  /** The picks of the batch axes on both sides agree entry by entry. */
  lemma LeadPicks(items: seq<Item>, a: Shape, b: Shape, rest: Shape)
    requires |items| == |a| && LeadFits(a, b) && Ellipsis !in items
    requires Resolves(items, b).Ok? && LeadItems(items, a + rest).Ok?
    ensures Resolves(LeadItems(items, a + rest).value, a).Ok?
    ensures var ps, qs := Resolves(LeadItems(items, a + rest).value, a).value, Resolves(items, b).value;
      && (forall i :: 0 <= i < |a| ==> (ps[i].Range? <==> items[i].Slice?) && (qs[i].Range? <==> items[i].Slice?))
      && (forall i :: 0 <= i < |a| && ps[i].Range? ==> ps[i].count == a[i])
      && ((forall i :: 0 <= i < |a| ==> LeadItemSafe(items[i], a[i], b[i])) ==> LeadPairs(ps, qs, a, b))
  {
    hide Resolve, LeadItems, LeadPair;
    LeadItemsAt(items, a + rest);
    var found := LeadItems(items, a + rest).value;
    forall i | 0 <= i < |a|
      ensures Resolve(found[i], a[i]).Ok? && Resolve(items[i], b[i]).Ok? && (items[i].Int? || items[i].Slice?)
      ensures Resolve(found[i], a[i]).value.Range? ==> Resolve(found[i], a[i]).value.count == a[i]
      ensures LeadItemSafe(items[i], a[i], b[i]) ==>
        LeadPair(Resolve(found[i], a[i]).value, Resolve(items[i], b[i]).value, a[i], b[i])
    {
      assert items[i] in items;
      assert (a + rest)[i] == a[i];
      LeadItemPair(items[i], a[i], b[i]);
    }
  }

  lemma {:induction false} LeadMismatch(ps: seq<Pick>, qs: seq<Pick>)
    requires |ps| == |qs| && forall i :: 0 <= i < |ps| ==> (ps[i].Range? <==> qs[i].Range?)
    ensures |PickedShape(ps)| == |PickedShape(qs)|
    ensures LeadFits(PickedShape(ps), PickedShape(qs)) ==>
      forall i :: 0 <= i < |ps| && ps[i].Range? ==> ps[i].count == 1 || ps[i].count == qs[i].count
    decreases |ps|
  {
    if ps != [] {
      LeadMismatch(Init(ps), Init(qs));
      assert ps == Init(ps) + [Last(ps)] && qs == Init(qs) + [Last(qs)];
      var s, u := PickedShape(ps), PickedShape(qs);
      if Last(ps).One? {
        assert s == PickedShape(Init(ps)) && u == PickedShape(Init(qs));
      } else {
        var i, j := PickedShape(Init(ps)), PickedShape(Init(qs));
        assert s == i + [Last(ps).count] && u == j + [Last(qs).count];
        if LeadFits(s, u) {
          assert s[|i|] == Last(ps).count && u[|i|] == Last(qs).count;
          assert forall k :: 0 <= k < |i| ==> s[k] == i[k] && u[k] == j[k];
        }
      }
    }
  }

  /** The picks behind a successful complete key. */
  lemma TupleParts(l: Lora, items: seq<Item>)
    requires l.Coherent() && |items| == |l.Shape()| && Ellipsis !in items && GetTuple(l, items).Ok?
    ensures var lead, row, col := Init(Init(items)), Last(Init(items)), Last(items);
      && LeadItems(lead, l.A.shape).Ok? && Resolves(LeadItems(lead, l.A.shape).value, l.ALead()).Ok?
      && Resolves(lead, l.BLead()).Ok? && Resolve(row, Last(Init(l.B.shape))).Ok? && Resolve(col, Last(l.A.shape)).Ok?
      && GetTuple(l, items).value
         == TakeLora(l, Resolves(LeadItems(lead, l.A.shape).value, l.ALead()).value, Resolves(lead, l.BLead()).value,
                     Resolve(row, Last(Init(l.B.shape))).value, Resolve(col, Last(l.A.shape)).value)
      && DenseIndex(Dense(l), items) == Ok(Take(Dense(l), Resolves(lead, l.BLead()).value
           + [Resolve(row, Last(Init(l.B.shape))).value] + [Resolve(col, Last(l.A.shape)).value]))
  {
    hide Take, Dense, Resolve, Resolves, LeadItems, Prod;
    var lead, row, col := Init(Init(items)), Last(Init(items)), Last(items);
    var found := LeadItems(lead, l.A.shape).value;
    assert items == lead + [row] + [col] && Init(items) == lead + [row];
    Shapes(l);
    ResolveColon(l.Rank());
    ResolvesParts(found, COLON, col, l.ALead(), l.Rank(), Last(l.A.shape));
    assert Pad(lead + [row], |l.B.shape|) == lead + [row] + [COLON];
    ResolvesParts(lead, row, COLON, l.BLead(), Last(Init(l.B.shape)), l.Rank());
    ResolvesParts(lead, row, col, l.BLead(), Last(Init(l.B.shape)), Last(l.A.shape));
  }

  lemma PickedLengths(ps: seq<Pick>, p: Pick, q: Pick)
    ensures |PickedShape(ps + [p] + [q])| == |PickedShape(ps)| + (if p.One? then 0 else 1) + (if q.One? then 0 else 1)
    ensures p.Range? && q.Range? ==> PickedShape(ps + [p] + [q]) == PickedShape(ps) + [p.count] + [q.count]
  {
    assert Init(ps + [p] + [q]) == ps + [p] && Init(ps + [p]) == ps;
  }

  /** Without two trailing slices the call fails, or returns a tensor of one axis too many. */
  lemma VectorKey(l: Lora, ps: seq<Pick>, qs: seq<Pick>, row: Pick, col: Pick)
    requires l.WellFormed() && |PickedShape(ps)| == |PickedShape(qs)| && TakeLora(l, ps, qs, row, col).WellFormed()
    ensures row.Range? <==> col.Range?
    ensures row.One? ==> |TakeLora(l, ps, qs, row, col).Shape()| == |PickedShape(qs + [row] + [col])| + 1
  {
    hide Take, PickedShape, Prod;
    PickedLengths(ps, Full(l.Rank()), col);
    PickedLengths(qs, row, Full(l.Rank()));
    PickedLengths(qs, row, col);
  }

  lemma TupleWellFormed(l: Lora, items: seq<Item>)
    requires l.WellFormed() && |items| >= |l.Shape()| && GetTuple(l, items).Ok?
    ensures GetTuple(l, items).value.WellFormed()
  {
    hide DenseIndex, LeadItems, Prod;
  }

  lemma ItemParts(l: Lora, items: seq<Item>)
    requires l.WellFormed() && |items| == |l.Shape()| && Ellipsis !in items
    ensures l.A.shape == l.ALead() + ([l.Rank()] + [Last(l.A.shape)])
    ensures forall i :: 0 <= i < |l.BLead()| ==> items[i] == Init(Init(items))[i]
    ensures Ellipsis !in Init(Init(items)) && Last(items) in items && Last(Init(items)) in items
  {
    hide Prod;
    assert Last(Init(items)) == items[|items| - 2];
    forall i | 0 <= i < |items| - 2
      ensures Init(Init(items))[i] != Ellipsis
    {
      assert Init(Init(items))[i] == items[i];
      assert items[i] in items;
    }
  }

  /** A complete tuple key on the factors means the same key on B·A exactly when it is safe. */
  lemma TupleCommutes(l: Lora, items: seq<Item>)
    requires l.Coherent() && |items| == |l.Shape()| && Ellipsis !in items && GetTuple(l, items).Ok?
    ensures forall i :: 0 <= i < |l.BLead()| ==> Resolve(items[i], l.BLead()[i]).Ok?
    ensures TupleSafe(l, items) <==>
      GetTuple(l, items).value.Coherent() && DenseIndex(Dense(l), items) == Ok(Dense(GetTuple(l, items).value))
  {
    hide Take, Dense, DenseIndex, GetTuple, TakeLora, LeadItems, LeadPair, Prod, PickedShape, Resolve, Resolves, Init,
         LeadFits;
    TupleParts(l, items);
    TupleWellFormed(l, items);
    var lead, rowItem, colItem := Init(Init(items)), Last(Init(items)), Last(items);
    var r := GetTuple(l, items).value;
    var ps := Resolves(LeadItems(lead, l.A.shape).value, l.ALead()).value;
    var qs := Resolves(lead, l.BLead()).value;
    var row, col := Resolve(rowItem, Last(Init(l.B.shape))).value, Resolve(colItem, Last(l.A.shape)).value;
    var rest := [l.Rank()] + [Last(l.A.shape)];
    ItemParts(l, items);
    LeadPicks(lead, l.ALead(), l.BLead(), rest);
    LeadMismatch(ps, qs);
    VectorKey(l, ps, qs, row, col);
    if row.Range? {
      if TupleSafe(l, items) {
        assert LeadPairs(ps, qs, l.ALead(), l.BLead());
        TakeCommutes(l, ps, qs, row, col);
      } else {
        SplitLeads(l, ps, qs, row, col);
      }
    }
  }

  /** With a last entry that is a slice, the factors returned have a product exactly when the key is safe. */
  lemma SafeIsCoherent(l: Lora, items: seq<Item>)
    requires l.Coherent() && |items| == |l.Shape()| && Ellipsis !in items && GetTuple(l, items).Ok?
      && Last(items).Slice?
    ensures forall i :: 0 <= i < |l.BLead()| ==> Resolve(items[i], l.BLead()[i]).Ok?
    ensures TupleSafe(l, items) <==> GetTuple(l, items).value.Coherent()
  {
    hide Take, Dense, DenseIndex, GetTuple, TakeLora, LeadItems, LeadPair, Prod, PickedShape, Resolve, Resolves, Init,
         LeadFits;
    TupleCommutes(l, items);
    TupleParts(l, items);
    TupleWellFormed(l, items);
    var lead, rowItem, colItem := Init(Init(items)), Last(Init(items)), Last(items);
    var ps := Resolves(LeadItems(lead, l.A.shape).value, l.ALead()).value;
    var qs := Resolves(lead, l.BLead()).value;
    var row, col := Resolve(rowItem, Last(Init(l.B.shape))).value, Resolve(colItem, Last(l.A.shape)).value;
    ItemParts(l, items);
    LeadPicks(lead, l.ALead(), l.BLead(), [l.Rank()] + [Last(l.A.shape)]);
    LeadMismatch(ps, qs);
    VectorKey(l, ps, qs, row, col);
    if !TupleSafe(l, items) {
      SplitLeads(l, ps, qs, row, col);
    }
  }

  lemma SplitLeads(l: Lora, ps: seq<Pick>, qs: seq<Pick>, row: Pick, col: Pick)
    requires l.WellFormed() && row.Range? && col.Range? && TakeLora(l, ps, qs, row, col).WellFormed()
    ensures TakeLora(l, ps, qs, row, col).ALead() == PickedShape(ps)
    ensures TakeLora(l, ps, qs, row, col).BLead() == PickedShape(qs)
  {
    hide Take, PickedShape, Prod;
    PickedLengths(ps, Full(l.Rank()), col);
    PickedLengths(qs, row, Full(l.Rank()));
  }

  // ---- keys as written ----

  lemma {:induction false} NoEllipsis(items: seq<Item>, width: nat)
    requires Ellipsis !in items
    ensures ExpandEllipsis(items, width) == items && DropTrailing(items) == items
  {
    if items != [] {
      NoEllipsis(items[1..], width);
    }
  }

  lemma KeyLength(l: Lora, items: seq<Item>)
    requires l.WellFormed() && |items| >= |l.Shape()| && GetTuple(l, items).Ok?
    ensures |items| == |l.Shape()|
  {
    hide LeadItems, Resolves, Take;
  }

  lemma PadTwice(t: Tensor, items: seq<Item>)
    requires |items| <= |t.shape|
    ensures DenseIndex(t, Pad(items, |t.shape|)) == DenseIndex(t, items)
  {
    hide Take, Resolves;
  }

  lemma KeyIsTuple(l: Lora, items: seq<Item>)
    requires l.WellFormed() && items != [] && Ellipsis !in items
    ensures GetItem(l, TupleKey(items)) == GetTuple(l, Pad(items, |l.Shape()|))
  {
    hide GetTuple, Prod, Pad;
    NoEllipsis(items, |items| - 1);
    hide ExpandEllipsis, DropTrailing;
  }

  lemma PadPlain(items: seq<Item>, n: nat)
    requires Ellipsis !in items
    ensures Ellipsis !in Pad(items, n)
  {
  }

  /** Any tuple key without an ellipsis: the missing axes are whole, and the guard is the complete key's. */
  lemma KeyCommutes(l: Lora, items: seq<Item>)
    requires l.Coherent() && items != [] && Ellipsis !in items && GetItem(l, TupleKey(items)).Ok?
    ensures |items| <= |l.Shape()|
    ensures forall i :: 0 <= i < |l.BLead()| ==> Resolve(Pad(items, |l.Shape()|)[i], l.BLead()[i]).Ok?
    ensures TupleSafe(l, Pad(items, |l.Shape()|)) <==>
      GetItem(l, TupleKey(items)).value.Coherent()
      && DenseIndex(Dense(l), items) == Ok(Dense(GetItem(l, TupleKey(items)).value))
  {
    hide Take, Dense, DenseIndex, GetItem, GetTuple, Resolve, Prod, TupleSafe;
    KeyIsTuple(l, items);
    PadPlain(items, |l.Shape()|);
    var full := Pad(items, |l.Shape()|);
    KeyLength(l, full);
    PadTwice(Dense(l), items);
    hide *;
    TupleCommutes(l, full);
  }

  /** A trailing ellipsis is dropped, which is what it means: the axes it stands for are whole anyway. */
  lemma TrailingEllipsis(l: Lora, items: seq<Item>)
    requires l.WellFormed() && Ellipsis !in items && |items| <= |l.Shape()|
    ensures GetItem(l, TupleKey(items + [Ellipsis])) == GetItem(l, TupleKey(items))
    ensures FillEllipsis(items + [Ellipsis], |l.Shape()|) == Ok(Pad(items, |l.Shape()|))
  {
    hide GetTuple;
    var key := items + [Ellipsis];
    NoEllipsis(items, 0);
    assert Init(key) == items;
    assert key[|items|] == Ellipsis;
    FirstIs(key, |items|);
    assert key[..|items|] == items && key[|items| + 1..] == [];
    assert items + Repeat(COLON, |l.Shape()| - |items|) + [] == Pad(items, |l.Shape()|);
  }

  lemma FirstIs(items: seq<Item>, k: nat)
    requires k < |items| && items[k] == Ellipsis && forall i :: 0 <= i < k ==> items[i] != Ellipsis
    ensures FirstEllipsis(items) == k
  {
  }

  lemma ExpandFirst(item: Item, rest: seq<Item>, width: nat)
    ensures
      ExpandEllipsis([item] + rest, width)
      == (if item == Ellipsis then Repeat(COLON, width) else [item]) + ExpandEllipsis(rest, width)
  {
    hide Repeat;
    assert ([item] + rest)[1..] == rest;
  }

  lemma {:induction false} ExpandOne(pre: seq<Item>, post: seq<Item>, width: nat)
    requires Ellipsis !in pre && Ellipsis !in post
    ensures ExpandEllipsis(pre + [Ellipsis] + post, width) == pre + Repeat(COLON, width) + post
  {
    hide Repeat, ExpandEllipsis;
    if pre == [] {
      NoEllipsis(post, width);
      ExpandFirst(Ellipsis, post, width);
      assert pre + [Ellipsis] + post == [Ellipsis] + post && pre + Repeat(COLON, width) == Repeat(COLON, width);
    } else {
      ExpandOne(pre[1..], post, width);
      ExpandFirst(pre[0], pre[1..] + [Ellipsis] + post, width);
      assert pre == [pre[0]] + pre[1..];
      assert pre + [Ellipsis] + post == [pre[0]] + (pre[1..] + [Ellipsis] + post);
      assert [pre[0]] + (pre[1..] + Repeat(COLON, width) + post) == pre + Repeat(COLON, width) + post;
    }
  }

  lemma FillOne(pre: seq<Item>, post: seq<Item>, n: nat)
    requires Ellipsis !in pre && Ellipsis !in post && |pre| + |post| <= n
    ensures FillEllipsis(pre + [Ellipsis] + post, n) == Ok(pre + Repeat(COLON, n - |pre| - |post|) + post)
  {
    hide FirstEllipsis, Repeat;
    var key := pre + [Ellipsis] + post;
    assert key[|pre|] == Ellipsis && key[..|pre|] == pre && key[|pre| + 1..] == post;
    FirstIs(key, |pre|);
  }
}
