/** A key with an ellipsis that is not last: what the factors return, and exactly when it is right. */
module LoraEllipsis {
  import opened Common
  import opened Tensors
  import opened LoraTensor
  import opened LoraProofs
  import opened LoraIndex
  import opened LoraKeys
  import opened LoraApart

  // ---- reading the same entries ----

  /** Two lists of picks give the same shape and read the same position for every index of it. */
  ghost predicate SameReads(ps: seq<Pick>, qs: seq<Pick>) {
    && PickedShape(ps) == PickedShape(qs)
    && forall idx :: InBounds(PickedShape(ps), idx) ==> Source(ps, idx) == Source(qs, idx)
  }

  lemma SameReadsTake(t: Tensor, ps: seq<Pick>, qs: seq<Pick>)
    requires SameReads(ps, qs)
    ensures Take(t, ps) == Take(t, qs)
  {
    hide Take, PickedShape, Source, At;
    forall idx | InBounds(PickedShape(ps), idx)
      ensures At(Take(t, ps), idx) == At(Take(t, qs), idx)
    {
      AtTake(t, ps, idx);
      AtTake(t, qs, idx);
    }
    Extensional(Take(t, ps), Take(t, qs));
  }

  /** On one axis: the same position, or ranges that go through the same positions. */
  predicate SameEntry(p: Pick, q: Pick) {
    match (p, q)
    case (One(i), One(j)) => i == j
    case (Range(_, _, c), Range(_, _, d)) => c == d && forall k :: 0 <= k < c ==> Nth(p, k) == Nth(q, k)
    case _ => false
  }

  lemma {:induction false} EntriesRead(ps: seq<Pick>, qs: seq<Pick>)
    requires |ps| == |qs| && forall i :: 0 <= i < |ps| ==> SameEntry(ps[i], qs[i])
    ensures SameReads(ps, qs)
    decreases |ps|
  {
    hide Nth, SameEntry;
    if ps != [] {
      EntriesRead(Init(ps), Init(qs));
      assert ps == Init(ps) + [Last(ps)] && qs == Init(qs) + [Last(qs)];
      LastRead(Init(ps), Init(qs), Last(ps), Last(qs));
    }
  }

  lemma LastRead(ps: seq<Pick>, qs: seq<Pick>, p: Pick, q: Pick)
    requires SameReads(ps, qs) && SameEntry(p, q)
    ensures SameReads(ps + [p], qs + [q])
  {
    hide PickedShape, Source, Nth;
    if p.One? {
      forall idx
        ensures Source(ps + [p], idx) == Source(ps, idx) + [p.pos] && Source(qs + [q], idx) == Source(qs, idx) + [q.pos]
        ensures PickedShape(ps + [p]) == PickedShape(ps) && PickedShape(qs + [q]) == PickedShape(qs)
      {
        SourceOne(ps, p, idx);
        SourceOne(qs, q, idx);
      }
    } else {
      SourceSnoc(ps, p, [], 0);
      SourceSnoc(qs, q, [], 0);
      forall idx | InBounds(PickedShape(ps) + [p.count], idx)
        ensures Source(ps + [p], idx) == Source(qs + [q], idx)
      {
        assert idx == Init(idx) + [Last(idx)];
        assert InBounds(PickedShape(ps), Init(idx)) by {
          assert Init(PickedShape(ps) + [p.count]) == PickedShape(ps);
        }
        SourceSnoc(ps, p, Init(idx), Last(idx));
        SourceSnoc(qs, q, Init(idx), Last(idx));
      }
    }
  }

  // ---- only equal reads give equal tensors ----

  /** Picks that give equal tensors for all factors of the shapes read the same entries. */
  lemma EqualTakes(l: Lora, ps: seq<Pick>, qs: seq<Pick>)
    requires l.Coherent() && l.Rank() > 0 && PicksFit(ps, l.Shape()) && PicksFit(qs, l.Shape())
    requires forall m: Lora :: SameShapes(l, m) && m.Coherent() ==> Take(Dense(m), ps) == Take(Dense(m), qs)
    ensures SameReads(ps, qs)
  {
    hide Take, Dense, At, Source, PickedShape, Prod;
    assert Take(Dense(l), ps).shape == PickedShape(ps) && Take(Dense(l), qs).shape == PickedShape(qs);
    forall idx | InBounds(PickedShape(ps), idx)
      ensures Source(ps, idx) == Source(qs, idx)
    {
      SourceInBounds(ps, l.Shape(), idx);
      SourceInBounds(qs, l.Shape(), idx);
      if Source(ps, idx) != Source(qs, idx) {
        var m := TellApart(l, Source(ps, idx), Source(qs, idx));
        AtTake(Dense(m), ps, idx);
        AtTake(Dense(m), qs, idx);
      }
    }
  }

  // ---- the key ----

  function EllipsisKey(pre: seq<Item>, post: seq<Item>): seq<Item> {
    pre + [Ellipsis] + post
  }

  /** What the class makes of the key on n axes: one whole axis for each entry that is written. */
  function ClassKey(pre: seq<Item>, post: seq<Item>, n: nat): (r: seq<Item>) {
    Pad(pre + Repeat(COLON, |pre| + |post|) + post, n)
  }

  /** What the key means: as many whole axes as make up the rank. */
  function MeantKey(pre: seq<Item>, post: seq<Item>, n: nat): (r: seq<Item>)
    requires |pre| + |post| <= n
    ensures |r| == n
  {
    pre + Repeat(COLON, n - |pre| - |post|) + post
  }

  /** An ellipsis between entries, of which some follow it. */
  predicate Inner(pre: seq<Item>, post: seq<Item>) {
    Ellipsis !in pre && Ellipsis !in post && post != []
  }

  lemma KeysAre(l: Lora, pre: seq<Item>, post: seq<Item>)
    requires l.WellFormed() && Inner(pre, post)
    ensures
      var key, n := EllipsisKey(pre, post), |l.Shape()|;
      && GetItem(l, TupleKey(key)) == GetTuple(l, ClassKey(pre, post, n))
      && (|pre| + |post| <= n ==> FillEllipsis(key, n) == Ok(MeantKey(pre, post, n)))
      && (GetItem(l, TupleKey(key)).Ok? ==> |pre| + |post| <= n && |ClassKey(pre, post, n)| == n)
    ensures Ellipsis !in ClassKey(pre, post, |l.Shape()|)
  {
    hide GetTuple, ExpandEllipsis, FillEllipsis, Prod;
    var key, n := EllipsisKey(pre, post), |l.Shape()|;
    assert Last(key) == Last(post);
    ExpandOne(pre, post, |pre| + |post|);
    if |pre| + |post| <= n {
      FillOne(pre, post, n);
    }
    if GetTuple(l, ClassKey(pre, post, n)).Ok? {
      KeyLength(l, ClassKey(pre, post, n));
    }
  }

  /** Both keys can be applied to the shape and read the same entries of it. */
  ghost predicate KeysRead(items: seq<Item>, meant: seq<Item>, shape: Shape) {
    && |items| == |meant| == |shape| && Resolves(items, shape).Ok? && Resolves(meant, shape).Ok?
    && SameReads(Resolves(items, shape).value, Resolves(meant, shape).value)
  }

  /** Both keys can be applied to the shape and give one shape; if the elements can differ, they read the same ones. */
  ghost predicate KeysAgree(l: Lora, items: seq<Item>, meant: seq<Item>)
    requires l.WellFormed()
  {
    var shape := l.Shape();
    && |items| == |meant| == |shape| && Resolves(items, shape).Ok? && Resolves(meant, shape).Ok?
    && PickedShape(Resolves(items, shape).value) == PickedShape(Resolves(meant, shape).value)
    && (l.Rank() > 0 ==> KeysRead(items, meant, shape))
  }

  lemma AgreeTake(l: Lora, items: seq<Item>, meant: seq<Item>)
    requires l.WellFormed() && KeysAgree(l, items, meant)
    ensures Take(Dense(l), Resolves(items, l.Shape()).value) == Take(Dense(l), Resolves(meant, l.Shape()).value)
  {
    hide Take, Dense, PickedShape, Resolves, SameReads, Prod;
    var ps, qs := Resolves(items, l.Shape()).value, Resolves(meant, l.Shape()).value;
    if l.Rank() > 0 {
      SameReadsTake(Dense(l), ps, qs);
    } else {
      ZeroTake(l, ps, qs);
    }
  }

  lemma ZeroTake(l: Lora, ps: seq<Pick>, qs: seq<Pick>)
    requires l.WellFormed() && l.Rank() == 0 && PickedShape(ps) == PickedShape(qs)
    ensures Take(Dense(l), ps) == Take(Dense(l), qs)
  {
    hide Take, Dense, PickedShape, Source, At, Prod;
    forall idx | InBounds(PickedShape(ps), idx)
      ensures At(Take(Dense(l), ps), idx) == At(Take(Dense(l), qs), idx)
    {
      AtTake(Dense(l), ps, idx);
      AtTake(Dense(l), qs, idx);
      ZeroAt(l, Source(ps, idx));
      ZeroAt(l, Source(qs, idx));
    }
    Extensional(Take(Dense(l), ps), Take(Dense(l), qs));
  }

  /** The factors returned have a product, and it is what the key means on B·A. */
  ghost predicate Right(l: Lora, pre: seq<Item>, post: seq<Item>)
    requires l.WellFormed()
  {
    var key := EllipsisKey(pre, post);
    var r, meant := GetItem(l, TupleKey(key)), FillEllipsis(key, |l.Shape()|);
    r.Ok? && meant.Ok? && r.value.Coherent() && DenseIndex(Dense(l), meant.value) == Ok(Dense(r.value))
  }

  /** The guard: the key as the class reads it is safe, and reads the entries that are meant. */
  ghost predicate Guard(l: Lora, pre: seq<Item>, post: seq<Item>)
    requires l.WellFormed() && |pre| + |post| <= |l.Shape()|
  {
    var items, meant := ClassKey(pre, post, |l.Shape()|), MeantKey(pre, post, |l.Shape()|);
    && |items| == |l.Shape()| && (forall i :: 0 <= i < |l.BLead()| ==> Resolve(items[i], l.BLead()[i]).Ok?)
    && TupleSafe(l, items) && KeysAgree(l, items, meant)
  }

  lemma IndexTakes(t: Tensor, items: seq<Item>)
    requires |items| == |t.shape|
    ensures DenseIndex(t, items) == match Resolves(items, t.shape) case Ok(ps) => Ok(Take(t, ps)) case Err(e) => Err(e)
  {
    hide Take, Resolves;
    assert Pad(items, |t.shape|) == items;
  }

  /** Under the guard, the factors returned for the key stand for what the key means. */
  lemma EllipsisRight(l: Lora, pre: seq<Item>, post: seq<Item>)
    requires l.Coherent() && Inner(pre, post) && GetItem(l, TupleKey(EllipsisKey(pre, post))).Ok?
    ensures |pre| + |post| <= |l.Shape()| && (Guard(l, pre, post) ==> Right(l, pre, post))
  {
    hide Take, Dense, DenseIndex, GetTuple, GetItem, FillEllipsis, Resolve, Resolves, SameReads, Prod, TupleSafe,
         ClassKey, MeantKey;
    KeysAre(l, pre, post);
    if Guard(l, pre, post) {
      var items, meant := ClassKey(pre, post, |l.Shape()|), MeantKey(pre, post, |l.Shape()|);
      TupleCommutes(l, items);
      IndexTakes(Dense(l), items);
      IndexTakes(Dense(l), meant);
      AgreeTake(l, items, meant);
    }
  }

  lemma IndexShapes(t: Tensor, u: Tensor, items: seq<Item>)
    requires t.shape == u.shape
    ensures DenseIndex(t, items).Ok? <==> DenseIndex(u, items).Ok?
    ensures DenseIndex(t, items).Ok? ==> DenseIndex(t, items).value.shape == DenseIndex(u, items).value.shape
  {
    hide Take, Resolves;
    if |items| <= |t.shape| && Resolves(Pad(items, |t.shape|), t.shape).Ok? {
      var ps := Resolves(Pad(items, |t.shape|), t.shape).value;
      assert Take(t, ps).shape == PickedShape(ps) == Take(u, ps).shape;
    }
  }

  /** Whether a call returns is decided by the shapes. */
  lemma ShapesDecide(l: Lora, m: Lora, items: seq<Item>)
    requires SameShapes(l, m) && |items| >= |l.Shape()| && GetTuple(l, items).Ok?
    ensures GetTuple(m, items).Ok?
  {
    hide DenseIndex, LeadItems, Prod;
    var lead := LeadItems(Init(Init(items)), l.A.shape).value;
    IndexShapes(l.A, m.A, lead + [COLON] + [Last(items)]);
    IndexShapes(l.B, m.B, Init(items));
  }

  lemma GuardOfShapes(l: Lora, m: Lora, pre: seq<Item>, post: seq<Item>)
    requires SameShapes(l, m) && |pre| + |post| <= |l.Shape()|
    ensures Guard(l, pre, post) <==> Guard(m, pre, post)
  {
    hide KeysRead, Resolve, Resolves, PickedShape, Prod;
  }

  lemma RightNeedsSafe(l: Lora, pre: seq<Item>, post: seq<Item>)
    requires l.Coherent() && Inner(pre, post) && Right(l, pre, post)
    ensures
      var items := ClassKey(pre, post, |l.Shape()|);
      && |pre| + |post| <= |l.Shape()| && |items| == |l.Shape()|
      && (forall i :: 0 <= i < |l.BLead()| ==> Resolve(items[i], l.BLead()[i]).Ok?)
      && TupleSafe(l, items)
      && DenseIndex(Dense(l), items) == DenseIndex(Dense(l), MeantKey(pre, post, |l.Shape()|))
  {
    hide Take, Dense, DenseIndex, GetTuple, GetItem, FillEllipsis, Resolve, Prod, TupleSafe;
    KeysAre(l, pre, post);
    var n := |l.Shape()|;
    var items := ClassKey(pre, post, n);
    TupleCommutes(l, items);
    if n == 2 * (|pre| + |post|) {
      assert items == MeantKey(pre, post, n);
    } else {
      assert Last(items) == COLON;
      SafeIsCoherent(l, items);
    }
  }

  /**
   An inner ellipsis means on the factors what it means on B·A exactly under the guard: necessary as well,
   as some factors of the same shapes tell the two keys apart if they read different entries.
   */
  lemma EllipsisCommutes(l: Lora, pre: seq<Item>, post: seq<Item>)
    requires l.Coherent() && Inner(pre, post) && GetItem(l, TupleKey(EllipsisKey(pre, post))).Ok?
    ensures |pre| + |post| <= |l.Shape()|
    ensures Guard(l, pre, post) <==> forall m: Lora :: SameShapes(l, m) && m.Coherent() ==> Right(m, pre, post)
  {
    hide Take, Dense, DenseIndex, GetTuple, GetItem, FillEllipsis, Resolve, Resolves, SameReads, Prod, TupleSafe,
         ClassKey, MeantKey, Right, Guard;
    KeysAre(l, pre, post);
    if Guard(l, pre, post) {
      forall m: Lora | SameShapes(l, m) && m.Coherent()
        ensures Right(m, pre, post)
      {
        KeysAre(m, pre, post);
        ShapesDecide(l, m, ClassKey(pre, post, |l.Shape()|));
        GuardOfShapes(l, m, pre, post);
        EllipsisRight(m, pre, post);
      }
    }
    if forall m: Lora :: SameShapes(l, m) && m.Coherent() ==> Right(m, pre, post) {
      GuardNeeded(l, pre, post);
    }
  }

  lemma GuardNeeded(l: Lora, pre: seq<Item>, post: seq<Item>)
    requires l.Coherent() && Inner(pre, post) && |pre| + |post| <= |l.Shape()|
    requires forall m: Lora :: SameShapes(l, m) && m.Coherent() ==> Right(m, pre, post)
    ensures Guard(l, pre, post)
  {
    hide Take, Dense, DenseIndex, Resolve, Resolves, SameReads, Prod, TupleSafe, ClassKey, MeantKey, Right;
    var n := |l.Shape()|;
    var items, meant := ClassKey(pre, post, n), MeantKey(pre, post, n);
    RightNeedsSafe(l, pre, post);
    RightIndexes(l, pre, post);
    forall m: Lora | SameShapes(l, m) && m.Coherent()
      ensures DenseIndex(Dense(m), items) == DenseIndex(Dense(m), meant)
    {
      RightNeedsSafe(m, pre, post);
    }
    AgreeNeeded(l, items, meant);
  }

  /** Keys that give equal tensors for all factors of the shapes agree. */
  lemma AgreeNeeded(l: Lora, items: seq<Item>, meant: seq<Item>)
    requires l.Coherent() && |items| == |meant| == |l.Shape()|
    requires Resolves(items, l.Shape()).Ok? && Resolves(meant, l.Shape()).Ok?
    requires forall m: Lora :: SameShapes(l, m) && m.Coherent() ==>
      DenseIndex(Dense(m), items) == DenseIndex(Dense(m), meant)
    ensures KeysAgree(l, items, meant)
  {
    hide Take, Dense, DenseIndex, Resolves, SameReads, PickedShape, Prod;
    var ps, qs := Resolves(items, l.Shape()).value, Resolves(meant, l.Shape()).value;
    forall m: Lora | SameShapes(l, m) && m.Coherent()
      ensures Take(Dense(m), ps) == Take(Dense(m), qs)
    {
      IndexTakes(Dense(m), items);
      IndexTakes(Dense(m), meant);
    }
    assert Take(Dense(l), ps).shape == PickedShape(ps) && Take(Dense(l), qs).shape == PickedShape(qs);
    if l.Rank() > 0 {
      EqualTakes(l, ps, qs);
    }
  }

  lemma RightIndexes(l: Lora, pre: seq<Item>, post: seq<Item>)
    requires l.Coherent() && Inner(pre, post) && Right(l, pre, post) && |pre| + |post| <= |l.Shape()|
    requires |ClassKey(pre, post, |l.Shape()|)| == |l.Shape()|
    ensures Resolves(ClassKey(pre, post, |l.Shape()|), l.Shape()).Ok?
    ensures Resolves(MeantKey(pre, post, |l.Shape()|), l.Shape()).Ok?
  {
    hide Take, Dense, DenseIndex, GetTuple, GetItem, FillEllipsis, Resolve, Resolves, Prod, TupleSafe, ClassKey,
         MeantKey;
    KeysAre(l, pre, post);
    RightNeedsSafe(l, pre, post);
    IndexTakes(Dense(l), ClassKey(pre, post, |l.Shape()|));
    IndexTakes(Dense(l), MeantKey(pre, post, |l.Shape()|));
  }

  // ---- which keys have a meaning ----

  /** A key means something if it has no ellipsis, or one that leaves no negative number of axes over. */
  lemma KeysWithMeaning(items: seq<Item>, n: nat)
    ensures
      FillEllipsis(items, n).Ok?
      <==> Ellipsis !in items || exists k {:trigger items[k]} :: 0 <= k < |items| && OneAt(items, k) && |items| - 1 <= n
    ensures forall k :: 0 <= k < |items| && OneAt(items, k) ==> items == EllipsisKey(items[..k], items[k + 1..])
  {
    if Ellipsis in items {
      var k := FirstEllipsis(items);
      assert items == items[..k] + [items[k]] + items[k + 1..];
      if FillEllipsis(items, n).Ok? {
        assert OneAt(items, k);
      }
      forall j | 0 <= j < |items| && OneAt(items, j)
        ensures j == k && OneAt(items, k)
      {
        OnlyAt(items, j);
      }
    }
  }

  lemma OnlyAt(items: seq<Item>, k: nat)
    requires k < |items| && OneAt(items, k)
    ensures forall i :: 0 <= i < |items| && i != k ==> items[i] != Ellipsis
  {
    forall i | 0 <= i < |items| && i != k
      ensures items[i] != Ellipsis
    {
      assert items[i] == if i < k then items[..k][i] else items[k + 1..][i - k - 1];
    }
  }

  /** The only ellipsis of the key. */
  predicate OneAt(items: seq<Item>, k: nat)
    requires k < |items|
  {
    items[k] == Ellipsis && Ellipsis !in items[..k] && Ellipsis !in items[k + 1..]
  }

  // ---- entries that take whole axes ----

  /** The entry, a slice, goes through the whole of an axis. */
  predicate Whole(s: Item, n: nat) {
    s.Slice? && Resolve(s, n).Ok? && Resolve(s, n).value.count == n
  }

  lemma WholeEntry(s: Item, n: nat)
    requires Whole(s, n)
    ensures SameEntry(Resolve(s, n).value, Full(n))
  {
    var p := Resolve(s, n).value;
    if n > 1 {
      WholeSlice(s, n);
    } else if n == 1 {
      assert p.start == 0;
    }
  }

  lemma SameAsWhole(p: Pick, q: Pick, n: nat)
    requires SameEntry(p, Full(n)) && SameEntry(q, Full(n))
    ensures SameEntry(p, q)
  {
    forall k | 0 <= k < n
      ensures Nth(p, k) == Nth(q, k)
    {
      assert Nth(p, k) == Nth(Full(n), k) && Nth(q, k) == Nth(Full(n), k);
    }
  }

  /** Entry j of those after the ellipsis takes its axis whole, where the class puts it and where it belongs. */
  predicate WholeAfter(pre: seq<Item>, post: seq<Item>, shape: Shape)
    requires 2 * (|pre| + |post|) <= |shape|
  {
    forall j :: 0 <= j < |post| ==>
      Whole(post[j], shape[|pre| + |pre| + |post| + j]) && Whole(post[j], shape[|shape| - |post| + j])
  }

  lemma KeyEntries(pre: seq<Item>, post: seq<Item>, shape: Shape, i: nat)
    requires 2 * (|pre| + |post|) <= |shape| && i < |shape|
    ensures
      var n := |shape|;
      var items, meant := ClassKey(pre, post, n), MeantKey(pre, post, n);
      && |items| == n
      && (i < |pre| ==> items[i] == meant[i])
      && (|pre| <= i && WholeAfter(pre, post, shape) ==> Whole(items[i], shape[i]) && Whole(meant[i], shape[i]))
  {
    var n, named := |shape|, |pre| + |post|;
    hide Resolve;
    ResolveColon(shape[i]);
    assert Whole(COLON, shape[i]);
    hide Whole;
    if |pre| + named <= i < |pre| + named + |post| {
      assert ClassKey(pre, post, n)[i] == post[i - |pre| - named];
    }
    if n - |post| <= i {
      assert MeantKey(pre, post, n)[i] == post[i - (n - |post|)];
    }
  }

  /** When all that follows the ellipsis takes its axes whole, the two keys read the same entries. */
  lemma WholeReads(pre: seq<Item>, post: seq<Item>, shape: Shape)
    requires 2 * (|pre| + |post|) <= |shape| && WholeAfter(pre, post, shape)
    requires forall i :: 0 <= i < |pre| ==> Resolve(pre[i], shape[i]).Ok?
    ensures KeysRead(ClassKey(pre, post, |shape|), MeantKey(pre, post, |shape|), shape)
  {
    hide Resolve, SameEntry, SameReads, WholeAfter;
    var n := |shape|;
    var items, meant := ClassKey(pre, post, n), MeantKey(pre, post, n);
    forall i | 0 <= i < n
      ensures |items| == n && Resolve(items[i], shape[i]).Ok? && Resolve(meant[i], shape[i]).Ok?
      ensures SameEntry(Resolve(items[i], shape[i]).value, Resolve(meant[i], shape[i]).value)
    {
      KeyEntries(pre, post, shape, i);
      if i < |pre| {
        assert meant[i] == pre[i];
        EntryOfItself(Resolve(pre[i], shape[i]).value);
      } else {
        WholeEntry(items[i], shape[i]);
        WholeEntry(meant[i], shape[i]);
        SameAsWhole(Resolve(items[i], shape[i]).value, Resolve(meant[i], shape[i]).value, shape[i]);
      }
    }
    hide ClassKey, MeantKey;
    EntriesRead(Resolves(items, shape).value, Resolves(meant, shape).value);
  }

  lemma EntryOfItself(p: Pick)
    ensures SameEntry(p, p)
  {
  }
}
