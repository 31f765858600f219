/** Factors of given shapes whose products tell two elements, or two operands, apart. */
module LoraApart {
  import opened Common
  import opened Tensors
  import opened LoraTensor
  import opened LoraProofs

  /** The tensor of a given shape whose element at idx is f(idx). */
  function Tabulate(shape: Shape, f: Index -> real): (t: Tensor)
    ensures t.Valid() && t.shape == shape
  {
    Tensor(shape, seq(Prod(shape), i requires 0 <= i < Prod(shape) => f(Unravel(shape, i))))
  }

  lemma AtTabulate(shape: Shape, f: Index -> real, idx: Index)
    requires InBounds(shape, idx)
    ensures At(Tabulate(shape, f), idx) == f(idx)
  {
    UnravelRavel(shape, idx);
  }

  lemma OneMore(x: real, c: real)
    ensures (x + 1.0) * c == x * c + c
  {
  }

  lemma {:induction false} DotConstant(n: nat, f: nat -> real, g: nat -> real, c: real)
    requires forall k: nat :: k < n ==> f(k) * g(k) == c
    ensures Dot(n, f, g) == n as real * c
  {
    if n > 0 {
      DotConstant(n - 1, f, g, c);
      OneMore((n - 1) as real, c);
      assert n as real == (n - 1) as real + 1.0;
    }
  }

  predicate SameShapes(l: Lora, m: Lora) {
    l.A.shape == m.A.shape && l.B.shape == m.B.shape && l.WellFormed() && m.WellFormed()
  }

  /** Factors of the same shapes whose product is rank * f(row index) * g(column). */
  function Separable(l: Lora, f: Index -> real, g: nat -> real): (m: Lora)
    requires l.WellFormed()
    ensures SameShapes(l, m)
  {
    Lora(Tabulate(l.A.shape, idx => if idx == [] then 0.0 else g(Last(idx))),
         Tabulate(l.B.shape, idx => if idx == [] then 0.0 else f(Init(idx))))
  }

  lemma SeparableFactors(l: Lora, f: Index -> real, g: nat -> real, a: Index, b: Index)
    requires l.WellFormed()
    ensures InBounds(l.A.shape, a) && a != [] ==> At(Separable(l, f, g).A, a) == g(Last(a))
    ensures InBounds(l.B.shape, b) && b != [] ==> At(Separable(l, f, g).B, b) == f(Init(b))
  {
    hide At, Tabulate;
    if InBounds(l.A.shape, a) && a != [] {
      AtTabulate(l.A.shape, idx => if idx == [] then 0.0 else g(Last(idx)), a);
    }
    if InBounds(l.B.shape, b) && b != [] {
      AtTabulate(l.B.shape, idx => if idx == [] then 0.0 else f(Init(idx)), b);
    }
  }

  lemma SeparableAt(l: Lora, f: Index -> real, g: nat -> real, idx: Index)
    requires l.Coherent() && InBounds(l.Shape(), idx)
    ensures idx != [] && Separable(l, f, g).Coherent()
    ensures At(Dense(Separable(l, f, g)), idx) == l.Rank() as real * (f(Init(idx)) * g(Last(idx)))
  {
    hide At, Clamp, Prod, Entry, Dense, Tabulate;
    var m := Separable(l, f, g);
    SplitIndex(l, idx);
    Shapes(l);
    AtDense(m, idx);
    EntryParts(m, idx);
    var lead, row, col := Init(Init(idx)), Last(Init(idx)), Last(idx);
    ClampLead(l, lead);
    forall k: nat | k < l.Rank()
      ensures RowOf(m, Init(idx))(k) * ColumnOf(m, lead, col)(k) == f(Init(idx)) * g(col)
    {
      SeparableTerms(l, f, g, Init(idx), lead, col, k);
    }
    DotConstant(l.Rank(), RowOf(m, Init(idx)), ColumnOf(m, lead, col), f(Init(idx)) * g(col));
  }

  lemma SeparableTerms(l: Lora, f: Index -> real, g: nat -> real, rowIdx: Index, lead: Index, col: nat, k: nat)
    requires l.Coherent() && InBounds(Init(l.B.shape), rowIdx) && k < l.Rank() && col < Last(l.A.shape)
    requires InBounds(l.ALead(), Clamp(l.ALead(), lead))
    ensures RowOf(Separable(l, f, g), rowIdx)(k) == f(rowIdx)
    ensures ColumnOf(Separable(l, f, g), lead, col)(k) == g(col)
  {
    hide At, Clamp, Prod, Separable;
    Shapes(l);
    var b, a := rowIdx + [k], Clamp(l.ALead(), lead) + [k] + [col];
    assert Init(b) == rowIdx && Last(a) == col;
    SeparableFactors(l, f, g, a, b);
  }

  /** Some factors of the same shapes have different elements at two different places. */
  lemma TellApart(l: Lora, x: Index, y: Index) returns (m: Lora)
    requires l.Coherent() && l.Rank() > 0 && InBounds(l.Shape(), x) && InBounds(l.Shape(), y) && x != y
    ensures SameShapes(l, m) && m.Coherent() && At(Dense(m), x) != At(Dense(m), y)
  {
    hide At, Dense, Prod, Separable;
    SplitIndex(l, x);
    SplitIndex(l, y);
    var row, col := Init(x), Last(x);
    var f, g := (i: Index) => if i == row then 1.0 else 0.0, (j: nat) => if j == col then 1.0 else 0.0;
    m := Separable(l, f, g);
    SeparableAt(l, f, g, x);
    SeparableAt(l, f, g, y);
    assert Init(y) != row || Last(y) != col;
  }

  // ---- one constant for each operand ----

  predicate AllSameShapes(ls: seq<Lora>, ms: seq<Lora>) {
    |ls| == |ms| && forall c :: 0 <= c < |ls| ==> SameShapes(ls[c], ms[c])
  }

  /** The element that marks operand c. */
  function Mark(rank: nat, c: nat): real {
    rank as real * c as real
  }

  lemma DotMark(n: nat, f: nat -> real, g: nat -> real, c: nat)
    requires forall k: nat :: k < n ==> f(k) * g(k) == c as real
    ensures Dot(n, f, g) == Mark(n, c)
  {
    DotConstant(n, f, g, c as real);
  }

  lemma MarksDiffer(rank: nat, c: nat, d: nat)
    requires rank > 0 && c != d
    ensures Mark(rank, c) != Mark(rank, d)
  {
    var r, x, y := rank as real, c as real, d as real;
    if x < y {
      Grows(r, x, y);
    } else {
      Grows(r, y, x);
    }
  }

  lemma Grows(r: real, x: real, y: real)
    requires r > 0.0 && x < y
    ensures r * x < r * y
  {
  }

  /** Factors of the same shapes where every element of operand c's product is c times the rank. */
  function Marked(ls: seq<Lora>): (ms: seq<Lora>)
    requires forall c :: 0 <= c < |ls| ==> ls[c].WellFormed()
    ensures AllSameShapes(ls, ms)
  {
    seq(|ls|, c requires 0 <= c < |ls| => Separable(ls[c], _ => 1.0, _ => c as real))
  }

  lemma MarkedAt(ls: seq<Lora>, c: nat, idx: Index)
    requires forall c :: 0 <= c < |ls| ==> ls[c].WellFormed()
    requires c < |ls| && ls[c].Coherent() && InBounds(ls[c].Shape(), idx)
    ensures Marked(ls)[c].Coherent() && At(Dense(Marked(ls)[c]), idx) == Mark(ls[c].Rank(), c)
  {
    hide At, Dense, Separable, Prod;
    SeparableAt(ls[c], _ => 1.0, _ => c as real, idx);
    OneTimes(c as real);
  }

  lemma OneTimes(x: real)
    ensures 1.0 * x == x
  {
  }

  lemma MarkedFactors(ls: seq<Lora>, c: nat, a: Index, b: Index)
    requires forall c :: 0 <= c < |ls| ==> ls[c].WellFormed()
    requires c < |ls|
    ensures InBounds(ls[c].A.shape, a) && a != [] ==> At(Marked(ls)[c].A, a) == c as real
    ensures InBounds(ls[c].B.shape, b) && b != [] ==> At(Marked(ls)[c].B, b) == 1.0
  {
    hide At, Separable;
    SeparableFactors(ls[c], _ => 1.0, _ => c as real, a, b);
  }
}
