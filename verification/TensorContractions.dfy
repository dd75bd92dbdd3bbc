/** What contraction computes, and that the covariant and the Lie derivative commute with
    it: the terms of the two contracted slots cancel. */
module TensorContractions {
  import opened Sums
  import opened TensorIndex
  import opened TensorKernels
  import opened TensorSymmetry
  import opened TensorTruth
  import opened TensorRoundTrips
  import opened TensorDerivatives

  // ---- The contracted component --------------------------------------------

  /** The index with the value m put in at the slots lo and hi. */
  function Refilled(index: Index, lo: nat, hi: nat, m: nat): Index
    requires lo < hi <= |index| + 1
  {
    index[..lo] + [m] + index[lo..hi - 1] + [m] + index[hi - 1..]
  }

  lemma {:induction false} SurvivorAt(rank: nat, lo: nat, hi: nat, a: nat)
    requires lo < hi < rank && a < rank - 2
    ensures |Survivors(rank, lo, hi)| == rank - 2
    ensures Survivors(rank, lo, hi)[a] == if a < lo then a else if a + 1 < hi then a + 1 else a + 2
  {
    if hi == rank - 1 {
      assert Survivors(rank, lo, hi) == Survivors(rank - 1, lo, hi);
      OneLeft(rank - 1, lo, hi, a);
    } else if a == rank - 3 {
    } else {
      SurvivorAt(rank - 1, lo, hi, a);
    }
  }

  lemma {:induction false} OneLeft(rank: nat, lo: nat, beyond: nat, a: nat)
    requires lo < rank <= beyond && a < rank - 1
    ensures |Survivors(rank, lo, beyond)| == rank - 1
    ensures Survivors(rank, lo, beyond)[a] == if a < lo then a else a + 1
  {
    if lo == rank - 1 {
      assert Survivors(rank, lo, beyond) == Survivors(rank - 1, lo, beyond);
      NoneLeft(rank - 1, lo, beyond, a);
    } else if a < rank - 2 {
      OneLeft(rank - 1, lo, beyond, a);
    }
  }

  lemma {:induction false} NoneLeft(rank: nat, first: nat, second: nat, a: nat)
    requires rank <= first && rank <= second && a < rank
    ensures |Survivors(rank, first, second)| == rank && Survivors(rank, first, second)[a] == a
  {
    if a < rank - 1 {
      NoneLeft(rank - 1, first, second, a);
    }
  }

  /** The old index, entry by entry. */
  lemma ScatterEntry(rank: nat, index: Index, lo: nat, hi: nat, m: nat, s: nat)
    requires lo < hi < rank && |index| == rank - 2 && s < rank
    ensures |Survivors(rank, lo, hi)| == rank - 2
    ensures Scatter(rank, Survivors(rank, lo, hi), index, m)[s] ==
            if s == lo || s == hi then m else if s < lo then index[s] else if s < hi then index[s - 1] else index[s - 2]
  {
    var slots := Survivors(rank, lo, hi);
    if s != lo && s != hi {
      var a := if s < lo then s else if s < hi then s - 1 else s - 2;
      SurvivorAt(rank, lo, hi, a);
      PositionUnique(rank, slots, a);
    }
  }

  lemma RefilledEntry(index: Index, lo: nat, hi: nat, m: nat, s: nat)
    requires lo < hi <= |index| + 1 && s < |index| + 2
    ensures |Refilled(index, lo, hi, m)| == |index| + 2
    ensures Refilled(index, lo, hi, m)[s] ==
            if s == lo || s == hi then m else if s < lo then index[s] else if s < hi then index[s - 1] else index[s - 2]
  {}

  lemma ScatterIsRefilled(rank: nat, index: Index, lo: nat, hi: nat, m: nat)
    requires lo < hi < rank && |index| == rank - 2
    ensures |Survivors(rank, lo, hi)| == rank - 2
    ensures Scatter(rank, Survivors(rank, lo, hi), index, m) == Refilled(index, lo, hi, m)
  {
    forall s | 0 <= s < rank
      ensures Scatter(rank, Survivors(rank, lo, hi), index, m)[s] == Refilled(index, lo, hi, m)[s]
    {
      ScatterEntry(rank, index, lo, hi, m, s);
      RefilledEntry(index, lo, hi, m, s);
    }
  }

  function DiagonalTerm(t: Tensor, index: Index, lo: nat, hi: nat): nat -> real
    requires lo < hi <= |index| + 1
  {
    (m: nat) => t.At(Refilled(index, lo, hi, m))
  }

  /** A component of the contraction is the sum over the common value of the two slots;
      the others keep their order and variance. */
  lemma ContractedComponent(t: Tensor, lo: nat, hi: nat, index: Index)
    requires t.WellShaped() && lo < hi && Contract(t, lo, hi).Ok? && IsIndex(t.dim, t.Rank() - 2, index)
    ensures Contract(t, lo, hi).value.At(index) == Sum(t.dim, DiagonalTerm(t, index, lo, hi))
    ensures Contract(t, lo, hi).value.variance == t.variance[..lo] + t.variance[lo + 1..hi] + t.variance[hi + 1..]
    ensures Contract(t, lo, hi).value.weight == t.weight
  {
    var r, slots := Contract(t, lo, hi).value, Survivors(t.Rank(), lo, hi);
    Tabulated(r, Trace(t, slots));
    DiagonalTraced(t, lo, hi, index);
    VarianceLeft(t.variance, lo, hi);
  }

  lemma DiagonalTraced(t: Tensor, lo: nat, hi: nat, index: Index)
    requires lo < hi < t.Rank() && |index| == t.Rank() - 2
    ensures TraceEntry(t, Survivors(t.Rank(), lo, hi), index) == Sum(t.dim, DiagonalTerm(t, index, lo, hi))
  {
    var slots := Survivors(t.Rank(), lo, hi);
    forall m | 0 <= m < t.dim ensures TraceTerms(t, slots, index)(m) == DiagonalTerm(t, index, lo, hi)(m) {
      ScatterIsRefilled(t.Rank(), index, lo, hi, m);
    }
    SumEqual(t.dim, DiagonalTerm(t, index, lo, hi), TraceTerms(t, slots, index));
  }

  lemma VarianceLeft(variance: seq<int>, lo: nat, hi: nat)
    requires lo < hi < |variance|
    ensures Gathered(variance, Survivors(|variance|, lo, hi)) ==
            variance[..lo] + variance[lo + 1..hi] + variance[hi + 1..]
  {
    forall a | 0 <= a < |variance| - 2
      ensures Gathered(variance, Survivors(|variance|, lo, hi))[a] ==
              (variance[..lo] + variance[lo + 1..hi] + variance[hi + 1..])[a]
    {
      SurvivorAt(|variance|, lo, hi, a);
    }
  }

  // ---- Sums over slots -----------------------------------------------------

  /** The slots of the contraction, in the tensor contracted. */
  function Kept(lo: nat, hi: nat, a: nat): nat {
    if a < lo then a else if a + 1 < hi then a + 1 else a + 2
  }

  lemma {:induction false} SumWithout(n: nat, at: nat, f: nat -> real, g: nat -> real)
    requires at < n && forall a :: 0 <= a < n - 1 ==> g(a) == f(if a < at then a else a + 1)
    ensures Sum(n, f) == Sum(n - 1, g) + f(at)
  {
    if at == n - 1 {
      SumEqual(n - 1, f, g);
    } else {
      SumWithout(n - 1, at, f, g);
    }
  }

  lemma {:induction false} SumWithoutTwo(n: nat, lo: nat, hi: nat, f: nat -> real, g: nat -> real)
    requires lo < hi < n && forall a :: 0 <= a < n - 2 ==> g(a) == f(Kept(lo, hi, a))
    ensures Sum(n, f) == Sum(n - 2, g) + f(lo) + f(hi)
  {
    if hi == n - 1 {
      SumWithout(n - 1, lo, f, g);
    } else {
      SumWithoutTwo(n - 1, lo, hi, f, g);
    }
  }

  // ---- The contracted slots cancel -----------------------------------------

  /** Lower slots are transported by the opposite of what transports upper ones. */
  ghost predicate IsDual(d: Transport) {
    forall i, m, k :: d.lower(i, m, k) == -d.upper(m, i, k)
  }

  /** Sums have the sum of the derivatives. */
  ghost predicate IsAdditive(d: Transport) {
    forall k, x, y :: d.partial(k, x + y) == d.partial(k, x) + d.partial(k, y)
  }

  function Derivatives(d: Transport, k: nat, f: nat -> real): nat -> real {
    (m: nat) => d.partial(k, f(m))
  }

  lemma {:induction false} DerivativeOfSum(n: nat, d: Transport, k: nat, f: nat -> real)
    requires IsAdditive(d)
    ensures d.partial(k, Sum(n, f)) == Sum(n, Derivatives(d, k, f))
  {
    if n > 0 {
      DerivativeOfSum(n - 1, d, k, f);
    } else {
      assert d.partial(k, 0.0 + 0.0) == d.partial(k, 0.0) + d.partial(k, 0.0);
    }
  }

  /** r has the components of t summed over the common value of the slots lo and hi. */
  ghost predicate Traces(r: Tensor, t: Tensor, lo: nat, hi: nat) {
    && lo < hi < t.Rank() && r.dim == t.dim && r.Rank() + 2 == t.Rank() && r.weight == t.weight
    && (t.variance[lo] == UPPER) != (t.variance[hi] == UPPER)
    && (forall a :: 0 <= a < r.Rank() ==> r.variance[a] == t.variance[Kept(lo, hi, a)])
    && forall index {:trigger r.At(index)} :: IsIndex(t.dim, r.Rank(), index) ==>
         r.At(index) == Sum(t.dim, DiagonalTerm(t, index, lo, hi))
  }

  /** The full index whose contracted slots are p and m. */
  function Crossed(index: Index, lo: nat, hi: nat, p: nat, m: nat): Index
    requires lo < hi <= |index| + 1
  {
    Refilled(index, lo, hi, m)[lo := p]
  }

  lemma CrossedBothWays(index: Index, lo: nat, hi: nat, p: nat, m: nat)
    requires lo < hi <= |index| + 1
    ensures Refilled(index, lo, hi, m)[lo := p] == Refilled(index, lo, hi, p)[hi := m]
    ensures Refilled(index, lo, hi, m)[lo] == m && Refilled(index, lo, hi, p)[hi] == p
  {}

  /** The terms of the two contracted slots: row m is the sum over p. */
  function LowTable(t: Tensor, d: Transport, k: nat, index: Index, lo: nat, hi: nat): Table
    requires lo < hi < t.Rank() && |index| == t.Rank() - 2
  {
    (m: nat, p: nat) => SlotSummand(t, lo, SlotMatrix(t, d, k, lo), Refilled(index, lo, hi, m), p)
  }

  function HighTable(t: Tensor, d: Transport, k: nat, index: Index, lo: nat, hi: nat): Table
    requires lo < hi < t.Rank() && |index| == t.Rank() - 2
  {
    (m: nat, p: nat) => SlotSummand(t, hi, SlotMatrix(t, d, k, hi), Refilled(index, lo, hi, m), p)
  }

  lemma Opposite(t: Tensor, d: Transport, k: nat, index: Index, lo: nat, hi: nat, m: nat, p: nat)
    requires lo < hi < t.Rank() && |index| == t.Rank() - 2 && IsDual(d)
    requires (t.variance[lo] == UPPER) != (t.variance[hi] == UPPER)
    ensures HighTable(t, d, k, index, lo, hi)(p, m) == -LowTable(t, d, k, index, lo, hi)(m, p)
  {
    CrossedBothWays(index, lo, hi, p, m);
    var x := t.At(Crossed(index, lo, hi, p, m));
    NegativeTimes(SlotMatrix(t, d, k, lo)(m, p), x);
    assert SlotMatrix(t, d, k, hi)(p, m) == -SlotMatrix(t, d, k, lo)(m, p);
  }

  /** One slot's term over the common value of the contracted ones. */
  function SlotAlong(t: Tensor, d: Transport, k: nat, index: Index, lo: nat, hi: nat, slot: nat): nat -> real
    requires lo < hi <= |index| + 1
  {
    (m: nat) => SlotTerm(t, d, k, Refilled(index, lo, hi, m), slot)
  }

  lemma AlongTable(
    t: Tensor, d: Transport, k: nat, index: Index, lo: nat, hi: nat, slot: nat, h: Table)
    requires lo < hi < t.Rank() && |index| == t.Rank() - 2 && slot < t.Rank()
    requires forall m, p :: h(m, p) == SlotSummand(t, slot, SlotMatrix(t, d, k, slot), Refilled(index, lo, hi, m), p)
    ensures Sum(t.dim, SlotAlong(t, d, k, index, lo, hi, slot)) == Sum(t.dim, RowSums(h, t.dim))
  {
    var terms := SlotAlong(t, d, k, index, lo, hi, slot);
    forall m | 0 <= m < t.dim ensures terms(m) == RowSums(h, t.dim)(m) {
      SumEqual(t.dim, Row(h, m), SlotSummands(t, slot, SlotMatrix(t, d, k, slot), Refilled(index, lo, hi, m)));
    }
    SumEqual(t.dim, RowSums(h, t.dim), terms);
  }

  lemma SlotsCancel(t: Tensor, d: Transport, k: nat, index: Index, lo: nat, hi: nat)
    requires lo < hi < t.Rank() && |index| == t.Rank() - 2 && IsDual(d)
    requires (t.variance[lo] == UPPER) != (t.variance[hi] == UPPER)
    ensures Sum(t.dim, SlotAlong(t, d, k, index, lo, hi, lo)) + Sum(t.dim, SlotAlong(t, d, k, index, lo, hi, hi)) == 0.0
  {
    var low, high, n := LowTable(t, d, k, index, lo, hi), HighTable(t, d, k, index, lo, hi), t.dim;
    AlongTable(t, d, k, index, lo, hi, lo, low);
    AlongTable(t, d, k, index, lo, hi, hi, high);
    SumsCommute(n, n, low);
    forall p | 0 <= p < n ensures RowSums(high, n)(p) == Signed(Antisymmetric, RowSums(Flipped(low), n)(p)) {
      forall m | 0 <= m < n ensures Row(high, p)(m) == Signed(Antisymmetric, Row(Flipped(low), p)(m)) {
        Opposite(t, d, k, index, lo, hi, m, p);
      }
      SumSigned(n, Row(Flipped(low), p), Row(high, p), Antisymmetric);
    }
    SumSigned(n, RowSums(Flipped(low), n), RowSums(high, n), Antisymmetric);
  }

  // ---- The other slots -----------------------------------------------------

  function KeptTable(t: Tensor, d: Transport, k: nat, index: Index, lo: nat, hi: nat, slot: nat): Table
    requires lo < hi < t.Rank() && |index| == t.Rank() - 2 && slot < t.Rank()
  {
    (m: nat, p: nat) => SlotSummand(t, slot, SlotMatrix(t, d, k, slot), Refilled(index, lo, hi, m), p)
  }

  lemma RefilledChanged(index: Index, lo: nat, hi: nat, a: nat, p: nat, m: nat)
    requires lo < hi <= |index| + 1 && a < |index|
    ensures Refilled(index[a := p], lo, hi, m) == Refilled(index, lo, hi, m)[Kept(lo, hi, a) := p]
    ensures Refilled(index, lo, hi, m)[Kept(lo, hi, a)] == index[a]
  {}

  lemma KeptTerm(
    r: Tensor, t: Tensor, d: Transport, k: nat, index: Index, lo: nat, hi: nat, a: nat, p: nat, m: nat)
    requires Traces(r, t, lo, hi) && IsIndex(t.dim, r.Rank(), index) && a < r.Rank()
    ensures KeptTable(t, d, k, index, lo, hi, Kept(lo, hi, a))(m, p) ==
            Times(SlotMatrix(r, d, k, a)(index[a], p), DiagonalTerm(t, index[a := p], lo, hi))(m)
  {
    RefilledChanged(index, lo, hi, a, p, m);
  }

  lemma KeptSummand(
    r: Tensor, t: Tensor, d: Transport, k: nat, index: Index, lo: nat, hi: nat, a: nat, p: nat)
    requires Traces(r, t, lo, hi) && IsIndex(t.dim, r.Rank(), index) && a < r.Rank() && p < t.dim
    ensures SlotSummand(r, a, SlotMatrix(r, d, k, a), index, p) ==
            RowSums(Flipped(KeptTable(t, d, k, index, lo, hi, Kept(lo, hi, a))), t.dim)(p)
  {
    var matrix, f := SlotMatrix(r, d, k, a), DiagonalTerm(t, index[a := p], lo, hi);
    var terms := Row(Flipped(KeptTable(t, d, k, index, lo, hi, Kept(lo, hi, a))), p);
    forall m | 0 <= m < t.dim ensures terms(m) == Times(matrix(index[a], p), f)(m) {
      KeptTerm(r, t, d, k, index, lo, hi, a, p, m);
    }
    assert IsIndex(t.dim, r.Rank(), index[a := p]) && r.At(index[a := p]) == Sum(t.dim, f);
    SummandOfSum(r, a, matrix, index, p, t.dim, f, terms);
  }

  lemma SummandOfSum(
    r: Tensor, a: nat, matrix: Matrix, index: Index, p: nat, n: nat, f: nat -> real, terms: nat -> real)
    requires a < |index| && r.At(index[a := p]) == Sum(n, f)
    requires forall m :: 0 <= m < n ==> terms(m) == Times(matrix(index[a], p), f)(m)
    ensures SlotSummand(r, a, matrix, index, p) == Sum(n, terms)
  {
    ScaledSum(n, f, terms, matrix(index[a], p));
  }

  lemma KeptSlot(r: Tensor, t: Tensor, d: Transport, k: nat, index: Index, lo: nat, hi: nat, a: nat)
    requires Traces(r, t, lo, hi) && IsIndex(t.dim, r.Rank(), index) && a < r.Rank()
    ensures SlotTerm(r, d, k, index, a) == Sum(t.dim, SlotAlong(t, d, k, index, lo, hi, Kept(lo, hi, a)))
  {
    var h := KeptTable(t, d, k, index, lo, hi, Kept(lo, hi, a));
    forall p | 0 <= p < t.dim
      ensures SlotSummands(r, a, SlotMatrix(r, d, k, a), index)(p) == RowSums(Flipped(h), t.dim)(p)
    {
      KeptSummand(r, t, d, k, index, lo, hi, a, p);
    }
    SumEqual(t.dim, RowSums(Flipped(h), t.dim), SlotSummands(r, a, SlotMatrix(r, d, k, a), index));
    SumsCommute(t.dim, t.dim, h);
    AlongTable(t, d, k, index, lo, hi, Kept(lo, hi, a), h);
  }

  /** Row a is slot a of the contraction over the common value. */
  function SlotTable(t: Tensor, d: Transport, k: nat, index: Index, lo: nat, hi: nat): Table
    requires lo < hi <= |index| + 1
  {
    (a: nat, m: nat) => SlotTerm(t, d, k, Refilled(index, lo, hi, m), Kept(lo, hi, a))
  }

  /** All slot terms of t over the common value. */
  function AllSlots(t: Tensor, d: Transport, k: nat, index: Index, lo: nat, hi: nat): nat -> real
    requires lo < hi <= |index| + 1
  {
    (m: nat) => Sum(t.Rank(), SlotTerms(t, d, k, Refilled(index, lo, hi, m)))
  }

  lemma KeptSlots(r: Tensor, t: Tensor, d: Transport, k: nat, index: Index, lo: nat, hi: nat)
    requires Traces(r, t, lo, hi) && IsIndex(t.dim, r.Rank(), index)
    ensures Sum(r.Rank(), SlotTerms(r, d, k, index)) ==
            Sum(t.dim, RowSums(Flipped(SlotTable(t, d, k, index, lo, hi)), r.Rank()))
  {
    var h := SlotTable(t, d, k, index, lo, hi);
    forall a | 0 <= a < r.Rank() ensures SlotTerms(r, d, k, index)(a) == RowSums(h, t.dim)(a) {
      KeptSlot(r, t, d, k, index, lo, hi, a);
      SumEqual(t.dim, Row(h, a), SlotAlong(t, d, k, index, lo, hi, Kept(lo, hi, a)));
    }
    SumEqual(r.Rank(), RowSums(h, t.dim), SlotTerms(r, d, k, index));
    SumsCommute(r.Rank(), t.dim, h);
  }

  function Both(f: nat -> real, g: nat -> real): nat -> real {
    (m: nat) => f(m) + g(m)
  }

  lemma SlotsOfContraction(r: Tensor, t: Tensor, d: Transport, k: nat, index: Index, lo: nat, hi: nat)
    requires Traces(r, t, lo, hi) && IsIndex(t.dim, r.Rank(), index) && IsDual(d)
    ensures Sum(r.Rank(), SlotTerms(r, d, k, index)) == Sum(t.dim, AllSlots(t, d, k, index, lo, hi))
  {
    var kept := RowSums(Flipped(SlotTable(t, d, k, index, lo, hi)), r.Rank());
    var low, high := SlotAlong(t, d, k, index, lo, hi, lo), SlotAlong(t, d, k, index, lo, hi, hi);
    forall m | 0 <= m < t.dim ensures AllSlots(t, d, k, index, lo, hi)(m) == kept(m) + Both(low, high)(m) {
      SumWithoutTwo(t.Rank(), lo, hi, SlotTerms(t, d, k, Refilled(index, lo, hi, m)),
                    Row(Flipped(SlotTable(t, d, k, index, lo, hi)), m));
    }
    SumAdd(t.dim, kept, Both(low, high), AllSlots(t, d, k, index, lo, hi));
    SumAdd(t.dim, low, high, Both(low, high));
    SlotsCancel(t, d, k, index, lo, hi);
    KeptSlots(r, t, d, k, index, lo, hi);
  }

  // ---- The derivative of a contraction -------------------------------------

  function WeightTerms(t: Tensor, d: Transport, k: nat, f: nat -> real): nat -> real {
    (m: nat) => WeightTerm(t, d, k, f(m))
  }

  lemma WeightOfSum(r: Tensor, t: Tensor, d: Transport, k: nat, f: nat -> real)
    requires r.weight == t.weight
    ensures WeightTerm(r, d, k, Sum(t.dim, f)) == Sum(t.dim, WeightTerms(t, d, k, f))
  {
    var factor := d.density(k) * (t.weight as real);
    forall m | 0 <= m < t.dim ensures WeightTerms(t, d, k, f)(m) == Times(factor, f)(m) {
      assert WeightTerm(t, d, k, f(m)) == factor * f(m);
    }
    ScaledSum(t.dim, f, WeightTerms(t, d, k, f), factor);
  }

  /** The derivative of t over the common value. */
  function TransportedAlong(t: Tensor, d: Transport, k: nat, index: Index, lo: nat, hi: nat): nat -> real
    requires lo < hi <= |index| + 1
  {
    (m: nat) => Transported(t, d, k, Refilled(index, lo, hi, m))
  }

  /** The derivative of a contraction is the contraction of the derivative. */
  lemma TransportedTrace(r: Tensor, t: Tensor, d: Transport, k: nat, index: Index, lo: nat, hi: nat)
    requires Traces(r, t, lo, hi) && IsIndex(t.dim, r.Rank(), index) && IsDual(d) && IsAdditive(d)
    ensures Transported(r, d, k, index) == Sum(t.dim, TransportedAlong(t, d, k, index, lo, hi))
  {
    var f, n := DiagonalTerm(t, index, lo, hi), t.dim;
    var changes, slots, weights := Derivatives(d, k, f), AllSlots(t, d, k, index, lo, hi), WeightTerms(t, d, k, f);
    DerivativeOfSum(n, d, k, f);
    SlotsOfContraction(r, t, d, k, index, lo, hi);
    WeightOfSum(r, t, d, k, f);
    SumAdd(n, changes, slots, Both(changes, slots));
    SumAdd(n, Both(changes, slots), weights, TransportedAlong(t, d, k, index, lo, hi));
  }

  /** The partial derivative of a sum is the sum of the partial derivatives. */
  ghost predicate HasAdditivePartials(g: Geometry) {
    forall k, x, y :: g.partial(k, x + y) == g.partial(k, x) + g.partial(k, y)
  }

  lemma ConnectionFits(g: Geometry, dim: nat)
    requires HasAdditivePartials(g)
    ensures IsDual(Connection(g, dim)) && IsAdditive(Connection(g, dim))
  {}

  lemma AlongFits(g: Geometry, v: Tensor)
    requires HasAdditivePartials(g)
    ensures IsDual(Along(g, v)) && IsAdditive(Along(g, v))
  {
    forall k, x, y ensures Along(g, v).partial(k, x + y) == Along(g, v).partial(k, x) + Along(g, v).partial(k, y) {
      AdvectedAdds(g, v, x, y);
    }
  }

  lemma AdvectedAdds(g: Geometry, v: Tensor, x: real, y: real)
    requires HasAdditivePartials(g)
    ensures Sum(v.dim, Advected(g, v, x + y)) == Sum(v.dim, Advected(g, v, x)) + Sum(v.dim, Advected(g, v, y))
  {
    forall m | 0 <= m < v.dim ensures Advected(g, v, x + y)(m) == Advected(g, v, x)(m) + Advected(g, v, y)(m) {
      TimesBoth(v.At([m]), g.partial(m, x), g.partial(m, y));
    }
    SumAdd(v.dim, Advected(g, v, x), Advected(g, v, y), Advected(g, v, x + y));
  }

  lemma TimesBoth(v: real, x: real, y: real)
    ensures v * (x + y) == v * x + v * y
  {}

  lemma ContractionTraces(t: Tensor, lo: nat, hi: nat)
    requires t.WellShaped() && lo < hi && Contract(t, lo, hi).Ok?
    ensures Traces(Contract(t, lo, hi).value, t, lo, hi)
  {
    var r := Contract(t, lo, hi).value;
    forall a | 0 <= a < r.Rank() ensures r.variance[a] == t.variance[Kept(lo, hi, a)] {
      SurvivorAt(t.Rank(), lo, hi, a);
    }
    forall index | IsIndex(t.dim, r.Rank(), index) ensures r.At(index) == Sum(t.dim, DiagonalTerm(t, index, lo, hi)) {
      ContractedComponent(t, lo, hi, index);
    }
  }

  /** The slots left over when one more slot stands at the end. */
  lemma SurvivorsAndLast(t: Tensor, lo: nat, hi: nat)
    requires lo < hi < t.Rank()
    ensures Survivors(t.Rank() + 1, lo, hi) == Survivors(t.Rank(), lo, hi) + [t.Rank()]
    ensures Gathered(t.variance + [LOWER], Survivors(t.Rank() + 1, lo, hi)) ==
            Gathered(t.variance, Survivors(t.Rank(), lo, hi)) + [LOWER]
  {}

  lemma PulledAndLast(t: Tensor, slots: seq<nat>)
    requires TrueRecords(t) && DistinctSlots(t.Rank(), slots)
    ensures Pulled(t.symmetries, slots + [t.Rank()]) == Pulled(t.symmetries, slots)
  {
    var longer := slots + [t.Rank()];
    forall a, b | 0 <= a < b < |longer| && Ordered(longer[a], longer[b]) in t.symmetries ensures b < |slots| {
      assert TrueRecord(t, Ordered(longer[a], longer[b]));
    }
  }

  /** Covariant differentiation commutes with contraction. */
  lemma CovariantCommutes(t: Tensor, g: Geometry, lo: nat, hi: nat)
    requires Valid(t) && t.Rank() < MAX_RANK && lo < hi && Contract(t, lo, hi).Ok? && HasAdditivePartials(g)
    ensures var d := Connection(g, t.dim);
            && CovariantDiff(t, d).Ok?
            && Contract(CovariantDiff(t, d).value, lo, hi) == CovariantDiff(Contract(t, lo, hi).value, d)
  {
    var d, r := Connection(g, t.dim), Contract(t, lo, hi).value;
    var after, before := CovariantDiff(r, d).value, Contract(CovariantDiff(t, d).value, lo, hi).value;
    SurvivorsAndLast(t, lo, hi);
    PulledAndLast(t, Survivors(t.Rank(), lo, hi));
    forall whole | IsIndex(t.dim, after.Rank(), whole) ensures before.At(whole) == after.At(whole) {
      CovariantCommutesAt(t, g, lo, hi, whole[..r.Rank()], whole[r.Rank()]);
      assert whole == whole[..r.Rank()] + [whole[r.Rank()]];
    }
    SameList(after, before);
  }

  lemma CovariantCommutesAt(t: Tensor, g: Geometry, lo: nat, hi: nat, index: Index, k: nat)
    requires t.WellShaped() && t.Rank() < MAX_RANK && lo < hi && Contract(t, lo, hi).Ok? && HasAdditivePartials(g)
    requires IsIndex(t.dim, t.Rank() - 2, index) && k < t.dim
    ensures var d := Connection(g, t.dim);
            && CovariantDiff(t, d).Ok? && Contract(CovariantDiff(t, d).value, lo, hi).Ok?
            && CovariantDiff(Contract(t, lo, hi).value, d).Ok?
            && Contract(CovariantDiff(t, d).value, lo, hi).value.At(index + [k]) ==
               CovariantDiff(Contract(t, lo, hi).value, d).value.At(index + [k])
  {
    var d, r := Connection(g, t.dim), Contract(t, lo, hi).value;
    var full := CovariantDiff(t, d).value;
    ConnectionFits(g, t.dim);
    ContractionTraces(t, lo, hi);
    TransportedTrace(r, t, d, k, index, lo, hi);
    DerivativeAt(r, d, index, k);
    ContractedComponent(full, lo, hi, index + [k]);
    forall m | 0 <= m < t.dim
      ensures DiagonalTerm(full, index + [k], lo, hi)(m) == TransportedAlong(t, d, k, index, lo, hi)(m)
    {
      RefilledAndLast(t.dim, index, lo, hi, m, k);
      DerivativeAt(t, d, Refilled(index, lo, hi, m), k);
    }
    SumEqual(t.dim, TransportedAlong(t, d, k, index, lo, hi), DiagonalTerm(full, index + [k], lo, hi));
  }

  lemma RefilledAndLast(dim: nat, index: Index, lo: nat, hi: nat, m: nat, k: nat)
    requires lo < hi <= |index| + 1 && InRange(dim, index) && m < dim
    ensures Refilled(index + [k], lo, hi, m) == Refilled(index, lo, hi, m) + [k]
    ensures IsIndex(dim, |index| + 2, Refilled(index, lo, hi, m))
  {}

  /** Lie differentiation commutes with contraction. */
  lemma LieCommutes(t: Tensor, v: Tensor, g: Geometry, lo: nat, hi: nat)
    requires Valid(t) && lo < hi && Contract(t, lo, hi).Ok? && LieAlong(t, v, g).Ok? && HasAdditivePartials(g)
    ensures Contract(LieAlong(t, v, g).value, lo, hi) == LieAlong(Contract(t, lo, hi).value, v, g)
  {
    var r := Contract(t, lo, hi).value;
    var after, before := LieAlong(r, v, g).value, Contract(LieAlong(t, v, g).value, lo, hi).value;
    forall index | IsIndex(t.dim, r.Rank(), index) ensures before.At(index) == after.At(index) {
      LieCommutesAt(t, v, g, lo, hi, index);
    }
    SameList(after, before);
  }

  lemma LieCommutesAt(t: Tensor, v: Tensor, g: Geometry, lo: nat, hi: nat, index: Index)
    requires t.WellShaped() && lo < hi && Contract(t, lo, hi).Ok? && LieAlong(t, v, g).Ok? && HasAdditivePartials(g)
    requires IsIndex(t.dim, t.Rank() - 2, index)
    ensures Contract(LieAlong(t, v, g).value, lo, hi).Ok? && LieAlong(Contract(t, lo, hi).value, v, g).Ok?
    ensures Contract(LieAlong(t, v, g).value, lo, hi).value.At(index) ==
            LieAlong(Contract(t, lo, hi).value, v, g).value.At(index)
  {
    var d, r, full := Along(g, v), Contract(t, lo, hi).value, LieAlong(t, v, g).value;
    AlongFits(g, v);
    ContractionTraces(t, lo, hi);
    TransportedTrace(r, t, d, 0, index, lo, hi);
    LieAt(r, v, g, index);
    ContractedComponent(full, lo, hi, index);
    forall m | 0 <= m < t.dim
      ensures DiagonalTerm(full, index, lo, hi)(m) == TransportedAlong(t, d, 0, index, lo, hi)(m)
    {
      RefilledAndLast(t.dim, index, lo, hi, m, 0);
      LieAt(t, v, g, Refilled(index, lo, hi, m));
    }
    SumEqual(t.dim, TransportedAlong(t, d, 0, index, lo, hi), DiagonalTerm(full, index, lo, hi));
  }
}
