/** What the slot operations mean for the components, and how they relate. */
module TensorRelations {
  import opened Sums
  import opened TensorIndex
  import opened TensorKernels
  import opened TensorSymmetry
  import opened TensorTruth
  import opened TensorRoundTrips

  /** The list whose entry t is the old entry order[t]. */
  function Reordered<A>(index: seq<A>, order: seq<int>): (moved: seq<A>)
    requires IsPermutation(|index|, order)
    ensures |moved| == |index|
  {
    PermutationDistinct(|index|, order);
    seq(|index|, t requires 0 <= t < |index| => index[order[t]])
  }

  /** New slot t is old slot order[t]: the component at the reordered index is the old
      component. */
  lemma PermutedComponent(t: Tensor, order: seq<int>, index: Index)
    requires t.WellShaped() && IsPermutation(t.Rank(), order) && IsIndex(t.dim, t.Rank(), index)
    ensures Permute(t, order).Ok?
    ensures Permute(t, order).value.At(Reordered(index, order)) == t.At(index)
    ensures Permute(t, order).value.variance == Reordered(t.variance, order)
    ensures Permute(t, order).value.weight == t.weight
  {
    PermutationDistinct(t.Rank(), order);
    var slots: seq<nat> := order;
    var r, moved := Permute(t, order).value, Reordered(index, order);
    CoversAll(t.Rank(), slots);
    Tabulated(r, Gather(t, slots));
    GatherAt(t, r, slots, moved);
    assert Scatter(t.Rank(), slots, moved, 0) == index;
  }

  // ---- One tensor at a time ------------------------------------------------

  function MetricTerm(matrix: Matrix, t: Tensor, index: Index, slot: nat): nat -> real
    requires slot < |index|
  {
    (m: nat) => matrix(index[slot], m) * t.At(index[slot := m])
  }

  /** A lower slot is raised by the inverse metric. */
  lemma RaisedComponent(t: Tensor, slot: nat, g: Geometry, index: Index)
    requires t.WellShaped() && t.Rank() <= MAX_RANK && IsIndex(t.dim, t.Rank(), index)
    ensures var r := Evaluate(Raised(Given(t), slot), g, t.dim);
            && (r.Ok? <==> slot < t.Rank() && t.variance[slot] == LOWER)
            && (r.Ok? ==>
                  && r.value.At(index) == Sum(t.dim, MetricTerm(g.inverse, t, index, slot))
                  && r.value.variance == t.variance[slot := UPPER] && r.value.weight == t.weight)
  {
    if slot < t.Rank() && t.variance[slot] == LOWER {
      ChangedComponent(t, slot, LOWER, g.inverse, index);
    }
  }

  /** An upper slot is lowered by the metric. */
  lemma LoweredComponent(t: Tensor, slot: nat, g: Geometry, index: Index)
    requires t.WellShaped() && t.Rank() <= MAX_RANK && IsIndex(t.dim, t.Rank(), index)
    ensures var r := Evaluate(Lowered(Given(t), slot), g, t.dim);
            && (r.Ok? <==> slot < t.Rank() && t.variance[slot] == UPPER)
            && (r.Ok? ==>
                  && r.value.At(index) == Sum(t.dim, MetricTerm(g.metric, t, index, slot))
                  && r.value.variance == t.variance[slot := LOWER] && r.value.weight == t.weight)
  {
    if slot < t.Rank() && t.variance[slot] == UPPER {
      ChangedComponent(t, slot, UPPER, g.metric, index);
    }
  }

  lemma ChangedComponent(t: Tensor, slot: nat, from: int, matrix: Matrix, index: Index)
    requires t.WellShaped() && slot < t.Rank() && IsIndex(t.dim, t.Rank(), index)
    requires (from == UPPER || from == LOWER) && t.variance[slot] == from
    ensures ChangeVariance(t, slot, from, matrix).Ok?
    ensures ChangeVariance(t, slot, from, matrix).value.At(index) == Sum(t.dim, MetricTerm(matrix, t, index, slot))
  {
    var r := ChangeVariance(t, slot, from, matrix).value;
    Tabulated(r, SlotProduct(t, slot, matrix));
    assert r.At(index) == SlotProduct(t, slot, matrix)(index);
    SumEqual(t.dim, MetricTerm(matrix, t, index, slot), SlotSummands(t, slot, matrix, index));
  }

  /** Multiplying by a density factor multiplies every component and adds one to the
      weight; giving another weight changes nothing else. */
  lemma ScaledComponent(t: Tensor, factor: real, g: Geometry, index: Index)
    requires t.WellShaped() && t.Rank() <= MAX_RANK && IsIndex(t.dim, t.Rank(), index)
    ensures var r := Evaluate(Scaled(Given(t), factor), g, t.dim);
            && r.Ok? && r.value.At(index) == factor * t.At(index)
            && r.value.weight == t.weight + 1 && r.value.variance == t.variance
    ensures forall w :: Evaluate(Weighted(Given(t), w), g, t.dim) == Ok(t.(weight := w))
  {
    var r := MultiplyDensity(t, factor);
    Tabulated(r, Multiple(t, factor));
    assert r.At(index) == Multiple(t, factor)(index);
  }

  /** The symmetric and the antisymmetric part, component by component. */
  lemma PartComponents(t: Tensor, first: nat, second: nat, g: Geometry, index: Index)
    requires t.WellShaped() && t.Rank() <= MAX_RANK && IsIndex(t.dim, t.Rank(), index)
    ensures var s, a := Evaluate(Symmetrized(Given(t), first, second), g, t.dim),
                        Evaluate(Antisymmetrized(Given(t), first, second), g, t.dim);
            && (s.Ok? <==> a.Ok?)
            && (s.Ok? <==> first < t.Rank() && second < t.Rank() && first != second &&
                           t.variance[first] == t.variance[second])
            && (s.Ok? ==>
                  var swapped := index[first := index[second]][second := index[first]];
                  && s.value.At(index) == (t.At(index) + t.At(swapped)) / 2.0
                  && a.value.At(index) == (t.At(index) - t.At(swapped)) / 2.0
                  && s.value.variance == a.value.variance == t.variance
                  && s.value.weight == a.value.weight == t.weight)
  {
    var s, a := Project(t, first, second, Symmetric), Project(t, first, second, Antisymmetric);
    if s.Ok? {
      Tabulated(s.value, Projection(t, first, second, Symmetric));
      Tabulated(a.value, Projection(t, first, second, Antisymmetric));
      assert s.value.At(index) == ProjectionEntry(t, first, second, Symmetric, index);
      assert a.value.At(index) == ProjectionEntry(t, first, second, Antisymmetric, index);
    }
  }

  // ---- Products ------------------------------------------------------------

  /** Left slots come first: a component of the product is the product of components. */
  lemma ProductComponent(t: Tensor, u: Tensor, left: Index, right: Index)
    requires t.WellShaped() && u.WellShaped() && t.dim == u.dim && t.Rank() + u.Rank() <= MAX_RANK
    requires IsIndex(t.dim, t.Rank(), left) && IsIndex(u.dim, u.Rank(), right)
    ensures Product(t, u).Ok? && Product(t, u).value.At(left + right) == t.At(left) * u.At(right)
    ensures Product(t, u).value.variance == t.variance + u.variance && Product(t, u).value.weight == t.weight + u.weight
  {
    var r, index := Product(t, u).value, left + right;
    Tabulated(r, Outer(t, u));
    assert r.At(index) == Outer(t, u)(index);
    assert index[..t.Rank()] == left && index[t.Rank()..] == right;
  }

  function PairTerm(t: Tensor, u: Tensor): nat -> real {
    (k: nat) => t.At([k]) * u.At([k])
  }

  /** A vector times a covector, contracted: the sum of the products of components, and
      the weights add. */
  lemma ScalarProduct(t: Tensor, u: Tensor)
    requires t.WellShaped() && u.WellShaped() && t.dim == u.dim && t.variance == [UPPER] && u.variance == [LOWER]
    ensures Product(t, u).Ok? && Contract(Product(t, u).value, 0, 1).Ok?
    ensures Contract(Product(t, u).value, 0, 1).value.At([]) == Sum(t.dim, PairTerm(t, u))
    ensures Contract(Product(t, u).value, 0, 1).value.weight == t.weight + u.weight
  {
    VectorTimesCovector(t, u);
    var whole := Product(t, u).value;
    var r := Contract(whole, 0, 1).value;
    Tabulated(r, Trace(whole, []));
    assert r.At([]) == Trace(whole, [])([]);
    DiagonalSum(t, u, whole);
  }

  lemma VectorTimesCovector(t: Tensor, u: Tensor)
    requires t.WellShaped() && u.WellShaped() && t.dim == u.dim && t.variance == [UPPER] && u.variance == [LOWER]
    ensures Product(t, u).Ok? && Product(t, u).value.variance == [UPPER, LOWER]
    ensures var whole := Product(t, u).value;
            && Contract(whole, 0, 1).Ok? && Contract(whole, 0, 1).value.Rank() == 0
            && Contract(whole, 0, 1).value.components == Tabulate(t.dim, 0, Trace(whole, []))
  {
    NoSlotsLeft();
    assert t.variance + u.variance == [UPPER, LOWER];
  }

  lemma DiagonalSum(t: Tensor, u: Tensor, whole: Tensor)
    requires t.WellShaped() && u.WellShaped() && t.dim == u.dim && t.variance == [UPPER] && u.variance == [LOWER]
    requires Product(t, u) == Ok(whole)
    ensures TraceEntry(whole, [], []) == Sum(t.dim, PairTerm(t, u))
  {
    forall k | 0 <= k < t.dim ensures TraceTerms(whole, [], [])(k) == Signed(Symmetric, PairTerm(t, u)(k)) {
      DiagonalTerm(t, u, k);
    }
    SumSigned(t.dim, PairTerm(t, u), TraceTerms(whole, [], []), Symmetric);
  }

  lemma NoSlotsLeft()
    ensures Survivors(2, 0, 1) == []
  {
    assert Survivors(1, 0, 1) == [];
  }

  lemma DiagonalTerm(t: Tensor, u: Tensor, k: nat)
    requires t.WellShaped() && u.WellShaped() && t.dim == u.dim && t.variance == [UPPER] && u.variance == [LOWER]
    requires k < t.dim
    ensures TraceTerm(Product(t, u).value, [], [], k) == t.At([k]) * u.At([k])
  {
    ProductComponent(t, u, [k], [k]);
    assert Scatter(2, [], [], k) == [k] + [k];
  }

  // ---- Declarations --------------------------------------------------------

  /** A declaration is accepted exactly when it names two distinct slots of equal
      variance and is true of the components; it then adds its record and nothing else. */
  lemma DeclareExactly(t: Tensor, first: int, second: int, kind: Kind)
    requires t.WellShaped()
    ensures Declare(t, first, second, kind).Ok? <==>
              && kind != NoSymmetry && 0 <= first < t.Rank() && 0 <= second < t.Rank() && first != second
              && t.variance[first] == t.variance[second] && Holds(t, first, second, kind)
    ensures Declare(t, first, second, kind).Ok? ==>
              Declare(t, first, second, kind).value == t.(symmetries := t.symmetries[Ordered(first, second) := kind])
  {
    if 0 <= first < t.Rank() && 0 <= second < t.Rank() {
      CheckedMeaning(t, first, second, kind);
    }
  }

  // ---- Refusals ------------------------------------------------------------

  predicate InSlots(t: Tensor, first: int, second: int) {
    0 <= first < t.Rank() && 0 <= second < t.Rank()
  }

  /** A slot out of range is refused before equal slots, and those before the variances. */
  lemma PairRefused(t: Tensor, first: int, second: int, kind: Kind)
    requires t.WellShaped() && kind != NoSymmetry
    ensures !InSlots(t, first, second) ==>
              Contract(t, first, second) == Project(t, first, second, kind) == Declare(t, first, second, kind) ==
              Err(SlotOutOfRange)
    ensures InSlots(t, first, second) && first == second ==>
              Contract(t, first, second) == Project(t, first, second, kind) == Declare(t, first, second, kind) ==
              Err(SameSlot)
    ensures InSlots(t, first, second) && first != second && t.variance[first] == t.variance[second] ==>
              Contract(t, first, second) == Err(EqualVariance)
    ensures InSlots(t, first, second) && t.variance[first] != t.variance[second] ==>
              Project(t, first, second, kind) == Declare(t, first, second, kind) == Err(UnequalVariance)
    ensures Declare(t, first, second, NoSymmetry) == Err(NoSuchSymmetry)
  {}

  /** A divergence takes a first upper slot, and raising and lowering a slot in range of the
      other variance. */
  lemma SlotRefused(t: Tensor, slot: int, from: int, matrix: Matrix, d: Transport)
    requires t.WellShaped() && (from == UPPER || from == LOWER)
    ensures Divergence(t, d).Ok? <==> t.Rank() > 0 && t.variance[0] == UPPER
    ensures Divergence(t, d) == Err(WrongRank) <==> t.Rank() == 0
    ensures ChangeVariance(t, slot, from, matrix).Ok? <==> 0 <= slot < t.Rank() && t.variance[slot] == from
    ensures ChangeVariance(t, slot, from, matrix) == Err(WrongRank) <==> t.Rank() == 0
    ensures ChangeVariance(t, slot, from, matrix) == Err(SlotOutOfRange) <==> t.Rank() > 0 && !InSlots(t, slot, slot)
  {}

  /** Permuting takes every slot once and nothing else. */
  lemma PermuteRefused(t: Tensor, order: seq<int>)
    requires t.WellShaped()
    ensures Permute(t, order) == Err(NotAPermutation) <==>
              |order| != t.Rank() || exists s :: 0 <= s < t.Rank() && s !in order
  {
    if |order| == t.Rank() && forall s :: 0 <= s < t.Rank() ==> s in order {
      OnlySlots(t.Rank(), order);
    } else if IsPermutation(t.Rank(), order) {
      forall s | 0 <= s < t.Rank() ensures s in order {
        assert s in Range(t.Rank());
      }
    }
  }

  /** As many entries as slots, with every slot among them, are the slots. */
  lemma OnlySlots(rank: nat, order: seq<int>)
    requires |order| == rank && forall s :: 0 <= s < rank ==> s in order
    ensures IsPermutation(rank, order)
  {
    var entries := set s | s in order;
    SetOfSeqSize(order);
    assert Range(rank) <= entries;
    SubsetOfSize(Range(rank), entries);
  }

  lemma SubsetOfSize(a: set<int>, b: set<int>)
    requires a <= b && |b| <= |a|
    ensures a == b
  {
    assert b == a + (b - a) && |b| == |a| + |b - a|;
    forall x | x in b ensures x in a {
      assert x !in b - a;
    }
  }

  // ---- Ranks ---------------------------------------------------------------

  /** No tensor has more than five slots; a product or derivative that would is refused. */
  lemma {:induction false} RankLimit(term: Term, g: Geometry, dim: nat)
    ensures Evaluate(term, g, dim).Ok? ==> Evaluate(term, g, dim).value.Rank() <= 5
  {
    match term
    case Given(_) =>
    case Multiplied(left, right) =>
    case LieDragged(of, _) => RankLimit(of, g, dim);
    case _ => RankLimit(term.of, g, dim);
  }

  lemma RankRefused(t: Tensor, u: Tensor, d: Transport)
    requires t.WellShaped() && u.WellShaped()
    ensures Product(t, u).Ok? <==> t.Rank() + u.Rank() <= 5
    ensures CovariantDiff(t, d).Ok? <==> t.Rank() < 5
  {}

  // ---- Contraction ---------------------------------------------------------

  lemma {:induction false} SurvivorsEitherWay(rank: nat, first: nat, second: nat)
    ensures Survivors(rank, first, second) == Survivors(rank, second, first)
  {
    if rank > 0 {
      SurvivorsEitherWay(rank - 1, first, second);
    }
  }

  /** An upper and a lower slot can be contracted, and which of the two is named first
      does not matter. */
  lemma ContractEitherWay(t: Tensor, first: int, second: int)
    requires t.WellShaped()
    ensures Contract(t, first, second).Ok? <==>
              && 0 <= first < t.Rank() && 0 <= second < t.Rank()
              && {t.variance[first], t.variance[second]} == {UPPER, LOWER}
    ensures Contract(t, first, second).Ok? ==> Contract(t, second, first) == Contract(t, first, second)
  {
    if Contract(t, first, second).Ok? {
      assert {t.variance[first], t.variance[second]} == {UPPER, LOWER};
      SurvivorsEitherWay(t.Rank(), first, second);
    }
  }

  lemma {:induction false} InnerSlots(count: nat, last: nat)
    requires 0 < count <= last
    ensures Survivors(count, 0, last) == AllButFirst(count)
  {
    if count == 1 {
      assert Survivors(0, 0, last) == [];
    } else {
      InnerSlots(count - 1, last);
    }
  }

  /** The covariant divergence is the contraction of the covariant derivative's first
      slot with its derivative slot, with the same records. */
  lemma DivergenceIsContraction(t: Tensor, d: Transport)
    requires Valid(t) && Divergence(t, d).Ok? && CovariantDiff(t, d).Ok?
    ensures Contract(CovariantDiff(t, d).value, 0, t.Rank()) == Divergence(t, d)
  {
    var n, full := t.Rank(), CovariantDiff(t, d).value;
    var r, slots := Divergence(t, d).value, AllButFirst(t.Rank());
    InnerSlots(n, n);
    assert Survivors(n + 1, 0, n) == slots;
    var contracted := Contract(full, 0, n).value;
    assert contracted.variance == r.variance;
    Tabulated(full, Covariant(t, d));
    Tabulated(contracted, Trace(full, slots));
    Tabulated(r, Diverged(t, d));
    forall index | IsIndex(t.dim, n - 1, index) ensures contracted.At(index) == r.At(index) {
      TraceIsDivergence(t, d, full, slots, index);
    }
    SameList(r, contracted);
  }

  lemma TraceIsDivergence(t: Tensor, d: Transport, full: Tensor, slots: seq<nat>, index: Index)
    requires t.WellShaped() && t.Rank() > 0 && slots == AllButFirst(t.Rank()) && IsIndex(t.dim, t.Rank() - 1, index)
    requires full.dim == t.dim && full.Rank() == t.Rank() + 1 && Tabulates(full, Covariant(t, d))
    ensures TraceEntry(full, slots, index) == DivergenceEntry(t, d, index)
  {
    forall m | 0 <= m < t.dim
      ensures TraceTerms(full, slots, index)(m) == Signed(Symmetric, DivergenceTerms(t, d, index)(m))
    {
      var whole := [m] + index + [m];
      ScatterAround(t.Rank(), slots, index, m);
      assert full.At(whole) == Covariant(t, d)(whole);
      assert whole[..t.Rank()] == [m] + index;
    }
    SumSigned(t.dim, DivergenceTerms(t, d, index), TraceTerms(full, slots, index), Symmetric);
  }

  lemma ScatterAround(rank: nat, slots: seq<nat>, index: Index, m: nat)
    requires rank > 0 && slots == AllButFirst(rank) && |index| == rank - 1
    ensures Scatter(rank + 1, slots, index, m) == [m] + index + [m]
  {
    forall s | 0 <= s < rank + 1 ensures Scatter(rank + 1, slots, index, m)[s] == ([m] + index + [m])[s] {
      if 0 < s < rank {
        assert slots[s - 1] == s;
        PositionUnique(rank, slots, s - 1);
      }
    }
  }

  // ---- Symmetric and antisymmetric parts -----------------------------------

  /** The two parts add up to the tensor. */
  lemma PartsAddUp(t: Tensor, first: int, second: int, index: Index)
    requires Valid(t) && Project(t, first, second, Symmetric).Ok? && IsIndex(t.dim, t.Rank(), index)
    ensures Project(t, first, second, Antisymmetric).Ok?
    ensures Project(t, first, second, Symmetric).value.At(index) +
            Project(t, first, second, Antisymmetric).value.At(index) == t.At(index)
  {
    Tabulated(Project(t, first, second, Symmetric).value, Projection(t, first, second, Symmetric));
    Tabulated(Project(t, first, second, Antisymmetric).value, Projection(t, first, second, Antisymmetric));
  }

  /** A part taken twice is itself: averaging again changes no component. */
  lemma ProjectTwice(t: Tensor, first: int, second: int, kind: Kind)
    requires Valid(t) && kind != NoSymmetry && Project(t, first, second, kind).Ok?
    ensures Project(Project(t, first, second, kind).value, first, second, kind) == Project(t, first, second, kind)
  {
    var once := Project(t, first, second, kind).value;
    ProjectTrue(t, first, second, kind);
    assert TrueRecord(once, Ordered(first, second));
    if first > second {
      HoldsBothWays(once, second, first, kind);
    }
    var twice := Project(once, first, second, kind).value;
    Tabulated(twice, Projection(once, first, second, kind));
    forall index | IsIndex(t.dim, t.Rank(), index) ensures twice.At(index) == once.At(index) {
      HoldsAt(once, first, second, kind, index);
    }
    SameList(once, twice);
  }
}
