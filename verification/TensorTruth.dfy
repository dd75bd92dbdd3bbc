/** Every slot operation keeps every recorded symmetry true of the components. */
module TensorTruth {
  import opened Sums
  import opened TensorIndex
  import opened TensorKernels
  import opened TensorSymmetry

  // ---- One index at a time -------------------------------------------------

  /** The value of t after exchanging two slots of one index. */
  ghost predicate HoldsHere(t: Tensor, i: nat, j: nat, kind: Kind, index: Index)
    requires i < |index| && j < |index|
  {
    t.At(Swap(index, i, j)) == Signed(kind, t.At(index))
  }

  lemma HoldsAt(t: Tensor, i: nat, j: nat, kind: Kind, index: Index)
    requires i < t.Rank() && j < t.Rank() && Holds(t, i, j, kind) && IsIndex(t.dim, t.Rank(), index)
    ensures HoldsHere(t, i, j, kind, index) && HoldsHere(t, j, i, kind, index)
  {
    SwapAt(t.dim, index, i, j);
  }

  lemma HoldsBothWays(t: Tensor, i: nat, j: nat, kind: Kind)
    requires i < t.Rank() && j < t.Rank() && Holds(t, i, j, kind)
    ensures Holds(t, j, i, kind)
  {
    forall index | IsIndex(t.dim, t.Rank(), index) ensures t.At(Swap(index, j, i)) == Signed(kind, t.At(index)) {
      HoldsAt(t, i, j, kind, index);
    }
  }

  /** The components of r are the entries of the kernel. */
  ghost predicate Tabulates(r: Tensor, entry: Index -> real) {
    r.dim > 0 && forall index {:trigger r.At(index)} :: IsIndex(r.dim, r.Rank(), index) ==> r.At(index) == entry(index)
  }

  lemma Tabulated(r: Tensor, entry: Index -> real)
    requires r.dim > 0 && r.components == Tabulate(r.dim, r.Rank(), entry)
    ensures Tabulates(r, entry)
  {
    forall index | IsIndex(r.dim, r.Rank(), index) ensures r.At(index) == entry(index) {
      TabulateAt(r, entry, index);
    }
  }

  /** A kernel that respects the exchange at every index makes the record true. */
  lemma KernelHolds(r: Tensor, entry: Index -> real, i: nat, j: nat, kind: Kind)
    requires Tabulates(r, entry) && i < r.Rank() && j < r.Rank()
    requires forall index {:trigger Swap(index, i, j)} :: IsIndex(r.dim, r.Rank(), index) ==>
               entry(Swap(index, i, j)) == Signed(kind, entry(index))
    ensures Holds(r, i, j, kind)
  {}

  // ---- Permutation and contraction -----------------------------------------

  lemma GatherSwap(t: Tensor, slots: seq<nat>, index: Index, a: nat, b: nat, kind: Kind)
    requires t.dim > 0 && DistinctSlots(t.Rank(), slots) && IsIndex(t.dim, |slots|, index)
    requires a < |slots| && b < |slots| && Holds(t, slots[a], slots[b], kind)
    ensures Gather(t, slots)(Swap(index, a, b)) == Signed(kind, Gather(t, slots)(index))
  {
    ScatterSwap(t.dim, t.Rank(), slots, index, 0, a, b);
    ScatterInRange(t.dim, t.Rank(), slots, index, 0);
    HoldsAt(t, slots[a], slots[b], kind, Scatter(t.Rank(), slots, index, 0));
  }

  lemma TraceTermSwap(t: Tensor, slots: seq<nat>, index: Index, a: nat, b: nat, kind: Kind, m: nat)
    requires m < t.dim && DistinctSlots(t.Rank(), slots) && IsIndex(t.dim, |slots|, index)
    requires a < |slots| && b < |slots| && Holds(t, slots[a], slots[b], kind)
    ensures |Swap(index, a, b)| == |slots|
    ensures TraceTerms(t, slots, Swap(index, a, b))(m) == Signed(kind, TraceTerms(t, slots, index)(m))
  {
    ScatterSwap(t.dim, t.Rank(), slots, index, m, a, b);
    ScatterInRange(t.dim, t.Rank(), slots, index, m);
    HoldsAt(t, slots[a], slots[b], kind, Scatter(t.Rank(), slots, index, m));
  }

  lemma TraceSwap(t: Tensor, slots: seq<nat>, index: Index, a: nat, b: nat, kind: Kind)
    requires DistinctSlots(t.Rank(), slots) && IsIndex(t.dim, |slots|, index)
    requires a < |slots| && b < |slots| && Holds(t, slots[a], slots[b], kind)
    ensures Trace(t, slots)(Swap(index, a, b)) == Signed(kind, Trace(t, slots)(index))
  {
    var swapped := Swap(index, a, b);
    forall m | 0 <= m < t.dim
      ensures TraceTerms(t, slots, swapped)(m) == Signed(kind, TraceTerms(t, slots, index)(m))
    {
      TraceTermSwap(t, slots, index, a, b, kind, m);
    }
    SumSigned(t.dim, TraceTerms(t, slots, index), TraceTerms(t, slots, swapped), kind);
  }

  /** r has the slots of t listed in `slots`, with the records pulled back. */
  ghost predicate Pulls(t: Tensor, r: Tensor, slots: seq<nat>) {
    && DistinctSlots(t.Rank(), slots)
    && r.dim == t.dim
    && r.variance == Gathered(t.variance, slots)
    && r.symmetries == Pulled(t.symmetries, slots)
  }

  /** The old record that a pulled-back record comes from. */
  lemma PulledRecord(t: Tensor, r: Tensor, slots: seq<nat>, pair: Pair) returns (kind: Kind)
    requires TrueRecords(t) && Pulls(t, r, slots) && pair in r.symmetries
    ensures pair.0 < pair.1 < r.Rank() && |slots| == r.Rank()
    ensures kind == r.symmetries[pair] && kind != NoSymmetry && r.variance[pair.0] == r.variance[pair.1]
    ensures Holds(t, slots[pair.0], slots[pair.1], kind)
    ensures t.variance[slots[pair.0]] == t.variance[slots[pair.1]]
  {
    var source := Ordered(slots[pair.0], slots[pair.1]);
    assert TrueRecord(t, source);
    kind := t.symmetries[source];
    HoldsBothWays(t, source.0, source.1, kind);
  }

  lemma GatherTrue(t: Tensor, r: Tensor, slots: seq<nat>, pair: Pair)
    requires TrueRecords(t) && Pulls(t, r, slots) && Tabulates(r, Gather(t, slots)) && pair in r.symmetries
    ensures TrueRecord(r, pair)
  {
    var kind := PulledRecord(t, r, slots, pair);
    forall index | IsIndex(r.dim, r.Rank(), index)
      ensures Gather(t, slots)(Swap(index, pair.0, pair.1)) == Signed(kind, Gather(t, slots)(index))
    {
      GatherSwap(t, slots, index, pair.0, pair.1, kind);
    }
    KernelHolds(r, Gather(t, slots), pair.0, pair.1, kind);
  }

  lemma TraceTrue(t: Tensor, r: Tensor, slots: seq<nat>, pair: Pair)
    requires TrueRecords(t) && Pulls(t, r, slots) && Tabulates(r, Trace(t, slots)) && pair in r.symmetries
    ensures TrueRecord(r, pair)
  {
    var kind := PulledRecord(t, r, slots, pair);
    forall index | IsIndex(r.dim, r.Rank(), index)
      ensures Trace(t, slots)(Swap(index, pair.0, pair.1)) == Signed(kind, Trace(t, slots)(index))
    {
      TraceSwap(t, slots, index, pair.0, pair.1, kind);
    }
    KernelHolds(r, Trace(t, slots), pair.0, pair.1, kind);
  }

  lemma PermuteTrue(t: Tensor, order: seq<int>)
    requires Valid(t) && IsPermutation(t.Rank(), order)
    ensures Permute(t, order).Ok? && Valid(Permute(t, order).value)
  {
    PermutationDistinct(t.Rank(), order);
    var slots: seq<nat> := order;
    var r := Permute(t, order).value;
    Tabulated(r, Gather(t, slots));
    assert Pulls(t, r, slots);
    forall pair | pair in r.symmetries ensures TrueRecord(r, pair) {
      GatherTrue(t, r, slots, pair);
    }
  }

  lemma ContractTrue(t: Tensor, first: int, second: int)
    requires Valid(t) && Contract(t, first, second).Ok?
    ensures Valid(Contract(t, first, second).value)
  {
    var slots := Survivors(t.Rank(), first, second);
    var r := Contract(t, first, second).value;
    Tabulated(r, Trace(t, slots));
    assert Pulls(t, r, slots);
    forall pair | pair in r.symmetries ensures TrueRecord(r, pair) {
      TraceTrue(t, r, slots, pair);
    }
  }

  // ---- Product -------------------------------------------------------------

  lemma LeftSwap(t: Tensor, u: Tensor, index: Index, i: nat, j: nat, kind: Kind)
    requires |index| == t.Rank() + u.Rank() && InRange(t.dim, index)
    requires i < t.Rank() && j < t.Rank() && Holds(t, i, j, kind)
    ensures Outer(t, u)(Swap(index, i, j)) == Signed(kind, Outer(t, u)(index))
  {
    var n := t.Rank();
    var front, back := index[..n], index[n..];
    HoldsAt(t, i, j, kind, front);
  }

  lemma RightSwap(t: Tensor, u: Tensor, index: Index, i: nat, j: nat, kind: Kind)
    requires |index| == t.Rank() + u.Rank() && InRange(u.dim, index)
    requires i < u.Rank() && j < u.Rank() && Holds(u, i, j, kind)
    ensures Outer(t, u)(Swap(index, i + t.Rank(), j + t.Rank())) == Signed(kind, Outer(t, u)(index))
  {
    var n := t.Rank();
    HoldsAt(u, i, j, kind, index[n..]);
  }

  lemma LeftTrue(t: Tensor, u: Tensor, r: Tensor, pair: Pair)
    requires TrueRecord(t, pair) && r.dim == t.dim && r.variance == t.variance + u.variance
    requires Tabulates(r, Outer(t, u)) && pair in r.symmetries && r.symmetries[pair] == t.symmetries[pair]
    ensures TrueRecord(r, pair)
  {
    var kind := t.symmetries[pair];
    forall index | IsIndex(r.dim, r.Rank(), index)
      ensures Outer(t, u)(Swap(index, pair.0, pair.1)) == Signed(kind, Outer(t, u)(index))
    {
      LeftSwap(t, u, index, pair.0, pair.1, kind);
    }
    KernelHolds(r, Outer(t, u), pair.0, pair.1, kind);
  }

  lemma RightTrue(t: Tensor, u: Tensor, r: Tensor, source: Pair)
    requires TrueRecord(u, source) && r.dim == u.dim && r.variance == t.variance + u.variance
    requires Tabulates(r, Outer(t, u))
    requires (source.0 + t.Rank(), source.1 + t.Rank()) in r.symmetries
    requires r.symmetries[(source.0 + t.Rank(), source.1 + t.Rank())] == u.symmetries[source]
    ensures TrueRecord(r, (source.0 + t.Rank(), source.1 + t.Rank()))
  {
    RightHolds(t, u, r, source.0, source.1, u.symmetries[source]);
  }

  lemma RightHolds(t: Tensor, u: Tensor, r: Tensor, i: nat, j: nat, kind: Kind)
    requires r.dim == u.dim && r.Rank() == t.Rank() + u.Rank() && Tabulates(r, Outer(t, u))
    requires i < u.Rank() && j < u.Rank() && Holds(u, i, j, kind)
    ensures Holds(r, i + t.Rank(), j + t.Rank(), kind)
  {
    var a, b := i + t.Rank(), j + t.Rank();
    forall index | IsIndex(r.dim, r.Rank(), index)
      ensures Outer(t, u)(Swap(index, a, b)) == Signed(kind, Outer(t, u)(index))
    {
      RightSwap(t, u, index, i, j, kind);
    }
    KernelHolds(r, Outer(t, u), a, b, kind);
  }

  lemma Merged(a: map<Pair, Kind>, b: map<Pair, Kind>, pair: Pair)
    requires pair in a + b
    ensures pair in b ==> (a + b)[pair] == b[pair]
    ensures pair !in b ==> pair in a && (a + b)[pair] == a[pair]
  {}

  lemma ShiftedSource(symmetries: map<Pair, Kind>, n: nat, pair: Pair) returns (source: Pair)
    requires pair in Shifted(symmetries, n)
    ensures source in symmetries && pair == (source.0 + n, source.1 + n)
    ensures Shifted(symmetries, n)[pair] == symmetries[source]
  {
    source :| source in symmetries && pair == (source.0 + n, source.1 + n);
  }

  lemma RecordOfProduct(t: Tensor, u: Tensor, r: Tensor, pair: Pair)
    requires TrueRecords(t) && TrueRecords(u) && t.dim == u.dim == r.dim && r.variance == t.variance + u.variance
    requires Tabulates(r, Outer(t, u)) && r.symmetries == t.symmetries + Shifted(u.symmetries, t.Rank())
    requires pair in r.symmetries
    ensures TrueRecord(r, pair)
  {
    Merged(t.symmetries, Shifted(u.symmetries, t.Rank()), pair);
    if pair in Shifted(u.symmetries, t.Rank()) {
      RecordFromRight(t, u, r, pair);
    } else {
      assert TrueRecord(t, pair);
      LeftTrue(t, u, r, pair);
    }
  }

  lemma RecordFromRight(t: Tensor, u: Tensor, r: Tensor, pair: Pair)
    requires TrueRecords(u) && u.dim == r.dim && r.variance == t.variance + u.variance
    requires Tabulates(r, Outer(t, u)) && pair in r.symmetries && pair in Shifted(u.symmetries, t.Rank())
    requires r.symmetries[pair] == Shifted(u.symmetries, t.Rank())[pair]
    ensures TrueRecord(r, pair)
  {
    var source := ShiftedSource(u.symmetries, t.Rank(), pair);
    assert TrueRecord(u, source);
    RightTrue(t, u, r, source);
  }

  lemma ProductTrue(t: Tensor, u: Tensor)
    requires Valid(t) && Valid(u) && t.dim == u.dim && Product(t, u).Ok?
    ensures Valid(Product(t, u).value)
  {
    var r := Product(t, u).value;
    Tabulated(r, Outer(t, u));
    forall pair | pair in r.symmetries ensures TrueRecord(r, pair) {
      RecordOfProduct(t, u, r, pair);
    }
  }

  // ---- Projection ----------------------------------------------------------

  lemma ProjectionSwap(t: Tensor, index: Index, i: nat, j: nat, kind: Kind)
    requires i < |index| && j < |index| && kind != NoSymmetry
    ensures Projection(t, i, j, kind)(Swap(index, i, j)) == Signed(kind, Projection(t, i, j, kind)(index))
  {
    assert Swap(Swap(index, i, j), i, j) == index;
  }

  lemma ProjectTrue(t: Tensor, first: int, second: int, kind: Kind)
    requires Valid(t) && kind != NoSymmetry && Project(t, first, second, kind).Ok?
    ensures Valid(Project(t, first, second, kind).value)
  {
    var r := Project(t, first, second, kind).value;
    var entry := Projection(t, first, second, kind);
    Tabulated(r, entry);
    forall index | IsIndex(r.dim, r.Rank(), index)
      ensures entry(Swap(index, first, second)) == Signed(kind, entry(index))
    {
      ProjectionSwap(t, index, first, second, kind);
    }
    KernelHolds(r, entry, first, second, kind);
    HoldsBothWays(r, first, second, kind);
    assert TrueRecord(r, Ordered(first, second));
  }

  /** A projector: on a tensor that already has the symmetry it changes nothing,
      and the opposite projection gives zero. */
  lemma ProjectDeclared(t: Tensor, pair: Pair, other: Kind, index: Index)
    requires t.WellShaped() && TrueRecord(t, pair) && other != NoSymmetry && other != t.symmetries[pair]
    requires IsIndex(t.dim, t.Rank(), index)
    ensures Project(t, pair.0, pair.1, t.symmetries[pair]).Ok? && Project(t, pair.0, pair.1, other).Ok?
    ensures Project(t, pair.0, pair.1, t.symmetries[pair]).value.At(index) == t.At(index)
    ensures Project(t, pair.0, pair.1, other).value.At(index) == 0.0
  {
    var kind := t.symmetries[pair];
    HoldsAt(t, pair.0, pair.1, kind, index);
    TabulateAt(Project(t, pair.0, pair.1, kind).value, Projection(t, pair.0, pair.1, kind), index);
    TabulateAt(Project(t, pair.0, pair.1, other).value, Projection(t, pair.0, pair.1, other), index);
  }

  // ---- Slots multiplied by a matrix ----------------------------------------

  lemma SlotSummandSwap(t: Tensor, matrix: Matrix, index: Index, i: nat, j: nat, kind: Kind, s: nat, m: nat)
    requires m < t.dim && IsIndex(t.dim, t.Rank(), index)
    requires i < t.Rank() && j < t.Rank() && s < t.Rank() && Holds(t, i, j, kind)
    ensures SlotSummand(t, s, matrix, Swap(index, i, j), m) ==
            Signed(kind, SlotSummand(t, Exchange(s, i, j), matrix, index, m))
  {
    LineSwap(t, index, i, j, kind, s, m);
  }

  lemma LineSwap(t: Tensor, index: Index, i: nat, j: nat, kind: Kind, s: nat, m: nat)
    requires m < t.dim && IsIndex(t.dim, t.Rank(), index)
    requires i < t.Rank() && j < t.Rank() && s < t.Rank() && Holds(t, i, j, kind)
    ensures |Swap(index, i, j)| == |index| && Exchange(s, i, j) < |index|
    ensures Swap(index, i, j)[s] == index[Exchange(s, i, j)]
    ensures t.At(Swap(index, i, j)[s := m]) == Signed(kind, t.At(index[Exchange(s, i, j) := m]))
  {
    SwapUpdated(index, i, j, s, m);
    HoldsAt(t, i, j, kind, index[Exchange(s, i, j) := m]);
  }

  lemma SwapUpdated(index: Index, i: nat, j: nat, s: nat, m: nat)
    requires i < |index| && j < |index| && s < |index|
    ensures |Swap(index, i, j)| == |index| && Exchange(s, i, j) < |index|
    ensures Swap(index, i, j)[s := m] == Swap(index[Exchange(s, i, j) := m], i, j)
    ensures Swap(index, i, j)[s] == index[Exchange(s, i, j)]
  {}

  /** Multiplying slot s after swapping is multiplying the exchanged slot before. */
  lemma SlotEntrySwap(t: Tensor, matrix: Matrix, index: Index, i: nat, j: nat, kind: Kind, s: nat)
    requires t.dim > 0 && IsIndex(t.dim, t.Rank(), index)
    requires i < t.Rank() && j < t.Rank() && s < t.Rank() && Holds(t, i, j, kind)
    ensures SlotEntry(t, s, matrix, Swap(index, i, j)) == Signed(kind, SlotEntry(t, Exchange(s, i, j), matrix, index))
  {
    var swapped, e := Swap(index, i, j), Exchange(s, i, j);
    forall m | 0 <= m < t.dim
      ensures SlotSummands(t, s, matrix, swapped)(m) == Signed(kind, SlotSummands(t, e, matrix, index)(m))
    {
      SlotSummandSwap(t, matrix, index, i, j, kind, s, m);
    }
    SumSigned(t.dim, SlotSummands(t, e, matrix, index), SlotSummands(t, s, matrix, swapped), kind);
  }

  lemma SlotProductTrue(t: Tensor, r: Tensor, slot: nat, matrix: Matrix, pair: Pair)
    requires TrueRecord(t, pair) && slot < t.Rank() && pair.0 != slot && pair.1 != slot
    requires r.dim == t.dim && r.Rank() == t.Rank() && Tabulates(r, SlotProduct(t, slot, matrix))
    requires r.variance[pair.0] == t.variance[pair.0] && r.variance[pair.1] == t.variance[pair.1]
    requires pair in r.symmetries && r.symmetries[pair] == t.symmetries[pair]
    ensures TrueRecord(r, pair)
  {
    var kind, entry := t.symmetries[pair], SlotProduct(t, slot, matrix);
    forall index | IsIndex(r.dim, r.Rank(), index)
      ensures entry(Swap(index, pair.0, pair.1)) == Signed(kind, entry(index))
    {
      SlotEntrySwap(t, matrix, index, pair.0, pair.1, kind, slot);
    }
    KernelHolds(r, entry, pair.0, pair.1, kind);
  }

  lemma ChangeVarianceTrue(t: Tensor, slot: int, from: int, matrix: Matrix)
    requires Valid(t) && (from == UPPER || from == LOWER) && ChangeVariance(t, slot, from, matrix).Ok?
    ensures Valid(ChangeVariance(t, slot, from, matrix).value)
  {
    var r := ChangeVariance(t, slot, from, matrix).value;
    Tabulated(r, SlotProduct(t, slot, matrix));
    forall pair | pair in r.symmetries ensures TrueRecord(r, pair) {
      assert TrueRecord(t, pair);
      SlotProductTrue(t, r, slot, matrix, pair);
    }
  }

  // ---- Density and declaration ---------------------------------------------

  lemma MultipleTrue(t: Tensor, r: Tensor, factor: real, pair: Pair)
    requires TrueRecord(t, pair) && r.dim == t.dim && r.variance == t.variance
    requires Tabulates(r, Multiple(t, factor)) && r.symmetries == t.symmetries
    ensures TrueRecord(r, pair)
  {
    var kind, entry := t.symmetries[pair], Multiple(t, factor);
    forall index | IsIndex(r.dim, r.Rank(), index)
      ensures entry(Swap(index, pair.0, pair.1)) == Signed(kind, entry(index))
    {
      HoldsAt(t, pair.0, pair.1, kind, index);
    }
    KernelHolds(r, entry, pair.0, pair.1, kind);
  }

  lemma MultiplyDensityTrue(t: Tensor, factor: real)
    requires Valid(t)
    ensures Valid(MultiplyDensity(t, factor))
  {
    var r := MultiplyDensity(t, factor);
    Tabulated(r, Multiple(t, factor));
    forall pair | pair in r.symmetries ensures TrueRecord(r, pair) {
      assert TrueRecord(t, pair);
      MultipleTrue(t, r, factor, pair);
    }
  }

  lemma WeightTrue(t: Tensor, weight: int)
    requires Valid(t)
    ensures Valid(t.(weight := weight))
  {
    var r := t.(weight := weight);
    forall pair | pair in r.symmetries ensures TrueRecord(r, pair) {
      assert TrueRecord(t, pair);
    }
  }

  /** Checking the flat list entry by entry is checking every index tuple. */
  lemma CheckedMeaning(t: Tensor, first: nat, second: nat, kind: Kind)
    requires t.WellShaped() && first < t.Rank() && second < t.Rank()
    ensures Checked(t, first, second, kind) <==> Holds(t, first, second, kind)
  {
    var n := t.Rank();
    if Checked(t, first, second, kind) {
      forall index | IsIndex(t.dim, n, index) ensures t.At(Swap(index, first, second)) == Signed(kind, t.At(index)) {
        FlatInRange(t.dim, index);
        UnflatFlat(t.dim, index);
        assert CheckedEntry(t, first, second, kind, Flat(t.dim, index));
      }
    }
    if Holds(t, first, second, kind) {
      forall k | 0 <= k < Pow(t.dim, n) ensures CheckedEntry(t, first, second, kind, k) {
        FlatUnflat(t.dim, n, k);
        HoldsAt(t, first, second, kind, Unflat(t.dim, n, k));
      }
    }
  }

  lemma DeclareTrue(t: Tensor, first: int, second: int, kind: Kind)
    requires Valid(t) && Declare(t, first, second, kind).Ok?
    ensures Valid(Declare(t, first, second, kind).value)
  {
    var r := Declare(t, first, second, kind).value;
    CheckedMeaning(t, first, second, kind);
    HoldsBothWays(t, first, second, kind);
    forall pair | pair in r.symmetries ensures TrueRecord(r, pair) {
      assert pair == Ordered(first, second) || TrueRecord(t, pair);
    }
  }

  // ---- Differentiation -----------------------------------------------------

  lemma SlotTermSwap(t: Tensor, d: Transport, k: nat, index: Index, i: nat, j: nat, kind: Kind, s: nat)
    requires t.dim > 0 && IsIndex(t.dim, t.Rank(), index) && s < t.Rank()
    requires i < t.Rank() && j < t.Rank() && t.variance[i] == t.variance[j] && Holds(t, i, j, kind)
    ensures SlotTerms(t, d, k, Swap(index, i, j))(s) == Signed(kind, SlotTerms(t, d, k, index)(Exchange(s, i, j)))
  {
    var e := Exchange(s, i, j);
    var here, there := SlotMatrix(t, d, k, s), SlotMatrix(t, d, k, e);
    SlotEntrySwap(t, here, index, i, j, kind, s);
    SumSigned(t.dim, SlotSummands(t, e, there, index), SlotSummands(t, e, here, index), Symmetric);
  }

  function Exchanged(f: nat -> real, i: nat, j: nat): nat -> real {
    (s: nat) => f(Exchange(s, i, j))
  }

  lemma SlotTermsSwap(t: Tensor, d: Transport, k: nat, index: Index, i: nat, j: nat, kind: Kind)
    requires t.dim > 0 && IsIndex(t.dim, t.Rank(), index)
    requires i < t.Rank() && j < t.Rank() && t.variance[i] == t.variance[j] && Holds(t, i, j, kind)
    ensures Sum(t.Rank(), SlotTerms(t, d, k, Swap(index, i, j))) ==
            Signed(kind, Sum(t.Rank(), SlotTerms(t, d, k, index)))
  {
    var before, after := SlotTerms(t, d, k, index), SlotTerms(t, d, k, Swap(index, i, j));
    forall s | 0 <= s < t.Rank() ensures after(s) == Signed(kind, Exchanged(before, i, j)(s)) {
      SlotTermSwap(t, d, k, index, i, j, kind, s);
    }
    SumSigned(t.Rank(), Exchanged(before, i, j), after, kind);
    SumExchanged(t.Rank(), before, Exchanged(before, i, j), i, j);
  }

  /** Slots of equal variance have the same correction term, so exchanging the two
      slots of a true pair only exchanges terms of the correction sum. */
  lemma TransportedSwap(t: Tensor, d: Transport, k: nat, index: Index, i: nat, j: nat, kind: Kind)
    requires t.dim > 0 && IsIndex(t.dim, t.Rank(), index) && IsDerivation(d)
    requires i < t.Rank() && j < t.Rank() && t.variance[i] == t.variance[j]
    requires kind != NoSymmetry && Holds(t, i, j, kind)
    ensures Transported(t, d, k, Swap(index, i, j)) == Signed(kind, Transported(t, d, k, index))
  {
    HoldsAt(t, i, j, kind, index);
    PartialSigned(d, k, t.At(index), kind);
    SlotTermsSwap(t, d, k, index, i, j, kind);
    WeightSigned(t, d, k, t.At(index), kind);
  }

  lemma PartialSigned(d: Transport, k: nat, x: real, kind: Kind)
    requires IsDerivation(d) && kind != NoSymmetry
    ensures d.partial(k, Signed(kind, x)) == Signed(kind, d.partial(k, x))
  {}

  lemma WeightSigned(t: Tensor, d: Transport, k: nat, x: real, kind: Kind)
    ensures WeightTerm(t, d, k, Signed(kind, x)) == Signed(kind, WeightTerm(t, d, k, x))
  {}

  lemma DraggedTrue(t: Tensor, d: Transport, r: Tensor, pair: Pair)
    requires TrueRecord(t, pair) && IsDerivation(d)
    requires r.dim == t.dim && r.variance == t.variance && r.symmetries == t.symmetries
    requires Tabulates(r, Dragged(t, d))
    ensures TrueRecord(r, pair)
  {
    var kind, entry := t.symmetries[pair], Dragged(t, d);
    forall index | IsIndex(r.dim, r.Rank(), index)
      ensures entry(Swap(index, pair.0, pair.1)) == Signed(kind, entry(index))
    {
      TransportedSwap(t, d, 0, index, pair.0, pair.1, kind);
    }
    KernelHolds(r, entry, pair.0, pair.1, kind);
  }

  lemma LieTrue(t: Tensor, d: Transport)
    requires Valid(t) && IsDerivation(d)
    ensures Valid(Lie(t, d))
  {
    var r := Lie(t, d);
    Tabulated(r, Dragged(t, d));
    forall pair | pair in r.symmetries ensures TrueRecord(r, pair) {
      assert TrueRecord(t, pair);
      DraggedTrue(t, d, r, pair);
    }
  }

  lemma CovariantSwap(t: Tensor, d: Transport, index: Index, i: nat, j: nat, kind: Kind)
    requires t.dim > 0 && IsIndex(t.dim, t.Rank() + 1, index) && IsDerivation(d)
    requires i < t.Rank() && j < t.Rank() && t.variance[i] == t.variance[j]
    requires kind != NoSymmetry && Holds(t, i, j, kind)
    ensures Covariant(t, d)(Swap(index, i, j)) == Signed(kind, Covariant(t, d)(index))
  {
    var n := t.Rank();
    assert Swap(index, i, j)[n] == index[n];
    TransportedSwap(t, d, index[n], index[..n], i, j, kind);
  }

  lemma CovariantTrue(t: Tensor, d: Transport, r: Tensor, pair: Pair)
    requires TrueRecord(t, pair) && IsDerivation(d)
    requires r.dim == t.dim && r.variance == t.variance + [LOWER] && r.symmetries == t.symmetries
    requires Tabulates(r, Covariant(t, d))
    ensures TrueRecord(r, pair)
  {
    var kind, entry := t.symmetries[pair], Covariant(t, d);
    forall index | IsIndex(r.dim, r.Rank(), index)
      ensures entry(Swap(index, pair.0, pair.1)) == Signed(kind, entry(index))
    {
      CovariantSwap(t, d, index, pair.0, pair.1, kind);
    }
    KernelHolds(r, entry, pair.0, pair.1, kind);
  }

  lemma CovariantDiffTrue(t: Tensor, d: Transport)
    requires Valid(t) && IsDerivation(d) && CovariantDiff(t, d).Ok?
    ensures Valid(CovariantDiff(t, d).value)
  {
    var r := CovariantDiff(t, d).value;
    Tabulated(r, Covariant(t, d));
    forall pair | pair in r.symmetries ensures TrueRecord(r, pair) {
      assert TrueRecord(t, pair);
      CovariantTrue(t, d, r, pair);
    }
  }

  lemma DivergedSwap(t: Tensor, d: Transport, index: Index, a: nat, b: nat, kind: Kind)
    requires t.dim > 0 && |index| + 1 == t.Rank() && InRange(t.dim, index) && IsDerivation(d)
    requires a < |index| && b < |index| && t.variance[a + 1] == t.variance[b + 1]
    requires kind != NoSymmetry && Holds(t, a + 1, b + 1, kind)
    ensures Diverged(t, d)(Swap(index, a, b)) == Signed(kind, Diverged(t, d)(index))
  {
    var swapped := Swap(index, a, b);
    forall m | 0 <= m < t.dim
      ensures DivergenceTerms(t, d, swapped)(m) == Signed(kind, DivergenceTerms(t, d, index)(m))
    {
      assert [m] + swapped == Swap([m] + index, a + 1, b + 1);
      TransportedSwap(t, d, m, [m] + index, a + 1, b + 1, kind);
    }
    SumSigned(t.dim, DivergenceTerms(t, d, index), DivergenceTerms(t, d, swapped), kind);
  }

  lemma DivergedHolds(t: Tensor, d: Transport, r: Tensor, i: nat, j: nat, a: nat, b: nat, kind: Kind)
    requires r.dim == t.dim && r.Rank() + 1 == t.Rank() && IsDerivation(d) && Tabulates(r, Diverged(t, d))
    requires i < r.Rank() && j < r.Rank() && a == i + 1 && b == j + 1 && t.variance[a] == t.variance[b]
    requires kind != NoSymmetry && Holds(t, a, b, kind)
    ensures Holds(r, i, j, kind)
  {
    forall index | IsIndex(r.dim, r.Rank(), index)
      ensures Diverged(t, d)(Swap(index, i, j)) == Signed(kind, Diverged(t, d)(index))
    {
      DivergedSwap(t, d, index, i, j, kind);
    }
    KernelHolds(r, Diverged(t, d), i, j, kind);
  }

  lemma DivergedTrue(t: Tensor, d: Transport, r: Tensor, pair: Pair)
    requires TrueRecords(t) && IsDerivation(d) && t.Rank() > 0 && Pulls(t, r, AllButFirst(t.Rank()))
    requires Tabulates(r, Diverged(t, d)) && pair in r.symmetries
    ensures TrueRecord(r, pair)
  {
    var slots := AllButFirst(t.Rank());
    var kind := PulledRecord(t, r, slots, pair);
    assert slots[pair.0] == pair.0 + 1 && slots[pair.1] == pair.1 + 1;
    DivergedHolds(t, d, r, pair.0, pair.1, slots[pair.0], slots[pair.1], kind);
  }

  lemma DivergenceTrue(t: Tensor, d: Transport)
    requires Valid(t) && IsDerivation(d) && Divergence(t, d).Ok?
    ensures Valid(Divergence(t, d).value)
  {
    var r := Divergence(t, d).value;
    Tabulated(r, Diverged(t, d));
    assert Pulls(t, r, AllButFirst(t.Rank()));
    forall pair | pair in r.symmetries ensures TrueRecord(r, pair) {
      DivergedTrue(t, d, r, pair);
    }
  }

  // ---- Whole computations --------------------------------------------------

  /** A tensor expression over given tensors. */
  datatype Term =
    | Given(tensor: Tensor)
    | Permuted(of: Term, order: seq<int>)
    | Contracted(of: Term, first: int, second: int)
    | Multiplied(left: Term, right: Term)
    | Symmetrized(of: Term, first: int, second: int)
    | Antisymmetrized(of: Term, first: int, second: int)
    | Raised(of: Term, slot: int)
    | Lowered(of: Term, slot: int)
    | Scaled(of: Term, factor: real)
    | Weighted(of: Term, weight: int)
    | Declared(of: Term, first: int, second: int, kind: Kind)
    | Differentiated(of: Term)
    | DivergenceOf(of: Term)
    | LieDragged(of: Term, along: Term)

  /** One operation on a tensor already computed. */
  function Step(term: Term, t: Tensor, g: Geometry): (r: Result<Tensor>)
    requires !term.Given? && !term.Multiplied? && !term.LieDragged? && t.WellShaped()
    ensures r.Ok? ==> r.value.WellShaped() && r.value.dim == t.dim
  {
    match term
    case Permuted(_, order) => Permute(t, order)
    case Contracted(_, first, second) => Contract(t, first, second)
    case Symmetrized(_, first, second) => Project(t, first, second, Symmetric)
    case Antisymmetrized(_, first, second) => Project(t, first, second, Antisymmetric)
    case Raised(_, slot) => ChangeVariance(t, slot, LOWER, g.inverse)
    case Lowered(_, slot) => ChangeVariance(t, slot, UPPER, g.metric)
    case Scaled(_, factor) => Ok(MultiplyDensity(t, factor))
    case Weighted(_, weight) => Ok(t.(weight := weight))
    case Declared(_, first, second, kind) => Declare(t, first, second, kind)
    case Differentiated(_) => CovariantDiff(t, Connection(g, t.dim))
    case DivergenceOf(_) => Divergence(t, Connection(g, t.dim))
  }

  /** `lie`: along a vector without weight. */
  function LieAlong(t: Tensor, v: Tensor, g: Geometry): (r: Result<Tensor>)
    requires t.WellShaped()
    ensures r.Ok? ==> r.value.WellShaped() && r.value.dim == t.dim
  {
    if v.variance != [UPPER] || v.weight != 0 then Err(NotAVector) else Ok(Lie(t, Along(g, v)))
  }

  /** The first refusal stops the computation, as an exception does. */
  function Evaluate(term: Term, g: Geometry, dim: nat): (r: Result<Tensor>)
    ensures r.Ok? ==> r.value.WellShaped() && r.value.dim == dim
  {
    match term
    case Given(t) => if t.WellShaped() && t.dim == dim && t.Rank() <= MAX_RANK then Ok(t) else Err(WrongRank)
    case Multiplied(left, right) =>
      var l, r := Evaluate(left, g, dim), Evaluate(right, g, dim);
      if l.Err? then l else if r.Err? then r else Product(l.value, r.value)
    case LieDragged(of, along) =>
      var t, v := Evaluate(of, g, dim), Evaluate(along, g, dim);
      if t.Err? then t else if v.Err? then v else LieAlong(t.value, v.value, g)
    case _ =>
      var r := Evaluate(term.of, g, dim);
      if r.Err? then r else Step(term, r.value, g)
  }

  ghost predicate GivenValid(term: Term) {
    match term
    case Given(t) => Valid(t)
    case Multiplied(left, right) => GivenValid(left) && GivenValid(right)
    case LieDragged(of, along) => GivenValid(of) && GivenValid(along)
    case _ => GivenValid(term.of)
  }

  /** Whatever slot operations are applied, in whatever order and to whatever
      tensors with true records, every symmetry the result records is true of its
      components, lies on two distinct slots in range and joins equal variances. */
  lemma {:induction false} EvaluateTrue(term: Term, g: Geometry, dim: nat)
    requires GivenValid(term) && HasPartials(g)
    requires Evaluate(term, g, dim).Ok?
    ensures Valid(Evaluate(term, g, dim).value)
  {
    match term
    case Given(t) =>
    case Multiplied(left, right) =>
      EvaluateTrue(left, g, dim);
      EvaluateTrue(right, g, dim);
      ProductTrue(Evaluate(left, g, dim).value, Evaluate(right, g, dim).value);
    case LieDragged(of, along) =>
      EvaluateTrue(of, g, dim);
      AlongDerives(g, Evaluate(along, g, dim).value);
      LieTrue(Evaluate(of, g, dim).value, Along(g, Evaluate(along, g, dim).value));
    case _ =>
      EvaluateTrue(term.of, g, dim);
      StepTrue(term, Evaluate(term.of, g, dim).value, g);
  }

  lemma StepTrue(term: Term, t: Tensor, g: Geometry)
    requires !term.Given? && !term.Multiplied? && !term.LieDragged? && Valid(t) && HasPartials(g)
    ensures Step(term, t, g).Ok? ==> Valid(Step(term, t, g).value)
  {
    if Step(term, t, g).Err? {
      return;
    }
    ConnectionDerives(g, t.dim);
    match term
    case Permuted(_, order) => PermuteTrue(t, order);
    case Contracted(_, first, second) => ContractTrue(t, first, second);
    case Symmetrized(_, first, second) => ProjectTrue(t, first, second, Symmetric);
    case Antisymmetrized(_, first, second) => ProjectTrue(t, first, second, Antisymmetric);
    case Raised(_, slot) => ChangeVarianceTrue(t, slot, LOWER, g.inverse);
    case Lowered(_, slot) => ChangeVarianceTrue(t, slot, UPPER, g.metric);
    case Scaled(_, factor) => MultiplyDensityTrue(t, factor);
    case Weighted(_, weight) => WeightTrue(t, weight);
    case Declared(_, first, second, kind) => DeclareTrue(t, first, second, kind);
    case Differentiated(_) => CovariantDiffTrue(t, Connection(g, t.dim));
    case DivergenceOf(_) => DivergenceTrue(t, Connection(g, t.dim));
  }
}
