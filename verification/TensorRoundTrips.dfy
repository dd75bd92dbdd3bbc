/** Slot operations that undo one another. */
module TensorRoundTrips {
  import opened Sums
  import opened TensorIndex
  import opened TensorKernels
  import opened TensorSymmetry
  import opened TensorTruth

  /** Tensors with the same components at every index have the same list. */
  lemma SameList(t: Tensor, r: Tensor)
    requires t.WellShaped() && r.WellShaped() && r.dim == t.dim && r.Rank() == t.Rank()
    requires forall index {:trigger r.At(index)} :: IsIndex(t.dim, t.Rank(), index) ==> r.At(index) == t.At(index)
    ensures r.components == t.components
  {
    forall k | 0 <= k < |t.components| ensures r.components[k] == t.components[k] {
      FlatUnflat(t.dim, t.Rank(), k);
      var index := Unflat(t.dim, t.Rank(), k);
      assert r.At(index) == t.At(index);
    }
  }

  // ---- Permuting back ------------------------------------------------------

  function Inverse(order: seq<nat>): (inverse: seq<nat>)
    requires forall s :: 0 <= s < |order| ==> s in order
    ensures |inverse| == |order|
  {
    seq(|order|, s requires 0 <= s < |order| => Position(order, s))
  }

  lemma CoversAll(rank: nat, order: seq<nat>)
    requires IsPermutation(rank, order)
    ensures forall s :: 0 <= s < rank ==> s in order
  {
    var slots: seq<int> := order;
    forall s | 0 <= s < rank ensures s in order {
      assert s in Range(rank) && s in (set x | x in slots);
    }
  }

  predicate LeadsBack(order: seq<nat>, inverse: seq<nat>, s: nat) {
    s < |order| && order[s] < |inverse| && inverse[order[s]] == s
  }

  ghost predicate AreInverse(rank: nat, order: seq<nat>, inverse: seq<nat>) {
    && |order| == rank && |inverse| == rank
    && (forall s :: 0 <= s < rank ==> LeadsBack(order, inverse, s) && LeadsBack(inverse, order, s))
  }

  lemma InverseIsInverse(rank: nat, order: seq<nat>)
    requires IsPermutation(rank, order)
    ensures forall s :: 0 <= s < rank ==> s in order
    ensures AreInverse(rank, order, Inverse(order))
  {
    CoversAll(rank, order);
    PermutationDistinct(rank, order);
    forall s | 0 <= s < rank ensures LeadsBack(order, Inverse(order), s) && LeadsBack(Inverse(order), order, s) {
      PositionUnique(rank, order, s);
    }
  }

  lemma InverseDistinct(rank: nat, order: seq<nat>, inverse: seq<nat>)
    requires AreInverse(rank, order, inverse)
    ensures DistinctSlots(rank, inverse) && DistinctSlots(rank, order)
  {
    forall a | 0 <= a < rank ensures inverse[a] < rank && order[a] < rank {
      assert LeadsBack(order, inverse, a) && LeadsBack(inverse, order, a);
    }
    forall a, b | 0 <= a < b < rank ensures inverse[a] != inverse[b] && order[a] != order[b] {
      assert LeadsBack(order, inverse, a) && LeadsBack(order, inverse, b);
      assert LeadsBack(inverse, order, a) && LeadsBack(inverse, order, b);
    }
  }

  lemma InversePermutes(rank: nat, order: seq<nat>, inverse: seq<nat>)
    requires AreInverse(rank, order, inverse)
    ensures IsPermutation(rank, inverse)
  {
    var slots: seq<int> := inverse;
    forall s | s in Range(rank) ensures s in slots {
      assert LeadsBack(order, inverse, s) && slots[order[s]] == s;
    }
    forall s | s in slots ensures s in Range(rank) {
      var a :| 0 <= a < rank && slots[a] == s;
      assert LeadsBack(inverse, order, a);
    }
    assert (set s | s in slots) == Range(rank);
  }

  lemma GatherAt(t: Tensor, r: Tensor, slots: seq<nat>, index: Index)
    requires Tabulates(r, Gather(t, slots)) && |slots| == r.Rank() && IsIndex(r.dim, r.Rank(), index)
    ensures r.At(index) == t.At(Scatter(t.Rank(), slots, index, 0))
  {}

  lemma ScatterBack(rank: nat, order: seq<nat>, inverse: seq<nat>, index: Index)
    requires AreInverse(rank, order, inverse) && |index| == rank
    ensures Scatter(rank, order, Scatter(rank, inverse, index, 0), 0) == index
  {
    InverseDistinct(rank, order, inverse);
    var middle := Scatter(rank, inverse, index, 0);
    forall s | 0 <= s < rank ensures Scatter(rank, order, middle, 0)[s] == index[s] {
      assert LeadsBack(inverse, order, s) && inverse[s] in inverse;
      PositionUnique(rank, order, inverse[s]);
      PositionUnique(rank, inverse, s);
    }
  }

  /** Records that name ordered pairs of existing slots. */
  ghost predicate OrderedRecords(rank: nat, symmetries: map<Pair, Kind>) {
    forall pair {:trigger pair in symmetries} :: pair in symmetries ==> pair.0 < pair.1 < rank
  }

  lemma PulledTwice(rank: nat, symmetries: map<Pair, Kind>, order: seq<nat>, inverse: seq<nat>, pair: Pair)
    requires AreInverse(rank, order, inverse) && pair.0 < pair.1 < rank
    ensures pair in Pulled(Pulled(symmetries, order), inverse) <==> pair in symmetries
    ensures pair in symmetries ==> Pulled(Pulled(symmetries, order), inverse)[pair] == symmetries[pair]
  {
    var moved := Ordered(inverse[pair.0], inverse[pair.1]);
    assert LeadsBack(inverse, order, pair.0) && LeadsBack(inverse, order, pair.1);
    assert moved.0 < moved.1 < rank && Ordered(order[moved.0], order[moved.1]) == pair;
    assert moved in Pulled(symmetries, order) <==> pair in symmetries;
  }

  lemma PulledBack(rank: nat, symmetries: map<Pair, Kind>, order: seq<nat>, inverse: seq<nat>)
    requires AreInverse(rank, order, inverse) && OrderedRecords(rank, symmetries)
    ensures Pulled(Pulled(symmetries, order), inverse) == symmetries
  {
    var twice := Pulled(Pulled(symmetries, order), inverse);
    forall pair | pair in twice ensures pair in symmetries && symmetries[pair] == twice[pair] {
      PulledTwice(rank, symmetries, order, inverse, pair);
    }
    forall pair | pair in symmetries ensures pair in twice {
      PulledTwice(rank, symmetries, order, inverse, pair);
    }
    SameEntries(twice, symmetries);
  }

  lemma GatheredBack(t: Tensor, once: Tensor, twice: Tensor, order: seq<nat>, inverse: seq<nat>, index: Index)
    requires AreInverse(t.Rank(), order, inverse) && t.dim == once.dim == twice.dim
    requires t.Rank() == once.Rank() == twice.Rank() && IsIndex(t.dim, t.Rank(), index)
    requires Tabulates(once, Gather(t, order)) && Tabulates(twice, Gather(once, inverse))
    ensures twice.At(index) == t.At(index)
  {
    var middle := Scatter(t.Rank(), inverse, index, 0);
    assert IsIndex(t.dim, t.Rank(), middle) by { ScatterInRange(t.dim, t.Rank(), inverse, index, 0); }
    calc {
      twice.At(index);
      { GatherAt(once, twice, inverse, index); }
      once.At(middle);
      { GatherAt(t, once, order, middle); }
      t.At(Scatter(t.Rank(), order, middle, 0));
      { ScatterBack(t.Rank(), order, inverse, index); }
      t.At(index);
    }
  }

  lemma VarianceBack(variance: seq<int>, order: seq<nat>, inverse: seq<nat>)
    requires AreInverse(|variance|, order, inverse)
    ensures DistinctSlots(|variance|, inverse) && DistinctSlots(|variance|, order)
    ensures Gathered(Gathered(variance, order), inverse) == variance
  {
    InverseDistinct(|variance|, order, inverse);
    forall s | 0 <= s < |variance| ensures Gathered(Gathered(variance, order), inverse)[s] == variance[s] {
      assert LeadsBack(inverse, order, s);
    }
  }

  /** Permuting by an order and then by its inverse gives the tensor back, with
      its variances, components and records. */
  lemma PermuteBack(t: Tensor, order: seq<nat>)
    requires Valid(t) && IsPermutation(t.Rank(), order)
    ensures Permute(t, order).Ok? && forall s :: 0 <= s < t.Rank() ==> s in order
    ensures Permute(Permute(t, order).value, Inverse(order)) == Ok(t)
  {
    InverseIsInverse(t.Rank(), order);
    var inverse := Inverse(order);
    InversePermutes(t.Rank(), order, inverse);
    VarianceBack(t.variance, order, inverse);
    RecordsOrdered(t);
    PulledBack(t.Rank(), t.symmetries, order, inverse);
    ComponentsBack(t, Permute(t, order).value, Permute(Permute(t, order).value, inverse).value, order, inverse);
  }

  lemma RecordsOrdered(t: Tensor)
    requires TrueRecords(t)
    ensures OrderedRecords(t.Rank(), t.symmetries)
  {
    forall pair | pair in t.symmetries ensures pair.0 < pair.1 < t.Rank() {
      assert TrueRecord(t, pair);
    }
  }

  lemma ComponentsBack(t: Tensor, once: Tensor, twice: Tensor, order: seq<nat>, inverse: seq<nat>)
    requires t.WellShaped() && twice.WellShaped() && AreInverse(t.Rank(), order, inverse)
    requires t.dim == once.dim == twice.dim && t.Rank() == once.Rank() == twice.Rank()
    requires once.components == Tabulate(t.dim, t.Rank(), Gather(t, order))
    requires twice.components == Tabulate(t.dim, t.Rank(), Gather(once, inverse))
    ensures twice.components == t.components
  {
    Tabulated(once, Gather(t, order));
    Tabulated(twice, Gather(once, inverse));
    forall index | IsIndex(t.dim, t.Rank(), index) ensures twice.At(index) == t.At(index) {
      GatheredBack(t, once, twice, order, inverse, index);
    }
    SameList(t, twice);
  }

  // ---- Raising and lowering ------------------------------------------------

  function ProductTerm(a: Matrix, b: Matrix, i: nat, j: nat): nat -> real {
    (m: nat) => a(i, m) * b(m, j)
  }

  /** a is a left inverse of b. */
  ghost predicate Inverts(a: Matrix, b: Matrix, dim: nat) {
    forall i, j :: 0 <= i < dim && 0 <= j < dim ==> Sum(dim, ProductTerm(a, b, i, j)) == if i == j then 1.0 else 0.0
  }

  /** a(i, m) * b(m, p) * f(p). */
  function Triple(a: Matrix, b: Matrix, f: nat -> real, i: nat): Table {
    (m: nat, p: nat) => a(i, m) * (b(m, p) * f(p))
  }

  function Image(b: Matrix, f: nat -> real, m: nat): nat -> real {
    (p: nat) => b(m, p) * f(p)
  }

  function ImageOfImage(a: Matrix, b: Matrix, f: nat -> real, dim: nat, i: nat): nat -> real {
    (m: nat) => a(i, m) * Sum(dim, Image(b, f, m))
  }

  /** Row m of the table sums to one term of the second multiplication. */
  lemma TripleRow(a: Matrix, b: Matrix, f: nat -> real, dim: nat, i: nat, m: nat)
    ensures Sum(dim, Row(Triple(a, b, f, i), m)) == ImageOfImage(a, b, f, dim, i)(m)
  {
    SumTimes(dim, Image(b, f, m), Row(Triple(a, b, f, i), m), a(i, m));
  }

  /** Column p of the table sums to f(p) times an entry of the identity. */
  lemma TripleColumn(a: Matrix, b: Matrix, f: nat -> real, dim: nat, i: nat, p: nat)
    requires Inverts(a, b, dim) && i < dim && p < dim
    ensures Sum(dim, Row(Flipped(Triple(a, b, f, i)), p)) == if p == i then f(i) else 0.0
  {
    var column := Row(Flipped(Triple(a, b, f, i)), p);
    forall m | 0 <= m < dim ensures column(m) == f(p) * ProductTerm(a, b, i, p)(m) {}
    SumTimes(dim, ProductTerm(a, b, i, p), column, f(p));
  }

  /** Multiplying a vector by b and then by its left inverse gives it back. */
  lemma MatrixBack(a: Matrix, b: Matrix, f: nat -> real, dim: nat, i: nat)
    requires Inverts(a, b, dim) && i < dim
    ensures Sum(dim, ImageOfImage(a, b, f, dim, i)) == f(i)
  {
    var h := Triple(a, b, f, i);
    forall m | 0 <= m < dim ensures RowSums(h, dim)(m) == Signed(Symmetric, ImageOfImage(a, b, f, dim, i)(m)) {
      TripleRow(a, b, f, dim, i, m);
    }
    SumSigned(dim, ImageOfImage(a, b, f, dim, i), RowSums(h, dim), Symmetric);
    SumsCommute(dim, dim, h);
    forall p | 0 <= p < dim ensures RowSums(Flipped(h), dim)(p) == if p == i then f(i) else 0.0 {
      TripleColumn(a, b, f, dim, i, p);
    }
    SumSingle(dim, RowSums(Flipped(h), dim), i);
  }

  /** The component as a function of one slot's value. */
  function SlotLine(t: Tensor, slot: nat, index: Index): nat -> real
    requires slot < |index|
  {
    (m: nat) => t.At(index[slot := m])
  }

  lemma EntryIsImage(t: Tensor, slot: nat, matrix: Matrix, index: Index, m: nat)
    requires slot < |index|
    ensures SlotEntry(t, slot, matrix, index[slot := m]) == Sum(t.dim, Image(matrix, SlotLine(t, slot, index), m))
  {
    var changed := index[slot := m];
    forall p | 0 <= p < t.dim
      ensures SlotSummands(t, slot, matrix, changed)(p) ==
              Signed(Symmetric, Image(matrix, SlotLine(t, slot, index), m)(p))
    {
      assert changed[slot := p] == index[slot := p];
    }
    SumSigned(t.dim, Image(matrix, SlotLine(t, slot, index), m), SlotSummands(t, slot, matrix, changed), Symmetric);
  }

  lemma SummandIsImage(t: Tensor, once: Tensor, slot: nat, a: Matrix, b: Matrix, index: Index, m: nat)
    requires once.dim == t.dim && once.Rank() == t.Rank() && m < t.dim
    requires Tabulates(once, SlotProduct(t, slot, b)) && slot < t.Rank() && IsIndex(t.dim, t.Rank(), index)
    ensures SlotSummands(once, slot, a, index)(m) ==
            ImageOfImage(a, b, SlotLine(t, slot, index), t.dim, index[slot])(m)
  {
    EntryIsImage(t, slot, b, index, m);
    assert once.At(index[slot := m]) == SlotEntry(t, slot, b, index[slot := m]);
  }

  lemma SlotBack(t: Tensor, once: Tensor, slot: nat, a: Matrix, b: Matrix, index: Index)
    requires Inverts(a, b, t.dim) && once.dim == t.dim && once.Rank() == t.Rank()
    requires Tabulates(once, SlotProduct(t, slot, b)) && slot < t.Rank() && IsIndex(t.dim, t.Rank(), index)
    ensures SlotEntry(once, slot, a, index) == t.At(index)
  {
    var line := SlotLine(t, slot, index);
    forall m | 0 <= m < t.dim
      ensures SlotSummands(once, slot, a, index)(m) ==
              Signed(Symmetric, ImageOfImage(a, b, line, t.dim, index[slot])(m))
    {
      SummandIsImage(t, once, slot, a, b, index, m);
    }
    SumSigned(t.dim, ImageOfImage(a, b, line, t.dim, index[slot]), SlotSummands(once, slot, a, index), Symmetric);
    MatrixBack(a, b, line, t.dim, index[slot]);
    assert index[slot := index[slot]] == index;
  }

  /** Raising a slot and lowering it again (or the other way round) gives the
      variances and components back when the metric inverts; only the records that
      touch the slot are gone. */
  lemma ChangeVarianceBack(t: Tensor, slot: int, from: int, b: Matrix, a: Matrix)
    requires t.WellShaped() && (from == UPPER || from == LOWER) && Inverts(a, b, t.dim)
    requires ChangeVariance(t, slot, from, b).Ok?
    ensures ChangeVariance(ChangeVariance(t, slot, from, b).value, slot, -from, a) ==
            Ok(t.(symmetries := Untouched(t.symmetries, slot)))
  {
    var once := ChangeVariance(t, slot, from, b).value;
    var twice := ChangeVariance(once, slot, -from, a).value;
    Tabulated(once, SlotProduct(t, slot, b));
    Tabulated(twice, SlotProduct(once, slot, a));
    forall index | IsIndex(t.dim, t.Rank(), index) ensures twice.At(index) == t.At(index) {
      SlotBack(t, once, slot, a, b, index);
    }
    SameList(t, twice);
    assert twice.variance == t.variance;
    assert twice.symmetries == Untouched(t.symmetries, slot);
  }
}
