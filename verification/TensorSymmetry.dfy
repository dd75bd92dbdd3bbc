/** Declared pair symmetries of tensors: how `Tensor` and `SpacetimeTensor` carry
    them through slot operations, and that they stay true of the components. */
module TensorSymmetry {
  import opened TensorIndex
  import opened TensorKernels

  const MAX_RANK := 5

  /** `tuple(sorted((first, second)))`. */
  function Ordered(i: nat, j: nat): Pair {
    if i <= j then (i, j) else (j, i)
  }

  /** The components really have the symmetry. */
  ghost predicate Holds(t: Tensor, i: nat, j: nat, kind: Kind)
    requires i < t.Rank() && j < t.Rank()
  {
    forall index {:trigger Swap(index, i, j)} ::
      IsIndex(t.dim, t.Rank(), index) ==> t.At(Swap(index, i, j)) == Signed(kind, t.At(index))
  }

  /** The record of one pair is well formed and true. */
  ghost predicate TrueRecord(t: Tensor, pair: Pair) {
    && pair in t.symmetries
    && pair.0 < pair.1 < t.Rank()
    && t.symmetries[pair] != NoSymmetry
    && t.variance[pair.0] == t.variance[pair.1]
    && Holds(t, pair.0, pair.1, t.symmetries[pair])
  }

  ghost predicate TrueRecords(t: Tensor) {
    forall pair {:trigger TrueRecord(t, pair)} :: pair in t.symmetries ==> TrueRecord(t, pair)
  }

  ghost predicate Valid(t: Tensor) {
    t.WellShaped() && t.Rank() <= MAX_RANK && TrueRecords(t)
  }

  // ---- Recording -----------------------------------------------------------

  datatype Declaration = Declaration(first: int, second: int, kind: Kind)

  /** `_normalize_symmetries`, one item at a time: later items overwrite earlier
      ones, and items that declare no symmetry are checked and dropped. */
  function Normalize(rank: nat, items: seq<Declaration>): Result<map<Pair, Kind>> {
    if items == [] then Ok(map[])
    else
      var item := items[|items| - 1];
      match Normalize(rank, items[..|items| - 1])
      case Err(reason) => Err(reason)
      case Ok(recorded) =>
        if !(0 <= item.first < rank && 0 <= item.second < rank) then Err(SlotOutOfRange)
        else if item.first == item.second then Err(SameSlot)
        else if item.kind == NoSymmetry then Ok(recorded)
        else Ok(recorded[Ordered(item.first, item.second) := item.kind])
  }

  method NormalizeSymmetries(rank: nat, items: seq<Declaration>) returns (r: Result<map<Pair, Kind>>)
    ensures r == Normalize(rank, items)
  {
    var recorded: map<Pair, Kind> := map[];
    for k := 0 to |items|
      invariant Normalize(rank, items[..k]) == Ok(recorded)
    {
      var item := items[k];
      assert items[..k + 1][..k] == items[..k];
      if item.first < 0 || item.first >= rank || item.second < 0 || item.second >= rank {
        NormalizeStops(rank, items, k + 1);
        return Err(SlotOutOfRange);
      }
      if item.first == item.second {
        NormalizeStops(rank, items, k + 1);
        return Err(SameSlot);
      }
      if item.kind != NoSymmetry {
        recorded := recorded[Ordered(item.first, item.second) := item.kind];
      }
    }
    assert items[..|items|] == items;
    return Ok(recorded);
  }

  lemma {:induction false} NormalizeStops(rank: nat, items: seq<Declaration>, k: nat)
    requires k <= |items| && Normalize(rank, items[..k]).Err?
    ensures Normalize(rank, items) == Normalize(rank, items[..k])
  {
    if k < |items| {
      assert items[..|items| - 1][..k] == items[..k];
      NormalizeStops(rank, items[..|items| - 1], k);
    } else {
      assert items[..k] == items;
    }
  }

  predicate Relevant(items: seq<Declaration>, k: int, pair: Pair) {
    && 0 <= k < |items|
    && items[k].kind != NoSymmetry
    && items[k].first >= 0 && items[k].second >= 0
    && Ordered(items[k].first, items[k].second) == pair
  }

  ghost predicate Acceptable(rank: nat, items: seq<Declaration>) {
    forall k :: 0 <= k < |items| ==>
      0 <= items[k].first < rank && 0 <= items[k].second < rank && items[k].first != items[k].second
  }

  /** The last item that declares the pair gives it this kind. */
  ghost predicate DeclaredAs(items: seq<Declaration>, pair: Pair, kind: Kind) {
    exists k :: Relevant(items, k, pair) && items[k].kind == kind && !DeclaredAfter(items, k, pair)
  }

  ghost predicate DeclaredAfter(items: seq<Declaration>, k: int, pair: Pair) {
    exists l :: l > k && Relevant(items, l, pair)
  }

  lemma DeclaredAppend(front: seq<Declaration>, item: Declaration, pair: Pair, kind: Kind)
    ensures Relevant(front + [item], |front|, pair) ==> DeclaredAs(front + [item], pair, item.kind)
    ensures DeclaredAs(front, pair, kind) && !Relevant(front + [item], |front|, pair) ==>
              DeclaredAs(front + [item], pair, kind)
  {
    var items := front + [item];
    if Relevant(items, |front|, pair) {
      assert !DeclaredAfter(items, |front|, pair);
    } else if DeclaredAs(front, pair, kind) {
      var k :| Relevant(front, k, pair) && front[k].kind == kind && !DeclaredAfter(front, k, pair);
      assert Relevant(items, k, pair);
      assert forall l :: l > k && Relevant(items, l, pair) ==> Relevant(front, l, pair);
      assert !DeclaredAfter(items, k, pair);
    }
  }

  lemma AcceptableAppend(rank: nat, front: seq<Declaration>, item: Declaration)
    ensures Acceptable(rank, front + [item]) <==>
              Acceptable(rank, front) && 0 <= item.first < rank && 0 <= item.second < rank && item.first != item.second
  {
    var items := front + [item];
    assert items[|front|] == item;
    assert forall k :: 0 <= k < |front| ==> items[k] == front[k];
  }

  /** Recording fails exactly on an item with a bad pair of slots; otherwise a pair
      is recorded exactly when some item declares it, with the last kind declared. */
  lemma {:induction false} NormalizeMeaning(rank: nat, items: seq<Declaration>)
    ensures Normalize(rank, items).Ok? <==> Acceptable(rank, items)
    ensures Normalize(rank, items).Ok? ==>
              forall pair :: pair in Normalize(rank, items).value ==>
                pair.0 < pair.1 < rank && DeclaredAs(items, pair, Normalize(rank, items).value[pair])
    ensures Normalize(rank, items).Ok? ==>
              forall k, pair :: Relevant(items, k, pair) ==> pair in Normalize(rank, items).value
  {
    if items != [] {
      var n := |items| - 1;
      var front, item := items[..n], items[n];
      assert items == front + [item];
      NormalizeMeaning(rank, front);
      AcceptableAppend(rank, front, item);
      if Normalize(rank, items).Ok? {
        var recorded := Normalize(rank, items).value;
        forall pair | pair in recorded ensures pair.0 < pair.1 < rank && DeclaredAs(items, pair, recorded[pair]) {
          DeclaredAppend(front, item, pair, recorded[pair]);
        }
        forall k, pair | Relevant(items, k, pair) ensures pair in recorded {
          if k < n { assert Relevant(front, k, pair); }
        }
      }
    }
  }

  /** The first bad declaration gives the reason: a slot out of range before equal slots. */
  lemma NormalizeRefuses(rank: nat, items: seq<Declaration>, k: nat)
    requires k < |items| && Acceptable(rank, items[..k])
    requires !(0 <= items[k].first < rank && 0 <= items[k].second < rank && items[k].first != items[k].second)
    ensures Normalize(rank, items) ==
            Err(if 0 <= items[k].first < rank && 0 <= items[k].second < rank then SameSlot else SlotOutOfRange)
  {
    NormalizeMeaning(rank, items[..k]);
    assert items[..k + 1][..k] == items[..k];
    NormalizeStops(rank, items, k + 1);
  }

  lemma NormalizedFrom(rank: nat, items: seq<Declaration>, pair: Pair) returns (k: nat)
    requires Normalize(rank, items).Ok? && pair in Normalize(rank, items).value
    ensures Relevant(items, k, pair) && Normalize(rank, items).value[pair] == items[k].kind
  {
    NormalizeMeaning(rank, items);
    k :| Relevant(items, k, pair) && items[k].kind == Normalize(rank, items).value[pair];
  }

  lemma NormalizedHas(rank: nat, items: seq<Declaration>, k: nat, pair: Pair)
    requires Normalize(rank, items).Ok? && Relevant(items, k, pair)
    ensures pair in Normalize(rank, items).value
  {}

  /** The records of the new slots when new slot t is old slot slots[t]: what
      `(positions[first], positions[second], kind)` over the surviving pairs gives. */
  function Pulled(symmetries: map<Pair, Kind>, slots: seq<nat>): map<Pair, Kind> {
    map a: nat, b: nat | 0 <= a < b < |slots| && Ordered(slots[a], slots[b]) in symmetries ::
      (a, b) := symmetries[Ordered(slots[a], slots[b])]
  }

  function Moved(slots: seq<nat>, pair: Pair, kind: Kind): Declaration
    requires pair.0 in slots && pair.1 in slots
  {
    Declaration(Position(slots, pair.0), Position(slots, pair.1), kind)
  }

  /** The item is the moved record of some surviving pair. */
  ghost predicate IsMoved(item: Declaration, symmetries: map<Pair, Kind>, slots: seq<nat>) {
    exists pair :: pair in symmetries && pair.0 in slots && pair.1 in slots &&
      item == Moved(slots, pair, symmetries[pair])
  }

  /** The items the source passes on, in whatever order its dictionary lists them. */
  ghost predicate ListsMoved(items: seq<Declaration>, symmetries: map<Pair, Kind>, slots: seq<nat>) {
    && (forall k :: 0 <= k < |items| ==> IsMoved(items[k], symmetries, slots))
    && (forall pair :: pair in symmetries && pair.0 in slots && pair.1 in slots ==>
          Moved(slots, pair, symmetries[pair]) in items)
  }

  lemma MovedIsPulled(rank: nat, symmetries: map<Pair, Kind>, slots: seq<nat>, item: Declaration)
    requires DistinctSlots(rank, slots) && IsMoved(item, symmetries, slots)
    requires forall pair :: pair in symmetries ==> pair.0 < pair.1 && symmetries[pair] != NoSymmetry
    ensures 0 <= item.first < |slots| && 0 <= item.second < |slots| && item.first != item.second
    ensures item.kind != NoSymmetry
    ensures Ordered(item.first, item.second) in Pulled(symmetries, slots)
    ensures Pulled(symmetries, slots)[Ordered(item.first, item.second)] == item.kind
  {
    var pair :| pair in symmetries && pair.0 in slots && pair.1 in slots &&
                item == Moved(slots, pair, symmetries[pair]);
    var moved := Ordered(item.first, item.second);
    assert slots[item.first] == pair.0 && slots[item.second] == pair.1;
    assert Ordered(slots[moved.0], slots[moved.1]) == pair;
  }

  lemma PulledIsMoved(rank: nat, symmetries: map<Pair, Kind>, slots: seq<nat>, pair: Pair, items: seq<Declaration>)
      returns (k: nat)
    requires DistinctSlots(rank, slots) && ListsMoved(items, symmetries, slots)
    requires pair in Pulled(symmetries, slots)
    ensures k < |items| && 0 <= items[k].first && 0 <= items[k].second
    ensures Ordered(items[k].first, items[k].second) == pair
  {
    var source := Ordered(slots[pair.0], slots[pair.1]);
    PositionUnique(rank, slots, pair.0);
    PositionUnique(rank, slots, pair.1);
    assert Moved(slots, source, symmetries[source]) in items;
    k :| 0 <= k < |items| && items[k] == Moved(slots, source, symmetries[source]);
  }

  lemma RecordedIsPulled(
    rank: nat, symmetries: map<Pair, Kind>, slots: seq<nat>, items: seq<Declaration>, pair: Pair, k: nat)
    requires DistinctSlots(rank, slots) && ListsMoved(items, symmetries, slots)
    requires forall pair :: pair in symmetries ==> pair.0 < pair.1 && symmetries[pair] != NoSymmetry
    requires Relevant(items, k, pair)
    ensures pair in Pulled(symmetries, slots) && Pulled(symmetries, slots)[pair] == items[k].kind
  {
    MovedIsPulled(rank, symmetries, slots, items[k]);
  }

  /** Moving the surviving pairs and normalizing them gives the pulled-back record,
      whatever order they come in: no two of them can overwrite each other. */
  lemma NormalizeMoved(rank: nat, symmetries: map<Pair, Kind>, slots: seq<nat>, items: seq<Declaration>)
    requires DistinctSlots(rank, slots)
    requires forall pair :: pair in symmetries ==> pair.0 < pair.1 && symmetries[pair] != NoSymmetry
    requires ListsMoved(items, symmetries, slots)
    ensures Normalize(|slots|, items) == Ok(Pulled(symmetries, slots))
  {
    assert Normalize(|slots|, items).Ok? by { NormalizeMeaning(|slots|, items); }
    var recorded, pulled := Normalize(|slots|, items).value, Pulled(symmetries, slots);
    forall pair | pair in recorded ensures pair in pulled && pulled[pair] == recorded[pair] {
      var k := NormalizedFrom(|slots|, items, pair);
      RecordedIsPulled(rank, symmetries, slots, items, pair, k);
    }
    forall pair | pair in pulled ensures pair in recorded {
      var k := PulledIsMoved(rank, symmetries, slots, pair, items);
      MovedIsPulled(rank, symmetries, slots, items[k]);
      NormalizedHas(|slots|, items, k, pair);
    }
    SameEntries(recorded, pulled);
  }

  lemma SameEntries(a: map<Pair, Kind>, b: map<Pair, Kind>)
    requires forall pair :: pair in a ==> pair in b && b[pair] == a[pair]
    requires forall pair :: pair in b ==> pair in a
    ensures a == b
  {}

  // ---- Slot operations -----------------------------------------------------

  function Gathered(variance: seq<int>, slots: seq<nat>): seq<int>
    requires DistinctSlots(|variance|, slots)
  {
    seq(|slots|, a requires 0 <= a < |slots| => variance[slots[a]])
  }

  function Range(n: nat): (slots: set<int>)
    ensures |slots| == n && forall s :: s in slots <==> 0 <= s < n
  {
    if n == 0 then {} else Range(n - 1) + {n - 1}
  }

  predicate IsPermutation(rank: nat, order: seq<int>) {
    |order| == rank && (set s | s in order) == Range(rank)
  }

  lemma PermutationDistinct(rank: nat, order: seq<int>)
    requires IsPermutation(rank, order)
    ensures forall a :: 0 <= a < rank ==> 0 <= order[a] < rank
    ensures forall a, b :: 0 <= a < b < rank ==> order[a] != order[b]
  {
    forall a | 0 <= a < rank ensures 0 <= order[a] < rank {
      assert order[a] in (set s | s in order) && order[a] in Range(rank);
    }
    forall a, b | 0 <= a < b < rank ensures order[a] != order[b] {
      if order[a] == order[b] {
        var shorter := order[..b] + order[b + 1..];
        assert (set s | s in order) == (set s | s in shorter) by {
          forall s | s in order ensures s in shorter {
            var c :| 0 <= c < rank && order[c] == s;
            var d := if c == b then a else c;
            assert order[d] == s && shorter[if d < b then d else d - 1] == s;
          }
        }
        SetOfSeqSize(shorter);
      }
    }
  }

  lemma {:induction false} SetOfSeqSize(xs: seq<int>)
    ensures |set x | x in xs| <= |xs|
  {
    if xs != [] {
      SetOfSeqSize(xs[1..]);
      assert (set x | x in xs) == {xs[0]} + (set x | x in xs[1..]);
    }
  }

  /** `permute`: new slot t is old slot order[t]. */
  function Permute(t: Tensor, order: seq<int>): (r: Result<Tensor>)
    requires t.WellShaped()
    ensures r.Ok? ==> r.value.WellShaped() && r.value.dim == t.dim
  {
    if !IsPermutation(t.Rank(), order) then Err(NotAPermutation)
    else
      PermutationDistinct(t.Rank(), order);
      var slots: seq<nat> := order;
      Ok(Tensor(t.dim, Gathered(t.variance, slots),
                Tabulate(t.dim, t.Rank(), Gather(t, slots)),
                t.weight, Pulled(t.symmetries, slots)))
  }

  function Survivors(rank: nat, first: nat, second: nat): (slots: seq<nat>)
    ensures DistinctSlots(rank, slots)
    ensures forall s: nat :: s in slots <==> s < rank && s != first && s != second
    ensures |slots| == rank - (if first < rank then 1 else 0) - (if second < rank && second != first then 1 else 0)
  {
    if rank == 0 then []
    else
      var slots := Survivors(rank - 1, first, second);
      var last: nat := rank - 1;
      if last == first || last == second then slots
      else
        assert forall s: nat :: s in slots + [last] <==> s in slots || s == last;
        slots + [last]
  }

  /** `contract`: both slots summed over their common value. */
  function Contract(t: Tensor, first: int, second: int): (r: Result<Tensor>)
    requires t.WellShaped()
    ensures r.Ok? ==> r.value.WellShaped() && r.value.dim == t.dim
  {
    if !(0 <= first < t.Rank() && 0 <= second < t.Rank()) then Err(SlotOutOfRange)
    else if first == second then Err(SameSlot)
    else if t.variance[first] == t.variance[second] then Err(EqualVariance)
    else
      var slots := Survivors(t.Rank(), first, second);
      Ok(Tensor(t.dim, Gathered(t.variance, slots),
                Tabulate(t.dim, |slots|, Trace(t, slots)),
                t.weight, Pulled(t.symmetries, slots)))
  }

  function Shifted(symmetries: map<Pair, Kind>, offset: nat): map<Pair, Kind> {
    map pair | pair in symmetries :: (pair.0 + offset, pair.1 + offset) := symmetries[pair]
  }

  /** `product`: left slots first, weights add. */
  function Product(t: Tensor, u: Tensor): (r: Result<Tensor>)
    requires t.WellShaped() && u.WellShaped()
    ensures r.Ok? ==> r.value.WellShaped() && r.value.dim == t.dim
  {
    if t.Rank() + u.Rank() > MAX_RANK then Err(RankTooLarge)
    else
      Ok(Tensor(t.dim, t.variance + u.variance,
                Tabulate(t.dim, t.Rank() + u.Rank(), Outer(t, u)),
                t.weight + u.weight, t.symmetries + Shifted(u.symmetries, t.Rank())))
  }

  /** `symmetrize` and `antisymmetrize`: only the selected pair stays recorded. */
  function Project(t: Tensor, first: int, second: int, kind: Kind): (r: Result<Tensor>)
    requires t.WellShaped() && kind != NoSymmetry
    ensures r.Ok? ==> r.value.WellShaped() && r.value.dim == t.dim
  {
    if !(0 <= first < t.Rank() && 0 <= second < t.Rank()) then Err(SlotOutOfRange)
    else if first == second then Err(SameSlot)
    else if t.variance[first] != t.variance[second] then Err(UnequalVariance)
    else
      Ok(t.(components := Tabulate(t.dim, t.Rank(), Projection(t, first, second, kind)),
            symmetries := map[Ordered(first, second) := kind]))
  }

  function Untouched(symmetries: map<Pair, Kind>, slot: nat): map<Pair, Kind> {
    map pair | pair in symmetries && pair.0 != slot && pair.1 != slot :: symmetries[pair]
  }

  /** `raise_` and `lower`: one slot multiplied by the (inverse) metric. */
  function ChangeVariance(t: Tensor, slot: int, from: int, matrix: Matrix): (r: Result<Tensor>)
    requires t.WellShaped() && (from == UPPER || from == LOWER)
    ensures r.Ok? ==> r.value.WellShaped() && r.value.dim == t.dim
  {
    if t.Rank() == 0 then Err(WrongRank)
    else if !(0 <= slot < t.Rank()) then Err(SlotOutOfRange)
    else if t.variance[slot] != from then Err(WrongVariance)
    else
      Ok(t.(variance := t.variance[slot := -from],
            components := Tabulate(t.dim, t.Rank(), SlotProduct(t, slot, matrix)),
            symmetries := Untouched(t.symmetries, slot)))
  }

  /** `density` with an expression: components multiplied, weight one more. */
  function MultiplyDensity(t: Tensor, factor: real): (r: Tensor)
    requires t.WellShaped()
    ensures r.WellShaped() && r.dim == t.dim
  {
    t.(components := Tabulate(t.dim, t.Rank(), Multiple(t, factor)), weight := t.weight + 1)
  }

  predicate CheckedEntry(t: Tensor, first: nat, second: nat, kind: Kind, k: nat)
    requires t.WellShaped() && first < t.Rank() && second < t.Rank() && k < |t.components|
  {
    t.At(Swap(Unflat(t.dim, t.Rank(), k), first, second)) == Signed(kind, t.components[k])
  }

  /** The native check of a declaration, entry by entry. */
  predicate Checked(t: Tensor, first: nat, second: nat, kind: Kind)
    requires t.WellShaped() && first < t.Rank() && second < t.Rank()
  {
    forall k :: 0 <= k < Pow(t.dim, t.Rank()) ==> CheckedEntry(t, first, second, kind, k)
  }

  /** `declare_symmetry`: a false declaration is refused, a true one is recorded. */
  function Declare(t: Tensor, first: int, second: int, kind: Kind): (r: Result<Tensor>)
    requires t.WellShaped()
    ensures r.Ok? ==> r.value.WellShaped() && r.value.dim == t.dim
  {
    if kind == NoSymmetry then Err(NoSuchSymmetry)
    else if !(0 <= first < t.Rank() && 0 <= second < t.Rank()) then Err(SlotOutOfRange)
    else if first == second then Err(SameSlot)
    else if t.variance[first] != t.variance[second] then Err(UnequalVariance)
    else if !Checked(t, first, second, kind) then Err(NoSuchSymmetry)
    else Ok(t.(symmetries := t.symmetries[Ordered(first, second) := kind]))
  }

  /** `covariant_diff`: a lower derivative slot is appended. */
  function CovariantDiff(t: Tensor, d: Transport): (r: Result<Tensor>)
    requires t.WellShaped()
    ensures r.Ok? ==> r.value.WellShaped() && r.value.dim == t.dim
  {
    if t.Rank() + 1 > MAX_RANK then Err(RankTooLarge)
    else
      Ok(t.(variance := t.variance + [LOWER],
            components := Tabulate(t.dim, t.Rank() + 1, Covariant(t, d))))
  }

  /** `list(range(1, rank))`. */
  function AllButFirst(rank: nat): (slots: seq<nat>)
    requires rank > 0
    ensures DistinctSlots(rank, slots) && |slots| == rank - 1
  {
    seq(rank - 1, a requires 0 <= a < rank - 1 => a + 1)
  }

  /** `covariant_divergence`: the first upper slot against the derivative slot. */
  function Divergence(t: Tensor, d: Transport): (r: Result<Tensor>)
    requires t.WellShaped()
    ensures r.Ok? ==> r.value.WellShaped() && r.value.dim == t.dim
  {
    if t.Rank() < 1 then Err(WrongRank)
    else if t.variance[0] != UPPER then Err(WrongVariance)
    else
      var slots := AllButFirst(t.Rank());
      Ok(Tensor(t.dim, Gathered(t.variance, slots),
                Tabulate(t.dim, t.Rank() - 1, Diverged(t, d)),
                t.weight, Pulled(t.symmetries, slots)))
  }

  /** `lie`: same slots, same weight. */
  function Lie(t: Tensor, d: Transport): (r: Tensor)
    requires t.WellShaped()
    ensures r.WellShaped() && r.dim == t.dim
  {
    t.(components := Tabulate(t.dim, t.Rank(), Dragged(t, d)))
  }
}
