/** The native tensor kernels by their documented meaning: what the flat component
    list they return holds at each index tuple. Component expressions are elements
    of a commutative ring with halves, here the reals; the operators on them that
    the native layer supplies are parameters. */
module TensorKernels {
  import opened Sums
  import opened TensorIndex

  type Pair = (nat, nat)

  /** SYMMETRY_NONE, SYMMETRIC and ANTISYMMETRIC. */
  datatype Kind = NoSymmetry | Symmetric | Antisymmetric

  /** The value after exchanging the two slots, from the value before. */
  function Signed(kind: Kind, x: real): real {
    match kind
    case NoSymmetry => 0.0
    case Symmetric => x
    case Antisymmetric => -x
  }

  const UPPER := 1
  const LOWER := -1

  /** Slot variances are UPPER or LOWER; `symmetries` records declared slot pairs. */
  datatype Tensor = Tensor(
    dim: nat,
    variance: seq<int>,
    components: seq<real>,
    weight: int,
    symmetries: map<Pair, Kind>)
  {
    function Rank(): nat {
      |variance|
    }

    predicate WellShaped() {
      && dim > 0
      && |components| == Pow(dim, Rank())
      && forall s :: 0 <= s < Rank() ==> variance[s] == UPPER || variance[s] == LOWER
    }

    function At(index: Index): real {
      if IsIndex(dim, Rank(), index) && Flat(dim, index) < |components| then components[Flat(dim, index)] else 0.0
    }
  }

  /** The flat list of the entries `entry(index)`. */
  function Tabulate(dim: nat, rank: nat, entry: Index -> real): (components: seq<real>)
    requires dim > 0
    ensures |components| == Pow(dim, rank)
  {
    seq(Pow(dim, rank), k requires 0 <= k < Pow(dim, rank) => entry(Unflat(dim, rank, k)))
  }

  lemma TabulateAt(t: Tensor, entry: Index -> real, index: Index)
    requires t.dim > 0 && t.components == Tabulate(t.dim, t.Rank(), entry)
    requires IsIndex(t.dim, t.Rank(), index)
    ensures t.At(index) == entry(index)
  {
    FlatInRange(t.dim, index);
    UnflatFlat(t.dim, index);
  }

  // ---- Signed sums ---------------------------------------------------------

  lemma {:induction false} SumSigned(n: nat, f: nat -> real, g: nat -> real, kind: Kind)
    requires forall m :: 0 <= m < n ==> g(m) == Signed(kind, f(m))
    ensures Sum(n, g) == Signed(kind, Sum(n, f))
  {
    if n > 0 { SumSigned(n - 1, f, g, kind); }
  }

  // ---- Index tuples --------------------------------------------------------

  function Swap(index: Index, i: nat, j: nat): (swapped: Index)
    requires i < |index| && j < |index|
  {
    index[i := index[j]][j := index[i]]
  }

  lemma SwapAt(dim: nat, index: Index, i: nat, j: nat)
    requires i < |index| && j < |index|
    ensures |Swap(index, i, j)| == |index|
    ensures forall s :: 0 <= s < |index| ==> Swap(index, i, j)[s] == index[Exchange(s, i, j)]
    ensures InRange(dim, index) ==> InRange(dim, Swap(index, i, j))
    ensures Swap(index, i, j) == Swap(index, j, i)
  {}

  predicate DistinctSlots(rank: nat, slots: seq<nat>) {
    && (forall a :: 0 <= a < |slots| ==> slots[a] < rank)
    && (forall a, b :: 0 <= a < b < |slots| ==> slots[a] != slots[b])
  }

  /** `{source: target for target, source in enumerate(slots)}[slot]`. */
  function Position(slots: seq<nat>, slot: nat): (target: nat)
    requires slot in slots
    ensures target < |slots| && slots[target] == slot
  {
    if slots[0] == slot then 0 else 1 + Position(slots[1..], slot)
  }

  /** The old index whose slot slots[t] is index[t]; the other slots are `rest`. */
  function Scatter(rank: nat, slots: seq<nat>, index: Index, rest: nat): (old_: Index)
    requires |index| == |slots|
    ensures |old_| == rank
  {
    seq(rank, s requires 0 <= s < rank => if s in slots then index[Position(slots, s)] else rest)
  }

  lemma ScatterInRange(dim: nat, rank: nat, slots: seq<nat>, index: Index, rest: nat)
    requires IsIndex(dim, |slots|, index) && rest < dim
    ensures IsIndex(dim, rank, Scatter(rank, slots, index, rest))
  {}

  /** Swapping two new slots swaps the old slots they come from. */
  lemma ScatterSwap(dim: nat, rank: nat, slots: seq<nat>, index: Index, rest: nat, a: nat, b: nat)
    requires DistinctSlots(rank, slots) && |index| == |slots| && a < |slots| && b < |slots|
    ensures |Swap(index, a, b)| == |slots|
    ensures Scatter(rank, slots, Swap(index, a, b), rest) == Swap(Scatter(rank, slots, index, rest), slots[a], slots[b])
  {
    SwapAt(dim, index, a, b);
    var old_ := Scatter(rank, slots, index, rest);
    SwapAt(dim, old_, slots[a], slots[b]);
    forall s | 0 <= s < rank
      ensures Scatter(rank, slots, Swap(index, a, b), rest)[s] == Swap(old_, slots[a], slots[b])[s]
    {
      PositionUnique(rank, slots, a);
      PositionUnique(rank, slots, b);
    }
  }

  lemma PositionUnique(rank: nat, slots: seq<nat>, a: nat)
    requires DistinctSlots(rank, slots) && a < |slots|
    ensures Position(slots, slots[a]) == a
  {}

  // ---- The kernels ---------------------------------------------------------

  /** What the native layer supplies: the metric and its inverse, the partial derivatives
      and the connection coefficients, whose first index is the upper one and whose second
      is the direction of differentiation. */
  datatype Geometry = Geometry(
    metric: (nat, nat) -> real,
    inverse: (nat, nat) -> real,
    partial: (nat, real) -> real,
    christoffel: (nat, nat, nat) -> real)

  /** A way of differentiating along direction k, with a term for upper and for lower
      slots and one for the density weight. */
  datatype Transport = Transport(
    partial: (nat, real) -> real,
    upper: (nat, nat, nat) -> real,
    lower: (nat, nat, nat) -> real,
    density: nat -> real)

  /** Opposite expressions have opposite derivatives. */
  ghost predicate IsDerivation(d: Transport) {
    forall k, x :: d.partial(k, -x) == -d.partial(k, x)
  }

  function TraceTermOf(g: Geometry, k: nat): nat -> real {
    (m: nat) => g.christoffel(m, m, k)
  }

  /** Covariant differentiation. */
  function Connection(g: Geometry, dim: nat): Transport {
    Transport(
      g.partial,
      (i: nat, m: nat, k: nat) => g.christoffel(i, k, m),
      (i: nat, m: nat, k: nat) => -g.christoffel(m, k, i),
      (k: nat) => -Sum(dim, TraceTermOf(g, k)))
  }

  /** The terms of the derivative of x along the vector. */
  function Advected(g: Geometry, v: Tensor, x: real): nat -> real {
    (k: nat) => v.At([k]) * g.partial(k, x)
  }

  function Spreading(g: Geometry, v: Tensor): nat -> real {
    (k: nat) => g.partial(k, v.At([k]))
  }

  /** Lie differentiation along a vector; it has one direction only. */
  function Along(g: Geometry, v: Tensor): Transport {
    Transport(
      (k: nat, x: real) => Sum(v.dim, Advected(g, v, x)),
      (i: nat, m: nat, k: nat) => -g.partial(m, v.At([i])),
      (i: nat, m: nat, k: nat) => g.partial(i, v.At([m])),
      (k: nat) => Sum(v.dim, Spreading(g, v)))
  }

  /** Opposite expressions have opposite partial derivatives. */
  ghost predicate HasPartials(g: Geometry) {
    forall k, x :: g.partial(k, -x) == -g.partial(k, x)
  }

  lemma ConnectionDerives(g: Geometry, dim: nat)
    requires HasPartials(g)
    ensures IsDerivation(Connection(g, dim))
  {}

  lemma AlongDerives(g: Geometry, v: Tensor)
    requires HasPartials(g)
    ensures IsDerivation(Along(g, v))
  {
    forall k, x ensures Along(g, v).partial(k, -x) == -Along(g, v).partial(k, x) {
      SumSigned(v.dim, Advected(g, v, x), Advected(g, v, -x), Antisymmetric);
    }
  }

  /** Slots taken from the old tensor; `slots` leaves none out. */
  function Gather(t: Tensor, slots: seq<nat>): Index -> real {
    (index: Index) => GatherEntry(t, slots, index)
  }

  function GatherEntry(t: Tensor, slots: seq<nat>, index: Index): real {
    if |index| != |slots| then 0.0 else t.At(Scatter(t.Rank(), slots, index, 0))
  }

  /** Sum over the slots that `slots` leaves out, all set to the same value. */
  function Trace(t: Tensor, slots: seq<nat>): Index -> real {
    (index: Index) => TraceEntry(t, slots, index)
  }

  function TraceEntry(t: Tensor, slots: seq<nat>, index: Index): real {
    Sum(t.dim, TraceTerms(t, slots, index))
  }

  function TraceTerms(t: Tensor, slots: seq<nat>, index: Index): nat -> real {
    (m: nat) => TraceTerm(t, slots, index, m)
  }

  function TraceTerm(t: Tensor, slots: seq<nat>, index: Index, m: nat): real {
    if |index| != |slots| then 0.0 else t.At(Scatter(t.Rank(), slots, index, m))
  }

  function Outer(t: Tensor, u: Tensor): Index -> real {
    (index: Index) => OuterEntry(t, u, index)
  }

  function OuterEntry(t: Tensor, u: Tensor, index: Index): real {
    if |index| < t.Rank() then 0.0 else t.At(index[..t.Rank()]) * u.At(index[t.Rank()..])
  }

  function Projection(t: Tensor, i: nat, j: nat, kind: Kind): Index -> real {
    (index: Index) => ProjectionEntry(t, i, j, kind, index)
  }

  function ProjectionEntry(t: Tensor, i: nat, j: nat, kind: Kind, index: Index): real {
    if i >= |index| || j >= |index| then 0.0
    else (t.At(index) + Signed(kind, t.At(Swap(index, i, j)))) / 2.0
  }

  type Matrix = (nat, nat) -> real

  /** One slot of the tensor multiplied by a matrix. */
  function SlotProduct(t: Tensor, slot: nat, matrix: Matrix): Index -> real {
    (index: Index) => SlotEntry(t, slot, matrix, index)
  }

  function SlotEntry(t: Tensor, slot: nat, matrix: Matrix, index: Index): real {
    Sum(t.dim, SlotSummands(t, slot, matrix, index))
  }

  function SlotSummands(t: Tensor, slot: nat, matrix: Matrix, index: Index): nat -> real {
    (m: nat) => SlotSummand(t, slot, matrix, index, m)
  }

  function SlotSummand(t: Tensor, slot: nat, matrix: Matrix, index: Index, m: nat): real {
    if slot >= |index| then 0.0 else matrix(index[slot], m) * t.At(index[slot := m])
  }

  function Multiple(t: Tensor, factor: real): Index -> real {
    (index: Index) => factor * t.At(index)
  }

  /** The derivative of one component along k with a term for each slot and for
      the density weight: the covariant and the Lie derivative have this form. */
  function Transported(t: Tensor, d: Transport, k: nat, index: Index): real {
    d.partial(k, t.At(index))
    + Sum(t.Rank(), SlotTerms(t, d, k, index))
    + WeightTerm(t, d, k, t.At(index))
  }

  function WeightTerm(t: Tensor, d: Transport, k: nat, x: real): real {
    d.density(k) * (t.weight as real) * x
  }

  function SlotTerms(t: Tensor, d: Transport, k: nat, index: Index): nat -> real {
    (slot: nat) => SlotTerm(t, d, k, index, slot)
  }

  function SlotTerm(t: Tensor, d: Transport, k: nat, index: Index, slot: nat): real {
    if slot >= t.Rank() then 0.0 else SlotEntry(t, slot, SlotMatrix(t, d, k, slot), index)
  }

  function SlotMatrix(t: Tensor, d: Transport, k: nat, slot: nat): Matrix
    requires slot < t.Rank()
  {
    var upper := t.variance[slot] == UPPER;
    (i: nat, m: nat) => if upper then d.upper(i, m, k) else d.lower(i, m, k)
  }

  /** The Lie derivative: no new slot. */
  function Dragged(t: Tensor, d: Transport): Index -> real {
    (index: Index) => Transported(t, d, 0, index)
  }

  /** The covariant derivative: the direction is the last slot. */
  function Covariant(t: Tensor, d: Transport): Index -> real {
    (index: Index) => CovariantEntry(t, d, index)
  }

  function CovariantEntry(t: Tensor, d: Transport, index: Index): real {
    if |index| != t.Rank() + 1 then 0.0 else Transported(t, d, index[t.Rank()], index[..t.Rank()])
  }

  /** The first slot contracted with the derivative direction. */
  function Diverged(t: Tensor, d: Transport): Index -> real {
    (index: Index) => DivergenceEntry(t, d, index)
  }

  function DivergenceEntry(t: Tensor, d: Transport, index: Index): real {
    Sum(t.dim, DivergenceTerms(t, d, index))
  }

  function DivergenceTerms(t: Tensor, d: Transport, index: Index): nat -> real {
    (m: nat) => DivergenceTerm(t, d, index, m)
  }

  function DivergenceTerm(t: Tensor, d: Transport, index: Index, m: nat): real {
    Transported(t, d, m, [m] + index)
  }
}
