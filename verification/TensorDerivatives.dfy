/** What the covariant and the Lie derivative are: their components on vectors and
    covectors, the product rule, and that they commute with contraction. */
module TensorDerivatives {
  import opened Sums
  import opened TensorIndex
  import opened TensorKernels
  import opened TensorSymmetry
  import opened TensorTruth
  import opened TensorRelations

  // ---- Vectors and covectors -----------------------------------------------

  function UpperTerm(g: Geometry, t: Tensor, i: nat, k: nat): nat -> real {
    (m: nat) => g.christoffel(i, k, m) * t.At([m])
  }

  function LowerTerm(g: Geometry, t: Tensor, i: nat, k: nat): nat -> real {
    (m: nat) => g.christoffel(m, k, i) * t.At([m])
  }

  function Diagonal(g: Geometry, k: nat): nat -> real {
    (m: nat) => g.christoffel(m, m, k)
  }

  /** The only slot of a tensor of rank one multiplied by a matrix. */
  lemma OneSlot(t: Tensor, d: Transport, k: nat, i: nat, terms: nat -> real)
    requires t.Rank() == 1
    requires forall m :: 0 <= m < t.dim ==>
               terms(m) == (if t.variance[0] == UPPER then d.upper(i, m, k) else d.lower(i, m, k)) * t.At([m])
    ensures Transported(t, d, k, [i]) ==
            d.partial(k, t.At([i])) + Sum(t.dim, terms) + d.density(k) * (t.weight as real) * t.At([i])
  {
    var slots := SlotTerms(t, d, k, [i]);
    var summands := SlotSummands(t, 0, SlotMatrix(t, d, k, 0), [i]);
    forall m | 0 <= m < t.dim ensures summands(m) == terms(m) {
      assert [i][0 := m] == [m];
    }
    SumEqual(t.dim, terms, summands);
    assert Sum(1, slots) == Sum(0, slots) + slots(0);
  }

  /** The covariant derivative of a vector density. */
  lemma VectorDerivative(t: Tensor, g: Geometry, i: nat, k: nat)
    requires t.WellShaped() && t.variance == [UPPER] && i < t.dim && k < t.dim
    ensures var r := Evaluate(Differentiated(Given(t)), g, t.dim);
            && r.Ok? && r.value.variance == [UPPER, LOWER] && r.value.weight == t.weight
            && r.value.At([i, k]) ==
               g.partial(k, t.At([i])) + Sum(t.dim, UpperTerm(g, t, i, k))
               - (t.weight as real) * Sum(t.dim, Diagonal(g, k)) * t.At([i])
  {
    VectorTransported(t, g, i, k);
    DerivativeAt(t, Connection(g, t.dim), [i], k);
    assert [i] + [k] == [i, k];
  }

  lemma VectorTransported(t: Tensor, g: Geometry, i: nat, k: nat)
    requires t.variance == [UPPER]
    ensures Transported(t, Connection(g, t.dim), k, [i]) ==
            g.partial(k, t.At([i])) + Sum(t.dim, UpperTerm(g, t, i, k))
            - (t.weight as real) * Sum(t.dim, Diagonal(g, k)) * t.At([i])
  {
    ConnectionParts(g, t.dim, k, t.At([i]));
    OneSlotWith(t, Connection(g, t.dim), k, i, UpperTerm(g, t, i, k), g.partial(k, t.At([i])),
                -Sum(t.dim, Diagonal(g, k)));
    Negated(Transported(t, Connection(g, t.dim), k, [i]), g.partial(k, t.At([i])), Sum(t.dim, UpperTerm(g, t, i, k)),
            Sum(t.dim, Diagonal(g, k)), t.weight as real, t.At([i]));
  }

  /** The covariant derivative of a covector density. */
  lemma CovectorDerivative(t: Tensor, g: Geometry, i: nat, k: nat)
    requires t.WellShaped() && t.variance == [LOWER] && i < t.dim && k < t.dim
    ensures var r := Evaluate(Differentiated(Given(t)), g, t.dim);
            && r.Ok? && r.value.variance == [LOWER, LOWER] && r.value.weight == t.weight
            && r.value.At([i, k]) ==
               g.partial(k, t.At([i])) - Sum(t.dim, LowerTerm(g, t, i, k))
               - (t.weight as real) * Sum(t.dim, Diagonal(g, k)) * t.At([i])
  {
    CovectorTransported(t, g, i, k);
    DerivativeAt(t, Connection(g, t.dim), [i], k);
    assert [i] + [k] == [i, k];
  }

  lemma CovectorTransported(t: Tensor, g: Geometry, i: nat, k: nat)
    requires t.variance == [LOWER]
    ensures Transported(t, Connection(g, t.dim), k, [i]) ==
            g.partial(k, t.At([i])) - Sum(t.dim, LowerTerm(g, t, i, k))
            - (t.weight as real) * Sum(t.dim, Diagonal(g, k)) * t.At([i])
  {
    ConnectionParts(g, t.dim, k, t.At([i]));
    OneSlotWith(t, Connection(g, t.dim), k, i, LessTerm(g, t, i, k), g.partial(k, t.At([i])),
                -Sum(t.dim, Diagonal(g, k)));
    LowerSum(t, g, i, k);
    Negated(Transported(t, Connection(g, t.dim), k, [i]), g.partial(k, t.At([i])), -Sum(t.dim, LowerTerm(g, t, i, k)),
            Sum(t.dim, Diagonal(g, k)), t.weight as real, t.At([i]));
  }

  lemma ConnectionParts(g: Geometry, dim: nat, k: nat, x: real)
    ensures Connection(g, dim).partial(k, x) == g.partial(k, x)
    ensures Connection(g, dim).density(k) == -Sum(dim, Diagonal(g, k))
  {
    SumEqual(dim, Diagonal(g, k), TraceTermOf(g, k));
  }

  lemma Negated(whole: real, change: real, slot: real, spread: real, w: real, x: real)
    requires AddsUp(whole, change, slot, -spread, w, x)
    ensures whole == change + slot - w * spread * x
  {}

  function LessTerm(g: Geometry, t: Tensor, i: nat, k: nat): nat -> real {
    (m: nat) => -g.christoffel(m, k, i) * t.At([m])
  }

  lemma LowerSum(t: Tensor, g: Geometry, i: nat, k: nat)
    ensures Sum(t.dim, LessTerm(g, t, i, k)) == -Sum(t.dim, LowerTerm(g, t, i, k))
  {
    var less, lower := LessTerm(g, t, i, k), LowerTerm(g, t, i, k);
    forall m | 0 <= m < t.dim ensures less(m) == Signed(Antisymmetric, lower(m)) {
      NegativeTimes(g.christoffel(m, k, i), t.At([m]));
    }
    SumSigned(t.dim, lower, less, Antisymmetric);
  }

  lemma NegativeTimes(x: real, y: real)
    ensures -x * y == -(x * y)
  {}

  /** The component of a derivative at an index followed by the direction. */
  lemma DerivativeAt(t: Tensor, d: Transport, index: Index, k: nat)
    requires t.WellShaped() && CovariantDiff(t, d).Ok? && IsIndex(t.dim, t.Rank(), index) && k < t.dim
    ensures CovariantDiff(t, d).value.At(index + [k]) == Transported(t, d, k, index)
  {
    var r, whole := CovariantDiff(t, d).value, index + [k];
    Tabulated(r, Covariant(t, d));
    assert IsIndex(r.dim, r.Rank(), whole) && r.At(whole) == Covariant(t, d)(whole);
    assert whole[..t.Rank()] == index;
  }

  /** The terms of the Lie derivative of a vector and of a covector. */
  function Stretched(g: Geometry, t: Tensor, v: Tensor, i: nat): nat -> real {
    (m: nat) => -g.partial(m, v.At([i])) * t.At([m])
  }

  function Sheared(g: Geometry, t: Tensor, v: Tensor, i: nat): nat -> real {
    (m: nat) => g.partial(i, v.At([m])) * t.At([m])
  }

  function Carried(g: Geometry, v: Tensor, x: real): nat -> real {
    (k: nat) => v.At([k]) * g.partial(k, x)
  }

  function Outflow(g: Geometry, v: Tensor): nat -> real {
    (k: nat) => g.partial(k, v.At([k]))
  }

  /** A derivative with one slot term and a weight term. */
  predicate AddsUp(whole: real, change: real, slot: real, spread: real, weight: real, x: real) {
    whole == change + slot + spread * weight * x
  }

  lemma LieAt(t: Tensor, v: Tensor, g: Geometry, index: Index)
    requires t.WellShaped() && LieAlong(t, v, g).Ok? && IsIndex(t.dim, t.Rank(), index)
    ensures LieAlong(t, v, g).value.At(index) == Transported(t, Along(g, v), 0, index)
  {
    var r := LieAlong(t, v, g).value;
    Tabulated(r, Dragged(t, Along(g, v)));
    assert r.At(index) == Dragged(t, Along(g, v))(index);
  }

  /** The Lie derivative of a vector or covector density along a vector, which must have
      one upper slot and no weight. */
  lemma LieOfVector(t: Tensor, v: Tensor, g: Geometry, i: nat)
    requires t.WellShaped() && t.Rank() == 1 && v.dim == t.dim && i < t.dim
    ensures LieAlong(t, v, g).Ok? <==> v.variance == [UPPER] && v.weight == 0
    ensures LieAlong(t, v, g).Ok? ==>
              && LieAlong(t, v, g).value.variance == t.variance && LieAlong(t, v, g).value.weight == t.weight
              && AddsUp(
                   LieAlong(t, v, g).value.At([i]), Sum(t.dim, Carried(g, v, t.At([i]))),
                   Sum(t.dim, if t.variance[0] == UPPER then Stretched(g, t, v, i) else Sheared(g, t, v, i)),
                   Sum(t.dim, Outflow(g, v)), t.weight as real, t.At([i]))
  {
    if v.variance == [UPPER] && v.weight == 0 {
      LieAt(t, v, g, [i]);
      LieTransported(t, v, g, i);
    }
  }

  lemma LieTransported(t: Tensor, v: Tensor, g: Geometry, i: nat)
    requires t.Rank() == 1 && v.dim == t.dim
    ensures AddsUp(Transported(t, Along(g, v), 0, [i]), Sum(t.dim, Carried(g, v, t.At([i]))),
                   Sum(t.dim, if t.variance[0] == UPPER then Stretched(g, t, v, i) else Sheared(g, t, v, i)),
                   Sum(t.dim, Outflow(g, v)), t.weight as real, t.At([i]))
  {
    AlongParts(v, g, t.At([i]));
    OneSlotWith(t, Along(g, v), 0, i, if t.variance[0] == UPPER then Stretched(g, t, v, i) else Sheared(g, t, v, i),
                Sum(t.dim, Carried(g, v, t.At([i]))), Sum(t.dim, Outflow(g, v)));
  }

  lemma OneSlotWith(t: Tensor, d: Transport, k: nat, i: nat, terms: nat -> real, change: real, spread: real)
    requires t.Rank() == 1 && d.partial(k, t.At([i])) == change && d.density(k) == spread
    requires forall m :: 0 <= m < t.dim ==>
               terms(m) == (if t.variance[0] == UPPER then d.upper(i, m, k) else d.lower(i, m, k)) * t.At([m])
    ensures AddsUp(Transported(t, d, k, [i]), change, Sum(t.dim, terms), spread, t.weight as real, t.At([i]))
  {
    OneSlot(t, d, k, i, terms);
  }

  lemma AlongParts(v: Tensor, g: Geometry, x: real)
    ensures Along(g, v).partial(0, x) == Sum(v.dim, Carried(g, v, x))
    ensures Along(g, v).density(0) == Sum(v.dim, Outflow(g, v))
  {
    SumEqual(v.dim, Carried(g, v, x), Advected(g, v, x));
    SumEqual(v.dim, Outflow(g, v), Spreading(g, v));
  }

  // ---- The product rule ----------------------------------------------------

  /** The derivative obeys the product rule. */
  ghost predicate IsLeibniz(d: Transport) {
    forall k, x, y {:trigger LeibnizAt(d, k, x, y)} :: LeibnizAt(d, k, x, y)
  }

  predicate LeibnizAt(d: Transport, k: nat, x: real, y: real) {
    ByParts(d.partial(k, x * y), d.partial(k, x), x, d.partial(k, y), y)
  }

  function Times(x: real, f: nat -> real): nat -> real {
    (m: nat) => x * f(m)
  }

  lemma TimesSum(n: nat, f: nat -> real, x: real)
    ensures Sum(n, Times(x, f)) == x * Sum(n, f)
  {
    SumTimes(n, f, Times(x, f), x);
  }

  lemma ScaledSum(n: nat, f: nat -> real, h: nat -> real, x: real)
    requires forall m :: 0 <= m < n ==> h(m) == Times(x, f)(m)
    ensures Sum(n, h) == x * Sum(n, f)
  {
    SumEqual(n, Times(x, f), h);
    TimesSum(n, f, x);
  }

  /** The tensor is the product of the two, as far as components, variances and weight go. */
  ghost predicate Multiplies(r: Tensor, t: Tensor, u: Tensor) {
    && r.dim == t.dim == u.dim && r.variance == t.variance + u.variance && r.weight == t.weight + u.weight
    && forall left, right {:trigger ProductAt(r, t, u, left, right)} ::
         IsIndex(t.dim, t.Rank(), left) && IsIndex(u.dim, u.Rank(), right) ==> ProductAt(r, t, u, left, right)
  }

  predicate ProductAt(r: Tensor, t: Tensor, u: Tensor, left: Index, right: Index) {
    r.At(left + right) == t.At(left) * u.At(right)
  }

  lemma ProductMultiplies(t: Tensor, u: Tensor)
    requires t.WellShaped() && u.WellShaped() && t.dim == u.dim && t.Rank() + u.Rank() <= MAX_RANK
    ensures Multiplies(Product(t, u).value, t, u)
  {
    var r := Product(t, u).value;
    forall left, right | IsIndex(t.dim, t.Rank(), left) && IsIndex(u.dim, u.Rank(), right)
      ensures ProductAt(r, t, u, left, right)
    {
      ProductComponent(t, u, left, right);
    }
  }

  lemma Shift(x: real, y: real, z: real)
    ensures x * (y * z) == z * (x * y) && x * (z * y) == z * (x * y)
  {}

  /** One term of slot s of the left factor, seen in the product. */
  lemma LeftSummand(
    r: Tensor, t: Tensor, u: Tensor, d: Transport, k: nat, left: Index, right: Index, s: nat, m: nat)
    requires Multiplies(r, t, u) && IsIndex(t.dim, t.Rank(), left) && IsIndex(u.dim, u.Rank(), right)
    requires s < t.Rank() && m < t.dim
    ensures SlotSummands(r, s, SlotMatrix(r, d, k, s), left + right)(m) ==
            Times(u.At(right), SlotSummands(t, s, SlotMatrix(t, d, k, s), left))(m)
  {
    assert ProductAt(r, t, u, left[s := m], right);
    assert (left + right)[s := m] == left[s := m] + right;
    Shift(SlotMatrix(t, d, k, s)(left[s], m), t.At(left[s := m]), u.At(right));
  }

  lemma RightSummand(
    r: Tensor, t: Tensor, u: Tensor, d: Transport, k: nat, left: Index, right: Index, s: nat, m: nat)
    requires Multiplies(r, t, u) && IsIndex(t.dim, t.Rank(), left) && IsIndex(u.dim, u.Rank(), right)
    requires s < u.Rank() && m < t.dim
    ensures SlotSummands(r, t.Rank() + s, SlotMatrix(r, d, k, t.Rank() + s), left + right)(m) ==
            Times(t.At(left), SlotSummands(u, s, SlotMatrix(u, d, k, s), right))(m)
  {
    assert ProductAt(r, t, u, left, right[s := m]);
    assert (left + right)[t.Rank() + s := m] == left + right[s := m];
    Shift(SlotMatrix(u, d, k, s)(right[s], m), u.At(right[s := m]), t.At(left));
  }

  /** Slot s of the left factor, seen in the product. */
  lemma LeftSlot(r: Tensor, t: Tensor, u: Tensor, d: Transport, k: nat, left: Index, right: Index, s: nat)
    requires Multiplies(r, t, u) && IsIndex(t.dim, t.Rank(), left) && IsIndex(u.dim, u.Rank(), right) && s < t.Rank()
    ensures SlotTerms(r, d, k, left + right)(s) == Times(u.At(right), SlotTerms(t, d, k, left))(s)
  {
    var here, whole := SlotSummands(t, s, SlotMatrix(t, d, k, s), left),
                       SlotSummands(r, s, SlotMatrix(r, d, k, s), left + right);
    forall m | 0 <= m < t.dim ensures whole(m) == Times(u.At(right), here)(m) {
      LeftSummand(r, t, u, d, k, left, right, s, m);
    }
    ScaledSum(t.dim, here, whole, u.At(right));
  }

  lemma RightSlot(r: Tensor, t: Tensor, u: Tensor, d: Transport, k: nat, left: Index, right: Index, s: nat)
    requires Multiplies(r, t, u) && IsIndex(t.dim, t.Rank(), left) && IsIndex(u.dim, u.Rank(), right) && s < u.Rank()
    ensures SlotTerms(r, d, k, left + right)(t.Rank() + s) == Times(t.At(left), SlotTerms(u, d, k, right))(s)
  {
    var at := t.Rank() + s;
    RightSummands(r, t, u, d, k, left, right, s);
    ScaledSum(t.dim, SlotSummands(u, s, SlotMatrix(u, d, k, s), right),
              SlotSummands(r, at, SlotMatrix(r, d, k, at), left + right), t.At(left));
  }

  lemma RightSummands(r: Tensor, t: Tensor, u: Tensor, d: Transport, k: nat, left: Index, right: Index, s: nat)
    requires Multiplies(r, t, u) && IsIndex(t.dim, t.Rank(), left) && IsIndex(u.dim, u.Rank(), right) && s < u.Rank()
    ensures forall m :: 0 <= m < t.dim ==>
              SlotSummands(r, t.Rank() + s, SlotMatrix(r, d, k, t.Rank() + s), left + right)(m) ==
              Times(t.At(left), SlotSummands(u, s, SlotMatrix(u, d, k, s), right))(m)
  {
    forall m | 0 <= m < t.dim
      ensures SlotSummands(r, t.Rank() + s, SlotMatrix(r, d, k, t.Rank() + s), left + right)(m) ==
              Times(t.At(left), SlotSummands(u, s, SlotMatrix(u, d, k, s), right))(m)
    {
      RightSummand(r, t, u, d, k, left, right, s, m);
    }
  }

  /** A sum over two stretches of indices. */
  lemma {:induction false} SumSplit(n: nat, k: nat, f: nat -> real, a: nat -> real, b: nat -> real)
    requires forall m :: 0 <= m < n ==> f(m) == a(m)
    requires forall m :: 0 <= m < k ==> f(n + m) == b(m)
    ensures Sum(n + k, f) == Sum(n, a) + Sum(k, b)
  {
    if k == 0 {
      SumEqual(n, a, f);
    } else {
      SumSplit(n, k - 1, f, a, b);
    }
  }

  lemma Stretches(n: nat, k: nat, f: nat -> real, a: nat -> real, b: nat -> real, x: real, y: real)
    requires forall m :: 0 <= m < n ==> f(m) == Times(x, a)(m)
    requires forall m :: 0 <= m < k ==> f(n + m) == Times(y, b)(m)
    ensures Sum(n + k, f) == x * Sum(n, a) + y * Sum(k, b)
  {
    SumSplit(n, k, f, Times(x, a), Times(y, b));
    TimesSum(n, a, x);
    TimesSum(k, b, y);
  }

  lemma LeftSlots(r: Tensor, t: Tensor, u: Tensor, d: Transport, k: nat, left: Index, right: Index)
    requires Multiplies(r, t, u) && IsIndex(t.dim, t.Rank(), left) && IsIndex(u.dim, u.Rank(), right)
    ensures forall s :: 0 <= s < t.Rank() ==>
              SlotTerms(r, d, k, left + right)(s) == Times(u.At(right), SlotTerms(t, d, k, left))(s)
  {
    forall s | 0 <= s < t.Rank()
      ensures SlotTerms(r, d, k, left + right)(s) == Times(u.At(right), SlotTerms(t, d, k, left))(s)
    {
      LeftSlot(r, t, u, d, k, left, right, s);
    }
  }

  lemma RightSlots(r: Tensor, t: Tensor, u: Tensor, d: Transport, k: nat, left: Index, right: Index)
    requires Multiplies(r, t, u) && IsIndex(t.dim, t.Rank(), left) && IsIndex(u.dim, u.Rank(), right)
    ensures forall s :: 0 <= s < u.Rank() ==>
              SlotTerms(r, d, k, left + right)(t.Rank() + s) == Times(t.At(left), SlotTerms(u, d, k, right))(s)
  {
    forall s | 0 <= s < u.Rank()
      ensures SlotTerms(r, d, k, left + right)(t.Rank() + s) == Times(t.At(left), SlotTerms(u, d, k, right))(s)
    {
      RightSlot(r, t, u, d, k, left, right, s);
    }
  }

  /** The shape of the product rule. */
  predicate ByParts(whole: real, dx: real, x: real, dy: real, y: real) {
    whole == dx * y + x * dy
  }

  lemma StretchesByParts(
    all: nat, n: nat, k: nat, f: nat -> real, a: nat -> real, b: nat -> real, x: real, y: real)
    requires all == n + k
    requires forall m :: 0 <= m < n ==> f(m) == Times(y, a)(m)
    requires forall m :: 0 <= m < k ==> f(n + m) == Times(x, b)(m)
    ensures ByParts(Sum(all, f), Sum(n, a), x, Sum(k, b), y)
  {
    Stretches(n, k, f, a, b, y, x);
  }

  lemma SlotsByParts(r: Tensor, t: Tensor, u: Tensor, d: Transport, k: nat, left: Index, right: Index)
    requires Multiplies(r, t, u) && IsIndex(t.dim, t.Rank(), left) && IsIndex(u.dim, u.Rank(), right)
    ensures ByParts(
              Sum(r.Rank(), SlotTerms(r, d, k, left + right)), Sum(t.Rank(), SlotTerms(t, d, k, left)), t.At(left),
              Sum(u.Rank(), SlotTerms(u, d, k, right)), u.At(right))
  {
    LeftSlots(r, t, u, d, k, left, right);
    RightSlots(r, t, u, d, k, left, right);
    StretchesByParts(r.Rank(), t.Rank(), u.Rank(), SlotTerms(r, d, k, left + right), SlotTerms(t, d, k, left),
                     SlotTerms(u, d, k, right), t.At(left), u.At(right));
  }

  /** Weights add, so the weight terms obey the rule. */
  lemma WeightByParts(r: Tensor, t: Tensor, u: Tensor, d: Transport, k: nat, xy: real, x: real, y: real)
    requires r.weight == t.weight + u.weight && xy == x * y
    ensures ByParts(WeightTerm(r, d, k, xy), WeightTerm(t, d, k, x), x, WeightTerm(u, d, k, y), y)
  {
    assert r.weight as real == t.weight as real + u.weight as real;
  }

  lemma PartsTogether(
    p: real, q: real, s: real, p1: real, q1: real, s1: real, x: real, p2: real, q2: real, s2: real, y: real)
    requires ByParts(p, p1, x, p2, y) && ByParts(q, q1, x, q2, y) && ByParts(s, s1, x, s2, y)
    ensures ByParts(p + q + s, p1 + q1 + s1, x, p2 + q2 + s2, y)
  {}

  lemma TransportedParts(
    r: Tensor, t: Tensor, u: Tensor, d: Transport, k: nat, whole: Index, left: Index, right: Index,
    xy: real, x: real, y: real)
    requires r.At(whole) == xy && t.At(left) == x && u.At(right) == y
    requires ByParts(d.partial(k, xy), d.partial(k, x), x, d.partial(k, y), y)
    requires ByParts(Sum(r.Rank(), SlotTerms(r, d, k, whole)), Sum(t.Rank(), SlotTerms(t, d, k, left)), x,
                     Sum(u.Rank(), SlotTerms(u, d, k, right)), y)
    requires ByParts(WeightTerm(r, d, k, xy), WeightTerm(t, d, k, x), x, WeightTerm(u, d, k, y), y)
    ensures ByParts(Transported(r, d, k, whole), Transported(t, d, k, left), x, Transported(u, d, k, right), y)
  {
    PartsTogether(
      d.partial(k, xy), Sum(r.Rank(), SlotTerms(r, d, k, whole)), WeightTerm(r, d, k, xy),
      d.partial(k, x), Sum(t.Rank(), SlotTerms(t, d, k, left)), WeightTerm(t, d, k, x), x,
      d.partial(k, y), Sum(u.Rank(), SlotTerms(u, d, k, right)), WeightTerm(u, d, k, y), y);
  }

  /** The product rule for tensors of any rank and weight. */
  lemma TransportedProduct(r: Tensor, t: Tensor, u: Tensor, d: Transport, k: nat, left: Index, right: Index)
    requires Multiplies(r, t, u) && IsIndex(t.dim, t.Rank(), left) && IsIndex(u.dim, u.Rank(), right) && IsLeibniz(d)
    ensures ByParts(Transported(r, d, k, left + right),
                    Transported(t, d, k, left), t.At(left), Transported(u, d, k, right), u.At(right))
  {
    SlotsByParts(r, t, u, d, k, left, right);
    ComponentByParts(r, t, u, d, k, left, right);
    TransportedParts(r, t, u, d, k, left + right, left, right, r.At(left + right), t.At(left), u.At(right));
  }

  lemma ComponentByParts(r: Tensor, t: Tensor, u: Tensor, d: Transport, k: nat, left: Index, right: Index)
    requires Multiplies(r, t, u) && IsIndex(t.dim, t.Rank(), left) && IsIndex(u.dim, u.Rank(), right) && IsLeibniz(d)
    ensures ByParts(d.partial(k, r.At(left + right)),
                    d.partial(k, t.At(left)), t.At(left), d.partial(k, u.At(right)), u.At(right))
    ensures ByParts(WeightTerm(r, d, k, r.At(left + right)),
                    WeightTerm(t, d, k, t.At(left)), t.At(left), WeightTerm(u, d, k, u.At(right)), u.At(right))
  {
    assert ProductAt(r, t, u, left, right);
    ChangeByParts(d, k, r.At(left + right), t.At(left), u.At(right));
    WeightByParts(r, t, u, d, k, r.At(left + right), t.At(left), u.At(right));
  }

  lemma ChangeByParts(d: Transport, k: nat, xy: real, x: real, y: real)
    requires IsLeibniz(d) && xy == x * y
    ensures ByParts(d.partial(k, xy), d.partial(k, x), x, d.partial(k, y), y)
  {
    assert LeibnizAt(d, k, x, y);
  }

  /** The partial derivatives obey the product rule. */
  ghost predicate HasProductRule(g: Geometry) {
    forall k, x, y {:trigger PartialByParts(g, k, x, y)} :: PartialByParts(g, k, x, y)
  }

  predicate PartialByParts(g: Geometry, k: nat, x: real, y: real) {
    ByParts(g.partial(k, x * y), g.partial(k, x), x, g.partial(k, y), y)
  }

  /** The covariant derivative of a product. */
  lemma CovariantProductRule(t: Tensor, u: Tensor, g: Geometry, left: Index, right: Index, k: nat)
    requires t.WellShaped() && u.WellShaped() && t.dim == u.dim && t.Rank() + u.Rank() + 1 <= MAX_RANK
    requires IsIndex(t.dim, t.Rank(), left) && IsIndex(u.dim, u.Rank(), right) && k < t.dim && HasProductRule(g)
    ensures var d, r := Connection(g, t.dim), Product(t, u);
            && r.Ok? && CovariantDiff(r.value, d).Ok? && CovariantDiff(t, d).Ok? && CovariantDiff(u, d).Ok?
            && ByParts(CovariantDiff(r.value, d).value.At(left + right + [k]),
                       CovariantDiff(t, d).value.At(left + [k]), t.At(left),
                       CovariantDiff(u, d).value.At(right + [k]), u.At(right))
  {
    var d, r := Connection(g, t.dim), Product(t, u).value;
    ProductMultiplies(t, u);
    forall k, x, y ensures LeibnizAt(d, k, x, y) {
      assert PartialByParts(g, k, x, y);
    }
    TransportedProduct(r, t, u, d, k, left, right);
    DerivativeAt(r, d, left + right, k);
    DerivativeAt(t, d, left, k);
    DerivativeAt(u, d, right, k);
  }

  lemma AdvectedByParts(g: Geometry, v: Tensor, x: real, y: real, k: nat)
    requires HasProductRule(g)
    ensures Advected(g, v, x * y)(k) == Times(y, Advected(g, v, x))(k) + Times(x, Advected(g, v, y))(k)
  {
    assert PartialByParts(g, k, x, y);
    Distributes(v.At([k]), g.partial(k, x), x, g.partial(k, y), y);
  }

  lemma Distributes(v: real, dx: real, x: real, dy: real, y: real)
    ensures v * (dx * y + x * dy) == y * (v * dx) + x * (v * dy)
  {}

  lemma AlongLeibniz(g: Geometry, v: Tensor, k: nat, x: real, y: real)
    requires HasProductRule(g)
    ensures LeibnizAt(Along(g, v), k, x, y)
  {
    forall m | 0 <= m < v.dim
      ensures Advected(g, v, x * y)(m) == Times(y, Advected(g, v, x))(m) + Times(x, Advected(g, v, y))(m)
    {
      AdvectedByParts(g, v, x, y, m);
    }
    SumAdd(v.dim, Times(y, Advected(g, v, x)), Times(x, Advected(g, v, y)), Advected(g, v, x * y));
    TimesSum(v.dim, Advected(g, v, x), y);
    TimesSum(v.dim, Advected(g, v, y), x);
  }

  /** The Lie derivative of a product. */
  lemma LieProductRule(t: Tensor, u: Tensor, v: Tensor, g: Geometry, left: Index, right: Index)
    requires t.WellShaped() && u.WellShaped() && t.dim == u.dim && t.Rank() + u.Rank() <= MAX_RANK
    requires IsIndex(t.dim, t.Rank(), left) && IsIndex(u.dim, u.Rank(), right) && HasProductRule(g)
    requires LieAlong(t, v, g).Ok? && LieAlong(u, v, g).Ok?
    ensures var r := Product(t, u);
            && r.Ok? && LieAlong(r.value, v, g).Ok?
            && ByParts(LieAlong(r.value, v, g).value.At(left + right),
                       LieAlong(t, v, g).value.At(left), t.At(left), LieAlong(u, v, g).value.At(right), u.At(right))
  {
    var d, r := Along(g, v), Product(t, u).value;
    ProductMultiplies(t, u);
    forall k, x, y ensures LeibnizAt(d, k, x, y) {
      AlongLeibniz(g, v, k, x, y);
    }
    TransportedProduct(r, t, u, d, 0, left, right);
    LieAt(r, v, g, left + right);
    LieAt(t, v, g, left);
    LieAt(u, v, g, right);
  }
}
