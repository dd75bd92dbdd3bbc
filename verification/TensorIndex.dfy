/** Tensor components are stored flat, first slot fastest: the component of the
    index tuple (i0, i1, ...) is entry i0 + n*i1 + n*n*i2 + ... of the list. */
module TensorIndex {

  datatype Result<+T> = Ok(value: T) | Err(reason: Refusal)

  datatype Refusal =
    | WrongRank
    | SlotOutOfRange
    | SameSlot
    | EqualVariance
    | UnequalVariance
    | WrongVariance
    | NotAVector
    | NoSuchSymmetry
    | NotAPermutation
    | RankTooLarge

  type Index = seq<nat>

  predicate InRange(dim: nat, index: Index) {
    forall s :: 0 <= s < |index| ==> index[s] < dim
  }

  predicate IsIndex(dim: nat, rank: nat, index: Index) {
    |index| == rank && InRange(dim, index)
  }

  function Pow(dim: nat, rank: nat): nat {
    if rank == 0 then 1 else dim * Pow(dim, rank - 1)
  }

  lemma {:induction false} PowPositive(dim: nat, rank: nat)
    requires dim > 0
    ensures Pow(dim, rank) > 0
  {
    if rank > 0 {
      PowPositive(dim, rank - 1);
      assert dim * Pow(dim, rank - 1) > 0;
    }
  }

  function Flat(dim: nat, index: Index): nat {
    if index == [] then 0 else index[0] + dim * Flat(dim, index[1..])
  }

  function Unflat(dim: nat, rank: nat, k: nat): (index: Index)
    requires dim > 0
    ensures |index| == rank && InRange(dim, index)
  {
    if rank == 0 then [] else [k % dim] + Unflat(dim, rank - 1, k / dim)
  }

  lemma {:induction false} FlatInRange(dim: nat, index: Index)
    requires InRange(dim, index)
    ensures Flat(dim, index) < Pow(dim, |index|)
  {
    if index != [] {
      FlatInRange(dim, index[1..]);
      MulStep(dim, Flat(dim, index[1..]), Pow(dim, |index| - 1));
    }
  }

  /** Flattening is injective: the tuple can be read back from the flat index. */
  lemma {:induction false} UnflatFlat(dim: nat, index: Index)
    requires dim > 0 && InRange(dim, index)
    ensures Unflat(dim, |index|, Flat(dim, index)) == index
  {
    if index != [] {
      var tail := Flat(dim, index[1..]);
      var flat := index[0] + dim * tail;
      DivMod(dim, tail, index[0]);
      assert flat % dim == index[0] && flat / dim == tail;
      UnflatFlat(dim, index[1..]);
    }
  }

  /** Flattening is onto: every entry of the list is the component of a tuple. */
  lemma {:induction false} FlatUnflat(dim: nat, rank: nat, k: nat)
    requires dim > 0 && k < Pow(dim, rank)
    ensures Flat(dim, Unflat(dim, rank, k)) == k
  {
    if rank > 0 {
      UnflatStep(dim, rank, k);
      FlatUnflat(dim, rank - 1, k / dim);
    }
  }

  lemma UnflatStep(dim: nat, rank: nat, k: nat)
    requires dim > 0 && rank > 0 && k < Pow(dim, rank)
    ensures k / dim < Pow(dim, rank - 1)
    ensures Unflat(dim, rank, k) == [k % dim] + Unflat(dim, rank - 1, k / dim)
    ensures k == k % dim + dim * (k / dim)
  {
    DivBound(dim, k, Pow(dim, rank - 1));
  }

  lemma MulStep(d: nat, a: nat, b: nat)
    requires a < b
    ensures d * a + d <= d * b
  {
    var rest: nat := b - a - 1;
    assert d * b == d * (a + 1) + d * rest;
    assert d * (a + 1) == d * a + d;
    assert d * rest >= 0;
  }

  lemma DivMod(dim: nat, quotient: nat, rest: nat)
    requires rest < dim
    ensures (rest + dim * quotient) % dim == rest && (rest + dim * quotient) / dim == quotient
  {
    var k := rest + dim * quotient;
    var q, r := k / dim, k % dim;
    assert k == dim * q + r && 0 <= r < dim;
    assert q >= quotient by { if q < quotient { MulStep(dim, q, quotient); } }
    assert q <= quotient by { if q > quotient { MulStep(dim, quotient, q); } }
  }

  lemma DivBound(dim: nat, k: nat, size: nat)
    requires dim > 0 && k < dim * size
    ensures k / dim < size
  {}

  ghost predicate IsFlatOfSome(dim: nat, rank: nat, k: int) {
    exists i :: IsIndex(dim, rank, i) && Flat(dim, i) == k
  }

  /** The flat index is a bijection from index tuples to 0..n^rank-1. */
  lemma FlatIsBijective(dim: nat, rank: nat)
    requires dim > 0
    ensures forall i :: IsIndex(dim, rank, i) ==> Flat(dim, i) < Pow(dim, rank)
    ensures forall i, j :: IsIndex(dim, rank, i) && IsIndex(dim, rank, j) && Flat(dim, i) == Flat(dim, j) ==> i == j
    ensures forall k :: 0 <= k < Pow(dim, rank) ==> IsFlatOfSome(dim, rank, k)
  {
    forall i | IsIndex(dim, rank, i) ensures Flat(dim, i) < Pow(dim, rank) {
      FlatInRange(dim, i);
    }
    forall i, j | IsIndex(dim, rank, i) && IsIndex(dim, rank, j) && Flat(dim, i) == Flat(dim, j) ensures i == j {
      UnflatFlat(dim, i);
      UnflatFlat(dim, j);
    }
    forall k | 0 <= k < Pow(dim, rank) ensures IsFlatOfSome(dim, rank, k) {
      FlatUnflat(dim, rank, k);
      assert IsIndex(dim, rank, Unflat(dim, rank, k));
    }
  }

  lemma {:induction false} FlatAppend(dim: nat, index: Index, last: nat)
    ensures Flat(dim, index + [last]) == Flat(dim, index) + last * Pow(dim, |index|)
  {
    if index != [] {
      assert (index + [last])[1..] == index[1..] + [last];
      FlatAppend(dim, index[1..], last);
      var a, b := Flat(dim, index[1..]), Pow(dim, |index| - 1);
      assert dim * (a + last * b) == dim * a + last * (dim * b) by { Regroup(dim, a, last, b); }
    } else {
      assert (index + [last])[1..] == [];
    }
  }

  lemma Regroup(dim: nat, a: nat, last: nat, b: nat)
    ensures dim * (a + last * b) == dim * a + last * (dim * b)
    ensures dim * (a + last * b) == dim * a + dim * last * b
  {}

  /** `component`: accumulate the flat index slot by slot, then look it up. */
  method Component<T>(dim: nat, rank: nat, components: seq<T>, indices: seq<int>) returns (r: Result<T>)
    requires |components| == Pow(dim, rank)
    ensures |indices| != rank ==> r == Err(WrongRank)
    ensures |indices| == rank && (exists s :: 0 <= s < rank && !(0 <= indices[s] < dim)) ==> r == Err(SlotOutOfRange)
    ensures |indices| == rank && (forall s :: 0 <= s < rank ==> 0 <= indices[s] < dim) ==>
              r.Ok? && Flat(dim, indices) < |components| && r.value == components[Flat(dim, indices)]
  {
    if |indices| != rank {
      return Err(WrongRank);
    }
    var flat, scale := 0, 1;
    var s := 0;
    while s < rank
      invariant 0 <= s <= rank
      invariant forall q :: 0 <= q < s ==> 0 <= indices[q] < dim
      invariant flat == Flat(dim, indices[..s]) && scale == Pow(dim, s)
    {
      var index := indices[s];
      if index < 0 || index >= dim {
        return Err(SlotOutOfRange);
      }
      FlatAppend(dim, indices[..s], index);
      assert indices[..s + 1] == indices[..s] + [index];
      flat := flat + index * scale;
      scale := scale * dim;
      s := s + 1;
    }
    assert indices[..s] == indices;
    FlatInRange(dim, indices);
    return Ok(components[flat]);
  }

  // ---- Nested arrays in the same order -------------------------------------

  type Nested<T> = seq<seq<T>>

  predicate IsSquare<T>(matrix: Nested<T>, dim: nat) {
    |matrix| == dim && forall row :: 0 <= row < dim ==> |matrix[row]| == dim
  }

  /** `_matrix3_values`, `_matrix4_values`: for each column, the entry of each row. */
  function Columns<T>(matrix: Nested<T>, dim: nat, count: nat): (flat: seq<T>)
    requires IsSquare(matrix, dim) && count <= dim
    ensures |flat| == dim * count
  {
    if count == 0 then []
    else Columns(matrix, dim, count - 1) + seq(dim, row requires 0 <= row < dim => matrix[row][count - 1])
  }

  lemma {:induction false} ColumnsEntry<T>(matrix: Nested<T>, dim: nat, count: nat, row: nat, column: nat)
    requires IsSquare(matrix, dim) && row < dim && column < count <= dim
    ensures row + dim * column < dim * count
    ensures Columns(matrix, dim, count)[row + dim * column] == matrix[row][column]
  {
    MulStep(dim, column, count);
    if column < count - 1 {
      ColumnsEntry(matrix, dim, count - 1, row, column);
      MulStep(dim, count - 1, count);
    } else {
      assert |Columns(matrix, dim, count - 1)| == dim * column;
    }
  }

  /** Reading component (row, column) of a flattened matrix gives the nested entry. */
  lemma FlattenedMatrixEntry<T>(matrix: Nested<T>, dim: nat, row: nat, column: nat)
    requires IsSquare(matrix, dim) && row < dim && column < dim
    ensures Flat(dim, [row, column]) < dim * dim
    ensures Columns(matrix, dim, dim)[Flat(dim, [row, column])] == matrix[row][column]
  {
    assert [row, column][1..] == [column] && [column][1..] == [];
    assert Flat(dim, [column]) == column;
    ColumnsEntry(matrix, dim, dim, row, column);
  }

  type Cube<T> = seq<Nested<T>>

  predicate IsCube<T>(tensor: Cube<T>, dim: nat) {
    |tensor| == dim && forall plane :: 0 <= plane < dim ==> IsSquare(tensor[plane], dim)
  }

  /** The matrix of the entries whose third slot is fixed. */
  function Section<T>(tensor: Cube<T>, dim: nat, third: nat): (section: Nested<T>)
    requires IsCube(tensor, dim) && third < dim
    ensures IsSquare(section, dim)
  {
    seq(dim, first requires 0 <= first < dim =>
      seq(dim, second requires 0 <= second < dim => tensor[first][second][third]))
  }

  /** `_tensor3_values`: third slot outermost, first slot innermost. */
  function Sections<T>(tensor: Cube<T>, dim: nat, count: nat): (flat: seq<T>)
    requires IsCube(tensor, dim) && count <= dim
    ensures |flat| == dim * dim * count
  {
    if count == 0 then []
    else
      assert dim * dim * count == dim * dim * (count - 1) + dim * dim;
      Sections(tensor, dim, count - 1) + Columns(Section(tensor, dim, count - 1), dim, dim)
  }

  lemma {:induction false} SectionsEntry<T>(tensor: Cube<T>, dim: nat, count: nat, i: nat, third: nat)
    requires IsCube(tensor, dim) && third < count <= dim && i < dim * dim
    ensures i + dim * dim * third < dim * dim * count
    ensures Sections(tensor, dim, count)[i + dim * dim * third] == Columns(Section(tensor, dim, third), dim, dim)[i]
  {
    MulStep(dim * dim, third, count);
    if third < count - 1 {
      SectionsEntry(tensor, dim, count - 1, i, third);
    } else {
      assert |Sections(tensor, dim, count - 1)| == dim * dim * third;
    }
  }

  /** Reading component (i, j, k) of a flattened rank-three array gives the nested entry. */
  lemma FlattenedCubeEntry<T>(tensor: Cube<T>, dim: nat, first: nat, second: nat, third: nat)
    requires IsCube(tensor, dim) && first < dim && second < dim && third < dim
    ensures Flat(dim, [first, second, third]) < dim * dim * dim
    ensures Sections(tensor, dim, dim)[Flat(dim, [first, second, third])] == tensor[first][second][third]
  {
    FlatOfThree(dim, first, second, third);
    var i := first + dim * second;
    ColumnsEntry(Section(tensor, dim, third), dim, dim, first, second);
    SectionsEntry(tensor, dim, dim, i, third);
  }

  lemma FlatOfThree(dim: nat, first: nat, second: nat, third: nat)
    ensures Flat(dim, [first, second, third]) == first + dim * second + dim * dim * third
  {
    assert [first, second, third][1..] == [second, third] && [second, third][1..] == [third] && [third][1..] == [];
    assert Flat(dim, [third]) == third;
    Regroup(dim, second, dim, third);
  }
}
