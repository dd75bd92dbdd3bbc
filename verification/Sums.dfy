/** Finite sums of reals over an index. */
module Sums {

  function Sum(n: nat, f: nat -> real): real {
    if n == 0 then 0.0 else Sum(n - 1, f) + f(n - 1)
  }

  lemma {:induction false} SumEqual(n: nat, f: nat -> real, g: nat -> real)
    requires forall m :: 0 <= m < n ==> g(m) == f(m)
    ensures Sum(n, g) == Sum(n, f)
  {
    if n > 0 { SumEqual(n - 1, f, g); }
  }

  lemma {:induction false} SumChangedAt(n: nat, f: nat -> real, g: nat -> real, at: nat)
    requires at < n && forall m :: 0 <= m < n && m != at ==> g(m) == f(m)
    ensures Sum(n, g) == Sum(n, f) + g(at) - f(at)
  {
    if at < n - 1 {
      SumChangedAt(n - 1, f, g, at);
    } else {
      SumEqual(n - 1, f, g);
    }
  }

  /** Exchanging two terms does not change a sum. */
  lemma SumExchanged(n: nat, f: nat -> real, g: nat -> real, i: nat, j: nat)
    requires i < n && j < n
    requires forall m :: 0 <= m < n ==> g(m) == f(Exchange(m, i, j))
    ensures Sum(n, g) == Sum(n, f)
  {
    if i == j {
      SumEqual(n, f, g);
    } else {
      var h := (m: nat) => if m == i then f(j) else f(m);
      SumChangedAt(n, f, h, i);
      SumChangedAt(n, h, g, j);
    }
  }

  function Exchange(s: nat, i: nat, j: nat): nat {
    if s == i then j else if s == j then i else s
  }

  type Table = (nat, nat) -> real

  function Row(h: Table, m: nat): nat -> real {
    (p: nat) => h(m, p)
  }

  function RowSums(h: Table, n: nat): nat -> real {
    (m: nat) => Sum(n, Row(h, m))
  }

  function Flipped(h: Table): Table {
    (p: nat, m: nat) => h(m, p)
  }

  lemma {:induction false} SumAdd(n: nat, f: nat -> real, g: nat -> real, h: nat -> real)
    requires forall m :: 0 <= m < n ==> h(m) == f(m) + g(m)
    ensures Sum(n, h) == Sum(n, f) + Sum(n, g)
  {
    if n > 0 { SumAdd(n - 1, f, g, h); }
  }

  lemma {:induction false} SumTimes(n: nat, f: nat -> real, g: nat -> real, factor: real)
    requires forall m :: 0 <= m < n ==> g(m) == factor * f(m)
    ensures Sum(n, g) == factor * Sum(n, f)
  {
    if n > 0 {
      SumTimes(n - 1, f, g, factor);
      assert factor * (Sum(n - 1, f) + f(n - 1)) == factor * Sum(n - 1, f) + factor * f(n - 1);
    }
  }

  lemma {:induction false} SumZero(n: nat, f: nat -> real)
    requires forall m :: 0 <= m < n ==> f(m) == 0.0
    ensures Sum(n, f) == 0.0
  {
    if n > 0 { SumZero(n - 1, f); }
  }

  /** Rows first or columns first, the total is the same. */
  lemma {:induction false} SumsCommute(n: nat, k: nat, h: Table)
    ensures Sum(n, RowSums(h, k)) == Sum(k, RowSums(Flipped(h), n))
  {
    if n == 0 {
      SumZero(k, RowSums(Flipped(h), 0));
    } else {
      SumsCommute(n - 1, k, h);
      SumAdd(k, RowSums(Flipped(h), n - 1), Row(h, n - 1), RowSums(Flipped(h), n));
    }
  }

  lemma {:induction false} SumSingle(n: nat, f: nat -> real, at: nat)
    requires at < n && forall m :: 0 <= m < n && m != at ==> f(m) == 0.0
    ensures Sum(n, f) == f(at)
  {
    if at == n - 1 { SumZero(n - 1, f); } else { SumSingle(n - 1, f, at); }
  }
}
