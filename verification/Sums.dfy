/** Finite sums of integer functions: exchange, splitting, congruence. */
module Sums {
  import opened ModularArithmetic

  /** f(0) + ... + f(n - 1). */
  function Sum(f: nat -> int, n: nat): int {
    if n == 0 then 0 else Sum(f, n - 1) + f(n - 1)
  }

  lemma {:induction false} SumExt(f: nat -> int, g: nat -> int, n: nat)
    requires forall i | 0 <= i < n :: f(i) == g(i)
    ensures Sum(f, n) == Sum(g, n)
  {
    if n != 0 {
      SumExt(f, g, n - 1);
    }
  }

  lemma {:induction false} SumCong(f: nat -> int, g: nat -> int, n: nat, p: int)
    requires p > 0
    requires forall i | 0 <= i < n :: Cong(f(i), g(i), p)
    ensures Cong(Sum(f, n), Sum(g, n), p)
  {
    if n != 0 {
      SumCong(f, g, n - 1, p);
      CongAdd(Sum(f, n - 1), Sum(g, n - 1), f(n - 1), g(n - 1), p);
    }
  }

  /** f multiplied by a constant. */
  function Scale(f: nat -> int, c: int): nat -> int {
    (i: nat) => c * f(i)
  }

  lemma {:induction false} SumScale(f: nat -> int, c: int, n: nat)
    ensures Sum(Scale(f, c), n) == c * Sum(f, n)
  {
    if n != 0 {
      SumScale(f, c, n - 1);
    }
  }

  /** The pointwise sum of two functions. */
  function Plus(f: nat -> int, g: nat -> int): nat -> int {
    (i: nat) => f(i) + g(i)
  }

  /** f read from a onwards. */
  function Shift(f: nat -> int, a: nat): nat -> int {
    (i: nat) => f(a + i)
  }

  lemma {:induction false} SumAdd(f: nat -> int, g: nat -> int, n: nat)
    ensures Sum(Plus(f, g), n) == Sum(f, n) + Sum(g, n)
  {
    if n != 0 {
      SumAdd(f, g, n - 1);
    }
  }

  /** i to the sum of row i over m columns. */
  function RowSums(f: (nat, nat) -> int, m: nat): nat -> int {
    (i: nat) => Sum((j: nat) => f(i, j), m)
  }

  /** j to the sum of column j over n rows. */
  function ColumnSums(f: (nat, nat) -> int, n: nat): nat -> int {
    (j: nat) => Sum((i: nat) => f(i, j), n)
  }

  /** Exchanging the order of a double sum. */
  lemma {:induction false} SumSwap(f: (nat, nat) -> int, n: nat, m: nat)
    ensures Sum(RowSums(f, m), n) == Sum(ColumnSums(f, n), m)
  {
    if n == 0 {
      SumZero(m);
      SumExt(ColumnSums(f, 0), (_: nat) => 0, m);
    } else {
      SumSwap(f, n - 1, m);
      var before, row := ColumnSums(f, n - 1), (j: nat) => f(n - 1, j);
      SumAdd(before, row, m);
      SumExt(ColumnSums(f, n), Plus(before, row), m);
    }
  }

  lemma {:induction false} SumZero(n: nat)
    ensures Sum((_: nat) => 0, n) == 0
  {
    if n != 0 {
      SumZero(n - 1);
    }
  }

  /** Pairing neighbours: terms 2i and 2i + 1. */
  lemma {:induction false} SumPairs(f: nat -> int, n: nat)
    ensures Sum(f, 2 * n) == Sum((i: nat) => f(2 * i) + f(2 * i + 1), n)
  {
    if n != 0 {
      SumPairs(f, n - 1);
      assert Sum(f, 2 * n) == Sum(f, 2 * n - 1) + f(2 * n - 1);
      assert Sum(f, 2 * n - 1) == Sum(f, 2 * n - 2) + f(2 * n - 2);
    }
  }

  /** A sum of a + b terms is the first a terms plus the next b. */
  lemma {:induction false} SumSplit(f: nat -> int, a: nat, b: nat)
    ensures Sum(f, a + b) == Sum(f, a) + Sum(Shift(f, a), b)
  {
    if b != 0 {
      SumSplit(f, a, b - 1);
    }
  }

  /** Pairing halves: terms i and n + i. */
  lemma SumHalves(f: nat -> int, n: nat)
    ensures Sum(f, n + n) == Sum(Plus(f, Shift(f, n)), n)
  {
    SumSplit(f, n, n);
    SumAdd(f, Shift(f, n), n);
  }

  /** Only term m survives. */
  lemma {:induction false} SumSingle(f: nat -> int, m: nat, n: nat, p: int)
    requires p > 0 && m < n
    requires forall i | 0 <= i < n && i != m :: Cong(f(i), 0, p)
    ensures Cong(Sum(f, n), f(m), p)
  {
    if n - 1 == m {
      SumCong(f, (_: nat) => 0, n - 1, p);
      SumZero(n - 1);
      CongRefl(f(m), p);
      CongAdd(Sum(f, n - 1), 0, f(m), f(m), p);
    } else {
      SumSingle(f, m, n - 1, p);
      CongAdd(Sum(f, n - 1), f(m), f(n - 1), 0, p);
    }
  }
}
