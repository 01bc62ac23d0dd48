/** The blob transform: Horner evaluation at bit-reversed powers of a root of unity, and its inverse. */
module FftTransform {
  import opened ModularArithmetic
  import opened Sums
  import opened BinaryStrings

  /** Evaluation point i: the generator raised to the bit-reversed index. */
  function Point(g: nat, p: nat, width: nat, i: nat): nat
    requires p > 0
  {
    Pow(g, BitReverse(i, width)) % p
  }

  /** Horner's rule modulo p, coefficients in ascending order of degree. */
  function Horner(e: seq<nat>, x: nat, p: nat): nat
    requires p > 0
  {
    if e == [] then 0 else (Horner(e[1..], x, p) * x + e[0]) % p
  }

  /** All evaluations of the polynomial with coefficients e. */
  function Transform(e: seq<nat>, g: nat, p: nat, width: nat): seq<nat>
    requires p > 0
  {
    seq(|e|, (i: nat) => Horner(e, Point(g, p, width, i), p))
  }

  /** Entry j, or zero past the end. */
  function At(e: seq<nat>, j: nat): nat {
    if j < |e| then e[j] else 0
  }

  /** j to the j-th term of the polynomial at x. */
  function Terms(e: seq<nat>, x: int): nat -> int {
    (j: nat) => At(e, j) * Pow(x, j)
  }

  /** The powers of w. */
  function Powers(w: int): nat -> int {
    (r: nat) => Pow(w, r)
  }

  /** The terms of the inverse sum for coefficient m. */
  function InverseTerms(t: seq<nat>, g: nat, width: nat, m: nat): nat -> int {
    (i: nat) => At(t, i) * Pow(Pow(g, (if |t| > 0 then |t| - 1 else 0) * m), BitReverse(i, width))
  }

  /** The inverse transform: coefficient m from all evaluations; inv is the inverse of their number. */
  function Recover(t: seq<nat>, g: nat, p: nat, width: nat, inv: nat): seq<nat>
    requires p > 0
  {
    seq(|t|, (m: nat) => (inv * Sum(InverseTerms(t, g, width, m), |t|)) % p)
  }

  // ---- Forward direction -----------------------------------------------------------------

  lemma {:induction false} HornerIsEvaluation(e: seq<nat>, x: nat, y: int, p: nat)
    requires p > 0 && Cong(x, y, p)
    ensures Cong(Horner(e, x, p), Sum(Terms(e, y), |e|), p)
  {
    if e == [] {
      CongRefl(0, p);
    } else {
      var tail := e[1..];
      var h, s := Horner(tail, x, p), Sum(Terms(tail, y), |tail|);
      HornerIsEvaluation(tail, x, y, p);
      CongMul(h, s, x, y, p);
      CongRefl(e[0], p);
      CongAdd(h * x, s * y, e[0], e[0], p);
      CongMod(h * x + e[0], p);
      CongTrans(Horner(e, x, p), h * x + e[0], s * y + e[0], p);
      TermsUnfold(e, y);
    }
  }

  lemma TermsUnfold(e: seq<nat>, y: int)
    requires e != []
    ensures Sum(Terms(e, y), |e|) == Sum(Terms(e[1..], y), |e| - 1) * y + e[0]
  {
    var n, one := |e| - 1, 1;
    var f, g := Terms(e, y), Terms(e[1..], y);
    SumSplit(f, one, n);
    FirstTerm(e, y, one);
    forall i: nat | 0 <= i < n ensures Shift(f, one)(i) == Scale(g, y)(i) {
      NextTerm(e, y, i);
    }
    SumExt(Shift(f, one), Scale(g, y), n);
    SumScale(g, y, n);
  }

  lemma FirstTerm(e: seq<nat>, y: int, one: nat)
    requires e != [] && one == 1
    ensures Sum(Terms(e, y), one) == e[0]
  {
    assert Sum(Terms(e, y), one - 1) == 0;
    assert Terms(e, y)(one - 1) == e[0] * Pow(y, 0);
  }

  lemma NextTerm(e: seq<nat>, y: int, i: nat)
    requires i + 1 < |e|
    ensures Terms(e, y)(i + 1) == y * Terms(e[1..], y)(i)
  {
    MoveFactor(At(e[1..], i), y, Pow(y, i));
  }

  lemma MoveFactor(a: int, y: int, q: int)
    ensures a * (y * q) == y * (a * q)
  {}

  /** Each entry of the transform is the polynomial at a power of the generator, modulo p. */
  lemma TransformIsEvaluation(e: seq<nat>, g: nat, p: nat, width: nat, i: nat)
    requires p > 0 && i < |e|
    ensures Transform(e, g, p, width)[i] < p
    ensures Cong(Transform(e, g, p, width)[i], Sum(Terms(e, Pow(g, BitReverse(i, width))), |e|), p)
  {
    var r := Pow(g, BitReverse(i, width));
    CongMod(r, p);
    HornerIsEvaluation(e, Point(g, p, width, i), r, p);
  }

  // ---- Geometric sums ----------------------------------------------------------------------

  /** A geometric sum of 2h terms factors. */
  lemma GeometricHalves(w: int, h: nat)
    ensures Sum(Powers(w), h + h) == (1 + Pow(w, h)) * Sum(Powers(w), h)
  {
    SumSplit(Powers(w), h, h);
    forall r: nat | 0 <= r < h ensures Shift(Powers(w), h)(r) == Scale(Powers(w), Pow(w, h))(r) {
      PowAdd(w, h, r);
    }
    SumExt(Shift(Powers(w), h), Scale(Powers(w), Pow(w, h)), h);
    SumScale(Powers(w), Pow(w, h), h);
  }

  lemma TimesZero(a: int, b: int, c: int, p: int)
    requires p > 0 && c == a * b
    requires Cong(a, 0, p) || Cong(b, 0, p)
    ensures Cong(c, 0, p)
  {
    CongRefl(a, p);
    CongRefl(b, p);
    if Cong(a, 0, p) {
      CongMul(a, 0, b, b, p);
    } else {
      CongMul(a, a, b, 0, p);
    }
  }

  /** The power of g^d at an odd d flips to -1. */
  lemma OddPowerIsMinusOne(g: int, p: nat, half: nat, d: nat)
    requires p > 0 && d % 2 == 1 && Cong(Pow(g, half), -1, p)
    ensures Cong(1 + Pow(Pow(g, d), half), 0, p)
  {
    PowMul(g, d, half);
    PowMul(g, half, d);
    assert d * half == half * d;
    CongPow(Pow(g, half), -1, d, p);
    PowMinusOne(d);
    CongRefl(1, p);
    CongAdd(1, 1, Pow(Pow(g, d), half), -1, p);
  }

  lemma DoubleExponent(g: int, e: nat)
    ensures Pow(Pow(g, 2), e) == Pow(g, 2 * e)
  {
    PowMul(g, 2, e);
  }

  lemma HalveIndex(d: nat, h: nat)
    requires h > 0 && d % 2 == 0 && d % (2 * h) != 0
    ensures (d / 2) % h != 0
  {
    if (d / 2) % h == 0 {
      var q := (d / 2) / h;
      assert d == 2 * (q * h) == q * (2 * h);
      MultipleModZero(q, 2 * h);
    }
  }

  /** With g^(n/2) = -1 modulo p for n = 2^width, the powers of g^d sum to zero unless n divides d.
      No primality of p is used. */
  lemma {:induction false} GeometricVanishes(g: int, p: nat, width: nat, d: nat, n: nat)
    requires p > 0 && width > 0 && n == Pow(2, width) && n > 0
    requires Pow(2, width - 1) >= 0 && Cong(Pow(g, Pow(2, width - 1)), -1, p)
    requires d % n != 0
    ensures Cong(Sum(Powers(Pow(g, d)), n), 0, p)
    decreases width
  {
    var half: nat := Pow(2, width - 1);
    var w := Pow(g, d);
    GeometricHalves(w, half);
    assert n == half + half;
    if d % 2 == 1 {
      OddPowerIsMinusOne(g, p, half, d);
    } else {
      var d2: nat := d / 2;
      assert Cong(Sum(Powers(Pow(g, d)), half), 0, p) by {
        HalveIndex(d, half);
        assert width != 1;
        PowPositive(2, width - 2);
        DoubleExponent(g, Pow(2, width - 2));
        DoubleExponent(g, d2);
        GeometricVanishes(Pow(g, 2), p, width - 1, d2, half);
      }
    }
    TimesZero(1 + Pow(w, half), Sum(Powers(w), half), Sum(Powers(w), n), p);
  }

  // ---- Inverse direction -------------------------------------------------------------------

  /** The exponent that pairs evaluation and inverse terms of coefficients j and m. */
  function Gap(n: nat, j: nat, m: nat): nat
    requires n > 0
  {
    j + (n - 1) * m
  }

  lemma GapDivisible(n: nat, j: nat, m: nat)
    requires j < n && m < n && n > 0
    ensures Gap(n, j, m) % n == 0 <==> j == m
  {
    assert Gap(n, j, m) == (j - m) + m * n;
    if j == m {
      MultipleModZero(m, n);
    } else if Gap(n, j, m) % n == 0 {
      var q := Gap(n, j, m) / n;
      assert (q - m) * n == j - m;
      SmallMultiple(q - m, n);
    }
  }

  /** e[j] * g^(r * Gap) as a function of the row r and the column j. */
  function Kernel(e: seq<nat>, g: int, n: nat, m: nat): (nat, nat) -> int
    requires n > 0
  {
    (r: nat, j: nat) => At(e, j) * Pow(Pow(g, Gap(n, j, m)), r)
  }

  lemma PowSwap(g: int, a: nat, b: nat)
    ensures Pow(Pow(g, a), b) == Pow(Pow(g, b), a)
  {
    PowMul(g, a, b);
    PowMul(g, b, a);
    assert a * b == b * a;
  }

  /** One term of the evaluation times the inverse factor. */
  lemma KernelTerm(e: seq<nat>, g: int, n: nat, m: nat, r: nat, j: nat)
    requires n > 0
    ensures Terms(e, Pow(g, r))(j) * Pow(Pow(g, (n - 1) * m), r) == Kernel(e, g, n, m)(r, j)
  {
    PowSwap(g, r, j);
    PowSwap(g, r, Gap(n, j, m));
    PowSwap(g, (n - 1) * m, r);
    PowAdd(Pow(g, r), j, (n - 1) * m);
  }

  /** Row r of the kernel. */
  function KernelLine(e: seq<nat>, g: int, n: nat, m: nat, r: nat): nat -> int
    requires n > 0
  {
    (j: nat) => Kernel(e, g, n, m)(r, j)
  }

  lemma KernelLineIsRow(e: seq<nat>, g: int, n: nat, m: nat, r: nat)
    requires n > 0
    ensures Sum(KernelLine(e, g, n, m, r), n) == RowSums(Kernel(e, g, n, m), n)(r)
  {
    SumExt(KernelLine(e, g, n, m, r), (j: nat) => Kernel(e, g, n, m)(r, j), n);
  }

  lemma KernelTermAt(e: seq<nat>, g: int, n: nat, m: nat, r: nat, c: int, j: nat)
    requires n > 0 && c == Pow(Pow(g, (n - 1) * m), r)
    ensures Scale(Terms(e, Pow(g, r)), c)(j) == KernelLine(e, g, n, m, r)(j)
  {
    KernelTerm(e, g, n, m, r, j);
  }

  lemma KernelSum(e: seq<nat>, g: int, n: nat, m: nat, r: nat, c: int)
    requires n > 0 && c == Pow(Pow(g, (n - 1) * m), r)
    ensures Sum(Scale(Terms(e, Pow(g, r)), c), n) == Sum(KernelLine(e, g, n, m, r), n)
  {
    var scaled, line := Scale(Terms(e, Pow(g, r)), c), KernelLine(e, g, n, m, r);
    forall j: nat | 0 <= j < n ensures scaled(j) == line(j) {
      KernelTermAt(e, g, n, m, r, c, j);
    }
    SumExt(scaled, line, n);
  }

  /** A polynomial value times the inverse factor c is a row sum of the kernel. */
  lemma KernelRow(e: seq<nat>, g: int, m: nat, r: nat, n: nat, c: int)
    requires n == |e| > 0 && c == Pow(Pow(g, (n - 1) * m), r)
    ensures Sum(Terms(e, Pow(g, r)), n) * c == RowSums(Kernel(e, g, n, m), n)(r)
  {
    SumScale(Terms(e, Pow(g, r)), c, n);
    KernelSum(e, g, n, m, r, c);
    KernelLineIsRow(e, g, n, m, r);
  }

  /** Entry i times its inverse factor is a row sum of the kernel, modulo p. */
  lemma InverseTermIsRow(e: seq<nat>, t: seq<nat>, g: nat, p: nat, width: nat, m: nat, i: nat)
    requires p > 0 && i < |e| && t == Transform(e, g, p, width)
    ensures Cong(InverseTerms(t, g, width, m)(i),
                 Reversed(RowSums(Kernel(e, g, |e|, m), |e|), width)(i), p)
  {
    var r := BitReverse(i, width);
    var c := Pow(Pow(g, (|e| - 1) * m), r);
    KernelRow(e, g, m, r, |e|, c);
    TransformIsEvaluation(e, g, p, width, i);
    CongRefl(c, p);
    CongMul(t[i], Sum(Terms(e, Pow(g, r)), |e|), c, c, p);
  }

  /** A column of the kernel sums to n * e[m] when j = m and vanishes otherwise. */
  lemma KernelColumn(e: seq<nat>, g: int, p: nat, width: nat, m: nat, j: nat)
    requires p > 0 && width > 0 && |e| == Pow(2, width) && m < |e| && j < |e|
    requires Pow(2, width - 1) >= 0 && Cong(Pow(g, Pow(2, width - 1)), -1, p)
    ensures Cong(ColumnSums(Kernel(e, g, |e|, m), |e|)(j), if j == m then |e| * e[m] else 0, p)
  {
    var n := |e|;
    var w := Pow(g, Gap(n, j, m));
    var powers := Powers(w);
    var column := (r: nat) => Kernel(e, g, n, m)(r, j);
    SumScale(powers, e[j], n);
    forall r: nat | 0 <= r < n ensures column(r) == Scale(powers, e[j])(r) {
      assert Kernel(e, g, n, m)(r, j) == At(e, j) * Pow(w, r);
    }
    SumExt(column, Scale(powers, e[j]), n);
    GapDivisible(n, j, m);
    if j == m {
      UnityColumn(g, p, width, m, n);
      CongRefl(e[m], p);
      CongMul(e[m], e[m], Sum(Powers(w), n), n, p);
      assert e[m] * n == n * e[m];
    } else {
      GeometricVanishes(g, p, width, Gap(n, j, m), n);
      TimesZero(e[j], Sum(Powers(w), n), e[j] * Sum(Powers(w), n), p);
    }
  }

  /** g^n = 1, so the diagonal column is a sum of ones. */
  lemma UnityColumn(g: int, p: nat, width: nat, m: nat, n: nat)
    requires p > 0 && width > 0 && n == Pow(2, width) && m < n
    requires Pow(2, width - 1) >= 0 && Cong(Pow(g, Pow(2, width - 1)), -1, p)
    ensures Cong(Sum(Powers(Pow(g, Gap(n, m, m))), n), n, p)
  {
    var half: nat := Pow(2, width - 1);
    var w := Pow(g, Gap(n, m, m));
    assert Gap(n, m, m) == n * m;
    PowMul(g, n, m);
    PowMul(g, half, 2);
    CongPow(Pow(g, half), -1, 2, p);
    assert Cong(Pow(g, n), 1, p);
    CongPow(Pow(g, n), 1, m, p);
    PowOne(m);
    forall r: nat | 0 <= r < n ensures Cong(Powers(w)(r), ((r: nat) => 1)(r), p) {
      CongPow(w, 1, r, p);
      PowOne(r);
    }
    SumCong(Powers(w), (r: nat) => 1, n, p);
    SumOnes(n);
  }

  lemma {:induction false} SumOnes(n: nat)
    ensures Sum((r: nat) => 1, n) == n
  {
    if n != 0 {
      SumOnes(n - 1);
    }
  }

  /** The inverse sum over all evaluations is n times the coefficient. */
  lemma InverseSum(e: seq<nat>, t: seq<nat>, g: nat, p: nat, width: nat, m: nat)
    requires p > 0 && width > 0 && |e| == Pow(2, width) && m < |e|
    requires Pow(2, width - 1) >= 0 && Cong(Pow(g, Pow(2, width - 1)), -1, p)
    requires t == Transform(e, g, p, width)
    ensures Cong(Sum(InverseTerms(t, g, width, m), |e|), |e| * e[m], p)
  {
    var n := |e|;
    var kernel := Kernel(e, g, n, m);
    var rows, columns := RowSums(kernel, n), ColumnSums(kernel, n);
    forall i: nat | 0 <= i < n
      ensures Cong(InverseTerms(t, g, width, m)(i), Reversed(rows, width)(i), p)
    {
      InverseTermIsRow(e, t, g, p, width, m, i);
    }
    SumCong(InverseTerms(t, g, width, m), Reversed(rows, width), n, p);
    SumReversed(rows, width, n);
    SumSwap(kernel, n, n);
    forall j: nat | 0 <= j < n
      ensures Cong(columns(j), if j == m then n * e[m] else 0, p)
    {
      KernelColumn(e, g, p, width, m, j);
    }
    SumSingle(columns, m, n, p);
    CongTrans(Sum(columns, n), columns(m), n * e[m], p);
    CongTrans(Sum(InverseTerms(t, g, width, m), n), Sum(columns, n), n * e[m], p);
  }

  /** Dividing the inverse sum by n, modulo p. */
  lemma DivideByCount(s: int, n: nat, x: nat, p: nat, inv: nat)
    requires p > 0 && x < p && Cong(inv * n, 1, p) && Cong(s, n * x, p)
    ensures (inv * s) % p == x
  {
    CongRefl(inv, p);
    CongMul(inv, inv, s, n * x, p);
    CongRefl(x, p);
    CongMul(inv * n, 1, x, x, p);
    assert inv * (n * x) == (inv * n) * x;
    CongTrans(inv * s, inv * (n * x), x, p);
    CongMod(inv * s, p);
    CongTrans((inv * s) % p, inv * s, x, p);
    CongUnique((inv * s) % p, x, p);
  }

  /** The transform is invertible on residues, for every root of unity of order 2^width with
      g^(2^width / 2) = -1 and every modulus in which 2^width has the inverse inv. */
  lemma TransformInverts(e: seq<nat>, g: nat, p: nat, width: nat, inv: nat)
    requires p > 0 && width > 0 && |e| == Pow(2, width)
    requires Pow(2, width - 1) >= 0 && Cong(Pow(g, Pow(2, width - 1)), -1, p)
    requires Cong(inv * |e|, 1, p)
    requires forall j | 0 <= j < |e| :: e[j] < p
    ensures Recover(Transform(e, g, p, width), g, p, width, inv) == e
  {
    var t := Transform(e, g, p, width);
    var r := Recover(t, g, p, width, inv);
    forall m | 0 <= m < |e| ensures r[m] == e[m] {
      InverseSum(e, t, g, p, width, m);
      DivideByCount(Sum(InverseTerms(t, g, width, m), |t|), |e|, e[m], p, inv);
    }
  }
}
