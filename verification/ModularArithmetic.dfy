/** Exponentiation and congruences, the arithmetic behind the blob transform. */
module ModularArithmetic {

  /** b to the power e. */
  function Pow(b: int, e: nat): int {
    if e == 0 then 1 else b * Pow(b, e - 1)
  }

  /** a and b leave the same remainder modulo p. */
  predicate Cong(a: int, b: int, p: int)
    requires p > 0
  {
    (a - b) % p == 0
  }

  /** Zero is the only multiple of p strictly between -p and p. */
  lemma SmallMultiple(k: int, p: int)
    requires -p < k * p < p
    ensures k == 0
  {}

  lemma MultipleModZero(k: int, p: int)
    requires p > 0
    ensures (k * p) % p == 0
  {
    var q, r := (k * p) / p, (k * p) % p;
    assert (k - q) * p == r;
    SmallMultiple(k - q, p);
  }

  /** A multiple of p witnesses the congruence. */
  lemma CongIntro(a: int, b: int, k: int, p: int)
    requires p > 0 && a - b == k * p
    ensures Cong(a, b, p)
  {
    MultipleModZero(k, p);
  }

  /** A congruence yields its witness. */
  lemma CongElim(a: int, b: int, p: int) returns (k: int)
    requires p > 0 && Cong(a, b, p)
    ensures a - b == k * p
  {
    k := (a - b) / p;
  }

  lemma CongRefl(a: int, p: int)
    requires p > 0
    ensures Cong(a, a, p)
  {}

  lemma CongSym(a: int, b: int, p: int)
    requires p > 0 && Cong(a, b, p)
    ensures Cong(b, a, p)
  {
    var k := CongElim(a, b, p);
    assert b - a == (-k) * p;
    CongIntro(b, a, -k, p);
  }

  lemma CongTrans(a: int, b: int, c: int, p: int)
    requires p > 0 && Cong(a, b, p) && Cong(b, c, p)
    ensures Cong(a, c, p)
  {
    var k := CongElim(a, b, p);
    var l := CongElim(b, c, p);
    assert a - c == (k + l) * p;
    CongIntro(a, c, k + l, p);
  }

  lemma CongAdd(a: int, b: int, c: int, d: int, p: int)
    requires p > 0 && Cong(a, b, p) && Cong(c, d, p)
    ensures Cong(a + c, b + d, p)
  {
    var k := CongElim(a, b, p);
    var l := CongElim(c, d, p);
    assert a + c - (b + d) == (k + l) * p;
    CongIntro(a + c, b + d, k + l, p);
  }

  lemma CongMul(a: int, b: int, c: int, d: int, p: int)
    requires p > 0 && Cong(a, b, p) && Cong(c, d, p)
    ensures Cong(a * c, b * d, p)
  {
    var k := CongElim(a, b, p);
    var l := CongElim(c, d, p);
    calc {
      a * c - b * d;
      (b + k * p) * c - b * d;
      b * (c - d) + (k * p) * c;
      b * (l * p) + (k * p) * c;
      (b * l + k * c) * p;
    }
    CongIntro(a * c, b * d, b * l + k * c, p);
  }

  lemma CongMod(a: int, p: int)
    requires p > 0
    ensures Cong(a % p, a, p) && Cong(a, a % p, p)
  {
    assert a - a % p == (a / p) * p;
    CongIntro(a, a % p, a / p, p);
    CongSym(a, a % p, p);
  }

  /** Congruent residues are equal. */
  lemma CongUnique(a: int, b: int, p: int)
    requires p > 0 && Cong(a, b, p)
    requires 0 <= a < p && 0 <= b < p
    ensures a == b
  {
    var k := CongElim(a, b, p);
    SmallMultiple(k, p);
  }

  lemma {:induction false} CongPow(a: int, b: int, e: nat, p: int)
    requires p > 0 && Cong(a, b, p)
    ensures Cong(Pow(a, e), Pow(b, e), p)
  {
    if e == 0 {
    } else {
      CongPow(a, b, e - 1, p);
      CongMul(a, b, Pow(a, e - 1), Pow(b, e - 1), p);
    }
  }

  lemma {:induction false} PowAdd(b: int, e: nat, f: nat)
    ensures Pow(b, e + f) == Pow(b, e) * Pow(b, f)
  {
    if e == 0 {
    } else {
      PowAdd(b, e - 1, f);
      calc {
        Pow(b, e + f);
        b * Pow(b, e - 1 + f);
        b * (Pow(b, e - 1) * Pow(b, f));
        (b * Pow(b, e - 1)) * Pow(b, f);
      }
    }
  }

  lemma {:induction false} PowMul(b: int, e: nat, f: nat)
    ensures 0 <= e * f
    ensures Pow(b, e * f) == Pow(Pow(b, e), f)
  {
    if f == 0 {
    } else {
      PowMul(b, e, f - 1);
      assert e * f == e + e * (f - 1);
      PowAdd(b, e, e * (f - 1));
    }
  }

  lemma {:induction false} PowOne(e: nat)
    ensures Pow(1, e) == 1
  {
    if e != 0 {
      PowOne(e - 1);
    }
  }

  lemma {:induction false} PowMinusOne(e: nat)
    ensures Pow(-1, e) == if e % 2 == 0 then 1 else -1
  {
    if e != 0 {
      PowMinusOne(e - 1);
    }
  }

  lemma {:induction false} PowPositive(b: nat, e: nat)
    requires b > 0
    ensures Pow(b, e) > 0
  {
    if e != 0 {
      PowPositive(b, e - 1);
    }
  }

  /** The powers of two that size the blob and its words. */
  lemma PowersOfTwo()
    ensures Pow(2, 11) == 2048 && Pow(2, 12) == 4096
  {
    assert Pow(2, 4) == 16;
    PowAdd(2, 4, 4);
    PowAdd(2, 8, 4);
    assert Pow(2, 3) == 8;
    PowAdd(2, 8, 3);
  }
}
