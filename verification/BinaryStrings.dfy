/** Binary numerals: printing, zero padding, parsing and reversal of their digits. */
module BinaryStrings {
  import opened ModularArithmetic
  import opened Sums

  predicate IsBinary(s: string) {
    forall i | 0 <= i < |s| :: s[i] == '0' || s[i] == '1'
  }

  function BitChar(b: nat): char {
    if b == 0 then '0' else '1'
  }

  function BitValue(c: char): nat {
    if c == '0' then 0 else 1
  }

  /** The number a binary string denotes, most significant digit first. */
  function ParseBinary(s: string): nat {
    if s == "" then 0 else 2 * ParseBinary(s[..|s| - 1]) + BitValue(s[|s| - 1])
  }

  /** The shortest binary numeral of n; zero prints as one digit. */
  function ToBinary(n: nat): string {
    if n < 2 then [BitChar(n)] else ToBinary(n / 2) + [BitChar(n % 2)]
  }

  function Zeros(n: nat): string {
    seq(n, _ => '0')
  }

  /** Left padding with zeros to at least the given width; longer strings are kept. */
  function PadLeft(s: string, width: nat): string {
    if |s| >= width then s else Zeros(width - |s|) + s
  }

  function Reverse(s: string): string {
    if s == "" then "" else Reverse(s[1..]) + [s[0]]
  }

  /** The low `width` binary digits of n. */
  function Bits(n: nat, width: nat): (s: string)
    ensures |s| == width && IsBinary(s)
  {
    if width == 0 then "" else Bits(n / 2, width - 1) + [BitChar(n % 2)]
  }

  lemma {:induction false} ParseConcat(a: string, b: string)
    ensures ParseBinary(a + b) == ParseBinary(a) * Pow(2, |b|) + ParseBinary(b)
  {
    if b == "" {
      assert a + b == a;
    } else {
      var b' := b[..|b| - 1];
      ParseConcat(a, b');
      var v := BitValue(b[|b| - 1]);
      assert (a + b)[..|a + b| - 1] == a + b';
      assert (a + b)[|a + b| - 1] == b[|b| - 1];
      ShiftLeft(ParseBinary(a), Pow(2, |b'|), ParseBinary(b'), v);
    }
  }

  lemma ShiftLeft(x: int, q: int, y: int, v: int)
    ensures 2 * (x * q + y) + v == x * (2 * q) + (2 * y + v)
  {}

  lemma {:induction false} ParseZeros(n: nat)
    ensures ParseBinary(Zeros(n)) == 0
  {
    if n != 0 {
      ParseZeros(n - 1);
      assert Zeros(n)[..n - 1] == Zeros(n - 1);
    }
  }

  /** Padding keeps the value. */
  lemma ParsePadLeft(s: string, width: nat)
    ensures ParseBinary(PadLeft(s, width)) == ParseBinary(s)
  {
    if |s| < width {
      ParseConcat(Zeros(width - |s|), s);
      ParseZeros(width - |s|);
    }
  }

  /** Parsing inverts printing. */
  lemma {:induction false} ParseToBinary(n: nat)
    ensures ParseBinary(ToBinary(n)) == n && IsBinary(ToBinary(n))
  {
    if n >= 2 {
      ParseToBinary(n / 2);
      var s := ToBinary(n);
      assert s[..|s| - 1] == ToBinary(n / 2);
    }
  }

  /** A number below 2^width prints in at most `width` digits, and conversely. */
  lemma {:induction false} ToBinaryLength(n: nat, width: nat)
    requires width > 0
    ensures |ToBinary(n)| <= width <==> n < Pow(2, width)
  {
    if width == 1 {
    } else if n < 2 {
      PowPositive(2, width - 1);
    } else {
      ToBinaryLength(n / 2, width - 1);
      assert Pow(2, width) == 2 * Pow(2, width - 1);
    }
  }

  /** Padded numerals are fixed-width digit strings. */
  lemma {:induction false} PaddedIsBits(n: nat, width: nat)
    requires width > 0 && n < Pow(2, width)
    ensures PadLeft(ToBinary(n), width) == Bits(n, width)
  {
    ToBinaryLength(n, width);
    if width == 1 {
    } else {
      PaddedIsBits(n / 2, width - 1);
      assert Pow(2, width) == 2 * Pow(2, width - 1);
      if n < 2 {
        assert ToBinary(n / 2) == "0";
        assert Zeros(width - 2) + "0" == Zeros(width - 1);
      } else {
        ToBinaryLength(n / 2, width - 1);
      }
    }
  }

  lemma {:induction false} ParseBits(n: nat, width: nat)
    requires n < Pow(2, width)
    ensures ParseBinary(Bits(n, width)) == n
  {
    if width != 0 {
      ParseBits(n / 2, width - 1);
      var s := Bits(n, width);
      assert s[..|s| - 1] == Bits(n / 2, width - 1);
    }
  }

  lemma {:induction false} BitsParse(s: string)
    requires IsBinary(s)
    ensures ParseBinary(s) < Pow(2, |s|) && Bits(ParseBinary(s), |s|) == s
  {
    if s != "" {
      BitsParse(s[..|s| - 1]);
      assert s == s[..|s| - 1] + [s[|s| - 1]];
    }
  }

  lemma {:induction false} ReverseSnoc(s: string, c: char)
    ensures Reverse(s + [c]) == [c] + Reverse(s)
  {
    if s == "" {
      assert s + [c] == [c];
    } else {
      ReverseSnoc(s[1..], c);
      assert (s + [c])[1..] == s[1..] + [c];
      assert (s + [c])[0] == s[0];
    }
  }

  lemma {:induction false} ReverseReverse(s: string)
    ensures Reverse(Reverse(s)) == s && |Reverse(s)| == |s|
    ensures IsBinary(s) ==> IsBinary(Reverse(s))
  {
    if s != "" {
      ReverseReverse(s[1..]);
      ReverseSnoc(Reverse(s[1..]), s[0]);
      assert s == [s[0]] + s[1..];
    }
  }

  /** The number whose `width` binary digits are those of i in reverse. */
  function BitReverse(i: nat, width: nat): nat {
    ParseBinary(Reverse(Bits(i, width)))
  }

  /** Bit reversal is its own inverse, hence a bijection on [0, 2^width). */
  lemma BitReverseInvolution(i: nat, width: nat)
    requires i < Pow(2, width)
    ensures BitReverse(i, width) < Pow(2, width)
    ensures BitReverse(BitReverse(i, width), width) == i
  {
    var s := Bits(i, width);
    ReverseReverse(s);
    BitsParse(Reverse(s));
    ParseBits(i, width);
  }

  /** The least significant digit becomes the most significant one. */
  lemma BitReverseStep(i: nat, b: nat, width: nat)
    requires width > 0 && b < 2
    ensures BitReverse(2 * i + b, width) == b * Pow(2, width - 1) + BitReverse(i, width - 1)
  {
    var s := Bits(i, width - 1);
    assert (2 * i + b) / 2 == i && (2 * i + b) % 2 == b;
    ReverseSnoc(s, BitChar(b));
    ReverseReverse(s);
    ParseConcat([BitChar(b)], Reverse(s));
    assert ParseBinary([BitChar(b)]) == b;
  }

  /** f read in bit-reversed order. */
  function Reversed(f: nat -> int, width: nat): nat -> int {
    (i: nat) => f(BitReverse(i, width))
  }

  lemma FoldedAt(f: nat -> int, n: nat, width: nat, i: nat)
    ensures Reversed(Plus(f, Shift(f, n)), width)(i) == f(BitReverse(i, width)) + f(BitReverse(i, width) + n)
  {
  }

  /** An even index and the odd one behind it are reversed to the same place in the two halves. */
  lemma ReversedPair(i: nat, width: nat, n: nat, even: nat, odd: nat)
    requires width > 0 && n == Pow(2, width - 1) && even == 2 * i && odd == 2 * i + 1
    ensures BitReverse(even, width) == BitReverse(i, width - 1)
    ensures BitReverse(odd, width) == BitReverse(i, width - 1) + n
  {
    BitReverseStep(i, 0, width);
    BitReverseStep(i, 1, width);
  }

  /** Folding the halves of f turns width-digit reversal into (width - 1)-digit reversal. */
  lemma ReversedPairs(f: nat -> int, width: nat, n: nat, i: nat)
    requires width > 0 && n == Pow(2, width - 1)
    ensures f(BitReverse(2 * i, width)) + f(BitReverse(2 * i + 1, width))
         == Reversed(Plus(f, Shift(f, n)), width - 1)(i)
  {
    ReversedPair(i, width, n, 2 * i, 2 * i + 1);
    FoldedAt(f, n, width - 1, i);
  }

  /** Bit reversal permutes the terms of a sum of 2^width terms. */
  lemma {:induction false} SumReversed(f: nat -> int, width: nat, n: nat)
    requires n == Pow(2, width)
    ensures Sum(Reversed(f, width), n) == Sum(f, n)
  {
    if width == 0 {
      assert BitReverse(0, 0) == 0;
    } else {
      PowPositive(2, width - 1);
      var half: nat := Pow(2, width - 1);
      var folded := Plus(f, Shift(f, half));
      var g := Reversed(f, width);
      forall i: nat | 0 <= i < half
        ensures g(2 * i) + g(2 * i + 1) == Reversed(folded, width - 1)(i)
      {
        ReversedPairs(f, width, half, i);
      }
      calc {
        Sum(g, n);
        { SumPairs(g, half); }
        Sum((i: nat) => g(2 * i) + g(2 * i + 1), half);
        { SumExt((i: nat) => g(2 * i) + g(2 * i + 1), Reversed(folded, width - 1), half); }
        Sum(Reversed(folded, width - 1), half);
        { SumReversed(folded, width - 1, half); }
        Sum(folded, half);
        { SumHalves(f, half); }
        Sum(f, n);
      }
    }
  }
}
