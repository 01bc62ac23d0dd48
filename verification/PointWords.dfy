/** Reassembling a 256-bit number that the program output holds as two words, its low and its high half
    (crates/settlement-clients/ethereum/src/types.rs). */
module PointWords {
  import opened ModularArithmetic
  import opened Bytes

  const HALF: nat := 0x1_0000000000000000_0000000000000000

  /** convert_stark_bigint_to_u256: a shift by 128 bits and a sum, within 256 bits. */
  function ConvertToU256(low: nat, high: nat): (r: nat)
    requires low < HALF && high < HALF
    ensures r % HALF == low && r / HALF == high && r < HALF * HALF
  {
    high * HALF + low
  }

  /** Shifting a 128-bit number left by a byte, the top byte dropping out, and setting the low byte. */
  function ShiftIn(n: nat, b: byte): nat {
    (n * 256) % HALF + b
  }

  /** bytes_be_to_u128: the last 16 of the 32 bytes, most significant first; nothing is shifted out. */
  method BytesBeToU128(bytes: seq<byte>) returns (result: nat)
    requires |bytes| == 32
    ensures result == ValueBe(bytes[16..]) && result < HALF
  {
    result := 0;
    var last := bytes[16..];
    for i := 0 to 16
      invariant result == ValueBe(last[..i]) && result < Pow(256, i)
    {
      assert last[..i + 1][..i] == last[..i];
      PowAtMostHalf(i + 1);
      result := ShiftIn(result, last[i]);
    }
    PowAtMostHalf(16);
    assert last[..16] == last;
  }

  lemma PowAtMostHalf(i: nat)
    requires 0 < i <= 16
    ensures Pow(256, i) == 256 * Pow(256, i - 1) && Pow(256, i) <= HALF
  {
    HalfSplits(i, 16 - i);
    FactorAtMost(Pow(256, i), Pow(256, 16 - i), HALF);
  }

  lemma HalfSplits(i: nat, j: nat)
    requires i + j == 16
    ensures Pow(256, i) * Pow(256, j) == HALF && Pow(256, i) > 0 && Pow(256, j) > 0
  {
    PowPositive(256, i);
    PowPositive(256, j);
    PowAdd(256, i, j);
    HalfIsPow();
  }

  lemma FactorAtMost(p: nat, q: nat, n: nat)
    requires p * q == n && q > 0
    ensures p <= n
  {
  }

  lemma HalfIsPow()
    ensures Pow(256, 16) == HALF
  {
    assert Pow(256, 4) == 0x1_00000000;
    PowAdd(256, 4, 4);
    PowAdd(256, 8, 8);
  }

  /** The low half of a number, stored as a 32-byte word, reads back from its last 16 bytes; with both
      halves the number is whole again. */
  lemma HalvesRoundTrip(v: nat, width: nat)
    requires v < HALF * HALF && width == 32
    ensures ValueBe(FixedBe(v % HALF, width)[16..]) == v % HALF
    ensures ValueBe(FixedBe(v / HALF, width)[16..]) == v / HALF
    ensures ConvertToU256(ValueBe(FixedBe(v % HALF, width)[16..]), ValueBe(FixedBe(v / HALF, width)[16..])) == v
  {
    HalfIsPow();
    assert v / HALF < HALF;
    HighBytesAreZero(v % HALF, width, 16);
    HighBytesAreZero(v / HALF, width, 16);
  }

  /** A number that fits the low bytes leaves the others zero. */
  lemma {:induction false} HighBytesAreZero(n: nat, width: nat, low: nat)
    requires low <= width && n < Pow(256, low)
    ensures FixedBe(n, width)[..width - low] == ZeroBytes(width - low)
    ensures ValueBe(FixedBe(n, width)[width - low..]) == n
  {
    if low == 0 {
      FixedBeZero(width);
      assert FixedBe(n, width)[width - low..] == [];
    } else {
      HighBytesAreZero(n / 256, width - 1, low - 1);
      var bs, inner := FixedBe(n, width), FixedBe(n / 256, width - 1);
      assert bs[..width - low] == inner[..width - low];
      assert bs[width - low..][..low - 1] == inner[width - low..];
    }
  }
}
