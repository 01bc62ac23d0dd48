/** Big-endian byte strings of natural numbers, and the 32-byte words of a stored blob
    (crates/orchestrator/src/jobs/state_update_job/utils.rs). */
module Bytes {
  import opened ModularArithmetic

  type byte = b: int | 0 <= b < 256

  const WORD: nat := 32

  /** The number a byte string denotes, most significant byte first. */
  function ValueBe(bs: seq<byte>): nat {
    if bs == [] then 0 else 256 * ValueBe(bs[..|bs| - 1]) + bs[|bs| - 1]
  }

  /** The low `width` bytes of n. */
  function FixedBe(n: nat, width: nat): (bs: seq<byte>)
    ensures |bs| == width
  {
    if width == 0 then [] else FixedBe(n / 256, width - 1) + [n % 256]
  }

  /** The shortest byte string of n; zero is one byte. */
  function MinimalBe(n: nat): seq<byte> {
    if n < 256 then [n] else MinimalBe(n / 256) + [n % 256]
  }

  function ZeroBytes(n: nat): seq<byte> {
    seq(n, _ => 0)
  }

  lemma {:induction false} FixedBeValue(n: nat, width: nat)
    requires n < Pow(256, width)
    ensures ValueBe(FixedBe(n, width)) == n
  {
    if width != 0 {
      FixedBeValue(n / 256, width - 1);
      var bs := FixedBe(n, width);
      assert bs[..|bs| - 1] == FixedBe(n / 256, width - 1);
    }
  }

  lemma ShiftDigits(d: int, p: int, m: int, l: int)
    ensures 256 * (d * p + m) + l == d * (256 * p) + (256 * m + l)
  {
  }

  /** The first byte counts most. */
  lemma {:induction false} FirstByteCountsMost(bs: seq<byte>)
    requires bs != []
    ensures ValueBe(bs) == bs[0] * Pow(256, |bs| - 1) + ValueBe(bs[1..])
  {
    if |bs| > 1 {
      var front, tail := bs[..|bs| - 1], bs[1..];
      FirstByteCountsMost(front);
      assert tail[..|tail| - 1] == front[1..];
      ShiftDigits(bs[0], Pow(256, |bs| - 2), ValueBe(front[1..]), bs[|bs| - 1]);
    }
  }

  lemma {:induction false} ValueBeFixed(bs: seq<byte>)
    ensures ValueBe(bs) < Pow(256, |bs|) && FixedBe(ValueBe(bs), |bs|) == bs
  {
    if bs != [] {
      ValueBeFixed(bs[..|bs| - 1]);
      assert bs == bs[..|bs| - 1] + [bs[|bs| - 1]];
    }
  }

  lemma {:induction false} FixedBeZero(width: nat)
    ensures FixedBe(0, width) == ZeroBytes(width)
  {
    if width != 0 {
      FixedBeZero(width - 1);
    }
  }

  /** The shortest form is the fixed form without leading zeros, or longer than it. */
  lemma {:induction false} MinimalFitsFixed(n: nat, width: nat)
    requires width > 0
    ensures |MinimalBe(n)| <= width ==> ZeroBytes(width - |MinimalBe(n)|) + MinimalBe(n) == FixedBe(n, width)
    ensures |MinimalBe(n)| > width ==> MinimalBe(n)[|MinimalBe(n)| - width..] == FixedBe(n, width)
  {
    if n < 256 {
      FixedBeZero(width - 1);
    } else if width == 1 {
      assert FixedBe(n / 256, 0) == [];
      assert FixedBe(n, 1) == [n % 256];
    } else {
      MinimalFitsFixed(n / 256, width - 1);
    }
  }

  /** copy_from_slice into buffer[at..at + |src|]. */
  method CopyFromSlice(buffer: array<byte>, at: nat, src: seq<byte>)
    requires at + |src| <= buffer.Length
    modifies buffer
    ensures buffer[..] == old(buffer[..at]) + src + old(buffer[at + |src|..])
  {
    for k := 0 to |src|
      invariant forall i | 0 <= i < at || at + k <= i < buffer.Length :: buffer[i] == old(buffer[i])
      invariant forall i | 0 <= i < k :: buffer[at + i] == src[i]
    {
      buffer[at + k] := src[k];
    }
  }

  /** The bytes in a zeroed buffer, on its right; of too many bytes the last ones. */
  method IntoZeroed(bytes: seq<byte>, width: nat) returns (result: seq<byte>)
    ensures |bytes| <= width ==> result == ZeroBytes(width - |bytes|) + bytes
    ensures |bytes| > width ==> result == bytes[|bytes| - width..]
  {
    var buffer := new byte[width](_ => 0);
    if |bytes| > width {
      CopyFromSlice(buffer, 0, bytes[|bytes| - width..]);
    } else {
      CopyFromSlice(buffer, width - |bytes|, bytes);
    }
    result := buffer[..];
  }

  lemma FixedFits(n: nat, width: nat)
    ensures n < Pow(256, width) ==> ValueBe(FixedBe(n, width)) == n
  {
    if n < Pow(256, width) {
      FixedBeValue(n, width);
    }
  }

  /** biguint_to_32_bytes: copies the shortest form into a zeroed buffer, keeping its last 32 bytes. */
  method BigUintTo32Bytes(num: nat) returns (result: seq<byte>)
    ensures result == FixedBe(num, WORD)
    ensures num < Pow(256, WORD) ==> ValueBe(result) == num
  {
    MinimalFitsFixed(num, WORD);
    FixedFits(num, WORD);
    result := IntoZeroed(MinimalBe(num), WORD);
  }

  /** The words of nums, one after the other. */
  function StoredBytes(nums: seq<nat>): seq<byte> {
    if nums == [] then [] else StoredBytes(nums[..|nums| - 1]) + FixedBe(nums[|nums| - 1], WORD)
  }

  /** biguint_vec_to_u8_vec. */
  method BigUintVecToU8Vec(nums: seq<nat>) returns (result: seq<byte>)
    ensures result == StoredBytes(nums)
    ensures |result| == WORD * |nums|
  {
    result := [];
    for i := 0 to |nums|
      invariant result == StoredBytes(nums[..i]) && |result| == WORD * i
    {
      var word := BigUintTo32Bytes(nums[i]);
      assert nums[..i + 1][..i] == nums[..i];
      result := result + word;
    }
    assert nums[..|nums|] == nums;
  }

  /** The reader's side: cut a byte string into words. */
  function SplitWords(bs: seq<byte>): seq<nat> {
    if |bs| < WORD then [] else SplitWords(bs[..|bs| - WORD]) + [ValueBe(bs[|bs| - WORD..])]
  }

  lemma SplitLast(front: seq<byte>, word: seq<byte>, bs: seq<byte>)
    requires |word| == WORD && bs == front + word
    ensures SplitWords(bs) == SplitWords(front) + [ValueBe(word)]
  {
    assert bs[..|bs| - WORD] == front && bs[|bs| - WORD..] == word;
  }

  lemma StoredSnoc(nums: seq<nat>) returns (word: seq<byte>)
    requires nums != [] && nums[|nums| - 1] < Pow(256, WORD)
    ensures |word| == WORD && ValueBe(word) == nums[|nums| - 1]
    ensures StoredBytes(nums) == StoredBytes(nums[..|nums| - 1]) + word
  {
    word := FixedBe(nums[|nums| - 1], WORD);
    FixedBeValue(nums[|nums| - 1], WORD);
  }

  /** Splitting the stored bytes gives back every number below 2^256, in order. */
  lemma {:induction false} SplitStored(nums: seq<nat>)
    requires forall i | 0 <= i < |nums| :: nums[i] < Pow(256, WORD)
    ensures |StoredBytes(nums)| == WORD * |nums|
    ensures SplitWords(StoredBytes(nums)) == nums
  {
    if nums != [] {
      var last := |nums| - 1;
      SplitStored(nums[..last]);
      var word := StoredSnoc(nums);
      SplitLast(StoredBytes(nums[..last]), word, StoredBytes(nums));
      assert nums == nums[..last] + [nums[last]];
    }
  }

  /** 256^32 = 2^256, written out. */
  lemma WordBound()
    ensures Pow(256, WORD) == 0x1_0000000000000000_0000000000000000_0000000000000000_0000000000000000
  {
    assert Pow(256, 4) == 0x1_00000000;
    PowAdd(256, 4, 4);
    PowAdd(256, 8, 8);
    PowAdd(256, 16, 16);
  }
}
