/** The packed word of a contract update (crates/orchestrator/src/jobs/da_job/mod.rs):
    127 bits of padding, one class flag bit, 64 bits of nonce, 64 bits of change count. */
module DaWord {
  import opened Outcomes
  import opened ModularArithmetic
  import opened BinaryStrings

  const TWO_64: nat := 0x1_0000000000000000
  const TWO_128: nat := 0x1_0000000000000000_0000000000000000
  const TWO_256: nat := 0x1_0000000000000000_0000000000000000_0000000000000000_0000000000000000

  /** The order of the Starknet field: 2^251 + 17 * 2^192 + 1. */
  const STARK_PRIME: nat := 0x0800000000000011_0000000000000000_0000000000000000_0000000000000001

  type Felt = x: nat | x < STARK_PRIME
  type U64 = x: nat | x < TWO_64

  datatype WordError = FeltOutOfRange

  /** Reading a field element from a numeral: 256-bit values are reduced, larger ones refused. */
  function FeltFromNumber(v: nat): Result<Felt, WordError> {
    if v < TWO_256 then Ok(v % STARK_PRIME) else Err(FeltOutOfRange)
  }

  function NonceOrZero(nonce: Option<Felt>): nat {
    match nonce
    case Some(n) => n
    case None => 0
  }

  /** The digits the code concatenates. */
  function WordDigits(classFlag: bool, nonce: Option<Felt>, numChanges: U64): string {
    Zeros(127)
    + (if classFlag then "1" else "0")
    + (match nonce case Some(n) => PadLeft(ToBinary(n), 64) case None => Zeros(64))
    + PadLeft(ToBinary(numChanges), 64)
  }

  function Pack(classFlag: bool, nonce: Option<Felt>, numChanges: U64): Result<Felt, WordError> {
    FeltFromNumber(ParseBinary(WordDigits(classFlag, nonce, numChanges)))
  }

  /** da_word. Every character appended is a binary digit, so parsing the string cannot fail. */
  method DaWord(classFlag: bool, nonceChange: Option<Felt>, numChanges: U64) returns (r: Result<Felt, WordError>)
    ensures r == Pack(classFlag, nonceChange, numChanges)
  {
    var binaryString := Zeros(127);
    if classFlag {
      binaryString := binaryString + "1";
    } else {
      binaryString := binaryString + "0";
    }
    match nonceChange {
      case Some(newNonce) =>
        var padded := PadLeft(ToBinary(newNonce), 64);
        binaryString := binaryString + padded;
      case None =>
        binaryString := binaryString + Zeros(64);
    }
    var padded := PadLeft(ToBinary(numChanges), 64);
    binaryString := binaryString + padded;
    WordDigitsAreBinary(classFlag, nonceChange, numChanges);
    assert IsBinary(binaryString);
    r := FeltFromNumber(ParseBinary(binaryString));
  }

  lemma WordDigitsAreBinary(classFlag: bool, nonce: Option<Felt>, numChanges: U64)
    ensures IsBinary(WordDigits(classFlag, nonce, numChanges))
  {
    ParseToBinary(NonceOrZero(nonce));
    ParseToBinary(numChanges);
  }

  // ---- What the layout promises ------------------------------------------------------------

  datatype Fields = Fields(classFlag: bool, nonce: nat, numChanges: nat)

  /** The reader's side: the three fields at their documented positions. */
  function Unpack(word: nat): Fields {
    Fields((word / TWO_128) % 2 == 1, (word / TWO_64) % TWO_64, word % TWO_64)
  }

  lemma Pow64()
    ensures Pow(2, 64) == TWO_64
  {
    assert Pow(2, 4) == 16;
    PowAdd(2, 4, 4);
    PowAdd(2, 8, 8);
    PowAdd(2, 16, 16);
    PowAdd(2, 32, 32);
  }

  /** Zero padding followed by three numerals. */
  lemma ParseParts(zeros: string, a: string, b: string, c: string)
    requires ParseBinary(zeros) == 0
    ensures ParseBinary(zeros + a + b + c)
         == (ParseBinary(a) * Pow(2, |b|) + ParseBinary(b)) * Pow(2, |c|) + ParseBinary(c)
  {
    ParseConcat(zeros + a + b, c);
    ParseConcat(zeros + a, b);
    ParseConcat(zeros, a);
  }

  /** A padded numeral keeps its value; one below 2^64 takes exactly 64 digits. */
  lemma PaddedNumeral(n: nat)
    ensures ParseBinary(PadLeft(ToBinary(n), 64)) == n
    ensures |PadLeft(ToBinary(n), 64)| >= 64 && (n < TWO_64 ==> |PadLeft(ToBinary(n), 64)| == 64)
  {
    Pow64();
    ToBinaryLength(n, 64);
    ParseToBinary(n);
    ParsePadLeft(ToBinary(n), 64);
  }

  /** The value of the digits, for a nonce of any size; `width` is the room the nonce takes. */
  lemma DigitsValue(classFlag: bool, nonce: Option<Felt>, numChanges: U64) returns (width: nat)
    ensures width >= 64 && (NonceOrZero(nonce) < TWO_64 ==> width == 64)
    ensures forall w: nat :: w >= 64 ==> (width <= w <==> NonceOrZero(nonce) < Pow(2, w))
    ensures ParseBinary(WordDigits(classFlag, nonce, numChanges))
         == ((if classFlag then 1 else 0) * Pow(2, width) + NonceOrZero(nonce)) * TWO_64 + numChanges
  {
    var flag := if classFlag then "1" else "0";
    var middle := match nonce case Some(n) => PadLeft(ToBinary(n), 64) case None => Zeros(64);
    width := |middle|;
    Pow64();
    ParseZeros(127);
    ParseZeros(64);
    PaddedNumeral(NonceOrZero(nonce));
    PaddedNumeral(numChanges);
    ParseParts(Zeros(127), flag, middle, PadLeft(ToBinary(numChanges), 64));
    assert ParseBinary(flag) == if classFlag then 1 else 0;
    forall w: nat | w >= 64 ensures width <= w <==> NonceOrZero(nonce) < Pow(2, w) {
      NumeralWidth(nonce, middle, w);
    }
  }

  lemma NumeralWidth(nonce: Option<Felt>, middle: string, w: nat)
    requires w >= 64 && middle == match nonce case Some(n) => PadLeft(ToBinary(n), 64) case None => Zeros(64)
    ensures |middle| <= w <==> NonceOrZero(nonce) < Pow(2, w)
  {
    PowPositive(2, w);
    if nonce.Some? {
      ToBinaryLength(nonce.value, w);
    }
  }

  lemma UnpackSum(flag: nat, nonce: nat, numChanges: nat)
    requires flag < 2 && nonce < TWO_64 && numChanges < TWO_64
    ensures var word := flag * TWO_128 + nonce * TWO_64 + numChanges;
            word < 2 * TWO_128 && Unpack(word) == Fields(flag == 1, nonce, numChanges)
  {
    UnpackWord(flag * TWO_128 + nonce * TWO_64 + numChanges, flag == 1, nonce, numChanges);
  }

  lemma UnpackWord(word: nat, classFlag: bool, nonce: nat, numChanges: nat)
    requires nonce < TWO_64 && numChanges < TWO_64
    requires word == (if classFlag then TWO_128 else 0) + nonce * TWO_64 + numChanges
    ensures Unpack(word) == Fields(classFlag, nonce, numChanges)
  {
    var high := (if classFlag then TWO_64 else 0) + nonce;
    assert TWO_128 == TWO_64 * TWO_64;
    assert word == high * TWO_64 + numChanges;
    assert word / TWO_64 == high && word % TWO_64 == numChanges;
    assert high % TWO_64 == nonce;
    assert word / TWO_128 == if classFlag then 1 else 0;
  }

  /** The digits of a word whose nonce takes 64 of them. */
  lemma DigitsSum(classFlag: bool, nonce: Option<Felt>, numChanges: U64, flag: nat)
    requires NonceOrZero(nonce) < TWO_64 && flag == if classFlag then 1 else 0
    ensures ParseBinary(WordDigits(classFlag, nonce, numChanges))
         == flag * TWO_128 + NonceOrZero(nonce) * TWO_64 + numChanges
  {
    var width := DigitsValue(classFlag, nonce, numChanges);
    Pow64();
  }

  lemma PackValue(classFlag: bool, nonce: Option<Felt>, numChanges: U64)
    requires NonceOrZero(nonce) < TWO_64
    ensures Pack(classFlag, nonce, numChanges)
         == Ok((if classFlag then TWO_128 else 0) + NonceOrZero(nonce) * TWO_64 + numChanges)
  {
    var flag := if classFlag then 1 else 0;
    DigitsSum(classFlag, nonce, numChanges, flag);
    PackOf(classFlag, nonce, numChanges, flag * TWO_128 + NonceOrZero(nonce) * TWO_64 + numChanges);
  }

  /** Bit-string packing is arithmetic, and unpacking gives the fields back. */
  lemma PackIsSum(classFlag: bool, nonce: Option<Felt>, numChanges: U64)
    requires NonceOrZero(nonce) < TWO_64
    ensures Pack(classFlag, nonce, numChanges)
         == Ok((if classFlag then TWO_128 else 0) + NonceOrZero(nonce) * TWO_64 + numChanges)
    ensures Unpack(Pack(classFlag, nonce, numChanges).value)
         == Fields(classFlag, NonceOrZero(nonce), numChanges)
  {
    PackValue(classFlag, nonce, numChanges);
    UnpackWord(Pack(classFlag, nonce, numChanges).value, classFlag, NonceOrZero(nonce), numChanges);
  }

  lemma PackOf(classFlag: bool, nonce: Option<Felt>, numChanges: U64, word: nat)
    requires ParseBinary(WordDigits(classFlag, nonce, numChanges)) == word && word < 2 * TWO_128
    ensures Pack(classFlag, nonce, numChanges) == Ok(word)
  {
    FeltBelowPrime(word);
  }

  /** The layout is respected exactly for nonces of at most 64 bits. */
  lemma PackRoundTripIff(classFlag: bool, nonce: Option<Felt>, numChanges: U64)
    ensures (Pack(classFlag, nonce, numChanges).Ok?
             && Unpack(Pack(classFlag, nonce, numChanges).value)
                == Fields(classFlag, NonceOrZero(nonce), numChanges))
       <==> NonceOrZero(nonce) < TWO_64
  {
    if NonceOrZero(nonce) < TWO_64 {
      PackIsSum(classFlag, nonce, numChanges);
    }
  }

  /** Without a class flag the digits are the nonce and the count, however wide the nonce. */
  lemma PlainDigits(nonce: Felt, numChanges: U64)
    ensures ParseBinary(WordDigits(false, Some(nonce), numChanges)) == nonce * TWO_64 + numChanges
  {
    var width := DigitsValue(false, Some(nonce), numChanges);
    assert 0 * Pow(2, width) == 0;
  }

  lemma FeltBelowPrime(v: nat)
    requires v < STARK_PRIME
    ensures FeltFromNumber(v) == Ok(v)
  {
  }

  lemma UnpackWide(word: nat, numChanges: U64)
    requires word == TWO_128 + numChanges
    ensures Unpack(word) == Fields(true, 0, numChanges)
  {
    assert word / TWO_128 == 1;
    assert word == TWO_64 * TWO_64 + numChanges;
    assert word / TWO_64 == TWO_64;
  }

  /** A 65-bit nonce spills into the class flag: no error is raised, and the reader sees a class change. */
  lemma WideNonceSetsFlag(nonce: Felt, numChanges: U64)
    requires nonce == TWO_64
    ensures Pack(false, Some(nonce), numChanges) == Ok(TWO_128 + numChanges)
    ensures Unpack(TWO_128 + numChanges) == Fields(true, 0, numChanges)
  {
    var v := ParseBinary(WordDigits(false, Some(nonce), numChanges));
    assert v == TWO_128 + numChanges by {
      PlainDigits(nonce, numChanges);
      assert nonce * TWO_64 == TWO_128;
    }
    FeltBelowPrime(v);
    UnpackWide(v, numChanges);
  }

  lemma Pow192()
    ensures Pow(2, 191) == 0x8000000000000000_0000000000000000_0000000000000000
    ensures Pow(2, 192) == 0x1_0000000000000000_0000000000000000_0000000000000000
  {
    Pow64();
    PowAdd(2, 64, 64);
    PowAdd(2, 128, 64);
    PowDouble(191, 192);
  }

  lemma PowDouble(e: nat, f: nat)
    requires f == e + 1
    ensures Pow(2, f) == 2 * Pow(2, e)
  {
  }

  lemma {:induction false} PowGrows(e: nat, f: nat)
    requires e <= f
    ensures Pow(2, e) <= Pow(2, f)
  {
    PowPositive(2, e);
    if e < f {
      PowGrows(e, f - 1);
    }
  }

  /** The digits of a word make a 256-bit number exactly for nonces below 2^192, or 2^191 behind a class flag. */
  lemma PackFits(classFlag: bool, nonce: Option<Felt>, numChanges: U64, bound: nat)
    requires bound == if classFlag then 0x8000000000000000_0000000000000000_0000000000000000
                      else 0x1_0000000000000000_0000000000000000_0000000000000000
    ensures Pack(classFlag, nonce, numChanges).Ok? <==> NonceOrZero(nonce) < bound
  {
    var width := DigitsValue(classFlag, nonce, numChanges);
    Pow192();
    if classFlag {
      if width <= 191 {
        PowGrows(width, 191);
      } else {
        PowGrows(192, width);
      }
      FlagFits(Pow(2, width), NonceOrZero(nonce), numChanges);
    } else {
      assert 0 * Pow(2, width) == 0;
    }
  }

  lemma FlagFits(power: nat, nonce: nat, numChanges: U64)
    ensures power + nonce < 0x1_0000000000000000_0000000000000000_0000000000000000
       <==> (1 * power + nonce) * TWO_64 + numChanges < TWO_256
  {
  }
}
