/** The transform of crates/orchestrator/src/jobs/da_job/mod.rs, with the EIP-4844 parameters. */
module BlobTransform {
  import opened ModularArithmetic
  import opened BinaryStrings
  import opened FftTransform
  import opened Bytes

  const GENERATOR: nat := 39033254847818212395286706435128746857159659164139250548781411570340225835782
  const BLS_MODULUS: nat := 52435875175126190479447740508185965837690552500527637822603658699938581184513
  const BLOB_LEN: nat := 4096
  const WIDTH: nat := 12

  /** The inverse of 4096 modulo BLS_MODULUS, used only to invert the transform. */
  const BLOB_LEN_INVERSE: nat := 52423073447788513186850219087163459498374710080483563692275874603576291491841

  // ---- The parameters meet the conditions of the inverse theorem -------------------------

  /** Squaring a known power of the generator; q and r are the quotient and remainder. */
  lemma SquarePower(e: nat, x: nat, q: nat, r: nat)
    requires Cong(Pow(GENERATOR, e), x, BLS_MODULUS) && x * x == q * BLS_MODULUS + r
    ensures Cong(Pow(GENERATOR, 2 * e), r, BLS_MODULUS)
  {
    PowAdd(GENERATOR, e, e);
    CongMul(Pow(GENERATOR, e), x, Pow(GENERATOR, e), x, BLS_MODULUS);
    CongIntro(x * x, r, q, BLS_MODULUS);
    CongTrans(Pow(GENERATOR, 2 * e), x * x, r, BLS_MODULUS);
  }

  /** The generator has order 4096: its 2048th power is -1. */
  lemma GeneratorHalfOrder()
    ensures Cong(Pow(GENERATOR, 2048), -1, BLS_MODULUS)
  {
    assert Pow(GENERATOR, 1) == GENERATOR;
    CongRefl(GENERATOR, BLS_MODULUS);
    SquarePower(1, GENERATOR,
      29056346993850996498408613211046595192243508027277179240039304581442059905599,
      49307615728544765012166121802278658070711169839041683575071795236746050763237);
    SquarePower(2, 49307615728544765012166121802278658070711169839041683575071795236746050763237,
      46365984370699199490387537932779246691790987783203796165207256631841590439557,
      22781213702924172180523978385542388841346373992886390990881355510284839737428);
    SquarePower(4, 22781213702924172180523978385542388841346373992886390990881355510284839737428,
      9897492814699666225703588144736490092861041638969691344979563153664421763138,
      4214636447306890335450803789410475782380792963881561516561680164772024173390);
    SquarePower(8, 4214636447306890335450803789410475782380792963881561516561680164772024173390,
      338759681680566094384661421608725582014079238341167629848615681613431472761,
      36007022166693598376559747923784822035233416720563672082740011604939309541707);
    SquarePower(16, 36007022166693598376559747923784822035233416720563672082740011604939309541707,
      24725546030893419283650058338437031747284857013340151260074394014359783700027,
      47309214877430199588914062438791732591241783999377560080318349803002842391998);
    SquarePower(32, 47309214877430199588914062438791732591241783999377560080318349803002842391998,
      42683788624559304820678447170489061067855387984546907739320709598449179462321,
      31519469946562159605140591558550197856588417350474800936898404023113662197331);
    SquarePower(64, 31519469946562159605140591558550197856588417350474800936898404023113662197331,
      18946512905414557504371570029177993596326186137134313470805608426261485096859,
      36581797046584068049060372878520385032448812009597153775348195406694427778894);
    SquarePower(128, 36581797046584068049060372878520385032448812009597153775348195406694427778894,
      25521227035651289821428581224593977611479455108593087890288738081119609700086,
      14788168760825820622209131888203028446852016562542525606630160374691593895118);
    SquarePower(256, 14788168760825820622209131888203028446852016562542525606630160374691593895118,
      4170616673570918327606325064043322261829970076819436991364757318224184538698,
      23674694431658770659612952115660802947967373701506253797663184111817857449850);
    SquarePower(512, 23674694431658770659612952115660802947967373701506253797663184111817857449850,
      10689077936822400752933022887068862718368496949774884062459812111304843150884,
      3465144826073652318776269530687742778270252468765361963008);
    SquarePower(1024, 3465144826073652318776269530687742778270252468765361963008,
      228988810152649578064853576960394133504,
      52435875175126190479447740508185965837690552500527637822603658699938581184512);
    var last := BLS_MODULUS - 1;
    CongIntro(last, -1, 1, BLS_MODULUS);
    CongTrans(Pow(GENERATOR, 2048), last, -1, BLS_MODULUS);
  }

  lemma BlobLenInvertible()
    ensures Cong(BLOB_LEN_INVERSE * BLOB_LEN, 1, BLS_MODULUS)
  {
    CongIntro(BLOB_LEN_INVERSE * BLOB_LEN, 1, 4095, BLS_MODULUS);
  }

  // ---- The code ----------------------------------------------------------------------------

  /** The evaluation points, from the reversed 12-digit binary numeral of each index. */
  method EvaluationPoints() returns (xs: seq<nat>)
    ensures |xs| == BLOB_LEN
    ensures forall i | 0 <= i < BLOB_LEN :: xs[i] == Point(GENERATOR, BLS_MODULUS, WIDTH, i)
  {
    xs := [];
    PowersOfTwo();
    for i := 0 to BLOB_LEN
      invariant |xs| == i
      invariant forall k | 0 <= k < i :: xs[k] == Point(GENERATOR, BLS_MODULUS, WIDTH, k)
    {
      var bin := PadLeft(ToBinary(i), WIDTH);
      var exponent := ParseBinary(Reverse(bin));
      PaddedIsBits(i, WIDTH);
      xs := xs + [Pow(GENERATOR, exponent) % BLS_MODULUS];
    }
  }

  lemma HornerStep(elements: seq<nat>, j: nat, x: nat, p: nat)
    requires p > 0 && j < |elements|
    ensures Horner(elements[j..], x, p) == (Horner(elements[j + 1..], x, p) * x + elements[j]) % p
  {
    assert elements[j..][1..] == elements[j + 1..];
  }

  /** The nested loops of fft_transformation: entry i accumulates from the last element to the first. */
  method EvaluateAll(elements: seq<nat>, xs: seq<nat>, p: nat) returns (result: seq<nat>)
    requires p > 0 && |elements| <= |xs|
    ensures |result| == |elements|
    ensures forall i | 0 <= i < |elements| :: result[i] == Horner(elements, xs[i], p)
  {
    var n := |elements|;
    var transform := new nat[n](_ => 0);
    for i := 0 to n
      invariant forall k | 0 <= k < i :: transform[k] == Horner(elements, xs[k], p)
      invariant forall k | i <= k < n :: transform[k] == 0
    {
      for j := n downto 0
        invariant forall k | 0 <= k < i :: transform[k] == Horner(elements, xs[k], p)
        invariant transform[i] == Horner(elements[j..], xs[i], p)
        invariant forall k | i < k < n :: transform[k] == 0
      {
        HornerStep(elements, j, xs[i], p);
        transform[i] := (transform[i] * xs[i] + elements[j]) % p;
      }
      assert elements[0..] == elements;
    }
    result := transform[..];
  }

  /** fft_transformation. More than 4096 elements would index past the evaluation points. */
  method FftTransformation(elements: seq<nat>) returns (transform: seq<nat>)
    requires |elements| <= BLOB_LEN
    ensures transform == Transform(elements, GENERATOR, BLS_MODULUS, WIDTH)
  {
    var xs := EvaluationPoints();
    transform := EvaluateAll(elements, xs, BLS_MODULUS);
  }

  /** The first 4096 elements, zero-filled: longer inputs are cut without an error. */
  function Padded(elements: seq<nat>): (r: seq<nat>)
    ensures |r| == BLOB_LEN
    ensures |elements| <= BLOB_LEN ==> elements <= r
    ensures forall i :: 0 <= i < BLOB_LEN ==> r[i] == if i < |elements| then elements[i] else 0
  {
    seq(BLOB_LEN, (i: nat) => At(elements, i))
  }

  /** A number is stored as bytes and read back. */
  method ThroughBytes(n: nat, size: nat) returns (r: nat)
    requires n < Pow(256, size)
    ensures r == n
  {
    var bytes := FixedBe(n, size);
    FixedBeValue(n, size);
    r := ValueBe(bytes);
  }

  /** convert_to_biguint: each element goes through its 32 bytes. */
  method ConvertToBigUint(elements: seq<nat>) returns (result: seq<nat>)
    requires forall i | 0 <= i < |elements| :: elements[i] < Pow(256, WORD)
    ensures result == Padded(elements)
  {
    var v := new nat[BLOB_LEN](_ => 0);
    var count := if |elements| < BLOB_LEN then |elements| else BLOB_LEN;
    for i := 0 to count
      invariant forall k | 0 <= k < i :: v[k] == elements[k]
      invariant forall k | i <= k < BLOB_LEN :: v[k] == 0
    {
      v[i] := ThroughBytes(elements[i], WORD);
    }
    result := v[..];
  }

  // ---- What the code promises --------------------------------------------------------------

  /** The inverse transform with the blob parameters. */
  function RecoverBlob(t: seq<nat>): seq<nat> {
    Recover(t, GENERATOR, BLS_MODULUS, WIDTH, BLOB_LEN_INVERSE)
  }

  /** A full blob of residues is recovered exactly from its transform. */
  lemma BlobTransformInverts(e: seq<nat>)
    requires |e| == BLOB_LEN
    requires forall j | 0 <= j < BLOB_LEN :: e[j] < BLS_MODULUS
    ensures RecoverBlob(Transform(e, GENERATOR, BLS_MODULUS, WIDTH)) == e
  {
    PowersOfTwo();
    GeneratorHalfOrder();
    BlobLenInvertible();
    TransformInverts(e, GENERATOR, BLS_MODULUS, WIDTH, BLOB_LEN_INVERSE);
  }

  /** Every entry of the transform is a residue, hence a valid 32-byte field element. */
  lemma TransformBelowModulus(e: seq<nat>)
    ensures var t := Transform(e, GENERATOR, BLS_MODULUS, WIDTH);
            forall i | 0 <= i < |t| :: t[i] < BLS_MODULUS && t[i] < Pow(256, WORD)
  {
    var t := Transform(e, GENERATOR, BLS_MODULUS, WIDTH);
    WordBound();
    forall i | 0 <= i < |t| ensures t[i] < BLS_MODULUS {
      TransformIsEvaluation(e, GENERATOR, BLS_MODULUS, WIDTH, i);
    }
  }
}
