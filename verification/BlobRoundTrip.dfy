/** From a state diff to the stored blob and back (process_job of crates/orchestrator/src/jobs/da_job/mod.rs). */
module BlobRoundTrip {
  import opened Outcomes
  import opened ModularArithmetic
  import opened Bytes
  import opened FftTransform
  import opened BlobTransform
  import opened DaWord
  import opened DiffEncoding
  import opened SortedLists
  import opened StateDiffBlob
  import opened CanonicalBlob
  import opened DiffMeaning

  const BYTES_PER_BLOB: nat := 131072

  /** The bytes stored for a list of blob words. */
  function StoredBlob(words: seq<nat>): seq<byte> {
    StoredBytes(Transform(Padded(words), GENERATOR, BLS_MODULUS, WIDTH))
  }

  /** Parsing words that are field elements. */
  function Read(words: seq<nat>): Option<Diff> {
    if forall i | 0 <= i < |words| :: words[i] < STARK_PRIME then
      match Parse(words)
      case Some(p) => Some(p.value)
      case None => None
    else None
  }

  /** The reader: split into words, invert the transform, parse. */
  function DecodeBlob(bytes: seq<byte>): Option<Diff> {
    Read(RecoverBlob(SplitWords(bytes)))
  }

  lemma FeltsFit(words: seq<Felt>)
    ensures forall i | 0 <= i < |words| :: words[i] < BLS_MODULUS && words[i] < Pow(256, WORD)
  {
    WordBound();
  }

  /** The bytes decode to the canonical updates and the classes of the diff. */
  ghost predicate Reads(bytes: seq<byte>, sd: StateDiff, lookup: Felt -> Option<Felt>) {
    exists cs, classes ::
      IsCanonical(cs, sd, lookup) && AreClasses(classes, sd) && DecodeBlob(bytes) == Some(Diff(cs, classes))
  }

  /** The blob part of the DA job: words, padding, transform, bytes. */
  method BuildBlob(u: StateUpdate, lookup: Felt -> Option<Felt>)
    returns (r: Result<seq<byte>, BlobError>, ghost order: seq<Felt>)
    modifies u
    ensures Enumerates(order, NewAddresses(old(u.stateDiff)))
    ensures var words := BlobWords(old(u.stateDiff), order, lookup);
            r == if words.Ok? then Ok(StoredBlob(words.value)) else Err(words.error)
    ensures r.Ok? ==> |r.value| == BYTES_PER_BLOB
    ensures DistinctDiff(old(u.stateDiff)) && SmallDiff(old(u.stateDiff), lookup)
            && AllNoncesFound(old(u.stateDiff), lookup)
            && (r.Ok? ==> |BlobWords(old(u.stateDiff), order, lookup).value| <= BLOB_LEN)
            ==> r.Ok? && Reads(r.value, old(u.stateDiff), lookup)
  {
    ghost var sd := u.stateDiff;
    var words;
    words, order := StateUpdateToBlobData(u, lookup);
    BlobReads(sd, order, lookup);
    if words.Err? {
      return Err(words.error), order;
    }
    FeltsFit(words.value);
    var padded := ConvertToBigUint(words.value);
    var transformed := FftTransformation(padded);
    var bytes := BigUintVecToU8Vec(transformed);
    r := Ok(bytes);
  }

  /** Every stored blob is exactly one blob long and made of field elements, whatever its words,
      so the later conversion to a fixed-size blob cannot fail. */
  lemma StoredBlobShape(words: seq<nat>)
    ensures |StoredBlob(words)| == BYTES_PER_BLOB
    ensures var ws := SplitWords(StoredBlob(words));
            |ws| == BLOB_LEN && forall i | 0 <= i < BLOB_LEN :: ws[i] < BLS_MODULUS
  {
    var t := Transform(Padded(words), GENERATOR, BLS_MODULUS, WIDTH);
    TransformBelowModulus(Padded(words));
    SplitStored(t);
  }

  /** Reading a stored blob back gives the words, cut at 4096 and zero-filled. */
  lemma StoredWordsRecovered(words: seq<Felt>)
    ensures RecoverBlob(SplitWords(StoredBlob(words))) == Padded(words)
    ensures var recovered := RecoverBlob(SplitWords(StoredBlob(words)));
            |recovered| == 4096
            && forall i :: 0 <= i < 4096 ==> recovered[i] == if i < |words| then words[i] else 0
  {
    TransformBelowModulus(Padded(words));
    SplitStored(Transform(Padded(words), GENERATOR, BLS_MODULUS, WIDTH));
    FeltsFit(words);
    BlobTransformInverts(Padded(words));
  }

  lemma ReadFelts(words: seq<Felt>, n: nat)
    requires n <= |words|
    ensures Read(words[..n]) == match Parse(words[..n]) case Some(p) => Some(p.value) case None => None
  {
  }

  lemma PaddedFelts(words: seq<Felt>) returns (padded: seq<Felt>)
    ensures padded == Padded(words)
  {
    padded := Padded(words);
  }

  lemma ReadFits(cs: seq<ContractUpdate>, classes: seq<Pair>, padded: seq<Felt>)
    requires AllPackable(cs) && |cs| < STARK_PRIME && |classes| < STARK_PRIME
    requires Encode(cs, classes) <= padded
    ensures Read(padded) == Some(Diff(cs, classes))
  {
    var words := Encode(cs, classes);
    assert padded == words + padded[|words|..];
    ParseEncoded(cs, classes, padded[|words|..]);
    assert padded[..|padded|] == padded;
    ReadFelts(padded, |padded|);
  }

  lemma ReadCut(cs: seq<ContractUpdate>, classes: seq<Pair>, n: nat)
    requires AllPackable(cs) && |cs| < STARK_PRIME && |classes| < STARK_PRIME
    requires n < |Encode(cs, classes)|
    ensures Read(Encode(cs, classes)[..n]) == None
  {
    CutEncodingRejected(cs, classes, n);
    ReadFelts(Encode(cs, classes), n);
  }

  lemma PaddedCut(words: seq<nat>, n: nat)
    requires n == BLOB_LEN
    ensures |words| > n ==> Padded(words) == words[..n]
  {
  }

  /** The stored bytes determine the diff exactly when its encoding fits in 4096 elements:
      a longer one is cut without an error and no longer parses. */
  lemma StoredDiffRecoveredIff(cs: seq<ContractUpdate>, classes: seq<Pair>)
    requires AllPackable(cs) && |cs| < STARK_PRIME && |classes| < STARK_PRIME
    ensures DecodeBlob(StoredBlob(Encode(cs, classes))) == Some(Diff(cs, classes))
       <==> |Encode(cs, classes)| <= BLOB_LEN
  {
    var words := Encode(cs, classes);
    var padded := PaddedFelts(words);
    StoredWordsRecovered(words);
    if |words| <= BLOB_LEN {
      ReadFits(cs, classes, padded);
    } else {
      PaddedCut(words, BLOB_LEN);
      ReadCut(cs, classes, BLOB_LEN);
    }
  }

  /** End to end: for every state diff with distinct keys and 64-bit nonces whose encoding fits,
      the stored bytes decode to its canonical updates and its sorted classes. */
  lemma BlobRoundTrips(sd: StateDiff, order: seq<Felt>, lookup: Felt -> Option<Felt>)
    returns (cs: seq<ContractUpdate>, classes: seq<Pair>)
    requires DistinctDiff(sd) && SmallDiff(sd, lookup) && Enumerates(order, NewAddresses(sd))
    requires AllNoncesFound(sd, lookup)
    requires BlobWords(sd, order, lookup).Ok? ==> |BlobWords(sd, order, lookup).value| <= BLOB_LEN
    ensures IsCanonical(cs, sd, lookup) && AreClasses(classes, sd)
    ensures BlobWords(sd, order, lookup).Ok?
    ensures DecodeBlob(StoredBlob(BlobWords(sd, order, lookup).value)) == Some(Diff(cs, classes))
  {
    var at;
    cs, classes, at := BlobIsCanonical(sd, order, lookup);
    EncodedSize(cs, classes);
    StoredDiffRecoveredIff(cs, classes);
  }

  lemma BlobReads(sd: StateDiff, order: seq<Felt>, lookup: Felt -> Option<Felt>)
    requires Enumerates(order, NewAddresses(sd))
    ensures var words := BlobWords(sd, order, lookup);
            DistinctDiff(sd) && SmallDiff(sd, lookup) && AllNoncesFound(sd, lookup)
            && (words.Ok? ==> |words.value| <= BLOB_LEN)
            ==> words.Ok? && Reads(StoredBlob(words.value), sd, lookup)
  {
    var words := BlobWords(sd, order, lookup);
    if DistinctDiff(sd) && SmallDiff(sd, lookup) && AllNoncesFound(sd, lookup)
       && (words.Ok? ==> |words.value| <= BLOB_LEN)
    {
      var cs, classes := BlobRoundTrips(sd, order, lookup);
    }
  }
}
