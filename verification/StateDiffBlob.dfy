/** state_update_to_blob_data and refactor_state_update
    (crates/orchestrator/src/jobs/da_job/mod.rs). */
module StateDiffBlob {
  import opened Outcomes
  import opened SortedLists
  import opened DaWord
  import opened DiffEncoding

  datatype StorageDiff = StorageDiff(address: Felt, entries: seq<Pair>)

  /** The lists of a state update; nonces, deployments and replacements are keyed by contract address. */
  datatype StateDiff = StateDiff(
    storageDiffs: seq<StorageDiff>,
    declaredClasses: seq<Pair>,
    deployedContracts: seq<Pair>,
    replacedClasses: seq<Pair>,
    nonces: seq<Pair>)

  class StateUpdate {
    var stateDiff: StateDiff

    constructor (diff: StateDiff)
      ensures stateDiff == diff
    {
      stateDiff := diff;
    }
  }

  datatype BlobError = NonceLookupFailed | WordFailed

  const FELT_ONE: Felt := 1

  function PairKey(p: Pair): nat {
    p.key
  }

  function DiffKey(d: StorageDiff): nat {
    d.address
  }

  // ---- Contracts without storage writes ------------------------------------------------------

  function Keys(ps: seq<Pair>): set<Felt> {
    set i | 0 <= i < |ps| :: ps[i].key
  }

  function Addresses(ds: seq<StorageDiff>): set<Felt> {
    set i | 0 <= i < |ds| :: ds[i].address
  }

  /** Contracts with a nonce or a deployment but no storage diff. */
  function NewAddresses(sd: StateDiff): set<Felt> {
    Keys(sd.nonces) + Keys(sd.deployedContracts) - Addresses(sd.storageDiffs)
  }

  function EmptyDiffs(order: seq<Felt>): seq<StorageDiff> {
    seq(|order|, (i: nat) requires i < |order| => StorageDiff(order[i], []))
  }

  /** order lists every element of s once: one possible iteration order of a hash set. */
  ghost predicate Enumerates(order: seq<Felt>, s: set<Felt>) {
    && (forall a :: a in s <==> a in order)
    && (forall i, j | 0 <= i < j < |order| :: order[i] != order[j])
  }

  /** refactor_state_update: appends an empty diff per new address, in the order the hash set yields them. */
  method RefactorStateUpdate(u: StateUpdate) returns (ghost order: seq<Felt>)
    modifies u
    ensures Enumerates(order, NewAddresses(old(u.stateDiff)))
    ensures u.stateDiff
         == old(u.stateDiff).(storageDiffs := old(u.stateDiff).storageDiffs + EmptyDiffs(order))
  {
    var before := u.stateDiff;
    var remaining := NewAddresses(before);
    order := [];
    var diffs := before.storageDiffs;
    while remaining != {}
      invariant forall a :: a in NewAddresses(before) <==> a in remaining || a in order
      invariant forall i | 0 <= i < |order| :: order[i] !in remaining
      invariant forall i, j | 0 <= i < j < |order| :: order[i] != order[j]
      invariant diffs == before.storageDiffs + EmptyDiffs(order)
      decreases |remaining|
    {
      var address :| address in remaining;
      remaining := remaining - {address};
      diffs := diffs + [StorageDiff(address, [])];
      order := order + [address];
    }
    u.stateDiff := before.(storageDiffs := diffs);
  }

  // ---- The words of the contracts --------------------------------------------------------------

  /** Collecting pairs into a hash map: a later pair replaces an earlier one. */
  function ToMap(ps: seq<Pair>): map<Felt, Felt> {
    if ps == [] then map[] else ToMap(ps[..|ps| - 1])[ps[|ps| - 1].key := ps[|ps| - 1].value]
  }

  /** The maps and the contract nonce lookup the loop consults. */
  datatype Context = Context(
    deployed: map<Felt, Felt>,
    replaced: map<Felt, Felt>,
    nonces: map<Felt, Felt>,
    lookup: Felt -> Option<Felt>)

  function ClassOf(ctx: Context, address: Felt): Option<Felt> {
    if address in ctx.deployed then Some(ctx.deployed[address])
    else if address in ctx.replaced then Some(ctx.replaced[address])
    else None
  }

  /** The nonce of the update, or the contract's current nonce when it only has writes. */
  function NonceOf(ctx: Context, d: StorageDiff): Result<Option<Felt>, BlobError> {
    if d.address in ctx.nonces then Ok(Some(ctx.nonces[d.address]))
    else if d.entries != [] && d.address != FELT_ONE then
      match ctx.lookup(d.address)
      case Some(n) => Ok(Some(n))
      case None => Err(NonceLookupFailed)
    else Ok(None)
  }

  function LengthAsU64(n: nat): U64 {
    n % TWO_64
  }

  /** Address, packed word, class hash if any, and sorted writes. */
  function WordsWith(d: StorageDiff, word: Felt, classHash: Option<Felt>): seq<Felt> {
    [d.address, word] + (match classHash case Some(h) => [h] case None => []) + Flatten(SortBy(d.entries, PairKey))
  }

  /** The words of one contract. */
  function ContractWords(ctx: Context, d: StorageDiff): Result<seq<Felt>, BlobError> {
    match NonceOf(ctx, d)
    case Err(e) => Err(e)
    case Ok(nonce) =>
      var class_ := ClassOf(ctx, d.address);
      match Pack(class_.Some?, nonce, LengthAsU64(|d.entries|))
      case Err(_) => Err(WordFailed)
      case Ok(word) => Ok(WordsWith(d, word, class_))
  }

  function WithoutNonce(ctx: Context, address: Felt): Context {
    ctx.(nonces := ctx.nonces - {address})
  }

  /** The words of all contracts behind acc, in list order; each contract takes its nonce out of the map. */
  function Emit(ctx: Context, ds: seq<StorageDiff>, acc: seq<Felt>): Result<seq<Felt>, BlobError>
    decreases |ds|
  {
    if ds == [] then Ok(acc)
    else
      match ContractWords(ctx, ds[0])
      case Err(e) => Err(e)
      case Ok(ws) => Emit(WithoutNonce(ctx, ds[0].address), ds[1..], acc + ws)
  }

  function ContextOf(sd: StateDiff, lookup: Felt -> Option<Felt>): Context {
    Context(ToMap(sd.deployedContracts), ToMap(sd.replacedClasses), ToMap(sd.nonces), lookup)
  }

  /** All blob words of a diff whose new addresses are iterated in the given order. */
  function BlobWords(sd: StateDiff, order: seq<Felt>, lookup: Felt -> Option<Felt>): Result<seq<Felt>, BlobError> {
    var ds := SortBy(sd.storageDiffs + EmptyDiffs(order), DiffKey);
    match Emit(ContextOf(sd, lookup), ds, [FeltFromLength(|ds|)])
    case Err(e) => Err(e)
    case Ok(ws) =>
      Ok(ws + [FeltFromLength(|sd.declaredClasses|)] + Flatten(SortBy(sd.declaredClasses, PairKey)))
  }

  /** Pushes key and value of every pair. */
  method PushPairs(blob: seq<Felt>, ps: seq<Pair>) returns (r: seq<Felt>)
    ensures r == blob + Flatten(ps)
  {
    r := blob;
    for i := 0 to |ps|
      invariant blob + Flatten(ps) == r + Flatten(ps[i..])
    {
      r := r + [ps[i].key] + [ps[i].value];
      assert ps[i..][1..] == ps[i + 1..];
    }
  }

  method PushWords(blob: seq<Felt>, d: StorageDiff, word: Felt, classHash: Option<Felt>) returns (words: seq<Felt>)
    ensures words == blob + WordsWith(d, word, classHash)
  {
    words := blob + [d.address] + [word];
    if classHash.Some? {
      words := words + [classHash.value];
    }
    words := PushPairs(words, SortBy(d.entries, PairKey));
  }

  /** The loop body: pushes address, packed word, class hash and sorted writes of one contract. */
  method PushContract(ctx: Context, d: StorageDiff, blob: seq<Felt>) returns (r: Result<seq<Felt>, BlobError>)
    ensures ContractWords(ctx, d).Err? ==> r == Err(ContractWords(ctx, d).error)
    ensures ContractWords(ctx, d).Ok? ==> r == Ok(blob + ContractWords(ctx, d).value)
    // What the words are, place by place.
    ensures r == Err(NonceLookupFailed) <==>
              d.address !in ctx.nonces && d.entries != [] && d.address != 1 && ctx.lookup(d.address).None?
    ensures r.Ok? ==> |r.value| >= |blob| + 2 && r.value[..|blob|] == blob && r.value[|blob|] == d.address
    ensures r.Ok? && d.address in ctx.deployed ==>
              |r.value| > |blob| + 2 && r.value[|blob| + 2] == ctx.deployed[d.address]
    ensures r.Ok? && d.address !in ctx.deployed && d.address in ctx.replaced ==>
              |r.value| > |blob| + 2 && r.value[|blob| + 2] == ctx.replaced[d.address]
  {
    var classFlag := ClassOf(ctx, d.address);
    var nonce := if d.address in ctx.nonces then Some(ctx.nonces[d.address]) else None;
    if nonce.None? && d.entries != [] && d.address != FELT_ONE {
      nonce := ctx.lookup(d.address);
      if nonce.None? {
        return Err(NonceLookupFailed);
      }
    }
    var word := DaWord.DaWord(classFlag.Some?, nonce, LengthAsU64(|d.entries|));
    if word.Err? {
      return Err(WordFailed);
    }
    var words := PushWords(blob, d, word.value, classFlag);
    r := Ok(words);
  }

  lemma EmitStep(ctx: Context, ds: seq<StorageDiff>, i: nat, acc: seq<Felt>)
    requires i < |ds|
    ensures Emit(ctx, ds[i..], acc)
         == if ContractWords(ctx, ds[i]).Err? then Err(ContractWords(ctx, ds[i]).error)
            else Emit(WithoutNonce(ctx, ds[i].address), ds[i + 1..], acc + ContractWords(ctx, ds[i]).value)
  {
    assert ds[i..][1..] == ds[i + 1..];
  }

  /** state_update_to_blob_data; lookup stands for the node's nonce query. */
  method StateUpdateToBlobData(u: StateUpdate, lookup: Felt -> Option<Felt>)
    returns (r: Result<seq<Felt>, BlobError>, ghost order: seq<Felt>)
    modifies u
    ensures Enumerates(order, NewAddresses(old(u.stateDiff)))
    ensures r == BlobWords(old(u.stateDiff), order, lookup)
  {
    order := RefactorStateUpdate(u);
    var diff := u.stateDiff;
    var blob: seq<Felt> := [FeltFromLength(|diff.storageDiffs|)];
    var ctx := ContextOf(diff, lookup);
    SortByCorrect(diff.storageDiffs, DiffKey);
    var ds := SortBy(diff.storageDiffs, DiffKey);
    ghost var all := Emit(ctx, ds, blob);
    for i := 0 to |ds|
      invariant Emit(ctx, ds[i..], blob) == all
    {
      EmitStep(ctx, ds, i, blob);
      var pushed := PushContract(ctx, ds[i], blob);
      if pushed.Err? {
        return Err(pushed.error), order;
      }
      ctx := WithoutNonce(ctx, ds[i].address);
      blob := pushed.value;
    }
    blob := blob + [FeltFromLength(|diff.declaredClasses|)];
    blob := PushPairs(blob, SortBy(diff.declaredClasses, PairKey));
    r := Ok(blob);
  }
}
