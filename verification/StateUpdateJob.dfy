/** The state transition handler (crates/orchestrator/src/jobs/state_update_job/mod.rs): it settles the
    blocks of one job, one transaction a block, and later checks that they landed. */
module StateUpdateJob {
  import opened Outcomes
  import opened Collections
  import opened Pipeline
  import SettlementChain
  import SettlementRuns

  type Hash = nat

  datatype Metadata = Metadata(
    blocks: seq<nat>, snosOutputs: seq<Path>, programOutputs: seq<Path>, blobs: seq<Path>,
    lastFailed: Option<nat>, txHashes: seq<Hash>)

  /** A settlement transaction, before it is signed. */
  datatype Transaction = Transaction(nonce: nat, programOutput: seq<nat>, blob: seq<nat>)

  datatype Inclusion = Verified | Rejected | Pending

  /** What storage and the settlement layer answer; none stands for a failed call. */
  datatype World = World(
    lastSettled: Option<nat>,
    nonce: Option<nat>,
    useKzgDa: Path -> Option<nat>,           // a field of the stored SNOS output
    programOutput: Path -> Option<seq<nat>>,
    blob: Path -> Option<seq<nat>>,
    accept: Transaction -> Option<Hash>,
    inclusion: (Hash, nat) -> Option<Inclusion>,   // first and second enquiry
    finality: Hash -> bool)

  datatype Failure =
    | BlockNumberNotFound | DuplicateBlockNumbers | UnsortedBlockNumbers | GapBetweenFirstAndLastBlock
    | ClientError | FetchError | Panicked | BlockFailed(block: nat)
    | StillPendingAfterFinality | EmptyBlockNumberList

  // ---- Which blocks ---------------------------------------------------------------------------

  /** The failed block to resume from; every block when there is none. */
  function Bound(m: Metadata): nat {
    if m.lastFailed.Some? then m.lastFailed.value else 0
  }

  /** The positions of the blocks not below the bound, in order. */
  function Todo(blocks: seq<nat>, bound: nat): seq<nat> {
    if blocks == [] then []
    else
      var n := |blocks| - 1;
      Todo(blocks[..n], bound) + (if blocks[n] >= bound then [n] else [])
  }

  predicate Ascending(s: seq<nat>) {
    forall i, j :: 0 <= i < j < |s| ==> s[i] < s[j]
  }

  lemma {:induction false} TodoCorrect(blocks: seq<nat>, bound: nat)
    ensures Ascending(Todo(blocks, bound))
    ensures forall i :: i in Todo(blocks, bound) ==> i < |blocks| && blocks[i] >= bound
    ensures forall i :: 0 <= i < |blocks| && blocks[i] >= bound ==> i in Todo(blocks, bound)
  {
    if blocks != [] {
      var n := |blocks| - 1;
      var front := Todo(blocks[..n], bound);
      TodoCorrect(blocks[..n], bound);
      forall i, j | 0 <= i < j < |Todo(blocks, bound)| ensures Todo(blocks, bound)[i] < Todo(blocks, bound)[j] {
        assert front[i] in front;
      }
      forall i | 0 <= i < |blocks| && blocks[i] >= bound ensures i in Todo(blocks, bound) {
        assert i < n ==> blocks[..n][i] >= bound && i in front;
      }
    }
  }

  lemma SomeMember(s: seq<nat>)
    ensures s != [] ==> exists x :: x in s
  {
    if s != [] {
      assert s[0] in s;
    }
  }

  lemma LastIsLargest(s: seq<nat>, x: nat)
    requires Ascending(s) && x in s
    ensures s != [] && s[|s| - 1] in s && x <= s[|s| - 1]
    ensures x in s[..|s| - 1] <==> x < s[|s| - 1]
  {
    var last := |s| - 1;
    var k :| 0 <= k < |s| && s[k] == x;
    if k < last {
      assert s[..last][k] == x;
    }
  }

  /** An ascending list of exactly the numbers below n. */
  lemma {:induction false} AllBelow(todo: seq<nat>, n: nat)
    requires Ascending(todo) && forall i: nat :: i in todo <==> i < n
    ensures |todo| == n && forall j :: 0 <= j < n ==> todo[j] == j
  {
    if n == 0 {
      SomeMember(todo);
    } else {
      LastIsLargest(todo, n - 1);
      var front := todo[..|todo| - 1];
      forall i: nat ensures i in front <==> i < n - 1 {
        if i in todo {
          LastIsLargest(todo, i);
        }
      }
      AllBelow(front, n - 1);
    }
  }

  // ---- One block ------------------------------------------------------------------------------

  datatype Attempt = Unfetched | Crashed | Refused | Accepted(transaction: Transaction, hash: Hash)

  /** One of the three files of position i cannot be had. */
  predicate FileMissing(m: Metadata, world: World, i: nat) {
    i >= |m.snosOutputs| || world.useKzgDa(m.snosOutputs[i]).None?
    || i >= |m.programOutputs| || world.programOutput(m.programOutputs[i]).None?
    || i >= |m.blobs| || world.blob(m.blobs[i]).None?
  }

  /** t is made of the files of position i, whose SNOS run used blobs, and was accepted. */
  predicate SentFor(m: Metadata, world: World, i: nat, nonce: nat, t: Transaction, hash: Hash) {
    !FileMissing(m, world, i) && world.useKzgDa(m.snosOutputs[i]) == Some(1)
    && t.nonce == nonce && world.programOutput(m.programOutputs[i]) == Some(t.programOutput)
    && world.blob(m.blobs[i]) == Some(t.blob) && world.accept(t) == Some(hash)
  }

  /** The files of position i are there, but no transaction comes of them. */
  predicate Refuses(m: Metadata, world: World, i: nat, nonce: nat) {
    !FileMissing(m, world, i) && world.useKzgDa(m.snosOutputs[i]) != Some(0)
    && (world.useKzgDa(m.snosOutputs[i]) == Some(1) ==>
          world.accept(Transaction(nonce, world.programOutput(m.programOutputs[i]).value,
                                   world.blob(m.blobs[i]).value)).None?)
  }

  /** todo lists, in order, the positions of the blocks not below the failed one, if there is one. */
  ghost predicate IsTodo(m: Metadata, todo: seq<nat>) {
    Ascending(todo)
    && forall i: nat :: i in todo <==> i < |m.blocks| && (m.lastFailed.Some? ==> m.blocks[i] >= m.lastFailed.value)
  }

  /** The first blocks to do were accepted, with consecutive nonces. */
  predicate Settles(m: Metadata, world: World, todo: seq<nat>, base: nat, sent: seq<Transaction>, hashes: seq<Hash>) {
    |sent| == |hashes| <= |todo|
    && forall j :: 0 <= j < |sent| ==> SentFor(m, world, todo[j], base + j, sent[j], hashes[j])
  }

  // ---- The handler ----------------------------------------------------------------------------

  class SettlementClient {
    var sent: seq<Transaction>

    /** update_state_with_blobs: the transaction counts as sent when its hash comes back. */
    method UpdateStateWithBlobs(world: World, t: Transaction) returns (r: Option<Hash>)
      modifies this
      ensures r == world.accept(t)
      ensures sent == old(sent) + (if r.Some? then [t] else [])
    {
      r := world.accept(t);
      if r.Some? {
        sent := sent + [t];
      }
    }
  }

  class JobItem {
    var specific: Metadata
  }

  /** validate_block_numbers accepts exactly the non-empty, strictly ascending lists that continue the
      settled blocks; each error is that of the first check that fails. */
  method ValidateBlockNumbers(world: World, blocks: seq<nat>) returns (r: Result<(), Failure>)
    ensures r.Ok? <==>
              blocks != [] && Ascending(blocks) && world.lastSettled.Some? && world.lastSettled.value + 1 == blocks[0]
    ensures r == Err(BlockNumberNotFound) <==> blocks == []
    ensures r == Err(DuplicateBlockNumbers) <==> exists i, j :: 0 <= i < j < |blocks| && blocks[i] == blocks[j]
    ensures r == Err(UnsortedBlockNumbers) <==>
              (forall i, j :: 0 <= i < j < |blocks| ==> blocks[i] != blocks[j])
              && exists i, j :: 0 <= i < j < |blocks| && blocks[i] > blocks[j]
    ensures r == Err(ClientError) <==> blocks != [] && Ascending(blocks) && world.lastSettled.None?
    ensures r == Err(GapBetweenFirstAndLastBlock) <==>
              blocks != [] && Ascending(blocks) && world.lastSettled.Some? && world.lastSettled.value + 1 != blocks[0]
  {
    ChecksMeanAscending(blocks);
    if blocks == [] {
      return Err(BlockNumberNotFound);
    }
    var dup := HasDup(blocks);
    if dup {
      return Err(DuplicateBlockNumbers);
    }
    if !IsSorted(blocks) {
      return Err(UnsortedBlockNumbers);
    }
    if world.lastSettled.None? {
      return Err(ClientError);
    }
    if world.lastSettled.value + 1 != blocks[0] {
      return Err(GapBetweenFirstAndLastBlock);
    }
    return Ok(());
  }

  /** What the job's metadata becomes once the blocks with the given hashes were sent. */
  function Recorded(m: Metadata, hashes: seq<Hash>): Metadata {
    if hashes == [] then m else m.(txHashes := hashes)
  }

  /** How the settlement loop ends after its last accepted transaction. */
  predicate Stops(m: Metadata, world: World, todo: seq<nat>, base: nat, hashes: seq<Hash>, after: Metadata,
                  r: Result<nat, Failure>)
  {
    var k := |hashes|;
    match r
    case Ok(last) =>
      k == |todo| && m.blocks != [] && last == m.blocks[|m.blocks| - 1] && after == Recorded(m, hashes)
    case Err(BlockFailed(block)) =>
      k < |todo| && todo[k] < |m.blocks| && block == m.blocks[todo[k]] && Refuses(m, world, todo[k], base + k)
      && after == m.(lastFailed := Some(block), txHashes := hashes)
    case Err(FetchError) => k < |todo| && FileMissing(m, world, todo[k]) && after == Recorded(m, hashes)
    case Err(Panicked) =>
      k < |todo| && !FileMissing(m, world, todo[k]) && world.useKzgDa(m.snosOutputs[todo[k]]) == Some(0)
      && after == Recorded(m, hashes)
    case Err(_) => false
  }

  lemma TodoMeans(m: Metadata)
    ensures IsTodo(m, Todo(m.blocks, Bound(m)))
  {
    TodoCorrect(m.blocks, Bound(m));
  }

  /** process_job: after validation, one transaction for every block from the last failed one on, in
      ascending order and with consecutive nonces; it stops at the first block that fails. */
  method ProcessJob(world: World, client: SettlementClient, job: JobItem)
    returns (r: Result<nat, Failure>, ghost todo: seq<nat>, ghost hashes: seq<Hash>)
    modifies client, job
    ensures old(client.sent) <= client.sent
    ensures var m := old(job.specific);
            var sent := client.sent[|old(client.sent)|..];
            if m.blocks != [] && Ascending(m.blocks)
               && world.lastSettled.Some? && world.lastSettled.value + 1 == m.blocks[0] && world.nonce.Some?
            then
              IsTodo(m, todo) && Settles(m, world, todo, world.nonce.value, sent, hashes)
              && Stops(m, world, todo, world.nonce.value, hashes, job.specific, r)
            else r.Err? && sent == [] && hashes == [] && job.specific == m
  {
    todo, hashes := [], [];
    var valid := ValidateBlockNumbers(world, job.specific.blocks);
    if valid.Err? {
      return Err(valid.error), [], [];
    }
    if world.nonce.None? {
      return Err(ClientError), [], [];
    }
    r, todo, hashes := SendBlocks(world, client, job, world.nonce.value);
  }

  /** The settlement loop. */
  method SendBlocks(world: World, client: SettlementClient, job: JobItem, base: nat)
    returns (r: Result<nat, Failure>, ghost positions: seq<nat>, ghost sentHashes: seq<Hash>)
    requires job.specific.blocks != []
    modifies client, job
    ensures old(client.sent) <= client.sent
    ensures IsTodo(old(job.specific), positions)
    ensures Settles(old(job.specific), world, positions, base, client.sent[|old(client.sent)|..], sentHashes)
    ensures Stops(old(job.specific), world, positions, base, sentHashes, job.specific, r)
  {
    var m := job.specific;
    var todo := Todo(m.blocks, Bound(m));
    TodoMeans(m);
    positions := todo;
    var metadata := m;
    var nonce := base;
    var hashes: seq<Hash> := [];
    var k := 0;
    while k < |todo|
      invariant 0 <= k <= |todo| && |hashes| == k && nonce == base + k
      invariant old(client.sent) <= client.sent && |client.sent| == |old(client.sent)| + k
      invariant Settles(m, world, todo, base, client.sent[|old(client.sent)|..], hashes)
      invariant metadata == Recorded(m, hashes) && job.specific == metadata
    {
      var i := todo[k];
      assert i in todo;
      var attempt := SendBlock(world, client, m, i, nonce);
      match attempt
      case Unfetched => return Err(FetchError), todo, hashes;
      case Crashed => return Err(Panicked), todo, hashes;
      case Refused =>
        metadata := metadata.(lastFailed := Some(m.blocks[i]));
        metadata := metadata.(txHashes := hashes);
        job.specific := metadata;
        return Err(BlockFailed(m.blocks[i])), todo, hashes;
      case Accepted(t, hash) =>
        hashes := hashes + [hash];
        metadata := metadata.(txHashes := hashes);
        job.specific := metadata;
        nonce := nonce + 1;
        k := k + 1;
    }
    return Ok(m.blocks[|m.blocks| - 1]), todo, hashes;
  }

  /** The three files of position i are fetched and the block sent, if its SNOS run used blobs. */
  method SendBlock(world: World, client: SettlementClient, m: Metadata, i: nat, nonce: nat) returns (r: Attempt)
    modifies client
    ensures match r
            case Unfetched => FileMissing(m, world, i)
            case Crashed => !FileMissing(m, world, i) && world.useKzgDa(m.snosOutputs[i]) == Some(0)
            case Refused => Refuses(m, world, i, nonce)
            case Accepted(t, hash) => SentFor(m, world, i, nonce, t, hash)
    ensures client.sent == old(client.sent) + (if r.Accepted? then [r.transaction] else [])
  {
    if i >= |m.snosOutputs| {
      return Unfetched;
    }
    var useKzgDa := world.useKzgDa(m.snosOutputs[i]);
    if useKzgDa.None? || i >= |m.programOutputs| {
      return Unfetched;
    }
    var output := world.programOutput(m.programOutputs[i]);
    if output.None? || i >= |m.blobs| {
      return Unfetched;
    }
    var blob := world.blob(m.blobs[i]);
    if blob.None? {
      return Unfetched;
    }
    if useKzgDa.value == 0 {
      return Crashed;
    } else if useKzgDa.value == 1 {
      var t := Transaction(nonce, output.value, blob.value);
      var hash := client.UpdateStateWithBlobs(world, t);
      return if hash.Some? then Accepted(t, hash.value) else Refused;
    } else {
      return Refused;
    }
  }

  // ---- Verification ---------------------------------------------------------------------------

  /** The transaction landed: at once, or after it was waited for. */
  predicate Lands(world: World, hash: Hash) {
    world.inclusion(hash, 0) == Some(Verified)
    || (world.inclusion(hash, 0) == Some(Pending) && world.finality(hash) && world.inclusion(hash, 1) == Some(Verified))
  }

  /** The first n hashes are paired with blocks, and their transactions landed. */
  predicate AllLanded(world: World, m: Metadata, n: nat) {
    n <= |m.txHashes| && n <= |m.blocks| && forall j :: 0 <= j < n ==> Lands(world, m.txHashes[j])
  }

  predicate AllPairsLanded(world: World, m: Metadata) {
    AllLanded(world, m, if |m.txHashes| < |m.blocks| then |m.txHashes| else |m.blocks|)
  }

  /** verify_job: verified exactly when every paired transaction landed and the last settled block is the
      job's last; rejected exactly when one was rejected, at once or after it was waited for, behind others
      that landed, or when the block differs. A transaction that is still pending and an empty list have
      errors of their own; any other error is the client's. The job is not changed. */
  method VerifyJob(world: World, m: Metadata) returns (r: Result<bool, Failure>)
    ensures r == Ok(true) <==>
              (forall j :: 0 <= j < |m.txHashes| && j < |m.blocks| ==>
                 world.inclusion(m.txHashes[j], 0) == Some(Verified)
                 || (world.inclusion(m.txHashes[j], 0) == Some(Pending) && world.finality(m.txHashes[j])
                     && world.inclusion(m.txHashes[j], 1) == Some(Verified)))
              && m.blocks != [] && world.lastSettled == Some(m.blocks[|m.blocks| - 1])
    ensures r == Ok(false) <==>
              (exists j :: 0 <= j < |m.txHashes| && j < |m.blocks| && AllLanded(world, m, j)
                 && (world.inclusion(m.txHashes[j], 0) == Some(Rejected)
                     || (world.inclusion(m.txHashes[j], 0) == Some(Pending) && world.finality(m.txHashes[j])
                         && world.inclusion(m.txHashes[j], 1) == Some(Rejected))))
              || (m.blocks != [] && AllPairsLanded(world, m) && world.lastSettled.Some?
                  && world.lastSettled.value != m.blocks[|m.blocks| - 1])
    ensures r == Err(StillPendingAfterFinality) <==>
              exists j :: 0 <= j < |m.txHashes| && j < |m.blocks| && AllLanded(world, m, j)
                && world.inclusion(m.txHashes[j], 0) == Some(Pending) && world.finality(m.txHashes[j])
                && world.inclusion(m.txHashes[j], 1) == Some(Pending)
    ensures r == Err(EmptyBlockNumberList) <==> m.blocks == []
    ensures r.Err? ==> r.error in {StillPendingAfterFinality, EmptyBlockNumberList, ClientError}
  {
    var j := 0;
    while j < |m.txHashes| && j < |m.blocks|
      invariant 0 <= j <= |m.txHashes| && j <= |m.blocks| && AllLanded(world, m, j)
    {
      var hash := m.txHashes[j];
      var status := world.inclusion(hash, 0);
      if status == Some(Pending) {
        if !world.finality(hash) {
          return Err(ClientError);
        }
        status := world.inclusion(hash, 1);
        if status == Some(Pending) {
          return Err(StillPendingAfterFinality);
        }
      }
      if status.None? {
        return Err(ClientError);
      }
      if status.value == Rejected {
        return Ok(false);
      }
      j := j + 1;
    }
    if m.blocks == [] {
      return Err(EmptyBlockNumberList);
    }
    if world.lastSettled.None? {
      return Err(ClientError);
    }
    return Ok(world.lastSettled.value == m.blocks[|m.blocks| - 1]);
  }

  // ---- Together -------------------------------------------------------------------------------

  /** In a first run that ends well every block was sent, its hash stored at its own position; if every
      hash then passes verification, each of these transactions landed. */
  lemma FirstRunVerifiesEveryBlock(before: World, after: World, m: Metadata, todo: seq<nat>, base: nat,
                                   sent: seq<Transaction>, hashes: seq<Hash>, stored: Metadata, last: nat)
    requires m.lastFailed.None? && IsTodo(m, todo)
    requires Settles(m, before, todo, base, sent, hashes) && Stops(m, before, todo, base, hashes, stored, Ok(last))
    requires AllPairsLanded(after, stored)
    ensures |stored.txHashes| == |m.blocks| && last == m.blocks[|m.blocks| - 1]
    ensures forall j :: 0 <= j < |m.blocks| ==>
              SentFor(m, before, j, base + j, sent[j], stored.txHashes[j])
              && (after.inclusion(stored.txHashes[j], 0) == Some(Verified)
                  || (after.inclusion(stored.txHashes[j], 0) == Some(Pending) && after.finality(stored.txHashes[j])
                      && after.inclusion(stored.txHashes[j], 1) == Some(Verified)))
  {
    AllBelow(todo, |m.blocks|);
    assert stored.txHashes == hashes;
    forall j | 0 <= j < |m.blocks| ensures SentFor(m, before, j, base + j, sent[j], hashes[j]) && Lands(after, hashes[j]) {
      assert todo[j] == j;
    }
  }

  /** The blocks sent are those not below the failed one, each exactly once and in ascending order, the
      nonces counting up from the account's; when the run ends well, none of them is left. */
  lemma SentInOrder(m: Metadata, world: World, todo: seq<nat>, base: nat, sent: seq<Transaction>, hashes: seq<Hash>)
    requires Ascending(m.blocks) && IsTodo(m, todo) && Settles(m, world, todo, base, sent, hashes)
    ensures forall j :: 0 <= j < |sent| ==>
              todo[j] < |m.blocks| && (m.lastFailed.Some? ==> m.blocks[todo[j]] >= m.lastFailed.value)
              && sent[j].nonce == base + j
              && world.programOutput(m.programOutputs[todo[j]]) == Some(sent[j].programOutput)
              && world.blob(m.blobs[todo[j]]) == Some(sent[j].blob)
    ensures forall j, k :: 0 <= k < j < |sent| ==> m.blocks[todo[k]] < m.blocks[todo[j]]
    ensures forall after, r :: Stops(m, world, todo, base, hashes, after, r) && r.Ok? ==> |sent| == |todo|
    ensures forall i: nat :: i < |m.blocks| && (m.lastFailed.Some? ==> m.blocks[i] >= m.lastFailed.value) ==> i in todo
  {
    forall j | 0 <= j < |sent|
      ensures todo[j] < |m.blocks| && (m.lastFailed.Some? ==> m.blocks[todo[j]] >= m.lastFailed.value)
    {
      assert todo[j] in todo;
    }
  }

  /** The j-th hash is checked against the j-th block; it was sent for the j-th block to do. They agree
      throughout exactly when the run did not skip a block. */
  lemma HashesLineUpIff(m: Metadata, todo: seq<nat>)
    requires Ascending(m.blocks) && m.blocks != [] && IsTodo(m, todo)
    ensures (forall j :: 0 <= j < |todo| ==> todo[j] == j)
            <==> todo == [] || m.lastFailed.None? || m.blocks[0] >= m.lastFailed.value
  {
    if m.lastFailed.None? || m.blocks[0] >= m.lastFailed.value {
      forall i: nat ensures i in todo <==> i < |m.blocks| {
        assert 0 < i < |m.blocks| ==> m.blocks[0] < m.blocks[i];
      }
      AllBelow(todo, |m.blocks|);
    } else if todo != [] {
      var first := todo[0];
      assert first in todo && first != 0;
    }
  }

  /** A settlement layer with all files at hand that accepts the transactions below a nonce, and numbers
      their hashes by it. */
  function AcceptsBelow(limit: nat, nonce: nat, lastSettled: nat): World {
    World(Some(lastSettled), Some(nonce), _ => Some(1), _ => Some([]), _ => Some([]),
          (t: Transaction) => if t.nonce < limit then Some(100 + t.nonce) else None,
          (_: Hash, _: nat) => Some(Verified), (_: Hash) => true)
  }

  /** A job over blocks 5 and 6. */
  function TwoBlocks(): Metadata {
    Metadata([5, 6], [Path(5, SnosOutput), Path(6, SnosOutput)], [Path(5, ProgramOutput), Path(6, ProgramOutput)],
             [Path(5, BlobData), Path(6, BlobData)], None, [])
  }

  /** A run that is resumed stores hashes that verification pairs with the wrong blocks: block 6 is refused
      after block 5 was sent; the second run sends block 6 only; its hash is then stored at the position of
      block 5, and the job is verified although nobody asked about the transaction of block 5. */
  lemma ResumedRunMispairs() returns (stored: Metadata, final: Metadata, sent: Transaction)
    ensures var m, first, second := TwoBlocks(), AcceptsBelow(1, 0, 4), AcceptsBelow(9, 1, 4);
            IsTodo(m, [0, 1]) && IsTodo(stored, [1])
            && Settles(m, first, [0, 1], 0, [Transaction(0, [], [])], [100])
            && Stops(m, first, [0, 1], 0, [100], stored, Err(BlockFailed(6)))
            && Settles(stored, second, [1], 1, [sent], [101]) && Stops(stored, second, [1], 1, [101], final, Ok(6))
    ensures final.blocks == [5, 6] && final.txHashes == [101]
    ensures SentFor(stored, AcceptsBelow(9, 1, 4), 1, 1, sent, 101)
    ensures var after := AcceptsBelow(9, 1, 6);
            AllPairsLanded(after, final) && after.lastSettled == Some(6)
  {
    var m := TwoBlocks();
    stored := m.(lastFailed := Some(6), txHashes := [100]);
    final := stored.(txHashes := [101]);
    sent := Transaction(1, [], []);
  }

  function Started(d: Details): Metadata
    requires d.TransitionDetails?
  {
    Metadata(d.blocks, d.snosOutputs, d.programOutputs, d.blobs, None, [])
  }

  /** The jobs the pipeline creates fit the handler: their blocks are ascending from the job's id, so they
      pass validation exactly when they continue the settled ones. */
  lemma PipelineJobsFit(cfg: Range, ls: seq<Label>, id: nat)
    requires Run(cfg, START, ls).Some? && Key(StateTransition, id) in Run(cfg, START, ls).value.db
    ensures var d := Run(cfg, START, ls).value.db[Key(StateTransition, id)].details;
            d.TransitionDetails? && d.blocks != [] && Ascending(d.blocks) && d.blocks[0] == id
  {
    SettlementRuns.PathsMatchBlocks(cfg, ls, id);
    SettlementChain.RunKeeps(cfg, ls);
    SettlementRuns.JobBlocks(cfg, Run(cfg, START, ls).value.db, id);
  }

  /** What is sent for a block of such a job is made of that block's own files. */
  lemma PipelineJobsSendOwnFiles(cfg: Range, ls: seq<Label>, id: nat, world: World, i: nat, nonce: nat,
                                 t: Transaction, hash: Hash)
    requires Run(cfg, START, ls).Some? && Key(StateTransition, id) in Run(cfg, START, ls).value.db
    requires var d := Run(cfg, START, ls).value.db[Key(StateTransition, id)].details;
             d.TransitionDetails? && SentFor(Started(d), world, i, nonce, t, hash)
    ensures var d := Run(cfg, START, ls).value.db[Key(StateTransition, id)].details;
            i < |d.blocks|
            && world.useKzgDa(Path(d.blocks[i], SnosOutput)) == Some(1)
            && world.programOutput(Path(d.blocks[i], ProgramOutput)) == Some(t.programOutput)
            && world.blob(Path(d.blocks[i], BlobData)) == Some(t.blob)
  {
    SettlementRuns.PathsMatchBlocks(cfg, ls, id);
  }
}
