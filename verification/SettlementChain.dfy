/** Gap-free settlement. However many orchestrators run their workers at once, on however stale reads, the
    state transition jobs form one chain of block runs; every job's ancestors exist; and the file paths a
    state transition job carries belong to its blocks, position by position. */
module SettlementChain {
  import opened Outcomes
  import opened SortedLists
  import JobProtocol
  import JobSafety
  import opened Pipeline

  // ---- What every job looks like --------------------------------------------------------------

  predicate InRange(cfg: Range, block: nat) {
    FirstBlock(cfg) <= block && (cfg.maxBlock.Some? ==> block <= cfg.maxBlock.value)
  }

  /** Entry i of paths is the given file of block i, for the first n blocks. */
  predicate Aligned(paths: seq<Path>, blocks: seq<nat>, n: nat, file: File) {
    n <= |blocks| && |paths| == n && forall i :: 0 <= i < n ==> paths[i] == Path(blocks[i], file)
  }

  predicate RunFrom(blocks: seq<nat>, first: nat) {
    1 <= |blocks| <= MAX_BLOCKS && Consecutive(blocks) && blocks[0] == first
  }

  predicate Submitted(db: Database, blocks: seq<nat>) {
    forall i :: 0 <= i < |blocks| ==> Key(DataSubmission, blocks[i]) in db
  }

  predicate TransitionOk(db: Database, d: Details, first: nat) {
    d.TransitionDetails? && RunFrom(d.blocks, first) && Submitted(db, d.blocks)
    && Aligned(d.snosOutputs, d.blocks, |d.blocks|, SnosOutput)
    && Aligned(d.programOutputs, d.blocks, |d.blocks|, ProgramOutput)
    && Aligned(d.blobs, d.blocks, |d.blocks|, BlobData)
  }

  /** The details every job of a type has, up to the fact its handler records, and the job it came from. */
  predicate JobOk(db: Database, key: Key)
    requires key in db
  {
    var d := db[key].details;
    match key.jobType
    case SnosRun => d.SnosDetails? && d == SnosJob(key.id).(fact := d.fact)
    case ProofCreation =>
      d.ProvingDetails? && d.block == key.id && d.input == Some(Path(key.id, CairoPie)) && d.registration.Some?
      && Key(SnosRun, key.id) in db
    case DataSubmission =>
      d == DaDetails(key.id, Some(Path(key.id, BlobData))) && Key(ProofCreation, key.id) in db
    case StateTransition => TransitionOk(db, d, key.id)
  }

  predicate JobsOk(cfg: Range, db: Database) {
    forall key :: key in db ==> JobOk(db, key) && InRange(cfg, key.id)
  }

  // ---- The chain ------------------------------------------------------------------------------

  function Blocks(db: Database, id: nat): seq<nat> {
    var key := Key(StateTransition, id);
    if key in db && db[key].details.TransitionDetails? then db[key].details.blocks else []
  }

  /** The block after the last one of a state transition job. */
  function End(db: Database, id: nat): nat {
    id + |Blocks(db, id)|
  }

  /** Each job starts where the one before it ended; the first one at the minimum block. */
  ghost predicate ChainOk(cfg: Range, db: Database, chain: seq<nat>) {
    (forall i :: 0 <= i < |chain| ==> Key(StateTransition, chain[i]) in db)
    && (forall key :: key in db && key.jobType == StateTransition ==> key.id in chain)
    && (chain != [] ==> chain[0] == FirstBlock(cfg))
    && (forall i, j :: 0 <= i < j < |chain| && j == i + 1 ==> chain[j] == End(db, chain[i]))
  }

  // ---- Workers --------------------------------------------------------------------------------

  /** A worker that read the given latest job settles from the given block on. */
  predicate StartsAt(cfg: Range, db: Database, latest: Option<nat>, first: nat) {
    if latest.None? then first == FirstBlock(cfg)
    else Key(StateTransition, latest.value) in db && first == End(db, latest.value)
  }

  predicate CollectingOk(cfg: Range, db: Database, x: Worker)
    requires x.Collecting?
  {
    var d := x.details;
    d.TransitionDetails? && d.blocks == x.blocks && x.done < |x.blocks|
    && RunFrom(x.blocks, x.blocks[0]) && Submitted(db, x.blocks) && StartsAt(cfg, db, x.latest, x.blocks[0])
    && Aligned(d.snosOutputs, x.blocks, if x.daNext then x.done + 1 else x.done, SnosOutput)
    && Aligned(d.programOutputs, x.blocks, if x.daNext then x.done + 1 else x.done, ProgramOutput)
    && Aligned(d.blobs, x.blocks, x.done, BlobData)
  }

  predicate WorkerOk(cfg: Range, db: Database, x: Worker) {
    match x
    case Fetched(latest, last) =>
      StartsAt(cfg, db, latest, NextBlock(cfg, last)) && (latest.None? <==> last.None?)
    case Collecting(_, _, _, _, _) => CollectingOk(cfg, db, x)
    case Creating(latest, d) =>
      d.TransitionDetails? && d.blocks != [] && TransitionOk(db, d, d.blocks[0]) && StartsAt(cfg, db, latest, d.blocks[0])
    case SnosLoop(next, end) => FirstBlock(cfg) <= next && (cfg.maxBlock.Some? ==> end <= cfg.maxBlock.value + 1)
    case ProvingLoop(jobs) =>
      forall i :: 0 <= i < |jobs| ==>
        Key(SnosRun, jobs[i].id) in db && jobs[i].details.SnosDetails?
        && jobs[i].details == SnosJob(jobs[i].id).(fact := jobs[i].details.fact)
    case DaLoop(jobs) =>
      forall i :: 0 <= i < |jobs| ==>
        Key(ProofCreation, jobs[i].id) in db && jobs[i].details.ProvingDetails? && jobs[i].details.block == jobs[i].id
  }

  predicate WorkersOk(cfg: Range, s: State) {
    forall w :: w in s.workers ==> WorkerOk(cfg, s.db, s.workers[w])
  }

  ghost predicate Inv(cfg: Range, s: State) {
    JobsOk(cfg, s.db) && ChainOk(cfg, s.db, s.chain) && WorkersOk(cfg, s)
  }

  // ---- Databases only grow --------------------------------------------------------------------

  predicate SameButFact(a: Details, b: Details) {
    a == b || (a.SnosDetails? && b.SnosDetails? && b == a.(fact := b.fact))
  }

  predicate Grows(a: Database, b: Database) {
    forall key :: key in a ==> key in b && SameButFact(a[key].details, b[key].details)
  }

  lemma WorkerGrows(cfg: Range, a: Database, b: Database, x: Worker)
    requires WorkerOk(cfg, a, x) && Grows(a, b)
    ensures WorkerOk(cfg, b, x)
  {
  }

  lemma JobGrows(a: Database, b: Database, key: Key)
    requires key in a && JobOk(a, key) && Grows(a, b)
    ensures JobOk(b, key)
  {
  }

  lemma ChainGrows(cfg: Range, a: Database, b: Database, chain: seq<nat>)
    requires ChainOk(cfg, a, chain) && Grows(a, b)
    requires forall key :: key in b && key.jobType == StateTransition ==> key in a
    ensures ChainOk(cfg, b, chain)
  {
    forall i | 0 <= i < |chain| ensures End(b, chain[i]) == End(a, chain[i]) {
      assert Key(StateTransition, chain[i]) in a;
    }
  }

  // ---- Each step keeps the invariant ----------------------------------------------------------

  lemma GotoKeeps(cfg: Range, s: State, w: nat, x: Worker)
    requires Inv(cfg, s) && WorkerOk(cfg, s.db, x)
    ensures Inv(cfg, Goto(s, w, x))
  {
  }

  lemma LeaveKeeps(cfg: Range, s: State, w: nat)
    requires Inv(cfg, s)
    ensures Inv(cfg, Leave(s, w))
  {
  }

  /** Sorting a run and taking the last element gives its largest block. */
  lemma LastOfRun(blocks: seq<nat>, first: nat)
    requires RunFrom(blocks, first)
    ensures LastBlock(blocks) == Some(first + |blocks| - 1)
  {
    var sorted := SortBy(blocks, Identity);
    SortByCorrect(blocks, Identity);
    var top, last := blocks[|blocks| - 1], sorted[|sorted| - 1];
    SameMembers(sorted, blocks, last);
    SameMembers(sorted, blocks, top);
    var k :| 0 <= k < |sorted| && sorted[k] == top;
    assert k < |sorted| - 1 ==> Identity(sorted[k]) <= Identity(last);
  }

  lemma FetchLatestKeeps(cfg: Range, s: State, w: nat, latest: Option<nat>)
    requires Inv(cfg, s) && FetchLatestStep(s, w, latest).Some?
    ensures Inv(cfg, FetchLatestStep(s, w, latest).value)
  {
    if latest.Some? {
      var key := Key(StateTransition, latest.value);
      assert JobOk(s.db, key);
      LastOfRun(s.db[key].details.blocks, latest.value);
      GotoKeeps(cfg, s, w, Fetched(latest, LastBlock(s.db[key].details.blocks)));
    } else {
      GotoKeeps(cfg, s, w, Fetched(None, None));
    }
  }

  /** The planned blocks are consecutive, submitted, and start where the latest job ended. */
  lemma PlanIsOk(cfg: Range, db: Database, latest: Option<nat>, last: Option<nat>, found: seq<nat>)
    requires if last.Some? then IsAfter(db, DataSubmission, last.value, found)
             else IsWithoutSuccessor(db, DataSubmission, StateTransition, found)
    requires StartsAt(cfg, db, latest, NextBlock(cfg, last)) && Plan(cfg, last, found).Some?
    ensures var blocks := Plan(cfg, last, found).value;
            CollectingOk(cfg, db, Collecting(latest, blocks, EMPTY.(blocks := blocks), false, 0))
  {
    PlanCorrect(cfg, last, found);
    var blocks := Plan(cfg, last, found).value;
    forall i | 0 <= i < |blocks| ensures Key(DataSubmission, blocks[i]) in db {
      assert IsCompleted(db, Key(DataSubmission, blocks[i]));
    }
  }

  lemma FetchDaKeeps(cfg: Range, s: State, w: nat, found: seq<nat>)
    requires Inv(cfg, s) && w in s.workers && s.workers[w].Fetched?
    requires FetchDaStep(cfg, s, w, s.workers[w].latest, s.workers[w].last, found).Some?
    ensures Inv(cfg, FetchDaStep(cfg, s, w, s.workers[w].latest, s.workers[w].last, found).value)
  {
    var x := s.workers[w];
    assert WorkerOk(cfg, s.db, x);
    var plan := Plan(cfg, x.last, found);
    if plan.Some? {
      PlanIsOk(cfg, s.db, x.latest, x.last, found);
      GotoKeeps(cfg, s, w, Collecting(x.latest, plan.value, EMPTY.(blocks := plan.value), false, 0));
    } else {
      LeaveKeeps(cfg, s, w);
    }
  }

  /** A submitted block has a proving job and a SNOS job, with the block's own paths. */
  lemma Ancestors(cfg: Range, db: Database, block: nat)
    requires JobsOk(cfg, db) && Key(DataSubmission, block) in db
    ensures db[Key(DataSubmission, block)].details == DaDetails(block, Some(Path(block, BlobData)))
    ensures Key(ProofCreation, block) in db
    ensures Key(SnosRun, block) in db && db[Key(SnosRun, block)].details.SnosDetails?
    ensures db[Key(SnosRun, block)].details.snosOutput == Some(Path(block, SnosOutput))
    ensures db[Key(SnosRun, block)].details.programOutput == Some(Path(block, ProgramOutput))
  {
    assert JobOk(db, Key(DataSubmission, block));
    assert JobOk(db, Key(ProofCreation, block));
    assert JobOk(db, Key(SnosRun, block));
  }

  /** Neither lookup of a state transition worker comes back empty. */
  lemma LookupsSucceed(cfg: Range, s: State, w: nat)
    requires Inv(cfg, s) && w in s.workers && s.workers[w].Collecting?
    ensures CollectingOk(cfg, s.db, s.workers[w])
    ensures var b := s.workers[w].blocks[s.workers[w].done];
            Key(SnosRun, b) in s.db && s.db[Key(SnosRun, b)].details.SnosDetails?
            && Key(DataSubmission, b) in s.db && s.db[Key(DataSubmission, b)].details.DaDetails?
  {
    assert WorkerOk(cfg, s.db, s.workers[w]);
    Ancestors(cfg, s.db, s.workers[w].blocks[s.workers[w].done]);
  }

  lemma AlignedPush(paths: seq<Path>, blocks: seq<nat>, n: nat, file: File)
    requires Aligned(paths, blocks, n, file) && n < |blocks|
    ensures Aligned(Push(paths, Some(Path(blocks[n], file))), blocks, n + 1, file)
  {
  }

  lemma LookupSnosOk(cfg: Range, s: State, w: nat, x: Worker) returns (y: Worker)
    requires JobsOk(cfg, s.db) && x.Collecting? && !x.daNext && CollectingOk(cfg, s.db, x)
    ensures LookupSnosStep(s, w, x) == Goto(s, w, y) && WorkerOk(cfg, s.db, y)
  {
    Ancestors(cfg, s.db, x.blocks[x.done]);
    AlignedPush(x.details.snosOutputs, x.blocks, x.done, SnosOutput);
    AlignedPush(x.details.programOutputs, x.blocks, x.done, ProgramOutput);
    y := LookupSnosStep(s, w, x).workers[w];
  }

  lemma LookupSnosKeeps(cfg: Range, s: State, w: nat)
    requires Inv(cfg, s) && Fits(s, LookupSnos(w))
    ensures Inv(cfg, LookupSnosStep(s, w, s.workers[w]))
  {
    assert WorkerOk(cfg, s.db, s.workers[w]);
    var y := LookupSnosOk(cfg, s, w, s.workers[w]);
    GotoKeeps(cfg, s, w, y);
  }

  lemma LookupDaOk(cfg: Range, s: State, w: nat, x: Worker) returns (y: Worker)
    requires JobsOk(cfg, s.db) && x.Collecting? && x.daNext && CollectingOk(cfg, s.db, x)
    ensures LookupDaStep(s, w, x) == Goto(s, w, y) && WorkerOk(cfg, s.db, y)
  {
    Ancestors(cfg, s.db, x.blocks[x.done]);
    AlignedPush(x.details.blobs, x.blocks, x.done, BlobData);
    y := LookupDaStep(s, w, x).workers[w];
  }

  lemma LookupDaKeeps(cfg: Range, s: State, w: nat)
    requires Inv(cfg, s) && Fits(s, LookupDa(w))
    ensures Inv(cfg, LookupDaStep(s, w, s.workers[w]))
  {
    assert WorkerOk(cfg, s.db, s.workers[w]);
    var y := LookupDaOk(cfg, s, w, s.workers[w]);
    GotoKeeps(cfg, s, w, y);
  }

  lemma SuccessorPresent(cfg: Range, db: Database, chain: seq<nat>, i: nat)
    requires ChainOk(cfg, db, chain) && i + 1 < |chain|
    ensures Key(StateTransition, End(db, chain[i])) in db
  {
    var j := i + 1;
    assert chain[j] == End(db, chain[i]) && Key(StateTransition, chain[j]) in db;
  }

  /** A worker that still finds its first block free read the last job of the chain. */
  lemma LatestIsLast(cfg: Range, db: Database, chain: seq<nat>, latest: Option<nat>, first: nat)
    requires ChainOk(cfg, db, chain) && StartsAt(cfg, db, latest, first)
    requires Key(StateTransition, first) !in db
    ensures latest.None? ==> chain == []
    ensures latest.Some? ==> chain != [] && latest.value == chain[|chain| - 1]
  {
    if latest.Some? {
      var key := Key(StateTransition, latest.value);
      assert key.id in chain;
      var i :| 0 <= i < |chain| && chain[i] == latest.value;
      if i + 1 < |chain| {
        SuccessorPresent(cfg, db, chain, i);
      }
    }
  }

  lemma EndKept(db: Database, key: Key, d: Details, id: nat)
    requires Key(StateTransition, id) in db && key !in db
    ensures End(InsertJob(db, key, d), id) == End(db, id)
  {
  }

  lemma AppendKeeps(cfg: Range, db: Database, chain: seq<nat>, id: nat, d: Details)
    requires ChainOk(cfg, db, chain) && Key(StateTransition, id) !in db
    requires if chain == [] then id == FirstBlock(cfg) else id == End(db, chain[|chain| - 1])
    ensures ChainOk(cfg, InsertJob(db, Key(StateTransition, id), d), chain + [id])
  {
    var db', chain' := InsertJob(db, Key(StateTransition, id), d), chain + [id];
    forall i | 0 <= i < |chain| ensures End(db', chain[i]) == End(db, chain[i]) {
      EndKept(db, Key(StateTransition, id), d, chain[i]);
    }
    forall k | k in db' && k.jobType == StateTransition ensures k.id in chain' {
      assert k in db ==> k.id in chain;
      assert chain'[|chain|] == id;
    }
    forall i, j | 0 <= i < j < |chain'| && j == i + 1 ensures chain'[j] == End(db', chain'[i]) {
      assert j < |chain| ==> chain[j] == End(db, chain[i]);
    }
  }

  lemma InsertGrows(db: Database, key: Key, d: Details)
    ensures Grows(db, InsertJob(db, key, d))
  {
  }

  lemma InsertJobsOk(cfg: Range, db: Database, key: Key, d: Details)
    requires JobsOk(cfg, db) && key !in db && InRange(cfg, key.id)
    requires JobOk(InsertJob(db, key, d), key)
    ensures JobsOk(cfg, InsertJob(db, key, d))
  {
    InsertGrows(db, key, d);
    forall k | k in db ensures JobOk(InsertJob(db, key, d), k) && InRange(cfg, k.id) {
      JobGrows(db, InsertJob(db, key, d), k);
    }
  }

  lemma InsertWorkersOk(cfg: Range, s: State, key: Key, d: Details)
    requires WorkersOk(cfg, s)
    ensures WorkersOk(cfg, s.(db := InsertJob(s.db, key, d)))
  {
    InsertGrows(s.db, key, d);
    forall w | w in s.workers ensures WorkerOk(cfg, InsertJob(s.db, key, d), s.workers[w]) {
      WorkerGrows(cfg, s.db, InsertJob(s.db, key, d), s.workers[w]);
    }
  }

  lemma TransitionGrows(a: Database, b: Database, d: Details, first: nat)
    requires TransitionOk(a, d, first) && Grows(a, b)
    ensures TransitionOk(b, d, first)
  {
  }

  lemma TransitionJobsOk(cfg: Range, db: Database, latest: Option<nat>, d: Details, key: Key)
    requires JobsOk(cfg, db) && WorkerOk(cfg, db, Creating(latest, d))
    requires key == Key(StateTransition, d.blocks[0]) && key !in db
    ensures JobsOk(cfg, InsertJob(db, key, d))
  {
    assert Key(DataSubmission, d.blocks[0]) in db;
    InsertGrows(db, key, d);
    TransitionGrows(db, InsertJob(db, key, d), d, key.id);
    InsertJobsOk(cfg, db, key, d);
  }

  lemma TransitionChainOk(cfg: Range, db: Database, chain: seq<nat>, latest: Option<nat>, d: Details, key: Key)
    requires ChainOk(cfg, db, chain) && WorkerOk(cfg, db, Creating(latest, d))
    requires key == Key(StateTransition, d.blocks[0]) && key !in db
    ensures ChainOk(cfg, InsertJob(db, key, d), chain + [key.id])
  {
    LatestIsLast(cfg, db, chain, latest, key.id);
    AppendKeeps(cfg, db, chain, key.id, d);
  }

  /** A new state transition job extends the chain. */
  lemma TransitionInserted(cfg: Range, s: State, latest: Option<nat>, d: Details)
    requires Inv(cfg, s) && WorkerOk(cfg, s.db, Creating(latest, d)) && Key(StateTransition, d.blocks[0]) !in s.db
    ensures var id := d.blocks[0];
            Inv(cfg, s.(db := InsertJob(s.db, Key(StateTransition, id), d), chain := s.chain + [id]))
  {
    var key := Key(StateTransition, d.blocks[0]);
    TransitionJobsOk(cfg, s.db, latest, d, key);
    TransitionChainOk(cfg, s.db, s.chain, latest, d, key);
    InsertWorkersOk(cfg, s, key, d);
  }

  lemma CreateTransitionKeeps(cfg: Range, s: State, w: nat)
    requires Inv(cfg, s) && Fits(s, CreateTransition(w))
    ensures Inv(cfg, CreateTransitionStep(s, w, s.workers[w].details))
  {
    var x := s.workers[w];
    assert WorkerOk(cfg, s.db, x);
    LeaveKeeps(cfg, s, w);
    if Key(StateTransition, x.details.blocks[0]) !in s.db {
      TransitionInserted(cfg, Leave(s, w), x.latest, x.details);
    }
  }

  /** Creating a job of another type, if it is not there yet. */
  lemma InsertKeeps(cfg: Range, s: State, key: Key, d: Details)
    requires Inv(cfg, s) && key.jobType != StateTransition && InRange(cfg, key.id)
    requires JobOk(s.db[key := Document(JobProtocol.Created, d)], key)
    ensures Inv(cfg, s.(db := InsertJob(s.db, key, d)))
  {
    if key !in s.db {
      InsertGrows(s.db, key, d);
      InsertJobsOk(cfg, s.db, key, d);
      InsertWorkersOk(cfg, s, key, d);
      ChainGrows(cfg, s.db, InsertJob(s.db, key, d), s.chain);
    } else {
      assert s.(db := InsertJob(s.db, key, d)) == s;
    }
  }

  lemma CreateSnosKeeps(cfg: Range, s: State, w: nat, ok: bool)
    requires Inv(cfg, s) && w in s.workers && s.workers[w].SnosLoop?
    ensures Inv(cfg, CreateSnosStep(s, w, s.workers[w].next, s.workers[w].end, ok))
  {
    var x := s.workers[w];
    assert WorkerOk(cfg, s.db, x);
    if x.next >= x.end {
      LeaveKeeps(cfg, s, w);
    } else {
      var key := Key(SnosRun, x.next);
      InsertKeeps(cfg, s, key, SnosJob(x.next));
      GotoKeeps(cfg, if ok then s.(db := InsertJob(s.db, key, SnosJob(x.next))) else s, w, SnosLoop(x.next + 1, x.end));
    }
  }

  lemma FetchProvingKeeps(cfg: Range, s: State, w: nat, found: seq<nat>)
    requires Inv(cfg, s) && FetchProvingStep(s, w, found).Some?
    ensures Inv(cfg, FetchProvingStep(s, w, found).value)
  {
    forall i | 0 <= i < |found| ensures Key(SnosRun, found[i]) in s.db && JobOk(s.db, Key(SnosRun, found[i])) {
      assert IsCompleted(s.db, Key(SnosRun, found[i]));
    }
    GotoKeeps(cfg, s, w, ProvingLoop(Fetch(s.db, SnosRun, found)));
  }

  lemma CreateProvingKeeps(cfg: Range, s: State, w: nat, ok: bool)
    requires Inv(cfg, s) && w in s.workers && s.workers[w].ProvingLoop?
    ensures Inv(cfg, CreateProvingStep(s, w, s.workers[w].jobs, ok))
  {
    var jobs := s.workers[w].jobs;
    assert WorkerOk(cfg, s.db, s.workers[w]);
    if jobs == [] {
      LeaveKeeps(cfg, s, w);
    } else {
      var from, key := jobs[0].details, Key(ProofCreation, jobs[0].id);
      var d := ProvingDetails(from.block, from.cairoPie, from.fact);
      var t := s;
      if ok && from.fact.Some? {
        InsertKeeps(cfg, s, key, d);
        InsertGrows(s.db, key, d);
        t := s.(db := InsertJob(s.db, key, d));
      }
      WorkerGrows(cfg, s.db, t.db, s.workers[w]);
      assert WorkerOk(cfg, t.db, ProvingLoop(jobs[1..]));
      GotoKeeps(cfg, t, w, ProvingLoop(jobs[1..]));
    }
  }

  lemma FetchDataKeeps(cfg: Range, s: State, w: nat, found: seq<nat>)
    requires Inv(cfg, s) && FetchDataStep(s, w, found).Some?
    ensures Inv(cfg, FetchDataStep(s, w, found).value)
  {
    forall i | 0 <= i < |found| ensures Key(ProofCreation, found[i]) in s.db && JobOk(s.db, Key(ProofCreation, found[i])) {
      assert IsCompleted(s.db, Key(ProofCreation, found[i]));
    }
    GotoKeeps(cfg, s, w, DaLoop(Fetch(s.db, ProofCreation, found)));
  }

  lemma CreateDataKeeps(cfg: Range, s: State, w: nat, ok: bool)
    requires Inv(cfg, s) && w in s.workers && s.workers[w].DaLoop?
    ensures Inv(cfg, CreateDataStep(s, w, s.workers[w].jobs, ok))
  {
    var jobs := s.workers[w].jobs;
    assert WorkerOk(cfg, s.db, s.workers[w]);
    if jobs == [] {
      LeaveKeeps(cfg, s, w);
    } else {
      var block, key := jobs[0].details.block, Key(DataSubmission, jobs[0].id);
      var d := DaDetails(block, Some(Path(block, BlobData)));
      var t := s;
      if ok {
        InsertKeeps(cfg, s, key, d);
        InsertGrows(s.db, key, d);
        t := s.(db := InsertJob(s.db, key, d));
      }
      WorkerGrows(cfg, s.db, t.db, s.workers[w]);
      assert WorkerOk(cfg, t.db, DaLoop(jobs[1..]));
      GotoKeeps(cfg, t, w, DaLoop(jobs[1..]));
    }
  }

  /** A status change, with a new fact for a SNOS job at most. */
  lemma StatusKeeps(cfg: Range, s: State, key: Key, doc: Document)
    requires Inv(cfg, s) && key in s.db && SameButFact(s.db[key].details, doc.details)
    ensures Inv(cfg, s.(db := s.db[key := doc]))
  {
    var db := s.db[key := doc];
    assert Grows(s.db, db);
    ChainGrows(cfg, s.db, db, s.chain);
    forall k | k in db ensures JobOk(db, k) && InRange(cfg, k.id) {
      JobGrows(s.db, db, k);
    }
    forall w | w in s.workers ensures WorkerOk(cfg, db, s.workers[w]) {
      WorkerGrows(cfg, s.db, db, s.workers[w]);
    }
  }

  /** Every step of every worker keeps the invariant. */
  lemma StepKeeps(cfg: Range, s: State, l: Label)
    requires Inv(cfg, s) && Next(cfg, s, l).Some?
    ensures Inv(cfg, Next(cfg, s, l).value)
  {
    match l
    case FetchLatest(w, latest) => FetchLatestKeeps(cfg, s, w, latest);
    case FetchDa(w, found) => FetchDaKeeps(cfg, s, w, found);
    case LookupSnos(w) => LookupSnosKeeps(cfg, s, w);
    case LookupDa(w) => LookupDaKeeps(cfg, s, w);
    case CreateTransition(w) => CreateTransitionKeeps(cfg, s, w);
    case FetchSnos(w, _, _) => GotoKeeps(cfg, s, w, Next(cfg, s, l).value.workers[w]);
    case CreateSnos(w, ok) => CreateSnosKeeps(cfg, s, w, ok);
    case FetchProving(w, found) => FetchProvingKeeps(cfg, s, w, found);
    case CreateProving(w, ok) => CreateProvingKeeps(cfg, s, w, ok);
    case FetchData(w, found) => FetchDataKeeps(cfg, s, w, found);
    case CreateData(w, ok) => CreateDataKeeps(cfg, s, w, ok);
    case Move(key, _, _) => StatusKeeps(cfg, s, key, Next(cfg, s, l).value.db[key]);
    case Reopen(key) => StatusKeeps(cfg, s, key, Next(cfg, s, l).value.db[key]);
    case Stop(w) => LeaveKeeps(cfg, s, w);
  }

  lemma {:induction false} RunKeeps(cfg: Range, ls: seq<Label>)
    requires Run(cfg, START, ls).Some?
    ensures Inv(cfg, Run(cfg, START, ls).value)
  {
    if ls != [] {
      var n := |ls| - 1;
      RunKeeps(cfg, ls[..n]);
      StepKeeps(cfg, Run(cfg, START, ls[..n]).value, ls[n]);
    }
  }
}
