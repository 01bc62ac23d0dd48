/** The workers that create jobs, block by block: SNOS, proving, data submission and state transition
    (crates/orchestrator/src/workers). Any number of them run at once; every database query is a step of
    its own, so what a worker read may be out of date when it acts. */
module Pipeline {
  import opened Outcomes
  import opened SortedLists
  import JobProtocol
  import JobSafety

  type Status = JobProtocol.Status

  datatype JobType = SnosRun | ProofCreation | DataSubmission | StateTransition

  datatype File = CairoPie | SnosOutput | ProgramOutput | BlobData

  /** The storage path of a block's file. */
  datatype Path = Path(block: nat, file: File)

  datatype Details =
    | SnosDetails(block: nat, cairoPie: Option<Path>, snosOutput: Option<Path>, programOutput: Option<Path>,
                  fact: Option<nat>)
    | ProvingDetails(block: nat, input: Option<Path>, registration: Option<nat>)
    | DaDetails(block: nat, blobData: Option<Path>)
    | TransitionDetails(blocks: seq<nat>, snosOutputs: seq<Path>, programOutputs: seq<Path>, blobs: seq<Path>)

  /** Jobs are unique by type and internal id; internal ids are block numbers. */
  datatype Key = Key(jobType: JobType, id: nat)

  datatype Document = Document(status: Status, details: Details)

  type Database = map<Key, Document>

  datatype Range = Range(minBlock: Option<nat>, maxBlock: Option<nat>)

  function FirstBlock(cfg: Range): nat {
    if cfg.minBlock.Some? then cfg.minBlock.value else 0
  }

  function Identity(n: nat): nat {
    n
  }

  // ---- Queries --------------------------------------------------------------------------------

  predicate IsCompleted(db: Database, key: Key) {
    key in db && db[key].status == JobProtocol.Completed
  }

  /** get_latest_job_by_type: the job of the type with the largest numeric id. */
  predicate IsLatest(db: Database, jobType: JobType, latest: Option<nat>) {
    match latest
    case None => forall key :: key in db ==> key.jobType != jobType
    case Some(id) =>
      Key(jobType, id) in db && forall key :: key in db && key.jobType == jobType ==> key.id <= id
  }

  /** get_jobs_without_successor: the completed jobs of type a with no job of type b and the same id. */
  predicate IsWithoutSuccessor(db: Database, a: JobType, b: JobType, found: seq<nat>) {
    DistinctBy(found, Identity)
    && (forall id :: id in found ==> IsCompleted(db, Key(a, id)) && Key(b, id) !in db)
    && (forall key :: key in db && key.jobType == a && IsCompleted(db, key) && Key(b, key.id) !in db ==> key.id in found)
  }

  /** get_jobs_after_internal_id_by_job_type: the completed jobs of a type with larger ids. */
  predicate IsAfter(db: Database, jobType: JobType, last: nat, found: seq<nat>) {
    DistinctBy(found, Identity)
    && (forall id :: id in found ==> IsCompleted(db, Key(jobType, id)) && id > last)
    && (forall key :: key in db && key.jobType == jobType && IsCompleted(db, key) && key.id > last ==> key.id in found)
  }

  /** create_job of the database: inserts only when no job has the same type and id. */
  function InsertJob(db: Database, key: Key, details: Details): Database {
    if key in db then db else db[key := Document(JobProtocol.Created, details)]
  }

  // ---- The blocks of a state transition -------------------------------------------------------

  predicate Consecutive(blocks: seq<nat>) {
    forall i :: 0 <= i < |blocks| ==> blocks[i] == blocks[0] + i
  }

  /** How far blocks continues, one by one, from its first element. */
  function RunLength(blocks: seq<nat>, from: nat): (n: nat)
    requires from <= |blocks|
    requires forall i :: 0 <= i < from ==> blocks[i] == blocks[0] + i
    ensures from <= n <= |blocks|
    ensures forall i :: 0 <= i < n ==> blocks[i] == blocks[0] + i
    ensures n < |blocks| ==> blocks[n] != blocks[0] + n
    decreases |blocks| - from
  {
    if from == |blocks| || blocks[from] != blocks[0] + from then from else RunLength(blocks, from + 1)
  }

  /** find_successive_blocks_in_vector: the longest consecutive beginning. */
  function FindSuccessive(blocks: seq<nat>): (r: seq<nat>)
    ensures r <= blocks && Consecutive(r)
    ensures forall longer :: r < longer <= blocks ==> !Consecutive(longer)
    ensures |r| < |blocks| ==> blocks[|r|] != blocks[0] + |r|
    ensures blocks != [] ==> r != []
  {
    var n := RunLength(blocks, 0);
    assert forall longer :: blocks[..n] < longer <= blocks ==> longer[n] == blocks[n] && longer[0] == blocks[0];
    blocks[..n]
  }

  const MAX_BLOCKS: nat := 10

  /** The block a state transition must start with. */
  function NextBlock(cfg: Range, last: Option<nat>): nat {
    if last.Some? then last.value + 1 else FirstBlock(cfg)
  }

  /** What the state transition worker decides to settle: nothing unless the next block is ready. */
  function Plan(cfg: Range, last: Option<nat>, found: seq<nat>): Option<seq<nat>> {
    var blocks := SortBy(found, Identity);
    if blocks == [] || blocks[0] != NextBlock(cfg, last) then None
    else
      var run := FindSuccessive(blocks);
      Some(if |run| > MAX_BLOCKS then run[..MAX_BLOCKS] else run)
  }

  lemma SameMembers(a: seq<nat>, b: seq<nat>, x: nat)
    requires multiset(a) == multiset(b)
    ensures x in a <==> x in b
  {
    assert x in a <==> x in multiset(a);
    assert x in b <==> x in multiset(b);
  }

  /** The decision is sound and greedy: at most ten consecutive ready blocks from the next one on, and
      fewer only when the following block is not ready. */
  lemma PlanCorrect(cfg: Range, last: Option<nat>, found: seq<nat>)
    requires DistinctBy(found, Identity) && Plan(cfg, last, found).Some?
    ensures var r := Plan(cfg, last, found).value;
            1 <= |r| <= 10
            && (forall i :: 0 <= i < |r| ==>
                  r[i] in found
                  && r[i] == (if last.Some? then last.value + 1
                              else if cfg.minBlock.Some? then cfg.minBlock.value else 0) + i)
            && (|r| < 10 ==> r[0] + |r| !in found)
  {
    var blocks := SortBy(found, Identity);
    SortByCorrect(found, Identity);
    SortDistinct(found, Identity);
    PlanIsCut(found, blocks, Plan(cfg, last, found).value, NextBlock(cfg, last));
  }

  lemma PlanIsCut(found: seq<nat>, blocks: seq<nat>, r: seq<nat>, first: nat)
    requires multiset(blocks) == multiset(found) && StrictlySortedBy(blocks, Identity)
    requires blocks != [] && blocks[0] == first
    requires var run := FindSuccessive(blocks); r == if |run| > MAX_BLOCKS then run[..MAX_BLOCKS] else run
    ensures 1 <= |r| <= MAX_BLOCKS && Consecutive(r) && r[0] == first
    ensures (forall i :: 0 <= i < |r| ==> r[i] in found) && (|r| < MAX_BLOCKS ==> first + |r| !in found)
  {
    var run := RunOf(found, blocks);
    CutRun(found, run, r);
  }

  lemma RunOf(found: seq<nat>, blocks: seq<nat>) returns (run: seq<nat>)
    requires multiset(blocks) == multiset(found) && StrictlySortedBy(blocks, Identity) && blocks != []
    ensures run == FindSuccessive(blocks) && run != [] && Consecutive(run) && run[0] == blocks[0]
    ensures (forall i :: 0 <= i < |run| ==> run[i] in found) && run[0] + |run| !in found
  {
    run := FindSuccessive(blocks);
    forall i | 0 <= i < |run| ensures run[i] in found {
      SameMembers(blocks, found, blocks[i]);
    }
    SameMembers(blocks, found, blocks[0] + |run|);
    FirstMissing(blocks, |run|);
  }

  lemma CutRun(found: seq<nat>, run: seq<nat>, r: seq<nat>)
    requires run != [] && Consecutive(run) && r == if |run| > MAX_BLOCKS then run[..MAX_BLOCKS] else run
    requires (forall i :: 0 <= i < |run| ==> run[i] in found) && run[0] + |run| !in found
    ensures 1 <= |r| <= MAX_BLOCKS && Consecutive(r) && r[0] == run[0]
    ensures (forall i :: 0 <= i < |r| ==> r[i] in found) && (|r| < MAX_BLOCKS ==> r[0] + |r| !in found)
  {
  }

  /** The worker holds back only when the next block is not ready. */
  lemma PlanHoldsBack(cfg: Range, last: Option<nat>, found: seq<nat>)
    requires forall b :: b in found ==> b >= NextBlock(cfg, last)
    ensures Plan(cfg, last, found).None? <==> NextBlock(cfg, last) !in found
  {
    var blocks := SortBy(found, Identity);
    var first := NextBlock(cfg, last);
    SortByCorrect(found, Identity);
    if blocks == [] || blocks[0] != first {
      NotReady(found, blocks, first);
    } else {
      SameMembers(blocks, found, blocks[0]);
    }
  }

  lemma NotReady(found: seq<nat>, blocks: seq<nat>, first: nat)
    requires multiset(blocks) == multiset(found) && SortedBy(blocks, Identity)
    requires blocks == [] || blocks[0] != first
    ensures (forall b :: b in found ==> b >= first) ==> first !in found
  {
    SameMembers(blocks, found, first);
    if blocks != [] {
      SameMembers(blocks, found, blocks[0]);
      assert forall i :: 0 <= i < |blocks| ==> Identity(blocks[0]) <= Identity(blocks[i]);
    }
  }

  /** After the longest consecutive beginning of an ascending list, the next number is missing. */
  lemma FirstMissing(blocks: seq<nat>, n: nat)
    requires StrictlySortedBy(blocks, Identity) && 0 < n <= |blocks|
    requires forall i :: 0 <= i < n ==> blocks[i] == blocks[0] + i
    requires n < |blocks| ==> blocks[n] != blocks[0] + n
    ensures blocks[0] + n !in blocks
  {
    forall i | 0 <= i < |blocks| ensures blocks[i] != blocks[0] + n {
      assert i >= n ==> Identity(blocks[n - 1]) < Identity(blocks[n]);
      assert i > n ==> Identity(blocks[n]) < Identity(blocks[i]);
    }
  }

  // ---- Workers --------------------------------------------------------------------------------

  /** A job a worker was given by a query. */
  datatype Found = Found(id: nat, details: Details)

  /** Where a worker stands: before its next query or insertion. */
  datatype Worker =
    | Fetched(latest: Option<nat>, last: Option<nat>)                  // update state: before the DA query
    | Collecting(latest: Option<nat>, blocks: seq<nat>, details: Details, daNext: bool, done: nat)
    | Creating(latest: Option<nat>, details: Details)                  // update state: before the insertion
    | SnosLoop(next: nat, end: nat)
    | ProvingLoop(jobs: seq<Found>)
    | DaLoop(jobs: seq<Found>)

  /** chain records the state transition jobs in the order they were created. */
  datatype State = State(db: Database, workers: map<nat, Worker>, chain: seq<nat>)

  const START: State := State(map[], map[], [])

  datatype Label =
    | FetchLatest(w: nat, latest: Option<nat>)
    | FetchDa(w: nat, found: seq<nat>)
    | LookupSnos(w: nat)
    | LookupDa(w: nat)
    | CreateTransition(w: nat)
    | FetchSnos(w: nat, latest: Option<nat>, tip: nat)
    | CreateSnos(w: nat, ok: bool)
    | FetchProving(w: nat, found: seq<nat>)
    | CreateProving(w: nat, ok: bool)
    | FetchData(w: nat, found: seq<nat>)
    | CreateData(w: nat, ok: bool)
    | Move(key: Key, to: Status, fact: Option<nat>)      // a committed write of the job protocol
    | Reopen(key: Key)                                  // queue_job_for_verification
    | Stop(w: nat)                                      // a worker fails or ends anywhere

  function Goto(s: State, w: nat, x: Worker): State {
    s.(workers := s.workers[w := x])
  }

  function Leave(s: State, w: nat): State {
    s.(workers := s.workers - {w})
  }

  /** The largest block a list names; the list is sorted and its last element taken. */
  function LastBlock(blocks: seq<nat>): Option<nat> {
    if blocks == [] then None else Some(SortBy(blocks, Identity)[|SortBy(blocks, Identity)| - 1])
  }

  const EMPTY: Details := TransitionDetails([], [], [], [])

  function Push<T>(list: seq<T>, item: Option<T>): seq<T> {
    if item.Some? then list + [item.value] else list
  }

  /** First query of the state transition worker: it goes on when the latest job is completed. */
  function FetchLatestStep(s: State, w: nat, latest: Option<nat>): Option<State> {
    if w in s.workers || !IsLatest(s.db, StateTransition, latest) then None
    else if latest.None? then Some(Goto(s, w, Fetched(None, None)))
    else
      var job := s.db[Key(StateTransition, latest.value)];
      if job.status != JobProtocol.Completed || !job.details.TransitionDetails? then Some(s)
      else if job.details.blocks == [] then Some(s)
      else Some(Goto(s, w, Fetched(latest, LastBlock(job.details.blocks))))
  }

  /** Second query: the data submission jobs that are ready, and the decision what to settle. */
  function FetchDaStep(cfg: Range, s: State, w: nat, latest: Option<nat>, last: Option<nat>, found: seq<nat>)
    : Option<State>
  {
    if !(if last.Some? then IsAfter(s.db, DataSubmission, last.value, found)
         else IsWithoutSuccessor(s.db, DataSubmission, StateTransition, found)) then None
    else
      var plan := Plan(cfg, last, found);
      if plan.None? then Some(Leave(s, w))
      else Some(Goto(s, w, Collecting(latest, plan.value, EMPTY.(blocks := plan.value), false, 0)))
  }

  /** The SNOS job of the next block, whose two paths are collected. */
  function LookupSnosStep(s: State, w: nat, x: Worker): State
    requires x.Collecting? && x.details.TransitionDetails? && x.done < |x.blocks|
  {
    var key := Key(SnosRun, x.blocks[x.done]);
    if key !in s.db || !s.db[key].details.SnosDetails? then Leave(s, w)
    else
      var found := s.db[key].details;
      Goto(s, w, x.(details := x.details.(snosOutputs := Push(x.details.snosOutputs, found.snosOutput),
                                          programOutputs := Push(x.details.programOutputs, found.programOutput)),
                    daNext := true))
  }

  /** The data submission job of the same block, whose blob path is collected. */
  function LookupDaStep(s: State, w: nat, x: Worker): State
    requires x.Collecting? && x.details.TransitionDetails? && x.done < |x.blocks|
  {
    var key := Key(DataSubmission, x.blocks[x.done]);
    if key !in s.db || !s.db[key].details.DaDetails? then Leave(s, w)
    else
      var details := x.details.(blobs := Push(x.details.blobs, s.db[key].details.blobData));
      if x.done + 1 == |x.blocks| then Goto(s, w, Creating(x.latest, details))
      else Goto(s, w, x.(details := details, daNext := false, done := x.done + 1))
  }

  /** The state transition job is created under its first block, unless there is one already or its
      handler misses a list of paths. */
  function CreateTransitionStep(s: State, w: nat, details: Details): State
    requires details.TransitionDetails? && details.blocks != []
  {
    var key := Key(StateTransition, details.blocks[0]);
    if key in s.db || details.snosOutputs == [] || details.programOutputs == [] || details.blobs == [] then Leave(s, w)
    else Leave(s, w).(db := InsertJob(s.db, key, details), chain := s.chain + [key.id])
  }

  function Min(a: nat, b: nat): nat {
    if a < b then a else b
  }

  function Max(a: nat, b: nat): nat {
    if a < b then b else a
  }

  /** The SNOS worker covers the blocks from its latest job, or the minimum, up to the chain's tip. */
  function FetchSnosStep(cfg: Range, s: State, w: nat, latest: Option<nat>, tip: nat): Option<State> {
    if w in s.workers || !IsLatest(s.db, SnosRun, latest) then None
    else
      var id := if latest.Some? then latest.value else 0;
      var from := if cfg.minBlock.Some? then Max(cfg.minBlock.value, id) else id;
      var to := if cfg.maxBlock.Some? then Min(cfg.maxBlock.value, tip) else tip;
      Some(Goto(s, w, SnosLoop(from, to + 1)))
  }

  function SnosJob(block: nat): Details {
    SnosDetails(block, Some(Path(block, CairoPie)), Some(Path(block, SnosOutput)), Some(Path(block, ProgramOutput)), None)
  }

  /** One turn of the loop; a failed creation is only logged. */
  function CreateSnosStep(s: State, w: nat, next: nat, end: nat, ok: bool): State {
    if next >= end then Leave(s, w)
    else
      Goto(s.(db := if ok then InsertJob(s.db, Key(SnosRun, next), SnosJob(next)) else s.db), w, SnosLoop(next + 1, end))
  }

  function Fetch(db: Database, jobType: JobType, ids: seq<nat>): seq<Found>
    requires forall id :: id in ids ==> Key(jobType, id) in db
  {
    seq(|ids|, i requires 0 <= i < |ids| => Found(ids[i], db[Key(jobType, ids[i])].details))
  }

  function FetchProvingStep(s: State, w: nat, found: seq<nat>): Option<State> {
    if w in s.workers || !IsWithoutSuccessor(s.db, SnosRun, ProofCreation, found) then None
    else Some(Goto(s, w, ProvingLoop(Fetch(s.db, SnosRun, found))))
  }

  /** A proving job for a SNOS job; skipped without a fact, ended by details of the wrong type. */
  function CreateProvingStep(s: State, w: nat, jobs: seq<Found>, ok: bool): State {
    if jobs == [] || !jobs[0].details.SnosDetails? then Leave(s, w)
    else
      var from := jobs[0].details;
      var db :=
        if !ok || from.fact.None? then s.db
        else InsertJob(s.db, Key(ProofCreation, jobs[0].id), ProvingDetails(from.block, from.cairoPie, from.fact));
      Goto(s.(db := db), w, ProvingLoop(jobs[1..]))
  }

  function FetchDataStep(s: State, w: nat, found: seq<nat>): Option<State> {
    if w in s.workers || !IsWithoutSuccessor(s.db, ProofCreation, DataSubmission, found) then None
    else Some(Goto(s, w, DaLoop(Fetch(s.db, ProofCreation, found))))
  }

  /** A data submission job for a proving job. */
  function CreateDataStep(s: State, w: nat, jobs: seq<Found>, ok: bool): State {
    if jobs == [] || !jobs[0].details.ProvingDetails? then Leave(s, w)
    else
      var block := jobs[0].details.block;
      var db :=
        if !ok then s.db
        else InsertJob(s.db, Key(DataSubmission, jobs[0].id), DaDetails(block, Some(Path(block, BlobData))));
      Goto(s.(db := db), w, DaLoop(jobs[1..]))
  }

  /** A job's status changes as its life cycle allows; its handler may record the SNOS fact. */
  function MoveStep(s: State, key: Key, to: Status, fact: Option<nat>): Option<State> {
    if key !in s.db || !JobSafety.DocumentedMove(s.db[key].status, to) then None
    else
      var details := s.db[key].details;
      var changed := if details.SnosDetails? then details.(fact := fact) else details;
      Some(s.(db := s.db[key := Document(to, changed)]))
  }

  function ReopenStep(s: State, key: Key): Option<State> {
    if key !in s.db then None
    else Some(s.(db := s.db[key := s.db[key].(status := JobProtocol.PendingVerification)]))
  }

  /** Whether a label fits where its worker stands. */
  predicate Fits(s: State, l: Label) {
    match l
    case FetchDa(w, _) => w in s.workers && s.workers[w].Fetched?
    case LookupSnos(w) =>
      w in s.workers && s.workers[w].Collecting? && !s.workers[w].daNext
      && s.workers[w].details.TransitionDetails? && s.workers[w].done < |s.workers[w].blocks|
    case LookupDa(w) =>
      w in s.workers && s.workers[w].Collecting? && s.workers[w].daNext
      && s.workers[w].details.TransitionDetails? && s.workers[w].done < |s.workers[w].blocks|
    case CreateTransition(w) =>
      w in s.workers && s.workers[w].Creating?
      && s.workers[w].details.TransitionDetails? && s.workers[w].details.blocks != []
    case CreateSnos(w, _) => w in s.workers && s.workers[w].SnosLoop?
    case CreateProving(w, _) => w in s.workers && s.workers[w].ProvingLoop?
    case CreateData(w, _) => w in s.workers && s.workers[w].DaLoop?
    case Stop(w) => w in s.workers
    case _ => true
  }

  /** One atomic step; none when the label is not enabled. */
  function Next(cfg: Range, s: State, l: Label): Option<State> {
    if !Fits(s, l) then None
    else
      match l
      case FetchLatest(w, latest) => FetchLatestStep(s, w, latest)
      case FetchDa(w, found) => FetchDaStep(cfg, s, w, s.workers[w].latest, s.workers[w].last, found)
      case LookupSnos(w) => Some(LookupSnosStep(s, w, s.workers[w]))
      case LookupDa(w) => Some(LookupDaStep(s, w, s.workers[w]))
      case CreateTransition(w) => Some(CreateTransitionStep(s, w, s.workers[w].details))
      case FetchSnos(w, latest, tip) => FetchSnosStep(cfg, s, w, latest, tip)
      case CreateSnos(w, ok) => Some(CreateSnosStep(s, w, s.workers[w].next, s.workers[w].end, ok))
      case FetchProving(w, found) => FetchProvingStep(s, w, found)
      case CreateProving(w, ok) => Some(CreateProvingStep(s, w, s.workers[w].jobs, ok))
      case FetchData(w, found) => FetchDataStep(s, w, found)
      case CreateData(w, ok) => Some(CreateDataStep(s, w, s.workers[w].jobs, ok))
      case Move(key, to, fact) => MoveStep(s, key, to, fact)
      case Reopen(key) => ReopenStep(s, key)
      case Stop(w) => Some(Leave(s, w))
  }

  /** A run: every label in turn; none when one is not enabled. */
  function Run(cfg: Range, s: State, ls: seq<Label>): Option<State> {
    if ls == [] then Some(s)
    else
      match Run(cfg, s, ls[..|ls| - 1])
      case None => None
      case Some(t) => Next(cfg, t, ls[|ls| - 1])
  }

  lemma RunSnoc(cfg: Range, s: State, ls: seq<Label>, l: Label)
    requires Run(cfg, s, ls).Some?
    ensures Run(cfg, s, ls + [l]) == Next(cfg, Run(cfg, s, ls).value, l)
  {
    assert (ls + [l])[..|ls|] == ls;
  }

  /** The last label of a run, and the state it was applied to. */
  lemma RunFront(cfg: Range, s: State, ls: seq<Label>, t: State) returns (front: State)
    requires ls != [] && Run(cfg, s, ls) == Some(t)
    ensures Run(cfg, s, ls[..|ls| - 1]) == Some(front) && Next(cfg, front, ls[|ls| - 1]) == Some(t)
  {
    front := Run(cfg, s, ls[..|ls| - 1]).value;
  }

  /** A run, and another one from its middle state that ends with one more label. */
  lemma RunExtend(cfg: Range, s: State, x: seq<Label>, t: State, y: seq<Label>, meet: State, u: State, longer: seq<Label>)
    requires y != [] && Run(cfg, t, y[..|y| - 1]) == Some(meet) && Run(cfg, t, y) == Some(u)
    requires Run(cfg, s, x) == Some(meet) && longer == x + [y[|y| - 1]]
    ensures Run(cfg, s, longer) == Some(u)
  {
    RunSnoc(cfg, s, x, y[|y| - 1]);
  }

  lemma FrontRuns(cfg: Range, s: State, ls: seq<Label>) returns (t: State)
    requires ls != [] && Run(cfg, s, ls).Some?
    ensures Run(cfg, s, ls[..|ls| - 1]) == Some(t)
  {
    t := Run(cfg, s, ls[..|ls| - 1]).value;
  }

  lemma EmptyRunJoins(cfg: Range, s: State, a: seq<Label>, t: State, b: seq<Label>, u: State)
    requires Run(cfg, s, a) == Some(t) && Run(cfg, t, b) == Some(u) && b == []
    ensures Run(cfg, s, a + b) == Some(u)
  {
    assert a + b == a;
  }

  lemma SnocJoin(a: seq<Label>, b: seq<Label>)
    requires b != []
    ensures a + b == a + b[..|b| - 1] + [b[|b| - 1]]
  {
  }

  lemma {:induction false} RunJoin(cfg: Range, s: State, a: seq<Label>, t: State, b: seq<Label>, u: State)
    requires Run(cfg, s, a) == Some(t) && Run(cfg, t, b) == Some(u)
    ensures Run(cfg, s, a + b) == Some(u)
  {
    if b == [] {
      EmptyRunJoins(cfg, s, a, t, b, u);
    } else {
      var meet := FrontRuns(cfg, t, b);
      RunJoin(cfg, s, a, t, b[..|b| - 1], meet);
      SnocJoin(a, b);
      RunExtend(cfg, s, a + b[..|b| - 1], t, b, meet, u, a + b);
    }
  }
}
