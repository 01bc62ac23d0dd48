/** The workers' run methods as they are written: queries, a local list that is sorted and cut, paths
    pushed block by block, and one creation at the end; other orchestrators act at every await. Each
    method is shown to be a run of the pipeline, so whatever holds of every run holds of it. */
module PipelineService {
  import opened Outcomes
  import opened SortedLists
  import JobProtocol
  import opened Pipeline
  import opened SettlementChain

  /** The worker a label belongs to, if any. */
  predicate By(l: Label, w: nat) {
    !l.Move? && !l.Reopen? && l.w == w
  }

  predicate Foreign(ls: seq<Label>, w: nat) {
    forall l :: l in ls ==> !By(l, w)
  }

  lemma ForeignStep(cfg: Range, s: State, l: Label, w: nat)
    requires !By(l, w) && Next(cfg, s, l).Some?
    ensures w in s.workers <==> w in Next(cfg, s, l).value.workers
    ensures w in s.workers ==> Next(cfg, s, l).value.workers[w] == s.workers[w]
  {
  }

  lemma {:induction false} ForeignRun(cfg: Range, s: State, ls: seq<Label>, w: nat)
    requires Foreign(ls, w) && Run(cfg, s, ls).Some?
    ensures w in s.workers <==> w in Run(cfg, s, ls).value.workers
    ensures w in s.workers ==> Run(cfg, s, ls).value.workers[w] == s.workers[w]
  {
    if ls != [] {
      var n := |ls| - 1;
      ForeignRun(cfg, s, ls[..n], w);
      ForeignStep(cfg, Run(cfg, s, ls[..n]).value, ls[n], w);
    }
  }

  // What a worker may rely on in a state that a run reached.

  lemma StandingIsOk(cfg: Range, ls: seq<Label>, s: State, w: nat)
    requires Run(cfg, START, ls) == Some(s) && w in s.workers
    ensures WorkerOk(cfg, s.db, s.workers[w])
  {
    RunKeeps(cfg, ls);
  }

  lemma LookupsFind(cfg: Range, ls: seq<Label>, s: State, w: nat)
    requires Run(cfg, START, ls) == Some(s) && w in s.workers && s.workers[w].Collecting?
    ensures s.workers[w].details.TransitionDetails? && s.workers[w].done < |s.workers[w].blocks|
    ensures var b := s.workers[w].blocks[s.workers[w].done];
            Key(SnosRun, b) in s.db && s.db[Key(SnosRun, b)].details.SnosDetails?
            && Key(DataSubmission, b) in s.db && s.db[Key(DataSubmission, b)].details.DaDetails?
  {
    RunKeeps(cfg, ls);
    LookupsSucceed(cfg, s, w);
  }

  lemma CreationEffect(cfg: Range, s: State, w: nat)
    requires w in s.workers && s.workers[w].Creating? && WorkerOk(cfg, s.db, s.workers[w])
    ensures s.workers[w].details.TransitionDetails? && s.workers[w].details.blocks != []
    ensures var t := Next(cfg, s, CreateTransition(w));
            var blocks := s.workers[w].details.blocks;
            Key(StateTransition, blocks[0]) !in s.db ==> (t.Some? && Blocks(t.value.db, blocks[0]) == blocks)
    ensures var t := Next(cfg, s, CreateTransition(w));
            var key := Key(StateTransition, s.workers[w].details.blocks[0]);
            t == Some(if key in s.db then Leave(s, w)
                      else Leave(s, w).(db := InsertJob(s.db, key, s.workers[w].details), chain := s.chain + [key.id]))
  {
  }

  lemma FetchSnosEffect(cfg: Range, s: State, w: nat, latest: Option<nat>, tip: nat)
    requires w !in s.workers && IsLatest(s.db, SnosRun, latest)
    ensures var id := if latest.Some? then latest.value else 0;
            var from := if cfg.minBlock.Some? && cfg.minBlock.value > id then cfg.minBlock.value else id;
            var to := if cfg.maxBlock.Some? && cfg.maxBlock.value < tip then cfg.maxBlock.value else tip;
            Next(cfg, s, FetchSnos(w, latest, tip)) == Some(Goto(s, w, SnosLoop(from, to + 1)))
  {
  }

  lemma StepKeepsJobs(cfg: Range, s: State, l: Label)
    requires Next(cfg, s, l).Some?
    ensures s.db.Keys <= Next(cfg, s, l).value.db.Keys
  {
  }

  lemma {:induction false} RunKeepsJobs(cfg: Range, s: State, ls: seq<Label>)
    requires Run(cfg, s, ls).Some?
    ensures s.db.Keys <= Run(cfg, s, ls).value.db.Keys
  {
    if ls != [] {
      var n := |ls| - 1;
      RunKeepsJobs(cfg, s, ls[..n]);
      StepKeepsJobs(cfg, Run(cfg, s, ls[..n]).value, ls[n]);
    }
  }

  /** Every block in [from, end) whose creation succeeds has its SNOS job. */
  predicate Covered(db: Database, from: nat, end: nat, succeeds: nat -> bool) {
    forall block :: from <= block < end && succeeds(block) ==> Key(SnosRun, block) in db.Keys
  }

  lemma CoveredGrows(a: Database, b: Database, from: nat, end: nat, succeeds: nat -> bool)
    requires Covered(a, from, end, succeeds) && a.Keys <= b.Keys
    requires succeeds(end) ==> Key(SnosRun, end) in b
    ensures Covered(b, from, end + 1, succeeds)
  {
  }

  /** The proving jobs that are new in b: each comes from a completed SNOS job of a, reads that block's own
      Cairo PIE, and checks the fact that the SNOS job recorded. */
  ghost predicate NewProofs(a: Database, b: Database) {
    (forall key :: key in a ==> key in b && b[key] == a[key])
    && forall key :: key in b && key !in a ==>
         key.jobType == ProofCreation && IsCompleted(a, Key(SnosRun, key.id))
         && a[Key(SnosRun, key.id)].details.SnosDetails? && a[Key(SnosRun, key.id)].details.fact.Some?
         && b[key] == Document(JobProtocol.Created,
                               ProvingDetails(key.id, Some(Path(key.id, CairoPie)), a[Key(SnosRun, key.id)].details.fact))
  }

  lemma ProofAdded(a: Database, b: Database, c: Database, id: nat)
    requires NewProofs(a, b) && Key(ProofCreation, id) !in b && IsCompleted(a, Key(SnosRun, id))
    requires a[Key(SnosRun, id)].details.SnosDetails? && a[Key(SnosRun, id)].details.fact.Some?
    requires c == b[Key(ProofCreation, id) :=
                    Document(JobProtocol.Created,
                             ProvingDetails(id, Some(Path(id, CairoPie)), a[Key(SnosRun, id)].details.fact))]
    ensures NewProofs(a, c)
  {
  }

  lemma ProvingEffect(cfg: Range, s: State, w: nat, jobs: seq<Found>, ok: bool, before: Database)
    requires w in s.workers && s.workers[w] == ProvingLoop(jobs) && jobs != [] && WorkerOk(cfg, s.db, s.workers[w])
    ensures Next(cfg, s, CreateProving(w, ok)).Some?
    ensures NewProofs(before, s.db) && IsCompleted(before, Key(SnosRun, jobs[0].id))
            && before[Key(SnosRun, jobs[0].id)].details == jobs[0].details
            ==> NewProofs(before, Next(cfg, s, CreateProving(w, ok)).value.db)
  {
    var id, db' := jobs[0].id, Next(cfg, s, CreateProving(w, ok)).value.db;
    if NewProofs(before, s.db) && IsCompleted(before, Key(SnosRun, id))
       && before[Key(SnosRun, id)].details == jobs[0].details && db' != s.db
    {
      ProofAdded(before, s.db, db', id);
    }
  }

  /** Nobody acts while the worker waits. */
  ghost predicate Alone(others: nat -> seq<Label>) {
    forall k :: others(k) == []
  }

  /** The block is ready to be the first of a state transition job. */
  predicate IsReady(db: Database, block: nat) {
    IsCompleted(db, Key(DataSubmission, block)) && Key(StateTransition, block) !in db
  }

  /** Where the next state transition job starts, given the newest one. */
  function NextStart(cfg: Range, db: Database, latest: Option<nat>): nat {
    if latest.Some? then End(db, latest.value) else FirstBlock(cfg)
  }

  /** The job's last block is the one before its end. */
  predicate EndsRightly(db: Database, id: nat)
    requires Key(StateTransition, id) in db
  {
    var d := db[Key(StateTransition, id)].details;
    d.TransitionDetails? && d.blocks != [] && LastBlock(d.blocks) == Some(End(db, id) - 1) && End(db, id) > id
  }

  lemma LastEndsIn(cfg: Range, db: Database, id: nat)
    requires JobsOk(cfg, db) && Key(StateTransition, id) in db
    ensures EndsRightly(db, id)
  {
    assert JobOk(db, Key(StateTransition, id));
    LastOfRun(db[Key(StateTransition, id)].details.blocks, id);
  }

  lemma JobsOkIn(cfg: Range, ls: seq<Label>, s: State)
    requires Run(cfg, START, ls) == Some(s)
    ensures JobsOk(cfg, s.db)
  {
    RunKeeps(cfg, ls);
  }

  lemma LastEnds(cfg: Range, ls: seq<Label>, s: State, id: nat)
    requires Run(cfg, START, ls) == Some(s) && Key(StateTransition, id) in s.db
    ensures EndsRightly(s.db, id)
  {
    JobsOkIn(cfg, ls, s);
    LastEndsIn(cfg, s.db, id);
  }

  /** The answer of the second query. */
  predicate Answers(db: Database, last: Option<nat>, found: seq<nat>) {
    if last.Some? then IsAfter(db, DataSubmission, last.value, found)
    else IsWithoutSuccessor(db, DataSubmission, StateTransition, found)
  }

  /** The decision of the worker, in terms of the database instead of the query's answer. */
  predicate MeansReady(cfg: Range, db: Database, last: Option<nat>, r: Option<seq<nat>>) {
    var first := NextBlock(cfg, last);
    (r.Some? <==> IsCompleted(db, Key(DataSubmission, first)) && (last.None? ==> Key(StateTransition, first) !in db))
    && (r.Some? ==> RunFrom(r.value, first) && (|r.value| < MAX_BLOCKS ==> !IsReady(db, first + |r.value|)))
  }

  lemma FoundBehind(cfg: Range, db: Database, last: Option<nat>, found: seq<nat>, b: nat)
    requires JobsOk(cfg, db) && Answers(db, last, found) && b in found
    ensures b >= NextBlock(cfg, last)
  {
    assert IsCompleted(db, Key(DataSubmission, b));
    assert InRange(cfg, Key(DataSubmission, b).id);
  }

  lemma FoundIff(cfg: Range, db: Database, last: Option<nat>, found: seq<nat>, b: nat)
    requires Answers(db, last, found) && b >= NextBlock(cfg, last)
    ensures b in found <==> IsCompleted(db, Key(DataSubmission, b)) && (last.None? ==> Key(StateTransition, b) !in db)
  {
    var key := Key(DataSubmission, b);
    assert key.id == b && key.jobType == DataSubmission;
  }

  /** There is a plan exactly when the next block is ready. */
  lemma PlanStarts(cfg: Range, db: Database, last: Option<nat>, found: seq<nat>, first: nat)
    requires JobsOk(cfg, db) && Answers(db, last, found) && first == NextBlock(cfg, last)
    ensures Plan(cfg, last, found).Some?
       <==> IsCompleted(db, Key(DataSubmission, first)) && (last.None? ==> Key(StateTransition, first) !in db)
  {
    forall b | b in found ensures b >= first {
      FoundBehind(cfg, db, last, found, b);
    }
    PlanHoldsBack(cfg, last, found);
    FoundIff(cfg, db, last, found, first);
  }

  /** The plan is cut short only before a block that is not ready. */
  lemma PlanStops(cfg: Range, db: Database, last: Option<nat>, found: seq<nat>, r: seq<nat>, first: nat)
    requires Answers(db, last, found) && Plan(cfg, last, found) == Some(r) && first == NextBlock(cfg, last)
    ensures RunFrom(r, first) && (|r| < MAX_BLOCKS ==> !IsReady(db, first + |r|))
  {
    PlanCorrect(cfg, last, found);
    FoundIff(cfg, db, last, found, first + |r|);
  }

  lemma PlanReadyIn(cfg: Range, db: Database, last: Option<nat>, found: seq<nat>)
    requires JobsOk(cfg, db) && Answers(db, last, found)
    ensures MeansReady(cfg, db, last, Plan(cfg, last, found))
  {
    var r := Plan(cfg, last, found);
    PlanStarts(cfg, db, last, found, NextBlock(cfg, last));
    if r.Some? {
      PlanStops(cfg, db, last, found, r.value, NextBlock(cfg, last));
    }
  }

  /** What the decision says about the block it starts with and the one it stops before. */
  lemma ReadyMeans(cfg: Range, db: Database, last: Option<nat>, r: Option<seq<nat>>, first: nat)
    requires MeansReady(cfg, db, last, r) && first == NextBlock(cfg, last)
    ensures r.None? ==> !IsReady(db, first)
    ensures r.Some? ==> r.value != [] && r.value[0] == first && (IsReady(db, first) <==> Key(StateTransition, first) !in db)
    ensures r.Some? && |r.value| < MAX_BLOCKS ==> !IsReady(db, first + |r.value|)
  {
  }

  lemma PlanMeansReady(cfg: Range, ls: seq<Label>, s: State, last: Option<nat>, found: seq<nat>)
    requires Run(cfg, START, ls) == Some(s) && Answers(s.db, last, found)
    ensures MeansReady(cfg, s.db, last, Plan(cfg, last, found))
  {
    JobsOkIn(cfg, ls, s);
    PlanReadyIn(cfg, s.db, last, found);
  }

  lemma FetchDaEffect(cfg: Range, s: State, w: nat, latest: Option<nat>, last: Option<nat>, found: seq<nat>)
    requires w in s.workers && s.workers[w] == Fetched(latest, last) && Answers(s.db, last, found)
    ensures var r := Plan(cfg, last, found);
            Next(cfg, s, FetchDa(w, found))
            == Some(if r.None? then Leave(s, w)
                    else Goto(s, w, Collecting(latest, r.value, EMPTY.(blocks := r.value), false, 0)))
  {
  }

  /** How the state transition worker ends. */
  datatype Ended = NothingToDo | Created(id: nat) | AlreadyExists | JobNotFound

  class Orchestrator {
    const cfg: Range
    var db: Database
    var workers: map<nat, Worker>
    var chain: seq<nat>
    ghost var labels: seq<Label>

    function View(): State
      reads this
    {
      State(db, workers, chain)
    }

    ghost predicate Valid()
      reads this
    {
      Run(cfg, START, labels) == Some(View())
    }

    constructor (cfg: Range)
      ensures Valid() && this.cfg == cfg && View() == START
    {
      this.cfg := cfg;
      db, workers, chain, labels := map[], map[], [], [];
    }

    function Standing(w: nat): Option<Worker>
      reads this
    {
      if w in workers then Some(workers[w]) else None
    }

    method Step(l: Label)
      requires Valid() && Next(cfg, View(), l).Some?
      modifies this
      ensures Valid() && labels == old(labels) + [l]
      ensures Next(cfg, old(View()), l) == Some(View())
    {
      var t := Next(cfg, View(), l).value;
      RunSnoc(cfg, START, labels, l);
      db, workers, chain := t.db, t.workers, t.chain;
      labels := labels + [l];
    }

    /** While worker w waits, the others do as they please. */
    method Await(w: nat, others: seq<Label>)
      requires Valid() && Foreign(others, w)
      modifies this
      ensures Valid() && old(labels) <= labels
      ensures Standing(w) == old(Standing(w)) && old(db.Keys) <= db.Keys
      ensures others == [] ==> View() == old(View())
    {
      match Run(cfg, View(), others)
      case None =>
      case Some(t) =>
        RunJoin(cfg, START, labels, View(), others, t);
        ForeignRun(cfg, View(), others, w);
        RunKeepsJobs(cfg, View(), others);
        db, workers, chain := t.db, t.workers, t.chain;
        labels := labels + others;
    }

    // ---- Queries ------------------------------------------------------------------------------

    method LatestByType(jobType: JobType) returns (latest: Option<nat>)
      ensures IsLatest(db, jobType, latest)
    {
      latest := None;
      var keys := db.Keys;
      while keys != {}
        invariant keys <= db.Keys
        invariant latest.Some? ==> Key(jobType, latest.value) in db
        invariant forall key ::
                    key in db && key !in keys && key.jobType == jobType ==> latest.Some? && key.id <= latest.value
      {
        var key :| key in keys;
        keys := keys - {key};
        if key.jobType == jobType && (latest.None? || key.id > latest.value) {
          latest := Some(key.id);
        }
      }
    }

    /** The ids of the jobs of a type that a filter accepts, in no particular order. */
    method Select(jobType: JobType, accepts: Key -> bool) returns (found: seq<nat>)
      ensures DistinctBy(found, Identity)
      ensures forall id :: id in found ==> Key(jobType, id) in db && accepts(Key(jobType, id))
      ensures forall key :: key in db && key.jobType == jobType && accepts(key) ==> key.id in found
    {
      found := [];
      var keys := db.Keys;
      while keys != {}
        invariant keys <= db.Keys
        invariant DistinctBy(found, Identity)
        invariant forall id ::
                    id in found ==> Key(jobType, id) in db && Key(jobType, id) !in keys && accepts(Key(jobType, id))
        invariant forall key :: key in db && key !in keys && key.jobType == jobType && accepts(key) ==> key.id in found
      {
        var key :| key in keys;
        keys := keys - {key};
        if key.jobType == jobType && accepts(key) {
          assert key.id !in found;
          found := found + [key.id];
        }
      }
    }

    method WithoutSuccessor(a: JobType, b: JobType) returns (found: seq<nat>)
      ensures IsWithoutSuccessor(db, a, b, found)
    {
      var jobs := db;
      found := Select(a, key => IsCompleted(jobs, key) && Key(b, key.id) !in jobs);
    }

    method AfterId(jobType: JobType, last: nat) returns (found: seq<nat>)
      ensures IsAfter(db, jobType, last, found)
    {
      var jobs := db;
      found := Select(jobType, key => IsCompleted(jobs, key) && key.id > last);
    }

    // ---- The state transition worker ----------------------------------------------------------

    /** UpdateStateWorker: settles the next run of blocks once the previous one is completed. Undisturbed,
        it creates a job exactly when the newest one is completed and the next block is ready, and the job
        takes as many ready blocks as it may. */
    method RunUpdateState(w: nat, others: nat -> seq<Label>) returns (r: Ended, ghost latest: Option<nat>)
      requires Valid() && w !in workers && forall k :: Foreign(others(k), w)
      modifies this
      ensures Valid() && w !in workers && old(labels) <= labels
      ensures IsLatest(old(db), StateTransition, latest)
      ensures r != JobNotFound
      ensures r.Created? ==> r.id == NextStart(cfg, old(db), latest) && chain != [] && chain[|chain| - 1] == r.id
      ensures r.Created? ==> latest.Some? ==> IsCompleted(old(db), Key(StateTransition, latest.value))
      ensures Alone(others) ==>
                (r.Created? <==>
                 (latest.Some? ==> IsCompleted(old(db), Key(StateTransition, latest.value)))
                 && IsReady(old(db), NextStart(cfg, old(db), latest)))
      ensures Alone(others) && r.Created? && |Blocks(db, r.id)| < MAX_BLOCKS ==> !IsReady(old(db), End(db, r.id))
    {
      var newest, ready := ReadLatest(w);
      latest := newest;
      if ready.None? {
        return NothingToDo, latest;
      }
      Await(w, others(0));
      r := SettleAfter(w, newest, ready.value, (k: nat) => others(k + 1));
    }

    /** The newest state transition job, and its last block; none when it is not completed yet. */
    method ReadLatest(w: nat) returns (latest: Option<nat>, last: Option<Option<nat>>)
      requires Valid() && w !in workers
      modifies this
      ensures Valid() && old(labels) <= labels
      ensures IsLatest(db, StateTransition, latest) && db == old(db)
      ensures last.None? <==> latest.Some? && !IsCompleted(db, Key(StateTransition, latest.value))
      ensures last.Some? ==> NextBlock(cfg, last.value) == NextStart(cfg, db, latest)
      ensures Standing(w) == if last.Some? then Some(Fetched(latest, last.value)) else None
    {
      latest := LatestByType(StateTransition);
      if latest.None? {
        last := Some(None);
      } else {
        var job := db[Key(StateTransition, latest.value)];
        if job.status != JobProtocol.Completed {
          return latest, None;
        }
        LastEnds(cfg, labels, View(), latest.value);
        last := Some(LastBlock(job.details.blocks));
      }
      Step(FetchLatest(w, latest));
    }

    /** The rest of the worker, from its second query on. */
    method SettleAfter(w: nat, latest: Option<nat>, last: Option<nat>, others: nat -> seq<Label>) returns (r: Ended)
      requires Valid() && Standing(w) == Some(Fetched(latest, last)) && forall k :: Foreign(others(k), w)
      modifies this
      ensures Valid() && w !in workers && old(labels) <= labels
      ensures r != JobNotFound
      ensures r.Created? ==> r.id == NextBlock(cfg, last) && chain != [] && chain[|chain| - 1] == r.id
      ensures Alone(others) ==> (r.Created? <==> IsReady(old(db), NextBlock(cfg, last)))
      ensures Alone(others) && r.Created? && |Blocks(db, r.id)| < MAX_BLOCKS ==> !IsReady(old(db), End(db, r.id))
    {
      var blocks := PlanBlocks(w, latest, last);
      ReadyMeans(cfg, db, last, blocks, NextBlock(cfg, last));
      if blocks.None? {
        return NothingToDo;
      }
      r := SettleBlocks(w, latest, blocks.value, others);
    }

    /** The planned blocks are settled by a new job, unless another worker was faster. */
    method SettleBlocks(w: nat, latest: Option<nat>, blocks: seq<nat>, others: nat -> seq<Label>) returns (r: Ended)
      requires Valid() && blocks != [] && forall k :: Foreign(others(k), w)
      requires Standing(w) == Some(Collecting(latest, blocks, EMPTY.(blocks := blocks), false, 0))
      modifies this
      ensures Valid() && w !in workers && old(labels) <= labels
      ensures r.Created? || r.AlreadyExists?
      ensures r.Created? ==> r.id == blocks[0] && chain != [] && chain[|chain| - 1] == r.id && Blocks(db, r.id) == blocks
      ensures Alone(others) ==> (r.Created? <==> Key(StateTransition, blocks[0]) !in old(db))
    {
      var details := Collect(w, latest, blocks, others);
      if details.None? {
        return JobNotFound;
      }
      Await(w, others(2 * |blocks|));
      r := CreateTransitionJob(w, latest, details.value);
    }

    /** The ready blocks are queried, sorted, checked against the last settled block and cut to a run. */
    method PlanBlocks(w: nat, latest: Option<nat>, last: Option<nat>) returns (r: Option<seq<nat>>)
      requires Valid() && Standing(w) == Some(Fetched(latest, last))
      modifies this
      ensures Valid() && old(labels) <= labels && db == old(db) && chain == old(chain)
      ensures Standing(w) == if r.Some? then Some(Collecting(latest, r.value, EMPTY.(blocks := r.value), false, 0)) else None
      ensures MeansReady(cfg, db, last, r)
    {
      var found := ReadyBlocks(last);
      PlanMeansReady(cfg, labels, View(), last, found);
      r := ChooseBlocks(last, found);
      FetchDaEffect(cfg, View(), w, latest, last, found);
      Step(FetchDa(w, found));
    }

    /** The second query depends on whether there was a state transition job. */
    method ReadyBlocks(last: Option<nat>) returns (found: seq<nat>)
      ensures Answers(db, last, found)
    {
      if last.Some? {
        found := AfterId(DataSubmission, last.value);
      } else {
        found := WithoutSuccessor(DataSubmission, StateTransition);
      }
    }

    /** The checks on the ready blocks, and the cut. */
    method ChooseBlocks(last: Option<nat>, found: seq<nat>) returns (r: Option<seq<nat>>)
      ensures r == Plan(cfg, last, found)
    {
      var blocks := SortBy(found, Identity);
      if blocks == [] {
        return None;
      }
      match last {
        case Some(lastBlock) =>
          if blocks[0] != lastBlock + 1 {
            return None;
          }
        case None =>
          var minBlock := if cfg.minBlock.Some? then cfg.minBlock.value else 0;
          if blocks[0] != minBlock {
            return None;
          }
      }
      blocks := FindSuccessive(blocks);
      if |blocks| > 10 {
        blocks := blocks[..10];
      }
      return Some(blocks);
    }

    /** For each block its SNOS job's paths and its data submission job's blob path are pushed. */
    method Collect(w: nat, latest: Option<nat>, blocks: seq<nat>, others: nat -> seq<Label>) returns (r: Option<Details>)
      requires Valid() && blocks != [] && forall k :: Foreign(others(k), w)
      requires Standing(w) == Some(Collecting(latest, blocks, EMPTY.(blocks := blocks), false, 0))
      modifies this
      ensures Valid() && old(labels) <= labels
      ensures r.Some? && r.value.TransitionDetails? && r.value.blocks == blocks
      ensures Standing(w) == Some(Creating(latest, r.value))
      ensures Alone(others) ==> db == old(db)
    {
      var details := EMPTY.(blocks := blocks);
      var i := 0;
      while i < |blocks|
        invariant 0 <= i <= |blocks| && Valid() && old(labels) <= labels
        invariant details.TransitionDetails? && details.blocks == blocks
        invariant Alone(others) ==> db == old(db)
        invariant Standing(w) == Some(if i < |blocks| then Collecting(latest, blocks, details, false, i)
                                      else Creating(latest, details))
      {
        Await(w, others(2 * i));
        var snos := CollectSnos(w, details, blocks[i], i);
        if snos.None? {
          return None;
        }
        details := snos.value;
        Await(w, others(2 * i + 1));
        var da := CollectBlob(w, details, blocks[i], i);
        if da.None? {
          return None;
        }
        details := da.value;
        i := i + 1;
      }
      return Some(details);
    }

    method CollectSnos(w: nat, details: Details, block: nat, i: nat) returns (r: Option<Details>)
      requires Valid() && details.TransitionDetails? && i < |details.blocks| && details.blocks[i] == block
      requires Standing(w).Some? && Standing(w).value.Collecting? && Standing(w).value.blocks == details.blocks
      requires Standing(w).value == Collecting(Standing(w).value.latest, details.blocks, details, false, i)
      modifies this
      ensures Valid() && old(labels) <= labels && db == old(db)
      ensures r.Some? && r.value.TransitionDetails? && r.value.blocks == details.blocks
      ensures Standing(w) == Some(old(Standing(w)).value.(details := r.value, daNext := true))
    {
      LookupsFind(cfg, labels, View(), w);
      var key := Key(SnosRun, block);
      if key !in db {
        return None;
      }
      var found := db[key].details;
      r := Some(details);
      if found.snosOutput.Some? {
        r := Some(r.value.(snosOutputs := r.value.snosOutputs + [found.snosOutput.value]));
      }
      if found.programOutput.Some? {
        r := Some(r.value.(programOutputs := r.value.programOutputs + [found.programOutput.value]));
      }
      Step(LookupSnos(w));
    }

    method CollectBlob(w: nat, details: Details, block: nat, i: nat) returns (r: Option<Details>)
      requires Valid() && details.TransitionDetails? && i < |details.blocks| && details.blocks[i] == block
      requires Standing(w).Some? && Standing(w).value.Collecting? && Standing(w).value.blocks == details.blocks
      requires Standing(w).value == Collecting(Standing(w).value.latest, details.blocks, details, true, i)
      modifies this
      ensures Valid() && old(labels) <= labels && db == old(db)
      ensures r.Some? && r.value.TransitionDetails? && r.value.blocks == details.blocks
      ensures var x := old(Standing(w)).value;
              Standing(w) == Some(if i + 1 == |details.blocks| then Creating(x.latest, r.value)
                                  else Collecting(x.latest, details.blocks, r.value, false, i + 1))
    {
      LookupsFind(cfg, labels, View(), w);
      var key := Key(DataSubmission, block);
      if key !in db {
        return None;
      }
      var found := db[key].details;
      r := Some(details);
      if found.blobData.Some? {
        r := Some(r.value.(blobs := r.value.blobs + [found.blobData.value]));
      }
      Step(LookupDa(w));
    }

    /** create_job for the state transition, under its first block. */
    method CreateTransitionJob(w: nat, latest: Option<nat>, details: Details) returns (r: Ended)
      requires Valid() && Standing(w) == Some(Creating(latest, details))
      modifies this
      ensures Valid() && w !in workers && old(labels) <= labels
      ensures r.Created? || r.AlreadyExists?
      ensures details.TransitionDetails? && details.blocks != []
      ensures r.Created? <==> Key(StateTransition, details.blocks[0]) !in old(db)
      ensures r.Created? ==> r.id == details.blocks[0] && chain == old(chain) + [r.id] && Blocks(db, r.id) == details.blocks
      ensures r.AlreadyExists? ==> db == old(db) && chain == old(chain)
    {
      StandingIsOk(cfg, labels, View(), w);
      CreationEffect(cfg, View(), w);
      var key := Key(StateTransition, details.blocks[0]);
      ghost var s := View();
      if key in db {
        r := AlreadyExists;
      } else {
        db := db[key := Document(JobProtocol.Created, details)];
        chain := chain + [key.id];
        r := Created(key.id);
      }
      workers := workers - {w};
      assert Next(cfg, s, CreateTransition(w)) == Some(View());
      RunSnoc(cfg, START, labels, CreateTransition(w));
      labels := labels + [CreateTransition(w)];
    }

    // ---- The workers that feed it -------------------------------------------------------------

    method Finish(w: nat)
      requires Valid() && w in workers
      modifies this
      ensures Valid() && w !in workers && old(labels) <= labels && db == old(db)
    {
      Step(Stop(w));
    }

    /** SnosWorker: one job for every block from the newest SNOS job, or the minimum, up to the tip; a
        creation that fails is only logged. */
    method RunSnos(w: nat, tip: nat, succeeds: nat -> bool, others: nat -> seq<Label>) returns (from: nat, to: nat)
      requires Valid() && w !in workers && forall k :: Foreign(others(k), w)
      modifies this
      ensures Valid() && w !in workers && old(labels) <= labels
      ensures cfg.minBlock.Some? ==> from >= cfg.minBlock.value
      ensures to <= tip && (cfg.maxBlock.Some? ==> to <= cfg.maxBlock.value) && (to == tip || cfg.maxBlock == Some(to))
      ensures forall key :: key in old(db) && key.jobType == SnosRun ==> key.id <= from
      ensures from == 0 || cfg.minBlock == Some(from) || Key(SnosRun, from) in old(db)
      ensures Covered(db, from, to + 1, succeeds)
    {
      from, to := SnosRange(w, tip);
      CreateSnosJobs(w, from, to + 1, succeeds, others);
      Finish(w);
    }

    method CreateSnosJobs(w: nat, from: nat, end: nat, succeeds: nat -> bool, others: nat -> seq<Label>)
      requires Valid() && Standing(w) == Some(SnosLoop(from, end)) && forall k :: Foreign(others(k), w)
      modifies this
      ensures Valid() && old(labels) <= labels && w in workers
      ensures Covered(db, from, end, succeeds)
    {
      var block := from;
      while block < end
        invariant from <= block && (block <= end || block == from)
        invariant Valid() && old(labels) <= labels
        invariant Standing(w) == Some(SnosLoop(block, end))
        invariant Covered(db, from, block, succeeds)
      {
        ghost var before := db;
        Await(w, others(block));
        CreateSnosJob(w, block, end, succeeds(block));
        CoveredGrows(before, db, from, block, succeeds);
        block := block + 1;
      }
    }

    /** The blocks to cover, from the newest job in the database and the tip of the chain. */
    method SnosRange(w: nat, tip: nat) returns (from: nat, to: nat)
      requires Valid() && w !in workers
      modifies this
      ensures Valid() && old(labels) <= labels && db == old(db)
      ensures Standing(w) == Some(SnosLoop(from, to + 1))
      ensures cfg.minBlock.Some? ==> from >= cfg.minBlock.value
      ensures to <= tip && (cfg.maxBlock.Some? ==> to <= cfg.maxBlock.value) && (to == tip || cfg.maxBlock == Some(to))
      ensures forall key :: key in db && key.jobType == SnosRun ==> key.id <= from
      ensures from == 0 || cfg.minBlock == Some(from) || Key(SnosRun, from) in db
    {
      to := if cfg.maxBlock.Some? && cfg.maxBlock.value < tip then cfg.maxBlock.value else tip;
      var latest := LatestByType(SnosRun);
      from := if latest.Some? then latest.value else 0;
      if cfg.minBlock.Some? && cfg.minBlock.value > from {
        from := cfg.minBlock.value;
      }
      FetchSnosEffect(cfg, View(), w, latest, tip);
      Step(FetchSnos(w, latest, tip));
    }

    method CreateSnosJob(w: nat, block: nat, end: nat, ok: bool)
      requires Valid() && Standing(w) == Some(SnosLoop(block, end)) && block < end
      modifies this
      ensures Valid() && old(labels) <= labels && old(db.Keys) <= db.Keys
      ensures Standing(w) == Some(SnosLoop(block + 1, end))
      ensures ok ==> Key(SnosRun, block) in db
    {
      StepKeepsJobs(cfg, View(), CreateSnos(w, ok));
      Step(CreateSnos(w, ok));
    }

    /** ProvingWorker: a proving job for every completed SNOS job that has none, if its fact is known. */
    method RunProving(w: nat, succeeds: nat -> bool, others: nat -> seq<Label>)
      requires Valid() && w !in workers && forall k :: Foreign(others(k), w)
      modifies this
      ensures Valid() && w !in workers && old(labels) <= labels
      ensures forall key :: key in old(db) && key.jobType == SnosRun && IsCompleted(old(db), key)
                && old(db)[key].details.SnosDetails? && old(db)[key].details.fact.Some? && succeeds(key.id)
                ==> Key(ProofCreation, key.id) in db
      ensures Alone(others) ==> NewProofs(old(db), db)
    {
      ghost var before := db;
      var jobs := FetchCompleted(w, SnosRun, ProofCreation);
      var i := 0;
      while i < |jobs|
        invariant 0 <= i <= |jobs| && Valid() && old(labels) <= labels && old(db.Keys) <= db.Keys
        invariant Standing(w) == Some(ProvingLoop(jobs[i..]))
        invariant Alone(others) ==> NewProofs(before, db)
        invariant forall k ::
                    0 <= k < i && jobs[k].details.SnosDetails? && jobs[k].details.fact.Some? && succeeds(jobs[k].id)
                    ==> Key(ProofCreation, jobs[k].id) in db
      {
        Await(w, others(i));
        assert jobs[i..][0] == jobs[i] && jobs[i..][1..] == jobs[i + 1..];
        CreateProvingJob(w, jobs[i..], succeeds(jobs[i].id), before);
        i := i + 1;
      }
      Finish(w);
    }

    method CreateProvingJob(w: nat, jobs: seq<Found>, ok: bool, ghost before: Database)
      requires Valid() && Standing(w) == Some(ProvingLoop(jobs)) && jobs != []
      modifies this
      ensures Valid() && old(labels) <= labels && old(db.Keys) <= db.Keys
      ensures Standing(w) == Some(ProvingLoop(jobs[1..]))
      ensures ok && jobs[0].details.SnosDetails? && jobs[0].details.fact.Some? ==> Key(ProofCreation, jobs[0].id) in db
      ensures NewProofs(before, old(db)) && IsCompleted(before, Key(SnosRun, jobs[0].id))
              && before[Key(SnosRun, jobs[0].id)].details == jobs[0].details
              ==> NewProofs(before, db)
    {
      StandingIsOk(cfg, labels, View(), w);
      ProvingEffect(cfg, View(), w, jobs, ok, before);
      StepKeepsJobs(cfg, View(), CreateProving(w, ok));
      Step(CreateProving(w, ok));
    }

    /** DataSubmissionWorker: a data submission job for every completed proving job that has none. */
    method RunDataSubmission(w: nat, succeeds: nat -> bool, others: nat -> seq<Label>)
      requires Valid() && w !in workers && forall k :: Foreign(others(k), w)
      modifies this
      ensures Valid() && w !in workers && old(labels) <= labels
      ensures forall key :: key in old(db) && key.jobType == ProofCreation && IsCompleted(old(db), key) && succeeds(key.id)
                ==> Key(DataSubmission, key.id) in db
    {
      var jobs := FetchCompleted(w, ProofCreation, DataSubmission);
      var i := 0;
      while i < |jobs|
        invariant 0 <= i <= |jobs| && Valid() && old(labels) <= labels && old(db.Keys) <= db.Keys
        invariant Standing(w) == Some(DaLoop(jobs[i..]))
        invariant forall k :: 0 <= k < i && succeeds(jobs[k].id) ==> Key(DataSubmission, jobs[k].id) in db
      {
        Await(w, others(i));
        assert jobs[i..][0] == jobs[i] && jobs[i..][1..] == jobs[i + 1..];
        CreateDataJob(w, jobs[i..], succeeds(jobs[i].id));
        i := i + 1;
      }
      Finish(w);
    }

    method CreateDataJob(w: nat, jobs: seq<Found>, ok: bool)
      requires Valid() && Standing(w) == Some(DaLoop(jobs)) && jobs != []
      modifies this
      ensures Valid() && old(labels) <= labels && old(db.Keys) <= db.Keys
      ensures Standing(w) == Some(DaLoop(jobs[1..]))
      ensures ok ==> Key(DataSubmission, jobs[0].id) in db
    {
      StandingIsOk(cfg, labels, View(), w);
      StepKeepsJobs(cfg, View(), CreateData(w, ok));
      Step(CreateData(w, ok));
    }

    /** The completed jobs of a type that have no successor yet, as the proving and data submission
        workers fetch them. */
    method FetchCompleted(w: nat, from: JobType, to: JobType) returns (jobs: seq<Found>)
      requires Valid() && w !in workers
      requires (from == SnosRun && to == ProofCreation) || (from == ProofCreation && to == DataSubmission)
      modifies this
      ensures Valid() && old(labels) <= labels && db == old(db)
      ensures Standing(w) == Some(if from == SnosRun then ProvingLoop(jobs) else DaLoop(jobs))
      ensures forall key :: key in db && key.jobType == from && IsCompleted(db, key) && Key(to, key.id) !in db
                ==> Found(key.id, db[key].details) in jobs
      ensures forall k :: 0 <= k < |jobs| ==>
                IsCompleted(db, Key(from, jobs[k].id)) && jobs[k].details == db[Key(from, jobs[k].id)].details
    {
      var found := WithoutSuccessor(from, to);
      jobs := Fetch(db, from, found);
      forall key | key in db && key.jobType == from && key.id in found ensures Found(key.id, db[key].details) in jobs {
        var i :| 0 <= i < |found| && found[i] == key.id;
        assert jobs[i] == Found(key.id, db[key].details);
      }
      Step(if from == SnosRun then FetchProving(w, found) else FetchData(w, found));
    }
  }
}
