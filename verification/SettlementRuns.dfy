/** What the settlement chain means for the blocks: each is settled by exactly one job, in order, and a
    job only starts when the one before it is completed. */
module SettlementRuns {
  import opened Outcomes
  import opened SortedLists
  import JobProtocol
  import JobSafety
  import opened Pipeline
  import opened SettlementChain

  // ---- Blocks ---------------------------------------------------------------------------------

  /** The blocks of the given state transition jobs, one job after the other. */
  function Settled(db: Database, chain: seq<nat>): seq<nat> {
    if chain == [] then []
    else Settled(db, chain[..|chain| - 1]) + Blocks(db, chain[|chain| - 1])
  }

  predicate Ascending(ids: seq<nat>) {
    forall i, j :: 0 <= i < j < |ids| ==> ids[i] < ids[j]
  }

  lemma JobBlocks(cfg: Range, db: Database, id: nat)
    requires JobsOk(cfg, db) && Key(StateTransition, id) in db
    ensures RunFrom(Blocks(db, id), id)
  {
    assert JobOk(db, Key(StateTransition, id));
  }

  /** Numbers one after the other, from the first on. */
  predicate Span(s: seq<nat>, first: nat) {
    forall i :: 0 <= i < |s| ==> s[i] == first + i
  }

  lemma SpanJoin(a: seq<nat>, b: seq<nat>, first: nat)
    requires Span(a, first) && RunFrom(b, first + |a|)
    ensures Span(a + b, first)
  {
  }

  lemma ChainLink(cfg: Range, db: Database, chain: seq<nat>, n: nat)
    requires ChainOk(cfg, db, chain) && n < |chain|
    ensures chain[n] == if n == 0 then FirstBlock(cfg) else End(db, chain[n - 1])
  {
  }

  lemma SettledStep(db: Database, chain: seq<nat>, m: nat)
    requires m < |chain|
    ensures Settled(db, chain[..m + 1]) == Settled(db, chain[..m]) + Blocks(db, chain[m])
  {
    assert chain[..m + 1][..m] == chain[..m];
  }

  /** The chain, cut off after its first n jobs, settles the first blocks in order. */
  lemma {:induction false} ChainSettles(cfg: Range, db: Database, chain: seq<nat>, n: nat)
    requires JobsOk(cfg, db) && ChainOk(cfg, db, chain) && n <= |chain|
    ensures Span(Settled(db, chain[..n]), FirstBlock(cfg))
    ensures FirstBlock(cfg) + |Settled(db, chain[..n])| == if n == 0 then FirstBlock(cfg) else End(db, chain[n - 1])
  {
    if n > 0 {
      var m := n - 1;
      ChainSettles(cfg, db, chain, m);
      SettledStep(db, chain, m);
      JobBlocks(cfg, db, chain[m]);
      ChainLink(cfg, db, chain, m);
      SpanJoin(Settled(db, chain[..m]), Blocks(db, chain[m]), FirstBlock(cfg));
    }
  }

  lemma {:induction false} EndsBefore(cfg: Range, db: Database, chain: seq<nat>, i: nat, j: nat)
    requires JobsOk(cfg, db) && ChainOk(cfg, db, chain) && i < j < |chain|
    ensures End(db, chain[i]) <= chain[j]
    decreases j - i
  {
    var k := i + 1;
    assert chain[k] == End(db, chain[i]);
    if k < j {
      EndsBefore(cfg, db, chain, k, j);
      JobBlocks(cfg, db, chain[k]);
    }
  }

  lemma ChainAscends(cfg: Range, db: Database, chain: seq<nat>)
    requires JobsOk(cfg, db) && ChainOk(cfg, db, chain)
    ensures Ascending(chain)
  {
    forall i, j | 0 <= i < j < |chain| ensures chain[i] < chain[j] {
      EndsBefore(cfg, db, chain, i, j);
      JobBlocks(cfg, db, chain[i]);
    }
  }

  lemma JobByJob(cfg: Range, s: State)
    requires JobsOk(cfg, s.db) && ChainOk(cfg, s.db, s.chain)
    ensures s.chain != [] ==> s.chain[0] == if cfg.minBlock.Some? then cfg.minBlock.value else 0
    ensures forall j :: 0 <= j < |s.chain| ==>
              Key(StateTransition, s.chain[j]) in s.db
              && var d := s.db[Key(StateTransition, s.chain[j])].details;
                 d.TransitionDetails? && 1 <= |d.blocks| <= 10
                 && (forall i :: 0 <= i < |d.blocks| ==> d.blocks[i] == s.chain[j] + i)
                 && (j + 1 < |s.chain| ==> s.chain[j + 1] == s.chain[j] + |d.blocks|)
  {
    forall j | 0 <= j < |s.chain|
      ensures Key(StateTransition, s.chain[j]) in s.db && RunFrom(Blocks(s.db, s.chain[j]), s.chain[j])
      ensures j + 1 < |s.chain| ==> s.chain[j + 1] == End(s.db, s.chain[j])
    {
      JobBlocks(cfg, s.db, s.chain[j]);
      if j + 1 < |s.chain| {
        ChainLink(cfg, s.db, s.chain, j + 1);
      }
    }
  }

  lemma ChainFacts(cfg: Range, s: State)
    requires JobsOk(cfg, s.db) && ChainOk(cfg, s.db, s.chain)
    ensures Ascending(s.chain)
    ensures forall id: nat :: Key(StateTransition, id) in s.db <==> id in s.chain
    ensures forall id :: id in s.chain ==> RunFrom(Blocks(s.db, id), id)
    ensures Span(Settled(s.db, s.chain), FirstBlock(cfg))
  {
    ChainSettles(cfg, s.db, s.chain, |s.chain|);
    assert s.chain[..|s.chain|] == s.chain;
    ChainAscends(cfg, s.db, s.chain);
    forall id | id in s.chain ensures Key(StateTransition, id) in s.db && RunFrom(Blocks(s.db, id), id) {
      var i :| 0 <= i < |s.chain| && s.chain[i] == id;
      JobBlocks(cfg, s.db, id);
    }
    forall id: nat | Key(StateTransition, id) in s.db ensures id in s.chain {
      assert Key(StateTransition, id).id in s.chain;
    }
  }

  /** The state transition jobs, ordered by internal id, settle the blocks from the minimum on, one by
      one: no gap, no overlap, at most ten a job. */
  lemma ChainIsGapFree(cfg: Range, ls: seq<Label>)
    requires Run(cfg, START, ls).Some?
    ensures var s := Run(cfg, START, ls).value;
            Ascending(s.chain)
            && (forall id: nat :: Key(StateTransition, id) in s.db <==> id in s.chain)
            && (forall id :: id in s.chain ==> RunFrom(Blocks(s.db, id), id))
            && Span(Settled(s.db, s.chain), FirstBlock(cfg))
    // The same, job by job.
    ensures var s := Run(cfg, START, ls).value;
            (s.chain != [] ==> s.chain[0] == if cfg.minBlock.Some? then cfg.minBlock.value else 0)
            && forall j :: 0 <= j < |s.chain| ==>
                 Key(StateTransition, s.chain[j]) in s.db
                 && var d := s.db[Key(StateTransition, s.chain[j])].details;
                    d.TransitionDetails? && 1 <= |d.blocks| <= 10
                    && (forall i :: 0 <= i < |d.blocks| ==> d.blocks[i] == s.chain[j] + i)
                    && (j + 1 < |s.chain| ==> s.chain[j + 1] == s.chain[j] + |d.blocks|)
  {
    RunKeeps(cfg, ls);
    ChainFacts(cfg, Run(cfg, START, ls).value);
    JobByJob(cfg, Run(cfg, START, ls).value);
  }

  lemma PositionOf(cfg: Range, db: Database, chain: seq<nat>, id: nat) returns (i: nat)
    requires ChainOk(cfg, db, chain) && Key(StateTransition, id) in db
    ensures i < |chain| && chain[i] == id
  {
    assert Key(StateTransition, id).id in chain;
    i :| 0 <= i < |chain| && chain[i] == id;
  }

  /** Of two different jobs, the later one in the chain starts at or behind the end of the earlier one. */
  lemma Apart(cfg: Range, db: Database, chain: seq<nat>, a: nat, b: nat) returns (i: nat, j: nat)
    requires JobsOk(cfg, db) && ChainOk(cfg, db, chain)
    requires Key(StateTransition, a) in db && Key(StateTransition, b) in db
    ensures i < |chain| && j < |chain| && chain[i] == a && chain[j] == b
    ensures i < j ==> End(db, a) <= b
    ensures j < i ==> End(db, b) <= a
  {
    i := PositionOf(cfg, db, chain, a);
    j := PositionOf(cfg, db, chain, b);
    if i < j {
      EndsBefore(cfg, db, chain, i, j);
    } else if j < i {
      EndsBefore(cfg, db, chain, j, i);
    }
  }

  /** No block is settled by two jobs. */
  lemma NoOverlap(cfg: Range, ls: seq<Label>, a: nat, b: nat, block: nat)
    requires Run(cfg, START, ls).Some?
    requires block in Blocks(Run(cfg, START, ls).value.db, a) && block in Blocks(Run(cfg, START, ls).value.db, b)
    ensures a == b
  {
    RunKeeps(cfg, ls);
    OneOwner(cfg, Run(cfg, START, ls).value, a, b, block);
  }

  lemma OneOwner(cfg: Range, s: State, a: nat, b: nat, block: nat)
    requires JobsOk(cfg, s.db) && ChainOk(cfg, s.db, s.chain)
    requires block in Blocks(s.db, a) && block in Blocks(s.db, b)
    ensures a == b
  {
    BlockBounds(cfg, s.db, a, block);
    BlockBounds(cfg, s.db, b, block);
    SameOrBehind(cfg, s.db, s.chain, a, b);
  }

  lemma SameOrBehind(cfg: Range, db: Database, chain: seq<nat>, a: nat, b: nat)
    requires JobsOk(cfg, db) && ChainOk(cfg, db, chain)
    requires Key(StateTransition, a) in db && Key(StateTransition, b) in db
    ensures a == b || End(db, a) <= b || End(db, b) <= a
  {
    var i, j := Apart(cfg, db, chain, a, b);
  }

  lemma BlockBounds(cfg: Range, db: Database, id: nat, block: nat)
    requires JobsOk(cfg, db) && block in Blocks(db, id)
    ensures Key(StateTransition, id) in db && id <= block < End(db, id)
  {
    JobBlocks(cfg, db, id);
  }

  lemma {:induction false} Covering(cfg: Range, db: Database, chain: seq<nat>, n: nat, block: nat) returns (owner: nat)
    requires JobsOk(cfg, db) && ChainOk(cfg, db, chain) && n < |chain|
    requires FirstBlock(cfg) <= block < End(db, chain[n])
    ensures block in Blocks(db, owner)
  {
    JobBlocks(cfg, db, chain[n]);
    if block >= chain[n] {
      owner := chain[n];
      assert Blocks(db, owner)[block - owner] == block;
    } else {
      var p := n - 1;
      assert chain[n] == End(db, chain[p]);
      owner := Covering(cfg, db, chain, p, block);
    }
  }

  /** Every block from the minimum up to a settled one is settled by some job. */
  lemma NoGap(cfg: Range, ls: seq<Label>, id: nat, last: nat, block: nat) returns (owner: nat)
    requires Run(cfg, START, ls).Some?
    requires last in Blocks(Run(cfg, START, ls).value.db, id) && block <= last
    requires block >= if cfg.minBlock.Some? then cfg.minBlock.value else 0
    ensures block in Blocks(Run(cfg, START, ls).value.db, owner)
  {
    RunKeeps(cfg, ls);
    var s := Run(cfg, START, ls).value;
    JobBlocks(cfg, s.db, id);
    assert Key(StateTransition, id).id in s.chain;
    var n :| 0 <= n < |s.chain| && s.chain[n] == id;
    owner := Covering(cfg, s.db, s.chain, n, block);
  }

  // ---- Order of settlement --------------------------------------------------------------------

  predicate NoReopen(ls: seq<Label>) {
    forall l :: l in ls ==> !l.Reopen?
  }

  predicate LatestDone(db: Database, x: Worker) {
    match x
    case Fetched(latest, _) => latest.Some? ==> IsCompleted(db, Key(StateTransition, latest.value))
    case Collecting(latest, _, _, _, _) => latest.Some? ==> IsCompleted(db, Key(StateTransition, latest.value))
    case Creating(latest, _) => latest.Some? ==> IsCompleted(db, Key(StateTransition, latest.value))
    case _ => true
  }

  /** Every state transition job but the newest is completed, and so is any a worker builds on. */
  predicate InOrder(s: State) {
    (forall i :: 0 <= i < |s.chain| - 1 ==> IsCompleted(s.db, Key(StateTransition, s.chain[i])))
    && (forall w :: w in s.workers ==> LatestDone(s.db, s.workers[w]))
  }

  predicate KeepsCompleted(a: Database, b: Database) {
    forall key :: key in a && IsCompleted(a, key) ==> IsCompleted(b, key)
  }

  lemma OrderGrows(s: State, t: State, w: nat)
    requires InOrder(s) && KeepsCompleted(s.db, t.db) && t.chain == s.chain
    requires forall v :: v in t.workers && v != w ==> v in s.workers && t.workers[v] == s.workers[v]
    requires w in t.workers ==> LatestDone(t.db, t.workers[w])
    ensures InOrder(t)
  {
    forall v | v in t.workers ensures LatestDone(t.db, t.workers[v]) {
      if v != w {
        assert LatestDone(s.db, s.workers[v]);
      }
    }
  }

  lemma InsertKeepsCompleted(db: Database, key: Key, d: Details)
    ensures KeepsCompleted(db, InsertJob(db, key, d))
  {
  }

  lemma CreateInOrder(cfg: Range, s: State, w: nat)
    requires ChainOk(cfg, s.db, s.chain) && InOrder(s)
    requires Fits(s, CreateTransition(w)) && WorkerOk(cfg, s.db, s.workers[w])
    ensures InOrder(CreateTransitionStep(s, w, s.workers[w].details))
  {
    var x := s.workers[w];
    var d, key := x.details, Key(StateTransition, x.details.blocks[0]);
    OrderGrows(s, Leave(s, w), w);
    if key !in s.db {
      assert LatestDone(s.db, x);
      LatestIsLast(cfg, s.db, s.chain, x.latest, key.id);
      InsertKeepsCompleted(s.db, key, d);
      OrderGrows(s, Leave(s, w).(db := InsertJob(s.db, key, d)), w);
    }
  }

  lemma UpdateStateInOrder(cfg: Range, s: State, l: Label)
    requires InOrder(s) && Next(cfg, s, l).Some?
    requires l.FetchLatest? || l.FetchDa? || l.LookupSnos? || l.LookupDa?
    ensures InOrder(Next(cfg, s, l).value)
  {
    var t := Next(cfg, s, l).value;
    assert t.db == s.db && t.chain == s.chain;
    if l.w in s.workers {
      assert LatestDone(s.db, s.workers[l.w]);
    }
    OrderGrows(s, t, l.w);
  }

  lemma InsertsAtMost(cfg: Range, s: State, l: Label)
    requires Next(cfg, s, l).Some?
    requires l.FetchSnos? || l.CreateSnos? || l.FetchProving? || l.CreateProving? || l.FetchData? || l.CreateData? || l.Stop?
    ensures var t := Next(cfg, s, l).value;
            t.chain == s.chain && KeepsCompleted(s.db, t.db)
            && (forall v :: v in t.workers && v != l.w ==> v in s.workers && t.workers[v] == s.workers[v])
            && (l.w in t.workers ==> LatestDone(t.db, t.workers[l.w]))
  {
  }

  lemma OthersInOrder(cfg: Range, s: State, l: Label)
    requires InOrder(s) && Next(cfg, s, l).Some?
    requires l.FetchSnos? || l.CreateSnos? || l.FetchProving? || l.CreateProving? || l.FetchData? || l.CreateData? || l.Stop?
    ensures InOrder(Next(cfg, s, l).value)
  {
    InsertsAtMost(cfg, s, l);
    OrderGrows(s, Next(cfg, s, l).value, l.w);
  }

  lemma MoveInOrder(cfg: Range, s: State, key: Key, to: Status, fact: Option<nat>)
    requires InOrder(s) && MoveStep(s, key, to, fact).Some?
    ensures InOrder(MoveStep(s, key, to, fact).value)
  {
    var t := MoveStep(s, key, to, fact).value;
    assert KeepsCompleted(s.db, t.db);
    forall w | w in s.workers ensures LatestDone(t.db, s.workers[w]) {
      assert LatestDone(s.db, s.workers[w]);
    }
  }

  lemma {:induction false} RunInOrder(cfg: Range, ls: seq<Label>)
    requires Run(cfg, START, ls).Some? && NoReopen(ls)
    ensures InOrder(Run(cfg, START, ls).value)
  {
    if ls != [] {
      var n := |ls| - 1;
      RunInOrder(cfg, ls[..n]);
      RunKeeps(cfg, ls[..n]);
      var s, l := Run(cfg, START, ls[..n]).value, ls[n];
      match l
      case CreateTransition(w) =>
        assert WorkerOk(cfg, s.db, s.workers[w]);
        CreateInOrder(cfg, s, w);
      case Move(key, to, fact) => MoveInOrder(cfg, s, key, to, fact);
      case FetchLatest(_, _) => UpdateStateInOrder(cfg, s, l);
      case FetchDa(_, _) => UpdateStateInOrder(cfg, s, l);
      case LookupSnos(_) => UpdateStateInOrder(cfg, s, l);
      case LookupDa(_) => UpdateStateInOrder(cfg, s, l);
      case Reopen(_) => assert false;
      case _ => OthersInOrder(cfg, s, l);
    }
  }

  lemma NotNewest(s: State, i: nat, a: nat)
    requires InOrder(s) && i + 1 < |s.chain| && s.chain[i] == a
    ensures IsCompleted(s.db, Key(StateTransition, a))
  {
  }

  lemma EarlierPosition(cfg: Range, db: Database, chain: seq<nat>, a: nat, b: nat) returns (i: nat)
    requires JobsOk(cfg, db) && ChainOk(cfg, db, chain) && a < b
    requires Key(StateTransition, a) in db && Key(StateTransition, b) in db
    ensures i + 1 < |chain| && chain[i] == a
  {
    var k, j := Apart(cfg, db, chain, a, b);
    i := k;
  }

  lemma EarlierInChain(cfg: Range, s: State, a: nat, b: nat)
    requires JobsOk(cfg, s.db) && ChainOk(cfg, s.db, s.chain) && InOrder(s) && a < b
    requires Key(StateTransition, a) in s.db && Key(StateTransition, b) in s.db
    ensures IsCompleted(s.db, Key(StateTransition, a))
  {
    var i := EarlierPosition(cfg, s.db, s.chain, a, b);
    NotNewest(s, i, a);
  }

  /** Of two state transition jobs, the earlier one is completed, unless an operator reopens jobs: blocks
      are never settled by two jobs at a time. */
  lemma EarlierJobsAreCompleted(cfg: Range, ls: seq<Label>, a: nat, b: nat)
    requires Run(cfg, START, ls).Some? && NoReopen(ls) && a < b
    requires Key(StateTransition, a) in Run(cfg, START, ls).value.db
    requires Key(StateTransition, b) in Run(cfg, START, ls).value.db
    ensures IsCompleted(Run(cfg, START, ls).value.db, Key(StateTransition, a))
  {
    RunKeeps(cfg, ls);
    RunInOrder(cfg, ls);
    EarlierInChain(cfg, Run(cfg, START, ls).value, a, b);
  }

  // ---- Readiness ------------------------------------------------------------------------------

  /** When a worker asks for ready blocks, it goes on exactly when the data submission job of the block it
      must start with is completed (and, on a first job, no state transition job has taken that block). */
  lemma ProceedsIffReady(cfg: Range, ls: seq<Label>, w: nat, found: seq<nat>)
    requires Run(cfg, START, ls).Some? && Next(cfg, Run(cfg, START, ls).value, FetchDa(w, found)).Some?
    ensures var s := Run(cfg, START, ls).value;
            var t := Next(cfg, s, FetchDa(w, found)).value;
            var first := NextBlock(cfg, s.workers[w].last);
            w in t.workers <==>
            IsCompleted(s.db, Key(DataSubmission, first))
            && (s.workers[w].last.None? ==> Key(StateTransition, first) !in s.db)
  {
    RunKeeps(cfg, ls);
    var s := Run(cfg, START, ls).value;
    var x := s.workers[w];
    forall b | b in found ensures b >= NextBlock(cfg, x.last) {
      assert IsCompleted(s.db, Key(DataSubmission, b));
      assert InRange(cfg, Key(DataSubmission, b).id);
    }
    PlanHoldsBack(cfg, x.last, found);
  }

  // ---- Ancestry and paths ---------------------------------------------------------------------

  /** Every data submission job has its proving job and its SNOS job. */
  lemma EveryAncestorExists(cfg: Range, ls: seq<Label>, block: nat)
    requires Run(cfg, START, ls).Some? && Key(DataSubmission, block) in Run(cfg, START, ls).value.db
    ensures Key(ProofCreation, block) in Run(cfg, START, ls).value.db
    ensures Key(SnosRun, block) in Run(cfg, START, ls).value.db
    ensures (cfg.minBlock.Some? ==> block >= cfg.minBlock.value) && (cfg.maxBlock.Some? ==> block <= cfg.maxBlock.value)
  {
    RunKeeps(cfg, ls);
    Ancestors(cfg, Run(cfg, START, ls).value.db, block);
    assert InRange(cfg, Key(DataSubmission, block).id);
  }

  /** Every job of the first three stages names its own block and that block's own files. */
  lemma JobsNameTheirBlocks(cfg: Range, ls: seq<Label>, block: nat)
    requires Run(cfg, START, ls).Some?
    ensures var db := Run(cfg, START, ls).value.db;
            (Key(SnosRun, block) in db ==>
               var d := db[Key(SnosRun, block)].details;
               d.SnosDetails? && d.block == block && d.cairoPie == Some(Path(block, CairoPie))
               && d.snosOutput == Some(Path(block, SnosOutput)) && d.programOutput == Some(Path(block, ProgramOutput)))
            && (Key(ProofCreation, block) in db ==>
                  var d := db[Key(ProofCreation, block)].details;
                  d.ProvingDetails? && d.block == block && d.input == Some(Path(block, CairoPie)))
            && (Key(DataSubmission, block) in db ==>
                  db[Key(DataSubmission, block)].details == DaDetails(block, Some(Path(block, BlobData))))
  {
    RunKeeps(cfg, ls);
    var db := Run(cfg, START, ls).value.db;
    assert Key(SnosRun, block) in db ==> JobOk(db, Key(SnosRun, block));
    assert Key(ProofCreation, block) in db ==> JobOk(db, Key(ProofCreation, block));
    assert Key(DataSubmission, block) in db ==> JobOk(db, Key(DataSubmission, block));
  }

  /** Every state transition job carries, for each of its blocks, that block's own three files at the
      block's own index. */
  lemma PathsMatchBlocks(cfg: Range, ls: seq<Label>, id: nat)
    requires Run(cfg, START, ls).Some? && Key(StateTransition, id) in Run(cfg, START, ls).value.db
    ensures var d := Run(cfg, START, ls).value.db[Key(StateTransition, id)].details;
            d.TransitionDetails?
            && |d.snosOutputs| == |d.blocks| && |d.programOutputs| == |d.blocks| && |d.blobs| == |d.blocks|
            && forall i :: 0 <= i < |d.blocks| ==>
                 d.snosOutputs[i] == Path(d.blocks[i], SnosOutput)
                 && d.programOutputs[i] == Path(d.blocks[i], ProgramOutput)
                 && d.blobs[i] == Path(d.blocks[i], BlobData)
  {
    RunKeeps(cfg, ls);
    assert JobOk(Run(cfg, START, ls).value.db, Key(StateTransition, id));
  }

  /** The lookups of a state transition worker always find their jobs: it never stops with "job not
      found", whatever happened since it planned its blocks. */
  lemma LookupsNeverFail(cfg: Range, ls: seq<Label>, w: nat, l: Label)
    requires Run(cfg, START, ls).Some? && (l == LookupSnos(w) || l == LookupDa(w))
    requires var s := Run(cfg, START, ls).value;
             w in s.workers && s.workers[w].Collecting? && s.workers[w].daNext == l.LookupDa?
    ensures var t := Next(cfg, Run(cfg, START, ls).value, l);
            t.Some? && w in t.value.workers
  {
    RunKeeps(cfg, ls);
    var s := Run(cfg, START, ls).value;
    LookupsSucceed(cfg, s, w);
  }

  // ---- The job protocol underneath ------------------------------------------------------------

  /** Every write the job protocol commits is a step here: an operator's request to verify again is a
      reopening, everything else a documented move. */
  lemma ProtocolWritesAreMoves(jobs: JobProtocol.Config, steps: seq<JobProtocol.Label>, i: nat, s: State, key: Key)
    requires jobs.maxProcess >= 1 && JobProtocol.Run(jobs, JobProtocol.START, steps).Some?
    requires i < |JobProtocol.Run(jobs, JobProtocol.START, steps).value.history|
    requires key in s.db
             && s.db[key].status == JobProtocol.Run(jobs, JobProtocol.START, steps).value.history[i].before.status
    ensures var r := JobProtocol.Run(jobs, JobProtocol.START, steps).value.history[i];
            var t := if r.kind == JobProtocol.Requeue then ReopenStep(s, key) else MoveStep(s, key, r.after.status, None);
            t.Some? && t.value.db[key].status == r.after.status
  {
    JobSafety.LegalTransitions(jobs, steps, i);
  }
}
