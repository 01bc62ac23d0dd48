/** What every run of the job protocol keeps, whatever the interleaving: no update is lost, every
    committed status change is a documented one, attempts stay within the handler's limits, and a
    processing run commits directly on top of its own lock. */
module JobSafety {
  import opened Outcomes
  import opened JobProtocol

  // ---- The documented life cycle --------------------------------------------------------------

  /** The statuses a write of each kind may find. */
  predicate Allowed(kind: Kind, from: Status) {
    match kind
    case Lock => Processable(from)
    case Commit => from == LockedForProcessing
    case FailProcessing => from == LockedForProcessing
    case Retry => from == Failed
    case FailMessage => from != Completed && from != Failed
    case Requeue => true
    case _ => Verifiable(from)
  }

  /** The documented status changes of a job; Completed is a sink. */
  predicate DocumentedMove(from: Status, to: Status) {
    match from
    case Created => to in {LockedForProcessing, Failed}
    case LockedForProcessing => to in {PendingVerification, Failed}
    case PendingVerification => to in {PendingVerification, Completed, VerificationFailed, VerificationTimeout, Failed}
    case VerificationTimeout => to in {VerificationTimeout, Completed, VerificationFailed, Failed}
    case VerificationFailed => to in {LockedForProcessing, Failed}
    case PendingRetry => to in {LockedForProcessing, Failed}
    case Failed => to == PendingRetry
    case Completed => false
  }

  /** A write is justified when its result was computed from the very item it replaced, and that item's
      status was one its function accepts. */
  predicate Justified(r: Record) {
    r.after == Apply(r.before, UpdatesOf(r.kind, r.before, r.outcome)) && Allowed(r.kind, r.before.status)
  }

  function Final(history: seq<Record>): Job {
    if history == [] then INITIAL else history[|history| - 1].after
  }

  /** Every write starts from the result of the one before it, the first from the created item. */
  predicate Chained(history: seq<Record>) {
    history == []
    || (var n := |history| - 1;
        Chained(history[..n]) && history[n].before == Final(history[..n]) && Justified(history[n]))
  }

  // ---- The invariant --------------------------------------------------------------------------

  predicate HasBase(x: Worker) {
    !x.Sending?
  }

  /** A worker's copy is an older version of the item, or the item itself. */
  predicate Snapshot(base: Job, db: Job) {
    base.version <= db.version && (base.version == db.version ==> base == db)
  }

  predicate WithinBudget(cfg: Config, job: Job) {
    job.metadata.processAttempts <= cfg.maxProcess
    && (Processable(job.status) || job.status == LockedForProcessing ==> job.metadata.processAttempts < cfg.maxProcess)
    && job.metadata.verificationAttempts <= cfg.maxVerify
  }

  predicate WorkerOk(cfg: Config, x: Worker, db: Job) {
    match x
    case Writing(kind, base, o) =>
      Snapshot(base, db) && Allowed(kind, base.status)
      && (kind == Reject ==> base.metadata.processAttempts < cfg.maxProcess)
      && (kind == Poll ==> base.metadata.verificationAttempts < cfg.maxVerify)
    case Processing(base) => Snapshot(base, db) && base.status == LockedForProcessing
    case Verifying(base) => Snapshot(base, db) && Verifiable(base.status)
    case Sending(_) => true
  }

  /** A worker between its lock and the end of its processing run. */
  predicate InRun(x: Worker) {
    x.Processing? || (x.Writing? && (x.kind == Commit || x.kind == FailProcessing))
  }

  predicate WorkersOk(cfg: Config, s: State) {
    forall w :: w in s.workers ==> s.db.Some? && WorkerOk(cfg, s.workers[w], s.db.value)
  }

  predicate RunsApart(s: State) {
    forall v, w :: v in s.workers && w in s.workers && v != w && InRun(s.workers[v]) && InRun(s.workers[w])
      ==> s.workers[v].base.version != s.workers[w].base.version
  }

  predicate DatabaseOk(cfg: Config, s: State) {
    Chained(s.history)
    && (s.db.None? ==> s.history == [])
    && (s.db.Some? ==> s.db.value == Final(s.history) && s.db.value.version == |s.history| && WithinBudget(cfg, s.db.value))
  }

  predicate Inv(cfg: Config, s: State) {
    WorkersOk(cfg, s) && RunsApart(s) && DatabaseOk(cfg, s)
  }

  // ---- Preservation ---------------------------------------------------------------------------

  lemma SpawnKeeps(cfg: Config, s: State, w: nat, x: Worker)
    requires Inv(cfg, s) && s.db.Some? && WorkerOk(cfg, x, s.db.value)
    requires InRun(x) ==> w in s.workers && InRun(s.workers[w]) && s.workers[w].base == x.base
    ensures Inv(cfg, Spawn(s, w, x))
  {
  }

  lemma ExitKeeps(cfg: Config, s: State, w: nat)
    requires Inv(cfg, s)
    ensures Inv(cfg, Exit(s, w))
  {
  }

  lemma BudgetKept(cfg: Config, before: Job, kind: Kind, o: Outcome)
    requires cfg.maxProcess >= 1
    requires WithinBudget(cfg, before)
    requires WorkerOk(cfg, Writing(kind, before, o), before)
    ensures WithinBudget(cfg, Apply(before, UpdatesOf(kind, before, o)))
  {
  }

  /** The state after the database accepted a write, before the writer moves on. */
  function Committed(s: State, w: nat, kind: Kind, base: Job, o: Outcome): State
    requires s.db.Some?
  {
    var stored := Apply(base, UpdatesOf(kind, base, o));
    Exit(s, w).(db := Some(stored), history := s.history + [Record(kind, s.db.value, o, stored)])
  }

  lemma CommitKeeps(cfg: Config, s: State, w: nat, kind: Kind, base: Job, o: Outcome)
    requires cfg.maxProcess >= 1
    requires Inv(cfg, s) && w in s.workers && s.workers[w] == Writing(kind, base, o)
    requires s.db.Some? && s.db.value.version == base.version
    ensures Inv(cfg, Committed(s, w, kind, base, o))
    ensures forall v :: v in Exit(s, w).workers && HasBase(s.workers[v])
              ==> s.workers[v].base.version < Committed(s, w, kind, base, o).db.value.version
  {
    assert WorkerOk(cfg, s.workers[w], s.db.value);
    assert base == s.db.value;
    BudgetKept(cfg, base, kind, o);
    var t := Committed(s, w, kind, base, o);
    var n := |s.history|;
    assert t.history[..n] == s.history;
    forall v | v in t.workers
      ensures WorkerOk(cfg, t.workers[v], t.db.value)
      ensures HasBase(t.workers[v]) ==> t.workers[v].base.version < t.db.value.version
    {
      assert WorkerOk(cfg, s.workers[v], s.db.value);
    }
  }

  /** Where the writer stands once its write is committed; none when its function is done. */
  function Follow(kind: Kind, stored: Job): Option<Worker> {
    match kind
    case Lock => Some(Processing(stored))
    case Touch => Some(Verifying(stored))
    case Commit => Some(Sending(VerificationQueue))
    case Poll => Some(Sending(VerificationQueue))
    case Requeue => Some(Sending(VerificationQueue))
    case Reject => Some(Sending(ProcessQueue))
    case Retry => Some(Sending(ProcessQueue))
    case _ => None
  }

  lemma WriteStepForm(s: State, w: nat, kind: Kind, base: Job, o: Outcome)
    requires s.db.Some? && s.db.value.version == base.version && s.db.value == base
    ensures var t := Committed(s, w, kind, base, o);
            var x := Follow(kind, t.db.value);
            WriteStep(s, w, kind, base, o) == if x.Some? then Spawn(t, w, x.value) else t
  {
    var t := Committed(s, w, kind, base, o);
    var x := Follow(kind, t.db.value);
    if x.Some? {
      assert s.workers[w := x.value] == (s.workers - {w})[w := x.value];
    }
  }

  lemma FollowKeeps(cfg: Config, t: State, w: nat, kind: Kind)
    requires Inv(cfg, t) && t.db.Some? && w !in t.workers
    requires forall v :: v in t.workers && HasBase(t.workers[v]) ==> t.workers[v].base.version < t.db.value.version
    requires kind == Lock ==> t.db.value.status == LockedForProcessing
    requires kind == Touch ==> Verifiable(t.db.value.status)
    ensures var x := Follow(kind, t.db.value);
            x.Some? ==> Inv(cfg, Spawn(t, w, x.value))
  {
  }

  lemma WriteKeeps(cfg: Config, s: State, w: nat, kind: Kind, base: Job, o: Outcome)
    requires cfg.maxProcess >= 1
    requires Inv(cfg, s) && w in s.workers && s.workers[w] == Writing(kind, base, o)
    ensures Inv(cfg, WriteStep(s, w, kind, base, o))
  {
    assert WorkerOk(cfg, s.workers[w], s.db.value);
    if s.db.value.version == base.version {
      CommitKeeps(cfg, s, w, kind, base, o);
      WriteStepForm(s, w, kind, base, o);
      FollowKeeps(cfg, Committed(s, w, kind, base, o), w, kind);
    } else {
      ExitKeeps(cfg, s, w);
    }
  }

  lemma ReadKeeps(cfg: Config, s: State, w: nat, allowed: bool, kind: Kind)
    requires Inv(cfg, s) && w !in s.workers
    requires s.db.Some? && allowed ==> Allowed(kind, s.db.value.status)
    requires kind in {Lock, Touch, FailMessage, Retry, Requeue}
    ensures Inv(cfg, ReadThen(s, w, allowed, kind))
  {
    if s.db.Some? && allowed {
      SpawnKeeps(cfg, s, w, Writing(kind, s.db.value, NO_OUTCOME));
    }
  }

  lemma StartKeeps(cfg: Config, s: State, l: Label)
    requires cfg.maxProcess >= 1
    requires Inv(cfg, s) && Starts(l) && StartStep(s, l).Some?
    ensures Inv(cfg, StartStep(s, l).value)
  {
    match l
    case Insert(w) =>
      var t := s.(db := Some(INITIAL));
      assert Inv(cfg, t);
      SpawnKeeps(cfg, t, w, Sending(ProcessQueue));
    case StartProcess(w, redelivered) =>
      ReadKeeps(cfg, TakeProcess(s, redelivered).value, w, HasStatus(s, Processable), Lock);
    case StartVerify(w, redelivered) =>
      ReadKeeps(cfg, TakeVerify(s, redelivered).value, w, HasStatus(s, Verifiable), Touch);
    case StartFailure(w) =>
      ReadKeeps(cfg, s, w, HasStatus(s, st => st != Completed && st != Failed), FailMessage);
    case StartRetry(w) => ReadKeeps(cfg, s, w, HasStatus(s, st => st == Failed), Retry);
    case StartRequeue(w) => ReadKeeps(cfg, s, w, true, Requeue);
    case StartQueueing(w) =>
      if s.db.Some? {
        SpawnKeeps(cfg, s, w, Sending(ProcessQueue));
      }
  }

  /** Every step of every worker, committed or not, keeps the invariant. */
  lemma StepKeeps(cfg: Config, s: State, l: Label)
    requires cfg.maxProcess >= 1
    requires Inv(cfg, s) && Next(cfg, s, l).Some?
    ensures Inv(cfg, Next(cfg, s, l).value)
  {
    if Starts(l) {
      StartKeeps(cfg, s, l);
    } else if l.Bounce? {
    } else {
      var x := s.workers[l.w];
      assert WorkerOk(cfg, x, s.db.value);
      match l
      case Write(w) => WriteKeeps(cfg, s, w, x.kind, x.base, x.outcome);
      case ProcessDone(w, result) =>
        var kind := if result.Processed? then Commit else FailProcessing;
        SpawnKeeps(cfg, s, w, Writing(kind, x.base, result.outcome));
      case VerifyDone(w, verdict, o) =>
        ExitKeeps(cfg, s, w);
        if VerdictKind(cfg, x.base, verdict).Some? {
          SpawnKeeps(cfg, s, w, Writing(VerdictKind(cfg, x.base, verdict).value, x.base, o));
        }
      case Send(w) => ExitKeeps(cfg, s, w);
      case Crash(w) => ExitKeeps(cfg, s, w);
    }
  }

  lemma {:induction false} RunKeeps(cfg: Config, s: State, ls: seq<Label>)
    requires cfg.maxProcess >= 1
    requires Inv(cfg, s) && Run(cfg, s, ls).Some?
    ensures Inv(cfg, Run(cfg, s, ls).value)
  {
    if ls != [] {
      var n := |ls| - 1;
      RunKeeps(cfg, s, ls[..n]);
      StepKeeps(cfg, Run(cfg, s, ls[..n]).value, ls[n]);
    }
  }

  lemma ReachedKeeps(cfg: Config, ls: seq<Label>)
    requires cfg.maxProcess >= 1 && Run(cfg, START, ls).Some?
    ensures Inv(cfg, Run(cfg, START, ls).value)
  {
    RunKeeps(cfg, START, ls);
  }

  // ---- What a history says --------------------------------------------------------------------

  lemma {:induction false} ChainedAt(history: seq<Record>, i: nat)
    requires Chained(history) && i < |history|
    ensures Justified(history[i])
    ensures history[i].before == (if i == 0 then INITIAL else history[i - 1].after)
    ensures history[i].before.version == i
  {
    var n := |history| - 1;
    if i < n {
      ChainedAt(history[..n], i);
    } else if i > 0 {
      ChainedAt(history[..n], i - 1);
    }
  }

  /** No update is lost: the stored item is the last link of a chain of writes, each computed from the
      item its predecessor stored; the version counts them, and no two writes share a version. */
  lemma NoLostUpdates(cfg: Config, ls: seq<Label>)
    requires cfg.maxProcess >= 1 && Run(cfg, START, ls).Some?
    ensures var s := Run(cfg, START, ls).value;
            s.db.Some? ==>
              (s.db.value == Final(s.history) && s.db.value.version == |s.history|
               && forall i :: 0 <= i < |s.history| ==>
                    s.history[i].before.version == i
                    && s.history[i].after
                       == Apply(s.history[i].before,
                                UpdatesOf(s.history[i].kind, s.history[i].before, s.history[i].outcome)))
  {
    ReachedKeeps(cfg, ls);
    var s := Run(cfg, START, ls).value;
    forall i | 0 <= i < |s.history|
      ensures s.history[i].before.version == i && Justified(s.history[i])
    {
      ChainedAt(s.history, i);
    }
  }

  /** Although a status is checked long before it is written, every committed write except an operator's
      request to verify again is a documented status change. */
  lemma LegalTransitions(cfg: Config, ls: seq<Label>, i: nat)
    requires cfg.maxProcess >= 1 && Run(cfg, START, ls).Some?
    requires i < |Run(cfg, START, ls).value.history|
    ensures var r := Run(cfg, START, ls).value.history[i];
            if r.kind == Requeue then r.after.status == PendingVerification
            else DocumentedMove(r.before.status, r.after.status)
  {
    ReachedKeeps(cfg, ls);
    ChainedAt(Run(cfg, START, ls).value.history, i);
  }

  /** A write that ends a run, directly after the write whose result it read. */
  predicate EndsRun(lock: Record, end: Record) {
    lock.kind == Lock && Processable(lock.before.status) && lock.after == end.before
    && (end.kind == Commit ==>
          end.after.metadata.processAttempts == lock.before.metadata.processAttempts + 1
          && end.after.externalId == end.outcome.externalId)
  }

  lemma OnlyLockLocks(lock: Record, end: Record)
    requires Justified(lock) && Justified(end) && lock.after == end.before
    requires end.kind == Commit || end.kind == FailProcessing
    ensures EndsRun(lock, end)
  {
  }

  lemma ChainedRuns(history: seq<Record>, i: nat)
    requires Chained(history) && i < |history|
    requires history[i].kind == Commit || history[i].kind == FailProcessing
    ensures i > 0 && EndsRun(history[i - 1], history[i])
  {
    ChainedAt(history, i);
    assert i > 0;
    ChainedAt(history, i - 1);
    OnlyLockLocks(history[i - 1], history[i]);
  }

  /** A processing run is atomic: the write that ends it directly follows its own lock, which found the
      job free, and the attempt is counted once. */
  lemma ProcessingIsAtomic(cfg: Config, ls: seq<Label>, i: nat)
    requires cfg.maxProcess >= 1 && Run(cfg, START, ls).Some?
    requires i < |Run(cfg, START, ls).value.history|
    requires var k := Run(cfg, START, ls).value.history[i].kind; k == Commit || k == FailProcessing
    ensures i > 0
    ensures EndsRun(Run(cfg, START, ls).value.history[i - 1], Run(cfg, START, ls).value.history[i])
  {
    ReachedKeeps(cfg, ls);
    ChainedRuns(Run(cfg, START, ls).value.history, i);
  }

  /** The attempt counters never pass the handler's limits, operators and failure messages included. */
  lemma BudgetsHold(cfg: Config, ls: seq<Label>)
    requires cfg.maxProcess >= 1 && Run(cfg, START, ls).Some?
    ensures var s := Run(cfg, START, ls).value;
            s.db.Some? ==>
              (s.db.value.metadata.processAttempts <= cfg.maxProcess
               && s.db.value.metadata.verificationAttempts <= cfg.maxVerify
               && (s.db.value.status in {Created, PendingRetry, VerificationFailed, LockedForProcessing}
                   ==> s.db.value.metadata.processAttempts < cfg.maxProcess))
  {
    ReachedKeeps(cfg, ls);
  }

  // ---- Racing workers -------------------------------------------------------------------------

  /** Comparing versions is comparing items: a write is accepted exactly when the item it was computed
      from is still the stored one. */
  lemma CommitsIffCurrent(cfg: Config, ls: seq<Label>, w: nat)
    requires cfg.maxProcess >= 1 && Run(cfg, START, ls).Some?
    requires w in Run(cfg, START, ls).value.workers && Run(cfg, START, ls).value.workers[w].Writing?
    ensures var s := Run(cfg, START, ls).value;
            var t := Next(cfg, s, Write(w));
            t.Some? && (t.value.history != s.history <==> s.db == Some(s.workers[w].base))
  {
    ReachedKeeps(cfg, ls);
    WriteAppends(cfg, Run(cfg, START, ls).value, w);
  }

  lemma WriteAppends(cfg: Config, s: State, w: nat)
    requires WorkersOk(cfg, s) && w in s.workers && s.workers[w].Writing?
    ensures var t := Next(cfg, s, Write(w));
            t.Some? && (t.value.history != s.history <==> s.db == Some(s.workers[w].base))
  {
    var x := s.workers[w];
    assert WorkerOk(cfg, x, s.db.value);
    if s.db.value.version == x.base.version {
      assert |WriteStep(s, w, x.kind, x.base, x.outcome).history| == |s.history| + 1;
    }
  }

  /** Of any two workers that hold the same version and go on to write, whatever happens in between, the
      second to write changes nothing and stops. */
  lemma OneWriterPerVersion(cfg: Config, ls: seq<Label>, v: nat, w: nat, between: seq<Label>)
    requires cfg.maxProcess >= 1 && Run(cfg, START, ls).Some?
    requires var s := Run(cfg, START, ls).value;
             v != w && v in s.workers && w in s.workers && s.workers[v].Writing? && s.workers[w].Writing?
             && s.workers[v].base.version == s.workers[w].base.version
    requires var t := Next(cfg, Run(cfg, START, ls).value, Write(v));
             t.Some? && Run(cfg, t.value, between).Some?
             && w in Run(cfg, t.value, between).value.workers
             && Run(cfg, t.value, between).value.workers[w] == Run(cfg, START, ls).value.workers[w]
    ensures var u := Run(cfg, Next(cfg, Run(cfg, START, ls).value, Write(v)).value, between).value;
            Next(cfg, u, Write(w)) == Some(Exit(u, w))
  {
    ReachedKeeps(cfg, ls);
    var s := Run(cfg, START, ls).value;
    var base := s.workers[w].base;
    assert WorkerOk(cfg, s.workers[v], s.db.value) && WorkerOk(cfg, s.workers[w], s.db.value);
    var t := Next(cfg, s, Write(v)).value;
    assert t.db.Some? && t.db.value.version > base.version;
    StepKeeps(cfg, s, Write(v));
    VersionGrows(cfg, t, between);
  }

  lemma {:induction false} VersionGrows(cfg: Config, s: State, ls: seq<Label>)
    requires cfg.maxProcess >= 1
    requires Inv(cfg, s) && s.db.Some? && Run(cfg, s, ls).Some?
    ensures Run(cfg, s, ls).value.db.Some?
    ensures Run(cfg, s, ls).value.db.value.version >= s.db.value.version
  {
    if ls != [] {
      var n := |ls| - 1;
      VersionGrows(cfg, s, ls[..n]);
      RunKeeps(cfg, s, ls[..n]);
      var t := Run(cfg, s, ls[..n]).value;
      StepGrows(cfg, t, ls[n]);
    }
  }

  lemma StepGrows(cfg: Config, s: State, l: Label)
    requires Inv(cfg, s) && s.db.Some? && Next(cfg, s, l).Some?
    ensures Next(cfg, s, l).value.db.Some?
    ensures Next(cfg, s, l).value.db.value.version >= s.db.value.version
    ensures !l.Write? ==> Next(cfg, s, l).value.db == s.db
  {
    if l.Write? {
      WriteGrows(cfg, s, l.w);
    }
  }

  lemma WriteGrows(cfg: Config, s: State, w: nat)
    requires Inv(cfg, s) && s.db.Some? && Next(cfg, s, Write(w)).Some?
    ensures Next(cfg, s, Write(w)).value.db.Some?
    ensures Next(cfg, s, Write(w)).value.db.value.version >= s.db.value.version
  {
  }

  /** While the job is locked, at most one worker of a processing run holds the current item. */
  lemma LockIsHeldOnce(cfg: Config, ls: seq<Label>, v: nat, w: nat)
    requires cfg.maxProcess >= 1 && Run(cfg, START, ls).Some?
    requires var s := Run(cfg, START, ls).value;
             v in s.workers && w in s.workers && InRun(s.workers[v]) && InRun(s.workers[w])
             && s.db.Some? && s.workers[v].base == s.db.value && s.workers[w].base == s.db.value
    ensures v == w
  {
    ReachedKeeps(cfg, ls);
  }
}
