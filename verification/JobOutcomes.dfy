/** What a job's life adds up to: when a completed job stays completed, and when at most one handler of
    a job runs at a time. */
module JobOutcomes {
  import opened Outcomes
  import opened JobProtocol
  import opened JobSafety

  // ---- Completed jobs -------------------------------------------------------------------------

  lemma StepExtends(cfg: Config, s: State, l: Label)
    requires Next(cfg, s, l).Some?
    ensures s.history <= Next(cfg, s, l).value.history
    ensures s.db.Some? && Next(cfg, s, l).value.history == s.history ==> Next(cfg, s, l).value.db == s.db
  {
  }

  lemma {:induction false} RunExtends(cfg: Config, s: State, ls: seq<Label>)
    requires Run(cfg, s, ls).Some?
    ensures s.history <= Run(cfg, s, ls).value.history
  {
    if ls != [] {
      var n := |ls| - 1;
      RunExtends(cfg, s, ls[..n]);
      StepExtends(cfg, Run(cfg, s, ls[..n]).value, ls[n]);
    }
  }

  /** A completed job stays exactly as it is if and only if no request to verify it again is committed;
      every other writer, however early it read the job, leaves it alone. */
  lemma CompletedIsFinalIff(cfg: Config, first: seq<Label>, rest: seq<Label>)
    requires cfg.maxProcess >= 1 && Run(cfg, START, first).Some?
    requires var s := Run(cfg, START, first).value; s.db.Some? && s.db.value.status == Completed
    requires Run(cfg, Run(cfg, START, first).value, rest).Some?
    ensures var s := Run(cfg, START, first).value;
            var t := Run(cfg, s, rest).value;
            |s.history| <= |t.history|
            && (t.db == s.db <==> forall i :: |s.history| <= i < |t.history| ==> t.history[i].kind != Requeue)
  {
    var s := Run(cfg, START, first).value;
    var t := Run(cfg, s, rest).value;
    ReachedKeeps(cfg, first);
    RunKeeps(cfg, s, rest);
    RunExtends(cfg, s, rest);
    VersionGrows(cfg, s, rest);
    ExtendedFrom(s.history, t.history);
  }

  /** The first write after a chain starts from where the chain ended. */
  lemma ExtendedFrom(short: seq<Record>, long: seq<Record>)
    requires Chained(long) && short <= long
    ensures |short| < |long| ==> long[|short|].before == Final(short) && Justified(long[|short|])
    ensures |short| == |long| ==> short == long
  {
    if |short| < |long| {
      ChainedAt(long, |short|);
    }
  }

  predicate NoRequeue(ls: seq<Label>) {
    forall l :: l in ls ==> !l.StartRequeue?
  }

  predicate NoRequeuer(s: State) {
    forall w :: w in s.workers && s.workers[w].Writing? ==> s.workers[w].kind != Requeue
  }

  lemma StepNoRequeuer(cfg: Config, s: State, l: Label)
    requires NoRequeuer(s) && !l.StartRequeue? && Next(cfg, s, l).Some?
    ensures NoRequeuer(Next(cfg, s, l).value)
  {
  }

  lemma {:induction false} RunNoRequeuer(cfg: Config, s: State, ls: seq<Label>)
    requires NoRequeuer(s) && NoRequeue(ls) && Run(cfg, s, ls).Some?
    ensures NoRequeuer(Run(cfg, s, ls).value)
  {
    if ls != [] {
      var n := |ls| - 1;
      RunNoRequeuer(cfg, s, ls[..n]);
      StepNoRequeuer(cfg, Run(cfg, s, ls[..n]).value, ls[n]);
    }
  }

  lemma StepKeepsCompleted(cfg: Config, s: State, l: Label)
    requires Inv(cfg, s) && s.db.Some? && s.db.value.status == Completed && NoRequeuer(s)
    requires Next(cfg, s, l).Some?
    ensures Next(cfg, s, l).value.db == s.db
  {
    StepGrows(cfg, s, l);
    if l.Write? {
      assert WorkerOk(cfg, s.workers[l.w], s.db.value);
    }
  }

  /** Without requests to verify again, no step of any worker ever changes a completed job. */
  lemma {:induction false} CompletedStays(cfg: Config, first: seq<Label>, rest: seq<Label>)
    requires cfg.maxProcess >= 1 && Run(cfg, START, first).Some?
    requires NoRequeue(first) && NoRequeue(rest)
    requires var s := Run(cfg, START, first).value; s.db.Some? && s.db.value.status == Completed
    requires Run(cfg, Run(cfg, START, first).value, rest).Some?
    ensures Run(cfg, Run(cfg, START, first).value, rest).value.db == Run(cfg, START, first).value.db
  {
    var s := Run(cfg, START, first).value;
    if rest != [] {
      var n := |rest| - 1;
      CompletedStays(cfg, first, rest[..n]);
      ReachedKeeps(cfg, first);
      RunKeeps(cfg, s, rest[..n]);
      RunNoRequeuer(cfg, START, first);
      RunNoRequeuer(cfg, s, rest[..n]);
      StepKeepsCompleted(cfg, Run(cfg, s, rest[..n]).value, rest[n]);
    }
  }

  // ---- One handler at a time ------------------------------------------------------------------

  /** Runs in which no failure message arrives and no operator asks for another verification. */
  predicate Undisturbed(ls: seq<Label>) {
    forall l :: l in ls ==> !l.StartRequeue? && !l.StartFailure?
  }

  /** Every processing run works on the current item, and nobody can pull it away. */
  predicate RunsCurrent(s: State) {
    forall w :: w in s.workers ==>
      (InRun(s.workers[w]) ==> s.db.Some? && s.workers[w].base == s.db.value)
      && (s.workers[w].Writing? ==> s.workers[w].kind != Requeue && s.workers[w].kind != FailMessage)
  }

  lemma WriteRunsCurrent(cfg: Config, s: State, w: nat)
    requires Inv(cfg, s) && RunsCurrent(s)
    requires Next(cfg, s, Write(w)).Some?
    ensures RunsCurrent(Next(cfg, s, Write(w)).value)
  {
    var x := s.workers[w];
    assert WorkerOk(cfg, x, s.db.value);
    if s.db.value.version == x.base.version {
      forall v | v in s.workers && v != w ensures !InRun(s.workers[v]) {
        assert WorkerOk(cfg, s.workers[v], s.db.value);
      }
      WriteStepForm(s, w, x.kind, x.base, x.outcome);
    }
  }

  lemma ReadRunsCurrent(s: State, w: nat, allowed: bool, kind: Kind)
    requires RunsCurrent(s) && w !in s.workers
    requires kind == Lock || kind == Touch || kind == Retry
    ensures RunsCurrent(ReadThen(s, w, allowed, kind))
  {
  }

  lemma StartRunsCurrent(cfg: Config, s: State, l: Label)
    requires Inv(cfg, s) && RunsCurrent(s) && Starts(l)
    requires !l.StartRequeue? && !l.StartFailure? && StartStep(s, l).Some?
    ensures RunsCurrent(StartStep(s, l).value)
  {
    match l
    case Insert(_) =>
      forall w | w in s.workers ensures !InRun(s.workers[w]) {
        assert RunsCurrent(s);
      }
    case StartProcess(w, redelivered) =>
      ReadRunsCurrent(TakeProcess(s, redelivered).value, w, HasStatus(s, Processable), Lock);
    case StartVerify(w, redelivered) =>
      ReadRunsCurrent(TakeVerify(s, redelivered).value, w, HasStatus(s, Verifiable), Touch);
    case StartRetry(w) => ReadRunsCurrent(s, w, HasStatus(s, st => st == Failed), Retry);
    case StartQueueing(_) =>
  }

  lemma StepRunsCurrent(cfg: Config, s: State, l: Label)
    requires Inv(cfg, s) && RunsCurrent(s)
    requires !l.StartRequeue? && !l.StartFailure? && Next(cfg, s, l).Some?
    ensures RunsCurrent(Next(cfg, s, l).value)
  {
    if l.Write? {
      WriteRunsCurrent(cfg, s, l.w);
    } else if Starts(l) {
      StartRunsCurrent(cfg, s, l);
    }
  }

  lemma {:induction false} UndisturbedRuns(cfg: Config, ls: seq<Label>)
    requires cfg.maxProcess >= 1 && Run(cfg, START, ls).Some? && Undisturbed(ls)
    ensures RunsCurrent(Run(cfg, START, ls).value)
  {
    if ls != [] {
      var n := |ls| - 1;
      UndisturbedRuns(cfg, ls[..n]);
      ReachedKeeps(cfg, ls[..n]);
      StepRunsCurrent(cfg, Run(cfg, START, ls[..n]).value, ls[n]);
    }
  }

  /** At most one processing run of a job is under way, however many messages, redeliveries, retries and
      crashes there are; and its result is sure to be stored. */
  lemma OneHandlerAtATime(cfg: Config, ls: seq<Label>, v: nat, w: nat)
    requires cfg.maxProcess >= 1 && Run(cfg, START, ls).Some? && Undisturbed(ls)
    requires v in Run(cfg, START, ls).value.workers && w in Run(cfg, START, ls).value.workers
    requires InRun(Run(cfg, START, ls).value.workers[v]) && InRun(Run(cfg, START, ls).value.workers[w])
    ensures v == w
    ensures Run(cfg, START, ls).value.db == Some(Run(cfg, START, ls).value.workers[w].base)
  {
    UndisturbedRuns(cfg, ls);
    ReachedKeeps(cfg, ls);
  }

  // ---- Exactly when a run is overtaken --------------------------------------------------------

  predicate PullsAway(kind: Kind) {
    kind == FailMessage || kind == Requeue
  }

  /** The write on top of the item a worker locked came from a failure message or an operator. */
  predicate Overtaken(s: State, base: Job) {
    base.version < |s.history| && PullsAway(s.history[base.version].kind)
  }

  /** A processing run works on the newest version, or was overtaken; its own end is never on top of it. */
  predicate RunsTraced(s: State) {
    forall w :: w in s.workers && InRun(s.workers[w]) ==>
      s.workers[w].base.version <= |s.history|
      && (s.workers[w].base.version < |s.history| ==> PullsAway(s.history[s.workers[w].base.version].kind))
  }

  /** A committed write while somebody else holds the current lock comes from a failure message or an operator. */
  lemma WritesOverRun(cfg: Config, s: State, v: nat, w: nat)
    requires Inv(cfg, s) && v != w && v in s.workers && w in s.workers
    requires InRun(s.workers[v]) && s.workers[v].base.version == |s.history|
    requires s.workers[w].Writing? && s.workers[w].base.version == |s.history|
    ensures PullsAway(s.workers[w].kind)
  {
    assert WorkerOk(cfg, s.workers[v], s.db.value) && WorkerOk(cfg, s.workers[w], s.db.value);
  }

  lemma WriteTraced(cfg: Config, s: State, w: nat)
    requires Inv(cfg, s) && RunsTraced(s) && w in s.workers && s.workers[w].Writing?
    ensures RunsTraced(Next(cfg, s, Write(w)).value)
  {
    var x := s.workers[w];
    assert WorkerOk(cfg, x, s.db.value);
    if s.db.value.version == x.base.version {
      WriteStepForm(s, w, x.kind, x.base, x.outcome);
      var t := Committed(s, w, x.kind, x.base, x.outcome);
      forall v | v in t.workers && InRun(t.workers[v])
        ensures t.workers[v].base.version < |t.history| && PullsAway(t.history[t.workers[v].base.version].kind)
      {
        if s.workers[v].base.version == |s.history| {
          WritesOverRun(cfg, s, v, w);
        }
      }
    }
  }

  lemma StepTraced(cfg: Config, s: State, l: Label)
    requires Inv(cfg, s) && RunsTraced(s) && Next(cfg, s, l).Some?
    ensures RunsTraced(Next(cfg, s, l).value)
  {
    if l.Write? {
      WriteTraced(cfg, s, l.w);
    } else {
      OnlyWritesLock(cfg, s, l);
    }
  }

  /** Other steps leave the history alone and start no processing run. */
  lemma OnlyWritesLock(cfg: Config, s: State, l: Label)
    requires !l.Write? && Next(cfg, s, l).Some?
    ensures var t := Next(cfg, s, l).value;
            t.history == s.history
            && forall w :: w in t.workers && InRun(t.workers[w]) ==>
                 w in s.workers && InRun(s.workers[w]) && s.workers[w].base == t.workers[w].base
  {
  }

  lemma {:induction false} RunTraced(cfg: Config, ls: seq<Label>)
    requires cfg.maxProcess >= 1 && Run(cfg, START, ls).Some?
    ensures RunsTraced(Run(cfg, START, ls).value)
  {
    if ls != [] {
      var n := |ls| - 1;
      RunTraced(cfg, ls[..n]);
      ReachedKeeps(cfg, ls[..n]);
      StepTraced(cfg, Run(cfg, START, ls[..n]).value, ls[n]);
    }
  }

  /** In every run, the result of a handler can be stored if and only if no failure message and no request
      to verify again was committed on top of its lock; nothing else can come between. */
  lemma RunIsCurrentIff(cfg: Config, ls: seq<Label>, w: nat)
    requires cfg.maxProcess >= 1 && Run(cfg, START, ls).Some?
    requires w in Run(cfg, START, ls).value.workers && InRun(Run(cfg, START, ls).value.workers[w])
    ensures var s := Run(cfg, START, ls).value;
            s.db == Some(s.workers[w].base) <==> !Overtaken(s, s.workers[w].base)
  {
    ReachedKeeps(cfg, ls);
    RunTraced(cfg, ls);
    TracedIff(cfg, Run(cfg, START, ls).value, w);
  }

  lemma TracedIff(cfg: Config, s: State, w: nat)
    requires Inv(cfg, s) && RunsTraced(s) && w in s.workers && InRun(s.workers[w])
    ensures s.db == Some(s.workers[w].base) <==> !Overtaken(s, s.workers[w].base)
  {
    assert WorkerOk(cfg, s.workers[w], s.db.value);
  }

  /** Two handlers of one job run at once only when one of them was overtaken in this way; so the current
      handler, if there is one, is the only one that was not. */
  lemma OverlapMeansOvertaken(cfg: Config, ls: seq<Label>, v: nat, w: nat)
    requires cfg.maxProcess >= 1 && Run(cfg, START, ls).Some? && v != w
    requires v in Run(cfg, START, ls).value.workers && w in Run(cfg, START, ls).value.workers
    requires InRun(Run(cfg, START, ls).value.workers[v]) && InRun(Run(cfg, START, ls).value.workers[w])
    ensures var s := Run(cfg, START, ls).value;
            Overtaken(s, s.workers[v].base) || Overtaken(s, s.workers[w].base)
  {
    ReachedKeeps(cfg, ls);
    RunTraced(cfg, ls);
    var s := Run(cfg, START, ls).value;
    assert s.workers[v].base.version != s.workers[w].base.version;
  }

  // ---- Where these stop -----------------------------------------------------------------------

  /** A run that reached a given state. */
  datatype Reached = Reached(labels: seq<Label>, state: State)

  predicate IsRun(cfg: Config, r: Reached) {
    Run(cfg, START, r.labels) == Some(r.state)
  }

  /** The run taken one label further. */
  function Then(cfg: Config, r: Reached, l: Label): Reached
    requires Next(cfg, r.state, l).Some?
  {
    Reached(r.labels + [l], Next(cfg, r.state, l).value)
  }

  lemma ThenIsRun(cfg: Config, r: Reached, l: Label)
    requires IsRun(cfg, r) && Next(cfg, r.state, l).Some?
    ensures IsRun(cfg, Then(cfg, r, l))
  {
    RunSnoc(cfg, START, r.labels, l);
  }

  /** A job locked by worker 0, with its message consumed. */
  lemma LockedRun(cfg: Config) returns (r: Reached)
    ensures IsRun(cfg, r)
    ensures r.state.db.Some? && r.state.db.value.status == LockedForProcessing && r.state.processQueue == 0
    ensures r.state.workers == map[0 := Processing(r.state.db.value)]
  {
    r := Reached([], START);
    ThenIsRun(cfg, r, Insert(0));
    r := Then(cfg, r, Insert(0));
    ThenIsRun(cfg, r, Send(0));
    r := Then(cfg, r, Send(0));
    assert r.state.processQueue == 1 && r.state.workers == map[];
    r := ProcessAgain(cfg, r, 0);
  }

  /** A waiting message of a processable job lets a free worker lock it. */
  lemma ProcessAgain(cfg: Config, r0: Reached, w: nat) returns (r: Reached)
    requires IsRun(cfg, r0) && r0.state.db.Some? && Processable(r0.state.db.value.status)
    requires r0.state.processQueue == 1 && w !in r0.state.workers
    ensures IsRun(cfg, r)
    ensures r.state.db.Some? && r.state.db.value.status == LockedForProcessing && r.state.processQueue == 0
    ensures r.state.workers == r0.state.workers[w := Processing(r.state.db.value)]
  {
    ThenIsRun(cfg, r0, StartProcess(w, false));
    r := Then(cfg, r0, StartProcess(w, false));
    ThenIsRun(cfg, r, Write(w));
    r := Then(cfg, r, Write(w));
  }

  /** A failure message turns a locked job to failed. */
  lemma FailedByMessage(cfg: Config, r0: Reached, w: nat) returns (r: Reached)
    requires IsRun(cfg, r0) && r0.state.db.Some? && r0.state.db.value.status == LockedForProcessing
    requires w !in r0.state.workers
    ensures IsRun(cfg, r)
    ensures r.state.db.Some? && r.state.db.value.status == Failed && r.state.processQueue == r0.state.processQueue
    ensures r.state.workers == r0.state.workers
  {
    ThenIsRun(cfg, r0, StartFailure(w));
    r := Then(cfg, r0, StartFailure(w));
    ThenIsRun(cfg, r, Write(w));
    r := Then(cfg, r, Write(w));
  }

  /** The read and the write of an operator's retry. */
  lemma RetryWritten(cfg: Config, r0: Reached, w: nat) returns (r: Reached)
    requires IsRun(cfg, r0) && r0.state.db.Some? && r0.state.db.value.status == Failed && w !in r0.state.workers
    ensures IsRun(cfg, r)
    ensures r.state.db.Some? && r.state.db.value.status == PendingRetry
    ensures r.state.processQueue == r0.state.processQueue
    ensures r.state.workers == r0.state.workers[w := Sending(ProcessQueue)]
  {
    ThenIsRun(cfg, r0, StartRetry(w));
    r := Then(cfg, r0, StartRetry(w));
    ThenIsRun(cfg, r, Write(w));
    r := Then(cfg, r, Write(w));
  }

  /** A retry puts a failed job back in the queue. */
  lemma Retried(cfg: Config, r0: Reached, w: nat) returns (r: Reached)
    requires IsRun(cfg, r0) && r0.state.db.Some? && r0.state.db.value.status == Failed
    requires r0.state.processQueue == 0 && w !in r0.state.workers
    ensures IsRun(cfg, r)
    ensures r.state.db.Some? && r.state.db.value.status == PendingRetry && r.state.processQueue == 1
    ensures r.state.workers == r0.state.workers
  {
    r := RetryWritten(cfg, r0, w);
    ThenIsRun(cfg, r, Send(w));
    r := Then(cfg, r, Send(w));
  }

  /** A failure message and a retry are enough for two handlers of one job to run at once: worker 0 is
      still inside its handler when worker 1 starts. */
  lemma HandlersMayOverlap(cfg: Config) returns (r: Reached)
    ensures IsRun(cfg, r)
    ensures 0 in r.state.workers && 1 in r.state.workers
    ensures r.state.workers[0].Processing? && r.state.workers[1].Processing?
  {
    r := LockedRun(cfg);
    r := FailedByMessage(cfg, r, 1);
    r := Retried(cfg, r, 1);
    r := ProcessAgain(cfg, r, 1);
  }

  /** The handler of worker w returns and the job moves to pending verification. */
  lemma ProcessedBy(cfg: Config, r0: Reached, w: nat, o: Outcome) returns (r: Reached)
    requires IsRun(cfg, r0) && r0.state.db.Some? && w in r0.state.workers
    requires r0.state.workers[w] == Processing(r0.state.db.value)
    ensures IsRun(cfg, r)
    ensures r.state.db.Some? && r.state.db.value.status == PendingVerification
    ensures r.state.verificationQueue == r0.state.verificationQueue + 1 && w !in r.state.workers
  {
    ThenIsRun(cfg, r0, ProcessDone(w, Processed(o)));
    r := Then(cfg, r0, ProcessDone(w, Processed(o)));
    ThenIsRun(cfg, r, Write(w));
    r := Then(cfg, r, Write(w));
    ThenIsRun(cfg, r, Send(w));
    r := Then(cfg, r, Send(w));
  }

  lemma VerifyStarted(cfg: Config, r0: Reached, w: nat) returns (r: Reached)
    requires IsRun(cfg, r0) && r0.state.db.Some? && r0.state.db.value.status == PendingVerification
    requires r0.state.verificationQueue > 0 && w !in r0.state.workers
    ensures IsRun(cfg, r)
    ensures r.state.db.Some? && w in r.state.workers && r.state.workers[w] == Verifying(r.state.db.value)
  {
    ThenIsRun(cfg, r0, StartVerify(w, false));
    r := Then(cfg, r0, StartVerify(w, false));
    ThenIsRun(cfg, r, Write(w));
    r := Then(cfg, r, Write(w));
  }

  /** A verification message of a job whose handler then reports success completes it. */
  lemma VerifiedBy(cfg: Config, r0: Reached, w: nat, o: Outcome) returns (r: Reached)
    requires IsRun(cfg, r0) && r0.state.db.Some? && r0.state.db.value.status == PendingVerification
    requires r0.state.verificationQueue > 0 && w !in r0.state.workers
    ensures IsRun(cfg, r) && w !in r.state.workers
    ensures r.state.db.Some? && r.state.db.value.status == Completed
  {
    r := VerifyStarted(cfg, r0, w);
    ThenIsRun(cfg, r, VerifyDone(w, Verified, o));
    r := Then(cfg, r, VerifyDone(w, Verified, o));
    ThenIsRun(cfg, r, Write(w));
    r := Then(cfg, r, Write(w));
  }

  /** A completed job goes back to pending verification when an operator asks for it. */
  lemma CompletedMayReopen(cfg: Config, o: Outcome) returns (completed: Reached, reopened: Reached)
    ensures IsRun(cfg, completed) && IsRun(cfg, reopened)
    ensures reopened.labels == completed.labels + [StartRequeue(0)] + [Write(0)]
    ensures completed.state.db.Some? && completed.state.db.value.status == Completed
    ensures reopened.state.db.Some? && reopened.state.db.value.status == PendingVerification
  {
    var r := LockedRun(cfg);
    r := ProcessedBy(cfg, r, 0, o);
    completed := VerifiedBy(cfg, r, 0, o);
    ThenIsRun(cfg, completed, StartRequeue(0));
    reopened := Then(cfg, completed, StartRequeue(0));
    ThenIsRun(cfg, reopened, Write(0));
    reopened := Then(cfg, reopened, Write(0));
  }
}
