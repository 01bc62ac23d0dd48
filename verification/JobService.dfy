/** The functions of crates/orchestrator/src/jobs/mod.rs as they are written: each reads the job, changes
    a local copy, and commits it to the database and the queues one call at a time. At every await the
    other workers may take any number of steps. The functions are shown to be runs of the job protocol,
    so whatever holds of every run holds of them. */
module JobService {
  import opened Outcomes
  import opened JobProtocol
  import opened JobSafety

  /** How a function ends: its error, or Done. */
  datatype Ended = Done | NotFound | InvalidStatus | AtCapacity | LockLost | Outdated | HandlerError

  // ---- Steps of one worker among others -------------------------------------------------------

  predicate By(l: Label, w: nat) {
    !l.Bounce? && l.w == w
  }

  predicate Foreign(ls: seq<Label>, w: nat) {
    forall l :: l in ls ==> !By(l, w)
  }

  /** The steps of worker w, in order. */
  function Own(ls: seq<Label>, w: nat): seq<Label> {
    if ls == [] then []
    else
      var n := |ls| - 1;
      Own(ls[..n], w) + (if By(ls[n], w) then [ls[n]] else [])
  }

  lemma {:induction false} OwnJoin(a: seq<Label>, b: seq<Label>, w: nat)
    ensures Own(a + b, w) == Own(a, w) + Own(b, w)
  {
    if b == [] {
      assert a + b == a;
    } else {
      var n := |b| - 1;
      OwnJoin(a, b[..n], w);
      OwnLast(a + b, a + b[..n], b[n], w);
      OwnLast(b, b[..n], b[n], w);
      JoinSteps(Own(a, w), Own(b[..n], w), if By(b[n], w) then [b[n]] else []);
    }
  }

  lemma OwnLast(ls: seq<Label>, front: seq<Label>, l: Label, w: nat)
    requires ls == front + [l]
    ensures Own(ls, w) == Own(front, w) + (if By(l, w) then [l] else [])
  {
    assert ls[..|ls| - 1] == front;
  }

  lemma {:induction false} OwnOfForeign(ls: seq<Label>, w: nat)
    requires Foreign(ls, w)
    ensures Own(ls, w) == []
  {
    if ls != [] {
      OwnOfForeign(ls[..|ls| - 1], w);
    }
  }

  lemma ForeignStep(cfg: Config, s: State, l: Label, w: nat)
    requires !By(l, w) && Next(cfg, s, l).Some?
    ensures w in s.workers <==> w in Next(cfg, s, l).value.workers
    ensures w in s.workers ==> Next(cfg, s, l).value.workers[w] == s.workers[w]
  {
  }

  lemma {:induction false} ForeignRun(cfg: Config, s: State, ls: seq<Label>, w: nat)
    requires Foreign(ls, w) && Run(cfg, s, ls).Some?
    ensures w in s.workers <==> w in Run(cfg, s, ls).value.workers
    ensures w in s.workers ==> Run(cfg, s, ls).value.workers[w] == s.workers[w]
  {
    if ls != [] {
      var n := |ls| - 1;
      ForeignRun(cfg, s, ls[..n], w);
      ForeignStep(cfg, Run(cfg, s, ls[..n]).value, ls[n], w);
    }
  }

  lemma StepRuns(cfg: Config, ls: seq<Label>, s: State, l: Label, t: State)
    requires Run(cfg, START, ls) == Some(s) && Next(cfg, s, l) == Some(t)
    ensures Run(cfg, START, ls + [l]) == Some(t)
    ensures !l.Bounce? ==> Own(ls + [l], l.w) == Own(ls, l.w) + [l]
    ensures l.Bounce? ==> forall w :: Own(ls + [l], w) == Own(ls, w)
  {
    RunSnoc(cfg, START, ls, l);
    assert (ls + [l])[..|ls|] == ls;
  }

  /** A write of the version the document has, field by field. */
  lemma AcceptedWrite(s: State, w: nat, kind: Kind, base: Job, o: Outcome, stored: Job, t: State)
    requires s.db.Some? && s.db.value.version == base.version
    requires stored == Apply(s.db.value, UpdatesOf(kind, base, o))
    requires t == s.(db := Some(stored), history := s.history + [Record(kind, s.db.value, o, stored)])
    ensures WriteStep(s, w, kind, base, o) == t.(workers := After(t, w, kind, stored).workers)
  {
  }

  lemma SendEffect(cfg: Config, s: State, w: nat, q: Queue, t: State)
    requires w in s.workers && s.workers[w] == Sending(q)
    requires t == s.(workers := s.workers - {w},
                     processQueue := s.processQueue + (if q == ProcessQueue then 1 else 0),
                     verificationQueue := s.verificationQueue + (if q == VerificationQueue then 1 else 0))
    ensures Next(cfg, s, Send(w)) == Some(t)
  {
  }

  lemma VerifyStarts(s: State, w: nat, redelivered: bool)
    requires w !in s.workers && (redelivered || s.verificationQueue > 0)
    ensures StartStep(s, StartVerify(w, redelivered)).Some?
  {
  }

  lemma ProcessStarts(s: State, w: nat, redelivered: bool)
    requires w !in s.workers && (redelivered || s.processQueue > 0)
    ensures StartStep(s, StartProcess(w, redelivered)).Some?
  {
  }

  lemma WriteStepRuns(cfg: Config, ls: seq<Label>, s: State, w: nat)
    requires Run(cfg, START, ls) == Some(s) && w in s.workers && s.workers[w].Writing?
    ensures var x := s.workers[w];
            Run(cfg, START, ls + [Write(w)]) == Some(WriteStep(s, w, x.kind, x.base, x.outcome))
    ensures Own(ls + [Write(w)], w) == Own(ls, w) + [Write(w)]
  {
    RunSnoc(cfg, START, ls, Write(w));
    assert (ls + [Write(w)])[..|ls|] == ls;
  }

  // ---- What each function does ----------------------------------------------------------------

  lemma JoinSteps(a: seq<Label>, b: seq<Label>, c: seq<Label>)
    ensures a + b + c == a + (b + c)
  {
  }

  function LockSteps(w: nat, redelivered: bool): seq<Label> {
    [StartProcess(w, redelivered), Write(w)]
  }

  function FinishSteps(w: nat, result: ProcessResult, r: Ended): seq<Label> {
    [ProcessDone(w, result), Write(w)] + (if r == Done && result.Processed? then [Send(w)] else [])
  }

  /** The steps of process_job, by how it ends. */
  function ProcessSteps(w: nat, redelivered: bool, result: ProcessResult, r: Ended): seq<Label> {
    match r
    case Done => LockSteps(w, redelivered) + FinishSteps(w, result, r)
    case Outdated => LockSteps(w, redelivered) + FinishSteps(w, result, r)
    case LockLost => LockSteps(w, redelivered)
    case AtCapacity => []
    case _ => [StartProcess(w, redelivered)]
  }

  function TouchSteps(w: nat, redelivered: bool): seq<Label> {
    [StartVerify(w, redelivered), Write(w)]
  }

  function VerdictSteps(w: nat, verdict: VerifyResult, o: Outcome, resent: Option<Queue>): seq<Label> {
    [VerifyDone(w, verdict, o)] + (if verdict == VerifierError then [] else [Write(w)])
    + (if resent.Some? then [Send(w)] else [])
  }

  /** The steps of verify_job, by how it ends and the message it sends last. */
  function VerifySteps(w: nat, redelivered: bool, verdict: VerifyResult, o: Outcome, r: Ended, resent: Option<Queue>)
    : seq<Label>
  {
    match r
    case LockLost => TouchSteps(w, redelivered)
    case NotFound => [StartVerify(w, redelivered)]
    case InvalidStatus => [StartVerify(w, redelivered)]
    case _ => TouchSteps(w, redelivered) + VerdictSteps(w, verdict, o, resent)
  }

  /** The steps of a function that writes once and then sends. */
  function OperatorSteps(w: nat, start: Label, r: Ended): seq<Label> {
    match r
    case Done => [start, Write(w), Send(w)]
    case Outdated => [start, Write(w)]
    case _ => [start]
  }

  lemma OperatorStepsAre(own: seq<Label>, w: nat, start: Label, r: Ended)
    requires r == Done || r == Outdated
    ensures own + [start] + [Write(w)] + (if r == Done then [Send(w)] else []) == own + OperatorSteps(w, start, r)
  {
  }

  lemma TouchStores(job: Job)
    ensures UpdatesOf(Touch, job, NO_OUTCOME) == Updates(None, Some(job.metadata), None)
    ensures Apply(job, Updates(None, Some(job.metadata), None)) == job.(version := job.version + 1)
  {
  }

  lemma LockStores(job: Job)
    ensures UpdatesOf(Lock, job, NO_OUTCOME) == Updates(Some(LockedForProcessing), Some(job.metadata), None)
    ensures Apply(job, Updates(Some(LockedForProcessing), Some(job.metadata), None))
         == Job(LockedForProcessing, job.externalId, job.metadata, job.version + 1)
  {
  }

  lemma StartThenWrite(own: seq<Label>, w: nat, start: Label)
    ensures own + [start] + [Write(w)] == own + [start, Write(w)]
  {
  }

  lemma RequeueStores(job: Job, m: Metadata)
    requires m == job.metadata.(verificationAttempts := 0, verificationRetries := job.metadata.verificationRetries + 1)
    ensures UpdatesOf(Requeue, job, NO_OUTCOME) == Updates(Some(PendingVerification), Some(m), None)
    ensures Apply(job, Updates(Some(PendingVerification), Some(m), None))
         == Job(PendingVerification, job.externalId, m, job.version + 1)
  {
  }

  lemma RetryStores(job: Job, m: Metadata)
    requires m == job.metadata.(processAttempts := 0, processRetries := job.metadata.processRetries + 1)
    ensures UpdatesOf(Retry, job, NO_OUTCOME) == Updates(Some(PendingRetry), Some(m), None)
    ensures Apply(job, Updates(Some(PendingRetry), Some(m), None))
         == Job(PendingRetry, job.externalId, m, job.version + 1)
  {
  }

  /** The first write of a function. */
  function StartKind(l: Label): Kind {
    match l
    case StartProcess(_, _) => Lock
    case StartVerify(_, _) => Touch
    case StartFailure(_) => FailMessage
    case StartRetry(_) => Retry
    case _ => Requeue
  }

  // ---- Undisturbed effects --------------------------------------------------------------------

  /** Nobody acts while the function waits. */
  predicate Alone(others: seq<seq<Label>>) {
    forall k :: 0 <= k < |others| ==> others[k] == []
  }

  /** The document and its two queues. */
  datatype Store = Store(db: Option<Job>, processQueue: nat, verificationQueue: nat)

  function Taken(s: Store, redelivered: bool): Store {
    if redelivered || s.processQueue == 0 then s else s.(processQueue := s.processQueue - 1)
  }

  function TakenToVerify(s: Store, redelivered: bool): Store {
    if redelivered || s.verificationQueue == 0 then s else s.(verificationQueue := s.verificationQueue - 1)
  }

  function Queued(s: Store, q: Queue): Store {
    match q
    case ProcessQueue => s.(processQueue := s.processQueue + 1)
    case VerificationQueue => s.(verificationQueue := s.verificationQueue + 1)
  }

  function LockOf(job: Job): Job {
    Job(LockedForProcessing, job.externalId, job.metadata, job.version + 1)
  }

  /** The handler's results and one more attempt on top of the lock; or a failed job. */
  function ResultOf(job: Job, result: ProcessResult): Job {
    var m := job.metadata.(specific := result.outcome.specific);
    if result.Processed? then
      Job(PendingVerification, result.outcome.externalId, m.(processAttempts := m.processAttempts + 1), job.version + 1)
    else Job(Failed, job.externalId, m, job.version + 1)
  }

  function WithResult(s: Store, job: Job, result: ProcessResult): Store {
    var t := s.(db := Some(ResultOf(job, result)));
    if result.Processed? then Queued(t, VerificationQueue) else t
  }

  /** The document after a write, and the message behind it, if any. */
  function Written(s: Store, stored: Job, message: Option<Queue>): Store {
    var t := s.(db := Some(stored));
    match message
    case None => t
    case Some(q) => Queued(t, q)
  }

  /** What a verdict leaves of a job whose verification has begun. */
  function WithVerdict(s: Store, cfg: Config, job: Job, verdict: VerifyResult, o: Outcome): Store {
    var m := job.metadata;
    var told := m.(specific := o.specific);
    match verdict
    case Verified => Written(s, Job(Completed, job.externalId, told, job.version + 1), None)
    case Rejected =>
      if m.processAttempts < cfg.maxProcess then
        Written(s, Job(VerificationFailed, job.externalId, told, job.version + 1), Some(ProcessQueue))
      else Written(s, Job(Failed, job.externalId, told, job.version + 1), None)
    case StillPending =>
      if m.verificationAttempts < cfg.maxVerify then
        Written(s, Job(job.status, job.externalId, told.(verificationAttempts := m.verificationAttempts + 1),
                       job.version + 1), Some(VerificationQueue))
      else Written(s, Job(VerificationTimeout, job.externalId, m, job.version + 1), None)
    case VerifierError => s
  }

  /** What both halves of verify_job leave of a job, field by field. */
  lemma VerdictFields(s: Store, cfg: Config, job: Job, redelivered: bool, verdict: VerifyResult, o: Outcome, t: Store)
    requires redelivered || s.verificationQueue > 0
    requires t == VerifiedStore(s, cfg, job, redelivered, verdict, o)
    ensures var m := job.metadata;
            var retried := verdict == Rejected && m.processAttempts < cfg.maxProcess;
            var polled := verdict == StillPending && m.verificationAttempts < cfg.maxVerify;
            t == Store(
                   Some(match verdict
                        case Verified =>
                          Job(Completed, job.externalId, m.(specific := o.specific), job.version + 2)
                        case Rejected =>
                          Job(if retried then VerificationFailed else Failed, job.externalId,
                              m.(specific := o.specific), job.version + 2)
                        case StillPending =>
                          if polled then
                            Job(job.status, job.externalId,
                                m.(specific := o.specific, verificationAttempts := m.verificationAttempts + 1),
                                job.version + 2)
                          else Job(VerificationTimeout, job.externalId, m, job.version + 2)
                        case VerifierError => Job(job.status, job.externalId, m, job.version + 1)),
                   s.processQueue + (if retried then 1 else 0),
                   s.verificationQueue - (if redelivered then 0 else 1) + (if polled then 1 else 0))
  {
  }

  /** A job whose verification begins, and the verdict on it. */
  function VerifiedStore(s: Store, cfg: Config, job: Job, redelivered: bool, verdict: VerifyResult, o: Outcome): Store {
    var touched := job.(version := job.version + 1);
    WithVerdict(TakenToVerify(s, redelivered).(db := Some(touched)), cfg, touched, verdict, o)
  }

  /** What both halves of process_job leave of a job, field by field. */
  function ProcessedStore(s: Store, job: Job, redelivered: bool, result: ProcessResult): Store
    requires redelivered || s.processQueue > 0
  {
    var m, o := job.metadata, result.outcome;
    Store(Some(if result.Processed? then
                 Job(PendingVerification, o.externalId,
                     m.(specific := o.specific, processAttempts := m.processAttempts + 1), job.version + 2)
               else Job(Failed, job.externalId, m.(specific := o.specific), job.version + 2)),
          s.processQueue - (if redelivered then 0 else 1),
          s.verificationQueue + (if result.Processed? then 1 else 0))
  }

  lemma ResultFields(s: Store, job: Job, redelivered: bool, result: ProcessResult)
    requires redelivered || s.processQueue > 0
    ensures WithResult(Taken(s, redelivered), LockOf(job), result) == ProcessedStore(s, job, redelivered, result)
  {
  }

  class JobService {
    const cfg: Config
    var db: Option<Job>
    var processQueue: nat
    var verificationQueue: nat
    var workers: map<nat, Worker>
    var history: seq<Record>
    var consumed: nat
    ghost var labels: seq<Label>

    function View(): State
      reads this
    {
      State(db, processQueue, verificationQueue, workers, history, consumed)
    }

    function Held(): Store
      reads this
    {
      Store(db, processQueue, verificationQueue)
    }

    /** The service is where its steps took it. */
    ghost predicate Valid()
      reads this
    {
      Run(cfg, START, labels) == Some(View())
    }

    constructor (cfg: Config)
      ensures Valid() && this.cfg == cfg && View() == START && labels == []
    {
      this.cfg := cfg;
      db, processQueue, verificationQueue, workers, history, consumed := None, 0, 0, map[], [], 0;
      labels := [];
    }

    /** One protocol step. */
    method Step(l: Label)
      requires Valid() && Next(cfg, View(), l).Some?
      modifies this
      ensures Valid() && labels == old(labels) + [l]
      ensures !l.Bounce? ==> Own(labels, l.w) == Own(old(labels), l.w) + [l]
      ensures l.Bounce? ==> forall w :: Own(labels, w) == Own(old(labels), w)
      ensures Next(cfg, old(View()), l) == Some(View())
    {
      var t := Next(cfg, View(), l).value;
      StepRuns(cfg, labels, View(), l, t);
      db, processQueue, verificationQueue := t.db, t.processQueue, t.verificationQueue;
      workers, history, consumed := t.workers, t.history, t.consumed;
      labels := labels + [l];
    }

    /** While worker w waits, the others do as they please. */
    method Await(w: nat, others: seq<Label>)
      requires Valid() && Foreign(others, w)
      modifies this
      ensures Valid() && Own(labels, w) == Own(old(labels), w)
      ensures w in workers <==> w in old(workers)
      ensures w in workers ==> workers[w] == old(workers)[w]
      ensures others == [] ==> View() == old(View())
    {
      match Run(cfg, View(), others)
      case None =>
      case Some(t) =>
        RunJoin(cfg, START, labels, View(), others, t);
        ForeignRun(cfg, View(), others, w);
        OwnJoin(labels, others, w);
        OwnOfForeign(others, w);
        db, processQueue, verificationQueue := t.db, t.processQueue, t.verificationQueue;
        workers, history, consumed := t.workers, t.history, t.consumed;
        labels := labels + others;
    }

    /** Where worker w stands. */
    function Standing(w: nat): Option<Worker>
      reads this
    {
      if w in workers then Some(workers[w]) else None
    }

    /** A message is taken or an endpoint called, and the job read; worker w goes on if its status allows. */
    method Begin(w: nat, l: Label, kind: Kind)
      requires Valid() && w !in workers && By(l, w) && Starts(l) && !l.Insert? && !l.StartQueueing?
      requires StartStep(View(), l).Some? && kind == StartKind(l)
      modifies this
      ensures Valid() && Own(labels, w) == Own(old(labels), w) + [l]
      ensures db == old(db)
      ensures l.StartProcess? ==> Held() == Taken(old(Held()), l.redelivered)
      ensures l.StartVerify? ==> Held() == TakenToVerify(old(Held()), l.redelivered)
      ensures !l.StartProcess? && !l.StartVerify? ==> Held() == old(Held())
      ensures Standing(w) == if old(db).Some? && Allowed(kind, old(db).value.status)
                             then Some(Writing(kind, old(db).value, NO_OUTCOME)) else None
    {
      Step(l);
    }

    /** update_job: the document with the caller's id and version is found and changed in one atomic
        operation, and its new form returned. */
    method UpdateDocument(w: nat, job: Job, updates: Updates, kind: Kind, base: Job, o: Outcome)
      returns (r: Option<Job>)
      requires Valid() && Standing(w) == Some(Writing(kind, base, o))
      requires job.version == base.version && updates == UpdatesOf(kind, base, o)
      modifies this
      ensures Valid() && Own(labels, w) == Own(old(labels), w) + [Write(w)]
      ensures r == UpdateJob(old(db), job, updates)
      ensures Held() == if r.None? then old(Held()) else old(Held()).(db := r)
      ensures Standing(w) == if r.Some? then Follow(kind, r.value) else None
    {
      ghost var s := View();
      if db.Some? && db.value.version == job.version {
        var before := db.value;
        var status := if updates.status.Some? then updates.status.value else before.status;
        var metadata := if updates.metadata.Some? then updates.metadata.value else before.metadata;
        var externalId := if updates.externalId.Some? then updates.externalId.value else before.externalId;
        db := Some(Job(status, externalId, metadata, job.version + 1));
        r := db;
        history := history + [Record(kind, before, o, db.value)];
        AcceptedWrite(s, w, kind, base, o, db.value, View());
        workers := After(View(), w, kind, db.value).workers;
      } else {
        r := None;
        workers := workers - {w};
      }
      assert View() == WriteStep(s, w, kind, base, o);
      WriteStepRuns(cfg, labels, s, w);
      labels := labels + [Write(w)];
    }

    /** process_job, for a message that was just taken from the process queue or delivered again. */
    method ProcessJob(w: nat, redelivered: bool, permit: bool, result: ProcessResult, others: seq<seq<Label>>)
      returns (r: Ended)
      requires Valid() && w !in workers && (redelivered || processQueue > 0)
      requires |others| == 4 && forall k :: 0 <= k < 4 ==> Foreign(others[k], w)
      modifies this
      ensures Valid() && w !in workers
      ensures Own(labels, w) == Own(old(labels), w) + ProcessSteps(w, redelivered, result, r)
      ensures r == NotFound <==> old(db).None?
      ensures r == InvalidStatus <==>
                old(db).Some? && old(db).value.status !in {Created, VerificationFailed, PendingRetry}
      ensures r == AtCapacity <==>
                old(db).Some? && old(db).value.status in {Created, VerificationFailed, PendingRetry} && !permit
      // Undisturbed, the message is consumed, or goes back for lack of a permit; otherwise the job is locked,
      // the handler's results are stored on top of the lock, and one verification message is sent, or it fails.
      ensures Alone(others) && r in {NotFound, InvalidStatus} ==>
                Held() == Store(old(db), old(processQueue) - (if redelivered then 0 else 1), old(verificationQueue))
      ensures Alone(others) && r == AtCapacity ==>
                Held() == Store(old(db), old(processQueue) + (if redelivered then 1 else 0), old(verificationQueue))
      ensures Alone(others) && r !in {NotFound, InvalidStatus, AtCapacity} ==>
                var job, m, o := old(db).value, old(db).value.metadata, result.outcome;
                Held() == Store(Some(if result.Processed? then
                                       Job(PendingVerification, o.externalId,
                                           m.(specific := o.specific, processAttempts := m.processAttempts + 1),
                                           job.version + 2)
                                     else Job(Failed, job.externalId, m.(specific := o.specific), job.version + 2)),
                                old(processQueue) - (if redelivered then 0 else 1),
                                old(verificationQueue) + (if result.Processed? then 1 else 0))
    {
      if db.None? || !(db.value.status in {Created, VerificationFailed, PendingRetry}) {
        ProcessStarts(View(), w, redelivered);
        r := Refuse(w, StartProcess(w, redelivered), Lock);
      } else if !permit {
        Bounced(w, redelivered);
        r := AtCapacity;
      } else {
        var job := db.value;
        r := ProcessAccepted(w, redelivered, job, result, others);
      }
    }

    /** A message for a job that is missing or in the wrong status is only consumed. */
    method Refuse(w: nat, l: Label, kind: Kind) returns (r: Ended)
      requires Valid() && w !in workers && By(l, w) && (l.StartProcess? || l.StartVerify?)
      requires StartStep(View(), l).Some? && kind == StartKind(l)
      requires db.None? || !Allowed(kind, db.value.status)
      modifies this
      ensures Valid() && w !in workers && Own(labels, w) == Own(old(labels), w) + [l]
      ensures db == old(db) && r == if db.None? then NotFound else InvalidStatus
      ensures l.StartProcess? ==> Held() == Taken(old(Held()), l.redelivered)
      ensures l.StartVerify? ==> Held() == TakenToVerify(old(Held()), l.redelivered)
    {
      Begin(w, l, kind);
      r := if db.None? then NotFound else InvalidStatus;
    }

    /** Without a permit the message goes back to its queue. */
    method Bounced(w: nat, redelivered: bool)
      requires Valid() && w !in workers && (redelivered || processQueue > 0)
      modifies this
      ensures Valid() && w !in workers && Own(labels, w) == Own(old(labels), w)
      ensures db == old(db) && verificationQueue == old(verificationQueue)
      ensures processQueue == old(processQueue) + (if redelivered then 1 else 0)
    {
      Step(Bounce(redelivered));
    }

    /** process_job for a job whose status it accepts, with a permit. */
    method ProcessAccepted(w: nat, redelivered: bool, job: Job, result: ProcessResult, others: seq<seq<Label>>)
      returns (r: Ended)
      requires Valid() && w !in workers && (redelivered || processQueue > 0)
      requires db == Some(job) && Processable(job.status)
      requires |others| == 4 && forall k :: 0 <= k < 4 ==> Foreign(others[k], w)
      modifies this
      ensures Valid() && w !in workers
      ensures r == Done || r == Outdated || r == LockLost
      ensures Alone(others) ==> Held() == ProcessedStore(old(Held()), job, redelivered, result)
      ensures Own(labels, w) == Own(old(labels), w) + ProcessSteps(w, redelivered, result, r)
    {
      ResultFields(Held(), job, redelivered, result);
      ghost var own := Own(labels, w);
      var locked := TryLock(w, redelivered, job, others[0]);
      if locked.None? {
        return LockLost;
      }
      r := FinishProcessing(w, locked.value, result, others[1..]);
      JoinSteps(own, LockSteps(w, redelivered), FinishSteps(w, result, r));
    }

    /** The first half of process_job: the message is taken, the job read and locked. */
    method TryLock(w: nat, redelivered: bool, job: Job, others: seq<Label>) returns (locked: Option<Job>)
      requires Valid() && w !in workers && (redelivered || processQueue > 0) && Foreign(others, w)
      requires db == Some(job) && Processable(job.status)
      modifies this
      ensures Valid() && Own(labels, w) == Own(old(labels), w) + LockSteps(w, redelivered)
      ensures Standing(w) == if locked.Some? then Some(Processing(locked.value)) else None
      ensures locked.Some? ==> locked.value == LockOf(job.(externalId := locked.value.externalId))
      ensures others == [] ==>
                locked == Some(LockOf(job)) && Held() == Taken(old(Held()), redelivered).(db := locked)
    {
      ProcessStarts(View(), w, redelivered);
      LockStores(job);
      StartThenWrite(Own(labels, w), w, StartProcess(w, redelivered));
      Begin(w, StartProcess(w, redelivered), Lock);
      Await(w, others);
      locked := UpdateDocument(w, job, Updates(Some(LockedForProcessing), Some(job.metadata), None), Lock, job, NO_OUTCOME);
    }

    /** The second half of process_job, from the end of its handler on. */
    method FinishProcessing(w: nat, locked: Job, result: ProcessResult, others: seq<seq<Label>>) returns (r: Ended)
      requires Valid() && Standing(w) == Some(Processing(locked)) && locked.status == LockedForProcessing
      requires |others| == 3 && forall k :: 0 <= k < 3 ==> Foreign(others[k], w)
      modifies this
      ensures Valid() && w !in workers
      ensures r == Done || r == Outdated
      ensures Own(labels, w) == Own(old(labels), w) + FinishSteps(w, result, r)
      ensures Alone(others) && old(db) == Some(locked) ==> Held() == WithResult(old(Held()), locked, result)
    {
      Await(w, others[0]);
      var job := locked.(metadata := locked.metadata.(specific := result.outcome.specific));
      Report(w, ProcessDone(w, result), if result.Processed? then Commit else FailProcessing, locked, result.outcome);
      r := StoreResult(w, job, locked, result, others[1..]);
    }

    /** The handler's result is stored, or its failure. */
    method StoreResult(w: nat, job: Job, locked: Job, result: ProcessResult, others: seq<seq<Label>>) returns (r: Ended)
      requires Valid() && locked.status == LockedForProcessing
      requires Standing(w) == Some(Writing(if result.Processed? then Commit else FailProcessing, locked, result.outcome))
      requires job == locked.(metadata := locked.metadata.(specific := result.outcome.specific))
      requires |others| == 2 && Foreign(others[0], w) && Foreign(others[1], w)
      modifies this
      ensures Valid() && w !in workers
      ensures r == Done || r == Outdated
      ensures Own(labels, w) == Own(old(labels), w) + [Write(w)] + (if r == Done && result.Processed? then [Send(w)] else [])
      ensures Alone(others) && old(db) == Some(locked) ==> Held() == WithResult(old(Held()), locked, result)
    {
      Await(w, others[0]);
      if result.ProcessingFailed? {
        r := MoveJobToFailed(w, job, FailProcessing, locked, result.outcome);
      } else {
        r := CommitProcessing(w, job, locked, result.outcome, others[1]);
      }
    }

    /** The attempt is counted, the result stored, and a verification message sent. */
    method CommitProcessing(w: nat, processed: Job, locked: Job, o: Outcome, beforeSend: seq<Label>) returns (r: Ended)
      requires Valid() && Standing(w) == Some(Writing(Commit, locked, o)) && Foreign(beforeSend, w)
      requires processed == locked.(metadata := locked.metadata.(specific := o.specific))
      modifies this
      ensures Valid() && w !in workers
      ensures r == Done || r == Outdated
      ensures Own(labels, w) == Own(old(labels), w) + [Write(w)] + (if r == Done then [Send(w)] else [])
      ensures beforeSend == [] && old(db) == Some(locked) ==> Held() == WithResult(old(Held()), locked, Processed(o))
    {
      var job := processed;
      job := job.(metadata := job.metadata.(processAttempts := job.metadata.processAttempts + 1));
      var stored := UpdateDocument(w, job, Updates(Some(PendingVerification), Some(job.metadata), Some(o.externalId)),
                                   Commit, locked, o);
      if stored.None? {
        return Outdated;
      }
      Await(w, beforeSend);
      Enqueue(w, VerificationQueue);
      r := Done;
    }

    /** A handler returns, and worker w prepares the write that follows. */
    method Report(w: nat, l: Label, kind: Kind, base: Job, o: Outcome)
      requires Valid() && By(l, w)
      requires (Standing(w) == Some(Processing(base)) && l.ProcessDone? && l.result.outcome == o
                && kind == (if l.result.Processed? then Commit else FailProcessing))
               || (Standing(w) == Some(Verifying(base)) && l.VerifyDone? && l.outcome == o
                   && Some(kind) == VerdictKind(cfg, base, l.verdict))
      modifies this
      ensures Valid() && Own(labels, w) == Own(old(labels), w) + [l]
      ensures Standing(w) == Some(Writing(kind, base, o)) && Held() == old(Held())
    {
      Step(l);
    }

    /** A message for the job is put on a queue. */
    method Enqueue(w: nat, q: Queue)
      requires Valid() && Standing(w) == Some(Sending(q))
      modifies this
      ensures Valid() && Own(labels, w) == Own(old(labels), w) + [Send(w)] && w !in workers
      ensures Held() == Queued(old(Held()), q)
    {
      ghost var s := View();
      match q {
        case ProcessQueue => processQueue := processQueue + 1;
        case VerificationQueue => verificationQueue := verificationQueue + 1;
      }
      workers := workers - {w};
      SendEffect(cfg, s, w, q, View());
      StepRuns(cfg, labels, s, Send(w), View());
      labels := labels + [Send(w)];
    }

    /** move_job_to_failed, on a job that is neither completed nor failed. */
    method MoveJobToFailed(w: nat, job: Job, kind: Kind, base: Job, o: Outcome) returns (r: Ended)
      requires Valid() && Standing(w) == Some(Writing(kind, base, o))
      requires kind in {FailProcessing, FailVerification, FailMessage} && job.version == base.version
      requires UpdatesOf(kind, base, o) == Updates(Some(Failed), Some(job.metadata), None)
      modifies this
      ensures Valid() && Own(labels, w) == Own(old(labels), w) + [Write(w)] && w !in workers
      ensures r == if UpdateJob(old(db), base, UpdatesOf(kind, base, o)).Some? then Done else Outdated
      ensures old(db) == Some(base) ==> Held() == old(Held()).(db := Some(Apply(base, UpdatesOf(kind, base, o))))
    {
      var stored := UpdateDocument(w, job, Updates(Some(Failed), Some(job.metadata), None), kind, base, o);
      r := if stored.Some? then Done else Outdated;
    }

    /** verify_job, for a message that was just taken from the verification queue or delivered again. */
    method VerifyJob(w: nat, redelivered: bool, verdict: VerifyResult, o: Outcome, others: seq<seq<Label>>)
      returns (r: Ended, resent: Option<Queue>)
      requires Valid() && w !in workers && (redelivered || verificationQueue > 0)
      requires |others| == 4 && forall k :: 0 <= k < 4 ==> Foreign(others[k], w)
      modifies this
      ensures Valid() && w !in workers
      ensures Own(labels, w) == Own(old(labels), w) + VerifySteps(w, redelivered, verdict, o, r, resent)
      ensures r == NotFound <==> old(db).None?
      ensures r == InvalidStatus <==>
                old(db).Some? && old(db).value.status !in {PendingVerification, VerificationTimeout}
      // Undisturbed, each verdict stores its own status and counters on top of the first write, and sends a
      // message exactly when the job goes on.
      ensures Alone(others) && r in {NotFound, InvalidStatus} ==>
                Held() == Store(old(db), old(processQueue), old(verificationQueue) - (if redelivered then 0 else 1))
      ensures Alone(others) && r !in {NotFound, InvalidStatus} ==>
                var job, m := old(db).value, old(db).value.metadata;
                var retried := verdict == Rejected && m.processAttempts < cfg.maxProcess;
                var polled := verdict == StillPending && m.verificationAttempts < cfg.maxVerify;
                r == (if verdict == VerifierError then HandlerError else Done)
                && Held() == Store(
                     Some(match verdict
                          case Verified =>
                            Job(Completed, job.externalId, m.(specific := o.specific), job.version + 2)
                          case Rejected =>
                            Job(if retried then VerificationFailed else Failed, job.externalId,
                                m.(specific := o.specific), job.version + 2)
                          case StillPending =>
                            if polled then
                              Job(job.status, job.externalId,
                                  m.(specific := o.specific, verificationAttempts := m.verificationAttempts + 1),
                                  job.version + 2)
                            else Job(VerificationTimeout, job.externalId, m, job.version + 2)
                          case VerifierError => Job(job.status, job.externalId, m, job.version + 1)),
                     old(processQueue) + (if retried then 1 else 0),
                     old(verificationQueue) - (if redelivered then 0 else 1) + (if polled then 1 else 0))
    {
      resent := None;
      if db.None? || (db.value.status != PendingVerification && db.value.status != VerificationTimeout) {
        VerifyStarts(View(), w, redelivered);
        r := Refuse(w, StartVerify(w, redelivered), Touch);
      } else {
        var job := db.value;
        ghost var before := Held();
        r, resent := VerifyAccepted(w, redelivered, job, verdict, o, others);
        if Alone(others) {
          VerdictFields(before, cfg, job, redelivered, verdict, o, Held());
        }
      }
    }

    /** verify_job for a job whose status it accepts. */
    method VerifyAccepted(w: nat, redelivered: bool, job: Job, verdict: VerifyResult, o: Outcome, others: seq<seq<Label>>)
      returns (r: Ended, resent: Option<Queue>)
      requires Valid() && w !in workers && (redelivered || verificationQueue > 0)
      requires db == Some(job) && Verifiable(job.status)
      requires |others| == 4 && forall k :: 0 <= k < 4 ==> Foreign(others[k], w)
      modifies this
      ensures Valid() && w !in workers
      ensures r in {Done, Outdated, HandlerError, LockLost}
      ensures Alone(others) ==>
                r == (if verdict == VerifierError then HandlerError else Done)
                && Held() == VerifiedStore(old(Held()), cfg, job, redelivered, verdict, o)
      ensures Own(labels, w) == Own(old(labels), w) + VerifySteps(w, redelivered, verdict, o, r, resent)
    {
      ghost var own := Own(labels, w);
      var touched := TryTouch(w, redelivered, job, others[0]);
      if touched.None? {
        return LockLost, None;
      }
      r, resent := ActOnVerdict(w, touched.value, verdict, o, others[1..]);
      JoinSteps(own, TouchSteps(w, redelivered), VerdictSteps(w, verdict, o, resent));
    }

    /** The first half of verify_job: the message is taken, the job read and its start time stored. */
    method TryTouch(w: nat, redelivered: bool, job: Job, others: seq<Label>) returns (touched: Option<Job>)
      requires Valid() && w !in workers && (redelivered || verificationQueue > 0) && Foreign(others, w)
      requires db == Some(job) && Verifiable(job.status)
      modifies this
      ensures Valid() && Own(labels, w) == Own(old(labels), w) + TouchSteps(w, redelivered)
      ensures Standing(w) == if touched.Some? then Some(Verifying(touched.value)) else None
      ensures others == [] ==>
                touched == Some(job.(version := job.version + 1))
                && Held() == TakenToVerify(old(Held()), redelivered).(db := touched)
    {
      VerifyStarts(View(), w, redelivered);
      TouchStores(job);
      StartThenWrite(Own(labels, w), w, StartVerify(w, redelivered));
      Begin(w, StartVerify(w, redelivered), Touch);
      Await(w, others);
      touched := UpdateDocument(w, job, Updates(None, Some(job.metadata), None), Touch, job, NO_OUTCOME);
    }

    /** The second half of verify_job, from the end of its handler on. */
    method ActOnVerdict(w: nat, touched: Job, verdict: VerifyResult, o: Outcome, others: seq<seq<Label>>)
      returns (r: Ended, resent: Option<Queue>)
      requires Valid() && Standing(w) == Some(Verifying(touched))
      requires |others| == 3 && forall k :: 0 <= k < 3 ==> Foreign(others[k], w)
      modifies this
      ensures Valid() && w !in workers
      ensures r in {Done, Outdated, HandlerError}
      ensures Alone(others) && old(db) == Some(touched) ==>
                r == (if verdict == VerifierError then HandlerError else Done)
                && Held() == WithVerdict(old(Held()), cfg, touched, verdict, o)
      ensures Own(labels, w) == Own(old(labels), w) + VerdictSteps(w, verdict, o, resent)
    {
      Await(w, others[0]);
      var job := touched.(metadata := touched.metadata.(specific := o.specific));
      match verdict
      case VerifierError =>
        Step(VerifyDone(w, verdict, o));
        r, resent := HandlerError, None;
      case Verified => r, resent := OnVerified(w, job, touched, o, others[1..]);
      case Rejected => r, resent := OnRejected(w, job, touched, o, others[1..]);
      case StillPending => r, resent := OnPending(w, job, touched, o, others[1..]);
    }

    method OnVerified(w: nat, job: Job, touched: Job, o: Outcome, others: seq<seq<Label>>)
      returns (r: Ended, resent: Option<Queue>)
      requires Valid() && Standing(w) == Some(Verifying(touched))
      requires |others| == 2 && Foreign(others[0], w) && Foreign(others[1], w)
      requires job == touched.(metadata := touched.metadata.(specific := o.specific))
      modifies this
      ensures Valid() && w !in workers
      ensures r in {Done, Outdated}
      ensures Alone(others) && old(db) == Some(touched) ==>
                r == Done && Held() == WithVerdict(old(Held()), cfg, touched, Verified, o)
      ensures Own(labels, w) == Own(old(labels), w) + VerdictSteps(w, Verified, o, resent)
    {
      r, resent := Conclude(w, Verified, job, Updates(Some(Completed), Some(job.metadata), None), Complete, touched, o,
                              None, others);
    }

    /** Rejected: the job is processed again, or fails when its attempts are used up. */
    method OnRejected(w: nat, job: Job, touched: Job, o: Outcome, others: seq<seq<Label>>)
      returns (r: Ended, resent: Option<Queue>)
      requires Valid() && Standing(w) == Some(Verifying(touched))
      requires |others| == 2 && Foreign(others[0], w) && Foreign(others[1], w)
      requires job == touched.(metadata := touched.metadata.(specific := o.specific))
      modifies this
      ensures Valid() && w !in workers
      ensures r in {Done, Outdated}
      ensures Alone(others) && old(db) == Some(touched) ==>
                r == Done && Held() == WithVerdict(old(Held()), cfg, touched, Rejected, o)
      ensures Own(labels, w) == Own(old(labels), w) + VerdictSteps(w, Rejected, o, resent)
    {
      if job.metadata.processAttempts < cfg.maxProcess {
        r, resent := Conclude(w, Rejected, job, Updates(Some(VerificationFailed), Some(job.metadata), None), Reject,
                                touched, o, Some(ProcessQueue), others);
      } else {
        Report(w, VerifyDone(w, Rejected, o), FailVerification, touched, o);
        Await(w, others[0]);
        r := MoveJobToFailed(w, job, FailVerification, touched, o);
        resent := None;
      }
    }

    /** Still pending: the job is polled again, or times out when its polls are used up. */
    method OnPending(w: nat, job: Job, touched: Job, o: Outcome, others: seq<seq<Label>>)
      returns (r: Ended, resent: Option<Queue>)
      requires Valid() && Standing(w) == Some(Verifying(touched))
      requires |others| == 2 && Foreign(others[0], w) && Foreign(others[1], w)
      requires job == touched.(metadata := touched.metadata.(specific := o.specific))
      modifies this
      ensures Valid() && w !in workers
      ensures r in {Done, Outdated}
      ensures Alone(others) && old(db) == Some(touched) ==>
                r == Done && Held() == WithVerdict(old(Held()), cfg, touched, StillPending, o)
      ensures Own(labels, w) == Own(old(labels), w) + VerdictSteps(w, StillPending, o, resent)
    {
      if job.metadata.verificationAttempts >= cfg.maxVerify {
        r, resent := GiveUp(w, job, touched, o, others);
      } else {
        r, resent := PollAgain(w, job, touched, o, others);
      }
    }

    method GiveUp(w: nat, job: Job, touched: Job, o: Outcome, others: seq<seq<Label>>)
      returns (r: Ended, resent: Option<Queue>)
      requires Valid() && Standing(w) == Some(Verifying(touched))
      requires |others| == 2 && Foreign(others[0], w) && Foreign(others[1], w)
      requires job == touched.(metadata := touched.metadata.(specific := o.specific))
      requires touched.metadata.verificationAttempts >= cfg.maxVerify
      modifies this
      ensures Valid() && w !in workers
      ensures r in {Done, Outdated}
      ensures Alone(others) && old(db) == Some(touched) ==>
                r == Done && Held() == WithVerdict(old(Held()), cfg, touched, StillPending, o)
      ensures Own(labels, w) == Own(old(labels), w) + VerdictSteps(w, StillPending, o, resent)
    {
      r, resent := Conclude(w, StillPending, job, Updates(Some(VerificationTimeout), None, None), TimeOut, touched, o,
                              None, others);
    }

    method PollAgain(w: nat, job: Job, touched: Job, o: Outcome, others: seq<seq<Label>>)
      returns (r: Ended, resent: Option<Queue>)
      requires Valid() && Standing(w) == Some(Verifying(touched))
      requires |others| == 2 && Foreign(others[0], w) && Foreign(others[1], w)
      requires job == touched.(metadata := touched.metadata.(specific := o.specific))
      requires touched.metadata.verificationAttempts < cfg.maxVerify
      modifies this
      ensures Valid() && w !in workers
      ensures r in {Done, Outdated}
      ensures Alone(others) && old(db) == Some(touched) ==>
                r == Done && Held() == WithVerdict(old(Held()), cfg, touched, StillPending, o)
      ensures Own(labels, w) == Own(old(labels), w) + VerdictSteps(w, StillPending, o, resent)
    {
      var polled := job.(metadata := job.metadata.(verificationAttempts := job.metadata.verificationAttempts + 1));
      r, resent := Conclude(w, StillPending, polled, Updates(None, Some(polled.metadata), None), Poll, touched, o,
                              Some(VerificationQueue), others);
    }

    /** The verdict is acted on by one write, and a message if one follows. */
    method Conclude(w: nat, verdict: VerifyResult, job: Job, updates: Updates, kind: Kind, touched: Job, o: Outcome,
                    message: Option<Queue>, others: seq<seq<Label>>)
      returns (r: Ended, resent: Option<Queue>)
      requires Valid() && Standing(w) == Some(Verifying(touched)) && job.version == touched.version
      requires VerdictKind(cfg, touched, verdict) == Some(kind) && updates == UpdatesOf(kind, touched, o)
      requires forall stored :: Follow(kind, stored) == if message.Some? then Some(Sending(message.value)) else None
      requires |others| == 2 && Foreign(others[0], w) && Foreign(others[1], w)
      modifies this
      ensures Valid() && w !in workers
      ensures r == Done || r == Outdated
      ensures resent == if r == Done then message else None
      ensures Alone(others) && old(db) == Some(touched) ==>
                r == Done && Held() == Written(old(Held()), Apply(touched, updates), message)
      ensures Own(labels, w) == Own(old(labels), w) + VerdictSteps(w, verdict, o, resent)
    {
      Report(w, VerifyDone(w, verdict, o), kind, touched, o);
      r, resent := Settle(w, job, updates, kind, touched, o, message, others);
    }

    /** A write, and the message that follows it, if any. */
    method Settle(w: nat, job: Job, updates: Updates, kind: Kind, base: Job, o: Outcome, message: Option<Queue>,
                  others: seq<seq<Label>>)
      returns (r: Ended, resent: Option<Queue>)
      requires Valid() && Standing(w) == Some(Writing(kind, base, o)) && job.version == base.version
      requires updates == UpdatesOf(kind, base, o)
      requires forall stored :: Follow(kind, stored) == if message.Some? then Some(Sending(message.value)) else None
      requires |others| == 2 && Foreign(others[0], w) && Foreign(others[1], w)
      modifies this
      ensures Valid() && w !in workers
      ensures r == Done || r == Outdated
      ensures resent == if r == Done then message else None
      ensures Alone(others) && old(db) == Some(base) ==>
                r == Done && Held() == Written(old(Held()), Apply(base, updates), message)
      ensures Own(labels, w) == Own(old(labels), w) + [Write(w)] + (if resent.Some? then [Send(w)] else [])
    {
      Await(w, others[0]);
      var stored := UpdateDocument(w, job, updates, kind, base, o);
      if stored.None? {
        return Outdated, None;
      }
      if message.Some? {
        Await(w, others[1]);
        Enqueue(w, message.value);
      }
      return Done, message;
    }

    /** retry_job: a failed job goes back to the process queue with its attempts reset. */
    method RetryJob(w: nat, others: seq<seq<Label>>) returns (r: Ended)
      requires Valid() && w !in workers && |others| == 2 && Foreign(others[0], w) && Foreign(others[1], w)
      modifies this
      ensures Valid() && w !in workers
      ensures Own(labels, w) == Own(old(labels), w) + OperatorSteps(w, StartRetry(w), r)
      ensures r == NotFound <==> old(db).None?
      ensures r == InvalidStatus <==> old(db).Some? && old(db).value.status != Failed
      ensures Alone(others) && r in {NotFound, InvalidStatus} ==>
                db == old(db) && processQueue == old(processQueue) && verificationQueue == old(verificationQueue)
      ensures Alone(others) && r !in {NotFound, InvalidStatus} ==>
                var job, m := old(db).value, old(db).value.metadata;
                r == Done
                && db == Some(Job(PendingRetry, job.externalId,
                                  m.(processAttempts := 0, processRetries := m.processRetries + 1), job.version + 1))
                && processQueue == old(processQueue) + 1 && verificationQueue == old(verificationQueue)
    {
      Begin(w, StartRetry(w), Retry);
      if w !in workers {
        return if db.None? then NotFound else InvalidStatus;
      }
      var job := db.value;
      var m := job.metadata.(processRetries := job.metadata.processRetries + 1);
      m := m.(processAttempts := 0);
      RetryStores(job, m);
      ghost var own := Own(old(labels), w);
      var resent;
      r, resent := Settle(w, job, Updates(Some(PendingRetry), Some(m), None), Retry, job, NO_OUTCOME,
                            Some(ProcessQueue), others);
      OperatorStepsAre(own, w, StartRetry(w), r);
    }

    /** queue_job_for_verification: whatever its status, the job becomes pending verification again. */
    method QueueJobForVerification(w: nat, others: seq<seq<Label>>) returns (r: Ended)
      requires Valid() && w !in workers && |others| == 2 && Foreign(others[0], w) && Foreign(others[1], w)
      modifies this
      ensures Valid() && w !in workers
      ensures Own(labels, w) == Own(old(labels), w) + OperatorSteps(w, StartRequeue(w), r)
      ensures r == NotFound <==> old(db).None?
      ensures r in {NotFound, Done, Outdated}
      ensures Alone(others) && r == NotFound ==>
                db == None && processQueue == old(processQueue) && verificationQueue == old(verificationQueue)
      ensures Alone(others) && r != NotFound ==>
                var job, m := old(db).value, old(db).value.metadata;
                r == Done
                && db == Some(Job(PendingVerification, job.externalId,
                                  m.(verificationAttempts := 0, verificationRetries := m.verificationRetries + 1),
                                  job.version + 1))
                && processQueue == old(processQueue) && verificationQueue == old(verificationQueue) + 1
    {
      Begin(w, StartRequeue(w), Requeue);
      if w !in workers {
        return NotFound;
      }
      var job := db.value;
      var m := job.metadata.(verificationAttempts := 0);
      m := m.(verificationRetries := m.verificationRetries + 1);
      RequeueStores(job, m);
      ghost var own := Own(old(labels), w);
      var resent;
      r, resent := Settle(w, job, Updates(Some(PendingVerification), Some(m), None), Requeue, job, NO_OUTCOME,
                          Some(VerificationQueue), others);
      OperatorStepsAre(own, w, StartRequeue(w), r);
    }

    /** handle_job_failure: a completed or failed job is left alone. */
    method HandleJobFailure(w: nat, others: seq<Label>) returns (r: Ended)
      requires Valid() && w !in workers && Foreign(others, w)
      modifies this
      ensures Valid() && w !in workers
      ensures r == NotFound <==> old(db).None?
      ensures Own(labels, w)
              == Own(old(labels), w)
                 + (if old(db).None? || old(db).value.status in {Completed, Failed} then [StartFailure(w)]
                    else [StartFailure(w), Write(w)])
      ensures others == [] ==>
                processQueue == old(processQueue) && verificationQueue == old(verificationQueue)
                && if old(db).None? || old(db).value.status in {Completed, Failed} then db == old(db)
                   else
                     var job := old(db).value;
                     r == Done && db == Some(Job(Failed, job.externalId, job.metadata, job.version + 1))
    {
      Begin(w, StartFailure(w), FailMessage);
      if w !in workers {
        return if db.None? then NotFound else Done;
      }
      var job := db.value;
      Await(w, others);
      r := MoveJobToFailed(w, job, FailMessage, job, NO_OUTCOME);
    }
  }
}
