/** The life of one job document: processing, verification, retry and failure handling, run by any
    number of workers and orchestrators that share the database only through a compare-and-swap on
    the document's version (crates/orchestrator/src/jobs/mod.rs, database/mongodb/mod.rs). */
module JobProtocol {
  import opened Outcomes

  datatype Status =
    | Created | LockedForProcessing | PendingVerification | Completed
    | VerificationTimeout | VerificationFailed | Failed | PendingRetry

  /** The counters of the common metadata, and the job-specific part, which handlers may rewrite. */
  datatype Metadata = Metadata(
    processAttempts: nat, processRetries: nat, verificationAttempts: nat, verificationRetries: nat, specific: nat)

  datatype Job = Job(status: Status, externalId: nat, metadata: Metadata, version: nat)

  /** The fields an update sets; the others keep their stored value. */
  datatype Updates = Updates(status: Option<Status>, metadata: Option<Metadata>, externalId: Option<nat>)

  const INITIAL: Job := Job(Created, 0, Metadata(0, 0, 0, 0, 0), 0)

  /** The limits of the job's handler. */
  datatype Config = Config(maxProcess: nat, maxVerify: nat)

  // ---- The database ---------------------------------------------------------------------------

  function Apply(stored: Job, u: Updates): Job {
    Job(if u.status.Some? then u.status.value else stored.status,
        if u.externalId.Some? then u.externalId.value else stored.externalId,
        if u.metadata.Some? then u.metadata.value else stored.metadata,
        stored.version + 1)
  }

  /** update_job: finds the document with the version the caller read; none when it has moved on. */
  function UpdateJob(db: Option<Job>, current: Job, u: Updates): Option<Job> {
    if db.Some? && db.value.version == current.version then Some(Apply(db.value, u)) else None
  }

  // ---- Writes ---------------------------------------------------------------------------------

  /** Every place that calls update_job. */
  datatype Kind =
    | Lock | Commit | FailProcessing                                     // process_job
    | Touch | Complete | Reject | FailVerification | TimeOut | Poll      // verify_job
    | Retry                                                              // retry_job
    | FailMessage                                                        // handle_job_failure
    | Requeue                                                            // queue_job_for_verification

  /** What a handler leaves behind: the job-specific metadata, and the external id of a successful run. */
  datatype Outcome = Outcome(externalId: nat, specific: nat)

  function WithSpecific(m: Metadata, o: Outcome): Metadata {
    m.(specific := o.specific)
  }

  /** The update each call sends, from the item it read last and the handler's outcome. */
  function UpdatesOf(kind: Kind, base: Job, o: Outcome): Updates {
    var m := base.metadata;
    match kind
    case Lock => Updates(Some(LockedForProcessing), Some(m), None)
    case Commit =>
      Updates(Some(PendingVerification),
              Some(WithSpecific(m, o).(processAttempts := m.processAttempts + 1)), Some(o.externalId))
    case FailProcessing => Updates(Some(Failed), Some(WithSpecific(m, o)), None)
    case Touch => Updates(None, Some(m), None)
    case Complete => Updates(Some(Completed), Some(WithSpecific(m, o)), None)
    case Reject => Updates(Some(VerificationFailed), Some(WithSpecific(m, o)), None)
    case FailVerification => Updates(Some(Failed), Some(WithSpecific(m, o)), None)
    case TimeOut => Updates(Some(VerificationTimeout), None, None)
    case Poll =>
      Updates(None, Some(WithSpecific(m, o).(verificationAttempts := m.verificationAttempts + 1)), None)
    case Retry =>
      Updates(Some(PendingRetry), Some(m.(processRetries := m.processRetries + 1, processAttempts := 0)), None)
    case FailMessage => Updates(Some(Failed), Some(m), None)
    case Requeue =>
      Updates(Some(PendingVerification),
              Some(m.(verificationAttempts := 0, verificationRetries := m.verificationRetries + 1)), None)
  }

  // ---- Workers --------------------------------------------------------------------------------

  datatype Queue = ProcessQueue | VerificationQueue

  /** Where a running function stands: before a write computed from base, inside a handler working on
      base, or before sending a message. */
  datatype Worker =
    | Writing(kind: Kind, base: Job, outcome: Outcome)
    | Processing(base: Job)
    | Verifying(base: Job)
    | Sending(queue: Queue)

  /** A committed write: the item stored before, the handler's outcome, and the item stored after. */
  datatype Record = Record(kind: Kind, before: Job, outcome: Outcome, after: Job)

  datatype State = State(
    db: Option<Job>,
    processQueue: nat,
    verificationQueue: nat,
    workers: map<nat, Worker>,
    history: seq<Record>,
    consumed: nat)

  const START: State := State(None, 0, 0, map[], [], 0)

  datatype ProcessResult = Processed(outcome: Outcome) | ProcessingFailed(outcome: Outcome)
  datatype VerifyResult = Verified | Rejected | StillPending | VerifierError

  datatype Label =
    | Insert(w: nat)                                   // create_job inserts the document
    | StartProcess(w: nat, redelivered: bool)          // a process message is taken, or delivered again
    | Bounce(redelivered: bool)                        // no capacity: the message goes back to the queue
    | StartVerify(w: nat, redelivered: bool)
    | StartFailure(w: nat)                             // a failure queue message
    | StartRetry(w: nat)                               // operator endpoints
    | StartRequeue(w: nat)
    | StartQueueing(w: nat)
    | Write(w: nat)                                    // the compare-and-swap
    | ProcessDone(w: nat, result: ProcessResult)
    | VerifyDone(w: nat, verdict: VerifyResult, outcome: Outcome)
    | Send(w: nat)
    | Crash(w: nat)                                    // a worker stops anywhere

  const NO_OUTCOME: Outcome := Outcome(0, 0)

  predicate Processable(s: Status) {
    s == Created || s == VerificationFailed || s == PendingRetry
  }

  predicate Verifiable(s: Status) {
    s == PendingVerification || s == VerificationTimeout
  }

  function Spawn(s: State, w: nat, worker: Worker): State {
    s.(workers := s.workers[w := worker])
  }

  function Exit(s: State, w: nat): State {
    s.(workers := s.workers - {w})
  }

  /** What a function does once its write is committed; it continues on the item the database returns. */
  function After(s: State, w: nat, kind: Kind, stored: Job): State {
    match kind
    case Lock => Spawn(s, w, Processing(stored))
    case Touch => Spawn(s, w, Verifying(stored))
    case Commit => Spawn(s, w, Sending(VerificationQueue))
    case Poll => Spawn(s, w, Sending(VerificationQueue))
    case Requeue => Spawn(s, w, Sending(VerificationQueue))
    case Reject => Spawn(s, w, Sending(ProcessQueue))
    case Retry => Spawn(s, w, Sending(ProcessQueue))
    case _ => Exit(s, w)
  }

  /** The compare-and-swap of worker w: on success the write is recorded, on failure the function returns. */
  function WriteStep(s: State, w: nat, kind: Kind, base: Job, o: Outcome): State {
    match UpdateJob(s.db, base, UpdatesOf(kind, base, o))
    case None => Exit(s, w)
    case Some(stored) =>
      After(s.(db := Some(stored), history := s.history + [Record(kind, s.db.value, o, stored)]), w, kind, stored)
  }

  /** The write verify_job chooses after its handler returned. */
  function VerdictKind(cfg: Config, base: Job, result: VerifyResult): Option<Kind> {
    match result
    case Verified => Some(Complete)
    case Rejected => Some(if base.metadata.processAttempts < cfg.maxProcess then Reject else FailVerification)
    case StillPending => Some(if base.metadata.verificationAttempts >= cfg.maxVerify then TimeOut else Poll)
    case VerifierError => None
  }

  /** A function reads the job and prepares its first write, or returns when the status forbids it. */
  function ReadThen(s: State, w: nat, allowed: bool, kind: Kind): State {
    if s.db.Some? && allowed then Spawn(s, w, Writing(kind, s.db.value, NO_OUTCOME)) else s
  }

  function HasStatus(s: State, p: Status -> bool): bool {
    s.db.Some? && p(s.db.value.status)
  }

  /** Taking a message, or having one delivered a second time. */
  function TakeProcess(s: State, redelivered: bool): Option<State> {
    if redelivered then Some(s.(consumed := s.consumed + 1))
    else if s.processQueue == 0 then None
    else Some(s.(processQueue := s.processQueue - 1, consumed := s.consumed + 1))
  }

  function TakeVerify(s: State, redelivered: bool): Option<State> {
    if redelivered then Some(s.(consumed := s.consumed + 1))
    else if s.verificationQueue == 0 then None
    else Some(s.(verificationQueue := s.verificationQueue - 1, consumed := s.consumed + 1))
  }

  function Sent(s: State, q: Queue): State {
    match q
    case ProcessQueue => s.(processQueue := s.processQueue + 1)
    case VerificationQueue => s.(verificationQueue := s.verificationQueue + 1)
  }

  /** Labels that start a function on a fresh worker. */
  predicate Starts(l: Label) {
    l.Insert? || l.StartProcess? || l.StartVerify? || l.StartFailure? || l.StartRetry? || l.StartRequeue?
    || l.StartQueueing?
  }

  function StartStep(s: State, l: Label): Option<State>
    requires Starts(l)
  {
    if l.w in s.workers then None
    else
      match l
      case Insert(w) =>
        if s.db.Some? then None else Some(Spawn(s.(db := Some(INITIAL)), w, Sending(ProcessQueue)))
      case StartProcess(w, redelivered) =>
        (match TakeProcess(s, redelivered)
         case None => None
         case Some(t) => Some(ReadThen(t, w, HasStatus(s, Processable), Lock)))
      case StartVerify(w, redelivered) =>
        (match TakeVerify(s, redelivered)
         case None => None
         case Some(t) => Some(ReadThen(t, w, HasStatus(s, Verifiable), Touch)))
      case StartFailure(w) => Some(ReadThen(s, w, HasStatus(s, st => st != Completed && st != Failed), FailMessage))
      case StartRetry(w) => Some(ReadThen(s, w, HasStatus(s, st => st == Failed), Retry))
      case StartRequeue(w) => Some(ReadThen(s, w, true, Requeue))
      case StartQueueing(w) => if s.db.Some? then Some(Spawn(s, w, Sending(ProcessQueue))) else Some(s)
  }

  /** One atomic step; none when the label is not enabled. */
  function Next(cfg: Config, s: State, l: Label): Option<State> {
    if Starts(l) then StartStep(s, l)
    else if l.Bounce? then
      (match TakeProcess(s, l.redelivered)
       case None => None
       case Some(t) => Some(Sent(t, ProcessQueue)))
    else if l.w !in s.workers then None
    else
      match (l, s.workers[l.w])
      case (Write(w), Writing(kind, base, o)) => Some(WriteStep(s, w, kind, base, o))
      case (ProcessDone(w, Processed(o)), Processing(base)) => Some(Spawn(s, w, Writing(Commit, base, o)))
      case (ProcessDone(w, ProcessingFailed(o)), Processing(base)) =>
        Some(Spawn(s, w, Writing(FailProcessing, base, o)))
      case (VerifyDone(w, result, o), Verifying(base)) =>
        (match VerdictKind(cfg, base, result)
         case None => Some(Exit(s, w))
         case Some(kind) => Some(Spawn(s, w, Writing(kind, base, o))))
      case (Send(w), Sending(q)) => Some(Sent(Exit(s, w), q))
      case (Crash(w), _) => Some(Exit(s, w))
      case _ => None
  }

  /** A run: every label in turn; none when one is not enabled. */
  function Run(cfg: Config, s: State, ls: seq<Label>): Option<State> {
    if ls == [] then Some(s)
    else
      match Run(cfg, s, ls[..|ls| - 1])
      case None => None
      case Some(t) => Next(cfg, t, ls[|ls| - 1])
  }

  lemma RunSnoc(cfg: Config, s: State, ls: seq<Label>, l: Label)
    requires Run(cfg, s, ls).Some?
    ensures Run(cfg, s, ls + [l]) == Next(cfg, Run(cfg, s, ls).value, l)
  {
    assert (ls + [l])[..|ls|] == ls;
  }

  /** The last label of a run, and the state it was applied to. */
  lemma RunFront(cfg: Config, s: State, ls: seq<Label>, t: State) returns (front: State)
    requires ls != [] && Run(cfg, s, ls) == Some(t)
    ensures Run(cfg, s, ls[..|ls| - 1]) == Some(front) && Next(cfg, front, ls[|ls| - 1]) == Some(t)
  {
    front := Run(cfg, s, ls[..|ls| - 1]).value;
  }

  /** A run, and another one from its middle state that ends with one more label. */
  lemma RunExtend(cfg: Config, s: State, x: seq<Label>, t: State, y: seq<Label>, meet: State, u: State, longer: seq<Label>)
    requires y != [] && Run(cfg, t, y[..|y| - 1]) == Some(meet) && Run(cfg, t, y) == Some(u)
    requires Run(cfg, s, x) == Some(meet) && longer == x + [y[|y| - 1]]
    ensures Run(cfg, s, longer) == Some(u)
  {
    RunSnoc(cfg, s, x, y[|y| - 1]);
  }

  lemma FrontRuns(cfg: Config, s: State, ls: seq<Label>) returns (t: State)
    requires ls != [] && Run(cfg, s, ls).Some?
    ensures Run(cfg, s, ls[..|ls| - 1]) == Some(t)
  {
    t := Run(cfg, s, ls[..|ls| - 1]).value;
  }

  lemma EmptyRunJoins(cfg: Config, s: State, a: seq<Label>, t: State, b: seq<Label>, u: State)
    requires Run(cfg, s, a) == Some(t) && Run(cfg, t, b) == Some(u) && b == []
    ensures Run(cfg, s, a + b) == Some(u)
  {
    assert a + b == a;
  }

  lemma SnocJoin(a: seq<Label>, b: seq<Label>)
    requires b != []
    ensures a + b == a + b[..|b| - 1] + [b[|b| - 1]]
  {
  }

  lemma {:induction false} RunJoin(cfg: Config, s: State, a: seq<Label>, t: State, b: seq<Label>, u: State)
    requires Run(cfg, s, a) == Some(t) && Run(cfg, t, b) == Some(u)
    ensures Run(cfg, s, a + b) == Some(u)
  {
    if b == [] {
      EmptyRunJoins(cfg, s, a, t, b, u);
    } else {
      var meet := FrontRuns(cfg, t, b);
      RunJoin(cfg, s, a, t, b[..|b| - 1], meet);
      SnocJoin(a, b);
      RunExtend(cfg, s, a + b[..|b| - 1], t, b, meet, u, a + b);
    }
  }
}
