/** How much work a job can cause. With messages delivered once, no capacity bounces, no operator and no
    failure message, a job has at most one live message or worker at any time; every step uses up part
    of a finite measure; and at most 2 * maxProcess + maxVerify messages are ever consumed for it. */
module JobWork {
  import opened Outcomes
  import opened JobProtocol
  import opened JobSafety

  predicate Quiet(l: Label) {
    match l
    case StartProcess(_, redelivered) => !redelivered
    case StartVerify(_, redelivered) => !redelivered
    case Bounce(_) => false
    case StartFailure(_) => false
    case StartRetry(_) => false
    case StartRequeue(_) => false
    case StartQueueing(_) => false
    case _ => true
  }

  /** The one thing that can still act on the job. */
  datatype Token = Idle | Message(queue: Queue) | At(w: nat, worker: Worker)

  /** A state in which the token is all there is. */
  predicate Holds(s: State, t: Token) {
    match t
    case Idle => s.processQueue == 0 && s.verificationQueue == 0 && s.workers == map[]
    case Message(ProcessQueue) => s.processQueue == 1 && s.verificationQueue == 0 && s.workers == map[]
    case Message(VerificationQueue) => s.processQueue == 0 && s.verificationQueue == 1 && s.workers == map[]
    case At(w, x) => s.processQueue == 0 && s.verificationQueue == 0 && s.workers == map[w := x]
  }

  /** The status a message, waiting or about to be sent, will find. */
  predicate Welcome(q: Queue, status: Status) {
    match q
    case ProcessQueue => Processable(status)
    case VerificationQueue => Verifiable(status)
  }

  predicate TokenOk(s: State, t: Token) {
    match t
    case Idle => true
    case Message(q) => s.db.Some? && Welcome(q, s.db.value.status)
    case At(_, Sending(q)) => s.db.Some? && Welcome(q, s.db.value.status)
    case At(_, Writing(kind, base, _)) =>
      s.db == Some(base) && kind != Retry && kind != FailMessage && kind != Requeue
    case At(_, Processing(base)) => s.db == Some(base)
    case At(_, Verifying(base)) => s.db == Some(base)
  }

  /** Process attempts left, counted twice for the verification message each one sends, and polls left. */
  function Left(cfg: Config, job: Job): int {
    2 * (cfg.maxProcess - job.metadata.processAttempts) + (cfg.maxVerify - job.metadata.verificationAttempts)
  }

  /** Messages that may still be consumed. */
  function Budget(cfg: Config, s: State, t: Token): int {
    if s.db.None? then 2 * cfg.maxProcess + cfg.maxVerify
    else
      var n := Left(cfg, s.db.value);
      match t
      case Idle => 0
      case Message(q) => QueueBudget(n, q)
      case At(_, Sending(q)) => QueueBudget(n, q)
      case At(_, Writing(kind, _, _)) => if kind in {Lock, Commit, FailProcessing} then n - 1 else n
      case At(_, Processing(_)) => n - 1
      case At(_, Verifying(_)) => n
  }

  function QueueBudget(n: int, q: Queue): int {
    if q == ProcessQueue then n else n + 1
  }

  /** Steps that may still be taken: five for every message, less those of the current message. */
  function Measure(cfg: Config, s: State, t: Token): int {
    if s.db.None? then 5 * (2 * cfg.maxProcess + cfg.maxVerify) + 2
    else
      var n := Left(cfg, s.db.value);
      match t
      case Idle => 0
      case Message(q) => 5 * QueueBudget(n, q)
      case At(_, Sending(q)) => 5 * QueueBudget(n, q) + 1
      case At(_, Writing(kind, _, _)) =>
        if kind == Lock then 5 * n - 1
        else if kind == Commit || kind == FailProcessing then 5 * n - 3
        else if kind == Touch then 5 * (n + 1) - 1
        else 5 * (n + 1) - 3
      case At(_, Processing(_)) => 5 * n - 2
      case At(_, Verifying(_)) => 5 * (n + 1) - 2
  }

  predicate Calm(cfg: Config, s: State, t: Token) {
    Inv(cfg, s) && Holds(s, t) && TokenOk(s, t)
    && (s.db.None? ==> t.Idle? && s.consumed == 0)
    && s.consumed + Budget(cfg, s, t) <= 2 * cfg.maxProcess + cfg.maxVerify
  }

  /** The token a committed write leaves. */
  function Handed(w: nat, kind: Kind, stored: Job): Token {
    var x := Follow(kind, stored);
    if x.Some? then At(w, x.value) else Idle
  }

  /** The token after a step. */
  function NextToken(cfg: Config, s: State, t: Token, l: Label): Token {
    match l
    case Insert(w) => At(w, Sending(ProcessQueue))
    case StartProcess(w, _) => if s.db.Some? then At(w, Writing(Lock, s.db.value, NO_OUTCOME)) else Idle
    case StartVerify(w, _) => if s.db.Some? then At(w, Writing(Touch, s.db.value, NO_OUTCOME)) else Idle
    case Write(w) =>
      if t.At? && t.worker.Writing? then
        Handed(w, t.worker.kind, Apply(t.worker.base, UpdatesOf(t.worker.kind, t.worker.base, t.worker.outcome)))
      else Idle
    case ProcessDone(w, result) =>
      if t.At? && HasBase(t.worker)
      then At(w, Writing(if result.Processed? then Commit else FailProcessing, t.worker.base, result.outcome))
      else Idle
    case VerifyDone(w, verdict, o) =>
      if t.At? && HasBase(t.worker) && VerdictKind(cfg, t.worker.base, verdict).Some?
      then At(w, Writing(VerdictKind(cfg, t.worker.base, verdict).value, t.worker.base, o))
      else Idle
    case Send(_) => if t.At? && t.worker.Sending? then Message(t.worker.queue) else Idle
    case _ => Idle
  }

  /** A calm step: the token moves on, the consumption stays within its bound, the measure shrinks. */
  predicate Progress(cfg: Config, s: State, t: Token, l: Label) {
    var s' := Next(cfg, s, l);
    s'.Some? && Calm(cfg, s'.value, NextToken(cfg, s, t, l))
    && 0 <= Measure(cfg, s'.value, NextToken(cfg, s, t, l)) < Measure(cfg, s, t)
  }

  lemma StartProgress(cfg: Config, s: State, t: Token, l: Label)
    requires cfg.maxProcess >= 1
    requires Calm(cfg, s, t) && Quiet(l) && Starts(l) && Next(cfg, s, l).Some?
    ensures Progress(cfg, s, t, l)
  {
    StepKeeps(cfg, s, l);
  }

  /** What a committed write leaves for its successor to do. */
  lemma WriteMeasure(cfg: Config, s: State, w: nat, kind: Kind, base: Job, o: Outcome)
    requires cfg.maxProcess >= 1
    requires Calm(cfg, s, At(w, Writing(kind, base, o)))
    ensures var stored := Apply(base, UpdatesOf(kind, base, o));
            var x := Follow(kind, stored);
            var n, m := Left(cfg, base), Left(cfg, stored);
            (kind == Lock || kind == Touch ==> m == n)
            && (kind == Commit ==> m == n - 2 && m >= 0 && Verifiable(stored.status))
            && (kind == Poll ==> m == n - 1 && m >= 0 && Verifiable(stored.status))
            && (kind == Reject ==> m == n && m >= 2 && Processable(stored.status))
            && n >= 0
            && (kind == FailProcessing || kind == Lock ==> n >= 2)
  {
    assert WorkerOk(cfg, s.workers[w], s.db.value);
  }

  lemma WriteHolds(cfg: Config, s: State, w: nat, kind: Kind, base: Job, o: Outcome)
    requires cfg.maxProcess >= 1
    requires Calm(cfg, s, At(w, Writing(kind, base, o)))
    ensures var u := WriteStep(s, w, kind, base, o);
            var t := Handed(w, kind, Apply(base, UpdatesOf(kind, base, o)));
            u.db == Some(Apply(base, UpdatesOf(kind, base, o))) && u.consumed == s.consumed && Holds(u, t)
  {
    WriteStepForm(s, w, kind, base, o);
    assert s.workers - {w} == map[];
  }

  lemma WriteMeets(cfg: Config, s: State, u: State, w: nat, kind: Kind, base: Job, o: Outcome)
    requires cfg.maxProcess >= 1
    requires Calm(cfg, s, At(w, Writing(kind, base, o)))
    requires u.db == Some(Apply(base, UpdatesOf(kind, base, o))) && u.consumed == s.consumed
    ensures var stored := Apply(base, UpdatesOf(kind, base, o));
            var t := Handed(w, kind, stored);
            TokenOk(u, t)
            && Budget(cfg, u, t) <= Budget(cfg, s, At(w, Writing(kind, base, o)))
            && 0 <= Measure(cfg, u, t) < Measure(cfg, s, At(w, Writing(kind, base, o)))
  {
    WriteMeasure(cfg, s, w, kind, base, o);
  }

  lemma WriteProgress(cfg: Config, s: State, t: Token, w: nat)
    requires cfg.maxProcess >= 1
    requires Calm(cfg, s, t) && Next(cfg, s, Write(w)).Some?
    ensures Progress(cfg, s, t, Write(w))
  {
    StepKeeps(cfg, s, Write(w));
    var x := s.workers[w];
    assert t == At(w, x);
    var u := WriteStep(s, w, x.kind, x.base, x.outcome);
    WriteHolds(cfg, s, w, x.kind, x.base, x.outcome);
    WriteMeets(cfg, s, u, w, x.kind, x.base, x.outcome);
    assert NextToken(cfg, s, t, Write(w)) == Handed(w, x.kind, u.db.value);
  }

  /** A handler that returned hands its item on to the write that follows. */
  lemma HandOn(cfg: Config, s: State, w: nat, before: Worker, kind: Kind, base: Job, o: Outcome)
    requires Calm(cfg, s, At(w, before))
    requires before == (if kind in {Commit, FailProcessing} then Processing(base) else Verifying(base))
    requires kind in {Commit, FailProcessing, Complete, Reject, FailVerification, TimeOut, Poll}
    requires Inv(cfg, Spawn(s, w, Writing(kind, base, o)))
    ensures var t := At(w, Writing(kind, base, o));
            Calm(cfg, Spawn(s, w, Writing(kind, base, o)), t)
            && 0 <= Measure(cfg, Spawn(s, w, Writing(kind, base, o)), t) < Measure(cfg, s, At(w, before))
  {
    assert WorkerOk(cfg, s.workers[w], s.db.value);
  }

  lemma ProcessDoneProgress(cfg: Config, s: State, t: Token, w: nat, result: ProcessResult)
    requires cfg.maxProcess >= 1
    requires Calm(cfg, s, t) && Next(cfg, s, ProcessDone(w, result)).Some?
    ensures Progress(cfg, s, t, ProcessDone(w, result))
  {
    StepKeeps(cfg, s, ProcessDone(w, result));
    var kind := if result.Processed? then Commit else FailProcessing;
    HandOn(cfg, s, w, s.workers[w], kind, s.workers[w].base, result.outcome);
  }

  lemma VerifyDoneProgress(cfg: Config, s: State, t: Token, w: nat, verdict: VerifyResult, o: Outcome)
    requires cfg.maxProcess >= 1
    requires Calm(cfg, s, t) && Next(cfg, s, VerifyDone(w, verdict, o)).Some?
    ensures Progress(cfg, s, t, VerifyDone(w, verdict, o))
  {
    StepKeeps(cfg, s, VerifyDone(w, verdict, o));
    var base := s.workers[w].base;
    var kind := VerdictKind(cfg, base, verdict);
    if kind.Some? {
      HandOn(cfg, s, w, s.workers[w], kind.value, base, o);
    } else {
      assert s.workers - {w} == map[];
      assert WorkerOk(cfg, s.workers[w], s.db.value);
    }
  }

  lemma LeaveProgress(cfg: Config, s: State, t: Token, l: Label)
    requires cfg.maxProcess >= 1
    requires Calm(cfg, s, t) && (l.Send? || l.Crash?) && Next(cfg, s, l).Some?
    ensures Progress(cfg, s, t, l)
  {
    StepKeeps(cfg, s, l);
    assert WorkerOk(cfg, s.workers[l.w], s.db.value);
    assert s.workers - {l.w} == map[];
  }

  lemma StepProgress(cfg: Config, s: State, t: Token, l: Label)
    requires cfg.maxProcess >= 1
    requires Calm(cfg, s, t) && Quiet(l) && Next(cfg, s, l).Some?
    ensures Progress(cfg, s, t, l)
  {
    if Starts(l) {
      StartProgress(cfg, s, t, l);
    } else if l.Write? {
      WriteProgress(cfg, s, t, l.w);
    } else if l.Send? || l.Crash? {
      LeaveProgress(cfg, s, t, l);
    } else if l.ProcessDone? {
      ProcessDoneProgress(cfg, s, t, l.w, l.result);
    } else {
      VerifyDoneProgress(cfg, s, t, l.w, l.verdict, l.outcome);
    }
  }

  predicate QuietRun(ls: seq<Label>) {
    forall l :: l in ls ==> Quiet(l)
  }

  lemma {:induction false} RunProgress(cfg: Config, ls: seq<Label>) returns (t: Token)
    requires cfg.maxProcess >= 1 && QuietRun(ls) && Run(cfg, START, ls).Some?
    ensures Calm(cfg, Run(cfg, START, ls).value, t)
    ensures 0 <= Measure(cfg, Run(cfg, START, ls).value, t) <= 5 * (2 * cfg.maxProcess + cfg.maxVerify) + 2 - |ls|
  {
    if ls == [] {
      t := Idle;
    } else {
      var n := |ls| - 1;
      var before := RunProgress(cfg, ls[..n]);
      var s := Run(cfg, START, ls[..n]).value;
      StepProgress(cfg, s, before, ls[n]);
      t := NextToken(cfg, s, before, ls[n]);
    }
  }

  /** At any point of a quiet run the job has at most one live message or worker, and the messages
      consumed for it stay within the handler's limits; every quiet run ends. */
  lemma BoundedWork(cfg: Config, ls: seq<Label>)
    requires cfg.maxProcess >= 1 && QuietRun(ls) && Run(cfg, START, ls).Some?
    ensures var s := Run(cfg, START, ls).value;
            s.processQueue + s.verificationQueue + |s.workers| <= 1
            && s.consumed <= 2 * cfg.maxProcess + cfg.maxVerify
    ensures |ls| <= 5 * (2 * cfg.maxProcess + cfg.maxVerify) + 2
  {
    var t := RunProgress(cfg, ls);
    var s := Run(cfg, START, ls).value;
    BudgetNotNegative(cfg, s, t);
  }

  lemma BudgetNotNegative(cfg: Config, s: State, t: Token)
    requires Calm(cfg, s, t)
    ensures Budget(cfg, s, t) >= 0
  {
    if t.At? {
      assert t.w in s.workers;
      assert WorkerOk(cfg, s.workers[t.w], s.db.value);
    }
  }

  // ---- How quiet runs end ---------------------------------------------------------------------

  /** The statuses after which nothing more is due. */
  predicate Settled(status: Status) {
    status == Completed || status == Failed || status == VerificationTimeout
  }

  /** Labels that end a function without leaving a message or a final status. */
  predicate Strands(l: Label) {
    l.Crash? || (l.VerifyDone? && l.verdict == VerifierError)
  }

  predicate Clean(ls: seq<Label>) {
    forall l :: l in ls ==> !Strands(l)
  }

  /** While something is live the job is not settled; once nothing is, it is settled or was stranded. */
  predicate EndsOk(s: State, t: Token, clean: bool) {
    s.db.Some? ==>
      if t.Idle? then Settled(s.db.value.status) <==> clean
      else !Settled(s.db.value.status) && clean
  }

  lemma StartEnds(cfg: Config, s: State, t: Token, l: Label, clean: bool)
    requires Calm(cfg, s, t) && EndsOk(s, t, clean) && Quiet(l) && Starts(l) && Next(cfg, s, l).Some?
    requires s.db.None? ==> clean
    ensures EndsOk(Next(cfg, s, l).value, NextToken(cfg, s, t, l), clean)
  {
  }

  lemma WriteEnds(cfg: Config, s: State, t: Token, w: nat, clean: bool)
    requires Calm(cfg, s, t) && EndsOk(s, t, clean) && Next(cfg, s, Write(w)).Some?
    ensures EndsOk(Next(cfg, s, Write(w)).value, NextToken(cfg, s, t, Write(w)), clean)
  {
    var x := s.workers[w];
    assert t == At(w, x) && WorkerOk(cfg, x, s.db.value);
    WriteStepForm(s, w, x.kind, x.base, x.outcome);
  }

  lemma OtherEnds(cfg: Config, s: State, t: Token, l: Label, clean: bool)
    requires Calm(cfg, s, t) && EndsOk(s, t, clean) && Quiet(l) && !Starts(l) && !l.Write? && Next(cfg, s, l).Some?
    ensures EndsOk(Next(cfg, s, l).value, NextToken(cfg, s, t, l), clean && !Strands(l))
  {
    assert t == At(l.w, s.workers[l.w]);
    StepGrows(cfg, s, l);
  }

  lemma StepEnds(cfg: Config, s: State, t: Token, l: Label, clean: bool)
    requires Calm(cfg, s, t) && EndsOk(s, t, clean) && Quiet(l) && Next(cfg, s, l).Some?
    requires s.db.None? ==> clean
    ensures EndsOk(Next(cfg, s, l).value, NextToken(cfg, s, t, l), clean && !Strands(l))
  {
    if Starts(l) {
      StartEnds(cfg, s, t, l, clean);
    } else if l.Write? {
      WriteEnds(cfg, s, t, l.w, clean);
    } else {
      OtherEnds(cfg, s, t, l, clean);
    }
  }

  lemma CleanSnoc(ls: seq<Label>, l: Label, longer: seq<Label>)
    requires longer == ls + [l]
    ensures Clean(longer) <==> Clean(ls) && !Strands(l)
  {
    assert l in longer;
  }

  /** The token and the way the run ends, one step on; after any step of a quiet run there is a document. */
  lemma StepKeepsEnds(cfg: Config, s: State, t: Token, l: Label, clean: bool, u: State) returns (after: Token)
    requires cfg.maxProcess >= 1
    requires Calm(cfg, s, t) && EndsOk(s, t, clean) && Quiet(l) && Next(cfg, s, l) == Some(u)
    requires s.db.None? ==> clean && s == START
    ensures u.db.Some? && Calm(cfg, u, after) && EndsOk(u, after, clean && !Strands(l))
  {
    after := NextToken(cfg, s, t, l);
    StepProgress(cfg, s, t, l);
    StepEnds(cfg, s, t, l, clean);
    FirstInserts(cfg, s, l);
  }

  lemma FirstInserts(cfg: Config, s: State, l: Label)
    requires Next(cfg, s, l).Some? && Quiet(l) && (s.db.Some? || s == START)
    ensures Next(cfg, s, l).value.db.Some?
  {
  }

  lemma LongerRunEnds(cfg: Config, front: seq<Label>, s: State, before: Token, l: Label, ls: seq<Label>, u: State)
    returns (t: Token)
    requires cfg.maxProcess >= 1 && Quiet(l) && ls == front + [l] && Next(cfg, s, l) == Some(u)
    requires Calm(cfg, s, before) && EndsOk(s, before, Clean(front)) && (s.db.None? ==> front == [] && s == START)
    ensures Calm(cfg, u, t) && EndsOk(u, t, Clean(ls)) && u.db.Some?
  {
    t := StepKeepsEnds(cfg, s, before, l, Clean(front), u);
    CleanSnoc(front, l, ls);
  }

  lemma EmptyRun(cfg: Config, s: State, t: State)
    requires cfg.maxProcess >= 1 && s == START && Run(cfg, s, []) == Some(t)
    ensures t == START && Calm(cfg, t, Idle) && EndsOk(t, Idle, Clean([]))
  {
  }

  lemma QuietFront(ls: seq<Label>)
    requires QuietRun(ls) && ls != []
    ensures QuietRun(ls[..|ls| - 1]) && Quiet(ls[|ls| - 1])
  {
  }

  lemma {:induction false} RunEnds(cfg: Config, start: State, ls: seq<Label>, u: State) returns (t: Token)
    requires cfg.maxProcess >= 1 && QuietRun(ls) && start == START && Run(cfg, start, ls) == Some(u)
    ensures Calm(cfg, u, t) && EndsOk(u, t, Clean(ls)) && (u.db.None? ==> ls == [] && u == START)
  {
    if ls == [] {
      EmptyRun(cfg, start, u);
      t := Idle;
    } else {
      var front, l := ls[..|ls| - 1], ls[|ls| - 1];
      QuietFront(ls);
      var s := RunFront(cfg, start, ls, u);
      var before := RunEnds(cfg, start, front, s);
      t := LongerRunEnds(cfg, front, s, before, l, ls, u);
    }
  }

  lemma NothingLive(s: State, t: Token)
    requires Holds(s, t) && s.processQueue == 0 && s.verificationQueue == 0 && s.workers == map[]
    ensures t.Idle?
  {
    assert forall w: nat, x: Worker :: w in map[w := x];
  }

  /** A quiet run that is over, with no message and no worker left, leaves the job completed, failed or timed
      out if and only if no worker stopped half-way and no verification handler failed with an error. */
  lemma SettledIff(cfg: Config, ls: seq<Label>)
    requires cfg.maxProcess >= 1 && QuietRun(ls) && ls != [] && Run(cfg, START, ls).Some?
    requires var s := Run(cfg, START, ls).value;
             s.processQueue == 0 && s.verificationQueue == 0 && s.workers == map[]
    ensures var s := Run(cfg, START, ls).value;
            s.db.Some? && (Settled(s.db.value.status) <==> Clean(ls))
  {
    var t := RunEnds(cfg, START, ls, Run(cfg, START, ls).value);
    NothingLive(Run(cfg, START, ls).value, t);
  }
}
