/** Every write that any run of the job protocol commits, field by field. */
module JobWrites {
  import opened Outcomes
  import opened JobProtocol
  import opened JobSafety

  /** The attempts of the item a write was computed from, against the handler's limits. */
  predicate WithinLimits(cfg: Config, kind: Kind, base: Job) {
    match kind
    case Reject => base.metadata.processAttempts < cfg.maxProcess
    case FailVerification => base.metadata.processAttempts >= cfg.maxProcess
    case Poll => base.metadata.verificationAttempts < cfg.maxVerify
    case TimeOut => base.metadata.verificationAttempts >= cfg.maxVerify
    case _ => true
  }

  predicate LimitsKept(cfg: Config, s: State) {
    (forall w :: w in s.workers && s.workers[w].Writing? ==> WithinLimits(cfg, s.workers[w].kind, s.workers[w].base))
    && forall i :: 0 <= i < |s.history| ==> WithinLimits(cfg, s.history[i].kind, s.history[i].before)
  }

  lemma WriteLimits(cfg: Config, s: State, w: nat)
    requires Inv(cfg, s) && LimitsKept(cfg, s) && Next(cfg, s, Write(w)).Some?
    ensures LimitsKept(cfg, Next(cfg, s, Write(w)).value)
  {
    var x := s.workers[w];
    assert WorkerOk(cfg, x, s.db.value);
    if s.db.value.version == x.base.version {
      WriteStepForm(s, w, x.kind, x.base, x.outcome);
    }
  }

  lemma StartLimits(cfg: Config, s: State, l: Label)
    requires LimitsKept(cfg, s) && Starts(l) && Next(cfg, s, l).Some?
    ensures LimitsKept(cfg, Next(cfg, s, l).value)
  {
  }

  lemma HandlerLimits(cfg: Config, s: State, l: Label)
    requires LimitsKept(cfg, s) && (l.ProcessDone? || l.VerifyDone?) && Next(cfg, s, l).Some?
    ensures LimitsKept(cfg, Next(cfg, s, l).value)
  {
  }

  lemma StepLimits(cfg: Config, s: State, l: Label)
    requires Inv(cfg, s) && LimitsKept(cfg, s) && Next(cfg, s, l).Some?
    ensures LimitsKept(cfg, Next(cfg, s, l).value)
  {
    if Starts(l) {
      StartLimits(cfg, s, l);
    } else if l.Write? {
      WriteLimits(cfg, s, l.w);
    } else if l.ProcessDone? || l.VerifyDone? {
      HandlerLimits(cfg, s, l);
    }
  }

  lemma {:induction false} RunLimits(cfg: Config, ls: seq<Label>, s: State)
    requires cfg.maxProcess >= 1 && Run(cfg, START, ls) == Some(s)
    ensures LimitsKept(cfg, s)
  {
    if ls != [] {
      var front := RunFront(cfg, START, ls, s);
      RunLimits(cfg, ls[..|ls| - 1], front);
      ReachedKeeps(cfg, ls[..|ls| - 1]);
      StepLimits(cfg, front, ls[|ls| - 1]);
    }
  }

  /** In every run, each committed write found a status it may find, changed exactly the fields of its kind,
      and was due by the attempts counted in the item it found. */
  lemma EveryWrite(cfg: Config, ls: seq<Label>, i: nat)
    requires cfg.maxProcess >= 1 && Run(cfg, START, ls).Some?
    requires i < |Run(cfg, START, ls).value.history|
    ensures var r := Run(cfg, START, ls).value.history[i];
            var o, b, m := r.outcome, r.before, r.before.metadata;
            match r.kind
            case Lock =>
              b.status in {Created, VerificationFailed, PendingRetry}
              && r.after == Job(LockedForProcessing, b.externalId, m, b.version + 1)
            case Commit =>
              b.status == LockedForProcessing
              && r.after == Job(PendingVerification, o.externalId,
                                m.(specific := o.specific, processAttempts := m.processAttempts + 1), b.version + 1)
            case FailProcessing =>
              b.status == LockedForProcessing
              && r.after == Job(Failed, b.externalId, m.(specific := o.specific), b.version + 1)
            case Touch =>
              b.status in {PendingVerification, VerificationTimeout}
              && r.after == Job(b.status, b.externalId, m, b.version + 1)
            case Complete =>
              b.status in {PendingVerification, VerificationTimeout}
              && r.after == Job(Completed, b.externalId, m.(specific := o.specific), b.version + 1)
            case Reject =>
              b.status in {PendingVerification, VerificationTimeout} && m.processAttempts < cfg.maxProcess
              && r.after == Job(VerificationFailed, b.externalId, m.(specific := o.specific), b.version + 1)
            case FailVerification =>
              b.status in {PendingVerification, VerificationTimeout} && m.processAttempts >= cfg.maxProcess
              && r.after == Job(Failed, b.externalId, m.(specific := o.specific), b.version + 1)
            case Poll =>
              b.status in {PendingVerification, VerificationTimeout} && m.verificationAttempts < cfg.maxVerify
              && r.after == Job(b.status, b.externalId,
                                m.(specific := o.specific, verificationAttempts := m.verificationAttempts + 1),
                                b.version + 1)
            case TimeOut =>
              b.status in {PendingVerification, VerificationTimeout} && m.verificationAttempts >= cfg.maxVerify
              && r.after == Job(VerificationTimeout, b.externalId, m, b.version + 1)
            case Retry =>
              b.status == Failed
              && r.after == Job(PendingRetry, b.externalId,
                                m.(processAttempts := 0, processRetries := m.processRetries + 1), b.version + 1)
            case FailMessage =>
              b.status !in {Completed, Failed} && r.after == Job(Failed, b.externalId, m, b.version + 1)
            case Requeue =>
              r.after == Job(PendingVerification, b.externalId,
                             m.(verificationAttempts := 0, verificationRetries := m.verificationRetries + 1),
                             b.version + 1)
  {
    ReachedKeeps(cfg, ls);
    var s := Run(cfg, START, ls).value;
    RunLimits(cfg, ls, s);
    ChainedAt(s.history, i);
    assert WithinLimits(cfg, s.history[i].kind, s.history[i].before);
  }

  /** In every state, a handler's answer decides what its worker goes on to write, and on which attempts. */
  lemma VerdictDecides(cfg: Config, s: State, w: nat, base: Job, verdict: VerifyResult, o: Outcome)
    requires w in s.workers && s.workers[w] == Verifying(base)
    ensures var t := Next(cfg, s, VerifyDone(w, verdict, o));
            t.Some? && t.value.db == s.db && t.value.history == s.history
            && match verdict
               case Verified => t.value.workers == s.workers[w := Writing(Complete, base, o)]
               case Rejected =>
                 t.value.workers == s.workers[w := Writing(if base.metadata.processAttempts < cfg.maxProcess then Reject
                                                           else FailVerification, base, o)]
               case StillPending =>
                 t.value.workers == s.workers[w := Writing(if base.metadata.verificationAttempts < cfg.maxVerify then Poll
                                                           else TimeOut, base, o)]
               case VerifierError => t.value.workers == s.workers - {w}
  {
  }

  /** A committed write is followed by the message its function owes, if any. */
  lemma WriteOwes(cfg: Config, s: State, w: nat)
    requires w in s.workers && s.workers[w].Writing? && s.db == Some(s.workers[w].base)
    ensures var t := Next(cfg, s, Write(w));
            t.Some? && t.value.db.Some?
            && match s.workers[w].kind
               case Lock => t.value.workers == s.workers[w := Processing(t.value.db.value)]
               case Touch => t.value.workers == s.workers[w := Verifying(t.value.db.value)]
               case Commit => t.value.workers == s.workers[w := Sending(VerificationQueue)]
               case Poll => t.value.workers == s.workers[w := Sending(VerificationQueue)]
               case Requeue => t.value.workers == s.workers[w := Sending(VerificationQueue)]
               case Reject => t.value.workers == s.workers[w := Sending(ProcessQueue)]
               case Retry => t.value.workers == s.workers[w := Sending(ProcessQueue)]
               case _ => t.value.workers == s.workers - {w}
  {
  }
}
