/** When a lease ends and when a job that failed may be taken again, in times and
    accepted calls. */
module Leases {
  import opened Basics
  import opened JobMachine
  import opened Records
  import opened History

  /** A call that gives its caller a lease, or more of one, for `ttl`. */
  predicate Grants(call: Call) {
    call.Lease? || call.LeaseProved? || call.Renew?
  }

  function Ttl(call: Call): Time
    requires Grants(call)
  {
    match call
    case Lease(_, ttl) => ttl
    case LeaseProved(_, ttl) => ttl
    case Renew(_, ttl) => ttl
  }

  function Taker(call: Call): Actor
    requires Grants(call)
  {
    match call
    case Lease(worker, _) => worker
    case LeaseProved(relayer, _) => relayer
    case Renew(holder, _) => holder
  }

  /** The job was in flight at every moment of the run. */
  ghost predicate InFlightThroughout(r: Record, calls: seq<Stamped>) {
    r.job.state.IsInFlight()
    && (calls != [] ==> InFlightThroughout(r, calls[..|calls| - 1]) && Run(r, calls).job.state.IsInFlight())
  }

  /** No renewal in the run was accepted. */
  ghost predicate NotRenewed(r: Record, calls: seq<Stamped>) {
    calls != [] ==>
      && NotRenewed(r, calls[..|calls| - 1])
      && var last := calls[|calls| - 1];
         last.call.Renew? ==> Step(Run(r, calls[..|calls| - 1]), last.call, last.at).Err?
  }

  /** What a holder has: the lease is theirs, until then. */
  ghost predicate HeldUntil(r: Record, w: Actor, until: Time) {
    r.job.state.IsInFlight() && r.job.leasedBy == Some(w) && r.job.leaseExpiresAt == Some(until)
  }

  lemma StaysHeld(r: Record, call: Call, now: Time, w: Actor, until: Time)
    requires HeldUntil(r, w, until) && Step(r, call, now).Ok? && !call.Renew?
    requires Step(r, call, now).value.job.state.IsInFlight()
    ensures HeldUntil(Step(r, call, now).value, w, until)
  {
  }

  lemma {:induction false} HeldThroughout(r: Record, calls: seq<Stamped>, w: Actor, until: Time)
    requires HeldUntil(r, w, until) && InFlightThroughout(r, calls) && NotRenewed(r, calls)
    ensures HeldUntil(Run(r, calls), w, until)
  {
    if calls != [] {
      var prefix, last := calls[..|calls| - 1], calls[|calls| - 1];
      HeldThroughout(r, prefix, w, until);
      if Step(Run(r, prefix), last.call, last.at).Ok? {
        StaysHeld(Run(r, prefix), last.call, last.at, w, until);
      }
    }
  }

  lemma GrantsHold(r: Record, call: Call, now: Time)
    requires Grants(call) && Step(r, call, now).Ok?
    ensures HeldUntil(Step(r, call, now).value, Taker(call), now + Ttl(call))
  {
  }

  lemma ReapsExactlyTheExpired(r: Record, w: Actor, until: Time, reaper: Actor, t: Time)
    requires HeldUntil(r, w, until)
    ensures Step(r, Call.Reap(reaper), t).Ok? <==> until < t
  {
  }

  lemma HoldersRenew(r: Record, w: Actor, until: Time, other: Actor, ttl: Time, t: Time)
    requires HeldUntil(r, w, until)
    ensures Step(r, Renew(other, ttl), t).Ok? <==> other == w
  {
  }

  /** MAIN. A lease lasts as long as it was granted for. Whether it was given for
      proving, for submitting, or by a renewal: for as long as the job stays in
      flight and is not renewed, whatever else is called and by whom, a reaper is
      refused up to `now + ttl` and accepted at any later time; and meanwhile it
      is the taker, and nobody else, who can renew. */
  lemma LeasesLastAsGranted(
    r: Record, grant: Stamped, calls: seq<Stamped>, reaper: Actor, other: Actor, ttl: Time, t: Time)
    requires Grants(grant.call) && Step(r, grant.call, grant.at).Ok?
    requires var r' := Step(r, grant.call, grant.at).value; InFlightThroughout(r', calls) && NotRenewed(r', calls)
    ensures var later := Run(Step(r, grant.call, grant.at).value, calls);
      && (Step(later, Call.Reap(reaper), t).Ok? <==> grant.at + Ttl(grant.call) < t)
      && (Step(later, Renew(other, ttl), t).Ok? <==> other == Taker(grant.call))
  {
    var until := grant.at + Ttl(grant.call);
    GrantsHold(r, grant.call, grant.at);
    HeldThroughout(Step(r, grant.call, grant.at).value, calls, Taker(grant.call), until);
    var later := Run(Step(r, grant.call, grant.at).value, calls);
    ReapsExactlyTheExpired(later, Taker(grant.call), until, reaper, t);
    HoldersRenew(later, Taker(grant.call), until, other, ttl, t);
  }

  // --- waiting ----------------------------------------------------------------------

  /** A failure reported with or without a delay. */
  predicate Reports(call: Call) {
    call.RecordFailure? || call.RecordSubmissionFailure?
  }

  function RetryIn(call: Call): Option<Time>
    requires Reports(call)
  {
    match call
    case RecordFailure(_, _, _, retryIn) => retryIn
    case RecordSubmissionFailure(_, _, _, retryIn) => retryIn
  }

  /** The queue a failure of this kind of work goes back to. */
  function OwnQueue(call: Call): JobState
    requires Reports(call)
  {
    if call.RecordFailure? then Queued else Proved
  }

  function Take(queue: JobState, w: Actor, ttl: Time): Call {
    if queue.Queued? then Lease(w, ttl) else LeaseProved(w, ttl)
  }

  /** Nothing accepted in the run: the job just waits. */
  ghost predicate NothingAccepted(r: Record, calls: seq<Stamped>) {
    calls != [] ==>
      && NothingAccepted(r, calls[..|calls| - 1])
      && Step(Run(r, calls[..|calls| - 1]), calls[|calls| - 1].call, calls[|calls| - 1].at).Err?
  }

  lemma {:induction false} NothingChanges(r: Record, calls: seq<Stamped>)
    requires NothingAccepted(r, calls)
    ensures Run(r, calls) == r
  {
    if calls != [] {
      NothingChanges(r, calls[..|calls| - 1]);
    }
  }

  /** MAIN. A job that failed waits as long as it was told to. Until some call is
      accepted, it can be taken from its queue at `t` exactly when the delay given
      with the failure has passed, and at once when none was given. */
  lemma FailedJobsWaitTheirDelay(r: Record, report: Stamped, calls: seq<Stamped>, w: Actor, ttl: Time, t: Time)
    requires Reports(report.call) && Step(r, report.call, report.at).Ok?
    requires Step(r, report.call, report.at).value.job.state == OwnQueue(report.call)
    requires NothingAccepted(Step(r, report.call, report.at).value, calls)
    ensures var later := Run(Step(r, report.call, report.at).value, calls);
      Step(later, Take(OwnQueue(report.call), w, ttl), t).Ok?
      <==> RetryIn(report.call).None? || report.at + RetryIn(report.call).value <= t
  {
    NothingChanges(Step(r, report.call, report.at).value, calls);
  }

  /** A job handed back, reaped or unwound by a reorg can be taken again at once. */
  lemma ReturnedJobsNeedNotWait(r: Record, back: Stamped, w: Actor, ttl: Time, t: Time)
    requires RetryOnlyWaiting(r.job) && Step(r, back.call, back.at).Ok?
    requires back.call.Release? || back.call.Reap? || back.call.RecordReorg? || back.call.RecordProof?
    ensures var r' := Step(r, back.call, back.at).value;
      r'.job.state.Queued? || r'.job.state.Proved? ==> Step(r', Take(r'.job.state, w, ttl), t).Ok?
  {
  }

  // --- how failures end ---------------------------------------------------------------

  /** MAIN. What a reported failure comes to: it is refused exactly where there is
      nothing left to fail; the job is failed for good exactly when the failure is
      permanent or the budget of that kind of work is spent, and otherwise goes
      back to be proved, or submitted, again, with nothing it had achieved lost. */
  lemma FailuresEndAsPromised(r: Record, call: Call, now: Time)
    requires Reports(call)
    ensures var spent := if call.RecordFailure? then r.job.attempts else r.job.submissionAttempts;
      var final := call.kind.Permanent? || (spent >= 1 && spent >= r.job.maxAttempts);
      && (Step(r, call, now).Ok? <==> !r.job.state.Settled? && !r.job.state.IsTerminal())
      && (Step(r, call, now).Ok? ==>
            var job := Step(r, call, now).value.job;
            && job.state == (if final then Failed else if r.job.state.BeforeProof() then Queued else Proved)
            && job.leasedBy.None? && job.leaseExpiresAt.None? && job.lastError == Some(Reported(call.error))
            && job.attempts == r.job.attempts && job.submissionAttempts == r.job.submissionAttempts
            && job.proof == r.job.proof && job.publicInputs == r.job.publicInputs)
  {
  }

  /** What closes an attempt row: a proof, or a failure of proving; only the
      latest row, and only its outcome and error. */
  lemma AttemptsAreClosed(r: Record, call: Call, now: Time)
    requires Step(r, call, now).Ok? && (call.RecordProof? || call.RecordFailure?)
    ensures var tries := Step(r, call, now).value.tries;
      && tries.Keys == r.tries.Keys
      && (forall n :: n in r.tries ==> tries[n].worker == r.tries[n].worker)
      && (forall n :: n in r.tries && n != r.job.attempts ==> tries[n] == r.tries[n])
      && (r.job.attempts in r.tries ==>
            && tries[r.job.attempts].outcome == Some(if call.RecordProof? then Succeeded else GaveUp)
            && tries[r.job.attempts].error
               == (if call.RecordProof? then r.tries[r.job.attempts].error else Some(Reported(call.error))))
  {
  }

  /** Exactly when the other calls are accepted, and where they leave the job: it is
      the job's state that decides, and for the two queues the time, never who
      calls. Whoever calls, and however late, is what the run theorems allow. */
  lemma StatesDecideAcceptance(r: Record, call: Call, now: Time)
    requires !Reports(call) && !call.Renew? && !call.Reap?
    ensures var job, waited := r.job, r.job.retryAfter.None? || r.job.retryAfter.value <= now;
      Step(r, call, now).Ok?
      <==> match call
           case Lease(_, _) => job.state.Queued? && waited
           case LeaseProved(_, _) => job.state.Proved? && waited
           case BeginProving(_) => job.state == JobState.Leased
           case RecordProof(_, _, _) => job.state.Proving?
           case Release(_) => job.state == JobState.Leased || job.state.Proving? || job.state.Submitting?
           case ConfirmSettlement(_, _) => job.state.Submitting?
           case RecordReorg(_) => job.state.Settled?
           case _ => false
    ensures Step(r, call, now).Ok? ==>
      Step(r, call, now).value.job.state
      == match call
         case Lease(_, _) => JobState.Leased
         case LeaseProved(_, _) => Submitting
         case BeginProving(_) => Proving
         case RecordProof(_, _, _) => Proved
         case Release(_) => if r.job.state.Submitting? then Proved else Queued
         case ConfirmSettlement(_, _) => Settled
         case RecordReorg(_) => Proved
         case _ => r.job.state
  {
  }

  // --- who did it -----------------------------------------------------------------------

  function CallerOf(call: Call): Actor {
    match call
    case Lease(w, _) => w
    case LeaseProved(w, _) => w
    case Renew(w, _) => w
    case Reap(w) => w
    case BeginProving(w) => w
    case RecordProof(w, _, _) => w
    case RecordFailure(w, _, _, _) => w
    case Release(w) => w
    case ConfirmSettlement(w, _) => w
    case RecordReorg(w) => w
    case RecordSubmissionFailure(w, _, _, _) => w
  }

  /** Every audit row names its caller and, where there is one, the reason. */
  lemma AuditRowsNameTheirCaller(r: Record, call: Call, now: Time)
    requires Step(r, call, now).Ok? && !call.Renew?
    ensures var e := Step(r, call, now).value.log[|r.log|];
      && e.actor == CallerOf(call)
      && (Reports(call) ==> e.detail == Some(Reported(call.error)))
      && (call.Release? <==> e.detail == Some(ReleasedOnShutdown))
      && (call.Reap? <==> e.detail == Some(LeaseRanOut) || e.detail == Some(LeaseRanOutExhausted))
      && (e.detail == Some(LeaseRanOutExhausted) ==> e.hop.to.Failed?)
      && (e.detail == Some(LeaseRanOut) ==> !e.hop.to.Failed?)
      && (call.RecordReorg? <==> e.detail == Some(RemovedByReorg))
      && (call.ConfirmSettlement? ==> e.detail == Note(call.note) && (e.detail.None? <==> call.note.None?))
      && (call.Lease? || call.LeaseProved? || call.BeginProving? || call.RecordProof? ==> e.detail.None?)
  {
  }

  /** The last reason in an audit log. */
  function LastReason(log: seq<Entry>): Option<Detail> {
    if log == [] then None
    else if log[|log| - 1].detail.Some? then log[|log| - 1].detail
    else LastReason(log[..|log| - 1])
  }

  lemma ReasonsGrow(log: seq<Entry>, e: Entry)
    ensures LastReason(log + [e]) == if e.detail.Some? then e.detail else LastReason(log)
  {
    assert (log + [e])[..|log|] == log;
  }

  lemma StepKeepsReason(r: Record, call: Call, now: Time)
    requires r.job.lastError == LastReason(r.log) && Step(r, call, now).Ok?
    ensures var r' := Step(r, call, now).value; r'.job.lastError == LastReason(r'.log)
  {
    if !call.Renew? {
      LeasesAreLoggedAsLeases(r, call, now);
      ReasonsGrow(r.log, Step(r, call, now).value.log[|r.log|]);
    }
  }

  /** MAIN. In every run a job's last error is the last reason its audit log gives,
      and none exactly when the log gives none. */
  lemma {:induction false} LastErrorsAreLogged(r: Record, calls: seq<Stamped>)
    requires r == NewRecord(r.job.circuit, r.job.hash, r.job.createdAt, r.job.maxAttempts)
    ensures Run(r, calls).job.lastError == LastReason(Run(r, calls).log)
  {
    if calls != [] {
      LastErrorsAreLogged(r, calls[..|calls| - 1]);
      var before, last := Run(r, calls[..|calls| - 1]), calls[|calls| - 1];
      if Step(before, last.call, last.at).Ok? {
        StepKeepsReason(before, last.call, last.at);
      }
    }
  }

  /** MAIN. The proof and the inputs of the one report that was accepted are what
      the job has for ever after, whatever is called and by whom. */
  lemma AcceptedProofsStay(r: Record, report: Stamped, calls: seq<Stamped>)
    requires report.call.RecordProof? && Step(r, report.call, report.at).Ok?
    ensures var later := Run(Step(r, report.call, report.at).value, calls).job;
      later.proof == Some(report.call.proof) && later.publicInputs == Some(report.call.publicInputs)
  {
    ProofsAreWriteOnce(Step(r, report.call, report.at).value, calls);
  }

  /** Who took the job for proving, in order. */
  function Takers(log: seq<Entry>): seq<Actor> {
    if log == [] then []
    else
      var last := log[|log| - 1];
      Takers(log[..|log| - 1]) + if last.hop.event == JobEvent.Leased then [last.actor] else []
  }

  lemma TakersGrow(log: seq<Entry>, e: Entry)
    ensures Takers(log + [e]) == Takers(log) + if e.hop.event == JobEvent.Leased then [e.actor] else []
  {
    assert (log + [e])[..|log|] == log;
  }

  /** Attempt row `n` belongs to whoever took the job the `n`-th time. */
  ghost predicate AttemptsNamed(r: Record) {
    && |Takers(r.log)| == r.job.attempts
    && (forall n :: n in r.tries <==> 1 <= n <= r.job.attempts)
    && (forall n :: n in r.tries ==> r.tries[n].worker == Takers(r.log)[n - 1])
  }

  lemma StepNamesAttempts(r: Record, call: Call, now: Time)
    requires (forall n :: n in r.tries <==> 1 <= n <= r.job.attempts) && r.job.attempts >= 0
    requires Step(r, call, now).Ok?
    ensures var r' := Step(r, call, now).value;
      && (forall n :: n in r.tries ==> n in r'.tries && r'.tries[n].worker == r.tries[n].worker)
      && (if call.Lease?
          then r'.tries.Keys == r.tries.Keys + {r.job.attempts + 1}
               && r'.tries[r.job.attempts + 1] == Attempt(call.worker, None, None)
          else r'.tries.Keys == r.tries.Keys)
  {
  }

  lemma LeasesAreLoggedAsLeases(r: Record, call: Call, now: Time)
    requires Step(r, call, now).Ok? && !call.Renew?
    ensures var r' := Step(r, call, now).value;
      && |r'.log| == |r.log| + 1 && r'.log == r.log + [r'.log[|r.log|]]
      && (r'.log[|r.log|].hop.event == JobEvent.Leased <==> call.Lease?)
      && (call.Lease? ==> r'.log[|r.log|].actor == call.worker)
      && r'.job.attempts == r.job.attempts + if call.Lease? then 1 else 0
  {
  }

  lemma StepKeepsNamed(r: Record, call: Call, now: Time)
    requires AttemptsNamed(r) && Step(r, call, now).Ok?
    ensures AttemptsNamed(Step(r, call, now).value)
  {
    StepNamesAttempts(r, call, now);
    if !call.Renew? {
      LeasesAreLoggedAsLeases(r, call, now);
      TakersGrow(r.log, Step(r, call, now).value.log[|r.log|]);
    }
  }

  /** MAIN. In every run, attempt row `n` names whoever the audit log says took the
      job for proving the `n`-th time. */
  lemma {:induction false} AttemptsNameTheirWorkers(r: Record, calls: seq<Stamped>)
    requires r == NewRecord(r.job.circuit, r.job.hash, r.job.createdAt, r.job.maxAttempts)
    ensures AttemptsNamed(Run(r, calls))
  {
    if calls != [] {
      AttemptsNameTheirWorkers(r, calls[..|calls| - 1]);
      var before, last := Run(r, calls[..|calls| - 1]), calls[|calls| - 1];
      if Step(before, last.call, last.at).Ok? {
        StepKeepsNamed(before, last.call, last.at);
      }
    }
  }
}
