/** What every run of store operations keeps true of a job's rows. */
module History {
  import opened Basics
  import opened JobMachine
  import opened Records

  function Events(log: seq<Entry>): (es: seq<JobEvent>)
    ensures |es| == |log|
    ensures forall i :: 0 <= i < |log| ==> es[i] == log[i].hop.event
  {
    seq(|log|, i requires 0 <= i < |log| => log[i].hop.event)
  }

  function Count(log: seq<Entry>, event: JobEvent): nat {
    if log == [] then 0
    else Count(log[..|log| - 1], event) + if log[|log| - 1].hop.event == event then 1 else 0
  }

  /** Leases handed back on shutdown, by the event that recorded them:
      `LeaseExpired` from proving work, `RetryScheduled` from a submission. */
  function Releases(log: seq<Entry>, event: JobEvent): nat {
    if log == [] then 0
    else
      var last := log[|log| - 1];
      Releases(log[..|log| - 1], event)
      + if last.hop.event == event && last.detail == Some(ReleasedOnShutdown) then 1 else 0
  }

  lemma CountAppend(log: seq<Entry>, e: Entry, event: JobEvent)
    ensures Count(log + [e], event) == Count(log, event) + if e.hop.event == event then 1 else 0
    ensures Releases(log + [e], event)
         == Releases(log, event) + if e.hop.event == event && e.detail == Some(ReleasedOnShutdown) then 1 else 0
  {
    assert (log + [e])[..|log|] == log;
  }

  // --- the invariants ------------------------------------------------------

  /** The audit log starts at `queued`, every row is a legal move, each row
      starts where the previous one ended, and the last ends at `state`. */
  ghost predicate Chains(log: seq<Entry>, state: JobState) {
    && (forall i :: 0 <= i < |log| ==>
          Transition(log[i].hop.from, log[i].hop.event) == Ok(log[i].hop.to))
    && (forall i :: 0 < i < |log| ==> log[i].hop.from == log[i - 1].hop.to)
    && (if log == [] then state.Queued? else log[0].hop.from.Queued? && log[|log| - 1].hop.to == state)
  }

  /** In flight exactly when the lease is fully present. */
  ghost predicate LeaseExact(job: Job) {
    && (job.state.IsInFlight() <==> job.leasedBy.Some?)
    && (job.leasedBy.Some? <==> job.leaseExpiresAt.Some?)
  }

  /** A proof travels with its public inputs, is there in every state that needs
      one, and nowhere before it was produced. */
  ghost predicate ProofExact(job: Job) {
    && (job.proof.Some? <==> job.publicInputs.Some?)
    && (job.state.HoldsProof() ==> job.proof.Some?)
    && (job.state.BeforeProof() || job.state.Rejected? ==> job.proof.None?)
  }

  ghost predicate RetryOnlyWaiting(job: Job) {
    job.retryAfter.Some? ==> job.state.Queued? || job.state.Proved?
  }

  /** The counters and attempt rows agree with the audit log. */
  ghost predicate Accounted(r: Record) {
    && r.job.attempts == Count(r.log, JobEvent.Leased)
    && r.job.submissionAttempts == Count(r.log, SubmissionStarted)
    && Count(r.log, ProofSucceeded) == (if r.job.proof.Some? then 1 else 0)
    && (forall n :: n in r.tries <==> 1 <= n <= r.job.attempts)
  }

  ghost predicate Sound(r: Record) {
    && Chains(r.log, r.job.state)
    && Replay(Queued, Events(r.log)) == Ok(r.job.state)
    && LeaseExact(r.job)
    && ProofExact(r.job)
    && RetryOnlyWaiting(r.job)
    && Accounted(r)
  }

  /** Every accepted call except a renewal writes exactly one audit row, which
      records the legal move it made. */
  lemma AcceptedCallsAreLogged(r: Record, call: Call, now: Time)
    requires Step(r, call, now).Ok?
    ensures var r' := Step(r, call, now).value;
      if call.Renew? then r'.log == r.log && r'.job.state == r.job.state
      else
        && |r'.log| == |r.log| + 1 && r'.log[..|r.log|] == r.log
        && var hop := r'.log[|r.log|].hop;
           hop.from == r.job.state && hop.to == r'.job.state && Transition(hop.from, hop.event) == Ok(hop.to)
  {
  }

  lemma ReplayAppend(log: seq<Entry>, e: Entry)
    requires Replay(Queued, Events(log)) == Ok(e.hop.from)
    requires Transition(e.hop.from, e.hop.event) == Ok(e.hop.to)
    ensures Replay(Queued, Events(log + [e])) == Ok(e.hop.to)
  {
    var es := Events(log + [e]);
    assert es[..|es| - 1] == Events(log);
  }

  /** What one audit row adds to the books. */
  lemma StepBooks(r: Record, call: Call, now: Time)
    requires ProofExact(r.job)
    requires Step(r, call, now).Ok? && !call.Renew?
    ensures var r' := Step(r, call, now).value;
      && |r'.log| == |r.log| + 1
      && var event := r'.log[|r.log|].hop.event;
         && r'.job.attempts == r.job.attempts + (if event == JobEvent.Leased then 1 else 0)
         && r'.job.submissionAttempts == r.job.submissionAttempts + (if event == SubmissionStarted then 1 else 0)
         && (if event == ProofSucceeded then r.job.proof.None? && r'.job.proof.Some? else r'.job.proof == r.job.proof)
  {
  }

  lemma StepKeepsTries(r: Record, call: Call, now: Time)
    requires r.job.attempts >= 0 && forall n :: n in r.tries <==> 1 <= n <= r.job.attempts
    requires Step(r, call, now).Ok?
    ensures var r' := Step(r, call, now).value;
      forall n :: n in r'.tries <==> 1 <= n <= r'.job.attempts
  {
  }

  lemma StepKeepsCounts(r: Record, call: Call, now: Time)
    requires Sound(r)
    requires Step(r, call, now).Ok?
    ensures Accounted(Step(r, call, now).value)
  {
    StepKeepsTries(r, call, now);
    AcceptedCallsAreLogged(r, call, now);
    if !call.Renew? {
      StepBooks(r, call, now);
      BooksBalance(r, Step(r, call, now).value);
    }
  }

  lemma BooksBalance(r: Record, r': Record)
    requires Accounted(r) && forall n :: n in r'.tries <==> 1 <= n <= r'.job.attempts
    requires |r'.log| == |r.log| + 1 && r'.log[..|r.log|] == r.log
    requires var event := r'.log[|r.log|].hop.event;
      && r'.job.attempts == r.job.attempts + (if event == JobEvent.Leased then 1 else 0)
      && r'.job.submissionAttempts == r.job.submissionAttempts + (if event == SubmissionStarted then 1 else 0)
      && (if event == ProofSucceeded then r.job.proof.None? && r'.job.proof.Some? else r'.job.proof == r.job.proof)
    ensures Accounted(r')
  {
    var e := r'.log[|r.log|];
    assert r'.log == r.log + [e];
    CountAppend(r.log, e, JobEvent.Leased);
    CountAppend(r.log, e, SubmissionStarted);
    CountAppend(r.log, e, ProofSucceeded);
  }

  lemma StepKeepsRow(r: Record, call: Call, now: Time)
    requires LeaseExact(r.job) && ProofExact(r.job) && RetryOnlyWaiting(r.job)
    requires Step(r, call, now).Ok?
    ensures var job := Step(r, call, now).value.job;
      LeaseExact(job) && ProofExact(job) && RetryOnlyWaiting(job)
  {
  }

  lemma StepKeepsChain(r: Record, call: Call, now: Time)
    requires Chains(r.log, r.job.state) && Replay(Queued, Events(r.log)) == Ok(r.job.state)
    requires Step(r, call, now).Ok?
    ensures var r' := Step(r, call, now).value;
      Chains(r'.log, r'.job.state) && Replay(Queued, Events(r'.log)) == Ok(r'.job.state)
  {
    var r' := Step(r, call, now).value;
    AcceptedCallsAreLogged(r, call, now);
    if !call.Renew? {
      LogGrows(r, r');
    }
  }

  lemma LogGrows(r: Record, r': Record)
    requires Chains(r.log, r.job.state) && Replay(Queued, Events(r.log)) == Ok(r.job.state)
    requires |r'.log| == |r.log| + 1 && r'.log[..|r.log|] == r.log
    requires var hop := r'.log[|r.log|].hop;
      hop.from == r.job.state && hop.to == r'.job.state && Transition(hop.from, hop.event) == Ok(hop.to)
    ensures Chains(r'.log, r'.job.state) && Replay(Queued, Events(r'.log)) == Ok(r'.job.state)
  {
    var e := r'.log[|r.log|];
    assert r'.log == r.log + [e];
    ReplayAppend(r.log, e);
  }

  lemma StepKeepsSound(r: Record, call: Call, now: Time)
    requires Sound(r)
    requires Step(r, call, now).Ok?
    ensures Sound(Step(r, call, now).value)
  {
    StepKeepsCounts(r, call, now);
    StepKeepsRow(r, call, now);
    StepKeepsChain(r, call, now);
  }

  /** MAIN. In every run, whoever calls and however stale they are, each job's
      rows stay sound. */
  lemma {:induction false} RunsStaySound(
    circuit: string, hash: Bytes, createdAt: Time, maxAttempts: int, calls: seq<Stamped>)
    ensures Sound(Run(NewRecord(circuit, hash, createdAt, maxAttempts), calls))
  {
    var r := NewRecord(circuit, hash, createdAt, maxAttempts);
    if calls != [] {
      RunsStaySound(circuit, hash, createdAt, maxAttempts, calls[..|calls| - 1]);
      var before := Run(r, calls[..|calls| - 1]);
      var last := calls[|calls| - 1];
      if Step(before, last.call, last.at).Ok? {
        StepKeepsSound(before, last.call, last.at);
      }
    } else {
      assert Run(r, calls) == r;
    }
  }

  // --- write-once results --------------------------------------------------

  ghost predicate Proven(job: Job) {
    job.proof.Some? && job.publicInputs.Some? && (job.state.HoldsProof() || job.state.Failed?)
  }

  /** MAIN. Once a proof is stored it is never replaced, the job never leaves
      {proved, submitting, settled, failed}, and `failed` absorbs. */
  lemma {:induction false} ProofsAreWriteOnce(r: Record, calls: seq<Stamped>)
    requires Proven(r.job)
    ensures var r' := Run(r, calls);
      && Proven(r'.job)
      && r'.job.proof == r.job.proof && r'.job.publicInputs == r.job.publicInputs
      && (r.job.state.Failed? ==> r'.job.state.Failed? && r'.log == r.log)
      && Count(r'.log, ProofSucceeded) == Count(r.log, ProofSucceeded)
  {
    if calls != [] {
      ProofsAreWriteOnce(r, calls[..|calls| - 1]);
      var before := Run(r, calls[..|calls| - 1]);
      var last := calls[|calls| - 1];
      if Step(before, last.call, last.at).Ok? {
        StepKeepsProof(before, last.call, last.at);
      }
    }
  }

  lemma StepKeepsProof(r: Record, call: Call, now: Time)
    requires Proven(r.job)
    requires Step(r, call, now).Ok?
    ensures var r' := Step(r, call, now).value;
      && Proven(r'.job)
      && r'.job.proof == r.job.proof && r'.job.publicInputs == r.job.publicInputs
      && (r.job.state.Failed? ==> r' == r)
      && Count(r'.log, ProofSucceeded) == Count(r.log, ProofSucceeded)
  {
    var r' := Step(r, call, now).value;
    AcceptedCallsAreLogged(r, call, now);
    if !call.Renew? {
      var e := r'.log[|r.log|];
      assert r'.log == r.log + [e];
      CountAppend(r.log, e, ProofSucceeded);
    }
  }
}
