/** What a job can cost: bounds on its counters and on its audit log. */
module Budgets {
  import opened Basics
  import opened JobMachine
  import opened Records
  import opened History

  function ProvingReleases(r: Record): nat { Releases(r.log, LeaseExpired) }
  function SubmissionReleases(r: Record): nat { Releases(r.log, RetryScheduled) }
  function Reorgs(r: Record): nat { Count(r.log, JobEvent.Reorged) }

  // --- calls nobody entitled would make ----------------------------------------

  /** A failed submission reported for a job still being proved, which sends it
      back to be leased again: charged to the wrong budget. */
  predicate ProvingStray(r: Record, call: Call, now: Time) {
    call.RecordSubmissionFailure? && (r.job.state.Leased? || r.job.state.Proving?)
    && Step(r, call, now).Ok? && Step(r, call, now).value.job.state.Queued?
  }

  /** A failed proving attempt reported for a job being submitted, which sends it
      back to be submitted again: charged to the wrong budget too. */
  predicate SubmissionStray(r: Record, call: Call, now: Time) {
    call.RecordFailure? && r.job.state.Submitting?
    && Step(r, call, now).Ok? && Step(r, call, now).value.job.state.Proved?
  }

  /** A failure reported for a job nobody holds. */
  predicate IdleReport(r: Record, call: Call, now: Time) {
    (call.RecordFailure? || call.RecordSubmissionFailure?) && (r.job.state.Queued? || r.job.state.Proved?)
    && Step(r, call, now).Ok?
  }

  /** How many of each a run holds. */
  datatype Strays = Strays(proving: nat, submission: nat, idle: nat)

  function Tally(so: Strays, r: Record, c: Stamped): Strays {
    Strays(so.proving + (if ProvingStray(r, c.call, c.at) then 1 else 0),
           so.submission + (if SubmissionStray(r, c.call, c.at) then 1 else 0),
           so.idle + (if IdleReport(r, c.call, c.at) then 1 else 0))
  }

  function StraysIn(r: Record, calls: seq<Stamped>): Strays {
    if calls == [] then Strays(0, 0, 0)
    else Tally(StraysIn(r, calls[..|calls| - 1]), Run(r, calls[..|calls| - 1]), calls[|calls| - 1])
  }

  /** The caller still holds the lease, and is doing the work it leased for. */
  predicate ByHolder(r: Record, call: Call) {
    match call
    case BeginProving(w) => r.job.leasedBy == Some(w) && r.job.state.BeforeProof()
    case RecordProof(w, _, _) => r.job.leasedBy == Some(w) && r.job.state.BeforeProof()
    case RecordFailure(w, _, _, _) => r.job.leasedBy == Some(w) && r.job.state.BeforeProof()
    case ConfirmSettlement(w, _) => r.job.leasedBy == Some(w) && r.job.state.Submitting?
    case RecordSubmissionFailure(w, _, _, _) => r.job.leasedBy == Some(w) && r.job.state.Submitting?
    case Release(w) => r.job.leasedBy == Some(w)
    case _ => true
  }

  ghost predicate HolderRun(r: Record, calls: seq<Stamped>) {
    calls != [] ==>
      && HolderRun(r, calls[..|calls| - 1])
      && ByHolder(Run(r, calls[..|calls| - 1]), calls[|calls| - 1].call)
  }

  lemma StepCounts(r: Record, call: Call, now: Time)
    requires Step(r, call, now).Ok?
    ensures var r' := Step(r, call, now).value;
      if call.Renew? then r'.log == r.log
      else (|r'.log| == |r.log| + 1 &&
        var e := r'.log[|r.log|];
        && ProvingReleases(r') == ProvingReleases(r)
             + (if e.hop.event == LeaseExpired && e.detail == Some(ReleasedOnShutdown) then 1 else 0)
        && SubmissionReleases(r') == SubmissionReleases(r)
             + (if e.hop.event == RetryScheduled && e.detail == Some(ReleasedOnShutdown) then 1 else 0)
        && Reorgs(r') == Reorgs(r) + (if e.hop.event == JobEvent.Reorged then 1 else 0))
  {
    var r' := Step(r, call, now).value;
    AcceptedCallsAreLogged(r, call, now);
    if !call.Renew? {
      var e := r'.log[|r.log|];
      assert r'.log == r.log + [e];
      CountAppend(r.log, e, LeaseExpired);
      CountAppend(r.log, e, RetryScheduled);
      CountAppend(r.log, e, JobEvent.Reorged);
    }
  }

  /** The limit on attempts is fixed when the job is created. */
  lemma {:induction false} LimitIsFixed(r: Record, calls: seq<Stamped>)
    ensures Run(r, calls).job.maxAttempts == r.job.maxAttempts
  {
    if calls != [] {
      LimitIsFixed(r, calls[..|calls| - 1]);
    }
  }

  ghost predicate IsNew(r: Record) {
    r == NewRecord(r.job.circuit, r.job.hash, r.job.createdAt, r.job.maxAttempts)
  }

  // --- what each run keeps -------------------------------------------------------

  ghost predicate WithinProvingBudget(r: Record, strays: nat) {
    var limit := Budget(r.job) + ProvingReleases(r) + strays;
    r.job.attempts <= limit && (r.job.state.Queued? ==> r.job.attempts < limit)
  }

  /** A job is first submitted with a proof, and from then on keeps it. */
  ghost predicate SubmittedOnlyProofs(job: Job) {
    job.submissionAttempts >= 1 ==> Proven(job)
  }

  ghost predicate WithinSubmissionBudget(r: Record, strays: nat) {
    var limit := Budget(r.job) + SubmissionReleases(r) + Reorgs(r) + strays;
    && SubmittedOnlyProofs(r.job)
    && r.job.submissionAttempts <= limit
    && (r.job.state.Proved? ==> r.job.submissionAttempts < limit)
  }

  /** How many more rows the attempt in hand can still write. */
  function Slack(state: JobState): nat {
    match state
    case Leased => 2
    case Proving => 1
    case Submitting => 1
    case _ => 0
  }

  ghost predicate LogCharged(r: Record, idle: nat) {
    |r.log| + Slack(r.job.state) <= 3 * r.job.attempts + 2 * r.job.submissionAttempts + Reorgs(r) + idle
  }

  /** Only a proving lease spends a proving attempt. */
  lemma LeasesSpendAttempts(r: Record, call: Call, now: Time)
    requires Step(r, call, now).Ok?
    ensures var r' := Step(r, call, now).value;
      && r'.job.maxAttempts == r.job.maxAttempts
      && (call.Lease? ==> r.job.state.Queued? && !r'.job.state.Queued?)
      && r'.job.attempts == r.job.attempts + if call.Lease? then 1 else 0
  {
  }

  /** How a job comes back to be leased: with budget left, by a release, or by a
      stray. */
  lemma WaysBackToTheQueue(r: Record, call: Call, now: Time)
    requires Step(r, call, now).Ok? && Step(r, call, now).value.job.state.Queued? && !r.job.state.Queued?
    ensures r.job.attempts < Budget(r.job) || call.Release? || ProvingStray(r, call, now)
  {
  }

  lemma ReleasesAreCounted(r: Record, call: Call, now: Time)
    requires Step(r, call, now).Ok?
    ensures ProvingReleases(Step(r, call, now).value)
         >= ProvingReleases(r)
            + if call.Release? && Step(r, call, now).value.job.state.Queued? then 1 else 0
  {
    StepCounts(r, call, now);
  }

  lemma StepKeepsProvingBudget(r: Record, call: Call, now: Time, strays: nat)
    requires WithinProvingBudget(r, strays) && Step(r, call, now).Ok?
    ensures WithinProvingBudget(Step(r, call, now).value, strays + if ProvingStray(r, call, now) then 1 else 0)
  {
    LeasesSpendAttempts(r, call, now);
    ReleasesAreCounted(r, call, now);
    if Step(r, call, now).value.job.state.Queued? && !r.job.state.Queued? {
      WaysBackToTheQueue(r, call, now);
    }
  }

  lemma SubmissionsSpendAttempts(r: Record, call: Call, now: Time)
    requires Step(r, call, now).Ok?
    ensures var r' := Step(r, call, now).value;
      && r'.job.maxAttempts == r.job.maxAttempts
      && (call.LeaseProved? ==> r.job.state.Proved? && !r'.job.state.Proved?)
      && r'.job.submissionAttempts == r.job.submissionAttempts + if call.LeaseProved? then 1 else 0
  {
  }

  /** How a job comes to wait for a submission: as a proof never submitted, with
      budget left, by a release or a reorg, or by a stray. */
  lemma WaysToBeProved(r: Record, call: Call, now: Time)
    requires ProofExact(r.job) && SubmittedOnlyProofs(r.job)
    requires Step(r, call, now).Ok? && Step(r, call, now).value.job.state.Proved? && !r.job.state.Proved?
    ensures r.job.submissionAttempts < Budget(r.job) || call.Release? || call.RecordReorg?
            || SubmissionStray(r, call, now)
  {
  }

  lemma ReorgsAreCounted(r: Record, call: Call, now: Time)
    requires Step(r, call, now).Ok?
    ensures SubmissionReleases(Step(r, call, now).value) + Reorgs(Step(r, call, now).value)
         >= SubmissionReleases(r) + Reorgs(r)
            + if (call.Release? || call.RecordReorg?) && Step(r, call, now).value.job.state.Proved? then 1 else 0
  {
    StepCounts(r, call, now);
  }

  lemma StepKeepsSubmittedOnlyProofs(r: Record, call: Call, now: Time)
    requires ProofExact(r.job) && SubmittedOnlyProofs(r.job) && Step(r, call, now).Ok?
    ensures SubmittedOnlyProofs(Step(r, call, now).value.job)
  {
  }

  lemma StepKeepsSubmissionBudget(r: Record, call: Call, now: Time, strays: nat)
    requires ProofExact(r.job) && WithinSubmissionBudget(r, strays) && Step(r, call, now).Ok?
    ensures WithinSubmissionBudget(Step(r, call, now).value, strays + if SubmissionStray(r, call, now) then 1 else 0)
  {
    StepKeepsSubmittedOnlyProofs(r, call, now);
    SubmissionsSpendAttempts(r, call, now);
    ReorgsAreCounted(r, call, now);
    if Step(r, call, now).value.job.state.Proved? && !r.job.state.Proved? {
      WaysToBeProved(r, call, now);
    }
  }

  lemma StepKeepsLogCharged(r: Record, call: Call, now: Time, idle: nat)
    requires LogCharged(r, idle) && Step(r, call, now).Ok?
    ensures LogCharged(Step(r, call, now).value, idle + if IdleReport(r, call, now) then 1 else 0)
  {
    StepCounts(r, call, now);
  }

  ghost predicate WithinBudgets(r: Record, so: Strays) {
    WithinProvingBudget(r, so.proving) && WithinSubmissionBudget(r, so.submission) && LogCharged(r, so.idle)
  }

  lemma SettleKeepsBudgets(r: Record, c: Stamped, so: Strays)
    requires Sound(r) && WithinBudgets(r, so)
    ensures WithinBudgets(Settle(r, c.call, c.at), Tally(so, r, c))
  {
    if Step(r, c.call, c.at).Ok? {
      StepKeepsProvingBudget(r, c.call, c.at, so.proving);
      StepKeepsSubmissionBudget(r, c.call, c.at, so.submission);
      StepKeepsLogCharged(r, c.call, c.at, so.idle);
    }
  }

  lemma {:induction false} RunsStayWithinBudgets(r: Record, calls: seq<Stamped>)
    requires IsNew(r)
    ensures WithinBudgets(Run(r, calls), StraysIn(r, calls))
  {
    if calls != [] {
      var prefix := calls[..|calls| - 1];
      RunsStayWithinBudgets(r, prefix);
      RunsStaySound(r.job.circuit, r.job.hash, r.job.createdAt, r.job.maxAttempts, prefix);
      SettleKeepsBudgets(Run(r, prefix), calls[|calls| - 1], StraysIn(r, prefix));
    }
  }

  /** MAIN. In every run, whoever calls, a job is leased for proving at most
      `max_attempts` times, plus once for each lease handed back unfinished and
      once for each submission failure reported while it was being proved; and it
      is leased for submission at most `max_attempts` times, plus once for each
      release, each reorg, and each proving failure reported while it was being
      submitted. */
  lemma AttemptsAreBounded(r: Record, calls: seq<Stamped>)
    requires IsNew(r)
    ensures var r', so := Run(r, calls), StraysIn(r, calls);
      && r'.job.attempts <= Budget(r.job) + ProvingReleases(r') + so.proving
      && r'.job.submissionAttempts <= Budget(r.job) + SubmissionReleases(r') + Reorgs(r') + so.submission
  {
    RunsStayWithinBudgets(r, calls);
    LimitIsFixed(r, calls);
  }

  /** Work a job may still cost before every remaining path ends in a settled
      or failed job. */
  function Remaining(r: Record, so: Strays): int {
    3 * (Budget(r.job) + ProvingReleases(r) + so.proving - r.job.attempts)
    + 2 * (Budget(r.job) + SubmissionReleases(r) + Reorgs(r) + so.submission - r.job.submissionAttempts)
    + Slack(r.job.state)
  }

  /** What a whole history can come to. */
  function Allowance(r: Record, limit: int, so: Strays): int {
    5 * limit + 3 * ProvingReleases(r) + 2 * SubmissionReleases(r) + 3 * Reorgs(r)
    + 3 * so.proving + 2 * so.submission + so.idle
  }

  /** MAIN. The whole history of a job, and the work still left in it, are bounded
      in every run by its budget, its releases, the reorgs it met and its strays:
      no job cycles for ever without one of these. */
  lemma HistoriesAreBounded(r: Record, calls: seq<Stamped>)
    requires IsNew(r)
    ensures var r', so := Run(r, calls), StraysIn(r, calls);
      0 <= Remaining(r', so) && |r'.log| + Remaining(r', so) <= Allowance(r', Budget(r.job), so)
  {
    RunsStayWithinBudgets(r, calls);
    LimitIsFixed(r, calls);
  }

  /** MAIN. The measure: every accepted call strictly lowers the remaining work,
      save renewals, releases, reorgs and strays. */
  lemma CallsMakeProgress(r: Record, call: Call, now: Time, so: Strays)
    requires Step(r, call, now).Ok?
    requires !call.Renew? && !call.Release? && !call.RecordReorg?
    requires !ProvingStray(r, call, now) && !SubmissionStray(r, call, now) && !IdleReport(r, call, now)
    ensures Remaining(Step(r, call, now).value, so) < Remaining(r, so)
  {
    StepCounts(r, call, now);
  }

  // --- holders only ----------------------------------------------------------------

  lemma {:induction false} HoldersDoNotStray(r: Record, calls: seq<Stamped>)
    requires IsNew(r) && HolderRun(r, calls)
    ensures StraysIn(r, calls) == Strays(0, 0, 0)
  {
    if calls != [] {
      var prefix := calls[..|calls| - 1];
      HoldersDoNotStray(r, prefix);
      RunsStaySound(r.job.circuit, r.job.hash, r.job.createdAt, r.job.maxAttempts, prefix);
      assert LeaseExact(Run(r, prefix).job);
    }
  }

  /** With recording calls only from holders, releases and reorgs alone remain. */
  lemma HolderRunsAreBounded(r: Record, calls: seq<Stamped>)
    requires IsNew(r) && HolderRun(r, calls)
    ensures var r' := Run(r, calls);
      && r'.job.attempts <= Budget(r.job) + ProvingReleases(r')
      && r'.job.submissionAttempts <= Budget(r.job) + SubmissionReleases(r') + Reorgs(r')
      && |r'.log| <= 5 * Budget(r.job) + 3 * ProvingReleases(r') + 2 * SubmissionReleases(r') + 3 * Reorgs(r')
  {
    HoldersDoNotStray(r, calls);
    AttemptsAreBounded(r, calls);
    HistoriesAreBounded(r, calls);
  }

  // --- strays do happen ------------------------------------------------------------

  lemma RunGrows(r: Record, calls: seq<Stamped>, c: Stamped)
    ensures Run(r, []) == r && StraysIn(r, []) == Strays(0, 0, 0)
    ensures Run(r, calls + [c]) == Settle(Run(r, calls), c.call, c.at)
    ensures StraysIn(r, calls + [c]) == Tally(StraysIn(r, calls), Run(r, calls), c)
  {
    assert (calls + [c])[..|calls|] == calls;
  }

  /** What the examples below say of a job's rows. */
  ghost predicate Stands(r: Record, state: JobState, attempts: int, maxAttempts: int, rows: nat) {
    && r.job.state == state && r.job.attempts == attempts && r.job.maxAttempts == maxAttempts
    && r.job.submissionAttempts == 0 && |r.log| == rows
    && ProvingReleases(r) == 0 && SubmissionReleases(r) == 0 && Reorgs(r) == 0
  }

  const TAKEN := Stamped(Lease("w", 1), 0)
  const REAPED := Stamped(Call.Reap("reaper"), 2)
  const LATE := Stamped(RecordFailure("w", Transient, "", None), 2)
  const MISDIRECTED := Stamped(RecordSubmissionFailure("x", Transient, "", None), 0)

  lemma WorkersTakeJobs(r: Record, attempts: nat, limit: int, rows: nat)
    requires Stands(r, Queued, attempts, limit, rows) && r.job.retryAfter.None?
    ensures var r' := Settle(r, TAKEN.call, TAKEN.at);
      && Stands(r', JobState.Leased, attempts + 1, limit, rows + 1) && r'.job.retryAfter.None?
      && r'.job.leaseExpiresAt == Some(1)
    ensures Tally(Strays(0, 0, 0), r, TAKEN) == Strays(0, 0, 0)
    ensures Tally(Strays(1, 0, 0), r, TAKEN) == Strays(1, 0, 0)
  {
    StepCounts(r, TAKEN.call, TAKEN.at);
  }

  lemma MisdirectedReportsGrantALease(r: Record, attempts: nat, limit: int, rows: nat)
    requires Stands(r, JobState.Leased, attempts, limit, rows)
    ensures var r' := Settle(r, MISDIRECTED.call, MISDIRECTED.at);
      Stands(r', Queued, attempts, limit, rows + 1) && r'.job.retryAfter.None?
    ensures Tally(Strays(0, 0, 0), r, MISDIRECTED) == Strays(1, 0, 0)
  {
    StepCounts(r, MISDIRECTED.call, MISDIRECTED.at);
  }

  /** Misdirected reports must be counted: one grants a lease more than the
      budget and the releases allow. */
  lemma StraysEscapeTheBudget(r: Record)
    requires IsNew(r) && r.job.maxAttempts == 1
    ensures var r' := Run(r, [TAKEN, MISDIRECTED, TAKEN]);
      && StraysIn(r, [TAKEN, MISDIRECTED, TAKEN]) == Strays(1, 0, 0)
      && r'.job.attempts == 2 == Budget(r.job) + ProvingReleases(r') + 1
  {
    RunGrows(r, [], TAKEN);
    RunGrows(r, [TAKEN], MISDIRECTED);
    RunGrows(r, [TAKEN, MISDIRECTED], TAKEN);
    assert [] + [TAKEN] == [TAKEN] && [TAKEN] + [MISDIRECTED] == [TAKEN, MISDIRECTED];
    assert [TAKEN, MISDIRECTED] + [TAKEN] == [TAKEN, MISDIRECTED, TAKEN];
    WorkersTakeJobs(r, 0, 1, 0);
    MisdirectedReportsGrantALease(Run(r, [TAKEN]), 1, 1, 1);
    WorkersTakeJobs(Run(r, [TAKEN, MISDIRECTED]), 1, 1, 2);
  }

  const BEGUN := Stamped(BeginProving("w"), 0)
  const PROOF := Stamped(RecordProof("w", [], []), 0)
  const SENT := Stamped(LeaseProved("x", 1), 0)
  const REFUSED := Stamped(RecordSubmissionFailure("x", Transient, "", None), 0)
  const BELATED := Stamped(RecordFailure("w", Transient, "", None), 0)

  /** A job with two attempts, proved at the first. */
  ghost predicate Submits(r: Record, state: JobState, submissions: int) {
    && r.job.state == state && r.job.submissionAttempts == submissions && r.job.retryAfter.None?
    && r.job.attempts == 1 && r.job.maxAttempts == 2
    && ProvingReleases(r) == 0 && SubmissionReleases(r) == 0 && Reorgs(r) == 0
  }

  /** `calls` lead from a new job with two attempts to this, with these strays. */
  ghost predicate Leads(r: Record, calls: seq<Stamped>, state: JobState, submissions: int, strays: nat) {
    Submits(Run(r, calls), state, submissions) && StraysIn(r, calls) == Strays(0, strays, 0)
  }

  lemma WorkBegins(r: Record)
    requires Stands(r, JobState.Leased, 1, 2, 1) && r.job.retryAfter.None?
    ensures var r' := Settle(r, BEGUN.call, BEGUN.at);
      Stands(r', Proving, 1, 2, 2) && r'.job.retryAfter.None?
    ensures Tally(Strays(0, 0, 0), r, BEGUN) == Strays(0, 0, 0)
  {
    StepCounts(r, BEGUN.call, 0);
  }

  lemma TheProofArrives(r: Record)
    requires Stands(r, Proving, 1, 2, 2) && r.job.retryAfter.None?
    ensures Submits(Settle(r, PROOF.call, PROOF.at), Proved, 0)
    ensures Tally(Strays(0, 0, 0), r, PROOF) == Strays(0, 0, 0)
  {
    StepCounts(r, PROOF.call, 0);
  }

  lemma TheFirstAttemptProves(r: Record)
    requires IsNew(r) && r.job.maxAttempts == 2
    ensures Leads(r, [TAKEN, BEGUN, PROOF], Proved, 0, 0)
  {
    RunGrows(r, [], TAKEN);
    RunGrows(r, [TAKEN], BEGUN);
    RunGrows(r, [TAKEN, BEGUN], PROOF);
    assert [] + [TAKEN] == [TAKEN] && [TAKEN] + [BEGUN] == [TAKEN, BEGUN];
    assert [TAKEN, BEGUN] + [PROOF] == [TAKEN, BEGUN, PROOF];
    WorkersTakeJobs(r, 0, 2, 0);
    WorkBegins(Run(r, [TAKEN]));
    TheProofArrives(Run(r, [TAKEN, BEGUN]));
  }

  lemma SubmissionsStart(r: Record, calls: seq<Stamped>, submissions: nat, strays: nat)
    requires Leads(r, calls, Proved, submissions, strays)
    ensures Leads(r, calls + [SENT], Submitting, submissions + 1, strays)
  {
    RunGrows(r, calls, SENT);
    StepCounts(Run(r, calls), SENT.call, 0);
  }

  lemma RefusalsReturnIt(r: Record, calls: seq<Stamped>, strays: nat)
    requires Leads(r, calls, Submitting, 1, strays)
    ensures Leads(r, calls + [REFUSED], Proved, 1, strays)
  {
    RunGrows(r, calls, REFUSED);
    StepCounts(Run(r, calls), REFUSED.call, 0);
  }

  lemma BelatedReportsGrantASubmission(r: Record, calls: seq<Stamped>, submissions: nat, strays: nat)
    requires Leads(r, calls, Submitting, submissions, strays)
    ensures Leads(r, calls + [BELATED], Proved, submissions, strays + 1)
  {
    RunGrows(r, calls, BELATED);
    StepCounts(Run(r, calls), BELATED.call, 0);
  }

  /** The other way round too: one failure a worker reports of a proof it already
      delivered grants a submission beyond budget, releases and reorgs. */
  lemma BelatedReportsEscapeTheBudget(r: Record) returns (calls: seq<Stamped>)
    requires IsNew(r) && r.job.maxAttempts == 2
    ensures var r' := Run(r, calls);
      && StraysIn(r, calls) == Strays(0, 1, 0)
      && r'.job.submissionAttempts == 3 == Budget(r.job) + SubmissionReleases(r') + Reorgs(r') + 1
  {
    TheFirstAttemptProves(r);
    calls := [TAKEN, BEGUN, PROOF];
    SubmissionsStart(r, calls, 0, 0);
    RefusalsReturnIt(r, calls + [SENT], 0);
    SubmissionsStart(r, calls + [SENT] + [REFUSED], 1, 0);
    BelatedReportsGrantASubmission(r, calls + [SENT] + [REFUSED] + [SENT], 2, 0);
    SubmissionsStart(r, calls + [SENT] + [REFUSED] + [SENT] + [BELATED], 2, 1);
    calls := calls + [SENT] + [REFUSED] + [SENT] + [BELATED] + [SENT];
  }

  /** A worker's lease runs out and is reaped with budget left; then the worker,
      still going, reports one transient failure `n` times. */
  function LateWorker(n: nat): seq<Stamped> {
    if n == 0 then [TAKEN, REAPED] else LateWorker(n - 1) + [LATE]
  }

  lemma ReapingLeavesItQueued(r: Record, limit: int)
    requires Stands(r, JobState.Leased, 1, limit, 1) && limit >= 2 && r.job.leaseExpiresAt == Some(1)
    ensures Stands(Settle(r, REAPED.call, REAPED.at), Queued, 1, limit, 2)
    ensures Tally(Strays(0, 0, 0), r, REAPED) == Strays(0, 0, 0)
  {
    StepCounts(r, REAPED.call, REAPED.at);
  }

  lemma LateReportsAreLogged(r: Record, limit: int, rows: nat, idle: nat)
    requires Stands(r, Queued, 1, limit, rows) && limit >= 2
    ensures Stands(Settle(r, LATE.call, LATE.at), Queued, 1, limit, rows + 1)
    ensures Tally(Strays(0, 0, idle), r, LATE) == Strays(0, 0, idle + 1)
  {
    StepCounts(r, LATE.call, LATE.at);
  }

  /** So must idle reports: each is logged, without end, with no release and no
      reorg, by a worker that did hold the lease. */
  lemma {:induction false} LateReportsGrowTheLog(r: Record, n: nat)
    requires IsNew(r) && r.job.maxAttempts >= 2
    ensures Stands(Run(r, LateWorker(n)), Queued, 1, r.job.maxAttempts, 2 + n)
    ensures StraysIn(r, LateWorker(n)) == Strays(0, 0, n)
  {
    if n == 0 {
      RunGrows(r, [], TAKEN);
      RunGrows(r, [TAKEN], REAPED);
      assert [] + [TAKEN] == [TAKEN] && [TAKEN] + [REAPED] == [TAKEN, REAPED];
      WorkersTakeJobs(r, 0, r.job.maxAttempts, 0);
      ReapingLeavesItQueued(Run(r, [TAKEN]), r.job.maxAttempts);
    } else {
      LateReportsGrowTheLog(r, n - 1);
      RunGrows(r, LateWorker(n - 1), LATE);
      LateReportsAreLogged(Run(r, LateWorker(n - 1)), r.job.maxAttempts, n + 1, n - 1);
    }
  }
}
