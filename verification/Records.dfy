/** The rows one job owns (its `jobs` row, its `job_attempts` rows and its
    `job_transitions` rows) and what each store operation does to them.

    Every operation is one short transaction, so it is one function from the
    rows before to the rows after. `now` is the database clock. An `Err` leaves
    every row as it was: the transaction rolls back. */
module Records {
  import opened Basics
  import opened JobMachine

  type Actor = string
  type Time = int
  type Bytes = seq<Byte>

  /** The texts written to `last_error` and `job_transitions.detail`. */
  datatype Detail =
    | LeaseRanOut
    | LeaseRanOutExhausted
    | ReleasedOnShutdown
    | RemovedByReorg
    | Reported(text: string)

  datatype Job = Job(
    circuit: string,
    hash: Bytes,
    createdAt: Time,
    maxAttempts: int,
    state: JobState,
    attempts: int,
    submissionAttempts: int,
    lastError: Option<Detail>,
    leasedBy: Option<Actor>,
    leaseExpiresAt: Option<Time>,
    proof: Option<Bytes>,
    publicInputs: Option<Bytes>,
    retryAfter: Option<Time>)

  datatype AttemptOutcome = Succeeded | GaveUp | Abandoned

  datatype Attempt = Attempt(worker: Actor, outcome: Option<AttemptOutcome>, error: Option<Detail>)

  datatype Entry = Entry(hop: Hop, actor: Actor, detail: Option<Detail>)

  datatype Record = Record(job: Job, tries: map<int, Attempt>, log: seq<Entry>)

  datatype StoreError =
    | JobNotFound
    | Illegal(why: IllegalTransition)
    | NotSelected            // the statement's WHERE clause did not match the row
    | CircuitNotFound
    | CircuitDisabled
    | Conflict               // a unique index refused the insert

  /** A store operation as seen by the one job it addresses. */
  datatype Call =
    | Lease(worker: Actor, ttl: Time)
    | LeaseProved(relayer: Actor, ttl: Time)
    | Renew(holder: Actor, ttl: Time)
    | Reap(reaper: Actor)
    | BeginProving(worker: Actor)
    | RecordProof(worker: Actor, proof: Bytes, publicInputs: Bytes)
    | RecordFailure(worker: Actor, kind: FailureKind, error: string, retryIn: Option<Time>)
    | Release(holder: Actor)
    | ConfirmSettlement(relayer: Actor, note: Option<string>)
    | RecordReorg(relayer: Actor)
    | RecordSubmissionFailure(relayer: Actor, kind: FailureKind, error: string, retryIn: Option<Time>)

  function NewRecord(circuit: string, hash: Bytes, createdAt: Time, maxAttempts: int): Record {
    Record(
      Job(circuit, hash, createdAt, maxAttempts, Queued, 0, 0, None, None, None, None, None, None),
      map[], [])
  }

  /** `max_attempts.max(1)`. */
  function Budget(job: Job): int {
    if job.maxAttempts < 1 then 1 else job.maxAttempts
  }

  predicate Due(job: Job, now: Time) {
    job.retryAfter.None? || job.retryAfter.value <= now
  }

  function Note(text: Option<string>): Option<Detail> {
    match text
    case None => None
    case Some(t) => Some(Reported(t))
  }

  /** Append the audit row for a move from the current state. */
  function Logged(r: Record, event: JobEvent, next: JobState, actor: Actor, detail: Option<Detail>): seq<Entry> {
    r.log + [Entry(Hop(r.job.state, event, next), actor, detail)]
  }

  /** `apply_event_in_tx`: the lease survives only into an in-flight state. */
  function ApplyEvent(r: Record, event: JobEvent, actor: Actor, detail: Option<Detail>): Result<Record, StoreError> {
    match Transition(r.job.state, event)
    case Err(e) => Err(Illegal(e))
    case Ok(next) =>
      var keepsLease := next.IsInFlight();
      Ok(Record(
           r.job.(state := next,
                  leasedBy := if keepsLease then r.job.leasedBy else None,
                  leaseExpiresAt := if keepsLease then r.job.leaseExpiresAt else None,
                  lastError := if detail.Some? then detail else r.job.lastError),
           r.tries,
           Logged(r, event, next, actor, detail)))
  }

  predicate Expired(job: Job, now: Time) {
    job.state.IsInFlight() && job.leaseExpiresAt.Some? && job.leaseExpiresAt.value < now
  }

  /** The event the reaper records: an expiry spends the budget of whatever the
      dead process was doing, and a submission goes back to `proved`. */
  function ReapEvent(job: Job): JobEvent {
    var spent := if job.state.Submitting? then job.submissionAttempts else job.attempts;
    var event := ClassifyFailure(Transient, spent, Budget(job));
    if event == RetryScheduled && !job.state.Submitting? then LeaseExpired else event
  }

  function AbandonOpen(tries: map<int, Attempt>): map<int, Attempt> {
    map n | n in tries ::
      if tries[n].outcome.None? then tries[n].(outcome := Some(Abandoned)) else tries[n]
  }

  function CloseAttempt(
    tries: map<int, Attempt>, n: int, outcome: AttemptOutcome, error: Option<Detail>): map<int, Attempt>
  {
    if n in tries
    then tries[n := tries[n].(outcome := Some(outcome), error := if error.Some? then error else tries[n].error)]
    else tries
  }

  /** The schedule a failure leaves behind: a delay only for a job going back
      on the given queue. */
  function RetryAt(next: JobState, queue: JobState, retryIn: Option<Time>, now: Time): Option<Time> {
    if next == queue && retryIn.Some? then Some(now + retryIn.value) else None
  }

  function Step(r: Record, call: Call, now: Time): Result<Record, StoreError> {
    var job := r.job;
    match call
    case Lease(worker, ttl) =>
      if !job.state.Queued? || !Due(job, now) then Err(NotSelected)
      else
        var n := job.attempts + 1;
        Ok(Record(
             job.(state := JobState.Leased, leasedBy := Some(worker), leaseExpiresAt := Some(now + ttl),
                  attempts := n, retryAfter := None),
             if n in r.tries then r.tries else r.tries[n := Attempt(worker, None, None)],
             Logged(r, JobEvent.Leased, JobState.Leased, worker, None)))
    case LeaseProved(relayer, ttl) =>
      if !job.state.Proved? || !Due(job, now) then Err(NotSelected)
      else
        Ok(Record(
             job.(state := Submitting, leasedBy := Some(relayer), leaseExpiresAt := Some(now + ttl),
                  submissionAttempts := job.submissionAttempts + 1, retryAfter := None),
             r.tries,
             Logged(r, SubmissionStarted, Submitting, relayer, None)))
    case Renew(holder, ttl) =>
      if job.leasedBy != Some(holder) || !job.state.IsInFlight() then Err(NotSelected)
      else Ok(r.(job := job.(leaseExpiresAt := Some(now + ttl))))
    case Reap(reaper) =>
      if !Expired(job, now) then Err(NotSelected)
      else
        var event := ReapEvent(job);
        (match Transition(job.state, event)
         case Err(e) => Err(Illegal(e))
         case Ok(next) =>
           var detail := if next.Failed? then LeaseRanOutExhausted else LeaseRanOut;
           Ok(Record(
                job.(state := next, leasedBy := None, leaseExpiresAt := None, lastError := Some(detail)),
                AbandonOpen(r.tries),
                Logged(r, event, next, reaper, Some(detail)))))
    case BeginProving(worker) => ApplyEvent(r, ProvingStarted, worker, None)
    case RecordProof(worker, proof, publicInputs) =>
      (match Transition(job.state, ProofSucceeded)
       case Err(e) => Err(Illegal(e))
       case Ok(next) =>
         Ok(Record(
              job.(state := next, proof := Some(proof), publicInputs := Some(publicInputs),
                   leasedBy := None, leaseExpiresAt := None),
              CloseAttempt(r.tries, job.attempts, Succeeded, None),
              Logged(r, ProofSucceeded, next, worker, None))))
    case RecordFailure(worker, kind, error, retryIn) =>
      var event := ClassifyFailure(kind, job.attempts, Budget(job));
      (match Transition(job.state, event)
       case Err(e) => Err(Illegal(e))
       case Ok(next) =>
         Ok(Record(
              job.(state := next, lastError := Some(Reported(error)), leasedBy := None, leaseExpiresAt := None,
                   retryAfter := RetryAt(next, Queued, retryIn, now)),
              CloseAttempt(r.tries, job.attempts, GaveUp, Some(Reported(error))),
              Logged(r, event, next, worker, Some(Reported(error))))))
    case Release(holder) =>
      ApplyEvent(r, if job.state.Submitting? then RetryScheduled else LeaseExpired, holder, Some(ReleasedOnShutdown))
    case ConfirmSettlement(relayer, note) => ApplyEvent(r, SettlementConfirmed, relayer, Note(note))
    case RecordReorg(relayer) => ApplyEvent(r, Reorged, relayer, Some(RemovedByReorg))
    case RecordSubmissionFailure(relayer, kind, error, retryIn) =>
      var event := ClassifyFailure(kind, job.submissionAttempts, Budget(job));
      (match Transition(job.state, event)
       case Err(e) => Err(Illegal(e))
       case Ok(next) =>
         Ok(Record(
              job.(state := next, lastError := Some(Reported(error)), leasedBy := None, leaseExpiresAt := None,
                   retryAfter := RetryAt(next, Proved, retryIn, now)),
              r.tries,
              Logged(r, event, next, relayer, Some(Reported(error))))))
  }

  /** What is left of the rows when a call is refused: the same rows. */
  function Settle(r: Record, call: Call, now: Time): Record {
    match Step(r, call, now)
    case Ok(r') => r'
    case Err(_) => r
  }

  datatype Stamped = Stamped(call: Call, at: Time)

  /** Any number of callers, in any order, at any times. */
  function Run(r: Record, calls: seq<Stamped>): Record {
    if calls == [] then r
    else
      var last := calls[|calls| - 1];
      Settle(Run(r, calls[..|calls| - 1]), last.call, last.at)
  }
}
