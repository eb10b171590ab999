/** The job state machine: a pure lookup over (state, event), and the retry
    policy that chooses the event for a failed attempt. */
module JobMachine {
  import opened Basics

  datatype JobState = Queued | Leased | Proving | Proved | Submitting | Settled | Failed | Rejected {
    predicate IsTerminal() {
      Failed? || Rejected?
    }

    predicate IsInFlight() {
      Leased? || Proving? || Submitting?
    }

    /** A proof exists, and the job is still worth something on chain. */
    predicate HoldsProof() {
      Proved? || Submitting? || Settled?
    }

    /** Nobody has produced a proof yet. */
    predicate BeforeProof() {
      Queued? || Leased? || Proving?
    }
  }

  datatype JobEvent =
    | Leased
    | ProvingStarted
    | ProofSucceeded
    | SubmissionStarted
    | SettlementConfirmed
    | LeaseExpired
    | RetryScheduled
    | AttemptsExhausted
    | PermanentlyFailed
    | ValidationRejected
    | Reorged

  datatype FailureKind = Transient | Permanent

  datatype IllegalTransition = IllegalTransition(state: JobState, event: JobEvent)

  function Transition(state: JobState, event: JobEvent): (r: Result<JobState, IllegalTransition>) {
    var illegal := Err(IllegalTransition(state, event));
    match event
    case Leased => if state.Queued? then Ok(JobState.Leased) else illegal
    case ProvingStarted => if state.Leased? then Ok(Proving) else illegal
    case ProofSucceeded => if state.Proving? then Ok(Proved) else illegal
    case SubmissionStarted => if state.Proved? then Ok(Submitting) else illegal
    case SettlementConfirmed => if state.Submitting? then Ok(Settled) else illegal
    case LeaseExpired => if state.Leased? || state.Proving? then Ok(Queued) else illegal
    case RetryScheduled =>
      if state.BeforeProof() then Ok(Queued)
      else if state.Proved? || state.Submitting? then Ok(Proved)
      else illegal
    case AttemptsExhausted | PermanentlyFailed =>
      if state.BeforeProof() || state.Proved? || state.Submitting? then Ok(Failed) else illegal
    case ValidationRejected => if state.Queued? then Ok(Rejected) else illegal
    case Reorged => if state.Settled? then Ok(Proved) else illegal
  }

  /** `attempts` counts the attempt that just failed. */
  function ClassifyFailure(kind: FailureKind, attempts: int, maxAttempts: int): JobEvent {
    match kind
    case Permanent => PermanentlyFailed
    case Transient => if attempts >= maxAttempts then AttemptsExhausted else RetryScheduled
  }

  /** One row of `job_transitions`, reduced to what the state machine reads. */
  datatype Hop = Hop(from: JobState, event: JobEvent, to: JobState)

  /** Replays events from a state; `Err` as soon as one is illegal. */
  function Replay(start: JobState, events: seq<JobEvent>): Result<JobState, IllegalTransition> {
    if events == [] then Ok(start)
    else
      match Replay(start, events[..|events| - 1])
      case Ok(s) => Transition(s, events[|events| - 1])
      case Err(e) => Err(e)
  }

  /** Terminal states absorb: once reached, every further replay is refused. */
  lemma {:induction false} TerminalStatesAbsorb(start: JobState, events: seq<JobEvent>)
    requires start.IsTerminal()
    ensures Replay(start, events).Ok? <==> events == []
  {
    if events != [] {
      TerminalStatesAbsorb(start, events[..|events| - 1]);
    }
  }

  /** A proof was produced at some point. */
  predicate PastProof(state: JobState) {
    state.HoldsProof() || state.Failed?
  }

  lemma PastProofStays(state: JobState, event: JobEvent)
    requires PastProof(state) && Transition(state, event).Ok?
    ensures PastProof(Transition(state, event).value) && event != ProofSucceeded
  {
  }

  /** After a proof, a job stays among proved, submitting, settled and failed,
      and no second proof is ever accepted. */
  lemma {:induction false} NothingUndoesAProof(start: JobState, events: seq<JobEvent>)
    requires PastProof(start) && Replay(start, events).Ok?
    ensures PastProof(Replay(start, events).value)
    ensures forall i :: 0 <= i < |events| ==> events[i] != ProofSucceeded
  {
    if events != [] {
      var prefix, last := events[..|events| - 1], events[|events| - 1];
      NothingUndoesAProof(start, prefix);
      PastProofStays(Replay(start, prefix).value, last);
      forall i | 0 <= i < |events|
        ensures events[i] != ProofSucceeded
      {
        if i < |prefix| {
          assert events[i] == prefix[i];
        }
      }
    }
  }

  /** The legal moves as a table: every one of them, and no other. */
  const LEGAL: set<(JobState, JobEvent, JobState)> := {
    (Queued, JobEvent.Leased, JobState.Leased),
    (JobState.Leased, ProvingStarted, Proving),
    (Proving, ProofSucceeded, Proved),
    (Proved, SubmissionStarted, Submitting),
    (Submitting, SettlementConfirmed, Settled),
    (JobState.Leased, LeaseExpired, Queued),
    (Proving, LeaseExpired, Queued),
    (Queued, RetryScheduled, Queued),
    (JobState.Leased, RetryScheduled, Queued),
    (Proving, RetryScheduled, Queued),
    (Proved, RetryScheduled, Proved),
    (Submitting, RetryScheduled, Proved),
    (Queued, AttemptsExhausted, Failed),
    (JobState.Leased, AttemptsExhausted, Failed),
    (Proving, AttemptsExhausted, Failed),
    (Proved, AttemptsExhausted, Failed),
    (Submitting, AttemptsExhausted, Failed),
    (Queued, PermanentlyFailed, Failed),
    (JobState.Leased, PermanentlyFailed, Failed),
    (Proving, PermanentlyFailed, Failed),
    (Proved, PermanentlyFailed, Failed),
    (Submitting, PermanentlyFailed, Failed),
    (Queued, ValidationRejected, Rejected),
    (Settled, JobEvent.Reorged, Proved)
  }

  lemma MovesAreTheTable(state: JobState, event: JobEvent, next: JobState)
    ensures Transition(state, event) == Ok(next) <==> (state, event, next) in LEGAL
  {
  }

  /** A transient failure is retried for exactly as long as the budget lasts. */
  lemma RetriesLastTheBudget(kind: FailureKind, attempts: int, maxAttempts: int)
    ensures ClassifyFailure(kind, attempts, maxAttempts) == RetryScheduled
       <==> kind.Transient? && attempts < maxAttempts
    ensures ClassifyFailure(kind, attempts, maxAttempts) == PermanentlyFailed <==> kind.Permanent?
  {
  }
}
