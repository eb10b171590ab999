/** The store: four tables updated in place, one method per transaction. Each
    method is proved to be the corresponding transaction of `Database`, about
    which the run-level theorems are stated. */
module StoreTables {
  import opened Basics
  import opened JobMachine
  import opened Records
  import opened History
  import opened Database

  /** What a caller of a one-job operation is told. */
  function Reply(db: DB, id: JobId, call: Call): Result<Job, StoreError> {
    match OnJob(db, id, call)
    case Err(e) => Err(e)
    case Ok(db') => Ok(db'.records[id].job)
  }

  /** A row this lease query may pick: waiting in its queue, due, and not locked
      by a concurrent transaction. */
  predicate Candidate(db: DB, id: JobId, queue: JobState, locked: set<JobId>) {
    id in db.records && id !in locked && db.records[id].job.state == queue && Due(db.records[id].job, db.clock)
  }

  ghost predicate Oldest(db: DB, id: JobId, queue: JobState, locked: set<JobId>) {
    && Candidate(db, id, queue, locked)
    && forall other :: Candidate(db, other, queue, locked) ==>
         db.records[id].job.createdAt <= db.records[other].job.createdAt
  }

  lemma ReapNone(db: DB, reaper: Actor)
    ensures ReapRows(db, {}, reaper) == db
  {
    assert ReapRows(db, {}, reaper).records == db.records;
  }

  /** A row no pass has reached yet is as it was. */
  lemma NotReached(db: DB, done: set<JobId>, id: JobId, reaper: Actor)
    requires id in db.records && id !in done
    ensures id in ReapRows(db, done, reaper).records && ReapRows(db, done, reaper).records[id] == db.records[id]
  {
  }

  lemma ReapOneMore(db: DB, done: set<JobId>, id: JobId, reaper: Actor)
    requires id in db.records && id !in done
    ensures var before := ReapRows(db, done, reaper);
      && id in before.records
      && before.(records := before.records[id := Settle(before.records[id], Call.Reap(reaper), db.clock)])
         == ReapRows(db, done + {id}, reaper)
  {
    var before := ReapRows(db, done, reaper);
    assert before.records[id := Settle(before.records[id], Call.Reap(reaper), db.clock)]
        == ReapRows(db, done + {id}, reaper).records;
  }

  predicate IsExpired(db: DB, id: JobId) {
    id in db.records && Expired(db.records[id].job, db.clock)
  }

  /** Passing over a row whose lease has not expired changes nothing. */
  lemma ReapOnlyExpired(db: DB, expired: set<JobId>, visible: set<JobId>, reaper: Actor)
    requires expired <= visible
    requires forall id :: id in db.records && id in visible && id !in expired ==> !Expired(db.records[id].job, db.clock)
    ensures ReapRows(db, expired, reaper) == ReapRows(db, visible, reaper)
  {
    assert ReapRows(db, expired, reaper).records == ReapRows(db, visible, reaper).records;
  }

  /** What the two halves of `record_reorg` come to. */
  lemma ReorgsCommit(db: DB, id: JobId, relayer: Actor, txHash: Bytes)
    requires id in db.records
    ensures var op := Unwound(id, relayer, txHash);
      match ApplyEvent(db.records[id], JobEvent.Reorged, relayer, Some(RemovedByReorg))
      case Err(e) => Apply(db, op) == db && Reply(db, id, Call.RecordReorg(relayer)) == Err(e)
      case Ok(r) =>
        && Apply(db, op) == db.(records := db.records[id := r],
                                settlements := StampReorg(db.settlements, id, txHash, db.clock))
        && Reply(db, id, Call.RecordReorg(relayer)) == Ok(r.job)
  {
  }

  class Store {
    var jobs: map<JobId, Job>
    var attempts: map<JobId, map<int, Attempt>>
    var transitions: map<JobId, seq<Entry>>
    var settlements: seq<Settlement>
    var circuits: map<string, bool>
    var clock: Time

    /** Foreign keys: the per-job tables have an entry for exactly the jobs. */
    ghost predicate Valid()
      reads this
    {
      attempts.Keys == jobs.Keys && transitions.Keys == jobs.Keys
    }

    ghost function Db(): DB
      reads this
      requires Valid()
    {
      DB(map id | id in jobs :: Record(jobs[id], attempts[id], transitions[id]), settlements, circuits, clock)
    }

    constructor ()
      ensures Valid() && Db() == EMPTY
    {
      jobs, attempts, transitions := map[], map[], map[];
      settlements, circuits, clock := [], map[], 0;
    }

    /** Append one row to `job_transitions`. */
    method Audit(id: JobId, hop: Hop, actor: Actor, detail: Option<Detail>)
      requires id in transitions
      modifies this`transitions
      ensures transitions == old(transitions)[id := old(transitions)[id] + [Entry(hop, actor, detail)]]
    {
      transitions := transitions[id := transitions[id] + [Entry(hop, actor, detail)]];
    }

    /** The writes of one transaction on one job: its row, its attempt rows, and
        a row of the audit log. */
    method Write(id: JobId, job: Job, tries: map<int, Attempt>, hop: Hop, actor: Actor, detail: Option<Detail>)
      requires Valid() && id in jobs
      modifies this`jobs, this`attempts, this`transitions
      ensures Valid()
      ensures Db() == old(Db()).(records := old(Db()).records[id :=
                Record(job, tries, old(Db()).records[id].log + [Entry(hop, actor, detail)])])
    {
      jobs := jobs[id := job];
      attempts := attempts[id := tries];
      Audit(id, hop, actor, detail);
      assert Db().records == old(Db()).records[id := Record(job, tries, transitions[id])];
    }

    /** `upsert_circuit`. */
    method UpsertCircuit(circuit: string, enabled: bool)
      requires Valid()
      modifies this`circuits
      ensures Valid() && Db() == Apply(old(Db()), Op.UpsertCircuit(circuit, enabled))
    {
      circuits := circuits[circuit := enabled];
    }

    method Enqueue(newId: JobId, circuit: string, hash: Bytes, maxAttempts: int)
      returns (r: Result<(JobId, bool), StoreError>)
      requires Valid()
      requires newId !in jobs
      modifies this
      ensures Valid()
      ensures circuit !in old(circuits) ==> r == Err(CircuitNotFound) && Db() == old(Db())
      ensures circuit in old(circuits) && !old(circuits)[circuit] ==> r == Err(CircuitDisabled) && Db() == old(Db())
      ensures circuit in old(circuits) && old(circuits)[circuit] ==>
        && Db() == Apply(old(Db()), Op.InsertJob(newId, circuit, hash, maxAttempts))
        && r.Ok? && r.value.0 in Db().records && Db().records[r.value.0].job.hash == hash
        && (r.value.1 <==> !HashTaken(old(Db()), hash))
        && (!r.value.1 ==> Db() == old(Db()))
        && (r.value.1 ==> r.value.0 == newId)
    {
      if circuit !in circuits {
        return Err(CircuitNotFound);
      }
      if !circuits[circuit] {
        return Err(CircuitDisabled);
      }
      var inserted := InsertJob(newId, circuit, hash, maxAttempts);
      if inserted {
        return Ok((newId, true));
      }
      // Lost the race, or a repeat: the answer is the job that already exists.
      var existing := SelectByHash(hash);
      return Ok((existing, false));
    }

    /** `INSERT ... ON CONFLICT (job_hash) DO NOTHING`. */
    method InsertJob(newId: JobId, circuit: string, hash: Bytes, maxAttempts: int) returns (inserted: bool)
      requires Valid() && newId !in jobs
      modifies this`jobs, this`attempts, this`transitions
      ensures Valid() && Db() == Apply(old(Db()), Op.InsertJob(newId, circuit, hash, maxAttempts))
      ensures inserted <==> !HashTaken(old(Db()), hash)
      ensures inserted ==> newId in Db().records && Db().records[newId].job.hash == hash
    {
      HashInTable(hash);
      if HashInUse(hash) {
        return false;
      }
      var row := NewRecord(circuit, hash, clock, maxAttempts);
      jobs := jobs[newId := row.job];
      attempts := attempts[newId := map[]];
      transitions := transitions[newId := []];
      assert Db().records == old(Db()).records[newId := row];
      return true;
    }

    predicate HashInUse(hash: Bytes)
      reads this
    {
      exists id :: id in jobs && jobs[id].hash == hash
    }

    lemma HashInTable(hash: Bytes)
      requires Valid()
      ensures HashTaken(Db(), hash) <==> HashInUse(hash)
    {
      assert forall id :: id in jobs ==> Db().records[id].job == jobs[id];
    }

    method SelectByHash(hash: Bytes) returns (id: JobId)
      requires Valid() && HashTaken(Db(), hash)
      ensures id in Db().records && Db().records[id].job.hash == hash
    {
      HashInTable(hash);
      id :| id in jobs && jobs[id].hash == hash;
      assert Db().records[id].job == jobs[id];
    }

    /** `ORDER BY created_at LIMIT 1` over the rows nobody else has locked. */
    method PickOldest(queue: JobState, locked: set<JobId>) returns (picked: Option<JobId>)
      requires Valid()
      ensures picked.None? ==> forall id :: !Candidate(Db(), id, queue, locked)
      ensures picked.Some? ==> Oldest(Db(), picked.value, queue, locked)
    {
      var rest := jobs.Keys;
      picked := None;
      while rest != {}
        invariant rest <= jobs.Keys
        invariant picked.Some? ==> Candidate(Db(), picked.value, queue, locked)
        invariant forall id :: Candidate(Db(), id, queue, locked) && id !in rest ==>
                    picked.Some? && jobs[picked.value].createdAt <= jobs[id].createdAt
        decreases |rest|
      {
        var id :| id in rest;
        rest := rest - {id};
        var job := jobs[id];
        if id !in locked && job.state == queue && Due(job, clock) {
          if picked.None? || job.createdAt < jobs[picked.value].createdAt {
            picked := Some(id);
          }
        }
      }
    }

    method LeaseNext(worker: Actor, ttl: Time, locked: set<JobId>) returns (r: Option<(JobId, Job)>)
      requires Valid()
      modifies this`jobs, this`attempts, this`transitions
      ensures Valid()
      ensures r.None? ==> Db() == old(Db()) && forall id :: !Candidate(old(Db()), id, Queued, locked)
      ensures r.Some? ==>
        && Oldest(old(Db()), r.value.0, Queued, locked)
        && Db() == Apply(old(Db()), OneJob(r.value.0, Lease(worker, ttl)))
        && Reply(old(Db()), r.value.0, Lease(worker, ttl)) == Ok(r.value.1)
    {
      var picked := PickOldest(Queued, locked);
      if picked.None? {
        return None;
      }
      var id := picked.value;
      var next := Transition(Queued, JobEvent.Leased).value;
      var job := jobs[id].(state := next, leasedBy := Some(worker), leaseExpiresAt := Some(clock + ttl),
                           attempts := jobs[id].attempts + 1, retryAfter := None);
      var tries := attempts[id];
      if job.attempts !in tries {
        tries := tries[job.attempts := Attempt(worker, None, None)];
      }
      Write(id, job, tries, Hop(Queued, JobEvent.Leased, next), worker, None);
      return Some((id, job));
    }

    method LeaseNextProved(relayer: Actor, ttl: Time, locked: set<JobId>) returns (r: Option<(JobId, Job)>)
      requires Valid()
      modifies this`jobs, this`attempts, this`transitions
      ensures Valid()
      ensures r.None? ==> Db() == old(Db()) && forall id :: !Candidate(old(Db()), id, Proved, locked)
      ensures r.Some? ==>
        && Oldest(old(Db()), r.value.0, Proved, locked)
        && Db() == Apply(old(Db()), OneJob(r.value.0, LeaseProved(relayer, ttl)))
        && Reply(old(Db()), r.value.0, LeaseProved(relayer, ttl)) == Ok(r.value.1)
    {
      var picked := PickOldest(Proved, locked);
      if picked.None? {
        return None;
      }
      var id := picked.value;
      var next := Transition(Proved, SubmissionStarted).value;
      var job := jobs[id].(state := next, leasedBy := Some(relayer), leaseExpiresAt := Some(clock + ttl),
                           submissionAttempts := jobs[id].submissionAttempts + 1, retryAfter := None);
      Write(id, job, attempts[id], Hop(Proved, SubmissionStarted, next), relayer, None);
      return Some((id, job));
    }

    method RenewLease(id: JobId, holder: Actor, ttl: Time) returns (renewed: bool)
      requires Valid()
      modifies this`jobs
      ensures Valid() && Db() == Apply(old(Db()), OneJob(id, Renew(holder, ttl)))
      ensures renewed <==> OnJob(old(Db()), id, Renew(holder, ttl)).Ok?
    {
      renewed := id in jobs && jobs[id].leasedBy == Some(holder) && jobs[id].state.IsInFlight();
      if renewed {
        jobs := jobs[id := jobs[id].(leaseExpiresAt := Some(clock + ttl))];
        assert Db().records == old(Db()).records[id := Record(jobs[id], attempts[id], transitions[id])];
      }
    }

    /** The loop over expired rows, each locked before it is touched. */
    method ReapExpiredLeases(reaper: Actor, locked: set<JobId>) returns (reaped: set<JobId>)
      requires Valid()
      modifies this`jobs, this`attempts, this`transitions
      ensures Valid() && Db() == Apply(old(Db()), ReapPass(old(jobs.Keys) - locked, reaper))
      ensures reaped == set id | id in old(jobs) && id !in locked && Expired(old(jobs)[id], clock)
    {
      reaped := set id | id in jobs && id !in locked && Expired(jobs[id], clock);
      ReapOnlyExpired(Db(), reaped, jobs.Keys - locked, reaper) by {
        assert forall id :: id in jobs ==> Db().records[id].job == jobs[id];
      }
      assert forall id :: id in reaped ==> IsExpired(Db(), id);
      ReapAll(reaped, reaper);
    }

    method ReapAll(expired: set<JobId>, reaper: Actor)
      requires Valid() && forall id :: id in expired ==> IsExpired(Db(), id)
      modifies this`jobs, this`attempts, this`transitions
      ensures Valid() && Db() == ReapRows(old(Db()), expired, reaper)
    {
      ghost var start, done := Db(), {};
      ReapNone(start, reaper);
      var rest := expired;
      while rest != {}
        invariant rest <= expired && done == expired - rest
        invariant Valid() && Db() == ReapRows(start, done, reaper)
        decreases |rest|
      {
        var id :| id in rest;
        ReapNext(id, reaper, start, done);
        assert done + {id} == expired - (rest - {id});
        rest, done := rest - {id}, done + {id};
      }
    }

    /** One turn of the loop: `done` were reaped before. */
    method ReapNext(id: JobId, reaper: Actor, ghost start: DB, ghost done: set<JobId>)
      requires Valid() && Db() == ReapRows(start, done, reaper)
      requires id !in done && IsExpired(start, id)
      modifies this`jobs, this`attempts, this`transitions
      ensures Valid() && Db() == ReapRows(start, done + {id}, reaper)
    {
      NotReached(start, done, id, reaper);
      ReapOneMore(start, done, id, reaper);
      assert Db().records[id].job == jobs[id];
      ReapOne(id, reaper);
    }

    method ReapOne(id: JobId, reaper: Actor)
      requires Valid() && id in jobs && Expired(jobs[id], clock)
      modifies this`jobs, this`attempts, this`transitions
      ensures Valid()
      ensures var was := old(Db());
        Db() == was.(records := was.records[id := Settle(was.records[id], Call.Reap(reaper), clock)])
    {
      var from := jobs[id].state;
      var budget := if from.Submitting? then jobs[id].submissionAttempts else jobs[id].attempts;
      var event := ClassifyFailure(Transient, budget, Budget(jobs[id]));
      if event == RetryScheduled {
        event := if from.Submitting? then RetryScheduled else LeaseExpired;
      }
      var next := Transition(from, event).value;
      var detail := if next.Failed? then LeaseRanOutExhausted else LeaseRanOut;
      var job := jobs[id].(state := next, leasedBy := None, leaseExpiresAt := None, lastError := Some(detail));
      Write(id, job, AbandonOpen(attempts[id]), Hop(from, event, next), reaper, Some(detail));
    }

    /** `apply_event_in_tx`. */
    method ApplyEventInTx(id: JobId, event: JobEvent, actor: Actor, detail: Option<Detail>)
      returns (r: Result<Job, StoreError>)
      requires Valid()
      modifies this`jobs, this`attempts, this`transitions
      ensures Valid()
      ensures r.Err? ==> Db() == old(Db())
      ensures id !in old(jobs) ==> r == Err(JobNotFound)
      ensures id in old(jobs) ==>
        match ApplyEvent(old(Db()).records[id], event, actor, detail)
        case Err(e) => r == Err(e)
        case Ok(record) => r == Ok(record.job) && Db() == old(Db()).(records := old(Db()).records[id := record])
    {
      if id !in jobs {
        return Err(JobNotFound);
      }
      var job := jobs[id];
      var moved := Transition(job.state, event);
      if moved.Err? {
        return Err(Illegal(moved.error));
      }
      var next := moved.value;
      var keepsLease := next.IsInFlight();
      var updated := job.(state := next,
                          leasedBy := if keepsLease then job.leasedBy else None,
                          leaseExpiresAt := if keepsLease then job.leaseExpiresAt else None,
                          lastError := if detail.Some? then detail else job.lastError);
      Write(id, updated, attempts[id], Hop(job.state, event, next), actor, detail);
      return Ok(updated);
    }

    method BeginProving(id: JobId, worker: Actor) returns (r: Result<Job, StoreError>)
      requires Valid()
      modifies this`jobs, this`attempts, this`transitions
      ensures Valid() && Db() == Apply(old(Db()), OneJob(id, Call.BeginProving(worker)))
      ensures r == Reply(old(Db()), id, Call.BeginProving(worker))
    {
      r := ApplyEventInTx(id, ProvingStarted, worker, None);
    }

    method RecordProof(id: JobId, worker: Actor, proof: Bytes, publicInputs: Bytes) returns (r: Result<Job, StoreError>)
      requires Valid()
      modifies this`jobs, this`attempts, this`transitions
      ensures Valid() && Db() == Apply(old(Db()), OneJob(id, Call.RecordProof(worker, proof, publicInputs)))
      ensures r == Reply(old(Db()), id, Call.RecordProof(worker, proof, publicInputs))
    {
      if id !in jobs {
        return Err(JobNotFound);
      }
      var from, n := jobs[id].state, jobs[id].attempts;
      var moved := Transition(from, ProofSucceeded);
      if moved.Err? {
        return Err(Illegal(moved.error));
      }
      var tries := attempts[id];
      if n in tries {
        tries := tries[n := tries[n].(outcome := Some(Succeeded))];
      }
      var job := jobs[id].(state := moved.value, proof := Some(proof), publicInputs := Some(publicInputs),
                           leasedBy := None, leaseExpiresAt := None);
      Write(id, job, tries, Hop(from, ProofSucceeded, moved.value), worker, None);
      return Ok(job);
    }

    method RecordFailure(id: JobId, worker: Actor, kind: FailureKind, error: string, retryIn: Option<Time>)
      returns (r: Result<Job, StoreError>)
      requires Valid()
      modifies this`jobs, this`attempts, this`transitions
      ensures Valid() && Db() == Apply(old(Db()), OneJob(id, Call.RecordFailure(worker, kind, error, retryIn)))
      ensures r == Reply(old(Db()), id, Call.RecordFailure(worker, kind, error, retryIn))
    {
      if id !in jobs {
        return Err(JobNotFound);
      }
      var from, n := jobs[id].state, jobs[id].attempts;
      var event := ClassifyFailure(kind, n, Budget(jobs[id]));
      var moved := Transition(from, event);
      if moved.Err? {
        return Err(Illegal(moved.error));
      }
      var next := moved.value;
      var retryAfter: Option<Time> := None;
      if next.Queued? && retryIn.Some? {
        retryAfter := Some(clock + retryIn.value);
      }
      var tries := attempts[id];
      if n in tries {
        tries := tries[n := tries[n].(outcome := Some(GaveUp), error := Some(Reported(error)))];
      }
      var job := jobs[id].(state := next, lastError := Some(Reported(error)),
                           leasedBy := None, leaseExpiresAt := None, retryAfter := retryAfter);
      Write(id, job, tries, Hop(from, event, next), worker, Some(Reported(error)));
      return Ok(job);
    }

    method ReleaseLease(id: JobId, holder: Actor) returns (r: Result<Job, StoreError>)
      requires Valid()
      modifies this`jobs, this`attempts, this`transitions
      ensures Valid() && Db() == Apply(old(Db()), OneJob(id, Release(holder)))
      ensures r == Reply(old(Db()), id, Release(holder))
    {
      if id !in jobs {
        return Err(JobNotFound);
      }
      var event := if jobs[id].state.Submitting? then RetryScheduled else LeaseExpired;
      r := ApplyEventInTx(id, event, holder, Some(ReleasedOnShutdown));
    }

    method RecordSubmission(id: JobId, txHash: Bytes, nullifier: Bytes) returns (r: Result<(), StoreError>)
      requires Valid()
      modifies this`settlements
      ensures Valid() && Db() == Apply(old(Db()), Submitted(id, txHash, nullifier))
      ensures r.Ok? <==> Try(old(Db()), Submitted(id, txHash, nullifier)).Ok?
    {
      if id !in jobs {
        return Err(JobNotFound);
      }
      if NullifierTaken(settlements, nullifier) {
        return Err(Conflict);
      }
      settlements := settlements + [Settlement(id, txHash, nullifier, None, None)];
      return Ok(());
    }

    /** The UPDATE row by row: the job's live rows with the old hash are renamed,
        every other row is left as it was, and while a live row is its job's
        newest at most one row changes. */
    method ReplaceSubmissionTx(id: JobId, fromTx: Bytes, toTx: Bytes)
      requires Valid()
      modifies this`settlements
      ensures Valid() && Db() == Apply(old(Db()), Replaced(id, fromTx, toTx))
      ensures |settlements| == |old(settlements)|
      ensures forall i :: 0 <= i < |settlements| ==>
        var was := old(settlements)[i];
        settlements[i] == if was.job == id && was.txHash == fromTx && was.Live() then was.(txHash := toTx) else was
      ensures LiveIsNewest(old(settlements)) ==>
        forall i, j :: 0 <= i < j < |settlements| && settlements[i] != old(settlements)[i] ==>
          settlements[j] == old(settlements)[j]
    {
      for i := 0 to |settlements|
        invariant |settlements| == |old(settlements)|
        invariant settlements[..i] == Replace(old(settlements), id, fromTx, toTx)[..i]
        invariant settlements[i..] == old(settlements)[i..]
      {
        var row := settlements[i];
        assert row == old(settlements)[i..][0];
        if row.job == id && row.txHash == fromTx && row.Live() {
          settlements := settlements[i := row.(txHash := toTx)];
        }
      }
      assert settlements == Replace(old(settlements), id, fromTx, toTx);
    }

    /** The UPDATE of `confirm_settlement`, row by row. */
    method StampReceipts(id: JobId, txHash: Bytes, receipt: Receipt)
      requires Valid()
      modifies this`settlements
      ensures Valid() && settlements == StampReceipt(old(settlements), id, txHash, receipt)
    {
      for i := 0 to |settlements|
        invariant |settlements| == |old(settlements)|
        invariant settlements[..i] == StampReceipt(old(settlements), id, txHash, receipt)[..i]
        invariant settlements[i..] == old(settlements)[i..]
      {
        var row := settlements[i];
        assert row == old(settlements)[i..][0];
        if row.job == id && row.txHash == txHash && row.Live() {
          settlements := settlements[i := row.(receipt := Some(receipt))];
        }
      }
    }

    /** The UPDATE of `record_reorg`, row by row: live or not. */
    method StampReorgs(id: JobId, txHash: Bytes)
      requires Valid()
      modifies this`settlements
      ensures Valid() && settlements == StampReorg(old(settlements), id, txHash, clock)
    {
      for i := 0 to |settlements|
        invariant |settlements| == |old(settlements)|
        invariant settlements[..i] == StampReorg(old(settlements), id, txHash, clock)[..i]
        invariant settlements[i..] == old(settlements)[i..]
      {
        var row := settlements[i];
        assert row == old(settlements)[i..][0];
        if row.job == id && row.txHash == txHash {
          var unconfirmed := if row.receipt.Some? then Some(row.receipt.value.(confirmations := 0)) else None;
          settlements := settlements[i := row.(reorgedAt := Some(clock), receipt := unconfirmed)];
        }
      }
    }

    method ConfirmSettlement(id: JobId, relayer: Actor, txHash: Bytes, receipt: Receipt)
      returns (r: Result<Job, StoreError>)
      requires Valid()
      modifies this`jobs, this`attempts, this`transitions, this`settlements
      ensures Valid() && Db() == Apply(old(Db()), Confirmed(id, relayer, txHash, receipt))
      ensures r == Reply(old(Db()), id, Call.ConfirmSettlement(relayer, None))
    {
      var before := settlements;
      StampReceipts(id, txHash, receipt);
      r := ApplyEventInTx(id, SettlementConfirmed, relayer, None);
      if r.Err? {
        settlements := before;      // the transaction rolls back
      }
    }

    method RecordReorg(id: JobId, relayer: Actor, txHash: Bytes) returns (r: Result<Job, StoreError>)
      requires Valid()
      modifies this`jobs, this`attempts, this`transitions, this`settlements
      ensures Valid() && Db() == Apply(old(Db()), Unwound(id, relayer, txHash))
      ensures r == Reply(old(Db()), id, Call.RecordReorg(relayer))
    {
      var before := settlements;
      StampReorgs(id, txHash);
      if id in jobs {
        ReorgsCommit(old(Db()), id, relayer, txHash);
      }
      r := ApplyEventInTx(id, JobEvent.Reorged, relayer, Some(RemovedByReorg));
      if r.Err? {
        settlements := before;      // the transaction rolls back
      }
    }

    method MarkSettledElsewhere(id: JobId, relayer: Actor, note: string) returns (r: Result<Job, StoreError>)
      requires Valid()
      modifies this`jobs, this`attempts, this`transitions
      ensures Valid() && Db() == Apply(old(Db()), OneJob(id, Call.ConfirmSettlement(relayer, Some(note))))
      ensures r == Reply(old(Db()), id, Call.ConfirmSettlement(relayer, Some(note)))
    {
      r := ApplyEventInTx(id, SettlementConfirmed, relayer, Some(Reported(note)));
    }

    method RecordSubmissionFailure(id: JobId, relayer: Actor, kind: FailureKind, error: string, retryIn: Option<Time>)
      returns (r: Result<Job, StoreError>)
      requires Valid()
      modifies this`jobs, this`attempts, this`transitions
      ensures Valid()
      ensures Db() == Apply(old(Db()), OneJob(id, Call.RecordSubmissionFailure(relayer, kind, error, retryIn)))
      ensures r == Reply(old(Db()), id, Call.RecordSubmissionFailure(relayer, kind, error, retryIn))
    {
      if id !in jobs {
        return Err(JobNotFound);
      }
      var from := jobs[id].state;
      var event := ClassifyFailure(kind, jobs[id].submissionAttempts, Budget(jobs[id]));
      var moved := Transition(from, event);
      if moved.Err? {
        return Err(Illegal(moved.error));
      }
      var next := moved.value;
      var retryAfter: Option<Time> := None;
      if next.Proved? && retryIn.Some? {
        retryAfter := Some(clock + retryIn.value);
      }
      var job := jobs[id].(state := next, lastError := Some(Reported(error)),
                           leasedBy := None, leaseExpiresAt := None, retryAfter := retryAfter);
      Write(id, job, attempts[id], Hop(from, event, next), relayer, Some(Reported(error)));
      return Ok(job);
    }

    method LatestSettlement(id: JobId) returns (r: Option<Settlement>)
      ensures r == Latest(settlements, id)
      ensures LiveIsNewest(settlements) ==>
        ((r.Some? && r.value.Live())
         <==> exists i :: 0 <= i < |settlements| && settlements[i].job == id && settlements[i].Live())
    {
      r := None;
      for i := 0 to |settlements|
        invariant r == Latest(settlements[..i], id)
      {
        assert settlements[..i + 1][..i] == settlements[..i];
        if settlements[i].job == id {
          r := Some(settlements[i]);
        }
      }
      assert settlements[..|settlements|] == settlements;
      if LiveIsNewest(settlements) {
        LatestFindsTheLiveRow(settlements, id);
      }
    }
  }
}
