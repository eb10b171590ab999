/** `enqueue` as three separate database round trips, interleaved with any
    number of other callers and with every other store operation. */
module Enqueue {
  import opened Basics
  import opened JobMachine
  import opened Records
  import opened History
  import opened Database

  type CallerId = nat

  datatype Request = Request(circuit: string, hash: Bytes, maxAttempts: int)

  datatype Enqueued = Created | Duplicate

  datatype Phase =
    | Asking                             // about to read the circuit
    | Inserting                          // circuit accepted; about to insert
    | Selecting                          // the insert found the hash taken
    | Told(id: JobId, how: Enqueued)
    | Refused(why: StoreError)

  datatype Caller = Caller(request: Request, phase: Phase)

  datatype System = System(db: DB, callers: map<CallerId, Caller>)

  datatype Move =
    | Arrive(c: CallerId, request: Request)
    | ReadCircuit(c: CallerId)
    | Insert(c: CallerId, id: JobId)     // `id` is the UUID the database draws
    | Select(c: CallerId)
    | Elsewhere(op: Op)                  // anything else the store does

  /** The row a unique hash selects. */
  ghost predicate IsJobOf(db: DB, hash: Bytes, id: JobId) {
    id in db.records && db.records[id].job.hash == hash
  }

  ghost predicate Enabled(s: System, m: Move) {
    match m
    case Arrive(c, _) => c !in s.callers
    case ReadCircuit(c) => c in s.callers && s.callers[c].phase.Asking?
    case Insert(c, id) => c in s.callers && s.callers[c].phase.Inserting? && id !in s.db.records
    case Select(c) => c in s.callers && s.callers[c].phase.Selecting?
    case Elsewhere(op) => !op.InsertJob?
  }

  function AfterRead(db: DB, circuit: string): Phase {
    if circuit !in db.circuits then Refused(CircuitNotFound)
    else if !db.circuits[circuit] then Refused(CircuitDisabled)
    else Inserting
  }

  ghost function Do(s: System, m: Move): System
    requires Enabled(s, m)
  {
    match m
    case Arrive(c, request) => s.(callers := s.callers[c := Caller(request, Asking)])
    case ReadCircuit(c) =>
      s.(callers := s.callers[c := s.callers[c].(phase := AfterRead(s.db, s.callers[c].request.circuit))])
    case Insert(c, id) =>
      var q := s.callers[c].request;
      (match Try(s.db, InsertJob(id, q.circuit, q.hash, q.maxAttempts))
       case Ok(db') => System(db', s.callers[c := Caller(q, Told(id, Created))])
       case Err(_) => s.(callers := s.callers[c := Caller(q, Selecting)]))
    case Select(c) =>
      var q := s.callers[c].request;
      if exists id :: IsJobOf(s.db, q.hash, id)
      then var id :| IsJobOf(s.db, q.hash, id); s.(callers := s.callers[c := Caller(q, Told(id, Duplicate))])
      else s.(callers := s.callers[c := Caller(q, Refused(JobNotFound))])
    case Elsewhere(op) => s.(db := Apply(s.db, op))
  }

  ghost predicate IsRun(trace: seq<System>, moves: seq<Move>) {
    && |trace| == |moves| + 1
    && trace[0] == System(EMPTY, map[])
    && forall i :: 0 <= i < |moves| ==> Enabled(trace[i], moves[i]) && trace[i + 1] == Do(trace[i], moves[i])
  }

  ghost predicate WasCreatedBy(s: System, id: JobId, c: CallerId) {
    c in s.callers && s.callers[c].phase == Told(id, Created)
  }

  ghost predicate Consistent(s: System) {
    && HashesUnique(s.db)
    && (forall c :: c in s.callers && s.callers[c].phase.Told? ==>
          IsJobOf(s.db, s.callers[c].request.hash, s.callers[c].phase.id))
    && (forall c :: c in s.callers && s.callers[c].phase.Selecting? ==>
          exists id :: IsJobOf(s.db, s.callers[c].request.hash, id))
    && (forall id :: id in s.db.records ==> exists c :: WasCreatedBy(s, id, c))
    && (forall id, c, d :: WasCreatedBy(s, id, c) && WasCreatedBy(s, id, d) ==> c == d)
    && (forall c :: c in s.callers && s.callers[c].phase.Refused? ==>
          s.callers[c].phase.why in {CircuitNotFound, CircuitDisabled})
  }

  lemma HashesAreFixed(db: DB, op: Op)
    requires !op.InsertJob?
    ensures Apply(db, op).records.Keys == db.records.Keys
    ensures forall id :: id in db.records ==> Apply(db, op).records[id].job.hash == db.records[id].job.hash
  {
    forall id | id in db.records
      ensures id in Apply(db, op).records && Apply(db, op).records[id].job.hash == db.records[id].job.hash
    {
      HashesStay(db, op, id);
    }
    forall id | id in Apply(db, op).records
      ensures id in db.records
    {
      if id !in db.records {
        NewJobsAreNew(db, op, id);
      }
    }
  }

  lemma MoveKeepsConsistent(s: System, m: Move)
    requires Consistent(s) && Enabled(s, m)
    ensures Consistent(Do(s, m))
  {
    var s' := Do(s, m);
    match m
    case Elsewhere(op) =>
      HashesAreFixed(s.db, op);
      forall c | c in s'.callers && s'.callers[c].phase.Selecting?
        ensures exists id :: IsJobOf(s'.db, s'.callers[c].request.hash, id)
      {
        var id :| IsJobOf(s.db, s.callers[c].request.hash, id);
        assert IsJobOf(s'.db, s.callers[c].request.hash, id);
      }
      KeepsCreators(s, s');
    case Insert(c, id) =>
      InsertKeepsConsistent(s, c, id);
    case Select(c) =>
      KeepsCreators(s, s');
    case _ =>
      KeepsCreators(s, s');
  }

  lemma KeepsCreators(s: System, s': System)
    requires forall id :: id in s.db.records ==> exists c :: WasCreatedBy(s, id, c)
    requires s'.db.records.Keys == s.db.records.Keys
    requires forall id, c :: WasCreatedBy(s', id, c) <==> WasCreatedBy(s, id, c)
    ensures forall id :: id in s'.db.records ==> exists c :: WasCreatedBy(s', id, c)
  {
    forall id | id in s'.db.records
      ensures exists c :: WasCreatedBy(s', id, c)
    {
      var c :| WasCreatedBy(s, id, c);
      assert WasCreatedBy(s', id, c);
    }
  }

  lemma InsertKeepsConsistent(s: System, c: CallerId, id: JobId)
    requires Consistent(s) && Enabled(s, Insert(c, id))
    ensures Consistent(Do(s, Insert(c, id)))
  {
    var s' := Do(s, Insert(c, id));
    var q := s.callers[c].request;
    if HashTaken(s.db, q.hash) {
      var other :| other in s.db.records && s.db.records[other].job.hash == q.hash;
      assert IsJobOf(s'.db, q.hash, other);
      KeepsCreators(s, s');
    } else {
      FirstInsertKeepsJobs(s, s', c, id);
      FirstInsertKeepsCreators(s, s', c, id);
    }
  }

  ghost predicate IsFirstInsert(s: System, s': System, c: CallerId, id: JobId) {
    && c in s.callers && s.callers[c].phase.Inserting? && id !in s.db.records
    && var q := s.callers[c].request;
       && !HashTaken(s.db, q.hash)
       && s'.db.records == s.db.records[id := NewRecord(q.circuit, q.hash, s.db.clock, q.maxAttempts)]
       && s'.callers == s.callers[c := Caller(q, Told(id, Created))]
  }

  lemma FirstInsertKeepsJobs(s: System, s': System, c: CallerId, id: JobId)
    requires Consistent(s) && IsFirstInsert(s, s', c, id)
    ensures HashesUnique(s'.db)
    ensures forall d :: d in s'.callers && s'.callers[d].phase.Told? ==>
              IsJobOf(s'.db, s'.callers[d].request.hash, s'.callers[d].phase.id)
    ensures forall d :: d in s'.callers && s'.callers[d].phase.Selecting? ==>
              exists k :: IsJobOf(s'.db, s'.callers[d].request.hash, k)
  {
    forall d | d in s'.callers && s'.callers[d].phase.Selecting?
      ensures exists k :: IsJobOf(s'.db, s'.callers[d].request.hash, k)
    {
      var k :| IsJobOf(s.db, s.callers[d].request.hash, k);
      assert IsJobOf(s'.db, s.callers[d].request.hash, k);
    }
  }

  lemma FirstInsertKeepsCreators(s: System, s': System, c: CallerId, id: JobId)
    requires Consistent(s) && IsFirstInsert(s, s', c, id)
    ensures forall j :: j in s'.db.records ==> exists d :: WasCreatedBy(s', j, d)
    ensures forall j, d, e :: WasCreatedBy(s', j, d) && WasCreatedBy(s', j, e) ==> d == e
  {
    assert WasCreatedBy(s', id, c);
    forall j, d | WasCreatedBy(s', j, d)
      ensures if j == id then d == c else WasCreatedBy(s, j, d)
    {
      if d != c {
        assert IsJobOf(s.db, s.callers[d].request.hash, j);
      }
    }
    forall j | j in s'.db.records
      ensures exists d :: WasCreatedBy(s', j, d)
    {
      if j != id {
        var d :| WasCreatedBy(s, j, d);
        assert WasCreatedBy(s', j, d);
      }
    }
  }

  lemma {:induction false} RunsStayConsistent(trace: seq<System>, moves: seq<Move>, k: nat)
    requires IsRun(trace, moves) && k <= |moves|
    ensures Consistent(trace[k])
  {
    if k > 0 {
      RunsStayConsistent(trace, moves, k - 1);
      MoveKeepsConsistent(trace[k - 1], moves[k - 1]);
    }
  }

  /** Two answered callers who submitted the same request. */
  ghost predicate BothTold(s: System, c: CallerId, d: CallerId) {
    && c in s.callers && d in s.callers
    && s.callers[c].phase.Told? && s.callers[d].phase.Told?
    && s.callers[c].request.hash == s.callers[d].request.hash
  }

  /** MAIN. In every interleaving: one job per hash; every caller that got an
      answer got the id of the job with its hash; for each job exactly one
      caller was told `Created`; and once an identical job exists, a caller
      changes nothing in the database and is always answered. */
  lemma SubmittingTwiceMakesOneJob(trace: seq<System>, moves: seq<Move>, k: nat)
    requires IsRun(trace, moves) && k <= |moves|
    ensures var s := trace[k];
      && HashesUnique(s.db)
      && (forall c :: c in s.callers && s.callers[c].phase.Told? ==>
            IsJobOf(s.db, s.callers[c].request.hash, s.callers[c].phase.id))
      && (forall c, d :: BothTold(s, c, d) ==> s.callers[c].phase.id == s.callers[d].phase.id)
      && (forall c, d :: BothTold(s, c, d) && s.callers[c].phase.how.Created? && s.callers[d].phase.how.Created? ==>
            c == d)
      && (forall id :: id in s.db.records ==> exists c :: WasCreatedBy(s, id, c))
    ensures k < |moves| ==>
      match moves[k]
      case Insert(c, _) =>
        HashTaken(trace[k].db, trace[k].callers[c].request.hash) ==> trace[k + 1].db == trace[k].db
      case Select(c) => trace[k + 1].db == trace[k].db && trace[k + 1].callers[c].phase.Told?
      case _ => true
  {
    RunsStayConsistent(trace, moves, k);
    var s := trace[k];
    forall c, d | BothTold(s, c, d)
      ensures s.callers[c].phase.id == s.callers[d].phase.id
      ensures s.callers[c].phase.how.Created? && s.callers[d].phase.how.Created? ==> c == d
    {
      assert s.callers[c].phase.how.Created? ==> WasCreatedBy(s, s.callers[c].phase.id, c);
      assert s.callers[d].phase.how.Created? ==> WasCreatedBy(s, s.callers[d].phase.id, d);
    }
    if k < |moves| {
      assert Enabled(s, moves[k]) && trace[k + 1] == Do(s, moves[k]);
    }
  }

  // --- what a created job is -------------------------------------------------------

  /** A caller past its check had found its circuit registered and enabled. */
  ghost predicate FoundEnabled(trace: seq<System>, moves: seq<Move>, k: nat, c: CallerId, circuit: string)
    requires k <= |moves| < |trace|
  {
    exists j :: 0 <= j < k && moves[j] == ReadCircuit(c)
                && circuit in trace[j].db.circuits && trace[j].db.circuits[circuit]
  }

  /** Who may insert: a caller comes to inserting only by reading its circuit. */
  lemma InsertersHaveRead(s: System, m: Move, c: CallerId)
    requires Enabled(s, m) && c in Do(s, m).callers
    ensures var now := Do(s, m).callers[c];
      && (c in s.callers ==> s.callers[c].request == now.request)
      && (now.phase.Inserting? ==>
            c in s.callers
            && (s.callers[c].phase.Inserting?
                || (m == ReadCircuit(c) && now.request.circuit in s.db.circuits && s.db.circuits[now.request.circuit])))
  {
  }

  lemma {:induction false} InsertersFoundEnabled(trace: seq<System>, moves: seq<Move>, k: nat, c: CallerId)
    requires IsRun(trace, moves) && k <= |moves| && c in trace[k].callers && trace[k].callers[c].phase.Inserting?
    ensures FoundEnabled(trace, moves, k, c, trace[k].callers[c].request.circuit)
  {
    if k > 0 {
      assert Enabled(trace[k - 1], moves[k - 1]) && trace[k] == Do(trace[k - 1], moves[k - 1]);
      InsertersHaveRead(trace[k - 1], moves[k - 1], c);
      if trace[k - 1].callers[c].phase.Inserting? {
        InsertersFoundEnabled(trace, moves, k - 1, c);
      }
    }
  }

  /** MAIN. In every interleaving a job that appears is the request of a caller that
      had found its circuit registered and enabled: queued, at that moment, with the
      request's circuit, hash and limit, nothing tried and nothing due; and no other
      move makes a job appear. */
  lemma JobsAreTheirRequests(trace: seq<System>, moves: seq<Move>, k: nat, id: JobId)
    requires IsRun(trace, moves) && k < |moves| && id in trace[k + 1].db.records && id !in trace[k].db.records
    ensures moves[k].Insert? && moves[k].id == id && moves[k].c in trace[k].callers
    ensures var q, r := trace[k].callers[moves[k].c].request, trace[k + 1].db.records[id];
      && FoundEnabled(trace, moves, k, moves[k].c, q.circuit)
      && r.job.circuit == q.circuit && r.job.hash == q.hash && r.job.maxAttempts == q.maxAttempts
      && r.job.createdAt == trace[k].db.clock && r.job.state.Queued? && Due(r.job, trace[k].db.clock)
      && r.job.attempts == 0 && r.job.submissionAttempts == 0 && r.job.leasedBy.None? && r.job.proof.None?
      && r.tries == map[] && r.log == []
  {
    var s, m := trace[k], moves[k];
    assert Enabled(s, m) && trace[k + 1] == Do(s, m);
    if m.Elsewhere? {
      HashesAreFixed(s.db, m.op);
    } else {
      InsertersFoundEnabled(trace, moves, k, m.c);
    }
  }

  /** And whoever is refused had read a circuit that was missing or disabled. */
  lemma RefusalsHaveTheirReason(s: System, m: Move, c: CallerId)
    requires Enabled(s, m) && c in Do(s, m).callers && Do(s, m).callers[c].phase.Refused?
    requires Consistent(s)
    ensures (c in s.callers && s.callers[c] == Do(s, m).callers[c])
            || (m == ReadCircuit(c)
                && var circuit := Do(s, m).callers[c].request.circuit;
                   Do(s, m).callers[c].phase.why
                   == if circuit in s.db.circuits then CircuitDisabled else CircuitNotFound)
  {
  }
}
