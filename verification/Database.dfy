/** The whole database: every job's rows, the settlement table, the circuits and
    the clock. One `Op` is one committed transaction. */
module Database {
  import opened Basics
  import opened JobMachine
  import opened Records
  import opened History

  type JobId = nat

  datatype Receipt = Receipt(blockNumber: int, confirmations: int, gasUsed: Option<int>, gasPrice: Option<int>)

  datatype Settlement = Settlement(
    job: JobId,
    txHash: Bytes,
    nullifier: Bytes,
    receipt: Option<Receipt>,
    reorgedAt: Option<Time>)
  {
    predicate Live() { reorgedAt.None? }
  }

  datatype DB = DB(
    records: map<JobId, Record>,
    settlements: seq<Settlement>,     // in insertion order
    circuits: map<string, bool>,      // registered circuits, and whether enabled
    clock: Time)

  const EMPTY := DB(map[], [], map[], 0)

  datatype Op =
    | Tick(to: Time)
    | UpsertCircuit(circuit: string, enabled: bool)
    | InsertJob(id: JobId, circuit: string, hash: Bytes, maxAttempts: int)
    | OneJob(id: JobId, call: Call)
    | ReapPass(visible: set<JobId>, reaper: Actor)
    | Submitted(id: JobId, txHash: Bytes, nullifier: Bytes)
    | Replaced(id: JobId, fromTx: Bytes, toTx: Bytes)
    | Confirmed(id: JobId, relayer: Actor, txHash: Bytes, receipt: Receipt)
    | Unwound(id: JobId, relayer: Actor, txHash: Bytes)

  /** The nullifier is the last 32-byte word of the public inputs. */
  function NullifierOf(inputs: Bytes): (n: Option<Bytes>) {
    if inputs == [] || |inputs| % 32 != 0 then None else Some(inputs[|inputs| - 32..])
  }

  predicate HashTaken(db: DB, hash: Bytes) {
    exists id :: id in db.records && db.records[id].job.hash == hash
  }

  /** The partial unique index on live nullifiers refuses this insert. */
  predicate NullifierTaken(rows: seq<Settlement>, nullifier: Bytes) {
    exists i :: 0 <= i < |rows| && rows[i].Live() && rows[i].nullifier == nullifier
  }

  function OnJob(db: DB, id: JobId, call: Call): Result<DB, StoreError> {
    if id !in db.records then Err(JobNotFound)
    else
      match Step(db.records[id], call, db.clock)
      case Err(e) => Err(e)
      case Ok(r) => Ok(db.(records := db.records[id := r]))
  }

  function ReapRows(db: DB, visible: set<JobId>, reaper: Actor): DB {
    db.(records := map id | id in db.records ::
          if id in visible then Settle(db.records[id], Call.Reap(reaper), db.clock) else db.records[id])
  }

  function Replace(rows: seq<Settlement>, id: JobId, fromTx: Bytes, toTx: Bytes): seq<Settlement> {
    seq(|rows|, i requires 0 <= i < |rows| =>
      if rows[i].job == id && rows[i].txHash == fromTx && rows[i].Live()
      then rows[i].(txHash := toTx) else rows[i])
  }

  function StampReceipt(rows: seq<Settlement>, id: JobId, txHash: Bytes, receipt: Receipt): seq<Settlement> {
    seq(|rows|, i requires 0 <= i < |rows| =>
      if rows[i].job == id && rows[i].txHash == txHash && rows[i].Live()
      then rows[i].(receipt := Some(receipt)) else rows[i])
  }

  /** A reorged row keeps its receipt, at zero confirmations. */
  function StampReorg(rows: seq<Settlement>, id: JobId, txHash: Bytes, now: Time): seq<Settlement> {
    seq(|rows|, i requires 0 <= i < |rows| =>
      if rows[i].job == id && rows[i].txHash == txHash
      then rows[i].(reorgedAt := Some(now),
                    receipt := if rows[i].receipt.Some?
                               then Some(rows[i].receipt.value.(confirmations := 0)) else None)
      else rows[i])
  }

  function Try(db: DB, op: Op): Result<DB, StoreError> {
    match op
    case Tick(to) => Ok(if to >= db.clock then db.(clock := to) else db)
    case UpsertCircuit(circuit, enabled) => Ok(db.(circuits := db.circuits[circuit := enabled]))
    case InsertJob(id, circuit, hash, maxAttempts) =>
      if id in db.records || HashTaken(db, hash) then Err(Conflict)
      else Ok(db.(records := db.records[id := NewRecord(circuit, hash, db.clock, maxAttempts)]))
    case OneJob(id, call) => OnJob(db, id, call)
    case ReapPass(visible, reaper) => Ok(ReapRows(db, visible, reaper))
    case Submitted(id, txHash, nullifier) =>
      if id !in db.records then Err(JobNotFound)
      else if NullifierTaken(db.settlements, nullifier) then Err(Conflict)
      else Ok(db.(settlements := db.settlements + [Settlement(id, txHash, nullifier, None, None)]))
    case Replaced(id, fromTx, toTx) => Ok(db.(settlements := Replace(db.settlements, id, fromTx, toTx)))
    case Confirmed(id, relayer, txHash, receipt) =>
      (match OnJob(db, id, ConfirmSettlement(relayer, None))
       case Err(e) => Err(e)
       case Ok(db') => Ok(db'.(settlements := StampReceipt(db.settlements, id, txHash, receipt))))
    case Unwound(id, relayer, txHash) =>
      (match OnJob(db, id, RecordReorg(relayer))
       case Err(e) => Err(e)
       case Ok(db') => Ok(db'.(settlements := StampReorg(db.settlements, id, txHash, db.clock))))
  }

  /** A refused transaction rolls back. */
  function Apply(db: DB, op: Op): DB {
    match Try(db, op)
    case Ok(db') => db'
    case Err(_) => db
  }

  /** What a relayer may write: the nullifier of the public inputs it read. */
  predicate Truthful(db: DB, op: Op) {
    op.Submitted? && op.id in db.records ==>
      var inputs := db.records[op.id].job.publicInputs;
      inputs.Some? && NullifierOf(inputs.value) == Some(op.nullifier)
  }

  function RunDb(ops: seq<Op>): DB {
    if ops == [] then EMPTY else Apply(RunDb(ops[..|ops| - 1]), ops[|ops| - 1])
  }

  ghost predicate TruthfulRun(ops: seq<Op>) {
    ops != [] ==> TruthfulRun(ops[..|ops| - 1]) && Truthful(RunDb(ops[..|ops| - 1]), ops[|ops| - 1])
  }

  // --- the settlement table --------------------------------------------------

  /** Every row carries its job's own nullifier. */
  ghost predicate RowsNameTheirJob(db: DB) {
    forall i :: 0 <= i < |db.settlements| ==>
      var row := db.settlements[i];
      && row.job in db.records
      && Proven(db.records[row.job].job)
      && NullifierOf(db.records[row.job].job.publicInputs.value) == Some(row.nullifier)
  }

  ghost predicate OneLivePerNullifier(rows: seq<Settlement>) {
    forall i, j :: 0 <= i < j < |rows| && rows[i].Live() && rows[j].Live() ==>
      rows[i].nullifier != rows[j].nullifier
  }

  /** A live row is its job's newest. */
  ghost predicate LiveIsNewest(rows: seq<Settlement>) {
    forall i, j :: 0 <= i < j < |rows| && rows[i].job == rows[j].job ==> !rows[i].Live()
  }

  ghost predicate HashesUnique(db: DB) {
    forall a, b :: a in db.records && b in db.records && db.records[a].job.hash == db.records[b].job.hash ==> a == b
  }

  ghost predicate DbSound(db: DB) {
    && (forall id :: id in db.records ==> Sound(db.records[id]))
    && RowsNameTheirJob(db)
    && OneLivePerNullifier(db.settlements)
    && LiveIsNewest(db.settlements)
    && HashesUnique(db)
  }

  /** What happens to one job's rows in one transaction: nothing, its creation,
      or one call. */
  lemma OneTransactionOneCall(db: DB, op: Op, id: JobId)
    requires id in db.records
    ensures var db' := Apply(db, op);
      && id in db'.records
      && (db'.records[id] == db.records[id]
          || exists call :: Step(db.records[id], call, db.clock) == Ok(db'.records[id]))
  {
    match op
    case OneJob(j, call) =>
    case Confirmed(j, relayer, txHash, receipt) =>
      assert j == id && Step(db.records[id], ConfirmSettlement(relayer, None), db.clock).Ok? ==>
        Step(db.records[id], ConfirmSettlement(relayer, None), db.clock) == Ok(Apply(db, op).records[id]);
    case Unwound(j, relayer, txHash) =>
      assert j == id && Step(db.records[id], RecordReorg(relayer), db.clock).Ok? ==>
        Step(db.records[id], RecordReorg(relayer), db.clock) == Ok(Apply(db, op).records[id]);
    case ReapPass(visible, reaper) =>
    case _ =>
  }

  lemma NewRecordsAreSound(circuit: string, hash: Bytes, createdAt: Time, maxAttempts: int)
    ensures Sound(NewRecord(circuit, hash, createdAt, maxAttempts))
  {
    RunsStaySound(circuit, hash, createdAt, maxAttempts, []);
  }

  lemma ApplyKeepsRecords(db: DB, op: Op)
    requires forall id :: id in db.records ==> Sound(db.records[id])
    ensures forall id :: id in Apply(db, op).records ==> Sound(Apply(db, op).records[id])
  {
    var db' := Apply(db, op);
    forall id | id in db'.records
      ensures Sound(db'.records[id])
    {
      if id in db.records {
        OneTransactionOneCall(db, op, id);
        if db'.records[id] != db.records[id] {
          var call :| Step(db.records[id], call, db.clock) == Ok(db'.records[id]);
          StepKeepsSound(db.records[id], call, db.clock);
        }
      } else {
        NewRecordsAreSound(op.circuit, op.hash, db.clock, op.maxAttempts);
      }
    }
  }

  /** A stored proof outlives every transaction. */
  lemma ApplyKeepsProof(db: DB, op: Op, id: JobId)
    requires id in db.records && Proven(db.records[id].job)
    ensures var db' := Apply(db, op);
      && id in db'.records && Proven(db'.records[id].job)
      && db'.records[id].job.proof == db.records[id].job.proof
      && db'.records[id].job.publicInputs == db.records[id].job.publicInputs
  {
    var db' := Apply(db, op);
    OneTransactionOneCall(db, op, id);
    if db'.records[id] != db.records[id] {
      var call :| Step(db.records[id], call, db.clock) == Ok(db'.records[id]);
      StepKeepsProof(db.records[id], call, db.clock);
    }
  }

  /** How one transaction may touch the settlement rows already there. */
  lemma RowsAreStable(db: DB, op: Op)
    ensures var rows, rows' := db.settlements, Apply(db, op).settlements;
      && |rows| <= |rows'| <= |rows| + 1
      && (forall i :: 0 <= i < |rows| ==>
            && rows'[i].job == rows[i].job && rows'[i].nullifier == rows[i].nullifier
            && (rows'[i].Live() ==> rows[i].Live()))
      && (|rows'| > |rows| ==>
            op.Submitted? && !NullifierTaken(rows, op.nullifier)
            && rows'[|rows|] == Settlement(op.id, op.txHash, op.nullifier, None, None))
  {
  }

  lemma ApplyKeepsNames(db: DB, op: Op)
    requires RowsNameTheirJob(db) && Truthful(db, op)
    requires forall id :: id in db.records ==> Sound(db.records[id])
    ensures RowsNameTheirJob(Apply(db, op))
  {
    var db' := Apply(db, op);
    RowsAreStable(db, op);
    forall i | 0 <= i < |db'.settlements|
      ensures var row := db'.settlements[i];
        && row.job in db'.records
        && Proven(db'.records[row.job].job)
        && NullifierOf(db'.records[row.job].job.publicInputs.value) == Some(row.nullifier)
    {
      var row := db'.settlements[i];
      if i < |db.settlements| {
        assert db.settlements[i].job == row.job;
        ApplyKeepsProof(db, op, row.job);
      } else {
        assert Sound(db.records[op.id]);
        ApplyKeepsProof(db, op, op.id);
      }
    }
  }

  lemma ApplyKeepsLive(db: DB, op: Op)
    requires RowsNameTheirJob(db) && Truthful(db, op)
    requires OneLivePerNullifier(db.settlements) && LiveIsNewest(db.settlements)
    ensures OneLivePerNullifier(Apply(db, op).settlements) && LiveIsNewest(Apply(db, op).settlements)
  {
    RowsAreStable(db, op);
  }

  lemma HashesStay(db: DB, op: Op, id: JobId)
    requires id in db.records
    ensures id in Apply(db, op).records && Apply(db, op).records[id].job.hash == db.records[id].job.hash
  {
    OneTransactionOneCall(db, op, id);
  }

  lemma NewJobsAreNew(db: DB, op: Op, id: JobId)
    requires id in Apply(db, op).records && id !in db.records
    ensures op.InsertJob? && op.id == id && !HashTaken(db, op.hash) && Apply(db, op).records[id].job.hash == op.hash
  {
  }

  lemma ApplyKeepsHashes(db: DB, op: Op)
    requires HashesUnique(db)
    ensures HashesUnique(Apply(db, op))
  {
    var db' := Apply(db, op);
    forall id | id in db'.records
      ensures if id in db.records then db'.records[id].job.hash == db.records[id].job.hash
              else op.InsertJob? && op.id == id && !HashTaken(db, op.hash) && db'.records[id].job.hash == op.hash
    {
      if id in db.records {
        HashesStay(db, op, id);
      } else {
        NewJobsAreNew(db, op, id);
      }
    }
  }

  lemma ApplyKeepsSound(db: DB, op: Op)
    requires DbSound(db) && Truthful(db, op)
    ensures DbSound(Apply(db, op))
  {
    ApplyKeepsRecords(db, op);
    ApplyKeepsNames(db, op);
    ApplyKeepsLive(db, op);
    ApplyKeepsHashes(db, op);
  }

  /** MAIN. In every run of the store, with any callers: every job's rows are
      sound, every settlement row carries its job's own write-once nullifier, at
      most one live row exists per nullifier, and a live row is its job's
      newest. */
  lemma {:induction false} TheDatabaseStaysSound(ops: seq<Op>)
    requires TruthfulRun(ops)
    ensures DbSound(RunDb(ops))
  {
    if ops != [] {
      TheDatabaseStaysSound(ops[..|ops| - 1]);
      ApplyKeepsSound(RunDb(ops[..|ops| - 1]), ops[|ops| - 1]);
    }
  }

  /** MAIN. A row a reorg unwound never becomes live again, and no row is
      deleted or handed to another job. */
  lemma {:induction false} UnwoundRowsStayUnwound(ops: seq<Op>, k: nat, i: nat)
    requires k <= |ops| && i < |RunDb(ops[..k]).settlements|
    ensures var earlier, later := RunDb(ops[..k]).settlements, RunDb(ops).settlements;
      && i < |later| && later[i].job == earlier[i].job && later[i].nullifier == earlier[i].nullifier
      && (!earlier[i].Live() ==> !later[i].Live())
  {
    if k == |ops| {
      assert ops[..k] == ops;
    } else {
      var prefix := ops[..|ops| - 1];
      assert prefix[..k] == ops[..k];
      UnwoundRowsStayUnwound(prefix, k, i);
      RowsAreStable(RunDb(prefix), ops[|ops| - 1]);
    }
  }

  // --- reading the newest row ------------------------------------------------

  /** `latest_settlement`: the newest row of a job. */
  function Latest(rows: seq<Settlement>, id: JobId): (r: Option<Settlement>)
    ensures r.None? <==> forall i :: 0 <= i < |rows| ==> rows[i].job != id
    ensures r.Some? ==> exists i :: 0 <= i < |rows| && rows[i] == r.value && r.value.job == id
                                    && forall j :: i < j < |rows| ==> rows[j].job != id
  {
    if rows == [] then None
    else if rows[|rows| - 1].job == id then Some(rows[|rows| - 1])
    else Latest(rows[..|rows| - 1], id)
  }

  /** MAIN. Asking only for the newest row never misses a recorded broadcast:
      it is live exactly when the job has any live row, and then it is that
      row. */
  lemma LatestFindsTheLiveRow(rows: seq<Settlement>, id: JobId)
    requires LiveIsNewest(rows)
    ensures var latest := Latest(rows, id);
      && ((latest.Some? && latest.value.Live()) <==> exists i :: 0 <= i < |rows| && rows[i].job == id && rows[i].Live())
      && (forall i :: 0 <= i < |rows| && rows[i].job == id && rows[i].Live() ==> latest == Some(rows[i]))
  {
    var latest := Latest(rows, id);
    forall i | 0 <= i < |rows| && rows[i].job == id && rows[i].Live()
      ensures latest == Some(rows[i])
    {
      var k :| 0 <= k < |rows| && rows[k] == latest.value && rows[k].job == id
                && forall j :: k < j < |rows| ==> rows[j].job != id;
      assert i <= k;
    }
  }

  // --- what unwinding a settlement is for ------------------------------------------

  lemma UnwindingReturnsTheJob(db: DB, id: JobId, relayer: Actor, tx: Bytes)
    requires id in db.records && db.records[id].job.state.Settled?
    ensures var db' := Apply(db, Unwound(id, relayer, tx));
      && id in db'.records && db'.records[id].job.state.Proved?
      && db'.records[id].job.proof == db.records[id].job.proof
      && db'.settlements == StampReorg(db.settlements, id, tx, db.clock)
  {
    assert Step(db.records[id], Call.RecordReorg(relayer), db.clock).Ok?;
  }

  /** Once its one live row is stamped, a job has no live row. */
  lemma StampingEndsLiveRows(rows: seq<Settlement>, id: JobId, tx: Bytes, now: Time, i: nat)
    requires LiveIsNewest(rows) && i < |rows| && rows[i].job == id && rows[i].txHash == tx && rows[i].Live()
    ensures var rows' := StampReorg(rows, id, tx, now);
      forall k :: 0 <= k < |rows'| && rows'[k].job == id ==> !rows'[k].Live()
  {
  }

  lemma StampingFreesTheNullifier(rows: seq<Settlement>, id: JobId, tx: Bytes, now: Time, i: nat)
    requires OneLivePerNullifier(rows)
    requires i < |rows| && rows[i].job == id && rows[i].txHash == tx && rows[i].Live()
    ensures !NullifierTaken(StampReorg(rows, id, tx, now), rows[i].nullifier)
  {
  }

  /** MAIN. A reorg makes room for the settlement to be sent again: the job is
      waiting with its proof, its row is no longer live and counts no confirmation,
      no other row has changed, and a new row for the same nullifier is taken. */
  lemma ReorgsMakeRoom(db: DB, id: JobId, relayer: Actor, tx: Bytes, again: Bytes, i: nat)
    requires OneLivePerNullifier(db.settlements) && LiveIsNewest(db.settlements)
    requires id in db.records && db.records[id].job.state.Settled?
    requires i < |db.settlements|
    requires db.settlements[i].job == id && db.settlements[i].txHash == tx && db.settlements[i].Live()
    ensures var db' := Apply(db, Unwound(id, relayer, tx));
      && id in db'.records && db'.records[id].job.state.Proved?
      && db'.records[id].job.proof == db.records[id].job.proof
      && |db'.settlements| == |db.settlements|
      && (forall k :: 0 <= k < |db.settlements| ==>
            if db.settlements[k].job == id && db.settlements[k].txHash == tx
            then db'.settlements[k].reorgedAt == Some(db.clock) && db'.settlements[k].txHash == tx
                 && (db'.settlements[k].receipt.Some? <==> db.settlements[k].receipt.Some?)
                 && (db'.settlements[k].receipt.Some? ==> db'.settlements[k].receipt.value.confirmations == 0)
            else db'.settlements[k] == db.settlements[k])
      && (forall k :: 0 <= k < |db'.settlements| && db'.settlements[k].job == id ==> !db'.settlements[k].Live())
      && Try(db', Submitted(id, again, db.settlements[i].nullifier)).Ok?
  {
    UnwindingReturnsTheJob(db, id, relayer, tx);
    StampingEndsLiveRows(db.settlements, id, tx, db.clock, i);
    StampingFreesTheNullifier(db.settlements, id, tx, db.clock, i);
  }

  /** A confirmation changes one row: the live one it names. */
  lemma ConfirmationsTouchOneRow(db: DB, id: JobId, relayer: Actor, tx: Bytes, receipt: Receipt, i: nat)
    requires LiveIsNewest(db.settlements) && i < |db.settlements|
    requires id in db.records && db.records[id].job.state.Submitting?
    requires db.settlements[i].job == id && db.settlements[i].txHash == tx && db.settlements[i].Live()
    ensures var rows' := Apply(db, Confirmed(id, relayer, tx, receipt)).settlements;
      rows' == db.settlements[i := db.settlements[i].(receipt := Some(receipt))]
  {
    assert Step(db.records[id], ConfirmSettlement(relayer, None), db.clock).Ok?;
  }

  /** The shared clock never goes back, in any run. */
  lemma {:induction false} TheClockNeverGoesBack(ops: seq<Op>, k: nat)
    requires k <= |ops|
    ensures RunDb(ops[..k]).clock <= RunDb(ops).clock
  {
    if k == |ops| {
      assert ops[..k] == ops;
    } else {
      var prefix := ops[..|ops| - 1];
      assert prefix[..k] == ops[..k];
      TheClockNeverGoesBack(prefix, k);
    }
  }

  // --- circuits ---------------------------------------------------------------

  /** What the last upsert of a circuit said, if there was one. */
  function LastUpsert(ops: seq<Op>, circuit: string): Option<bool> {
    if ops == [] then None
    else
      var last := ops[|ops| - 1];
      if last.UpsertCircuit? && last.circuit == circuit then Some(last.enabled)
      else LastUpsert(ops[..|ops| - 1], circuit)
  }

  lemma OthersKeepCircuits(db: DB, op: Op)
    requires !op.UpsertCircuit?
    ensures Apply(db, op).circuits == db.circuits
  {
  }

  /** In every run a circuit is registered once it has been upserted, and is enabled
      exactly as its last upsert said. */
  lemma {:induction false} CircuitsFollowTheirUpserts(ops: seq<Op>, circuit: string)
    ensures var circuits := RunDb(ops).circuits;
      LastUpsert(ops, circuit) == if circuit in circuits then Some(circuits[circuit]) else None
  {
    if ops != [] {
      CircuitsFollowTheirUpserts(ops[..|ops| - 1], circuit);
      if !ops[|ops| - 1].UpsertCircuit? {
        OthersKeepCircuits(RunDb(ops[..|ops| - 1]), ops[|ops| - 1]);
      }
    }
  }
}
