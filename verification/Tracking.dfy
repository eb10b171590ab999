/** What the settlement row says while a relayer tracks a transaction.

    Nothing stops a relayer whose lease was reaped from acting until its next
    heartbeat. Only one of its acts can hurt: a rename of the row that reaches
    the table. A run is fenced for a job when every such rename of that job is
    made under its current lease. */
module Tracking {
  import opened Basics
  import opened JobMachine
  import opened Records
  import opened History
  import opened Database
  import opened Chain
  import opened Relayer
  import opened Settling

  /** The thread's lease is the job's current submission lease. */
  predicate Current(db: DB, id: JobId, grant: int) {
    id in db.records && db.records[id].job.state.Submitting? && db.records[id].job.submissionAttempts == grant
  }

  ghost predicate Fenced(w: World, a: Act, id: JobId) {
    a.Rename? && a.reached && a.t in w.threads && w.threads[a.t].job == id ==>
      Current(w.db, id, w.threads[a.t].grant)
  }

  /** A run whose first `k` acts are fenced for one job. */
  ghost predicate IsFencedRun(env: Env, trace: seq<World>, acts: seq<Act>, k: nat, id: JobId) {
    IsRun(env, trace, acts) && k <= |acts| && forall i :: 0 <= i < k ==> Fenced(trace[i], acts[i], id)
  }

  ghost predicate HasLive(rows: seq<Settlement>, id: JobId, tx: Bytes) {
    exists i :: 0 <= i < |rows| && rows[i].job == id && rows[i].Live() && rows[i].txHash == tx
  }

  /** The hash the live row should name, when every write so far was taken. */
  function Followed(phase: Phase): Option<Bytes> {
    match phase
    case Watching(tx, recorded) => if recorded then Some(tx) else None
    case Renaming(tx, _, recorded) => if recorded then Some(tx) else None
    case Checking(tx, recorded, _, _) => if recorded then Some(tx) else None
    case Confirming(tx, recorded, _) => if recorded then Some(tx) else None
    case _ => None
  }

  ghost predicate RowFollows(db: DB, th: Thread) {
    Current(db, th.job, th.grant) && Followed(th.phase).Some? ==>
      HasLive(db.settlements, th.job, Followed(th.phase).value)
  }

  ghost predicate GrantOk(db: DB, th: Thread) {
    th.job in db.records && th.grant <= db.records[th.job].job.submissionAttempts
  }

  ghost predicate GrantsOk(w: World) {
    && (forall t :: t in w.threads ==> GrantOk(w.db, w.threads[t]))
    && (forall t, u :: t in w.threads && u in w.threads && t != u && w.threads[t].job == w.threads[u].job ==>
          w.threads[t].grant != w.threads[u].grant)
  }

  ghost predicate TrackOk(w: World, id: JobId) {
    forall t :: t in w.threads && w.threads[t].job == id ==> RowFollows(w.db, w.threads[t])
  }

  /** Submission leases are numbered: the count never falls, and a job enters
      `submitting` only with a new number. */
  lemma GrantsAreNumbered(r: Record, call: Call, now: Time)
    requires Step(r, call, now).Ok?
    ensures var r' := Step(r, call, now).value;
      && r'.job.submissionAttempts >= r.job.submissionAttempts
      && (r'.job.state.Submitting? && !r.job.state.Submitting? ==> r'.job.submissionAttempts > r.job.submissionAttempts)
      && (call.LeaseProved? ==> r'.job.submissionAttempts == r.job.submissionAttempts + 1)
  {
  }

  lemma CurrentWasCurrent(db: DB, op: Op, id: JobId, grant: int)
    requires id in db.records && grant <= db.records[id].job.submissionAttempts
    ensures id in Apply(db, op).records && grant <= Apply(db, op).records[id].job.submissionAttempts
    ensures Current(Apply(db, op), id, grant) ==> Current(db, id, grant)
  {
    OneTransactionOneCall(db, op, id);
    if Apply(db, op).records[id] != db.records[id] {
      var call :| Step(db.records[id], call, db.clock) == Ok(Apply(db, op).records[id]);
      GrantsAreNumbered(db.records[id], call, db.clock);
    }
  }

  /** While a job is being submitted, only a `Replaced` for that job can change
      which transaction its live row names. */
  lemma LiveRowsSurvive(db: DB, op: Op, id: JobId, tx: Bytes)
    requires id in db.records && db.records[id].job.state.Submitting?
    requires HasLive(db.settlements, id, tx)
    requires op.Replaced? ==> op.id != id
    ensures HasLive(Apply(db, op).settlements, id, tx)
  {
    var rows, rows' := db.settlements, Apply(db, op).settlements;
    var i :| 0 <= i < |rows| && rows[i].job == id && rows[i].Live() && rows[i].txHash == tx;
    RowsAreStable(db, op);
    if op.Unwound? && op.id == id {
      assert Step(db.records[id], RecordReorg(op.relayer), db.clock).Err?;
    }
    assert rows'[i].job == id && rows'[i].Live() && rows'[i].txHash == tx;
  }

  lemma RenamingMovesTheRow(db: DB, id: JobId, fromTx: Bytes, toTx: Bytes)
    requires HasLive(db.settlements, id, fromTx)
    ensures HasLive(Apply(db, Replaced(id, fromTx, toTx)).settlements, id, toTx)
  {
    var rows' := Apply(db, Replaced(id, fromTx, toTx)).settlements;
    var i :| 0 <= i < |db.settlements| && db.settlements[i].job == id && db.settlements[i].Live()
             && db.settlements[i].txHash == fromTx;
    assert rows'[i].job == id && rows'[i].Live() && rows'[i].txHash == toTx;
  }

  lemma RecordingAddsTheRow(db: DB, id: JobId, tx: Bytes, nullifier: Bytes)
    requires Try(db, Submitted(id, tx, nullifier)).Ok?
    ensures HasLive(Apply(db, Submitted(id, tx, nullifier)).settlements, id, tx)
  {
    var rows' := Apply(db, Submitted(id, tx, nullifier)).settlements;
    assert rows'[|rows'| - 1] == Settlement(id, tx, nullifier, None, None);
  }

  lemma LatestIsLive(rows: seq<Settlement>, id: JobId)
    requires LiveIsNewest(rows)
    ensures var latest := Latest(rows, id);
      latest.Some? && latest.value.Live() ==> HasLive(rows, id, latest.value.txHash)
  {
    LatestFindsTheLiveRow(rows, id);
  }

  lemma ActsKeepGrants(env: Env, w: World, a: Act)
    requires GrantsOk(w) && Enabled(env, w, a)
    ensures GrantsOk(Next(env, w, a))
  {
    var w' := Next(env, w, a);
    var op := OpOf(env, w, a);
    if a.Take? {
      GrantsAreNumbered(w.db.records[a.id], LeaseProved(a.relayer, a.ttl), w.db.clock);
    }
    forall t | t in w.threads
      ensures GrantOk(w'.db, w.threads[t])
    {
      CurrentWasCurrent(w.db, op, w.threads[t].job, w.threads[t].grant);
    }
  }

  lemma {:induction false} RunsKeepGrants(env: Env, trace: seq<World>, acts: seq<Act>, k: nat)
    requires IsRun(env, trace, acts) && k <= |acts|
    ensures GrantsOk(trace[k])
  {
    if k > 0 {
      RunsKeepGrants(env, trace, acts, k - 1);
      ActsKeepGrants(env, trace[k - 1], acts[k - 1]);
    }
  }

  /** Acts of a thread that write nothing, and what it then follows. */
  lemma IdleActsFollowOn(env: Env, w: World, a: Act)
    requires Enabled(env, w, a) && ByThread(a) && !a.ReadLatest? && !a.Record? && !a.Rename?
    ensures Followed(PhaseAfter(env, w, a)).Some? ==>
      Followed(PhaseAfter(env, w, a)) == Followed(w.threads[a.t].phase) && OpOf(env, w, a) == Tick(w.db.clock)
  {
  }

  lemma RecordingsKeepRow(env: Env, w: World, a: Act)
    requires Enabled(env, w, a) && a.Record?
    ensures Followed(PhaseAfter(env, w, a)).Some? ==>
      HasLive(Apply(w.db, OpOf(env, w, a)).settlements, w.threads[a.t].job, Followed(PhaseAfter(env, w, a)).value)
  {
    var th := w.threads[a.t];
    if Followed(PhaseAfter(env, w, a)).Some? {
      RecordingAddsTheRow(w.db, th.job, th.phase.tx, NullifierOf(th.inputs).value);
    }
  }

  lemma RenamesKeepRow(env: Env, w: World, a: Act)
    requires Enabled(env, w, a) && a.Rename?
    requires Followed(w.threads[a.t].phase).Some? ==>
      HasLive(w.db.settlements, w.threads[a.t].job, Followed(w.threads[a.t].phase).value)
    ensures Followed(PhaseAfter(env, w, a)).Some? ==>
      HasLive(Apply(w.db, OpOf(env, w, a)).settlements, w.threads[a.t].job, Followed(PhaseAfter(env, w, a)).value)
  {
    var th := w.threads[a.t];
    if Followed(PhaseAfter(env, w, a)).Some? {
      RenamingMovesTheRow(w.db, th.job, th.phase.tx, th.phase.replacement);
    }
  }

  /** The acting thread's own step, if its lease is still current after it. */
  lemma ActorsKeepRow(env: Env, w: World, a: Act)
    requires Enabled(env, w, a) && ByThread(a)
    requires RowFollows(w.db, w.threads[a.t]) && LiveIsNewest(w.db.settlements) && GrantOk(w.db, w.threads[a.t])
    ensures RowFollows(Next(env, w, a).db, Next(env, w, a).threads[a.t])
  {
    var th := w.threads[a.t];
    CurrentWasCurrent(w.db, OpOf(env, w, a), th.job, th.grant);
    if Current(w.db, th.job, th.grant) {
      if a.ReadLatest? {
        LatestIsLive(w.db.settlements, th.job);
      } else if a.Record? {
        RecordingsKeepRow(env, w, a);
      } else if a.Rename? {
        RenamesKeepRow(env, w, a);
      } else {
        IdleActsFollowOn(env, w, a);
      }
    }
  }

  /** Another thread's rename takes the row from under a thread following `tx`. */
  predicate RenamesAway(w: World, a: Act, id: JobId, tx: Bytes) {
    a.Rename? && a.reached && a.t in w.threads
    && var th := w.threads[a.t];
       th.phase.Renaming? && th.job == id && th.phase.tx == tx && th.phase.replacement != tx
  }

  lemma NoOtherLiveRow(rows: seq<Settlement>, id: JobId, tx: Bytes, other: Bytes)
    requires LiveIsNewest(rows) && HasLive(rows, id, tx) && HasLive(rows, id, other)
    ensures tx == other
  {
  }

  lemma RenamesElsewhereKeepTheRow(db: DB, id: JobId, tx: Bytes, other: JobId, fromTx: Bytes, toTx: Bytes)
    requires HasLive(db.settlements, id, tx)
    requires other != id || fromTx != tx || toTx == tx
    ensures HasLive(Apply(db, Replaced(other, fromTx, toTx)).settlements, id, tx)
  {
    var rows' := Apply(db, Replaced(other, fromTx, toTx)).settlements;
    var i :| 0 <= i < |db.settlements| && db.settlements[i].job == id && db.settlements[i].Live()
             && db.settlements[i].txHash == tx;
    assert rows'[i].job == id && rows'[i].Live() && rows'[i].txHash == tx;
  }

  /** A step of somebody else, while the job is being submitted. */
  lemma OthersKeepTheRow(env: Env, w: World, a: Act, id: JobId, tx: Bytes)
    requires Enabled(env, w, a) && id in w.db.records && w.db.records[id].job.state.Submitting?
    requires HasLive(w.db.settlements, id, tx) && LiveIsNewest(Next(env, w, a).db.settlements)
    ensures HasLive(Next(env, w, a).db.settlements, id, tx) <==> !RenamesAway(w, a, id, tx)
  {
    var op := OpOf(env, w, a);
    if op.Replaced? {
      if RenamesAway(w, a, id, tx) {
        RenamingMovesTheRow(w.db, id, tx, op.toTx);
        if HasLive(Apply(w.db, op).settlements, id, tx) {
          NoOtherLiveRow(Apply(w.db, op).settlements, id, tx, op.toTx);
        }
      } else {
        RenamesElsewhereKeepTheRow(w.db, id, tx, op.id, op.fromTx, op.toTx);
      }
    } else {
      LiveRowsSurvive(w.db, op, id, tx);
    }
  }

  /** MAIN. Exactly when a row is lost, in any run at all: while a thread's lease
      is current and the live row names the transaction it follows, the next act
      of anyone else leaves it so, unless that act is the rename of this very
      transaction by another thread. */
  lemma OnlyAnotherRenameLosesTheRow(
    env: Env, trace: seq<World>, acts: seq<Act>, k: nat, t: ThreadId, tx: Bytes)
    requires IsRun(env, trace, acts) && k < |acts|
    requires t in trace[k].threads && (ByThread(acts[k]) ==> acts[k].t != t)
    requires Followed(trace[k].threads[t].phase) == Some(tx)
    requires HasLive(trace[k].db.settlements, trace[k].threads[t].job, tx)
    requires Current(trace[k + 1].db, trace[k].threads[t].job, trace[k].threads[t].grant)
    ensures HasLive(trace[k + 1].db.settlements, trace[k].threads[t].job, tx)
       <==> !RenamesAway(trace[k], acts[k], trace[k].threads[t].job, tx)
  {
    RunsKeepGrants(env, trace, acts, k);
    RunsKeepWorld(env, trace, acts, k + 1);
    var w, th := trace[k], trace[k].threads[t];
    CurrentWasCurrent(w.db, OpOf(env, w, acts[k]), th.job, th.grant);
    OthersKeepTheRow(env, w, acts[k], th.job, tx);
  }

  /** In a fenced step no other thread can be the one to rename: two threads of
      one job never hold one lease. */
  lemma FencedOthersDoNotRename(w: World, a: Act, t: ThreadId, tx: Bytes)
    requires GrantsOk(w) && t in w.threads && Fenced(w, a, w.threads[t].job) && (ByThread(a) ==> a.t != t)
    requires Current(w.db, w.threads[t].job, w.threads[t].grant)
    ensures !RenamesAway(w, a, w.threads[t].job, tx)
  {
  }

  lemma OthersKeepRow(env: Env, w: World, a: Act, t: ThreadId)
    requires GrantsOk(w) && Enabled(env, w, a) && t in w.threads && Fenced(w, a, w.threads[t].job)
    requires RowFollows(w.db, w.threads[t]) && (ByThread(a) ==> a.t != t)
    requires LiveIsNewest(Next(env, w, a).db.settlements)
    ensures RowFollows(Next(env, w, a).db, w.threads[t])
  {
    var th := w.threads[t];
    var op := OpOf(env, w, a);
    CurrentWasCurrent(w.db, op, th.job, th.grant);
    if Current(Apply(w.db, op), th.job, th.grant) && Followed(th.phase).Some? {
      FencedOthersDoNotRename(w, a, t, Followed(th.phase).value);
      OthersKeepTheRow(env, w, a, th.job, Followed(th.phase).value);
    }
  }

  lemma FencedActsKeepTrack(env: Env, w: World, a: Act, id: JobId)
    requires GrantsOk(w) && TrackOk(w, id) && Enabled(env, w, a) && Fenced(w, a, id)
    requires LiveIsNewest(w.db.settlements) && LiveIsNewest(Next(env, w, a).db.settlements)
    ensures TrackOk(Next(env, w, a), id)
  {
    var w' := Next(env, w, a);
    forall t | t in w'.threads && w'.threads[t].job == id
      ensures RowFollows(w'.db, w'.threads[t])
    {
      OthersUntouched(env, w, a, t);
      if ByThread(a) && a.t == t {
        ActorsKeepRow(env, w, a);
      } else if t in w.threads && w'.threads[t] == w.threads[t] {
        OthersKeepRow(env, w, a, t);
      }
    }
  }

  lemma {:induction false} FencedRunsKeepTrack(env: Env, trace: seq<World>, acts: seq<Act>, k: nat, id: JobId)
    requires IsFencedRun(env, trace, acts, k, id)
    ensures TrackOk(trace[k], id)
  {
    if k > 0 {
      FencedRunsKeepTrack(env, trace, acts, k - 1, id);
      RunsKeepGrants(env, trace, acts, k - 1);
      RunsKeepWorld(env, trace, acts, k - 1);
      RunsKeepWorld(env, trace, acts, k);
      FencedActsKeepTrack(env, trace[k - 1], acts[k - 1], id);
    }
  }

  /** MAIN. In every run in which only renames of this job are fenced, and
      threads may otherwise be as stale as they like: while a thread's lease is
      current and its writes were taken, the job has exactly one live row, it is
      the newest, and it names exactly the transaction the thread follows. */
  lemma TheLiveRowNamesTheTrackedTransaction(
    env: Env, trace: seq<World>, acts: seq<Act>, k: nat, t: ThreadId)
    requires k < |trace| && t in trace[k].threads
    requires IsFencedRun(env, trace, acts, k, trace[k].threads[t].job)
    requires Current(trace[k].db, trace[k].threads[t].job, trace[k].threads[t].grant)
    requires Followed(trace[k].threads[t].phase).Some?
    ensures var rows, th := trace[k].db.settlements, trace[k].threads[t];
      && HasLive(rows, th.job, Followed(th.phase).value)
      && (forall i :: 0 <= i < |rows| && rows[i].job == th.job && rows[i].Live() ==>
            rows[i].txHash == Followed(th.phase).value)
      && Latest(rows, th.job).Some? && Latest(rows, th.job).value.Live()
      && Latest(rows, th.job).value.txHash == Followed(th.phase).value
  {
    var rows, th := trace[k].db.settlements, trace[k].threads[t];
    FencedRunsKeepTrack(env, trace, acts, k, th.job);
    RunsKeepWorld(env, trace, acts, k);
    assert RowFollows(trace[k].db, th);
    LatestFindsTheLiveRow(rows, th.job);
  }

  ghost predicate HasReceipt(rows: seq<Settlement>, id: JobId, tx: Bytes, receipt: Receipt) {
    exists i :: 0 <= i < |rows| && rows[i].job == id && rows[i].Live() && rows[i].txHash == tx
                && rows[i].receipt == Some(receipt)
  }

  lemma StampedRow(db: DB, id: JobId, relayer: Actor, tx: Bytes, receipt: Receipt)
    requires HasLive(db.settlements, id, tx)
    requires id in db.records && db.records[id].job.state.Submitting?
    ensures var db' := Apply(db, Confirmed(id, relayer, tx, receipt));
      id in db'.records && db'.records[id].job.state.Settled? && HasReceipt(db'.settlements, id, tx, receipt)
  {
    var rows' := Apply(db, Confirmed(id, relayer, tx, receipt)).settlements;
    var i :| 0 <= i < |db.settlements| && db.settlements[i].job == id && db.settlements[i].Live()
             && db.settlements[i].txHash == tx;
    assert Step(db.records[id], ConfirmSettlement(relayer, None), db.clock).Ok?;
    assert rows'[i].receipt == Some(receipt) && rows'[i].Live() && rows'[i].job == id && rows'[i].txHash == tx;
  }

  lemma OneConfirmationReachesTheRow(env: Env, w: World, a: Act)
    requires Enabled(env, w, a) && a.Confirm? && w.threads[a.t].phase.recorded
    requires Current(w.db, w.threads[a.t].job, w.threads[a.t].grant) && RowFollows(w.db, w.threads[a.t])
    ensures var th, db' := w.threads[a.t], Next(env, w, a).db;
      && th.job in db'.records && db'.records[th.job].job.state.Settled?
      && HasReceipt(db'.settlements, th.job, th.phase.tx, th.phase.receipt)
  {
    var th := w.threads[a.t];
    StampedRow(w.db, th.job, th.relayer, th.phase.tx, th.phase.receipt);
  }

  /** MAIN. So a confirmation under a current lease is never lost on a stale
      hash: it settles the job and stamps its receipt on the live row. */
  lemma ConfirmationsReachTheRow(env: Env, trace: seq<World>, acts: seq<Act>, k: nat)
    requires IsRun(env, trace, acts) && k < |acts| && acts[k].Confirm?
    requires IsFencedRun(env, trace, acts, k, trace[k].threads[acts[k].t].job)
    requires Current(trace[k].db, trace[k].threads[acts[k].t].job, trace[k].threads[acts[k].t].grant)
    requires trace[k].threads[acts[k].t].phase.recorded
    ensures var th, db' := trace[k].threads[acts[k].t], trace[k + 1].db;
      && th.job in db'.records && db'.records[th.job].job.state.Settled?
      && HasReceipt(db'.settlements, th.job, th.phase.tx, th.phase.receipt)
  {
    FencedRunsKeepTrack(env, trace, acts, k, trace[k].threads[acts[k].t].job);
    OneConfirmationReachesTheRow(env, trace[k], acts[k]);
  }
}
