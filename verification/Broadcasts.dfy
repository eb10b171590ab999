/** What relayers broadcast: every transaction followed for a job, and every one
    its settlement rows name, is the job's own call. */
module Broadcasts {
  import opened Basics
  import opened JobMachine
  import opened Records
  import opened History
  import opened Database
  import opened Contract
  import opened Chain
  import opened Relayer
  import opened Settling

  /** The transaction settles this job: its circuit, its proof, its inputs. */
  ghost predicate SettlesJob(env: Env, sent: map<Bytes, Message>, tx: Bytes, job: Job) {
    && Proven(job) && |job.publicInputs.value| % 32 == 0
    && tx in sent
    && sent[tx].action == Contract.Settle(env.circuitId(job.circuit), job.proof.value, Words(job.publicInputs.value))
  }

  ghost predicate SettlesRow(env: Env, w: World, tx: Bytes, id: JobId) {
    id in w.db.records && SettlesJob(env, w.sent, tx, w.db.records[id].job)
  }

  /** The thread holds what the job's row holds. */
  ghost predicate HoldsJob(w: World, th: Thread) {
    && Owns(w, th.job, th.inputs)
    && w.db.records[th.job].job.proof == Some(th.proof) && w.db.records[th.job].job.circuit == th.circuit
  }

  /** The transactions a thread has in hand. */
  function InHand(phase: Phase): set<Bytes> {
    match phase
    case Recording(tx) => {tx}
    case Watching(tx, _) => {tx}
    case Renaming(tx, replacement, _) => {tx, replacement}
    case Checking(tx, _, _, _) => {tx}
    case Confirming(tx, _, _) => {tx}
    case _ => {}
  }

  ghost predicate ThreadSettles(env: Env, w: World, th: Thread) {
    HoldsJob(w, th) && forall tx :: tx in InHand(th.phase) ==> SettlesRow(env, w, tx, th.job)
  }

  ghost predicate AllSettle(env: Env, w: World) {
    && (forall t :: t in w.threads ==> ThreadSettles(env, w, w.threads[t]))
    && (forall i :: 0 <= i < |w.db.settlements| ==>
          SettlesRow(env, w, w.db.settlements[i].txHash, w.db.settlements[i].job))
  }

  // --- what stays -----------------------------------------------------------------------

  lemma StepKeepsCircuit(r: Record, call: Call, now: Time)
    requires Step(r, call, now).Ok?
    ensures Step(r, call, now).value.job.circuit == r.job.circuit
  {
  }

  lemma CircuitsStay(db: DB, op: Op, id: JobId)
    requires id in db.records
    ensures id in Apply(db, op).records && Apply(db, op).records[id].job.circuit == db.records[id].job.circuit
  {
    OneTransactionOneCall(db, op, id);
    if Apply(db, op).records[id] != db.records[id] {
      var call :| Step(db.records[id], call, db.clock) == Ok(Apply(db, op).records[id]);
      StepKeepsCircuit(db.records[id], call, db.clock);
    }
  }

  /** Nothing a proven job's call is made of ever changes. */
  lemma CallsStay(env: Env, w: World, a: Act, id: JobId)
    requires Enabled(env, w, a) && id in w.db.records && Proven(w.db.records[id].job)
    ensures var before, after := w.db.records[id].job, Next(env, w, a).db.records;
      && id in after && Proven(after[id].job) && after[id].job.circuit == before.circuit
      && after[id].job.proof == before.proof && after[id].job.publicInputs == before.publicInputs
  {
    ApplyKeepsProof(w.db, OpOf(env, w, a), id);
    CircuitsStay(w.db, OpOf(env, w, a), id);
  }

  lemma BroadcastsStay(env: Env, w: World, a: Act, tx: Bytes)
    requires Enabled(env, w, a) && tx in w.sent
    ensures tx in Next(env, w, a).sent && Next(env, w, a).sent[tx] == w.sent[tx]
  {
  }

  lemma SettlingStays(env: Env, w: World, a: Act, tx: Bytes, id: JobId)
    requires Enabled(env, w, a) && SettlesRow(env, w, tx, id)
    ensures SettlesRow(env, Next(env, w, a), tx, id)
  {
    CallsStay(env, w, a, id);
    BroadcastsStay(env, w, a, tx);
  }

  // --- what is new ----------------------------------------------------------------------

  lemma NewBroadcastsSettle(env: Env, w: World, a: Act)
    requires Enabled(env, w, a) && (a.Resubmit? || (a.Broadcast? && a.answer.Fine?))
    requires HoldsJob(w, w.threads[a.t])
    ensures SettlesRow(env, Next(env, w, a), a.tx, w.threads[a.t].job)
  {
    CallsStay(env, w, a, w.threads[a.t].job);
  }

  /** Where the transactions in hand come from. */
  lemma InHandComesFrom(env: Env, w: World, a: Act, tx: Bytes)
    requires Enabled(env, w, a) && ByThread(a) && tx in InHand(PhaseAfter(env, w, a))
    ensures tx in InHand(w.threads[a.t].phase)
            || ((a.Resubmit? || (a.Broadcast? && a.answer.Fine?)) && tx == a.tx)
            || (a.ReadLatest? && var latest := Latest(w.db.settlements, w.threads[a.t].job);
                                 latest.Some? && latest.value.txHash == tx)
  {
  }

  lemma ActorsSettle(env: Env, w: World, a: Act)
    requires Enabled(env, w, a) && ByThread(a) && AllSettle(env, w)
    ensures ThreadSettles(env, Next(env, w, a), Next(env, w, a).threads[a.t])
  {
    var th := w.threads[a.t];
    CallsStay(env, w, a, th.job);
    forall tx | tx in InHand(PhaseAfter(env, w, a))
      ensures SettlesRow(env, Next(env, w, a), tx, th.job)
    {
      InHandComesFrom(env, w, a, tx);
      if tx in InHand(th.phase) {
        SettlingStays(env, w, a, tx, th.job);
      } else if a.ReadLatest? {
        LatestIsARow(w.db.settlements, th.job);
        SettlingStays(env, w, a, tx, th.job);
      } else {
        NewBroadcastsSettle(env, w, a);
      }
    }
  }

  lemma LatestIsARow(rows: seq<Settlement>, id: JobId)
    ensures var latest := Latest(rows, id);
      latest.Some? ==> exists i :: 0 <= i < |rows| && rows[i] == latest.value && rows[i].job == id
  {
  }

  lemma TakersHoldTheirJob(env: Env, w: World, a: Act)
    requires Enabled(env, w, a) && a.Take? && Sound(w.db.records[a.id])
    ensures ThreadSettles(env, Next(env, w, a), Next(env, w, a).threads[a.t])
  {
  }

  lemma ThreadsKeepSettling(env: Env, w: World, a: Act, t: ThreadId)
    requires WorldOk(env, w) && AllSettle(env, w) && Enabled(env, w, a) && t in Next(env, w, a).threads
    ensures ThreadSettles(env, Next(env, w, a), Next(env, w, a).threads[t])
  {
    OthersUntouched(env, w, a, t);
    if t in w.threads && Next(env, w, a).threads[t] == w.threads[t] {
      var th := w.threads[t];
      CallsStay(env, w, a, th.job);
      forall tx | tx in InHand(th.phase)
        ensures SettlesRow(env, Next(env, w, a), tx, th.job)
      {
        SettlingStays(env, w, a, tx, th.job);
      }
    } else if a.Take? {
      TakersHoldTheirJob(env, w, a);
    } else {
      ActorsSettle(env, w, a);
    }
  }

  /** Where a row's hash comes from: it was there, or a thread at the row's job
      wrote one it had in hand. */
  lemma RowsComeFrom(env: Env, w: World, a: Act, i: nat)
    requires Enabled(env, w, a) && i < |Next(env, w, a).db.settlements|
    ensures var row := Next(env, w, a).db.settlements[i];
      || (i < |w.db.settlements| && w.db.settlements[i].job == row.job && w.db.settlements[i].txHash == row.txHash)
      || (ByThread(a) && w.threads[a.t].job == row.job && row.txHash in InHand(w.threads[a.t].phase))
  {
    RowsAreStable(w.db, OpOf(env, w, a));
  }

  lemma ActsKeepSettling(env: Env, w: World, a: Act)
    requires WorldOk(env, w) && AllSettle(env, w) && Enabled(env, w, a)
    ensures AllSettle(env, Next(env, w, a))
  {
    var w' := Next(env, w, a);
    forall t | t in w'.threads
      ensures ThreadSettles(env, w', w'.threads[t])
    {
      ThreadsKeepSettling(env, w, a, t);
    }
    forall i | 0 <= i < |w'.db.settlements|
      ensures SettlesRow(env, w', w'.db.settlements[i].txHash, w'.db.settlements[i].job)
    {
      RowsComeFrom(env, w, a, i);
      SettlingStays(env, w, a, w'.db.settlements[i].txHash, w'.db.settlements[i].job);
    }
  }

  /** MAIN. In every run of any relayers, with resumes, replacements and
      reorganisations: every transaction a thread has in hand, and every one a
      settlement row names, is a call of `settle` with exactly that job's circuit,
      proof and public inputs. */
  lemma {:induction false} BroadcastsAreTheJobsOwn(env: Env, trace: seq<World>, acts: seq<Act>, k: nat)
    requires IsRun(env, trace, acts) && k <= |acts|
    ensures AllSettle(env, trace[k])
  {
    if k > 0 {
      BroadcastsAreTheJobsOwn(env, trace, acts, k - 1);
      RunsKeepWorld(env, trace, acts, k - 1);
      ActsKeepSettling(env, trace[k - 1], acts[k - 1]);
    }
  }
}
