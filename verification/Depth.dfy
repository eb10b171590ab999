/** How deep a settlement is when it is recorded, and what its receipt says. */
module Depth {
  import opened Basics
  import opened JobMachine
  import opened Records
  import opened History
  import opened Database
  import opened Contract
  import opened Chain
  import opened Relayer
  import opened Settling

  /** The head is far enough above the block, in confirmations that count it. */
  predicate Deep(env: Env, number: int, head: int) {
    env.confirmations <= 1 || head >= number + env.confirmations - 1
  }

  /** A look at `tx`, mined and successful in a block deep enough, and the receipt
      that says so. */
  ghost predicate SawItDeep(env: Env, w: World, a: Act, t: ThreadId, job: JobId, tx: Bytes, receipt: Receipt) {
    && Enabled(env, w, a) && a.Poll? && a.t == t && w.threads[t].job == job && w.threads[t].phase.tx == tx
    && a.sight.Mined? && TxSucceeds(env.verify, env.owner, a.sight.blocks, a.sight.index)
    && Deep(env, |a.sight.blocks| - 1, a.sight.head)
    && receipt.blockNumber == |a.sight.blocks| - 1
    && receipt.confirmations >= 1 && receipt.confirmations >= env.confirmations
    && (a.sight.head >= receipt.blockNumber ==> receipt.confirmations == a.sight.head - receipt.blockNumber + 1)
    && receipt.gasUsed == a.sight.gasUsed && receipt.gasPrice == a.sight.gasPrice
  }

  /** MAIN. Exactly what a look decides: nothing mined, keep watching; reverted, go
      and explain; successful, check that it is canonical exactly when it is deep
      enough, and until then keep watching. */
  lemma LooksDecideExactly(env: Env, w: World, a: Act)
    requires Enabled(env, w, a) && a.Poll?
    ensures var before, after := w.threads[a.t].phase, PhaseAfter(env, w, a);
      && (a.sight.NotMined? ==> after == before)
      && (a.sight.Mined? && !TxSucceeds(env.verify, env.owner, a.sight.blocks, a.sight.index) ==> after.Explaining?)
      && (a.sight.Mined? && TxSucceeds(env.verify, env.owner, a.sight.blocks, a.sight.index) ==>
            if Deep(env, |a.sight.blocks| - 1, a.sight.head)
            then after.Checking? && after.tx == before.tx && after.mined == a.sight.blocks
                 && SawItDeep(env, w, a, a.t, w.threads[a.t].job, after.tx, after.receipt)
            else after == before)
  {
  }

  /** Some act before `k` was such a look. */
  ghost predicate WasSeenDeep(
    env: Env, trace: seq<World>, acts: seq<Act>, k: nat, t: ThreadId, job: JobId, tx: Bytes, receipt: Receipt)
    requires k <= |acts| < |trace|
  {
    exists j :: 0 <= j < k && SawItDeep(env, trace[j], acts[j], t, job, tx, receipt)
  }

  /** Only a deep look leads to checking, and only checking to confirming. */
  lemma ChecksFollowLooks(env: Env, w: World, a: Act, t: ThreadId)
    requires Enabled(env, w, a) && t in Next(env, w, a).threads
    ensures var th := Next(env, w, a).threads[t];
      && (th.phase.Checking? ==>
            (t in w.threads && w.threads[t] == th) || SawItDeep(env, w, a, t, th.job, th.phase.tx, th.phase.receipt))
      && (th.phase.Confirming? ==>
            && t in w.threads && w.threads[t].job == th.job
            && (w.threads[t] == th
                || (w.threads[t].phase.Checking? && w.threads[t].phase.tx == th.phase.tx
                    && w.threads[t].phase.receipt == th.phase.receipt)))
  {
    OthersUntouched(env, w, a, t);
    if ByThread(a) && a.t == t && a.Poll? {
      LooksDecideExactly(env, w, a);
    }
  }

  lemma {:induction false} ThreadsSawItDeep(env: Env, trace: seq<World>, acts: seq<Act>, k: nat, t: ThreadId)
    requires IsRun(env, trace, acts) && k <= |acts| && t in trace[k].threads
    ensures var th := trace[k].threads[t];
      th.phase.Checking? || th.phase.Confirming? ==>
        WasSeenDeep(env, trace, acts, k, t, th.job, th.phase.tx, th.phase.receipt)
  {
    if k > 0 {
      var th := trace[k].threads[t];
      ChecksFollowLooks(env, trace[k - 1], acts[k - 1], t);
      if t in trace[k - 1].threads {
        ThreadsSawItDeep(env, trace, acts, k - 1, t);
      }
    }
  }

  /** MAIN. In every run a settlement is confirmed only by a thread that, earlier in
      that attempt, saw the transaction it follows successful in a block with the
      head at least `confirmations - 1` blocks above it; and the receipt it writes
      says which block, and how deep. */
  lemma ConfirmationsAreDeep(env: Env, trace: seq<World>, acts: seq<Act>, k: nat)
    requires IsRun(env, trace, acts) && k < |acts| && acts[k].Confirm?
    ensures var th := trace[k].threads[acts[k].t];
      WasSeenDeep(env, trace, acts, k, acts[k].t, th.job, th.phase.tx, th.phase.receipt)
  {
    ThreadsSawItDeep(env, trace, acts, k, acts[k].t);
  }

  // --- the rows ---------------------------------------------------------------------

  /** Where a receipt on a live row comes from. */
  lemma ReceiptsAreStamped(db: DB, op: Op, i: nat)
    requires i < |Apply(db, op).settlements|
    requires Apply(db, op).settlements[i].Live() && Apply(db, op).settlements[i].receipt.Some?
    ensures var row := Apply(db, op).settlements[i];
      || (i < |db.settlements| && db.settlements[i].Live() && db.settlements[i].receipt == row.receipt
          && db.settlements[i].job == row.job)
      || (op.Confirmed? && op.id == row.job && op.receipt == row.receipt.value)
  {
  }

  /** A receipt on a live row was there before the act, or the act is the
      confirmation that wrote it. */
  lemma OneActStamps(env: Env, w: World, a: Act, i: nat)
    requires Enabled(env, w, a) && i < |Next(env, w, a).db.settlements|
    requires Next(env, w, a).db.settlements[i].Live() && Next(env, w, a).db.settlements[i].receipt.Some?
    ensures var row := Next(env, w, a).db.settlements[i];
      || (i < |w.db.settlements| && w.db.settlements[i].Live() && w.db.settlements[i].receipt == row.receipt
          && w.db.settlements[i].job == row.job)
      || (a.Confirm? && w.threads[a.t].job == row.job && w.threads[a.t].phase.receipt == row.receipt.value)
  {
    ReceiptsAreStamped(w.db, OpOf(env, w, a), i);
  }

  /** Some thread at this job saw what the receipt says. */
  ghost predicate Attested(env: Env, trace: seq<World>, acts: seq<Act>, k: nat, job: JobId, receipt: Receipt)
    requires k <= |acts| < |trace|
  {
    exists t, tx :: WasSeenDeep(env, trace, acts, k, t, job, tx, receipt)
  }

  lemma AttestedStays(env: Env, trace: seq<World>, acts: seq<Act>, k: nat, job: JobId, receipt: Receipt)
    requires k < |acts| < |trace| && Attested(env, trace, acts, k, job, receipt)
    ensures Attested(env, trace, acts, k + 1, job, receipt)
  {
    var t, tx :| WasSeenDeep(env, trace, acts, k, t, job, tx, receipt);
    var j :| 0 <= j < k && SawItDeep(env, trace[j], acts[j], t, job, tx, receipt);
    assert WasSeenDeep(env, trace, acts, k + 1, t, job, tx, receipt);
  }

  /** MAIN. In every run, every receipt on a live settlement row was seen by a
      thread at that job, names the block it was seen in, and counts at least as
      many confirmations as are required. */
  lemma {:induction false} LiveReceiptsAreDeep(env: Env, trace: seq<World>, acts: seq<Act>, k: nat, i: nat)
    requires IsRun(env, trace, acts) && k <= |acts| && i < |trace[k].db.settlements|
    requires trace[k].db.settlements[i].Live() && trace[k].db.settlements[i].receipt.Some?
    ensures var row := trace[k].db.settlements[i];
      Attested(env, trace, acts, k, row.job, row.receipt.value) && row.receipt.value.confirmations >= env.confirmations
  {
    var row := trace[k].db.settlements[i];
    if k > 0 {
      var w, a := trace[k - 1], acts[k - 1];
      OneActStamps(env, w, a, i);
      if a.Confirm? && w.threads[a.t].job == row.job && w.threads[a.t].phase.receipt == row.receipt.value {
        ConfirmationsAttest(env, trace, acts, k - 1);
      } else {
        LiveReceiptsAreDeep(env, trace, acts, k - 1, i);
      }
      AttestedStays(env, trace, acts, k - 1, row.job, row.receipt.value);
      AttestedIsDeep(env, trace, acts, k, row.job, row.receipt.value);
    }
  }

  lemma {:induction false} ConfirmationsAttest(env: Env, trace: seq<World>, acts: seq<Act>, k: nat)
    requires IsRun(env, trace, acts) && k < |acts| && acts[k].Confirm?
    ensures var th := trace[k].threads[acts[k].t]; Attested(env, trace, acts, k, th.job, th.phase.receipt)
  {
    ConfirmationsAreDeep(env, trace, acts, k);
    var th := trace[k].threads[acts[k].t];
    assert WasSeenDeep(env, trace, acts, k, acts[k].t, th.job, th.phase.tx, th.phase.receipt);
  }

  lemma AttestedIsDeep(env: Env, trace: seq<World>, acts: seq<Act>, k: nat, job: JobId, receipt: Receipt)
    requires k <= |acts| < |trace| && Attested(env, trace, acts, k, job, receipt)
    ensures receipt.confirmations >= env.confirmations
  {
  }
}
