/** Why a relayer does what it does: what must have happened before it broadcasts,
    gives up or marks a job, and what each of these does to the job. */
module Causes {
  import opened Basics
  import opened JobMachine
  import opened Records
  import opened History
  import opened Leases
  import opened Database
  import opened Contract
  import opened Chain
  import opened Relayer
  import opened Settling
  import opened Tracking

  // --- the beginning ------------------------------------------------------------------

  /** The act by which this attempt began: its relayer was granted the submission
      lease, numbered `grant`, while the present chain was number `since`. */
  ghost predicate Begins(w: World, w': World, a: Act, t: ThreadId, th: Thread) {
    && a.Take? && a.t == t && a.id == th.job && a.relayer == th.relayer && th.since == |w.past| - 1
    && th.job in w'.db.records
    && var job := w'.db.records[th.job].job;
       job.state.Submitting? && job.leasedBy == Some(th.relayer) && job.submissionAttempts == th.grant
  }

  lemma OneActBegins(env: Env, w: World, a: Act, t: ThreadId)
    requires Enabled(env, w, a) && t in Next(env, w, a).threads
    ensures var th := Next(env, w, a).threads[t];
      || Begins(w, Next(env, w, a), a, t, th)
      || (t in w.threads && w.threads[t].job == th.job && w.threads[t].relayer == th.relayer
          && w.threads[t].since == th.since && w.threads[t].grant == th.grant)
  {
    OthersUntouched(env, w, a, t);
  }

  /** Every attempt began with the grant of its own lease, and remembers when: what
      is said to happen during an attempt happens after that. */
  lemma {:induction false} AttemptsBeginWithTheirLease(env: Env, trace: seq<World>, acts: seq<Act>, k: nat, t: ThreadId)
    requires IsRun(env, trace, acts) && k <= |acts| && t in trace[k].threads
    ensures exists j :: 0 <= j < k && Begins(trace[j], trace[j + 1], acts[j], t, trace[k].threads[t])
  {
    if k > 0 {
      OneActBegins(env, trace[k - 1], acts[k - 1], t);
      if Begins(trace[k - 1], trace[k], acts[k - 1], t, trace[k].threads[t]) {
        assert Begins(trace[k - 1], trace[k - 1 + 1], acts[k - 1], t, trace[k].threads[t]);
      } else {
        AttemptsBeginWithTheirLease(env, trace, acts, k - 1, t);
        var th, th' := trace[k - 1].threads[t], trace[k].threads[t];
        var j :| 0 <= j < k - 1 && Begins(trace[j], trace[j + 1], acts[j], t, th);
        assert Begins(trace[j], trace[j + 1], acts[j], t, th');
      }
    }
  }

  // --- before a broadcast -------------------------------------------------------------

  /** The thread asked for the newest settlement, and could not read it or found no
      live row of its job. */
  ghost predicate FoundNothingLive(w: World, a: Act, t: ThreadId) {
    && a.ReadLatest? && a.t == t && t in w.threads && w.threads[t].phase.Deciding?
    && (a.failed || forall i :: 0 <= i < |w.db.settlements| && w.db.settlements[i].job == w.threads[t].job ==>
          !w.db.settlements[i].Live())
  }

  predicate OnTheWay(phase: Phase) {
    phase.Probing? || phase.Estimating? || phase.Broadcasting?
  }

  lemma StartsByFinding(env: Env, w: World, a: Act, t: ThreadId)
    requires Enabled(env, w, a) && t in Next(env, w, a).threads && LiveIsNewest(w.db.settlements)
    requires OnTheWay(Next(env, w, a).threads[t].phase)
    ensures FoundNothingLive(w, a, t) || (t in w.threads && OnTheWay(w.threads[t].phase))
  {
    OthersUntouched(env, w, a, t);
    if ByThread(a) && a.t == t && a.ReadLatest? {
      LatestFindsTheLiveRow(w.db.settlements, w.threads[t].job);
    }
  }

  lemma {:induction false} OnTheWayHasFound(env: Env, trace: seq<World>, acts: seq<Act>, k: nat, t: ThreadId)
    requires IsRun(env, trace, acts) && k <= |acts| && t in trace[k].threads && OnTheWay(trace[k].threads[t].phase)
    ensures exists j :: 0 <= j < k && FoundNothingLive(trace[j], acts[j], t)
  {
    if k > 0 {
      RunsKeepWorld(env, trace, acts, k - 1);
      StartsByFinding(env, trace[k - 1], acts[k - 1], t);
      if !FoundNothingLive(trace[k - 1], acts[k - 1], t) {
        OnTheWayHasFound(env, trace, acts, k - 1, t);
      }
    }
  }

  /** MAIN. In every run a relayer broadcasts anew only if, in this attempt, it
      looked for a settlement of the job and found no live row, or could not look:
      a recorded broadcast is resumed, never sent a second time. */
  lemma BroadcastsFollowAnEmptyLook(env: Env, trace: seq<World>, acts: seq<Act>, k: nat)
    requires IsRun(env, trace, acts) && k < |acts| && acts[k].Broadcast?
    ensures exists j :: 0 <= j < k && FoundNothingLive(trace[j], acts[j], acts[k].t)
  {
    OnTheWayHasFound(env, trace, acts, k, acts[k].t);
  }

  /** And what a successful look decides: to follow exactly the live row's
      transaction, when there is one. */
  lemma LooksResume(env: Env, w: World, a: Act, i: nat)
    requires Enabled(env, w, a) && a.ReadLatest? && !a.failed && LiveIsNewest(w.db.settlements)
    requires NullifierOf(w.threads[a.t].inputs).Some?
    requires i < |w.db.settlements| && w.db.settlements[i].Live() && w.db.settlements[i].job == w.threads[a.t].job
    ensures PhaseAfter(env, w, a) == Watching(w.db.settlements[i].txHash, true)
  {
    LatestFindsTheLiveRow(w.db.settlements, w.threads[a.t].job);
  }

  /** Otherwise, the table unread or without a live row, the node is asked. */
  lemma LooksGoOn(env: Env, w: World, a: Act)
    requires Enabled(env, w, a) && a.ReadLatest? && LiveIsNewest(w.db.settlements)
    requires NullifierOf(w.threads[a.t].inputs).Some? && FoundNothingLive(w, a, a.t)
    ensures PhaseAfter(env, w, a).Probing?
  {
    LatestFindsTheLiveRow(w.db.settlements, w.threads[a.t].job);
  }

  /** The node answered this question of the thread with leave to go on. */
  predicate WasFine(a: Act, t: ThreadId, estimating: bool) {
    if estimating then a == Estimate(t, Fine) else a == Probe(t, Fine)
  }

  lemma AsksInOrder(env: Env, w: World, a: Act, t: ThreadId)
    requires Enabled(env, w, a) && t in Next(env, w, a).threads
    ensures var phase := Next(env, w, a).threads[t].phase;
      && (phase.Broadcasting? ==> (t in w.threads && w.threads[t].phase == phase) || WasFine(a, t, true))
      && (phase.Estimating? ==> (t in w.threads && w.threads[t].phase == phase) || WasFine(a, t, false))
    ensures a.Estimate? && a.t == t ==> t in w.threads && w.threads[t].phase.Estimating?
  {
    OthersUntouched(env, w, a, t);
  }

  lemma {:induction false} EstimatesFollowProbes(env: Env, trace: seq<World>, acts: seq<Act>, k: nat, t: ThreadId)
    requires IsRun(env, trace, acts) && k <= |acts| && t in trace[k].threads && trace[k].threads[t].phase.Estimating?
    ensures exists j :: 0 <= j < k && WasFine(acts[j], t, false)
  {
    if k > 0 {
      AsksInOrder(env, trace[k - 1], acts[k - 1], t);
      if !WasFine(acts[k - 1], t, false) {
        EstimatesFollowProbes(env, trace, acts, k - 1, t);
      }
    }
  }

  /** Two earlier acts, in this order. */
  ghost predicate ProbedThenEstimated(acts: seq<Act>, k: nat, t: ThreadId)
    requires k <= |acts|
  {
    exists i, j :: 0 <= i < j < k && WasFine(acts[i], t, false) && WasFine(acts[j], t, true)
  }

  lemma {:induction false} BroadcastingHasAsked(env: Env, trace: seq<World>, acts: seq<Act>, k: nat, t: ThreadId)
    requires IsRun(env, trace, acts) && k <= |acts| && t in trace[k].threads && trace[k].threads[t].phase.Broadcasting?
    ensures ProbedThenEstimated(acts, k, t)
  {
    if k > 0 {
      AsksInOrder(env, trace[k - 1], acts[k - 1], t);
      if WasFine(acts[k - 1], t, true) {
        EstimatesFollowProbes(env, trace, acts, k - 1, t);
      } else {
        BroadcastingHasAsked(env, trace, acts, k - 1, t);
      }
    }
  }

  /** MAIN. In every run a new broadcast comes after the node said, in this attempt,
      first that the nullifier was free and then that the call would go through. */
  lemma BroadcastsAreChecked(env: Env, trace: seq<World>, acts: seq<Act>, k: nat)
    requires IsRun(env, trace, acts) && k < |acts| && acts[k].Broadcast?
    ensures ProbedThenEstimated(acts, k, acts[k].t)
  {
    BroadcastingHasAsked(env, trace, acts, k, acts[k].t);
  }

  // --- before a failure ---------------------------------------------------------------

  /** A reason to record a failure of this kind. */
  ghost predicate Cause(env: Env, w: World, a: Act, t: ThreadId, kind: FailureKind) {
    && Enabled(env, w, a) && ByThread(a) && a.t == t
    && (|| (a.ReadLatest? && NullifierOf(w.threads[t].inputs).None? && kind.Permanent?)
        || (Answered(a) && AnswerOf(a) == Answer.Refused(kind))
        || (a.AskCanonical? && a.canonical == Some(false) && kind.Transient?)
        || (a.Explain? && a.answer.Fine? && kind.Permanent?))
  }

  lemma GivingHasACause(env: Env, w: World, a: Act, t: ThreadId)
    requires Enabled(env, w, a) && t in Next(env, w, a).threads && Next(env, w, a).threads[t].phase.Giving?
    ensures Cause(env, w, a, t, Next(env, w, a).threads[t].phase.kind)
            || (t in w.threads && w.threads[t] == Next(env, w, a).threads[t])
  {
    OthersUntouched(env, w, a, t);
  }

  lemma {:induction false} GivingHadACause(env: Env, trace: seq<World>, acts: seq<Act>, k: nat, t: ThreadId)
    requires IsRun(env, trace, acts) && k <= |acts| && t in trace[k].threads && trace[k].threads[t].phase.Giving?
    ensures exists j :: 0 <= j < k && Cause(env, trace[j], acts[j], t, trace[k].threads[t].phase.kind)
  {
    if k > 0 {
      GivingHasACause(env, trace[k - 1], acts[k - 1], t);
      if !Cause(env, trace[k - 1], acts[k - 1], t, trace[k].threads[t].phase.kind) {
        GivingHadACause(env, trace, acts, k - 1, t);
      }
    }
  }

  /** MAIN. In every run a submission failure is recorded only for a cause met in
      that attempt, and is of its kind: inputs with no nullifier, an answer of that
      kind from the node, a block no longer canonical (never permanent), or a
      reverted transaction whose nullifier is still free. A consumed nullifier is
      never a cause. */
  lemma FailuresHaveACause(env: Env, trace: seq<World>, acts: seq<Act>, k: nat)
    requires IsRun(env, trace, acts) && k < |acts| && acts[k].GiveUp?
    ensures exists j :: 0 <= j < k && Cause(env, trace[j], acts[j], acts[k].t, trace[k].threads[acts[k].t].phase.kind)
  {
    GivingHadACause(env, trace, acts, k, acts[k].t);
  }

  /** Whenever the node says the nullifier is consumed, the job is to be marked. */
  lemma ConsumedIsMarked(env: Env, w: World, a: Act)
    requires Enabled(env, w, a) && ByThread(a) && Answered(a)
    ensures PhaseAfter(env, w, a).Marking? <==> AnswerOf(a).Consumed?
  {
  }

  /** Only a failed transaction is ever explained. */
  lemma OnlyRevertsAreExplained(env: Env, w: World, a: Act, t: ThreadId)
    requires Enabled(env, w, a) && t in Next(env, w, a).threads && Next(env, w, a).threads[t].phase.Explaining?
    ensures (t in w.threads && w.threads[t] == Next(env, w, a).threads[t])
            || (a.Poll? && a.t == t && a.sight.Mined?
                && !TxSucceeds(env.verify, env.owner, a.sight.blocks, a.sight.index))
  {
    OthersUntouched(env, w, a, t);
  }

  /** What asking about the block decides: a canonical one is confirmed, with the
      receipt that was seen; one that is gone ends the attempt, to be tried again;
      and no answer leaves the thread watching the same transaction. */
  lemma AskingDecidesExactly(env: Env, w: World, a: Act)
    requires Enabled(env, w, a) && a.AskCanonical?
    ensures var before, after := w.threads[a.t].phase, PhaseAfter(env, w, a);
      && (after.Confirming? <==> a.canonical == Some(true))
      && (after.Confirming? ==> after.tx == before.tx && after.receipt == before.receipt)
      && (a.canonical == Some(false) <==> after == Giving(Transient))
      && (a.canonical.None? <==> after.Watching?)
      && (after.Watching? ==> after.tx == before.tx && after.recorded == before.recorded)
  {
  }

  // --- what the end of an attempt does ----------------------------------------------------

  /** The row is appended to the audit log of a job. */
  predicate Appends(before: Record, after: Record, actor: Actor, detail: Option<Detail>) {
    && |after.log| == |before.log| + 1 && after.log[..|before.log|] == before.log
    && after.log[|before.log|].actor == actor && after.log[|before.log|].detail == detail
  }

  /** What an attempt's end leaves of the job but its state: nobody holds it, its
      proof is untouched, and the log names the relayer and the reason. */
  predicate Ends(before: Record, after: Record, actor: Actor, detail: Option<Detail>) {
    && after.job.leasedBy.None? && Appends(before, after, actor, detail)
    && after.job.proof == before.job.proof && after.job.publicInputs == before.job.publicInputs
  }

  lemma ConfirmingSettles(db: DB, id: JobId, relayer: Actor, tx: Bytes, receipt: Receipt)
    requires id in db.records && db.records[id].job.state.Submitting?
    ensures var after := Apply(db, Confirmed(id, relayer, tx, receipt)).records;
      id in after && after[id].job.state.Settled? && Ends(db.records[id], after[id], relayer, None)
  {
  }

  lemma MarkingSettles(db: DB, id: JobId, relayer: Actor, note: string)
    requires id in db.records && db.records[id].job.state.Submitting?
    ensures var db' := Apply(db, OneJob(id, ConfirmSettlement(relayer, Some(note))));
      && id in db'.records && db'.records[id].job.state.Settled? && db'.settlements == db.settlements
      && Ends(db.records[id], db'.records[id], relayer, Some(Reported(note)))
  {
  }

  /** The attempts at submitting are used up, or the failure is permanent. */
  predicate IsFinal(job: Job, kind: FailureKind) {
    kind.Permanent? || (job.submissionAttempts >= 1 && job.submissionAttempts >= job.maxAttempts)
  }

  lemma GivingUpReturns(db: DB, id: JobId, report: Call)
    requires id in db.records && db.records[id].job.state.Submitting? && report.RecordSubmissionFailure?
    ensures var db' := Apply(db, OneJob(id, report));
      var before := db.records[id].job;
      && id in db'.records && db'.settlements == db.settlements
      && Ends(db.records[id], db'.records[id], report.relayer, Some(Reported(report.error)))
      && db'.records[id].job.state == (if IsFinal(before, report.kind) then Failed else Proved)
      && db'.records[id].job.retryAfter
         == (if !IsFinal(before, report.kind) && report.retryIn.Some?
             then Some(db.clock + report.retryIn.value) else None)
  {
    FailuresEndAsPromised(db.records[id], report, db.clock);
  }

  /** MAIN. While its lease is current, the end of an attempt reaches the job: a
      confirmation or a mark settles it, and giving up sends it back with its proof,
      after the delay, or fails it for good, exactly as its kind and the budget say;
      and the log says who ended it and why. */
  lemma EndsReachTheJob(env: Env, w: World, a: Act)
    requires Enabled(env, w, a) && (a.Confirm? || a.Mark? || a.GiveUp?)
    requires Current(w.db, w.threads[a.t].job, w.threads[a.t].grant)
    ensures var th := w.threads[a.t];
      var before, after := w.db.records[th.job], Next(env, w, a).db.records;
      && th.job in after
      && Ends(before, after[th.job], th.relayer,
              if a.Confirm? then None
              else Some(Reported(if a.Mark? then "the nullifier was already consumed on chain" else a.error)))
      && (a.Confirm? || a.Mark? ==> after[th.job].job.state.Settled?)
      && (a.GiveUp? ==>
            && after[th.job].job.state == (if IsFinal(before.job, th.phase.kind) then Failed else Proved)
            && after[th.job].job.retryAfter
               == (if !IsFinal(before.job, th.phase.kind) && a.retryIn.Some?
                   then Some(w.db.clock + a.retryIn.value) else None))
      && (a.Mark? || a.GiveUp? ==> Next(env, w, a).db.settlements == w.db.settlements)
  {
    var th, db := w.threads[a.t], w.db;
    if a.Confirm? {
      ConfirmingSettles(db, th.job, th.relayer, th.phase.tx, th.phase.receipt);
    } else if a.Mark? {
      MarkingSettles(db, th.job, th.relayer, ALREADY);
    } else {
      GivingUpReturns(db, th.job, RecordSubmissionFailure(th.relayer, th.phase.kind, a.error, a.retryIn));
    }
  }
}
