/** Safety of settlement over whole runs: nothing is ever recorded as settled
    without the chain having said so during that attempt. */
module Settling {
  import opened Basics
  import opened JobMachine
  import opened Records
  import opened History
  import opened Database
  import opened Contract
  import opened Chain
  import opened Relayer

  lemma NewWitness(env: Env, w: World, th: Thread)
    requires w.past != [] && th.since < |w.past|
    requires NullifierOf(th.inputs).Some? && IsUsed(env, w, NullifierOf(th.inputs).value)
    ensures Witnessed(env, w, th.since, th.inputs)
  {
    assert w.past[|w.past| - 1] == Now(w);
  }

  /** `confirm` checks canonicality last: a successful receipt in a block that is
      canonical now puts the nullifier in the fold now. */
  lemma CanonicalityIsAWitness(env: Env, w: World, th: Thread)
    requires w.past != [] && ThreadOk(env, w, th) && th.phase.Checking? && th.phase.mined <= Now(w)
    ensures IsUsed(env, w, NullifierOf(th.inputs).value)
  {
    var blocks, k := Now(w), |th.phase.mined|;
    assert blocks[..k] == th.phase.mined && blocks[k - 1] == th.phase.mined[k - 1];
    var i :| 0 <= i < |th.phase.mined[k - 1].txs| && th.phase.mined[k - 1].txs[i].message == w.sent[th.phase.tx]
             && TxSucceeds(env.verify, env.owner, th.phase.mined, i);
    CanonicalReceiptsAreInTheFold(env.verify, env.owner, blocks, k, i);
    NullifierIsTheLastWord(th.inputs);
  }

  lemma ActsCommitTheirOp(env: Env, w: World, a: Act)
    requires Enabled(env, w, a)
    ensures Next(env, w, a).db == Apply(w.db, OpOf(env, w, a))
    ensures Grew(w, Next(env, w, a))
  {
    TransactionsGrow(w, Next(env, w, a), OpOf(env, w, a));
  }

  lemma RowsKeepCarrying(w: World, w': World, op: Op)
    requires RowsCarry(w) && Grew(w, w') && w'.db == Apply(w.db, op)
    requires op.Submitted? ==> exists inputs :: Owns(w, op.id, inputs) && Carries(w', op.txHash, inputs)
    requires op.Replaced? ==> exists inputs :: Owns(w, op.id, inputs) && Carries(w', op.toTx, inputs)
    ensures RowsCarry(w')
  {
    RowsAreStable(w.db, op);
    forall i | 0 <= i < |w'.db.settlements|
      ensures var row := w'.db.settlements[i];
        row.job in w'.db.records && Proven(w'.db.records[row.job].job)
        && Carries(w', row.txHash, w'.db.records[row.job].job.publicInputs.value)
    {
      if i < |w.db.settlements| {
        var row := w.db.settlements[i];
        assert Carries(w, row.txHash, w.db.records[row.job].job.publicInputs.value);
        assert w'.db.settlements[i].job == row.job;
        assert w'.db.settlements[i].txHash == row.txHash
               || (op.Replaced? && op.id == row.job && w'.db.settlements[i].txHash == op.toTx);
      }
    }
  }

  predicate Answered(a: Act) {
    a.Probe? || a.Estimate? || a.Broadcast? || a.Explain?
  }

  function AnswerOf(a: Act): Answer
    requires Answered(a)
  {
    match a
    case Probe(_, answer) => answer
    case Estimate(_, answer) => answer
    case Broadcast(_, answer, _, _) => answer
    case Explain(_, answer) => answer
  }

  lemma AnsweredPhaseIsOk(env: Env, w: World, w': World, a: Act)
    requires Enabled(env, w, a) && ByThread(a) && Answered(a)
    requires ThreadOk(env, w, w.threads[a.t])
    requires w'.past == w.past && w'.sent == SentAfter(env, w, a)
    ensures PhaseOk(env, w', w.threads[a.t].(phase := PhaseAfter(env, w, a)))
  {
    ConsumedWitness(env, w, w.threads[a.t], AnswerOf(a));
    assert AnswerOf(a).Consumed? ==> Witnessed(env, w', w.threads[a.t].since, w.threads[a.t].inputs);
  }

  lemma CanonicalPhaseIsOk(env: Env, w: World, w': World, a: Act)
    requires Enabled(env, w, a) && a.AskCanonical?
    requires ThreadOk(env, w, w.threads[a.t])
    requires w'.past == w.past && w'.sent == w.sent
    ensures PhaseOk(env, w', w.threads[a.t].(phase := PhaseAfter(env, w, a)))
  {
    var th := w.threads[a.t];
    if a.canonical == Some(true) {
      CanonicalityIsAWitness(env, w, th);
      NewWitness(env, w, th);
      assert Witnessed(env, w', th.since, th.inputs);
    }
  }

  lemma TrackedPhaseIsOk(env: Env, w: World, w': World, a: Act)
    requires Enabled(env, w, a) && (a.Poll? || a.Resubmit?)
    requires ThreadOk(env, w, w.threads[a.t])
    requires w'.past == w.past && w'.sent == SentAfter(env, w, a)
    ensures PhaseOk(env, w', w.threads[a.t].(phase := PhaseAfter(env, w, a)))
  {
  }

  /** Why the acting thread is left as its phase requires. `w'` only needs the
      same history and the new broadcasts. */
  lemma NewPhaseIsOk(env: Env, w: World, w': World, a: Act)
    requires Enabled(env, w, a) && ByThread(a)
    requires ThreadOk(env, w, w.threads[a.t])
    requires w'.past == w.past && w'.sent == SentAfter(env, w, a)
    requires var latest := Latest(w.db.settlements, w.threads[a.t].job);
      latest.Some? ==> Carries(w, latest.value.txHash, w.threads[a.t].inputs)
    ensures PhaseOk(env, w', w.threads[a.t].(phase := PhaseAfter(env, w, a)))
  {
    if Answered(a) {
      AnsweredPhaseIsOk(env, w, w', a);
    } else if a.AskCanonical? {
      CanonicalPhaseIsOk(env, w, w', a);
    } else if a.Poll? || a.Resubmit? {
      TrackedPhaseIsOk(env, w, w', a);
    }
  }

  lemma ActorsStayOk(env: Env, w: World, a: Act)
    requires Enabled(env, w, a) && ByThread(a)
    requires ThreadOk(env, w, w.threads[a.t]) && RowsCarry(w)
    ensures ThreadOk(env, Next(env, w, a), Next(env, w, a).threads[a.t])
  {
    var w' := Next(env, w, a);
    ActsCommitTheirOp(env, w, a);
    LatestCarries(w, w.threads[a.t]);
    GrowthKeepsThreads(env, w, w', w.threads[a.t]);
    NewPhaseIsOk(env, w, w', a);
  }

  lemma TakersStartOk(env: Env, w: World, a: Act)
    requires Enabled(env, w, a) && a.Take? && Sound(w.db.records[a.id])
    ensures ThreadOk(env, Next(env, w, a), Next(env, w, a).threads[a.t])
  {
  }

  lemma OthersUntouched(env: Env, w: World, a: Act, t: ThreadId)
    requires Enabled(env, w, a) && t in Next(env, w, a).threads
    ensures (t in w.threads && Next(env, w, a).threads[t] == w.threads[t])
            || (!a.Reorganise? && !a.Store? && a.t == t)
  {
  }

  lemma ConsumedWitness(env: Env, w: World, th: Thread, answer: Answer)
    requires w.past != [] && th.since < |w.past| && Honest(env, w, th, answer)
    ensures answer.Consumed? ==> Witnessed(env, w, th.since, th.inputs)
  {
    if answer.Consumed? {
      NewWitness(env, w, th);
    }
  }

  lemma LatestCarries(w: World, th: Thread)
    requires RowsCarry(w) && Owns(w, th.job, th.inputs)
    ensures var latest := Latest(w.db.settlements, th.job);
      latest.Some? ==> Carries(w, latest.value.txHash, th.inputs)
  {
  }

  /** The rows a thread writes name transactions that carry its nullifier. */
  lemma WritersCarry(env: Env, w: World, a: Act)
    requires Enabled(env, w, a) && (a.Record? || a.Rename?)
    requires ThreadOk(env, w, w.threads[a.t])
    ensures var op := OpOf(env, w, a);
      && Truthful(w.db, op)
      && (op.Submitted? ==> op.id == w.threads[a.t].job && Carries(w, op.txHash, w.threads[a.t].inputs))
      && (op.Replaced? ==> op.id == w.threads[a.t].job && Carries(w, op.toTx, w.threads[a.t].inputs))
  {
  }

  lemma ActsKeepRows(env: Env, w: World, a: Act)
    requires WorldOk(env, w) && Enabled(env, w, a)
    ensures DbSound(Next(env, w, a).db) && RowsCarry(Next(env, w, a))
  {
    var w' := Next(env, w, a);
    var op := OpOf(env, w, a);
    ActsCommitTheirOp(env, w, a);
    if a.Record? || a.Rename? {
      assert ThreadOk(env, w, w.threads[a.t]);
      WritersCarry(env, w, a);
      assert op.Submitted? ==> Owns(w, op.id, w.threads[a.t].inputs) && Carries(w', op.txHash, w.threads[a.t].inputs);
      assert op.Replaced? ==> Owns(w, op.id, w.threads[a.t].inputs) && Carries(w', op.toTx, w.threads[a.t].inputs);
    }
    ApplyKeepsSound(w.db, op);
    RowsKeepCarrying(w, w', op);
  }

  lemma ActsKeepThreads(env: Env, w: World, a: Act, t: ThreadId)
    requires Enabled(env, w, a) && t in Next(env, w, a).threads
    requires RowsCarry(w) && (t in w.threads ==> ThreadOk(env, w, w.threads[t]))
    requires a.Take? ==> Sound(w.db.records[a.id])
    ensures ThreadOk(env, Next(env, w, a), Next(env, w, a).threads[t])
  {
    OthersUntouched(env, w, a, t);
    if t in w.threads && Next(env, w, a).threads[t] == w.threads[t] {
      ActsCommitTheirOp(env, w, a);
      GrowthKeepsThreads(env, w, Next(env, w, a), w.threads[t]);
    } else if a.Take? {
      TakersStartOk(env, w, a);
    } else {
      ActorsStayOk(env, w, a);
    }
  }

  lemma ActsKeepWorld(env: Env, w: World, a: Act)
    requires WorldOk(env, w) && Enabled(env, w, a)
    ensures WorldOk(env, Next(env, w, a))
  {
    ActsCommitTheirOp(env, w, a);
    ActsKeepRows(env, w, a);
    forall t | t in Next(env, w, a).threads
      ensures ThreadOk(env, Next(env, w, a), Next(env, w, a).threads[t])
    {
      ActsKeepThreads(env, w, a, t);
    }
  }

  lemma EmptyWorldIsOk(env: Env)
    ensures WorldOk(env, World(EMPTY, [[]], map[], map[]))
  {
  }

  lemma {:induction false} RunsKeepWorld(env: Env, trace: seq<World>, acts: seq<Act>, k: nat)
    requires IsRun(env, trace, acts) && k <= |acts|
    ensures WorldOk(env, trace[k])
  {
    if k == 0 {
      EmptyWorldIsOk(env);
    } else {
      RunsKeepWorld(env, trace, acts, k - 1);
      ActsKeepWorld(env, trace[k - 1], acts[k - 1]);
    }
  }

  /** Acts that write `settlement_confirmed` for a job. */
  ghost predicate RecordsSettlement(w: World, w': World, id: JobId) {
    && id in w.db.records && id in w'.db.records
    && Count(w'.db.records[id].log, SettlementConfirmed) > Count(w.db.records[id].log, SettlementConfirmed)
  }

  lemma OnlyConfirmationsRecord(r: Record, call: Call, now: Time)
    requires Step(r, call, now).Ok?
    ensures Count(Step(r, call, now).value.log, SettlementConfirmed) > Count(r.log, SettlementConfirmed) ==>
      call.ConfirmSettlement?
  {
    var r' := Step(r, call, now).value;
    AcceptedCallsAreLogged(r, call, now);
    if !call.Renew? {
      var e := r'.log[|r.log|];
      assert r'.log == r.log + [e];
      CountAppend(r.log, e, SettlementConfirmed);
    }
  }

  lemma OnlyConfirmAndMarkRecord(env: Env, w: World, a: Act, id: JobId)
    requires Enabled(env, w, a) && RecordsSettlement(w, Next(env, w, a), id)
    ensures (a.Confirm? || a.Mark?) && w.threads[a.t].job == id
  {
    var w' := Next(env, w, a);
    var op := OpOf(env, w, a);
    ActsCommitTheirOp(env, w, a);
    match op
    case OneJob(j, call) =>
      if j == id && Step(w.db.records[id], call, w.db.clock).Ok? {
        OnlyConfirmationsRecord(w.db.records[id], call, w.db.clock);
      }
    case Unwound(j, relayer, tx) =>
      if j == id && Step(w.db.records[id], RecordReorg(relayer), w.db.clock).Ok? {
        OnlyConfirmationsRecord(w.db.records[id], RecordReorg(relayer), w.db.clock);
      }
    case ReapPass(visible, reaper) =>
      if Step(w.db.records[id], Call.Reap(reaper), w.db.clock).Ok? {
        OnlyConfirmationsRecord(w.db.records[id], Call.Reap(reaper), w.db.clock);
      }
    case _ =>
  }

  /** The act is the confirmation or the mark of a thread at this job, during
      whose attempt the canonical chain had the job's nullifier consumed. */
  ghost predicate WitnessedBy(env: Env, w: World, a: Act, id: JobId) {
    && (a.Confirm? || a.Mark?) && a.t in w.threads
    && var th := w.threads[a.t];
       th.job == id && Owns(w, id, th.inputs) && Witnessed(env, w, th.since, th.inputs)
  }

  lemma OneActIsWitnessed(env: Env, w: World, a: Act, id: JobId)
    requires Enabled(env, w, a) && (ByThread(a) ==> ThreadOk(env, w, w.threads[a.t]))
    ensures RecordsSettlement(w, Next(env, w, a), id) ==> WitnessedBy(env, w, a, id)
  {
    if RecordsSettlement(w, Next(env, w, a), id) {
      OnlyConfirmAndMarkRecord(env, w, a, id);
    }
  }

  /** MAIN. In every run, with any number of relayers, replacements, crashes,
      resumes and reorganisations: a settlement is recorded for a job only by an
      attempt during which the canonical chain had that job's nullifier
      consumed. */
  lemma SettlementsAreWitnessed(env: Env, trace: seq<World>, acts: seq<Act>, k: nat, id: JobId)
    requires IsRun(env, trace, acts) && k < |acts|
    ensures RecordsSettlement(trace[k], trace[k + 1], id) ==> WitnessedBy(env, trace[k], acts[k], id)
  {
    RunsKeepWorld(env, trace, acts, k);
    OneActIsWitnessed(env, trace[k], acts[k], id);
  }
}
