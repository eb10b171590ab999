/** Many relayers settling jobs on a chain that may reorganise.

    A `Thread` is one attempt of one relayer at one job. It advances through the
    await points of `settle` and `track`, one step at a time, and may stop for
    ever at any of them: a crash, a lost lease and a slow process look alike.
    The chain may replace any suffix between two steps.

    What is assumed of the node: a transaction hash fixes the transaction, a
    block hash fixes the chain up to its block (so the block a receipt names is
    represented by that chain), a receipt reports the status its transaction had
    in the block it names (canonical or not), and the node says a nullifier is
    consumed, or that a block is canonical, only when that holds as it answers. */
module Relayer {
  import opened Basics
  import opened JobMachine
  import opened Records
  import opened History
  import opened Database
  import opened Contract
  import opened Chain

  type ThreadId = nat

  datatype Env = Env(verify: Verifier, owner: Address, circuitId: string -> Word, confirmations: nat)

  datatype Phase =
    | Deciding                                                  // about to read the latest settlement
    | Probing                                                   // about to ask whether the nullifier is used
    | Estimating                                                // about to estimate gas and read fees
    | Broadcasting
    | Recording(tx: Bytes)                                      // accepted; the row is not written yet
    | Watching(tx: Bytes, recorded: bool)                       // the tracking loop
    | Renaming(tx: Bytes, replacement: Bytes, recorded: bool)   // a replacement was accepted
    | Checking(tx: Bytes, recorded: bool, mined: Blocks, receipt: Receipt)
    | Confirming(tx: Bytes, recorded: bool, receipt: Receipt)
    | Explaining                                                // mined, reverted
    | Marking                                                   // the nullifier is used
    | Giving(kind: FailureKind)                                 // about to record a failure
    | Finished

  /** `grant` numbers the submission leases of the job; `since` is when this one
      was taken, as an index into the canonical chains so far. */
  datatype Thread = Thread(
    relayer: Actor, job: JobId, grant: int, since: nat,
    inputs: Bytes, circuit: string, proof: Bytes, phase: Phase)

  datatype World = World(
    db: DB,
    past: seq<Blocks>,             // every canonical chain so far, the present one last
    sent: map<Bytes, Message>,     // what each transaction hash denotes
    threads: map<ThreadId, Thread>)

  /** What the node answers to a call, a broadcast or an estimate. */
  datatype Answer = Fine | Consumed | Refused(kind: FailureKind)

  datatype Sight = NotMined | Mined(blocks: Blocks, index: nat, head: int, gasUsed: Option<int>, gasPrice: Option<int>)

  datatype Act =
    | Reorganise(blocks: Blocks)
    | Store(op: Op)                                          // workers, reapers, the reorg watch, releases
    | Take(t: ThreadId, relayer: Actor, id: JobId, ttl: Time)
    | ReadLatest(t: ThreadId, failed: bool)
    | Probe(t: ThreadId, answer: Answer)
    | Estimate(t: ThreadId, answer: Answer)
    | Broadcast(t: ThreadId, answer: Answer, account: Address, tx: Bytes)
    | Record(t: ThreadId, reached: bool)                     // `reached`: the database took the statement
    | Poll(t: ThreadId, sight: Sight)
    | Resubmit(t: ThreadId, account: Address, tx: Bytes)     // bumped or re-nonced
    | Rename(t: ThreadId, reached: bool)
    | AskCanonical(t: ThreadId, canonical: Option<bool>)
    | Confirm(t: ThreadId)
    | Explain(t: ThreadId, answer: Answer)
    | Mark(t: ThreadId)
    | GiveUp(t: ThreadId, error: string, retryIn: Option<Time>)

  // --- public inputs as words ------------------------------------------------

  function Words(inputs: Bytes): seq<Word>
    requires |inputs| % 32 == 0
  {
    if inputs == [] then [] else Words(inputs[..|inputs| - 32]) + [inputs[|inputs| - 32..]]
  }

  /** Whole words, in order, with nothing left over. */
  lemma {:induction false} WordsAreTheInputs(inputs: Bytes)
    requires |inputs| % 32 == 0
    ensures 32 * |Words(inputs)| == |inputs|
    ensures forall k :: 0 <= k < |Words(inputs)| ==> Words(inputs)[k] == inputs[32 * k..32 * k + 32]
  {
    if inputs != [] {
      var prefix := inputs[..|inputs| - 32];
      WordsAreTheInputs(prefix);
      forall k | 0 <= k < |Words(prefix)|
        ensures Words(inputs)[k] == inputs[32 * k..32 * k + 32]
      {
        assert prefix[32 * k..32 * k + 32] == inputs[32 * k..32 * k + 32];
      }
    }
  }

  lemma NullifierIsTheLastWord(inputs: Bytes)
    requires NullifierOf(inputs).Some?
    ensures Words(inputs) != [] && LastOf(Words(inputs)) == NullifierOf(inputs).value
  {
  }

  // --- steps -------------------------------------------------------------------

  function Now(w: World): Blocks
    requires w.past != []
  {
    w.past[|w.past| - 1]
  }

  predicate IsUsed(env: Env, w: World, n: Word)
    requires w.past != []
  {
    n in Used(env.verify, env.owner, Now(w))
  }

  /** Production code writes settlements only through the threads. */
  predicate ByOthers(op: Op) {
    match op
    case Submitted(_, _, _) => false
    case Replaced(_, _, _) => false
    case Confirmed(_, _, _, _) => false
    case OneJob(_, call) => !call.ConfirmSettlement?
    case _ => true
  }

  predicate At(w: World, t: ThreadId) {
    t in w.threads
  }

  predicate Honest(env: Env, w: World, th: Thread, answer: Answer)
    requires w.past != []
  {
    answer.Consumed? ==> NullifierOf(th.inputs).Some? && IsUsed(env, w, NullifierOf(th.inputs).value)
  }

  function SettleCall(env: Env, th: Thread): Action
    requires |th.inputs| % 32 == 0
  {
    Contract.Settle(env.circuitId(th.circuit), th.proof, Words(th.inputs))
  }

  predicate Accepted(env: Env, w: World, th: Thread, account: Address, tx: Bytes) {
    && |th.inputs| % 32 == 0
    && (tx in w.sent ==> w.sent[tx] == Message(account, SettleCall(env, th)))
  }

  /** A faithful receipt for transaction `tx`. */
  predicate Faithful(w: World, tx: Bytes, s: Sight) {
    s.Mined? ==>
      && s.blocks != []
      && var txs := s.blocks[|s.blocks| - 1].txs;
         s.index < |txs| && txs[s.index].txHash == tx && tx in w.sent && txs[s.index].message == w.sent[tx]
  }

  predicate Enabled(env: Env, w: World, a: Act) {
    && w.past != []
    && match a
       case Reorganise(_) => true
       case Store(op) => ByOthers(op)
       case Take(t, relayer, id, ttl) =>
         t !in w.threads && OnJob(w.db, id, LeaseProved(relayer, ttl)).Ok?
       case ReadLatest(t, _) => At(w, t) && w.threads[t].phase.Deciding?
       case Probe(t, answer) => At(w, t) && w.threads[t].phase.Probing? && Honest(env, w, w.threads[t], answer)
       case Estimate(t, answer) => At(w, t) && w.threads[t].phase.Estimating? && Honest(env, w, w.threads[t], answer)
       case Broadcast(t, answer, account, tx) =>
         At(w, t) && w.threads[t].phase.Broadcasting? && Honest(env, w, w.threads[t], answer)
         && Accepted(env, w, w.threads[t], account, tx)
       case Record(t, _) => At(w, t) && w.threads[t].phase.Recording? && NullifierOf(w.threads[t].inputs).Some?
       case Poll(t, sight) => At(w, t) && w.threads[t].phase.Watching? && Faithful(w, w.threads[t].phase.tx, sight)
       case Resubmit(t, account, tx) =>
         At(w, t) && w.threads[t].phase.Watching? && Accepted(env, w, w.threads[t], account, tx)
       case Rename(t, _) => At(w, t) && w.threads[t].phase.Renaming?
       case AskCanonical(t, answer) =>
         At(w, t) && w.threads[t].phase.Checking?
         && (answer == Some(true) ==> w.threads[t].phase.mined <= Now(w))
       case Confirm(t) => At(w, t) && w.threads[t].phase.Confirming?
       case Explain(t, answer) => At(w, t) && w.threads[t].phase.Explaining? && Honest(env, w, w.threads[t], answer)
       case Mark(t) => At(w, t) && w.threads[t].phase.Marking?
       case GiveUp(t, _, _) => At(w, t) && w.threads[t].phase.Giving?
  }

  function AfterAnswer(answer: Answer, next: Phase): Phase {
    match answer
    case Fine => next
    case Consumed => Marking
    case Refused(kind) => Giving(kind)
  }

  function AfterLatest(db: DB, th: Thread, failed: bool): Phase {
    if NullifierOf(th.inputs).None? then Giving(Permanent)
    else
      var latest := Latest(db.settlements, th.job);
      if !failed && latest.Some? && latest.value.Live() then Watching(latest.value.txHash, true) else Probing
  }

  function AfterPoll(env: Env, th: Thread, s: Sight): Phase
    requires th.phase.Watching?
    requires s.Mined? ==> s.blocks != [] && s.index < |s.blocks[|s.blocks| - 1].txs|
  {
    if s.NotMined? then th.phase
    else if !TxSucceeds(env.verify, env.owner, s.blocks, s.index) then Explaining
    else
      var number := |s.blocks| - 1;
      var depth := (if s.head < number then 0 else s.head - number) + 1;
      if depth < env.confirmations then th.phase
      else Checking(th.phase.tx, th.phase.recorded, s.blocks, Receipt(number, depth, s.gasUsed, s.gasPrice))
  }

  const ALREADY := "the nullifier was already consumed on chain"

  /** The transaction an act commits; a `Tick` to the present when it commits
      nothing. */
  function OpOf(env: Env, w: World, a: Act): Op
    requires Enabled(env, w, a)
  {
    var idle := Tick(w.db.clock);
    match a
    case Store(op) => op
    case Take(_, relayer, id, ttl) => OneJob(id, LeaseProved(relayer, ttl))
    case Record(t, reached) =>
      var th := w.threads[t];
      if reached then Submitted(th.job, th.phase.tx, NullifierOf(th.inputs).value) else idle
    case Rename(t, reached) =>
      var th := w.threads[t];
      if reached then Replaced(th.job, th.phase.tx, th.phase.replacement) else idle
    case Confirm(t) =>
      var th := w.threads[t];
      Confirmed(th.job, th.relayer, th.phase.tx, th.phase.receipt)
    case Mark(t) =>
      var th := w.threads[t];
      OneJob(th.job, ConfirmSettlement(th.relayer, Some(ALREADY)))
    case GiveUp(t, error, retryIn) =>
      var th := w.threads[t];
      OneJob(th.job, RecordSubmissionFailure(th.relayer, th.phase.kind, error, retryIn))
    case _ => idle
  }

  predicate ByThread(a: Act) {
    !a.Reorganise? && !a.Store? && !a.Take?
  }

  /** Where the acting thread goes next. */
  function PhaseAfter(env: Env, w: World, a: Act): Phase
    requires Enabled(env, w, a) && ByThread(a)
  {
    var th := w.threads[a.t];
    match a
    case ReadLatest(_, failed) => AfterLatest(w.db, th, failed)
    case Probe(_, answer) => AfterAnswer(answer, Estimating)
    case Estimate(_, answer) => AfterAnswer(answer, Broadcasting)
    case Broadcast(_, answer, _, tx) => AfterAnswer(answer, Recording(tx))
    case Record(_, reached) => Watching(th.phase.tx, reached && Try(w.db, OpOf(env, w, a)).Ok?)
    case Poll(_, sight) => AfterPoll(env, th, sight)
    case Resubmit(_, _, tx) => Renaming(th.phase.tx, tx, th.phase.recorded)
    case Rename(_, reached) => Watching(th.phase.replacement, th.phase.recorded && reached)
    case AskCanonical(_, canonical) =>
      (match canonical
       case Some(true) => Confirming(th.phase.tx, th.phase.recorded, th.phase.receipt)
       case Some(false) => Giving(Transient)
       case None => Watching(th.phase.tx, th.phase.recorded))
    case Explain(_, answer) => AfterAnswer(answer, Giving(Permanent))
    case _ => Finished
  }

  function SentAfter(env: Env, w: World, a: Act): map<Bytes, Message>
    requires Enabled(env, w, a)
  {
    match a
    case Broadcast(t, answer, account, tx) =>
      if answer.Fine? then w.sent[tx := Message(account, SettleCall(env, w.threads[t]))] else w.sent
    case Resubmit(t, account, tx) => w.sent[tx := Message(account, SettleCall(env, w.threads[t]))]
    case _ => w.sent
  }

  /** What `settle` reads from the leased row. A row without a proof or inputs,
      which the schema forbids, reads as one with nothing to settle: either way
      the attempt fails for good. */
  function ReadProof(job: Job): (Bytes, Bytes) {
    if job.proof.Some? && job.publicInputs.Some? then (job.publicInputs.value, job.proof.value) else ([], [])
  }

  function ThreadsAfter(env: Env, w: World, a: Act): map<ThreadId, Thread>
    requires Enabled(env, w, a)
  {
    match a
    case Reorganise(_) => w.threads
    case Store(_) => w.threads
    case Take(t, relayer, id, ttl) =>
      var job := w.db.records[id].job;
      var (inputs, proof) := ReadProof(job);
      w.threads[t := Thread(relayer, id, job.submissionAttempts + 1, |w.past| - 1,
                            inputs, job.circuit, proof, Deciding)]
    case _ => w.threads[a.t := w.threads[a.t].(phase := PhaseAfter(env, w, a))]
  }

  function Next(env: Env, w: World, a: Act): World
    requires Enabled(env, w, a)
  {
    World(Apply(w.db, OpOf(env, w, a)),
          if a.Reorganise? then w.past + [a.blocks] else w.past,
          SentAfter(env, w, a),
          ThreadsAfter(env, w, a))
  }

  ghost predicate IsRun(env: Env, trace: seq<World>, acts: seq<Act>) {
    && |trace| == |acts| + 1
    && trace[0] == World(EMPTY, [[]], map[], map[])
    && forall i :: 0 <= i < |acts| ==> Enabled(env, trace[i], acts[i]) && trace[i + 1] == Next(env, trace[i], acts[i])
  }

  // --- what is kept ---------------------------------------------------------------

  /** The transaction a hash denotes settles this job: it carries its nullifier
      last. */
  ghost predicate Carries(w: World, tx: Bytes, inputs: Bytes) {
    && NullifierOf(inputs).Some?
    && tx in w.sent && w.sent[tx].action.Settle?
    && w.sent[tx].action.publicInputs == Words(inputs)
  }

  /** At some moment since the thread took its lease, the canonical chain had
      this job's nullifier consumed. */
  ghost predicate Witnessed(env: Env, w: World, since: nat, inputs: Bytes) {
    && NullifierOf(inputs).Some?
    && exists i :: since <= i < |w.past| && NullifierOf(inputs).value in Used(env.verify, env.owner, w.past[i])
  }

  ghost predicate PhaseOk(env: Env, w: World, th: Thread) {
    match th.phase
    case Deciding => true
    case Giving(_) => true
    case Finished => true
    case Recording(tx) => Carries(w, tx, th.inputs)
    case Watching(tx, _) => Carries(w, tx, th.inputs)
    case Renaming(tx, replacement, _) => Carries(w, tx, th.inputs) && Carries(w, replacement, th.inputs)
    case Checking(tx, _, mined, _) =>
      && Carries(w, tx, th.inputs) && mined != []
      && exists i :: 0 <= i < |mined[|mined| - 1].txs| && mined[|mined| - 1].txs[i].message == w.sent[tx]
                     && TxSucceeds(env.verify, env.owner, mined, i)
    case Confirming(tx, _, _) => Carries(w, tx, th.inputs) && Witnessed(env, w, th.since, th.inputs)
    case Marking => Witnessed(env, w, th.since, th.inputs)
    case _ => NullifierOf(th.inputs).Some?
  }

  ghost predicate Owns(w: World, id: JobId, inputs: Bytes) {
    id in w.db.records && Proven(w.db.records[id].job) && w.db.records[id].job.publicInputs == Some(inputs)
  }

  ghost predicate ThreadOk(env: Env, w: World, th: Thread) {
    th.since < |w.past| && Owns(w, th.job, th.inputs) && PhaseOk(env, w, th)
  }

  ghost predicate RowsCarry(w: World) {
    forall i :: 0 <= i < |w.db.settlements| ==>
      var row := w.db.settlements[i];
      row.job in w.db.records && Proven(w.db.records[row.job].job)
      && Carries(w, row.txHash, w.db.records[row.job].job.publicInputs.value)
  }

  ghost predicate WorldOk(env: Env, w: World) {
    && w.past != []
    && DbSound(w.db)
    && RowsCarry(w)
    && forall t :: t in w.threads ==> ThreadOk(env, w, w.threads[t])
  }

  /** Worlds only accumulate: results, broadcasts and history are never undone. */
  ghost predicate Grew(w: World, w': World) {
    && w.past <= w'.past
    && (forall h :: h in w.sent ==> h in w'.sent && w'.sent[h] == w.sent[h])
    && (forall id :: id in w.db.records && Proven(w.db.records[id].job) ==>
          && id in w'.db.records && Proven(w'.db.records[id].job)
          && w'.db.records[id].job.publicInputs == w.db.records[id].job.publicInputs)
  }

  lemma GrowthKeepsThreads(env: Env, w: World, w': World, th: Thread)
    requires Grew(w, w') && ThreadOk(env, w, th)
    ensures ThreadOk(env, w', th)
  {
    if Witnessed(env, w, th.since, th.inputs) {
      var i :| th.since <= i < |w.past| && NullifierOf(th.inputs).value in Used(env.verify, env.owner, w.past[i]);
      assert w'.past[i] == w.past[i];
    }
  }

  lemma TransactionsGrow(w: World, w': World, op: Op)
    requires w'.db == Apply(w.db, op)
    requires w.past <= w'.past
    requires forall h :: h in w.sent ==> h in w'.sent && w'.sent[h] == w.sent[h]
    ensures Grew(w, w')
  {
    forall id | id in w.db.records && Proven(w.db.records[id].job)
      ensures id in w'.db.records && Proven(w'.db.records[id].job)
      ensures w'.db.records[id].job.publicInputs == w.db.records[id].job.publicInputs
    {
      ApplyKeepsProof(w.db, op, id);
    }
  }
}
