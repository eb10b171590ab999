/** A run in which the fence of `Tracking` fails: a relayer whose lease was
    reaped renames the row before the relayer that took over does. */
module TwoTrackers {
  import opened Basics
  import opened JobMachine
  import opened Records
  import opened Database
  import opened Contract
  import opened Chain
  import opened Relayer
  import opened Tracking

  /** The job's public inputs and proof, and the transaction hashes of the first
      broadcast and of the two replacements. */
  datatype Play = Play(inputs: Bytes, proof: Bytes, original: Bytes, first: Bytes, second: Bytes) {
    predicate Fits() {
      |inputs| == 32 && first != original && first != second
    }
  }

  const ACCOUNT: Address := "account"
  const RECEIPT := Receipt(0, 1, None, None)

  /** A chain that takes the proof, with one confirmation required. */
  function Setting(): Env {
    Env((a, p, i) => Accepts, "owner", c => [], 1)
  }

  function SettleMessage(y: Play): Message {
    Message(ACCOUNT, Contract.Settle([], y.proof, [y.inputs]))
  }

  /** The block that carries the second replacement. */
  function Carrying(y: Play): Block {
    Block([
      Included(Message("owner", SetRelayer(ACCOUNT, true)), [], true),
      Included(Message("owner", RegisterCircuit([], "verifier")), [], true),
      Included(SettleMessage(y), y.second, true)])
  }

  function ThreadAt(y: Play, relayer: Actor, grant: int, phase: Phase): Thread {
    Thread(relayer, 0, grant, 0, y.inputs, "c", y.proof, phase)
  }

  function WorldAt(r: Record, rows: seq<Settlement>, now: Time, past: seq<Blocks>, sent: map<Bytes, Message>,
                   threads: map<ThreadId, Thread>): World {
    World(DB(map[0 := r], rows, map["c" := true], now), past, sent, threads)
  }

  /** The one job, proved, with budget for three submissions. */
  predicate Midway(y: Play, r: Record, state: JobState, grants: int) {
    && r.job.state == state && r.job.submissionAttempts == grants && r.job.maxAttempts == 3
    && r.job.circuit == "c" && r.job.retryAfter.None?
    && r.job.proof == Some(y.proof) && r.job.publicInputs == Some(y.inputs)
  }

  lemma InputsAreOneWord(inputs: Bytes)
    requires |inputs| == 32
    ensures NullifierOf(inputs) == Some(inputs) && Words(inputs) == [inputs]
  {
    assert inputs[|inputs| - 32..] == inputs;
    assert inputs[..|inputs| - 32] == [];
  }

  lemma Extend(env: Env, trace: seq<World>, acts: seq<Act>, a: Act)
    requires IsRun(env, trace, acts) && Enabled(env, trace[|acts|], a)
    ensures IsRun(env, trace + [Next(env, trace[|acts|], a)], acts + [a])
  {
    var trace', acts' := trace + [Next(env, trace[|acts|], a)], acts + [a];
    forall i | 0 <= i < |acts'|
      ensures Enabled(env, trace'[i], acts'[i]) && trace'[i + 1] == Next(env, trace'[i], acts'[i])
    {
      if i < |acts| {
        assert trace'[i] == trace[i] && trace'[i + 1] == trace[i + 1] && acts'[i] == acts[i];
      }
    }
  }

  /** A run that ends at a world. */
  ghost predicate Reaches(trace: seq<World>, acts: seq<Act>, w: World) {
    IsRun(Setting(), trace, acts) && trace[|acts|] == w
  }

  lemma Then(trace: seq<World>, acts: seq<Act>, w: World, a: Act, w': World)
    returns (trace': seq<World>, acts': seq<Act>)
    requires Reaches(trace, acts, w)
    requires Enabled(Setting(), w, a) && Next(Setting(), w, a) == w'
    ensures Reaches(trace', acts', w')
    ensures trace' == trace + [w'] && acts' == acts + [a]
  {
    Extend(Setting(), trace, acts, a);
    trace', acts' := trace + [w'], acts + [a];
  }

  lemma AJobIsSubmitted() returns (trace: seq<World>, acts: seq<Act>)
    ensures Reaches(trace, acts, WorldAt(NewRecord("c", [], 0, 3), [], 0, [[]], map[], map[]))
  {
    var start := World(EMPTY, [[]], map[], map[]);
    var ready := World(EMPTY.(circuits := map["c" := true]), [[]], map[], map[]);
    trace, acts := [start], [];
    trace, acts := Then(trace, acts, start, Store(UpsertCircuit("c", true)), ready);
    trace, acts := Then(trace, acts, ready, Store(Op.InsertJob(0, "c", [], 3)),
                        WorldAt(NewRecord("c", [], 0, 3), [], 0, [[]], map[], map[]));
  }

  /** A job is submitted, leased and proved. */
  lemma AJobIsProved(y: Play) returns (trace: seq<World>, acts: seq<Act>, r: Record)
    ensures Midway(y, r, Proved, 0)
    ensures Reaches(trace, acts, WorldAt(r, [], 0, [[]], map[], map[]))
  {
    var r0 := NewRecord("c", [], 0, 3);
    var r1 := Records.Settle(r0, Lease("worker", 10), 0);
    var r2 := Records.Settle(r1, BeginProving("worker"), 0);
    r := Records.Settle(r2, RecordProof("worker", y.proof, y.inputs), 0);
    trace, acts := AJobIsSubmitted();
    trace, acts := StoreStep(trace, acts, r0, Lease("worker", 10), r1);
    trace, acts := StoreStep(trace, acts, r1, BeginProving("worker"), r2);
    trace, acts := StoreStep(trace, acts, r2, RecordProof("worker", y.proof, y.inputs), r);
  }

  lemma StoreStep(trace: seq<World>, acts: seq<Act>, r: Record, call: Call, r': Record)
    returns (trace': seq<World>, acts': seq<Act>)
    requires Reaches(trace, acts, WorldAt(r, [], 0, [[]], map[], map[]))
    requires Step(r, call, 0) == Ok(r') && !call.ConfirmSettlement?
    ensures Reaches(trace', acts', WorldAt(r', [], 0, [[]], map[], map[]))
  {
    trace', acts' := Then(trace, acts, WorldAt(r, [], 0, [[]], map[], map[]), Store(OneJob(0, call)),
                          WorldAt(r', [], 0, [[]], map[], map[]));
  }

  /** An act that only moves its thread along. */
  lemma Along(trace: seq<World>, acts: seq<Act>, w: World, a: Act, phase: Phase, w': World)
    returns (trace': seq<World>, acts': seq<Act>)
    requires Reaches(trace, acts, w) && Enabled(Setting(), w, a) && ByThread(a)
    requires OpOf(Setting(), w, a) == Tick(w.db.clock) && SentAfter(Setting(), w, a) == w.sent
    requires PhaseAfter(Setting(), w, a) == phase
    requires w' == w.(threads := w.threads[a.t := w.threads[a.t].(phase := phase)])
    ensures Reaches(trace', acts', w')
  {
    trace', acts' := Then(trace, acts, w, a, w');
  }

  function Row(y: Play, tx: Bytes): Settlement {
    Settlement(0, tx, y.inputs, None, None)
  }

  /** The first relayer leases the job, finds nothing sent and nothing settled,
      broadcasts, and records what it sent. */
  lemma TheFirstRelayerBroadcasts(y: Play) returns (trace: seq<World>, acts: seq<Act>, r: Record)
    requires y.Fits()
    ensures Midway(y, r, Submitting, 1) && r.job.leaseExpiresAt == Some(10)
    ensures Reaches(trace, acts, WorldAt(r, [Row(y, y.original)], 0, [[]], map[y.original := SettleMessage(y)],
                                         map[0 := ThreadAt(y, "one", 1, Watching(y.original, true))]))
  {
    var r0;
    trace, acts, r0 := AJobIsProved(y);
    r := Records.Settle(r0, LeaseProved("one", 10), 0);
    var w := WorldAt(r0, [], 0, [[]], map[], map[]);
    trace, acts := Then(trace, acts, w, Take(0, "one", 0, 10), Alone(y, r, Deciding));
    trace, acts := NothingStandsInTheWay(y, trace, acts, r);
    trace, acts := ItIsRecorded(y, trace, acts, r);
  }

  function Alone(y: Play, r: Record, phase: Phase): World {
    WorldAt(r, [], 0, [[]], map[], map[0 := ThreadAt(y, "one", 1, phase)])
  }

  lemma NothingStandsInTheWay(y: Play, trace: seq<World>, acts: seq<Act>, r: Record)
    returns (trace': seq<World>, acts': seq<Act>)
    requires y.Fits() && Reaches(trace, acts, Alone(y, r, Deciding))
    ensures Reaches(trace', acts', Alone(y, r, Broadcasting))
  {
    InputsAreOneWord(y.inputs);
    trace', acts' := Along(trace, acts, Alone(y, r, Deciding), ReadLatest(0, false), Probing, Alone(y, r, Probing));
    trace', acts' := Along(trace', acts', Alone(y, r, Probing), Probe(0, Fine), Estimating, Alone(y, r, Estimating));
    trace', acts' := Along(trace', acts', Alone(y, r, Estimating), Estimate(0, Fine), Broadcasting,
                           Alone(y, r, Broadcasting));
  }

  lemma ItIsRecorded(y: Play, trace: seq<World>, acts: seq<Act>, r: Record)
    returns (trace': seq<World>, acts': seq<Act>)
    requires y.Fits()
    requires Reaches(trace, acts, Alone(y, r, Broadcasting))
    ensures Reaches(trace', acts', WorldAt(r, [Row(y, y.original)], 0, [[]], map[y.original := SettleMessage(y)],
                                           map[0 := ThreadAt(y, "one", 1, Watching(y.original, true))]))
  {
    InputsAreOneWord(y.inputs);
    var sent := map[y.original := SettleMessage(y)];
    var w5 := WorldAt(r, [], 0, [[]], sent, map[0 := ThreadAt(y, "one", 1, Recording(y.original))]);
    var w6 := WorldAt(r, [Row(y, y.original)], 0, [[]], sent, One(y));
    trace', acts' := Then(trace, acts, Alone(y, r, Broadcasting), Relayer.Broadcast(0, Fine, ACCOUNT, y.original), w5);
    trace', acts' := Then(trace', acts', w5, Relayer.Record(0, true), w6);
  }

  function Both(y: Play, one: Phase, two: Phase): map<ThreadId, Thread> {
    map[0 := ThreadAt(y, "one", 1, one), 1 := ThreadAt(y, "two", 2, two)]
  }

  function One(y: Play): map<ThreadId, Thread> {
    map[0 := ThreadAt(y, "one", 1, Watching(y.original, true))]
  }

  /** Its lease expires and is reaped. */
  lemma TheFirstIsReaped(y: Play) returns (trace: seq<World>, acts: seq<Act>, r: Record)
    requires y.Fits()
    ensures Midway(y, r, Proved, 1)
    ensures Reaches(trace, acts, WorldAt(r, [Row(y, y.original)], 11, [[]], map[y.original := SettleMessage(y)],
                                         One(y)))
  {
    var r0;
    trace, acts, r0 := TheFirstRelayerBroadcasts(y);
    r := Records.Settle(r0, Call.Reap("reaper"), 11);
    var rows, sent := [Row(y, y.original)], map[y.original := SettleMessage(y)];
    var w0, w1 := WorldAt(r0, rows, 0, [[]], sent, One(y)), WorldAt(r0, rows, 11, [[]], sent, One(y));
    trace, acts := Then(trace, acts, w0, Store(Tick(11)), w1);
    assert ReapRows(w1.db, {0}, "reaper").records == map[0 := r];
    trace, acts := Then(trace, acts, w1, Store(ReapPass({0}, "reaper")), WorldAt(r, rows, 11, [[]], sent, One(y)));
  }

  /** A second relayer takes the job and resumes the same broadcast. */
  lemma TheSecondRelayerResumes(y: Play) returns (trace: seq<World>, acts: seq<Act>, r: Record)
    requires y.Fits()
    ensures Midway(y, r, Submitting, 2)
    ensures Reaches(trace, acts, WorldAt(r, [Row(y, y.original)], 11, [[]], map[y.original := SettleMessage(y)],
                                         Both(y, Watching(y.original, true), Watching(y.original, true))))
  {
    var r0;
    trace, acts, r0 := TheFirstIsReaped(y);
    InputsAreOneWord(y.inputs);
    r := Records.Settle(r0, LeaseProved("two", 10), 11);
    var rows, sent := [Row(y, y.original)], map[y.original := SettleMessage(y)];
    var w0 := WorldAt(r0, rows, 11, [[]], sent, One(y));
    var w1 := WorldAt(r, rows, 11, [[]], sent, Both(y, Watching(y.original, true), Deciding));
    var w2 := WorldAt(r, rows, 11, [[]], sent, Both(y, Watching(y.original, true), Watching(y.original, true)));
    trace, acts := Then(trace, acts, w0, Take(1, "two", 0, 10), w1);
    trace, acts := Along(trace, acts, w1, ReadLatest(1, false), Watching(y.original, true), w2);
  }

  function SentAll(y: Play): map<Bytes, Message> {
    map[y.original := SettleMessage(y)][y.first := SettleMessage(y)][y.second := SettleMessage(y)]
  }

  lemma RenamesOfOneRow(y: Play, to: Bytes)
    ensures Replace([Row(y, y.original)], 0, y.original, to) == [Row(y, to)]
    ensures y.first != y.original ==> Replace([Row(y, y.first)], 0, y.original, to) == [Row(y, y.first)]
  {
  }

  /** A thread watching `tx` sends a replacement. */
  lemma Resends(y: Play, trace: seq<World>, acts: seq<Act>, w: World, t: ThreadId, tx: Bytes)
    returns (trace': seq<World>, acts': seq<Act>)
    requires y.Fits() && Reaches(trace, acts, w) && w.past != []
    requires t in w.threads && w.threads[t].phase.Watching?
    requires w.threads[t].inputs == y.inputs && w.threads[t].proof == y.proof
    requires tx in w.sent ==> w.sent[tx] == SettleMessage(y)
    ensures var th := w.threads[t];
      Reaches(trace', acts', World(w.db, w.past, w.sent[tx := SettleMessage(y)],
                w.threads[t := th.(phase := Renaming(th.phase.tx, tx, th.phase.recorded))]))
  {
    InputsAreOneWord(y.inputs);
    var th := w.threads[t];
    var w' := World(w.db, w.past, w.sent[tx := SettleMessage(y)],
                    w.threads[t := th.(phase := Renaming(th.phase.tx, tx, th.phase.recorded))]);
    trace', acts' := Then(trace, acts, w, Resubmit(t, ACCOUNT, tx), w');
  }

  /** Its rename of the row reaches the table. */
  lemma Renames(trace: seq<World>, acts: seq<Act>, w: World, t: ThreadId, rows: seq<Settlement>)
    returns (trace': seq<World>, acts': seq<Act>)
    requires Reaches(trace, acts, w) && w.past != []
    requires t in w.threads && w.threads[t].phase.Renaming? && w.threads[t].phase.recorded
    requires var th := w.threads[t]; rows == Replace(w.db.settlements, th.job, th.phase.tx, th.phase.replacement)
    ensures var th := w.threads[t];
      Reaches(trace', acts', World(w.db.(settlements := rows), w.past, w.sent,
                w.threads[t := th.(phase := Watching(th.phase.replacement, true))]))
  {
    var th := w.threads[t];
    var w' := World(w.db.(settlements := rows), w.past, w.sent,
                    w.threads[t := th.(phase := Watching(th.phase.replacement, true))]);
    trace', acts' := Then(trace, acts, w, Rename(t, true), w');
  }

  lemma OneMoves(y: Play, one: Phase, two: Phase, one': Phase, two': Phase)
    ensures Both(y, one, two)[0 := Both(y, one, two)[0].(phase := one')] == Both(y, one', two)
    ensures Both(y, one, two)[1 := Both(y, one, two)[1].(phase := two')] == Both(y, one, two')
  {
  }

  /** The reaped relayer, which has not noticed, reprices and renames the row;
      then the second one reprices the same transaction, and its rename finds no
      row. */
  lemma BothReplace(y: Play) returns (trace: seq<World>, acts: seq<Act>, r: Record)
    requires y.Fits()
    ensures Midway(y, r, Submitting, 2)
    ensures Reaches(trace, acts, WorldAt(r, [Row(y, y.first)], 11, [[]], SentAll(y),
                                         Both(y, Watching(y.first, true), Watching(y.second, true))))
  {
    trace, acts, r := TheSecondRelayerResumes(y);
    trace, acts := TheFirstReplaces(y, trace, acts, r);
    trace, acts := TheSecondReplaces(y, trace, acts, r);
  }

  lemma TheFirstReplaces(y: Play, trace: seq<World>, acts: seq<Act>, r: Record)
    returns (trace': seq<World>, acts': seq<Act>)
    requires y.Fits()
    requires Reaches(trace, acts, WorldAt(r, [Row(y, y.original)], 11, [[]], map[y.original := SettleMessage(y)],
                                          Both(y, Watching(y.original, true), Watching(y.original, true))))
    ensures Reaches(trace', acts', WorldAt(r, [Row(y, y.first)], 11, [[]],
                                           map[y.original := SettleMessage(y)][y.first := SettleMessage(y)],
                                           Both(y, Watching(y.first, true), Watching(y.original, true))))
  {
    var watching, renaming := Watching(y.original, true), Renaming(y.original, y.first, true);
    var sent := map[y.original := SettleMessage(y)];
    trace', acts' := Resends(y, trace, acts, trace[|acts|], 0, y.first);
    OneMoves(y, watching, watching, renaming, watching);
    OneMoves(y, renaming, watching, Watching(y.first, true), watching);
    RenamesOfOneRow(y, y.first);
    var w := WorldAt(r, [Row(y, y.original)], 11, [[]], sent[y.first := SettleMessage(y)], Both(y, renaming, watching));
    trace', acts' := Renames(trace', acts', w, 0, [Row(y, y.first)]);
  }

  lemma TheSecondReplaces(y: Play, trace: seq<World>, acts: seq<Act>, r: Record)
    returns (trace': seq<World>, acts': seq<Act>)
    requires y.Fits()
    requires Reaches(trace, acts, WorldAt(r, [Row(y, y.first)], 11, [[]],
                                          map[y.original := SettleMessage(y)][y.first := SettleMessage(y)],
                                          Both(y, Watching(y.first, true), Watching(y.original, true))))
    ensures Reaches(trace', acts', WorldAt(r, [Row(y, y.first)], 11, [[]], SentAll(y),
                                           Both(y, Watching(y.first, true), Watching(y.second, true))))
  {
    var first, renaming := Watching(y.first, true), Renaming(y.original, y.second, true);
    trace', acts' := Resends(y, trace, acts, trace[|acts|], 1, y.second);
    OneMoves(y, first, Watching(y.original, true), first, renaming);
    OneMoves(y, first, renaming, first, Watching(y.second, true));
    RenamesOfOneRow(y, y.second);
    var w := WorldAt(r, [Row(y, y.first)], 11, [[]], SentAll(y), Both(y, first, renaming));
    trace', acts' := Renames(trace', acts', w, 1, [Row(y, y.first)]);
  }

  /** The block's settlement succeeds. */
  lemma TheSettlementSucceeds(y: Play)
    ensures TxSucceeds(Setting().verify, Setting().owner, [Carrying(y)], 2)
  {
    var verify, txs := Setting().verify, Carrying(y).txs;
    var start := Deployed("owner");
    assert Fold(verify, "owner", [Carrying(y)][..0]) == start;
    assert txs[..2][..1] == txs[..1] && txs[..1][..0] == [];
    assert AfterTxs(verify, start, txs[..1]) == AfterTx(verify, start, txs[0]);
    assert AfterTxs(verify, start, txs[..2]) == AfterTx(verify, AfterTx(verify, start, txs[0]), txs[1]);
  }

  /** A block carries the second replacement. */
  lemma TheChainGrows(y: Play) returns (trace: seq<World>, acts: seq<Act>, r: Record)
    requires y.Fits()
    ensures Midway(y, r, Submitting, 2)
    ensures Reaches(trace, acts, WorldAt(r, [Row(y, y.first)], 11, [[], [Carrying(y)]], SentAll(y),
                      Both(y, Watching(y.first, true), Watching(y.second, true))))
  {
    trace, acts, r := BothReplace(y);
    var rows, chain := [Row(y, y.first)], [Carrying(y)];
    var first, second := Watching(y.first, true), Watching(y.second, true);
    var w0 := WorldAt(r, rows, 11, [[]], SentAll(y), Both(y, first, second));
    var w1 := WorldAt(r, rows, 11, [[], chain], SentAll(y), Both(y, first, second));
    trace, acts := Then(trace, acts, w0, Reorganise(chain), w1);
  }

  /** It is found mined, and deep enough. */
  lemma TheSecondIsMined(y: Play) returns (trace: seq<World>, acts: seq<Act>, r: Record)
    requires y.Fits()
    ensures Midway(y, r, Submitting, 2)
    ensures Reaches(trace, acts, WorldAt(r, [Row(y, y.first)], 11, [[], [Carrying(y)]], SentAll(y),
                      Both(y, Watching(y.first, true), Checking(y.second, true, [Carrying(y)], RECEIPT))))
  {
    trace, acts, r := TheChainGrows(y);
    TheSettlementSucceeds(y);
    var rows, first, chain := [Row(y, y.first)], Watching(y.first, true), [Carrying(y)];
    var second, checking := Watching(y.second, true), Checking(y.second, true, chain, RECEIPT);
    var w1 := WorldAt(r, rows, 11, [[], chain], SentAll(y), Both(y, first, second));
    var w2 := WorldAt(r, rows, 11, [[], chain], SentAll(y), Both(y, first, checking));
    trace, acts := Along(trace, acts, w1, Poll(1, Mined(chain, 2, 0, None, None)), checking, w2);
  }

  lemma TheSecondIsCanonical(y: Play) returns (trace: seq<World>, acts: seq<Act>, r: Record)
    requires y.Fits()
    ensures Midway(y, r, Submitting, 2)
    ensures Reaches(trace, acts, WorldAt(r, [Row(y, y.first)], 11, [[], [Carrying(y)]], SentAll(y),
                      Both(y, Watching(y.first, true), Confirming(y.second, true, RECEIPT))))
  {
    trace, acts, r := TheSecondIsMined(y);
    var first, chain := Watching(y.first, true), [Carrying(y)];
    var confirming := Confirming(y.second, true, RECEIPT);
    var checking := Checking(y.second, true, chain, RECEIPT);
    var w0 := WorldAt(r, [Row(y, y.first)], 11, [[], chain], SentAll(y), Both(y, first, checking));
    var w1 := WorldAt(r, [Row(y, y.first)], 11, [[], chain], SentAll(y), Both(y, first, confirming));
    assert Now(w0) == chain;
    trace, acts := Along(trace, acts, w0, AskCanonical(1, Some(true)), confirming, w1);
  }

  /** MAIN. The fence cannot be dropped: for any inputs of one word, any proof
      and any hashes, there is a run in which a thread whose lease is current,
      and whose every write was taken, confirms; its job is settled, and the
      job's only row names another transaction and has no receipt. */
  lemma SecondTrackersAreForgotten(y: Play) returns (trace: seq<World>, acts: seq<Act>)
    requires y.Fits()
    ensures IsRun(Setting(), trace, acts) && acts != []
    ensures var k := |acts| - 1;
      var before, after := trace[k], trace[k + 1].db;
      && acts[k] == Relayer.Confirm(1) && 1 in before.threads
      && before.threads[1].phase.Confirming? && before.threads[1].phase.recorded
      && before.threads[1].phase.tx == y.second
      && Current(before.db, before.threads[1].job, before.threads[1].grant)
      && before.threads[1].job in after.records && after.records[before.threads[1].job].job.state.Settled?
      && after.settlements == [Row(y, y.first)]
      && !HasReceipt(after.settlements, before.threads[1].job, y.second, before.threads[1].phase.receipt)
  {
    var r;
    trace, acts, r := TheSecondIsCanonical(y);
    var w := trace[|acts|];
    var r' := Records.Settle(r, ConfirmSettlement("two", None), 11);
    assert StampReceipt([Row(y, y.first)], 0, y.second, RECEIPT) == [Row(y, y.first)];
    var w' := WorldAt(r', [Row(y, y.first)], 11, [[], [Carrying(y)]], SentAll(y),
                      Both(y, Watching(y.first, true), Finished));
    trace, acts := Then(trace, acts, w, Relayer.Confirm(1), w');
  }
}
