/** The waiting branch of the tracking loop: what a relayer does, one iteration
    at a time, about a transaction that is not mined. */
module TrackLoop {
  import opened Basics
  import opened Records
  import opened Database
  import opened Gas
  import opened Nonce
  import opened Tracking

  /** The loop's variables. `nonce` and `fees` are absent when a resumed
      broadcast's terms could not be read. */
  datatype Watch = Watch(txHash: Bytes, fees: Option<Fees>, nonce: Option<U64>, waitingSince: Time)

  /** What one iteration meets: the clock, the account's pending count, and what
      the node answers to a re-nonced or a repriced submission if one is sent. */
  datatype Glance = Glance(
    now: Time,
    pending: Option<U64>,
    renonced: Option<(Bytes, U64)>,
    repriced: Option<Bytes>)

  datatype Write = Write(fromTx: Bytes, toTx: Bytes)

  /** The nonce gap: our nonce is ahead of the account's. */
  predicate Gap(w: Watch, g: Glance) {
    w.nonce.Some? && g.pending.Some? && g.pending.value < w.nonce.value
  }

  predicate Stuck(w: Watch, g: Glance, stuckAfter: Time) {
    g.now - w.waitingSince >= stuckAfter && w.nonce.Some? && w.fees.Some?
  }

  function Advance(p: GasPolicy, stuckAfter: Time, w: Watch, g: Glance): Watch {
    if !Stuck(w, g, stuckAfter) then w
    else if Gap(w, g) then
      match g.renonced
      case None => w
      case Some((tx, nonce)) => Watch(tx, w.fees, Some(nonce), g.now)
    else
      match BumpFees(p, w.fees.value)
      case AtCeiling => w
      case To(higher) =>
        match g.repriced
        case None => w
        case Some(tx) => Watch(tx, Some(higher), w.nonce, g.now)
  }

  /** Whether the iteration replaced the transaction, and so renames the row. */
  predicate Replaces(p: GasPolicy, stuckAfter: Time, w: Watch, g: Glance) {
    Stuck(w, g, stuckAfter)
    && if Gap(w, g) then g.renonced.Some? else BumpFees(p, w.fees.value).To? && g.repriced.Some?
  }

  class Tracker {
    var txHash: Bytes
    var fees: Option<Fees>
    var nonce: Option<U64>
    var waitingSince: Time
    const policy: GasPolicy
    const stuckAfter: Time

    ghost function State(): Watch
      reads this
    {
      Watch(txHash, fees, nonce, waitingSince)
    }

    constructor (policy: GasPolicy, stuckAfter: Time, first: Bytes, terms: Option<(U64, Fees)>, now: Time)
      ensures this.policy == policy && this.stuckAfter == stuckAfter
      ensures State() == Watch(first, if terms.Some? then Some(terms.value.1) else None,
                               if terms.Some? then Some(terms.value.0) else None, now)
    {
      this.policy, this.stuckAfter := policy, stuckAfter;
      txHash, waitingSince := first, now;
      fees := if terms.Some? then Some(terms.value.1) else None;
      nonce := if terms.Some? then Some(terms.value.0) else None;
    }

    /** One iteration that found the transaction not mined. Returns the rename to
        write to the settlement table, if any. */
    method Iterate(g: Glance) returns (write: Option<Write>)
      modifies this
      ensures State() == Advance(policy, stuckAfter, old(State()), g)
      ensures write == if Replaces(policy, stuckAfter, old(State()), g) then Some(Write(old(txHash), txHash)) else None
    {
      write := None;
      if g.now - waitingSince < stuckAfter {
        return;
      }
      if nonce.None? || fees.None? {
        return;
      }
      if g.pending.Some? && g.pending.value < nonce.value {
        match g.renonced {
          case None => {}
          case Some(sent) => {
            write := Some(Write(txHash, sent.0));
            txHash, nonce, waitingSince := sent.0, Some(sent.1), g.now;
          }
        }
        return;
      }
      match BumpFees(policy, fees.value) {
        case AtCeiling => {}
        case To(higher) => {
          match g.repriced {
            case None => {}
            case Some(tx) => {
              write := Some(Write(txHash, tx));
              txHash, fees, waitingSince := tx, Some(higher), g.now;
            }
          }
        }
      }
    }
  }

  // --- whole runs of the loop ------------------------------------------------

  function Watched(p: GasPolicy, stuckAfter: Time, w: Watch, gs: seq<Glance>): Watch {
    if gs == [] then w
    else Advance(p, stuckAfter, Watched(p, stuckAfter, w, gs[..|gs| - 1]), gs[|gs| - 1])
  }

  /** Every price offered, in order. */
  function Offers(p: GasPolicy, stuckAfter: Time, w: Watch, gs: seq<Glance>): seq<Fees>
    requires w.fees.Some?
  {
    if gs == [] then [w.fees.value]
    else
      var prefix := gs[..|gs| - 1];
      var before, after := Watched(p, stuckAfter, w, prefix), Watched(p, stuckAfter, w, gs);
      Offers(p, stuckAfter, w, prefix)
      + if after.fees != before.fees && after.fees.Some? then [after.fees.value] else []
  }

  /** The settlement table after the renames of a run. */
  function Renamed(p: GasPolicy, stuckAfter: Time, w: Watch, gs: seq<Glance>, db: DB, id: JobId): DB {
    if gs == [] then db
    else
      var prefix, last := gs[..|gs| - 1], gs[|gs| - 1];
      var before := Watched(p, stuckAfter, w, prefix);
      var db' := Renamed(p, stuckAfter, w, prefix, db, id);
      if Replaces(p, stuckAfter, before, last)
      then Apply(db', Replaced(id, before.txHash, Advance(p, stuckAfter, before, last).txHash))
      else db'
  }

  /** MAIN. However long the loop runs, whatever it meets, and whatever terms the
      first transaction was sent on: the prices it offers form one chain of bumps,
      so every later one is within both caps, and they are logarithmically few. */
  lemma OffersAreOneBumpChain(p: GasPolicy, stuckAfter: Time, w: Watch, gs: seq<Glance>, k: nat)
    requires w.fees.Some?
    requires 10 * Pow2(k) > p.maxFeeCap
    ensures var offers := Offers(p, stuckAfter, w, gs);
      && IsBumpChain(p, offers)
      && Watched(p, stuckAfter, w, gs).fees == Some(offers[|offers| - 1])
      && (forall i :: 0 < i < |offers| ==> WithinCaps(p, offers[i]))
      && (WithinCaps(p, w.fees.value) ==> WithinCaps(p, offers[0]))
      && |offers| <= 10 + 20 * k + 92
  {
    OffersChain(p, stuckAfter, w, gs);
    var offers := Offers(p, stuckAfter, w, gs);
    forall i | 0 <= i < |offers|
      ensures i > 0 || WithinCaps(p, offers[0]) ==> WithinCaps(p, offers[i])
    {
      ChainsStayWithinCaps(p, offers, i);
    }
    BumpChainsAreShort(p, offers, k);
  }

  lemma {:induction false} OffersChain(p: GasPolicy, stuckAfter: Time, w: Watch, gs: seq<Glance>)
    requires w.fees.Some?
    ensures var offers := Offers(p, stuckAfter, w, gs);
      && IsBumpChain(p, offers) && offers[0] == w.fees.value
      && Watched(p, stuckAfter, w, gs).fees == Some(offers[|offers| - 1])
  {
    if gs != [] {
      var prefix := gs[..|gs| - 1];
      OffersChain(p, stuckAfter, w, prefix);
      var offers, longer := Offers(p, stuckAfter, w, prefix), Offers(p, stuckAfter, w, gs);
      var before, after := Watched(p, stuckAfter, w, prefix), Watched(p, stuckAfter, w, gs);
      if after.fees != before.fees {
        forall i | 0 <= i < |longer| - 1
          ensures BumpFees(p, longer[i]) == To(longer[i + 1])
        {
          if i < |offers| - 1 {
            assert longer[i] == offers[i] && longer[i + 1] == offers[i + 1];
          } else {
            assert longer[i] == before.fees.value && longer[i + 1] == after.fees.value;
          }
        }
      }
    }
  }

  /** The iteration replaced the transaction at a nonce read again. */
  predicate Renonces(p: GasPolicy, stuckAfter: Time, w: Watch, g: Glance) {
    Replaces(p, stuckAfter, w, g) && Gap(w, g)
  }

  lemma ReplacementsKeepTheirTerms(p: GasPolicy, stuckAfter: Time, w: Watch, g: Glance)
    ensures var w' := Advance(p, stuckAfter, w, g);
      && (!Replaces(p, stuckAfter, w, g) ==> w' == w)
      && (Renonces(p, stuckAfter, w, g) ==> w'.fees == w.fees)
      && (Replaces(p, stuckAfter, w, g) && !Renonces(p, stuckAfter, w, g) ==>
            w'.nonce == w.nonce && w.fees.Some? && w'.fees.Some? && w'.fees.value.total > w.fees.value.total)
      && (w'.nonce.Some? <==> w.nonce.Some?) && (w'.fees.Some? <==> w.fees.Some?)
  {
  }

  /** Iteration `m` of a run, as the loop finds it. */
  predicate ReplacesAt(p: GasPolicy, stuckAfter: Time, w: Watch, gs: seq<Glance>, m: nat)
    requires m < |gs|
  {
    Replaces(p, stuckAfter, Watched(p, stuckAfter, w, gs[..m]), gs[m])
  }

  predicate RenoncesAt(p: GasPolicy, stuckAfter: Time, w: Watch, gs: seq<Glance>, m: nat)
    requires m < |gs|
  {
    Renonces(p, stuckAfter, Watched(p, stuckAfter, w, gs[..m]), gs[m])
  }

  function Total(w: Watch): int {
    match w.fees
    case None => 0
    case Some(f) => f.total
  }

  ghost predicate NoReplacement(p: GasPolicy, stuckAfter: Time, w: Watch, gs: seq<Glance>, i: nat, j: nat)
    requires i <= j <= |gs|
  {
    forall m :: i <= m < j ==> !ReplacesAt(p, stuckAfter, w, gs, m)
  }

  ghost predicate NoRenonce(p: GasPolicy, stuckAfter: Time, w: Watch, gs: seq<Glance>, i: nat, j: nat)
    requires i <= j <= |gs|
  {
    forall m :: i <= m < j ==> !RenoncesAt(p, stuckAfter, w, gs, m)
  }

  /** What iteration `j` does to the loop. */
  lemma OneIteration(p: GasPolicy, stuckAfter: Time, w: Watch, gs: seq<Glance>, j: nat)
    requires j < |gs|
    ensures var a, b := Watched(p, stuckAfter, w, gs[..j]), Watched(p, stuckAfter, w, gs[..j + 1]);
      && Total(b) >= Total(a)
      && (!ReplacesAt(p, stuckAfter, w, gs, j) ==> b == a)
      && (!RenoncesAt(p, stuckAfter, w, gs, j) ==> b.nonce == a.nonce)
      && (ReplacesAt(p, stuckAfter, w, gs, j) && !RenoncesAt(p, stuckAfter, w, gs, j) ==> Total(b) > Total(a))
  {
    assert gs[..j + 1][..j] == gs[..j];
    ReplacementsKeepTheirTerms(p, stuckAfter, Watched(p, stuckAfter, w, gs[..j]), gs[j]);
  }

  /** MAIN. In every run of the loop, between any two of its moments: nothing
      changes unless a replacement was sent; the total offered never falls; the
      nonce changes only where a gap was found; and while none is, any
      replacement leaves the one nonce at a strictly higher total, so it competes
      with what it replaces and never queues a second settlement behind it. */
  lemma {:induction false} EpochsKeepOneNonce(p: GasPolicy, stuckAfter: Time, w: Watch, gs: seq<Glance>, i: nat, j: nat)
    requires i <= j <= |gs|
    ensures var a, b := Watched(p, stuckAfter, w, gs[..i]), Watched(p, stuckAfter, w, gs[..j]);
      && (NoReplacement(p, stuckAfter, w, gs, i, j) ==> b == a)
      && Total(b) >= Total(a)
      && (NoRenonce(p, stuckAfter, w, gs, i, j) ==>
            && b.nonce == a.nonce
            && (!NoReplacement(p, stuckAfter, w, gs, i, j) ==> Total(b) > Total(a)))
  {
    if i < j {
      EpochsKeepOneNonce(p, stuckAfter, w, gs, i, j - 1);
      OneIteration(p, stuckAfter, w, gs, j - 1);
    }
  }

  // --- time ------------------------------------------------------------------

  /** When the loop last replaced its transaction, or began to wait. */
  function LastMove(p: GasPolicy, stuckAfter: Time, w: Watch, gs: seq<Glance>): Time {
    if gs == [] then w.waitingSince
    else
      var k := |gs| - 1;
      if ReplacesAt(p, stuckAfter, w, gs, k) then gs[k].now else LastMove(p, stuckAfter, w, gs[..k])
  }

  /** How often it has. */
  function Moves(p: GasPolicy, stuckAfter: Time, w: Watch, gs: seq<Glance>): nat {
    if gs == [] then 0
    else
      var k := |gs| - 1;
      Moves(p, stuckAfter, w, gs[..k]) + if ReplacesAt(p, stuckAfter, w, gs, k) then 1 else 0
  }

  lemma {:induction false} WaitsSinceTheLastMove(p: GasPolicy, stuckAfter: Time, w: Watch, gs: seq<Glance>)
    ensures var a := Watched(p, stuckAfter, w, gs);
      && a.waitingSince == LastMove(p, stuckAfter, w, gs)
      && (a.nonce.Some? <==> w.nonce.Some?) && (a.fees.Some? <==> w.fees.Some?)
  {
    if gs != [] {
      WaitsSinceTheLastMove(p, stuckAfter, w, gs[..|gs| - 1]);
    }
  }

  /** MAIN. Exactly when an iteration replaces, and what the loop follows then.
      It replaces when the waiting time has passed since the last replacement, the
      transaction's terms are known, and the node takes what is sent: at a nonce
      read again when the account is behind, at a higher price otherwise. */
  lemma IterationsReplaceExactly(p: GasPolicy, stuckAfter: Time, w: Watch, gs: seq<Glance>, g: Glance)
    ensures var a := Watched(p, stuckAfter, w, gs);
      var b := Watched(p, stuckAfter, w, gs + [g]);
      var known := w.nonce.Some? && w.fees.Some?;
      var waited := g.now - LastMove(p, stuckAfter, w, gs) >= stuckAfter;
      var behind := a.nonce.Some? && g.pending.Some? && g.pending.value < a.nonce.value;
      && (known <==> a.nonce.Some? && a.fees.Some?)
      && b == (if waited && known && behind && g.renonced.Some?
               then Watch(g.renonced.value.0, a.fees, Some(g.renonced.value.1), g.now)
               else if waited && known && !behind && g.repriced.Some? && BumpFees(p, a.fees.value).To?
               then Watch(g.repriced.value, Some(BumpFees(p, a.fees.value).fees), a.nonce, g.now)
               else a)
      && (ReplacesAt(p, stuckAfter, w, gs + [g], |gs|)
          <==> waited && known
               && if behind then g.renonced.Some? else g.repriced.Some? && BumpFees(p, a.fees.value).To?)
  {
    WaitsSinceTheLastMove(p, stuckAfter, w, gs);
    assert (gs + [g])[..|gs|] == gs;
  }

  /** MAIN. Replacements keep their distance: each comes at least the waiting time
      after every one before it, and the first as long after the wait began. */
  lemma {:induction false} ReplacementsAreSpaced(p: GasPolicy, stuckAfter: Time, w: Watch, gs: seq<Glance>, n: nat)
    requires stuckAfter >= 0 && n < |gs| && ReplacesAt(p, stuckAfter, w, gs, n)
    ensures gs[n].now >= w.waitingSince + stuckAfter
    ensures forall m :: 0 <= m < n && ReplacesAt(p, stuckAfter, w, gs, m) ==> gs[n].now >= gs[m].now + stuckAfter
  {
    WaitsSinceTheLastMove(p, stuckAfter, w, gs[..n]);
    LastMoveIsLast(p, stuckAfter, w, gs[..n]);
    forall m | 0 <= m < n && ReplacesAt(p, stuckAfter, w, gs, m)
      ensures gs[n].now >= gs[m].now + stuckAfter
    {
      assert gs[..n][..m] == gs[..m] && ReplacesAt(p, stuckAfter, w, gs[..n], m);
    }
  }

  /** No replacement is later than the last. */
  lemma {:induction false} LastMoveIsLast(p: GasPolicy, stuckAfter: Time, w: Watch, gs: seq<Glance>)
    requires stuckAfter >= 0
    ensures LastMove(p, stuckAfter, w, gs) >= w.waitingSince
    ensures forall m :: 0 <= m < |gs| && ReplacesAt(p, stuckAfter, w, gs, m) ==>
              LastMove(p, stuckAfter, w, gs) >= gs[m].now
  {
    if gs != [] {
      var k := |gs| - 1;
      LastMoveIsLast(p, stuckAfter, w, gs[..k]);
      WaitsSinceTheLastMove(p, stuckAfter, w, gs[..k]);
      forall m | 0 <= m < k && ReplacesAt(p, stuckAfter, w, gs, m)
        ensures LastMove(p, stuckAfter, w, gs) >= gs[m].now
      {
        assert gs[..k][..m] == gs[..m] && ReplacesAt(p, stuckAfter, w, gs[..k], m);
      }
    }
  }

  /** MAIN. So there are few of them: a run of the loop sends at most one
      replacement for each whole waiting time that has gone by since it began. */
  lemma {:induction false} ReplacementsAreRare(p: GasPolicy, stuckAfter: Time, w: Watch, gs: seq<Glance>, until: Time)
    requires stuckAfter >= 0 && w.waitingSince <= until
    requires forall m :: 0 <= m < |gs| ==> gs[m].now <= until
    ensures Moves(p, stuckAfter, w, gs) * stuckAfter
         <= LastMove(p, stuckAfter, w, gs) - w.waitingSince <= until - w.waitingSince
    ensures stuckAfter > 0 ==> Moves(p, stuckAfter, w, gs) <= (until - w.waitingSince) / stuckAfter
  {
    if gs != [] {
      var k := |gs| - 1;
      ReplacementsAreRare(p, stuckAfter, w, gs[..k], until);
      WaitsSinceTheLastMove(p, stuckAfter, w, gs[..k]);
      MovesAddUp(Moves(p, stuckAfter, w, gs[..k]), stuckAfter);
    }
    if stuckAfter > 0 {
      QuotientBound(Moves(p, stuckAfter, w, gs), stuckAfter, until - w.waitingSince);
    }
  }

  lemma MovesAddUp(n: nat, step: Time)
    ensures (n + 1) * step == n * step + step
  {
  }

  lemma QuotientBound(n: nat, step: int, total: int)
    requires step > 0 && n * step <= total
    ensures n <= total / step
  {
    if n > total / step {
      assert n * step >= (total / step + 1) * step by {
        ProductMonotone(step, total / step + 1, n);
      }
    }
  }

  // --- tips ------------------------------------------------------------------

  /** A node that still holds the transaction takes a repriced one only when both
      of its fees clear the rule. */
  predicate KeepsTheRule(p: GasPolicy, w: Watch, g: Glance) {
    g.repriced.Some? && w.fees.Some? && BumpFees(p, w.fees.value).To? ==>
      NodeTakes(w.fees.value, BumpFees(p, w.fees.value).fees)
  }

  /** MAIN. What becomes of a tip without room: on a node that keeps the rule, no
      run of the loop ever changes the price again, however long it waits and
      however far the total is below its cap; the same offer is made and refused
      each time. */
  lemma {:induction false} TipsWithoutRoomStallTheLoop(p: GasPolicy, stuckAfter: Time, w: Watch, gs: seq<Glance>)
    requires w.fees.Some? && w.fees.value.tip <= w.fees.value.total && !TipHasRoom(p, w.fees.value)
    requires forall m :: 0 <= m < |gs| ==> KeepsTheRule(p, Watched(p, stuckAfter, w, gs[..m]), gs[m])
    ensures Watched(p, stuckAfter, w, gs).fees == w.fees
    ensures Offers(p, stuckAfter, w, gs) == [w.fees.value]
  {
    if gs != [] {
      var k := |gs| - 1;
      forall m | 0 <= m < k
        ensures KeepsTheRule(p, Watched(p, stuckAfter, w, gs[..k][..m]), gs[..k][m])
      {
        assert gs[..k][..m] == gs[..m];
      }
      TipsWithoutRoomStallTheLoop(p, stuckAfter, w, gs[..k]);
      NodesTakeBumpsExactly(p, w.fees.value);
      assert KeepsTheRule(p, Watched(p, stuckAfter, w, gs[..k]), gs[k]);
    }
  }

  /** MAIN. The renames written along the way carry the live row from the first
      hash to the one now followed. */
  lemma {:induction false} RenamesFollowTheLoop(
    p: GasPolicy, stuckAfter: Time, w: Watch, gs: seq<Glance>, db: DB, id: JobId)
    requires HasLive(db.settlements, id, w.txHash)
    ensures HasLive(Renamed(p, stuckAfter, w, gs, db, id).settlements, id, Watched(p, stuckAfter, w, gs).txHash)
  {
    if gs != [] {
      var prefix, last := gs[..|gs| - 1], gs[|gs| - 1];
      RenamesFollowTheLoop(p, stuckAfter, w, prefix, db, id);
      var before := Watched(p, stuckAfter, w, prefix);
      var after := Advance(p, stuckAfter, before, last);
      ReplacementsKeepTheirTerms(p, stuckAfter, before, last);
      if Replaces(p, stuckAfter, before, last) {
        RenamingMovesTheRow(Renamed(p, stuckAfter, w, prefix, db, id), id, before.txHash, after.txHash);
      }
    }
  }
}
