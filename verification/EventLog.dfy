/** What the contract's event log tells: whoever reads it and nothing else knows
    who owns the contract, which verifier answers for which circuit, who may
    settle and what was settled. */
module EventLog {
  import opened Basics
  import opened Contract
  import opened Chain

  function OwnerIn(log: seq<Event>): Address {
    if log == [] then ZERO_ADDRESS
    else
      match log[|log| - 1]
      case OwnershipTransferred(_, to) => to
      case _ => OwnerIn(log[..|log| - 1])
  }

  function VerifierIn(log: seq<Event>, c: Word): Address {
    if log == [] then ZERO_ADDRESS
    else
      match log[|log| - 1]
      case CircuitRegistered(d, verifier) => if d == c then verifier else VerifierIn(log[..|log| - 1], c)
      case CircuitDeregistered(d) => if d == c then ZERO_ADDRESS else VerifierIn(log[..|log| - 1], c)
      case _ => VerifierIn(log[..|log| - 1], c)
  }

  predicate AuthorisedIn(log: seq<Event>, r: Address) {
    log != []
    && match log[|log| - 1]
       case RelayerSet(q, authorised) => if q == r then authorised else AuthorisedIn(log[..|log| - 1], r)
       case _ => AuthorisedIn(log[..|log| - 1], r)
  }

  /** The log so far allows this event next. */
  predicate Allowed(log: seq<Event>, e: Event) {
    match e
    case Settled(c, nullifier, relayer, inputs) =>
      && AuthorisedIn(log, relayer) && VerifierIn(log, c) != ZERO_ADDRESS
      && inputs != [] && nullifier == LastOf(inputs) && SettledCount(log, nullifier) == 0
    case CircuitRegistered(c, verifier) => verifier != ZERO_ADDRESS && VerifierIn(log, c) == ZERO_ADDRESS
    case CircuitDeregistered(c) => VerifierIn(log, c) != ZERO_ADDRESS
    case RelayerSet(r, _) => r != ZERO_ADDRESS
    case OwnershipTransferred(from, to) => from == OwnerIn(log) && to != ZERO_ADDRESS
  }

  ghost predicate Orderly(log: seq<Event>) {
    log != [] ==> Orderly(log[..|log| - 1]) && Allowed(log[..|log| - 1], log[|log| - 1])
  }

  /** The storage is what the log tells. */
  ghost predicate Told(s: State) {
    && s.owner == OwnerIn(s.events)
    && (forall c :: VerifierFor(s, c) == VerifierIn(s.events, c))
    && (forall r :: Authorised(s, r) <==> AuthorisedIn(s.events, r))
    && OneEventPerNullifier(s)
    && Orderly(s.events)
  }

  lemma TheLogGrows(log: seq<Event>, e: Event, c: Word, r: Address)
    ensures OwnerIn(log + [e]) == if e.OwnershipTransferred? then e.to else OwnerIn(log)
    ensures VerifierIn(log + [e], c)
         == (if e.CircuitRegistered? && e.circuitId == c then e.verifier
             else if e.CircuitDeregistered? && e.circuitId == c then ZERO_ADDRESS
             else VerifierIn(log, c))
    ensures AuthorisedIn(log + [e], r) == if e.RelayerSet? && e.relayer == r then e.authorised else AuthorisedIn(log, r)
    ensures Orderly(log) && Allowed(log, e) ==> Orderly(log + [e])
  {
    assert (log + [e])[..|log|] == log;
  }

  /** The event a call leaves is one the log allows; a settlement's names the
      sender, the circuit and the inputs it was called with. */
  lemma EventsAreAllowed(verify: Verifier, s: State, m: Message)
    requires Told(s) && After(verify, s, m) != s
    ensures var s' := After(verify, s, m);
      |s'.events| == |s.events| + 1 && s'.events == s.events + [s'.events[|s.events|]]
    ensures var e := After(verify, s, m).events[|s.events|];
      && Allowed(s.events, e)
      && (m.action.Settle? <==> e.Settled?)
      && (e.Settled? ==>
            e.relayer == m.sender && e.circuitId == m.action.circuitId && e.publicInputs == m.action.publicInputs)
  {
    if m.action.Settle? {
      assert SettledCount(s.events, LastOf(m.action.publicInputs)) == 0;
    }
  }

  /** One event, and what it says happened to the storage. */
  ghost predicate Moves(s: State, s': State, e: Event) {
    && s'.events == s.events + [e]
    && s'.owner == (if e.OwnershipTransferred? then e.to else s.owner)
    && (forall c :: VerifierFor(s', c)
          == (if e.CircuitRegistered? && e.circuitId == c then e.verifier
              else if e.CircuitDeregistered? && e.circuitId == c then ZERO_ADDRESS
              else VerifierFor(s, c)))
    && (forall r :: Authorised(s', r) <==> if e.RelayerSet? && e.relayer == r then e.authorised else Authorised(s, r))
  }

  lemma CallsMove(verify: Verifier, s: State, m: Message)
    requires After(verify, s, m) != s
    ensures |After(verify, s, m).events| > |s.events|
    ensures Moves(s, After(verify, s, m), After(verify, s, m).events[|s.events|])
  {
  }

  lemma MovesAreTold(s: State, s': State, e: Event)
    requires Told(s) && Moves(s, s', e) && Allowed(s.events, e) && OneEventPerNullifier(s')
    ensures Told(s')
  {
    forall c, r
      ensures VerifierFor(s', c) == VerifierIn(s'.events, c) && (Authorised(s', r) <==> AuthorisedIn(s'.events, r))
      ensures s'.owner == OwnerIn(s'.events) && Orderly(s'.events)
    {
      TheLogGrows(s.events, e, c, r);
    }
  }

  lemma AfterIsTold(verify: Verifier, s: State, m: Message)
    requires Told(s)
    ensures Told(After(verify, s, m))
  {
    var s' := After(verify, s, m);
    if s' != s {
      AfterKeepsEvents(verify, s, m);
      CallsMove(verify, s, m);
      EventsAreAllowed(verify, s, m);
      MovesAreTold(s, s', s'.events[|s.events|]);
    }
  }

  lemma {:induction false} TxsAreTold(verify: Verifier, s: State, txs: seq<Included>)
    requires Told(s)
    ensures Told(AfterTxs(verify, s, txs))
  {
    if txs != [] {
      TxsAreTold(verify, s, txs[..|txs| - 1]);
      AfterIsTold(verify, AfterTxs(verify, s, txs[..|txs| - 1]), txs[|txs| - 1].message);
    }
  }

  lemma DeploymentIsTold(verify: Verifier, owner: Address)
    requires owner != ZERO_ADDRESS
    ensures Told(Deployed(owner))
  {
    EveryChainKeeps(verify, owner, []);
    var e := OwnershipTransferred(ZERO_ADDRESS, owner);
    assert [] + [e] == Deployed(owner).events;
    forall c, r
      ensures VerifierIn([e], c) == ZERO_ADDRESS && !AuthorisedIn([e], r) && OwnerIn([e]) == owner && Orderly([e])
    {
      TheLogGrows([], e, c, r);
    }
  }

  /** MAIN. On every chain, whoever calls what: the contract's whole state can be
      read off its events, and each event was allowed by those before it. So a
      settlement in the log was made by a relayer the log authorised, for a circuit
      the log registered, with a nullifier new to the log and last among its
      inputs. */
  lemma {:induction false} EventsTellTheState(verify: Verifier, owner: Address, blocks: Blocks)
    requires owner != ZERO_ADDRESS
    ensures Told(Fold(verify, owner, blocks))
  {
    if blocks == [] {
      DeploymentIsTold(verify, owner);
    } else {
      EventsTellTheState(verify, owner, blocks[..|blocks| - 1]);
      TxsAreTold(verify, Fold(verify, owner, blocks[..|blocks| - 1]), blocks[|blocks| - 1].txs);
    }
  }
}
