/** The on-chain settlement contract. Storage is updated in place; a call that
    reverts leaves it as it was. */
module Contract {
  import opened Basics

  type Word = seq<Byte>        // a bytes32
  type Address = string
  const ZERO_ADDRESS: Address := ""

  /** How a verifier contract answers a proof. `Unanswerable` is a verifier that
      is not a contract, or does not return a boolean: the caller itself reverts
      and a `catch` does not intercept it. */
  datatype Verdict = Accepts | Rejects | Reverts | Unanswerable

  /** Verifiers are stateless: the verdict depends only on the call. */
  type Verifier = (Address, seq<Byte>, seq<Word>) -> Verdict

  datatype ContractError =
    | NotOwner
    | NotAuthorisedRelayer
    | UnknownCircuit(circuitId: Word)
    | CircuitAlreadyRegistered(circuitId: Word)
    | NullifierAlreadyUsed(nullifier: Word)
    | InvalidProof
    | VerifierReverted
    | MissingPublicInputs
    | ZeroAddress

  datatype Event =
    | Settled(circuitId: Word, nullifier: Word, relayer: Address, publicInputs: seq<Word>)
    | CircuitRegistered(circuitId: Word, verifier: Address)
    | CircuitDeregistered(circuitId: Word)
    | RelayerSet(relayer: Address, authorised: bool)
    | OwnershipTransferred(from: Address, to: Address)

  datatype State = State(
    owner: Address,
    verifierOf: map<Word, Address>,      // absent means the zero address
    isRelayer: map<Address, bool>,       // absent means false
    nullifierUsed: set<Word>,
    events: seq<Event>)

  datatype Action =
    | Settle(circuitId: Word, proof: seq<Byte>, publicInputs: seq<Word>)
    | RegisterCircuit(circuitId: Word, verifier: Address)
    | DeregisterCircuit(circuitId: Word)
    | SetRelayer(relayer: Address, authorised: bool)
    | TransferOwnership(newOwner: Address)

  function Deployed(owner: Address): State {
    State(owner, map[], map[], {}, [OwnershipTransferred(ZERO_ADDRESS, owner)])
  }

  predicate Authorised(s: State, sender: Address) {
    sender in s.isRelayer && s.isRelayer[sender]
  }

  function VerifierFor(s: State, circuitId: Word): Address {
    if circuitId in s.verifierOf then s.verifierOf[circuitId] else ZERO_ADDRESS
  }

  function LastOf(inputs: seq<Word>): Word
    requires inputs != []
  {
    inputs[|inputs| - 1]
  }

  /** One external call. `Err` is a revert: the state is unchanged. */
  function Execute(verify: Verifier, s: State, sender: Address, action: Action): Result<State, ContractError> {
    match action
    case Settle(circuitId, proof, inputs) =>
      var verifier := VerifierFor(s, circuitId);
      if !Authorised(s, sender) then Err(NotAuthorisedRelayer)
      else if verifier == ZERO_ADDRESS then Err(UnknownCircuit(circuitId))
      else if inputs == [] then Err(MissingPublicInputs)
      else if LastOf(inputs) in s.nullifierUsed then Err(NullifierAlreadyUsed(LastOf(inputs)))
      else
        (match verify(verifier, proof, inputs)
         case Accepts =>
           Ok(s.(nullifierUsed := s.nullifierUsed + {LastOf(inputs)},
                 events := s.events + [Settled(circuitId, LastOf(inputs), sender, inputs)]))
         case Rejects => Err(InvalidProof)
         case Reverts => Err(VerifierReverted)
         case Unanswerable => Err(VerifierReverted))
    case RegisterCircuit(circuitId, verifier) =>
      if sender != s.owner then Err(NotOwner)
      else if verifier == ZERO_ADDRESS then Err(ZeroAddress)
      else if VerifierFor(s, circuitId) != ZERO_ADDRESS then Err(CircuitAlreadyRegistered(circuitId))
      else Ok(s.(verifierOf := s.verifierOf[circuitId := verifier],
                 events := s.events + [CircuitRegistered(circuitId, verifier)]))
    case DeregisterCircuit(circuitId) =>
      if sender != s.owner then Err(NotOwner)
      else if VerifierFor(s, circuitId) == ZERO_ADDRESS then Err(UnknownCircuit(circuitId))
      else Ok(s.(verifierOf := s.verifierOf - {circuitId}, events := s.events + [CircuitDeregistered(circuitId)]))
    case SetRelayer(relayer, authorised) =>
      if sender != s.owner then Err(NotOwner)
      else if relayer == ZERO_ADDRESS then Err(ZeroAddress)
      else Ok(s.(isRelayer := s.isRelayer[relayer := authorised],
                 events := s.events + [RelayerSet(relayer, authorised)]))
    case TransferOwnership(newOwner) =>
      if sender != s.owner then Err(NotOwner)
      else if newOwner == ZERO_ADDRESS then Err(ZeroAddress)
      else Ok(s.(owner := newOwner, events := s.events + [OwnershipTransferred(s.owner, newOwner)]))
  }

  /** The pre-flight view: `Ok(b)` when it returns `b`, `Err` when the view
      itself reverts. */
  function WouldSettle(
    verify: Verifier, s: State, circuitId: Word, proof: seq<Byte>, inputs: seq<Word>): Result<bool, ContractError>
  {
    var verifier := VerifierFor(s, circuitId);
    if verifier == ZERO_ADDRESS || inputs == [] then Ok(false)
    else if LastOf(inputs) in s.nullifierUsed then Ok(false)
    else
      match verify(verifier, proof, inputs)
      case Accepts => Ok(true)
      case Rejects => Ok(false)
      case Reverts => Ok(false)
      case Unanswerable => Err(VerifierReverted)
  }

  /** MAIN. For an authorised sender the pre-flight answers `true` exactly when
      the call would go through; for anyone else the call never does. */
  lemma PreflightPredictsSettlement(
    verify: Verifier, s: State, sender: Address, circuitId: Word, proof: seq<Byte>, inputs: seq<Word>)
    ensures Execute(verify, s, sender, Settle(circuitId, proof, inputs)).Ok?
       <==> Authorised(s, sender) && WouldSettle(verify, s, circuitId, proof, inputs) == Ok(true)
  {
  }

  /** The view always answers exactly when the verifier it reaches can answer:
      the `try` does not cover a verifier with no code. */
  lemma PreflightAnswersUnlessVerifierIsMissing(
    verify: Verifier, s: State, circuitId: Word, proof: seq<Byte>, inputs: seq<Word>)
    ensures WouldSettle(verify, s, circuitId, proof, inputs).Err?
       <==> && VerifierFor(s, circuitId) != ZERO_ADDRESS && inputs != [] && LastOf(inputs) !in s.nullifierUsed
            && verify(VerifierFor(s, circuitId), proof, inputs).Unanswerable?
  {
  }

  datatype Message = Message(sender: Address, action: Action)

  function After(verify: Verifier, s: State, m: Message): State {
    match Execute(verify, s, m.sender, m.action)
    case Ok(s') => s'
    case Err(_) => s
  }

  function SettledCount(events: seq<Event>, nullifier: Word): nat {
    if events == [] then 0
    else
      var last := events[|events| - 1];
      SettledCount(events[..|events| - 1], nullifier) + if last.Settled? && last.nullifier == nullifier then 1 else 0
  }

  /** Every nullifier has one `Settled` event if it is consumed, and none if it
      is not. */
  ghost predicate OneEventPerNullifier(s: State) {
    forall n :: SettledCount(s.events, n) == if n in s.nullifierUsed then 1 else 0
  }

  lemma SettledCountAppend(events: seq<Event>, e: Event, n: Word)
    ensures SettledCount(events + [e], n) == SettledCount(events, n) + if e.Settled? && e.nullifier == n then 1 else 0
  {
    assert (events + [e])[..|events|] == events;
  }

  /** A call that does not revert emits one event; it consumes a nullifier just
      when that event is `Settled`, and only a fresh one. */
  lemma OneCallOneEvent(verify: Verifier, s: State, m: Message)
    ensures var s' := After(verify, s, m);
      s' == s
      || (|s'.events| == |s.events| + 1
          && var e := s'.events[|s.events|];
             && s'.events == s.events + [e]
             && (if e.Settled?
                 then e.nullifier !in s.nullifierUsed && s'.nullifierUsed == s.nullifierUsed + {e.nullifier}
                 else s'.nullifierUsed == s.nullifierUsed))
  {
  }

  lemma AfterKeepsEvents(verify: Verifier, s: State, m: Message)
    requires OneEventPerNullifier(s)
    ensures OneEventPerNullifier(After(verify, s, m))
    ensures s.nullifierUsed <= After(verify, s, m).nullifierUsed
  {
    OneCallOneEvent(verify, s, m);
    var s' := After(verify, s, m);
    if s' != s {
      OneEventMore(s, s', s'.events[|s.events|]);
    }
  }

  lemma OneEventMore(s: State, s': State, e: Event)
    requires OneEventPerNullifier(s)
    requires s'.events == s.events + [e]
    requires if e.Settled?
             then e.nullifier !in s.nullifierUsed && s'.nullifierUsed == s.nullifierUsed + {e.nullifier}
             else s'.nullifierUsed == s.nullifierUsed
    ensures OneEventPerNullifier(s')
  {
    forall n
      ensures SettledCount(s'.events, n) == if n in s'.nullifierUsed then 1 else 0
    {
      SettledCountAppend(s.events, e, n);
    }
  }

  /** The deployed contract, with storage updated in place. */
  class DraySettlement {
    var owner: Address
    var verifierOf: map<Word, Address>
    var isRelayer: map<Address, bool>
    var nullifierUsed: set<Word>
    var events: seq<Event>

    ghost function Storage(): State
      reads this
    {
      State(owner, verifierOf, isRelayer, nullifierUsed, events)
    }

    constructor (initialOwner: Address)
      requires initialOwner != ZERO_ADDRESS
      ensures Storage() == Deployed(initialOwner)
    {
      owner := initialOwner;
      verifierOf, isRelayer, nullifierUsed := map[], map[], {};
      events := [OwnershipTransferred(ZERO_ADDRESS, initialOwner)];
    }

    method SettleProof(verify: Verifier, sender: Address, circuitId: Word, proof: seq<Byte>, publicInputs: seq<Word>)
      returns (r: Result<(), ContractError>)
      modifies this`nullifierUsed, this`events
      ensures match Execute(verify, old(Storage()), sender, Settle(circuitId, proof, publicInputs))
              case Ok(s) => r.Ok? && Storage() == s
              case Err(e) => r == Err(e) && Storage() == old(Storage())
    {
      if !(sender in isRelayer && isRelayer[sender]) {
        return Err(NotAuthorisedRelayer);
      }
      var verifier := if circuitId in verifierOf then verifierOf[circuitId] else ZERO_ADDRESS;
      if verifier == ZERO_ADDRESS {
        return Err(UnknownCircuit(circuitId));
      }
      if |publicInputs| == 0 {
        return Err(MissingPublicInputs);
      }
      var nullifier := publicInputs[|publicInputs| - 1];
      if nullifier in nullifierUsed {
        return Err(NullifierAlreadyUsed(nullifier));
      }
      var verdict := verify(verifier, proof, publicInputs);
      if verdict.Reverts? || verdict.Unanswerable? {
        return Err(VerifierReverted);
      }
      if !verdict.Accepts? {
        return Err(InvalidProof);
      }
      nullifierUsed := nullifierUsed + {nullifier};
      events := events + [Settled(circuitId, nullifier, sender, publicInputs)];
      return Ok(());
    }

    /** `wouldSettle`: consumes nothing, and answers `true` exactly when the call
        would go through for any authorised sender. */
    method Preflight(verify: Verifier, circuitId: Word, proof: seq<Byte>, publicInputs: seq<Word>)
      returns (r: Result<bool, ContractError>)
      ensures r == WouldSettle(verify, Storage(), circuitId, proof, publicInputs)
      ensures forall sender :: Authorised(Storage(), sender) ==>
                (Execute(verify, Storage(), sender, Settle(circuitId, proof, publicInputs)).Ok? <==> r == Ok(true))
    {
      var verifier := if circuitId in verifierOf then verifierOf[circuitId] else ZERO_ADDRESS;
      if verifier == ZERO_ADDRESS || |publicInputs| == 0 {
        return Ok(false);
      }
      if publicInputs[|publicInputs| - 1] in nullifierUsed {
        return Ok(false);
      }
      match verify(verifier, proof, publicInputs) {
        case Accepts => return Ok(true);
        case Rejects => return Ok(false);
        case Reverts => return Ok(false);
        case Unanswerable => return Err(VerifierReverted);
      }
    }

    method Register(verify: Verifier, sender: Address, circuitId: Word, verifier: Address)
      returns (r: Result<(), ContractError>)
      modifies this`verifierOf, this`events
      ensures match Execute(verify, old(Storage()), sender, RegisterCircuit(circuitId, verifier))
              case Ok(s) => r.Ok? && Storage() == s
              case Err(e) => r == Err(e) && Storage() == old(Storage())
    {
      if sender != owner {
        return Err(NotOwner);
      }
      if verifier == ZERO_ADDRESS {
        return Err(ZeroAddress);
      }
      if circuitId in verifierOf && verifierOf[circuitId] != ZERO_ADDRESS {
        return Err(CircuitAlreadyRegistered(circuitId));
      }
      verifierOf := verifierOf[circuitId := verifier];
      events := events + [CircuitRegistered(circuitId, verifier)];
      return Ok(());
    }

    method Deregister(verify: Verifier, sender: Address, circuitId: Word) returns (r: Result<(), ContractError>)
      modifies this`verifierOf, this`events
      ensures match Execute(verify, old(Storage()), sender, DeregisterCircuit(circuitId))
              case Ok(s) => r.Ok? && Storage() == s
              case Err(e) => r == Err(e) && Storage() == old(Storage())
    {
      if sender != owner {
        return Err(NotOwner);
      }
      if circuitId !in verifierOf || verifierOf[circuitId] == ZERO_ADDRESS {
        return Err(UnknownCircuit(circuitId));
      }
      verifierOf := verifierOf - {circuitId};
      events := events + [CircuitDeregistered(circuitId)];
      return Ok(());
    }

    method SetAuthorised(verify: Verifier, sender: Address, relayer: Address, authorised: bool)
      returns (r: Result<(), ContractError>)
      modifies this`isRelayer, this`events
      ensures match Execute(verify, old(Storage()), sender, SetRelayer(relayer, authorised))
              case Ok(s) => r.Ok? && Storage() == s
              case Err(e) => r == Err(e) && Storage() == old(Storage())
    {
      if sender != owner {
        return Err(NotOwner);
      }
      if relayer == ZERO_ADDRESS {
        return Err(ZeroAddress);
      }
      isRelayer := isRelayer[relayer := authorised];
      events := events + [RelayerSet(relayer, authorised)];
      return Ok(());
    }

    method HandOver(verify: Verifier, sender: Address, newOwner: Address) returns (r: Result<(), ContractError>)
      modifies this`owner, this`events
      ensures match Execute(verify, old(Storage()), sender, TransferOwnership(newOwner))
              case Ok(s) => r.Ok? && Storage() == s
              case Err(e) => r == Err(e) && Storage() == old(Storage())
    {
      if sender != owner {
        return Err(NotOwner);
      }
      if newOwner == ZERO_ADDRESS {
        return Err(ZeroAddress);
      }
      events := events + [OwnershipTransferred(owner, newOwner)];
      owner := newOwner;
      return Ok(());
    }
  }
}
