/** Who may change what in the contract, and what every consumed nullifier proves. */
module Access {
  import opened Basics
  import opened Contract
  import opened Chain

  // --- one call ---------------------------------------------------------------------

  /** Everything the owner administers. */
  predicate SameRoles(s: State, s': State) {
    s'.owner == s.owner && s'.verifierOf == s.verifierOf && s'.isRelayer == s.isRelayer
  }

  /** MAIN. Only the owner changes the owner, a verifier or a relayer; and only an
      authorised relayer consumes a nullifier. */
  lemma OnlyOwnersAdminister(verify: Verifier, s: State, m: Message)
    ensures !SameRoles(s, After(verify, s, m)) ==> m.sender == s.owner
    ensures After(verify, s, m).nullifierUsed != s.nullifierUsed ==> Authorised(s, m.sender)
  {
  }

  /** Exactly when an administrative call goes through. */
  lemma AdministrationSucceedsExactly(verify: Verifier, s: State, sender: Address, c: Word, a: Address, flag: bool)
    ensures Execute(verify, s, sender, RegisterCircuit(c, a)).Ok?
       <==> sender == s.owner && a != ZERO_ADDRESS && VerifierFor(s, c) == ZERO_ADDRESS
    ensures Execute(verify, s, sender, DeregisterCircuit(c)).Ok?
       <==> sender == s.owner && VerifierFor(s, c) != ZERO_ADDRESS
    ensures Execute(verify, s, sender, SetRelayer(a, flag)).Ok? <==> sender == s.owner && a != ZERO_ADDRESS
    ensures Execute(verify, s, sender, TransferOwnership(a)).Ok? <==> sender == s.owner && a != ZERO_ADDRESS
    ensures sender != s.owner ==>
      && Execute(verify, s, sender, RegisterCircuit(c, a)) == Err(NotOwner)
      && Execute(verify, s, sender, DeregisterCircuit(c)) == Err(NotOwner)
      && Execute(verify, s, sender, SetRelayer(a, flag)) == Err(NotOwner)
      && Execute(verify, s, sender, TransferOwnership(a)) == Err(NotOwner)
  {
  }

  /** What each leaves: its own change, and nothing else. */
  lemma AdministrationDoesOneThing(verify: Verifier, s: State, m: Message)
    ensures var s' := After(verify, s, m);
      s' == s ||
      match m.action
      case RegisterCircuit(c, a) =>
        && s'.owner == s.owner && s'.isRelayer == s.isRelayer && s'.nullifierUsed == s.nullifierUsed
        && (forall d :: VerifierFor(s', d) == if d == c then a else VerifierFor(s, d))
      case DeregisterCircuit(c) =>
        && s'.owner == s.owner && s'.isRelayer == s.isRelayer && s'.nullifierUsed == s.nullifierUsed
        && (forall d :: VerifierFor(s', d) == if d == c then ZERO_ADDRESS else VerifierFor(s, d))
      case SetRelayer(r, flag) =>
        && s'.owner == s.owner && s'.verifierOf == s.verifierOf && s'.nullifierUsed == s.nullifierUsed
        && (forall q :: Authorised(s', q) <==> if q == r then flag else Authorised(s, q))
      case TransferOwnership(o) =>
        && s'.owner == o && s'.verifierOf == s.verifierOf && s'.isRelayer == s.isRelayer
        && s'.nullifierUsed == s.nullifierUsed
      case Settle(c, proof, inputs) =>
        SameRoles(s, s') && inputs != [] && s'.nullifierUsed == s.nullifierUsed + {LastOf(inputs)}
  {
  }

  /** MAIN. What it takes to consume a nullifier: an authorised sender, a
      registered circuit, a fresh nullifier, and a proof its verifier accepts. */
  lemma SettlementsAreVerified(
    verify: Verifier, s: State, sender: Address, c: Word, proof: seq<Byte>, inputs: seq<Word>)
    ensures Execute(verify, s, sender, Settle(c, proof, inputs)).Ok?
       <==> && Authorised(s, sender) && VerifierFor(s, c) != ZERO_ADDRESS
            && inputs != [] && LastOf(inputs) !in s.nullifierUsed
            && verify(VerifierFor(s, c), proof, inputs).Accepts?
  {
  }

  /** The error of a refused settlement names what is wrong with it, and everything
      checked earlier is in order. */
  lemma RefusalsNameTheCause(
    verify: Verifier, s: State, sender: Address, c: Word, proof: seq<Byte>, inputs: seq<Word>)
    ensures var r := Execute(verify, s, sender, Settle(c, proof, inputs));
      r.Err? ==>
        match r.error
        case NotAuthorisedRelayer => !Authorised(s, sender)
        case UnknownCircuit(d) => d == c && VerifierFor(s, c) == ZERO_ADDRESS && Authorised(s, sender)
        case MissingPublicInputs => inputs == [] && VerifierFor(s, c) != ZERO_ADDRESS && Authorised(s, sender)
        case NullifierAlreadyUsed(n) =>
          inputs != [] && n == LastOf(inputs) && n in s.nullifierUsed
          && VerifierFor(s, c) != ZERO_ADDRESS && Authorised(s, sender)
        case InvalidProof =>
          OnlyTheProofIsLeft(s, sender, c, inputs) && verify(VerifierFor(s, c), proof, inputs).Rejects?
        case VerifierReverted =>
          OnlyTheProofIsLeft(s, sender, c, inputs)
          && verify(VerifierFor(s, c), proof, inputs) in {Reverts, Unanswerable}
        case _ => false
  {
  }

  /** Nothing but the proof is left to check. */
  predicate OnlyTheProofIsLeft(s: State, sender: Address, c: Word, inputs: seq<Word>) {
    && Authorised(s, sender) && VerifierFor(s, c) != ZERO_ADDRESS
    && inputs != [] && LastOf(inputs) !in s.nullifierUsed
  }

  // --- whole chains -----------------------------------------------------------------

  /** Every transaction so far, in order. */
  function Txs(blocks: Blocks): seq<Included> {
    if blocks == [] then [] else Txs(blocks[..|blocks| - 1]) + blocks[|blocks| - 1].txs
  }

  lemma {:induction false} TxsAppend(verify: Verifier, s: State, xs: seq<Included>, ys: seq<Included>)
    ensures AfterTxs(verify, s, xs + ys) == AfterTxs(verify, AfterTxs(verify, s, xs), ys)
  {
    if ys == [] {
      assert xs + ys == xs;
    } else {
      assert (xs + ys)[..|xs + ys| - 1] == xs + ys[..|ys| - 1];
      TxsAppend(verify, s, xs, ys[..|ys| - 1]);
    }
  }

  lemma {:induction false} FoldIsAllTxs(verify: Verifier, owner: Address, blocks: Blocks)
    ensures Fold(verify, owner, blocks) == AfterTxs(verify, Deployed(owner), Txs(blocks))
  {
    if blocks != [] {
      FoldIsAllTxs(verify, owner, blocks[..|blocks| - 1]);
      TxsAppend(verify, Deployed(owner), Txs(blocks[..|blocks| - 1]), blocks[|blocks| - 1].txs);
    }
  }

  /** The owner sent none of these. */
  predicate NoneFrom(owner: Address, txs: seq<Included>) {
    forall i :: 0 <= i < |txs| ==> txs[i].message.sender != owner
  }

  lemma {:induction false} StrangersKeepRoles(verify: Verifier, s: State, txs: seq<Included>)
    requires NoneFrom(s.owner, txs)
    ensures SameRoles(s, AfterTxs(verify, s, txs))
  {
    if txs != [] {
      var k := |txs| - 1;
      StrangersKeepRoles(verify, s, txs[..k]);
      OnlyOwnersAdminister(verify, AfterTxs(verify, s, txs[..k]), txs[k].message);
    }
  }

  /** MAIN. On every chain, transactions of anyone but the owner, however many and
      whatever they call, never change the owner, a verifier or a relayer. */
  lemma StrangersNeverAdminister(verify: Verifier, owner: Address, blocks: Blocks, more: Blocks)
    requires NoneFrom(Fold(verify, owner, blocks).owner, Txs(more))
    ensures SameRoles(Fold(verify, owner, blocks), Fold(verify, owner, blocks + more))
  {
    FoldIsAllTxs(verify, owner, blocks);
    FoldIsAllTxs(verify, owner, blocks + more);
    TxsOfMore(blocks, more);
    TxsAppend(verify, Deployed(owner), Txs(blocks), Txs(more));
    StrangersKeepRoles(verify, Fold(verify, owner, blocks), Txs(more));
  }

  lemma {:induction false} TxsOfMore(blocks: Blocks, more: Blocks)
    ensures Txs(blocks + more) == Txs(blocks) + Txs(more)
  {
    if more == [] {
      assert blocks + more == blocks && Txs(more) == [];
    } else {
      assert (blocks + more)[..|blocks + more| - 1] == blocks + more[..|more| - 1];
      TxsOfMore(blocks, more[..|more| - 1]);
    }
  }

  /** What a transaction that fails, or runs out of gas, leaves behind. */
  lemma FailedTransactionsChangeNothing(verify: Verifier, owner: Address, blocks: Blocks, i: nat)
    requires blocks != [] && i < |blocks[|blocks| - 1].txs|
    ensures var txs, s0 := blocks[|blocks| - 1].txs, Fold(verify, owner, blocks[..|blocks| - 1]);
      var s, s' := AfterTxs(verify, s0, txs[..i]), AfterTxs(verify, s0, txs[..i + 1]);
      && (!TxSucceeds(verify, owner, blocks, i) ==> s' == s)
      && (TxSucceeds(verify, owner, blocks, i) ==>
            Execute(verify, s, txs[i].message.sender, txs[i].message.action) == Ok(s'))
  {
    assert blocks[|blocks| - 1].txs[..i + 1][..i] == blocks[|blocks| - 1].txs[..i];
  }

  /** Transaction `k` consumed this nullifier, and was entitled to. */
  ghost predicate Consumes(verify: Verifier, s: State, tx: Included, n: Word) {
    && tx.gasSufficed && tx.message.action.Settle? && Authorised(s, tx.message.sender)
    && var a := tx.message.action;
       && a.publicInputs != [] && LastOf(a.publicInputs) == n && n !in s.nullifierUsed
       && VerifierFor(s, a.circuitId) != ZERO_ADDRESS
       && verify(VerifierFor(s, a.circuitId), a.proof, a.publicInputs).Accepts?
  }

  lemma OneTxConsumes(verify: Verifier, s: State, tx: Included, n: Word)
    requires n !in s.nullifierUsed
    ensures n in AfterTx(verify, s, tx).nullifierUsed <==> Consumes(verify, s, tx, n)
  {
  }

  /** MAIN. On every chain a nullifier is consumed exactly when some transaction in
      it, at its moment, came from an authorised relayer with enough gas, for a
      registered circuit whose verifier accepted the proof, with that nullifier
      last and fresh. */
  lemma {:induction false} ConsumedNullifiersWereProved(verify: Verifier, s: State, txs: seq<Included>, n: Word)
    requires n !in s.nullifierUsed
    ensures n in AfterTxs(verify, s, txs).nullifierUsed
       <==> exists k :: 0 <= k < |txs| && Consumes(verify, AfterTxs(verify, s, txs[..k]), txs[k], n)
  {
    if txs != [] {
      var k := |txs| - 1;
      ConsumedNullifiersWereProved(verify, s, txs[..k], n);
      forall j | 0 <= j < k
        ensures txs[..k][..j] == txs[..j] && txs[..k][j] == txs[j]
      {
      }
      if n !in AfterTxs(verify, s, txs[..k]).nullifierUsed {
        OneTxConsumes(verify, AfterTxs(verify, s, txs[..k]), txs[k], n);
      } else {
        var j :| 0 <= j < k && Consumes(verify, AfterTxs(verify, s, txs[..k][..j]), txs[..k][j], n);
        assert Consumes(verify, AfterTxs(verify, s, txs[..j]), txs[j], n);
        UsedStaysUsed(verify, AfterTxs(verify, s, txs[..k]), txs[k], n);
      }
    }
  }

  lemma UsedStaysUsed(verify: Verifier, s: State, tx: Included, n: Word)
    requires n in s.nullifierUsed
    ensures n in AfterTx(verify, s, tx).nullifierUsed
  {
  }

  lemma ChainsConsumeOnlyProofs(verify: Verifier, owner: Address, blocks: Blocks, n: Word)
    ensures n in Used(verify, owner, blocks)
       <==> exists k :: 0 <= k < |Txs(blocks)|
              && Consumes(verify, AfterTxs(verify, Deployed(owner), Txs(blocks)[..k]), Txs(blocks)[k], n)
  {
    FoldIsAllTxs(verify, owner, blocks);
    ConsumedNullifiersWereProved(verify, Deployed(owner), Txs(blocks), n);
  }

  // --- registration over time ---------------------------------------------------------

  /** A registered verifier stays until the circuit is deregistered. */
  lemma {:induction false} VerifiersAreNeverReplaced(verify: Verifier, s: State, txs: seq<Included>, c: Word)
    requires VerifierFor(s, c) != ZERO_ADDRESS
    requires forall i :: 0 <= i < |txs| ==>
      txs[i].message.action != DeregisterCircuit(c)
    ensures VerifierFor(AfterTxs(verify, s, txs), c) == VerifierFor(s, c)
  {
    if txs != [] {
      var k := |txs| - 1;
      VerifiersAreNeverReplaced(verify, s, txs[..k], c);
      OneRegistrationKeeps(verify, AfterTxs(verify, s, txs[..k]), txs[k], c);
    }
  }

  lemma OneRegistrationKeeps(verify: Verifier, s: State, tx: Included, c: Word)
    requires VerifierFor(s, c) != ZERO_ADDRESS && tx.message.action != DeregisterCircuit(c)
    ensures VerifierFor(AfterTx(verify, s, tx), c) == VerifierFor(s, c)
  {
  }

  /** What revoking and deregistering are for. */
  lemma RevocationsTakeEffect(
    verify: Verifier, s: State, owner: Address, r: Address, c: Word, proof: seq<Byte>, inputs: seq<Word>)
    ensures Execute(verify, s, owner, SetRelayer(r, false)).Ok? ==>
      Execute(verify, Execute(verify, s, owner, SetRelayer(r, false)).value, r, Settle(c, proof, inputs))
      == Err(NotAuthorisedRelayer)
    ensures Execute(verify, s, owner, DeregisterCircuit(c)).Ok? && Authorised(s, r) ==>
      Execute(verify, Execute(verify, s, owner, DeregisterCircuit(c)).value, r, Settle(c, proof, inputs))
      == Err(UnknownCircuit(c))
  {
  }
}
