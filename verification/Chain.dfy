/** The chain as a sequence of blocks whose suffix may be replaced. Contract
    state is the fold of whatever chain is canonical. */
module Chain {
  import opened Basics
  import opened Contract

  /** One transaction as a block carries it. A transaction that ran out of gas
      fails whatever it called. */
  datatype Included = Included(message: Message, txHash: seq<Byte>, gasSufficed: bool)

  datatype Block = Block(txs: seq<Included>)

  type Blocks = seq<Block>

  function AfterTx(verify: Verifier, s: State, tx: Included): State {
    if tx.gasSufficed then After(verify, s, tx.message) else s
  }

  function AfterTxs(verify: Verifier, s: State, txs: seq<Included>): State {
    if txs == [] then s
    else AfterTx(verify, AfterTxs(verify, s, txs[..|txs| - 1]), txs[|txs| - 1])
  }

  /** The contract's state at the head of a chain. */
  function Fold(verify: Verifier, owner: Address, blocks: Blocks): State {
    if blocks == [] then Deployed(owner)
    else AfterTxs(verify, Fold(verify, owner, blocks[..|blocks| - 1]), blocks[|blocks| - 1].txs)
  }

  function Used(verify: Verifier, owner: Address, blocks: Blocks): set<Word> {
    Fold(verify, owner, blocks).nullifierUsed
  }

  /** The status a receipt reports for transaction `i` of the last block. */
  predicate TxSucceeds(verify: Verifier, owner: Address, blocks: Blocks, i: nat)
    requires blocks != [] && i < |blocks[|blocks| - 1].txs|
  {
    var txs := blocks[|blocks| - 1].txs;
    var s := AfterTxs(verify, Fold(verify, owner, blocks[..|blocks| - 1]), txs[..i]);
    txs[i].gasSufficed && Execute(verify, s, txs[i].message.sender, txs[i].message.action).Ok?
  }

  lemma {:induction false} TxsKeep(verify: Verifier, s: State, txs: seq<Included>)
    requires OneEventPerNullifier(s)
    ensures OneEventPerNullifier(AfterTxs(verify, s, txs))
    ensures s.nullifierUsed <= AfterTxs(verify, s, txs).nullifierUsed
  {
    if txs != [] {
      TxsKeep(verify, s, txs[..|txs| - 1]);
      AfterKeepsEvents(verify, AfterTxs(verify, s, txs[..|txs| - 1]), txs[|txs| - 1].message);
    }
  }

  lemma {:induction false} EveryChainKeeps(verify: Verifier, owner: Address, blocks: Blocks)
    ensures OneEventPerNullifier(Fold(verify, owner, blocks))
  {
    if blocks == [] {
      forall n
        ensures SettledCount(Deployed(owner).events, n) == 0
      {
        SettledCountAppend([], OwnershipTransferred(ZERO_ADDRESS, owner), n);
        assert [] + [OwnershipTransferred(ZERO_ADDRESS, owner)] == Deployed(owner).events;
      }
    } else {
      EveryChainKeeps(verify, owner, blocks[..|blocks| - 1]);
      TxsKeep(verify, Fold(verify, owner, blocks[..|blocks| - 1]), blocks[|blocks| - 1].txs);
    }
  }

  /** MAIN. Whatever calls anyone makes, and however the suffix of the chain is
      replaced: on the chain that is now canonical each nullifier has exactly
      one `Settled` event if it is consumed and none otherwise. */
  lemma ReorgsKeepOneEventPerNullifier(
    verify: Verifier, owner: Address, before: Blocks, keep: nat, suffix: Blocks, n: Word)
    requires keep <= |before|
    ensures var now := Fold(verify, owner, before[..keep] + suffix);
      SettledCount(now.events, n) == (if n in now.nullifierUsed then 1 else 0)
    ensures before[..keep] == before ==> Used(verify, owner, before) <= Used(verify, owner, before + suffix)
  {
    EveryChainKeeps(verify, owner, before[..keep] + suffix);
    if before[..keep] == before {
      LongerChainsUseMore(verify, owner, before + suffix, |before|);
      assert (before + suffix)[..|before|] == before;
    }
  }

  lemma {:induction false} LongerChainsUseMore(verify: Verifier, owner: Address, blocks: Blocks, k: nat)
    requires k <= |blocks|
    ensures Used(verify, owner, blocks[..k]) <= Used(verify, owner, blocks)
  {
    if k == |blocks| {
      assert blocks[..k] == blocks;
    } else {
      var prefix := blocks[..|blocks| - 1];
      assert prefix[..k] == blocks[..k];
      LongerChainsUseMore(verify, owner, prefix, k);
      EveryChainKeeps(verify, owner, prefix);
      TxsKeep(verify, Fold(verify, owner, prefix), blocks[|blocks| - 1].txs);
    }
  }

  lemma {:induction false} LongerTxsUseMore(verify: Verifier, s: State, txs: seq<Included>, k: nat)
    requires OneEventPerNullifier(s) && k <= |txs|
    ensures AfterTxs(verify, s, txs[..k]).nullifierUsed <= AfterTxs(verify, s, txs).nullifierUsed
  {
    if k == |txs| {
      assert txs[..k] == txs;
    } else {
      var prefix := txs[..|txs| - 1];
      assert prefix[..k] == txs[..k];
      LongerTxsUseMore(verify, s, prefix, k);
      TxsKeep(verify, s, prefix);
      AfterKeepsEvents(verify, AfterTxs(verify, s, prefix), txs[|txs| - 1].message);
    }
  }

  /** MAIN. A receipt is evidence exactly as long as its block is canonical: if a
      settlement succeeded in block `k - 1`, every chain that keeps that block
      has its nullifier consumed. */
  lemma CanonicalReceiptsAreInTheFold(verify: Verifier, owner: Address, blocks: Blocks, k: nat, i: nat)
    requires 0 < k <= |blocks| && i < |blocks[k - 1].txs|
    requires TxSucceeds(verify, owner, blocks[..k], i)
    requires blocks[k - 1].txs[i].message.action.Settle?
    ensures blocks[k - 1].txs[i].message.action.publicInputs != []
    ensures LastOf(blocks[k - 1].txs[i].message.action.publicInputs) in Used(verify, owner, blocks)
  {
    var upTo := blocks[..k];
    assert upTo[|upTo| - 1] == blocks[k - 1];
    var txs := blocks[k - 1].txs;
    var s0 := Fold(verify, owner, upTo[..k - 1]);
    EveryChainKeeps(verify, owner, upTo[..k - 1]);
    var n := LastOf(txs[i].message.action.publicInputs);
    assert txs[..i + 1][..i] == txs[..i];
    assert n in AfterTxs(verify, s0, txs[..i + 1]).nullifierUsed;
    LongerTxsUseMore(verify, s0, txs, i + 1);
    LongerChainsUseMore(verify, owner, blocks, k);
  }
}
