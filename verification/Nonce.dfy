/** Single-writer nonces: a cached counter, the lock held across each broadcast,
    and a node whose pending count moves under it. */
module Nonce {
  import opened Basics

  const U64_MAX: int := 0xFFFF_FFFF_FFFF_FFFF
  type U64 = n: int | 0 <= n <= U64_MAX

  /** What a broadcast came back with. `LostAck` is a transaction the node took
      and an error the relayer saw. `resync` says the error read like a nonce
      disagreement. */
  datatype Reply = Accepted | LostAck(resync: bool) | Refused(resync: bool)

  function SatInc(n: U64): U64 {
    if n == U64_MAX then U64_MAX else n + 1
  }

  /** The counter after one `broadcast` that used nonce `n`. */
  function AfterReply(n: U64, reply: Reply): Option<U64> {
    match reply
    case Accepted => Some(SatInc(n))
    case LostAck(resync) => if resync then None else Some(n)
    case Refused(resync) => if resync then None else Some(n)
  }

  class NonceManager {
    var next: Option<U64>

    constructor ()
      ensures next == None
    {
      next := None;
    }

    method Synchronise(fromChain: U64)
      modifies this
      ensures next == Some(fromChain)
    {
      next := Some(fromChain);
    }

    method Consumed()
      modifies this
      ensures next == match old(next) case None => None case Some(n) => Some(SatInc(n))
    {
      match next
      case None => {}
      case Some(n) => { next := Some(SatInc(n)); }
    }

    method Invalidate()
      modifies this
      ensures next == None
    {
      next := None;
    }

    /** `broadcast`, under the lock: `read` is what the node answers if asked for
        the pending count, `reply` what it answers to the submission. The ghosts
        are the node's side: `before` foreign transactions arrive before the
        count is read, `between` before the submission lands. */
    method Broadcast(read: Option<U64>, reply: Reply, ghost a: Account, ghost before: nat, ghost between: nat)
      returns (used: Option<U64>)
      modifies this
      ensures used == (if old(next).Some? then old(next) else read)
      ensures next == (if used.Some? then AfterReply(used.value, reply) else None)
      ensures a.next == old(next) && (read.Some? ==> read.value == a.pending + before) ==>
        var s := Submit(before, read.None?, between, reply);
        used == UsedBy(a, s) && next == Do(a, s).next
    {
      used := next;
      if used.None? {
        if read.None? {
          return None;
        }
        Synchronise(read.value);
        used := read;
      }
      match reply
      case Accepted => { Consumed(); }
      case LostAck(resync) => { if resync { Invalidate(); } }
      case Refused(resync) => { if resync { Invalidate(); } }
    }
  }

  /** The manager beside the node: `pending` is the account's next free nonce
      there, `taken` every nonce of ours the node took, in order. */
  datatype Account = Account(next: Option<U64>, pending: nat, taken: seq<nat>)

  /** Foreign transactions may arrive before the count is read and again before
      the submission lands. */
  datatype Step =
    | Foreign(count: nat)
    | Forget                                                   // `track` found a gap and invalidates
    | Submit(beforeRead: nat, readFails: bool, beforeSend: nat, reply: Reply)

  /** The nonce a submission uses, if it gets one. */
  function UsedBy(a: Account, s: Step): Option<nat>
    requires s.Submit?
  {
    if a.next.Some? then Some(a.next.value)
    else if s.readFails then None
    else Some(a.pending + s.beforeRead)
  }

  function PendingAtSend(a: Account, s: Step): nat
    requires s.Submit?
  {
    a.pending + s.beforeRead + s.beforeSend
  }

  function Do(a: Account, s: Step): Account {
    match s
    case Foreign(count) => a.(pending := a.pending + count)
    case Forget => a.(next := None)
    case Submit(_, _, _, reply) =>
      var n := UsedBy(a, s);
      var pending := PendingAtSend(a, s);
      if n.None? || n.value > U64_MAX then a.(next := None, pending := pending)
      else
        Account(
          AfterReply(n.value, reply),
          if !reply.Refused? && n.value == pending then pending + 1 else pending,
          if reply.Refused? then a.taken else a.taken + [n.value])
  }

  function Run(a: Account, steps: seq<Step>): Account {
    if steps == [] then a else Do(Run(a, steps[..|steps| - 1]), steps[|steps| - 1])
  }

  function Fresh(pending: nat): Account {
    Account(None, pending, [])
  }

  lemma {:induction false} CacheNeverLeads(pending: nat, steps: seq<Step>)
    ensures var a := Run(Fresh(pending), steps);
      a.next.Some? ==> a.next.value <= a.pending
  {
    if steps != [] {
      CacheNeverLeads(pending, steps[..|steps| - 1]);
    }
  }

  /** MAIN. Over every interleaving with refusals, lost acknowledgements and
      foreign transactions, no submission is sent above the node's pending
      count: a broadcast never opens a gap. */
  lemma BroadcastsNeverOpenAGap(pending: nat, steps: seq<Step>, s: Step)
    requires s.Submit?
    ensures var a := Run(Fresh(pending), steps);
      && UsedBy(a, s).Some? ==> UsedBy(a, s).value <= PendingAtSend(a, s)
    ensures var a' := Do(Run(Fresh(pending), steps), s);
      a'.next.Some? ==> a'.next.value <= a'.pending
  {
    CacheNeverLeads(pending, steps);
    CacheNeverLeads(pending, steps + [s]);
    assert (steps + [s])[..|steps|] == steps;
  }

  /** An acceptance the relayer does not hear of, and is not told to look into. */
  predicate Silent(reply: Reply) {
    reply == LostAck(false)
  }

  /** No foreign transactions, and no acceptance lost silently. */
  predicate Quiet(s: Step) {
    match s
    case Foreign(count) => count == 0
    case Forget => true
    case Submit(f, _, g, reply) => f == 0 && g == 0 && !Silent(reply)
  }

  /** The counter is unknown, or is the node's. */
  predicate InStep(a: Account) {
    a.next.Some? ==> a.next.value == a.pending
  }

  /** Without foreign transactions, a counter in step stays in step exactly when
      no acceptance is lost silently: that is the one reply that parts them. */
  lemma OnlySilenceParts(a: Account, s: Step)
    requires InStep(a) && a.pending < U64_MAX
    requires s.Submit? && s.beforeRead == 0 && s.beforeSend == 0
    ensures InStep(Do(a, s)) <==> !(Silent(s.reply) && UsedBy(a, s).Some?)
  {
  }

  /** `n` consecutive nonces. */
  function From(first: nat, n: nat): seq<nat> {
    seq(n, i => first + i)
  }

  /** From an account whose counter, if known, is the node's. */
  lemma {:induction false} QuietNoncesFollow(a: Account, steps: seq<Step>)
    requires InStep(a)
    requires forall i :: 0 <= i < |steps| ==> Quiet(steps[i])
    requires Run(a, steps).pending <= U64_MAX
    ensures var r := Run(a, steps);
      && r.pending >= a.pending
      && r.taken == a.taken + From(a.pending, r.pending - a.pending)
      && InStep(r)
  {
    if steps != [] {
      var prefix, last := steps[..|steps| - 1], steps[|steps| - 1];
      assert Quiet(last);
      assert Run(a, prefix).pending <= Run(a, steps).pending;
      QuietNoncesFollow(a, prefix);
    }
  }

  /** MAIN. Without foreign transactions or silent losses, through refusals, lost
      acknowledgements that are looked into, failed reads and forgotten counters:
      until the counter saturates, the nonces the node took are exactly
      consecutive from where the account started. */
  lemma QuietNoncesAreConsecutive(pending: nat, steps: seq<Step>)
    requires forall i :: 0 <= i < |steps| ==> Quiet(steps[i])
    requires Run(Fresh(pending), steps).pending <= U64_MAX
    ensures var a := Run(Fresh(pending), steps);
      && a.taken == From(pending, |a.taken|)
      && a.pending == pending + |a.taken|
      && InStep(a)
  {
    QuietNoncesFollow(Fresh(pending), steps);
  }

  /** A step that makes the manager ask the node again: an error that reads like
      a nonce disagreement, or a gap found by the tracking loop. */
  predicate Resyncs(s: Step) {
    match s
    case Foreign(_) => false
    case Forget => true
    case Submit(_, _, _, reply) =>
      match reply
      case Accepted => false
      case LostAck(resync) => resync
      case Refused(resync) => resync
  }

  /** A refusal that is not about the nonce costs nothing: the same nonce is used
      again, without asking the node, wherever its count has got to; and a nonce
      that was accepted is used once. */
  lemma RefusalsKeepTheNonce(a: Account, s: Step, next: Step)
    requires s.Submit? && next.Submit? && UsedBy(a, s).Some? && UsedBy(a, s).value < U64_MAX
    ensures s.reply == Reply.Refused(false) ==> UsedBy(Do(a, s), next) == UsedBy(a, s) && Do(a, s).taken == a.taken
    ensures s.reply == Accepted ==>
      UsedBy(Do(a, s), next) == Some(UsedBy(a, s).value + 1) && Do(a, s).taken == a.taken + [UsedBy(a, s).value]
    ensures Resyncs(s) && !next.readFails ==> UsedBy(Do(a, s), next) == Some(Do(a, s).pending + next.beforeRead)
  {
  }

  lemma ResyncsForget(a: Account, s: Step)
    requires Resyncs(s)
    ensures Do(a, s).next.None?
  {
  }

  /** MAIN. Drift heals: however the counter and the node came apart, after one
      resynchronisation the nonces taken run on from the node's own count,
      consecutively, for as long as the account stays quiet. */
  lemma {:induction false} ResyncsHeal(drifted: Account, s: Step, steps: seq<Step>)
    requires Resyncs(s) && forall i :: 0 <= i < |steps| ==> Quiet(steps[i])
    requires Run(Do(drifted, s), steps).pending <= U64_MAX
    ensures var a := Do(drifted, s);
      var r := Run(a, steps);
      && r.pending >= a.pending
      && r.taken == a.taken + From(a.pending, r.pending - a.pending)
      && InStep(r)
  {
    ResyncsForget(drifted, s);
    QuietNoncesFollow(Do(drifted, s), steps);
  }

  /** At the top of the range the saturating counter stands still, so the bound
      is needed: the same nonce is used again. */
  lemma SaturationRepeatsANonce(pending: nat)
    requires pending == U64_MAX
    ensures var s := Submit(0, false, 0, Accepted);
      Run(Fresh(pending), [s, s]).taken == [U64_MAX, U64_MAX]
  {
    var s := Submit(0, false, 0, Accepted);
    assert [s, s][..1] == [s] && [s][..0] == [];
    assert Run(Fresh(pending), [s]) == Account(Some(U64_MAX), U64_MAX + 1, [U64_MAX]);
  }

  /** One silent loss is enough to reuse a nonce: the replacement rule,
      not the counter, then decides which transaction survives. */
  lemma LostAcksReuseANonce(pending: nat)
    requires pending < U64_MAX
    ensures var s, t := Submit(0, false, 0, LostAck(false)), Submit(0, false, 0, Accepted);
      Run(Fresh(pending), [s, t]).taken == [pending, pending]
  {
    var s, t := Submit(0, false, 0, LostAck(false)), Submit(0, false, 0, Accepted);
    assert [s, t][..1] == [s] && [s][..0] == [];
    assert Run(Fresh(pending), [s]) == Account(Some(pending), pending + 1, [pending]);
  }
}
