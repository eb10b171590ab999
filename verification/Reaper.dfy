/** Expired leases: what a reaper pass does, why passes commute, and why a
    reaped holder cannot come back. */
module Reaper {
  import opened Basics
  import opened JobMachine
  import opened Records
  import opened History
  import opened Database

  /** Equal rows, except for the reaper's name in the audit log. */
  ghost predicate SameButActors(a: Record, b: Record) {
    && a.job == b.job && a.tries == b.tries
    && |a.log| == |b.log|
    && forall i :: 0 <= i < |a.log| ==> a.log[i].hop == b.log[i].hop && a.log[i].detail == b.log[i].detail
  }

  ghost predicate SameDbButActors(a: DB, b: DB) {
    && a.settlements == b.settlements && a.circuits == b.circuits && a.clock == b.clock
    && a.records.Keys == b.records.Keys
    && forall id :: id in a.records ==> SameButActors(a.records[id], b.records[id])
  }

  /** Reaping one expired job always succeeds, ends its lease, and keeps its
      proof off the proving queue. */
  lemma ReapingOneJob(r: Record, reaper: Actor, now: Time)
    requires LeaseExact(r.job) && ProofExact(r.job)
    ensures Expired(r.job, now) <==> Step(r, Call.Reap(reaper), now).Ok?
    ensures var r' := Settle(r, Call.Reap(reaper), now);
      && (!Expired(r.job, now) ==> r' == r)
      && (Expired(r.job, now) ==>
            && !r'.job.state.IsInFlight() && r'.job.leasedBy.None? && r'.job.leaseExpiresAt.None?
            && r'.job.attempts == r.job.attempts && r'.job.submissionAttempts == r.job.submissionAttempts
            && r'.job.proof == r.job.proof && r'.job.publicInputs == r.job.publicInputs
            && r'.job.state ==
                 (if r.job.state.Submitting?
                  then if r.job.submissionAttempts >= Budget(r.job) then Failed else Proved
                  else if r.job.attempts >= Budget(r.job) then Failed else Queued)
            && (forall n :: n in r'.tries <==> n in r.tries)
            && (forall n :: n in r.tries ==>
                  r'.tries[n].outcome == if r.tries[n].outcome.None? then Some(Abandoned) else r.tries[n].outcome))
      && (r.job.proof.Some? ==> !r'.job.state.Queued?)
  {
  }

  /** MAIN. One pass with nothing locked leaves no lease expired, touches no
      unexpired lease and no other row, and never sends a proof to `queued`. */
  lemma OnePassReapsEverything(db: DB, visible: set<JobId>, reaper: Actor)
    requires DbSound(db)
    requires db.records.Keys <= visible
    ensures var db' := ReapRows(db, visible, reaper);
      && db'.records.Keys == db.records.Keys
      && db'.settlements == db.settlements && db'.circuits == db.circuits && db'.clock == db.clock
      && forall id :: id in db.records ==>
           var before, after := db.records[id].job, db'.records[id].job;
           && !Expired(after, db.clock)
           && (!Expired(before, db.clock) ==> db'.records[id] == db.records[id])
           && (Expired(before, db.clock) ==> !after.state.IsInFlight() && after.leasedBy.None?)
           && (before.proof.Some? ==> !after.state.Queued? && after.proof == before.proof)
  {
    forall id | id in db.records
      ensures var before, after := db.records[id].job, ReapRows(db, visible, reaper).records[id].job;
        && !Expired(after, db.clock)
        && (!Expired(before, db.clock) ==> ReapRows(db, visible, reaper).records[id] == db.records[id])
        && (Expired(before, db.clock) ==> !after.state.IsInFlight() && after.leasedBy.None?)
        && (before.proof.Some? ==> !after.state.Queued? && after.proof == before.proof)
    {
      assert Sound(db.records[id]);
      ReapingOneJob(db.records[id], reaper, db.clock);
    }
  }

  /** Reaping the same job twice, the second time no earlier, is reaping it
      once at the later time. */
  lemma ReapTwice(r: Record, first: Actor, t1: Time, second: Actor, t2: Time, single: Actor)
    requires LeaseExact(r.job) && ProofExact(r.job) && t1 <= t2
    ensures SameButActors(Settle(Settle(r, Call.Reap(first), t1), Call.Reap(second), t2),
                          Settle(r, Call.Reap(single), t2))
  {
    ReapingOneJob(r, first, t1);
    ReapingOneJob(r, single, t2);
    if Expired(r.job, t1) {
      assert Expired(r.job, t2);
      assert Settle(Settle(r, Call.Reap(first), t1), Call.Reap(second), t2) == Settle(r, Call.Reap(first), t1);
    }
  }

  datatype Pass = Pass(locked: set<JobId>, reaper: Actor)

  /** Concurrent reapers at one instant, each over the rows it managed to lock. */
  function ReapEach(db: DB, passes: seq<Pass>): DB {
    if passes == [] then db
    else
      var last := passes[|passes| - 1];
      ReapRows(ReapEach(db, passes[..|passes| - 1]), last.locked, last.reaper)
  }

  function AllLocked(passes: seq<Pass>): set<JobId> {
    if passes == [] then {} else AllLocked(passes[..|passes| - 1]) + passes[|passes| - 1].locked
  }

  /** MAIN. Any number of concurrent reapers, over any locked subsets and in any
      order, leave the rows one pass over all of them would leave, up to the
      reapers' names. */
  lemma {:induction false} ConcurrentReapersAgree(db: DB, passes: seq<Pass>, single: Actor)
    requires DbSound(db)
    ensures SameDbButActors(ReapEach(db, passes), ReapRows(db, AllLocked(passes), single))
  {
    if passes != [] {
      var prefix, last := passes[..|passes| - 1], passes[|passes| - 1];
      ConcurrentReapersAgree(db, prefix, single);
      var partial := ReapEach(db, prefix);
      forall id | id in db.records
        ensures SameButActors(ReapEach(db, passes).records[id], ReapRows(db, AllLocked(passes), single).records[id])
      {
        assert Sound(db.records[id]);
        OneMoreReaper(db.records[id], partial.records[id], id in AllLocked(prefix), id in last.locked,
                      last.reaper, single, db.clock);
      }
    }
  }

  lemma OneMoreReaper(r: Record, sofar: Record, done: bool, again: bool, reaper: Actor, single: Actor, now: Time)
    requires LeaseExact(r.job) && ProofExact(r.job)
    requires SameButActors(sofar, if done then Settle(r, Call.Reap(single), now) else r)
    ensures SameButActors(if again then Settle(sofar, Call.Reap(reaper), now) else sofar,
                          if done || again then Settle(r, Call.Reap(single), now) else r)
  {
    ReapingOneJob(r, single, now);
  }

  /** MAIN. Whoever lost a lease cannot renew it: until that id is granted the
      job again, every renewal under that name is refused, whatever else
      happens and however often. */
  lemma {:induction false} LostLeasesStayLost(r: Record, w: Actor, calls: seq<Stamped>, ttl: Time, now: Time)
    requires r.job.leasedBy != Some(w)
    requires forall i :: 0 <= i < |calls| ==>
      && !(calls[i].call.Lease? && calls[i].call.worker == w)
      && !(calls[i].call.LeaseProved? && calls[i].call.relayer == w)
    ensures Run(r, calls).job.leasedBy != Some(w)
    ensures Step(Run(r, calls), Renew(w, ttl), now) == Err(NotSelected)
  {
    if calls != [] {
      LostLeasesStayLost(r, w, calls[..|calls| - 1], ttl, now);
    }
  }

  lemma RenewalsAreForHolders(r: Record, w: Actor, ttl: Time, now: Time)
    requires LeaseExact(r.job)
    ensures Step(r, Renew(w, ttl), now).Ok? <==> r.job.leasedBy == Some(w)
    ensures Settle(r, Renew(w, ttl), now)
         == if r.job.leasedBy == Some(w) then r.(job := r.job.(leaseExpiresAt := Some(now + ttl))) else r
  {
  }

  /** In every run, a renewal succeeds exactly for the current holder, whatever
      the job is in flight for and however late, and moves only the expiry. */
  lemma OnlyHoldersRenew(r: Record, calls: seq<Stamped>, w: Actor, ttl: Time, now: Time)
    requires r == NewRecord(r.job.circuit, r.job.hash, r.job.createdAt, r.job.maxAttempts)
    ensures var r' := Run(r, calls);
      && (Step(r', Renew(w, ttl), now).Ok? <==> r'.job.leasedBy == Some(w))
      && Settle(r', Renew(w, ttl), now)
         == if r'.job.leasedBy == Some(w) then r'.(job := r'.job.(leaseExpiresAt := Some(now + ttl))) else r'
  {
    RunsStaySound(r.job.circuit, r.job.hash, r.job.createdAt, r.job.maxAttempts, calls);
    RenewalsAreForHolders(Run(r, calls), w, ttl, now);
  }

  // --- reapers at different times --------------------------------------------------

  datatype TimedPass = TimedPass(at: Time, pass: Pass)

  function ReapOver(db: DB, passes: seq<TimedPass>): DB {
    if passes == [] then db
    else
      var last := passes[|passes| - 1];
      var before := Apply(ReapOver(db, passes[..|passes| - 1]), Tick(last.at));
      ReapRows(before, last.pass.locked, last.pass.reaper)
  }

  predicate InOrder(db: DB, passes: seq<TimedPass>) {
    passes != [] ==>
      InOrder(db, passes[..|passes| - 1]) && ReapOver(db, passes[..|passes| - 1]).clock <= passes[|passes| - 1].at
  }

  /** When a job was last seen by a pass. */
  function LastSeen(passes: seq<TimedPass>, id: JobId): Option<Time> {
    if passes == [] then None
    else
      var last := passes[|passes| - 1];
      if id in last.pass.locked then Some(last.at) else LastSeen(passes[..|passes| - 1], id)
  }

  function ReapedAt(r: Record, seen: Option<Time>, reaper: Actor): Record {
    if seen.None? then r else Settle(r, Call.Reap(reaper), seen.value)
  }

  lemma LaterReaper(r: Record, sofar: Record, seen: Option<Time>, reaper: Actor, single: Actor, now: Time)
    requires LeaseExact(r.job) && ProofExact(r.job) && (seen.Some? ==> seen.value <= now)
    requires SameButActors(sofar, ReapedAt(r, seen, single))
    ensures SameButActors(Settle(sofar, Call.Reap(reaper), now), Settle(r, Call.Reap(single), now))
  {
    var once := ReapedAt(r, seen, single);
    assert SameButActors(Settle(sofar, Call.Reap(reaper), now), Settle(once, Call.Reap(reaper), now));
    if seen.Some? {
      ReapTwice(r, single, seen.value, reaper, now, single);
    }
  }

  lemma OnePassAt(db: DB, p: TimedPass, id: JobId)
    requires id in db.records && db.clock <= p.at
    ensures var db' := ReapRows(Apply(db, Tick(p.at)), p.pass.locked, p.pass.reaper);
      && db'.clock == p.at && id in db'.records && db'.settlements == db.settlements
      && db'.records[id]
         == if id in p.pass.locked then Settle(db.records[id], Call.Reap(p.pass.reaper), p.at) else db.records[id]
  {
  }

  /** MAIN. Reapers at any times, over any locked subsets: each job is left as one
      reaper would leave it at the last time any of them saw it. Earlier passes
      change nothing that a later one would not. */
  lemma {:induction false} ReapersOverTimeAgree(db: DB, passes: seq<TimedPass>, id: JobId, single: Actor)
    requires id in db.records && Sound(db.records[id]) && InOrder(db, passes)
    ensures var db' := ReapOver(db, passes);
      && id in db'.records && db'.settlements == db.settlements
      && (LastSeen(passes, id).Some? ==> LastSeen(passes, id).value <= db'.clock)
      && SameButActors(db'.records[id], ReapedAt(db.records[id], LastSeen(passes, id), single))
  {
    if passes != [] {
      var prefix, last := passes[..|passes| - 1], passes[|passes| - 1];
      ReapersOverTimeAgree(db, prefix, id, single);
      OnePassAt(ReapOver(db, prefix), last, id);
      if id in last.pass.locked {
        LaterReaper(db.records[id], ReapOver(db, prefix).records[id], LastSeen(prefix, id),
                    last.pass.reaper, single, last.at);
      }
    }
  }
}
