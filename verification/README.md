# Dray, modelled and proved in Dafny

Dray is a proof-job pipeline: clients submit jobs, workers lease and prove them,
relayers carry the proofs to a settlement contract on a chain that may
reorganise. Any process may be stale, dead or late at any moment; what holds it
together is a durable job table changed by short transactions.

This project models four linked cores and proves what they promise.

1. **The durable job protocol.** `JobMachine` is the transition table,
   `Records` what each store operation does to one job's rows, `Database` the
   whole database with one `Op` per committed transaction, and `StoreTables.Store`
   the tables updated in place, each method proved to be its transaction.
   `History`, `Leases`, `Budgets`, `Reaper` and `Enqueue` prove what every run
   keeps, with callers that may be anyone and may stop anywhere.
2. **Settlement on a reorganising chain.** `Contract.DraySettlement` is the
   contract, `Chain` a sequence of blocks whose suffix may be replaced, `Access`
   who may change what on it and `EventLog` what its events tell; `Relayer` is
   the protocol of `settle`, `track` and `confirm` as steps of any number of
   threads, `Settling`, `Depth`, `Broadcasts`, `Causes`, `Tracking` and
   `TwoTrackers` its safety over whole runs and where it ends. `Nonce`, `Gas` and `TrackLoop` are the nonce manager, the
   pricing and the waiting loop.
3. **Printers that must be unambiguous.** `Json`, `JsonParser`, `JsonRoundTrip`,
   `KeyOrder`, `JsonShortest`, `CanonicalWriter`, `Utf8` and `JobHash` are
   canonical JSON and the identity of a job; `Toml` renders a `Prover.toml`, `TomlReader` reads TOML, and
   `TomlWeight` and `TomlRoundTrip` say what comes back; `Shell` quotes a
   command line and splits it again.
4. **The membership circuit.** `Merkle` walks an authentication path.

`dafny verify dfyconfig.toml` checks everything.

## How the parts are stated

A transaction is a function from the rows before to the rows after; `Err` is a
rollback. `FOR UPDATE SKIP LOCKED` is a set of rows hidden from the step, chosen
freely. A worker killed at an await point is a caller that never calls again, so
theorems quantify over every sequence of calls, by anyone, at any times.

The relayer's environment is free except for these assumptions: a transaction
hash fixes its transaction; a block hash fixes the chain up to its block, so the
block a receipt names is represented by that chain; a receipt reports the status
its transaction had in that block, canonical or not; and the node says that a
nullifier is consumed, or that a block is canonical, only when it is so as it
answers. SHA-256, the Pedersen hash and the proof verifier are parameters.

Counterexamples are part of the results. Where a natural claim is false of the
code, a lemma shows an input or a run for which it fails, and another says
exactly when it holds: stray reports are counted, so the bounds hold of every
run; a row is lost by one kind of act and no other; a counter falls out of step
by one kind of reply and no other; a bump adds a tenth below one bound and not
above it; a node takes a bump when the tip has room and not otherwise. The
Pedersen hash is not assumed injective: its theorems hand back two pairs that
hash alike, one from the walk and one from the tree.

## Model

| member | source | states |
|---|---|---|
| JobMachine.TerminalStatesAbsorb | crates/dray-core/src/job.rs:204-248 | from `failed` or `rejected` no event sequence but the empty one replays |
| JobMachine.NothingUndoesAProof | crates/dray-core/src/job.rs:221-242 | after a proof every legal event sequence stays in proved, submitting, settled, failed and never accepts a second proof |
| JobMachine.MovesAreTheTable | crates/dray-core/src/job.rs:204-248 | the legal moves are exactly the twenty-four listed, one by one |
| JobMachine.RetriesLastTheBudget | crates/dray-core/src/job.rs:275-281 | a failure is retried exactly when it is transient and attempts are left, and fails the job for good at once exactly when it is permanent |
| History.AcceptedCallsAreLogged | crates/dray-store/src/lib.rs:441-458 | every accepted store call but a renewal appends exactly one audit row, and that row is the legal move the job made |
| History.RunsStaySound | crates/dray-store/src/lib.rs:395-1418 | in every run with any callers, however stale: the audit log starts at `queued`, chains, has only legal moves and replays to the row's state; in flight if and only if the lease is fully present; proof and inputs travel together and are there where required; `retry_after` only while waiting; both counters equal their event counts; attempt rows are numbered exactly 1..attempts |
| History.ProofsAreWriteOnce | crates/dray-store/src/lib.rs:737-809 | once a proof is stored, no run replaces it, leaves {proved, submitting, settled, failed}, or accepts a second one, and `failed` absorbs |
| Leases.AcceptedProofsStay | crates/dray-store/src/lib.rs:737-809 | the proof and inputs of the report that was accepted are what the job has after every later run |
| Leases.LeasesLastAsGranted | crates/dray-store/src/lib.rs:485-703 | a lease granted at `now` for `ttl`, by either queue or by a renewal: in every run that keeps the job in flight without another renewal, a reaper is refused up to `now + ttl` and accepted at any later time, and the taker alone can renew |
| Leases.FailedJobsWaitTheirDelay | crates/dray-store/src/lib.rs:816-903 | until some call is accepted, a job that failed can be taken from its queue at `t` exactly when the delay it was given has passed, and at once when none was given |
| Leases.ReturnedJobsNeedNotWait | crates/dray-store/src/lib.rs:921-951 | a job released, reaped, unwound or just proved can be taken at once |
| Leases.FailuresEndAsPromised | crates/dray-store/src/lib.rs:1343-1418 | a reported failure is refused exactly where nothing is left to fail; it ends the job exactly when it is permanent or at least one and at least `max_attempts` attempts of that kind are spent, and otherwise sends it back with everything it had achieved |
| Leases.StatesDecideAcceptance | crates/dray-store/src/lib.rs:395-461 | exactly when each other call is accepted and where it leaves the job: the state decides, and for the queues the time, never the caller |
| Leases.AttemptsAreClosed | crates/dray-store/src/lib.rs:780-798 | a proof or a failure closes the latest attempt row only, with its outcome and error |
| Leases.AttemptsNameTheirWorkers | crates/dray-store/src/lib.rs:529-545 | in every run attempt row `n` names whoever the audit log says took the job for proving the `n`-th time |
| Leases.AuditRowsNameTheirCaller | crates/dray-store/src/lib.rs:441-458 | every audit row names its caller, and its detail is the reason of exactly that kind of call |
| Leases.LastErrorsAreLogged | crates/dray-store/src/lib.rs:408-461 | in every run a job's last error is the last reason in its audit log |
| Budgets.AttemptsAreBounded | crates/dray-store/src/lib.rs:485-1033 | in every run of any callers: proving leases are at most the budget plus the proving releases plus the submission failures reported while proving; submission leases at most the budget plus the submission releases, the reorgs and the proving failures reported while submitting |
| Budgets.HistoriesAreBounded | crates/dray-store/src/lib.rs:395-1418 | in every run of any callers the audit log, with the work still left, is within 5 budgets + 3 proving releases + 2 submission releases + 3 reorgs + 3 and 2 times those misdirected reports + the reports made while nobody held the job |
| Budgets.StraysEscapeTheBudget | crates/dray-store/src/lib.rs:1343-1380 | misdirected reports must be counted: from a new job, one of them grants a proving lease beyond budget and releases |
| Budgets.BelatedReportsEscapeTheBudget | crates/dray-store/src/lib.rs:816-850 | and so must belated ones: from a new job, one proving failure reported while it is being submitted grants a submission beyond budget, releases and reorgs |
| Budgets.CallsMakeProgress | crates/dray-store/src/lib.rs:395-1418 | every accepted call of anyone strictly lowers a measure of the work left, save renewals, releases, reorgs and the three counted kinds of report |
| Budgets.HolderRunsAreBounded | crates/dray-store/src/lib.rs:485-1033 | the case without strays: when recording calls come from the current holder, budgets, releases and reorgs alone bound both counters and the log |
| Budgets.LateReportsGrowTheLog | crates/dray-store/src/lib.rs:816-850 | idle reports must be counted: from a new job, a worker that was leased and then reaped logs the same transient failure any number of times with no release and no reorg |
| Budgets.LimitIsFixed | crates/dray-store/src/lib.rs:321-334 | no run changes a job's limit on attempts |
| Database.TheDatabaseStaysSound | migrations/0001_initial_schema.sql:228-259 | in every run of the store: every job is sound, every settlement row carries the nullifier of its job's write-once inputs, at most one live row per nullifier, a live row is its job's newest, hashes are unique |
| Database.UnwoundRowsStayUnwound | crates/dray-store/src/lib.rs:1083-1107 | no row a reorg unwound becomes live again, in any run; no row is deleted or changes job or nullifier |
| Database.LatestFindsTheLiveRow | crates/dray-store/src/lib.rs:1307-1318 | asking only for the newest row never misses a recorded broadcast: it is live if and only if the job has a live row, and is that row |
| Database.OneTransactionOneCall | crates/dray-store/src/lib.rs:395-406 | whatever transaction commits, an existing job is untouched or takes exactly one step |
| Database.ReorgsMakeRoom | crates/dray-store/src/lib.rs:1137-1168 | a reorg leaves the job proved with its proof and its row stamped now at no confirmations, changes no other row, and lets a new row for the same nullifier in |
| Database.ConfirmationsTouchOneRow | crates/dray-store/src/lib.rs:1083-1107 | a confirmation changes exactly the live row it names, and only its receipt |
| Database.TheClockNeverGoesBack | crates/dray-store/src/lib.rs:511-528 | the clock all leases are measured by never goes back in any run |
| Database.CircuitsFollowTheirUpserts | crates/dray-store/src/lib.rs:244-262 | in every run a circuit is registered once upserted, and enabled exactly as its last upsert said |
| Reaper.ReapingOneJob | crates/dray-store/src/lib.rs:625-703 | reaping succeeds exactly on an expired lease; states the job's new state in each case, that counters and proof are untouched, and that open attempts are abandoned |
| Reaper.OnePassReapsEverything | crates/dray-store/src/lib.rs:609-716 | with nothing locked no expired lease is left, no other row changes, and a job with a proof never goes to `queued` |
| Reaper.ConcurrentReapersAgree | crates/dray-store/src/lib.rs:601-623 | any number of reapers at one instant over any locked subsets, in any order, leave what one pass over all of them leaves, up to the reaper's name |
| Reaper.LostLeasesStayLost | crates/dray-store/src/lib.rs:558-596 | whoever lost a lease is refused every renewal, in every run that does not grant it the job again |
| Reaper.ReapersOverTimeAgree | crates/dray-store/src/lib.rs:609-716 | reapers at any times over any locked subsets leave each job as one reaper would at the last time any of them saw it, up to the reaper's name |
| Reaper.OnlyHoldersRenew | crates/dray-store/src/lib.rs:576-596 | in every run a renewal succeeds exactly for the current holder, and moves only the expiry |
| Enqueue.SubmittingTwiceMakesOneJob | crates/dray-store/src/lib.rs:307-352 | with any number of callers interleaved between reading the circuit, inserting and selecting: one job per hash, same id for every caller, exactly one told `Created`, a duplicate changes nothing and is always answered |
| Enqueue.JobsAreTheirRequests | crates/dray-store/src/lib.rs:307-352 | in every interleaving a job appears only as the request of a caller that had found its circuit registered and enabled: queued and due, with that circuit, hash and limit, nothing tried |
| Enqueue.RefusalsHaveTheirReason | crates/dray-store/src/lib.rs:307-318 | whoever is refused had just read a circuit that was missing, or one that was disabled, as the error says |
| StoreTables.Store.Enqueue | crates/dray-store/src/lib.rs:307-352 | run alone: refuses unknown and disabled circuits, otherwise returns the job with that hash, created if and only if the hash was free |
| StoreTables.Store.UpsertCircuit | crates/dray-store/src/lib.rs:244-262 | is the upsert transaction |
| StoreTables.Store.PickOldest | crates/dray-store/src/lib.rs:494-500 | finds the oldest due, unlocked job in a queue, or none exactly when there is none |
| StoreTables.Store.LeaseNext | crates/dray-store/src/lib.rs:485-557 | leases the oldest due, unlocked queued job, or changes nothing when there is none |
| StoreTables.Store.LeaseNextProved | crates/dray-store/src/lib.rs:974-1033 | the same for the submission queue |
| StoreTables.Store.RenewLease | crates/dray-store/src/lib.rs:576-596 | moves the expiry exactly for the named holder of an in-flight job, and says whether it did |
| StoreTables.Store.ReapExpiredLeases | crates/dray-store/src/lib.rs:609-716 | the loop over expired rows is one simultaneous pass over every row not locked, and returns exactly the expired ones |
| StoreTables.Store.ApplyEventInTx | crates/dray-store/src/lib.rs:408-461 | one event moves the job, keeps or clears the lease, writes the audit row, or fails and changes nothing |
| StoreTables.Store.BeginProving | crates/dray-store/src/lib.rs:723-726 | the whole new database and the reply, for every caller |
| StoreTables.Store.RecordProof | crates/dray-store/src/lib.rs:737-809 | the whole new database and the reply: proof, inputs, state, lease, attempt and audit row in one transaction |
| StoreTables.Store.RecordFailure | crates/dray-store/src/lib.rs:816-903 | the whole new database and the reply, with the retry policy and the delay only for a job going back to `queued` |
| StoreTables.Store.ReleaseLease | crates/dray-store/src/lib.rs:921-951 | the whole new database and the reply: back to `queued` from proving, to `proved` from submitting |
| StoreTables.Store.RecordSubmission | crates/dray-store/src/lib.rs:1048-1065 | a new live row, or a refusal by the live-nullifier index that changes nothing |
| StoreTables.Store.ReplaceSubmissionTx | crates/dray-store/src/lib.rs:1183-1201 | the UPDATE as a loop over rows: the job's live rows with the old hash are renamed, every other row is equal, and while a live row is its job's newest at most one row changes |
| StoreTables.Store.ConfirmSettlement | crates/dray-store/src/lib.rs:1075-1122 | the receipt on the live row and the job settled together, or neither |
| StoreTables.Store.RecordReorg | crates/dray-store/src/lib.rs:1137-1168 | the row stamped and the job back to `proved` together, or neither |
| StoreTables.Store.MarkSettledElsewhere | crates/dray-store/src/lib.rs:1218-1231 | the job settled and no settlement row written |
| StoreTables.Store.RecordSubmissionFailure | crates/dray-store/src/lib.rs:1343-1418 | the whole new database and the reply, charged to the submission budget only |
| StoreTables.Store.LatestSettlement | crates/dray-store/src/lib.rs:1307-1332 | the newest row of the job, which is live exactly when the job has a live row |
| Contract.PreflightPredictsSettlement | contracts/src/DraySettlement.sol:98-157 | `settle` succeeds if and only if the sender is authorised and `wouldSettle` answers true |
| Contract.PreflightAnswersUnlessVerifierIsMissing | contracts/src/DraySettlement.sol:136-157 | exactly when the view itself reverts: a registered verifier that cannot answer, reached with inputs and a fresh nullifier |
| Contract.OneCallOneEvent | contracts/src/DraySettlement.sol:98-190 | a call that does not revert emits one event, and consumes a nullifier, a fresh one, just when that event is `Settled` |
| Contract.DraySettlement.SettleProof | contracts/src/DraySettlement.sol:98-129 | the new storage and event, or the first failing check's error with storage unchanged |
| Contract.DraySettlement.Preflight | contracts/src/DraySettlement.sol:143-157 | answers true exactly when the call would go through for any authorised sender, and changes nothing |
| Contract.DraySettlement.Register | contracts/src/DraySettlement.sol:167-172 | owner only, never an upsert, else unchanged |
| Contract.DraySettlement.Deregister | contracts/src/DraySettlement.sol:174-178 | owner only, removes a registered circuit, else unchanged |
| Contract.DraySettlement.SetAuthorised | contracts/src/DraySettlement.sol:180-184 | owner only, else unchanged |
| Contract.DraySettlement.HandOver | contracts/src/DraySettlement.sol:186-190 | owner only, to a non-zero address, else unchanged |
| Access.OnlyOwnersAdminister | contracts/src/DraySettlement.sol:74-77 | for every message: if the owner, a verifier or a relayer changes, the sender was the owner; if a nullifier is consumed, the sender was an authorised relayer |
| Access.AdministrationSucceedsExactly | contracts/src/DraySettlement.sol:167-190 | exactly when each administrative call goes through; anyone but the owner gets `NotOwner` |
| Access.AdministrationDoesOneThing | contracts/src/DraySettlement.sol:167-190 | what each call leaves, for every circuit and every relayer: its own change and nothing else |
| Access.SettlementsAreVerified | contracts/src/DraySettlement.sol:98-129 | `settle` succeeds if and only if the sender is authorised, the circuit registered, the last input fresh and the proof accepted by that circuit's verifier |
| Access.RefusalsNameTheCause | contracts/src/DraySettlement.sol:98-129 | the error of a refused settlement names what is wrong, and every earlier check passes |
| Access.StrangersNeverAdminister | contracts/src/DraySettlement.sol:74-77 | on every chain, any transactions of anyone but the owner leave owner, verifiers and relayers as they were |
| Access.FailedTransactionsChangeNothing | contracts/src/DraySettlement.sol:98-129 | a transaction that fails or runs out of gas leaves the state before it; one that succeeds leaves what its call says at that point of its block |
| Access.ConsumedNullifiersWereProved | contracts/src/DraySettlement.sol:98-129 | in every list of transactions a nullifier is consumed if and only if some transaction, at its moment, was entitled to consume it |
| Access.ChainsConsumeOnlyProofs | contracts/src/DraySettlement.sol:98-129 | the same of every chain from deployment |
| Access.VerifiersAreNeverReplaced | contracts/src/DraySettlement.sol:159-172 | a registered verifier stays, over any transactions, until its circuit is deregistered |
| Access.RevocationsTakeEffect | contracts/src/DraySettlement.sol:174-184 | a revoked relayer's next settlement, and any for a deregistered circuit, is refused |
| EventLog.EventsTellTheState | contracts/src/DraySettlement.sol:98-190 | on every chain the whole storage can be read off the events alone, and each event was allowed by those before it: a settlement's relayer authorised, its circuit registered, its nullifier new and last among its inputs |
| EventLog.EventsAreAllowed | contracts/src/DraySettlement.sol:98-190 | the event of a settlement names its sender, its circuit and its inputs |
| Chain.ReorgsKeepOneEventPerNullifier | contracts/src/DraySettlement.sol:98-129 | over any calls and any suffix replacement, each nullifier has exactly one `Settled` event on the canonical chain if it is used, none otherwise; extending a chain only adds used nullifiers |
| Chain.CanonicalReceiptsAreInTheFold | crates/dray-relayer/src/relayer.rs:768-780 | a settlement that succeeded in a block has its nullifier consumed on every chain that keeps that block |
| Relayer.WordsAreTheInputs | crates/dray-relayer/src/chain.rs:440-455 | the words sent are the stored bytes, thirty-two at a time, in order and with nothing left over |
| Relayer.NullifierIsTheLastWord | crates/dray-relayer/src/relayer.rs:352-372 | the store's last 32 bytes and the contract's last public input are the same nullifier |
| Settling.SettlementsAreWitnessed | crates/dray-relayer/src/relayer.rs:334-855 | in every run of many relayers with replacements, crashes, resumes and reorganisations, `settlement_confirmed` is recorded for a job only by an attempt during which the canonical chain had that job's nullifier consumed |
| Settling.CanonicalityIsAWitness | crates/dray-relayer/src/relayer.rs:757-780 | at the moment `confirm` is told the block is canonical, the job's nullifier is consumed on the canonical chain |
| Settling.OnlyConfirmAndMarkRecord | crates/dray-relayer/src/relayer.rs:757-855 | nothing but a thread's confirmation or its settled-elsewhere mark can record a settlement for its job |
| Depth.LooksDecideExactly | crates/dray-relayer/src/relayer.rs:757-766 | a look at the transaction leads on to the canonicality check exactly when it succeeded in a block with the head at least `confirmations - 1` above it; reverted, to an explanation; otherwise back to watching |
| Depth.ConfirmationsAreDeep | crates/dray-relayer/src/relayer.rs:757-805 | in every run a confirmation is made only by a thread that, earlier in its attempt, saw the transaction it follows successful that deep; its receipt names that block and depth |
| Depth.LiveReceiptsAreDeep | crates/dray-relayer/src/relayer.rs:782-792 | in every run every receipt on a live settlement row was so seen by a thread at that job, and counts at least the required confirmations |
| Broadcasts.BroadcastsAreTheJobsOwn | crates/dray-relayer/src/relayer.rs:334-551 | in every run every transaction a thread has in hand, and every one a settlement row names, calls `settle` with exactly that job's circuit, proof and public inputs |
| Causes.AttemptsBeginWithTheirLease | crates/dray-relayer/src/relayer.rs:334-346 | every attempt began with the grant of its own submission lease, and at the moment it is said to have begun |
| Causes.BroadcastsFollowAnEmptyLook | crates/dray-relayer/src/relayer.rs:374-428 | in every run a new broadcast is made only in an attempt that looked for a settlement and found no live row, or could not look |
| Causes.LooksResume | crates/dray-relayer/src/relayer.rs:374-420 | a look that finds a live row follows exactly its transaction |
| Causes.BroadcastsAreChecked | crates/dray-relayer/src/relayer.rs:430-503 | in every run a new broadcast comes after the node said in this attempt that the nullifier is free and then that the call would go through |
| Causes.FailuresHaveACause | crates/dray-relayer/src/relayer.rs:808-895 | in every run a submission failure is recorded only for a cause met in that attempt, of its kind; a consumed nullifier is never one |
| Causes.ConsumedIsMarked | crates/dray-relayer/src/relayer.rs:808-855 | a job is to be marked exactly when the node answers that its nullifier is consumed |
| Causes.OnlyRevertsAreExplained | crates/dray-relayer/src/relayer.rs:808-830 | only a transaction seen mined and failed is explained |
| Causes.AskingDecidesExactly | crates/dray-relayer/src/relayer.rs:768-780 | canonical, confirm what was seen; gone, end the attempt to be tried again; no answer, keep watching |
| Causes.EndsReachTheJob | crates/dray-relayer/src/relayer.rs:782-895 | under a current lease the end of an attempt reaches the job: settled by a confirmation or a mark, sent back after its delay or failed by a failure, as kind and budget say, with its proof kept and the relayer and reason logged |
| Tracking.TheLiveRowNamesTheTrackedTransaction | crates/dray-relayer/src/relayer.rs:558-754 | with any number of relayers as stale as they like, if only renames of this job's row are made under its current lease: while a thread's lease is current and its writes were taken, the job's one live row is its newest and names exactly the hash it follows |
| Tracking.OnlyAnotherRenameLosesTheRow | crates/dray-relayer/src/relayer.rs:647-730 | exactly when that is lost, in every run without any fence: by another thread's rename of this very transaction, and by no other act of anyone |
| Tracking.ConfirmationsReachTheRow | crates/dray-store/src/lib.rs:1083-1112 | so a confirmation under a current lease settles the job and stamps its receipt on the live row, however stale other threads are |
| TwoTrackers.SecondTrackersAreForgotten | crates/dray-store/src/lib.rs:1183-1201 | the fence cannot be dropped: a complete run of two relayers, from the empty database to a mined replacement, after which a confirmation under a current lease settles the job and its only row names another transaction, without a receipt |
| Gas.InitialIsWithinCaps | crates/dray-relayer/src/gas.rs:98-111 | a first offer is within both caps with tip at most total; uncut, it covers the base fee and the whole tip |
| Gas.HeadroomCoversExactly | crates/dray-relayer/src/gas.rs:98-111 | a first offer no cap cuts pays its whole tip at a later base fee if and only if that is at most the headroom percentage of today's |
| Gas.RaisesAreByThePercentage | crates/dray-relayer/src/gas.rs:119-131 | one raise is by the policy's percentage rounded down, and by at least one |
| Gas.BumpsAreOneRaise | crates/dray-relayer/src/gas.rs:119-148 | a bump raises each fee once, cut only by a cap |
| Gas.BumpsAreAcceptable | crates/dray-relayer/src/gas.rs:119-148 | whatever terms the replaced transaction was sent on, a replacement is within both caps and clears the node's rule on the total, and on the tip too when neither a cap nor the total cut it |
| Gas.NodesTakeBumpsExactly | crates/dray-relayer/src/gas.rs:10-17 | a node, which checks both fees, takes an offered bump if and only if the tip cap leaves room for one more raise of the tip and one raise is enough, which from ten percent up it always is |
| Gas.BumpsFindEveryReplacement | crates/dray-relayer/src/gas.rs:132-148 | from ten percent up, a replacement within the caps that a node would take exists if and only if a bump is offered and the tip has room, and then the offer is one |
| Gas.DefaultBumpsAreRefused | crates/dray-relayer/src/gas.rs:70-89 | the default policy's own first offer, at a suggested tip equal to its cap, is bumped to one the node refuses |
| Gas.CeilingIsHonest | crates/dray-relayer/src/gas.rs:137-142 | from ten percent up, `AtCeiling` if and only if no total within the cap would clear the rule on the total |
| Gas.CeilingIsHonestExactly | crates/dray-relayer/src/gas.rs:119-148 | at any percentage, the ceiling is honest if and only if the cap leaves no room for the rule or one raise reaches what it requires |
| Gas.SmallBumpsNeverClear | crates/dray-relayer/src/gas.rs:52-53 | below ten percent a raise is too small for every fee from 100 up to a tenth of the range, so the ceiling is reported even where the cap would clear |
| Gas.EachBumpAdds | crates/dray-relayer/src/gas.rs:163-176 | each bump adds at least one; it adds a whole tenth if and only if a tenth of the fee is at most a hundredth of the u128 range; above that it adds a hundredth of the range or reaches its top |
| Gas.SaturationCutsTheTenth | crates/dray-relayer/src/gas.rs:170-176 | a fee that is bumped by less than a tenth |
| Gas.ChainsStayWithinCaps | crates/dray-relayer/src/gas.rs:119-148 | every bump of every chain is within both caps, from whatever terms it starts, and totals strictly rise |
| Gas.BumpChainsAreShort | crates/dray-relayer/src/gas.rs:119-148 | bumping stops: a chain of bumps is logarithmic in the cap |
| Nonce.NonceManager.Broadcast | crates/dray-relayer/src/relayer.rs:505-551 | which nonce is used and what the counter becomes for every reply, as the run model says |
| Nonce.BroadcastsNeverOpenAGap | crates/dray-relayer/src/nonce.rs:53-119 | over every interleaving with refusals, lost acknowledgements and foreign transactions no submission is sent above the node's pending count |
| Nonce.QuietNoncesAreConsecutive | crates/dray-relayer/src/nonce.rs:82-119 | without foreign transactions, through refusals, failed reads and every lost acknowledgement that forces a new read, the nonces taken are exactly consecutive below the top of u64 |
| Nonce.OnlySilenceParts | crates/dray-relayer/src/relayer.rs:530-550 | without foreign transactions a counter in step with the node stays in step if and only if no acceptance is lost without forcing a new read |
| Nonce.ResyncsHeal | crates/dray-relayer/src/nonce.rs:111-118 | however counter and node came apart, after one resynchronisation the nonces taken run on consecutively from the node's own count while the account is quiet |
| Nonce.RefusalsKeepTheNonce | crates/dray-relayer/src/relayer.rs:530-550 | a refusal that is not about the nonce leads to the same nonce again, an acceptance to the next, a resynchronisation to the node's count |
| Nonce.SaturationRepeatsANonce | crates/dray-relayer/src/nonce.rs:107-109 | at the top of u64 the saturating counter uses a nonce twice |
| Nonce.LostAcksReuseANonce | crates/dray-relayer/src/relayer.rs:540-550 | one such silent loss is enough to reuse a nonce |
| TrackLoop.Tracker.Iterate | crates/dray-relayer/src/relayer.rs:617-751 | the loop variables and the rename written, in every branch of the waiting case |
| TrackLoop.IterationsReplaceExactly | crates/dray-relayer/src/relayer.rs:617-751 | in every run an iteration replaces if and only if the waiting time has passed since the last replacement, the terms are known and the node takes what is sent: re-nonced when the account is behind, at a higher price otherwise |
| TrackLoop.ReplacementsAreSpaced | crates/dray-relayer/src/relayer.rs:617-740 | in every run a replacement comes at least the waiting time after every earlier one, and after the wait began |
| TrackLoop.ReplacementsAreRare | crates/dray-relayer/src/relayer.rs:617-740 | so a run sends at most one for each whole waiting time gone by |
| TrackLoop.OffersAreOneBumpChain | crates/dray-relayer/src/relayer.rs:696-740 | however long the loop runs, and whatever terms a resumed broadcast was sent on, its offers form one chain of bumps, so all later ones are within both caps and they are logarithmically few |
| TrackLoop.EpochsKeepOneNonce | crates/dray-relayer/src/relayer.rs:558-754 | between any two moments of any run of the loop: nothing changes without a replacement, the total never falls, the nonce changes only at a gap, and between gaps every replacement is at one nonce and a strictly higher total |
| TrackLoop.TipsWithoutRoomStallTheLoop | crates/dray-relayer/src/relayer.rs:696-742 | once the tip has no room, on a node that keeps its rule no run of the loop ever changes the price again, however far the total is below its cap |
| TrackLoop.RenamesFollowTheLoop | crates/dray-relayer/src/relayer.rs:656-730 | the renames written on the way carry the live row from the first hash to the one followed |
| CanonicalWriter.WriteJsonString | crates/dray-core/src/canonical.rs:135-151 | the loop appends exactly the quoted, escaped string |
| CanonicalWriter.CollectSorted | crates/dray-core/src/canonical.rs:102-113 | the same members rising by the scalar values of their keys, or a duplicate-key error, naming a key that repeats, exactly when one does |
| CanonicalWriter.WriteCanonical | crates/dray-core/src/canonical.rs:58-129 | appends exactly the canonical text if and only if the value is writable at this depth; an error names something really wrong and the path that leads to it |
| CanonicalWriter.Canonicalise | crates/dray-core/src/canonical.rs:52-56 | succeeds exactly on values with no float, no repeated key and nesting at most 32, with the canonical text; an error names the fault and its path from `$` |
| Json.WhatIsAcceptable | crates/dray-core/src/canonical.rs:43-70 | at most 32 levels high, numbers whole and within 64 bits, signed or not |
| KeyOrder.KeyOrdersAgree | crates/dray-core/src/canonical.rs:102-116 | the encoder's key order is the order by scalar values at the first difference, and the byte order of the encoded keys |
| KeyOrder.CanonicalMembersRise | crates/dray-core/src/canonical.rs:102-126 | a reader of canonical text finds the members of every object, at every level, rising by scalar values |
| JsonShortest.CanonicalIsShortest | crates/dray-core/src/canonical.rs:71-151 | no text that reads as the value, whatever its spacing, escapes and member order, is shorter than the canonical one |
| JsonShortest.EscapesAreLowerCase | crates/dray-core/src/canonical.rs:135-151 | an escaped text holds no capital letter that was not in it |
| JsonRoundTrip.PrintedReadsBack | crates/dray-core/src/canonical.rs:71-126 | an independent RFC 8259 reader returns the printed value in front of any delimiter |
| JsonRoundTrip.CanonicalReadsBack | crates/dray-core/src/canonical.rs:52-129 | reading canonical text gives the value with members sorted at every level, and canonicalising again is the identity |
| JsonRoundTrip.CanonicalIsUnique | crates/dray-core/src/canonical.rs:102-126 | two accepted inputs have one canonical text if and only if they are equal up to member order at every level |
| Utf8.EncodingIsInjective | crates/dray-core/src/canonical.rs:166-170 | distinct texts have distinct bytes |
| JobHash.FeedJob | crates/dray-core/src/canonical.rs:163-171 | the hasher is fed exactly the circuit, a zero byte and the canonical inputs, and nothing for a refused input |
| JobHash.LastZeroSeparates | crates/dray-core/src/canonical.rs:153-169 | the last zero byte is the separator, whatever the circuit's name |
| JobHash.JobsAreIdentifiedByContent | crates/dray-core/src/canonical.rs:153-171 | two accepted submissions hash the same bytes if and only if circuits are equal and inputs equal up to member order |
| JobHash.DigestsIdentifyJobs | crates/dray-core/src/canonical.rs:163-171 | the same of the digests, when the digest does not collide on the two |
| Toml.RenderValue | crates/dray-worker/src/prover.rs:425-469 | succeeds exactly on strings, booleans, 64-bit integers and arrays of those |
| Toml.WriteQuoted | crates/dray-worker/src/prover.rs:477-496 | the loop writes exactly the quoted, escaped string |
| Toml.RenderProverToml | crates/dray-worker/src/prover.rs:397-423 | succeeds exactly on objects of supported values and flat objects of them, with every scalar before the first table; an error names the place of a value with no rendering |
| TomlRoundTrip.ValueReadsBack | crates/dray-worker/src/prover.rs:425-496 | a TOML v1.0.0 reader returns every rendered value, arrays and hostile strings included |
| TomlRoundTrip.CleanDocumentsReadBack | crates/dray-worker/src/prover.rs:402-423 | a clean document reads back as its scalars, then its tables |
| TomlWeight.ReadingGainsNoWeight | crates/dray-worker/src/prover.rs:471-496 | for every text a TOML reader with quoted keys, dotted keys and comments accepts, what is read, counting two for each key that is not bare, weighs no more than the text |
| TomlWeight.OnlyBareKeysComeBack | crates/dray-worker/src/prover.rs:402-420 | whatever a rendered document spells, if it reads back as its inputs up to member order then every key is bare |
| TomlRoundTrip.DocumentsReadBackWhenClean | crates/dray-worker/src/prover.rs:385-496 | a document reads back as its inputs if and only if every key is bare and every integer fits TOML's range; so no scalar is captured by a table and no string ends early |
| TomlRoundTrip.ForgedKeysInjectFields | crates/dray-worker/src/prover.rs:402-420 | keys are not quoted: one that spells a field and a newline renders to the same document as two fields, so no reader of any kind can give both inputs back |
| Shell.CommandLinesSplitBack | crates/dray-worker/src/bounded.rs:248-260 | the program and arguments are received word for word if and only if none holds a NUL |
| Shell.QuotedIsOneWord | crates/dray-worker/src/bounded.rs:440-442 | a quoted value is one word of the shell, whatever it holds and whatever follows |
| Merkle.BitsAreTheIndex | circuits/membership/src/main.nr:62-67 | the decomposition exists exactly below 2^depth and is the unique one |
| Merkle.ComputeMerkleRoot | circuits/membership/src/main.nr:66-79 | the loop is the path walk, satisfiable exactly for an index below 2^depth |
| Merkle.PathsReachTheRoot | circuits/membership/src/main.nr:66-79 | in every complete tree of every depth each leaf's path walks to the root |
| Merkle.RootsFixTheWalk | circuits/membership/src/main.nr:66-79 | for any pair hash, whatever reaches the root is the leaf at that index with its own path, or a pair that the walk hashes collides with a pair of child roots in the tree |
| Merkle.ProveMembership | circuits/membership/src/main.nr:37-58 | the published nullifier, or nothing when a constraint fails |
| Merkle.MembershipIsExact | circuits/membership/src/main.nr:37-79 | for every depth, complete tree and hash: the circuit accepts every witness that names a leaf at its index with its path, and in any other it accepts a pair of its own walk collides with one of the tree's |
| Merkle.NullifiersIdentifyMembers | circuits/membership/src/main.nr:37-58 | in a tree of distinct leaves two accepted witnesses publish one nullifier if and only if secret, index and path are the same, or one of their walks collides with the tree, or their two nullifier pairs collide |

## Where the code and its documentation differ

- `contracts/src/DraySettlement.sol:131-142` says the pre-flight turns every
  failure into `false`. A verifier without code, or one that returns no boolean,
  makes the view itself revert; `PreflightAnswersUnlessVerifierIsMissing` says
  exactly when.
- `crates/dray-core/src/canonical.rs:103` says the default map keeps insertion
  order. The default `serde_json` map is sorted; the model takes members in any
  order, so it holds either way.
- `crates/dray-relayer/src/gas.rs:10-17` says a node refuses a bump that raises
  only one of the two fees, and `crates/dray-relayer/src/gas.rs:137-139` that an
  offer a node would refuse is reported as the ceiling. Only the total is
  checked: once the tip cap cuts the tip, refused offers are made and repeated;
  `NodesTakeBumpsExactly` says exactly which.
- `crates/dray-relayer/src/gas.rs:52` requires a bump percentage that clears the
  node's rule, but nothing checks it; `SmallBumpsNeverClear` shows the effect.
- A `u64` above 2^63 - 1 is rendered into `Prover.toml`, outside the range TOML
  promises to carry.

## Left out

- Tracking.TheLiveRowNamesTheTrackedTransaction: supposes that no reaped relayer renames the row before its next heartbeat; the run in which one does is in `TwoTrackers`.
- Settling.SettlementsAreWitnessed: the witness lies between the lease and the write; a reorganisation between the last check and the write is left to the reorg watch.
- TomlRoundTrip.DocumentsReadBackWhenClean: the reader takes no inline tables, literal or multi-line string values, dates, floats or other spellings of integers.
- StoreTables.Store.Enqueue: takes the drawn UUID as a parameter that is new; interleaving is in module `Enqueue`.
- Nonce.BroadcastsNeverOpenAGap: no reorganisation or mempool drop lowers the pending count.
- Row metadata: `updated_at`, `finished_at`, `duration_ms`, `peak_memory_kb`, `idempotency_key`, the stored inputs; insertion order stands for `created_at` of settlements.
- 32-bit counters: `attempts` and `submission_attempts` are unbounded here, and bounded by the budget theorems.
- Length checks of hashes, nullifiers and transaction hashes (32 bytes), and the tracker's branch for a stored hash of another length.
- SQL, connection pools, migrations as execution, and read-only listings such as `settlements_to_watch`.
- The Redis lease mirror: best effort, promises no invariant.
- The chain node, signing, ABI encoding and receipt decoding: replaced by the assumptions above; error texts become an enumeration of outcomes.
- Termination of `track`, and that every settled job is watched for reorganisations: not promised by the code; a job settled elsewhere has no settlement row to watch.
- The insides of SHA-256, the Pedersen hash and the generated verifier.
- Run loops, shutdown signals, timers, subprocess limits, scratch directories, `truncate`, the HTTP API, configuration, logging and metrics.
- The range-proof circuit and backoff delays.
