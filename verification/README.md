# AIOPROXY: model and proofs

A Dafny model of AIOPROXY's scheduling core and of the two protocols around it, with proofs. AIOPROXY picks an upstream
proxy for each client request from a shared pool, retries on failure, pins sessions to a proxy and rebuilds parts of the
pool whenever a source refreshes. `dafny verify dfyconfig.toml` checks the whole project.

## What is modelled

**Candidates** (`Candidates.dfy`, `Text.dfy`, `Collections.dfy`). The pre-hash string, its canonical order of keys
whatever order a Go map is walked in, `Normalize`, and the metadata that validation writes. SHA-256 is a constructor over
the pre-hash string, that is, collision-free.

**The pool** (`PoolModel.dfy`, `Pool.dfy`). `Pools.Pool` is the source's class: an order list and two maps changed in
place, with the compaction that reuses the order's backing array. Every method is proved equal to a function of
`PoolModel`, and the theorems are about those functions: index agreement (`PoolModel.dfy`), fairness of the cyclic probe
(`PoolFairness.dfy`), the fastest-N-percent cut (`PoolFastCut.dfy`), eviction as a function of history
(`PoolHistory.dfy`). `rand.Intn` is an arbitrary choice below its bound; `match` and `replace` are predicates.

**Usernames and sessions** (`Usernames.dfy`, `SessionModel.dfy`, `Sessions.dfy`, `SessionRefinement.dfy`,
`Scopes.dfy`). The two username syntaxes, the lazily swept binding table against a map whose expired entries vanish at
once, isolation of scopes, and affinity over runs.

**The retry loop** (`Scheduler.dfy`, `Interference.dfy`, `Affinity.dfy`). `Scheduler.Server` holds the pool and the
sessions. The outcome of a dial is an arbitrary oracle over what the dispatcher is asked to do. `DialScheduled` is the loop as written, with no other request
in between; `DialAmongOthers` is the same loop with others doing anything between its locked regions. `Affinity.dfy`
composes the contract of the former with the session theorems over runs of requests and single operations.

**Refresh** (`Refresh.dfy`, `PluginManager.dfy`). One partial replacement per import report, with the fallback filter,
and with the reports of other plugins and the marks and cursor moves of requests between any two of them.

**Persistence** (`Persistence.dfy`, `EntryRuns.dfy`). Save and load as a pair, start-up, and runs of everything that
happens to a pool, restarts included: how one entry is evicted and what becomes of its dialer over them. A refresh is one
such run (`EntryRuns.StepHappens`).

**The lazy sing-box dialer** (`LazyDialerModel.dfy`, `LazyDialerRuns.dfy`, `LazyDialer.dfy`). A reference-counted box
with an idle timer. Each mutex region is one step; a timer is armed, then fired with its callback waiting for the mutex,
so a callback may run long after `Stop`.

**The validation worker pool** (`WorkerPool.dfy`, `Validation.dfy`). The sender, the workers, the two channels, the
wait group and the cancellation as a step relation; `Validation.Validate` runs it under any scheduler.

**SOCKS5** (`SocksCodec.dfy`, `SocksEnds.dfy`, `SocksHandshake.dfy`). Client and server after sections 3 to 6 of RFC 1928
and section 2 of RFC 1929: as machines, as the straight-line code of the source proved equal to those machines, and run
against each other over two byte streams split in any way.

## Results that differ from the documentation, or do not hold everywhere

- docs/persistence.md:14 says that a refresh is purely additive. Each error-free report replaces its source's entries
  (`Refresh.RefreshEquation`); `Refresh.AdditiveIff` says exactly when nothing is lost, and `Refresh.RefreshCanEmpty`
  is a refresh that empties the pool.
- `docs/sessions.md:12` gives `<credential>-<session>-fast` for a fast session. With an empty session part
  (`<credential>--fast`) the name is accepted and the fast mark is lost (`Usernames.EmptySessionLosesFast`);
  `Usernames.PlainFastIffSessionNotEmpty` says that this is the only such name.
- The binding key keeps scopes apart only for plugins without `|`. `Scopes.BarInPluginCollides` is a collision and
  `Scopes.CollisionsAre` says exactly which pairs collide.
- Sweeping is invisible while clock readings arrive in order, which the theorems over runs assume. Each operation reads
  the clock before it takes the lock, so an older reading can come second: `SessionRefinement.LateReaderSeesSweep` is
  such a run, and `LookupSeesSweepIff` and `CountSeesSweepIff` say exactly when an answer changes.
- A request picks a candidate and looks its dialer up in two locked regions. A sing-box candidate reaches the
  unsupported-protocol branch exactly when its dialer was taken away in between (`EntryRuns.DispatchAfterPick`,
  `EntryRuns.DispatchCanRace`).
- The SOCKS client sends any integer as a port; the server sees it modulo 65536. `SocksCodec.PortReadBack` and
  `SocksHandshake.SameTarget` say when that is the port asked for, `SocksHandshake.PortWrapsAround` gives an exception.

## Model

| member | source | states |
|---|---|---|
| Candidates.MapKeys | internal/core/types.go:77-80 | walking a map yields each key once, in an order nothing is known about |
| Candidates.ComputeKeyedParts | internal/core/types.go:77-86 | whatever the walk, the parts are those of the identity keys present, in ascending order |
| Candidates.ComputeFingerprint | internal/core/types.go:74-90 | the fingerprint is a function of the candidate alone |
| Candidates.PreHashIsIdentity | internal/core/types.go:74-90 | without NUL bytes, two candidates have one pre-hash string exactly when protocol and host (letter case aside), port, user, password and, for sing-box, tag, node_id, config_hash and raw_hash agree |
| Candidates.PreHashText | internal/core/types.go:74-90 | the hashed string of a candidate that is no sing-box node, byte for byte |
| Candidates.StoredTogetherIff | internal/core/types.go:53-90 | which delivered candidates become one entry: those whose fields agree once trimmed and folded, with the sing-box keys only for sing-box |
| Candidates.MetadataOutsideIdentity | internal/core/types.go:76-87 | other metadata does not enter the pre-hash string |
| Candidates.NormalizeIsStable | internal/core/types.go:53-72 | normalizing a normalized candidate changes its time stamp only |
| Candidates.ValidationKeepsIdentity | internal/validation/validation.go:151-161 | the metadata that validation records leaves the identity and the source labels alone |
| Candidates.ValidationRoutes | internal/validation/validation.go:151-161 | a validated candidate is on the route of the country found and of no other; nothing but the three keys changes |
| PoolModel.PutAllOrder | internal/core/pool.go:111-121 | storing a batch appends the first occurrences of new fingerprints and keeps the index in agreement |
| PoolModel.PutAllItems | internal/core/pool.go:111-121 | each fingerprint ends up with its last candidate in the batch, or keeps its old one |
| PoolModel.ReplaceShape | internal/core/pool.go:23-38 | a replacement holds the first occurrences in order, no dialers and a cursor at the start, with the index in agreement |
| PoolModel.AddValidatedShape | internal/core/pool.go:40-67 | an addition keeps the old order, appends first occurrences of new fingerprints and keeps the index in agreement |
| PoolModel.AddLeavesOthers | internal/core/pool.go:40-67 | entries that are not in the batch are untouched |
| PoolModel.ReplaceMatchingShape | internal/core/pool.go:69-124 | the order is the old entries that are not matched or come back, in old order, and then the first occurrences of new fingerprints; survivors outside the batch are unchanged; the index stays in agreement |
| PoolModel.ReplaceNothingIsAdd | internal/core/pool.go:69-124 | if nothing matches and the batch has no duplicates, replacing equals adding |
| PoolModel.DroppedDialersAre | internal/core/pool.go:95-105 | one reset for each dropped entry with a dialer, and of that dialer |
| PoolModel.DroppedDialersInOrder | internal/core/pool.go:95-105 | the resets follow the pool order |
| PoolModel.MarksKeepInv | internal/core/pool.go:297-328 | marking a failure or a success keeps the index in agreement |
| Pools.Pool.Replace | internal/core/pool.go:23-38 | the loop that refills the emptied fields gives the specified pool |
| Pools.Pool.AddValidated | internal/core/pool.go:40-67 | the loop over the batch gives the specified pool and counts the batch |
| Pools.Pool.ReplaceValidatedMatching | internal/core/pool.go:69-124 | sweep and store in place give the specified pool, and the dialers of exactly the entries that are gone are reset, once each and in order |
| Pools.Pool.Prepare | internal/core/pool.go:72-87 | the batch is admitted against the entries present before the sweep |
| Pools.Pool.Compact | internal/core/pool.go:88-110 | compacting the order within its own backing array leaves the survivors in order and drops the maps' other entries |
| Pools.Pool.StoreBatch | internal/core/pool.go:111-121 | the second loop stores the batch one by one |
| Pools.Pool.List | internal/core/pool.go:138-148 | the listing follows the order, entry by entry |
| Pools.Pool.PickMatchingExcluding | internal/core/pool.go:265-295 | a pick is the first eligible entry round the order, from the cursor or from some random start; random picks change nothing |
| Pools.Pool.ProbeRoundRobin | internal/core/pool.go:268-280 | the cyclic probe from the shared cursor equals the specified pick |
| Pools.Pool.ProbeRandom | internal/core/pool.go:281-294 | the probe from a random start gives what that start leads to |
| Pools.Pool.PickMatchingPercentExcluding | internal/core/pool.go:217-263 | from 100 percent on it is the plain pick, below it picks from the fast cut |
| Pools.Pool.PickFast | internal/core/pool.go:223-262 | sort, cut and pick by cursor or at random give the specified answer |
| Pools.Pool.ListEligible | internal/core/pool.go:223-231 | the eligible entries in pool order |
| Pools.Pool.MarkFailure | internal/core/pool.go:297-312 | one failure is added to the entry's record, which evicts it at the threshold; an unknown fingerprint changes nothing |
| Pools.Pool.MarkSuccess | internal/core/pool.go:314-328 | the failures of an available entry are forgotten; an unavailable or unknown one is left alone |
| PoolFairness.RoundRobinIsFair | internal/core/pool.go:265-295 | with k eligible entries any k consecutive picks return each once, and pick i+k equals pick i |
| PoolFairness.PicksGoRound | internal/core/pool.go:268-280 | consecutive picks are consecutive eligible positions of the cyclic order |
| PoolFairness.PickSucceedsIffEligible | internal/core/pool.go:265-295 | a pick succeeds, from the cursor and from every random start, exactly when an eligible entry exists, and returns one |
| PoolFairness.EveryEligibleReachable | internal/core/pool.go:281-294 | each eligible entry is what some random start returns |
| PoolFairness.CursorPickIs | internal/core/pool.go:265-280 | a round-robin pick is the first entry from the cursor on, going round the order, that is available, on the route and not excluded; the cursor ends one past it |
| PoolFairness.RandomPickIs | internal/core/pool.go:281-294 | a random pick is the first such entry from the position drawn |
| PoolFairness.NothingToPick | internal/core/pool.go:265-295 | when there is none, nothing is picked and the cursor goes once round |
| PoolFairness.NthLanding | internal/core/pool.go:268-280 | the i-th pick returns the i-th eligible position from the cursor, and picking moves only the cursor |
| PoolFastCut.FasterIsStrictWeakOrder | internal/core/pool.go:235-248 | the comparison is a strict weak order: among measured candidates the lower latency first, unmeasured ones last |
| PoolFastCut.SortIsStableSort | internal/core/pool.go:235-248 | the sort orders by rising latency with unmeasured candidates at the end, is a permutation, and keeps equals in their order |
| PoolFastCut.EligibleListElements | internal/core/pool.go:223-231 | the list that is cut holds each eligible entry once |
| PoolFastCut.KeptIsFast | internal/core/pool.go:217-263 | the i-th kept entry is eligible and at most i eligible entries have a lower measured latency |
| PoolFastCut.KeepSize | internal/core/pool.go:249-256 | of k eligible entries max(1, floor(k*percent/100)) are kept, and none of none |
| PoolFastCut.FastPickIsFast | internal/core/pool.go:217-263 | fewer than that number of eligible entries have a lower measured latency than a fast pick, and an unmeasured one is picked only when fewer measured ones exist |
| PoolFastCut.FastPicksVisitAll | internal/core/pool.go:257-261 | that many consecutive round-robin picks visit every kept entry once |
| PoolFastCut.FastCursorPick | internal/core/pool.go:257-261 | a round-robin pick from the cut moves the cursor by one, and at most (cursor modulo the number kept) eligible entries have a lower measured latency |
| PoolFastCut.NoFastPick | internal/core/pool.go:217-234 | with nothing eligible there is no pick and the cursor stays |
| PoolHistory.MarksTouchRecordsOnly | internal/core/pool.go:297-328 | no run of marks changes the order, the dialers, the cursor or the set of entries |
| PoolHistory.EvictionByHistory | internal/core/pool.go:297-328 | over runs of marks, a freshly admitted entry is unavailable exactly when it failed m times in a row within them |
| PoolHistory.RecordByHistory | internal/core/pool.go:297-328 | a freshly admitted entry shows the failures since its last success and the reason of the last one |
| PoolHistory.EvictionIsFinal | internal/core/pool.go:297-328 | no run of marks brings an unavailable entry back |
| PoolHistory.AdmissionIsFresh | internal/core/pool.go:40-124 | admission by validation makes an entry available with no failures and no error, and keeps when it was first seen |
| PoolHistory.LastOneEnters | internal/core/pool.go:40-124 | of several candidates of a batch with one fingerprint both admissions store the last |
| Usernames.ParseStructuredUsername | internal/core/session.go:77-134 | the loop over segments with its table of seen keys equals the order-free specification |
| Usernames.SegmentIs | internal/core/session.go:86-116 | which single segments are accepted and as which key and value: key trimmed and lower-cased, value trimmed and not empty, fast only as true |
| Usernames.StructuredIs | internal/core/session.go:77-134 | what an accepted set of segments means, field by field, and that a time to live without a session or that does not parse is refused |
| Usernames.StructuredRejects | internal/core/session.go:77-116 | another credential, a malformed or unknown segment or a repeated key is refused |
| Usernames.CollectIs | internal/core/session.go:85-116 | the segments are accepted exactly when all are well formed with different known keys, and then tabulate them |
| Usernames.SegmentOrderIsFree | internal/core/session.go:77-134 | the structured form gives one result for all permutations of its segments |
| Usernames.PlainEqualsStructured | internal/core/session.go:37-134 | credential-session-ttl[-fast] and its structured form parse to the same, stated session |
| Usernames.SessionTTLBounds | internal/core/session.go:37-134 | a session's lifetime is positive and at most the maximum |
| Usernames.ClampIs | internal/core/session.go:68-73 | the lifetime is what was asked for or the default, capped by the maximum if there is one |
| Usernames.PlainSession | internal/core/session.go:52-74 | credential-session[-fast] without a duration behind the last dash: the session is all of it, with the default lifetime |
| Usernames.BareCredential | internal/core/session.go:41-51 | the credential alone, and with -fast; a credential that ends in -fast is refused alone (the configuration does not allow one) |
| Usernames.PlainRejects | internal/core/session.go:52-55 | a plain name that is neither the credential nor starts with it and a dash is refused |
| Usernames.PlainFastIffSessionNotEmpty | internal/core/session.go:41-74 | a plain name ending in -fast is accepted exactly behind the credential and a dash; it is then fast unless it is the credential followed by a bare dash and that suffix |
| Usernames.EmptySessionLosesFast | internal/core/session.go:45-59 | that one name is accepted as the bare credential, not fast |
| Sessions.SessionManager.SweepExpired | internal/core/session.go:230-240 | the sweep drops exactly the expired bindings, at most once an interval |
| Sessions.SessionManager.GetBound | internal/core/session.go:180-202 | a lookup returns a live binding whose entry is available and on the route, and extends it |
| Sessions.SessionManager.Rebind | internal/core/session.go:204-219 | the session is bound afresh |
| Sessions.SessionManager.Unbind | internal/core/session.go:221-228 | the session's binding, and no other, is gone |
| Sessions.SessionManager.Pick | internal/core/session.go:143-178 | a live usable binding wins; otherwise a pool pick is bound |
| Sessions.SessionManager.PickFromPool | internal/core/session.go:143-178 | the pool pick behind it follows the policy |
| Sessions.SessionManager.Count | internal/core/session.go:242-247 | counting sweeps first |
| SessionRefinement.StepRefines | internal/core/session.go:143-247 | one operation answers as it does on a map without expired bindings and leaves the same live bindings |
| SessionRefinement.TableRefinesMap | internal/core/session.go:143-247 | over every run with clock readings in order, all answers are those of that map |
| SessionRefinement.SweepTimeNeverShows | internal/core/session.go:230-240 | the answers do not depend on when the last sweep was |
| SessionRefinement.LookupSweeps | internal/core/session.go:230-240 | a lookup drops the other expired bindings when the last sweep was a minute or more ago, and then only |
| SessionRefinement.StaleBindingsGo | internal/core/session.go:143-247 | over every run from an empty table, right after a lookup, pick or count no binding is left that expired a minute or more ago |
| SessionRefinement.CountIs | internal/core/session.go:242-247 | the count is the number of unexpired bindings |
| SessionRefinement.SweepShowsIff | internal/core/session.go:230-240 | a sweep changes what an operation at any reading finds exactly when it dropped a binding that reading would have seen |
| SessionRefinement.LookupSeesSweepIff | internal/core/session.go:180-202 | a lookup answers differently after a sweep exactly when the sweep dropped its own usable binding, unexpired at its reading |
| SessionRefinement.CountSeesSweepIff | internal/core/session.go:242-247 | a count answers differently exactly when the sweep dropped any binding unexpired at its reading |
| SessionRefinement.LateReaderSeesSweep | internal/core/session.go:230-240 | from an empty table, a lookup with an older reading finds its own live binding swept by another session, and is served without that session |
| Scopes.KeysKeepScopesApart | internal/core/session.go:136-141 | for plugins without a bar, two binding keys are equal exactly when plugin, region, fast mark and session are |
| Scopes.BarInPluginCollides | internal/core/session.go:136-141 | two different scopes with one key, through a bar in the plugin |
| Scopes.CollisionsAre | internal/core/session.go:136-141 | two different scopes share a key exactly when one plugin spells out the other scope and the sessions make up for it |
| Scopes.OtherKeysUntouched | internal/core/session.go:143-247 | no run on other keys changes the live binding of a key |
| Scopes.OtherScopesUntouched | internal/core/session.go:143-247 | no run on other scopes, with plugins free of bars, changes the live binding of a session |
| Scopes.AffinityLasts | internal/core/session.go:180-202 | while each use of a session comes less than its time to live after the use or bind before it, finds the candidate usable, and nothing takes the binding away, every lookup and pick on its key returns that candidate |
| Scopes.ServedIffInTime | internal/core/session.go:180-202 | with nothing on the key in between, a later lookup is served exactly when it comes less than the time to live after the last use or bind |
| Scopes.BindLasts | internal/core/session.go:204-219 | from a bind on, for its clamped time to live |
| Scopes.UseExtends | internal/core/session.go:195-202 | from a use on, for the time to live afresh |
| Scopes.PickLasts | internal/core/session.go:143-178 | from a pick on that no binding served, for the clamped time to live, by the candidate picked |
| Scopes.NotRevived | internal/core/session.go:143-202 | once a binding has failed to serve a lookup or pick, no later lookup returns it until the session is bound again, though its candidate recovers |
| Scheduler.RoundRobinPickIsGood | internal/core/pool.go:265-295 | the cursor's pick is sound and complete for the route and exclusions |
| Scheduler.RandomPickIsGood | internal/core/pool.go:265-295 | so is every random pick |
| Scheduler.FastPickIsGood | internal/core/pool.go:217-263 | so is every pick from the fast cut |
| Scheduler.BoundIsGood | internal/proxy/server.go:341-349 | so is a bound candidate that has not been tried |
| Scheduler.PickedIsOnRoute | internal/core/types.go:43-51 | a sound pick has the plugin and the country asked for, letter case aside |
| Scheduler.NoneOnRoute | internal/core/types.go:43-51 | when there is none, every available untried entry lacks one of them |
| Scheduler.PickMatchingIsGood | internal/core/session.go:168-178 | the session manager's own pick is sound and complete under both policies |
| Scheduler.DialledAs | internal/proxy/upstream.go:26-38 | a registered dialer decides, else http and socks5 are spoken, else the protocol is refused by name |
| Scheduler.NextPick | internal/proxy/server.go:299-340 | after the failures so far, a sound pick is new and was eligible at entry, and no pick means all that were eligible are tried |
| Scheduler.PolicyPickIsFast | internal/proxy/server.go:350-353 | what a fast request is given has fewer faster rivals than the cut keeps |
| Scheduler.FastTurn | internal/proxy/server.go:299-354 | after the failures so far, that holds of what was untried at entry: each attempt cuts again what is left |
| Scheduler.EachFailureMarkedOnce | internal/proxy/server.go:322-340 | the marks of a request add one failure to each failed candidate, with its error, evict it at the threshold and touch no other |
| Scheduler.Server.PickCandidateForAttempt | internal/proxy/server.go:341-354 | a good bound candidate first, else a pool pick by the policy, sound and complete |
| Scheduler.Server.PickFromPool | internal/proxy/server.go:349-353 | the pick behind it follows the policy, from the fast cut for a fast request; it is sound and complete and moves only the cursor |
| Scheduler.Server.Attempt | internal/proxy/server.go:308-340 | one turn of the loop: it starts with a lookup whose untried candidate it picks; its mark; and the session bound to a success and unbound by a failure |
| Scheduler.Server.DialScheduled | internal/proxy/server.go:299-340 | uninterrupted: distinct candidates eligible at entry, at most retryAttempts + 1 of them (or one); each failed one marked once; failure only after that many or when all eligible ones failed; the session bound to the winner by its last operation or left unbound; what its first operation, a lookup, returns is tried first; for a fast request every other candidate tried has fewer faster rivals, among those untried, than the cut keeps |
| Interference.DialAmongOthers | internal/proxy/server.go:299-339 | whatever others do to pool and sessions between the locked regions: distinct candidates, at most retryAttempts + 1 of them (or one), each eligible in the pool it was picked from and each failed one marked once; failure only after that many, with the session unbound, or when the last pick found nothing eligible and untried; the session bound to the winner |
| Interference.AttemptAmongOthers | internal/proxy/server.go:306-337 | one turn with others in between: its pick is eligible where it was found, its dialer is the one registered when it was looked up, and its mark is on the pool as found then |
| Interference.PickAmongOthers | internal/proxy/server.go:341-354 | with others between the lookup and the pick: a bound untried candidate is taken, else the pick follows the policy; it is sound and complete for the pool of the region that decided |
| Affinity.RequestFinds | internal/proxy/server.go:306-349 | in a run of single operations and whole requests, each request looks up on the table that the operations before it lead to |
| Affinity.FirstAttemptStays | internal/proxy/server.go:306-349 | over any such run, while each use of a session comes less than its time to live after the one before, finds the candidate usable, and nothing takes the binding away, each request on it tries the bound candidate first |
| Affinity.WinnerIsTriedFirst | internal/proxy/server.go:322-349 | hence the winner of a request is what later requests on its session try first |
| Refresh.BatchMembers | internal/app/app.go:317-349 | a report's batch holds exactly the candidates that match its source, or all of the plugin's when none does |
| Refresh.NamedBatch | internal/app/app.go:317-349 | a named report's batch by labels: those with the name as query or source label, for fpl the unlabelled ones, or all of the plugin's when there are none |
| Refresh.NamelessBatch | internal/app/app.go:317-349 | a nameless report's batch is all of the plugin's; no batch holds another plugin's candidates |
| Refresh.SelectConcat | internal/app/app.go:317-333 | filtering keeps order and number |
| Refresh.StoredIs | internal/core/types.go:53-72 | the fingerprint stored and the labels kept do not depend on the time of storing |
| Refresh.AddEffect | internal/core/pool.go:40-67 | adding unions the fingerprints, takes entries from the batch and leaves the rest |
| Refresh.RefreshEquation | internal/app/app.go:271-287 | after one refresh of each of any number of plugins, their reports interleaved in any way with each other and with marks and picks, the fingerprints are the old ones no error-free report of any plugin claims and those of every report's batch |
| Refresh.BroughtIn | internal/app/app.go:271-287 | every batch member is in the pool at the end, of errored reports too, and nothing else is new |
| Refresh.NamedEntryGoes | internal/app/app.go:335-349 | an old entry of the plugin whose query or source label is an error-free report's name is gone unless brought in again |
| Refresh.NamelessOrUnlabelledGoes | internal/app/app.go:335-349 | so is every old entry of a plugin with a nameless error-free report, and every unlabelled fpl entry with any |
| Refresh.OtherEntryStays | internal/app/app.go:335-349 | every other old entry stays |
| Refresh.DeliveredStays | internal/app/app.go:335-349 | no report sweeps what any plugin's refresh has brought in, unless its own batch brings it in again |
| Refresh.AdditiveIff | internal/app/app.go:271-287 | such refreshes keep every old entry exactly when each old entry claimed by an error-free report is brought in again |
| Refresh.RefreshCanEmpty | internal/app/app.go:273-279 | one entry of the default fpl list, and an error-free report of that list with nothing valid in it, leave an empty pool |
| Refresh.ReportOrderIsFree | internal/app/app.go:271-287 | that set depends neither on the order of the reports nor on how plugins interleave |
| Refresh.NothingLostElsewhere | internal/app/app.go:271-287 | an entry that no refreshing plugin labels, or that only errored reports match, stays |
| PluginManagers.FilterCandidatesForReport | internal/app/app.go:317-333 | the two loops give the matching candidates, or all of the plugin's when none match |
| PluginManagers.PluginManager.UpdatePool | internal/app/app.go:276-282 | one report's replacement or addition |
| PluginManagers.PluginManager.ApplyReports | internal/app/app.go:271-284 | the loop over reports is the run of their steps, and counts each batch |
| PluginManagers.PluginManager.Refresh | internal/app/app.go:249-293 | the whole refresh, uninterrupted, meets the set equation, saves the resulting pool and records the status |
| PluginManagers.Assess | internal/app/app.go:252-270 | degraded exactly when nothing was imported, a report erred or nothing passed; the last error wins |
| PluginManagers.StatusAfterError | internal/app/app.go:252-270 | with a failed report: degraded, with the error of the last one that failed unless nothing passed |
| PluginManagers.StatusWithoutError | internal/app/app.go:252-270 | without: degraded exactly when nothing was imported or nothing passed |
| Persistence.ReloadInPlace | internal/storage/storage.go:55-61 | rewriting the slice in place reloads each candidate |
| Persistence.Store.LoadPool | internal/storage/storage.go:37-63 | a missing file is an empty pool; a read error is returned and the file left; a file that cannot be used is moved aside; otherwise each candidate is reloaded |
| Persistence.StartPool | internal/app/app.go:125-133 | a start puts the loaded candidates into an empty pool |
| Persistence.RestartRoundTrip | internal/storage/storage.go:37-73 | save, load and replace restore order, entries, counts and statuses, except that sing-box entries become unavailable with a fixed message; dialers are gone |
| Persistence.StartTakesIn | internal/storage/storage.go:55-61 | whatever a readable file holds, all of it is taken in and no sing-box candidate starts out available |
| Persistence.RunIsSound | internal/storage/storage.go:55-61 | every operation and restart keeps available sing-box entries dialable |
| Persistence.SingBoxNeverUnsupported | internal/proxy/upstream.go:26-38 | in every state of every run with restarts an available sing-box entry has its dialer registered, so a dispatch in that state uses it |
| EntryRuns.EvictionSinceAdmission | internal/core/pool.go:40-124 | over runs of imports, admissions, marks and picks that neither readmit nor drop it, an admitted entry is unavailable exactly when its marks since contain m failures with no success between them |
| EntryRuns.SparedRecord | internal/core/pool.go:297-328 | the record of an entry that such a run spares is what its marks alone make of it |
| EntryRuns.DialerGoneIff | internal/core/pool.go:95-105 | a registered dialer is gone after a run exactly when an import or a restart took it away and nothing later brought one |
| EntryRuns.DialerIsLatest | internal/core/pool.go:111-121 | the dialer registered for an entry is the one that came last |
| EntryRuns.RefreshRegisters | internal/app/app.go:271-287 | whatever other reports, plugins and requests do, every batch member of a refresh that came with a dialer has one registered at the end |
| EntryRuns.DispatchAfterPick | internal/proxy/server.go:307-320 | a picked sing-box candidate is dispatched as unsupported exactly when that happened between the pick and the lookup of its dialer, and otherwise through the registered dialer |
| EntryRuns.DispatchCanRace | internal/proxy/server.go:307-320 | it can happen: between the two, an error-free report of the node's named sing-box source with nothing valid in it |
| Persistence.ImportSupplies | internal/plugins/singbox/singbox.go:182-197 | the dialer delivered with a candidate is found after validation has written its metadata |
| LazyDialerModel.StepKeepsInv | internal/plugins/singbox/singbox.go:251-402 | every step keeps the dialer's invariant |
| LazyDialerModel.AcquireKeeps | internal/plugins/singbox/singbox.go:264-291 | acquiring joins the open box or starts one, stops the timer, counts the use and keeps the invariant |
| LazyDialerModel.ReleaseKeeps | internal/plugins/singbox/singbox.go:315-353 | ending a use counts it off, and the last one leaves a timer or, without a limit, no box; the invariant is kept |
| LazyDialerModel.CallbackKeeps | internal/plugins/singbox/singbox.go:355-366 | a firing, current or stale, leaves box, timer and uses consistent |
| LazyDialerRuns.DialerIsSafe | internal/plugins/singbox/singbox.go:251-402 | over every run: the count is the number of uses, box and outbound stand together, no other box runs, every use belongs to the open box, an idle open box has a current timer |
| LazyDialerRuns.UseKeepsItsBox | internal/plugins/singbox/singbox.go:264-366 | until a use ends its box stays open, whatever else happens |
| LazyDialerRuns.OpenBoxServes | internal/plugins/singbox/singbox.go:280-291 | acquiring an open box cannot fail and joins its uses |
| LazyDialerRuns.StartsWhenClosed | internal/plugins/singbox/singbox.go:264-313 | acquiring with no box starts a new one for the new use alone; if it does not start nothing changes |
| LazyDialerRuns.DialEnds | internal/plugins/singbox/singbox.go:251-262 | a dial can succeed, which keeps its use, or fail, which gives it back |
| LazyDialerRuns.ClosesOnce | internal/plugins/singbox/singbox.go:398-402 | the first close of a connection gives its use back, a later one changes nothing |
| LazyDialerRuns.FiringCloses | internal/plugins/singbox/singbox.go:341-366 | unless a new use comes, an idle box's timer stays current until the box is closed, and its firing closes it |
| LazyDialerRuns.IdleBoxCanClose | internal/plugins/singbox/singbox.go:341-366 | from every state with an idle open box the timer can go on to fire and no box is left running |
| LazyDialerRuns.ClosesOnlyWhenIdle | internal/plugins/singbox/singbox.go:355-366 | a firing closes the box exactly when nobody uses it and every acquire and release of the run is idleAfter or more ago |
| LazyDialerRuns.ResetClosesIdle | internal/plugins/singbox/singbox.go:327-333 | in every reachable state a reset leaves an unused dialer without box, outbound and timer, and one in use as it was |
| LazyDialers.LazyOutboundDialer.Acquire | internal/plugins/singbox/singbox.go:264-278 | the method is the acquire step of the runs above: it succeeds exactly with a running or startable box, and a failure leaves only the timer stopped |
| LazyDialers.LazyOutboundDialer.EnsureLocked | internal/plugins/singbox/singbox.go:280-291 | a running outbound is reused, else started or refused |
| LazyDialers.LazyOutboundDialer.Release | internal/plugins/singbox/singbox.go:315-325 | the method is the release step of the runs above |
| LazyDialers.LazyOutboundDialer.ResetIdleCache | internal/plugins/singbox/singbox.go:327-333 | the method is the reset step of the runs above: only an unused box is closed |
| LazyDialers.LazyOutboundDialer.ScheduleIdleCloseLocked | internal/plugins/singbox/singbox.go:341-353 | no box, no timer; no limit, close now; else the one timer is set |
| LazyDialers.LazyOutboundDialer.CloseIfIdle | internal/plugins/singbox/singbox.go:355-366 | the method is the callback step of the runs above, so ClosesOnlyWhenIdle speaks of it |
| LazyDialers.LazyOutboundDialer.CloseLocked | internal/plugins/singbox/singbox.go:378-390 | timer, box and outbound go together and the box is closed |
| LazyDialers.LazyOutboundDialer.DialContext | internal/plugins/singbox/singbox.go:251-262 | a failed dial gives its use back, a successful one hands out a connection that holds it |
| LazyDialers.ManagedConn.Close | internal/plugins/singbox/singbox.go:398-402 | the first close releases, later ones change nothing |
| WorkerPool.Workers | internal/validation/validation.go:32-38 | the limit, 50 without one, but no more than the candidates |
| WorkerPool.PlacesStep | internal/validation/validation.go:42-75 | a step moves a candidate between worker, channel, result and rejection, and only sending brings one in |
| WorkerPool.StepKeepsInv | internal/validation/validation.go:42-75 | every step keeps each dispatched candidate in exactly one place, and only passed ones on their way out |
| WorkerPool.SendNeverBlocks | internal/validation/validation.go:40-56 | a worker with a result finds room on the output channel |
| WorkerPool.Progress | internal/validation/validation.go:42-75 | until the call returns, some step other than a cancellation is possible |
| WorkerPool.StepShrinks | internal/validation/validation.go:42-75 | every step uses up some of a bounded number of steps |
| Validation.PoolIsSafe | internal/validation/validation.go:32-75 | every run is bounded and never stuck, at most min(concurrency, n) validations are in progress, sends do not block, no candidate is validated twice |
| Validation.AllWorkAtOnce | internal/validation/validation.go:32-38 | some run has that many validations in progress at once |
| Validation.ResultIsWhatPasses | internal/validation/validation.go:25-76 | on return each dispatched candidate was validated exactly once; the result is the multiset of those that pass, or part of it after a cancellation |
| Validation.CancellationCanLose | internal/validation/validation.go:57-65 | a cancellation can keep a candidate that would pass from being dispatched |
| Validation.CancellationCanFail | internal/validation/validation.go:42-56 | and one already dispatched from passing |
| Validation.ValuesOfPicks | internal/validation/validation.go:71-75 | collecting passed candidates once each gives part of all that pass, and all of them when none is missing |
| Validation.Validate | internal/validation/validation.go:25-76 | under every scheduler it terminates with that result; skipping returns the input |
| SocksCodec.PortReadBack | internal/proxy/server.go:194-198 | the port read is the one sent modulo 65536, hence the same exactly when it is a port |
| SocksCodec.HostReadBack | internal/proxy/server.go:428-448 | the host read is the one sent, in whichever of the three forms |
| SocksEnds.LoginReadBack | internal/proxy/server.go:409-427 | a login the client encodes is read back, and what follows it is left |
| SocksEnds.LoginIsEncoded | internal/proxy/server.go:409-427 | every login read is the encoding of what was got |
| SocksEnds.AddrReadBack | internal/proxy/server.go:428-448 | an address the client encodes is read back, and what follows it is left |
| SocksEnds.ReadSocksAuth | internal/proxy/server.go:409-427 | the successive reads parse a login and consume what the parse consumes |
| SocksEnds.ReadSocksAddr | internal/proxy/server.go:428-448 | the successive reads parse an address of the given type |
| SocksEnds.ContainsByte | internal/proxy/server.go:449-456 | true exactly when the byte is among the methods |
| SocksEnds.ServeRequest | internal/proxy/server.go:181-209 | request, dial and reply equal the server machine from there on |
| SocksEnds.HandleSocks | internal/proxy/server.go:145-209 | the straight-line code ends, writes and leaves unread what the server machine does |
| SocksEnds.HandleConn | internal/proxy/server.go:128-143 | the first byte decides the protocol |
| SocksEnds.SkipBound | internal/proxy/upstream.go:175-202 | skipping the bound address equals the client machine from there on |
| SocksEnds.ReadReply | internal/proxy/upstream.go:162-204 | reading the reply equals the client machine from there on |
| SocksEnds.AskFor | internal/proxy/upstream.go:134-204 | building and sending the request, or refusing to, equals the client machine |
| SocksEnds.DialSocks5 | internal/proxy/upstream.go:80-205 | the straight-line code ends, writes and leaves unread what the client machine does |
| SocksEnds.ReplyReadExactly | internal/proxy/upstream.go:162-204 | the client succeeds exactly on a whole success reply and reads no byte beyond it |
| SocksEnds.TenBytesRead | internal/proxy/server.go:207 | of the server's success reply the client reads exactly the ten bytes, leaving what the tunnel sends |
| SocksEnds.RequestBytes | internal/proxy/upstream.go:134-157 | the client's request in bytes, for the three forms of host |
| SocksEnds.ClientTalks | internal/proxy/upstream.go:90-204 | a whole exchange without login in bytes: what is answered, what is sent, what is left |
| SocksEnds.ClientLogsIn | internal/proxy/upstream.go:107-204 | the same with a login |
| SocksEnds.ClientGivesUp | internal/proxy/upstream.go:99-133 | another version or method, or an account too long: nothing more is sent |
| SocksEnds.ClientRefused | internal/proxy/upstream.go:122-129 | nor after a refused login |
| SocksEnds.ServerGreets | internal/proxy/server.go:145-166 | the server's choice of method in bytes, or 5, 255 |
| SocksEnds.ServerChecksLogin | internal/proxy/server.go:168-180 | its answer to a login in bytes |
| SocksEnds.ServerServes | internal/proxy/server.go:181-208 | what it dials for a request in bytes, and its reply: code 0 or 1 |
| SocksEnds.ServerRefuses | internal/proxy/server.go:185-193 | code 7 for another version or command, code 4 for another address type |
| SocksEnds.ServerCutOff | internal/proxy/server.go:181-197 | code 4 when the address breaks off, no answer elsewhere |
| SocksHandshake.GreetingRead | internal/proxy/server.go:146-166 | inside the client's greeting the server has what it needs and answers with the agreed method or a refusal |
| SocksHandshake.AuthRead | internal/proxy/server.go:168-180 | inside the client's login the server has what it needs and judges the client's own user and password |
| SocksHandshake.RequestRead | internal/proxy/server.go:181-198 | inside the client's request the server has what it needs and arrives at the client's host |
| SocksHandshake.AnySplit | internal/proxy/server.go:145-209 | what is in flight may reach the server in pieces of any size |
| SocksHandshake.StepKeepsInv | internal/proxy/server.go:145-209 | every step of either end, however the streams are split, keeps the two ends in agreement |
| SocksHandshake.ClientNeverCutOff | internal/proxy/server.go:145-209 | the server never closes on a client that still reads |
| SocksHandshake.NoDeadlock | internal/proxy/upstream.go:90-204 | until both ends are settled one of them can go on |
| SocksHandshake.StepShrinks | internal/proxy/upstream.go:90-204 | every step uses up some of a bounded number of steps |
| SocksHandshake.EndsAgree | internal/proxy/upstream.go:90-204 | the client reports success exactly when method, login and dial succeed; then both hold the same host and the port modulo 65536, the reply is read to its end and the server holds no unread byte |
| SocksHandshake.SameTarget | internal/proxy/upstream.go:139-157 | both ends hold the very same target exactly when the port is a port |
| SocksHandshake.PortWrapsAround | internal/proxy/upstream.go:139-157 | port 65616 is carried as port 80 and the exchange succeeds |

## Left out

- Time: each operation reads the clock once, where the source may read it again within a locked region; time stamps that nothing reads are not kept.
- Clock order: session runs assume that readings reach the table in order; `SessionRefinement.LateReaderSeesSweep` is what happens otherwise.
- `rr`, the shared cursor, is an unbounded natural number and does not wrap around.
- Candidate's `ID` field is not modelled; it copies the fingerprint.
- SHA-256 is collision-free by construction, and JSON encoding and decoding keep the stored fields as they are.
- Letter case is folded and white space trimmed for ASCII only.
- `time.ParseDuration` is an arbitrary partial function; where the two syntaxes are compared it is assumed to reject the empty string, the word fast, a tilde and surrounding spaces (`Usernames.ParsesDurations`).
- The texts of `dialScheduled`'s own errors; an error here is only that no candidate was dialled.
- Concurrent requests of one session: in `dialScheduled` lookup and rebind are separate locked regions, so no single winner is claimed.
- Scheduler.Server.DialScheduled: describes a request that no other request, mark or refresh interrupts; `Interference.DialAmongOthers` says what is left when they do.
- Refresh.RefreshEquation: each plugin refreshes once; a second refresh of a plugin starts from the pool the first one left.
- PluginManagers.PluginManager.Refresh: a refresh without reports is covered only when nothing interrupts it.
- `SessionManager.Pick` ignores the fast cut, and so does its model; the server does not call it.
- `tunnel`: it decides when to mark a candidate; here marks are events of their own.
- SocksHandshake.EndsAgree: assumes no timeout and no lost connection, and says nothing of bytes sent through the tunnel.
- SocksEnds.HandleConn: the HTTP side of the listener is not part of this model.
- The text forms of hosts: an address is the 16 bytes net.ParseIP gives, a name any other text, and the server's rendering of an address is taken to parse back.
- `Pick`, `Available`, `ForEach`, `Count` and `MatchingAvailable` of the pool repeat the members above in simpler form.
- `lazyOutboundDialer.Close` closes under a use; nothing in the program calls it, and runs here do not.
- LazyDialers.LazyOutboundDialer.DialContext: shows its two regions without others in between; LazyDialerRuns interleaves them.
- The sing-box library, its configuration formats and share links; starting a box is an oracle that may fail.
- FOFA and FPL fetching, the HTTP exchange of a validation and country lookup: only what they deliver matters.
- Persistence.Store.LoadPool: models reading and moving aside, not renames, fsync, snapshots or their pruning.
- `resetIdleDialerCaches` after a validation is the Reset step of the dialer; the refresh model does not call it.
- The configuration checks: their bounds appear as preconditions where a theorem needs them.
- The admin API, logging, the command line, signals and memory release.
