# Gateway admission control

A Dafny model of the Go gateway under `gateway/`: a proxy that turns each client connection
away or forwards it to a game backend. The model covers the parts that decide and remember:

| modules | what they model |
|---|---|
| `Keys`, `TextLaws`, `Windows`, `MapSums`, `Sequences`, `Wrappers` | the text keys "ip:uid"; what can be read back from a text; fixed windows over event times; sums over maps; what loops collect |
| `LimiterSpec`, `Limiter`, `LimiterRuns`, `LimiterSharp`, `LimiterLaws` | the three-layer rate limiter |
| `BlacklistSpec`, `Blacklist`, `BlacklistRuns`, `WhitelistRuns`, `BanRuns`, `AutoLearn`, `AutoLearnSharp`, `BlacklistLaws` | ban lists with expiry, the persisted file, auto-learning |
| `Protocol`, `RoutingSpec`, `Routing`, `RoutingRuns`, `RoutingThreads`, `RoutingLaws` | backend counters, risk levels, decay, gate and selection, also with connections in flight |
| `Relay`, `RelayLaws` | the copy loops |
| `FilterSpec`, `GatewaySpec`, `Gateway`, `GatewayRuns`, `GatewayBooks`, `GatewayLaws` | the pipeline: whitelist, blacklist, limiter, backend; the route, monitor and log after it |
| `Analyzer` | the bounded log, its histograms, top attackers |
| `MonitorSpec`, `Monitor`, `MonitorThreads`, `BackendSpec`, `BackendBooks` | global, per-port and per-backend counters, sequentially and under concurrency |

How the parts hang together. A `...Spec` module says on values what each operation decides and
leaves behind. The classes (`RateLimiter`, `BlacklistManager`, `ProtocolStats`, `RouteEntry`,
`ProxyServer`, `LogAnalyzer`, `Monitor`) change their fields in place as the Go objects do, and
every method is proved to produce exactly the specified state. The `...Runs` modules then prove
properties of every run of those operations, mostly against a reference that keeps what the code
throws away: the full history of accepted requests, of rejects, of live threads. The `...Laws`
modules say what the specifications mean without calling the functions that make them up: in the
events that happened, the raw maps, literal bytes, nanoseconds and the constants written out.

Time is an integer number of nanoseconds passed to each operation; a run never sees the clock go
back. The file is four sequences of entries, written in any order a map iteration may yield.
Dialling, socket reads and socket writes are inputs. Configuration is fixed within a run.

Lemmas by induction, and some over whole runs, carry `{:induction false}`: their proof is the one
written down.

## Main results

- The limiter's three numbers per key decide exactly as the full history of accepted requests would
  (`LimiterRuns.LimiterRefinesHistory`), wherever sweeps happen (`SweepsChangeNoDecision`), and bound
  every sliding window by 2M - 1, which is reached (`SlidingWindowBound`, `LimiterSharp.SlidingWindowBoundIsSharp`).
- A restart at any moment keeps every answer iff the first file is in the right order
  (`BlacklistRuns.RestartsAgreeIff`), and in any case after the first save.
- A ban on an IP, a uid or a pair is enforced for as long as it was written for
  (`BanRuns.BanIsEnforced`, `GatewayRuns.BannedNeverReachesLimiter`).
- A reject bans exactly when the real rejects of its key say so (`AutoLearn.AutoLearnFiresExactly`);
  2T - 2 of them in one window are enough, 2T - 3 are not (`EnoughRejectsTeach`,
  `AutoLearnSharp.EnoughRejectsIsSharp`). End to end, a burst is cut off (`GatewayRuns.BurstIsCutOff`).
- No live backend is locked out for good (`RoutingRuns.NoPermanentLockout`, `GateReopens`), a dead
  one is never chosen (`DownStaysOut`). least_conn deals in turn (`LeastConnDealsInTurn`) and, with up
  to c connections between choosing and counting, stays within a gap of c, which is reached
  (`RoutingThreads.GapStaysWithinPending`, `GapIsReached`).
- An attempt's outcome at any point of any run is told exactly by the whitelist, the bans in force
  and the requests accepted before (`GatewayLaws.AttemptOutcome`, `LimiterLaws.HistoryInNumbers`). A
  whitelisted address always passes (`GatewayLaws.WhitelistedAlwaysPasses`), a lifted ban stays
  lifted (`BlacklistLaws.LiftedStaysLifted`).
- Between health checks a backend can be selected iff it has counted at most ten broken streams
  (`RoutingLaws.EleventhTimeoutIsDown`), and which counts close the gate is exact
  (`GateClosesExactly`). A check that reaches a backend makes it healthy and opens the gate
  (`ReachedIsHealthy`, `ReachingTickOpensGate`).
- What a relayed connection counts at its backend is told by the bytes that went through
  (`GatewayLaws.RelayedIsCounted`), so a backend that refuses every login turns Critical
  (`RefusingBackendTurnsCritical`).
- The relay loses, reorders and repeats nothing, whatever reads and writes do (`Relay.ForwardClient`).
- The monitor's totals add up in every interleaving (`MonitorThreads.AlwaysBalanced`), and every
  accepted socket is booked exactly once (`GatewayBooks.BookedOnce`). The top attackers are the
  addresses refused most among exactly the latest sockets (`GatewayBooks.TopAttackersAreRefused`), and
  a frequency query counts exactly those of them that began late enough (`QueriesCountSockets`).

## What the proofs found

- `round_robin` does not rotate: over any run its answer changes iff a backend that the scan looked at
  became usable or unusable (`RoutingRuns.RoundRobinChangesIff`), so one backend gets every
  connection (`RoundRobinLoadsOne`). README.md:21 of the repository describes it as rotation; the
  model follows the code (gateway/proxy/proxy.go:549-559).
- The comment at gateway/proxy/proxy.go:528 says that backends in danger are left out of the
  selection; the code leaves out Down ones only. When a Critical one is chosen, for each strategy and
  whatever the gate says: `RoutingRuns.RoundRobinPicksCriticalIff`, `LeastConnPicksCriticalIff`,
  `RandomMayPickCriticalIff`. It happens past an open gate too, in a run each strategy makes
  (`OpenGatePicksCritical`).
- The comments at gateway/protocol/protocol.go:276 and 292 promise that counters are zero after 60
  seconds, or after five rounds. Zero is reached iff every counter is below 2^rounds
  (`Protocol.DecayClearsIff`, `DecayMayLeaveCounters`). A halving can raise the risk level, exactly
  when `Protocol.HalvingRaisesRiskIff` says; the health check never does, as it decays only Critical
  and Down backends (`RoutingRuns.CheckNeverRaisesRisk`).
- Auto-learning looks at the IP entry and not at its expiry, so an expired entry that was not
  swept yet keeps a source from being banned (`AutoLearn.StaleEntryStopsLearningIff`).
- A file that lists a key twice can ban it again after the live manager let it go. The condition is
  not that keys are distinct but that, of the unexpired entries of a key, the last expires last
  (`BlacklistRuns.LoadMirrorsIff`).
- Whitelisting an address does not rewrite the file (gateway/blacklist/blacklist.go:264-273), so a
  restart may lose it; `WhitelistRuns.WhitelistEntryLostIff` says exactly when.
- Re-adding a ban, on an IP, a uid or a pair, shortens it iff the old entry outlasts the configured duration: a permanent
  or a longer one that came from the file (`BanRuns.ReAddShortensIff`).
- Limiter and blacklist keys never merge two pairs; auto-learn counters can, for IPv6
  (`Keys.LearnKeyCollision`).
- How many logins a client is counted as depends on how its bytes arrive, unless it sends fewer than
  twenty (`Relay.LoginCountIsFixedIff`).
- The monitor shows a live backend as dead until something is reported of it, and its active
  connections are all it ever had, since they are only counted up
  (`BackendBooks.LivenessIsShownIff`).
- A close on a port never seen is booked globally only. The proxy never does that
  (`MonitorThreads.TotalsAddUpWhenQuiescent`), but the monitor does not rule it out
  (`MonitorSpec.ConservedIffNoStrayClose`).

## Model

| member | source | states |
|---|---|---|
| Keys.PairKeySplits | gateway/limiter/limiter.go:108 | The last colon of "ip:uid" ends the IP part, even for IPs with colons |
| Keys.PairKeyInjective | gateway/blacklist/blacklist.go:245 | Two pairs share a key iff they are the same pair, for all texts and all integers |
| Keys.LearnKeyCollision | gateway/blacklist/blacklist.go:316-319 | Exactly when two sources share an auto-learn counter |
| Keys.ColonFreeLearnKeys | gateway/blacklist/blacklist.go:316-319 | With colon-free addresses different sources never share a counter |
| Keys.IPv6CountersCanMerge | gateway/blacklist/blacklist.go:316-319 | Two IPv6 sources that do share one |
| Windows.OpenerMeaning | gateway/limiter/limiter.go:220-229 | What a stored start time means: later events lie within the window, and it began more than a window after the one before |
| Windows.SpanBound | gateway/limiter/limiter.go:176-207 | Two windows may overlap an interval of one window's length, but not both full |
| Windows.SlidingBound | gateway/limiter/limiter.go:176-207 | Fixed windows of at most m events bound every sliding window by 2m - 1 |
| Windows.LoadIsRecent | gateway/blacklist/blacklist.go:321-333 | A window of two or more events counts only events of the last window length |
| Windows.EdgeIsCapped | gateway/limiter/limiter.go:220-229 | The densest events: 2m of them, no window with more than m |
| Windows.EdgeCount | gateway/limiter/limiter.go:220-229 | 2m - 1 of them lie in one window's length |
| LimiterSpec.CommitIsAllOrNothing | gateway/limiter/limiter.go:116-154 | A refused check changes no table; an accepted one advances or restarts exactly the records it is charged to |
| LimiterSpec.ReasonText | gateway/limiter/limiter.go:181-207 | A refusal always has a reason text, so a logged refusal is counted as one; LimiterLaws.ReasonTells says what it tells |
| Limiter.RateLimiter.constructor | gateway/limiter/limiter.go:70-103 | Empty tables; the default limits when no configuration is given |
| Limiter.RateLimiter.CheckAll | gateway/limiter/limiter.go:106-155 | Result and all three tables after the check-all-then-commit step |
| Limiter.RateLimiter.GetIPRate | gateway/limiter/limiter.go:247-260 | The count of the window in force, else 0 |
| Limiter.RateLimiter.GetUIDRate | gateway/limiter/limiter.go:263-276 | The same for a uid |
| Limiter.RateLimiter.ResetIP | gateway/limiter/limiter.go:311-315 | Forgets one IP and nothing else |
| Limiter.RateLimiter.ResetUID | gateway/limiter/limiter.go:318-322 | Forgets one uid and nothing else |
| Limiter.RateLimiter.Cleanup | gateway/limiter/limiter.go:347-372 | Keeps exactly the records used within the last three windows |
| Limiter.CleanMap | gateway/limiter/limiter.go:354-371 | Deleting while iterating, in any order, leaves the records at or after the cutoff |
| LimiterRuns.VerdictsAgree | gateway/limiter/limiter.go:158-210 | Agreeing states decide alike, down to layer, count and limit |
| LimiterRuns.AgreesStep | gateway/limiter/limiter.go:106-244 | Every operation keeps the counters in agreement with the full history |
| LimiterRuns.LimiterRefinesHistory | gateway/limiter/limiter.go:106-244 | After any run, the compressed state answers any request as the full accepted history does |
| LimiterRuns.SweepsChangeNoDecision | gateway/limiter/limiter.go:332-372 | Runs that differ only in where sweeps happen answer every request alike |
| LimiterRuns.RatesAreLoads | gateway/limiter/limiter.go:247-276 | After any run the shown rate is the number of requests accepted in the window in force |
| LimiterRuns.StoredCountsStayInRange | gateway/limiter/limiter.go:213-244 | In every run stored counts stay in 1..m, m the largest limit in use |
| LimiterRuns.SlidingWindowBound | gateway/limiter/limiter.go:176-207 | In every run and any sliding window: at most 2m - 1 accepted requests per IP, uid or pair since its last reset |
| LimiterSharp.SlidingWindowBoundIsSharp | gateway/limiter/limiter.go:176-207 | For every limit and window length some run reaches 2m - 1 |
| LimiterLaws.TimesAreAccepted | gateway/limiter/limiter.go:106-155 | What counts against an IP, a uid or a pair: the accepted requests of it since its last reset, if the layer is on; without a uid only the IP |
| LimiterLaws.HistoryInNumbers | gateway/limiter/limiter.go:106-210 | The verdict the limiter refines, in numbers: a request is refused iff the first layer that is on has reached a positive limit for its kind, with windows of windowSize seconds; layer, kind, count and limit follow |
| LimiterLaws.EleventhConnection | gateway/limiter/limiter.go:70-83 | By default ten connections of one address pass at once and an eleventh is refused for exactly one second |
| LimiterLaws.CommitInNumbers | gateway/limiter/limiter.go:213-244 | What an accepted request leaves in each record it counts in: the time, and one more in the window in force or a new window; no other record changes, and a refused request changes none |
| LimiterLaws.SweepForgets | gateway/limiter/limiter.go:347-372 | A sweep forgets exactly the records not used for more than three windows |
| LimiterLaws.ReasonTells | gateway/limiter/limiter.go:181-207 | From a reason text layer, kind, count and limit can be read back, in this order |
| Blacklist.BlacklistManager.constructor | gateway/blacklist/blacklist.go:78-112 | Defaults, and the lists the file yields at start |
| Blacklist.BlacklistManager.LoadFromFile | gateway/blacklist/blacklist.go:456-506 | Adds the file's unexpired entries to the lists, in file order, over entries of the same key |
| Blacklist.BlacklistManager.SaveToFile | gateway/blacklist/blacklist.go:418-453 | The file lists every live entry once, in some order |
| Blacklist.BlacklistManager.CheckBlacklisted | gateway/blacklist/blacklist.go:168-189 | IP first, then uid, then pair; the latter two only for a positive uid |
| Blacklist.BlacklistManager.AddIPBlacklist | gateway/blacklist/blacklist.go:201-218 | One step of the ban system: the entry is replaced and the file rewritten |
| Blacklist.BlacklistManager.AddUIDBlacklist | gateway/blacklist/blacklist.go:221-238 | The same for a uid |
| Blacklist.BlacklistManager.AddCombinedBlacklist | gateway/blacklist/blacklist.go:241-261 | The same for a pair |
| Blacklist.BlacklistManager.AddIPWhitelist | gateway/blacklist/blacklist.go:264-273 | Whitelists in memory and leaves the file alone |
| Blacklist.BlacklistManager.RemoveIPBlacklist | gateway/blacklist/blacklist.go:276-282 | Removes one entry and rewrites the file |
| Blacklist.BlacklistManager.RemoveUIDBlacklist | gateway/blacklist/blacklist.go:285-291 | The same for a uid |
| Blacklist.BlacklistManager.RemoveCombinedBlacklist | gateway/blacklist/blacklist.go:294-301 | The same for a pair |
| Blacklist.BlacklistManager.RecordReject | gateway/blacklist/blacklist.go:304-367 | Counts the reject; bans and saves exactly when the threshold is met and no entry stands in the way |
| Blacklist.BlacklistManager.AddAutoBan | gateway/blacklist/blacklist.go:340-364 | The learned entry and the file after it |
| Blacklist.BlacklistManager.ClearLists | gateway/blacklist/blacklist.go:370-379 | Empties bans and counters, keeps the whitelist, rewrites the file |
| Blacklist.BlacklistManager.CleanupExpired | gateway/blacklist/blacklist.go:524-558 | Drops exactly the expired bans and the counters older than two windows; no write |
| Blacklist.LoadEntries | gateway/blacklist/blacklist.go:477-500 | The loading loop adds to the given map what the recursive reading of the file yields |
| Blacklist.OntoNothing | gateway/blacklist/blacklist.go:89-112 | A new manager holds exactly what the file yields |
| Blacklist.ValuesOf | gateway/blacklist/blacklist.go:435-446 | Each value of a map exactly once, in some iteration order |
| Blacklist.DropExpired | gateway/blacklist/blacklist.go:530-549 | Deleting while iterating leaves exactly the unexpired entries |
| Blacklist.DropStale | gateway/blacklist/blacklist.go:551-557 | Deleting while iterating leaves exactly the fresh counters |
| BlacklistRuns.LeadIsLoaded | gateway/blacklist/blacklist.go:477-500 | Loading leaves the last unexpired entry of each key |
| BlacklistRuns.LoadMirrorsIff | gateway/blacklist/blacklist.go:477-500 | A list loaded now answers for ever as one loaded later iff, of the unexpired entries of a key, the last expires last |
| BlacklistRuns.EarlierEntryResurfaces | gateway/blacklist/blacklist.go:477-500 | Otherwise an earlier entry comes back: the moment and the key |
| BlacklistRuns.SaveMirrors | gateway/blacklist/blacklist.go:418-453 | A saved list answers, whenever loaded, as the map it was written from, whatever the iteration order |
| BlacklistRuns.SweepMirrors | gateway/blacklist/blacklist.go:524-549 | A sweep keeps the unwritten file as good as memory |
| BlacklistRuns.StepConsistent | gateway/blacklist/blacklist.go:201-379 | Every operation keeps keys coherent and the file as good as memory |
| BlacklistRuns.AlwaysCoherent | gateway/blacklist/blacklist.go:201-261 | In every run entries are filed under their own keys, whatever the first file |
| BlacklistRuns.ConsistentOnceSaved | gateway/blacklist/blacklist.go:418-453 | From the first save on the file is as good as memory, whatever the first file |
| BlacklistRuns.AlwaysConsistent | gateway/blacklist/blacklist.go:201-558 | From a file that meets the condition it always is |
| BlacklistRuns.RestartKeepsEveryAnswer | gateway/blacklist/blacklist.go:418-506 | From any such state, a manager started later over the file returns every entry and answer of the live one, then and ever after |
| BlacklistRuns.RestartsAgreeIff | gateway/blacklist/blacklist.go:456-506 | Exactly which first files make every run survive a restart at any moment |
| BlacklistRuns.DuplicateEntriesCanResurface | gateway/blacklist/blacklist.go:477-484 | A file with a repeated IP that does not, and the same entries in an order that does |
| WhitelistRuns.WhitelistOnDiskIsOfLastSave | gateway/blacklist/blacklist.go:264-273 | The file's whitelist is the live one at the last save |
| WhitelistRuns.WhitelistEntryLostIff | gateway/blacklist/blacklist.go:264-273 | Exactly which whitelisted addresses a restart loses |
| WhitelistRuns.WhitelistEntryIsLost | gateway/blacklist/blacklist.go:264-273 | A run that loses one: whitelist, then restart |
| BanRuns.BanHolds | gateway/blacklist/blacklist.go:201-379 | Through any run without a manual lift, an entry on an IP, uid or pair lasts at least as long as it was written for |
| BanRuns.BanIsEnforced | gateway/blacklist/blacklist.go:168-218 | A ban on an IP, uid or pair written at t is reported on [t, t + duration], for ever when there is no duration, whatever the first file |
| BanRuns.ReAddShortensIff | gateway/blacklist/blacklist.go:201-261 | Exactly when banning an IP, uid or pair again ends its ban earlier |
| BanRuns.ReAddFreesPermanentBan | gateway/blacklist/blacklist.go:201-218 | A run that does: a permanent entry of the file, added again under a duration |
| AutoLearn.TracksStep | gateway/blacklist/blacklist.go:304-367 | Every operation, the sweep at two windows included, keeps each counter equal to the rejects of the window in force |
| AutoLearn.AlwaysTracks | gateway/blacklist/blacklist.go:304-367 | So does every run |
| AutoLearn.AutoLearnFiresExactly | gateway/blacklist/blacklist.go:330-363 | A reject adds its IP iff the real rejects of its key in the window in force reach the threshold (2 at least) and neither IP nor pair has an entry |
| AutoLearn.LearnedBansAreEarned | gateway/blacklist/blacklist.go:321-363 | Soundness: at least the threshold of rejects of one key in the window that ends now |
| AutoLearn.NoLearningWhenDisabled | gateway/blacklist/blacklist.go:308-310 | Switched off, a reject changes nothing |
| AutoLearn.EnoughRejectsTeach | gateway/blacklist/blacklist.go:321-363 | Completeness: 2T - 2 rejects of one key in a closed interval of one window list an IP or pair right after one of them |
| AutoLearn.EnoughRejectsTeachTheSource | gateway/blacklist/blacklist.go:316-363 | With colon-free addresses it is the source itself |
| AutoLearnSharp.EnoughRejectsIsSharp | gateway/blacklist/blacklist.go:321-363 | For every threshold and window some run has 2T - 3 rejects of one IP in a window and lists nobody |
| AutoLearnSharp.SparseRejectsTeachNothing | gateway/blacklist/blacklist.go:321-363 | Rejects of one IP whose windows stay below the threshold leave all lists empty |
| AutoLearn.StaleEntryStopsLearningIff | gateway/blacklist/blacklist.go:330-340 | A reject over the threshold leaves its source unblocked iff an expired, unswept entry stands in the way |
| AutoLearnSharp.StaleEntryStopsLearning | gateway/blacklist/blacklist.go:330-340 | A run in which that happens |
| BlacklistLaws.AnswerExactly | gateway/blacklist/blacklist.go:168-189 | The answer reports an entry of the uid list iff there is a uid, that entry is in force and none of the IP is; likewise the other two lists and no answer |
| BlacklistLaws.BlockedIffBanned | gateway/blacklist/blacklist.go:168-189 | A connection is blocked iff some ban meant for it is in force |
| BlacklistLaws.BanWrites | gateway/blacklist/blacklist.go:201-261 | Every field of the entry a ban by hand leaves; no other entry, no counter and no whitelisted address changes |
| BlacklistLaws.WhitelistingWrites | gateway/blacklist/blacklist.go:264-273 | Address, note and time are kept, and no ban or counter changes |
| BlacklistLaws.LiftRemoves | gateway/blacklist/blacklist.go:276-301 | Lifting a ban removes its entry and nothing else |
| BlacklistLaws.ClearingRemoves | gateway/blacklist/blacklist.go:370-379 | Clearing removes all bans and counters and keeps the whitelist |
| BlacklistLaws.LiftedStaysLifted | gateway/blacklist/blacklist.go:276-301 | In every run, restarts included, a ban lifted alone or with all others is gone until it is written again |
| BlacklistLaws.SweepRemoves | gateway/blacklist/blacklist.go:524-558 | A sweep removes exactly the entries that have run out and the counters started more than two learning windows ago; no answer ever changes and the file is left alone |
| BlacklistLaws.NothingIsKept | gateway/blacklist/blacklist.go:418-506 | Without persistence the file never changes and a restart forgets everything |
| BlacklistLaws.WhatIsNotWritten | gateway/blacklist/blacklist.go:264-273 | Whitelisting, sweeping, restarting and a reject that lists nobody write no file |
| BlacklistLaws.LoadingAdds | gateway/blacklist/blacklist.go:456-506 | For each key, loading puts the last entry of the file that has not run out over what was there, or leaves that |
| BlacklistLaws.WhiteIsLast | gateway/blacklist/blacklist.go:502-505 | A whitelisted address is loaded with its last entry in the file |
| BlacklistLaws.RestartIsFresh | gateway/blacklist/blacklist.go:89-112 | A restart starts from the file alone: the last unexpired entry of each key, the whitelist of the file, no counters; and it writes nothing |
| BlacklistLaws.LearnedEntry | gateway/blacklist/blacklist.go:340-364 | Every field of a learned ban: on the IP, source auto, the configured duration, and a reason that tells the window and the number of rejects, in this order |
| BlacklistLaws.RejectChanges | gateway/blacklist/blacklist.go:304-367 | A reject changes no more than the counter of its key and the entry of its IP, and never one that is there |
| BlacklistLaws.RejectsAtOnce | gateway/blacklist/blacklist.go:321-333 | n rejects at one moment list the IP iff n is at least two and at least the threshold, and the counter is n |
| BlacklistLaws.TwoRejects | gateway/blacklist/blacklist.go:321-333 | Two rejects count together iff no more than the learning window lies between them |
| BlacklistLaws.TenthRejectBans | gateway/blacklist/blacklist.go:78-86 | By default a tenth reject bans for exactly an hour and a ninth does not |
| Protocol.ProtocolStats.DecayIfIdle | gateway/protocol/protocol.go:277-311 | The loop, the all-zero shortcut and the risk reading together equal one decay; true iff that ends Normal |
| Protocol.ProtocolStats.Reset | gateway/protocol/protocol.go:314-326 | Clears all but the response count |
| Protocol.ShiftedIsQuotient | gateway/protocol/protocol.go:291-298 | n rounded halvings are one division by 2^n |
| Protocol.DecaysCompose | gateway/protocol/protocol.go:291-298 | a rounds and then b rounds are a + b rounds |
| Protocol.DecayLaw | gateway/protocol/protocol.go:285-310 | Each of six counters becomes c / 2^min(5, idle/limit); timestamp and responses stay; the cached health equals the risk |
| Protocol.DecayClearsIff | gateway/protocol/protocol.go:276-306 | Exactly when one decay clears all counters |
| Protocol.DecayMayLeaveCounters | gateway/protocol/protocol.go:276-306 | Of 64 refused logins two idle periods leave 16, Critical still; five or more leave 2 |
| Protocol.DecayHalves | gateway/protocol/protocol.go:285-310 | One decay takes at least half of every counter |
| Protocol.HalvingRaisesRiskIff | gateway/protocol/protocol.go:291-353 | Exactly when one halving raises the risk level; it never makes a backend Down |
| Protocol.HalvingCanRaiseRisk | gateway/protocol/protocol.go:329-353 | An input for that: 13 logins with 6 refusals are Degraded, halved they are Critical |
| Protocol.HalvingNeverWorsensShaky | gateway/protocol/protocol.go:291-353 | From Critical or Down no number of halvings raises the level |
| Routing.RouteEntry.constructor | gateway/proxy/proxy.go:62-75 | Every backend alive, uncounted and with a statistics cell of its own |
| Routing.RouteEntry.IsBackendCritical | gateway/proxy/proxy.go:136-161 | The two counting loops decide: something is alive and all that is alive is Critical or Down |
| Routing.CountsDecide | gateway/proxy/proxy.go:146-160 | Why comparing the two counts decides it |
| Routing.RouteEntry.SelectBackend | gateway/proxy/proxy.go:516-547 | Some choice the strategy allows, or "" when nothing is usable; RoutingLaws.EleventhTimeoutIsDown says who that is |
| Routing.RouteEntry.FirstUsable | gateway/proxy/proxy.go:549-559 | The default scan returns the first usable backend, or none if there is none |
| Routing.RouteEntry.LeastConnSelect | gateway/proxy/proxy.go:561-575 | The first usable index of minimal count, or none for an empty list |
| Routing.RouteEntry.FindBackendIndex | gateway/proxy/proxy.go:486-499 | The first index with the address, or -1 |
| Routing.RouteEntry.RecordProto | gateway/proxy/proxy.go:402-483 | The counter, timestamp and cached health each kind of traffic leaves; out-of-range indices change nothing |
| RoutingSpec.FirstAt | gateway/proxy/proxy.go:486-499 | What looking up an address returns |
| RoutingRuns.GateAndSelectorAgree | gateway/proxy/proxy.go:136-161 | In one state: open gate and empty selection iff nothing is alive; a selection is alive and not Down |
| RoutingRuns.ClosedGateStillSelectsIff | gateway/proxy/proxy.go:136-161 | Behind a closed gate the selector answers iff some live backend is Critical |
| RoutingRuns.RoundRobinPicksCriticalIff | gateway/proxy/proxy.go:524-559 | The scan picks a Critical backend iff only unusable ones stand before some live Critical one |
| RoutingRuns.LeastConnPicksCriticalIff | gateway/proxy/proxy.go:524-575 | least_conn does iff some live Critical one has fewer connections than every usable other, or as many at a smaller index |
| RoutingRuns.RandomMayPickCriticalIff | gateway/proxy/proxy.go:524-586 | random may iff there is a live Critical one |
| RoutingRuns.OpenGatePicksCritical | gateway/proxy/proxy.go:516-575 | For each strategy a run the gateway makes, connections placed by it and traffic only after them, that ends with an open gate, a Normal backend at hand and the Critical one chosen |
| RoutingRuns.TrafficNeedsConnection | gateway/proxy/proxy.go:254-273 | In such runs a backend that counted any traffic has counted a connection |
| RoutingRuns.TrafficCommutes | gateway/proxy/proxy.go:402-483 | Two events counted at one moment commute, so the order in which the directions are sniffed does not matter |
| RoutingRuns.RoundRobinChangesIff | gateway/proxy/proxy.go:549-559 | Over any run the answer of round_robin changes iff a backend its scan looked at became usable or unusable |
| RoutingRuns.RoundRobinSticks | gateway/proxy/proxy.go:549-559 | However many connections are placed, the next goes where the first did |
| RoutingRuns.RoundRobinLoadsOne | gateway/proxy/proxy.go:549-617 | Of n successive connections one backend gets n and the others none |
| RoutingRuns.AddressFindsItsIndex | gateway/proxy/proxy.go:486-499 | With distinct addresses the selected, the counted and the looked-up index are the same |
| RoutingRuns.AlwaysStamped | gateway/proxy/proxy.go:402-483 | In every reachable state nonzero counters carry a timestamp |
| RoutingRuns.NoPermanentLockout | gateway/proxy/proxy.go:633-673 | n idle ticks with 11*2^n > timeouts and 5*2^n > logins leave a live backend neither Critical nor Down, for good, even if every probe fails |
| RoutingRuns.GateReopens | gateway/proxy/proxy.go:136-161 | From the initial state on, the gate then reopens and every strategy answers |
| RoutingRuns.CheckNeverRaisesRisk | gateway/proxy/proxy.go:633-673 | A health check never raises a backend's risk level |
| RoutingRuns.DownStaysOut | gateway/proxy/proxy.go:588-603 | A backend marked down is never selected until a health check reaches it |
| RoutingRuns.RevivedIsClean | gateway/proxy/proxy.go:640-650 | A check that reaches it brings it back with zero counters, Normal and usable |
| RoutingRuns.ResponsesNeverCounted | gateway/proxy/proxy.go:402-483 | No operation counts responses |
| RoutingRuns.GapStaysSmall | gateway/proxy/proxy.go:561-575 | Whatever becomes of the others, two backends always usable stay within max(1, initial gap) |
| RoutingRuns.LeastConnDealsEvenly | gateway/proxy/proxy.go:561-617 | With k backends always usable, every count after n connections is n/k rounded down or up |
| RoutingRuns.LeastConnDealsInTurn | gateway/proxy/proxy.go:561-617 | The n-th connection (from 0) goes to backend n mod k |
| RoutingThreads.AlwaysBounded | gateway/proxy/proxy.go:516-617 | With choosing and counting as separate steps of interleaved connections, pending ones included, no backend leads by more than max(c, initial lead) |
| RoutingThreads.GapStaysWithinPending | gateway/proxy/proxy.go:516-617 | With at most c connections in between, two backends always usable stay within max(c, initial gap) |
| RoutingThreads.GapIsReached | gateway/proxy/proxy.go:516-617 | For every c some run ends c apart |
| RoutingRuns.CountsAddUp | gateway/proxy/proxy.go:605-617 | Counts are never taken back: they sum to the connections made |
| RoutingLaws.RiskIsRead | gateway/protocol/protocol.go:329-353 | The risk level in rates: Down from eleven broken streams on, Critical from half the logins refused, Degraded from three in ten refused or lost |
| RoutingLaws.GateAndUseInCounts | gateway/proxy/proxy.go:136-161 | The gate and who can be selected, in counts |
| RoutingLaws.TrafficIsCounted | gateway/proxy/proxy.go:402-483 | In every run without a health check each of the five counters of a backend grows by exactly the events of its kind at its index, and the timestamp is that of the last |
| RoutingLaws.ConnectionsAreCounted | gateway/proxy/proxy.go:588-617 | And its connections by those made to its address; it is alive iff it was and has not been marked down |
| RoutingLaws.CachedHealth | gateway/proxy/proxy.go:402-483 | Logins and heartbeats leave the cached health, the other kinds refresh it |
| RoutingLaws.EleventhTimeoutIsDown | gateway/proxy/proxy.go:516-547 | From the start and between checks, a backend not marked down can be selected iff it has counted at most ten broken streams |
| RoutingLaws.GateClosesExactly | gateway/proxy/proxy.go:136-161 | The gate is closed iff some backend was not marked down and each of those counted eleven broken streams, or five logins with half refused |
| RoutingLaws.DecayInNumbers | gateway/protocol/protocol.go:277-311 | Decay divides every counter by two for each half minute without traffic, five times at most |
| RoutingLaws.CheckInNumbers | gateway/proxy/proxy.go:640-671 | What a check does to a backend, in each of the cases healthy, dead, failing, reached and unreached |
| RoutingLaws.ReachedIsZeroed | gateway/proxy/proxy.go:662-669 | A backend that is dialled and reached ends alive with all counters zero; dead ones are dialled, and failing ones that decay alone does not bring back to Normal |
| RoutingLaws.ReachedIsHealthy | gateway/proxy/proxy.go:633-673 | For every route and tick, a backend that is reached is alive and neither Critical nor Down afterwards |
| RoutingLaws.ReachingTickOpensGate | gateway/proxy/proxy.go:136-161 | After a tick that reaches any backend the gate is open and every strategy answers |
| RoutingLaws.OneBackendIsReached | gateway/proxy/proxy.go:662-669 | Five refused logins close the gate of a single backend; a check ten seconds later that reaches it opens it |
| RoutingLaws.OneBackendIsDecayed | gateway/proxy/proxy.go:652-660 | Unreached, its counters stay for thirty seconds less a nanosecond and are halved from then on |
| Relay.Copy | gateway/proxy/proxy.go:302-332 | For every script of reads (data, errors, both at once) and of writes: the output is every chunk before the first failing write, plus what that write still sent, or every chunk; the counter is the bytes of whole writes; every chunk up to the last write is sniffed |
| Relay.Forward | gateway/proxy/proxy.go:306-321 | One chunk: sniffed, written, and added to the byte count unless the write fails |
| Relay.ChunksAreStream | gateway/proxy/proxy.go:302-332 | The chunks the loop has to write are, joined, what the reads yield up to the first error other than a timeout |
| Relay.DeliveredIsPrefix | gateway/proxy/proxy.go:315-318 | Whatever write fails, the output is a prefix of the chunks joined, and all of it if none does |
| Relay.ForwardClient | gateway/proxy/proxy.go:266-298 | The sniffed first read is forwarded first: the backend gets a prefix of the client's stream, all of it if no write fails, with the exact byte and login counts either way |
| Relay.ForwardBackend | gateway/proxy/proxy.go:335-398 | The same towards the client, with what is sniffed of each chunk; a timeout is counted iff the loop stops on an error other than timeout and end of stream |
| Relay.ClientLoginsBound | gateway/proxy/proxy.go:309-316 | However a client's stream arrives, it counts as at most one login per twenty bytes |
| Relay.LoginCountIsFixedIff | gateway/proxy/proxy.go:309-316 | Clients that send the same stream, in reads that fit the buffers, are all counted alike iff it is shorter than twenty bytes |
| Relay.SniffedUidIff | gateway/proxy/proxy.go:190-197 | A first packet yields a uid iff it has a login's size and carries the uid at offset 14, lowest byte first |
| RelayLaws.AllGoesOn | gateway/proxy/proxy.go:302-332 | As long as there is no error but timeouts, the chunks are the data of the reads |
| RelayLaws.ReadingStopsAt | gateway/proxy/proxy.go:302-332 | The first other error ends reading: its data still counts and nothing after it |
| RelayLaws.BrokenIsBreaksOff | gateway/proxy/proxy.go:355-362 | A stream is broken iff its first error other than a timeout is not the end of the stream |
| RelayLaws.WholeWritesAreCounted | gateway/proxy/proxy.go:315-321 | Only the last write may fail; the byte count is that of the chunks written whole, and a failing write may have sent a part more |
| RelayLaws.ReplySniffed | gateway/proxy/proxy.go:367-398 | A reply is a refusal, an acknowledgement or a heartbeat iff its first four bytes are 3 0 2 0, 3 0 1 0 or 3 0 7 0 |
| RelayLaws.RepliesAreCounted | gateway/proxy/proxy.go:367-398 | So replies are counted as many of each kind as start with its bytes, and as nothing else |
| RelayLaws.LoginsAreCounted | gateway/proxy/proxy.go:309-316 | A client's chunks are counted as a login for each of at least twenty bytes, and as nothing else |
| Gateway.ProxyServer.FilterConnection | gateway/proxy/proxy.go:209-237 | Whitelist, blacklist, limiter in this order, and what each outcome leaves in limiter, blacklist, monitor and log |
| Gateway.ProxyServer.MarkBackendDown | gateway/proxy/proxy.go:588-603 | Takes one backend out, in the route and in the monitor, and changes nothing else |
| Gateway.ProxyServer.RecordBackendConn | gateway/proxy/proxy.go:605-617 | Counts one connection, in the route and in the monitor, and changes nothing else |
| Gateway.ProxyServer.CheckOne | gateway/proxy/proxy.go:640-671 | Probe a dead backend; decay, then probe, a shaky one; leave the rest; report what was reached |
| Gateway.ProxyServer.CheckBackends | gateway/proxy/proxy.go:633-673 | The health tick over all backends, in the route and in the monitor |
| Gateway.ProxyServer.PlaceConnection | gateway/proxy/proxy.go:239-256 | A choice the strategy allows is dialled and marked down, or counted, in the route and in the monitor, under the index its traffic is counted at |
| Gateway.ProxyServer.RouteConnection | gateway/proxy/proxy.go:239-298 | An admitted connection is placed, logged, relayed both ways and its traffic counted, or booked as rejected |
| Gateway.Exchange | gateway/proxy/proxy.go:266-298 | What reaches each side, the byte counts, and the traffic sniffed; nothing is read from the backend if the first packet cannot be written |
| Gateway.ProxyServer.RecordTraffic | gateway/proxy/proxy.go:402-483 | The events of a connection are counted at its backend, in order |
| Gateway.ProxyServer.RelayConnection | gateway/proxy/proxy.go:258-298 | The log line, what was moved both ways, and the route after the traffic seen |
| Gateway.ProxyServer.ServeConnection | gateway/proxy/proxy.go:209-298 | A refused connection changes no route; any other is routed |
| Gateway.ProxyServer.HandleConnection | gateway/proxy/proxy.go:164-299 | The whole effect of a connection on limiter, blacklist, route, backends shown, log and monitor |
| Gateway.ProxyServer.AcceptConnection | gateway/proxy/proxy.go:122-130 | A closed gate turns the socket away unseen and books a reject; an open one handles it, with all its effects |
| GatewayBooks.OpenGateFindsBackend | gateway/proxy/proxy.go:122-130 | Past an open gate no backend is found iff none is alive |
| GatewayBooks.RoutedIsRun | gateway/proxy/proxy.go:239-298 | Routing a connection is a run of the route whose connection goes where the strategy chose and whose traffic follows it |
| GatewayBooks.BookedOnce | gateway/monitor/monitor.go:97-149 | Every accepted socket is booked once: as a connection unless the gate was closed, as a reject unless relayed, with its bytes, never left active; the totals go on adding up |
| GatewayBooks.RefusalsAreLogged | gateway/proxy/proxy.go:215-237 | The log's reject count of an address grows by its filtered connections and, once the log is full, shrinks by the oldest line when that is one of its rejects |
| GatewayBooks.LogIsOfTheLatest | gateway/logger/logger.go:287-299 | After any accepted sockets the log holds exactly the lines of the latest ones, and its reject counts are the refusals among those |
| GatewayBooks.TopAttackersAreRefused | gateway/logger/logger.go:384-428 | The top attackers are the addresses refused most among exactly the latest sockets |
| GatewayBooks.LineTells | gateway/proxy/proxy.go:215-263 | Which sockets are logged, and every field of their line |
| GatewayBooks.QueriesCountSockets | gateway/logger/logger.go:302-346 | A frequency query of the log counts exactly those of the latest sockets that began at or after the cutoff: the logged ones, and the refused ones |
| GatewayRuns.StepSound | gateway/proxy/proxy.go:209-237 | Attempts and maintenance together keep limiter, blacklist and counters in step with their histories |
| GatewayRuns.AlwaysSound | gateway/proxy/proxy.go:209-237 | So does every interleaving |
| GatewayRuns.BannedNeverReachesLimiter | gateway/proxy/proxy.go:215-224 | While a ban on an IP, uid or pair lasts, every attempt it is meant for from an address not whitelisted is refused by the blacklist and changes nothing |
| GatewayRuns.AccountStep | gateway/proxy/proxy.go:215-236 | Each attempt that slips through shows up as accepted or as a counted reject |
| GatewayRuns.BurstGetsListed | gateway/proxy/proxy.go:226-236 | 2M + 2T - 3 attempts of one source within both windows get a source of that key listed (unless whitelisted) |
| GatewayRuns.BurstListsItsSource | gateway/proxy/proxy.go:226-236 | With colon-free addresses it is the burst's own source |
| GatewayRuns.BurstIsCutOff | gateway/proxy/proxy.go:209-237 | A source unknown at lo that makes so many attempts, left alone, gets its address banned (unless an operator bans its uid or pair meanwhile), and every later attempt that ban is meant for is refused without a trace |
| GatewayLaws.AttemptOutcome | gateway/proxy/proxy.go:209-237 | At any point of any run: passed iff whitelisted; else refused by a ban iff one meant for it is in force; else refused by the limiter iff the accepted requests say so; and exactly what each outcome leaves behind |
| GatewayLaws.WhitelistedAlwaysPasses | gateway/proxy/proxy.go:209-215 | Whitelisted and not restarted since, every attempt from the address passes and changes nothing, whatever bans and limits exist |
| GatewayLaws.RelayedIsCounted | gateway/proxy/proxy.go:254-298 | A relayed connection counts at the first backend with the chosen address one connection, a login per client chunk of twenty bytes, a refusal, acknowledgement or heartbeat per reply that starts with its bytes, and a broken stream if it broke; no other backend changes |
| GatewayLaws.FailedDialIsMarked | gateway/proxy/proxy.go:245-252 | A failed dial marks one backend dead, in route and monitor, and changes nothing else |
| GatewayLaws.NoBackendChangesNothing | gateway/proxy/proxy.go:239-243 | No backend is found only if none is usable, and nothing changes |
| GatewayLaws.RefusingBackendTurnsCritical | gateway/proxy/proxy.go:367-398 | A fresh backend that refuses at least half of five or more logins in one connection is Critical afterwards |
| GatewayLaws.RefusedLoginsCloseGate | gateway/proxy/proxy.go:136-161 | For one: five or more twenty-byte logins relayed to a single fresh backend, and as many replies 3 0 2 0, close the gate |
| Analyzer.LogAnalyzer.LogConnEntry | gateway/logger/logger.go:287-299 | Appends and keeps the newest entries up to the limit |
| Analyzer.LogKeepsTheLatest | gateway/logger/logger.go:287-299 | After any sequence of calls the log is exactly the last entries ever logged |
| Analyzer.LogAnalyzer.GetIPFreqAnalysis | gateway/logger/logger.go:302-346 | Both histograms count their entries exactly and sum to the totals; bytes are the sums over positive counts |
| Analyzer.CountsAppend | gateway/logger/logger.go:302-346 | Which entries a query counts, and what each adds to the totals |
| Analyzer.StateAppend | gateway/logger/logger.go:316-327 | And to the state histogram |
| Analyzer.ReasonAppend | gateway/logger/logger.go:316-337 | And to the reason histogram |
| Analyzer.CountRejects | gateway/logger/logger.go:392-397 | The map holds exactly the IPs with a reject, each with its number of rejects |
| Analyzer.ListAttackers | gateway/logger/logger.go:400-407 | The pairs of the map, each IP once, in any iteration order |
| Analyzer.SortByRejects | gateway/logger/logger.go:408-414 | The exchange loops sort in place and keep the multiset |
| Analyzer.LogAnalyzer.GetTopAttackers | gateway/logger/logger.go:384-428 | min(topN, distinct IPs) attackers, distinct, with true counts, worst first, none omitted that is worse |
| Analyzer.PrefixIsTop | gateway/logger/logger.go:416-428 | A prefix of the sorted list is the top of the log |
| Monitor.Monitor.RecordConn | gateway/monitor/monitor.go:97-111 | Counts globally and at the port, making the port known |
| Monitor.Monitor.RecordConnClose | gateway/monitor/monitor.go:114-134 | Books the close globally, and at the port if it is known |
| Monitor.Monitor.RecordReject | gateway/monitor/monitor.go:137-149 | Counts a reject globally and at the port |
| Monitor.Monitor.UpdateBackend | gateway/monitor/monitor.go:152-164 | Reports one backend's liveness and failures and changes nothing else |
| Monitor.Monitor.RecordBackendConn | gateway/monitor/monitor.go:167-178 | Counts one connection of a backend, making it known |
| BackendBooks.StepShown | gateway/proxy/proxy.go:588-673 | Every event of the route keeps the monitor's view of it |
| BackendBooks.LivenessIsShownIff | gateway/monitor/monitor.go:152-178 | In every run the monitor's connection count of a backend is the route's, and its liveness is right iff it was ever reported |
| BackendBooks.TickReports | gateway/proxy/proxy.go:640-671 | After a tick the monitor shows a backend as alive and checked now iff it was dialled and reached, and as before otherwise |
| Monitor.Monitor.Snapshot | gateway/monitor/monitor.go:269-279 | One more snapshot, the oldest dropped once the history is full |
| Monitor.Monitor.GetConnHistory | gateway/monitor/monitor.go:295-305 | The latest snapshots; a limit that is not positive or too large means all |
| MonitorSpec.ConservedIffNoStrayClose | gateway/monitor/monitor.go:97-149 | After any run of whole calls every global counter is the sum over the ports iff no close named an unseen port |
| MonitorSpec.AfterAdds | gateway/monitor/monitor.go:97-149 | A call other than a stray close adds the same globally and at its port, changes no other port and keeps the sums |
| MonitorThreads.AlwaysBalanced | gateway/monitor/monitor.go:97-149 | With each call split at its atomic additions and its lock, global equals ports plus what calls in flight owe, in every interleaving |
| MonitorThreads.TotalsAddUpWhenQuiescent | gateway/monitor/monitor.go:97-149 | Whenever no call is in flight the totals add up |
| MonitorThreads.ActiveIsLiveAndNonNegative | gateway/monitor/monitor.go:97-134 | At every moment the active counters count live connections and are not negative |

## Left out

- Sockets, dialling, goroutines, tickers and deadlines: reads, writes, probes and dial results are inputs, ticks are steps.
- The unlocked reads and writes of the health check: a tick is one step.
- The map from listen addresses to routes: one route is modelled, so the branches for an unknown listen address are not.
- JSON text, the file system and log rotation: the file is four sequences of entries with exact times, and writes succeed.
- Log-driven blocking (gateway/blacklist/blacklist.go:561-640): text and date parsing.
- Gateway.ProxyServer.HandleConnection: has one clock reading for the whole connection, relays the client's direction before the backend's, and lets no other connection in between; runs interleave the steps.
- Monitor.Monitor.RecordConnClose: does not keep the mean connection time, which is floating point and divides by connections opened, not closed.
- Monitor.Monitor.Snapshot: does not compute the per-second rates, which are floating point.
- Monitor.Monitor.RecordReject: the reason is not an argument, as the source does not use it.
- Status texts and the list getters of all components: they only copy.
- Analyzer.LogAnalyzer.GetIPFreqAnalysis: does not compute the per-second rates; the query by uid is the same loop and is not repeated.
- Analyzer.LogAnalyzer.GetTopAttackers: a negative count, which stops the source with a run-time error, is outside the parameter's type.
- Routing.RouteEntry.RecordProto: the five functions of the source are one method with a kind, as they differ in the counter and in whether they re-read the risk.
- Routing.RouteEntry.SelectBackend: the random strategy is any usable backend; nothing is said of its distribution.
- Changing a configuration while the gateway is running: runs have a fixed configuration.
- Fixed integer widths: counters and durations are unbounded integers.
- Rounding of the two risk ratios: they are compared by exact cross-multiplication.
- Blacklist.BlacklistManager.CheckBlacklisted: the source takes three read locks one after another; the model treats the lookup as one moment.
- Records behind map pointers are values replaced in the map; nothing else in the source holds on to them.
- The HTTP interface, dashboard, command line and configuration loading, and the C++ programs under `Agent/` and `DistributeServer/`.
