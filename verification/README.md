# Tool-call registry, evaluation runner and union examples: a verified model

This project models three parts of the repository and proves what they promise.

**The cross-replica tool-call registry** (`registry/`). Registry replicas share
Redis. Every transition is one atomic Lua script or one exact compare-and-swap,
so the registry is a state machine over a nondecreasing clock, the admission
catalog, the toolset request streams and, per tool-use identity, a decision
record, a result stream and three settlement index entries.

- `StreamIds` — Redis stream IDs as numbers and as the decimal strings the
  scripts compare. `PingIds` — the text that carries a ping's token and epoch.
- `Catalog`, `CatalogRuns`, `CatalogStore` — one catalog record per toolset: its
  transitions, all runs of them, and the retry loops that perform them while
  other replicas write. `CatalogEffects` — what each transition does to leases,
  routing and membership epochs. `ProtocolCatalog` carries the run theorems over to runs of
  the whole registry.
- `RequestStream` — consumer groups, the backlog bound and the trim after each
  append.
- `Records`, `CallProtocol` — what is stored per call, and every script as a
  function of the world. A run is any sequence of these operations by any
  replicas and providers, with clock ticks, key expiry and loss of result events
  anywhere in between.
- `CallInvariants`, `CallTheorems` — the inductive invariant and the theorems
  over all runs: at most one execution grant, truthful and frozen terminals, the
  generation fence, index agreement.
- `CallEffects` — what each script does to a call, stated on the stored fields:
  whose result is stored, what is appended, when a claim must be granted.
- `ReplayValidation` — which stored records a later caller's validation accepts.
- `Callers` — CallTool and RetryTool on any number of replicas: agreement.
  `CallerAnswers` — when they reach an answer, and which.
- `Settlement` — what one visit and one undisturbed sweep of lost claims do.
- `Sweeps` — a drain or a provider release as a process of single Redis operations
  among everything other replicas, providers and the clock may do. `SweepDebts` —
  what it achieves in every interleaving; `SweepFailures` — why it fails.
- `CallStore` — the scripts statement by statement on the Redis keys themselves,
  each one a step of `CallProtocol`.
- `SweepStore` — one replica's sweep loops on that store, with others acting
  between any two of its operations and any of them possibly cut short; each loop is
  a run of `Sweeps`.
- `ServiceLimits`, `ExampleRuns`, `ReplayExamples`, `SweepExamples` — runs from the
  empty registry on which a promise fails. They keep to what the service accepts:
  its ranges for leases, timeouts and retention, the wait before a republication,
  and requests that were handed out before they are claimed.

**The evaluation runner** (`eval/`): `Evaluation` (validity rules and the verdict
on one scenario) and `EvalRunner` (schedule, dispatcher, workers and cancellation
as a state machine over every interleaving).

**Union examples** (`codegen/agent/specs_builder_misc.go`): `UnionExamples`, the
mutually recursive rewriting of example values into tagged envelopes.

"Window" below is one retention window of a call: a stretch of a run in which the
call's record key does not expire. "Once" and "never" about a call hold per
window, as in the code.

Seven promises do not hold of the code in every case. Each has the condition under
which it does, exact except where said otherwise, and a run on which it fails:

- *Health means continuous membership* holds if and only if every registration
  since the pong's record was read committed while some lease it saw routable was
  still live (`CatalogRuns.HealthImpliesContinuousMembership`);
  `CatalogRuns.LateRenewalHidesAGap` is a run where it does not.
- *Every stored record replays* holds if and only if execution was claimed under
  the last published request (`ReplayValidation.ReplayAcceptsExactly`);
  `ReplayExamples.RepublishedCallCanFailReplay` reaches a record, republished after
  overload, that is refused.
- *A settlement drain leaves no overdue call.* Undisturbed, a drain leaves nothing
  due if and only if every call before the last batch is one the sweep finishes
  (`Settlement.DrainIsCompleteExactly`). Among others there is one direction only:
  what is overdue at the drain's last clock reading is what it did not reach, unread
  because its last batch was full or behind the key it failed on
  (`SweepDebts.DrainLeavesOnlyUnvisited`); whether any such call is left depends on what
  the others do. A drain fails only because somebody else took the membership of a
  call it had read, and that call owes nothing
  (`SweepFailures.DrainFailsOnlyThroughOthers`, `SweepFailures.FailedVisitOwesNothing`).
  `SweepExamples.TwoDrainsCollide` and `SweepExamples.DrainCanLeaveOverdueCall` are
  runs where calls are left.
- *Releasing a provider settles its calls.* In every interleaving without a new
  registration of the lease, a release that completes leaves none of its calls
  without a result, and one that fails leaves at most those behind the key it
  failed on (`SweepDebts.ReleaseLeavesNothingOwed`, `SweepDebts.DebtsStayAhead`). It fails
  on a stored call without membership: taken by somebody else meanwhile, or listed
  without it from the start, left by an expired window or by a settle script that
  ran under an outdated lease index (`SweepFailures.MissingMembershipHasCause`). On tidy
  runs, where nothing leaves such listings, it fails only through others
  (`SweepFailures.ReleaseFailsOnlyThroughOthers`). Undisturbed, it completes if and only if
  every call its index lists is absent or has membership
  (`SweepStore.Replica.ReleaseProvider`). `SweepExamples.ReleaseCanFail` is a run where
  it fails with nobody else at work.
- *The settlement indexes agree with the records* is kept by a step if and only
  if the step is not a cleanup that races with a new claim of the same identity
  (`CallInvariants.IndexesKeptExactlyWithoutRace`);
  `SweepExamples.CleanupRacesWithNewClaim` is such a run.
- *A call is listed under exactly its owner's lease* is kept by a step if and only
  if the step is tidy: no key expires while its claimed call is neither finished nor
  swept, no settle script runs under an outdated lease index, and no cleanup races
  (`CallTheorems.ListingKeptExactlyWhenTidy`). The run of
  `SweepExamples.ReleaseCanFail` breaks it.
- *A flattened union example is given its tag back* holds if and only if every branch
  value is neither null nor read as tagged, and no earlier branch accepts it
  (`UnionExamples.FlatteningIsUndone`); with branches `a` of keys {x} and `b` of keys {x, y}, the
  value {x: 1} of `b` comes back as `a` (`UnionExamples.EarlierBranchWins`).

## Model

| member | source | states |
|---|---|---|
| `StreamIds.NextId` | registry/call_admission.go:81 | an appended ID lies after every earlier one and carries the clock's millisecond unless the stream is ahead of it |
| `StreamIds.LexIsNumeric` | registry/call_decision.go:88-93 | on digit strings of equal length, byte order is numeric order |
| `StreamIds.DecimalOrderIsNumeric` | registry/call_decision.go:88-93 | length first, bytes second is numeric order on canonical decimals of any length, both directions |
| `StreamIds.ComponentAcceptsExactly64Bits` | registry/call_decision.go:63-75 | the component test accepts exactly the canonical decimals below 2^64 |
| `StreamIds.SplitIsTheOnlyReading` | registry/call_decision.go:80 | the pattern match finds the two digit groups exactly when the text has that shape |
| `StreamIds.CanonicalIsUnique` | registry/call_decision.go:63-75 | a canonical decimal is determined by its number |
| `StreamIds.TextOrderIsIdOrder` | registry/call_decision.go:94-101 | comparing two stream IDs as text is the lexicographic order of their numeric pairs, both directions |
| `StreamIds.FormatRoundTrips` | registry/call_decision.go:76-87 | the validator accepts a printed ID exactly when it is a nonzero 64-bit pair, and reads the same pair back |
| `PingIds.PingIdRoundTrips` | registry/health_tracker.go:487-513 | what the registry puts into a ping is the token and epoch it reads back from the pong |
| `PingIds.PingIdIsUnique` | registry/health_tracker.go:487-494 | one ping text carries one token, epoch and UUID, so a late pong is never read for another epoch |
| `PingIds.ParseIsTheOnlyReading` | registry/health_tracker.go:497-513 | a pong is read for a token and epoch exactly when its text has that shape, leading zeros included |
| `PingIds.CutIsTheOnlyReading` | registry/health_tracker.go:498-501 | cutting at the first slash finds the only reading without a slash in the first part |
| `Catalog.Prune` | registry/catalog.go:755-769 | exactly the expired leases go, the generation stays, and a pass that removes nothing changes nothing |
| `Catalog.PruneUnchanged` | registry/catalog.go:755-769 | when nothing had expired, every non-draining lease is still routable, so epoch and pong are untouched |
| `Catalog.StepKeepsValid` | registry/catalog.go:865-904 | every transition keeps the rules the parser enforces on a stored entry |
| `Catalog.StepKeepsTombstones` | registry/catalog.go:210-263 | tombstones only grow and a token leaves office only by becoming one |
| `Catalog.LeaseSurvivesStep` | registry/catalog.go:229-246 | an unexpired lease survives every action its holder did not take and keeps its generation in office |
| `Catalog.StepOrdersEpochs` | registry/catalog.go:213-219 | within a generation the epoch never goes back, and a new (token, epoch) starts without a pong |
| `Catalog.StalePongIsIgnored` | registry/catalog.go:581-585 | a pong for any identity but the current (token, epoch) changes nothing |
| `CatalogRuns.EveryRunStaysValid` | registry/catalog.go:822-905 | every entry any run reaches satisfies the parser's rules |
| `CatalogRuns.TombstonesAreFormerTokens` | registry/catalog.go:248-260 | on every run the tombstones are exactly the former tokens, plus the current one once retired |
| `CatalogRuns.GenerationsMoveForward` | registry/catalog.go:140-268 | between any two moments of a run tokens, tombstones and epochs only move forward |
| `CatalogRuns.TokensNeverRepeat` | registry/catalog.go:209-212 | a token that left office never returns |
| `CatalogRuns.OfficeOfTombstone` | registry/catalog.go:209-212 | a tombstoned token that is out of office stays out |
| `CatalogRuns.LeaseKeepsItsGeneration` | registry/catalog.go:229-260 | while a lease is unexpired and its holder has not touched it, no other token holds the record: two generations never have live leases at once |
| `CatalogRuns.IdentityNeverReturns` | registry/catalog.go:544-600 | a superseded (token, epoch) never becomes current again, so a ping for it can never make a later one healthy |
| `CatalogRuns.PongHasStory` | registry/catalog.go:544-600 | every recorded pong was written by an accepted pong of the current (token, epoch), and nothing disturbed it since |
| `CatalogRuns.HealthImpliesContinuousMembership` | registry/health_tracker.go:215-238 | health implies a pong of the current (token, epoch) within the threshold, whose identity was read before its own clock reading; some routable lease existed at every instant since that read if and only if every registration since committed promptly |
| `CatalogRuns.LateRenewalHidesAGap` | registry/catalog.go:213-219 | a run in which a renewal that read the clock early and committed late keeps health across an instant with no routable lease |
| `CatalogEffects.PruneEndsMembership` | registry/catalog.go:755-769 | exactly the expired leases go, and a membership epoch ends exactly when the last non-draining leases have gone |
| `CatalogEffects.RegisterRenews` | registry/catalog.go:213-227 | registering under the current generation gives the provider its fresh lease, not draining, beside the other live ones; the epoch stays exactly if a provider was routable |
| `CatalogEffects.RegisterReplaces` | registry/catalog.go:248-265 | a first registration, and one that finds no live lease of another generation, installs the new generation with this one lease and the old token among the tombstones |
| `CatalogEffects.RegisterIsRefused` | registry/catalog.go:209-246 | a tombstoned token, and another generation while a lease is live, changes nothing but expired leases |
| `CatalogEffects.DrainTakesOutOfRouting` | registry/catalog.go:313-323 | a drained live lease is draining and expires at the later of its old expiry and reading plus duration, no other lease changes, and losing the last routable lease starts an epoch without a pong |
| `CatalogEffects.DrainOfNothing` | registry/catalog.go:290-312 | a drain of another generation, or of an absent or expired lease, drains nothing |
| `CatalogEffects.DrainedStaysOut` | registry/catalog.go:270-332 | on every run a drained provider is not among the routable leases, at any reading, until its key registers again |
| `CatalogEffects.ReleaseTakesLeaseOut` | registry/catalog.go:361-381 | a release takes out exactly this lease and the expired ones; losing the last routable one starts an epoch |
| `CatalogEffects.RetireTombstones` | registry/catalog.go:416-421 | retiring makes the token a tombstone and leaves its leases |
| `CatalogEffects.OthersCannotRetire` | registry/catalog.go:353-355 | another generation retires and releases nothing |
| `CatalogEffects.PongIsRecorded` | registry/catalog.go:581-593 | a pong from a live non-draining lease of the current active generation and epoch is recorded, and the stored pong never goes back |
| `CatalogEffects.PongIsRefused` | registry/catalog.go:581-591 | a pong from an absent, draining or expired lease, or for a retired record, changes nothing |
| `ProtocolCatalog.ProtocolRefinesCatalog` | registry/catalog.go:140-429 | every run of the whole registry is, seen from one toolset's record, a catalog run |
| `ProtocolCatalog.LeaseKeepsItsGeneration` | registry/catalog.go:229-260 | on every protocol run, while a lease is unexpired and its holder has not touched it, no other token holds the record |
| `ProtocolCatalog.IdentityNeverReturns` | registry/catalog.go:544-600 | on every protocol run a superseded (token, epoch) never becomes current again |
| `ProtocolCatalog.HealthIsAttested` | registry/health_tracker.go:215-238 | on every protocol run a healthy record attests its pong and the membership since, with the exact condition |
| `CatalogStore.CountNonDraining` | registry/catalog.go:773-781 | the loop counts exactly the leases that are not draining |
| `CatalogStore.CountRoutable` | registry/catalog.go:784-792 | the loop counts exactly the unexpired non-draining leases; it is positive exactly when the entry is routable |
| `CatalogStore.PruneExpired` | registry/catalog.go:755-769 | deleting leases one by one is the pruning step, and the flag says whether any had expired |
| `CatalogStore.CatalogMap.TestAndSet` | registry/catalog.go:704-717 | a swap takes effect only on the exact value it was based on; a failed one spends a foreign write |
| `CatalogStore.CatalogMap.Register` | registry/catalog.go:140-268 | under arbitrary foreign writes, takes effect as one register step of the then-current entry, with the promised lease; it answers retired exactly on a tombstone and blocked exactly on a live lease of another generation |
| `CatalogStore.CatalogMap.Decide` | registry/catalog.go:179-260 | one round's edit is exactly the register transition of the entry read, or no change |
| `CatalogStore.CatalogMap.DrainProvider` | registry/catalog.go:272-332 | takes effect as one drain step of the then-current entry; if that entry holds the lease unexpired, the write leaves it draining with the later expiry and every other lease as it was |
| `CatalogStore.CatalogMap.DrainEdit` | registry/catalog.go:302-322 | one round's edit is exactly the drain transition of the entry read, whose effect `CatalogEffects.DrainTakesOutOfRouting` and `CatalogEffects.DrainOfNothing` state |
| `CatalogStore.CatalogMap.ReleaseProvider` | registry/catalog.go:336-389 | takes effect as one release step; afterwards the exact lease is gone if the generation is unchanged |
| `CatalogStore.CatalogMap.ReleaseEdit` | registry/catalog.go:361-379 | one round's edit is exactly the release transition; the lease is gone, and no change means nothing to write |
| `CatalogStore.CatalogMap.Retire` | registry/catalog.go:393-429 | takes effect as one retire step; it conflicts exactly when another token holds the record |
| `CatalogStore.CatalogMap.ReadPruned` | registry/catalog.go:550-580 | reads record and clock and swaps out expired leases; what it hands on is the pruned value of a record read no later than the clock |
| `CatalogStore.CatalogMap.CommitPong` | registry/catalog.go:581-599 | a pong is refused exactly if the entry does not accept it; otherwise it is committed, for an identity read no later than its clock reading, or somebody else wrote first |
| `CatalogStore.CatalogMap.RecordPong` | registry/catalog.go:544-600 | only pruning and pong steps are written; true means a pong accepted by the entry it replaced, and the stored pong never goes back; false means that the record, when read, did not accept it |
| `CatalogStore.CatalogMap.HealthEntry` | registry/catalog.go:604-636 | the entry returned was the stored record, is active and has nothing left to prune; it is what pruning leaves of a value read before the clock was; none is returned only if the record was absent or retired when read |
| `CatalogStore.CatalogMap.Health` | registry/health_tracker.go:215-238 | the answer is about a value the record held during the call; a healthy one, when all replicas run this catalog, attests the pong and continuous membership up to the moment this call read the record, with the exact condition, also when the call itself pruned |
| `RequestStream.CountUnread` | registry/bounded_publish.go:121-123 | the capped range read counts the unread entries up to the cap |
| `RequestStream.MeasureBacklog` | registry/bounded_publish.go:107-132 | the loop computes the largest capped backlog, which reaches the bound exactly when the exact backlog does |
| `RequestStream.FindTrimId` | registry/bounded_publish.go:145-166 | the loop finds where the unfinished work of the group furthest behind begins |
| `RequestStream.CappedCountIsExact` | registry/bounded_publish.go:121-131 | reading at most bound + 1 entries decides the same comparison as the exact count |
| `RequestStream.BacklogStaysBounded` | registry/bounded_publish.go:99-133 | on every run of calls, pings, deliveries and acknowledgements no group has more calls outstanding than the bound |
| `RequestStream.UnacknowledgedWorkIsNeverTrimmed` | registry/bounded_publish.go:133-169 | on every run an entry some group has not received or has pending stays until that group acknowledges it, whatever approximate trimming reclaims |
| `RequestStream.AppendedCallIsOpen` | registry/bounded_publish.go:133-169 | a fresh entry is unread by every group, so the trim of its own append spares it |
| `RequestStream.AppendTrimsExactly` | registry/bounded_publish.go:133-169 | an append removes exactly what Redis reclaims among the entries every group is past, and adds the new one |
| `RequestStream.StepKeepsInv` | registry/bounded_publish.go:133-169 | entries stay in ID order and every pending ID is still in the stream |
| `CallInvariants.StepKeepsInv` | registry/call_admission.go:67-453 | every script, catalog swap, expiry and loss keeps the invariant on records, payloads, digests and result streams |
| `CallInvariants.EveryRunKeepsInv` | registry/call_admission.go:67-453 | the invariant holds on every run |
| `CallInvariants.IndexesKeptExactlyWithoutRace` | registry/call_admission.go:368-453 | a step keeps the three settlement indexes in agreement with the records if and only if it is not a racing cleanup |
| `CallInvariants.IndexesAgreeOnEveryRun` | registry/call_admission.go:218-228 | on every race-free run each claimed unfinished retained call is due no later than its deadline, listed under its owner and named by membership; deadline index and membership have the same keys |
| `CallTheorems.EveryMoveIsListed` | registry/call_decision.go:306-402 | the complete list of ways one operation can change a record |
| `CallTheorems.GrantsAreConserved` | registry/call_admission.go:164-230 | within a window a record has an owner exactly as often as execution was granted |
| `CallTheorems.ExecutionGrantedAtMostOnce` | registry/call_admission.go:164-230 | execution is granted at most once per window, and not at all once claimed |
| `CallTheorems.OwnerNeverChanges` | registry/call_admission.go:200-228 | token, lease and request event of the owner never change, and the lease is of the token the request was published under |
| `CallTheorems.OldRequestsNeverClaimAgain` | registry/call_admission.go:186-188 | after expiry and re-admission no request event of the old record can claim, or be decided against, the new one |
| `CallTheorems.CauseFitsTheClock` | registry/call_admission.go:389-436 | provider, stale-admission and lease-lost terminals are committed strictly before the deadline, the two others at or after it |
| `CallTheorems.TerminalWasCommittedOnTime` | registry/call_admission.go:116-162 | every terminal on a run was committed by one operation, on the side of the deadline its cause tells |
| `CallTheorems.TerminalNeverChanges` | registry/call_admission.go:116-162 | payload, digest and cause never change once committed |
| `CallTheorems.TerminalCausesTellTheTruth` | registry/call_admission.go:194-217 | a rejection or stale-admission terminal means execution was never granted and never will be in that window; any other terminal means it was granted exactly once |
| `CallTheorems.DenialNeverChanges` | registry/call_decision.go:365-402 | a rejection or stale-admission terminal stays one |
| `CallTheorems.OnlyRestoreAppendsAfterTerminal` | registry/call_admission.go:257-276 | after a terminal nothing but restoration appends to the result stream |
| `CallTheorems.RestoreReestablishesTerminal` | registry/call_admission.go:345-367 | whatever events were lost, restoring makes the committed payload the newest event, under the ID the record names |
| `CallTheorems.DeltasAreBounded` | registry/call_admission.go:269-276 | output fragments are counted exactly and never exceed the limit |
| `CallTheorems.RetiredGenerationNeverPublishes` | registry/bounded_publish.go:79-97 | once a token is retired or replaced no call bound to it is ever published or republished |
| `CallTheorems.ReplacedGenerationNeverServes` | registry/call_admission.go:165-178 | once a token is replaced no call bound to it is granted execution or given a provider result |
| `CallTheorems.ProviderResultNeedsService` | registry/call_admission.go:111-158 | a provider terminal is committed only by an authorized completion under the record's token |
| `CallTheorems.CallsAreListedExactly` | registry/call_admission.go:218-228 | on every tidy run, through any number of windows, each call is listed under exactly its owner's lease while in flight and retained, and under none once finished |
| `CallTheorems.ListingKeptExactlyWhenTidy` | registry/call_admission.go:368-453 | a step keeps all listings exact if and only if it is no expiry of an unfinished unswept call, no settle script under an outdated lease index and no racing cleanup |
| `CallTheorems.WindowStartsCleanExactly` | registry/call_admission.go:219-228 | what expiry does to listings: none are left when the call was finished or swept, and one is otherwise |
| `CallTheorems.ProtocolRefinesStream` | registry/bounded_publish.go:99-180 | the protocol drives each request stream only through the stream's own operations |
| `CallTheorems.UnacknowledgedRequestsSurvive` | registry/bounded_publish.go:133-169 | on every run of the whole protocol an unacknowledged request is still in its stream |
| `CallTheorems.ProtocolBacklogStaysBounded` | registry/bounded_publish.go:99-133 | on every run of the whole protocol no consumer group of any toolset exceeds the queue bound |
| `CallEffects.InitMarksStream` | registry/call_admission.go:67-84 | the initialization event becomes the newest, and the record stays |
| `CallEffects.EnsureCreates` | registry/call_decision.go:307-340 | a missing call is admitted under this token, with its times counted from now, unpublished and undecided |
| `CallEffects.EnsureMovesUnpublished` | registry/call_decision.go:341-364 | an unpublished unfinished call moves to the new token and keeps its times; every other record stays, and the answer says which it is |
| `CallEffects.RejectStoresDecision` | registry/call_decision.go:365-402 | a missing or unpublished call becomes this rejection, retained from now; any other record stays and the answer says what it is |
| `CallEffects.PublishAppends` | registry/bounded_publish.go:56-180 | an assignment that waits for publication, before its deadline, with a routable provider and room, is appended under a later ID, marked published and opened to claims under that ID |
| `CallEffects.PublishLeaves` | registry/bounded_publish.go:56-132 | otherwise stream and record stay, and the answer is the true reason |
| `CallEffects.ClaimGrants` | registry/call_admission.go:165-229 | the current generation's first claim before the deadline is granted, and the call is indexed under its owner at the earlier of deadline and lease expiry |
| `CallEffects.ClaimRejectsOldGeneration` | registry/call_admission.go:203-217 | a claim of a call of an older generation stores the stale-admission result instead |
| `CallEffects.ClaimIsFinal` | registry/call_admission.go:194-203 | any later claim is told the call is finished, owned or too late, and changes nothing |
| `CallEffects.CompleteStoresResult` | registry/call_admission.go:149-162 | before the deadline the submitted result is stored with its digest, is the newest event, and the call leaves the indexes |
| `CallEffects.CompleteTooLate` | registry/call_admission.go:129-148 | from the deadline on the retained outcome_unknown result is stored instead, whatever was submitted |
| `CallEffects.CompleteAgain` | registry/call_admission.go:116-124 | on a finished call the same result is replayed, another conflicts, a deadline stays won, and nothing changes |
| `CallEffects.CommittedIsReplayed` | registry/call_admission.go:85-163 | right after a result was committed, sending it again replays and sending any other conflicts |
| `CallEffects.CompleteNeedsDispatch` | registry/call_admission.go:86-113 | without a live lease of the generation or without the dispatch nothing is stored |
| `CallEffects.ResultIsSubmitted` | registry/call_admission.go:149-158 | one step can make a provider result only of what a completing provider submitted in it |
| `CallEffects.ResultWasSubmitted` | registry/call_admission.go:149-158 | on every run a stored provider result is the payload of a completion of that run |
| `CallEffects.LiveEventIsAppended` | registry/call_admission.go:232-276 | the owner's fragment becomes the newest event as it is, and is counted |
| `CallEffects.LiveEventIsDropped` | registry/call_admission.go:250-272 | a fragment of anybody else, a late one and one above the limit leaves no trace |
| `CallEffects.OverloadIsReported` | registry/call_admission.go:312-343 | a first report before dispatch appends retry control and notes it for the request |
| `CallEffects.OverloadRejectsOldGeneration` | registry/call_admission.go:319-334 | a report about a call of an older generation stores the stale-admission result instead |
| `CallEffects.OverloadIsReportedOnce` | registry/call_admission.go:303-318 | a second report of one request, and one after deadline, dispatch or result, changes nothing |
| `CallEffects.SettlePostpones` | registry/call_admission.go:395-411 | while its owner's lease lives and before its deadline a claimed call only gets the earlier of deadline and renewed lease expiry |
| `CallEffects.SettleStoresUnknown` | registry/call_admission.go:395-440 | otherwise, while retained, it gets the outcome_unknown result, as lease lost before the deadline and under the sweep's cause after it |
| `CallEffects.SettleDropsOthers` | registry/call_admission.go:369-388 | a missing, finished or unclaimed call only leaves the indexes |
| `CallEffects.CleanupDropsEntries` | registry/call_admission.go:442-453 | no record or result changes; the entries go under membership's index or the fallback |
| `CallEffects.RestoreAppendsResult` | registry/call_admission.go:345-367 | the stored result becomes the newest event again, under a new ID that the record notes |
| `ReplayValidation.ReplayAcceptsExactly` | registry/call_decision.go:102-243 | validation accepts a reachable retained record if and only if it was claimed under the last published request |
| `ReplayValidation.ReplayAcceptsEveryRun` | registry/call_decision.go:586-774 | on every run without overload republication attaching finds the record, with the payload, identity and digest checks passing |
| `ReplayExamples.RepublishedCallCanFailReplay` | registry/call_decision.go:234-241 | a run within the service's limits from the empty registry to a retained record that attaching refuses |
| `Callers.EveryAnswerIsTrue` | registry/service.go:668-713 | in every interleaving, whatever a caller answered is what the record says; that and when it answers is `CallerAnswers` |
| `Callers.AllAnswersAgree` | registry/service.go:409-439 | all answers about one identity in a window are equal: one token, deadline and expiry, or one stored rejection |
| `Callers.AttachTellsTruth` | registry/call_decision.go:244-289 | what attaching reports is true of the record |
| `Callers.PublisherAnswersWithHeldTerms` | registry/service.go:815-860 | a successful publisher's answer is the record's exactly when the times it holds are the record's |
| `CallerAnswers.DecidedCallIsReplayed` | registry/service.go:428-431 | whoever reads a published or finished record holds that record's terms for replay |
| `CallerAnswers.DecidedCallIsAnswered` | registry/service.go:422-431 | from the start a retained decided record is answered with its token, deadline and expiry, on the caller's own moves |
| `CallerAnswers.RejectedCallIsAnswered` | registry/service.go:434-436 | a retained stored rejection is answered as it is stored |
| `CallerAnswers.OtherRequestFails` | registry/service.go:434-436 | another request under the identity fails |
| `CallerAnswers.UndecidedCallIsRouted` | registry/service.go:432-438 | a missing call, and one neither published nor finished, is routed |
| `CallerAnswers.LostPublicationIsRoutedAgain` | registry/service.go:698-701 | an initial publication that lost its assignment, its time or its provider writes nothing and is routed again |
| `CallerAnswers.EnsuringExistingReads` | registry/service.go:691-697 | ensuring a call somebody else decided leads to reading that decision; another request fails |
| `CallerAnswers.EnsuringMeetsDecision` | registry/service.go:695-698 | a decision met this way is replayed if published or finished, and published otherwise |
| `CallerAnswers.FreshCallIsAdmitted` | registry/service.go:673-712 | a fresh call with a routable provider and room in its stream is admitted, published and answered with the terms stored for it |
| `CallerAnswers.UnroutableCallIsRefused` | registry/service.go:979-998 | a missing or unpublished call that cannot be routed is answered with this refusal, and the refusal is stored |
| `CallerAnswers.PublicationBeatsRefusal` | registry/service.go:999-1001 | if the call was decided first, the refusal gives way to the stored terms |
| `CallerAnswers.RetryFollowsRecord` | registry/service.go:472-500 | a retry under the stored token replays a finished call, and publishes again one reported overloaded |
| `CallerAnswers.RetryResolvesTerminal` | registry/service.go:503-521 | a retry whose routing fails still answers a finished call with its stored terms |
| `Settlement.SweepIsLocal` | registry/call_admission.go:739-759 | a sweep visits each listed call once, in the state it had before, and touches nothing else |
| `Settlement.VisitedIsNotDue` | registry/call_admission.go:369-453 | a visited call is finished, dropped or given a later deadline |
| `Settlement.BatchShrinksDue` | registry/call_admission.go:723-758 | a batch leaves exactly the other due calls, at their scores; the due set shrinks by the size of the batch |
| `Settlement.DrainedMeansNothingOverdue` | registry/call_admission.go:389-440 | with nothing due, no claimed retained call is past its deadline without a result |
| `Settlement.DrainIsCompleteExactly` | registry/call_settlement.go:83-106 | with nobody else writing, a drain leaves nothing due if and only if every call before the last batch is one the sweep finishes |
| `Settlement.FinishedElsewhereBlocksRelease` | registry/call_admission.go:805-812 | whenever a lease index lists a call and another lease claims and finishes it, the call is one a visit of that index fails on |
| `SweepDebts.DebtsStayAhead` | registry/call_admission.go:739-785 | in every interleaving, at every moment: a claimed retained call without a result that the sweep is there for lies ahead of it or was never read |
| `SweepDebts.DebtsOnlyShrink` | registry/call_admission.go:164-230 | whatever anybody does, no call becomes overdue at a past reading or claimed by a released lease |
| `SweepDebts.ScriptSettlesDebt` | registry/call_admission.go:389-440 | the settle script finishes such a call under whichever lease index it was given |
| `SweepDebts.ReleaseLeavesNothingOwed` | registry/service.go:278-296 | in every interleaving in which the lease is not registered again, a release that succeeds leaves none of its retained calls without a result |
| `SweepDebts.DrainLeavesOnlyUnvisited` | registry/call_settlement.go:83-106 | in every interleaving, what is overdue at the drain's last clock reading is unread because the batch was full or behind the key it failed on; a drain ending on a short batch leaves none |
| `SweepFailures.FailedVisitOwesNothing` | registry/call_admission.go:805-812 | a visit that finds no membership leaves nothing owed: the call has its result, was never claimed, or is gone or past retention |
| `SweepFailures.MissingMembershipHasCause` | registry/call_admission.go:739-785 | a call ahead of the sweep lacks membership only if somebody else took it meanwhile, or a release read it listed without |
| `SweepFailures.DrainFailsOnlyThroughOthers` | registry/call_settlement.go:89-101 | a drain fails only because somebody else took the membership of a call it had read |
| `SweepFailures.ReleaseFailsOnlyThroughOthers` | registry/call_admission.go:762-787 | on tidy runs a release fails only because somebody else took the membership of a call it had read |
| `SweepFailures.ListedIsVisitable` | registry/call_admission.go:219-228 | with exact listings, whatever a lease index lists has its membership |
| `Sweeps.SweepIsProtocolRun` | registry/call_admission.go:723-787 | a sweep writes only through protocol operations, so every theorem about runs holds of it |
| `SweepExamples.TwoDrainsCollide` | registry/call_settlement.go:1-6 | within the service's limits, two replicas drain at once: one settles a call, the other fails on it with another call still overdue, though each alone would settle both |
| `SweepExamples.CleanupRacesWithNewClaim` | registry/call_admission.go:836-848 | a run within the service's limits in which a cleanup takes a new claim of the same identity out of the indexes |
| `SweepExamples.ReleaseCanFail` | registry/call_admission.go:762-787 | a run within the service's limits after which releasing a lease fails with nobody else at work, on a call listed since an earlier window |
| `SweepExamples.DrainCanLeaveOverdueCall` | registry/call_settlement.go:102-105 | for every batch size below the queue bound, the tracker's 128 among them, a run within the service's limits after which a drain stops before an overdue call |
| `CallStore.Store.Ensure` | registry/call_decision.go:306-364 | the script is the protocol's Ensure step and gives its reply |
| `CallStore.Store.Reject` | registry/call_decision.go:365-402 | the script is the protocol's Reject step and gives its reply |
| `CallStore.Store.CheckPublication` | registry/bounded_publish.go:56-98 | the tests before the append answer exactly as the protocol, and otherwise leave only the queue bound to decide |
| `CallStore.Store.AppendRequest` | registry/bounded_publish.go:99-169 | refuses exactly when full; otherwise appends under the next ID and trims as the stream model says |
| `CallStore.Store.PublishAdmitted` | registry/bounded_publish.go:56-180 | the script is the protocol's Publish step and gives its reply |
| `CallStore.Store.PublishPing` | registry/bounded_publish.go:186-224 | a ping is appended without a bound |
| `CallStore.Store.InitializeResultStream` | registry/call_admission.go:67-84 | one initialization event, exactly while the call is retained, unfinished and without output |
| `CallStore.Store.RestoreTerminal` | registry/call_admission.go:345-367 | restores exactly when the recorded event of a retained terminal is missing |
| `CallStore.Store.CheckClaim` | registry/call_admission.go:165-203 | the claim's tests give the protocol's reply; execute exactly on a live, unclaimed call of the provider's own generation |
| `CallStore.Store.Claim` | registry/call_admission.go:164-230 | the script is the protocol's Claim step and gives its reply |
| `CallStore.Store.CheckCompletion` | registry/call_admission.go:86-129 | the completion's tests give the protocol's reply and say when a result is committed |
| `CallStore.Store.Complete` | registry/call_admission.go:85-163 | the script is the protocol's Complete step and gives its reply; when it commits in time, the stored record and the newest stored event hold the submitted payload |
| `CallStore.Store.CheckLive` | registry/call_admission.go:232-272 | an output fragment is delivered exactly to the owner of a retained unfinished call before its deadline and under the limit |
| `CallStore.Store.PublishLiveEvent` | registry/call_admission.go:231-277 | the script is the protocol's live-event step and gives its reply |
| `CallStore.Store.CheckOverload` | registry/call_admission.go:279-318 | retry control is possible exactly before dispatch, once per request |
| `CallStore.Store.ReportOverload` | registry/call_admission.go:278-344 | the script is the protocol's overload step and gives its reply |
| `CallStore.Store.CheckSettlement` | registry/call_admission.go:369-425 | decides exactly between dropping entries, a later deadline and a result, and whether the deadline has passed |
| `CallStore.Store.SettleClaim` | registry/call_admission.go:368-441 | the script is the protocol's Settle step and returns the number of results committed |
| `CallStore.Store.CleanupMember` | registry/call_admission.go:442-453 | drops all index entries of a missing call, under the membership's lease index or the fallback |
| `CallStore.Store.ReadDue` | registry/call_admission.go:728-735 | the calls due by a reading, each once, earliest first |
| `CallStore.Store.ReadLeaseIndex` | registry/call_admission.go:766-770 | exactly the calls the lease index lists, each once |
| `CallStore.Store.Perform` | registry/call_admission.go:67-453 | any operation of the protocol, performed on the stored keys, is its step |
| `SweepStore.Replica.VisitCall` | registry/call_admission.go:740-756 | identity read, membership read and script, with others acting in between and any of them possibly cut short: a run of the sweep process; undisturbed, one visit |
| `SweepStore.Replica.SettleMember` | registry/call_admission.go:805-832 | the membership read and the settle script; undisturbed, it settles under the index membership names and fails exactly without one |
| `SweepStore.Replica.VisitAll` | registry/call_admission.go:739-758 | the loop ends its round, fails or is cut short as the interleaving has it; undisturbed, it fails exactly on a stored call without membership and is the plain sweep |
| `SweepStore.Replica.SettleLostClaims` | registry/call_admission.go:723-758 | one batch among others: ends the drain, asks for another or fails as the sweep process does; undisturbed, it sweeps the earliest due calls and counts the results |
| `SweepStore.Replica.Settle` | registry/call_settlement.go:83-106 | the loop terminates once the others stop, and ends as its interleaving does, cancellation included; at every end what is overdue at its last reading lies ahead of it or was unread; undisturbed, nothing is left due exactly under the drain condition |
| `SweepStore.Replica.SettleLostClaimsForLease` | registry/call_admission.go:762-787 | the release's sweep among others; undisturbed, it succeeds exactly when every listed call can be visited |
| `SweepStore.Replica.ReleaseInCatalog` | registry/catalog.go:336-389 | the retry loop on the shared catalog ends with the lease taken out or found gone, and stops once the others do |
| `SweepStore.Replica.ReadForRelease` | registry/catalog.go:342-361 | record and clock reads with others in between; nothing to change means the lease was found gone |
| `SweepStore.Replica.CommitRelease` | registry/catalog.go:361-387 | swaps the release in only on the very record it was based on; otherwise somebody else has written |
| `SweepStore.Replica.ReleaseProvider` | registry/service.go:278-296 | whatever the others do short of registering the lease again, completion means no retained call claimed by that lease is without a result; undisturbed, it completes exactly when every listed call is absent or has membership |
| `CallStore.ByScore` | registry/call_admission.go:728-735 | the keys of the index from the least score up, each once |
| `Evaluation.CollectClaims` | eval/eval.go:172-181 | accepts exactly nonempty, distinct claims and collects their IDs |
| `Evaluation.CountingMatches` | eval/eval.go:182-201 | as many distinct judgments as claims, all about claims, leave no claim without its one judgment |
| `Evaluation.MatchingCounts` | eval/eval.go:182-201 | conversely a one-to-one answer has as many judgments as claims, distinct and all about claims |
| `Evaluation.ValidateJudgments` | eval/eval.go:171-202 | accepts an answer exactly when it is one well-formed judgment per claim |
| `Evaluation.ValidateChecks` | eval/eval.go:209-224 | accepts exactly distinct named checks with a diagnostic when and only when they failed |
| `Evaluation.ValidateArtifacts` | eval/eval.go:235-244 | accepts exactly distinct named artifacts with a location |
| `Evaluation.ValidateResult` | eval/eval.go:205-246 | accepts exactly the valid hook results |
| `Evaluation.JudgeClaims` | eval/runner.go:343-370 | without output every claim is labelled not addressed, in claim order; otherwise the judge's answer is returned exactly if it came in time with one well-formed judgment per claim |
| `Evaluation.RunScenario` | eval/runner.go:285-336 | a scenario passes exactly when its checks and claims hold, has an error exactly when the hook did not run or its claims were not judged, and reports the hook's result and the judgments its claims got, passed or not |
| `Evaluation.PassedHasEvidence` | eval/runner.go:315-335 | a passed scenario reports a valid result and one entailed judgment per claim |
| `EvalRunner.ScenarioSchedule` | eval/runner.go:375-387 | a permutation: declaration order when serial, otherwise longest timeout first and stable |
| `EvalRunner.ScheduleIsDetermined` | eval/runner.go:383-385 | the stable order is determined by the timeouts alone |
| `EvalRunner.StepKeepsInv` | eval/runner.go:216-237 | every goroutine action and cancellation at any moment keeps each scenario undispatched, in one hand, or reported once |
| `EvalRunner.EveryScenarioReportedOnce` | eval/runner.go:391-402 | when the run returns each slot was written exactly once, with the report ScenarioFinished was given: what running its hook produced, or a cancellation if the hook never started |
| `EvalRunner.FinishedReportIsShown` | eval/runner.go:391-402 | in every interleaving the report a hook's run ended with is the one in the suite's report |
| `EvalRunner.NeverReportedTwice` | eval/runner.go:225-237 | at no moment has a slot been written twice or a scenario reported or started twice |
| `EvalRunner.ConcurrencyIsBounded` | eval/runner.go:219-224 | at every moment at most maxConcurrency hooks are in flight |
| `EvalRunner.NeverStuck` | eval/runner.go:225-237 | while the run has not returned some goroutine can move |
| `EvalRunner.EveryRunEnds` | eval/runner.go:225-237 | every run has at most 6n + 4 steps and cannot stop before it returns |
| `EvalRunner.SuiteVerdict` | eval/runner.go:240-243 | the suite passes exactly when every scenario passed |
| `EvalRunner.PassedSuiteHasEvidence` | eval/runner.go:239-249 | reports are in declaration order, and a passed suite carries one entailed judgment for every claim of every scenario |
| `UnionExamples.Find` | codegen/agent/specs_builder_misc.go:925-934 | the first variant of that name, if any |
| `UnionExamples.ChildIsFirstField` | codegen/agent/specs_builder_misc.go:893-914 | an object key is the first field of that design name or, if it is no field's design name, the first of that model-facing name |
| `UnionExamples.PickByKeys` | codegen/agent/specs_builder_misc.go:956-965 | the first variant all of the value's keys belong to, and none exactly if there is none |
| `UnionExamples.PickByType` | codegen/agent/specs_builder_misc.go:967-979 | the first variant the value is compatible with, and none exactly if there is none |
| `UnionExamples.Pick` | codegen/agent/specs_builder_misc.go:952-982 | the first variant by keys or, if no variant has the keys, the first by compatibility; none exactly if neither exists |
| `UnionExamples.UnwrappingKeepsAnswers` | codegen/agent/specs_builder_misc.go:1006-1021 | a user type is rewritten as what it stands for |
| `UnionExamples.FlattenedTakesFirstChoice` | codegen/agent/specs_builder_misc.go:868-886 | a flattened value is tagged with its first choice, around what that variant makes of it |
| `UnionExamples.UnmatchedHasNoAnswer` | codegen/agent/specs_builder_misc.go:872-878 | a flattened value without a fitting variant has no answer |
| `UnionExamples.TaggedKeepsItsVariant` | codegen/agent/specs_builder_misc.go:916-950 | a tagged value keeps its variant, and strict mode tries no other |
| `UnionExamples.FlatteningIsUndone` | codegen/agent/specs_builder_misc.go:787-798 | what the rewriting is for: it gives back the tagged value that a flattened example was made from if and only if every branch value is neither null nor read as tagged and is its branch's first choice |
| `UnionExamples.EarlierBranchWins` | codegen/agent/specs_builder_misc.go:956-965 | with object branches of keys {x} and {x, y}, a value {x: 1} of the second is given the tag of the first |
| `UnionExamples.CanonIsCanonical` | codegen/agent/specs_builder_misc.go:807-891 | whatever the rewriting returns has a tagged envelope at every union node, at every depth |
| `UnionExamples.CanonicalIsFixed` | codegen/agent/specs_builder_misc.go:916-950 | a canonical value is returned unchanged, in either mode |
| `UnionExamples.CanonicalExactlyFixed` | codegen/agent/specs_builder_misc.go:807-950 | the canonical values are exactly the fixed points |
| `UnionExamples.CanonIsIdempotent` | codegen/agent/specs_builder_misc.go:807-950 | rewriting twice, in whichever modes, is rewriting once |
| `UnionExamples.CanonOnlyWraps` | codegen/agent/specs_builder_misc.go:787-798 | only envelopes at union nodes are added; everything else is preserved |
| `UnionExamples.StrictAnswersAgree` | codegen/agent/specs_builder_misc.go:800-805 | where the strict mode answers, the lenient mode gives the same answer |

## Left out

- Redis, Pulse, the replicated map, gRPC, telemetry and context plumbing: Redis
  TIME is a nondecreasing clock in milliseconds, each script one atomic step.
- JSON encoding, SHA-1 and SHA-256, JSON Schema: payloads are decoded values, and
  digests, tokens and call keys are injective, that is, collision free.
- The constants of `runtime/toolregistry` are used by value; execution timeout and
  retention are any 0 < timeout < retention.
- Expiry: a key may vanish at any moment from its expiry on, not exactly at it. A
  record and its result stream vanish together, and a result stream's IDs go on
  increasing across windows.
- A caller's snapshot and the record it publishes to are from the same window;
  `Callers.PublisherAnswersWithHeldTerms` says what depends on it. Health waiting,
  timers and give-up are choices of the environment.
- Times above 2^53 and IDs above 64 bits are outside `ReplayValidation`'s scope; the
  scripts' ID comparison in the trim loop converts to floating point, which is
  exact below 2^53. The health epoch does not wrap at 2^64.
- Scores of the lease indexes are not modelled; nothing reads them.
- Version-7 record migration; what makes a text a UUID.
- Ping scheduling, map revisions and observed-health logging.
- Listing, searching and tag matching of toolsets; schema and request validation,
  which enter as the choice between a healthy and an unavailable route.
- Published calls nobody claims are not settled by the code; nothing is claimed
  about them. Fairness of replicas is not assumed.
- SweepStore.Replica.ReleaseProvider: the toolset named in the request is the token's
  own; under any other name the catalog has no such lease.
- RequestStream.BacklogStaysBounded: consumer groups are created at the stream's
  end. A group created at an older ID starts with everything after it unread, which
  may exceed the bound.
- Catalog.StepKeepsValid: the parser's rules on the composite lease key, on
  registered_at and on the recomputed schema fingerprint and token are outside the
  model; token derivation is injective.
- CatalogRuns.EveryRunStaysValid: likewise.
- Evaluation.RunScenario: times, durations and error texts; hooks return.
- Scenario and tag selection and judge calibration, which are simple filters.
- UnionExamples.CanonIsCanonical: assumes distinct nonempty variant names and
  distinct envelope keys at each union. Base and reference types of an attribute are
  not searched for fields; the compatibility test of the type library is a parameter.
- UnionExamples.CanonOnlyWraps: on values. The code writes into the maps and slices
  it is given; in lenient mode, after a tagged value failed inside, the untagged
  attempt sees what the first attempt already rewrote.
- The rest of the repository: the DSL, the other generators, runtime and tests.
