# Verified models of the vault core

This project models the stateful and algorithmic core of the encrypted vault in Dafny and proves
what that core promises. `dafny verify dfyconfig.toml` checks everything.

- **Authentication limiter.** `AuthLimit` has the limiter class and the pure step functions its
  methods are proved against; `AuthLadder` is an independent account of a key by the log of its
  failures; `AuthRuns` lets any number of attempts interleave, key by key, and proves the claims
  about whole runs; `AuthBursts` builds the runs that break the rate bound where the policy does not
  keep it.
- **Garbage collection.** `Gc` has one device's confirm run as imperative phases over a store whose
  writes may fail at any point; `GcRuns` has several devices, cut-off runs, and outside changes to
  index, chunks and intents; `GcDevices` decides which chunks a restored intent exposes and which
  some device can collect.
- **Manifests, index, Compact.** `Manifests` has clocks, the order of manifest copies and the
  reconciliation of one path; `Election` decides when the winner is independent of load order;
  `Losers` says from the records alone who wins and what becomes of the rest; `Loading` is the load of a whole store; `Cache` says what it is for a cached index to be fresh,
  and `Coherence` decides it path by path from the copies on disk; `FileOps` has the operations of a
  Compact and what is left where some fail; `Compaction` has the open vault as a class (load, commits, tombstones, whole-index saves, generations, Compact); `Sessions`
  decides for any sequence of these when the cache stays fresh; `Settlement` proves what a completed
  Compact leaves; `Commits` shows when a commit overwrites an unreconciled edit or loses its
  election; `Clones` has the deep copies that keep callers' records apart from the cache, over a
  heap; `Clocks` has the clock arithmetic and its meaning over forked histories of writes by several
  devices.
- **Chunker.** `Gear` is the 64-bit hash arithmetic, `Chunker` the streaming loop, the fold it
  refines and the windowed rule that fixes every cut.
- **Configuration integrity.** `ConfigAnchor` has one device's opens, ratchet, rewrites and anchor.
- **Export names.** `Portable` has the name policy and sanitiser, `Export` the choice of targets,
  and `Nesting` decides when one target is in the way of another.
- **WebDAV COPY and MOVE.** `DavTree`, after sections 9.8 and 9.9 of RFC 4918; `DavTransfers`
  decides when a transfer keeps its source and when its destination is what the source was.
- **Opening a store.** `Layout` has the content workspace, the move of older records, and the signs
  of a wiped index that opening must not hide; `Wiped` decides when a load is empty and refused.

Times are integers. A write or remove is one step that goes through or fails; where the order of
steps matters, the model may stop between any two of them.

Some statements turn out false of the code as documented. Each has a lemma with a witness, and
where the boundary is sharp a lemma that says exactly when the code does meet it:

- The order independence stated at `internal/vault/manifest.go:302-337` fails for a path with both
  clocked and clockless copies, which can beat each other in a circle (`MixedFamilyDependsOnOrder`);
  it holds if and only if one record beats every other (`OrderFreeExactly`). Among identical copies
  of the winner the choice of the one kept still follows the load order.
- `internal/vault/compact.go:84-85` says the next Compact retries a removal that failed. It does so
  if and only if the conflict copy has gone again: while the conflict path has manifests the loser
  is deferred to it, and when it has none the loser is planned anew (`FailedRemovalIsNotRetried`).
  That is stated for the disk the rest of that Compact leaves (`RestOfCompactLeavesRemnant`) and
  every other where its path has the same copies, or some of them and the same holder.
- Committing to a path with unreconciled copies breaks the cache invariant of
  `internal/vault/cache.go:26-31` in two ways. It overwrites a losing edit that still sits in the
  canonical file (`CommitCanLoseAnEdit`, `CommitKeepsEditsExactly`), so that the cache shows a
  conflict copy that is gone (`StaleAfterOverwrite`); or it loses none, but the new record loses the
  election to a copy the cache then no longer shows (`CommitCanLoseItsElection`). The cache stays
  fresh if and only if some order of that path's copies alone gives what it shows there
  (`CommitFreshExactly`): where they have a winner, if and only if the new record holds the slot, or
  is a tombstone and one wins, and the kept conflict contents are those shown
  (`CommitFreshByWinner`). Over a whole session of commits, tombstones, saves, Compacts and reloads
  it does if and only if every step meets its condition (`SessionExactly`).
- `internal/vault/cache.go:135-140` says a plain edit does not claim to dominate unmerged forks.
  That holds of a peer's forks as long as the peer's clock has not stepped back before them
  (`UnmergedPeerEditSurvives`, `SteppedClockForgesDominance`), but not of the device's own
  (`OwnForkIsDropped`).
- A write over a base whose foreign entry ages out in it does not dominate that base
  (`NextDominatesBaseExactly`).
- Generations above all observed (`internal/vault/cache.go:102-107`) hold until something is written
  that was not observed: a directory marker, the tombstone of a record moved by an upgrade, an entry
  of a saved index. None of these raises the mark, and the next generation is above them if and only
  if the clock has moved on or the mark was no lower (`MarkerThenNext`, `TombstoneThenNext`,
  `SaveThenNext`).
- The limiter's rate bound holds of a key if and only if LockStart is at most Window or the key's
  threshold is one (`RateBoundForEveryKey`).
- A late sync that restores an intent another device has cancelled lets a chunk be collected less
  than the fence after that device saw it referenced (`RestoredIntentBreaksIt`): if and only if some
  device's first-seen entry and some intent file are both older than that sighting
  (`TakenEarlyExactly`). The rest of what collection promises does not depend on it
  (`CollectionIsSafe`).
- A chunk with an unreadable intent is never collected, and one with an unreadable first-seen entry
  never by that device (`CollectableExactly`, `CollectableBySomeExactly`).
- A configuration with a negative epoch opens once and then only where a rollback is accepted
  (`ReopensExactly`).
- `internal/vault/anchor.go:122-132` says the tag requirement and the epoch mark never fall. A crash
  while a rollback is being accepted forgets the requirement (`CrashInRollbackForgetsTag`), and so
  does a full disk, on which the old anchor is removed and the new one not written
  (`FullDiskForgetsTag`); nothing else does (`TagRequiredExactly`). The mark falls there too, and
  where a rewrite writes over an anchor it could not read (`MarkStaysExactly`). A crash after a
  configuration is published, on the other hand, does not even cause the warning that
  `internal/vault/rotation.go:17-18` expects (`CrashAfterPublishRecovers`).
- Distinct export targets may nest, a file where a directory has to be (`TargetsMayNest`), against
  `internal/vault/export.go:179-186`: if and only if a portable name is in the way of a directory of
  another, or a name that was told apart by its suffix is (`NestExactly`), which the plain names and
  suffixes decide beforehand (`NestBySuffixesExactly`).
- COPY of a collection onto itself, and COPY or MOVE onto a collection above the source, delete the
  source and report it missing (`OverreachDestroysSource`), and so does COPY of a collection onto
  the one member it has (`DestinationCanBeAllThereIs`). `SourceSurvivesExactly` says when the source
  outlives the clearing of the destination, and `CopyKeepsSourceExactly` when a COPY that goes
  through leaves the whole of it.
- MOVE of a collection onto a file above it can delete all that was moved and report success
  (`NestedMoveCanLoseAll`); it brings everything along if and only if no member is to go at or below
  the collection itself (`MoveArrivesExactly`).
- Onto or from a path that is a file and a collection at once, a transfer is not exact; when it is,
  is decided for every pair of separate paths (`TransferIsExactly`, `MoveEmptiesExactly`).
- The wiped-index gate also refuses a store without the workspace marker in which nothing is wrong:
  a file was deleted, and a copy from before the delete came in late (`SuppressedCopyIsRefused`).
  `EmptyIndexExactly` and `RefusedExactly` say which stores load empty and which are refused.
- An interrupted upgrade from the single-file index shows exactly what it has committed and hides
  the rest (`InterruptedUpgradeHidesRest`).

## Model

| member | source | states |
|---|---|---|
| AuthLimit.Normalize | internal/authlimit/authlimit.go:87-114 | every policy becomes usable, a usable one is unchanged, and each unusable field gets its documented default |
| AuthLimit.Limiter.EvictOne | internal/authlimit/authlimit.go:187-217 | removes one least recently seen idle key, else one such locked key, else none; never one with a reservation |
| AuthLimit.Limiter.GetOrCreate | internal/authlimit/authlimit.go:163-180 | the key exists afterwards, with room made for it first when the map is full |
| AuthLimit.Limiter.RefreshLocked | internal/authlimit/authlimit.go:224-253 | expires a lock, a stale streak and leaked reservations of one key and touches no other |
| AuthLimit.Limiter.Check | internal/authlimit/authlimit.go:262-281 | grants and reserves exactly when the key is unlocked and failures plus reservations are below its threshold; a denial returns the rest of the lock that is left, or the failure delay where there is none |
| AuthLimit.Limiter.Fail | internal/authlimit/authlimit.go:292-316 | turns a reservation into a failure; answers locked if and only if the key it leaves is locked and at its threshold, with the whole length of that lock, else with the failure delay |
| AuthLimit.Limiter.Success | internal/authlimit/authlimit.go:322-339 | returns a reservation and clears streak, ladder and lock of that key and of no other |
| AuthLimit.Limiter.Release | internal/authlimit/authlimit.go:343-355 | returns a reservation and counts nothing |
| AuthLimit.Limiter.SelfState | internal/authlimit/authlimit.go:364-387 | creates no key, refreshes only the caller's own, and reports the longest remaining lock |
| AuthLimit.AttemptKeys | internal/authlimit/authlimit.go:471-492 | one key without an account, else three, of which the last two coincide when the peer is empty |
| AuthLimit.AttemptThresholds | internal/authlimit/authlimit.go:148-153 | a peer is held to the threshold of peers on its keys, an account to that of accounts on its own |
| AuthLimit.OwnKeysAre | internal/authlimit/authlimit.go:364-387 | the keys polled are those of that peer without an account and with this one, and no other |
| AuthLimit.RefreshAbsorbs | internal/authlimit/authlimit.go:224-253 | refreshing at t1 and then at a later t2 is refreshing once at t2 |
| AuthLimit.PollsInvisible | internal/authlimit/authlimit.go:364-387 | however often a key is polled, the next Check and the next Fail give what they would have given |
| AuthLimit.RefreshSettles | internal/authlimit/authlimit.go:224-253 | no key keeps more reservations than its threshold nor, unlocked, any that is Window old; younger ones stay |
| AuthLimit.LeakedReservationsDecay | internal/authlimit/authlimit.go:236-253 | a key blocked by reservations alone grants again once they are Window old |
| AuthLimit.OldestIdleGoes | internal/authlimit/authlimit.go:163-217 | a key is given up only at MaxKeys, without reservations, and only if no idle one was seen earlier |
| AuthLadder.LockLenClosedForm | internal/authlimit/authlimit.go:302-316 | doubling with a cap at every step equals LockStart * 2^(n-1) capped once |
| AuthLadder.LadderOfDenseLog | internal/authlimit/authlimit.go:302-316 | with failures less than Window apart, failure t + n - 1 earns the n-th consecutive lock and none before failure t does |
| AuthLadder.RateBound | internal/authlimit/authlimit.go:224-316 | an admissible failure log has at most the threshold of entries in any half-open LockStart interval |
| AuthLadder.RateBoundFails | internal/authlimit/authlimit.go:224-316 | with LockStart above Window and a threshold of two or more, a concrete admissible log breaks the bound |
| AuthRuns.StepKeeps | internal/authlimit/authlimit.go:262-355 | every step of every attempt keeps the invariant tying keys, logs, reservations and map size together |
| AuthRuns.RunKeeps | internal/authlimit/authlimit.go:471-559 | the invariant holds in every state of every interleaved run |
| AuthRuns.ReservationsExact | internal/authlimit/authlimit.go:262-355 | pending(k) is the number of unresolved reservations on k, and failures plus pending never pass the threshold |
| AuthRuns.NoCheckInFlightWhileLocked | internal/authlimit/authlimit.go:262-316 | no attempt holds a reservation on a locked key |
| AuthRuns.NothingHeldNothingPending | internal/authlimit/authlimit.go:471-559 | once all attempts, granted or denied, are resolved, no reservation is left |
| AuthRuns.LockedEvictedLast | internal/authlimit/authlimit.go:187-217 | a locked key is given up only when no unlocked key without reservations exists |
| AuthRuns.MapIsBounded | internal/authlimit/authlimit.go:163-217 | the number of keys never exceeds max(MaxKeys, peak + 1) for the peak of keys reserved at once |
| AuthRuns.LockLadder | internal/authlimit/authlimit.go:302-316 | on every run without a reset the current lock has the ladder's length, and between locks at most one attempt is in flight |
| AuthRuns.LongLockForgets | internal/authlimit/authlimit.go:224-253 | when a lock of at least Window expires, streak and lock length are both forgotten |
| AuthRuns.DefaultLadder | internal/authlimit/authlimit.go:75-114 | the default policy reaches such a lock at the sixth, and no earlier |
| AuthRuns.EveryLogHappens | internal/authlimit/authlimit.go:224-316 | every failure log the independent account admits is the log of some run |
| AuthRuns.RateBoundOnRuns | internal/authlimit/authlimit.go:224-316 | no run counts more than the threshold of failures on a key within a half-open LockStart interval |
| AuthRuns.RateBoundExactly | internal/authlimit/authlimit.go:224-316 | for keys without an account the rate bound holds over all runs if and only if LockStart <= Window or the threshold is one |
| AuthBursts.RateBoundForEveryKey | internal/authlimit/authlimit.go:224-316 | the same for every key, with runs of whole attempts that break the bound on the keys that carry an account |
| AuthBursts.PairBurst | internal/authlimit/authlimit.go:443-500 | a run of attempts by one peer on one account that breaks it, with the account's own key evicted each time |
| AuthBursts.CeilingBurst | internal/authlimit/authlimit.go:443-500 | a run of attempts by different peers that breaks it on the account's own key |
| Gc.EffectiveFence | internal/vault/gc.go:97-103 | nothing asked gives 72 hours, a request of up to an hour gives one hour, and a larger one is honoured |
| Gc.OldestTime | internal/vault/gc.go:419-449 | the intent files of a chunk fold into the oldest readable time, and to none only if none is readable |
| Gc.NewestMtime | internal/vault/gc.go:492-503 | the newest modification time among a chunk's copies |
| Gc.Store.RunPhase1 | internal/vault/gc.go:221-304 | cancels, reaps, marks and dates exactly as the pure phase says and reports which; it completes if and only if there are as many writes left as there are intent files to remove, chunks to mark and a changed record to save; a failure leaves a partial state of that phase |
| Gc.Store.RunPhase2 | internal/vault/gc.go:306-397 | removes exactly the chunks past all three fences and reports them, reloading once if the index changed; it completes if and only if the writes left cover the copies and intent files to remove and a changed record; a failure leaves a partial state of that phase |
| Gc.Store.RunConfirm | internal/vault/gc.go:221-402 | from the reload on, a run is phase 1 then phase 2, and completes if and only if the writes left cover both; even a failed one touches no referenced chunk |
| GcRuns.RunKeeps | internal/vault/gc.go:247-389 | over all devices, cut-off runs and outside changes, first-seen entries are genuine; and while no sync restores a cancelled intent, intents are no older than any sighting of a reference |
| GcRuns.CollectionIsSafe | internal/vault/gc.go:340-389 | a chunk collected at t is unreferenced, all its copies are old, and the collector itself saw it unreferenced and marked by t - fence; while no sync restores a cancelled intent, no device saw it referenced in (t - fence, t) |
| GcRuns.RestoredIntentBreaksIt | internal/vault/gc.go:340-389 | a run of two devices in which a restored intent makes the last of these fail |
| GcDevices.TakenEarlyExactly | internal/vault/gc.go:340-389 | from a store steps that restore no further intent can lead to a collection less than the fence after a sighting if and only if a first-seen entry and an intent file are both older than it |
| GcRuns.ConfirmPostcondition | internal/vault/gc.go:247-389 | from any disk a run leaves intents naming exactly the unreferenced chunks present, and every referenced chunk in place |
| GcRuns.ReferenceCancels | internal/vault/gc.go:247-389 | a run that finds a marked chunk referenced leaves it without intent and first-seen date |
| GcRuns.CancelRestarts | internal/vault/gc.go:247-389 | neither of the two runs after that collects it, unless the fence passes within one of them |
| GcRuns.FirstMark | internal/vault/gc.go:247-304 | a run over an unreferenced chunk without records marks it now and collects nothing, unless the fence passes within it |
| GcRuns.CollectedIsForgotten | internal/vault/gc.go:340-389 | a collected chunk leaves no intent and no first-seen date behind |
| GcRuns.Progress | internal/vault/gc.go:247-389 | a chunk that stays unreferenced and old is gone after runs at t1 <= t2 <= t and one at t + fence, whatever else changes in between |
| GcRuns.UnreadableIsStuck | internal/vault/gc.go:419-449 | a chunk with an unreadable intent or first-seen entry survives every sequence of runs of that device |
| GcRuns.CollectableExactly | internal/vault/gc.go:340-389 | some sequence of runs of a device collects an unreferenced chunk if and only if its records are readable |
| GcDevices.CollectableBySomeExactly | internal/vault/gc.go:340-389 | some runs of several devices, in any order, do if and only if one of them can read the intent and its own first-seen entry |
| Manifests.ClockDominates | internal/vault/manifest.go:559-585 | the loops decide strict dominance of vector clocks |
| Manifests.DominatesPointwise | internal/vault/manifest.go:559-585 | dominance is being behind nowhere and different |
| Manifests.DominanceIsStrictOrder | internal/vault/manifest.go:342-351 | dominance is irreflexive, asymmetric and transitive |
| Manifests.Antichain | internal/vault/manifest.go:352-360 | keeps exactly the copies no other copy dominates |
| Manifests.Sorted | internal/vault/manifest.go:362-369 | the sort before the election keeps every copy |
| Manifests.BeatsIsAsymmetric | internal/vault/manifest.go:440-451 | the comparison of two copies is antisymmetric |
| Election.ChampionWins | internal/vault/manifest.go:362-369 | a record that beats every other wins in every load order |
| Election.OrderFreeExactly | internal/vault/manifest.go:302-309 | the winner is independent of load order if and only if such a record exists |
| Election.HomogeneousIsOrderFree | internal/vault/manifest.go:419-434 | it is whenever all copies are clocked and concurrent, or none is clocked and timestamps parse, without ties |
| Election.MixedFamilyDependsOnOrder | internal/vault/manifest.go:419-434 | two clocked copies and one without a clock elect different winners in two load orders |
| Losers.LoserExactly | internal/vault/manifest.go:370-417 | an undominated loser is removed if and only if it duplicates the winner, is a tombstone, or is at most of the generation that the winning delete says it saw, not both being clocked; otherwise it becomes a conflict copy |
| Losers.ClockedEditsAreKept | internal/vault/manifest.go:395-408 | where all copies carry clocks, an undominated live loser is removed if and only if the path stays live with the same size and chunks, and else becomes a conflict copy |
| Losers.SeenEditsAreRemoved | internal/vault/manifest.go:395-408 | where a side has no clock and a delete with a generation wins, a live loser is removed if and only if its generation is at most that |
| Losers.BeatsExactly | internal/vault/manifest.go:419-451 | which of two copies goes first, by dominance, rank of concurrent copies, or generation, time, text and deletion, decided both ways for every pair |
| Losers.GreatestConcurrentWins | internal/vault/manifest.go:339-369 | where all copies carry clocks the holder is the greatest in rank of the undominated ones |
| Losers.DeleteTakesTheSlot | internal/vault/manifest.go:339-369 | so an undominated delete leaves the path empty, whatever is concurrent with it |
| Losers.LastWrittenWins | internal/vault/manifest.go:419-434 | where none carries a clock and all timestamps parse, the holder was written last |
| Loading.EveryCopyAccountedFor | internal/vault/manifest.go:339-417 | every copy is the winner, a conflict copy or a removal, for the reason the rules give, and the winner is undominated |
| Loading.AntichainIsNotEmpty | internal/vault/manifest.go:342-351 | a set of copies always has an undominated one |
| Loading.OutcomeIsOrderFree | internal/vault/manifest.go:302-309 | with a champion, live record and conflicts are the same in every order, and removals differ at most among copies of the winner |
| Cache.LoadShows | internal/vault/manifest.go:152-177 | the loaded index shows at each path what reconciliation decides, deferring to conflict paths with manifests of their own |
| Cache.LastShows | internal/vault/manifest.go:161-176 | of several copies planned at one conflict path the load shows the last |
| Cache.CommitStaysFresh | internal/vault/cache.go:235-266 | a commit or tombstone at a path with no second manifest keeps the cached index equal to a fresh load, whatever else is unreconciled |
| Cache.SaveIsFreshExactly | internal/vault/vault.go:709-718 | after a whole-index save the cache is fresh if and only if the index has no conflict entry and omits no live file |
| Coherence.CommitFreshExactly | internal/vault/cache.go:26-31 | after a commit or tombstone the cache is fresh if and only if some order of the copies of that path alone gives what it shows at the path and its conflict paths |
| Coherence.CommitFreshByWinner | internal/vault/cache.go:26-31 | where the copies have a winner: if and only if the record holds the slot, or a tombstone wins too, and the conflict contents kept at the path are those the cache shows |
| Coherence.FreshByPaths | internal/vault/cache.go:26-31 | an index is fresh if and only if for each path some order of its copies gives what it shows there, and it shows no more |
| Coherence.AgreesByWinner | internal/vault/manifest.go:302-309 | where a path elects a winner, agreement is with that winner and the kept losers |
| Compaction.LoadedPlanOk | internal/vault/manifest.go:152-177 | in every load's plan, sources are distinct, no conflict target is a source or a removal, and each loser is on disk |
| Compaction.KeptChunksStay | internal/vault/compact.go:86-116 | on every disk met while a plan is applied, the chunks of every kept record are still referred to |
| Compaction.Vault.CachedIndex | internal/vault/cache.go:79-100 | loads once, folds every generation seen, and leaves the cache fresh |
| Compaction.Vault.ReloadIndex | internal/vault/cache.go:284-290 | the cache becomes a fresh load, or absent if the load fails |
| Compaction.Vault.NextGeneration | internal/vault/cache.go:102-117 | exceeds the last one and the wall clock's floor, and is above every generation on disk if and only if each is below the clock or no higher than the mark |
| Compaction.Vault.CommitFile | internal/vault/cache.go:235-247 | a failed write changes nothing; a good one leaves just the given record in that file and in the cache; freshness is kept where the path has one manifest, and elsewhere if and only if its copies agree in some order; the mark still covers the disk if and only if it covers the record |
| Compaction.Vault.CommitTombstone | internal/vault/cache.go:257-267 | the same for a delete, which records the generation it saw, unless negative, and the clock given: fresh if and only if the copies agree in some order, and the mark covers the disk if and only if it covers the tombstone |
| Compaction.Vault.SaveIndex | internal/vault/manifest.go:699-709 | writes the plain entries and caches the index, and succeeds if and only if none of that many writes fails; else the cache stays and a strict part of the entries is written; either way the cache is fresh if and only if it agrees with every path; the mark covers the disk if and only if it covers the entries |
| Compaction.Vault.Compact | internal/vault/compact.go:68-133 | every disk on the way, with any steps failing, keeps each losing edit at its source or its conflict path and touches nothing else; errors is the number of operations that failed, none if none does; the report names exactly the conflict paths written and counts the files removed; a source or redundant file stays if and only if an operation on it failed; the cache stays fresh or is dropped |
| FileOps.LeftExactly | internal/vault/compact.go:81-116 | after the operations of a plan, with any of them failing, which sources, redundant files and conflict copies are there |
| FileOps.StaysExactly | internal/vault/compact.go:81-116 | a file goes if and only if an operation that removes it goes through |
| Sessions.StepExactly | internal/vault/cache.go:26-31 | from a coherent vault, each commit, tombstone, save, Compact or reload leads to a coherent one if and only if it meets its condition |
| Sessions.MeetsByWinner | internal/vault/cache.go:26-31 | for a commit that is that the winner holds the slot as the record does and the kept losers are those shown, where there is one |
| Sessions.SessionExactly | internal/vault/cache.go:26-31 | over any sequence of these the cache is absent or equal to a fresh load throughout if and only if every step meets its condition, and the first that does not breaks it at once |
| Sessions.OwnCommitMeets | internal/vault/cache.go:235-266 | a commit at a path with one manifest always meets it |
| Sessions.Serve | internal/vault/cache.go:235-290 | every request to the vault class, with any failure, is one of these steps |
| Settlement.CompactSettles | internal/vault/compact.go:68-133 | after a completed Compact of an order-free store the next load, in any order, plans nothing |
| Settlement.CompactKeepsIndex | internal/vault/compact.go:68-133 | and shows every path as before, conflict copies having become files with the same content |
| Settlement.ClockedStoresAreOrderFree | internal/vault/manifest.go:419-434 | a store whose manifests all carry clocks is order-free, ties apart |
| Settlement.DeferredIsLeftAlone | internal/vault/manifest.go:161-170 | a loser whose conflict path has its own manifests is neither materialised nor removed |
| Settlement.KeptLoser | internal/vault/manifest.go:152-177 | a loser that is kept is materialised if and only if its conflict path has no manifests, and never simply removed |
| Settlement.FailedRemovalIsNotRetried | internal/vault/compact.go:81-103 | on every later disk that still has the loser, with its path's holder and no copy whose supersessor is gone, the loser is planned again if and only if its conflict path has no manifests, and is never simply removed |
| Settlement.SameCopiesAreRemnant | internal/vault/compact.go:81-103 | every disk with the same copies of the path is one |
| Settlement.RestOfCompactLeavesRemnant | internal/vault/compact.go:81-103 | so is the disk left when all of a Compact but this one removal goes through |
| Clones.CloneFileRecord | internal/vault/cache.go:44-75 | the copy of a record says the same and shares nothing with what there was |
| Clones.CloneFiles | internal/vault/cache.go:33-42 | the same for a whole index |
| Clones.Cached.LoadIndex | internal/vault/vault.go:636-650 | a caller's snapshot says what the cache says and shares nothing with it |
| Clones.Cached.Commit | internal/vault/cache.go:241-245 | the cache takes in a copy of the committed record |
| Clones.Cached.Replace | internal/vault/cache.go:269-278 | the cache takes in a copy of the saved index |
| Clones.SnapshotIsSeparate | internal/vault/cache.go:33-48 | whatever a caller does to a snapshot's chunks and clock maps, the cache still shows what it showed |
| Clones.CommittedIsSeparate | internal/vault/cache.go:44-53 | whatever it does to a record after committing it, likewise |
| Clones.SavedIsSeparate | internal/vault/cache.go:269-278 | whatever it does to an index after saving it, likewise |
| Commits.CommitKeepsEditsExactly | internal/vault/cache.go:235-247 | a commit leaves every losing edit on disk if and only if none sits in the canonical file it writes |
| Commits.StaleAfterOverwrite | internal/vault/cache.go:26-31 | overwriting one, unless another copy has its content, makes the cache differ from every fresh load |
| Commits.CommitCanLoseItsElection | internal/vault/cache.go:26-31 | a commit that loses no edit but is beaten by a conflict copy, after which the cache differs from every fresh load |
| Commits.CommitCanLoseAnEdit | internal/vault/cache.go:235-247 | two concurrent edits for which that happens |
| Commits.MarkerThenNext | internal/vault/cache.go:102-117 | after a directory marker the next generation is above all on disk if and only if the clock is past the marker's or the mark was no lower |
| Commits.TombstoneThenNext | internal/vault/directories.go:95-107 | the same after the tombstone of a moved record |
| Commits.SaveThenNext | internal/vault/manifest.go:699-709 | the same after a whole-index save |
| Clocks.JoinClock | internal/vault/manifest.go:650-656 | element-wise maximum over the entries of both clocks |
| Clocks.NextRecordClock | internal/vault/cache.go:156-191 | the loops give the base's positive entries, the own counter above base and wall clock, and every foreign entry a write older or gone at the horizon |
| Clocks.AdvanceClock | internal/vault/cache.go:199-212 | a tombstone's clock dominates any non-empty clock it is advanced from |
| Clocks.NextDominatesBaseExactly | internal/vault/cache.go:156-191 | a write dominates its base if and only if no foreign entry of it has reached age seven |
| Clocks.AgeCountsWrites | internal/vault/cache.go:142-149 | on any forked history an entry is kept while fewer than eight writes follow the device's own last one; its age is that count and its value the counter minted there |
| Clocks.OwnEntryLeads | internal/vault/cache.go:166-171 | a writer's own entry exceeds its base's and its wall clock |
| Clocks.NoForgedDominance | internal/vault/cache.go:142-149 | a record dominates a write only if its history holds a write by that device with at least that counter |
| Clocks.ClockIsBounded | internal/vault/cache.go:119-126 | no record's clock ever has more than eight entries |
| Clocks.DominanceIsHigherCounters | internal/vault/manifest.go:559-585 | on every history, dominance is that the clocks differ and of every device the other knows a write with at least that counter is known |
| Clocks.DominanceIsLaterKnowledge | internal/vault/cache.go:128-149 | with advancing wall clocks, dominance is knowing, for every device the other knows, a write at least as late |
| Clocks.UnmergedPeerEditSurvives | internal/vault/cache.go:135-140 | on every history, a record whose lineage has no write of a peer from its edit on dominates the edit if and only if the peer had minted a counter as high before it, on that lineage, and all else is covered; never under advancing clocks |
| Clocks.SteppedClockForgesDominance | internal/vault/cache.go:135-140 | a history in which a clock steps back and it does |
| Clocks.AncestorDominatedExactly | internal/vault/cache.go:142-149 | on every history, a record dominates an ancestor if and only if the clocks differ and each of its entries is there and never aged out on the way or was minted again as high; under advancing clocks, if and only if none has aged out |
| Clocks.OwnForkIsSuperseded | internal/vault/cache.go:135-140 | a device's record that covers what else its own unmerged fork knew dominates it if and only if its counter is at least as high and the clocks differ; under advancing clocks, whenever it is later |
| Clocks.OwnForkIsDropped | internal/vault/cache.go:135-140 | a four-write history in which that happens |
| Gear.NextPowerOfTwo | internal/vault/chunker.go:78-87 | the least power of two no smaller than n |
| Gear.MaskIsRemainder | internal/vault/chunker.go:44-57 | masking with 2^k - 1 is the remainder modulo 2^k |
| Gear.LowBitsAreLocal | internal/vault/chunker.go:52-62 | the low k bits of the 64-bit hash are the weighted sum of the last min(k, n) table entries |
| Chunker.ForEachChunk | internal/vault/chunker.go:39-76 | for every split into reads, read failure and callback refusal, hands over exactly the due chunks up to the first refused, each in an array of its own that later iterations leave alone |
| Chunker.ReadsDoNotMatter | internal/vault/chunker.go:49-75 | two runs over the same bytes, split into reads differently, end alike and hand over the same chunks |
| Chunker.ChunksPartition | internal/vault/chunker.go:49-75 | the chunks concatenate to the input; all are non-empty and at most MaxSize, all but the last at least MinSize |
| Chunker.RollingIsWindowed | internal/vault/chunker.go:52-62 | whether to cut depends only on the chunk's length and its last k bytes |
| Chunker.FoldIsWindowed | internal/vault/chunker.go:49-75 | the rolling chunker equals repeatedly taking the shortest prefix the windowed rule cuts |
| Chunker.ChunksAfterCut | internal/vault/chunker.go:55-62 | if x ends at a cut, chunks(x + y) = chunks(x) + chunks(y) |
| Chunker.SharedSuffixSharesChunks | internal/vault/chunker.go:55-62 | inputs that share a suffix and both cut at a point of it share every later chunk |
| ConfigAnchor.Device.RecordAnchor | internal/vault/anchor.go:133-168 | raises the epoch mark and its tag and latches the tag bit, lowering neither unless the anchor could not be read; says for every failing step what file is left and whether it is noted |
| ConfigAnchor.Device.ClearAnchor | internal/vault/anchor.go:175-184 | removes the anchor or notes that it could not |
| ConfigAnchor.Device.CheckFreshness | internal/vault/configmac.go:131-168 | refuses an older epoch and a differing tag at the same epoch, else records, with the file for every failing step; an unreachable anchor only drops protection; the tag requirement is lost if and only if an accepted rollback removes the anchor and cannot write |
| ConfigAnchor.Device.Open | internal/vault/configmac.go:81-110 | a bad tag is refused, a missing tag is refused once one was seen, a refusal leaves the anchor, and the verdict and the file are given for every failing step |
| ConfigAnchor.Device.EnsureConfigMAC | internal/vault/configmac.go:194-215 | tags an untagged configuration at the next epoch with the fields it had, published before it is anchored, and does nothing to a tagged one |
| ConfigAnchor.Device.RewriteConfig | internal/vault/rotation.go:27-52 | publishes the new fields at the next epoch with a tag that verifies, then anchors it, if and only if the write goes through |
| ConfigAnchor.RewriteIsOpen | internal/vault/rotation.go:27-52 | after a completed rewrite step the configuration open has its fields at the next epoch, opens again wherever the anchor is no newer, and is refused under any other key |
| ConfigAnchor.ChangedIsTampered | internal/vault/configmac.go:81-91 | with the tag of a proper configuration, another is refused as tampered if and only if its fields or its epoch differ |
| ConfigAnchor.DivergenceIsRefused | internal/vault/configmac.go:142-160 | of two configurations properly tagged at one epoch the second is refused once the first is anchored |
| ConfigAnchor.StepKeeps | internal/vault/configmac.go:81-215 | one event without a waiver keeps the anchor equal to the newest trusted configuration |
| ConfigAnchor.FreshnessOverRuns | internal/vault/configmac.go:81-168 | over all runs of such events with a working anchor, trusted tagged configurations verify, have non-decreasing epochs, equal epochs mean equal configurations, and nothing untagged follows one |
| ConfigAnchor.AcceptRollbackWaivesOnlyRollback | internal/vault/configmac.go:142-160 | the option turns that one refusal into an open, changes no other verdict, and the tag stays required |
| ConfigAnchor.HasTagStays | internal/vault/anchor.go:133-168 | an anchored tag requirement survives an open if and only if it is not an accepted rollback that removes the anchor and cannot write |
| ConfigAnchor.TagRequiredExactly | internal/vault/anchor.go:122-168 | over every run with rollbacks, crashes and failing steps, a tag is required if and only if it was anchored and no accepted rollback has since stopped between clearing and writing, by a crash or a failed write |
| ConfigAnchor.UntaggedRefusedExactly | internal/vault/configmac.go:92-109 | an untagged configuration is refused if and only if a tag is required and the anchor is reached |
| ConfigAnchor.MarkStaysExactly | internal/vault/anchor.go:122-168 | one event keeps the epoch mark if and only if it is no accepted rollback that clears a higher one and no rewrite over an anchor it could not read |
| ConfigAnchor.CrashInRollbackForgetsTag | internal/vault/configmac.go:144-167 | a crash between clearing and recording makes an untagged configuration acceptable that was refused before |
| ConfigAnchor.FullDiskForgetsTag | internal/vault/configmac.go:144-167 | a failed write after clearing does the same without a crash |
| ConfigAnchor.ReopensExactly | internal/vault/anchor.go:133-168 | an accepted tagged configuration opens again without accepting a rollback if and only if its epoch is non-negative or at least the one anchored before |
| ConfigAnchor.CrashAfterPublishRecovers | internal/vault/configmac.go:184-215 | after a crash between publishing and anchoring, the next open accepts and completes the anchor |
| Portable.ValidatePortableName | internal/vault/portable.go:58-79 | reports no fault if and only if the name is portable, and names a real fault otherwise |
| Portable.SanitizePortableSegment | internal/vault/portable.go:86-103 | the loops compute the sanitised name |
| Portable.SanitizedIsPortable | internal/vault/portable.go:81-103 | every sanitised name is portable, and a name is left alone if and only if it already was |
| Portable.SanitizedIsIdempotent | internal/vault/portable.go:86-103 | sanitising twice is sanitising once |
| Portable.RefusedExactly | internal/vault/portable.go:24-79 | a name is refused if and only if it is empty, ends in a dot or a space, has a control character or one of seven others, or its stem is one of twenty-two device names in any case |
| Portable.SanitizedIs | internal/vault/portable.go:81-103 | what is illegal becomes an underscore in place, what trails is cut, and a device name gets a prefix |
| Export.SuffixOkExactly | internal/vault/manifest.go:684-697 | a conflict suffix is portable if and only if its stamp has no illegal character but colons |
| Export.Choose | internal/vault/export.go:196-211 | picks the plain, the suffixed or the first free numbered name, in these spellings; the numbering ends because numbers never fold together |
| Export.RelativePath | internal/vault/export.go:248-261 | the exported path and the target together are the path of the match |
| Export.SecondComesFirst | internal/vault/export.go:201-210 | the first number tried is 2 |
| Export.DecimalReads | internal/vault/export.go:206-209 | the number appended reads as that number, without leading zeros |
| Export.FoldedExactly | internal/vault/export.go:196-211 | two targets clash if and only if they have the same length and fold alike character by character |
| Export.StampIs | internal/vault/manifest.go:684-690 | a stamp without colons keeps its length, separators and dots become hyphens, and nothing else changes |
| Export.ColonsGo | internal/vault/manifest.go:684-690 | a colon of the stamp is left out |
| Export.ExportTargets | internal/vault/export.go:187-214 | each match in turn gets the first name its predecessors left free |
| Export.TargetsAreDistinct | internal/vault/export.go:179-214 | no two targets fold to the same path |
| Export.TargetsArePortable | internal/vault/export.go:179-214 | every segment of every target is portable, hence neither empty, "." nor "..", given portable suffixes |
| Export.PortableNamesAreKept | internal/vault/export.go:187-214 | portable names that differ after folding are exported unchanged |
| Nesting.NestExactly | internal/vault/export.go:179-214 | targets nest if and only if a portable name folds to a directory of another, or a suffixed or numbered target does |
| Nesting.NestByPlainsExactly | internal/vault/export.go:179-214 | where no suffixed or numbered form would, the portable names alone decide it |
| Nesting.NestBySuffixesExactly | internal/vault/export.go:179-214 | where suffixed names fold apart, it is decided by the plain names and the suffixed names of those that share a plain one with an earlier match |
| Nesting.SuffixedExactly | internal/vault/export.go:187-214 | just those are suffixed then |
| Nesting.TargetsAre | internal/vault/export.go:187-214 | a target's directories are those of the portable name, and that name's key is always taken |
| Nesting.TargetsMayNest | internal/vault/export.go:179-214 | two names whose targets are a file and a directory of the same name |
| DavTree.Server.DirectoryExists | internal/localdav/server.go:1186-1200 | a collection exists by its marker or by anything below it |
| DavTree.Server.RemovePath | internal/vault/vault.go:1272-1336 | removes the file at the path, else everything below; succeeds if and only if that is something, not the workspace root, and the writes suffice; a failure stays inside the path |
| DavTree.Server.EnsureDirectory | internal/vault/directories.go:145-187 | the marker is there afterwards if and only if it was or may be created with a write left |
| DavTree.Server.CopyFile | internal/localdav/server.go:954-966 | the data of the source at the destination, if and only if the source is a file, the destination exists or may be created, and a write is left; else no change |
| DavTree.Server.CopyPath | internal/localdav/server.go:954-1008 | copies a file or, one after the other in some order, every member of a collection, each as it is when its turn comes; succeeds if and only if the source exists, each name exists or may be created, and the writes suffice; changes nothing outside the destination |
| DavTree.Server.HandleCopyMove | internal/localdav/server.go:830-943 | the status for every request: bad request, precondition and not found exactly when due, and success if and only if clearing, copying and removing are allowed and the writes suffice; the new tree on every success; no change on a refused request; not found with the destination cleared where that took the source; no change outside source and destination on failure, and every file of a failed MOVE between separate paths still at the source or at its destination |
| DavTree.Server.AmpleSucceeds | internal/localdav/server.go:917-943 | with every name allowed and enough writes left, a full transfer between separate paths succeeds |
| DavTree.Server.OneWrite | internal/localdav/server.go:917-966 | a file copied where no collection is takes one write: the file there is written over, not removed first |
| DavTree.MarkerIsMade | internal/localdav/server.go:968-1008 | a collection transferred has a marker of its own at the destination |
| DavTree.RelocationIsExact | internal/localdav/server.go:917-943 | a full transfer between separate paths leaves exactly the source's visible tree at the destination and everything else unchanged, and a MOVE leaves nothing behind |
| DavTree.CopyBelowIsExact | internal/localdav/server.go:954-1008 | a COPY of a collection to a new place below itself copies what it held before |
| DavTree.MoveEmptiesExactly | internal/localdav/server.go:936-942 | a MOVE empties its source if and only if that is not a file and a collection at once |
| DavTree.FileTransferIsExactly | internal/localdav/server.go:917-930 | a transferred file is all there is at the destination if and only if that was not both |
| DavTree.MoveKeepsParentExactly | internal/localdav/server.go:1186-1200 | a collection above a moved source stays visible if and only if it has a marker or something else below it |
| DavTree.OverreachDestroysSource | internal/localdav/server.go:917-936 | clearing a destination that is the source or a collection above it removes the source |
| DavTransfers.SourceSurvivesExactly | internal/localdav/server.go:901-920 | the source outlives the clearing of the destination if and only if they are apart, or the destination is a file at or above it, or the destination is below a file, absent, or not all there is below |
| DavTransfers.DestinationCanBeAllThereIs | internal/localdav/server.go:901-920 | a collection whose one member is the destination is gone before it is copied |
| DavTransfers.CopyKeepsSourceExactly | internal/localdav/server.go:917-1008 | a COPY that goes through, in any order of members, keeps all it was to copy if and only if: for a file, it is not copied to itself where it is a collection too; onto a file above, members written at members have the same data; onto a destination below, this is no file and all it held is found at the same places outside it |
| DavTransfers.MoveArrivesExactly | internal/localdav/server.go:917-1008 | a MOVE that goes through, in any order of members, has every member where it was to go if and only if none was to go at or below the collection moved |
| DavTransfers.NestedMoveCanLoseAll | internal/localdav/server.go:917-942 | a collection moved onto a file above it, after which no file is left |
| DavTransfers.TransferIsExactly | internal/localdav/server.go:917-943 | between separate paths the destination becomes what the source was if and only if neither is a file and a collection at once, or both are with the same below, or a collection covers all that is below the file it replaces |
| Layout.MoveRecords | internal/vault/directories.go:57-83 | every older record has a new place in content: its own name there if that is free, that of a conflict copy only if it is not; no two share one unless a record is lost, and that is if and only if fewer are left than there were |
| Layout.MovableExactly | internal/vault/content.go:117-134 | which names are moved: those not below content/ whose last segment does not spell the marker in any case; and where to |
| Layout.MovedApart | internal/vault/directories.go:66-69 | different records have different new names |
| Layout.EnsureContentLayout | internal/vault/directories.go:18-108 | writes nothing to a refused or settled store of manifests, else moves every older record, commits all before deleting any old path, and succeeds if and only if none of those writes fails; each old path then has a tombstone that saw the record that left it |
| Layout.LateCopyGoes | internal/vault/directories.go:95-107 | a copy that a later sync brings back to an old path leaves it empty, and is planned for removal and not as a conflict copy |
| Layout.EnsureSingleFileLayout | internal/vault/directories.go:18-110 | for a store of the older kind the single file is rewritten as a whole with every older record moved, or stays; with manifests it is not opened |
| Layout.RewrittenIsSettled | internal/vault/directories.go:18-110 | the next opening finds such a file in order |
| Layout.NothingLostMidway | internal/vault/directories.go:89-107 | wherever an upgrade stops, each older manifest is where it was or its record is where it goes |
| Layout.InterruptedUpgradeHidesRest | internal/vault/vault.go:670-683 | once one manifest is written, a record of the upgrade is shown if and only if it is committed |
| Layout.FreshStoreGetsMarker | internal/vault/directories.go:33-51 | opening a fresh store leaves just the marker, and the gate passes |
| Layout.EntryIsOnDisk | internal/vault/manifest.go:89-178 | every entry of a loaded index shows a record some live manifest holds |
| Layout.FallsBackExactly | internal/vault/vault.go:670-683 | the single file is loaded only where no manifest names a path, even one that lies under another name |
| Layout.StraysDecide | internal/vault/gc.go:129-162 | a live manifest under another name has an empty load refused, a tombstone or nameless one there has it pass |
| Layout.WipeSurvivesOpening | internal/vault/gc.go:129-162 | a refused store loads empty and is left alone by opening, so it is refused after any number of opens |
| Layout.MaskedExactly | internal/vault/directories.go:121-137 | the marker is withheld if and only if the gate refuses or only tombstones and unnamed manifests are left |
| Layout.AllTombstonesStayCollectable | internal/vault/gc.go:120-162 | a store of tombstones alone loads empty, is left alone and passes the gate |
| Wiped.EmptyIndexExactly | internal/vault/manifest.go:89-178 | a load is empty if and only if the holder of every path is a tombstone and each loser it keeps has manifests at its conflict path |
| Wiped.RefusedExactly | internal/vault/gc.go:129-162 | the gate refuses if and only if nothing is unreadable, the load is empty in that sense, and there is a live manifest, or none at all but chunks |
| Wiped.UnseenCopies | internal/vault/gc.go:129-162 | a live copy in a store that loads empty is superseded, older than the delete that won, or deferred to its conflict path |
| Wiped.SuppressedCopyIsRefused | internal/vault/gc.go:129-162 | a tombstone and a late copy from before it: loads empty, is refused, and a Compact would remove the copy |

## Left out

- Clearing locks by hand, lock texts and peer-address parsing of the limiter: they add easy members.
- Limiter state records are values in a map, not heap objects, and durations do not overflow.
- Collection times are whole seconds, and all readings of one phase are equal.
- Gc.Store.RunConfirm: the Compact that begins a confirm run, and its failure, which ends the run; `Compaction` has it, over manifests.
- Dry runs, reports, the sweep of temporary files, upper-case hexadecimal ids and file-system detail of writes.
- The insertion order of `sort.SliceStable` is that of its insertion sort, which it uses up to twenty elements; longer lists follow the same order only where a champion exists.
- A record whose generation or timestamp is missing is given the present time by the code; records here carry both, and modification times and ages are carried only in `Clocks`.
- Conflict names, content keys and clock strings are ideal hashes: names are equal only for equal content, and the orders are parameters.
- Sharing of chunk lists and clock maps is modelled in `Clones` only; elsewhere an index is a value.
- Clock counters and generations do not overflow.
- The single-file index outside `Layout`, a damaged one, and version checks beyond the manifest-store flag.
- The gear table's generator, and `nextPowerOfTwo` beyond what fits a 64-bit integer.
- Key derivation, encryption and the JSON form of a configuration: a tag is an ideal keyed hash of it.
- Characters fold one by one and digits to themselves; the export map is a sequence in the order of the matches.
- ZIP export, overwrite policies, and which files an export matches.
- Layout.MovableExactly: virtual paths are clean, so that none begins with a slash; of case folding only what can reach the letters of the marker's name is modelled.
- HTTP parsing, locks, conditional headers and PROPFIND of the WebDAV server; record metadata is one value copied with the file.
- The order in which older records are moved: the code sorts them, the model takes any order.
- GcRuns.CollectionIsSafe: outside changes fall between phases, not between the reload and the fingerprint that follows it.
- Chunker.ForEachChunk: the reader must end or fail at last, and its internal buffering is not modelled.
- DavTree.Server.HandleCopyMove: the code copies members in the order of their names; the new tree is stated for some order, and what is proved of it for every order.
