# Seat pacer

A model, in Dafny, of the plugin's stateful core: what each window's history
records, how conversations are bound to credentials, how quota readings merge,
how a request is routed, and when the next poll falls due. Each component is
specified on values, its properties are proved about those values over every
input or every run, and a class with the program's own fields and loops is
proved against the specification.

| files | component |
|---|---|
| `History`, `HistoryInvariants`, `HistoryLevels`, `HistorySpans`, `HistoryFalls`, `HistoryCompaction`, `HistoryPublish`, `HistoryReplay`, `HistoryReload`, `HistoryRing` | one window's recorded history |
| `SessionTable`, `SessionOrder`, `SessionStore` | the conversation-to-credential table |
| `QuotaTable`, `QuotaRegister`, `QuotaEffects`, `QuotaRuns`, `QuotaHistories`, `QuotaStore` | the snapshot store |
| `Pace`, `Scheduler`, `Routing`, `Plugin` | scoring and the pick |
| `Decisions`, `Poller` | the decision log and the poll wake |
| `Basics`, `Windows` | instants, sequences, windows and snapshots |

`dafny verify dfyconfig.toml` checks the whole project.

## Terms

- An instant is an integer count of nanoseconds since the Unix epoch; the zero
  `time.Time` is `None` where the program gives it a meaning, and comes before
  every instant. Truncation is floor division: every step the program truncates
  to divides the distance from Go's origin to the epoch.
- A recorded utilization is an integer count of ten-thousandths, the scale
  `add` rounds to, so the drop of a clearing is 500 and the drift of a late
  answer 200. A live utilization is a real number, an infinity or NaN, and
  arithmetic on it is exact.
- The pace curve's unit shape is an arbitrary function; `TargetRises` says what
  a rising one gives.
- Every store method is one atomic step. The gap between reading a clock and
  taking the lock is kept in `SessionOrder`, where Sweep depends on it.
- A request reaches the pick with its governed provider resolved, its
  conversation key and parent key extracted, and the snapshots of one instant.

## Where the code falls short of its comments

- Saving a history and loading it is the identity only for cycles that each
  open one of their own and do not straddle their own reset (`ReplayExact`).
  The parsers drop a reset more than the tolerance before its reading
  (internal/quota/window.go:104-116). Under that guard and in time order a cycle
  straddles only through a clearing confirmed across the edge of the reset its
  first fall named (`AddOneSided`, `StraddlesByClearing`), and
  `StraddleComesBackSplit` is such a run.
- A span's saved expected reset is zero for none, so one that expected the epoch
  itself loses it (`LockRoundTrip`).
- The snapshot store's change count is documented to count every change to the
  recorded histories. A listing that forgets a held history moves nothing
  (`CountTellsChanges`, `SecondAbsenceUncounted`).
- A read that carries a window the store holds no value of takes its own reading
  even when the store noted the window later (`SeenFalls`, `FetchSlot`).
  `BroughtBack` reaches it from the empty store; it takes clocks that step back
  between two reads.
- A refused seat can be answered again while its reading is stale
  (`FailoverLeaves`, `StaleSeatChosenAgain`).
- Merging a live span into saved ones keeps them disjoint only under the
  condition of `MergeLockDisjoint`.
- `add` can report no change after giving the newest cycle its first reset
  instant: exactly for a reading that names one, does not fall and is not
  recorded (`UnreportedChange`, `LateReadingNames`). Nothing is compacted then,
  and `CompactionCommutes` and `RunCompacted` hold all the same.

## Model

| member | source | states |
|---|---|---|
| `HistoryInvariants.RunOk` | internal/quota/history.go:53-102 | In every state of every run of readings, refusals, served requests and clearings: each cycle is non-empty, strictly later and never lower sample by sample, a minute apart except at the estimate boundary, holds no level three times in a row, keeps estimates a prefix ending in an observed sample; spans have a length, are disjoint and oldest first, at most 64, only the newest ongoing, a recorded expected reset after the end, and no served admission after the ongoing span's latest refusal |
| `HistoryInvariants.AddSampleOk` | internal/quota/history.go:164-231 | One reading, whatever branch it takes, keeps the cycle invariants and leaves a pending fall only when it is newer than and far under the newest sample |
| `HistoryInvariants.AbsorbOk` | internal/quota/history.go:212-230 | Appending, replacing within a minute, folding a flat run and turning an estimated cycle observed each keep a cycle rising, spaced and folded |
| `HistoryInvariants.CompactOk` | internal/quota/history.go:320-365 | Coarsening and evicting keep every cycle invariant, the estimate boundary included |
| `HistoryInvariants.RefuseOk` | internal/quota/history.go:528-565 | A refusal keeps the span invariants whatever order refusals arrive in |
| `HistoryInvariants.ServeOk` | internal/quota/history.go:567-587 | A served request keeps the span invariants: an admission it puts on record never passes the refusal of a span left ongoing |
| `HistoryInvariants.EndSpanOk` | internal/quota/history.go:589-608 | Ending the newest span for any cause keeps the span invariants |
| `HistoryInvariants.TrimOk` | internal/quota/history.go:640-655 | Trimming keeps the spans disjoint and at most 64, and never loses the newest span unless it loses all |
| `HistoryInvariants.MergeLockDisjoint` | internal/quota/history.go:620-638 | Merging a recorded span keeps the spans disjoint if and only if it does not overlap the newest span while reaching behind the end of the second newest |
| `HistorySpans.RefusalCovered` | internal/quota/history.go:528-565 | A refusal that is not stale lies inside the newest span afterwards if and only if it does not reach back into an older span and its own new span does not end before the oldest sample |
| `HistorySpans.ServedIsGreatest` | internal/quota/history.go:73-83 | In every run the served admission on record is the greatest of all admissions served |
| `HistorySpans.StaleRefusalInert` | internal/quota/history.go:528-542 | A refusal admitted at or before any request the run has served leaves the ring as it was, however late it is delivered |
| `HistorySpans.OngoingOutlastsServed` | internal/quota/history.go:66-83 | While the newest span is ongoing, some refusal of the run was admitted no earlier than every request the run has served |
| `HistorySpans.ServedEnds` | internal/quota/history.go:567-587 | A served request admitted after every refusal of the run leaves no span ongoing |
| `HistorySpans.LateAnswersLeaveNothing` | internal/quota/history.go:126-133 | Any number of late answers of an ended window in a row, stamped with its expired reset or jumping back to its level within ten minutes of it, change no sample and no span |
| `HistorySpans.RefusalLeaves` | internal/quota/history.go:537-565 | What an accepted refusal leaves of the spans, by its instants alone: one of its own behind the others, the newest running again to the new reset, the newest's start moved back, or all as they were |
| `HistorySpans.ServedEndsSpan` | internal/quota/history.go:574-608 | A request admitted after a span's latest refusal ends it at the second it was answered, keeping the reset it expected, or by that reset; one answered in the second it opened drops it |
| `HistorySpans.ClearEndsSpan` | internal/quota/history.go:589-608 | A read that clears a window ends its ongoing span at the read, keeping the reset it expected, or by that reset |
| `HistorySpans.RefusedRises` | internal/quota/history.go:552-563 | A refusal that opens no span never lowers the admission on record, and an accepted one leaves it no earlier than its own |
| `HistorySpans.InFlightLeavesSpans` | internal/quota/history.go:567-583 | Over every run, a served request admitted at or before a refusal accepted since the newest span opened leaves the spans, whatever older refusals were delivered in between |
| `HistorySpans.TrimExact` | internal/quota/history.go:640-655 | A span survives trimming if and only if it is among the newest 64 and did not end before the oldest sample |
| `HistorySpans.MergeLockTakes` | internal/quota/history.go:620-638 | A merged span gives the newest its own end and cause; the instants then refused are its own and those refused before, but for what an overlapped newest span refused from the merged end on |
| `HistoryLevels.OpensByWindow` | internal/quota/history.go:170-184 | A reading opens a cycle if and only if there is none, it is of a window more than two minutes off that did not end before the newest, or it confirms a clearing |
| `HistoryLevels.TakenWhen` | internal/quota/history.go:203-222 | A reading that opens no cycle and does not drop is taken if and only if it is newer than the newest sample, not an estimate or over one that it falls under, and not a late answer just after a roll |
| `HistoryLevels.TakenLevel` | internal/quota/history.go:207-230 | A reading taken into the newest cycle leaves the newest sample at its second and at the higher of its level and the level before, every sample before the last as it was, and the last too but within a minute or on a flat run |
| `HistoryLevels.LevelIsGreatest` | internal/quota/history.go:207-230 | In every run, compaction included, the newest level is the greatest of the level the newest cycle opened at and the readings taken since |
| `HistoryLevels.RollEndsSpan` | internal/quota/history.go:174-184 | A reading of another window ends an ongoing refusal that began before it, at the reading, or by the reset it expected where that had come |
| `HistoryLevels.LateByInstant` | internal/quota/history.go:262-300 | A reading of an ended window, told by its instants and levels alone, records nothing and ends no span |
| `HistoryCompaction.CoarsenAbsorbs` | internal/quota/history.go:349-365 | Coarsening a prefix at an earlier edge never changes what a later coarsening of the whole leaves |
| `HistoryCompaction.NearRollCommutes` | internal/quota/history.go:270-285 | Whether a reading is close to the last roll has the same answer on a ring and on its coarsened copy |
| `HistoryCompaction.AddCommutes` | internal/quota/history.go:164-231 | One reading has the same effect, the same report and the same span end on a coarsened ring as on the raw one |
| `HistoryCompaction.CompactionCommutes` | internal/quota/history.go:147-160 | For every run of readings in time order, compacting after each accepted reading leaves exactly what adding them all and compacting once leaves, as long as no intermediate ring passes the cap |
| `HistoryCompaction.CompactKeepsNewest` | internal/quota/history.go:315-347 | compact leaves exactly the newest min(total, 2600) samples of the coarsened ring and no empty cycle |
| `HistoryCompaction.TieredExact` | internal/quota/history.go:349-365 | Before eviction a sample of a sound ring stays if and only if it is of the last 24 hours or the last of its ten minutes before them |
| `HistoryCompaction.EvictKeepsCycles` | internal/quota/history.go:332-346 | What eviction leaves is the newest cycles unchanged behind a suffix of one cycle; of a cycle that lost samples the estimate boundary goes if and only if it is before the first sample left |
| `HistoryCompaction.NineDaysCount` | internal/quota/history.go:11-23 | A cycle spanning at most nine days coarsens to at most 1442 fine and 1153 coarse samples |
| `HistoryCompaction.NineDaysFit` | internal/quota/history.go:11-23 | A single cycle spanning at most nine days is never evicted from |
| `HistoryCompaction.UnreportedChange` | internal/quota/history.go:203-231 | A reading add reports as no change changes the cycles if and only if it names a reset for a newest cycle without one, does not fall, and is out of order, under an estimate or an estimated reading under the level, or a late answer; the reset is all it changes |
| `HistoryCompaction.LateReadingNames` | internal/quota/history.go:203-218 | It happens: a reading delivered out of order names the reset and is reported as no change |
| `HistoryFalls.StaleFallsInvisible` | internal/quota/history.go:117-124 | In any run in which no fall is confirmed and none is left pending, the ring, spans included, is the one the readings that do not fall build alone |
| `HistoryFalls.ClearingConfirms` | internal/quota/history.go:185-202 | Under an unchanged, unexpired reset a cycle opens if and only if the reading falls behind a pending fall, at the lower of the two when they are more than the drop apart |
| `HistoryFalls.ClearingEndsSpan` | internal/quota/history.go:592-608 | A confirmed clearing ends an ongoing span that began before it: as cleared at the first fall, or as reset when the expected reset had come |
| `HistoryFalls.ClearingTakesTwo` | internal/quota/history.go:117-124 | In every run a clearing opens a cycle only at the second of two falls with nothing recorded between them |
| `HistoryPublish.ThinExact` | internal/quota/history.go:446-465 | thin keeps the first sample, every sample no later one shares a step with, and no other |
| `HistoryPublish.KeptIsThinned` | internal/quota/history.go:431-465 | keptCount is the length of what thin leaves |
| `HistoryPublish.ThinTwice` | internal/quota/history.go:446-465 | Thinning at a step and then at a multiple of it is thinning at the multiple |
| `HistoryPublish.ThinKeepsLevels` | internal/quota/history.go:378-386 | At every boundary of the step the thinned cycle stands at the level the whole one does, and both keep their ends, so a cycle's total rise is kept |
| `HistoryPublish.RisesLandWithinAStep` | internal/quota/history.go:383-384 | Every rise is drawn at most one step late |
| `HistoryPublish.NewestFloor` | internal/quota/history.go:376-399 | The newest cycle is published at 15 minutes or finer if and only if 15 minutes alone fits the bound |
| `HistoryPublish.ExportFinest` | internal/quota/history.go:379-430 | The steps a copy is published at are the finest that fit: a finer one for the newest cycle would not fit beside the older ones at the coarsest, nor a finer one for those beside the newest |
| `HistoryPublish.ExportBound` | internal/quota/history.go:379-400 | The copy exceeds its bound if and only if the older cycles at the coarsest step cannot stand beside the newest cycle's 15-minute floor, or beside its coarsest step where the floor does not apply |
| `HistoryPublish.ExportWhole` | internal/quota/history.go:375-406 | An export with no bound copies every sample |
| `HistoryReplay.ReplayExact` | internal/quota/history.go:492-526 | Reading saved cycles of observed samples into an empty ring rebuilds them if and only if each opens a cycle of its own behind the ones before it and none straddles its own reset's edge |
| `HistoryReplay.ExportReplayCycles` | internal/quota/history.go:467-526 | A compacted ring of observed cycles that is saved whole and loaded comes back cycle for cycle exactly under that condition; SavedRunComesBack drops the assumption for the rings of runs |
| `HistoryReplay.ExportReplayLocks` | internal/quota/history.go:407-419 | Where the cycles come back, every span reaching the oldest sample comes back with its ends and expected reset; an ongoing one whose reset has passed comes back as ended by it |
| `HistoryReplay.SpansComeBack` | internal/quota/history.go:407-419 | Whatever becomes of the cycles and whatever bound the copy had, the spans that come back are all those saved that reach the oldest sample that did, each with its ends and expected reset |
| `HistoryReplay.LockRoundTrip` | internal/quota/history.go:407-419 | A saved span comes back as it was if and only if its expected reset is not the epoch, whose zero stands for none |
| `HistoryReplay.LocksRoundTrip` | internal/quota/history.go:479-489 | Merging the saved spans one by one into an empty list restores all of them |
| `HistoryReplay.LoadedAdmission` | internal/quota/history.go:471-490 | A refusal still running after a load is ended by a request admitted after the load, and by none admitted before |
| `HistoryReload.CompactTwice` | internal/quota/history.go:315-347 | Compaction is idempotent |
| `HistoryReload.RunCompacted` | internal/quota/history.go:156-160 | The ring of every state of every run is compacted as it stands, so loading it evicts and coarsens nothing more |
| `HistoryReload.SavedRunComesBack` | internal/quota/history.go:467-526 | The ring of any state of a run, when it holds no estimate, comes back from a file cycle for cycle if and only if each cycle opens one of its own and none straddles its reset |
| `HistoryReload.AddOneSided` | internal/quota/history.go:164-231 | With each named reset at most the tolerance before its reading and readings in time order, one reading leaves no cycle on both sides of its reset edge if and only if it does not confirm a clearing across the edge of the reset the first fall named |
| `HistoryReload.OneSidedInRuns` | internal/quota/history.go:290-300 | Over every such run, compaction included, no cycle straddles its reset edge as long as no clearing is confirmed across one |
| `HistoryReload.StraddlesByClearing` | internal/quota/history.go:290-300 | In every such run a straddling cycle has a clearing confirmed across an edge behind it |
| `HistoryReload.ComesBackByOpening` | internal/quota/history.go:492-526 | Without such a clearing, what a run of observed readings leaves comes back if and only if each cycle opens one of its own |
| `HistoryReload.StraddleComesBackSplit` | internal/quota/history.go:185-206 | Where the identity fails: three readings in time order, each reset within the guard, clear a window across an edge; the cycle they leave comes back as two |
| `HistoryRing.CoarsenInPlace` | internal/quota/history.go:351-365 | Filtering over the samples' own backing array leaves the coarsened samples in front |
| `HistoryRing.HistoryRing.Put` | internal/quota/history.go:156-160 | put leaves the ring the specification gives: cycles, pending fall and spans |
| `HistoryRing.HistoryRing.Add` | internal/quota/history.go:164-206 | add branch by branch, with the change it reports and the span end it makes |
| `HistoryRing.HistoryRing.Grow` | internal/quota/history.go:207-231 | The tail of add: the newest cycle after a reading that stays in it |
| `HistoryRing.HistoryRing.Compact` | internal/quota/history.go:320-347 | compact tiers, evicts and trims as specified, and its loops end |
| `HistoryRing.HistoryRing.EvictOldest` | internal/quota/history.go:332-346 | The eviction loop drops exactly the samples past the cap |
| `HistoryRing.HistoryRing.Refuse` | internal/quota/history.go:537-565 | refuse changes the spans and reports as specified |
| `HistoryRing.HistoryRing.Serve` | internal/quota/history.go:574-587 | serve changes the spans and reports as specified |
| `HistoryRing.HistoryRing.End` | internal/quota/history.go:592-608 | end changes the newest span and reports as specified |
| `HistoryRing.HistoryRing.MergeLock` | internal/quota/history.go:624-638 | mergeLock leaves the specified spans |
| `HistoryRing.HistoryRing.TrimLocks` | internal/quota/history.go:643-655 | The trimming loop drops exactly the spans passed and those past 64 |
| `HistoryRing.HistoryRing.Export` | internal/quota/history.go:387-419 | export copies the cycles at the chosen steps and every span |
| `HistoryRing.HistoryRing.Replay` | internal/quota/history.go:471-490 | replay into an empty ring leaves the specified ring |
| `HistoryRing.HistoryRing.AddCycles` | internal/quota/history.go:498-526 | The replay of saved cycles, cycle by cycle and sample by sample |
| `HistoryRing.PickFinestStep` | internal/quota/history.go:421-430 | The loop finds the finest publish step that fits a budget |
| `SessionTable.LookupRefines` | internal/session/store.go:74-101 | On the map of bindings, Lookup hits exactly an unexpired binding of the key, changes only its last-seen instant and hits, and drops an expired one |
| `SessionTable.BindRefines` | internal/session/store.go:103-143 | Bind maps the key to the credential at the front of the order and evicts nothing but, past a positive cap, the back of the order |
| `SessionTable.DropRefines` | internal/session/store.go:175-192 | DropAuth removes exactly the credential's bindings and reports how many |
| `SessionOrder.TableInRuns` | internal/session/store.go:33-51 | In every run each binding is filed once, under its own key, and a positive cap is kept |
| `SessionOrder.OneMapInRuns` | internal/session/store.go:33-51 | In every run the table files exactly one map of composed keys to bindings |
| `SessionOrder.RestoreKeeps` | internal/session/store.go:145-173 | Restore never moves or evicts a held binding, files the restored ones behind them newest first, and reports how many of those are still in the table |
| `SessionOrder.FileAllCovers` | internal/session/store.go:145-173 | Every restorable conversation is bound once filed, by the held binding or by one seen no earlier |
| `SessionOrder.RestoreCovers` | internal/session/store.go:145-173 | A saved binding that names its conversation and credential, was seen by now and is not idle past the TTL has its conversation bound after a restore, by the held binding or one seen no earlier, unless the cap is reached with none restored that was seen before it |
| `SessionOrder.SweepExact` | internal/session/store.go:265-293 | Sweep leaves exactly the unexpired bindings if and only if no expired one is ahead of one the walk stops at |
| `SessionOrder.SweepSound` | internal/session/store.go:274-293 | Sweep removes only expired bindings |
| `SessionOrder.DoInStep` | internal/session/store.go:259-263 | One operation stamped up to d before it took the lock keeps the access order in step to within d |
| `SessionOrder.SweepInRuns` | internal/session/store.go:259-293 | In every run whose stamps lag their locks by at most a minute, Sweep removes every expired binding and only those |
| `SessionOrder.CountExact` | internal/session/store.go:224-249 | The tally less the expired tail equals a full count for every credential if and only if no expired binding is ahead of an unexpired one |
| `SessionOrder.CountInRuns` | internal/session/store.go:224-249 | In every run whose clocks do not run behind their locks the fast count is the number of unexpired bindings of each credential |
| `SessionStore.Store.Lookup` | internal/session/store.go:79-101 | List, index and tally after a lookup describe the specified table |
| `SessionStore.Store.Bind` | internal/session/store.go:109-143 | The same for a bind, rebinding and eviction included |
| `SessionStore.Store.Restore` | internal/session/store.go:152-173 | The same for a restore, with the number it reports |
| `SessionStore.Store.DropAuth` | internal/session/store.go:178-192 | The same for a drop, walking the list from the front |
| `SessionStore.Store.Sweep` | internal/session/store.go:274-293 | The same for a sweep, walking the list from the back and stopping early |
| `SessionStore.Store.CountByAuth` | internal/session/store.go:231-249 | The tally copied and corrected over the expired tail counts the rest exactly |
| `SessionStore.Store.Evict` | internal/session/store.go:316-330 | The eviction loop ends and leaves the front of the order within the cap |
| `SessionStore.Store.Remove` | internal/session/store.go:302-314 | Removing an element keeps list, index and tally describing the same bindings |
| `QuotaRuns.RunsKeepRings` | internal/quota/store.go:38-68 | Every history the store records, live or held, satisfies the ring and span invariants in every state a run from the empty store reaches |
| `QuotaRuns.Runs` | internal/quota/store.go:12-36 | In every state of every run each window was seen, none after its snapshot's instant, each history has one place in the order, and no credential is both live and held |
| `QuotaRuns.NewestReadingWins` | internal/quota/store.go:174-181 | Over any interleaving of usage reads of distinct windows, carrying the window or not, with header merges, refusals, served requests and listings, what the store knows of a window is what a newest-reading register hearing of it in that order knows, the later arrival winning a tie, short of a read that brings the window back from before it was left out |
| `QuotaRuns.NewestFromEmpty` | internal/quota/store.go:296-299 | From the empty store a utilization held is that of one of the run's readings: nothing heard since the window was last lost is later, and all heard after it are earlier readings |
| `QuotaRuns.InstantNeverFalls` | internal/quota/store.go:174-181 | The instant the store has for a window never decreases while no read loses it |
| `QuotaRuns.FetchSlot` | internal/quota/store.go:183-280 | A read of distinct windows is heard as the register hears it if and only if it does not carry a window back that the store holds no value of and has noted later |
| `QuotaRegister.SeenFalls` | internal/quota/store.go:232-252 | The seen instant of a window a read carries falls if and only if the store had it later and holds no value of it |
| `QuotaRuns.BroughtBack` | internal/quota/store.go:232-276 | Where it falls: a run from the empty store whose last read brings a window back from before it was left out |
| `QuotaRegister.RereadOmits` | internal/quota/store.go:253-276 | A window a read leaves out is noted at the later of the read and its last instant when read and window are unscoped and the window is on record, and forgotten otherwise |
| `QuotaRuns.DistinctInRuns` | internal/quota/store.go:332-343 | Over every run whose reads report each window once, the windows of every credential, live or held, stay distinct, however header readings repeat them |
| `QuotaRegister.MergedSlot` | internal/quota/store.go:308-363 | A header merge folds its readings of a window into the register in order and touches no other window's reading |
| `QuotaRegister.PutUpToSlot` | internal/quota/store.go:232-252 | A usage read of distinct windows leaves each window it carries at the store's value where it holds one seen later, and at the read's otherwise |
| `QuotaEffects.OneActive` | internal/quota/store.go:292-294 | A merge in which a reading that counts claims the active flag leaves no other window active |
| `QuotaEffects.MergeKeepsVerdict` | internal/quota/store.go:287-290 | Headers that name no status and no severity for a window cannot blank a rejected or critical one |
| `QuotaEffects.MergeLeavesRing` | internal/quota/store.go:296-300 | A merge records in a window's history only readings of that window that are not late and not derived |
| `QuotaEffects.OmittedRing` | internal/quota/store.go:253-276 | A window a read omits keeps its history, and its ongoing refusal ends as cleared if and only if the read and the window are unscoped ones and the previous such read reported the window |
| `QuotaEffects.RefusalsReach` | internal/quota/store.go:365-408 | Every window a refused request reports as rejected has the refusal inside its newest span, whichever windows come with it, if and only if the refusal does not reach back into an older span and its own new span does not end before the oldest sample |
| `QuotaEffects.ServeReaches` | internal/quota/store.go:429-458 | A served request reaches every window that caps its family once, and no other window |
| `QuotaEffects.ReadStands` | internal/quota/store.go:183-280 | A usage read leaves its windows in its order, each whole, and the store's own in place of one the store has seen since; it takes the newest of their instants, inherits only the identity it omits, and is noted as the latest read if and only if it reports an unscoped window |
| `QuotaEffects.FailureKeeps` | internal/quota/store.go:192-208 | A failed fetch of a live credential leaves its windows, their instants and histories, the change count and every other credential |
| `QuotaEffects.MergeNames` | internal/quota/store.go:90-111 | After a merge a window's status, severity, reset and length are each those of the last reading that counts and names one, and the stored window's where none does |
| `QuotaEffects.ActiveExact` | internal/quota/store.go:318-357 | A merged window is active if and only if the last of its readings that counts says so and no such reading of another window is the last to claim it |
| `QuotaEffects.MergeLeaves` | internal/quota/store.go:308-363 | A merge leaves identity and last error, takes the later instant, and names the headers as source only where no window was on record |
| `QuotaEffects.ExpectedEnd` | internal/quota/store.go:410-427 | A refusal is expected to end at the reset its reading names, else at the stored window's, else after the first length known of the two |
| `QuotaHistories.ReadRecords` | internal/quota/store.go:232-252 | A usage read of distinct windows puts its reading of each into the history held before, at the nearest ten-thousandth, unless the store has seen that window since |
| `QuotaHistories.LevelRounds` | internal/quota/history.go:164-170 | A utilization is recorded at the nearest ten-thousandth, halves away from zero, and not at all unless it is finite |
| `QuotaHistories.ReadApplies` | internal/quota/store.go:232-252 | However a read repeats a window, the history is put each of its readings the store keeps none later of, in order |
| `QuotaHistories.MergedRing` | internal/quota/store.go:296-346 | A header merge puts into a window's history each of its readings that is neither late nor derived, in order |
| `QuotaHistories.RefusalsApply` | internal/quota/store.go:375-408 | A refused request refuses each window its readings report as rejected with a known end, in order, and no other |
| `QuotaHistories.HistoryIsRun` | internal/quota/store.go:38-68 | Over every run from the empty store the history of any window of any credential, live or held, is what the ring's own operations leave from an empty one: one for each reading, refusal, served request and silence that counts since it was last forgotten, and none besides |
| `QuotaHistories.HistoryIsReached` | internal/quota/store.go:38-68 | So every history the store holds is a state of a run of the ring, and the ring's run theorems hold of it |
| `QuotaRuns.CountTellsChanges` | internal/quota/store.go:32-35 | An event that leaves the change count leaves what a save writes, histories and recorded logins, if and only if it is not a listing that forgets held histories |
| `QuotaRuns.SecondAbsenceUncounted` | internal/quota/store.go:499-517 | Where the count falls short of its comment: the second of two listings without a credential forgets its history, and moves the count if and only if it also forgets a login |
| `QuotaRuns.LeavesAndReturns` | internal/quota/store.go:492-498 | A credential that leaves one listing and is back in the next has its entry again exactly; one that stays out is forgotten |
| `QuotaStore.Store.Put` | internal/quota/store.go:183-280 | Put leaves the specified store; a failed one changes only the error and the identity fields |
| `QuotaStore.Store.MergeHeaders` | internal/quota/store.go:308-363 | MergeHeaders leaves the specified store, resuming a held reading where there is no entry |
| `QuotaStore.Store.RecordRefusals` | internal/quota/store.go:375-408 | Every rejected reading is offered to its window's spans, and the count moves once a change |
| `QuotaStore.Store.MarkServed` | internal/quota/store.go:437-458 | Every window that caps the family keeps the admission, and the count moves once if a span changed |
| `QuotaStore.Store.Prune` | internal/quota/store.go:499-527 | The three loops of Prune leave the specified maps and count |
| `QuotaStore.Store.Restore` | internal/quota/store.go:151-168 | Restore makes exactly the listed, held readings live and reports their snapshots |
| `Pace.TargetRises` | internal/pace/pace.go:27-37 | On a shape rising from 0 to 1 the target rises from 0 and never passes full |
| `Pace.TargetExact` | internal/pace/pace.go:27-37 | Between its ends the target is the landing share of the shape until that is full, and past them what it is there |
| `Pace.ScoreAuth` | internal/pace/pace.go:96-163 | The scoring loop computes the weighted overrun, and names the gravest reason a bearing window gives: rejected, unreadable, spent |
| `Pace.IsSessionOnly` | internal/pace/pace.go:170-184 | True exactly when a session window is present and no other window bears on the family |
| `Pace.BetterTotal` | internal/pace/pace.go:271-290 | Scores of distinct credentials are totally and strictly ordered, NaN costs included |
| `Pace.BetterChain` | internal/pace/pace.go:271-290 | The order is transitive, NaN and infinite costs included |
| `Pace.ArrangedOnce` | internal/pace/pace.go:271-290 | A set of scores has exactly one sorted arrangement |
| `Pace.RankingOfSet` | internal/pace/pace.go:200-231 | A ranking depends on the set of candidates alone, not their order or repeats |
| `Pace.Rank` | internal/pace/pace.go:209-231 | Rank returns the one arrangement of the deduplicated candidates' scores |
| `Pace.RankWithStaleness` | internal/pace/pace.go:252-269 | Ranking without the stale readings and then naming them stale is the arrangement of the gated scores |
| `Pace.BestIsHead` | internal/pace/pace.go:292-306 | Best of a ranking is its head when the head is eligible, and none otherwise |
| `Pace.RankedBy` | internal/pace/pace.go:271-290 | Of any two scores of a ranking the eligible one stands first, then the one only a session limits, then the lower number, with NaN last, then the lower id |
| `Pace.HeadUndercut` | internal/pace/pace.go:200-231 | The head of a ranking is an eligible candidate that no eligible one undercuts, the lowest id of those it is level with |
| `Pace.EligibleExact` | internal/pace/pace.go:96-163 | A credential can take the model if and only if its reading is fresh and has a bearing window, none of them refused, full or unreadable |
| `Pace.ScoreExact` | internal/pace/pace.go:96-184 | A fresh credential costs what its own windows do, and only a session limits it if and only if a usage read says so: a session window and no other that bears on the model |
| `Pace.CostRate` | internal/pace/pace.go:186-198 | A rise of one window's utilization raises the cost by the rise times the rate of its kind, and by nothing where it has no reset or length or bears on another family |
| `Pace.CostAtTarget` | internal/pace/pace.go:75-95 | A seat with every window at its target costs nothing |
| `Pace.CostFalls` | internal/pace/pace.go:75-95 | On a rising shape a seat that is not used never costs more as time passes |
| `Pace.ElapsedExact` | internal/model/types.go:97-115 | The elapsed share of a window is the time since it opened, within its length, over its length |
| `Pace.FamilyExact` | internal/model/types.go:40-56 | A model or scope belongs to the first listed family it names in any case, and to none if and only if it names none |
| `Scheduler.LeastBoundIsLeast` | internal/runtime/scheduler.go:368-390 | The fallback home is a candidate preferred to every other: not refused first, then fewest live bindings, then lowest id |
| `Scheduler.HeadOfRanking` | internal/runtime/scheduler.go:278-304 | The head of a ranking is an eligible candidate, and there is none only when no candidate is eligible |
| `Routing.RouteKeeps` | internal/runtime/scheduler.go:90-115 | A pick moves no binding but its own key's, pinned picks move none, and a handled pick that may bind leaves the key live on the credential answered |
| `Routing.RouteSticks` | internal/runtime/scheduler.go:188-248 | A live binding on an offered credential is answered whatever the scores, unless the model is refused there and another candidate can take it |
| `Routing.RunSticks` | internal/runtime/scheduler.go:90-115 | Over whole runs of picks, sweeps and drops a conversation that stays bound stays where it was, and each of its own picks that the plugin decides answers there |
| `Routing.RouteAnswersOffered` | internal/runtime/scheduler.go:146-184 | A handled pick answers an offered candidate, never the one that just failed |
| `Routing.RouteOfSet` | internal/runtime/scheduler.go:374-390 | Any reordering or repetition of the candidates leaves the answer, the decision and the table as they were |
| `Routing.FailoverLeaves` | internal/runtime/scheduler.go:209-230 | With a better home open, a failover from a refused seat answers a candidate neither refused nor full, and leaves the seat if and only if its reading is fresh, some candidate is eligible, or another is preferred as the least bound |
| `Routing.StaleSeatChosenAgain` | internal/runtime/scheduler.go:278-304 | Why freshness is needed: under the default limits a refused seat with a stale reading is answered again |
| `Routing.RouteChooses` | internal/runtime/scheduler.go:278-304 | A pick with no home to keep, whether the conversation is moved off one or has none, answers an eligible candidate that no eligible one undercuts, and when none is eligible one neither refused nor full if there is such, fewest conversations first; it is recorded as a failover from the home left if and only if there was one and the request is not pinned |
| `Routing.CountsAreLive` | internal/runtime/scheduler.go:278-304 | In an order in step the count the fallback weighs is the number of the credential's unexpired bindings |
| `Routing.StickTouches` | internal/runtime/scheduler.go:188-248 | A kept binding is recorded as such and refreshed, and a subagent's request refreshes its parent's live binding with it |
| `Routing.ChildFollowsParent` | internal/runtime/scheduler.go:250-274 | A child with no live binding of its own is answered with its parent's live credential when that is offered and not refused, and unless pinned is bound there |
| `Routing.DisplacedExact` | internal/runtime/scheduler.go:209-230 | A live conversation has to leave an offered seat if and only if a bearing window there is refused and another candidate's reading does not show it refused or full |
| `Routing.GoneExact` | internal/runtime/scheduler.go:81-90 | A candidate counts as refused or full if and only if its reading is fresh and a bearing window is refused, or all can be read and one is full |
| `Routing.HandledExact` | internal/runtime/scheduler.go:132-184 | A pick is handled if and only if the plugin is enabled, route and model are its own, a candidate is offered, and the request has a conversation or a candidate is eligible |
| `Plugin.Plugin.Pick` | internal/runtime/scheduler.go:116-184 | The pick leaves the binding table, the decision log and the answer the routing specification gives |
| `Plugin.Plugin.FollowBinding` | internal/runtime/scheduler.go:188-248 | The affinity rule, over the mutable table |
| `Plugin.Plugin.FollowParent` | internal/runtime/scheduler.go:250-274 | The parent rule, over the mutable table |
| `Plugin.Plugin.PickAfresh` | internal/runtime/scheduler.go:278-304 | The cold pick, over the mutable table |
| `Plugin.LeastBoundId` | internal/runtime/scheduler.go:374-390 | The loop over the sorted ids finds the preferred home |
| `Plugin.IsBlocked` | internal/runtime/scheduler.go:357-366 | True exactly when the credential's snapshot holds a rejected window bearing on the model |
| `Decisions.DecisionLog.Add` | internal/runtime/decisions.go:26-35 | add appends to the sequence the log keeps and drops the oldest past the capacity |
| `Decisions.DecisionLog.NewestFirst` | internal/runtime/decisions.go:37-56 | newestFirst is the kept sequence reversed |
| `Decisions.DecisionLog.Resize` | internal/runtime/decisions.go:58-86 | resize keeps exactly the newest entries that fit |
| `Decisions.LogIsNewest` | internal/runtime/decisions.go:10-18 | After any run of adds and resizes the log holds the newest decisions, as many as every capacity since has left room for |
| `Poller.NextPollWait` | internal/runtime/poller.go:347-363 | The wait is within the interval and past no reset ahead by more than four seconds, or the floor of thirty; it is short of the interval only where some reset ahead attains that bound |
| `Poller.WakesOnce` | internal/runtime/poller.go:347-363 | That leaves one wait for each set of resets |
| `Poller.ChargesIncrease` | internal/runtime/poller.go:334-341 | Every shortened wake is charged to a reset later than any charged before, and every other one spans the interval |
| `Poller.PollsBounded` | internal/runtime/poller.go:343-346 | A run polls at most once an interval, once a distinct reset, and once more |
| `Poller.ResetIsRead` | internal/runtime/poller.go:325-346 | In every run, a reset that stays on record while it is ahead is read once it has passed: the first poll at or after it comes within four seconds of it, or thirty of the poll before, and however late polls run |

## Left out

- The shared-library shim, host callbacks, HTTP, goroutines, files and JSON: I/O.
- The status page, its redaction and the development harness.
- Session identity extraction, header and usage-payload parsing, the folding of a provider name and whether a model is governed: string work ahead of the model; parsed windows and opaque keys are inputs.
- The credential cooldown and login records: their conditions mirror their comments. Of logins the snapshot store keeps only which credentials have one, for what Prune does with them.
- Importing saved histories over a live ring, and saved readings into the held ones: arbitrary saved input keeps neither disjoint spans nor the admission order.
- `SessionOrder.SweepInRuns`: runs start with a restore into an empty table, as the program's do; a restore into a table in use is covered by `RestoreKeeps` alone.
- `QuotaRuns.NewestReadingWins`: a read that leaves a window out drops the instant the store had for it when the window is a family cap or not on record, or the read reports no unscoped window, so the register starts over there; a listing without the credential ends the run.
- `HistoryCompaction.CompactionCommutes`: assumes that no intermediate ring passes the cap of 2600 samples; what happens past it is `CompactKeepsNewest`.
- `Poller.PollsBounded`: one interval for the whole run, and no forced reads; the bookkeeping of the poll loop around the wait is not modelled.
- `Poller.ResetIsRead`: the same, and that each poll runs within a lag of when it falls due.
- `QuotaStore.Store.Put`: entries are values the store's maps hold, so sharing a history between a replaced entry and its successor is not modelled.
- Note texts on decisions, the warning about a single candidate, and the listing order of All.
- Floating-point rounding, saturation of Go durations, and Unicode case folding: ids and names fold as ASCII.
