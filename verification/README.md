# Verified model of the capacity dashboard's data collection

The repository collects Azure cost, capacity and Activity Log data on a schedule, keeps it in
tables and blobs, and serves it. This project models the parts whose correctness is about whole
runs: what a failed refresh leaves behind, who may start a run, which snapshot a reader gets while
someone publishes, what a coverage record may claim. Each Dafny module stands for one or two source
files and imports only helpers and the modules whose state it builds on.

| module | what it models |
|---|---|
| `UsageRefresh` | planning, paging and committing a daily-usage refresh, and every history of runs |
| `UsageStorage`, `UsageView`, `UsageRollup` | daily rows, their 30-slot projection, the view read from it, group and chart totals |
| `ClaimProtocol`, `RunStateStore` | the claim on a pipeline's run-state row, call by call, under any interleaving |
| `Cadence`, `Dispatching` | the fixed dispatch grid, the tick, contention groups |
| `RunHistory`, `Decimals` | run-history keys, closing and paging |
| `SnapshotCache`, `SkuIndex` | immutable snapshots behind a manifest, ETag and time-to-live caches, SKU indexes |
| `ContextPublish` | publishing a Business Context refresh with crashes after any write |
| `ActivityCoverage`, `Assembly`, `Reconcile`, `Projection` | Activity Log windows, operation assembly, bounded reconciliation, projecting events |
| `ChunkCodec`, `ZoneFanout`, `ReservationJoin` | chunked JSON arrays, the zone-mapping retry loop, the VM/reservation join |
| `Options`, `Text` | an option type; ASCII stripping, lower-casing and sorting |

Storage and Durable calls are atomic steps with arbitrary outcomes. Where source code changes an
object, the model is a class whose methods are proved against functions; properties over histories
are lemmas about those functions.

Six claims one might expect turn out false of the code, and are given with the exact condition
under which they hold: that a refresh always leaves a true state record
(`UsageRefresh.SuccessIsTruthfulExactlyWhenSafe`,
`UsageRefresh.FailureIsTruthfulExactlyWithoutDeletions`), that at most one run of a pipeline is
unfinished (`ClaimProtocol.ClearIsSafeExactlyWhenItSpares`; the header of
`services/data_collection/dispatcher.py` states it without the condition), that the projection
always matches the daily table (`UsageStorage.ProjectionStaysRightExactlyInPlace`: it does not after
a row dated past its page's horizon, nor after one written at a horizon that moved back), that
the view shows every covered day's usage (`UsageView.DayIsShownExactlyUnlessOvertaken`,
`UsageView.RewrittenDayIsShownExactlyWhenEqual`), that an Activity Log window leaves no hole
(`ActivityCoverage.SuccessIsTruthfulExactlyWithoutAGap`), and that every reconciliation lowers the
number of pending rows (`Reconcile.RunDrainsExactlyWhenClearAndNothingStays`). The last fails in two
ways. A pending operation last seen at a time without a UTC offset makes the age test of
`services/activity_log/pipeline.py` raise TypeError where only ValueError is caught, and every run
of its subscription then ends before it writes anything (`Reconcile.StoredLocalTimeBlocks`). And an
event whose embedded JSON text nests deeper than the interpreter's recursion limit makes the decoder
raise RecursionError, which `services/activity_log/projection.py` does not take for a malformed text
but for a projection to be tried again (`Projection.NestedBodyIsNeverDrained`).

`dafny verify dfyconfig.toml` checks the whole project.

## Model

| member | source | states |
|---|---|---|
| UsageRefresh.WorkUnits | services/usage_refresh.py:246-284 | the units of a plan are those of its loads, load by load: one per subscription in sorted order and none twice, or one filtered or unfiltered unit, none for an empty range |
| UsageRefresh.UnitsCoverTheLoad | services/usage_refresh.py:246-270 | splitting a load into units neither adds nor loses a (subscription, day) |
| UsageRefresh.RefusedExactly | services/usage_refresh.py:197-206 | with a prior record a plan is refused if and only if method, account or profile differs, or exactly one of record and scope is the whole profile; the former is the structural reason, and it wins |
| UsageRefresh.FirstPlanLoadsTheHistory | services/usage_refresh.py:307-310 | without a record the plan loads and claims exactly the last historicalDays of the scope, deleting nothing |
| UsageRefresh.CurrentPlanLoadsExactly | services/usage_refresh.py:335-353 | with a current record a (subject, day) is loaded if and only if the scope covers it, the day is not after the finalized one, and it is after the record's end or, for a newcomer, not before the record's start |
| UsageRefresh.RebuildLoadsExactly | services/usage_refresh.py:321-333 | with a projection to rebuild, exactly the record's newest 30 days up to the finalized day are loaded, for the whole scope |
| UsageRefresh.PlanDeletesAndClaims | services/usage_refresh.py:331-353 | exactly the subscriptions that left the scope are deleted, the new record claims the scope from the old start to the later end, and each reason is given exactly in its case |
| UsageRefresh.LoadsAreInPlaceExactly | services/usage_refresh.py:301-353 | every day a plan may load is in its place for the projection if and only if the finalized day did not move back or every load starts after it or within the newest 30 days |
| UsageRefresh.NewClaimIsLoaded | services/usage_refresh.py:312-353 | whatever a safe plan's new state claims beyond the old one, the plan loads |
| UsageRefresh.ClaimIsKept | services/usage_refresh.py:331-353 | a plan deletes nothing its new state claims |
| UsageRefresh.SafeRunsStayTruthful | services/usage_refresh.py:292-353 | from a truthful record, a successful safe run ends in a truthful record |
| UsageRefresh.UnsafeRunLeavesAGap | services/usage_refresh.py:313-353 | an unsafe run claims a concrete day of a concrete subscription that nobody loaded |
| UsageRefresh.SuccessIsTruthfulExactlyWhenSafe | services/usage_refresh.py:292-353 | for all loaded sets: success keeps the record true if and only if the finalized day did not move back for newcomers and a projection rebuild reaches back far enough for newcomers and stayers |
| UsageRefresh.FailureIsTruthfulExactlyWithoutDeletions | functions/_durable.py:58-117 | a failed run leaves the old record true if and only if its plan deleted nothing |
| UsageRefresh.RunKeepsInv | functions/_durable.py:48-134 | each refresh, failed or not, a successful one being safe, keeps: every claimed cell outside the exception set is loaded, and every exception is a real one |
| UsageRefresh.CoverageIsTrueExceptTheLost | functions/_durable.py:48-134 | over every history of refreshes, projection upgrades and flushes whose successful refreshes are safe and whose finalized day does not move back: the claimed days of every subscription no failed run deleted are loaded in both metrics, and the record is wholly true exactly when nothing deleted is outstanding |
| UsageRefresh.SuccessUnderTheSameScopeRepairs | functions/_durable.py:111-117 | if the scope is unchanged from the first of any failures to the next safe success, that success leaves nothing lost |
| UsageRefresh.MapPageRecords | services/usage_refresh.py:89-123 | the page's records, in order, are exactly those of its rows with a resource and a day: hours the row's quantity and cost the row's cost, zero without one, each exactly if the stream carries it; the resource's subscription and the row's currency |
| UsageRefresh.StreamsShareNothing | services/usage_refresh.py:48-54 | the records of an MCA stream carry both metrics, those of an EA stream exactly one, so that neither zeroes the other's |
| UsageRefresh.AfterIsTheNextSegment | services/usage_refresh.py:89-95 | a resource's subscription is the segment after the first one named so, and absent exactly when none is followed by another |
| UsageRefresh.SegmentsAreTheString | services/usage_refresh.py:89-95 | the segments hold no slash and joined by slashes are the resource id |
| UsageRefresh.EachCellIsItsOwnStreams | services/usage_refresh.py:98-123 | whatever pages of whichever stream landed, in any order and number of times, each daily cell holds what its own stream's row says, its quantity or its cost, and cells without a page keep their value |
| UsageRefresh.LoadUnit | functions/_durable.py:71-109 | the page loop ends (pages left, throttles left) and reports success exactly when every stream lands |
| UsageRefresh.LandsExactlyWhenEveryPageComes | functions/_durable.py:76-106 | a stream lands if and only if every page up to the last is answered after at most 60 consecutive throttles and no error |
| UsageRefresh.AllMetricsLand | services/usage_refresh.py:48-54 | the streams of either agreement together fill both hours and cost |
| UsageRefresh.UnitsAreTheLoads | services/usage_refresh.py:272-284 | the cells of all units are exactly the cells of all loads |
| UsageRefresh.RefreshPipeline.RunRefresh | functions/_durable.py:48-134 | one orchestration is one event of the history: refused exactly when the plan is and with its reason, changing nothing but the horizon; otherwise what is loaded is what landed and what was there of the subscriptions not deleted, the record is replaced exactly when every unit landed, and the run has failed exactly when none did |
| UsageRefresh.RefreshPipeline.RunFlush | functions/_durable.py:137-162 | a flush empties data and record together and keeps the invariant |
| UsageStorage.MergeKeepsRefines | storage/usage_store.py:184-233 | upserting one record keeps every day of the 30-day window reading the same from its slot as from the daily row |
| UsageStorage.HorizonMoves | storage/usage_store.py:190-202 | the window may advance by any number of days: days entering it have neither rows nor tags |
| UsageStorage.ProjectsExactly | storage/usage_store.py:184-222 | a record changes the projection only if it names a resource with a subscription and its day is among the 30 up to the horizon; then its values are in the slot of the day modulo 30 under that day's date, hours and cost each in its own, and no other row changes |
| UsageStorage.WritesKeepRefines | storage/usage_store.py:134-233 | any history of rows in their place, at horizons moving forward or back, keeps the projection a refinement of the daily table up to the newest horizon |
| UsageStorage.TagsNeverMoveBack | storage/usage_store.py:213-222 | in a row whose dates are not after the current horizon, a slot's date never goes backwards |
| UsageStorage.ProjectionStaysRightExactlyInPlace | storage/usage_store.py:190-202 | a row written at any horizon leaves every store that is right up to its newest horizon right from the later of both on if and only if its day is in its place: too old for its own horizon, or not after it exactly when within the newest 30 days |
| UsageStorage.ProjectionStaysRightExactlyInPlaceOrHarmless | storage/usage_store.py:190-222 | and store by store: if and only if it is in its place, or each value it carries took an empty slot or was there already |
| UsageStorage.EachMetricIsItsStreams | storage/usage_store.py:134-182 | whatever the page split, stream order and replays, each cell ends as its own stream has it and other cells keep their value |
| UsageStorage.SameRowsSameTable | storage/usage_store.py:142-182 | two loads that landed the same rows leave the same table |
| UsageStorage.GatherOne | storage/usage_store.py:194-222 | gathering a page's rows per entity and merging once is merging them one by one |
| UsageStorage.UsageStore.UpsertDailyRecords | storage/usage_store.py:134-182 | the daily table and projection after a page are the records merged in order; the refinement is kept if every record is in its place |
| UsageStorage.UsageStore.UpsertSummaryRecords | storage/usage_store.py:184-233 | the batched projection upsert equals tagging record by record |
| UsageStorage.UsageStore.DeleteSubscriptionsData | storage/usage_store.py:259-294 | exactly the given subscriptions' daily and projection rows go, and a refinement stays one |
| UsageStorage.DeletionKeepsRefines | storage/usage_store.py:259-294 | dropping a subscription from both tables keeps every remaining day reading the same from its slot as from the daily row |
| UsageView.Summarise | services/cr_usage.py:135-169 | a row's 30 days of hours and of cost, and the rolling totals of each; rows without a value in the window are dropped |
| UsageView.DroppedRowsLookEmpty | services/cr_usage.py:185-202 | what the view would show for a dropped or unwritten resource is exactly `empty_usage` |
| UsageView.UnavailableIsMissing | services/cr_usage.py:185-202 | without a current projection every day and every total is missing |
| UsageView.ViewShowsTheDailyRows | services/cr_usage.py:139-155 | each covered day of the last 30 up to the horizon shows the daily row's value, zero without one; a day before coverage shows none |
| UsageView.NoDayShowsAnothers | services/cr_usage.py:147-152 | from empty tables, by any pages at any horizons: a value other than zero was landed for the very resource, metric and day it is shown for |
| UsageView.SlotIsItsLastTakers | storage/usage_store.py:213-222 | after any pages at any horizons a slot holds what the last row to take it wrote, or what it held before |
| UsageView.DayIsShownExactlyUnlessOvertaken | services/cr_usage.py:147-152 | a covered day shows its daily row's value after any pages of other days, each at any horizon, if and only if none of them took its slot, or it has no usage |
| UsageView.RewrittenDayIsShownExactlyWhenEqual | services/cr_usage.py:147-152 | and if the pages may rewrite it, if and only if the last row to carry the day and the last to take its slot amount to the same |
| UsageView.OvertakenDayShowsZero | services/cr_usage.py:117-152 | a failed refresh after which a covered day with two hours of usage shows zero |
| UsageView.MovedBackHorizonShowsZero | services/cr_usage.py:117-152 | a raised finalization lag and a projection rebuild after which the last covered day, with five hours of usage, shows zero |
| UsageRollup.SumUsageValues | web/js/features/odcr-usage-model.js:70-80 | day by day, the start values plus every row's present values |
| UsageRollup.TotalAddsUp | web/js/features/odcr-usage-model.js:70-80 | a day's total is the sum of what the rows have, and missing only if the start and all rows are |
| UsageRollup.RollingIsShown | web/js/features/odcr-usage-model.js:82-86 | a group's rolling total is shown if and only if every day of its window is covered or has some value |
| UsageRollup.RollingIsTheSum | web/js/features/odcr-usage-model.js:82-86 | a total over one day more is that day's value and the total of the others, and missing with either |
| UsageRollup.ChildrenAreTheGroups | web/js/features/odcr-usage-model.js:102-115 | a group's children are exactly the reservations that name it, each as often as there are |
| UsageRollup.RollingConserves | web/js/features/odcr-usage-model.js:117-130 | with one coverage pattern a group's rolling total is the sum of its children's rolling totals, or missing with them |
| UsageRollup.BuildGroupRows | web/js/features/odcr-usage-model.js:102-132 | each group's row adds up its own reservations: each day's hours and cost, rolling totals of each over 1, 7 and 30 of its own days, the number of live reservations and what they reserve |
| UsageRollup.BuildChart | web/js/features/odcr-usage-model.js:44-68 | chart groups are ordered by falling spend, then name, one per key; each has its first row's name, and its days and spend are the sums of its key's rows; together they sum to the rows day by day and in spend |
| ClaimProtocol.ActionKeepsInv | storage/scheduler_state_store.py:59-153 | every storage or status call of any coroutine keeps the protocol invariant |
| ClaimProtocol.StartAlone | services/data_collection/dispatcher.py:366-420 | a start no other coroutine interrupts launches and records exactly one run if the row is idle, absent or names a run that is over, and changes nothing if it names a placeholder or an unfinished run |
| ClaimProtocol.FailedLaunchGivesTheClaimBack | services/data_collection/dispatcher.py:391-399 | left alone after a launch that raised, a start leaves no new run and an idle row |
| ClaimProtocol.CompletionEmptiesTheRow | services/data_collection/dispatcher.py:618-629 | left alone, the completion of a run leaves the row idle |
| ClaimProtocol.LookHealsTheDead | services/data_collection/dispatcher.py:598-616 | left alone, a look at a run leaves the row idle if the run is over, and as it was if not |
| ClaimProtocol.ClaimsAlternate | storage/scheduler_state_store.py:59-153 | over every interleaving of any number of callers, two successful claims have a clear between them |
| ClaimProtocol.ActionKeepsTracked | services/data_collection/dispatcher.py:385-420 | while clears wipe no live claim, the row names whoever is launching or running |
| ClaimProtocol.SparingClearsExclude | services/data_collection/dispatcher.py:366-420 | if no clear wipes a live claim, at most one launched run of the pipeline is unfinished |
| ClaimProtocol.MatchingClearSpares | services/data_collection/dispatcher.py:607-629 | a clear that finds the row idle or still holding the instance or placeholder its caller read wipes no live claim |
| ClaimProtocol.LateSetterThenTwo | storage/scheduler_state_store.py:118-123 | a late `set_active_instance` for a run already over can lead to two unfinished runs |
| ClaimProtocol.StrikeLeadsToTwo | storage/scheduler_state_store.py:133-153 | from every reachable state, a clear that wipes a live claim can be continued to two unfinished runs |
| ClaimProtocol.ClearIsSafeExactlyWhenItSpares | storage/scheduler_state_store.py:133-153 | a clear is followed by at most one unfinished run in every continuation if and only if it wipes no live claim |
| ClaimProtocol.TwoHealersBothLaunch | services/data_collection/dispatcher.py:405-420 | a trace from the empty table on which two coroutines heal the same dead run and both launch |
| RunStateStore.SchedulerStateStore.ClaimByCreate | storage/scheduler_state_store.py:81-95 | insert-if-absent wins exactly when the row is still absent, and is the protocol's step |
| RunStateStore.SchedulerStateStore.ClaimByUpdate | storage/scheduler_state_store.py:97-116 | the conditional update wins exactly when the row read idle and its ETag is unchanged, keeps outcome fields, and is the protocol's step |
| RunStateStore.SchedulerStateStore.SetActiveInstance | storage/scheduler_state_store.py:118-123 | the merge writes the instance id alone, whatever the row holds |
| RunStateStore.SchedulerStateStore.ClearActive | storage/scheduler_state_store.py:133-153 | the replace drops instance and action and keeps what was read of the rest, whatever the row holds by then |
| RunStateStore.SchedulerStateStore.ClearOverAClaim | storage/scheduler_state_store.py:133-153 | a clear whose read came before a claim puts the older dispatch time back |
| Cadence.SlotIsTheGridCell | services/data_collection/cadence.py:17-25 | the slot is the last point of the anchored grid at or before now |
| Cadence.DueExactlyWhenAGridPointHasCome | services/data_collection/cadence.py:28-42 | a pipeline is due if and only if it has a frequency and has never run, or some grid point lies after its last dispatch and not after now |
| Cadence.DueFromTheNextGridPoint | services/data_collection/cadence.py:28-42 | a pipeline is due if and only if the grid point after its last dispatch's slot has come |
| Cadence.DueByTheDisplayedTime | services/data_collection/dispatcher.py:201-204 | it is always due by the displayed last dispatch plus one period |
| Cadence.DueMeansALaterSlot | services/data_collection/cadence.py:28-42 | a time recorded after a due test lies in a later slot than the last one, even if it crosses a boundary |
| Dispatching.TickRecords | services/data_collection/dispatcher.py:389-390 | a tick leaves a pipeline's recorded time, or replaces it while due by the time its launch was tried at |
| Dispatching.RecordedSlotsStrictlyIncrease | services/data_collection/dispatcher.py:525-596 | over any sequence of ticks, completions and deaths under one configuration, a pipeline's recorded times lie in strictly increasing slots |
| Dispatching.TickServesTheUnblocked | services/data_collection/dispatcher.py:537-578 | a tick that finds a pipeline enabled and idle with idle mates, and neither stops at its cap nor starts a mate, leaves a dispatch on record at or after the start of its slot, a new one if it was due |
| Dispatching.EveryUnblockedSlotIsServed | services/data_collection/dispatcher.py:525-578 | and such a dispatch stays on record whatever ticks, completions and deaths follow |
| Dispatching.Dispatcher.ScopeBusy | services/data_collection/dispatcher.py:405-420 | busy exactly when the row holds a placeholder or an instance Durable reports as not terminal, and then no row changes; otherwise the row is left idle and every other row as it was |
| Dispatching.Dispatcher.ContentionBlocked | services/data_collection/dispatcher.py:580-596 | blocked exactly when the group started this tick or a mate's row holds a placeholder or a live instance, healing mates on the way |
| Dispatching.Dispatcher.Start | services/data_collection/dispatcher.py:366-403 | starts exactly when the row holds neither a placeholder nor a live instance and the launch does not raise; the row then holds the new instance, or after a raise nothing, and either way the dispatch time |
| Dispatching.Dispatcher.DispatchPipeline | services/data_collection/dispatcher.py:559-578 | one pipeline's dispatch is the specification's, in the source's order of gates |
| Dispatching.Dispatcher.ReconcileRows | services/data_collection/dispatcher.py:528-535 | a row that is idle or holds a placeholder or a live instance is left as it is, and the active field of every other row is emptied |
| Dispatching.Dispatcher.RunTick | services/data_collection/dispatcher.py:525-557 | the tick's new state and the pipelines started are the specification's |
| Dispatching.ContendView | services/data_collection/dispatcher.py:580-596 | looking for a busy mate finds one exactly when there is one, and changes nothing that can be observed |
| Dispatching.StartableExactly | services/data_collection/dispatcher.py:559-596 | a pipeline is startable if and only if it is enabled, a grid point came since its last dispatch or there was none, its own row and its mates' hold no placeholder and no live instance, and its launch does not raise |
| Dispatching.SweepStartsTheChosen | services/data_collection/dispatcher.py:537-551 | the state-changing sweep starts exactly what a choice made once in the tick's first state would |
| Dispatching.ChosenIsSafe | services/data_collection/dispatcher.py:537-596 | only enabled, due, idle pipelines with idle mates, in priority order, at most the cap, one per group |
| Dispatching.ChosenIsComplete | services/data_collection/dispatcher.py:537-551 | nothing startable is passed over except for the cap or a started mate of at least its priority |
| Dispatching.TickStartsTheRightPipelines | services/data_collection/dispatcher.py:525-596 | for every registry, configuration, run state and launch failure: only enabled, due pipelines whose own and mates' rows hold no placeholder and no live instance and whose launch does not raise, in priority order, at most the cap, one per group; and none of them is passed over except for the cap or a started mate of at least its priority |
| Dispatching.FailedLaunchUsesUpItsSlot | services/data_collection/dispatcher.py:389-399 | a launch that raises leaves the pipeline idle but not due before the next grid point |
| Dispatching.OneRunPerContentionGroup | services/data_collection/dispatcher.py:525-596 | over any sequence of ticks, completions and deaths, at most one run per pipeline and contention group is unfinished |
| RunHistory.KeysOrderNewestFirst | storage/scheduler_history_store.py:24-26 | row keys compare exactly opposite to start milliseconds, ties by suffix |
| RunHistory.HistoryTable.OpenRow | storage/scheduler_history_store.py:48-67 | exactly one running row is added in key order, or nothing if the key exists |
| RunHistory.HistoryTable.CloseByInstance | storage/scheduler_history_store.py:69-97 | exactly the instance's rows still running get the outcome and the completion time; it reports whether there were any |
| RunHistory.FirstCloseStands | storage/scheduler_history_store.py:69-97 | a second close of the same instance changes nothing |
| RunHistory.HistoryTable.ListByPipeline | storage/scheduler_history_store.py:99-113 | a page is the first rows after the continuation, as many as the limit or all there are, and one if the limit is less |
| RunHistory.FollowingAreTheGreater | storage/scheduler_history_store.py:99-113 | the rows after a continuation are those of greater key, or all of them without one, in their order |
| RunHistory.HistoryTable.History | services/data_collection/dispatcher.py:274-312 | a page and a continuation that is absent once a page comes back short or empty |
| RunHistory.PageLeavesTheRest | services/data_collection/dispatcher.py:274-312 | what follows a page's continuation is exactly what the page left |
| RunHistory.HistoryTable.ReadAll | services/data_collection/dispatcher.py:274-312 | following continuations until null returns every row of a static table exactly once, in key order |
| RunHistory.KeyOrderIsNewestFirst | storage/scheduler_history_store.py:99-113 | that order is newest first |
| SnapshotCache.RenewalWasCurrent | storage/reference_data_store.py:125-131 | a snapshot renewed on an equal ETag was current since the renewing call began, even if a publisher slipped in before the comparison |
| SnapshotCache.ReadAlone | storage/reference_data_store.py:111-146 | an uninterrupted read answers with the unexpired entry, and otherwise with what the manifest names, which is then cached for another time-to-live |
| SnapshotCache.DownloadsExactlyOnAnotherTag | storage/reference_data_store.py:125-146 | an uninterrupted read that asks downloads if and only if the cached snapshot is not under the manifest's ETag |
| SnapshotCache.PublishAlone | storage/reference_data_store.py:67-109 | an uninterrupted publisher's snapshot is the one named afterwards, and cached under its own ETag if that is known |
| SnapshotCache.StepKeepsInv | storage/reference_data_store.py:67-146 | every step of any reader, publisher or other process keeps: a cached entry holds the snapshot of a version at least as new as its ETag, which was current during its fill |
| SnapshotCache.EtagAgreesWithStorage | storage/subscription_context_store.py:423-440 | over every interleaving, if the manifest's ETag is the cached one then the cached snapshot is the published one |
| SnapshotCache.AnswersWereCurrent | storage/compute_sku_store.py:125-146 | a read that asked storage answers with what was current at some instant of the call |
| SnapshotCache.HitsAreRecent | storage/reference_data_store.py:111-146 | a time-to-live hit answers with what was current between the start of the fill or renewal that installed it and that installation, less than the time-to-live ago |
| SnapshotCache.PublisherSlipsIn | storage/reference_data_store.py:120-146 | an interleaving after which the entry holds a newer snapshot than its ETag names |
| SkuIndex.ComputeSkuStore.SetCache | storage/compute_sku_store.py:59-76 | the three indexes are exactly those of the snapshot: rows in order by name and by location, the last row by pair |
| SkuIndex.AdmitsExactly | storage/compute_sku_store.py:59-76 | a row is indexed under a name, a location or a pair if and only if it has both and they are those once stripped and lower-cased |
| SkuIndex.ComputeSkuStore.Snapshot | storage/compute_sku_store.py:125-146 | what storage names is served, from the cache on an equal ETag |
| SkuIndex.ComputeSkuStore.Find | storage/compute_sku_store.py:148-161 | a lookup answers from the catalogue by lower-cased arguments, errors when asked nothing |
| SkuIndex.ComputeSkuStore.FindPairs | storage/compute_sku_store.py:163-186 | exactly the asked pairs with a row are found, each with its last; errors name every pair |
| SkuIndex.AskedExactly | storage/compute_sku_store.py:163-186 | the pairs looked up are the given ones, stripped and lower-cased, that have both parts |
| SkuIndex.WhereKeepsTheAdmitted | storage/compute_sku_store.py:63-70 | an index entry holds each matching row as often as the catalogue does and no other |
| SkuIndex.PaddedNamesAreNotFound | storage/compute_sku_store.py:153-161 | `find` with a padded name finds nothing, whatever the catalogue |
| ContextPublish.PlanHasTheEffect | storage/subscription_context_store.py:261-311 | the writes in order add up to the new definitions, sources, snapshot and manifest |
| ContextPublish.StopsExactly | storage/subscription_context_store.py:268-279 | an attempt writes nothing for a conflict if and only if the manifest is readable, the run is not served yet, and some expected key has no definition of that key and revision; for a published run exactly if readers are served its generation; and as unreadable exactly if the manifest names a snapshot that is not there |
| ContextPublish.CrashThenRerun | storage/subscription_context_store.py:261-311 | stopping after any write and running again ends as an uninterrupted run does; after the manifest write a rerun changes nothing |
| ContextPublish.AnyNumberOfCrashes | storage/subscription_context_store.py:261-311 | so do any number of crashed attempts, which also never change what readers are served |
| ContextPublish.ReadersSeeOldOrNew | storage/subscription_context_store.py:355-421 | after each single write readers resolve the whole old snapshot, and after the last the whole new one |
| ContextPublish.FinishedRunServesTheUpdates | storage/subscription_context_store.py:281-379 | a finished run serves, of every updated field, exactly the new mapping, resolved now and without expiry, and of every other exactly what its stored source says; each with its definition's own name, enabled flag, source type and revision |
| ContextPublish.FinishedRunServesNoOthers | storage/subscription_context_store.py:355-379 | it serves no field without a definition |
| ContextPublish.FinishedRunStoresTheUpdates | storage/subscription_context_store.py:281-309 | the updated definitions point to their new source blobs, which hold the new mappings; every other definition, source and snapshot is as it was |
| ContextPublish.FinishedRunResolves | storage/subscription_context_store.py:326-343 | after it a reader resolves exactly the enabled fields, or all on request, to the new mapping's value or to none |
| ContextPublish.EffectIsFinal | storage/subscription_context_store.py:268-270 | running the same request again after it finished changes nothing |
| ContextPublish.ContextStore.Generate | storage/subscription_context_store.py:355-389 | none exactly if a definition's source is missing; otherwise, keys being distinct, the snapshot has for each definition its own name, enabled flag, source type, revision and times, and for each subscription what its source says |
| ContextPublish.ContextStore.PublishRefreshBatch | storage/subscription_context_store.py:261-311 | a worker that lives for n writes makes exactly the first n of the plan; the outcome is a conflict exactly if, the manifest being readable and the run not served, some expected key has no definition of that revision, and then, as for a run already published, nothing is written |
| ContextPublish.ContextStore.WriteSources | storage/subscription_context_store.py:281-301 | the source uploads in definition order, cut where the worker stops |
| ContextPublish.ContextStore.WriteDefinitions | storage/subscription_context_store.py:307-309 | the row updates in definition order, cut where the worker stops |
| ActivityCoverage.ResolvePlan | services/activity_log/pipeline.py:199-261 | one unit per subscription in sorted order; whole seconds aside, one never collected or collected under other recipes gets exactly the last historicalDays up to the cutoff, any other exactly what follows the overlap before its row's end, no more than 89 days back; and the reason given |
| ActivityCoverage.WindowIsWhatIsMissing | services/activity_log/pipeline.py:217-249 | a unit's window is that one, and its row claims up to the window's end from the old start or the window's, whichever is earlier, with the recipes of the configuration |
| ActivityCoverage.SuccessWithoutAGapIsTruthful | services/activity_log/pipeline.py:217-249 | without a gap, every instant the new row claims within retention was collected before or in this window |
| ActivityCoverage.GapIsMissed | services/activity_log/pipeline.py:226-235 | with a gap, an instant the new row claims and nobody collected |
| ActivityCoverage.SuccessIsTruthfulExactlyWithoutAGap | services/activity_log/pipeline.py:206-249 | a collected window keeps every truthful row truthful if and only if the recipes did not change while coverage ended before the historical start |
| ActivityCoverage.EventKeepsCurrent | services/activity_log/pipeline.py:217-249 | unconditionally, everything since the last change of recipes was collected with the recipes the row records |
| ActivityCoverage.CoverageIsTrue | functions/activity_log_bp.py:105-162 | over every history of failed and successful runs and flushes both statements hold |
| ActivityCoverage.ActivityLogPipeline.CollectSubscription | functions/activity_log_bp.py:105-162 | the page loop ends and commits coverage exactly when the subscription's pages land |
| ActivityCoverage.LandsExactlyWhenEveryPageComes | functions/activity_log_bp.py:114-148 | they land if and only if every page up to the last is answered after at most 60 consecutive waits and no error |
| ActivityCoverage.ActivityLogPipeline.Refresh | functions/activity_log_bp.py:34-91 | the rows after a run are the planned ones of the subscriptions whose pages landed, and their number is reported |
| ActivityCoverage.EachSubscriptionStandsAlone | functions/activity_log_bp.py:54-67 | a subscription's row depends on its own pages alone |
| ActivityCoverage.RefreshIsOneEventEach | functions/activity_log_bp.py:34-67 | a run over many subscriptions is one event of each one's own history |
| Assembly.Assemble | services/activity_log/assembly.py:161-177 | the operations are the folds of the groups of the collapsed events, in order of first appearance; each is of a group holding exactly the last sightings of one identity, and gives the outcome of a latest terminal event in the source's words, the request id of an earliest accepted or started one, the applied event's id, payload and encoding, first and last times, and each column of the last event that has it, accepted ones first |
| Assembly.OneIdentityExactlyForOneOperation | services/activity_log/assembly.py:53-64 | two events whose fields hold no separator have one identity if and only if subscription, resource and operation agree ignoring case and they have the same correlation, or both have none and the same id |
| Assembly.OneKeyExactlyForOneEvent | services/activity_log/assembly.py:161-171 | two events are sightings of one if and only if their subscription, ignoring case, and id agree |
| Assembly.ByTimeIsChronologicalAndStable | services/activity_log/assembly.py:76-82 | the time sort is chronological and keeps events of one time in the order they came |
| Assembly.DedupKeepsTheLast | services/activity_log/assembly.py:168-171 | collapsing keeps one event per subscription and id, the last seen |
| Assembly.EachEventLandsOnce | services/activity_log/assembly.py:161-177 | each distinct subscription and id is in exactly one operation, once, and listed there |
| Assembly.OperationListsItsEvents | services/activity_log/assembly.py:127-150 | an operation carries its events' identity and lists exactly their non-empty ids, sorted |
| Assembly.RepeatChangesNothing | services/activity_log/assembly.py:161-171 | an event repeated as last seen changes nothing wherever it comes |
| Assembly.RepeatsChangeNothing | services/activity_log/assembly.py:161-171 | any further sightings of seen events, in any number and order, change nothing |
| Assembly.OrderDoesNotMatter | services/activity_log/assembly.py:85-158 | events with distinct keys and, within an identity, distinct times give the same operations in every order |
| Assembly.OneOrder | services/activity_log/assembly.py:129-129 | with distinct times there is one time order |
| Assembly.ByTimeSorts | services/activity_log/assembly.py:76-82 | the time sort is an ordering of the same events with unparsable times last |
| Assembly.OutcomeIsTheLatestTerminals | services/activity_log/assembly.py:85-90 | pending without a terminal event, otherwise by the strictly latest one: "succeeded", "failed", or "cancelled" from either spelling, and its id |
| Assembly.LatestIsLatest | services/activity_log/assembly.py:89-99 | the selected event is the first of the latest |
| Assembly.AppliedIsTheLatestPreferred | services/activity_log/assembly.py:93-99 | the applied event is a latest accepted one with a payload, failing that accepted, failing that with a payload, failing that any |
| Assembly.RequestIsTheEarliest | services/activity_log/assembly.py:111-117 | the request id is that of an accepted or started event no other is earlier than |
| Assembly.OperationSpansItsEvents | services/activity_log/assembly.py:127-158 | first and last time are those of events none is earlier or later than, and the descriptive fields are the latter's |
| Assembly.AcceptedColumnsWin | services/activity_log/assembly.py:102-108 | a column is the last accepted event's that has it, else the last other event's |
| Reconcile.BuildUndoesHydrate | storage/activity_log_store.py:158-304 | building a hydrated row gives the row back but for when it was last seen, and uploads what is there |
| Reconcile.HydrateUndoesBuild | storage/activity_log_store.py:158-304 | hydrating a built operation gives it back less reserved and empty columns, spilled or not, and with the chunks of a long id list among its columns |
| Reconcile.BuildStamps | storage/activity_log_store.py:158-217 | a row is stamped as seen, finalized exactly with a terminal outcome, and its payload is inline up to 60000 and elsewhere beyond |
| Reconcile.OneBlobExactlyForOneEvent | storage/activity_log_store.py:72-76 | two payloads spill to one blob if and only if subscription and applied event, or else operation, agree |
| Reconcile.ReconcileOperation | services/activity_log/pipeline.py:137-168 | operations with a payload and another recipe or assembler version are projected again, overdue ones become unknown, the flag says whether anything was, and it raises exactly for a pending operation with a time without an offset |
| Reconcile.ReconciledExactly | services/activity_log/pipeline.py:137-168 | reconciliation changes an operation if and only if it has a payload and is flagged or of another assembler or recipe version, or has been pending for longer than the horizon; what each of the two changes and what it leaves |
| Reconcile.MergeTakesTheLast | services/activity_log/pipeline.py:147-154 | of several recipes' columns the last one's that has it counts, and one pending projection makes the whole pending |
| Reconcile.NeedsExactly | services/activity_log/pipeline.py:122-134 | the pre-filter selects a row if and only if it has been pending for longer than the horizon, or has a payload and is flagged or of another assembler or recipe version |
| Reconcile.RaisesExactly | services/activity_log/pipeline.py:113-123 | it raises if and only if the outcome is pending in any case and the last time has no offset |
| Reconcile.SelectedExactlyWhenChanged | services/activity_log/pipeline.py:122-168 | the pre-filter selects a row if and only if reconciliation changes it |
| Reconcile.NextKeepsTheRest | services/activity_log/pipeline.py:137-168 | a reconciled row keeps key, facts, payload place and finalization, and changes outcome and projection only as needed |
| Reconcile.NeedsAgainExactlyWhenItStaysPending | services/activity_log/pipeline.py:122-168 | after hydrate, reconcile and upsert a row needs it again if and only if its projection stays pending |
| Reconcile.SweepLowersTheCount | services/activity_log/pipeline.py:288-312 | a run lowers the pending count by its targets less those that stay pending |
| Reconcile.RunDrainsExactlyWhenClearAndNothingStays | services/activity_log/pipeline.py:288-312 | the count falls by min(maxUnits, count) if and only if there is nothing to do, or the subscription is named, none of its rows is pending with a time without an offset, and no target stays pending |
| Reconcile.StoredLocalTimeBlocks | services/activity_log/pipeline.py:113-119 | once any batch has stored a pending operation with a time without an offset, no later run of its subscription at any instant writes a row |
| Reconcile.RunsDrain | services/activity_log/pipeline.py:288-312 | at one instant and under one set of recipes, if no row stays pending and none has such a time, enough runs drain the subscription, after which a run writes nothing |
| Reconcile.RunsDrainExactlyWhenClear | services/activity_log/pipeline.py:288-312 | and of rows none of which stays pending, they drain it if and only if none has such a time or there was nothing to do |
| Reconcile.RunsDrainOverTime | services/activity_log/pipeline.py:288-312 | over runs at any nondecreasing instants under one set of recipes, if no row stays pending and none is pending with a time without an offset: the backlog is that of a queue served maxUnits at a time, what is written is what was pending and became overdue less what is left, and no more becomes overdue than was waiting at first |
| Reconcile.UpsertKeepsTableOk | storage/activity_log_store.py:125-217 | storing any operations keeps keys distinct, id chunks in place, inline payloads short, and every spilled row's blob there and long |
| Reconcile.UpsertStoresThePayloads | storage/activity_log_store.py:125-217 | if operations of different keys do not spill to one blob, every row's payload after a batch is that of the last operation of its key, and other rows keep theirs |
| Projection.Project | services/activity_log/projection.py:61-80 | the columns and flag of an event are those of the fields that apply to its status, in order |
| Projection.ColumnsAreTheLastGivers | services/activity_log/projection.py:62-79 | each column is what the last applicable field of its name that resolves resolves to, and there are no others |
| Projection.MatchesExactly | services/activity_log/recipes.py:209-224 | a recipe matches if and only if operation and resource type are among its lists, ignoring case, where they are not empty, and the status where there is a list |
| Projection.VersionIsTheGreatest | services/activity_log/pipeline.py:54-58 | the version expected of an operation is the greatest of its recipes', and none without any |
| Projection.MembersResolve | services/activity_log/projection.py:41-53 | a path leads through objects member by member, and nowhere if one is missing |
| Projection.TextsResolveAsTheirObjects | services/activity_log/projection.py:29-53 | and through an embedded text as through the object it is |
| Projection.FlatObjectsAreRead | services/activity_log/projection.py:29-38 | the text of an object of scalars is read as that object, the last member of a name counting |
| Projection.FlatArraysAreRead | services/activity_log/projection.py:29-38 | and that of an array of scalars as that array |
| Projection.PendingExactlyWhenAFieldRaises | services/activity_log/projection.py:67-80 | an event is flagged if and only if resolving a field that applies to it raises |
| Projection.ResolveRaisesExactlyAtDeepText | services/activity_log/projection.py:31-57 | resolving raises if and only if the path comes, before its end, to an embedded JSON text the decoder cannot finish for its nesting |
| Projection.ManyBracketsAreTooDeep | services/activity_log/projection.py:31-40 | a text opening more arrays than the recursion limit raises whatever follows |
| Projection.ShortTextIsNotTooDeep | services/activity_log/projection.py:31-40 | a text no longer than the limit never does |
| Projection.ReprojectionIsPendingExactlyWhenAFieldRaises | services/activity_log/pipeline.py:147-158 | projecting a payload again stays pending if and only if a field of a matching recipe raises on it |
| Projection.NestedBodyIsNeverDrained | services/activity_log/pipeline.py:288-312 | a table of one capacity reservation group write whose response body nests deeper than the limit has one pending row before and after any run |
| Reconcile.UpsertAgainOnlyTouchesLastSeen | storage/activity_log_store.py:125-242 | storing an operation again keeps first sighting, earliest terminal time and published version |
| Reconcile.UpdatesSweep | storage/activity_log_store.py:125-156 | the batch of updates replaces exactly the targets' rows and no blob |
| Reconcile.ActivityLogStore.UpsertOperations | storage/activity_log_store.py:125-156 | the last operation of each key is stored, with preserved fields from before the batch, and a well-formed table stays well formed |
| Reconcile.ActivityLogStore.ReconcileSubscription | services/activity_log/pipeline.py:288-312 | exactly the first maxUnits selected rows are rewritten, every one of them, unless the age test of some row raises, when nothing is; the table stays well formed |
| ChunkCodec.ChunkJsonArray | storage/table.py:75-90 | the chunks concatenate to the input, each fits or is a singleton, and no order-preserving split of that kind is shorter |
| ChunkCodec.LengthIsTheTexts | storage/table.py:75-90 | the length chunks are measured by is that of the JSON text, brackets and commas included |
| ChunkCodec.GreedyIsFewest | storage/table.py:75-90 | the greedy split uses the fewest chunks |
| ChunkCodec.SuffixNeedsNoMore | storage/table.py:81-87 | a shorter suffix never needs more greedy chunks |
| ChunkCodec.NamesInUseAreApart | storage/usage_store.py:312-317 | the property names of both users of the codec, here and in `storage/activity_log_store.py`, keep count, legacy and chunk properties apart |
| ChunkCodec.EncodeProperties | storage/table.py:93-107 | the properties are the legacy list with count zero if it fits, otherwise the greedy chunks under their numbers with their count; merged into any entity they decode to the values, and no property is too long unless it is one value |
| ChunkCodec.DecodeProperties | storage/table.py:110-122 | the decoder loop returns the decoded list, or none when a chunk is missing |
| ZoneFanout.Refresh | functions/zone_mapping_bp.py:33-107 | at most 60 timers, each as long as the longest wait asked and no longer, or 5 seconds if none is; exactly one outcome per subscription, a progress count that goes up to the total, state written exactly when all are ok |
| ZoneFanout.VerdictIsTheFinalAnswers | functions/zone_mapping_bp.py:55-87 | a subscription's outcome is stored or failed with the error's detail, as its first final answer within 60 retries says, and failed for too many retries without one |
| ZoneFanout.WaitIsWhatIsAsked | functions/zone_mapping_bp.py:62-87 | a throttled answer is waited for as long as it asks, a transient one at least 5 seconds doubled per attempt, at most 120 |
| ZoneFanout.Round | functions/zone_mapping_bp.py:55-87 | one fan-out decides or requeues every pending subscription, requeues exactly those with a retryable answer within the bound, and its wait is the longest asked |
| ReservationJoin.ApplyPhysicalZones | services/odcr_coverage.py:315-338 | a row without a logical zone is resolved and has no physical one; any other has the one its subscription and location map it to and is resolved exactly if that is there and not empty; nothing else of it changes |
| ReservationJoin.EnterKeepsIndexes | services/odcr_coverage.py:341-367 | one more reservation keeps every index exact |
| ReservationJoin.LookUpIsMatching | services/odcr_coverage.py:368-380 | the index lookup is the set of reservations of the group and size in the same physical zone, widened to all exactly when some zone involved is unresolved |
| ReservationJoin.NameIsTheLastGiven | services/odcr_coverage.py:341-367 | a group's name is the last non-empty one a reservation of it gives, and none without such a one |
| ReservationJoin.Reconcile | services/odcr_coverage.py:341-380 | every VM row gets, sorted, the reservations of its group and size with a name, all of them or only those in its physical zone exactly if it and all of them are resolved; and the group's last name |

## Left out

- Azure Cost Management, Resource Graph, Durable, table and blob SDK calls: each is an atomic step with an arbitrary answer; retries inside the SDK, transaction batches of 100 and HTTP are not modelled.
- JSON text, gzip, SHA hashes, UUIDs and parsing a time into an instant: encoded length is a function of the element, blob names are the tuple of their parts, identities stand for their hashes, days and seconds are numbers; of JSON decoding, only nesting is modelled (in `Projection`), reading one string, number or literal being arbitrary.
- Text: `strip` takes off the ASCII white space and `lower` changes the ASCII letters only; `localeCompare` is code-point order.
- UsageRefresh.RefreshPipeline.RunFlush: deleting and recreating the tables is one step, so a crash in the middle of a flush and the wait for the table name are not modelled.
- UsageRefresh.RefreshPipeline.RunRefresh: a cell counts as loaded once the whole query of its metric landed; pages of a query that failed later are not counted, and the daily and projection writes of one page are one step.
- UsageView.Summarise: the check that all rows share one currency is left out.
- UsageRollup.BuildChart: values that are not finite numbers are represented as missing.
- ClaimProtocol.SparingClearsExclude: a Durable status query is taken at its word, so an unfinished instance is never reported missing; placeholders left by a crashed worker stay, and nothing is claimed about their liveness.
- ClaimProtocol.MatchingClearSpares: a `start_new` that raises creates no instance; one that raises after creating it, whose run the released claim would no longer name, is not modelled.
- Dispatching.OneRunPerContentionGroup: a tick and a completion are atomic there and manual starts are left out; interleaving is the subject of ClaimProtocol.
- Dispatching.Dispatcher.RunTick: merging stored and default configuration, retention pruning and the heartbeat are left out.
- RunHistory.HistoryTable.History: showing live status and healing running rows while listing are left out; the table is static while it is paged.
- SnapshotCache.EtagAgreesWithStorage: a snapshot blob never changes once written; a reader whose download fails gives up.
- ContextPublish.ContextStore.PublishRefreshBatch: publication time, row ETags and lease renewal are left out; the operation lease is exclusive, so no other writer acts during an attempt or between its retries.
- ContextPublish.FinishedRunServesTheUpdates: which fields a refresh selects and how their mappings are resolved are left out.
- ActivityCoverage.CoverageIsTrue: two runs over one subscription do not overlap; the scheduler's claim is what keeps them apart.
- Assembly.Assemble: groups in which some times have a UTC offset, or do not parse, and others parse without one are excluded: sorting them raises TypeError and the page fails. Claims are about one page's events; an operation split over pages is replaced by its last page's fold, not merged.
- Reconcile.HydrateUndoesBuild: an operation carries its id list and, if it is long, the chunk texts; that the chunks encode the list is the subject of ChunkCodec.
- Reconcile.ActivityLogStore.ReconcileSubscription: a payload that cannot be decompressed or a missing spill blob, which make the whole run report an error without writes, are left out; ageing is measured at one instant per run.
- ReservationJoin.Reconcile: a row is represented by the fields the join reads and writes.
- Scope intersection, coverage decisions, SKU families, retirement tables, authorization, settings parsing, KQL text and the user interface would only add easy members.
