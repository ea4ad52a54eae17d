# Invariants of an LLM gateway

This project models six mechanisms of the gateway that carry state or an algorithm of their own, and
proves what they keep over every input, every run and every interleaving.

* **Order locks and crediting** (`OrderLock`, `OrderCredit`, `TryLock`). Threads with program counters
  step through `LockOrder`, a critical section and `UnlockOrder`, one shared access at a time. On top of
  that machine run the payment callbacks, each read and write of the order table a step of its own,
  among them two writers that can overwrite a status. `TryLock` is the double-checked lock of
  redemptions.
* **The in-memory rate limiter** (`RateLimiter`): bounded queues and a sweeper, against the full log of
  grants.
* **Price sync** (`RatioDiff`, `ModelsDev`): the passes over nested maps in arbitrary order, against one
  table; and the selection with a comparison that is not transitive.
* **Upstream model reconciliation** (`Text`, `Lists`, `Names`, `Upstream`, `Paging`, `ChannelStore`):
  list columns that are joined and read back, detection, application, and batch loops over a table.
* **Channels with many keys** (`MultiKey`, `BulkDelete`, `KeyManager`): the key column, three maps keyed by
  index, and the actions that edit, compact and extend them.
* **Request bodies and audio** (`Bytes`, `BodyStorage`, `DiskCache`, `OggScanner`): two implementations of
  one reader, their shared counters, and the Ogg page scanner.

Code that changes things step by step is a method or a class whose contract equates the new state with a
function of the old one; the lemmas are about those functions. Concurrent code is a state machine; the
class beside it performs one statement at a time. `float64` is `real`, clocks are integers that do not
run backwards, and a Go map is ranged over by taking any remaining key.

Where the code does less than its comments or its callers suggest, the exact condition is proved:

* `sanmao-api/common/constants.go:159` asks for durations no larger than the expiration; one second more is
  still fine, two are not (`RateLimiter.RefinesExactly`). A limit of zero grants one request. One user's key
  is asked about with the limits of whichever group the request carries
  (`sanmao-api/middleware/model-rate-limit.go:183-189`); after a lower limit follows a higher one the limiter
  may grant too many, never too few, and which runs it does so in is `RateLimiter.RunAgreesExactly`.
* "Cheapest non-zero" (`sanmao-api/controller/ratio_sync.go:788`) holds up to 1e-9; when it is exact is
  `ModelsDev.CheapestExactly`, and `ModelsDev.CheapestMayLose` an input where it is not.
* `sessionExpired` reports an order that is not pending and overwrites it all the same; the unlocked Waffo
  write can do the same to a credited order. Credits are unaffected; the status of a credited order can be
  trusted exactly when neither callback arrives (`OrderCredit.StatusTrustedExactly`).
* An order is saved as success before the quota is given, so a failure in between is never made up for
  (`OrderCredit.SettledForGood`); which runs leave such an order is `OrderCredit.UncreditedExactly`.
* `delete_disabled_keys` with no survivor, or with a blank key as the only one, empties the key column,
  which `Update` takes for "not provided": nothing is deleted and the keys are enabled again, exactly then
  (`MultiKey.DeleteDisabledReads`, `MultiKey.DeleteDisabledWithoutSurvivor`, `MultiKey.DeleteDisabledLoneBlank`).
* Blank keys at either end of a column are lost when it is read back (`MultiKey.DeleteReadsBack`). Statuses
  then move to other keys, times and reasons may be left over (`MultiKey.DeleteTidyExactly`), and bulk and
  single deletes may differ (`BulkDelete.BulkDeleteIsSingleDeletes`).
* The bulk queries do not select the redirect mapping, so a bulk detection may also remove redirect sources
  and add redirect targets; when it does not is `Upstream.BulkDetectionAgreesExactly`.
* `sanmao-api/common/disk_cache.go:108` says the cleanup does not touch the statistics; the code counts
  every removed file off, and an open storage among them twice (`DiskCache.CleanupExactly`,
  `DiskCache.CleanedThenClosed`).
* The check of the free space and the counting of a body are separate steps, so openings that overlap may
  exceed the configured maximum, by no more than `DiskCache.UsageBound` says.
* With `maxBytes` the greatest int64, `maxBytes+1` wraps and a body is read as empty
  (`DiskCache.OpenedWholeExactly`).
* Keys appended to an empty column are stored as the request's text, neither trimmed nor compared with one
  another (`KeyManager.EmptyColumnTakes`).
* Bulk apply would leave work for the next one on a name pending to be both added and removed; only a
  settings column written by hand can hold one (`ChannelStore.PendingStaysDisjoint`,
  `ChannelStore.OverlapLeavesWork`).

## Model

| member | source | states |
|---|---|---|
| `OrderLock.MutualExclusion` | sanmao-api/controller/topup.go:242-281 | In every state reachable by any interleaving of any number of threads, two threads between `mu.Lock` and `mu.Unlock` of the same trade number are one thread. |
| `OrderLock.OneMutexPerOrder` | sanmao-api/controller/topup.go:252-280 | Two threads between increment and decrement hold the same mutex object exactly when they use the same trade number. |
| `OrderLock.CountIsUsers` | sanmao-api/controller/topup.go:246-280 | The `refCount` of a registered entry is the number of threads between the increment and the decrement for its trade number. |
| `OrderLock.UnlockFindsItsOwn` | sanmao-api/controller/topup.go:267-273 | `UnlockOrder` never takes its "not found" exit, and the mutex it unlocks is the one its own thread locked. |
| `OrderLock.DroppedWhenUnused` | sanmao-api/controller/topup.go:275-280 | The decrementing thread deletes the map entry exactly when no thread uses that trade number any more. |
| `OrderLock.NothingLeftBehind` | sanmao-api/controller/topup.go:242-281 | When all threads are idle the map is empty and neither the global nor an entry mutex is held. |
| `OrderLock.SomeThreadCanStep` | sanmao-api/controller/topup.go:252-281 | No deadlock: whenever some thread is under way, some thread can take a step. |
| `OrderLock.EveryScheduleEnds` | sanmao-api/controller/topup.go:252-281 | Without new calls every schedule is finite: steps taken plus steps still ahead never exceed the steps that were ahead at the start. |
| `OrderLock.StepKept` | sanmao-api/controller/topup.go:252-281 | Every single statement of either function, by any thread, keeps the invariant that ties the map, the counts, the mutex holders and the program counters together. |
| `OrderLock.OrderLocks.Advance` | sanmao-api/controller/topup.go:252-281 | The shared variables after one statement of one thread are exactly the next state of the machine. |
| `OrderLock.OrderLocks.Enter` | sanmao-api/controller/topup.go:252-253 | A call of `LockOrder` by an idle thread puts it before its first statement and changes nothing else. |
| `OrderLock.OrderLocks.Seek` | sanmao-api/controller/topup.go:253-260 | One statement of the lookup half of `LockOrder` on the shared variables. |
| `OrderLock.OrderLocks.Use` | sanmao-api/controller/topup.go:261-281 | One statement of the counting half of `LockOrder`, or of `UnlockOrder`, on the shared variables. |
| `OrderCredit.CreditedAtMostOnce` | sanmao-api/controller/topup.go:334-362 | Over every interleaving of placed orders, replayed notifications, session expiries and unlocked payment failures, with any write refused or stored-but-reported-failed, no order is credited twice. |
| `OrderCredit.BalanceIsCreditedOrders` | sanmao-api/controller/topup.go:351-356 | The quota given to a user is always the sum, over the orders credited to him, of the integer `k` with k <= amount * unit < k + 1, or k - 1 < amount * unit <= k when the product is negative. |
| `OrderCredit.PartsUnique` | sanmao-api/controller/topup.go:351-353 | There is one such choice of integers. |
| `OrderCredit.PendingIsLeftForGood` | sanmao-api/controller/topup.go:344-346 | Over every run no order returns to pending, disappears, or changes its owner or amount, although whole rows are written back from copies read earlier. |
| `OrderCredit.ReplayDoesNothing` | sanmao-api/controller/topup.go:344-345 | A notification for a credited order changes nothing in the database and is done. |
| `OrderCredit.NeverStuck` | sanmao-api/controller/topup.go:334-362 | While a handler is under way some handler or lock step can happen. |
| `OrderCredit.CreditedSaysSuccess` | sanmao-api/controller/topup.go:344-356 | With notifications alone, whatever fails, every credited order has status success: the positive half of `OrderCredit.StatusTrustedExactly`. |
| `OrderCredit.StatusTrustedExactly` | sanmao-api/controller/topup.go:344-356 | Over all runs whose other callbacks come from a given set, every credited order says success if and only if neither expiring sessions nor failing payments are in the set. |
| `OrderCredit.UncreditedExactly` | sanmao-api/controller/topup.go:344-361 | With notifications alone, once all handlers are done, an order says success without a credit if and only if the run holds, for that order, a success stored but reported as failed, a refused credit or a negative quota. |
| `OrderCredit.PaidMayStayUncredited` | sanmao-api/controller/topup.go:355-359 | There is such a run: the credit is refused after success was saved, and the order is settled for good. |
| `OrderCredit.SuccessIsCredited` | sanmao-api/controller/topup.go:344-362 | So with no failing write and no negative amount an order then says success if and only if it is credited. |
| `OrderCredit.SettledForGood` | sanmao-api/controller/topup.go:344-361 | An order that is not pending and that no handler is about to credit stays exactly as credited as it is; so an order saved as success whose credit failed is never made up for by replays. |
| `OrderCredit.CreditedMaySayFailed` | sanmao-api/controller/topup_waffo.go:344-348 | There is a run in which the unlocked writer overwrites the success of a credited order with failed. |
| `OrderCredit.CreditedMaySayExpired` | sanmao-api/controller/topup_stripe.go:230-250 | There is a run in which an order is paid, credited and unlocked, and its expiring session then sets it to expired under the lock. |
| `OrderCredit.ExpiryOverwrites` | sanmao-api/controller/topup_stripe.go:239-250 | From every reachable state a session expiry inside the lock turns the status to expired, whatever it was, and leaves the credits alone. |
| `OrderCredit.EventKept` | sanmao-api/controller/topup.go:334-362 | Every event of the combined machine keeps the invariant that links stored orders, handler copies, credits and lock positions. |
| `OrderCredit.HandledInSystem` | sanmao-api/controller/topup.go:334-362 | A handler run on end does to the database what its single steps do in the machine. |
| `OrderCredit.NotificationMeans` | sanmao-api/controller/topup.go:343-361 | A notification does nothing unless it finds the order pending; then the order says success unless the save is refused, and its owner, and no one else, is given the integer part of amount times unit exactly when the save is not reported as failed, the credit is not refused and it is not negative. |
| `OrderCredit.FailuresMean` | sanmao-api/controller/topup_waffo.go:344-348 | An expired session writes its status over any order it finds, a failed payment only over a pending one; neither touches owner, amount, quota or credits. |
| `OrderCredit.Callbacks.EpayNotify` | sanmao-api/controller/topup.go:337-362 | The guarded section, with its early returns, leaves the database its three steps leave, which `OrderCredit.NotificationMeans` states. |
| `OrderCredit.Callbacks.SessionExpired` | sanmao-api/controller/topup_stripe.go:239-254 | The top-up branch leaves the database its two steps leave; there is no return after the status complaint. |
| `OrderCredit.Callbacks.WaffoPaymentFailed` | sanmao-api/controller/topup_waffo.go:341-351 | Read, compare with pending, write failed: the database its two unlocked steps leave. |
| `TryLock.OneLockPerUser` | sanmao-api/controller/user.go:1042-1055 | Over every interleaving two callers have the same lock object exactly when they serve the same user. |
| `TryLock.OneRedemptionPerUser` | sanmao-api/controller/user.go:1057-1068 | At most one thread per user is between a successful `TryLock` and `Unlock`. |
| `TryLock.TurnedAwayExactly` | sanmao-api/controller/user.go:1026-1033 | `TryLock` fails exactly when another thread is redeeming for the same user. |
| `TryLock.OneCreationPerUser` | sanmao-api/controller/user.go:1046-1054 | The second look under the mutex means one lock is created per user and none in vain. |
| `TryLock.LockIsKept` | sanmao-api/controller/user.go:1042-1055 | Over every run the lock stored for a user is never replaced. |
| `TryLock.SlotsAreReturned` | sanmao-api/controller/user.go:1035-1040 | `Unlock` always finds the token its own thread put in, and with all threads idle every slot is empty and the creation mutex free. |
| `TryLock.SomeThreadCanStep` | sanmao-api/controller/user.go:1042-1064 | No deadlock. |
| `TryLock.KnownUserNeverWaits` | sanmao-api/controller/user.go:1042-1045 | Over every run, a call for a user who has a lock never waits for the creation mutex and can always take its next step. |
| `TryLock.SecondCallerIsTurnedAway` | sanmao-api/controller/user.go:1057-1064 | There is a run in which one thread creates a lock and redeems, and a second caller for the same user is turned away. |
| `TryLock.TopUpLocks.Advance` | sanmao-api/controller/user.go:1042-1064 | The shared variables after one statement of one thread are exactly the next state of the machine. |
| `TryLock.TopUpLocks.Call` | sanmao-api/controller/user.go:1057-1059 | A request of an idle thread puts it before its first look at the map and changes nothing else. |
| `TryLock.TopUpLocks.GetTopUpLock` | sanmao-api/controller/user.go:1042-1055 | One statement of the double-checked creation on the shared variables. |
| `TryLock.TopUpLocks.TryLock` | sanmao-api/controller/user.go:1026-1033 | Succeeds exactly when the slot was empty, and leaves it full. |
| `TryLock.TopUpLocks.Unlock` | sanmao-api/controller/user.go:1035-1040 | Leaves the slot empty, full or not. |
| `RateLimiter.RefinesExactly` | sanmao-api/common/rate-limit.go:14-70 | Over all ordered runs of requests and sweeps that ask about each key with pairs of limit and duration from a set, the verdicts equal those of the full log (granted if and only if fewer than the limit in force were granted for the key in the last `duration` seconds), if and only if for every key no duration exceeds the expiration of a running sweeper by more than one second, and only one limit is in force or no duration is positive. |
| `RateLimiter.RunAgreesExactly` | sanmao-api/common/rate-limit.go:45-70 | For every ordered run, with any limits on every call and durations that never rise and that a running sweeper respects: all verdicts are those of the log if and only if no request meets a queue longer than its limit whose oldest entry is out of the window while as many entries as the limit are inside. |
| `RateLimiter.SlipsExactly` | sanmao-api/common/rate-limit.go:51-63 | With nothing in the window left out of the queue, that guard is exactly when one request is granted against the log. |
| `RateLimiter.NeverRefusesMore` | sanmao-api/common/rate-limit.go:45-70 | Over every ordered run, whatever limits, durations and sweeps, a request that the log of actual grants would allow is granted. |
| `RateLimiter.RisingLimitsAgree` | sanmao-api/middleware/model-rate-limit.go:133-155 | While the limits a key is asked about with never fall and its durations never rise, all verdicts are those of the log. |
| `RateLimiter.QueueBound` | sanmao-api/common/rate-limit.go:51-69 | Over every run no queue outgrows the largest limit its key was asked about with. |
| `RateLimiter.FullOrComplete` | sanmao-api/common/rate-limit.go:51-63 | A queue as long as the limit decides as the log does whatever it leaves out, a shorter one when that is out of the window. |
| `RateLimiter.LimiterWindowBound` | sanmao-api/common/rate-limit.go:45-70 | Over every ordered run, limits and durations changing from call to call: no half-open window, wherever it starts, holds more grants for a key than the largest limit in force, if it is no longer than any duration asked about and than what the sweeper keeps. |
| `RateLimiter.WindowBound` | sanmao-api/common/rate-limit.go:45-70 | The same bound for the full-log rule on every list of events, without the sweeper. |
| `RateLimiter.WindowCounts` | sanmao-api/common/rate-limit.go:45-70 | What is bounded is the number of positions of the log whose time lies in the window. |
| `RateLimiter.RecentCounts` | sanmao-api/common/rate-limit.go:53-60 | What the log is asked for is the number of positions whose time is less than the duration ago. |
| `RateLimiter.SweptTooEarly` | sanmao-api/common/rate-limit.go:36-38 | For every limit and every longer duration there is a run in which the sweeper makes the limiter grant a request the log would refuse. |
| `RateLimiter.LoweredLimitGrantsMore` | sanmao-api/middleware/model-rate-limit.go:183-189 | For every two limits in force, asked about with a positive duration for the lower one: a run in which lowering the limit grants a request that the log would refuse. |
| `RateLimiter.ShortQueueGrantsMore` | sanmao-api/common/rate-limit.go:53-60 | When only the higher of two limits has a positive duration, a run in which the lower one has kept the queue too short to know. |
| `RateLimiter.ZeroLimitGrantsOne` | sanmao-api/common/rate-limit.go:64-69 | An unknown key is always granted, so the configured limit is the limit in force exactly when it is positive. |
| `RateLimiter.SweepForgetsExactly` | sanmao-api/common/rate-limit.go:28-42 | Over every ordered run, after a round of the sweeper a key is held if and only if its last grant is not older than the expiration, and with the queue it had. |
| `RateLimiter.InMemoryRateLimiter.Request` | sanmao-api/common/rate-limit.go:45-70 | Verdict and new queues of one request, for every limit, duration and time. |
| `RateLimiter.InMemoryRateLimiter.ClearExpiredItems` | sanmao-api/common/rate-limit.go:28-42 | One sweep over the keys in any order leaves exactly the queues that have not expired. |
| `RatioDiff.BuildDifferences` | sanmao-api/controller/ratio_sync.go:407-581 | All passes together, each map ranged over in an arbitrary order, produce the one specified table. |
| `RatioDiff.TableShows` | sanmao-api/controller/ratio_sync.go:472-578 | For every input, nulls, strings and repeated names included, a model and ratio type is listed if and only if it has something to show and some channel that differs somewhere shows anything but "same" there. |
| `RatioDiff.ItemShows` | sanmao-api/controller/ratio_sync.go:471-578 | For every input a listed item shows exactly the channels that differ somewhere, each with its value, "same" or nothing, and their confidence. |
| `RatioDiff.TableIsExact` | sanmao-api/controller/ratio_sync.go:472-578 | So for numeric upstream values and distinct channel names, a model and ratio type is listed if and only if some channel has a value y there and the local value is missing, or x - y >= 1e-9, or y - x >= 1e-9 for the local value x. |
| `RatioDiff.CellMeans` | sanmao-api/controller/ratio_sync.go:46-60 | A cell says "same" if and only if the two numbers are less than 1e-9 apart, either way round, or the other values are equal; a channel without a value says "same" where there is no local one either. |
| `RatioDiff.ItemIsExact` | sanmao-api/controller/ratio_sync.go:436-516 | And a listed item then shows exactly the channels with such a value somewhere: the value where it is one, "same" where it is not or neither side has one, nothing where only the local side has one; and only channels that report 37.5 and 1 as the two ratios of the model are not trusted. |
| `RatioDiff.DifferingMeans` | sanmao-api/controller/ratio_sync.go:541-550 | For every input a name is marked as differing if and only if the last channel of that name has a disagreeing price somewhere that is neither null nor "same". |
| `RatioDiff.ArrivalOrderIrrelevant` | sanmao-api/controller/ratio_sync.go:407-581 | The table does not depend on the order in which the channels answered, as long as for every name the same channel is the last one so called. |
| `RatioDiff.DistinctAreAlike` | sanmao-api/controller/ratio_sync.go:407-581 | With distinct names that holds of any two orders. |
| `RatioDiff.NullsAreNotListed` | sanmao-api/controller/ratio_sync.go:545-578 | Channels that offer only nulls or the string "same" make an empty table, even where they disagree with a local price. |
| `RatioDiff.CollectModels` | sanmao-api/controller/ratio_sync.go:413-434 | The collected names are those with a local or an upstream value. |
| `RatioDiff.RateConfidence` | sanmao-api/controller/ratio_sync.go:436-470 | Each channel distrusts exactly the models it prices at the default pair 37.5 and 1; for a repeated name the last channel counts. |
| `RatioDiff.CompareRow` | sanmao-api/controller/ratio_sync.go:484-516 | One row: cells, confidence and the two flags for all channels. |
| `RatioDiff.FillModel` | sanmao-api/controller/ratio_sync.go:473-538 | The rows of one model that have something to show. |
| `RatioDiff.FillDifferences` | sanmao-api/controller/ratio_sync.go:472-539 | The unpruned table, over the models in any order. |
| `RatioDiff.MarkDiffering` | sanmao-api/controller/ratio_sync.go:541-550 | The marked channels, over the table in any order. |
| `RatioDiff.PruneColumns` | sanmao-api/controller/ratio_sync.go:554-567 | Deleting the unmarked columns while ranging over them, and whether anything but "same" is left. |
| `RatioDiff.PruneDifferences` | sanmao-api/controller/ratio_sync.go:552-578 | Deleting rows and models while ranging over them leaves exactly the worthwhile ones. |
| `ModelsDev.NoDrift` | sanmao-api/controller/ratio_sync.go:766-829 | For any number of candidates sorted by provider the choice is one of them, is non-zero if and only if one is, and is below every non-zero candidate plus 1e-9. |
| `ModelsDev.SelectionMeaning` | sanmao-api/controller/ratio_sync.go:804-829 | The same over a whole catalog: the selected price is a usable offer of some provider and undercuts every usable non-zero offer up to 1e-9. |
| `ModelsDev.CheapestExactly` | sanmao-api/controller/ratio_sync.go:766-778 | The choice is exactly the cheapest non-zero price unless, when that price was first met, the scan already held one dearer by less than 1e-9. |
| `ModelsDev.CheapestMayLose` | sanmao-api/controller/ratio_sync.go:773-775 | Two providers in sorted order where the first is chosen although the second is cheaper, by less than 1e-9. |
| `ModelsDev.NoTieBreak` | sanmao-api/controller/ratio_sync.go:773-777 | With sorted providers the tie-breaker never fires: a candidate is replaced only by a first non-zero price or by one cheaper by at least 1e-9. |
| `ModelsDev.DriftsWhenUnsorted` | sanmao-api/controller/ratio_sync.go:804-804 | Three candidates in descending provider order whose selection ends 1e-9 or more above the cheapest: the comparison is not transitive. |
| `ModelsDev.BeforeExactly` | sanmao-api/controller/ratio_sync.go:777-777 | The order of the providers: one name precedes another if and only if, where they first differ, it has ended or has the smaller character. |
| `ModelsDev.SelectCandidates` | sanmao-api/controller/ratio_sync.go:800-829 | The nested loops over sorted providers and sorted models choose, for every model, what the selection over its candidates in provider order chooses. |
| `ModelsDev.UsableExactly` | sanmao-api/controller/ratio_sync.go:730-764 | A cost is unusable exactly when its input is missing or negative, its output negative, or its input free and its output paid; a usable one is taken over, without a negative cache cost. |
| `Upstream.ConvergesExactly` | sanmao-api/controller/channel_upstream_update.go:155-214 | Detect, apply everything pending, detect again: nothing is pending if and only if no added name contains a comma and no added name was the only entry that ignored another offered name. |
| `Upstream.ConvergesForPlainNames` | sanmao-api/controller/channel_upstream_update.go:155-214 | For comma-free upstream names, none of them spelled like a `regex:` entry of the ignore list, one round always converges. |
| `Upstream.ApplyAdds` | sanmao-api/controller/channel_upstream_update.go:772-793 | Pending adds split exactly into added, ignored-but-not-added and remaining, in stable order without repetition; an added name is never ignored afterwards. |
| `Upstream.ApplyRemoves` | sanmao-api/controller/channel_upstream_update.go:777-794 | Pending removes split exactly into removed and remaining; a name that is added is never removed. |
| `Upstream.ApplyModels` | sanmao-api/controller/channel_upstream_update.go:780-785 | The next models are the origin without the removed, then the newly added in selected order, without repetition; the column is rewritten exactly when the list changed. |
| `Upstream.AfterFullApply` | sanmao-api/controller/channel_upstream_update.go:855-865 | After applying everything pending: which names the rejoined column and the ignore list hold. |
| `Upstream.DetectNormal` | sanmao-api/controller/channel_upstream_update.go:155-214 | The detected lists are the offered, uncovered, not ignored names and the local names that are neither offered nor redirect sources, both normal. |
| `Upstream.DetectMeans` | sanmao-api/controller/channel_upstream_update.go:155-214 | Name by name, from the lists as given: what is proposed to be added and to be removed. |
| `Upstream.IgnoredMeans` | sanmao-api/controller/channel_upstream_update.go:191-199 | An entry that starts with "regex:" ignores what the rest of it, trimmed, matches; any other entry ignores the name it spells. |
| `Upstream.CheckWaits` | sanmao-api/controller/channel_upstream_update.go:339-361 | An unforced check within the interval after a last check changes and reports nothing, whatever a fetch would give; any other stores its time and keeps the ignore list and the switches, and after a failed fetch also models and pending lists, and reports the failure. |
| `Upstream.CheckStores` | sanmao-api/controller/channel_upstream_update.go:363-385 | A check that gets the names stores the pending removes; with automatic sync the pending adds go behind the models and are counted, otherwise they are stored as pending and the models stay. |
| `Upstream.AutoSyncIsApplyingAdds` | sanmao-api/controller/channel_upstream_update.go:363-375 | Automatic sync leaves the same models, pending lists and counts as detecting without it and applying every pending add by hand. |
| `Upstream.AutoSyncConverges` | sanmao-api/controller/channel_upstream_update.go:363-377 | After an automatic sync the next detection finds nothing to add if and only if no added name contains a comma, and then finds the same removes again. |
| `Upstream.BulkDetectionAgreesExactly` | sanmao-api/controller/channel_upstream_update.go:813-824 | Without the redirect mapping, which the bulk query does not select, a detection finds the same if and only if every local redirect source is still offered and every offered redirect target is local or ignored. |
| `Upstream.BulkDetectionMissesRedirects` | sanmao-api/controller/channel_upstream_update.go:155-214 | It proposes to remove exactly the local redirect sources that are not offered on top. |
| `Upstream.BulkDetectionAddsTargets` | sanmao-api/controller/channel_upstream_update.go:155-214 | It proposes to add exactly the offered redirect targets that are neither local nor ignored on top. |
| `Upstream.BulkSyncAddsTarget` | sanmao-api/controller/channel_upstream_update.go:519-551 | With automatic sync a due background check adds such a target to the models at once, where a check that knows the mapping does not. |
| `Names.NormalizeNormal` | sanmao-api/controller/channel_upstream_update.go:76-81 | Normalizing reaches a trimmed, non-blank, duplicate-free list and is the identity on one. |
| `Names.NormalizeMember` | sanmao-api/controller/channel_upstream_update.go:76-81 | Exactly the non-blank names survive, trimmed. |
| `Names.ApplySelectedNormal` | sanmao-api/controller/channel_upstream_update.go:121-126 | Add beats remove; order is stable; exactly the removed names that were not added are gone. |
| `Names.NormalMerge` | sanmao-api/controller/channel_upstream_update.go:83-97 | On normal lists merging appends what is new, and the result is normal. |
| `Names.NormalSubtract` | sanmao-api/controller/channel_upstream_update.go:99-108 | On normal lists subtracting filters, and the result is normal. |
| `Names.NormalIntersect` | sanmao-api/controller/channel_upstream_update.go:110-119 | The intersection is normal and holds exactly the names both lists normalize to. |
| `Names.MergeModelNames` | sanmao-api/controller/channel_upstream_update.go:83-97 | The loop with its `seen` set appends each new name once, in order. |
| `ChannelStore.PendingStaysDisjoint` | sanmao-api/controller/channel_upstream_update.go:155-214 | Over every sequence of checks, applications and edits of the models and the ignore list, no name becomes pending to be both added and removed. |
| `ChannelStore.SecondApplyFindsNothing` | sanmao-api/controller/channel_upstream_update.go:845-865 | So on a channel that started with nothing pending a second bulk apply finds nothing to do after the first. |
| `ChannelStore.ApplyAllLeavesNothing` | sanmao-api/controller/channel_upstream_update.go:845-865 | For any settings column a second bulk apply skips a channel the first one changed if and only if no name was pending to be both added and removed. |
| `ChannelStore.OverlapLeavesWork` | sanmao-api/controller/channel_upstream_update.go:845-865 | A settings column written by hand with one name in both lists, which the second apply finds work in. |
| `ChannelStore.Table.ApplyUpdates` | sanmao-api/controller/channel_upstream_update.go:759-807 | One row after applying a selection, and the returned lists; no other row changes. |
| `ChannelStore.Table.CheckUpdates` | sanmao-api/controller/channel_upstream_update.go:339-386 | One row after a check, with the interval guard, the failed fetch and automatic sync; no other row changes. |
| `ChannelStore.Table.RecordUpdates` | sanmao-api/controller/channel_upstream_update.go:363-379 | The storing half of the check on one row. |
| `ChannelStore.Table.ApplyAll` | sanmao-api/controller/channel_upstream_update.go:833-888 | The bulk apply visits every enabled channel once in ascending id order and leaves the other rows alone. |
| `ChannelStore.Table.DetectAll` | sanmao-api/controller/channel_upstream_update.go:914-961 | The same for the bulk detection and the background round, with the results of the channels that could be fetched and the ids of the others. |
| `ChannelStore.SortOut` | sanmao-api/controller/channel_upstream_update.go:935-955 | Each checked channel goes into exactly one of the two lists, in order. |
| `ChannelStore.BulkCheckReaches` | sanmao-api/controller/channel_upstream_update.go:914-961 | Of all rows exactly the enabled ones that ask to be checked are changed and reported, as a check of the single one does; those that could not be fetched are in the other list. |
| `ChannelStore.BulkApplyReaches` | sanmao-api/controller/channel_upstream_update.go:845-865 | Of all rows exactly the enabled ones that ask to be checked and have something pending are changed and reported, as the application of all of it does. |
| `ChannelStore.WrittenLast` | sanmao-api/controller/channel_upstream_update.go:339-386 | Each check, application or edit of a sequence works on the row that the earlier ones left. |
| `Paging.ForEachEnabled` | sanmao-api/controller/channel_upstream_update.go:519-587 | For every table with positive enabled ids and every batch size the loop ends after visiting each enabled row exactly once, ascending, on the content it had before the loop, although rows are rewritten between queries and a short batch ends it early. |
| `Paging.QueryContinues` | sanmao-api/controller/channel_upstream_update.go:813-824 | Asked past the k-th id, the query returns the next window of the ascending list. |
| `Paging.NextQuery` | sanmao-api/controller/channel_upstream_update.go:834-843 | A query repeats nothing, and an answer shorter than the batch size is the end of the list. |
| `Paging.VisitBatch` | sanmao-api/controller/channel_upstream_update.go:845-883 | The loop over one batch stores and reports row by row. |
| `Paging.ReportsMeans` | sanmao-api/controller/channel_upstream_update.go:845-883 | There is one report for each visited row that is not skipped, and no other. |
| `Text.ParseJoin` | sanmao-api/controller/channel_upstream_update.go:784-784 | Joining separator-free elements and reading the column back is the identity if and only if the first and last are not blank. |
| `Text.ParseJoinParse` | sanmao-api/model/channel.go:127-129 | Reading a column, writing it and reading it again changes nothing. |
| `KeyManager.RunsKeepSound` | sanmao-api/controller/channel.go:1345-1648 | Over every sequence of actions and appends on columns without blank keys, the empty column included when the text that fills it has no blank lines between its outer line breaks: no key is blank, the size counts the keys, statuses are 2 or 3 at existing indices, times and reasons belong to disabled keys. |
| `KeyManager.RunsKeepTidyExactly` | sanmao-api/controller/channel.go:1345-1648 | Blank keys or not, size, statuses, times and reasons stay right throughout a sequence of actions and appends if and only if no delete in it leaves a time or a reason recorded for another key past the keys read back. |
| `KeyManager.RunsKeepCounted` | sanmao-api/controller/channel.go:1345-1648 | Blank keys or not, over every sequence the size counts the keys and statuses are 2 or 3 at existing indices. |
| `KeyManager.BlankKeyLosesStatus` | sanmao-api/model/channel.go:522-529 | Deleting the first of "a", "", "b" loses the blank key on reading back and leaves the time recorded for "b" out of range. |
| `MultiKey.DeleteKeyShows` | sanmao-api/controller/channel.go:1501-1572 | `delete_key` works if and only if more than one key exists; then every other key keeps its own status, time and reason under its new index if and only if the first and the last of them are not blank. |
| `MultiKey.DeleteReadsBack` | sanmao-api/controller/channel.go:1562-1568 | A delete writes the other keys joined; they are read back without the blank ones at either end, so unchanged if and only if the first and the last are not blank. |
| `MultiKey.DeleteTidyExactly` | sanmao-api/model/channel.go:521-529 | After `delete_key` times and reasons stay within the statuses if and only if none recorded for another key has a new index past the number of other keys without the blank ones at either end. |
| `MultiKey.CompactedShows` | sanmao-api/controller/channel.go:1525-1566 | Compacting the three maps along the surviving indices moves each entry with its key. |
| `MultiKey.DeleteDisabledShows` | sanmao-api/controller/channel.go:1581-1636 | `delete_disabled_keys` leaves exactly the entries that are not auto-disabled, in order, if and only if there are some and the first and the last of them are not blank. |
| `MultiKey.DeleteDisabledReads` | sanmao-api/controller/channel.go:1629-1636 | What is written and read back for every survivor list; nothing is deleted if and only if there is no survivor or a lone blank one. |
| `MultiKey.DeleteDisabledLoneBlank` | sanmao-api/controller/channel.go:1629-1636 | With a lone blank survivor all keys stay and are enabled, but the first, which takes over the status, time and reason of the blank one. |
| `MultiKey.LoneBlankSurvives` | sanmao-api/controller/channel.go:1598-1636 | The keys "a", "", "b" with the first and last auto-disabled are such a column. |
| `MultiKey.DeleteDisabledTidyExactly` | sanmao-api/model/channel.go:521-529 | After `delete_disabled_keys` times and reasons stay within the statuses if and only if none recorded for a survivor has a new index past the number of keys read back. |
| `MultiKey.DeleteDisabledApplies` | sanmao-api/controller/channel.go:1621-1627 | It reports "nothing to delete" exactly when no key is auto-disabled. |
| `MultiKey.DeleteDisabledWithoutSurvivor` | sanmao-api/controller/channel.go:1629-1636 | When every key is auto-disabled the emptied key column counts as "not provided", so all keys stay and are enabled. |
| `BulkDelete.BulkDeleteIsSingleDeletes` | sanmao-api/controller/channel.go:1501-1648 | For every tidy column the bulk delete leaves the same columns as deleting each auto-disabled index with `delete_key` from the highest down, if and only if there is nothing to delete, or some key is neither blank nor auto-disabled and past the last such key either no entry survives (when a key below it is deleted), or the survivors have the times and reasons of the blank keys right behind it (when none is). |
| `BulkDelete.SinglesLeave` | sanmao-api/controller/channel.go:1519-1568 | The columns the single deletes leave, in closed form: trailing blank keys are lost whenever the column is read back, and the last key is never deleted. |
| `BulkDelete.AgreeWithoutBlanks` | sanmao-api/controller/channel.go:1581-1648 | Without blank keys the condition is: nothing to delete, or a survivor. |
| `BulkDelete.BlankKeyIsLost` | sanmao-api/controller/channel.go:1562-1568 | In the keys "a", "", "b" with the last two auto-disabled the bulk and the single deletes write different columns. |
| `BulkDelete.LostYetAgree` | sanmao-api/controller/channel.go:1581-1648 | A blank key lost between the single deletes does no harm when it was to be deleted and a later delete rewrites the column. |
| `MultiKey.EditsShow` | sanmao-api/controller/channel.go:1345-1428 | Disabling or enabling one key changes that entry as stated and no other. |
| `MultiKey.EnableAllShows` | sanmao-api/controller/channel.go:1430-1452 | `enable_all_keys` always works and leaves the same keys, each without status, time and reason. |
| `MultiKey.DisableAllShows` | sanmao-api/controller/channel.go:1454-1499 | `disable_all_keys` works if and only if some key is enabled; it gives exactly the enabled keys status 2 and leaves every other entry alone. |
| `MultiKey.RefusedExactly` | sanmao-api/controller/channel.go:1345-1560 | Disabling and enabling one key work if and only if the index is given and in range, deleting one if and only if another key is left besides; a refused action changes nothing. |
| `MultiKey.EditsKeepTidy` | sanmao-api/controller/channel.go:1345-1499 | Enable and disable actions, single or for all, keep the invariant for every index, in range or not. |
| `KeyManager.AppendKeepsKeys` | sanmao-api/controller/channel.go:907-981 | Appending keeps the old keys as a prefix and adds the new ones, unless the column held only line breaks; an empty column takes the lines of the text as they are, between its outer line breaks. |
| `KeyManager.AppendShows` | sanmao-api/controller/channel.go:907-981 | Empty column or not, the new keys start out enabled, and every old entry keeps its index if and only if the column is not just line breaks or nothing is new. |
| `KeyManager.AppendTwice` | sanmao-api/controller/channel.go:907-981 | Repeating the same append changes nothing if and only if, on an empty column, the text has no line break at either end or is only line breaks, and on any other the column is not just line breaks or nothing was new. |
| `KeyManager.EmptyColumnTakes` | sanmao-api/controller/channel.go:911-980 | An empty column stores the keys that the append would otherwise add, if and only if the lines of the text, between its outer line breaks, are trimmed, not blank and not repeated. |
| `KeyManager.RepeatedKeyIsStored` | sanmao-api/controller/channel.go:911-980 | The text "a", line break, "a" gives two equal keys there. |
| `KeyManager.FreshAreDistinct` | sanmao-api/controller/channel.go:949-977 | The added keys are trimmed, non-blank, pairwise distinct and absent from the trimmed old list, and no new input key is missed. |
| `KeyManager.StatusAnswerMeaning` | sanmao-api/controller/channel.go:1231-1342 | Times and reasons left over or not: a page before the first is the first, one past the last is the last, a page size below 1 is 50, the three counts add up to the number of keys whatever the filter, a filtered total is its count, and the keys of the answers for pages 1 to the last concatenate to the filtered list. |
| `KeyManager.LineShowsEntry` | sanmao-api/controller/channel.go:1250-1283 | A line shows the status, time and reason recorded for its key, and none for an enabled key, even where some are left over. |
| `KeyManager.PagesPartition` | sanmao-api/controller/channel.go:1306-1327 | For every list and page size the pages concatenate to the list, and none is empty unless the list is. |
| `KeyManager.CountsAddUp` | sanmao-api/controller/channel.go:1260-1268 | Every key falls under exactly one of the three counters. |
| `KeyManager.SkipKey` | sanmao-api/controller/channel.go:1525-1551 | The loop of `delete_key`, with its running new index, renumbers keys and maps along the surviving indices. |
| `KeyManager.SkipDisabled` | sanmao-api/controller/channel.go:1589-1619 | The loop of `delete_disabled_keys` does the same for the keys that are not auto-disabled. |
| `KeyManager.Dedupe` | sanmao-api/controller/channel.go:958-977 | The deduplicating loop yields the new keys once each, in order. |
| `KeyManager.ListKeys` | sanmao-api/controller/channel.go:1244-1292 | The listing loop with its three counters. |
| `KeyManager.KeyedChannel.Store` | sanmao-api/model/channel.go:492-532 | `Update`: key column, recounted size and cleaned statuses. |
| `KeyManager.KeyedChannel.DisableKey` | sanmao-api/controller/channel.go:1345-1386 | The columns after the action, the error cases included. |
| `KeyManager.KeyedChannel.EnableKey` | sanmao-api/controller/channel.go:1388-1428 | The columns after the action, the error cases included. |
| `KeyManager.KeyedChannel.EnableAllKeys` | sanmao-api/controller/channel.go:1430-1452 | The columns after the action. |
| `KeyManager.KeyedChannel.DisableAllKeys` | sanmao-api/controller/channel.go:1454-1499 | The columns after the action; refused exactly when no key is enabled. |
| `KeyManager.KeyedChannel.DeleteKey` | sanmao-api/controller/channel.go:1501-1579 | The columns after the action, the error cases included. |
| `KeyManager.KeyedChannel.DeleteDisabledKeys` | sanmao-api/controller/channel.go:1581-1648 | The columns after the action, the error case included. |
| `KeyManager.KeyedChannel.AppendKeys` | sanmao-api/controller/channel.go:907-981 | The columns after the append. |
| `KeyManager.KeyedChannel.GetKeyStatus` | sanmao-api/controller/channel.go:1231-1343 | The answer for every page, page size and filter. |
| `BodyStorage.StoragesAgreeExactly` | sanmao-api/common/body_storage.go:47-85 | For the same content any sequence of Read, Seek, Bytes, Size and Close gets the same answers from memory and disk storage if and only if it never reads zero bytes at or past the end of an open body. |
| `BodyStorage.NonEmptyReadsAreFine` | sanmao-api/common/body_storage.go:47-54 | So with non-empty buffers they cannot be told apart. |
| `BodyStorage.ReadsAreConsecutive` | sanmao-api/common/body_storage.go:169-176 | Reads of any lengths, with Bytes and Size in between, return the content from where they started without gap or repetition. |
| `BodyStorage.SeekThenRead` | sanmao-api/common/body_storage.go:56-63 | On either storage, seeking to a position and reading returns the content from there, and end of file exactly past the end. |
| `BodyStorage.SeekOrigins` | sanmao-api/common/body_storage.go:178-185 | A position is reached alike from the start, the current position and the end; one before the start is refused and moves nothing. |
| `BodyStorage.ClosedForGood` | sanmao-api/common/body_storage.go:47-72 | Once closed, no operation changes anything, a second Close included, and every read and seek is answered with the closed error and nothing else. |
| `BodyStorage.WholeAnytime` | sanmao-api/common/body_storage.go:74-85 | After any run of operations the whole content can be had until the body is closed, and the size always. |
| `BodyStorage.ContentStays` | sanmao-api/common/body_storage.go:47-85 | No run changes the content, and the body is closed if and only if the run holds a Close. |
| `BodyStorage.MemoryStorage.Read` | sanmao-api/common/body_storage.go:47-54 | Answer and new position of a memory read. |
| `BodyStorage.MemoryStorage.Seek` | sanmao-api/common/body_storage.go:56-63 | Answer and new position of a memory seek. |
| `BodyStorage.MemoryStorage.AllBytes` | sanmao-api/common/body_storage.go:74-81 | The whole content; the position is untouched. |
| `BodyStorage.MemoryStorage.Close` | sanmao-api/common/body_storage.go:65-72 | Only the first close counts. |
| `BodyStorage.DiskStorage.Read` | sanmao-api/common/body_storage.go:169-176 | Answer and new position of a file read. |
| `BodyStorage.DiskStorage.Seek` | sanmao-api/common/body_storage.go:178-185 | Answer and new position of a file seek. |
| `BodyStorage.DiskStorage.AllBytes` | sanmao-api/common/body_storage.go:198-230 | Seeking to the start, reading in full and seeking back returns the whole content and leaves the position where it was. |
| `BodyStorage.DiskStorage.Close` | sanmao-api/common/body_storage.go:187-196 | Only the first close counts. |
| `DiskCache.OpenedWholeExactly` | sanmao-api/common/body_storage.go:262-303 | Whichever way it goes, a body is opened whole if and only if its length is at most `maxBytes`, for every int64 but the greatest, under which `maxBytes+1` wraps and nothing is read. |
| `DiskCache.OpenedOnDiskExactly` | sanmao-api/common/body_storage.go:262-303 | A body that fits goes to disk if and only if the cache is enabled and its declared length, if positive, or its length is at least thresholdMB * 1048576 and, added to the usage, at most maxSizeMB * 1048576; the hit counter of its kind counts it. |
| `DiskCache.KeptOnDiskExactly` | sanmao-api/common/body_storage.go:241-259 | The same for a body at hand and its length. |
| `DiskCache.ReadsAtMost` | sanmao-api/common/body_storage.go:286-290 | Of a body at most `maxBytes + 1` bytes are read, and all of a shorter one; nothing when that sum wraps or is not positive. |
| `DiskCache.CountersExact` | sanmao-api/common/disk_cache_config.go:109-122 | Over every run of openings, overlapping or not, and closes the disk counters equal the number and total size of the open disk storages. |
| `DiskCache.CountersBounded` | sanmao-api/common/disk_cache_config.go:109-134 | With cleanups anywhere in the run they stay between zero and those sums, and the memory counters stay exact. |
| `DiskCache.ClampNeverFires` | sanmao-api/common/disk_cache_config.go:115-122 | Without cleanups a close subtracts exactly, never below zero. |
| `DiskCache.HitsExact` | sanmao-api/common/body_storage.go:262-303 | Over every run, overlapping openings and cleanups included, the two hit counters are the numbers of bodies opened on disk and in memory. |
| `DiskCache.CleanedThenClosed` | sanmao-api/common/disk_cache.go:129-134 | When a cleanup removes the file of an open storage and it is closed after any further opens and closes, the counters end exact if and only if no other disk storage is open at that close. |
| `DiskCache.CleanupExactly` | sanmao-api/common/disk_cache.go:129-134 | A cleanup step leaves exact counters exact if and only if no disk storage is open, whose removed file then finds them at zero. |
| `DiskCache.CleanupCountsOld` | sanmao-api/common/disk_cache.go:120-136 | A cleanup takes off the counters, down to zero, the number and size of exactly the files last written more than `maxAge` ago, for every list of files. |
| `DiskCache.CleanupInRun` | sanmao-api/common/disk_cache.go:120-136 | In a run such a cleanup is one cleanup event per old file. |
| `DiskCache.CloseTwice` | sanmao-api/common/body_storage.go:187-196 | Closing twice is closing once, counters included. |
| `DiskCache.UsageBound` | sanmao-api/common/disk_cache_config.go:170-177 | While no body is longer than its declared length, over every run of overlapping openings disk usage exceeds the configured maximum by at most what others had reserved and not yet counted when some body was admitted. |
| `DiskCache.UsageWithinMaximum` | sanmao-api/common/disk_cache_config.go:170-177 | So while bodies are opened one after another and none is longer than its declared length, disk usage never exceeds the configured maximum. |
| `DiskCache.OverlapExceeds` | sanmao-api/common/body_storage.go:266-280 | Two bodies that both pass the check of the free space before either is counted take usage to twice the maximum, which is that bound. |
| `DiskCache.OneAtATime` | sanmao-api/common/body_storage.go:262-303 | The steps of one opening, uninterrupted, are the whole function. |
| `DiskCache.UnderdeclaredExceeds` | sanmao-api/common/body_storage.go:266-280 | A body longer than declared is admitted on its declared length and may take usage past the maximum. |
| `DiskCache.OpenExceedsExactly` | sanmao-api/common/body_storage.go:266-280 | From any usage within the maximum, opening one body exceeds it if and only if it is sent to disk for its declared length and is longer than the space left. |
| `DiskCache.Cache.CreateBodyStorage` | sanmao-api/common/body_storage.go:241-259 | Disk or memory by enabled flag, threshold and free space; fresh storage with the whole content at position zero; counters updated. |
| `DiskCache.Cache.CreateBodyStorageFromReader` | sanmao-api/common/body_storage.go:262-303 | Too large, or a fresh storage with what the limited reader gives, at position zero, with counters and hit counts updated. |
| `DiskCache.Cache.IncrementDiskFiles` | sanmao-api/common/disk_cache_config.go:109-112 | Adds one file and its size. |
| `DiskCache.Cache.DecrementDiskFiles` | sanmao-api/common/disk_cache_config.go:115-122 | Subtracts one file and its size, each clamped at zero. |
| `DiskCache.Cache.CloseMemory` | sanmao-api/common/body_storage.go:65-72 | The first close of a memory storage takes it off the counters. |
| `DiskCache.Cache.CloseDisk` | sanmao-api/common/body_storage.go:187-196 | The first close of a disk storage takes it off the counters. |
| `DiskCache.Cache.CleanupOldDiskCacheFiles` | sanmao-api/common/disk_cache.go:120-136 | Counts off every old file once, with its size. |
| `OggScanner.StreamIsScanned` | sanmao-api/common/audio.go:203-249 | For every list of well-formed pages (section 6 of RFC 3533), with bytes that hold no "OggS" before, between and after them, the scan returns the maximum of zero and the signed granule positions. |
| `OggScanner.GarbageIsSkipped` | sanmao-api/common/audio.go:219-226 | A prefix in which no "OggS" starts does not change the answer, whatever follows. |
| `OggScanner.NoStraddling` | sanmao-api/common/audio.go:219-226 | The pattern does not overlap itself: none starts in such a gap and ends in the following page. |
| `OggScanner.PageIsScanned` | sanmao-api/common/audio.go:228-248 | One page takes part with its granule position, and the scan goes on right behind its body. |
| `OggScanner.BodyIsSum` | sanmao-api/common/audio.go:241-245 | The lengths in the segment table add up to the body that follows it. |
| `OggScanner.GranuleReadsBack` | sanmao-api/common/audio.go:228-232 | Every int64 written as eight little-endian bytes is read back, negative ones too. |
| `OggScanner.GreatestMeans` | sanmao-api/common/audio.go:229-232 | The reported greatest position is one of the pages' (or the start value), and none is greater. |
| `OggScanner.ScanFindsAHeader` | sanmao-api/common/audio.go:207-249 | On any bytes at all the result is zero or a positive granule position found behind an "OggS". |
| `OggScanner.GetOpusDuration` | sanmao-api/common/audio.go:196-254 | The loop ends on every file and returns the scanned position in 48000ths of a second. |
| `OggScanner.ScanOne` | sanmao-api/common/audio.go:208-248 | One round of the loop ends it with the scanned position or moves the file position forward, by one byte or behind a page, without changing what the scan returns. |
| `OggScanner.SkipPage` | sanmao-api/common/audio.go:234-248 | Reading the segment table and skipping the body, or ending on a truncated table. |

## Left out

- HTTP handlers, sessions, payment SDKs, signature checks, notifications, caches and logs: input and output only.
- Database errors, except in `OrderCredit`, where each read and write may fail; queries are functions of the table (`Paging.Query`), rows are written one at a time, and `ORDER BY` and `sort.Strings` are the sorted list of the keys.
- Other callbacks that credit orders (`Recharge`, `ManualCompleteTopUp`, `CompleteSubscriptionOrder`): database transactions whose bodies are not part of this model.
- Quota per unit does not change during a run, `decimal` arithmetic is exact, and the product is not cut to the width of an int; `OrderCredit.Balance` is what has been given, not what is left after spending.
- NaN, infinities and float rounding; `roundRatioValue` and the conversion of selected costs into ratios.
- Regular expressions in ignore lists: an arbitrary predicate of pattern and name.
- Parsing of the redirect mapping, which is a parameter here.
- Key columns that are JSON arrays (Vertex), and key previews in status lists.
- Decoded upstream price data of an unexpected JSON type: a price is null, a number or a string.
- Sums and positions past int64 in the body storages and counters, except `maxBytes+1`; seek origins other than start, current and end.
- A file read returns all that is there up to the buffer's length; disk errors, `SyncDiskCacheStats`, `ResetDiskCacheUsage`, and the fallback to memory after a disk failure.
- Each counter update is one step, apart from the check of the free space before it; the add and the store inside `DecrementDiskFiles` are not interleaved with others, and storages are used by one caller at a time.
- Memory storage hands out its own slice; a caller who writes into it is not modelled.
- Pre-skip (section 4.2 of RFC 7845), page checksums and serial numbers: the scanner ignores them.
- KeyManager.RunsKeepSound: assumes no blank key, because with one the times and reasons part fails (`KeyManager.BlankKeyLosesStatus`); the exact condition over runs is `KeyManager.RunsKeepTidyExactly`, and for one delete `MultiKey.DeleteTidyExactly` and `MultiKey.DeleteDisabledTidyExactly`.
- RateLimiter.RunAgreesExactly: the durations of a key never rise and are at most one second past the expiration of a running sweeper, since forgotten grants cannot be told from the queue; for other runs there are `RateLimiter.RefinesExactly`, `RateLimiter.NeverRefusesMore` and `RateLimiter.LimiterWindowBound`.
- RatioDiff.TableIsExact: assumes numeric upstream values and distinct channel names, like `RatioDiff.ItemIsExact`; what holds without them is `RatioDiff.TableShows` and `RatioDiff.ItemShows`, and `RatioDiff.NullsAreNotListed` is where the simpler form fails.
- Paging.ForEachEnabled: rows are only changed by the loop itself, and a visit does not disable its row.
