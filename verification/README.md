# Server-watch alert pipeline: a verified model

Server-watch samples CPU and memory usage, turns each sample into a condition (`high` or `normal`), counts how many
samples in a row showed the same condition, and opens or closes an alert when a count reaches its limit. The counts
live in Redis, with an in-memory store as a fallback; alerts live in a SQLite table; every opening and closing pushes
a notification onto a Redis list that a worker drains. This project models that pipeline and proves what its runs
keep, for every schedule of failures, delays and expiries.

Every Redis, SQL and queue command has three possible fates: it is answered (`Done`), it fails without effect
(`Refused`), or it takes effect and its answer is lost (`Lost`). A schedule (`Environment`) gives each command of a
run its fate and the time it takes to arrive, so a key may expire between any two commands. The theorems quantify over
all schedules.

How the modules follow the program:

| module | part of the program |
|---|---|
| `Model` | the shared values: conditions, alert states, metrics, notifications |
| `Decimal`, `Reals` | counter text, `%.2f` text, and the few facts about quotients the bounds need |
| `Redis`, `Schedules` | the Redis commands relied on: GET, SET, INCR, EXPIRE and the embedded script; schedules that agree |
| `RunLength` | histories of samples, and the state a history stands for |
| `InMemory`, `RedisStore`, `Fallback` | the three alert state stores, as classes, each proved equal to a step function |
| `RedisCounts`, `RedisRuns`, `ExpiryRuns` | what the Redis store keeps, in one call and over runs, and what expiry can do |
| `FallbackRuns`, `OutageCounts`, `ServiceOrders`, `Thresholds`, `TrustRuns` | runs of the fallback store: splicing, outages, the orders of service, trust and its limits |
| `Storage`, `Queue`, `Monitor` | the repository, the notification queue and the collection cycle |
| `LedgerRuns`, `LedgerDrift`, `AlertRuns`, `AlertDetails`, `Hysteresis`, `PrematureAlerts` | runs of cycles: the table and its accounts, then the whole pipeline, what its rows and notifications say, the service's own numbers, and where its guarantee ends |
| `Delivery`, `DeliveryRuns` | the worker and the queue under any interleaving, alone and together with the collector |
| `Cache`, `CacheRuns`, `HistoryRuns`, `CollectionRuns`, `Cpu` | the metrics cache, the stored history, also over runs of collections, the CPU counters |

The stateful components are classes whose methods work step by step, as in the program. Each method's `ensures` equates
its result and new state with a step function; the theorems are about runs of those functions.

Where the code and its comments or names suggest something else, the model follows the code:

- The queue pushes and pops at the same end, so it is a stack. `Delivery.DrainReverses` says what order results, and
  `Delivery.InOrderIff` exactly when the order of the pushes is kept.
- `IsActive` asks Redis first even after a failure. `TrustRuns.OwnMarkReadIff` says, from what a caller could know
  before the call, exactly when a store reads its own mark back, and `TrustRuns.OwnMarkCanBeMissed` gives a run where
  it does not. The service itself calls neither `SetActive` nor `IsActive`.
- Counts can run ahead of the samples in a second outage (`TrustRuns.SecondOutageCountsAhead`).
  `ServiceOrders.RunsNeverAheadIff` says for exactly which orders of service that cannot happen, and
  `Thresholds.NeverPrematureIff` for which it cannot matter to a given limit; `PrematureAlerts.AlertWithoutRun` is a run
  that opens an alert too early.
- An error of a collection ends the collector (cmd/server-watch/main.go:180-186), so what the theorems say of runs after
  a failed cycle, `LedgerRuns.SelfHealing` among them, is about repeated calls of `CollectMetrics`.
- The thresholds in the configuration play no part in alerts: constants are used.

## Model

| member | source | states |
|---|---|---|
| FallbackRuns.CountIsSplicedRun | internal/system/fallback-alert-state-store.go:31-69 | From empty backends, under any schedule of failures and expiries, a sample of a supported type is always counted, and its count is at least 1 and, for a non-empty condition, at most the run at the end of the history its server has seen: what memory served, followed, when Redis answers, by what Redis served since the last completed resync. When no sample of the type that Redis serves finds a key it reads expired, it equals that run |
| FallbackRuns.RunKeeps | internal/system/fallback-alert-state-store.go:31-150 | The invariant behind it, over every run: memory holds exactly the state of what memory served, and a trusted Redis holds no more than the spliced history, and exactly it while no sample of the type that Redis serves finds a key it reads expired |
| FallbackRuns.StepKeeps | internal/system/fallback-alert-state-store.go:31-132 | Every operation keeps that invariant, whatever becomes of its commands |
| FallbackRuns.ResyncCopies | internal/system/fallback-alert-state-store.go:136-150 | A completed resync leaves Redis holding memory's condition, count and activity of both types, whatever it held before, with a full expiry |
| FallbackRuns.ResyncWrites | internal/redis/set_state.lua:1-5 | The three cells of each type after a completed resync, by text and expiry: condition and count expire `ttl` after the type's script ran, activity never, memory's script being the first |
| FallbackRuns.RecoveryKeeps | internal/system/fallback-alert-state-store.go:35-44 | A recovery attempt, completed or broken off between the types, keeps the invariant; a completed one starts the Redis part of the splice afresh |
| OutageCounts.NoPrematureCount | internal/system/fallback-alert-state-store.go:31-69 | In a run that served a type by Redis, then memory, then Redis, with no resync after that, with any failed resyncs and any expiry, a count of n for a non-empty condition means that the last n samples of the type were alike |
| OutageCounts.OneOutageIsUnbroken | internal/system/fallback-alert-state-store.go:35-56 | Every run in which `redisFailed` rises at most once is such a run, for both types |
| OutageCounts.CountAtMostSamples | internal/system/fallback-alert-state-store.go:31-69 | Whatever fails and expires, a count for a non-empty condition is at most the number of samples |
| OutageCounts.CountBeforeFailure | internal/system/fallback-alert-state-store.go:46-56 | Before any failure, and with no sample of the type finding a key it reads expired, a count is exactly the run of all samples of the type, whatever becomes of the other type's keys |
| OutageCounts.NeverAheadIff | internal/system/fallback-alert-state-store.go:31-69 | Of a given order of service: no samples at all can make the history its last server has seen run longer than the true one if and only if the order is Redis, then memory, then Redis, with no change after that |
| ServiceOrders.RunsNeverAheadIff | internal/system/fallback-alert-state-store.go:31-69 | Of runs of the store: for any order of service it can go through, all its runs, under every schedule, count at most the true run if and only if the order is Redis, then memory, then Redis, with no resync after Redis has served again; in every other order some run without any expiry counts ahead |
| Thresholds.NeverPrematureIff | internal/system/fallback-alert-state-store.go:31-69 | For any order of service the store can go through and any n: in all its runs, under every schedule, a count of at least n means that the last n samples were alike, if and only if the last server has seen the last n samples or has not seen n; in every other order some run without any expiry reaches n before its time |
| Thresholds.UnbrokenIsSafe | internal/system/fallback-alert-state-store.go:31-69 | The unbroken orders are among those, for every n |
| ServiceOrders.LawfulIffReached | internal/system/fallback-alert-state-store.go:35-56 | The orders of service that runs of the store go through are exactly those in which Redis serves nothing between a sample of memory's and the next completed resync |
| ServiceOrders.Realise | internal/system/fallback-alert-state-store.go:35-56 | Each such order, with any samples, is brought about by refusing some commands |
| OutageCounts.SeenAtMostTrue | internal/system/fallback-alert-state-store.go:58-68 | In such an order the run seen is at most the true run |
| OutageCounts.EventsLawful | internal/system/fallback-alert-state-store.go:35-56 | Over every run, Redis serves nothing between a sample of memory's and the next completed resync; with no outage memory serves nothing, with one the order is unbroken |
| OutageCounts.TraceHasAllSamples | internal/system/fallback-alert-state-store.go:31-69 | No sample is lost or served twice: the trace holds each sample of the type once, in order |
| OutageCounts.AnsweredHasNoOutage | internal/system/fallback-alert-state-store.go:48-56 | A run on the two types in which every Redis command is answered never sets `redisFailed` |
| TrustRuns.TrustedIsCoherent | internal/redis/alert-state-store.go:62-90 | Torn writes are never observed: in every reachable state with `redisFailed` false, the count beside a condition that can still be read is at most the run of that condition in the spliced history |
| TrustRuns.TornIff | internal/redis/alert-state-store.go:78-87 | For a pair whose count is not one: an increment leaves a new condition beside the old count if and only if it reads another condition and either the write of the condition takes effect with its answer lost, or it is answered and the write of the count is refused; the increment then reports an error |
| TrustRuns.TornWriteHappens | internal/redis/alert-state-store.go:78-87 | A run that ends so, with the store off Redis |
| TrustRuns.RecoveryRestores | internal/system/fallback-alert-state-store.go:136-150 | After any run and any failed attempts, a completed resync leaves Redis equal to memory's snapshot of both types, an absent state being the zero state |
| TrustRuns.ActiveIsLastMark | internal/system/fallback-alert-state-store.go:73-89 | While Redis is trusted and answers, `IsActive` returns the last `SetActive` of the spliced sequence, false if none; when Redis does not answer, the last one memory took |
| TrustRuns.ActiveNeverExpires | internal/redis/alert-state-store.go:115-133 | In every reachable state the activity keys carry no expiry |
| TrustRuns.OwnMarkReadIff | internal/system/fallback-alert-state-store.go:73-132 | What an answered `IsActive` tells after a `SetActive`, from the state before the call and the fates of its commands. It tells the mark if and only if: Redis was trusted, and the write was not refused or the last mark of the spliced sequence was the same; or it was not, the resync was answered, and the write was not refused or memory's last mark was the same; or the resync was broken off before, at or between the types, and the activity the type was left with (memory's last mark if its script took effect, else what Redis held) was the same |
| TrustRuns.OwnMarkWithoutRedisIff | internal/system/fallback-alert-state-store.go:79-88 | When that `IsActive` is not answered by Redis, it tells the mark if and only if Redis did not answer the write or memory's last mark was the same |
| TrustRuns.OwnMarkCanBeMissed | internal/system/fallback-alert-state-store.go:74-77 | A concrete run in which the store does not read its own mark back |
| TrustRuns.SecondOutageCountsAhead | internal/system/fallback-alert-state-store.go:58-68 | A concrete run with two outages whose last count is 2 where the run of all samples is 1 |
| RedisRuns.RedisRefinesMemory | internal/redis/alert-state-store.go:46-133 | With no errors, and no sample of a type finding a key it reads expired, any interleaving of the three operations on both types gets, for that type, the same answers as from the in-memory store; unsupported types are rejected by both |
| RedisRuns.MemoryIsExact | internal/system/alert-state-store/alert-state-store.go:30-95 | The in-memory store holds exactly the run of all samples of a type, its last condition and its last mark |
| RedisRuns.ExpiryOnlyUndercounts | internal/redis/alert-state-store.go:57-90 | On answered commands with the clock moving freely between them, a count is at least 1 and at most the number of samples of the type, at most the true run for a non-empty condition, and equal to the true run when each call for the type ends less than the expiry after the first command of the previous one arrived, which is no earlier than that call began |
| RedisRuns.TimelyIsQuiet | internal/redis/alert-state-store.go:68-84 | Calls that come in time never meet an expired key: every answered call renews both keys of its type |
| ExpiryRuns.NeverAheadOfRunIff | internal/redis/alert-state-store.go:57-66 | For given samples, every answered schedule counts the last one within its run if and only if it is not empty or no earlier one of its type was other than empty: an empty condition reads like a missing key |
| RedisCounts.CountsExactly | internal/redis/alert-state-store.go:57-90 | An answered increment that finds the condition unexpired when it reads it, and the count when it adds to it, is the in-memory step, whatever expires at other times |
| RedisCounts.CountsAtMost | internal/redis/alert-state-store.go:57-90 | Whatever expires between its commands, an answered increment keeps the stored count at most the run of the stored condition |
| RedisStore.AlertKeyInjective | internal/redis/alert-state-store.go:33-42 | Two keys are equal exactly when type and suffix are |
| RedisStore.KeyNames | internal/redis/alert-state-store.go:33-42 | The six keys by name |
| Redis.CommandLaws | internal/redis/alert-state-store.go:57-90 | What is relied on of the commands: missing keys read as nil and count from zero, INCR keeps an expiry, SET replaces it, EXPIRE acts on a key that is there only |
| RedisStore.KeyFrames | internal/redis/alert-state-store.go:33-42 | Changing one key changes one field of one type and nothing else |
| RedisStore.RedisAlertStateStore.IncrementCount | internal/redis/alert-state-store.go:46-91 | GET, then INCR and two EXPIREs or two SETs, on the key strings of the database, up to the first error, ending in the state and answer of the step function |
| RedisStore.RedisAlertStateStore.IsActive | internal/redis/alert-state-store.go:94-113 | The activity key as read; a missing key is false |
| RedisStore.RedisAlertStateStore.SetActive | internal/redis/alert-state-store.go:116-133 | One SET without expiry |
| RedisStore.RedisAlertStateStore.SetState | internal/redis/alert-state-store.go:136-171 | The three keys of the type become the given state in one atomic step, and no other key of either type changes |
| Redis.Client.EvalSetState | internal/redis/set_state.lua:1-5 | The script: three SETs, the first two with an expiry, all or none of them |
| Decimal.IntRoundTrip | internal/redis/alert-state-store.go:64-67 | Counter text and integers convert to each other, so INCR adds one to the number stored |
| RunLength.TrailingMeaning | internal/system/alert-state-store/alert-state-store.go:28-52 | A run is the longest stretch of one condition at the end of a history |
| RunLength.TrailingReaches | internal/system/system.go:226-239 | A run reaches n exactly when the last n samples were all alike |
| InMemory.InMemoryAlertStateStore.IncrementCount | internal/system/alert-state-store/alert-state-store.go:30-58 | One more on the same condition, one on another, and an unsupported type rejected with no change |
| InMemory.InMemoryAlertStateStore.IsActive | internal/system/alert-state-store/alert-state-store.go:61-74 | The activity of the type, false when it has no state |
| InMemory.InMemoryAlertStateStore.SetActive | internal/system/alert-state-store/alert-state-store.go:77-95 | Activity set, count and condition kept |
| InMemory.InMemoryAlertStateStore.GetState | internal/system/alert-state-store/alert-state-store.go:99-112 | The whole state, zero when there is none |
| Fallback.FallbackAlertStateStore.IncrementCount | internal/system/fallback-alert-state-store.go:31-69 | Resync if failed, then Redis, then memory: state of both backends, flag and answer as the step function says |
| Fallback.FallbackAlertStateStore.IsActive | internal/system/fallback-alert-state-store.go:73-89 | Redis first whatever the flag, memory on an error, flag untouched |
| Fallback.FallbackAlertStateStore.SetActive | internal/system/fallback-alert-state-store.go:93-132 | As for counts; after a failed resync Redis is not tried |
| Fallback.FallbackAlertStateStore.ResyncAll | internal/system/fallback-alert-state-store.go:136-150 | Memory type first, then CPU, stopping at the first error |
| Monitor.System.CollectMetrics | internal/system/system.go:63-152 | A cycle, with the clock read at each use: save, count, process, cache; what each failure leaves done and undone, `metrics`, `lastSuccess`, `lastError` and the history table in every case, with the cache and the store on one connection or on two |
| Monitor.System.Record | internal/system/system.go:107-140 | The part before the cache; the history gains exactly the reading, unless its insert is refused |
| Monitor.KeysApart | internal/redis/alert-state-store.go:33-42 | No key of an alert store is a key of a metrics cache, whatever their prefixes |
| Monitor.System.UpdateAlerts | internal/system/system.go:166-222 | CPU then memory counted against 80 and 90, the second only if the first succeeded |
| Monitor.System.ProcessAlerts | internal/system/system.go:226-257 | Create at three high, resolve at three normal, CPU first, aborting on the first error |
| Monitor.System.CreateAlertIfNeeded | internal/system/system.go:261-308 | Nothing when one is open; otherwise row, counter, gauge and notification, as far as the calls succeed; keeps at most one open per type |
| Monitor.System.ResolveAlertIfNeeded | internal/system/system.go:312-345 | Nothing when none is open; otherwise the open row resolved, gauge and notification |
| LedgerRuns.AlwaysAtMostOne | internal/system/system.go:261-345 | Whatever fails in whatever cycle, before or after taking effect, no type ever has two unresolved alerts, so the unordered query for one has a single possible answer |
| LedgerRuns.SelfHealing | internal/system/system.go:226-257 | After any history of failed calls, the first completed cycle whose count is at its limit leaves exactly one open alert of that type (high) or none (normal) |
| LedgerRuns.AnsweredBook | internal/system/system.go:226-257 | With the repository answering, a counted cycle completes and opens or closes a type exactly when its count and condition ask for it |
| LedgerRuns.FailureStopsCycle | internal/system/system.go:226-257 | When the repository does not answer what the CPU's part asks, or the write it makes, the cycle fails and nothing is asked or changed for memory |
| LedgerRuns.BookMoves | internal/system/system.go:226-345 | In any cycle, failed or not, a type is opened only on a high count at its limit and closed only on a normal one |
| LedgerRuns.AccountsBalance | internal/system/system.go:278-341 | When no write is carried out and reported lost, after every run `alerts_total` equals rows added, `alerts_active_total` equals the change in open alerts, each type's attempted notifications alternate with its openings and closings, and, while no worker reads, the list gained exactly the pushes that were not refused, in order |
| LedgerDrift.AccountsDrift | internal/system/system.go:278-341 | After any run, whatever was lost: `alerts_total` lags the rows added by the lost inserts, `alerts_active_total` differs from the change in open alerts by the lost resolutions minus the lost inserts, and there was one attempted notification for each creation and resolution the two count |
| DeliveryRuns.TransitionsAreDelivered | internal/system/system.go:278-341 | Under any interleaving of cycles with the worker's reads, from an empty queue, with no write and no answer of the queue lost: the attempted notifications of a type are its openings and closings, the accepted ones are some of them in the same order, and each accepted one was offered to every sender or is still listed |
| DeliveryRuns.TogetherIsApart | internal/system/system.go:261-345 | The worker's reads change nothing the collector does: table, accounts and attempted pushes are those of the cycles alone |
| DeliveryRuns.OfferedIsConsumed | internal/notifications/worker.go:27-62 | Under any interleaving with pushes, the senders are offered exactly the non-zero notifications read, in the order of the reads |
| LedgerRuns.CreateBalances | internal/system/system.go:278-304 | A creation keeps those accounts if and only if its insert was not carried out with the answer lost |
| LedgerRuns.ResolveBalances | internal/system/system.go:317-341 | A resolution keeps them if and only if its update was not carried out with the answer lost |
| LedgerRuns.BookNotifies | internal/system/system.go:290-340 | While no write is carried out and reported lost, a cycle attempts one notification of a type exactly when it opened or closed it, of that kind |
| LedgerRuns.AlternateMeaning | internal/system/system.go:290-340 | What alternation means: neighbouring actions differ, the first depends on what was open before, and parity tells what is open after |
| LedgerRuns.AttemptsAreGenuine | internal/system/system.go:290-333 | No notification of the pipeline equals the zero notification of an empty queue |
| AlertRuns.TransitionNeedsRun | internal/system/system.go:226-257 | In a run in which the store served the type by Redis, then memory, then Redis, with no resync after that, whatever expires and whatever the repository does, an alert is created only if the last three counted samples of its type were high, and resolved only if they were normal; a cycle whose measurement was not saved counts none |
| AlertRuns.OneOutageLeavesUnbroken | internal/system/system.go:166-257 | Every run through at most one outage of the store is such a run |
| AlertRuns.NoAlertBeforeTrigger | internal/system/system.go:226-257 | In any run at all, nothing is opened before as many samples of the type as an alert needs have been counted |
| PrematureAlerts.UnsafeOrderRaises | internal/system/system.go:226-257 | The converse: for cycles whose CPU samples are served in any order in which the last server has seen three samples but not the last three, some samples and refused commands make the last cycle ask for a CPU alert, and leave one open, with no full run of high samples |
| PrematureAlerts.AlertWithoutRun | internal/system/system.go:226-257 | A run of four cycles through two outages opens a CPU alert on high, high, normal, high |
| AlertRuns.OpenIffShouldBe | internal/system/system.go:166-257 | With no failure and no sample of the type finding a key it reads expired, from any table with at most one open alert per type, a type has an open alert after a run if and only if its latest full run of one condition was high, or it has had none and was open at the start |
| Hysteresis.CpuAlertIff | internal/system/system.go:18-24 | The same in the service's numbers: a CPU alert is open after a run if and only if the latest three readings on one side of 80.0 were above it, or there were none such and one was open at the start |
| Hysteresis.MemoryAlertIff | internal/system/system.go:18-24 | The same of memory, with 90.0 |
| AlertRuns.OtherTypeDoesNotMatter | internal/system/system.go:226-254 | Two such runs that agree on one type's samples agree on its alert, whatever the other type's samples and the expiry of its keys |
| AlertRuns.NoFlapping | internal/system/system.go:226-345 | Openings and closings of a type are at least three of its counted samples apart, the k-th comes no earlier than sample 3k, and three times their number is at most the number of samples; this holds in the same runs, so through any one outage, with any expiry and any repository failures |
| AlertRuns.FlipsSpaced | internal/system/system.go:226-345 | The same for arbitrary positive limits, the smaller one being the distance |
| AlertRuns.FlipsAreNotified | internal/system/system.go:290-340 | While no write is carried out and reported lost, those openings and closings are exactly the attempted notifications of the type, and they alternate |
| AlertRuns.RunIsTruthful | internal/system/system.go:269-333 | Every notification and every new row names a type with that type's threshold and a value on the right side of it; resolved rows, and no others, have a resolution time |
| AlertDetails.EveryCycleDoes | internal/system/system.go:261-345 | In any run, whatever fails, a cycle does for the CPU and then for memory nothing, or one opening or one closing: a new row and its notification carry exactly that cycle's reading, threshold and clock reading; a closed row gets the cycle's first clock reading and keeps its other details, and its notification carries the clearing reading and the second; a change goes without its notification only if an answer of the repository was lost |
| AlertDetails.RowsTell | internal/system/system.go:266-318 | After any run, a row of its own shows exactly what one input read and, if resolved, the time of a later input not above the threshold; a row from before is as it was, or was open and shows the time of such an input, its other details kept |
| AlertDetails.NotesTell | internal/system/system.go:290-333 | After any run, every attempted notification tells exactly what one input read, and a row was created, or resolved, by that same input |
| AlertRuns.CycleCounts | internal/system/system.go:183-221 | The counts of one cycle are at most the number of its own type's samples, at most their run in such a run of the store, and equal to it before any failure |
| AlertRuns.AnsweredPipeline | internal/system/system.go:193-219 | A run of cycles with every Redis command answered has no outage, which is the premise of the exact results |
| Storage.SQLiteRepository.SaveMetrics | internal/storage/repository.go:25-59 | One row appended, sizes cut to integers, unless refused |
| Storage.SQLiteRepository.SaveAlert | internal/storage/repository.go:62-101 | A row under a new identifier; it can be there although the call failed |
| Storage.SQLiteRepository.GetActiveAlert | internal/storage/repository.go:245-287 | Some open row of the type, or none exactly when there is none |
| Storage.SQLiteRepository.ResolveAlert | internal/storage/repository.go:224-241 | Unless refused, the row is resolved at exactly the given time, its other columns and all other rows kept; an unknown identifier changes nothing |
| Storage.SQLiteRepository.GetMetrics | internal/storage/repository.go:104-155 | Every row of the range and no other, restored, in any order: the query has none |
| HistoryRuns.HistoryIsClose | internal/storage/repository.go:46-147 | After any saves with any fates, whatever order the rows come in, a range reads back one row per measurement in it whose insert took effect, and no other, each with its time and CPU unchanged, sizes less than one lower, and percentages in [0,100] less than 100/total points away |
| CollectionRuns.CollectedHistoryIsClose | internal/system/system.go:94-113 | The same over runs of collections, with failed readings and failed inserts among them: one faithful row for every reading in the range that was saved, and no other |
| CollectionRuns.FailedReadingsDoNothing | internal/system/system.go:64-92 | A run of collections leaves store, table, accounts and queue as its successful readings alone would |
| HistoryRuns.Reordered | internal/storage/repository.go:108-147 | Rows found in another order are those of the same measurements in that order |
| HistoryRuns.CutRatioIsClose | internal/storage/repository.go:142-143 | The bound for one percentage; a total of at least one never divides by zero |
| Storage.TruncateMeaning | internal/storage/repository.go:48-51 | Sizes are cut towards zero |
| Queue.RedisNotificationQueue.Push | internal/redis/notification-queue.go:33-44 | Added at the right end unless refused |
| Queue.RedisNotificationQueue.Consume | internal/redis/notification-queue.go:48-70 | An answered read takes the right end; of an empty list it answers the zero notification and no error; unanswered it is an error |
| Delivery.Worker.Run | internal/notifications/worker.go:26-64 | Every sender is offered exactly the non-zero notifications read, in order and as often as it is registered, through read errors and whatever other senders did |
| Delivery.Worker.Pass | internal/notifications/worker.go:55-62 | A failing sender does not keep the later ones from being offered the notification |
| Delivery.ReadAnswers | internal/redis/notification-queue.go:48-57 | In any run of pushes and reads, a read is an error exactly when its command is not answered, and the zero notification exactly when it is answered and the list is empty or has a zero on top |
| Delivery.QueueConserves | internal/redis/notification-queue.go:33-70 | Under any interleaving of pushes and reads, what entered is, as a multiset, what was read, dropped by a lost answer, or still listed |
| Delivery.AcceptedAreDelivered | internal/redis/notification-queue.go:33-70 | With no answer lost, accepted pushes are exactly those read or still listed |
| Delivery.DrainReverses | internal/redis/notification-queue.go:38-49 | A worker that finds notifications listed passes them on last-in-first-out |
| Delivery.BackwardsAt | internal/redis/notification-queue.go:38-49 | What last-in-first-out means: position i from the start becomes position i from the end |
| Delivery.InOrderIff | internal/redis/notification-queue.go:38-49 | Distinct notifications are read in the order of their pushes if and only if each one read was alone in the list |
| Delivery.OneAtATimeKeepsOrder | internal/redis/notification-queue.go:38-49 | In particular when every push finds the list empty |
| Delivery.RoundsPassOn | internal/notifications/worker.go:27-53 | From any state of the queue, rounds without pushes pass on exactly the non-zero notifications they take from the list |
| Cache.RedisMetricsCache.SetMetrics | internal/redis/metrics-cache.go:32-76 | Six writes in order up to the first error |
| Cache.StoreWrites | internal/redis/metrics-cache.go:32-76 | Such a call writes a prefix of its texts, each at some moment of the call, and leaves the other keys |
| Cache.StoreAnswers | internal/redis/metrics-cache.go:32-76 | It succeeds exactly when every command is answered |
| Cache.RedisMetricsCache.GetMetrics | internal/redis/metrics-cache.go:79-138 | Six reads in order up to the first error, then the percentages; a zero total is an error |
| Cache.RedisMetricsCache.GetFloatMetric | internal/redis/metrics-cache.go:140-155 | A missing key is a cache miss, a text that is no number an error |
| Cache.KeyFrames | internal/redis/metrics-cache.go:33-58 | The six key names differ, so writing one key changes one field |
| Cache.NamedTexts | internal/redis/metrics-cache.go:33-58 | Which value is printed under which name |
| CacheRuns.ZeroTotalIff | internal/redis/metrics-cache.go:112-133 | A read complains of a zero total exactly when all six keys were read and a total is zero |
| CacheRuns.FirstFailure | internal/redis/metrics-cache.go:82-110 | Otherwise a failed read of the numbers answers the error of the first that could not be read |
| CacheRuns.RoundTripBound | internal/redis/metrics-cache.go:32-138 | What comes back differs from what was set by at most 0.005 in each number, at most 1/T points in each percentage for a rounded total T, stays in [0,100], keeps whole seconds, and a second round trip changes nothing |
| CacheRuns.NoRoundTripIff | internal/redis/metrics-cache.go:127-135 | A round trip fails exactly when a total is rounded to zero |
| CacheRuns.WriteThenRead | internal/redis/metrics-cache.go:32-155 | Metrics set and read by answered commands within the expiry come back as that |
| CacheRuns.VersionsDescend | internal/redis/metrics-cache.go:32-64 | Over calls that stop anywhere, versions do not increase along the write order |
| CacheRuns.ReadShowsVersions | internal/redis/metrics-cache.go:66-138 | Each field of a successful read was written by its version's call, less than the expiry before it was read |
| CacheRuns.VersionsAgreeIff | internal/redis/metrics-cache.go:33-58 | All six versions agree if and only if those of the CPU and the time do |
| CacheRuns.SameEndsOneCall | internal/redis/metrics-cache.go:79-138 | A successful read whose CPU and time are of one call is exactly that call's metrics, rounded |
| Decimal.PrintedParses | internal/redis/metrics-cache.go:33-149 | The two-decimal text parses to the number rounded to hundredths |
| Decimal.RoundedIsClose | internal/redis/metrics-cache.go:33-53 | Rounding moves a number by at most half a hundredth |
| Decimal.RoundedIsStable | internal/redis/metrics-cache.go:33-53 | A rounded number is rounded to itself |
| Decimal.TiesGoToEven | internal/redis/metrics-cache.go:33-53 | Half way between two hundredths the even one is printed, otherwise the nearer one |
| Cpu.UsageIsExact | internal/system/data/cpu.go:95-109 | For true counters whose total increase is positive and below 2^64, the wrapped arithmetic gives exactly 100 times work over total, in [0,100], zero exactly when no work advanced and 100 exactly when idle and iowait did not |
| Cpu.SumIsExact | internal/system/data/cpu.go:105-106 | A sum that fits a word is not changed by wrapping at each addition |

## Left out

- Counter overflow: INCR and the in-memory counter are unbounded integers here, 64-bit in the program.
- Expiries are positive whole seconds: a zero or sub-second expiry, which the client library and the script treat differently, is not modelled.
- Floating point: usage, sizes and percentages are reals, so rounding of doubles, infinities and NaN are not modelled; a stored total of zero reads back as `NotFinite`.
- Cpu.Usage: requires a non-zero total, where the program's division gives NaN.
- Decimal.ParseFloat: accepts plain decimal numbers only; exponents, hexadecimal and special values are not among the texts the cache writes.
- Cache.PrintTime: stands for the RFC 3339 text by its count of whole seconds; time zones are not modelled.
- Monitor.System.CollectMetrics: does not set the sampled Prometheus gauges.
- AlertRuns.PipelineAfter: its schedule numbers the alert store's commands only; on a connection shared with the cache, the cache's commands count as time before the next of them.
- Retries of the client library: the program sets no limit on them (internal/redis/redis.go:22-26), so a command whose answer was lost, such as an INCR or an RPUSH, can be sent again, take effect twice and be answered. None of the three fates covers that.
- Delivery.Worker.Run: stops after a given number of reads, standing for the cancellation of its context.
- The queue is modelled apart from the Redis keys: its list is a key of its own.
- Queue.RedisNotificationQueue.Consume: queue entries are notifications, not their JSON text; malformed entries are not modelled.
- Errors are kinds; their messages are not modelled.
- Process restart: `redisFailed` lives in one process, so runs start from empty backends.
- `GetState` of the Redis store and `SetState` of the in-memory store, which are stubs.
- `GetAlerts` and the HTTP handlers, middleware and JSON rendering: listing and plumbing.
- Configuration loading and updates: the alert logic does not read them.
- Reading `/proc` and the file system: samples are inputs.
- The HTTP sender's retries and backoff: a sender is an operation that may fail.
- Concurrency beyond one collector and interleaved queue operations: mutexes, shutdown, and cache readers in the middle of a write.
- SQL timestamps are compared as instants.
