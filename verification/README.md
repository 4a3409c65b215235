# MoneyBear offline-first sync layer in Dafny

This project models the offline-first synchronisation layer of MoneyBear, a personal-finance app for Android. Its parts are:

- the transaction table with its sync envelope: `dirty`, `pendingOp`, `updatedAtLocal`, `updatedAtServer` and `deleted`;
- the settings store, a key/value record with `settingsDirty` and `settingsUpdatedAt`, plus a savings-goal list that carries its own INSERT/UPDATE/DELETE envelope;
- the Room tables that mirror the settings;
- the `SyncRepository` that reconciles all of this with a remote backend.

The model proves four things:

- the conflict rules a pull, a push, a bootstrap and the settings and goal merges follow;
- the text codec of the goal list;
- the month-key arithmetic;
- the language sanitiser.

## Files and modules

| file | module | what it holds |
|---|---|---|
| wrappers.dfy | `Wrappers` | `Option`, `Result` |
| text.dfy | `Text` | the JVM whitespace set, `trim`, ASCII `lowercase`, `split`/`joinToString` on one character, decimal `toString`/`toLongOrNull` |
| ordering.dfy | `Ordering` | lexicographic keys and the stable sort behind `sortedBy` and `ORDER BY` |
| transaction.dfy | `TransactionModel` | the `Transaction` row, `TxType` and its Room converters |
| transaction_dao.dfy | `TransactionStore` | class `TransactionDao` over a `map<string, Transaction>` with the UPDATE, DELETE and SELECT statements |
| transaction_repository.dfy | `TransactionRepositories` | class `TransactionRepository`: write normalisation, soft delete, `listRecent` |
| time_utils.dfy | `TimeUtils` | `"yyyy-MM"` keys: `addMonths`, `monthSequence`, `monthWindow` |
| language_config.dfy | `LanguageConfig` | `sanitize` against the supported-language set |
| savings_goal.dfy | `SavingsGoals` | the goal record, list normalisation, add/update/delete edits, bootstrap re-flagging, acknowledgement |
| goal_merge.dfy | `GoalMerge` | `mergeSavingsGoals`, as a method with its loops and as a specification proved per goal id |
| goal_codec.dfy | `GoalCodec` | `encodeGoals`/`decodeGoals` and their round trip |
| savings_goal_dto.dfy | `SavingsGoalDtos` | `SavingsGoalDTO.toDomain`/`toDto` |
| settings_prefs.dfy | `SettingsPrefs` | the preference record, the snapshot, category text, and the pure edits: dirty/clean, apply remote, start day |
| settings_dao.dfy | `SettingsTables` | class `SettingsDao` over the `budgets`, `expense_categories` and `savings_goals` tables |
| settings_store.dfy | `SettingsStores` | class `SettingsStore`: the preferences as a field, setters, goal operations, the optional table mirror |
| sync_repository.dfy | `SyncRepositories` | class `SyncRepository`: bootstrap, settings sync, the delta loop, push, goal sync, the DTO mappers |

Remote answers are parameters of the sync methods:

- the `ensureUserDocument` result, as `Option<EnsureUserResult>`;
- the pulled deltas;
- the push acknowledgement;
- the fetched settings and goals.

Some of the data the sync methods send out comes back as out-parameters: `PushDirtyBatch` returns the pushed batch and the pushed settings DTO, and `PushPendingGoals` and `SyncSavingsGoalsInternal` return the pushed goal DTOs. `PullAndMerge`, `PushSettingsAndGoals` and `SyncSavingsGoals` do not return the goal DTOs they push; their contracts state the resulting goal key instead. The clock is a `now` parameter.

## Model

| member | source | states |
|---|---|---|
| TransactionModel.NewTransaction | app/src/main/java/com/jan/moneybear/data/local/Transaction.kt:12-31 | A row built with only its required arguments is dirty, pending INSERT, never synced, not deleted or planned, without a goal (impact 0), of type EXPENSE, stamped with the construction time. |
| TransactionModel.BootstrapOp | app/src/main/java/com/jan/moneybear/data/local/TransactionDao.kt:124-129 | The re-flag operation keeps a pending DELETE or INSERT, otherwise DELETE for a tombstone and UPDATE for a live row; a tombstone never gets UPDATE. |
| TransactionModel.FromTxType | app/src/main/java/com/jan/moneybear/data/local/Converters.kt:8 | null maps to null; otherwise the result is the enum name, "EXPENSE" or "INCOME". |
| TransactionModel.ToTxType | app/src/main/java/com/jan/moneybear/data/local/Converters.kt:11 | null maps to null; a string succeeds exactly when it is an enum name; any other string is the failure `valueOf` throws. |
| TransactionModel.ConvertersRoundTrip | app/src/main/java/com/jan/moneybear/data/local/Converters.kt:8-11 | `toTxType(fromTxType(t)) == t` for every value, null included. |
| TransactionModel.ConvertersRoundTripText | app/src/main/java/com/jan/moneybear/data/local/Converters.kt:8-11 | Every string `toTxType` accepts is given back by `fromTxType`. |
| TransactionStore.Tombstone | app/src/main/java/com/jan/moneybear/data/local/TransactionDao.kt:25-26 | `markDeleted` sets deleted, dirty, pending DELETE and the local time; id, payload and server time are kept. |
| TransactionStore.Reflagged | app/src/main/java/com/jan/moneybear/data/local/TransactionDao.kt:119-133 | `markAllDirty` makes the row dirty at `now` with the bootstrap operation; id, deletion and server time are kept. |
| TransactionStore.Synced | app/src/main/java/com/jan/moneybear/data/local/TransactionDao.kt:135-136 | `markSynced` clears dirty and the pending operation and sets the server time; everything else is kept. |
| TransactionStore.ReflaggedTwice | app/src/main/java/com/jan/moneybear/data/local/TransactionDao.kt:119-133 | Marking all dirty twice equals marking once at the later time. |
| TransactionStore.ReflaggedAfterSync | app/src/main/java/com/jan/moneybear/data/local/TransactionDao.kt:119-136 | A synced row re-flagged at bootstrap is offered as DELETE if tombstoned, else UPDATE. |
| TransactionStore.TombstoneTwice | app/src/main/java/com/jan/moneybear/data/local/TransactionDao.kt:25-26 | Deleting a deleted row again only moves its local time. |
| TransactionStore.Limited | app/src/main/java/com/jan/moneybear/data/local/TransactionDao.kt:116-117 | `LIMIT n` keeps a prefix of `min(n, size)` rows; a negative limit keeps all. |
| TransactionStore.TransactionDao.Upsert | app/src/main/java/com/jan/moneybear/data/local/TransactionDao.kt:22-23 | The row is stored under its id; every other row is unchanged. |
| TransactionStore.TransactionDao.MarkDeleted | app/src/main/java/com/jan/moneybear/data/local/TransactionDao.kt:25-26 | Only row `id` changes, to its tombstone; a missing id changes nothing and no row is removed. |
| TransactionStore.TransactionDao.GetById | app/src/main/java/com/jan/moneybear/data/local/TransactionDao.kt:31-35 | Returns the row stored under the id, or null exactly when there is none. |
| TransactionStore.TransactionDao.Select | app/src/main/java/com/jan/moneybear/data/local/TransactionDao.kt:28-53 | The rows matching a WHERE clause: exactly the matching rows, each once. |
| TransactionStore.TransactionDao.ListMonth | app/src/main/java/com/jan/moneybear/data/local/TransactionDao.kt:28-29 | Exactly the live rows of the month, newest date first. |
| TransactionStore.TransactionDao.ListFuture | app/src/main/java/com/jan/moneybear/data/local/TransactionDao.kt:40-41 | Exactly the live rows dated after `fromMillis`, oldest first. |
| TransactionStore.TransactionDao.TransactionsBetween | app/src/main/java/com/jan/moneybear/data/local/TransactionDao.kt:43-50 | Exactly the live rows dated in the closed range, oldest first. |
| TransactionStore.TransactionDao.ListRecent | app/src/main/java/com/jan/moneybear/data/local/TransactionDao.kt:37-38 | Up to `limit` live rows, most recently edited first; no left-out live row comes before a returned one. |
| TransactionStore.TransactionDao.ListOlderThan | app/src/main/java/com/jan/moneybear/data/local/TransactionDao.kt:52-53 | Up to `limit` live rows of months before the bound, newest first, and the newest such rows. |
| TransactionStore.TransactionDao.Dirty | app/src/main/java/com/jan/moneybear/data/local/TransactionDao.kt:116-117 | At most `limit` distinct rows, all dirty and as stored; when fewer than the limit come back, every dirty row is among them. |
| TransactionStore.TransactionDao.MarkAllDirty | app/src/main/java/com/jan/moneybear/data/local/TransactionDao.kt:119-133 | Every row becomes its re-flagged form; no row is added or removed. |
| TransactionStore.TransactionDao.MarkSynced | app/src/main/java/com/jan/moneybear/data/local/TransactionDao.kt:135-136 | Exactly the listed rows become synced at `updatedAt`; others are unchanged. |
| TransactionStore.TransactionDao.PurgeDeleted | app/src/main/java/com/jan/moneybear/data/local/TransactionDao.kt:138-139 | Exactly the tombstones dated before the bound are removed; survivors are unchanged. |
| TransactionRepositories.SaveOp | app/src/main/java/com/jan/moneybear/domain/TransactionRepository.kt:78-82 | DELETE and INSERT are kept; otherwise INSERT if never synced, else UPDATE. |
| TransactionRepositories.Normalize | app/src/main/java/com/jan/moneybear/domain/TransactionRepository.kt:75-89 | The saved row is dirty, stamped `now`, and carries `SaveOp`. A null or blank goal id becomes null with impact 0. Every other field (id, uid, amount, currency, date, month, category, note, planned, deleted, server time, type) is kept. |
| TransactionRepositories.NormalizeTwice | app/src/main/java/com/jan/moneybear/domain/TransactionRepository.kt:75-89 | Saving a saved row again changes only its local time. |
| TransactionRepositories.Shown | app/src/main/java/com/jan/moneybear/domain/TransactionRepository.kt:30-33 | Exactly the rows that are not savings-only (amount 0 with a goal id). |
| TransactionRepositories.ShownKeepsOrder | app/src/main/java/com/jan/moneybear/domain/TransactionRepository.kt:30-33 | Filtering keeps the table's most-recent-first order. |
| TransactionRepositories.TransactionRepository.AddOrUpdate | app/src/main/java/com/jan/moneybear/domain/TransactionRepository.kt:75-91 | The table holds the normalised row under its id; nothing else changes. |
| TransactionRepositories.TransactionRepository.Delete | app/src/main/java/com/jan/moneybear/domain/TransactionRepository.kt:93-95 | Only a tombstone is written; the key set is unchanged (no hard delete). |
| TransactionRepositories.TransactionRepository.MarkSynced | app/src/main/java/com/jan/moneybear/domain/TransactionRepository.kt:97-100 | An empty id list leaves the table as it was; otherwise exactly the listed rows are synced. |
| TransactionRepositories.TransactionRepository.ListRecent | app/src/main/java/com/jan/moneybear/domain/TransactionRepository.kt:30-33 | `fetched` is the table's `LIMIT` query: the `limit` most recently edited live rows, no left-out live row ranking before a returned one. The result is exactly the rows of `fetched` that are not savings-only, in the same order, most recent first. |
| TimeUtils.ParseFormat | app/src/main/java/com/jan/moneybear/domain/TimeUtils.kt:47-48 | Formatting a month index as `yyyy-MM` and parsing it back gives that index. |
| TimeUtils.FormatParse | app/src/main/java/com/jan/moneybear/domain/TimeUtils.kt:47-48 | Every key the parser accepts is the formatted form of its own index. |
| TimeUtils.AddMonths | app/src/main/java/com/jan/moneybear/domain/TimeUtils.kt:20-24 | Defined exactly for a valid key whose result stays within years 0001-9999; the result is then the key `offset` months later. |
| TimeUtils.AddMonthsZero | app/src/main/java/com/jan/moneybear/domain/TimeUtils.kt:20-24 | `addMonths(k, 0) == k` for a valid key. |
| TimeUtils.AddMonthsAdd | app/src/main/java/com/jan/moneybear/domain/TimeUtils.kt:20-24 | `addMonths(addMonths(k, a), b) == addMonths(k, a + b)`. |
| TimeUtils.MonthSequence | app/src/main/java/com/jan/moneybear/domain/TimeUtils.kt:26-29 | Requires `count >= 0`; gives `count` keys, defined exactly when every entry is. |
| TimeUtils.MonthSequenceEntries | app/src/main/java/com/jan/moneybear/domain/TimeUtils.kt:26-29 | Entry `i` is `addMonths(start, i * step)`, and each entry is `step` months after the one before. |
| TimeUtils.SequenceNeighbours | app/src/main/java/com/jan/moneybear/domain/TimeUtils.kt:26-29 | Moving entry `i` by `step` months gives entry `i + 1`. |
| TimeUtils.MonthWindow | app/src/main/java/com/jan/moneybear/domain/TimeUtils.kt:31-38 | Requires `past, future >= 0`; gives `past + future + 1` keys, defined exactly when the centre parses and both ends are representable. |
| TimeUtils.MonthWindowEntries | app/src/main/java/com/jan/moneybear/domain/TimeUtils.kt:35-38 | Entry `past` is the centre; entry `i` is `addMonths(center, i - past)` and has index `center + i - past`, so the keys are consecutive and ascending. |
| LanguageConfig.Sanitize | app/src/main/java/com/jan/moneybear/domain/LanguageConfig.kt:9-16 | The result is always supported; null or blank gives "en"; any other result is the trimmed, lower-cased input or its prefix before the first `-`. |
| LanguageConfig.SanitizeKeepsSupported | app/src/main/java/com/jan/moneybear/domain/LanguageConfig.kt:11-12 | A supported code, once trimmed and lower-cased, comes back unchanged. |
| LanguageConfig.SanitizeRegionFallback | app/src/main/java/com/jan/moneybear/domain/LanguageConfig.kt:13-15 | An unsupported tag whose prefix is supported falls back to that prefix. |
| LanguageConfig.SanitizeIdempotent | app/src/main/java/com/jan/moneybear/domain/LanguageConfig.kt:9-16 | Sanitizing twice equals sanitizing once. |
| Text.Trim | app/src/main/java/com/jan/moneybear/data/store/SettingsStore.kt:117 | The trimmed text starts and ends with non-whitespace, and is empty exactly when the input is blank. |
| Text.TrimIdempotent | app/src/main/java/com/jan/moneybear/data/store/SettingsStore.kt:117 | Trimming twice equals trimming once. |
| Text.Split | app/src/main/java/com/jan/moneybear/data/store/SettingsStore.kt:137-138 | Splitting gives at least one part, none holding the delimiter. |
| Text.SplitJoin | app/src/main/java/com/jan/moneybear/data/store/SettingsStore.kt:121-138 | Splitting a join of delimiter-free parts gives the parts back. |
| Text.JoinSplit | app/src/main/java/com/jan/moneybear/data/store/SettingsStore.kt:107-117 | Joining the parts of a split gives the text back. |
| Text.ParseIntToString | app/src/main/java/com/jan/moneybear/data/store/SettingsStore.kt:127-148 | A number written in decimal parses back to itself. |
| Text.ParseInt | app/src/main/java/com/jan/moneybear/data/store/SettingsStore.kt:147-148 | Accepts exactly an optional sign followed by at least one ASCII digit; unsigned text gives a value at least 0 and a leading minus one at most 0. |
| Ordering.SortBy | app/src/main/java/com/jan/moneybear/data/store/SettingsStore.kt:178-179 | The result is sorted by the key and a permutation of the input (stability is `SortByStable`). |
| Ordering.Insert | app/src/main/java/com/jan/moneybear/data/store/SettingsStore.kt:178-179 | Inserting into a sorted list keeps it sorted and adds exactly that element. |
| Ordering.SortByMembers | app/src/main/java/com/jan/moneybear/data/store/SettingsStore.kt:178-179 | Sorting keeps exactly the same members. |
| Ordering.SortByStable | app/src/main/java/com/jan/moneybear/data/store/SettingsStore.kt:178-179 | `sortedBy` is stable: for every key, the elements with that key come out in the order they went in. |
| SavingsGoalDtos.ToDomain | app/src/main/java/com/jan/moneybear/data/remote/SavingsGoalDTO.kt:13-21 | A server goal has no pending operation and no deadline; other fields are copied. |
| SavingsGoalDtos.ToDto | app/src/main/java/com/jan/moneybear/data/remote/SavingsGoalDTO.kt:23-32 | id, name, target and deleted are copied; `updatedAt` is kept when positive, else `now`. |
| SavingsGoalDtos.ToDomainToDto | app/src/main/java/com/jan/moneybear/data/remote/SavingsGoalDTO.kt:13-32 | `toDomain(toDto(g, now))` is `g` without pending operation and deadline, with the fallback time. |
| SavingsGoalDtos.ToDtoToDomain | app/src/main/java/com/jan/moneybear/data/remote/SavingsGoalDTO.kt:13-32 | A DTO with a positive time survives `toDto(toDomain(d))` unchanged. |
| SavingsGoalDtos.RemoteGoalsAreClean | app/src/main/java/com/jan/moneybear/data/remote/SavingsGoalDTO.kt:5-21 | Every fetched goal arrives with no pending operation and no deadline. |
| SavingsGoals.RemoveStaleDeletes | app/src/main/java/com/jan/moneybear/data/store/SettingsStore.kt:175-176 | Exactly the goals that are not acknowledged tombstones. |
| SavingsGoals.WithoutId | app/src/main/java/com/jan/moneybear/data/store/SettingsStore.kt:529-531 | Exactly the goals with another id. |
| SavingsGoals.SortedByName | app/src/main/java/com/jan/moneybear/data/store/SettingsStore.kt:178-179 | A permutation sorted by the lower-cased name. |
| SavingsGoals.SortedByNameStable | app/src/main/java/com/jan/moneybear/data/store/SettingsStore.kt:178-179 | Goals whose lower-cased names are equal keep their relative order. |
| SavingsGoals.Persisted | app/src/main/java/com/jan/moneybear/data/store/SettingsStore.kt:754-760 | The stored list has no acknowledged tombstone, is sorted by name, and holds every other goal. |
| SavingsGoals.GoalName | app/src/main/java/com/jan/moneybear/data/store/SettingsStore.kt:516 | The trimmed name, or the default name when it trims to empty. |
| SavingsGoals.NewGoal | app/src/main/java/com/jan/moneybear/data/store/SettingsStore.kt:515-526 | A new goal is pending INSERT, live, stamped `now`, with target `max(target, 0)`. |
| SavingsGoals.AddGoal | app/src/main/java/com/jan/moneybear/data/store/SettingsStore.kt:528-532 | The new goal is in the list. Every other member is a stored goal that is not the legacy one. Every stored goal that is neither legacy nor an acknowledged tombstone is kept. |
| SavingsGoals.EditedGoal | app/src/main/java/com/jan/moneybear/data/store/SettingsStore.kt:549-563 | An edit sets name, target (at least 0), deadline and time, clears `deleted`, and keeps INSERT or else sets UPDATE. |
| SavingsGoals.EditGoals | app/src/main/java/com/jan/moneybear/data/store/SettingsStore.kt:549-566 | Goals with the id are edited in place; every other goal is unchanged. |
| SavingsGoals.UpdateGoal | app/src/main/java/com/jan/moneybear/data/store/SettingsStore.kt:548-567 | Sorted by name, with no acknowledged tombstone. The other goals are the stored ones minus acknowledged tombstones. Every live stored copy of the goal is replaced by its edit, and every copy left is live, carries the new name, deadline and time, a target at least 0 (the given one when not negative), and a pending operation. |
| SavingsGoals.DeleteGoal | app/src/main/java/com/jan/moneybear/data/store/SettingsStore.kt:580-591 | Other goals are kept. Every goal left with the id is a tombstone pending DELETE at `now`; one the server has seen is tombstoned, and when all goals with the id are pending INSERT none is left. |
| SavingsGoals.ReflaggedGoal | app/src/main/java/com/jan/moneybear/data/store/SettingsStore.kt:498-507 | Only the pending operation (the bootstrap operation) and the time change. |
| SavingsGoals.ReflagAll | app/src/main/java/com/jan/moneybear/data/store/SettingsStore.kt:498-508 | Every goal, in place, re-flagged at `now`. |
| SavingsGoals.ReflagAllPending | app/src/main/java/com/jan/moneybear/data/store/SettingsStore.kt:498-508 | After re-flagging every goal is pending, none is an acknowledged tombstone, and deleted goals are pending DELETE or INSERT. |
| SavingsGoals.PendingGoals | app/src/main/java/com/jan/moneybear/data/store/SettingsStore.kt:598-599 | Exactly the stored goals that are pending and not the legacy goal. |
| SavingsGoals.LastWithId | app/src/main/java/com/jan/moneybear/data/store/SettingsStore.kt:624 | `associateBy` keeps the last goal with an id; none exactly when the id is absent. |
| SavingsGoals.KeyOrder | app/src/main/java/com/jan/moneybear/data/store/SettingsStore.kt:639 | The map's key order holds exactly the ids present. |
| SavingsGoals.ById | app/src/main/java/com/jan/moneybear/data/store/SettingsStore.kt:624 | The map holds exactly the ids present, each with its last goal. |
| SavingsGoals.AckOne | app/src/main/java/com/jan/moneybear/data/store/SettingsStore.kt:629-637 | A deleted ack drops the goal; otherwise the goal takes the ack's name, target and time, with no pending operation and not deleted. |
| SavingsGoals.AckedCurrent | app/src/main/java/com/jan/moneybear/data/store/SettingsStore.kt:628-638 | Unacknowledged goals are kept as they are; acknowledged goals become their acked form or are dropped. |
| SavingsGoals.Extras | app/src/main/java/com/jan/moneybear/data/store/SettingsStore.kt:639-641 | Exactly the non-deleted acks whose id the list did not have. |
| SavingsGoals.AckGoals | app/src/main/java/com/jan/moneybear/data/store/SettingsStore.kt:622-645 | The acknowledged list is sorted by name and holds exactly the acked current goals plus the extras. |
| SavingsGoals.AckKeepsUnacknowledged | app/src/main/java/com/jan/moneybear/data/store/SettingsStore.kt:629 | A goal with no ack survives unchanged. |
| SavingsGoals.AckAdoptsServerCopy | app/src/main/java/com/jan/moneybear/data/store/SettingsStore.kt:630-637 | An acked goal takes the ack's name, target and time and is clean. |
| SavingsGoals.AckDropsDeleted | app/src/main/java/com/jan/moneybear/data/store/SettingsStore.kt:637 | A goal whose ack is deleted is removed entirely. |
| SavingsGoals.AckAddsUnknown | app/src/main/java/com/jan/moneybear/data/store/SettingsStore.kt:639-641 | A non-deleted ack for an unknown id is added. |
| SavingsGoals.AckLeavesNothingPending | app/src/main/java/com/jan/moneybear/data/store/SettingsStore.kt:630-637 | Every surviving acknowledged goal is clean and live. |
| GoalMerge.MergeDecision | app/src/main/java/com/jan/moneybear/data/store/SettingsStore.kt:707-743 | A goal only the server has is adopted clean unless deleted. A clean local goal is dropped by a server deletion, takes the clean server copy when `RemoteChanged`, and stays otherwise. A pending local goal gives way only to a strictly newer server copy (dropped if that copy is deleted) and otherwise stays with nothing counted. `applied` is at most 1 and counts a change of local state, except a tombstone the server also deleted. |
| GoalMerge.RemoteOutcomes | app/src/main/java/com/jan/moneybear/data/store/SettingsStore.kt:706-744 | The goals left in the local map after the remote pass are unchanged local goals. |
| GoalMerge.Leftovers | app/src/main/java/com/jan/moneybear/data/store/SettingsStore.kt:745-749 | No acknowledged tombstone among the remaining local goals is kept. |
| GoalMerge.ApplyRemoteGoals | app/src/main/java/com/jan/moneybear/data/store/SettingsStore.kt:703-744 | The remote loop, removing each matched id from the local map, computes exactly the specified pass. |
| GoalMerge.AppendLeftovers | app/src/main/java/com/jan/moneybear/data/store/SettingsStore.kt:745-749 | The leftover loop appends exactly the specified leftovers, in the local key order. |
| GoalMerge.MergeSavingsGoals | app/src/main/java/com/jan/moneybear/data/store/SettingsStore.kt:698-752 | The method computes `MergeSpec`; the result has no acknowledged tombstone and is sorted by name. |
| GoalMerge.MergeSpec | app/src/main/java/com/jan/moneybear/data/store/SettingsStore.kt:698-752 | The merged list has no acknowledged tombstone and is sorted by name; an empty remote list gives the normalised local list and 0; the count is at most the number of remote goals. |
| GoalMerge.MergeById | app/src/main/java/com/jan/moneybear/data/store/SettingsStore.kt:698-752 | Per id, the merged list holds exactly the merge decision for the first remote goal with that id, or else the local goal, minus acknowledged tombstones. |
| GoalMerge.MergeBothSides | app/src/main/java/com/jan/moneybear/data/store/SettingsStore.kt:707-743 | For an id present on both sides, the merged list holds exactly what `MergeDecision` keeps for that pair, minus an acknowledged tombstone. |
| GoalMerge.MergePendingLocal | app/src/main/java/com/jan/moneybear/data/store/SettingsStore.kt:717-726 | A pending local goal stays unless the server copy is strictly newer; then it becomes the clean server copy, or disappears if the server deleted it. |
| GoalMerge.MergeCleanLocal | app/src/main/java/com/jan/moneybear/data/store/SettingsStore.kt:728-742 | A clean local goal disappears when the server deleted it, becomes the clean server copy when that copy is newer or differs in name, target or deadline, and otherwise stays (unless it is an acknowledged tombstone). |
| GoalMerge.MergeAdoptsRemoteOnly | app/src/main/java/com/jan/moneybear/data/store/SettingsStore.kt:710-715 | A remote-only goal is adopted clean unless it is deleted. |
| GoalMerge.MergeKeepsLocalOnly | app/src/main/java/com/jan/moneybear/data/store/SettingsStore.kt:745-749 | A local-only goal survives unless it is an acknowledged tombstone. |
| GoalMerge.MergeScenarioNewerRemote | app/src/main/java/com/jan/moneybear/data/store/SettingsStore.kt:733-739 | A clean local goal is replaced by a newer server copy, and that counts once. |
| GoalMerge.MergeScenarioPendingWins | app/src/main/java/com/jan/moneybear/data/store/SettingsStore.kt:716-726 | A pending local edit beats an older server copy, and nothing is counted. |
| GoalCodec.EncodeName | app/src/main/java/com/jan/moneybear/data/store/SettingsStore.kt:123 | The encoded name holds neither delimiter. |
| GoalCodec.DecodeEncodeName | app/src/main/java/com/jan/moneybear/data/store/SettingsStore.kt:123-144 | Decoding an encoded name gives the name back. |
| GoalCodec.ParseFlag | app/src/main/java/com/jan/moneybear/data/store/SettingsStore.kt:161-162 | True exactly for "1" or "true" in any letter case. |
| GoalCodec.OptionalInt | app/src/main/java/com/jan/moneybear/data/store/SettingsStore.kt:147 | An absent or blank field gives null; otherwise the parsed number. |
| GoalCodec.DecodeGoal | app/src/main/java/com/jan/moneybear/data/store/SettingsStore.kt:138-151 | An entry decodes exactly when it has at least three fields and both name and target decode; id, name and target come from fields 0-2; a decoded pending operation is never blank. |
| GoalCodec.DecodeEntries | app/src/main/java/com/jan/moneybear/data/store/SettingsStore.kt:137-152 | Every decoded goal comes from one entry; malformed entries are skipped. |
| GoalCodec.DecodeGoals | app/src/main/java/com/jan/moneybear/data/store/SettingsStore.kt:135-136 | Null or blank text is the empty list. |
| GoalCodec.DecodeEncodeGoal | app/src/main/java/com/jan/moneybear/data/store/SettingsStore.kt:121-151 | One goal whose id and pending operation hold no delimiter survives encode then decode. |
| GoalCodec.DecodeEncodeGoals | app/src/main/java/com/jan/moneybear/data/store/SettingsStore.kt:121-153 | `decodeGoals(encodeGoals(gs)) == gs` for such goals. |
| GoalCodec.EncodeGoals | app/src/main/java/com/jan/moneybear/data/store/SettingsStore.kt:121-133 | An empty list gives empty text; any other list gives text holding a field delimiter, so it is never read back as empty. |
| SettingsPrefs.MarkedDirty | app/src/main/java/com/jan/moneybear/data/store/SettingsStore.kt:164-167 | Sets dirty and the update time to `now`; no other key changes. |
| SettingsPrefs.MarkedClean | app/src/main/java/com/jan/moneybear/data/store/SettingsStore.kt:169-172 | Clears dirty and sets the update time; no other key changes. |
| SettingsPrefs.Clamp | app/src/main/java/com/jan/moneybear/data/store/SettingsStore.kt:284 | `coerceIn(lo, hi)`. |
| SettingsPrefs.ConvertEndDayToStart | app/src/main/java/com/jan/moneybear/data/store/SettingsStore.kt:155-159 | End days 1-30 map to the next day; anything else maps to 1; the result is in 1..31. |
| SettingsPrefs.TrimmedNonEmpty | app/src/main/java/com/jan/moneybear/data/store/SettingsStore.kt:117 | Exactly the non-empty trimmed items, each already trimmed. |
| SettingsPrefs.Distinct | app/src/main/java/com/jan/moneybear/data/store/SettingsStore.kt:281 | Same members, no repeats. |
| SettingsPrefs.CleanCategories | app/src/main/java/com/jan/moneybear/data/store/SettingsStore.kt:281-282 | Trimmed, non-empty, repeat-free, and holding exactly the non-empty trimmed inputs. |
| SettingsPrefs.ReadCategories | app/src/main/java/com/jan/moneybear/data/store/SettingsStore.kt:110-119 | Missing or blank text gives the fallback; any other answer is a list of clean items. |
| SettingsPrefs.TrimmedNonEmptyFixed | app/src/main/java/com/jan/moneybear/data/store/SettingsStore.kt:117 | Already clean items pass the filter unchanged. |
| SettingsPrefs.ParseWrittenCategories | app/src/main/java/com/jan/moneybear/data/store/SettingsStore.kt:106-119 | A written non-empty cleaned list, once split and trimmed, reads back unchanged. |
| SettingsPrefs.WrittenCategoriesReadBack | app/src/main/java/com/jan/moneybear/data/store/SettingsStore.kt:106-119 | Reading what a category setter wrote gives the cleaned list, or the fallback when that list is empty or the legacy list. |
| SettingsPrefs.SnapshotOf | app/src/main/java/com/jan/moneybear/data/store/SettingsStore.kt:258-278 | The language is supported. Time and dirty default to 0 and false. The start day is the stored one, else the converted legacy end day, else the default. A missing currency reads as the default. |
| SettingsPrefs.NonNegativeOrNone | app/src/main/java/com/jan/moneybear/data/store/SettingsStore.kt:283 | `takeIf { it >= 0 }`. |
| SettingsPrefs.PositiveOrNone | app/src/main/java/com/jan/moneybear/data/store/SettingsStore.kt:287 | `takeIf { it > 0 }`. |
| SettingsPrefs.RemoteApplied | app/src/main/java/com/jan/moneybear/data/store/SettingsStore.kt:280-322 | The settings are left clean at the remote time, with the legacy end day removed. Checkpoint, goals and legacy goal keys are untouched. The baseline is either fully set or fully removed. |
| SettingsPrefs.AppliedSnapshotReadsBack | app/src/main/java/com/jan/moneybear/data/store/SettingsStore.kt:258-322 | After applying a remote snapshot, the local snapshot holds its sanitized fields (language, currency, cleaned categories, budget of at least 0, clamped day, theme, accent) and is clean at the remote time. |
| SettingsPrefs.StartDayEditAsWritten | app/src/main/java/com/jan/moneybear/data/store/SettingsStore.kt:420-436 | The start-day setter as written: the day read becomes the clamped value (or the default) and the legacy end day is removed; the settings are marked dirty exactly when the new day differs from the stored start-day key, otherwise nothing else changes. |
| SettingsPrefs.StartDayEditMissesLegacyChange | app/src/main/java/com/jan/moneybear/data/store/SettingsStore.kt:424-434 | With only a legacy end day of 14 (start day 15), setting day 1 changes the effective day to 1 without marking the settings dirty. |
| SettingsPrefs.StartDayEdit | app/src/main/java/com/jan/moneybear/data/store/SettingsStore.kt:420-436 | Corrected rule (see Findings; the store uses the setter as written): the effective day becomes the clamped value (or the default), and settings are marked dirty exactly when the effective day changes. |
| SettingsTables.LastKeyed | app/src/main/java/com/jan/moneybear/data/local/SettingsDao.kt:46-47 | The last row with a key is in the list; none exactly when the key is absent. |
| SettingsTables.UpsertAllLookup | app/src/main/java/com/jan/moneybear/data/local/SettingsDao.kt:46-47 | After upserting a list, each key holds its last row in the list, or its old row if the list lacks it. |
| SettingsTables.SettingsDao.UpsertBudget | app/src/main/java/com/jan/moneybear/data/local/SettingsDao.kt:15-16 | The budget is stored under its id. Written always with id 0, the table stays a single row. Other tables are unchanged. |
| SettingsTables.SettingsDao.ClearBudget | app/src/main/java/com/jan/moneybear/data/local/SettingsDao.kt:18-19 | The budget table is empty. |
| SettingsTables.SettingsDao.UpsertExpenseCategories | app/src/main/java/com/jan/moneybear/data/local/SettingsDao.kt:24-25 | The table is the row-by-row upsert of the list. |
| SettingsTables.SettingsDao.DeleteMissingExpenseCategories | app/src/main/java/com/jan/moneybear/data/local/SettingsDao.kt:27-28 | Exactly the named rows remain, unchanged. |
| SettingsTables.SettingsDao.ReplaceExpenseCategories | app/src/main/java/com/jan/moneybear/data/local/SettingsDao.kt:33-41 | The keys are exactly the given names, each with its last row; an empty list empties the table. |
| SettingsTables.SettingsDao.ObserveExpenseCategories | app/src/main/java/com/jan/moneybear/data/local/SettingsDao.kt:21-22 | Exactly the live rows, each once, ordered by position. |
| SettingsTables.SettingsDao.LiveCategories | app/src/main/java/com/jan/moneybear/data/local/SettingsDao.kt:21-22 | The `deleted = 0` filter: exactly the live rows, one per name. |
| SettingsTables.SettingsDao.ClearExpenseCategories | app/src/main/java/com/jan/moneybear/data/local/SettingsDao.kt:30-31 | The category table is empty. |
| SettingsTables.SettingsDao.UpsertSavingsGoals | app/src/main/java/com/jan/moneybear/data/local/SettingsDao.kt:46-47 | The table is the row-by-row upsert of the list. |
| SettingsTables.SettingsDao.DeleteMissingSavingsGoals | app/src/main/java/com/jan/moneybear/data/local/SettingsDao.kt:49-50 | Exactly the listed ids remain, unchanged. |
| SettingsTables.SettingsDao.DeleteSavingsGoal | app/src/main/java/com/jan/moneybear/data/local/SettingsDao.kt:52-53 | Only that row is removed. |
| SettingsTables.SettingsDao.ClearSavingsGoals | app/src/main/java/com/jan/moneybear/data/local/SettingsDao.kt:65-66 | The goal table is empty. |
| SettingsTables.SettingsDao.ReplaceSavingsGoals | app/src/main/java/com/jan/moneybear/data/local/SettingsDao.kt:55-63 | The keys are exactly the given ids, each with its last row; an empty list empties the table. |
| SettingsStores.GoalsText | app/src/main/java/com/jan/moneybear/data/store/SettingsStore.kt:754-761 | The key is removed exactly when nothing is left to persist. |
| SettingsStores.GoalsTextRoundTrip | app/src/main/java/com/jan/moneybear/data/store/SettingsStore.kt:754-761 | Reading the stored key back gives the persisted list: no acknowledged tombstones, sorted by name. |
| SettingsStores.MergedGoalsText | app/src/main/java/com/jan/moneybear/data/store/SettingsStore.kt:607-618 | An empty remote list leaves the key alone; otherwise the key holds the merge of the stored goals, without acknowledged tombstones, with the remote ones. |
| SettingsStores.AckedGoalsText | app/src/main/java/com/jan/moneybear/data/store/SettingsStore.kt:622-645 | An empty ack list leaves the key alone; otherwise the key holds the acknowledged list. |
| SettingsStores.CategoryRows | app/src/main/java/com/jan/moneybear/data/store/SettingsStore.kt:658-665 | One live row per category, positioned by its index, at the given time. |
| SettingsStores.SettingsStore.Snapshot | app/src/main/java/com/jan/moneybear/data/store/SettingsStore.kt:258-278 | The snapshot of the current preferences. |
| SettingsStores.SettingsStore.LastDeltaSyncAt | app/src/main/java/com/jan/moneybear/data/store/SettingsStore.kt:213-215 | A missing checkpoint reads as 0. |
| SettingsStores.SettingsStore.PendingSavingsGoals | app/src/main/java/com/jan/moneybear/data/store/SettingsStore.kt:598-599 | Exactly the stored non-legacy goals with a pending operation. |
| SettingsStores.SettingsStore.RawSavingsGoals | app/src/main/java/com/jan/moneybear/data/store/SettingsStore.kt:601-605 | The stored goals without acknowledged tombstones, and without the legacy goal unless it is asked for. |
| SettingsStores.SettingsStore.PersistBudget | app/src/main/java/com/jan/moneybear/data/store/SettingsStore.kt:649-654 | Without a table nothing happens; otherwise the budget row 0 holds the amount and time. |
| SettingsStores.SettingsStore.PersistExpenseCategories | app/src/main/java/com/jan/moneybear/data/store/SettingsStore.kt:656-673 | The category table holds exactly the category rows (`MirrorsCategories`): one live row per name at its position and time. |
| SettingsStores.SettingsStore.PersistSavingsGoals | app/src/main/java/com/jan/moneybear/data/store/SettingsStore.kt:675-685 | The goal table mirrors the list. |
| SettingsStores.SettingsStore.StoreGoals | app/src/main/java/com/jan/moneybear/data/store/SettingsStore.kt:754-761 | The goal key takes the encoded list and the table mirrors it; nothing else changes. |
| SettingsStores.SettingsStore.ApplyRemoteSettings | app/src/main/java/com/jan/moneybear/data/store/SettingsStore.kt:280-325 | The preferences become `RemoteApplied`. The category table holds exactly the rows of the cleaned remote list at the remote time (`MirrorsCategories`), the budget row holds the sanitized remote budget, and the goal table is untouched. |
| SettingsStores.SettingsStore.MarkSettingsSynced | app/src/main/java/com/jan/moneybear/data/store/SettingsStore.kt:327-331 | Settings are clean at the given time. |
| SettingsStores.SettingsStore.SetLanguage | app/src/main/java/com/jan/moneybear/data/store/SettingsStore.kt:333-343 | Marks dirty and stores the sanitized code only when the sanitized current language differs; the snapshot then shows the sanitized code. |
| SettingsStores.SettingsStore.SetCurrency | app/src/main/java/com/jan/moneybear/data/store/SettingsStore.kt:345-355 | Blank becomes the default; dirty only on a change. |
| SettingsStores.SettingsStore.SetExpenseCategories | app/src/main/java/com/jan/moneybear/data/store/SettingsStore.kt:357-377 | Only when the stored text changes: the cleaned list is written (or the key removed), settings are marked dirty, and the table holds exactly the rows of the cleaned list at `now` (`MirrorsCategories`). Otherwise nothing changes. |
| SettingsStores.SettingsStore.WriteExpenseCategories | app/src/main/java/com/jan/moneybear/data/store/SettingsStore.kt:362-375 | The changed branch: the text written, settings dirty at `now`, the table holding exactly the rows of the list, budgets and goals untouched. |
| SettingsStores.SettingsStore.SetIncomeCategories | app/src/main/java/com/jan/moneybear/data/store/SettingsStore.kt:379-394 | As for expense categories, without a table. |
| SettingsStores.SettingsStore.SetBudgetMonthly | app/src/main/java/com/jan/moneybear/data/store/SettingsStore.kt:396-418 | A negative budget clears it; dirty and table write only on a change. |
| SettingsStores.SettingsStore.SetBudgetCycleStartDay | app/src/main/java/com/jan/moneybear/data/store/SettingsStore.kt:420-436 | The preferences become `StartDayEditAsWritten`: dirty only when the day differs from the stored start-day key, the legacy end day removed, and the snapshot's day the clamped value (or the default). |
| SettingsStores.SettingsStore.SetLastDeltaSyncAt | app/src/main/java/com/jan/moneybear/data/store/SettingsStore.kt:438-442 | Only the checkpoint changes. |
| SettingsStores.SettingsStore.SetThemeMode | app/src/main/java/com/jan/moneybear/data/store/SettingsStore.kt:444-454 | Blank becomes the default; dirty only on a change. |
| SettingsStores.SettingsStore.SetAccentColor | app/src/main/java/com/jan/moneybear/data/store/SettingsStore.kt:456-466 | Blank becomes the default; dirty only on a change. |
| SettingsStores.SettingsStore.SetBalanceBaseline | app/src/main/java/com/jan/moneybear/data/store/SettingsStore.kt:468-477 | Stores both values (at least 0) and always marks dirty. |
| SettingsStores.SettingsStore.ClearBalanceBaseline | app/src/main/java/com/jan/moneybear/data/store/SettingsStore.kt:479-489 | Removes both keys; dirty only when one was present. |
| SettingsStores.SettingsStore.MarkAllDirtyForBootstrap | app/src/main/java/com/jan/moneybear/data/store/SettingsStore.kt:491-513 | Marks settings dirty, stores the sanitized language, and re-flags every goal in the key and the table. |
| SettingsStores.SettingsStore.AddSavingsGoal | app/src/main/java/com/jan/moneybear/data/store/SettingsStore.kt:515-540 | Returns the new goal, stores the list with it added, removes the legacy keys, and mirrors the table. |
| SettingsStores.SettingsStore.UpdateSavingsGoal | app/src/main/java/com/jan/moneybear/data/store/SettingsStore.kt:542-574 | Stores the edited list, removes the legacy keys, and mirrors the table. |
| SettingsStores.SettingsStore.DeleteSavingsGoal | app/src/main/java/com/jan/moneybear/data/store/SettingsStore.kt:576-596 | Stores the list with the goal deleted, and mirrors the table. |
| SettingsStores.SettingsStore.MergeRemoteSavingsGoals | app/src/main/java/com/jan/moneybear/data/store/SettingsStore.kt:607-620 | An empty remote list returns 0 and changes nothing; otherwise stores and mirrors the merge and returns its count. |
| SettingsStores.SettingsStore.MarkSavingsGoalsSynced | app/src/main/java/com/jan/moneybear/data/store/SettingsStore.kt:622-647 | An empty ack list changes nothing; otherwise stores and mirrors the acknowledged list. |
| SyncRepositories.ToEntity | app/src/main/java/com/jan/moneybear/domain/SyncRepository.kt:153-172 | A fetched row is clean, has no pending operation, and is stamped `now`; id, deletion and server time are copied. |
| SyncRepositories.TransactionToDto | app/src/main/java/com/jan/moneybear/domain/SyncRepository.kt:174-190 | id, deletion and server time are copied. |
| SyncRepositories.DtoRoundTrip | app/src/main/java/com/jan/moneybear/domain/SyncRepository.kt:153-190 | `toDto(toEntity(d)) == d`. |
| SyncRepositories.EntityRoundTrip | app/src/main/java/com/jan/moneybear/domain/SyncRepository.kt:153-190 | `toEntity(toDto(t))` is `t` made clean with no pending operation. |
| SyncRepositories.ToSnapshot | app/src/main/java/com/jan/moneybear/domain/SyncRepository.kt:137-151 | A remote snapshot is clean, keeps the remote time, and has a supported language. |
| SyncRepositories.SettingsToDto | app/src/main/java/com/jan/moneybear/domain/SyncRepository.kt:122-135 | The DTO keeps the time and has a supported language. |
| SyncRepositories.PushedSettingsReadBack | app/src/main/java/com/jan/moneybear/domain/SyncRepository.kt:122-151 | Pushed settings read back as the same snapshot, clean. |
| SyncRepositories.AppliedSettingsSettle | app/src/main/java/com/jan/moneybear/domain/SyncRepository.kt:91-106 | Once remote settings are applied, the same settings apply again exactly when they carry time 0. |
| SyncRepositories.ShouldApplySettings | app/src/main/java/com/jan/moneybear/domain/SyncRepository.kt:93-101 | Dirty local settings are never overwritten and an older remote copy never applies. A strictly newer one applies to clean settings. At equal times it applies only when both are 0 and the settings are clean. |
| SyncRepositories.DirtySettingsAreKept | app/src/main/java/com/jan/moneybear/domain/SyncRepository.kt:94 | Dirty local settings are never overwritten. |
| SyncRepositories.AppliedTs | app/src/main/java/com/jan/moneybear/domain/SyncRepository.kt:38 | The delta's time when positive, else `now`. |
| SyncRepositories.LocalRow | app/src/main/java/com/jan/moneybear/domain/SyncRepository.kt:33 | The stored row with the delta's id, if any. |
| SyncRepositories.Accepts | app/src/main/java/com/jan/moneybear/domain/SyncRepository.kt:34-37 | A delta is taken when there is no local row; never over a dirty row; over a clean row exactly when its server time is not older than the row's. |
| SyncRepositories.Incoming | app/src/main/java/com/jan/moneybear/domain/SyncRepository.kt:38-44 | An applied delta is clean, has no pending operation, is stamped `now`, and keeps the applied server time and the DTO's payload. |
| SyncRepositories.DeltaStep | app/src/main/java/com/jan/moneybear/domain/SyncRepository.kt:32-49 | An accepted delta replaces its row with `Incoming`, is counted, and sets the latest time to the larger of its applied time and the old latest time. A refused delta changes nothing. Other rows are untouched. |
| SyncRepositories.DeltaMerge | app/src/main/java/com/jan/moneybear/domain/SyncRepository.kt:28-52 | The merge count is at most the number of deltas, the latest time is at least the checkpoint, and no row is removed. The timestamp rule is `DeltaMergeIgnoresOlder` and `DeltaMergeTakesAccepted`, and the latest time is given by `DeltaMergeLatestCovers` and `DeltaMergeLatestAttained`. |
| SyncRepositories.DeltaMergeKeepsDirty | app/src/main/java/com/jan/moneybear/domain/SyncRepository.kt:34-37 | A dirty local row is never overwritten. |
| SyncRepositories.DeltaMergeIgnoresOlder | app/src/main/java/com/jan/moneybear/domain/SyncRepository.kt:32-37 | A clean local row all of whose deltas carry an older server time comes out unchanged. |
| SyncRepositories.DeltaMergeTakesAccepted | app/src/main/java/com/jan/moneybear/domain/SyncRepository.kt:32-49 | A delta sent once for its id is written as `Incoming` when there is no local row or a clean one it is not older than. |
| SyncRepositories.DeltaMergeLatestCovers | app/src/main/java/com/jan/moneybear/domain/SyncRepository.kt:46-48 | The latest time is at least the applied time of every delta accepted against the table the earlier deltas left. |
| SyncRepositories.DeltaMergeLatestAttained | app/src/main/java/com/jan/moneybear/domain/SyncRepository.kt:29-55 | The latest time is `since`, or the applied time of an accepted delta. With `DeltaMergeLatestCovers`, it is the largest of these. |
| SyncRepositories.AcceptedAtPrefix | app/src/main/java/com/jan/moneybear/domain/SyncRepository.kt:32-37 | Whether a delta is accepted depends only on the deltas before it. |
| SyncRepositories.DeltaMergeWrites | app/src/main/java/com/jan/moneybear/domain/SyncRepository.kt:37-49 | Every row the merge leaves is either unchanged or an applied delta with that id whose time is covered by the latest time. |
| SyncRepositories.DeltaMergeOnlyListed | app/src/main/java/com/jan/moneybear/domain/SyncRepository.kt:31-45 | An id no delta mentions is neither created nor changed. |
| SyncRepositories.ReflagRows | app/src/main/java/com/jan/moneybear/domain/SyncRepository.kt:217 | Every row is re-flagged; no row is added or removed. |
| SyncRepositories.BootstrapPrefs | app/src/main/java/com/jan/moneybear/domain/SyncRepository.kt:216-219 | After a bootstrap the settings are dirty at `now` and the checkpoint is 0. |
| SyncRepositories.BootstrapReoffersEverything | app/src/main/java/com/jan/moneybear/domain/SyncRepository.kt:214-221 | After a bootstrap every row is dirty with a pending operation, the settings are dirty, and every persisted goal is pending. |
| SyncRepositories.SettingsPhase | app/src/main/java/com/jan/moneybear/domain/SyncRepository.kt:25 | The settings phase never touches the checkpoint. Dirty settings are kept. A bootstrap cycle or a missing remote leaves everything as it was. |
| SyncRepositories.Stamped | app/src/main/java/com/jan/moneybear/domain/SyncRepository.kt:202-205 | Only the time changes: kept when positive, else `now`. |
| SyncRepositories.PushedGoals | app/src/main/java/com/jan/moneybear/domain/SyncRepository.kt:206 | One DTO per pending goal, with id and deletion. |
| SyncRepositories.GoalAcks | app/src/main/java/com/jan/moneybear/domain/SyncRepository.kt:207 | Each ack is the stamped goal without a pending operation. |
| SyncRepositories.GoalPushSettles | app/src/main/java/com/jan/moneybear/domain/SyncRepository.kt:199-208 | After acknowledging its own push, no goal except the legacy one is pending. |
| SyncRepositories.PushedGoalsText | app/src/main/java/com/jan/moneybear/domain/SyncRepository.kt:199-210 | With nothing pending the goal key is unchanged. |
| SyncRepositories.GoalPhase | app/src/main/java/com/jan/moneybear/domain/SyncRepository.kt:192-212 | The goal phase changes only the goal key. |
| SyncRepositories.Domain | app/src/main/java/com/jan/moneybear/domain/SyncRepository.kt:195 | Each fetched DTO mapped to a goal. |
| SyncRepositories.Checkpointed | app/src/main/java/com/jan/moneybear/domain/SyncRepository.kt:54-56 | The checkpoint is written only when the latest time exceeds it. |
| SyncRepositories.PullCheckpoint | app/src/main/java/com/jan/moneybear/domain/SyncRepository.kt:22-60 | After a pull the checkpoint equals the latest applied time, which is at least the starting checkpoint. |
| SyncRepositories.SyncedRows | app/src/main/java/com/jan/moneybear/domain/SyncRepository.kt:75 | Exactly the pushed rows become synced at the ack. |
| SyncRepositories.DtoIds | app/src/main/java/com/jan/moneybear/domain/SyncRepository.kt:75 | The ids of the batch, in order. |
| SyncRepositories.BatchDtos | app/src/main/java/com/jan/moneybear/domain/SyncRepository.kt:73 | The batch mapped to DTOs, in order. |
| SyncRepositories.PushPrefs | app/src/main/java/com/jan/moneybear/domain/SyncRepository.kt:72-87 | The checkpoint becomes the ack when rows were acknowledged. Sent settings become clean at their own time. Pending goals are acknowledged. No other key changes. |
| SyncRepositories.NothingToPush | app/src/main/java/com/jan/moneybear/domain/SyncRepository.kt:65-69 | With nothing acknowledged, clean settings and no pending goal, a push leaves the preferences alone. |
| SyncRepositories.PushMayLowerCheckpoint | app/src/main/java/com/jan/moneybear/domain/SyncRepository.kt:74-76 | An ack of 50 over a checkpoint of 100 sets the checkpoint to 50. |
| SyncRepositories.SyncRepository.HandleBootstrap | app/src/main/java/com/jan/moneybear/domain/SyncRepository.kt:214-221 | Returns the flag. A bootstrap re-flags all rows and applies `BootstrapPrefs`; otherwise nothing changes. |
| SyncRepositories.SyncRepository.SyncSettings | app/src/main/java/com/jan/moneybear/domain/SyncRepository.kt:91-107 | Applies the remote settings exactly when `ShouldApplySettings` holds, returning 1, else 0 with nothing changed. |
| SyncRepositories.SyncRepository.ApplyDeltas | app/src/main/java/com/jan/moneybear/domain/SyncRepository.kt:28-52 | The delta loop computes exactly `DeltaMerge`: table, merge count and latest time. |
| SyncRepositories.SyncRepository.MergeRemoteGoals | app/src/main/java/com/jan/moneybear/domain/SyncRepository.kt:193-198 | Merges the fetched goals and returns the merge count. |
| SyncRepositories.SyncRepository.PushPendingGoals | app/src/main/java/com/jan/moneybear/domain/SyncRepository.kt:199-210 | Pushes the stamped pending goals, acknowledges them, and returns their number. |
| SyncRepositories.SyncRepository.SyncSavingsGoalsInternal | app/src/main/java/com/jan/moneybear/domain/SyncRepository.kt:192-212 | The goal key becomes `GoalPhase`; the count is merged plus pushed goals. |
| SyncRepositories.SyncRepository.BootstrapAndSettings | app/src/main/java/com/jan/moneybear/domain/SyncRepository.kt:24-25 | Rows follow the bootstrap. The preferences become the settings phase after the bootstrap, and the count is 1 exactly when the remote settings are applied. |
| SyncRepositories.SyncRepository.PullDeltas | app/src/main/java/com/jan/moneybear/domain/SyncRepository.kt:26-56 | The table becomes the delta merge from the stored checkpoint; the checkpoint advances only past it. |
| SyncRepositories.SyncRepository.PullAndMerge | app/src/main/java/com/jan/moneybear/domain/SyncRepository.kt:22-60 | No ensure result means 0 with nothing changed. Otherwise the table is the delta merge after the bootstrap, and the preferences are `PulledPrefs`. The count is the merged settings (1 or 0), plus the deltas taken, plus the goal phase's `GoalCount`. |
| SyncRepositories.SyncRepository.PushRows | app/src/main/java/com/jan/moneybear/domain/SyncRepository.kt:72-79 | Rows are synced and the checkpoint set to the ack only for a non-empty batch with a positive ack. |
| SyncRepositories.SyncRepository.PushDirtyBatch | app/src/main/java/com/jan/moneybear/domain/SyncRepository.kt:62-89 | No ensure result means 0 with nothing changed. The batch holds dirty rows as stored, `Cap(limit, #dirty)` of them, and every dirty row when the limit does not cut it short. Rows are synced only on a positive ack. The preferences are `PushPrefs`, and the count is promoted rows plus sent settings. |
| SyncRepositories.SyncRepository.PushBatch | app/src/main/java/com/jan/moneybear/domain/SyncRepository.kt:64-88 | With the server document present, the push starts from the bootstrapped state and ends as `PushDirtyBatch` states, including the batch's size and completeness. |
| SyncRepositories.SyncRepository.PushAll | app/src/main/java/com/jan/moneybear/domain/SyncRepository.kt:65-88 | The batch holds dirty rows as stored, `Cap(limit, #dirty)` of them, and every dirty row when the limit does not cut it short. Rows are synced only on a positive ack. The preferences are `PushPrefs`, and the count is promoted rows plus sent settings. |
| SyncRepositories.DirtyBatch | app/src/main/java/com/jan/moneybear/domain/SyncRepository.kt:65-72 | The DTOs of the rows `dirty(limit)` returned are the stored dirty rows, `Cap(limit, #dirty)` of them, and include every dirty row when the limit does not cut the list short. |
| SyncRepositories.SyncRepository.PushSettingsAndGoals | app/src/main/java/com/jan/moneybear/domain/SyncRepository.kt:80-87 | Dirty settings are sent and marked clean whatever the outcome, and pending goals are pushed. |
| SyncRepositories.SyncRepository.SyncSavingsGoals | app/src/main/java/com/jan/moneybear/domain/SyncRepository.kt:109-113 | No ensure result means 0 with nothing changed; otherwise bootstrap, then the goal phase. |
| SyncRepositories.SyncRepository.FetchOlderTransactions | app/src/main/java/com/jan/moneybear/domain/SyncRepository.kt:115-120 | No ensure result means an empty list with nothing changed. Otherwise the bootstrap is handled (rows `BootRows`, preferences `BootPrefs`: dirty settings and checkpoint 0 after a bootstrap, unchanged otherwise), and the result holds one clean row per fetched DTO, which maps back to it. |

## Checkpoint and settings after a sync

- **The checkpoint can go down.** A sync cycle can lower the delta checkpoint in two places:
  - `pushDirtyBatch` sets it to the server's acknowledgement without comparing (SyncRepository.kt:76);
  - a bootstrap resets it to 0 (SyncRepository.kt:219).

  Only the pull's delta phase never lowers it (`PullCheckpoint`). `PushMayLowerCheckpoint` exhibits the push case.
- **Settings after a push.** Settings are marked synced straight after they are sent, with no acknowledgement checked (SyncRepository.kt:80-83).

## Left out

- Remote transport, coroutines, `Dispatchers.IO` and DataStore/Room plumbing. Each `dataStore.edit` and each `@Transaction` DAO method is one atomic step. Remote answers are parameters and pushed data are out-parameters. A transport failure is the `None` ensure result.
- `System.currentTimeMillis()` is one `now` parameter per operation, though the source reads the clock several times. `UUID.randomUUID()` is the `id` parameter of `AddSavingsGoal`. The device language and the localized default lists and goal name are the `Env` value.
- Money amounts, targets, budgets and impacts are whole numbers rather than `Double`. The goal codec writes targets as integer decimals.
- Base64/UTF-8 encoding of goal names is replaced by an escape code (`\e`, `\s`, `\p`) with the same properties: the output holds neither delimiter, decoding inverts encoding, and malformed input fails to decode.
- Ordering.Codes: text is ordered by Unicode code point, where `String.compareTo` (and so `sortedByName`) compares UTF-16 code units; the two differ only between a character above U+FFFF and one in U+E000..U+FFFF.
- Text.ParseInt: numbers are unbounded, where `toLongOrNull` gives null outside the `Long` range (a stored goal time beyond it would read as 0), and only ASCII digits are accepted.
- `lowercase(Locale)` is ASCII lower-casing. `YearMonth` keys cover years 0001-9999; other keys are `None` where Java would throw or print signed years.
- The aggregate queries are not modelled: `sumMonth*`, `sum*Between`, `*CategoriesForMonths`, `savingsBalances`, the category series and `observeBudget`/`observeSavingsGoals`. The same goes for `monthKey(millis)` and `formatMonthLabel`, which depend on time zone and locale. `TransactionRepository`'s other pass-through flows delegate to the DAO queries modelled above.
- Of the `Flow` properties of `SettingsStore`, only `snapshot()`, `pendingSavingsGoals()` and `rawSavingsGoals()` are modelled. The `savingsGoals` flow, with its non-deleted filter, its `displayable` list and the legacy single-goal fallback goal, is not.
- `upsert(vararg)` is modelled for one row, the only way the sync and repository code call it.
- Category names containing a comma do not survive the comma-joined text. The read-back lemmas assume comma-free names.
- GoalMerge.MergeById: the per-id characterisation (and `MergeAdoptsRemoteOnly`, `MergeKeepsLocalOnly`) assumes distinct ids in the local and in the remote list, which the store's own writes produce; for lists with repeated ids only `MergeSpec` and the method describe the result.
- `SyncRepositories.SyncRepository.PushSettingsAndGoals`: `syncSavingsGoalsInternal(fetchRemote = false)` is modelled as its push half only, since the fetch is skipped and an empty remote list merges nothing.

## Findings

| source | as written | input that shows it | evidently intended | confidence | as-written member | corrected member |
|---|---|---|---|---|---|---|
| app/src/main/java/com/jan/moneybear/data/store/SettingsStore.kt:424-434 | `setBudgetCycleStartDay` compares the new day with the stored start day only, ignoring a legacy end day, and then removes the legacy key | only `budgetCycleEndDay = 14` stored (effective start day 15), then `setBudgetCycleStartDay(1)`: the effective day becomes 1 but the settings are not marked dirty, so the change is never pushed | compare with the effective start day (stored, else converted legacy, else default) and mark dirty when it changes | not executed | SettingsPrefs.StartDayEditMissesLegacyChange | SettingsPrefs.StartDayEdit |
