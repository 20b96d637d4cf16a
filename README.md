# TaskManager offline-first sync engine, modelled in Dafny

This project models the offline-first core of the TaskManager web client. Tasks belong to lists.
Both are kept in two places: a local IndexedDB cache, through Dexie, and a remote Firestore
database. Every mutation decides from a connectivity flag which store to write. When a remote write
fails, the mutation falls back to the cache and flags the record (`isOffline`, `syncFailed`,
`markedForDeletion`). A sync sweep later replays the flagged records against the remote store.

The model is split along the program's own files.

- `js.dfy` (module `Js`): the JavaScript values the code relies on.
  - `Val<T>` is `undefined`, `null` or a value.
  - It defines truthiness, `||` on strings, `trim`, `includes` and `toLowerCase`.
  - It defines the key order in which IndexedDB and Firestore list records.
- `records.dfy` (module `Records`): the task/list record, the object spread `{...a, ...b}`, error values, Firestore document paths and the tag helpers.
- `items.dfy` (module `Items`): the array operations the reducers use: `findIndex`, replace-first, `filter` by id and append-if-new.
- `trace.dfy` (module `Trace`): a `Log` object records, in order, every Redux dispatch and every call into either store.
- `localdb.dfy` (module `LocalDb`): the Dexie database `TaskDB` of `src/lib/indexedDB.js`, with its two tables.
  - It is a class `LocalStore` whose methods are the table operations.
  - It includes `searchTasksInIndexedDB` and the `debugIndexedDB` helpers.
  - Each store operation receives its outcome (success, or the error it throws) as a parameter.
- `remote.dfy` (module `Remote`): the Firestore calls the slices make, as a class `RemoteStore` over a map from document paths to records.
- `tasks_slice.dfy` (module `TasksSlice`): the tasks slice state as a class, with one method per reducer and extra reducer, and the in-place `selectFilteredTasks`.
- `task_select.dfy` (module `TaskSelectors`): the pure selectors, the `selectAllTags` loop and the sort behind `selectFilteredTasks`.
- `task_thunks.dfy` (module `TaskThunks`): the thunks `fetchTasks`, `createTask`, `updateTaskThunk` and `deleteTaskThunk`.
- `task_sync.dfy` (module `TaskSync`): `syncOfflineTasks`.
  - A pure fold `Sweep` over the selected records states what the sweep does.
  - The method `RunSweep` is the source's loop, proved equal to that fold.
- `lists.dfy` (module `Lists`): the thunks and reducers of `src/redux/listsSlice.js`.
- `tasks_ui.dfy` (module `TasksUi`) and `task_editor.dfy` (module `TaskEditor`): the pure helpers of the task view and of the task editor.

Environment reads are parameters of the operation that makes them:

- `navigator.onLine`, read again at each place the code reads it;
- `Date.now()` and `new Date().toISOString()`, as integers;
- the random suffix of offline ids;
- the ids Firestore assigns to new documents;
- whether the 8-second timer beats `getDocs`;
- the answers to `window.confirm`.

Where the code differs from the behaviour its design describes, the model follows the code.

- The sync sweep iterates the snapshot it read once at the start. It does not re-read each record.
- A record flagged only `syncFailed` is counted as synced on every sweep and never cleared. Running the sweep twice therefore does not give zero counts the second time.
- The online fallback of `createTask` stores its record under a `null` id, so it can never be saved. This is kept as written; see "## Findings".

Other behaviour of the code that the model keeps as written:

- `fetchLists` clears the cache before it stores the fetched lists. Offline it ignores `userId`.
- `fetchLists` can reject only when the cache read fails. The lists slice has no case for `fetchLists.rejected`, so its status then stays `loading`.
- In `createList`, if the put under the remote id fails after the temporary record was deleted, the list is no longer cached. The thunk still answers the temporary list.
- `removeList` leaves the list's tasks in the cache and in the remote store.

## Model

| member | source | states |
|---|---|---|
| LocalDb.InKeyOrderSpec | src/lib/indexedDB.js:7-10 | `toArray()` lists every stored record once, under its own key, in strictly ascending key order |
| LocalDb.ByListIdSpec | src/lib/indexedDB.js:9 | the `listId` index yields exactly the stored records of that list |
| LocalDb.PutAllSpec | src/lib/indexedDB.js:7-10 | `bulkPut` leaves the keys of the old table plus the batch's ids; untouched keys keep their records; every record stays under its own id |
| LocalDb.LocalStore.Put | src/lib/indexedDB.js:7-10 | `put` upserts by `id`; a record whose id is missing or `null` is refused with a DataError and nothing changes; the other table is untouched |
| LocalDb.LocalStore.BulkPut | src/lib/indexedDB.js:7-10 | `bulkPut` stores the batch as `PutAll` or changes nothing; a batch with a keyless record is refused |
| LocalDb.LocalStore.Delete | src/lib/indexedDB.js:7-10 | `delete` removes the key on success, even when it is absent, and leaves the other table alone |
| LocalDb.SearchSpec | src/lib/indexedDB.js:16-30 | the search keeps exactly the tasks whose lowercased title or description contains the lowercased keyword, in stored order |
| LocalDb.SearchEmptyKeyword | src/lib/indexedDB.js:23-27 | an empty keyword returns every task |
| LocalDb.SearchCaseInsensitive | src/lib/indexedDB.js:17 | the result depends only on the keyword's lowercase form |
| LocalDb.MissingTextIsEmpty | src/lib/indexedDB.js:24-25 | a task with no title and no description matches only the empty keyword |
| LocalDb.SearchTasksInIndexedDB | src/lib/indexedDB.js:16-30 | the search answers the filter of `tasks.toArray()` and rejects when the read fails |
| LocalDb.GetAllTasks | src/lib/indexedDB.js:35-44 | all tasks in key order; `[]` after a read error |
| LocalDb.GetTasksByListId | src/lib/indexedDB.js:47-56 | the list's tasks; `[]` after a read error |
| LocalDb.GetTaskById | src/lib/indexedDB.js:59-68 | the stored task, `undefined` when missing, `null` after an error |
| LocalDb.GetTaskCount | src/lib/indexedDB.js:71-80 | the number of stored tasks; `0` after an error |
| LocalDb.ClearAllTasks | src/lib/indexedDB.js:83-90 | empties the tasks table; a failing clear is swallowed and leaves it as it was; lists are untouched |
| Items.FindIndex | src/redux/tasksSlice.jsx:380 | `-1` iff no item has the id; otherwise the first position that has it |
| Items.ReplaceFirstSpec | src/redux/tasksSlice.jsx:379-382 | replace-first keeps the length, changes nothing when no item has the id, and otherwise changes exactly the first matching position |
| Items.RemoveIdSpec | src/redux/tasksSlice.jsx:383-385 | the filter drops every item with the id and keeps every other item, with its multiplicity |
| Items.AppendIfNewKeepsIdsUnique | src/redux/listsSlice.js:106-109 | appending only unseen ids keeps the ids of the list distinct |
| TasksSlice.TasksState.constructor | src/redux/tasksSlice.jsx:363-374 | the initial state: no items, `idle`, no error, nothing running; `online` is the browser flag, or `true` outside a browser |
| TasksSlice.TasksState.AddTask | src/redux/tasksSlice.jsx:376-378 | pushes the task; the rest of the state is unchanged |
| TasksSlice.TasksState.UpdateTask | src/redux/tasksSlice.jsx:379-382 | replaces the first task with the same id; the rest is unchanged |
| TasksSlice.TasksState.DeleteTask | src/redux/tasksSlice.jsx:383-385 | removes every task with the id; the rest is unchanged |
| TasksSlice.TasksState.OptimisticUpdateTask | src/redux/tasksSlice.jsx:386-389 | same replace as `updateTask` |
| TasksSlice.TasksState.OptimisticDeleteTask | src/redux/tasksSlice.jsx:390-392 | same removal as `deleteTask` |
| TasksSlice.TasksState.SetOperationStatus | src/redux/tasksSlice.jsx:393-395 | merges the patch into `operationStatus`; a field the patch lacks keeps its value |
| TasksSlice.TasksState.ClearError | src/redux/tasksSlice.jsx:396-398 | sets `error` to `null` and nothing else |
| TasksSlice.TasksState.SetOnlineStatus | src/redux/tasksSlice.jsx:399-401 | sets `online` and nothing else |
| TasksSlice.TasksState.SetLastSync | src/redux/tasksSlice.jsx:402-404 | sets `lastSync` and nothing else |
| TasksSlice.TasksState.FetchTasksPending | src/redux/tasksSlice.jsx:408-411 | status `loading`, error cleared |
| TasksSlice.TasksState.FetchTasksFulfilled | src/redux/tasksSlice.jsx:412-415 | status `succeeded`, the payload replaces the items |
| TasksSlice.TasksState.FetchTasksRejected | src/redux/tasksSlice.jsx:416-419 | status `failed`, the error message stored |
| TasksSlice.TasksState.CreateTaskPending | src/redux/tasksSlice.jsx:420-423 | `creating` set, error cleared |
| TasksSlice.TasksState.CreateTaskFulfilled | src/redux/tasksSlice.jsx:424-427 | `creating` cleared, the task pushed |
| TasksSlice.TasksState.CreateTaskRejected | src/redux/tasksSlice.jsx:428-431 | `creating` cleared, the error stored |
| TasksSlice.TasksState.UpdateTaskPending | src/redux/tasksSlice.jsx:432-435 | `updating` is the task's id, error cleared |
| TasksSlice.TasksState.UpdateTaskFulfilled | src/redux/tasksSlice.jsx:436-440 | `updating` cleared, the task replaced |
| TasksSlice.TasksState.UpdateTaskRejected | src/redux/tasksSlice.jsx:441-444 | `updating` cleared, the error stored |
| TasksSlice.TasksState.DeleteTaskPending | src/redux/tasksSlice.jsx:445-448 | `deleting` is the id, error cleared |
| TasksSlice.TasksState.DeleteTaskFulfilled | src/redux/tasksSlice.jsx:449-452 | `deleting` cleared, the task removed |
| TasksSlice.TasksState.DeleteTaskRejected | src/redux/tasksSlice.jsx:453-456 | `deleting` cleared, the error stored |
| TasksSlice.TasksState.SyncOfflineTasksFulfilled | src/redux/tasksSlice.jsx:457-460 | stamps `lastSync` with the time and changes nothing else |
| TasksSlice.TasksState.SelectFilteredTasks | src/redux/tasksSlice.jsx:522-576 | answers `FilteredTasks`; when no filter applies, the in-place sort also reorders the store's items, and otherwise the store is unchanged |
| TaskSelectors.ActiveByListSpec | src/redux/tasksSlice.jsx:473-479 | keeps exactly the list's tasks not marked for deletion, in store order |
| TaskSelectors.NeedingSyncSpec | src/redux/tasksSlice.jsx:517-520 | keeps exactly the tasks with `isOffline`, `syncFailed` or `markedForDeletion` set, in store order |
| TaskSelectors.StatsBounds | src/redux/tasksSlice.jsx:495-512 | the three status counts add up to at most the total; the offline and needs-sync counts are at most the total |
| TaskSelectors.StatsIgnoreMarked | src/redux/tasksSlice.jsx:499-501 | adding a task marked for deletion changes no statistic |
| TaskSelectors.StatsTotal | src/redux/tasksSlice.jsx:499-505 | the total counts exactly the active tasks of the list, or of every list when no list id is given |
| TaskSelectors.AllTagsSpec | src/redux/tasksSlice.jsx:481-493 | a tag is listed iff some task not marked for deletion carries it; each tag once |
| TaskSelectors.SelectAllTags | src/redux/tasksSlice.jsx:481-493 | the `forEach` loop filling a `Set` returns `AllTags` |
| TaskSelectors.PriorityRank | src/redux/tasksSlice.jsx:552-554 | high ranks 3, medium 2, low 1 and anything else 0 |
| TaskSelectors.BeforeOrder | src/redux/tasksSlice.jsx:546-572 | the comparator is a strict order: irreflexive and transitive |
| TaskSelectors.SortSpec | src/redux/tasksSlice.jsx:545-573 | the sort returns a sorted permutation of its input |
| TaskSelectors.HighPriorityFirst | src/redux/tasksSlice.jsx:551-555 | a descending priority sort puts a high-priority task first whenever there is one |
| TaskSelectors.NarrowedSpec | src/redux/tasksSlice.jsx:525-542 | the three filters in turn keep the tasks passing every filter that applies; with none applying they return the store's array itself |
| TaskSelectors.FilteredTasksSpec | src/redux/tasksSlice.jsx:522-576 | the result is a permutation of the filtered tasks; it is sorted when a sort is asked for and in store order otherwise |
| TaskThunks.TimeoutIsNetworkError | src/redux/tasksSlice.jsx:45-49 | a timed-out remote read is always treated as a network error |
| TaskThunks.OfflineErrorIsNetworkError | src/redux/tasksSlice.jsx:72 | any error seen while the device is offline is a network error |
| TaskThunks.OtherErrorsAreRethrown | src/redux/tasksSlice.jsx:68-72 | an error with another code and none of the three words in its message is not a network error |
| TaskThunks.FetchTasks | src/redux/tasksSlice.jsx:25-89 | offline: the cached tasks of the list, or `[]`, with no remote call. Online: on success the fetched tasks, bulk-put into the cache only when non-empty. A network error falls back to the cache; any other error rejects. The calls are made in this order |
| TaskThunks.FetchOnline | src/redux/tasksSlice.jsx:42-88 | the online path: on success the fetched tasks, bulk-put into the cache only when non-empty. A timeout or network error falls back to the cached tasks of the list, or `[]`; any other error rejects and leaves the cache alone. The calls are made in this order |
| TaskThunks.FetchKeepsCachedTasks | src/redux/tasksSlice.jsx:54-61 | a successful fetch never removes a cached task, and leaves the tasks it did not fetch unchanged |
| TaskThunks.WithDefaults | src/redux/tasksSlice.jsx:96-106 | sets `listId` and `createdAt`; defaults `tags`, `priority` and `status`; sets `isOffline` to `!online` and `syncFailed` to `false`; keeps every other field of the caller's task |
| TaskThunks.OfflineTaskId | src/redux/tasksSlice.jsx:109 | an offline id always starts with `offline_` |
| TaskThunks.CreateTask | src/redux/tasksSlice.jsx:92-158 | offline: stores and answers the record under an `offline_` id. Online success: adds one remote document, caches it under that document's id with `isOffline` false, and ignores a cache failure. Online failure: the fallback under `tempId` always rejects. At most one `addDoc` per call |
| TaskThunks.OnlineFallbackIsRefused | src/redux/tasksSlice.jsx:109-150 | online, the fallback record has a `null` id, so the cache refuses it whatever the store's state |
| TaskThunks.CreateTaskFixed | src/redux/tasksSlice.jsx:92-158 | the corrected create: the online fallback is stored under a fresh `offline_` id with `isOffline` and `syncFailed` set |
| TaskThunks.FixedFallbackIsSwept | src/redux/tasksSlice.jsx:142-147 | the corrected fallback record is one the sweep selects and treats as a pending creation |
| TaskThunks.UpdateOffline | src/redux/tasksSlice.jsx:168-188 | stores the task flagged with `isOffline`, `syncFailed` and `lastUpdated`, and never calls the remote store; a failing put refetches and rejects |
| TaskThunks.UpdateTry | src/redux/tasksSlice.jsx:190-198 | merges the task into an existing remote document and caches it with both flags cleared; ends with exactly the error `UpdateError` names, the cache untouched on any error, and no refetch |
| TaskThunks.UpdateOnline | src/redux/tasksSlice.jsx:190-221 | success caches the task with both flags cleared. After a remote or cache failure the task is stored flagged and answered; only when that put fails too does it refetch and reject with the first error |
| TaskThunks.UpdateTaskThunk | src/redux/tasksSlice.jsx:161-222 | applies and logs the optimistic replace before any store call, then behaves as `UpdateOffline` or `UpdateOnline` |
| TaskThunks.SoftDelete | src/redux/tasksSlice.jsx:236-245 | marks an existing cached task with `markedForDeletion` and `markedAt`; a missing id is a no-op |
| TaskThunks.DeleteOffline | src/redux/tasksSlice.jsx:232-252 | offline the task is only marked, never removed, with no remote call; a failure refetches and rejects |
| TaskThunks.DeleteOnline | src/redux/tasksSlice.jsx:254-281 | a remote delete followed by a cache delete removes the task from both stores. After a failure the cached task is marked and the call resolves; if marking fails it refetches and rejects |
| TaskThunks.DeleteTaskThunk | src/redux/tasksSlice.jsx:225-282 | the optimistic removal is dispatched first. The record leaves the cache only after a successful remote delete; otherwise it stays, marked or unchanged. No other cached record changes |
| TaskSync.SweepCounts | src/redux/tasksSlice.jsx:301-342 | `synced + failed` equals the number of selected records, unless a failure could not be recorded and the sweep ended early |
| TaskSync.SweepFromKeyed | src/redux/tasksSlice.jsx:304-339 | the sweep keeps every cached record under its own id |
| TaskSync.AttemptFrame | src/redux/tasksSlice.jsx:305-338 | one step changes the cache only at the task's id and at the id `addDoc` assigned |
| TaskSync.DeletionSynced | src/redux/tasksSlice.jsx:306-311 | a marked task is synced iff the remote delete and the cache delete succeed, and it is then gone from both stores |
| TaskSync.UpdateSynced | src/redux/tasksSlice.jsx:312-320 | an offline edit of a remote task is synced iff the document exists and both writes succeed. The remote document then gets the fields without id, listId and flags, and the cached copy no longer needs a sync |
| TaskSync.CreationReplacesId | src/redux/tasksSlice.jsx:321-329 | a synced offline creation removes the `offline_` record and caches the task under the new remote id, with no sync flag |
| TaskSync.FailureIsolated | src/redux/tasksSlice.jsx:333-338 | a failed step leaves the cache as before except for the task stored with `syncFailed`, and the sweep goes on |
| TaskSync.CreationRetriedAfterAdd | src/redux/tasksSlice.jsx:324-337 | when `addDoc` succeeded but a later cache write failed, the remote document stays and the `offline_` record still waits for a new creation |
| TaskSync.SyncFailedOnlyIsKept | src/redux/tasksSlice.jsx:305-332 | a task flagged only `syncFailed` makes no call, is counted as synced and keeps its flag |
| TaskSync.SyncDeletion | src/redux/tasksSlice.jsx:306-311 | the delete branch's calls give exactly `TryDelete` |
| TaskSync.SyncUpdate | src/redux/tasksSlice.jsx:312-320 | the update branch's calls give exactly `TryUpdate` |
| TaskSync.SyncCreation | src/redux/tasksSlice.jsx:321-329 | the create branch's calls give exactly `TryCreate` |
| TaskSync.SyncOne | src/redux/tasksSlice.jsx:305-338 | one iteration, with its catch, gives exactly `Attempt` |
| TaskSync.RunSweep | src/redux/tasksSlice.jsx:301-339 | the loop leaves the stores, the calls and the counters the fold `Sweep` computes |
| TaskSync.SyncOfflineTasks | src/redux/tasksSlice.jsx:285-346 | offline: zero counts and nothing touched. Online: selects the flagged tasks in key order and runs the sweep; resolves with the counts, or rejects with the selection's or the sweep's error |
| Lists.FetchLists | src/redux/listsSlice.js:8-25 | offline: the cached lists. Online: queries the user's lists, clears the cache, bulk-puts and answers them; after any failure it answers whatever the cache then holds |
| Lists.CacheMirrorsRemote | src/redux/listsSlice.js:14-19 | after a complete online fetch, the cache holds exactly the user's remote lists, each under its document id |
| Lists.OfflineListId | src/redux/listsSlice.js:35 | the temporary list id starts with `offline_` |
| Lists.CreateList | src/redux/listsSlice.js:27-55 | caches the list under an `offline_` id first and rejects if that fails. Online it adds it remotely, replaces the temporary record by one under the remote id and answers that; otherwise it answers the temporary list |
| Lists.Renamed | src/redux/listsSlice.js:58-61 | the renamed list is the cached one with the new name and time; a missing list gives a record with no id |
| Lists.RenameList | src/redux/listsSlice.js:57-74 | the rename is cached first; renaming a list that is not cached rejects. Online the remote document is merged, and the answer carries `isOffline: false` while the cache does not |
| Lists.RemoveList | src/redux/listsSlice.js:76-87 | deletes the cached list, then the remote one when online, ignoring a remote failure; the list's tasks stay in both stores |
| Lists.ListsState.constructor | src/redux/listsSlice.js:91-95 | no lists, `idle`, no error |
| Lists.ListsState.FetchListsPending | src/redux/listsSlice.js:99-101 | status `loading` |
| Lists.ListsState.FetchListsFulfilled | src/redux/listsSlice.js:102-105 | status `succeeded`, the payload replaces the lists |
| Lists.ListsState.CreateListFulfilled | src/redux/listsSlice.js:106-109 | appends the list unless its id is already shown, and so keeps ids distinct |
| Lists.ListsState.RenameListFulfilled | src/redux/listsSlice.js:110-113 | replaces the first list with the same id |
| Lists.ListsState.RemoveListFulfilled | src/redux/listsSlice.js:114-116 | keeps exactly the lists with another id |
| TasksUi.AllTasksSpec | src/Components/TasksUI.jsx:31-39 | `allTasks` is every task of the list, marked ones included, earliest due date first |
| TasksUi.DueSoonSpec | src/Components/TasksUI.jsx:50-59 | a task is due soon iff it has a due date, is not done, and is due between now and 48 hours from now; the section keeps due-date order |
| TasksUi.ViewAllTagsSpec | src/Components/TasksUI.jsx:73-79 | a tag is listed iff a task of the view carries it; each tag once, in first-appearance order |
| TasksUi.ViewTagsMatchSelector | src/Components/TasksUI.jsx:73-79 | over tasks none of which is marked for deletion, the view's tags equal `selectAllTags` |
| TasksUi.ValidateTaskSpec | src/Components/TasksUI.jsx:102-116 | a task passes iff its title has a non-space character and any past due date was confirmed |
| TasksUi.HandleCreateTaskSpec | src/Components/TasksUI.jsx:118-128 | `createTask` is dispatched iff the draft validates, with the list id, the creation time and a null-or-set due date; the other draft fields are kept |
| TasksUi.HandleUpdateTaskSpec | src/Components/TasksUI.jsx:130-137 | `updateTaskThunk` is dispatched iff the edited task validates; only a missing due date is changed, to `null` |
| TasksUi.NextStatus | src/Components/TasksUI.jsx:140-142 | the next status is one of the three, and always differs from the current one |
| TasksUi.StatusCycle | src/Components/TasksUI.jsx:140-142 | three toggles bring each of the three statuses back |
| TasksUi.ToggleStatus | src/Components/TasksUI.jsx:139-147 | dispatches an update of the task with only `status` changed |
| TasksUi.ViewTagToggle | src/Components/TasksUI.jsx:160-171 | toggles the tag on the task being edited if there is one, else on the new task; the other draft is unchanged |
| TasksUi.ViewTagToggleSpec | src/Components/TasksUI.jsx:162-165 | an absent tag is appended, every copy of a present one is removed, and toggling an absent tag twice restores the drafts when the target's tags are an array (a target with no `tags` comes back with `tags: []`, as in the source) |
| TaskEditor.DayOf | src/Components/TaskEditor.jsx:25-30 | the form date is the start of the UTC day holding the task's due time |
| TaskEditor.FormFor | src/Components/TaskEditor.jsx:11-41 | no task leaves the initial form. Otherwise a missing title or description becomes `''`, priority defaults to medium, status to todo and tags to `[]`, and a due date becomes its day |
| TaskEditor.EditorTagToggle | src/Components/TaskEditor.jsx:52-61 | removes every copy of a present tag, appends an absent one, and changes no other field |
| TaskEditor.EditorTagToggleTwice | src/Components/TaskEditor.jsx:52-61 | toggling an absent tag twice gives the form back |
| TaskEditor.SubmitSpec | src/Components/TaskEditor.jsx:63-91 | a blank title shows "Task title is required." and dispatches nothing. Otherwise a thunk is dispatched iff a past date was confirmed: `createTask` iff the task is absent or has no id, else `updateTaskThunk`, carrying `finalTask` |
| TaskEditor.FinalTaskSpec | src/Components/TaskEditor.jsx:82-87 | `finalTask` carries the form fields, `null` for an empty date and the list id; it adds the creation time when creating, or the task's id when editing, never both |
| TaskEditor.SubmitDisabledSpec | src/Components/TaskEditor.jsx:252-254 | the button is disabled iff the title is blank or a create or update runs; while it is enabled, a submit never shows the title error |
| TaskEditor.EditRoundTrip | src/Components/TaskEditor.jsx:22-91 | submitting a loaded task unchanged, without confirmation, dispatches an update with the same id, title and tags whenever its due day is today or later (or it has none); the due date sent is the start of that day, or `null` |

## Left out

- I/O and time. Firestore and IndexedDB are modelled as maps, and each call's outcome is an input. Which promise wins the 8-second timeout race is an input: a lost race is a remote error whose message contains "timeout". ISO date strings are integers (milliseconds).
- Concurrency. Overlapping thunks, the Redux async lifecycle plumbing and Immer drafts are not modelled. The reducers update the slice object in place. `selectFilteredTasks` is modelled as sorting the store's own `items` array when no filter narrows it. In the running app that array is frozen state, so the in-place `sort` there would most likely throw a TypeError rather than reorder the store. Only a falsy list id reaches that path, and the task view always passes a truthy one.
- The `window` online/offline listeners in src/redux/tasksSlice.jsx:350-359 have empty bodies and are not modelled.
- Strings: `toLowerCase` is modelled on ASCII letters only, and string order is by character code. `trim` uses the white-space and line-terminator characters of ECMAScript.
- TaskThunks.FetchTasks: Dexie's `bulkPut` is modelled as all or nothing, so the cache after a swallowed write error is unchanged. A partial write is not modelled.
- `addDoc` ids are inputs. Their freshness against existing documents is not assumed, so `TaskSync.CreationReplacesId` only requires that the new id is not an `offline_` id.
- TaskSync.SweepCounts: there is no lemma that a second sweep is a no-op. The source does not make that true (see `TaskSync.SyncFailedOnlyIsKept`).
- TaskSelectors.FilteredTasksSpec: a title sort requires that all or none of the narrowed tasks have a string title. The comparator (src/redux/tasksSlice.jsx:564-567) lowercases both values only when `a`'s is a string. So it throws when `a` has a string title and `b` has none. The other way round nothing is lowercased, `<` and `>` are both false, and it answers 0. Whether a mixed array throws therefore depends on the order in which the engine calls the comparator, and the model does not fix that order. The requirement holds for every task the app writes: `validateTask` and the editor form always store a string title, and the sweep's spreads keep the title they were given.
- TaskSelectors.FilteredTasks: carries the same title-sort requirement, for the same reason.
- TasksSlice.TasksState.SelectFilteredTasks: carries the same title-sort requirement, for the same reason.
- `handleDeleteTask`, `handleEditTask` and the form field handlers of TasksUI.jsx and TaskEditor.jsx only forward user input and are not modelled. After the dispatch, the editor's message "Failed to save task. Please try again." depends on the thunk's outcome and is not modelled either.
- Rendering, routing, authentication, the colour and label helpers, and `src/redux/store.js` are outside the engine.

## Findings

| source | as written | input that shows it | evidently intended | confidence | as-written member | corrected member |
|---|---|---|---|---|---|---|
| src/redux/tasksSlice.jsx:109-150 | when the online `addDoc` fails, the fallback record is stored under `tempId`, which is `null` whenever the call was online; IndexedDB refuses a `null` inline key, so the put throws and the task is lost | `createTask` called online with a remote failure (e.g. `addDoc` refused), any task | store the fallback under a fresh `offline_` id so that the next sync creates the task remotely | not executed | TaskThunks.CreateTask (with TaskThunks.OnlineFallbackIsRefused) | TaskThunks.CreateTaskFixed (with TaskThunks.FixedFallbackIsSwept) |
