# Offline-first synchronisation engine of the wasp-client to-do list, in Dafny

This project models the storage side of the to-do client and proves properties of it. Browser APIs are abstracted away.

- **`Storage`, the orchestrator.** Every page mutation (`create`, `update`, `delete`) is written to the local store first. It then goes to exactly one place: the remote store when `connectionHandler.isOnline` is truthy, or the pending-request log otherwise. On reconnection, `synchronizeDatabases` replays the log against the remote store, oldest entry first. It then overwrites the local store with the remote list, hands a `refresh` event to the page's callback and clears the log. `updateLocal` applies a change-feed message only when it is a real change.
- **The local store** (`LocalAdapter`). It is a map from task id to task. After every change it is mirrored as JSON text under the `localStorage` key `"list"`.
- **The pending log** (`RequestDB`). It is an insertion-ordered sequence of `[action, task]` pairs.
- **The connectivity monitor** (`Offline`, the global `connectionHandler`). `isOnline` has three values: `null`, `true` and `false`. A ping fires "on" or "off" only when the status flips. `forceOffline` resets the status to `null` without firing anything.
- **The page's mutation entry points** `updateTodo` and `removeFromTodo`. Each retries a failed storage call once, after `forceOffline()`.
- **The `Map`/object/JSON conversions** of `util.js`.

Modules and files:

- `types.dfy`: `Types`. `Task(id, title, desc)`, the log entry `Request`, the feed `Message`, the callback's `DbEvent`, `Option`.
- `util.dfy`: `Util`. The conversions. JSON is an abstract `JsonCodec`, a pair of functions, and `RoundTrips` says that it reads back what it writes.
- `local_store.dfy`: `LocalStore`. `WebStorage` (`localStorage`) and the class `LocalAdapter`.
- `request_log.dfy`: `RequestLog`. The class `RequestDB`.
- `remote.dfy`: `Remote`. The class `RemoteStore`: the remote store as the engine relies on it.
- `connectivity.dfy`: `Connectivity`. `Status` (`Unknown | Online | Offline` for `null | true | false`), the pure `Transition`, and the class `ConnectionHandler`.
- `sync.dfy`: `Sync`. The specification functions `Replay`, `ApplyAll`, `LoggedAll`, `Decide` and `ApplyMessage`, their lemmas, and the class `Storage`.
- `todo_list.dfy`: `TodoList`. The class `Todo` with `UpdateTodo` and `RemoveFromTodo`.

Inputs the model takes from outside:

- The outcome of every call into a store the engine does not control is chosen nondeterministically. The calls are remote HTTP calls and IndexedDB requests. Every contract therefore covers both success and failure.
- A remote call that fails may still have reached the server, because the request may have timed out after the server processed it. So a failed `create`/`update` leaves the remote list either as it was or as a successful call would. A failed batch `delete` removes some of the listed ids.
- The probe's answer is the boolean input `reachable` of `Ping`.
- The page's callback is named by a number. Each call of it is recorded in `Storage.emitted`.
- Banners (`showNotification`) are recorded as their message strings in `Storage.notifications`.
- Changes to the rendered list are recorded in `Todo.page`.
- The modal's edit mode is the input `editMode`.

How the sync and the change feed behave:

- A failed replay call (js/storage.js:144-150) rejects `synchronizeDatabases` before `clear` is reached (js/storage.js:161). So the whole log is kept, including the entries already replayed.
- The log is never trimmed entry by entry, neither in the code nor in the model.
- The update guard of `updateLocal` (js/storage.js:189) compares the old description with the new title. `Sync.Storage.UpdateLocal` models the intended guard, `Sync.UpdateNeeded`, which compares each field with its counterpart. The guard as written is `Sync.LiteralUpdateGuard`, and "## Findings" shows where the two differ.

## Model

| member | source | states |
|---|---|---|
| `Util.StrMapToObj` | js/util.js:8-17 | the fresh object has exactly the keys of the map, each with the same value |
| `Util.ObjToStrMap` | js/util.js:24-31 | the fresh map has exactly the own keys of the object, each with the same value |
| `Util.StrMapToJson` | js/util.js:38-40 | the text is the codec's stringification of the object with the map's entries |
| `Util.JsonToStrMap` | js/util.js:47-49 | the map is the parsed object's own entries; None exactly where the parse throws |
| `Util.ObjectRoundTrip` | js/util.js:8-31 | converting a map to an object and back gives the same map |
| `Util.JsonRoundTrip` | js/util.js:38-49 | with a codec that round-trips, `jsonToStrMap(strMapToJson(m))` is `m` |
| `LocalStore.WebStorage.GetItem` | js/adapters/localAdapter.js:12 | the stored string for a present key, None (`null`) for a missing one |
| `LocalStore.WebStorage.SetItem` | js/adapters/localAdapter.js:31 | the key now holds the value and every other item is unchanged |
| `LocalStore.LoadedList` | js/adapters/localAdapter.js:12-13 | a missing or empty item gives the empty list; loading fails exactly where non-empty stored text does not parse; otherwise the list is the parsed object's own entries |
| `LocalStore.SavedListReloads` | js/adapters/localAdapter.js:11-34 | the text a mutation saves is loaded back by the constructor as exactly the saved list |
| `LocalStore.LocalAdapter.Load` | js/adapters/localAdapter.js:11-14 | the constructor starts from the parsed "list" item, or from an empty map when the item is missing or empty; it fails exactly where the stored text does not parse; nothing is written |
| `LocalStore.LocalAdapter.Create` | js/adapters/localAdapter.js:29-34 | upsert: the id now maps to the task and every other key is unchanged; the saved item is the serialisation of the new list |
| `LocalStore.LocalAdapter.Read` | js/adapters/localAdapter.js:41-47 | the stored task when the id is present, None (`null`) otherwise |
| `LocalStore.LocalAdapter.ReadAll` | js/adapters/localAdapter.js:53-55 | the whole list |
| `LocalStore.LocalAdapter.Has` | js/adapters/localAdapter.js:62-64 | true exactly when the id is a key of the list |
| `LocalStore.LocalAdapter.Update` | js/adapters/localAdapter.js:71-75 | the same upsert and save as `create` |
| `LocalStore.LocalAdapter.Delete` | js/adapters/localAdapter.js:82-89 | the new list is the old one without the ids of the listed tasks (absent ids ignored, unlisted ids untouched), then saved |
| `LocalStore.LocalAdapter.OverwriteWith` | js/adapters/localAdapter.js:96-101 | the list becomes exactly the given map, with no old entry surviving, and is saved |
| `LocalStore.CreateThenRead` | js/adapters/localAdapter.js:29-47 | a created task is read back unchanged, and reloading from `localStorage` gives the same list |
| `RequestLog.RequestDB.constructor` | js/requestDB.js:12-44 | the opened log holds what earlier sessions left in it |
| `RequestLog.RequestDB.Push` | js/requestDB.js:50-62 | the pair is appended at the tail with earlier entries unchanged; a failed request changes nothing |
| `RequestLog.RequestDB.ListAll` | js/requestDB.js:68-80 | every entry, oldest first, with no change to the log (it has no modifies clause); None where the request fails |
| `RequestLog.RequestDB.Clear` | js/requestDB.js:86-98 | the log is empty; a failed request leaves it as it was |
| `RequestLog.PushTwice` | js/requestDB.js:50-62 | no deduplication: the same pair pushed twice gives two new entries |
| `Remote.RemoteStore.Create` | js/adapters/restAdapter.js:29-46 | upsert on success; on failure the remote list either is unchanged or has the upsert |
| `Remote.RemoteStore.Update` | js/adapters/restAdapter.js:100-117 | as for `create` |
| `Remote.RemoteStore.Delete` | js/adapters/restAdapter.js:124-146 | every listed id is removed on success; on failure only listed ids were removed, some or none of them |
| `Remote.RemoteStore.ReadAll` | js/adapters/restAdapter.js:76-93 | the whole remote list; None where the call fails |
| `Connectivity.Truthy` | js/storage.js:64 | only Online takes the online branch; Unknown (`null`) and Offline (`false`) both take the offline one (also at js/storage.js:97 and 113) |
| `Connectivity.Transition` | js/offline.js:94-102 | an answered ping from Unknown or Offline sets Online and fires "on"; a failed ping from Unknown or Online sets Offline and fires "off"; any other ping changes nothing and fires nothing; "on" and "off" fire exactly when the status flips |
| `Connectivity.FirstSignalLeaves` | js/offline.js:87-109 | from a known status, the first event a run of pings fires is the one leaving that status |
| `Connectivity.SignalsAlternate` | js/offline.js:87-109 | over any run of pings, no event follows an event of the same kind, so there are no duplicate "on" or "off" events |
| `Connectivity.FailuresFireOffOnce` | js/offline.js:99-102 | any number of failed pings fires "off" once, or not at all from Offline, and ends Offline |
| `Connectivity.UnknownAlwaysFires` | js/offline.js:78-102 | after `forceOffline` the next ping fires "on" if it answers and "off" if not |
| `Connectivity.ConnectionHandler.constructor` | js/offline.js:12-20 | the status starts Unknown (`null`) with the default probe path and no events |
| `Connectivity.ConnectionHandler.SetOptions` | js/offline.js:31-35 | the probe path is the given one, or the default one when none is given |
| `Connectivity.ConnectionHandler.ForceOffline` | js/offline.js:78-80 | the status is Unknown and no event is fired |
| `Connectivity.ConnectionHandler.Ping` | js/offline.js:87-109 | an empty path throws and changes nothing; otherwise the status moves by `Transition` and the named event is dispatched once |
| `Connectivity.TwoFailedPings` | js/offline.js:99-102 | two failed pings from a status other than Offline dispatch "off" exactly once |
| `Sync.ReplayOne` | js/storage.js:142-155 | one entry touches only its task's id: "add" and "update" upsert it, "delete" removes it, and any other action leaves the list unchanged |
| `Sync.SkipNotices` | js/storage.js:152-154 | a replay raises only "Unexpected action during syncronization." banners: none when every action is known, and at least one when some action is unknown |
| `Sync.SkipNoticesCount` | js/storage.js:139-156 | a replay raises exactly as many banners as the log has entries with an unknown action |
| `Sync.ReplayLeavesOthers` | js/storage.js:139-156 | a task whose id no entry of the log names survives the replay unchanged, and no such id appears |
| `Sync.DeleteRequests` | js/storage.js:117-118 | an offline `delete` pushes one "delete" entry per task, in list order |
| `Sync.ReplayAppend` | js/storage.js:139-156 | replaying a log in two parts is replaying it whole, banners included |
| `Sync.ReplayUpdateIdempotent` | js/storage.js:146-148 | replaying an update entry twice is replaying it once |
| `Sync.ReplayDeletes` | js/storage.js:117-151 | the per-task delete entries of an offline batch delete remove, on replay, exactly the ids the batch removes |
| `Sync.ReplayEquivalence` | js/storage.js:63-156 | replaying the log that offline mutations leave has the same effect on the remote list as performing them online |
| `Sync.OfflineCreateCreateDelete` | js/storage.js:63-120 | offline create A, create B, delete [A] logs [add A, add B, delete A]; replaying that leaves B and not A, and only B on an empty remote list |
| `Sync.LiteralUpdateGuard` | js/storage.js:189 | the guard as written: a title change always passes it, and it disagrees with the intended guard only when the titles agree and exactly one of "old description = new title" and "old description = new description" holds |
| `Sync.UpdateNeeded` | js/storage.js:189 | the corrected update guard holds exactly when the incoming task differs from the local one |
| `Sync.LiteralGuardPassesEcho` | js/storage.js:189 | the guard as written re-applies an unchanged task whose description differs from its title |
| `Sync.LiteralGuardMissesDescChange` | js/storage.js:189 | the guard as written drops an update that changes only the description |
| `Sync.Decide` | js/storage.js:174-197 | an unexpected action exactly when the action is not "add", "update" or "delete"; the update-without-local-copy failure exactly for an "update" whose id is absent; an applied update always carries a task different from the local one |
| `Sync.ApplyMessage` | js/storage.js:176-192 | defined as the replay of a log entry with the same action and task (`ReplayOne`); a message touches only its task's id: "add" and "update" upsert it, "delete" removes it, and any other action leaves the list unchanged |
| `Sync.EventOf` | js/storage.js:177-191 | the callback gets the message's own task, as "add" for an add, "delete" for a delete and "update" otherwise, and never a "refresh" |
| `Sync.GuardIsExact` | js/storage.js:174-197 | a delete or an update is applied exactly when it changes the local list; an add exactly when the id is absent; an applied message always changes the list |
| `Sync.EchoIgnored` | js/storage.js:174-193 | a message whose effect the local list already shows is ignored |
| `Sync.Storage.constructor` | js/storage.js:16-35 | the stores and the monitor are the given ones, and the emitter is the no-op |
| `Sync.Storage.Create` | js/storage.js:63-71 | the task is upserted locally; if online, a remote create and no log entry; otherwise one "add" entry and no remote call; never both |
| `Sync.Storage.Update` | js/storage.js:96-104 | as for `create`, with "update" entries; Unknown (`null`) takes the offline branch |
| `Sync.Storage.Delete` | js/storage.js:112-120 | the listed ids leave the local store; online, one remote batch delete; offline, one "delete" entry per task in list order, or a prefix of them when a push fails |
| `Sync.Storage.Read` | js/storage.js:78-80 | the local copy of the task, or None |
| `Sync.Storage.ReadAll` | js/storage.js:86-88 | the whole local list |
| `Sync.Storage.SetDBEventFunction` | js/storage.js:127-129 | later events go to the given callback |
| `Sync.Storage.ReplayRequest` | js/storage.js:139-156 | one log entry is replayed: on success the remote list moves by `ReplayOne` and an unknown action gives one banner; a failed call adds no banner and leaves the remote list either as it was or as `ReplayOne` moves it |
| `Sync.Storage.SynchronizeDatabases` | js/storage.js:135-162 | on success: the remote list is the old one with the log replayed in order, the local store equals it, the callback gets one "refresh" with that list, unknown actions give one banner each, and the log is cleared unless the non-awaited clear fails; on failure: the log, the local store and the callback are untouched |
| `Sync.Storage.UpdateLocal` | js/storage.js:172-200 | a feed message is applied, emitted and announced only when `Decide` says so; otherwise there is no mutation and no emit; an unknown action gives only a banner |
| `Sync.Storage.Probe` | js/storage.js:21-34 | the monitor moves as `Ping` says (status by `Transition`, path kept, one counter step per event); a ping that fires "on" shows a banner and runs a synchronisation; "off" shows a banner; no event changes nothing else |
| `Sync.OfflineSessionThenSync` | js/storage.js:63-162 | offline create A, create B, delete [A], then a successful sync: the remote list has B and not A, and the local store equals it |
| `TodoList.Todo.constructor` | js/todo.js:13-20 | the page uses the given storage and starts empty |
| `TodoList.Todo.UpdateTodo` | js/todo.js:51-69 | update in edit mode, create otherwise; see the list after this table |
| `TodoList.Todo.RemoveFromTodo` | js/todo.js:76-85 | see the list after this table |

What `TodoList.Todo.UpdateTodo` promises:

- The task is always upserted locally. This holds for `LocalAdapter`, the only local store modelled.
- A failed first call leaves the status Unknown, then one retry goes through the offline branch.
- A first call that failed online ends with exactly one log entry of the matching kind. The exception is a failed retry, which propagates.
- The page changes only after a call has succeeded.

What `TodoList.Todo.RemoveFromTodo` promises:

- A task with a local copy is deleted as the one-element list `[task]`, with the same routing and retry as `UpdateTodo`.
- After a retry, the remote list is unchanged when the first call was not online. When it was online, the remote list is either unchanged or has lost `task.id`.
- For an id with no local copy, both calls throw. Only the status changes.

## Left out

- `js/adapters/indexDBAdapter.js`, the IndexedDB local store, is not part of this model, although `Storage` picks it whenever `window.indexedDB` exists (js/storage.js:17). Only `LocalAdapter` is modelled, and the two differ in five ways:
  - every IndexedDB write is a request that can reject (js/adapters/indexDBAdapter.js:53-55, 142-144, 164-166, 191-193), while a `LocalAdapter` write always succeeds;
  - `delete` and `overwriteWith` issue one request per task under `Promise.all` (js/adapters/indexDBAdapter.js:157-175, 182-216), so a failed batch may be partly applied;
  - `read` tests `this.has(id)`, which is a Promise and so always truthy, so an absent id resolves `undefined`, not `null` (js/adapters/indexDBAdapter.js:77-78);
  - with IndexedDB, `Storage`'s mutations can therefore fail locally. The "always upserted locally" of `UpdateTodo` and the local clauses of `Storage.Create`, `Update`, `Delete` and `SynchronizeDatabases` hold only for `LocalAdapter`;
  - there is no JSON mirror in `localStorage`, so `SavedListReloads` does not apply.
- The HTTP side of `js/adapters/restAdapter.js` is not modelled. This covers status codes, timeouts, JSON bodies and its unused `read`. The remote store is the abstract map of `Remote`.
- `setServer` is not modelled. Its EventSource wiring and `JSON.parse` of the message are outside the model. Each message is an input of `UpdateLocal`, and the remote store is the one given at construction.
- Change-feed messages without a task are not modelled, nor is the argument-less call.
- The `try`/`catch` around the reconnection handler is not modelled. That includes its call to `connectionHandler.retry()`, which `Offline` does not define. The model treats the non-awaited `synchronizeDatabases` as running to completion. Its failure is not reported.
- The connectivity monitor's `start`, `end`, `setInterval`, the interval and timeout options, and the XMLHttpRequest probe are timer and transport code. One ping is one step with its answer as input.
- A `null` probe path is modelled as the empty string.
- `Storage.connect` and `RequestDB.connect` are not modelled. The model assumes the databases are open.
- `localStorage.setItem` failures are not modelled. An example is a full quota, which would leave the in-memory list ahead of the saved one. Local writes always succeed in the model.
- The insertion order of a JavaScript `Map` is not modelled, because Dafny maps are unordered. It matters only for the order in which the page prints tasks.
- Aliasing of the `Map` that `readAll` returns and `overwriteWith` keeps is not modelled, because maps are values here.
- The `__proto__` key of `strMapToObj` is treated as an ordinary key. It is one on an object created with `Object.create(null)`.
- JSON text is abstract. A codec is any pair of functions, and round-tripping is a hypothesis of the lemmas that need it.
- Concurrency is not modelled. Overlapping async mutations, and the interleaving of the reconnection banner with the synchronisation's own banners, are outside the model. Each event runs to completion.
- The page is not modelled, apart from the record of its list changes. This covers DOM rendering, `updatePage`, `networkStateChange`, `js/main.js`, `js/modal.js`, the banner animation of `showNotification` and `sw.js`.
- Sync.Storage.SynchronizeDatabases: on a failed run, the contract says nothing about the remote list. The remote list then holds the effect of the entries replayed before the failure, which `synchronizeDatabases` does not report either.

## Findings

| source | as written | input that shows it | evidently intended | confidence | as-written member | corrected member |
|---|---|---|---|---|---|---|
| js/storage.js:189 | the update guard compares `oldTask.desc !== task.title` | an echo of an unchanged task `("42", "milk", "two litres")` passes the guard, so it is re-applied and re-emitted; an update of `("42", "milk", "milk")` to description `"two litres"` fails the guard, so it is dropped | `oldTask.desc !== task.desc` | high; not executed | `Sync.LiteralGuardPassesEcho` (with `Sync.LiteralGuardMissesDescChange`, both about `Sync.LiteralUpdateGuard`) | `Sync.UpdateNeeded`, used by `Sync.Decide` and `Sync.Storage.UpdateLocal` |
