/** The storage orchestrator (js/storage.js). Every mutation is applied to
    the local store first and then either sent to the remote store, when
    `connectionHandler.isOnline` is truthy, or recorded in the pending log.
    On reconnection the log is replayed against the remote store in order,
    the local store is overwritten with the remote list, the page's callback
    receives a "refresh" event and the log is cleared. Messages of the
    remote change feed are applied locally only when they change something. */
module Sync {
  import opened Types
  import opened Util
  import opened LocalStore
  import opened RequestLog
  import opened Remote
  import opened Connectivity

  /** The banners the orchestrator raises (`showNotification`). */
  const UNEXPECTED_SYNC_ACTION: string := "Unexpected action during syncronization."
  const UNEXPECTED_FEED_ACTION: string := "Unexpected action inside the database."
  const REMOTE_CHANGES: string := "Remote changes detected: list updated!"
  const CONNECTED: string := "Connected to server: list synchronized!"
  const DISCONNECTED: string := "Cannot connect to server."

  /** Names the function last given to `setDBEventFunction`; NO_OP is the
      initial `() => {}`. */
  type CallbackId = nat
  const NO_OP: CallbackId := 0

  /** One call of `this.emitter(event)`, with the callback that received it. */
  datatype Emission = Emission(callback: CallbackId, event: DbEvent)

  // ---------------------------------------------------------------------
  // Replay of the pending log

  /** What replaying one entry does to the remote list: "add" and "update"
      upsert, "delete" removes the id, any other action is skipped. */
  function ReplayOne(remote: TaskMap, request: Request): (r: TaskMap)
    ensures forall k :: k in remote && k != request.task.id ==> k in r && r[k] == remote[k]
    ensures forall k :: k in r && k != request.task.id ==> k in remote
    ensures request.action in {ADD, UPDATE} ==> request.task.id in r && r[request.task.id] == request.task
    ensures request.action == DELETE ==> request.task.id !in r
    ensures request.action !in {ADD, UPDATE, DELETE} ==> r == remote
  {
    if request.action == ADD || request.action == UPDATE then remote[request.task.id := request.task]
    else if request.action == DELETE then remote - {request.task.id}
    else remote
  }

  /** Replaying a whole log, oldest entry first. */
  function Replay(remote: TaskMap, log: seq<Request>): (r: TaskMap)
    decreases |log|
  {
    if log == [] then remote else Replay(ReplayOne(remote, log[0]), log[1..])
  }

  /** The banners a replay raises: one per entry with an unknown action. */
  function SkipNotices(log: seq<Request>): (r: seq<string>)
    ensures |r| <= |log|
    ensures forall i :: 0 <= i < |r| ==> r[i] == UNEXPECTED_SYNC_ACTION
    ensures (forall i :: 0 <= i < |log| ==> log[i].action in {ADD, UPDATE, DELETE}) ==> r == []
    ensures (exists i :: 0 <= i < |log| && log[i].action !in {ADD, UPDATE, DELETE}) ==> r != []
    decreases |log|
  {
    if log == [] then []
    else
      (if log[0].action in {ADD, UPDATE, DELETE} then [] else [UNEXPECTED_SYNC_ACTION])
      + SkipNotices(log[1..])
  }

  /** A replay touches only the ids its entries name: every other task of
      the remote list survives unchanged, and no other id appears. */
  lemma {:induction false} ReplayLeavesOthers(remote: TaskMap, log: seq<Request>, k: string)
    requires forall i :: 0 <= i < |log| ==> log[i].task.id != k
    ensures k in Replay(remote, log) <==> k in remote
    ensures k in remote ==> Replay(remote, log)[k] == remote[k]
    decreases |log|
  {
    if log != [] {
      ReplayLeavesOthers(ReplayOne(remote, log[0]), log[1..], k);
    }
  }

  /** Replaying a log in two parts is replaying it whole. */
  lemma {:induction false} ReplayAppend(remote: TaskMap, first: seq<Request>, second: seq<Request>)
    ensures Replay(remote, first + second) == Replay(Replay(remote, first), second)
    ensures SkipNotices(first + second) == SkipNotices(first) + SkipNotices(second)
    decreases |first|
  {
    if first == [] {
      assert first + second == second;
    } else {
      var whole := first + second;
      assert whole[0] == first[0];
      assert whole[1..] == first[1..] + second;
      ReplayAppend(ReplayOne(remote, first[0]), first[1..], second);
      assert Replay(remote, whole) == Replay(ReplayOne(remote, first[0]), first[1..] + second);
      assert SkipNotices(whole) == SkipNotices([first[0]]) + SkipNotices(first[1..] + second);
    }
  }

  /** The positions of the log whose action is not one of the three known
      ones. */
  ghost function UnknownEntries(log: seq<Request>): set<int>
  {
    set i | 0 <= i < |log| && log[i].action !in {ADD, UPDATE, DELETE}
  }

  /** A replay raises exactly one banner per entry with an unknown action. */
  lemma {:induction false} SkipNoticesCount(log: seq<Request>)
    ensures |SkipNotices(log)| == |UnknownEntries(log)|
    decreases |log|
  {
    if log != [] {
      var init, last := log[..|log| - 1], log[|log| - 1];
      assert log == init + [last];
      ReplayAppend(map[], init, [last]);
      SkipNoticesCount(init);
      assert [last][1..] == [];
      if last.action in {ADD, UPDATE, DELETE} {
        assert UnknownEntries(log) == UnknownEntries(init);
      } else {
        assert UnknownEntries(log) == UnknownEntries(init) + {|init|};
      }
    }
  }

  /** Replaying an "update" twice in a row is replaying it once. */
  lemma ReplayUpdateIdempotent(remote: TaskMap, task: Task)
    ensures Replay(remote, [Request(UPDATE, task), Request(UPDATE, task)]) == Replay(remote, [Request(UPDATE, task)])
  {
    var r := Request(UPDATE, task);
    assert [r, r][1..] == [r];
    assert [r][1..] == [];
    assert Replay(remote, [r]) == remote[task.id := task];
    assert Replay(remote, [r, r]) == Replay(remote[task.id := task], [r]);
  }

  // ---------------------------------------------------------------------
  // Mutations, and what an offline mutation leaves in the log

  /** A mutation the page asks for: `create(task)`, `update(task)` or
      `delete(list)`. */
  datatype Mutation = CreateOp(task: Task) | UpdateOp(task: Task) | DeleteOp(tasks: seq<Task>)

  /** What a mutation does to a task list, local or remote: upsert, or
      removal of every listed id. */
  function Apply(list: TaskMap, mutation: Mutation): (r: TaskMap)
  {
    match mutation
    case CreateOp(t) => list[t.id := t]
    case UpdateOp(t) => list[t.id := t]
    case DeleteOp(ts) => list - Ids(ts)
  }

  /** Applying mutations in order. */
  function ApplyAll(list: TaskMap, mutations: seq<Mutation>): (r: TaskMap)
    decreases |mutations|
  {
    if mutations == [] then list else ApplyAll(Apply(list, mutations[0]), mutations[1..])
  }

  /** The entries an offline `delete(list)` pushes: one per task, in list
      order. */
  function DeleteRequests(tasks: seq<Task>): (r: seq<Request>)
    ensures |r| == |tasks|
    ensures forall i :: 0 <= i < |tasks| ==> r[i] == Request(DELETE, tasks[i])
    decreases |tasks|
  {
    if tasks == [] then [] else [Request(DELETE, tasks[0])] + DeleteRequests(tasks[1..])
  }

  /** The entries an offline mutation pushes. */
  function Logged(mutation: Mutation): (r: seq<Request>)
  {
    match mutation
    case CreateOp(t) => [Request(ADD, t)]
    case UpdateOp(t) => [Request(UPDATE, t)]
    case DeleteOp(ts) => DeleteRequests(ts)
  }

  /** The log a run of offline mutations leaves behind. */
  function LoggedAll(mutations: seq<Mutation>): (r: seq<Request>)
    decreases |mutations|
  {
    if mutations == [] then [] else Logged(mutations[0]) + LoggedAll(mutations[1..])
  }

  lemma {:induction false} DeleteRequestsSnoc(tasks: seq<Task>, t: Task)
    ensures DeleteRequests(tasks + [t]) == DeleteRequests(tasks) + [Request(DELETE, t)]
    decreases |tasks|
  {
    if tasks != [] {
      assert (tasks + [t])[1..] == tasks[1..] + [t];
      DeleteRequestsSnoc(tasks[1..], t);
    } else {
      assert [t][1..] == [];
    }
  }

  /** Replaying the per-task entries of a batch delete removes the same
      ids as the batch delete itself. */
  lemma {:induction false} ReplayDeletes(remote: TaskMap, tasks: seq<Task>)
    ensures Replay(remote, DeleteRequests(tasks)) == remote - Ids(tasks)
    ensures SkipNotices(DeleteRequests(tasks)) == []
    decreases |tasks|
  {
    if tasks != [] {
      ReplayDeletes(remote - {tasks[0].id}, tasks[1..]);
      assert tasks == [tasks[0]] + tasks[1..];
      IdsCons(tasks[0], tasks[1..]);
    }
  }

  /** Replay equivalence: replaying the log a run of offline mutations
      leaves has the same effect on the remote list as performing the same
      mutations online, and raises no banner. */
  lemma {:induction false} ReplayEquivalence(remote: TaskMap, mutations: seq<Mutation>)
    ensures Replay(remote, LoggedAll(mutations)) == ApplyAll(remote, mutations)
    ensures SkipNotices(LoggedAll(mutations)) == []
    decreases |mutations|
  {
    if mutations != [] {
      var m := mutations[0];
      ReplayAppend(remote, Logged(m), LoggedAll(mutations[1..]));
      match m {
        case CreateOp(t) =>
          assert [Request(ADD, t)][1..] == [];
        case UpdateOp(t) =>
          assert [Request(UPDATE, t)][1..] == [];
        case DeleteOp(ts) =>
          ReplayDeletes(remote, ts);
      }
      ReplayEquivalence(Apply(remote, m), mutations[1..]);
    }
  }

  /** Offline, create A, create B, delete [A]: the log is
      [add A, add B, delete A], and replaying it leaves B and not A, on top
      of whatever the remote list held; on an empty remote list, only B. */
  lemma OfflineCreateCreateDelete(remote: TaskMap, a: Task, b: Task)
    requires a.id != b.id
    ensures LoggedAll([CreateOp(a), CreateOp(b), DeleteOp([a])]) == [Request(ADD, a), Request(ADD, b), Request(DELETE, a)]
    ensures Replay(remote, [Request(ADD, a), Request(ADD, b), Request(DELETE, a)]) == (remote[a.id := a][b.id := b]) - {a.id}
    ensures remote == map[] ==> Replay(remote, [Request(ADD, a), Request(ADD, b), Request(DELETE, a)]) == map[b.id := b]
  {
    var ms := [CreateOp(a), CreateOp(b), DeleteOp([a])];
    var tail := [DeleteOp([a])];
    assert ms[1..] == [CreateOp(b)] + tail;
    assert ([CreateOp(b)] + tail)[1..] == tail;
    assert tail[1..] == [];
    assert [a][1..] == [];
    assert DeleteRequests([a]) == [Request(DELETE, a)];
    assert LoggedAll(tail) == [Request(DELETE, a)];
    assert LoggedAll([CreateOp(b)] + tail) == [Request(ADD, b), Request(DELETE, a)];
    assert LoggedAll(ms) == [Request(ADD, a), Request(ADD, b), Request(DELETE, a)];
    ReplayEquivalence(remote, ms);
    assert Ids([a]) == {a.id};
    var both := remote[a.id := a][b.id := b];
    assert ApplyAll(both, tail) == both - {a.id} by {
      assert ApplyAll(both, tail) == ApplyAll(both - {a.id}, []);
    }
    assert ApplyAll(remote, ms) == ApplyAll(both, tail);
    if remote == map[] {
      assert both - {a.id} == map[b.id := b];
    }
  }

  // ---------------------------------------------------------------------
  // The change-feed guard

  /** The update guard as JavaScript literally writes it: the second
      comparison tests the old description against the new title. */
  predicate LiteralUpdateGuard(oldTask: Task, task: Task): (r: bool)
    ensures oldTask.title != task.title ==> r
    ensures r != UpdateNeeded(oldTask, task) ==>
      oldTask.title == task.title && (oldTask.desc == task.title) != (oldTask.desc == task.desc)
  {
    oldTask.title != task.title || oldTask.desc != task.title
  }

  /** The update guard as intended: each field against its counterpart.
      For the same id it holds exactly when the task differs. */
  predicate UpdateNeeded(oldTask: Task, task: Task): (r: bool)
    ensures oldTask.id == task.id ==> (r <==> oldTask != task)
  {
    oldTask.title != task.title || oldTask.desc != task.desc
  }

  /** The literal guard re-applies, and re-emits, an echo of an update
      whose description differs from its title. */
  lemma LiteralGuardPassesEcho()
    ensures var t := Task("42", "milk", "two litres");
      LiteralUpdateGuard(t, t) && !UpdateNeeded(t, t)
  {
  }

  /** The literal guard drops a remote update that changes only the
      description, when the old description equals the title. */
  lemma LiteralGuardMissesDescChange()
    ensures var old_ := Task("42", "milk", "milk"); var t := Task("42", "milk", "two litres");
      !LiteralUpdateGuard(old_, t) && UpdateNeeded(old_, t)
  {
  }

  /** How `updateLocal` handles a message, given the local list. */
  datatype FeedOutcome =
    | Applied           // the store changed and the callback was told
    | Ignored           // an echo or a no-op: an add for a present id, a delete for an absent one, an update with nothing new
    | UnexpectedAction  // not "add", "update" or "delete": a banner, nothing else
    | NoLocalCopy       // an update for an absent id: `oldTask.title` on `null` throws

  /** The decision `updateLocal` takes. */
  function Decide(list: TaskMap, msg: Message): (r: FeedOutcome)
    ensures r == UnexpectedAction <==> msg.action !in {ADD, UPDATE, DELETE}
    ensures r == NoLocalCopy <==> msg.action == UPDATE && msg.task.id !in list
    ensures r == Applied && msg.action == UPDATE ==> list[msg.task.id] != msg.task
  {
    var id := msg.task.id;
    if msg.action == ADD then (if id !in list then Applied else Ignored)
    else if msg.action == DELETE then (if id in list then Applied else Ignored)
    else if msg.action == UPDATE then
      (if id !in list then NoLocalCopy else if UpdateNeeded(list[id], msg.task) then Applied else Ignored)
    else UnexpectedAction
  }

  /** What applying a message does to the local list: the same as
      replaying a log entry with the same action and task. */
  function ApplyMessage(list: TaskMap, msg: Message): (r: TaskMap)
    ensures forall k :: k in list && k != msg.task.id ==> k in r && r[k] == list[k]
    ensures forall k :: k in r && k != msg.task.id ==> k in list
    ensures msg.action in {ADD, UPDATE} ==> msg.task.id in r && r[msg.task.id] == msg.task
    ensures msg.action == DELETE ==> msg.task.id !in r
    ensures msg.action !in {ADD, UPDATE, DELETE} ==> r == list
  {
    ReplayOne(list, Request(msg.action, msg.task))
  }

  /** The event the callback receives for an applied message. */
  function EventOf(msg: Message): (r: DbEvent)
    ensures !r.Refresh? && r.task == msg.task
    ensures r.Added? <==> msg.action == ADD
    ensures r.Deleted? <==> msg.action == DELETE
  {
    if msg.action == ADD then Added(msg.task)
    else if msg.action == DELETE then Deleted(msg.task)
    else Updated(msg.task)
  }

  /** The guard is exact for deletes and updates: a message is applied if
      and only if applying it changes the local list. For adds it is a
      presence test: applied exactly when the id is absent, so an add never
      overwrites a task that is already there. */
  lemma GuardIsExact(list: TaskMap, msg: Message)
    ensures msg.action == DELETE ==> (Decide(list, msg) == Applied <==> ApplyMessage(list, msg) != list)
    ensures msg.action == UPDATE && msg.task.id in list && list[msg.task.id].id == msg.task.id ==>
      (Decide(list, msg) == Applied <==> ApplyMessage(list, msg) != list)
    ensures msg.action == ADD ==> (Decide(list, msg) == Applied <==> msg.task.id !in list)
    ensures Decide(list, msg) == Applied ==> ApplyMessage(list, msg) != list
  {
    var id := msg.task.id;
    if msg.action == DELETE && id in list {
      assert id !in ApplyMessage(list, msg);
    }
    if msg.action == UPDATE && id in list && ApplyMessage(list, msg) == list {
      assert list[id] == msg.task;
    }
    if msg.action == ADD && id !in list {
      assert id in ApplyMessage(list, msg);
    }
  }

  /** Echo suppression: when the feed sends back a mutation this client
      already applied locally, nothing is applied and nothing is emitted. */
  lemma EchoIgnored(before: TaskMap, msg: Message)
    requires msg.action in {ADD, UPDATE, DELETE}
    ensures Decide(ApplyMessage(before, msg), msg) == Ignored
  {
  }

  // ---------------------------------------------------------------------
  // The orchestrator

  class Storage {
    const adapter: LocalAdapter
    const requestDB: RequestDB
    /** The remote store `setServer` connects to. */
    const remote: RemoteStore
    /** `window.connectionHandler`. */
    const connection: ConnectionHandler
    var emitter: CallbackId
    /** Every call of the emitter, in order. */
    var emitted: seq<Emission>
    /** Every banner raised, in order. */
    var notifications: seq<string>

    constructor (adapter: LocalAdapter, requestDB: RequestDB, remote: RemoteStore, connection: ConnectionHandler)
      ensures this.adapter == adapter && this.requestDB == requestDB
      ensures this.remote == remote && this.connection == connection
      ensures emitter == NO_OP && emitted == [] && notifications == []
    {
      this.adapter := adapter;
      this.requestDB := requestDB;
      this.remote := remote;
      this.connection := connection;
      emitter := NO_OP;
      emitted := [];
      notifications := [];
    }

    /** The local store was written with `list` as its new content. */
    twostate predicate Saved(list: TaskMap)
      reads this, adapter, adapter.storage
    {
      && adapter.list == list
      && adapter.storage.items == old(adapter.storage.items)[LIST_KEY := JsonOf(list, adapter.codec)]
    }

    /** Local store, pending log and remote store as `create` and
        `update` leave them: the task is upserted locally, then exactly one
        of two things: online, the remote call (which may fail) and no log
        entry; otherwise one pushed entry (if the push succeeded) and no
        remote call. */
    twostate predicate Routed(action: string, task: Task, ok: bool)
      reads this, adapter, adapter.storage, requestDB, remote, connection
    {
      && Saved(old(adapter.list)[task.id := task])
      && (Truthy(old(connection.isOnline)) ==>
            && requestDB.entries == old(requestDB.entries)
            && (ok ==> remote.tasks == old(remote.tasks)[task.id := task])
            && (!ok ==> remote.tasks == old(remote.tasks) || remote.tasks == old(remote.tasks)[task.id := task]))
      && (!Truthy(old(connection.isOnline)) ==>
            && remote.tasks == old(remote.tasks)
            && requestDB.entries == old(requestDB.entries) + (if ok then [Request(action, task)] else []))
    }

    /** `create`; `ok` is false where the promise rejects. */
    method Create(task: Task) returns (ok: bool)
      modifies adapter, adapter.storage, requestDB, remote
      ensures Routed(ADD, task, ok)
    {
      if Truthy(connection.isOnline) {
        adapter.Create(task);
        ok := remote.Create(task);
      } else {
        adapter.Create(task);
        ok := requestDB.Push(ADD, task);
      }
    }

    /** `update`; the same routing as `create`, with "update" entries. */
    method Update(task: Task) returns (ok: bool)
      modifies adapter, adapter.storage, requestDB, remote
      ensures Routed(UPDATE, task, ok)
    {
      if Truthy(connection.isOnline) {
        adapter.Update(task);
        ok := remote.Update(task);
      } else {
        adapter.Update(task);
        ok := requestDB.Push(UPDATE, task);
      }
    }

    /** `delete`: every listed id leaves the local store; then online one
        remote batch delete, offline one "delete" entry per task in list
        order. A failed push stops the loop, so a prefix of the entries is
        written. */
    method Delete(list: seq<Task>) returns (ok: bool)
      modifies adapter, adapter.storage, requestDB, remote
      ensures Saved(old(adapter.list) - Ids(list))
      ensures Truthy(old(connection.isOnline)) ==>
        && requestDB.entries == old(requestDB.entries)
        && (ok ==> remote.tasks == old(remote.tasks) - Ids(list))
        && (!ok ==> PartlyRemoved(old(remote.tasks), remote.tasks, Ids(list)))
      ensures !Truthy(old(connection.isOnline)) ==>
        && remote.tasks == old(remote.tasks)
        && (ok ==> requestDB.entries == old(requestDB.entries) + DeleteRequests(list))
        && (!ok ==> exists k :: 0 <= k < |list| && requestDB.entries == old(requestDB.entries) + DeleteRequests(list[..k]))
    {
      if Truthy(connection.isOnline) {
        adapter.Delete(list);
        ok := remote.Delete(list);
      } else {
        adapter.Delete(list);
        var i := 0;
        while i < |list|
          invariant 0 <= i <= |list|
          invariant requestDB.entries == old(requestDB.entries) + DeleteRequests(list[..i])
          invariant Saved(old(adapter.list) - Ids(list))
          invariant remote.tasks == old(remote.tasks)
        {
          var pushed := requestDB.Push(DELETE, list[i]);
          if !pushed {
            return false;
          }
          assert list[..i + 1] == list[..i] + [list[i]];
          DeleteRequestsSnoc(list[..i], list[i]);
          i := i + 1;
        }
        assert list[..i] == list;
        ok := true;
      }
    }

    /** `read`: the local copy of a task. */
    method Read(id: string) returns (r: Option<Task>)
      ensures r == if id in adapter.list then Some(adapter.list[id]) else None
    {
      r := adapter.Read(id);
    }

    /** `readAll`: the whole local list. */
    method ReadAll() returns (r: TaskMap)
      ensures r == adapter.list
    {
      r := adapter.ReadAll();
    }

    /** `setDBEventFunction`: later events go to the given callback. */
    method SetDBEventFunction(callback: CallbackId)
      modifies this
      ensures emitter == callback
      ensures emitted == old(emitted) && notifications == old(notifications)
    {
      emitter := callback;
    }

    /** One pass of the replay loop of `synchronizeDatabases`: the remote
        call the entry names, or a banner for an unknown action. Where the
        call fails (`done` false) the loop stops before the next entry. */
    method ReplayRequest(request: Request) returns (done: bool)
      modifies this, remote
      ensures done ==> remote.tasks == ReplayOne(old(remote.tasks), request)
      ensures done ==> notifications == old(notifications) + SkipNotices([request])
      ensures !done ==> notifications == old(notifications)
      ensures !done ==> remote.tasks == old(remote.tasks) || remote.tasks == ReplayOne(old(remote.tasks), request)
      ensures emitted == old(emitted) && emitter == old(emitter)
    {
      done := true;
      if request.action == ADD {
        done := remote.Create(request.task);
      } else if request.action == UPDATE {
        done := remote.Update(request.task);
      } else if request.action == DELETE {
        done := remote.Delete([request.task]);
        assert Ids([request.task]) == {request.task.id};
        if !done && remote.tasks != old(remote.tasks) {
          assert remote.tasks == old(remote.tasks) - {request.task.id};
        }
      } else {
        notifications := notifications + [UNEXPECTED_SYNC_ACTION];
      }
      assert [request][1..] == [];
    }

    /** `synchronizeDatabases`. `ok` is false where the promise rejects: a
        failed log read, replay call or remote read, each of which exits
        before the local store, the callback or the log are touched. On
        success the remote list is the old one with the log replayed in
        order, the local store is overwritten with it, the callback gets a
        "refresh" with that same list, and the log is cleared (the `clear`
        is not awaited, so if it fails the log is left as it was). */
    method SynchronizeDatabases() returns (ok: bool)
      modifies this, adapter, adapter.storage, requestDB, remote
      ensures emitter == old(emitter)
      ensures ok ==> remote.tasks == Replay(old(remote.tasks), old(requestDB.entries))
      ensures ok ==> Saved(remote.tasks)
      ensures ok ==> emitted == old(emitted) + [Emission(emitter, Refresh(remote.tasks))]
      ensures ok ==> requestDB.entries == [] || requestDB.entries == old(requestDB.entries)
      ensures ok ==> notifications == old(notifications) + SkipNotices(old(requestDB.entries))
      ensures |notifications| >= |old(notifications)| && notifications[..|old(notifications)|] == old(notifications)
      ensures !ok ==> requestDB.entries == old(requestDB.entries) && emitted == old(emitted)
      ensures !ok ==> adapter.list == old(adapter.list) && adapter.storage.items == old(adapter.storage.items)
    {
      var requests := requestDB.ListAll();
      if requests.None? {
        return false;
      }
      var log := requests.value;
      var i := 0;
      while i < |log|
        invariant 0 <= i <= |log|
        invariant remote.tasks == Replay(old(remote.tasks), log[..i])
        invariant notifications == old(notifications) + SkipNotices(log[..i])
        invariant requestDB.entries == log == old(requestDB.entries)
        invariant adapter.list == old(adapter.list) && adapter.storage.items == old(adapter.storage.items)
        invariant emitted == old(emitted) && emitter == old(emitter)
      {
        var request := log[i];
        var done := ReplayRequest(request);
        if !done {
          return false;
        }
        assert log[..i + 1] == log[..i] + [request];
        ReplayAppend(old(remote.tasks), log[..i], [request]);
        i := i + 1;
      }
      assert log[..i] == log;
      var snapshot := remote.ReadAll();
      if snapshot.None? {
        return false;
      }
      adapter.OverwriteWith(snapshot.value);
      emitted := emitted + [Emission(emitter, Refresh(snapshot.value))];
      var _ := requestDB.Clear();
      ok := true;
    }

    /** `updateLocal`, for one change-feed message: applied, emitted and
        announced only when `Decide` says so. */
    method UpdateLocal(msg: Message) returns (outcome: FeedOutcome)
      modifies this, adapter, adapter.storage
      ensures outcome == Decide(old(adapter.list), msg)
      ensures emitter == old(emitter)
      ensures outcome == Applied ==> Saved(ApplyMessage(old(adapter.list), msg))
      ensures outcome == Applied ==> emitted == old(emitted) + [Emission(emitter, EventOf(msg))]
      ensures outcome != Applied ==> adapter.list == old(adapter.list) && adapter.storage.items == old(adapter.storage.items)
      ensures outcome != Applied ==> emitted == old(emitted)
      ensures notifications == old(notifications) + (
        if outcome == Applied then [REMOTE_CHANGES]
        else if outcome == UnexpectedAction then [UNEXPECTED_FEED_ACTION]
        else [])
    {
      var task := msg.task;
      if msg.action == ADD {
        var present := adapter.Has(task.id);
        if present {
          return Ignored;
        }
        adapter.Create(task);
        emitted := emitted + [Emission(emitter, Added(task))];
      } else if msg.action == DELETE {
        var present := adapter.Has(task.id);
        if !present {
          return Ignored;
        }
        adapter.Delete([task]);
        assert Ids([task]) == {task.id};
        emitted := emitted + [Emission(emitter, Deleted(task))];
      } else if msg.action == UPDATE {
        var oldTask := adapter.Read(task.id);
        if oldTask.None? {
          return NoLocalCopy;
        }
        if !UpdateNeeded(oldTask.value, task) {
          return Ignored;
        }
        adapter.Update(task);
        emitted := emitted + [Emission(emitter, Updated(task))];
      } else {
        notifications := notifications + [UNEXPECTED_FEED_ACTION];
        return UnexpectedAction;
      }
      notifications := notifications + [REMOTE_CHANGES];
      outcome := Applied;
    }

    /** One probe of the connectivity monitor, with the listeners this
        object registers: on "on", a banner and a synchronisation, whose
        failure is not reported (the promise is not awaited); on "off", a
        banner. `pinged` is false where `ping` throws. */
    method Probe(reachable: bool) returns (pinged: bool, fired: Signal, synced: bool)
      modifies connection, this, adapter, adapter.storage, requestDB, remote
      ensures pinged <==> old(connection.path) != ""
      ensures pinged ==> (connection.isOnline, fired) == Transition(old(connection.isOnline), reachable)
      ensures !pinged ==> fired == Quiet && connection.isOnline == old(connection.isOnline)
      ensures connection.path == old(connection.path)
      ensures connection.onEvents == old(connection.onEvents) + (if fired == On then 1 else 0)
      ensures connection.offEvents == old(connection.offEvents) + (if fired == Off then 1 else 0)
      ensures emitter == old(emitter)
      ensures synced ==> fired == On
      ensures synced ==> remote.tasks == Replay(old(remote.tasks), old(requestDB.entries)) && Saved(remote.tasks)
      ensures synced ==> emitted == old(emitted) + [Emission(emitter, Refresh(remote.tasks))]
      ensures synced ==> requestDB.entries == [] || requestDB.entries == old(requestDB.entries)
      ensures !synced ==> requestDB.entries == old(requestDB.entries) && emitted == old(emitted)
      ensures !synced ==> adapter.list == old(adapter.list) && adapter.storage.items == old(adapter.storage.items)
      ensures fired != On ==> remote.tasks == old(remote.tasks)
      ensures fired == Off ==> notifications == old(notifications) + [DISCONNECTED]
      ensures fired == Quiet ==> notifications == old(notifications)
      ensures fired == On ==> |notifications| > |old(notifications)|
      ensures fired == On ==> notifications[..|old(notifications)| + 1] == old(notifications) + [CONNECTED]
      ensures synced ==> notifications == old(notifications) + [CONNECTED] + SkipNotices(old(requestDB.entries))
    {
      pinged, fired := connection.Ping(reachable);
      synced := false;
      if fired == On {
        notifications := notifications + [CONNECTED];
        synced := SynchronizeDatabases();
      } else if fired == Off {
        notifications := notifications + [DISCONNECTED];
      }
    }
  }

  /** A client of the specifications above: while not online the page
      creates A, creates B and deletes [A] on an empty log, then the
      client synchronises. The log held [add A, add B, delete A]; after a
      successful synchronisation the remote list is the old one with A and
      B created and A deleted again, and the local store equals it. */
  method OfflineSessionThenSync(s: Storage, a: Task, b: Task) returns (ok: bool, ghost logged: seq<Request>)
    requires !Truthy(s.connection.isOnline) && s.requestDB.entries == [] && a.id != b.id
    modifies s, s.adapter, s.adapter.storage, s.requestDB, s.remote
    ensures ok ==> logged == [Request(ADD, a), Request(ADD, b), Request(DELETE, a)]
    ensures ok ==> s.remote.tasks == (old(s.remote.tasks)[a.id := a][b.id := b]) - {a.id}
    ensures ok ==> s.adapter.list == s.remote.tasks
    ensures !ok ==> s.adapter.list == (old(s.adapter.list)[a.id := a][b.id := b]) - {a.id}
  {
    var created := s.Create(a);
    var createdToo := s.Create(b);
    var deleted := s.Delete([a]);
    assert Ids([a]) == {a.id};
    assert DeleteRequests([a]) == [Request(DELETE, a)] by {
      assert [a][1..] == [];
    }
    logged := s.requestDB.entries;
    if !(created && createdToo && deleted) {
      return false, logged;
    }
    OfflineCreateCreateDelete(old(s.remote.tasks), a, b);
    ok := s.SynchronizeDatabases();
  }
}
