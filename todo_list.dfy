/** The two mutation entry points of the to-do page (js/todo.js) that drive
    the storage layer: a failed storage call is followed by `forceOffline()`
    and one retry of the same call, which, the status now being Unknown
    (falsy), takes the offline branch and writes to the pending log. The
    page itself is represented by the list of changes made to it. */
module TodoList {
  import opened Types
  import opened LocalStore
  import opened RequestLog
  import opened Remote
  import opened Connectivity
  import opened Sync

  /** A change to the rendered list: `printOnPage`, `editOnPage`,
      `eraseFromPage`. */
  datatype PageChange = Printed(task: Task) | Edited(task: Task) | Erased(task: Task)

  class Todo {
    const storage: Storage
    var page: seq<PageChange>

    constructor (storage: Storage)
      ensures this.storage == storage && page == []
    {
      this.storage := storage;
      page := [];
    }

    /** `updateTodo`: `storage.update` in edit mode, `storage.create`
        otherwise, retried once after `forceOffline` when it fails.
        `ok` is false where the retry fails too, which `updateTodo`
        lets propagate; the page changes only when a call succeeded.
        `retried` tells whether the first call failed. */
    method UpdateTodo(task: Task, editMode: bool) returns (ok: bool, ghost retried: bool)
      modifies this, storage.adapter, storage.adapter.storage, storage.requestDB, storage.remote, storage.connection
      ensures storage.adapter.list == old(storage.adapter.list)[task.id := task]
      ensures storage.adapter.Mirrored()
      ensures page == old(page) + (if ok then [if editMode then Edited(task) else Printed(task)] else [])
      ensures !retried ==> ok && storage.connection.isOnline == old(storage.connection.isOnline)
      ensures retried ==> storage.connection.isOnline == Unknown
      ensures storage.connection.onEvents == old(storage.connection.onEvents)
      ensures storage.connection.offEvents == old(storage.connection.offEvents)
      ensures !retried && Truthy(old(storage.connection.isOnline)) ==>
        storage.requestDB.entries == old(storage.requestDB.entries)
        && storage.remote.tasks == old(storage.remote.tasks)[task.id := task]
      ensures !retried && !Truthy(old(storage.connection.isOnline)) ==>
        storage.requestDB.entries == old(storage.requestDB.entries) + [Request(if editMode then UPDATE else ADD, task)]
        && storage.remote.tasks == old(storage.remote.tasks)
      ensures retried ==>
        storage.requestDB.entries == old(storage.requestDB.entries) + (if ok then [Request(if editMode then UPDATE else ADD, task)] else [])
      ensures retried && !Truthy(old(storage.connection.isOnline)) ==> storage.remote.tasks == old(storage.remote.tasks)
      ensures retried && Truthy(old(storage.connection.isOnline)) ==>
        storage.remote.tasks == old(storage.remote.tasks) || storage.remote.tasks == old(storage.remote.tasks)[task.id := task]
    {
      var first: bool;
      if editMode {
        first := storage.Update(task);
      } else {
        first := storage.Create(task);
      }
      retried := !first;
      ok := first;
      if !first {
        storage.connection.ForceOffline();
        if editMode {
          ok := storage.Update(task);
        } else {
          ok := storage.Create(task);
        }
      }
      if ok {
        page := page + [if editMode then Edited(task) else Printed(task)];
      }
    }

    /** `removeFromTodo`: reads the task, then `storage.delete([task])`,
        retried once after `forceOffline`. For an id with no local copy the
        read gives `null` and both calls throw on `task.id` before touching
        any store, so only the status changes. */
    method RemoveFromTodo(taskId: string) returns (ok: bool, ghost retried: bool)
      modifies this, storage.adapter, storage.adapter.storage, storage.requestDB, storage.remote, storage.connection
      ensures storage.connection.onEvents == old(storage.connection.onEvents)
      ensures storage.connection.offEvents == old(storage.connection.offEvents)
      ensures !retried ==> ok && storage.connection.isOnline == old(storage.connection.isOnline)
      ensures retried ==> storage.connection.isOnline == Unknown
      ensures taskId !in old(storage.adapter.list) ==>
        && !ok && retried
        && storage.adapter.list == old(storage.adapter.list)
        && storage.adapter.storage.items == old(storage.adapter.storage.items)
        && storage.requestDB.entries == old(storage.requestDB.entries)
        && storage.remote.tasks == old(storage.remote.tasks)
        && page == old(page)
      ensures taskId in old(storage.adapter.list) ==>
        var task := old(storage.adapter.list)[taskId];
        && storage.adapter.list == old(storage.adapter.list) - {task.id}
        && storage.adapter.Mirrored()
        && page == old(page) + (if ok then [Erased(task)] else [])
        && (!retried && Truthy(old(storage.connection.isOnline)) ==>
              storage.requestDB.entries == old(storage.requestDB.entries)
              && storage.remote.tasks == old(storage.remote.tasks) - {task.id})
        && (!retried && !Truthy(old(storage.connection.isOnline)) ==>
              storage.requestDB.entries == old(storage.requestDB.entries) + [Request(DELETE, task)]
              && storage.remote.tasks == old(storage.remote.tasks))
        && (retried ==>
              storage.requestDB.entries == old(storage.requestDB.entries) + (if ok then [Request(DELETE, task)] else []))
        && (retried && !Truthy(old(storage.connection.isOnline)) ==> storage.remote.tasks == old(storage.remote.tasks))
        && (retried && Truthy(old(storage.connection.isOnline)) ==>
              storage.remote.tasks == old(storage.remote.tasks) || storage.remote.tasks == old(storage.remote.tasks) - {task.id})
    {
      var found := storage.Read(taskId);
      if found.None? {
        // `delete([null])` throws in the local store, on both tries.
        storage.connection.ForceOffline();
        return false, true;
      }
      var task := found.value;
      assert Ids([task]) == {task.id};
      assert [task][..0] == [];
      assert DeleteRequests([task]) == [Request(DELETE, task)] by {
        assert [task][1..] == [];
      }
      var first := storage.Delete([task]);
      retried := !first;
      ok := first;
      if !first {
        storage.connection.ForceOffline();
        ok := storage.Delete([task]);
      }
      if ok {
        page := page + [Erased(task)];
      }
    }
  }
}
