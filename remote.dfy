/** The remote store as the engine relies on it (the contract of
    js/adapters/restAdapter.js, whose HTTP plumbing is not modelled): an
    authoritative map from id to task whose `create` and `update` upsert and
    whose `delete` removes by id. Any call may fail (a non-success status or
    a timeout); a request that timed out may still have reached the
    server, so a failed call leaves the store either as it was or as a
    successful call would have. */
module Remote {
  import opened Types

  /** A failed batch delete (`Promise.all` over one request per task)
      removed some of the listed ids and changed nothing else. */
  ghost predicate PartlyRemoved(before: TaskMap, after: TaskMap, ids: set<string>)
  {
    && after.Keys <= before.Keys
    && before.Keys - ids <= after.Keys
    && forall k :: k in after ==> after[k] == before[k]
  }

  class RemoteStore {
    var tasks: TaskMap

    constructor (tasks: TaskMap)
      ensures this.tasks == tasks
    {
      this.tasks := tasks;
    }

    /** `POST /tasks`. */
    method Create(task: Task) returns (ok: bool)
      modifies this
      ensures ok ==> tasks == old(tasks)[task.id := task]
      ensures !ok ==> tasks == old(tasks) || tasks == old(tasks)[task.id := task]
    {
      ok := *;
      var reached: bool := *;
      if ok || reached {
        tasks := tasks[task.id := task];
      }
    }

    /** `PUT /tasks/{id}`. */
    method Update(task: Task) returns (ok: bool)
      modifies this
      ensures ok ==> tasks == old(tasks)[task.id := task]
      ensures !ok ==> tasks == old(tasks) || tasks == old(tasks)[task.id := task]
    {
      ok := *;
      var reached: bool := *;
      if ok || reached {
        tasks := tasks[task.id := task];
      }
    }

    /** `DELETE /tasks/{id}` for every listed task. */
    method Delete(list: seq<Task>) returns (ok: bool)
      modifies this
      ensures ok ==> tasks == old(tasks) - Ids(list)
      ensures !ok ==> PartlyRemoved(old(tasks), tasks, Ids(list))
    {
      ok := *;
      if ok {
        tasks := tasks - Ids(list);
      } else {
        assert {} <= Ids(list);
        var reached :| reached <= Ids(list);
        tasks := tasks - reached;
      }
    }

    /** `GET /tasks`: the whole remote list; None where the call fails. */
    method ReadAll() returns (r: Option<TaskMap>)
      ensures r.Some? ==> r.value == tasks
    {
      var ok: bool := *;
      r := if ok then Some(tasks) else None;
    }
  }
}
