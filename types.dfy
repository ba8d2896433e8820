/** The values the synchronisation engine passes around: tasks, task lists,
    pending-log entries, change-feed messages and the events handed to the
    page's callback. */
module Types {

  datatype Option<T> = None | Some(value: T)

  /** A to-do item. `id` is the uuid the client generates at creation; the
      description field is called `desc`, as at js/modal.js:49 and 61
      and js/storage.js:189. */
  datatype Task = Task(id: string, title: string, desc: string)

  /** The content of a JavaScript `Map` from task id to task. The `Map`'s
      insertion order is not part of the model. */
  type TaskMap = map<string, Task>

  /** The action strings written to the pending log and carried by the
      change feed. Any other string is an unexpected action. */
  const ADD: string := "add"
  const UPDATE: string := "update"
  const DELETE: string := "delete"

  /** One pending-log entry, the pair `[action, task]`. */
  datatype Request = Request(action: string, task: Task)

  /** One change-feed message, the object `{action, task}`. */
  datatype Message = Message(action: string, task: Task)

  /** The object passed to the callback registered with the storage layer:
      `{action: "add" | "update" | "delete", task}` or `{action: "refresh", list}`. */
  datatype DbEvent = Added(task: Task) | Updated(task: Task) | Deleted(task: Task) | Refresh(list: TaskMap)

  /** The ids of a list of tasks: the keys a batch delete removes. */
  function Ids(tasks: seq<Task>): set<string>
  {
    set t | t in tasks :: t.id
  }

  lemma IdsSnoc(tasks: seq<Task>, t: Task)
    ensures Ids(tasks + [t]) == Ids(tasks) + {t.id}
  {
    assert forall u :: u in tasks + [t] <==> u in tasks || u == t;
  }

  lemma IdsCons(t: Task, tasks: seq<Task>)
    ensures Ids([t] + tasks) == {t.id} + Ids(tasks)
  {
    assert forall u :: u in [t] + tasks <==> u == t || u in tasks;
  }
}
