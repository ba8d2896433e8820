/** The pending-request log (js/requestDB.js): an IndexedDB object store
    with auto-increment keys holding `[action, task]` pairs. Auto-increment
    keys make `getAll` return the entries oldest first, so the store is a
    sequence that only grows at its tail until it is cleared. Each IndexedDB
    request may fail (its `onerror` rejects the promise); the failure is
    chosen nondeterministically. */
module RequestLog {
  import opened Types

  class RequestDB {
    /** The stored entries in key order, oldest first. */
    var entries: seq<Request>

    /** Opening the database finds what an earlier session left in it. */
    constructor (persisted: seq<Request>)
      ensures entries == persisted
    {
      entries := persisted;
    }

    /** `push`: appends `[action, task]` at the tail, with no deduplication;
        a failed request leaves the store as it was. */
    method Push(action: string, task: Task) returns (ok: bool)
      modifies this
      ensures entries == if ok then old(entries) + [Request(action, task)] else old(entries)
    {
      ok := *;
      if ok {
        entries := entries + [Request(action, task)];
      }
    }

    /** `listAll`: every entry, oldest first, read in a read-only
        transaction; None where the request fails. */
    method ListAll() returns (r: Option<seq<Request>>)
      ensures r.Some? ==> r.value == entries
    {
      var ok: bool := *;
      r := if ok then Some(entries) else None;
    }

    /** `clear`: empties the store; a failed request leaves it as it was. */
    method Clear() returns (ok: bool)
      modifies this
      ensures entries == if ok then [] else old(entries)
    {
      ok := *;
      if ok {
        entries := [];
      }
    }
  }

  /** Pushing the same pair twice records it twice, after what was there. */
  method PushTwice(db: RequestDB, action: string, task: Task) returns (ok: bool)
    modifies db
    ensures ok ==> db.entries == old(db.entries) + [Request(action, task), Request(action, task)]
    ensures ok ==> |db.entries| == |old(db.entries)| + 2
  {
    var first := db.Push(action, task);
    var second := db.Push(action, task);
    ok := first && second;
  }
}
