/** The local task store used when the browser has no IndexedDB
    (js/adapters/localAdapter.js): a map from id to task kept in memory and
    mirrored, after every change, as JSON text under the key "list" of
    `window.localStorage`. */
module LocalStore {
  import opened Types
  import opened Util

  /** The `localStorage` key the task list is saved under. */
  const LIST_KEY: string := "list"

  /** `window.localStorage`: string items by key, kept across page loads. */
  class WebStorage {
    var items: map<string, string>

    constructor (items: map<string, string>)
      ensures this.items == items
    {
      this.items := items;
    }

    /** `getItem`: the stored string, or None (`null`) for a missing key. */
    function GetItem(key: string): (r: Option<string>)
      reads this
      ensures r.Some? <==> key in items
      ensures r.Some? ==> r.value == items[key]
    {
      if key in items then Some(items[key]) else None
    }

    /** `setItem`: stores the string under the key, replacing any old one. */
    method SetItem(key: string, value: string)
      modifies this
      ensures items == old(items)[key := value]
    {
      items := items[key := value];
    }
  }

  /** The list the constructor starts from: an empty map when nothing, or a
      falsy empty string, is stored; otherwise the stored JSON read back,
      which is None where `JSON.parse` throws. */
  function LoadedList(item: Option<string>, codec: JsonCodec<Task>): (r: Option<TaskMap>)
    ensures item.None? || item.value == "" ==> r == Some(map[])
    ensures r.None? <==> item.Some? && item.value != "" && codec.parse(item.value).None?
    ensures r.Some? && item.Some? && item.value != "" ==> codec.parse(item.value) == Some(JsObject(r.value))
  {
    if item.None? || item.value == "" then Some(map[]) else MapOfJson(item.value, codec)
  }

  /** What a mutation leaves in `localStorage` is read back, on the next
      page load, as exactly the list it was written from. */
  lemma {:induction false} SavedListReloads(list: TaskMap, codec: JsonCodec<Task>)
    requires RoundTrips(codec)
    ensures LoadedList(Some(JsonOf(list, codec)), codec) == Some(list)
  {
    JsonRoundTrip(list, codec);
  }

  class LocalAdapter {
    /** `this.list`, the in-memory `Map`. */
    var list: TaskMap
    const storage: WebStorage
    const codec: JsonCodec<Task>

    /** The stored "list" item is the serialisation of `list`. */
    ghost predicate Mirrored()
      reads this, storage
    {
      LIST_KEY in storage.items && storage.items[LIST_KEY] == JsonOf(list, codec)
    }

    /** Allocation with a given starting list; `Load` models the
        `LocalAdapter` constructor. */
    constructor Init(storage: WebStorage, codec: JsonCodec<Task>, list: TaskMap)
      ensures this.storage == storage && this.codec == codec && this.list == list
    {
      this.storage := storage;
      this.codec := codec;
      this.list := list;
    }

    /** The constructor: reads the "list" item back, or starts empty when
        there is none. None stands for the constructor throwing because the
        stored text is not JSON. Nothing is written. */
    static method Load(storage: WebStorage, codec: JsonCodec<Task>) returns (r: Option<LocalAdapter>)
      ensures r.None? <==> LoadedList(storage.GetItem(LIST_KEY), codec).None?
      ensures r.Some? ==> fresh(r.value) && r.value.storage == storage && r.value.codec == codec
      ensures r.Some? ==> Some(r.value.list) == LoadedList(storage.GetItem(LIST_KEY), codec)
    {
      var item := storage.GetItem(LIST_KEY);
      var list: TaskMap := map[];
      if item.Some? && item.value != "" {
        var parsed := JsonToStrMap(item.value, codec);
        if parsed.None? {
          return None;
        }
        list := parsed.value;
      }
      var adapter := new LocalAdapter.Init(storage, codec, list);
      r := Some(adapter);
    }

    /** `create`: upserts the task under its id, then saves the list. */
    method Create(task: Task)
      modifies this, storage
      ensures list == old(list)[task.id := task]
      ensures storage.items == old(storage.items)[LIST_KEY := JsonOf(list, codec)]
      ensures Mirrored()
    {
      list := list[task.id := task];
      var json := StrMapToJson(list, codec);
      storage.SetItem(LIST_KEY, json);
    }

    /** `read`: the stored task, or None (`null`) when the id is absent. */
    method Read(id: string) returns (r: Option<Task>)
      ensures r.Some? <==> id in list
      ensures r.Some? ==> r.value == list[id]
    {
      if id in list {
        return Some(list[id]);
      }
      return None;
    }

    /** `readAll`: the whole list. */
    method ReadAll() returns (r: TaskMap)
      ensures r == list
    {
      r := list;
    }

    /** `has`: key membership of the list. */
    method Has(id: string) returns (b: bool)
      ensures b <==> id in list
    {
      b := id in list;
    }

    /** `update`: the same upsert as `create`. */
    method Update(task: Task)
      modifies this, storage
      ensures list == old(list)[task.id := task]
      ensures storage.items == old(storage.items)[LIST_KEY := JsonOf(list, codec)]
      ensures Mirrored()
    {
      Create(task);
    }

    /** `delete`: removes the id of every listed task (ids that are absent
        are ignored), then saves the list once. */
    method Delete(tasks: seq<Task>)
      modifies this, storage
      ensures list == old(list) - Ids(tasks)
      ensures storage.items == old(storage.items)[LIST_KEY := JsonOf(list, codec)]
      ensures Mirrored()
    {
      var i := 0;
      while i < |tasks|
        invariant 0 <= i <= |tasks|
        invariant list == old(list) - Ids(tasks[..i])
        invariant storage.items == old(storage.items)
      {
        assert tasks[..i + 1] == tasks[..i] + [tasks[i]];
        IdsSnoc(tasks[..i], tasks[i]);
        list := list - {tasks[i].id};
        i := i + 1;
      }
      assert tasks[..i] == tasks;
      var json := StrMapToJson(list, codec);
      storage.SetItem(LIST_KEY, json);
    }

    /** `overwriteWith`: the list becomes exactly the given map (nothing old
        survives), then is saved. */
    method OverwriteWith(newTasks: TaskMap)
      modifies this, storage
      ensures list == newTasks
      ensures storage.items == old(storage.items)[LIST_KEY := JsonOf(newTasks, codec)]
      ensures Mirrored()
    {
      list := newTasks;
      var json := StrMapToJson(newTasks, codec);
      storage.SetItem(LIST_KEY, json);
    }
  }

  /** A task created in the local store is read back unchanged, and a
      restart reloads the same list. */
  method CreateThenRead(adapter: LocalAdapter, task: Task) returns (r: Option<Task>, reloaded: Option<LocalAdapter>)
    requires RoundTrips(adapter.codec)
    modifies adapter, adapter.storage
    ensures r == Some(task)
    ensures reloaded.Some? && reloaded.value.list == adapter.list
  {
    adapter.Create(task);
    r := adapter.Read(task.id);
    SavedListReloads(adapter.list, adapter.codec);
    reloaded := LocalAdapter.Load(adapter.storage, adapter.codec);
  }
}
