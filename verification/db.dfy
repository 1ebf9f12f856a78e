/**
 The task repository over an in-memory task collection: a map from ObjectId to
 stored task document. The driver's id check (`ObjectId.is_valid`), its
 string-to-ObjectId conversion and the ids it generates for new documents are
 supplied by the caller.
 */
module Db {
  import opened Values
  import opened Models

  /** `ObjectId.is_valid` and the `ObjectId(text)` conversion of the BSON driver. */
  datatype IdScheme = IdScheme(isValid: string -> bool, parse: string -> Oid)

  /** The task collection */
  type Store = map<Oid, Task>

  /** A stored task together with its `_id` */
  datatype Record = Record(id: Oid, task: Task)

  /** What `create` returns, and the collection after it */
  datatype Created = Created(record: Record, store: Store)

  /** What `update` returns (None for no document), and the collection after it */
  datatype Updated = Updated(record: Option<Record>, store: Store)

  /** What `delete` returns, and the collection after it */
  datatype Deleted = Deleted(removed: bool, store: Store)

  /** Every stored status is one of the enumerated ones. */
  predicate AllStatusesValid(store: Store) {
    forall id :: id in store ==> store[id].status in TaskStatus
  }

  /** `after` agrees with `before` on every id other than `id`. */
  ghost predicate SameExcept(before: Store, after: Store, id: Oid) {
    forall k :: k != id ==> (k in before <==> k in after) && (k in before ==> before[k] == after[k])
  }

  /** `records` lists every stored task exactly once, each with its own id. */
  predicate Lists(records: seq<Record>, store: Store) {
    && |records| == |store|
    && (forall i :: 0 <= i < |records| ==> records[i].id in store && store[records[i].id] == records[i].task)
    && (forall id :: id in store ==> exists i :: 0 <= i < |records| && records[i].id == id)
    && (forall i, j :: 0 <= i < j < |records| ==> records[i].id != records[j].id)
  }

  /** A task as the collection keeps it: both datetimes cut to BSON's whole milliseconds. */
  function Stored(t: Task): Task {
    t.(createdAt := StoredTime(t.createdAt),
       updatedAt := if t.updatedAt.Some? then Some(StoredTime(t.updatedAt.value)) else None)
  }

  /** `get_all`: every document of the collection, unfiltered, in an order the store chooses. */
  method GetAll(store: Store) returns (records: seq<Record>)
    ensures Lists(records, store)
  {
    records := [];
    var left := store.Keys;
    while left != {}
      invariant left <= store.Keys
      invariant |records| + |left| == |store|
      invariant forall i :: 0 <= i < |records| ==>
        records[i].id in store && records[i].id !in left && store[records[i].id] == records[i].task
      invariant forall id :: id in store && id !in left ==> exists i :: 0 <= i < |records| && records[i].id == id
      invariant forall i, j :: 0 <= i < j < |records| ==> records[i].id != records[j].id
      decreases left
    {
      var id :| id in left;
      ghost var listed := records;
      records := records + [Record(id, store[id])];
      left := left - {id};
      forall k | k in store && k !in left
        ensures exists i :: 0 <= i < |records| && records[i].id == k
      {
        if k == id {
          assert records[|listed|].id == k;
        } else {
          var i :| 0 <= i < |listed| && listed[i].id == k;
          assert records[i].id == k;
        }
      }
    }
  }

  /** `get_by_id`: None for a malformed id, else the document stored under it, if any. */
  function GetById(store: Store, taskId: string, ids: IdScheme): (r: Option<Record>)
    ensures r.Some? <==> ids.isValid(taskId) && ids.parse(taskId) in store
    ensures r.Some? ==> r.value.id == ids.parse(taskId) && r.value.task == store[r.value.id]
  {
    if !ids.isValid(taskId) then None
    else
      var oid := ids.parse(taskId);
      if oid in store then Some(Record(oid, store[oid])) else None
  }

  /**
   `create`: stores the payload's fields with `created_at` stamped and
   `updated_at` None under the id the driver generated. It returns the
   document it built, not the stored one, so the returned `created_at` keeps
   the clock's microseconds while the stored one is cut to milliseconds.
   */
  function Create(store: Store, data: TaskCreate, now: Timestamp, newId: Oid): (r: Created)
    requires newId !in store
    ensures r.record.id == newId && r.record.id !in store
    ensures r.record.task.title == data.title
    ensures r.record.task.description == data.description
    ensures r.record.task.status == data.status
    ensures r.record.task.createdAt == now && r.record.task.updatedAt == None
    ensures r.store.Keys == store.Keys + {newId}
    ensures r.store[newId] == r.record.task.(createdAt := StoredTime(now))
    ensures SameExcept(store, r.store, newId)
  {
    var task := Task(data.title, data.description, data.status, now, None);
    Created(Record(newId, task), store[newId := Stored(task)])
  }

  /** `$set` of `fields` and `updated_at` on one stored document. */
  function SetFields(t: Task, fields: map<string, string>, now: Timestamp): Task {
    t.(title := if "title" in fields then fields["title"] else t.title,
       description := if "description" in fields then fields["description"] else t.description,
       status := if "status" in fields then fields["status"] else t.status,
       updatedAt := Some(StoredTime(now)))
  }

  /**
   `update`: for a malformed or absent id, None and no change; otherwise the
   supplied fields are overwritten, `updated_at` is set to now (as stored, to
   the millisecond), and the stored document after the update is returned.
   Every other field and every other document keep their values.
   */
  function Update(store: Store, taskId: string, fields: map<string, string>, now: Timestamp, ids: IdScheme): (r: Updated)
    requires fields.Keys <= PatchableFields
    ensures r.record.None? <==> !ids.isValid(taskId) || ids.parse(taskId) !in store
    ensures r.record.None? ==> r.store == store
    ensures r.record.Some? ==>
      var oid := ids.parse(taskId);
      && r.record.value.id == oid
      && r.store.Keys == store.Keys
      && r.store[oid] == r.record.value.task
      && SameExcept(store, r.store, oid)
      && (forall name :: name in PatchableFields ==>
            Field(r.record.value.task, name) == if name in fields then fields[name] else Field(store[oid], name))
      && r.record.value.task.createdAt == store[oid].createdAt
      && r.record.value.task.updatedAt == Some(StoredTime(now))
  {
    if !ids.isValid(taskId) then Updated(None, store)
    else
      var oid := ids.parse(taskId);
      if oid !in store then Updated(None, store)
      else
        var task := SetFields(store[oid], fields, now);
        Updated(Some(Record(oid, task)), store[oid := task])
  }

  /**
   `delete`: reports whether a document was removed, which happens exactly
   when the id is well formed and present; afterwards it is absent and every
   other document is untouched.
   */
  function Delete(store: Store, taskId: string, ids: IdScheme): (r: Deleted)
    ensures r.removed <==> ids.isValid(taskId) && ids.parse(taskId) in store
    ensures !ids.isValid(taskId) ==> r.store == store
    ensures ids.isValid(taskId) ==> r.store.Keys == store.Keys - {ids.parse(taskId)}
    ensures ids.isValid(taskId) ==> SameExcept(store, r.store, ids.parse(taskId))
  {
    if !ids.isValid(taskId) then Deleted(false, store)
    else
      var oid := ids.parse(taskId);
      Deleted(oid in store, store - {oid})
  }

  /** The three documents `init_db` inserts into an empty task collection, one per status. */
  function DefaultTasks(now: Timestamp): seq<Task> {
    [ Task("Implementar autenticación", "Crear sistema de login y registro para los usuarios", "completed", now, None),
      Task("Diseñar interfaz de usuario", "Crear diseños de UI/UX para la aplicación de gestión de tareas", "in_progress", now, None),
      Task("Configurar base de datos", "Configurar MongoDB y crear schemas necesarios", "todo", now, None) ]
  }

  /**
   The task half of `init_db`: an empty collection receives the three default
   tasks under the ids the driver generates; a non-empty one is left alone.
   */
  function Seed(store: Store, now: Timestamp, newIds: seq<Oid>): (r: Store)
    requires |newIds| == 3 && newIds[0] != newIds[1] && newIds[0] != newIds[2] && newIds[1] != newIds[2]
    ensures |store| != 0 ==> r == store
    ensures |store| == 0 ==> r.Keys == {newIds[0], newIds[1], newIds[2]}
    ensures |store| == 0 ==>
      r[newIds[0]].status == "completed" && r[newIds[1]].status == "in_progress" && r[newIds[2]].status == "todo"
    ensures |store| == 0 ==> forall i :: 0 <= i < 3 ==>
      r[newIds[i]].title == DefaultTasks(now)[i].title && r[newIds[i]].description == DefaultTasks(now)[i].description
    ensures |store| == 0 ==> forall id :: id in r ==> r[id].createdAt == StoredTime(now) && r[id].updatedAt == None
  {
    if |store| == 0 then
      var d := DefaultTasks(now);
      map[newIds[0] := Stored(d[0]), newIds[1] := Stored(d[1]), newIds[2] := Stored(d[2])]
    else
      store
  }

  /** Seeding twice is seeding once: the second run finds the collection non-empty. */
  lemma SeedIdempotent(store: Store, now: Timestamp, later: Timestamp, newIds: seq<Oid>, moreIds: seq<Oid>)
    requires |newIds| == 3 && newIds[0] != newIds[1] && newIds[0] != newIds[2] && newIds[1] != newIds[2]
    requires |moreIds| == 3 && moreIds[0] != moreIds[1] && moreIds[0] != moreIds[2] && moreIds[1] != moreIds[2]
    ensures Seed(Seed(store, now, newIds), later, moreIds) == Seed(store, now, newIds)
  {
    var once := Seed(store, now, newIds);
    if |store| == 0 {
      assert newIds[0] in once;
    }
  }

  /** A created task is read back, as stored, under any id text that names its ObjectId. */
  lemma CreateThenGet(store: Store, data: TaskCreate, now: Timestamp, newId: Oid, ids: IdScheme, taskId: string)
    requires newId !in store
    requires ids.isValid(taskId) && ids.parse(taskId) == newId
    ensures var created := Create(store, data, now, newId);
      GetById(created.store, taskId, ids) == Some(Record(newId, Stored(created.record.task)))
  {
  }

  /** Unless the clock reads a whole millisecond, what `create` returns is not what a later read returns. */
  lemma CreateAnswerIsNotStored(store: Store, data: TaskCreate, now: Timestamp, newId: Oid, ids: IdScheme, taskId: string)
    requires newId !in store
    requires ids.isValid(taskId) && ids.parse(taskId) == newId
    requires now % MicrosPerMilli != 0
    ensures var created := Create(store, data, now, newId);
      GetById(created.store, taskId, ids) != Some(created.record)
  {
  }

  /** Deleting a task just created, by any id text naming it, restores the collection. */
  lemma CreateThenDelete(store: Store, data: TaskCreate, now: Timestamp, newId: Oid, ids: IdScheme, taskId: string)
    requires newId !in store
    requires ids.isValid(taskId) && ids.parse(taskId) == newId
    ensures Delete(Create(store, data, now, newId).store, taskId, ids) == Deleted(true, store)
  {
    assert Create(store, data, now, newId).store - {newId} == store;
  }

  /** An update's answer is exactly what a later read returns. */
  lemma UpdateThenGet(store: Store, taskId: string, fields: map<string, string>, now: Timestamp, ids: IdScheme)
    requires fields.Keys <= PatchableFields
    ensures GetById(Update(store, taskId, fields, now, ids).store, taskId, ids) == Update(store, taskId, fields, now, ids).record
  {
  }

  /** A second delete of the same id removes nothing and changes nothing. */
  lemma DeleteTwice(store: Store, taskId: string, ids: IdScheme)
    ensures var once := Delete(store, taskId, ids);
      Delete(once.store, taskId, ids) == Deleted(false, once.store)
  {
  }

  /** On a malformed id every operation is a no-op answering None / false. */
  lemma MalformedIdShortCircuits(store: Store, taskId: string, fields: map<string, string>, now: Timestamp, ids: IdScheme)
    requires !ids.isValid(taskId)
    requires fields.Keys <= PatchableFields
    ensures GetById(store, taskId, ids) == None
    ensures Update(store, taskId, fields, now, ids) == Updated(None, store)
    ensures Delete(store, taskId, ids) == Deleted(false, store)
  {
  }

  /** Creating from a validated payload keeps every stored status enumerated. */
  lemma CreatePreservesStatuses(store: Store, data: TaskCreate, now: Timestamp, newId: Oid)
    requires newId !in store
    requires AllStatusesValid(store) && data.status in TaskStatus
    ensures AllStatusesValid(Create(store, data, now, newId).store)
  {
  }

  /** Updating with a validated status keeps every stored status enumerated. */
  lemma UpdatePreservesStatuses(store: Store, taskId: string, fields: map<string, string>, now: Timestamp, ids: IdScheme)
    requires fields.Keys <= PatchableFields
    requires AllStatusesValid(store)
    requires "status" in fields ==> fields["status"] in TaskStatus
    ensures AllStatusesValid(Update(store, taskId, fields, now, ids).store)
  {
    var r := Update(store, taskId, fields, now, ids);
    if r.record.Some? {
      var oid := ids.parse(taskId);
      assert Field(r.store[oid], "status") == r.store[oid].status;
    }
  }

  /** Deleting keeps every stored status enumerated. */
  lemma DeletePreservesStatuses(store: Store, taskId: string, ids: IdScheme)
    requires AllStatusesValid(store)
    ensures AllStatusesValid(Delete(store, taskId, ids).store)
  {
  }

  /** Seeding keeps (and on an empty collection establishes) every stored status enumerated. */
  lemma SeedPreservesStatuses(store: Store, now: Timestamp, newIds: seq<Oid>)
    requires |newIds| == 3 && newIds[0] != newIds[1] && newIds[0] != newIds[2] && newIds[1] != newIds[2]
    requires AllStatusesValid(store)
    ensures AllStatusesValid(Seed(store, now, newIds))
  {
  }
}
