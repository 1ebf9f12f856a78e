/**
 The HTTP adapter around the Lambda handlers: the `ALLOWED_ORIGINS` split, the
 conversion of a Lambda response into an HTTP response, and the statistics
 route, which counts tasks per status over the whole collection and answers
 zeros when counting fails.
 */
module Api {
  import opened Values
  import opened Strings
  import opened Models
  import opened Db

  /** ALLOWED_ORIGINS when the environment does not set it */
  const DefaultAllowedOrigins: string := "*"

  /** The character that separates origins in ALLOWED_ORIGINS */
  const OriginSeparator: char := ','

  /**
   The CORS origin list: "*" (also the default) yields just "*"; any other
   value yields its comma-separated pieces, empty pieces included.
   */
  function OriginsList(allowedOrigins: Option<string>): (origins: seq<string>)
    ensures allowedOrigins.GetOr(DefaultAllowedOrigins) == "*" ==> origins == ["*"]
    ensures |origins| >= 1
    ensures SeparatorFree(origins, OriginSeparator)
    ensures Join(origins, OriginSeparator) == allowedOrigins.GetOr(DefaultAllowedOrigins)
  {
    var origins := allowedOrigins.GetOr(DefaultAllowedOrigins);
    if origins == "*" then ["*"] else Split(origins, OriginSeparator)
  }

  /** The wildcard branch is the split of "*": every value, "*" included, yields its comma-split pieces. */
  lemma OriginsListIsSplit(allowedOrigins: Option<string>)
    ensures OriginsList(allowedOrigins) == Split(allowedOrigins.GetOr(DefaultAllowedOrigins), OriginSeparator)
  {
    if allowedOrigins.GetOr(DefaultAllowedOrigins) == "*" {
      assert OriginSeparator !in "*";
    }
  }

  /** An origin list written as comma-separated origins is read back origin by origin. */
  lemma OriginsListReadsBack(origins: seq<string>)
    requires |origins| >= 1
    requires SeparatorFree(origins, OriginSeparator)
    ensures OriginsList(Some(Join(origins, OriginSeparator))) == origins
  {
    OriginsListIsSplit(Some(Join(origins, OriginSeparator)));
    SplitJoin(origins, OriginSeparator);
  }

  /** The media type set on JSON responses */
  const JsonMediaType: string := "application/json"

  /** A FastAPI `Response`: the content text, the status code and the media type, if any. */
  datatype HttpResponse = HttpResponse(content: string, statusCode: int, mediaType: Option<string>)

  /**
   `lambda_to_fastapi` on a Lambda response's "statusCode" and "body" entries
   (None where the key is missing): the status defaults to 200 and the body
   to the text "{}". Text that parses as JSON is re-serialised and marked
   JSON, text that does not is passed through verbatim with no media type,
   and any other body is serialised and marked JSON.
   */
  function LambdaToFastapi(json: Json, statusCode: Option<int>, body: Option<Value>): (r: HttpResponse)
    ensures r.statusCode == statusCode.GetOr(200)
    ensures var given := body.GetOr(Str("{}"));
      given.Str? && json.loads(given.s).Some? ==>
        r.content == json.dumps(json.loads(given.s).value) && r.mediaType == Some(JsonMediaType)
    ensures var given := body.GetOr(Str("{}"));
      given.Str? && json.loads(given.s).None? ==> r.content == given.s && r.mediaType == None
    ensures var given := body.GetOr(Str("{}"));
      !given.Str? ==> r.content == json.dumps(given) && r.mediaType == Some(JsonMediaType)
  {
    var status := statusCode.GetOr(200);
    var given := body.GetOr(Str("{}"));
    if given.Str? then
      match json.loads(given.s)
      case Some(parsed) => HttpResponse(json.dumps(parsed), status, Some(JsonMediaType))
      case None => HttpResponse(given.s, status, None)
    else
      HttpResponse(json.dumps(given), status, Some(JsonMediaType))
  }

  /** The keys of the statistics answer */
  const StatisticsKeys: set<string> := {"todo", "inProgress", "completed"}

  /** Three per-status counts */
  datatype Counts = Counts(todo: nat, inProgress: nat, completed: nat)

  /** The statistics answer: the counts under their keys, or all zeros when counting failed (None). */
  function StatisticsBody(counted: Option<Counts>): (stats: map<string, int>)
    ensures stats.Keys == StatisticsKeys
    ensures counted.None? ==> stats["todo"] == 0 && stats["inProgress"] == 0 && stats["completed"] == 0
    ensures counted.Some? ==>
      stats["todo"] == counted.value.todo && stats["inProgress"] == counted.value.inProgress
      && stats["completed"] == counted.value.completed
  {
    var c := counted.GetOr(Counts(0, 0, 0));
    map["todo" := c.todo, "inProgress" := c.inProgress, "completed" := c.completed]
  }

  /** The ids of the stored tasks with exactly the given status */
  function WithStatus(store: Store, status: string): set<Oid> {
    set id | id in store && store[id].status == status
  }

  /** `count_documents({"status": status})`: the stored tasks, all of them, with exactly that status. */
  function CountDocuments(store: Store, status: string): (n: nat)
    ensures n <= |store|
  {
    SubsetSize(WithStatus(store, status), store.Keys);
    |WithStatus(store, status)|
  }

  lemma {:induction false} SubsetSize<T>(small: set<T>, large: set<T>)
    requires small <= large
    ensures |small| <= |large|
    decreases |large|
  {
    if small != {} {
      var x :| x in small;
      SubsetSize(small - {x}, large - {x});
    }
  }

  /** The number of tasks of a listing with exactly the given status. */
  function CountStatus(tasks: seq<Task>, status: string): (n: nat)
    ensures n <= |tasks|
  {
    if tasks == [] then 0
    else (if tasks[0].status == status then 1 else 0) + CountStatus(tasks[1..], status)
  }

  function TasksOf(records: seq<Record>): seq<Task> {
    seq(|records|, i requires 0 <= i < |records| => records[i].task)
  }

  /** Dropping the first entry of a listing lists the collection without that entry's id. */
  lemma ListsTail(records: seq<Record>, store: Store)
    requires Lists(records, store) && records != []
    ensures Lists(records[1..], store - {records[0].id})
  {
    var rest := records[1..];
    var smaller := store - {records[0].id};
    forall id | id in smaller ensures exists i :: 0 <= i < |rest| && rest[i].id == id {
      var i :| 0 <= i < |records| && records[i].id == id;
      assert rest[i - 1].id == id;
    }
  }

  /** Removing one stored task removes its id from the ids with its status and from no other status. */
  lemma WithStatusRemove(store: Store, id: Oid, status: string)
    requires id in store
    ensures |WithStatus(store, status)| == |WithStatus(store - {id}, status)| + (if store[id].status == status then 1 else 0)
  {
    var smaller := WithStatus(store - {id}, status);
    if store[id].status == status {
      assert WithStatus(store, status) == smaller + {id};
    } else {
      assert WithStatus(store, status) == smaller;
    }
  }

  /** Counting over any complete listing of the collection agrees with `count_documents`. */
  lemma {:induction false} ListingCountsAgree(records: seq<Record>, store: Store, status: string)
    requires Lists(records, store)
    ensures CountStatus(TasksOf(records), status) == CountDocuments(store, status)
    decreases |records|
  {
    if records == [] {
      assert |store| == 0;
      assert WithStatus(store, status) == {};
    } else {
      var first := records[0].id;
      var rest := records[1..];
      var tasks := TasksOf(records);
      assert tasks[0] == records[0].task;
      assert tasks[1..] == TasksOf(rest);
      var one := if records[0].task.status == status then 1 else 0;
      assert CountStatus(tasks, status) == one + CountStatus(TasksOf(rest), status);
      ListsTail(records, store);
      ListingCountsAgree(rest, store - {first}, status);
      WithStatusRemove(store, first, status);
    }
  }

  /**
   Awaiting a count. Counts from an asynchronous driver are awaitables that
   deliver the number; the synchronous driver returns a plain int, and
   awaiting an int raises TypeError, so nothing is delivered.
   */
  function AwaitCount(count: nat, driverIsAsync: bool): (r: Option<nat>)
    ensures r.Some? <==> driverIsAsync
    ensures r.Some? ==> r.value == count
  {
    if driverIsAsync then Some(count) else None
  }

  /** The collection the route counts on is built by pymongo's synchronous MongoClient. */
  const DriverIsAsync: bool := false

  /** The three awaited counts of the route, or None as soon as one of them raises. */
  function AwaitedCounts(store: Store, driverIsAsync: bool): Option<Counts> {
    var todo := AwaitCount(CountDocuments(store, "todo"), driverIsAsync);
    if todo.None? then None
    else
      var inProgress := AwaitCount(CountDocuments(store, "in_progress"), driverIsAsync);
      if inProgress.None? then None
      else
        var completed := AwaitCount(CountDocuments(store, "completed"), driverIsAsync);
        if completed.None? then None
        else Some(Counts(todo.value, inProgress.value, completed.value))
  }

  /**
   `api_get_task_statistics` as written: it awaits the synchronous counts, so
   its `except` branch answers, with zeros whatever the collection holds.
   */
  function TaskStatisticsAsWritten(store: Store): (stats: map<string, int>)
    ensures stats == map["todo" := 0, "inProgress" := 0, "completed" := 0]
  {
    StatisticsBody(AwaitedCounts(store, DriverIsAsync))
  }

  /** One stored "todo" task: the route as written reports 0 where the count is 1. */
  lemma AsWrittenMissesTask(id: Oid, task: Task)
    requires task.status == "todo"
    ensures TaskStatisticsAsWritten(map[id := task])["todo"] == 0
    ensures CountDocuments(map[id := task], "todo") == 1
  {
    assert WithStatus(map[id := task], "todo") == {id};
  }

  /**
   The statistics route as evidently intended (the counts not awaited): the
   keys todo, inProgress and completed, each the number of tasks in the whole
   collection with that status. No owner and no credential is consulted.
   */
  function TaskStatistics(store: Store): (stats: map<string, int>)
    ensures stats.Keys == StatisticsKeys
    ensures stats["todo"] == CountDocuments(store, "todo")
    ensures stats["inProgress"] == CountDocuments(store, "in_progress")
    ensures stats["completed"] == CountDocuments(store, "completed")
  {
    StatisticsBody(Some(Counts(CountDocuments(store, "todo"), CountDocuments(store, "in_progress"), CountDocuments(store, "completed"))))
  }

  /** Awaiting from an asynchronous driver gives the intended answer. */
  lemma AsyncDriverGivesCounts(store: Store)
    ensures StatisticsBody(AwaitedCounts(store, true)) == TaskStatistics(store)
  {
  }

  /** When every stored status is enumerated, the three counts add up to the number of tasks. */
  lemma {:induction false} StatisticsSumToTotal(store: Store)
    requires AllStatusesValid(store)
    ensures var stats := TaskStatistics(store);
      stats["todo"] + stats["inProgress"] + stats["completed"] == |store|
  {
    var todo := WithStatus(store, "todo");
    var inProgress := WithStatus(store, "in_progress");
    var completed := WithStatus(store, "completed");
    assert todo !! inProgress && todo !! completed && inProgress !! completed;
    assert todo + inProgress + completed == store.Keys by {
      forall id | id in store ensures id in todo + inProgress + completed {
        assert store[id].status in TaskStatus;
      }
    }
    DisjointUnionSize(todo, inProgress);
    DisjointUnionSize(todo + inProgress, completed);
  }

  lemma DisjointUnionSize<T>(a: set<T>, b: set<T>)
    requires a !! b
    ensures |a + b| == |a| + |b|
  {
    assert a * b == {};
  }

  /** A freshly seeded collection reports one task of each status. */
  lemma SeededStatistics(now: Timestamp, newIds: seq<Oid>)
    requires |newIds| == 3 && newIds[0] != newIds[1] && newIds[0] != newIds[2] && newIds[1] != newIds[2]
    ensures TaskStatistics(Seed(map[], now, newIds)) == map["todo" := 1, "inProgress" := 1, "completed" := 1]
  {
    var seeded := Seed(map[], now, newIds);
    assert WithStatus(seeded, "todo") == {newIds[2]};
    assert WithStatus(seeded, "in_progress") == {newIds[1]};
    assert WithStatus(seeded, "completed") == {newIds[0]};
  }
}
