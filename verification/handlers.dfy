/**
 The Lambda handlers: the `require_auth` wrapper, the task handlers that map
 repository outcomes to status codes (401, 400, 422, 404, 200, 201), and the
 login handler that always succeeds. The create, update and delete handlers
 are functions from the task collection and the event to a `Reply`: the
 response and the collection afterwards. `get_tasks` is a method that also
 returns the listing it served, and `login`, which reads no task, returns a
 bare response.
 */
module Handlers {
  import opened Values
  import opened Models
  import opened Db
  import opened Auth
  import opened Utils

  /**
   A Lambda proxy event. Missing "headers" and "pathParameters" entries read
   as empty dicts; a missing "body" is None. `user` is what `require_auth`
   attaches.
   */
  datatype Event = Event(
    headers: map<string, string>,
    pathParameters: map<string, string>,
    body: Option<Value>,
    user: Option<User>)

  /**
   What a handler reads besides the event: the clock, the JSON module, the
   driver's id functions, the JWT library, the JWT_SECRET environment
   variable (None when unset), and the text pydantic or Python gives a
   payload error (`str(e)`). That text names the model that refused the
   payload, so `describe` receives the model's name along with the error.
   */
  datatype Env = Env(
    now: Timestamp,
    json: Json,
    ids: IdScheme,
    jwt: JwtCodec,
    jwtSecretVariable: Option<string>,
    describe: (string, PayloadError) -> string)

  /** A handler's response and the task collection after it */
  datatype Reply = Reply(response: Response, store: Store)

  const MissingHeaderMessage: string := "Unauthorized: Missing authorization header"
  const InvalidTokenMessage: string := "Unauthorized: Invalid token"
  const InvalidDataPrefix: string := "Invalid task data: "
  const TaskIdRequiredMessage: string := "Task ID is required"
  const DeletedMessage: string := "Task deleted successfully"

  /** The pydantic models that validate create and update payloads. */
  const CreateModel: string := "TaskCreate"
  const UpdateModel: string := "TaskUpdate"

  function NotFoundMessage(taskId: string): string {
    "Task with ID " + taskId + " not found"
  }

  /** A header value counts when it is present and non-empty. */
  predicate HasHeader(headers: map<string, string>, name: string) {
    name in headers && headers[name] != ""
  }

  /** `headers.get("Authorization") or headers.get("authorization")`, "" standing for a falsy result. */
  function AuthorizationHeader(headers: map<string, string>): (authorization: string)
    ensures authorization != "" <==> HasHeader(headers, "Authorization") || HasHeader(headers, "authorization")
    ensures HasHeader(headers, "Authorization") ==> authorization == headers["Authorization"]
    ensures !HasHeader(headers, "Authorization") && HasHeader(headers, "authorization") ==> authorization == headers["authorization"]
  {
    if HasHeader(headers, "Authorization") then headers["Authorization"]
    else if "authorization" in headers then headers["authorization"]
    else ""
  }

  /** The event carries a usable authorization header. */
  predicate Authorised(event: Event) {
    HasHeader(event.headers, "Authorization") || HasHeader(event.headers, "authorization")
  }

  /**
   `require_auth` with the user lookup as a parameter: 401 when no
   authorization header is usable, 401 when the lookup yields no user, and
   otherwise the event with the user attached, for the wrapped handler to run on.
   */
  function RequireAuthWith(event: Event, json: Json, currentUser: string -> Option<User>): (r: Result<Event, Response>)
    ensures !Authorised(event) ==> r == Failure(ErrorResponse(json, MissingHeaderMessage, 401))
    ensures Authorised(event) && currentUser(AuthorizationHeader(event.headers)).None? ==>
      r == Failure(ErrorResponse(json, InvalidTokenMessage, 401))
    ensures Authorised(event) && currentUser(AuthorizationHeader(event.headers)).Some? ==>
      r == Success(event.(user := currentUser(AuthorizationHeader(event.headers))))
  {
    var authorization := AuthorizationHeader(event.headers);
    if authorization == "" then Failure(ErrorResponse(json, MissingHeaderMessage, 401))
    else
      match currentUser(authorization)
      case None => Failure(ErrorResponse(json, InvalidTokenMessage, 401))
      case Some(user) => Success(event.(user := Some(user)))
  }

  /** `require_auth` as deployed: with the bypass lookup, any usable header lets the request through. */
  function RequireAuth(event: Event, json: Json): (r: Result<Event, Response>)
    ensures r.Failure? <==> !Authorised(event)
    ensures r.Failure? ==> r.error.statusCode == 401
    ensures r.Success? ==> r.value == event.(user := Some(DefaultUser))
  {
    RequireAuthWith(event, json, GetCurrentUser)
  }

  /** A stored task as the document the driver returns, `_id` included. */
  function TaskDocument(r: Record): Value {
    Dict(map[
      "_id" := ObjectId(r.id),
      "title" := Str(r.task.title),
      "description" := Str(r.task.description),
      "status" := Str(r.task.status),
      "created_at" := DateTime(r.task.createdAt),
      "updated_at" := if r.task.updatedAt.Some? then DateTime(r.task.updatedAt.value) else Null])
  }

  /** The request's create payload, as `TaskCreate(**parse_event_body(event))` sees it. */
  function CreatePayload(event: Event, env: Env): Result<TaskCreate, PayloadError> {
    ParseTaskCreate(ParseEventBody(env.json, event.body))
  }

  /** The request's update payload, as `TaskUpdate(**parse_event_body(event))` sees it. */
  function UpdatePayload(event: Event, env: Env): Result<TaskUpdate, PayloadError> {
    ParseTaskUpdate(ParseEventBody(env.json, event.body))
  }

  /** The path's task id; None when it is missing or empty. */
  function TaskId(event: Event): Option<string> {
    if "id" in event.pathParameters && event.pathParameters["id"] != "" then Some(event.pathParameters["id"]) else None
  }

  /**
   `create_task`: 401 before anything else without authorization; 422 when
   the body is not a valid create payload; otherwise the task is created and
   answered with 201. Only the last case touches the collection.
   */
  function CreateTask(store: Store, event: Event, env: Env, newId: Oid): (r: Reply)
    requires newId !in store
    ensures !Authorised(event) ==> r == Reply(ErrorResponse(env.json, MissingHeaderMessage, 401), store)
    ensures Authorised(event) && CreatePayload(event, env).Failure? ==>
      r == Reply(ErrorResponse(env.json, InvalidDataPrefix + env.describe(CreateModel, CreatePayload(event, env).error), 422), store)
    ensures Authorised(event) && CreatePayload(event, env).Success? ==>
      var created := Create(store, CreatePayload(event, env).value, env.now, newId);
      && r.store == created.store
      && r.response.statusCode == 201
      && r.response.headers == DefaultHeaders
      && r.response.body == Str(env.json.dumps(TaskDocument(created.record)))
    ensures r.response.statusCode in {401, 422, 201}
  {
    match RequireAuth(event, env.json)
    case Failure(unauthorised) => Reply(unauthorised, store)
    case Success(authed) =>
      match CreatePayload(authed, env)
      case Failure(e) => Reply(ErrorResponse(env.json, InvalidDataPrefix + env.describe(CreateModel, e), 422), store)
      case Success(data) =>
        var created := Create(store, data, env.now, newId);
        Reply(SuccessResponse(env.json, TaskDocument(created.record), 201), created.store)
  }

  /** A body with a title and a status but no description is refused with 422 and stores nothing. */
  lemma CreateWithoutDescriptionRefused(store: Store, event: Event, env: Env, newId: Oid, text: string)
    requires newId !in store && Authorised(event)
    requires event.body == Some(Str(text))
    requires env.json.loads(text) == Some(Dict(map["title" := Str("Nueva tarea"), "status" := Str("todo")]))
    ensures CreateTask(store, event, env, newId).response.statusCode == 422
    ensures CreateTask(store, event, env, newId).store == store
  {
    assert Missing("description") in CreatePayload(event, env).error.errors;
  }

  /** The fields `update_task` hands to the repository: the payload's non-None fields and no others. */
  function UpdateFields(u: TaskUpdate): (fields: map<string, string>)
    ensures fields.Keys <= PatchableFields
    ensures "title" in fields <==> u.title.Some?
    ensures "description" in fields <==> u.description.Some?
    ensures "status" in fields <==> u.status.Some?
    ensures u.title.Some? ==> fields["title"] == u.title.value
    ensures u.description.Some? ==> fields["description"] == u.description.value
    ensures u.status.Some? ==> fields["status"] == u.status.value
  {
    var withTitle := if u.title.Some? then map["title" := u.title.value] else map[];
    var withDescription := if u.description.Some? then withTitle["description" := u.description.value] else withTitle;
    if u.status.Some? then withDescription["status" := u.status.value] else withDescription
  }

  /** A body of just `{"status": "in_progress"}` reaches the repository as exactly that. */
  lemma StatusOnlyUpdate(json: Json, text: string)
    requires json.loads(text) == Some(Dict(map["status" := Str("in_progress")]))
    ensures ParseTaskUpdate(ParseEventBody(json, Some(Str(text)))).Success?
    ensures UpdateFields(ParseTaskUpdate(ParseEventBody(json, Some(Str(text)))).value) == map["status" := "in_progress"]
  {
    var u := ParseTaskUpdate(ParseEventBody(json, Some(Str(text)))).value;
    assert u == TaskUpdate(None, None, Some("in_progress"));
  }

  /**
   `update_task`: 401 without authorization, 400 without a task id, 422 on
   an invalid body (none of these touches the collection); otherwise the
   repository update with the supplied fields, answered with 404 when it
   yields nothing and with 200 and the updated task otherwise.
   */
  function UpdateTask(store: Store, event: Event, env: Env): (r: Reply)
    ensures !Authorised(event) ==> r == Reply(ErrorResponse(env.json, MissingHeaderMessage, 401), store)
    ensures Authorised(event) && TaskId(event).None? ==>
      r == Reply(ErrorResponse(env.json, TaskIdRequiredMessage, 400), store)
    ensures Authorised(event) && TaskId(event).Some? && UpdatePayload(event, env).Failure? ==>
      r == Reply(ErrorResponse(env.json, InvalidDataPrefix + env.describe(UpdateModel, UpdatePayload(event, env).error), 422), store)
    ensures Authorised(event) && TaskId(event).Some? && UpdatePayload(event, env).Success? ==>
      var taskId := TaskId(event).value;
      var updated := Update(store, taskId, UpdateFields(UpdatePayload(event, env).value), env.now, env.ids);
      && r.store == updated.store
      && (updated.record.None? ==> r.response == ErrorResponse(env.json, NotFoundMessage(taskId), 404))
      && (updated.record.Some? ==>
            && r.response.statusCode == 200
            && r.response.headers == DefaultHeaders
            && r.response.body == Str(env.json.dumps(TaskDocument(updated.record.value))))
    ensures r.response.statusCode in {401, 400, 422, 404, 200}
  {
    match RequireAuth(event, env.json)
    case Failure(unauthorised) => Reply(unauthorised, store)
    case Success(authed) =>
      match TaskId(authed)
      case None => Reply(ErrorResponse(env.json, TaskIdRequiredMessage, 400), store)
      case Some(taskId) =>
        match UpdatePayload(authed, env)
        case Failure(e) => Reply(ErrorResponse(env.json, InvalidDataPrefix + env.describe(UpdateModel, e), 422), store)
        case Success(u) =>
          var updated := Update(store, taskId, UpdateFields(u), env.now, env.ids);
          match updated.record
          case None => Reply(ErrorResponse(env.json, NotFoundMessage(taskId), 404), updated.store)
          case Some(record) => Reply(SuccessResponse(env.json, TaskDocument(record)), updated.store)
  }

  /**
   `delete_task`: 401 without authorization, 400 without a task id, 404 when
   nothing was removed, and 200 with "Task deleted successfully" when the
   task was removed.
   */
  function DeleteTask(store: Store, event: Event, env: Env): (r: Reply)
    ensures !Authorised(event) ==> r == Reply(ErrorResponse(env.json, MissingHeaderMessage, 401), store)
    ensures Authorised(event) && TaskId(event).None? ==>
      r == Reply(ErrorResponse(env.json, TaskIdRequiredMessage, 400), store)
    ensures Authorised(event) && TaskId(event).Some? ==>
      var taskId := TaskId(event).value;
      var deleted := Delete(store, taskId, env.ids);
      && r.store == deleted.store
      && (!deleted.removed ==> r.response == ErrorResponse(env.json, NotFoundMessage(taskId), 404))
      && (deleted.removed ==>
            && r.response.statusCode == 200
            && r.response.headers == DefaultHeaders
            && r.response.body == Str(env.json.dumps(Dict(map["message" := Str(DeletedMessage)]))))
    ensures r.response.statusCode in {401, 400, 404, 200}
  {
    match RequireAuth(event, env.json)
    case Failure(unauthorised) => Reply(unauthorised, store)
    case Success(authed) =>
      match TaskId(authed)
      case None => Reply(ErrorResponse(env.json, TaskIdRequiredMessage, 400), store)
      case Some(taskId) =>
        var deleted := Delete(store, taskId, env.ids);
        if deleted.removed then
          Reply(SuccessResponse(env.json, Dict(map["message" := Str(DeletedMessage)])), deleted.store)
        else
          Reply(ErrorResponse(env.json, NotFoundMessage(taskId), 404), deleted.store)
  }

  /** Deleting the same task twice: the second request is a 404 and changes nothing. */
  lemma DeleteTaskTwice(store: Store, event: Event, env: Env)
    requires Authorised(event) && TaskId(event).Some?
    ensures var once := DeleteTask(store, event, env);
      var twice := DeleteTask(once.store, event, env);
      twice.response.statusCode == 404 && twice.store == once.store
  {
    DeleteTwice(store, TaskId(event).value, env.ids);
  }

  /**
   `get_tasks`: 401 without authorization; otherwise 200 with every stored
   task, serialised as a list. The listing it serialised is returned too.
   */
  method GetTasks(store: Store, event: Event, env: Env) returns (r: Response, listed: seq<Record>)
    ensures !Authorised(event) ==> r == ErrorResponse(env.json, MissingHeaderMessage, 401)
    ensures Authorised(event) ==>
      && Lists(listed, store)
      && r.statusCode == 200
      && r.headers == DefaultHeaders
      && r.body == Str(env.json.dumps(List(seq(|listed|, i requires 0 <= i < |listed| => TaskDocument(listed[i])))))
  {
    listed := [];
    match RequireAuth(event, env.json)
    case Failure(unauthorised) =>
      r := unauthorised;
    case Success(_) =>
      listed := GetAll(store);
      r := SuccessResponse(env.json, List(seq(|listed|, i requires 0 <= i < |listed| => TaskDocument(listed[i]))));
  }

  /**
   The email the `try` branch of `login` uses, "user" when the body has none;
   None where that branch raises: a body that is not a dict, or an email
   that is not text.
   */
  function LoginEmail(body: Value): (r: Option<string>)
    ensures r.Some? <==> body.Dict? && ("email" in body.fields ==> body.fields["email"].Str?)
    ensures r.Some? ==> r.value == if "email" in body.fields then body.fields["email"].s else "user"
  {
    if body.Dict? then
      match Get(body.fields, "email", Str("user"))
      case Str(email) => Some(email)
      case _ => None
    else None
  }

  /** The token `login` issues for a user: with a sound JWT library it verifies at once to the user's email as subject. */
  function LoginToken(env: Env, user: User): (token: string)
    ensures Sound(env.jwt) ==>
      VerifyToken(token, JwtSecret(env.jwtSecretVariable), env.now, env.jwt)
        == Some(map["sub" := Str(user.email), "exp" := Num(Seconds(env.now) + TokenLifetimeSeconds)])
  {
    var claims := map["sub" := Str(user.email)];
    assert Signable(claims);
    assert claims["exp" := Num(Seconds(env.now) + TokenLifetimeSeconds)]
      == map["sub" := Str(user.email), "exp" := Num(Seconds(env.now) + TokenLifetimeSeconds)];
    CreateAccessToken(claims, JwtSecret(env.jwtSecretVariable), env.now, env.jwt)
  }

  /** The 200 response `login` builds for a user: the default headers and a JSON body holding the token and the user. */
  function LoginResponse(env: Env, user: User): (r: Response)
    ensures r.statusCode == 200 && r.headers == DefaultHeaders
    ensures r.body == Str(env.json.dumps(Dict(map["token" := Str(LoginToken(env, user)), "user" := UserValue(user)])))
  {
    SuccessResponse(env.json, Dict(map["token" := Str(LoginToken(env, user)), "user" := UserValue(user)]))
  }

  /**
   `login`: always 200, with the bypass identity of the body's email, and
   the identity of "user" (that is, user@backend) when the email is missing
   or the body cannot be read. The password is never consulted.
   */
  function Login(event: Event, env: Env): (r: Response)
    ensures r.statusCode == 200
    ensures r == LoginResponse(env, BypassUser(LoginEmail(ParseEventBody(env.json, event.body)).GetOr("user")))
  {
    var body := ParseEventBody(env.json, event.body);
    match LoginEmail(body)
    case Some(email) => LoginResponse(env, BypassUser(email))
    case None =>
      DefaultUserIsBypassOfUser();
      LoginResponse(env, DefaultUser)
  }

  /** A login without an email is the login of "user@backend". */
  lemma LoginWithoutEmail(env: Env, fields: map<string, Value>)
    requires "email" !in fields
    ensures Login(Event(map[], map[], Some(Dict(fields)), None), env) == LoginResponse(env, DefaultUser)
  {
    if fields != map[] {
      assert Truthy(Dict(fields));
    }
    DefaultUserIsBypassOfUser();
  }
}
