/**
 The task payload models: the closed status enumeration, the create payload
 (title and description required, status defaulting to "todo") and the update
 payload (every field optional), each checked the way the pydantic models do
 when a request body is unpacked into them.
 */
module Models {
  import opened Values

  datatype Status = Todo | InProgress | Completed

  /** TASK_STATUS, in declaration order */
  const TaskStatus: seq<string> := ["todo", "in_progress", "completed"]

  /** The status a create payload gets when it names none */
  const DefaultStatus: string := "todo"

  function StatusName(s: Status): string {
    match s
    case Todo => "todo"
    case InProgress => "in_progress"
    case Completed => "completed"
  }

  /** The enumeration value a status string names, if any. */
  function ParseStatus(v: string): (r: Option<Status>)
    ensures r.Some? <==> v in TaskStatus
    ensures r.Some? ==> StatusName(r.value) == v
  {
    if v == "todo" then Some(Todo)
    else if v == "in_progress" then Some(InProgress)
    else if v == "completed" then Some(Completed)
    else None
  }

  /** TASK_STATUS lists exactly the three enumeration names, each once. */
  lemma TaskStatusIsTheEnumeration()
    ensures |TaskStatus| == 3
    ensures forall i, j :: 0 <= i < j < |TaskStatus| ==> TaskStatus[i] != TaskStatus[j]
    ensures forall s: Status :: StatusName(s) in TaskStatus
    ensures forall i :: 0 <= i < |TaskStatus| ==> ParseStatus(TaskStatus[i]).Some?
  {
  }

  /** Naming a status and parsing the name back is the identity. */
  lemma StatusNameRoundTrip(s: Status)
    ensures ParseStatus(StatusName(s)) == Some(s)
  {
  }

  /** One entry of a validation failure. */
  datatype FieldError =
    | Missing(field: string)                   // a required field is absent
    | NotAString(field: string, found: Value)  // the field holds null, a number, a list, ...
    | InvalidStatus(given: string)             // "Status must be one of [...]"

  /** Why a body could not be unpacked into a payload model. */
  datatype PayloadError =
    | NotADict(body: Value)                 // `Model(**body)` on a body that is not a dict raises TypeError
    | FieldErrors(errors: seq<FieldError>)  // pydantic's ValidationError, one entry per failing field, in declaration order

  /** TaskCreate: title and description are required strings; status has a default. */
  datatype TaskCreate = TaskCreate(title: string, description: string, status: string)

  /** TaskUpdate: every field optional, absent meaning None. */
  datatype TaskUpdate = TaskUpdate(title: Option<string>, description: Option<string>, status: Option<string>)

  /** A stored task document (its `_id` is the key it is stored under). */
  datatype Task = Task(
    title: string,
    description: string,
    status: string,
    createdAt: Timestamp,
    updatedAt: Option<Timestamp>)

  /** `status_must_be_valid` of TaskBase: an enumerated status is returned unchanged, anything else is refused. */
  function StatusMustBeValid(v: string): (r: Result<string, FieldError>)
    ensures r.Success? <==> ParseStatus(v).Some?
    ensures r.Success? ==> r.value == v
    ensures r.Failure? ==> r.error == InvalidStatus(v)
  {
    if v in TaskStatus then Success(v) else Failure(InvalidStatus(v))
  }

  /** `status_must_be_valid` of TaskUpdate: None passes, a present status must be enumerated. */
  function OptionalStatusMustBeValid(v: Option<string>): (r: Result<Option<string>, FieldError>)
    ensures r.Success? <==> v.None? || ParseStatus(v.value).Some?
    ensures r.Success? ==> r.value == v
  {
    match v
    case None => Success(None)
    case Some(s) => if s in TaskStatus then Success(v) else Failure(InvalidStatus(s))
  }

  /** True when `fields[name]` is present and holds a string. */
  predicate HasString(fields: map<string, Value>, name: string) {
    name in fields && fields[name].Str?
  }

  /** A required `str` field. */
  function RequiredString(fields: map<string, Value>, name: string): (r: Result<string, FieldError>)
    ensures r.Success? <==> HasString(fields, name)
    ensures r.Success? ==> r.value == fields[name].s
    ensures r.Failure? && name !in fields ==> r.error == Missing(name)
    ensures r.Failure? && name in fields ==> r.error == NotAString(name, fields[name])
    ensures r.Failure? && r.error.NotAString? ==> name in fields && fields[name] == r.error.found && !r.error.found.Str?
  {
    if name !in fields then Failure(Missing(name))
    else match fields[name]
      case Str(s) => Success(s)
      case other => Failure(NotAString(name, other))
  }

  /** An `Optional[str] = None` field: absent and null both read as None. */
  function OptionalString(fields: map<string, Value>, name: string): (r: Result<Option<string>, FieldError>)
    ensures r.Success? <==> name !in fields || fields[name].Null? || fields[name].Str?
    ensures r.Success? ==> r.value == if name in fields && fields[name].Str? then Some(fields[name].s) else None
    ensures r.Failure? ==> name in fields && r.error == NotAString(name, fields[name])
  {
    if name !in fields then Success(None)
    else match fields[name]
      case Null => Success(None)
      case Str(s) => Success(Some(s))
      case other => Failure(NotAString(name, other))
  }

  /** The status field of TaskCreate: the default when absent (the validator is not run on it), else validated. */
  function CreateStatus(fields: map<string, Value>): (r: Result<string, FieldError>)
    ensures r.Success? <==> "status" !in fields || (fields["status"].Str? && fields["status"].s in TaskStatus)
    ensures r.Success? ==> r.value == if "status" in fields then fields["status"].s else DefaultStatus
    ensures r.Failure? ==>
      && "status" in fields
      && r.error == if fields["status"].Str? then InvalidStatus(fields["status"].s) else NotAString("status", fields["status"])
    ensures r.Failure? && r.error.NotAString? ==> fields["status"] == r.error.found && !r.error.found.Str?
  {
    if "status" !in fields then Success(DefaultStatus)
    else match fields["status"]
      case Str(s) => StatusMustBeValid(s)
      case other => Failure(NotAString("status", other))
  }

  /** Where a field stands in the models' declaration order: title, description, status. */
  function FieldPosition(name: string): nat {
    if name == "title" then 0 else if name == "description" then 1 else 2
  }

  /** The declaration position of the field an error is about. */
  function FieldRank(e: FieldError): nat {
    match e
    case Missing(f) => FieldPosition(f)
    case NotAString(f, _) => FieldPosition(f)
    case InvalidStatus(_) => FieldPosition("status")
  }

  /** Each error is about a field declared later than the one before it, so no field is reported twice. */
  predicate InDeclarationOrder(errors: seq<FieldError>) {
    forall i, j :: 0 <= i < j < |errors| ==> FieldRank(errors[i]) < FieldRank(errors[j])
  }

  function ErrorsOf<T>(r: Result<T, FieldError>): seq<FieldError> {
    if r.Failure? then [r.error] else []
  }

  /** The errors of the three field validations, title first and status last, as pydantic gathers them. */
  function Collected<A, B, C>(title: Result<A, FieldError>, description: Result<B, FieldError>, status: Result<C, FieldError>)
    : (errors: seq<FieldError>)
    requires title.Failure? ==> FieldRank(title.error) == 0
    requires description.Failure? ==> FieldRank(description.error) == 1
    requires status.Failure? ==> FieldRank(status.error) == 2
    ensures errors == [] <==> title.Success? && description.Success? && status.Success?
    ensures forall e :: e in errors <==>
      (title.Failure? && e == title.error) || (description.Failure? && e == description.error) || (status.Failure? && e == status.error)
    ensures InDeclarationOrder(errors)
  {
    ErrorsOf(title) + ErrorsOf(description) + ErrorsOf(status)
  }

  /** The errors `TaskCreate` reports for a dict body, one entry per failing field in declaration order. */
  function CreateErrors(fields: map<string, Value>): seq<FieldError> {
    Collected(RequiredString(fields, "title"), RequiredString(fields, "description"), CreateStatus(fields))
  }

  /**
   `TaskCreate` reports every failing field: the list is empty exactly for a
   valid body, a missing title or description is listed exactly when it is
   absent, and so is every present field that is not text and every status
   text outside the enumeration.
   */
  lemma CreateErrorsComplete(fields: map<string, Value>)
    ensures CreateErrors(fields) == [] <==>
      && HasString(fields, "title")
      && HasString(fields, "description")
      && ("status" in fields ==> fields["status"].Str? && fields["status"].s in TaskStatus)
    ensures Missing("title") in CreateErrors(fields) <==> "title" !in fields
    ensures Missing("description") in CreateErrors(fields) <==> "description" !in fields
    ensures forall name :: name in PatchableFields && name in fields && !fields[name].Str? ==>
      NotAString(name, fields[name]) in CreateErrors(fields)
    ensures "status" in fields && fields["status"].Str? && fields["status"].s !in TaskStatus ==>
      InvalidStatus(fields["status"].s) in CreateErrors(fields)
  {
  }

  /**
   Every error `TaskCreate` reports is justified by the body: a missing
   required field, a present field that is not text (carrying its value), or
   a status text outside the enumeration; and the fields come in
   declaration order, each at most once.
   */
  lemma CreateErrorsSound(fields: map<string, Value>)
    ensures forall e :: e in CreateErrors(fields) && e.Missing? ==>
      (e.field == "title" || e.field == "description") && e.field !in fields
    ensures forall e :: e in CreateErrors(fields) && e.NotAString? ==>
      e.field in PatchableFields && e.field in fields && fields[e.field] == e.found && !e.found.Str?
    ensures forall e :: e in CreateErrors(fields) && e.InvalidStatus? ==>
      "status" in fields && fields["status"] == Str(e.given) && e.given !in TaskStatus
    ensures InDeclarationOrder(CreateErrors(fields))
  {
    var title := RequiredString(fields, "title");
    var description := RequiredString(fields, "description");
    var status := CreateStatus(fields);
    forall e | e in CreateErrors(fields)
      ensures e.Missing? ==> (e.field == "title" || e.field == "description") && e.field !in fields
      ensures e.NotAString? ==> e.field in PatchableFields && e.field in fields && fields[e.field] == e.found && !e.found.Str?
      ensures e.InvalidStatus? ==> "status" in fields && fields["status"] == Str(e.given) && e.given !in TaskStatus
    {
      if title.Failure? && e == title.error {
      } else if description.Failure? && e == description.error {
      } else {
        assert status.Failure? && e == status.error;
      }
    }
  }

  /**
   `TaskCreate(**body)`. A body is accepted exactly when it is a dict whose
   title and description are strings and whose status, if present, is an
   enumerated string; no other check is made on the content. The accepted
   payload carries the given strings, and "todo" when no status was given.
   */
  function ParseTaskCreate(body: Value): (r: Result<TaskCreate, PayloadError>)
    ensures r.Success? <==>
      && body.Dict?
      && HasString(body.fields, "title")
      && HasString(body.fields, "description")
      && ("status" in body.fields ==> body.fields["status"].Str? && body.fields["status"].s in TaskStatus)
    ensures r.Success? ==>
      && r.value.title == body.fields["title"].s
      && r.value.description == body.fields["description"].s
      && r.value.status == (if "status" in body.fields then body.fields["status"].s else DefaultStatus)
    ensures r.Success? ==> r.value.status in TaskStatus
    ensures r.Failure? && body.Dict? ==> r.error.FieldErrors? && r.error.errors != []
    ensures r.Failure? && body.Dict? ==> (Missing("title") in r.error.errors <==> "title" !in body.fields)
    ensures r.Failure? && body.Dict? ==> (Missing("description") in r.error.errors <==> "description" !in body.fields)
    ensures r.Failure? && body.Dict? ==> forall e :: e in r.error.errors && e.Missing? ==>
      (e.field == "title" || e.field == "description") && e.field !in body.fields
    ensures r.Failure? && body.Dict? ==> forall name :: name in PatchableFields && name in body.fields && !body.fields[name].Str? ==>
      NotAString(name, body.fields[name]) in r.error.errors
    ensures r.Failure? && body.Dict? ==> forall e :: e in r.error.errors && e.NotAString? ==>
      e.field in PatchableFields && e.field in body.fields && body.fields[e.field] == e.found && !e.found.Str?
    ensures r.Failure? && body.Dict? && "status" in body.fields && body.fields["status"].Str? && body.fields["status"].s !in TaskStatus ==>
      InvalidStatus(body.fields["status"].s) in r.error.errors
    ensures r.Failure? && body.Dict? ==> forall e :: e in r.error.errors && e.InvalidStatus? ==>
      "status" in body.fields && body.fields["status"] == Str(e.given) && e.given !in TaskStatus
    ensures r.Failure? && body.Dict? ==> InDeclarationOrder(r.error.errors)
    ensures !body.Dict? ==> r == Failure(NotADict(body))
  {
    match body
    case Dict(fields) =>
      CreateErrorsComplete(fields);
      CreateErrorsSound(fields);
      var title := RequiredString(fields, "title");
      var description := RequiredString(fields, "description");
      var status := CreateStatus(fields);
      if title.Success? && description.Success? && status.Success? then
        Success(TaskCreate(title.value, description.value, status.value))
      else
        Failure(FieldErrors(CreateErrors(fields)))
    case other => Failure(NotADict(other))
  }

  /** The errors `TaskUpdate` reports for a dict body, one entry per failing field in declaration order. */
  function UpdateErrors(fields: map<string, Value>): seq<FieldError> {
    var status := OptionalString(fields, "status");
    Collected(OptionalString(fields, "title"), OptionalString(fields, "description"),
              if status.Success? then OptionalStatusMustBeValid(status.value) else status)
  }

  /**
   `TaskUpdate` reports every failing field: the list is empty exactly for a
   valid body, and it lists every present field that is neither null nor
   text and every status text outside the enumeration.
   */
  lemma UpdateErrorsComplete(fields: map<string, Value>)
    ensures UpdateErrors(fields) == [] <==>
      && (forall name :: name in PatchableFields && name in fields ==> fields[name].Null? || fields[name].Str?)
      && ("status" in fields && fields["status"].Str? ==> fields["status"].s in TaskStatus)
    ensures forall name :: name in PatchableFields && name in fields && !fields[name].Str? && !fields[name].Null? ==>
      NotAString(name, fields[name]) in UpdateErrors(fields)
    ensures "status" in fields && fields["status"].Str? && fields["status"].s !in TaskStatus ==>
      InvalidStatus(fields["status"].s) in UpdateErrors(fields)
  {
  }

  /**
   Every error `TaskUpdate` reports is justified by the body: no field is
   ever missing, a listed field is present and neither null nor text
   (carrying its value), or the status text is outside the enumeration; and
   the fields come in declaration order, each at most once.
   */
  lemma UpdateErrorsSound(fields: map<string, Value>)
    ensures forall e :: e in UpdateErrors(fields) ==> !e.Missing?
    ensures forall e :: e in UpdateErrors(fields) && e.NotAString? ==>
      e.field in PatchableFields && e.field in fields && fields[e.field] == e.found && !e.found.Str? && !e.found.Null?
    ensures forall e :: e in UpdateErrors(fields) && e.InvalidStatus? ==>
      "status" in fields && fields["status"] == Str(e.given) && e.given !in TaskStatus
    ensures InDeclarationOrder(UpdateErrors(fields))
  {
    var title := OptionalString(fields, "title");
    var description := OptionalString(fields, "description");
    var status := OptionalString(fields, "status");
    var checked := if status.Success? then OptionalStatusMustBeValid(status.value) else status;
    forall e | e in UpdateErrors(fields)
      ensures !e.Missing?
      ensures e.NotAString? ==>
        e.field in PatchableFields && e.field in fields && fields[e.field] == e.found && !e.found.Str? && !e.found.Null?
      ensures e.InvalidStatus? ==> "status" in fields && fields["status"] == Str(e.given) && e.given !in TaskStatus
    {
      if title.Failure? && e == title.error {
      } else if description.Failure? && e == description.error {
      } else {
        assert checked.Failure? && e == checked.error;
      }
    }
  }

  /**
   `TaskUpdate(**body)`. A dict body is accepted exactly when each of the
   three fields is absent, null or a string and a present status is
   enumerated; the payload holds the given strings and None elsewhere.
   */
  function ParseTaskUpdate(body: Value): (r: Result<TaskUpdate, PayloadError>)
    ensures r.Success? <==>
      && body.Dict?
      && (forall name :: name in PatchableFields && name in body.fields ==> body.fields[name].Null? || body.fields[name].Str?)
      && ("status" in body.fields && body.fields["status"].Str? ==> body.fields["status"].s in TaskStatus)
    ensures r.Success? ==>
      && r.value.title == SuppliedString(body.fields, "title")
      && r.value.description == SuppliedString(body.fields, "description")
      && r.value.status == SuppliedString(body.fields, "status")
    ensures r.Failure? && body.Dict? ==> r.error.FieldErrors? && r.error.errors != []
    ensures r.Failure? && body.Dict? ==> forall e :: e in r.error.errors ==> !e.Missing?
    ensures r.Failure? && body.Dict? ==>
      forall name :: name in PatchableFields && name in body.fields && !body.fields[name].Str? && !body.fields[name].Null? ==>
        NotAString(name, body.fields[name]) in r.error.errors
    ensures r.Failure? && body.Dict? ==> forall e :: e in r.error.errors && e.NotAString? ==>
      e.field in PatchableFields && e.field in body.fields && body.fields[e.field] == e.found
      && !e.found.Str? && !e.found.Null?
    ensures r.Failure? && body.Dict? && "status" in body.fields && body.fields["status"].Str? && body.fields["status"].s !in TaskStatus ==>
      InvalidStatus(body.fields["status"].s) in r.error.errors
    ensures r.Failure? && body.Dict? ==> forall e :: e in r.error.errors && e.InvalidStatus? ==>
      "status" in body.fields && body.fields["status"] == Str(e.given) && e.given !in TaskStatus
    ensures r.Failure? && body.Dict? ==> InDeclarationOrder(r.error.errors)
    ensures !body.Dict? ==> r == Failure(NotADict(body))
  {
    match body
    case Dict(fields) =>
      UpdateErrorsComplete(fields);
      UpdateErrorsSound(fields);
      var title := OptionalString(fields, "title");
      var description := OptionalString(fields, "description");
      var status := OptionalString(fields, "status");
      var checked := if status.Success? then OptionalStatusMustBeValid(status.value) else status;
      if title.Success? && description.Success? && checked.Success? then
        Success(TaskUpdate(title.value, description.value, checked.value))
      else
        Failure(FieldErrors(UpdateErrors(fields)))
    case other => Failure(NotADict(other))
  }

  /** The fields a task update may set */
  const PatchableFields: set<string> := {"title", "description", "status"}

  /** The string a body supplies for a field, None when the field is absent or null. */
  function SuppliedString(fields: map<string, Value>, name: string): Option<string> {
    if name in fields && fields[name].Str? then Some(fields[name].s) else None
  }

  /** The stored value of one of the patchable fields of a task. */
  function Field(t: Task, name: string): string
    requires name in PatchableFields
  {
    if name == "title" then t.title
    else if name == "description" then t.description
    else t.status
  }

  /** A request body that carries a create payload, every field written out. */
  function CreateBody(t: TaskCreate): Value {
    Dict(map["title" := Str(t.title), "description" := Str(t.description), "status" := Str(t.status)])
  }

  /** Writing a create payload with an enumerated status into a body and parsing it gives the payload back. */
  lemma CreateBodyRoundTrip(t: TaskCreate)
    requires t.status in TaskStatus
    ensures ParseTaskCreate(CreateBody(t)) == Success(t)
  {
  }

  /** A request body that carries an update payload: the supplied fields and no others. */
  function UpdateBody(u: TaskUpdate): Value {
    var withTitle := if u.title.Some? then map["title" := Str(u.title.value)] else map[];
    var withDescription := if u.description.Some? then withTitle["description" := Str(u.description.value)] else withTitle;
    Dict(if u.status.Some? then withDescription["status" := Str(u.status.value)] else withDescription)
  }

  /** Writing an update payload with a valid status into a body and parsing it gives the payload back. */
  lemma UpdateBodyRoundTrip(u: TaskUpdate)
    requires u.status.Some? ==> u.status.value in TaskStatus
    ensures ParseTaskUpdate(UpdateBody(u)) == Success(u)
  {
  }

  /** A create payload without a status gets status "todo". */
  lemma CreateDefaultsToTodo(title: string, description: string)
    ensures ParseTaskCreate(Dict(map["title" := Str(title), "description" := Str(description)]))
      == Success(TaskCreate(title, description, "todo"))
  {
  }

  /** A create payload needs a title: a body without one is refused, whatever else it holds. */
  lemma CreateNeedsTitle(fields: map<string, Value>)
    requires "title" !in fields
    ensures ParseTaskCreate(Dict(fields)).Failure?
    ensures Missing("title") in ParseTaskCreate(Dict(fields)).error.errors
  {
  }

  /** A null title and a list title are refused with different errors, each naming what was found. */
  lemma RefusalsKeepTheValue(description: string)
    ensures var body := map["description" := Str(description)];
      && ParseTaskCreate(Dict(body["title" := Null])) == Failure(FieldErrors([NotAString("title", Null)]))
      && ParseTaskCreate(Dict(body["title" := List([])])) == Failure(FieldErrors([NotAString("title", List([]))]))
  {
    var body := map["description" := Str(description)];
    forall found: Value | found == Null || found == List([])
      ensures ParseTaskCreate(Dict(body["title" := found])) == Failure(FieldErrors([NotAString("title", found)]))
    {
      var fields := body["title" := found];
      assert RequiredString(fields, "title") == Failure(NotAString("title", found));
      assert RequiredString(fields, "description") == Success(description);
      assert CreateStatus(fields) == Success(DefaultStatus);
      assert ErrorsOf(RequiredString(fields, "title")) + ErrorsOf(RequiredString(fields, "description"))
        + ErrorsOf(CreateStatus(fields)) == [NotAString("title", found)];
    }
  }

  /** No content check exists: empty title and description are accepted. */
  lemma EmptyStringsAccepted()
    ensures ParseTaskCreate(Dict(map["title" := Str(""), "description" := Str("")])).Success?
  {
  }

  /** Any status outside the enumeration is refused by the create payload. */
  lemma CreateRefusesUnknownStatus(title: string, description: string, status: string)
    requires status !in TaskStatus
    ensures ParseTaskCreate(Dict(map["title" := Str(title), "description" := Str(description), "status" := Str(status)])).Failure?
  {
  }

  /** An empty update body is valid and supplies nothing. */
  lemma UpdateFieldsDefaultToAbsent()
    ensures ParseTaskUpdate(Dict(map[])) == Success(TaskUpdate(None, None, None))
  {
  }
}
