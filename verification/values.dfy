/**
 Values shared by every layer of the backend: the Option/Result wrappers, the
 dynamically typed values that travel through Lambda events, stored documents
 and responses, and the JSON codec the backend borrows from Python's `json`
 module (an injected dependency here, since it is library code).
 */
module Values {

  /** A value that may be missing: a dict key that is absent, a lookup that finds nothing. */
  datatype Option<+T> = None | Some(value: T) {
    /** Python's `x if x is not None else default` */
    function GetOr(default: T): T {
      if Some? then value else default
    }
  }

  datatype Result<+T, +E> = Success(value: T) | Failure(error: E)

  /** A reading of the UTC clock (`datetime.utcnow()`), in microseconds since the epoch. */
  type Timestamp = int

  const MicrosPerMilli: int := 1000

  /**
   The time a BSON datetime keeps of a clock reading: BSON stores whole
   milliseconds, so the microseconds below the millisecond are floored away.
   */
  function StoredTime(t: Timestamp): (r: Timestamp)
    ensures r <= t < r + MicrosPerMilli
    ensures r % MicrosPerMilli == 0
  {
    (t / MicrosPerMilli) * MicrosPerMilli
  }

  /** The canonical (lower-case hexadecimal) text of a BSON ObjectId. */
  type Oid = string

  /**
   A Python value as it appears in an event body, a stored document or a
   response: the JSON types other than floating-point numbers, plus the two
   BSON types that stored documents hold.
   Dicts are modelled as maps, so key order is not represented.
   */
  datatype Value =
    | Null
    | Bool(b: bool)
    | Num(n: int)
    | Str(s: string)
    | List(items: seq<Value>)
    | Dict(fields: map<string, Value>)
    | ObjectId(oid: Oid)
    | DateTime(t: Timestamp)

  /** Python truthiness: `None`, `False`, `0` and empty strings and containers are false. */
  predicate Truthy(v: Value) {
    match v
    case Null => false
    case Bool(b) => b
    case Num(n) => n != 0
    case Str(s) => s != ""
    case List(items) => items != []
    case Dict(fields) => fields != map[]
    case ObjectId(_) => true
    case DateTime(_) => true
  }

  /** `fields.get(key, default)` on a Python dict */
  function Get(fields: map<string, Value>, key: string, default: Value): Value {
    if key in fields then fields[key] else default
  }

  /**
   The `json` module: `dumps` serialises a value (stored ObjectIds and datetimes
   are rendered as strings by the backend's encoder), `loads` parses text and
   yields None where Python raises `JSONDecodeError`.
   */
  datatype Json = Json(dumps: Value -> string, loads: string -> Option<Value>)

  /** The one fact about `json.loads` the backend relies on: "{}" parses to an empty dict. */
  predicate ParsesEmptyObject(json: Json) {
    json.loads("{}") == Some(Dict(map[]))
  }
}
