# Task-management backend, modelled in Dafny

This project models the backend of a small task-management application. The
backend keeps tasks in a MongoDB collection. Each task has a title, a
description, a status (`todo`, `in_progress` or `completed`) and two
timestamps. AWS Lambda handlers create, list, update and delete tasks behind
an authorization wrapper. A FastAPI adapter also serves them and adds a
per-status statistics route.

Authentication is bypassed on purpose:

- every login succeeds;
- every non-empty authorization header maps to one fixed user;
- tasks are not scoped to an owner.

Each Python module has one Dafny module:

| module | source | what it holds |
|---|---|---|
| `Values` | shared | Python/BSON values, `Option`, `Result` |
| `Strings` | shared | `split`/`join` on one separator character, and the hexadecimal text of bytes |
| `Models` | `models.py` | the status enumeration and the pydantic payloads |
| `Db` | `db.py` | the task repository over a `map<Oid, Task>` |
| `Auth` | `auth.py` | token claims, password hashing and the bypass identities |
| `Utils` | `utils.py` | the Lambda response envelope and body parsing |
| `Handlers` | `main.py` | the Lambda handlers |
| `Api` | `api.py` | CORS origins, the Lambda-to-HTTP conversion and statistics |

The create, update and delete handlers are pure functions. Each takes the task
collection and the event, and returns a `Reply`: the response plus the
collection afterwards. `get_tasks` is a method that returns the response and the
listing it served. `login` reads no task and returns a bare response.

What the Python code gets from libraries or the environment enters as
parameters:

- the JSON module is `Json(dumps, loads)`;
- `ObjectId.is_valid` and `ObjectId(text)` are `IdScheme`;
- the ids the driver generates for inserts are `newId`/`newIds`;
- PyJWT's `encode`/`decode` are `JwtCodec`;
- `str.encode()` and the SHA-256 digest of `hashlib` are `Hashing(encode, sha256)`; the hexadecimal text `hexdigest()` writes is modelled (`Strings.Hex`);
- the text of a pydantic error is `describe`, given the name of the refusing model (`TaskCreate` or `TaskUpdate`) and the error;
- the clock reading is `now`, in microseconds like `datetime.utcnow()`;
- the JWT_SECRET environment variable is `jwtSecretVariable`.

Stored datetimes keep whole milliseconds, as BSON does (`Values.StoredTime`).
`create` answers with the document it built, so its `created_at` keeps the
clock's microseconds while a later read returns the millisecond value.

Some behaviours of the code are easy to assume otherwise:

- no owner is stored or filtered on;
- `get_current_user` ignores its argument, so no token is ever checked;
- `updated_at` is None at creation;
- a create body must carry a description, so a body with only a title and a
  status gets a 422 (`Handlers.CreateWithoutDescriptionRefused`);
- `login` never answers 401, although the repository's tests expect a 401 for
  bad credentials.

## Model

| member | source | states |
|---|---|---|
| Strings.Split | backend/app/api.py:31 | `str.split` on one character yields at least one piece, no piece contains the separator, and joining the pieces gives back the input |
| Strings.SplitJoin | backend/app/api.py:31 | splitting a join of separator-free pieces gives back exactly those pieces |
| Strings.BeforeFirst | backend/app/auth.py:66 | `split('@')[0]`: a prefix of the input that has no '@', followed in the input by the first '@' when there is one, and the whole input when there is none |
| Models.ParseStatus | backend/app/models.py:6 | a string names an enumeration value exactly when it is in TASK_STATUS, and naming that value gives the string back |
| Models.TaskStatusIsTheEnumeration | backend/app/models.py:6 | TASK_STATUS has three distinct entries, and each of them, and only they, names a status |
| Models.StatusNameRoundTrip | backend/app/models.py:6 | naming a status and parsing the name back is the identity |
| Models.StatusMustBeValid | backend/app/models.py:14-18 | an enumerated status passes unchanged; any other string is refused with that string in the error |
| Models.OptionalStatusMustBeValid | backend/app/models.py:30-34 | None passes, a present status passes unchanged exactly when it is enumerated |
| Models.ParseTaskCreate | backend/app/models.py:8-22 | a body is accepted exactly when it is a dict with string title and description and an enumerated status if any. The payload carries the given strings, with status "todo" when none is given. A refused dict gets a non-empty error list. The list names a missing title or description exactly when that field is absent. It names every present non-text field, with the value found, and no other field as wrongly typed. It names an unknown status text exactly when the body carries one. The errors come one per failing field, in the order title, description, status. A body that is not a dict is refused with that body |
| Models.ParseTaskUpdate | backend/app/models.py:24-34 | a body is accepted exactly when it is a dict whose three fields are each absent, null or text, with an enumerated status when text. The payload holds the supplied strings and None elsewhere. A refused dict's errors never report a missing field. They name every present field that is neither null nor text, with the value found, and no other. They name an unknown status text exactly when the body carries one. The errors come one per failing field, in the order title, description, status. A body that is not a dict is refused with that body |
| Models.RequiredString | backend/app/models.py:10-11 | a required `str` field is accepted exactly when present and text; otherwise the error names it as missing, or as holding the value found |
| Models.OptionalString | backend/app/models.py:26-28 | an `Optional[str] = None` field is accepted when absent, null or text, giving None for the first two; otherwise the error names the field and the value found |
| Models.CreateStatus | backend/app/models.py:12-18 | an absent status is the default "todo" without validation; a present one is accepted exactly when it is enumerated text, and refused as unknown text or as a non-text value |
| Models.CreateErrorsComplete | backend/app/models.py:8-22 | the create error list is empty exactly for a valid body, and lists each absent required field, each present non-text field and each unknown status text |
| Models.CreateErrorsSound | backend/app/models.py:8-22 | every create error is justified by the body (an absent required field, a present non-text field with its value, an unknown status text), with one entry per field in declaration order |
| Models.UpdateErrorsComplete | backend/app/models.py:24-34 | the update error list is empty exactly for a valid body, and lists each present field that is neither null nor text and each unknown status text |
| Models.UpdateErrorsSound | backend/app/models.py:24-34 | no update error reports a missing field; every other one is justified by the body, with one entry per field in declaration order |
| Models.RefusalsKeepTheValue | backend/app/models.py:10 | a null title and a list title are refused with different errors, each carrying the value found |
| Models.CreateBodyRoundTrip | backend/app/models.py:8-22 | a create payload with an enumerated status, written into a body, parses back to itself |
| Models.UpdateBodyRoundTrip | backend/app/models.py:24-34 | an update payload with a valid status, written with only its supplied fields, parses back to itself |
| Models.CreateDefaultsToTodo | backend/app/models.py:12 | a create body without a status gets "todo" |
| Models.CreateNeedsTitle | backend/app/models.py:10 | a create body without a title is refused, and the errors name the missing title |
| Models.EmptyStringsAccepted | backend/app/models.py:8-18 | no content check exists: empty title and description are accepted |
| Models.CreateRefusesUnknownStatus | backend/app/models.py:14-18 | a create body with any status outside the enumeration is refused |
| Models.UpdateFieldsDefaultToAbsent | backend/app/models.py:26-28 | an empty update body is valid and supplies no field |
| Db.GetAll | backend/app/db.py:51-53 | the listing holds every stored task exactly once, each under its own id, and nothing else |
| Db.GetById | backend/app/db.py:56-60 | a record is found exactly when the id text is well formed and names a stored task, and it is that task |
| Db.Create | backend/app/db.py:63-71 | the returned task carries the payload's fields, created_at now and updated_at None, under a fresh id. The collection gains exactly that id, holding the same task with created_at cut to the millisecond, and every other task is untouched |
| Db.Update | backend/app/db.py:74-87 | None, with no change, exactly when the id is malformed or absent. Otherwise only that task changes: each supplied field is overwritten, each other field keeps its value, created_at is kept, updated_at becomes now cut to the millisecond, and the stored task after the update is returned |
| Db.Delete | backend/app/db.py:90-96 | reports removal exactly when the id is well formed and stored. A malformed id changes nothing; a well-formed one is absent afterwards and no other task changes |
| Db.Seed | backend/app/db.py:129-153 | an empty collection receives exactly three tasks, one completed, one in progress and one to do, with the fixed Spanish titles and descriptions of `init_db`, each created now (to the millisecond) and never updated. A non-empty collection is left as it is |
| Db.SeedIdempotent | backend/app/db.py:129 | seeding twice is seeding once |
| Db.CreateThenGet | backend/app/db.py:56-71 | a created task is read back, with its datetimes as stored, under any id text naming its id |
| Db.CreateAnswerIsNotStored | backend/app/db.py:66-71 | unless the clock reads a whole millisecond, the document create returns differs from what a later read returns |
| Values.StoredTime | backend/app/db.py:66 | a stored datetime is the clock reading floored to a whole millisecond |
| Db.CreateThenDelete | backend/app/db.py:63-96 | deleting a task just created reports a removal and restores the collection exactly |
| Db.UpdateThenGet | backend/app/db.py:74-87 | the document an update returns is what a later read returns |
| Db.DeleteTwice | backend/app/db.py:90-96 | a second delete of the same id removes nothing and changes nothing |
| Db.MalformedIdShortCircuits | backend/app/db.py:58-93 | on a malformed id, get, update and delete answer None / None / false and change nothing |
| Db.CreatePreservesStatuses | backend/app/db.py:63-71 | creating from a validated payload keeps every stored status enumerated |
| Db.UpdatePreservesStatuses | backend/app/db.py:74-87 | updating with a validated status keeps every stored status enumerated |
| Db.DeletePreservesStatuses | backend/app/db.py:90-96 | deleting keeps every stored status enumerated |
| Db.SeedPreservesStatuses | backend/app/db.py:129-153 | seeding keeps every stored status enumerated |
| Auth.JwtSecret | backend/app/auth.py:11 | the secret is the environment's value when set, else the development default |
| Auth.TokenClaims | backend/app/auth.py:15-21 | the signed claims are the caller's claims plus `exp`, which is 24 hours after now |
| Auth.VerifyToken | backend/app/auth.py:25-33 | None exactly when the library's decode fails, else the decoded payload; an error never escapes |
| Auth.CreateAccessToken | backend/app/auth.py:15-23 | with a sound JWT library, a token signed for claims PyJWT accepts verifies at once, under the same secret, to those claims plus `exp` 24 hours ahead in epoch seconds |
| Auth.TokenRoundTrip | backend/app/auth.py:15-33 | with a sound JWT library and claims PyJWT accepts (no `aud`, `iat` or `nbf`; text `sub` and `jti`; plain JSON otherwise), a token verifies to the caller's claims plus `exp` in epoch seconds for 24 hours after issue, and to None from then on |
| Auth.LoginTokenRoundTrip | backend/app/main.py:148 | the token login issues for an email verifies to that subject for 24 hours |
| Auth.GetPasswordHash | backend/app/auth.py:41-46 | the hash is lower-case hexadecimal text, two digits per byte of the SHA-256 digest of the password's UTF-8 bytes, and decodes to that digest |
| Strings.UnhexHex | backend/app/auth.py:46 | the text `hexdigest()` writes is hexadecimal and decodes back to the digest |
| Strings.HexUnhex | backend/app/auth.py:46 | any lower-case hexadecimal text is what `hexdigest()` writes for the bytes it decodes to, so no two digests share a text |
| Auth.VerifyPassword | backend/app/auth.py:48-53 | a password verifies exactly when its hash equals the stored hash, that is, exactly when the stored text is hexadecimal naming the password's digest |
| Auth.VerifyOwnHash | backend/app/auth.py:41-53 | every password verifies against its own hash |
| Auth.NormaliseEmail | backend/app/auth.py:65 | the input unchanged when it has an '@', and the input followed by "@backend" otherwise |
| Auth.UsernameOf | backend/app/auth.py:66 | the part of the email before its first '@', or the whole email when it has none |
| Auth.NormaliseEmailIdempotent | backend/app/auth.py:65 | normalising twice is normalising once |
| Auth.UsernameIsLocalPart | backend/app/auth.py:65-66 | the username is exactly the part of the normalised email before its first '@' |
| Auth.AuthenticateUser | backend/app/auth.py:55-68 | always an identity, with the fixed id and role, the normalised email and the username of the input |
| Auth.PasswordIgnored | backend/app/auth.py:55-68 | the password has no effect on authentication |
| Auth.GetCurrentUser | backend/app/auth.py:70-81 | always the fixed identity: the bypass user id, email user@backend, username "user" and role "user" |
| Auth.CurrentUserIgnoresAuthorization | backend/app/auth.py:70-81 | no two authorization strings are told apart |
| Auth.DefaultUserIsBypassOfUser | backend/app/main.py:155-161 | login's fallback identity is the identity built from the email "user" |
| Utils.FormatResponse | backend/app/utils.py:5-31 | the status is copied; the headers are the defaults overridden by, and extended with, the custom ones; a dict or list body becomes JSON text, and any other body passes through |
| Utils.SuccessResponse | backend/app/utils.py:33-37 | the given status, the default headers, and a dict or list body serialised while any other body passes through |
| Utils.SuccessDefaultsTo200 | backend/app/utils.py:33-37 | without a status, a success response is a 200 with the default headers |
| Utils.ErrorBody | backend/app/utils.py:47-54 | the body is `{"error": {"message": m}}`, and it has "code" exactly when a non-empty error code is given |
| Utils.ErrorResponse | backend/app/utils.py:39-56 | the given status, the default headers and the serialised error body |
| Utils.ErrorDefaultsTo400 | backend/app/utils.py:41 | without a status, an error response is a 400 |
| Utils.ParseEventBody | backend/app/utils.py:58-70 | a missing body reads as "{}"; text is parsed, falling back to `{}`; a truthy non-text body is kept and a falsy one becomes `{}` |
| Utils.ParseEventBodyFallsBackToEmpty | backend/app/utils.py:62-70 | an absent body, unparseable text and a falsy value all read as `{}` |
| Handlers.AuthorizationHeader | backend/app/main.py:17-18 | the header "Authorization" when non-empty, else "authorization"; empty exactly when neither is usable |
| Handlers.RequireAuthWith | backend/app/main.py:11-34 | 401 (missing header) without a usable header; 401 (invalid token) when the user lookup fails; otherwise the event with the user attached |
| Handlers.RequireAuth | backend/app/main.py:15-32 | with the bypass lookup, a request passes exactly when it has a usable header, and carries the fixed user |
| Handlers.CreateTask | backend/app/main.py:48-67 | 401 without authorization and 422 on an invalid body, whose text describes the error as `TaskCreate`'s, both leaving the collection alone; otherwise the task is created and answered with 201, the default CORS headers and the document create built, microseconds included |
| Handlers.CreateWithoutDescriptionRefused | backend/app/main.py:57-60 | a body with a title and a status but no description is a 422 that stores nothing |
| Handlers.UpdateFields | backend/app/main.py:92 | the repository receives exactly the payload's non-None fields |
| Handlers.StatusOnlyUpdate | backend/app/main.py:79-92 | a body of only a status reaches the repository as exactly that one field |
| Handlers.UpdateTask | backend/app/main.py:70-102 | 401, 400 (no id) and 422 (the error described as `TaskUpdate`'s) leave the collection alone; otherwise the repository update runs and is answered 404 when it finds nothing and 200 with the default CORS headers and the updated document otherwise |
| Handlers.DeleteTask | backend/app/main.py:105-125 | 401 and 400 leave the collection alone; otherwise the delete runs and is answered 200, with the default CORS headers, when a task was removed and 404 otherwise |
| Handlers.DeleteTaskTwice | backend/app/main.py:114-123 | deleting the same task twice: the second request is a 404 and changes nothing |
| Handlers.GetTasks | backend/app/main.py:37-45 | 401 without authorization; otherwise 200, with the default CORS headers and the documents of a listing that holds every stored task once |
| Handlers.LoginEmail | backend/app/main.py:133-143 | the `try` branch runs exactly when the body is a dict whose email, if any, is text, and uses that email or "user" |
| Handlers.LoginToken | backend/app/main.py:148 | with a sound JWT library, the login token verifies at once to the user's email as subject and `exp` 24 hours ahead |
| Handlers.LoginResponse | backend/app/main.py:148-153 | status 200, the default CORS headers, and the serialised token and user |
| Handlers.Login | backend/app/main.py:127-167 | always 200, with the bypass identity of the body's email, or of "user" when the email is missing or the body cannot be read |
| Handlers.LoginWithoutEmail | backend/app/main.py:136 | a body without an email logs in as user@backend |
| Api.OriginsList | backend/app/api.py:25-31 | "*", also the default, yields just "*"; any other value yields its comma-free pieces, which join back to it |
| Api.OriginsListIsSplit | backend/app/api.py:25-31 | the wildcard branch agrees with the split branch |
| Api.OriginsListReadsBack | backend/app/api.py:31 | a comma-joined list of origins is read back origin by origin |
| Api.LambdaToFastapi | backend/app/api.py:42-64 | the status defaults to 200 and the body to "{}". JSON text is re-serialised and marked JSON, other text passes through unmarked, and any other body is serialised and marked JSON |
| Api.StatisticsBody | backend/app/api.py:181-193 | the keys todo, inProgress and completed, holding the counts, or zeros when counting failed |
| Api.CountDocuments | backend/app/api.py:177-179 | a per-status count never exceeds the number of stored tasks |
| Api.ListingCountsAgree | backend/app/api.py:177-179 | counting over any complete listing agrees with `count_documents` |
| Api.AwaitCount | backend/app/api.py:177-179 | awaiting yields the count exactly when the driver is asynchronous |
| Api.TaskStatisticsAsWritten | backend/app/api.py:168-193 | the route as written answers zeros whatever is stored, because every awaited count raises |
| Api.AsWrittenMissesTask | backend/app/api.py:177-193 | with one stored todo task the route as written reports 0 where the count is 1 |
| Api.TaskStatistics | backend/app/api.py:168-186 | the corrected route (counts not awaited): each key holds the number of tasks in the whole collection with that status, for no owner in particular |
| Api.AsyncDriverGivesCounts | backend/app/api.py:177-186 | with an asynchronous driver the route as written gives the intended answer |
| Api.StatisticsSumToTotal | backend/app/api.py:177-186 | in the corrected route, when every status is enumerated, the three counts add up to the number of stored tasks |
| Api.SeededStatistics | backend/app/db.py:129-153 | in the corrected route, a freshly seeded collection reports one task of each status |

## Left out

- FastAPI routing, the CORS middleware, uvicorn and the Lambda `context` argument are plumbing and carry no logic of their own.
- The MongoDB client, connection-string handling and the database selection are left out: the collection is a map.
- `MongoJSONEncoder`, `json`, PyJWT, UTF-8 encoding and the SHA-256 digest of `hashlib` are parameters. In particular the digest's 32-byte length is not assumed, so the hash's 64-digit length is stated only as twice the digest's. Their behaviour is left to the caller, except for the decode-after-encode law of `Auth.Sound`. That law covers only claims PyJWT accepts without extra decode options (`Auth.AcceptedClaims`).
- `health_check`, `UsersRepository`, the user models and the user half of `init_db` are not part of this model. No handler of the task core reads users.
- `decode_access_token` is modelled as `Auth.DecodeAccessToken`, an alias of `verify_token` as in the code. It needs no row of its own.
- The `except Exception` branches that answer 500 are not modelled. They catch driver and network failures, which a map does not have.
- Handlers.Event: "headers" and "pathParameters" are modelled as string maps. A non-dict value there makes the code raise and is not represented.
- Models.ParseTaskCreate: pydantic v1's coercion of numbers, booleans and bytes to `str` is not modelled (v1 turns `true` into "True" and `5` into "5"). Only text is accepted as a string field.
- Models.ParseTaskUpdate: pydantic v1's coercion of numbers, booleans and bytes to `str` is not modelled either.
- JSON floating-point numbers have no constructor in `Values.Value`. Only integers are modelled, and no member of the core computes with a float.
- Models.ParseTaskCreate: fields outside the model are ignored, as pydantic does. The exact text of pydantic's errors is the `describe` parameter.
- Db.Update: requires the supplied fields to be among title, description and status. Only `update_task` calls it, and that is all `update_task` ever passes. Arbitrary `$set` keys are not representable.
- Db.Create: requires a fresh id, the guarantee the driver gives for generated ObjectIds.
- Db.Seed: the three clock readings of the seeding are taken as one instant.
- Auth.VerifyToken: the algorithm list passed to `decode` is modelled as the one algorithm HS256.
- Async execution is not modelled.
- The key order of serialised bodies is not modelled. Bodies are maps and `dumps` is a parameter, so the order in which keys appear in the JSON text is not represented (for instance, `_id` comes last in a created task, db.py:71).

## Findings

| source | as written | input that shows it | evidently intended | confidence | as-written member | corrected member |
|---|---|---|---|---|---|---|
| backend/app/api.py:177-179 | `await` is applied to the synchronous pymongo `count_documents`. Awaiting the returned int raises TypeError, and the `except` branch answers zeros | a collection holding one task with status "todo": the route answers todo 0 | the number of tasks per status (todo 1 here) | not executed | Api.AsWrittenMissesTask | Api.StatisticsSumToTotal |
