/**
 Authentication helpers. Authentication and authorization are bypassed: every
 credential pair and every authorization string yields a fixed identity.
 Password checking compares hashes, and access tokens are the caller's claims
 plus an expiry 24 hours ahead, signed by a JWT library supplied as a
 parameter (as is the SHA-256 hex digest).
 */
module Auth {
  import opened Values
  import opened Strings

  /** JWT_SECRET when the environment does not set it */
  const DefaultJwtSecret: string := "your-secret-key-for-development"

  /** JWT_ALGORITHM */
  const JwtAlgorithm: string := "HS256"

  /** JWT_EXPIRATION, in hours */
  const JwtExpirationHours: int := 24

  const SecondsPerHour: int := 3600

  const MicrosPerSecond: int := 1000000

  /** The lifetime of an access token, in seconds */
  const TokenLifetimeSeconds: int := JwtExpirationHours * SecondsPerHour

  /** The lifetime of an access token, in clock units (microseconds) */
  const TokenLifetime: int := TokenLifetimeSeconds * MicrosPerSecond

  /** The id every bypass identity carries */
  const BypassUserId: string := "bypass_auth_user"

  /** The role every bypass identity carries */
  const UserRole: string := "user"

  /** The suffix appended to an email that has no '@' */
  const EmailSuffix: string := "@backend"

  type Claims = map<string, Value>

  datatype JwtError = ExpiredSignature | InvalidSignature | DecodeError

  /**
   The PyJWT calls: `encode(payload, key, algorithm)` and
   `decode(token, key, algorithm, now)`, the latter checking signature and
   expiry against the clock reading `now`.
   */
  datatype JwtCodec = JwtCodec(
    encode: (Claims, string, string) -> string,
    decode: (string, string, string, Timestamp) -> Result<Claims, JwtError>)

  /** The identity the backend hands out */
  datatype User = User(id: string, email: string, username: string, role: string)

  /** A clock reading as whole epoch seconds, the way PyJWT reads datetimes and the clock (`timegm`). */
  function Seconds(t: Timestamp): int {
    t / MicrosPerSecond
  }

  /** JWT_SECRET read from the environment, with its development default. */
  function JwtSecret(fromEnvironment: Option<string>): (secret: string)
    ensures fromEnvironment.Some? ==> secret == fromEnvironment.value
    ensures fromEnvironment.None? ==> secret == DefaultJwtSecret
  {
    fromEnvironment.GetOr(DefaultJwtSecret)
  }

  /** The claims `create_access_token` signs: the caller's claims with `exp` set to `now` + 24 hours. */
  function TokenClaims(data: Claims, now: Timestamp): (claims: Claims)
    ensures claims.Keys == data.Keys + {"exp"}
    ensures claims["exp"] == DateTime(now + TokenLifetime)
    ensures forall k :: k in data && k != "exp" ==> claims[k] == data[k]
  {
    data["exp" := DateTime(now + TokenLifetime)]
  }

  /**
   Claims a caller may hand `create_access_token` and get back from
   `verify_token`: no `iat`, `nbf` or `aud`, text `sub` and `jti` when
   present, and plain JSON everywhere but `exp` (which is replaced).
   */
  predicate Signable(data: Claims) {
    && "iat" !in data && "nbf" !in data && "aud" !in data
    && ("sub" in data ==> data["sub"].Str?)
    && ("jti" in data ==> data["jti"].Str?)
    && forall k :: k in data && k != "exp" ==> Jsonable(data[k])
  }

  /**
   `create_access_token`: signs the caller's claims with `exp` 24 hours from
   now; `data` itself is left as it was. With a sound JWT library the token
   verifies at once, under the same secret, to the claims with `exp` in epoch seconds.
   */
  function CreateAccessToken(data: Claims, secret: string, now: Timestamp, jwt: JwtCodec): (token: string)
    ensures Sound(jwt) && Signable(data) ==>
      VerifyToken(token, secret, now, jwt) == Some(data["exp" := Num(Seconds(now) + TokenLifetimeSeconds)])
  {
    SecondsShift(now, TokenLifetimeSeconds);
    assert Signable(data) ==> AcceptedClaims(TokenClaims(data, now));
    assert OnWire(TokenClaims(data, now)) == data["exp" := Num(Seconds(now) + TokenLifetimeSeconds)];
    jwt.encode(TokenClaims(data, now), secret, JwtAlgorithm)
  }

  /** `verify_token`: the decoded payload, or None (never a failure) when the library raises any decode error. */
  function VerifyToken(token: string, secret: string, now: Timestamp, jwt: JwtCodec): (r: Option<Claims>)
    ensures r.None? <==> jwt.decode(token, secret, JwtAlgorithm, now).Failure?
    ensures r.Some? ==> r.value == jwt.decode(token, secret, JwtAlgorithm, now).value
  {
    match jwt.decode(token, secret, JwtAlgorithm, now)
    case Success(payload) => Some(payload)
    case Failure(_) => None
  }

  /** `decode_access_token` is `verify_token`. */
  function DecodeAccessToken(token: string, secret: string, now: Timestamp, jwt: JwtCodec): Option<Claims> {
    VerifyToken(token, secret, now, jwt)
  }

  /** The payload PyJWT decodes from a token it signed: a datetime `exp` comes back as epoch seconds. */
  function OnWire(claims: Claims): Claims {
    if "exp" in claims && claims["exp"].DateTime? then claims["exp" := Num(Seconds(claims["exp"].t))] else claims
  }

  /** A value `json.dumps` can write without a custom encoder: no ObjectId and no datetime anywhere in it. */
  predicate Jsonable(v: Value) {
    match v
    case List(items) => forall i :: 0 <= i < |items| ==> Jsonable(items[i])
    case Dict(fields) => forall k :: k in fields ==> Jsonable(fields[k])
    case ObjectId(_) => false
    case DateTime(_) => false
    case _ => true
  }

  /**
   Claims PyJWT signs and later accepts when `decode` is given only a key and
   an algorithm list: a datetime `exp`; no `iat` or `nbf` (checked against the
   clock) and no `aud` (refused when no audience is passed); `sub` and `jti`
   text when present; every other claim plain JSON.
   */
  predicate AcceptedClaims(claims: Claims) {
    "exp" in claims && claims["exp"].DateTime? && Signable(claims)
  }

  /**
   What PyJWT promises for a token it signed over accepted claims: decoded
   with the same key and algorithm it yields the payload while the clock's
   whole seconds are below `exp`'s, and raises ExpiredSignatureError from then on.
   */
  ghost predicate Sound(jwt: JwtCodec) {
    forall claims: Claims, key: string, alg: string, now: Timestamp
      {:trigger jwt.decode(jwt.encode(claims, key, alg), key, alg, now)} ::
      AcceptedClaims(claims) ==>
        jwt.decode(jwt.encode(claims, key, alg), key, alg, now)
          == if Seconds(now) < Seconds(claims["exp"].t) then Success(OnWire(claims)) else Failure(ExpiredSignature)
  }

  /** Moving a clock reading by whole seconds moves its seconds by as many. */
  lemma SecondsShift(t: Timestamp, k: int)
    ensures Seconds(t + k * MicrosPerSecond) == Seconds(t) + k
  {
  }

  /**
   With a sound JWT library, a token issued at `issuedAt` over claims PyJWT
   accepts verifies to the caller's claims plus `exp` (in epoch seconds) for
   24 hours and to None afterwards.
   */
  lemma TokenRoundTrip(data: Claims, secret: string, issuedAt: Timestamp, now: Timestamp, jwt: JwtCodec)
    requires Sound(jwt) && Signable(data)
    ensures Seconds(now) < Seconds(issuedAt) + TokenLifetimeSeconds ==>
      VerifyToken(CreateAccessToken(data, secret, issuedAt, jwt), secret, now, jwt)
        == Some(data["exp" := Num(Seconds(issuedAt) + TokenLifetimeSeconds)])
    ensures Seconds(issuedAt) + TokenLifetimeSeconds <= Seconds(now) ==>
      VerifyToken(CreateAccessToken(data, secret, issuedAt, jwt), secret, now, jwt) == None
  {
    var claims := TokenClaims(data, issuedAt);
    assert AcceptedClaims(claims);
    SecondsShift(issuedAt, TokenLifetimeSeconds);
    assert jwt.decode(jwt.encode(claims, secret, JwtAlgorithm), secret, JwtAlgorithm, now)
      == if Seconds(now) < Seconds(claims["exp"].t) then Success(OnWire(claims)) else Failure(ExpiredSignature);
    assert OnWire(claims) == data["exp" := Num(Seconds(issuedAt) + TokenLifetimeSeconds)];
  }

  /** The token `login` issues for an email verifies to that subject for 24 hours. */
  lemma LoginTokenRoundTrip(email: string, secret: string, issuedAt: Timestamp, now: Timestamp, jwt: JwtCodec)
    requires Sound(jwt)
    requires Seconds(now) < Seconds(issuedAt) + TokenLifetimeSeconds
    ensures VerifyToken(CreateAccessToken(map["sub" := Str(email)], secret, issuedAt, jwt), secret, now, jwt)
      == Some(map["sub" := Str(email), "exp" := Num(Seconds(issuedAt) + TokenLifetimeSeconds)])
  {
    TokenRoundTrip(map["sub" := Str(email)], secret, issuedAt, now, jwt);
  }

  /** Python's `str.encode()` (UTF-8) and the digest of `hashlib.sha256`. */
  datatype Hashing = Hashing(encode: string -> seq<Byte>, sha256: seq<Byte> -> seq<Byte>)

  /** The SHA-256 digest of a password's UTF-8 bytes. */
  function Digest(password: string, hashing: Hashing): seq<Byte> {
    hashing.sha256(hashing.encode(password))
  }

  /** `get_password_hash`: the digest of the password as lower-case hexadecimal text, two digits per byte. */
  function GetPasswordHash(password: string, hashing: Hashing): (hash: string)
    ensures IsHex(hash) && |hash| == 2 * |Digest(password, hashing)|
    ensures Unhex(hash) == Digest(password, hashing)
  {
    UnhexHex(Digest(password, hashing));
    Hex(Digest(password, hashing))
  }

  /**
   `verify_password`: the stored hash equals the hash of the plain password,
   that is, the stored text is lower-case hexadecimal naming the password's digest.
   */
  function VerifyPassword(plain: string, hashed: string, hashing: Hashing): (ok: bool)
    ensures ok <==> hashed == GetPasswordHash(plain, hashing)
    ensures ok <==> IsHex(hashed) && Unhex(hashed) == Digest(plain, hashing)
  {
    assert IsHex(hashed) ==> Hex(Unhex(hashed)) == hashed by {
      if IsHex(hashed) {
        HexUnhex(hashed);
      }
    }
    GetPasswordHash(plain, hashing) == hashed
  }

  /** Every password verifies against its own hash. */
  lemma VerifyOwnHash(password: string, hashing: Hashing)
    ensures VerifyPassword(password, GetPasswordHash(password, hashing), hashing)
  {
  }

  /** The email of a bypass identity: unchanged when it has an '@', else with "@backend" appended. */
  function NormaliseEmail(email: string): (r: string)
    ensures '@' in r
    ensures email <= r
    ensures r == email <==> '@' in email
    ensures '@' !in email ==> r == email + EmailSuffix
  {
    if '@' in email then email else email + EmailSuffix
  }

  /** The username of a bypass identity: the text before the first '@', or the whole input. */
  function UsernameOf(email: string): (r: string)
    ensures '@' !in r
    ensures r <= email
    ensures '@' !in email ==> r == email
    ensures '@' in email ==> |r| < |email| && email[|r|] == '@'
  {
    if '@' in email then BeforeFirst(email, '@') else email
  }

  /** The identity `authenticate_user` and `login` build for an email. */
  function BypassUser(email: string): User {
    User(BypassUserId, NormaliseEmail(email), UsernameOf(email), UserRole)
  }

  /** The identity `get_current_user` returns and `login` falls back to */
  const DefaultUser: User := User(BypassUserId, "user@backend", "user", UserRole)

  /** Normalising an email twice is normalising it once. */
  lemma NormaliseEmailIdempotent(email: string)
    ensures NormaliseEmail(NormaliseEmail(email)) == NormaliseEmail(email)
  {
  }

  /** The username is exactly the part of the normalised email before its first '@'. */
  lemma UsernameIsLocalPart(email: string)
    ensures var u := BypassUser(email);
      |u.username| < |u.email| && u.email[..|u.username|] == u.username && u.email[|u.username|] == '@'
  {
    var u := BypassUser(email);
    if '@' !in email {
      assert u.email == email + EmailSuffix;
      assert u.email[|email|] == '@';
    }
  }

  /** The fallback identity is the one built from the email "user". */
  lemma DefaultUserIsBypassOfUser()
    ensures BypassUser("user") == DefaultUser
  {
    assert '@' !in "user";
  }

  /**
   `authenticate_user`: never None; for any email and any password it returns
   the bypass identity with the normalised email. The password is ignored.
   */
  function AuthenticateUser(email: string, password: string): (r: Option<User>)
    ensures r.Some?
    ensures r.value.id == BypassUserId && r.value.role == UserRole
    ensures '@' in r.value.email && email <= r.value.email
    ensures r.value.username <= email && '@' !in r.value.username
    ensures r.value.email == NormaliseEmail(email) && r.value.username == UsernameOf(email)
  {
    Some(BypassUser(email))
  }

  /** The password plays no part in authentication. */
  lemma PasswordIgnored(email: string, password: string, other: string)
    ensures AuthenticateUser(email, password) == AuthenticateUser(email, other)
  {
  }

  /** `get_current_user`: the same fixed identity for every authorization string. */
  function GetCurrentUser(authorization: string): (r: Option<User>)
    ensures r.Some? && r.value.id == BypassUserId && r.value.email == "user@backend"
    ensures r.Some? && r.value.username == "user" && r.value.role == UserRole
  {
    Some(DefaultUser)
  }

  /** No authorization string is told apart from another. */
  lemma CurrentUserIgnoresAuthorization(authorization: string, other: string)
    ensures GetCurrentUser(authorization) == GetCurrentUser(other)
  {
  }

  /** A user as the dict the handlers put in response bodies. */
  function UserValue(u: User): Value {
    Dict(map["_id" := Str(u.id), "email" := Str(u.email), "username" := Str(u.username), "role" := Str(u.role)])
  }
}
