/** Credentials, access tokens and the two authentication dependencies of
    utils.py. SHA-256 is the parameter `hash` (any function from a password
    to its digest); JSON Web Token encoding is kept symbolic (`Token`) and
    decoding is the `Decoded` outcome the library reports. */
module Utils {
  import opened Common
  import opened Models

  const SecretKey := "test-key"
  const Algorithm := "HS256"

  /** Lifetime of an access token in seconds: `timedelta(minutes=60*8)`. */
  const TokenLifetime := 60 * 8 * 60

  /** The errors a handler raises. `NotFound` and `AccessDenied` stand for
      `not_found` and `access_denied`, which the handlers import from utils.py
      but utils.py does not define. */
  datatype ApiError =
    | NotFound
    | AccessDenied
    | BadRequest(detail: string)      // 400
    | Unauthorized(detail: string)    // 401
    | Forbidden(detail: string)       // 403
    | ServerError                     // an uncaught Python exception

  const InvalidCredentials := "Invalid credentials"
  const TokenHasExpired := "Token has expired"
  const NotAnAdmin := "You do not have permission to access this page."

  /** verify_password: the candidate's digest is the stored one. */
  function VerifyPassword(hash: string -> string, plain: string, hashed: string): (ok: bool)
    ensures ok <==> hashed == hash(plain)
  {
    hash(plain) == hashed
  }

  /** A password always verifies against its own digest. With no per-user
      salt, verification depends on the password only through its digest:
      two passwords with the same digest are accepted by the same rows. */
  lemma VerifyPasswordMeaning(hash: string -> string, plain: string, other: string, hashed: string)
    ensures VerifyPassword(hash, plain, hash(plain))
    ensures hash(other) == hash(plain) ==> VerifyPassword(hash, other, hashed) == VerifyPassword(hash, plain, hashed)
  {
  }

  /** A JSON value in a token's payload. */
  datatype Claim = Str(s: string) | Num(n: int) | Null

  type Payload = map<string, Claim>

  /** `jwt.encode(payload, key, algorithm)`, kept as the three things it signs. */
  datatype Token = Jwt(claims: Payload, key: string, algorithm: string)

  /** create_access_token: a copy of `data` with `exp` set (or overwritten)
      to `now + 8h`, signed with the process key. `now` is the seconds value
      of `datetime.utcnow().timestamp()`. `data` itself is a value and is
      not changed. */
  function CreateAccessToken(data: Payload, now: int): (t: Token)
    ensures t.claims.Keys == data.Keys + {"exp"}
    ensures forall k :: k in data && k != "exp" ==> t.claims[k] == data[k]
    ensures t.claims["exp"] == Num(now + TokenLifetime)
    ensures t.key == SecretKey && t.algorithm == Algorithm
  {
    var toEncode := data;
    Jwt(toEncode["exp" := Num(now + TokenLifetime)], SecretKey, Algorithm)
  }

  /** What `jwt.decode` does with a token: raise `ExpiredSignatureError`,
      raise another `InvalidTokenError`, or return the payload. */
  datatype Decoded = ExpiredSignature | InvalidToken | Decoded(claims: Payload)

  /** Why get_current_user refused a token. */
  datatype AuthFailure = TokenExpired | BadToken | NoSubject | UnknownUser
  {
    /** The 401 each failure raises: only expiry has its own message. */
    function Error(): (e: ApiError)
      ensures e.Unauthorized?
      ensures e.detail == TokenHasExpired <==> this == TokenExpired
      ensures this != TokenExpired ==> e == Unauthorized(InvalidCredentials)
    {
      if this == TokenExpired then Unauthorized(TokenHasExpired) else Unauthorized(InvalidCredentials)
    }
  }

  /** Python truthiness of a JSON value. */
  predicate ClaimTruthy(c: Claim)
  {
    match c
    case Str(s) => s != ""
    case Num(n) => n != 0
    case Null => false
  }

  /** `payload.get("sub")`. */
  function Subject(claims: Payload): Claim
  {
    if "sub" in claims then claims["sub"] else Null
  }

  /** The user a subject names: a string subject is looked up by username;
      any other subject matches no row. */
  function UserBySubject(users: seq<User>, sub: Claim): Option<User>
  {
    if sub.Str? then UserByName(users, sub.s) else None
  }

  /** get_current_user, after the token has been decoded. */
  function GetCurrentUser(users: seq<User>, decoded: Decoded): (r: Result<User, AuthFailure>)
    ensures decoded.ExpiredSignature? ==> r == Err(TokenExpired)
    ensures decoded.InvalidToken? ==> r == Err(BadToken)
    ensures decoded.Decoded? && !ClaimTruthy(Subject(decoded.claims)) ==> r == Err(NoSubject)
    ensures decoded.Decoded? && ClaimTruthy(Subject(decoded.claims)) && r.Err? ==> r == Err(UnknownUser)
    ensures r.Ok? <==>
      && decoded.Decoded?
      && Subject(decoded.claims).Str?
      && Subject(decoded.claims).s != ""
      && exists i :: 0 <= i < |users| && users[i].username == Subject(decoded.claims).s
    ensures r.Ok? ==> r.value in users && Subject(decoded.claims) == Str(r.value.username)
  {
    match decoded
    case ExpiredSignature => Err(TokenExpired)
    case InvalidToken => Err(BadToken)
    case Decoded(claims) =>
      var username := Subject(claims);
      if !ClaimTruthy(username) then Err(NoSubject)
      else
        match UserBySubject(users, username)
        case None => Err(UnknownUser)
        case Some(user) => Ok(user)
  }

  /** get_admin: lets an admin through unchanged and refuses everyone else,
      including a user whose `admin` column is NULL. */
  function GetAdmin(user: User): (r: Result<User, ApiError>)
    ensures r.Ok? <==> user.admin == Some(true)
    ensures r.Ok? ==> r.value == user
    ensures r.Err? ==> r.error == Forbidden(NotAnAdmin)
  {
    if !IsAdmin(user) then Err(Forbidden(NotAnAdmin)) else Ok(user)
  }
}
