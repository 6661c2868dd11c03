/**
 * The credential and session core of the backend: the `register`, `login`
 * and `logout` handlers and the `check_blacklist` request gate, acting on the
 * two keyed collections of the document store, `users` (keyed by e-mail) and
 * `blacklist` (keyed by the raw token string).
 *
 * Each handler's decision is a function of its inputs and the collections;
 * the `Server` class holds the collections and its methods perform the one
 * store write each handler makes.
 */
module Auth {
  import opened Text
  import opened EmailPattern
  import opened Tokens

  /** A document of the `users` collection. */
  datatype User = User(
    name: string,
    surname: string,
    email: string,
    passwordHash: string,
    companyName: Option<string>)

  /** A document of the `blacklist` collection; `blacklistedOn` in seconds. */
  datatype BlacklistEntry = BlacklistEntry(token: string, blacklistedOn: int)

  /** An HTTP status with the JSON body's `message` and, for a login, its `token`. */
  datatype Response = Response(status: int, message: string, token: Option<string>)

  /**
   * The JSON body of a registration. A field is `None` when the key is absent
   * or `null`.
   */
  datatype RegisterForm = RegisterForm(
    name: Option<string>,
    surname: Option<string>,
    email: Option<string>,
    password: Option<string>,
    companyName: Option<string>)

  /** The JSON body of a login. */
  datatype LoginForm = LoginForm(email: Option<string>, password: Option<string>)

  const MissingFields := Response(400, "Missing required fields", None)
  const InvalidEmail := Response(400, "Invalid email address", None)
  const EmailTaken := Response(400, "Email already registered", None)
  const Registered := Response(201, "User registered successfully", None)
  const InvalidCredentials := Response(401, "Invalid email or password", None)
  const TokenMissing := Response(400, "Token missing", None)
  const LoggedOut := Response(200, "Logout successful", None)
  const TokenInvalidated := Response(401, "Token has been invalidated", None)
  const TokenExpired := Response(401, "Token has expired", None)
  const InvalidToken := Response(401, "Invalid token", None)
  /** The body of every `except Exception` branch (its `error` text is not modelled). */
  const ServerError := Response(500, "An error occurred", None)

  /** Python truthiness of an optional string field: present and non-empty. */
  predicate Given(field: Option<string>)
  {
    field.Some? && field.value != ""
  }

  /** Every user document sits under the key of its own e-mail. */
  ghost predicate UsersKeyed(users: map<string, User>)
  {
    forall k :: k in users ==> users[k].email == k
  }

  /** Every blacklist document sits under the key of its own token. */
  ghost predicate BlacklistKeyed(blacklist: map<string, BlacklistEntry>)
  {
    forall t :: t in blacklist ==> blacklist[t].token == t
  }

  // ---------------------------------------------------------------- register

  /**
   * The checks of `register`, in order; the first that fails gives the
   * response, and `None` means that the user document is to be written.
   * A body that is not a JSON object makes `data.get` raise: 500.
   */
  function RegisterRejection(body: Option<RegisterForm>, users: map<string, User>): (r: Option<Response>)
    ensures r.None? <==>
      body.Some? && Given(body.value.password) && Given(body.value.name) && Given(body.value.surname)
      && Given(body.value.email) && IsValidEmail(body.value.email.value) && body.value.email.value !in users
    ensures r.Some? ==> r.value.status in {400, 500}
  {
    match body
    case None => Some(ServerError)
    case Some(f) =>
      if !Given(f.name) || !Given(f.surname) || !Given(f.email) || !Given(f.password) then Some(MissingFields)
      else if !IsValidEmail(f.email.value) then Some(InvalidEmail)
      else if f.email.value in users then Some(EmailTaken)
      else None
  }

  /** The document `register` writes: the password only as its salted hash. */
  function NewUser(f: RegisterForm, c: Crypto, salt: string): (u: User)
    requires f.name.Some? && f.surname.Some? && f.email.Some? && f.password.Some?
    ensures u.email == f.email.value && u.name == f.name.value && u.surname == f.surname.value
    ensures u.passwordHash == c.hash(salt, f.password.value) && u.companyName == f.companyName
  {
    User(f.name.value, f.surname.value, f.email.value, c.hash(salt, f.password.value), f.companyName)
  }

  /** The response of `register`. */
  function RegisterReply(body: Option<RegisterForm>, users: map<string, User>): Response
  {
    match RegisterRejection(body, users)
    case Some(rejection) => rejection
    case None => Registered
  }

  /**
   * The `users` collection after `register`: one new document under the
   * given e-mail on success, the collection untouched otherwise.
   */
  function RegisterWrite(body: Option<RegisterForm>, users: map<string, User>, c: Crypto, salt: string)
    : (r: map<string, User>)
    ensures forall k :: k in users ==> k in r && r[k] == users[k]
    ensures forall k :: k in r && k !in users ==>
      RegisterRejection(body, users).None? && k == body.value.email.value
      && r[k] == NewUser(body.value, c, salt)
    ensures RegisterRejection(body, users).None? ==>
      var e := body.value.email.value;
      e in r && r[e] == NewUser(body.value, c, salt) && r.Keys == users.Keys + {e}
    ensures RegisterRejection(body, users).Some? ==> r == users
    ensures UsersKeyed(users) ==> UsersKeyed(r)
  {
    if RegisterRejection(body, users).None? then users[body.value.email.value := NewUser(body.value, c, salt)]
    else users
  }

  // ------------------------------------------------------------------- login

  /**
   * The response of `login`. It only reads `users`; an unknown e-mail and a
   * wrong password give the same 401 body.
   */
  function LoginReply(body: Option<LoginForm>, users: map<string, User>, c: Crypto, now: int): (r: Response)
    ensures r.token.Some? <==> r.status == 200
    ensures body.None? ==> r == ServerError
    ensures body.Some? && (!Given(body.value.email) || !Given(body.value.password)) ==> r == MissingFields
    ensures body.Some? && Given(body.value.email) && Given(body.value.password) ==>
      r == if body.value.email.value in users
              && c.check(users[body.value.email.value].passwordHash, body.value.password.value)
           then Response(200, "Login successful", Some(c.encode(SessionClaims(body.value.email.value, now))))
           else InvalidCredentials
    ensures r.status == 200 ==>
      && body.Some? && Given(body.value.email) && Given(body.value.password)
      && body.value.email.value in users
      && c.check(users[body.value.email.value].passwordHash, body.value.password.value)
      && r.token == Some(c.encode(SessionClaims(body.value.email.value, now)))
  {
    match body
    case None => ServerError
    case Some(f) =>
      if !Given(f.email) || !Given(f.password) then MissingFields
      else if f.email.value !in users then InvalidCredentials
      else if !c.check(users[f.email.value].passwordHash, f.password.value) then InvalidCredentials
      else Response(200, "Login successful", Some(c.encode(SessionClaims(f.email.value, now))))
  }

  // ------------------------------------------------- the Authorization header

  /**
   * What `if auth_header:` followed by `auth_header.split(' ')[1]` finds: no
   * header (absent or empty), a header whose split has no second piece (the
   * indexing raises `IndexError`), or the second piece.
   */
  datatype AuthHeader = NoHeader | NoSecondSegment | BearerToken(token: string)

  function ReadAuthHeader(header: Option<string>): (r: AuthHeader)
    ensures r.NoHeader? <==> !Given(header)
    ensures r.NoSecondSegment? <==> Given(header) && ' ' !in header.value
    ensures r.BearerToken? ==> ' ' !in r.token
    ensures r.BearerToken? ==>
      // the token runs from just after the first space to the next space or the end
      var h := header.value; var i := FirstIndex(h, ' ').value; var e := i + 1 + |r.token|;
      e <= |h| && h[i + 1..e] == r.token && (e == |h| || h[e] == ' ')
  {
    if !Given(header) then NoHeader
    else
      var parts := Split(header.value, ' ');
      if |parts| < 2 then NoSecondSegment
      else
        SecondPiece(header.value, ' ');
        BearerToken(parts[1])
  }

  /** `"<scheme> <token>"` carries `token`, for any space-free scheme and token. */
  lemma ReadBearerHeader(scheme: string, token: string)
    requires ' ' !in scheme && ' ' !in token
    ensures ReadAuthHeader(Some(scheme + " " + token)) == BearerToken(token)
  {
    var parts := [scheme, token];
    assert Join(parts, ' ') == scheme + " " + token by {
      assert Join(parts[1..], ' ') == token;
    }
    SplitJoin(parts, ' ');
  }

  // ------------------------------------------------------------------ logout

  /** The response of `logout`; the `IndexError` of a one-piece header is caught: 500. */
  function LogoutReply(header: Option<string>): Response
  {
    match ReadAuthHeader(header)
    case NoHeader => TokenMissing
    case NoSecondSegment => ServerError
    case BearerToken(_) => LoggedOut
  }

  /**
   * The `blacklist` collection after `logout` at time `now`: the raw second
   * piece of the header is written verbatim, undecoded, overwriting any
   * earlier entry for it. Nothing is ever removed.
   */
  function LogoutWrite(header: Option<string>, now: int, blacklist: map<string, BlacklistEntry>)
    : (r: map<string, BlacklistEntry>)
    ensures blacklist.Keys <= r.Keys
    ensures ReadAuthHeader(header).BearerToken? <==> LogoutReply(header) == LoggedOut
    ensures ReadAuthHeader(header).NoHeader? <==> LogoutReply(header) == TokenMissing
    ensures ReadAuthHeader(header).NoSecondSegment? <==> LogoutReply(header) == ServerError
    ensures ReadAuthHeader(header).BearerToken? ==>
      var t := ReadAuthHeader(header).token;
      t in r && r[t] == BlacklistEntry(t, now) && r.Keys == blacklist.Keys + {t}
      && forall u :: u in blacklist && u != t ==> r[u] == blacklist[u]
    ensures !ReadAuthHeader(header).BearerToken? ==> r == blacklist
    ensures BlacklistKeyed(blacklist) ==> BlacklistKeyed(r)
  {
    match ReadAuthHeader(header)
    case BearerToken(t) => blacklist[t := BlacklistEntry(t, now)]
    case _ => blacklist
  }

  // -------------------------------------------------------------------- gate

  /**
   * The outcome of `check_blacklist` for one request: let the request through
   * (with the decoded claims as `g.current_user`, or with no identity when
   * there is no header), answer it with a 401, or fail: the `IndexError` of
   * a one-piece header is not among the exceptions the gate catches.
   */
  datatype GateOutcome = Admit(identity: Option<Claims>) | Reject(response: Response) | Fault

  /**
   * `check_blacklist`: the token is decoded first and the blacklist is
   * consulted only for a token that decodes.
   */
  function GateDecision(header: Option<string>, now: int, blacklist: map<string, BlacklistEntry>, c: Crypto)
    : (r: GateOutcome)
    ensures r.Admit? && r.identity.None? <==> ReadAuthHeader(header).NoHeader?
    ensures r.Fault? <==> ReadAuthHeader(header).NoSecondSegment?
    ensures r.Admit? && r.identity.Some? ==>
      && ReadAuthHeader(header).BearerToken?
      && ReadAuthHeader(header).token !in blacklist
      && c.decode(ReadAuthHeader(header).token, now) == Payload(r.identity.value)
    ensures r.Reject? ==> r.response.status == 401
    ensures ReadAuthHeader(header).BearerToken? ==>
      var t := ReadAuthHeader(header).token;
      && (c.decode(t, now).BadToken? ==> r == Reject(InvalidToken))
      && (c.decode(t, now).ExpiredSignature? ==> r == Reject(TokenExpired))
      && (c.decode(t, now).Payload? ==>
            r == if t in blacklist then Reject(TokenInvalidated) else Admit(Some(c.decode(t, now).claims)))
  {
    match ReadAuthHeader(header)
    case NoHeader => Admit(None)
    case NoSecondSegment => Fault
    case BearerToken(t) =>
      match c.decode(t, now)
      case ExpiredSignature => Reject(TokenExpired)
      case BadToken => Reject(InvalidToken)
      case Payload(claims) =>
        if t in blacklist then Reject(TokenInvalidated) else Admit(Some(claims))
  }

  // ------------------------------------------------------------------ server

  /** Flask's request-scoped `g`: the identity the gate attaches. */
  class RequestContext {
    var currentUser: Option<Claims>

    constructor ()
      ensures currentUser == None
    {
      currentUser := None;
    }
  }

  /** The document store's two collections, with the process-wide libraries and secret. */
  class Server {
    const crypto: Crypto
    var users: map<string, User>
    var blacklist: map<string, BlacklistEntry>

    ghost predicate Valid()
      reads this
    {
      Sound(crypto)
    }

    /** A server over the collections as the store holds them at start-up. */
    constructor (crypto: Crypto, users: map<string, User>, blacklist: map<string, BlacklistEntry>)
      requires Sound(crypto)
      ensures Valid()
      ensures this.crypto == crypto && this.users == users && this.blacklist == blacklist
    {
      this.crypto := crypto;
      this.users := users;
      this.blacklist := blacklist;
    }

    /** `POST /api/register`; `salt` is the hasher's random salt. */
    method Register(body: Option<RegisterForm>, salt: string) returns (response: Response)
      requires Valid()
      modifies this`users
      ensures Valid()
      ensures response == RegisterReply(body, old(users))
      ensures users == RegisterWrite(body, old(users), crypto, salt)
    {
      var rejection := RegisterRejection(body, users);
      if rejection.Some? {
        return rejection.value;
      }
      var f := body.value;
      users := users[f.email.value := NewUser(f, crypto, salt)];
      response := Registered;
    }

    /** `POST /api/login` at time `now`; reads the store only. */
    method Login(body: Option<LoginForm>, now: int) returns (response: Response)
      requires Valid()
      ensures response == LoginReply(body, users, crypto, now)
      ensures response.status == 200 ==>
        crypto.decode(response.token.value, now) == Payload(Claims(body.value.email.value, now + TokenLifetime))
    {
      if body.None? {
        return ServerError;
      }
      var f := body.value;
      if !Given(f.email) || !Given(f.password) {
        return MissingFields;
      }
      if f.email.value !in users {
        return InvalidCredentials;
      }
      var user := users[f.email.value];
      if !crypto.check(user.passwordHash, f.password.value) {
        return InvalidCredentials;
      }
      var token := crypto.encode(SessionClaims(f.email.value, now));
      response := Response(200, "Login successful", Some(token));
    }

    /** `POST /api/logout` at time `now`. */
    method Logout(header: Option<string>, now: int) returns (response: Response)
      requires Valid()
      modifies this`blacklist
      ensures Valid()
      ensures response == LogoutReply(header)
      ensures blacklist == LogoutWrite(header, now, old(blacklist))
    {
      match ReadAuthHeader(header)
      case NoHeader =>
        response := TokenMissing;
      case NoSecondSegment =>
        response := ServerError;
      case BearerToken(t) =>
        blacklist := blacklist[t := BlacklistEntry(t, now)];
        response := LoggedOut;
    }

    /** `check_blacklist`, run for a request whose `g` is `context`. */
    method CheckBlacklist(header: Option<string>, now: int, context: RequestContext) returns (outcome: GateOutcome)
      requires Valid()
      modifies context
      ensures outcome == GateDecision(header, now, blacklist, crypto)
      ensures context.currentUser ==
        if outcome.Admit? && outcome.identity.Some? then outcome.identity else old(context.currentUser)
    {
      match ReadAuthHeader(header)
      case NoHeader =>
        outcome := Admit(None);
      case NoSecondSegment =>
        outcome := Fault;
      case BearerToken(t) =>
        var decoded := crypto.decode(t, now);
        match decoded
        case ExpiredSignature =>
          outcome := Reject(TokenExpired);
        case BadToken =>
          outcome := Reject(InvalidToken);
        case Payload(claims) =>
          if t in blacklist {
            outcome := Reject(TokenInvalidated);
          } else {
            context.currentUser := Some(claims);
            outcome := Admit(Some(claims));
          }
    }
  }
}
