/**
 * Properties of the session lifecycle that relate several operations of the
 * core: registration, login, logout and the request gate, each applied to the
 * collections the previous one left behind.
 */
module Sessions {
  import opened Text
  import opened EmailPattern
  import opened Tokens
  import opened Auth

  /** The header a client sends with a session token. */
  function BearerHeader(token: string): Option<string>
  {
    Some("Bearer " + token)
  }

  /** Both handlers read a space-free token back out of its `Bearer` header. */
  lemma BearerHeaderCarries(token: string)
    requires ' ' !in token
    ensures ReadAuthHeader(BearerHeader(token)) == BearerToken(token)
  {
    ReadBearerHeader("Bearer", token);
    assert "Bearer " + token == "Bearer" + " " + token;
  }

  /** A header of three space-separated pieces carries the middle one, empty or not. */
  lemma MiddlePieceIsToken(first: string, middle: string, last: string)
    requires ' ' !in first && ' ' !in middle && ' ' !in last
    ensures ReadAuthHeader(Some(first + " " + middle + " " + last)) == BearerToken(middle)
  {
    var parts := [first, middle, last];
    JoinCons(middle, [last], ' ');
    JoinCons(first, [middle, last], ' ');
    assert [first] + [middle, last] == parts;
    assert Join(parts, ' ') == first + " " + middle + " " + last;
    SplitJoin(parts, ' ');
  }

  /** `split(' ')[1]` keeps empty pieces: a doubled space gives the empty token. */
  lemma DoubleSpaceGivesEmptyToken()
    ensures ReadAuthHeader(Some("Bearer  t")) == BearerToken("")
  {
    MiddlePieceIsToken("Bearer", "", "t");
    assert "Bearer" + " " + "" + " " + "t" == "Bearer  t";
  }

  /** `split(' ')[1]` stops at the next space: `a b c` gives `b`. */
  lemma ThreePiecesGiveMiddle()
    ensures ReadAuthHeader(Some("a b c")) == BearerToken("b")
  {
    MiddlePieceIsToken("a", "b", "c");
    assert "a" + " " + "b" + " " + "c" == "a b c";
  }

  /**
   * For any space-free token and any blacklist, the gate answers by the
   * decoder first: "Invalid token", "Token has expired", and for a token that
   * decodes, "Token has been invalidated" if it is blacklisted and admission
   * with its claims otherwise.
   */
  lemma GateOnToken(token: string, now: int, blacklist: map<string, BlacklistEntry>, c: Crypto)
    requires ' ' !in token
    ensures c.decode(token, now).BadToken? ==>
      GateDecision(BearerHeader(token), now, blacklist, c) == Reject(InvalidToken)
    ensures c.decode(token, now).ExpiredSignature? ==>
      GateDecision(BearerHeader(token), now, blacklist, c) == Reject(TokenExpired)
    ensures c.decode(token, now).Payload? && token in blacklist ==>
      GateDecision(BearerHeader(token), now, blacklist, c) == Reject(TokenInvalidated)
    ensures c.decode(token, now).Payload? && token !in blacklist ==>
      GateDecision(BearerHeader(token), now, blacklist, c) == Admit(Some(c.decode(token, now).claims))
  {
    BearerHeaderCarries(token);
  }

  /**
   * `register` fails in a fixed order, the first failed check deciding the
   * response, and writes the collection exactly when it answers 201.
   */
  lemma RegisterChecksInOrder(body: Option<RegisterForm>, users: map<string, User>, c: Crypto, salt: string)
    ensures body.None? ==> RegisterReply(body, users) == ServerError
    ensures body.Some? ==>
      var f := body.value;
      && (!Given(f.name) || !Given(f.surname) || !Given(f.email) || !Given(f.password) ==>
            RegisterReply(body, users) == MissingFields)
      && (Given(f.name) && Given(f.surname) && Given(f.email) && Given(f.password) ==>
            && (!IsValidEmail(f.email.value) ==> RegisterReply(body, users) == InvalidEmail)
            && (IsValidEmail(f.email.value) && f.email.value in users ==> RegisterReply(body, users) == EmailTaken)
            && (IsValidEmail(f.email.value) && f.email.value !in users ==> RegisterReply(body, users) == Registered))
    ensures RegisterReply(body, users) == Registered <==> RegisterWrite(body, users, c, salt) != users
  {
    if RegisterRejection(body, users).None? {
      var e := body.value.email.value;
      assert e in RegisterWrite(body, users, c, salt) && e !in users;
    }
  }

  /** A registered user logs in with the password they registered with. */
  lemma RegisterThenLogin(f: RegisterForm, users: map<string, User>, c: Crypto, salt: string, now: int)
    requires Sound(c)
    requires RegisterReply(Some(f), users) == Registered
    ensures LoginReply(Some(LoginForm(f.email, f.password)), RegisterWrite(Some(f), users, c, salt), c, now)
      == Response(200, "Login successful", Some(c.encode(SessionClaims(f.email.value, now))))
  {
    var stored := RegisterWrite(Some(f), users, c, salt)[f.email.value];
    assert stored.passwordHash == c.hash(salt, f.password.value);
  }

  /**
   * An unregistered e-mail and a wrong password are answered with the same
   * response, so a caller cannot tell which e-mails are registered.
   */
  lemma LoginHidesRegistration(
    email: string, password: string, unknownTo: map<string, User>, knownTo: map<string, User>, c: Crypto, now: int)
    requires email != "" && password != ""
    requires email !in unknownTo
    requires email in knownTo && !c.check(knownTo[email].passwordHash, password)
    ensures LoginReply(Some(LoginForm(Some(email), Some(password))), unknownTo, c, now)
      == LoginReply(Some(LoginForm(Some(email), Some(password))), knownTo, c, now)
      == InvalidCredentials
  {
  }

  /**
   * The token of a successful login admits its holder, with the e-mail it was
   * issued for, until an hour has passed, as long as it is not blacklisted.
   */
  lemma LoginThenGate(
    body: Option<LoginForm>, users: map<string, User>, c: Crypto, loginAt: int,
    now: int, blacklist: map<string, BlacklistEntry>)
    requires Sound(c)
    requires LoginReply(body, users, c, loginAt).status == 200
    requires now < loginAt + TokenLifetime
    requires LoginReply(body, users, c, loginAt).token.value !in blacklist
    ensures GateDecision(BearerHeader(LoginReply(body, users, c, loginAt).token.value), now, blacklist, c)
      == Admit(Some(Claims(body.value.email.value, loginAt + TokenLifetime)))
  {
    BearerHeaderCarries(LoginReply(body, users, c, loginAt).token.value);
  }

  /**
   * Once an hour has passed, a session token is answered "Token has expired"
   * whatever the blacklist holds.
   */
  lemma ExpiredSessionRejected(
    c: Crypto, email: string, issued: int, now: int, blacklist: map<string, BlacklistEntry>)
    requires Sound(c)
    requires issued + TokenLifetime <= now
    ensures GateDecision(BearerHeader(c.encode(SessionClaims(email, issued))), now, blacklist, c)
      == Reject(TokenExpired)
  {
    SessionTokenLifetime(c, email, issued, now);
    BearerHeaderCarries(c.encode(SessionClaims(email, issued)));
  }

  /**
   * The gate decodes before it looks at the blacklist: for a header without
   * a decodable token, the blacklist makes no difference to the outcome.
   */
  lemma DecodeBeforeBlacklist(
    header: Option<string>, now: int, c: Crypto,
    one: map<string, BlacklistEntry>, other: map<string, BlacklistEntry>)
    requires !(ReadAuthHeader(header).BearerToken? && c.decode(ReadAuthHeader(header).token, now).Payload?)
    ensures GateDecision(header, now, one, c) == GateDecision(header, now, other, c)
  {
  }

  /**
   * Logging out with `Bearer t` and then presenting `Bearer t` to the gate is
   * answered "Token has been invalidated" for any token that decodes.
   */
  lemma LogoutThenGate(
    token: string, blacklist: map<string, BlacklistEntry>, loggedOutAt: int, now: int, c: Crypto)
    requires ' ' !in token
    requires c.decode(token, now).Payload?
    ensures LogoutReply(BearerHeader(token)) == LoggedOut
    ensures GateDecision(BearerHeader(token), now, LogoutWrite(BearerHeader(token), loggedOutAt, blacklist), c)
      == Reject(TokenInvalidated)
  {
    BearerHeaderCarries(token);
  }

  /**
   * Logging out twice with the same header leaves the collection as a single
   * logout at the later time would: only the timestamp is overwritten.
   */
  lemma LogoutIdempotent(header: Option<string>, first: int, second: int, blacklist: map<string, BlacklistEntry>)
    ensures LogoutWrite(header, second, LogoutWrite(header, first, blacklist))
      == LogoutWrite(header, second, blacklist)
  {
  }

  /** The address of the lifecycle below passes the shape test. */
  lemma SampleAddressAccepted()
    ensures IsValidEmail("a@b.com")
  {
    assert "a@b.com" == "a" + ['@'] + "b.com";
    FirstIndexAfter("a", '@', "b.com");
  }

  /** An address with no dot after the '@' is rejected. */
  lemma DotlessAddressRejected()
    ensures !IsValidEmail("a@b")
  {
    assert "a@b" == "a" + ['@'] + "b";
    FirstIndexAfter("a", '@', "b");
  }

  /** An address with nothing before the '@' is rejected. */
  lemma EmptyLocalPartRejected()
    ensures !IsValidEmail("@b.com")
  {
    assert "@b.com" == "" + ['@'] + "b.com";
    FirstIndexAfter("", '@', "b.com");
  }

  /** An address with nothing between the '@' and the dot is rejected. */
  lemma EmptyDomainRejected()
    ensures !IsValidEmail("a@.com")
  {
    assert "a@.com" == "a" + ['@'] + ".com";
    FirstIndexAfter("a", '@', ".com");
  }

  /** `a@b.c@@ x` is accepted: only its prefix `a@b.c` is looked at. */
  lemma TrailingGarbageAccepted()
    ensures IsValidEmail("a@b.c@@ x")
  {
    assert "a@b.c" == "a" + ['@'] + "b.c";
    FirstIndexAfter("a", '@', "b.c");
    assert IsValidEmail("a@b.c");
    TrailingTextAccepted("a@b.c", "@@ x");
    assert "a@b.c" + "@@ x" == "a@b.c@@ x";
  }

  /**
   * The whole lifecycle for one user: registration answers 201, login 200
   * with a token, logout with that token 200, and a later request with the
   * token, within the hour, 401 "Token has been invalidated".
   */
  lemma Lifecycle(
    c: Crypto, salt: string, users: map<string, User>, blacklist: map<string, BlacklistEntry>,
    loginAt: int, logoutAt: int, now: int)
    requires Sound(c)
    requires "a@b.com" !in users
    requires now < loginAt + TokenLifetime
    ensures
      var form := RegisterForm(Some("A"), Some("B"), Some("a@b.com"), Some("pw123"), None);
      var users' := RegisterWrite(Some(form), users, c, salt);
      var login := LoginReply(Some(LoginForm(Some("a@b.com"), Some("pw123"))), users', c, loginAt);
      var header := BearerHeader(login.token.value);
      && RegisterReply(Some(form), users) == Registered
      && login.status == 200
      && LogoutReply(header) == LoggedOut
      && GateDecision(header, now, LogoutWrite(header, logoutAt, blacklist), c) == Reject(TokenInvalidated)
  {
    var form := RegisterForm(Some("A"), Some("B"), Some("a@b.com"), Some("pw123"), None);
    SampleAddressAccepted();
    RegisterThenLogin(form, users, c, salt, loginAt);
    var token := c.encode(SessionClaims("a@b.com", loginAt));
    SessionTokenLifetime(c, "a@b.com", loginAt, now);
    LogoutThenGate(token, blacklist, logoutAt, now, c);
  }

  /** A login for an e-mail that was never registered is answered 401. */
  lemma UnregisteredLogin(users: map<string, User>, password: string, c: Crypto, now: int)
    requires "x@y.com" !in users && password != ""
    ensures LoginReply(Some(LoginForm(Some("x@y.com"), Some(password))), users, c, now) == InvalidCredentials
  {
  }

  /** A header with no space fails the gate and makes `logout` answer 500, blacklisting nothing. */
  lemma HeaderWithoutSpace(
    header: string, now: int, blacklist: map<string, BlacklistEntry>, c: Crypto)
    requires header != "" && ' ' !in header
    ensures GateDecision(Some(header), now, blacklist, c) == Fault
    ensures LogoutReply(Some(header)) == ServerError
    ensures LogoutWrite(Some(header), now, blacklist) == blacklist
  {
  }
}
