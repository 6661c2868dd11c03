# doc_crm credential and session core, in Dafny

This project models the authentication backend of doc_crm
(`doc_crm_backend/reg_login_and_logout.py`). It covers four pieces:

- **`register`** checks a JSON body in a fixed order, then stores a user document under its e-mail key. The password is stored only as its bcrypt hash.
- **`login`** looks the user up, checks the password and signs a one-hour HS256 token carrying `{email, exp}`.
- **`logout`** writes the raw second piece of the `Authorization` header into the `blacklist` collection.
- **`check_blacklist`** is the per-request gate. It decodes the bearer token first, then consults the blacklist, and on success sets `g.current_user`.

Modules:

- `Text` (`text.dfy`) models Python's `str.split(' ')` and its inverse `' '.join`.
- `EmailPattern` (`email_pattern.dfy`) models `re.match(r'[^@]+@[^@]+\.[^@]+', email)`. It is proved equal to "some prefix matches the pattern".
- `Tokens` (`tokens.dfy`) holds the bcrypt hasher and the JWT codec. They are abstract functions, and the predicate `Sound` lists the only facts assumed of them.
- `Auth` (`auth.dfy`) holds each handler's decision as a function. It also has the `Server` class: the `users` and `blacklist` collections as maps, with one method per handler. `RequestContext` stands for Flask's `g`.
- `Sessions` (`sessions.dfy`) holds the lemmas that chain operations: register then login, login then gate, logout then gate, expiry and idempotence.

Inputs the source gets from the outside world are parameters:

- the clock is `now`, in whole seconds;
- bcrypt's random salt is `salt`;
- the signing secret is inside the `Crypto` functions;
- the store is the two maps.

The model follows the code as written, including these behaviours:

- **Gate, header without a space.** The gate splits on a single space character, not on any whitespace. When the header has no space, `split(' ')[1]` raises `IndexError`. Neither `except` clause of the gate catches it, so the outcome is `Fault` (an unhandled error, HTTP 500), not "Invalid token".
- **Logout, header without a space.** In `logout` the same `IndexError` is caught by the generic handler, which answers 500 "An error occurred".
- **Empty header.** An empty `Authorization` value is falsy in Python. Both the gate and `logout` treat it as no header.
- **Failed writes.** There is no distinct storage-failure outcome. Every exception a handler catches becomes the same 500 response.

The gate is registered with `@app.before_request` on the module's `app` (`doc_crm_backend/reg_login_and_logout.py:14`, `:54`). The handlers live on the `registration_app` blueprint (`:25`), which `doc_crm_backend/__init__.py:8,14` registers on a different Flask application. So in the deployed wiring the gate never runs in front of these routes. The lifecycle lemmas are therefore stated about the operations themselves: the collections one operation leaves are passed to the next.

## Model

| member | source | states |
|---|---|---|
| Text.Split | doc_crm_backend/reg_login_and_logout.py:59 | `split(' ')` always returns at least one piece; no piece contains the separator; there is exactly one piece iff the separator does not occur |
| Text.JoinSplit | doc_crm_backend/reg_login_and_logout.py:164 | joining the pieces of `split(' ')` with the separator gives back the original header |
| Text.SplitJoin | doc_crm_backend/reg_login_and_logout.py:164 | splitting a join of separator-free pieces gives back exactly those pieces |
| Text.SecondPiece | doc_crm_backend/reg_login_and_logout.py:59 | when the separator occurs, the second piece is the text after the first separator up to the next separator or the end |
| EmailPattern.IsValidEmailIffPatternMatches | doc_crm_backend/reg_login_and_logout.py:93 | the executable shape test accepts an address iff some prefix of it has the form `[^@]+@[^@]+\.[^@]+` (the `re.match` semantics, anchored only at the start) |
| EmailPattern.DotFollowsIff | doc_crm_backend/reg_login_and_logout.py:93 | the scan of the domain part finds a closing dot iff one exists before the next '@' with a non-'@' character after it |
| EmailPattern.TrailingTextAccepted | doc_crm_backend/reg_login_and_logout.py:93 | any text appended to an accepted address is accepted too |
| Sessions.SampleAddressAccepted | doc_crm_backend/reg_login_and_logout.py:93 | `a@b.com` passes the shape test |
| Sessions.DotlessAddressRejected | doc_crm_backend/reg_login_and_logout.py:93 | `a@b`, with no dot after the '@', fails the shape test |
| Sessions.EmptyLocalPartRejected | doc_crm_backend/reg_login_and_logout.py:93 | `@b.com`, with nothing before the '@', fails the shape test |
| Sessions.EmptyDomainRejected | doc_crm_backend/reg_login_and_logout.py:93 | `a@.com`, with nothing between the '@' and the dot, fails the shape test |
| Sessions.TrailingGarbageAccepted | doc_crm_backend/reg_login_and_logout.py:93 | `a@b.c@@ x` passes the shape test, because only its prefix `a@b.c` is matched |
| Tokens.SessionClaims | doc_crm_backend/reg_login_and_logout.py:147-150 | the signed claims carry the login e-mail and expire exactly 3600 seconds after issue |
| Tokens.SessionTokenLifetime | doc_crm_backend/reg_login_and_logout.py:147-150 | a session token decodes to its claims strictly within the hour after issue and is expired from then on |
| Auth.RegisterRejection | doc_crm_backend/reg_login_and_logout.py:80-100 | the body passes iff it is a JSON object, all four required fields are non-empty, the address has the right shape and no document exists for it; a rejection is a 400 or a 500 |
| Auth.NewUser | doc_crm_backend/reg_login_and_logout.py:103-111 | the stored document holds the given name, surname and e-mail, `hash(salt, password)` in place of the password, and the optional company name |
| Auth.RegisterWrite | doc_crm_backend/reg_login_and_logout.py:97-112 | on a pass, exactly one document is added, the new user's, under its e-mail; on a rejection the collection is unchanged; existing documents, a duplicate's included, are never changed; a collection whose documents sit under their own e-mails stays so |
| Sessions.RegisterChecksInOrder | doc_crm_backend/reg_login_and_logout.py:89-114 | a missing body gives 500; then a missing field gives 400 "Missing required fields"; then a bad address gives 400 "Invalid email address"; then a registered address gives 400 "Email already registered"; otherwise 201; the store is written iff the answer is 201 |
| Auth.LoginReply | doc_crm_backend/reg_login_and_logout.py:130-152 | a non-object body gives 500; a missing or empty field gives 400 "Missing required fields"; otherwise 200 with the token for `{email, now + 3600}` iff the user exists and the stored hash accepts the password, else 401 "Invalid email or password"; a token is returned iff the status is 200 |
| Sessions.LoginHidesRegistration | doc_crm_backend/reg_login_and_logout.py:137-144 | an unknown e-mail and a wrong password get the identical 401 "Invalid email or password" response |
| Sessions.UnregisteredLogin | doc_crm_backend/reg_login_and_logout.py:137-138 | a login for an e-mail that was never registered is answered 401 "Invalid email or password" |
| Sessions.RegisterThenLogin | doc_crm_backend/reg_login_and_logout.py:143-152 | after a successful registration, logging in with the same e-mail and password answers 200 with the token for that e-mail |
| Auth.ReadAuthHeader | doc_crm_backend/reg_login_and_logout.py:56-59 | an absent or empty header counts as no header; a non-empty header without a space has no second piece; otherwise the token is the text after the first space, up to the next space or the end |
| Auth.ReadBearerHeader | doc_crm_backend/reg_login_and_logout.py:59 | `"<scheme> <token>"` with space-free parts yields exactly `token` |
| Sessions.MiddlePieceIsToken | doc_crm_backend/reg_login_and_logout.py:59 | a header of three space-separated pieces carries the middle one, even when it is empty |
| Sessions.DoubleSpaceGivesEmptyToken | doc_crm_backend/reg_login_and_logout.py:59 | `Bearer  t`, with two spaces, carries the empty token |
| Sessions.ThreePiecesGiveMiddle | doc_crm_backend/reg_login_and_logout.py:59 | `a b c` carries `b` |
| Sessions.BearerHeaderCarries | doc_crm_backend/reg_login_and_logout.py:59 | `Bearer <token>` carries exactly `token` when the token has no space |
| Auth.LogoutWrite | doc_crm_backend/reg_login_and_logout.py:162-175 | no header (absent or empty) gives 400 "Token missing"; a header without a second piece gives 500; a header with one gives 200 "Logout successful", and that piece is blacklisted verbatim with the logout time; all other entries are unchanged and nothing is removed; without a second piece the blacklist is unchanged |
| Sessions.LogoutIdempotent | doc_crm_backend/reg_login_and_logout.py:167-171 | logging out twice with the same header leaves the blacklist as one logout at the later time: only the timestamp changes |
| Sessions.HeaderWithoutSpace | doc_crm_backend/reg_login_and_logout.py:59 | a non-empty header with no space makes the gate fault, and makes logout answer 500 without blacklisting anything |
| Auth.GateDecision | doc_crm_backend/reg_login_and_logout.py:56-72 | without a header the request is admitted with no identity; a header without a second piece faults; for a token the decoder decides first: undecodable gives 401 "Invalid token" and expired gives 401 "Token has expired"; a token that decodes gives 401 "Token has been invalidated" if blacklisted, and otherwise admission with its decoded claims |
| Sessions.GateOnToken | doc_crm_backend/reg_login_and_logout.py:56-72 | for any space-free token in a `Bearer` header and any blacklist: "Invalid token" if it does not decode, "Token has expired" if expired, "Token has been invalidated" if it decodes and is blacklisted, and admission with its claims otherwise |
| Sessions.DecodeBeforeBlacklist | doc_crm_backend/reg_login_and_logout.py:60-66 | when the header has no decodable token, the gate's outcome does not depend on the blacklist |
| Sessions.ExpiredSessionRejected | doc_crm_backend/reg_login_and_logout.py:69-70 | an hour or more after issue, a session token gets 401 "Token has expired" whatever the blacklist holds |
| Sessions.LoginThenGate | doc_crm_backend/reg_login_and_logout.py:60-68 | within the hour, the token of a successful login admits the request, if it is not blacklisted, with the login's e-mail and expiry as identity |
| Sessions.LogoutThenGate | doc_crm_backend/reg_login_and_logout.py:63-66 | after logout with `Bearer t`, the gate answers 401 "Token has been invalidated" to `Bearer t` for any token that decodes |
| Sessions.Lifecycle | doc_crm_backend/reg_login_and_logout.py:77-178 | register `a@b.com`/`pw123` gives 201; login gives 200 and a token; logout with it gives 200; the gate then rejects the token within the hour with "Token has been invalidated" |
| Auth.Server.constructor | doc_crm_backend/reg_login_and_logout.py:23 | a server starts over the store's collections as found, with the libraries and secret fixed for the process |
| Auth.Server.Register | doc_crm_backend/reg_login_and_logout.py:77-117 | answers `RegisterReply` and leaves `users` equal to `RegisterWrite` of the old collection |
| Auth.Server.Login | doc_crm_backend/reg_login_and_logout.py:121-155 | answers `LoginReply` and changes nothing; the token of a 200 decodes at the time of login to the claims `{email, now + 3600}` |
| Auth.Server.Logout | doc_crm_backend/reg_login_and_logout.py:159-178 | answers `LogoutReply` and leaves `blacklist` equal to `LogoutWrite` of the old collection |
| Auth.Server.CheckBlacklist | doc_crm_backend/reg_login_and_logout.py:54-72 | returns `GateDecision`; sets `g.current_user` to the decoded claims exactly when it admits with an identity, and leaves it alone otherwise |

## Left out

- Static file serving is I/O and is not part of this model: `serve` (`doc_crm_backend/reg_login_and_logout.py:32-50`) and `serve_static` in `doc_crm_backend/__init__.py`.
- Start-up plumbing is not modelled: the Firestore client set-up, the Flask, CORS and Bcrypt wiring, and the configuration loading in `doc_crm_backend/config.py`.
- The frontend is not modelled: the React components, `App.js` and the webpack configuration.
- The internals of bcrypt and of HS256 signing and verification are not modelled. They are function parameters, and `Sound` states the facts assumed of them: a stored hash verifies its own password; an issued token decodes to its claims until `exp` and is expired from then on; an issued token has no space in it.
- `jwt.decode` receives the secret wrapped in a list (`[SECRET_KEY]`). What the real library does with such a key is not modelled. `decode` is abstract and returns claims, "expired" or "invalid". An exception of another kind escaping the gate is not represented.
- Store failures are not modelled. A `get` or `set` that raises would give the handlers' 500 and an unhandled error in the gate. The collections are plain maps that always answer.
- Firestore's rules for document ids are not modelled, for example an empty token or a token containing `/`.
- JSON field values other than strings (a number where a name is expected, say) are not modelled. Only a body that is not a JSON object is, as the 500 answer.
- The `error` text of 500 responses, `str(e)`, is not modelled.
- Sub-second time is not modelled. Times are whole seconds and `exp` is `now + 3600`.
- Concurrency between requests is not modelled.
- Which Flask application dispatches which route is not modelled (see above).
- The password hash is not proved to differ from the plaintext. The model shows that the stored field is `hash(salt, password)`, but the abstract hasher promises nothing about how its output compares with its input.
