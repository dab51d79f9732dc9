/** The user handlers of internal/handlers/userHandlers.go: registration,
    login, reading and updating the current user, and logout. Each takes the
    user storage, the decoded request body (None when the JSON does not
    decode), the oracles it needs and one fault flag per storage call. */
module UserHandlers {
  import opened Wrappers
  import opened Tables
  import opened Records
  import opened Errors
  import opened UserRepository
  import opened Http
  import opened Middleware

  /** The message a failed validation answers with; the validator library
      writes its own text, which is not part of this model. */
  const ValidationFailure: string := "validation failed"

  // ---------------------------------------------------------------------
  // Validation

  datatype RegisterRequest = RegisterRequest(username: string, email: string, password: string)

  /** The validate tags of RequestUser: username required with at least 5
      characters, email required and well-formed (`isEmail` stands for the
      validator's email rule), password required with at least 5 characters. */
  predicate ValidRegistration(req: RegisterRequest, isEmail: string -> bool)
  {
    |req.username| >= 5 && req.email != "" && isEmail(req.email) && |req.password| >= 5
  }

  datatype LoginRequest = LoginRequest(email: string, password: string)

  /** The validate tags of the login payload. */
  predicate ValidLogin(req: LoginRequest, isEmail: string -> bool)
  {
    req.email != "" && isEmail(req.email) && |req.password| >= 5
  }

  // ---------------------------------------------------------------------
  // The token branch of login and update

  /** What errors.Is is asked to find at userHandlers.go:157 and 238: an
      error allocated on the spot by errors.New("no result"). */
  const AsWrittenNoResult: ErrorTarget := NewlyAllocated("no result")

  /** What those lines evidently mean: the repository's ErrNoResult. */
  const IntendedNoResult: ErrorTarget := Sentinel(NoResult)

  /** The outcome of looking up the caller's token. */
  datatype TokenStep = UseStored(token: string) | Mint | Fail(reply: Response)

  /** The token branch: a stored token is reused; an error that errors.Is
      matches with `noResult` leads to minting a new token; any other error
      is answered with 422. */
  function TokenDecision(found: Result<TokenRow, RepoError>, noResult: ErrorTarget): TokenStep
  {
    match found
    case Ok(t) => UseStored(t.token)
    case Err(e) =>
      if ErrorsIs(e, noResult) then Mint
      else Fail(ErrorReply(StatusUnprocessableEntity, "Failed to retrieve authentication token"))
  }

  /** As written, the mint branch is dead: every lookup error, ErrNoResult
      included, ends in 422. */
  lemma AsWrittenNeverMints(found: Result<TokenRow, RepoError>)
    ensures TokenDecision(found, AsWrittenNoResult) != Mint
    ensures found.Err? ==>
      TokenDecision(found, AsWrittenNoResult) ==
      Fail(ErrorReply(StatusUnprocessableEntity, "Failed to retrieve authentication token"))
  {
  }

  /** With the sentinel, a user without a token gets a new one, and only
      then. */
  lemma IntendedMintsExactlyOnNoResult(found: Result<TokenRow, RepoError>)
    ensures TokenDecision(found, IntendedNoResult) == Mint <==> found == Err(NoResult)
  {
  }

  /** Look up the caller's token and, when TokenDecision says so, mint and
      store a new one. Ok carries the token for the response, Err the error
      reply. */
  method ObtainToken(store: UserStorage, uid: string, noResult: ErrorTarget, mint: string -> string,
                     newTokenId: string, now: Time, tokenEnd: Time, lookupFault: bool, addFault: bool)
    returns (r: Result<string, Response>)
    requires store.Valid()
    modifies store`tokens
    ensures store.Valid()
    ensures var step := TokenDecision(old(store.FindTokenByUID(uid, lookupFault)), noResult);
      match step
      case UseStored(token) => r == Ok(token) && store.tokens == old(store.tokens)
      case Fail(reply) => r == Err(reply) && store.tokens == old(store.tokens)
      case Mint =>
        if mint(uid) != "" && uid != "" && !addFault then
          r == Ok(mint(uid)) && store.tokens == old(store.tokens) + [TokenRow(newTokenId, mint(uid), now, tokenEnd, uid)]
        else
          r == Err(ErrorReply(StatusUnprocessableEntity, "Failed to create authentication token")) &&
          store.tokens == old(store.tokens)
    ensures r.Ok? ==> exists t :: t in store.tokens && t.uid == uid && t.token == r.value
    ensures r.Err? ==> r.error.ErrorReply? && r.error.status == StatusUnprocessableEntity && store.tokens == old(store.tokens)
    ensures noResult == AsWrittenNoResult ==> store.tokens == old(store.tokens)
  {
    AsWrittenNeverMints(store.FindTokenByUID(uid, lookupFault));
    var step := TokenDecision(store.FindTokenByUID(uid, lookupFault), noResult);
    match step
    case UseStored(token) =>
      r := Ok(token);
    case Fail(reply) =>
      r := Err(reply);
    case Mint =>
      var token := mint(uid);
      var err := store.AddToken(token, uid, newTokenId, now, tokenEnd, addFault);
      if err.Some? {
        r := Err(ErrorReply(StatusUnprocessableEntity, "Failed to create authentication token"));
      } else {
        r := Ok(token);
      }
  }

  // ---------------------------------------------------------------------
  // Handlers

  /** The users row registration inserts for `req` with verifier `v`. */
  function NewUserRow(req: RegisterRequest, v: Verifier, newUserId: string, now: Time): UserRow
  {
    UserRow(newUserId, req.username, req.email, v.hash, v.salt, "", "", now, now)
  }

  /** Whether RegisterUser stores the new user: the verifier is derived, the
      insert does not fail and no unique key collides. */
  predicate InsertSucceeds(users: seq<UserRow>, req: RegisterRequest, derive: string -> Option<Verifier>,
                           newUserId: string, now: Time, insertFault: bool)
  {
    derive(req.password).Some? && !insertFault &&
    Violation(users, NewUserRow(req, derive(req.password).value, newUserId, now)).None?
  }

  /** UserRegisterHandler: decode, validate, register, read the new user
      back by username, mint a token for its id and store it, then answer
      201 with the user and that token. `derive` stands for the password
      hashing, `mint` for security.GenerateToken; `newUserId` and
      `newTokenId` are the ids the database assigns and `tokenEnd` the
      tokens table's default end date. */
  method UserRegisterHandler(store: UserStorage, body: Option<RegisterRequest>, isEmail: string -> bool,
                             derive: string -> Option<Verifier>, mint: string -> string,
                             newUserId: string, newTokenId: string, now: Time, tokenEnd: Time,
                             insertFault: bool, lookupFault: bool, addFault: bool)
    returns (resp: Response)
    requires store.Valid()
    modifies store`users, store`tokens
    ensures store.Valid()
    ensures body.None? ==>
      resp == ErrorReply(StatusUnprocessableEntity, "Invalid request format") &&
      store.users == old(store.users) && store.tokens == old(store.tokens)
    ensures body.Some? && !ValidRegistration(body.value, isEmail) ==>
      resp == ErrorReply(StatusUnprocessableEntity, ValidationFailure) &&
      store.users == old(store.users) && store.tokens == old(store.tokens)
    ensures resp.status == StatusCreated <==>
      body.Some? && ValidRegistration(body.value, isEmail) && derive(body.value.password).Some? &&
      !insertFault && !lookupFault && !addFault && newUserId != "" && mint(newUserId) != "" &&
      Violation(old(store.users), UserRow(newUserId, body.value.username, body.value.email,
        derive(body.value.password).value.hash, derive(body.value.password).value.salt, "", "", now, now)).None?
    ensures resp.status == StatusCreated ==>
      var req := body.value;
      var v := derive(req.password).value;
      resp == UserReply(StatusCreated, UserResponse(newUserId, req.email, req.username, "", "", now, now, mint(newUserId))) &&
      store.users == old(store.users) + [UserRow(newUserId, req.username, req.email, v.hash, v.salt, "", "", now, now)] &&
      store.tokens == old(store.tokens) + [TokenRow(newTokenId, mint(newUserId), now, tokenEnd, newUserId)]
    ensures resp.status != StatusCreated ==>
      resp.ErrorReply? && resp.status == StatusUnprocessableEntity && store.tokens == old(store.tokens)
    ensures body.Some? && ValidRegistration(body.value, isEmail) &&
            !InsertSucceeds(old(store.users), body.value, derive, newUserId, now, insertFault) ==>
      resp == ErrorReply(StatusUnprocessableEntity, "Failed to register user") &&
      store.users == old(store.users) && store.tokens == old(store.tokens)
    ensures body.Some? && ValidRegistration(body.value, isEmail) &&
            InsertSucceeds(old(store.users), body.value, derive, newUserId, now, insertFault) ==>
      store.users == old(store.users) + [NewUserRow(body.value, derive(body.value.password).value, newUserId, now)] &&
      (lookupFault ==>
        resp == ErrorReply(StatusUnprocessableEntity, "Failed to retrieve user data") &&
        store.tokens == old(store.tokens)) &&
      (!lookupFault && (newUserId == "" || mint(newUserId) == "" || addFault) ==>
        resp == ErrorReply(StatusUnprocessableEntity, "Failed to create authentication token") &&
        store.tokens == old(store.tokens))
  {
    if body.None? {
      return ErrorReply(StatusUnprocessableEntity, "Invalid request format");
    }
    var req := body.value;
    if !ValidRegistration(req, isEmail) {
      return ErrorReply(StatusUnprocessableEntity, ValidationFailure);
    }
    var err := store.RegisterUser(req.username, req.email, req.password, derive, newUserId, now, insertFault);
    if err.Some? {
      return ErrorReply(StatusUnprocessableEntity, "Failed to register user");
    }
    var row := UserRow(newUserId, req.username, req.email, derive(req.password).value.hash,
                       derive(req.password).value.salt, "", "", now, now);
    assert row in store.users;
    AuthLookupByUsername(store, row);
    var newUser := store.GetUserForAuth("", req.username, lookupFault);
    if newUser.Err? {
      return ErrorReply(StatusUnprocessableEntity, "Failed to retrieve user data");
    }
    var u := newUser.value;
    var token := mint(u.id);
    err := store.AddToken(token, u.id, newTokenId, now, tokenEnd, addFault);
    if err.Some? {
      return ErrorReply(StatusUnprocessableEntity, "Failed to create authentication token");
    }
    resp := UserReply(StatusCreated, UserResponse(u.id, u.email, u.username, u.bio, u.image, u.createdAt, u.updatedAt, token));
  }

  /** GetUserHandler: the current user with the first token stored for it. */
  function GetUserHandler(store: UserStorage, uid: string, userFault: bool, tokenFault: bool): (resp: Response)
    reads store
    ensures store.GetUserForApi(uid, userFault).Err? ==>
      resp == ErrorReply(StatusUnprocessableEntity, "Failed to retrieve user data")
    ensures store.GetUserForApi(uid, userFault).Ok? && store.FindTokenByUID(uid, tokenFault).Err? ==>
      resp == ErrorReply(StatusUnprocessableEntity, "Failed to retrieve authentication token")
    ensures resp.status == StatusOK <==>
      store.GetUserForApi(uid, userFault).Ok? && store.FindTokenByUID(uid, tokenFault).Ok?
    ensures resp.status == StatusOK ==>
      resp.UserReply? && resp.user.id == uid &&
      exists t :: t in store.tokens && t.uid == uid && t.token == resp.user.token
    ensures resp.status == StatusOK ==>
      exists u, t :: u in store.users && u.id == uid && t in store.tokens && t.uid == uid &&
        resp == UserReply(StatusOK, UserResponse(u.id, u.email, u.username, u.bio, u.image,
                                                 u.createdAt, u.updatedAt, t.token))
  {
    match store.GetUserForApi(uid, userFault)
    case Err(_) => ErrorReply(StatusUnprocessableEntity, "Failed to retrieve user data")
    case Ok(user) =>
      match store.FindTokenByUID(uid, tokenFault)
      case Err(_) => ErrorReply(StatusUnprocessableEntity, "Failed to retrieve authentication token")
      case Ok(token) =>
        UserReply(StatusOK, UserResponse(user.id, user.email, user.username, user.bio, user.image,
                                         user.createdAt, user.updatedAt, token.token))
  }

  /** LoginUserHandler: decode, validate, find the user by email, check the
      password (`verify(password, hash, salt)` stands for
      security.ComparePasswords), then answer 200 with the user's token as
      the token branch decides (`noResult` is the target of its errors.Is). */
  method LoginUserHandler(store: UserStorage, body: Option<LoginRequest>, isEmail: string -> bool,
                          verify: (string, string, string) -> bool, noResult: ErrorTarget,
                          mint: string -> string, newTokenId: string, now: Time, tokenEnd: Time,
                          userFault: bool, tokenFault: bool, addFault: bool)
    returns (resp: Response)
    requires store.Valid()
    modifies store`tokens
    ensures store.Valid()
    ensures body.None? ==> resp == ErrorReply(StatusUnprocessableEntity, "Invalid request format")
    ensures body.Some? && !ValidLogin(body.value, isEmail) ==> resp == ErrorReply(StatusUnprocessableEntity, ValidationFailure)
    ensures resp == ErrorReply(StatusUnauthorized, "Invalid credentials") <==>
      body.Some? && ValidLogin(body.value, isEmail) && !CredentialsAccepted(store, body.value, verify, userFault)
    ensures resp.status == StatusOK ==>
      body.Some? && resp.UserReply? &&
      var u := store.GetUserForAuth(body.value.email, "", userFault).value;
      u in store.users && u.email == body.value.email &&
      verify(body.value.password, u.passwordHash, u.passwordSalt) &&
      resp.user == UserResponse(u.id, u.email, u.username, u.bio, u.image, u.createdAt, u.updatedAt, resp.user.token) &&
      exists t :: t in store.tokens && t.uid == u.id && t.token == resp.user.token
    ensures body.Some? && ValidLogin(body.value, isEmail) && CredentialsAccepted(store, body.value, verify, userFault) ==>
      var u := store.GetUserForAuth(body.value.email, "", userFault).value;
      match TokenDecision(old(store.FindTokenByUID(u.id, tokenFault)), noResult)
      case Fail(reply) => resp == reply
      case UseStored(token) =>
        resp == UserReply(StatusOK, UserResponse(u.id, u.email, u.username, u.bio, u.image, u.createdAt, u.updatedAt, token))
      case Mint =>
        if mint(u.id) != "" && u.id != "" && !addFault then
          resp == UserReply(StatusOK, UserResponse(u.id, u.email, u.username, u.bio, u.image, u.createdAt, u.updatedAt, mint(u.id))) &&
          store.tokens == old(store.tokens) + [TokenRow(newTokenId, mint(u.id), now, tokenEnd, u.id)]
        else
          resp == ErrorReply(StatusUnprocessableEntity, "Failed to create authentication token")
    ensures noResult == AsWrittenNoResult ==> store.tokens == old(store.tokens)
    ensures resp.status != StatusOK ==> resp.ErrorReply? && store.tokens == old(store.tokens)
  {
    if body.None? {
      return ErrorReply(StatusUnprocessableEntity, "Invalid request format");
    }
    var req := body.value;
    if !ValidLogin(req, isEmail) {
      return ErrorReply(StatusUnprocessableEntity, ValidationFailure);
    }
    var found := store.GetUserForAuth(req.email, "", userFault);
    if found.Err? {
      return ErrorReply(StatusUnauthorized, "Invalid credentials");
    }
    var user := found.value;
    if !verify(req.password, user.passwordHash, user.passwordSalt) {
      return ErrorReply(StatusUnauthorized, "Invalid credentials");
    }
    var token := ObtainToken(store, user.id, noResult, mint, newTokenId, now, tokenEnd, tokenFault, addFault);
    if token.Err? {
      return token.error;
    }
    resp := UserReply(StatusOK, UserResponse(user.id, user.email, user.username, user.bio, user.image,
                                             user.createdAt, user.updatedAt, token.value));
  }

  /** The user with the request's email exists and the password matches its
      verifier; login answers both failures alike. */
  predicate CredentialsAccepted(store: UserStorage, req: LoginRequest, verify: (string, string, string) -> bool,
                                userFault: bool)
    reads store`users
  {
    var found := store.GetUserForAuth(req.email, "", userFault);
    found.Ok? && verify(req.password, found.value.passwordHash, found.value.passwordSalt)
  }

  datatype UpdatePayload = UpdatePayload(email: string, username: string, bio: string, image: string)

  /** The record UpdateUserHandler writes back: each of email, username,
      bio and image takes the payload's value when that is non-empty and
      keeps the stored one otherwise; nothing else changes. */
  function Merged(u: UserRow, p: UpdatePayload): (r: UserRow)
    ensures r.id == u.id && r.passwordHash == u.passwordHash && r.passwordSalt == u.passwordSalt
    ensures r.createdAt == u.createdAt && r.updatedAt == u.updatedAt
    ensures p.email != "" ==> r.email == p.email
    ensures p.email == "" ==> r.email == u.email
    ensures p.username != "" ==> r.username == p.username
    ensures p.username == "" ==> r.username == u.username
    ensures p.bio != "" ==> r.bio == p.bio
    ensures p.bio == "" ==> r.bio == u.bio
    ensures p.image != "" ==> r.image == p.image
    ensures p.image == "" ==> r.image == u.image
  {
    u.(email := if p.email != "" then p.email else u.email,
       username := if p.username != "" then p.username else u.username,
       bio := if p.bio != "" then p.bio else u.bio,
       image := if p.image != "" then p.image else u.image)
  }

  /** The field-by-field overwrite of UpdateUserHandler. */
  method MergeFields(stored: UserRow, payload: UpdatePayload) returns (user: UserRow)
    ensures user == Merged(stored, payload)
  {
    user := stored;
    if payload.email != "" {
      user := user.(email := payload.email);
    }
    if payload.username != "" {
      user := user.(username := payload.username);
    }
    if payload.bio != "" {
      user := user.(bio := payload.bio);
    }
    if payload.image != "" {
      user := user.(image := payload.image);
    }
  }

  /** Applying the same payload twice is applying it once. */
  lemma MergeIdempotent(u: UserRow, p: UpdatePayload)
    ensures Merged(Merged(u, p), p) == Merged(u, p)
  {
  }

  /** An all-empty payload leaves the record as it was. */
  lemma MergeEmptyPayload(u: UserRow)
    ensures Merged(u, UpdatePayload("", "", "", "")) == u
  {
  }

  /** The users table after UpdateUser wrote `m` over the row with id `uid`. */
  ghost predicate Rewritten(before: seq<UserRow>, after: seq<UserRow>, uid: string, m: UserRow, now: Time)
  {
    |after| == |before| &&
    forall k :: 0 <= k < |after| ==>
      after[k] == if before[k].id == uid then Updated(before[k], m, now) else before[k]
  }

  /** What UpdateUserHandler does once the merged record `m` is built and
      the caller's row exists: a failing or clashing write answers 400 and
      changes nothing; otherwise the row is rewritten, and stays rewritten
      whatever the token branch then answers. `found` is the caller's token
      lookup. */
  ghost predicate UpdateOutcome(usersBefore: seq<UserRow>, usersAfter: seq<UserRow>,
                                tokensBefore: seq<TokenRow>, tokensAfter: seq<TokenRow>, resp: Response,
                                m: UserRow, found: Result<TokenRow, RepoError>, noResult: ErrorTarget,
                                mint: string -> string, newTokenId: string, now: Time, tokenEnd: Time,
                                writeFault: bool, addFault: bool)
  {
    if writeFault || UpdateViolation(usersBefore, m).Some? then
      resp == ErrorReply(StatusBadRequest, "Failed to update user data") &&
      usersAfter == usersBefore && tokensAfter == tokensBefore
    else
      Rewritten(usersBefore, usersAfter, m.id, m, now) &&
      match TokenDecision(found, noResult)
      case Fail(reply) => resp == reply && tokensAfter == tokensBefore
      case UseStored(token) =>
        resp == UserReply(StatusOK, UserResponse(m.id, m.email, m.username, m.bio, m.image, m.createdAt, m.updatedAt, token)) &&
        tokensAfter == tokensBefore
      case Mint =>
        if mint(m.id) != "" && !addFault then
          resp == UserReply(StatusOK, UserResponse(m.id, m.email, m.username, m.bio, m.image, m.createdAt, m.updatedAt, mint(m.id))) &&
          tokensAfter == tokensBefore + [TokenRow(newTokenId, mint(m.id), now, tokenEnd, m.id)]
        else
          resp == ErrorReply(StatusUnprocessableEntity, "Failed to create authentication token") &&
          tokensAfter == tokensBefore
  }

  /** The write-back and token branch of UpdateUserHandler for the merged
      record `m` of an existing user. */
  method WriteBackAndAnswer(store: UserStorage, m: UserRow, noResult: ErrorTarget, mint: string -> string,
                            newTokenId: string, now: Time, tokenEnd: Time,
                            writeFault: bool, tokenFault: bool, addFault: bool)
    returns (resp: Response)
    requires store.Valid()
    requires m.id != "" && exists r :: r in store.users && r.id == m.id
    modifies store`users, store`tokens
    ensures store.Valid()
    ensures UpdateOutcome(old(store.users), store.users, old(store.tokens), store.tokens, resp, m,
                          old(store.FindTokenByUID(m.id, tokenFault)), noResult, mint, newTokenId, now, tokenEnd,
                          writeFault, addFault)
    ensures resp.status == StatusOK ==>
      resp.UserReply? &&
      resp.user == UserResponse(m.id, m.email, m.username, m.bio, m.image, m.createdAt, m.updatedAt, resp.user.token) &&
      Rewritten(old(store.users), store.users, m.id, m, now) &&
      exists t :: t in store.tokens && t.uid == m.id && t.token == resp.user.token
    ensures resp == ErrorReply(StatusBadRequest, "Failed to update user data") ==>
      store.users == old(store.users) && store.tokens == old(store.tokens)
    ensures noResult == AsWrittenNoResult ==> store.tokens == old(store.tokens)
  {
    var err := store.UpdateUser(m, now, writeFault);
    if err.Some? {
      return ErrorReply(StatusBadRequest, "Failed to update user data");
    }
    var token := ObtainToken(store, m.id, noResult, mint, newTokenId, now, tokenEnd, tokenFault, addFault);
    if token.Err? {
      return token.error;
    }
    resp := UserReply(StatusOK, UserResponse(m.id, m.email, m.username, m.bio, m.image,
                                             m.createdAt, m.updatedAt, token.value));
  }

  /** UpdateUserHandler: decode, fetch the current user, overwrite the
      fields the payload provides one by one, write the record back, then
      answer 200 with the merged record and a token from the token branch.
      The timestamps in the answer are those read before the update. When
      the token branch fails, the answer is 422 but the row has already been
      rewritten. */
  method UpdateUserHandler(store: UserStorage, uid: string, body: Option<UpdatePayload>,
                           noResult: ErrorTarget, mint: string -> string, newTokenId: string,
                           now: Time, tokenEnd: Time,
                           readFault: bool, writeFault: bool, tokenFault: bool, addFault: bool)
    returns (resp: Response)
    requires store.Valid()
    modifies store`users, store`tokens
    ensures store.Valid()
    ensures body.None? ==>
      resp == ErrorReply(StatusUnprocessableEntity, "Invalid request format") &&
      store.users == old(store.users) && store.tokens == old(store.tokens)
    ensures body.Some? && old(store.GetUserForUpdate(uid, readFault)).Err? ==>
      resp == ErrorReply(StatusUnauthorized, "Failed to retrieve user data") &&
      store.users == old(store.users) && store.tokens == old(store.tokens)
    ensures body.Some? && old(store.GetUserForUpdate(uid, readFault)).Ok? ==>
      UpdateOutcome(old(store.users), store.users, old(store.tokens), store.tokens, resp,
                    Merged(old(store.GetUserForUpdate(uid, readFault)).value, body.value),
                    old(store.FindTokenByUID(uid, tokenFault)), noResult, mint, newTokenId, now, tokenEnd,
                    writeFault, addFault)
    ensures resp == ErrorReply(StatusBadRequest, "Failed to update user data") ==>
      store.users == old(store.users) && store.tokens == old(store.tokens)
    ensures resp.status == StatusOK ==>
      body.Some? && old(store.GetUserForUpdate(uid, readFault)).Ok? &&
      var m := Merged(old(store.GetUserForUpdate(uid, readFault)).value, body.value);
      resp.UserReply? &&
      resp.user == UserResponse(m.id, m.email, m.username, m.bio, m.image, m.createdAt, m.updatedAt, resp.user.token) &&
      Rewritten(old(store.users), store.users, uid, m, now) &&
      exists t :: t in store.tokens && t.uid == uid && t.token == resp.user.token
    ensures noResult == AsWrittenNoResult ==> store.tokens == old(store.tokens)
  {
    if body.None? {
      return ErrorReply(StatusUnprocessableEntity, "Invalid request format");
    }
    var payload := body.value;
    var fetched := store.GetUserForUpdate(uid, readFault);
    if fetched.Err? {
      return ErrorReply(StatusUnauthorized, "Failed to retrieve user data");
    }
    var user := MergeFields(fetched.value, payload);
    resp := WriteBackAndAnswer(store, user, noResult, mint, newTokenId, now, tokenEnd, writeFault, tokenFault, addFault);
  }

  /** The update handler sits behind AuthMiddleware, and a caller it admits
      holds a stored token row, so the token lookup after the write finds
      one unless that row is deleted in between (a concurrent logout). */
  lemma AdmittedCallerHasToken(store: UserStorage, header: string, decode: string -> Option<string>,
                               now: Time, lookupFault: bool)
    requires store.Valid()
    requires AuthMiddleware(store, header, decode, now, lookupFault).Admit?
    ensures store.FindTokenByUID(AuthMiddleware(store, header, decode, now, lookupFault).uid, false).Ok?
  {
    var uid := AuthMiddleware(store, header, decode, now, lookupFault).uid;
    var t :| t in store.tokens && t.token == TokenPart(header) && t.uid == uid && t.endDate > now;
    assert uid != "";
  }

  /** As written, a caller whose token rows are gone by the time of the
      lookup (deleted after the gate admitted them) gets 422, although the
      write has already been made. */
  lemma UpdateWithoutTokenAsWritten(usersBefore: seq<UserRow>, usersAfter: seq<UserRow>,
                                    tokensBefore: seq<TokenRow>, tokensAfter: seq<TokenRow>, resp: Response,
                                    m: UserRow, mint: string -> string, newTokenId: string, now: Time,
                                    tokenEnd: Time, addFault: bool)
    requires UpdateOutcome(usersBefore, usersAfter, tokensBefore, tokensAfter, resp, m, Err(NoResult),
                           AsWrittenNoResult, mint, newTokenId, now, tokenEnd, false, addFault)
    requires UpdateViolation(usersBefore, m).None?
    ensures resp == ErrorReply(StatusUnprocessableEntity, "Failed to retrieve authentication token")
    ensures Rewritten(usersBefore, usersAfter, m.id, m, now) && tokensAfter == tokensBefore
  {
    AsWrittenNeverMints(Err(NoResult));
  }

  /** With the sentinel, the same update answers 200 with a newly minted
      token, which is stored. */
  lemma UpdateWithoutTokenIntended(usersBefore: seq<UserRow>, usersAfter: seq<UserRow>,
                                   tokensBefore: seq<TokenRow>, tokensAfter: seq<TokenRow>, resp: Response,
                                   m: UserRow, mint: string -> string, newTokenId: string, now: Time,
                                   tokenEnd: Time)
    requires UpdateOutcome(usersBefore, usersAfter, tokensBefore, tokensAfter, resp, m, Err(NoResult),
                           IntendedNoResult, mint, newTokenId, now, tokenEnd, false, false)
    requires UpdateViolation(usersBefore, m).None? && mint(m.id) != ""
    ensures resp.UserReply? && resp.status == StatusOK && resp.user.id == m.id && resp.user.token == mint(m.id)
    ensures Rewritten(usersBefore, usersAfter, m.id, m, now)
    ensures tokensAfter == tokensBefore + [TokenRow(newTokenId, mint(m.id), now, tokenEnd, m.id)]
  {
    IntendedMintsExactlyOnNoResult(Err(NoResult));
  }

  /** LogoutHandler: delete the token FindTokenByUID returns for the caller
      (every row holding that token string), which need not be the token
      the request was authenticated with. */
  method LogoutHandler(store: UserStorage, uid: string, lookupFault: bool, deleteFault: bool)
    returns (resp: Response)
    requires store.Valid()
    modifies store`tokens
    ensures store.Valid()
    ensures old(store.FindTokenByUID(uid, lookupFault)).Err? ==>
      resp == ErrorReply(StatusUnauthorized, "Failed to retrieve authentication token") &&
      store.tokens == old(store.tokens)
    ensures old(store.FindTokenByUID(uid, lookupFault)).Ok? && deleteFault ==>
      resp == ErrorReply(StatusBadRequest, "Failed to logout user") && store.tokens == old(store.tokens)
    ensures resp == EmptyReply(StatusOK) <==> old(store.FindTokenByUID(uid, lookupFault)).Ok? && !deleteFault
    ensures resp == EmptyReply(StatusOK) ==>
      var gone := old(store.FindTokenByUID(uid, lookupFault)).value.token;
      store.tokens == Filter(old(store.tokens), (t: TokenRow) => t.token != gone) &&
      forall t :: t in store.tokens ==> t.token != gone
  {
    var found := store.FindTokenByUID(uid, lookupFault);
    if found.Err? {
      return ErrorReply(StatusUnauthorized, "Failed to retrieve authentication token");
    }
    assert found.value in store.tokens;
    var err := store.DeleteToken(found.value.token, deleteFault);
    if err.Some? {
      return ErrorReply(StatusBadRequest, "Failed to logout user");
    }
    resp := EmptyReply(StatusOK);
  }

  // ---------------------------------------------------------------------
  // Logging in again after logout

  /** The preconditions of the two scenarios below: the user `uid` holds
      exactly one token string and logs in with valid credentials. */
  ghost predicate SingleTokenUser(store: UserStorage, uid: string, req: LoginRequest, isEmail: string -> bool,
                                  verify: (string, string, string) -> bool)
    reads store
  {
    store.Valid() &&
    store.FindTokenByUID(uid, false).Ok? &&
    (forall t :: t in store.tokens && t.uid == uid ==> t.token == store.FindTokenByUID(uid, false).value.token) &&
    ValidLogin(req, isEmail) &&
    CredentialsAccepted(store, req, verify, false) &&
    store.GetUserForAuth(req.email, "", false).value.id == uid
  }

  /** As written: after a successful logout the user has no token row left,
      and since the mint branch never runs, every later login with the right
      password is answered 422. */
  method LoginAfterLogoutAsWritten(store: UserStorage, uid: string, req: LoginRequest, isEmail: string -> bool,
                                   verify: (string, string, string) -> bool, mint: string -> string,
                                   newTokenId: string, now: Time, tokenEnd: Time)
    returns (logout: Response, login: Response)
    requires SingleTokenUser(store, uid, req, isEmail, verify)
    modifies store`tokens
    ensures logout == EmptyReply(StatusOK)
    ensures login == ErrorReply(StatusUnprocessableEntity, "Failed to retrieve authentication token")
    ensures forall t :: t in store.tokens ==> t.uid != uid
  {
    logout := LogoutHandler(store, uid, false, false);
    assert store.FindTokenByUID(uid, false) == Err(NoResult);
    assert CredentialsAccepted(store, req, verify, false);
    ghost var u := store.GetUserForAuth(req.email, "", false).value;
    assert u.id == uid;
    assert TokenDecision(store.FindTokenByUID(u.id, false), AsWrittenNoResult).Fail?;
    login := LoginUserHandler(store, Some(req), isEmail, verify, AsWrittenNoResult, mint, newTokenId, now, tokenEnd,
                              false, false, false);
  }

  /** With the intended sentinel the same sequence succeeds: login mints a
      new token for the user, stores it and answers 200 with it. */
  method LoginAfterLogoutIntended(store: UserStorage, uid: string, req: LoginRequest, isEmail: string -> bool,
                                  verify: (string, string, string) -> bool, mint: string -> string,
                                  newTokenId: string, now: Time, tokenEnd: Time)
    returns (logout: Response, login: Response)
    requires SingleTokenUser(store, uid, req, isEmail, verify)
    requires mint(uid) != ""
    modifies store`tokens
    ensures logout == EmptyReply(StatusOK)
    ensures login.UserReply? && login.status == StatusOK && login.user.id == uid && login.user.token == mint(uid)
    ensures TokenRow(newTokenId, mint(uid), now, tokenEnd, uid) in store.tokens
  {
    logout := LogoutHandler(store, uid, false, false);
    assert store.FindTokenByUID(uid, false) == Err(NoResult);
    IntendedMintsExactlyOnNoResult(Err(NoResult));
    assert CredentialsAccepted(store, req, verify, false);
    ghost var u := store.GetUserForAuth(req.email, "", false).value;
    assert u.id == uid && uid != "";
    assert TokenDecision(store.FindTokenByUID(u.id, false), IntendedNoResult) == Mint;
    login := LoginUserHandler(store, Some(req), isEmail, verify, IntendedNoResult, mint, newTokenId, now, tokenEnd,
                              false, false, false);
    assert store.GetUserForAuth(req.email, "", false).value == u;
  }
}
