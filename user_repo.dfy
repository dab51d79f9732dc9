/** The user storage of internal/repository/user.go over in-memory tables:
    users, tokens and subscriptions. Each call that reaches the database takes
    a `fault` flag standing for a failed query, exec or scan (a driver error
    that is not a constraint violation). */
module UserRepository {
  import opened Wrappers
  import opened Tables
  import opened Records
  import opened Errors

  /** What PostgreSQL reports when a write to the users table fails. */
  datatype DbError = UniqueViolation(constraint: string) | DriverError

  /** The error mapping shared by AddUser and UpdateUser: a unique violation on
      users_email_key or users_username_key becomes the matching sentinel, every
      other failure a wrapped error. */
  function ClassifyWriteError(e: DbError, context: string): (r: RepoError)
    ensures r == EmailAlreadyExists <==> e == UniqueViolation("users_email_key")
    ensures r == UsernameAlreadyExists <==> e == UniqueViolation("users_username_key")
    ensures r.Failed? <==> e != UniqueViolation("users_email_key") && e != UniqueViolation("users_username_key")
  {
    match e
    case UniqueViolation(name) =>
      if name == "users_email_key" then EmailAlreadyExists
      else if name == "users_username_key" then UsernameAlreadyExists
      else Failed("unique constraint violation")
    case DriverError => Failed(context)
  }

  /** The unique constraint that storing `u` beside `others` violates, as the
      database names it. When several collide the model reports the primary
      key first, then the email, then the username. */
  function Violation(others: seq<UserRow>, u: UserRow): (r: Option<string>)
    ensures r.None? <==> forall o :: o in others ==> o.id != u.id && o.email != u.email && o.username != u.username
    ensures r == Some("users_email_key") ==> exists o :: o in others && o.email == u.email
    ensures r == Some("users_username_key") ==> exists o :: o in others && o.username == u.username
  {
    if exists o :: o in others && o.id == u.id then Some("users_pkey")
    else if exists o :: o in others && o.email == u.email then Some("users_email_key")
    else if exists o :: o in others && o.username == u.username then Some("users_username_key")
    else None
  }

  /** The unique constraint that rewriting the row with u's id to u's keys
      violates: the row being rewritten is not a clash with itself. */
  function UpdateViolation(users: seq<UserRow>, u: UserRow): Option<string>
  {
    Violation(Filter(users, (r: UserRow) => r.id != u.id), u)
  }

  /** The unique constraints of the users table: id, email and username. */
  ghost predicate UniqueKeys(us: seq<UserRow>)
  {
    forall i, j :: 0 <= i < j < |us| ==>
      us[i].id != us[j].id && us[i].email != us[j].email && us[i].username != us[j].username
  }

  /** A stored row after `UPDATE users SET username, email, password_hash,
      password_salt, bio, image, updated_at`: id and created_at stay. */
  function Updated(stored: UserRow, u: UserRow, now: Time): UserRow
  {
    stored.(username := u.username, email := u.email, passwordHash := u.passwordHash,
            passwordSalt := u.passwordSalt, bio := u.bio, image := u.image, updatedAt := now)
  }

  class UserStorage {
    var users: seq<UserRow>
    var tokens: seq<TokenRow>
    var subscriptions: seq<Edge>

    /** The unique keys of the users table, and the guard of AddToken: no
        token row has an empty token or user id. */
    ghost predicate Valid()
      reads this`users, this`tokens
    {
      UniqueKeys(users) && forall t :: t in tokens ==> t.token != "" && t.uid != ""
    }

    constructor ()
      ensures Valid()
      ensures users == [] && tokens == [] && subscriptions == []
    {
      users, tokens, subscriptions := [], [], [];
    }

    // -------------------------------------------------------------------
    // users

    /** INSERT INTO users: the database assigns the id (`newId`) and both
        timestamps (`now`); a collision with a unique key is rejected. */
    method AddUser(u: UserRow, newId: string, now: Time, fault: bool) returns (err: Option<RepoError>)
      requires Valid()
      modifies this`users
      ensures Valid()
      ensures var row := u.(id := newId, createdAt := now, updatedAt := now);
        if fault then err == Some(Failed("failed to execute query")) && users == old(users)
        else match Violation(old(users), row)
          case Some(c) => err == Some(ClassifyWriteError(UniqueViolation(c), "failed to execute query")) && users == old(users)
          case None => err == None && users == old(users) + [row]
    {
      var row := u.(id := newId, createdAt := now, updatedAt := now);
      if fault {
        return Some(ClassifyWriteError(DriverError, "failed to execute query"));
      }
      match Violation(users, row)
      case Some(c) =>
        err := Some(ClassifyWriteError(UniqueViolation(c), "failed to execute query"));
      case None =>
        users := users + [row];
        err := None;
    }

    /** RegisterUser: derive the verifier (`derive` stands for Argon2id with a
        random salt; None when the random source fails), then add a user with
        an empty bio and image. */
    method RegisterUser(username: string, email: string, password: string,
                        derive: string -> Option<Verifier>, newId: string, now: Time, fault: bool)
      returns (err: Option<RepoError>)
      requires Valid()
      modifies this`users
      ensures Valid()
      ensures derive(password).None? ==> err == Some(Failed("failed to generate password")) && users == old(users)
      ensures err.None? <==> (derive(password).Some? && !fault &&
        Violation(old(users), UserRow(newId, username, email, derive(password).value.hash,
                                      derive(password).value.salt, "", "", now, now)).None?)
      ensures err.None? ==>
        var v := derive(password).value;
        users == old(users) + [UserRow(newId, username, email, v.hash, v.salt, "", "", now, now)]
      ensures err.Some? ==> users == old(users)
      ensures err == Some(EmailAlreadyExists) ==> exists o :: o in old(users) && o.email == email
      ensures err == Some(UsernameAlreadyExists) ==> exists o :: o in old(users) && o.username == username
    {
      var v := derive(password);
      if v.None? {
        return Some(Failed("failed to generate password"));
      }
      var user := UserRow("", username, email, v.value.hash, v.value.salt, "", "", now, now);
      err := AddUser(user, newId, now, fault);
    }

    /** GetUserForApi: the user with this id, without the password verifier. */
    function GetUserForApi(uid: string, fault: bool): (r: Result<User, RepoError>)
      reads this`users
      ensures uid == "" ==> r == Err(Failed("user ID not provided"))
      ensures r.Ok? ==> exists u :: u in users && u.id == uid && r.value == ApiView(u)
      ensures r == Err(UserNotFound) <==> uid != "" && !fault && forall u :: u in users ==> u.id != uid
      ensures uid != "" && !fault ==> (r.Ok? <==> exists u :: u in users && u.id == uid)
    {
      if uid == "" then Err(Failed("user ID not provided"))
      else if fault then Err(Failed("failed to scan user data"))
      else match First(users, (u: UserRow) => u.id == uid)
        case None => Err(UserNotFound)
        case Some(u) => Ok(ApiView(u))
    }

    /** GetUserForAuth: by email when one is given (the username is then
        ignored), otherwise by username; both empty is an error. */
    function GetUserForAuth(email: string, username: string, fault: bool): (r: Result<UserRow, RepoError>)
      reads this`users
      ensures email == "" && username == "" ==> r == Err(Failed("email or username not provided"))
      ensures r.Ok? ==> r.value in users
      ensures r.Ok? && email != "" ==> r.value.email == email
      ensures r.Ok? && email == "" ==> r.value.username == username
      ensures r == Err(UserNotFound) <==>
        (email != "" || username != "") && !fault &&
        forall u :: u in users ==> if email != "" then u.email != email else u.username != username
      ensures (email != "" || username != "") && !fault ==> r.Ok? || r == Err(UserNotFound)
    {
      if email == "" && username == "" then Err(Failed("email or username not provided"))
      else if fault then Err(Failed("failed to query user"))
      else
        var found := if email == "" then First(users, (u: UserRow) => u.username == username)
                     else First(users, (u: UserRow) => u.email == email);
        match found
        case None => Err(UserNotFound)
        case Some(u) => Ok(u)
    }

    /** GetUserForUpdate: the full row with this id. */
    function GetUserForUpdate(id: string, fault: bool): (r: Result<UserRow, RepoError>)
      reads this`users
      ensures id == "" ==> r == Err(Failed("user ID not provided"))
      ensures r.Ok? ==> r.value in users && r.value.id == id
      ensures r == Err(UserNotFound) <==> id != "" && !fault && forall u :: u in users ==> u.id != id
      ensures id != "" && !fault ==> (r.Ok? <==> exists u :: u in users && u.id == id)
    {
      if id == "" then Err(Failed("user ID not provided"))
      else if fault then Err(Failed("failed to scan user data"))
      else match First(users, (u: UserRow) => u.id == id)
        case None => Err(UserNotFound)
        case Some(u) => Ok(u)
    }

    /** DeleteUser: `DELETE FROM users WHERE email = $1 OR username = $2`; no
        row deleted is ErrUserNotFound. An empty email still matches users whose
        email is empty. */
    method DeleteUser(email: string, username: string, fault: bool) returns (err: Option<RepoError>)
      requires Valid()
      modifies this`users
      ensures Valid()
      ensures email == "" && username == "" ==> err == Some(Failed("email or username not provided"))
      ensures err.None? ==> users == Filter(old(users), (u: UserRow) => u.email != email && u.username != username)
      ensures err.None? ==> forall u :: u in users ==> u.email != email && u.username != username
      ensures err.Some? ==> users == old(users)
      ensures err == Some(UserNotFound) <==>
        (email != "" || username != "") && !fault &&
        forall u :: u in old(users) ==> u.email != email && u.username != username
      ensures err.None? <==>
        (email != "" || username != "") && !fault &&
        exists u :: u in old(users) && (u.email == email || u.username == username)
      ensures (email != "" || username != "") && fault ==> err == Some(Failed("failed to delete user"))
    {
      if email == "" && username == "" {
        return Some(Failed("email or username not provided"));
      }
      if fault {
        return Some(Failed("failed to delete user"));
      }
      var kept := Filter(users, (u: UserRow) => u.email != email && u.username != username);
      if |kept| == |users| {
        return Some(UserNotFound);
      }
      FilterKeepsUnique(users, (u: UserRow) => u.email != email && u.username != username);
      users := kept;
      err := None;
    }

    /** UpdateUser: rewrite the row with u's id (see Updated); no such row is
        ErrUserNotFound, a clash with another row's email or username is the
        matching sentinel. */
    method UpdateUser(u: UserRow, now: Time, fault: bool) returns (err: Option<RepoError>)
      requires Valid()
      modifies this`users
      ensures Valid()
      ensures fault ==> err == Some(Failed("failed to update user")) && users == old(users)
      ensures (forall r :: r in old(users) ==> r.id != u.id) ==>
        err == Some(if fault then Failed("failed to update user") else UserNotFound) && users == old(users)
      ensures err.Some? ==> users == old(users)
      ensures err == Some(EmailAlreadyExists) ==> exists o :: o in old(users) && o.id != u.id && o.email == u.email
      ensures err == Some(UsernameAlreadyExists) ==> exists o :: o in old(users) && o.id != u.id && o.username == u.username
      ensures err.None? ==> |users| == |old(users)| && exists r :: r in old(users) && r.id == u.id
      ensures !fault && (exists r :: r in old(users) && r.id == u.id) ==>
        match UpdateViolation(old(users), u)
        case None => err.None?
        case Some(c) => err == Some(ClassifyWriteError(UniqueViolation(c), "failed to update user"))
      ensures err.None? ==> forall k :: 0 <= k < |users| ==>
        users[k] == if old(users)[k].id == u.id then Updated(old(users)[k], u, now) else old(users)[k]
    {
      if fault {
        return Some(ClassifyWriteError(DriverError, "failed to update user"));
      }
      var target := First(users, (r: UserRow) => r.id == u.id);
      if target.None? {
        return Some(UserNotFound);
      }
      var others := Filter(users, (r: UserRow) => r.id != u.id);
      var row := Updated(target.value, u, now);
      match UpdateViolation(users, u)
      case Some(c) =>
        err := Some(ClassifyWriteError(UniqueViolation(c), "failed to update user"));
      case None =>
        var before := users;
        UniqueRowWithId(before, target.value);
        var after := seq(|before|, k requires 0 <= k < |before| =>
          if before[k].id == u.id then Updated(before[k], u, now) else before[k]);
        UpdatePreservesUnique(before, after, target.value, row);
        users := after;
        err := None;
    }

    // -------------------------------------------------------------------
    // tokens

    /** AddToken: `INSERT INTO tokens (token, user_id)`; created_at and
        end_date are the table's defaults (`now`, `endDate`), the row id is
        assigned by the database (`newId`). Empty inputs are rejected before
        the store is touched. */
    method AddToken(token: string, uid: string, newId: string, now: Time, endDate: Time, fault: bool)
      returns (err: Option<RepoError>)
      requires Valid()
      modifies this`tokens
      ensures Valid()
      ensures token == "" || uid == "" ==> err == Some(Failed("token or user ID not provided"))
      ensures err.None? <==> token != "" && uid != "" && !fault
      ensures err.None? ==> tokens == old(tokens) + [TokenRow(newId, token, now, endDate, uid)]
      ensures err.Some? ==> tokens == old(tokens)
    {
      if token == "" || uid == "" {
        return Some(Failed("token or user ID not provided"));
      }
      if fault {
        return Some(Failed("failed to add token"));
      }
      tokens := tokens + [TokenRow(newId, token, now, endDate, uid)];
      err := None;
    }

    /** GetToken: the first row holding this token. */
    function GetToken(token: string, fault: bool): (r: Result<TokenRow, RepoError>)
      reads this`tokens
      ensures token == "" ==> r == Err(Failed("token not provided"))
      ensures r.Ok? ==> r.value in tokens && r.value.token == token
      ensures r == Err(TokenIsNotFound) <==> token != "" && !fault && forall t :: t in tokens ==> t.token != token
      ensures token != "" && !fault ==> (r.Ok? <==> exists t :: t in tokens && t.token == token)
    {
      if token == "" then Err(Failed("token not provided"))
      else if fault then Err(Failed("failed to query token"))
      else match First(tokens, (t: TokenRow) => t.token == token)
        case None => Err(TokenIsNotFound)
        case Some(t) => Ok(t)
    }

    /** DeleteToken: remove every row holding this token; none removed is
        ErrTokenIsNotFound. */
    method DeleteToken(token: string, fault: bool) returns (err: Option<RepoError>)
      requires Valid()
      modifies this`tokens
      ensures Valid()
      ensures token == "" ==> err == Some(Failed("token not provided"))
      ensures err.None? ==> tokens == Filter(old(tokens), (t: TokenRow) => t.token != token)
      ensures err.Some? ==> tokens == old(tokens)
      ensures err == Some(TokenIsNotFound) <==> token != "" && !fault && forall t :: t in old(tokens) ==> t.token != token
      ensures forall t :: t in tokens ==> t in old(tokens)
      ensures err.None? ==> forall t :: t in tokens ==> t.token != token
      ensures err.None? <==> token != "" && !fault && exists t :: t in old(tokens) && t.token == token
    {
      if token == "" {
        return Some(Failed("token not provided"));
      }
      if fault {
        return Some(Failed("failed to delete token"));
      }
      var kept := Filter(tokens, (t: TokenRow) => t.token != token);
      if |kept| == |tokens| {
        return Some(TokenIsNotFound);
      }
      tokens := kept;
      err := None;
    }

    /** FindTokenByUID: the first token row of this user; none is the distinct
        sentinel ErrNoResult. */
    function FindTokenByUID(uid: string, fault: bool): (r: Result<TokenRow, RepoError>)
      reads this`tokens
      ensures uid == "" ==> r == Err(Failed("user ID not provided"))
      ensures r.Ok? ==> r.value in tokens && r.value.uid == uid
      ensures r == Err(NoResult) <==> uid != "" && !fault && forall t :: t in tokens ==> t.uid != uid
      ensures r != Err(TokenIsNotFound)
      ensures uid != "" && !fault ==> (r.Ok? <==> exists t :: t in tokens && t.uid == uid)
    {
      if uid == "" then Err(Failed("user ID not provided"))
      else if fault then Err(Failed("failed to scan token data"))
      else match First(tokens, (t: TokenRow) => t.uid == uid)
        case None => Err(NoResult)
        case Some(t) => Ok(t)
    }

    // -------------------------------------------------------------------
    // subscriptions

    /** FollowUser: insert the edge follower -> followed. */
    method FollowUser(follower: string, followed: string, fault: bool) returns (err: Option<RepoError>)
      modifies this`subscriptions
      ensures follower == "" || followed == "" ==> err == Some(Failed("follower ID or followed ID not provided"))
      ensures err.None? <==> follower != "" && followed != "" && !fault
      ensures err.None? ==> subscriptions == old(subscriptions) + [Edge(follower, followed)]
      ensures err.Some? ==> subscriptions == old(subscriptions)
    {
      if follower == "" || followed == "" {
        return Some(Failed("follower ID or followed ID not provided"));
      }
      if fault {
        return Some(Failed("failed to follow user"));
      }
      subscriptions := subscriptions + [Edge(follower, followed)];
      err := None;
    }

    /** UnFollowUser: delete every edge follower -> followed; none deleted is
        the error "subscription not found". */
    method UnFollowUser(follower: string, followed: string, fault: bool) returns (err: Option<RepoError>)
      modifies this`subscriptions
      ensures follower == "" || followed == "" ==> err == Some(Failed("follower ID or followed ID not provided"))
      ensures err.None? ==> subscriptions == Filter(old(subscriptions), (e: Edge) => e != Edge(follower, followed))
      ensures err.None? ==> Edge(follower, followed) !in subscriptions
      ensures err.Some? ==> subscriptions == old(subscriptions)
      ensures err == Some(Failed("subscription not found")) <==>
        follower != "" && followed != "" && !fault && Edge(follower, followed) !in old(subscriptions)
      ensures err.None? <==> follower != "" && followed != "" && !fault && Edge(follower, followed) in old(subscriptions)
    {
      if follower == "" || followed == "" {
        return Some(Failed("follower ID or followed ID not provided"));
      }
      if fault {
        return Some(Failed("failed to unfollow user"));
      }
      var kept := Filter(subscriptions, (e: Edge) => e != Edge(follower, followed));
      if |kept| == |subscriptions| {
        return Some(Failed("subscription not found"));
      }
      subscriptions := kept;
      err := None;
    }

    /** CheckFollow: whether an edge follower -> followed exists. */
    function CheckFollow(follower: string, followed: string, fault: bool): (r: Result<bool, RepoError>)
      reads this`subscriptions
      ensures follower == "" || followed == "" ==> r == Err(Failed("follower ID or followed ID not provided"))
      ensures follower != "" && followed != "" && !fault ==> r == Ok(Edge(follower, followed) in subscriptions)
      ensures fault ==> r.Err?
    {
      if follower == "" || followed == "" then Err(Failed("follower ID or followed ID not provided"))
      else if fault then Err(Failed("failed to check follow status"))
      else Ok(exists e :: e in subscriptions && e.follower == follower && e.followed == followed)
    }
  }

  /** Because usernames are unique, looking a stored user up by a non-empty
      username finds exactly that user. */
  lemma AuthLookupByUsername(store: UserStorage, row: UserRow)
    requires store.Valid() && row in store.users && row.username != ""
    ensures store.GetUserForAuth("", row.username, false) == Ok(row)
  {
    var r := store.GetUserForAuth("", row.username, false);
    var i :| 0 <= i < |store.users| && store.users[i] == r.value;
    var j :| 0 <= j < |store.users| && store.users[j] == row;
    assert i == j;
  }

  /** Likewise for a non-empty email. */
  lemma AuthLookupByEmail(store: UserStorage, row: UserRow)
    requires store.Valid() && row in store.users && row.email != ""
    ensures store.GetUserForAuth(row.email, "", false) == Ok(row)
  {
    var r := store.GetUserForAuth(row.email, "", false);
    var i :| 0 <= i < |store.users| && store.users[i] == r.value;
    var j :| 0 <= j < |store.users| && store.users[j] == row;
    assert i == j;
  }

  // ---------------------------------------------------------------------
  // Proof helpers for the unique keys

  lemma {:induction false} FilterKeepsUnique(us: seq<UserRow>, keep: UserRow -> bool)
    requires UniqueKeys(us)
    ensures UniqueKeys(Filter(us, keep))
  {
    if us != [] {
      var tail := us[1..];
      assert UniqueKeys(tail) by {
        forall i, j | 0 <= i < j < |tail|
          ensures tail[i].id != tail[j].id && tail[i].email != tail[j].email && tail[i].username != tail[j].username
        {
          assert tail[i] == us[i + 1] && tail[j] == us[j + 1];
        }
      }
      FilterKeepsUnique(tail, keep);
      var rest := Filter(tail, keep);
      if keep(us[0]) {
        var r := Filter(us, keep);
        assert r == [us[0]] + rest;
        forall i, j | 0 <= i < j < |r|
          ensures r[i].id != r[j].id && r[i].email != r[j].email && r[i].username != r[j].username
        {
          assert r[j] == rest[j - 1];
          if i == 0 {
            assert rest[j - 1] in tail;
            var k :| 0 <= k < |tail| && tail[k] == rest[j - 1];
            assert us[k + 1] == r[j];
          } else {
            assert r[i] == rest[i - 1];
          }
        }
      } else {
        assert Filter(us, keep) == rest;
      }
    }
  }

  lemma UniqueRowWithId(us: seq<UserRow>, t: UserRow)
    requires UniqueKeys(us) && t in us
    ensures forall k :: 0 <= k < |us| && us[k].id == t.id ==> us[k] == t
  {
  }

  lemma UpdatePreservesUnique(before: seq<UserRow>, after: seq<UserRow>, target: UserRow, row: UserRow)
    requires UniqueKeys(before) && target in before
    requires row.id == target.id
    requires |after| == |before|
    requires forall k :: 0 <= k < |before| ==> after[k] == if before[k].id == target.id then row else before[k]
    requires forall o :: o in before && o.id != target.id ==> o.id != row.id && o.email != row.email && o.username != row.username
    ensures UniqueKeys(after)
  {
    forall i, j | 0 <= i < j < |after|
      ensures after[i].id != after[j].id && after[i].email != after[j].email && after[i].username != after[j].username
    {
      assert before[i] in before && before[j] in before;
    }
  }
}
