/** The profile handlers of internal/handlers/profileHandler.go: follow,
    unfollow and view a profile. `name` is the {username} path parameter and
    `uid` the caller's id the auth gate put in the request context. */
module ProfileHandlers {
  import opened Wrappers
  import opened Records
  import opened Errors
  import opened UserRepository
  import opened Http

  /** The reply to a failed lookup of the target user: 404 when the error
      is ErrUserNotFound, 500 otherwise. */
  function LookupFailure(e: RepoError, notFound: string): (resp: Response)
    ensures resp.ErrorReply?
    ensures resp.status == StatusNotFound <==> e == UserNotFound
    ensures resp.status != StatusNotFound ==> resp == ErrorReply(StatusInternalServerError, "Internal server error")
  {
    if ErrorsIs(e, Sentinel(UserNotFound)) then ErrorReply(StatusNotFound, notFound)
    else ErrorReply(StatusInternalServerError, "Internal server error")
  }

  /** FollowHandler: look the target up by username, store the edge
      uid -> target, and answer with the target's profile, following. */
  method FollowHandler(store: UserStorage, name: string, uid: string, lookupFault: bool, writeFault: bool)
    returns (resp: Response)
    modifies store`subscriptions
    ensures name == "" ==>
      resp == ErrorReply(StatusBadRequest, "Username parameter is missing") && store.subscriptions == old(store.subscriptions)
    ensures name != "" && store.GetUserForAuth("", name, lookupFault).Err? ==>
      resp == LookupFailure(store.GetUserForAuth("", name, lookupFault).error, "User to follow not found") &&
      store.subscriptions == old(store.subscriptions)
    ensures name != "" && store.GetUserForAuth("", name, lookupFault).Ok? ==>
      var target := store.GetUserForAuth("", name, lookupFault).value;
      if uid != "" && target.id != "" && !writeFault then
        resp == ProfileReply(StatusOK, ProfileOf(target, true)) &&
        store.subscriptions == old(store.subscriptions) + [Edge(uid, target.id)]
      else
        resp == ErrorReply(StatusInternalServerError, "Failed to follow user") &&
        store.subscriptions == old(store.subscriptions)
    ensures resp.status == StatusOK ==> resp.ProfileReply? && resp.profile.following
  {
    if name == "" {
      return ErrorReply(StatusBadRequest, "Username parameter is missing");
    }
    var found := store.GetUserForAuth("", name, lookupFault);
    if found.Err? {
      return LookupFailure(found.error, "User to follow not found");
    }
    var target := found.value;
    var err := store.FollowUser(uid, target.id, writeFault);
    if err.Some? {
      return ErrorReply(StatusInternalServerError, "Failed to follow user");
    }
    resp := ProfileReply(StatusOK, ProfileOf(target, true));
  }

  /** UnFollowHandler: look the target up by username, delete the edges
      uid -> target, and answer with the target's profile, not following. */
  method UnFollowHandler(store: UserStorage, name: string, uid: string, lookupFault: bool, writeFault: bool)
    returns (resp: Response)
    modifies store`subscriptions
    ensures name == "" ==>
      resp == ErrorReply(StatusBadRequest, "Username parameter is missing") && store.subscriptions == old(store.subscriptions)
    ensures name != "" && store.GetUserForAuth("", name, lookupFault).Err? ==>
      resp == LookupFailure(store.GetUserForAuth("", name, lookupFault).error, "User to unfollow not found") &&
      store.subscriptions == old(store.subscriptions)
    ensures name != "" && store.GetUserForAuth("", name, lookupFault).Ok? ==>
      var target := store.GetUserForAuth("", name, lookupFault).value;
      if uid != "" && target.id != "" && !writeFault && Edge(uid, target.id) in old(store.subscriptions) then
        resp == ProfileReply(StatusOK, ProfileOf(target, false)) &&
        Edge(uid, target.id) !in store.subscriptions &&
        forall e :: e in store.subscriptions <==> e in old(store.subscriptions) && e != Edge(uid, target.id)
      else
        resp == ErrorReply(StatusInternalServerError, "Failed to unfollow user") &&
        store.subscriptions == old(store.subscriptions)
    ensures resp.status == StatusOK ==> resp.ProfileReply? && !resp.profile.following
  {
    if name == "" {
      return ErrorReply(StatusBadRequest, "Username parameter is missing");
    }
    var found := store.GetUserForAuth("", name, lookupFault);
    if found.Err? {
      return LookupFailure(found.error, "User to unfollow not found");
    }
    var target := found.value;
    var err := store.UnFollowUser(uid, target.id, writeFault);
    if err.Some? {
      return ErrorReply(StatusInternalServerError, "Failed to unfollow user");
    }
    resp := ProfileReply(StatusOK, ProfileOf(target, false));
  }

  /** The `following` flag of a profile view: false without a caller
      (`uid` is None when the context holds no string) and false when the
      follow check fails; otherwise the check's answer. */
  function FollowingFlag(store: UserStorage, uid: Option<string>, target: UserRow, checkFault: bool): (f: bool)
    reads store`subscriptions
    ensures f ==> uid.Some? && Edge(uid.value, target.id) in store.subscriptions
    ensures uid.Some? && uid.value != "" && target.id != "" && !checkFault ==>
      (f <==> Edge(uid.value, target.id) in store.subscriptions)
    ensures uid.None? || checkFault ==> !f
  {
    match uid
    case None => false
    case Some(follower) =>
      match store.CheckFollow(follower, target.id, checkFault)
      case Err(_) => false
      case Ok(following) => following
  }

  /** CheckProfileHandler: the target's profile with the following flag; a
      failing follow check never fails the request. */
  function CheckProfileHandler(store: UserStorage, name: string, uid: Option<string>,
                               lookupFault: bool, checkFault: bool): (resp: Response)
    reads store`users, store`subscriptions
    ensures name == "" ==> resp == ErrorReply(StatusBadRequest, "Username parameter is missing")
    ensures name != "" && store.GetUserForAuth("", name, lookupFault).Err? ==>
      resp == LookupFailure(store.GetUserForAuth("", name, lookupFault).error, "Profile user not found")
    ensures name != "" && store.GetUserForAuth("", name, lookupFault).Ok? ==>
      var target := store.GetUserForAuth("", name, lookupFault).value;
      resp == ProfileReply(StatusOK, ProfileOf(target, FollowingFlag(store, uid, target, checkFault)))
    ensures resp.status == StatusOK ==>
      resp.ProfileReply? && resp.profile.username == name &&
      exists u :: u in store.users && u.id == resp.profile.id && u.username == name
  {
    if name == "" then ErrorReply(StatusBadRequest, "Username parameter is missing")
    else match store.GetUserForAuth("", name, lookupFault)
      case Err(e) => LookupFailure(e, "Profile user not found")
      case Ok(target) => ProfileReply(StatusOK, ProfileOf(target, FollowingFlag(store, uid, target, checkFault)))
  }

  /** Following someone and then viewing their profile shows `following`. */
  method FollowThenView(store: UserStorage, name: string, uid: string) returns (follow: Response, view: Response)
    requires uid != "" && name != ""
    requires store.GetUserForAuth("", name, false).Ok? && store.GetUserForAuth("", name, false).value.id != ""
    modifies store`subscriptions
    ensures follow.ProfileReply? && follow.status == StatusOK && follow.profile.following
    ensures view.ProfileReply? && view.status == StatusOK && view.profile.following
  {
    follow := FollowHandler(store, name, uid, false, false);
    view := CheckProfileHandler(store, name, Some(uid), false, false);
  }

  /** Unfollowing someone one follows and then viewing their profile shows
      them as not followed. */
  method UnfollowThenView(store: UserStorage, name: string, uid: string) returns (unfollow: Response, view: Response)
    requires uid != "" && name != ""
    requires store.GetUserForAuth("", name, false).Ok? && store.GetUserForAuth("", name, false).value.id != ""
    requires Edge(uid, store.GetUserForAuth("", name, false).value.id) in store.subscriptions
    modifies store`subscriptions
    ensures unfollow.ProfileReply? && unfollow.status == StatusOK && !unfollow.profile.following
    ensures view.ProfileReply? && view.status == StatusOK && !view.profile.following
  {
    unfollow := UnFollowHandler(store, name, uid, false, false);
    view := CheckProfileHandler(store, name, Some(uid), false, false);
  }
}
