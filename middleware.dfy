/** AuthMiddleware of internal/handlers/middleware.go: the guard chain in
    front of every authenticated route. */
module Middleware {
  import opened Wrappers
  import opened Records
  import opened Errors
  import opened UserRepository
  import opened Http

  /** What the gate does with a request: answer it with an error, pass it to
      the next handler with `uid` in its context, or panic (Go's slice
      `authHeader[6:]` on a header shorter than six bytes). */
  datatype Gate = Reject(status: int, message: string) | Admit(uid: string) | Panic

  /** How many bytes the middleware cuts off the front of the header. The
      documented header is `Bearer <token>`, whose scheme word and space take
      seven, so the string decoded still starts with the space. */
  const PrefixLength: nat := 6

  /** The token part of a header at least PrefixLength long. */
  function TokenPart(header: string): string
    requires |header| >= PrefixLength
  {
    header[PrefixLength..]
  }

  /** The gate. `decode` stands for security.DecodeToken with its own clock
      (PASETO decryption, then the expiry claim): the uid inside a valid
      token, None otherwise. `now` is the middleware's own time.Now(), and
      `lookupFault` a failing token query. */
  function AuthMiddleware(store: UserStorage, header: string, decode: string -> Option<string>,
                          now: Time, lookupFault: bool): (g: Gate)
    reads store
    ensures header == "" ==> g == Reject(StatusUnauthorized, "Authorization header is required")
    ensures 0 < |header| < PrefixLength <==> g.Panic?
    ensures |header| >= PrefixLength && decode(TokenPart(header)).None? ==>
      g == Reject(StatusUnauthorized, "Invalid or expired token")
    ensures |header| >= PrefixLength && decode(TokenPart(header)).Some? &&
            store.GetToken(TokenPart(header), lookupFault).Err? ==>
      g == Reject(StatusUnauthorized, "Failed to validate token")
    ensures g.Admit? <==>
      |header| >= PrefixLength && decode(TokenPart(header)).Some? &&
      store.GetToken(TokenPart(header), lookupFault).Ok? &&
      store.GetToken(TokenPart(header), lookupFault).value.uid == decode(TokenPart(header)).value &&
      store.GetToken(TokenPart(header), lookupFault).value.endDate > now
    ensures g.Admit? ==>
      decode(TokenPart(header)) == Some(g.uid) &&
      exists t :: t in store.tokens && t.token == TokenPart(header) && t.uid == g.uid && t.endDate > now
    ensures |header| >= PrefixLength && decode(TokenPart(header)).Some? &&
            store.GetToken(TokenPart(header), lookupFault).Ok? && !g.Admit? ==>
      g == Reject(StatusUnauthorized, "Invalid or expired token")
    ensures g.Reject? ==> g.status == StatusUnauthorized
  {
    if header == "" then Reject(StatusUnauthorized, "Authorization header is required")
    else if |header| < PrefixLength then Panic
    else
      var tokenString := TokenPart(header);
      match decode(tokenString)
      case None => Reject(StatusUnauthorized, "Invalid or expired token")
      case Some(uid) =>
        match store.GetToken(tokenString, lookupFault)
        case Err(_) => Reject(StatusUnauthorized, "Failed to validate token")
        case Ok(token) =>
          if token.uid != uid || !(token.endDate > now) then Reject(StatusUnauthorized, "Invalid or expired token")
          else Admit(token.uid)
  }

  /** A token with no row in the tokens table (never stored, or deleted at
      logout) never gets through, however valid its encryption and expiry
      claim are. */
  lemma UnknownTokenRejected(store: UserStorage, header: string, decode: string -> Option<string>,
                             now: Time, lookupFault: bool)
    requires |header| >= PrefixLength
    requires forall t :: t in store.tokens ==> t.token != TokenPart(header)
    ensures !AuthMiddleware(store, header, decode, now, lookupFault).Admit?
  {
  }
}
