/**
 * `getAuthenticatedUserName`: the display name of the signed-in user, fetched with the
 * session token as a bearer credential, falling back to "User" and never raising.
 */
module UserName {
  import opened Wrappers
  import opened Http
  import opened AuthContext

  const MeUrl: string := "http://localhost:1337/api/users/me"
  const FallbackName: string := "User"

  /** The body of the profile lookup; `username` may be missing. */
  datatype Me = Me(username: Option<string>)

  /** The authenticated profile lookup for `jwt`. */
  function MeRequest(jwt: string): (req: Request)
    ensures req.Get? && req.url == MeUrl
    ensures req.headers.Keys == {"Authorization"} && req.headers["Authorization"] == "Bearer " + jwt
  {
    Get(MeUrl, map["Authorization" := "Bearer " + jwt])
  }

  /** Whether there is a token to send: neither the user nor its token may be absent or empty. */
  predicate HasToken(user: Option<User>)
    ensures HasToken(user) ==> user.Some? && |user.value.jwt| > 0
    ensures !HasToken(user) ==> user.None? || user.value.jwt == ""
  {
    user.Some? && user.value.jwt != ""
  }

  /** `getAuthenticatedUserName(user)` against `server`. */
  function GetAuthenticatedUserName(user: Option<User>, server: Server<Me>): (name: string)
    ensures name != ""
    ensures !HasToken(user) ==> name == FallbackName
    ensures name != FallbackName ==>
      HasToken(user) && server(MeRequest(user.value.jwt)) == Success(Me(Some(name)))
  {
    if !HasToken(user) then FallbackName
    else
      match server(MeRequest(user.value.jwt))
      case Success(me) =>
        if me.username.Some? && me.username.value != "" then me.username.value else FallbackName
      case _ => FallbackName
  }

  /** Without a token the server is never consulted: every server gives the same answer. */
  lemma NoTokenNoRequest(user: Option<User>, s1: Server<Me>, s2: Server<Me>)
    requires !HasToken(user)
    ensures GetAuthenticatedUserName(user, s1) == GetAuthenticatedUserName(user, s2)
  {
  }

  /**
   * With a token, the answer depends only on what the profile request comes to: a
   * non-empty username is shown as it is, and anything else, failures included, is "User".
   */
  lemma NameFromOutcome(jwt: string, server: Server<Me>)
    requires jwt != ""
    ensures var o := server(MeRequest(jwt));
      GetAuthenticatedUserName(Some(User(jwt)), server) ==
        if o.Success? && o.data.username.Some? && o.data.username.value != "" then o.data.username.value
        else FallbackName
  {
  }

  /** A failed lookup (any failure shape) degrades to "User" rather than raising. */
  lemma FailureDegrades(jwt: string, server: Server<Me>)
    requires !server(MeRequest(jwt)).Success?
    ensures GetAuthenticatedUserName(Some(User(jwt)), server) == FallbackName
  {
  }
}
