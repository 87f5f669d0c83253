// The request guards wrapped around the REST endpoints: who the caller is,
// and whether the caller is still within quota.
module Decorators {
  import opened Wrappers

  /** A REANA user as the guards see one. */
  datatype User = User(email: string, activeToken: bool)

  /** What looking a user up comes back with; `Invalid` is the `ValueError` it may raise. */
  datatype Lookup = Found(user: User) | NoUser | Invalid(message: string)

  /** The parts of a request the guard reads. */
  datatype Request = Request(
    authenticated: bool,           // `current_user.is_authenticated`
    sessionEmail: string,          // `current_user.email`
    gitlabToken: Option<string>,   // the `X-Gitlab-Token` header
    accessToken: Option<string>)   // the `access_token` query argument

  /** What a guarded endpoint ends in: a reply from the guard, or a call of the endpoint. */
  datatype Outcome<U> = Respond(status: int, message: string) | Call(user: U)

  /** Where the user is taken from, in order of precedence. */
  datatype Credential = Session(email: string) | GitlabToken(token: string) | AccessToken(token: string)

  /**
   * The credential `signin_required` uses: the session, then the GitLab
   * header (only when GitLab logins are accepted), then the query argument.
   */
  function CredentialOf(req: Request, includeGitlabLogin: bool): (c: Option<Credential>)
    ensures req.authenticated ==> c == Some(Session(req.sessionEmail))
    ensures !req.authenticated && includeGitlabLogin && req.gitlabToken.Some? ==> c == Some(GitlabToken(req.gitlabToken.value))
    ensures c.Some? && c.value.GitlabToken? ==> includeGitlabLogin
    ensures c.Some? && c.value.AccessToken? ==> !req.authenticated && (!includeGitlabLogin || req.gitlabToken.None?)
    ensures c.None? <==> !req.authenticated && (!includeGitlabLogin || req.gitlabToken.None?) && req.accessToken.None?
  {
    if req.authenticated then Some(Session(req.sessionEmail))
    else if includeGitlabLogin && req.gitlabToken.Some? then Some(GitlabToken(req.gitlabToken.value))
    else if req.accessToken.Some? then Some(AccessToken(req.accessToken.value))
    else None
  }

  /**
   * `signin_required(include_gitlab_login, token_required)` around an
   * endpoint; `byEmail` and `byToken` are `_get_user_from_invenio_user` and
   * `get_user_from_token`.
   */
  function SigninRequired(req: Request, includeGitlabLogin: bool, tokenRequired: bool,
                          byEmail: string -> Lookup, byToken: string -> Lookup): Outcome<User>
  {
    var found := match CredentialOf(req, includeGitlabLogin)
      case None => NoUser
      case Some(Session(e)) => byEmail(e)
      case Some(GitlabToken(t)) => byToken(t)
      case Some(AccessToken(t)) => byToken(t);
    match found
    case Invalid(m) => Respond(403, m)
    case NoUser => Respond(401, "User not signed in")
    case Found(u) =>
      if tokenRequired && !u.activeToken then Respond(401, "User has no active tokens") else Call(u)
  }

  /**
   * The endpoint runs only for the user its credential names, and, when a
   * token is required, only for a user with an active token.
   */
  lemma EndpointGetsSignedInUser(req: Request, includeGitlabLogin: bool, tokenRequired: bool,
                                 byEmail: string -> Lookup, byToken: string -> Lookup)
    requires SigninRequired(req, includeGitlabLogin, tokenRequired, byEmail, byToken).Call?
    ensures var u := SigninRequired(req, includeGitlabLogin, tokenRequired, byEmail, byToken).user;
      && CredentialOf(req, includeGitlabLogin).Some?
      && (match CredentialOf(req, includeGitlabLogin).value
          case Session(e) => byEmail(e) == Found(u)
          case GitlabToken(t) => byToken(t) == Found(u)
          case AccessToken(t) => byToken(t) == Found(u))
      && (tokenRequired ==> u.activeToken)
  {
  }

  /** Every refusal is a 401 or a 403, and a 403 is exactly a failed lookup. */
  lemma RefusalStatuses(req: Request, includeGitlabLogin: bool, tokenRequired: bool,
                        byEmail: string -> Lookup, byToken: string -> Lookup)
    ensures var o := SigninRequired(req, includeGitlabLogin, tokenRequired, byEmail, byToken);
      o.Respond? ==> o.status == 401 || o.status == 403
    ensures var o := SigninRequired(req, includeGitlabLogin, tokenRequired, byEmail, byToken);
      o.Respond? && o.status == 401 ==> o.message in {"User not signed in", "User has no active tokens"}
  {
  }

  /** A request carrying no credential at all is refused without looking anyone up. */
  lemma NoCredentialRefused(req: Request, includeGitlabLogin: bool, tokenRequired: bool,
                            byEmail: string -> Lookup, byToken: string -> Lookup)
    requires !req.authenticated && req.gitlabToken.None? && req.accessToken.None?
    ensures SigninRequired(req, includeGitlabLogin, tokenRequired, byEmail, byToken) == Respond(401, "User not signed in")
  {
  }

  /** A signed-in session decides alone: the tokens the request also carries are not read. */
  lemma SessionTakesPrecedence(req: Request, gitlabToken: Option<string>, accessToken: Option<string>,
                               includeGitlabLogin: bool, tokenRequired: bool,
                               byEmail: string -> Lookup, byToken: string -> Lookup)
    requires req.authenticated
    ensures SigninRequired(req.(gitlabToken := gitlabToken, accessToken := accessToken), includeGitlabLogin, tokenRequired, byEmail, byToken)
         == SigninRequired(req, includeGitlabLogin, tokenRequired, byEmail, byToken)
  {
  }

  /** A GitLab header is ignored unless GitLab logins are accepted. */
  lemma GitlabHeaderIgnoredUnlessEnabled(req: Request, gitlabToken: Option<string>, tokenRequired: bool,
                                         byEmail: string -> Lookup, byToken: string -> Lookup)
    ensures SigninRequired(req.(gitlabToken := gitlabToken), false, tokenRequired, byEmail, byToken)
         == SigninRequired(req, false, tokenRequired, byEmail, byToken)
  {
  }

  /** `user.has_exceeded_quota()` and the excess message: either may also raise. */
  datatype QuotaState = WithinQuota | Exceeded(message: string) | Failed(error: string)

  /**
   * `check_quota`; `user` is the `user` keyword argument, absent when the
   * endpoint was not given one (a `KeyError`, reported as `'user'`).
   */
  function CheckQuota<U>(user: Option<U>, quota: U -> QuotaState): (o: Outcome<U>)
    ensures o.Call? <==> user.Some? && quota(user.value) == WithinQuota
    ensures o.Call? ==> o.user == user.value
    ensures user.Some? && quota(user.value).Exceeded? ==> o == Respond(403, quota(user.value).message)
    ensures o.Respond? && o.status != 403 ==> o.status == 500
  {
    if user.None? then Respond(500, "'user'")
    else match quota(user.value)
      case WithinQuota => Call(user.value)
      case Exceeded(m) => Respond(403, m)
      case Failed(e) => Respond(500, e)
  }

  /** `@signin_required()` over `@check_quota`, as the launch endpoint is wrapped. */
  function SignedInWithinQuota(req: Request, byEmail: string -> Lookup, byToken: string -> Lookup,
                               quota: User -> QuotaState): Outcome<User>
  {
    match SigninRequired(req, false, true, byEmail, byToken)
    case Respond(s, m) => Respond(s, m)
    case Call(u) => CheckQuota(Some(u), quota)
  }

  /** The launch endpoint runs only for a signed-in user with an active token who is within quota. */
  lemma LaunchGuarded(req: Request, byEmail: string -> Lookup, byToken: string -> Lookup, quota: User -> QuotaState)
    requires SignedInWithinQuota(req, byEmail, byToken, quota).Call?
    ensures var u := SignedInWithinQuota(req, byEmail, byToken, quota).user;
      && SigninRequired(req, false, true, byEmail, byToken) == Call(u)
      && u.activeToken && quota(u) == WithinQuota
  {
  }
}
