/**
 * The guard around pages that need a signed-in user: it shows a loading
 * screen, renders the page, or sends the visitor to the login page,
 * depending only on the context's `isLoading` and `user`.
 */
module ProtectedRoute {
  import opened Wrappers
  import opened AuthContext

  const LOGIN_PATH := "/auth/login"

  datatype Screen = LoadingScreen | Children

  /** What one render decides: where to navigate, if anywhere, and what to show. */
  datatype GuardOutcome = GuardOutcome(redirect: Option<string>, screen: Screen)

  /** The three states the guard tells apart. */
  datatype Status = Loading | Authenticated | Unauthenticated

  function StatusOf(isLoading: bool, user: Option<User>): Status {
    if isLoading then Loading else if user.Some? then Authenticated else Unauthenticated
  }

  /** The redirect the effect issues and the screen the component returns. */
  function Decide(isLoading: bool, user: Option<User>): (o: GuardOutcome)
    ensures o.redirect.Some? <==> !isLoading && user.None?
    ensures o.redirect.Some? ==> o.redirect.value == LOGIN_PATH
    ensures o.screen == Children <==> !isLoading && user.Some?
    ensures !(o.redirect.Some? && o.screen == Children)
  {
    var redirect := if !isLoading && user.None? then Some(LOGIN_PATH) else None;
    var screen := if isLoading || user.None? then LoadingScreen else Children;
    GuardOutcome(redirect, screen)
  }

  /** The decision depends on the state alone: loading waits, a user sees the page, nobody is sent to log in. */
  lemma DecideByStatus(isLoading: bool, user: Option<User>)
    ensures StatusOf(isLoading, user) == Loading ==> Decide(isLoading, user) == GuardOutcome(None, LoadingScreen)
    ensures StatusOf(isLoading, user) == Authenticated ==> Decide(isLoading, user) == GuardOutcome(None, Children)
    ensures StatusOf(isLoading, user) == Unauthenticated ==> Decide(isLoading, user) == GuardOutcome(Some(LOGIN_PATH), LoadingScreen)
  {
  }

  /** The values the redirect effect depends on. */
  datatype Deps = Deps(isLoading: bool, user: Option<User>)

  /**
   * The navigation the effect performs on a render: it runs on the first
   * render (`previous` is `None`) and again whenever a dependency changed.
   */
  function EffectRedirect(previous: Option<Deps>, current: Deps): (redirect: Option<string>)
    ensures redirect.Some? <==>
      (previous.None? || previous.value != current) && StatusOf(current.isLoading, current.user) == Unauthenticated
    ensures redirect.Some? ==> redirect.value == LOGIN_PATH
  {
    if previous.None? || previous.value != current then Decide(current.isLoading, current.user).redirect else None
  }

  /** After the provider signs in, the guard renders the page; after it signs out, the guard sends the visitor to log in. */
  lemma GuardFollowsAuthContext(email: string, u: User)
    ensures Decide(false, Some(User(MOCK_USER_ID, MOCK_USER_NAME, email))).screen == Children
    ensures EffectRedirect(Some(Deps(false, Some(u))), Deps(false, None)) == Some(LOGIN_PATH)
    ensures EffectRedirect(Some(Deps(true, None)), Deps(true, None)) == None
  {
  }
}
