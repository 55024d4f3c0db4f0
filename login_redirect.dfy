/** `LoginRedirectInterceptor`: the paths every visitor may reach, widened by the debug and
    H2-console switches, and the rule that sends an unauthenticated request elsewhere to
    the login page. */
module LoginRedirect {
  import opened Wrappers
  import opened Text

  const LoginPath: string := "/login"
  const RegisterPath: string := "/register"
  const AnonymousUser: string := "anonymousUser"

  /** The security context's authentication, when there is one. */
  datatype Authentication = Authentication(authenticated: bool, name: string)

  datatype Decision = Proceed | RedirectToLogin

  /** The paths allowed whatever the configuration. */
  predicate AlwaysAllowed(uri: string) {
    || StartsWith(uri, "/css/")
    || StartsWith(uri, "/js/")
    || StartsWith(uri, "/images/")
    || uri == "/manifest.json"
    || uri == "/sw.js"
    || StartsWith(uri, "/icon-")
    || uri == "/apple-touch-icon.png"
    || uri == LoginPath
    || uri == RegisterPath
    || uri == "/profile/create"
    || uri == "/error"
    || uri == "/passreset"
    || StartsWith(uri, "/api/auth/")
  }

  /** `isAllowedPath` under the two switches `app.debug.enabled` and
      `spring.h2.console.enabled`. */
  predicate IsAllowedPath(uri: string, debugEnabled: bool, h2ConsoleEnabled: bool) {
    || AlwaysAllowed(uri)
    || (debugEnabled && (StartsWith(uri, "/login/") || uri == "/icon-generator.html"))
    || (h2ConsoleEnabled && StartsWith(uri, "/h2-console/"))
  }

  /** A signed-in user: an authentication that is authenticated and not the anonymous one. */
  predicate IsAuthenticated(auth: Option<Authentication>) {
    auth.Some? && auth.value.authenticated && auth.value.name != AnonymousUser
  }

  /** `preHandle`: allowed paths proceed; otherwise an unauthenticated request to anything
      but the login and registration pages is redirected to the login page. */
  function PreHandle(uri: string, auth: Option<Authentication>, debugEnabled: bool, h2ConsoleEnabled: bool)
    : (d: Decision)
    ensures IsAllowedPath(uri, debugEnabled, h2ConsoleEnabled) ==> d == Proceed
    ensures IsAuthenticated(auth) ==> d == Proceed
    ensures d == RedirectToLogin <==>
              !IsAllowedPath(uri, debugEnabled, h2ConsoleEnabled) && !IsAuthenticated(auth)
  {
    if IsAllowedPath(uri, debugEnabled, h2ConsoleEnabled) then Proceed
    else if !IsAuthenticated(auth) && uri != LoginPath && uri != RegisterPath then RedirectToLogin
    else Proceed
  }

  /** The switches only widen the allow-list: whatever is allowed without them is allowed
      with them. */
  lemma SwitchesOnlyWiden(uri: string, debugEnabled: bool, h2ConsoleEnabled: bool)
    ensures IsAllowedPath(uri, false, false) ==> IsAllowedPath(uri, debugEnabled, h2ConsoleEnabled)
    ensures IsAllowedPath(uri, false, false) <==> AlwaysAllowed(uri)
  {
  }

  /** What debug mode adds beyond the base list is exactly the paths under "/login/": the
      icon generator page already starts with "/icon-". */
  lemma DebugAddsOnlyLoginSubpaths(uri: string)
    ensures IsAllowedPath(uri, true, false) && !IsAllowedPath(uri, false, false) <==>
              StartsWith(uri, "/login/") && !AlwaysAllowed(uri)
  {
    if uri == "/icon-generator.html" {
      assert StartsWith(uri, "/icon-");
    }
  }

  /** The login and registration pages never redirect: they are on the base allow-list. */
  lemma LoginPagesProceed(auth: Option<Authentication>, debugEnabled: bool, h2ConsoleEnabled: bool)
    ensures PreHandle(LoginPath, auth, debugEnabled, h2ConsoleEnabled) == Proceed
    ensures PreHandle(RegisterPath, auth, debugEnabled, h2ConsoleEnabled) == Proceed
  {
  }

  /** Any path outside every allow-list is redirected for the anonymous user. */
  lemma AnonymousRedirected(uri: string, debugEnabled: bool, h2ConsoleEnabled: bool)
    requires !IsAllowedPath(uri, debugEnabled, h2ConsoleEnabled)
    ensures PreHandle(uri, Some(Authentication(true, AnonymousUser)), debugEnabled, h2ConsoleEnabled) == RedirectToLogin
    ensures PreHandle(uri, None, debugEnabled, h2ConsoleEnabled) == RedirectToLogin
  {
  }
}
