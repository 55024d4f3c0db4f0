/** `GlobalExceptionHandler`: which requests count as static resources, and what each
    handler answers. */
module ExceptionHandling {
  import opened Text
  import opened LoginRedirect

  /** What a handler makes the response do. */
  datatype Outcome = SendError(status: int) | Redirect(location: string) | View(name: string)

  const NotFound: int := 404

  /** `isStaticResource`. */
  predicate IsStaticResource(uri: string) {
    || StartsWith(uri, "/css/")
    || StartsWith(uri, "/js/")
    || StartsWith(uri, "/images/")
    || EndsWith(uri, ".css")
    || EndsWith(uri, ".js")
    || EndsWith(uri, ".png")
    || EndsWith(uri, ".jpg")
    || EndsWith(uri, ".jpeg")
    || EndsWith(uri, ".gif")
    || EndsWith(uri, ".ico")
    || uri == "/manifest.json"
    || uri == "/sw.js"
  }

  /** `handleNotFound`: a missing static resource is a 404, a missing page a redirect to
      the login page. */
  function HandleNotFound(uri: string): (o: Outcome)
    ensures o == SendError(NotFound) <==> IsStaticResource(uri)
    ensures o != SendError(NotFound) <==> o == Redirect(LoginPath)
  {
    if IsStaticResource(uri) then SendError(NotFound) else Redirect(LoginPath)
  }

  /** `handleAuthenticationException`: always back to the login page. */
  function HandleAuthenticationException(uri: string): (o: Outcome)
    ensures o == Redirect(LoginPath)
  {
    Redirect(LoginPath)
  }

  /** `handleGenericException`: the error view on the login and registration pages, which
      would otherwise redirect to themselves, and a redirect to login elsewhere. */
  function HandleGenericException(uri: string): (o: Outcome)
    ensures o == View("error/500") <==> uri == LoginPath || uri == RegisterPath
    ensures o != View("error/500") ==> o == View("redirect:" + LoginPath)
  {
    if uri == LoginPath || uri == RegisterPath then View("error/500") else View("redirect:" + LoginPath)
  }

  /** The generic error handler never redirects a request for the login page to itself. */
  lemma NoLoginLoop()
    ensures HandleGenericException(LoginPath) != View("redirect:" + LoginPath)
  {
  }

  /** The static-resource directories and files are also on the interceptor's allow-list,
      so a missing one is answered with 404 rather than a login redirect. */
  lemma StaticPrefixesAllowed(uri: string, debugEnabled: bool, h2ConsoleEnabled: bool)
    requires StartsWith(uri, "/css/") || StartsWith(uri, "/js/") || StartsWith(uri, "/images/")
             || uri == "/manifest.json" || uri == "/sw.js"
    ensures IsStaticResource(uri) && IsAllowedPath(uri, debugEnabled, h2ConsoleEnabled)
    ensures HandleNotFound(uri) == SendError(NotFound)
  {
  }
}
