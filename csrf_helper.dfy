/** `csrf-helper.js`: the CSRF token read from the `XSRF-TOKEN` cookie, and the rule that
    adds it as the `X-XSRF-TOKEN` header to every request whose method is not GET, both on
    the `fetch` wrapper and on `XMLHttpRequest`. The cookie string is taken after
    `decodeURIComponent`. */
module CsrfHelper {
  import opened Wrappers
  import opened Text

  const CookieName: string := "XSRF-TOKEN="
  const HeaderName: string := "X-XSRF-TOKEN"
  const SameOrigin: string := "same-origin"

  /** The characters JavaScript's `String.prototype.trim` removes: the ECMAScript
      WhiteSpace and LineTerminator code points (tab to carriage return, space, no-break
      space, ogham space mark, the spaces U+2000 to U+200A, line and paragraph separator,
      narrow no-break space, medium mathematical space, ideographic space, byte order mark). */
  predicate IsJsSpace(c: char) {
    var n := c as int;
    (9 <= n <= 13) || n == 0x20 || n == 0xA0 || n == 0x1680 || (0x2000 <= n <= 0x200A)
    || n == 0x2028 || n == 0x2029 || n == 0x202F || n == 0x205F || n == 0x3000 || n == 0xFEFF
  }

  /** The first position at or after `i` that is not a JavaScript space, or `|s|`. */
  function JsSkipLeading(s: string, i: nat): (k: nat)
    requires i <= |s|
    ensures i <= k <= |s|
    ensures forall j :: i <= j < k ==> IsJsSpace(s[j])
    ensures k < |s| ==> !IsJsSpace(s[k])
    decreases |s| - i
  {
    if i == |s| || !IsJsSpace(s[i]) then i else JsSkipLeading(s, i + 1)
  }

  /** The end, at most `e` and at least `lo`, after which everything up to `e` is a
      JavaScript space. */
  function JsSkipTrailing(s: string, lo: nat, e: nat): (k: nat)
    requires lo <= e <= |s|
    ensures lo <= k <= e
    ensures forall j :: k <= j < e ==> IsJsSpace(s[j])
    ensures k > lo ==> !IsJsSpace(s[k - 1])
    decreases e
  {
    if e == lo || !IsJsSpace(s[e - 1]) then e else JsSkipTrailing(s, lo, e - 1)
  }

  /** How many characters `trim` removes from the front. */
  function JsLeadingSpaces(s: string): (k: nat)
    ensures k <= |s|
    ensures forall i :: 0 <= i < k ==> IsJsSpace(s[i])
    ensures k < |s| ==> !IsJsSpace(s[k])
  {
    JsSkipLeading(s, 0)
  }

  /** JavaScript `String.prototype.trim`: the longest middle part of `s` that neither
      starts nor ends with a JavaScript space. */
  function JsTrim(s: string): (r: string)
    ensures |r| <= |s|
    ensures r == [] || (!IsJsSpace(r[0]) && !IsJsSpace(r[|r| - 1]))
    ensures var k := JsLeadingSpaces(s); k + |r| <= |s| && r == s[k..k + |r|]
    ensures forall i :: 0 <= i < JsLeadingSpaces(s) ==> IsJsSpace(s[i])
    ensures forall i :: JsLeadingSpaces(s) + |r| <= i < |s| ==> IsJsSpace(s[i])
  {
    var k := JsSkipLeading(s, 0);
    var e := JsSkipTrailing(s, k, |s|);
    s[k..e]
  }

  /** One piece of the cookie string: trimmed, and when it starts with the cookie name,
      the rest of it. */
  function CookieValue(piece: string): (r: Option<string>)
    ensures r.Some? <==> StartsWith(JsTrim(piece), CookieName)
  {
    var cookie := JsTrim(piece);
    if StartsWith(cookie, CookieName) then Some(cookie[|CookieName|..]) else None
  }

  /** The trimmed piece is the cookie name followed by the token. */
  lemma CookieValueSplits(piece: string)
    requires CookieValue(piece).Some?
    ensures JsTrim(piece) == CookieName + CookieValue(piece).value
  {
    var cookie := JsTrim(piece);
    assert cookie == cookie[..|CookieName|] + cookie[|CookieName|..];
  }

  /** The cookie test of each piece, in order. */
  function CookieValues(pieces: seq<string>): (r: seq<Option<string>>)
    ensures |r| == |pieces| && forall i :: 0 <= i < |pieces| ==> r[i] == CookieValue(pieces[i])
  {
    seq(|pieces|, i requires 0 <= i < |pieces| => CookieValue(pieces[i]))
  }

  /** Where the first present value lies. */
  function FirstSome(values: seq<Option<string>>): (r: Option<nat>)
    ensures r.None? <==> forall i :: 0 <= i < |values| ==> values[i].None?
    ensures r.Some? ==> r.value < |values| && values[r.value].Some?
                        && forall j :: 0 <= j < r.value ==> values[j].None?
  {
    if values == [] then None
    else if values[0].Some? then Some(0)
    else
      var r := FirstSome(values[1..]);
      assert forall j :: 1 <= j < |values| ==> values[1..][j - 1] == values[j];
      if r.None? then None else Some(r.value + 1)
  }

  /** The token of the first piece that, trimmed, starts with the cookie name. */
  function TokenIn(pieces: seq<string>): (r: Option<string>)
    ensures r.None? <==> forall i :: 0 <= i < |pieces| ==> CookieValue(pieces[i]).None?
    ensures r.Some? ==> exists i :: 0 <= i < |pieces| && CookieValue(pieces[i]) == r
                                    && forall j :: 0 <= j < i ==> CookieValue(pieces[j]).None?
  {
    var values := CookieValues(pieces);
    var k := FirstSome(values);
    if k.None? then None else values[k.value]
  }

  /** The token is the value of the cookie test at the first piece that passes it. */
  lemma TokenAt(pieces: seq<string>, i: nat)
    requires i < |pieces| && CookieValue(pieces[i]).Some?
    requires forall j :: 0 <= j < i ==> CookieValue(pieces[j]).None?
    ensures TokenIn(pieces) == CookieValue(pieces[i])
  {
    var values := CookieValues(pieces);
    var k := FirstSome(values);
    assert values[i].Some?;
    assert k.Some? && k.value == i;
  }

  /** `getCsrfToken`: the cookie string split on ';', each piece trimmed, and the rest of
      the first piece that starts with "XSRF-TOKEN="; null when there is none. */
  method GetCsrfToken(decodedCookie: string) returns (token: Option<string>)
    ensures token == TokenIn(Split(decodedCookie, ';'))
    ensures token.Some? ==> ';' !in token.value
  {
    var cookies := Split(decodedCookie, ';');
    var i := 0;
    while i < |cookies|
      invariant 0 <= i <= |cookies|
      invariant forall j :: 0 <= j < i ==> CookieValue(cookies[j]).None?
    {
      var token := CookieValue(cookies[i]);
      if token.Some? {
        TokenAt(cookies, i);
        TokenHasNoSeparator(cookies[i], token.value);
        return token;
      }
      i := i + 1;
    }
    return None;
  }

  lemma TokenHasNoSeparator(piece: string, token: string)
    requires ';' !in piece && CookieValue(piece) == Some(token)
    ensures ';' !in token
  {
    var cookie := JsTrim(piece);
    var k := JsLeadingSpaces(piece);
    forall j | 0 <= j < |token| ensures token[j] != ';' {
      assert token[j] == cookie[|CookieName| + j] == piece[k + |CookieName| + j];
    }
  }

  /** A token without surrounding blanks is read back from a cookie that holds it, behind
      any pieces that are not the CSRF cookie. */
  lemma TokenFound(others: seq<string>, token: string)
    requires forall i :: 0 <= i < |others| ==> CookieValue(others[i]).None?
    requires token == [] || !IsJsSpace(token[|token| - 1])
    ensures TokenIn(others + [CookieName + token]) == Some(token)
  {
    CookieOfToken(token);
    TokenAfter(others, CookieName + token);
  }

  /** A cookie behind pieces that all fail the test gives the token. */
  lemma TokenAfter(others: seq<string>, cookie: string)
    requires forall i :: 0 <= i < |others| ==> CookieValue(others[i]).None?
    requires CookieValue(cookie).Some?
    ensures TokenIn(others + [cookie]) == CookieValue(cookie)
  {
    var all := others + [cookie];
    assert all[|others|] == cookie;
    assert forall j :: 0 <= j < |others| ==> all[j] == others[j];
    TokenAt(all, |others|);
  }

  /** The piece "XSRF-TOKEN=" followed by a token without trailing blanks passes the cookie
      test with that token. */
  lemma CookieOfToken(token: string)
    requires token == [] || !IsJsSpace(token[|token| - 1])
    ensures CookieValue(CookieName + token) == Some(token)
  {
    var cookie := CookieName + token;
    assert cookie[0] == 'X';
    JsTrimUnchanged(cookie);
    PrefixAndSuffix(CookieName, token);
  }

  /** `trim` leaves alone a string whose ends are not spaces. */
  lemma JsTrimUnchanged(s: string)
    requires s == [] || (!IsJsSpace(s[0]) && !IsJsSpace(s[|s| - 1]))
    ensures JsTrim(s) == s
  {
    if s != [] {
      var k := JsLeadingSpaces(s);
      assert k == 0;
      assert |JsTrim(s)| == |s|;
    }
  }

  /** JavaScript truthiness of a string that may be `null`/`undefined`: present and non-empty. */
  predicate Truthy(s: Option<string>) {
    s.Some? && s.value != ""
  }

  /** The header is added when there is a token and a method other than GET, in any case. */
  predicate AddsHeader(token: Option<string>, httpMethod: Option<string>) {
    Truthy(token) && Truthy(httpMethod) && ToUpper(httpMethod.value) != "GET"
  }

  /** The options a caller passes to `fetch`; `None` is a key the caller left out. */
  datatype FetchOptions = FetchOptions(httpMethod: Option<string>, credentials: Option<string>,
                                       headers: map<string, string>, body: Option<string>)

  /** `csrfFetch`'s options: the caller's options over `credentials: 'same-origin'` and
      empty headers, plus the CSRF header under `AddsHeader`. */
  function MergedOptions(options: FetchOptions, token: Option<string>): (merged: FetchOptions)
    ensures merged.httpMethod == options.httpMethod && merged.body == options.body
    ensures merged.credentials == if options.credentials.Some? then options.credentials else Some(SameOrigin)
    ensures forall h :: h in options.headers && h != HeaderName ==> h in merged.headers && merged.headers[h] == options.headers[h]
    ensures forall h :: h in merged.headers ==> h in options.headers || h == HeaderName
    ensures AddsHeader(token, options.httpMethod) ==> HeaderName in merged.headers && merged.headers[HeaderName] == token.value
    ensures !AddsHeader(token, options.httpMethod) ==> merged.headers == options.headers
  {
    var credentials := if options.credentials.Some? then options.credentials else Some(SameOrigin);
    var headers := map[] + options.headers;
    var headers' := if AddsHeader(token, options.httpMethod) then headers[HeaderName := token.value] else headers;
    FetchOptions(options.httpMethod, credentials, headers', options.body)
  }

  /** A GET request, in any letter case, never carries the header it did not already have. */
  lemma GetNeverAddsHeader(options: FetchOptions, token: Option<string>)
    requires options.httpMethod == Some("GET") || options.httpMethod == Some("get") || options.httpMethod.None?
    ensures MergedOptions(options, token).headers == options.headers
  {
    if options.httpMethod == Some("get") {
      assert ToUpper("get") == "GET";
    }
  }

  /** The `fetch` wrapper: reads the token from the cookie and hands the merged options
      to the original `fetch`, which is not part of this model. */
  method CsrfFetch(options: FetchOptions, decodedCookie: string) returns (sent: FetchOptions)
    ensures sent == MergedOptions(options, TokenIn(Split(decodedCookie, ';')))
  {
    var token := GetCsrfToken(decodedCookie);
    sent := MergedOptions(options, token);
  }

  /** The value a header list holds for `name` once `value` is added to it. */
  function Combined(headers: map<string, string>, name: string, value: string): (r: string)
    ensures name !in headers ==> r == value
    ensures name in headers ==> r == headers[name] + ", " + value
  {
    if name in headers then headers[name] + ", " + value else value
  }

  /** The patched `XMLHttpRequest`: `open` remembers the method and `send` sets the header. */
  class CsrfRequest {
    var csrfMethod: Option<string>
    var requestHeaders: map<string, string>

    constructor ()
      ensures csrfMethod.None? && requestHeaders == map[]
    {
      csrfMethod := None;
      requestHeaders := map[];
    }

    method Open(httpMethod: string)
      modifies this
      ensures csrfMethod == Some(httpMethod) && requestHeaders == old(requestHeaders)
    {
      csrfMethod := Some(httpMethod);
    }

    /** `setRequestHeader`: a header set again keeps its earlier value, followed by ", "
        and the new one. */
    method SetRequestHeader(name: string, value: string)
      modifies this
      ensures requestHeaders == old(requestHeaders)[name := Combined(old(requestHeaders), name, value)]
      ensures csrfMethod == old(csrfMethod)
    {
      requestHeaders := requestHeaders[name := Combined(requestHeaders, name, value)];
    }

    /** `send`: the same rule as the `fetch` wrapper, on the method given to `open`. */
    method Send(decodedCookie: string)
      modifies this
      ensures csrfMethod == old(csrfMethod)
      ensures var token := TokenIn(Split(decodedCookie, ';'));
              requestHeaders == if AddsHeader(token, old(csrfMethod))
                                then old(requestHeaders)[HeaderName := Combined(old(requestHeaders), HeaderName, token.value)]
                                else old(requestHeaders)
    {
      var token := GetCsrfToken(decodedCookie);
      if AddsHeader(token, csrfMethod) {
        SetRequestHeader(HeaderName, token.value);
      }
    }
  }
}
