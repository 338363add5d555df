/** apphub/app/csrf.py: double-submit CSRF protection. The token lives in a
    cookie that page scripts can read; a state-changing request must echo it
    in the X-CSRF-Token header or in the `csrf_token` form field. */
module Csrf {
  import opened Text
  import opened Http

  const CookieName := "apphub_csrf"
  const HeaderName := "x-csrf-token"   // X-CSRF-Token
  const FieldName := "csrf_token"
  const MissingToken := HttpError(403, "Missing CSRF token")
  const InvalidToken := HttpError(403, "Invalid CSRF token")

  /** `csrf_token(request)`: the token already in the cookie, or a new one
      when the cookie is missing or empty. `issued` stands for
      `secrets.token_urlsafe(32)`. */
  function CsrfToken(r: Request, issued: string): (token: string)
    ensures Truthy(Cookie(r, CookieName)) ==> token == r.cookies[CookieName]
    ensures !Truthy(Cookie(r, CookieName)) ==> token == issued
  {
    var cookie := Cookie(r, CookieName);
    if Truthy(cookie) then cookie.value else issued
  }

  /** A `Set-Cookie` instruction. */
  datatype SetCookie = SetCookie(
    name: string,
    value: string,
    httpOnly: bool,
    secure: bool,
    sameSite: string,
    path: string)

  /** `set_csrf_cookie(response, token)`: readable by scripts (so they can
      echo it), HTTPS only, same-site lax, for the whole site. */
  function CsrfCookie(token: string): (c: SetCookie)
    ensures c.name == CookieName && c.value == token
    ensures !c.httpOnly && c.secure && c.sameSite == "lax" && c.path == "/"
  {
    SetCookie(CookieName, token, false, true, "lax", "/")
  }

  /** The request as the browser sends it back once it stores cookie `c`. */
  function WithCookie(r: Request, c: SetCookie): Request {
    r.(cookies := r.cookies[c.name := c.value])
  }

  /** The methods that skip the check; the comparison is case-sensitive. */
  predicate IsSafeMethod(verb: string) {
    verb in {"GET", "HEAD", "OPTIONS"}
  }

  function ContentType(r: Request): string {
    if "content-type" in r.headers then r.headers["content-type"] else ""
  }

  /** Only form bodies are read for a token. */
  predicate IsFormBody(r: Request) {
    StartsWith(ContentType(r), "application/x-www-form-urlencoded") ||
    StartsWith(ContentType(r), "multipart/form-data")
  }

  function FormToken(r: Request): Option<string> {
    if IsFormBody(r) then FormField(r, FieldName) else None
  }

  /** `header_token or form_token`. */
  function ProvidedToken(r: Request): Option<string> {
    Or(Header(r, HeaderName), FormToken(r))
  }

  /** `validate_csrf(request)`: a safe method passes; otherwise the cookie and
      a provided token must both be non-empty (403 "Missing CSRF token") and
      equal (403 "Invalid CSRF token"). The header takes precedence over the
      form field. */
  function ValidateCsrf(r: Request): (o: Outcome)
    ensures o == Pass || o == Fail(MissingToken) || o == Fail(InvalidToken)
    ensures IsSafeMethod(r.verb) ==> o == Pass
    ensures !IsSafeMethod(r.verb) ==>
              (o == Fail(MissingToken) <==>
                 !Truthy(Cookie(r, CookieName)) || !Truthy(ProvidedToken(r)))
    ensures !IsSafeMethod(r.verb) ==>
              (o == Pass <==>
                 Truthy(Cookie(r, CookieName)) && Truthy(ProvidedToken(r)) &&
                 r.cookies[CookieName] == ProvidedToken(r).value)
  {
    if IsSafeMethod(r.verb) then Pass
    else
      var cookie := Cookie(r, CookieName);
      var header := Header(r, HeaderName);
      var form := FormToken(r);
      if !Truthy(cookie) || !(Truthy(header) || Truthy(form)) then Fail(MissingToken)
      else
        var provided := Or(header, form);
        if cookie.value != provided.value then Fail(InvalidToken) else Pass
  }

  /** The double-submit round trip: a client that stores the issued cookie
      and echoes the token in the header passes the check, whatever the
      method and whatever else the request carries. */
  lemma {:induction false} EchoedHeaderPasses(r: Request, issued: string, r2: Request)
    requires issued != ""
    requires var c := CsrfCookie(CsrfToken(r, issued));
             r2.cookies == WithCookie(r, c).cookies && Header(r2, HeaderName) == Some(c.value)
    ensures ValidateCsrf(r2) == Pass
  {
    var t := CsrfToken(r, issued);
    assert t != "";
    assert Cookie(r2, CookieName) == Some(t);
  }

  /** The same round trip through a form: with a form content type and no
      header, the echoed `csrf_token` field passes. */
  lemma {:induction false} EchoedFormPasses(r: Request, token: string)
    requires token != ""
    requires Cookie(r, CookieName) == Some(token)
    requires !Truthy(Header(r, HeaderName))
    requires IsFormBody(r) && FormField(r, FieldName) == Some(token)
    ensures ValidateCsrf(r) == Pass
  {
    assert ProvidedToken(r) == Some(token);
  }

  /** Once issued, the token is stable: a client that sends the cookie back
      gets the same token again, whatever new value would be drawn. */
  lemma {:induction false} TokenStable(r: Request, issued: string, another: string)
    requires issued != ""
    ensures var c := CsrfCookie(CsrfToken(r, issued));
            CsrfToken(WithCookie(r, c), another) == c.value
  {
    var c := CsrfCookie(CsrfToken(r, issued));
    assert c.value != "";
    assert Cookie(WithCookie(r, c), CookieName) == Some(c.value);
  }

  /** The header wins: a non-empty header that differs from the cookie is
      refused even when the form field matches. */
  lemma {:induction false} HeaderTakesPrecedence(r: Request)
    requires !IsSafeMethod(r.verb)
    requires Truthy(Cookie(r, CookieName)) && Truthy(Header(r, HeaderName))
    requires Header(r, HeaderName).value != r.cookies[CookieName]
    ensures ValidateCsrf(r) == Fail(InvalidToken)
  {
    assert ProvidedToken(r) == Header(r, HeaderName);
  }

  /** Outside form bodies the form field is never consulted: such a request
      is judged by the cookie and the header alone. */
  lemma {:induction false} FormIgnoredUnlessForm(r: Request, form: map<string, string>)
    requires !IsFormBody(r)
    ensures ValidateCsrf(r.(form := form)) == ValidateCsrf(r)
  {
    assert ContentType(r.(form := form)) == ContentType(r);
    assert FormToken(r.(form := form)) == None == FormToken(r);
  }

  /** The safe-method list is case-sensitive: a lower-case "get" without the
      cookie is refused. */
  lemma LowerCaseGetChecked(r: Request)
    requires r.verb == "get" && !Truthy(Cookie(r, CookieName))
    ensures ValidateCsrf(r) == Fail(MissingToken)
  {
  }
}
