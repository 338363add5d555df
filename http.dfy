/** The request and error vocabulary shared by the portal's modules. Python
    exceptions become explicit `Err`/`Fail` values. */
module Http {

  datatype Option<+T> = None | Some(value: T)

  /** Why a request failed: an `HTTPException(status_code, detail)` raised on
      purpose, or an exception nobody catches (answered with status 500). */
  datatype Error =
    | HttpError(status: nat, detail: string)
    | Unhandled(exception: string)

  datatype Result<+T> = Ok(value: T) | Err(error: Error)

  /** Outcome of a check that returns nothing and may raise. */
  datatype Outcome = Pass | Fail(error: Error)

  /** An instant in UTC, taken as a parameter wherever the source reads the clock. */
  type Time = int

  /** An incoming request (`verb` is the HTTP method). Header names are stored lower-case, as Starlette
      compares them case-insensitively; `form` is the parsed form body and
      `client` the peer host, when known. */
  datatype Request = Request(
    verb: string,
    headers: map<string, string>,
    cookies: map<string, string>,
    form: map<string, string>,
    client: Option<string>)

  /** `request.headers.get(name)` for a lower-case `name`. */
  function Header(r: Request, name: string): Option<string> {
    if name in r.headers then Some(r.headers[name]) else None
  }

  /** `request.cookies.get(name)`. */
  function Cookie(r: Request, name: string): Option<string> {
    if name in r.cookies then Some(r.cookies[name]) else None
  }

  /** `form.get(name)`. */
  function FormField(r: Request, name: string): Option<string> {
    if name in r.form then Some(r.form[name]) else None
  }

  /** Python truthiness of an optional string: present and non-empty. */
  predicate Truthy(v: Option<string>) {
    v.Some? && v.value != ""
  }

  /** Python's `a or b` on optional strings. */
  function Or(a: Option<string>, b: Option<string>): Option<string> {
    if Truthy(a) then a else b
  }
}
