/**
 * `registerUser` and `loginUser`: POST the credentials to the identity API and return its
 * body, or raise the server's own error message, or a fixed fallback when there was no response.
 */
module StrapiAuth {
  import opened Wrappers
  import opened Http

  const RegisterUrl: string := "http://localhost:1337/api/auth/local/register"
  const LoginUrl: string := "http://localhost:1337/api/auth/local"
  const RegisterFallback: string := "An unknown error occurred during registration."
  const LoginFallback: string := "An unknown error occurred during login."

  datatype Profile = Profile(username: string, email: string)

  /** The body of a successful registration or login. */
  datatype AuthResponse = AuthResponse(jwt: string, user: Profile)

  /**
   * `new Error(error.response.data.error.message)`: the server's message; the message of an
   * `Error` built from `undefined` is empty, and reading `message` of a missing `error`
   * object raises a `TypeError` instead.
   */
  function ServerError(body: ErrorBody): (t: Thrown)
    ensures t.TypeError? <==> body.error.None?
    ensures body.error.Some? && body.error.value.message.Some? ==> t == Error(body.error.value.message.value)
    ensures body.error.Some? && body.error.value.message.None? ==> t == Error("")
  {
    match body.error
    case None => TypeError
    case Some(detail) => Error(detail.message.GetOr(""))
  }

  /** The handling both identity calls share: pass the body through, or choose what to raise. */
  function Settle(o: Outcome<AuthResponse>, fallback: string): (r: Result<AuthResponse, Thrown>)
    ensures r.Ok? <==> o.Success?
    ensures r.Ok? ==> r.value == o.data
    ensures o.Response? ==> r == Err(ServerError(o.body))
    ensures !o.Success? && !o.Response? ==> r == Err(Error(fallback))
  {
    match o
    case Success(data) => Ok(data)
    case Response(_, body) => Err(ServerError(body))
    case _ => Err(Error(fallback))
  }

  function RegisterRequest(data: Credentials): (req: Request)
    requires data.Registration?
    ensures req.Post? && req.url == RegisterUrl && req.body == data
  {
    Post(RegisterUrl, data)
  }

  function LoginRequest(data: Credentials): (req: Request)
    requires data.Login?
    ensures req.Post? && req.url == LoginUrl && req.body == data
  {
    Post(LoginUrl, data)
  }

  /** `registerUser(registrationData)` against `server`. */
  function RegisterUser(data: Credentials, server: Server<AuthResponse>): (r: Result<AuthResponse, Thrown>)
    requires data.Registration?
    ensures var o := server(RegisterRequest(data));
      && (r.Ok? <==> o.Success?)
      && (r.Ok? ==> r.value == o.data)
      && (o.Response? ==> r == Err(ServerError(o.body)))
      && (!o.Success? && !o.Response? ==> r == Err(Error(RegisterFallback)))
  {
    Settle(server(RegisterRequest(data)), RegisterFallback)
  }

  /** `loginUser(loginData)` against `server`. */
  function LoginUser(data: Credentials, server: Server<AuthResponse>): (r: Result<AuthResponse, Thrown>)
    requires data.Login?
    ensures var o := server(LoginRequest(data));
      && (r.Ok? <==> o.Success?)
      && (r.Ok? ==> r.value == o.data)
      && (o.Response? ==> r == Err(ServerError(o.body)))
      && (!o.Success? && !o.Response? ==> r == Err(Error(LoginFallback)))
  {
    Settle(server(LoginRequest(data)), LoginFallback)
  }

  /** The two calls go to different endpoints, the login endpoint being a prefix of the register one. */
  lemma Endpoints()
    ensures RegisterUrl != LoginUrl && RegisterUrl == LoginUrl + "/register"
    ensures LoginUrl == Http.ApiBase + "auth/local"
  {
  }

  /**
   * A failed call raises the fallback only when no response arrived, or when the server's
   * own message happens to be that same text: a response is never replaced by the fallback.
   */
  lemma FallbackOnlyWithoutResponse(o: Outcome<AuthResponse>, fallback: string)
    ensures Settle(o, fallback) == Err(Error(fallback)) <==>
      (!o.Success? && !o.Response?) ||
      (o.Response? && o.body.error.Some? && o.body.error.value.message.GetOr("") == fallback)
  {
  }

  /** When the server rejects the credentials with a message, exactly that message is raised. */
  lemma RejectedLoginRaisesServerMessage(data: Credentials, server: Server<AuthResponse>, status: nat, message: string)
    requires data.Login?
    requires server(LoginRequest(data)) == Response(status, ErrorBody(Some(ErrorDetail(Some(message)))))
    ensures LoginUser(data, server) == Err(Error(message))
  {
  }

  /** When nothing came back, registration and login raise their own, different, fallbacks. */
  lemma FallbacksTellOperationsApart(reg: Credentials, login: Credentials, server: Server<AuthResponse>)
    requires reg.Registration? && login.Login?
    requires server(RegisterRequest(reg)).NoResponse? && server(LoginRequest(login)).NoResponse?
    ensures RegisterUser(reg, server) != LoginUser(login, server)
  {
    assert RegisterFallback[33] != LoginFallback[33];
  }
}
