/**
 * The HTTP client as the remote-call helpers see it: the request they issue, and the
 * shape of what comes back (a response body on success, or one of axios's failure shapes).
 */
module Http {
  import opened Wrappers

  /** The address of the content and identity API. */
  const ApiBase: string := "http://localhost:1337/api/"

  /** The credentials posted to the identity endpoints. */
  datatype Credentials =
    | Registration(username: string, email: string, password: string)
    | Login(identifier: string, password: string)

  /** An outbound request: a GET with its headers, or a POST with its JSON body. */
  datatype Request =
    | Get(url: string, headers: map<string, string>)
    | Post(url: string, body: Credentials)

  /** The `error` object of a failed identity call's JSON body, whose `message` may be missing. */
  datatype ErrorDetail = ErrorDetail(message: Option<string>)

  /** The JSON body of an error response; `error` may be missing. */
  datatype ErrorBody = ErrorBody(error: Option<ErrorDetail>)

  /** What a request comes to. */
  datatype Outcome<T> =
    | Success(data: T)                        // a 2xx response with its decoded body
    | Response(status: nat, body: ErrorBody)  // an axios error with `error.response`
    | NoResponse                              // an axios error with `error.request` but no response
    | SetupFailed(message: string)            // an axios error with neither: the request was never sent
    | NonAxios                                // anything else that was thrown

  /** What a helper raises: an `Error` with its message, or the `TypeError` of reading a missing property. */
  datatype Thrown = Error(message: string) | TypeError

  /** The server, seen as a function from the request sent to what it comes to. */
  type Server<T> = Request -> Outcome<T>
}
