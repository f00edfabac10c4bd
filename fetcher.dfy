/**
 * `parseErrMsg` of src/fetcher/parseErrMsg.ts: the text shown for a failed
 * HTTP request. The error either carries the server's response, or only the
 * request that got no response, or neither (the request was never sent).
 */
module Fetcher {
  import opened Wrappers

  /** The JSON body of an error response; its `message` may be absent. */
  datatype ResponseData = ResponseData(message: Option<string>)

  datatype ErrorResponse = ErrorResponse(status: int, data: ResponseData)

  /** An axios error: its own message, the response if any, and whether a request went out. */
  datatype AxiosError = AxiosError(message: string, response: Option<ErrorResponse>, requestSent: bool)

  const NetworkError: string := "Network Error"

  /**
   * The message to show; `None` is the `undefined` read from a response body
   * without a `message`. A response with a status of 400 or more speaks for
   * itself; any other response, and an error with no request, fall back to
   * the error's own message; a request without response is a network error.
   */
  function ParseErrMsg(e: AxiosError): (r: Option<string>)
    ensures e.response.Some? && e.response.value.status >= 400 ==> r == e.response.value.data.message
    ensures e.response.Some? && e.response.value.status < 400 ==> r == Some(e.message)
    ensures e.response.None? && e.requestSent ==> r == Some(NetworkError)
    ensures e.response.None? && !e.requestSent ==> r == Some(e.message)
  {
    if e.response.Some? then
      if e.response.value.status > 399 then e.response.value.data.message else Some(e.message)
    else if e.requestSent then
      Some(NetworkError)
    else
      Some(e.message)
  }

  /** A response decides the message whether or not a request is also recorded. */
  lemma ResponseTakesPrecedence(e: AxiosError)
    requires e.response.Some?
    ensures ParseErrMsg(e) == ParseErrMsg(e.(requestSent := true)) == ParseErrMsg(e.(requestSent := false))
  {
  }

  /** The message is undefined only for a 4xx/5xx response whose body has no message. */
  lemma UndefinedOnlyFromServer(e: AxiosError)
    ensures ParseErrMsg(e).None? <==>
      e.response.Some? && e.response.value.status >= 400 && e.response.value.data.message.None?
  {
  }
}
