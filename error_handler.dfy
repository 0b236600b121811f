/**
 * The `errorHandler` and `notFound` middleware: the status a thrown error is reported with,
 * and the JSON body sent for it.
 */
module ErrorHandler {
  import opened Wrappers

  datatype ErrorBody = ErrorBody(success: bool, message: string, stack: Option<string>)

  datatype ErrorResponse = ErrorResponse(status: nat, body: ErrorBody)

  const Ok200: nat := 200

  /** `res.statusCode === 200 ? 500 : res.statusCode` */
  function ReportedStatus(statusCode: nat): (s: nat)
    ensures s != Ok200
    ensures statusCode != Ok200 ==> s == statusCode
    ensures statusCode == Ok200 ==> s == ServerError
  {
    if statusCode == Ok200 then ServerError else statusCode
  }

  /**
   * `errorHandler`: never `success`, the error's own message, and the stack only when the
   * environment is `development`.
   */
  function HandleError(statusCode: nat, message: string, stack: string, development: bool): (r: ErrorResponse)
    ensures r.status == ReportedStatus(statusCode)
    ensures !r.body.success && r.body.message == message
    ensures r.body.stack.Some? <==> development
    ensures development ==> r.body.stack == Some(stack)
  {
    ErrorResponse(ReportedStatus(statusCode), ErrorBody(false, message, if development then Some(stack) else None))
  }

  /** A handler's `HttpError` as the client receives it. */
  function Respond(e: HttpError, stack: string, development: bool): (r: ErrorResponse)
    ensures e.status != Ok200 ==> r.status == e.status
    ensures r.body.message == e.message && !r.body.success
  {
    HandleError(e.status, e.message, stack, development)
  }

  /** `notFound`: status 404 and an error naming the URL, passed on to `errorHandler`. */
  function NotFoundError(originalUrl: string): (e: HttpError)
    ensures e.status == NotFound
    ensures |e.message| == |"Not Found - "| + |originalUrl|
    ensures e.message[..12] == "Not Found - " && e.message[12..] == originalUrl
  {
    HttpError(NotFound, "Not Found - " + originalUrl)
  }

  /** An unknown route is answered with 404 and its URL in the message. */
  lemma UnknownRouteAnswered(originalUrl: string, stack: string, development: bool)
    ensures var r := Respond(NotFoundError(originalUrl), stack, development);
      r.status == NotFound && r.body.message == "Not Found - " + originalUrl
  {
  }
}
