/**
 * The parts of the HTTP kernel's request, response and event objects that the
 * detector touches. How the framework resolves the client address (remote
 * address, forwarded headers, trusted proxies) is not modelled: a request
 * simply carries the address it resolves to, or none.
 */
module Http {
  import opened Wrappers

  datatype Request = Request(clientIp: Option<string>)

  datatype Response = Response(statusCode: int, content: string)

  /** The rejection sent to a blocked client. */
  const SCAN_FORBIDDEN: Response := Response(403, "ScanForbidden")

  /** The kind of throwable carried by an exception event: only "not found" matters. */
  datatype Throwable = NotFoundHttpException | OtherThrowable

  /** The kernel's exception event; the detector only reads it. */
  datatype ExceptionEvent = ExceptionEvent(request: Request, throwable: Throwable)

  /** The kernel's request event; a listener may set its response and stop its propagation. */
  class RequestEvent {
    const request: Request
    var response: Option<Response>
    var propagationStopped: bool

    constructor (request: Request)
      ensures this.request == request && response == None && !propagationStopped
    {
      this.request := request;
      response := None;
      propagationStopped := false;
    }

    method SetResponse(response: Response)
      modifies this`response
      ensures this.response == Some(response)
    {
      this.response := Some(response);
    }

    method StopPropagation()
      modifies this`propagationStopped
      ensures propagationStopped
    {
      propagationStopped := true;
    }
  }
}
