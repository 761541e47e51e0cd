/** The two JSON records the server answers with, and the HTTP responses
    that carry them. A response is modelled by its HTTP status and the
    record in its body; the JSON text of the body is not modelled. */
module Responses {

  /** An `f32` result as it reaches the JSON body: a finite value, or an
      infinity or NaN, which the JSON writer emits as `null`. */
  datatype Float = Finite(value: real) | NonFinite

  /** `{"status": -1, "error_message": ..., "error_code": ...}` */
  datatype ErrorResponse = ErrorResponse(status: int, errorMessage: string, errorCode: int)

  /** `{"status": 0, "result": ...}` */
  datatype OpResponse = OpResponse(status: int, result: Float)

  datatype Body = OpBody(op: OpResponse) | ErrorBody(error: ErrorResponse)

  datatype HttpResponse = HttpResponse(httpStatus: int, body: Body)

  const Ok200: int := 200

  /** The HTTP builder accepts status codes 100 to 999 and panics on any
      other; every call in the server passes 404 or 405. */
  predicate IsStatusCode(code: int) {
    100 <= code <= 999
  }

  /** The shape every response keeps: an error record says status -1 and
      repeats the HTTP status as its error code; a result record says
      status 0 and travels with HTTP 200. */
  predicate WellShaped(r: HttpResponse) {
    match r.body
    case ErrorBody(e) => e.status == -1 && e.errorCode == r.httpStatus
    case OpBody(o) => o.status == 0 && r.httpStatus == Ok200
  }

  /** `ErrorResponse::create`: an error record sent with its own code as
      the HTTP status. */
  function CreateError(message: string, code: int): (r: HttpResponse)
    requires IsStatusCode(code)
    ensures WellShaped(r) && r.body.ErrorBody?
    ensures r.httpStatus == code && r.body.error.errorMessage == message
  {
    HttpResponse(code, ErrorBody(ErrorResponse(-1, message, code)))
  }

  /** `OpResponse::create`: a result record for a computed value. */
  function CreateOp(result: Float): (r: OpResponse)
    ensures WellShaped(HttpResponse(Ok200, OpBody(r)))
    ensures r.result == result
  {
    OpResponse(0, result)
  }
}
