/**
 * What a controller endpoint answers: a status and an optional envelope,
 * or the service's exception escaping the controller because no catch
 * clause takes it (it then goes to the framework's error handling, which
 * is not part of this model).
 */
module Http {
  import opened Common
  import opened Envelope

  datatype Status = OK | CREATED | NO_CONTENT | BAD_REQUEST | NOT_FOUND
  {
    function Code(): nat {
      match this
      case OK => 200
      case CREATED => 201
      case NO_CONTENT => 204
      case BAD_REQUEST => 400
      case NOT_FOUND => 404
    }

    predicate IsSuccess() {
      Code() < 300
    }
  }

  datatype Reply<T> = Reply(status: Status, body: Option<ApiResponse<T>>) | Unhandled(failure: Failure)

  /** An endpoint's answer on success: 200 with the envelope of the payload. */
  function OkWith<T>(message: string, data: T): (r: Reply<T>)
    ensures r.Reply? && r.status.IsSuccess() && r.body == Some(WithData(message, Some(data)))
  {
    Reply(OK, Some(WithData(message, Some(data))))
  }

  /** What one catch clause does with the exception it takes. */
  datatype Handler =
    | ToNotFound    // `ResponseEntity.notFound().build()`: 404 without a body
    | ToBadRequest  // `badRequest().body(new ApiResponse<>(e.getMessage(), null))`
    | Uncaught      // no catch clause takes it

  /**
   * The shape of one try/catch endpoint: its success status, its success
   * envelope (none for a bodiless 204) and whether that envelope carries the
   * service's value, and the handler of each exception class.
   */
  datatype Endpoint = Endpoint(
    success: Status,
    message: Option<string>,
    withData: bool,
    onNotFound: Handler,
    onIllegalArgument: Handler,
    onIllegalState: Handler)
  {
    predicate Valid() {
      success.IsSuccess()
    }

    function HandlerFor(k: ErrorKind): Handler {
      match k
      case EntityNotFound => onNotFound
      case IllegalArgument => onIllegalArgument
      case IllegalState => onIllegalState
    }
  }

  /**
   * The try/catch of an endpoint applied to the service's outcome. A reply
   * is a success exactly when the service returned; a caught exception is a
   * bodiless 404 or a 400 whose envelope carries the exception's message
   * (flagged as a success, as the two-argument constructor always does); an
   * uncaught one escapes unchanged.
   */
  function Respond<T>(e: Endpoint, r: Result<T>): (reply: Reply<T>)
    requires e.Valid()
    ensures reply.Unhandled? <==> r.Err? && e.HandlerFor(r.failure.kind) == Uncaught
    ensures reply.Unhandled? ==> reply.failure == r.failure
    ensures reply.Reply? ==> (reply.status.IsSuccess() <==> r.Ok?)
    ensures r.Ok? ==> reply.status == e.success && (reply.body.Some? <==> e.message.Some?)
    ensures r.Ok? && e.message.Some? ==>
              reply.body.value.success && reply.body.value.message == e.message.value
              && reply.body.value.data == (if e.withData then Some(r.value) else None)
    ensures r.Err? && e.HandlerFor(r.failure.kind) == ToNotFound ==> reply == Reply(NOT_FOUND, None)
    ensures r.Err? && e.HandlerFor(r.failure.kind) == ToBadRequest ==>
              reply.Reply? && reply.status == BAD_REQUEST && reply.body.Some?
              && reply.body.value.message == r.failure.message && reply.body.value.data.None?
  {
    if r.Ok? then
      var body := if e.message.None? then None
                  else Some(WithData(e.message.value, if e.withData then Some(r.value) else None));
      Reply(e.success, body)
    else
      match e.HandlerFor(r.failure.kind)
      case ToNotFound => Reply(NOT_FOUND, None)
      case ToBadRequest => Reply(BAD_REQUEST, Some(WithData(r.failure.message, None)))
      case Uncaught => Unhandled(r.failure)
  }

  /** The service's outcome with its value converted, as the controllers' mapper calls do. */
  function MapResult<T, U>(r: Result<T>, f: T -> U): (s: Result<U>)
    ensures s.Ok? <==> r.Ok?
    ensures s.Ok? ==> s.value == f(r.value)
    ensures s.Err? ==> s.failure == r.failure
  {
    if r.Ok? then Ok(f(r.value)) else Err(r.failure)
  }
}
