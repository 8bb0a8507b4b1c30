/**
 * The envelope every controller wraps its payload in: a success flag, a
 * message, an optional payload and optional error details.
 */
module Envelope {
  import opened Common

  /** The error details of an error envelope; the controllers here never fill them. */
  type ErrorDetails = seq<string>

  datatype ApiResponse<T> = ApiResponse(success: bool, message: string, data: Option<T>, errors: Option<ErrorDetails>)

  /**
   * The two-argument constructor: a success envelope with that payload
   * (possibly null) and no errors, whatever the message says.
   */
  function WithData<T>(message: string, data: Option<T>): (r: ApiResponse<T>)
    ensures r.success && r.errors.None?
    ensures r.message == message && r.data == data
  {
    ApiResponse(true, message, data, None)
  }

  /** The three-argument constructor: no payload, the given flag and errors. */
  function WithErrors<T>(message: string, errors: Option<ErrorDetails>, success: bool): (r: ApiResponse<T>)
    ensures r.data.None?
    ensures r.success == success && r.message == message && r.errors == errors
  {
    ApiResponse(success, message, None, errors)
  }

  /** success(message, data). */
  function Success<T>(message: string, data: Option<T>): (r: ApiResponse<T>)
    ensures r.success && r.errors.None? && r.data == data && r.message == message
  {
    WithData(message, data)
  }

  /** error(message, errors). */
  function Error<T>(message: string, errors: Option<ErrorDetails>): (r: ApiResponse<T>)
    ensures !r.success && r.data.None? && r.errors == errors && r.message == message
  {
    WithErrors(message, errors, false)
  }

  /** error(message). */
  function ErrorMessage<T>(message: string): (r: ApiResponse<T>)
    ensures !r.success && r.data.None? && r.errors.None? && r.message == message
  {
    WithErrors(message, None, false)
  }

  /**
   * The factories are the constructors they call, and a success and an
   * error envelope never coincide: each envelope is of exactly one kind.
   */
  lemma FactoriesAreConstructors<T>(message: string, data: Option<T>, errors: Option<ErrorDetails>)
    ensures Success(message, data) == WithData(message, data)
    ensures Error<T>(message, errors) == WithErrors(message, errors, false)
    ensures ErrorMessage<T>(message) == Error(message, None)
    ensures Success(message, data) != Error(message, errors)
  {
  }
}
