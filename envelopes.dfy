/**
 * The response envelope of src/utils/response.ts: every handler answers with
 * `{success: false, error: {status, subStatus, message}}` or
 * `{success: true, data}`.
 */
module Envelopes {

  /** A JavaScript number as `parseInt` produces it: an integer or NaN. */
  datatype Num = Int(value: int) | NaN

  /** The `Error` / `ResError` record: an HTTP-style status, a field-level sub-status and a text. */
  datatype ResError = ResError(status: Num, subStatus: Num, message: string)

  /** An envelope keeps its `success` flag as a stored field, as the object literal does. */
  datatype Envelope<+D> =
    | FailedResponse(success: bool, error: ResError)
    | SuccessResponse(success: bool, data: D)

  /** The flag agrees with the shape: `success` is true exactly when the envelope carries data. */
  predicate WellFormed<D>(r: Envelope<D>)
  {
    r.success <==> r.SuccessResponse?
  }

  /** `failed(error)`: a failure envelope copying the three error fields unchanged. */
  function Failed<D>(e: ResError): (r: Envelope<D>)
    ensures !r.success && WellFormed(r)
    ensures r.FailedResponse? && r.error.status == e.status
    ensures r.error.subStatus == e.subStatus && r.error.message == e.message
  {
    FailedResponse(false, ResError(e.status, e.subStatus, e.message))
  }

  /** `success(data)`: a success envelope carrying `data` as given. */
  function Success<D>(data: D): (r: Envelope<D>)
    ensures r.success && WellFormed(r)
    ensures r.SuccessResponse? && r.data == data
  {
    SuccessResponse(true, data)
  }
}
