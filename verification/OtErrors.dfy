/** Errors of the oblivious-transfer layer: only a failed consistency check is a reason to ban. */
module OtErrors {
  datatype ErrorOt = ConsistencyFailure | MalformedMessage
}
