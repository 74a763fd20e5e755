/** Errors of the multiplication layer; they keep the classification of the OT layer. */
module MulErrors {
  import OtErrors

  datatype ErrorMul = ConsistencyFailure | MalformedMessage

  function FromOt(e: OtErrors.ErrorOt): (r: ErrorMul)
    ensures r.ConsistencyFailure? <==> e.ConsistencyFailure?
  {
    match e
    case ConsistencyFailure => ConsistencyFailure
    case MalformedMessage => MalformedMessage
  }
}
