/** What `annotate` makes of the Cloud Vision reply. */
module Vision {
  import opened Wrappers

  /** The reply to a face-detection request: a failure (creating the client or detecting)
      or the confidences of the detected faces, in the service's order. */
  datatype Reply = Failed | Faces(confidences: seq<real>)

  /** `annotate`: the first face's confidence; no face is a score of 0, not an error. */
  function Annotate(reply: Reply): (r: Result<real>)
    ensures r.Err? <==> reply.Failed?
    ensures reply.Faces? && reply.confidences == [] ==> r == Ok(0.0)
    ensures reply.Faces? && reply.confidences != [] ==> r.value == reply.confidences[0]
  {
    match reply
    case Failed => Err
    case Faces(confidences) =>
      if |confidences| == 0 then Ok(0.0) else Ok(confidences[0])
  }
}
