/** Failure-carrying wrappers shared by every module of the model.
    A JavaScript `null` becomes `None`; a thrown `Error` becomes `Err(message)`. */
module Wrappers {

  datatype Option<+T> = None | Some(value: T)

  datatype Result<+T> = Ok(value: T) | Err(message: string)

  /** The answer of a remote service (HTTP endpoint or SDK call) to one request:
      it completed (`Delivered`), it answered with a failure status or an SDK error
      object (`Refused`), or the call itself threw (`Raised`, e.g. a network error). */
  datatype Reply = Delivered | Refused(status: string) | Raised(error: string)

  /** The error a caller sees when it rethrows the SDK's error object of a failed reply. */
  function ErrorOf(reply: Reply): (e: string)
    requires !reply.Delivered?
    ensures reply.Refused? ==> e == reply.status
    ensures reply.Raised? ==> e == reply.error
  {
    if reply.Refused? then reply.status else reply.error
  }
}
