/** Optional values, results, and the outcome of a call into code outside the model. */
module Wrappers {

  datatype Option<+T> = None | Some(value: T) {
    function GetOr(default: T): T {
      match this
      case Some(v) => v
      case None => default
    }
  }

  datatype Result<+T, +E> = Success(value: T) | Failure(error: E)

  /**
   * What a call into an external collaborator (a subprocess, a web API, a
   * library) did: it returned a value, or it raised.
   */
  datatype Call<+T> = Returned(value: T) | Raised
}

/** The exceptions the converter raises or lets escape. */
module Errors {

  datatype Error =
    | ValueError(message: string)     // bad path, unsupported destination token
    | RuntimeError(message: string)   // destination not available or not configured
    | TypeError                       // an operation applied to a value of the wrong type
    | DecodeError                     // file text is not valid UTF-8
    | OSError                         // a filesystem operation failed
    | CollaboratorError               // an injected collaborator raised
}
