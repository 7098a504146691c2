/** Shared vocabulary of the POS model: optional values, HTTP error replies and ids. */
module Common {

  /** A value that may be absent (a JSON field that was not sent, a lookup that found nothing). */
  datatype Option<T> = None | Some(value: T) {
    function GetOr(default: T): T {
      if Some? then value else default
    }
  }

  /** An HTTP error reply: the status code and the `error` text of its JSON body. */
  datatype ApiError = ApiError(status: nat, message: string)

  /** The outcome of a request handler: a successful payload or an error reply. */
  datatype Result<T> = Ok(value: T) | Err(error: ApiError)

  /** Store-generated document identifiers, opaque in the system; naturals here. */
  type ProductId = nat
  type UserId = nat

  /** The text a mongoose validation failure puts in the reply; its exact wording is not modelled. */
  const ValidationFailed: string := "Validation failed"
  /** The text of a duplicate-key failure on a unique index; its exact wording is not modelled. */
  const DuplicateKey: string := "Duplicate key"
}
