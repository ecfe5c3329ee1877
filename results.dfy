/** Shared value shapes: optional values, Go's (value, error) pairs, and the
    already-decoded HTTP replies that the client wrappers classify. */
module Results {

  datatype Option<+T> = None | Some(value: T)

  /** A Go `(value, error)` return: `Err` carries the error's text. */
  datatype Result<+T> = Ok(value: T) | Err(error: string)

  /** What a request wrapper sees once the transport and the body decoder
      have run: a transport failure, or a status line with a decoded body
      (or the decoder's complaint). */
  datatype Body<+T> = Decoded(value: T) | Undecodable(error: string)

  datatype Reply<+T> =
    | TransportError(error: string)
    | Response(statusCode: int, status: string, body: Body<T>)
}
