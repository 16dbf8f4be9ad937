/** Values shared by the models and the HTTP handlers of the cashier application. */
module Common {

  /** A value that may be absent: SQL NULL, an `undefined` request field, no uploaded file. */
  datatype Option<+T> = None | Some(value: T)

  /** The outcome of an awaited call: the resolved value or the rejection. */
  datatype Result<+T, +E> = Ok(value: T) | Err(error: E)

  /** The JSON body of an HTTP response. `P` is the type of a body sent as raw data. */
  datatype Body<+P> =
    | Message(message: string)                  // { message }
    | ErrorBody(error: string)                  // { error }
    | MessageWithId(message: string, id: nat)   // { message, orderId } or { message, productId }
    | Data(payload: P)                          // res.json(rows)

  /** An HTTP response: its status code and its JSON body. */
  datatype Response<+P> = Response(status: nat, body: Body<P>)

  /** The status Express sends when a handler calls `res.json` without `res.status`. */
  const StatusOk: nat := 200
}
