/** Failure-carrying datatypes shared by every part of the chaincode model. */
module Base {

  /** A value that may be missing. */
  datatype Option<+T> = None | Some(value: T)

  /** The `([]byte, error)` pair every chaincode entry point returns: either the
      payload or the error that stopped the call. */
  datatype Result<+T> = Success(value: T) | Failure(error: Error)

  /** The errors the chaincode reports. `Failed` carries the message the
      chaincode builds with `errors.New`; `LedgerFailed` is an error produced by
      the ledger itself and passed on unchanged. */
  datatype Error = Failed(msg: string) | LedgerFailed(call: string)
}
