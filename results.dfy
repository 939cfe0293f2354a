/** Optional values, results and the errors the procedures of the scoreboard raise. */
module Results {

  /** `undefined` / `null` versus a present value. */
  datatype Option<+T> = None | Some(value: T)

  /** A procedure either returns a value or throws one of the errors below. */
  datatype Result<+R> = Success(value: R) | Failure(error: Error)

  /** What a procedure can throw.  The first three are raised by the procedures themselves,
      the last four by the input schema or by the store before or while a write is applied. */
  datatype Error =
    | NotFound                      // TRPCError with code NOT_FOUND
    | Conflict(message: string)     // TRPCError with code CONFLICT
    | Group404                      // a plain Error("GROUP_404")
    | InvalidInput(fields: seq<string>) // the input schema rejected these fields
    | RecordNotFound                // the store found no row for an update or a connect
    | UniqueViolation               // the store refused a second row with the same key
    | ForeignKeyViolation           // the store refused a row pointing at a missing row
}
