/** Values shared by the three serverless request handlers: the response they
    send and the abstract outcome of a call into the hosted database. */
module Http {

  datatype Option<+T> = None | Some(value: T)

  /** The JSON body of a response; `NoContent` is the bare `res.status(200).end()`
      of a CORS preflight. `Data` carries an optional `message` and the `data` field. */
  datatype Payload<+D> =
    | NoContent
    | Error(error: string)
    | Data(message: Option<string>, data: D)

  datatype Response<+D> = Response(status: nat, payload: Payload<D>)

  /** The outcome of one database call: rows on success, or an error object. */
  datatype DbResult<+T> = DbOk(rows: T) | DbErr

  /** What a handler sends back, together with the database calls it issued, in order. */
  datatype Outcome<+C, +D> = Outcome(response: Response<D>, calls: seq<C>)

  const OPTIONS: string := "OPTIONS"
  const GET: string := "GET"
  const POST: string := "POST"

  const MethodNotAllowed: string := "Method Not Allowed"
  const ConnectionFailed: string := "Database connection failed"

}
