/** The `save_workout` endpoint: record one set of push-ups for a user. */
module SaveWorkout {
  import opened Js
  import opened Http

  /** The two fields the handler destructures from the request body. */
  datatype Body = Body(username: JsValue, reps: JsValue)

  /** The database calls this handler can issue. */
  datatype Call =
    | EnsureUser(username: JsValue)              // upsert into `users`, ignoring duplicates
    | InsertLog(username: JsValue, reps: int)    // insert into `workout_log`

  const InvalidPayload: string := "Invalid payload. Expected { username: string, reps: number }"
  const UserFailed: string := "Failed to find/create user"
  const LogFailed: string := "Failed to save workout log"
  const Saved: string := "Workout saved successfully!"

  /** The payload check: a truthy `username` and a `reps` of type number. */
  predicate ValidBody(body: Body)
  {
    Truthy(body.username) && IsNumber(body.reps)
  }

  /** The handler as an early-return ladder. `upsert` and `insert` are what the
      database answers if, and only if, the handler issues that call; `Rows` is the
      opaque type of the inserted rows it returns. */
  function Handle<Rows>(httpMethod: string, hasClient: bool, body: Body,
                        upsert: DbResult<()>, insert: DbResult<Rows>): (r: Outcome<Call, Rows>)
    // a preflight is answered before anything else is looked at
    ensures httpMethod == OPTIONS ==> r == Outcome(Response(200, NoContent), [])
    // every method but OPTIONS and POST is refused without touching the database
    ensures httpMethod != OPTIONS && httpMethod != POST ==>
              r == Outcome(Response(405, Error(MethodNotAllowed)), [])
    // a missing client is reported before the payload is inspected
    ensures httpMethod == POST && !hasClient ==>
              r == Outcome(Response(500, Error(ConnectionFailed)), [])
    // a bad payload is a 400 with no database call
    ensures httpMethod == POST && hasClient && !ValidBody(body) ==>
              r == Outcome(Response(400, Error(InvalidPayload)), [])
    // the database is touched only by a POST with a client and a valid payload,
    // and then the user upsert always comes first
    ensures r.calls != [] <==> httpMethod == POST && hasClient && ValidBody(body)
    ensures r.calls != [] ==> r.calls[0] == EnsureUser(body.username)
    // a failed upsert ends the request: 500 and no insert
    ensures r.calls != [] && upsert.DbErr? ==>
              r == Outcome(Response(500, Error(UserFailed)), [EnsureUser(body.username)])
    // the log is inserted exactly when the upsert was attempted and succeeded
    ensures |r.calls| <= 2
    ensures |r.calls| == 2 <==> r.calls != [] && upsert.DbOk?
    ensures |r.calls| == 2 ==> r.calls[1] == InsertLog(body.username, body.reps.n)
    // the outcome of the insert decides between 500 and 200 with the inserted rows
    ensures |r.calls| == 2 ==>
              r.response == (match insert
                             case DbErr => Response(500, Error(LogFailed))
                             case DbOk(rows) => Response(200, Data(Some(Saved), rows)))
    // success means a preflight or a fully stored log
    ensures r.response.status == 200 <==>
              httpMethod == OPTIONS || (|r.calls| == 2 && insert.DbOk?)
  {
    if httpMethod == OPTIONS then
      Outcome(Response(200, NoContent), [])
    else if httpMethod != POST then
      Outcome(Response(405, Error(MethodNotAllowed)), [])
    else if !hasClient then
      Outcome(Response(500, Error(ConnectionFailed)), [])
    else if !ValidBody(body) then
      Outcome(Response(400, Error(InvalidPayload)), [])
    else
      var upserted := [EnsureUser(body.username)];
      match upsert
      case DbErr => Outcome(Response(500, Error(UserFailed)), upserted)
      case DbOk(_) =>
        var calls := upserted + [InsertLog(body.username, body.reps.n)];
        match insert
        case DbErr => Outcome(Response(500, Error(LogFailed)), calls)
        case DbOk(rows) => Outcome(Response(200, Data(Some(Saved), rows)), calls)
  }

  /** Any number of reps is stored, zero and negative counts included: with a
      client, a truthy username and a working database the answer is 200. */
  lemma AnyNumberOfRepsIsSaved<Rows>(username: JsValue, reps: int, rows: Rows)
    requires Truthy(username)
    ensures Handle(POST, true, Body(username, Num(reps)), DbOk(()), DbOk(rows))
            == Outcome(Response(200, Data(Some(Saved), rows)),
                       [EnsureUser(username), InsertLog(username, reps)])
  {
  }
}
