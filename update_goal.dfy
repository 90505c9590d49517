/** The `update_goal` endpoint: set a user's daily push-up goal. */
module UpdateGoal {
  import opened Js
  import opened Http

  /** The two fields the handler destructures from the request body. */
  datatype Body = Body(username: JsValue, dailyGoal: JsValue)

  /** The one database call this handler can issue: an upsert into `users`
      keyed on the username. */
  datatype Call = UpsertGoal(username: JsValue, dailyGoal: int)

  const InvalidPayload: string := "Invalid payload. Expected { username: string, daily_goal: number (>0) }"
  const GoalFailed: string := "Failed to update goal"
  const GoalUpdated: string := "Goal updated successfully!"

  /** The payload check: a truthy `username` and a numeric `daily_goal` of at least 1. */
  predicate ValidBody(body: Body)
  {
    Truthy(body.username) && IsNumber(body.dailyGoal) && !(body.dailyGoal.n < 1)
  }

  /** The handler as an early-return ladder. `upsert` is what the database answers
      if the handler issues the upsert; `Rows` is the opaque type of the rows it returns. */
  function Handle<Rows>(httpMethod: string, hasClient: bool, body: Body,
                        upsert: DbResult<Rows>): (r: Outcome<Call, Rows>)
    // a preflight is answered before anything else is looked at
    ensures httpMethod == OPTIONS ==> r == Outcome(Response(200, NoContent), [])
    // every method but OPTIONS and POST is refused without touching the database
    ensures httpMethod != OPTIONS && httpMethod != POST ==>
              r == Outcome(Response(405, Error(MethodNotAllowed)), [])
    // a missing client is reported before the payload is inspected
    ensures httpMethod == POST && !hasClient ==>
              r == Outcome(Response(500, Error(ConnectionFailed)), [])
    // a bad payload is a 400 with no database write
    ensures httpMethod == POST && hasClient && !ValidBody(body) ==>
              r == Outcome(Response(400, Error(InvalidPayload)), [])
    // at most one write, issued exactly for a POST with a client and a valid payload
    ensures |r.calls| <= 1
    ensures |r.calls| == 1 <==> httpMethod == POST && hasClient && ValidBody(body)
    // every goal that reaches the database is at least 1, and it is the requested one
    ensures forall k :: 0 <= k < |r.calls| ==>
              r.calls[k].dailyGoal >= 1 && r.calls[k].username == body.username &&
              body.dailyGoal == Num(r.calls[k].dailyGoal)
    // the upsert's outcome decides between 500 and 200 with the stored rows
    ensures |r.calls| == 1 ==>
              r.response == (match upsert
                             case DbErr => Response(500, Error(GoalFailed))
                             case DbOk(rows) => Response(200, Data(Some(GoalUpdated), rows)))
    ensures r.response.status == 200 <==>
              httpMethod == OPTIONS || (|r.calls| == 1 && upsert.DbOk?)
  {
    if httpMethod == OPTIONS then
      Outcome(Response(200, NoContent), [])
    else if httpMethod != POST then
      Outcome(Response(405, Error(MethodNotAllowed)), [])
    else if !hasClient then
      Outcome(Response(500, Error(ConnectionFailed)), [])
    else if !ValidBody(body) then
      Outcome(Response(400, Error(InvalidPayload)), [])
    else
      var calls := [UpsertGoal(body.username, body.dailyGoal.n)];
      match upsert
      case DbErr => Outcome(Response(500, Error(GoalFailed)), calls)
      case DbOk(rows) => Outcome(Response(200, Data(Some(GoalUpdated), rows)), calls)
  }

  /** A goal below 1 is refused with 400 and nothing is written, whatever the
      database would have answered. */
  lemma GoalBelowOneIsRejected<Rows>(username: JsValue, goal: int, upsert: DbResult<Rows>)
    requires goal < 1
    ensures Handle(POST, true, Body(username, Num(goal)), upsert)
            == Outcome(Response(400, Error(InvalidPayload)), [])
  {
  }
}
