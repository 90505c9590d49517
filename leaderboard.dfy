/** The `get_leaderboard` endpoint: today's push-up totals per user, largest first. */
module Leaderboard {
  import opened Http

  /** One of today's `workout_log` rows. `joinedGoal` is the `daily_goal` of the joined
      `users` row; `None` when the join produced no user or the goal is null. */
  datatype LogRow = LogRow(username: string, reps: int, joinedGoal: Option<int>)

  /** One leaderboard entry. */
  datatype Row = Row(username: string, totalReps: int, dailyGoal: int)

  /** The only database call: select today's log rows joined with their user's goal. */
  datatype Call = FetchTodaysLogs

  const FallbackGoal: int := 100
  const FetchFailed: string := "Failed to fetch leaderboard logs"

  /** The goal a log row contributes: the joined goal when truthy, the fallback otherwise. */
  function GoalOf(log: LogRow): int
  {
    match log.joinedGoal
    case Some(g) => if g != 0 then g else FallbackGoal
    case None => FallbackGoal
  }

  // ---------------------------------------------------------------------------
  // Reference definitions of what the leaderboard should contain

  /** The distinct usernames among `logs`. */
  function Users(logs: seq<LogRow>): set<string>
  {
    if logs == [] then {} else {logs[0].username} + Users(logs[1..])
  }

  /** The sum of `reps` over the rows of `logs` that belong to `user`. */
  function SumReps(logs: seq<LogRow>, user: string): int
  {
    if logs == [] then 0
    else (if logs[0].username == user then logs[0].reps else 0) + SumReps(logs[1..], user)
  }

  /** The goal contributed by the first row of `logs` that belongs to `user`. */
  function FirstGoal(logs: seq<LogRow>, user: string): int
    requires user in Users(logs)
  {
    if logs[0].username == user then GoalOf(logs[0]) else FirstGoal(logs[1..], user)
  }

  /** `row` is the correct summary of `logs` for its user. */
  ghost predicate Summarizes(logs: seq<LogRow>, row: Row)
  {
    row.username in Users(logs) &&
    row.totalReps == SumReps(logs, row.username) &&
    row.dailyGoal == FirstGoal(logs, row.username)
  }

  predicate NamesDistinct(rows: seq<Row>)
  {
    forall i, j :: 0 <= i < j < |rows| ==> rows[i].username != rows[j].username
  }

  /** `rows` holds exactly one correct summary per user appearing in `logs`. */
  ghost predicate IsAggregateOf(logs: seq<LogRow>, rows: seq<Row>)
  {
    && NamesDistinct(rows)
    && |rows| == |Users(logs)|
    && (forall i :: 0 <= i < |rows| ==> Summarizes(logs, rows[i]))
    && (forall u :: u in Users(logs) ==> exists i :: 0 <= i < |rows| && rows[i].username == u)
  }

  predicate SortedDesc(rows: seq<Row>)
  {
    forall i, j :: 0 <= i < j < |rows| ==> rows[i].totalReps >= rows[j].totalReps
  }

  /** The promise of the endpoint: the aggregate, ranked by total, largest first. */
  ghost predicate IsLeaderboardOf(logs: seq<LogRow>, rows: seq<Row>)
  {
    IsAggregateOf(logs, rows) && SortedDesc(rows)
  }

  // ---------------------------------------------------------------------------
  // Facts about the reference definitions

  lemma {:induction false} UsersAppend(logs: seq<LogRow>, log: LogRow)
    ensures Users(logs + [log]) == Users(logs) + {log.username}
  {
    if logs != [] {
      assert (logs + [log])[1..] == logs[1..] + [log];
      UsersAppend(logs[1..], log);
    }
  }

  /** A name is among the users exactly when some row carries it. */
  lemma {:induction false} UsersMembership(logs: seq<LogRow>, user: string)
    ensures user in Users(logs) <==> exists j :: 0 <= j < |logs| && logs[j].username == user
  {
    if logs != [] {
      UsersMembership(logs[1..], user);
      if user in Users(logs[1..]) {
        var j :| 0 <= j < |logs[1..]| && logs[1..][j].username == user;
        assert logs[j + 1].username == user;
      }
      if exists j :: 0 <= j < |logs| && logs[j].username == user {
        var j :| 0 <= j < |logs| && logs[j].username == user;
        if j > 0 { assert logs[1..][j - 1].username == user; }
      }
    }
  }

  /** A user with no rows has a total of zero. */
  lemma {:induction false} SumRepsOfAbsentUser(logs: seq<LogRow>, user: string)
    requires user !in Users(logs)
    ensures SumReps(logs, user) == 0
  {
    if logs != [] {
      SumRepsOfAbsentUser(logs[1..], user);
    }
  }

  lemma {:induction false} SumRepsAppend(logs: seq<LogRow>, log: LogRow, user: string)
    ensures SumReps(logs + [log], user) ==
            SumReps(logs, user) + (if log.username == user then log.reps else 0)
  {
    if logs != [] {
      assert (logs + [log])[1..] == logs[1..] + [log];
      SumRepsAppend(logs[1..], log, user);
    }
  }

  /** Rows appended later never change a user's goal once the user has been seen. */
  lemma {:induction false} FirstGoalStable(logs: seq<LogRow>, later: seq<LogRow>, user: string)
    requires user in Users(logs)
    ensures user in Users(logs + later)
    ensures FirstGoal(logs + later, user) == FirstGoal(logs, user)
  {
    assert (logs + later)[0] == logs[0];
    if logs[0].username != user {
      assert (logs + later)[1..] == logs[1..] + later;
      FirstGoalStable(logs[1..], later, user);
    }
  }

  /** A user's goal is set by the row where that user first appears. */
  lemma {:induction false} FirstGoalAtFirstOccurrence(logs: seq<LogRow>, i: nat)
    requires i < |logs|
    requires forall j :: 0 <= j < i ==> logs[j].username != logs[i].username
    ensures logs[i].username in Users(logs)
    ensures FirstGoal(logs, logs[i].username) == GoalOf(logs[i])
  {
    if i > 0 {
      FirstGoalAtFirstOccurrence(logs[1..], i - 1);
    }
  }

  /** When every row of a user contributes the same goal, the first-row rule gives that goal. */
  lemma {:induction false} UniformGoalIsFirstGoal(logs: seq<LogRow>, user: string, goal: int)
    requires user in Users(logs)
    requires forall i :: 0 <= i < |logs| && logs[i].username == user ==> GoalOf(logs[i]) == goal
    ensures FirstGoal(logs, user) == goal
  {
    if logs[0].username != user {
      UniformGoalIsFirstGoal(logs[1..], user, goal);
    }
  }

  /** `MIN(u.daily_goal)` over the rows of `user`, as the SQL sketch in the handler's
      comment computes it: null goals are ignored, and no non-null goal gives null. */
  function MinJoinedGoal(logs: seq<LogRow>, user: string): Option<int>
  {
    if logs == [] then None
    else
      var rest := MinJoinedGoal(logs[1..], user);
      if logs[0].username != user || logs[0].joinedGoal.None? then rest
      else if rest.None? || logs[0].joinedGoal.value <= rest.value then logs[0].joinedGoal
      else rest
  }

  /** When every row of a user carries the same truthy joined goal, as the join on the
      one users row produces, the first-row rule and the SQL minimum agree. */
  lemma {:induction false} TruthyUniformGoalIsMinimum(logs: seq<LogRow>, user: string, goal: int)
    requires user in Users(logs)
    requires goal != 0
    requires forall i :: 0 <= i < |logs| && logs[i].username == user ==> logs[i].joinedGoal == Some(goal)
    ensures FirstGoal(logs, user) == goal
    ensures MinJoinedGoal(logs, user) == Some(goal)
  {
    if logs[0].username != user {
      TruthyUniformGoalIsMinimum(logs[1..], user, goal);
    } else if user in Users(logs[1..]) {
      TruthyUniformGoalIsMinimum(logs[1..], user, goal);
    } else {
      NoRowsNoMinimum(logs[1..], user);
    }
  }

  lemma {:induction false} NoRowsNoMinimum(logs: seq<LogRow>, user: string)
    requires user !in Users(logs)
    ensures MinJoinedGoal(logs, user) == None
  {
    if logs != [] {
      NoRowsNoMinimum(logs[1..], user);
    }
  }

  /** When no row of a user carries a joined goal, the two rules part: the code falls
      back to 100, while the SQL minimum is null. */
  lemma {:induction false} MissingGoalIsNotMinimum(logs: seq<LogRow>, user: string)
    requires user in Users(logs)
    requires forall i :: 0 <= i < |logs| && logs[i].username == user ==> logs[i].joinedGoal.None?
    ensures FirstGoal(logs, user) == FallbackGoal
    ensures MinJoinedGoal(logs, user) == None
  {
    if logs[0].username != user {
      MissingGoalIsNotMinimum(logs[1..], user);
    } else if user in Users(logs[1..]) {
      MissingGoalIsNotMinimum(logs[1..], user);
    } else {
      NoRowsNoMinimum(logs[1..], user);
    }
  }

  /** A joined goal of 0 is falsy: the code falls back to 100, while the SQL minimum is 0. */
  lemma ZeroGoalIsNotMinimum()
    ensures FirstGoal([LogRow("u", 1, Some(0))], "u") == FallbackGoal
    ensures MinJoinedGoal([LogRow("u", 1, Some(0))], "u") == Some(0)
  {
  }

  /** Totals are non-negative when every logged count is. */
  lemma {:induction false} SumRepsNonNegative(logs: seq<LogRow>, user: string)
    requires forall i :: 0 <= i < |logs| ==> logs[i].reps >= 0
    ensures SumReps(logs, user) >= 0
  {
    if logs != [] {
      SumRepsNonNegative(logs[1..], user);
    }
  }

  // ---------------------------------------------------------------------------
  // Sorting: `Array.prototype.sort` with the comparator `b.total_reps - a.total_reps`

  /** Putting a row with a total at least the head's in front keeps the order. */
  lemma ConsSorted(row: Row, sorted: seq<Row>)
    requires SortedDesc(sorted)
    requires sorted != [] ==> row.totalReps >= sorted[0].totalReps
    ensures SortedDesc([row] + sorted)
  {
  }

  function InsertDesc(row: Row, sorted: seq<Row>): (r: seq<Row>)
    requires SortedDesc(sorted)
    ensures |r| == |sorted| + 1
    ensures r[0] == row || (sorted != [] && r[0] == sorted[0])
    ensures SortedDesc(r)
    ensures multiset(r) == multiset(sorted) + multiset{row}
  {
    if sorted == [] || row.totalReps >= sorted[0].totalReps then
      ConsSorted(row, sorted);
      [row] + sorted
    else
      var rest := InsertDesc(row, sorted[1..]);
      ConsSorted(sorted[0], rest);
      assert sorted == [sorted[0]] + sorted[1..];
      [sorted[0]] + rest
  }

  /** The leaderboard order: ranked by total, largest first, with nothing added, dropped or altered. */
  function SortByTotalDesc(rows: seq<Row>): (r: seq<Row>)
    ensures SortedDesc(r)
    ensures multiset(r) == multiset(rows)
  {
    if rows == [] then []
    else
      assert rows == [rows[0]] + rows[1..];
      InsertDesc(rows[0], SortByTotalDesc(rows[1..]))
  }

  lemma {:induction false} DistinctOccursOnce(rows: seq<Row>, x: Row)
    requires NamesDistinct(rows)
    ensures multiset(rows)[x] <= 1
  {
    if rows != [] {
      assert rows == [rows[0]] + rows[1..];
      DistinctOccursOnce(rows[1..], x);
      if x == rows[0] {
        assert x !in rows[1..] by {
          forall k | 0 <= k < |rows[1..]| ensures rows[1..][k] != x {
            assert rows[1..][k] == rows[k + 1];
          }
        }
      }
    }
  }

  lemma RepeatOccursTwice(rows: seq<Row>, i: nat, j: nat)
    requires i < j < |rows| && rows[i] == rows[j]
    ensures multiset(rows)[rows[i]] >= 2
  {
    assert rows == rows[..j] + rows[j..];
    assert rows[i] in rows[..j];
    assert rows[j..][0] == rows[j];
  }

  /** Reordering an aggregate keeps it an aggregate. */
  lemma PermutationOfAggregate(logs: seq<LogRow>, a: seq<Row>, b: seq<Row>)
    requires IsAggregateOf(logs, a)
    requires multiset(a) == multiset(b)
    ensures IsAggregateOf(logs, b)
  {
    assert |b| == |multiset(b)| == |multiset(a)| == |a|;
    forall i | 0 <= i < |b| ensures Summarizes(logs, b[i]) {
      assert b[i] in multiset(a);
    }
    forall i, j | 0 <= i < j < |b| ensures b[i].username != b[j].username {
      if b[i].username == b[j].username {
        assert b[i] in multiset(a) && b[j] in multiset(a);
        var p :| 0 <= p < |a| && a[p] == b[i];
        var q :| 0 <= q < |a| && a[q] == b[j];
        assert p == q;
        RepeatOccursTwice(b, i, j);
        DistinctOccursOnce(a, b[i]);
      }
    }
    forall u | u in Users(logs) ensures exists i :: 0 <= i < |b| && b[i].username == u {
      var k :| 0 <= k < |a| && a[k].username == u;
      assert a[k] in multiset(b);
    }
  }

  // ---------------------------------------------------------------------------
  // The handler

  /** `aggregated` maps each user seen so far to that user's correct entry. */
  ghost predicate Tallies(seen: seq<LogRow>, aggregated: map<string, Row>)
  {
    aggregated.Keys == Users(seen) &&
    forall u :: u in aggregated ==> aggregated[u] == Row(u, SumReps(seen, u), FirstGoal(seen, u))
  }

  /** `keys` lists the keys of `aggregated`, each once. */
  predicate ListsKeys(keys: seq<string>, aggregated: map<string, Row>)
  {
    && (forall k :: 0 <= k < |keys| ==> keys[k] in aggregated)
    && (forall a, b :: 0 <= a < b < |keys| ==> keys[a] != keys[b])
    && (forall u :: u in aggregated ==> u in keys)
  }

  /** One turn of the aggregation loop keeps every entry correct: a new user's entry
      starts from that row's goal, a known user's goal is kept, and the row's reps are added. */
  lemma TallyStep(seen: seq<LogRow>, log: LogRow, before: map<string, Row>, after: map<string, Row>)
    requires Tallies(seen, before)
    requires after == before[log.username :=
               if log.username in before
               then before[log.username].(totalReps := before[log.username].totalReps + log.reps)
               else Row(log.username, log.reps, GoalOf(log))]
    ensures Tallies(seen + [log], after)
  {
    UsersAppend(seen, log);
    forall u | u in after
      ensures after[u] == Row(u, SumReps(seen + [log], u), FirstGoal(seen + [log], u))
    {
      SumRepsAppend(seen, log, u);
      if u in before {
        FirstGoalStable(seen, [log], u);
      } else {
        SumRepsOfAbsentUser(seen, u);
        UsersMembership(seen, u);
        assert forall j :: 0 <= j < |seen| ==> (seen + [log])[j] == seen[j];
        FirstGoalAtFirstOccurrence(seen + [log], |seen|);
      }
    }
  }

  /** `Object.values`: the entries of `aggregated` in the order `keys` lists them. */
  function Values(aggregated: map<string, Row>, keys: seq<string>): seq<Row>
    requires forall k :: 0 <= k < |keys| ==> keys[k] in aggregated
  {
    seq(|keys|, k requires 0 <= k < |keys| => aggregated[keys[k]])
  }

  /** A list without repetitions of exactly the elements of `names` is as long as `names` is large. */
  lemma {:induction false} DistinctListSize(keys: seq<string>, names: set<string>)
    requires forall k :: 0 <= k < |keys| ==> keys[k] in names
    requires forall a, b :: 0 <= a < b < |keys| ==> keys[a] != keys[b]
    requires forall u :: u in names ==> u in keys
    ensures |keys| == |names|
  {
    if keys != [] {
      var rest := keys[1..];
      forall u | u in names - {keys[0]} ensures u in rest {
        var k :| 0 <= k < |keys| && keys[k] == u;
        assert rest[k - 1] == u;
      }
      DistinctListSize(rest, names - {keys[0]});
    }
  }

  /** Listing a complete, correct dictionary gives the aggregate. */
  lemma ValuesAreAggregate(logs: seq<LogRow>, aggregated: map<string, Row>, keys: seq<string>)
    requires Tallies(logs, aggregated) && ListsKeys(keys, aggregated)
    ensures IsAggregateOf(logs, Values(aggregated, keys))
  {
    var rows := Values(aggregated, keys);
    DistinctListSize(keys, aggregated.Keys);
    forall i | 0 <= i < |rows| ensures Summarizes(logs, rows[i]) {
      assert rows[i] == aggregated[keys[i]];
    }
    forall i, j | 0 <= i < j < |rows| ensures rows[i].username != rows[j].username {
      assert rows[i] == aggregated[keys[i]] && rows[j] == aggregated[keys[j]];
    }
    forall u | u in Users(logs) ensures exists k :: 0 <= k < |rows| && rows[k].username == u {
      var k :| 0 <= k < |keys| && keys[k] == u;
      assert rows[k] == aggregated[u];
    }
  }

  /** The aggregation loop: a dictionary from username to entry, created on first
      sight of a user with that row's goal, and a running `total_reps`; `keys`
      records insertion order, the order in which `Object.values` lists the entries. */
  method Aggregate(logs: seq<LogRow>) returns (rows: seq<Row>)
    ensures IsAggregateOf(logs, rows)
  {
    var aggregated: map<string, Row> := map[];
    var keys: seq<string> := [];
    var i := 0;
    while i < |logs|
      invariant 0 <= i <= |logs|
      invariant Tallies(logs[..i], aggregated)
      invariant ListsKeys(keys, aggregated)
    {
      var log := logs[i];
      ghost var before := aggregated;
      if log.username !in aggregated {
        aggregated := aggregated[log.username := Row(log.username, 0, GoalOf(log))];
        keys := keys + [log.username];
      }
      var entry := aggregated[log.username];
      aggregated := aggregated[log.username := entry.(totalReps := entry.totalReps + log.reps)];
      TallyStep(logs[..i], log, before, aggregated);
      assert logs[..i + 1] == logs[..i] + [log];
      i := i + 1;
    }
    assert logs[..i] == logs;
    rows := Values(aggregated, keys);
    ValuesAreAggregate(logs, aggregated, keys);
  }

  /** The request handler: method check, client check, the day's query, then
      aggregation and ranking. `query` is what the database answers to the select. */
  method Handle(httpMethod: string, hasClient: bool, query: DbResult<seq<LogRow>>)
    returns (r: Outcome<Call, seq<Row>>)
    ensures httpMethod == OPTIONS ==> r == Outcome(Response(200, NoContent), [])
    ensures httpMethod != OPTIONS && httpMethod != GET ==>
              r == Outcome(Response(405, Error(MethodNotAllowed)), [])
    ensures httpMethod == GET && !hasClient ==>
              r == Outcome(Response(500, Error(ConnectionFailed)), [])
    // the database is queried exactly once, and only for a GET with a client
    ensures r.calls == (if httpMethod == GET && hasClient then [FetchTodaysLogs] else [])
    // a failed query is a 500 with no leaderboard
    ensures r.calls != [] && query.DbErr? ==> r.response == Response(500, Error(FetchFailed))
    // a successful query is a 200 carrying the ranked aggregate of exactly those rows
    ensures r.calls != [] && query.DbOk? ==>
              r.response.status == 200 && r.response.payload.Data? &&
              r.response.payload.message == None &&
              IsLeaderboardOf(query.rows, r.response.payload.data)
    // no rows today: an empty leaderboard
    ensures r.calls != [] && query == DbOk([]) ==> r.response == Response(200, Data(None, []))
  {
    if httpMethod == OPTIONS {
      return Outcome(Response(200, NoContent), []);
    }
    if httpMethod != GET {
      return Outcome(Response(405, Error(MethodNotAllowed)), []);
    }
    if !hasClient {
      return Outcome(Response(500, Error(ConnectionFailed)), []);
    }
    match query
    case DbErr =>
      r := Outcome(Response(500, Error(FetchFailed)), [FetchTodaysLogs]);
    case DbOk(logs) =>
      var rows := Aggregate(logs);
      var leaderboard := SortByTotalDesc(rows);
      PermutationOfAggregate(logs, rows, leaderboard);
      r := Outcome(Response(200, Data(None, leaderboard)), [FetchTodaysLogs]);
  }

  /** The worked example: two rows for "a" and one for "b" rank "b" first, and the
      example's goals come from the joined user rows. */
  lemma ExampleLeaderboard(rows: seq<Row>)
    requires IsLeaderboardOf([LogRow("a", 10, Some(50)), LogRow("b", 20, Some(30)), LogRow("a", 5, Some(50))], rows)
    ensures rows == [Row("b", 20, 30), Row("a", 15, 50)]
  {
  }

  /** A user without a truthy joined goal gets the fallback goal of 100. */
  lemma ExampleFallbackGoal(rows: seq<Row>)
    requires IsLeaderboardOf([LogRow("c", 3, None)], rows)
    ensures rows == [Row("c", 3, 100)]
  {
  }
}
