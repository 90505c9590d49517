# Push-up tracker: verified model of the counter and the three API handlers

The push-up tracker has two halves. A desktop script (`tracker.py`) watches a
video, estimates the pose in every frame and counts push-ups with a
two-variable state machine. Three serverless endpoints under `api/` store
workouts, update a user's daily goal and rank today's totals on a
leaderboard.

This Dafny project models the logic in both halves:

- `tracker.dfy` (module `Tracker`) holds the per-frame state machine. The
  module-level `count` and `direction` become the fields of the class
  `PushupCounter`. `ProcessFrame` follows the nested checks of the frame loop
  in their original order: visibility, plank, bottom, then top. It is proved
  against the function `Next`, which states each case of a frame's effect
  separately. `Run` applies `Next` to a whole sequence of frames. The lemmas
  about `Run` cover validity, monotonicity, the bound on the count and the
  rule that every repetition follows an arming frame. `Track` is the capture
  loop: it creates a counter and feeds it every frame.
- `leaderboard.dfy` (module `Leaderboard`) holds the `get_leaderboard`
  handler. `Aggregate` is the dictionary-update loop and is proved against
  three independent reference definitions: `Users`, `SumReps` and
  `FirstGoal`. `SortByTotalDesc` is the descending sort. `Handle` is the
  status ladder around both.
- `save_workout.dfy` and `update_goal.dfy` hold the two POST handlers. Each
  is a pure early-return ladder. The database is an abstract success or
  error answer for each call. Each handler returns its response together
  with the list of database calls it made, so the model can state which
  calls were never attempted.
- `js.dfy` defines the JavaScript values a request body can hold, along with
  `typeof`/truthiness. `http.dfy` defines the response, the payload and the
  database outcome.

Each frame is a `Frame`. It is either `NoPose` (no landmarks) or a `Pose`
holding six numbers: the three visibility scores, the elbow angle, the
nose-to-wrist distance and the torso ratio. The thresholds 0.4, 0.85, 80,
0.42, 160 and 0.75 appear as constants. Pose estimation and the geometry
that produces these six numbers are not modelled.

The leaderboard takes a user's goal from the first row seen for that user,
as the code does. The SQL sketch in the comment at
`api/get_leaderboard.js:34` takes the minimum instead.
`TruthyUniformGoalIsMinimum` shows that the two rules agree whenever every
row of a user carries the same non-null, non-zero joined goal, which is what
the join on the single users row produces. When the joined goal is null or
0 they differ: the code falls back to 100, while the SQL minimum is null or
0 (`MissingGoalIsNotMinimum`, `ZeroGoalIsNotMinimum`).

## Model

| member | source | states |
|---|---|---|
| `Leaderboard.Handle` | api/get_leaderboard.js:13-77 | OPTIONS gives 200 with no body. Any other non-GET method gives 405. A missing client gives 500. The query is issued exactly once, and only for a GET with a client. A query error gives 500 with no leaderboard. A successful query gives 200 whose data is the ranked aggregate of exactly those rows. No rows gives an empty leaderboard. |
| `Leaderboard.Aggregate` | api/get_leaderboard.js:62-72 | The dictionary loop followed by `Object.values` yields one entry per distinct username, with no duplicates and as many entries as there are users. Each entry's total is the sum of that user's reps, and its goal is that user's first row's goal. |
| `Leaderboard.TallyStep` | api/get_leaderboard.js:63-72 | One turn of the loop keeps every dictionary entry correct. A new user gets the goal of the current row. A known user keeps their goal. The row's reps are added to the entry. |
| `Leaderboard.ValuesAreAggregate` | api/get_leaderboard.js:62-75 | `Values` models `Object.values`, listing the entries in key order. Listing a complete, correct dictionary with each key once gives the aggregate: distinct names, one row per user, correct totals and goals. |
| `Leaderboard.SortByTotalDesc` | api/get_leaderboard.js:75 | The sorted leaderboard is non-increasing in total reps. It is a permutation of its input: nothing is added, dropped or altered. |
| `Leaderboard.InsertDesc` | api/get_leaderboard.js:75 | Inserting a row into a descending list keeps it descending. The result holds exactly the old rows plus the new one. |
| `Leaderboard.PermutationOfAggregate` | api/get_leaderboard.js:75 | Any reordering of the aggregate is still an aggregate. In particular, sorting keeps names distinct and keeps every user present. |
| `Leaderboard.UsersMembership` | api/get_leaderboard.js:62-72 | A name is a leaderboard user exactly when some row of the day carries it. |
| `Leaderboard.UsersAppend` | api/get_leaderboard.js:63-70 | One more row adds exactly its own username to the set of users (no change if already present). |
| `Leaderboard.SumRepsAppend` | api/get_leaderboard.js:71 | One more row adds its reps to its own user's total and changes no other total. |
| `Leaderboard.SumRepsOfAbsentUser` | api/get_leaderboard.js:65-71 | A user with no rows has a total of zero, which is the starting `total_reps: 0`. |
| `Leaderboard.SumRepsNonNegative` | api/get_leaderboard.js:71 | Totals are non-negative when every logged rep count is. |
| `Leaderboard.FirstGoalStable` | api/get_leaderboard.js:64-69 | Rows that come later never change a user's goal once the user has been seen. |
| `Leaderboard.FirstGoalAtFirstOccurrence` | api/get_leaderboard.js:64-69 | A user's goal is `GoalOf` of the row where the user first appears: the joined goal when truthy, else 100, as the fallback at line 68 computes it. |
| `Leaderboard.UniformGoalIsFirstGoal` | api/get_leaderboard.js:64-69 | If all of a user's rows contribute the same goal (after the fallback to 100), the first-row rule gives that goal. |
| `Leaderboard.TruthyUniformGoalIsMinimum` | api/get_leaderboard.js:34-68 | If all of a user's rows carry the same truthy joined goal, the first-row rule and `MinJoinedGoal`, the SQL `MIN` over non-null joined goals, both give that goal. |
| `Leaderboard.NoRowsNoMinimum` | api/get_leaderboard.js:34 | The SQL minimum over a user without rows is null. |
| `Leaderboard.MissingGoalIsNotMinimum` | api/get_leaderboard.js:34-68 | When none of a user's rows carries a joined goal, the code gives 100 while the SQL minimum is null. |
| `Leaderboard.ZeroGoalIsNotMinimum` | api/get_leaderboard.js:34-68 | A joined goal of 0 is falsy: for a single such row the code gives 100 while the SQL minimum is 0. |
| `Leaderboard.ExampleLeaderboard` | api/get_leaderboard.js:62-75 | Rows a:10, b:20, a:5 with goals 50/30 rank as [b 20 30, a 15 50]. |
| `Leaderboard.ExampleFallbackGoal` | api/get_leaderboard.js:68 | A single row for c without a joined goal gives [c 3 100]. |
| `SaveWorkout.Handle` | api/save_workout.js:13-56 | OPTIONS gives 200 before anything else. Any method other than OPTIONS and POST gives 405. A missing client gives 500 before the payload is read. A falsy username or a non-number `reps` gives 400 with no database call. The user upsert always comes first. An upsert error gives 500 and no insert. The insert happens exactly after a successful upsert. An insert error gives 500. Success gives 200 with the inserted rows. |
| `SaveWorkout.AnyNumberOfRepsIsSaved` | api/save_workout.js:29-56 | Any numeric rep count is stored, zero and negative counts included. |
| `UpdateGoal.Handle` | api/update_goal.js:13-44 | OPTIONS gives 200. Any other non-POST method gives 405. A missing client gives 500. A falsy username, a non-number goal or a goal below 1 gives 400 with no write. A valid payload issues exactly one upsert. Every goal written is at least 1 and is the goal requested. An upsert error gives 500. Success gives 200 with the rows. |
| `UpdateGoal.GoalBelowOneIsRejected` | api/update_goal.js:29-31 | A goal below 1 gives 400 and nothing is written, whatever the database would have answered. |
| `Tracker.Next` | tracker.py:77-101 | A frame never breaks `direction` in {0,1} and a count of at least 0. It adds at most one repetition and never removes one. A repetition is counted exactly on a visible plank top frame while armed, and that frame disarms. A frame without landmarks changes nothing. Standing or out of frame disarms and keeps the count. A plank bottom frame arms and keeps the count. A plank frame that neither arms nor counts (mid-way, or a top while unarmed) changes nothing. |
| `Tracker.BottomIsNotTop` | tracker.py:83-87 | No frame is both at the bottom and at the top, since 80 < 160. |
| `Tracker.PushupCounter.constructor` | tracker.py:30-31 | The counter starts with count 0 and direction 0. |
| `Tracker.PushupCounter.ProcessFrame` | tracker.py:41-101 | The in-place nested checks, with bottom tested before top in one frame, update the two variables exactly as `Next` says, and the state stays valid. |
| `Tracker.Track` | tracker.py:30-101 | The capture loop ends with the count `Run` gives. That count is between 0 and the number of frames, and at most the number of arming frames. |
| `Tracker.RunIsValid` | tracker.py:30-101 | Every reachable state has `direction` in {0,1} and 0 <= count <= frames seen. |
| `Tracker.CountBoundedByArmings` | tracker.py:83-90 | Count plus direction never exceeds the number of arming frames. Each repetition uses up its own bottom position. |
| `Tracker.CountNeverDecreases` | tracker.py:89 | The count after any prefix of the frames is at most the count after all of them. |
| `Tracker.ArmedSinceArming` | tracker.py:83-101 | An armed counter was armed by an earlier bottom frame, and no standing, out-of-frame or top frame has come since. |
| `Tracker.RunPrefixStep` | tracker.py:33-101 | The state after k+1 frames is one step on from the state after k frames. |
| `Tracker.RepetitionFollowsArming` | tracker.py:83-101 | Every counted repetition was preceded by an arming frame with no reset or top frame in between. |
| `Tracker.StaysArmed` | tracker.py:83-101 | After an arming frame, the counter stays armed through every later frame until a disarming one. |
| `Tracker.ArmingThenTopCounts` | tracker.py:83-90 | An arming frame, then no disarming frame, then a plank top frame: that top frame counts exactly one repetition. |

## Left out

- CORS headers (`res.setHeader`) and the `console.error` logging: response plumbing with no logic.
- The catch-all `catch` branches that answer 500. This includes the throw when `req.body` is missing and a rejected database promise. Only the documented error results of each call are modelled.
- `api/supabaseClient.js`: the client appears only as the boolean "client present". The queries, upsert and insert are abstract success/error answers. Their data is an opaque type parameter.
- The day window of the leaderboard query (local-time `Date`, `setHours`, `setDate`). The handler receives the rows the query returned.
- JavaScript numbers are modelled as integers. NaN, Infinity and fractions, which all pass `typeof === 'number'`, are not modelled. This matters most for NaN, which also passes the `daily_goal < 1` check.
- JavaScript object quirks in the leaderboard dictionary are not modelled. Integer-like usernames are listed before the others by `Object.values`. A username naming a property of `Object.prototype` (`__proto__`, `toString`, ...) is mishandled. Usernames are plain strings and the dictionary is a map with insertion order.
- Leaderboard.Handle: does not state how rows with equal totals are ordered, since that order depends on the object key enumeration above.
- Leaderboard.SortByTotalDesc: the comparator `b.total_reps - a.total_reps` is modelled as a comparison of integer totals. Stability is not stated.
- `tracker.py` geometry: `calculate_angle`, `calculate_distance`, the 0.01 substitution for a zero shoulder width and the torso ratio division. Their results are the fields of `Frame`. The thresholds are compared as exact reals, not as binary floating point.
- `tracker.py` input and output: video capture, pose inference, drawing, the window, the `q` key (a key press simply ends the frame sequence) and the final prints.
