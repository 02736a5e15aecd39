# Progress view of the gym tracker backend

A Dafny model of the progress handler of the gym tracker REST backend: the
`GET /:id` route of the progress router (src/routes/progress.ts:5), handled by
`getProgressData`. The progress router is not mounted by the shown application
(src/routes/index.ts mounts only `/equipment` under `/api/v1`). The handler runs a
fixed ladder of guard checks — a numeric equipment id, a bearer token, a token
the verifier accepts, an existing user, an existing equipment — and answers the
first one that fails with its message. When all pass it loads the equipment
with its workout exercises (each with its sets and its workout session) and
builds a `ProgressData` record:

- `maxWeight`: `Math.max` over every set's weight, with `0` as an extra argument;
- `totalVolume`: Σ reps·weight over the flattened sets, summed left to right from 0;
- `lastWorkout`: the session dates sorted newest first, element `[0]`, or `''`
  when the equipment has no exercises;
- `equipmentId` and `exercises`: the equipment's own.

Modules, one per concern of the handler:

- `Wrappers` — `Option` and `Result`.
- `Workout` — the records (set, session, exercise, equipment), the
  `flatMap` of sets and the `map` of session dates.
- `Aggregates` — `Math.max`, the maximum weight, the volume reduction (as a
  recursive reference and as the `reduce` loop), additivity and
  exercise-order independence.
- `LatestSession` — the newest-first sort and the choice of element `[0]`.
- `Bearer` — `authorization?.split(' ')[1]`: a JavaScript-style `split` with its
  round trip through `join`, and the token it yields.
- `Progress` — the store the handler consults, the guard ladder, the
  aggregation into `ProgressData`, and the handler itself.

Abstractions: weights, reps and ids are unbounded integers; a session date is
its `getTime()` timestamp; the ISO string of `lastWorkout` is `Some(date)` and
`''` is `None`; `parseInt` of the route parameter is an `Option<int>` carried by
the request (`None` for NaN); `UsersController.verifyToken` is called but
src/controllers/users.ts defines no such method (it defines only
`registerUser`), so the model assumes a verifier that answers a falsy value for
a token it refuses instead of throwing, and stands it as a map from accepted
tokens to the email they carry; the two `findUnique` queries are map lookups
(users by email, equipment by id), and `ValidStore` states that each row sits
under its own key; `errorHandler` is reduced to the message it reports.

## Model

| member | source | states |
|---|---|---|
| Workout.AllSets | src/controllers/progress.ts:61 | A set is in the flattened list exactly when it was logged in one of the exercises; no exercises give no sets; a single exercise gives exactly its own sets, in order (with `AllSetsAppend` this fixes the result as every exercise's sets joined end to end) |
| Workout.AllSetsAppend | src/controllers/progress.ts:61 | Flattening the concatenation of two exercise lists is the concatenation of their flattenings |
| Workout.SessionDates | src/controllers/progress.ts:67-68 | One date per exercise, position by position the exercise's session date |
| Aggregates.Weights | src/controllers/progress.ts:63 | One weight per set, position by position the set's weight |
| Aggregates.MathMax | src/controllers/progress.ts:63 | `Math.max` of a non-empty argument list is one of the arguments and no argument exceeds it |
| Aggregates.MaxWeight | src/controllers/progress.ts:63 | The maximum weight is never negative, bounds every set's weight, is 0 or some set's weight, and is 0 for no sets |
| Aggregates.MaxWeightUnique | src/controllers/progress.ts:63 | Any value that is non-negative, bounds every weight and is 0 or attained equals the maximum weight |
| Aggregates.MaxWeightSameSets | src/controllers/progress.ts:61-63 | Two set lists with the same members have the same maximum weight |
| Aggregates.MaxWeightAppend | src/controllers/progress.ts:61-63 | The maximum over two joined set lists is the larger of their maxima |
| Aggregates.MaxWeightIndependentOfExerciseOrder | src/controllers/progress.ts:61-63 | Reordering the exercises leaves the maximum weight unchanged |
| Aggregates.VolumeAppend | src/controllers/progress.ts:65 | The volume of two joined set lists is the sum of their volumes |
| Aggregates.ReduceVolume | src/controllers/progress.ts:65 | The `reduce` loop that adds reps·weight to a sum starting at 0 computes the volume of the whole list |
| Aggregates.VolumeOfAllSets | src/controllers/progress.ts:61-65 | The volume of the flattened sets equals the sum of every exercise's own volume |
| Aggregates.ExerciseVolumesAppend | src/controllers/progress.ts:61-65 | Per-exercise volume sums add up across concatenated exercise lists |
| Aggregates.ExerciseVolumesPermutation | src/controllers/progress.ts:61-65 | Two exercise lists that are rearrangements of each other have the same per-exercise volume sum |
| Aggregates.RemoveAtMultiset | src/controllers/progress.ts:61-65 | Removing one matching exercise from two rearrangements of each other leaves rearrangements of each other |
| Aggregates.ExerciseVolumesRemoveAt | src/controllers/progress.ts:61-65 | The per-exercise volume sum is one exercise's volume plus the sum over all the others |
| Aggregates.VolumeIndependentOfExerciseOrder | src/controllers/progress.ts:61-65 | Reordering the exercises leaves the total volume unchanged |
| LatestSession.Insert | src/controllers/progress.ts:69 | Inserting a date into a newest-first list keeps it newest first and adds exactly that date |
| LatestSession.SortDescending | src/controllers/progress.ts:69 | The comparator sort `b - a` yields a newest-first rearrangement of the dates |
| LatestSession.LastWorkout | src/controllers/progress.ts:67-69 | No date exactly when there are no exercises; otherwise a date of one of the exercises' sessions that no session date exceeds |
| LatestSession.LastWorkoutIndependentOfExerciseOrder | src/controllers/progress.ts:67-69 | Reordering the exercises leaves the most recent date unchanged |
| Bearer.FirstIndex | src/controllers/progress.ts:10 | The first position holding the separator: it holds it and nothing before it does |
| Bearer.Split | src/controllers/progress.ts:10 | `split` yields at least one field, no field contains the separator, and joining the fields gives the string back |
| Bearer.SplitJoin | src/controllers/progress.ts:10 | Splitting the join of separator-free fields gives those fields back |
| Bearer.SplitShape | src/controllers/progress.ts:10 | A join of two or more fields reads first field, space, second field, then nothing or a space-led rest |
| Bearer.BearerToken | src/controllers/progress.ts:10 | No token exactly when the header is missing or has no space; otherwise the token has no space and is the field after the first space |
| Bearer.BearerTokenOfHeader | src/controllers/progress.ts:10 | A header `<scheme> <token>` without further spaces yields exactly its token |
| Progress.Aggregate | src/controllers/progress.ts:61-77 | The record keeps the equipment's id and exercises; maxWeight is a non-negative bound on every logged weight that is 0 or attained; totalVolume is the sum of the exercises' volumes and 0 for no sets; lastWorkout is absent exactly for no exercises and otherwise the latest session date |
| Progress.MaxWeightOfExercises | src/controllers/progress.ts:61-63 | The maximum over the flattened sets bounds every weight logged in any exercise and is 0 or one of them |
| Progress.TotalVolumeAdditive | src/controllers/progress.ts:61-65 | The total volume of an equipment with exercises `a + b` is that for `a` plus that for `b` |
| Progress.AggregateIndependentOfExerciseOrder | src/controllers/progress.ts:61-69 | Loading the exercises in another order leaves maxWeight, totalVolume and lastWorkout unchanged |
| Progress.FirstFailure | src/controllers/progress.ts:14-58 | No message exactly when every check passes; otherwise the message of a failing check before which every check passed |
| Progress.FirstFailureShift | src/controllers/progress.ts:14-58 | A first-failure verdict about the checks after a passing first check holds for the whole ladder |
| Progress.GetProgressData | src/controllers/progress.ts:10-77 | A non-numeric id is rejected whatever the token, even a missing one; the progress record is produced exactly when the id is numeric, the token's user exists and the equipment exists, and it is then the aggregation of that equipment, carrying the requested id when every row sits under its own key; every other outcome is one of the five messages |
| Progress.GetProgressDataFollowsLadder | src/controllers/progress.ts:14-58 | The handler answers with the message of the first failing check in the order id, token, token validity, user, equipment, and aggregates only when none fails |
| Progress.ProgressNotScopedToOwner | src/controllers/progress.ts:43-58 | Any user with a valid token gets the progress of an existing equipment even when another user owns it |

## Left out

- Database I/O: the Prisma queries and their `include`s are map lookups over a given store; the Mongoose connection and schema are not part of this model.
- `UsersController.verifyToken` is not part of this model: src/controllers/users.ts defines no such method, so as written the call at src/controllers/progress.ts:22 throws a TypeError for every request with a numeric id and a non-empty token, and the catch block answers with that error. The model assumes a verifier that returns a falsy value for a refused token and never throws.
- `parseInt` is not modelled character by character: its result is an input, `None` where it yields NaN.
- Floating point: weights are integers, so `Math.max` with NaN, spread-argument limits and float rounding are not modelled. Rounding hits both `reps * weight` and the running sum of `reduce`, so the additivity and order-independence lemmas (`Aggregates.VolumeIndependentOfExerciseOrder`, `Progress.TotalVolumeAdditive`, `Progress.AggregateIndependentOfExerciseOrder`) hold for integer weights only: with float weights 0.1, 0.2 and 0.3 (one rep each) the sum is 0.6000000000000001 in one order and 0.6 in another.
- A workout session with a null date: dates here are always present. In the handler, `b!.getTime()` would throw for two or more exercises and the catch block would report the thrown error; with exactly one exercise the comparator never runs, `lastWorkoutDate?.toISOString()` gives `undefined` and `?? ''` turns it into `''`, and the answer has `lastWorkout` `''` although an exercise exists, which `Progress.Aggregate`'s "absent exactly for no exercises" does not cover.
- `Date`/`toISOString` formatting: `lastWorkout` is the timestamp or `None` for `''`.
- The HTTP envelope (status 200 or 500, `success`, `message`, `stack`) and the catch-all path at src/controllers/progress.ts:85-87 for exceptions thrown by the token verifier (including the missing `verifyToken` itself), the database or the date sort: the result is the progress record or one of the five messages, so `Progress.GetProgressData`'s "one of the five messages" holds only because the model's lookups cannot throw.
- The other controllers, routes, middleware and server start-up: they are null-check ladders around single ORM calls or framework plumbing, outside the progress view.
