/**
 The records the progress view is computed from: an equipment row together
 with its workout exercises, each carrying its sets and its workout session.
 */
module Workout {

  /** One logged set: a number of repetitions at a weight. */
  datatype WorkoutSet = WorkoutSet(id: int, reps: int, weight: int)

  /** A workout session; `date` is the session's timestamp in milliseconds. */
  datatype WorkoutSession = WorkoutSession(id: int, date: int)

  /** An exercise performed on one equipment during one session. */
  datatype WorkoutExercise = WorkoutExercise(id: int, sets: seq<WorkoutSet>, session: WorkoutSession)

  /** An equipment row with its owner and its workout exercises included. */
  datatype Equipment = Equipment(id: int, ownerId: int, exercises: seq<WorkoutExercise>)

  /** True when `s` is one of the sets logged in some exercise of `exercises`. */
  ghost predicate LoggedIn(s: WorkoutSet, exercises: seq<WorkoutExercise>)
  {
    exists i :: 0 <= i < |exercises| && s in exercises[i].sets
  }

  /**
   The sets of every exercise, exercise by exercise, in order
   (`flatMap(e => e.sets)`).
   */
  function AllSets(exercises: seq<WorkoutExercise>): (r: seq<WorkoutSet>)
    ensures forall s :: s in r <==> LoggedIn(s, exercises)
    ensures |exercises| == 0 ==> r == []
    ensures |exercises| == 1 ==> r == exercises[0].sets
  {
    if |exercises| == 0 then []
    else
      var rest := AllSets(exercises[1..]);
      assert forall s :: LoggedIn(s, exercises[1..]) ==> LoggedIn(s, exercises) by {
        forall s | LoggedIn(s, exercises[1..]) ensures LoggedIn(s, exercises) {
          var i :| 0 <= i < |exercises[1..]| && s in exercises[1..][i].sets;
          assert exercises[1..][i] == exercises[i + 1];
        }
      }
      assert forall s :: LoggedIn(s, exercises) && s !in exercises[0].sets ==> LoggedIn(s, exercises[1..]) by {
        forall s | LoggedIn(s, exercises) && s !in exercises[0].sets ensures LoggedIn(s, exercises[1..]) {
          var i :| 0 <= i < |exercises| && s in exercises[i].sets;
          assert i != 0;
          assert exercises[1..][i - 1] == exercises[i];
        }
      }
      assert |exercises| == 1 ==> exercises[1..] == [];
      exercises[0].sets + rest
  }

  /** Flattening distributes over concatenation of exercise lists. */
  lemma {:induction false} AllSetsAppend(a: seq<WorkoutExercise>, b: seq<WorkoutExercise>)
    ensures AllSets(a + b) == AllSets(a) + AllSets(b)
  {
    if |a| == 0 {
      assert a + b == b;
    } else {
      assert (a + b)[1..] == a[1..] + b;
      AllSetsAppend(a[1..], b);
    }
  }

  /** The session date of every exercise, in exercise order (`map(e => e.workoutSession.date)`). */
  function SessionDates(exercises: seq<WorkoutExercise>): (r: seq<int>)
    ensures |r| == |exercises|
    ensures forall i :: 0 <= i < |exercises| ==> r[i] == exercises[i].session.date
  {
    if |exercises| == 0 then [] else [exercises[0].session.date] + SessionDates(exercises[1..])
  }
}
