/**
 The most recent session date of an equipment's exercises, found the way the
 handler finds it: sort the dates newest first and take the first one.
 */
module LatestSession {
  import opened Wrappers
  import opened Workout

  /** Newest first: no later position holds a later date. */
  ghost predicate Descending(xs: seq<int>)
  {
    forall i, j :: 0 <= i < j < |xs| ==> xs[i] >= xs[j]
  }

  /** Inserts `x` into a newest-first list, before the first date that is not later than it. */
  function Insert(x: int, xs: seq<int>): (r: seq<int>)
    requires Descending(xs)
    ensures Descending(r)
    ensures multiset(r) == multiset(xs) + multiset{x}
  {
    if |xs| == 0 then [x]
    else if x >= xs[0] then [x] + xs
    else
      var rest := Insert(x, xs[1..]);
      assert xs == [xs[0]] + xs[1..];
      forall j | 0 <= j < |rest| ensures rest[j] <= xs[0] {
        assert rest[j] in multiset(rest);
        if rest[j] != x {
          assert rest[j] in multiset(xs[1..]);
          var k :| 0 <= k < |xs[1..]| && xs[1..][k] == rest[j];
          assert xs[k + 1] == rest[j];
        }
      }
      [xs[0]] + rest
  }

  /**
   Stands for `sort((a, b) => b.getTime() - a.getTime())`: a rearrangement of
   the dates into newest-first order.
   */
  function SortDescending(xs: seq<int>): (r: seq<int>)
    ensures Descending(r)
    ensures multiset(r) == multiset(xs)
    ensures |r| == |xs|
  {
    if |xs| == 0 then []
    else
      assert xs == [xs[0]] + xs[1..];
      var r := Insert(xs[0], SortDescending(xs[1..]));
      assert |multiset(r)| == |multiset(xs)|;
      r
  }

  /**
   The date of the most recent session among the exercises: element `[0]` of
   the newest-first sort, or `None` (serialised as `''`) when there are no
   exercises and the sorted list is empty.
   */
  function LastWorkout(exercises: seq<WorkoutExercise>): (r: Option<int>)
    ensures r.None? <==> |exercises| == 0
    ensures r.Some? ==> exists i :: 0 <= i < |exercises| && exercises[i].session.date == r.value
    ensures r.Some? ==> forall i :: 0 <= i < |exercises| ==> exercises[i].session.date <= r.value
  {
    var dates := SessionDates(exercises);
    var sorted := SortDescending(dates);
    if |sorted| == 0 then None
    else
      assert sorted[0] in multiset(dates);
      forall i | 0 <= i < |exercises| ensures dates[i] <= sorted[0] {
        assert dates[i] in multiset(sorted);
        var k :| 0 <= k < |sorted| && sorted[k] == dates[i];
      }
      Some(sorted[0])
  }

  /** Reordering the exercises does not change which date is the most recent. */
  lemma LastWorkoutIndependentOfExerciseOrder(a: seq<WorkoutExercise>, b: seq<WorkoutExercise>)
    requires multiset(a) == multiset(b)
    ensures LastWorkout(a) == LastWorkout(b)
  {
    assert |a| == |multiset(a)| == |multiset(b)| == |b|;
    if |a| > 0 {
      var da, db := LastWorkout(a).value, LastWorkout(b).value;
      var i :| 0 <= i < |a| && a[i].session.date == da;
      var j := IndexOf(b, a[i]);
      assert da <= db;
      var k :| 0 <= k < |b| && b[k].session.date == db;
      var l := IndexOf(a, b[k]);
      assert db <= da;
    }
  }

  /** A position of an exercise known to occur in a list. */
  lemma IndexOf(xs: seq<WorkoutExercise>, x: WorkoutExercise) returns (k: int)
    requires x in multiset(xs)
    ensures 0 <= k < |xs| && xs[k] == x
  {
    k :| 0 <= k < |xs| && xs[k] == x;
  }
}
