/**
 The two numeric reductions of the progress view over the flattened sets:
 the heaviest weight lifted and the total training volume.
 */
module Aggregates {
  import opened Workout

  /** The weights of the sets, in order (`allSets.map(set => set.weight)`). */
  function Weights(sets: seq<WorkoutSet>): (r: seq<int>)
    ensures |r| == |sets|
    ensures forall i :: 0 <= i < |sets| ==> r[i] == sets[i].weight
  {
    if |sets| == 0 then [] else [sets[0].weight] + Weights(sets[1..])
  }

  /** `Math.max` of a non-empty argument list: the greatest argument. */
  function MathMax(args: seq<int>): (r: int)
    requires |args| > 0
    ensures r in args
    ensures forall i :: 0 <= i < |args| ==> args[i] <= r
  {
    if |args| == 1 then args[0]
    else
      var m := MathMax(args[1..]);
      assert m in args;
      if args[0] >= m then args[0] else m
  }

  /**
   The heaviest weight among the sets, with the literal `0` as an extra
   argument to `Math.max`, so an empty list (or only negative weights) gives 0.
   */
  function MaxWeight(sets: seq<WorkoutSet>): (r: int)
    ensures r >= 0
    ensures forall i :: 0 <= i < |sets| ==> sets[i].weight <= r
    ensures r == 0 || exists i :: 0 <= i < |sets| && sets[i].weight == r
    ensures |sets| == 0 ==> r == 0
  {
    var args := Weights(sets) + [0];
    var r := MathMax(args);
    assert forall i :: 0 <= i < |sets| ==> args[i] == sets[i].weight;
    assert args[|args| - 1] == 0;
    assert r == 0 || exists i :: 0 <= i < |sets| && args[i] == r;
    r
  }

  /** Three properties that pin the maximum down: it is the least non-negative upper bound that is 0 or attained. */
  ghost predicate IsMaxWeight(r: int, sets: seq<WorkoutSet>)
  {
    && r >= 0
    && (forall s :: s in sets ==> s.weight <= r)
    && (r == 0 || exists s :: s in sets && s.weight == r)
  }

  /** At most one value meets `IsMaxWeight`, and `MaxWeight` is that value. */
  lemma MaxWeightUnique(r: int, sets: seq<WorkoutSet>)
    requires IsMaxWeight(r, sets)
    ensures r == MaxWeight(sets)
  {
    var m := MaxWeight(sets);
    if r != 0 {
      var s :| s in sets && s.weight == r;
      var k :| 0 <= k < |sets| && sets[k] == s;
    }
    if m != 0 {
      var k :| 0 <= k < |sets| && sets[k].weight == m;
      assert sets[k] in sets;
    }
  }

  /** The maximum depends only on which sets are present, not on their order or multiplicity. */
  lemma {:induction false} MaxWeightSameSets(a: seq<WorkoutSet>, b: seq<WorkoutSet>)
    requires forall s :: s in a <==> s in b
    ensures MaxWeight(a) == MaxWeight(b)
  {
    var m := MaxWeight(a);
    forall s | s in b ensures s.weight <= m {
      var k :| 0 <= k < |a| && a[k] == s;
    }
    if m != 0 {
      var k :| 0 <= k < |a| && a[k].weight == m;
      assert a[k] in b;
    }
    MaxWeightUnique(m, b);
  }

  /** The maximum over two lists joined is the larger of the two maxima. */
  lemma {:induction false} MaxWeightAppend(a: seq<WorkoutSet>, b: seq<WorkoutSet>)
    ensures MaxWeight(a + b) == if MaxWeight(a) >= MaxWeight(b) then MaxWeight(a) else MaxWeight(b)
  {
    var ma, mb := MaxWeight(a), MaxWeight(b);
    var m := if ma >= mb then ma else mb;
    forall s | s in a + b ensures s.weight <= m {
      if s in a {
        var k :| 0 <= k < |a| && a[k] == s;
      } else {
        var k :| 0 <= k < |b| && b[k] == s;
      }
    }
    if m != 0 {
      if m == ma {
        var k :| 0 <= k < |a| && a[k].weight == m;
        assert a[k] in a + b;
      } else {
        var k :| 0 <= k < |b| && b[k].weight == m;
        assert b[k] in a + b;
      }
    }
    MaxWeightUnique(m, a + b);
  }

  /** The training volume of one set. */
  function SetVolume(s: WorkoutSet): int
  {
    s.reps * s.weight
  }

  /**
   Σ reps·weight over the sets, accumulated in index order from 0, the way
   `reduce((sum, set) => sum + set.reps * set.weight, 0)` does it.
   */
  function Volume(sets: seq<WorkoutSet>): int
  {
    if |sets| == 0 then 0 else Volume(sets[..|sets| - 1]) + SetVolume(sets[|sets| - 1])
  }

  /** Volume is additive over concatenation. */
  lemma {:induction false} VolumeAppend(a: seq<WorkoutSet>, b: seq<WorkoutSet>)
    ensures Volume(a + b) == Volume(a) + Volume(b)
    decreases |b|
  {
    if |b| == 0 {
      assert a + b == a;
    } else {
      var b' := b[..|b| - 1];
      assert (a + b)[..|a + b| - 1] == a + b';
      assert (a + b)[|a + b| - 1] == b[|b| - 1];
      VolumeAppend(a, b');
    }
  }

  /** The `reduce` loop: adds each set's reps·weight to a running sum that starts at 0. */
  method ReduceVolume(sets: seq<WorkoutSet>) returns (sum: int)
    ensures sum == Volume(sets)
  {
    sum := 0;
    var i := 0;
    while i < |sets|
      invariant 0 <= i <= |sets|
      invariant sum == Volume(sets[..i])
    {
      assert sets[..i + 1][..i] == sets[..i];
      sum := sum + sets[i].reps * sets[i].weight;
      i := i + 1;
    }
    assert sets[..i] == sets;
  }

  /** The per-exercise volumes summed over the exercises. */
  function ExerciseVolumes(exercises: seq<WorkoutExercise>): int
  {
    if |exercises| == 0 then 0 else Volume(exercises[0].sets) + ExerciseVolumes(exercises[1..])
  }

  /** The volume of the flattened sets is the sum of each exercise's own volume. */
  lemma {:induction false} VolumeOfAllSets(exercises: seq<WorkoutExercise>)
    ensures Volume(AllSets(exercises)) == ExerciseVolumes(exercises)
  {
    if |exercises| > 0 {
      VolumeAppend(exercises[0].sets, AllSets(exercises[1..]));
      VolumeOfAllSets(exercises[1..]);
    }
  }

  /** Summing per-exercise volumes is additive over concatenation of exercise lists. */
  lemma {:induction false} ExerciseVolumesAppend(a: seq<WorkoutExercise>, b: seq<WorkoutExercise>)
    ensures ExerciseVolumes(a + b) == ExerciseVolumes(a) + ExerciseVolumes(b)
  {
    if |a| == 0 {
      assert a + b == b;
    } else {
      assert (a + b)[1..] == a[1..] + b;
      ExerciseVolumesAppend(a[1..], b);
    }
  }

  /** Reordering the exercises does not change the total volume. */
  lemma {:induction false} VolumeIndependentOfExerciseOrder(a: seq<WorkoutExercise>, b: seq<WorkoutExercise>)
    requires multiset(a) == multiset(b)
    ensures Volume(AllSets(a)) == Volume(AllSets(b))
  {
    VolumeOfAllSets(a);
    VolumeOfAllSets(b);
    ExerciseVolumesPermutation(a, b);
  }

  lemma {:induction false} ExerciseVolumesPermutation(a: seq<WorkoutExercise>, b: seq<WorkoutExercise>)
    requires multiset(a) == multiset(b)
    ensures ExerciseVolumes(a) == ExerciseVolumes(b)
    decreases |a|
  {
    if |a| == 0 {
      assert |b| == |multiset(b)| == 0;
    } else {
      assert a[0] in multiset(b);
      var k :| 0 <= k < |b| && b[k] == a[0];
      var rest := b[..k] + b[k + 1..];
      RemoveAtMultiset(a, b, k);
      ExerciseVolumesPermutation(a[1..], rest);
      ExerciseVolumesRemoveAt(b, k);
    }
  }

  /** Taking the matching exercise out of both lists keeps them rearrangements of each other. */
  lemma RemoveAtMultiset(a: seq<WorkoutExercise>, b: seq<WorkoutExercise>, k: int)
    requires multiset(a) == multiset(b)
    requires |a| > 0 && 0 <= k < |b| && b[k] == a[0]
    ensures multiset(a[1..]) == multiset(b[..k] + b[k + 1..])
  {
    var e, rest := a[0], b[..k] + b[k + 1..];
    assert b == b[..k] + [e] + b[k + 1..];
    assert a == [e] + a[1..];
    forall x ensures multiset(a[1..])[x] == multiset(rest)[x] {
      assert multiset(a)[x] == multiset([e])[x] + multiset(a[1..])[x];
      assert multiset(b)[x] == multiset(b[..k])[x] + multiset([e])[x] + multiset(b[k + 1..])[x];
      assert multiset(rest)[x] == multiset(b[..k])[x] + multiset(b[k + 1..])[x];
    }
  }

  /** The per-exercise volume sum splits into one exercise's volume and the sum over the others. */
  lemma ExerciseVolumesRemoveAt(b: seq<WorkoutExercise>, k: int)
    requires 0 <= k < |b|
    ensures ExerciseVolumes(b) == Volume(b[k].sets) + ExerciseVolumes(b[..k] + b[k + 1..])
  {
    assert b == b[..k] + ([b[k]] + b[k + 1..]);
    ExerciseVolumesAppend(b[..k], [b[k]] + b[k + 1..]);
    assert ([b[k]] + b[k + 1..])[1..] == b[k + 1..];
    ExerciseVolumesAppend(b[..k], b[k + 1..]);
  }

  /** Reordering the exercises does not change the maximum weight. */
  lemma MaxWeightIndependentOfExerciseOrder(a: seq<WorkoutExercise>, b: seq<WorkoutExercise>)
    requires multiset(a) == multiset(b)
    ensures MaxWeight(AllSets(a)) == MaxWeight(AllSets(b))
  {
    forall s ensures LoggedIn(s, a) <==> LoggedIn(s, b) {
      if LoggedIn(s, a) {
        var i :| 0 <= i < |a| && s in a[i].sets;
        assert a[i] in multiset(b);
        var j :| 0 <= j < |b| && b[j] == a[i];
      }
      if LoggedIn(s, b) {
        var i :| 0 <= i < |b| && s in b[i].sets;
        assert b[i] in multiset(a);
        var j :| 0 <= j < |a| && a[j] == b[i];
      }
    }
    MaxWeightSameSets(AllSets(a), AllSets(b));
  }
}
