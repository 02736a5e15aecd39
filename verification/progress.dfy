/**
 The `GET /:id` handler of the progress router: a ladder of guard checks, each
 of which ends the request with its own message, followed by the aggregation
 of one equipment's logged sets into a progress record.
 */
module Progress {
  import opened Wrappers
  import opened Workout
  import opened Aggregates
  import opened LatestSession
  import opened Bearer

  const InvalidEquipmentId := "Invalid equipment Id"
  const Unauthorized := "Unauthorized"
  const TokenNotValid := "Token not valid"
  const UserNotFound := "User not found"
  const EquipmentNotFound := "Equipment not found"

  /** A user row as the handler selects it. */
  datatype User = User(id: int, username: string, email: string)

  /**
   What the handler consults: the tokens the verifier accepts (each with the
   email it was issued for), the user rows by email and the equipment rows by id.
   */
  datatype Store = Store(tokens: map<string, string>, users: map<string, User>, equipment: map<int, Equipment>)

  /**
   Each row sits under its own key, as `findUnique` on the unique `email` and
   on the primary key `id` can only return the row with that value.
   */
  ghost predicate ValidStore(db: Store)
  {
    && (forall email :: email in db.users ==> db.users[email].email == email)
    && (forall id :: id in db.equipment ==> db.equipment[id].id == id)
  }

  /** The request as the handler reads it: the `Authorization` header and the route's `id` after `parseInt` (`None` for NaN). */
  datatype Request = Request(authorization: Option<string>, equipmentId: Option<int>)

  /** The record the endpoint answers with. `lastWorkout` is `None` where the response carries `''`. */
  datatype ProgressData = ProgressData(
    equipmentId: int,
    exercises: seq<WorkoutExercise>,
    maxWeight: int,
    totalVolume: int,
    lastWorkout: Option<int>)

  /** The aggregation over an equipment that has been found. */
  function Aggregate(e: Equipment): (p: ProgressData)
    ensures p.equipmentId == e.id && p.exercises == e.exercises
    ensures p.maxWeight >= 0
    ensures forall s :: LoggedIn(s, e.exercises) ==> s.weight <= p.maxWeight
    ensures p.maxWeight == 0 || exists s :: LoggedIn(s, e.exercises) && s.weight == p.maxWeight
    ensures p.totalVolume == ExerciseVolumes(e.exercises)
    ensures AllSets(e.exercises) == [] ==> p.maxWeight == 0 && p.totalVolume == 0
    ensures p.lastWorkout.None? <==> |e.exercises| == 0
    ensures p.lastWorkout.Some? ==>
      && (exists i :: 0 <= i < |e.exercises| && e.exercises[i].session.date == p.lastWorkout.value)
      && (forall i :: 0 <= i < |e.exercises| ==> e.exercises[i].session.date <= p.lastWorkout.value)
  {
    var allSets := AllSets(e.exercises);
    MaxWeightOfExercises(e.exercises);
    VolumeOfAllSets(e.exercises);
    ProgressData(e.id, e.exercises, MaxWeight(allSets), Volume(allSets), LastWorkout(e.exercises))
  }

  /** The maximum over the flattened sets, restated in terms of the exercises the sets were logged in. */
  lemma MaxWeightOfExercises(exercises: seq<WorkoutExercise>)
    ensures forall s :: LoggedIn(s, exercises) ==> s.weight <= MaxWeight(AllSets(exercises))
    ensures var m := MaxWeight(AllSets(exercises));
      m == 0 || exists s :: LoggedIn(s, exercises) && s.weight == m
  {
    var allSets := AllSets(exercises);
    var m := MaxWeight(allSets);
    forall s | LoggedIn(s, exercises) ensures s.weight <= m {
      var k :| 0 <= k < |allSets| && allSets[k] == s;
    }
    if m != 0 {
      var k :| 0 <= k < |allSets| && allSets[k].weight == m;
      assert LoggedIn(allSets[k], exercises);
    }
  }

  /** Totals add up across exercise lists: the volume of `a + b` is the volume of `a` plus that of `b`. */
  lemma TotalVolumeAdditive(id: int, owner: int, a: seq<WorkoutExercise>, b: seq<WorkoutExercise>)
    ensures Aggregate(Equipment(id, owner, a + b)).totalVolume
         == Aggregate(Equipment(id, owner, a)).totalVolume + Aggregate(Equipment(id, owner, b)).totalVolume
  {
    AllSetsAppend(a, b);
    VolumeAppend(AllSets(a), AllSets(b));
  }

  /** The progress record does not depend on the order the exercises were loaded in. */
  lemma AggregateIndependentOfExerciseOrder(e: Equipment, exercises: seq<WorkoutExercise>)
    requires multiset(exercises) == multiset(e.exercises)
    ensures var p, q := Aggregate(e), Aggregate(e.(exercises := exercises));
      p.maxWeight == q.maxWeight && p.totalVolume == q.totalVolume && p.lastWorkout == q.lastWorkout
  {
    MaxWeightIndependentOfExerciseOrder(e.exercises, exercises);
    VolumeIndependentOfExerciseOrder(e.exercises, exercises);
    LastWorkoutIndependentOfExerciseOrder(e.exercises, exercises);
  }

  /** The checks of the ladder, each stated together with the ones it depends on. */
  predicate IdValid(req: Request)
  {
    req.equipmentId.Some?
  }

  predicate TokenPresent(req: Request)
  {
    Present(BearerToken(req.authorization))
  }

  predicate TokenValid(req: Request, db: Store)
  {
    TokenPresent(req) && BearerToken(req.authorization).value in db.tokens
  }

  predicate UserFound(req: Request, db: Store)
  {
    TokenValid(req, db) && db.tokens[BearerToken(req.authorization).value] in db.users
  }

  predicate EquipmentFound(req: Request, db: Store)
  {
    IdValid(req) && req.equipmentId.value in db.equipment
  }

  /** A check of the ladder: whether it passed, and the message it ends the request with otherwise. */
  datatype Check = Check(passed: bool, message: string)

  /** The message of the first check that did not pass, if any. */
  function FirstFailure(checks: seq<Check>): (r: Option<string>)
    ensures r.None? <==> forall i :: 0 <= i < |checks| ==> checks[i].passed
    ensures r.Some? ==> exists i ::
      && 0 <= i < |checks|
      && !checks[i].passed
      && checks[i].message == r.value
      && forall j :: 0 <= j < i ==> checks[j].passed
  {
    if |checks| == 0 then None
    else if !checks[0].passed then Some(checks[0].message)
    else
      var r := FirstFailure(checks[1..]);
      FirstFailureShift(checks, r);
      r
  }

  /** A verdict about the checks after a passing first one is a verdict about all of them. */
  lemma FirstFailureShift(checks: seq<Check>, r: Option<string>)
    requires |checks| > 0 && checks[0].passed
    requires r.None? <==> forall i :: 0 <= i < |checks| - 1 ==> checks[1..][i].passed
    requires r.Some? ==> exists i ::
      && 0 <= i < |checks| - 1
      && !checks[1..][i].passed
      && checks[1..][i].message == r.value
      && forall j :: 0 <= j < i ==> checks[1..][j].passed
    ensures r.None? <==> forall i :: 0 <= i < |checks| ==> checks[i].passed
    ensures r.Some? ==> exists i ::
      && 0 <= i < |checks|
      && !checks[i].passed
      && checks[i].message == r.value
      && forall j :: 0 <= j < i ==> checks[j].passed
  {
    if r.Some? {
      var i :| 0 <= i < |checks| - 1 && !checks[1..][i].passed && checks[1..][i].message == r.value
        && forall j :: 0 <= j < i ==> checks[1..][j].passed;
      assert !checks[i + 1].passed && checks[i + 1].message == r.value;
      forall j | 0 <= j < i + 1 ensures checks[j].passed {
        if j > 0 {
          assert checks[j] == checks[1..][j - 1];
        }
      }
    } else {
      forall i | 0 <= i < |checks| ensures checks[i].passed {
        if i > 0 {
          assert checks[i] == checks[1..][i - 1];
        }
      }
    }
  }

  /** The ladder in the order the handler runs it. */
  function Ladder(req: Request, db: Store): seq<Check>
  {
    [ Check(IdValid(req), InvalidEquipmentId),
      Check(TokenPresent(req), Unauthorized),
      Check(TokenValid(req, db), TokenNotValid),
      Check(UserFound(req, db), UserNotFound),
      Check(EquipmentFound(req, db), EquipmentNotFound) ]
  }

  /**
   The handler: reject a non-numeric id, then a missing token, then a token
   the verifier refuses, then a token whose user is gone, then an unknown
   equipment id; only when every check passes, aggregate that equipment.
   */
  function GetProgressData(req: Request, db: Store): (r: Result<ProgressData, string>)
    // a non-numeric id is reported whatever the header holds, even with no token at all
    ensures req.equipmentId.None? ==> r == Failure(InvalidEquipmentId)
    ensures r.Success? <==> IdValid(req) && UserFound(req, db) && EquipmentFound(req, db)
    ensures r.Success? ==> r.value == Aggregate(db.equipment[req.equipmentId.value])
    ensures ValidStore(db) && r.Success? ==> r.value.equipmentId == req.equipmentId.value
    ensures r.Failure? ==> r.error in {InvalidEquipmentId, Unauthorized, TokenNotValid, UserNotFound, EquipmentNotFound}
  {
    if req.equipmentId.None? then Failure(InvalidEquipmentId)
    else
      var token := BearerToken(req.authorization);
      if !Present(token) then Failure(Unauthorized)
      else if token.value !in db.tokens then Failure(TokenNotValid)
      else if db.tokens[token.value] !in db.users then Failure(UserNotFound)
      else if req.equipmentId.value !in db.equipment then Failure(EquipmentNotFound)
      else Success(Aggregate(db.equipment[req.equipmentId.value]))
  }

  /** The handler answers with the message of the first failing check, and aggregates exactly when none fails. */
  lemma GetProgressDataFollowsLadder(req: Request, db: Store)
    ensures match FirstFailure(Ladder(req, db))
      case Some(m) => GetProgressData(req, db) == Failure(m)
      case None =>
        && EquipmentFound(req, db)
        && GetProgressData(req, db) == Success(Aggregate(db.equipment[req.equipmentId.value]))
  {
    var checks := Ladder(req, db);
    if checks[0].passed && checks[1].passed && checks[2].passed && checks[3].passed && checks[4].passed {
      assert FirstFailure(checks[4..]) == None;
    }
  }

  /**
   The equipment is looked up by id alone: any user with a valid token gets
   the progress of any existing equipment, whoever owns it.
   */
  lemma ProgressNotScopedToOwner(req: Request, db: Store, user: User)
    requires IdValid(req) && UserFound(req, db) && EquipmentFound(req, db)
    requires db.users[db.tokens[BearerToken(req.authorization).value]] == user
    requires db.equipment[req.equipmentId.value].ownerId != user.id
    ensures GetProgressData(req, db).Success?
  {
  }
}
