/**
 * The server's workout handlers: list, read, create, update and delete the
 * caller's workouts, and add, update and remove their exercise rows. Every
 * lookup is scoped to the caller: a workout of another user is not found.
 * The caller is the user id the token carries; "today" is a parameter.
 */
module WorkoutRoutes {

  import opened Wrappers
  import opened Tables
  import Seqs
  import Text
  import opened Pagination
  import ExerciseRoutes

  const NameRequired := "Name is required"
  const ExerciseIdRequired := "Exercise ID is required"

  /** The caller owns the workout. */
  function OwnedBy(userId: nat): Workout -> bool {
    (w: Workout) => w.userId == userId
  }

  /** ORDER BY date DESC: a workout may precede another when its date is not earlier. */
  function NewestFirst(): (Workout, Workout) -> bool {
    (a: Workout, b: Workout) => DateLe(b.date, a.date)
  }

  lemma NewestFirstIsTotal()
    ensures Seqs.TotalPreorder(NewestFirst())
  {
    DateLeTotalPreorder();
  }

  /**
   * get_workouts: the caller's workouts, newest first; page defaults to 1 and the page
   * size to 10, capped at 100. Cutting out the requested page is not modelled.
   */
  function ListWorkouts(workouts: seq<Workout>, userId: nat, args: seq<(string, string)>): (r: Listing<Workout>)
    ensures r.page == ArgInt(args, "page", 1) && r.perPage == PageSize(args, 10)
    ensures forall i :: 0 <= i < |r.items| ==> r.items[i].userId == userId
    ensures forall w :: w in workouts && w.userId == userId ==> w in r.items
    ensures forall w :: w in r.items ==> w in workouts
    ensures forall i, j :: 0 <= i < j < |r.items| ==> DateLe(r.items[j].date, r.items[i].date)
    ensures forall w :: multiset(r.items)[w] == if w.userId == userId then multiset(workouts)[w] else 0
  {
    NewestFirstIsTotal();
    var mine := Seqs.Filter(workouts, OwnedBy(userId));
    var items := Seqs.SortBy(mine, NewestFirst());
    Seqs.PermutationSameElements(items, mine);
    forall w | w in workouts && w.userId == userId ensures w in items {
      Seqs.FilterMember(workouts, OwnedBy(userId), w);
    }
    forall w | w in items ensures w in workouts && w.userId == userId {
      Seqs.FilterMember(workouts, OwnedBy(userId), w);
    }
    Listing(ArgInt(args, "page", 1), PageSize(args, 10), items)
  }

  /** The position of workout `id` if the caller owns it. */
  function OwnedWorkout(workouts: seq<Workout>, userId: nat, id: nat): (r: Option<nat>)
    ensures r.Some? ==> r.value < |workouts| && workouts[r.value].id == id && workouts[r.value].userId == userId
    ensures r.None? ==> forall i :: 0 <= i < |workouts| ==> !(workouts[i].id == id && workouts[i].userId == userId)
  {
    Find(workouts, (w: Workout) => w.id == id && w.userId == userId)
  }

  /** The exercise rows of a workout, in table order. */
  function RowsOf(entries: seq<WorkoutExercise>, workoutId: nat): (r: seq<WorkoutExercise>)
    ensures forall e :: e in r <==> e in entries && e.workoutId == workoutId
  {
    var p := (e: WorkoutExercise) => e.workoutId == workoutId;
    forall e ensures e in Seqs.Filter(entries, p) <==> e in entries && p(e) {
      Seqs.FilterMember(entries, p, e);
    }
    Seqs.Filter(entries, p)
  }

  /** get_workout: the caller's workout with its exercise rows, or 404. */
  function GetWorkout(workouts: seq<Workout>, entries: seq<WorkoutExercise>, userId: nat, id: nat): (r: Reply<(Workout, seq<WorkoutExercise>)>)
    ensures r.Ok? ==> && r.status == 200 && r.value.0 in workouts && r.value.0.id == id && r.value.0.userId == userId
                      && r.value.1 == RowsOf(entries, id)
    ensures r.NotFound? <==> forall w :: w in workouts ==> !(w.id == id && w.userId == userId)
    ensures !r.Error?
  {
    match OwnedWorkout(workouts, userId, id)
    case None => NotFound
    case Some(i) => Ok(200, (workouts[i], RowsOf(entries, id)))
  }

  /** The fields of a workout request; a missing key is None, a key holding null is Some(None). */
  datatype WorkoutData = WorkoutData(name: Option<string>, date: Option<Date>, duration: Option<Option<int>>, notes: Option<Option<string>>)


  /** create_workout. */
  method CreateWorkout(db: Database, userId: nat, data: WorkoutData, today: Date) returns (r: Reply<Workout>)
    requires db.Valid()
    modifies db`workouts, db`nextWorkoutId
    ensures db.Valid()
    ensures data.name.None? ==> r == Error(400, NameRequired) && db.workouts == old(db.workouts)
    ensures data.name.Some? ==>
      && r == Ok(201, Workout(old(db.nextWorkoutId), userId, data.name.value, data.date.GetOr(today), Get(data.duration), Get(data.notes)))
      && db.workouts == old(db.workouts) + [r.value]
  {
    if data.name.None? {
      return Error(400, NameRequired);
    }
    var w := Workout(db.nextWorkoutId, userId, data.name.value, data.date.GetOr(today), Get(data.duration), Get(data.notes));
    AppendFresh(db.workouts, WorkoutKey, db.nextWorkoutId, w);
    LinkedWorkoutAdded(db.workouts, db.entries, db.exercises, w);
    db.workouts := db.workouts + [w];
    db.nextWorkoutId := db.nextWorkoutId + 1;
    r := Ok(201, w);
  }

  /** A workout after update_workout: the keys present overwrite their fields; nothing else changes. */
  function Revised(w: Workout, data: WorkoutData): (v: Workout)
    ensures v.id == w.id && v.userId == w.userId
    ensures v.name == data.name.GetOr(w.name)
    ensures v.date == data.date.GetOr(w.date)
    ensures v.duration == data.duration.GetOr(w.duration)
    ensures v.notes == data.notes.GetOr(w.notes)
  {
    w.(name := data.name.GetOr(w.name), date := data.date.GetOr(w.date),
       duration := data.duration.GetOr(w.duration), notes := data.notes.GetOr(w.notes))
  }

  /** An update with no keys changes nothing. */
  lemma EmptyUpdateKeepsWorkout(w: Workout)
    ensures Revised(w, WorkoutData(None, None, None, None)) == w
  {
  }

  /** update_workout: only the caller's workout, and only the fields present. */
  method UpdateWorkout(db: Database, userId: nat, id: nat, data: WorkoutData) returns (r: Reply<Workout>)
    requires db.Valid()
    modifies db`workouts
    ensures db.Valid()
    ensures OwnedWorkout(old(db.workouts), userId, id).None? ==> r == NotFound && db.workouts == old(db.workouts)
    ensures OwnedWorkout(old(db.workouts), userId, id).Some? ==>
      var i := OwnedWorkout(old(db.workouts), userId, id).value;
      r == Ok(200, Revised(old(db.workouts)[i], data)) && db.workouts == old(db.workouts)[i := r.value]
  {
    var found := OwnedWorkout(db.workouts, userId, id);
    if found.None? {
      return NotFound;
    }
    var i := found.value;
    var w := Revised(db.workouts[i], data);
    ReplaceSameKey(db.workouts, WorkoutKey, db.nextWorkoutId, i, w);
    LinkedWorkoutReplaced(db.workouts, db.entries, db.exercises, i, w);
    db.workouts := db.workouts[i := w];
    r := Ok(200, w);
  }

  function WorkoutNot(id: nat): Workout -> bool {
    (w: Workout) => w.id != id
  }

  function RowNotIn(workoutId: nat): WorkoutExercise -> bool {
    (e: WorkoutExercise) => e.workoutId != workoutId
  }

  /** delete_workout: the caller's workout goes, and with it its exercise rows. */
  method DeleteWorkout(db: Database, userId: nat, id: nat) returns (r: Reply<()>)
    requires db.Valid()
    modifies db`workouts, db`entries
    ensures db.Valid()
    ensures OwnedWorkout(old(db.workouts), userId, id).None? ==>
      r == NotFound && db.workouts == old(db.workouts) && db.entries == old(db.entries)
    ensures OwnedWorkout(old(db.workouts), userId, id).Some? ==>
      && r == Ok(204, ())
      && db.workouts == Seqs.Filter(old(db.workouts), WorkoutNot(id))
      && db.entries == Seqs.Filter(old(db.entries), RowNotIn(id))
  {
    var found := OwnedWorkout(db.workouts, userId, id);
    if found.None? {
      return NotFound;
    }
    FilterKeepsKeys(db.workouts, WorkoutKey, db.nextWorkoutId, WorkoutNot(id));
    FilterKeepsKeys(db.entries, EntryKey, db.nextEntryId, RowNotIn(id));
    LinkedWorkoutDeleted(db.workouts, db.entries, db.exercises, id, WorkoutNot(id), RowNotIn(id));
    db.workouts := Seqs.Filter(db.workouts, WorkoutNot(id));
    db.entries := Seqs.Filter(db.entries, RowNotIn(id));
    r := Ok(204, ());
  }

  /** After a delete the workout is gone, no row refers to it, and every other workout is kept. */
  lemma DeleteRemovesWorkout(workouts: seq<Workout>, entries: seq<WorkoutExercise>, id: nat, w: Workout)
    ensures forall v :: v in Seqs.Filter(workouts, WorkoutNot(id)) ==> v.id != id
    ensures forall e :: e in Seqs.Filter(entries, RowNotIn(id)) ==> e.workoutId != id
    ensures w in workouts && w.id != id ==> w in Seqs.Filter(workouts, WorkoutNot(id))
  {
    Seqs.FilterMember(workouts, WorkoutNot(id), w);
  }

  /** The fields of a workout-exercise request. */
  datatype EntryData = EntryData(
    exerciseId: Option<nat>,
    sets: Option<Option<int>>,
    reps: Option<Option<int>>,
    weight: Option<Option<real>>,
    duration: Option<Option<int>>,
    distance: Option<Option<real>>,
    notes: Option<Option<string>>)

  /** add_exercise_to_workout: the workout must be the caller's, the exercise id given and the exercise existing. */
  method AddExercise(db: Database, userId: nat, workoutId: nat, data: EntryData) returns (r: Reply<WorkoutExercise>)
    requires db.Valid()
    modifies db`entries, db`nextEntryId
    ensures db.Valid()
    ensures r.Ok? <==> OwnedWorkout(old(db.workouts), userId, workoutId).Some? && data.exerciseId.Some?
                        && HasExercise(db.exercises, data.exerciseId.value)
    ensures OwnedWorkout(old(db.workouts), userId, workoutId).None? ==> r == NotFound
    ensures OwnedWorkout(old(db.workouts), userId, workoutId).Some? && data.exerciseId.None? ==>
      r == Error(400, ExerciseIdRequired)
    ensures OwnedWorkout(old(db.workouts), userId, workoutId).Some? && data.exerciseId.Some? &&
              !HasExercise(db.exercises, data.exerciseId.value) ==>
              r == NotFound
    ensures !r.Ok? ==> db.entries == old(db.entries)
    ensures r.Ok? ==>
      && r == Ok(201, WorkoutExercise(old(db.nextEntryId), workoutId, data.exerciseId.value,
                                     Get(data.sets), Get(data.reps), Get(data.weight),
                                     Get(data.duration), Get(data.distance), Get(data.notes)))
      && db.entries == old(db.entries) + [r.value]
  {
    var found := OwnedWorkout(db.workouts, userId, workoutId);
    if found.None? {
      return NotFound;
    }
    if data.exerciseId.None? {
      return Error(400, ExerciseIdRequired);
    }
    var x := ExerciseRoutes.ExerciseAt(db.exercises, data.exerciseId.value);
    if x.None? {
      return NotFound;
    }
    var e := WorkoutExercise(db.nextEntryId, workoutId, data.exerciseId.value,
                             Get(data.sets), Get(data.reps), Get(data.weight),
                             Get(data.duration), Get(data.distance), Get(data.notes));
    AppendFresh(db.entries, EntryKey, db.nextEntryId, e);
    LinkedEntryAdded(db.workouts, db.entries, db.exercises, e);
    db.entries := db.entries + [e];
    db.nextEntryId := db.nextEntryId + 1;
    r := Ok(201, e);
  }

  /** A workout-exercise row after update_workout_exercise: the keys present overwrite their fields. */
  function RevisedEntry(e: WorkoutExercise, data: EntryData): (f: WorkoutExercise)
    ensures f.id == e.id && f.workoutId == e.workoutId && f.exerciseId == e.exerciseId
    ensures f.sets == data.sets.GetOr(e.sets) && f.reps == data.reps.GetOr(e.reps)
    ensures f.weight == data.weight.GetOr(e.weight) && f.duration == data.duration.GetOr(e.duration)
    ensures f.distance == data.distance.GetOr(e.distance) && f.notes == data.notes.GetOr(e.notes)
  {
    e.(sets := data.sets.GetOr(e.sets), reps := data.reps.GetOr(e.reps), weight := data.weight.GetOr(e.weight),
       duration := data.duration.GetOr(e.duration), distance := data.distance.GetOr(e.distance),
       notes := data.notes.GetOr(e.notes))
  }

  /** The position of row `entryId` of workout `workoutId`. The route's second id is the row's own id. */
  function RowAt(entries: seq<WorkoutExercise>, workoutId: nat, entryId: nat): (r: Option<nat>)
    ensures r.Some? ==> r.value < |entries| && entries[r.value].id == entryId && entries[r.value].workoutId == workoutId
    ensures r.None? ==> forall k :: 0 <= k < |entries| ==> !(entries[k].id == entryId && entries[k].workoutId == workoutId)
  {
    Find(entries, (e: WorkoutExercise) => e.workoutId == workoutId && e.id == entryId)
  }

  /** update_workout_exercise: only a row of the caller's workout, and only the fields present. */
  method UpdateWorkoutExercise(db: Database, userId: nat, workoutId: nat, entryId: nat, data: EntryData)
    returns (r: Reply<WorkoutExercise>)
    requires db.Valid()
    modifies db`entries
    ensures db.Valid()
    ensures OwnedWorkout(db.workouts, userId, workoutId).None? || RowAt(old(db.entries), workoutId, entryId).None? ==>
      r == NotFound && db.entries == old(db.entries)
    ensures OwnedWorkout(db.workouts, userId, workoutId).Some? && RowAt(old(db.entries), workoutId, entryId).Some? ==>
      var k := RowAt(old(db.entries), workoutId, entryId).value;
      r == Ok(200, RevisedEntry(old(db.entries)[k], data)) && db.entries == old(db.entries)[k := r.value]
  {
    if OwnedWorkout(db.workouts, userId, workoutId).None? {
      return NotFound;
    }
    var found := RowAt(db.entries, workoutId, entryId);
    if found.None? {
      return NotFound;
    }
    var k := found.value;
    var e := RevisedEntry(db.entries[k], data);
    ReplaceSameKey(db.entries, EntryKey, db.nextEntryId, k, e);
    LinkedEntryReplaced(db.workouts, db.entries, db.exercises, k, e);
    db.entries := db.entries[k := e];
    r := Ok(200, e);
  }

  function RowNot(entryId: nat): WorkoutExercise -> bool {
    (e: WorkoutExercise) => e.id != entryId
  }

  /** remove_exercise_from_workout: only a row of the caller's workout. */
  method RemoveExercise(db: Database, userId: nat, workoutId: nat, entryId: nat) returns (r: Reply<()>)
    requires db.Valid()
    modifies db`entries
    ensures db.Valid()
    ensures OwnedWorkout(db.workouts, userId, workoutId).None? || RowAt(old(db.entries), workoutId, entryId).None? ==>
      r == NotFound && db.entries == old(db.entries)
    ensures OwnedWorkout(db.workouts, userId, workoutId).Some? && RowAt(old(db.entries), workoutId, entryId).Some? ==>
      r == Ok(204, ()) && db.entries == Seqs.Filter(old(db.entries), RowNot(entryId))
  {
    if OwnedWorkout(db.workouts, userId, workoutId).None? || RowAt(db.entries, workoutId, entryId).None? {
      return NotFound;
    }
    FilterKeepsKeys(db.entries, EntryKey, db.nextEntryId, RowNot(entryId));
    LinkedEntriesFiltered(db.workouts, db.entries, db.exercises, RowNot(entryId));
    db.entries := Seqs.Filter(db.entries, RowNot(entryId));
    r := Ok(204, ());
  }

  /** Another user's workout is never read: whatever its id, the caller gets 404 for it. */
  lemma OthersWorkoutsNotFound(workouts: seq<Workout>, entries: seq<WorkoutExercise>, userId: nat, w: Workout)
    requires KeysDistinct(workouts, WorkoutKey)
    requires w in workouts && w.userId != userId
    ensures GetWorkout(workouts, entries, userId, w.id) == NotFound
    ensures OwnedWorkout(workouts, userId, w.id).None?
  {
    var i :| 0 <= i < |workouts| && workouts[i] == w;
  }
}
