/**
 * The server's tables, without the ORM: each table is a sequence of rows in
 * insertion order, every row carrying its integer primary key. Dates are
 * calendar dates; the day count of a date stands for date arithmetic.
 */
module Tables {

  import opened Wrappers
  import Text
  import Seqs

  /** A calendar date (the `Date` column type). */
  datatype Date = Date(year: int, month: int, day: int)

  /** Chronological order of dates: by year, then month, then day. */
  predicate DateLe(a: Date, b: Date) {
    a.year < b.year || (a.year == b.year && (a.month < b.month || (a.month == b.month && a.day <= b.day)))
  }

  lemma DateLeTotalPreorder()
    ensures forall a, b :: DateLe(a, b) || DateLe(b, a)
    ensures forall a, b, c :: DateLe(a, b) && DateLe(b, c) ==> DateLe(a, c)
  {
  }

  /** The number of days from 1970-01-01 to a date of the proleptic Gregorian calendar. */
  function DaysFromCivil(d: Date): int {
    var y := if d.month <= 2 then d.year - 1 else d.year;
    var era := y / 400;
    var yoe := y - era * 400;
    var mp := (d.month + 9) % 12;
    var doy := (153 * mp + 2) / 5 + d.day - 1;
    var doe := yoe * 365 + yoe / 4 - yoe / 100 + doy;
    era * 146097 + doe - 719468
  }

  datatype User = User(id: nat, username: string, email: string, passwordHash: string)

  datatype Workout = Workout(id: nat, userId: nat, name: string, date: Date, duration: Option<int>, notes: Option<string>)

  /** A row of `workout_exercises`: one exercise performed in one workout. */
  datatype WorkoutExercise = WorkoutExercise(
    id: nat,
    workoutId: nat,
    exerciseId: nat,
    sets: Option<int>,
    reps: Option<int>,
    weight: Option<real>,
    duration: Option<int>,
    distance: Option<real>,
    notes: Option<string>)

  datatype Exercise = Exercise(id: nat, name: string, description: Option<string>, category: Option<string>)

  /** The primary key of a row. */
  function UserKey(u: User): nat { u.id }
  function WorkoutKey(w: Workout): nat { w.id }
  function EntryKey(e: WorkoutExercise): nat { e.id }
  function ExerciseKey(x: Exercise): nat { x.id }

  /** No two rows share a key. */
  predicate KeysDistinct<T>(rows: seq<T>, key: T -> nat) {
    forall i, j :: 0 <= i < j < |rows| ==> key(rows[i]) != key(rows[j])
  }

  /** Every key is below the next key the table will hand out. */
  predicate KeysBelow<T>(rows: seq<T>, key: T -> nat, next: nat) {
    forall i :: 0 <= i < |rows| ==> key(rows[i]) < next
  }

  /** The position of the first row satisfying p. */
  function Find<T>(rows: seq<T>, p: T -> bool): (r: Option<nat>)
    ensures r.None? ==> forall i :: 0 <= i < |rows| ==> !p(rows[i])
    ensures r.Some? ==> r.value < |rows| && p(rows[r.value])
    ensures r.Some? ==> forall i :: 0 <= i < r.value ==> !p(rows[i])
  {
    if rows == [] then None
    else if p(rows[0]) then Some(0)
    else
      var r := Find(rows[1..], p);
      if r.None? then None else Some(r.value + 1)
  }

  /** In a sequence with distinct keys no element occurs twice. */
  lemma {:induction false} DistinctKeysOccurOnce<T>(rows: seq<T>, key: T -> nat, x: T)
    requires KeysDistinct(rows, key)
    ensures multiset(rows)[x] <= 1
  {
    if rows != [] {
      assert KeysDistinct(rows[1..], key) by {
        forall i, j | 0 <= i < j < |rows[1..]| ensures key(rows[1..][i]) != key(rows[1..][j]) {
          assert rows[1..][i] == rows[i + 1] && rows[1..][j] == rows[j + 1];
        }
      }
      DistinctKeysOccurOnce(rows[1..], key, x);
      assert rows == [rows[0]] + rows[1..];
      assert rows[0] == x ==> x !in rows[1..] by {
        forall k | 0 <= k < |rows[1..]| ensures key(rows[1..][k]) != key(rows[0]) {
          assert rows[1..][k] == rows[k + 1];
        }
      }
    }
  }

  /** Reordering a sequence with distinct keys keeps them distinct. */
  lemma PermutationKeepsKeysDistinct<T>(a: seq<T>, b: seq<T>, key: T -> nat)
    requires multiset(a) == multiset(b)
    requires KeysDistinct(b, key)
    ensures KeysDistinct(a, key)
  {
    forall i, j | 0 <= i < j < |a| ensures key(a[i]) != key(a[j]) {
      assert a[i] in multiset(b) && a[j] in multiset(b);
      var p :| 0 <= p < |b| && b[p] == a[i];
      var q :| 0 <= q < |b| && b[q] == a[j];
      DistinctKeysOccurOnce(b, key, a[i]);
      assert a == a[..j] + [a[j]] + a[j + 1..];
      assert a[i] in a[..j];
      assert a[i] == a[j] ==> multiset(a)[a[i]] >= 2;
      assert key(a[i]) == key(a[j]) ==> p == q;
    }
  }

  /** In a table with distinct keys, a row found by key is the only row with that key. */
  lemma FoundByKeyIsUnique<T>(rows: seq<T>, key: T -> nat, id: nat, i: nat)
    requires KeysDistinct(rows, key)
    requires i < |rows| && key(rows[i]) == id
    ensures forall j :: 0 <= j < |rows| && j != i ==> key(rows[j]) != id
  {
  }

  /** Appending a row with a fresh key keeps keys distinct and below the advanced counter. */
  lemma AppendFresh<T>(rows: seq<T>, key: T -> nat, next: nat, row: T)
    requires KeysDistinct(rows, key) && KeysBelow(rows, key, next) && key(row) == next
    ensures KeysDistinct(rows + [row], key) && KeysBelow(rows + [row], key, next + 1)
  {
  }

  /** Replacing a row by one with the same key keeps keys distinct and bounded. */
  lemma ReplaceSameKey<T>(rows: seq<T>, key: T -> nat, next: nat, i: nat, row: T)
    requires KeysDistinct(rows, key) && KeysBelow(rows, key, next)
    requires i < |rows| && key(row) == key(rows[i])
    ensures KeysDistinct(rows[i := row], key) && KeysBelow(rows[i := row], key, next)
  {
  }

  /** Deleting rows keeps keys distinct and bounded. */
  lemma FilterKeepsKeys<T(!new)>(rows: seq<T>, key: T -> nat, next: nat, p: T -> bool)
    requires KeysDistinct(rows, key) && KeysBelow(rows, key, next)
    ensures KeysDistinct(Seqs.Filter(rows, p), key) && KeysBelow(Seqs.Filter(rows, p), key, next)
  {
    FilterKeepsDistinct(rows, key, p);
    var kept := Seqs.Filter(rows, p);
    forall i | 0 <= i < |kept| ensures key(kept[i]) < next {
      Seqs.FilterMember(rows, p, kept[i]);
    }
  }

  /** A row whose key no other row has can be put in front of rows with distinct keys. */
  lemma ConsKeepsDistinct<T>(x: T, rest: seq<T>, key: T -> nat)
    requires KeysDistinct(rest, key)
    requires forall i :: 0 <= i < |rest| ==> key(rest[i]) != key(x)
    ensures KeysDistinct([x] + rest, key)
  {
    var r := [x] + rest;
    forall i, j | 0 <= i < j < |r| ensures key(r[i]) != key(r[j]) {
      assert r[j] == rest[j - 1];
      if i > 0 {
        assert r[i] == rest[i - 1];
      }
    }
  }

  lemma {:induction false} FilterKeepsDistinct<T(!new)>(rows: seq<T>, key: T -> nat, p: T -> bool)
    requires KeysDistinct(rows, key)
    ensures KeysDistinct(Seqs.Filter(rows, p), key)
  {
    if rows != [] {
      var tail := rows[1..];
      FilterKeepsDistinct(tail, key, p);
      var rest := Seqs.Filter(tail, p);
      if p(rows[0]) {
        assert Seqs.Filter(rows, p) == [rows[0]] + rest;
        forall j | 0 <= j < |rest| ensures key(rest[j]) != key(rows[0]) {
          Seqs.FilterMember(tail, p, rest[j]);
          var k :| 0 <= k < |tail| && tail[k] == rest[j];
          assert rows[k + 1] == rest[j];
        }
        ConsKeepsDistinct(rows[0], rest, key);
      } else {
        assert Seqs.Filter(rows, p) == rest;
      }
    }
  }

  /**
   * The server's store. Besides keys, it keeps two invariants the handlers rely on:
   * usernames and emails are each unique among users, and every workout-exercise row
   * refers to an existing workout and an existing exercise.
   */
  class Database {
    var users: seq<User>
    var workouts: seq<Workout>
    var entries: seq<WorkoutExercise>
    var exercises: seq<Exercise>
    var nextUserId: nat
    var nextWorkoutId: nat
    var nextEntryId: nat
    var nextExerciseId: nat

    predicate Valid()
      reads this
    {
      && KeysDistinct(users, UserKey) && KeysBelow(users, UserKey, nextUserId)
      && KeysDistinct(workouts, WorkoutKey) && KeysBelow(workouts, WorkoutKey, nextWorkoutId)
      && KeysDistinct(entries, EntryKey) && KeysBelow(entries, EntryKey, nextEntryId)
      && KeysDistinct(exercises, ExerciseKey) && KeysBelow(exercises, ExerciseKey, nextExerciseId)
      && AccountsUnique(users)
      && Linked(workouts, entries, exercises)
    }

    /** An empty store; keys start at 1. */
    constructor ()
      ensures Valid()
      ensures users == [] && workouts == [] && entries == [] && exercises == []
    {
      users, workouts, entries, exercises := [], [], [], [];
      nextUserId, nextWorkoutId, nextEntryId, nextExerciseId := 1, 1, 1, 1;
    }
  }

  /** No two users share a username, and no two share an email. */
  predicate AccountsUnique(users: seq<User>) {
    forall i, j :: 0 <= i < j < |users| ==> users[i].username != users[j].username && users[i].email != users[j].email
  }

  predicate HasWorkout(workouts: seq<Workout>, id: nat) {
    exists i :: 0 <= i < |workouts| && workouts[i].id == id
  }

  predicate HasExercise(exercises: seq<Exercise>, id: nat) {
    exists i :: 0 <= i < |exercises| && exercises[i].id == id
  }

  /** Every workout-exercise row refers to an existing workout and an existing exercise. */
  predicate Linked(workouts: seq<Workout>, entries: seq<WorkoutExercise>, exercises: seq<Exercise>) {
    forall k :: 0 <= k < |entries| ==> HasWorkout(workouts, entries[k].workoutId) && HasExercise(exercises, entries[k].exerciseId)
  }

  // ----- how table edits keep the references intact -----

  lemma LinkedWorkoutAdded(workouts: seq<Workout>, entries: seq<WorkoutExercise>, exercises: seq<Exercise>, w: Workout)
    requires Linked(workouts, entries, exercises)
    ensures Linked(workouts + [w], entries, exercises)
  {
    forall k | 0 <= k < |entries| ensures HasWorkout(workouts + [w], entries[k].workoutId) {
      var i :| 0 <= i < |workouts| && workouts[i].id == entries[k].workoutId;
      assert (workouts + [w])[i] == workouts[i];
    }
  }

  lemma LinkedWorkoutReplaced(workouts: seq<Workout>, entries: seq<WorkoutExercise>, exercises: seq<Exercise>, j: nat, w: Workout)
    requires Linked(workouts, entries, exercises)
    requires j < |workouts| && w.id == workouts[j].id
    ensures Linked(workouts[j := w], entries, exercises)
  {
    forall k | 0 <= k < |entries| ensures HasWorkout(workouts[j := w], entries[k].workoutId) {
      var i :| 0 <= i < |workouts| && workouts[i].id == entries[k].workoutId;
      assert workouts[j := w][i].id == workouts[i].id;
    }
  }

  lemma LinkedExerciseAdded(workouts: seq<Workout>, entries: seq<WorkoutExercise>, exercises: seq<Exercise>, x: Exercise)
    requires Linked(workouts, entries, exercises)
    ensures Linked(workouts, entries, exercises + [x])
  {
    forall k | 0 <= k < |entries| ensures HasExercise(exercises + [x], entries[k].exerciseId) {
      var i :| 0 <= i < |exercises| && exercises[i].id == entries[k].exerciseId;
      assert (exercises + [x])[i] == exercises[i];
    }
  }

  lemma LinkedExerciseReplaced(workouts: seq<Workout>, entries: seq<WorkoutExercise>, exercises: seq<Exercise>, j: nat, x: Exercise)
    requires Linked(workouts, entries, exercises)
    requires j < |exercises| && x.id == exercises[j].id
    ensures Linked(workouts, entries, exercises[j := x])
  {
    forall k | 0 <= k < |entries| ensures HasExercise(exercises[j := x], entries[k].exerciseId) {
      var i :| 0 <= i < |exercises| && exercises[i].id == entries[k].exerciseId;
      assert exercises[j := x][i].id == exercises[i].id;
    }
  }

  lemma LinkedEntryAdded(workouts: seq<Workout>, entries: seq<WorkoutExercise>, exercises: seq<Exercise>, e: WorkoutExercise)
    requires Linked(workouts, entries, exercises)
    requires HasWorkout(workouts, e.workoutId) && HasExercise(exercises, e.exerciseId)
    ensures Linked(workouts, entries + [e], exercises)
  {
  }

  lemma LinkedEntryReplaced(workouts: seq<Workout>, entries: seq<WorkoutExercise>, exercises: seq<Exercise>, j: nat, e: WorkoutExercise)
    requires Linked(workouts, entries, exercises)
    requires j < |entries| && e.workoutId == entries[j].workoutId && e.exerciseId == entries[j].exerciseId
    ensures Linked(workouts, entries[j := e], exercises)
  {
  }

  lemma LinkedEntriesFiltered(workouts: seq<Workout>, entries: seq<WorkoutExercise>, exercises: seq<Exercise>, p: WorkoutExercise -> bool)
    requires Linked(workouts, entries, exercises)
    ensures Linked(workouts, Seqs.Filter(entries, p), exercises)
  {
    var kept := Seqs.Filter(entries, p);
    forall k | 0 <= k < |kept| ensures HasWorkout(workouts, kept[k].workoutId) && HasExercise(exercises, kept[k].exerciseId) {
      Seqs.FilterMember(entries, p, kept[k]);
      var i :| 0 <= i < |entries| && entries[i] == kept[k];
    }
  }

  /** A workout whose id is not the deleted one survives the deletion. */
  lemma WorkoutSurvives(workouts: seq<Workout>, id: nat, keep: Workout -> bool, wid: nat)
    requires forall w :: keep(w) == (w.id != id)
    requires HasWorkout(workouts, wid) && wid != id
    ensures HasWorkout(Seqs.Filter(workouts, keep), wid)
  {
    var j :| 0 <= j < |workouts| && workouts[j].id == wid;
    Seqs.FilterMember(workouts, keep, workouts[j]);
    var ws := Seqs.Filter(workouts, keep);
    var m :| 0 <= m < |ws| && ws[m] == workouts[j];
  }

  /** Deleting a workout together with its rows of `workout_exercises` (the delete-orphan cascade). */
  lemma LinkedWorkoutDeleted(workouts: seq<Workout>, entries: seq<WorkoutExercise>, exercises: seq<Exercise>,
                             id: nat, keepWorkout: Workout -> bool, keepEntry: WorkoutExercise -> bool)
    requires Linked(workouts, entries, exercises)
    requires forall w :: keepWorkout(w) == (w.id != id)
    requires forall e :: keepEntry(e) == (e.workoutId != id)
    ensures Linked(Seqs.Filter(workouts, keepWorkout), Seqs.Filter(entries, keepEntry), exercises)
  {
    var kept := Seqs.Filter(entries, keepEntry);
    forall k | 0 <= k < |kept|
      ensures HasWorkout(Seqs.Filter(workouts, keepWorkout), kept[k].workoutId) && HasExercise(exercises, kept[k].exerciseId)
    {
      Seqs.FilterMember(entries, keepEntry, kept[k]);
      var i :| 0 <= i < |entries| && entries[i] == kept[k];
      WorkoutSurvives(workouts, id, keepWorkout, kept[k].workoutId);
    }
  }

  /** Deleting an exercise no row of `workout_exercises` refers to. */
  lemma LinkedUnusedExerciseDeleted(workouts: seq<Workout>, entries: seq<WorkoutExercise>, exercises: seq<Exercise>,
                                    id: nat, keep: Exercise -> bool)
    requires Linked(workouts, entries, exercises)
    requires forall k :: 0 <= k < |entries| ==> entries[k].exerciseId != id
    requires forall x :: keep(x) == (x.id != id)
    ensures Linked(workouts, entries, Seqs.Filter(exercises, keep))
  {
    var xs := Seqs.Filter(exercises, keep);
    forall k | 0 <= k < |entries| ensures HasExercise(xs, entries[k].exerciseId) {
      var j :| 0 <= j < |exercises| && exercises[j].id == entries[k].exerciseId;
      Seqs.FilterMember(exercises, keep, exercises[j]);
      var m :| 0 <= m < |xs| && xs[m] == exercises[j];
    }
  }

  /** The reply of a handler: success with a status and a value, an error with a status and its message, or 404. */
  datatype Reply<T> = Ok(status: int, value: T) | Error(status: int, message: string) | NotFound
}
