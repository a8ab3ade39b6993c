/**
 * The server's exercise-library handlers: list (optionally by category, ordered
 * by name), read, create, update, and delete an exercise no workout uses.
 */
module ExerciseRoutes {

  import opened Wrappers
  import opened Tables
  import opened Pagination
  import Seqs
  import Text
  import HttpClient

  const NameRequired := "Name is required"
  const ExerciseInUse := "Cannot delete exercise as it is used in workouts"

  /** ORDER BY name ASC. */
  function ByName(): (Exercise, Exercise) -> bool {
    (a: Exercise, b: Exercise) => Text.LexLe(a.name, b.name)
  }

  lemma ByNameIsTotal()
    ensures Seqs.TotalPreorder(ByName())
  {
    forall a: Exercise, b: Exercise ensures ByName()(a, b) || ByName()(b, a) {
      Text.LexLeTotal(a.name, b.name);
    }
    forall a: Exercise, b: Exercise, c: Exercise | ByName()(a, b) && ByName()(b, c) ensures ByName()(a, c) {
      Text.LexLeTransitive(a.name, b.name, c.name);
    }
  }

  /** The category filter: every exercise when the argument is missing or empty, else those of that category. */
  function InCategory(category: Option<string>): Exercise -> bool {
    (x: Exercise) => !Truthy(category) || x.category == category
  }

  /**
   * get_exercises: the exercises of the requested category (all of them when none is
   * given), ordered by name; page defaults to 1, the page size to 20, capped at 100.
   */
  function ListExercises(exercises: seq<Exercise>, args: seq<(string, string)>): (r: Listing<Exercise>)
    ensures r.page == ArgInt(args, "page", 1) && r.perPage == PageSize(args, 20)
    ensures var category := HttpClient.Arg(args, "category");
      forall x :: x in r.items <==> x in exercises && (!Truthy(category) || x.category == category)
    ensures forall i, j :: 0 <= i < j < |r.items| ==> Text.LexLe(r.items[i].name, r.items[j].name)
    ensures !Truthy(HttpClient.Arg(args, "category")) ==> multiset(r.items) == multiset(exercises)
    ensures var category := HttpClient.Arg(args, "category");
      forall x :: multiset(r.items)[x] == if !Truthy(category) || x.category == category then multiset(exercises)[x] else 0
  {
    ByNameIsTotal();
    var p := InCategory(HttpClient.Arg(args, "category"));
    var matching := Seqs.Filter(exercises, p);
    var items := Seqs.SortBy(matching, ByName());
    Seqs.PermutationSameElements(items, matching);
    forall x ensures x in items <==> x in exercises && p(x) {
      Seqs.FilterMember(exercises, p, x);
    }
    assert !Truthy(HttpClient.Arg(args, "category")) ==> matching == exercises by {
      if !Truthy(HttpClient.Arg(args, "category")) {
        Seqs.FilterKeepsAll(exercises, p);
      }
    }
    Listing(ArgInt(args, "page", 1), PageSize(args, 20), items)
  }

  /**
   * The query fetchExercises sends: the server reads back its page and page size
   * (the size capped at 100) and, finding no `category` argument, lists every exercise;
   * the `muscle_group` argument is not one the handler reads.
   */
  lemma ClientQueryIsUnfiltered(exercises: seq<Exercise>, page: int, perPage: int, muscleGroup: Option<string>)
    requires muscleGroup.Some? ==> HttpClient.QuerySafe(muscleGroup.value)
    ensures var r := ListExercises(exercises, HttpClient.QueryArgs(HttpClient.ExercisesUrl(page, perPage, muscleGroup)));
      && r.page == page
      && r.perPage == (if perPage < MaxPerPage then perPage else MaxPerPage)
      && multiset(r.items) == multiset(exercises)
  {
    ClientQueryArgs(page, perPage, muscleGroup);
  }

  /** How the list handler reads the arguments of the query fetchExercises sends. */
  lemma ClientQueryArgs(page: int, perPage: int, muscleGroup: Option<string>)
    requires muscleGroup.Some? ==> HttpClient.QuerySafe(muscleGroup.value)
    ensures var args := HttpClient.QueryArgs(HttpClient.ExercisesUrl(page, perPage, muscleGroup));
      && ArgInt(args, "page", 1) == page
      && ArgInt(args, "per_page", 20) == perPage
      && HttpClient.Arg(args, "category") == None
  {
    HttpClient.ExercisesUrlReadBack(page, perPage, muscleGroup);
    var extra := if Truthy(muscleGroup) && muscleGroup.value != "All" then [("muscle_group", muscleGroup.value)] else [];
    ReadBackArgs(HttpClient.QueryArgs(HttpClient.ExercisesUrl(page, perPage, muscleGroup)), page, perPage, extra);
  }

  /** The page arguments followed by arguments whose keys differ from the handler's. */
  lemma ReadBackArgs(args: seq<(string, string)>, page: int, perPage: int, extra: seq<(string, string)>)
    requires args == [("page", Text.IntToString(page)), ("per_page", Text.IntToString(perPage))] + extra
    requires forall i :: 0 <= i < |extra| ==> extra[i].0 == "muscle_group"
    ensures ArgInt(args, "page", 1) == page
    ensures ArgInt(args, "per_page", 20) == perPage
    ensures HttpClient.Arg(args, "category") == None
  {
    Text.ParseIntToString(page);
    Text.ParseIntToString(perPage);
    assert "per_page" != "page" by { assert |"per_page"| != |"page"|; }
    assert args[1..] == [("per_page", Text.IntToString(perPage))] + extra;
    assert args[2..] == extra;
    assert HttpClient.Arg(args, "per_page") == HttpClient.Arg(args[1..], "per_page");
    assert HttpClient.Arg(args, "per_page") == Some(Text.IntToString(perPage));
    forall i | 0 <= i < |args| ensures args[i].0 != "category" {
      assert args[i].0[0] != "category"[0];
    }
    HttpClient.ArgMissing(args, "category");
  }

  /** `Exercise.query.get_or_404(id)`. */
  function ExerciseAt(exercises: seq<Exercise>, id: nat): (r: Option<nat>)
    ensures r.Some? ==> r.value < |exercises| && exercises[r.value].id == id
    ensures r.None? <==> !HasExercise(exercises, id)
  {
    Find(exercises, (x: Exercise) => x.id == id)
  }

  /** get_exercise. */
  function GetExercise(exercises: seq<Exercise>, id: nat): (r: Reply<Exercise>)
    ensures r.Ok? ==> r.status == 200 && r.value in exercises && r.value.id == id
    ensures r.NotFound? <==> !HasExercise(exercises, id)
    ensures !r.Error?
  {
    match ExerciseAt(exercises, id)
    case None => NotFound
    case Some(i) => Ok(200, exercises[i])
  }

  /** The fields of an exercise request; a missing key is None, a key holding null is Some(None). */
  datatype ExerciseData = ExerciseData(name: Option<string>, description: Option<Option<string>>, category: Option<Option<string>>)


  /** create_exercise. */
  method CreateExercise(db: Database, data: ExerciseData) returns (r: Reply<Exercise>)
    requires db.Valid()
    modifies db`exercises, db`nextExerciseId
    ensures db.Valid()
    ensures data.name.None? ==> r == Error(400, NameRequired) && db.exercises == old(db.exercises)
    ensures data.name.Some? ==>
      && r == Ok(201, Exercise(old(db.nextExerciseId), data.name.value, Get(data.description), Get(data.category)))
      && db.exercises == old(db.exercises) + [r.value]
  {
    if data.name.None? {
      return Error(400, NameRequired);
    }
    var x := Exercise(db.nextExerciseId, data.name.value, Get(data.description), Get(data.category));
    AppendFresh(db.exercises, ExerciseKey, db.nextExerciseId, x);
    LinkedExerciseAdded(db.workouts, db.entries, db.exercises, x);
    db.exercises := db.exercises + [x];
    db.nextExerciseId := db.nextExerciseId + 1;
    r := Ok(201, x);
  }

  /** An exercise after update_exercise: the keys present overwrite their fields. */
  function Revised(x: Exercise, data: ExerciseData): (y: Exercise)
    ensures y.id == x.id
    ensures y.name == data.name.GetOr(x.name)
    ensures y.description == data.description.GetOr(x.description)
    ensures y.category == data.category.GetOr(x.category)
  {
    x.(name := data.name.GetOr(x.name), description := data.description.GetOr(x.description),
       category := data.category.GetOr(x.category))
  }

  /** Applying the same update twice is applying it once. */
  lemma ReviseIdempotent(x: Exercise, data: ExerciseData)
    ensures Revised(Revised(x, data), data) == Revised(x, data)
  {
  }

  /** update_exercise. */
  method UpdateExercise(db: Database, id: nat, data: ExerciseData) returns (r: Reply<Exercise>)
    requires db.Valid()
    modifies db`exercises
    ensures db.Valid()
    ensures ExerciseAt(old(db.exercises), id).None? ==> r == NotFound && db.exercises == old(db.exercises)
    ensures ExerciseAt(old(db.exercises), id).Some? ==>
      var i := ExerciseAt(old(db.exercises), id).value;
      r == Ok(200, Revised(old(db.exercises)[i], data)) && db.exercises == old(db.exercises)[i := r.value]
  {
    var found := ExerciseAt(db.exercises, id);
    if found.None? {
      return NotFound;
    }
    var i := found.value;
    var x := Revised(db.exercises[i], data);
    ReplaceSameKey(db.exercises, ExerciseKey, db.nextExerciseId, i, x);
    LinkedExerciseReplaced(db.workouts, db.entries, db.exercises, i, x);
    db.exercises := db.exercises[i := x];
    r := Ok(200, x);
  }

  /** Some workout-exercise row refers to the exercise (`exercise.workout_exercises` is not empty). */
  predicate InUse(entries: seq<WorkoutExercise>, id: nat) {
    exists k :: 0 <= k < |entries| && entries[k].exerciseId == id
  }

  function ExerciseNot(id: nat): Exercise -> bool {
    (x: Exercise) => x.id != id
  }

  /** delete_exercise: refused while a workout uses the exercise, so no row loses its exercise. */
  method DeleteExercise(db: Database, id: nat) returns (r: Reply<()>)
    requires db.Valid()
    modifies db`exercises
    ensures db.Valid()
    ensures !HasExercise(old(db.exercises), id) ==> r == NotFound && db.exercises == old(db.exercises)
    ensures HasExercise(old(db.exercises), id) && InUse(db.entries, id) ==>
      r == Error(400, ExerciseInUse) && db.exercises == old(db.exercises)
    ensures HasExercise(old(db.exercises), id) && !InUse(db.entries, id) ==>
      r == Ok(204, ()) && db.exercises == Seqs.Filter(old(db.exercises), ExerciseNot(id))
  {
    if ExerciseAt(db.exercises, id).None? {
      return NotFound;
    }
    if Find(db.entries, (e: WorkoutExercise) => e.exerciseId == id).Some? {
      return Error(400, ExerciseInUse);
    }
    FilterKeepsKeys(db.exercises, ExerciseKey, db.nextExerciseId, ExerciseNot(id));
    LinkedUnusedExerciseDeleted(db.workouts, db.entries, db.exercises, id, ExerciseNot(id));
    db.exercises := Seqs.Filter(db.exercises, ExerciseNot(id));
    r := Ok(204, ());
  }

  /** A deleted exercise is gone and every other exercise is kept. */
  lemma DeleteRemovesExercise(exercises: seq<Exercise>, id: nat, x: Exercise)
    ensures !HasExercise(Seqs.Filter(exercises, ExerciseNot(id)), id)
    ensures x in exercises && x.id != id ==> x in Seqs.Filter(exercises, ExerciseNot(id))
  {
    Seqs.FilterMember(exercises, ExerciseNot(id), x);
  }
}
