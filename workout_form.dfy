/**
 * The workout authoring form: the form values, the draft exercise being
 * composed, the tag input, and the handlers that update them. The new values
 * are computed by the pure functions below; the class `Editor` holds the
 * page's state and its handlers assign those values.
 */
module WorkoutForm {

  import opened Wrappers
  import Text
  import Seqs
  import ExerciseLibrary
  import opened HttpClient

  /** A field value: a number from the initial state, or the string an input produced. */
  datatype Value = Num(n: int) | Str(s: string)

  /** One exercise of the workout, as the draft holds it. */
  datatype ExerciseEntry = ExerciseEntry(
    name: string,
    description: string,
    sets: Value,
    reps: Value,
    weight: Value,
    weightUnit: string,
    notes: string)

  /** defaultExerciseValues. */
  const DefaultExercise := ExerciseEntry("", "", Num(3), Num(10), Str(""), "kg", "")

  datatype FormValues = FormValues(
    name: string,
    description: string,
    difficulty: string,
    duration: Value,
    tags: seq<string>,
    exercises: seq<ExerciseEntry>)

  /** The form values a page starts with. */
  const InitialForm := FormValues("", "", "Beginner", Num(30), [], [])

  /** The inputs bound to handleFormChange. */
  datatype FormField = NameField | DescriptionField | DifficultyField | DurationField

  /** The inputs bound to handleCurrentExerciseChange. */
  datatype EntryField = EntryName | EntryDescription | Sets | Reps | Weight | WeightUnit | Notes

  /** handleFormChange: the named field takes the input's string; nothing else changes. */
  function WithField(f: FormValues, field: FormField, value: string): (g: FormValues)
    ensures g.tags == f.tags && g.exercises == f.exercises
    ensures g.name == (if field == NameField then value else f.name)
    ensures g.description == (if field == DescriptionField then value else f.description)
    ensures g.difficulty == (if field == DifficultyField then value else f.difficulty)
    ensures g.duration == (if field == DurationField then Str(value) else f.duration)
  {
    match field
    case NameField => f.(name := value)
    case DescriptionField => f.(description := value)
    case DifficultyField => f.(difficulty := value)
    case DurationField => f.(duration := Str(value))
  }

  /** handleCurrentExerciseChange: the named field of the draft takes the input's string; nothing else changes. */
  function WithEntryField(e: ExerciseEntry, field: EntryField, value: string): (d: ExerciseEntry)
    ensures d.name == (if field == EntryName then value else e.name)
    ensures d.description == (if field == EntryDescription then value else e.description)
    ensures d.sets == (if field == Sets then Str(value) else e.sets)
    ensures d.reps == (if field == Reps then Str(value) else e.reps)
    ensures d.weight == (if field == Weight then Str(value) else e.weight)
    ensures d.weightUnit == (if field == WeightUnit then value else e.weightUnit)
    ensures d.notes == (if field == Notes then value else e.notes)
  {
    match field
    case EntryName => e.(name := value)
    case EntryDescription => e.(description := value)
    case Sets => e.(sets := Str(value))
    case Reps => e.(reps := Str(value))
    case Weight => e.(weight := Str(value))
    case WeightUnit => e.(weightUnit := value)
    case Notes => e.(notes := value)
  }

  /** Array.prototype.find by name: the index of the first exercise with that name. */
  function FindByName(available: seq<ExerciseLibrary.Exercise>, name: string): (r: Option<nat>)
    ensures r.None? ==> forall i :: 0 <= i < |available| ==> available[i].name != name
    ensures r.Some? ==> r.value < |available| && available[r.value].name == name
    ensures r.Some? ==> forall i :: 0 <= i < r.value ==> available[i].name != name
  {
    if available == [] then None
    else if available[0].name == name then Some(0)
    else
      var r := FindByName(available[1..], name);
      if r.None? then None else Some(r.value + 1)
  }

  /** The draft a library exercise seeds: the defaults with its name and its description, or "" when it has none. */
  function Seeded(e: ExerciseLibrary.Exercise): (d: ExerciseEntry)
    ensures d.name == e.name
    ensures d.description == (if Truthy(e.description) then e.description.value else "")
    ensures d.(name := "", description := "") == DefaultExercise
  {
    DefaultExercise.(name := e.name, description := if Truthy(e.description) then e.description.value else "")
  }

  /** handleExerciseSelect: a known name seeds the draft from its first match; an empty or unknown name keeps the draft. */
  function SelectExercise(available: seq<ExerciseLibrary.Exercise>, name: string, draft: ExerciseEntry): (d: ExerciseEntry)
    ensures name == "" ==> d == draft
    ensures name != "" && FindByName(available, name).Some? ==> d == Seeded(available[FindByName(available, name).value])
    ensures (forall i :: 0 <= i < |available| ==> available[i].name != name) ==> d == draft
  {
    if name == "" then draft
    else match FindByName(available, name)
      case None => draft
      case Some(i) => Seeded(available[i])
  }

  /** The exercises after addExercise: the draft is appended when it has a name. */
  function AppendDraft(exercises: seq<ExerciseEntry>, draft: ExerciseEntry): (r: seq<ExerciseEntry>)
    ensures draft.name == "" ==> r == exercises
    ensures draft.name != "" ==> |r| == |exercises| + 1 && r[..|exercises|] == exercises && r[|exercises|] == draft
  {
    if draft.name == "" then exercises else exercises + [draft]
  }

  /** The exercises after removeExercise(index): exactly the element at index is dropped; an index out of range drops nothing. */
  function RemoveAt(exercises: seq<ExerciseEntry>, index: int): (r: seq<ExerciseEntry>)
    ensures !(0 <= index < |exercises|) ==> r == exercises
    ensures 0 <= index < |exercises| ==>
      && |r| == |exercises| - 1
      && (forall j :: 0 <= j < index ==> r[j] == exercises[j])
      && (forall j :: index <= j < |r| ==> r[j] == exercises[j + 1])
  {
    if 0 <= index < |exercises| then exercises[..index] + exercises[index + 1..] else exercises
  }

  /** Appending a draft and then removing the last entry gives the list back. */
  lemma AppendThenRemoveLast(exercises: seq<ExerciseEntry>, draft: ExerciseEntry)
    requires draft.name != ""
    ensures RemoveAt(AppendDraft(exercises, draft), |exercises|) == exercises
  {
    var r := RemoveAt(AppendDraft(exercises, draft), |exercises|);
    assert |r| == |exercises|;
    assert forall j :: 0 <= j < |r| ==> r[j] == exercises[j];
  }

  /** No tag occurs twice. */
  predicate Distinct(tags: seq<string>) {
    forall i, j :: 0 <= i < j < |tags| ==> tags[i] != tags[j]
  }

  /** The tags after addTag: the trimmed input is appended unless it is blank or already present. */
  function WithTag(tags: seq<string>, input: string): (r: seq<string>)
    ensures Text.Trim(input) == "" || Text.Trim(input) in tags ==> r == tags
    ensures Text.Trim(input) != "" && Text.Trim(input) !in tags ==> r == tags + [Text.Trim(input)]
  {
    var t := Text.Trim(input);
    if t == "" || t in tags then tags else tags + [t]
  }

  /** The filter test of removeTag. */
  function Differs(tag: string): string -> bool {
    t => t != tag
  }

  /** The tags after removeTag(tag): every occurrence of tag goes, every other tag stays, in order. */
  function WithoutTag(tags: seq<string>, tag: string): (r: seq<string>)
    ensures tag !in r
    ensures forall t :: t != tag ==> multiset(r)[t] == multiset(tags)[t]
    ensures Seqs.IsSubsequence(r, tags)
  {
    var r := Seqs.Filter(tags, Differs(tag));
    Seqs.FilterIsSubsequence(tags, Differs(tag));
    Seqs.FilterMember(tags, Differs(tag), tag);
    r
  }

  /** A non-blank tag input ends up in the tags, and nothing else is added. */
  lemma AddTagMembers(tags: seq<string>, input: string)
    requires Text.Trim(input) != ""
    ensures Text.Trim(input) in WithTag(tags, input)
    ensures forall t :: t in WithTag(tags, input) <==> t in tags || t == Text.Trim(input)
  {
    var tag := Text.Trim(input);
    var r := WithTag(tags, input);
    if tag !in tags {
      assert r == tags + [tag];
    }
  }

  /** addTag keeps the tags duplicate-free. */
  lemma AddTagKeepsDistinct(tags: seq<string>, input: string)
    requires Distinct(tags)
    ensures Distinct(WithTag(tags, input))
  {
    var t := Text.Trim(input);
    if t != "" && t !in tags {
      var r := tags + [t];
      forall i, j | 0 <= i < j < |r| ensures r[i] != r[j] {
        if j == |tags| {
          assert r[i] == tags[i];
        }
      }
    }
  }

  /** Adding the same input twice adds it once. */
  lemma AddTagTwice(tags: seq<string>, input: string)
    ensures WithTag(WithTag(tags, input), input) == WithTag(tags, input)
  {
  }

  /** Removing a tag that was just added, and was not there before, gives the tags back. */
  lemma {:induction false} RemoveAddedTag(tags: seq<string>, input: string)
    requires Text.Trim(input) != "" && Text.Trim(input) !in tags
    ensures WithoutTag(WithTag(tags, input), Text.Trim(input)) == tags
  {
    var t := Text.Trim(input);
    RemoveAbsentThenAppended(tags, t);
  }

  lemma {:induction false} RemoveAbsentThenAppended(tags: seq<string>, t: string)
    requires t !in tags
    ensures Seqs.Filter(tags + [t], Differs(t)) == tags
  {
    if tags == [] {
      assert Seqs.Filter([t], Differs(t)) == [];
    } else {
      assert (tags + [t])[1..] == tags[1..] + [t];
      RemoveAbsentThenAppended(tags[1..], t);
      assert tags == [tags[0]] + tags[1..];
    }
  }

  /** The page a successful submit goes to. */
  const WorkoutsPage := "/workouts"

  /** The request handleSubmit sends: update to the workout's own path in edit mode, create otherwise. */
  datatype Request = Create(path: string, body: FormValues) | Update(path: string, body: FormValues)

  /** Edit mode: the route carries a truthy id. */
  predicate EditMode(routeId: Option<string>) {
    Truthy(routeId)
  }

  function SubmitRequest(routeId: Option<string>, f: FormValues): (r: Request)
    ensures r.body == f
    ensures r.Update? <==> EditMode(routeId)
    ensures r.Update? ==> r.path == WorkoutPath(routeId.value)
    ensures r.Create? ==> r.path == WorkoutsPath
  {
    if EditMode(routeId) then Update(WorkoutPath(routeId.value), f) else Create(WorkoutsPath, f)
  }

  const UpdateFailed := "Failed to update workout. Please try again later."
  const CreateFailed := "Failed to create workout. Please try again later."

  /** The error text of a failed submit names the operation the mode chose. */
  function SubmitError(routeId: Option<string>): string {
    if EditMode(routeId) then UpdateFailed else CreateFailed
  }

  /** The error text of a failed load in edit mode. */
  const LoadError := "Failed to load workout. Please try again later."

  /** The page's state; `routeId` is the id of the route, fixed for the page's life. */
  class Editor {
    const client: Client
    const routeId: Option<string>
    var formValues: FormValues
    var currentExercise: ExerciseEntry
    var tagInput: string
    var availableExercises: seq<ExerciseLibrary.Exercise>
    var loading: bool
    var initialLoading: bool
    var error: Option<string>
    var navigatedTo: Option<string>

    constructor (client: Client, routeId: Option<string>)
      ensures this.client == client && this.routeId == routeId
      ensures formValues == InitialForm && currentExercise == DefaultExercise && tagInput == ""
      ensures availableExercises == [] && !loading && initialLoading == EditMode(routeId)
      ensures error == None && navigatedTo == None
    {
      this.client := client;
      this.routeId := routeId;
      formValues := InitialForm;
      currentExercise := DefaultExercise;
      tagInput := "";
      availableExercises := [];
      loading := false;
      initialLoading := EditMode(routeId);
      error := None;
      navigatedTo := None;
    }

    /** The library fetch of the mount effect: a success replaces the available exercises, a failure changes nothing. */
    method LoadExercises(fetched: Outcome<seq<ExerciseLibrary.Exercise>>)
      modifies this`availableExercises, client
      ensures availableExercises == if fetched.Resolved? then fetched.value else old(availableExercises)
      ensures client.Browser() == AfterResponse(old(client.Browser()), fetched)
    {
      var response := client.Intercept(fetched);
      if response.Resolved? {
        availableExercises := response.value;
      }
    }

    /** The workout fetch of the mount effect, in edit mode only. */
    method LoadWorkout(fetched: Outcome<FormValues>)
      modifies this`formValues, this`initialLoading, this`error, client
      ensures !EditMode(routeId) ==> formValues == old(formValues) && initialLoading == old(initialLoading) && error == old(error)
      ensures EditMode(routeId) ==> !initialLoading
      ensures EditMode(routeId) && fetched.Resolved? ==> formValues == fetched.value && error == old(error)
      ensures EditMode(routeId) && fetched.Rejected? ==> formValues == old(formValues) && error == Some(LoadError)
      ensures client.Browser() == if EditMode(routeId) then AfterResponse(old(client.Browser()), fetched) else old(client.Browser())
    {
      if EditMode(routeId) {
        initialLoading := true;
        var response := client.Intercept(fetched);
        if response.Resolved? {
          formValues := response.value;
        } else {
          error := Some(LoadError);
        }
        initialLoading := false;
      }
    }

    method HandleFormChange(field: FormField, value: string)
      modifies this`formValues
      ensures formValues == WithField(old(formValues), field, value)
    {
      formValues := WithField(formValues, field, value);
    }

    method HandleCurrentExerciseChange(field: EntryField, value: string)
      modifies this`currentExercise
      ensures currentExercise == WithEntryField(old(currentExercise), field, value)
    {
      currentExercise := WithEntryField(currentExercise, field, value);
    }

    method HandleExerciseSelect(name: string)
      modifies this`currentExercise
      ensures currentExercise == SelectExercise(availableExercises, name, old(currentExercise))
    {
      if name != "" {
        var found := FindByName(availableExercises, name);
        if found.Some? {
          currentExercise := Seeded(availableExercises[found.value]);
        }
      }
    }

    /** addExercise: a named draft is appended as it was and the draft is reset; an unnamed draft changes nothing. */
    method AddExercise()
      modifies this`formValues, this`currentExercise
      ensures old(currentExercise.name) == "" ==> formValues == old(formValues) && currentExercise == old(currentExercise)
      ensures old(currentExercise.name) != "" ==>
        && formValues == old(formValues).(exercises := AppendDraft(old(formValues.exercises), old(currentExercise)))
        && currentExercise == DefaultExercise
    {
      if currentExercise.name == "" {
        return;
      }
      formValues := formValues.(exercises := AppendDraft(formValues.exercises, currentExercise));
      currentExercise := DefaultExercise;
    }

    method RemoveExercise(index: int)
      modifies this`formValues
      ensures formValues == old(formValues).(exercises := RemoveAt(old(formValues.exercises), index))
    {
      formValues := formValues.(exercises := RemoveAt(formValues.exercises, index));
    }

    method HandleTagInputChange(value: string)
      modifies this`tagInput
      ensures tagInput == value
    {
      tagInput := value;
    }

    /** addTag: a blank input changes nothing, not even the input; otherwise the tags take it and the input is cleared. */
    method AddTag()
      modifies this`formValues, this`tagInput
      ensures Text.Trim(old(tagInput)) == "" ==> formValues == old(formValues) && tagInput == old(tagInput)
      ensures Text.Trim(old(tagInput)) != "" ==>
        formValues == old(formValues).(tags := WithTag(old(formValues.tags), old(tagInput))) && tagInput == ""
    {
      var t := Text.Trim(tagInput);
      if t == "" {
        return;
      }
      if t !in formValues.tags {
        formValues := formValues.(tags := formValues.tags + [t]);
      }
      tagInput := "";
    }

    method RemoveTag(tag: string)
      modifies this`formValues
      ensures formValues == old(formValues).(tags := WithoutTag(old(formValues.tags), tag))
    {
      formValues := formValues.(tags := WithoutTag(formValues.tags, tag));
    }

    /**
     * handleSubmit, given how the request settles: returns the request the mode chose;
     * success goes to the workout list, failure keeps the form and records the error
     * naming the operation; loading ends either way.
     */
    method Submit(settled: Outcome<()>) returns (request: Request)
      modifies this`loading, this`error, this`navigatedTo, client
      ensures request == SubmitRequest(routeId, formValues)
      ensures !loading
      ensures settled.Resolved? ==> navigatedTo == Some(WorkoutsPage) && error == None
      ensures settled.Rejected? ==> navigatedTo == old(navigatedTo) && error == Some(SubmitError(routeId))
      ensures client.Browser() == AfterResponse(old(client.Browser()), settled)
    {
      loading := true;
      error := None;
      request := SubmitRequest(routeId, formValues);
      var response := client.Intercept(settled);
      if response.Resolved? {
        navigatedTo := Some(WorkoutsPage);
      } else {
        error := Some(SubmitError(routeId));
      }
      loading := false;
    }
  }
}
