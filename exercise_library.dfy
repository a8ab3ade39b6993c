/**
 * The exercise library page's client-side filter: a muscle-group selector with
 * an "All" sentinel, then a case-insensitive search on name or description.
 * The fetched list is an input value; only the filtered list is produced.
 */
module ExerciseLibrary {

  import opened Wrappers
  import Text
  import Seqs

  /** A library exercise as the page holds it; description and muscle group may be missing. */
  datatype Exercise = Exercise(name: string, description: Option<string>, muscleGroup: Option<string>)

  /** The selector value that disables the muscle-group stage. */
  const AllGroups := "All"

  /** Muscle-group stage: strict equality with the selected group. */
  predicate InGroup(e: Exercise, group: string) {
    e.muscleGroup == Some(group)
  }

  /** Search stage: the lowered term occurs in the lowered name, or in a present, non-empty lowered description. */
  predicate MatchesSearch(e: Exercise, term: string) {
    var t := Text.Lower(term);
    || Text.Includes(Text.Lower(e.name), t)
    || (Truthy(e.description) && Text.Includes(Text.Lower(e.description.value), t))
  }

  /** Whether an exercise passes both stages for the current selector and term. */
  predicate Keep(e: Exercise, group: string, term: string) {
    && (group == AllGroups || InGroup(e, group))
    && (term == "" || MatchesSearch(e, term))
  }

  /** The predicates handed to the two Array.prototype.filter calls, and their conjunction. */
  function GroupTest(group: string): Exercise -> bool {
    e => InGroup(e, group)
  }

  function SearchTest(term: string): Exercise -> bool {
    e => MatchesSearch(e, term)
  }

  function KeepTest(group: string, term: string): Exercise -> bool {
    e => Keep(e, group, term)
  }

  /**
   * The filtering effect: the group stage runs only when the selector is not "All",
   * the search stage only when the term is not empty. The result is the fetched
   * list filtered by the conjunction of the two stages.
   */
  function FilterExercises(exercises: seq<Exercise>, group: string, term: string): (r: seq<Exercise>)
    ensures r == Seqs.Filter(exercises, KeepTest(group, term))
  {
    var byGroup := if group != AllGroups then Seqs.Filter(exercises, GroupTest(group)) else exercises;
    var bySearch := if term != "" then Seqs.Filter(byGroup, SearchTest(term)) else byGroup;
    StagesAreConjunction(exercises, group, term);
    bySearch
  }

  lemma StagesAreConjunction(exercises: seq<Exercise>, group: string, term: string)
    ensures (var byGroup := if group != AllGroups then Seqs.Filter(exercises, GroupTest(group)) else exercises;
             if term != "" then Seqs.Filter(byGroup, SearchTest(term)) else byGroup)
         == Seqs.Filter(exercises, KeepTest(group, term))
  {
    var g, t, k := GroupTest(group), SearchTest(term), KeepTest(group, term);
    if group != AllGroups && term != "" {
      Seqs.FilterFilter(exercises, g, t, k);
    } else if group != AllGroups {
      Seqs.FilterExtensional(exercises, g, k);
    } else if term != "" {
      Seqs.FilterExtensional(exercises, t, k);
    } else {
      Seqs.FilterKeepsAll(exercises, k);
    }
  }


  /** With "All" and an empty term the page shows the fetched list exactly. */
  lemma ShowAllByDefault(exercises: seq<Exercise>)
    ensures FilterExercises(exercises, AllGroups, "") == exercises
  {
    Seqs.FilterKeepsAll(exercises, KeepTest(AllGroups, ""));
  }

  /** Only filtering happens: the result is an order-preserving subsequence, each element kept at most as often as it occurs. */
  lemma FilterOnlyDeletes(exercises: seq<Exercise>, group: string, term: string)
    ensures Seqs.IsSubsequence(FilterExercises(exercises, group, term), exercises)
    ensures forall e :: multiset(FilterExercises(exercises, group, term))[e] <= multiset(exercises)[e]
  {
    Seqs.FilterIsSubsequence(exercises, KeepTest(group, term));
  }

  /** An exercise is shown iff it was fetched, matches the group (unless "All") and matches the term (unless empty). */
  lemma ShownIff(exercises: seq<Exercise>, group: string, term: string, e: Exercise)
    ensures e in FilterExercises(exercises, group, term) <==>
      && e in exercises
      && (group != AllGroups ==> e.muscleGroup == Some(group))
      && (term != "" ==> MatchesSearch(e, term))
  {
    Seqs.FilterMember(exercises, KeepTest(group, term), e);
  }

  /** The two stages commute: searching first and selecting the group second gives the same list. */
  lemma StagesCommute(exercises: seq<Exercise>, group: string, term: string)
    ensures FilterExercises(exercises, group, term)
         == (var bySearch := if term != "" then Seqs.Filter(exercises, SearchTest(term)) else exercises;
             if group != AllGroups then Seqs.Filter(bySearch, GroupTest(group)) else bySearch)
  {
    var g, t, k := GroupTest(group), SearchTest(term), KeepTest(group, term);
    if group != AllGroups && term != "" {
      Seqs.FilterFilter(exercises, t, g, k);
    } else {
      StagesAreConjunction(exercises, group, term);
    }
  }

  /** Re-applying the filter to its own output changes nothing. */
  lemma FilterIdempotent(exercises: seq<Exercise>, group: string, term: string)
    ensures FilterExercises(FilterExercises(exercises, group, term), group, term)
         == FilterExercises(exercises, group, term)
  {
    var r := FilterExercises(exercises, group, term);
    var keep := KeepTest(group, term);
    assert forall i :: 0 <= i < |r| ==> keep(r[i]);
    Seqs.FilterKeepsAll(r, keep);
  }

  /** An exercise without a description (or with an empty one) matches a term only through its name. */
  lemma NoDescriptionSearchesName(e: Exercise, term: string)
    requires !Truthy(e.description)
    ensures MatchesSearch(e, term) <==> Text.Includes(Text.Lower(e.name), Text.Lower(term))
  {
  }

  /** The search ignores ASCII case in the term. */
  lemma SearchIgnoresTermCase(e: Exercise, term: string)
    ensures MatchesSearch(e, term) == MatchesSearch(e, Text.Lower(term))
  {
    Text.LowerIdempotent(term);
  }
}
