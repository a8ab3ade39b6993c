/**
 * The server's statistics handlers over the caller's workouts: the summary
 * (totals, the last thirty days, the most frequent exercise, the latest date),
 * the last twelve months, and how often each exercise was done. "Today" and
 * the current year and month are parameters.
 */
module StatsRoutes {

  import opened Wrappers
  import opened Tables
  import Seqs
  import WorkoutRoutes

  /** The caller's workouts (`filter_by(user_id=…)`), in table order. */
  function Mine(workouts: seq<Workout>, userId: nat): (r: seq<Workout>)
    ensures forall w :: w in r <==> w in workouts && w.userId == userId
  {
    forall w ensures w in Seqs.Filter(workouts, WorkoutRoutes.OwnedBy(userId)) <==> w in workouts && w.userId == userId {
      Seqs.FilterMember(workouts, WorkoutRoutes.OwnedBy(userId), w);
    }
    Seqs.Filter(workouts, WorkoutRoutes.OwnedBy(userId))
  }

  // ----- sums -----

  /** `SUM(duration) … or 0`: missing durations add nothing, and no rows sum to 0. */
  function TotalDuration(ws: seq<Workout>): int {
    if ws == [] then 0 else ws[0].duration.GetOr(0) + TotalDuration(ws[1..])
  }

  lemma {:induction false} TotalDurationAppend(a: seq<Workout>, b: seq<Workout>)
    ensures TotalDuration(a + b) == TotalDuration(a) + TotalDuration(b)
  {
    if a == [] {
      assert a + b == b;
    } else {
      assert (a + b)[1..] == a[1..] + b;
      TotalDurationAppend(a[1..], b);
    }
  }

  function Not(p: Workout -> bool): Workout -> bool {
    (w: Workout) => !p(w)
  }

  /** Splitting the workouts by any condition splits the total duration. */
  lemma {:induction false} TotalDurationSplit(ws: seq<Workout>, p: Workout -> bool)
    ensures TotalDuration(ws) == TotalDuration(Seqs.Filter(ws, p)) + TotalDuration(Seqs.Filter(ws, Not(p)))
  {
    if ws != [] {
      TotalDurationSplit(ws[1..], p);
      if p(ws[0]) {
        assert Seqs.Filter(ws, p) == [ws[0]] + Seqs.Filter(ws[1..], p);
        TotalDurationAppend([ws[0]], Seqs.Filter(ws[1..], p));
      } else {
        assert Seqs.Filter(ws, Not(p)) == [ws[0]] + Seqs.Filter(ws[1..], Not(p));
        TotalDurationAppend([ws[0]], Seqs.Filter(ws[1..], Not(p)));
      }
    }
  }

  /** Splitting the workouts by any condition splits their number. */
  lemma {:induction false} CountSplit(ws: seq<Workout>, p: Workout -> bool)
    ensures |ws| == |Seqs.Filter(ws, p)| + |Seqs.Filter(ws, Not(p))|
  {
    if ws != [] {
      CountSplit(ws[1..], p);
      if p(ws[0]) {
        assert Seqs.Filter(ws, p) == [ws[0]] + Seqs.Filter(ws[1..], p);
        assert Seqs.Filter(ws, Not(p)) == Seqs.Filter(ws[1..], Not(p));
      } else {
        assert Seqs.Filter(ws, p) == Seqs.Filter(ws[1..], p);
        assert Seqs.Filter(ws, Not(p)) == [ws[0]] + Seqs.Filter(ws[1..], Not(p));
      }
    }
  }

  // ----- the summary -----

  /** `date >= today - 30 days`. */
  function Since(today: Date): Workout -> bool {
    (w: Workout) => DaysFromCivil(w.date) >= DaysFromCivil(today) - 30
  }

  /** `ORDER BY date DESC … first()`: the latest date, if there is a workout. */
  function Latest(ws: seq<Workout>): (r: Option<Date>)
    ensures r.None? <==> ws == []
    ensures r.Some? ==> exists i :: 0 <= i < |ws| && ws[i].date == r.value
    ensures r.Some? ==> forall i :: 0 <= i < |ws| ==> DateLe(ws[i].date, r.value)
  {
    if ws == [] then None
    else
      var rest := Latest(ws[1..]);
      if rest.Some? && DateLe(ws[0].date, rest.value) then
        assert exists i :: 0 <= i < |ws[1..]| && ws[1..][i].date == rest.value;
        rest
      else
        Some(ws[0].date)
  }

  /** A workout-exercise row of one of the caller's workouts (the join through workouts). */
  predicate RowOfUser(workouts: seq<Workout>, userId: nat, e: WorkoutExercise) {
    exists i :: 0 <= i < |workouts| && workouts[i].id == e.workoutId && workouts[i].userId == userId
  }

  function UserRows(workouts: seq<Workout>, entries: seq<WorkoutExercise>, userId: nat): (r: seq<WorkoutExercise>)
    ensures forall e :: e in r <==> e in entries && RowOfUser(workouts, userId, e)
  {
    var p := (e: WorkoutExercise) => RowOfUser(workouts, userId, e);
    forall e ensures e in Seqs.Filter(entries, p) <==> e in entries && p(e) {
      Seqs.FilterMember(entries, p, e);
    }
    Seqs.Filter(entries, p)
  }

  /** The name of the exercise a row joins (the first with its id), if there is one. */
  function JoinedName(e: WorkoutExercise, exercises: seq<Exercise>): (r: Option<string>)
    ensures r.Some? ==> exists x :: x in exercises && x.id == e.exerciseId && x.name == r.value
    ensures r.None? <==> !HasExercise(exercises, e.exerciseId)
  {
    match Find(exercises, (x: Exercise) => x.id == e.exerciseId)
    case None => None
    case Some(i) => Some(exercises[i].name)
  }

  /** How many of the rows join an exercise named n, counted one row at a time. */
  function RowsNamed(rows: seq<WorkoutExercise>, exercises: seq<Exercise>, n: string): nat {
    if rows == [] then 0
    else (if JoinedName(rows[0], exercises) == Some(n) then 1 else 0) + RowsNamed(rows[1..], exercises, n)
  }

  /** The exercise name of each row that joins an exercise, one per row. */
  function JoinedNames(rows: seq<WorkoutExercise>, exercises: seq<Exercise>): (names: seq<string>)
    ensures |names| <= |rows|
    ensures forall n :: multiset(names)[n] == RowsNamed(rows, exercises, n)
    ensures forall n :: n in names ==> exists x :: x in exercises && x.name == n
    ensures (forall k :: 0 <= k < |rows| ==> HasExercise(exercises, rows[k].exerciseId)) ==> |names| == |rows|
  {
    if rows == [] then []
    else
      var rest := JoinedNames(rows[1..], exercises);
      var first := JoinedName(rows[0], exercises);
      var names := if first.Some? then [first.value] + rest else rest;
      forall n ensures multiset(names)[n] == RowsNamed(rows, exercises, n) {
        assert multiset(names)[n] == (if first == Some(n) then 1 else 0) + multiset(rest)[n];
      }
      names
  }

  /** The candidate occurring most often in names; among equals, the earliest candidate. */
  function Best(candidates: seq<string>, names: seq<string>): (b: string)
    requires candidates != []
    ensures b in candidates
    ensures forall c :: c in candidates ==> multiset(names)[c] <= multiset(names)[b]
  {
    if |candidates| == 1 then candidates[0]
    else
      var b := Best(candidates[1..], names);
      if multiset(names)[candidates[0]] >= multiset(names)[b] then candidates[0] else b
  }

  /** `GROUP BY name ORDER BY COUNT DESC … first()`: a most frequent name, if there is one. */
  function Mode(names: seq<string>): (r: Option<string>)
    ensures r.None? <==> names == []
    ensures r.Some? ==> r.value in names && forall n :: n in names ==> multiset(names)[n] <= multiset(names)[r.value]
  {
    if names == [] then None else Some(Best(names, names))
  }

  /** The latest date of the caller's workouts, stated over the workout table. */
  lemma LatestOfMine(workouts: seq<Workout>, userId: nat)
    ensures var last := Latest(Mine(workouts, userId));
      last.Some? ==>
        && (forall w :: w in workouts && w.userId == userId ==> DateLe(w.date, last.value))
        && (exists w :: w in workouts && w.userId == userId && w.date == last.value)
  {
    var mine := Mine(workouts, userId);
    var last := Latest(mine);
    if last.Some? {
      var i :| 0 <= i < |mine| && mine[i].date == last.value;
      assert mine[i] in workouts;
      forall w | w in workouts && w.userId == userId ensures DateLe(w.date, last.value) {
        var j :| 0 <= j < |mine| && mine[j] == w;
      }
    }
  }

  datatype Summary = Summary(
    totalWorkouts: nat,
    totalDurationMinutes: int,
    workoutsLast30Days: nat,
    mostFrequentExercise: Option<string>,
    lastWorkoutDate: Option<Date>)

  /** get_summary_stats. */
  function SummaryStats(workouts: seq<Workout>, entries: seq<WorkoutExercise>, exercises: seq<Exercise>,
                        userId: nat, today: Date): (s: Summary)
    ensures s.totalWorkouts == |Mine(workouts, userId)|
    ensures s.totalDurationMinutes == TotalDuration(Mine(workouts, userId))
    ensures s.workoutsLast30Days == |Seqs.Filter(Mine(workouts, userId), Since(today))|
    ensures s.workoutsLast30Days <= s.totalWorkouts
    ensures s.totalWorkouts == 0 ==> s.totalDurationMinutes == 0 && s.workoutsLast30Days == 0
    ensures s.lastWorkoutDate.None? <==> s.totalWorkouts == 0
    ensures s.lastWorkoutDate.Some? ==>
      && (forall w :: w in workouts && w.userId == userId ==> DateLe(w.date, s.lastWorkoutDate.value))
      && (exists w :: w in workouts && w.userId == userId && w.date == s.lastWorkoutDate.value)
    ensures var names := JoinedNames(UserRows(workouts, entries, userId), exercises);
      && (s.mostFrequentExercise.None? <==> names == [])
      && (s.mostFrequentExercise.Some? ==> forall n :: n in names ==>
            multiset(names)[n] <= multiset(names)[s.mostFrequentExercise.value])
  {
    var mine := Mine(workouts, userId);
    var last := Latest(mine);
    LatestOfMine(workouts, userId);
    Summary(
      |mine|,
      TotalDuration(mine),
      |Seqs.Filter(mine, Since(today))|,
      Mode(JoinedNames(UserRows(workouts, entries, userId), exercises)),
      last)
  }

  /**
   * The last-thirty-days count takes exactly the caller's workouts dated no more than
   * thirty days before today, and it and the count of the older ones add up to the total.
   */
  lemma RecentSplit(workouts: seq<Workout>, userId: nat, today: Date)
    ensures var mine := Mine(workouts, userId);
      var recent := Seqs.Filter(mine, Since(today));
      var older := Seqs.Filter(mine, Not(Since(today)));
      && (forall w :: w in recent <==>
            w in workouts && w.userId == userId && DaysFromCivil(w.date) >= DaysFromCivil(today) - 30)
      && (forall w :: w in older <==>
            w in workouts && w.userId == userId && DaysFromCivil(w.date) < DaysFromCivil(today) - 30)
      && |recent| + |older| == |mine|
  {
    var mine := Mine(workouts, userId);
    CountSplit(mine, Since(today));
    forall w ensures w in Seqs.Filter(mine, Since(today)) <==> w in mine && Since(today)(w) {
      Seqs.FilterMember(mine, Since(today), w);
    }
    forall w ensures w in Seqs.Filter(mine, Not(Since(today))) <==> w in mine && Not(Since(today))(w) {
      Seqs.FilterMember(mine, Not(Since(today)), w);
    }
  }

  /** With every row joined to its exercise, the summary names no exercise exactly when the caller logged none. */
  lemma NoFavouriteIffNoRows(workouts: seq<Workout>, entries: seq<WorkoutExercise>, exercises: seq<Exercise>,
                             userId: nat, today: Date)
    requires Linked(workouts, entries, exercises)
    ensures SummaryStats(workouts, entries, exercises, userId, today).mostFrequentExercise.None?
            <==> UserRows(workouts, entries, userId) == []
  {
    var rows := UserRows(workouts, entries, userId);
    forall k | 0 <= k < |rows| ensures HasExercise(exercises, rows[k].exerciseId) {
      assert rows[k] in entries;
      var j :| 0 <= j < |entries| && entries[j] == rows[k];
    }
  }

  /** The latest date of the caller's workouts is the date of the first workout the list shows. */
  lemma LatestIsFirstListed(workouts: seq<Workout>, userId: nat, args: seq<(string, string)>)
    requires WorkoutRoutes.ListWorkouts(workouts, userId, args).items != []
    ensures Latest(Mine(workouts, userId)) == Some(WorkoutRoutes.ListWorkouts(workouts, userId, args).items[0].date)
  {
    var items := WorkoutRoutes.ListWorkouts(workouts, userId, args).items;
    var mine := Mine(workouts, userId);
    assert forall w :: w in items <==> w in mine;
    LatestOfNewestFirst(mine, items);
  }

  /** The latest date of a list is the first date of any newest-first ordering of it. */
  lemma LatestOfNewestFirst(ws: seq<Workout>, items: seq<Workout>)
    requires items != []
    requires forall w :: w in items <==> w in ws
    requires forall i, j :: 0 <= i < j < |items| ==> DateLe(items[j].date, items[i].date)
    ensures Latest(ws) == Some(items[0].date)
  {
    assert items[0] in ws;
    var last := Latest(ws);
    var i :| 0 <= i < |ws| && ws[i].date == last.value;
    assert ws[i] in items;
    var j :| 0 <= j < |items| && items[j] == ws[i];
    assert DateLe(items[j].date, items[0].date);
    var k :| 0 <= k < |ws| && ws[k] == items[0];
    assert DateLe(items[0].date, last.value);
  }

  // ----- the last twelve months -----

  /**
   * The i-th month before (year, month), counted on one running month index
   * (year * 12 + month - 1): the reference the monthly loop is checked against.
   */
  function MonthsBack(year: int, month: int, i: int): (ym: (int, int)) {
    var index := year * 12 + (month - 1) - i;
    (index / 12, index % 12 + 1)
  }

  lemma Split12(q: int, r: int)
    requires 0 <= r < 12
    ensures (q * 12 + r) / 12 == q && (q * 12 + r) % 12 == r
  {
  }

  /**
   * The loop's own formula, `month = (current - i) % 12` with 0 read as 12 and the
   * year stepped back when the month is later than the current one, agrees with
   * the running index for the twelve months it visits.
   */
  lemma LoopFormulaAgrees(year: int, month: int, i: int)
    requires 1 <= month <= 12 && 0 <= i < 12
    ensures var m0 := (month - i) % 12;
      var m := if m0 == 0 then 12 else m0;
      (if m <= month then year else year - 1, m) == MonthsBack(year, month, i)
  {
    if i < month {
      Split12(year, month - 1 - i);
    } else {
      Split12(year - 1, month + 11 - i);
    }
  }

  lemma MonthsBackFacts(year: int, month: int, i: int)
    requires 1 <= month <= 12 && 0 <= i < 12
    ensures 1 <= MonthsBack(year, month, i).1 <= 12
    ensures MonthsBack(year, month, i).0 == year || MonthsBack(year, month, i).0 == year - 1
    ensures MonthsBack(year, month, i).0 == year <==> i < month
  {
    if i < month {
      Split12(year, month - 1 - i);
    } else {
      Split12(year - 1, month + 11 - i);
    }
  }

  /** The first month listed is the current one. */
  lemma FirstMonthIsCurrent(year: int, month: int)
    requires 1 <= month <= 12
    ensures MonthsBack(year, month, 0) == (year, month)
  {
    Split12(year, month - 1);
  }

  /** Each month listed is the calendar month before the one listed ahead of it. */
  lemma MonthBeforePrevious(year: int, month: int, i: int)
    requires 1 <= month <= 12 && 0 <= i
    ensures var (y, m) := MonthsBack(year, month, i);
      MonthsBack(year, month, i + 1) == (if m == 1 then (y - 1, 12) else (y, m - 1))
  {
    var index := year * 12 + (month - 1) - i;
    var q, r := index / 12, index % 12;
    assert index == q * 12 + r;
    if r == 0 {
      Split12(q - 1, 11);
    } else {
      Split12(q, r - 1);
    }
  }

  /** The twelve months listed are twelve different months. */
  lemma MonthsDistinct(year: int, month: int, i: int, j: int)
    requires i != j
    ensures MonthsBack(year, month, i) != MonthsBack(year, month, j)
  {
    var a := year * 12 + (month - 1) - i;
    var b := year * 12 + (month - 1) - j;
    assert a == (a / 12) * 12 + a % 12;
    assert b == (b / 12) * 12 + b % 12;
  }

  function InMonth(year: int, month: int): Workout -> bool {
    (w: Workout) => w.date.year == year && w.date.month == month
  }

  /** How many of ws fall in the month, counted one workout at a time. */
  function MonthCount(ws: seq<Workout>, year: int, month: int): nat {
    if ws == [] then 0
    else (if ws[0].date.year == year && ws[0].date.month == month then 1 else 0) + MonthCount(ws[1..], year, month)
  }

  /** The durations of those of ws that fall in the month, summed one workout at a time; a missing one adds 0. */
  function MonthDuration(ws: seq<Workout>, year: int, month: int): int {
    if ws == [] then 0
    else
      var here := if ws[0].date.year == year && ws[0].date.month == month then ws[0].duration.GetOr(0) else 0;
      here + MonthDuration(ws[1..], year, month)
  }

  /** The month's query, run as a filter, agrees with the one-at-a-time count and sum. */
  lemma {:induction false} MonthFilter(ws: seq<Workout>, year: int, month: int)
    ensures |Seqs.Filter(ws, InMonth(year, month))| == MonthCount(ws, year, month)
    ensures TotalDuration(Seqs.Filter(ws, InMonth(year, month))) == MonthDuration(ws, year, month)
  {
    if ws != [] {
      MonthFilter(ws[1..], year, month);
      var rest := Seqs.Filter(ws[1..], InMonth(year, month));
      if InMonth(year, month)(ws[0]) {
        assert Seqs.Filter(ws, InMonth(year, month)) == [ws[0]] + rest;
        assert ([ws[0]] + rest)[1..] == rest;
      } else {
        assert Seqs.Filter(ws, InMonth(year, month)) == rest;
      }
    }
  }

  lemma {:induction false} MonthCountFacts(ws: seq<Workout>, year: int, month: int)
    ensures MonthCount(ws, year, month) <= |ws|
    ensures forall w :: w in ws && w.date.year == year && w.date.month == month ==> MonthCount(ws, year, month) > 0
  {
    if ws != [] {
      MonthCountFacts(ws[1..], year, month);
      forall w | w in ws && w.date.year == year && w.date.month == month
        ensures MonthCount(ws, year, month) > 0
      {
        if w != ws[0] {
          assert w in ws[1..];
        }
      }
    }
  }

  datatype MonthStat = MonthStat(year: int, month: int, count: nat, duration: int)

  /** The two queries for one month: how many of the caller's workouts fall in it, and their total duration. */
  function StatFor(mine: seq<Workout>, year: int, month: int): (s: MonthStat)
    ensures s.year == year && s.month == month
    ensures s.count <= |mine|
    ensures forall w :: w in mine && w.date.year == year && w.date.month == month ==> s.count > 0
  {
    MonthCountFacts(mine, year, month);
    MonthStat(year, month, MonthCount(mine, year, month), MonthDuration(mine, year, month))
  }

  /**
   * A month's stats are what its two queries return: the number of the caller's
   * workouts dated in that month, and the sum of their durations.
   */
  lemma StatForIsQuery(mine: seq<Workout>, year: int, month: int)
    ensures StatFor(mine, year, month).count == |Seqs.Filter(mine, InMonth(year, month))|
    ensures StatFor(mine, year, month).duration == TotalDuration(Seqs.Filter(mine, InMonth(year, month)))
  {
    MonthFilter(mine, year, month);
  }

  /** The stats of the first n months counting back from (year, month), newest first. */
  function MonthsUpTo(mine: seq<Workout>, year: int, month: int, n: nat): seq<MonthStat> {
    if n == 0 then []
    else MonthsUpTo(mine, year, month, n - 1) + [StatFor(mine, MonthsBack(year, month, n - 1).0, MonthsBack(year, month, n - 1).1)]
  }

  lemma {:induction false} MonthsUpToLength(mine: seq<Workout>, year: int, month: int, n: nat)
    ensures |MonthsUpTo(mine, year, month, n)| == n
  {
    if n > 0 {
      MonthsUpToLength(mine, year, month, n - 1);
    }
  }

  /** The k-th entry of the first n months is the stats of the k-th month back. */
  lemma {:induction false} MonthsUpToAt(mine: seq<Workout>, year: int, month: int, n: nat, k: nat)
    requires k < n
    ensures |MonthsUpTo(mine, year, month, n)| == n
    ensures MonthsUpTo(mine, year, month, n)[k] == StatFor(mine, MonthsBack(year, month, k).0, MonthsBack(year, month, k).1)
  {
    MonthsUpToLength(mine, year, month, n);
    MonthsUpToLength(mine, year, month, n - 1);
    var prefix := MonthsUpTo(mine, year, month, n - 1);
    if k < n - 1 {
      MonthsUpToAt(mine, year, month, n - 1, k);
      assert MonthsUpTo(mine, year, month, n)[k] == prefix[k];
    }
  }

  /** get_monthly_stats: the current month and the eleven before it, newest first. */
  method MonthlyStats(workouts: seq<Workout>, userId: nat, currentYear: int, currentMonth: int) returns (stats: seq<MonthStat>)
    requires 1 <= currentMonth <= 12
    ensures |stats| == 12
    ensures forall i :: 0 <= i < 12 ==>
      stats[i] == StatFor(Mine(workouts, userId), MonthsBack(currentYear, currentMonth, i).0, MonthsBack(currentYear, currentMonth, i).1)
  {
    var mine := Mine(workouts, userId);
    stats := [];
    for i := 0 to 12
      invariant stats == MonthsUpTo(mine, currentYear, currentMonth, i)
    {
      var month := (currentMonth - i) % 12;
      month := if month == 0 then 12 else month;
      var year := if month <= currentMonth then currentYear else currentYear - 1;
      LoopFormulaAgrees(currentYear, currentMonth, i);
      stats := stats + [StatFor(mine, year, month)];
    }
    forall i | 0 <= i < 12
      ensures |stats| == 12
      ensures stats[i] == StatFor(mine, MonthsBack(currentYear, currentMonth, i).0, MonthsBack(currentYear, currentMonth, i).1)
    {
      MonthsUpToAt(mine, currentYear, currentMonth, 12, i);
    }
  }

  // ----- per exercise -----

  datatype ExerciseStat = ExerciseStat(id: nat, name: string, category: Option<string>, count: nat)

  function UsesOf(id: nat): WorkoutExercise -> bool {
    (e: WorkoutExercise) => e.exerciseId == id
  }

  /** How many rows use exercise id, counted one row at a time. */
  function UseCount(rows: seq<WorkoutExercise>, id: nat): nat {
    if rows == [] then 0 else (if rows[0].exerciseId == id then 1 else 0) + UseCount(rows[1..], id)
  }

  lemma {:induction false} FilterCountsUses(rows: seq<WorkoutExercise>, id: nat)
    ensures |Seqs.Filter(rows, UsesOf(id))| == UseCount(rows, id)
  {
    if rows != [] {
      FilterCountsUses(rows[1..], id);
      if UsesOf(id)(rows[0]) {
        assert Seqs.Filter(rows, UsesOf(id)) == [rows[0]] + Seqs.Filter(rows[1..], UsesOf(id));
      } else {
        assert Seqs.Filter(rows, UsesOf(id)) == Seqs.Filter(rows[1..], UsesOf(id));
      }
    }
  }

  /** One exercise's row: its id, name and category, and how many of the rows use it. */
  function StatOf(x: Exercise, rows: seq<WorkoutExercise>): (s: ExerciseStat)
    ensures s.id == x.id && s.name == x.name && s.category == x.category
    ensures s.count == UseCount(rows, x.id)
    ensures s.count > 0 <==> exists k :: 0 <= k < |rows| && rows[k].exerciseId == x.id
  {
    var used := Seqs.Filter(rows, UsesOf(x.id));
    FilterCountsUses(rows, x.id);
    forall k | 0 <= k < |rows| && rows[k].exerciseId == x.id ensures |used| > 0 {
      Seqs.FilterMember(rows, UsesOf(x.id), rows[k]);
    }
    assert |used| > 0 ==> exists k :: 0 <= k < |rows| && rows[k].exerciseId == x.id by {
      if |used| > 0 {
        Seqs.FilterMember(rows, UsesOf(x.id), used[0]);
      }
    }
    ExerciseStat(x.id, x.name, x.category, |used|)
  }

  /** The inner join keeps only the exercises some row uses. */
  function Tally(exercises: seq<Exercise>, rows: seq<WorkoutExercise>): (r: seq<ExerciseStat>)
    ensures forall s :: s in r ==> s.count > 0 && exists x :: x in exercises && s == StatOf(x, rows)
    ensures forall x :: x in exercises && StatOf(x, rows).count > 0 ==> StatOf(x, rows) in r
  {
    if exercises == [] then []
    else
      var rest := Tally(exercises[1..], rows);
      var s := StatOf(exercises[0], rows);
      var r := if s.count > 0 then [s] + rest else rest;
      forall t | t in r ensures t.count > 0 && exists x :: x in exercises && t == StatOf(x, rows) {
        if t in rest {
          var x :| x in exercises[1..] && t == StatOf(x, rows);
          assert x in exercises;
        } else {
          assert t == StatOf(exercises[0], rows);
        }
      }
      forall x | x in exercises && StatOf(x, rows).count > 0 ensures StatOf(x, rows) in r {
        if x != exercises[0] {
          assert x in exercises[1..];
        }
      }
      r
  }

  /** An id no exercise has never appears in the tally. */
  lemma {:induction false} TallyOmits(exercises: seq<Exercise>, rows: seq<WorkoutExercise>, id: nat)
    requires forall k :: 0 <= k < |exercises| ==> exercises[k].id != id
    ensures forall i :: 0 <= i < |Tally(exercises, rows)| ==> Tally(exercises, rows)[i].id != id
  {
    if exercises != [] {
      assert forall k :: 0 <= k < |exercises[1..]| ==> exercises[1..][k] == exercises[k + 1];
      TallyOmits(exercises[1..], rows, id);
    }
  }

  /** Over exercises with distinct ids, the tally lists each id at most once. */
  lemma {:induction false} TallyDistinct(exercises: seq<Exercise>, rows: seq<WorkoutExercise>)
    requires KeysDistinct(exercises, ExerciseKey)
    ensures KeysDistinct(Tally(exercises, rows), StatKey)
  {
    if exercises != [] {
      var tail := exercises[1..];
      assert forall k :: 0 <= k < |tail| ==> tail[k] == exercises[k + 1];
      assert KeysDistinct(tail, ExerciseKey) by {
        forall i, j | 0 <= i < j < |tail| ensures ExerciseKey(tail[i]) != ExerciseKey(tail[j]) {
          assert ExerciseKey(exercises[i + 1]) != ExerciseKey(exercises[j + 1]);
        }
      }
      TallyDistinct(tail, rows);
      forall k | 0 <= k < |tail| ensures tail[k].id != exercises[0].id {
        assert ExerciseKey(exercises[0]) != ExerciseKey(exercises[k + 1]);
      }
      TallyOmits(tail, rows, exercises[0].id);
      var rest := Tally(tail, rows);
      var s := StatOf(exercises[0], rows);
      if s.count > 0 {
        ConsKeepsDistinct(s, rest, StatKey);
      }
    }
  }

  function StatKey(s: ExerciseStat): nat {
    s.id
  }

  /** ORDER BY count DESC. */
  function MoreUsed(): (ExerciseStat, ExerciseStat) -> bool {
    (a: ExerciseStat, b: ExerciseStat) => a.count >= b.count
  }

  /** get_exercise_stats: every exercise the caller did, with how often, most frequent first. */
  function ExerciseStats(workouts: seq<Workout>, entries: seq<WorkoutExercise>, exercises: seq<Exercise>, userId: nat)
    : (r: seq<ExerciseStat>)
    ensures var rows := UserRows(workouts, entries, userId);
      && (forall s :: s in r ==> s.count > 0 && exists x :: x in exercises && s == StatOf(x, rows))
      && (forall x :: x in exercises && StatOf(x, rows).count > 0 ==> StatOf(x, rows) in r)
    ensures forall i, j :: 0 <= i < j < |r| ==> r[i].count >= r[j].count
    ensures KeysDistinct(exercises, ExerciseKey) ==> KeysDistinct(r, StatKey)
  {
    var tally := Tally(exercises, UserRows(workouts, entries, userId));
    var r := Seqs.SortBy(tally, MoreUsed());
    Seqs.PermutationSameElements(r, tally);
    assert KeysDistinct(exercises, ExerciseKey) ==> KeysDistinct(r, StatKey) by {
      if KeysDistinct(exercises, ExerciseKey) {
        TallyDistinct(exercises, UserRows(workouts, entries, userId));
        PermutationKeepsKeysDistinct(r, tally, StatKey);
      }
    }
    r
  }
}
