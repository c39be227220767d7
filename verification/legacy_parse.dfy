/**
 * The older command-line analyser (src/utils/parse.ts): set and day
 * comparison with a ±50% rep window, a four-valued progress status, and the
 * pure steps of `parseCSVToJSON` from the rows as read: name normalisation,
 * two row filters, grouping by `exercise|workout` and date, per-group
 * evaluation, a minimum-size filter and the final sort.
 */
module LegacyParse {
  import opened Wrappers
  import opened Records
  import opened Grouping
  import opened Sorting
  import opened Seqs
  import opened SetComparison
  import opened LegacyNames
  import Progression
  import Normalisers

  /** Groups with at most this many rows are dropped. */
  const TotalSetsThreshold: nat := 3
  /** A group last performed within this many days is active. */
  const ActiveDaysThreshold: nat := 14

  /**
   * A mapped CSV row (`WorkoutData`). `date` is the `Date` column as read;
   * `day` is its date part (the text before the first space) as a day
   * number, the key the rows are grouped by.
   */
  datatype Row = Row(
    date: string,
    day: int,
    workoutName: string,
    exerciseName: string,
    setOrder: string,
    weight: real,
    reps: int,
    distance: real,
    seconds: real,
    notes: string,
    workoutNotes: string,
    rpe: Option<real>)

  /** The progress labels this analyser produces. */
  datatype LegacyStatus = Progressing | NeedsAttention | Plateaued | Regressing

  /** Top-set and overall verdict of one day against the previous one. */
  datatype DayComparison = DayComparison(top: PerformanceChange, overall: PerformanceChange)

  // ---------------------------------------------------------------------------
  // compareExerciseSets

  /** The current reps are within 50% to 150% of the previous reps. */
  predicate RepsWithinRange(cur: Row, prev: Row) {
    (cur.reps as real) >= (prev.reps as real) * 0.5 && (cur.reps as real) <= (prev.reps as real) * 1.5
  }

  /** The row as a set record, to compare it with the engine's rules. */
  function AsSet(r: Row): LiftSet { LiftSet(r.setOrder, r.weight, r.reps, None, None) }

  /**
   * `compareExerciseSets(current, previous)`: `NotSure` without previous
   * reps, or when the weight changed and the reps left the ±50% window; at
   * an unchanged weight the reps alone decide, without any window.
   */
  function CompareExerciseSets(cur: Row, prev: Row): (r: PerformanceChange)
    ensures r == PerformanceChange.NotSure
      <==> prev.reps == 0 || (cur.weight != prev.weight && !RepsWithinRange(cur, prev))
    ensures r == Increase <==> (prev.reps != 0 && Outperforms(AsSet(cur), AsSet(prev))
                                && (cur.weight == prev.weight || RepsWithinRange(cur, prev)))
    ensures r == Decrease <==> (prev.reps != 0 && Outperforms(AsSet(prev), AsSet(cur))
                                && (cur.weight == prev.weight || RepsWithinRange(cur, prev)))
    ensures r == NoChange <==> prev.reps != 0 && SameLoad(AsSet(cur), AsSet(prev))
  {
    if prev.reps == 0 then PerformanceChange.NotSure
    else
      var within := RepsWithinRange(cur, prev);
      if cur.weight > prev.weight then (if within then Increase else PerformanceChange.NotSure)
      else if cur.weight < prev.weight then (if within then Decrease else PerformanceChange.NotSure)
      else if cur.reps > prev.reps then Increase
      else if cur.reps < prev.reps then Decrease
      else NoChange
  }

  /**
   * Inside the rep window the older analyser agrees with the app's 0.5
   * tolerance comparison; the two differ only outside it, where the older
   * one still judges sets of equal weight.
   */
  lemma LegacyAgreesWithAppWithinRange(cur: Row, prev: Row)
    requires prev.reps > 0 && RepsWithinRange(cur, prev)
    ensures CompareExerciseSets(cur, prev) == CompareSetPerformance(AppRepTolerance, AsSet(prev), AsSet(cur))
  {
    assert !RepsTooDifferent(AppRepTolerance, AsSet(prev), AsSet(cur));
  }

  lemma LegacyJudgesOutsideWindowAtSameWeight(cur: Row, prev: Row)
    requires prev.reps > 0 && cur.weight == prev.weight && !RepsWithinRange(cur, prev)
    ensures CompareExerciseSets(cur, prev) in {Increase, Decrease}
    ensures CompareSetPerformance(AppRepTolerance, AsSet(prev), AsSet(cur)) == PerformanceChange.NotSure
  {
  }

  // ---------------------------------------------------------------------------
  // comparePerformance

  /** Positions `lo..hi-1` of the two days compare `NoChange`. */
  ghost predicate SameFrom(cur: seq<Row>, prev: seq<Row>, lo: nat, hi: nat)
    requires hi <= |cur| && hi <= |prev|
  {
    forall j :: lo <= j < hi ==> CompareExerciseSets(cur[j], prev[j]) == NoChange
  }

  function MinLen(a: seq<Row>, b: seq<Row>): nat { if |a| < |b| then |a| else |b| }

  /** The `while` loop from `setIndex = i`: the first position that does not compare `NoChange`. */
  function OverallFrom(cur: seq<Row>, prev: seq<Row>, i: nat): (r: PerformanceChange)
    requires i <= MinLen(cur, prev)
    ensures r == NoChange <==> SameFrom(cur, prev, i, MinLen(cur, prev))
    decreases MinLen(cur, prev) - i
  {
    if i == MinLen(cur, prev) then NoChange
    else
      var c := CompareExerciseSets(cur[i], prev[i]);
      if c != NoChange then c
      else
        assert forall j :: i + 1 <= j <= MinLen(cur, prev) ==>
          (SameFrom(cur, prev, i, j) <==> SameFrom(cur, prev, i + 1, j));
        OverallFrom(cur, prev, i + 1)
  }

  /** The first position from `i` on that does not compare `NoChange` gives the verdict. */
  lemma {:induction false} OverallFromDecidedBy(cur: seq<Row>, prev: seq<Row>, i: nat, j: nat)
    requires i <= j < MinLen(cur, prev)
    requires SameFrom(cur, prev, i, j) && CompareExerciseSets(cur[j], prev[j]) != NoChange
    ensures OverallFrom(cur, prev, i) == CompareExerciseSets(cur[j], prev[j])
    decreases j - i
  {
    if i < j {
      assert CompareExerciseSets(cur[i], prev[i]) == NoChange;
      OverallFromDecidedBy(cur, prev, i + 1, j);
    }
  }

  /**
   * `comparePerformance(current, previous)` on days already in set order:
   * the top sets decide the top verdict; only when they compare `NoChange`
   * do the following sets (up to the shorter day) decide the overall verdict.
   */
  function ComparePerformance(cur: seq<Row>, prev: seq<Row>): (r: DayComparison)
    ensures |cur| == 0 || |prev| == 0 ==> r == DayComparison(NoChange, NoChange)
    ensures |cur| > 0 && |prev| > 0 ==> r.top == CompareExerciseSets(cur[0], prev[0])
    ensures |cur| > 0 && |prev| > 0 && r.top != NoChange ==> r.overall == r.top
    ensures |cur| > 0 && |prev| > 0 && r.top == NoChange ==>
      (r.overall == NoChange <==> SameFrom(cur, prev, 1, MinLen(cur, prev)))
  {
    if |prev| == 0 || |cur| == 0 then DayComparison(NoChange, NoChange)
    else
      var top := CompareExerciseSets(cur[0], prev[0]);
      DayComparison(top, if top == NoChange then OverallFrom(cur, prev, 1) else top)
  }

  lemma {:induction false} OverallFromBelowMin(cur: seq<Row>, prev: seq<Row>, cur': seq<Row>, prev': seq<Row>, i: nat)
    requires MinLen(cur, prev) == MinLen(cur', prev')
    requires forall j :: 0 <= j < MinLen(cur, prev) ==> cur[j] == cur'[j] && prev[j] == prev'[j]
    requires i <= MinLen(cur, prev)
    ensures OverallFrom(cur, prev, i) == OverallFrom(cur', prev', i)
    decreases MinLen(cur, prev) - i
  {
    if i < MinLen(cur, prev) {
      OverallFromBelowMin(cur, prev, cur', prev', i + 1);
    }
  }

  /** Sets beyond the shorter day are never looked at. */
  lemma ExtraSetsIgnored(cur: seq<Row>, prev: seq<Row>, extra: seq<Row>)
    requires |cur| >= |prev|
    ensures ComparePerformance(cur + extra, prev) == ComparePerformance(cur, prev)
  {
    var m := MinLen(cur, prev);
    assert MinLen(cur + extra, prev) == m;
    if |prev| > 0 {
      assert (cur + extra)[0] == cur[0];
      OverallFromBelowMin(cur + extra, prev, cur, prev, 1);
    }
  }

  // ---------------------------------------------------------------------------
  // determineProgressStatus

  predicate AllOf(s: seq<PerformanceChange>, c: PerformanceChange) { forall i :: 0 <= i < |s| ==> s[i] == c }

  function Occurrences(s: seq<PerformanceChange>, c: PerformanceChange): (n: nat)
    ensures n <= |s|
    ensures n == 0 <==> c !in s
    ensures n == |s| <==> AllOf(s, c)
  {
    if |s| == 0 then 0
    else
      var init := s[..|s| - 1];
      assert s == init + [s[|s| - 1]];
      Occurrences(init, c) + (if s[|s| - 1] == c then 1 else 0)
  }

  /**
   * `determineProgressStatus` with the default window of five entries. The
   * postconditions follow the rules in their priority order and pin the label
   * for every history: `Progressing` on two increases, `Regressing` on two
   * decreases, `Plateaued` on three unchanged entries, and then the vote over
   * the last five. `LegacyStatus.NeedsAttention` is the label of an empty
   * history and of a mixed one that still has an increase among its last five
   * entries.
   */
  function DetermineProgressStatus(h: seq<PerformanceChange>): (r: LegacyStatus)
    ensures r == LegacyStatus.Progressing <==> |h| > 0 && AllOf(Last(h, 2), Increase)
    ensures |h| > 0 && AllOf(Last(h, 2), Decrease) ==> r == LegacyStatus.Regressing
    ensures |h| > 0 && !AllOf(Last(h, 2), Increase) && !AllOf(Last(h, 2), Decrease) && AllOf(Last(h, 3), NoChange)
      ==> r == LegacyStatus.Plateaued
    ensures var mixed := !AllOf(Last(h, 2), Increase) && !AllOf(Last(h, 2), Decrease)
      && !AllOf(Last(h, 3), NoChange);
      |h| > 0 && mixed && Increase !in Last(h, 5) ==>
        r == (if Decrease in Last(h, 5) then LegacyStatus.Regressing else LegacyStatus.Plateaued)
    ensures var mixed := !AllOf(Last(h, 2), Increase) && !AllOf(Last(h, 2), Decrease)
      && !AllOf(Last(h, 3), NoChange) && Increase in Last(h, 5);
      r == LegacyStatus.NeedsAttention <==> |h| == 0 || mixed
    ensures r == LegacyStatus.Regressing ==> Decrease in Last(h, 5)
    ensures r == LegacyStatus.Plateaued ==> Increase !in Last(h, 2) && Decrease !in Last(h, 2)
  {
    if |h| == 0 then LegacyStatus.NeedsAttention
    else
      var lastTwo := Last(h, 2);
      NotBothWays(h);
      LastOfLast(h, 2, 3);
      LastOfLast(h, 2, 5);
      if AllOf(lastTwo, Increase) then LegacyStatus.Progressing
      else if AllOf(lastTwo, Decrease) then LegacyStatus.Regressing
      else if AllOf(Last(h, 3), NoChange) then LegacyStatus.Plateaued
      else
        var recent := Last(h, 5);
        var inc := Occurrences(recent, Increase);
        var dec := Occurrences(recent, Decrease);
        if inc == 0 then (if dec > 0 then LegacyStatus.Regressing else LegacyStatus.Plateaued)
        else LegacyStatus.NeedsAttention
  }

  /** A non-empty history cannot end both in increases and in decreases. */
  lemma {:induction false} NotBothWays(h: seq<PerformanceChange>)
    ensures |h| > 0 ==> !(AllOf(Last(h, 2), Increase) && AllOf(Last(h, 2), Decrease))
  {
    if |h| > 0 {
      var l2 := Last(h, 2);
      assert l2[|l2| - 1] == Increase ==> l2[|l2| - 1] != Decrease;
    }
  }

  /**
   * The pipeline's history never holds `NoChange`; on such a history the
   * "last three unchanged" branch cannot fire, and `LegacyStatus.Plateaued` means the last
   * five entries were all `NotSure`.
   */
  lemma PlateauedOnPipelineHistory(h: seq<PerformanceChange>)
    requires NoChange !in h
    ensures |h| > 0 ==> !AllOf(Last(h, 3), NoChange)
    ensures DetermineProgressStatus(h) == LegacyStatus.Plateaued
        <==> |h| > 0 && AllOf(Last(h, 5), PerformanceChange.NotSure)
  {
    if |h| > 0 {
      LastThreeNotAllNoChange(h);
      if AllOf(Last(h, 5), PerformanceChange.NotSure) {
        AllNotSureIsPlateaued(h);
      } else {
        SomeChangeIsNotPlateaued(h);
      }
    }
  }

  lemma LastThreeNotAllNoChange(h: seq<PerformanceChange>)
    requires |h| > 0 && NoChange !in h
    ensures !AllOf(Last(h, 3), NoChange)
  {
    assert Last(h, 3)[|Last(h, 3)| - 1] == h[|h| - 1];
  }

  lemma AllNotSureIsPlateaued(h: seq<PerformanceChange>)
    requires |h| > 0 && !AllOf(Last(h, 3), NoChange) && AllOf(Last(h, 5), PerformanceChange.NotSure)
    ensures DetermineProgressStatus(h) == LegacyStatus.Plateaued
  {
    NotSureIsNeitherWay(h);
    PlateauedWhenNeitherWay(h);
  }

  lemma NotSureIsNeitherWay(h: seq<PerformanceChange>)
    requires |h| > 0 && AllOf(Last(h, 5), PerformanceChange.NotSure)
    ensures !AllOf(Last(h, 2), Increase) && !AllOf(Last(h, 2), Decrease)
    ensures Occurrences(Last(h, 5), Increase) == 0 && Occurrences(Last(h, 5), Decrease) == 0
  {
    var l2, l5 := Last(h, 2), Last(h, 5);
    LastOfLast(h, 2, 5);
    assert l2[|l2| - 1] == l5[|l5| - 1] == PerformanceChange.NotSure;
    assert Increase !in l5 && Decrease !in l5;
  }

  lemma PlateauedWhenNeitherWay(h: seq<PerformanceChange>)
    requires |h| > 0 && !AllOf(Last(h, 2), Increase) && !AllOf(Last(h, 2), Decrease) && !AllOf(Last(h, 3), NoChange)
    requires Occurrences(Last(h, 5), Increase) == 0 && Occurrences(Last(h, 5), Decrease) == 0
    ensures DetermineProgressStatus(h) == LegacyStatus.Plateaued
  {
  }

  lemma SomeChangeIsNotPlateaued(h: seq<PerformanceChange>)
    requires |h| > 0 && NoChange !in h && !AllOf(Last(h, 3), NoChange)
    requires !AllOf(Last(h, 5), PerformanceChange.NotSure)
    ensures DetermineProgressStatus(h) != LegacyStatus.Plateaued
  {
    SomeChangeCounts(h);
    NotPlateauedWhenCounted(h);
  }

  lemma SomeChangeCounts(h: seq<PerformanceChange>)
    requires NoChange !in h && !AllOf(Last(h, 5), PerformanceChange.NotSure)
    ensures Occurrences(Last(h, 5), Increase) > 0 || Occurrences(Last(h, 5), Decrease) > 0
  {
    var l5 := Last(h, 5);
    var k :| 0 <= k < |l5| && l5[k] != PerformanceChange.NotSure;
    assert l5[k] == h[|h| - |l5| + k];
    assert l5[k] in l5;
  }

  lemma NotPlateauedWhenCounted(h: seq<PerformanceChange>)
    requires |h| > 0 && !AllOf(Last(h, 3), NoChange)
    requires Occurrences(Last(h, 5), Increase) > 0 || Occurrences(Last(h, 5), Decrease) > 0
    ensures DetermineProgressStatus(h) != LegacyStatus.Plateaued
  {
  }

  // ---------------------------------------------------------------------------
  // Row filters and grouping

  function IsNotRestTimer(r: Row): bool { r.setOrder != "Rest Timer" }
  function HasWork(r: Row): bool { !(r.reps == 0 && r.distance == 0.0 && r.seconds == 0.0) }
  function KeepRow(r: Row): bool { IsNotRestTimer(r) && HasWork(r) }

  /** The two filters, in the order of the source. */
  function FilterRows(rows: seq<Row>): (r: seq<Row>)
    ensures forall i :: 0 <= i < |r| ==> r[i].setOrder != "Rest Timer" && HasWork(r[i])
  {
    Filter(Filter(rows, IsNotRestTimer), HasWork)
  }

  /** The two filters are one order-preserving filter by their conjunction. */
  lemma FilterRowsIsOneFilter(rows: seq<Row>)
    ensures FilterRows(rows) == Filter(rows, KeepRow)
  {
    FilterFilter(rows, IsNotRestTimer, HasWork, KeepRow);
  }

  function LegacyKey(r: Row): string { r.exerciseName + "|" + r.workoutName }
  function RowDay(r: Row): int { r.day }

  /** The date groups of one `exercise|workout` key. */
  type DateGroups = seq<Entry<int, seq<Row>>>

  function StartDay(r: Row): seq<Row> { [] }
  function PushRow(s: seq<Row>, r: Row): seq<Row> { s + [r] }
  function NoDates(r: Row): DateGroups { [] }
  function AddRow(g: DateGroups, r: Row): DateGroups { Insert(g, r, RowDay, StartDay, PushRow) }

  /** `groupedData` after the `forEach`. */
  function GroupRows(rows: seq<Row>): (r: seq<Entry<string, DateGroups>>)
    ensures EntryKeys(r) == Dedup(Map(rows, LegacyKey))
  {
    GroupAllIsGrouping(rows, LegacyKey, NoDates, AddRow);
    GroupAll(rows, LegacyKey, NoDates, AddRow)
  }

  lemma {:induction false} RowsOfDay(g: seq<Row>)
    requires |g| > 0
    ensures Accumulate(g, StartDay, PushRow) == g
  {
    if |g| > 1 {
      RowsOfDay(g[..|g| - 1]);
    }
  }

  lemma {:induction false} DatesOfGroup(g: seq<Row>)
    requires |g| > 0
    ensures Accumulate(g, NoDates, AddRow) == GroupAll(g, RowDay, StartDay, PushRow)
  {
    if |g| > 1 {
      DatesOfGroup(g[..|g| - 1]);
    } else {
      assert g[..0] == [];
    }
  }

  /**
   * Each key's date groups hold, for every distinct day of that key's rows
   * in first-seen order, exactly the rows of that day in input order.
   */
  lemma GroupRowsCharacterised(rows: seq<Row>, i: nat)
    requires i < |GroupRows(rows)|
    ensures var e := GroupRows(rows)[i];
      var g := Select(rows, LegacyKey, e.key);
      && |g| > 0
      && EntryKeys(e.acc) == Dedup(Map(g, RowDay))
      && forall j :: 0 <= j < |e.acc| ==> e.acc[j].acc == Select(g, RowDay, e.acc[j].key)
  {
    var gs := GroupRows(rows);
    GroupAllIsGrouping(rows, LegacyKey, NoDates, AddRow);
    assert EntryKeys(gs)[i] == gs[i].key;
    var g := Select(rows, LegacyKey, gs[i].key);
    DatesOfGroup(g);
    GroupAllIsGrouping(g, RowDay, StartDay, PushRow);
    forall j | 0 <= j < |gs[i].acc| ensures gs[i].acc[j].acc == Select(g, RowDay, gs[i].acc[j].key) {
      RowsOfDay(Select(g, RowDay, gs[i].acc[j].key));
    }
  }

  // ---------------------------------------------------------------------------
  // Labels

  function IndexOf(s: string, c: char): (i: nat)
    ensures i <= |s|
    ensures i < |s| ==> s[i] == c
    ensures forall j :: 0 <= j < i ==> s[j] != c
  {
    if |s| == 0 then 0 else if s[0] == c then 0 else 1 + IndexOf(s[1..], c)
  }

  /** `String.prototype.split` on a one-character separator. */
  function Split(s: string, c: char): (parts: seq<string>)
    ensures |parts| > 0
    decreases |s|
  {
    var i := IndexOf(s, c);
    if i == |s| then [s] else [s[..i]] + Split(s[i + 1..], c)
  }

  /** Joining the parts with the separator gives back the string. */
  function Join(parts: seq<string>, c: char): string
    requires |parts| > 0
  {
    if |parts| == 1 then parts[0] else parts[0] + [c] + Join(parts[1..], c)
  }

  lemma {:induction false} SplitJoin(s: string, c: char)
    ensures Join(Split(s, c), c) == s
    ensures forall k :: 0 <= k < |Split(s, c)| ==> c !in Split(s, c)[k]
    decreases |s|
  {
    var i := IndexOf(s, c);
    if i < |s| {
      SplitJoin(s[i + 1..], c);
      assert Split(s, c)[1..] == Split(s[i + 1..], c);
      assert s == s[..i] + [c] + s[i + 1..];
    }
  }

  lemma SplitAtFirst(a: string, b: string, c: char)
    requires c !in a
    ensures Split(a + [c] + b, c) == [a] + Split(b, c)
  {
    var s := a + [c] + b;
    assert s[|a|] == c;
    assert forall j :: 0 <= j < |a| ==> s[j] == a[j];
    assert IndexOf(s, c) == |a|;
    assert s[..|a|] == a && s[|a| + 1..] == b;
  }

  /** The group label `exercise (workout)` from the first two `|`-separated parts of the key. */
  function Label(key: string): string {
    var parts := Split(key, '|');
    if |parts| >= 2 then parts[0] + " (" + parts[1] + ")" else parts[0] + " (undefined)"
  }

  lemma LabelOfKey(r: Row)
    requires '|' !in r.exerciseName && '|' !in r.workoutName
    ensures Label(LegacyKey(r)) == r.exerciseName + " (" + r.workoutName + ")"
  {
    SplitAtFirst(r.exerciseName, r.workoutName, '|');
    assert LegacyKey(r) == r.exerciseName + ['|'] + r.workoutName;
    assert IndexOf(r.workoutName, '|') == |r.workoutName|;
  }

  // ---------------------------------------------------------------------------
  // Per-group evaluation

  /** One evaluated date of a group (`DateGroupedWorkoutData`). */
  datatype LegacyDay = LegacyDay(date: int, exercises: seq<Row>, comparison: DayComparison)

  /** One output group (`GroupedWorkoutData`). */
  datatype LegacyGroup = LegacyGroup(
    title: string,
    days: seq<LegacyDay>,
    progressStatus: LegacyStatus,
    isActive: bool,
    lastPerformedDate: int)

  /** The rows stored under date `d`. */
  function RowsOn(g: DateGroups, d: int): seq<Row> {
    var i := Find(g, d);
    if i < |g| then g[i].acc else []
  }

  /** The comparison of the `i`-th sorted date with the one before it. */
  function CompareDates(g: DateGroups, dates: seq<int>, i: nat, order: seq<Row> -> seq<Row>): DayComparison
    requires i < |dates|
  {
    if i == 0 then DayComparison(NoChange, NoChange)
    else ComparePerformance(order(RowsOn(g, dates[i])), order(RowsOn(g, dates[i - 1])))
  }

  /** `order` only reorders, as `Array.prototype.sort` on a copy does whatever its comparator. */
  ghost predicate Reorders(order: seq<Row> -> seq<Row>) {
    forall s :: multiset(order(s)) == multiset(s)
  }

  /**
   * When `order` only reorders, a later date compares `NoChange` twice if
   * either day has no rows, and otherwise its top verdict compares a row of
   * that day with a row of the day before.
   */
  lemma CompareDatesOfReordering(g: DateGroups, dates: seq<int>, i: nat, order: seq<Row> -> seq<Row>)
    requires Reorders(order) && 0 < i < |dates|
    ensures var cur, prev := RowsOn(g, dates[i]), RowsOn(g, dates[i - 1]);
      && (|cur| == 0 || |prev| == 0 ==> CompareDates(g, dates, i, order) == DayComparison(NoChange, NoChange))
      && (|cur| > 0 && |prev| > 0 ==>
            exists x, y :: x in cur && y in prev && CompareDates(g, dates, i, order).top == CompareExerciseSets(x, y))
  {
    var cur, prev := RowsOn(g, dates[i]), RowsOn(g, dates[i - 1]);
    var c, p := order(cur), order(prev);
    assert |multiset(c)| == |c| && |multiset(cur)| == |cur|;
    assert |multiset(p)| == |p| && |multiset(prev)| == |prev|;
    if |cur| > 0 && |prev| > 0 {
      assert c[0] in multiset(c) && p[0] in multiset(p);
      assert c[0] in cur && p[0] in prev;
    }
  }

  /**
   * The `forEach` over the sorted dates: the first date compares `NoChange`,
   * every later date is compared with the date before it, after both days'
   * rows go through `order`, an arbitrary function that stands for the
   * per-day set sort.
   */
  function EvaluateDays(g: DateGroups, dates: seq<int>, order: seq<Row> -> seq<Row>): (r: seq<LegacyDay>)
    ensures |r| == |dates|
    ensures forall i :: 0 <= i < |dates| ==> r[i].date == dates[i] && r[i].exercises == RowsOn(g, dates[i])
  {
    if |dates| == 0 then []
    else
      var n := |dates| - 1;
      EvaluateDays(g, dates[..n], order) + [LegacyDay(dates[n], RowsOn(g, dates[n]), CompareDates(g, dates, n, order))]
  }

  /** Each day's comparison looks at that day and the one before it, nothing else. */
  lemma {:induction false} EvaluateDaysComparisons(g: DateGroups, dates: seq<int>, order: seq<Row> -> seq<Row>, i: nat)
    requires i < |dates|
    ensures EvaluateDays(g, dates, order)[i].comparison == CompareDates(g, dates, i, order)
  {
    var n := |dates| - 1;
    if i < n {
      EvaluateDaysComparisons(g, dates[..n], order, i);
      assert dates[..n][i] == dates[i];
      if i > 0 {
        assert dates[..n][i - 1] == dates[i - 1];
      }
    }
  }

  function TopOf(d: LegacyDay): PerformanceChange { d.comparison.top }
  function IsChange(c: PerformanceChange): bool { c != NoChange }

  /** The performance history: the top verdicts that are not `NoChange`. */
  function History(days: seq<LegacyDay>): (h: seq<PerformanceChange>)
    ensures NoChange !in h
  {
    Filter(Map(days, TopOf), IsChange)
  }

  /** `Object.keys(dateGroups).sort()`: the group's dates in ascending order. */
  function SortedDates(g: DateGroups): (d: seq<int>)
    ensures |d| == |g|
    ensures forall i, j :: 0 <= i < j < |d| ==> d[i] <= d[j]
    ensures multiset(d) == multiset(EntryKeys(g))
  {
    var ks := EntryKeys(g);
    var d := SortBy(ks, IntLe());
    IntLeTotalPreorder();
    SortBySorted(ks, IntLe());
    assert |d| == |multiset(d)| == |multiset(ks)| == |ks|;
    d
  }

  /** A value of a duplicate-free sequence occurs in it at most once. */
  lemma {:induction false} DistinctCount<T>(s: seq<T>, x: T)
    requires Distinct(s)
    ensures multiset(s)[x] <= 1
  {
    if |s| > 0 {
      assert s == [s[0]] + s[1..];
      DistinctCount(s[1..], x);
      if x == s[0] {
        assert forall j :: 0 <= j < |s[1..]| ==> s[1..][j] == s[j + 1];
        assert x !in s[1..];
      }
    }
  }

  /** A repeated value occurs at least twice. */
  lemma RepeatCount<T>(s: seq<T>, i: nat, j: nat)
    requires i < j < |s| && s[i] == s[j]
    ensures multiset(s)[s[i]] >= 2
  {
    assert s == s[..j] + [s[j]] + s[j + 1..];
    assert s[i] in s[..j];
  }

  /** The dates of a grouping are distinct, so once sorted they strictly increase. */
  lemma SortedDatesStrict(g: DateGroups)
    requires Distinct(EntryKeys(g))
    ensures var d := SortedDates(g);
      forall i, j :: 0 <= i < j < |d| ==> d[i] < d[j]
  {
    var d := SortedDates(g);
    var ks := EntryKeys(g);
    forall i, j | 0 <= i < j < |d| ensures d[i] < d[j] {
      if d[i] == d[j] {
        RepeatCount(d, i, j);
        DistinctCount(ks, d[i]);
        assert false;
      }
    }
  }

  /** The evaluated days of a group: one per date, in ascending date order. */
  function GroupDays(e: Entry<string, DateGroups>, order: seq<Row> -> seq<Row>): (days: seq<LegacyDay>)
    ensures |days| == |e.acc|
    ensures forall i, j :: 0 <= i < j < |days| ==> days[i].date <= days[j].date
    ensures multiset(Map(days, DateOfDay)) == multiset(EntryKeys(e.acc))
  {
    var dates := SortedDates(e.acc);
    var days := EvaluateDays(e.acc, dates, order);
    assert Map(days, DateOfDay) == dates;
    days
  }

  function DateOfDay(d: LegacyDay): int { d.date }

  /** `lastPerformedDate`: the last of the sorted dates, which is the latest one. */
  function GroupLast(e: Entry<string, DateGroups>): (last: int)
    requires |e.acc| > 0
    ensures last in EntryKeys(e.acc)
    ensures forall i :: 0 <= i < |e.acc| ==> e.acc[i].key <= last
  {
    var ks := EntryKeys(e.acc);
    IntLeTotalPreorder();
    SortByLastIsGreatest(ks, IntLe());
    SortedDates(e.acc)[|e.acc| - 1]
  }

  /**
   * `isActive`: the midnight of the last date is after two weeks ago, which
   * holds iff that date is within the last thirteen days before today, or later.
   */
  function GroupActive(e: Entry<string, DateGroups>, nowMillis: int): (active: bool)
    requires |e.acc| > 0
    ensures active <==> GroupLast(e) > nowMillis / Progression.MillisPerDay - ActiveDaysThreshold
  {
    IsActiveBoundary(GroupLast(e), nowMillis);
    Progression.Midnight(GroupLast(e)) > nowMillis - ActiveDaysThreshold * Progression.MillisPerDay
  }

  /** The last evaluated day is the last performed one. */
  lemma GroupLastIsLastDay(e: Entry<string, DateGroups>, order: seq<Row> -> seq<Row>)
    requires |e.acc| > 0
    ensures GroupDays(e, order)[|e.acc| - 1].date == GroupLast(e)
  {
  }

  /** The `map` callback over the groups, "now" being `nowMillis`. */
  function EvaluateGroup(e: Entry<string, DateGroups>, order: seq<Row> -> seq<Row>, nowMillis: int): (r: LegacyGroup)
    requires |e.acc| > 0
    ensures |r.days| == |e.acc| && r.days == GroupDays(e, order)
    ensures r.title == Label(e.key)
    ensures r.progressStatus == DetermineProgressStatus(History(r.days))
    ensures r.lastPerformedDate == GroupLast(e) == r.days[|r.days| - 1].date
    ensures r.isActive <==> r.lastPerformedDate > nowMillis / Progression.MillisPerDay - ActiveDaysThreshold
  {
    var days := GroupDays(e, order);
    GroupLastIsLastDay(e, order);
    LegacyGroup(Label(e.key), days, DetermineProgressStatus(History(days)), GroupActive(e, nowMillis), GroupLast(e))
  }

  /**
   * Active iff the last performed day lies within the last thirteen days
   * before today (or later), whatever the time of day.
   */
  lemma IsActiveBoundary(last: int, nowMillis: int)
    ensures Progression.Midnight(last) > nowMillis - ActiveDaysThreshold * Progression.MillisPerDay
        <==> last > nowMillis / Progression.MillisPerDay - ActiveDaysThreshold
  {
    var today := nowMillis / Progression.MillisPerDay;
    var t := nowMillis % Progression.MillisPerDay;
    assert nowMillis == today * Progression.MillisPerDay + t;
    if last > today - ActiveDaysThreshold {
      assert Progression.Midnight(last) >= (today - ActiveDaysThreshold + 1) * Progression.MillisPerDay;
    } else {
      assert Progression.Midnight(last) <= (today - ActiveDaysThreshold) * Progression.MillisPerDay;
    }
  }

  // ---------------------------------------------------------------------------
  // Size filter and final order

  function DayRows(d: LegacyDay): nat { |d.exercises| }

  function TotalRows(g: LegacyGroup): nat { SumRows(g.days) }

  function SumRows(days: seq<LegacyDay>): nat {
    if |days| == 0 then 0 else SumRows(days[..|days| - 1]) + |days[|days| - 1].exercises|
  }

  function IsBigEnough(g: LegacyGroup): bool { TotalRows(g) > TotalSetsThreshold }

  /** `getProgressStatusPriority`; the `default` arm is unreachable with four labels. */
  function Priority(s: LegacyStatus): (n: nat)
    ensures 1 <= n <= 4
  {
    match s
    case Regressing => 1
    case Plateaued => 2
    case NeedsAttention => 3
    case Progressing => 4
  }

  /** The comparator of the final sort. `new Date(d)` is midnight UTC of `d`. */
  function CompareGroups(a: LegacyGroup, b: LegacyGroup): (r: int)
    ensures a.isActive != b.isActive ==> r != 0 && (r < 0 <==> a.isActive)
    ensures a.isActive && b.isActive ==>
      (r < 0 <==> Priority(a.progressStatus) < Priority(b.progressStatus))
      && (r == 0 <==> Priority(a.progressStatus) == Priority(b.progressStatus))
    ensures !a.isActive && !b.isActive ==>
      (r < 0 <==> a.lastPerformedDate > b.lastPerformedDate)
      && (r == 0 <==> a.lastPerformedDate == b.lastPerformedDate)
  {
    if a.isActive != b.isActive then (if a.isActive then -1 else 1)
    else if a.isActive then Priority(a.progressStatus) - Priority(b.progressStatus)
    else (b.lastPerformedDate - a.lastPerformedDate) * Progression.MillisPerDay
  }

  /** Swapping the groups negates the comparison. */
  lemma CompareGroupsAntisymmetric(a: LegacyGroup, b: LegacyGroup)
    ensures CompareGroups(a, b) == -CompareGroups(b, a)
  {
  }

  function GroupLe(): (LegacyGroup, LegacyGroup) -> bool {
    (a: LegacyGroup, b: LegacyGroup) => CompareGroups(a, b) <= 0
  }

  lemma GroupLeTotalPreorder()
    ensures TotalPreorder(GroupLe())
  {
  }

  lemma GroupsHaveDates(rows: seq<Row>)
    ensures forall i :: 0 <= i < |GroupRows(rows)| ==> |GroupRows(rows)[i].acc| > 0
  {
    forall i | 0 <= i < |GroupRows(rows)| ensures |GroupRows(rows)[i].acc| > 0 {
      GroupRowsCharacterised(rows, i);
      var e := GroupRows(rows)[i];
      var g := Select(rows, LegacyKey, e.key);
      assert Map(g, RowDay)[0] in Dedup(Map(g, RowDay));
    }
  }

  /** The group callback with the per-day order and "now" fixed. */
  function Evaluator(order: seq<Row> -> seq<Row>, nowMillis: int): Entry<string, DateGroups> --> LegacyGroup {
    (e: Entry<string, DateGroups>) requires |e.acc| > 0 => EvaluateGroup(e, order, nowMillis)
  }

  /** Every group, evaluated, before the size filter. */
  function EvaluatedGroups(rows: seq<Row>, order: seq<Row> -> seq<Row>, nowMillis: int): (r: seq<LegacyGroup>)
    ensures |r| == |GroupRows(FilterRows(rows))|
    ensures forall i :: 0 <= i < |r| ==>
      |GroupRows(FilterRows(rows))[i].acc| > 0 && r[i] == EvaluateGroup(GroupRows(FilterRows(rows))[i], order, nowMillis)
  {
    GroupsHaveDates(FilterRows(rows));
    MapWhere(GroupRows(FilterRows(rows)), Evaluator(order, nowMillis))
  }

  /** The size filter and the final sort. */
  function FinishGroups(gs: seq<LegacyGroup>): (r: seq<LegacyGroup>)
    ensures multiset(r) == multiset(Filter(gs, IsBigEnough))
  {
    SortBy(Filter(gs, IsBigEnough), GroupLe())
  }

  /**
   * The finished list keeps only groups of more than three rows, lists every
   * active group before every inactive one, active groups by non-decreasing
   * priority, inactive ones by non-increasing last date.
   */
  lemma FinishGroupsOrdered(gs: seq<LegacyGroup>)
    ensures var r := FinishGroups(gs);
      forall i :: 0 <= i < |r| ==> TotalRows(r[i]) > TotalSetsThreshold && r[i] in gs
    ensures var r := FinishGroups(gs);
      forall i, j :: 0 <= i < j < |r| ==>
        && (r[j].isActive ==> r[i].isActive)
        && (r[i].isActive && r[j].isActive ==> Priority(r[i].progressStatus) <= Priority(r[j].progressStatus))
        && (!r[i].isActive && !r[j].isActive ==> r[i].lastPerformedDate >= r[j].lastPerformedDate)
  {
    var kept := Filter(gs, IsBigEnough);
    var r := FinishGroups(gs);
    forall i | 0 <= i < |r| ensures TotalRows(r[i]) > TotalSetsThreshold && r[i] in gs {
      assert r[i] in multiset(kept);
    }
    GroupLeTotalPreorder();
    SortBySorted(kept, GroupLe());
    forall i, j | 0 <= i < j < |r|
      ensures && (r[j].isActive ==> r[i].isActive)
              && (r[i].isActive && r[j].isActive ==> Priority(r[i].progressStatus) <= Priority(r[j].progressStatus))
              && (!r[i].isActive && !r[j].isActive ==> r[i].lastPerformedDate >= r[j].lastPerformedDate)
    {
      assert GroupLe()(r[i], r[j]);
    }
  }

  /**
   * The column part of the row mapping: the names, the date text and both
   * notes as read, the numbers through `parseFloat(x) || 0` and
   * `parseInt(x, 10) || 0`, and the RPE absent when empty, NaN or zero.
   * `Duration` is dropped.
   */
  function ReadRecord(p: Normalisers.Parsers, rec: Normalisers.StrongRow): (r: Row)
    ensures r.date == rec.date && r.notes == rec.notes && r.workoutNotes == rec.workoutNotes
    ensures r.workoutName == rec.workoutName && r.exerciseName == rec.exerciseName && r.setOrder == rec.setOrder
    ensures r.day == p.day(Normalisers.FirstWord(rec.date))
    ensures r.weight == p.float(rec.weight).GetOr(0.0) && r.reps == p.integer(rec.reps).GetOr(0)
    ensures r.distance == p.float(rec.distance).GetOr(0.0) && r.seconds == p.float(rec.seconds).GetOr(0.0)
    ensures r.rpe.Some? <==> rec.rpe != "" && p.float(rec.rpe).Some? && p.float(rec.rpe).value != 0.0
    ensures r.rpe.Some? ==> r.rpe.value == p.float(rec.rpe).value
  {
    Row(rec.date, p.day(Normalisers.FirstWord(rec.date)), rec.workoutName, rec.exerciseName, rec.setOrder,
        Normalisers.FloatOr0(p, rec.weight), Normalisers.IntOr0(p, rec.reps),
        Normalisers.FloatOr0(p, rec.distance), Normalisers.FloatOr0(p, rec.seconds),
        rec.notes, rec.workoutNotes, Normalisers.Rpe(p, rec.rpe))
  }

  /**
   * The older analyser reads the numbers, the day and the RPE of a row
   * exactly as the engine's Strong normaliser does; only the notes differ,
   * which the engine turns from a lone quote into undefined.
   */
  lemma ReadRecordAgreesWithEngine(p: Normalisers.Parsers, rec: Normalisers.StrongRow)
    ensures var r, s := ReadRecord(p, rec), Normalisers.StrongToRawSet(p, rec);
      && r.day == s.date && r.setOrder == s.setMark
      && r.weight == s.weight && r.reps == s.reps && r.distance == s.distance && r.seconds == s.seconds
      && r.rpe == s.rpe
      && (rec.notes != "\"" ==> s.notes == Some(r.notes))
  {
  }

  function ReadFn(p: Normalisers.Parsers): Normalisers.StrongRow -> Row { rec => ReadRecord(p, rec) }

  /** `jsonArray.map(...)` without the name normalisation. */
  function ReadAll(p: Normalisers.Parsers, recs: seq<Normalisers.StrongRow>): (rows: seq<Row>)
    ensures |rows| == |recs|
    ensures forall i :: 0 <= i < |recs| ==> rows[i] == ReadRecord(p, recs[i])
  {
    Map(recs, ReadFn(p))
  }

  /** The name part of the row mapping: both names normalised, the other fields as read. */
  function NormaliseNames(r: Row): (n: Row)
    ensures n.workoutName == NormalizeWorkoutName(r.workoutName)
    ensures n.exerciseName == NormalizeExerciseName(r.exerciseName)
    ensures n.(workoutName := r.workoutName, exerciseName := r.exerciseName) == r
  {
    r.(workoutName := NormalizeWorkoutName(r.workoutName), exerciseName := NormalizeExerciseName(r.exerciseName))
  }

  /** Normalising a normalised row changes nothing. */
  lemma NormaliseNamesIdempotent(r: Row)
    ensures NormaliseNames(NormaliseNames(r)) == NormaliseNames(r)
  {
    NormalizeWorkoutNameIdempotent(r.workoutName);
  }

  /**
   * Rows of the workouts "Pull" and "Pull Copy" (with any quotes and white
   * space around the names) share their `exercise|workout` key.
   */
  lemma PullCopyJoinsPull(a: Row, b: Row)
    requires Clean(a.workoutName) == "Pull Copy" && Clean(b.workoutName) == "Pull"
    requires Clean(a.exerciseName) == Clean(b.exerciseName)
    ensures LegacyKey(NormaliseNames(a)) == LegacyKey(NormaliseNames(b))
  {
  }

  /** Every row handed to the filters and the grouping has normalised names. */
  function NormaliseAll(rows: seq<Row>): (r: seq<Row>)
    ensures |r| == |rows|
    ensures forall i :: 0 <= i < |r| ==>
      && '"' !in r[i].workoutName && Trimmed(r[i].workoutName) && r[i].workoutName != "Pull Copy"
      && '"' !in r[i].exerciseName && Trimmed(r[i].exerciseName)
  {
    Map(rows, NormaliseNames)
  }

  /**
   * `parseCSVToJSON` from the rows as read (numbers already converted): the
   * names are normalised, then the rest of the pipeline runs.
   */
  function ParseRecords(rows: seq<Row>, order: seq<Row> -> seq<Row>, nowMillis: int): (r: seq<LegacyGroup>)
    ensures multiset(r) == multiset(Filter(EvaluatedGroups(NormaliseAll(rows), order, nowMillis), IsBigEnough))
  {
    ParseRows(NormaliseAll(rows), order, nowMillis)
  }

  /**
   * `parseCSVToJSON` from the CSV records as text: each record is mapped
   * (columns converted, names normalised), then the pipeline runs.
   */
  function ParseCsv(p: Normalisers.Parsers, recs: seq<Normalisers.StrongRow>, order: seq<Row> -> seq<Row>, nowMillis: int): (r: seq<LegacyGroup>)
    ensures multiset(r) == multiset(Filter(EvaluatedGroups(NormaliseAll(ReadAll(p, recs)), order, nowMillis), IsBigEnough))
  {
    ParseRecords(ReadAll(p, recs), order, nowMillis)
  }

  /** The rows the pipeline groups are the records, read and then normalised, one for one. */
  lemma MappedRecords(p: Normalisers.Parsers, recs: seq<Normalisers.StrongRow>)
    ensures |NormaliseAll(ReadAll(p, recs))| == |recs|
    ensures forall i :: 0 <= i < |recs| ==>
      var r := NormaliseAll(ReadAll(p, recs))[i];
      && r.workoutName == NormalizeWorkoutName(recs[i].workoutName)
      && r.exerciseName == NormalizeExerciseName(recs[i].exerciseName)
      && r.(workoutName := recs[i].workoutName, exerciseName := recs[i].exerciseName) == ReadRecord(p, recs[i])
  {
  }

  /** Feeding the pipeline rows it has already normalised gives the same result. */
  lemma ParseRecordsIdempotent(rows: seq<Row>, order: seq<Row> -> seq<Row>, nowMillis: int)
    ensures ParseRecords(NormaliseAll(rows), order, nowMillis) == ParseRecords(rows, order, nowMillis)
  {
    NormaliseAllIdempotent(rows);
  }

  lemma NormaliseAllIdempotent(rows: seq<Row>)
    ensures NormaliseAll(NormaliseAll(rows)) == NormaliseAll(rows)
  {
    forall i | 0 <= i < |rows| ensures NormaliseNames(NormaliseNames(rows[i])) == NormaliseNames(rows[i]) {
      NormaliseNamesIdempotent(rows[i]);
    }
    MapIdempotent(rows, NormaliseNames);
  }

  /**
   * The pure part of `parseCSVToJSON`, from the mapped rows to the sorted
   * groups. `order` stands for the per-day set sort inside
   * `comparePerformance`, whose comparator (the `"F"` cases and `parseInt`)
   * is not modelled; the contracts here hold for any function, and
   * `Reorders` states the one fact every array sort gives.
   */
  function ParseRows(rows: seq<Row>, order: seq<Row> -> seq<Row>, nowMillis: int): (r: seq<LegacyGroup>)
    ensures multiset(r) == multiset(Filter(EvaluatedGroups(rows, order, nowMillis), IsBigEnough))
  {
    FinishGroups(EvaluatedGroups(rows, order, nowMillis))
  }
}
