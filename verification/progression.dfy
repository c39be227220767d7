/**
 * The current progression engine (src/engine/progression.ts): per-day
 * verdicts, the multi-session progress status, the activity status relative
 * to "now", and the final ordering of lifts by status.
 */
module Progression {
  import opened Wrappers
  import opened Records
  import opened Sorting
  import opened SetComparison
  import opened LiftGrouping
  import opened Seqs

  /** Fewer days than this and the progression is not assessed. */
  const TotalDaysThreshold: nat := 4
  /** A lift last performed more than this many days ago is history. */
  const ActiveDaysThreshold: nat := 15
  /** Days taken into account by the increase/decrease vote. */
  const RecentCount: nat := 5

  // ---------------------------------------------------------------------------
  // Windows over the day list

  predicate Is(d: DayEntry, c: PerformanceChange) { d.performanceChange == Some(c) }

  /** `every(is(c))`. */
  predicate AllAre(ds: seq<DayEntry>, c: PerformanceChange) { forall i :: 0 <= i < |ds| ==> Is(ds[i], c) }

  /** `some(is(c))`. */
  predicate AnyIs(ds: seq<DayEntry>, c: PerformanceChange) { exists i :: 0 <= i < |ds| && Is(ds[i], c) }

  /** `filter(is(c)).length`. */
  function CountOf(ds: seq<DayEntry>, c: PerformanceChange): (n: nat)
    ensures n <= |ds|
    ensures n == 0 <==> !AnyIs(ds, c)
    ensures n == |Filter(ds, Shows(c))|
  {
    if |ds| == 0 then 0
    else
      var p := CountOf(ds[..|ds| - 1], c);
      assert forall i :: 0 <= i < |ds| - 1 ==> ds[..|ds| - 1][i] == ds[i];
      p + (if Is(ds[|ds| - 1], c) then 1 else 0)
  }

  // ---------------------------------------------------------------------------
  // computeProgressStatus

  /**
   * Enough days, and the last two neither all increased nor all decreased:
   * the rules after the two-day rules apply.
   */
  predicate PastTwoDayRules(days: seq<DayEntry>) {
    && |days| >= TotalDaysThreshold
    && !AllAre(Last(days, 2), Increase) && !AllAre(Last(days, 2), Decrease)
  }

  /** The two-day and three-day rules have not fired: the last-five vote decides. */
  predicate VoteDecides(days: seq<DayEntry>) {
    PastTwoDayRules(days) && !AllAre(Last(days, 3), NoChange)
  }

  /**
   * `computeProgressStatus` with the default window of five days. The
   * postconditions follow the rules in their priority order and pin the label
   * for every input: `NotSure` below four days; `Progressing` on two
   * increases; `Regressing` on two decreases; `Plateaued` on three unchanged
   * days; then the vote over the last five, where no increase gives
   * `Regressing` or `Plateaued`, and otherwise `Struggling` and `AtRisk` are
   * each stated exactly.
   */
  function ComputeProgressStatus(days: seq<DayEntry>): (r: ProgressStatus)
    ensures r == ProgressStatus.NotSure <==> |days| < TotalDaysThreshold
    ensures |days| >= TotalDaysThreshold ==>
      (r == Progressing <==> AllAre(Last(days, 2), Increase))
    ensures |days| >= TotalDaysThreshold && AllAre(Last(days, 2), Decrease) ==> r == Regressing
    ensures PastTwoDayRules(days) && AllAre(Last(days, 3), NoChange) ==> r == Plateaued
    ensures VoteDecides(days) && CountOf(Last(days, RecentCount), Increase) == 0 ==>
      r == (if CountOf(Last(days, RecentCount), Decrease) > 0 then Regressing else Plateaued)
    ensures r == Struggling <==>
      && VoteDecides(days)
      && var inc, dec := CountOf(Last(days, RecentCount), Increase), CountOf(Last(days, RecentCount), Decrease);
         inc > 0 && (dec == 0 || inc > dec || !AnyIs(Last(days, 2), Decrease))
    ensures r == AtRisk <==>
      && |days| >= TotalDaysThreshold
      && AnyIs(Last(days, 2), Decrease) && !AllAre(Last(days, 2), Decrease)
      && 0 < CountOf(Last(days, RecentCount), Increase) <= CountOf(Last(days, RecentCount), Decrease)
    ensures r == Plateaued ==>
      forall d :: d in Last(days, 2) ==> !Is(d, Increase) && !Is(d, Decrease)
    ensures r == Regressing ==> AnyIs(Last(days, RecentCount), Decrease)
    ensures r == Struggling ==> AnyIs(Last(days, RecentCount), Increase) && !AllAre(Last(days, 2), Increase)
  {
    AllOfLastThree(days, NoChange);
    NotBothWays(days);
    AnyOfLastTwo(days, Decrease, RecentCount);
    AnyOfLastTwo(days, Increase, RecentCount);
    if |days| < TotalDaysThreshold then ProgressStatus.NotSure
    else
      var lastTwo := Last(days, 2);
      if AllAre(lastTwo, Increase) then Progressing
      else if AllAre(lastTwo, Decrease) then Regressing
      else if AllAre(Last(days, 3), NoChange) then Plateaued
      else
        var recent := Last(days, RecentCount);
        var inc := CountOf(recent, Increase);
        var dec := CountOf(recent, Decrease);
        if inc == 0 then (if dec > 0 then Regressing else Plateaued)
        else if dec == 0 || inc > dec || !AnyIs(lastTwo, Decrease) then Struggling
        else AtRisk
  }

  /** If all of the last three days show `c`, so do the last two. */
  lemma {:induction false} AllOfLastThree(days: seq<DayEntry>, c: PerformanceChange)
    ensures AllAre(Last(days, 3), c) ==> AllAre(Last(days, 2), c)
  {
    LastOfLast(days, 2, 3);
  }

  /** A non-empty day list cannot end both in increases and in decreases. */
  lemma {:induction false} NotBothWays(days: seq<DayEntry>)
    ensures |days| > 0 ==> !(AllAre(Last(days, 2), Increase) && AllAre(Last(days, 2), Decrease))
  {
    if |days| > 0 {
      var l2 := Last(days, 2);
      assert Is(l2[|l2| - 1], Increase) ==> !Is(l2[|l2| - 1], Decrease);
    }
  }

  /** A change among the last two days is also among the last `n >= 2`. */
  lemma {:induction false} AnyOfLastTwo(days: seq<DayEntry>, c: PerformanceChange, n: nat)
    requires 2 <= n
    ensures AnyIs(Last(days, 2), c) ==> AnyIs(Last(days, n), c)
  {
    ExistsInLongerLast(days, 2, n, Shows(c));
  }

  /** `is(c)` as a callback. */
  function Shows(c: PerformanceChange): DayEntry -> bool { d => Is(d, c) }

  /** Only the last five days matter. */
  lemma {:induction false} ProgressStatusWindow(days: seq<DayEntry>)
    requires |days| >= TotalDaysThreshold
    ensures ComputeProgressStatus(days) == ComputeProgressStatus(Last(days, RecentCount))
  {
    LastOfLastIsLast(days, 2, RecentCount);
    LastOfLastIsLast(days, 3, RecentCount);
    LastOfLastIsLast(days, RecentCount, RecentCount);
  }

  /** Older history in front of five or more days does not change the status. */
  lemma ProgressStatusIgnoresOlderDays(older: seq<DayEntry>, days: seq<DayEntry>)
    requires |days| >= RecentCount
    ensures ComputeProgressStatus(older + days) == ComputeProgressStatus(days)
  {
    LastOfConcat(older, days, RecentCount);
    ProgressStatusWindow(older + days);
    ProgressStatusWindow(days);
  }

  // ---------------------------------------------------------------------------
  // getActivityStatus

  const MillisPerDay: nat := 86_400_000

  /**
   * `parseISO` of a `yyyy-MM-dd` date: local midnight of that day, in
   * milliseconds since the epoch of local time.
   */
  function Midnight(day: int): int { day * MillisPerDay }

  /** `addDays(new Date(), -15)`: the same time of day, fifteen days earlier. */
  function ActivityThreshold(nowMillis: int): int { nowMillis - ActiveDaysThreshold * MillisPerDay }

  function LastDate(days: seq<DayEntry>): Option<int> {
    if |days| == 0 then None else Some(days[|days| - 1].date)
  }

  /** `getActivityStatus`, "now" being `nowMillis`. */
  function GetActivityStatus(days: seq<DayEntry>, nowMillis: int): (r: ActivityStatus)
    ensures r == History ==> |days| > 0
    ensures r == New <==> !(r == History) && |days| < TotalDaysThreshold
  {
    var last := LastDate(days);
    if last.Some? && Midnight(last.value) < ActivityThreshold(nowMillis) then History
    else if |days| < TotalDaysThreshold then New
    else Active
  }

  /**
   * In whole days: with `today` the current day and `t` the time of day, a
   * lift is history when its last day is more than fifteen days before today,
   * or exactly fifteen days before today and it is past midnight.
   */
  lemma ActivityBoundary(days: seq<DayEntry>, nowMillis: int)
    requires |days| > 0
    ensures var today := nowMillis / MillisPerDay;
      var t := nowMillis % MillisPerDay;
      var last := days[|days| - 1].date;
      var history := last < today - ActiveDaysThreshold || (last == today - ActiveDaysThreshold && t > 0);
      GetActivityStatus(days, nowMillis) == History <==> history
  {
    var today := nowMillis / MillisPerDay;
    var t := nowMillis % MillisPerDay;
    var last := days[|days| - 1].date;
    assert nowMillis == today * MillisPerDay + t;
    assert ActivityThreshold(nowMillis) == (today - ActiveDaysThreshold) * MillisPerDay + t;
    if last < today - ActiveDaysThreshold {
      assert Midnight(last) <= (today - ActiveDaysThreshold - 1) * MillisPerDay;
    } else if last > today - ActiveDaysThreshold {
      assert Midnight(last) >= (today - ActiveDaysThreshold + 1) * MillisPerDay;
    }
  }

  /** Performed within the last fourteen days, a lift is never history. */
  lemma RecentLiftIsNotHistory(days: seq<DayEntry>, nowMillis: int)
    requires |days| > 0 && days[|days| - 1].date >= nowMillis / MillisPerDay - ActiveDaysThreshold + 1
    ensures GetActivityStatus(days, nowMillis) != History
  {
    ActivityBoundary(days, nowMillis);
  }

  // ---------------------------------------------------------------------------
  // Ordering

  /** `PROGRESSION_STATUS_ORDER`. */
  function StatusRank(s: ProgressStatus): (n: nat)
    ensures 1 <= n <= 6
  {
    match s
    case Regressing => 1
    case Plateaued => 2
    case AtRisk => 3
    case Struggling => 4
    case Progressing => 5
    case NotSure => 6
  }

  /** The ranks tell all six statuses apart. */
  lemma StatusRankInjective(a: ProgressStatus, b: ProgressStatus)
    ensures StatusRank(a) == StatusRank(b) <==> a == b
  {
  }

  /** `compareProgressionStatus`; every lift has a status, so the `: 0` fallback is never used. */
  function CompareProgressionStatus(a: LiftHistory, b: LiftHistory): (r: int)
    ensures r == 0 <==> a.progressStatus == b.progressStatus
    ensures r < 0 <==> StatusRank(a.progressStatus) < StatusRank(b.progressStatus)
    ensures a.progressStatus == Regressing && b.progressStatus != Regressing ==> r < 0
    ensures a.progressStatus == ProgressStatus.NotSure && b.progressStatus != ProgressStatus.NotSure ==> r > 0
  {
    StatusRankInjective(a.progressStatus, b.progressStatus);
    StatusRank(a.progressStatus) - StatusRank(b.progressStatus)
  }

  function ByStatus(): (LiftHistory, LiftHistory) -> bool {
    (a: LiftHistory, b: LiftHistory) => CompareProgressionStatus(a, b) <= 0
  }

  /** The comparator is consistent, so the sort is well defined. */
  lemma ByStatusTotalPreorder()
    ensures TotalPreorder(ByStatus())
  {
  }

  // ---------------------------------------------------------------------------
  // analyzeProgressiveOverload

  /** Day verdicts: the first day `NoChange`, every later day against the day before it. */
  function WithChanges(days: seq<DayEntry>): (r: seq<DayEntry>)
    requires |days| > 0
    ensures |r| == |days|
    ensures r[0] == days[0].(performanceChange := Some(NoChange))
    ensures forall i :: 0 < i < |days| ==>
      r[i] == days[i].(performanceChange := Some(ComputePerformanceChange(EngineRepTolerance, days[i - 1].sets, days[i].sets)))
  {
    if |days| == 1 then [days[0].(performanceChange := Some(NoChange))]
    else
      var n := |days| - 1;
      WithChanges(days[..n])
        + [days[n].(performanceChange := Some(ComputePerformanceChange(EngineRepTolerance, days[n - 1].sets, days[n].sets)))]
  }

  /** The `map` callback: verdicts, then status, then activity. */
  function Annotate(l: LiftHistory, nowMillis: int): (r: LiftHistory)
    requires |l.workouts| > 0
    ensures r.name == l.name && r.sessionNames == l.sessionNames
    ensures |r.workouts| == |l.workouts|
    ensures r.workouts == WithChanges(l.workouts)
    ensures r.progressStatus == ComputeProgressStatus(r.workouts)
    ensures r.activityStatus == Some(GetActivityStatus(r.workouts, nowMillis))
  {
    var days := WithChanges(l.workouts);
    l.(workouts := days,
       progressStatus := ComputeProgressStatus(days),
       activityStatus := Some(GetActivityStatus(days, nowMillis)))
  }

  function AnnotateAll(ls: seq<LiftHistory>, nowMillis: int): (r: seq<LiftHistory>)
    requires forall i :: 0 <= i < |ls| ==> |ls[i].workouts| > 0
    ensures |r| == |ls|
    ensures forall i :: 0 <= i < |ls| ==> r[i] == Annotate(ls[i], nowMillis)
  {
    MapWhere(ls, Annotator(nowMillis))
  }

  /** The `map` callback, defined on lifts with days. */
  function Annotator(nowMillis: int): LiftHistory --> LiftHistory {
    (l: LiftHistory) requires |l.workouts| > 0 => Annotate(l, nowMillis)
  }

  lemma GroupedLiftsHaveDays(sets: seq<RawSet>)
    ensures forall i :: 0 <= i < |GroupByLift(sets)| ==> |GroupByLift(sets)[i].workouts| > 0
  {
    GroupByLiftCharacterised(sets);
  }

  /** The grouped lifts, annotated, before sorting. */
  function AnnotatedLifts(sets: seq<RawSet>, nowMillis: int): (r: seq<LiftHistory>)
    ensures |r| == |GroupByLift(sets)|
    ensures forall i :: 0 <= i < |r| ==>
      |GroupByLift(sets)[i].workouts| > 0 && r[i] == Annotate(GroupByLift(sets)[i], nowMillis)
  {
    GroupedLiftsHaveDays(sets);
    AnnotateAll(GroupByLift(sets), nowMillis)
  }

  /** `analyzeProgressiveOverload`, "now" being `nowMillis`. */
  function AnalyzeProgressiveOverload(sets: seq<RawSet>, nowMillis: int): (r: seq<LiftHistory>)
    ensures multiset(r) == multiset(AnnotatedLifts(sets, nowMillis))
  {
    SortBy(AnnotatedLifts(sets, nowMillis), ByStatus())
  }

  /**
   * The result holds each grouped lift exactly once, annotated, ordered by
   * `PROGRESSION_STATUS_ORDER`, lifts of equal status in grouping order.
   */
  lemma AnalyzeProgressiveOverloadOrdered(sets: seq<RawSet>, nowMillis: int)
    ensures forall i, j :: 0 <= i < j < |AnalyzeProgressiveOverload(sets, nowMillis)| ==>
      StatusRank(AnalyzeProgressiveOverload(sets, nowMillis)[i].progressStatus)
        <= StatusRank(AnalyzeProgressiveOverload(sets, nowMillis)[j].progressStatus)
    ensures forall c: LiftHistory ::
      Equivalents(AnalyzeProgressiveOverload(sets, nowMillis), c, ByStatus())
        == Equivalents(AnnotatedLifts(sets, nowMillis), c, ByStatus())
  {
    var annotated := AnnotatedLifts(sets, nowMillis);
    ByStatusTotalPreorder();
    SortBySorted(annotated, ByStatus());
    var r := AnalyzeProgressiveOverload(sets, nowMillis);
    assert SortedBy(r, ByStatus());
    forall i, j | 0 <= i < j < |r| ensures StatusRank(r[i].progressStatus) <= StatusRank(r[j].progressStatus) {
      assert ByStatus()(r[i], r[j]);
    }
    forall c: LiftHistory ensures Equivalents(r, c, ByStatus()) == Equivalents(annotated, c, ByStatus()) {
      SortByStable(annotated, c, ByStatus());
    }
  }
  /**
   * Every lift in the result is one of the grouped lifts, carrying the
   * verdicts, the status and the activity computed from its own days.
   */
  lemma {:induction false} AnalyzedLiftsCarryStatus(sets: seq<RawSet>, nowMillis: int)
    ensures forall i :: 0 <= i < |AnalyzeProgressiveOverload(sets, nowMillis)| ==>
      var l := AnalyzeProgressiveOverload(sets, nowMillis)[i];
      l.progressStatus == ComputeProgressStatus(l.workouts)
      && l.activityStatus == Some(GetActivityStatus(l.workouts, nowMillis))
      && exists j :: 0 <= j < |GroupByLift(sets)| && l == Annotate(GroupByLift(sets)[j], nowMillis)
  {
    var r := AnalyzeProgressiveOverload(sets, nowMillis);
    var annotated := AnnotatedLifts(sets, nowMillis);
    forall i | 0 <= i < |r|
      ensures r[i].progressStatus == ComputeProgressStatus(r[i].workouts)
      ensures r[i].activityStatus == Some(GetActivityStatus(r[i].workouts, nowMillis))
      ensures exists j :: 0 <= j < |GroupByLift(sets)| && r[i] == Annotate(GroupByLift(sets)[j], nowMillis)
    {
      assert r[i] in multiset(r);
      assert r[i] in annotated;
      var j :| 0 <= j < |annotated| && annotated[j] == r[i];
      assert r[i] == Annotate(GroupByLift(sets)[j], nowMillis);
    }
  }
}
