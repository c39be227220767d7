/**
 * `analyzeProgressiveOverload` of the older app copy
 * (src/app/engine/progression.ts): group the sets by lift and by day, then
 * sort every lift into an Active, History or New bucket that the function
 * never returns.
 */
module AppProgression {
  import opened Records
  import opened Grouping
  import opened Sorting
  import opened Seqs
  import opened LiftGrouping
  import Progression

  function DayDate(d: DayEntry): int { d.date }

  /** `sortedDates[sortedDates.length - 1]`: the latest date of a lift. */
  function LatestDate(days: seq<DayEntry>): (m: int)
    requires |days| > 0
    ensures exists i :: 0 <= i < |days| && days[i].date == m
    ensures forall i :: 0 <= i < |days| ==> days[i].date <= m
  {
    var dates := Map(days, DayDate);
    IntLeTotalPreorder();
    SortByLastIsGreatest(dates, IntLe());
    var m := SortBy(dates, IntLe())[|dates| - 1];
    var i :| 0 <= i < |dates| && dates[i] == m;
    m
  }

  /**
   * The bucket of one lift, "now" being `nowMillis`: History when its latest
   * day's midnight is before the threshold, otherwise New with fewer than
   * four days, otherwise Active.
   */
  function Bucket(l: AppLift, nowMillis: int): (st: ActivityStatus)
    ensures st == History <==> (|l.workouts| > 0 &&
      forall i :: 0 <= i < |l.workouts| ==> Progression.Midnight(l.workouts[i].date) < Progression.ActivityThreshold(nowMillis))
    ensures st == Active ==> |l.workouts| >= Progression.TotalDaysThreshold
    ensures st == New ==> |l.workouts| < Progression.TotalDaysThreshold
  {
    if |l.workouts| > 0 && Progression.Midnight(LatestDate(l.workouts)) < Progression.ActivityThreshold(nowMillis)
    then History
    else if |l.workouts| < Progression.TotalDaysThreshold then New
    else Active
  }

  /** The dates of the days strictly increase. */
  ghost predicate Chronological(days: seq<DayEntry>) {
    forall i, j :: 0 <= i < j < |days| ==> days[i].date < days[j].date
  }

  /**
   * With days in date order the latest date is the last day's, so the app's
   * bucket is the engine's activity status.
   */
  lemma BucketAgreesWithEngine(l: AppLift, nowMillis: int)
    requires Chronological(l.workouts)
    ensures Bucket(l, nowMillis) == Progression.GetActivityStatus(l.workouts, nowMillis)
  {
    if |l.workouts| > 0 {
      var m := LatestDate(l.workouts);
      var i :| 0 <= i < |l.workouts| && l.workouts[i].date == m;
      assert i == |l.workouts| - 1;
    }
  }

  /** The three buckets after the `forEach` over the lifts. */
  datatype Buckets = Buckets(active: seq<AppLift>, history: seq<AppLift>, newLifts: seq<AppLift>)

  /** The bucket of status `st`. */
  function Of(b: Buckets, st: ActivityStatus): seq<AppLift> {
    match st
    case Active => b.active
    case History => b.history
    case New => b.newLifts
  }

  /** The `switch` on the status: push the lift onto the bucket of status `st`. */
  function AddTo(b: Buckets, l: AppLift, st: ActivityStatus): (r: Buckets)
    ensures Of(r, st) == Of(b, st) + [l]
    ensures forall o :: o != st ==> Of(r, o) == Of(b, o)
  {
    match st
    case Active => b.(active := b.active + [l])
    case History => b.(history := b.history + [l])
    case New => b.(newLifts := b.newLifts + [l])
  }

  /** The lifts whose bucket at `nowMillis` is `st`. */
  function BucketIs(nowMillis: int, st: ActivityStatus): AppLift -> bool { l => Bucket(l, nowMillis) == st }

  /** The `forEach` over the lifts: each bucket holds the lifts of its status, in input order. */
  function SortIntoBuckets(ls: seq<AppLift>, nowMillis: int): (r: Buckets)
    ensures forall st :: Of(r, st) == Filter(ls, BucketIs(nowMillis, st))
  {
    if |ls| == 0 then Buckets([], [], [])
    else
      var init, l := ls[..|ls| - 1], ls[|ls| - 1];
      var b := SortIntoBuckets(init, nowMillis);
      var st := Bucket(l, nowMillis);
      assert forall o :: Filter(ls, BucketIs(nowMillis, o)) == Filter(init, BucketIs(nowMillis, o)) + (if o == st then [l] else []);
      AddTo(b, l, st)
  }

  /** All lifts held by the buckets, with multiplicity. */
  ghost function Contents(b: Buckets): multiset<AppLift> {
    multiset(b.active) + multiset(b.history) + multiset(b.newLifts)
  }

  /** Every lift in a bucket has that bucket's status under `status`. */
  ghost predicate HoldStatus(b: Buckets, status: AppLift -> ActivityStatus) {
    && (forall i :: 0 <= i < |b.active| ==> status(b.active[i]) == Active)
    && (forall i :: 0 <= i < |b.history| ==> status(b.history[i]) == History)
    && (forall i :: 0 <= i < |b.newLifts| ==> status(b.newLifts[i]) == New)
  }

  function BucketAt(nowMillis: int): AppLift -> ActivityStatus { l => Bucket(l, nowMillis) }

  lemma AddToKeepsStatus(b: Buckets, l: AppLift, status: AppLift -> ActivityStatus)
    requires HoldStatus(b, status)
    ensures HoldStatus(AddTo(b, l, status(l)), status)
  {
  }

  /** The buckets after the `forEach`: each lift sits in the bucket of its status. */
  lemma {:induction false} BucketsHoldTheirStatus(ls: seq<AppLift>, nowMillis: int)
    ensures HoldStatus(SortIntoBuckets(ls, nowMillis), BucketAt(nowMillis))
  {
    if |ls| > 0 {
      BucketsHoldTheirStatus(ls[..|ls| - 1], nowMillis);
      AddToKeepsStatus(SortIntoBuckets(ls[..|ls| - 1], nowMillis), ls[|ls| - 1], BucketAt(nowMillis));
    }
  }

  /** Pushing a lift grows exactly one bucket, by exactly that lift. */
  lemma AddToAddsOne(b: Buckets, l: AppLift, st: ActivityStatus)
    ensures Contents(AddTo(b, l, st)) == Contents(b) + multiset{l}
  {
  }

  /** Every lift lands in exactly one bucket: together the buckets are the lifts. */
  lemma {:induction false} BucketsPartition(ls: seq<AppLift>, nowMillis: int)
    ensures Contents(SortIntoBuckets(ls, nowMillis)) == multiset(ls)
  {
    if |ls| > 0 {
      BucketsPartition(ls[..|ls| - 1], nowMillis);
      PartitionStep(SortIntoBuckets(ls[..|ls| - 1], nowMillis), ls, Bucket(ls[|ls| - 1], nowMillis));
    }
  }

  lemma PartitionStep(b: Buckets, ls: seq<AppLift>, st: ActivityStatus)
    requires |ls| > 0 && Contents(b) == multiset(ls[..|ls| - 1])
    ensures Contents(AddTo(b, ls[|ls| - 1], st)) == multiset(ls)
  {
    AddToAddsOne(b, ls[|ls| - 1], st);
    assert ls == ls[..|ls| - 1] + [ls[|ls| - 1]];
  }

  /**
   * `analyzeProgressiveOverload`: the lifts of the dictionary in key order,
   * with no filter. The buckets are computed and discarded, so the result
   * does not depend on "now".
   */
  function AnalyzeProgressiveOverload(sets: seq<RawSet>): (r: seq<AppLift>)
    ensures |sets| == 0 ==> r == []
  {
    ToAppLifts(GroupRaw(AppProgression, sets))
  }

  /** One lift per distinct key in first-seen order, each holding exactly its sets' days. */
  lemma AnalyzeProgressiveOverloadCharacterised(sets: seq<RawSet>)
    ensures |AnalyzeProgressiveOverload(sets)| == |LiftKeys(sets)|
    ensures forall i :: 0 <= i < |AnalyzeProgressiveOverload(sets)| ==>
      && AnalyzeProgressiveOverload(sets)[i].name == LiftKeys(sets)[i]
      && |AnalyzeProgressiveOverload(sets)[i].workouts| > 0
      && DaysOf(AppProgression, SetsOfLift(sets, LiftKeys(sets)[i]), AnalyzeProgressiveOverload(sets)[i].workouts)
  {
    AppLiftsCharacterised(AppProgression, sets);
  }

  /** The parsing copy and this copy group the same sets into lifts with the same names and day dates. */
  lemma AppCopiesGroupAlike(sets: seq<RawSet>)
    ensures |AnalyzeProgressiveOverload(sets)| == |AppGroupByLift(sets)|
    ensures forall i :: 0 <= i < |AppGroupByLift(sets)| ==>
      && AnalyzeProgressiveOverload(sets)[i].name == AppGroupByLift(sets)[i].name
      && |AnalyzeProgressiveOverload(sets)[i].workouts| == |AppGroupByLift(sets)[i].workouts|
      && forall j :: 0 <= j < |AppGroupByLift(sets)[i].workouts| ==>
           AnalyzeProgressiveOverload(sets)[i].workouts[j].date == AppGroupByLift(sets)[i].workouts[j].date
  {
    AnalyzeProgressiveOverloadCharacterised(sets);
    AppGroupByLiftCharacterised(sets);
    var a, b := AnalyzeProgressiveOverload(sets), AppGroupByLift(sets);
    forall i | 0 <= i < |b|
      ensures |a[i].workouts| == |b[i].workouts|
      ensures forall j :: 0 <= j < |b[i].workouts| ==> a[i].workouts[j].date == b[i].workouts[j].date
    {
      SameDayDates(SetsOfLift(sets, LiftKeys(sets)[i]), a[i].workouts, b[i].workouts);
    }
  }

  /** Days built from the same sets by either copy fall on the same dates. */
  lemma SameDayDates(g: seq<RawSet>, x: seq<DayEntry>, y: seq<DayEntry>)
    requires DaysOf(AppProgression, g, x) && DaysOf(AppParsing, g, y)
    ensures |x| == |y|
    ensures forall j :: 0 <= j < |y| ==> x[j].date == y[j].date
  {
  }
}
