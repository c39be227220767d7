/**
 * Set-against-set and day-against-day verdicts of the progression engine.
 * The current engine and the older app copy differ only in the rep
 * tolerance, so both are one definition parameterised by `k`.
 */
module SetComparison {
  import opened Records

  /** Share of the previous reps a session may differ by before it is not comparable. */
  const EngineRepTolerance: real := 0.55
  const AppRepTolerance: real := 0.5

  function Abs(x: int): nat { if x < 0 then -x else x }

  /** More load: heavier, or the same weight for more reps. */
  predicate Outperforms(a: LiftSet, b: LiftSet) {
    a.weight > b.weight || (a.weight == b.weight && a.reps > b.reps)
  }

  predicate SameLoad(a: LiftSet, b: LiftSet) {
    a.weight == b.weight && a.reps == b.reps
  }

  /** The rep count moved by more than the tolerated share of the previous reps. */
  predicate RepsTooDifferent(k: real, prev: LiftSet, cur: LiftSet) {
    (Abs(prev.reps - cur.reps) as real) > (prev.reps as real) * k
  }

  /**
   * `compareSetPerformance`. The trailing `NotSure` of the source is kept as
   * the last branch; the first postcondition shows it is never taken.
   */
  function CompareSetPerformance(k: real, prev: LiftSet, cur: LiftSet): (r: PerformanceChange)
    ensures r == PerformanceChange.NotSure <==> RepsTooDifferent(k, prev, cur)
    ensures r == NoChange <==> !RepsTooDifferent(k, prev, cur) && SameLoad(prev, cur)
    ensures r == Increase <==> !RepsTooDifferent(k, prev, cur) && Outperforms(cur, prev)
    ensures r == Decrease <==> !RepsTooDifferent(k, prev, cur) && Outperforms(prev, cur)
  {
    if RepsTooDifferent(k, prev, cur) then PerformanceChange.NotSure
    else if prev.weight == cur.weight && prev.reps == cur.reps then NoChange
    else if cur.weight > prev.weight || (prev.weight == cur.weight && cur.reps > prev.reps) then Increase
    else if cur.weight < prev.weight || (prev.weight == cur.weight && cur.reps < prev.reps) then Decrease
    else PerformanceChange.NotSure
  }

  /** From zero previous reps, any positive rep count is out of tolerance. */
  lemma ZeroPreviousRepsNotSure(k: real, prev: LiftSet, cur: LiftSet)
    requires prev.reps == 0 && cur.reps > 0
    ensures CompareSetPerformance(k, prev, cur) == PerformanceChange.NotSure
  {
    assert (prev.reps as real) * k == 0.0;
  }

  /** A set compared with itself is `NoChange` exactly when its reps are not negative (for k > 0). */
  lemma CompareSelf(k: real, s: LiftSet)
    requires k > 0.0
    ensures CompareSetPerformance(k, s, s) == NoChange <==> s.reps >= 0
  {
    if s.reps < 0 {
      assert (s.reps as real) * k < 0.0;
    } else {
      assert (s.reps as real) * k >= 0.0;
    }
  }

  /**
   * Swapping the two sets turns an increase into a decrease or into
   * `NotSure` (the tolerance is measured against the first argument).
   */
  lemma CompareSwapped(k: real, a: LiftSet, b: LiftSet)
    requires CompareSetPerformance(k, a, b) == Increase
    ensures CompareSetPerformance(k, b, a) in {Decrease, PerformanceChange.NotSure}
  {
  }

  /** The first `n` positions of the two days compare `NoChange`. */
  ghost predicate AgreeBelow(k: real, p: seq<LiftSet>, c: seq<LiftSet>, lo: nat, hi: nat)
    requires hi <= |p| && hi <= |c|
  {
    forall j :: lo <= j < hi ==> CompareSetPerformance(k, p[j], c[j]) == NoChange
  }

  /** Verdict when one day is a prefix-wise match of the other: more sets win. */
  function LengthVerdict(np: nat, nc: nat): (r: PerformanceChange)
    ensures r == NoChange <==> np == nc
    ensures r == Increase <==> np < nc
  {
    if np < nc then Increase else if np > nc then Decrease else NoChange
  }

  function Min(a: nat, b: nat): nat { if a < b then a else b }

  /** The loop of `computePerformanceChange`, from position `i` on. */
  function Walk(k: real, p: seq<LiftSet>, c: seq<LiftSet>, i: nat): (r: PerformanceChange)
    requires i <= |p| && i <= |c|
    ensures r == NoChange <==> |p| == |c| && AgreeBelow(k, p, c, i, Min(|p|, |c|))
    ensures forall j :: i <= j < Min(|p|, |c|) && AgreeBelow(k, p, c, i, j)
              && CompareSetPerformance(k, p[j], c[j]) != NoChange
              ==> r == CompareSetPerformance(k, p[j], c[j])
    ensures AgreeBelow(k, p, c, i, Min(|p|, |c|)) ==> r == LengthVerdict(|p|, |c|)
    decreases |p| + |c| - 2 * i
  {
    if i >= |p| && i >= |c| then NoChange
    else if i >= |p| then Increase
    else if i >= |c| then Decrease
    else
      var change := CompareSetPerformance(k, p[i], c[i]);
      if change != NoChange then change
      else
        var r := Walk(k, p, c, i + 1);
        assert forall j :: i + 1 <= j <= Min(|p|, |c|) ==>
          (AgreeBelow(k, p, c, i, j) <==> AgreeBelow(k, p, c, i + 1, j));
        r
  }

  /**
   * `computePerformanceChange`: `NotSure` when either day has no sets;
   * otherwise the first position that does not compare `NoChange` decides,
   * a position missing on one side counting as more or fewer sets.
   */
  function ComputePerformanceChange(k: real, p: seq<LiftSet>, c: seq<LiftSet>): (r: PerformanceChange)
    ensures |p| == 0 || |c| == 0 ==> r == PerformanceChange.NotSure
    ensures |p| > 0 && |c| > 0 ==>
      forall j :: 0 <= j < Min(|p|, |c|) && AgreeBelow(k, p, c, 0, j)
        && CompareSetPerformance(k, p[j], c[j]) != NoChange
        ==> r == CompareSetPerformance(k, p[j], c[j])
    ensures |p| > 0 && |c| > 0 && AgreeBelow(k, p, c, 0, Min(|p|, |c|)) ==> r == LengthVerdict(|p|, |c|)
  {
    if |p| == 0 || |c| == 0 then PerformanceChange.NotSure
    else Walk(k, p, c, 0)
  }

  /** `NoChange` exactly for two non-empty days of equal length that agree at every position. */
  lemma NoChangeIffAllAgree(k: real, p: seq<LiftSet>, c: seq<LiftSet>)
    ensures ComputePerformanceChange(k, p, c) == NoChange
        <==> |p| > 0 && |p| == |c| && AgreeBelow(k, p, c, 0, |p|)
  {
    if |p| > 0 && |c| > 0 {
      var r := Walk(k, p, c, 0);
    }
  }

  /** The day verdict is `NotSure` only for an empty day or a first out-of-tolerance difference. */
  lemma NotSureCause(k: real, p: seq<LiftSet>, c: seq<LiftSet>)
    requires |p| > 0 && |c| > 0
    requires ComputePerformanceChange(k, p, c) == PerformanceChange.NotSure
    ensures exists j ::
      0 <= j < Min(|p|, |c|) && AgreeBelow(k, p, c, 0, j) && RepsTooDifferent(k, p[j], c[j])
  {
    var j := FirstDisagreement(k, p, c, 0);
    assert j < Min(|p|, |c|);
  }

  /** The first position at or after `i` that does not compare `NoChange`, or the shorter length. */
  function FirstDisagreement(k: real, p: seq<LiftSet>, c: seq<LiftSet>, i: nat): (j: nat)
    requires i <= |p| && i <= |c|
    requires AgreeBelow(k, p, c, 0, i)
    ensures i <= j <= Min(|p|, |c|) && AgreeBelow(k, p, c, 0, j)
    ensures j < Min(|p|, |c|) ==> CompareSetPerformance(k, p[j], c[j]) != NoChange
    decreases |p| - i
  {
    if i == |p| || i == |c| then i
    else if CompareSetPerformance(k, p[i], c[i]) != NoChange then i
    else FirstDisagreement(k, p, c, i + 1)
  }
}
