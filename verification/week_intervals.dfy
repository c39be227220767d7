/**
 * `getWeeks` (src/engine/volume/week-intervals.ts): consecutive seven-day
 * spans starting at `from`, for as long as a span starts on or before `to`.
 * Dates are day numbers; a date the date library cannot parse is `None`,
 * which makes every comparison false and so yields no weeks.
 */
module WeekIntervals {
  import opened Wrappers

  /** A week as its first and last day; the display label is not modelled. */
  datatype Week = Week(start: int, end: int)

  /** Number of weeks from `from` through `to`: the ceiling of the span's length over seven. */
  function WeekCount(from: int, to: int): nat {
    if from <= to then (to - from) / 7 + 1 else 0
  }

  method GetWeeks(from: Option<int>, to: Option<int>) returns (weeks: seq<Week>)
    ensures from.None? || to.None? ==> weeks == []
    ensures from.Some? && to.Some? ==> |weeks| == WeekCount(from.value, to.value)
    ensures from.Some? ==> forall i :: 0 <= i < |weeks| ==> weeks[i].start == from.value + 7 * i && weeks[i].end == weeks[i].start + 6
  {
    weeks := [];
    if from.None? || to.None? {
      return;
    }
    var first, last := from.value, to.value;
    var current := first;
    // `current.isBefore(end)`: a day starts before the end of `to` exactly when it is not after `to`.
    while current <= last
      invariant current == first + 7 * |weeks|
      invariant first <= last ==> current <= last + 7
      invariant |weeks| > 0 ==> current - 7 <= last
      invariant forall i :: 0 <= i < |weeks| ==> weeks[i].start == first + 7 * i && weeks[i].end == weeks[i].start + 6
      decreases last - current
    {
      var weekEnd := current + 6;
      weeks := weeks + [Week(current, weekEnd)];
      current := weekEnd + 1;
    }
    if first <= last {
      CountFromBounds(last - first, |weeks|);
    }
  }

  lemma CountFromBounds(span: int, n: int)
    requires 0 <= span && 7 * (n - 1) <= span < 7 * n
    ensures n == span / 7 + 1
  {
  }

  /** The weeks meet end to start: each next start is the day after the previous end. */
  lemma Contiguous(weeks: seq<Week>, from: int)
    requires forall i :: 0 <= i < |weeks| ==> weeks[i].start == from + 7 * i && weeks[i].end == weeks[i].start + 6
    ensures forall i :: 0 < i < |weeks| ==> weeks[i].start == weeks[i - 1].end + 1
  {
  }

  /**
   * The weeks cover the range: the last one starts on or before `to` and
   * ends on or after it, and every day from `from` to `to` lies in exactly
   * one week.
   */
  lemma CoversRange(weeks: seq<Week>, from: int, to: int)
    requires from <= to
    requires |weeks| == WeekCount(from, to)
    requires forall i :: 0 <= i < |weeks| ==> weeks[i].start == from + 7 * i && weeks[i].end == weeks[i].start + 6
    ensures weeks[|weeks| - 1].start <= to <= weeks[|weeks| - 1].end
    ensures forall d :: from <= d <= to ==> 0 <= WeekOf(from, d) < |weeks| && InWeek(weeks[WeekOf(from, d)], d)
    ensures forall d, i, j :: 0 <= i < |weeks| && 0 <= j < |weeks| && InWeek(weeks[i], d) && InWeek(weeks[j], d) ==> i == j
  {
    var n := |weeks|;
    assert weeks[n - 1].start == from + 7 * ((to - from) / 7);
  }

  /** Position of the week holding day `d`, counting from the week that starts at `from`. */
  function WeekOf(from: int, d: int): int { (d - from) / 7 }

  predicate InWeek(w: Week, d: int) { w.start <= d <= w.end }

  /** A single day yields exactly one week, starting on that day. */
  lemma SingleDay(d: int, weeks: seq<Week>)
    requires |weeks| == WeekCount(d, d)
    requires forall i :: 0 <= i < |weeks| ==> weeks[i].start == d + 7 * i && weeks[i].end == weeks[i].start + 6
    ensures weeks == [Week(d, d + 6)]
  {
  }
}
