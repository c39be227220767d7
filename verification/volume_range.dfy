/**
 * The date arithmetic of `volumeDateRangeAtom`
 * (src/components/data/atoms/volume.ts): a window of whole weeks that ends
 * on the selected day (direction Before) or starts on it (any other
 * direction). Dates are day numbers; the stored settings are a value.
 */
module VolumeRange {
  import WeekIntervals

  datatype Direction = Before | After

  datatype Settings = Settings(selectedDuration: int, selectedDirection: Direction, selectedDate: int)

  datatype DateRange = DateRange(from: int, to: int)

  /** The settings before the user changes anything: four weeks back from `today`. */
  function DefaultSettings(today: int): Settings {
    Settings(4, Before, today)
  }

  function VolumeDateRange(s: Settings): (r: DateRange)
    ensures s.selectedDirection == Before ==> r.to == s.selectedDate
    ensures s.selectedDirection != Before ==> r.from == s.selectedDate
    ensures r.to - r.from + 1 == 7 * s.selectedDuration
  {
    if s.selectedDirection == Before then DateRange(s.selectedDate - 7 * s.selectedDuration + 1, s.selectedDate)
    else DateRange(s.selectedDate, s.selectedDate + 7 * s.selectedDuration - 1)
  }

  /** By default the window is the 28 days ending today. */
  lemma DefaultRange(today: int)
    ensures VolumeDateRange(DefaultSettings(today)) == DateRange(today - 27, today)
  {
  }

  /**
   * Cutting the window into weeks gives exactly the selected number of
   * weeks, the last one ending on the window's last day.
   */
  lemma RangeSplitsIntoWholeWeeks(s: Settings)
    requires s.selectedDuration >= 1
    ensures var r := VolumeDateRange(s);
      && WeekIntervals.WeekCount(r.from, r.to) == s.selectedDuration
      && r.from + 7 * (s.selectedDuration - 1) + 6 == r.to
  {
    var r := VolumeDateRange(s);
    assert (r.to - r.from) / 7 == s.selectedDuration - 1 by {
      assert r.to - r.from == 7 * (s.selectedDuration - 1) + 6;
    }
  }
}
