/**
 * The records the analytics engine consumes and produces. Calendar dates are
 * day numbers (consecutive integers for consecutive days); optional fields are
 * `Option`s, `None` standing for JavaScript's `undefined`.
 */
module Records {
  import opened Wrappers

  /** Day-over-day verdict for one lift. */
  datatype PerformanceChange = Increase | Decrease | NoChange | NotSure

  /** Multi-session trend label of the current engine. */
  datatype ProgressStatus = Progressing | Struggling | AtRisk | Plateaued | Regressing | NotSure

  /** Recency / frequency label of a lift. */
  datatype ActivityStatus = Active | History | New

  /** A canonical set as the normaliser produces it (`RawSetData`). */
  datatype RawSet = RawSet(
    date: int,
    workoutName: string,
    exerciseName: string,
    setMark: string,
    weight: real,
    reps: int,
    distance: real,
    seconds: real,
    notes: Option<string>,
    workoutNotes: Option<string>,
    rpe: Option<real>)

  /** One performed set inside a day (`LiftSetData`). */
  datatype LiftSet = LiftSet(setMark: string, weight: real, reps: int, rpe: Option<real>, notes: Option<string>)

  /**
   * One training day of one lift (`LiftDayData`). The older copies call the
   * session note `note` and record no lift note.
   */
  datatype DayEntry = DayEntry(
    date: int,
    sessionNotes: Option<string>,
    liftNotes: Option<string>,
    sets: seq<LiftSet>,
    performanceChange: Option<PerformanceChange>)

  /** One tracked lift: an exercise under one workout name (`LiftHistory`). */
  datatype LiftHistory = LiftHistory(
    name: string,
    sessionNames: seq<string>,
    workouts: seq<DayEntry>,
    progressStatus: ProgressStatus,
    activityStatus: Option<ActivityStatus>)

  /** JavaScript's `s || undefined` on an optional string: the empty string is falsy. */
  function OrUndefined(s: Option<string>): (r: Option<string>)
    ensures r.Some? <==> s.Some? && s.value != ""
    ensures r.Some? ==> r == s
  {
    if s.Some? && s.value != "" then s else None
  }

  /** Total number of sets over a list of days. */
  function SetCount(days: seq<DayEntry>): nat
  {
    if |days| == 0 then 0 else SetCount(days[..|days| - 1]) + |days[|days| - 1].sets|
  }
}
