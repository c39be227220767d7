/**
 * The row normalisers that turn an export's CSV rows into canonical sets:
 * `mapStrongAppData` (src/engine/parsing/strong-app.ts, with an identical
 * copy in src/engine/parsing.ts) and `mapHevyAppData`
 * (src/engine/parsing/heavy-app.ts). Both map every row, then drop warm-ups
 * and empty sets. Number parsing and the date library are parameters.
 */
module Normalisers {
  import opened Wrappers
  import opened Records
  import opened Seqs

  /**
   * `parseFloat` and `parseInt(_, 10)`, `None` for NaN; `day` turns the
   * export's date text into a day number.
   */
  datatype Parsers = Parsers(float: string -> Option<real>, integer: string -> Option<int>, day: string -> int)

  /** `parseFloat(x) || 0`: NaN (and zero) become zero. */
  function FloatOr0(p: Parsers, x: string): (r: real)
    ensures p.float(x).Some? ==> r == p.float(x).value
    ensures p.float(x).None? ==> r == 0.0
  {
    p.float(x).GetOr(0.0)
  }

  /** `parseInt(x, 10) || 0`. */
  function IntOr0(p: Parsers, x: string): (r: int)
    ensures p.integer(x).Some? ==> r == p.integer(x).value
    ensures p.integer(x).None? ==> r == 0
  {
    p.integer(x).GetOr(0)
  }

  /** `x === '' ? undefined : parseFloat(x) || undefined`: empty, NaN and zero are all absent. */
  function Rpe(p: Parsers, x: string): (r: Option<real>)
    ensures r.Some? <==> x != "" && p.float(x).Some? && p.float(x).value != 0.0
    ensures r.Some? ==> r.value == p.float(x).value
  {
    if x == "" then None
    else match p.float(x)
      case Some(v) => if v == 0.0 then None else Some(v)
      case None => None
  }

  /** `s.split(' ')[0]`: the text before the first space, or all of it. */
  function FirstWord(s: string): (r: string)
    ensures |r| <= |s| && r == s[..|r|]
    ensures ' ' !in r
    ensures |r| < |s| ==> s[|r|] == ' '
  {
    if |s| == 0 || s[0] == ' ' then "" else [s[0]] + FirstWord(s[1..])
  }

  /** Sets that carry no work: the sum of reps, distance and seconds is not positive. */
  predicate HasWork(s: RawSet) {
    s.reps as real + s.distance + s.seconds > 0.0
  }

  // ---------------------------------------------------------------------------
  // Strong

  /** One row of a Strong export, every column as text. */
  datatype StrongRow = StrongRow(
    date: string,
    workoutName: string,
    duration: string,
    exerciseName: string,
    setOrder: string,
    weight: string,
    reps: string,
    distance: string,
    seconds: string,
    notes: string,
    workoutNotes: string,
    rpe: string)

  /** Strong writes a lone double quote for an empty note. */
  function QuoteToUndefined(x: string): (r: Option<string>)
    ensures r.None? <==> x == "\""
    ensures r.Some? ==> r.value == x
  {
    if x == "\"" then None else Some(x)
  }

  /**
   * The Strong row mapping: the day of the date part, the names and the set
   * order as read, the numbers through `|| 0`, a lone-quote note as
   * undefined, and the RPE absent when empty, NaN or zero.
   */
  function StrongToRawSet(p: Parsers, row: StrongRow): (r: RawSet)
    ensures r.date == p.day(FirstWord(row.date))
    ensures r.workoutName == row.workoutName && r.exerciseName == row.exerciseName && r.setMark == row.setOrder
    ensures r.weight == p.float(row.weight).GetOr(0.0) && r.reps == p.integer(row.reps).GetOr(0)
    ensures r.distance == p.float(row.distance).GetOr(0.0) && r.seconds == p.float(row.seconds).GetOr(0.0)
    ensures r.notes.None? <==> row.notes == "\""
    ensures r.workoutNotes.None? <==> row.workoutNotes == "\""
    ensures r.notes.Some? ==> r.notes.value == row.notes
    ensures r.workoutNotes.Some? ==> r.workoutNotes.value == row.workoutNotes
    ensures r.rpe.Some? <==> row.rpe != "" && p.float(row.rpe).Some? && p.float(row.rpe).value != 0.0
  {
    RawSet(
      p.day(FirstWord(row.date)),
      row.workoutName,
      row.exerciseName,
      row.setOrder,
      FloatOr0(p, row.weight),
      IntOr0(p, row.reps),
      FloatOr0(p, row.distance),
      FloatOr0(p, row.seconds),
      QuoteToUndefined(row.notes),
      QuoteToUndefined(row.workoutNotes),
      Rpe(p, row.rpe))
  }

  function StrongConverter(p: Parsers): StrongRow -> RawSet { row => StrongToRawSet(p, row) }

  /** Rest timers, warm-ups and empty sets are dropped. */
  predicate StrongKeep(s: RawSet) {
    s.setMark != "Rest Timer" && s.setMark != "W" && HasWork(s)
  }

  function MapStrongAppData(p: Parsers, data: seq<StrongRow>): (r: seq<RawSet>)
    ensures |r| <= |data|
    ensures forall i :: 0 <= i < |r| ==> r[i].setMark != "Rest Timer" && r[i].setMark != "W" && HasWork(r[i])
    ensures forall i :: 0 <= i < |r| ==> exists j :: 0 <= j < |data| && r[i] == StrongToRawSet(p, data[j])
    ensures forall j :: 0 <= j < |data| && StrongKeep(StrongToRawSet(p, data[j])) ==> StrongToRawSet(p, data[j]) in r
  {
    var mapped := Map(data, StrongConverter(p));
    var r := Filter(mapped, StrongKeep);
    assert forall i :: 0 <= i < |r| ==> r[i] in mapped;
    r
  }

  /** Rows keep their relative order: normalising two exports one after the other is normalising their concatenation. */
  lemma StrongPreservesOrder(p: Parsers, a: seq<StrongRow>, b: seq<StrongRow>)
    ensures MapStrongAppData(p, a + b) == MapStrongAppData(p, a) + MapStrongAppData(p, b)
  {
    MapConcat(a, b, StrongConverter(p));
    FilterConcat(Map(a, StrongConverter(p)), Map(b, StrongConverter(p)), StrongKeep);
  }

  /** The date of a normalised row is the day of the text before the first space of `Date`. */
  lemma StrongDateIsFirstWord(p: Parsers, row: StrongRow)
    ensures StrongToRawSet(p, row).date == p.day(FirstWord(row.date))
    ensures StrongToRawSet(p, row).setMark == row.setOrder
  {
  }

  // ---------------------------------------------------------------------------
  // Hevy

  /** One row of a Hevy export; the weight columns may be missing altogether. */
  datatype HevyRow = HevyRow(
    title: string,
    startTime: string,
    endTime: string,
    description: string,
    exerciseTitle: string,
    supersetId: string,
    exerciseNotes: string,
    setIndex: string,
    setType: string,
    weightKg: Option<string>,
    weightLbs: Option<string>,
    reps: string,
    distanceKm: string,
    durationSeconds: string,
    rpe: string)

  /** The work of a row as the first filter computes it from the text. */
  function HevyWork(p: Parsers, row: HevyRow): real {
    IntOr0(p, row.reps) as real + FloatOr0(p, row.distanceKm) + FloatOr0(p, row.durationSeconds)
  }

  /** The first filter: no warm-ups, and some work. */
  predicate HevyKeepRow(p: Parsers, row: HevyRow) {
    row.setType != "warmup" && HevyWork(p, row) > 0.0
  }

  function HevyRowKeeper(p: Parsers): HevyRow -> bool { row => HevyKeepRow(p, row) }

  /** Kilograms when the column is present, otherwise pounds; a missing or empty pounds column is zero. */
  function HevyWeight(p: Parsers, row: HevyRow): (w: real)
    ensures row.weightKg.Some? ==> w == FloatOr0(p, row.weightKg.value)
    ensures row.weightKg.None? && row.weightLbs.Some? && row.weightLbs.value != "" ==> w == FloatOr0(p, row.weightLbs.value)
    ensures row.weightKg.None? && (row.weightLbs.None? || row.weightLbs.value == "") ==> w == 0.0
  {
    if row.weightKg.Some? then FloatOr0(p, row.weightKg.value)
    else if row.weightLbs.Some? && row.weightLbs.value != "" then FloatOr0(p, row.weightLbs.value)
    else 0.0
  }

  /** `x === '' ? undefined : x`. */
  function EmptyToUndefined(x: string): Option<string> {
    OrUndefined(Some(x))
  }

  /**
   * The Hevy row mapping: a warm-up's set order becomes "W", empty notes
   * become undefined, and the weight comes from the kilogram column when
   * there is one.
   */
  function HevyToRawSet(p: Parsers, row: HevyRow): (r: RawSet)
    ensures r.date == p.day(row.startTime)
    ensures r.workoutName == row.title && r.exerciseName == row.exerciseTitle
    ensures row.setType == "warmup" ==> r.setMark == "W"
    ensures row.setType != "warmup" ==> r.setMark == row.setIndex
    ensures r.weight == HevyWeight(p, row) && r.reps == p.integer(row.reps).GetOr(0)
    ensures r.distance == p.float(row.distanceKm).GetOr(0.0) && r.seconds == p.float(row.durationSeconds).GetOr(0.0)
    ensures r.notes.None? <==> row.exerciseNotes == ""
    ensures r.workoutNotes.None? <==> row.description == ""
    ensures r.notes.Some? ==> r.notes.value == row.exerciseNotes
    ensures r.workoutNotes.Some? ==> r.workoutNotes.value == row.description
    ensures r.rpe.Some? <==> row.rpe != "" && p.float(row.rpe).Some? && p.float(row.rpe).value != 0.0
  {
    RawSet(
      p.day(row.startTime),
      row.title,
      row.exerciseTitle,
      if row.setType == "warmup" then "W" else row.setIndex,
      HevyWeight(p, row),
      IntOr0(p, row.reps),
      FloatOr0(p, row.distanceKm),
      FloatOr0(p, row.durationSeconds),
      EmptyToUndefined(row.exerciseNotes),
      EmptyToUndefined(row.description),
      Rpe(p, row.rpe))
  }

  function HevyConverter(p: Parsers): HevyRow -> RawSet { row => HevyToRawSet(p, row) }

  /** The second filter, on the normalised rows. */
  predicate HevyKeep(s: RawSet) {
    s.setMark != "W" && HasWork(s)
  }

  function MapHevyAppData(p: Parsers, data: seq<HevyRow>): (r: seq<RawSet>)
    ensures |r| <= |data|
    ensures forall i :: 0 <= i < |r| ==>
      exists j :: 0 <= j < |data| && HevyKeepRow(p, data[j]) && r[i] == HevyToRawSet(p, data[j]) && r[i].setMark == data[j].setIndex
  {
    HevyOutputsComeFromRows(p, data);
    Filter(Map(Filter(data, HevyRowKeeper(p)), HevyConverter(p)), HevyKeep)
  }

  /** Every row that survives both filters is the conversion of a kept input row. */
  lemma HevyOutputsComeFromRows(p: Parsers, data: seq<HevyRow>)
    ensures var r := Filter(Map(Filter(data, HevyRowKeeper(p)), HevyConverter(p)), HevyKeep);
      forall i :: 0 <= i < |r| ==>
        exists j :: 0 <= j < |data| && HevyKeepRow(p, data[j]) && r[i] == HevyToRawSet(p, data[j]) && r[i].setMark == data[j].setIndex
  {
    var r := Filter(Map(Filter(data, HevyRowKeeper(p)), HevyConverter(p)), HevyKeep);
    forall i | 0 <= i < |r|
      ensures exists j :: 0 <= j < |data| && HevyKeepRow(p, data[j]) && r[i] == HevyToRawSet(p, data[j]) && r[i].setMark == data[j].setIndex
    {
      var j := HevySourceRow(p, data, r[i]);
    }
  }

  /** The position of the kept input row a converted row comes from. */
  lemma HevySourceRow(p: Parsers, data: seq<HevyRow>, x: RawSet) returns (j: nat)
    requires x in Map(Filter(data, HevyRowKeeper(p)), HevyConverter(p))
    ensures j < |data| && HevyKeepRow(p, data[j]) && x == HevyToRawSet(p, data[j]) && x.setMark == data[j].setIndex
  {
    var kept := Filter(data, HevyRowKeeper(p));
    var mapped := Map(kept, HevyConverter(p));
    var k :| 0 <= k < |mapped| && mapped[k] == x;
    assert kept[k] in data && HevyRowKeeper(p)(kept[k]);
    j :| 0 <= j < |data| && data[j] == kept[k];
  }

  predicate NotW(s: RawSet) { s.setMark != "W" }

  /** After the first filter, the second filter's work test always passes. */
  lemma KeptRowPassesWorkTest(p: Parsers, row: HevyRow)
    requires HevyKeepRow(p, row)
    ensures HevyKeep(HevyToRawSet(p, row)) == (row.setIndex != "W")
    ensures NotW(HevyToRawSet(p, row)) == (row.setIndex != "W")
  {
    var s := HevyToRawSet(p, row);
    assert s.setMark == row.setIndex;
    assert s.reps as real + s.distance + s.seconds == HevyWork(p, row);
  }

  /**
   * The work test of the second filter repeats the first one, so after the
   * first filter the second removes exactly the rows whose set index is the
   * text "W".
   */
  lemma HevySecondFilterOnlyDropsW(p: Parsers, data: seq<HevyRow>)
    ensures MapHevyAppData(p, data) == Filter(Map(Filter(data, HevyRowKeeper(p)), HevyConverter(p)), NotW)
  {
    var kept := Filter(data, HevyRowKeeper(p));
    var mapped := Map(kept, HevyConverter(p));
    forall i | 0 <= i < |mapped|
      ensures HevyKeep(mapped[i]) == NotW(mapped[i])
    {
      KeptRowPassesWorkTest(p, kept[i]);
    }
    FilterSameOn(mapped, HevyKeep, NotW);
  }

  /** When no row has the set index "W", the second filter removes nothing. */
  lemma HevySecondFilterRedundant(p: Parsers, data: seq<HevyRow>)
    requires forall j :: 0 <= j < |data| ==> data[j].setIndex != "W"
    ensures MapHevyAppData(p, data) == Map(Filter(data, HevyRowKeeper(p)), HevyConverter(p))
  {
    var kept := Filter(data, HevyRowKeeper(p));
    KeptRowsAreNotW(p, data, kept);
    FilterAllPass(Map(kept, HevyConverter(p)), NotW);
    HevySecondFilterOnlyDropsW(p, data);
  }

  lemma KeptRowsAreNotW(p: Parsers, data: seq<HevyRow>, kept: seq<HevyRow>)
    requires forall j :: 0 <= j < |data| ==> data[j].setIndex != "W"
    requires kept == Filter(data, HevyRowKeeper(p))
    ensures forall i :: 0 <= i < |kept| ==> NotW(HevyConverter(p)(kept[i]))
  {
    forall i | 0 <= i < |kept|
      ensures NotW(HevyConverter(p)(kept[i]))
    {
      assert kept[i] in data;
      KeptRowPassesWorkTest(p, kept[i]);
    }
  }

  /** Rows keep their relative order. */
  lemma HevyPreservesOrder(p: Parsers, a: seq<HevyRow>, b: seq<HevyRow>)
    ensures MapHevyAppData(p, a + b) == MapHevyAppData(p, a) + MapHevyAppData(p, b)
  {
    var keep := HevyRowKeeper(p);
    FilterConcat(a, b, keep);
    MapConcat(Filter(a, keep), Filter(b, keep), HevyConverter(p));
    FilterConcat(Map(Filter(a, keep), HevyConverter(p)), Map(Filter(b, keep), HevyConverter(p)), HevyKeep);
  }

  /** No warm-up row survives, and every surviving row did work. */
  lemma HevyDropsWarmups(p: Parsers, data: seq<HevyRow>)
    ensures forall i :: 0 <= i < |MapHevyAppData(p, data)| ==> HasWork(MapHevyAppData(p, data)[i])
    ensures forall j :: 0 <= j < |data| && data[j].setType == "warmup" ==> HevyToRawSet(p, data[j]) !in MapHevyAppData(p, data)
  {
    var r := MapHevyAppData(p, data);
    forall i | 0 <= i < |r|
      ensures HasWork(r[i])
    {
      var j :| 0 <= j < |data| && HevyKeepRow(p, data[j]) && r[i] == HevyToRawSet(p, data[j]);
    }
  }
}
