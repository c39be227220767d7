/**
 * `groupByLift`: the raw sets are grouped by lift (`exercise | workout`) and,
 * inside a lift, by date, both levels in first-seen order, the sets of a day
 * in input order. There are three copies of the algorithm that differ only in
 * which note fields they copy; `Flavor` selects the copy.
 */
module LiftGrouping {
  import opened Wrappers
  import opened Records
  import opened Grouping
  import opened Seqs

  /**
   * `Engine`: src/engine/parsing.ts and src/engine/parsing/parsing.ts.
   * `AppParsing`: src/app/engine/parsing.ts.
   * `AppProgression`: the grouping inside the older app `analyzeProgressiveOverload`.
   */
  datatype Flavor = Engine | AppParsing | AppProgression

  /** `makeLiftName`. */
  function MakeLiftName(s: RawSet): (name: string)
    ensures |name| == |s.exerciseName| + 3 + |s.workoutName|
    ensures name[..|s.exerciseName|] == s.exerciseName
    ensures name[|s.exerciseName| + 3..] == s.workoutName
    ensures name[|s.exerciseName|..|s.exerciseName| + 3] == " | "
  {
    s.exerciseName + " | " + s.workoutName
  }

  function DateOf(s: RawSet): int { s.date }
  function WorkoutNameOf(s: RawSet): string { s.workoutName }

  /**
   * `ensureDayEntry` for a date not seen yet: the notes come from the set
   * that opens the day. The app copies keep a single `note`, stored here as
   * `sessionNotes`; the older app copy does not map `""` to undefined.
   */
  function NewDay(f: Flavor, s: RawSet): (d: DayEntry)
    ensures d.date == s.date && d.sets == [] && d.performanceChange == None
    ensures f == Engine ==> d.sessionNotes == OrUndefined(s.workoutNotes) && d.liftNotes == OrUndefined(s.notes)
    ensures f == AppParsing ==> d.sessionNotes == OrUndefined(s.workoutNotes) && d.liftNotes == None
    ensures f == AppProgression ==> d.sessionNotes == s.workoutNotes && d.liftNotes == None
  {
    match f
    case Engine => DayEntry(s.date, OrUndefined(s.workoutNotes), OrUndefined(s.notes), [], None)
    case AppParsing => DayEntry(s.date, OrUndefined(s.workoutNotes), None, [], None)
    case AppProgression => DayEntry(s.date, s.workoutNotes, None, [], None)
  }

  /** The set record pushed onto the day; the current engine does not copy the set's notes. */
  function ProjectSet(f: Flavor, s: RawSet): (t: LiftSet)
    ensures t.setMark == s.setMark && t.weight == s.weight && t.reps == s.reps && t.rpe == s.rpe
    ensures f == Engine ==> t.notes == None
    ensures f == AppParsing ==> t.notes == OrUndefined(s.notes)
    ensures f == AppProgression ==> t.notes == s.notes
  {
    match f
    case Engine => LiftSet(s.setMark, s.weight, s.reps, s.rpe, None)
    case AppParsing => LiftSet(s.setMark, s.weight, s.reps, s.rpe, OrUndefined(s.notes))
    case AppProgression => LiftSet(s.setMark, s.weight, s.reps, s.rpe, s.notes)
  }

  function ProjectAll(f: Flavor, ss: seq<RawSet>): (ts: seq<LiftSet>)
    ensures |ts| == |ss|
    ensures forall i :: 0 <= i < |ss| ==> ts[i] == ProjectSet(f, ss[i])
  {
    if |ss| == 0 then [] else ProjectAll(f, ss[..|ss| - 1]) + [ProjectSet(f, ss[|ss| - 1])]
  }

  function DayInit(f: Flavor): RawSet -> DayEntry { s => NewDay(f, s) }
  function DayAdd(f: Flavor): (DayEntry, RawSet) -> DayEntry {
    (d: DayEntry, s: RawSet) => d.(sets := d.sets + [ProjectSet(f, s)])
  }

  /** A lift while it is being built: its days still form a dictionary keyed by date. */
  datatype LiftAcc = LiftAcc(name: string, sessionNames: seq<string>, days: seq<Entry<int, DayEntry>>)

  /** `ensureLiftEntry` for a key not seen yet. */
  function NewLift(s: RawSet): LiftAcc { LiftAcc(MakeLiftName(s), [], []) }

  /** `sessionNames.add(w)` on an insertion-ordered set. */
  function AddName(ns: seq<string>, w: string): seq<string> {
    if w in ns then ns else ns + [w]
  }

  /** The body of the `forEach` once the lift entry exists. */
  function AddToLift(f: Flavor, l: LiftAcc, s: RawSet): LiftAcc {
    LiftAcc(
      l.name,
      AddName(l.sessionNames, s.workoutName),
      Insert(l.days, s, DateOf, DayInit(f), DayAdd(f)))
  }

  function LiftInit(): RawSet -> LiftAcc { s => NewLift(s) }
  function LiftAdd(f: Flavor): (LiftAcc, RawSet) -> LiftAcc { (l: LiftAcc, s: RawSet) => AddToLift(f, l, s) }

  /** The `liftsByName` dictionary after the `forEach`. */
  function GroupRaw(f: Flavor, sets: seq<RawSet>): (r: seq<Entry<string, LiftAcc>>)
    ensures EntryKeys(r) == Dedup(Map(sets, MakeLiftName))
  {
    GroupAllIsGrouping(sets, MakeLiftName, LiftInit(), LiftAdd(f));
    GroupAll(sets, MakeLiftName, LiftInit(), LiftAdd(f))
  }

  function HasDays(e: Entry<string, LiftAcc>): bool { |e.acc.days| > 0 }

  /** The `filter` on `Object.keys(it.workouts).length > 0`. */
  function KeepWithDays(gs: seq<Entry<string, LiftAcc>>): (r: seq<Entry<string, LiftAcc>>)
    ensures |r| <= |gs|
    ensures (forall i :: 0 <= i < |gs| ==> HasDays(gs[i])) ==> r == gs
  {
    if |gs| == 0 then []
    else KeepWithDays(gs[..|gs| - 1]) + (if HasDays(gs[|gs| - 1]) then [gs[|gs| - 1]] else [])
  }

  function ToHistory(e: Entry<string, LiftAcc>): LiftHistory {
    LiftHistory(e.acc.name, e.acc.sessionNames, Values(e.acc.days), ProgressStatus.NotSure, None)
  }

  function ToHistories(gs: seq<Entry<string, LiftAcc>>): (r: seq<LiftHistory>)
    ensures |r| == |gs|
    ensures forall i :: 0 <= i < |gs| ==> r[i] == ToHistory(gs[i])
  {
    if |gs| == 0 then [] else ToHistories(gs[..|gs| - 1]) + [ToHistory(gs[|gs| - 1])]
  }

  /** `groupByLift` of the current engine. */
  function GroupByLift(sets: seq<RawSet>): (r: seq<LiftHistory>)
    ensures |sets| == 0 ==> r == []
  {
    ToHistories(KeepWithDays(GroupRaw(Engine, sets)))
  }

  /** A lift of the app copies: a name and its days, nothing else. */
  datatype AppLift = AppLift(name: string, workouts: seq<DayEntry>)

  function ToAppLift(e: Entry<string, LiftAcc>): AppLift { AppLift(e.acc.name, Values(e.acc.days)) }

  function ToAppLifts(gs: seq<Entry<string, LiftAcc>>): (r: seq<AppLift>)
    ensures |r| == |gs|
    ensures forall i :: 0 <= i < |gs| ==> r[i] == ToAppLift(gs[i])
  {
    if |gs| == 0 then [] else ToAppLifts(gs[..|gs| - 1]) + [ToAppLift(gs[|gs| - 1])]
  }

  /** `groupByLift` of src/app/engine/parsing.ts. */
  function AppGroupByLift(sets: seq<RawSet>): (r: seq<AppLift>)
    ensures |sets| == 0 ==> r == []
  {
    ToAppLifts(KeepWithDays(GroupRaw(AppParsing, sets)))
  }

  // ---------------------------------------------------------------------------
  // One lift, one day

  /** A day built from the sets `g` of one date: opened by `g[0]`, holding all of `g` in order. */
  lemma {:induction false} DayOfGroup(f: Flavor, g: seq<RawSet>)
    requires |g| > 0
    ensures Accumulate(g, DayInit(f), DayAdd(f))
         == NewDay(f, g[0]).(sets := ProjectAll(f, g))
  {
    if |g| > 1 {
      var p := g[..|g| - 1];
      DayOfGroup(f, p);
      assert p[0] == g[0];
    }
  }

  lemma AccumulateLiftSnoc(f: Flavor, g: seq<RawSet>)
    requires |g| > 1
    ensures Accumulate(g, LiftInit(), LiftAdd(f))
         == AddToLift(f, Accumulate(g[..|g| - 1], LiftInit(), LiftAdd(f)), g[|g| - 1])
  {
  }

  lemma {:induction false} LiftNameOfGroup(f: Flavor, g: seq<RawSet>)
    requires |g| > 0
    ensures Accumulate(g, LiftInit(), LiftAdd(f)).name == MakeLiftName(g[0])
  {
    if |g| > 1 {
      var p := g[..|g| - 1];
      AccumulateLiftSnoc(f, g);
      LiftNameOfGroup(f, p);
      assert p[0] == g[0];
    }
  }

  lemma DedupSnocAdd(ks: seq<string>, k: string)
    ensures Dedup(ks + [k]) == AddName(Dedup(ks), k)
  {
    DedupSnoc(ks, k);
    if k in ks {
      var i :| 0 <= i < |ks| && ks[i] == k;
    }
  }

  lemma {:induction false} SessionNamesOfGroup(f: Flavor, g: seq<RawSet>)
    requires |g| > 0
    ensures Accumulate(g, LiftInit(), LiftAdd(f)).sessionNames == Dedup(Map(g, WorkoutNameOf))
  {
    var p := g[..|g| - 1];
    var x := g[|g| - 1];
    assert p + [x] == g;
    MapSnoc(p, x, WorkoutNameOf);
    DedupSnocAdd(Map(p, WorkoutNameOf), x.workoutName);
    if |g| > 1 {
      SessionNamesSnoc(f, g);
      SessionNamesOfGroup(f, p);
    } else {
      SessionNamesFirst(f, g);
      assert Map(p, WorkoutNameOf) == [];
    }
  }

  lemma SessionNamesSnoc(f: Flavor, g: seq<RawSet>)
    requires |g| > 1
    ensures Accumulate(g, LiftInit(), LiftAdd(f)).sessionNames
         == AddName(Accumulate(g[..|g| - 1], LiftInit(), LiftAdd(f)).sessionNames, g[|g| - 1].workoutName)
  {
    AccumulateLiftSnoc(f, g);
  }

  lemma SessionNamesFirst(f: Flavor, g: seq<RawSet>)
    requires |g| == 1
    ensures Accumulate(g, LiftInit(), LiftAdd(f)).sessionNames == [g[0].workoutName]
  {
  }

  lemma {:induction false} LiftDaysOfGroup(f: Flavor, g: seq<RawSet>)
    requires |g| > 0
    ensures Accumulate(g, LiftInit(), LiftAdd(f)).days == GroupAll(g, DateOf, DayInit(f), DayAdd(f))
  {
    if |g| == 1 {
      assert g[..0] == [];
    } else {
      var p := g[..|g| - 1];
      AccumulateLiftSnoc(f, g);
      LiftDaysOfGroup(f, p);
    }
  }

  /** A lift built from the sets `g` of one key: its days are the date grouping of `g`. */
  lemma LiftOfGroup(f: Flavor, g: seq<RawSet>)
    requires |g| > 0
    ensures Accumulate(g, LiftInit(), LiftAdd(f))
         == LiftAcc(MakeLiftName(g[0]), Dedup(Map(g, WorkoutNameOf)), GroupAll(g, DateOf, DayInit(f), DayAdd(f)))
  {
    LiftNameOfGroup(f, g);
    SessionNamesOfGroup(f, g);
    LiftDaysOfGroup(f, g);
  }

  // ---------------------------------------------------------------------------
  // The whole grouping

  ghost function LiftKeys(sets: seq<RawSet>): seq<string> { Dedup(Map(sets, MakeLiftName)) }

  ghost function SetsOfLift(sets: seq<RawSet>, name: string): seq<RawSet> { Select(sets, MakeLiftName, name) }

  /** The dictionary before `Object.values`: one lift per key, each built from exactly its sets. */
  lemma GroupRawCharacterised(f: Flavor, sets: seq<RawSet>)
    ensures EntryKeys(GroupRaw(f, sets)) == LiftKeys(sets)
    ensures forall i :: 0 <= i < |GroupRaw(f, sets)| ==>
      var g := SetsOfLift(sets, GroupRaw(f, sets)[i].key);
      |g| > 0 && GroupRaw(f, sets)[i].acc
        == LiftAcc(MakeLiftName(g[0]), Dedup(Map(g, WorkoutNameOf)), GroupAll(g, DateOf, DayInit(f), DayAdd(f)))
  {
    var gs := GroupRaw(f, sets);
    GroupAllIsGrouping(sets, MakeLiftName, LiftInit(), LiftAdd(f));
    forall i | 0 <= i < |gs|
      ensures var g := SetsOfLift(sets, gs[i].key);
        |g| > 0 && gs[i].acc
          == LiftAcc(MakeLiftName(g[0]), Dedup(Map(g, WorkoutNameOf)), GroupAll(g, DateOf, DayInit(f), DayAdd(f)))
    {
      LiftOfGroup(f, SetsOfLift(sets, gs[i].key));
    }
  }

  /** Every lift in the dictionary has at least one day, so the `filter` never drops one. */
  lemma FilterIsNoOp(f: Flavor, sets: seq<RawSet>)
    ensures KeepWithDays(GroupRaw(f, sets)) == GroupRaw(f, sets)
  {
    var gs := GroupRaw(f, sets);
    GroupRawCharacterised(f, sets);
    forall i | 0 <= i < |gs| ensures HasDays(gs[i]) {
      var g := SetsOfLift(sets, gs[i].key);
      GroupAllNonEmpty(g, DateOf, DayInit(f), DayAdd(f));
    }
  }

  function DaySize(d: DayEntry): nat { |d.sets| }
  function LiftSize(l: LiftAcc): nat { SumOf(l.days, DaySize) }

  /** Every input set lands in exactly one day of exactly one lift. */
  lemma GroupRawSize(f: Flavor, sets: seq<RawSet>)
    ensures SumOf(GroupRaw(f, sets), LiftSize) == |sets|
  {
    forall l: LiftAcc, x: RawSet ensures LiftSize(LiftAdd(f)(l, x)) == LiftSize(l) + 1 {
      InsertAddsOne(l.days, x, DateOf, DayInit(f), DayAdd(f), DaySize);
    }
    GroupAllSize(sets, MakeLiftName, LiftInit(), LiftAdd(f), LiftSize);
  }

  /** Total number of sets over all lifts of a result. */
  function TotalSets(ls: seq<LiftHistory>): nat {
    if |ls| == 0 then 0 else TotalSets(ls[..|ls| - 1]) + SetCount(ls[|ls| - 1].workouts)
  }

  lemma {:induction false} SetCountValues(days: seq<Entry<int, DayEntry>>)
    ensures SetCount(Values(days)) == SumOf(days, DaySize)
  {
    if |days| > 0 {
      var p := days[..|days| - 1];
      SetCountValues(p);
      assert Values(days)[..|days| - 1] == Values(p);
    }
  }

  lemma {:induction false} TotalSetsHistories(gs: seq<Entry<string, LiftAcc>>)
    ensures TotalSets(ToHistories(gs)) == SumOf(gs, LiftSize)
  {
    if |gs| > 0 {
      var p := gs[..|gs| - 1];
      TotalSetsHistories(p);
      assert ToHistories(gs)[..|gs| - 1] == ToHistories(p);
      SetCountValues(gs[|gs| - 1].acc.days);
    }
  }

  /** The days of a lift built from the sets `g`, in first-seen date order, each with exactly its sets. */
  ghost predicate DaysOf(f: Flavor, g: seq<RawSet>, days: seq<DayEntry>) {
    && |days| == |Dedup(Map(g, DateOf))|
    && forall j :: 0 <= j < |days| ==>
         var sameDay := Select(g, DateOf, Dedup(Map(g, DateOf))[j]);
         |sameDay| > 0 && days[j] == NewDay(f, sameDay[0]).(sets := ProjectAll(f, sameDay))
  }

  lemma DaysOfGroup(f: Flavor, g: seq<RawSet>)
    ensures DaysOf(f, g, Values(GroupAll(g, DateOf, DayInit(f), DayAdd(f))))
  {
    var ds := GroupAll(g, DateOf, DayInit(f), DayAdd(f));
    GroupAllIsGrouping(g, DateOf, DayInit(f), DayAdd(f));
    forall j | 0 <= j < |ds|
      ensures var sameDay := Select(g, DateOf, Dedup(Map(g, DateOf))[j]);
        |sameDay| > 0 && Values(ds)[j] == NewDay(f, sameDay[0]).(sets := ProjectAll(f, sameDay))
    {
      assert EntryKeys(ds)[j] == ds[j].key;
      DayOfGroup(f, Select(g, DateOf, ds[j].key));
    }
  }

  /** One lift of the engine result, described from its sets alone. */
  ghost predicate LiftFromSets(sets: seq<RawSet>, i: nat, l: LiftHistory)
    requires i < |LiftKeys(sets)|
  {
    var g := SetsOfLift(sets, LiftKeys(sets)[i]);
    && l.name == LiftKeys(sets)[i]
    && l.progressStatus == ProgressStatus.NotSure
    && l.activityStatus == None
    && l.sessionNames == Dedup(Map(g, WorkoutNameOf))
    && |l.workouts| > 0
    && DaysOf(Engine, g, l.workouts)
  }

  lemma EntryOfLift(f: Flavor, sets: seq<RawSet>, i: nat)
    requires i < |GroupRaw(f, sets)|
    ensures i < |LiftKeys(sets)| && GroupRaw(f, sets)[i].key == LiftKeys(sets)[i]
    ensures var g := SetsOfLift(sets, LiftKeys(sets)[i]);
      && |g| > 0
      && GroupRaw(f, sets)[i].acc.name == LiftKeys(sets)[i]
      && GroupRaw(f, sets)[i].acc.sessionNames == Dedup(Map(g, WorkoutNameOf))
      && GroupRaw(f, sets)[i].acc.days == GroupAll(g, DateOf, DayInit(f), DayAdd(f))
  {
    var gs := GroupRaw(f, sets);
    GroupRawCharacterised(f, sets);
    assert EntryKeys(gs)[i] == gs[i].key;
    var g := SetsOfLift(sets, gs[i].key);
    assert MakeLiftName(g[0]) == gs[i].key;
  }

  lemma HistoryOfLift(sets: seq<RawSet>, i: nat)
    requires i < |GroupRaw(Engine, sets)|
    ensures i < |LiftKeys(sets)| && LiftFromSets(sets, i, ToHistory(GroupRaw(Engine, sets)[i]))
  {
    EntryOfLift(Engine, sets, i);
    var g := SetsOfLift(sets, LiftKeys(sets)[i]);
    DaysOfGroup(Engine, g);
    GroupAllNonEmpty(g, DateOf, DayInit(Engine), DayAdd(Engine));
  }

  /**
   * The current engine's `groupByLift`: one lift per distinct
   * `exercise | workout` key in first-seen order, named by that key, with
   * status `NotSure`, the distinct workout names of its sets as session
   * names, and one day per distinct date of its sets holding exactly those
   * sets in input order. No set is lost or duplicated.
   */
  lemma GroupByLiftCharacterised(sets: seq<RawSet>)
    ensures |GroupByLift(sets)| == |LiftKeys(sets)|
    ensures forall i :: 0 <= i < |GroupByLift(sets)| ==> LiftFromSets(sets, i, GroupByLift(sets)[i])
    ensures TotalSets(GroupByLift(sets)) == |sets|
  {
    var gs := GroupRaw(Engine, sets);
    FilterIsNoOp(Engine, sets);
    GroupRawCharacterised(Engine, sets);
    assert |EntryKeys(gs)| == |gs|;
    forall i | 0 <= i < |gs| ensures LiftFromSets(sets, i, GroupByLift(sets)[i]) {
      HistoryOfLift(sets, i);
    }
    GroupRawSize(Engine, sets);
    TotalSetsHistories(gs);
  }

  /** The app copies' lifts, before any filter: one per key, with exactly that key's days. */
  lemma AppLiftsCharacterised(f: Flavor, sets: seq<RawSet>)
    ensures |ToAppLifts(GroupRaw(f, sets))| == |LiftKeys(sets)|
    ensures forall i :: 0 <= i < |ToAppLifts(GroupRaw(f, sets))| ==>
      && ToAppLifts(GroupRaw(f, sets))[i].name == LiftKeys(sets)[i]
      && |ToAppLifts(GroupRaw(f, sets))[i].workouts| > 0
      && DaysOf(f, SetsOfLift(sets, LiftKeys(sets)[i]), ToAppLifts(GroupRaw(f, sets))[i].workouts)
  {
    var gs := GroupRaw(f, sets);
    var r := ToAppLifts(gs);
    GroupRawCharacterised(f, sets);
    assert |EntryKeys(gs)| == |gs|;
    forall i | 0 <= i < |gs|
      ensures && r[i].name == LiftKeys(sets)[i]
              && |r[i].workouts| > 0
              && DaysOf(f, SetsOfLift(sets, LiftKeys(sets)[i]), r[i].workouts)
    {
      EntryOfLift(f, sets, i);
      var g := SetsOfLift(sets, LiftKeys(sets)[i]);
      DaysOfGroup(f, g);
      GroupAllNonEmpty(g, DateOf, DayInit(f), DayAdd(f));
    }
  }

  /** The same grouping for src/app/engine/parsing.ts, whose lifts carry only a name and days. */
  lemma AppGroupByLiftCharacterised(sets: seq<RawSet>)
    ensures |AppGroupByLift(sets)| == |LiftKeys(sets)|
    ensures forall i :: 0 <= i < |AppGroupByLift(sets)| ==>
      && AppGroupByLift(sets)[i].name == LiftKeys(sets)[i]
      && |AppGroupByLift(sets)[i].workouts| > 0
      && DaysOf(AppParsing, SetsOfLift(sets, LiftKeys(sets)[i]), AppGroupByLift(sets)[i].workouts)
  {
    FilterIsNoOp(AppParsing, sets);
    AppLiftsCharacterised(AppParsing, sets);
  }

  // ---------------------------------------------------------------------------
  // Session names

  /** No `|` in the exercise name: then the lift key determines the workout name. */
  predicate PlainExercise(s: RawSet) { '|' !in s.exerciseName }

  /** In the key of a plain exercise the first `|` sits right after the exercise name and a space. */
  lemma FirstPipe(s: RawSet)
    requires PlainExercise(s)
    ensures MakeLiftName(s)[|s.exerciseName| + 1] == '|'
    ensures forall j :: 0 <= j <= |s.exerciseName| ==> MakeLiftName(s)[j] != '|'
  {
    var n := MakeLiftName(s);
    forall j | 0 <= j <= |s.exerciseName| ensures n[j] != '|' {
      if j < |s.exerciseName| {
        assert n[j] == s.exerciseName[j];
      } else {
        assert n[j] == ' ';
      }
    }
  }

  lemma LiftNameDeterminesWorkout(a: RawSet, b: RawSet)
    requires PlainExercise(a) && PlainExercise(b)
    requires MakeLiftName(a) == MakeLiftName(b)
    ensures a.exerciseName == b.exerciseName && a.workoutName == b.workoutName
  {
    FirstPipe(a);
    FirstPipe(b);
    var n := MakeLiftName(a);
    assert |a.exerciseName| == |b.exerciseName|;
    assert a.exerciseName == n[..|a.exerciseName|];
  }

  /**
   * When no exercise name contains `|`, every lift's session names are exactly
   * the one workout name of its sets.
   */
  lemma SessionNamesSingleton(sets: seq<RawSet>, i: nat)
    requires forall x :: x in sets ==> PlainExercise(x)
    requires i < |GroupByLift(sets)|
    ensures var l := GroupByLift(sets)[i];
      |l.sessionNames| == 1
      && forall x :: x in sets && MakeLiftName(x) == l.name ==> x.workoutName == l.sessionNames[0]
  {
    FilterIsNoOp(Engine, sets);
    var gs := GroupRaw(Engine, sets);
    assert GroupByLift(sets)[i] == ToHistory(gs[i]);
    HistoryOfLift(sets, i);
    var key := LiftKeys(sets)[i];
    var g := SetsOfLift(sets, key);
    assert GroupByLift(sets)[i].sessionNames == Dedup(Map(g, WorkoutNameOf));
    SameKeySameWorkout(sets, key);
    SingleValueDedup(Map(g, WorkoutNameOf), g[0].workoutName);
    forall x | x in sets && MakeLiftName(x) == key ensures x.workoutName == g[0].workoutName {
      var j :| 0 <= j < |sets| && sets[j] == x;
      assert x in g;
      LiftNameDeterminesWorkout(g[0], x);
    }
  }

  lemma SameKeySameWorkout(sets: seq<RawSet>, key: string)
    requires forall x :: x in sets ==> PlainExercise(x)
    requires |SetsOfLift(sets, key)| > 0
    ensures var g := SetsOfLift(sets, key);
      forall j :: 0 <= j < |g| ==> Map(g, WorkoutNameOf)[j] == g[0].workoutName
  {
    var g := SetsOfLift(sets, key);
    forall j | 0 <= j < |g| ensures Map(g, WorkoutNameOf)[j] == g[0].workoutName {
      assert g[j] in g && g[0] in g;
      LiftNameDeterminesWorkout(g[0], g[j]);
    }
  }

  lemma {:induction false} SingleValueDedup(ws: seq<string>, w: string)
    requires |ws| > 0 && forall j :: 0 <= j < |ws| ==> ws[j] == w
    ensures Dedup(ws) == [w]
  {
    if |ws| > 1 {
      var p := ws[..|ws| - 1];
      SingleValueDedup(p, w);
      assert p + [w] == ws;
      DedupSnoc(p, w);
    } else {
      assert ws[..0] == [];
    }
  }

  /** The key is not injective: these two sets share a lift under two workout names. */
  lemma LiftNameCollision()
    ensures var a := RawSet(0, "B | C", "A", "", 0.0, 1, 0.0, 0.0, None, None, None);
            var b := RawSet(0, "C", "A | B", "", 0.0, 1, 0.0, 0.0, None, None, None);
            MakeLiftName(a) == MakeLiftName(b) && a.workoutName != b.workoutName
  {
  }
}
