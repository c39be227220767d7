/**
 * `calculateWeeklyVolume` (src/engine/volume/volume-calculation.ts): count
 * the sets dated inside an inclusive day range, per ISO 8601 week number
 * (section 4.1.4 of ISO 8601:2004, the week-date week) and exercise, telling
 * drop sets from straight sets.
 *
 * Dates are day numbers, so the library's start- and end-of-day rounding
 * becomes plain `<=`; the ISO week lookup is a parameter. The source scans
 * its input (assumed sorted by date) from whichever end is nearer the range
 * and stops early; the result is the same either way.
 */
module VolumeCalculation {
  import opened Records
  import opened Seqs
  import Progression

  /** `DROP_SET_MARK`. */
  const DropSetMark: string := "D"

  datatype LiftVolume = LiftVolume(straightSets: nat, dropSets: nat)

  /**
   * `WeeklyVolumeResults`: per ISO week number (the `Week <n>` key), per
   * exercise name, the two counts.
   */
  datatype WeeklyVolume = WeeklyVolume(totalSets: nat, weeks: map<int, map<string, LiftVolume>>)

  const Empty: WeeklyVolume := WeeklyVolume(0, map[])

  function LiftsOf(v: WeeklyVolume, w: int): map<string, LiftVolume> {
    if w in v.weeks then v.weeks[w] else map[]
  }

  /** The counts of one week and exercise, zero when there is no entry. */
  function Cell(v: WeeklyVolume, w: int, l: string): LiftVolume {
    var lifts := LiftsOf(v, w);
    if l in lifts then lifts[l] else LiftVolume(0, 0)
  }

  function Bump(lv: LiftVolume, s: RawSet): (r: LiftVolume)
    ensures s.setMark == DropSetMark ==> r == LiftVolume(lv.straightSets, lv.dropSets + 1)
    ensures s.setMark != DropSetMark ==> r == LiftVolume(lv.straightSets + 1, lv.dropSets)
  {
    if s.setMark == DropSetMark then lv.(dropSets := lv.dropSets + 1) else lv.(straightSets := lv.straightSets + 1)
  }

  /** The body of the loop for a set inside the range: one more set, in its week and exercise only. */
  function Add(isoWeek: int -> int, v: WeeklyVolume, s: RawSet): (r: WeeklyVolume)
    ensures r.totalSets == v.totalSets + 1
  {
    var w := isoWeek(s.date);
    var lifts := LiftsOf(v, w);
    WeeklyVolume(v.totalSets + 1, v.weeks[w := lifts[s.exerciseName := Bump(Cell(v, w, s.exerciseName), s)]])
  }

  /** Counting a set bumps its own week and exercise and leaves every other count alone. */
  lemma AddCell(isoWeek: int -> int, v: WeeklyVolume, s: RawSet, w: int, l: string)
    ensures Cell(Add(isoWeek, v, s), w, l)
         == if w == isoWeek(s.date) && l == s.exerciseName then Bump(Cell(v, w, l), s) else Cell(v, w, l)
    ensures (w in Add(isoWeek, v, s).weeks && l in Add(isoWeek, v, s).weeks[w])
        <==> (w == isoWeek(s.date) && l == s.exerciseName) || (w in v.weeks && l in v.weeks[w])
  {
  }

  /** Counting is order-independent: two sets can be counted in either order. */
  lemma AddCommutes(isoWeek: int -> int, v: WeeklyVolume, a: RawSet, b: RawSet)
    ensures Add(isoWeek, Add(isoWeek, v, a), b) == Add(isoWeek, Add(isoWeek, v, b), a)
  {
    if isoWeek(a.date) != isoWeek(b.date) {
      CommuteWeeks(isoWeek, v, a, b);
    } else if a.exerciseName != b.exerciseName {
      CommuteLifts(isoWeek, v, a, b);
    } else {
      CommuteCell(isoWeek, v, a, b);
    }
  }

  lemma CommuteWeeks(isoWeek: int -> int, v: WeeklyVolume, a: RawSet, b: RawSet)
    requires isoWeek(a.date) != isoWeek(b.date)
    ensures Add(isoWeek, Add(isoWeek, v, a), b) == Add(isoWeek, Add(isoWeek, v, b), a)
  {
    var wa, wb := isoWeek(a.date), isoWeek(b.date);
    var la := LiftsOf(v, wa)[a.exerciseName := Bump(Cell(v, wa, a.exerciseName), a)];
    var lb := LiftsOf(v, wb)[b.exerciseName := Bump(Cell(v, wb, b.exerciseName), b)];
    assert Add(isoWeek, Add(isoWeek, v, a), b).weeks == v.weeks[wa := la][wb := lb];
    assert Add(isoWeek, Add(isoWeek, v, b), a).weeks == v.weeks[wb := lb][wa := la];
    assert v.weeks[wa := la][wb := lb] == v.weeks[wb := lb][wa := la];
  }

  lemma CommuteLifts(isoWeek: int -> int, v: WeeklyVolume, a: RawSet, b: RawSet)
    requires isoWeek(a.date) == isoWeek(b.date) && a.exerciseName != b.exerciseName
    ensures Add(isoWeek, Add(isoWeek, v, a), b) == Add(isoWeek, Add(isoWeek, v, b), a)
  {
    var w := isoWeek(a.date);
    var lifts := LiftsOf(v, w);
    var ca := Bump(Cell(v, w, a.exerciseName), a);
    var cb := Bump(Cell(v, w, b.exerciseName), b);
    assert Add(isoWeek, Add(isoWeek, v, a), b).weeks == v.weeks[w := lifts[a.exerciseName := ca][b.exerciseName := cb]];
    assert Add(isoWeek, Add(isoWeek, v, b), a).weeks == v.weeks[w := lifts[b.exerciseName := cb][a.exerciseName := ca]];
    assert lifts[a.exerciseName := ca][b.exerciseName := cb] == lifts[b.exerciseName := cb][a.exerciseName := ca];
  }

  lemma CommuteCell(isoWeek: int -> int, v: WeeklyVolume, a: RawSet, b: RawSet)
    requires isoWeek(a.date) == isoWeek(b.date) && a.exerciseName == b.exerciseName
    ensures Add(isoWeek, Add(isoWeek, v, a), b) == Add(isoWeek, Add(isoWeek, v, b), a)
  {
    var w, l := isoWeek(a.date), a.exerciseName;
    var lifts := LiftsOf(v, w);
    var c := Cell(v, w, l);
    var va, vb := Add(isoWeek, v, a), Add(isoWeek, v, b);
    assert LiftsOf(va, w) == lifts[l := Bump(c, a)];
    assert LiftsOf(vb, w) == lifts[l := Bump(c, b)];
    assert lifts[l := Bump(c, a)][l := Bump(Bump(c, a), b)] == lifts[l := Bump(Bump(c, a), b)];
    assert lifts[l := Bump(c, b)][l := Bump(Bump(c, b), a)] == lifts[l := Bump(Bump(c, b), a)];
    assert va.weeks[w := lifts[l := Bump(Bump(c, a), b)]] == v.weeks[w := lifts[l := Bump(Bump(c, a), b)]];
    assert vb.weeks[w := lifts[l := Bump(Bump(c, b), a)]] == v.weeks[w := lifts[l := Bump(Bump(c, b), a)]];
    assert Bump(Bump(c, a), b) == Bump(Bump(c, b), a);
  }

  /** The sets counted in order, first to last. */
  function Tally(isoWeek: int -> int, s: seq<RawSet>): WeeklyVolume {
    if |s| == 0 then Empty else Add(isoWeek, Tally(isoWeek, s[..|s| - 1]), s[|s| - 1])
  }

  /** The sets counted in order, last to first. */
  function TallyBack(isoWeek: int -> int, s: seq<RawSet>): WeeklyVolume {
    if |s| == 0 then Empty else Add(isoWeek, TallyBack(isoWeek, s[1..]), s[0])
  }

  lemma {:induction false} TallyCons(isoWeek: int -> int, x: RawSet, s: seq<RawSet>)
    ensures Tally(isoWeek, [x] + s) == Add(isoWeek, Tally(isoWeek, s), x)
  {
    if |s| == 0 {
      assert ([x] + s)[..0] == [];
    } else {
      var init := s[..|s| - 1];
      var y := s[|s| - 1];
      assert ([x] + s)[..|s|] == [x] + init;
      TallyCons(isoWeek, x, init);
      AddCommutes(isoWeek, Tally(isoWeek, init), x, y);
    }
  }

  /** Counting from the back gives the same result as counting from the front. */
  lemma {:induction false} TallyBackIsTally(isoWeek: int -> int, s: seq<RawSet>)
    ensures TallyBack(isoWeek, s) == Tally(isoWeek, s)
  {
    if |s| > 0 {
      TallyBackIsTally(isoWeek, s[1..]);
      TallyCons(isoWeek, s[0], s[1..]);
      assert [s[0]] + s[1..] == s;
    }
  }

  // ---------------------------------------------------------------------------
  // What a tally holds

  function InBucket(isoWeek: int -> int, w: int, l: string): RawSet -> bool {
    (s: RawSet) => isoWeek(s.date) == w && s.exerciseName == l
  }

  function IsDropIn(isoWeek: int -> int, w: int, l: string): RawSet -> bool {
    (s: RawSet) => isoWeek(s.date) == w && s.exerciseName == l && s.setMark == DropSetMark
  }

  function IsStraightIn(isoWeek: int -> int, w: int, l: string): RawSet -> bool {
    (s: RawSet) => isoWeek(s.date) == w && s.exerciseName == l && s.setMark != DropSetMark
  }

  /**
   * Every week and exercise holds exactly the number of counted straight and
   * drop sets of that ISO week and exercise, an entry exists exactly when
   * there is such a set, and the total is the number of counted sets.
   */
  lemma {:induction false} TallyCounts(isoWeek: int -> int, s: seq<RawSet>, w: int, l: string)
    ensures Tally(isoWeek, s).totalSets == |s|
    ensures Cell(Tally(isoWeek, s), w, l)
         == LiftVolume(|Filter(s, IsStraightIn(isoWeek, w, l))|, |Filter(s, IsDropIn(isoWeek, w, l))|)
    ensures (w in Tally(isoWeek, s).weeks && l in Tally(isoWeek, s).weeks[w]) <==> Filter(s, InBucket(isoWeek, w, l)) != []
  {
    if |s| > 0 {
      var init := s[..|s| - 1];
      TallyCounts(isoWeek, init, w, l);
      var x := s[|s| - 1];
      AddCell(isoWeek, Tally(isoWeek, init), x, w, l);
      if InBucket(isoWeek, w, l)(x) {
        assert x in Filter(s, InBucket(isoWeek, w, l));
      }
    }
  }

  // ---------------------------------------------------------------------------
  // The total is the sum over all weeks and exercises

  /** The sum of `f` over the entries of `m` at the keys `ks`. */
  ghost function SumOver<K, V>(m: map<K, V>, ks: set<K>, f: V -> nat): nat
    requires ks <= m.Keys
    decreases |ks|
  {
    if ks == {} then 0 else var k :| k in ks; f(m[k]) + SumOver(m, ks - {k}, f)
  }

  lemma SumOverRemove<K, V>(m: map<K, V>, ks: set<K>, k: K, f: V -> nat)
    requires ks <= m.Keys && k in ks
    ensures SumOver(m, ks, f) == f(m[k]) + SumOver(m, ks - {k}, f)
    decreases |ks|
  {
    var j :| j in ks && SumOver(m, ks, f) == f(m[j]) + SumOver(m, ks - {j}, f);
    if j != k {
      SumOverRemove(m, ks - {j}, k, f);
      SumOverRemove(m, ks - {k}, j, f);
      assert ks - {j} - {k} == ks - {k} - {j};
    }
  }

  lemma SumOverSame<K, V>(m1: map<K, V>, m2: map<K, V>, ks: set<K>, f: V -> nat)
    requires ks <= m1.Keys && ks <= m2.Keys
    requires forall k :: k in ks ==> f(m1[k]) == f(m2[k])
    ensures SumOver(m1, ks, f) == SumOver(m2, ks, f)
    decreases |ks|
  {
    if ks != {} {
      var k :| k in ks;
      SumOverRemove(m1, ks, k, f);
      SumOverRemove(m2, ks, k, f);
      SumOverSame(m1, m2, ks - {k}, f);
    }
  }

  /** Replacing one entry changes the sum by the difference. */
  lemma SumOverUpdate<K, V>(m: map<K, V>, k: K, v: V, f: V -> nat)
    ensures SumOver(m[k := v], m[k := v].Keys, f) + (if k in m then f(m[k]) else 0) == SumOver(m, m.Keys, f) + f(v)
  {
    var m' := m[k := v];
    SumOverRemove(m', m'.Keys, k, f);
    assert m'.Keys - {k} == m.Keys - {k};
    SumOverSame(m', m, m.Keys - {k}, f);
    if k in m {
      SumOverRemove(m, m.Keys, k, f);
    } else {
      assert m.Keys - {k} == m.Keys;
    }
  }

  function SetsOf(lv: LiftVolume): nat { lv.straightSets + lv.dropSets }

  ghost function LiftsTotal(lifts: map<string, LiftVolume>): nat {
    SumOver(lifts, lifts.Keys, SetsOf)
  }

  ghost function WeeksTotal(weeks: map<int, map<string, LiftVolume>>): nat {
    SumOver(weeks, weeks.Keys, LiftsTotal)
  }

  lemma AddKeepsTotal(isoWeek: int -> int, v: WeeklyVolume, s: RawSet)
    ensures WeeksTotal(Add(isoWeek, v, s).weeks) == WeeksTotal(v.weeks) + 1
  {
    var w := isoWeek(s.date);
    var lifts := LiftsOf(v, w);
    var c := Cell(v, w, s.exerciseName);
    SumOverUpdate(lifts, s.exerciseName, Bump(c, s), SetsOf);
    SumOverUpdate(v.weeks, w, lifts[s.exerciseName := Bump(c, s)], LiftsTotal);
    assert Add(isoWeek, v, s).weeks == v.weeks[w := lifts[s.exerciseName := Bump(c, s)]];
  }

  /** `totalSets` is the sum of straight and drop sets over every week and exercise. */
  lemma {:induction false} TallyTotalIsSum(isoWeek: int -> int, s: seq<RawSet>)
    ensures Tally(isoWeek, s).totalSets == WeeksTotal(Tally(isoWeek, s).weeks)
  {
    if |s| > 0 {
      TallyTotalIsSum(isoWeek, s[..|s| - 1]);
      AddKeepsTotal(isoWeek, Tally(isoWeek, s[..|s| - 1]), s[|s| - 1]);
    }
  }

  // ---------------------------------------------------------------------------
  // The scan

  /** Both bounds are inclusive. */
  function InRange(from: int, to: int): RawSet -> bool {
    (s: RawSet) => from <= s.date <= to
  }

  predicate DateSorted(sets: seq<RawSet>) {
    forall i, j :: 0 <= i < j < |sets| ==> sets[i].date <= sets[j].date
  }

  datatype Mode = Forward | Backward

  /** dayjs's `a.diff(b, 'day')` on instants in milliseconds: whole days, truncated toward zero. */
  function DiffDays(a: int, b: int): int {
    var d := a - b;
    if d >= 0 then d / Progression.MillisPerDay else -((-d) / Progression.MillisPerDay)
  }

  /** `endOf('day')` of a day: its last millisecond. */
  function EndOfDay(day: int): int { (day + 1) * Progression.MillisPerDay - 1 }

  /** Between two midnights the day difference is exact. */
  lemma DiffMidnights(a: int, b: int)
    ensures DiffDays(Progression.Midnight(a), Progression.Midnight(b)) == a - b
  {
    var d := Progression.Midnight(a) - Progression.Midnight(b);
    assert d == (a - b) * Progression.MillisPerDay;
    if a >= b {
      DivExact(a - b, 0);
    } else {
      assert -d == (b - a) * Progression.MillisPerDay;
      DivExact(b - a, 0);
    }
  }

  lemma DivExact(q: int, r: int)
    requires 0 <= r < Progression.MillisPerDay
    ensures (q * Progression.MillisPerDay + r) / Progression.MillisPerDay == q
  {
  }

  /**
   * `toDate.diff(lastSetDate, 'day')`: from the end of `to` to the start of
   * `last`, in whole days truncated toward zero.
   */
  function EndDiff(to: int, last: int): (r: int)
    ensures r == DiffDays(EndOfDay(to), Progression.Midnight(last))
  {
    var d := EndOfDay(to) - Progression.Midnight(last);
    if to >= last then
      assert d == (to - last) * Progression.MillisPerDay + (Progression.MillisPerDay - 1);
      DivExact(to - last, Progression.MillisPerDay - 1);
      to - last
    else
      assert -d == (last - to - 1) * Progression.MillisPerDay + 1;
      DivExact(last - to - 1, 1);
      to - last + 1
  }

  /**
   * The `mode`: forward when, in dayjs's day differences, the first set is
   * nearer the start of the range than the end of the range is to the last
   * set.
   */
  function ChooseMode(sets: seq<RawSet>, from: int, to: int): (m: Mode)
    requires |sets| > 0
    ensures m == Forward <==>
      DiffDays(Progression.Midnight(sets[0].date), Progression.Midnight(from))
        < DiffDays(EndOfDay(to), Progression.Midnight(sets[|sets| - 1].date))
  {
    DiffMidnights(sets[0].date, from);
    if sets[0].date - from < EndDiff(to, sets[|sets| - 1].date) then Forward else Backward
  }

  /** Where the forward scan stops: the first set after `to`, or the end. */
  function CutForward(sets: seq<RawSet>, to: int): (k: nat)
    ensures k <= |sets|
    ensures forall j :: 0 <= j < k ==> sets[j].date <= to
    ensures k < |sets| ==> sets[k].date > to
  {
    if |sets| == 0 || sets[0].date > to then 0 else 1 + CutForward(sets[1..], to)
  }

  /** Where the backward scan stops: just after the last set before `from`, or the start. */
  function CutBackward(sets: seq<RawSet>, from: int): (p: nat)
    ensures p <= |sets|
    ensures forall j :: p <= j < |sets| ==> sets[j].date >= from
    ensures p > 0 ==> sets[p - 1].date < from
  {
    if |sets| == 0 || sets[|sets| - 1].date < from then |sets| else CutBackward(sets[..|sets| - 1], from)
  }

  /** The forward loop: stop at the first set after `to`, count the sets inside the range. */
  method ScanForward(isoWeek: int -> int, sets: seq<RawSet>, from: int, to: int) returns (r: WeeklyVolume)
    ensures r == Tally(isoWeek, Filter(sets[..CutForward(sets, to)], InRange(from, to)))
  {
    r := Empty;
    var inRange := InRange(from, to);
    var i := 0;
    while i < |sets|
      invariant 0 <= i <= |sets|
      invariant forall j :: 0 <= j < i ==> sets[j].date <= to
      invariant r == Tally(isoWeek, Filter(sets[..i], inRange))
    {
      var d := sets[i].date;
      if d > to {
        break;
      }
      ForwardStep(isoWeek, sets, i, inRange, r);
      assert inRange(sets[i]) <==> !(d > to || d < from);
      if !(d > to || d < from) {
        r := Add(isoWeek, r, sets[i]);
      }
      i := i + 1;
    }
    CutForwardUnique(sets, to, i);
  }

  /** One forward iteration: the running tally over a prefix extends to the next set. */
  lemma ForwardStep(isoWeek: int -> int, sets: seq<RawSet>, i: nat, p: RawSet -> bool, r: WeeklyVolume)
    requires i < |sets| && r == Tally(isoWeek, Filter(sets[..i], p))
    ensures (if p(sets[i]) then Add(isoWeek, r, sets[i]) else r) == Tally(isoWeek, Filter(sets[..i + 1], p))
  {
    FilterPrefixStep(sets, i, p);
    var f := Filter(sets[..i], p);
    if p(sets[i]) {
      assert (f + [sets[i]])[..|f|] == f;
    } else {
      assert f + [] == f;
    }
  }

  /** One backward iteration: the running tally over a suffix extends to the previous set. */
  lemma BackwardStep(isoWeek: int -> int, sets: seq<RawSet>, i: nat, p: RawSet -> bool, r: WeeklyVolume)
    requires i < |sets| && r == TallyBack(isoWeek, Filter(sets[i + 1..], p))
    ensures (if p(sets[i]) then Add(isoWeek, r, sets[i]) else r) == TallyBack(isoWeek, Filter(sets[i..], p))
  {
    FilterSuffixStep(sets, i, p);
    var f := Filter(sets[i + 1..], p);
    if p(sets[i]) {
      assert ([sets[i]] + f)[1..] == f;
    } else {
      assert [] + f == f;
    }
  }

  lemma CutBackwardUnique(sets: seq<RawSet>, from: int, p: nat)
    requires p <= |sets|
    requires forall j :: p <= j < |sets| ==> sets[j].date >= from
    requires p > 0 ==> sets[p - 1].date < from
    ensures p == CutBackward(sets, from)
  {
  }

  lemma CutForwardUnique(sets: seq<RawSet>, to: int, k: nat)
    requires k <= |sets|
    requires forall j :: 0 <= j < k ==> sets[j].date <= to
    requires k < |sets| ==> sets[k].date > to
    ensures k == CutForward(sets, to)
  {
  }

  /** The backward loop: stop at the last set before `from`, count the sets inside the range. */
  method ScanBackward(isoWeek: int -> int, sets: seq<RawSet>, from: int, to: int) returns (r: WeeklyVolume)
    ensures r == Tally(isoWeek, Filter(sets[CutBackward(sets, from)..], InRange(from, to)))
  {
    r := Empty;
    var inRange := InRange(from, to);
    var i := |sets| - 1;
    while i >= 0
      invariant -1 <= i < |sets|
      invariant forall j :: i < j < |sets| ==> sets[j].date >= from
      invariant r == TallyBack(isoWeek, Filter(sets[i + 1..], inRange))
      decreases i
    {
      var d := sets[i].date;
      if d < from {
        break;
      }
      BackwardStep(isoWeek, sets, i, inRange, r);
      assert inRange(sets[i]) <==> !(d > to || d < from);
      ghost var counted := sets[i..];
      if !(d > to || d < from) {
        r := Add(isoWeek, r, sets[i]);
      }
      i := i - 1;
      assert sets[i + 1..] == counted;
    }
    BackwardDone(isoWeek, sets, from, inRange, i + 1, r);
  }

  /** When the backward loop stops, its suffix is the one `CutBackward` picks. */
  lemma BackwardDone(isoWeek: int -> int, sets: seq<RawSet>, from: int, p: RawSet -> bool, k: nat, r: WeeklyVolume)
    requires k <= |sets|
    requires forall j :: k <= j < |sets| ==> sets[j].date >= from
    requires k > 0 ==> sets[k - 1].date < from
    requires r == TallyBack(isoWeek, Filter(sets[k..], p))
    ensures r == Tally(isoWeek, Filter(sets[CutBackward(sets, from)..], p))
  {
    CutBackwardUnique(sets, from, k);
    TallyBackIsTally(isoWeek, Filter(sets[k..], p));
  }

  method CalculateWeeklyVolume(isoWeek: int -> int, sets: seq<RawSet>, from: int, to: int) returns (r: WeeklyVolume)
    ensures |sets| == 0 ==> r == Empty
    ensures |sets| > 0 && ChooseMode(sets, from, to) == Forward ==>
      r == Tally(isoWeek, Filter(sets[..CutForward(sets, to)], InRange(from, to)))
    ensures |sets| > 0 && ChooseMode(sets, from, to) == Backward ==>
      r == Tally(isoWeek, Filter(sets[CutBackward(sets, from)..], InRange(from, to)))
    ensures DateSorted(sets) ==> r == Tally(isoWeek, Filter(sets, InRange(from, to)))
    ensures from > to ==> r == Empty
  {
    if |sets| == 0 {
      return Empty;
    }
    if ChooseMode(sets, from, to) == Forward {
      r := ScanForward(isoWeek, sets, from, to);
      if DateSorted(sets) {
        SortedCutForward(sets, from, to);
      }
      if from > to {
        NothingInEmptyRange(sets[..CutForward(sets, to)], from, to);
      }
    } else {
      r := ScanBackward(isoWeek, sets, from, to);
      if DateSorted(sets) {
        SortedCutBackward(sets, from, to);
      }
      if from > to {
        NothingInEmptyRange(sets[CutBackward(sets, from)..], from, to);
      }
    }
  }

  lemma NothingInEmptyRange(sets: seq<RawSet>, from: int, to: int)
    requires from > to
    ensures Filter(sets, InRange(from, to)) == []
  {
  }

  lemma NonePass(s: seq<RawSet>, p: RawSet -> bool)
    requires forall i :: 0 <= i < |s| ==> !p(s[i])
    ensures Filter(s, p) == []
  {
  }

  /** On sorted input the forward scan's early stop skips no set inside the range. */
  lemma SortedCutForward(sets: seq<RawSet>, from: int, to: int)
    requires DateSorted(sets)
    ensures Filter(sets[..CutForward(sets, to)], InRange(from, to)) == Filter(sets, InRange(from, to))
  {
    var k := CutForward(sets, to);
    assert sets == sets[..k] + sets[k..];
    FilterConcat(sets[..k], sets[k..], InRange(from, to));
    NonePass(sets[k..], InRange(from, to));
  }

  /** On sorted input the backward scan's early stop skips no set inside the range. */
  lemma SortedCutBackward(sets: seq<RawSet>, from: int, to: int)
    requires DateSorted(sets)
    ensures Filter(sets[CutBackward(sets, from)..], InRange(from, to)) == Filter(sets, InRange(from, to))
  {
    var p := CutBackward(sets, from);
    assert sets == sets[..p] + sets[p..];
    FilterConcat(sets[..p], sets[p..], InRange(from, to));
    NonePass(sets[..p], InRange(from, to));
  }

  /** On sorted input both scan directions count the same sets into the same weeks. */
  lemma DirectionIrrelevant(isoWeek: int -> int, sets: seq<RawSet>, from: int, to: int)
    requires DateSorted(sets)
    ensures Tally(isoWeek, Filter(sets[..CutForward(sets, to)], InRange(from, to)))
         == Tally(isoWeek, Filter(sets[CutBackward(sets, from)..], InRange(from, to)))
  {
    SortedCutForward(sets, from, to);
    SortedCutBackward(sets, from, to);
  }
}
