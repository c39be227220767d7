/**
 * The ordered keyword rule table that attributes a lift name to muscle
 * groups (src/engine/volume/lift-definitions.ts), as constant data. The
 * string values of the muscle-group enumeration live in
 * src/components/data/constants, which is not part of this model; muscle
 * groups are therefore the enumeration's member names.
 */
module LiftDefinitions {

  /** `KeywordRuleLabels`, in declaration order. */
  datatype RuleLabel =
    | NeckIsolation | ShrugsAndTraps | UpperBack | Lats | ChestCompounds | ChestIsolation
    | OverheadPresses | FrontDeltsIsolation | SideDeltsIsolation | SideDeltsCompounds
    | RearDeltsIsolation | Biceps | HammerCurl | Triceps | ForearmIsolation | Abs | Obliques
    | QuadCompounds | QuadsIsolation | Glutes | HamstringsCompounds | HamstringsIsolation
    | CalvesIsolation | OddLiftsDeadlift | OddLiftsCloseGripBench | OddLiftsHyperextension

  /** The string value of each label. */
  function LabelText(l: RuleLabel): string {
    match l
    case NeckIsolation => "Neck Isolation"
    case ShrugsAndTraps => "Shrugs and Traps"
    case UpperBack => "Upper Back"
    case Lats => "Lats"
    case ChestCompounds => "Chest Compounds"
    case ChestIsolation => "Chest Isolation"
    case OverheadPresses => "Overhead Presses"
    case FrontDeltsIsolation => "Front Delts Isolation"
    case SideDeltsIsolation => "Side Delts Isolation"
    case SideDeltsCompounds => "Side Delts Compounds"
    case RearDeltsIsolation => "Rear Delts Isolation"
    case Biceps => "Biceps"
    case HammerCurl => "Hammer Curl"
    case Triceps => "Triceps"
    case ForearmIsolation => "Forearm Isolation"
    case Abs => "Abs"
    case Obliques => "Obliques"
    case QuadCompounds => "Quad compounds"
    case QuadsIsolation => "Quads Isolation"
    case Glutes => "Glutes"
    case HamstringsCompounds => "Hamstrings Compounds"
    case HamstringsIsolation => "Hamstrings Isolation"
    case CalvesIsolation => "Calves Isolation"
    case OddLiftsDeadlift => "Odd Lifts - Deadlift"
    case OddLiftsCloseGripBench => "Odd Lifts - Close Grip Bench"
    case OddLiftsHyperextension => "Odd Lifts - Hyperextension"
  }

  /** The declaration order of the labels. */
  const LabelOrder: seq<RuleLabel> := [
    NeckIsolation, ShrugsAndTraps, RuleLabel.UpperBack, RuleLabel.Lats, ChestCompounds, ChestIsolation,
    OverheadPresses, FrontDeltsIsolation, SideDeltsIsolation, SideDeltsCompounds,
    RearDeltsIsolation, RuleLabel.Biceps, HammerCurl, RuleLabel.Triceps, ForearmIsolation, RuleLabel.Abs, RuleLabel.Obliques,
    QuadCompounds, QuadsIsolation, RuleLabel.Glutes, HamstringsCompounds, HamstringsIsolation,
    CalvesIsolation, OddLiftsDeadlift, OddLiftsCloseGripBench, OddLiftsHyperextension]

  /**
   * The muscle groups the rules name, plus `Unknown`, the fallback string
   * the attributor uses when no rule scores enough.
   */
  datatype Muscle =
    | Neck | UpperTraps | UpperBack | Lats | Chest | FrontDelts | SideDelts | RearDelts
    | Biceps | Triceps | Forearms | Abs | Obliques | Quads | Glutes | Hamstrings | LowerBack
    | Calves | Unknown

  /** A keyword: a plain substring, or a regular expression given by its source text. */
  datatype Keyword = Literal(text: string) | Pattern(source: string)

  /** `keyword.toString()`: the text of a literal, `/source/` for a regular expression. */
  function KeywordText(k: Keyword): string {
    match k
    case Literal(t) => t
    case Pattern(p) => "/" + p + "/"
  }

  datatype Rule = Rule(ruleLabel: RuleLabel, keywords: seq<Keyword>, primary: seq<Muscle>, secondary: seq<Muscle>)

  /** `MUSCLE_GROUP_KEYWORD_RULES`. */
  const Rules: seq<Rule> := [
    Rule(RuleLabel.NeckIsolation, [Literal("neck")], [Neck], []),
    Rule(RuleLabel.ShrugsAndTraps,
      [Literal("shrug"), Literal("rack pull"), Literal("high pull"), Literal("carry"), Literal("carries")],
      [UpperTraps], [Muscle.UpperBack, Forearms]),
    Rule(RuleLabel.UpperBack, [Literal("wide"), Pattern("rows?"), Pattern("face[\\s-]?pull")],
      [Muscle.UpperBack], [Muscle.Lats, RearDelts, Muscle.Biceps]),
    Rule(RuleLabel.Lats,
      [Literal("lat"), Literal("row"), Literal("narrow"), Pattern("pull[\\s-]?overs?"), Pattern("pull[\\s-]?ups?"),
       Pattern("chin[\\s-]?ups?"), Pattern("pull[\\s-]?downs?")],
      [Muscle.Lats], [Muscle.UpperBack, Muscle.Biceps, RearDelts]),
    Rule(ChestCompounds, [Literal("bench"), Literal("chest"), Literal("dips"), Literal("press"), Pattern("push[\\s-]?up")],
      [Chest], [FrontDelts, Muscle.Triceps]),
    Rule(ChestIsolation, [Literal("chest"), Pattern("cross-?over"), Pattern("fly[es]?"), Pattern("pec\\s?deck?")],
      [Chest], []),
    Rule(OverheadPresses,
      [Literal("press"), Literal("ohp"), Literal("shoulder"), Literal("overhead"), Literal("arnold"),
       Literal("military"), Literal("landmine"), Literal("viking"), Literal("log")],
      [FrontDelts], [Muscle.Triceps, SideDelts]),
    Rule(FrontDeltsIsolation, [Literal("raise"), Literal("front")], [FrontDelts], []),
    Rule(SideDeltsIsolation, [Literal("lateral"), Literal("raise")], [SideDelts], [FrontDelts, RearDelts]),
    Rule(SideDeltsCompounds, [Literal("upright"), Literal("upright row")], [SideDelts], [UpperTraps, Muscle.Biceps]),
    Rule(RearDeltsIsolation, [Literal("rear"), Literal("reverse"), Literal("fly"), Pattern("pec\\s?dec")],
      [RearDelts], [Muscle.UpperBack]),
    Rule(RuleLabel.Biceps,
      [Literal("curl"), Literal("bicep"), Literal("preacher"), Literal("concentration"), Literal("spider"),
       Literal("drag"), Literal("zottman"), Literal("incline"), Literal("bayesian")],
      [Muscle.Biceps], []),
    Rule(HammerCurl, [Literal("hammer"), Literal("curl")], [Forearms], [Muscle.Biceps]),
    Rule(RuleLabel.Triceps,
      [Literal("tricep"), Literal("pushdown"), Literal("extension"), Literal("kickback"),
       Pattern("skull\\s?crusher"), Literal("jm")],
      [Muscle.Triceps], []),
    Rule(ForearmIsolation, [Literal("wrist"), Literal("forearm")], [Forearms], []),
    Rule(RuleLabel.Abs,
      [Literal("crunch"), Literal("plank"), Literal("raise"), Literal("leg"), Literal("knee"), Literal("hanging"),
       Literal("rollout"), Literal("wheel"), Literal("roller"), Pattern("sit[\\s-]?ups?"), Pattern("abs?\\s")],
      [Muscle.Abs], []),
    Rule(RuleLabel.Obliques,
      [Literal("oblique"), Literal("twist"), Literal("chopper"), Literal("bend"), Literal("side"),
       Literal("windshield"), Literal("lateral")],
      [Muscle.Obliques], [Muscle.Abs]),
    Rule(QuadCompounds,
      [Literal("squat"), Literal("lunge"), Literal("split"), Literal("press"), Literal("leg"), Pattern("step[\\s-]?ups?")],
      [Quads], [Muscle.Glutes]),
    Rule(QuadsIsolation, [Literal("leg"), Literal("extension"), Literal("sissy")], [Quads], []),
    Rule(RuleLabel.Glutes,
      [Literal("glute"), Literal("hip"), Literal("thrust"), Literal("kickback"), Literal("frog"), Literal("sumo")],
      [Muscle.Glutes], [Hamstrings]),
    Rule(HamstringsCompounds,
      [Literal("hamstring"), Literal("rdl"), Literal("romanian"), Literal("ghr"), Literal("ham raise"), Literal("morning")],
      [Hamstrings], [Muscle.Glutes, LowerBack]),
    Rule(HamstringsIsolation, [Literal("leg"), Literal("hamstring"), Literal("curl"), Literal("nordic")], [Hamstrings], []),
    Rule(CalvesIsolation, [Literal("calf"), Literal("calves")], [Calves], []),
    Rule(OddLiftsDeadlift, [Literal("conventional"), Literal("deadlift")],
      [], [LowerBack, Muscle.Glutes, Hamstrings, Quads, UpperTraps]),
    Rule(OddLiftsCloseGripBench, [Literal("press"), Literal("close"), Literal("grip")],
      [Chest, Muscle.Triceps], [FrontDelts]),
    Rule(OddLiftsHyperextension,
      [Literal("back"), Literal("extension"), Literal("hyper"), Pattern("hyper[\\s-]?extension")],
      [LowerBack], [Muscle.Glutes, Hamstrings])
  ]

  /** The position of each label in the declaration order. */
  function LabelIndex(l: RuleLabel): (i: nat)
    ensures i < |LabelOrder| && LabelOrder[i] == l
  {
    match l
    case NeckIsolation => 0
    case ShrugsAndTraps => 1
    case UpperBack => 2
    case Lats => 3
    case ChestCompounds => 4
    case ChestIsolation => 5
    case OverheadPresses => 6
    case FrontDeltsIsolation => 7
    case SideDeltsIsolation => 8
    case SideDeltsCompounds => 9
    case RearDeltsIsolation => 10
    case Biceps => 11
    case HammerCurl => 12
    case Triceps => 13
    case ForearmIsolation => 14
    case Abs => 15
    case Obliques => 16
    case QuadCompounds => 17
    case QuadsIsolation => 18
    case Glutes => 19
    case HamstringsCompounds => 20
    case HamstringsIsolation => 21
    case CalvesIsolation => 22
    case OddLiftsDeadlift => 23
    case OddLiftsCloseGripBench => 24
    case OddLiftsHyperextension => 25
  }

  /** Every label is declared exactly once. */
  lemma LabelsDeclaredOnce()
    ensures |LabelOrder| == 26
    ensures forall i :: 0 <= i < |LabelOrder| ==> LabelIndex(LabelOrder[i]) == i
    ensures forall i, j :: 0 <= i < j < |LabelOrder| ==> LabelOrder[i] != LabelOrder[j]
    ensures forall l: RuleLabel :: l in LabelOrder
  {
    forall i | 0 <= i < |LabelOrder| ensures LabelIndex(LabelOrder[i]) == i {
      if i < 13 {
        assert i in {0, 1, 2, 3, 4, 5, 6, 7, 8, 9, 10, 11, 12};
      } else {
        assert i in {13, 14, 15, 16, 17, 18, 19, 20, 21, 22, 23, 24, 25};
      }
    }
    forall l: RuleLabel ensures l in LabelOrder {
      assert LabelOrder[LabelIndex(l)] == l;
    }
  }

  /** The table has 26 rules, one per label, in the order the labels are declared. */
  lemma RulesFollowLabelOrder()
    ensures |Rules| == |LabelOrder|
    ensures forall i :: 0 <= i < |Rules| ==> Rules[i].ruleLabel == LabelOrder[i]
  {
    forall i | 0 <= i < |Rules| ensures Rules[i].ruleLabel == LabelOrder[i] {
      if i < 13 {
        assert i in {0, 1, 2, 3, 4, 5, 6, 7, 8, 9, 10, 11, 12};
      } else {
        assert i in {13, 14, 15, 16, 17, 18, 19, 20, 21, 22, 23, 24, 25};
      }
    }
  }

  /** The labels' string values are distinct, so a `sourceRule` string names one rule. */
  lemma LabelTextsDistinct(a: RuleLabel, b: RuleLabel)
    requires a != b
    ensures LabelText(a) != LabelText(b)
  {
  }

  /** Every rule has at least one keyword. */
  lemma EveryRuleHasKeywords()
    ensures forall i :: 0 <= i < |Rules| ==> |Rules[i].keywords| > 0
  {
  }

  /** Only the deadlift rule has no primary muscle group. */
  lemma OnlyDeadliftLacksPrimary()
    ensures forall i :: 0 <= i < |Rules| ==> (|Rules[i].primary| == 0 <==> Rules[i].ruleLabel == OddLiftsDeadlift)
  {
  }

  /**
   * The literal `press` belongs to exactly four rules, and the chest
   * compounds rule comes before the other three.
   */
  lemma PressRules()
    ensures forall i :: 0 <= i < |Rules| ==>
      (Literal("press") in Rules[i].keywords <==> i in {4, 6, 17, 24})
    ensures Rules[4].ruleLabel == ChestCompounds && Rules[6].ruleLabel == OverheadPresses
    ensures Rules[17].ruleLabel == QuadCompounds && Rules[24].ruleLabel == OddLiftsCloseGripBench
  {
    forall i | 0 <= i < |Rules|
      ensures Literal("press") in Rules[i].keywords <==> i in {4, 6, 17, 24}
    {
      if i in {4, 6, 17, 24} {
        assert Rules[i].keywords[if i == 17 || i == 4 then 3 else 0] == Literal("press");
      } else {
        NoPress(i);
      }
    }
  }

  predicate PressFree(ks: seq<Keyword>) { forall j :: 0 <= j < |ks| ==> KeywordText(ks[j]) != "press" }

  lemma NoPressFromText(ks: seq<Keyword>)
    requires PressFree(ks)
    ensures Literal("press") !in ks
  {
    forall j | 0 <= j < |ks| ensures ks[j] != Literal("press") {
      assert KeywordText(ks[j]) != "press";
    }
  }

  lemma NoPressNeckToLats(i: nat)
    requires i < 4
    ensures PressFree(Rules[i].keywords)
  {
  }

  lemma NoPressChestAndDelts(i: nat)
    requires 4 < i < 10 && i != 6
    ensures PressFree(Rules[i].keywords)
  {
  }

  lemma NoPressArms(i: nat)
    requires 10 <= i < 14
    ensures PressFree(Rules[i].keywords)
  {
  }

  lemma NoPressCore(i: nat)
    requires 14 <= i < 17
    ensures PressFree(Rules[i].keywords)
  {
  }

  lemma NoPressLegs(i: nat)
    requires 17 < i < 21
    ensures PressFree(Rules[i].keywords)
  {
  }

  lemma NoPressOddLifts(i: nat)
    requires 21 <= i < 26 && i != 24
    ensures PressFree(Rules[i].keywords)
  {
  }

  /** No rule other than the four press rules lists the literal `press`. */
  lemma NoPress(i: nat)
    requires i < |Rules| && i !in {4, 6, 17, 24}
    ensures Literal("press") !in Rules[i].keywords
  {
    if i < 4 {
      NoPressNeckToLats(i);
    } else if i < 10 {
      NoPressChestAndDelts(i);
    } else if i < 14 {
      NoPressArms(i);
    } else if i < 17 {
      NoPressCore(i);
    } else if i < 21 {
      NoPressLegs(i);
    } else {
      NoPressOddLifts(i);
    }
    NoPressFromText(Rules[i].keywords);
  }
}
