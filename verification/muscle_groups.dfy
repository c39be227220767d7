/**
 * `getAffectedMuscleGroups` (src/engine/volume/muscle-groups.ts): score
 * every rule of the table against the normalised lift name and keep a
 * running best, replaced only by a strictly greater score.
 *
 * The rule table lists bare keywords while the attributor destructures a
 * `keyword` and a `weight` from each. Read as written, that makes the first
 * keyword test throw a `TypeError` on every call (modelled at the end of
 * this module). The main model is the evidently intended loop, which reads
 * each keyword with a weight; the weights are therefore a parameter, as are
 * lower-casing, trimming and regular-expression matching.
 */
module MuscleGroups {
  import opened LiftDefinitions
  import opened Seqs
  import opened Wrappers

  /** `MIN_SCORE`. */
  const MinScore: real := 2.0

  /** The two kinds of comment the attributor writes, with the values it interpolates. */
  datatype Comment =
    | AlsoMatched(rule: RuleLabel, score: real)
    | NotEnough(score: real, rule: RuleLabel)

  /** `AffectedMuscleGroups`. */
  datatype Attribution = Attribution(
    primary: seq<Muscle>,
    secondary: seq<Muscle>,
    matchedKeywords: seq<string>,
    sourceRule: string,
    resultScore: real,
    comments: seq<Comment>,
    certainty: real)

  /** The best before any rule is scored. */
  const Initial: Attribution := Attribution([Unknown], [], [], "None", 0.0, [], 0.0)

  /**
   * `toLowerCase`, `trim`, `RegExp.prototype.test(source, text)` and the weight
   * of each keyword of each rule.
   */
  datatype TextOps = TextOps(
    lower: string -> string,
    trim: string -> string,
    test: (string, string) -> bool,
    weight: (RuleLabel, Keyword) -> real)

  /** `String.prototype.includes`. */
  predicate Contains(s: string, t: string) {
    exists i :: 0 <= i <= |s| - |t| && OccursAt(s, t, i)
  }

  predicate OccursAt(s: string, t: string, i: int)
    requires 0 <= i <= |s| - |t|
  {
    s[i..i + |t|] == t
  }

  function Matches(ops: TextOps, name: string, k: Keyword): bool {
    match k
    case Literal(t) => Contains(name, ops.lower(t))
    case Pattern(p) => ops.test(p, name)
  }

  function Matcher(ops: TextOps, name: string): Keyword -> bool { k => Matches(ops, name, k) }

  /** A rule with its score and the keywords that matched. */
  datatype Scored = Scored(rule: Rule, score: real, matched: seq<string>)

  /** The inner loop over a rule's keywords: the matching weights summed, the matching keywords listed. */
  function ScoreKeywords(ops: TextOps, l: RuleLabel, name: string, ks: seq<Keyword>): (r: (real, seq<string>))
    ensures |r.1| <= |ks|
  {
    if |ks| == 0 then (0.0, [])
    else
      var (score, matched) := ScoreKeywords(ops, l, name, ks[..|ks| - 1]);
      var k := ks[|ks| - 1];
      if Matches(ops, name, k) then (score + ops.weight(l, k), matched + [KeywordText(k)])
      else (score, matched)
  }

  function Weight(ops: TextOps, l: RuleLabel): Keyword -> real { k => ops.weight(l, k) }

  /** The sum of `w` over `ks`. */
  function Total(ks: seq<Keyword>, w: Keyword -> real): real {
    if |ks| == 0 then 0.0 else Total(ks[..|ks| - 1], w) + w(ks[|ks| - 1])
  }

  /**
   * A rule's score is the total weight of its matching keywords, and its
   * matched keywords are exactly the matching ones, in rule order.
   */
  lemma {:induction false} ScoreKeywordsIsFilter(ops: TextOps, l: RuleLabel, name: string, ks: seq<Keyword>)
    ensures ScoreKeywords(ops, l, name, ks).1 == Map(Filter(ks, Matcher(ops, name)), KeywordText)
    ensures ScoreKeywords(ops, l, name, ks).0 == Total(Filter(ks, Matcher(ops, name)), Weight(ops, l))
  {
    MatchedAreFiltered(ops, l, name, ks);
    ScoreIsTotal(ops, l, name, ks);
  }

  lemma {:induction false} MatchedAreFiltered(ops: TextOps, l: RuleLabel, name: string, ks: seq<Keyword>)
    ensures ScoreKeywords(ops, l, name, ks).1 == Map(Filter(ks, Matcher(ops, name)), KeywordText)
  {
    if |ks| > 0 {
      var init, k := ks[..|ks| - 1], ks[|ks| - 1];
      MatchedAreFiltered(ops, l, name, init);
      var f := Filter(init, Matcher(ops, name));
      assert Filter(ks, Matcher(ops, name)) == f + (if Matches(ops, name, k) then [k] else []);
      if Matches(ops, name, k) {
        MapSnoc(f, k, KeywordText);
      }
    }
  }

  lemma {:induction false} ScoreIsTotal(ops: TextOps, l: RuleLabel, name: string, ks: seq<Keyword>)
    ensures ScoreKeywords(ops, l, name, ks).0 == Total(Filter(ks, Matcher(ops, name)), Weight(ops, l))
  {
    if |ks| > 0 {
      var init, k := ks[..|ks| - 1], ks[|ks| - 1];
      ScoreIsTotal(ops, l, name, init);
      var f := Filter(init, Matcher(ops, name));
      assert Filter(ks, Matcher(ops, name)) == f + (if Matches(ops, name, k) then [k] else []);
      ScoreKeywordsSnoc(ops, l, name, ks);
      if Matches(ops, name, k) {
        TotalSnoc(f, k, Weight(ops, l));
        assert Weight(ops, l)(k) == ops.weight(l, k);
      } else {
        assert f + [] == f;
      }
    }
  }

  lemma ScoreKeywordsSnoc(ops: TextOps, l: RuleLabel, name: string, ks: seq<Keyword>)
    requires |ks| > 0
    ensures var k := ks[|ks| - 1];
      ScoreKeywords(ops, l, name, ks).0
        == ScoreKeywords(ops, l, name, ks[..|ks| - 1]).0 + (if Matches(ops, name, k) then ops.weight(l, k) else 0.0)
  {
  }

  lemma TotalSnoc(ks: seq<Keyword>, k: Keyword, w: Keyword -> real)
    ensures Total(ks + [k], w) == Total(ks, w) + w(k)
  {
    assert (ks + [k])[..|ks|] == ks;
  }

  function ScoreRule(ops: TextOps, name: string, rule: Rule): Scored {
    var (score, matched) := ScoreKeywords(ops, rule.ruleLabel, name, rule.keywords);
    Scored(rule, score, matched)
  }

  /** Certainty of a new best: 0.8 at exactly the minimum, 1 above 3, 0.9 in between, 0 below the minimum. */
  function FreshCertainty(score: real): (c: real)
    ensures score < MinScore ==> c == 0.0
    ensures score >= MinScore ==> 0.8 <= c <= 1.0
    ensures c == 1.0 <==> score > 3.0
  {
    if score >= MinScore then (if score == MinScore then 0.8 else if score > 3.0 then 1.0 else 0.9) else 0.0
  }

  /** The new best when `s` beats the running maximum. */
  function Fresh(s: Scored): (a: Attribution)
    ensures a.sourceRule == LabelText(s.rule.ruleLabel) && a.resultScore == s.score && a.matchedKeywords == s.matched
    ensures s.score >= MinScore ==> a.primary == s.rule.primary && a.secondary == s.rule.secondary && a.comments == []
    ensures s.score < MinScore ==>
      a.primary == [Unknown] && a.secondary == [] && a.comments == [NotEnough(s.score, s.rule.ruleLabel)]
    ensures a.certainty == FreshCertainty(s.score)
  {
    var enough := s.score >= MinScore;
    Attribution(
      if enough then s.rule.primary else [Unknown],
      if enough then s.rule.secondary else [],
      s.matched,
      LabelText(s.rule.ruleLabel),
      s.score,
      if enough then [] else [NotEnough(s.score, s.rule.ruleLabel)],
      FreshCertainty(s.score))
  }

  /** A tie lowers the certainty by 0.1 and caps it at 0.8. */
  function Degrade(c: real): (d: real)
    ensures d <= 0.8 && d <= c - 0.1
    ensures d == c - 0.1 || d == 0.8
  {
    if c - 0.1 < 0.8 then c - 0.1 else 0.8
  }

  datatype ScanState = ScanState(best: Attribution, maxScore: real)

  /** One iteration of the outer loop. */
  function Step(st: ScanState, s: Scored): (r: ScanState)
    ensures r.maxScore == (if s.score > st.maxScore then s.score else st.maxScore)
    ensures s.score > st.maxScore ==> r.best == Fresh(s)
    ensures s.score <= st.maxScore && (s.score < st.maxScore || s.score <= 0.0) ==> r.best == st.best
    ensures 0.0 < s.score == st.maxScore ==>
      && r.best.comments == st.best.comments + [AlsoMatched(s.rule.ruleLabel, s.score)]
      && r.best.certainty == Degrade(st.best.certainty)
      && r.best.(comments := st.best.comments, certainty := st.best.certainty) == st.best
  {
    var best :=
      if s.score > 0.0 && s.score == st.maxScore then
        st.best.(certainty := Degrade(st.best.certainty),
                 comments := st.best.comments + [AlsoMatched(s.rule.ruleLabel, s.score)])
      else st.best;
    if s.score > st.maxScore then ScanState(Fresh(s), s.score) else ScanState(best, st.maxScore)
  }

  /** The outer loop over the scored rules, in table order. */
  function Scan(ss: seq<Scored>): (r: ScanState)
    ensures r.maxScore >= 0.0
    ensures forall i :: 0 <= i < |ss| ==> ss[i].score <= r.maxScore
    ensures r.maxScore > 0.0 ==> r.best.resultScore == r.maxScore && exists i :: 0 <= i < |ss| && ss[i].score == r.maxScore
  {
    if |ss| == 0 then ScanState(Initial, 0.0)
    else
      var init := ss[..|ss| - 1];
      assert forall i :: 0 <= i < |init| ==> init[i] == ss[i];
      Step(Scan(init), ss[|ss| - 1])
  }

  // ---------------------------------------------------------------------------
  // The same result, described without the loop

  /** The greatest score, or 0 when none is positive. */
  function MaxScore(ss: seq<Scored>): (m: real)
    ensures m >= 0.0
    ensures forall i :: 0 <= i < |ss| ==> ss[i].score <= m
    ensures m > 0.0 ==> exists i :: 0 <= i < |ss| && ss[i].score == m
  {
    if |ss| == 0 then 0.0
    else
      var m := MaxScore(ss[..|ss| - 1]);
      var x := ss[|ss| - 1].score;
      if x > m then x else m
  }

  /** The first position scoring `m`, or the length when there is none. */
  function FirstAt(ss: seq<Scored>, m: real): (w: nat)
    ensures w <= |ss|
    ensures w < |ss| ==> ss[w].score == m
    ensures forall j :: 0 <= j < w ==> ss[j].score != m
    ensures w == |ss| ==> forall j :: 0 <= j < |ss| ==> ss[j].score != m
  {
    if |ss| == 0 then 0
    else
      var init := ss[..|ss| - 1];
      var k := FirstAt(init, m);
      if k < |init| then k else if ss[|ss| - 1].score == m then |init| else |ss|
  }

  /** The labels of the rules after position `w` that score `m`, in order. */
  function TiesAfter(ss: seq<Scored>, w: nat, m: real): seq<RuleLabel> {
    if |ss| <= w + 1 then []
    else TiesAfter(ss[..|ss| - 1], w, m) + (if ss[|ss| - 1].score == m then [ss[|ss| - 1].rule.ruleLabel] else [])
  }

  function TieComment(m: real): RuleLabel -> Comment { l => AlsoMatched(l, m) }

  /** `k` ties in a row. */
  function DegradeTimes(c: real, k: nat): real {
    if k == 0 then c else Degrade(DegradeTimes(c, k - 1))
  }

  /**
   * The attributor's result: nothing positive keeps the initial best;
   * otherwise the first rule reaching the greatest score wins, and each later
   * rule with the same score adds a comment and lowers the certainty.
   */
  function Expected(ss: seq<Scored>): Attribution {
    var m := MaxScore(ss);
    if m <= 0.0 then Initial
    else
      var w := FirstAt(ss, m);
      var f := Fresh(ss[w]);
      var ties := TiesAfter(ss, w, m);
      f.(comments := f.comments + Map(ties, TieComment(m)), certainty := DegradeTimes(f.certainty, |ties|))
  }

  /** The loop computes the declarative result, and its running maximum is the greatest score. */
  lemma {:induction false} ScanIsExpected(ss: seq<Scored>)
    ensures Scan(ss).best == Expected(ss)
    ensures Scan(ss).maxScore == MaxScore(ss)
  {
    if |ss| > 0 {
      var init := ss[..|ss| - 1];
      ScanIsExpected(init);
      var m, x := MaxScore(init), ss[|ss| - 1];
      if x.score > m {
        StepNewBest(ss);
      } else if m > 0.0 {
        StepAfterBest(ss);
      } else {
        StepNothingYet(ss);
      }
    }
  }

  /** The loop so far agrees with the declarative result on `ss` without its last rule. */
  ghost predicate ScannedUpToLast(ss: seq<Scored>)
    requires |ss| > 0
  {
    var init := ss[..|ss| - 1];
    Scan(init).best == Expected(init) && Scan(init).maxScore == MaxScore(init)
  }

  /** The last rule beats every earlier one: it becomes the best, with no ties yet. */
  lemma {:induction false} StepNewBest(ss: seq<Scored>)
    requires |ss| > 0 && ScannedUpToLast(ss) && ss[|ss| - 1].score > MaxScore(ss[..|ss| - 1])
    ensures Scan(ss).best == Expected(ss) && Scan(ss).maxScore == MaxScore(ss)
  {
    var init, x := ss[..|ss| - 1], ss[|ss| - 1];
    assert forall j :: 0 <= j < |init| ==> init[j] == ss[j];
    assert FirstAt(init, x.score) == |init|;
    assert FirstAt(ss, x.score) == |init|;
    assert TiesAfter(ss, |init|, x.score) == [];
    var f := Fresh(x);
    assert f.comments + Map([], TieComment(x.score)) == f.comments;
  }

  /** Some earlier rule scores positively and the last does not beat it: at most one more tie. */
  lemma {:induction false} StepAfterBest(ss: seq<Scored>)
    requires |ss| > 0 && ScannedUpToLast(ss)
    requires 0.0 < MaxScore(ss[..|ss| - 1]) && ss[|ss| - 1].score <= MaxScore(ss[..|ss| - 1])
    ensures Scan(ss).best == Expected(ss) && Scan(ss).maxScore == MaxScore(ss)
  {
    var init, x := ss[..|ss| - 1], ss[|ss| - 1];
    var m := MaxScore(init);
    FirstAtKept(ss, m);
    var w := FirstAt(init, m);
    TiesAfterSnoc(ss, w, m);
    if x.score == m {
      StepTie(ss, m, w);
    } else {
      StepBelowBest(ss, m, w);
    }
  }

  /** Once `m` occurs, a later rule does not move its first position. */
  lemma {:induction false} FirstAtKept(ss: seq<Scored>, m: real)
    requires |ss| > 0 && 0.0 < m == MaxScore(ss[..|ss| - 1])
    ensures FirstAt(ss[..|ss| - 1], m) < |ss| - 1
    ensures FirstAt(ss, m) == FirstAt(ss[..|ss| - 1], m)
  {
  }

  lemma {:induction false} TiesAfterSnoc(ss: seq<Scored>, w: nat, m: real)
    requires w < |ss| - 1
    ensures TiesAfter(ss, w, m)
      == TiesAfter(ss[..|ss| - 1], w, m) + (if ss[|ss| - 1].score == m then [ss[|ss| - 1].rule.ruleLabel] else [])
  {
  }

  /** The last rule ties the best: one more comment, one more degradation. */
  lemma {:induction false} StepTie(ss: seq<Scored>, m: real, w: nat)
    requires |ss| > 0 && ScannedUpToLast(ss)
    requires 0.0 < m == MaxScore(ss[..|ss| - 1]) == ss[|ss| - 1].score
    requires w == FirstAt(ss[..|ss| - 1], m) == FirstAt(ss, m) < |ss| - 1
    requires TiesAfter(ss, w, m) == TiesAfter(ss[..|ss| - 1], w, m) + [ss[|ss| - 1].rule.ruleLabel]
    ensures Scan(ss).best == Expected(ss) && Scan(ss).maxScore == MaxScore(ss)
  {
    var init, x := ss[..|ss| - 1], ss[|ss| - 1];
    assert init[w] == ss[w];
    var ties := TiesAfter(init, w, m);
    MapSnoc(ties, x.rule.ruleLabel, TieComment(m));
    var f := Fresh(ss[w]);
    assert f.comments + Map(ties + [x.rule.ruleLabel], TieComment(m))
        == f.comments + Map(ties, TieComment(m)) + [AlsoMatched(x.rule.ruleLabel, x.score)];
  }

  /** The last rule scores below the best: nothing changes. */
  lemma {:induction false} StepBelowBest(ss: seq<Scored>, m: real, w: nat)
    requires |ss| > 0 && ScannedUpToLast(ss)
    requires 0.0 < m == MaxScore(ss[..|ss| - 1]) && ss[|ss| - 1].score < m
    requires w == FirstAt(ss[..|ss| - 1], m) == FirstAt(ss, m) < |ss| - 1
    requires TiesAfter(ss, w, m) == TiesAfter(ss[..|ss| - 1], w, m)
    ensures Scan(ss).best == Expected(ss) && Scan(ss).maxScore == MaxScore(ss)
  {
    assert ss[..|ss| - 1][w] == ss[w];
  }

  /** No rule has scored positively yet and the last one does not either. */
  lemma {:induction false} StepNothingYet(ss: seq<Scored>)
    requires |ss| > 0 && ScannedUpToLast(ss)
    requires MaxScore(ss[..|ss| - 1]) <= 0.0 && ss[|ss| - 1].score <= MaxScore(ss[..|ss| - 1])
    ensures Scan(ss).best == Expected(ss) && Scan(ss).maxScore == MaxScore(ss)
  {
  }

  // ---------------------------------------------------------------------------
  // getAffectedMuscleGroups

  /** `liftName.toLowerCase().trim()`. */
  function Normalise(ops: TextOps, liftName: string): string { ops.trim(ops.lower(liftName)) }

  function Scorer(ops: TextOps, name: string): Rule -> Scored { r => ScoreRule(ops, name, r) }

  /** Every rule of the table, scored against the normalised name. */
  function ScoredRules(ops: TextOps, liftName: string): (ss: seq<Scored>)
    ensures |ss| == |Rules|
    ensures forall i :: 0 <= i < |ss| ==> ss[i].rule == Rules[i]
  {
    Map(Rules, Scorer(ops, Normalise(ops, liftName)))
  }

  function GetAffectedMuscleGroups(ops: TextOps, liftName: string): (r: Attribution)
    ensures r == Expected(ScoredRules(ops, liftName))
    ensures r.resultScore == MaxScore(ScoredRules(ops, liftName))
  {
    ScanIsExpected(ScoredRules(ops, liftName));
    Scan(ScoredRules(ops, liftName)).best
  }

  /** Only the normalised name matters: names equal after lower-casing and trimming get the same result. */
  lemma OnlyNormalisedNameMatters(ops: TextOps, a: string, b: string)
    requires Normalise(ops, a) == Normalise(ops, b)
    ensures GetAffectedMuscleGroups(ops, a) == GetAffectedMuscleGroups(ops, b)
  {
  }

  /**
   * When some rule scores above zero, the result names the first rule with
   * the greatest score; every rule before it scored less, and every comment
   * about another match names a later rule with that same score.
   */
  lemma EarliestBestRuleWins(ss: seq<Scored>)
    requires MaxScore(ss) > 0.0
    ensures var w := FirstAt(ss, MaxScore(ss));
      && w < |ss|
      && Scan(ss).best.sourceRule == LabelText(ss[w].rule.ruleLabel)
      && Scan(ss).best.resultScore == ss[w].score == MaxScore(ss)
      && (forall j :: 0 <= j < w ==> ss[j].score < MaxScore(ss))
  {
    ScanIsExpected(ss);
  }

  /** Every tie comment names a rule after the winner with exactly the winning score. */
  lemma TiesAreLaterRules(ss: seq<Scored>, w: nat, m: real)
    ensures forall k :: 0 <= k < |TiesAfter(ss, w, m)| ==> LaterRuleScores(ss, w, m, TiesAfter(ss, w, m)[k])
  {
    forall k | 0 <= k < |TiesAfter(ss, w, m)|
      ensures LaterRuleScores(ss, w, m, TiesAfter(ss, w, m)[k])
    {
      var j := TieSource(ss, w, m, k);
    }
  }

  /** Some rule after position `w` has label `l` and score `m`. */
  predicate LaterRuleScores(ss: seq<Scored>, w: nat, m: real, l: RuleLabel) {
    exists j :: w < j < |ss| && ss[j].score == m && ss[j].rule.ruleLabel == l
  }

  /** The position of the rule behind the `k`-th tie. */
  lemma {:induction false} TieSource(ss: seq<Scored>, w: nat, m: real, k: nat) returns (j: nat)
    requires k < |TiesAfter(ss, w, m)|
    ensures w < j < |ss| && ss[j].score == m && ss[j].rule.ruleLabel == TiesAfter(ss, w, m)[k]
  {
    var init := ss[..|ss| - 1];
    var t := TiesAfter(init, w, m);
    var x := ss[|ss| - 1];
    assert TiesAfter(ss, w, m) == t + (if x.score == m then [x.rule.ruleLabel] else []);
    if k < |t| {
      j := TieSource(init, w, m, k);
      assert ss[j] == init[j];
    } else {
      j := |ss| - 1;
    }
  }

  /** With no positive score the initial best comes back unchanged. */
  lemma NoMatchKeepsInitial(ss: seq<Scored>)
    requires forall i :: 0 <= i < |ss| ==> ss[i].score <= 0.0
    ensures Scan(ss).best == Initial
  {
    ScanIsExpected(ss);
  }

  /**
   * A tie only caps the certainty, so a tie on a best below the minimum
   * score drives the certainty below zero.
   */
  lemma TieOnWeakMatchGoesNegative(a: Rule, b: Rule)
    ensures Scan([Scored(a, 1.0, []), Scored(b, 1.0, [])]).best.certainty == -0.1
  {
    var ss := [Scored(a, 1.0, []), Scored(b, 1.0, [])];
    assert ss[..1] == [Scored(a, 1.0, [])];
    assert ss[..1][..0] == [];
    var first := Scan(ss[..1]);
    assert Scan(ss[..1][..0]) == ScanState(Initial, 0.0);
    assert first == Step(Scan(ss[..1][..0]), ss[..1][0]);
    assert first == ScanState(Fresh(ss[0]), 1.0);
    assert first.best.certainty == 0.0;
    assert Scan(ss) == Step(first, ss[1]);
  }
  // ---------------------------------------------------------------------------
  // The keyword loop as written

  /**
   * `const {keyword, weight} = k` on an element of the table: a string and a
   * regular expression have no `keyword` property, so it is undefined.
   */
  function KeywordField(k: Keyword): Option<Keyword> { None }

  /**
   * The test as written, `None` standing for the `TypeError`: with `keyword`
   * undefined, `typeof keyword === 'string'` fails and `keyword.test` throws.
   */
  function TestAsWritten(ops: TextOps, name: string, field: Option<Keyword>): (r: Option<bool>)
    ensures r.None? <==> field.None?
    ensures field.Some? ==> r == Some(Matches(ops, name, field.value))
  {
    match field
    case None => None
    case Some(k) => Some(Matches(ops, name, k))
  }

  /** The inner loop as written: it throws at the first keyword it tests. */
  function ScoreKeywordsAsWritten(ops: TextOps, l: RuleLabel, name: string, ks: seq<Keyword>): (r: Option<(real, seq<string>)>)
    ensures r.None? <==> |ks| > 0
  {
    if |ks| == 0 then Some((0.0, []))
    else
      match ScoreKeywordsAsWritten(ops, l, name, ks[..|ks| - 1])
      case None => None
      case Some(acc) =>
        var k := ks[|ks| - 1];
        match TestAsWritten(ops, name, KeywordField(k))
        case None => None
        case Some(m) => if m then Some((acc.0 + ops.weight(l, k), acc.1 + [KeywordText(k)])) else Some(acc)
  }

  /** The outer loop as written over `rules`: it throws at the first rule that has a keyword. */
  function ScanAsWritten(ops: TextOps, name: string, rules: seq<Rule>): (r: Option<ScanState>)
    ensures r.None? <==> exists i :: 0 <= i < |rules| && |rules[i].keywords| > 0
  {
    if |rules| == 0 then Some(ScanState(Initial, 0.0))
    else
      var init, rule := rules[..|rules| - 1], rules[|rules| - 1];
      assert forall i :: 0 <= i < |init| ==> init[i] == rules[i];
      match ScanAsWritten(ops, name, init)
      case None => None
      case Some(st) =>
        match ScoreKeywordsAsWritten(ops, rule.ruleLabel, name, rule.keywords)
        case None => None
        case Some(acc) => Some(Step(st, Scored(rule, acc.0, acc.1)))
  }

  /** `getAffectedMuscleGroups` as written, `None` standing for the `TypeError`. */
  function GetAffectedMuscleGroupsAsWritten(ops: TextOps, liftName: string): (r: Option<Attribution>)
    ensures r.None? <==> exists i :: 0 <= i < |Rules| && |Rules[i].keywords| > 0
  {
    match ScanAsWritten(ops, Normalise(ops, liftName), Rules)
    case None => None
    case Some(st) => Some(st.best)
  }

  /**
   * Since the table's first rule has a keyword, the function as written
   * throws on every lift name; `GetAffectedMuscleGroups` is the evidently
   * intended loop, reading each keyword with its weight.
   */
  lemma AsWrittenAlwaysThrows(ops: TextOps, liftName: string)
    ensures GetAffectedMuscleGroupsAsWritten(ops, liftName) == None
  {
    EveryRuleHasKeywords();
    assert |Rules[0].keywords| > 0;
  }
}
