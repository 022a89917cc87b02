/** Scoring a candidate against a rubric from objective signals only. */
module Rubric {
  import opened Options
  import opened CandidateVerifier

  /** `text` is the criterion's title and rationale in lower case; a missing weight counts one. */
  datatype Criterion = Criterion(id: string, text: string, weight: Option<real>)

  datatype Summary = Summary(falseGreen: int, contractViolation: int, antiExampleMatched: bool)

  datatype Score = Score(score: real, scoredWeight: real, totalWeight: real, coverage: real, unsupported: seq<string>)

  predicate Includes(s: string, part: string)
    requires part != ""
    decreases |s|
  {
    |part| <= |s| && (s[..|part|] == part || Includes(s[1..], part))
  }

  function ScoreOfPhase(phase: Phase): Option<real> {
    match phase
    case WorktreeMissing => Some(0.0)
    case TypecheckFailed => Some(0.0)
    case TestsFailed => Some(0.0)
    case Passed => Some(1.0)
    case PassedTypecheckOnly => Some(0.5)
    case Skipped => None
  }

  /** `None` where no objective signal speaks for the criterion. */
  function ScoreCriterion(c: Criterion, phase: Option<Phase>, f: Summary): (r: Option<real>)
    ensures r.Some? ==> 0.0 <= r.value <= 1.0
  {
    if Includes(c.text, "passed implies") || Includes(c.text, "classification") || Includes(c.text, "invariant") then
      if phase.None? then None else ScoreOfPhase(phase.value)
    else if Includes(c.text, "false green") || Includes(c.text, "false-green") then
      Some(if f.falseGreen > 0 then 0.0 else 1.0)
    else if Includes(c.text, "contract") then
      Some(if f.contractViolation > 0 then 0.0 else 1.0)
    else if f.antiExampleMatched && (Includes(c.text, "anti") || Includes(c.text, "exemplar")) then Some(0.0)
    else None
  }

  /** What a criterion's score is made of: the verification phase for those about passing, classification or
      invariants; the reviewers' false greens and contract violations for those about these; a matched
      anti-example for those about anti-examples.  The first of these to apply decides. */
  lemma ScoreBySignal(c: Criterion, phase: Option<Phase>, f: Summary)
    ensures var passing := Includes(c.text, "passed implies") || Includes(c.text, "classification")
                           || Includes(c.text, "invariant");
      var greens := Includes(c.text, "false green") || Includes(c.text, "false-green");
      var contracts := Includes(c.text, "contract");
      var examples := Includes(c.text, "anti") || Includes(c.text, "exemplar");
      var score := ScoreCriterion(c, phase, f);
      && (passing && phase == Some(Passed) ==> score == Some(1.0))
      && (passing && phase == Some(PassedTypecheckOnly) ==> score == Some(0.5))
      && (passing && phase in {Some(TestsFailed), Some(TypecheckFailed), Some(WorktreeMissing)} ==> score == Some(0.0))
      && (passing && phase in {None, Some(Skipped)} ==> score == None)
      && (!passing && greens ==> score == Some(if f.falseGreen > 0 then 0.0 else 1.0))
      && (!passing && !greens && contracts ==> score == Some(if f.contractViolation > 0 then 0.0 else 1.0))
      && (!passing && !greens && !contracts ==> score == if examples && f.antiExampleMatched then Some(0.0) else None)
  {
  }

  lemma {:induction false} IncludesExactlyWhen(s: string, part: string)
    requires part != ""
    ensures Includes(s, part) <==> exists i :: 0 <= i <= |s| - |part| && s[i..][..|part|] == part
    decreases |s|
  {
    if |part| <= |s| {
      IncludesExactlyWhen(s[1..], part);
      assert s[0..] == s;
      assert forall i | 0 <= i < |s| :: s[1..][i..] == s[i + 1..];
      if Includes(s[1..], part) {
        var i :| 0 <= i <= |s| - 1 - |part| && s[1..][i..][..|part|] == part;
        assert s[i + 1..][..|part|] == part;
      }
      if exists i :: 0 <= i <= |s| - |part| && s[i..][..|part|] == part {
        var i :| 0 <= i <= |s| - |part| && s[i..][..|part|] == part;
        if i > 0 {
          assert s[1..][i - 1..][..|part|] == part;
        }
      }
    }
  }

  function Weight(c: Criterion): real {
    if c.weight.Some? then c.weight.value else 1.0
  }

  predicate NonNegative(criteria: seq<Criterion>) {
    forall i | 0 <= i < |criteria| :: Weight(criteria[i]) >= 0.0
  }

  // ---------- the three sums ----------

  /** What one criterion adds to the weighted sum. */
  function Term(c: Criterion, phase: Option<Phase>, f: Summary): real {
    var score := ScoreCriterion(c, phase, f);
    if score.Some? then score.value * Weight(c) else 0.0
  }

  function TotalWeight(criteria: seq<Criterion>): real {
    if criteria == [] then 0.0 else TotalWeight(criteria[..|criteria| - 1]) + Weight(criteria[|criteria| - 1])
  }

  /** The weight of one criterion, if it was scored. */
  function Full(c: Criterion, phase: Option<Phase>, f: Summary): real {
    if ScoreCriterion(c, phase, f).Some? then Weight(c) else 0.0
  }

  function ScoredWeight(criteria: seq<Criterion>, phase: Option<Phase>, f: Summary): real {
    if criteria == [] then 0.0
    else
      var last := criteria[|criteria| - 1];
      ScoredWeight(criteria[..|criteria| - 1], phase, f) + Full(last, phase, f)
  }

  function WeightedSum(criteria: seq<Criterion>, phase: Option<Phase>, f: Summary): real {
    if criteria == [] then 0.0
    else
      var last := criteria[|criteria| - 1];
      WeightedSum(criteria[..|criteria| - 1], phase, f) + Term(last, phase, f)
  }

  function Unsupported(criteria: seq<Criterion>, phase: Option<Phase>, f: Summary): seq<string> {
    if criteria == [] then []
    else
      var last := criteria[|criteria| - 1];
      Unsupported(criteria[..|criteria| - 1], phase, f)
          + (if ScoreCriterion(last, phase, f).Some? then [] else [last.id])
  }

  /** A scored criterion adds its score times its weight, one if it has none, to the sum and its weight to what
      was scored; any other is reported as unsupported. */
  lemma {:induction false} OneCriterionCounts(criteria: seq<Criterion>, c: Criterion, phase: Option<Phase>, f: Summary)
    ensures var w := match c.weight case Some(x) => x case None => 1.0;
      var more := criteria + [c];
      && TotalWeight(more) == TotalWeight(criteria) + w
      && match ScoreCriterion(c, phase, f)
         case Some(score) =>
           && WeightedSum(more, phase, f) == WeightedSum(criteria, phase, f) + score * w
           && ScoredWeight(more, phase, f) == ScoredWeight(criteria, phase, f) + w
           && Unsupported(more, phase, f) == Unsupported(criteria, phase, f)
         case None =>
           && WeightedSum(more, phase, f) == WeightedSum(criteria, phase, f)
           && ScoredWeight(more, phase, f) == ScoredWeight(criteria, phase, f)
           && Unsupported(more, phase, f) == Unsupported(criteria, phase, f) + [c.id]
  {
    assert (criteria + [c])[..|criteria|] == criteria;
  }

  function Ratio(x: real, y: real): real {
    if y > 0.0 then x / y else 0.0
  }

  function ScoreOf(criteria: seq<Criterion>, phase: Option<Phase>, f: Summary): Score {
    var total, scored, sum := TotalWeight(criteria), ScoredWeight(criteria, phase, f), WeightedSum(criteria, phase, f);
    Score(Ratio(sum, scored), scored, total, Ratio(scored, total), Unsupported(criteria, phase, f))
  }

  lemma OneMoreCriterion(criteria: seq<Criterion>, i: nat, phase: Option<Phase>, f: Summary)
    requires i < |criteria|
    ensures var c, score := criteria[i], ScoreCriterion(criteria[i], phase, f);
      && TotalWeight(criteria[..i + 1]) == TotalWeight(criteria[..i]) + Weight(c)
      && ScoredWeight(criteria[..i + 1], phase, f) == ScoredWeight(criteria[..i], phase, f) + Full(c, phase, f)
      && WeightedSum(criteria[..i + 1], phase, f) == WeightedSum(criteria[..i], phase, f) + Term(c, phase, f)
      && Unsupported(criteria[..i + 1], phase, f)
          == Unsupported(criteria[..i], phase, f) + (if score.Some? then [] else [c.id])
  {
    assert criteria[..i + 1][..i] == criteria[..i];
  }

  method ScoreEach(criteria: seq<Criterion>, phase: Option<Phase>, f: Summary) returns (scores: seq<Option<real>>)
    ensures |scores| == |criteria| && forall k | 0 <= k < |scores| :: scores[k] == ScoreCriterion(criteria[k], phase, f)
  {
    scores := [];
    for i := 0 to |criteria|
      invariant |scores| == i && forall k | 0 <= k < i :: scores[k] == ScoreCriterion(criteria[k], phase, f)
    {
      scores := scores + [ScoreCriterion(criteria[i], phase, f)];
    }
  }

  method ScoreCandidate(criteria: seq<Criterion>, phase: Option<Phase>, f: Summary) returns (r: Score)
    ensures r == ScoreOf(criteria, phase, f)
  {
    var scores := ScoreEach(criteria, phase, f);
    var totalWeight, scoredWeight, weightedSum := 0.0, 0.0, 0.0;
    var unsupported: seq<string> := [];
    for i := 0 to |criteria|
      invariant totalWeight == TotalWeight(criteria[..i])
      invariant scoredWeight == ScoredWeight(criteria[..i], phase, f)
      invariant weightedSum == WeightedSum(criteria[..i], phase, f)
      invariant unsupported == Unsupported(criteria[..i], phase, f)
    {
      OneMoreCriterion(criteria, i, phase, f);
      var c := criteria[i];
      var w := if c.weight.Some? then c.weight.value else 1.0;
      totalWeight := totalWeight + w;
      if scores[i].None? {
        unsupported := unsupported + [c.id];
        continue;
      }
      scoredWeight := scoredWeight + w;
      weightedSum := weightedSum + scores[i].value * w;
    }
    assert criteria[..|criteria|] == criteria;
    var aggregate := if scoredWeight > 0.0 then weightedSum / scoredWeight else 0.0;
    var coverage := if totalWeight > 0.0 then scoredWeight / totalWeight else 0.0;
    r := Score(aggregate, scoredWeight, totalWeight, coverage, unsupported);
  }

  // ---------- what the numbers mean ----------

  lemma TermBounds(score: real, w: real)
    requires 0.0 <= score <= 1.0 && w >= 0.0
    ensures 0.0 <= score * w <= w
  {
    assert (1.0 - score) * w >= 0.0;
  }

  lemma TermInRange(c: Criterion, phase: Option<Phase>, f: Summary)
    requires Weight(c) >= 0.0
    ensures 0.0 <= Term(c, phase, f) <= Full(c, phase, f) <= Weight(c)
  {
    var score := ScoreCriterion(c, phase, f);
    if score.Some? {
      TermBounds(score.value, Weight(c));
    }
  }

  lemma {:induction false} SumBounds(criteria: seq<Criterion>, phase: Option<Phase>, f: Summary)
    requires NonNegative(criteria)
    ensures 0.0 <= WeightedSum(criteria, phase, f) <= ScoredWeight(criteria, phase, f) <= TotalWeight(criteria)
  {
    if criteria != [] {
      var init, last := criteria[..|criteria| - 1], criteria[|criteria| - 1];
      assert NonNegative(init);
      SumBounds(init, phase, f);
      TermInRange(last, phase, f);
    }
  }

  lemma RatioBounds(x: real, y: real)
    requires 0.0 <= x <= y
    ensures 0.0 <= Ratio(x, y) <= 1.0 && Ratio(x, y) * y == x
  {
    if y > 0.0 {
      var q := x / y;
      assert q * y == x;
      assert (q - 1.0) * y == x - y;
    }
  }

  lemma ProductKeepsOrder(x: real, y: real, w: real)
    requires x <= y && w >= 0.0
    ensures x * w <= y * w
  {
    assert (y - x) * w >= 0.0;
  }

  lemma FloorOnValues(sum: real, scored: real, total: real, floor: real, minCoverage: real)
    requires 0.0 <= sum <= scored <= total && Ratio(sum, scored) >= floor
    ensures Reaches(sum, floor, Ratio(scored, total), total)
    ensures floor >= 0.0 && Ratio(scored, total) >= minCoverage ==> Reaches(sum, floor, minCoverage, total)
  {
    RatioBounds(sum, scored);
    RatioBounds(scored, total);
    ProductKeepsOrder(floor, Ratio(sum, scored), scored);
    if floor >= 0.0 && Ratio(scored, total) >= minCoverage {
      ProductKeepsOrder(minCoverage, Ratio(scored, total), total);
      ProductKeepsOrder(minCoverage * total, scored, floor);
    }
  }

  /** The weighted sum backs the score: `sum` is the score's share of the scored weight, which is the
      coverage's share of the total. */
  ghost predicate Backs(sum: real, r: Score) {
    && 0.0 <= r.score <= 1.0 && 0.0 <= r.coverage <= 1.0
    && r.score * r.scoredWeight == sum
    && r.coverage * r.totalWeight == r.scoredWeight
  }

  lemma ValuesBack(sum: real, scored: real, total: real, unsupported: seq<string>)
    requires 0.0 <= sum <= scored <= total
    ensures Backs(sum, Score(Ratio(sum, scored), scored, total, Ratio(scored, total), unsupported))
  {
    RatioBounds(sum, scored);
    RatioBounds(scored, total);
  }

  /** Score and coverage are fractions, and they account for the weighted sum exactly. */
  lemma ScoreMeaning(criteria: seq<Criterion>, phase: Option<Phase>, f: Summary)
    requires NonNegative(criteria)
    ensures Backs(WeightedSum(criteria, phase, f), ScoreOf(criteria, phase, f))
  {
    SumBounds(criteria, phase, f);
    ValuesBack(WeightedSum(criteria, phase, f), ScoredWeight(criteria, phase, f), TotalWeight(criteria),
               Unsupported(criteria, phase, f));
  }

  /** At least floor times coverage times total weight. */
  predicate Reaches(sum: real, floor: real, coverage: real, total: real) {
    sum >= floor * (coverage * total)
  }

  /** A score above the floor means the weighted sum is at least floor times coverage times total weight;
      with a coverage above its minimum, at least floor times that minimum times total weight. */
  lemma FloorMeaning(criteria: seq<Criterion>, phase: Option<Phase>, f: Summary, floor: real, minCoverage: real)
    requires NonNegative(criteria)
    requires ScoreOf(criteria, phase, f).score >= floor
    ensures var r := ScoreOf(criteria, phase, f); var sum := WeightedSum(criteria, phase, f);
      && Reaches(sum, floor, r.coverage, r.totalWeight)
      && (floor >= 0.0 && r.coverage >= minCoverage ==> Reaches(sum, floor, minCoverage, r.totalWeight))
  {
    SumBounds(criteria, phase, f);
    var sum, scored := WeightedSum(criteria, phase, f), ScoredWeight(criteria, phase, f);
    FloorOnValues(sum, scored, TotalWeight(criteria), floor, minCoverage);
  }

  predicate Perfect(c: Criterion, phase: Option<Phase>, f: Summary) {
    Weight(c) > 0.0 && ScoreCriterion(c, phase, f).Some? ==> ScoreCriterion(c, phase, f) == Some(1.0)
  }

  lemma PerfectTerm(c: Criterion, phase: Option<Phase>, f: Summary)
    requires Weight(c) >= 0.0
    ensures Term(c, phase, f) <= Full(c, phase, f)
    ensures Term(c, phase, f) == Full(c, phase, f) <==> Perfect(c, phase, f)
  {
    var score := ScoreCriterion(c, phase, f);
    if score.Some? {
      TermBounds(score.value, Weight(c));
      assert Weight(c) - score.value * Weight(c) == (1.0 - score.value) * Weight(c);
      if Weight(c) > 0.0 && score.value < 1.0 {
        assert (1.0 - score.value) * Weight(c) > 0.0;
      }
    }
  }

  /** The weighted sum is the whole scored weight exactly when every scored criterion of positive weight is
      perfect: one flaw anywhere shows in the score. */
  lemma {:induction false} PerfectExactlyWhen(criteria: seq<Criterion>, phase: Option<Phase>, f: Summary)
    requires NonNegative(criteria)
    ensures WeightedSum(criteria, phase, f) <= ScoredWeight(criteria, phase, f)
    ensures WeightedSum(criteria, phase, f) == ScoredWeight(criteria, phase, f)
      <==> forall i | 0 <= i < |criteria| :: Perfect(criteria[i], phase, f)
  {
    if criteria != [] {
      var n := |criteria| - 1;
      var init, last := criteria[..n], criteria[n];
      assert forall i | 0 <= i < n :: init[i] == criteria[i];
      PerfectExactlyWhen(init, phase, f);
      PerfectTerm(last, phase, f);
    }
  }
}
