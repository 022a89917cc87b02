/** Choosing among candidates: accept one, reject all, or escalate to a human. */
module Arbiter {
  import opened Options
  import opened CandidateVerifier
  import opened Rubric

  /** A candidate, what its verification run reported, and whether its diff matches a loaded anti-example. */
  datatype Candidate = Candidate(builderId: string, collected: bool, verification: Phase, matchesAntiExample: bool)

  datatype Findings = Findings(
    builderId: string, high: int, bug: int, contractViolation: int, falseGreen: int, antiExampleMatched: bool,
    reviewCoverage: Option<real>)

  datatype Gates = Gates(
    qualityFloor: real, minRubricCoverage: real, minReviewCoverage: real, requireTests: bool, missingAntiExamples: nat)

  datatype Gate = Verified | ScoreFloor | RubricCoverage | ReviewCoverage | CleanReview | AntiExamples

  datatype Eligibility = Eligibility(
    builderId: string, verPassed: bool, scoreOk: bool, rubricCoverageOk: bool, reviewCoverageOk: bool,
    reviewCoverage: Option<real>, cleanReview: bool, antiExampleOk: bool, score: real)

  /** A builder and its rubric score, as offered to a human. */
  datatype Offer = Offer(builderId: string, score: real)

  datatype Line = Line(builderId: string, failed: seq<Gate>)

  datatype Question = FixAntiExamples | Uncertain(lines: seq<Line>) | PickOne(offers: seq<Offer>)

  datatype Decision =
    | Accept(builderId: string)
    | NothingCollected
    | Reject(reasons: seq<Line>)
    | Escalate(question: Question)

  // ---------- lookups by builder ----------

  function Collected(candidates: seq<Candidate>): (r: seq<Candidate>)
    ensures forall c :: c in r <==> c in candidates && c.collected
  {
    if candidates == [] then []
    else (if candidates[0].collected then [candidates[0]] else []) + Collected(candidates[1..])
  }

  /** Findings `k` are the last to be reported for the builder. */
  predicate Latest(findings: seq<Findings>, id: string, k: int) {
    0 <= k < |findings| && findings[k].builderId == id
    && forall j | k < j < |findings| :: findings[j].builderId != id
  }

  /** The last findings reported for a builder. */
  function FindingsFor(findings: seq<Findings>, id: string): (r: Option<Findings>)
    ensures r.None? <==> forall k | 0 <= k < |findings| :: findings[k].builderId != id
    ensures r.Some? ==> exists k :: Latest(findings, id, k) && findings[k] == r.value
  {
    if findings == [] then None
    else if findings[|findings| - 1].builderId == id then
      assert Latest(findings, id, |findings| - 1);
      Some(findings[|findings| - 1])
    else
      assert forall k | Latest(findings[..|findings| - 1], id, k) :: Latest(findings, id, k);
      FindingsFor(findings[..|findings| - 1], id)
  }

  /** The first candidate of a builder. */
  function FirstOf(collected: seq<Candidate>, id: string): Option<Candidate> {
    if collected == [] then None
    else if collected[0].builderId == id then Some(collected[0])
    else FirstOf(collected[1..], id)
  }

  /** What the rubric is told: nothing was found unless a review says so, and the diff may match by itself. */
  function SummaryOf(f: Option<Findings>, matched: bool): (r: Summary)
    ensures r.antiExampleMatched <==> matched || (f.Some? && f.value.antiExampleMatched)
    ensures f.None? ==> r.falseGreen == 0 && r.contractViolation == 0
    ensures f.Some? ==> r.falseGreen == f.value.falseGreen && r.contractViolation == f.value.contractViolation
  {
    match f
    case None => Summary(0, 0, matched)
    case Some(x) => Summary(x.falseGreen, x.contractViolation, x.antiExampleMatched || matched)
  }

  function ScoreFor(c: Candidate, findings: seq<Findings>, criteria: seq<Criterion>): Score {
    ScoreOf(criteria, Some(c.verification), SummaryOf(FindingsFor(findings, c.builderId), c.matchesAntiExample))
  }

  // ---------- the gates ----------

  predicate VerificationOk(phase: Phase, g: Gates) {
    phase.Passed? || (phase.PassedTypecheckOnly? && !g.requireTests)
  }

  predicate ReviewCoverageOk(f: Option<Findings>, g: Gates) {
    f.Some? ==> (if f.value.reviewCoverage.Some? then f.value.reviewCoverage.value else 0.0) >= g.minReviewCoverage
  }

  predicate CleanReviewOk(f: Option<Findings>) {
    f.Some? ==> f.value.bug == 0 && f.value.contractViolation == 0 && f.value.high == 0
  }

  /** How the code assesses a candidate: every lookup goes by builder id. */
  function Assess(
      c: Candidate, collected: seq<Candidate>, findings: seq<Findings>, criteria: seq<Criterion>, g: Gates)
      : Eligibility
  {
    var first, f := FirstOf(collected, c.builderId), FindingsFor(findings, c.builderId);
    var score := if first.Some? then ScoreFor(first.value, findings, criteria).score else 0.0;
    var coverage := if first.Some? then ScoreFor(first.value, findings, criteria).coverage else 0.0;
    Eligibility(
      c.builderId,
      first.Some? && VerificationOk(first.value.verification, g),
      score >= g.qualityFloor,
      coverage >= g.minRubricCoverage,
      ReviewCoverageOk(f, g),
      if f.Some? then f.value.reviewCoverage else None,
      CleanReviewOk(f),
      !(exists d :: d in collected && d.builderId == c.builderId && d.matchesAntiExample) && g.missingAntiExamples == 0,
      score)
  }

  function AssessAll(
      collected: seq<Candidate>, findings: seq<Findings>, criteria: seq<Criterion>, g: Gates): (r: seq<Eligibility>)
    ensures |r| == |collected|
    ensures forall i | 0 <= i < |r| :: r[i] == Assess(collected[i], collected, findings, criteria, g)
  {
    seq(|collected|, i requires 0 <= i < |collected| => Assess(collected[i], collected, findings, criteria, g))
  }

  predicate ObjectiveOk(e: Eligibility) {
    e.verPassed && e.scoreOk && e.antiExampleOk
  }

  predicate CertainOk(e: Eligibility) {
    e.rubricCoverageOk && e.reviewCoverageOk && e.cleanReview
  }

  function Eligible(es: seq<Eligibility>): (r: seq<Eligibility>)
    ensures forall e :: e in r <==> e in es && ObjectiveOk(e) && CertainOk(e)
  {
    if es == [] then []
    else (if ObjectiveOk(es[0]) && CertainOk(es[0]) then [es[0]] else []) + Eligible(es[1..])
  }

  function UncertainOnly(es: seq<Eligibility>): (r: seq<Eligibility>)
    ensures forall e :: e in r <==> e in es && ObjectiveOk(e) && !CertainOk(e)
  {
    if es == [] then []
    else (if ObjectiveOk(es[0]) && !CertainOk(es[0]) then [es[0]] else []) + UncertainOnly(es[1..])
  }

  function If(c: bool, gate: Gate): seq<Gate> {
    if c then [gate] else []
  }

  function RejectionGates(e: Eligibility): seq<Gate> {
    If(!e.verPassed, Verified) + If(!e.scoreOk, ScoreFloor) + If(!e.rubricCoverageOk, RubricCoverage)
    + If(!e.reviewCoverageOk && e.reviewCoverage.Some?, ReviewCoverage) + If(!e.cleanReview, CleanReview)
    + If(!e.antiExampleOk, AntiExamples)
  }

  function EscalationGates(e: Eligibility): seq<Gate> {
    If(!e.rubricCoverageOk, RubricCoverage) + If(!e.reviewCoverageOk && e.reviewCoverage.Some?, ReviewCoverage)
    + If(!e.cleanReview, CleanReview)
  }

  function RejectionLines(es: seq<Eligibility>): seq<Line> {
    if es == [] then []
    else
      var last := es[|es| - 1];
      RejectionLines(es[..|es| - 1])
          + (if RejectionGates(last) != [] then [Line(last.builderId, RejectionGates(last))] else [])
  }

  function EscalationLines(es: seq<Eligibility>): seq<Line> {
    if es == [] then []
    else
      var last := es[|es| - 1];
      EscalationLines(es[..|es| - 1])
          + (if EscalationGates(last) != [] then [Line(last.builderId, EscalationGates(last))] else [])
  }

  predicate Descending(es: seq<Eligibility>) {
    forall i, j | 0 <= i < j < |es| :: es[i].score >= es[j].score
  }

  /** Puts an assessment behind all whose score is not lower. */
  function InsertByScore(es: seq<Eligibility>, e: Eligibility): (r: seq<Eligibility>)
    requires Descending(es)
    ensures Descending(r) && |r| == |es| + 1
    ensures forall i | 0 <= i < |r| :: r[i] == e || r[i] in es
  {
    if es == [] || es[|es| - 1].score >= e.score then es + [e]
    else
      var r := InsertByScore(es[..|es| - 1], e);
      assert forall i | 0 <= i < |r| :: r[i].score >= es[|es| - 1].score;
      r + [es[|es| - 1]]
  }

  lemma {:induction false} InsertedContents(es: seq<Eligibility>, e: Eligibility)
    requires Descending(es)
    ensures multiset(InsertByScore(es, e)) == multiset(es) + multiset{e}
  {
    if es != [] && es[|es| - 1].score < e.score {
      InsertedContents(es[..|es| - 1], e);
      assert es == es[..|es| - 1] + [es[|es| - 1]];
    }
  }

  /** Highest scores first, ties in the order of the candidates. */
  function ByScore(es: seq<Eligibility>): (r: seq<Eligibility>)
    ensures Descending(r) && multiset(r) == multiset(es)
  {
    if es == [] then []
    else
      assert es == es[..|es| - 1] + [es[|es| - 1]];
      InsertedContents(ByScore(es[..|es| - 1]), es[|es| - 1]);
      InsertByScore(ByScore(es[..|es| - 1]), es[|es| - 1])
  }

  function Offers(es: seq<Eligibility>): (r: seq<Offer>)
    ensures |r| == |es| && forall i | 0 <= i < |r| :: r[i] == Offer(es[i].builderId, es[i].score)
  {
    seq(|es|, i requires 0 <= i < |es| => Offer(es[i].builderId, es[i].score))
  }

  function Judge(es: seq<Eligibility>, g: Gates): Decision {
    if es == [] then NothingCollected
    else if g.missingAntiExamples > 0 then Escalate(FixAntiExamples)
    else if |Eligible(es)| == 1 then Accept(Eligible(es)[0].builderId)
    else if Eligible(es) != [] then Escalate(PickOne(Offers(ByScore(Eligible(es)))))
    else if UncertainOnly(es) != [] then Escalate(Uncertain(EscalationLines(UncertainOnly(es))))
    else Reject(RejectionLines(es))
  }

  function DecisionFor(
      candidates: seq<Candidate>, findings: seq<Findings>, criteria: seq<Criterion>, g: Gates): Decision
  {
    Judge(AssessAll(Collected(candidates), findings, criteria, g), g)
  }

  // ---------- the loops ----------

  method CollectRejectionReasons(es: seq<Eligibility>) returns (reasons: seq<Line>)
    ensures reasons == RejectionLines(es)
  {
    reasons := [];
    for i := 0 to |es|
      invariant reasons == RejectionLines(es[..i])
    {
      assert es[..i + 1][..i] == es[..i];
      var e := es[i];
      var why := If(!e.verPassed, Verified);
      why := why + If(!e.scoreOk, ScoreFloor);
      why := why + If(!e.rubricCoverageOk, RubricCoverage);
      why := why + If(!e.reviewCoverageOk && e.reviewCoverage.Some?, ReviewCoverage);
      why := why + If(!e.cleanReview, CleanReview);
      why := why + If(!e.antiExampleOk, AntiExamples);
      assert why == RejectionGates(e);
      if |why| > 0 {
        reasons := reasons + [Line(e.builderId, why)];
      }
    }
    assert es[..|es|] == es;
  }

  method CollectEscalationReasons(es: seq<Eligibility>) returns (lines: seq<Line>)
    ensures lines == EscalationLines(es)
  {
    lines := [];
    for i := 0 to |es|
      invariant lines == EscalationLines(es[..i])
    {
      assert es[..i + 1][..i] == es[..i];
      var e := es[i];
      var blockers := If(!e.rubricCoverageOk, RubricCoverage);
      blockers := blockers + If(!e.reviewCoverageOk && e.reviewCoverage.Some?, ReviewCoverage);
      blockers := blockers + If(!e.cleanReview, CleanReview);
      assert blockers == EscalationGates(e);
      if |blockers| > 0 {
        lines := lines + [Line(e.builderId, blockers)];
      }
    }
    assert es[..|es|] == es;
  }

  method Decide(
      candidates: seq<Candidate>, findings: seq<Findings>, criteria: seq<Criterion>, g: Gates) returns (d: Decision)
    ensures d == DecisionFor(candidates, findings, criteria, g)
  {
    var collected := Collected(candidates);
    var es := AssessAll(collected, findings, criteria, g);
    if |collected| == 0 {
      return NothingCollected;
    }
    if g.missingAntiExamples > 0 {
      return Escalate(FixAntiExamples);
    }
    var eligible := Eligible(es);
    if |eligible| == 0 {
      var uncertain := UncertainOnly(es);
      if |uncertain| > 0 {
        var lines := CollectEscalationReasons(uncertain);
        return Escalate(Uncertain(lines));
      }
      var reasons := CollectRejectionReasons(es);
      return Reject(reasons);
    }
    if |eligible| == 1 {
      return Accept(eligible[0].builderId);
    }
    return Escalate(PickOne(Offers(ByScore(eligible))));
  }

  // ---------- soundness ----------

  /** No two collected candidates come from the same builder. */
  predicate DistinctBuilders(candidates: seq<Candidate>) {
    var cs := Collected(candidates);
    forall i, j | 0 <= i < j < |cs| :: cs[i].builderId != cs[j].builderId
  }

  /** The gates, said of a candidate itself. */
  predicate ObjectiveGates(c: Candidate, findings: seq<Findings>, criteria: seq<Criterion>, g: Gates) {
    && (c.verification == Passed || (c.verification == PassedTypecheckOnly && !g.requireTests))
    && ScoreFor(c, findings, criteria).score >= g.qualityFloor
    && !c.matchesAntiExample && g.missingAntiExamples == 0
  }

  predicate CertaintyGates(c: Candidate, findings: seq<Findings>, criteria: seq<Criterion>, g: Gates) {
    && ScoreFor(c, findings, criteria).coverage >= g.minRubricCoverage
    && match FindingsFor(findings, c.builderId)
       case None => true
       case Some(f) => NoBlockers(f) && Coverage(f) >= g.minReviewCoverage
  }

  /** The review found no bug, no violated contract and nothing severe. */
  predicate NoBlockers(f: Findings) {
    f.bug == 0 && f.contractViolation == 0 && f.high == 0
  }

  /** An unreported coverage counts as none. */
  function Coverage(f: Findings): real {
    match f.reviewCoverage case Some(x) => x case None => 0.0
  }

  /** Rubric coverage and reviews are in order, and if the review coverage is not, it was never reported. */
  predicate NothingConcrete(c: Candidate, findings: seq<Findings>, criteria: seq<Criterion>, g: Gates) {
    var f := FindingsFor(findings, c.builderId);
    && ScoreFor(c, findings, criteria).coverage >= g.minRubricCoverage
    && (f.Some? ==> NoBlockers(f.value) && (f.value.reviewCoverage.None? || Coverage(f.value) >= g.minReviewCoverage))
  }

  predicate PassesEveryGate(c: Candidate, findings: seq<Findings>, criteria: seq<Criterion>, g: Gates) {
    ObjectiveGates(c, findings, criteria, g) && CertaintyGates(c, findings, criteria, g)
  }

  lemma {:induction false} FirstIsOwn(collected: seq<Candidate>, i: nat)
    requires i < |collected| && forall j | 0 <= j < i :: collected[j].builderId != collected[i].builderId
    ensures FirstOf(collected, collected[i].builderId) == Some(collected[i])
  {
    if i > 0 {
      FirstIsOwn(collected[1..], i - 1);
    }
  }

  /** With distinct builders the assessment of a candidate is about that candidate. */
  lemma AssessmentIsOwn(candidates: seq<Candidate>, findings: seq<Findings>, criteria: seq<Criterion>, g: Gates, i: nat)
    requires DistinctBuilders(candidates) && i < |Collected(candidates)|
    ensures var c := Collected(candidates)[i]; var e := AssessAll(Collected(candidates), findings, criteria, g)[i];
      && e.builderId == c.builderId
      && (ObjectiveOk(e) <==> ObjectiveGates(c, findings, criteria, g))
      && (CertainOk(e) <==> CertaintyGates(c, findings, criteria, g))
      && (e.rubricCoverageOk <==> ScoreFor(c, findings, criteria).coverage >= g.minRubricCoverage)
      && (EscalationGates(e) == [] <==> NothingConcrete(c, findings, criteria, g))
      && e.score == ScoreFor(c, findings, criteria).score
  {
    var cs := Collected(candidates);
    FirstIsOwn(cs, i);
    EscalationGatesEmpty(AssessAll(cs, findings, criteria, g)[i]);
    if exists d :: d in cs && d.builderId == cs[i].builderId && d.matchesAntiExample {
      var d :| d in cs && d.builderId == cs[i].builderId && d.matchesAntiExample;
      var j :| 0 <= j < |cs| && cs[j] == d;
      assert j == i;
    }
  }

  predicate Ok(e: Eligibility) {
    ObjectiveOk(e) && CertainOk(e)
  }

  /** The only assessment to pass everything is the one at `i`. */
  predicate OnlyOk(es: seq<Eligibility>, i: int) {
    0 <= i < |es| && Ok(es[i]) && forall j | 0 <= j < |es| && Ok(es[j]) :: j == i
  }

  lemma OneEligibleIsOnly(es: seq<Eligibility>) returns (i: nat)
    requires |Eligible(es)| == 1 && UniqueIds(es)
    ensures OnlyOk(es, i) && es[i] == Eligible(es)[0]
  {
    var r := Eligible(es);
    assert r[0] in r;
    i :| 0 <= i < |es| && es[i] == r[0];
    forall j | 0 <= j < |es| && Ok(es[j]) ensures es[j] == es[i] {
      assert es[j] in r;
    }
  }

  lemma OnlyIsOneEligible(es: seq<Eligibility>, i: nat)
    requires OnlyOk(es, i) && UniqueIds(es)
    ensures Eligible(es) == [es[i]]
  {
    var r := Eligible(es);
    EligibleDistinct(es);
    assert es[i] in r;
    forall k | 0 <= k < |r| ensures r[k] == es[i] {
      assert r[k] in r;
      var j :| 0 <= j < |es| && es[j] == r[k];
    }
    assert |r| >= 2 ==> r[0].builderId != r[1].builderId;
  }

  predicate UniqueIds(es: seq<Eligibility>) {
    forall i, j | 0 <= i < j < |es| :: es[i].builderId != es[j].builderId
  }

  lemma {:induction false} EligibleDistinct(es: seq<Eligibility>)
    requires UniqueIds(es)
    ensures UniqueIds(Eligible(es))
  {
    if es != [] {
      EligibleDistinct(es[1..]);
      var rest := Eligible(es[1..]);
      forall j | 0 <= j < |rest| ensures rest[j].builderId != es[0].builderId {
        assert rest[j] in es[1..];
      }
    }
  }

  lemma IdsDistinct(candidates: seq<Candidate>, findings: seq<Findings>, criteria: seq<Criterion>, g: Gates)
    requires DistinctBuilders(candidates)
    ensures UniqueIds(AssessAll(Collected(candidates), findings, criteria, g))
  {
  }

  /** A candidate passes every gate and no other collected candidate does. */
  predicate UniqueWinner(
      candidates: seq<Candidate>, findings: seq<Findings>, criteria: seq<Criterion>, g: Gates, c: Candidate)
  {
    && c in Collected(candidates) && PassesEveryGate(c, findings, criteria, g)
    && forall d | d in Collected(candidates) && PassesEveryGate(d, findings, criteria, g) :: d == c
  }

  /** The decision accepts a builder exactly when its candidate is the only one to pass every gate. */
  lemma AcceptExactlyWhen(
      candidates: seq<Candidate>, findings: seq<Findings>, criteria: seq<Criterion>, g: Gates, id: string)
    requires DistinctBuilders(candidates)
    ensures DecisionFor(candidates, findings, criteria, g) == Accept(id)
      <==> exists c :: UniqueWinner(candidates, findings, criteria, g, c) && c.builderId == id
  {
    var cs := Collected(candidates);
    var es := AssessAll(cs, findings, criteria, g);
    IdsDistinct(candidates, findings, criteria, g);
    if DecisionFor(candidates, findings, criteria, g) == Accept(id) {
      var i := OneEligibleIsOnly(es);
      OnlyOkIsWinner(candidates, findings, criteria, g, i);
      AssessmentIsOwn(candidates, findings, criteria, g, i);
    }
    if exists c :: UniqueWinner(candidates, findings, criteria, g, c) && c.builderId == id {
      var c :| UniqueWinner(candidates, findings, criteria, g, c) && c.builderId == id;
      var i := WinnerIsOnlyOk(candidates, findings, criteria, g, c);
      OnlyIsOneEligible(es, i);
      AssessmentIsOwn(candidates, findings, criteria, g, i);
      NoneMissing(es[i], candidates, findings, criteria, g, i);
    }
  }

  lemma OnlyOkIsWinner(candidates: seq<Candidate>, findings: seq<Findings>, criteria: seq<Criterion>, g: Gates, i: nat)
    requires DistinctBuilders(candidates) && OnlyOk(AssessAll(Collected(candidates), findings, criteria, g), i)
    ensures UniqueWinner(candidates, findings, criteria, g, Collected(candidates)[i])
  {
    var cs := Collected(candidates);
    AssessmentIsOwn(candidates, findings, criteria, g, i);
    forall d | d in cs && PassesEveryGate(d, findings, criteria, g) ensures d == cs[i] {
      var j :| 0 <= j < |cs| && cs[j] == d;
      AssessmentIsOwn(candidates, findings, criteria, g, j);
    }
  }

  lemma WinnerIsOnlyOk(
      candidates: seq<Candidate>, findings: seq<Findings>, criteria: seq<Criterion>, g: Gates, c: Candidate)
      returns (i: nat)
    requires DistinctBuilders(candidates) && UniqueWinner(candidates, findings, criteria, g, c)
    ensures OnlyOk(AssessAll(Collected(candidates), findings, criteria, g), i) && Collected(candidates)[i] == c
  {
    var cs := Collected(candidates);
    var es := AssessAll(cs, findings, criteria, g);
    i :| 0 <= i < |cs| && cs[i] == c;
    AssessmentIsOwn(candidates, findings, criteria, g, i);
    forall j | 0 <= j < |es| && Ok(es[j]) ensures j == i {
      AssessmentIsOwn(candidates, findings, criteria, g, j);
      SameBuilderSame(candidates, cs[j], cs[i]);
    }
  }

  lemma NoneMissing(
      e: Eligibility, candidates: seq<Candidate>, findings: seq<Findings>, criteria: seq<Criterion>, g: Gates, i: nat)
    requires i < |Collected(candidates)| && e == AssessAll(Collected(candidates), findings, criteria, g)[i] && Ok(e)
    ensures g.missingAntiExamples == 0
  {
  }

  /** Two candidates pass every gate. */
  predicate TwoWinners(candidates: seq<Candidate>, findings: seq<Findings>, criteria: seq<Criterion>, g: Gates) {
    var cs := Collected(candidates);
    exists i, j :: 0 <= i < j < |cs|
      && PassesEveryGate(cs[i], findings, criteria, g) && PassesEveryGate(cs[j], findings, criteria, g)
  }

  lemma {:induction false} SameMembers(es: seq<Eligibility>, e: Eligibility)
    ensures e in ByScore(es) <==> e in es
  {
    assert e in ByScore(es) <==> e in multiset(ByScore(es));
    assert e in es <==> e in multiset(es);
  }

  /** What is on offer: builder and score of every assessment that passes everything. */
  lemma {:induction false} OffersExactlyWhen(es: seq<Eligibility>, o: Offer)
    ensures o in Offers(ByScore(Eligible(es))) <==> exists e :: e in es && Ok(e) && o == Offer(e.builderId, e.score)
  {
    var ranked := ByScore(Eligible(es));
    if o in Offers(ranked) {
      var k :| 0 <= k < |ranked| && Offers(ranked)[k] == o;
      SameMembers(Eligible(es), ranked[k]);
    }
    if exists e :: e in es && Ok(e) && o == Offer(e.builderId, e.score) {
      var e :| e in es && Ok(e) && o == Offer(e.builderId, e.score);
      SameMembers(Eligible(es), e);
      var k :| 0 <= k < |ranked| && ranked[k] == e;
      assert Offers(ranked)[k] == o;
    }
  }

  /** The offer a candidate would make. */
  function OfferOf(c: Candidate, findings: seq<Findings>, criteria: seq<Criterion>): Offer {
    Offer(c.builderId, ScoreFor(c, findings, criteria).score)
  }

  lemma {:induction false} OwnOffer(
      candidates: seq<Candidate>, findings: seq<Findings>, criteria: seq<Criterion>, g: Gates, i: nat)
    requires DistinctBuilders(candidates) && i < |Collected(candidates)|
    ensures var c, e := Collected(candidates)[i], AssessAll(Collected(candidates), findings, criteria, g)[i];
      && (Ok(e) <==> PassesEveryGate(c, findings, criteria, g))
      && Offer(e.builderId, e.score) == OfferOf(c, findings, criteria)
  {
    AssessmentIsOwn(candidates, findings, criteria, g, i);
  }

  lemma {:induction false} OfferedIsWinner(
      candidates: seq<Candidate>, findings: seq<Findings>, criteria: seq<Criterion>, g: Gates, o: Offer)
    requires DistinctBuilders(candidates)
    requires o in Offers(ByScore(Eligible(AssessAll(Collected(candidates), findings, criteria, g))))
    ensures OfferedBy(o, candidates, findings, criteria, g)
  {
    var es := AssessAll(Collected(candidates), findings, criteria, g);
    OffersExactlyWhen(es, o);
    var e :| e in es && Ok(e) && o == Offer(e.builderId, e.score);
    var i :| 0 <= i < |es| && es[i] == e;
    OwnOffer(candidates, findings, criteria, g, i);
    var c := Collected(candidates)[i];
    assert c in Collected(candidates) && PassesEveryGate(c, findings, criteria, g);
    assert o == OfferOf(c, findings, criteria);
  }

  lemma {:induction false} WinnerIsOffered(
      candidates: seq<Candidate>, findings: seq<Findings>, criteria: seq<Criterion>, g: Gates, c: Candidate)
    requires DistinctBuilders(candidates) && c in Collected(candidates) && PassesEveryGate(c, findings, criteria, g)
    ensures OfferOf(c, findings, criteria)
         in Offers(ByScore(Eligible(AssessAll(Collected(candidates), findings, criteria, g))))
  {
    var es := AssessAll(Collected(candidates), findings, criteria, g);
    OffersExactlyWhen(es, OfferOf(c, findings, criteria));
    var i :| 0 <= i < |es| && Collected(candidates)[i] == c;
    OwnOffer(candidates, findings, criteria, g, i);
    assert es[i] in es;
  }

  lemma {:induction false} ManyEligible(es: seq<Eligibility>)
    requires UniqueIds(es) && |Eligible(es)| >= 2
    ensures exists i, j :: 0 <= i < j < |es| && Ok(es[i]) && Ok(es[j])
  {
    var r := Eligible(es);
    EligibleDistinct(es);
    assert r[0] in r && r[1] in r;
    var i :| 0 <= i < |es| && es[i] == r[0];
    var j :| 0 <= j < |es| && es[j] == r[1];
    assert i != j;
    assert Ok(es[if i < j then i else j]) && Ok(es[if i < j then j else i]);
  }

  lemma {:induction false} TwoAreMany(es: seq<Eligibility>, i: nat, j: nat)
    requires UniqueIds(es) && i < j < |es| && Ok(es[i]) && Ok(es[j])
    ensures |Eligible(es)| >= 2
  {
    var r := Eligible(es);
    assert es[i] in r && es[j] in r && es[i].builderId != es[j].builderId;
    var a :| 0 <= a < |r| && r[a] == es[i];
    var b :| 0 <= b < |r| && r[b] == es[j];
    assert a != b;
  }

  lemma JudgePicks(es: seq<Eligibility>, g: Gates)
    ensures Judge(es, g).Escalate? && Judge(es, g).question.PickOne?
      <==> g.missingAntiExamples == 0 && |Eligible(es)| >= 2
    ensures g.missingAntiExamples == 0 && |Eligible(es)| >= 2
      ==> Judge(es, g) == Escalate(PickOne(Offers(ByScore(Eligible(es)))))
  {
  }

  /** A human is asked to pick exactly when at least two candidates pass every gate. */
  lemma {:induction false} PickOneExactlyWhen(
      candidates: seq<Candidate>, findings: seq<Findings>, criteria: seq<Criterion>, g: Gates)
    requires DistinctBuilders(candidates)
    ensures var d := DecisionFor(candidates, findings, criteria, g);
      d.Escalate? && d.question.PickOne? <==> TwoWinners(candidates, findings, criteria, g)
  {
    var cs := Collected(candidates);
    var es := AssessAll(cs, findings, criteria, g);
    JudgePicks(es, g);
    IdsDistinct(candidates, findings, criteria, g);
    forall i | 0 <= i < |cs| ensures Ok(es[i]) <==> PassesEveryGate(cs[i], findings, criteria, g) {
      AssessmentIsOwn(candidates, findings, criteria, g, i);
    }
    if |Eligible(es)| >= 2 {
      ManyEligible(es);
    }
    if TwoWinners(candidates, findings, criteria, g) {
      var i, j :| 0 <= i < j < |cs|
        && PassesEveryGate(cs[i], findings, criteria, g) && PassesEveryGate(cs[j], findings, criteria, g);
      TwoAreMany(es, i, j);
    }
  }

  /** On offer are exactly the candidates that pass every gate, each with its own score, best first. */
  lemma {:induction false} OffersAreTheWinners(
      candidates: seq<Candidate>, findings: seq<Findings>, criteria: seq<Criterion>, g: Gates, offers: seq<Offer>)
    requires DistinctBuilders(candidates)
    requires DecisionFor(candidates, findings, criteria, g) == Escalate(PickOne(offers))
    ensures BestFirst(offers)
    ensures AllOffered(offers, candidates, findings, criteria, g)
  {
    var es := AssessAll(Collected(candidates), findings, criteria, g);
    JudgePicks(es, g);
    forall o ensures o in offers <==> OfferedBy(o, candidates, findings, criteria, g) {
      if o in offers {
        OfferedIsWinner(candidates, findings, criteria, g, o);
      }
      if OfferedBy(o, candidates, findings, criteria, g) {
        var c :| c in Collected(candidates) && PassesEveryGate(c, findings, criteria, g)
            && o == OfferOf(c, findings, criteria);
        WinnerIsOffered(candidates, findings, criteria, g, c);
      }
    }
  }

  predicate OfferedBy(
      o: Offer, candidates: seq<Candidate>, findings: seq<Findings>, criteria: seq<Criterion>, g: Gates)
  {
    exists c :: c in Collected(candidates) && PassesEveryGate(c, findings, criteria, g)
        && o == OfferOf(c, findings, criteria)
  }

  ghost predicate AllOffered(
      offers: seq<Offer>, candidates: seq<Candidate>, findings: seq<Findings>, criteria: seq<Criterion>, g: Gates)
  {
    forall o :: o in offers <==> OfferedBy(o, candidates, findings, criteria, g)
  }

  predicate BestFirst(offers: seq<Offer>) {
    forall i, j | 0 <= i < j < |offers| :: offers[i].score >= offers[j].score
  }

  lemma {:induction false} EveryoneListed(es: seq<Eligibility>)
    requires forall i | 0 <= i < |es| :: !ObjectiveOk(es[i])
    ensures |RejectionLines(es)| == |es|
    ensures forall i | 0 <= i < |es| ::
         RejectionLines(es)[i] == Line(es[i].builderId, RejectionGates(es[i])) && RejectionGates(es[i]) != []
  {
    if es != [] {
      EveryoneListed(es[..|es| - 1]);
      assert !ObjectiveOk(es[|es| - 1]);
    }
  }

  predicate OneReasonEach(reasons: seq<Line>, cs: seq<Candidate>) {
    |reasons| == |cs| && forall i | 0 <= i < |cs| :: reasons[i].builderId == cs[i].builderId && reasons[i].failed != []
  }

  /** With every anti-example loaded, a non-empty list is rejected exactly when each candidate fails an
      objective gate; otherwise there is no rejection. */
  lemma RejectExactlyWhen(candidates: seq<Candidate>, findings: seq<Findings>, criteria: seq<Criterion>, g: Gates)
    requires DistinctBuilders(candidates)
    ensures DecisionFor(candidates, findings, criteria, g).Reject?
      <==> && Collected(candidates) != [] && g.missingAntiExamples == 0
           && forall c | c in Collected(candidates) :: !ObjectiveGates(c, findings, criteria, g)
  {
    var cs := Collected(candidates);
    var es := AssessAll(cs, findings, criteria, g);
    if DecisionFor(candidates, findings, criteria, g).Reject? {
      RejectedFail(es, g);
      forall c | c in cs ensures !ObjectiveGates(c, findings, criteria, g) {
        var i :| 0 <= i < |cs| && cs[i] == c;
        AssessmentIsOwn(candidates, findings, criteria, g, i);
      }
    } else if cs != [] && g.missingAntiExamples == 0
      && forall c | c in cs :: !ObjectiveGates(c, findings, criteria, g)
    {
      forall i | 0 <= i < |es| ensures !ObjectiveOk(es[i]) {
        AssessmentIsOwn(candidates, findings, criteria, g, i);
        assert cs[i] in cs;
      }
      NoneInFilters(es);
    }
  }

  lemma RejectedFail(es: seq<Eligibility>, g: Gates)
    requires Judge(es, g).Reject?
    ensures forall i | 0 <= i < |es| :: !ObjectiveOk(es[i])
  {
    forall i | 0 <= i < |es| ensures !ObjectiveOk(es[i]) {
      assert es[i] !in Eligible(es) && es[i] !in UncertainOnly(es);
    }
  }

  /** A rejection gives one reason per collected candidate, in order. */
  lemma RejectionsGiveReasons(candidates: seq<Candidate>, findings: seq<Findings>, criteria: seq<Criterion>, g: Gates)
    requires DecisionFor(candidates, findings, criteria, g).Reject?
    ensures OneReasonEach(DecisionFor(candidates, findings, criteria, g).reasons, Collected(candidates))
  {
    var es := AssessAll(Collected(candidates), findings, criteria, g);
    JudgedReasons(es, Collected(candidates), g);
  }

  lemma JudgedReasons(es: seq<Eligibility>, cs: seq<Candidate>, g: Gates)
    requires |es| == |cs| && forall i | 0 <= i < |es| :: es[i].builderId == cs[i].builderId
    requires Judge(es, g).Reject?
    ensures OneReasonEach(Judge(es, g).reasons, cs)
  {
    RejectedFail(es, g);
    EveryoneListed(es);
    ListedOneEach(es, cs);
  }

  lemma ListedOneEach(es: seq<Eligibility>, cs: seq<Candidate>)
    requires |es| == |cs| && |RejectionLines(es)| == |es|
    requires forall i | 0 <= i < |es| :: es[i].builderId == cs[i].builderId
    requires forall i | 0 <= i < |es| ::
         RejectionLines(es)[i] == Line(es[i].builderId, RejectionGates(es[i])) && RejectionGates(es[i]) != []
    ensures OneReasonEach(RejectionLines(es), cs)
  {
  }

  lemma NoneInFilters(es: seq<Eligibility>)
    requires forall i | 0 <= i < |es| :: !ObjectiveOk(es[i])
    ensures Eligible(es) == [] && UncertainOnly(es) == []
  {
    assert forall e | e in es :: !ObjectiveOk(e);
    assert forall e :: e !in Eligible(es) && e !in UncertainOnly(es);
  }

  /** Findings came without a review coverage where one is demanded, and nothing else is wrong. */
  predicate OnlyCoverageUnreported(c: Candidate, findings: seq<Findings>, criteria: seq<Criterion>, g: Gates) {
    var f := FindingsFor(findings, c.builderId);
    && f.Some? && f.value.reviewCoverage.None? && g.minReviewCoverage > 0.0
    && ScoreFor(c, findings, criteria).coverage >= g.minRubricCoverage
    && NoBlockers(f.value)
  }

  lemma {:induction false} NoLinesExactlyWhen(es: seq<Eligibility>)
    ensures EscalationLines(es) == [] <==> forall e | e in es :: EscalationGates(e) == []
  {
    if es != [] {
      NoLinesExactlyWhen(es[..|es| - 1]);
      assert es == es[..|es| - 1] + [es[|es| - 1]];
    }
  }

  lemma SilentIsUnreported(c: Candidate, findings: seq<Findings>, criteria: seq<Criterion>, g: Gates)
    ensures NothingConcrete(c, findings, criteria, g) && !CertaintyGates(c, findings, criteria, g)
      <==> OnlyCoverageUnreported(c, findings, criteria, g)
  {
  }

  /** An escalation that asks about nothing, seen on the assessments. */
  lemma {:induction false} SilentExactlyWhen(es: seq<Eligibility>, g: Gates)
    ensures Judge(es, g) == Escalate(Uncertain([]))
      <==> g.missingAntiExamples == 0 && (exists e :: e in es && ObjectiveOk(e))
           && forall e | e in es && ObjectiveOk(e) :: Silent(e)
  {
    NoLinesExactlyWhen(UncertainOnly(es));
    assert Eligible(es) != [] ==> Eligible(es)[0] in Eligible(es);
    assert UncertainOnly(es) != [] ==> UncertainOnly(es)[0] in UncertainOnly(es);
  }

  /** The escalation that says "nothing concrete to escalate (this is a bug)" is the decision exactly when
      some candidate passes every objective gate, and for each that does, review findings without a review
      coverage are all that is wrong. */
  lemma NothingConcreteExactlyWhen(
      candidates: seq<Candidate>, findings: seq<Findings>, criteria: seq<Criterion>, g: Gates)
    requires DistinctBuilders(candidates)
    ensures DecisionFor(candidates, findings, criteria, g) == Escalate(Uncertain([]))
      <==> (exists c :: c in Collected(candidates) && ObjectiveGates(c, findings, criteria, g))
           && forall c | c in Collected(candidates) && ObjectiveGates(c, findings, criteria, g) ::
                OnlyCoverageUnreported(c, findings, criteria, g)
  {
    var cs := Collected(candidates);
    var es := AssessAll(cs, findings, criteria, g);
    SilentExactlyWhen(es, g);
    forall i | 0 <= i < |cs|
      ensures ObjectiveOk(es[i]) <==> ObjectiveGates(cs[i], findings, criteria, g)
      ensures Silent(es[i]) <==> OnlyCoverageUnreported(cs[i], findings, criteria, g)
    {
      AssessmentIsOwn(candidates, findings, criteria, g, i);
      SilentIsUnreported(cs[i], findings, criteria, g);
    }
    SameObjectives(cs, es, findings, criteria, g);
    SameSilence(cs, es, findings, criteria, g);
  }

  lemma SameObjectives(
      cs: seq<Candidate>, es: seq<Eligibility>, findings: seq<Findings>, criteria: seq<Criterion>, g: Gates)
    requires |cs| == |es|
    requires forall i | 0 <= i < |cs| :: ObjectiveOk(es[i]) <==> ObjectiveGates(cs[i], findings, criteria, g)
    ensures (exists e :: e in es && ObjectiveOk(e)) <==> exists c :: c in cs && ObjectiveGates(c, findings, criteria, g)
  {
    assert forall i | 0 <= i < |cs| :: cs[i] in cs && es[i] in es;
  }

  predicate Silent(e: Eligibility) {
    !CertainOk(e) && EscalationGates(e) == []
  }

  lemma SameSilence(
      cs: seq<Candidate>, es: seq<Eligibility>, findings: seq<Findings>, criteria: seq<Criterion>, g: Gates)
    requires |cs| == |es|
    requires forall i | 0 <= i < |cs| :: ObjectiveOk(es[i]) <==> ObjectiveGates(cs[i], findings, criteria, g)
    requires forall i | 0 <= i < |cs| :: Silent(es[i]) <==> OnlyCoverageUnreported(cs[i], findings, criteria, g)
    ensures (forall e | e in es && ObjectiveOk(e) :: Silent(e))
      <==> forall c | c in cs && ObjectiveGates(c, findings, criteria, g) ::
             OnlyCoverageUnreported(c, findings, criteria, g)
  {
    assert forall i | 0 <= i < |cs| :: cs[i] in cs && es[i] in es;
  }

  /** One candidate with clean findings that carry no review coverage, under the default gates. */
  function SilentCandidate(): Candidate {
    Candidate("b", true, Passed, false)
  }

  function SilentFindings(): seq<Findings> {
    [Findings("b", 0, 0, 0, 0, false, None)]
  }

  function SilentCriteria(): seq<Criterion> {
    [Criterion("c", "classification", None)]
  }

  const DEFAULT_GATES := Gates(0.7, 0.5, 0.66, true, 0)

  lemma SilentScore()
    ensures var s := ScoreFor(SilentCandidate(), SilentFindings(), SilentCriteria());
      s.score == 1.0 && s.coverage == 1.0
  {
    var criteria := SilentCriteria();
    assert "classification"[..14] == "classification";
    assert Includes(criteria[0].text, "classification");
    assert criteria[..0] == [];
  }

  /** Such an escalation is reached. */
  lemma NothingConcreteHappens()
    ensures DecisionFor([SilentCandidate()], SilentFindings(), SilentCriteria(), DEFAULT_GATES)
         == Escalate(Uncertain([]))
  {
    var cs := [SilentCandidate()];
    assert cs[1..] == [] && Collected(cs) == cs;
    NothingConcreteExactlyWhen(cs, SilentFindings(), SilentCriteria(), DEFAULT_GATES);
    SilentScore();
    assert FindingsFor(SilentFindings(), "b") == Some(SilentFindings()[0]);
    assert ObjectiveGates(cs[0], SilentFindings(), SilentCriteria(), DEFAULT_GATES);
    assert OnlyCoverageUnreported(cs[0], SilentFindings(), SilentCriteria(), DEFAULT_GATES);
  }

  lemma EscalationGatesEmpty(e: Eligibility)
    ensures EscalationGates(e) == []
      <==> e.rubricCoverageOk && e.cleanReview && (e.reviewCoverageOk || e.reviewCoverage.None?)
  {
  }

  lemma AcceptedPasses(
      candidates: seq<Candidate>, findings: seq<Findings>, criteria: seq<Criterion>, g: Gates, c: Candidate)
    requires DistinctBuilders(candidates) && c in Collected(candidates)
    requires DecisionFor(candidates, findings, criteria, g) == Accept(c.builderId)
    ensures PassesEveryGate(c, findings, criteria, g)
  {
    AcceptExactlyWhen(candidates, findings, criteria, g, c.builderId);
    var winner :| UniqueWinner(candidates, findings, criteria, g, winner) && winner.builderId == c.builderId;
    SameBuilderSame(candidates, c, winner);
  }

  /** An accepted candidate passed verification, or its typecheck where tests are waived; it matches no
      anti-example, none of which is missing; its score and rubric coverage reach their minimum; and if it was
      reviewed, nothing blocking was found and the reported coverage of the review, none if it was not
      reported, reaches its minimum. */
  lemma AcceptedIsClean(
      candidates: seq<Candidate>, findings: seq<Findings>, criteria: seq<Criterion>, g: Gates, c: Candidate, k: nat)
    requires DistinctBuilders(candidates) && c in Collected(candidates)
    requires DecisionFor(candidates, findings, criteria, g) == Accept(c.builderId)
    ensures c.verification == Passed || (c.verification == PassedTypecheckOnly && !g.requireTests)
    ensures !c.matchesAntiExample && g.missingAntiExamples == 0
    ensures ScoreFor(c, findings, criteria).score >= g.qualityFloor
    ensures ScoreFor(c, findings, criteria).coverage >= g.minRubricCoverage
    ensures Latest(findings, c.builderId, k) ==>
      && findings[k].bug == 0 && findings[k].contractViolation == 0 && findings[k].high == 0
      && (match findings[k].reviewCoverage
          case Some(x) => x >= g.minReviewCoverage
          case None => 0.0 >= g.minReviewCoverage)
  {
    AcceptedPasses(candidates, findings, criteria, g, c);
    if Latest(findings, c.builderId, k) {
      LatestIsFound(findings, c.builderId, k);
    }
  }

  lemma LatestIsFound(findings: seq<Findings>, id: string, k: nat)
    requires Latest(findings, id, k)
    ensures FindingsFor(findings, id) == Some(findings[k])
  {
    var f := FindingsFor(findings, id).value;
    var j :| Latest(findings, id, j) && findings[j] == f;
    assert j == k;
  }

  /** What backs an acceptance: verification, and a weighted sum of at least floor times coverage times weight. */
  lemma AcceptedIsBacked(
      candidates: seq<Candidate>, findings: seq<Findings>, criteria: seq<Criterion>, g: Gates, c: Candidate)
    requires DistinctBuilders(candidates) && NonNegative(criteria)
    requires c in Collected(candidates) && DecisionFor(candidates, findings, criteria, g) == Accept(c.builderId)
    ensures c.verification == Passed || (c.verification == PassedTypecheckOnly && !g.requireTests)
    ensures var score := ScoreFor(c, findings, criteria);
      var f := SummaryOf(FindingsFor(findings, c.builderId), c.matchesAntiExample);
      var sum := WeightedSum(criteria, Some(c.verification), f);
      && Reaches(sum, g.qualityFloor, score.coverage, score.totalWeight)
      && (g.qualityFloor >= 0.0 ==> Reaches(sum, g.qualityFloor, g.minRubricCoverage, score.totalWeight))
  {
    AcceptedPasses(candidates, findings, criteria, g, c);
    FloorMeaning(criteria, Some(c.verification), SummaryOf(FindingsFor(findings, c.builderId), c.matchesAntiExample),
                 g.qualityFloor, g.minRubricCoverage);
  }

  lemma SameBuilderSame(candidates: seq<Candidate>, c: Candidate, d: Candidate)
    requires DistinctBuilders(candidates) && c in Collected(candidates) && d in Collected(candidates)
    requires c.builderId == d.builderId
    ensures c == d
  {
    var cs := Collected(candidates);
    var i :| 0 <= i < |cs| && cs[i] == c;
    var j :| 0 <= j < |cs| && cs[j] == d;
    assert i == j;
  }

  /** When tests are required and both commands run something, an accepted candidate's typecheck and tests
      were re-run and both exited with zero. */
  lemma AcceptedRanClean(
      candidates: seq<Candidate>, findings: seq<Findings>, criteria: seq<Criterion>, g: Gates, c: Candidate,
      typecheck: Option<Command>, test: Command, w: World, r: Result)
    requires DistinctBuilders(candidates) && c in Collected(candidates)
    requires DecisionFor(candidates, findings, criteria, g) == Accept(c.builderId)
    requires Explains(r, Chosen(typecheck), test, w) && c.verification == r.phase
    requires g.requireTests && Runnable(Chosen(typecheck)) && Runnable(test)
    ensures w.worktreeExists && BothExitedZero(r)
  {
    AcceptedPasses(candidates, findings, criteria, g, c);
    PassedMeansBothExitedZero(r, typecheck, test, w);
  }

  /** Skipping verification altogether shuts a candidate out, whether or not tests are required. */
  lemma SkippedIsNeverAccepted(
      candidates: seq<Candidate>, findings: seq<Findings>, criteria: seq<Criterion>, g: Gates, c: Candidate,
      w: World, r: Result)
    requires DistinctBuilders(candidates) && c in Collected(candidates)
    requires Explains(r, Chosen(Some(None)), None, w) && c.verification == r.phase
    ensures DecisionFor(candidates, findings, criteria, g) != Accept(c.builderId)
  {
    if DecisionFor(candidates, findings, criteria, g) == Accept(c.builderId) {
      AcceptedPasses(candidates, findings, criteria, g, c);
    }
  }
}
