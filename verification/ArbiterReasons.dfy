/** Which decision is taken when nobody is accepted, and what it tells the human about each candidate. */
module ArbiterReasons {
  import opened Options
  import opened CandidateVerifier
  import opened Rubric
  import opened Arbiter

  /** The gate stands against the candidate, as far as it is something to report. */
  predicate Fails(gate: Gate, c: Candidate, findings: seq<Findings>, criteria: seq<Criterion>, g: Gates) {
    match gate
    case Verified => c.verification != Passed && (c.verification != PassedTypecheckOnly || g.requireTests)
    case ScoreFloor => ScoreFor(c, findings, criteria).score < g.qualityFloor
    case RubricCoverage => ScoreFor(c, findings, criteria).coverage < g.minRubricCoverage
    case ReviewCoverage =>
      (match FindingsFor(findings, c.builderId)
       case None => false
       case Some(f) => f.reviewCoverage.Some? && f.reviewCoverage.value < g.minReviewCoverage)
    case CleanReview =>
      (match FindingsFor(findings, c.builderId)
       case None => false
       case Some(f) => f.bug != 0 || f.contractViolation != 0 || f.high != 0)
    case AntiExamples => c.matchesAntiExample
  }

  /** The gates that stand against a candidate, in the order in which they are reported. */
  function AllFailing(c: Candidate, findings: seq<Findings>, criteria: seq<Criterion>, g: Gates): seq<Gate> {
    If(Fails(Verified, c, findings, criteria, g), Verified)
    + If(Fails(ScoreFloor, c, findings, criteria, g), ScoreFloor)
    + If(Fails(RubricCoverage, c, findings, criteria, g), RubricCoverage)
    + If(Fails(ReviewCoverage, c, findings, criteria, g), ReviewCoverage)
    + If(Fails(CleanReview, c, findings, criteria, g), CleanReview)
    + If(Fails(AntiExamples, c, findings, criteria, g), AntiExamples)
  }

  /** Those that are a matter of uncertainty. */
  function UncertainFailing(c: Candidate, findings: seq<Findings>, criteria: seq<Criterion>, g: Gates): seq<Gate> {
    If(Fails(RubricCoverage, c, findings, criteria, g), RubricCoverage)
    + If(Fails(ReviewCoverage, c, findings, criteria, g), ReviewCoverage)
    + If(Fails(CleanReview, c, findings, criteria, g), CleanReview)
  }

  lemma OwnReview(c: Candidate, cs: seq<Candidate>, findings: seq<Findings>, criteria: seq<Criterion>, g: Gates)
    ensures var e := Assess(c, cs, findings, criteria, g);
      && (!e.reviewCoverageOk && e.reviewCoverage.Some? <==> Fails(ReviewCoverage, c, findings, criteria, g))
      && (!e.cleanReview <==> Fails(CleanReview, c, findings, criteria, g))
  {
  }

  lemma OwnScores(c: Candidate, cs: seq<Candidate>, findings: seq<Findings>, criteria: seq<Criterion>, g: Gates)
    requires FirstOf(cs, c.builderId) == Some(c)
    ensures var e := Assess(c, cs, findings, criteria, g);
      && (!e.verPassed <==> Fails(Verified, c, findings, criteria, g))
      && (!e.scoreOk <==> Fails(ScoreFloor, c, findings, criteria, g))
      && (!e.rubricCoverageOk <==> Fails(RubricCoverage, c, findings, criteria, g))
  {
  }

  lemma OwnMatch(candidates: seq<Candidate>, findings: seq<Findings>, criteria: seq<Criterion>, g: Gates, c: Candidate)
    requires DistinctBuilders(candidates) && c in Collected(candidates) && g.missingAntiExamples == 0
    ensures !Assess(c, Collected(candidates), findings, criteria, g).antiExampleOk
      <==> Fails(AntiExamples, c, findings, criteria, g)
  {
    var cs := Collected(candidates);
    if exists d :: d in cs && d.builderId == c.builderId && d.matchesAntiExample {
      var d :| d in cs && d.builderId == c.builderId && d.matchesAntiExample;
      SameBuilderSame(candidates, d, c);
    }
  }

  /** With every anti-example loaded, the gates reported of an assessment are those that stand against its
      candidate: all of them in a rejection, the uncertain ones in an escalation. */
  lemma GatesAreFailing(candidates: seq<Candidate>, findings: seq<Findings>, criteria: seq<Criterion>, g: Gates, i: nat)
    requires DistinctBuilders(candidates) && i < |Collected(candidates)| && g.missingAntiExamples == 0
    ensures var c, e := Collected(candidates)[i], AssessAll(Collected(candidates), findings, criteria, g)[i];
      && RejectionGates(e) == AllFailing(c, findings, criteria, g)
      && EscalationGates(e) == UncertainFailing(c, findings, criteria, g)
  {
    var cs := Collected(candidates);
    FirstIsOwn(cs, i);
    OwnReview(cs[i], cs, findings, criteria, g);
    OwnScores(cs[i], cs, findings, criteria, g);
    OwnMatch(candidates, findings, criteria, g, cs[i]);
  }

  /** A rejection names, for each collected candidate in order, exactly the gates that stand against it. */
  lemma {:induction false} RejectionsNameTheGates(
      candidates: seq<Candidate>, findings: seq<Findings>, criteria: seq<Criterion>, g: Gates, i: nat)
    requires DistinctBuilders(candidates) && DecisionFor(candidates, findings, criteria, g).Reject?
    requires i < |Collected(candidates)|
    ensures var reasons := DecisionFor(candidates, findings, criteria, g).reasons;
      && |reasons| == |Collected(candidates)|
      && reasons[i] == Line(Collected(candidates)[i].builderId,
                            AllFailing(Collected(candidates)[i], findings, criteria, g))
  {
    var es := AssessAll(Collected(candidates), findings, criteria, g);
    RejectionLists(es, g, i);
    assert g.missingAntiExamples == 0;
    GatesAreFailing(candidates, findings, criteria, g, i);
  }

  lemma RejectionLists(es: seq<Eligibility>, g: Gates, i: nat)
    requires Judge(es, g).Reject? && i < |es|
    ensures |Judge(es, g).reasons| == |es| && Judge(es, g).reasons[i] == Line(es[i].builderId, RejectionGates(es[i]))
  {
    RejectedFail(es, g);
    EveryoneListed(es);
  }

  lemma {:induction false} LinesExactlyWhen(es: seq<Eligibility>, line: Line)
    ensures line in EscalationLines(es)
      <==> exists e :: e in es && EscalationGates(e) != [] && line == Line(e.builderId, EscalationGates(e))
  {
    if es != [] {
      LinesExactlyWhen(es[..|es| - 1], line);
      assert es == es[..|es| - 1] + [es[|es| - 1]];
    }
  }

  /** The line an escalation has for a candidate. */
  predicate LineFor(
      line: Line, c: Candidate, findings: seq<Findings>, criteria: seq<Criterion>, g: Gates)
  {
    && ObjectiveGates(c, findings, criteria, g) && UncertainFailing(c, findings, criteria, g) != []
    && line == Line(c.builderId, UncertainFailing(c, findings, criteria, g))
  }

  lemma {:induction false} UncertainIsOwn(
      candidates: seq<Candidate>, findings: seq<Findings>, criteria: seq<Criterion>, g: Gates, i: nat, line: Line)
    requires DistinctBuilders(candidates) && i < |Collected(candidates)| && g.missingAntiExamples == 0
    ensures var c, e := Collected(candidates)[i], AssessAll(Collected(candidates), findings, criteria, g)[i];
      ObjectiveOk(e) && !CertainOk(e) && EscalationGates(e) != [] && line == Line(e.builderId, EscalationGates(e))
      <==> LineFor(line, c, findings, criteria, g)
  {
    AssessmentIsOwn(candidates, findings, criteria, g, i);
    GatesAreFailing(candidates, findings, criteria, g, i);
    EscalationGatesEmpty(AssessAll(Collected(candidates), findings, criteria, g)[i]);
  }

  /** An escalation for uncertainty has exactly one kind of line: a collected candidate that passes every
      objective gate, with the uncertain gates that stand against it. */
  lemma {:induction false} EscalationsNameTheGates(
      candidates: seq<Candidate>, findings: seq<Findings>, criteria: seq<Criterion>, g: Gates, line: Line)
    requires DistinctBuilders(candidates)
    requires var d := DecisionFor(candidates, findings, criteria, g); d.Escalate? && d.question.Uncertain?
    ensures line in DecisionFor(candidates, findings, criteria, g).question.lines
      <==> exists c :: c in Collected(candidates) && LineFor(line, c, findings, criteria, g)
  {
    var cs := Collected(candidates);
    var es := AssessAll(cs, findings, criteria, g);
    LinesExactlyWhen(UncertainOnly(es), line);
    forall i | 0 <= i < |cs|
      ensures es[i] in UncertainOnly(es) && EscalationGates(es[i]) != []
              && line == Line(es[i].builderId, EscalationGates(es[i]))
        <==> LineFor(line, cs[i], findings, criteria, g)
    {
      UncertainIsOwn(candidates, findings, criteria, g, i, line);
    }
    SameLines(cs, es, findings, criteria, g, line);
  }

  lemma SameLines(
      cs: seq<Candidate>, es: seq<Eligibility>, findings: seq<Findings>, criteria: seq<Criterion>, g: Gates, line: Line)
    requires |cs| == |es|
    requires forall i | 0 <= i < |cs| ::
      es[i] in UncertainOnly(es) && EscalationGates(es[i]) != []
      && line == Line(es[i].builderId, EscalationGates(es[i]))
      <==> LineFor(line, cs[i], findings, criteria, g)
    ensures (exists e :: e in UncertainOnly(es) && EscalationGates(e) != []
               && line == Line(e.builderId, EscalationGates(e)))
      <==> exists c :: c in cs && LineFor(line, c, findings, criteria, g)
  {
    if exists e :: e in UncertainOnly(es) && EscalationGates(e) != [] && line == Line(e.builderId, EscalationGates(e)) {
      var e :| e in UncertainOnly(es) && EscalationGates(e) != [] && line == Line(e.builderId, EscalationGates(e));
      var i :| 0 <= i < |es| && es[i] == e;
      assert cs[i] in cs;
    }
    if exists c :: c in cs && LineFor(line, c, findings, criteria, g) {
      var c :| c in cs && LineFor(line, c, findings, criteria, g);
      var i :| 0 <= i < |cs| && cs[i] == c;
      assert es[i] in UncertainOnly(es);
    }
  }

  // ---------- the other decisions ----------

  /** Nothing is decided about no candidates; otherwise a missing anti-example stops everything; otherwise, with
      nobody to pass every gate, a human is asked exactly when somebody passes the objective ones. */
  lemma {:induction false} OtherDecisionsExactlyWhen(
      candidates: seq<Candidate>, findings: seq<Findings>, criteria: seq<Criterion>, g: Gates)
    requires DistinctBuilders(candidates)
    ensures var d, cs := DecisionFor(candidates, findings, criteria, g), Collected(candidates);
      && (d == NothingCollected <==> cs == [])
      && (d == Escalate(FixAntiExamples) <==> cs != [] && g.missingAntiExamples > 0)
      && (d.Escalate? && d.question.Uncertain?
          <==> (exists c :: c in cs && ObjectiveGates(c, findings, criteria, g))
               && forall c | c in cs :: !PassesEveryGate(c, findings, criteria, g))
  {
    var cs := Collected(candidates);
    var es := AssessAll(cs, findings, criteria, g);
    forall i | 0 <= i < |cs|
      ensures ObjectiveOk(es[i]) <==> ObjectiveGates(cs[i], findings, criteria, g)
      ensures Ok(es[i]) <==> PassesEveryGate(cs[i], findings, criteria, g)
    {
      AssessmentIsOwn(candidates, findings, criteria, g, i);
    }
    SameObjectives(cs, es, findings, criteria, g);
    SamePasses(cs, es, findings, criteria, g);
    UncertainExactlyWhen(es, g);
    EmptyOrMissing(es, g);
  }

  lemma EmptyOrMissing(es: seq<Eligibility>, g: Gates)
    ensures Judge(es, g) == NothingCollected <==> es == []
    ensures Judge(es, g) == Escalate(FixAntiExamples) <==> es != [] && g.missingAntiExamples > 0
  {
  }

  lemma SamePasses(
      cs: seq<Candidate>, es: seq<Eligibility>, findings: seq<Findings>, criteria: seq<Criterion>, g: Gates)
    requires |cs| == |es|
    requires forall i | 0 <= i < |cs| :: Ok(es[i]) <==> PassesEveryGate(cs[i], findings, criteria, g)
    ensures (forall e | e in es :: !Ok(e)) <==> forall c | c in cs :: !PassesEveryGate(c, findings, criteria, g)
  {
    assert forall i | 0 <= i < |cs| :: cs[i] in cs && es[i] in es;
  }

  lemma UncertainExactlyWhen(es: seq<Eligibility>, g: Gates)
    ensures Judge(es, g).Escalate? && Judge(es, g).question.Uncertain?
      <==> g.missingAntiExamples == 0 && (exists e :: e in es && ObjectiveOk(e)) && forall e | e in es :: !Ok(e)
  {
    assert Eligible(es) != [] ==> Eligible(es)[0] in Eligible(es);
    assert UncertainOnly(es) != [] ==> UncertainOnly(es)[0] in UncertainOnly(es);
  }
}
