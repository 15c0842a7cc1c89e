/** Promotion decisions and their summary (`add_gate_decisions`, `validation_summary`). */
module PromotionDecisions {
  import opened PromotionGates

  function Max(a: real, b: real): real {
    if a >= b then a else b
  }

  /** The part of the promotion score no threshold enters. */
  function PlainScore(m: Metrics): real {
    m.verifierDelta * 6.0 + m.semanticDelta * 3.0 + m.partialDelta * 2.0 - m.schemaDelta * 2.0
    + m.completionDelta * 1.5 + m.answerFieldDelta + m.answerTerminationDelta * 0.5
    + Max(0.0, m.contractVerifierDelta) * 0.5 + Max(0.0, m.contractFieldDelta) * 0.25
    + Max(0.0, m.contractCompletionDelta) * 0.25
    + Max(0.0, m.bestEvalVerifierBaselineDelta) * 1.0 + Max(0.0, m.bestEvalCompletionBaselineDelta) * 0.5
    + Max(0.0, m.bestEvalVerifierStepDelta) * 0.5 + Max(0.0, m.bestEvalCompletionStepDelta) * 0.25
    - Max(0.0, -m.bestEvalVerifierStepDelta) * 0.25 - Max(0.0, -m.bestEvalCompletionStepDelta) * 0.10
    - m.validDelta - Max(m.sourceDelta, 0.0) * 0.20 + (m.throughputRatio - 1.0) * 0.50
    + m.entropyDelta * 0.05 + m.distinct2Delta * 0.5 - (1.0 - m.healthyFraction) * 2.0
    - m.capabilityScoreDrop - m.verifierDropFromBest * 4.0 - m.completionDropFromBest * 2.0
    - m.recoveryControlFraction
  }

  /** How far a measurement lies beyond its ceiling, and how far short of its floor. */
  function Over(x: real, ceiling: real): real {
    Max(0.0, x - ceiling)
  }

  function Under(x: real, floor: real): real {
    Max(0.0, floor - x)
  }

  /** The score's penalties for missing a threshold, whether or not a gate looks at it. */
  function CapabilityPenalty(m: Metrics, t: Thresholds): real {
    Over(m.capabilityLaggingBuckets, t.max(Ceiling.CapabilityLaggingBuckets)) * 0.10
    + Over(m.capabilityLaggingContracts, t.max(Ceiling.CapabilityLaggingBuckets)) * 0.20
  }

  function FamilyPenalty(m: Metrics, t: Thresholds): real {
    Under(m.rawCompletionWorstFamilyVerifier, t.min(RawCompletionFamilyVerifierRate)) * 4.0
    + Over(m.rawCompletionMaxFamilySchemaKeyMismatch, t.max(RawCompletionFamilySchemaKeyMismatch)) * 2.0
  }

  function PromptPenalty(m: Metrics, t: Thresholds): real {
    Under(m.promptSchemaCompletionVerifier, t.min(PromptSchemaCompletionVerifierRate)) * 3.0
    + Under(m.promptSchemaCompletionFieldValueDistinctRatio, t.min(PromptSchemaCompletionFieldValueDistinctRatio))
      * 2.0
    + Over(m.promptSchemaCompletionFieldValueDominance, t.max(Ceiling.PromptSchemaCompletionFieldValueDominance))
  }

  function Score(m: Metrics, t: Thresholds): real {
    PlainScore(m) - CapabilityPenalty(m, t) - FamilyPenalty(m, t) - PromptPenalty(m, t)
  }

  datatype Decision = Promote | Control | Hold | Reject

  datatype Decided = Decided(arm: string, decision: Decision, failReasons: seq<Reason>, mature: bool, score: real)

  function Judge(arm: string, baseline: bool, mature: bool, reasons: seq<Reason>, score: real): Decided {
    if baseline then Decided(arm, Control, reasons, mature, 0.0)
    else if !mature then Decided(arm, Hold, reasons, mature, score)
    else if reasons != [] then Decided(arm, Reject, reasons, mature, score)
    else if score >= 0.0 then Decided(arm, Promote, [], mature, score)
    else Decided(arm, Hold, [PassesGatesNegativeScore], mature, score)
  }

  function Decide(m: Metrics, t: Thresholds, baselineArm: string): Decided {
    Judge(m.arm, m.arm == baselineArm, MatureEnough(m, t), Reasons(m, t, baselineArm), Score(m, t))
  }

  lemma CapabilityPenaltyShrinks(m: Metrics, t: Thresholds, u: Thresholds)
    requires Loosened(t, u)
    ensures CapabilityPenalty(m, u) <= CapabilityPenalty(m, t)
  {
  }

  lemma FamilyPenaltyShrinks(m: Metrics, t: Thresholds, u: Thresholds)
    requires Loosened(t, u)
    ensures FamilyPenalty(m, u) <= FamilyPenalty(m, t)
  {
  }

  lemma PromptPenaltyShrinks(m: Metrics, t: Thresholds, u: Thresholds)
    requires Loosened(t, u)
    ensures PromptPenalty(m, u) <= PromptPenalty(m, t)
  {
  }

  lemma ScoreGrows(m: Metrics, t: Thresholds, u: Thresholds)
    requires Loosened(t, u)
    ensures Score(m, u) >= Score(m, t)
  {
    CapabilityPenaltyShrinks(m, t, u);
    FamilyPenaltyShrinks(m, t, u);
    PromptPenaltyShrinks(m, t, u);
  }

  lemma JudgePromotes(arm: string, baseline: bool, mature: bool, reasons: seq<Reason>, score: real)
    ensures var d := Judge(arm, baseline, mature, reasons, score);
            && (d.decision == Promote <==> !baseline && mature && reasons == [] && score >= 0.0)
            && (d.decision == Promote ==> d.failReasons == [])
            && (d.decision == Reject <==> !baseline && mature && reasons != [])
            && d.mature == mature && (!baseline ==> d.score == score)
  {
  }

  /** What a decision says: which arms are promoted and which rejected. */
  lemma DecisionMeans(m: Metrics, t: Thresholds, baselineArm: string)
    ensures var d := Decide(m, t, baselineArm);
            && (d.decision == Promote <==>
                  && m.arm != baselineArm && MatureEnough(m, t)
                  && Reasons(m, t, baselineArm) == [] && Score(m, t) >= 0.0)
            && (d.decision == Promote ==> d.failReasons == [])
            && (d.decision == Reject <==>
                  m.arm != baselineArm && MatureEnough(m, t) && Reasons(m, t, baselineArm) != [])
            && d.mature == MatureEnough(m, t) && (m.arm != baselineArm ==> d.score == Score(m, t))
  {
    JudgePromotes(m.arm, m.arm == baselineArm, MatureEnough(m, t), Reasons(m, t, baselineArm), Score(m, t));
  }

  /** The other decisions, and what each one reports. */
  lemma DecisionTable(m: Metrics, t: Thresholds, baselineArm: string)
    ensures var d, reasons := Decide(m, t, baselineArm), Reasons(m, t, baselineArm);
            && d.arm == m.arm
            && (d.decision == Control <==> m.arm == baselineArm)
            && (d.decision == Hold <==>
                  m.arm != baselineArm && (!MatureEnough(m, t) || (reasons == [] && Score(m, t) < 0.0)))
            && d.score == (if m.arm == baselineArm then 0.0 else Score(m, t))
            && d.failReasons
               == (if d.decision == Hold && MatureEnough(m, t) then [PassesGatesNegativeScore] else reasons)
  {
  }

  /**
   * On the same metrics, loosening any thresholds keeps a promoted arm promoted exactly when the
   * two answer-distinct gates still pass: each of those thresholds stands on both sides of its gate.
   */
  lemma LooseningKeepsPromotion(m: Metrics, t: Thresholds, u: Thresholds, baselineArm: string)
    requires Loosened(t, u) && Decide(m, t, baselineArm).decision == Promote
    ensures Decide(m, u, baselineArm).decision == (if DistinctPasses(m, u) then Promote else Reject)
    ensures Decide(m, u, baselineArm).score >= Decide(m, t, baselineArm).score
    ensures DistinctPasses(m, t)
  {
    DecisionMeans(m, t, baselineArm);
    DecisionMeans(m, u, baselineArm);
    ReasonsLoosen(m, t, u, baselineArm);
    ScoreGrows(m, t, u);
  }

  ghost predicate SameDistinct(t: Thresholds, u: Thresholds) {
    && t.min(RawCompletionAnswerDistinct) == u.min(RawCompletionAnswerDistinct)
    && t.min(PromptSchemaCompletionAnswerDistinct) == u.min(PromptSchemaCompletionAnswerDistinct)
  }

  lemma SameDistinctPasses(m: Metrics, t: Thresholds, u: Thresholds)
    requires SameDistinct(t, u)
    ensures DistinctPasses(m, t) <==> DistinctPasses(m, u)
  {
  }

  /** With the two answer-distinct thresholds left alone, loosening the others never loses a promotion. */
  lemma LooseningTheOthersIsSafe(m: Metrics, t: Thresholds, u: Thresholds, baselineArm: string)
    requires Loosened(t, u) && SameDistinct(t, u) && Decide(m, t, baselineArm).decision == Promote
    ensures Decide(m, u, baselineArm).decision == Promote
  {
    LooseningKeepsPromotion(m, t, u, baselineArm);
    SameDistinctPasses(m, t, u);
  }

  function WithRawDistinct(t: Thresholds, value: real): Thresholds {
    t.(min := (k: Floor) => if k == RawCompletionAnswerDistinct then value else t.min(k))
  }

  function WithPromptDistinct(t: Thresholds, value: real): Thresholds {
    t.(min := (k: Floor) => if k == PromptSchemaCompletionAnswerDistinct then value else t.min(k))
  }

  lemma RawDistinctFails(m: Metrics, t: Thresholds)
    requires m.rawCompletionAnswerDistinct < m.rawCompletionExpectedDistinct < t.min(RawCompletionAnswerDistinct)
    ensures var u := WithRawDistinct(t, m.rawCompletionExpectedDistinct);
            Loosened(t, u) && !DistinctPasses(m, u)
  {
    assert !RawDistinctPasses(m, WithRawDistinct(t, m.rawCompletionExpectedDistinct));
  }

  lemma PromptDistinctFails(m: Metrics, t: Thresholds)
    requires m.promptSchemaCompletionRows > 0.0
    requires m.promptSchemaCompletionAnswerDistinct < m.promptSchemaCompletionExpectedDistinct
             < t.min(PromptSchemaCompletionAnswerDistinct)
    ensures var u := WithPromptDistinct(t, m.promptSchemaCompletionExpectedDistinct);
            Loosened(t, u) && !DistinctPasses(m, u)
  {
    assert !PromptDistinctPasses(m, WithPromptDistinct(t, m.promptSchemaCompletionExpectedDistinct));
  }

  lemma LooseningRejects(m: Metrics, t: Thresholds, u: Thresholds, baselineArm: string)
    requires Loosened(t, u) && Decide(m, t, baselineArm).decision == Promote && !DistinctPasses(m, u)
    ensures Decide(m, u, baselineArm).decision == Reject
  {
    LooseningKeepsPromotion(m, t, u, baselineArm);
  }

  /**
   * The failure is real, at either gate: any promoted arm with thinner answers than expected, both
   * below the threshold, is rejected under some looser threshold.
   */
  lemma LooseningCanReject(m: Metrics, t: Thresholds, baselineArm: string)
    requires Decide(m, t, baselineArm).decision == Promote
    requires || m.rawCompletionAnswerDistinct < m.rawCompletionExpectedDistinct < t.min(RawCompletionAnswerDistinct)
             || (m.promptSchemaCompletionRows > 0.0
                 && m.promptSchemaCompletionAnswerDistinct < m.promptSchemaCompletionExpectedDistinct
                    < t.min(PromptSchemaCompletionAnswerDistinct))
    ensures exists u :: Loosened(t, u) && Decide(m, u, baselineArm).decision == Reject
  {
    if m.rawCompletionAnswerDistinct < m.rawCompletionExpectedDistinct < t.min(RawCompletionAnswerDistinct) {
      RawDistinctFails(m, t);
      LooseningRejects(m, t, WithRawDistinct(t, m.rawCompletionExpectedDistinct), baselineArm);
    } else {
      PromptDistinctFails(m, t);
      LooseningRejects(m, t, WithPromptDistinct(t, m.promptSchemaCompletionExpectedDistinct), baselineArm);
    }
  }
}
