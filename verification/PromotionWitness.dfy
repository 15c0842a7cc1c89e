/** A promoted arm that loosening rejects, at either answer-distinct gate. */
module PromotionWitness {
  import opened Wrappers
  import opened PromotionGates
  import opened PromotionDecisions

  /** Level with the baseline everywhere, one distinct answer where two are expected, in both probes. */
  const THIN := Metrics(
    "arm", 0, 0, 0.0, 0.0, 0.0, 0.0, None, None, None, None, None, None, None, None, 0.0, 0.0, 0.0, 0.0, 0.0,
    0.0, 0.0, 0.0, 0.0, 0.0, 0.0, 0.0, 0.0, false, 0.0, 0.0, 0.0, None, 0.0, 0.0, 0.0, 0.0, 0.0, 0.0, 0.0,
    0.0, 0.0, 0.0, 0.0, 0.0, 0.0, 0.0, 0.0, 0.0, 0.0, 0.0, 0.0, 2.0, 1.0, 0.0, 0.0, 0.0, 0.0, 0.0, 0.0, 0.0,
    0.0, 0.0, 0.0, 0.0, 0.0, 1.0, 0.0, 0.0, 0.0, 0.0, 0.0, 0.0, 0.0, 2.0, 1.0, 0.0, 0.0, 0.0, 0.0, 0.0, 0.0,
    0.0, 0.0, 0.0, 0.0, 0.0, 0.0, 0.0, 0.0, 0.0, 0.0, 0.0, 0.0, 0.0, 0.0, 0.0, 1.0, 0.0, 0.0, 1.0, 0.0, 0.0,
    0.0, 0.0, 0.0, 0.0, 0.0, 0.0, 0.0, 0.0, 0.0, 0.0, 0.0, 0.0, 0.0, 0.0, 0.0, 0.0, 0.0, 0.0, 0.0, 0.0, 0.0,
    0.0, 0.0, 0.0, 0.0, 0.0, 0.0, 0.0, 0.0, 0.0, 0.0, 0.0, 0.0, 0.0, 0.0, 0.0, 0.0, 0.0, 0.0)

  /** All ceilings and floors at zero, but for three answers asked of both probes. */
  const LENIENT := Thresholds(
    (k: Ceiling) => 0.0,
    (k: Floor) => if k == RawCompletionAnswerDistinct || k == PromptSchemaCompletionAnswerDistinct then 3.0 else 0.0)

  lemma LenientMeans()
    ensures forall k :: LENIENT.max(k) == 0.0
    ensures LENIENT.min(MatureIters) == LENIENT.min(ThroughputRatio) == 0.0
  {
  }

  /** An arm at the baseline's level passes the run gates wherever the three thresholds they ask are zero. */
  lemma LevelPassesRun(m: Metrics, t: Thresholds, baselineArm: string)
    requires m.okTrials == m.trials && m.healthyFraction == 1.0 && m.throughputRatio == 1.0
    requires m.fatalGateCount == 0.0 && m.peakMemoryRatio == 0.0
    requires t.max(PeakMemoryRatio) == t.min(MatureIters) == t.min(ThroughputRatio) == 0.0
    ensures MatureEnough(m, t) && RunReasons(m, t, baselineArm) == []
  {
  }

  lemma ThinPassesRegression()
    ensures RegressionReasons(THIN, LENIENT) == []
  {
  }

  lemma ThinPassesFloor()
    ensures FloorReasons(THIN, LENIENT) == []
  {
  }

  lemma ThinPassesDrop()
    ensures DropReasons(THIN, LENIENT) == []
  {
  }

  lemma ThinPassesRaw()
    ensures RawReasons(THIN, LENIENT) == []
  {
  }

  lemma ThinPassesFamily()
    ensures FamilyReasons(THIN, LENIENT) == []
  {
  }

  lemma ThinPassesPrompt()
    ensures PromptReasons(THIN, LENIENT) == []
  {
  }

  lemma ThinPassesObjective()
    ensures ObjectiveReasons(THIN, LENIENT) == []
  {
    ObjectiveParts(THIN, LENIENT);
  }

  /** An arm with no difference to the baseline, as far as the score asks. */
  predicate Level(m: Metrics) {
    && m.verifierDelta == m.semanticDelta == m.partialDelta == m.schemaDelta == m.completionDelta == 0.0
    && m.answerFieldDelta == m.answerTerminationDelta == m.contractVerifierDelta == 0.0
    && m.contractFieldDelta == m.contractCompletionDelta == m.bestEvalVerifierBaselineDelta == 0.0
    && m.bestEvalCompletionBaselineDelta == m.bestEvalVerifierStepDelta == m.bestEvalCompletionStepDelta == 0.0
    && m.validDelta == m.sourceDelta == m.entropyDelta == m.distinct2Delta == m.capabilityScoreDrop == 0.0
    && m.verifierDropFromBest == m.completionDropFromBest == m.recoveryControlFraction == 0.0
    && m.throughputRatio == m.healthyFraction == 1.0
  }

  lemma LevelPlainScore(m: Metrics)
    requires Level(m)
    ensures PlainScore(m) == 0.0
  {
    assert Max(0.0, 0.0) == 0.0;
  }

  /** An arm exactly at the thresholds the penalties ask. */
  predicate AtThresholds(m: Metrics, t: Thresholds) {
    && m.capabilityLaggingBuckets == m.capabilityLaggingContracts == t.max(Ceiling.CapabilityLaggingBuckets)
    && m.rawCompletionWorstFamilyVerifier == t.min(RawCompletionFamilyVerifierRate)
    && m.rawCompletionMaxFamilySchemaKeyMismatch == t.max(RawCompletionFamilySchemaKeyMismatch)
    && m.promptSchemaCompletionVerifier == t.min(PromptSchemaCompletionVerifierRate)
    && m.promptSchemaCompletionFieldValueDistinctRatio == t.min(PromptSchemaCompletionFieldValueDistinctRatio)
    && m.promptSchemaCompletionFieldValueDominance == t.max(Ceiling.PromptSchemaCompletionFieldValueDominance)
  }

  lemma AtThresholdsPenalties(m: Metrics, t: Thresholds)
    requires AtThresholds(m, t)
    ensures CapabilityPenalty(m, t) == FamilyPenalty(m, t) == PromptPenalty(m, t) == 0.0
  {
    assert forall x: real :: Over(x, x) == 0.0 && Under(x, x) == 0.0;
  }

  lemma LevelScore(m: Metrics, t: Thresholds)
    requires Level(m) && AtThresholds(m, t)
    ensures Score(m, t) == 0.0
  {
    LevelPlainScore(m);
    AtThresholdsPenalties(m, t);
  }

  lemma LevelIsPromoted(m: Metrics, t: Thresholds, baselineArm: string)
    requires Level(m) && AtThresholds(m, t) && m.arm != baselineArm
    requires MatureEnough(m, t) && Reasons(m, t, baselineArm) == []
    ensures Decide(m, t, baselineArm).decision == Promote
  {
    LevelScore(m, t);
    DecisionMeans(m, t, baselineArm);
  }

  lemma ThinIsLevel()
    ensures Level(THIN)
  {
  }

  lemma ThinIsAtThresholds()
    ensures AtThresholds(THIN, LENIENT)
  {
  }

  lemma ThinHasNoReasons(baselineArm: string)
    ensures MatureEnough(THIN, LENIENT) && Reasons(THIN, LENIENT, baselineArm) == []
  {
    ReasonParts(THIN, LENIENT, baselineArm);
    LenientMeans();
    LevelPassesRun(THIN, LENIENT, baselineArm);
    MatureParts(THIN, LENIENT);
    ThinPassesRegression();
    ThinPassesFloor();
    ThinPassesDrop();
    ThinPassesRaw();
    ThinPassesFamily();
    ThinPassesPrompt();
    ThinPassesObjective();
  }

  /** The thin arm is promoted. */
  lemma ThinIsPromoted(baselineArm: string)
    requires baselineArm != THIN.arm
    ensures Decide(THIN, LENIENT, baselineArm).decision == Promote
  {
    ThinHasNoReasons(baselineArm);
    ThinIsLevel();
    ThinIsAtThresholds();
    LevelIsPromoted(THIN, LENIENT, baselineArm);
  }

  lemma ThinDistincts()
    ensures var u := WithRawDistinct(LENIENT, 2.0); Loosened(LENIENT, u) && !DistinctPasses(THIN, u)
    ensures var u := WithPromptDistinct(LENIENT, 2.0); Loosened(LENIENT, u) && !DistinctPasses(THIN, u)
  {
    RawDistinctFails(THIN, LENIENT);
    PromptDistinctFails(THIN, LENIENT);
  }

  /** And two looser threshold sets reject it, one for each gate. */
  lemma ThinIsRejectedByLoosening(baselineArm: string)
    requires baselineArm != THIN.arm
    ensures Decide(THIN, LENIENT, baselineArm).decision == Promote
    ensures Decide(THIN, WithRawDistinct(LENIENT, 2.0), baselineArm).decision == Reject
    ensures Decide(THIN, WithPromptDistinct(LENIENT, 2.0), baselineArm).decision == Reject
  {
    ThinIsPromoted(baselineArm);
    ThinDistincts();
    LooseningRejects(THIN, LENIENT, WithRawDistinct(LENIENT, 2.0), baselineArm);
    LooseningRejects(THIN, LENIENT, WithPromptDistinct(LENIENT, 2.0), baselineArm);
  }
}
