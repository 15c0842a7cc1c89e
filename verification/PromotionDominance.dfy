/** A better arm: promotion judged by the measurements, the thresholds held. */
module PromotionDominance {
  import opened Wrappers
  import opened PromotionGates
  import opened PromotionDecisions
  import opened PromotionScore
  import opened PromotionTable

  predicate NoHigher(a: Option<real>, b: Option<real>) {
    b.Some? ==> a.Some? && b.value <= a.value
  }

  predicate NoLower(a: Option<real>, b: Option<real>) {
    b.Some? ==> a.Some? && a.value <= b.value
  }

  /** The same objectives were configured and scheduled. */
  predicate SameSetup(m: Metrics, n: Metrics) {
    && m.policyConfigWeight == n.policyConfigWeight
    && m.policyExpectedUpdates == n.policyExpectedUpdates
    && m.recoveryConfigWeight == n.recoveryConfigWeight
    && m.recoveryExpectedUpdates == n.recoveryExpectedUpdates
    && m.recoveryEffectiveWeight == n.recoveryEffectiveWeight
    && m.answerContractConfigWeight == n.answerContractConfigWeight
    && m.answerContractExpectedUpdates == n.answerContractExpectedUpdates
    && m.answerContractPromptSchemaValueWeight == n.answerContractPromptSchemaValueWeight
    && m.contrastWeight == n.contrastWeight
    && m.contrastExpectedUpdates == n.contrastExpectedUpdates
    && m.fieldBindingWeight == n.fieldBindingWeight
    && m.fieldBindingPairWeight == n.fieldBindingPairWeight
    && m.fieldBindingExpectedUpdates == n.fieldBindingExpectedUpdates
    && m.fieldBindingExpectedRankMetrics == n.fieldBindingExpectedRankMetrics
    && m.generatedAttractorCapacity == n.generatedAttractorCapacity
    && m.generatedAttractorMinDistinct == n.generatedAttractorMinDistinct
    && m.generatedAttractorMaxDominantFraction == n.generatedAttractorMaxDominantFraction
    && m.rolloutImitationWeight == n.rolloutImitationWeight
  }

  /** The run. */
  predicate BetterRun(m: Metrics, n: Metrics) {
    && n.trials - n.okTrials <= m.trials - m.okTrials
    && m.maxIters <= n.maxIters
    && m.healthyFraction <= n.healthyFraction
    && n.fatalGateCount <= m.fatalGateCount
    && m.throughputRatio <= n.throughputRatio
    && n.peakMemoryRatio <= m.peakMemoryRatio
    && m.entropy <= n.entropy
    && m.distinct2 <= n.distinct2
    && m.policyCompletionRows <= n.policyCompletionRows
    && n.policyClipFraction <= m.policyClipFraction
  }

  /** Differences to the baseline, and the latent probes: a probe may be left out, but none added. */
  predicate BetterRegression(m: Metrics, n: Metrics) {
    && n.validDelta <= m.validDelta
    && NoHigher(m.latentEvalCeDelta, n.latentEvalCeDelta)
    && NoHigher(m.latentEvalCeViolation, n.latentEvalCeViolation)
    && NoLower(m.latentEvalEntropy, n.latentEvalEntropy)
    && NoHigher(m.latentEvalDeltaRms, n.latentEvalDeltaRms)
    && NoHigher(m.latentExtraEvalCeDelta, n.latentExtraEvalCeDelta)
    && NoHigher(m.latentExtraEvalCeViolation, n.latentExtraEvalCeViolation)
    && NoLower(m.latentExtraEvalEntropy, n.latentExtraEvalEntropy)
    && NoHigher(m.latentExtraEvalDeltaRms, n.latentExtraEvalDeltaRms)
    && n.sourceDelta <= m.sourceDelta
    && m.verifierDelta <= n.verifierDelta
    && n.schemaDelta <= m.schemaDelta
    && n.malformedDelta <= m.malformedDelta
    && m.completionDelta <= n.completionDelta
    && m.answerFieldDelta <= n.answerFieldDelta
    && m.answerTerminationDelta <= n.answerTerminationDelta
  }

  /** What is held against floors, and the contract probe, which may be left out. */
  predicate BetterFloor(m: Metrics, n: Metrics) {
    && m.verifier <= n.verifier
    && m.semantic <= n.semantic
    && m.partial <= n.partial
    && m.completionDistinct2 <= n.completionDistinct2
    && n.completionPeriod <= m.completionPeriod
    && n.completionRepetition <= m.completionRepetition
    && (n.contractProbePresent ==> m.contractProbePresent)
    && m.contractVerifier <= n.contractVerifier
    && m.contractField <= n.contractField
  }

  /** Drops, and extra steps, which may be left out. */
  predicate BetterDrop(m: Metrics, n: Metrics) {
    && n.capabilityScoreDrop <= m.capabilityScoreDrop
    && n.capabilityLaggingBuckets <= m.capabilityLaggingBuckets
    && n.capabilityLaggingContracts <= m.capabilityLaggingContracts
    && n.verifierDropFromBest <= m.verifierDropFromBest
    && n.completionDropFromBest <= m.completionDropFromBest
    && (n.extraEvalStepCount > 0.0 ==> m.extraEvalStepCount > 0.0)
    && m.extraEvalMinVerifierDelta <= n.extraEvalMinVerifierDelta
    && m.extraEvalMinCompletionDelta <= n.extraEvalMinCompletionDelta
    && n.extraEvalMaxMalformedDelta <= m.extraEvalMaxMalformedDelta
    && n.recoveryControlFraction <= m.recoveryControlFraction
  }

  /** The raw completion probe. */
  predicate BetterRaw(m: Metrics, n: Metrics) {
    && m.rawCompletionRows <= n.rawCompletionRows
    && m.rawCompletionVerifier <= n.rawCompletionVerifier
    && m.rawCompletionSemantic <= n.rawCompletionSemantic
    && m.rawCompletionPartial <= n.rawCompletionPartial
    && n.rawCompletionSchemaWrong <= m.rawCompletionSchemaWrong
    && n.rawCompletionMalformed <= m.rawCompletionMalformed
    && n.rawCompletionMissing <= m.rawCompletionMissing
    && m.rawCompletionQuality <= n.rawCompletionQuality
    && m.rawCompletionAnswerDistinct <= n.rawCompletionAnswerDistinct
    && m.rawCompletionFieldValueDistinctRatio <= n.rawCompletionFieldValueDistinctRatio
    && n.rawCompletionFieldValueDominance <= m.rawCompletionFieldValueDominance
  }

  /** The raw completion probe by family. */
  predicate BetterFamily(m: Metrics, n: Metrics) {
    && m.rawCompletionFamilyCount <= n.rawCompletionFamilyCount
    && m.rawCompletionMinFamilyRows <= n.rawCompletionMinFamilyRows
    && m.rawCompletionWorstFamilyVerifier <= n.rawCompletionWorstFamilyVerifier
    && m.rawCompletionWorstFamilyPartial <= n.rawCompletionWorstFamilyPartial
    && m.rawCompletionWorstFamilyField <= n.rawCompletionWorstFamilyField
    && m.rawCompletionWorstFamilyQuality <= n.rawCompletionWorstFamilyQuality
    && n.rawCompletionMaxFamilySchemaWrong <= m.rawCompletionMaxFamilySchemaWrong
    && n.rawCompletionMaxFamilyMalformed <= m.rawCompletionMaxFamilyMalformed
    && n.rawCompletionMaxFamilySchemaKeyMismatch <= m.rawCompletionMaxFamilySchemaKeyMismatch
    && n.rawCompletionMaxFamilyAnswerDominance <= m.rawCompletionMaxFamilyAnswerDominance
  }

  /** The prompt-schema probe. */
  predicate BetterPrompt(m: Metrics, n: Metrics) {
    && m.promptSchemaCompletionRows <= n.promptSchemaCompletionRows
    && m.promptSchemaCompletionVerifier <= n.promptSchemaCompletionVerifier
    && m.promptSchemaCompletionSemantic <= n.promptSchemaCompletionSemantic
    && m.promptSchemaCompletionPartial <= n.promptSchemaCompletionPartial
    && n.promptSchemaCompletionSchemaWrong <= m.promptSchemaCompletionSchemaWrong
    && n.promptSchemaCompletionMalformed <= m.promptSchemaCompletionMalformed
    && n.promptSchemaCompletionMissing <= m.promptSchemaCompletionMissing
    && m.promptSchemaCompletionQuality <= n.promptSchemaCompletionQuality
    && m.promptSchemaCompletionAnswerDistinct <= n.promptSchemaCompletionAnswerDistinct
    && m.promptSchemaCompletionFieldValueDistinctRatio <= n.promptSchemaCompletionFieldValueDistinctRatio
    && n.promptSchemaCompletionFieldValueDominance <= m.promptSchemaCompletionFieldValueDominance
  }

  /** What the objectives did. */
  predicate BetterObjective(m: Metrics, n: Metrics) {
    && n.policySkipped <= m.policySkipped
    && m.recoveryRows <= n.recoveryRows
    && n.recoveryMissingPolicy <= m.recoveryMissingPolicy
    && m.recoveryPolicyPresent <= n.recoveryPolicyPresent
    && m.answerContractRows <= n.answerContractRows
    && m.answerContractTokens <= n.answerContractTokens
    && m.answerContractPromptSchemaRows <= n.answerContractPromptSchemaRows
    && m.answerContractPromptSchemaValueTokens <= n.answerContractPromptSchemaValueTokens
    && n.answerContractMissingPolicy <= m.answerContractMissingPolicy
    && m.answerContractPolicyPresent <= n.answerContractPolicyPresent
    && m.contrastPairs <= n.contrastPairs
  }

  /** What field binding did, and how it ranked. */
  predicate BetterBinding(m: Metrics, n: Metrics) {
    && m.fieldBindingPairs <= n.fieldBindingPairs
    && m.fieldBindingRankTokens <= n.fieldBindingRankTokens
    && m.fieldBindingPositiveFraction <= n.fieldBindingPositiveFraction
    && m.fieldBindingExactPairFraction <= n.fieldBindingExactPairFraction
    && m.fieldBindingSequenceRankPairs <= n.fieldBindingSequenceRankPairs
    && m.fieldBindingPositiveSequenceFraction <= n.fieldBindingPositiveSequenceFraction
  }

  /** What became of attractors and imitated rollouts. */
  predicate BetterReplay(m: Metrics, n: Metrics) {
    && m.generatedAttractorObserved <= n.generatedAttractorObserved
    && m.generatedAttractorRecorded <= n.generatedAttractorRecorded
    && m.generatedAttractorActive <= n.generatedAttractorActive
    && m.generatedAttractorDistinct <= n.generatedAttractorDistinct
    && n.generatedAttractorDominantFraction <= m.generatedAttractorDominantFraction
    && m.generatedAttractorSelected <= n.generatedAttractorSelected
    && m.generatedAttractorPolicyRows <= n.generatedAttractorPolicyRows
    && m.generatedAttractorContrastRows <= n.generatedAttractorContrastRows
    && m.generatedAttractorFieldPairs <= n.generatedAttractorFieldPairs
    && m.rolloutImitationGenerated <= n.rolloutImitationGenerated
    && m.rolloutImitationAccepted <= n.rolloutImitationAccepted
  }

  /** What only the score looks at. */
  predicate BetterScore(m: Metrics, n: Metrics) {
    && m.semanticDelta <= n.semanticDelta
    && m.partialDelta <= n.partialDelta
    && m.contractVerifierDelta <= n.contractVerifierDelta
    && m.contractFieldDelta <= n.contractFieldDelta
    && m.contractCompletionDelta <= n.contractCompletionDelta
    && m.bestEvalVerifierBaselineDelta <= n.bestEvalVerifierBaselineDelta
    && m.bestEvalCompletionBaselineDelta <= n.bestEvalCompletionBaselineDelta
    && m.bestEvalVerifierStepDelta <= n.bestEvalVerifierStepDelta
    && m.bestEvalCompletionStepDelta <= n.bestEvalCompletionStepDelta
    && m.entropyDelta <= n.entropyDelta
    && m.distinct2Delta <= n.distinct2Delta
  }

  /** `n` did the same as `m` and is nowhere worse. */
  ghost predicate AtLeastAsGood(m: Metrics, n: Metrics) {
    && SameSetup(m, n) && BetterRun(m, n) && BetterRegression(m, n) && BetterFloor(m, n) && BetterDrop(m, n)
    && BetterRaw(m, n) && BetterFamily(m, n) && BetterPrompt(m, n) && BetterObjective(m, n)
    && BetterBinding(m, n) && BetterReplay(m, n) && BetterScore(m, n)
  }

  predicate RawAnswersShown(m: Metrics, t: Thresholds) {
    m.rawCompletionExpectedDistinct >= t.min(RawCompletionAnswerDistinct) ==>
      m.rawCompletionAnswerDistinct >= t.min(RawCompletionAnswerDistinct)
  }

  /** The gates that more rows, tokens, pairs or records bring on. */
  predicate BroughtOnShown(n: Metrics, t: Thresholds) {
    && RawAnswersShown(n, t)
    && (n.promptSchemaCompletionRows > 0.0 ==> PromptShown(n, t))
    && (n.policyCompletionRows > 0.0 ==> n.policyClipFraction <= t.max(PolicyAdvantageClipFraction))
    && RanksShown(n, t)
    && (n.generatedAttractorCapacity > 0.0 && n.generatedAttractorRecorded > 0.0 ==> ReplayWorked(n))
  }

  lemma RunStaysShown(m: Metrics, n: Metrics, t: Thresholds)
    requires BetterRun(m, n) && m.verifierDelta <= n.verifierDelta && RunShown(m, t)
    ensures RunShown(n, t) <==>
              (n.policyCompletionRows > 0.0 ==> n.policyClipFraction <= t.max(PolicyAdvantageClipFraction))
  {
  }

  lemma RegressionStaysShown(m: Metrics, n: Metrics, t: Thresholds)
    requires BetterRegression(m, n) && RegressionShown(m, t)
    ensures RegressionShown(n, t)
  {
  }

  lemma FloorStaysShown(m: Metrics, n: Metrics, t: Thresholds)
    requires BetterFloor(m, n) && FloorShown(m, t)
    ensures FloorShown(n, t)
  {
  }

  lemma DropStaysShown(m: Metrics, n: Metrics, t: Thresholds)
    requires BetterDrop(m, n) && DropShown(m, t)
    ensures DropShown(n, t)
  {
  }

  lemma RawStaysShown(m: Metrics, n: Metrics, t: Thresholds)
    requires BetterRaw(m, n) && RawShown(m, t)
    ensures RawShown(n, t) <==> RawAnswersShown(n, t)
    ensures n.rawCompletionExpectedDistinct <= m.rawCompletionExpectedDistinct ==> RawShown(n, t)
  {
  }

  lemma FamilyStaysShown(m: Metrics, n: Metrics, t: Thresholds)
    requires BetterFamily(m, n) && FamilyShown(m, t)
    ensures FamilyShown(n, t)
  {
  }

  lemma PromptStaysShown(m: Metrics, n: Metrics, t: Thresholds)
    requires BetterPrompt(m, n) && PromptShown(m, t)
    requires n.promptSchemaCompletionExpectedDistinct <= m.promptSchemaCompletionExpectedDistinct
    ensures PromptShown(n, t)
  {
  }

  lemma ObjectivesStay(m: Metrics, n: Metrics)
    requires SameSetup(m, n) && BetterObjective(m, n) && BetterBinding(m, n) && BetterReplay(m, n)
    requires m.policyCompletionRows <= n.policyCompletionRows && ObjectivesRan(m)
    ensures ObjectivesRan(n) <==>
              (n.generatedAttractorCapacity > 0.0 && n.generatedAttractorRecorded > 0.0 ==> ReplayWorked(n))
  {
  }

  lemma BetterScoresAtLeast(m: Metrics, n: Metrics)
    requires AtLeastAsGood(m, n)
    ensures ScoresAtLeast(m, n)
  {
  }

  lemma BetterQualifies(m: Metrics, n: Metrics, t: Thresholds)
    requires AtLeastAsGood(m, n) && Qualifies(m, t)
    ensures Qualifies(n, t) <==> BroughtOnShown(n, t)
  {
    RunStaysShown(m, n, t);
    RegressionStaysShown(m, n, t);
    FloorStaysShown(m, n, t);
    DropStaysShown(m, n, t);
    RawStaysShown(m, n, t);
    FamilyStaysShown(m, n, t);
    ObjectivesStay(m, n);
  }

  /**
   * An arm nowhere worse than a promoted one never scores lower, and is promoted if and only if it
   * also passes the gates that more rows, tokens, pairs or records bring on; otherwise it is rejected.
   */
  lemma BetterIsPromotedIff(m: Metrics, n: Metrics, t: Thresholds, baselineArm: string)
    requires AtLeastAsGood(m, n) && n.arm != baselineArm && Decide(m, t, baselineArm).decision == Promote
    ensures Decide(n, t, baselineArm).score >= Decide(m, t, baselineArm).score
    ensures Decide(n, t, baselineArm).decision == (if BroughtOnShown(n, t) then Promote else Reject)
  {
    DecisionMeans(m, t, baselineArm);
    DecisionMeans(n, t, baselineArm);
    PromotedIff(m, t, baselineArm);
    PromotedIff(n, t, baselineArm);
    BetterQualifies(m, n, t);
    BetterScoresAtLeast(m, n);
    BetterScores(m, n, t);
  }

  /** Nothing is asked of `n` that was not asked of `m`. */
  predicate NoMoreAsked(m: Metrics, n: Metrics) {
    && n.rawCompletionExpectedDistinct <= m.rawCompletionExpectedDistinct
    && n.promptSchemaCompletionExpectedDistinct <= m.promptSchemaCompletionExpectedDistinct
    && (n.promptSchemaCompletionRows > 0.0 ==> m.promptSchemaCompletionRows > 0.0)
    && (n.policyCompletionRows > 0.0 ==> m.policyCompletionRows > 0.0)
    && (n.fieldBindingRankTokens > 0.0 ==> m.fieldBindingRankTokens > 0.0)
    && (n.fieldBindingSequenceRankPairs > 0.0 ==> m.fieldBindingSequenceRankPairs > 0.0)
    && (n.generatedAttractorRecorded > 0.0 ==> m.generatedAttractorRecorded > 0.0)
  }

  lemma NothingBroughtOn(m: Metrics, n: Metrics, t: Thresholds)
    requires AtLeastAsGood(m, n) && NoMoreAsked(m, n) && Qualifies(m, t)
    ensures BroughtOnShown(n, t)
  {
    RawStaysShown(m, n, t);
    if n.promptSchemaCompletionRows > 0.0 {
      PromptStaysShown(m, n, t);
    }
  }

  /** Dominance: with nothing more asked of it, an arm nowhere worse than a promoted one is promoted. */
  lemma BetterIsPromoted(m: Metrics, n: Metrics, t: Thresholds, baselineArm: string)
    requires AtLeastAsGood(m, n) && NoMoreAsked(m, n)
    requires n.arm != baselineArm && Decide(m, t, baselineArm).decision == Promote
    ensures Decide(n, t, baselineArm).decision == Promote
  {
    PromotedIff(m, t, baselineArm);
    NothingBroughtOn(m, n, t);
    BetterIsPromotedIff(m, n, t, baselineArm);
  }

  /**
   * The exception is real: any promoted arm that reports no policy rows and too high a clipped
   * fraction is rejected as soon as it reports one row more.
   */
  lemma OneRowMoreRejects(m: Metrics, t: Thresholds, baselineArm: string)
    requires Decide(m, t, baselineArm).decision == Promote
    requires m.policyCompletionRows <= 0.0 && m.policyClipFraction > t.max(PolicyAdvantageClipFraction)
    ensures var n := m.(policyCompletionRows := 1.0);
            AtLeastAsGood(m, n) && Decide(n, t, baselineArm).decision == Reject
  {
    var n := m.(policyCompletionRows := 1.0);
    PromotedIff(m, t, baselineArm);
    BetterIsPromotedIff(m, n, t, baselineArm);
  }
}
