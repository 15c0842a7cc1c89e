/** What a promoted arm shows, measurement by measurement, and nothing that decides nothing. */
module PromotionTable {
  import opened Wrappers
  import opened PromotionGates
  import opened PromotionDecisions

  predicate NoneAbove(x: Option<real>, limit: real) {
    x.Some? ==> x.value <= limit
  }

  predicate NoneBelow(x: Option<real>, limit: real) {
    x.Some? ==> x.value >= limit
  }

  /** No regression against the baseline, and none in the latent probes that were run. */
  predicate RegressionShown(m: Metrics, t: Thresholds) {
    && m.validDelta <= t.max(ValidCeDelta)
    && NoneAbove(m.latentEvalCeDelta, t.max(LatentEvalCeDelta))
    && NoneAbove(m.latentEvalCeViolation, t.max(LatentEvalCeViolation))
    && NoneAbove(m.latentEvalDeltaRms, t.max(LatentEvalDeltaRms))
    && NoneAbove(m.latentExtraEvalCeDelta, t.max(LatentExtraEvalCeDelta))
    && NoneAbove(m.latentExtraEvalCeViolation, t.max(LatentExtraEvalCeViolation))
    && NoneAbove(m.latentExtraEvalDeltaRms, t.max(LatentExtraEvalDeltaRms))
    && m.sourceDelta <= t.max(SourceDifficultyDelta)
    && m.verifierDelta >= -t.max(Ceiling.VerifierRegression)
    && m.schemaDelta <= t.max(SchemaWrongDelta)
    && m.malformedDelta <= t.max(MalformedDelta)
    && m.completionDelta >= -t.max(Ceiling.CompletionRegression)
    && m.answerFieldDelta >= -t.max(Ceiling.AnswerFieldRegression)
    && m.answerTerminationDelta >= -t.max(Ceiling.AnswerTerminationRegression)
    && NoneBelow(m.latentEvalEntropy, t.min(LatentEvalEntropy))
    && NoneBelow(m.latentExtraEvalEntropy, t.min(LatentExtraEvalEntropy))
  }

  /** The floors of a mature run, on its own and, if there was one, in the contract probe. */
  predicate FloorShown(m: Metrics, t: Thresholds) {
    && m.completionPeriod <= t.max(CompletionPeriod)
    && m.completionRepetition <= t.max(CompletionRepetition)
    && m.verifier >= t.min(MatureVerifierRate)
    && (m.contractProbePresent ==> m.contractVerifier >= t.min(MatureVerifierRate))
    && m.semantic >= t.min(MatureSemanticRate)
    && m.partial >= t.min(MaturePartialRate)
    && m.completionDistinct2 >= t.min(CompletionDistinct2)
    && (m.contractProbePresent ==> m.contractField >= t.min(MatureAnswerFieldRate))
  }

  /** No drop from the best, over extra steps only if there were any. */
  predicate DropShown(m: Metrics, t: Thresholds) {
    && m.capabilityScoreDrop <= t.max(Ceiling.CapabilityScoreDrop)
    && m.capabilityLaggingBuckets <= t.max(Ceiling.CapabilityLaggingBuckets)
    && m.capabilityLaggingContracts <= t.max(Ceiling.CapabilityLaggingBuckets)
    && m.verifierDropFromBest <= t.max(Ceiling.VerifierDropFromBest)
    && m.completionDropFromBest <= t.max(Ceiling.CompletionDropFromBest)
    && (m.extraEvalStepCount > 0.0 ==> m.extraEvalMinVerifierDelta >= -t.max(ExtraStepVerifierDrop))
    && (m.extraEvalStepCount > 0.0 ==> m.extraEvalMinCompletionDelta >= -t.max(ExtraStepCompletionDrop))
    && (m.extraEvalStepCount > 0.0 ==> m.extraEvalMaxMalformedDelta <= t.max(ExtraStepMalformedIncrease))
    && m.recoveryControlFraction <= t.max(RecoveryControlFraction)
  }

  /** The raw completion probe. */
  predicate RawShown(m: Metrics, t: Thresholds) {
    && m.rawCompletionSchemaWrong <= t.max(RawCompletionSchemaWrongRate)
    && m.rawCompletionMalformed <= t.max(RawCompletionMalformedRate)
    && m.rawCompletionMissing <= t.max(RawCompletionMissingRate)
    && m.rawCompletionFieldValueDominance <= t.max(Ceiling.RawCompletionFieldValueDominance)
    && m.rawCompletionRows >= t.min(RawCompletionRows)
    && m.rawCompletionVerifier >= t.min(RawCompletionVerifierRate)
    && m.rawCompletionSemantic >= t.min(RawCompletionSemanticRate)
    && m.rawCompletionPartial >= t.min(RawCompletionPartialRate)
    && m.rawCompletionQuality >= t.min(RawCompletionQuality)
    && (m.rawCompletionExpectedDistinct >= t.min(RawCompletionAnswerDistinct) ==>
          m.rawCompletionAnswerDistinct >= t.min(RawCompletionAnswerDistinct))
    && m.rawCompletionFieldValueDistinctRatio >= t.min(RawCompletionFieldValueDistinctRatio)
  }

  /** The raw completion probe, in its worst family. */
  predicate FamilyShown(m: Metrics, t: Thresholds) {
    && m.rawCompletionMaxFamilySchemaWrong <= t.max(RawCompletionFamilySchemaWrongRate)
    && m.rawCompletionMaxFamilyMalformed <= t.max(RawCompletionFamilyMalformedRate)
    && m.rawCompletionMaxFamilySchemaKeyMismatch <= t.max(RawCompletionFamilySchemaKeyMismatch)
    && m.rawCompletionMaxFamilyAnswerDominance <= t.max(RawCompletionFamilyAnswerDominance)
    && m.rawCompletionFamilyCount >= t.min(RawCompletionFamilyCount)
    && m.rawCompletionMinFamilyRows >= t.min(RawCompletionFamilyRows)
    && m.rawCompletionWorstFamilyVerifier >= t.min(RawCompletionFamilyVerifierRate)
    && m.rawCompletionWorstFamilyPartial >= t.min(RawCompletionFamilyPartialRate)
    && m.rawCompletionWorstFamilyField >= t.min(RawCompletionFamilyFieldRate)
    && m.rawCompletionWorstFamilyQuality >= t.min(RawCompletionFamilyQuality)
  }

  /** The prompt-schema probe. */
  predicate PromptShown(m: Metrics, t: Thresholds) {
    && m.promptSchemaCompletionSchemaWrong <= t.max(PromptSchemaCompletionSchemaWrongRate)
    && m.promptSchemaCompletionMalformed <= t.max(PromptSchemaCompletionMalformedRate)
    && m.promptSchemaCompletionMissing <= t.max(PromptSchemaCompletionMissingRate)
    && m.promptSchemaCompletionFieldValueDominance <= t.max(Ceiling.PromptSchemaCompletionFieldValueDominance)
    && m.promptSchemaCompletionRows >= t.min(PromptSchemaCompletionRows)
    && m.promptSchemaCompletionVerifier >= t.min(PromptSchemaCompletionVerifierRate)
    && m.promptSchemaCompletionSemantic >= t.min(PromptSchemaCompletionSemanticRate)
    && m.promptSchemaCompletionPartial >= t.min(PromptSchemaCompletionPartialRate)
    && m.promptSchemaCompletionQuality >= t.min(PromptSchemaCompletionQuality)
    && (m.promptSchemaCompletionExpectedDistinct >= t.min(PromptSchemaCompletionAnswerDistinct) ==>
          m.promptSchemaCompletionAnswerDistinct >= t.min(PromptSchemaCompletionAnswerDistinct))
    && m.promptSchemaCompletionFieldValueDistinctRatio >= t.min(PromptSchemaCompletionFieldValueDistinctRatio)
  }

  predicate MemoryEarned(m: Metrics, t: Thresholds) {
    m.peakMemoryRatio <= t.max(PeakMemoryRatio) || m.verifierDelta >= t.min(RawVerifierGainForMemoryRegression)
  }

  /** The run itself: long enough, all trials healthy, fast, and no larger than it earned. */
  predicate RunShown(m: Metrics, t: Thresholds) {
    && (t.min(MatureIters) <= 0.0 || m.maxIters >= t.min(MatureIters))
    && m.okTrials >= m.trials
    && m.healthyFraction >= 1.0
    && m.fatalGateCount <= 0.0
    && m.throughputRatio >= t.min(ThroughputRatio)
    && MemoryEarned(m, t)
    && m.entropy >= t.min(OutputEntropy)
    && m.distinct2 >= t.min(OutputDistinct2)
    && (m.policyCompletionRows > 0.0 ==> m.policyClipFraction <= t.max(PolicyAdvantageClipFraction))
  }

  /** The recovery and the policy objective, if configured, did their work. */
  predicate PolicyRan(m: Metrics) {
    && (m.policyConfigWeight > 0.0 && m.policyExpectedUpdates > 0.0 ==> m.policyCompletionRows > 0.0)
    && m.policySkipped <= 0.0
    && (m.recoveryConfigWeight > 0.0 ==> m.recoveryExpectedUpdates > 0.0)
    && (m.recoveryEffectiveWeight > 0.0 ==>
          m.recoveryRows > 0.0 && m.recoveryMissingPolicy <= 0.0 && m.recoveryPolicyPresent >= 1.0)
  }

  predicate AnswerContractRan(m: Metrics) {
    m.answerContractConfigWeight > 0.0 ==>
      && m.answerContractMissingPolicy <= 0.0 && m.answerContractPolicyPresent >= 1.0
      && (m.answerContractExpectedUpdates > 0.0 ==> m.answerContractRows > 0.0 && m.answerContractTokens > 0.0)
      && (m.answerContractExpectedUpdates > 0.0 && m.answerContractPromptSchemaValueWeight > 0.0 ==>
            m.answerContractPromptSchemaRows > 0.0 && m.answerContractPromptSchemaValueTokens > 0.0)
  }

  /** Contrast and field binding did their work. */
  predicate BindingRan(m: Metrics) {
    && (m.contrastWeight > 0.0 && m.contrastExpectedUpdates > 0.0 ==> m.contrastPairs > 0.0)
    && (m.fieldBindingWeight > 0.0 ==>
          && (m.fieldBindingExpectedUpdates > 0.0 ==> m.fieldBindingPairs > 0.0)
          && (m.fieldBindingExpectedRankMetrics > 0.0 ==> m.fieldBindingRankTokens > 0.0)
          && (m.fieldBindingExpectedRankMetrics > 0.0 && m.fieldBindingPairWeight > 0.0 ==>
                m.fieldBindingSequenceRankPairs > 0.0))
  }

  /** Where binding was ranked, the ranks are good enough. */
  predicate RanksShown(m: Metrics, t: Thresholds) {
    m.fieldBindingWeight > 0.0 ==>
      && (m.fieldBindingRankTokens > 0.0 ==>
            && m.fieldBindingPositiveFraction >= t.min(FieldBindingPositiveTokenFraction)
            && m.fieldBindingExactPairFraction >= t.min(FieldBindingExactPairRankFraction))
      && (m.fieldBindingPairWeight > 0.0 && m.fieldBindingSequenceRankPairs > 0.0 ==>
            m.fieldBindingPositiveSequenceFraction >= t.min(FieldBindingExactPairRankFraction))
  }

  predicate ReplayWorked(m: Metrics) {
    && m.generatedAttractorActive > 0.0
    && m.generatedAttractorDistinct >= m.generatedAttractorMinDistinct
    && m.generatedAttractorDominantFraction <= m.generatedAttractorMaxDominantFraction + 0.000000001
    && m.generatedAttractorSelected > 0.0
    && m.generatedAttractorPolicyRows + m.generatedAttractorContrastRows + m.generatedAttractorFieldPairs > 0.0
  }

  /** With room for attractors some were observed, and those recorded were replayed to some purpose. */
  predicate AttractorsReplayed(m: Metrics) {
    m.generatedAttractorCapacity > 0.0 ==>
      m.generatedAttractorObserved > 0.0 && (m.generatedAttractorRecorded > 0.0 ==> ReplayWorked(m))
  }

  predicate ImitationRan(m: Metrics) {
    m.rolloutImitationWeight > 0.0 ==> m.rolloutImitationGenerated > 0.0 && m.rolloutImitationAccepted > 0.0
  }

  predicate ObjectivesRan(m: Metrics) {
    PolicyRan(m) && AnswerContractRan(m) && BindingRan(m) && AttractorsReplayed(m) && ImitationRan(m)
  }

  /** Everything the gates ask of a mature arm other than the baseline. */
  predicate Qualifies(m: Metrics, t: Thresholds) {
    && RunShown(m, t) && RegressionShown(m, t) && FloorShown(m, t) && DropShown(m, t)
    && RawShown(m, t) && FamilyShown(m, t) && (m.promptSchemaCompletionRows > 0.0 ==> PromptShown(m, t))
    && RanksShown(m, t) && ObjectivesRan(m)
  }

  lemma RegressionIff(m: Metrics, t: Thresholds)
    ensures RegressionReasons(m, t) == [] <==> RegressionShown(m, t)
  {
  }

  lemma FloorIff(m: Metrics, t: Thresholds)
    ensures FloorReasons(m, t) == [] <==> FloorShown(m, t)
  {
  }

  lemma DropIff(m: Metrics, t: Thresholds)
    ensures DropReasons(m, t) == [] <==> DropShown(m, t)
  {
  }

  lemma RawIff(m: Metrics, t: Thresholds)
    ensures RawReasons(m, t) == [] <==> RawShown(m, t)
  {
  }

  lemma FamilyIff(m: Metrics, t: Thresholds)
    ensures FamilyReasons(m, t) == [] <==> FamilyShown(m, t)
  {
  }

  lemma PromptIff(m: Metrics, t: Thresholds)
    ensures PromptReasons(m, t) == [] <==> PromptShown(m, t)
  {
  }

  lemma RunIff(m: Metrics, t: Thresholds, baselineArm: string)
    requires m.arm != baselineArm && MatureEnough(m, t)
    ensures RunReasons(m, t, baselineArm) == [] && ClipReasons(m, t) == [] && OutputReasons(m, t) == []
            <==> RunShown(m, t)
  {
  }

  lemma BindingIff(m: Metrics, t: Thresholds)
    ensures BindingReasons(m, t) == [] <==> BindingRan(m) && RanksShown(m, t)
  {
  }

  lemma ObjectivesIff(m: Metrics)
    ensures InactiveReasons(m) == [] <==> PolicyRan(m)
    ensures AnswerContractReasons(m) == [] <==> AnswerContractRan(m)
    ensures AttractorReasons(m) == [] <==> AttractorsReplayed(m)
    ensures ImitationReasons(m) == [] <==> ImitationRan(m)
  {
  }

  lemma MatureIff(m: Metrics, t: Thresholds)
    requires MatureEnough(m, t)
    ensures MatureReasons(m, t) == [] <==>
              && RegressionShown(m, t) && FloorShown(m, t) && DropShown(m, t)
              && RawShown(m, t) && FamilyShown(m, t) && (m.promptSchemaCompletionRows > 0.0 ==> PromptShown(m, t))
  {
    MatureParts(m, t);
    RegressionIff(m, t);
    FloorIff(m, t);
    DropIff(m, t);
    RawIff(m, t);
    FamilyIff(m, t);
    PromptIff(m, t);
  }

  lemma GatesIff(m: Metrics, t: Thresholds, baselineArm: string)
    requires m.arm != baselineArm
    ensures MatureEnough(m, t) && Reasons(m, t, baselineArm) == [] <==> Qualifies(m, t)
  {
    ReasonParts(m, t, baselineArm);
    if MatureEnough(m, t) {
      MatureIff(m, t);
      ObjectiveParts(m, t);
      RunIff(m, t, baselineArm);
      BindingIff(m, t);
      ObjectivesIff(m);
    }
  }

  /** An arm is promoted if and only if it is not the baseline, shows all this and does not score below zero. */
  lemma PromotedIff(m: Metrics, t: Thresholds, baselineArm: string)
    ensures Decide(m, t, baselineArm).decision == Promote <==>
              m.arm != baselineArm && Qualifies(m, t) && Score(m, t) >= 0.0
  {
    DecisionMeans(m, t, baselineArm);
    if m.arm != baselineArm {
      GatesIff(m, t, baselineArm);
    }
  }
}
