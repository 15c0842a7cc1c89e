/** The promotion gates an experiment arm must pass (`add_gate_decisions`). */
module PromotionGates {
  import opened Wrappers

  /** The `max_*` thresholds: raising one loosens it. */
  datatype Ceiling =
    | PeakMemoryRatio | ValidCeDelta | LatentEvalCeDelta | LatentEvalCeViolation | LatentEvalDeltaRms
    | LatentExtraEvalCeDelta | LatentExtraEvalCeViolation | LatentExtraEvalDeltaRms | SourceDifficultyDelta
    | VerifierRegression | SchemaWrongDelta | MalformedDelta | CompletionRegression | AnswerFieldRegression
    | AnswerTerminationRegression | CompletionPeriod | CompletionRepetition | FreeRunContractVerifierGap
    | CapabilityScoreDrop | CapabilityLaggingBuckets | VerifierDropFromBest | CompletionDropFromBest
    | ExtraStepVerifierDrop | ExtraStepCompletionDrop | ExtraStepMalformedIncrease | RecoveryControlFraction
    | RawCompletionSchemaWrongRate | RawCompletionMalformedRate | RawCompletionMissingRate
    | RawCompletionFieldValueDominance | RawCompletionFamilySchemaWrongRate | RawCompletionFamilyMalformedRate
    | RawCompletionFamilySchemaKeyMismatch | RawCompletionFamilyAnswerDominance
    | PromptSchemaCompletionSchemaWrongRate | PromptSchemaCompletionMalformedRate
    | PromptSchemaCompletionMissingRate | PromptSchemaCompletionFieldValueDominance
    | PolicyAdvantageClipFraction

  /** The `min_*` thresholds: lowering one loosens it. */
  datatype Floor =
    | ThroughputRatio | RawVerifierGainForMemoryRegression | MatureIters | LatentEvalEntropy
    | LatentExtraEvalEntropy | MatureVerifierRate | MatureSemanticRate | MaturePartialRate | CompletionDistinct2
    | MatureAnswerFieldRate | RawCompletionRows | RawCompletionVerifierRate | RawCompletionSemanticRate
    | RawCompletionPartialRate | RawCompletionQuality | RawCompletionAnswerDistinct
    | RawCompletionFieldValueDistinctRatio | RawCompletionFamilyCount | RawCompletionFamilyRows
    | RawCompletionFamilyVerifierRate | RawCompletionFamilyPartialRate | RawCompletionFamilyFieldRate
    | RawCompletionFamilyQuality | PromptSchemaCompletionRows | PromptSchemaCompletionVerifierRate
    | PromptSchemaCompletionSemanticRate | PromptSchemaCompletionPartialRate | PromptSchemaCompletionQuality
    | PromptSchemaCompletionAnswerDistinct | PromptSchemaCompletionFieldValueDistinctRatio
    | FieldBindingPositiveTokenFraction | FieldBindingExactPairRankFraction | OutputEntropy | OutputDistinct2

  datatype Thresholds = Thresholds(max: Ceiling -> real, min: Floor -> real)

  /** An arm's measurements and their differences to the baseline arm, defaults filled in. */
  datatype Metrics = Metrics(
    arm: string, okTrials: int, trials: int, maxIters: real, fatalGateCount: real, peakMemoryRatio: real,
    validDelta: real, latentEvalCeDelta: Option<real>, latentEvalCeViolation: Option<real>,
    latentEvalEntropy: Option<real>, latentEvalDeltaRms: Option<real>, latentExtraEvalCeDelta: Option<real>,
    latentExtraEvalCeViolation: Option<real>, latentExtraEvalEntropy: Option<real>,
    latentExtraEvalDeltaRms: Option<real>, sourceDelta: real, verifierDelta: real, schemaDelta: real,
    malformedDelta: real, completionDelta: real, answerFieldDelta: real, answerTerminationDelta: real,
    verifier: real, semantic: real, partial: real, completionDistinct2: real, completionPeriod: real,
    completionRepetition: real, contractProbePresent: bool, contractVerifier: real, contractField: real,
    contractVerifierDelta: real, bestEvalSteps: Option<real>, bestEvalVerifier: real, capabilityScoreDrop: real,
    capabilityLaggingBuckets: real, capabilityLaggingContracts: real, verifierDropFromBest: real,
    completionDropFromBest: real, extraEvalStepCount: real, extraEvalMinVerifierDelta: real,
    extraEvalMinCompletionDelta: real, extraEvalMaxMalformedDelta: real, recoveryControlFraction: real,
    rawCompletionRows: real, rawCompletionVerifier: real, rawCompletionSemantic: real,
    rawCompletionPartial: real, rawCompletionSchemaWrong: real, rawCompletionMalformed: real,
    rawCompletionMissing: real, rawCompletionQuality: real, rawCompletionExpectedDistinct: real,
    rawCompletionAnswerDistinct: real, rawCompletionFieldValueDistinctRatio: real,
    rawCompletionFieldValueDominance: real, rawCompletionFamilyCount: real, rawCompletionMinFamilyRows: real,
    rawCompletionWorstFamilyVerifier: real, rawCompletionWorstFamilyPartial: real,
    rawCompletionWorstFamilyField: real, rawCompletionWorstFamilyQuality: real,
    rawCompletionMaxFamilySchemaWrong: real, rawCompletionMaxFamilyMalformed: real,
    rawCompletionMaxFamilySchemaKeyMismatch: real, rawCompletionMaxFamilyAnswerDominance: real,
    promptSchemaCompletionRows: real, promptSchemaCompletionVerifier: real,
    promptSchemaCompletionSemantic: real, promptSchemaCompletionPartial: real,
    promptSchemaCompletionSchemaWrong: real, promptSchemaCompletionMalformed: real,
    promptSchemaCompletionMissing: real, promptSchemaCompletionQuality: real,
    promptSchemaCompletionExpectedDistinct: real, promptSchemaCompletionAnswerDistinct: real,
    promptSchemaCompletionFieldValueDistinctRatio: real, promptSchemaCompletionFieldValueDominance: real,
    policyCompletionRows: real, policyClipFraction: real, fieldBindingWeight: real,
    fieldBindingRankTokens: real, fieldBindingPositiveFraction: real, fieldBindingExactPairFraction: real,
    fieldBindingPairWeight: real, fieldBindingSequenceRankPairs: real,
    fieldBindingPositiveSequenceFraction: real, entropy: real, distinct2: real, semanticDelta: real,
    partialDelta: real, contractFieldDelta: real, contractCompletionDelta: real,
    bestEvalVerifierBaselineDelta: real, bestEvalCompletionBaselineDelta: real, bestEvalVerifierStepDelta: real,
    bestEvalCompletionStepDelta: real, throughputRatio: real, entropyDelta: real, distinct2Delta: real,
    healthyFraction: real, policyConfigWeight: real, policyExpectedUpdates: real, policySkipped: real,
    recoveryConfigWeight: real, recoveryExpectedUpdates: real, recoveryEffectiveWeight: real,
    recoveryRows: real, recoveryMissingPolicy: real, recoveryPolicyPresent: real,
    answerContractConfigWeight: real, answerContractExpectedUpdates: real, answerContractRows: real,
    answerContractTokens: real, answerContractPromptSchemaValueWeight: real,
    answerContractPromptSchemaRows: real, answerContractPromptSchemaValueTokens: real,
    answerContractMissingPolicy: real, answerContractPolicyPresent: real, contrastWeight: real,
    contrastExpectedUpdates: real, contrastPairs: real, fieldBindingExpectedUpdates: real,
    fieldBindingPairs: real, fieldBindingExpectedRankMetrics: real, generatedAttractorCapacity: real,
    generatedAttractorObserved: real, generatedAttractorRecorded: real, generatedAttractorActive: real,
    generatedAttractorDistinct: real, generatedAttractorMinDistinct: real,
    generatedAttractorDominantFraction: real, generatedAttractorMaxDominantFraction: real,
    generatedAttractorSelected: real, generatedAttractorPolicyRows: real, generatedAttractorContrastRows: real,
    generatedAttractorFieldPairs: real, rolloutImitationWeight: real, rolloutImitationGenerated: real,
    rolloutImitationCandidate: real, rolloutImitationAccepted: real, rolloutImitationGate: real)

  /** Why an arm is not promoted. */
  datatype Reason =
    | InsufficientMatureIters | FailedTrials | UnhealthyTrials | FatalGates | Slow | MemoryRegressionWithoutRawGain
    | ValidCeRegression | LatentEvalCeExplosion | LatentEvalMonotonicViolation | LatentEvalEntropyCollapse
    | LatentEvalDeltaExplosion | LatentExtraEvalCeExplosion | LatentExtraEvalMonotonicViolation
    | LatentExtraEvalEntropyCollapse | LatentExtraEvalDeltaExplosion | SourceDifficultyOvershoot | VerifierRegression
    | SchemaRegression | MalformedRegression | CompletionRegression | AnswerFieldRegression
    | AnswerTerminationRegression | VerifierFloor | SemanticFloor | PartialFloor | CompletionDistinct2Collapse
    | CompletionPeriodCollapse | CompletionRepetitionCollapse | ContractProbeVerifierFloor | ContractProbeFieldFloor
    | FreeRunContractGap | ContractValueFailure | LatentStepSelectorNeeded | CapabilityScoreDrop
    | CapabilityLaggingBuckets | CapabilityLaggingContracts | VerifierDropFromBest | CompletionDropFromBest
    | ExtraStepVerifierCollapse | ExtraStepCompletionCollapse | ExtraStepMalformedCollapse | RecoveryThrash
    | RawCompletionProbeTooSmall | RawCompletionVerifierFloor | RawCompletionSemanticFloor | RawCompletionPartialFloor
    | RawCompletionSchemaWrongHigh | RawCompletionMalformedHigh | RawCompletionMissingHigh
    | RawCompletionQualityCollapse | RawCompletionAnswerCollapse | RawCompletionFieldValueCollapse
    | RawCompletionFieldValueDominance | RawCompletionFamilyProbeTooNarrow | RawCompletionFamilyProbeTooThin
    | RawCompletionFamilyVerifierFloor | RawCompletionFamilyPartialFloor | RawCompletionFamilyFieldFloor
    | RawCompletionFamilyQualityCollapse | RawCompletionFamilySchemaWrongHigh | RawCompletionFamilyMalformedHigh
    | RawCompletionSchemaKeyLeakage | RawCompletionFamilyAnswerAttractor | PromptSchemaCompletionProbeTooSmall
    | PromptSchemaCompletionVerifierFloor | PromptSchemaCompletionSemanticFloor | PromptSchemaCompletionPartialFloor
    | PromptSchemaCompletionSchemaWrongHigh | PromptSchemaCompletionMalformedHigh | PromptSchemaCompletionMissingHigh
    | PromptSchemaCompletionQualityCollapse | PromptSchemaCompletionAnswerCollapse
    | PromptSchemaCompletionFieldValueCollapse | PromptSchemaCompletionFieldValueDominance | PolicyObjectiveInactive
    | PolicyUpdateSkipped | RecoveryObjectiveUnscheduled | RecoveryObjectiveInactive | RecoveryPolicyBatchMissing
    | RecoveryPolicyBatchPartial | AnswerContractObjectiveInactive | AnswerContractObjectiveNoTokens
    | AnswerContractPromptSchemaObjectiveInactive | AnswerContractPromptSchemaNoTokens
    | AnswerContractPolicyBatchMissing | AnswerContractPolicyBatchPartial | ContrastObjectiveInactive
    | FieldBindingObjectiveInactive | FieldBindingRankMetricsMissing | FieldBindingPositiveRankWeak
    | FieldBindingPairRankWeak | FieldBindingSequenceRankMetricsMissing | FieldBindingSequenceRankWeak
    | GeneratedAttractorGenerationInactive | GeneratedAttractorReplayInactive | GeneratedAttractorAnswerDiversityLow
    | GeneratedAttractorDominanceHigh | GeneratedAttractorReplayUnselected | GeneratedAttractorReplayUnconsumed
    | RolloutImitationNoGenerations | RolloutImitationHealthGateBlocked | RolloutImitationInactive
    | PolicyAdvantageClipSaturation | EntropyCollapse | OutputDistinct2Collapse | PassesGatesNegativeScore

  function Flag(fails: bool, reason: Reason): seq<Reason> {
    if fails then [reason] else []
  }

  predicate MatureEnough(m: Metrics, t: Thresholds) {
    t.min(MatureIters) <= 0.0 || m.maxIters >= t.min(MatureIters)
  }

  /** Thin answers are held against an arm only where the expected answers reach the same threshold. */
  predicate RawDistinctPasses(m: Metrics, t: Thresholds) {
    !(m.rawCompletionExpectedDistinct >= t.min(RawCompletionAnswerDistinct)
      && m.rawCompletionAnswerDistinct < t.min(RawCompletionAnswerDistinct))
  }

  predicate PromptDistinctPasses(m: Metrics, t: Thresholds) {
    !(m.promptSchemaCompletionExpectedDistinct >= t.min(PromptSchemaCompletionAnswerDistinct)
      && m.promptSchemaCompletionAnswerDistinct < t.min(PromptSchemaCompletionAnswerDistinct))
  }

  /** Trials, health, speed and memory. */
  function RunReasons(m: Metrics, t: Thresholds, baselineArm: string): seq<Reason> {
    Flag(!MatureEnough(m, t), InsufficientMatureIters)
    + Flag(m.okTrials < m.trials, FailedTrials)
    + Flag(MatureEnough(m, t) && m.healthyFraction < 1.0, UnhealthyTrials)
    + Flag(m.fatalGateCount > 0.0, FatalGates)
    + Flag(m.throughputRatio < t.min(ThroughputRatio), Slow)
    + Flag(m.arm != baselineArm && m.peakMemoryRatio > t.max(PeakMemoryRatio)
           && m.verifierDelta < t.min(RawVerifierGainForMemoryRegression), MemoryRegressionWithoutRawGain)
  }

  /** Regressions against the baseline and the latent probes, for mature arms. */
  function RegressionReasons(m: Metrics, t: Thresholds): seq<Reason> {
    Flag(m.validDelta > t.max(ValidCeDelta), ValidCeRegression)
    + Flag(m.latentEvalCeDelta.Some? && m.latentEvalCeDelta.value > t.max(LatentEvalCeDelta),
           LatentEvalCeExplosion)
    + Flag(m.latentEvalCeViolation.Some? && m.latentEvalCeViolation.value > t.max(LatentEvalCeViolation),
           LatentEvalMonotonicViolation)
    + Flag(m.latentEvalEntropy.Some? && m.latentEvalEntropy.value < t.min(LatentEvalEntropy),
           LatentEvalEntropyCollapse)
    + Flag(m.latentEvalDeltaRms.Some? && m.latentEvalDeltaRms.value > t.max(LatentEvalDeltaRms),
           LatentEvalDeltaExplosion)
    + Flag(m.latentExtraEvalCeDelta.Some? && m.latentExtraEvalCeDelta.value > t.max(LatentExtraEvalCeDelta),
           LatentExtraEvalCeExplosion)
    + Flag(m.latentExtraEvalCeViolation.Some?
           && m.latentExtraEvalCeViolation.value > t.max(LatentExtraEvalCeViolation),
           LatentExtraEvalMonotonicViolation)
    + Flag(m.latentExtraEvalEntropy.Some? && m.latentExtraEvalEntropy.value < t.min(LatentExtraEvalEntropy),
           LatentExtraEvalEntropyCollapse)
    + Flag(m.latentExtraEvalDeltaRms.Some? && m.latentExtraEvalDeltaRms.value > t.max(LatentExtraEvalDeltaRms),
           LatentExtraEvalDeltaExplosion)
    + Flag(m.sourceDelta > t.max(SourceDifficultyDelta), SourceDifficultyOvershoot)
    + Flag(m.verifierDelta < -t.max(Ceiling.VerifierRegression), Reason.VerifierRegression)
    + Flag(m.schemaDelta > t.max(SchemaWrongDelta), SchemaRegression)
    + Flag(m.malformedDelta > t.max(MalformedDelta), MalformedRegression)
    + Flag(m.completionDelta < -t.max(Ceiling.CompletionRegression), Reason.CompletionRegression)
    + Flag(m.answerFieldDelta < -t.max(Ceiling.AnswerFieldRegression), Reason.AnswerFieldRegression)
    + Flag(m.answerTerminationDelta < -t.max(Ceiling.AnswerTerminationRegression), Reason.AnswerTerminationRegression)
  }

  /** Absolute floors and contract probes, for mature arms. */
  function FloorReasons(m: Metrics, t: Thresholds): seq<Reason> {
    Flag(m.verifier < t.min(MatureVerifierRate), VerifierFloor)
    + Flag(m.semantic < t.min(MatureSemanticRate), SemanticFloor)
    + Flag(m.partial < t.min(MaturePartialRate), PartialFloor)
    + Flag(m.completionDistinct2 < t.min(CompletionDistinct2), CompletionDistinct2Collapse)
    + Flag(m.completionPeriod > t.max(CompletionPeriod), CompletionPeriodCollapse)
    + Flag(m.completionRepetition > t.max(CompletionRepetition), CompletionRepetitionCollapse)
    + Flag(m.contractProbePresent && m.contractVerifier < t.min(MatureVerifierRate),
           ContractProbeVerifierFloor)
    + Flag(m.contractProbePresent && m.contractField < t.min(MatureAnswerFieldRate),
           ContractProbeFieldFloor)
    + Flag(m.contractProbePresent && m.contractVerifierDelta > t.max(FreeRunContractVerifierGap)
           && m.verifier < t.min(MatureVerifierRate),
           FreeRunContractGap)
    + Flag(m.contractProbePresent && m.contractVerifier < t.min(MatureVerifierRate)
           && m.verifier < t.min(MatureVerifierRate),
           ContractValueFailure)
    + Flag(m.bestEvalSteps.Some? && m.verifier < t.min(MatureVerifierRate)
           && m.bestEvalVerifier >= t.min(MatureVerifierRate),
           LatentStepSelectorNeeded)
  }

  /** Capability drops, extra steps and recovery, for mature arms. */
  function DropReasons(m: Metrics, t: Thresholds): seq<Reason> {
    Flag(m.capabilityScoreDrop > t.max(Ceiling.CapabilityScoreDrop), Reason.CapabilityScoreDrop)
    + Flag(m.capabilityLaggingBuckets > t.max(Ceiling.CapabilityLaggingBuckets), Reason.CapabilityLaggingBuckets)
    + Flag(m.capabilityLaggingContracts > t.max(Ceiling.CapabilityLaggingBuckets), CapabilityLaggingContracts)
    + Flag(m.verifierDropFromBest > t.max(Ceiling.VerifierDropFromBest), Reason.VerifierDropFromBest)
    + Flag(m.completionDropFromBest > t.max(Ceiling.CompletionDropFromBest), Reason.CompletionDropFromBest)
    + Flag(m.extraEvalStepCount > 0.0 && m.extraEvalMinVerifierDelta < -t.max(ExtraStepVerifierDrop),
           ExtraStepVerifierCollapse)
    + Flag(m.extraEvalStepCount > 0.0 && m.extraEvalMinCompletionDelta < -t.max(ExtraStepCompletionDrop),
           ExtraStepCompletionCollapse)
    + Flag(m.extraEvalStepCount > 0.0 && m.extraEvalMaxMalformedDelta > t.max(ExtraStepMalformedIncrease),
           ExtraStepMalformedCollapse)
    + Flag(m.recoveryControlFraction > t.max(RecoveryControlFraction), RecoveryThrash)
  }

  /** The raw completion probe, for mature arms. */
  function RawReasons(m: Metrics, t: Thresholds): seq<Reason> {
    Flag(m.rawCompletionRows < t.min(RawCompletionRows), RawCompletionProbeTooSmall)
    + Flag(m.rawCompletionVerifier < t.min(RawCompletionVerifierRate), RawCompletionVerifierFloor)
    + Flag(m.rawCompletionSemantic < t.min(RawCompletionSemanticRate), RawCompletionSemanticFloor)
    + Flag(m.rawCompletionPartial < t.min(RawCompletionPartialRate), RawCompletionPartialFloor)
    + Flag(m.rawCompletionSchemaWrong > t.max(RawCompletionSchemaWrongRate), RawCompletionSchemaWrongHigh)
    + Flag(m.rawCompletionMalformed > t.max(RawCompletionMalformedRate), RawCompletionMalformedHigh)
    + Flag(m.rawCompletionMissing > t.max(RawCompletionMissingRate), RawCompletionMissingHigh)
    + Flag(m.rawCompletionQuality < t.min(RawCompletionQuality), RawCompletionQualityCollapse)
    + Flag(!RawDistinctPasses(m, t), RawCompletionAnswerCollapse)
    + Flag(m.rawCompletionFieldValueDistinctRatio < t.min(RawCompletionFieldValueDistinctRatio),
           RawCompletionFieldValueCollapse)
    + Flag(m.rawCompletionFieldValueDominance > t.max(Ceiling.RawCompletionFieldValueDominance),
           Reason.RawCompletionFieldValueDominance)
  }

  /** The raw completion probe by family, for mature arms. */
  function FamilyReasons(m: Metrics, t: Thresholds): seq<Reason> {
    Flag(m.rawCompletionFamilyCount < t.min(RawCompletionFamilyCount), RawCompletionFamilyProbeTooNarrow)
    + Flag(m.rawCompletionMinFamilyRows < t.min(RawCompletionFamilyRows),
           RawCompletionFamilyProbeTooThin)
    + Flag(m.rawCompletionWorstFamilyVerifier < t.min(RawCompletionFamilyVerifierRate),
           RawCompletionFamilyVerifierFloor)
    + Flag(m.rawCompletionWorstFamilyPartial < t.min(RawCompletionFamilyPartialRate),
           RawCompletionFamilyPartialFloor)
    + Flag(m.rawCompletionWorstFamilyField < t.min(RawCompletionFamilyFieldRate),
           RawCompletionFamilyFieldFloor)
    + Flag(m.rawCompletionWorstFamilyQuality < t.min(RawCompletionFamilyQuality),
           RawCompletionFamilyQualityCollapse)
    + Flag(m.rawCompletionMaxFamilySchemaWrong > t.max(RawCompletionFamilySchemaWrongRate),
           RawCompletionFamilySchemaWrongHigh)
    + Flag(m.rawCompletionMaxFamilyMalformed > t.max(RawCompletionFamilyMalformedRate),
           RawCompletionFamilyMalformedHigh)
    + Flag(m.rawCompletionMaxFamilySchemaKeyMismatch > t.max(RawCompletionFamilySchemaKeyMismatch),
           RawCompletionSchemaKeyLeakage)
    + Flag(m.rawCompletionMaxFamilyAnswerDominance > t.max(RawCompletionFamilyAnswerDominance),
           RawCompletionFamilyAnswerAttractor)
  }

  /** The prompt-schema probe, for mature arms that ran it. */
  function PromptReasons(m: Metrics, t: Thresholds): seq<Reason> {
    Flag(m.promptSchemaCompletionRows < t.min(PromptSchemaCompletionRows),
           PromptSchemaCompletionProbeTooSmall)
    + Flag(m.promptSchemaCompletionVerifier < t.min(PromptSchemaCompletionVerifierRate),
           PromptSchemaCompletionVerifierFloor)
    + Flag(m.promptSchemaCompletionSemantic < t.min(PromptSchemaCompletionSemanticRate),
           PromptSchemaCompletionSemanticFloor)
    + Flag(m.promptSchemaCompletionPartial < t.min(PromptSchemaCompletionPartialRate),
           PromptSchemaCompletionPartialFloor)
    + Flag(m.promptSchemaCompletionSchemaWrong > t.max(PromptSchemaCompletionSchemaWrongRate),
           PromptSchemaCompletionSchemaWrongHigh)
    + Flag(m.promptSchemaCompletionMalformed > t.max(PromptSchemaCompletionMalformedRate),
           PromptSchemaCompletionMalformedHigh)
    + Flag(m.promptSchemaCompletionMissing > t.max(PromptSchemaCompletionMissingRate),
           PromptSchemaCompletionMissingHigh)
    + Flag(m.promptSchemaCompletionQuality < t.min(PromptSchemaCompletionQuality),
           PromptSchemaCompletionQualityCollapse)
    + Flag(!PromptDistinctPasses(m, t), PromptSchemaCompletionAnswerCollapse)
    + Flag(m.promptSchemaCompletionFieldValueDistinctRatio < t.min(PromptSchemaCompletionFieldValueDistinctRatio),
           PromptSchemaCompletionFieldValueCollapse)
    + Flag(m.promptSchemaCompletionFieldValueDominance > t.max(Ceiling.PromptSchemaCompletionFieldValueDominance),
           Reason.PromptSchemaCompletionFieldValueDominance)
  }

  /** Objectives that were configured but did nothing: no threshold enters. */
  function InactiveReasons(m: Metrics): seq<Reason> {
    Flag(m.policyConfigWeight > 0.0 && m.policyExpectedUpdates > 0.0 && m.policyCompletionRows <= 0.0,
           PolicyObjectiveInactive)
    + Flag(m.policySkipped > 0.0, PolicyUpdateSkipped)
    + Flag(m.recoveryConfigWeight > 0.0 && m.recoveryExpectedUpdates <= 0.0, RecoveryObjectiveUnscheduled)
    + Flag(m.recoveryEffectiveWeight > 0.0
           && (m.recoveryExpectedUpdates > 0.0 || m.recoveryConfigWeight <= 0.0) && m.recoveryRows <= 0.0,
           RecoveryObjectiveInactive)
    + Flag(m.recoveryEffectiveWeight > 0.0 && m.recoveryMissingPolicy > 0.0, RecoveryPolicyBatchMissing)
    + Flag(m.recoveryEffectiveWeight > 0.0 && m.recoveryPolicyPresent < 1.0, RecoveryPolicyBatchPartial)
  }

  function AnswerContractReasons(m: Metrics): seq<Reason> {
    Flag(m.answerContractConfigWeight > 0.0 && m.answerContractExpectedUpdates > 0.0
           && m.answerContractRows <= 0.0, AnswerContractObjectiveInactive)
    + Flag(m.answerContractConfigWeight > 0.0 && m.answerContractExpectedUpdates > 0.0
           && m.answerContractTokens <= 0.0, AnswerContractObjectiveNoTokens)
    + Flag(m.answerContractConfigWeight > 0.0 && m.answerContractPromptSchemaValueWeight > 0.0
           && m.answerContractExpectedUpdates > 0.0 && m.answerContractPromptSchemaRows <= 0.0,
           AnswerContractPromptSchemaObjectiveInactive)
    + Flag(m.answerContractConfigWeight > 0.0 && m.answerContractPromptSchemaValueWeight > 0.0
           && m.answerContractExpectedUpdates > 0.0 && m.answerContractPromptSchemaValueTokens <= 0.0,
           AnswerContractPromptSchemaNoTokens)
    + Flag(m.answerContractConfigWeight > 0.0 && m.answerContractMissingPolicy > 0.0,
           AnswerContractPolicyBatchMissing)
    + Flag(m.answerContractConfigWeight > 0.0 && m.answerContractPolicyPresent < 1.0,
           AnswerContractPolicyBatchPartial)
  }

  function BindingReasons(m: Metrics, t: Thresholds): seq<Reason> {
    Flag(m.contrastWeight > 0.0 && m.contrastExpectedUpdates > 0.0 && m.contrastPairs <= 0.0,
           ContrastObjectiveInactive)
    + Flag(m.fieldBindingWeight > 0.0 && m.fieldBindingExpectedUpdates > 0.0 && m.fieldBindingPairs <= 0.0,
           FieldBindingObjectiveInactive)
    + Flag(m.fieldBindingWeight > 0.0 && m.fieldBindingExpectedRankMetrics > 0.0
           && m.fieldBindingRankTokens <= 0.0, FieldBindingRankMetricsMissing)
    + Flag(m.fieldBindingWeight > 0.0 && m.fieldBindingRankTokens > 0.0
           && m.fieldBindingPositiveFraction < t.min(FieldBindingPositiveTokenFraction),
           FieldBindingPositiveRankWeak)
    + Flag(m.fieldBindingWeight > 0.0 && m.fieldBindingRankTokens > 0.0
           && m.fieldBindingExactPairFraction < t.min(FieldBindingExactPairRankFraction),
           FieldBindingPairRankWeak)
    + Flag(m.fieldBindingWeight > 0.0 && m.fieldBindingPairWeight > 0.0
           && m.fieldBindingExpectedRankMetrics > 0.0 && m.fieldBindingSequenceRankPairs <= 0.0,
           FieldBindingSequenceRankMetricsMissing)
    + Flag(m.fieldBindingWeight > 0.0 && m.fieldBindingPairWeight > 0.0 && m.fieldBindingSequenceRankPairs > 0.0
           && m.fieldBindingPositiveSequenceFraction < t.min(FieldBindingExactPairRankFraction),
           FieldBindingSequenceRankWeak)
  }

  /** At most one complaint about replaying attractors, the first in the pipeline. */
  function AttractorReasons(m: Metrics): seq<Reason> {
    if m.generatedAttractorCapacity <= 0.0 then []
    else if m.generatedAttractorObserved <= 0.0 then [GeneratedAttractorGenerationInactive]
    else if m.generatedAttractorRecorded <= 0.0 then []
    else if m.generatedAttractorActive <= 0.0 then [GeneratedAttractorReplayInactive]
    else if m.generatedAttractorDistinct < m.generatedAttractorMinDistinct then
      [GeneratedAttractorAnswerDiversityLow]
    else if m.generatedAttractorDominantFraction > m.generatedAttractorMaxDominantFraction + 0.000000001 then
      [GeneratedAttractorDominanceHigh]
    else if m.generatedAttractorSelected <= 0.0 then [GeneratedAttractorReplayUnselected]
    else if m.generatedAttractorPolicyRows + m.generatedAttractorContrastRows
            + m.generatedAttractorFieldPairs <= 0.0 then
      [GeneratedAttractorReplayUnconsumed]
    else []
  }

  function ImitationReasons(m: Metrics): seq<Reason> {
    Flag(m.rolloutImitationWeight > 0.0 && m.rolloutImitationGenerated <= 0.0,
           RolloutImitationNoGenerations)
    + Flag(m.rolloutImitationWeight > 0.0 && m.rolloutImitationCandidate > 0.0
           && m.rolloutImitationAccepted <= 0.0 && m.rolloutImitationGate <= 0.0,
           RolloutImitationHealthGateBlocked)
    + Flag(m.rolloutImitationWeight > 0.0 && m.rolloutImitationAccepted <= 0.0, RolloutImitationInactive)
  }

  function ClipReasons(m: Metrics, t: Thresholds): seq<Reason> {
    Flag(m.policyCompletionRows > 0.0 && m.policyClipFraction > t.max(PolicyAdvantageClipFraction),
           PolicyAdvantageClipSaturation)
  }

  function OutputReasons(m: Metrics, t: Thresholds): seq<Reason> {
    Flag(MatureEnough(m, t) && m.entropy < t.min(OutputEntropy), EntropyCollapse)
    + Flag(MatureEnough(m, t) && m.distinct2 < t.min(OutputDistinct2), OutputDistinct2Collapse)
  }

  /** Gates on the objectives and the output, which all arms pass through. */
  function ObjectiveReasons(m: Metrics, t: Thresholds): seq<Reason> {
    ClipReasons(m, t) + InactiveReasons(m) + AnswerContractReasons(m) + BindingReasons(m, t)
    + (if MatureEnough(m, t) then AttractorReasons(m) else []) + ImitationReasons(m) + OutputReasons(m, t)
  }

  function MatureReasons(m: Metrics, t: Thresholds): seq<Reason> {
    if !MatureEnough(m, t) then []
    else
      RegressionReasons(m, t) + FloorReasons(m, t) + DropReasons(m, t) + RawReasons(m, t) + FamilyReasons(m, t)
      + (if m.promptSchemaCompletionRows > 0.0 then PromptReasons(m, t) else [])
  }

  function Reasons(m: Metrics, t: Thresholds, baselineArm: string): seq<Reason> {
    RunReasons(m, t, baselineArm) + MatureReasons(m, t) + ObjectiveReasons(m, t)
  }

  /** `u` is nowhere stricter than `t`. */
  ghost predicate Loosened(t: Thresholds, u: Thresholds) {
    (forall k :: t.max(k) <= u.max(k)) && (forall k :: u.min(k) <= t.min(k))
  }

  lemma RegressionLoosens(m: Metrics, t: Thresholds, u: Thresholds)
    requires Loosened(t, u) && RegressionReasons(m, t) == []
    ensures RegressionReasons(m, u) == []
  {
  }

  lemma FloorLoosens(m: Metrics, t: Thresholds, u: Thresholds)
    requires Loosened(t, u) && FloorReasons(m, t) == []
    ensures FloorReasons(m, u) == []
  {
  }

  lemma DropLoosens(m: Metrics, t: Thresholds, u: Thresholds)
    requires Loosened(t, u) && DropReasons(m, t) == []
    ensures DropReasons(m, u) == []
  {
  }

  lemma FamilyLoosens(m: Metrics, t: Thresholds, u: Thresholds)
    requires Loosened(t, u) && FamilyReasons(m, t) == []
    ensures FamilyReasons(m, u) == []
  {
  }

  /** The one gate of its group that loosening can close: its threshold stands on both sides. */
  lemma RawLoosens(m: Metrics, t: Thresholds, u: Thresholds)
    requires Loosened(t, u) && RawReasons(m, t) == []
    ensures RawDistinctPasses(m, t)
    ensures RawReasons(m, u) == [] <==> RawDistinctPasses(m, u)
  {
  }

  /** The one gate of its group that loosening can close: its threshold stands on both sides. */
  lemma PromptLoosens(m: Metrics, t: Thresholds, u: Thresholds)
    requires Loosened(t, u) && PromptReasons(m, t) == []
    ensures PromptDistinctPasses(m, t)
    ensures PromptReasons(m, u) == [] <==> PromptDistinctPasses(m, u)
  {
  }

  lemma RunLoosens(m: Metrics, t: Thresholds, u: Thresholds, baselineArm: string)
    requires Loosened(t, u) && RunReasons(m, t, baselineArm) == []
    ensures MatureEnough(m, t) && MatureEnough(m, u) && RunReasons(m, u, baselineArm) == []
  {
  }

  lemma BindingLoosens(m: Metrics, t: Thresholds, u: Thresholds)
    requires Loosened(t, u) && BindingReasons(m, t) == []
    ensures BindingReasons(m, u) == []
  {
  }

  lemma OutputLoosens(m: Metrics, t: Thresholds, u: Thresholds)
    requires Loosened(t, u) && MatureEnough(m, t)
    requires ClipReasons(m, t) == [] && OutputReasons(m, t) == []
    ensures ClipReasons(m, u) == [] && OutputReasons(m, u) == []
  {
  }

  /** A mature arm that passes the objective gates passes them under looser thresholds. */
  lemma ObjectiveLoosens(m: Metrics, t: Thresholds, u: Thresholds)
    requires Loosened(t, u) && MatureEnough(m, t) && ObjectiveReasons(m, t) == []
    ensures ObjectiveReasons(m, u) == []
  {
    ObjectiveParts(m, t);
    ObjectiveParts(m, u);
    BindingLoosens(m, t, u);
    OutputLoosens(m, t, u);
  }

  lemma ObjectiveParts(m: Metrics, t: Thresholds)
    ensures ObjectiveReasons(m, t) == [] <==>
              && ClipReasons(m, t) == [] && InactiveReasons(m) == [] && AnswerContractReasons(m) == []
              && BindingReasons(m, t) == [] && (MatureEnough(m, t) ==> AttractorReasons(m) == [])
              && ImitationReasons(m) == [] && OutputReasons(m, t) == []
  {
  }

  lemma MatureParts(m: Metrics, t: Thresholds)
    requires MatureEnough(m, t)
    ensures MatureReasons(m, t) == [] <==>
              && RegressionReasons(m, t) == [] && FloorReasons(m, t) == [] && DropReasons(m, t) == []
              && RawReasons(m, t) == [] && FamilyReasons(m, t) == []
              && (m.promptSchemaCompletionRows > 0.0 ==> PromptReasons(m, t) == [])
  {
  }

  lemma ReasonParts(m: Metrics, t: Thresholds, baselineArm: string)
    ensures Reasons(m, t, baselineArm) == [] <==>
              RunReasons(m, t, baselineArm) == [] && MatureReasons(m, t) == [] && ObjectiveReasons(m, t) == []
  {
  }

  /** The two answer-distinct gates, where they are asked. */
  predicate DistinctPasses(m: Metrics, t: Thresholds) {
    RawDistinctPasses(m, t) && (m.promptSchemaCompletionRows > 0.0 ==> PromptDistinctPasses(m, t))
  }

  lemma MatureLoosens(m: Metrics, t: Thresholds, u: Thresholds)
    requires Loosened(t, u) && MatureEnough(m, t) && MatureEnough(m, u) && MatureReasons(m, t) == []
    ensures DistinctPasses(m, t)
    ensures MatureReasons(m, u) == [] <==> DistinctPasses(m, u)
  {
    MatureParts(m, t);
    MatureParts(m, u);
    RegressionLoosens(m, t, u);
    FloorLoosens(m, t, u);
    DropLoosens(m, t, u);
    RawLoosens(m, t, u);
    FamilyLoosens(m, t, u);
    if m.promptSchemaCompletionRows > 0.0 {
      PromptLoosens(m, t, u);
    }
  }

  /** An arm that passes every gate still passes them all under looser thresholds, but for those two gates. */
  lemma ReasonsLoosen(m: Metrics, t: Thresholds, u: Thresholds, baselineArm: string)
    requires Loosened(t, u) && Reasons(m, t, baselineArm) == []
    ensures MatureEnough(m, u) && DistinctPasses(m, t)
    ensures Reasons(m, u, baselineArm) == [] <==> DistinctPasses(m, u)
  {
    ReasonParts(m, t, baselineArm);
    ReasonParts(m, u, baselineArm);
    RunLoosens(m, t, u, baselineArm);
    MatureLoosens(m, t, u);
    ObjectiveLoosens(m, t, u);
  }
}
