/** The promotion score as a table: how it follows each measurement, all others held. */
module PromotionScore {
  import opened Wrappers
  import opened PromotionGates
  import opened PromotionDecisions

  /** The measurements the score looks at: followed evenly, bent at zero, or held against a threshold. */
  datatype Term =
    | VerifierDelta | SemanticDelta | PartialDelta | SchemaDelta | CompletionDelta | AnswerFieldDelta
    | AnswerTerminationDelta | ValidDelta | Throughput | EntropyDelta | Distinct2Delta | Healthy | ScoreDrop
    | VerifierDrop | CompletionDrop | RecoveryControl
    | ContractVerifierDelta | ContractFieldDelta | ContractCompletionDelta | BestVerifierBaseline
    | BestCompletionBaseline | BestVerifierStep | BestCompletionStep | SourceDelta
    | LaggingBuckets | LaggingContracts | WorstFamilyVerifier | FamilySchemaKeyMismatch | PromptVerifier
    | PromptValueDistinctRatio | PromptValueDominance

  function At(m: Metrics, term: Term): real {
    match term
    case VerifierDelta => m.verifierDelta
    case SemanticDelta => m.semanticDelta
    case PartialDelta => m.partialDelta
    case SchemaDelta => m.schemaDelta
    case CompletionDelta => m.completionDelta
    case AnswerFieldDelta => m.answerFieldDelta
    case AnswerTerminationDelta => m.answerTerminationDelta
    case ValidDelta => m.validDelta
    case Throughput => m.throughputRatio
    case EntropyDelta => m.entropyDelta
    case Distinct2Delta => m.distinct2Delta
    case Healthy => m.healthyFraction
    case ScoreDrop => m.capabilityScoreDrop
    case VerifierDrop => m.verifierDropFromBest
    case CompletionDrop => m.completionDropFromBest
    case RecoveryControl => m.recoveryControlFraction
    case ContractVerifierDelta => m.contractVerifierDelta
    case ContractFieldDelta => m.contractFieldDelta
    case ContractCompletionDelta => m.contractCompletionDelta
    case BestVerifierBaseline => m.bestEvalVerifierBaselineDelta
    case BestCompletionBaseline => m.bestEvalCompletionBaselineDelta
    case BestVerifierStep => m.bestEvalVerifierStepDelta
    case BestCompletionStep => m.bestEvalCompletionStepDelta
    case SourceDelta => m.sourceDelta
    case LaggingBuckets => m.capabilityLaggingBuckets
    case LaggingContracts => m.capabilityLaggingContracts
    case WorstFamilyVerifier => m.rawCompletionWorstFamilyVerifier
    case FamilySchemaKeyMismatch => m.rawCompletionMaxFamilySchemaKeyMismatch
    case PromptVerifier => m.promptSchemaCompletionVerifier
    case PromptValueDistinctRatio => m.promptSchemaCompletionFieldValueDistinctRatio
    case PromptValueDominance => m.promptSchemaCompletionFieldValueDominance
  }

  /** Where a measurement neither adds to the score nor takes from it, and where its rate may change. */
  function Bend(t: Thresholds, term: Term): real {
    match term
    case Throughput => 1.0
    case Healthy => 1.0
    case LaggingBuckets => t.max(Ceiling.CapabilityLaggingBuckets)
    case LaggingContracts => t.max(Ceiling.CapabilityLaggingBuckets)
    case WorstFamilyVerifier => t.min(RawCompletionFamilyVerifierRate)
    case FamilySchemaKeyMismatch => t.max(RawCompletionFamilySchemaKeyMismatch)
    case PromptVerifier => t.min(PromptSchemaCompletionVerifierRate)
    case PromptValueDistinctRatio => t.min(PromptSchemaCompletionFieldValueDistinctRatio)
    case PromptValueDominance => t.max(Ceiling.PromptSchemaCompletionFieldValueDominance)
    case _ => 0.0
  }

  /** What one more unit of a measurement is worth, above and below its bend. */
  function Rate(term: Term, above: bool): real {
    match term
    case VerifierDelta => 6.0
    case SemanticDelta => 3.0
    case PartialDelta => 2.0
    case SchemaDelta => -2.0
    case CompletionDelta => 1.5
    case AnswerFieldDelta => 1.0
    case AnswerTerminationDelta => 0.5
    case ValidDelta => -1.0
    case Throughput => 0.5
    case EntropyDelta => 0.05
    case Distinct2Delta => 0.5
    case Healthy => 2.0
    case ScoreDrop => -1.0
    case VerifierDrop => -4.0
    case CompletionDrop => -2.0
    case RecoveryControl => -1.0
    case ContractVerifierDelta => if above then 0.5 else 0.0
    case ContractFieldDelta => if above then 0.25 else 0.0
    case ContractCompletionDelta => if above then 0.25 else 0.0
    case BestVerifierBaseline => if above then 1.0 else 0.0
    case BestCompletionBaseline => if above then 0.5 else 0.0
    case BestVerifierStep => if above then 0.5 else 0.25
    case BestCompletionStep => if above then 0.25 else 0.1
    case SourceDelta => if above then -0.2 else 0.0
    case LaggingBuckets => if above then -0.1 else 0.0
    case LaggingContracts => if above then -0.2 else 0.0
    case WorstFamilyVerifier => if above then 0.0 else 4.0
    case FamilySchemaKeyMismatch => if above then -2.0 else 0.0
    case PromptVerifier => if above then 0.0 else 3.0
    case PromptValueDistinctRatio => if above then 0.0 else 2.0
    case PromptValueDominance => if above then -1.0 else 0.0
  }

  /** Zero at the bend, and straight on either side of it. */
  function Bent(x: real, bend: real, low: real, high: real): real {
    (x - bend) * (if x >= bend then high else low)
  }

  function Part(t: Thresholds, term: Term, x: real): real {
    Bent(x, Bend(t, term), Rate(term, false), Rate(term, true))
  }

  function Parts(m: Metrics, t: Thresholds): Term -> real {
    (term: Term) => Part(t, term, At(m, term))
  }

  function Total(p: Term -> real): real {
    p(VerifierDelta) + p(SemanticDelta) + p(PartialDelta) + p(SchemaDelta) + p(CompletionDelta)
    + p(AnswerFieldDelta) + p(AnswerTerminationDelta) + p(ValidDelta) + p(Throughput) + p(EntropyDelta)
    + p(Distinct2Delta) + p(Healthy) + p(ScoreDrop) + p(VerifierDrop) + p(CompletionDrop) + p(RecoveryControl)
    + p(ContractVerifierDelta) + p(ContractFieldDelta) + p(ContractCompletionDelta) + p(BestVerifierBaseline)
    + p(BestCompletionBaseline) + p(BestVerifierStep) + p(BestCompletionStep) + p(SourceDelta)
    + p(LaggingBuckets) + p(LaggingContracts) + p(WorstFamilyVerifier) + p(FamilySchemaKeyMismatch)
    + p(PromptVerifier) + p(PromptValueDistinctRatio) + p(PromptValueDominance)
  }

  lemma EvenParts(m: Metrics, t: Thresholds)
    ensures var p := Parts(m, t);
            && p(VerifierDelta) == m.verifierDelta * 6.0
            && p(SemanticDelta) == m.semanticDelta * 3.0
            && p(PartialDelta) == m.partialDelta * 2.0
            && p(SchemaDelta) == m.schemaDelta * -2.0
            && p(CompletionDelta) == m.completionDelta * 1.5
            && p(AnswerFieldDelta) == m.answerFieldDelta * 1.0
            && p(AnswerTerminationDelta) == m.answerTerminationDelta * 0.5
            && p(ValidDelta) == m.validDelta * -1.0
            && p(Throughput) == (m.throughputRatio - 1.0) * 0.5
            && p(EntropyDelta) == m.entropyDelta * 0.05
            && p(Distinct2Delta) == m.distinct2Delta * 0.5
            && p(Healthy) == (m.healthyFraction - 1.0) * 2.0
            && p(ScoreDrop) == m.capabilityScoreDrop * -1.0
            && p(VerifierDrop) == m.verifierDropFromBest * -4.0
            && p(CompletionDrop) == m.completionDropFromBest * -2.0
            && p(RecoveryControl) == m.recoveryControlFraction * -1.0
  {
  }

  lemma BentParts(m: Metrics, t: Thresholds)
    ensures var p := Parts(m, t);
            && p(ContractVerifierDelta) == Max(0.0, m.contractVerifierDelta) * 0.5
            && p(ContractFieldDelta) == Max(0.0, m.contractFieldDelta) * 0.25
            && p(ContractCompletionDelta) == Max(0.0, m.contractCompletionDelta) * 0.25
            && p(BestVerifierBaseline) == Max(0.0, m.bestEvalVerifierBaselineDelta) * 1.0
            && p(BestCompletionBaseline) == Max(0.0, m.bestEvalCompletionBaselineDelta) * 0.5
            && p(BestVerifierStep) == Max(0.0, m.bestEvalVerifierStepDelta) * 0.5
               - Max(0.0, -m.bestEvalVerifierStepDelta) * 0.25
            && p(BestCompletionStep) == Max(0.0, m.bestEvalCompletionStepDelta) * 0.25
               - Max(0.0, -m.bestEvalCompletionStepDelta) * 0.1
            && p(SourceDelta) == -(Max(m.sourceDelta, 0.0) * 0.2)
  {
  }

  lemma RunHeldParts(m: Metrics, t: Thresholds)
    ensures var p := Parts(m, t);
            && p(LaggingBuckets) == -(Over(m.capabilityLaggingBuckets, t.max(Ceiling.CapabilityLaggingBuckets)) * 0.1)
            && p(LaggingContracts)
               == -(Over(m.capabilityLaggingContracts, t.max(Ceiling.CapabilityLaggingBuckets)) * 0.2)
            && p(WorstFamilyVerifier)
               == -(Under(m.rawCompletionWorstFamilyVerifier, t.min(RawCompletionFamilyVerifierRate)) * 4.0)
            && p(FamilySchemaKeyMismatch)
               == -(Over(m.rawCompletionMaxFamilySchemaKeyMismatch, t.max(RawCompletionFamilySchemaKeyMismatch)) * 2.0)
  {
  }

  lemma PromptHeldParts(m: Metrics, t: Thresholds)
    ensures var p := Parts(m, t);
            && p(PromptVerifier)
               == -(Under(m.promptSchemaCompletionVerifier, t.min(PromptSchemaCompletionVerifierRate)) * 3.0)
            && p(PromptValueDistinctRatio)
               == -(Under(m.promptSchemaCompletionFieldValueDistinctRatio,
                          t.min(PromptSchemaCompletionFieldValueDistinctRatio)) * 2.0)
            && p(PromptValueDominance)
               == -(Over(m.promptSchemaCompletionFieldValueDominance,
                          t.max(Ceiling.PromptSchemaCompletionFieldValueDominance)) * 1.0)
  {
  }

  /** The score is the sum of the parts. */
  lemma ScoreIsTotal(m: Metrics, t: Thresholds)
    ensures Score(m, t) == Total(Parts(m, t))
  {
    EvenParts(m, t);
    BentParts(m, t);
    RunHeldParts(m, t);
    PromptHeldParts(m, t);
  }

  lemma TotalChanges(p: Term -> real, q: Term -> real, term: Term)
    requires forall other: Term :: other != term ==> p(other) == q(other)
    ensures Total(q) - Total(p) == q(term) - p(term)
  {
  }

  lemma TotalGrows(p: Term -> real, q: Term -> real)
    requires forall term: Term :: p(term) <= q(term)
    ensures Total(p) <= Total(q)
  {
  }

  /** Two arms that agree in all the score looks at, but for one measurement. */
  ghost predicate AgreeBut(m: Metrics, n: Metrics, term: Term) {
    forall other: Term :: other != term ==> At(m, other) == At(n, other)
  }

  lemma ScoreFollowsPart(m: Metrics, n: Metrics, t: Thresholds, term: Term)
    requires AgreeBut(m, n, term)
    ensures Score(n, t) - Score(m, t) == Part(t, term, At(n, term)) - Part(t, term, At(m, term))
  {
    ScoreIsTotal(m, t);
    ScoreIsTotal(n, t);
    TotalChanges(Parts(m, t), Parts(n, t), term);
  }

  /** `x` lies above the bend or at it, or below it or at it. */
  predicate OnSide(t: Thresholds, term: Term, x: real, above: bool) {
    if above then x >= Bend(t, term) else x <= Bend(t, term)
  }

  /** What a change by `d` is worth. */
  function Worth(d: real, rate: real): real {
    d * rate
  }

  lemma BentSlope(x: real, y: real, bend: real, low: real, high: real, above: bool)
    requires if above then x >= bend && y >= bend else x <= bend && y <= bend
    ensures Bent(y, bend, low, high) - Bent(x, bend, low, high) == Worth(y - x, if above then high else low)
  {
    var rate := if above then high else low;
    assert Bent(x, bend, low, high) == (x - bend) * rate;
    assert Bent(y, bend, low, high) == (y - bend) * rate;
    assert (y - bend) * rate - (x - bend) * rate == (y - x) * rate;
  }

  /** All else held, the score follows each measurement at the rate of the side of the bend it is on. */
  lemma ScoreFollows(m: Metrics, n: Metrics, t: Thresholds, term: Term, above: bool)
    requires AgreeBut(m, n, term) && OnSide(t, term, At(m, term), above) && OnSide(t, term, At(n, term), above)
    ensures Score(n, t) - Score(m, t) == Worth(At(n, term) - At(m, term), Rate(term, above))
  {
    ScoreFollowsPart(m, n, t, term);
    BentSlope(At(m, term), At(n, term), Bend(t, term), Rate(term, false), Rate(term, true), above);
  }

  /** What the score rewards; it punishes the rest. */
  predicate Rewarded(term: Term) {
    && !term.SchemaDelta? && !term.ValidDelta? && !term.SourceDelta?
    && !term.ScoreDrop? && !term.VerifierDrop? && !term.CompletionDrop? && !term.RecoveryControl?
    && !term.LaggingBuckets? && !term.LaggingContracts? && !term.FamilySchemaKeyMismatch?
    && !term.PromptValueDominance?
  }

  /** Measurements of which the score misses no change at all. */
  predicate Strict(term: Term) {
    Rate(term, true) != 0.0 && Rate(term, false) != 0.0
  }

  lemma StrictTerms()
    ensures forall term: Term :: Strict(term) <==>
              term in {VerifierDelta, SemanticDelta, PartialDelta, SchemaDelta, CompletionDelta, AnswerFieldDelta,
                       AnswerTerminationDelta, ValidDelta, Throughput, EntropyDelta, Distinct2Delta, Healthy,
                       ScoreDrop, VerifierDrop, CompletionDrop, RecoveryControl, BestVerifierStep, BestCompletionStep}
  {
  }

  lemma RateSigns(term: Term, above: bool)
    ensures if Rewarded(term) then Rate(term, above) >= 0.0 else Rate(term, above) <= 0.0
  {
  }

  lemma Signs(a: real, rate: real)
    ensures a >= 0.0 && rate >= 0.0 ==> a * rate >= 0.0
    ensures a <= 0.0 && rate >= 0.0 ==> a * rate <= 0.0
    ensures a > 0.0 && rate > 0.0 ==> a * rate > 0.0
    ensures a < 0.0 && rate > 0.0 ==> a * rate < 0.0
  {
  }

  lemma BentRises(x: real, y: real, bend: real, low: real, high: real)
    requires x < y && low >= 0.0 && high >= 0.0
    ensures Bent(x, bend, low, high) <= Bent(y, bend, low, high)
    ensures low > 0.0 && high > 0.0 ==> Bent(x, bend, low, high) < Bent(y, bend, low, high)
  {
    if x >= bend {
      BentSlope(x, y, bend, low, high, true);
      Signs(y - x, high);
    } else if y < bend {
      BentSlope(x, y, bend, low, high, false);
      Signs(y - x, low);
    } else {
      Signs(x - bend, low);
      Signs(y - bend, high);
    }
  }

  lemma BentNegates(x: real, bend: real, low: real, high: real)
    ensures Bent(x, bend, -low, -high) == -Bent(x, bend, low, high)
  {
  }

  lemma PartDirection(t: Thresholds, term: Term, x: real, y: real)
    requires x < y
    ensures if Rewarded(term) then Part(t, term, x) <= Part(t, term, y) else Part(t, term, x) >= Part(t, term, y)
    ensures Strict(term) ==> Part(t, term, x) != Part(t, term, y)
  {
    var bend, low, high := Bend(t, term), Rate(term, false), Rate(term, true);
    RateSigns(term, true);
    RateSigns(term, false);
    if Rewarded(term) {
      BentRises(x, y, bend, low, high);
    } else {
      BentRises(x, y, bend, -low, -high);
      BentNegates(x, bend, low, high);
      BentNegates(y, bend, low, high);
    }
  }

  /** All else held, more of what is rewarded never lowers the score and more of the rest never raises it. */
  lemma ScoreDirection(m: Metrics, n: Metrics, t: Thresholds, term: Term)
    requires AgreeBut(m, n, term) && At(m, term) < At(n, term)
    ensures if Rewarded(term) then Score(m, t) <= Score(n, t) else Score(m, t) >= Score(n, t)
    ensures Strict(term) ==> if Rewarded(term) then Score(m, t) < Score(n, t) else Score(m, t) > Score(n, t)
  {
    ScoreFollowsPart(m, n, t, term);
    PartDirection(t, term, At(m, term), At(n, term));
  }

  /** At least as good in all the score looks at. */
  ghost predicate ScoresAtLeast(m: Metrics, n: Metrics) {
    forall term: Term :: if Rewarded(term) then At(m, term) <= At(n, term) else At(m, term) >= At(n, term)
  }

  lemma BetterScores(m: Metrics, n: Metrics, t: Thresholds)
    requires ScoresAtLeast(m, n)
    ensures Score(m, t) <= Score(n, t)
  {
    ScoreIsTotal(m, t);
    ScoreIsTotal(n, t);
    var p, q := Parts(m, t), Parts(n, t);
    forall term: Term
      ensures p(term) <= q(term)
    {
      if At(m, term) < At(n, term) {
        PartDirection(t, term, At(m, term), At(n, term));
      } else if At(n, term) < At(m, term) {
        PartDirection(t, term, At(n, term), At(m, term));
      }
    }
    TotalGrows(p, q);
  }
}
