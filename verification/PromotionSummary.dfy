/** The decided report: every arm once, best first, and its summary (`add_gate_decisions`, `validation_summary`). */
module PromotionSummary {
  import opened Wrappers
  import opened Sorting
  import opened PromotionGates
  import opened PromotionDecisions

  function Rank(d: Decision): nat {
    match d
    case Promote => 3
    case Control => 2
    case Hold => 1
    case Reject => 0
  }

  /** The score the report is sorted by: an exact zero sorts as if there were no score. */
  function SortScore(d: Decided): real {
    if d.score == 0.0 then -1000000000.0 else d.score
  }

  predicate Leads(a: Decided, b: Decided) {
    Rank(a.decision) > Rank(b.decision)
    || (Rank(a.decision) == Rank(b.decision) && SortScore(a) >= SortScore(b))
  }

  lemma LeadsIsOrdering()
    ensures Ordering(Leads)
  {
  }

  function Sorted(rows: seq<Decided>): seq<Decided> {
    Sort(rows, Leads)
  }

  /** The report's order: sorted, nothing lost or repeated, and tied arms left in the order they came. */
  lemma SortedIsStable(rows: seq<Decided>)
    ensures Ordered(Sorted(rows), Leads) && multiset(Sorted(rows)) == multiset(rows)
    ensures forall x :: TiesOf(x, Sorted(rows), Leads) == TiesOf(x, rows, Leads)
  {
    LeadsIsOrdering();
    SortIsStable(rows, Leads);
  }

  /**
   * The order spelled out: promotions, then the control, then holds, then rejections; scores fall
   * within one decision, and a score of exactly zero stands where minus a billion would.
   */
  lemma SortedOrder(rows: seq<Decided>, i: nat, j: nat)
    requires i < j < |rows|
    ensures var a, b := Sorted(rows)[i], Sorted(rows)[j];
            && (b.decision == Promote ==> a.decision == Promote)
            && (b.decision == Control ==> a.decision == Promote || a.decision == Control)
            && (a.decision == Reject ==> b.decision == Reject)
            && (a.decision == b.decision && a.score != 0.0 && b.score != 0.0 ==> a.score >= b.score)
            && (a.decision == b.decision && a.score == 0.0 && b.score != 0.0 ==> b.score <= -1000000000.0)
            && (a.decision == b.decision && a.score != 0.0 && b.score == 0.0 ==> a.score >= -1000000000.0)
  {
    SortedIsStable(rows);
    assert Leads(Sorted(rows)[i], Sorted(rows)[j]);
  }

  function DecideAll(rows: seq<Metrics>, decide: Metrics -> Decided): seq<Decided> {
    if rows == [] then [] else [decide(rows[0])] + DecideAll(rows[1..], decide)
  }

  lemma {:induction false} DecideAllSnoc(rows: seq<Metrics>, i: nat, decide: Metrics -> Decided)
    requires i < |rows|
    ensures DecideAll(rows[..i + 1], decide) == DecideAll(rows[..i], decide) + [decide(rows[i])]
  {
    if i == 0 {
      assert rows[..1] == [rows[0]];
    } else {
      DecideAllSnoc(rows[1..], i - 1, decide);
      assert rows[..i + 1][1..] == rows[1..][..i] && rows[..i][1..] == rows[1..][..i - 1];
    }
  }

  /** Every row is decided once and the report sorted; without a baseline row there is no report. */
  method AddGateDecisions(rows: seq<Metrics>, decide: Metrics -> Decided, baselineArm: string)
    returns (r: Option<seq<Decided>>)
    ensures r.Some? <==> exists row :: row in rows && row.arm == baselineArm
    ensures r.Some? ==> r.value == Sorted(DecideAll(rows, decide))
  {
    if forall row :: row in rows ==> row.arm != baselineArm {
      return None;
    }
    var out: seq<Decided> := [];
    for i := 0 to |rows|
      invariant out == DecideAll(rows[..i], decide)
    {
      DecideAllSnoc(rows, i, decide);
      out := out + [decide(rows[i])];
    }
    assert rows[..|rows|] == rows;
    return Some(Sorted(out));
  }

  /** Whether `validation_summary` counts the row under a decision: a promotion must carry no fail reasons. */
  predicate CountsAs(d: Decided, decision: Decision) {
    d.decision == decision && (decision == Promote ==> d.failReasons == [])
  }

  function Count(rows: seq<Decided>, decision: Decision): nat {
    if rows == [] then 0 else (if CountsAs(rows[0], decision) then 1 else 0) + Count(rows[1..], decision)
  }

  function MatureCount(rows: seq<Decided>): nat {
    if rows == [] then 0 else (if rows[0].mature then 1 else 0) + MatureCount(rows[1..])
  }

  datatype Status = ValidatedCandidate | InsufficientMatureEvidence | NoValidatedCandidate

  function ValidationStatus(rows: seq<Decided>): Status {
    if Count(rows, Promote) > 0 then ValidatedCandidate
    else if MatureCount(rows) == 0 then InsufficientMatureEvidence
    else NoValidatedCandidate
  }

  lemma {:induction false} InsertCounts(d: Decided, rows: seq<Decided>, decision: Decision)
    ensures Count(Insert(d, rows, Leads), decision) == Count([d] + rows, decision)
    ensures MatureCount(Insert(d, rows, Leads)) == MatureCount([d] + rows)
  {
    assert ([d] + rows)[1..] == rows;
    if rows != [] && !Leads(d, rows[0]) {
      InsertCounts(d, rows[1..], decision);
      assert ([rows[0]] + Insert(d, rows[1..], Leads))[1..] == Insert(d, rows[1..], Leads);
      assert ([d] + rows[1..])[1..] == rows[1..];
    }
  }

  /** The summary does not depend on the report's order. */
  lemma {:induction false} SortingKeepsCounts(rows: seq<Decided>, decision: Decision)
    ensures Count(Sorted(rows), decision) == Count(rows, decision)
    ensures MatureCount(Sorted(rows)) == MatureCount(rows)
  {
    if rows != [] {
      SortingKeepsCounts(rows[1..], decision);
      InsertCounts(rows[0], Sorted(rows[1..]), decision);
      assert ([rows[0]] + Sorted(rows[1..]))[1..] == Sorted(rows[1..]);
    }
  }

  /** What every decision `decide` makes must satisfy for the summary's counts to partition the arms. */
  ghost predicate Sound(decide: Metrics -> Decided) {
    forall m :: decide(m).decision == Promote ==> decide(m).failReasons == [] && decide(m).mature
  }

  lemma {:induction false} CountsPartition(rows: seq<Metrics>, decide: Metrics -> Decided)
    requires Sound(decide)
    ensures var out := DecideAll(rows, decide);
            && Count(out, Promote) + Count(out, Control) + Count(out, Hold) + Count(out, Reject) == |rows|
            && Count(out, Promote) <= MatureCount(out)
  {
    if rows != [] {
      CountsPartition(rows[1..], decide);
      var first := decide(rows[0]);
      assert DecideAll(rows, decide)[1..] == DecideAll(rows[1..], decide);
    }
  }

  ghost predicate KeepsPromotions(strict: Metrics -> Decided, loose: Metrics -> Decided) {
    forall m :: strict(m).decision == Promote ==> loose(m).decision == Promote
  }

  lemma {:induction false} MorePromotions(rows: seq<Metrics>, strict: Metrics -> Decided, loose: Metrics -> Decided)
    requires Sound(loose)
    requires KeepsPromotions(strict, loose)
    ensures Count(DecideAll(rows, strict), Promote) <= Count(DecideAll(rows, loose), Promote)
  {
    if rows != [] {
      MorePromotions(rows[1..], strict, loose);
      assert DecideAll(rows, strict)[1..] == DecideAll(rows[1..], strict);
      assert DecideAll(rows, loose)[1..] == DecideAll(rows[1..], loose);
      var first := rows[0];
      assert strict(first).decision == Promote ==> loose(first).decision == Promote;
    }
  }

  function Decider(t: Thresholds, baselineArm: string): Metrics -> Decided {
    m => Decide(m, t, baselineArm)
  }

  lemma DeciderIsSound(t: Thresholds, baselineArm: string)
    ensures Sound(Decider(t, baselineArm))
  {
    forall m ensures Decider(t, baselineArm)(m).decision == Promote ==>
                       Decider(t, baselineArm)(m).failReasons == [] && Decider(t, baselineArm)(m).mature
    {
      DecisionMeans(m, t, baselineArm);
    }
  }

  /** The four counts add up to the arms: no decided row is lost, none counted twice, promotions are mature. */
  lemma ReportCountsAddUp(rows: seq<Metrics>, t: Thresholds, baselineArm: string)
    ensures var out := Sorted(DecideAll(rows, Decider(t, baselineArm)));
            && Count(out, Promote) + Count(out, Control) + Count(out, Hold) + Count(out, Reject) == |rows|
            && Count(out, Promote) <= MatureCount(out)
  {
    var decide := Decider(t, baselineArm);
    DeciderIsSound(t, baselineArm);
    CountsPartition(rows, decide);
    SortingKeepsCounts(DecideAll(rows, decide), Promote);
    SortingKeepsCounts(DecideAll(rows, decide), Control);
    SortingKeepsCounts(DecideAll(rows, decide), Hold);
    SortingKeepsCounts(DecideAll(rows, decide), Reject);
  }

  lemma {:induction false} PositiveCount(rows: seq<Decided>, k: nat, decision: Decision)
    requires k < |rows| && CountsAs(rows[k], decision)
    ensures Count(rows, decision) > 0
  {
    if k > 0 {
      PositiveCount(rows[1..], k - 1, decision);
    }
  }

  lemma {:induction false} CountedWitness(rows: seq<Decided>, decision: Decision) returns (k: nat)
    requires Count(rows, decision) > 0
    ensures k < |rows| && CountsAs(rows[k], decision)
  {
    if CountsAs(rows[0], decision) {
      k := 0;
    } else {
      k := CountedWitness(rows[1..], decision);
      k := k + 1;
    }
  }

  /** A report is validated exactly when its first row is a promotion, so the reader sees the best candidate first. */
  lemma ValidatedReportLeadsWithPromotion(rows: seq<Decided>)
    requires Ordered(rows, Leads) && forall d :: d in rows && d.decision == Promote ==> d.failReasons == []
    ensures ValidationStatus(rows) == ValidatedCandidate <==> rows != [] && rows[0].decision == Promote
  {
    if rows != [] && rows[0].decision == Promote {
      PositiveCount(rows, 0, Promote);
    }
    if Count(rows, Promote) > 0 {
      var k := CountedWitness(rows, Promote);
      assert k > 0 ==> Leads(rows[0], rows[k]);
    }
  }

  lemma {:induction false} MatureWitness(rows: seq<Decided>)
    ensures MatureCount(rows) > 0 <==> exists k :: 0 <= k < |rows| && rows[k].mature
  {
    if rows != [] {
      MatureWitness(rows[1..]);
      if MatureCount(rows[1..]) > 0 {
        var k :| 0 <= k < |rows[1..]| && rows[1..][k].mature;
        assert rows[k + 1].mature;
      }
    }
  }

  /** What the summary's status says about the rows. */
  lemma StatusMeans(rows: seq<Decided>)
    ensures ValidationStatus(rows) == ValidatedCandidate <==>
              exists k :: 0 <= k < |rows| && rows[k].decision == Promote && rows[k].failReasons == []
    ensures ValidationStatus(rows) == InsufficientMatureEvidence ==> forall k :: 0 <= k < |rows| ==> !rows[k].mature
    ensures ValidationStatus(rows) == NoValidatedCandidate ==> exists k :: 0 <= k < |rows| && rows[k].mature
  {
    MatureWitness(rows);
    if Count(rows, Promote) > 0 {
      var k := CountedWitness(rows, Promote);
    }
    if k :| 0 <= k < |rows| && rows[k].decision == Promote && rows[k].failReasons == [] {
      PositiveCount(rows, k, Promote);
    }
  }

  lemma ValidationKept(rows: seq<Metrics>, strict: Metrics -> Decided, loose: Metrics -> Decided)
    requires Sound(loose) && KeepsPromotions(strict, loose)
    ensures Count(Sorted(DecideAll(rows, strict)), Promote) <= Count(Sorted(DecideAll(rows, loose)), Promote)
    ensures ValidationStatus(Sorted(DecideAll(rows, strict))) == ValidatedCandidate ==>
              ValidationStatus(Sorted(DecideAll(rows, loose))) == ValidatedCandidate
  {
    MorePromotions(rows, strict, loose);
    SortingKeepsCounts(DecideAll(rows, strict), Promote);
    SortingKeepsCounts(DecideAll(rows, loose), Promote);
  }

  lemma DeciderKeepsPromotions(t: Thresholds, u: Thresholds, baselineArm: string)
    requires Loosened(t, u) && SameDistinct(t, u)
    ensures KeepsPromotions(Decider(t, baselineArm), Decider(u, baselineArm))
  {
    forall m | Decide(m, t, baselineArm).decision == Promote
      ensures Decide(m, u, baselineArm).decision == Promote
    {
      LooseningTheOthersIsSafe(m, t, u, baselineArm);
    }
  }

  /** A validated report stays validated, with no fewer promotions, when all thresholds but those two loosen. */
  lemma LooseningKeepsValidation(rows: seq<Metrics>, t: Thresholds, u: Thresholds, baselineArm: string)
    requires Loosened(t, u) && SameDistinct(t, u)
    ensures var strict, loose := Sorted(DecideAll(rows, Decider(t, baselineArm))),
                                 Sorted(DecideAll(rows, Decider(u, baselineArm)));
            && Count(strict, Promote) <= Count(loose, Promote)
            && (ValidationStatus(strict) == ValidatedCandidate ==> ValidationStatus(loose) == ValidatedCandidate)
  {
    DeciderIsSound(u, baselineArm);
    DeciderKeepsPromotions(t, u, baselineArm);
    ValidationKept(rows, Decider(t, baselineArm), Decider(u, baselineArm));
  }
}
