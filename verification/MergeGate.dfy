/** From findings to the merge gate, as the stages update the pipeline state. */
module MergeGate {
  import opened Numbers
  import opened Schemas
  import opened RiskScore
  import opened Dropping

  // The stages are aegis/pipeline/suppression.py, risk_score.py and policy.py in the same
  // directory.

  // ---------------------------------------------------------------- suppression

  /** A feedback row and the repository it was given in; the source does not look at
      the repository. */
  datatype Feedback = Feedback(repo: string, fingerprint: string, kind: string)

  const FP_SUPPRESS_THRESHOLD: nat := 3

  /** Rows that report a fingerprint as a false positive. */
  function Reports(feedback: seq<Feedback>, fingerprint: string): nat {
    if feedback == [] then 0
    else (if IsReport(feedback[0], fingerprint) then 1 else 0) + Reports(feedback[1..], fingerprint)
  }

  predicate IsReport(row: Feedback, fingerprint: string) {
    row.fingerprint == fingerprint && row.kind == "false_positive"
  }

  predicate IsSuppressed(feedback: seq<Feedback>, fingerprint: string) {
    Reports(feedback, fingerprint) >= FP_SUPPRESS_THRESHOLD
  }

  /** Row `i` reports the fingerprint as a false positive. */
  predicate ReportAt(feedback: seq<Feedback>, fingerprint: string, i: int) {
    0 <= i < |feedback| && feedback[i].fingerprint == fingerprint && feedback[i].kind == "false_positive"
  }

  ghost predicate ThreeReports(feedback: seq<Feedback>, fingerprint: string) {
    exists i, j, k :: i < j < k
      && ReportAt(feedback, fingerprint, i) && ReportAt(feedback, fingerprint, j) && ReportAt(feedback, fingerprint, k)
  }

  /** The n-th report is a row with at least n - 1 reports before it. */
  lemma {:induction false} ReportsFind(feedback: seq<Feedback>, fingerprint: string, n: nat) returns (at: seq<int>)
    requires n <= Reports(feedback, fingerprint)
    ensures |at| == n
    ensures forall i :: 0 <= i < n ==> ReportAt(feedback, fingerprint, at[i])
    ensures forall i, j :: 0 <= i < j < n ==> at[i] < at[j]
  {
    if n == 0 {
      return [];
    }
    var own := if IsReport(feedback[0], fingerprint) then 1 else 0;
    var rest := ReportsFind(feedback[1..], fingerprint, if own == 1 then n - 1 else n);
    var moved := seq(|rest|, i requires 0 <= i < |rest| => rest[i] + 1);
    at := if own == 1 then [0] + moved else moved;
    forall i | 0 <= i < |rest| ensures ReportAt(feedback, fingerprint, moved[i]) && 0 < moved[i] {
      assert ReportAt(feedback[1..], fingerprint, rest[i]);
    }
  }

  lemma {:induction false} ReportsCount(feedback: seq<Feedback>, fingerprint: string, at: seq<int>)
    requires forall i :: 0 <= i < |at| ==> ReportAt(feedback, fingerprint, at[i])
    requires forall i, j :: 0 <= i < j < |at| ==> at[i] < at[j]
    ensures |at| <= Reports(feedback, fingerprint)
    decreases |feedback|
  {
    if at != [] {
      var later := if at[0] == 0 then at[1..] else at;
      var moved := seq(|later|, i requires 0 <= i < |later| => later[i] - 1);
      forall i | 0 <= i < |later| ensures ReportAt(feedback[1..], fingerprint, moved[i]) {
        assert ReportAt(feedback, fingerprint, later[i]) && later[i] > 0;
      }
      ReportsCount(feedback[1..], fingerprint, moved);
      assert at[0] == 0 ==> ReportAt(feedback, fingerprint, 0);
    }
  }

  /** A fingerprint is suppressed if and only if three feedback rows report it as a false
      positive; rows of other kinds do not count. */
  lemma SuppressedExactly(feedback: seq<Feedback>, fingerprint: string)
    ensures IsSuppressed(feedback, fingerprint) <==> ThreeReports(feedback, fingerprint)
  {
    if IsSuppressed(feedback, fingerprint) {
      var at := ReportsFind(feedback, fingerprint, 3);
      assert at[0] < at[1] < at[2];
    }
    if ThreeReports(feedback, fingerprint) {
      var i, j, k :| i < j < k
        && ReportAt(feedback, fingerprint, i) && ReportAt(feedback, fingerprint, j) && ReportAt(feedback, fingerprint, k);
      ReportsCount(feedback, fingerprint, [i, j, k]);
    }
  }

  /** `suppress_findings`: an order-preserving split by fingerprint. */
  method SuppressFindings(sha: string -> string, fs: seq<Finding>, suppressed: set<string>)
    returns (kept: seq<Finding>, dropped: seq<Finding>)
    ensures Interleaves(fs, kept, dropped)
    ensures forall f :: f in kept ==> Fingerprint(sha, f) !in suppressed
    ensures forall f :: f in dropped ==> Fingerprint(sha, f) in suppressed
  {
    hide Fingerprint;
    kept, dropped := [], [];
    for i := 0 to |fs|
      invariant Interleaves(fs[..i], kept, dropped)
      invariant forall f :: f in kept ==> Fingerprint(sha, f) !in suppressed
      invariant forall f :: f in dropped ==> Fingerprint(sha, f) in suppressed
    {
      assert fs[..i + 1] == fs[..i] + [fs[i]];
      if Fingerprint(sha, fs[i]) in suppressed {
        InterleavesRight(fs[..i], kept, dropped, fs[i]);
        dropped := dropped + [fs[i]];
      } else {
        InterleavesLeft(fs[..i], kept, dropped, fs[i]);
        kept := kept + [fs[i]];
      }
    }
    assert fs[..|fs|] == fs;
  }

  /** The split is unique: the fingerprints decide it. */
  lemma {:induction false} SplitUnique(sha: string -> string, fs: seq<Finding>, suppressed: set<string>,
                                       kept: seq<Finding>, dropped: seq<Finding>,
                                       kept': seq<Finding>, dropped': seq<Finding>)
    requires Interleaves(fs, kept, dropped) && Interleaves(fs, kept', dropped')
    requires forall f :: f in kept || f in kept' ==> Fingerprint(sha, f) !in suppressed
    requires forall f :: f in dropped || f in dropped' ==> Fingerprint(sha, f) in suppressed
    ensures kept == kept' && dropped == dropped'
    decreases |fs|
  {
    hide Fingerprint;
    if fs != [] {
      var f := fs[|fs| - 1];
      if Fingerprint(sha, f) in suppressed {
        SplitUnique(sha, fs[..|fs| - 1], suppressed, kept, dropped[..|dropped| - 1], kept', dropped'[..|dropped'| - 1]);
        assert dropped == dropped[..|dropped| - 1] + [f] && dropped' == dropped'[..|dropped'| - 1] + [f];
      } else {
        SplitUnique(sha, fs[..|fs| - 1], suppressed, kept[..|kept| - 1], dropped, kept'[..|kept'| - 1], dropped');
        assert kept == kept[..|kept| - 1] + [f] && kept' == kept'[..|kept'| - 1] + [f];
      }
    }
  }

  // ---------------------------------------------------------------- policy

  /** The status state and the reasons the decision is published with. */
  datatype State = Success | Failure

  datatype Reason = Passed | CriticalFound | HighFound | ScoreOf100(score: int)

  datatype Decision = Decision(block: bool, state: State, reason: Reason)

  function Decide(mode: string, score: int, fs: seq<Finding>): Decision {
    var reason :=
      if mode == "off" then Passed
      else if Any(fs, Critical) then CriticalFound
      else if mode == "high" && Any(fs, High) then HighFound
      else if score > 60 then ScoreOf100(score)
      else Passed;
    Decision(!reason.Passed?, if reason.Passed? then Success else Failure, reason)
  }

  // ---------------------------------------------------------------- dropping findings

  /** Whatever part of the findings goes, the score, the label and the decision stay
      within those of the best score. */
  lemma DroppingBounded(all: seq<Finding>, kept: seq<Finding>, dropped: seq<Finding>, mode: string)
    requires Interleaves(all, kept, dropped)
    ensures Score(kept) <= BestScore(all)
    ensures RiskLabel(Score(kept), kept).Rank() <= RiskLabel(BestScore(all), all).Rank()
    ensures Decide(mode, Score(kept), kept).block ==> Decide(mode, BestScore(all), all).block
  {
    hide Interleaves, Decide, RiskLabel, Score, BestScore;
    InterleavesMembers(all, kept, dropped);
    KeptBounded(all, kept, dropped);
    GateMonotone(kept, all, Score(kept), BestScore(all), mode);
  }

  lemma GateMonotone(kept: seq<Finding>, all: seq<Finding>, low: int, high: int, mode: string)
    requires low <= high && forall f :: f in kept ==> f in all
    ensures RiskLabel(low, kept).Rank() <= RiskLabel(high, all).Rank()
    ensures Decide(mode, low, kept).block ==> Decide(mode, high, all).block
  {
    forall s | Any(kept, s) ensures Any(all, s) {
      var f :| f in kept && f.severity == s;
      assert f in all;
    }
    hide Any;
  }

  /** Without the findings that matter by severity, the best score is what counts. */
  lemma BestGate(fs: seq<Finding>, mode: string)
    ensures !Any(fs, Critical) ==> RiskLabel(BestScore(fs), BestKept(fs)) == RiskLabel(BestScore(fs), fs)
    ensures Decide(mode, BestScore(fs), fs).block ==>
              Decide(mode, Score(fs), fs).block || Decide(mode, BestScore(fs), BestKept(fs)).block
  {
    hide Score, BestScore, BestKept, BestDropped, Interleaves;
    BestSplits(fs);
    InterleavesMembers(fs, BestKept(fs), BestDropped(fs));
    forall s | Any(BestKept(fs), s) ensures Any(fs, s) {
      var f :| f in BestKept(fs) && f.severity == s;
      assert f in fs;
    }
    hide Any;
  }

  /** Dropping findings never raises the label if and only if the score's label is that
      of the best score already. */
  lemma DroppingLabelExactly(fs: seq<Finding>)
    ensures (forall kept, dropped :: Interleaves(fs, kept, dropped) ==>
               RiskLabel(Score(kept), kept).Rank() <= RiskLabel(Score(fs), fs).Rank())
            <==> RiskLabel(BestScore(fs), fs) == RiskLabel(Score(fs), fs)
  {
    BestGate(fs, "");
    hide Score, BestScore, BestKept, BestDropped, Interleaves, Any, Decide;
    BestSplits(fs);
    BestKeptBreakdown(fs);
    AllKept(fs);
    DroppingBounded(fs, fs, [], "");
    forall kept, dropped | Interleaves(fs, kept, dropped)
      ensures RiskLabel(Score(kept), kept).Rank() <= RiskLabel(BestScore(fs), fs).Rank()
    {
      DroppingBounded(fs, kept, dropped, "");
    }
    assert Interleaves(fs, BestKept(fs), BestDropped(fs));
  }

  /** Dropping findings never turns a passing decision into a block if and only if the
      findings block already, or would pass even with the best score. */
  lemma DroppingDecisionExactly(fs: seq<Finding>, mode: string)
    ensures (forall kept, dropped :: Interleaves(fs, kept, dropped) ==>
               Decide(mode, Score(kept), kept).block ==> Decide(mode, Score(fs), fs).block)
            <==> (Decide(mode, BestScore(fs), fs).block ==> Decide(mode, Score(fs), fs).block)
  {
    BestGate(fs, mode);
    hide Score, BestScore, BestKept, BestDropped, Interleaves, Decide;
    BestSplits(fs);
    BestKeptBreakdown(fs);
    forall kept, dropped | Interleaves(fs, kept, dropped)
      ensures Decide(mode, Score(kept), kept).block ==> Decide(mode, BestScore(fs), fs).block
    {
      DroppingBounded(fs, kept, dropped, mode);
    }
    assert Interleaves(fs, BestKept(fs), BestDropped(fs));
  }

  /** Under key-determined weights, dropping any part of the findings never raises a
      key's total, the score or the label, and never turns a passing decision into a
      block, whatever the mode. */
  lemma DroppingNeverHurts(all: seq<Finding>, kept: seq<Finding>, dropped: seq<Finding>, mode: string)
    requires Interleaves(all, kept, dropped) && WeightsDetermined(all)
    ensures AtMost(Breakdown(kept), Breakdown(all))
    ensures Score(kept) <= Score(all)
    ensures RiskLabel(Score(kept), kept).Rank() <= RiskLabel(Score(all), all).Rank()
    ensures Decide(mode, Score(kept), kept).block ==> Decide(mode, Score(all), all).block
  {
    hide Interleaves, WeightsDetermined, Breakdown, BestTotals, Decide, RiskLabel, Score, BestScore, AtMost;
    DeterminedIsBest(all);
    KeptAtMost(all, kept, dropped);
    DroppingBounded(all, kept, dropped, mode);
  }

  // ---------------------------------------------------------------- a suppression that blocks

  function Example(cwe: string, line: int, severity: Severity): Finding {
    Finding("a.py", line, None, Some(cwe), None, severity, 1.0, Judge, "t", "r", None, None, false)
  }

  const HIGH1 := Example("CWE-200", 1, High)
  const HIGH2 := Example("CWE-200", 2, High)
  const INFO := Example("CWE-200", 3, Info)
  const MEDIUM := Example("CWE-22", 4, Medium)

  lemma ExampleWeights()
    ensures Key(HIGH1) == Key(HIGH2) == Key(INFO) == "CWE-200" && Key(MEDIUM) == "CWE-22" && "CWE-200" != "CWE-22"
    ensures Weight(HIGH1) == Weight(HIGH2) == 25 && Weight(INFO) == 1 && Weight(MEDIUM) == 25
  {
    OtherCwe();
    assert "CWE-22" in CWE_WEIGHTS;
    hide CWE_WEIGHTS;
    assert |"CWE-200"| == 7 && |"CWE-22"| == 6;
  }

  lemma OtherCwe()
    ensures "CWE-200" !in CWE_WEIGHTS && "CWE-22" in CWE_WEIGHTS && CWE_WEIGHTS["CWE-22"] == 25
  {
    assert "CWE-200"[4] == '2' && "CWE-200"[5] == '0';
  }

  lemma TwoKeyScore(fs: seq<Finding>, k: string, l: string)
    requires k != l && Keys(fs) == {k, l}
    ensures Score(fs) == Min(Capped(Weights(fs, k)) + Capped(Weights(fs, l)), 100)
  {
    hide Key, Capped, Weights, Min, Keys;
    var m := Breakdown(fs);
    SumWithout(m, k);
    SumWithout(m - {k}, l);
    assert m - {k} - {l} == map[];
  }

  /** Two findings with different CWEs share no cap, whatever their rules and
      severities: their scores add up. */
  lemma DifferentCwesAdd(f: Finding, g: Finding)
    requires !Blank(f.cwe) && !Blank(g.cwe) && f.cwe != g.cwe
    ensures Score([f, g]) == Min(Score([f]) + Score([g]), 100)
  {
    KeyOfCwe(f);
    KeyOfCwe(g);
    ApartAdd(f, g);
  }

  lemma ApartAdd(f: Finding, g: Finding)
    requires Key(f) != Key(g)
    ensures Score([f, g]) == Min(Score([f]) + Score([g]), 100)
  {
    hide Key, Score, Keys, Capped, Weights, Weight, Min;
    SingleScore(f);
    SingleScore(g);
    TwoApart(f, g, Key(f));
    TwoApart(f, g, Key(g));
    TwoKeyScore([f, g], Key(f), Key(g));
  }

  lemma KeyOfCwe(f: Finding)
    requires !Blank(f.cwe)
    ensures f.cwe.Some? && Key(f) == f.cwe.value
  {
  }

  lemma TwoApart(f: Finding, g: Finding, key: string)
    requires Key(f) != Key(g) && (key == Key(f) || key == Key(g))
    ensures Keys([f, g]) == {Key(f), Key(g)}
    ensures Capped(Weights([f, g], key)) == Weight(if key == Key(f) then f else g)
  {
    hide Key, Weight, Capped, Weights;
    assert f in [f, g] && g in [f, g];
    var w := Weight(if key == Key(f) then f else g);
    NoneWeights(key);
    WeightsAppend([], f, key);
    WeightsAppend([f], g, key);
    assert [] + [f] == [f] && [f] + [g] == [f, g] && [] + [w] == [w] && [w] + [] == [w];
    CappedSnoc([], w);
  }

  /** Two injections the judge model reports under one rule block the merge. */
  lemma TwoCwesBlock(f: Finding, g: Finding)
    requires f.ruleId == g.ruleId == Some("llm:judge") && f.severity == g.severity == High
    requires f.cwe == Some("CWE-89") && g.cwe == Some("CWE-79")
    ensures Score([f, g]) == 70 && RiskLabel(70, [f, g]) == LabelHigh && Decide("critical", 70, [f, g]).block
  {
    assert "CWE-89"[4] == '8' && "CWE-79"[4] == '7' && "critical"[0] != "off"[0];
    assert !Any([f, g], Critical);
    hide Score, Any;
    DifferentCwesAdd(f, g);
    InjectionScores(f);
    InjectionScores(g);
  }

  lemma InjectionScores(f: Finding)
    ensures f.cwe == Some("CWE-89") ==> Score([f]) == 40
    ensures f.cwe == Some("CWE-79") ==> Score([f]) == 30
  {
    hide Score, Unlisted;
    SingleScores(f);
  }

  lemma ExampleScores()
    ensures Score([HIGH1, HIGH2, INFO, MEDIUM]) == 27 && Score([HIGH1, HIGH2, MEDIUM]) == 75
  {
    ExampleWeights();
    hide Example, Key, Weight;
    FourWeights(HIGH1, HIGH2, INFO, MEDIUM);
  }

  /** Three findings under one key and one under another. */
  lemma FourWeights(a: Finding, b: Finding, c: Finding, d: Finding)
    requires Key(a) == Key(b) == Key(c) != Key(d)
    requires Weight(a) == Weight(b) == 25 && Weight(c) == 1 && Weight(d) == 25
    ensures Score([a, b, c, d]) == 27 && Score([a, b, d]) == 75
  {
    hide Key, Weight, Weights, Keys, Capped, Score;
    FourKeys(a, b, c, d);
    LongWeights(a, b, c, d, Key(a));
    LongWeights(a, b, c, d, Key(d));
    ShortWeights(a, b, d, Key(a));
    ShortWeights(a, b, d, Key(d));
    TwoKeyScore([a, b, c, d], Key(a), Key(d));
    TwoKeyScore([a, b, d], Key(a), Key(d));
    ExampleTotals();
  }

  lemma FourKeys(a: Finding, b: Finding, c: Finding, d: Finding)
    requires Key(a) == Key(b) == Key(c)
    ensures Keys([a, b, c, d]) == Keys([a, b, d]) == {Key(a), Key(d)}
  {
    hide Key;
    assert a in [a, b, c, d] && d in [a, b, c, d] && a in [a, b, d] && d in [a, b, d];
  }

  lemma LongWeights(a: Finding, b: Finding, c: Finding, d: Finding, key: string)
    requires Key(a) == Key(b) == Key(c) != Key(d) && Weight(a) == Weight(b)
    ensures key == Key(a) ==> Weights([a, b, c, d], key) == [Weight(a), Weight(a), Weight(c)]
    ensures key == Key(d) ==> Weights([a, b, c, d], key) == [Weight(d)]
  {
    hide Key, Weight, Weights;
    PairWeights(a, b, key);
    WeightsAppend([a, b], c, key);
    WeightsAppend([a, b, c], d, key);
    assert [a, b] + [c] == [a, b, c] && [a, b, c] + [d] == [a, b, c, d];
    assert [Weight(a), Weight(a)] + [Weight(c)] == [Weight(a), Weight(a), Weight(c)];
  }

  lemma ShortWeights(a: Finding, b: Finding, d: Finding, key: string)
    requires Key(a) == Key(b) != Key(d) && Weight(a) == Weight(b)
    ensures key == Key(a) ==> Weights([a, b, d], key) == [Weight(a), Weight(a)]
    ensures key == Key(d) ==> Weights([a, b, d], key) == [Weight(d)]
  {
    hide Key, Weight, Weights;
    PairWeights(a, b, key);
    WeightsAppend([a, b], d, key);
    assert [a, b] + [d] == [a, b, d];
  }

  lemma PairWeights(a: Finding, b: Finding, key: string)
    requires Key(a) == Key(b) && Weight(a) == Weight(b)
    ensures Weights([a, b], key) == if Key(a) == key then [Weight(a), Weight(a)] else []
  {
    hide Key, Weight;
    assert [a, b] == [a] + [b] && [a] == [] + [a];
    WeightsAppend([], a, key);
    WeightsAppend([a], b, key);
  }

  lemma ExampleTotals()
    ensures Capped([25]) == 25 && Capped([25, 25]) == 50 && Capped([25, 25, 1]) == 2
  {
    CappedSnoc([], 25);
    CappedSnoc([25], 25);
    CappedSnoc([25, 25], 1);
    assert [] + [25] == [25] && [25] + [25] == [25, 25] && [25, 25] + [1] == [25, 25, 1];
  }

  /** Suppressing one informational finding can turn a passing merge into a block: the
      score goes from 27 to 75 and the label from low to high. */
  lemma SuppressionCanBlock()
    ensures var all, kept := [HIGH1, HIGH2, INFO, MEDIUM], [HIGH1, HIGH2, MEDIUM];
      && Interleaves(all, kept, [INFO])
      && Score(all) == 27 && RiskLabel(27, all) == LabelLow && !Decide("critical", 27, all).block
      && Score(kept) == 75 && RiskLabel(75, kept) == LabelHigh && Decide("critical", 75, kept).block
  {
    ExampleScores();
    ExampleSplit();
    hide Score, Interleaves;
    assert !Any([HIGH1, HIGH2, INFO, MEDIUM], Critical) && !Any([HIGH1, HIGH2, MEDIUM], Critical);
    assert "critical" != "off" && "critical" != "high" by { assert |"critical"| == 8 && |"off"| == 3 && |"high"| == 4; }
  }

  lemma ExampleSplit()
    ensures Interleaves([HIGH1, HIGH2, INFO, MEDIUM], [HIGH1, HIGH2, MEDIUM], [INFO])
  {
    hide Example;
    AllKept([HIGH1, HIGH2]);
    InterleavesRight([HIGH1, HIGH2], [HIGH1, HIGH2], [], INFO);
    InterleavesLeft([HIGH1, HIGH2] + [INFO], [HIGH1, HIGH2], [] + [INFO], MEDIUM);
    assert [HIGH1, HIGH2] + [INFO] + [MEDIUM] == [HIGH1, HIGH2, INFO, MEDIUM];
    assert [HIGH1, HIGH2] + [MEDIUM] == [HIGH1, HIGH2, MEDIUM] && [] + [INFO] == [INFO];
  }

  // ---------------------------------------------------------------- suppression reaches the best score

  /** Different findings of the list carry different fingerprints. */
  predicate DistinctPrints(sha: string -> string, fs: seq<Finding>) {
    forall i, j :: 0 <= i < j < |fs| ==> Fingerprint(sha, fs[i]) != Fingerprint(sha, fs[j])
  }

  lemma {:induction false} PrintsApart(sha: string -> string, all: seq<Finding>, a: seq<Finding>, b: seq<Finding>)
    requires Interleaves(all, a, b) && DistinctPrints(sha, all)
    ensures forall f, g :: f in a && g in b ==> Fingerprint(sha, f) != Fingerprint(sha, g)
    decreases |all|
  {
    hide Fingerprint;
    if all != [] {
      var n := |all| - 1;
      var init, last := all[..n], all[n];
      assert forall f :: f in init ==> Fingerprint(sha, f) != Fingerprint(sha, last);
      if a != [] && last == a[|a| - 1] && Interleaves(init, a[..|a| - 1], b) {
        PrintsApart(sha, init, a[..|a| - 1], b);
        InterleavesMembers(init, a[..|a| - 1], b);
        assert a == a[..|a| - 1] + [last];
      } else {
        PrintsApart(sha, init, a, b[..|b| - 1]);
        InterleavesMembers(init, a, b[..|b| - 1]);
        assert b == b[..|b| - 1] + [last];
      }
    }
  }

  /** The fingerprints whose suppression drops what the best score leaves out. */
  ghost function BestPrints(sha: string -> string, fs: seq<Finding>): set<string> {
    set f | f in BestDropped(fs) :: Fingerprint(sha, f)
  }

  /** When no two findings share a fingerprint, suppressing some fingerprints reaches
      the best score, so the conditions above are exact for suppression too. */
  lemma SuppressionReachesBest(sha: string -> string, fs: seq<Finding>)
    requires DistinctPrints(sha, fs)
    ensures Interleaves(fs, BestKept(fs), BestDropped(fs)) && Score(BestKept(fs)) == BestScore(fs)
    ensures forall f :: f in BestKept(fs) ==> Fingerprint(sha, f) !in BestPrints(sha, fs)
    ensures forall f :: f in BestDropped(fs) ==> Fingerprint(sha, f) in BestPrints(sha, fs)
  {
    hide Interleaves, Score, BestScore, BestKept, BestDropped, Fingerprint, DistinctPrints;
    BestSplits(fs);
    BestKeptBreakdown(fs);
    PrintsApart(sha, fs, BestKept(fs), BestDropped(fs));
  }

  // ---------------------------------------------------------------- the pipeline state

  /** The label by its thresholds; `critical` says that there is a critical finding. */
  predicate Labelled(rank: Label, score: int, critical: bool) {
    && (rank.LabelCritical? <==> critical)
    && (rank.LabelHigh? <==> !critical && score > 60)
    && (rank.LabelMedium? <==> !critical && 30 < score <= 60)
    && (rank.LabelLow? <==> !critical && score <= 30)
  }

  lemma LabelFits(score: int, fs: seq<Finding>)
    ensures Labelled(RiskLabel(score, fs), score, exists f :: f in fs && f.severity == Critical)
  {
  }

  class PipelineState {
    const sha: string -> string
    const mergeBlock: string
    var findings: seq<Finding>
    var suppressedFindings: seq<Finding>
    var riskScore: int
    var riskLabel: Label
    var resultFindings: seq<Finding>
    var resultScore: int
    var resultLabel: Label

    constructor (sha: string -> string, mergeBlock: string, findings: seq<Finding>)
      ensures this.sha == sha && this.mergeBlock == mergeBlock && this.findings == findings
      ensures suppressedFindings == [] && riskScore == 0 && riskLabel == LabelLow
    {
      this.sha, this.mergeBlock, this.findings := sha, mergeBlock, findings;
      suppressedFindings, riskScore, riskLabel := [], 0, LabelLow;
      resultFindings, resultScore, resultLabel := findings, 0, LabelLow;
    }

    /** `apply_suppression`: exactly the findings reported often enough go, in order,
        to the suppressed ones. Nothing is written when there is nothing to drop. */
    method ApplySuppression(feedback: seq<Feedback>) returns (ghost dropped: seq<Finding>)
      modifies this`findings, this`suppressedFindings, this`resultFindings
      ensures Interleaves(old(findings), findings, dropped)
      ensures suppressedFindings == old(suppressedFindings) + dropped
      ensures forall f :: f in findings ==> !ThreeReports(feedback, Fingerprint(sha, f))
      ensures forall f :: f in dropped ==> ThreeReports(feedback, Fingerprint(sha, f))
      ensures resultFindings == if dropped == [] then old(resultFindings) else findings
    {
      hide Fingerprint, IsSuppressed, ThreeReports;
      forall fp ensures IsSuppressed(feedback, fp) <==> ThreeReports(feedback, fp) {
        SuppressedExactly(feedback, fp);
      }
      dropped := [];
      AllKept(findings);
      var suppressed := set f | f in findings && IsSuppressed(feedback, Fingerprint(sha, f)) :: Fingerprint(sha, f);
      if suppressed == {} {
        forall f | f in findings ensures !IsSuppressed(feedback, Fingerprint(sha, f)) {
          assert Fingerprint(sha, f) !in suppressed;
        }
        return;
      }
      var kept, gone := SuppressFindings(sha, findings, suppressed);
      InterleavesMembers(findings, kept, gone);
      assert gone != [] by {
        var f :| f in findings && IsSuppressed(feedback, Fingerprint(sha, f));
        assert Fingerprint(sha, f) in suppressed;
        assert f in gone;
      }
      dropped := gone;
      findings := kept;
      suppressedFindings := suppressedFindings + gone;
      resultFindings := kept;
    }

    /** `compute_risk_score`. */
    method ComputeRiskScore()
      modifies this`riskScore, this`riskLabel, this`resultScore, this`resultLabel, this`resultFindings
      ensures riskScore == resultScore == Score(findings)
      ensures exists totals :: KeyedByReason(findings, totals) && riskScore == Min(SumValues(totals), 100)
      ensures 0 <= riskScore <= 100
      ensures riskLabel == resultLabel == RiskLabel(riskScore, findings)
      ensures Labelled(riskLabel, riskScore, exists f :: f in findings && f.severity == Critical)
      ensures resultFindings == findings
    {
      hide KeyedByReason, Breakdown, IsMinPlus, Weights, Keys, SumValues;
      var breakdown := RiskBreakdown(findings);
      var sum := SumOf(breakdown);
      var score := Min(sum, 100);
      LabelFits(score, findings);
      hide RiskLabel, Labelled;
      riskScore := score;
      riskLabel := RiskLabel(score, findings);
      resultScore := score;
      resultLabel := riskLabel;
      resultFindings := findings;
    }

    /** `decide`. */
    method DecideMerge() returns (d: Decision)
      ensures d == Decide(mergeBlock, riskScore, findings)
      ensures d.block <==> mergeBlock != "off"
                           && ((exists f :: f in findings && f.severity == Critical)
                               || (mergeBlock == "high" && exists f :: f in findings && f.severity == High)
                               || riskScore > 60)
      ensures d.state == if d.block then Failure else Success
      ensures d.reason.Passed? <==> !d.block
      ensures d.reason.CriticalFound? ==> exists f :: f in findings && f.severity == Critical
      ensures d.reason.HighFound? ==> !exists f :: f in findings && f.severity == Critical
      ensures d.reason.ScoreOf100? ==> d.reason.score == riskScore > 60
    {
      var critical := Any(findings, Critical);
      var high := Any(findings, High);
      var block, reason := false, Passed;
      if mergeBlock == "off" {
        block := false;
      } else if critical {
        block, reason := true, CriticalFound;
      } else if mergeBlock == "high" && high {
        block, reason := true, HighFound;
      } else if riskScore > 60 {
        block, reason := true, ScoreOf100(riskScore);
      }
      d := Decision(block, if block then Failure else Success, reason);
    }

    /** The last stages run together: whatever team feedback drops, the score, the label
        and the decision stay within those of the best score of the findings; when their
        own score is the best, feedback can only lower the score and the label and only
        unblock the merge. */
    method Gate(feedback: seq<Feedback>) returns (d: Decision)
      modifies this
      ensures forall f :: f in findings <==> f in old(findings) && !ThreeReports(feedback, Fingerprint(sha, f))
      ensures riskScore == Score(findings) && riskLabel == RiskLabel(riskScore, findings)
      ensures d == Decide(mergeBlock, riskScore, findings)
      ensures riskScore <= BestScore(old(findings))
      ensures riskLabel.Rank() <= RiskLabel(BestScore(old(findings)), old(findings)).Rank()
      ensures d.block ==> Decide(mergeBlock, BestScore(old(findings)), old(findings)).block
    {
      ghost var all := findings;
      ghost var dropped := ApplySuppression(feedback);
      InterleavesMembers(all, findings, dropped);
      ComputeRiskScore();
      d := DecideMerge();
      DroppingBounded(all, findings, dropped, mergeBlock);
    }
  }
}
