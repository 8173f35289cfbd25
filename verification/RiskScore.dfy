/** The risk score and its label (aegis/pipeline/risk_score.py). */
module RiskScore {
  import opened Numbers
  import opened Schemas

  // The score is the sum, cut at 100, of totals per key, each under a cap that follows
  // the current finding's weight.

  const CWE_WEIGHTS: map<string, nat> := map[
    "CWE-89" := 40, "CWE-798" := 35, "CWE-79" := 30, "CWE-94" := 35, "CWE-78" := 35,
    "CWE-918" := 35, "CWE-22" := 25, "CWE-502" := 30, "CWE-321" := 30, "CWE-1395" := 15]

  function SeverityWeight(s: Severity): nat {
    match s
    case Critical => 40
    case High => 25
    case Medium => 10
    case Low => 5
    case Info => 1
  }

  function Weight(f: Finding): nat {
    if f.cwe.Some? && f.cwe.value in CWE_WEIGHTS then CWE_WEIGHTS[f.cwe.value]
    else if f.ruleId == Some("secret:high-entropy") then 20
    else SeverityWeight(f.severity)
  }

  function Key(f: Finding): string {
    Or(f.cwe, Or(f.ruleId, SeverityName(f.severity)))
  }

  function Keys(fs: seq<Finding>): set<string> {
    set f | f in fs :: Key(f)
  }

  /** The weights of the findings under one key, in order. */
  function Weights(fs: seq<Finding>, key: string): seq<nat> {
    if fs == [] then []
    else Weights(fs[..|fs| - 1], key)
         + (if Key(fs[|fs| - 1]) == key then [Weight(fs[|fs| - 1])] else [])
  }

  /** The total one key reaches. */
  function Capped(ws: seq<nat>): nat {
    if ws == [] then 0
    else var w := ws[|ws| - 1]; Min(Capped(ws[..|ws| - 1]) + w, 2 * w)
  }

  function Sum(ws: seq<nat>): nat {
    if ws == [] then 0 else Sum(ws[..|ws| - 1]) + ws[|ws| - 1]
  }

  /** The cap the i-th weight sets, plus all that comes later. */
  function CapFrom(ws: seq<nat>, i: nat): nat
    requires i < |ws|
  {
    2 * ws[i] + Sum(ws[i + 1..])
  }

  /** `t` is the least of the plain sum and of the caps. */
  ghost predicate IsMinPlus(t: nat, ws: seq<nat>) {
    && t <= Sum(ws)
    && (forall i :: 0 <= i < |ws| ==> t <= CapFrom(ws, i))
    && (t == Sum(ws) || exists i :: 0 <= i < |ws| && t == CapFrom(ws, i))
  }

  lemma CapFromSnoc(ws: seq<nat>, w: nat, i: nat)
    requires i < |ws|
    ensures CapFrom(ws + [w], i) == CapFrom(ws, i) + w
  {
    assert (ws + [w])[i + 1..] == ws[i + 1..] + [w];
    assert (ws[i + 1..] + [w])[..|ws| - i - 1] == ws[i + 1..];
  }

  lemma MinPlusSnoc(t: nat, ws: seq<nat>, w: nat)
    requires IsMinPlus(t, ws)
    ensures IsMinPlus(Min(t + w, 2 * w), ws + [w])
  {
    var all := ws + [w];
    assert all[..|ws|] == ws;
    assert all[|ws| + 1..] == [];
    assert CapFrom(all, |ws|) == 2 * w;
    assert Sum(all) == Sum(ws) + w;
    hide Sum, CapFrom;
    forall i | 0 <= i < |ws| ensures CapFrom(all, i) == CapFrom(ws, i) + w {
      CapFromSnoc(ws, w, i);
    }
  }

  lemma {:induction false} CappedIsMinPlus(ws: seq<nat>)
    ensures IsMinPlus(Capped(ws), ws)
  {
    if ws != [] {
      var init := ws[..|ws| - 1];
      CappedIsMinPlus(init);
      MinPlusSnoc(Capped(init), init, ws[|ws| - 1]);
      hide IsMinPlus;
      assert ws == init + [ws[|ws| - 1]];
    }
  }

  /** A key's total lies between the last weight and twice the last weight. */
  lemma CappedBounds(ws: seq<nat>)
    requires ws != []
    ensures ws[|ws| - 1] <= Capped(ws) <= 2 * ws[|ws| - 1]
  {
  }

  /** One more finding under a key keeps the key's total from falling if and only if
      the total so far is at most the new finding's cap. */
  lemma AppendRaisesExactly(ws: seq<nat>, w: nat)
    ensures Capped(ws + [w]) >= Capped(ws) <==> Capped(ws) <= 2 * w
  {
    assert (ws + [w])[..|ws|] == ws;
  }

  function Breakdown(fs: seq<Finding>): map<string, nat> {
    map k | k in Keys(fs) :: Capped(Weights(fs, k))
  }

  // ---------------------------------------------------------------- what a key stands for

  predicate HasCwe(f: Finding, cwe: string) {
    f.cwe == Some(cwe)
  }

  /** Rules count for findings without a CWE only. */
  predicate HasRule(f: Finding, rule: string) {
    Blank(f.cwe) && f.ruleId == Some(rule)
  }

  /** Severities count for findings without a CWE and without a rule. */
  predicate HasSeverity(f: Finding, name: string) {
    Blank(f.cwe) && Blank(f.ruleId)
    && name == match f.severity
               case Info => "info"
               case Low => "low"
               case Medium => "medium"
               case High => "high"
               case Critical => "critical"
  }

  function ByCwe(cwe: string): Finding -> bool {
    f => HasCwe(f, cwe)
  }

  function ByRule(rule: string): Finding -> bool {
    f => HasRule(f, rule)
  }

  function BySeverity(name: string): Finding -> bool {
    f => HasSeverity(f, name)
  }

  /** The weights of some of the findings, in order. */
  function WeightsWhere(fs: seq<Finding>, p: Finding -> bool): seq<nat> {
    if fs == [] then []
    else WeightsWhere(fs[..|fs| - 1], p) + (if p(fs[|fs| - 1]) then [Weight(fs[|fs| - 1])] else [])
  }

  /** No finding of the list counts under the same text for another reason. */
  ghost predicate Unmixed(fs: seq<Finding>, key: string, p: Finding -> bool) {
    forall f :: f in fs && (HasCwe(f, key) || HasRule(f, key) || HasSeverity(f, key)) ==> p(f)
  }

  lemma KeyReasons(f: Finding, key: string)
    requires key != ""
    ensures Key(f) == key <==> HasCwe(f, key) || HasRule(f, key) || HasSeverity(f, key)
  {
  }

  lemma {:induction false} WeightsAreWhere(fs: seq<Finding>, key: string, p: Finding -> bool)
    requires forall f :: f in fs ==> (Key(f) == key <==> p(f))
    ensures Weights(fs, key) == WeightsWhere(fs, p)
  {
    hide Key, Weight;
    if fs != [] {
      assert fs[|fs| - 1] in fs;
      WeightsAreWhere(fs[..|fs| - 1], key, p);
    }
  }

  /** The key's total is the min-plus value of the weights of exactly these findings. */
  ghost predicate TotalOf(fs: seq<Finding>, totals: map<string, nat>, key: string, p: Finding -> bool) {
    Unmixed(fs, key, p) && (exists f :: f in fs && p(f)) ==>
      key in totals && IsMinPlus(totals[key], WeightsWhere(fs, p))
  }

  lemma TotalByReason(fs: seq<Finding>, key: string, p: Finding -> bool)
    requires key != "" && forall f :: p(f) ==> HasCwe(f, key) || HasRule(f, key) || HasSeverity(f, key)
    ensures TotalOf(fs, Breakdown(fs), key, p)
  {
    hide Key, HasCwe, HasRule, HasSeverity, Capped, IsMinPlus, Weights, WeightsWhere;
    if Unmixed(fs, key, p) && exists f :: f in fs && p(f) {
      forall f | f in fs ensures Key(f) == key <==> p(f) {
        KeyReasons(f, key);
      }
      WeightsAreWhere(fs, key, p);
      BreakdownFacts(fs);
      var f :| f in fs && p(f);
      assert key in Keys(fs);
    }
  }

  /** A finding counts under its CWE, else under its rule, else under its severity, and
      each such text has a total of its own. */
  ghost predicate KeyedByReason(fs: seq<Finding>, totals: map<string, nat>) {
    && (forall cwe :: cwe != "" ==> TotalOf(fs, totals, cwe, ByCwe(cwe)))
    && (forall rule :: rule != "" ==> TotalOf(fs, totals, rule, ByRule(rule)))
    && (forall name :: name != "" ==> TotalOf(fs, totals, name, BySeverity(name)))
    && (forall key :: key in totals <==> key != "" && exists f :: f in fs && Reason(f, key))
  }

  predicate Reason(f: Finding, key: string) {
    HasCwe(f, key) || HasRule(f, key) || HasSeverity(f, key)
  }

  lemma KeyNotEmpty(f: Finding)
    ensures Key(f) != ""
  {
  }

  lemma ReasonKeys(fs: seq<Finding>, key: string)
    ensures key in Breakdown(fs) <==> key != "" && exists f :: f in fs && Reason(f, key)
  {
    hide Key, HasCwe, HasRule, HasSeverity, Capped, Weights;
    if key in Breakdown(fs) {
      var f :| f in fs && Key(f) == key;
      KeyNotEmpty(f);
      KeyReasons(f, key);
      assert Reason(f, key);
    }
    if key != "" && exists f :: f in fs && Reason(f, key) {
      var f :| f in fs && Reason(f, key);
      KeyReasons(f, key);
      assert key in Keys(fs);
    }
  }

  lemma BreakdownByReason(fs: seq<Finding>)
    ensures KeyedByReason(fs, Breakdown(fs))
  {
    hide TotalOf, Breakdown, HasCwe, HasRule, HasSeverity, Reason;
    forall key ensures key in Breakdown(fs) <==> key != "" && exists f :: f in fs && Reason(f, key) {
      ReasonKeys(fs, key);
    }
    forall cwe | cwe != "" ensures TotalOf(fs, Breakdown(fs), cwe, ByCwe(cwe)) {
      TotalByReason(fs, cwe, ByCwe(cwe));
    }
    forall rule | rule != "" ensures TotalOf(fs, Breakdown(fs), rule, ByRule(rule)) {
      TotalByReason(fs, rule, ByRule(rule));
    }
    forall name | name != "" ensures TotalOf(fs, Breakdown(fs), name, BySeverity(name)) {
      TotalByReason(fs, name, BySeverity(name));
    }
  }

  /** `risk_breakdown`. The findings under other keys do not matter to a key's total. */
  method RiskBreakdown(fs: seq<Finding>) returns (totals: map<string, nat>)
    ensures totals == Breakdown(fs)
    ensures totals.Keys == Keys(fs)
    ensures forall k :: k in totals ==> IsMinPlus(totals[k], Weights(fs, k))
    ensures KeyedByReason(fs, totals)
  {
    BreakdownByReason(fs);
    hide Key, Weight, Weights, Capped, IsMinPlus, KeyedByReason;
    totals := map[];
    assert totals == Breakdown(fs[..0]);
    hide Breakdown;
    for i := 0 to |fs|
      invariant totals == Breakdown(fs[..i])
    {
      var f := fs[i];
      var key, weight := Key(f), Weight(f);
      var cap := if weight * 2 >= weight then weight * 2 else weight;
      var before := if key in totals then totals[key] else 0;
      BreakdownStep(fs, i);
      totals := totals[key := Min(before + weight, cap)];
    }
    assert fs[..|fs|] == fs;
    BreakdownFacts(fs);
  }

  lemma BreakdownFacts(fs: seq<Finding>)
    ensures Breakdown(fs).Keys == Keys(fs)
    ensures forall k :: k in Breakdown(fs) ==> IsMinPlus(Breakdown(fs)[k], Weights(fs, k))
  {
    hide Capped, IsMinPlus;
    forall k | k in Breakdown(fs) ensures IsMinPlus(Breakdown(fs)[k], Weights(fs, k)) {
      CappedIsMinPlus(Weights(fs, k));
    }
  }

  lemma {:induction false} NoWeights(fs: seq<Finding>, key: string)
    ensures key !in Keys(fs) <==> Weights(fs, key) == []
  {
    hide Key, Weight;
    if fs != [] {
      var init := fs[..|fs| - 1];
      NoWeights(init, key);
      assert fs == init + [fs[|fs| - 1]];
      assert forall f :: f in fs <==> f in init || f == fs[|fs| - 1];
      if key in Keys(init) {
        var f :| f in init && Key(f) == key;
        assert f in fs;
      }
      if Key(fs[|fs| - 1]) == key {
        assert fs[|fs| - 1] in fs;
      }
    }
  }

  lemma KeysSnoc(fs: seq<Finding>, i: nat)
    requires i < |fs|
    ensures Keys(fs[..i + 1]) == Keys(fs[..i]) + {Key(fs[i])}
  {
    hide Key;
    assert fs[..i + 1] == fs[..i] + [fs[i]];
    assert forall f :: f in fs[..i + 1] <==> f in fs[..i] || f == fs[i];
  }

  lemma WeightsSnoc(fs: seq<Finding>, i: nat, key: string)
    requires i < |fs|
    ensures Weights(fs[..i + 1], key) == Weights(fs[..i], key) + (if Key(fs[i]) == key then [Weight(fs[i])] else [])
  {
    hide Key, Weight;
    assert fs[..i + 1][..i] == fs[..i];
  }

  lemma BreakdownStep(fs: seq<Finding>, i: nat)
    requires i < |fs|
    ensures var before, after := Breakdown(fs[..i]), Breakdown(fs[..i + 1]);
      var key, w := Key(fs[i]), Weight(fs[i]);
      after == before[key := Min((if key in before then before[key] else 0) + w, 2 * w)]
  {
    hide Key, Keys, Weight, Weights, Capped, Min;
    var before, after := Breakdown(fs[..i]), Breakdown(fs[..i + 1]);
    var key, w := Key(fs[i]), Weight(fs[i]);
    KeysSnoc(fs, i);
    NoWeights(fs[..i], key);
    WeightsSnoc(fs, i, key);
    CappedSnoc(Weights(fs[..i], key), w);
    forall k | k in after && k != key ensures k in before && after[k] == before[k] {
      WeightsSnoc(fs, i, k);
      assert Weights(fs[..i], k) + [] == Weights(fs[..i], k);
    }
  }

  lemma CappedSnoc(ws: seq<nat>, w: nat)
    ensures Capped(ws + [w]) == Min(Capped(ws) + w, 2 * w)
    ensures Capped([]) == 0
  {
    assert (ws + [w])[..|ws|] == ws;
  }

  // ---------------------------------------------------------------- the sum of the totals

  ghost function SumValues(m: map<string, nat>): nat
    decreases |m|
  {
    if m == map[] then 0 else var k :| k in m; m[k] + SumValues(m - {k})
  }

  lemma {:induction false} SumWithout(m: map<string, nat>, k: string)
    requires k in m
    ensures SumValues(m) == m[k] + SumValues(m - {k})
    decreases |m|
  {
    var j :| j in m && SumValues(m) == m[j] + SumValues(m - {j});
    if j != k {
      SumWithout(m - {j}, k);
      SumWithout(m - {k}, j);
      assert m - {j} - {k} == m - {k} - {j};
    }
  }

  lemma {:induction false} SumMonotone(a: map<string, nat>, b: map<string, nat>)
    requires a.Keys <= b.Keys && forall k :: k in a ==> a[k] <= b[k]
    ensures SumValues(a) <= SumValues(b)
    decreases |b|
  {
    if b != map[] {
      var k :| k in b;
      SumWithout(b, k);
      SumMonotone(a - {k}, b - {k});
      if k in a {
        SumWithout(a, k);
      } else {
        assert a - {k} == a;
      }
    }
  }

  /** `sum(breakdown.values())`. */
  method SumOf(m: map<string, nat>) returns (sum: nat)
    ensures sum == SumValues(m)
  {
    sum := 0;
    var rest := m;
    while rest != map[]
      invariant sum + SumValues(rest) == SumValues(m)
      decreases |rest|
    {
      var k :| k in rest;
      SumWithout(rest, k);
      sum := sum + rest[k];
      rest := rest - {k};
    }
  }

  ghost function Score(fs: seq<Finding>): nat {
    Min(SumValues(Breakdown(fs)), 100)
  }

  // ---------------------------------------------------------------- labels

  predicate Any(fs: seq<Finding>, s: Severity) {
    exists f :: f in fs && f.severity == s
  }

  datatype Label = LabelLow | LabelMedium | LabelHigh | LabelCritical {
    function Rank(): nat {
      match this
      case LabelLow => 0
      case LabelMedium => 1
      case LabelHigh => 2
      case LabelCritical => 3
    }
  }

  function RiskLabel(score: int, fs: seq<Finding>): Label {
    if Any(fs, Critical) then LabelCritical
    else if score > 60 then LabelHigh
    else if score > 30 then LabelMedium
    else LabelLow
  }

  // ---------------------------------------------------------------- one finding

  /** What a finding weighs, seen in the score of it alone. */
  lemma SingleScores(f: Finding)
    ensures f.cwe == Some("CWE-89") ==> Score([f]) == 40
    ensures f.cwe in {Some("CWE-798"), Some("CWE-94"), Some("CWE-78"), Some("CWE-918")} ==> Score([f]) == 35
    ensures f.cwe in {Some("CWE-79"), Some("CWE-502"), Some("CWE-321")} ==> Score([f]) == 30
    ensures f.cwe == Some("CWE-22") ==> Score([f]) == 25
    ensures f.cwe == Some("CWE-1395") ==> Score([f]) == 15
    ensures Unlisted(f) && f.ruleId == Some("secret:high-entropy") ==> Score([f]) == 20
    ensures Unlisted(f) && f.ruleId != Some("secret:high-entropy") ==>
              Score([f]) == match f.severity
                            case Critical => 40
                            case High => 25
                            case Medium => 10
                            case Low => 5
                            case Info => 1
  {
    SingleScore(f);
    hide Score;
    assert Unlisted(f) <==> f.cwe.None? || f.cwe.value !in CWE_WEIGHTS;
  }

  predicate Unlisted(f: Finding) {
    f.cwe !in {Some("CWE-89"), Some("CWE-798"), Some("CWE-94"), Some("CWE-78"), Some("CWE-918"), Some("CWE-79"),
               Some("CWE-502"), Some("CWE-321"), Some("CWE-22"), Some("CWE-1395")}
  }

  lemma SingleScore(f: Finding)
    ensures Score([f]) == Weight(f) <= 40
  {
    assert Weight(f) <= 40;
    WeightsAppend([], f, Key(f));
    CappedSnoc([], Weight(f));
    hide Key, Weight, Capped, Weights, Score;
    assert [] + [f] == [f];
    assert f in [f];
    assert Keys([f]) == {Key(f)};
    OneKeyScore([f], Key(f));
  }

  // ---------------------------------------------------------------- key-determined weights

  /** Findings under one key have one weight. */
  ghost predicate WeightsDetermined(fs: seq<Finding>) {
    forall f, g :: f in fs && g in fs && Key(f) == Key(g) ==> Weight(f) == Weight(g)
  }

  function Count(fs: seq<Finding>, key: string): nat {
    |Weights(fs, key)|
  }

  lemma {:induction false} UniformCapped(ws: seq<nat>, w: nat)
    requires forall i :: 0 <= i < |ws| ==> ws[i] == w
    ensures Capped(ws) == w * Min(|ws|, 2)
  {
    if |ws| >= 1 {
      UniformCapped(ws[..|ws| - 1], w);
    }
  }

  lemma {:induction false} WeightsComeFrom(fs: seq<Finding>, key: string, i: nat)
    requires i < |Weights(fs, key)|
    ensures exists f :: f in fs && Key(f) == key && Weight(f) == Weights(fs, key)[i]
  {
    hide Key, Weight;
    var init, last := fs[..|fs| - 1], fs[|fs| - 1];
    assert last in fs;
    if i < |Weights(init, key)| {
      WeightsComeFrom(init, key, i);
      var f :| f in init && Key(f) == key && Weight(f) == Weights(init, key)[i];
      assert f in fs;
    }
  }

  /** When keys determine weights, a key contributes its weight at most twice. */
  lemma DeterminedTotal(fs: seq<Finding>, f: Finding)
    requires WeightsDetermined(fs) && f in fs
    ensures Key(f) in Breakdown(fs)
    ensures Breakdown(fs)[Key(f)] == Weight(f) * Min(Count(fs, Key(f)), 2)
  {
    hide Key, Weight, Capped;
    var ws := Weights(fs, Key(f));
    forall i | 0 <= i < |ws| ensures ws[i] == Weight(f) {
      WeightsComeFrom(fs, Key(f), i);
    }
    UniformCapped(ws, Weight(f));
  }

  lemma {:induction false} CountConcat(a: seq<Finding>, b: seq<Finding>, key: string)
    ensures Count(a + b, key) == Count(a, key) + Count(b, key)
  {
    hide Key, Weight;
    if b == [] {
      assert a + b == a;
    } else {
      CountConcat(a, b[..|b| - 1], key);
      assert (a + b)[..|a + b| - 1] == a + b[..|b| - 1];
    }
  }

  lemma WithoutFirst(a: seq<Finding>, b: seq<Finding>, x: Finding, b0: seq<Finding>, b1: seq<Finding>)
    requires multiset(a) == multiset(b) && a != [] && a[0] == x && b == b0 + ([x] + b1)
    ensures multiset(a[1..]) == multiset(b0 + b1)
  {
    assert a == [x] + a[1..];
    assert multiset(a[1..]) == multiset(a) - multiset{x};
    assert multiset(b0 + b1) == multiset(b) - multiset{x};
  }

  lemma {:induction false} CountPermuted(a: seq<Finding>, b: seq<Finding>, key: string)
    requires multiset(a) == multiset(b)
    ensures Count(a, key) == Count(b, key)
    decreases |a|
  {
    hide Key, Weight;
    if a == [] {
      assert multiset(b) == multiset{};
      assert b == [];
    } else {
      var x := a[0];
      assert x in multiset(a) && x in b;
      var j :| 0 <= j < |b| && b[j] == x;
      var b0, b1 := b[..j], b[j + 1..];
      assert a == [x] + a[1..];
      assert b == b0 + ([x] + b1);
      hide Count;
      CountConcat([x], a[1..], key);
      CountConcat(b0, [x] + b1, key);
      CountConcat([x], b1, key);
      CountConcat(b0, b1, key);
      WithoutFirst(a, b, x, b0, b1);
      CountPermuted(a[1..], b0 + b1, key);
    }
  }

  /** When keys determine weights, no reordering of the findings changes the breakdown
      or the score. */
  lemma PermutationInvariant(a: seq<Finding>, b: seq<Finding>)
    requires WeightsDetermined(a) && multiset(a) == multiset(b)
    ensures Breakdown(a) == Breakdown(b) && Score(a) == Score(b)
  {
    hide Key, Weight, Capped, Weights, Min;
    assert forall f :: f in a <==> f in multiset(a);
    assert forall f :: f in b <==> f in multiset(b);
    assert forall f :: f in a <==> f in b;
    assert Keys(a) == Keys(b);
    forall k | k in Keys(a) ensures Breakdown(a)[k] == Breakdown(b)[k] {
      var f :| f in a && Key(f) == k;
      DeterminedTotal(a, f);
      DeterminedTotal(b, f);
      CountPermuted(a, b, k);
    }
    assert Breakdown(a) == Breakdown(b);
  }

  // ---------------------------------------------------------------- mixed weights

  /** No reordering of the findings changes the breakdown. */
  ghost predicate OrderFree(fs: seq<Finding>) {
    forall gs: seq<Finding> :: multiset(gs) == multiset(fs) ==> Breakdown(gs) == Breakdown(fs)
  }

  lemma WeightsAppend(fs: seq<Finding>, f: Finding, key: string)
    ensures Weights(fs + [f], key) == Weights(fs, key) + (if Key(f) == key then [Weight(f)] else [])
  {
    hide Key, Weight;
    assert (fs + [f])[..|fs|] == fs;
  }

  /** The heavier of two findings under one key counts for more when it comes last. */
  lemma HeavierLast(rest: seq<Finding>, light: Finding, heavy: Finding)
    requires Key(light) == Key(heavy) && Weight(light) < Weight(heavy)
    ensures var k := Key(light);
      Capped(Weights(rest + [heavy] + [light], k)) < Capped(Weights(rest + [light] + [heavy], k))
  {
    var k, ws := Key(light), Weights(rest, Key(light));
    var wl, wh := Weight(light), Weight(heavy);
    WeightsAppend(rest, light, k);
    WeightsAppend(rest, heavy, k);
    WeightsAppend(rest + [light], heavy, k);
    WeightsAppend(rest + [heavy], light, k);
    hide Key, Weight, Weights;
    CappedBounds(ws + [wl]);
    CappedBounds(ws + [wh] + [wl]);
    CappedSnoc(ws + [wl], wh);
  }

  lemma TakeOut(fs: seq<Finding>, f: Finding) returns (rest: seq<Finding>)
    requires f in fs
    ensures multiset(fs) == multiset(rest) + multiset{f}
  {
    var i :| 0 <= i < |fs| && fs[i] == f;
    rest := fs[..i] + fs[i + 1..];
    assert fs == fs[..i] + ([f] + fs[i + 1..]);
  }

  lemma TakeTwoOut(fs: seq<Finding>, f: Finding, g: Finding) returns (rest: seq<Finding>)
    requires f in fs && g in fs && f != g
    ensures multiset(rest + [f] + [g]) == multiset(rest + [g] + [f]) == multiset(fs)
    ensures f in rest + [f] + [g] && f in rest + [g] + [f]
  {
    var without := TakeOut(fs, g);
    assert f in multiset(fs);
    assert f in multiset(without);
    rest := TakeOut(without, f);
  }

  lemma BreakdownAt(fs: seq<Finding>, f: Finding)
    requires f in fs
    ensures Key(f) in Breakdown(fs) && Breakdown(fs)[Key(f)] == Capped(Weights(fs, Key(f)))
  {
    hide Key, Weights, Capped;
  }

  lemma MixedIsOrdered(fs: seq<Finding>, light: Finding, heavy: Finding)
    requires light in fs && heavy in fs && Key(light) == Key(heavy) && Weight(light) < Weight(heavy)
    ensures !OrderFree(fs)
  {
    var rest := TakeTwoOut(fs, light, heavy);
    var a, b := rest + [light] + [heavy], rest + [heavy] + [light];
    HeavierLast(rest, light, heavy);
    hide Key, Weight, Weights, Capped, Breakdown, OrderFree;
    BreakdownAt(a, light);
    BreakdownAt(b, light);
    if OrderFree(fs) {
      OrderFreeAt(fs, a);
      OrderFreeAt(fs, b);
    }
  }

  lemma OrderFreeAt(fs: seq<Finding>, gs: seq<Finding>)
    requires OrderFree(fs) && multiset(gs) == multiset(fs)
    ensures Breakdown(gs) == Breakdown(fs)
  {
    hide Breakdown;
  }

  /** The order of the findings does not matter if and only if keys determine weights. */
  lemma OrderMattersExactly(fs: seq<Finding>)
    ensures OrderFree(fs) <==> WeightsDetermined(fs)
  {
    if WeightsDetermined(fs) {
      forall gs | multiset(gs) == multiset(fs) ensures Breakdown(gs) == Breakdown(fs) {
        PermutationInvariant(fs, gs);
      }
    } else {
      var f, g :| f in fs && g in fs && Key(f) == Key(g) && Weight(f) != Weight(g);
      if Weight(f) < Weight(g) {
        MixedIsOrdered(fs, f, g);
      } else {
        MixedIsOrdered(fs, g, f);
      }
    }
  }

  function Sample(severity: Severity): Finding {
    Finding("a.py", 1, None, Some("CWE-0"), None, severity, 1.0, Judge, "t", "r", None, None, false)
  }

  /** With mixed weights under one key, one more finding can lower the score, and the
      order of the findings matters. */
  lemma MixedWeightsMisbehave()
    ensures Score(Samples([Critical])) == 40
    ensures Score(Samples([Critical, Info])) == 2
    ensures Score(Samples([Info, Critical])) == 41
  {
    hide Score, Samples, Capped;
    SampleScore([Critical], [40]);
    SampleScore([Critical, Info], [40, 1]);
    SampleScore([Info, Critical], [1, 40]);
    CappedSnoc([], 40);
    CappedSnoc([40], 1);
    CappedSnoc([], 1);
    CappedSnoc([1], 40);
    assert [] + [40] == [40] && [40] + [1] == [40, 1] && [] + [1] == [1] && [1] + [40] == [1, 40];
  }

  function Samples(ss: seq<Severity>): seq<Finding> {
    seq(|ss|, i requires 0 <= i < |ss| => Sample(ss[i]))
  }

  lemma SampleFacts(s: Severity)
    ensures Key(Sample(s)) == "CWE-0" && Weight(Sample(s)) == SeverityWeight(s)
  {
    assert "CWE-0"[4] == '0' && |"CWE-0"| == 5;
  }

  lemma SampleScore(ss: seq<Severity>, ws: seq<nat>)
    requires 0 < |ss| == |ws|
    requires forall i :: 0 <= i < |ss| ==> ws[i] == SeverityWeight(ss[i])
    ensures Score(Samples(ss)) == Min(Capped(ws), 100)
  {
    hide Capped, Key, Weight, Sample, SeverityWeight, Score, Keys, Weights;
    var fs := Samples(ss);
    forall i | 0 <= i < |fs| ensures Key(fs[i]) == "CWE-0" && Weight(fs[i]) == ws[i] {
      SampleFacts(ss[i]);
    }
    SampleWeights(fs, ws);
    SampleKeys(fs);
    OneKeyScore(fs, "CWE-0");
  }

  lemma SampleKeys(fs: seq<Finding>)
    requires fs != [] && forall i :: 0 <= i < |fs| ==> Key(fs[i]) == "CWE-0"
    ensures Keys(fs) == {"CWE-0"}
  {
    hide Key;
    assert fs[0] in fs;
  }

  lemma OneKeyScore(fs: seq<Finding>, key: string)
    requires Keys(fs) == {key}
    ensures Score(fs) == Min(Capped(Weights(fs, key)), 100)
  {
    hide Keys, Key, Capped, Weights, Min;
    assert Breakdown(fs) == map[key := Capped(Weights(fs, key))];
    SumWithout(Breakdown(fs), key);
    assert Breakdown(fs) - {key} == map[];
  }

  lemma {:induction false} SampleWeights(fs: seq<Finding>, ws: seq<nat>)
    requires |fs| == |ws| && forall i :: 0 <= i < |fs| ==> Key(fs[i]) == "CWE-0" && Weight(fs[i]) == ws[i]
    ensures Weights(fs, "CWE-0") == ws
  {
    hide Key, Weight;
    if fs != [] {
      SampleWeights(fs[..|fs| - 1], ws[..|ws| - 1]);
      assert ws == ws[..|ws| - 1] + [ws[|ws| - 1]];
    }
  }
}
