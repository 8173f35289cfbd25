/** `_fallback_consolidate` (aegis/pipeline/llm_stage.py): one finding per key when
    the judge model is unavailable. */
module Consolidate {
  import opened Schemas
  import opened Text
  import opened Sorting
  import opened DiffText

  const THRESHOLD: real := 0.80

  /** Python's order on strings. */
  predicate StrLe(a: string, b: string) {
    a == "" || (b != "" && (a[0] < b[0] || (a[0] == b[0] && StrLe(a[1..], b[1..]))))
  }

  function Cwe(f: Finding): string {
    Or(f.cwe, "")
  }

  /** The sort key: file, line, CWE, then falling confidence. */
  predicate Before(x: Finding, y: Finding) {
    if x.file != y.file then StrLe(x.file, y.file)
    else if x.line != y.line then x.line < y.line
    else if Cwe(x) != Cwe(y) then StrLe(Cwe(x), Cwe(y))
    else x.confidence >= y.confidence
  }

  function Key(f: Finding): string {
    f.file + ":" + Decimal(f.line) + ":" + Or(f.cwe, f.title)
  }

  predicate Candidate(f: Finding) {
    f.confidence >= THRESHOLD
  }

  /** The first candidate of each key not yet seen. */
  function Pick(ordered: seq<Finding>, seen: set<string>): seq<Finding> {
    if ordered == [] then []
    else
      var f := ordered[0];
      if Key(f) in seen || !Candidate(f) then Pick(ordered[1..], seen)
      else [f] + Pick(ordered[1..], seen + {Key(f)})
  }

  function Consolidated(fs: seq<Finding>): seq<Finding> {
    Pick(Sort(Before, fs), {})
  }

  /** One finding for each key under which some finding has confidence 0.80 or more, none
      for other keys. It comes no later in the order than any such finding of its key, and
      the result is in order. */
  ghost predicate OnePerKey(fs: seq<Finding>, out: seq<Finding>) {
    && (forall f :: f in out ==> f in fs && f.confidence >= 0.80)
    && (forall i, j :: 0 <= i < j < |out| ==> Key(out[i]) != Key(out[j]))
    && (forall f :: f in fs && f.confidence >= 0.80 ==> exists g :: g in out && Key(g) == Key(f))
    && (forall f, g :: f in fs && f.confidence >= 0.80 && g in out && Key(f) == Key(g) ==> InOrder(g, f))
    && (forall i, j :: 0 <= i < j < |out| ==> InOrder(out[i], out[j]))
  }

  /** `_fallback_consolidate`: exactly one finding for each key that has a candidate,
      in sort order; the survivor sorts no later than any candidate of its key. */
  method FallbackConsolidate(fs: seq<Finding>) returns (out: seq<Finding>)
    ensures out == Consolidated(fs)
    ensures OnePerKey(fs, out)
  {
    hide Before, Key, Candidate, OnePerKey;
    var seen: set<string> := {};
    out := [];
    var ordered := Sort(Before, fs);
    for k := 0 to |ordered|
      invariant out + Pick(ordered[k..], seen) == Consolidated(fs)
    {
      var f := ordered[k];
      assert ordered[k..][0] == f && ordered[k..][1..] == ordered[k + 1..];
      var key := Key(f);
      if key in seen || !Candidate(f) {
        continue;
      }
      assert out + ([f] + Pick(ordered[k + 1..], seen + {key})) == (out + [f]) + Pick(ordered[k + 1..], seen + {key});
      seen := seen + {key};
      out := out + [f];
    }
    ConsolidatedOnePerKey(fs);
  }

  // ---------------------------------------------------------------- the order

  /** By file, then by line, then by CWE, and under one CWE the more confident first. */
  predicate InOrder(x: Finding, y: Finding) {
    var cweX, cweY := if Blank(x.cwe) then "" else x.cwe.value, if Blank(y.cwe) then "" else y.cwe.value;
    && StrLe(x.file, y.file)
    && (x.file == y.file ==> x.line <= y.line)
    && (x.file == y.file && x.line == y.line ==> StrLe(cweX, cweY))
    && (x.file == y.file && x.line == y.line && cweX == cweY ==> x.confidence >= y.confidence)
  }

  lemma InOrderExactly()
    ensures forall x, y :: Before(x, y) <==> InOrder(x, y)
  {
    forall x, y ensures Before(x, y) <==> InOrder(x, y) {
      StrLeOrder(x.file, y.file);
      StrLeOrder(Cwe(x), Cwe(y));
    }
  }

  /** Python's order: a prefix comes first, and else the first character that differs
      decides. */
  lemma {:induction false} StrLeExactly(a: string, b: string)
    ensures StrLe(a, b) <==>
              a <= b || exists i :: 0 <= i < |a| && i < |b| && a[..i] == b[..i] && a[i] < b[i]
  {
    if a != "" && b != "" {
      StrLeExactly(a[1..], b[1..]);
      assert a == [a[0]] + a[1..] && b == [b[0]] + b[1..];
      if a[0] < b[0] {
        assert a[..0] == b[..0];
      } else if a[0] == b[0] {
        DiffersLater(a, b);
      } else {
        assert forall i :: 0 < i < |a| && i < |b| ==> a[..i][0] != b[..i][0];
      }
    }
  }

  lemma DiffersLater(a: string, b: string)
    requires a != "" && b != "" && a[0] == b[0]
    ensures a <= b <==> a[1..] <= b[1..]
    ensures (exists i :: 0 <= i < |a| && i < |b| && a[..i] == b[..i] && a[i] < b[i]) <==>
            exists i :: 0 <= i < |a[1..]| && i < |b[1..]| && a[1..][..i] == b[1..][..i] && a[1..][i] < b[1..][i]
  {
    assert a == [a[0]] + a[1..] && b == [b[0]] + b[1..];
    if i :| 0 <= i < |a| && i < |b| && a[..i] == b[..i] && a[i] < b[i] {
      assert i > 0 && a[1..][..i - 1] == a[..i][1..] == b[..i][1..] == b[1..][..i - 1];
      assert a[1..][i - 1] < b[1..][i - 1];
    }
    if i :| 0 <= i < |a[1..]| && i < |b[1..]| && a[1..][..i] == b[1..][..i] && a[1..][i] < b[1..][i] {
      assert a[..i + 1] == [a[0]] + a[1..][..i] && b[..i + 1] == [b[0]] + b[1..][..i];
      assert a[i + 1] < b[i + 1];
    }
  }

  lemma {:induction false} StrLeOrder(a: string, b: string)
    ensures StrLe(a, b) || StrLe(b, a)
    ensures StrLe(a, b) && StrLe(b, a) ==> a == b
    ensures StrLe(a, a)
  {
    if a != "" {
      StrLeOrder(a[1..], a[1..]);
      if b != "" {
        StrLeOrder(a[1..], b[1..]);
        assert a == [a[0]] + a[1..] && b == [b[0]] + b[1..];
      }
    }
  }

  lemma {:induction false} StrLeTransitive(a: string, b: string, c: string)
    requires StrLe(a, b) && StrLe(b, c)
    ensures StrLe(a, c)
  {
    if a != "" && a[0] == b[0] == c[0] {
      StrLeTransitive(a[1..], b[1..], c[1..]);
    }
  }

  lemma BeforeTransitive(x: Finding, y: Finding, z: Finding)
    requires Before(x, y) && Before(y, z)
    ensures Before(x, z)
  {
    StrLeOrder(x.file, y.file);
    StrLeOrder(y.file, z.file);
    StrLeOrder(Cwe(x), Cwe(y));
    StrLeOrder(Cwe(y), Cwe(z));
    hide Cwe;
    if StrLe(x.file, y.file) && StrLe(y.file, z.file) {
      StrLeTransitive(x.file, y.file, z.file);
    }
    if StrLe(Cwe(x), Cwe(y)) && StrLe(Cwe(y), Cwe(z)) {
      StrLeTransitive(Cwe(x), Cwe(y), Cwe(z));
    }
    hide StrLe;
  }

  lemma BeforeTotal()
    ensures TotalPreorder(Before)
  {
    forall x, y ensures Before(x, y) || Before(y, x) {
      StrLeOrder(x.file, y.file);
      StrLeOrder(Cwe(x), Cwe(y));
    }
    forall x, y, z | Before(x, y) && Before(y, z) ensures Before(x, z) {
      BeforeTransitive(x, y, z);
    }
    hide Before;
  }

  // ---------------------------------------------------------------- what survives

  lemma {:induction false} PickDistinct(ordered: seq<Finding>, seen: set<string>)
    ensures var out := Pick(ordered, seen);
      && (forall f :: f in out ==> f in ordered && Candidate(f) && Key(f) !in seen)
      && (forall i, j :: 0 <= i < j < |out| ==> Key(out[i]) != Key(out[j]))
  {
    hide Key, Candidate;
    if ordered != [] {
      var f, rest := ordered[0], ordered[1..];
      assert ordered == [f] + rest;
      if Key(f) in seen || !Candidate(f) {
        PickDistinct(rest, seen);
      } else {
        PickDistinct(rest, seen + {Key(f)});
        var more := Pick(rest, seen + {Key(f)});
        forall j | 0 <= j < |more| ensures Key(more[j]) != Key(f) {
          assert more[j] in more;
        }
      }
    }
  }

  lemma {:induction false} PickComplete(ordered: seq<Finding>, seen: set<string>, f: Finding)
    requires f in ordered && Candidate(f) && Key(f) !in seen
    ensures exists g :: g in Pick(ordered, seen) && Key(g) == Key(f)
  {
    hide Key, Candidate;
    var head, rest := ordered[0], ordered[1..];
    assert ordered == [head] + rest;
    if Key(head) in seen || !Candidate(head) {
      PickComplete(rest, seen, f);
    } else if Key(head) == Key(f) {
      assert head in Pick(ordered, seen);
    } else {
      PickComplete(rest, seen + {Key(head)}, f);
      var g :| g in Pick(rest, seen + {Key(head)}) && Key(g) == Key(f);
      assert g in Pick(ordered, seen);
    }
  }

  lemma {:induction false} PickFirst(ordered: seq<Finding>, seen: set<string>, f: Finding, g: Finding)
    requires Sorted(Before, ordered)
    requires f in ordered && Candidate(f) && g in Pick(ordered, seen) && Key(f) == Key(g)
    ensures Before(g, f)
  {
    var head, rest := ordered[0], ordered[1..];
    BeforeSelf(head);
    hide Before, Key, Candidate;
    assert ordered == [head] + rest;
    if Key(head) in seen || !Candidate(head) {
      PickDistinct(ordered, seen);
      PickFirst(rest, seen, f, g);
    } else if g == head {
      assert f in rest ==> Before(head, f);
    } else {
      PickDistinct(rest, seen + {Key(head)});
      PickFirst(rest, seen + {Key(head)}, f, g);
    }
  }

  lemma {:induction false} PickSorted(ordered: seq<Finding>, seen: set<string>)
    requires Sorted(Before, ordered)
    ensures Sorted(Before, Pick(ordered, seen))
  {
    hide Before, Key, Candidate;
    if ordered != [] {
      var f, rest := ordered[0], ordered[1..];
      assert ordered == [f] + rest;
      if Key(f) in seen || !Candidate(f) {
        PickSorted(rest, seen);
      } else {
        PickSorted(rest, seen + {Key(f)});
        var more := Pick(rest, seen + {Key(f)});
        PickDistinct(rest, seen + {Key(f)});
        forall j | 0 <= j < |more| ensures Before(f, more[j]) {
          assert more[j] in rest;
        }
      }
    }
  }

  lemma BeforeSelf(f: Finding)
    ensures Before(f, f)
  {
  }

  lemma ConsolidatedProperties(fs: seq<Finding>)
    ensures var out := Consolidated(fs);
      && (forall f :: f in out ==> f in fs && Candidate(f))
      && (forall i, j :: 0 <= i < j < |out| ==> Key(out[i]) != Key(out[j]))
      && (forall f :: f in fs && Candidate(f) ==> exists g :: g in out && Key(g) == Key(f))
      && (forall f, g :: f in fs && Candidate(f) && g in out && Key(f) == Key(g) ==> Before(g, f))
      && Sorted(Before, out)
  {
    hide Before, Key, Candidate, TotalPreorder;
    BeforeTotal();
    SortSorts(Before, fs);
    var ordered := Sort(Before, fs);
    PickDistinct(ordered, {});
    PickSorted(ordered, {});
    forall f | f in fs && Candidate(f) ensures exists g :: g in Consolidated(fs) && Key(g) == Key(f) {
      PickComplete(ordered, {}, f);
    }
    forall f, g | f in fs && Candidate(f) && g in Consolidated(fs) && Key(f) == Key(g) ensures Before(g, f) {
      PickFirst(ordered, {}, f, g);
    }
  }

  lemma ConsolidatedOnePerKey(fs: seq<Finding>)
    ensures OnePerKey(fs, Consolidated(fs))
  {
    InOrderExactly();
    assert forall f :: Candidate(f) <==> f.confidence >= 0.80;
    hide Before, Key, Candidate, InOrder, Consolidated;
    ConsolidatedProperties(fs);
  }

  lemma {:induction false} PickAll(fs: seq<Finding>, seen: set<string>)
    requires forall f :: f in fs ==> Candidate(f) && Key(f) !in seen
    requires forall i, j :: 0 <= i < j < |fs| ==> Key(fs[i]) != Key(fs[j])
    ensures Pick(fs, seen) == fs
  {
    hide Key, Candidate;
    if fs != [] {
      assert fs == [fs[0]] + fs[1..];
      forall f | f in fs[1..] ensures Key(f) !in seen + {Key(fs[0])} {
        var j :| 0 <= j < |fs[1..]| && fs[1..][j] == f;
        assert fs[j + 1] == f;
      }
      PickAll(fs[1..], seen + {Key(fs[0])});
    }
  }

  /** Consolidating twice is consolidating once. */
  lemma Idempotent(fs: seq<Finding>)
    ensures Consolidated(Consolidated(fs)) == Consolidated(fs)
  {
    hide Before, Key, Candidate;
    ConsolidatedProperties(fs);
    var out := Consolidated(fs);
    SortKeeps(Before, out);
    PickAll(out, {});
  }

  // ---------------------------------------------------------------- confidence

  predicate SameSortGroup(f: Finding, g: Finding) {
    f.file == g.file && f.line == g.line && Cwe(f) == Cwe(g)
  }

  /** Findings under one key belong to one sort group. */
  ghost predicate KeysSeparate(fs: seq<Finding>) {
    forall f, g :: f in fs && g in fs && Key(f) == Key(g) ==> SameSortGroup(f, g)
  }

  /** When keys do not collide across sort groups, the survivor of a key has the
      highest confidence under it. */
  lemma SurvivorIsBest(fs: seq<Finding>, f: Finding, g: Finding)
    requires KeysSeparate(fs)
    requires f in fs && g in Consolidated(fs) && Key(f) == Key(g)
    ensures g.confidence >= f.confidence
  {
    CandidateSurvives(fs, g);
    hide Consolidated, Key, Before;
    if Candidate(f) {
      SurvivorSortsFirst(fs, f, g);
      SameGroup(f, g);
    }
  }

  lemma CandidateSurvives(fs: seq<Finding>, g: Finding)
    requires g in Consolidated(fs)
    ensures g in fs && Candidate(g)
  {
    hide Key, Before, Candidate;
    ConsolidatedProperties(fs);
  }

  lemma SurvivorSortsFirst(fs: seq<Finding>, f: Finding, g: Finding)
    requires f in fs && g in Consolidated(fs) && Key(f) == Key(g)
    ensures Candidate(f) ==> Before(g, f)
  {
    hide Key, Before, Candidate;
    ConsolidatedProperties(fs);
    hide Consolidated;
  }

  lemma SameGroup(f: Finding, g: Finding)
    requires Before(g, f) && f.file == g.file && f.line == g.line && Cwe(f) == Cwe(g)
    ensures g.confidence >= f.confidence
  {
  }

  lemma KeyParts(f: Finding)
    requires ':' !in f.file
    ensures Split(':', Key(f)) == [f.file, Decimal(f.line)] + Split(':', Or(f.cwe, f.title))
  {
    var d := Decimal(f.line);
    NoColon(f.line);
    hide Decimal, Or;
    var tail := Or(f.cwe, f.title);
    assert Key(f) == f.file + ":" + d + ":" + tail == f.file + [':'] + (d + [':'] + tail);
    SplitFirst(':', f.file, d + [':'] + tail);
    SplitFirst(':', d, tail);
  }

  lemma {:induction false} SplitInjective(sep: char, a: string, b: string)
    requires Split(sep, a) == Split(sep, b)
    ensures a == b
    decreases |a|
  {
    SplitBack(sep, a);
    SplitBack(sep, b);
  }

  /** Keys cannot collide when file names hold no colon and every finding names a CWE. */
  lemma CwesSeparateKeys(fs: seq<Finding>)
    requires forall f :: f in fs ==> ':' !in f.file && f.cwe.Some? && f.cwe.value != ""
    ensures KeysSeparate(fs)
  {
    forall f, g | f in fs && g in fs && Key(f) == Key(g)
      ensures f.file == g.file && f.line == g.line && Cwe(f) == Cwe(g)
    {
      KeyParts(f);
      KeyParts(g);
      hide Key, Decimal, Split;
      var sf, sg := Split(':', Cwe(f)), Split(':', Cwe(g));
      var a, b := [f.file, Decimal(f.line)] + sf, [g.file, Decimal(g.line)] + sg;
      assert a == b;
      assert a[0] == f.file && b[0] == g.file && a[1] == Decimal(f.line) && b[1] == Decimal(g.line);
      DecimalInjective(f.line, g.line);
      assert a[2..] == sf && b[2..] == sg;
      SplitInjective(':', Cwe(f), Cwe(g));
    }
  }

  // ---------------------------------------------------------------- colliding keys

  /** One confidence for each finding. */
  predicate Confidences(cs: seq<real>, n: nat) {
    |cs| == n && forall i :: 0 <= i < n ==> 0.0 <= cs[i] <= 1.0
  }

  function WithConfidences(fs: seq<Finding>, cs: seq<real>): seq<Finding>
    requires |cs| == |fs|
  {
    seq(|fs|, i requires 0 <= i < |fs| => fs[i].(confidence := cs[i]))
  }

  /** The survivor of every key has the highest confidence under it. */
  ghost predicate SurvivorsBest(fs: seq<Finding>) {
    forall f, g :: f in fs && g in Consolidated(fs) && Key(f) == Key(g) ==> g.confidence >= f.confidence
  }

  lemma GroupsStrict(f: Finding, g: Finding)
    requires !SameSortGroup(f, g) && Before(f, g)
    ensures !Before(g, f)
  {
    StrLeOrder(f.file, g.file);
    StrLeOrder(Cwe(f), Cwe(g));
  }

  lemma SameSkeleton(f: Finding, c: real)
    ensures var f' := f.(confidence := c); Key(f') == Key(f) && SameSortGroup(f, f')
  {
  }

  lemma Skeletons(fs: seq<Finding>, cs: seq<real>, f: Finding) returns (g: Finding)
    requires |cs| == |fs| && f in WithConfidences(fs, cs)
    ensures g in fs && Key(f) == Key(g) && SameSortGroup(f, g)
  {
    var i :| 0 <= i < |fs| && WithConfidences(fs, cs)[i] == f;
    g := fs[i];
    SameSkeleton(g, cs[i]);
  }

  lemma SeparateStays(fs: seq<Finding>, cs: seq<real>)
    requires KeysSeparate(fs) && |cs| == |fs|
    ensures KeysSeparate(WithConfidences(fs, cs))
  {
    hide Key, Cwe;
    var xs := WithConfidences(fs, cs);
    forall f, g | f in xs && g in xs && Key(f) == Key(g) ensures SameSortGroup(f, g) {
      var f' := Skeletons(fs, cs, f);
      var g' := Skeletons(fs, cs, g);
    }
  }

  /** With only two candidates under a key, from different sort groups, the one that
      sorts first survives. */
  lemma FirstOfTwo(xs: seq<Finding>, first: Finding, other: Finding)
    requires first in xs && Candidate(first) && Key(first) == Key(other)
    requires forall x :: x in xs && Candidate(x) ==> x == first || x == other
    requires !SameSortGroup(first, other) && Before(first, other)
    ensures first in Consolidated(xs)
  {
    hide Before, Key, Candidate, Consolidated, SameSortGroup;
    var h := KeySurvives(xs, first);
    CandidateSurvives(xs, h);
    SurvivorSortsFirst(xs, first, h);
    GroupsStrict(first, other);
  }

  lemma KeySurvives(fs: seq<Finding>, f: Finding) returns (g: Finding)
    requires f in fs && Candidate(f)
    ensures g in Consolidated(fs) && Key(g) == Key(f)
  {
    hide Key, Before, Candidate;
    ConsolidatedProperties(fs);
    hide Consolidated;
    g :| g in Consolidated(fs) && Key(g) == Key(f);
  }

  lemma CollisionMisranks(fs: seq<Finding>, i: nat, j: nat) returns (cs: seq<real>)
    requires i < |fs| && j < |fs| && Key(fs[i]) == Key(fs[j]) && !SameSortGroup(fs[i], fs[j])
    requires Before(fs[i].(confidence := 0.85), fs[j].(confidence := 0.95))
    ensures Confidences(cs, |fs|) && !SurvivorsBest(WithConfidences(fs, cs))
  {
    cs := seq(|fs|, k => if k == i then 0.85 else if k == j then 0.95 else 0.0);
    var xs := WithConfidences(fs, cs);
    SameSkeleton(fs[i], 0.85);
    SameSkeleton(fs[j], 0.95);
    hide Before, Key;
    var first, other := xs[i], xs[j];
    assert first in xs && other in xs;
    forall x | x in xs && Candidate(x) ensures x == first || x == other {
      var k :| 0 <= k < |xs| && xs[k] == x;
    }
    FirstOfTwo(xs, first, other);
    hide Consolidated, Candidate;
    assert first.confidence < other.confidence;
  }

  /** The survivors have the highest confidence under their keys, whatever the
      confidences, if and only if keys do not collide across sort groups. */
  lemma SurvivorsBestExactly(fs: seq<Finding>)
    ensures KeysSeparate(fs) <==>
            forall cs: seq<real> :: Confidences(cs, |fs|) ==> SurvivorsBest(WithConfidences(fs, cs))
  {
    if KeysSeparate(fs) {
      forall cs: seq<real> | Confidences(cs, |fs|) ensures SurvivorsBest(WithConfidences(fs, cs)) {
        SeparateStays(fs, cs);
        AllBest(WithConfidences(fs, cs));
      }
    } else {
      var i, j := Colliding(fs);
      var x, y := fs[i].(confidence := 0.85), fs[j].(confidence := 0.95);
      StrLeOrder(x.file, y.file);
      StrLeOrder(Cwe(x), Cwe(y));
      var cs: seq<real>;
      if Before(x, y) {
        cs := CollisionMisranks(fs, i, j);
      } else {
        cs := CollisionMisranks(fs, j, i);
      }
    }
  }

  lemma AllBest(fs: seq<Finding>)
    requires KeysSeparate(fs)
    ensures SurvivorsBest(fs)
  {
    hide KeysSeparate, Key, Consolidated;
    forall f, g | f in fs && g in Consolidated(fs) && Key(f) == Key(g) ensures g.confidence >= f.confidence {
      SurvivorIsBest(fs, f, g);
    }
  }

  lemma Colliding(fs: seq<Finding>) returns (i: nat, j: nat)
    requires !KeysSeparate(fs)
    ensures i < |fs| && j < |fs| && Key(fs[i]) == Key(fs[j]) && !SameSortGroup(fs[i], fs[j])
  {
    hide Key, Cwe;
    var f, g :| f in fs && g in fs && Key(f) == Key(g) && !SameSortGroup(f, g);
    i :| 0 <= i < |fs| && fs[i] == f;
    j :| 0 <= j < |fs| && fs[j] == g;
  }

  function Sample(cwe: Option<string>, confidence: real): Finding {
    Finding("a.py", 1, None, cwe, None, High, confidence, LlmA, "X", "r", None, None, false)
  }

  /** A finding whose title is another's CWE shares its key but sorts first: the less
      confident of the two survives. */
  lemma CollisionKeepsLower()
    ensures var low, best := Sample(None, 0.85), Sample(Some("X"), 0.95);
      Key(low) == Key(best) && Consolidated([low, best]) == [low]
  {
    var low, best := Sample(None, 0.85), Sample(Some("X"), 0.95);
    assert Key(low) == Key(best);
    assert Before(low, best);
    hide Key, Before;
    assert Sorted(Before, [low, best]);
    SortKeeps(Before, [low, best]);
    assert [low, best][1..] == [best];
    assert [best][1..] == [];
    assert Pick([best], {Key(low)}) == [];
    assert {} + {Key(low)} == {Key(low)};
  }
}
