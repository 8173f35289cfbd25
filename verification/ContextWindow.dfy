/** Merging of context windows (aegis/pipeline/context.py). */
module ContextWindow {
  import opened Numbers
  import opened Sorting

  /** Lines lo..hi; no line when hi < lo. */
  datatype Interval = Interval(lo: int, hi: int)

  predicate Before(a: Interval, b: Interval) {
    a.lo < b.lo || (a.lo == b.lo && a.hi <= b.hi)
  }

  predicate Within(iv: Interval, x: int) {
    iv.lo <= x <= iv.hi
  }

  ghost predicate Covered(ivs: seq<Interval>, x: int) {
    exists i :: 0 <= i < |ivs| && Within(ivs[i], x)
  }

  function Absorb(merged: seq<Interval>, iv: Interval): seq<Interval>
    requires merged != []
  {
    var last := merged[|merged| - 1];
    if iv.lo <= last.hi + 1 then merged[|merged| - 1 := Interval(last.lo, Max(last.hi, iv.hi))]
    else merged + [iv]
  }

  function MergeFrom(merged: seq<Interval>, rest: seq<Interval>): seq<Interval>
    requires merged != []
    decreases |rest|
  {
    if rest == [] then merged else MergeFrom(Absorb(merged, rest[0]), rest[1..])
  }

  function Merge(ivs: seq<Interval>): seq<Interval> {
    var ordered := Sort(Before, ivs);
    if ordered == [] then [] else MergeFrom([ordered[0]], ordered[1..])
  }

  /** Consecutive results leave an uncovered line between them, the one just before
      the later result. */
  ghost predicate Separated(ivs: seq<Interval>) {
    forall i :: 0 < i < |ivs| ==> ivs[i - 1].hi + 1 < ivs[i].lo && !Covered(ivs, ivs[i].lo - 1)
  }

  /** `_merge_intervals`. */
  method MergeIntervals(ivs: seq<Interval>) returns (merged: seq<Interval>)
    ensures merged == Merge(ivs)
    ensures forall x :: Covered(merged, x) <==> Covered(ivs, x)
    ensures Spaced(merged) && Separated(merged)
  {
    hide Covered;
    MergeProperties(ivs);
    if ivs == [] {
      return [];
    }
    var ordered := Sort(Before, ivs);
    SortedIntervals(ivs);
    merged := [ordered[0]];
    for k := 1 to |ordered|
      invariant merged != [] && MergeFrom(merged, ordered[k..]) == Merge(ivs)
    {
      var iv := ordered[k];
      assert ordered[k..][0] == iv && ordered[k..][1..] == ordered[k + 1..];
      var last := merged[|merged| - 1];
      if iv.lo <= last.hi + 1 {
        merged := merged[|merged| - 1 := Interval(last.lo, Max(last.hi, iv.hi))];
      } else {
        merged := merged + [iv];
      }
    }
  }

  lemma BeforeTotal()
    ensures TotalPreorder(Before)
    ensures Antisymmetric(Before)
  {
  }

  lemma SortedIntervals(ivs: seq<Interval>)
    ensures var ordered := Sort(Before, ivs);
      && Sorted(Before, ordered) && |ordered| == |ivs|
      && (forall x :: Covered(ordered, x) <==> Covered(ivs, x))
      && (forall iv :: iv in ordered <==> iv in ivs)
  {
    BeforeTotal();
    SortSorts(Before, ivs);
    var ordered := Sort(Before, ivs);
    forall x ensures Covered(ordered, x) <==> Covered(ivs, x) {
      if Covered(ordered, x) {
        var i :| 0 <= i < |ordered| && Within(ordered[i], x);
        assert ordered[i] in ivs;
        var j :| 0 <= j < |ivs| && ivs[j] == ordered[i];
        assert Within(ivs[j], x);
      }
      if Covered(ivs, x) {
        var i :| 0 <= i < |ivs| && Within(ivs[i], x);
        assert ivs[i] in ordered;
        var j :| 0 <= j < |ordered| && ordered[j] == ivs[i];
        assert Within(ordered[j], x);
      }
    }
  }

  /** The loop's invariant over the results so far: starts ascend, each result ends
      more than one line before the next starts, and the last end was reached by an
      interval `top` that is not after any interval to come. */
  ghost predicate Growing(merged: seq<Interval>, top: Interval, rest: seq<Interval>) {
    && merged != []
    && Spaced(merged)
    && var last := merged[|merged| - 1];
       && top.hi == last.hi && last.lo <= top.lo
       && forall i :: 0 <= i < |rest| ==> Before(top, rest[i]) && last.lo <= rest[i].lo
  }

  ghost predicate Spaced(merged: seq<Interval>) {
    && Sorted(Before, merged)
    && forall i :: 0 < i < |merged| ==> merged[i - 1].hi + 1 < merged[i].lo
  }

  lemma AbsorbCovers(merged: seq<Interval>, iv: Interval, x: int)
    requires merged != [] && merged[|merged| - 1].lo <= iv.lo
    ensures Covered(Absorb(merged, iv), x) <==> Covered(merged, x) || Within(iv, x)
  {
    var n := |merged| - 1;
    var out := Absorb(merged, iv);
    if Covered(merged, x) {
      var i :| 0 <= i < |merged| && Within(merged[i], x);
      assert Within(out[i], x);
    }
    if Within(iv, x) {
      assert Within(out[|out| - 1], x);
    }
    if Covered(out, x) {
      var i :| 0 <= i < |out| && Within(out[i], x);
      if i < n {
        assert Within(merged[i], x);
      } else if i == n && !Within(iv, x) {
        assert Within(merged[n], x);
      }
    }
  }

  lemma AbsorbGrows(merged: seq<Interval>, top: Interval, rest: seq<Interval>)
    requires rest != [] && Sorted(Before, rest) && Growing(merged, top, rest)
    ensures var top' := if rest[0].lo <= top.hi + 1 && rest[0].hi <= top.hi then top else rest[0];
      Growing(Absorb(merged, rest[0]), top', rest[1..])
  {
  }

  lemma {:induction false} MergeFromProperties(merged: seq<Interval>, top: Interval, rest: seq<Interval>)
    requires Sorted(Before, rest) && Growing(merged, top, rest)
    ensures Spaced(MergeFrom(merged, rest))
    ensures forall x :: Covered(MergeFrom(merged, rest), x) <==> Covered(merged, x) || Covered(rest, x)
    decreases |rest|
  {
    if rest != [] {
      AbsorbGrows(merged, top, rest);
      var top' := if rest[0].lo <= top.hi + 1 && rest[0].hi <= top.hi then top else rest[0];
      MergeFromProperties(Absorb(merged, rest[0]), top', rest[1..]);
      forall x ensures Covered(rest, x) <==> Within(rest[0], x) || Covered(rest[1..], x) {
        CoveredCons(rest, x);
      }
      forall x ensures Covered(Absorb(merged, rest[0]), x) <==> Covered(merged, x) || Within(rest[0], x) {
        AbsorbCovers(merged, rest[0], x);
      }
      hide Covered;
    }
  }

  lemma CoveredCons(ivs: seq<Interval>, x: int)
    requires ivs != []
    ensures Covered(ivs, x) <==> Within(ivs[0], x) || Covered(ivs[1..], x)
  {
    if Covered(ivs, x) {
      var i :| 0 <= i < |ivs| && Within(ivs[i], x);
      if i > 0 {
        assert Within(ivs[1..][i - 1], x);
      }
    }
    if Covered(ivs[1..], x) {
      var i :| 0 <= i < |ivs[1..]| && Within(ivs[1..][i], x);
      assert Within(ivs[i + 1], x);
    }
  }

  /** Merging keeps the covered lines exactly, empty intervals included, and separates
      the results. */
  lemma MergeProperties(ivs: seq<Interval>)
    ensures forall x :: Covered(Merge(ivs), x) <==> Covered(ivs, x)
    ensures Spaced(Merge(ivs)) && Separated(Merge(ivs))
  {
    SortedIntervals(ivs);
    var ordered := Sort(Before, ivs);
    if ordered != [] {
      assert Growing([ordered[0]], ordered[0], ordered[1..]);
      MergeFromProperties([ordered[0]], ordered[0], ordered[1..]);
      forall x ensures Covered(ordered, x) <==> Covered([ordered[0]], x) || Covered(ordered[1..], x) {
        CoveredCons(ordered, x);
        CoveredCons([ordered[0]], x);
      }
      hide Covered;
    }
    SpacedIsSeparated(Merge(ivs));
  }

  lemma SpacedIsSeparated(ivs: seq<Interval>)
    requires Spaced(ivs)
    ensures Separated(ivs)
  {
    forall i, j | 0 < i < |ivs| && 0 <= j < |ivs| ensures !Within(ivs[j], ivs[i].lo - 1) {
      if j < i - 1 {
        assert Before(ivs[j + 1], ivs[i]);
      } else if i < j {
        assert Before(ivs[i], ivs[j]);
      }
    }
  }

  lemma {:induction false} MergeSpaced(merged: seq<Interval>, rest: seq<Interval>)
    requires merged != [] && Spaced(merged + rest)
    ensures MergeFrom(merged, rest) == merged + rest
    decreases |rest|
  {
    if rest == [] {
      assert merged + rest == merged;
    } else {
      var all := merged + rest;
      assert all[|merged| - 1] == merged[|merged| - 1] && all[|merged|] == rest[0];
      assert merged + [rest[0]] + rest[1..] == all;
      MergeSpaced(merged + [rest[0]], rest[1..]);
    }
  }

  /** Merging twice is merging once. */
  lemma MergeIdempotent(ivs: seq<Interval>)
    ensures Merge(Merge(ivs)) == Merge(ivs)
  {
    MergeProperties(ivs);
    hide Covered, Separated;
    var m := Merge(ivs);
    SortKeeps(Before, m);
    if m != [] {
      assert [m[0]] + m[1..] == m;
      MergeSpaced([m[0]], m[1..]);
    }
  }

  /** The order in which the intervals come does not matter. */
  lemma MergePermuted(a: seq<Interval>, b: seq<Interval>)
    requires multiset(a) == multiset(b)
    ensures Merge(a) == Merge(b)
  {
    BeforeTotal();
    SortSorts(Before, a);
    SortSorts(Before, b);
    SortedUnique(Before, Sort(Before, a), Sort(Before, b));
  }

  lemma CoveredSnoc(ivs: seq<Interval>, x: int)
    requires ivs != []
    ensures Covered(ivs, x) <==> Covered(ivs[..|ivs| - 1], x) || Within(ivs[|ivs| - 1], x)
  {
    var init := ivs[..|ivs| - 1];
    if Covered(ivs, x) {
      var i :| 0 <= i < |ivs| && Within(ivs[i], x);
      assert i < |init| ==> Within(init[i], x);
    }
    if Covered(init, x) {
      var i :| 0 <= i < |init| && Within(init[i], x);
      assert Within(ivs[i], x);
    }
  }
}
