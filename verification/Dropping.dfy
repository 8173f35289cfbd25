/** What leaving findings out can do to the risk score. */
module Dropping {
  import opened Numbers
  import opened Schemas
  import opened RiskScore

  // Under one key a light finding can hold down heavier ones before it, so dropping it
  // can raise the total.

  // ---------------------------------------------------------------- splitting a list

  /** `all` is `a` and `b` shuffled together, each in its own order. */
  ghost predicate Interleaves(all: seq<Finding>, a: seq<Finding>, b: seq<Finding>)
    decreases |all|
  {
    var n := |all|;
    if n == 0 then a == [] && b == []
    else
      || (a != [] && all[n - 1] == a[|a| - 1] && Interleaves(all[..n - 1], a[..|a| - 1], b))
      || (b != [] && all[n - 1] == b[|b| - 1] && Interleaves(all[..n - 1], a, b[..|b| - 1]))
  }

  lemma InterleavesLeft(all: seq<Finding>, a: seq<Finding>, b: seq<Finding>, f: Finding)
    requires Interleaves(all, a, b)
    ensures Interleaves(all + [f], a + [f], b)
  {
    assert (all + [f])[..|all|] == all && (a + [f])[..|a|] == a;
  }

  lemma InterleavesRight(all: seq<Finding>, a: seq<Finding>, b: seq<Finding>, f: Finding)
    requires Interleaves(all, a, b)
    ensures Interleaves(all + [f], a, b + [f])
  {
    assert (all + [f])[..|all|] == all && (b + [f])[..|b|] == b;
  }

  lemma {:induction false} AllKept(fs: seq<Finding>)
    ensures Interleaves(fs, fs, [])
  {
    if fs != [] {
      AllKept(fs[..|fs| - 1]);
    }
  }

  lemma {:induction false} InterleavesMembers(all: seq<Finding>, a: seq<Finding>, b: seq<Finding>)
    requires Interleaves(all, a, b)
    ensures forall f :: f in all <==> f in a || f in b
    decreases |all|
  {
    if all != [] {
      var n := |all| - 1;
      assert all == all[..n] + [all[n]];
      if a != [] && all[n] == a[|a| - 1] && Interleaves(all[..n], a[..|a| - 1], b) {
        InterleavesMembers(all[..n], a[..|a| - 1], b);
        assert a == a[..|a| - 1] + [all[n]];
      } else {
        InterleavesMembers(all[..n], a, b[..|b| - 1]);
        assert b == b[..|b| - 1] + [all[n]];
      }
    }
  }

  // ---------------------------------------------------------------- one key

  /** `s` is `ws` with some weights left out. */
  ghost predicate Sub(s: seq<nat>, ws: seq<nat>)
    decreases |ws|
  {
    if ws == [] then s == []
    else
      var n := |ws| - 1;
      Sub(s, ws[..n]) || (s != [] && s[|s| - 1] == ws[n] && Sub(s[..|s| - 1], ws[..n]))
  }

  /** The highest total that any choice of the weights reaches: a weight is left out
      when its cap lies below the total so far. */
  function Best(ws: seq<nat>): nat {
    if ws == [] then 0
    else
      var b, w := Best(ws[..|ws| - 1]), ws[|ws| - 1];
      if b <= 2 * w then Min(b + w, 2 * w) else b
  }

  lemma {:induction false} BestBounds(s: seq<nat>, ws: seq<nat>)
    requires Sub(s, ws)
    ensures Capped(s) <= Best(ws)
    decreases |ws|
  {
    if ws != [] {
      var n := |ws| - 1;
      if Sub(s, ws[..n]) {
        BestBounds(s, ws[..n]);
      } else {
        BestBounds(s[..|s| - 1], ws[..n]);
      }
    }
  }

  lemma {:induction false} BestReached(ws: seq<nat>) returns (s: seq<nat>)
    ensures Sub(s, ws) && Capped(s) == Best(ws)
  {
    s := [];
    if ws != [] {
      var n := |ws| - 1;
      s := BestReached(ws[..n]);
      if Best(ws[..n]) <= 2 * ws[n] {
        assert (s + [ws[n]])[..|s|] == s;
        s := s + [ws[n]];
      }
    }
  }

  lemma {:induction false} SubSelf(ws: seq<nat>)
    ensures Sub(ws, ws)
  {
    if ws != [] {
      SubSelf(ws[..|ws| - 1]);
    }
  }

  /** Leaving weights out never raises the total if and only if the total is the best. */
  lemma DroppingWeightsExactly(ws: seq<nat>)
    ensures (forall s :: Sub(s, ws) ==> Capped(s) <= Capped(ws)) <==> Best(ws) == Capped(ws)
  {
    hide Sub, Best, Capped;
    var best := BestReached(ws);
    SubSelf(ws);
    BestBounds(ws, ws);
    forall s | Sub(s, ws) ensures Capped(s) <= Best(ws) {
      BestBounds(s, ws);
    }
  }

  lemma {:induction false} GuardedIsBest(ws: seq<nat>)
    requires Guarded(ws)
    ensures Best(ws) == Capped(ws)
  {
    if ws != [] {
      GuardedPrefix(ws, |ws| - 1);
      GuardedIsBest(ws[..|ws| - 1]);
    }
  }

  /** No weight's cap lies below the total so far: the cap never lowers a total. */
  predicate Guarded(ws: seq<nat>) {
    forall j :: 0 <= j < |ws| ==> Capped(ws[..j]) <= 2 * ws[j]
  }

  lemma GuardedPrefix(ws: seq<nat>, n: nat)
    requires Guarded(ws) && n <= |ws|
    ensures Guarded(ws[..n])
  {
    hide Capped;
    assert forall j :: 0 <= j < n ==> ws[..n][..j] == ws[..j];
  }

  /** In no prefix of the weights does leaving some out raise the total if and only if
      no weight's cap lies below the total so far. */
  lemma DroppingFromPrefixesExactly(ws: seq<nat>)
    ensures (forall n: nat, s :: n <= |ws| && Sub(s, ws[..n]) ==> Capped(s) <= Capped(ws[..n])) <==> Guarded(ws)
  {
    if Guarded(ws) {
      forall n: nat, s | n <= |ws| && Sub(s, ws[..n]) ensures Capped(s) <= Capped(ws[..n]) {
        hide Guarded, Sub, Capped;
        GuardedPrefix(ws, n);
        GuardedIsBest(ws[..n]);
        BestBounds(s, ws[..n]);
      }
    } else {
      var j :| 0 <= j < |ws| && Capped(ws[..j]) > 2 * ws[j];
      var n: nat := j + 1;
      LastLowers(ws[..j], ws[j]);
      assert ws[..n] == ws[..j] + [ws[j]];
      hide Sub, Capped, Guarded;
    }
  }

  /** A last weight whose cap lies below the total is better left out. */
  lemma LastLowers(ws: seq<nat>, w: nat)
    requires Capped(ws) > 2 * w
    ensures Sub(ws, ws + [w]) && Capped(ws + [w]) < Capped(ws)
  {
    assert (ws + [w])[..|ws|] == ws;
    SubSelf(ws);
  }

  // ---------------------------------------------------------------- all keys

  ghost function BestTotals(fs: seq<Finding>): map<string, nat> {
    map k | k in Keys(fs) :: Best(Weights(fs, k))
  }

  ghost function BestScore(fs: seq<Finding>): nat {
    Min(SumValues(BestTotals(fs)), 100)
  }

  /** The findings whose weights make up the best totals, and the others. */
  function BestKept(fs: seq<Finding>): seq<Finding> {
    if fs == [] then []
    else
      var init, f := fs[..|fs| - 1], fs[|fs| - 1];
      if Best(Weights(init, Key(f))) <= 2 * Weight(f) then BestKept(init) + [f] else BestKept(init)
  }

  function BestDropped(fs: seq<Finding>): seq<Finding> {
    if fs == [] then []
    else
      var init, f := fs[..|fs| - 1], fs[|fs| - 1];
      if Best(Weights(init, Key(f))) <= 2 * Weight(f) then BestDropped(init) else BestDropped(init) + [f]
  }

  lemma BestDroppedAppend(fs: seq<Finding>, f: Finding)
    ensures BestDropped(fs + [f]) ==
            if Best(Weights(fs, Key(f))) <= 2 * Weight(f) then BestDropped(fs) else BestDropped(fs) + [f]
  {
    hide Key, Weight, Weights, Best;
    assert (fs + [f])[..|fs|] == fs;
  }

  lemma {:induction false} BestSplits(fs: seq<Finding>)
    ensures Interleaves(fs, BestKept(fs), BestDropped(fs))
  {
    hide Key, Weight, Weights, Best, BestKept, BestDropped, Interleaves;
    if fs == [] {
      NothingSplits();
    } else {
      var init, f := fs[..|fs| - 1], fs[|fs| - 1];
      BestSplits(init);
      assert fs == init + [f];
      BestKeptAppend(init, f);
      BestDroppedAppend(init, f);
      InterleavesLeft(init, BestKept(init), BestDropped(init), f);
      InterleavesRight(init, BestKept(init), BestDropped(init), f);
    }
  }

  lemma NothingSplits()
    ensures Interleaves([], BestKept([]), BestDropped([]))
  {
  }

  lemma BestKeptAppend(fs: seq<Finding>, f: Finding)
    ensures BestKept(fs + [f]) ==
            if Best(Weights(fs, Key(f))) <= 2 * Weight(f) then BestKept(fs) + [f] else BestKept(fs)
  {
    hide Key, Weight, Weights, Best;
    assert (fs + [f])[..|fs|] == fs;
  }

  lemma NoneWeights(key: string)
    ensures Weights([], key) == [] && Best([]) == 0 && Capped([]) == 0
  {
  }

  lemma {:induction false} BestKeptWeights(fs: seq<Finding>, key: string)
    ensures Capped(Weights(BestKept(fs), key)) == Best(Weights(fs, key))
    ensures Weights(BestKept(fs), key) == [] <==> Weights(fs, key) == []
  {
    hide Key, Weight, Weights, Capped, Best, BestKept;
    NoneWeights(key);
    if fs == [] {
      BestKeptNone();
    } else {
      var init, f := fs[..|fs| - 1], fs[|fs| - 1];
      assert fs == init + [f];
      BestKeptWeights(init, key);
      BestKeptAppend(init, f);
      WeightsAppend(init, f, key);
      WeightsAppend(BestKept(init), f, key);
      if Key(f) == key {
        CappedSnoc(Weights(BestKept(init), key), Weight(f));
        BestSnoc(Weights(init, key), Weight(f));
      } else {
        var kept, ws := Weights(BestKept(init), key), Weights(init, key);
        assert kept + [] == kept && ws + [] == ws;
      }
    }
  }

  lemma BestKeptNone()
    ensures BestKept([]) == []
  {
  }

  lemma BestSnoc(ws: seq<nat>, w: nat)
    ensures Best(ws + [w]) == if Best(ws) <= 2 * w then Min(Best(ws) + w, 2 * w) else Best(ws)
    ensures Best([]) == 0
  {
    assert (ws + [w])[..|ws|] == ws;
  }

  lemma BestKeptBreakdown(fs: seq<Finding>)
    ensures Breakdown(BestKept(fs)) == BestTotals(fs) && Score(BestKept(fs)) == BestScore(fs)
  {
    hide Key, Keys, Weight, Weights, Capped, Best, BestKept, SumValues;
    forall k ensures k in Keys(BestKept(fs)) <==> k in Keys(fs) {
      NoWeights(BestKept(fs), k);
      NoWeights(fs, k);
      BestKeptWeights(fs, k);
    }
    assert Keys(BestKept(fs)) == Keys(fs);
    forall k | k in Keys(fs) ensures Breakdown(BestKept(fs))[k] == BestTotals(fs)[k] {
      BestKeptWeights(fs, k);
    }
    assert Breakdown(BestKept(fs)) == BestTotals(fs);
  }

  lemma {:induction false} KeptWeights(all: seq<Finding>, a: seq<Finding>, b: seq<Finding>, key: string)
    requires Interleaves(all, a, b)
    ensures Sub(Weights(a, key), Weights(all, key))
    decreases |all|
  {
    hide Key, Weight;
    if all != [] {
      var n := |all| - 1;
      var init, f := all[..n], all[n];
      if a != [] && f == a[|a| - 1] && Interleaves(init, a[..|a| - 1], b) {
        KeptWeights(init, a[..|a| - 1], b, key);
        assert a == a[..|a| - 1] + [f];
        WeightsAppend(a[..|a| - 1], f, key);
        SubBoth(Weights(a[..|a| - 1], key), Weights(init, key), if Key(f) == key then [Weight(f)] else []);
      } else {
        KeptWeights(init, a, b[..|b| - 1], key);
        SubOne(Weights(a, key), Weights(init, key), if Key(f) == key then [Weight(f)] else []);
      }
      assert all == init + [f];
      WeightsAppend(init, f, key);
    }
  }

  lemma SubBoth(s: seq<nat>, ws: seq<nat>, more: seq<nat>)
    requires Sub(s, ws) && |more| <= 1
    ensures Sub(s + more, ws + more)
  {
    if |more| == 0 {
      assert s + more == s && ws + more == ws;
    } else {
      assert (s + more)[..|s|] == s && (ws + more)[..|ws|] == ws;
    }
  }

  lemma SubOne(s: seq<nat>, ws: seq<nat>, more: seq<nat>)
    requires Sub(s, ws) && |more| <= 1
    ensures Sub(s, ws + more)
  {
    if |more| == 0 {
      assert ws + more == ws;
    } else {
      assert (ws + more)[..|ws|] == ws;
    }
  }

  /** No choice of the findings exceeds the best totals and the best score. */
  lemma KeptBounded(all: seq<Finding>, kept: seq<Finding>, dropped: seq<Finding>)
    requires Interleaves(all, kept, dropped)
    ensures Breakdown(kept).Keys <= BestTotals(all).Keys
    ensures forall k :: k in Breakdown(kept) ==> k in BestTotals(all) && Breakdown(kept)[k] <= BestTotals(all)[k]
    ensures Score(kept) <= BestScore(all)
  {
    InterleavesMembers(all, kept, dropped);
    hide Key, Weight, Weights, Capped, Best, Interleaves, SumValues, Sub;
    forall k | k in Breakdown(kept) ensures k in BestTotals(all) && Breakdown(kept)[k] <= BestTotals(all)[k] {
      KeptWeights(all, kept, dropped, k);
      BestBounds(Weights(kept, k), Weights(all, k));
    }
    SumMonotone(Breakdown(kept), BestTotals(all));
  }

  /** Every key's total in `low` is at most its total in `high`. */
  predicate AtMost(low: map<string, nat>, high: map<string, nat>) {
    forall k :: k in low ==> k in high && low[k] <= high[k]
  }

  lemma AtMostBoth(a: map<string, nat>, b: map<string, nat>)
    requires AtMost(a, b) && AtMost(b, a)
    ensures a == b
  {
  }

  /** Dropping findings raises no key's total if and only if every total is the best. */
  lemma DroppingTotalsExactly(fs: seq<Finding>)
    ensures (forall kept, dropped :: Interleaves(fs, kept, dropped) ==> AtMost(Breakdown(kept), Breakdown(fs)))
            <==> BestTotals(fs) == Breakdown(fs)
  {
    hide Interleaves, Breakdown, BestTotals, BestKept, BestDropped, AtMost;
    BestSplits(fs);
    BestKeptBreakdown(fs);
    AllKept(fs);
    KeptAtMost(fs, fs, []);
    forall kept, dropped | Interleaves(fs, kept, dropped) ensures AtMost(Breakdown(kept), BestTotals(fs)) {
      KeptAtMost(fs, kept, dropped);
    }
    if AtMost(BestTotals(fs), Breakdown(fs)) {
      AtMostBoth(BestTotals(fs), Breakdown(fs));
    }
  }

  lemma KeptAtMost(all: seq<Finding>, kept: seq<Finding>, dropped: seq<Finding>)
    requires Interleaves(all, kept, dropped)
    ensures AtMost(Breakdown(kept), BestTotals(all))
  {
    hide Interleaves, Breakdown, BestTotals;
    KeptBounded(all, kept, dropped);
  }

  /** Dropping findings never raises the score if and only if the score is the best. */
  lemma DroppingScoreExactly(fs: seq<Finding>)
    ensures (forall kept, dropped :: Interleaves(fs, kept, dropped) ==> Score(kept) <= Score(fs))
            <==> BestScore(fs) == Score(fs)
  {
    hide Interleaves, Score, BestScore, BestKept, BestDropped;
    BestSplits(fs);
    BestKeptBreakdown(fs);
    AllKept(fs);
    KeptBounded(fs, fs, []);
    forall kept, dropped | Interleaves(fs, kept, dropped) ensures Score(kept) <= BestScore(fs) {
      KeptBounded(fs, kept, dropped);
    }
  }

  // ---------------------------------------------------------------- key-determined weights

  lemma {:induction false} UniformBest(ws: seq<nat>, w: nat)
    requires forall i :: 0 <= i < |ws| ==> ws[i] == w
    ensures Best(ws) == Capped(ws)
  {
    if ws != [] {
      UniformBest(ws[..|ws| - 1], w);
      UniformCapped(ws[..|ws| - 1], w);
    }
  }

  /** When keys determine weights, the totals and the score are the best. */
  lemma DeterminedIsBest(fs: seq<Finding>)
    requires WeightsDetermined(fs)
    ensures BestTotals(fs) == Breakdown(fs) && BestScore(fs) == Score(fs)
  {
    hide Key, Weight, Weights, Capped, Best;
    forall k | k in Keys(fs) ensures Best(Weights(fs, k)) == Capped(Weights(fs, k)) {
      var f :| f in fs && Key(f) == k;
      forall i | 0 <= i < |Weights(fs, k)| ensures Weights(fs, k)[i] == Weight(f) {
        WeightsComeFrom(fs, k, i);
      }
      UniformBest(Weights(fs, k), Weight(f));
    }
    assert BestTotals(fs) == Breakdown(fs);
  }
}
