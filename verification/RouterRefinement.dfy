/** A call of `LlmRouter.complete` that nothing interrupts, as `Router` specifies it, is
    one run of the step system of overlapping calls. */
module RouterRefinement {
  import opened Schemas
  import opened RouterCalls
  import R = Router

  /** Every action is call `c` taking a step, or time passing. */
  ghost predicate OnlyCall(acts: seq<Action>, c: nat) {
    forall a :: a in acts ==> a.Tick? || (a.Step? && a.c == c)
  }

  lemma {:induction false} ExecConcat(cfg: Config, s: State, a: seq<Action>, b: seq<Action>)
    ensures Exec(cfg, s, a + b) == Exec(cfg, Exec(cfg, s, a), b)
    decreases |a|
  {
    hide Apply;
    if a == [] {
      assert a + b == b;
    } else {
      assert (a + b)[1..] == a[1..] + b;
      ExecConcat(cfg, Apply(cfg, s, a[0]), a[1..], b);
    }
  }

  lemma ExecTwo(cfg: Config, s: State, a: Action, b: Action)
    ensures Exec(cfg, s, [a, b]) == Apply(cfg, Apply(cfg, s, a), b)
    ensures Exec(cfg, s, [a]) == Apply(cfg, s, a)
    ensures Exec(cfg, s, []) == s
  {
    hide Apply;
    assert [a, b][1..] == [b] && [b][1..] == [] && [a][1..] == [];
    assert Exec(cfg, Apply(cfg, s, a), [b]) == Exec(cfg, Apply(cfg, Apply(cfg, s, a), b), []);
  }

  /** The health check of a tier: the call goes to the completion or to its next turn. */
  lemma CheckRun(cfg: Config, s: State, c: nat, tiers: seq<string>, i: nat, reply: R.Reply) returns (acts: seq<Action>)
    requires c in s.calls && s.calls[c] == Turn(tiers, i) && i < |tiers|
    ensures OnlyCall(acts, c)
    ensures var s' := Exec(cfg, s, acts); var tier := tiers[i];
      && s'.clock == s.clock + R.CheckTime(cfg.ttl, s.cache, tier, s.clock, reply)
      && c in s'.calls
      && s'.calls[c] == (if R.HealthyAt(cfg.ttl, s.cache, tier, s.clock, reply) then Completing(tiers, i)
                         else Turn(tiers, i + 1))
      && R.SameOutside(s.cache, s'.cache, [tier])
  {
    var first := Step(c, true);
    var s1 := Apply(cfg, s, first);
    if R.Fresh(cfg.ttl, s.cache, tiers[i], s.clock) {
      acts := [first];
      ExecTwo(cfg, s, first, first);
    } else {
      var wait, last := Tick(reply.probeTime), Step(c, reply.probeOk);
      var s2 := Apply(cfg, s1, wait);
      assert s2.calls[c] == Probing(tiers, i, s.clock, |s.log|);
      ExecTwo(cfg, s, first, first);
      ExecTwo(cfg, s1, wait, last);
      ExecConcat(cfg, s, [first], [wait, last]);
      acts := [first] + [wait, last];
      hide Exec;
      assert Exec(cfg, s, acts) == Apply(cfg, s2, last);
    }
  }

  lemma CompletionRun(cfg: Config, s: State, c: nat, tiers: seq<string>, i: nat, reply: R.Reply)
    returns (acts: seq<Action>)
    requires c in s.calls && s.calls[c] == Completing(tiers, i) && i < |tiers|
    ensures OnlyCall(acts, c)
    ensures var s' := Exec(cfg, s, acts);
      && s'.clock == s.clock + reply.answerTime && c in s'.calls
      && s'.calls[c] == (if reply.answer.Some? then Answered(tiers[i]) else Turn(tiers, i + 1))
      && R.SameOutside(s.cache, s'.cache, [tiers[i]])
  {
    var wait, last := Tick(reply.answerTime), Step(c, reply.answer.Some?);
    acts := [wait, last];
    ExecTwo(cfg, s, wait, last);
    hide Exec;
    assert Apply(cfg, s, wait).calls[c] == Completing(tiers, i);
  }

  /** One tier's turn. */
  lemma TurnRun(cfg: Config, s: State, c: nat, tiers: seq<string>, i: nat, reply: R.Reply) returns (acts: seq<Action>)
    requires c in s.calls && s.calls[c] == Turn(tiers, i) && i < |tiers|
    ensures OnlyCall(acts, c)
    ensures var s' := Exec(cfg, s, acts); var tier := tiers[i];
      && s'.clock == s.clock + R.TurnTime(cfg.ttl, s.cache, tier, s.clock, reply)
      && c in s'.calls
      && s'.calls[c] == (if R.HealthyAt(cfg.ttl, s.cache, tier, s.clock, reply) && reply.answer.Some? then Answered(tier)
                         else Turn(tiers, i + 1))
      && R.SameOutside(s.cache, s'.cache, [tier])
  {
    hide Exec, R.HealthyAt, R.CheckTime;
    acts := CheckRun(cfg, s, c, tiers, i, reply);
    var s1 := Exec(cfg, s, acts);
    if R.HealthyAt(cfg.ttl, s.cache, tiers[i], s.clock, reply) {
      var more := CompletionRun(cfg, s1, c, tiers, i, reply);
      ExecConcat(cfg, s, acts, more);
      acts := acts + more;
    }
  }

  /** From the k-th turn on, a call that nothing interrupts ends as `Router.Call`
      specifies: with the answer of the first tier that serves, or with none, and at the
      time that the turns taken add up to. */
  lemma {:induction false} CallIsRun(cfg: Config, s: State, c: nat, call: R.Call, k: nat) returns (acts: seq<Action>)
    requires call.ttl == cfg.ttl && R.Distinct(call.known) && k <= |call.known|
    requires c in s.calls && s.calls[c] == Turn(call.known, k)
    requires s.clock == R.TurnAt(call, k) && R.SameOutside(call.cache, s.cache, call.known[..k])
    ensures OnlyCall(acts, c)
    ensures var s', f := Exec(cfg, s, acts), R.FirstServing(call, k);
      && c in s'.calls
      && s'.calls[c] == (if f < |call.known| then Answered(call.known[f]) else AllFailed)
      && s'.clock == R.TurnAt(call, if f < |call.known| then f + 1 else f)
    decreases |call.known| - k
  {
    if k == |call.known| {
      acts := [Step(c, true)];
      ExecTwo(cfg, s, Step(c, true), Step(c, true));
    } else {
      var tier := call.known[k];
      var reply := call.replies(tier);
      assert tier !in call.known[..k];
      R.SameHealth(cfg.ttl, call.cache, s.cache, call.known[..k], tier, s.clock, reply);
      R.UnfoldTurn(call, k);
      hide Exec, R.HealthyAt, R.TurnTime, R.TurnAt, R.FirstServing, R.Serves, R.Distinct;
      acts := TurnRun(cfg, s, c, call.known, k, reply);
      var s1 := Exec(cfg, s, acts);
      if !R.Serves(call, k) {
        SameOutsideNext(call.cache, s.cache, s1.cache, call.known, k);
        var more := CallIsRun(cfg, s1, c, call, k + 1);
        ExecConcat(cfg, s, acts, more);
        acts := acts + more;
      }
    }
  }

  lemma SameOutsideNext(was: map<string, R.Entry>, before: map<string, R.Entry>, now: map<string, R.Entry>,
                        tiers: seq<string>, k: nat)
    requires k < |tiers| && R.SameOutside(was, before, tiers[..k]) && R.SameOutside(before, now, [tiers[k]])
    ensures R.SameOutside(was, now, tiers[..k + 1])
  {
    assert tiers[..k + 1] == tiers[..k] + [tiers[k]];
  }

  /** A call begun in any state, whatever else is under way, and then left alone takes
      the outcome and the time that `Router.LlmRouter.Complete` promises. */
  lemma UninterruptedCall(cfg: Config, s: State, c: nat, role: string, replies: string -> R.Reply)
    returns (acts: seq<Action>)
    requires c !in s.calls && TiersOf(cfg, role).Some?
    ensures OnlyCall(acts, c) && R.OrderOf(cfg.detectorA, cfg.detectorB, cfg.judge, role).Some?
    ensures var order := R.OrderOf(cfg.detectorA, cfg.detectorB, cfg.judge, role).value;
      var call := R.Call(cfg.ttl, s.cache, s.clock, R.KnownOf(R.Dedupe(order)), replies);
      var s', k := Exec(cfg, s, [Begin(c, role)] + acts), R.FirstServing(call, 0);
      && c in s'.calls
      && s'.calls[c] == (if k < |call.known| then Answered(call.known[k]) else AllFailed)
      && s'.clock == R.TurnAt(call, if k < |call.known| then k + 1 else k)
  {
    var tiers := TiersOf(cfg, role).value;
    var call := R.Call(cfg.ttl, s.cache, s.clock, tiers, replies);
    var s1 := Apply(cfg, s, Begin(c, role));
    assert s1 == s.(calls := s.calls[c := Turn(tiers, 0)]);
    DistinctTiers(cfg, role);
    var order := R.OrderOf(cfg.detectorA, cfg.detectorB, cfg.judge, role);
    assert order.Some? && tiers == R.KnownOf(R.Dedupe(order.value));
    hide R.OrderOf, R.KnownOf, R.Dedupe;
    ExecTwo(cfg, s, Begin(c, role), Begin(c, role));
    hide Exec, Apply, TiersOf, R.FirstServing, R.Distinct;
    acts := CallIsRun(cfg, s1, c, call, 0);
    ExecConcat(cfg, s, [Begin(c, role)], acts);
  }

  lemma DistinctTiers(cfg: Config, role: string)
    ensures TiersOf(cfg, role).Some? ==> R.Distinct(TiersOf(cfg, role).value)
  {
    var order := R.OrderOf(cfg.detectorA, cfg.detectorB, cfg.judge, role);
    hide R.OrderOf, R.KnownOf, R.Dedupe, R.Distinct;
    if order.Some? {
      R.KnownDistinct(R.Dedupe(order.value));
    }
  }
}
