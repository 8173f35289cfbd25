/** Router calls that overlap, as a step system over the shared health cache
    (aegis/llm/router.py, aegis/pipeline/llm_stage.py). */
module RouterCalls {
  import opened Schemas
  import R = Router

  // The two detector calls of a scan run at once and the judge call follows on the same
  // router. A call is suspended only while a probe or a completion is under way; a step
  // runs from one suspension to the next effect. A schedule is any sequence of actions;
  // an action that is not enabled leaves the state as it is.

  datatype Config = Config(ttl: nat, detectorA: string, detectorB: string, judge: string)

  /** The known tiers of a role, in order. */
  function TiersOf(cfg: Config, role: string): Option<seq<string>> {
    match R.OrderOf(cfg.detectorA, cfg.detectorB, cfg.judge, role)
    case None => None
    case Some(order) => Some(R.KnownOf(R.Dedupe(order)))
  }

  /** `probe` is the index of the event at which the probe began. */
  datatype Pc =
    | Turn(tiers: seq<string>, i: nat)
    | Probing(tiers: seq<string>, i: nat, began: nat, probe: nat)
    | Completing(tiers: seq<string>, i: nat)
    | Answered(tier: string)
    | AllFailed
    | Abandoned

  datatype Event =
    | ProbeBegan(call: nat, tier: string, at: nat)
    | ProbeEnded(probe: nat, tier: string, at: nat, ok: bool)
    | Sent(call: nat, tier: string, at: nat)
    | Failed(call: nat, tier: string, at: nat)

  datatype State = State(clock: nat, cache: map<string, R.Entry>, calls: map<nat, Pc>, log: seq<Event>)

  const INIT := State(0, map[], map[], [])

  /** `ok` is the outcome of what the call waits for. Abandon is a probe that raises, or
      a call that is cancelled: nothing is cached. */
  datatype Action = Tick(d: nat) | Begin(c: nat, role: string) | Step(c: nat, ok: bool) | Abandon(c: nat)

  /** The end of `_healthy` with a healthy tier: the completion is sent. */
  function Send(s: State, c: nat, tiers: seq<string>, i: nat): State
    requires i < |tiers|
  {
    s.(calls := s.calls[c := Completing(tiers, i)], log := s.log + [Sent(c, tiers[i], s.clock)])
  }

  function TurnStep(cfg: Config, s: State, c: nat, tiers: seq<string>, i: nat): State {
    if i >= |tiers| then s.(calls := s.calls[c := AllFailed])
    else if R.Fresh(cfg.ttl, s.cache, tiers[i], s.clock) then
      if s.cache[tiers[i]].ok then Send(s, c, tiers, i) else s.(calls := s.calls[c := Turn(tiers, i + 1)])
    else
      s.(calls := s.calls[c := Probing(tiers, i, s.clock, |s.log|)],
         log := s.log + [ProbeBegan(c, tiers[i], s.clock)])
  }

  /** The cache records the time at which the probe began. */
  function ProbeStep(s: State, c: nat, tiers: seq<string>, i: nat, began: nat, probe: nat, ok: bool): State
    requires i < |tiers|
  {
    var s' := s.(cache := s.cache[tiers[i] := R.Entry(began, ok)],
                 log := s.log + [ProbeEnded(probe, tiers[i], s.clock, ok)]);
    if ok then Send(s', c, tiers, i) else s'.(calls := s'.calls[c := Turn(tiers, i + 1)])
  }

  function CompletionStep(s: State, c: nat, tiers: seq<string>, i: nat, ok: bool): State
    requires i < |tiers|
  {
    if ok then s.(calls := s.calls[c := Answered(tiers[i])])
    else
      s.(cache := s.cache[tiers[i] := R.Entry(s.clock, false)],
         log := s.log + [Failed(c, tiers[i], s.clock)],
         calls := s.calls[c := Turn(tiers, i + 1)])
  }

  function CallStep(cfg: Config, s: State, c: nat, ok: bool): State
    requires c in s.calls
  {
    match s.calls[c]
    case Turn(tiers, i) => TurnStep(cfg, s, c, tiers, i)
    case Probing(tiers, i, began, probe) => if i < |tiers| then ProbeStep(s, c, tiers, i, began, probe, ok) else s
    case Completing(tiers, i) => if i < |tiers| then CompletionStep(s, c, tiers, i, ok) else s
    case _ => s
  }

  function Apply(cfg: Config, s: State, a: Action): State {
    match a
    case Tick(d) => s.(clock := s.clock + d)
    case Begin(c, role) =>
      if c in s.calls || TiersOf(cfg, role).None? then s
      else s.(calls := s.calls[c := Turn(TiersOf(cfg, role).value, 0)])
    case Step(c, ok) => if c in s.calls then CallStep(cfg, s, c, ok) else s
    case Abandon(c) =>
      if c in s.calls && (s.calls[c].Probing? || s.calls[c].Completing?) then s.(calls := s.calls[c := Abandoned]) else s
  }

  function Exec(cfg: Config, s: State, acts: seq<Action>): State
    decreases |acts|
  {
    if acts == [] then s else Exec(cfg, Apply(cfg, s, acts[0]), acts[1..])
  }

  function Run(cfg: Config, acts: seq<Action>): State {
    Exec(cfg, INIT, acts)
  }

  // ---------------------------------------------------------------- the invariant

  /** The probe that began at event `p` was under way at event `i` and had ended at
      event `k`. */
  predicate Spans(log: seq<Event>, p: int, i: int, k: int) {
    && 0 <= p < i < k < |log|
    && log[p].ProbeBegan? && log[k].ProbeEnded? && log[k].probe == p
    && log[p].tier == log[i].tier == log[k].tier
  }

  /** A probe of the tier of event `i` was under way then and ended before event `j`. */
  ghost predicate Spanned(log: seq<Event>, i: int, j: int) {
    exists p, k :: k < j && Spans(log, p, i, k)
  }

  /** The cache still holds the failure, or a later one. */
  predicate Guarded(cache: map<string, R.Entry>, tier: string, at: nat) {
    tier in cache && !cache[tier].ok && at <= cache[tier].at
  }

  /** What is left of the failure at event `i`. */
  ghost predicate Excused(ttl: nat, log: seq<Event>, clock: nat, i: nat)
    requires i < |log|
  {
    Spanned(log, i, |log|) || log[i].at + ttl <= clock
  }

  ghost predicate CallOk(ttl: nat, log: seq<Event>, clock: nat, pc: Pc) {
    match pc
    case Probing(tiers, i, began, probe) =>
      && i < |tiers| && probe < |log| && log[probe].ProbeBegan? && log[probe].tier == tiers[i]
      && forall f :: 0 <= f < probe && log[f].Failed? && log[f].tier == tiers[i] ==> Excused(ttl, log, clock, f)
    case Completing(tiers, i) => i < |tiers|
    case _ => true
  }

  ghost predicate Timed(log: seq<Event>, clock: nat) {
    && (forall i :: 0 <= i < |log| ==> log[i].at <= clock)
    && (forall i, j :: 0 <= i < j < |log| ==> log[i].at <= log[j].at)
  }

  ghost predicate FailuresKept(ttl: nat, log: seq<Event>, clock: nat, cache: map<string, R.Entry>) {
    forall f :: 0 <= f < |log| && log[f].Failed? ==>
      Excused(ttl, log, clock, f) || Guarded(cache, log[f].tier, log[f].at)
  }

  ghost predicate SendsExcused(ttl: nat, log: seq<Event>) {
    forall f, j :: 0 <= f < j < |log| && log[f].Failed? && log[j].Sent? && log[f].tier == log[j].tier ==>
      Spanned(log, f, j) || log[f].at + ttl <= log[j].at
  }

  ghost predicate Inv(ttl: nat, s: State) {
    && Timed(s.log, s.clock)
    && FailuresKept(ttl, s.log, s.clock, s.cache)
    && SendsExcused(ttl, s.log)
    && forall c :: c in s.calls ==> CallOk(ttl, s.log, s.clock, s.calls[c])
  }

  // ---------------------------------------------------------------- growing histories

  lemma SpannedGrows(log: seq<Event>, e: Event, i: int, j: int)
    requires j <= |log|
    ensures Spanned(log + [e], i, j) <==> Spanned(log, i, j)
    ensures Spanned(log, i, j) ==> Spanned(log + [e], i, |log| + 1)
  {
    if Spanned(log, i, j) {
      var p, k :| k < j && Spans(log, p, i, k);
      assert Spans(log + [e], p, i, k);
    }
    if Spanned(log + [e], i, j) {
      var p, k :| k < j && Spans(log + [e], p, i, k);
      assert Spans(log, p, i, k);
    }
  }

  lemma ExcusedGrows(ttl: nat, log: seq<Event>, e: Event, clock: nat, i: nat)
    requires i < |log| && Excused(ttl, log, clock, i)
    ensures Excused(ttl, log + [e], clock, i)
  {
    SpannedGrows(log, e, i, |log|);
  }

  /** The parts of the invariant that any event keeps. */
  lemma EventKeeps(ttl: nat, s: State, e: Event)
    requires Inv(ttl, s) && e.at == s.clock
    requires e.Sent? ==> forall f :: 0 <= f < |s.log| && s.log[f].Failed? && s.log[f].tier == e.tier ==>
                           Excused(ttl, s.log, s.clock, f)
    ensures var s' := s.(log := s.log + [e]);
      && Timed(s'.log, s'.clock) && SendsExcused(ttl, s'.log)
      && (forall c :: c in s.calls ==> CallOk(ttl, s'.log, s'.clock, s.calls[c]))
      && (forall f :: 0 <= f < |s.log| && Excused(ttl, s.log, s.clock, f) ==> Excused(ttl, s'.log, s'.clock, f))
  {
    var log := s.log + [e];
    forall f | 0 <= f < |s.log| && Excused(ttl, s.log, s.clock, f) ensures Excused(ttl, log, s.clock, f) {
      ExcusedGrows(ttl, s.log, e, s.clock, f);
    }
    forall f, j | 0 <= f < j < |log| && log[f].Failed? && log[j].Sent? && log[f].tier == log[j].tier
      ensures Spanned(log, f, j) || log[f].at + ttl <= log[j].at
    {
      SpannedGrows(s.log, e, f, j);
    }
    hide Excused, Spanned;
  }

  // ---------------------------------------------------------------- every step keeps it

  lemma SendKeeps(ttl: nat, s: State, c: nat, tiers: seq<string>, i: nat)
    requires Inv(ttl, s) && i < |tiers|
    requires forall f :: 0 <= f < |s.log| && s.log[f].Failed? && s.log[f].tier == tiers[i] ==>
               Excused(ttl, s.log, s.clock, f)
    ensures Inv(ttl, Send(s, c, tiers, i))
  {
    EventKeeps(ttl, s, Sent(c, tiers[i], s.clock));
    hide Excused, SendsExcused, Timed;
    var s' := s.(log := s.log + [Sent(c, tiers[i], s.clock)]);
  }

  lemma TurnKeeps(cfg: Config, s: State, c: nat, tiers: seq<string>, i: nat)
    requires Inv(cfg.ttl, s)
    ensures Inv(cfg.ttl, TurnStep(cfg, s, c, tiers, i))
  {
    var s' := TurnStep(cfg, s, c, tiers, i);
    if i >= |tiers| || (R.Fresh(cfg.ttl, s.cache, tiers[i], s.clock) && !s.cache[tiers[i]].ok) {
      hide CallOk, Excused, SendsExcused, Timed;
    } else if R.Fresh(cfg.ttl, s.cache, tiers[i], s.clock) {
      NotGuarded(cfg.ttl, s, tiers[i]);
      SendKeeps(cfg.ttl, s, c, tiers, i);
    } else {
      NotGuarded(cfg.ttl, s, tiers[i]);
      var e := ProbeBegan(c, tiers[i], s.clock);
      EventKeeps(cfg.ttl, s, e);
      hide SendsExcused, Timed, Excused;
    }
  }

  /** When the cache would let a probe or a completion go to the tier, every recorded
      failure of it is excused. */
  lemma NotGuarded(ttl: nat, s: State, tier: string)
    requires Inv(ttl, s)
    requires R.Fresh(ttl, s.cache, tier, s.clock) ==> s.cache[tier].ok
    ensures forall f :: 0 <= f < |s.log| && s.log[f].Failed? && s.log[f].tier == tier ==>
              Excused(ttl, s.log, s.clock, f)
  {
    hide Spanned, CallOk, SendsExcused;
  }

  lemma ProbeKeeps(ttl: nat, s: State, c: nat, tiers: seq<string>, i: nat, began: nat, probe: nat, ok: bool)
    requires Inv(ttl, s) && c in s.calls && s.calls[c] == Probing(tiers, i, began, probe) && i < |tiers|
    ensures Inv(ttl, ProbeStep(s, c, tiers, i, began, probe, ok))
  {
    assert CallOk(ttl, s.log, s.clock, s.calls[c]);
    var e := ProbeEnded(probe, tiers[i], s.clock, ok);
    EventKeeps(ttl, s, e);
    var s1 := s.(log := s.log + [e], cache := s.cache[tiers[i] := R.Entry(began, ok)]);
    forall f | 0 <= f < |s.log| && s.log[f].Failed? && s.log[f].tier == tiers[i]
      ensures Excused(ttl, s1.log, s1.clock, f)
    {
      if f > probe {
        assert Spans(s1.log, probe, f, |s.log|);
      } else {
        assert f < probe;
        ExcusedGrows(ttl, s.log, e, s.clock, f);
      }
    }
    hide Excused, SendsExcused, Timed;
    assert Inv(ttl, s1);
    if ok {
      SendKeeps(ttl, s1, c, tiers, i);
    } else {
    }
  }

  lemma CompletionKeeps(ttl: nat, s: State, c: nat, tiers: seq<string>, i: nat, ok: bool)
    requires Inv(ttl, s) && i < |tiers|
    ensures Inv(ttl, CompletionStep(s, c, tiers, i, ok))
  {
    var s' := CompletionStep(s, c, tiers, i, ok);
    if ok {
      hide CallOk, Excused, SendsExcused, Timed;
    } else {
      var e := Failed(c, tiers[i], s.clock);
      EventKeeps(ttl, s, e);
      hide Excused, SendsExcused;
    }
  }

  lemma TickKeeps(ttl: nat, s: State, d: nat)
    requires Inv(ttl, s)
    ensures Inv(ttl, s.(clock := s.clock + d))
  {
    var s' := s.(clock := s.clock + d);
    forall f | 0 <= f < |s.log| && Excused(ttl, s.log, s.clock, f) ensures Excused(ttl, s'.log, s'.clock, f) {
      hide Spanned;
    }
    hide Excused, Spanned;
  }

  lemma Keeps(cfg: Config, s: State, a: Action)
    requires Inv(cfg.ttl, s)
    ensures Inv(cfg.ttl, Apply(cfg, s, a))
  {
    hide Excused, SendsExcused, Timed, FailuresKept;
    match a
    case Tick(d) => TickKeeps(cfg.ttl, s, d);
    case Begin(_, _) =>
    case Step(c, ok) =>
      if c in s.calls {
        match s.calls[c]
        case Turn(tiers, i) => TurnKeeps(cfg, s, c, tiers, i);
        case Probing(tiers, i, began, probe) =>
          if i < |tiers| { ProbeKeeps(cfg.ttl, s, c, tiers, i, began, probe, ok); }
        case Completing(tiers, i) => if i < |tiers| { CompletionKeeps(cfg.ttl, s, c, tiers, i, ok); }
        case _ =>
      }
    case Abandon(_) =>
  }

  lemma {:induction false} ExecKeeps(cfg: Config, s: State, acts: seq<Action>)
    requires Inv(cfg.ttl, s)
    ensures Inv(cfg.ttl, Exec(cfg, s, acts)) && s.log <= Exec(cfg, s, acts).log
    decreases |acts|
  {
    hide Inv;
    if acts != [] {
      Keeps(cfg, s, acts[0]);
      LogGrows(cfg, s, acts[0]);
      hide Apply;
      ExecKeeps(cfg, Apply(cfg, s, acts[0]), acts[1..]);
    }
  }

  lemma LogGrows(cfg: Config, s: State, a: Action)
    ensures s.log <= Apply(cfg, s, a).log
  {
  }

  lemma RunInv(cfg: Config, acts: seq<Action>)
    ensures Inv(cfg.ttl, Run(cfg, acts))
  {
    ExecKeeps(cfg, INIT, acts);
  }

  // ---------------------------------------------------------------- what every run promises

  /** A completion goes to a tier less than the TTL after a recorded failure of it only
      if some probe of the tier began before the failure and ended after it. */
  lemma EarlySendIsSpanned(cfg: Config, acts: seq<Action>, f: nat, j: nat)
    requires var log := Run(cfg, acts).log;
      f < j < |log| && log[f].Failed? && log[j].Sent? && log[f].tier == log[j].tier && log[j].at < log[f].at + cfg.ttl
    ensures var log := Run(cfg, acts).log;
      exists p, k :: k < j && Spans(log, p, f, k) && log[p].at <= log[f].at <= log[k].at <= log[j].at
  {
    RunInv(cfg, acts);
    var log := Run(cfg, acts).log;
    hide Run, CallOk, Excused, FailuresKept;
    assert Spanned(log, f, j);
    var p, k :| k < j && Spans(log, p, f, k);
    assert log[p].at <= log[f].at <= log[k].at <= log[j].at;
  }

  /** A probe of the tier is under way. */
  predicate InFlight(s: State, tier: string) {
    exists d :: d in s.calls && ProbesTier(s.calls[d], tier)
  }

  predicate ProbesTier(pc: Pc, tier: string) {
    pc.Probing? && pc.i < |pc.tiers| && pc.tiers[pc.i] == tier
  }

  predicate OwnsProbe(pc: Pc, probe: nat) {
    pc.Probing? && pc.probe == probe
  }

  /** No completion goes to the tier of the failure at event `f` until the TTL is over. */
  predicate FailureHolds(ttl: nat, log: seq<Event>, f: nat) {
    f < |log| && forall j :: f < j < |log| && log[j].Sent? && log[j].tier == log[f].tier ==> log[f].at + ttl <= log[j].at
  }

  /** Every probe that ends after state `s0` was under way in it or began after it. */
  ghost predicate ProbesFrom(s0: State, s: State) {
    && s0.log <= s.log
    && (forall c :: c in s.calls && s.calls[c].Probing? ==> s.calls[c].probe >= |s0.log| || Owned(s0, s.calls[c].probe))
    && (forall k :: |s0.log| <= k < |s.log| && s.log[k].ProbeEnded? ==>
          s.log[k].probe >= |s0.log| || Owned(s0, s.log[k].probe))
  }

  ghost predicate Owned(s: State, probe: nat) {
    exists d :: d in s.calls && OwnsProbe(s.calls[d], probe)
  }

  lemma ProbesFromStep(cfg: Config, s0: State, s: State, a: Action)
    requires ProbesFrom(s0, s)
    ensures ProbesFrom(s0, Apply(cfg, s, a))
  {
    hide Owned, TiersOf;
  }

  lemma {:induction false} ProbesFromExec(cfg: Config, s0: State, s: State, acts: seq<Action>)
    requires ProbesFrom(s0, s)
    ensures ProbesFrom(s0, Exec(cfg, s, acts))
    decreases |acts|
  {
    if acts != [] {
      ProbesFromStep(cfg, s0, s, acts[0]);
      hide ProbesFrom, Apply;
      ProbesFromExec(cfg, s0, Apply(cfg, s, acts[0]), acts[1..]);
    }
  }

  lemma ProbesFromSelf(s: State)
    ensures ProbesFrom(s, s)
  {
    forall c | c in s.calls && s.calls[c].Probing? ensures Owned(s, s.calls[c].probe) {
      assert OwnsProbe(s.calls[c], s.calls[c].probe);
    }
  }

  /** A failure recorded while no probe of the tier is under way holds in every
      continuation. */
  lemma QuietFailureHolds(cfg: Config, s: State, c: nat, more: seq<Action>)
    requires Inv(cfg.ttl, s) && c in s.calls && s.calls[c].Completing?
    requires s.calls[c].i < |s.calls[c].tiers| && !InFlight(s, s.calls[c].tiers[s.calls[c].i])
    ensures FailureHolds(cfg.ttl, Exec(cfg, Apply(cfg, s, Step(c, false)), more).log, |s.log|)
  {
    var f, tier := |s.log|, s.calls[c].tiers[s.calls[c].i];
    var s1 := Apply(cfg, s, Step(c, false));
    assert s1.log == s.log + [Failed(c, tier, s.clock)];
    Keeps(cfg, s, Step(c, false));
    ExecKeeps(cfg, s1, more);
    ProbesFromSelf(s1);
    ProbesFromExec(cfg, s1, s1, more);
    var log := Exec(cfg, s1, more).log;
    assert log[f] == s1.log[f];
    forall j | f < j < |log| && log[j].Sent? && log[j].tier == tier ensures log[f].at + cfg.ttl <= log[j].at {
      SpanningIsInFlight(cfg.ttl, s, s1, c, Exec(cfg, s1, more), j);
    }
  }

  /** A probe that spans the failure was under way when the completion failed. */
  lemma SpanningIsInFlight(ttl: nat, s: State, s1: State, c: nat, end: State, j: nat)
    requires Inv(ttl, s1) && c in s.calls && s.calls[c].Completing? && s.calls[c].i < |s.calls[c].tiers|
    requires s1.calls == s.calls[c := Turn(s.calls[c].tiers, s.calls[c].i + 1)] && |s1.log| == |s.log| + 1
    requires s1.log[|s.log|].Failed? && s1.log[|s.log|].tier == s.calls[c].tiers[s.calls[c].i]
    requires ProbesFrom(s1, end)
    ensures Spanned(end.log, |s.log|, j) ==> InFlight(s, s.calls[c].tiers[s.calls[c].i])
  {
    if Spanned(end.log, |s.log|, j) {
      var p, k :| k < j && Spans(end.log, p, |s.log|, k);
      assert Owned(s1, p);
      var d :| d in s1.calls && OwnsProbe(s1.calls[d], p);
      assert CallOk(ttl, s1.log, s1.clock, s1.calls[d]);
      assert end.log[p] == s1.log[p] && end.log[|s.log|] == s1.log[|s.log|];
      assert d != c && ProbesTier(s.calls[d], s.calls[c].tiers[s.calls[c].i]);
    }
  }

  /** In every run, the TTL of a recorded failure holds in every continuation if and only
      if no probe of the tier is under way when the completion fails. */
  lemma FailureHoldsExactly(cfg: Config, acts: seq<Action>, c: nat)
    requires cfg.ttl > 0
    requires var s := Run(cfg, acts); c in s.calls && s.calls[c].Completing?
    ensures var s := Run(cfg, acts);
      && s.calls[c].i < |s.calls[c].tiers|
      && ((forall more :: FailureHolds(cfg.ttl, Exec(cfg, Apply(cfg, s, Step(c, false)), more).log, |s.log|))
          <==> !InFlight(s, s.calls[c].tiers[s.calls[c].i]))
  {
    var s := Run(cfg, acts);
    RunInv(cfg, acts);
    assert CallOk(cfg.ttl, s.log, s.clock, s.calls[c]);
    hide Run;
    var tier := s.calls[c].tiers[s.calls[c].i];
    if InFlight(s, tier) {
      var d :| d in s.calls && ProbesTier(s.calls[d], tier);
      LateProbeSends(cfg, s, c, d);
    } else {
      forall more ensures FailureHolds(cfg.ttl, Exec(cfg, Apply(cfg, s, Step(c, false)), more).log, |s.log|) {
        QuietFailureHolds(cfg, s, c, more);
      }
    }
  }

  /** The call whose probe was under way sends its completion as soon as the probe
      succeeds, whatever the cache says by then. */
  lemma LateProbeSends(cfg: Config, s: State, c: nat, d: nat)
    requires cfg.ttl > 0 && c in s.calls && s.calls[c].Completing? && s.calls[c].i < |s.calls[c].tiers|
    requires d in s.calls && ProbesTier(s.calls[d], s.calls[c].tiers[s.calls[c].i])
    ensures !FailureHolds(cfg.ttl, Exec(cfg, Apply(cfg, s, Step(c, false)), [Step(d, true)]).log, |s.log|)
  {
    var tier := s.calls[c].tiers[s.calls[c].i];
    var s1 := Apply(cfg, s, Step(c, false));
    var s2 := Apply(cfg, s1, Step(d, true));
    assert Exec(cfg, s1, [Step(d, true)]) == Exec(cfg, s2, []) == s2;
    assert s1.log == s.log + [Failed(c, tier, s.clock)];
    assert s2.log == s1.log + [ProbeEnded(s.calls[d].probe, tier, s.clock, true)] + [Sent(d, tier, s.clock)];
    assert s2.log[|s.log|] == Failed(c, tier, s.clock) && s2.log[|s.log| + 2] == Sent(d, tier, s.clock);
  }

  /** A probe that ends after the failure hides it from the calls that come later: within
      the TTL of the probe's start they trust the tier exactly when the probe succeeded.
      Later they probe again, also when the TTL of the failure is not over. */
  lemma LateProbeHidesFailure(cfg: Config, s: State, c: nat, d: nat, e: nat, ok: bool, wait: nat)
    requires c in s.calls && s.calls[c].Completing? && s.calls[c].i < |s.calls[c].tiers|
    requires d in s.calls && ProbesTier(s.calls[d], s.calls[c].tiers[s.calls[c].i])
    requires e in s.calls && e != c && e != d && s.calls[e].Turn? && s.calls[e].i < |s.calls[e].tiers|
    requires s.calls[e].tiers[s.calls[e].i] == s.calls[c].tiers[s.calls[c].i]
    ensures var s3 := Exec(cfg, s, [Step(c, false), Step(d, ok), Tick(wait)]);
      var s4 := Apply(cfg, s3, Step(e, true));
      && e in s4.calls
      && (s4.calls[e].Completing? <==> ok && s3.clock < s.calls[d].began + cfg.ttl)
      && (s4.calls[e].Probing? <==> s.calls[d].began + cfg.ttl <= s3.clock)
  {
    var s1 := Apply(cfg, s, Step(c, false));
    var s2 := Apply(cfg, s1, Step(d, ok));
    var s3 := Apply(cfg, s2, Tick(wait));
    assert s1.calls[d] == s.calls[d] && s2.calls[e] == s.calls[e];
    ThreeMore(cfg, s, Step(c, false), Step(d, ok), Tick(wait));
    hide Exec;
    assert s3.cache[s.calls[c].tiers[s.calls[c].i]] == R.Entry(s.calls[d].began, ok);
  }

  lemma ThreeMore(cfg: Config, s: State, a: Action, b: Action, c: Action)
    ensures Exec(cfg, s, [a, b, c]) == Apply(cfg, Apply(cfg, Apply(cfg, s, a), b), c)
  {
    hide Apply;
    assert [a, b, c] == [a] + [b, c] && [b, c] == [b] + [c] && [c] == [c] + [];
    var s1 := Apply(cfg, s, a);
    ExecOne(cfg, s, a, [b, c]);
    ExecOne(cfg, s1, b, [c]);
    ExecOne(cfg, Apply(cfg, s1, b), c, []);
    ExecOne(cfg, Apply(cfg, Apply(cfg, s1, b), c), c, []);
  }

  // ---------------------------------------------------------------- a schedule of two calls

  const DEFAULTS := Config(30, "local-secure", "cloud-generalist", "cloud-judge")

  /** Both detector calls probe the tier of detector B: A's probe is under way when B's
      completion fails. */
  const TWO_DETECTORS := [
    Begin(0, "detector_a"), Begin(1, "detector_b"), Step(1, true), Step(0, true), Step(0, false), Step(0, true),
    Step(1, true), Step(1, false), Step(0, true)]

  lemma KnownDistinct(ts: seq<string>, t: string)
    ensures R.Dedupe([]) == [] && R.KnownOf([]) == []
    ensures R.Dedupe(ts + [t]) == if t in ts then R.Dedupe(ts) else R.Dedupe(ts) + [t]
    ensures R.KnownOf(ts + [t]) == R.KnownOf(ts) + (if R.Known(t) then [t] else [])
  {
    assert (ts + [t])[..|ts|] == ts;
  }

  lemma DefaultTiers()
    ensures var a := TiersOf(DEFAULTS, "detector_a"); a.Some? && ["local-secure", "cloud-generalist"] <= a.value
    ensures var b := TiersOf(DEFAULTS, "detector_b"); b.Some? && ["cloud-generalist", "local-base"] <= b.value
  {
    DefaultOrders();
    KnownNames();
    hide R.Known, R.Dedupe, R.KnownOf, R.OrderOf, R.InFirstOrder, R.Distinct;
    FirstTwo("local-secure", "cloud-generalist", ["local-base", "cloud-judge"]);
    FirstTwo("cloud-generalist", "local-base", ["cloud-generalist", "local-secure"]);
  }

  lemma DefaultOrders()
    ensures R.OrderOf("local-secure", "cloud-generalist", "cloud-judge", "detector_a")
            == Some(["local-secure", "cloud-generalist"] + ["local-base", "cloud-judge"])
    ensures R.OrderOf("local-secure", "cloud-generalist", "cloud-judge", "detector_b")
            == Some(["cloud-generalist", "local-base"] + ["cloud-generalist", "local-secure"])
  {
    assert "detector_a"[9] != "detector_b"[9];
    FourTiers("local-secure", "cloud-generalist", "local-base", "cloud-judge");
    FourTiers("cloud-generalist", "local-base", "cloud-generalist", "local-secure");
  }

  lemma FourTiers(t: string, u: string, v: string, w: string)
    ensures [t, u] + [v, w] == [t, u, v, w]
  {
  }

  lemma KnownNames()
    ensures R.Known("local-secure") && R.Known("cloud-generalist") && R.Known("local-base")
    ensures "local-secure" != "cloud-generalist" && "cloud-generalist" != "local-base"
  {
    assert |"local-secure"| == 12 && |"cloud-generalist"| == 16 && |"local-base"| == 10;
  }

  /** Two different known tiers at the head of an order stay there. */
  lemma {:induction false} FirstTwo(t: string, u: string, rest: seq<string>)
    requires t != u && R.Known(t) && R.Known(u)
    ensures [t, u] <= R.Dedupe([t, u] + rest) && [t, u] <= R.KnownOf(R.Dedupe([t, u] + rest))
  {
    hide R.Known, R.Dedupe, R.KnownOf, R.InFirstOrder, R.Distinct;
    if rest == [] {
      KnownDistinct([], t);
      KnownDistinct([t], u);
      assert [] + [t] == [t] && [t] + [u] == [t, u] && [t, u] + rest == [t, u];
    } else {
      var n := |rest| - 1;
      FirstTwo(t, u, rest[..n]);
      var before := [t, u] + rest[..n];
      assert [t, u] + rest == before + [rest[n]];
      KnownDistinct(before, rest[n]);
      KnownDistinct(R.Dedupe(before), rest[n]);
    }
  }

  lemma ExecOne(cfg: Config, s: State, a: Action, acts: seq<Action>)
    ensures Exec(cfg, s, [a] + acts) == Exec(cfg, Apply(cfg, s, a), acts)
    ensures Exec(cfg, s, []) == s
  {
    assert ([a] + acts)[1..] == acts;
  }

  // The states after two, four, six, eight and nine steps, `a` and `b` being the tiers
  // of the two calls.

  function After2(a: seq<string>, b: seq<string>): State {
    State(0, map[], map[0 := Turn(a, 0), 1 := Turn(b, 0)], [])
  }

  function After4(a: seq<string>, b: seq<string>): State
    requires |a| > 0 && |b| > 0
  {
    State(0, map[], map[0 := Probing(a, 0, 0, 1), 1 := Probing(b, 0, 0, 0)],
          [ProbeBegan(1, b[0], 0), ProbeBegan(0, a[0], 0)])
  }

  function After6(a: seq<string>, b: seq<string>): State
    requires |a| > 1 && |b| > 0
  {
    State(0, map[a[0] := R.Entry(0, false)], map[0 := Probing(a, 1, 0, 3), 1 := Probing(b, 0, 0, 0)],
          [ProbeBegan(1, b[0], 0), ProbeBegan(0, a[0], 0), ProbeEnded(1, a[0], 0, false), ProbeBegan(0, a[1], 0)])
  }

  function After8(a: seq<string>, b: seq<string>): State
    requires |a| > 1 && |b| > 0
  {
    State(0, map[a[0] := R.Entry(0, false), b[0] := R.Entry(0, false)],
          map[0 := Probing(a, 1, 0, 3), 1 := Turn(b, 1)],
          [ProbeBegan(1, b[0], 0), ProbeBegan(0, a[0], 0), ProbeEnded(1, a[0], 0, false), ProbeBegan(0, a[1], 0),
           ProbeEnded(0, b[0], 0, true), Sent(1, b[0], 0), Failed(1, b[0], 0)])
  }

  lemma To2(a: seq<string>, b: seq<string>)
    requires TiersOf(DEFAULTS, "detector_a") == Some(a) && TiersOf(DEFAULTS, "detector_b") == Some(b)
    ensures Apply(DEFAULTS, Apply(DEFAULTS, INIT, Begin(0, "detector_a")), Begin(1, "detector_b")) == After2(a, b)
  {
    hide TiersOf;
  }

  lemma To4(cfg: Config, a: seq<string>, b: seq<string>)
    requires |a| > 0 && |b| > 0
    ensures Apply(cfg, Apply(cfg, After2(a, b), Step(1, true)), Step(0, true)) == After4(a, b)
  {
    hide TiersOf;
  }

  lemma To6(cfg: Config, a: seq<string>, b: seq<string>)
    requires |a| > 1 && |b| > 0 && a[0] != a[1]
    ensures Apply(cfg, Apply(cfg, After4(a, b), Step(0, false)), Step(0, true)) == After6(a, b)
  {
    hide TiersOf;
    var mid := Apply(cfg, After4(a, b), Step(0, false));
    assert mid.calls[0] == Turn(a, 1) && mid.cache == map[a[0] := R.Entry(0, false)];
  }

  lemma To8(cfg: Config, a: seq<string>, b: seq<string>)
    requires |a| > 1 && |b| > 0
    ensures Apply(cfg, Apply(cfg, After6(a, b), Step(1, true)), Step(1, false)) == After8(a, b)
  {
    hide TiersOf;
    var mid := Apply(cfg, After6(a, b), Step(1, true));
    assert mid.calls[1] == Completing(b, 0);
  }

  lemma To9(cfg: Config, a: seq<string>, b: seq<string>)
    requires |a| > 1 && |b| > 0
    ensures var log, log' := After8(a, b).log, Apply(cfg, After8(a, b), Step(0, true)).log;
      && |log'| == 9 && log'[6] == log[6] == Failed(1, b[0], 0) && log'[8] == Sent(0, a[1], 0)
  {
    hide TiersOf;
  }

  /** With the default tiers, a completion goes to a tier in the very instant at which
      the other detector's completion on it failed, 30 seconds early. */
  lemma DetectorsBreakTtl()
    ensures var log := Run(DEFAULTS, TWO_DETECTORS).log;
      && |log| == 9 && log[6] == Failed(1, "cloud-generalist", 0) && log[8] == Sent(0, "cloud-generalist", 0)
      && !FailureHolds(DEFAULTS.ttl, log, 6)
  {
    DefaultTiers();
    KnownNames();
    var a, b := TiersOf(DEFAULTS, "detector_a").value, TiersOf(DEFAULTS, "detector_b").value;
    hide TiersOf, Run, Apply, After2, After4, After6, After8, R.Known;
    assert a[0] == "local-secure" && a[1] == "cloud-generalist" == b[0];
    To2(a, b);
    To4(DEFAULTS, a, b);
    To6(DEFAULTS, a, b);
    To8(DEFAULTS, a, b);
    To9(DEFAULTS, a, b);
    RunNine(After2(a, b), After4(a, b), After6(a, b), After8(a, b), Apply(DEFAULTS, After8(a, b), Step(0, true)));
  }

  lemma RunNine(s2: State, s4: State, s6: State, s8: State, s9: State)
    requires Apply(DEFAULTS, Apply(DEFAULTS, INIT, Begin(0, "detector_a")), Begin(1, "detector_b")) == s2
    requires Apply(DEFAULTS, Apply(DEFAULTS, s2, Step(1, true)), Step(0, true)) == s4
    requires Apply(DEFAULTS, Apply(DEFAULTS, s4, Step(0, false)), Step(0, true)) == s6
    requires Apply(DEFAULTS, Apply(DEFAULTS, s6, Step(1, true)), Step(1, false)) == s8
    requires Apply(DEFAULTS, s8, Step(0, true)) == s9
    ensures Run(DEFAULTS, TWO_DETECTORS) == s9
  {
    hide Apply;
    TwoMore(INIT, Begin(0, "detector_a"), Begin(1, "detector_b"), TWO_DETECTORS);
    TwoMore(s2, Step(1, true), Step(0, true), TWO_DETECTORS[2..]);
    TwoMore(s4, Step(0, false), Step(0, true), TWO_DETECTORS[2..][2..]);
    TwoMore(s6, Step(1, true), Step(1, false), TWO_DETECTORS[2..][2..][2..]);
    hide Exec;
    var last := TWO_DETECTORS[2..][2..][2..][2..];
    assert last == [Step(0, true)] + [];
    ExecOne(DEFAULTS, s8, Step(0, true), []);
    ExecOne(DEFAULTS, s9, Step(0, true), []);
  }

  lemma TwoMore(s: State, a: Action, b: Action, acts: seq<Action>)
    requires |acts| >= 2 && acts[0] == a && acts[1] == b
    ensures Exec(DEFAULTS, s, acts) == Exec(DEFAULTS, Apply(DEFAULTS, Apply(DEFAULTS, s, a), b), acts[2..])
  {
    hide Apply;
    assert acts == [a] + acts[1..] && acts[1..] == [b] + acts[2..];
    ExecOne(DEFAULTS, s, a, acts[1..]);
    ExecOne(DEFAULTS, Apply(DEFAULTS, s, a), b, acts[2..]);
  }
}
