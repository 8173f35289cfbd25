/** Tier selection with a timed health cache (aegis/llm/router.py). */
module Router {
  import opened Schemas

  datatype Entry = Entry(at: nat, ok: bool)

  /** What one tier does during one call: the outcome and duration of a probe, the
      completion (None when it raises) and its duration. */
  datatype Reply = Reply(probeOk: bool, probeTime: nat, answer: Option<string>, answerTime: nat)

  datatype Outcome = Answered(tier: string, text: string) | AllFailed | UnknownRole

  /** History: a probe of a tier begins, a completion is sent to it, a completion fails. */
  datatype Event = Probed(tier: string, at: nat, ok: bool) | Started(tier: string, at: nat) | FailedAt(tier: string, at: nat)

  const CLIENTS: set<string> := {"local-secure", "local-base", "cloud-generalist", "cloud-judge"}

  predicate Known(tier: string) {
    tier in CLIENTS
  }

  // ---------------------------------------------------------------- the order of tiers

  predicate Distinct(tiers: seq<string>) {
    forall i, j :: 0 <= i < j < |tiers| ==> tiers[i] != tiers[j]
  }

  function FirstIndex(tiers: seq<string>, t: string): (i: nat)
    ensures i <= |tiers| && (i < |tiers| <==> t in tiers)
    ensures i < |tiers| ==> tiers[i] == t
    ensures forall j :: 0 <= j < i ==> tiers[j] != t
  {
    if tiers == [] || tiers[0] == t then 0 else
      assert tiers == [tiers[0]] + tiers[1..];
      1 + FirstIndex(tiers[1..], t)
  }

  /** The elements of `r` come in the order of their first occurrences in `tiers`. */
  predicate InFirstOrder(tiers: seq<string>, r: seq<string>) {
    forall i, j :: 0 <= i < j < |r| ==> FirstIndex(tiers, r[i]) < FirstIndex(tiers, r[j])
  }

  /** `dict.fromkeys`: first occurrences, in order. */
  function Dedupe(tiers: seq<string>): (r: seq<string>)
    ensures forall t :: t in r <==> t in tiers
    ensures Distinct(r)
    ensures InFirstOrder(tiers, r)
  {
    if tiers == [] then []
    else
      var n := |tiers| - 1;
      var init := Dedupe(tiers[..n]);
      assert tiers == tiers[..n] + [tiers[n]];
      OrderAppend(tiers[..n], tiers[n], init);
      if tiers[n] in tiers[..n] then init else init + [tiers[n]]
  }

  lemma {:induction false} IndexAppend(tiers: seq<string>, more: string, t: string)
    ensures FirstIndex(tiers + [more], t) ==
            if t in tiers then FirstIndex(tiers, t) else if t == more then |tiers| else |tiers| + 1
  {
    if tiers != [] {
      assert (tiers + [more])[1..] == tiers[1..] + [more];
      assert tiers == [tiers[0]] + tiers[1..];
      IndexAppend(tiers[1..], more, t);
    }
  }

  lemma OrderAppend(tiers: seq<string>, more: string, r: seq<string>)
    requires InFirstOrder(tiers, r) && forall t :: t in r <==> t in tiers
    ensures InFirstOrder(tiers + [more], if more in tiers then r else r + [more])
  {
    forall t ensures FirstIndex(tiers + [more], t) ==
                     if t in tiers then FirstIndex(tiers, t) else if t == more then |tiers| else |tiers| + 1
    {
      IndexAppend(tiers, more, t);
    }
    hide FirstIndex;
  }

  function KnownOf(tiers: seq<string>): (r: seq<string>)
    ensures forall t :: t in r <==> t in tiers && Known(t)
  {
    if tiers == [] then []
    else
      var n := |tiers| - 1;
      assert tiers == tiers[..n] + [tiers[n]];
      KnownOf(tiers[..n]) + (if Known(tiers[n]) then [tiers[n]] else [])
  }

  lemma {:induction false} KnownDistinct(tiers: seq<string>)
    requires Distinct(tiers)
    ensures Distinct(KnownOf(tiers))
  {
    hide Known;
    if tiers != [] {
      var n := |tiers| - 1;
      KnownDistinct(tiers[..n]);
      forall i | 0 <= i < |KnownOf(tiers[..n])| ensures KnownOf(tiers[..n])[i] != tiers[n] {
        assert KnownOf(tiers[..n])[i] in tiers[..n];
      }
    }
  }

  lemma {:induction false} KnownPrefix(tiers: seq<string>, i: nat)
    requires i <= |tiers|
    ensures KnownOf(tiers[..i]) <= KnownOf(tiers)
    decreases |tiers| - i
  {
    hide Known;
    if i == |tiers| {
      assert tiers[..i] == tiers;
    } else {
      KnownPrefix(tiers, i + 1);
      assert tiers[..i + 1][..i] == tiers[..i];
    }
  }

  /** `_fallback_order`: None where it raises. */
  function OrderOf(detectorA: string, detectorB: string, judge: string, role: string): Option<seq<string>> {
    if role == "detector_a" then Some([detectorA, "cloud-generalist", "local-base", "cloud-judge"])
    else if role == "detector_b" then Some([detectorB, "local-base", "cloud-generalist", "local-secure"])
    else if role == "judge" then Some([judge, "cloud-judge", "local-secure", "cloud-generalist"])
    else None
  }

  // ---------------------------------------------------------------- what a call should do

  predicate Fresh(ttl: nat, cache: map<string, Entry>, tier: string, now: nat) {
    tier in cache && now - cache[tier].at < ttl
  }

  predicate HealthyAt(ttl: nat, cache: map<string, Entry>, tier: string, now: nat, reply: Reply) {
    if Fresh(ttl, cache, tier, now) then cache[tier].ok else reply.probeOk
  }

  /** How long the health check of a tier takes: a probe, if the cache has no fresh entry. */
  function CheckTime(ttl: nat, cache: map<string, Entry>, tier: string, now: nat, reply: Reply): nat {
    if Fresh(ttl, cache, tier, now) then 0 else reply.probeTime
  }

  /** A tier's turn: the check and, if the tier is healthy, the completion. */
  function TurnTime(ttl: nat, cache: map<string, Entry>, tier: string, now: nat, reply: Reply): nat {
    CheckTime(ttl, cache, tier, now, reply) + (if HealthyAt(ttl, cache, tier, now, reply) then reply.answerTime else 0)
  }

  /** What a tier's turn adds to the history. */
  function TurnLog(ttl: nat, cache: map<string, Entry>, tier: string, now: nat, reply: Reply): seq<Event> {
    var start := now + CheckTime(ttl, cache, tier, now, reply);
    (if Fresh(ttl, cache, tier, now) then [] else [Probed(tier, now, reply.probeOk)])
    + (if !HealthyAt(ttl, cache, tier, now, reply) then []
       else if reply.answer.Some? then [Started(tier, start)]
       else [Started(tier, start), FailedAt(tier, start + reply.answerTime)])
  }

  /** A call: the cache and the clock it finds, the known tiers of its role in order,
      and what each tier does during the call. */
  datatype Call = Call(ttl: nat, cache: map<string, Entry>, start: nat, known: seq<string>, replies: string -> Reply)

  /** Time the k-th known tier's turn comes, all earlier ones having failed. */
  function TurnAt(c: Call, k: nat): nat
    requires k <= |c.known|
  {
    if k == 0 then c.start
    else
      var tier, now := c.known[k - 1], TurnAt(c, k - 1);
      now + TurnTime(c.ttl, c.cache, tier, now, c.replies(tier))
  }

  /** The history of the first k turns. */
  function CallLog(c: Call, k: nat): seq<Event>
    requires k <= |c.known|
  {
    if k == 0 then []
    else
      var tier := c.known[k - 1];
      CallLog(c, k - 1) + TurnLog(c.ttl, c.cache, tier, TurnAt(c, k - 1), c.replies(tier))
  }

  /** The k-th known tier is healthy when its turn comes, and its completion succeeds. */
  predicate Serves(c: Call, k: nat)
    requires k < |c.known|
  {
    var tier := c.known[k];
    HealthyAt(c.ttl, c.cache, tier, TurnAt(c, k), c.replies(tier)) && c.replies(tier).answer.Some?
  }

  /** The first known tier that serves; the number of known tiers if none does. */
  function FirstServing(c: Call, from: nat): (k: nat)
    requires from <= |c.known|
    ensures from <= k <= |c.known|
    ensures k < |c.known| ==> Serves(c, k)
    ensures forall j :: from <= j < k ==> !Serves(c, j)
    decreases |c.known| - from
  {
    if from == |c.known| || Serves(c, from) then from else FirstServing(c, from + 1)
  }

  function OutcomeOf(c: Call, k: nat): Outcome
    requires k < |c.known| ==> Serves(c, k)
  {
    if k < |c.known| then Answered(c.known[k], c.replies(c.known[k]).answer.value) else AllFailed
  }

  // ---------------------------------------------------------------- sequential histories

  predicate IsOutcome(e: Event, tier: string) {
    e.tier == tier && !e.Started?
  }

  /** The cache entry the latest probe or failure of a tier leaves. */
  function Latest(log: seq<Event>, tier: string): Option<Entry> {
    if log == [] then None
    else
      var e := log[|log| - 1];
      if IsOutcome(e, tier) then Some(Entry(e.at, e.Probed? && e.ok))
      else Latest(log[..|log| - 1], tier)
  }

  /** Every probe or failure of a tier is followed by a probe of it only after the
      TTL. A completion follows a latest outcome that was a successful probe. Times
      never run backwards. */
  ghost predicate Sound(ttl: nat, log: seq<Event>, clock: nat) {
    && (forall i :: 0 <= i < |log| ==> log[i].at <= clock)
    && (forall i, j :: 0 <= i < j < |log| ==> log[i].at <= log[j].at)
    && (forall i, j :: 0 <= i < j < |log| && log[j].Probed? && IsOutcome(log[i], log[j].tier) ==>
          log[i].at + ttl <= log[j].at)
    && (forall j :: 0 <= j < |log| && log[j].Started? ==>
          Latest(log[..j], log[j].tier).Some? && Latest(log[..j], log[j].tier).value.ok)
  }

  /** The cache holds the latest probe or failure outcome of each tier. */
  ghost predicate Mirrors(cache: map<string, Entry>, log: seq<Event>) {
    forall t :: (t in cache <==> Latest(log, t).Some?) && (t in cache ==> Latest(log, t) == Some(cache[t]))
  }

  /** Entry `i` is the last outcome of the tier. */
  ghost predicate LastAt(log: seq<Event>, tier: string, i: int) {
    && 0 <= i < |log| && IsOutcome(log[i], tier)
    && forall j :: i < j < |log| ==> !IsOutcome(log[j], tier)
  }

  lemma {:induction false} LatestIsLast(log: seq<Event>, tier: string) returns (i: int)
    ensures Latest(log, tier).None? ==> forall j :: 0 <= j < |log| ==> !IsOutcome(log[j], tier)
    ensures Latest(log, tier).Some? ==>
              LastAt(log, tier, i) && Latest(log, tier) == Some(Entry(log[i].at, log[i].Probed? && log[i].ok))
  {
    i := |log| - 1;
    if log != [] && !IsOutcome(log[i], tier) {
      i := LatestIsLast(log[..|log| - 1], tier);
    }
  }

  lemma MirrorsSnoc(cache: map<string, Entry>, log: seq<Event>, e: Event)
    requires Mirrors(cache, log)
    ensures Mirrors(if e.Started? then cache else cache[e.tier := Entry(e.at, e.Probed? && e.ok)], log + [e])
  {
    assert (log + [e])[..|log|] == log;
  }

  /** When the cache has no fresh entry, a probe now keeps the history sound. */
  lemma ProbeSound(ttl: nat, cache: map<string, Entry>, log: seq<Event>, clock: nat, tier: string, ok: bool)
    requires Sound(ttl, log, clock) && Mirrors(cache, log) && !Fresh(ttl, cache, tier, clock)
    ensures Sound(ttl, log + [Probed(tier, clock, ok)], clock)
  {
    var k := LatestIsLast(log, tier);
    SoundPrefix(log, Probed(tier, clock, ok));
    hide Latest;
    forall i | 0 <= i < |log| && IsOutcome(log[i], tier) ensures log[i].at + ttl <= clock {
      assert i <= k;
    }
  }

  lemma SoundPrefix(log: seq<Event>, e: Event)
    ensures forall j :: 0 <= j < |log| ==> (log + [e])[..j] == log[..j]
    ensures (log + [e])[..|log|] == log
  {
  }

  /** When the latest outcome is a successful probe, a completion may start. */
  lemma StartSound(ttl: nat, log: seq<Event>, clock: nat, tier: string)
    requires Sound(ttl, log, clock) && Latest(log, tier).Some? && Latest(log, tier).value.ok
    ensures Sound(ttl, log + [Started(tier, clock)], clock)
  {
    SoundPrefix(log, Started(tier, clock));
    hide Latest;
  }

  lemma FailSound(ttl: nat, log: seq<Event>, clock: nat, later: nat, tier: string)
    requires Sound(ttl, log, clock) && clock <= later
    ensures Sound(ttl, log + [FailedAt(tier, later)], later)
  {
    SoundPrefix(log, FailedAt(tier, later));
    hide Latest;
  }

  lemma WaitSound(ttl: nat, log: seq<Event>, clock: nat, later: nat)
    requires Sound(ttl, log, clock) && clock <= later
    ensures Sound(ttl, log, later)
  {
    hide Latest;
  }

  // ---------------------------------------------------------------- the router

  /** `attempted[0]` of each counted fallback, and the tier that answered. */
  datatype Fallback = Fallback(from: string, to: string)

  class LlmRouter {
    const ttl: nat
    const detectorA: string
    const detectorB: string
    const judge: string
    var cache: map<string, Entry>
    var clock: nat
    var fallbacks: seq<Fallback>
    ghost var log: seq<Event>

    ghost predicate Valid()
      reads this
    {
      Sound(ttl, log, clock) && Mirrors(cache, log)
    }

    constructor (ttl: nat, detectorA: string, detectorB: string, judge: string, clock: nat)
      ensures Valid() && cache == map[] && log == [] && fallbacks == []
      ensures this.ttl == ttl && this.clock == clock
      ensures this.detectorA == detectorA && this.detectorB == detectorB && this.judge == judge
    {
      this.ttl, this.detectorA, this.detectorB, this.judge := ttl, detectorA, detectorB, judge;
      this.clock, cache, fallbacks, log := clock, map[], [], [];
    }

    /** Time passes between calls. */
    method Wait(d: nat)
      requires Valid()
      modifies this`clock
      ensures Valid() && clock == old(clock) + d
    {
      WaitSound(ttl, log, clock, clock + d);
      clock := clock + d;
    }

    function FallbackOrder(role: string): Option<seq<string>> {
      OrderOf(detectorA, detectorB, judge, role)
    }

    /** `_healthy`. */
    method Healthy(tier: string, reply: Reply) returns (ok: bool)
      requires Valid()
      modifies this`cache, this`clock, this`log
      ensures Valid() && old(log) <= log
      ensures ok == HealthyAt(ttl, old(cache), tier, old(clock), reply)
      ensures clock == old(clock) + (if Fresh(ttl, old(cache), tier, old(clock)) then 0 else reply.probeTime)
      ensures log == old(log) + (if Fresh(ttl, old(cache), tier, old(clock)) then []
                                 else [Probed(tier, old(clock), reply.probeOk)])
      ensures tier in cache && cache[tier].ok == ok
      ensures cache == if Fresh(ttl, old(cache), tier, old(clock)) then old(cache)
                       else old(cache)[tier := Entry(old(clock), reply.probeOk)]
    {
      hide Sound, Mirrors;
      var now := clock;
      if tier in cache && now - cache[tier].at < ttl {
        return cache[tier].ok;
      }
      ok := reply.probeOk;
      ProbeSound(ttl, cache, log, clock, tier, ok);
      MirrorsSnoc(cache, log, Probed(tier, now, ok));
      log := log + [Probed(tier, now, ok)];
      WaitSound(ttl, log, clock, clock + reply.probeTime);
      clock := clock + reply.probeTime;
      cache := cache[tier := Entry(now, ok)];
    }

    /** The completion of one healthy tier, and what its failure records. */
    method Attempt(tier: string, reply: Reply)
      requires Valid() && tier in cache && cache[tier].ok
      modifies this`cache, this`clock, this`log
      ensures Valid() && old(log) <= log
      ensures clock == old(clock) + reply.answerTime
      ensures cache == if reply.answer.Some? then old(cache) else old(cache)[tier := Entry(clock, false)]
      ensures log == old(log) + [Started(tier, old(clock))] + (if reply.answer.Some? then [] else [FailedAt(tier, clock)])
    {
      hide Sound;
      assert Latest(log, tier) == Some(cache[tier]);
      hide Mirrors;
      StartSound(ttl, log, clock, tier);
      MirrorsSnoc(cache, log, Started(tier, clock));
      log := log + [Started(tier, clock)];
      var later := clock + reply.answerTime;
      WaitSound(ttl, log, clock, later);
      if reply.answer.None? {
        FailSound(ttl, log, clock, later, tier);
        MirrorsSnoc(cache, log, FailedAt(tier, later));
        log := log + [FailedAt(tier, later)];
        cache := cache[tier := Entry(later, false)];
      }
      clock := later;
    }

    /** One tier's turn: check its health, then complete on it. */
    method TryTier(tier: string, reply: Reply) returns (served: bool)
      requires Valid()
      modifies this`cache, this`clock, this`log
      ensures Valid()
      ensures served <==> HealthyAt(ttl, old(cache), tier, old(clock), reply) && reply.answer.Some?
      ensures clock == old(clock) + TurnTime(ttl, old(cache), tier, old(clock), reply)
      ensures log == old(log) + TurnLog(ttl, old(cache), tier, old(clock), reply)
      ensures forall t :: t != tier ==> (t in cache <==> t in old(cache)) && (t in cache ==> cache[t] == old(cache)[t])
    {
      hide Sound, Mirrors, Latest;
      var ok := Healthy(tier, reply);
      if !ok {
        return false;
      }
      Attempt(tier, reply);
      return reply.answer.Some?;
    }

    /** `complete`: the first known tier that serves answers, and nobody answers exactly
        when none serves, judged by the cache as the call finds it. The history grows by
        the turns taken, and a fallback is counted exactly when the tier that answers is
        not the first known one. */
    method Complete(role: string, replies: string -> Reply) returns (outcome: Outcome)
      requires Valid()
      modifies this
      ensures Valid()
      ensures outcome.UnknownRole? <==> FallbackOrder(role).None?
      ensures outcome.UnknownRole? ==>
                cache == old(cache) && clock == old(clock) && log == old(log) && fallbacks == old(fallbacks)
      ensures FallbackOrder(role).Some? ==>
                Refines(Call(ttl, old(cache), old(clock), KnownOf(Dedupe(FallbackOrder(role).value)), replies), outcome,
                        clock, old(log), log, old(fallbacks), fallbacks)
      ensures outcome.UnknownRole? <==> role != "detector_a" && role != "detector_b" && role != "judge"
      ensures role == "detector_a" ==>
                Prefers([detectorA, "cloud-generalist", "local-base", "cloud-judge"],
                        ttl, old(cache), old(clock), clock, replies, outcome)
      ensures role == "detector_b" ==>
                Prefers([detectorB, "local-base", "cloud-generalist", "local-secure"],
                        ttl, old(cache), old(clock), clock, replies, outcome)
      ensures role == "judge" ==>
                Prefers([judge, "cloud-judge", "local-secure", "cloud-generalist"],
                        ttl, old(cache), old(clock), clock, replies, outcome)
    {
      hide Sound, Mirrors, Latest, HealthyAt, TurnTime, TurnLog, Progress, Known, KnownOf, Dedupe, Refines,
        Distinct, Serves, FirstServing, TurnAt, CallLog, OrderOf, Prefers;
      NoRole(detectorA, detectorB, judge, role);
      var choice := FallbackOrder(role);
      if choice.None? {
        return UnknownRole;
      }
      var order := Dedupe(choice.value);
      ghost var c := Call(ttl, cache, clock, KnownOf(order), replies);
      KnownDistinct(order);
      var attempted: seq<string> := [];
      assert order[..0] == [];
      NoProgress(c, log);
      for i := 0 to |order|
        invariant attempted == KnownOf(order[..i])
        invariant Valid() && fallbacks == old(fallbacks)
        invariant Progress(c, attempted, cache, clock, old(log), log)
      {
        var tier := order[i];
        KnownStep(order, i);
        if !Known(tier) {
          continue;
        }
        ghost var before, began, logged := cache, clock, log;
        attempted := attempted + [tier];
        var served := TryTier(tier, replies(tier));
        ProgressStep(c, attempted, before, began, old(log), logged, cache, clock, log, served);
        if served {
          outcome := Answered(tier, replies(tier).answer.value);
          ServedRefines(c, attempted, clock, old(log), log, fallbacks);
          if tier != attempted[0] {
            fallbacks := fallbacks + [Fallback(attempted[0], tier)];
          }
          RolePrefers(detectorA, detectorB, judge, role, c, outcome, clock, old(log), log, old(fallbacks), fallbacks);
          return;
        }
      }
      assert order[..|order|] == order;
      NoneRefines(c, attempted, cache, clock, old(log), log, fallbacks);
      RolePrefers(detectorA, detectorB, judge, role, c, AllFailed, clock, old(log), log, old(fallbacks), fallbacks);
      return AllFailed;
    }
  }

  // ---------------------------------------------------------------- which tier answers

  /** A client is configured for the tier. */
  predicate HasClient(tier: string) {
    tier == "local-secure" || tier == "local-base" || tier == "cloud-generalist" || tier == "cloud-judge"
  }

  /** The tier is healthy at that time, judged by the cache the call finds, and its
      completion succeeds. */
  predicate WouldServe(ttl: nat, cache: map<string, Entry>, tier: string, now: nat, reply: Reply) {
    HealthyAt(ttl, cache, tier, now, reply) && reply.answer.Some?
  }

  /** At some time of the call the tier would not have served. */
  ghost predicate Failing(ttl: nat, cache: map<string, Entry>, start: nat, end: nat, tier: string, reply: Reply) {
    exists now :: start <= now <= end && !WouldServe(ttl, cache, tier, now, reply)
  }

  /** The tier that answers has a client, and every tier with a client that comes before
      it in `order` fails; nobody answers only when all of them fail. The first tier
      answers whenever it has a client and serves at once. */
  ghost predicate Prefers(order: seq<string>, ttl: nat, cache: map<string, Entry>, start: nat, end: nat,
                          replies: string -> Reply, outcome: Outcome)
    requires order != []
  {
    && !outcome.UnknownRole?
    && (outcome.Answered? ==>
          (&& HasClient(outcome.tier) && replies(outcome.tier).answer == Some(outcome.text)
           && exists m :: 0 <= m < |order| && order[m] == outcome.tier
                && forall j :: 0 <= j < m && HasClient(order[j]) ==>
                     Failing(ttl, cache, start, end, order[j], replies(order[j]))))
    && (outcome.AllFailed? ==>
          forall j :: 0 <= j < |order| && HasClient(order[j]) ==>
            Failing(ttl, cache, start, end, order[j], replies(order[j])))
    && (HasClient(order[0]) && WouldServe(ttl, cache, order[0], start, replies(order[0])) ==>
          outcome == Answered(order[0], replies(order[0]).answer.value))
  }

  lemma KnownHasClient()
    ensures forall t :: Known(t) <==> HasClient(t)
  {
  }

  lemma {:induction false} KnownInOrder(base: seq<string>, tiers: seq<string>)
    requires InFirstOrder(base, tiers)
    ensures InFirstOrder(base, KnownOf(tiers))
  {
    hide FirstIndex, Known;
    if tiers != [] {
      var n := |tiers| - 1;
      KnownInOrder(base, tiers[..n]);
      forall i | 0 <= i < |KnownOf(tiers[..n])|
        ensures FirstIndex(base, KnownOf(tiers[..n])[i]) < FirstIndex(base, tiers[n])
      {
        assert KnownOf(tiers[..n])[i] in tiers[..n];
        var k :| 0 <= k < n && tiers[k] == KnownOf(tiers[..n])[i];
      }
    }
  }

  lemma {:induction false} TurnsAscend(c: Call, i: nat, j: nat)
    requires i <= j <= |c.known|
    ensures c.start <= TurnAt(c, i) <= TurnAt(c, j)
    decreases j
  {
    hide TurnTime;
    if j > 0 {
      TurnsAscend(c, if i < j then i else i - 1, j - 1);
    }
  }

  /** A known tier that was passed over failed. */
  lemma PassedOver(c: Call, q: nat, turns: nat)
    requires q < |c.known| && q <= turns <= |c.known| && !Serves(c, q)
    ensures Failing(c.ttl, c.cache, c.start, TurnAt(c, turns), c.known[q], c.replies(c.known[q]))
  {
    assert !WouldServe(c.ttl, c.cache, c.known[q], TurnAt(c, q), c.replies(c.known[q]));
    TurnsAscend(c, q, turns);
    hide TurnAt, HealthyAt;
  }

  /** Every tier of the order that comes before a known tier, and is known itself, comes
      before it in the known tiers. */
  lemma EarlierKnown(order: seq<string>, known: seq<string>, q: nat, tier: string)
    requires InFirstOrder(order, known) && q < |known| && tier in known
    requires FirstIndex(order, tier) < FirstIndex(order, known[q])
    ensures exists i :: 0 <= i < q && known[i] == tier
  {
    var i :| 0 <= i < |known| && known[i] == tier;
    hide FirstIndex;
  }

  ghost predicate AllFailing(order: seq<string>, n: nat, c: Call, end: nat)
    requires n <= |order|
  {
    forall j :: 0 <= j < n && HasClient(order[j]) ==> Failing(c.ttl, c.cache, c.start, end, order[j], c.replies(order[j]))
  }

  /** All that comes before the k-th known tier fails; everything, when k is past the end. */
  lemma BeforeFails(order: seq<string>, c: Call, k: nat, n: nat, end: nat)
    requires InFirstOrder(order, c.known) && k <= |c.known| && n <= |order|
    requires forall t :: t in order && HasClient(t) ==> t in c.known
    requires forall i :: 0 <= i < k ==>
               Failing(c.ttl, c.cache, c.start, end, c.known[i], c.replies(c.known[i]))
    requires k < |c.known| ==> n <= FirstIndex(order, c.known[k])
    ensures AllFailing(order, n, c, end)
  {
    forall j | 0 <= j < n && HasClient(order[j])
      ensures Failing(c.ttl, c.cache, c.start, end, order[j], c.replies(order[j]))
    {
      assert order[j] in order && FirstIndex(order, order[j]) <= j;
      hide Failing, FirstIndex, HasClient;
      if k < |c.known| {
        EarlierKnown(order, c.known, k, order[j]);
      }
    }
  }

  lemma PassedFail(c: Call, k: nat, turns: nat)
    requires k <= turns <= |c.known| && forall i :: 0 <= i < k ==> !Serves(c, i)
    ensures forall i :: 0 <= i < k ==>
              Failing(c.ttl, c.cache, c.start, TurnAt(c, turns), c.known[i], c.replies(c.known[i]))
  {
    hide Serves, TurnAt, Failing;
    forall i | 0 <= i < k ensures Failing(c.ttl, c.cache, c.start, TurnAt(c, turns), c.known[i], c.replies(c.known[i])) {
      PassedOver(c, i, turns);
    }
  }

  lemma KnownTiers(order: seq<string>)
    ensures var known := KnownOf(Dedupe(order));
      InFirstOrder(order, known) && forall t :: t in known <==> t in order && HasClient(t)
  {
    KnownHasClient();
    KnownInOrder(order, Dedupe(order));
    hide Known, HasClient, FirstIndex;
  }

  /** The first known tier that serves is the first of the order that does. */
  lemma OutcomePrefers(order: seq<string>, c: Call, outcome: Outcome, end: nat)
    requires order != [] && c.known == KnownOf(Dedupe(order))
    requires outcome == OutcomeOf(c, FirstServing(c, 0))
    requires var k := FirstServing(c, 0); end == TurnAt(c, if k < |c.known| then k + 1 else k)
    ensures Prefers(order, c.ttl, c.cache, c.start, end, c.replies, outcome)
  {
    KnownTiers(order);
    hide *;
    FirstOfOrder(order, c, outcome, end, FirstServing(c, 0));
  }

  lemma FirstOfOrder(order: seq<string>, c: Call, outcome: Outcome, end: nat, k: nat)
    requires order != [] && InFirstOrder(order, c.known) && forall t :: t in c.known <==> t in order && HasClient(t)
    requires k == FirstServing(c, 0) && outcome == OutcomeOf(c, k)
    requires end == TurnAt(c, if k < |c.known| then k + 1 else k)
    ensures Prefers(order, c.ttl, c.cache, c.start, end, c.replies, outcome)
  {
    ServedAnswer(c);
    HeadAnswers(order, c);
    hide *;
    PassedFail(c, k, if k < |c.known| then k + 1 else k);
    if k < |c.known| {
      var m := FirstIndex(order, c.known[k]);
      BeforeFails(order, c, k, m, end);
      AnsweredPrefers(order, c, m, end);
    } else {
      BeforeFails(order, c, k, |order|, end);
      NonePrefers(order, c, end);
    }
  }

  lemma ServedAnswer(c: Call)
    ensures var k := FirstServing(c, 0);
      k < |c.known| ==> c.replies(c.known[k]).answer.Some?
                        && OutcomeOf(c, k) == Answered(c.known[k], c.replies(c.known[k]).answer.value)
    ensures FirstServing(c, 0) == |c.known| ==> OutcomeOf(c, FirstServing(c, 0)) == AllFailed
  {
    hide FirstServing, TurnAt, HealthyAt;
  }

  lemma AnsweredPrefers(order: seq<string>, c: Call, m: nat, end: nat)
    requires m < |order| && HasClient(order[m]) && c.replies(order[m]).answer.Some? && AllFailing(order, m, c, end)
    requires HasClient(order[0]) && WouldServe(c.ttl, c.cache, order[0], c.start, c.replies(order[0])) ==> order[m] == order[0]
    ensures Prefers(order, c.ttl, c.cache, c.start, end, c.replies, Answered(order[m], c.replies(order[m]).answer.value))
  {
    hide Failing, HasClient, WouldServe;
  }

  lemma NonePrefers(order: seq<string>, c: Call, end: nat)
    requires order != [] && AllFailing(order, |order|, c, end)
    requires !(HasClient(order[0]) && WouldServe(c.ttl, c.cache, order[0], c.start, c.replies(order[0])))
    ensures Prefers(order, c.ttl, c.cache, c.start, end, c.replies, AllFailed)
  {
    hide Failing, HasClient, WouldServe;
  }

  /** The head of the order answers if it is known and serves at once. */
  lemma HeadAnswers(order: seq<string>, c: Call)
    requires order != [] && InFirstOrder(order, c.known) && forall t :: t in c.known <==> t in order && HasClient(t)
    ensures HasClient(order[0]) && WouldServe(c.ttl, c.cache, order[0], c.start, c.replies(order[0])) ==>
              OutcomeOf(c, FirstServing(c, 0)) == Answered(order[0], c.replies(order[0]).answer.value)
  {
    hide HealthyAt, HasClient;
    if HasClient(order[0]) {
      HeadFirst(order, c.known);
      assert TurnAt(c, 0) == c.start;
    }
  }

  /** The head of the order is the first known tier if it is known. */
  lemma HeadFirst(order: seq<string>, known: seq<string>)
    requires order != [] && order[0] in known && InFirstOrder(order, known)
    ensures known[0] == order[0]
  {
    var q :| 0 <= q < |known| && known[q] == order[0];
    assert FirstIndex(order, order[0]) == 0;
  }

  lemma RolePrefers(detectorA: string, detectorB: string, judge: string, role: string, c: Call, outcome: Outcome, end: nat,
                    logBefore: seq<Event>, log: seq<Event>, fallbacksBefore: seq<Fallback>, fallbacks: seq<Fallback>)
    requires OrderOf(detectorA, detectorB, judge, role).Some?
    requires c.known == KnownOf(Dedupe(OrderOf(detectorA, detectorB, judge, role).value))
    requires Refines(c, outcome, end, logBefore, log, fallbacksBefore, fallbacks)
    ensures role == "detector_a" || role == "detector_b" || role == "judge"
    ensures role == "detector_a" ==>
              Prefers([detectorA, "cloud-generalist", "local-base", "cloud-judge"],
                      c.ttl, c.cache, c.start, end, c.replies, outcome)
    ensures role == "detector_b" ==>
              Prefers([detectorB, "local-base", "cloud-generalist", "local-secure"],
                      c.ttl, c.cache, c.start, end, c.replies, outcome)
    ensures role == "judge" ==>
              Prefers([judge, "cloud-judge", "local-secure", "cloud-generalist"],
                      c.ttl, c.cache, c.start, end, c.replies, outcome)
  {
    OutcomePrefers(OrderOf(detectorA, detectorB, judge, role).value, c, outcome, end);
    RolesDiffer();
    hide Prefers, KnownOf, Dedupe, Refines;
  }

  lemma RolesDiffer()
    ensures "detector_a" != "detector_b" && "detector_a" != "judge" && "detector_b" != "judge"
  {
    assert "detector_a"[9] != "detector_b"[9] && "detector_a"[0] != "judge"[0] && "detector_b"[0] != "judge"[0];
  }

  lemma NoRole(detectorA: string, detectorB: string, judge: string, role: string)
    ensures OrderOf(detectorA, detectorB, judge, role).None? <==>
              role != "detector_a" && role != "detector_b" && role != "judge"
  {
  }

  /** The outcome of a call, where it leaves the clock, the history and the fallback
      count, by the first known tier that serves. */
  ghost predicate Refines(c: Call, outcome: Outcome, clock: nat, logBefore: seq<Event>, log: seq<Event>,
                          fallbacksBefore: seq<Fallback>, fallbacks: seq<Fallback>)
  {
    var k := FirstServing(c, 0);
    var turns := if k < |c.known| then k + 1 else k;
    && outcome == OutcomeOf(c, k)
    && clock == TurnAt(c, turns)
    && log == logBefore + CallLog(c, turns)
    && fallbacks == fallbacksBefore + (if 0 < k < |c.known| then [Fallback(c.known[0], c.known[k])] else [])
  }

  /** All tiers attempted so far failed, and the cache, the clock and the history are
      where their turns left them. */
  ghost predicate Progress(c: Call, attempted: seq<string>, cache: map<string, Entry>, clock: nat,
                           logBefore: seq<Event>, log: seq<Event>)
  {
    && attempted <= c.known
    && clock == TurnAt(c, |attempted|)
    && log == logBefore + CallLog(c, |attempted|)
    && SameOutside(c.cache, cache, attempted)
    && FirstServing(c, 0) == FirstServing(c, |attempted|)
  }

  lemma NoProgress(c: Call, log: seq<Event>)
    ensures Progress(c, [], c.cache, c.start, log, log)
    ensures KnownOf([]) == []
  {
    assert log + [] == log;
  }

  lemma ProgressStep(c: Call, attempted: seq<string>, before: map<string, Entry>, began: nat,
                     logBefore: seq<Event>, logged: seq<Event>,
                     cache: map<string, Entry>, clock: nat, log: seq<Event>, served: bool)
    requires attempted != [] && attempted <= c.known
    requires var n, tier := |attempted| - 1, attempted[|attempted| - 1];
      && tier !in attempted[..n]
      && Progress(c, attempted[..n], before, began, logBefore, logged)
      && (served <==> HealthyAt(c.ttl, before, tier, began, c.replies(tier)) && c.replies(tier).answer.Some?)
      && clock == began + TurnTime(c.ttl, before, tier, began, c.replies(tier))
      && log == logged + TurnLog(c.ttl, before, tier, began, c.replies(tier))
      && forall t :: t != tier ==> (t in cache <==> t in before) && (t in cache ==> cache[t] == before[t])
    ensures clock == TurnAt(c, |attempted|) && log == logBefore + CallLog(c, |attempted|)
    ensures served ==> Serves(c, |attempted| - 1) && FirstServing(c, 0) == |attempted| - 1
    ensures !served ==> Progress(c, attempted, cache, clock, logBefore, log)
  {
    var n, tier := |attempted| - 1, attempted[|attempted| - 1];
    SameHealth(c.ttl, c.cache, before, attempted[..n], tier, began, c.replies(tier));
    SameOutsideGrows(c.cache, before, cache, attempted);
    UnfoldTurn(c, n);
    hide HealthyAt, TurnTime, TurnLog, SameOutside, TurnAt, CallLog, Serves, FirstServing;
    assert c.known[n] == tier;
    var turn := TurnLog(c.ttl, before, tier, began, c.replies(tier));
    assert logBefore + CallLog(c, n) + turn == logBefore + (CallLog(c, n) + turn);
  }

  lemma UnfoldTurn(c: Call, n: nat)
    requires n < |c.known|
    ensures var tier, now := c.known[n], TurnAt(c, n);
      && TurnAt(c, n + 1) == now + TurnTime(c.ttl, c.cache, tier, now, c.replies(tier))
      && CallLog(c, n + 1) == CallLog(c, n) + TurnLog(c.ttl, c.cache, tier, now, c.replies(tier))
      && (Serves(c, n) <==> HealthyAt(c.ttl, c.cache, tier, now, c.replies(tier)) && c.replies(tier).answer.Some?)
      && FirstServing(c, n) == if Serves(c, n) then n else FirstServing(c, n + 1)
  {
    hide HealthyAt, TurnTime, TurnLog;
  }

  lemma ServedRefines(c: Call, attempted: seq<string>, clock: nat, logBefore: seq<Event>, log: seq<Event>,
                      fallbacks: seq<Fallback>)
    requires attempted != [] && attempted <= c.known
    requires Distinct(c.known)
    requires clock == TurnAt(c, |attempted|) && log == logBefore + CallLog(c, |attempted|)
    requires Serves(c, |attempted| - 1) && FirstServing(c, 0) == |attempted| - 1
    ensures var tier := attempted[|attempted| - 1];
      && c.replies(tier).answer.Some?
      && Refines(c, Answered(tier, c.replies(tier).answer.value), clock, logBefore, log, fallbacks,
                 if tier != attempted[0] then fallbacks + [Fallback(attempted[0], tier)] else fallbacks)
  {
    hide FirstServing, TurnAt, CallLog;
    assert c.known[|attempted| - 1] == attempted[|attempted| - 1];
    assert fallbacks + [] == fallbacks;
  }

  lemma NoneRefines(c: Call, attempted: seq<string>, cache: map<string, Entry>, clock: nat,
                    logBefore: seq<Event>, log: seq<Event>, fallbacks: seq<Fallback>)
    requires Progress(c, attempted, cache, clock, logBefore, log) && attempted == c.known
    ensures Refines(c, AllFailed, clock, logBefore, log, fallbacks, fallbacks)
  {
    assert fallbacks + [] == fallbacks;
  }

  lemma KnownStep(order: seq<string>, i: nat)
    requires i < |order| && Distinct(order)
    ensures var before := KnownOf(order[..i]);
      KnownOf(order[..i + 1]) == if Known(order[i]) then before + [order[i]] else before
    ensures KnownOf(order[..i + 1]) <= KnownOf(order)
    ensures order[i] !in KnownOf(order[..i])
  {
    hide Known;
    assert order[i] !in order[..i];
    hide Distinct;
    KnownPrefix(order, i + 1);
    assert order[..i + 1][..i] == order[..i];
  }

  ghost predicate SameOutside(was: map<string, Entry>, now: map<string, Entry>, tiers: seq<string>) {
    forall t :: t !in tiers ==> (t in now <==> t in was) && (t in now ==> now[t] == was[t])
  }

  lemma SameOutsideGrows(was: map<string, Entry>, before: map<string, Entry>, now: map<string, Entry>, tiers: seq<string>)
    requires tiers != [] && SameOutside(was, before, tiers[..|tiers| - 1])
    requires forall t :: t != tiers[|tiers| - 1] ==> (t in now <==> t in before) && (t in now ==> now[t] == before[t])
    ensures SameOutside(was, now, tiers)
  {
    assert forall t :: t !in tiers ==> t !in tiers[..|tiers| - 1] && t != tiers[|tiers| - 1];
  }

  lemma SameHealth(ttl: nat, was: map<string, Entry>, cache: map<string, Entry>, tiers: seq<string>,
                   tier: string, now: nat, reply: Reply)
    requires SameOutside(was, cache, tiers) && tier !in tiers
    ensures HealthyAt(ttl, cache, tier, now, reply) == HealthyAt(ttl, was, tier, now, reply)
    ensures TurnTime(ttl, cache, tier, now, reply) == TurnTime(ttl, was, tier, now, reply)
    ensures TurnLog(ttl, cache, tier, now, reply) == TurnLog(ttl, was, tier, now, reply)
  {
  }

  /** The turns of a call send no tier two completions. */
  lemma {:induction false} OneStartEach(c: Call, turns: nat)
    requires turns <= |c.known| && Distinct(c.known)
    ensures forall i, j :: 0 <= i < j < |CallLog(c, turns)| && CallLog(c, turns)[i].Started? && CallLog(c, turns)[j].Started?
              ==> CallLog(c, turns)[i].tier != CallLog(c, turns)[j].tier
    ensures forall i :: 0 <= i < |CallLog(c, turns)| ==> CallLog(c, turns)[i].tier in c.known[..turns]
  {
    if turns > 0 {
      OneStartEach(c, turns - 1);
      var tier := c.known[turns - 1];
      var earlier, last := CallLog(c, turns - 1), TurnLog(c.ttl, c.cache, tier, TurnAt(c, turns - 1), c.replies(tier));
      TurnStartsOnce(c.ttl, c.cache, tier, TurnAt(c, turns - 1), c.replies(tier));
      hide TurnLog, TurnAt;
      assert tier !in c.known[..turns - 1];
      assert CallLog(c, turns) == earlier + last;
    }
  }

  lemma TurnStartsOnce(ttl: nat, cache: map<string, Entry>, tier: string, now: nat, reply: Reply)
    ensures var log := TurnLog(ttl, cache, tier, now, reply);
      && (forall i :: 0 <= i < |log| ==> log[i].tier == tier)
      && (forall i, j :: 0 <= i < j < |log| ==> !(log[i].Started? && log[j].Started?))
  {
  }

  // ---------------------------------------------------------------- what a sound history means

  /** After a tier fails a completion, none goes to it for the TTL. */
  lemma NoCompletionAfterFailure(ttl: nat, log: seq<Event>, clock: nat, i: nat, j: nat)
    requires Sound(ttl, log, clock) && i < j < |log|
    requires log[i].FailedAt? && log[j].Started? && log[i].tier == log[j].tier
    ensures log[i].at + ttl <= log[j].at
    ensures exists k :: i < k < j && LastAt(log[..j], log[j].tier, k) && log[k].Probed? && log[k].ok
  {
    var tier := log[j].tier;
    var k := LatestIsLast(log[..j], tier);
    hide Latest;
    assert IsOutcome(log[..j][i], tier);
    assert LastAt(log[..j], tier, k) && log[..j][k] == log[k];
    assert i < k && log[k].Probed? && IsOutcome(log[i], log[k].tier);
  }
}
