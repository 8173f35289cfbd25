/** Which webhooks the idempotency claim turns away, in every run. */
module ScanClaims {
  import opened Schemas
  import opened ScanProtocol
  import opened ScanInvariant
  import opened ScanKeys
  import opened ScanTheorems

  /** No delivery identifier, provider name, PR number or head of a request holds a
      colon. */
  ghost predicate PlainRequests(s: State) {
    forall h :: h in s.handlers && s.handlers[h].req.event.Some? ==> PlainDelivery(s.handlers[h].req.event.value)
  }

  /** Claim `i` was won less than the TTL ago, for the same delivery of the same commit. */
  ghost predicate Holding(cfg: Config, s: State, ev: Event, i: int) {
    && 0 <= i < |s.claimed| && s.store.clock < s.claimed[i].time + cfg.ttl
    && s.claimed[i].handler in s.handlers
    && var req := s.handlers[s.claimed[i].handler].req;
       req.event.Some? && SameDelivery(req.event.value, ev)
  }

  lemma LiveClaim(cfg: Config, clock: nat, claims: map<string, Expiring<()>>, claimed: seq<Claim>, key: string)
    requires ClaimTimes(cfg, clock, claims, claimed)
    ensures Live(claims, key, clock) <==>
            exists i :: 0 <= i < |claimed| && claimed[i].key == key && clock < claimed[i].time + cfg.ttl
  {
    if Live(claims, key, clock) {
      assert Claimed(cfg, claimed, key, claims[key].deadline);
      var i :| 0 <= i < |claimed| && claimed[i].key == key && claims[key].deadline == claimed[i].time + cfg.ttl;
    }
  }

  /** The claim's key is that of its handler's event. */
  lemma ClaimFact(cfg: Config, claimed: seq<Claim>, handlers: map<nat, Handler>, i: nat)
    requires ClaimOwners(cfg, claimed, handlers) && i < |claimed|
    ensures claimed[i].handler in handlers
    ensures var req := handlers[claimed[i].handler].req;
      req.event.Some? && claimed[i].key == DedupeKey(cfg, req.event.value)
  {
    hide DedupeKey;
    assert ClaimOk(cfg, claimed[i].handler, handlers[claimed[i].handler], claimed);
  }

  lemma KeyIsLive(cfg: Config, acts: seq<Action>, ev: Event)
    requires NoCollisions(cfg) && PlainRequests(Run(cfg, acts)) && PlainDelivery(ev)
    ensures var s := Run(cfg, acts);
      Live(s.store.claims, DedupeKey(cfg, ev), s.store.clock) <==> exists i :: Holding(cfg, s, ev, i)
  {
    var s := Run(cfg, acts);
    RunInv(cfg, acts);
    hide Run, HandlersInv, RowsInv, QueueInv, WorkersInv, GaugeInv, ActiveInv, DedupeKey, ClaimTimes, ClaimOwners, Live,
      NoCollisions, PlainDelivery, SameDelivery;
    LiveClaim(cfg, s.store.clock, s.store.claims, s.claimed, DedupeKey(cfg, ev));
    forall i | 0 <= i < |s.claimed|
      ensures Holding(cfg, s, ev, i) <==>
              s.claimed[i].key == DedupeKey(cfg, ev) && s.store.clock < s.claimed[i].time + cfg.ttl
    {
      ClaimFact(cfg, s.claimed, s.handlers, i);
      DedupeKeysExactly(cfg, s.handlers[s.claimed[i].handler].req.event.value, ev);
    }
  }

  /** A webhook is turned away as a duplicate exactly when the same delivery of the same
      commit was claimed less than the TTL ago; otherwise its handler wins the claim and
      goes on to insert a scan, or to queue the dialog. */
  lemma DuplicateExactly(cfg: Config, acts: seq<Action>, h: nat, uuid: ScanId)
    requires NoCollisions(cfg) && PlainRequests(Run(cfg, acts))
    requires var s := Run(cfg, acts); h in s.handlers && s.handlers[h].pc.Claiming?
    ensures var s := Run(cfg, acts); var s' := Apply(cfg, s, Handle(h, uuid)); var ev := s.handlers[h].pc.ev;
      && s.handlers[h].req.event == Some(ev) && h in s'.handlers
      && if exists i :: Holding(cfg, s, ev, i)
         then s'.handlers[h].pc == Replied(if ev.kind.Comment? then DialogQueued else Duplicate)
         else s'.handlers[h].pc == if ev.kind.Comment? then Asking(ev) else Inserting(ev)
  {
    var s := Run(cfg, acts);
    ClaimingEvent(cfg, acts, h);
    KeyIsLive(cfg, acts, s.handlers[h].pc.ev);
    hide Run, NoCollisions, PlainDelivery, Holding, DedupeKey, Live;
  }

  lemma ClaimingEvent(cfg: Config, acts: seq<Action>, h: nat)
    requires h in Run(cfg, acts).handlers && Run(cfg, acts).handlers[h].pc.Claiming?
    ensures Run(cfg, acts).handlers[h].req.event == Some(Run(cfg, acts).handlers[h].pc.ev)
  {
    var s := Run(cfg, acts);
    RunInv(cfg, acts);
    hide Run, RowsInv, ClaimsInv, QueueInv, WorkersInv, GaugeInv, ActiveInv, Written;
    assert HandlerOk(h, s.handlers[h], s.rows, s.store.events, s.writes);
  }
}
