/** The inductive invariant of the scan protocol. Each conjunct names only the
    components it speaks of, so a step that leaves them alone keeps it.

    For each action there is one lemma that the action keeps the invariant, built from
    lemmas about single conjuncts under the change that the action makes (`...Keeps...`)
    and facts that a conjunct gives about one handler or one job (`...Fact`). `Keeps`
    joins them. */
module ScanInvariant {
  import opened Schemas
  import opened ScanProtocol

  /** Index of the last write to an active-head key. */
  ghost function LastWrite(ws: seq<Write>, key: string): (r: Option<nat>)
    ensures r.Some? ==> r.value < |ws| && ws[r.value].key == key
    ensures r.Some? ==> forall i :: r.value < i < |ws| ==> ws[i].key != key
    ensures r.None? ==> forall i :: 0 <= i < |ws| ==> ws[i].key != key
  {
    if ws == [] then None
    else if ws[|ws| - 1].key == key then Some(|ws| - 1)
    else LastWrite(ws[..|ws| - 1], key)
  }

  ghost predicate Written(ws: seq<Write>, id: ScanId) {
    exists i :: 0 <= i < |ws| && ws[i].id == id
  }

  /** After its own write of the active head, another enqueue wrote a different head
      under the same key. */
  ghost predicate Overtaken(ws: seq<Write>, id: ScanId) {
    exists i, j :: 0 <= i < j < |ws| && ws[i].id == id && ws[j].key == ws[i].key && ws[j].head != ws[i].head
  }

  function HeldId(pc: HandlerPc): Option<ScanId> {
    match pc
    case Storing(id, _) => Some(id)
    case Activating(id, _) => Some(id)
    case Enqueuing(id, _) => Some(id)
    case Counting(id) => Some(id)
    case Replied(ScanQueued(id)) => Some(id)
    case _ => None
  }

  /** The handler's job is in the queue or was delivered. */
  predicate PastEnqueue(pc: HandlerPc) {
    pc.Counting? || (pc.Replied? && pc.response.ScanQueued?)
  }

  /** The request passed every check before the claim, the claim was won, and the
      event asks for a scan. */
  ghost predicate Admitted(hd: Handler, ev: Event) {
    Gate(hd.req) == Claiming(ev) && hd.claim.Some? && !ev.kind.Comment?
  }

  ghost predicate Holds(h: nat, hd: Handler, rows: map<ScanId, Row>, id: ScanId) {
    id in rows && rows[id].handler == h && Admitted(hd, rows[id].ev)
  }

  ghost predicate HandlerOk(h: nat, hd: Handler, rows: map<ScanId, Row>,
                            events: map<ScanId, Expiring<Event>>, writes: seq<Write>)
  {
    match hd.pc
    case Claiming(ev) => Gate(hd.req) == Claiming(ev) && hd.claim.None?
    case Inserting(ev) => Admitted(hd, ev)
    case Asking(ev) => Gate(hd.req) == Claiming(ev) && hd.claim.Some? && ev.kind.Comment?
    case Storing(id, ev) =>
      Holds(h, hd, rows, id) && rows[id].ev == ev && id !in events && !Written(writes, id)
    case Activating(id, ev) =>
      Holds(h, hd, rows, id) && rows[id].ev == ev && id in events && !Written(writes, id)
    case Enqueuing(id, ev) =>
      Holds(h, hd, rows, id) && rows[id].ev == ev && id in events && Written(writes, id)
    case Counting(id) => Holds(h, hd, rows, id) && id in events && Written(writes, id)
    case Replied(r) => r.ScanQueued? ==> Holds(h, hd, rows, r.id) && r.id in events && Written(writes, r.id)
  }

  ghost predicate HandlersInv(handlers: map<nat, Handler>, rows: map<ScanId, Row>,
                              events: map<ScanId, Expiring<Event>>, writes: seq<Write>)
  {
    && (forall h :: h in handlers ==> HandlerOk(h, handlers[h], rows, events, writes))
    && (forall id :: id in rows ==>
          rows[id].handler in handlers && HeldId(handlers[rows[id].handler].pc) == Some(id))
  }

  ghost predicate RowsInv(rows: map<ScanId, Row>, scans: map<ScanId, Scan>, events: map<ScanId, Expiring<Event>>) {
    && rows.Keys == scans.Keys
    && (forall id :: id in rows ==> scans[id].ev == rows[id].ev)
    && (forall id :: id in events ==> id in rows && events[id].value == rows[id].ev)
  }

  ghost predicate ClaimOk(cfg: Config, h: nat, hd: Handler, claimed: seq<Claim>) {
    hd.claim.Some? ==>
      && hd.claim.value < |claimed| && claimed[hd.claim.value].handler == h
      && Gate(hd.req).Claiming?
      && claimed[hd.claim.value].key == DedupeKey(cfg, Gate(hd.req).ev)
  }

  /** Claims of a key are the TTL apart, and its deadline is that of some claim. */
  ghost predicate ClaimTimes(cfg: Config, clock: nat, claims: map<string, Expiring<()>>, claimed: seq<Claim>) {
    && (forall i :: 0 <= i < |claimed| ==>
          && claimed[i].time <= clock
          && claimed[i].key in claims
          && claimed[i].time + cfg.ttl <= claims[claimed[i].key].deadline)
    && (forall i, j :: 0 <= i < j < |claimed| && claimed[i].key == claimed[j].key ==>
          claimed[i].time + cfg.ttl <= claimed[j].time)
    && (forall k :: k in claims ==> Claimed(cfg, claimed, k, claims[k].deadline))
  }

  /** Handlers and their claims point at each other. */
  ghost predicate ClaimOwners(cfg: Config, claimed: seq<Claim>, handlers: map<nat, Handler>) {
    && (forall h :: h in handlers ==> ClaimOk(cfg, h, handlers[h], claimed))
    && (forall i :: 0 <= i < |claimed| ==>
          claimed[i].handler in handlers && handlers[claimed[i].handler].claim == Some(i))
  }

  ghost predicate ClaimsInv(cfg: Config, clock: nat, claims: map<string, Expiring<()>>,
                            claimed: seq<Claim>, handlers: map<nat, Handler>)
  {
    ClaimTimes(cfg, clock, claims, claimed) && ClaimOwners(cfg, claimed, handlers)
  }

  /** Some claim of the key set this deadline. */
  ghost predicate Claimed(cfg: Config, claimed: seq<Claim>, key: string, deadline: nat) {
    exists i :: 0 <= i < |claimed| && claimed[i].key == key && deadline == claimed[i].time + cfg.ttl
  }

  /** The write is the one that the row's enqueue makes. */
  ghost predicate WriteOk(clock: nat, w: Write, rows: map<ScanId, Row>) {
    && w.id in rows && w.time <= clock
    && w.key == ActiveKey(rows[w.id].ev) && w.head == HeadOf(rows[w.id].ev)
  }

  /** An active key holds the head of the last write to it. */
  ghost predicate ActiveMirrors(active: map<string, Expiring<string>>, writes: seq<Write>) {
    forall k ::
      match LastWrite(writes, k)
      case None => k !in active
      case Some(i) => k in active && active[k] == Expiring(writes[i].head, writes[i].time + KEY_TTL)
  }

  ghost predicate ActiveInv(clock: nat, active: map<string, Expiring<string>>, writes: seq<Write>,
                            rows: map<ScanId, Row>)
  {
    && (forall i :: 0 <= i < |writes| ==> WriteOk(clock, writes[i], rows))
    && (forall i, j :: 0 <= i < j < |writes| ==> writes[i].id != writes[j].id)
    && ActiveMirrors(active, writes)
  }

  /** A row's job is queued or delivered exactly when its handler is past the enqueue. */
  ghost predicate QueueInv(queue: multiset<ScanId>, workers: map<ScanId, WorkerPc>,
                           rows: map<ScanId, Row>, handlers: map<nat, Handler>)
  {
    && (forall id :: id in queue || id in workers <==>
          id in rows && rows[id].handler in handlers && PastEnqueue(handlers[rows[id].handler].pc))
    && (forall id :: id in queue ==> queue[id] == 1 && id !in workers)
  }

  ghost predicate WorkerOk(clock: nat, id: ScanId, pc: WorkerPc, scan: Scan, finished: nat,
                           events: map<ScanId, Expiring<Event>>, writes: seq<Write>)
  {
    match pc
    case Loading => scan.status == Queued && finished == 0
    case Checking(ev) => scan.status == Queued && finished == 0 && ev == scan.ev
    case Marking => scan.status == Queued && finished == 0
    case Body(n) => scan.status == Running && finished == 0 && n < BODY_STEPS
    case Finishing(st) =>
      && finished == 0 && Terminal(st)
      && (if st.Superseded? then scan.status == Queued && Overtaken(writes, id) else scan.status == Running)
    case Decrementing(st) => finished == 1 && scan.status == st && Terminal(st)
    case Done(st) => finished == 1 && scan.status == st && Terminal(st)
    case Lost =>
      finished == 0 && scan.status == Queued && id in events && events[id].deadline <= clock
    case Cancelled => finished == if Terminal(scan.status) then 1 else 0
  }

  ghost predicate WorkersInv(clock: nat, workers: map<ScanId, WorkerPc>, scans: map<ScanId, Scan>,
                             finishes: multiset<ScanId>, events: map<ScanId, Expiring<Event>>, writes: seq<Write>)
  {
    && (forall id :: id in workers ==>
          id in scans && WorkerOk(clock, id, workers[id], scans[id], finishes[id], events, writes))
    && (forall id :: id in scans && id !in workers ==> scans[id].status == Queued)
    && (forall id :: id !in workers ==> finishes[id] == 0)
    && (forall id :: id in scans && scans[id].status == Superseded ==> Overtaken(writes, id))
  }

  ghost function Unfinished(workers: map<ScanId, WorkerPc>): set<ScanId> {
    set id | id in workers && !workers[id].Done?
  }

  ghost function Uncounted(handlers: map<nat, Handler>): set<nat> {
    set h | h in handlers && handlers[h].pc.Counting?
  }

  ghost predicate GaugeInv(gauge: int, queue: multiset<ScanId>, workers: map<ScanId, WorkerPc>,
                           handlers: map<nat, Handler>)
  {
    gauge == |queue| + |Unfinished(workers)| - |Uncounted(handlers)|
  }

  ghost predicate Inv(cfg: Config, s: State) {
    && HandlersInv(s.handlers, s.rows, s.store.events, s.writes)
    && RowsInv(s.rows, s.store.scans, s.store.events)
    && ClaimsInv(cfg, s.store.clock, s.store.claims, s.claimed, s.handlers)
    && ActiveInv(s.store.clock, s.store.active, s.writes, s.rows)
    && QueueInv(s.store.queue, s.workers, s.rows, s.handlers)
    && WorkersInv(s.store.clock, s.workers, s.store.scans, s.finishes, s.store.events, s.writes)
    && GaugeInv(s.store.gauge, s.store.queue, s.workers, s.handlers)
  }

  lemma InitInv(cfg: Config)
    ensures Inv(cfg, INIT)
  {
  }

  // ---------------------------------------------------------------- the gauge's sets

  lemma UncountedUpdate(handlers: map<nat, Handler>, h: nat, hd: Handler)
    ensures |Uncounted(handlers[h := hd])| ==
            |Uncounted(handlers)| - (if h in handlers && handlers[h].pc.Counting? then 1 else 0)
            + (if hd.pc.Counting? then 1 else 0)
  {
    var was, now := Uncounted(handlers), Uncounted(handlers[h := hd]);
    assert forall k :: k in now <==> if k == h then hd.pc.Counting? else k in was;
    assert h in was <==> h in handlers && handlers[h].pc.Counting?;
    hide Uncounted;
    Swapped(was, now, h);
  }

  lemma UnfinishedUpdate(workers: map<ScanId, WorkerPc>, id: ScanId, pc: WorkerPc)
    ensures |Unfinished(workers[id := pc])| ==
            |Unfinished(workers)| - (if id in workers && !workers[id].Done? then 1 else 0)
            + (if pc.Done? then 0 else 1)
  {
    var was, now := Unfinished(workers), Unfinished(workers[id := pc]);
    assert forall k :: k in now <==> if k == id then !pc.Done? else k in was;
    assert id in was <==> id in workers && !workers[id].Done?;
    hide Unfinished;
    Swapped(was, now, id);
  }

  /** Two sets that differ at most in `x`. */
  lemma Swapped<T>(was: set<T>, now: set<T>, x: T)
    requires forall y :: y != x ==> (y in was <==> y in now)
    ensures |now| == |was| - (if x in was then 1 else 0) + (if x in now then 1 else 0)
  {
    assert was - {x} == now - {x};
    Without(was, x);
    Without(now, x);
  }

  lemma Without<T>(s: set<T>, x: T)
    ensures |s| == |s - {x}| + (if x in s then 1 else 0)
  {
    if x in s {
      assert s == (s - {x}) + {x};
    } else {
      assert s == s - {x};
    }
  }

  // ---------------------------------------------------------------- moves of one handler

  /** A handler that already has its claim settled moves to another program point. */
  lemma MoveKeepsClaims(cfg: Config, clock: nat, claims: map<string, Expiring<()>>, claimed: seq<Claim>,
                        handlers: map<nat, Handler>, h: nat, hd: Handler)
    requires ClaimsInv(cfg, clock, claims, claimed, handlers)
    requires if h in handlers then handlers[h].claim == hd.claim && handlers[h].req == hd.req else hd.claim.None?
    ensures ClaimsInv(cfg, clock, claims, claimed, handlers[h := hd])
  {
    hide ClaimTimes;
  }

  lemma MoveKeepsQueue(queue: multiset<ScanId>, workers: map<ScanId, WorkerPc>, rows: map<ScanId, Row>,
                       handlers: map<nat, Handler>, h: nat, hd: Handler)
    requires QueueInv(queue, workers, rows, handlers)
    requires PastEnqueue(hd.pc) <==> h in handlers && PastEnqueue(handlers[h].pc)
    ensures QueueInv(queue, workers, rows, handlers[h := hd])
  {
  }

  /** One handler moves; the others keep their rows, events and writes. */
  lemma MoveKeepsHandlers(handlers: map<nat, Handler>, rows: map<ScanId, Row>,
                          events: map<ScanId, Expiring<Event>>, writes: seq<Write>, h: nat, hd: Handler)
    requires HandlersInv(handlers, rows, events, writes)
    requires HandlerOk(h, hd, rows, events, writes)
    requires h in handlers ==> HeldId(handlers[h].pc) == None || HeldId(hd.pc) == HeldId(handlers[h].pc)
    ensures HandlersInv(handlers[h := hd], rows, events, writes)
  {
    forall id | id in rows
      ensures rows[id].handler in handlers[h := hd] && HeldId(handlers[h := hd][rows[id].handler].pc) == Some(id)
    {
      if rows[id].handler == h {
        assert HeldId(handlers[h].pc) == Some(id);
      }
    }
  }

  /** A handler moves between points at which it holds no scan. */
  lemma QuietMove(cfg: Config, s: State, h: nat, hd: Handler)
    requires Inv(cfg, s)
    requires if h in s.handlers then s.handlers[h].claim == hd.claim && s.handlers[h].req == hd.req else hd.claim.None?
    requires h in s.handlers ==> HeldId(s.handlers[h].pc) == None
    requires HeldId(hd.pc) == None
    requires HandlerOk(h, hd, s.rows, s.store.events, s.writes)
    ensures Inv(cfg, s.(handlers := s.handlers[h := hd]))
  {
    hide HandlersInv, RowsInv, ClaimsInv, QueueInv, WorkersInv, ActiveInv;
    MoveKeepsHandlers(s.handlers, s.rows, s.store.events, s.writes, h, hd);
    MoveKeepsClaims(cfg, s.store.clock, s.store.claims, s.claimed, s.handlers, h, hd);
    MoveKeepsQueue(s.store.queue, s.workers, s.rows, s.handlers, h, hd);
    UncountedUpdate(s.handlers, h, hd);
  }

  // ---------------------------------------------------------------- one lemma a step

  lemma TickKeepsActive(clock: nat, d: nat, active: map<string, Expiring<string>>, writes: seq<Write>,
                        rows: map<ScanId, Row>)
    requires ActiveInv(clock, active, writes, rows)
    ensures ActiveInv(clock + d, active, writes, rows)
  {
  }

  lemma TickKeepsWorkers(clock: nat, d: nat, workers: map<ScanId, WorkerPc>, scans: map<ScanId, Scan>,
                         finishes: multiset<ScanId>, events: map<ScanId, Expiring<Event>>, writes: seq<Write>)
    requires WorkersInv(clock, workers, scans, finishes, events, writes)
    ensures WorkersInv(clock + d, workers, scans, finishes, events, writes)
  {
    hide Overtaken;
  }

  lemma TickKeepsClaims(cfg: Config, clock: nat, d: nat, claims: map<string, Expiring<()>>,
                        claimed: seq<Claim>, handlers: map<nat, Handler>)
    requires ClaimsInv(cfg, clock, claims, claimed, handlers)
    ensures ClaimsInv(cfg, clock + d, claims, claimed, handlers)
  {
  }

  lemma TickKeeps(cfg: Config, s: State, d: nat)
    requires Inv(cfg, s)
    ensures Inv(cfg, TickStep(s, d))
  {
    hide HandlersInv, RowsInv, ClaimsInv, QueueInv, WorkersInv, GaugeInv, ActiveInv;
    TickKeepsActive(s.store.clock, d, s.store.active, s.writes, s.rows);
    TickKeepsWorkers(s.store.clock, d, s.workers, s.store.scans, s.finishes, s.store.events, s.writes);
    TickKeepsClaims(cfg, s.store.clock, d, s.store.claims, s.claimed, s.handlers);
  }

  lemma ArriveKeeps(cfg: Config, s: State, h: nat, req: Request)
    requires Inv(cfg, s) && h !in s.handlers
    ensures Inv(cfg, ArriveStep(s, h, req))
  {
    hide HandlersInv, RowsInv, ClaimsInv, QueueInv, WorkersInv, GaugeInv, ActiveInv;
    QuietMove(cfg, s, h, Handler(req, None, Gate(req)));
  }

  lemma ClaimWonKeepsClaims(cfg: Config, st: Store, claimed: seq<Claim>, handlers: map<nat, Handler>,
                            h: nat, hd: Handler, key: string)
    requires ClaimsInv(cfg, st.clock, st.claims, claimed, handlers)
    requires Claimable(st, key)
    requires h in handlers && handlers[h].claim.None?
    requires hd.claim == Some(|claimed|) && Gate(hd.req).Claiming? && DedupeKey(cfg, Gate(hd.req).ev) == key
    ensures ClaimsInv(cfg, st.clock, PutClaim(cfg, st, key).claims, claimed + [Claim(key, st.clock, h)],
                      handlers[h := hd])
  {
    hide DedupeKey, ClaimTimes, ClaimOwners, Gate, PutClaim;
    ClaimWonKeepsTimes(cfg, st, claimed, h, key);
    ClaimWonKeepsOwners(cfg, st.clock, claimed, handlers, h, hd, key);
  }

  lemma ClaimWonKeepsOwners(cfg: Config, clock: nat, claimed: seq<Claim>, handlers: map<nat, Handler>,
                            h: nat, hd: Handler, key: string)
    requires ClaimOwners(cfg, claimed, handlers) && h in handlers && handlers[h].claim.None?
    requires hd.claim == Some(|claimed|) && Gate(hd.req).Claiming? && DedupeKey(cfg, Gate(hd.req).ev) == key
    ensures ClaimOwners(cfg, claimed + [Claim(key, clock, h)], handlers[h := hd])
  {
    hide DedupeKey, Gate;
    var all, after := claimed + [Claim(key, clock, h)], handlers[h := hd];
    forall k | k in after ensures ClaimOk(cfg, k, after[k], all) {
      if k != h {
        assert ClaimOk(cfg, k, handlers[k], claimed);
      }
    }
    forall i | 0 <= i < |all| ensures all[i].handler in after && after[all[i].handler].claim == Some(i) {
      assert i < |claimed| ==> all[i] == claimed[i];
    }
  }

  lemma ClaimWonKeepsTimes(cfg: Config, st: Store, claimed: seq<Claim>, h: nat, key: string)
    requires ClaimTimes(cfg, st.clock, st.claims, claimed) && Claimable(st, key)
    ensures ClaimTimes(cfg, st.clock, PutClaim(cfg, st, key).claims, claimed + [Claim(key, st.clock, h)])
  {
    var after, all := PutClaim(cfg, st, key).claims, claimed + [Claim(key, st.clock, h)];
    forall k | k in after ensures Claimed(cfg, all, k, after[k].deadline) {
      if k == key {
        assert all[|claimed|].key == key;
      } else {
        ClaimedGrows(cfg, claimed, Claim(key, st.clock, h), k, after[k].deadline);
      }
    }
    hide Claimed;
  }

  lemma ClaimedGrows(cfg: Config, claimed: seq<Claim>, c: Claim, key: string, deadline: nat)
    requires Claimed(cfg, claimed, key, deadline)
    ensures Claimed(cfg, claimed + [c], key, deadline)
  {
    var i :| 0 <= i < |claimed| && claimed[i].key == key && deadline == claimed[i].time + cfg.ttl;
    assert (claimed + [c])[i].key == key;
  }

  lemma ClaimWonKeeps(cfg: Config, s: State, h: nat, ev: Event)
    requires Inv(cfg, s) && h in s.handlers && s.handlers[h].pc == Claiming(ev)
    requires Claimable(s.store, DedupeKey(cfg, ev))
    ensures Inv(cfg, ClaimWonStep(cfg, s, h, ev))
  {
    hide RowsInv, ClaimsInv, QueueInv, WorkersInv, ActiveInv, DedupeKey;
    var hd := Handler(s.handlers[h].req, Some(|s.claimed|), if ev.kind.Comment? then Asking(ev) else Inserting(ev));
    assert HandlerOk(h, s.handlers[h], s.rows, s.store.events, s.writes);
    ClaimWonKeepsClaims(cfg, s.store, s.claimed, s.handlers, h, hd, DedupeKey(cfg, ev));
    hide HandlersInv;
    MoveKeepsHandlers(s.handlers, s.rows, s.store.events, s.writes, h, hd);
    MoveKeepsQueue(s.store.queue, s.workers, s.rows, s.handlers, h, hd);
    UncountedUpdate(s.handlers, h, hd);
  }

  lemma ClaimLostKeeps(cfg: Config, s: State, h: nat, ev: Event)
    requires Inv(cfg, s) && h in s.handlers && s.handlers[h].pc == Claiming(ev)
    ensures Inv(cfg, ClaimLostStep(s, h, ev))
  {
    hide HandlersInv, RowsInv, ClaimsInv, QueueInv, WorkersInv, GaugeInv, ActiveInv;
    QuietMove(cfg, s, h, s.handlers[h].(pc := Replied(if ev.kind.Comment? then DialogQueued else Duplicate)));
  }

  lemma AskKeeps(cfg: Config, s: State, h: nat, ev: Event)
    requires Inv(cfg, s) && h in s.handlers && s.handlers[h].pc == Asking(ev)
    ensures Inv(cfg, AskStep(s, h, ev))
  {
    hide HandlersInv, RowsInv, ClaimsInv, QueueInv, WorkersInv, GaugeInv, ActiveInv;
    QuietMove(cfg, s, h, s.handlers[h].(pc := Replied(DialogQueued)));
  }

  lemma InsertKeepsHandlers(handlers: map<nat, Handler>, rows: map<ScanId, Row>,
                            events: map<ScanId, Expiring<Event>>, writes: seq<Write>, h: nat, ev: Event, uuid: ScanId)
    requires HandlersInv(handlers, rows, events, writes)
    requires h in handlers && handlers[h].pc == Inserting(ev)
    requires uuid !in rows && uuid !in events && !Written(writes, uuid)
    ensures HandlersInv(At(handlers, h, Storing(uuid, ev)), rows[uuid := Row(h, ev)], events, writes)
  {
    hide Written;
    assert HandlerOk(h, handlers[h], rows, events, writes);
    var rows' := rows[uuid := Row(h, ev)];
    forall k | k in handlers && k != h
      ensures HandlerOk(k, handlers[k], rows', events, writes)
    {
      assert HandlerOk(k, handlers[k], rows, events, writes);
    }
  }

  lemma InsertKeepsActive(clock: nat, active: map<string, Expiring<string>>, writes: seq<Write>,
                          rows: map<ScanId, Row>, uuid: ScanId, row: Row)
    requires ActiveInv(clock, active, writes, rows) && uuid !in rows
    ensures ActiveInv(clock, active, writes, rows[uuid := row]) && !Written(writes, uuid)
  {
    hide ActiveKey, HeadOf, ActiveMirrors;
    forall i | 0 <= i < |writes| ensures WriteOk(clock, writes[i], rows[uuid := row]) {
      assert WriteOk(clock, writes[i], rows);
    }
  }

  lemma InsertKeepsWorkers(clock: nat, workers: map<ScanId, WorkerPc>, scans: map<ScanId, Scan>,
                           finishes: multiset<ScanId>, events: map<ScanId, Expiring<Event>>, writes: seq<Write>,
                           uuid: ScanId, ev: Event)
    requires WorkersInv(clock, workers, scans, finishes, events, writes) && uuid !in scans
    ensures WorkersInv(clock, workers, scans[uuid := Scan(ev, Queued)], finishes, events, writes)
    ensures uuid !in workers
  {
    hide Overtaken, WorkerOk;
  }

  lemma InsertKeepsRows(rows: map<ScanId, Row>, scans: map<ScanId, Scan>, events: map<ScanId, Expiring<Event>>,
                        uuid: ScanId, h: nat, ev: Event)
    requires RowsInv(rows, scans, events) && uuid !in scans
    ensures RowsInv(rows[uuid := Row(h, ev)], scans[uuid := Scan(ev, Queued)], events)
    ensures uuid !in rows && uuid !in events
  {
  }

  lemma InsertKeepsRest(s: State, h: nat, ev: Event, uuid: ScanId)
    requires RowsInv(s.rows, s.store.scans, s.store.events)
    requires ActiveInv(s.store.clock, s.store.active, s.writes, s.rows)
    requires WorkersInv(s.store.clock, s.workers, s.store.scans, s.finishes, s.store.events, s.writes)
    requires uuid !in s.store.scans
    ensures var rows, scans := s.rows[uuid := Row(h, ev)], s.store.scans[uuid := Scan(ev, Queued)];
      && RowsInv(rows, scans, s.store.events)
      && ActiveInv(s.store.clock, s.store.active, s.writes, rows)
      && WorkersInv(s.store.clock, s.workers, scans, s.finishes, s.store.events, s.writes)
      && uuid !in s.workers && uuid !in s.store.events && !Written(s.writes, uuid)
  {
    hide ActiveInv, WorkersInv, Written;
    InsertKeepsRows(s.rows, s.store.scans, s.store.events, uuid, h, ev);
    hide RowsInv;
    InsertKeepsActive(s.store.clock, s.store.active, s.writes, s.rows, uuid, Row(h, ev));
    InsertKeepsWorkers(s.store.clock, s.workers, s.store.scans, s.finishes, s.store.events, s.writes, uuid, ev);
  }

  lemma InsertKeepsQueue(queue: multiset<ScanId>, workers: map<ScanId, WorkerPc>, rows: map<ScanId, Row>,
                         handlers: map<nat, Handler>, h: nat, hd: Handler, uuid: ScanId, ev: Event)
    requires QueueInv(queue, workers, rows, handlers)
    requires h in handlers && !PastEnqueue(handlers[h].pc) && !PastEnqueue(hd.pc) && uuid !in rows
    ensures QueueInv(queue, workers, rows[uuid := Row(h, ev)], handlers[h := hd])
  {
  }

  lemma InsertKeeps(cfg: Config, s: State, h: nat, ev: Event, uuid: ScanId)
    requires Inv(cfg, s) && h in s.handlers && s.handlers[h].pc == Inserting(ev)
    requires uuid !in s.store.scans
    ensures Inv(cfg, InsertStep(s, h, ev, uuid))
  {
    assert uuid !in s.rows by { hide HandlersInv, ClaimsInv, QueueInv, WorkersInv, GaugeInv, ActiveInv; }
    hide HandlersInv, RowsInv, ClaimsInv, QueueInv, WorkersInv, ActiveInv;
    var hd := s.handlers[h].(pc := Storing(uuid, ev));
    InsertKeepsRest(s, h, ev, uuid);
    InsertKeepsHandlers(s.handlers, s.rows, s.store.events, s.writes, h, ev, uuid);
    InsertKeepsQueue(s.store.queue, s.workers, s.rows, s.handlers, h, hd, uuid, ev);
    MoveKeepsClaims(cfg, s.store.clock, s.store.claims, s.claimed, s.handlers, h, hd);
    UncountedUpdate(s.handlers, h, hd);
  }

  lemma StashKeepsHandlers(handlers: map<nat, Handler>, rows: map<ScanId, Row>,
                           events: map<ScanId, Expiring<Event>>, writes: seq<Write>,
                           h: nat, id: ScanId, ev: Event, entry: Expiring<Event>)
    requires HandlersInv(handlers, rows, events, writes)
    requires h in handlers && handlers[h].pc == Storing(id, ev)
    ensures id in rows && rows[id].ev == ev
    ensures HandlersInv(At(handlers, h, Activating(id, ev)), rows, events[id := entry], writes)
  {
    hide Written;
    assert HandlerOk(h, handlers[h], rows, events, writes);
    forall k | k in handlers && k != h
      ensures HandlerOk(k, handlers[k], rows, events[id := entry], writes)
    {
      assert HandlerOk(k, handlers[k], rows, events, writes);
    }
  }

  lemma StashKeepsRest(s: State, id: ScanId, ev: Event)
    requires RowsInv(s.rows, s.store.scans, s.store.events)
    requires WorkersInv(s.store.clock, s.workers, s.store.scans, s.finishes, s.store.events, s.writes)
    requires id in s.rows && s.rows[id].ev == ev && id !in s.workers
    ensures var events := s.store.events[id := Expiring(ev, s.store.clock + KEY_TTL)];
      && RowsInv(s.rows, s.store.scans, events)
      && WorkersInv(s.store.clock, s.workers, s.store.scans, s.finishes, events, s.writes)
  {
    hide WorkersInv;
    StashKeepsWorkers(s.store.clock, s.workers, s.store.scans, s.finishes, s.store.events, s.writes, id,
                      Expiring(ev, s.store.clock + KEY_TTL));
  }

  lemma StashKeepsWorkers(clock: nat, workers: map<ScanId, WorkerPc>, scans: map<ScanId, Scan>,
                          finishes: multiset<ScanId>, events: map<ScanId, Expiring<Event>>, writes: seq<Write>,
                          id: ScanId, entry: Expiring<Event>)
    requires WorkersInv(clock, workers, scans, finishes, events, writes) && id !in workers
    ensures WorkersInv(clock, workers, scans, finishes, events[id := entry], writes)
  {
    hide Overtaken;
    forall k | k in workers
      ensures WorkerOk(clock, k, workers[k], scans[k], finishes[k], events[id := entry], writes)
    {
      assert WorkerOk(clock, k, workers[k], scans[k], finishes[k], events, writes);
    }
  }

  /** A job that is waiting or delivered belongs to a handler past its enqueue. */
  lemma HeldJob(queue: multiset<ScanId>, workers: map<ScanId, WorkerPc>, handlers: map<nat, Handler>,
                rows: map<ScanId, Row>, events: map<ScanId, Expiring<Event>>, writes: seq<Write>, h: nat)
    requires HandlersInv(handlers, rows, events, writes) && QueueInv(queue, workers, rows, handlers)
    requires h in handlers && HeldId(handlers[h].pc).Some?
    ensures var id := HeldId(handlers[h].pc).value;
      && id in rows && rows[id].handler == h
      && (PastEnqueue(handlers[h].pc) <==> id in queue || id in workers)
  {
    hide Written;
    assert HandlerOk(h, handlers[h], rows, events, writes);
  }

  lemma StashKeeps(cfg: Config, s: State, h: nat, id: ScanId, ev: Event)
    requires Inv(cfg, s) && h in s.handlers && s.handlers[h].pc == Storing(id, ev)
    ensures Inv(cfg, StashStep(s, h, id, ev))
  {
    hide HandlersInv, RowsInv, ClaimsInv, QueueInv, WorkersInv, ActiveInv;
    var hd := s.handlers[h].(pc := Activating(id, ev));
    HeldJob(s.store.queue, s.workers, s.handlers, s.rows, s.store.events, s.writes, h);
    StashKeepsHandlers(s.handlers, s.rows, s.store.events, s.writes, h, id, ev, Expiring(ev, s.store.clock + KEY_TTL));
    StashKeepsRest(s, id, ev);
    MoveKeepsClaims(cfg, s.store.clock, s.store.claims, s.claimed, s.handlers, h, hd);
    MoveKeepsQueue(s.store.queue, s.workers, s.rows, s.handlers, h, hd);
    UncountedUpdate(s.handlers, h, hd);
  }

  lemma ActivateKeepsHandlers(handlers: map<nat, Handler>, rows: map<ScanId, Row>,
                              events: map<ScanId, Expiring<Event>>, writes: seq<Write>,
                              h: nat, id: ScanId, ev: Event, w: Write)
    requires HandlersInv(handlers, rows, events, writes)
    requires h in handlers && handlers[h].pc == Activating(id, ev) && w.id == id
    ensures id in rows && rows[id].ev == ev && !Written(writes, id)
    ensures HandlersInv(At(handlers, h, Enqueuing(id, ev)), rows, events, writes + [w])
  {
    assert HandlerOk(h, handlers[h], rows, events, writes);
    forall k ensures Written(writes + [w], k) <==> Written(writes, k) || k == id {
      WrittenAppend(writes, w, k);
    }
    hide Written;
    forall k | k in handlers && k != h
      ensures HandlerOk(k, handlers[k], rows, events, writes + [w])
    {
      assert HandlerOk(k, handlers[k], rows, events, writes);
    }
  }

  lemma WrittenAppend(ws: seq<Write>, w: Write, id: ScanId)
    ensures Written(ws + [w], id) <==> Written(ws, id) || w.id == id
  {
    if Written(ws, id) {
      var i :| 0 <= i < |ws| && ws[i].id == id;
      assert (ws + [w])[i].id == id;
    }
    if w.id == id {
      assert (ws + [w])[|ws|].id == id;
    }
  }

  lemma OvertakenAppend(ws: seq<Write>, w: Write, id: ScanId)
    requires Overtaken(ws, id)
    ensures Overtaken(ws + [w], id)
  {
    var i, j :| 0 <= i < j < |ws| && ws[i].id == id && ws[j].key == ws[i].key && ws[j].head != ws[i].head;
    var ws' := ws + [w];
    assert ws'[i] == ws[i] && ws'[j] == ws[j];
  }

  lemma LastWriteAppend(ws: seq<Write>, w: Write, k: string)
    ensures LastWrite(ws + [w], k) == if w.key == k then Some(|ws|) else LastWrite(ws, k)
  {
    assert (ws + [w])[..|ws|] == ws;
  }

  lemma ActivateKeepsWorkers(clock: nat, workers: map<ScanId, WorkerPc>, scans: map<ScanId, Scan>,
                             finishes: multiset<ScanId>, events: map<ScanId, Expiring<Event>>,
                             writes: seq<Write>, w: Write)
    requires WorkersInv(clock, workers, scans, finishes, events, writes)
    ensures WorkersInv(clock, workers, scans, finishes, events, writes + [w])
  {
    hide Overtaken;
    forall id | Overtaken(writes, id) ensures Overtaken(writes + [w], id) {
      OvertakenAppend(writes, w, id);
    }
    var writes' := writes + [w];
    forall id | id in workers ensures WorkerOk(clock, id, workers[id], scans[id], finishes[id], events, writes') {
      assert WorkerOk(clock, id, workers[id], scans[id], finishes[id], events, writes);
    }
  }

  lemma ActivateMirrors(active: map<string, Expiring<string>>, writes: seq<Write>, w: Write)
    requires ActiveMirrors(active, writes)
    ensures ActiveMirrors(active[w.key := Expiring(w.head, w.time + KEY_TTL)], writes + [w])
  {
    forall k ensures LastWrite(writes + [w], k) == if w.key == k then Some(|writes|) else LastWrite(writes, k) {
      LastWriteAppend(writes, w, k);
    }
    hide LastWrite;
  }

  lemma ActivateKeepsActive(st: Store, writes: seq<Write>, rows: map<ScanId, Row>, id: ScanId, ev: Event)
    requires ActiveInv(st.clock, st.active, writes, rows)
    requires id in rows && rows[id].ev == ev && !Written(writes, id)
    ensures ActiveInv(st.clock, SetActive(st, ev).active,
                      writes + [Write(id, ActiveKey(ev), HeadOf(ev), st.clock)], rows)
  {
    hide ActiveMirrors, ActiveKey, HeadOf;
    ActivateMirrors(st.active, writes, Write(id, ActiveKey(ev), HeadOf(ev), st.clock));
  }

  lemma ActivateKeeps(cfg: Config, s: State, h: nat, id: ScanId, ev: Event)
    requires Inv(cfg, s) && h in s.handlers && s.handlers[h].pc == Activating(id, ev)
    ensures Inv(cfg, ActivateStep(s, h, id, ev))
  {
    hide HandlersInv, RowsInv, ClaimsInv, QueueInv, WorkersInv, ActiveInv;
    hide ActiveKey, HeadOf, Written;
    var hd := s.handlers[h].(pc := Enqueuing(id, ev));
    var w := Write(id, ActiveKey(ev), HeadOf(ev), s.store.clock);
    ActivateKeepsHandlers(s.handlers, s.rows, s.store.events, s.writes, h, id, ev, w);
    ActivateKeepsWorkers(s.store.clock, s.workers, s.store.scans, s.finishes, s.store.events, s.writes, w);
    ActivateKeepsActive(s.store, s.writes, s.rows, id, ev);
    MoveKeepsClaims(cfg, s.store.clock, s.store.claims, s.claimed, s.handlers, h, hd);
    MoveKeepsQueue(s.store.queue, s.workers, s.rows, s.handlers, h, hd);
    UncountedUpdate(s.handlers, h, hd);
  }

  lemma EnqueueKeepsQueue(queue: multiset<ScanId>, workers: map<ScanId, WorkerPc>, rows: map<ScanId, Row>,
                          handlers: map<nat, Handler>, h: nat, hd: Handler, id: ScanId)
    requires QueueInv(queue, workers, rows, handlers)
    requires h in handlers && !PastEnqueue(handlers[h].pc) && PastEnqueue(hd.pc)
    requires id in rows && rows[id].handler == h
    requires forall k :: k in rows && rows[k].handler == h ==> k == id
    ensures QueueInv(queue + multiset{id}, workers, rows, handlers[h := hd])
  {
  }

  lemma OneRowEach(handlers: map<nat, Handler>, rows: map<ScanId, Row>,
                   events: map<ScanId, Expiring<Event>>, writes: seq<Write>, h: nat)
    requires HandlersInv(handlers, rows, events, writes) && h in handlers && HeldId(handlers[h].pc).Some?
    ensures forall k :: k in rows && rows[k].handler == h ==> k == HeldId(handlers[h].pc).value
  {
  }

  lemma HandlerFact(handlers: map<nat, Handler>, rows: map<ScanId, Row>,
                    events: map<ScanId, Expiring<Event>>, writes: seq<Write>, h: nat)
    requires HandlersInv(handlers, rows, events, writes) && h in handlers
    ensures HandlerOk(h, handlers[h], rows, events, writes)
  {
  }

  lemma EnqueueKeeps(cfg: Config, s: State, h: nat, id: ScanId)
    requires Inv(cfg, s) && h in s.handlers && s.handlers[h].pc.Enqueuing? && s.handlers[h].pc.id == id
    ensures Inv(cfg, EnqueueStep(s, h, id))
  {
    hide HandlersInv, RowsInv, ClaimsInv, QueueInv, WorkersInv, ActiveInv;
    hide Written;
    var hd := s.handlers[h].(pc := Counting(id));
    HandlerFact(s.handlers, s.rows, s.store.events, s.writes, h);
    OneRowEach(s.handlers, s.rows, s.store.events, s.writes, h);
    MoveKeepsHandlers(s.handlers, s.rows, s.store.events, s.writes, h, hd);
    EnqueueKeepsQueue(s.store.queue, s.workers, s.rows, s.handlers, h, hd, id);
    MoveKeepsClaims(cfg, s.store.clock, s.store.claims, s.claimed, s.handlers, h, hd);
    UncountedUpdate(s.handlers, h, hd);
  }

  lemma CountKeeps(cfg: Config, s: State, h: nat, id: ScanId)
    requires Inv(cfg, s) && h in s.handlers && s.handlers[h].pc == Counting(id)
    ensures Inv(cfg, CountStep(s, h, id))
  {
    hide HandlersInv, RowsInv, ClaimsInv, QueueInv, WorkersInv, ActiveInv;
    hide Written;
    var hd := s.handlers[h].(pc := Replied(ScanQueued(id)));
    HandlerFact(s.handlers, s.rows, s.store.events, s.writes, h);
    MoveKeepsHandlers(s.handlers, s.rows, s.store.events, s.writes, h, hd);
    MoveKeepsQueue(s.store.queue, s.workers, s.rows, s.handlers, h, hd);
    MoveKeepsClaims(cfg, s.store.clock, s.store.claims, s.claimed, s.handlers, h, hd);
    UncountedUpdate(s.handlers, h, hd);
  }

  lemma DeliverKeepsQueue(queue: multiset<ScanId>, workers: map<ScanId, WorkerPc>, rows: map<ScanId, Row>,
                          handlers: map<nat, Handler>, id: ScanId)
    requires QueueInv(queue, workers, rows, handlers) && id in queue
    ensures QueueInv(queue - multiset{id}, workers[id := Loading], rows, handlers)
    ensures id in rows && id !in workers
  {
    assert queue[id] == 1;
  }

  lemma WorkerMoves(clock: nat, workers: map<ScanId, WorkerPc>, scans: map<ScanId, Scan>,
                    finishes: multiset<ScanId>, events: map<ScanId, Expiring<Event>>, writes: seq<Write>,
                    id: ScanId, pc: WorkerPc, scan: Scan, finishes': multiset<ScanId>)
    requires WorkersInv(clock, workers, scans, finishes, events, writes)
    requires id in scans
    requires forall k :: k != id ==> finishes'[k] == finishes[k]
    requires WorkerOk(clock, id, pc, scan, finishes'[id], events, writes)
    requires scan.status == Superseded ==> Overtaken(writes, id)
    ensures WorkersInv(clock, workers[id := pc], scans[id := scan], finishes', events, writes)
  {
    hide Overtaken;
  }

  lemma WorkerFact(clock: nat, workers: map<ScanId, WorkerPc>, scans: map<ScanId, Scan>,
                   finishes: multiset<ScanId>, events: map<ScanId, Expiring<Event>>, writes: seq<Write>, id: ScanId)
    requires WorkersInv(clock, workers, scans, finishes, events, writes)
    requires id in scans
    ensures id in workers ==> WorkerOk(clock, id, workers[id], scans[id], finishes[id], events, writes)
    ensures id !in workers ==> scans[id].status == Queued && finishes[id] == 0
    ensures scans[id].status == Superseded ==> Overtaken(writes, id)
  {
    hide Overtaken;
  }

  lemma KnownWorkerKeepsQueue(queue: multiset<ScanId>, workers: map<ScanId, WorkerPc>, rows: map<ScanId, Row>,
                              handlers: map<nat, Handler>, id: ScanId, pc: WorkerPc)
    requires QueueInv(queue, workers, rows, handlers) && id in workers
    ensures QueueInv(queue, workers[id := pc], rows, handlers)
  {
  }

  lemma UpdateKeepsRows(rows: map<ScanId, Row>, scans: map<ScanId, Scan>, events: map<ScanId, Expiring<Event>>,
                        id: ScanId, scan: Scan)
    requires RowsInv(rows, scans, events) && id in scans && scan.ev == scans[id].ev
    ensures RowsInv(rows, scans[id := scan], events)
  {
  }

  /** The part common to every step of a delivered job. */
  lemma WorkerStepKeeps(cfg: Config, s: State, s': State, id: ScanId, pc: WorkerPc, scan: Scan)
    requires Inv(cfg, s)
    requires id in s.workers && id in s.store.scans && scan.ev == s.store.scans[id].ev
    requires s' == s.(workers := s.workers[id := pc], finishes := s'.finishes,
                      store := s.store.(scans := s.store.scans[id := scan], gauge := s'.store.gauge))
    requires forall k :: k != id ==> s'.finishes[k] == s.finishes[k]
    requires WorkerOk(s.store.clock, id, pc, scan, s'.finishes[id], s.store.events, s.writes)
    requires scan.status == Superseded ==> Overtaken(s.writes, id)
    requires !s.workers[id].Done?
    requires s'.store.gauge == s.store.gauge - (if pc.Done? then 1 else 0)
    ensures Inv(cfg, s')
  {
    hide HandlersInv, RowsInv, ClaimsInv, QueueInv, WorkersInv, ActiveInv;
    hide WorkerOk, Overtaken;
    KnownWorkerKeepsQueue(s.store.queue, s.workers, s.rows, s.handlers, id, pc);
    UpdateKeepsRows(s.rows, s.store.scans, s.store.events, id, scan);
    WorkerMoves(s.store.clock, s.workers, s.store.scans, s.finishes, s.store.events, s.writes, id, pc, scan, s'.finishes);
    UnfinishedUpdate(s.workers, id, pc);
  }

  lemma DeliverKeeps(cfg: Config, s: State, id: ScanId)
    requires Inv(cfg, s) && id in s.store.queue
    ensures Inv(cfg, DeliverStep(s, id))
  {
    hide HandlersInv, RowsInv, ClaimsInv, QueueInv, WorkersInv, ActiveInv;
    hide Overtaken;
    DeliverKeepsQueue(s.store.queue, s.workers, s.rows, s.handlers, id);
    HasScan(s, id);
    WorkerFact(s.store.clock, s.workers, s.store.scans, s.finishes, s.store.events, s.writes, id);
    WorkerMoves(s.store.clock, s.workers, s.store.scans, s.finishes, s.store.events, s.writes,
                id, Loading, s.store.scans[id], s.finishes);
    assert s.store.scans[id := s.store.scans[id]] == s.store.scans;
    UnfinishedUpdate(s.workers, id, Loading);
  }

  lemma HasScan(s: State, id: ScanId)
    requires RowsInv(s.rows, s.store.scans, s.store.events)
    ensures id in s.rows <==> id in s.store.scans
    ensures id in s.rows ==> s.store.scans[id].ev == s.rows[id].ev
    ensures id in s.store.events ==> id in s.rows && s.store.events[id].value == s.rows[id].ev
  {
  }

  lemma JobFact(s: State, id: ScanId)
    requires HandlersInv(s.handlers, s.rows, s.store.events, s.writes)
    requires QueueInv(s.store.queue, s.workers, s.rows, s.handlers)
    requires RowsInv(s.rows, s.store.scans, s.store.events)
    requires id in s.workers || id in s.store.queue
    ensures id in s.rows && id in s.store.scans && id in s.store.events && Written(s.writes, id)
    ensures s.store.events[id].value == s.store.scans[id].ev == s.rows[id].ev
  {
    HasScan(s, id);
    hide RowsInv;
    assert id in s.rows && PastEnqueue(s.handlers[s.rows[id].handler].pc);
    hide QueueInv;
    RowPastEnqueue(s.handlers, s.rows, s.store.events, s.writes, id);
  }

  lemma RowPastEnqueue(handlers: map<nat, Handler>, rows: map<ScanId, Row>,
                       events: map<ScanId, Expiring<Event>>, writes: seq<Write>, id: ScanId)
    requires HandlersInv(handlers, rows, events, writes)
    requires id in rows && rows[id].handler in handlers && PastEnqueue(handlers[rows[id].handler].pc)
    ensures id in events && Written(writes, id)
  {
    hide Written;
    var h := rows[id].handler;
    assert HandlerOk(h, handlers[h], rows, events, writes);
  }

  lemma LoadKeeps(cfg: Config, s: State, id: ScanId)
    requires Inv(cfg, s) && id in s.workers && s.workers[id] == Loading
    ensures Inv(cfg, LoadStep(s, id))
  {
    hide HandlersInv, RowsInv, ClaimsInv, QueueInv, WorkersInv, GaugeInv, ActiveInv;
    hide Written, Overtaken;
    JobFact(s, id);
    WorkerFact(s.store.clock, s.workers, s.store.scans, s.finishes, s.store.events, s.writes, id);
    var s' := LoadStep(s, id);
    assert s.store.scans[id := s.store.scans[id]] == s.store.scans;
    WorkerStepKeeps(cfg, s, s', id, s'.workers[id], s.store.scans[id]);
  }

  /** What the stale check sees is the last recorded head, so a stale scan was overtaken. */
  lemma StaleMeansOvertaken(s: State, id: ScanId, ev: Event)
    requires ActiveInv(s.store.clock, s.store.active, s.writes, s.rows)
    requires id in s.rows && s.rows[id].ev == ev && Written(s.writes, id) && Stale(s.store, ev)
    ensures Overtaken(s.writes, id)
  {
    hide ActiveKey, HeadOf;
    var i :| 0 <= i < |s.writes| && s.writes[i].id == id;
    var j := LastWrite(s.writes, ActiveKey(ev)).value;
    assert s.store.active[ActiveKey(ev)].value == s.writes[j].head;
    assert i < j;
  }

  lemma CheckKeeps(cfg: Config, s: State, id: ScanId, ev: Event)
    requires Inv(cfg, s) && id in s.workers && s.workers[id] == Checking(ev)
    ensures Inv(cfg, CheckStep(s, id, ev))
  {
    hide HandlersInv, RowsInv, ClaimsInv, QueueInv, WorkersInv, GaugeInv, ActiveInv;
    hide Written, Overtaken, Stale;
    JobFact(s, id);
    WorkerFact(s.store.clock, s.workers, s.store.scans, s.finishes, s.store.events, s.writes, id);
    if Stale(s.store, ev) {
      StaleMeansOvertaken(s, id, ev);
    }
    var s' := CheckStep(s, id, ev);
    assert s.store.scans[id := s.store.scans[id]] == s.store.scans;
    WorkerStepKeeps(cfg, s, s', id, s'.workers[id], s.store.scans[id]);
  }

  lemma MarkKeeps(cfg: Config, s: State, id: ScanId)
    requires Inv(cfg, s) && id in s.workers && s.workers[id] == Marking
    ensures Inv(cfg, MarkStep(s, id))
  {
    hide HandlersInv, RowsInv, ClaimsInv, QueueInv, WorkersInv, GaugeInv, ActiveInv;
    hide Written, Overtaken;
    JobFact(s, id);
    WorkerFact(s.store.clock, s.workers, s.store.scans, s.finishes, s.store.events, s.writes, id);
    WorkerStepKeeps(cfg, s, MarkStep(s, id), id, Body(0), s.store.scans[id].(status := Running));
  }

  lemma BodyKeeps(cfg: Config, s: State, id: ScanId, n: nat, outcome: Outcome)
    requires Inv(cfg, s) && id in s.workers && s.workers[id] == Body(n)
    ensures Inv(cfg, BodyStep(s, id, n, outcome))
  {
    hide HandlersInv, RowsInv, ClaimsInv, QueueInv, WorkersInv, GaugeInv, ActiveInv;
    hide Written, Overtaken;
    JobFact(s, id);
    WorkerFact(s.store.clock, s.workers, s.store.scans, s.finishes, s.store.events, s.writes, id);
    assert s.store.scans[id := s.store.scans[id]] == s.store.scans;
    WorkerStepKeeps(cfg, s, BodyStep(s, id, n, outcome), id, AfterBody(n, outcome), s.store.scans[id]);
  }

  lemma FinishKeeps(cfg: Config, s: State, id: ScanId, status: Status)
    requires Inv(cfg, s) && id in s.workers && s.workers[id] == Finishing(status)
    ensures Inv(cfg, FinishStep(s, id, status))
  {
    hide HandlersInv, RowsInv, ClaimsInv, QueueInv, WorkersInv, GaugeInv, ActiveInv;
    hide Written, Overtaken;
    JobFact(s, id);
    WorkerFact(s.store.clock, s.workers, s.store.scans, s.finishes, s.store.events, s.writes, id);
    WorkerStepKeeps(cfg, s, FinishStep(s, id, status), id, Decrementing(status), s.store.scans[id].(status := status));
  }

  lemma DecrementKeeps(cfg: Config, s: State, id: ScanId, status: Status)
    requires Inv(cfg, s) && id in s.workers && s.workers[id] == Decrementing(status)
    ensures Inv(cfg, DecrementStep(s, id, status))
  {
    hide HandlersInv, RowsInv, ClaimsInv, QueueInv, WorkersInv, GaugeInv, ActiveInv;
    hide Written, Overtaken;
    JobFact(s, id);
    WorkerFact(s.store.clock, s.workers, s.store.scans, s.finishes, s.store.events, s.writes, id);
    assert s.store.scans[id := s.store.scans[id]] == s.store.scans;
    WorkerStepKeeps(cfg, s, DecrementStep(s, id, status), id, Done(status), s.store.scans[id]);
  }

  lemma CancelKeeps(cfg: Config, s: State, id: ScanId)
    requires Inv(cfg, s) && id in s.workers && !Stopped(s.workers[id])
    ensures Inv(cfg, CancelStep(s, id))
  {
    hide HandlersInv, RowsInv, ClaimsInv, QueueInv, WorkersInv, GaugeInv, ActiveInv;
    hide Written, Overtaken;
    JobFact(s, id);
    WorkerFact(s.store.clock, s.workers, s.store.scans, s.finishes, s.store.events, s.writes, id);
    assert s.store.scans[id := s.store.scans[id]] == s.store.scans;
    WorkerStepKeeps(cfg, s, CancelStep(s, id), id, Cancelled, s.store.scans[id]);
  }

  lemma Keeps(cfg: Config, s: State, a: Action)
    requires Inv(cfg, s)
    ensures Inv(cfg, Apply(cfg, s, a))
  {
    hide Inv;
    match a
    case Tick(d) => TickKeeps(cfg, s, d);
    case Arrive(h, req) => if h !in s.handlers { ArriveKeeps(cfg, s, h, req); }
    case Handle(h, uuid) => if h in s.handlers { HandlerKeeps(cfg, s, h, uuid); }
    case Deliver(id) => if id in s.store.queue { DeliverKeeps(cfg, s, id); }
    case Work(id, outcome) => if id in s.workers { WorkerKeeps(cfg, s, id, outcome); }
    case Cancel(id) => if id in s.workers && !Stopped(s.workers[id]) { CancelKeeps(cfg, s, id); }
  }

  lemma HandlerKeeps(cfg: Config, s: State, h: nat, uuid: ScanId)
    requires Inv(cfg, s) && h in s.handlers
    ensures Inv(cfg, HandlerStep(cfg, s, h, uuid))
  {
    hide Inv;
    match s.handlers[h].pc
    case Claiming(ev) =>
      if Claimable(s.store, DedupeKey(cfg, ev)) {
        ClaimWonKeeps(cfg, s, h, ev);
      } else {
        ClaimLostKeeps(cfg, s, h, ev);
      }
    case Inserting(ev) => if uuid !in s.store.scans { InsertKeeps(cfg, s, h, ev, uuid); }
    case Storing(id, ev) => StashKeeps(cfg, s, h, id, ev);
    case Activating(id, ev) => ActivateKeeps(cfg, s, h, id, ev);
    case Enqueuing(id, _) => EnqueueKeeps(cfg, s, h, id);
    case Counting(id) => CountKeeps(cfg, s, h, id);
    case Asking(ev) => AskKeeps(cfg, s, h, ev);
    case Replied(_) =>
  }

  lemma WorkerKeeps(cfg: Config, s: State, id: ScanId, outcome: Outcome)
    requires Inv(cfg, s) && id in s.workers
    ensures Inv(cfg, WorkerStep(s, id, outcome))
  {
    hide Inv;
    match s.workers[id]
    case Loading => LoadKeeps(cfg, s, id);
    case Checking(ev) => CheckKeeps(cfg, s, id, ev);
    case Marking => MarkKeeps(cfg, s, id);
    case Body(n) => BodyKeeps(cfg, s, id, n, outcome);
    case Finishing(status) => FinishKeeps(cfg, s, id, status);
    case Decrementing(status) => DecrementKeeps(cfg, s, id, status);
    case Done(_) =>
    case Lost =>
    case Cancelled =>
  }
}
