/** The coroutines of aegis/idempotency.py, aegis/queue.py, aegis/api/webhooks.py and
    aegis/pipeline/runner.py as methods over the shared store. Run without
    interruption, each method takes exactly the steps of one handler or one job of
    the scan protocol, from any protocol state with the same store. */
module ScanServices {
  import opened Schemas
  import opened ScanProtocol
  import opened ScanInvariant
  import opened ScanKeys
  import opened ScanTheorems
  import opened ScanHeads

  /** Every action is handler `h` arriving or taking a step. */
  ghost predicate OnlyHandler(acts: seq<Action>, h: nat) {
    forall a :: a in acts ==> (a.Arrive? && a.h == h) || (a.Handle? && a.h == h)
  }

  /** The request passes every check that comes before its signature is verified. */
  predicate WellFormed(req: Request) {
    req.knownProvider && req.jsonType && req.small && req.validJson
  }

  /** Its signature is good, and it carries an event that is not to be ignored. */
  predicate Authentic(req: Request) {
    WellFormed(req) && req.signed && req.event.Some? && !req.event.value.kind.Ignored?
  }

  predicate OpensOrUpdates(req: Request) {
    req.event.Some? && (req.event.value.kind.PrOpened? || req.event.value.kind.PrUpdated?)
  }

  /** Which response a request gets; `claimed` says that its event is claimed already. */
  predicate Answers(req: Request, claimed: bool, response: Response) {
    && (response.UnknownProvider? <==> !req.knownProvider)
    && (response.UnsupportedType? <==> req.knownProvider && !req.jsonType)
    && (response.TooLarge? <==> req.knownProvider && req.jsonType && !req.small)
    && (response.InvalidJson? <==> req.knownProvider && req.jsonType && req.small && !req.validJson)
    && (response.BadSignature? <==> WellFormed(req) && !req.signed)
    && (response.IgnoredEvent? <==>
          WellFormed(req) && req.signed && (req.event.None? || req.event.value.kind.Ignored?))
    && (response.DialogQueued? <==> Authentic(req) && req.event.value.kind.Comment?)
    && (response.Duplicate? <==> Authentic(req) && OpensOrUpdates(req) && claimed)
    && (response.ScanQueued? <==> Authentic(req) && OpensOrUpdates(req) && !claimed)
  }

  ghost predicate OnlyJob(acts: seq<Action>, id: ScanId) {
    forall a :: a in acts ==> a.Work? && a.id == id
  }

  class Services {
    const cfg: Config
    var clock: nat
    var claims: map<string, Expiring<()>>
    var events: map<ScanId, Expiring<Event>>
    var active: map<string, Expiring<string>>
    var scans: map<ScanId, Scan>
    var queue: multiset<ScanId>
    var dialogs: seq<Event>
    var gauge: int

    function Value(): Store
      reads this
    {
      Store(clock, claims, events, active, scans, queue, dialogs, gauge)
    }

    /** The request's event was claimed and the claim has not expired. */
    predicate AlreadyClaimed(req: Request)
      reads this
    {
      req.event.Some? && Live(claims, DedupeKey(cfg, req.event.value), clock)
    }

    constructor (cfg: Config)
      ensures this.cfg == cfg && Value() == EMPTY_STORE
    {
      this.cfg := cfg;
      clock, claims, events, active := 0, map[], map[], map[];
      scans, queue, dialogs, gauge := map[], multiset{}, [], 0;
    }

    /** `claim`: SET NX EX. */
    method Claim(key: string) returns (ok: bool)
      modifies this`claims
      ensures ok <==> Claimable(old(Value()), key)
      ensures Value() == PutClaim(cfg, old(Value()), key)
      ensures ok ==> key in claims && claims[key].deadline == clock + cfg.ttl
    {
      ok := key !in claims || claims[key].deadline <= clock;
      if ok {
        claims := claims[key := Expiring((), clock + cfg.ttl)];
      }
    }

    /** `enqueue_scan`: event, then active head, then job, then gauge. */
    method EnqueueScan(ghost s: State, ghost h: nat, id: ScanId, ev: Event) returns (ghost end: State)
      requires s.store == Value() && h in s.handlers && s.handlers[h].pc == Storing(id, ev)
      modifies this`events, this`active, this`queue, this`gauge
      ensures end == CountStep(EnqueueStep(ActivateStep(StashStep(s, h, id, ev), h, id, ev), h, id), h, id)
      ensures end.store == Value() && h in end.handlers && end.handlers[h].pc == Replied(ScanQueued(id))
      ensures id in queue && id in events && events[id].value == ev
      ensures !Stale(Value(), ev)
    {
      hide ActiveKey, HeadOf, StashStep, ActivateStep, EnqueueStep, CountStep, Stale;
      EnqueueSteps(s, h, id, ev);
      EnqueuedStore(s.store, id, ev);
      events := events[id := Expiring(ev, clock + KEY_TTL)];
      active := active[ActiveKey(ev) := Expiring(HeadOf(ev), clock + KEY_TTL)];
      queue := queue + multiset{id};
      gauge := gauge + 1;
      end := CountStep(EnqueueStep(ActivateStep(StashStep(s, h, id, ev), h, id, ev), h, id), h, id);
    }

    /** `is_stale`: in every run of the protocol that reaches this store, true exactly
        when the last head recorded for the PR is younger than a day and another one. */
    method IsStale(ev: Event) returns (stale: bool)
      ensures stale <==> Stale(Value(), ev)
      ensures forall acts :: Run(cfg, acts).store == Value() && Plain(ev) && PlainRows(Run(cfg, acts)) ==>
                (stale <==> exists i :: OtherHead(Run(cfg, acts), ev, i))
    {
      StaleInRuns(cfg, Value(), ev);
      var key := ActiveKey(ev);
      stale := key in active && clock < active[key].deadline && active[key].value != HeadOf(ev);
    }

    method UpdateStatus(id: ScanId, status: Status)
      modifies this`scans
      ensures Value() == SetStatus(old(Value()), id, status)
    {
      if id in scans {
        scans := scans[id := scans[id].(status := status)];
      }
    }

    /** `_finish`. */
    method Finish(id: ScanId, status: Status)
      modifies this`scans, this`gauge
      ensures Value() == AddGauge(SetStatus(old(Value()), id, status), -1)
      ensures id in old(scans) ==> id in scans && scans[id].status == status
    {
      UpdateStatus(id, status);
      gauge := gauge - 1;
    }

    /** `receive`. Whatever the protocol state around it, the call takes steps of one
        handler only, ends with the store it leaves and with the response it gives. */
    method Receive(ghost s: State, ghost h: nat, req: Request, uuid: ScanId)
      returns (response: Response, ghost acts: seq<Action>)
      requires s.store == Value() && h !in s.handlers
      requires uuid !in scans
      modifies this
      ensures OnlyHandler(acts, h)
      ensures var end := Exec(cfg, s, acts);
        end.store == Value() && h in end.handlers && end.handlers[h].pc == Replied(response)
      ensures Answers(req, old(AlreadyClaimed(req)), response)
      ensures response.ScanQueued? ==>
                response.id == uuid && uuid in queue && scans == old(scans)[uuid := Scan(req.event.value, Queued)]
      ensures !response.ScanQueued? ==>
                scans == old(scans) && queue == old(queue) && active == old(active) && events == old(events)
      ensures dialogs ==
              old(dialogs) + (if response.DialogQueued? && !old(AlreadyClaimed(req)) then [req.event.value] else [])
      ensures !Authentic(req) ==> Value() == old(Value())
    {
      hide DedupeKey, ActiveKey, HeadOf, Exec, StashStep, ActivateStep, EnqueueStep, CountStep, Answers, Stale;
      AnswersHold(req, AlreadyClaimed(req), uuid);
      acts := ArriveRun(cfg, s, h, req);
      if !req.knownProvider { response := UnknownProvider; return; }
      if !req.jsonType { response := UnsupportedType; return; }
      if !req.small { response := TooLarge; return; }
      if !req.validJson { response := InvalidJson; return; }
      if !req.signed { response := BadSignature; return; }
      if req.event.None? || req.event.value.kind.Ignored? { response := IgnoredEvent; return; }
      var ev := req.event.value;
      var won := Claim(DedupeKey(cfg, ev));
      acts := ClaimRun(cfg, s, acts, h, uuid, ev);
      if !won {
        response := if ev.kind.Comment? then DialogQueued else Duplicate;
        return;
      }
      ghost var at := Exec(cfg, s, acts);
      if ev.kind.Comment? {
        dialogs := dialogs + [ev];
        acts := AskRun(cfg, s, acts, h, uuid, ev);
        response := DialogQueued;
        return;
      }
      scans := scans[uuid := Scan(ev, Queued)];
      acts := InsertRun(cfg, s, acts, h, uuid, ev);
      ghost var end := EnqueueScan(Exec(cfg, s, acts), h, uuid, ev);
      acts := FourMore(cfg, s, acts, h, uuid, ev);
      response := ScanQueued(uuid);
    }

    /** The body of the `try` in `run_scan_pipeline`, with its two `except` clauses;
        `outcomes` says what each awaited operation does. */
    method RunBody(ghost s: State, ghost acts: seq<Action>, id: ScanId, outcomes: seq<Outcome>)
      returns (status: Status, ghost acts': seq<Action>)
      requires |outcomes| == 12 && OnlyJob(acts, id)
      requires var at := Exec(cfg, s, acts); id in at.workers && at.workers[id] == Body(0)
      ensures status == BodyStatus(outcomes, 0) && EndsAs(outcomes, status)
      ensures OnlyJob(acts', id)
      ensures var at := Exec(cfg, s, acts);
        Exec(cfg, s, acts') == at.(workers := at.workers[id := Finishing(status)])
    {
      hide Exec, WorkerStep, EndsAs;
      BodyEnds(outcomes);
      acts' := acts;
      ghost var start := Exec(cfg, s, acts);
      assert start.workers == start.workers[id := Body(0)];
      status := Completed;
      var n := 0;
      var running := true;
      while running
        invariant n < BODY_STEPS && OnlyJob(acts', id)
        invariant Exec(cfg, s, acts') ==
                  start.(workers := start.workers[id := if running then Body(n) else Finishing(status)])
        invariant BodyStatus(outcomes, 0) == if running then BodyStatus(outcomes, n) else status
        invariant running ==> status == Completed
        decreases running, BODY_STEPS - n
      {
        acts' := BodyRun(cfg, s, acts', id, n, outcomes[n]);
        match outcomes[n]
        case RaisesProviderError => status, running := ProviderFailed, false;
        case RaisesOther => status, running := Failed, false;
        case Returns(hasToken) =>
          if n == 0 && !hasToken {
            status, running := NoToken, false;
          } else if n + 1 < BODY_STEPS {
            n := n + 1;
          } else {
            running := false;
          }
      }
    }

    /** `run_scan_pipeline` for a job just delivered. The call takes steps of that job
        only, whatever the protocol state around it. */
    method RunScanPipeline(ghost s: State, id: ScanId, outcomes: seq<Outcome>) returns (ghost acts: seq<Action>)
      requires s.store == Value() && id in s.workers && s.workers[id] == Loading
      requires |outcomes| == 12
      modifies this`scans, this`gauge
      ensures OnlyJob(acts, id)
      ensures var end := Exec(cfg, s, acts);
        end.store == Value() && id in end.workers && Stopped(end.workers[id])
        && end.finishes == (if end.workers[id].Done? then s.finishes + multiset{id} else s.finishes)
        && (end.workers[id].Lost? <==> !Live(events, id, clock))
      ensures Live(events, id, clock) && id in old(scans) ==>
                id in scans && scans[id].status == PipelineStatus(old(Value()), events[id].value, outcomes)
    {
      hide ActiveKey, HeadOf, Exec, Stale, WorkerStep;
      assert Exec(cfg, s, []) == s by { EmptyRun(cfg, s); }
      acts := LoadRun(cfg, s, [], id);
      if id !in events || events[id].deadline <= clock {
        return;
      }
      var ev := events[id].value;
      var stale := IsStale(ev);
      acts := CheckRun(cfg, s, acts, id, ev);
      var status := Superseded;
      if !stale {
        UpdateStatus(id, Running);
        acts := MarkRun(cfg, s, acts, id);
        status, acts := RunBody(s, acts, id, outcomes);
      }
      Finish(id, status);
      acts := FinishRun(cfg, s, acts, id, status);
    }
  }

  /** The status the body reaches: the first operation that raises decides, and a
      missing token counts right after the repository is resolved. */
  function BodyStatus(outcomes: seq<Outcome>, n: nat): Status
    requires n < BODY_STEPS == |outcomes|
    decreases BODY_STEPS - n
  {
    if outcomes[n].RaisesProviderError? then ProviderFailed
    else if outcomes[n].RaisesOther? then Failed
    else if n == 0 && !outcomes[n].hasToken then NoToken
    else if n + 1 == BODY_STEPS then Completed
    else BodyStatus(outcomes, n + 1)
  }

  /** The operation returns, and the first of them with a token. */
  predicate Succeeds(outcomes: seq<Outcome>, n: int)
    requires 0 <= n < |outcomes|
  {
    outcomes[n].Returns? && (n == 0 ==> outcomes[0].hasToken)
  }

  /** Every operation before the n-th succeeds. */
  ghost predicate Reaches(outcomes: seq<Outcome>, n: int)
    requires 0 <= n <= |outcomes|
  {
    forall j :: 0 <= j < n ==> Succeeds(outcomes, j)
  }

  /** Completed when all operations succeed, otherwise as the first one that does not. */
  ghost predicate EndsAs(outcomes: seq<Outcome>, status: Status)
    requires |outcomes| > 0
  {
    && (status.Completed? <==> Reaches(outcomes, |outcomes|))
    && (status.NoToken? <==> outcomes[0] == Returns(false))
    && (status.ProviderFailed? <==>
          exists n :: 0 <= n < |outcomes| && outcomes[n].RaisesProviderError? && Reaches(outcomes, n))
    && (status.Failed? <==> exists n :: 0 <= n < |outcomes| && outcomes[n].RaisesOther? && Reaches(outcomes, n))
  }

  lemma BodyEnds(outcomes: seq<Outcome>)
    requires |outcomes| == BODY_STEPS
    ensures EndsAs(outcomes, BodyStatus(outcomes, 0))
  {
    var n := StopsAt(outcomes, 0);
    forall m | 0 <= m < BODY_STEPS && Reaches(outcomes, m) && !Succeeds(outcomes, m) ensures n <= m {
      NotPast(outcomes, m, n);
    }
    if n < BODY_STEPS {
      forall m | 0 <= m <= BODY_STEPS && Reaches(outcomes, m) ensures m <= n {
        NotPast(outcomes, n, m);
      }
    }
    assert Reaches(outcomes, 0);
    hide BodyStatus, Reaches;
  }

  /** Nothing after an operation that does not succeed is reached. */
  lemma NotPast(outcomes: seq<Outcome>, m: nat, n: nat)
    requires m < |outcomes| && n <= |outcomes| && !Succeeds(outcomes, m) && Reaches(outcomes, n)
    ensures n <= m
  {
  }

  lemma {:induction false} StopsAt(outcomes: seq<Outcome>, from: nat) returns (n: nat)
    requires from < BODY_STEPS == |outcomes| && Reaches(outcomes, from)
    ensures from <= n <= BODY_STEPS && Reaches(outcomes, n)
    ensures if n == BODY_STEPS then BodyStatus(outcomes, from) == Completed
            else !Succeeds(outcomes, n)
                 && BodyStatus(outcomes, from) == (if outcomes[n].RaisesProviderError? then ProviderFailed
                                                   else if outcomes[n].RaisesOther? then Failed else NoToken)
    decreases BODY_STEPS - from
  {
    if !Succeeds(outcomes, from) {
      n := from;
    } else if from + 1 == BODY_STEPS {
      n := BODY_STEPS;
    } else {
      n := StopsAt(outcomes, from + 1);
    }
  }

  ghost function PipelineStatus(st: Store, ev: Event, outcomes: seq<Outcome>): Status
    requires |outcomes| == BODY_STEPS
  {
    if Stale(st, ev) then Superseded else BodyStatus(outcomes, 0)
  }

  /** Each exit of `receive`, with the checks that lead to it. */
  lemma AnswersHold(req: Request, claimed: bool, id: ScanId)
    ensures !req.knownProvider ==> Answers(req, claimed, UnknownProvider)
    ensures req.knownProvider && !req.jsonType ==> Answers(req, claimed, UnsupportedType)
    ensures req.knownProvider && req.jsonType && !req.small ==> Answers(req, claimed, TooLarge)
    ensures req.knownProvider && req.jsonType && req.small && !req.validJson ==> Answers(req, claimed, InvalidJson)
    ensures WellFormed(req) && !req.signed ==> Answers(req, claimed, BadSignature)
    ensures WellFormed(req) && req.signed && (req.event.None? || req.event.value.kind.Ignored?) ==>
              Answers(req, claimed, IgnoredEvent)
    ensures Authentic(req) ==>
              if req.event.value.kind.Comment? then Answers(req, claimed, DialogQueued)
              else Answers(req, claimed, if claimed then Duplicate else ScanQueued(id))
  {
    assert Authentic(req) ==> req.event.value.kind.Comment? || OpensOrUpdates(req);
  }

  lemma StaleInRuns(cfg: Config, st: Store, ev: Event)
    ensures forall acts :: Run(cfg, acts).store == st && Plain(ev) && PlainRows(Run(cfg, acts)) ==>
              (Stale(st, ev) <==> exists i :: OtherHead(Run(cfg, acts), ev, i))
  {
    hide Run, OtherHead, Stale;
    forall acts | Run(cfg, acts).store == st && Plain(ev) && PlainRows(Run(cfg, acts))
      ensures Stale(st, ev) <==> exists i :: OtherHead(Run(cfg, acts), ev, i)
    {
      StaleExactly(cfg, acts, ev);
    }
  }

  lemma EnqueuedStore(st: Store, id: ScanId, ev: Event)
    ensures var after := AddGauge(PushJob(SetActive(StashEvent(st, id, ev), ev), id), 1);
      id in after.queue && id in after.events && after.events[id].value == ev && !Stale(after, ev)
  {
    hide ActiveKey, HeadOf;
  }

  lemma EnqueueSteps(s: State, h: nat, id: ScanId, ev: Event)
    requires h in s.handlers
    ensures h in StashStep(s, h, id, ev).handlers && h in ActivateStep(StashStep(s, h, id, ev), h, id, ev).handlers
    ensures h in EnqueueStep(ActivateStep(StashStep(s, h, id, ev), h, id, ev), h, id).handlers
    ensures var end := CountStep(EnqueueStep(ActivateStep(StashStep(s, h, id, ev), h, id, ev), h, id), h, id);
      && end.store == AddGauge(PushJob(SetActive(StashEvent(s.store, id, ev), ev), id), 1)
      && h in end.handlers && end.handlers[h].pc == Replied(ScanQueued(id))
  {
    hide ActiveKey, HeadOf, StashEvent, SetActive, PushJob, AddGauge;
  }

  lemma Extend(cfg: Config, s: State, acts: seq<Action>, id: ScanId, outcome: Outcome)
    returns (acts': seq<Action>)
    requires OnlyJob(acts, id) && id in Exec(cfg, s, acts).workers
    ensures OnlyJob(acts', id)
    ensures Exec(cfg, s, acts') == WorkerStep(Exec(cfg, s, acts), id, outcome)
  {
    hide WorkerStep, HandlerStep;
    acts' := acts + [Work(id, outcome)];
    ExecAppend(cfg, s, acts, Work(id, outcome));
  }

  lemma LoadRun(cfg: Config, s: State, acts: seq<Action>, id: ScanId) returns (acts': seq<Action>)
    requires OnlyJob(acts, id)
    requires var at := Exec(cfg, s, acts); id in at.workers && at.workers[id] == Loading
    ensures OnlyJob(acts', id)
    ensures var at, next := Exec(cfg, s, acts), Exec(cfg, s, acts');
      && next.store == at.store && next.finishes == at.finishes && id in next.workers
      && next.workers[id] ==
         if Live(at.store.events, id, at.store.clock) then Checking(at.store.events[id].value) else Lost
  {
    hide Exec, Live;
    acts' := Extend(cfg, s, acts, id, Returns(true));
  }

  lemma CheckRun(cfg: Config, s: State, acts: seq<Action>, id: ScanId, ev: Event) returns (acts': seq<Action>)
    requires OnlyJob(acts, id)
    requires var at := Exec(cfg, s, acts); id in at.workers && at.workers[id] == Checking(ev)
    ensures OnlyJob(acts', id)
    ensures var at, next := Exec(cfg, s, acts), Exec(cfg, s, acts');
      && next.store == at.store && next.finishes == at.finishes && id in next.workers
      && next.workers[id] == if Stale(at.store, ev) then Finishing(Superseded) else Marking
  {
    hide Exec, Stale;
    acts' := Extend(cfg, s, acts, id, Returns(true));
  }

  lemma MarkRun(cfg: Config, s: State, acts: seq<Action>, id: ScanId) returns (acts': seq<Action>)
    requires OnlyJob(acts, id)
    requires var at := Exec(cfg, s, acts); id in at.workers && at.workers[id] == Marking
    ensures OnlyJob(acts', id)
    ensures var at, next := Exec(cfg, s, acts), Exec(cfg, s, acts');
      && next.store == SetStatus(at.store, id, Running) && next.finishes == at.finishes
      && id in next.workers && next.workers[id] == Body(0)
  {
    hide Exec, SetStatus;
    acts' := Extend(cfg, s, acts, id, Returns(true));
  }

  lemma BodyRun(cfg: Config, s: State, acts: seq<Action>, id: ScanId, n: nat, outcome: Outcome)
    returns (acts': seq<Action>)
    requires OnlyJob(acts, id)
    requires var at := Exec(cfg, s, acts); id in at.workers && at.workers[id] == Body(n)
    ensures OnlyJob(acts', id) && Exec(cfg, s, acts') == BodyStep(Exec(cfg, s, acts), id, n, outcome)
  {
    hide Exec, BodyStep;
    acts' := Extend(cfg, s, acts, id, outcome);
  }

  lemma FinishRun(cfg: Config, s: State, acts: seq<Action>, id: ScanId, status: Status)
    returns (acts': seq<Action>)
    requires OnlyJob(acts, id)
    requires var at := Exec(cfg, s, acts); id in at.workers && at.workers[id] == Finishing(status)
    ensures OnlyJob(acts', id)
    ensures var at, next := Exec(cfg, s, acts), Exec(cfg, s, acts');
      && next.store == AddGauge(SetStatus(at.store, id, status), -1) && next.finishes == at.finishes + multiset{id}
      && id in next.workers && next.workers[id] == Done(status)
  {
    hide Exec, SetStatus;
    acts' := Extend(cfg, s, acts, id, Returns(true));
    acts' := Extend(cfg, s, acts', id, Returns(true));
  }

  lemma EmptyRun(cfg: Config, s: State)
    ensures Exec(cfg, s, []) == s
  {
  }

  lemma ArriveRun(cfg: Config, s: State, h: nat, req: Request) returns (acts: seq<Action>)
    requires h !in s.handlers
    ensures OnlyHandler(acts, h)
    ensures var at := Exec(cfg, s, acts); at.store == s.store && h in at.handlers && at.handlers[h].pc == Gate(req)
  {
    acts := [Arrive(h, req)];
    hide HandlerStep, WorkerStep, Gate;
    assert Exec(cfg, s, acts) == Exec(cfg, Apply(cfg, s, acts[0]), []);
  }

  lemma HandlerRun(cfg: Config, s: State, acts: seq<Action>, h: nat, uuid: ScanId) returns (acts': seq<Action>)
    requires OnlyHandler(acts, h) && h in Exec(cfg, s, acts).handlers
    ensures OnlyHandler(acts', h) && Exec(cfg, s, acts') == HandlerStep(cfg, Exec(cfg, s, acts), h, uuid)
  {
    hide HandlerStep, WorkerStep;
    acts' := acts + [Handle(h, uuid)];
    ExecAppend(cfg, s, acts, Handle(h, uuid));
  }

  lemma ClaimRun(cfg: Config, s: State, acts: seq<Action>, h: nat, uuid: ScanId, ev: Event)
    returns (acts': seq<Action>)
    requires OnlyHandler(acts, h)
    requires var at := Exec(cfg, s, acts); h in at.handlers && at.handlers[h].pc == Claiming(ev)
    ensures OnlyHandler(acts', h)
    ensures var at, next := Exec(cfg, s, acts), Exec(cfg, s, acts');
      && next.store == PutClaim(cfg, at.store, DedupeKey(cfg, ev)) && h in next.handlers
      && next.handlers[h].pc ==
         if Claimable(at.store, DedupeKey(cfg, ev)) then (if ev.kind.Comment? then Asking(ev) else Inserting(ev))
         else Replied(if ev.kind.Comment? then DialogQueued else Duplicate)
  {
    hide Exec, DedupeKey;
    acts' := HandlerRun(cfg, s, acts, h, uuid);
  }

  lemma AskRun(cfg: Config, s: State, acts: seq<Action>, h: nat, uuid: ScanId, ev: Event)
    returns (acts': seq<Action>)
    requires OnlyHandler(acts, h)
    requires var at := Exec(cfg, s, acts); h in at.handlers && at.handlers[h].pc == Asking(ev)
    ensures OnlyHandler(acts', h)
    ensures var at, next := Exec(cfg, s, acts), Exec(cfg, s, acts');
      next.store == PushDialog(at.store, ev) && h in next.handlers && next.handlers[h].pc == Replied(DialogQueued)
  {
    hide Exec;
    acts' := HandlerRun(cfg, s, acts, h, uuid);
  }

  lemma InsertRun(cfg: Config, s: State, acts: seq<Action>, h: nat, uuid: ScanId, ev: Event)
    returns (acts': seq<Action>)
    requires OnlyHandler(acts, h)
    requires var at := Exec(cfg, s, acts);
      h in at.handlers && at.handlers[h].pc == Inserting(ev) && uuid !in at.store.scans
    ensures OnlyHandler(acts', h)
    ensures var at, next := Exec(cfg, s, acts), Exec(cfg, s, acts');
      next.store == InsertScan(at.store, uuid, ev) && h in next.handlers && next.handlers[h].pc == Storing(uuid, ev)
  {
    hide Exec;
    acts' := HandlerRun(cfg, s, acts, h, uuid);
  }

  lemma FourMore(cfg: Config, s: State, acts: seq<Action>, h: nat, id: ScanId, ev: Event)
    returns (acts': seq<Action>)
    requires OnlyHandler(acts, h)
    requires var at := Exec(cfg, s, acts); h in at.handlers && at.handlers[h].pc == Storing(id, ev)
    ensures OnlyHandler(acts', h)
    ensures Exec(cfg, s, acts') ==
            CountStep(EnqueueStep(ActivateStep(StashStep(Exec(cfg, s, acts), h, id, ev), h, id, ev), h, id), h, id)
  {
    hide ActiveKey, HeadOf, DedupeKey;
    var a := Handle(h, id);
    var s0 := Exec(cfg, s, acts);
    ExecAppend(cfg, s, acts, a);
    var s1 := StashStep(s0, h, id, ev);
    assert Exec(cfg, s, acts + [a]) == s1;
    ExecAppend(cfg, s, acts + [a], a);
    var s2 := ActivateStep(s1, h, id, ev);
    assert Exec(cfg, s, acts + [a] + [a]) == s2;
    ExecAppend(cfg, s, acts + [a] + [a], a);
    var s3 := EnqueueStep(s2, h, id);
    assert Exec(cfg, s, acts + [a] + [a] + [a]) == s3;
    ExecAppend(cfg, s, acts + [a] + [a] + [a], a);
    acts' := acts + [a] + [a] + [a] + [a];
  }
}
