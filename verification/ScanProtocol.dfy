/** The scan protocol as a step system: webhook handlers (aegis/api/webhooks.py),
    the idempotency claim (aegis/idempotency.py), the enqueue writes and the stale
    check (aegis/queue.py) and the worker run (aegis/pipeline/runner.py) interleave
    over shared Redis keys, the scan table, the job queue and a clock.

    Each step is one effect on the shared store, the granularity at which the
    coroutines can be interleaved. A schedule is any sequence of actions; an action
    that is not enabled leaves the state as it is, so every schedule is a run. */
module ScanProtocol {
  import opened Schemas

  type ScanId = string

  /** `hash` stands for SHA-256, `ttl` for `idempotency_ttl_seconds`. */
  datatype Config = Config(hash: string -> string, ttl: nat)

  /** Lifetime of the event key and of the active-head key, in seconds. */
  const KEY_TTL: nat := 86_400

  datatype EventKind = PrOpened | PrUpdated | Comment | Ignored

  datatype Event = Event(
    provider: string,
    kind: EventKind,
    deliveryId: string,
    repo: string,
    pr: string,
    head: Option<string>)

  function HeadOf(ev: Event): string {
    Or(ev.head, "")
  }

  function ActiveKey(ev: Event): string {
    "aegis:active:" + ev.provider + ":" + ev.repo + ":" + ev.pr
  }

  function DedupeKey(cfg: Config, ev: Event): string {
    cfg.hash(ev.provider + ":" + ev.deliveryId + ":" + ev.repo + ":" + ev.pr + ":" + HeadOf(ev))
  }

  // ---------------------------------------------------------------- shared store

  /** A Redis value with the time at which it expires. */
  datatype Expiring<T> = Expiring(value: T, deadline: nat)

  predicate Live<T>(m: map<string, Expiring<T>>, key: string, now: nat) {
    key in m && now < m[key].deadline
  }

  datatype Status = Queued | Running | Superseded | NoToken | Completed | ProviderFailed | Failed

  predicate Terminal(st: Status) {
    !st.Queued? && !st.Running?
  }

  datatype Scan = Scan(ev: Event, status: Status)

  datatype Store = Store(
    clock: nat,
    claims: map<string, Expiring<()>>,
    events: map<ScanId, Expiring<Event>>,
    active: map<string, Expiring<string>>,
    scans: map<ScanId, Scan>,
    queue: multiset<ScanId>,
    dialogs: seq<Event>,
    gauge: int)

  const EMPTY_STORE := Store(0, map[], map[], map[], map[], multiset{}, [], 0)

  /** SET key NX EX ttl. */
  predicate Claimable(st: Store, key: string) {
    !Live(st.claims, key, st.clock)
  }

  function PutClaim(cfg: Config, st: Store, key: string): Store {
    if Claimable(st, key) then st.(claims := st.claims[key := Expiring((), st.clock + cfg.ttl)]) else st
  }

  function InsertScan(st: Store, id: ScanId, ev: Event): Store {
    st.(scans := st.scans[id := Scan(ev, Queued)])
  }

  function StashEvent(st: Store, id: ScanId, ev: Event): Store {
    st.(events := st.events[id := Expiring(ev, st.clock + KEY_TTL)])
  }

  function SetActive(st: Store, ev: Event): Store {
    st.(active := st.active[ActiveKey(ev) := Expiring(HeadOf(ev), st.clock + KEY_TTL)])
  }

  function PushJob(st: Store, id: ScanId): Store {
    st.(queue := st.queue + multiset{id})
  }

  function PopJob(st: Store, id: ScanId): Store {
    st.(queue := st.queue - multiset{id})
  }

  function PushDialog(st: Store, ev: Event): Store {
    st.(dialogs := st.dialogs + [ev])
  }

  function AddGauge(st: Store, d: int): Store {
    st.(gauge := st.gauge + d)
  }

  /** UPDATE scans SET status WHERE id: a missing row is not an error. */
  function SetStatus(st: Store, id: ScanId, status: Status): Store {
    if id in st.scans then st.(scans := st.scans[id := st.scans[id].(status := status)]) else st
  }

  /** `is_stale`. */
  predicate Stale(st: Store, ev: Event) {
    Live(st.active, ActiveKey(ev), st.clock) && st.active[ActiveKey(ev)].value != HeadOf(ev)
  }

  // ---------------------------------------------------------------- handlers

  /** What the handler can tell about a request before any effect. `event` is None
      when `parse_event` raises; `signed` is the outcome of signature verification. */
  datatype Request = Request(
    knownProvider: bool,
    jsonType: bool,
    small: bool,
    validJson: bool,
    event: Option<Event>,
    signed: bool)

  datatype Response =
    | UnknownProvider | UnsupportedType | TooLarge | InvalidJson | BadSignature
    | IgnoredEvent | DialogQueued | Duplicate | ScanQueued(id: ScanId)

  datatype HandlerPc =
    | Claiming(ev: Event)
    | Inserting(ev: Event)
    | Storing(id: ScanId, ev: Event)
    | Activating(id: ScanId, ev: Event)
    | Enqueuing(id: ScanId, ev: Event)
    | Counting(id: ScanId)
    | Asking(ev: Event)
    | Replied(response: Response)

  /** `claim` points at the handler's entry in the history of claims, once it has one. */
  datatype Handler = Handler(req: Request, claim: Option<nat>, pc: HandlerPc)

  /** `receive` up to its first effect: every check precedes every effect. */
  function Gate(req: Request): HandlerPc {
    if !req.knownProvider then Replied(UnknownProvider)
    else if !req.jsonType then Replied(UnsupportedType)
    else if !req.small then Replied(TooLarge)
    else if !req.validJson then Replied(InvalidJson)
    else if !req.signed then Replied(BadSignature)
    else if req.event.None? then Replied(IgnoredEvent)
    else if req.event.value.kind.Ignored? then Replied(IgnoredEvent)
    else Claiming(req.event.value)
  }

  // ---------------------------------------------------------------- workers

  /** Awaited operations in the body of the `try`: resolving the repository, two
      provider fetches, nine pipeline stages. */
  const BODY_STEPS: nat := 12

  datatype Outcome = Returns(hasToken: bool) | RaisesProviderError | RaisesOther

  datatype WorkerPc =
    | Loading
    | Checking(ev: Event)
    | Marking
    | Body(n: nat)
    | Finishing(status: Status)
    | Decrementing(status: Status)
    | Done(status: Status)
    | Lost
    | Cancelled

  predicate Stopped(pc: WorkerPc) {
    pc.Done? || pc.Lost? || pc.Cancelled?
  }

  // ---------------------------------------------------------------- states and actions

  /** Histories: every write of an active-head key, every successful claim, every
      call of `_finish`, and for each scan row the handler and event it came from.
      They never influence a step. */
  datatype Write = Write(id: ScanId, key: string, head: string, time: nat)
  datatype Claim = Claim(key: string, time: nat, handler: nat)
  datatype Row = Row(handler: nat, ev: Event)

  datatype State = State(
    store: Store,
    handlers: map<nat, Handler>,
    workers: map<ScanId, WorkerPc>,
    writes: seq<Write>,
    claimed: seq<Claim>,
    finishes: multiset<ScanId>,
    rows: map<ScanId, Row>)

  const INIT := State(EMPTY_STORE, map[], map[], [], [], multiset{}, map[])

  /** `uuid` is the identifier drawn when the step inserts a row. Cancel is the job
      timeout of the queue: the cancellation is not an `Exception`, so neither
      `except` clause runs. */
  datatype Action =
    | Tick(d: nat)
    | Arrive(h: nat, req: Request)
    | Handle(h: nat, uuid: ScanId)
    | Deliver(id: ScanId)
    | Work(id: ScanId, outcome: Outcome)
    | Cancel(id: ScanId)

  // One function per atomic step.

  function TickStep(s: State, d: nat): State {
    s.(store := s.store.(clock := s.store.clock + d))
  }

  function ArriveStep(s: State, h: nat, req: Request): State {
    s.(handlers := s.handlers[h := Handler(req, None, Gate(req))])
  }

  function At(handlers: map<nat, Handler>, h: nat, pc: HandlerPc): map<nat, Handler>
    requires h in handlers
  {
    handlers[h := handlers[h].(pc := pc)]
  }

  function ClaimWonStep(cfg: Config, s: State, h: nat, ev: Event): State
    requires h in s.handlers
  {
    s.(store := PutClaim(cfg, s.store, DedupeKey(cfg, ev)),
       claimed := s.claimed + [Claim(DedupeKey(cfg, ev), s.store.clock, h)],
       handlers := s.handlers[h := Handler(s.handlers[h].req, Some(|s.claimed|),
                                           if ev.kind.Comment? then Asking(ev) else Inserting(ev))])
  }

  function ClaimLostStep(s: State, h: nat, ev: Event): State
    requires h in s.handlers
  {
    s.(handlers := At(s.handlers, h, Replied(if ev.kind.Comment? then DialogQueued else Duplicate)))
  }

  function InsertStep(s: State, h: nat, ev: Event, uuid: ScanId): State
    requires h in s.handlers
  {
    s.(store := InsertScan(s.store, uuid, ev), rows := s.rows[uuid := Row(h, ev)],
       handlers := At(s.handlers, h, Storing(uuid, ev)))
  }

  function StashStep(s: State, h: nat, id: ScanId, ev: Event): State
    requires h in s.handlers
  {
    s.(store := StashEvent(s.store, id, ev), handlers := At(s.handlers, h, Activating(id, ev)))
  }

  function ActivateStep(s: State, h: nat, id: ScanId, ev: Event): State
    requires h in s.handlers
  {
    s.(store := SetActive(s.store, ev),
       writes := s.writes + [Write(id, ActiveKey(ev), HeadOf(ev), s.store.clock)],
       handlers := At(s.handlers, h, Enqueuing(id, ev)))
  }

  function EnqueueStep(s: State, h: nat, id: ScanId): State
    requires h in s.handlers
  {
    s.(store := PushJob(s.store, id), handlers := At(s.handlers, h, Counting(id)))
  }

  function CountStep(s: State, h: nat, id: ScanId): State
    requires h in s.handlers
  {
    s.(store := AddGauge(s.store, 1), handlers := At(s.handlers, h, Replied(ScanQueued(id))))
  }

  function AskStep(s: State, h: nat, ev: Event): State
    requires h in s.handlers
  {
    s.(store := PushDialog(s.store, ev), handlers := At(s.handlers, h, Replied(DialogQueued)))
  }

  function HandlerStep(cfg: Config, s: State, h: nat, uuid: ScanId): State
    requires h in s.handlers
  {
    match s.handlers[h].pc
    case Claiming(ev) =>
      if Claimable(s.store, DedupeKey(cfg, ev)) then ClaimWonStep(cfg, s, h, ev) else ClaimLostStep(s, h, ev)
    case Inserting(ev) => if uuid in s.store.scans then s else InsertStep(s, h, ev, uuid)
    case Storing(id, ev) => StashStep(s, h, id, ev)
    case Activating(id, ev) => ActivateStep(s, h, id, ev)
    case Enqueuing(id, _) => EnqueueStep(s, h, id)
    case Counting(id) => CountStep(s, h, id)
    case Asking(ev) => AskStep(s, h, ev)
    case Replied(_) => s
  }

  function DeliverStep(s: State, id: ScanId): State {
    s.(store := PopJob(s.store, id), workers := s.workers[id := Loading])
  }

  /** The `try` body and its two `except` clauses. */
  function AfterBody(n: nat, outcome: Outcome): WorkerPc {
    match outcome
    case RaisesProviderError => Finishing(ProviderFailed)
    case RaisesOther => Finishing(Failed)
    case Returns(hasToken) =>
      if n == 0 && !hasToken then Finishing(NoToken)
      else if n + 1 < BODY_STEPS then Body(n + 1)
      else Finishing(Completed)
  }

  function LoadStep(s: State, id: ScanId): State {
    s.(workers := s.workers[id := if Live(s.store.events, id, s.store.clock)
                                  then Checking(s.store.events[id].value) else Lost])
  }

  function CheckStep(s: State, id: ScanId, ev: Event): State {
    s.(workers := s.workers[id := if Stale(s.store, ev) then Finishing(Superseded) else Marking])
  }

  function MarkStep(s: State, id: ScanId): State {
    s.(workers := s.workers[id := Body(0)], store := SetStatus(s.store, id, Running))
  }

  function BodyStep(s: State, id: ScanId, n: nat, outcome: Outcome): State {
    s.(workers := s.workers[id := AfterBody(n, outcome)])
  }

  function FinishStep(s: State, id: ScanId, status: Status): State {
    s.(workers := s.workers[id := Decrementing(status)],
       store := SetStatus(s.store, id, status),
       finishes := s.finishes + multiset{id})
  }

  function DecrementStep(s: State, id: ScanId, status: Status): State {
    s.(workers := s.workers[id := Done(status)], store := AddGauge(s.store, -1))
  }

  function CancelStep(s: State, id: ScanId): State {
    s.(workers := s.workers[id := Cancelled])
  }

  function WorkerStep(s: State, id: ScanId, outcome: Outcome): State
    requires id in s.workers
  {
    match s.workers[id]
    case Loading => LoadStep(s, id)
    case Checking(ev) => CheckStep(s, id, ev)
    case Marking => MarkStep(s, id)
    case Body(n) => BodyStep(s, id, n, outcome)
    case Finishing(status) => FinishStep(s, id, status)
    case Decrementing(status) => DecrementStep(s, id, status)
    case Done(_) => s
    case Lost => s
    case Cancelled => s
  }

  function Apply(cfg: Config, s: State, a: Action): State {
    match a
    case Tick(d) => TickStep(s, d)
    case Arrive(h, req) => if h in s.handlers then s else ArriveStep(s, h, req)
    case Handle(h, uuid) => if h in s.handlers then HandlerStep(cfg, s, h, uuid) else s
    case Deliver(id) => if id in s.store.queue then DeliverStep(s, id) else s
    case Work(id, outcome) => if id in s.workers then WorkerStep(s, id, outcome) else s
    case Cancel(id) => if id in s.workers && !Stopped(s.workers[id]) then CancelStep(s, id) else s
  }

  function Exec(cfg: Config, s: State, acts: seq<Action>): State
    decreases |acts|
  {
    if acts == [] then s else Exec(cfg, Apply(cfg, s, acts[0]), acts[1..])
  }
}
