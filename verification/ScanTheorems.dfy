/** What the scan protocol promises in every run, under every interleaving. */
module ScanTheorems {
  import opened Schemas
  import opened ScanProtocol
  import opened ScanInvariant
  import opened ScanKeys

  // `Run(cfg, acts)` is the state after the schedule `acts`; the schedules range over any
  // number of handlers and workers, with time passing anywhere.

  function Run(cfg: Config, acts: seq<Action>): State {
    Exec(cfg, INIT, acts)
  }

  lemma {:induction false} ExecAppend(cfg: Config, s: State, acts: seq<Action>, a: Action)
    ensures Exec(cfg, s, acts + [a]) == Apply(cfg, Exec(cfg, s, acts), a)
    decreases |acts|
  {
    hide Apply;
    if acts == [] {
      assert Exec(cfg, s, [a]) == Exec(cfg, Apply(cfg, s, a), []);
    } else {
      assert (acts + [a])[1..] == acts[1..] + [a];
      ExecAppend(cfg, Apply(cfg, s, acts[0]), acts[1..], a);
    }
  }

  lemma {:induction false} ExecKeeps(cfg: Config, s: State, acts: seq<Action>)
    requires Inv(cfg, s)
    ensures Inv(cfg, Exec(cfg, s, acts))
    decreases |acts|
  {
    hide Inv;
    if acts != [] {
      Keeps(cfg, s, acts[0]);
      ExecKeeps(cfg, Apply(cfg, s, acts[0]), acts[1..]);
    }
  }

  lemma RunInv(cfg: Config, acts: seq<Action>)
    ensures Inv(cfg, Run(cfg, acts))
  {
    InitInv(cfg);
    hide Inv;
    ExecKeeps(cfg, INIT, acts);
  }

  // ---------------------------------------------------------------- superseding

  /** A scan is superseded only if another enqueue wrote a different head under the same
      key after the scan's own write, whether or not the active key ever expired. */
  lemma SupersededByKey(cfg: Config, acts: seq<Action>, id: ScanId)
    requires var s := Run(cfg, acts); id in s.store.scans && s.store.scans[id].status == Superseded
    ensures var s := Run(cfg, acts);
      exists i, j :: 0 <= i < j < |s.writes|
        && s.writes[i].id == id && s.writes[j].id != id
        && s.writes[j].key == s.writes[i].key == ActiveKey(s.store.scans[id].ev)
        && s.writes[i].head == HeadOf(s.store.scans[id].ev) && s.writes[j].head != s.writes[i].head
  {
    var s := Run(cfg, acts);
    RunInv(cfg, acts);
    hide Exec;
    assert Overtaken(s.writes, id) by {
      hide HandlersInv, RowsInv, ClaimsInv, QueueInv, GaugeInv, ActiveInv;
      WorkerFact(s.store.clock, s.workers, s.store.scans, s.finishes, s.store.events, s.writes, id);
    }
    hide HandlersInv, ClaimsInv, QueueInv, WorkersInv, GaugeInv, ActiveKey, HeadOf;
    HasScan(s, id);
    var i, j :| 0 <= i < j < |s.writes| && s.writes[i].id == id && s.writes[j].key == s.writes[i].key
                && s.writes[j].head != s.writes[i].head;
    assert s.writes[j].id != id;
  }

  /** The last write to the key is not expired and recorded another head. */
  ghost predicate LastWriteDiffers(s: State, ev: Event) {
    && LastWrite(s.writes, ActiveKey(ev)).Some?
    && var w := s.writes[LastWrite(s.writes, ActiveKey(ev)).value];
       s.store.clock < w.time + KEY_TTL && w.head != HeadOf(ev)
  }

  /** The stale check compares with the last recorded head, until that record expires. */
  lemma StaleByKey(cfg: Config, acts: seq<Action>, ev: Event)
    ensures Stale(Run(cfg, acts).store, ev) <==> LastWriteDiffers(Run(cfg, acts), ev)
  {
    RunInv(cfg, acts);
    hide Exec, HandlersInv, RowsInv, ClaimsInv, QueueInv, WorkersInv, GaugeInv, ActiveKey, HeadOf;
  }

  lemma LastWriterNotOvertaken(s: State, key: string)
    requires ActiveInv(s.store.clock, s.store.active, s.writes, s.rows)
    requires LastWrite(s.writes, key).Some?
    ensures var id := s.writes[LastWrite(s.writes, key).value].id;
      id in s.rows && ActiveKey(s.rows[id].ev) == key && !Overtaken(s.writes, id)
  {
    hide ActiveKey, HeadOf;
    var last := LastWrite(s.writes, key).value;
    var id := s.writes[last].id;
    assert forall i :: 0 <= i < |s.writes| && s.writes[i].id == id ==> i == last;
  }

  /** The job is neither on its way to the queue, nor waiting, nor running. */
  predicate Settled(s: State, id: ScanId) {
    && id !in s.store.queue
    && (id in s.workers ==> Stopped(s.workers[id]))
    && forall h :: h in s.handlers ==> HeldId(s.handlers[h].pc) == Some(id) ==> PastEnqueue(s.handlers[h].pc)
  }

  /** The scan whose enqueue wrote a key last is never superseded, and once nothing is
      pending for it, it ran to a terminal status. The two ways out are a job timeout and
      a worker that starts more than KEY_TTL seconds after the event was stored. */
  lemma LastWriterScanned(cfg: Config, acts: seq<Action>, key: string)
    requires LastWrite(Run(cfg, acts).writes, key).Some?
    ensures var s := Run(cfg, acts); var w := s.writes[LastWrite(s.writes, key).value];
      && w.id in s.store.scans && ActiveKey(s.store.scans[w.id].ev) == key
      && s.store.scans[w.id].status != Superseded
      && (Settled(s, w.id) ==>
            && w.id in s.workers
            && (s.workers[w.id].Lost? || s.workers[w.id].Cancelled?
                || (s.workers[w.id] == Done(s.store.scans[w.id].status) && s.finishes[w.id] == 1
                    && s.store.scans[w.id].status in {NoToken, Completed, ProviderFailed, Failed})))
  {
    var s := Run(cfg, acts);
    RunInv(cfg, acts);
    hide Exec, HandlersInv, RowsInv, ClaimsInv, QueueInv, WorkersInv, GaugeInv, ActiveInv, Overtaken, ActiveKey;
    LastWriterNotOvertaken(s, key);
    var id := s.writes[LastWrite(s.writes, key).value].id;
    HasScan(s, id);
    WorkerFact(s.store.clock, s.workers, s.store.scans, s.finishes, s.store.events, s.writes, id);
    if Settled(s, id) {
      RowIsEnqueued(s, id);
    }
  }

  lemma RowIsEnqueued(s: State, id: ScanId)
    requires HandlersInv(s.handlers, s.rows, s.store.events, s.writes)
    requires QueueInv(s.store.queue, s.workers, s.rows, s.handlers)
    requires id in s.rows && Settled(s, id)
    ensures id in s.workers
  {
    hide HandlerOk;
  }

  // ---------------------------------------------------------------- jobs

  /** A waiting or delivered job has its event, its row and its recorded head. */
  lemma JobsHaveInputs(cfg: Config, acts: seq<Action>, id: ScanId)
    requires var s := Run(cfg, acts); id in s.store.queue || id in s.workers
    ensures var s := Run(cfg, acts);
      && id in s.store.scans && id in s.store.events
      && s.store.events[id].value == s.store.scans[id].ev
      && exists i :: 0 <= i < |s.writes| && s.writes[i].id == id
           && s.writes[i].key == ActiveKey(s.store.scans[id].ev)
           && s.writes[i].head == HeadOf(s.store.scans[id].ev)
  {
    var s := Run(cfg, acts);
    RunInv(cfg, acts);
    hide Exec, HandlersInv, RowsInv, ClaimsInv, QueueInv, WorkersInv, GaugeInv, ActiveKey, HeadOf;
    JobFact(s, id);
    var i :| 0 <= i < |s.writes| && s.writes[i].id == id;
  }

  /** `_finish` runs at most once for a job, exactly once for a job that is done, and
      the row carries the status it wrote; a job is dropped only when its event expired. */
  lemma FinishedOnce(cfg: Config, acts: seq<Action>, id: ScanId)
    ensures var s := Run(cfg, acts);
      && s.finishes[id] <= 1
      && (s.finishes[id] == 1 ==> id in s.workers && id in s.store.scans && Terminal(s.store.scans[id].status))
      && (id in s.workers && s.workers[id].Done? ==>
            s.finishes[id] == 1 && id in s.store.scans && s.store.scans[id].status == s.workers[id].status)
      && (id in s.workers && s.workers[id].Lost? ==>
            id in s.store.events && s.store.events[id].deadline <= s.store.clock)
  {
    RunInv(cfg, acts);
    hide Exec, HandlersInv, RowsInv, ClaimsInv, QueueInv, GaugeInv, ActiveInv, Overtaken;
  }

  predicate StatusMove(before: Status, after: Status) {
    || before == after
    || (before.Queued? && after.Superseded?)
    || (before.Queued? && after.Running?)
    || (before.Running? && after in {NoToken, Completed, ProviderFailed, Failed})
  }

  /** Whatever happens next, a row stays and its status only moves forward. */
  lemma StatusMovesForward(cfg: Config, acts: seq<Action>, a: Action, id: ScanId)
    requires id in Run(cfg, acts).store.scans
    ensures var s, s' := Run(cfg, acts), Apply(cfg, Run(cfg, acts), a);
      id in s'.store.scans && s'.store.scans[id].ev == s.store.scans[id].ev
      && StatusMove(s.store.scans[id].status, s'.store.scans[id].status)
  {
    var s := Run(cfg, acts);
    RunInv(cfg, acts);
    hide Run, Inv, HandlerStep, WorkerStep;
    match a
    case Work(k, outcome) => if k in s.workers { WorkerMovesForward(cfg, s, k, outcome, id); }
    case Handle(h, uuid) => if h in s.handlers { HandlerLeavesRows(cfg, s, h, uuid); }
    case _ =>
  }

  lemma WorkerMovesForward(cfg: Config, s: State, k: ScanId, outcome: Outcome, id: ScanId)
    requires Inv(cfg, s) && k in s.workers && id in s.store.scans
    ensures var scans := WorkerStep(s, k, outcome).store.scans;
      id in scans && scans[id].ev == s.store.scans[id].ev && StatusMove(s.store.scans[id].status, scans[id].status)
  {
    WorkerTouchesOwnRow(s, k, outcome);
    hide HandlersInv, RowsInv, ClaimsInv, QueueInv, GaugeInv, ActiveInv, WorkersInv, WorkerStep, SetStatus, StatusMove;
    var pc, status := s.workers[k], s.store.scans[id].status;
    SameStatus(status);
    if pc.Marking? {
      StatusSet(s.store, k, Running, id);
      if id == k { NextStatus(s.store.clock, s.workers, s.store.scans, s.finishes, s.store.events, s.writes, id); }
    } else if pc.Finishing? {
      StatusSet(s.store, k, pc.status, id);
      if id == k { NextStatus(s.store.clock, s.workers, s.store.scans, s.finishes, s.store.events, s.writes, id); }
    }
  }

  lemma SameStatus(status: Status)
    ensures StatusMove(status, status)
  {
  }

  lemma NextStatus(clock: nat, workers: map<ScanId, WorkerPc>, scans: map<ScanId, Scan>,
                   finishes: multiset<ScanId>, events: map<ScanId, Expiring<Event>>, writes: seq<Write>, id: ScanId)
    requires WorkersInv(clock, workers, scans, finishes, events, writes) && id in scans && id in workers
    ensures workers[id].Marking? ==> StatusMove(scans[id].status, Running)
    ensures workers[id].Finishing? ==> StatusMove(scans[id].status, workers[id].status)
  {
    hide Overtaken;
    assert WorkerOk(clock, id, workers[id], scans[id], finishes[id], events, writes);
  }

  lemma StatusSet(st: Store, k: ScanId, status: Status, id: ScanId)
    requires id in st.scans
    ensures var scans := SetStatus(st, k, status).scans;
      id in scans && scans[id] == if id == k then st.scans[id].(status := status) else st.scans[id]
  {
  }

  lemma WorkerTouchesOwnRow(s: State, id: ScanId, outcome: Outcome)
    requires id in s.workers
    ensures var s' := WorkerStep(s, id, outcome);
      s'.store.scans ==
        if s.workers[id].Marking? then SetStatus(s.store, id, Running).scans
        else if s.workers[id].Finishing? then SetStatus(s.store, id, s.workers[id].status).scans
        else s.store.scans
  {
    match s.workers[id]
    case Loading =>
    case Checking(_) =>
    case Marking =>
    case Body(_) =>
    case Finishing(_) =>
    case Decrementing(_) =>
    case _ =>
  }

  lemma HandlerLeavesRows(cfg: Config, s: State, h: nat, uuid: ScanId)
    requires h in s.handlers
    ensures forall id :: id in s.store.scans ==>
              var scans := HandlerStep(cfg, s, h, uuid).store.scans; id in scans && scans[id] == s.store.scans[id]
  {
    hide DedupeKey, ActiveKey, HeadOf;
    match s.handlers[h].pc
    case Claiming(_) =>
    case Inserting(_) =>
    case Storing(_, _) =>
    case Activating(_, _) =>
    case Enqueuing(_, _) =>
    case Counting(_) =>
    case Asking(_) =>
    case Replied(_) =>
  }

  /** The queue-depth gauge: jobs waiting, running or abandoned, up to the handlers
      between the enqueue and the increment. */
  lemma GaugeCounts(cfg: Config, acts: seq<Action>)
    ensures var s := Run(cfg, acts);
      s.store.gauge == |s.store.queue| + |(set id | id in s.workers && !s.workers[id].Done?)|
                       - |(set h | h in s.handlers && s.handlers[h].pc.Counting?)|
  {
    var s := Run(cfg, acts);
    RunInv(cfg, acts);
    hide Exec, HandlersInv, RowsInv, ClaimsInv, QueueInv, WorkersInv, ActiveInv;
    assert (set id | id in s.workers && !s.workers[id].Done?) == Unfinished(s.workers);
    assert (set h | h in s.handlers && s.handlers[h].pc.Counting?) == Uncounted(s.handlers);
  }

  // ---------------------------------------------------------------- every job ends

  /** Steps a delivered job still has to take, at most. */
  function Rank(pc: WorkerPc): nat {
    match pc
    case Loading => BODY_STEPS + 5
    case Checking(_) => BODY_STEPS + 4
    case Marking => BODY_STEPS + 3
    case Body(n) => if n < BODY_STEPS then 2 + BODY_STEPS - n else 3
    case Finishing(_) => 2
    case Decrementing(_) => 1
    case _ => 0
  }

  /** Steps the schedule grants to one job. */
  function Turns(acts: seq<Action>, id: ScanId): nat {
    if acts == [] then 0 else (if acts[0].Work? && acts[0].id == id then 1 else 0) + Turns(acts[1..], id)
  }

  /** What one action does to a delivered job. */
  ghost predicate Advances(was: WorkerPc, now: WorkerPc, own: bool, cancelled: bool) {
    && Rank(now) <= Rank(was)
    && (own && Rank(was) > 0 ==> Rank(now) < Rank(was))
    && (!cancelled && !was.Loading? && !Stopped(was) ==> !now.Loading? && !now.Lost? && !now.Cancelled?)
    && (Stopped(was) ==> now == was)
  }

  lemma RankFalls(cfg: Config, s: State, a: Action, id: ScanId)
    requires Inv(cfg, s) && id in s.workers
    ensures var s' := Apply(cfg, s, a);
      id in s'.workers && Advances(s.workers[id], s'.workers[id], a.Work? && a.id == id, a == Cancel(id))
  {
    hide HandlersInv, RowsInv, ClaimsInv, QueueInv, WorkersInv, ActiveInv, GaugeInv, HandlerStep, WorkerStep;
    match a
    case Deliver(k) => QueuedIsNew(s);
    case Handle(h, uuid) => if h in s.handlers { HandlerLeavesWorkers(cfg, s, h, uuid); }
    case Work(k, outcome) => if k in s.workers { WorkerAdvances(s, k, outcome); }
    case _ =>
  }

  /** Where a delivered job goes next. */
  function NextPc(st: Store, id: ScanId, pc: WorkerPc, outcome: Outcome): WorkerPc {
    match pc
    case Loading => if Live(st.events, id, st.clock) then Checking(st.events[id].value) else Lost
    case Checking(ev) => if Stale(st, ev) then Finishing(Superseded) else Marking
    case Marking => Body(0)
    case Body(n) => AfterBody(n, outcome)
    case Finishing(status) => Decrementing(status)
    case Decrementing(status) => Done(status)
    case _ => pc
  }

  lemma NextAdvances(st: Store, id: ScanId, pc: WorkerPc, outcome: Outcome)
    ensures Advances(pc, NextPc(st, id, pc, outcome), true, false)
  {
    hide Stale, Live;
  }

  lemma WorkerGoes(s: State, k: ScanId, outcome: Outcome)
    requires k in s.workers
    ensures WorkerStep(s, k, outcome).workers == s.workers[k := NextPc(s.store, k, s.workers[k], outcome)]
  {
    hide Live, Stale, AfterBody, SetStatus;
    match s.workers[k]
    case Loading =>
    case Checking(_) =>
    case Marking =>
    case Body(_) =>
    case Finishing(_) =>
    case Decrementing(_) =>
    case _ =>
  }

  lemma WorkerAdvances(s: State, k: ScanId, outcome: Outcome)
    requires k in s.workers
    ensures var workers := WorkerStep(s, k, outcome).workers;
      && workers.Keys == s.workers.Keys && Advances(s.workers[k], workers[k], true, false)
      && forall id :: id in s.workers && id != k ==> workers[id] == s.workers[id]
  {
    WorkerGoes(s, k, outcome);
    NextAdvances(s.store, k, s.workers[k], outcome);
    hide WorkerStep, NextPc, Advances;
  }

  lemma QueuedIsNew(s: State)
    requires QueueInv(s.store.queue, s.workers, s.rows, s.handlers)
    ensures forall k :: k in s.store.queue ==> k !in s.workers
  {
  }

  lemma HandlerLeavesWorkers(cfg: Config, s: State, h: nat, uuid: ScanId)
    requires h in s.handlers
    ensures HandlerStep(cfg, s, h, uuid).workers == s.workers
  {
    hide DedupeKey, ActiveKey, HeadOf;
    match s.handlers[h].pc
    case Claiming(_) =>
    case Inserting(_) =>
    case Storing(_, _) =>
    case Activating(_, _) =>
    case Enqueuing(_, _) =>
    case Counting(_) =>
    case Asking(_) =>
    case Replied(_) =>
  }

  lemma {:induction false} JobStops(cfg: Config, s: State, acts: seq<Action>, id: ScanId)
    requires Inv(cfg, s) && id in s.workers && Turns(acts, id) >= Rank(s.workers[id])
    ensures var s' := Exec(cfg, s, acts); id in s'.workers && Stopped(s'.workers[id])
    ensures (!s.workers[id].Loading? && (!Stopped(s.workers[id]) || s.workers[id].Done?) && Cancel(id) !in acts)
            ==> Exec(cfg, s, acts).workers[id].Done?
    decreases |acts|
  {
    hide Inv, Apply;
    if acts != [] {
      Keeps(cfg, s, acts[0]);
      RankFalls(cfg, s, acts[0], id);
      assert Cancel(id) !in acts ==> Cancel(id) !in acts[1..];
      JobStops(cfg, Apply(cfg, s, acts[0]), acts[1..], id);
    }
  }

  /** Whatever the stages raise and however the steps interleave, a delivered job
      stops after at most BODY_STEPS + 5 of its own steps; unless it found its event
      expired or was cancelled, it has then called `_finish` exactly once. */
  lemma EveryJobFinishes(cfg: Config, acts: seq<Action>, more: seq<Action>, id: ScanId)
    requires id in Run(cfg, acts).workers && Turns(more, id) >= BODY_STEPS + 5
    ensures var s' := Exec(cfg, Run(cfg, acts), more);
      && id in s'.workers && Stopped(s'.workers[id])
      && ((!Run(cfg, acts).workers[id].Loading? && !Stopped(Run(cfg, acts).workers[id]) && Cancel(id) !in more)
          ==> (s'.workers[id].Done? && s'.finishes[id] == 1))
  {
    RunInv(cfg, acts);
    var s := Run(cfg, acts);
    hide Run;
    hide HandlersInv, RowsInv, ClaimsInv, QueueInv, GaugeInv, ActiveInv, Overtaken;
    JobStops(cfg, s, more, id);
    ExecKeeps(cfg, s, more);
  }

  // ---------------------------------------------------------------- idempotency

  /** Two successful claims of one dedupe key are at least the TTL apart. */
  lemma ClaimsApart(cfg: Config, acts: seq<Action>, i: nat, j: nat)
    requires var s := Run(cfg, acts); i < j < |s.claimed| && s.claimed[i].key == s.claimed[j].key
    ensures var s := Run(cfg, acts); s.claimed[i].time + cfg.ttl <= s.claimed[j].time
  {
    RunInv(cfg, acts);
    hide Exec, HandlersInv, RowsInv, QueueInv, WorkersInv, GaugeInv, ActiveInv;
  }

  /** Behind every scan row stand a request whose signature verified and a successful
      claim of the row's own dedupe key. */
  lemma RowsAreClaimed(cfg: Config, acts: seq<Action>, id: ScanId)
    requires id in Run(cfg, acts).store.scans
    ensures var s := Run(cfg, acts);
      && id in s.rows && s.rows[id].handler in s.handlers
      && var hd := s.handlers[s.rows[id].handler];
         && hd.req.signed && hd.req.event == Some(s.store.scans[id].ev)
         && s.store.scans[id].ev.kind in {PrOpened, PrUpdated}
         && hd.claim.Some? && hd.claim.value < |s.claimed|
         && s.claimed[hd.claim.value].handler == s.rows[id].handler
         && s.claimed[hd.claim.value].key == DedupeKey(cfg, s.store.scans[id].ev)
  {
    var s := Run(cfg, acts);
    RunInv(cfg, acts);
    hide Exec, HandlersInv, RowsInv, QueueInv, WorkersInv, GaugeInv, ActiveInv, DedupeKey;
    HasScan(s, id);
    RowOwner(s, id);
    assert ClaimOk(cfg, s.rows[id].handler, s.handlers[s.rows[id].handler], s.claimed);
  }

  lemma RowOwner(s: State, id: ScanId)
    requires HandlersInv(s.handlers, s.rows, s.store.events, s.writes) && id in s.rows
    ensures s.rows[id].handler in s.handlers && Admitted(s.handlers[s.rows[id].handler], s.rows[id].ev)
    ensures HeldId(s.handlers[s.rows[id].handler].pc) == Some(id)
  {
    hide Written;
    var h := s.rows[id].handler;
    assert HandlerOk(h, s.handlers[h], s.rows, s.store.events, s.writes);
  }

  /** Two scan rows with one dedupe key come from claims at least the TTL apart: at
      most one row per key is created in any TTL window. */
  lemma OneRowPerWindow(cfg: Config, acts: seq<Action>, a: ScanId, b: ScanId)
    requires var s := Run(cfg, acts);
      a != b && a in s.store.scans && b in s.store.scans
      && DedupeKey(cfg, s.store.scans[a].ev) == DedupeKey(cfg, s.store.scans[b].ev)
    ensures a in Run(cfg, acts).rows && b in Run(cfg, acts).rows
    ensures var s := Run(cfg, acts);
      exists i, j :: 0 <= i < |s.claimed| && 0 <= j < |s.claimed|
        && s.claimed[i].handler == s.rows[a].handler && s.claimed[j].handler == s.rows[b].handler
        && (s.claimed[i].time + cfg.ttl <= s.claimed[j].time || s.claimed[j].time + cfg.ttl <= s.claimed[i].time)
  {
    var s := Run(cfg, acts);
    RowsAreClaimed(cfg, acts, a);
    RowsAreClaimed(cfg, acts, b);
    assert s.rows[a].handler != s.rows[b].handler by {
      RunInv(cfg, acts);
      hide Exec, HandlersInv, ClaimsInv, RowsInv, QueueInv, WorkersInv, GaugeInv, ActiveInv, DedupeKey;
      RowOwner(s, a);
      RowOwner(s, b);
    }
    hide Run, DedupeKey;
    var i := s.handlers[s.rows[a].handler].claim.value;
    var j := s.handlers[s.rows[b].handler].claim.value;
    if i < j {
      ClaimsApart(cfg, acts, i, j);
    } else {
      ClaimsApart(cfg, acts, j, i);
    }
  }

  // ---------------------------------------------------------------- one commit, several deliveries

  /** The claim behind a scan row. */
  function ClaimOf(s: State, id: ScanId): Claim
    requires id in s.rows && s.rows[id].handler in s.handlers
    requires s.handlers[s.rows[id].handler].claim.Some? && s.handlers[s.rows[id].handler].claim.value < |s.claimed|
  {
    s.claimed[s.handlers[s.rows[id].handler].claim.value]
  }

  /** Two scans of one PR and head whose claims lie less than the TTL apart come from
      different deliveries. */
  lemma OneScanPerDelivery(cfg: Config, acts: seq<Action>, a: ScanId, b: ScanId)
    requires var s := Run(cfg, acts);
      a != b && a in s.store.scans && b in s.store.scans && SameCommit(s.store.scans[a].ev, s.store.scans[b].ev)
    ensures a in Run(cfg, acts).rows && Run(cfg, acts).rows[a].handler in Run(cfg, acts).handlers
    ensures b in Run(cfg, acts).rows && Run(cfg, acts).rows[b].handler in Run(cfg, acts).handlers
    ensures var s := Run(cfg, acts); var ha, hb := s.handlers[s.rows[a].handler], s.handlers[s.rows[b].handler];
      && ha.claim.Some? && ha.claim.value < |s.claimed| && hb.claim.Some? && hb.claim.value < |s.claimed|
      && (ClaimOf(s, a).time < ClaimOf(s, b).time + cfg.ttl && ClaimOf(s, b).time < ClaimOf(s, a).time + cfg.ttl ==>
            s.store.scans[a].ev.deliveryId != s.store.scans[b].ev.deliveryId)
  {
    var s := Run(cfg, acts);
    RowsAreClaimed(cfg, acts, a);
    RowsAreClaimed(cfg, acts, b);
    if s.store.scans[a].ev.deliveryId == s.store.scans[b].ev.deliveryId {
      SameKey(cfg, s.store.scans[a].ev, s.store.scans[b].ev);
      assert s.rows[a].handler != s.rows[b].handler by {
        RunInv(cfg, acts);
        hide Exec, HandlersInv, ClaimsInv, RowsInv, QueueInv, WorkersInv, GaugeInv, ActiveInv, DedupeKey;
        RowOwner(s, a);
        RowOwner(s, b);
      }
      hide Run, DedupeKey;
      var i := s.handlers[s.rows[a].handler].claim.value;
      var j := s.handlers[s.rows[b].handler].claim.value;
      if i < j {
        ClaimsApart(cfg, acts, i, j);
      } else {
        ClaimsApart(cfg, acts, j, i);
      }
    }
  }

  lemma SameKey(cfg: Config, a: Event, b: Event)
    requires SameCommit(a, b) && a.deliveryId == b.deliveryId
    ensures DedupeKey(cfg, a) == DedupeKey(cfg, b)
  {
    HeadsExactly(a, b);
  }

  // ---------------------------------------------------------------- who loses

  /** A scan is found superseded at its check exactly when the last head recorded under its
      key was recorded after its own, differs from it and has not expired. */
  lemma CheckLosesByKey(cfg: Config, acts: seq<Action>, id: ScanId, outcome: Outcome)
    requires id in Run(cfg, acts).workers && Run(cfg, acts).workers[id].Checking?
    ensures var s := Run(cfg, acts); var s' := Apply(cfg, s, Work(id, outcome));
      id in s.store.scans && id in s'.workers
      && (s'.workers[id] == Finishing(Superseded) <==>
            exists i, j :: OvertakesUntilNow(s, s.store.scans[id].ev, id, i, j))
  {
    var s := Run(cfg, acts);
    CheckingEvent(cfg, acts, id);
    hide Run, ActiveKey, HeadOf, Stale, LastWriteDiffers, Apply, OvertakesUntilNow;
    var ev := s.store.scans[id].ev;
    CheckOutcome(cfg, s, id, ev, outcome);
    StaleByKey(cfg, acts, ev);
    JobsHaveInputs(cfg, acts, id);
    var i :| 0 <= i < |s.writes| && s.writes[i].id == id && s.writes[i].key == ActiveKey(ev) && s.writes[i].head == HeadOf(ev);
    LosesByLast(s, ev, id, i);
  }

  lemma CheckingEvent(cfg: Config, acts: seq<Action>, id: ScanId)
    requires id in Run(cfg, acts).workers && Run(cfg, acts).workers[id].Checking?
    ensures id in Run(cfg, acts).store.scans
    ensures Run(cfg, acts).workers[id] == Checking(Run(cfg, acts).store.scans[id].ev)
  {
    RunInv(cfg, acts);
    hide Exec, HandlersInv, RowsInv, ClaimsInv, QueueInv, GaugeInv, ActiveInv, Overtaken;
  }

  lemma CheckOutcome(cfg: Config, s: State, id: ScanId, ev: Event, outcome: Outcome)
    requires id in s.workers && s.workers[id] == Checking(ev)
    ensures var s' := Apply(cfg, s, Work(id, outcome));
      id in s'.workers && (s'.workers[id] == Finishing(Superseded) <==> Stale(s.store, ev))
  {
    hide Stale, HandlerStep;
  }

  /** Write `i` is the scan's own, write `j` the last one to its key: another head. */
  ghost predicate OvertakesUntilNow(s: State, ev: Event, id: ScanId, i: int, j: int) {
    && 0 <= i < j < |s.writes| && s.writes[i].id == id && LastWrite(s.writes, ActiveKey(ev)) == Some(j)
    && s.writes[j].head != HeadOf(ev) && s.store.clock < s.writes[j].time + KEY_TTL
  }

  lemma LosesByLast(s: State, ev: Event, id: ScanId, i: nat)
    requires i < |s.writes| && s.writes[i].id == id && s.writes[i].key == ActiveKey(ev)
    requires s.writes[i].head == HeadOf(ev)
    ensures LastWriteDiffers(s, ev) <==> exists i, j :: OvertakesUntilNow(s, ev, id, i, j)
  {
    hide ActiveKey, HeadOf;
    if LastWriteDiffers(s, ev) {
      var j := LastWrite(s.writes, ActiveKey(ev)).value;
      assert OvertakesUntilNow(s, ev, id, i, j);
    }
  }
}
