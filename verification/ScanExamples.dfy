/** Schedules of the scan protocol that show what it does not promise.

    Two handlers are enough: one commit delivered twice is scanned twice, and an older
    commit, or one of another PR whose key collides, can supersede a newer one. The runs
    are built step by step, each stage as a state or as the facts about it that the next
    steps need. */
module ScanExamples {
  import opened Schemas
  import opened ScanProtocol
  import opened ScanInvariant
  import opened ScanKeys
  import opened ScanTheorems

  function Scanning(ev: Event): Request {
    Request(true, true, true, true, Some(ev), true)
  }

  /** Two events that ask for scans, arriving in this order at handlers 0 and 1. */
  datatype Pair = Pair(first: Event, second: Event, x: ScanId, y: ScanId)

  predicate Fit(cfg: Config, p: Pair) {
    && p.first.kind.PrUpdated? && p.second.kind.PrUpdated? && p.x != p.y
    && DedupeKey(cfg, p.first) != DedupeKey(cfg, p.second)
  }

  /** Both arrive, claim, and insert their rows. */
  function Prefix(p: Pair): seq<Action> {
    [Arrive(0, Scanning(p.first)), Arrive(1, Scanning(p.second)), Handle(0, p.x), Handle(1, p.y), Handle(0, p.x),
     Handle(1, p.y)]
  }

  // ---------------------------------------------------------------- the rows are inserted

  function Arrived(p: Pair): State {
    INIT.(handlers := map[0 := Handler(Scanning(p.first), None, Claiming(p.first)),
                          1 := Handler(Scanning(p.second), None, Claiming(p.second))])
  }

  function Claimed(cfg: Config, p: Pair): State {
    var k, l := DedupeKey(cfg, p.first), DedupeKey(cfg, p.second);
    INIT.(store := EMPTY_STORE.(claims := map[k := Expiring((), cfg.ttl), l := Expiring((), cfg.ttl)]),
          claimed := [Claim(k, 0, 0), Claim(l, 0, 1)],
          handlers := map[0 := Handler(Scanning(p.first), Some(0), Inserting(p.first)),
                          1 := Handler(Scanning(p.second), Some(1), Inserting(p.second))])
  }

  function Inserted(cfg: Config, p: Pair): State {
    var s := Claimed(cfg, p);
    s.(store := s.store.(scans := map[p.x := Scan(p.first, Queued), p.y := Scan(p.second, Queued)]),
       rows := map[p.x := Row(0, p.first), p.y := Row(1, p.second)],
       handlers := map[0 := Handler(Scanning(p.first), Some(0), Storing(p.x, p.first)),
                       1 := Handler(Scanning(p.second), Some(1), Storing(p.y, p.second))])
  }

  lemma ToArrived(cfg: Config, p: Pair)
    requires Fit(cfg, p)
    ensures Apply(cfg, Apply(cfg, INIT, Arrive(0, Scanning(p.first))), Arrive(1, Scanning(p.second))) == Arrived(p)
  {
    hide DedupeKey;
  }

  lemma ToClaimed(cfg: Config, p: Pair)
    requires Fit(cfg, p)
    ensures Apply(cfg, Apply(cfg, Arrived(p), Handle(0, p.x)), Handle(1, p.y)) == Claimed(cfg, p)
  {
    hide DedupeKey;
    var s := Apply(cfg, Arrived(p), Handle(0, p.x));
    assert s == ClaimWonStep(cfg, Arrived(p), 0, p.first);
    assert s.handlers[1].pc == Claiming(p.second) && Claimable(s.store, DedupeKey(cfg, p.second));
    assert Apply(cfg, s, Handle(1, p.y)) == ClaimWonStep(cfg, s, 1, p.second);
  }

  lemma ToInserted(cfg: Config, p: Pair)
    requires Fit(cfg, p)
    ensures Apply(cfg, Apply(cfg, Claimed(cfg, p), Handle(0, p.x)), Handle(1, p.y)) == Inserted(cfg, p)
  {
    hide DedupeKey;
    var s := Apply(cfg, Claimed(cfg, p), Handle(0, p.x));
    assert s == InsertStep(Claimed(cfg, p), 0, p.first, p.x);
    assert s.handlers[1].pc == Inserting(p.second) && p.y !in s.store.scans;
    assert Apply(cfg, s, Handle(1, p.y)) == InsertStep(s, 1, p.second, p.y);
  }

  lemma TwoMore(cfg: Config, s: State, acts: seq<Action>, a: Action, b: Action)
    ensures Exec(cfg, s, acts + [a, b]) == Apply(cfg, Apply(cfg, Exec(cfg, s, acts), a), b)
  {
    hide Apply, Exec;
    assert acts + [a, b] == acts + [a] + [b];
    ExecAppend(cfg, s, acts, a);
    ExecAppend(cfg, s, acts + [a], b);
  }

  lemma ToPrefix(cfg: Config, p: Pair)
    requires Fit(cfg, p)
    ensures Run(cfg, Prefix(p)) == Inserted(cfg, p)
  {
    hide Apply, Run, Inserted, Claimed, Arrived, Fit, Scanning;
    NoRun(cfg);
    ToArrived(cfg, p);
    ToClaimed(cfg, p);
    ToInserted(cfg, p);
    var a, b := [Arrive(0, Scanning(p.first)), Arrive(1, Scanning(p.second))], [Handle(0, p.x), Handle(1, p.y)];
    RunTwo(cfg, [], a[0], a[1]);
    RunTwo(cfg, a, b[0], b[1]);
    RunTwo(cfg, a + b, b[0], b[1]);
    assert [] + a == a && a + b + b == Prefix(p);
  }

  lemma NoRun(cfg: Config)
    ensures Run(cfg, []) == INIT
  {
  }

  // ---------------------------------------------------------------- one commit, two scans

  /** A commit whose two deliveries carry different dedupe keys gets two scan rows, with
      claims in the same instant. */
  lemma TwoDeliveriesTwoScans(cfg: Config, p: Pair)
    requires Fit(cfg, p) && SameCommit(p.first, p.second)
    ensures var s := Run(cfg, Prefix(p));
      && p.x in s.store.scans && p.y in s.store.scans && s.store.scans[p.x].ev == p.first && s.store.scans[p.y].ev == p.second
      && p.x in s.rows && p.y in s.rows && |s.claimed| == 2
      && s.claimed[0].handler == s.rows[p.x].handler && s.claimed[1].handler == s.rows[p.y].handler
      && s.claimed[0].time == s.claimed[1].time == 0
  {
    ToPrefix(cfg, p);
    hide Run, DedupeKey, Fit, Scanning;
  }

  const PLAIN := Config((basis: string) => basis, 60)
  const PUSH := Event("github", PrUpdated, "d1", "7", "12", Some("abc"))
  const RETRY := PUSH.(deliveryId := "d2")

  /** Such a pair: one push delivered under two delivery ids, with a digest that keeps
      their keys apart. */
  lemma PushDeliveredTwice()
    ensures Fit(PLAIN, Pair(PUSH, RETRY, "x", "y")) && SameCommit(PUSH, RETRY)
  {
    var rest := ":" + "7" + ":" + "12" + ":" + HeadOf(PUSH);
    KeyShape(PUSH);
    KeyShape(RETRY);
    assert DedupeKey(PLAIN, PUSH)[8] == '1' && DedupeKey(PLAIN, RETRY)[8] == '2';
    assert "x"[0] != "y"[0];
  }

  lemma KeyShape(ev: Event)
    requires ev.provider == "github" && |ev.deliveryId| == 2
    ensures |DedupeKey(PLAIN, ev)| > 8 && DedupeKey(PLAIN, ev)[8] == ev.deliveryId[1]
  {
    var front := ev.provider + ":" + ev.deliveryId;
    var rest := ":" + ev.repo + ":" + ev.pr + ":" + HeadOf(ev);
    assert DedupeKey(PLAIN, ev) == front + rest;
  }

  // ---------------------------------------------------------------- the older commit wins

  /** Where the two handlers and the second scan's worker stand, and what was written. */
  predicate Stage(s: State, p: Pair, first: HandlerPc, second: HandlerPc, worker: Option<WorkerPc>, stored: bool,
                  queued: bool, writes: seq<Write>)
  {
    && 0 in s.handlers && s.handlers[0].pc == first && 1 in s.handlers && s.handlers[1].pc == second
    && s.store.clock == 0 && s.writes == writes
    && p.y in s.store.scans && s.store.scans[p.y] == Scan(p.second, Queued)
    && (stored ==> p.y in s.store.events && s.store.events[p.y] == Expiring(p.second, KEY_TTL))
    && (queued <==> p.y in s.store.queue)
    && (worker.None? <==> p.y !in s.workers) && (worker.Some? ==> s.workers[p.y] == worker.value)
  }

  /** The later handler records its head first. */
  function Suffix(p: Pair): seq<Action> {
    [Handle(0, p.x), Handle(1, p.y), Handle(1, p.y), Handle(0, p.x), Handle(1, p.y), Deliver(p.y), Work(p.y, Returns(true))]
  }

  function WriteOf(id: ScanId, ev: Event): Write {
    Write(id, ActiveKey(ev), HeadOf(ev), 0)
  }

  lemma StashBoth(cfg: Config, p: Pair, s: State)
    requires p.x != p.y && Stage(s, p, Storing(p.x, p.first), Storing(p.y, p.second), None, false, false, [])
    ensures var s' := Apply(cfg, Apply(cfg, s, Handle(0, p.x)), Handle(1, p.y));
      Stage(s', p, Activating(p.x, p.first), Activating(p.y, p.second), None, true, false, [])
  {
    hide DedupeKey, ActiveKey, HeadOf;
    assert Apply(cfg, s, Handle(0, p.x)) == StashStep(s, 0, p.x, p.first);
  }

  lemma ActivateBoth(cfg: Config, p: Pair, s: State)
    requires Stage(s, p, Activating(p.x, p.first), Activating(p.y, p.second), None, true, false, [])
    ensures var s' := Apply(cfg, Apply(cfg, s, Handle(1, p.y)), Handle(0, p.x));
      Stage(s', p, Enqueuing(p.x, p.first), Enqueuing(p.y, p.second), None, true, false,
            [WriteOf(p.y, p.second), WriteOf(p.x, p.first)])
  {
    hide DedupeKey, ActiveKey, HeadOf;
    assert Apply(cfg, s, Handle(1, p.y)) == ActivateStep(s, 1, p.y, p.second);
  }

  lemma EnqueueAndDeliver(cfg: Config, p: Pair, s: State, writes: seq<Write>)
    requires Stage(s, p, Enqueuing(p.x, p.first), Enqueuing(p.y, p.second), None, true, false, writes)
    ensures var s' := Apply(cfg, Apply(cfg, s, Handle(1, p.y)), Deliver(p.y));
      Stage(s', p, Enqueuing(p.x, p.first), Counting(p.y), Some(Loading), true, false, writes)
  {
    hide DedupeKey, ActiveKey, HeadOf;
    assert Apply(cfg, s, Handle(1, p.y)) == EnqueueStep(s, 1, p.y);
  }

  lemma LoadScan(cfg: Config, p: Pair, s: State, writes: seq<Write>)
    requires Stage(s, p, Enqueuing(p.x, p.first), Counting(p.y), Some(Loading), true, false, writes)
    ensures Stage(Apply(cfg, s, Work(p.y, Returns(true))), p, Enqueuing(p.x, p.first), Counting(p.y),
                  Some(Checking(p.second)), true, false, writes)
  {
    hide DedupeKey, ActiveKey, HeadOf;
    assert Apply(cfg, s, Work(p.y, Returns(true))) == LoadStep(s, p.y);
  }

  lemma RunTwo(cfg: Config, acts: seq<Action>, a: Action, b: Action)
    ensures Run(cfg, acts + [a, b]) == Apply(cfg, Apply(cfg, Run(cfg, acts), a), b)
    ensures Run(cfg, acts + [a]) == Apply(cfg, Run(cfg, acts), a)
  {
    hide Apply, Exec;
    TwoMore(cfg, INIT, acts, a, b);
    ExecAppend(cfg, INIT, acts, a);
  }

  /** From the inserted rows to both heads recorded. */
  lemma RecordBoth(cfg: Config, p: Pair, acts: seq<Action>)
    requires p.x != p.y
    requires Stage(Run(cfg, acts), p, Storing(p.x, p.first), Storing(p.y, p.second), None, false, false, [])
    ensures Stage(Run(cfg, acts + [Handle(0, p.x), Handle(1, p.y)] + [Handle(1, p.y), Handle(0, p.x)]), p,
                  Enqueuing(p.x, p.first), Enqueuing(p.y, p.second), None, true, false,
                  [WriteOf(p.y, p.second), WriteOf(p.x, p.first)])
  {
    hide Apply, Run, Stage, WriteOf;
    var first, second := Handle(0, p.x), Handle(1, p.y);
    StashBoth(cfg, p, Run(cfg, acts));
    RunTwo(cfg, acts, first, second);
    var b := acts + [first, second];
    ActivateBoth(cfg, p, Run(cfg, b));
    RunTwo(cfg, b, second, first);
  }

  /** From there to the check of the second scan. */
  lemma ReachCheck(cfg: Config, p: Pair, acts: seq<Action>, writes: seq<Write>)
    requires Stage(Run(cfg, acts), p, Enqueuing(p.x, p.first), Enqueuing(p.y, p.second), None, true, false, writes)
    ensures Stage(Run(cfg, acts + [Handle(1, p.y), Deliver(p.y)] + [Work(p.y, Returns(true))]), p,
                  Enqueuing(p.x, p.first), Counting(p.y), Some(Checking(p.second)), true, false, writes)
  {
    hide Apply, Run, Stage;
    var second, load := Handle(1, p.y), Work(p.y, Returns(true));
    EnqueueAndDeliver(cfg, p, Run(cfg, acts), writes);
    RunTwo(cfg, acts, second, Deliver(p.y));
    var d := acts + [second, Deliver(p.y)];
    LoadScan(cfg, p, Run(cfg, d), writes);
    RunTwo(cfg, d, load, load);
  }

  lemma SuffixRun(cfg: Config, p: Pair)
    requires Fit(cfg, p)
    ensures Stage(Run(cfg, Prefix(p) + Suffix(p)), p, Enqueuing(p.x, p.first), Counting(p.y), Some(Checking(p.second)),
                  true, false, [WriteOf(p.y, p.second), WriteOf(p.x, p.first)])
  {
    ToPrefix(cfg, p);
    InsertedStage(cfg, p);
    hide Run, Stage, Inserted, DedupeKey, Prefix, Suffix, WriteOf;
    RecordBoth(cfg, p, Prefix(p));
    ReachCheck(cfg, p, Prefix(p) + [Handle(0, p.x), Handle(1, p.y)] + [Handle(1, p.y), Handle(0, p.x)],
               [WriteOf(p.y, p.second), WriteOf(p.x, p.first)]);
    SuffixShape(p);
    Append4(Prefix(p), [Handle(0, p.x), Handle(1, p.y)], [Handle(1, p.y), Handle(0, p.x)], [Handle(1, p.y), Deliver(p.y)],
            [Work(p.y, Returns(true))]);
  }

  lemma Append4(a: seq<Action>, b: seq<Action>, c: seq<Action>, d: seq<Action>, e: seq<Action>)
    ensures a + b + c + d + e == a + (b + c + d + e)
  {
  }

  lemma SuffixShape(p: Pair)
    ensures [Handle(0, p.x), Handle(1, p.y)] + [Handle(1, p.y), Handle(0, p.x)] + [Handle(1, p.y), Deliver(p.y)]
            + [Work(p.y, Returns(true))] == Suffix(p)
  {
  }

  lemma InsertedStage(cfg: Config, p: Pair)
    requires p.x != p.y
    ensures Stage(Inserted(cfg, p), p, Storing(p.x, p.first), Storing(p.y, p.second), None, false, false, [])
  {
    hide DedupeKey;
  }

  /** Two pushes to one PR whose handlers overlap: the first to arrive records its head
      last, and the scan of the commit that arrived last is superseded. */
  lemma OlderCommitWins(cfg: Config, p: Pair)
    requires Fit(cfg, p) && ActiveKey(p.first) == ActiveKey(p.second) && HeadOf(p.first) != HeadOf(p.second)
    ensures var s' := Run(cfg, Prefix(p) + Suffix(p) + [Work(p.y, Returns(true)), Work(p.y, Returns(true))]);
      p.y in s'.store.scans && s'.store.scans[p.y] == Scan(p.second, Superseded)
  {
    var acts := Prefix(p) + Suffix(p);
    SuffixRun(cfg, p);
    var s := Run(cfg, acts);
    var check := Work(p.y, Returns(true));
    OwnThenOther(cfg, p, s);
    hide ActiveKey, HeadOf, Exec, Fit, OvertakesUntilNow, Prefix, Suffix, DedupeKey;
    CheckLosesByKey(cfg, acts, p.y, Returns(true));
    TwoMore(cfg, INIT, acts, check, check);
    FinishesSuperseded(cfg, p, s, Apply(cfg, s, check));
  }

  const NESTED := Event("gitlab", PrUpdated, "d1", "a:b", "c", Some("new"))
  const SPLIT := Event("gitlab", PrUpdated, "d2", "a", "b:c", Some("other"))

  /** Where PR numbers may hold colons, PRs of two repositories can share a key, and the
      run above supersedes the only scan of one of them. */
  lemma CollidingPrs()
    ensures !SamePr(NESTED, SPLIT) && ActiveKey(NESTED) == ActiveKey(SPLIT) && HeadOf(NESTED) != HeadOf(SPLIT)
    ensures Fit(PLAIN, Pair(SPLIT, NESTED, "x", "y"))
    ensures var p := Pair(SPLIT, NESTED, "x", "y");
      var s' := Run(PLAIN, Prefix(p) + Suffix(p) + [Work(p.y, Returns(true)), Work(p.y, Returns(true))]);
      p.y in s'.store.scans && s'.store.scans[p.y] == Scan(NESTED, Superseded)
  {
    var p := Pair(SPLIT, NESTED, "x", "y");
    assert |NESTED.repo| == 3 && |SPLIT.repo| == 1;
    assert "a:b" + ":" + "c" == "a:b:c" == "a" + ":" + "b:c";
    assert ActiveKey(NESTED) == "aegis:active:gitlab:" + "a:b:c" == ActiveKey(SPLIT);
    assert |HeadOf(NESTED)| == 3 && |HeadOf(SPLIT)| == 5;
    LongKeys();
    assert "x"[0] != "y"[0];
    hide Run, ActiveKey, DedupeKey, HeadOf, Prefix, Suffix;
    OlderCommitWins(PLAIN, p);
  }

  lemma LongKeys()
    ensures DedupeKey(PLAIN, NESTED) != DedupeKey(PLAIN, SPLIT)
  {
    assert |DedupeKey(PLAIN, NESTED)| == 19 && |DedupeKey(PLAIN, SPLIT)| == 21;
  }

  lemma OwnThenOther(cfg: Config, p: Pair, s: State)
    requires p.x != p.y && ActiveKey(p.first) == ActiveKey(p.second) && HeadOf(p.first) != HeadOf(p.second)
    requires s.writes == [WriteOf(p.y, p.second), WriteOf(p.x, p.first)] && s.store.clock == 0
    ensures OvertakesUntilNow(s, p.second, p.y, 0, 1)
  {
    hide ActiveKey, HeadOf;
    assert s.writes[1].key == ActiveKey(p.second);
  }

  lemma FinishesSuperseded(cfg: Config, p: Pair, s: State, s1: State)
    requires p.y in s.workers && s.workers[p.y] == Checking(p.second) && s1 == Apply(cfg, s, Work(p.y, Returns(true)))
    requires p.y in s1.workers && s1.workers[p.y] == Finishing(Superseded)
    requires p.y in s.store.scans && s.store.scans[p.y] == Scan(p.second, Queued)
    ensures var s2 := Apply(cfg, s1, Work(p.y, Returns(true)));
      p.y in s2.store.scans && s2.store.scans[p.y] == Scan(p.second, Superseded)
  {
    hide Stale, HandlerStep;
    assert s1 == CheckStep(s, p.y, p.second);
    assert Apply(cfg, s1, Work(p.y, Returns(true))) == FinishStep(s1, p.y, Superseded);
  }
}
