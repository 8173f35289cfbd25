/** Which commits of a PR are scanned, in every run: the active-head key told by PRs. */
module ScanHeads {
  import opened Schemas
  import opened ScanProtocol
  import opened ScanInvariant
  import opened ScanKeys
  import opened ScanTheorems

  /** Write `i` recorded a head of the PR that `ev` is about. */
  ghost predicate OfPr(s: State, ev: Event, i: int) {
    0 <= i < |s.writes| && s.writes[i].id in s.store.scans && SamePr(s.store.scans[s.writes[i].id].ev, ev)
  }

  /** No later write recorded a head of that PR. */
  ghost predicate LastOfPr(s: State, ev: Event, i: int) {
    OfPr(s, ev, i) && forall j :: i < j < |s.writes| ==> !OfPr(s, ev, j)
  }

  /** Write `i` recorded the PR's last head less than a day ago, and it is not the head
      of `ev`. */
  ghost predicate OtherHead(s: State, ev: Event, i: int) {
    LastOfPr(s, ev, i) && s.store.clock < s.writes[i].time + 86_400
    && !SameHead(s.store.scans[s.writes[i].id].ev, ev)
  }

  /** No provider name and no PR number holds a colon. */
  ghost predicate PlainRows(s: State) {
    forall id :: id in s.store.scans ==> Plain(s.store.scans[id].ev)
  }

  /** What a write says, by the scan that made it. */
  lemma WriteFact(cfg: Config, acts: seq<Action>, ev: Event, i: nat)
    requires i < |Run(cfg, acts).writes|
    ensures var s := Run(cfg, acts); var w := s.writes[i];
      && w.id in s.store.scans && w.key == ActiveKey(s.store.scans[w.id].ev)
      && (w.head == HeadOf(ev) <==> SameHead(s.store.scans[w.id].ev, ev))
      && (Plain(ev) && Plain(s.store.scans[w.id].ev) ==> (w.key == ActiveKey(ev) <==> OfPr(s, ev, i)))
  {
    var s := Run(cfg, acts);
    RunInv(cfg, acts);
    hide Exec, HandlersInv, ClaimsInv, QueueInv, WorkersInv, GaugeInv, ActiveMirrors, ActiveKey, HeadOf, Run,
      SameHead, SamePr, Plain;
    assert WriteOk(s.store.clock, s.writes[i], s.rows);
    var other := s.rows[s.writes[i].id].ev;
    HeadsExactly(other, ev);
    if Plain(ev) && Plain(other) {
      ActiveKeysExactly(other, ev);
    }
  }

  lemma LastOfKey(cfg: Config, acts: seq<Action>, ev: Event, i: int)
    requires Plain(ev) && PlainRows(Run(cfg, acts))
    ensures LastWrite(Run(cfg, acts).writes, ActiveKey(ev)) == Some(i) <==> LastOfPr(Run(cfg, acts), ev, i)
  {
    var s := Run(cfg, acts);
    forall k | 0 <= k < |s.writes| ensures s.writes[k].key == ActiveKey(ev) <==> OfPr(s, ev, k) {
      WriteFact(cfg, acts, ev, k);
    }
    hide OfPr, ActiveKey, Run;
  }

  /** The stale check is about the PR: it is true exactly when the last head recorded for
      the PR is younger than a day and another one. */
  lemma StaleExactly(cfg: Config, acts: seq<Action>, ev: Event)
    requires Plain(ev) && PlainRows(Run(cfg, acts))
    ensures Stale(Run(cfg, acts).store, ev) <==> exists i :: OtherHead(Run(cfg, acts), ev, i)
  {
    var s := Run(cfg, acts);
    StaleByKey(cfg, acts, ev);
    hide Stale, Run, OfPr, ActiveKey, HeadOf, SameHead, LastOfPr, PlainRows, Plain;
    if LastWriteDiffers(s, ev) {
      var i := LastWrite(s.writes, ActiveKey(ev)).value;
      LastOfKey(cfg, acts, ev, i);
      WriteFact(cfg, acts, ev, i);
      assert OtherHead(s, ev, i);
    }
    if i :| OtherHead(s, ev, i) {
      LastOfKey(cfg, acts, ev, i);
      WriteFact(cfg, acts, ev, i);
    }
  }

  /** Write `i` is the scan's own; after it write `j` recorded another head, for the same
      PR as far as their keys are plain. */
  ghost predicate Overtakes(s: State, id: ScanId, i: int, j: int) {
    && 0 <= i < j < |s.writes| && s.writes[i].id == id && s.writes[j].id != id
    && id in s.store.scans && s.writes[j].id in s.store.scans
    && var own, other := s.store.scans[id].ev, s.store.scans[s.writes[j].id].ev;
       !SameHead(own, other) && (Plain(own) && Plain(other) ==> SamePr(own, other))
  }

  /** A scan is superseded only if another enqueue recorded a different head of the same
      PR after the scan's own, whether or not the active key ever expired. */
  lemma SupersededOnlyIfOvertaken(cfg: Config, acts: seq<Action>, id: ScanId)
    requires var s := Run(cfg, acts); id in s.store.scans && s.store.scans[id].status == Superseded
    ensures exists i, j :: Overtakes(Run(cfg, acts), id, i, j)
  {
    var s := Run(cfg, acts);
    SupersededByKey(cfg, acts, id);
    hide Run, ActiveKey, HeadOf, SameHead, Plain, SamePr;
    var own := s.store.scans[id].ev;
    var i, j :| 0 <= i < j < |s.writes| && s.writes[i].id == id && s.writes[j].id != id
                && s.writes[j].key == s.writes[i].key == ActiveKey(own)
                && s.writes[i].head == HeadOf(own) && s.writes[j].head != s.writes[i].head;
    WriteFact(cfg, acts, own, j);
    SameSwaps(own, s.store.scans[s.writes[j].id].ev);
    assert Overtakes(s, id, i, j);
  }

  lemma SameSwaps(a: Event, b: Event)
    ensures SameHead(a, b) <==> SameHead(b, a)
    ensures SamePr(a, b) <==> SamePr(b, a)
  {
  }

  /** A scan is found superseded at its check exactly when the last head recorded for its
      PR was recorded after its own, differs from it and has not expired. The order in
      which the commits arrived plays no part. */
  lemma CheckLosesExactly(cfg: Config, acts: seq<Action>, id: ScanId, outcome: Outcome)
    requires id in Run(cfg, acts).workers && Run(cfg, acts).workers[id].Checking? && PlainRows(Run(cfg, acts))
    ensures var s := Run(cfg, acts); var s' := Apply(cfg, s, Work(id, outcome));
      id in s.store.scans && id in s'.workers
      && (s'.workers[id] == Finishing(Superseded) <==>
            exists i, j :: 0 <= i < j && OfPr(s, s.store.scans[id].ev, i) && s.writes[i].id == id
                           && OtherHead(s, s.store.scans[id].ev, j))
  {
    var s := Run(cfg, acts);
    CheckLosesByKey(cfg, acts, id, outcome);
    var ev := s.store.scans[id].ev;
    assert Plain(ev);
    hide Run, Apply, ActiveKey, HeadOf, SameHead, OfPr, LastOfPr, PlainRows, Plain;
    forall i: int, j: int ensures OvertakesUntilNow(s, ev, id, i, j) <==>
        0 <= i < j && OfPr(s, ev, i) && s.writes[i].id == id && OtherHead(s, ev, j)
    {
      if 0 <= i < j < |s.writes| {
        LastOfKey(cfg, acts, ev, j);
        WriteFact(cfg, acts, ev, j);
        WriteFact(cfg, acts, ev, i);
      } else {
        LastInside(s, ev, j);
      }
      OwnIsOfPr(s, id, i);
    }
    hide OvertakesUntilNow, OtherHead;
  }

  lemma LastInside(s: State, ev: Event, i: int)
    ensures LastOfPr(s, ev, i) ==> 0 <= i < |s.writes|
  {
  }

  lemma OwnIsOfPr(s: State, id: ScanId, i: int)
    ensures 0 <= i < |s.writes| && s.writes[i].id == id && id in s.store.scans ==> OfPr(s, s.store.scans[id].ev, i)
  {
  }

  /** The scan whose enqueue recorded a PR's head last is never superseded, and once
      nothing is pending for it, it ran to a terminal status: the newest recorded head
      of every PR is scanned, whatever happens to other PRs. The two ways out are a job
      timeout and a worker that starts more than a day after the event was stored. */
  lemma NewestHeadScanned(cfg: Config, acts: seq<Action>, pr: Event, i: nat)
    requires Plain(pr) && PlainRows(Run(cfg, acts)) && LastOfPr(Run(cfg, acts), pr, i)
    ensures var s := Run(cfg, acts); var id := s.writes[i].id;
      && s.store.scans[id].status != Superseded
      && (Settled(s, id) ==>
            && id in s.workers
            && (s.workers[id].Lost? || s.workers[id].Cancelled?
                || (s.workers[id] == Done(s.store.scans[id].status) && s.finishes[id] == 1
                    && s.store.scans[id].status in {NoToken, Completed, ProviderFailed, Failed})))
  {
    LastOfKey(cfg, acts, pr, i);
    hide Run, ActiveKey, PlainRows, Plain, Settled;
    LastWriterScanned(cfg, acts, ActiveKey(pr));
  }
}
