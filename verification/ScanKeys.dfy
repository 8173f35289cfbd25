/** What the Redis keys of the scan protocol identify (aegis/queue.py, aegis/schemas.py). */
module ScanKeys {
  import opened Schemas
  import opened Text
  import opened ScanProtocol

  predicate SamePr(a: Event, b: Event) {
    a.provider == b.provider && a.repo == b.repo && a.pr == b.pr
  }

  /** The parts around the repository hold no colon; the repository may. */
  predicate Plain(ev: Event) {
    ':' !in ev.provider && ':' !in ev.pr
  }

  /** The same head; a missing one and an empty one count as the same. */
  predicate SameHead(a: Event, b: Event) {
    a.head == b.head || (Blank(a.head) && Blank(b.head))
  }

  predicate SameCommit(a: Event, b: Event) {
    SamePr(a, b) && SameHead(a, b)
  }

  /** The same delivery of the same commit. */
  predicate SameDelivery(a: Event, b: Event) {
    SameCommit(a, b) && a.deliveryId == b.deliveryId
  }

  predicate PlainDelivery(ev: Event) {
    Plain(ev) && ':' !in ev.deliveryId && (ev.head.Some? ==> ':' !in ev.head.value)
  }

  /** The digest keeps different texts apart. */
  ghost predicate NoCollisions(cfg: Config) {
    forall x, y :: cfg.hash(x) == cfg.hash(y) ==> x == y
  }

  lemma HeadsExactly(a: Event, b: Event)
    ensures HeadOf(a) == HeadOf(b) <==> SameHead(a, b)
  {
  }

  /** The active-head keys of two events are equal if and only if the events are about
      one PR. */
  lemma ActiveKeysExactly(a: Event, b: Event)
    requires Plain(a) && Plain(b)
    ensures ActiveKey(a) == ActiveKey(b) <==> SamePr(a, b)
  {
    if ActiveKey(a) == ActiveKey(b) {
      var restA, restB := a.repo + [':'] + a.pr, b.repo + [':'] + b.pr;
      assert ActiveKey(a)[13..] == a.provider + [':'] + restA;
      assert ActiveKey(b)[13..] == b.provider + [':'] + restB;
      FirstPart(':', a.provider, restA, b.provider, restB);
      LastPart(':', a.repo, a.pr, b.repo, b.pr);
    }
  }

  /** The dedupe keys of two events are equal if and only if the events are the same
      delivery of the same commit: a new head or a new delivery is a new key. */
  lemma DedupeKeysExactly(cfg: Config, a: Event, b: Event)
    requires NoCollisions(cfg) && PlainDelivery(a) && PlainDelivery(b)
    ensures DedupeKey(cfg, a) == DedupeKey(cfg, b) <==> SameDelivery(a, b)
  {
    HeadsExactly(a, b);
    if DedupeKey(cfg, a) == DedupeKey(cfg, b) {
      assert ':' !in HeadOf(a) && ':' !in HeadOf(b);
      FiveParts(a.provider, a.deliveryId, a.repo, a.pr, HeadOf(a), b.provider, b.deliveryId, b.repo, b.pr, HeadOf(b));
    }
  }

  lemma FiveParts(p: string, d: string, r: string, n: string, h: string,
                  p': string, d': string, r': string, n': string, h': string)
    requires p + ":" + d + ":" + r + ":" + n + ":" + h == p' + ":" + d' + ":" + r' + ":" + n' + ":" + h'
    requires ':' !in p && ':' !in d && ':' !in n && ':' !in h && ':' !in p' && ':' !in d' && ':' !in n' && ':' !in h'
    ensures p == p' && d == d' && r == r' && n == n' && h == h'
  {
    FiveGrouped(p, d, r, n, h);
    FiveGrouped(p', d', r', n', h');
    FirstPart(':', p, d + [':'] + (r + [':'] + n + [':'] + h), p', d' + [':'] + (r' + [':'] + n' + [':'] + h'));
    FirstPart(':', d, r + [':'] + n + [':'] + h, d', r' + [':'] + n' + [':'] + h');
    LastPart(':', r + [':'] + n, h, r' + [':'] + n', h');
    LastPart(':', r, n, r', n');
  }

  lemma FiveGrouped(p: string, d: string, r: string, n: string, h: string)
    ensures p + ":" + d + ":" + r + ":" + n + ":" + h == p + [':'] + (d + [':'] + (r + [':'] + n + [':'] + h))
  {
  }
}
