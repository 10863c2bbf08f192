/**
 * The two-level read-through scheme that rangecache.go, logscache.go and tracescache.go
 * share, as a function of the store, the clock and the behaviour of the cache during the
 * request, and what holds over all runs of it.
 */
module CacheAside {
  import opened Base
  import opened Sorting

  const FULL_RESULT_TTL := 120

  /** A response body: empty, not parseable, or parsed. */
  datatype Raw<+P> = Blank | Garbled(tag: int) | Parsed(payload: P)

  /** What a fetch returns. */
  datatype Reply<+P> = Answer(raw: Raw<P>) | Failed(error: int)

  datatype Entry<+P> = Entry(raw: Raw<P>, expires: int)
  type Store<K, P> = map<K, Entry<P>>

  /**
   * How the engine's cache behaves during one request: whether the single and the batch
   * lookup fail, which entries the batch reply lacks or cannot decompress, which puts are
   * dropped (too large, or rejected; the caller ignores that).
   */
  datatype Faults<!K> = Faults(getFails: bool, batchFails: bool, lost: set<K>, refused: set<K>)

  function NoFaults<K>(): Faults<K> {
    Faults(false, false, {}, {})
  }

  /** A batch lookup of no keys does not reach the cache, so it cannot fail. */
  predicate BatchFails<K>(faults: Faults<K>, ks: seq<K>) {
    faults.batchFails && |ks| > 0
  }

  /** The keys of a request: the full result, and the chunks unless chunking is bypassed. */
  datatype Plan<+K> = Plan(full: K, bypass: bool, chunks: seq<K>)

  /**
   * One cached query function: `A` are its requests, `K` the cache keys, `P` the parsed
   * payloads. `direct` and `chunk` give the backend's reply at a time, `finish` merges the
   * chunk payloads, `ttl` is the lifetime of a chunk stored at a time.
   */
  datatype System<!A, !K, !P> = System(
    legal: A -> bool,
    isFull: K -> bool,
    plan: A -> Plan<K>,
    direct: (A, int) -> Reply<P>,
    chunk: (K, int) -> Reply<P>,
    finish: (A, seq<P>) -> P,
    ttl: (K, int) -> int)

  predicate Usable<P>(r: Reply<P>) {
    r.Answer? && r.raw.Parsed?
  }

  /** The entry found by a single lookup; an empty value counts as a miss. */
  predicate Live<K, P>(st: Store<K, P>, now: int, k: K) {
    k in st && now < st[k].expires && !st[k].raw.Blank?
  }

  /** A chunk the batch lookup yields and that parses. */
  predicate ChunkHit<K, P>(st: Store<K, P>, now: int, faults: Faults<K>, k: K) {
    Live(st, now, k) && k !in faults.lost && st[k].raw.Parsed?
  }

  /** The payload of a chunk: cached, or fetched now. */
  function SlotOf<K, P>(st: Store<K, P>, now: int, faults: Faults<K>, k: K, reply: Reply<P>): Option<P> {
    if ChunkHit(st, now, faults, k) then Some(st[k].raw.payload)
    else if Usable(reply) then Some(reply.raw.payload)
    else None
  }

  function Put<K, P>(st: Store<K, P>, faults: Faults<K>, k: K, e: Entry<P>): Store<K, P> {
    if k in faults.refused then st else st[k := e]
  }

  /** Whether chunk `k` is fetched now and its reply stored. */
  predicate Stores<K, P>(st: Store<K, P>, now: int, faults: Faults<K>, k: K, reply: Reply<P>) {
    !ChunkHit(st, now, faults, k) && Usable(reply) && k !in faults.refused
  }

  /** The store after the missing chunks were fetched; failed fetches do not hinder the others. */
  ghost function AfterFetch<K, P>(st: Store<K, P>, now: int, faults: Faults<K>, ks: seq<K>, reply: K -> Reply<P>,
                                  ttl: K -> int): Store<K, P>
  {
    st + map k | k in ks && Stores(st, now, faults, k, reply(k)) :: Entry(reply(k).raw, now + ttl(k))
  }

  predicate AllSlots<K, P>(st: Store<K, P>, now: int, faults: Faults<K>, ks: seq<K>, reply: K -> Reply<P>) {
    forall i :: 0 <= i < |ks| ==> SlotOf(st, now, faults, ks[i], reply(ks[i])).Some?
  }

  function SlotValues<K, P>(st: Store<K, P>, now: int, faults: Faults<K>, ks: seq<K>, reply: K -> Reply<P>): (r: seq<P>)
    requires AllSlots(st, now, faults, ks, reply)
    ensures |r| == |ks|
    ensures forall i :: 0 <= i < |ks| ==> r[i] == SlotOf(st, now, faults, ks[i], reply(ks[i])).value
  {
    seq(|ks|, i requires 0 <= i < |ks| => SlotOf(st, now, faults, ks[i], reply(ks[i])).value)
  }

  ghost function ReplyAt<A, K, P>(sys: System<A, K, P>, now: int): K -> Reply<P> {
    k => sys.chunk(k, now)
  }

  ghost function TtlAt<A, K, P>(sys: System<A, K, P>, now: int): K -> int {
    k => sys.ttl(k, now)
  }

  /** The chunked part of a request, once its full result is not in the store. */
  ghost function FromChunks<A, K, P>(sys: System<A, K, P>, st: Store<K, P>, now: int, faults: Faults<K>,
                                     a: A): (Reply<P>, Store<K, P>)
  {
    var p := sys.plan(a);
    var direct := sys.direct(a, now);
    if BatchFails(faults, p.chunks) then (direct, st)
    else
      var reply := ReplyAt(sys, now);
      var fetched := AfterFetch(st, now, faults, p.chunks, reply, TtlAt(sys, now));
      if AllSlots(st, now, faults, p.chunks, reply) then
        var raw := Parsed(sys.finish(a, SlotValues(st, now, faults, p.chunks, reply)));
        (Answer(raw), Put(fetched, faults, p.full, Entry(raw, now + FULL_RESULT_TTL)))
      else (direct, fetched)
  }

  /** A request whose full result is not in the store. */
  ghost function Missed<A, K, P>(sys: System<A, K, P>, st: Store<K, P>, now: int, faults: Faults<K>,
                                 a: A): (Reply<P>, Store<K, P>)
  {
    var p := sys.plan(a);
    var direct := sys.direct(a, now);
    if p.bypass then
      (direct, if direct.Answer? then Put(st, faults, p.full, Entry(direct.raw, now + FULL_RESULT_TTL)) else st)
    else FromChunks(sys, st, now, faults, a)
  }

  /** One request: its answer and the store it leaves. */
  ghost function Serve<A, K, P>(sys: System<A, K, P>, st: Store<K, P>, now: int, faults: Faults<K>,
                                a: A): (Reply<P>, Store<K, P>)
  {
    if faults.getFails then (sys.direct(a, now), st)
    else if Live(st, now, sys.plan(a).full) then (Answer(st[sys.plan(a).full].raw), st)
    else Missed(sys, st, now, faults, a)
  }

  /** Reply and lifetime functions that agree on every key lead to the same gathering. */
  lemma SameGathering<K(!new), P(!new)>(st: Store<K, P>, now: int, faults: Faults<K>, ks: seq<K>, reply: K -> Reply<P>,
                                        reply': K -> Reply<P>, ttl: K -> int, ttl': K -> int)
    requires forall k :: reply(k) == reply'(k)
    requires forall k :: ttl(k) == ttl'(k)
    ensures AfterFetch(st, now, faults, ks, reply, ttl) == AfterFetch(st, now, faults, ks, reply', ttl')
    ensures AllSlots(st, now, faults, ks, reply) <==> AllSlots(st, now, faults, ks, reply')
    ensures AllSlots(st, now, faults, ks, reply) ==>
      SlotValues(st, now, faults, ks, reply) == SlotValues(st, now, faults, ks, reply')
  {
    var fetched, fetched' := AfterFetch(st, now, faults, ks, reply, ttl), AfterFetch(st, now, faults, ks, reply', ttl');
    forall k ensures (k in fetched <==> k in fetched') && (k in fetched' ==> fetched[k] == fetched'[k]) {
      AfterFetchAt(st, now, faults, ks, reply, ttl, k);
      AfterFetchAt(st, now, faults, ks, reply', ttl', k);
    }
  }

  lemma AfterFetchAt<K, P>(st: Store<K, P>, now: int, faults: Faults<K>, ks: seq<K>, reply: K -> Reply<P>,
                           ttl: K -> int, k: K)
    ensures var want := AfterFetch(st, now, faults, ks, reply, ttl);
      if k in ks && Stores(st, now, faults, k, reply(k))
      then k in want && want[k] == Entry(reply(k).raw, now + ttl(k))
      else (k in want <==> k in st) && (k in st ==> want[k] == st[k])
  {
  }

  // ---- when a system is fit for caching -------------------------------------------

  /** Requests that share a full key share everything the cached result depends on. */
  ghost predicate Coherent<A(!new), K, P(!new)>(sys: System<A, K, P>) {
    forall a, b :: sys.legal(a) && sys.legal(b) && sys.plan(a).full == sys.plan(b).full ==>
      Agree(sys, a, b)
  }

  ghost predicate Agree<A, K, P(!new)>(sys: System<A, K, P>, a: A, b: A) {
    sys.plan(a) == sys.plan(b) && SameFinish(sys, a, b)
  }

  ghost predicate SameFinish<A, K, P(!new)>(sys: System<A, K, P>, a: A, b: A) {
    !sys.plan(a).bypass ==> forall ps :: |ps| == |sys.plan(a).chunks| ==> sys.finish(a, ps) == sys.finish(b, ps)
  }

  /** Full keys and chunk keys are told apart, chunks are distinct, lifetimes are positive. */
  ghost predicate WellKeyed<A(!new), K(!new), P>(sys: System<A, K, P>) {
    && (forall a :: sys.legal(a) ==>
          sys.isFull(sys.plan(a).full) && NoDup(sys.plan(a).chunks)
          && forall k :: k in sys.plan(a).chunks ==> !sys.isFull(k))
    && (forall k, t :: sys.ttl(k, t) > 0)
  }

  ghost predicate Fit<A(!new), K(!new), P(!new)>(sys: System<A, K, P>) {
    Coherent(sys) && WellKeyed(sys)
  }

  // ---- runs -------------------------------------------------------------------------------

  /** What can happen to the cache: a request, entries dropped early, time passing. */
  datatype Event<!A, !K> = Request(a: A, faults: Faults<K>) | Evict(keys: set<K>) | Tick(seconds: nat)

  datatype World<!K, !P> = World(store: Store<K, P>, now: int)

  ghost function Happen<A, K, P>(sys: System<A, K, P>, v: World<K, P>, e: Event<A, K>): World<K, P> {
    match e
    case Request(a, faults) => World(Serve(sys, v.store, v.now, faults, a).1, v.now)
    case Evict(keys) => World(v.store - keys, v.now)
    case Tick(seconds) => World(v.store, v.now + seconds)
  }

  ghost function After<A, K, P>(sys: System<A, K, P>, w: World<K, P>, events: seq<Event<A, K>>): World<K, P> {
    if events == [] then w else Happen(sys, After(sys, w, events[..|events| - 1]), events[|events| - 1])
  }

  ghost predicate LegalRun<A, K, P>(sys: System<A, K, P>, events: seq<Event<A, K>>) {
    forall i :: 0 <= i < |events| && events[i].Request? ==> sys.legal(events[i].a)
  }

  ghost function Run<A, K, P>(sys: System<A, K, P>, start: int, events: seq<Event<A, K>>): World<K, P> {
    After(sys, World(map[], start), events)
  }

  lemma RunSnoc<A, K, P>(sys: System<A, K, P>, start: int, events: seq<Event<A, K>>, e: Event<A, K>)
    ensures Run(sys, start, events + [e]) == Happen(sys, Run(sys, start, events), e)
  {
    assert (events + [e])[..|events|] == events;
  }

  lemma RunOfOne<A, K, P>(sys: System<A, K, P>, start: int, a: A, faults: Faults<K>)
    ensures Run(sys, start, [Request(a, faults)]) == World(Serve(sys, map[], start, faults, a).1, start)
  {
    var none: seq<Event<A, K>> := [];
    assert none + [Request(a, faults)] == [Request(a, faults)];
    RunSnoc(sys, start, none, Request(a, faults));
  }

  // ---- what was asked and fetched in a run ----------------------------------------------------

  /** Whether a request gets as far as its chunks. */
  ghost predicate Gathers<A, K, P>(sys: System<A, K, P>, st: Store<K, P>, now: int, faults: Faults<K>, a: A) {
    var p := sys.plan(a);
    !faults.getFails && !Live(st, now, p.full) && !p.bypass && !BatchFails(faults, p.chunks)
  }

  /** Whether a request fetches chunk `k`. */
  ghost predicate Fetches<A, K, P>(sys: System<A, K, P>, st: Store<K, P>, now: int, faults: Faults<K>, a: A, k: K) {
    Gathers(sys, st, now, faults, a) && k in sys.plan(a).chunks && !ChunkHit(st, now, faults, k)
  }

  /** Event `i` of the run is a request that fetches chunk `k` at time `t`. */
  ghost predicate FetchesAt<A, K, P>(sys: System<A, K, P>, start: int, events: seq<Event<A, K>>, i: int, k: K, t: int) {
    0 <= i < |events| && events[i].Request? &&
    var v := Run(sys, start, events[..i]);
    v.now == t && Fetches(sys, v.store, v.now, events[i].faults, events[i].a, k)
  }

  ghost predicate FetchedIn<A, K, P>(sys: System<A, K, P>, start: int, events: seq<Event<A, K>>, k: K, t: int) {
    exists i :: FetchesAt(sys, start, events, i, k, t)
  }

  /** Event `i` of the run is the request `a`, made at time `t`. */
  ghost predicate AsksAt<A(!new), K, P>(sys: System<A, K, P>, start: int, events: seq<Event<A, K>>, i: int, a: A,
                                        t: int)
  {
    0 <= i < |events| && events[i].Request? && events[i].a == a && Run(sys, start, events[..i]).now == t
  }

  ghost predicate AskedIn<A(!new), K, P>(sys: System<A, K, P>, start: int, events: seq<Event<A, K>>, a: A, t: int) {
    exists i :: AsksAt(sys, start, events, i, a, t)
  }

  lemma FetchedStays<A, K, P>(sys: System<A, K, P>, start: int, events: seq<Event<A, K>>, e: Event<A, K>, k: K, t: int)
    requires FetchedIn(sys, start, events, k, t)
    ensures FetchedIn(sys, start, events + [e], k, t)
  {
    var i :| FetchesAt(sys, start, events, i, k, t);
    assert (events + [e])[..i] == events[..i];
    assert FetchesAt(sys, start, events + [e], i, k, t);
  }

  lemma AskedStays<A(!new), K, P>(sys: System<A, K, P>, start: int, events: seq<Event<A, K>>, e: Event<A, K>, a: A,
                                  t: int)
    requires AskedIn(sys, start, events, a, t)
    ensures AskedIn(sys, start, events + [e], a, t)
  {
    var i :| AsksAt(sys, start, events, i, a, t);
    assert (events + [e])[..i] == events[..i];
    assert AsksAt(sys, start, events + [e], i, a, t);
  }

  lemma FetchedNow<A, K, P>(sys: System<A, K, P>, start: int, events: seq<Event<A, K>>, a: A, faults: Faults<K>, k: K)
    requires var v := Run(sys, start, events); Fetches(sys, v.store, v.now, faults, a, k)
    ensures FetchedIn(sys, start, events + [Request(a, faults)], k, Run(sys, start, events).now)
  {
    var all := events + [Request(a, faults)];
    assert all[..|events|] == events;
    assert FetchesAt(sys, start, all, |events|, k, Run(sys, start, events).now);
  }

  lemma AskedNow<A(!new), K, P>(sys: System<A, K, P>, start: int, events: seq<Event<A, K>>, a: A, faults: Faults<K>)
    ensures AskedIn(sys, start, events + [Request(a, faults)], a, Run(sys, start, events).now)
  {
    var all := events + [Request(a, faults)];
    assert all[..|events|] == events;
    assert AsksAt(sys, start, all, |events|, a, Run(sys, start, events).now);
  }

  // ---- the store invariant ----------------------------------------------------------

  /** The backend's reply for chunk `k` at time `t` parses, as the raw value `raw`. */
  ghost predicate RepliedAt<A, K, P>(sys: System<A, K, P>, k: K, t: int, raw: Raw<P>) {
    raw.Parsed? && sys.chunk(k, t) == Answer(raw)
  }

  /** Chunk `k` was fetched at time `t` in the run, with this reply. */
  ghost predicate FetchedAs<A, K, P>(sys: System<A, K, P>, start: int, events: seq<Event<A, K>>, k: K, t: int,
                                     raw: Raw<P>)
  {
    RepliedAt(sys, k, t, raw) && FetchedIn(sys, start, events, k, t)
  }

  ghost predicate ChunkEntryFrom<A, K, P>(sys: System<A, K, P>, start: int, events: seq<Event<A, K>>, k: K, e: Entry<P>,
                                          now: int, t: int)
  {
    t <= now && e.expires == t + sys.ttl(k, t) && FetchedAs(sys, start, events, k, t, e.raw)
  }

  /** A chunk: its own fetch, made in the run, with the lifetime it had then. */
  ghost predicate ChunkEntry<A, K, P>(sys: System<A, K, P>, start: int, events: seq<Event<A, K>>, k: K, e: Entry<P>,
                                      now: int)
  {
    !sys.isFull(k) && exists t :: ChunkEntryFrom(sys, start, events, k, e, now, t)
  }

  /** `times[i]` is when chunk `i` was fetched; all those chunks were usable at time `w`. */
  ghost predicate ChunksFrom<A, K, P>(sys: System<A, K, P>, start: int, events: seq<Event<A, K>>, ks: seq<K>,
                                      times: seq<int>, ps: seq<P>, w: int)
  {
    && |times| == |ks| == |ps|
    && forall i :: 0 <= i < |ks| ==>
         times[i] <= w < times[i] + sys.ttl(ks[i], times[i]) &&
           FetchedAs(sys, start, events, ks[i], times[i], Parsed(ps[i]))
  }

  ghost predicate MergedFor<A, K, P>(sys: System<A, K, P>, start: int, events: seq<Event<A, K>>, k: K, e: Entry<P>,
                                     a: A, times: seq<int>, ps: seq<P>)
  {
    && sys.legal(a) && sys.plan(a).full == k && !sys.plan(a).bypass
    && ChunksFrom(sys, start, events, sys.plan(a).chunks, times, ps, e.expires - FULL_RESULT_TTL)
    && e.raw == Parsed(sys.finish(a, ps))
  }

  /** A full result: the merge of all its chunks as they were usable when it was written. */
  ghost predicate FullEntry<A(!new), K, P(!new)>(sys: System<A, K, P>, start: int, events: seq<Event<A, K>>, k: K,
                                                 e: Entry<P>, now: int)
  {
    sys.isFull(k) && e.expires - FULL_RESULT_TTL <= now &&
    exists a, times, ps :: MergedFor(sys, start, events, k, e, a, times, ps)
  }

  ghost predicate BypassedFor<A(!new), K, P>(sys: System<A, K, P>, start: int, events: seq<Event<A, K>>, k: K,
                                             e: Entry<P>, a: A)
  {
    && sys.legal(a) && sys.plan(a).full == k && sys.plan(a).bypass
    && AskedIn(sys, start, events, a, e.expires - FULL_RESULT_TTL)
    && sys.direct(a, e.expires - FULL_RESULT_TTL) == Answer(e.raw)
  }

  /** A bypassed result: the direct reply to a request of the run with this key. */
  ghost predicate BypassEntry<A(!new), K, P>(sys: System<A, K, P>, start: int, events: seq<Event<A, K>>, k: K,
                                             e: Entry<P>, now: int)
  {
    sys.isFull(k) && e.expires - FULL_RESULT_TTL <= now && exists a :: BypassedFor(sys, start, events, k, e, a)
  }

  ghost predicate Justified<A(!new), K, P(!new)>(sys: System<A, K, P>, start: int, events: seq<Event<A, K>>, k: K,
                                                 e: Entry<P>, now: int)
  {
    || ChunkEntry(sys, start, events, k, e, now)
    || FullEntry(sys, start, events, k, e, now)
    || BypassEntry(sys, start, events, k, e, now)
  }

  ghost predicate StoreInv<A(!new), K, P(!new)>(sys: System<A, K, P>, start: int, events: seq<Event<A, K>>,
                                                st: Store<K, P>, now: int)
  {
    forall k :: k in st ==> Justified(sys, start, events, k, st[k], now)
  }

  // ---- every event keeps the invariant -------------------------------------------------

  lemma ChunksStay<A, K, P>(sys: System<A, K, P>, start: int, events: seq<Event<A, K>>, x: Event<A, K>, ks: seq<K>,
                            times: seq<int>, ps: seq<P>, w: int)
    requires ChunksFrom(sys, start, events, ks, times, ps, w)
    ensures ChunksFrom(sys, start, events + [x], ks, times, ps, w)
  {
    forall i | 0 <= i < |ks| ensures FetchedAs(sys, start, events + [x], ks[i], times[i], Parsed(ps[i])) {
      assert FetchedAs(sys, start, events, ks[i], times[i], Parsed(ps[i]));
      FetchedStays(sys, start, events, x, ks[i], times[i]);
    }
  }

  /** An entry stays justified as events are added and time passes. */
  lemma StaysJustified<A(!new), K, P(!new)>(sys: System<A, K, P>, start: int, events: seq<Event<A, K>>, x: Event<A, K>,
                                            k: K, e: Entry<P>, now: int, later: int)
    requires Justified(sys, start, events, k, e, now) && now <= later
    ensures Justified(sys, start, events + [x], k, e, later)
  {
    if ChunkEntry(sys, start, events, k, e, now) {
      var t :| ChunkEntryFrom(sys, start, events, k, e, now, t);
      FetchedStays(sys, start, events, x, k, t);
      assert ChunkEntryFrom(sys, start, events + [x], k, e, later, t);
    } else if FullEntry(sys, start, events, k, e, now) {
      var a, times, ps :| MergedFor(sys, start, events, k, e, a, times, ps);
      ChunksStay(sys, start, events, x, sys.plan(a).chunks, times, ps, e.expires - FULL_RESULT_TTL);
      assert MergedFor(sys, start, events + [x], k, e, a, times, ps);
    } else {
      var a :| BypassedFor(sys, start, events, k, e, a);
      AskedStays(sys, start, events, x, a, e.expires - FULL_RESULT_TTL);
      assert BypassedFor(sys, start, events + [x], k, e, a);
    }
  }

  lemma StoreStaysJustified<A(!new), K(!new), P(!new)>(sys: System<A, K, P>, start: int, events: seq<Event<A, K>>,
                                                       x: Event<A, K>, st: Store<K, P>, now: int, later: int)
    requires StoreInv(sys, start, events, st, now) && now <= later
    ensures StoreInv(sys, start, events + [x], st, later)
  {
    forall k | k in st ensures Justified(sys, start, events + [x], k, st[k], later) {
      StaysJustified(sys, start, events, x, k, st[k], now, later);
    }
  }

  /** When the payload of a slot was fetched: some time ago, or by the present request. */
  lemma SlotTime<A(!new), K(!new), P(!new)>(sys: System<A, K, P>, start: int, events: seq<Event<A, K>>, a: A,
                                            faults: Faults<K>, k: K)
    returns (t: int)
    requires WellKeyed(sys) && !sys.isFull(k) && k in sys.plan(a).chunks
    requires var w := Run(sys, start, events);
      && StoreInv(sys, start, events, w.store, w.now) && Gathers(sys, w.store, w.now, faults, a)
      && SlotOf(w.store, w.now, faults, k, sys.chunk(k, w.now)).Some?
    ensures var w := Run(sys, start, events);
      && t <= w.now < t + sys.ttl(k, t)
      && FetchedAs(sys, start, events + [Request(a, faults)], k, t,
           Parsed(SlotOf(w.store, w.now, faults, k, sys.chunk(k, w.now)).value))
  {
    var w := Run(sys, start, events);
    if ChunkHit(w.store, w.now, faults, k) {
      assert Justified(sys, start, events, k, w.store[k], w.now);
      t :| ChunkEntryFrom(sys, start, events, k, w.store[k], w.now, t);
      FetchedStays(sys, start, events, Request(a, faults), k, t);
    } else {
      t := w.now;
      FetchedNow(sys, start, events, a, faults, k);
    }
  }

  /** The chunk payloads a request gathers were all fetched within their lifetimes. */
  lemma GatheredFrom<A(!new), K(!new), P(!new)>(sys: System<A, K, P>, start: int, events: seq<Event<A, K>>, a: A,
                                                faults: Faults<K>)
    returns (times: seq<int>)
    requires WellKeyed(sys) && sys.legal(a)
    requires var w := Run(sys, start, events);
      && StoreInv(sys, start, events, w.store, w.now) && Gathers(sys, w.store, w.now, faults, a)
      && AllSlots(w.store, w.now, faults, sys.plan(a).chunks, ReplyAt(sys, w.now))
    ensures var w := Run(sys, start, events);
      var ks := sys.plan(a).chunks;
      ChunksFrom(sys, start, events + [Request(a, faults)], ks, times,
                 SlotValues(w.store, w.now, faults, ks, ReplyAt(sys, w.now)), w.now)
  {
    var w := Run(sys, start, events);
    var ks := sys.plan(a).chunks;
    var ps := SlotValues(w.store, w.now, faults, ks, ReplyAt(sys, w.now));
    times := [];
    while |times| < |ks|
      invariant |times| <= |ks|
      invariant forall i :: 0 <= i < |times| ==>
        times[i] <= w.now < times[i] + sys.ttl(ks[i], times[i])
        && FetchedAs(sys, start, events + [Request(a, faults)], ks[i], times[i], Parsed(ps[i]))
    {
      var k := ks[|times|];
      assert k in ks;
      var t := SlotTime(sys, start, events, a, faults, k);
      times := times + [t];
    }
  }

  /** What the present request fetches is justified by the present request. */
  lemma FetchKeepsInv<A(!new), K(!new), P(!new)>(sys: System<A, K, P>, start: int, events: seq<Event<A, K>>, a: A,
                                                 faults: Faults<K>)
    requires WellKeyed(sys) && sys.legal(a)
    requires var w := Run(sys, start, events);
      StoreInv(sys, start, events, w.store, w.now) && Gathers(sys, w.store, w.now, faults, a)
    ensures var w := Run(sys, start, events);
      StoreInv(sys, start, events + [Request(a, faults)],
               AfterFetch(w.store, w.now, faults, sys.plan(a).chunks, ReplyAt(sys, w.now), TtlAt(sys, w.now)), w.now)
  {
    var w := Run(sys, start, events);
    var ks := sys.plan(a).chunks;
    var all := events + [Request(a, faults)];
    var r := AfterFetch(w.store, w.now, faults, ks, ReplyAt(sys, w.now), TtlAt(sys, w.now));
    forall k | k in r ensures Justified(sys, start, all, k, r[k], w.now) {
      AfterFetchAt(w.store, w.now, faults, ks, ReplyAt(sys, w.now), TtlAt(sys, w.now), k);
      if k in ks && Stores(w.store, w.now, faults, k, sys.chunk(k, w.now)) {
        FetchedNow(sys, start, events, a, faults, k);
        assert ChunkEntryFrom(sys, start, all, k, r[k], w.now, w.now);
      } else {
        StaysJustified(sys, start, events, Request(a, faults), k, w.store[k], w.now, w.now);
      }
    }
  }

  lemma PutKeepsInv<A(!new), K(!new), P(!new)>(sys: System<A, K, P>, start: int, events: seq<Event<A, K>>,
                                               st: Store<K, P>, now: int, faults: Faults<K>, k: K, e: Entry<P>)
    requires StoreInv(sys, start, events, st, now) && Justified(sys, start, events, k, e, now)
    ensures StoreInv(sys, start, events, Put(st, faults, k, e), now)
  {
  }

  /** A request that gathers keeps the invariant. */
  lemma GatherKeepsInv<A(!new), K(!new), P(!new)>(sys: System<A, K, P>, start: int, events: seq<Event<A, K>>, a: A,
                                                  faults: Faults<K>)
    requires WellKeyed(sys) && sys.legal(a)
    requires var w := Run(sys, start, events);
      StoreInv(sys, start, events, w.store, w.now) && Gathers(sys, w.store, w.now, faults, a)
    ensures var w := Run(sys, start, events);
      StoreInv(sys, start, events + [Request(a, faults)], FromChunks(sys, w.store, w.now, faults, a).1, w.now)
  {
    var w := Run(sys, start, events);
    var p, reply := sys.plan(a), ReplyAt(sys, w.now);
    var all := events + [Request(a, faults)];
    FetchKeepsInv(sys, start, events, a, faults);
    if AllSlots(w.store, w.now, faults, p.chunks, reply) {
      var times := GatheredFrom(sys, start, events, a, faults);
      var ps := SlotValues(w.store, w.now, faults, p.chunks, reply);
      var e := Entry(Parsed(sys.finish(a, ps)), w.now + FULL_RESULT_TTL);
      assert MergedFor(sys, start, all, p.full, e, a, times, ps);
      assert FullEntry(sys, start, all, p.full, e, w.now);
      var fetched := AfterFetch(w.store, w.now, faults, p.chunks, reply, TtlAt(sys, w.now));
      PutKeepsInv(sys, start, all, fetched, w.now, faults, p.full, e);
    }
  }

  /** A bypassed request keeps the invariant. */
  lemma BypassKeepsInv<A(!new), K(!new), P(!new)>(sys: System<A, K, P>, start: int, events: seq<Event<A, K>>, a: A,
                                                  faults: Faults<K>)
    requires WellKeyed(sys) && sys.legal(a) && sys.plan(a).bypass
    requires var w := Run(sys, start, events);
      StoreInv(sys, start, events, w.store, w.now) && sys.direct(a, w.now).Answer?
    ensures var w := Run(sys, start, events);
      StoreInv(sys, start, events + [Request(a, faults)],
               Put(w.store, faults, sys.plan(a).full, Entry(sys.direct(a, w.now).raw, w.now + FULL_RESULT_TTL)), w.now)
  {
    var w := Run(sys, start, events);
    var all := events + [Request(a, faults)];
    var k, e := sys.plan(a).full, Entry(sys.direct(a, w.now).raw, w.now + FULL_RESULT_TTL);
    StoreStaysJustified(sys, start, events, Request(a, faults), w.store, w.now, w.now);
    AskedNow(sys, start, events, a, faults);
    assert BypassedFor(sys, start, all, k, e, a);
    PutKeepsInv(sys, start, all, w.store, w.now, faults, k, e);
  }

  /** Every request keeps the store invariant. */
  lemma ServeKeepsInv<A(!new), K(!new), P(!new)>(sys: System<A, K, P>, start: int, events: seq<Event<A, K>>, a: A,
                                                 faults: Faults<K>)
    requires WellKeyed(sys) && sys.legal(a)
    requires var w := Run(sys, start, events); StoreInv(sys, start, events, w.store, w.now)
    ensures var w := Run(sys, start, events);
      StoreInv(sys, start, events + [Request(a, faults)], Serve(sys, w.store, w.now, faults, a).1, w.now)
  {
    var w := Run(sys, start, events);
    if Gathers(sys, w.store, w.now, faults, a) {
      GatherKeepsInv(sys, start, events, a, faults);
    } else {
      StoreStaysJustified(sys, start, events, Request(a, faults), w.store, w.now, w.now);
      if sys.plan(a).bypass && sys.direct(a, w.now).Answer? {
        BypassKeepsInv(sys, start, events, a, faults);
      }
    }
  }

  /** The store after a run is justified by the run. */
  ghost predicate RunInv<A(!new), K, P(!new)>(sys: System<A, K, P>, start: int, events: seq<Event<A, K>>) {
    var w := Run(sys, start, events);
    StoreInv(sys, start, events, w.store, w.now)
  }

  lemma RequestKeepsInv<A(!new), K(!new), P(!new)>(sys: System<A, K, P>, start: int, events: seq<Event<A, K>>, a: A,
                                                   faults: Faults<K>)
    requires WellKeyed(sys) && sys.legal(a) && RunInv(sys, start, events)
    ensures RunInv(sys, start, events + [Request(a, faults)])
  {
    ServeKeepsInv(sys, start, events, a, faults);
    RunSnoc(sys, start, events, Request(a, faults));
  }

  lemma EvictKeepsInv<A(!new), K(!new), P(!new)>(sys: System<A, K, P>, start: int, events: seq<Event<A, K>>,
                                                 keys: set<K>)
    requires RunInv(sys, start, events)
    ensures RunInv(sys, start, events + [Evict(keys)])
  {
    RunSnoc(sys, start, events, Evict(keys));
    var w := Run(sys, start, events);
    StoreStaysJustified(sys, start, events, Evict(keys), w.store, w.now, w.now);
  }

  lemma TickKeepsInv<A(!new), K(!new), P(!new)>(sys: System<A, K, P>, start: int, events: seq<Event<A, K>>,
                                                seconds: nat)
    requires RunInv(sys, start, events)
    ensures RunInv(sys, start, events + [Tick(seconds)])
  {
    RunSnoc(sys, start, events, Tick(seconds));
    var w, v := Run(sys, start, events), Run(sys, start, events + [Tick(seconds)]);
    assert v.store == w.store && v.now == w.now + seconds;
    StoreStaysJustified(sys, start, events, Tick(seconds), w.store, w.now, v.now);
  }

  lemma EventKeepsInv<A(!new), K(!new), P(!new)>(sys: System<A, K, P>, start: int, events: seq<Event<A, K>>,
                                                 e: Event<A, K>)
    requires WellKeyed(sys) && RunInv(sys, start, events) && (e.Request? ==> sys.legal(e.a))
    ensures RunInv(sys, start, events + [e])
  {
    match e {
      case Request(a, faults) => RequestKeepsInv(sys, start, events, a, faults);
      case Evict(keys) => EvictKeepsInv(sys, start, events, keys);
      case Tick(seconds) => TickKeepsInv(sys, start, events, seconds);
    }
  }

  /** The store invariant holds at every point of every run from an empty store. */
  lemma {:induction false} RunKeepsInv<A(!new), K(!new), P(!new)>(sys: System<A, K, P>, start: int,
                                                                  events: seq<Event<A, K>>)
    requires WellKeyed(sys) && LegalRun(sys, events)
    ensures RunInv(sys, start, events)
  {
    if events != [] {
      var before, e := events[..|events| - 1], events[|events| - 1];
      RunKeepsInv(sys, start, before);
      assert events == before + [e];
      EventKeepsInv(sys, start, before, e);
    }
  }

  // ---- freshness ------------------------------------------------------------------------------

  /**
   * The answer is the merge of chunk replies, each fetched by some request of the run and younger
   * than the full lifetime plus its own.
   */
  ghost predicate FreshMerge<A, K, P>(sys: System<A, K, P>, start: int, events: seq<Event<A, K>>, a: A,
                                      answer: Reply<P>, now: int, times: seq<int>, ps: seq<P>)
  {
    && |times| == |sys.plan(a).chunks| == |ps|
    && answer == Answer(Parsed(sys.finish(a, ps)))
    && forall i :: 0 <= i < |times| ==>
         times[i] <= now < times[i] + sys.ttl(sys.plan(a).chunks[i], times[i]) + 120
         && FetchedAs(sys, start, events, sys.plan(a).chunks[i], times[i], Parsed(ps[i]))
  }

  /** When a chunked request falls back to the direct reply. */
  ghost predicate FallsBack<A, K, P>(sys: System<A, K, P>, st: Store<K, P>, now: int, faults: Faults<K>, a: A) {
    var p := sys.plan(a);
    faults.getFails
    || (!Live(st, now, p.full) &&
         (BatchFails(faults, p.chunks) || !AllSlots(st, now, faults, p.chunks, ReplyAt(sys, now))))
  }

  /**
   * Over every run, a chunked request is answered by the merge of chunk replies that requests of
   * the run, itself included, fetched less than 120 seconds plus their own lifetime ago,
   * unless it falls back to the direct reply: the two lifetimes add up once and never accumulate.
   */
  lemma AnswersAreFresh<A(!new), K(!new), P(!new)>(sys: System<A, K, P>, start: int, events: seq<Event<A, K>>, a: A,
                                                   faults: Faults<K>)
    returns (times: seq<int>, ps: seq<P>)
    requires Fit(sys) && LegalRun(sys, events) && sys.legal(a) && !sys.plan(a).bypass
    ensures var w := Run(sys, start, events);
      var answer := Serve(sys, w.store, w.now, faults, a).0;
      if FallsBack(sys, w.store, w.now, faults, a) then answer == sys.direct(a, w.now)
      else FreshMerge(sys, start, events + [Request(a, faults)], a, answer, w.now, times, ps)
  {
    RunKeepsInv(sys, start, events);
    var w := Run(sys, start, events);
    var p := sys.plan(a);
    times, ps := [], [];
    if !FallsBack(sys, w.store, w.now, faults, a) {
      if Live(w.store, w.now, p.full) {
        times, ps := LiveFullIsFresh(sys, start, events, a, faults);
      } else {
        times := GatheredFrom(sys, start, events, a, faults);
        ps := SlotValues(w.store, w.now, faults, p.chunks, ReplyAt(sys, w.now));
      }
    }
  }

  lemma LiveFullIsFresh<A(!new), K(!new), P(!new)>(sys: System<A, K, P>, start: int, events: seq<Event<A, K>>, a: A,
                                                   faults: Faults<K>)
    returns (times: seq<int>, ps: seq<P>)
    requires Fit(sys) && sys.legal(a) && !sys.plan(a).bypass
    requires var w := Run(sys, start, events);
      StoreInv(sys, start, events, w.store, w.now) && Live(w.store, w.now, sys.plan(a).full)
    ensures var w := Run(sys, start, events);
      FreshMerge(sys, start, events + [Request(a, faults)], a, Answer(w.store[sys.plan(a).full].raw), w.now, times, ps)
  {
    var w := Run(sys, start, events);
    var k := sys.plan(a).full;
    var e := w.store[k];
    assert Justified(sys, start, events, k, e, w.now);
    NotBypassed(sys, start, events, a, e, w.now);
    var b;
    b, times, ps :| MergedFor(sys, start, events, k, e, b, times, ps);
    assert Agree(sys, a, b);
    ChunksStay(sys, start, events, Request(a, faults), sys.plan(a).chunks, times, ps, e.expires - FULL_RESULT_TTL);
  }

  /** The entry of a chunked request's full key is a merge. */
  lemma NotBypassed<A(!new), K(!new), P(!new)>(sys: System<A, K, P>, start: int, events: seq<Event<A, K>>, a: A,
                                               e: Entry<P>, now: int)
    requires Fit(sys) && sys.legal(a) && !sys.plan(a).bypass && Justified(sys, start, events, sys.plan(a).full, e, now)
    ensures FullEntry(sys, start, events, sys.plan(a).full, e, now)
  {
    var k := sys.plan(a).full;
    assert sys.isFull(k);
    forall b ensures !BypassedFor(sys, start, events, k, e, b) {
      if sys.legal(b) && sys.plan(b).full == k {
        assert Agree(sys, a, b);
      }
    }
  }

  /**
   * A bypassed request is answered by the direct reply to a request with the same key that was
   * asked in the run, or is being asked now; the reply is younger than the full lifetime.
   */
  lemma BypassAnswer<A(!new), K(!new), P(!new)>(sys: System<A, K, P>, start: int, events: seq<Event<A, K>>, a: A,
                                                faults: Faults<K>)
    returns (b: A, t: int)
    requires Fit(sys) && LegalRun(sys, events) && sys.legal(a) && sys.plan(a).bypass
    ensures var w := Run(sys, start, events);
      && ((b == a && t == w.now) || AskedIn(sys, start, events, b, t))
      && sys.legal(b) && sys.plan(b).full == sys.plan(a).full
      && t <= w.now < t + 120
      && Serve(sys, w.store, w.now, faults, a).0 == sys.direct(b, t)
  {
    RunKeepsInv(sys, start, events);
    var w := Run(sys, start, events);
    var k := sys.plan(a).full;
    BypassServed(sys, w.store, w.now, faults, a);
    b, t := a, w.now;
    if !faults.getFails && Live(w.store, w.now, k) {
      b := BypassedBy(sys, start, events, a);
      t := w.store[k].expires - FULL_RESULT_TTL;
    }
  }

  lemma BypassServed<A, K, P>(sys: System<A, K, P>, st: Store<K, P>, now: int, faults: Faults<K>, a: A)
    requires sys.plan(a).bypass
    ensures Serve(sys, st, now, faults, a).0 ==
      if !faults.getFails && Live(st, now, sys.plan(a).full) then Answer(st[sys.plan(a).full].raw)
      else sys.direct(a, now)
  {
  }

  /** The request whose reply a bypassed request finds stored. */
  lemma BypassedBy<A(!new), K(!new), P(!new)>(sys: System<A, K, P>, start: int, events: seq<Event<A, K>>, a: A)
    returns (b: A)
    requires Fit(sys) && sys.legal(a) && sys.plan(a).bypass && RunInv(sys, start, events)
    requires var w := Run(sys, start, events); Live(w.store, w.now, sys.plan(a).full)
    ensures var w, k := Run(sys, start, events), sys.plan(a).full;
      w.store[k].expires - FULL_RESULT_TTL <= w.now && BypassedFor(sys, start, events, k, w.store[k], b)
  {
    var w, k := Run(sys, start, events), sys.plan(a).full;
    var e := w.store[k];
    assert Justified(sys, start, events, k, e, w.now);
    NotMerged(sys, start, events, a, e, w.now);
    b :| BypassedFor(sys, start, events, k, e, b);
  }

  lemma NotMerged<A(!new), K(!new), P(!new)>(sys: System<A, K, P>, start: int, events: seq<Event<A, K>>, a: A,
                                             e: Entry<P>, now: int)
    requires Fit(sys) && sys.legal(a) && sys.plan(a).bypass && Justified(sys, start, events, sys.plan(a).full, e, now)
    ensures BypassEntry(sys, start, events, sys.plan(a).full, e, now)
  {
    var k := sys.plan(a).full;
    assert sys.isFull(k);
    forall b, times, ps ensures !MergedFor(sys, start, events, k, e, b, times, ps) {
      if sys.legal(b) && sys.plan(b).full == k {
        assert Agree(sys, a, b);
      }
    }
  }

  // ---- what is stored is used -------------------------------------------------------------

  /** No event of the run drops entry `k`. */
  predicate Spares<A, K>(events: seq<Event<A, K>>, k: K) {
    forall i :: 0 <= i < |events| && events[i].Evict? ==> k !in events[i].keys
  }

  /** No batch reply of the run lacks chunk `k`. */
  predicate NeverLost<A, K>(events: seq<Event<A, K>>, k: K) {
    forall i :: 0 <= i < |events| && events[i].Request? ==> k !in events[i].faults.lost
  }

  /** A request leaves a live full result, and a chunk that its batch reply does not lack, as they are. */
  lemma ServeSpares<A(!new), K(!new), P(!new)>(sys: System<A, K, P>, st: Store<K, P>, now: int, faults: Faults<K>, a: A,
                                               k: K)
    requires WellKeyed(sys) && sys.legal(a) && Live(st, now, k)
    requires sys.isFull(k) || ChunkHit(st, now, faults, k)
    ensures var after := Serve(sys, st, now, faults, a).1; k in after && after[k] == st[k]
  {
    var p := sys.plan(a);
    AfterFetchAt(st, now, faults, p.chunks, ReplyAt(sys, now), TtlAt(sys, now), k);
  }

  /** An entry outlives every run that neither drops nor loses it, until it expires. */
  lemma {:induction false} EntryStays<A(!new), K(!new), P(!new)>(sys: System<A, K, P>, w: World<K, P>,
                                                                 events: seq<Event<A, K>>, k: K)
    requires WellKeyed(sys) && LegalRun(sys, events) && Spares(events, k)
    requires Live(w.store, w.now, k) && After(sys, w, events).now < w.store[k].expires
    requires sys.isFull(k) || (w.store[k].raw.Parsed? && NeverLost(events, k))
    ensures var v := After(sys, w, events); w.now <= v.now && k in v.store && v.store[k] == w.store[k]
  {
    if events != [] {
      var before, e := events[..|events| - 1], events[|events| - 1];
      var v := After(sys, w, before);
      EntryStays(sys, w, before, k);
      match e
      case Request(a, faults) => ServeSpares(sys, v.store, v.now, faults, a, k);
      case Evict(keys) =>
      case Tick(seconds) =>
    }
  }

  /**
   * A full result is stored if the put is not refused and it was merged now, or fetched directly by
   * a bypassed request and is not blank.
   */
  ghost predicate Remembers<A, K, P>(sys: System<A, K, P>, st: Store<K, P>, now: int, faults: Faults<K>, a: A) {
    var p := sys.plan(a);
    && !Live(st, now, p.full) && p.full !in faults.refused
    && if p.bypass then !faults.getFails && sys.direct(a, now).Answer? && !sys.direct(a, now).raw.Blank?
       else !FallsBack(sys, st, now, faults, a)
  }

  /**
   * Whatever happens in between short of evicting it: for 120 seconds every request with the same
   * full key gets the same answer from the store alone, whatever the backend says by then.
   */
  lemma RepeatIsServed<A(!new), K(!new), P(!new)>(sys: System<A, K, P>, st: Store<K, P>, now: int, faults: Faults<K>,
                                                  a: A, events: seq<Event<A, K>>, b: A, faults': Faults<K>)
    requires WellKeyed(sys) && sys.legal(a) && Remembers(sys, st, now, faults, a)
    requires sys.plan(b).full == sys.plan(a).full && !faults'.getFails
    requires LegalRun(sys, events) && Spares(events, sys.plan(a).full)
    requires After(sys, World(Serve(sys, st, now, faults, a).1, now), events).now < now + 120
    ensures var (answer, after) := Serve(sys, st, now, faults, a);
      var v := After(sys, World(after, now), events);
      Serve(sys, v.store, v.now, faults', b) == (answer, v.store)
  {
    var (answer, after) := Serve(sys, st, now, faults, a);
    EntryStays(sys, World(after, now), events, sys.plan(a).full);
  }

  /**
   * Whatever happens in between short of evicting or losing it: a chunk that was fetched is a hit
   * for every request that needs it, for its lifetime.
   */
  lemma FetchedChunkIsHit<A(!new), K(!new), P(!new)>(sys: System<A, K, P>, st: Store<K, P>, now: int, faults: Faults<K>,
                                                     a: A, k: K, events: seq<Event<A, K>>, faults': Faults<K>)
    requires WellKeyed(sys) && sys.legal(a) && Fetches(sys, st, now, faults, a, k)
    requires Usable(sys.chunk(k, now)) && k !in faults.refused
    requires LegalRun(sys, events) && Spares(events, k) && NeverLost(events, k) && k !in faults'.lost
    requires After(sys, World(Serve(sys, st, now, faults, a).1, now), events).now < now + sys.ttl(k, now)
    ensures var v := After(sys, World(Serve(sys, st, now, faults, a).1, now), events);
      ChunkHit(v.store, v.now, faults', k) && v.store[k].raw == sys.chunk(k, now).raw
  {
    var after := Serve(sys, st, now, faults, a).1;
    AfterFetchAt(st, now, faults, sys.plan(a).chunks, ReplyAt(sys, now), TtlAt(sys, now), k);
    assert after[k] == Entry(sys.chunk(k, now).raw, now + sys.ttl(k, now));
    EntryStays(sys, World(after, now), events, k);
  }

  /** A blank answer never comes out of the store: the backend gives it now. */
  lemma BlankIsNeverServed<A, K, P>(sys: System<A, K, P>, st: Store<K, P>, now: int, faults: Faults<K>, a: A)
    requires Serve(sys, st, now, faults, a).0 == Answer(Blank)
    ensures sys.direct(a, now) == Answer(Blank)
  {
  }

  // ---- history independence ------------------------------------------------------------------------

  /** A backend whose chunk replies do not change over time. */
  ghost predicate Steady<A, K(!new), P>(sys: System<A, K, P>) {
    forall k, t, u :: sys.chunk(k, t) == sys.chunk(k, u)
  }

  ghost predicate AllUsable<A, K, P>(sys: System<A, K, P>, ks: seq<K>, now: int) {
    forall i :: 0 <= i < |ks| ==> Usable(sys.chunk(ks[i], now))
  }

  ghost function Payloads<A, K, P>(sys: System<A, K, P>, ks: seq<K>, now: int): (r: seq<P>)
    requires AllUsable(sys, ks, now)
    ensures |r| == |ks| && forall i :: 0 <= i < |r| ==> r[i] == sys.chunk(ks[i], now).raw.payload
  {
    seq(|ks|, i requires 0 <= i < |ks| => sys.chunk(ks[i], now).raw.payload)
  }

  /** The answer a request would get with no cache at all: fetch every chunk, merge. */
  ghost function Uncached<A, K, P>(sys: System<A, K, P>, a: A, now: int): Reply<P> {
    var ks := sys.plan(a).chunks;
    if AllUsable(sys, ks, now) then Answer(Parsed(sys.finish(a, Payloads(sys, ks, now)))) else sys.direct(a, now)
  }

  lemma FreshMergeIsUncached<A(!new), K(!new), P(!new)>(sys: System<A, K, P>, start: int, events: seq<Event<A, K>>,
                                                        a: A, answer: Reply<P>, now: int, times: seq<int>, ps: seq<P>)
    requires Steady(sys) && FreshMerge(sys, start, events, a, answer, now, times, ps)
    ensures answer == Uncached(sys, a, now)
  {
    var ks := sys.plan(a).chunks;
    forall i | 0 <= i < |ks| ensures sys.chunk(ks[i], now) == Answer(Parsed(ps[i])) {
      assert FetchedAs(sys, start, events, ks[i], times[i], Parsed(ps[i]));
      assert sys.chunk(ks[i], times[i]) == sys.chunk(ks[i], now);
    }
    assert AllUsable(sys, ks, now);
    assert ps == Payloads(sys, ks, now);
  }

  /**
   * History independence: with a backend that does not change, after any run of requests,
   * evictions and expiries, whatever puts were refused and whatever entries got lost, a
   * chunked request whose lookups do not fail is answered as if there were no cache.
   */
  lemma HistoryIndependence<A(!new), K(!new), P(!new)>(sys: System<A, K, P>, start: int, events: seq<Event<A, K>>, a: A,
                                                       faults: Faults<K>)
    requires Fit(sys) && Steady(sys) && LegalRun(sys, events) && sys.legal(a) && !sys.plan(a).bypass
    requires !faults.getFails && !faults.batchFails
    ensures var w := Run(sys, start, events);
      && Serve(sys, w.store, w.now, faults, a).0 == Uncached(sys, a, w.now)
      && Serve(sys, w.store, w.now, faults, a).0 == Serve(sys, map[], w.now, faults, a).0
  {
    var w := Run(sys, start, events);
    AnswerIsUncached(sys, start, events, a, faults);
    AnswerIsUncached(sys, w.now, [], a, faults);
  }

  lemma AnswerIsUncached<A(!new), K(!new), P(!new)>(sys: System<A, K, P>, start: int, events: seq<Event<A, K>>, a: A,
                                                    faults: Faults<K>)
    requires Fit(sys) && Steady(sys) && LegalRun(sys, events) && sys.legal(a) && !sys.plan(a).bypass
    requires !faults.getFails && !faults.batchFails
    ensures var w := Run(sys, start, events); Serve(sys, w.store, w.now, faults, a).0 == Uncached(sys, a, w.now)
  {
    var w := Run(sys, start, events);
    var times, ps := AnswersAreFresh(sys, start, events, a, faults);
    if FallsBack(sys, w.store, w.now, faults, a) {
      var ks := sys.plan(a).chunks;
      var i :| 0 <= i < |ks| && SlotOf(w.store, w.now, faults, ks[i], sys.chunk(ks[i], w.now)).None?;
      assert !Usable(sys.chunk(ks[i], w.now));
    } else {
      FreshMergeIsUncached(sys, start, events + [Request(a, faults)], a, Serve(sys, w.store, w.now, faults, a).0, w.now,
        times, ps);
    }
  }
}
