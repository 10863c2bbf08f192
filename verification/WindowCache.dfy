/** What the windowed query functions share, for any scope and payload (rangecache.go, logscache.go). */
module WindowCache {
  import opened Sorting
  import opened Tiers
  import opened Windows
  import opened CacheAside
  import opened EngineCache

  /** The backend's reply, at a time, to a query over a window at a step. */
  type WindowBackend<!S, +P> = (S, int, int, int, string) -> Reply<P>

  /**
   * Where the functions differ: the requests that reach the scheme, those that bypass the chunks,
   * and what chunk payloads fetched at one step become at the effective one.
   */
  datatype Kind<!S, !P> = Kind(
    legal: Ask<S> -> bool,
    bypass: Ask<S> -> bool,
    finish: (string, string, seq<P>) -> P)

  function PlanOf<S>(secs: StepParser, bypass: bool, a: Ask<S>): Plan<Key<S>> {
    Plan(FullKey(secs, a), bypass, if bypass then [] else ChunkKeys(secs, a))
  }

  /** The reply the chunk behind a key would get now. */
  function ReplyFor<S, P>(backend: WindowBackend<S, P>, k: Key<S>, now: int): Reply<P> {
    match k
    case ChunkKey(scope, start, end, step) => backend(scope, now, start, end, step)
    case Result(_, _, _, _) => Failed(0)
  }

  ghost function WindowSystem<S, P>(secs: StepParser, backend: WindowBackend<S, P>,
                                    kind: Kind<S, P>): System<Ask<S>, Key<S>, P>
  {
    System(
      kind.legal,
      (k: Key<S>) => k.Result?,
      (a: Ask<S>) => PlanOf(secs, kind.bypass(a), a),
      (a: Ask<S>, t: int) => backend(a.scope, t, a.start, a.end, Effective(secs, a)),
      (k: Key<S>, t: int) => ReplyFor(backend, k, t),
      (a: Ask<S>, sets: seq<P>) => kind.finish(Effective(secs, a), FetchedStep(secs, a), sets),
      (k: Key<S>, t: int) => TtlFor(k, t))
  }

  /** Bypassing depends on the tier alone, and whatever is not bypassed is harmless. */
  ghost predicate Sound<S(!new), P>(kind: Kind<S, P>) {
    && (forall a: Ask<S> :: kind.legal(a) ==> 0 <= a.start && 0 <= a.end && (kind.bypass(a) || Harmless(a)))
    && (forall a: Ask<S>, b: Ask<S> :: TierOf(a.start, a.end) == TierOf(b.start, b.end) ==>
         kind.bypass(a) == kind.bypass(b))
  }

  // ---- gathering ------------------------------------------------------------------------

  method GatherChunks<S(==,!new), P(!new)>(cache: EngineCache<Key<S>, P>, secs: StepParser,
                                           backend: WindowBackend<S, P>, ghost kind: Kind<S, P>, a: Ask<S>,
                                           faults: Faults<Key<S>>, fetchStep: string)
    returns (got: Gathered<P>)
    requires fetchStep == FetchedStep(secs, a) && !kind.bypass(a)
    modifies cache`entries
    ensures var sys := WindowSystem(secs, backend, kind);
      FromChunks(sys, old(cache.entries), cache.now, faults, a) ==
        AnswerFrom(sys, a, cache.now, faults, got, cache.entries)
  {
    var now := cache.now;
    var keys := ListKeys(secs, a, fetchStep);
    ChunkKeysDiffer(secs, a);
    got := cache.GatherFor(WindowSystem(secs, backend, kind), a, keys,
                           (k: Key<S>) => ReplyFor(backend, k, now), (k: Key<S>) => TtlFor(k, now), faults);
  }

  // ---- keys determine what is cached under them --------------------------------------------

  lemma WindowsAreWellKeyed<S(!new), P(!new)>(secs: StepParser, backend: WindowBackend<S, P>, kind: Kind<S, P>)
    ensures WellKeyed(WindowSystem(secs, backend, kind))
  {
    var sys := WindowSystem(secs, backend, kind);
    forall a: Ask<S> | sys.legal(a)
      ensures sys.isFull(sys.plan(a).full) && NoDup(sys.plan(a).chunks) && forall k :: k in sys.plan(a).chunks ==>
        !sys.isFull(k)
    {
      assert sys.plan(a) == PlanOf(secs, kind.bypass(a), a);
      ChunkKeysDiffer(secs, a);
    }
  }

  lemma OneKeyOnePlan<S(!new), P(!new)>(secs: StepParser, backend: WindowBackend<S, P>, kind: Kind<S, P>, a: Ask<S>,
                                        b: Ask<S>)
    requires Sound(kind) && kind.legal(a) && kind.legal(b) && FullKey(secs, a) == FullKey(secs, b)
    ensures CacheAside.Agree(WindowSystem(secs, backend, kind), a, b)
  {
    FullKeyDeterminesPlan(secs, a, b);
    assert kind.bypass(a) == kind.bypass(b);
    assert PlanOf(secs, kind.bypass(a), a) == PlanOf(secs, kind.bypass(b), b);
  }

  /** Requests of one kind may share their store over any run. */
  lemma WindowsAreFit<S(!new), P(!new)>(secs: StepParser, backend: WindowBackend<S, P>, kind: Kind<S, P>)
    requires Sound(kind)
    ensures Fit(WindowSystem(secs, backend, kind))
  {
    WindowsAreWellKeyed(secs, backend, kind);
    var sys := WindowSystem(secs, backend, kind);
    forall a: Ask<S>, b: Ask<S> | sys.legal(a) && sys.legal(b) && sys.plan(a).full == sys.plan(b).full
      ensures CacheAside.Agree(sys, a, b)
    {
      OneKeyOnePlan(secs, backend, kind, a, b);
    }
  }

  // ---- falling back ---------------------------------------------------------------------------

  /** Replies for this scope can be read, whenever the window and the step make sense. */
  ghost predicate RepliesUsable<S, P>(secs: StepParser, backend: WindowBackend<S, P>, scope: S) {
    forall t, s, e, step :: s < e && secs(step) > 0 ==> Usable(backend(scope, t, s, e, step))
  }

  lemma ChunkIsUsable<S, P>(secs: StepParser, backend: WindowBackend<S, P>, now: int, a: Ask<S>, i: nat)
    requires ReadsCanonicalSteps(secs) && Proper(a.start, a.end) && RepliesUsable(secs, backend, a.scope)
    requires i < |ChunkKeys(secs, a)|
    ensures Usable(ReplyFor(backend, ChunkKeys(secs, a)[i], now))
  {
    FetchedStepIsPositive(secs, a);
    ChunksTileAlignedWindow(a.start, a.end);
    var c := ChunksOf(a.start, a.end)[i];
    assert Usable(backend(a.scope, now, c.start, c.end, FetchedStep(secs, a)));
  }

  /** If lookups work and replies can be read, a chunked request never falls back to the direct reply. */
  lemma NeverFallsBack<S, P>(secs: StepParser, backend: WindowBackend<S, P>, kind: Kind<S, P>, st: Store<Key<S>, P>,
                             now: int, a: Ask<S>, faults: Faults<Key<S>>)
    requires ReadsCanonicalSteps(secs) && Proper(a.start, a.end) && !kind.bypass(a) && !faults.getFails &&
      !faults.batchFails
    requires RepliesUsable(secs, backend, a.scope)
    ensures !FallsBack(WindowSystem(secs, backend, kind), st, now, faults, a)
  {
    assert WindowSystem(secs, backend, kind).plan(a) == PlanOf(secs, false, a);
    forall i | 0 <= i < |ChunkKeys(secs, a)|
      ensures SlotOf(st, now, faults, ChunkKeys(secs, a)[i], ReplyFor(backend, ChunkKeys(secs, a)[i], now)).Some?
    {
      ChunkIsUsable(secs, backend, now, a, i);
    }
  }

  // ---- staleness ------------------------------------------------------------------------------

  /** Chunk `i` of the request was fetched at `t` by a request of the run, recently enough for the age it had then. */
  ghost predicate FreshChunk<S, P>(secs: StepParser, backend: WindowBackend<S, P>, kind: Kind<S, P>, start: int,
                                   events: seq<Event<Ask<S>, Key<S>>>, a: Ask<S>, i: int, t: int, payload: P, now: int)
    requires 0 <= i < |ChunksOf(a.start, a.end)|
  {
    var c := ChunksOf(a.start, a.end)[i];
    && t <= now < t + MaxStaleness(c.end, t)
    && FetchedIn(WindowSystem(secs, backend, kind), start, events, ChunkKeys(secs, a)[i], t)
    && backend(a.scope, t, c.start, c.end, FetchedStep(secs, a)) == Answer(Parsed(payload))
  }

  /** The answer is the direct reply, if the request falls back, or else the merge of fresh chunks. */
  ghost predicate FreshAnswer<S, P>(secs: StepParser, backend: WindowBackend<S, P>, kind: Kind<S, P>, start: int,
                                    events: seq<Event<Ask<S>, Key<S>>>, a: Ask<S>, faults: Faults<Key<S>>,
                                    times: seq<int>, sets: seq<P>)
  {
    var sys := WindowSystem(secs, backend, kind);
    var w := Run(sys, start, events);
    var answer := Serve(sys, w.store, w.now, faults, a).0;
    if FallsBack(sys, w.store, w.now, faults, a) then
      answer == backend(a.scope, w.now, a.start, a.end, Effective(secs, a))
    else
      && |times| == |ChunksOf(a.start, a.end)| == |sets|
      && answer == Answer(Parsed(kind.finish(Effective(secs, a), FetchedStep(secs, a), sets)))
      && forall i :: 0 <= i < |times| ==>
           FreshChunk(secs, backend, kind, start, events + [Request(a, faults)], a, i, times[i], sets[i], w.now)
  }

  lemma ChunkIsFresh<S, P>(secs: StepParser, backend: WindowBackend<S, P>, kind: Kind<S, P>, start: int,
                           events: seq<Event<Ask<S>, Key<S>>>, a: Ask<S>, i: nat, t: int, payload: P, now: int)
    requires i < |ChunksOf(a.start, a.end)|
    requires var sys := WindowSystem(secs, backend, kind);
      var k := ChunkKeys(secs, a)[i];
      FetchedAs(sys, start, events, k, t, Parsed(payload)) && t <= now < t + sys.ttl(k, t) + 120
    ensures FreshChunk(secs, backend, kind, start, events, a, i, t, payload, now)
  {
  }

  /**
   * Staleness: over every run, each chunk in an answer that is not a direct reply was fetched in
   * the run less than 3720 seconds ago, less than 240 if it was under 300 seconds old then, less
   * than 135 if under 60.
   */
  lemma Staleness<S(!new), P(!new)>(secs: StepParser, backend: WindowBackend<S, P>, kind: Kind<S, P>, start: int,
                                    events: seq<Event<Ask<S>, Key<S>>>, a: Ask<S>, faults: Faults<Key<S>>)
    returns (times: seq<int>, sets: seq<P>)
    requires Sound(kind) && LegalRun(WindowSystem(secs, backend, kind), events) && kind.legal(a) && !kind.bypass(a)
    ensures FreshAnswer(secs, backend, kind, start, events, a, faults, times, sets)
  {
    var sys := WindowSystem(secs, backend, kind);
    WindowsAreFit(secs, backend, kind);
    assert sys.plan(a) == PlanOf(secs, false, a);
    times, sets := AnswersAreFresh(sys, start, events, a, faults);
    var w := Run(sys, start, events);
    if !FallsBack(sys, w.store, w.now, faults, a) {
      FreshMergeIsFreshAnswer(secs, backend, kind, start, events, a, faults, times, sets);
    }
  }

  lemma FreshMergeIsFreshAnswer<S(!new), P(!new)>(secs: StepParser, backend: WindowBackend<S, P>, kind: Kind<S, P>,
                                                  start: int, events: seq<Event<Ask<S>, Key<S>>>, a: Ask<S>,
                                                  faults: Faults<Key<S>>, times: seq<int>, sets: seq<P>)
    requires !kind.bypass(a)
    requires var sys := WindowSystem(secs, backend, kind);
      var w := Run(sys, start, events);
      && !FallsBack(sys, w.store, w.now, faults, a)
      && FreshMerge(sys, start, events + [Request(a, faults)], a, Serve(sys, w.store, w.now, faults, a).0, w.now, times,
           sets)
    ensures FreshAnswer(secs, backend, kind, start, events, a, faults, times, sets)
  {
    var sys := WindowSystem(secs, backend, kind);
    var now := Run(sys, start, events).now;
    assert sys.plan(a).chunks == ChunkKeys(secs, a);
    forall i | 0 <= i < |times|
      ensures FreshChunk(secs, backend, kind, start, events + [Request(a, faults)], a, i, times[i], sets[i], now)
    {
      ChunkIsFresh(secs, backend, kind, start, events + [Request(a, faults)], a, i, times[i], sets[i], now);
    }
  }

  // ---- what an answer is made of ---------------------------------------------------------------

  /** One reply per chunk, each fetched at the step in use at the time given for it. */
  ghost predicate FetchedReplies<S, P>(secs: StepParser, backend: WindowBackend<S, P>, a: Ask<S>, times: seq<int>,
                                       sets: seq<P>)
  {
    var cs := ChunksOf(a.start, a.end);
    && |times| == |cs| == |sets|
    && forall i :: 0 <= i < |cs| ==> ReplyIs(secs, backend, a, cs[i], times[i], sets[i])
  }

  ghost predicate ReplyIs<S, P>(secs: StepParser, backend: WindowBackend<S, P>, a: Ask<S>, c: Chunk, t: int,
                                payload: P)
  {
    backend(a.scope, t, c.start, c.end, FetchedStep(secs, a)) == Answer(Parsed(payload))
  }

  lemma FreshRepliesAreFetched<S, P>(secs: StepParser, backend: WindowBackend<S, P>, kind: Kind<S, P>, start: int,
                                     events: seq<Event<Ask<S>, Key<S>>>, a: Ask<S>, times: seq<int>, sets: seq<P>,
                                     now: int)
    requires |times| == |ChunksOf(a.start, a.end)| == |sets|
    requires forall i :: 0 <= i < |times| ==>
      FreshChunk(secs, backend, kind, start, events, a, i, times[i], sets[i], now)
    ensures FetchedReplies(secs, backend, a, times, sets)
  {
    forall i | 0 <= i < |times| ensures ReplyIs(secs, backend, a, ChunksOf(a.start, a.end)[i], times[i], sets[i]) {
      assert FreshChunk(secs, backend, kind, start, events, a, i, times[i], sets[i], now);
    }
  }

  /**
   * After any run, a chunked request whose lookups work and whose replies can be read is answered
   * with what one reply per chunk, whenever it was fetched, comes to.
   */
  lemma AnswerOfReplies<S(!new), P(!new)>(secs: StepParser, backend: WindowBackend<S, P>, kind: Kind<S, P>, start: int,
                                          events: seq<Event<Ask<S>, Key<S>>>, a: Ask<S>, faults: Faults<Key<S>>)
    returns (times: seq<int>, sets: seq<P>)
    requires ReadsCanonicalSteps(secs) && Sound(kind) && LegalRun(WindowSystem(secs, backend, kind), events)
    requires kind.legal(a) && !kind.bypass(a) && Proper(a.start, a.end) && !faults.getFails && !faults.batchFails
    requires RepliesUsable(secs, backend, a.scope)
    ensures FetchedReplies(secs, backend, a, times, sets)
    ensures var sys := WindowSystem(secs, backend, kind);
      var w := Run(sys, start, events);
      Serve(sys, w.store, w.now, faults, a).0 ==
        Answer(Parsed(kind.finish(Effective(secs, a), FetchedStep(secs, a), sets)))
  {
    var w := Run(WindowSystem(secs, backend, kind), start, events);
    times, sets := Staleness(secs, backend, kind, start, events, a, faults);
    NeverFallsBack(secs, backend, kind, w.store, w.now, a, faults);
    FreshRepliesAreFetched(secs, backend, kind, start, events + [Request(a, faults)], a, times, sets, w.now);
  }

  /** No lookup works, or some chunk is neither a hit nor a reply that can be read. */
  ghost predicate Stranded<S, P>(secs: StepParser, backend: WindowBackend<S, P>, kind: Kind<S, P>,
                                 st: Store<Key<S>, P>, now: int, faults: Faults<Key<S>>, a: Ask<S>)
  {
    var cs, ks, f := ChunksOf(a.start, a.end), ChunkKeys(secs, a), FetchedStep(secs, a);
    || faults.getFails
    || (!Live(st, now, FullKey(secs, a)) && !kind.bypass(a) && |cs| > 0 &&
        (faults.batchFails ||
         exists i ::
           0 <= i < |cs| && !ChunkHit(st, now, faults, ks[i]) &&
           !Usable(backend(a.scope, now, cs[i].start, cs[i].end, f))))
  }

  /** Such a request is answered by a plain fetch of its own window, at the step asked for or the usual one. */
  lemma StrandedAnswer<S(!new), P(!new)>(secs: StepParser, backend: WindowBackend<S, P>, kind: Kind<S, P>,
                                         st: Store<Key<S>, P>, now: int, faults: Faults<Key<S>>, a: Ask<S>)
    returns (step: string)
    requires ReadsCanonicalSteps(secs) && Stranded(secs, backend, kind, st, now, faults, a)
    ensures UsesStep(secs, a, step)
    ensures Serve(WindowSystem(secs, backend, kind), st, now, faults, a).0 ==
      backend(a.scope, now, a.start, a.end, step)
  {
    step := Effective(secs, a);
    var sys := WindowSystem(secs, backend, kind);
    var cs, ks := ChunksOf(a.start, a.end), ChunkKeys(secs, a);
    if !faults.getFails && !faults.batchFails {
      var i :| 0 <= i < |cs| && !ChunkHit(st, now, faults, ks[i]) &&
        !Usable(backend(a.scope, now, cs[i].start, cs[i].end, FetchedStep(secs, a)));
      assert SlotOf(st, now, faults, ks[i], ReplyAt(sys, now)(ks[i])).None?;
    }
  }

  // ---- lifetimes --------------------------------------------------------------------------------

  /**
   * A chunk fetched and stored is a hit, with that reply, for 15 seconds if it ended less than a
   * minute before, for 120 if less than five minutes, else for 3600, whatever run that neither
   * evicts nor loses it comes between.
   */
  lemma ChunkLives<S(!new), P(!new)>(secs: StepParser, backend: WindowBackend<S, P>, kind: Kind<S, P>,
                                     st: Store<Key<S>, P>, now: int, faults: Faults<Key<S>>, a: Ask<S>, i: nat,
                                     events: seq<Event<Ask<S>, Key<S>>>, faults': Faults<Key<S>>)
    requires i < |ChunksOf(a.start, a.end)| && kind.legal(a)
    requires var sys, k := WindowSystem(secs, backend, kind), ChunkKeys(secs, a)[i];
      && Fetches(sys, st, now, faults, a, k) && k !in faults.refused
      && LegalRun(sys, events) && Spares(events, k) && NeverLost(events, k) && k !in faults'.lost
    requires var c := ChunksOf(a.start, a.end)[i];
      && Usable(backend(a.scope, now, c.start, c.end, FetchedStep(secs, a)))
      && var sys := WindowSystem(secs, backend, kind);
         After(sys, World(Serve(sys, st, now, faults, a).1, now), events).now <
           now + if now - c.end < 60 then 15 else if now - c.end < 300 then 120 else 3600
    ensures var sys, k := WindowSystem(secs, backend, kind), ChunkKeys(secs, a)[i];
      var c := ChunksOf(a.start, a.end)[i];
      var v := After(sys, World(Serve(sys, st, now, faults, a).1, now), events);
      && ChunkHit(v.store, v.now, faults', k)
      && v.store[k].raw == backend(a.scope, now, c.start, c.end, FetchedStep(secs, a)).raw
  {
    WindowsAreWellKeyed(secs, backend, kind);
    FetchedChunkIsHit(WindowSystem(secs, backend, kind), st, now, faults, a, ChunkKeys(secs, a)[i], events, faults');
  }
}
