/**
 * The engine's cache as the readers use it (storage.go), and the part the three chunked
 * readers have in common: batch lookup, sorting hits from misses, fetching the misses in the
 * worker pool.
 */
module EngineCache {
  import opened Base
  import opened Sorting
  import opened CacheAside
  import FanOut

  const MAX_CONCURRENT_FETCH := 6

  datatype Lookup<+P> = Missing | Found(raw: Raw<P>) | LookupFailed

  /** What gathering the chunks comes to. */
  datatype Gathered<+P> = Unread | Incomplete | Complete(payloads: seq<P>)

  class EngineCache<K(==,!new), P(!new)> {
    var entries: Store<K, P>
    var now: int

    constructor (start: int)
      ensures entries == map[] && now == start
    {
      entries, now := map[], start;
    }

    /** `cacheGet`. */
    method Get(k: K, faults: Faults<K>) returns (r: Lookup<P>)
      ensures r == if faults.getFails then LookupFailed
                   else if Live(entries, now, k) then Found(entries[k].raw)
                   else Missing
    {
      if faults.getFails {
        return LookupFailed;
      }
      if k !in entries || entries[k].expires <= now || entries[k].raw.Blank? {
        return Missing;
      }
      return Found(entries[k].raw);
    }

    /** `cacheGetBatch`: what the batch reply holds, expired, empty and undecodable entries left out. */
    method GetBatch(ks: seq<K>, faults: Faults<K>) returns (r: Option<map<K, Raw<P>>>)
      ensures r.None? <==> BatchFails(faults, ks)
      ensures r.Some? ==> forall k :: k in r.value <==> k in ks && Live(entries, now, k) && k !in faults.lost
      ensures r.Some? ==> forall k :: k in r.value ==> k in entries && r.value[k] == entries[k].raw
    {
      if |ks| == 0 {
        return Some(map[]);
      }
      if faults.batchFails {
        return None;
      }
      var out: map<K, Raw<P>> := map[];
      for i := 0 to |ks|
        invariant forall k :: k in out <==> k in ks[..i] && Live(entries, now, k) && k !in faults.lost
        invariant forall k :: k in out ==> k in entries && out[k] == entries[k].raw
      {
        assert ks[..i + 1] == ks[..i] + [ks[i]];
        var k := ks[i];
        if k in entries && now < entries[k].expires && !entries[k].raw.Blank? && k !in faults.lost {
          out := out[k := entries[k].raw];
        }
      }
      assert ks[..|ks|] == ks;
      return Some(out);
    }

    /** `cacheSet`; its callers ignore a refusal. */
    method Set(k: K, raw: Raw<P>, ttl: int, faults: Faults<K>)
      modifies this`entries
      ensures entries == Put(old(entries), faults, k, Entry(raw, now + ttl))
    {
      if k !in faults.refused {
        entries := entries[k := Entry(raw, now + ttl)];
      }
    }

    method Tick(seconds: nat)
      modifies this`now
      ensures now == old(now) + seconds
    {
      now := now + seconds;
    }

    method Evict(ks: set<K>)
      modifies this`entries
      ensures entries == old(entries) - ks
    {
      entries := entries - ks;
    }

    /** Looks the chunks up, fetches those missing in the pool, and stores what was fetched. */
    method Gather(ks: seq<K>, reply: K -> Reply<P>, ttl: K -> int, faults: Faults<K>) returns (r: Gathered<P>)
      requires NoDup(ks)
      modifies this`entries
      ensures BatchFails(faults, ks) ==> r == Unread && entries == old(entries)
      ensures !BatchFails(faults, ks) ==> entries == AfterFetch(old(entries), now, faults, ks, reply, ttl)
      ensures !BatchFails(faults, ks) ==>
        r == if AllSlots(old(entries), now, faults, ks, reply)
             then Complete(SlotValues(old(entries), now, faults, ks, reply)) else Incomplete
    {
      ghost var st := entries;
      var cached := GetBatch(ks, faults);
      if cached.None? {
        return Unread;
      }
      var slots, tasks := Sift(ks, cached.value, now, faults, reply, ttl, st);
      var s := FanOut.RunWithConcurrency(tasks, MAX_CONCURRENT_FETCH, slots, entries);
      FinalEntries(ks, st, now, faults, reply, ttl, slots, tasks, s.store);
      entries := s.store;
      FinalPayloads(ks, st, now, faults, reply, ttl, slots, tasks, s.slots, s.error.None?);
      if s.error.Some? {
        return Incomplete;
      }
      var payloads := Values(s.slots);
      assert payloads == SlotValues(st, now, faults, ks, reply);
      return Complete(payloads);
    }

    /** Gathering on behalf of a request. */
    method GatherFor<A>(ghost sys: System<A, K, P>, ghost a: A, ks: seq<K>, reply: K -> Reply<P>, ttl: K -> int,
                        faults: Faults<K>)
      returns (r: Gathered<P>)
      requires NoDup(ks) && ks == sys.plan(a).chunks
      requires (forall k :: reply(k) == sys.chunk(k, now)) && forall k :: ttl(k) == sys.ttl(k, now)
      modifies this`entries
      ensures FromChunks(sys, old(entries), now, faults, a) == AnswerFrom(sys, a, now, faults, r, entries)
    {
      ghost var st := entries;
      r := Gather(ks, reply, ttl, faults);
      GatheredFor(sys, a, st, now, faults, reply, ttl, r, entries);
    }
  }

  /** However the fetches of one request interleave, no more than six are in flight. */
  lemma AtMostSixFetches<V, K(!new), E>(tasks: seq<FanOut.Task<V, K, E>>, schedule: seq<nat>, slots: seq<Option<V>>,
                                        store: map<K, E>, jobs: set<nat>)
    requires FanOut.Separate(tasks) && forall j :: 0 <= j < |tasks| ==> tasks[j].slot < |slots|
    requires var s := FanOut.PoolAfter(tasks, MAX_CONCURRENT_FETCH, schedule, slots, store);
      |s.phase| == |tasks| && forall j :: j in jobs ==> j < |tasks| && FanOut.InFlight(s.phase[j])
    ensures |jobs| <= 6
  {
    FanOut.AtMostLimitInFlight(tasks, MAX_CONCURRENT_FETCH, schedule, slots, store, jobs);
  }

  /** And six may be, or all if there are fewer. */
  lemma SixFetchesMayRun<V, K, E>(tasks: seq<FanOut.Task<V, K, E>>, slots: seq<Option<V>>, store: map<K, E>)
    returns (schedule: seq<nat>)
    requires forall j :: 0 <= j < |tasks| ==> tasks[j].slot < |slots|
    ensures var s := FanOut.PoolAfter(tasks, MAX_CONCURRENT_FETCH, schedule, slots, store);
      |s.phase| == |tasks| && forall j :: 0 <= j < |tasks| && j < 6 ==> FanOut.InFlight(s.phase[j])
  {
    schedule := FanOut.LimitIsReached(tasks, MAX_CONCURRENT_FETCH, slots, store);
  }

  /** What gathering comes to for the request it is done for. */
  lemma GatheredFor<A, K(!new), P(!new)>(sys: System<A, K, P>, a: A, st: Store<K, P>, now: int, faults: Faults<K>,
                                         reply: K -> Reply<P>, ttl: K -> int, got: Gathered<P>, after: Store<K, P>)
    requires (forall k :: reply(k) == sys.chunk(k, now)) && forall k :: ttl(k) == sys.ttl(k, now)
    requires var ks := sys.plan(a).chunks;
      if BatchFails(faults, ks) then got == Unread && after == st
      else
        after == AfterFetch(st, now, faults, ks, reply, ttl)
        && got == if AllSlots(st, now, faults, ks, reply) then Complete(SlotValues(st, now, faults, ks, reply))
             else Incomplete
    ensures FromChunks(sys, st, now, faults, a) == AnswerFrom(sys, a, now, faults, got, after)
  {
    SameGathering(st, now, faults, sys.plan(a).chunks, reply, ReplyAt(sys, now), ttl, TtlAt(sys, now));
  }

  /** Answer and store once the chunks were gathered. */
  ghost function AnswerFrom<A, K, P>(sys: System<A, K, P>, a: A, now: int, faults: Faults<K>, got: Gathered<P>,
                                     after: Store<K, P>)
    : (Reply<P>, Store<K, P>)
  {
    if got.Complete? then
      var raw := Parsed(sys.finish(a, got.payloads));
      (Answer(raw), Put(after, faults, sys.plan(a).full, Entry(raw, now + FULL_RESULT_TTL)))
    else (sys.direct(a, now), after)
  }

  method Values<P>(slots: seq<Option<P>>) returns (r: seq<P>)
    requires forall i :: 0 <= i < |slots| ==> slots[i].Some?
    ensures |r| == |slots| && forall i :: 0 <= i < |r| ==> slots[i] == Some(r[i])
  {
    r := [];
    for i := 0 to |slots|
      invariant |r| == i && forall j :: 0 <= j < i ==> slots[j] == Some(r[j])
    {
      r := r + [slots[i].value];
    }
  }

  /** Fills the slots of the cached chunks and lists the others as jobs. */
  method Sift<K(==,!new), P>(ks: seq<K>, cached: map<K, Raw<P>>, now: int, faults: Faults<K>, reply: K -> Reply<P>,
                             ttl: K -> int, ghost st: Store<K, P>)
    returns (slots: seq<Option<P>>, tasks: seq<FanOut.Task<P, K, Entry<P>>>)
    requires NoDup(ks)
    requires forall k :: k in ks ==> CachedAs(cached, st, now, faults, k)
    ensures Sifted(ks, st, now, faults, reply, ttl, slots, tasks)
  {
    slots, tasks := [], [];
    for i := 0 to |ks|
      invariant SiftedUpTo(ks, st, now, faults, reply, ttl, slots, tasks, i)
    {
      assert ks[i] in ks && CachedAs(cached, st, now, faults, ks[i]);
      if ks[i] in cached && cached[ks[i]].Parsed? {
        slots := slots + [Some(cached[ks[i]].payload)];
      } else {
        SiftMiss(ks, st, now, faults, reply, ttl, slots, tasks, i);
        slots := slots + [None];
        tasks := tasks + [FetchTask(i, ks[i], reply(ks[i]), now + ttl(ks[i]), ks[i] in faults.refused)];
      }
    }
    SiftedJobsDiffer(ks, st, now, faults, reply, ttl, slots, tasks);
  }

  /** The batch reply shows entry `k` exactly if the store answers it. */
  ghost predicate CachedAs<K, P>(cached: map<K, Raw<P>>, st: Store<K, P>, now: int, faults: Faults<K>, k: K) {
    && (k in cached <==> Live(st, now, k) && k !in faults.lost)
    && (k in cached ==> cached[k] == st[k].raw)
  }

  /** The job of fetching one missing chunk. */
  function FetchTask<K, P>(slot: nat, k: K, reply: Reply<P>, expires: int, refused: bool): FanOut.Task<P, K, Entry<P>> {
    if Usable(reply) then FanOut.Task(slot, FanOut.Fetched(reply.raw.payload), k, Entry(reply.raw, expires), refused)
    else FanOut.Task(slot, FanOut.Broke(if reply.Failed? then reply.error else 0), k, Entry(Blank, expires), refused)
  }

  /** The jobs are those of the chunks among the first `n` that no entry answers, in order. */
  ghost predicate SiftedUpTo<K, P>(ks: seq<K>, st: Store<K, P>, now: int, faults: Faults<K>, reply: K -> Reply<P>,
                                   ttl: K -> int, slots: seq<Option<P>>, tasks: seq<FanOut.Task<P, K, Entry<P>>>,
                                   n: nat)
  {
    && n <= |ks| && |slots| == n
    && (forall i :: 0 <= i < n ==>
          slots[i] == if ChunkHit(st, now, faults, ks[i]) then Some(st[ks[i]].raw.payload) else None)
    && (forall j :: 0 <= j < |tasks| ==> JobFor(ks, st, now, faults, reply, ttl, n, tasks[j]))
    && (forall i :: 0 <= i < n && !ChunkHit(st, now, faults, ks[i]) ==>
          FetchTask(i, ks[i], reply(ks[i]), now + ttl(ks[i]), ks[i] in faults.refused) in tasks)
    && (forall i, j :: 0 <= i < j < |tasks| ==> tasks[i].slot < tasks[j].slot)
  }

  ghost predicate JobFor<K, P>(ks: seq<K>, st: Store<K, P>, now: int, faults: Faults<K>, reply: K -> Reply<P>,
                               ttl: K -> int, n: nat, t: FanOut.Task<P, K, Entry<P>>)
    requires n <= |ks|
  {
    t.slot < n && !ChunkHit(st, now, faults, ks[t.slot])
    && t == FetchTask(t.slot, ks[t.slot], reply(ks[t.slot]), now + ttl(ks[t.slot]), ks[t.slot] in faults.refused)
  }

  ghost predicate Sifted<K, P>(ks: seq<K>, st: Store<K, P>, now: int, faults: Faults<K>, reply: K -> Reply<P>,
                               ttl: K -> int, slots: seq<Option<P>>, tasks: seq<FanOut.Task<P, K, Entry<P>>>)
  {
    && SiftedUpTo(ks, st, now, faults, reply, ttl, slots, tasks, |ks|)
    && FanOut.Separate(tasks) && forall j :: 0 <= j < |tasks| ==> tasks[j].slot < |slots|
  }

  lemma SiftMiss<K, P>(ks: seq<K>, st: Store<K, P>, now: int, faults: Faults<K>, reply: K -> Reply<P>, ttl: K -> int,
                       slots: seq<Option<P>>, tasks: seq<FanOut.Task<P, K, Entry<P>>>, n: nat)
    requires SiftedUpTo(ks, st, now, faults, reply, ttl, slots, tasks, n) && n < |ks| &&
      !ChunkHit(st, now, faults, ks[n])
    ensures SiftedUpTo(ks, st, now, faults, reply, ttl, slots + [None],
                       tasks + [FetchTask(n, ks[n], reply(ks[n]), now + ttl(ks[n]), ks[n] in faults.refused)], n + 1)
  {
    var t := FetchTask(n, ks[n], reply(ks[n]), now + ttl(ks[n]), ks[n] in faults.refused);
    forall j | 0 <= j < |tasks|
      ensures JobFor(ks, st, now, faults, reply, ttl, n + 1, (tasks + [t])[j]) && tasks[j].slot < t.slot
    {
      assert JobFor(ks, st, now, faults, reply, ttl, n, tasks[j]);
    }
  }

  lemma SiftedJobsDiffer<K, P>(ks: seq<K>, st: Store<K, P>, now: int, faults: Faults<K>, reply: K -> Reply<P>,
                               ttl: K -> int, slots: seq<Option<P>>, tasks: seq<FanOut.Task<P, K, Entry<P>>>)
    requires NoDup(ks) && SiftedUpTo(ks, st, now, faults, reply, ttl, slots, tasks, |ks|)
    ensures Sifted(ks, st, now, faults, reply, ttl, slots, tasks)
  {
    forall j | 0 <= j < |tasks| ensures tasks[j].slot < |slots| && tasks[j].key == ks[tasks[j].slot] {
      assert JobFor(ks, st, now, faults, reply, ttl, |ks|, tasks[j]);
    }
  }

  lemma FinalEntryAt<K(!new), P>(ks: seq<K>, st: Store<K, P>, now: int, faults: Faults<K>, reply: K -> Reply<P>,
                                 ttl: K -> int, slots: seq<Option<P>>, tasks: seq<FanOut.Task<P, K, Entry<P>>>,
                                 after: Store<K, P>, k: K)
    requires Sifted(ks, st, now, faults, reply, ttl, slots, tasks) && FanOut.FinalStore(tasks, st, after)
    ensures if k in ks && Stores(st, now, faults, k, reply(k))
      then k in after && after[k] == Entry(reply(k).raw, now + ttl(k))
      else (k in after <==> k in st) && (k in st ==> after[k] == st[k])
  {
    if k in ks && Stores(st, now, faults, k, reply(k)) {
      var i :| 0 <= i < |ks| && ks[i] == k;
    } else {
      forall j | 0 <= j < |tasks| && tasks[j].outcome.Fetched? && !tasks[j].refused ensures tasks[j].key != k {
        JobKey(ks, st, now, faults, reply, ttl, tasks[j]);
      }
    }
  }

  lemma JobKey<K, P>(ks: seq<K>, st: Store<K, P>, now: int, faults: Faults<K>, reply: K -> Reply<P>, ttl: K -> int,
                     t: FanOut.Task<P, K, Entry<P>>)
    requires JobFor(ks, st, now, faults, reply, ttl, |ks|, t) && t.outcome.Fetched? && !t.refused
    ensures t.key in ks && Stores(st, now, faults, t.key, reply(t.key))
  {
  }

  lemma FinalEntryIs<K(!new), P>(ks: seq<K>, st: Store<K, P>, now: int, faults: Faults<K>, reply: K -> Reply<P>,
                                 ttl: K -> int, slots: seq<Option<P>>, tasks: seq<FanOut.Task<P, K, Entry<P>>>,
                                 after: Store<K, P>, k: K)
    requires Sifted(ks, st, now, faults, reply, ttl, slots, tasks) && FanOut.FinalStore(tasks, st, after)
    ensures SameEntry(after, AfterFetch(st, now, faults, ks, reply, ttl), k)
  {
    FinalEntryAt(ks, st, now, faults, reply, ttl, slots, tasks, after, k);
    AfterFetchAt(st, now, faults, ks, reply, ttl, k);
  }

  ghost predicate SameEntry<K, V>(p: map<K, V>, q: map<K, V>, k: K) {
    (k in p <==> k in q) && (k in p ==> p[k] == q[k])
  }

  lemma SameEntries<K(!new), V>(p: map<K, V>, q: map<K, V>)
    requires forall k :: SameEntry(p, q, k)
    ensures p == q
  {
    forall k | k in p ensures k in q && q[k] == p[k] {
      assert SameEntry(p, q, k);
    }
    forall k | k in q ensures k in p {
      assert SameEntry(p, q, k);
    }
  }

  /** The pool leaves exactly the entries the specification says. */
  lemma FinalEntries<K(!new), P>(ks: seq<K>, st: Store<K, P>, now: int, faults: Faults<K>, reply: K -> Reply<P>,
                                 ttl: K -> int, slots: seq<Option<P>>, tasks: seq<FanOut.Task<P, K, Entry<P>>>,
                                 after: Store<K, P>)
    requires Sifted(ks, st, now, faults, reply, ttl, slots, tasks) && FanOut.FinalStore(tasks, st, after)
    ensures after == AfterFetch(st, now, faults, ks, reply, ttl)
  {
    forall k ensures SameEntry(after, AfterFetch(st, now, faults, ks, reply, ttl), k) {
      FinalEntryIs(ks, st, now, faults, reply, ttl, slots, tasks, after, k);
    }
    SameEntries(after, AfterFetch(st, now, faults, ks, reply, ttl));
  }

  /** Every slot is filled, with the right payload, exactly when no job failed. */
  lemma FinalPayloads<K(!new), P>(ks: seq<K>, st: Store<K, P>, now: int, faults: Faults<K>, reply: K -> Reply<P>,
                                  ttl: K -> int, slots: seq<Option<P>>, tasks: seq<FanOut.Task<P, K, Entry<P>>>,
                                  after: seq<Option<P>>, clean: bool)
    requires Sifted(ks, st, now, faults, reply, ttl, slots, tasks) && FanOut.FinalSlots(tasks, slots, after)
    requires clean <==> forall j :: 0 <= j < |tasks| ==> tasks[j].outcome.Fetched?
    ensures |after| == |ks| && forall i :: 0 <= i < |ks| ==> after[i] == SlotOf(st, now, faults, ks[i], reply(ks[i]))
    ensures clean <==> AllSlots(st, now, faults, ks, reply)
  {
    forall i | 0 <= i < |ks| ensures after[i] == SlotOf(st, now, faults, ks[i], reply(ks[i])) {
      FinalSlotAt(ks, st, now, faults, reply, ttl, slots, tasks, after, i);
    }
  }

  lemma FinalSlotAt<K(!new), P>(ks: seq<K>, st: Store<K, P>, now: int, faults: Faults<K>, reply: K -> Reply<P>,
                                ttl: K -> int, slots: seq<Option<P>>, tasks: seq<FanOut.Task<P, K, Entry<P>>>,
                                after: seq<Option<P>>, i: nat)
    requires Sifted(ks, st, now, faults, reply, ttl, slots, tasks) && FanOut.FinalSlots(tasks, slots, after) && i < |ks|
    ensures i < |after| && after[i] == SlotOf(st, now, faults, ks[i], reply(ks[i]))
  {
    if ChunkHit(st, now, faults, ks[i]) {
      forall j | 0 <= j < |tasks| ensures tasks[j].slot != i {
        assert JobFor(ks, st, now, faults, reply, ttl, |ks|, tasks[j]);
      }
    } else {
      var t := FetchTask(i, ks[i], reply(ks[i]), now + ttl(ks[i]), ks[i] in faults.refused);
      assert t in tasks;
      var j :| 0 <= j < |tasks| && tasks[j] == t;
    }
  }
}
