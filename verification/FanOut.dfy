/**
 * The bounded worker pool (concurrency.go) with the task body the cached readers run in it:
 * fetch, then either write the own slot and store the reply, or record the first error
 * under a lock. One step of one worker is one transition; a schedule is any list of worker
 * numbers.
 */
module FanOut {
  import opened Base

  datatype Outcome<+V> = Fetched(value: V) | Broke(error: int)

  /** A job: its slot, what fetching and parsing yields, and the entry it stores, if the cache takes it. */
  datatype Task<+V, +K, +E> = Task(slot: nat, outcome: Outcome<V>, key: K, entry: E, refused: bool)

  datatype Phase = Queued | Taken | Writing | Storing | Waiting | Holding | Releasing | Finished
  datatype Worker = Idle | Busy(job: nat) | Gone

  datatype State<V, !K, E> = State(
    next: nat,              // the jobs channel still holds next, next + 1, ...
    workers: seq<Worker>,
    phase: seq<Phase>,      // of each job
    runs: seq<nat>,         // how often each job was fetched
    slots: seq<Option<V>>,
    store: map<K, E>,
    stored: set<nat>,       // jobs whose put is done
    lock: Option<nat>,      // the job holding the error lock
    error: Option<int>,
    blame: seq<nat>)        // failing jobs in the order they took the lock

  function WorkerCount(tasks: nat, limit: int): nat {
    if limit <= 0 || limit > tasks then tasks else limit
  }

  function Init<V, K, E>(n: nat, limit: int, slots: seq<Option<V>>, store: map<K, E>): State<V, K, E> {
    State(0, seq(WorkerCount(n, limit), _ => Idle), seq(n, _ => Queued), seq(n, _ => 0),
          slots, store, {}, None, None, [])
  }

  predicate Sized<V, K, E>(ts: seq<Task<V, K, E>>, s: State<V, K, E>) {
    && |s.phase| == |s.runs| == |ts| && s.next <= |ts|
    && (forall w :: 0 <= w < |s.workers| && s.workers[w].Busy? ==> s.workers[w].job < |ts|)
    && (forall j :: 0 <= j < |ts| ==> ts[j].slot < |s.slots|)
  }

  function SetPhase<V, K, E>(s: State<V, K, E>, j: nat, p: Phase): State<V, K, E>
    requires j < |s.phase|
  {
    s.(phase := s.phase[j := p])
  }

  function Finish<V, K, E>(s: State<V, K, E>, w: nat, j: nat): State<V, K, E>
    requires w < |s.workers| && j < |s.phase|
  {
    s.(phase := s.phase[j := Finished], workers := s.workers[w := Idle])
  }

  /** Whether worker `w` can move: a gone worker cannot, nor one waiting for a taken lock. */
  predicate Enabled<V, K, E>(ts: seq<Task<V, K, E>>, s: State<V, K, E>, w: nat)
    requires Sized(ts, s)
  {
    w < |s.workers| &&
    match s.workers[w]
    case Idle => true
    case Gone => false
    case Busy(j) =>
      s.phase[j] in {Taken, Writing, Storing, Holding, Releasing} || (s.phase[j] == Waiting && s.lock.None?)
  }

  /** The next move of worker `w` while it handles job `j`. */
  function TaskStep<V, K, E>(ts: seq<Task<V, K, E>>, s: State<V, K, E>, w: nat, j: nat): State<V, K, E>
    requires Sized(ts, s) && w < |s.workers| && j < |ts|
  {
    match s.phase[j]
    case Taken =>
      var next := if ts[j].outcome.Fetched? then Writing else Waiting;
      SetPhase(s, j, next).(runs := s.runs[j := s.runs[j] + 1])
    case Writing =>
      if ts[j].outcome.Fetched?
      then SetPhase(s, j, Storing).(slots := s.slots[ts[j].slot := Some(ts[j].outcome.value)]) else s
    case Storing =>
      var store := if ts[j].refused then s.store else s.store[ts[j].key := ts[j].entry];
      Finish(s, w, j).(stored := s.stored + {j}, store := store)
    case Waiting => if s.lock.None? then SetPhase(s, j, Holding).(lock := Some(j), blame := s.blame + [j]) else s
    case Holding =>
      SetPhase(s, j, Releasing).(error :=
        if s.error.None? && ts[j].outcome.Broke? then Some(ts[j].outcome.error) else s.error)
    case Releasing => Finish(s, w, j).(lock := None)
    case _ => s
  }

  /** One step of worker `w`; a worker that cannot move leaves the state alone. */
  function Step<V, K, E>(ts: seq<Task<V, K, E>>, s: State<V, K, E>, w: nat): State<V, K, E>
    requires Sized(ts, s)
  {
    if !Enabled(ts, s, w) then s
    else match s.workers[w]
      case Idle =>
        if s.next < |ts| then SetPhase(s, s.next, Taken).(next := s.next + 1, workers := s.workers[w := Busy(s.next)])
        else s.(workers := s.workers[w := Gone])
      case Busy(j) => TaskStep(ts, s, w, j)
      case Gone => s
  }

  // ---- the invariant ------------------------------------------------------------

  /** Jobs have distinct slots and distinct keys. */
  ghost predicate Separate<V, K, E>(ts: seq<Task<V, K, E>>) {
    forall i, j :: 0 <= i < j < |ts| ==> ts[i].slot != ts[j].slot && ts[i].key != ts[j].key
  }

  predicate InFlight(p: Phase) {
    p != Queued && p != Finished
  }

  /** Queue and workers: every job in flight sits with exactly one worker. */
  ghost predicate Manned(next: nat, workers: seq<Worker>, phase: seq<Phase>) {
    && next <= |phase|
    && (forall w :: 0 <= w < |workers| && workers[w].Busy? ==>
         workers[w].job < |phase| && InFlight(phase[workers[w].job]))
    && (forall j :: 0 <= j < |phase| ==> (phase[j] == Queued <==> next <= j))
    && (forall j :: 0 <= j < |phase| && InFlight(phase[j]) ==> Busy(j) in workers)
    && (forall v, w :: 0 <= v < w < |workers| && workers[v].Busy? ==> workers[v] != workers[w])
    && (forall w :: 0 <= w < |workers| && workers[w].Gone? ==> next == |phase|)
  }

  ghost predicate Staffed<V, K, E>(ts: seq<Task<V, K, E>>, s: State<V, K, E>) {
    Sized(ts, s) && Manned(s.next, s.workers, s.phase)
  }

  /** What one job has done by its phase. */
  predicate JobRight(fetched: bool, p: Phase, runs: nat, stored: bool) {
    && (p in {Writing, Storing} ==> fetched)
    && (p in {Waiting, Holding, Releasing} ==> !fetched)
    && runs == (if p in {Queued, Taken} then 0 else 1)
    && (stored <==> p == Finished && fetched)
  }

  ghost predicate Progress<V, K, E>(ts: seq<Task<V, K, E>>, s: State<V, K, E>) {
    && Sized(ts, s)
    && (forall j :: 0 <= j < |ts| ==> JobRight(ts[j].outcome.Fetched?, s.phase[j], s.runs[j], j in s.stored))
    && (forall j :: j in s.stored ==> j < |ts|)
  }

  /** Slots: written jobs show their value, all other slots are as they were. */
  ghost predicate SlotsRight<V, K, E>(ts: seq<Task<V, K, E>>, s: State<V, K, E>, slots: seq<Option<V>>) {
    && Sized(ts, s) && |s.slots| == |slots|
    && (forall j :: 0 <= j < |ts| ==> SlotRight(ts[j].outcome, s.phase[j], s.slots[ts[j].slot], slots[ts[j].slot]))
    && (forall i :: 0 <= i < |slots| && (forall j :: 0 <= j < |ts| ==> ts[j].slot != i) ==> s.slots[i] == slots[i])
  }

  ghost predicate SlotRight<V>(o: Outcome<V>, p: Phase, now: Option<V>, before: Option<V>) {
    now == if o.Fetched? && p in {Storing, Finished} then Some(o.value) else before
  }

  /** The entries the stored jobs put. */
  ghost predicate StoreRight<V, K(!new), E>(ts: seq<Task<V, K, E>>, s: State<V, K, E>, store: map<K, E>) {
    && Sized(ts, s)
    && (forall j :: 0 <= j < |ts| && Put(ts, s.stored, j) ==> ts[j].key in s.store && s.store[ts[j].key] == ts[j].entry)
    && (forall k :: (forall j :: 0 <= j < |ts| && Put(ts, s.stored, j) ==> ts[j].key != k) ==>
          (k in s.store <==> k in store) && (k in store ==> s.store[k] == store[k]))
  }

  ghost predicate Put<V, K, E>(ts: seq<Task<V, K, E>>, stored: set<nat>, j: nat)
    requires j < |ts|
  {
    j in stored && !ts[j].refused
  }

  /** One job and the lock: it holds the lock in two phases, and is blamed from then on. */
  predicate LockRight(fetched: bool, p: Phase, holds: bool, blamed: bool) {
    && (p in {Holding, Releasing} <==> holds)
    && (blamed <==> !fetched && p in {Holding, Releasing, Finished})
  }

  /** The lock has one holder at most, and its holder is the last one blamed. */
  ghost predicate LockOrder<V, K, E>(ts: seq<Task<V, K, E>>, s: State<V, K, E>) {
    && Sized(ts, s)
    && (forall j :: 0 <= j < |ts| ==> LockRight(ts[j].outcome.Fetched?, s.phase[j], s.lock == Some(j), j in s.blame))
    && (s.lock.Some? ==> s.lock.value < |ts| && s.blame != [] && s.blame[|s.blame| - 1] == s.lock.value)
    && (forall i :: 0 <= i < |s.blame| ==> s.blame[i] < |ts|)
  }

  /** The first job to take the lock decides the error. */
  ghost predicate FirstBlamed<V, K, E>(ts: seq<Task<V, K, E>>, s: State<V, K, E>)
    requires LockOrder(ts, s)
  {
    if s.blame == [] || (|s.blame| == 1 && s.phase[s.blame[0]] == Holding) then s.error == None
    else ts[s.blame[0]].outcome.Broke? && s.error == Some(ts[s.blame[0]].outcome.error)
  }

  ghost predicate ErrorRight<V, K, E>(ts: seq<Task<V, K, E>>, s: State<V, K, E>) {
    LockOrder(ts, s) && FirstBlamed(ts, s)
  }

  ghost predicate Inv<V, K(!new), E>(ts: seq<Task<V, K, E>>, s: State<V, K, E>, slots: seq<Option<V>>,
                                     store: map<K, E>)
  {
    Staffed(ts, s) && Progress(ts, s) && SlotsRight(ts, s, slots) && StoreRight(ts, s, store) && ErrorRight(ts, s)
  }

  lemma InitStaffed<V, K, E>(ts: seq<Task<V, K, E>>, limit: int, slots: seq<Option<V>>, store: map<K, E>)
    requires forall j :: 0 <= j < |ts| ==> ts[j].slot < |slots|
    ensures Staffed(ts, Init(|ts|, limit, slots, store)) && Progress(ts, Init(|ts|, limit, slots, store))
  {
  }

  lemma InitInv<V, K(!new), E>(ts: seq<Task<V, K, E>>, limit: int, slots: seq<Option<V>>, store: map<K, E>)
    requires forall j :: 0 <= j < |ts| ==> ts[j].slot < |slots|
    ensures Inv(ts, Init(|ts|, limit, slots, store), slots, store)
  {
  }

  lemma TakeJob(next: nat, workers: seq<Worker>, phase: seq<Phase>, w: nat)
    requires Manned(next, workers, phase) && w < |workers| && workers[w] == Idle && next < |phase|
    ensures Manned(next + 1, workers[w := Busy(next)], phase[next := Taken])
  {
    var workers', phase' := workers[w := Busy(next)], phase[next := Taken];
    forall j | 0 <= j < |phase'| && InFlight(phase'[j]) ensures Busy(j) in workers' {
      if j == next {
        assert workers'[w] == Busy(next);
      } else {
        StaysManned(workers, w, Busy(next), j);
      }
    }
  }

  lemma StaysManned(workers: seq<Worker>, w: nat, now: Worker, j: nat)
    requires w < |workers| && workers[w] != Busy(j) && Busy(j) in workers
    ensures Busy(j) in workers[w := now]
  {
    var v :| 0 <= v < |workers| && workers[v] == Busy(j);
    assert workers[w := now][v] == Busy(j);
  }

  lemma LeavePool(next: nat, workers: seq<Worker>, phase: seq<Phase>, w: nat)
    requires Manned(next, workers, phase) && w < |workers| && workers[w] == Idle && next == |phase|
    ensures Manned(next, workers[w := Gone], phase)
  {
    forall j | 0 <= j < |phase| && InFlight(phase[j]) ensures Busy(j) in workers[w := Gone] {
      StaysManned(workers, w, Gone, j);
    }
  }

  lemma MoveOn(next: nat, workers: seq<Worker>, phase: seq<Phase>, j: nat, p: Phase)
    requires Manned(next, workers, phase) && j < |phase| && InFlight(phase[j]) && InFlight(p)
    ensures Manned(next, workers, phase[j := p])
  {
  }

  lemma EndJob(next: nat, workers: seq<Worker>, phase: seq<Phase>, w: nat, j: nat)
    requires Manned(next, workers, phase) && w < |workers| && workers[w] == Busy(j)
    ensures Manned(next, workers[w := Idle], phase[j := Finished])
  {
    var workers', phase' := workers[w := Idle], phase[j := Finished];
    forall i | 0 <= i < |phase'| && InFlight(phase'[i]) ensures Busy(i) in workers' {
      StaysManned(workers, w, Idle, i);
    }
    forall v | 0 <= v < |workers'| && workers'[v].Busy?
      ensures workers'[v].job < |phase'| && InFlight(phase'[workers'[v].job])
    {
      assert workers[v] != workers[w];
    }
  }

  lemma BusyStaffed<V, K, E>(ts: seq<Task<V, K, E>>, s: State<V, K, E>, w: nat, j: nat)
    requires Staffed(ts, s) && Progress(ts, s) && Enabled(ts, s, w) && s.workers[w] == Busy(j)
    ensures Staffed(ts, Step(ts, s, w))
  {
    assert JobRight(ts[j].outcome.Fetched?, s.phase[j], s.runs[j], j in s.stored);
    if s.phase[j] == Storing || s.phase[j] == Releasing {
      EndJob(s.next, s.workers, s.phase, w, j);
    } else {
      MoveOn(s.next, s.workers, s.phase, j, TaskStep(ts, s, w, j).phase[j]);
    }
  }

  lemma StepStaffed<V, K, E>(ts: seq<Task<V, K, E>>, s: State<V, K, E>, w: nat)
    requires Staffed(ts, s) && Progress(ts, s)
    ensures Staffed(ts, Step(ts, s, w))
  {
    if Enabled(ts, s, w) {
      match s.workers[w]
      case Idle =>
        if s.next < |ts| { TakeJob(s.next, s.workers, s.phase, w); } else { LeavePool(s.next, s.workers, s.phase, w); }
      case Busy(j) =>
        BusyStaffed(ts, s, w, j);
      case Gone =>
    }
  }

  /** The job a step moves, if it moves one. */
  function Moved<V, K, E>(s: State<V, K, E>, w: nat): nat
    requires w < |s.workers|
  {
    match s.workers[w] case Busy(j) => j case _ => s.next
  }

  lemma JobProgress<V, K, E>(ts: seq<Task<V, K, E>>, s: State<V, K, E>, w: nat, j: nat)
    requires Staffed(ts, s) && Progress(ts, s) && Enabled(ts, s, w) && j < |ts|
    ensures var s' := Step(ts, s, w);
      |s'.phase| == |s'.runs| == |ts| && JobRight(ts[j].outcome.Fetched?, s'.phase[j], s'.runs[j], j in s'.stored)
  {
    assert JobRight(ts[j].outcome.Fetched?, s.phase[j], s.runs[j], j in s.stored);
  }

  lemma StepProgress<V, K, E>(ts: seq<Task<V, K, E>>, s: State<V, K, E>, w: nat)
    requires Staffed(ts, s) && Progress(ts, s)
    ensures Progress(ts, Step(ts, s, w))
  {
    StepStaffed(ts, s, w);
    if Enabled(ts, s, w) {
      forall j | 0 <= j < |ts| { JobProgress(ts, s, w, j); }
    }
  }

  lemma JobSlot<V, K, E>(ts: seq<Task<V, K, E>>, s: State<V, K, E>, w: nat, slots: seq<Option<V>>, j: nat)
    requires Separate(ts) && Staffed(ts, s) && Progress(ts, s) && SlotsRight(ts, s, slots) && Enabled(ts, s, w) &&
      j < |ts|
    ensures var s' := Step(ts, s, w);
      |s'.phase| == |ts| && |s'.slots| == |slots|
      && SlotRight(ts[j].outcome, s'.phase[j], s'.slots[ts[j].slot], slots[ts[j].slot])
  {
    var m := Moved(s, w);
    assert SlotRight(ts[j].outcome, s.phase[j], s.slots[ts[j].slot], slots[ts[j].slot]);
    assert JobRight(ts[j].outcome.Fetched?, s.phase[j], s.runs[j], j in s.stored);
    if j != m { assert m < |ts| ==> ts[j].slot != ts[m].slot; }
  }

  lemma StepSlots<V, K, E>(ts: seq<Task<V, K, E>>, s: State<V, K, E>, w: nat, slots: seq<Option<V>>)
    requires Separate(ts) && Staffed(ts, s) && Progress(ts, s) && SlotsRight(ts, s, slots)
    ensures SlotsRight(ts, Step(ts, s, w), slots)
  {
    StepStaffed(ts, s, w);
    if Enabled(ts, s, w) {
      forall j | 0 <= j < |ts| { JobSlot(ts, s, w, slots, j); }
    }
  }

  /** Only the put changes the store. */
  lemma StoreUntouched<V, K, E>(ts: seq<Task<V, K, E>>, s: State<V, K, E>, w: nat)
    requires Sized(ts, s)
    requires !Enabled(ts, s, w) || !s.workers[w].Busy? || s.phase[s.workers[w].job] != Storing
    ensures Step(ts, s, w).store == s.store && Step(ts, s, w).stored == s.stored
  {
  }

  lemma StoreStaysRight<V, K(!new), E>(ts: seq<Task<V, K, E>>, s: State<V, K, E>, s': State<V, K, E>, store: map<K, E>)
    requires StoreRight(ts, s, store) && Sized(ts, s') && s'.store == s.store && s'.stored == s.stored
    ensures StoreRight(ts, s', store)
  {
  }

  lemma StepStore<V, K(!new), E>(ts: seq<Task<V, K, E>>, s: State<V, K, E>, w: nat, store: map<K, E>)
    requires Separate(ts) && Staffed(ts, s) && Progress(ts, s) && StoreRight(ts, s, store)
    ensures StoreRight(ts, Step(ts, s, w), store)
  {
    if Enabled(ts, s, w) && s.workers[w].Busy? && s.phase[s.workers[w].job] == Storing {
      PutOne(ts, s, w, s.workers[w].job, store);
    } else {
      StepStaffed(ts, s, w);
      StoreUntouched(ts, s, w);
      StoreStaysRight(ts, s, Step(ts, s, w), store);
    }
  }

  lemma PutOne<V, K(!new), E>(ts: seq<Task<V, K, E>>, s: State<V, K, E>, w: nat, j: nat, store: map<K, E>)
    requires Separate(ts) && Staffed(ts, s) && Progress(ts, s) && StoreRight(ts, s, store)
    requires w < |s.workers| && s.workers[w] == Busy(j) && s.phase[j] == Storing
    ensures StoreRight(ts, TaskStep(ts, s, w, j), store)
  {
    var s' := TaskStep(ts, s, w, j);
    assert JobRight(ts[j].outcome.Fetched?, s.phase[j], s.runs[j], j in s.stored);
    forall i | 0 <= i < |ts| ensures Put(ts, s'.stored, i) <==> Put(ts, s.stored, i) || (i == j && !ts[j].refused) {
    }
    forall i | 0 <= i < |ts| && Put(ts, s'.stored, i)
      ensures ts[i].key in s'.store && s'.store[ts[i].key] == ts[i].entry
    {
      if i != j { assert ts[i].key != ts[j].key; }
    }
    forall k | forall i :: 0 <= i < |ts| && Put(ts, s'.stored, i) ==> ts[i].key != k
      ensures (k in s'.store <==> k in store) && (k in store ==> s'.store[k] == store[k])
    {
      assert Put(ts, s'.stored, j) ==> ts[j].key != k;
      assert forall i :: 0 <= i < |ts| && Put(ts, s.stored, i) ==> Put(ts, s'.stored, i);
    }
  }

  lemma JobLock<V, K, E>(ts: seq<Task<V, K, E>>, s: State<V, K, E>, w: nat, j: nat)
    requires Staffed(ts, s) && Progress(ts, s) && LockOrder(ts, s) && Enabled(ts, s, w) && j < |ts|
    ensures var s' := Step(ts, s, w);
      |s'.phase| == |ts| && LockRight(ts[j].outcome.Fetched?, s'.phase[j], s'.lock == Some(j), j in s'.blame)
  {
    var m := Moved(s, w);
    assert LockRight(ts[j].outcome.Fetched?, s.phase[j], s.lock == Some(j), j in s.blame);
    assert JobRight(ts[j].outcome.Fetched?, s.phase[j], s.runs[j], j in s.stored);
    assert m < |ts| ==> LockRight(ts[m].outcome.Fetched?, s.phase[m], s.lock == Some(m), m in s.blame);
  }

  lemma StepLockHolder<V, K, E>(ts: seq<Task<V, K, E>>, s: State<V, K, E>, w: nat)
    requires Staffed(ts, s) && Progress(ts, s) && LockOrder(ts, s) && Enabled(ts, s, w)
    ensures var s' := Step(ts, s, w);
      && (s'.lock.Some? ==> s'.lock.value < |ts| && s'.blame != [] && s'.blame[|s'.blame| - 1] == s'.lock.value)
      && (forall i :: 0 <= i < |s'.blame| ==> s'.blame[i] < |ts|)
  {
  }

  lemma StepLock<V, K, E>(ts: seq<Task<V, K, E>>, s: State<V, K, E>, w: nat)
    requires Staffed(ts, s) && Progress(ts, s) && LockOrder(ts, s)
    ensures LockOrder(ts, Step(ts, s, w))
  {
    StepStaffed(ts, s, w);
    if Enabled(ts, s, w) {
      StepLockHolder(ts, s, w);
      forall j | 0 <= j < |ts| { JobLock(ts, s, w, j); }
    }
  }

  lemma StepError<V, K, E>(ts: seq<Task<V, K, E>>, s: State<V, K, E>, w: nat)
    requires Staffed(ts, s) && Progress(ts, s) && ErrorRight(ts, s)
    ensures ErrorRight(ts, Step(ts, s, w))
  {
    StepLock(ts, s, w);
    if Enabled(ts, s, w) {
      StepBlame(ts, s, w);
    }
  }

  lemma StepBlame<V, K, E>(ts: seq<Task<V, K, E>>, s: State<V, K, E>, w: nat)
    requires Staffed(ts, s) && Progress(ts, s) && ErrorRight(ts, s) && Enabled(ts, s, w) &&
      LockOrder(ts, Step(ts, s, w))
    ensures FirstBlamed(ts, Step(ts, s, w))
  {
    var m := Moved(s, w);
    if m < |ts| {
      assert LockRight(ts[m].outcome.Fetched?, s.phase[m], s.lock == Some(m), m in s.blame);
      assert JobRight(ts[m].outcome.Fetched?, s.phase[m], s.runs[m], m in s.stored);
    }
    if s.blame != [] {
      var f := s.blame[0];
      assert f in s.blame;
      assert LockRight(ts[f].outcome.Fetched?, s.phase[f], s.lock == Some(f), f in s.blame);
    }
  }

  lemma StepInv<V, K(!new), E>(ts: seq<Task<V, K, E>>, s: State<V, K, E>, w: nat, slots: seq<Option<V>>,
                               store: map<K, E>)
    requires Separate(ts) && Inv(ts, s, slots, store)
    ensures Inv(ts, Step(ts, s, w), slots, store)
  {
    StepStaffed(ts, s, w);
    StepProgress(ts, s, w);
    StepSlots(ts, s, w, slots);
    StepStore(ts, s, w, store);
    StepError(ts, s, w);
  }

  // ---- termination -----------------------------------------------------------------

  function PhaseWork(p: Phase): nat {
    match p
    case Queued => 6 case Taken => 5 case Writing => 4 case Storing => 3
    case Waiting => 4 case Holding => 3 case Releasing => 2 case Finished => 0
  }

  function JobWork(phase: seq<Phase>): nat {
    if phase == [] then 0 else JobWork(phase[..|phase| - 1]) + PhaseWork(phase[|phase| - 1])
  }

  function WorkerWork(workers: seq<Worker>): nat {
    if workers == [] then 0
    else WorkerWork(workers[..|workers| - 1]) + if workers[|workers| - 1].Gone? then 0 else 1
  }

  /** The number of moves still possible. */
  function Work<V, K, E>(s: State<V, K, E>): nat {
    JobWork(s.phase) + WorkerWork(s.workers)
  }

  lemma {:induction false} JobWorkUpdate(phase: seq<Phase>, j: nat, p: Phase)
    requires j < |phase|
    ensures JobWork(phase[j := p]) == JobWork(phase) - PhaseWork(phase[j]) + PhaseWork(p)
  {
    var n := |phase| - 1;
    if j < n {
      JobWorkUpdate(phase[..n], j, p);
      assert phase[j := p][..n] == phase[..n][j := p];
    } else {
      assert phase[j := p][..n] == phase[..n];
    }
  }

  lemma {:induction false} WorkerWorkUpdate(workers: seq<Worker>, w: nat, x: Worker)
    requires w < |workers|
    ensures WorkerWork(workers[w := x]) ==
      WorkerWork(workers) - (if workers[w].Gone? then 0 else 1) + (if x.Gone? then 0 else 1)
  {
    var n := |workers| - 1;
    if w < n {
      WorkerWorkUpdate(workers[..n], w, x);
      assert workers[w := x][..n] == workers[..n][w := x];
    } else {
      assert workers[w := x][..n] == workers[..n];
    }
  }

  lemma MoveShape<V, K, E>(ts: seq<Task<V, K, E>>, s: State<V, K, E>, w: nat)
    requires Staffed(ts, s) && Progress(ts, s) && Enabled(ts, s, w)
    ensures var m, s' := Moved(s, w), Step(ts, s, w);
      && |s'.workers| == |s.workers| && s'.workers == s.workers[w := s'.workers[w]] && !s.workers[w].Gone?
      && (if m == |ts| then s'.phase == s.phase && s'.workers[w].Gone?
          else m < |ts| == |s'.phase| && s'.phase == s.phase[m := s'.phase[m]]
               && PhaseWork(s'.phase[m]) < PhaseWork(s.phase[m]))
  {
    var m := Moved(s, w);
    if m < |ts| {
      assert JobRight(ts[m].outcome.Fetched?, s.phase[m], s.runs[m], m in s.stored);
    }
  }

  /** Every move uses up work. */
  lemma MovesUseWork<V, K, E>(ts: seq<Task<V, K, E>>, s: State<V, K, E>, w: nat)
    requires Staffed(ts, s) && Progress(ts, s) && Enabled(ts, s, w)
    ensures Work(Step(ts, s, w)) < Work(s)
  {
    var m, s' := Moved(s, w), Step(ts, s, w);
    MoveShape(ts, s, w);
    WorkerWorkUpdate(s.workers, w, s'.workers[w]);
    if m < |ts| {
      JobWorkUpdate(s.phase, m, s'.phase[m]);
    }
  }

  predicate AllGone<V, K, E>(s: State<V, K, E>) {
    forall w :: 0 <= w < |s.workers| ==> s.workers[w].Gone?
  }

  /** No deadlock: while a worker is left, some worker can move. */
  lemma SomeoneCanMove<V, K(!new), E>(ts: seq<Task<V, K, E>>, s: State<V, K, E>) returns (w: nat)
    requires Staffed(ts, s) && Progress(ts, s) && LockOrder(ts, s) && !AllGone(s)
    ensures Enabled(ts, s, w)
  {
    w :| 0 <= w < |s.workers| && !s.workers[w].Gone?;
    if !Enabled(ts, s, w) {
      var h := s.lock.value;
      assert LockRight(ts[h].outcome.Fetched?, s.phase[h], s.lock == Some(h), h in s.blame);
      assert Busy(h) in s.workers;
      w :| 0 <= w < |s.workers| && s.workers[w] == Busy(h);
    }
  }

  // ---- all schedules -----------------------------------------------------------------

  /** Runs a schedule: the workers named, one after the other, make a step if they can. */
  function Exec<V, K, E>(ts: seq<Task<V, K, E>>, s: State<V, K, E>, schedule: seq<nat>): (r: State<V, K, E>)
    requires Staffed(ts, s) && Progress(ts, s)
    ensures Staffed(ts, r) && Progress(ts, r)
    decreases |schedule|
  {
    if schedule == [] then s
    else
      StepStaffed(ts, s, schedule[0]);
      StepProgress(ts, s, schedule[0]);
      Exec(ts, Step(ts, s, schedule[0]), schedule[1..])
  }

  lemma {:induction false} ExecInv<V, K(!new), E>(ts: seq<Task<V, K, E>>, s: State<V, K, E>, schedule: seq<nat>,
                                                  slots: seq<Option<V>>, store: map<K, E>)
    requires Separate(ts) && Inv(ts, s, slots, store)
    ensures Inv(ts, Exec(ts, s, schedule), slots, store)
    decreases |schedule|
  {
    if schedule != [] {
      StepInv(ts, s, schedule[0], slots, store);
      ExecInv(ts, Step(ts, s, schedule[0]), schedule[1..], slots, store);
    }
  }

  lemma {:induction false} ExecWorkers<V, K, E>(ts: seq<Task<V, K, E>>, s: State<V, K, E>, schedule: seq<nat>)
    requires Staffed(ts, s) && Progress(ts, s)
    ensures |Exec(ts, s, schedule).workers| == |s.workers|
    decreases |schedule|
  {
    if schedule != [] {
      StepStaffed(ts, s, schedule[0]);
      StepProgress(ts, s, schedule[0]);
      ExecWorkers(ts, Step(ts, s, schedule[0]), schedule[1..]);
    }
  }

  /** The pool after a schedule, from the start. */
  function PoolAfter<V, K, E>(ts: seq<Task<V, K, E>>, limit: int, schedule: seq<nat>, slots: seq<Option<V>>,
                              store: map<K, E>)
    : State<V, K, E>
    requires forall j :: 0 <= j < |ts| ==> ts[j].slot < |slots|
  {
    InitStaffed(ts, limit, slots, store);
    Exec(ts, Init(|ts|, limit, slots, store), schedule)
  }

  /** How many of the steps a schedule names are moves. */
  function Moves<V, K, E>(ts: seq<Task<V, K, E>>, s: State<V, K, E>, schedule: seq<nat>): nat
    requires Staffed(ts, s) && Progress(ts, s)
    decreases |schedule|
  {
    if schedule == [] then 0
    else
      StepStaffed(ts, s, schedule[0]);
      StepProgress(ts, s, schedule[0]);
      (if Enabled(ts, s, schedule[0]) then 1 else 0) + Moves(ts, Step(ts, s, schedule[0]), schedule[1..])
  }

  lemma {:induction false} MovesWithinWork<V, K, E>(ts: seq<Task<V, K, E>>, s: State<V, K, E>, schedule: seq<nat>)
    requires Staffed(ts, s) && Progress(ts, s)
    ensures Moves(ts, s, schedule) <= Work(s)
    decreases |schedule|
  {
    if schedule != [] {
      StepStaffed(ts, s, schedule[0]);
      StepProgress(ts, s, schedule[0]);
      MovesWithinWork(ts, Step(ts, s, schedule[0]), schedule[1..]);
      if Enabled(ts, s, schedule[0]) {
        MovesUseWork(ts, s, schedule[0]);
      }
    }
  }

  lemma {:induction false} QueuedWork(n: nat)
    ensures JobWork(seq(n, _ => Queued)) == 6 * n
  {
    if n > 0 {
      QueuedWork(n - 1);
      assert seq(n, _ => Queued)[..n - 1] == seq(n - 1, _ => Queued);
    }
  }

  lemma {:induction false} IdleWork(n: nat)
    ensures WorkerWork(seq(n, _ => Idle)) == n
  {
    if n > 0 {
      IdleWork(n - 1);
      assert seq(n, _ => Idle)[..n - 1] == seq(n - 1, _ => Idle);
    }
  }

  /** The moves of a schedule, from the start. */
  function PoolMoves<V, K, E>(ts: seq<Task<V, K, E>>, limit: int, schedule: seq<nat>, slots: seq<Option<V>>,
                              store: map<K, E>): nat
    requires forall j :: 0 <= j < |ts| ==> ts[j].slot < |slots|
  {
    InitStaffed(ts, limit, slots, store);
    Moves(ts, Init(|ts|, limit, slots, store), schedule)
  }

  /** Every run ends: no schedule makes more than six moves per job and one per worker. */
  lemma EveryRunEnds<V, K, E>(ts: seq<Task<V, K, E>>, limit: int, schedule: seq<nat>, slots: seq<Option<V>>,
                              store: map<K, E>)
    requires forall j :: 0 <= j < |ts| ==> ts[j].slot < |slots|
    ensures PoolMoves(ts, limit, schedule, slots, store) <= 6 * |ts| + WorkerCount(|ts|, limit)
  {
    InitStaffed(ts, limit, slots, store);
    var s := Init(|ts|, limit, slots, store);
    MovesWithinWork(ts, s, schedule);
    QueuedWork(|ts|);
    IdleWork(WorkerCount(|ts|, limit));
    assert s.phase == seq(|ts|, _ => Queued) && s.workers == seq(WorkerCount(|ts|, limit), _ => Idle);
  }

  /** The slots after a complete run, whatever its schedule. */
  ghost predicate FinalSlots<V, K, E>(ts: seq<Task<V, K, E>>, before: seq<Option<V>>, after: seq<Option<V>>) {
    && |after| == |before|
    && (forall j :: 0 <= j < |ts| ==> ts[j].slot < |before|)
    && (forall j :: 0 <= j < |ts| ==>
          after[ts[j].slot] == if ts[j].outcome.Fetched? then Some(ts[j].outcome.value) else before[ts[j].slot])
    && (forall i :: 0 <= i < |before| && (forall j :: 0 <= j < |ts| ==> ts[j].slot != i) ==> after[i] == before[i])
  }

  /** The store after a complete run: each successful job's entry is put, unless refused. */
  ghost predicate FinalStore<V, K(!new), E>(ts: seq<Task<V, K, E>>, before: map<K, E>, after: map<K, E>) {
    && (forall j :: 0 <= j < |ts| && ts[j].outcome.Fetched? && !ts[j].refused ==>
          ts[j].key in after && after[ts[j].key] == ts[j].entry)
    && (forall k :: (forall j :: 0 <= j < |ts| && ts[j].outcome.Fetched? && !ts[j].refused ==> ts[j].key != k) ==>
          (k in after <==> k in before) && (k in before ==> after[k] == before[k]))
  }

  /** The recorded error: none if every job succeeded, otherwise that of the first job to take the lock. */
  ghost predicate FinalError<V, K, E>(ts: seq<Task<V, K, E>>, s: State<V, K, E>) {
    && (s.error == None <==> forall j :: 0 <= j < |ts| ==> ts[j].outcome.Fetched?)
    && (s.error.Some? ==> s.blame != [] && s.blame[0] < |ts| && ts[s.blame[0]].outcome == Broke(s.error.value))
    && (forall j :: 0 <= j < |ts| ==> (j in s.blame <==> ts[j].outcome.Broke?))
  }

  ghost predicate Final<V, K(!new), E>(ts: seq<Task<V, K, E>>, s: State<V, K, E>, slots: seq<Option<V>>,
                                       store: map<K, E>)
  {
    && s.runs == seq(|ts|, _ => 1)
    && FinalSlots(ts, slots, s.slots) && FinalStore(ts, store, s.store) && FinalError(ts, s)
  }

  lemma Completed<V, K(!new), E>(ts: seq<Task<V, K, E>>, s: State<V, K, E>)
    requires Staffed(ts, s) && Progress(ts, s) && AllGone(s) && |s.workers| >= 1
    ensures forall j :: 0 <= j < |ts| ==>
      s.phase[j] == Finished && s.runs[j] == 1 && (j in s.stored <==> ts[j].outcome.Fetched?)
  {
    assert s.workers[0].Gone?;
    forall j | 0 <= j < |ts|
      ensures s.phase[j] == Finished && s.runs[j] == 1 && (j in s.stored <==> ts[j].outcome.Fetched?)
    {
      assert JobRight(ts[j].outcome.Fetched?, s.phase[j], s.runs[j], j in s.stored);
      assert Busy(j) !in s.workers;
    }
  }

  lemma CompletedFinal<V, K(!new), E>(ts: seq<Task<V, K, E>>, s: State<V, K, E>, slots: seq<Option<V>>,
                                      store: map<K, E>)
    requires Inv(ts, s, slots, store) && AllGone(s) && |s.workers| >= 1
    ensures Final(ts, s, slots, store)
  {
    Completed(ts, s);
    assert s.runs == seq(|ts|, _ => 1);
    CompletedSlots(ts, s, slots);
    CompletedStore(ts, s, store);
    CompletedError(ts, s);
  }

  lemma CompletedSlots<V, K(!new), E>(ts: seq<Task<V, K, E>>, s: State<V, K, E>, slots: seq<Option<V>>)
    requires SlotsRight(ts, s, slots) && forall j :: 0 <= j < |ts| ==> s.phase[j] == Finished
    ensures FinalSlots(ts, slots, s.slots)
  {
    forall j | 0 <= j < |ts|
      ensures ts[j].slot < |slots|
        && s.slots[ts[j].slot] == if ts[j].outcome.Fetched? then Some(ts[j].outcome.value) else slots[ts[j].slot]
    {
      assert SlotRight(ts[j].outcome, s.phase[j], s.slots[ts[j].slot], slots[ts[j].slot]);
    }
  }

  lemma CompletedStore<V, K(!new), E>(ts: seq<Task<V, K, E>>, s: State<V, K, E>, store: map<K, E>)
    requires StoreRight(ts, s, store) && forall j :: 0 <= j < |ts| ==> (j in s.stored <==> ts[j].outcome.Fetched?)
    ensures FinalStore(ts, store, s.store)
  {
    forall j | 0 <= j < |ts| ensures Put(ts, s.stored, j) <==> ts[j].outcome.Fetched? && !ts[j].refused {
    }
  }

  lemma CompletedError<V, K(!new), E>(ts: seq<Task<V, K, E>>, s: State<V, K, E>)
    requires ErrorRight(ts, s) && forall j :: 0 <= j < |ts| ==> s.phase[j] == Finished
    ensures FinalError(ts, s)
  {
    forall j | 0 <= j < |ts| ensures j in s.blame <==> ts[j].outcome.Broke? {
      assert LockRight(ts[j].outcome.Fetched?, s.phase[j], s.lock == Some(j), j in s.blame);
    }
    assert s.blame != [] ==> s.blame[0] in s.blame;
    if s.blame == [] {
      assert forall j :: 0 <= j < |ts| ==> j !in s.blame;
    }
  }

  lemma PoolInv<V, K(!new), E>(ts: seq<Task<V, K, E>>, limit: int, schedule: seq<nat>, slots: seq<Option<V>>,
                               store: map<K, E>)
    requires Separate(ts) && forall j :: 0 <= j < |ts| ==> ts[j].slot < |slots|
    ensures var s := PoolAfter(ts, limit, schedule, slots, store);
      Inv(ts, s, slots, store) && |s.workers| == WorkerCount(|ts|, limit)
  {
    InitInv(ts, limit, slots, store);
    ExecInv(ts, Init(|ts|, limit, slots, store), schedule, slots, store);
    ExecWorkers(ts, Init(|ts|, limit, slots, store), schedule);
  }

  /**
   * Schedule independence: every schedule that runs the pool to its end leaves the same
   * slots and store, has fetched each job exactly once, and has recorded an error exactly
   * when some job failed, namely that of the first job to take the lock.
   */
  lemma EveryScheduleEndsAlike<V, K(!new), E>(ts: seq<Task<V, K, E>>, limit: int, schedule: seq<nat>,
                                              slots: seq<Option<V>>, store: map<K, E>)
    requires Separate(ts) && ts != [] && forall j :: 0 <= j < |ts| ==> ts[j].slot < |slots|
    ensures var s := PoolAfter(ts, limit, schedule, slots, store);
      AllGone(s) ==> Final(ts, s, slots, store)
  {
    var s := PoolAfter(ts, limit, schedule, slots, store);
    PoolInv(ts, limit, schedule, slots, store);
    if AllGone(s) {
      CompletedFinal(ts, s, slots, store);
    }
  }

  /** At every point of every schedule at most `limit` jobs are in flight. */
  lemma AtMostLimitInFlight<V, K(!new), E>(ts: seq<Task<V, K, E>>, limit: int, schedule: seq<nat>,
                                           slots: seq<Option<V>>, store: map<K, E>, jobs: set<nat>)
    requires Separate(ts) && forall j :: 0 <= j < |ts| ==> ts[j].slot < |slots|
    requires var s := PoolAfter(ts, limit, schedule, slots, store);
      |s.phase| == |ts| && forall j :: j in jobs ==> j < |ts| && InFlight(s.phase[j])
    ensures |jobs| <= WorkerCount(|ts|, limit)
    ensures limit > 0 ==> |jobs| <= limit
  {
    var s := PoolAfter(ts, limit, schedule, slots, store);
    PoolInv(ts, limit, schedule, slots, store);
    forall j | j in jobs ensures Busy(j) in s.workers {
      assert InFlight(s.phase[j]);
    }
    OneWorkerEach(s.workers, jobs);
  }

  /** The first `m` of `k` workers have taken a job each. */
  ghost predicate Started<V, K, E>(s: State<V, K, E>, m: nat, k: nat) {
    && s.next == m <= k == |s.workers| <= |s.phase|
    && (forall w :: 0 <= w < m ==> s.workers[w] == Busy(w) && s.phase[w] == Taken)
    && forall w :: m <= w < k ==> s.workers[w] == Idle
  }

  lemma {:induction false} StartRest<V, K, E>(ts: seq<Task<V, K, E>>, s: State<V, K, E>, m: nat, k: nat)
    returns (schedule: seq<nat>)
    requires Staffed(ts, s) && Progress(ts, s) && Started(s, m, k)
    ensures Started(Exec(ts, s, schedule), k, k)
    decreases k - m
  {
    if m == k {
      schedule := [];
    } else {
      StepStaffed(ts, s, m);
      StepProgress(ts, s, m);
      var rest := StartRest(ts, Step(ts, s, m), m + 1, k);
      schedule := [m] + rest;
    }
  }

  /**
   * The limit is used: under some schedule that many jobs, or all of them if there are fewer or there
   * is no limit, are in flight at once.
   */
  lemma LimitIsReached<V, K, E>(ts: seq<Task<V, K, E>>, limit: int, slots: seq<Option<V>>, store: map<K, E>)
    returns (schedule: seq<nat>)
    requires forall j :: 0 <= j < |ts| ==> ts[j].slot < |slots|
    ensures var s := PoolAfter(ts, limit, schedule, slots, store);
      |s.phase| == |ts| &&
      forall j :: 0 <= j < |ts| && (limit <= 0 || j < limit) ==> InFlight(s.phase[j])
  {
    InitStaffed(ts, limit, slots, store);
    schedule := StartRest(ts, Init(|ts|, limit, slots, store), 0, WorkerCount(|ts|, limit));
  }

  lemma {:induction false} OneWorkerEach(workers: seq<Worker>, jobs: set<nat>)
    requires forall j :: j in jobs ==> Busy(j) in workers
    ensures |jobs| <= |workers|
  {
    if workers == [] {
      assert jobs == {};
    } else {
      var n := |workers| - 1;
      InitLast(workers);
      var rest := if workers[n].Busy? then jobs - {workers[n].job} else jobs;
      OneWorkerEach(workers[..n], rest);
    }
  }

  /** The scheduler: any worker that can move may be next. */
  method PickWorker<V, K(==,!new), E>(ts: seq<Task<V, K, E>>, s: State<V, K, E>) returns (w: nat)
    requires Staffed(ts, s) && Progress(ts, s) && LockOrder(ts, s) && !AllGone(s)
    ensures Enabled(ts, s, w)
  {
    ghost var v := SomeoneCanMove(ts, s);
    w :| w < |s.workers| && Enabled(ts, s, w);
  }

  lemma MoveKeepsInv<V, K(!new), E>(ts: seq<Task<V, K, E>>, s: State<V, K, E>, w: nat, slots: seq<Option<V>>,
                                    store: map<K, E>)
    requires Separate(ts) && Inv(ts, s, slots, store) && Enabled(ts, s, w)
    ensures Inv(ts, Step(ts, s, w), slots, store)
    ensures |Step(ts, s, w).workers| == |s.workers| && Work(Step(ts, s, w)) < Work(s)
  {
    MovesUseWork(ts, s, w);
    MoveShape(ts, s, w);
    StepInv(ts, s, w, slots, store);
  }

  /** `runWithConcurrency` with that task body, under a scheduler that may pick any worker able to move. */
  method RunWithConcurrency<V, K(==,!new), E>(ts: seq<Task<V, K, E>>, limit: int, slots: seq<Option<V>>,
                                              store: map<K, E>)
    returns (s: State<V, K, E>)
    requires Separate(ts) && forall j :: 0 <= j < |ts| ==> ts[j].slot < |slots|
    ensures Final(ts, s, slots, store)
  {
    s := Init(|ts|, limit, slots, store);
    InitInv(ts, limit, slots, store);
    if |ts| == 0 {
      return;
    }
    while !AllGone(s)
      invariant Inv(ts, s, slots, store) && |s.workers| >= 1
      decreases Work(s)
    {
      var w := PickWorker(ts, s);
      MoveKeepsInv(ts, s, w, slots, store);
      s := Step(ts, s, w);
    }
    CompletedFinal(ts, s, slots, store);
  }
}
