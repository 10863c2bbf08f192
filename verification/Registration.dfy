/**
 * Registration and heartbeats: `maintainRegistration`, `registerUntilAccepted` (serve.go),
 * `RegisterSelf` (context.go).
 */
module Registration {
  import opened Base

  const MAX_BACKOFF := 30

  /** What comes of one RegisterPlugin call, and of one Heartbeat call. */
  datatype RegisterReply = Unreachable | Response(success: bool)
  datatype BeatReply = BeatFailed | BeatOk(interval: int, reRegister: bool)

  /** What the outside does at one point of a run: each step looks at what concerns it. */
  datatype Moment = Moment(register: RegisterReply, stop: bool, beat: BeatReply)

  /** The interval variable of the environment: absent, or present with its reading as a number. */
  datatype Override = Unset | Present(seconds: Option<int>)

  datatype Action = Tried(accepted: bool) | Waited(seconds: int) | Beat(interval: int, reply: BeatReply) | Stopped

  datatype Phase = Registering | BackingOff | Beating | Ended

  datatype State = State(phase: Phase, interval: int, failures: nat, backoff: int, attempt: nat, log: seq<Action>)

  /** The interval a run starts with. */
  function StartInterval(env: Override): int {
    if env.Present? && env.seconds.Some? && env.seconds.value > 0 then env.seconds.value else 30
  }

  function Initial(env: Override): State {
    State(Registering, StartInterval(env), 0, 2, 1, [])
  }

  /** `RegisterSelf` succeeds only on a reply that says so. */
  method RegisterSelf(reply: RegisterReply) returns (accepted: bool)
    ensures accepted <==> reply == Response(true)
  {
    if reply.Unreachable? {
      return false;
    }
    if !reply.success {
      return false;
    }
    return true;
  }

  function Adopted(env: Override, interval: int, advised: int): int {
    if env.Unset? && advised > 0 then advised else interval
  }

  /** One step of a run. */
  function Step(env: Override, s: State, m: Moment): State {
    match s.phase
    case Registering =>
      if m.register == Response(true) then s.(phase := Beating, failures := 0, log := s.log + [Tried(true)])
      else s.(phase := BackingOff, log := s.log + [Tried(false)])
    case BackingOff =>
      if m.stop then s.(phase := Ended, log := s.log + [Stopped])
      else
        s.(phase := Registering, attempt := s.attempt + 1, log := s.log + [Waited(s.backoff)],
           backoff := if s.backoff * 2 > MAX_BACKOFF then MAX_BACKOFF else s.backoff * 2)
    case Beating =>
      if m.stop then s.(phase := Ended, log := s.log + [Stopped])
      else
        var t := s.(log := s.log + [Beat(s.interval, m.beat)]);
        (match m.beat
         case BeatFailed => t.(failures := s.failures + 1)
         case BeatOk(advised, reRegister) =>
           var u := t.(interval := Adopted(env, s.interval, advised));
           if reRegister then u.(phase := Registering, backoff := 2, attempt := 1) else u.(failures := 0))
    case Ended => s
  }

  function Exec(env: Override, script: seq<Moment>): State {
    if script == [] then Initial(env) else Step(env, Exec(env, script[..|script| - 1]), script[|script| - 1])
  }

  // ---- the loops ---------------------------------------------------------------------------

  lemma OneStepMore(env: Override, script: seq<Moment>, pos: nat)
    requires pos < |script|
    ensures Exec(env, script[..pos + 1]) == Step(env, Exec(env, script[..pos]), script[pos])
  {
    assert script[..pos + 1][..pos] == script[..pos];
  }

  lemma {:induction false} EndedStays(env: Override, script: seq<Moment>, pos: nat)
    requires pos <= |script| && Exec(env, script[..pos]).phase == Ended
    ensures Exec(env, script) == Exec(env, script[..pos])
  {
    if pos == |script| {
      assert script[..pos] == script;
    } else {
      var n := |script| - 1;
      assert script[..n][..pos] == script[..pos];
      EndedStays(env, script[..n], pos);
      assert Exec(env, script) == Step(env, Exec(env, script[..n]), script[n]);
    }
  }

  lemma RunIsOver(env: Override, script: seq<Moment>, pos: nat)
    requires pos <= |script| && (pos < |script| ==> Exec(env, script[..pos]).phase == Ended)
    ensures Exec(env, script) == Exec(env, script[..pos])
  {
    if pos == |script| {
      assert script[..pos] == script;
    } else {
      EndedStays(env, script, pos);
    }
  }

  /** `maintainRegistration`, followed for as long as the script goes. */
  method MaintainRegistration(env: Override, script: seq<Moment>) returns (s: State)
    ensures s == Exec(env, script)
  {
    var heartbeatInterval := 30;
    if env.Present? && env.seconds.Some? && env.seconds.value > 0 {
      heartbeatInterval := env.seconds.value;
    }
    var pos := 0;
    s, pos := RegisterUntilAccepted(env, script, 0, heartbeatInterval, 0, []);
    while pos < |script| && s.phase == Beating
      invariant pos <= |script|
      invariant s == Exec(env, script[..pos])
      invariant pos < |script| ==> s.phase == Beating || s.phase == Ended
      decreases |script| - pos
    {
      s := OnTick(env, script, pos, s);
      pos := pos + 1;
      if s.phase == Registering {
        s, pos := RegisterUntilAccepted(env, script, pos, s.interval, s.failures, s.log);
      }
    }
    RunIsOver(env, script, pos);
  }

  /** One turn of the heartbeat loop, up to a re-registration it may call for. */
  method OnTick(env: Override, script: seq<Moment>, pos: nat, before: State) returns (s: State)
    requires pos < |script| && before == Exec(env, script[..pos]) && before.phase == Beating
    ensures s == Exec(env, script[..pos + 1])
    ensures s.phase == Registering ==> s.backoff == 2 && s.attempt == 1
    ensures s.phase != BackingOff
  {
    OneStepMore(env, script, pos);
    var m := script[pos];
    var heartbeatInterval, consecutiveFailures := before.interval, before.failures;
    var envOverride := env.Present?;
    if m.stop {
      return before.(phase := Ended, log := before.log + [Stopped]);
    }
    var log := before.log + [Beat(heartbeatInterval, m.beat)];
    if m.beat.BeatFailed? {
      consecutiveFailures := consecutiveFailures + 1;
      return before.(failures := consecutiveFailures, log := log);
    }
    if !envOverride && m.beat.interval > 0 {
      if m.beat.interval != heartbeatInterval {
        heartbeatInterval := m.beat.interval;
      }
    }
    if m.beat.reRegister {
      return State(Registering, heartbeatInterval, consecutiveFailures, 2, 1, log);
    }
    consecutiveFailures := 0;
    s := before.(interval := heartbeatInterval, failures := consecutiveFailures, log := log);
  }

  /** `registerUntilAccepted`: try, then wait twice as long as before, up to the cap. */
  method RegisterUntilAccepted(env: Override, script: seq<Moment>, at: nat, interval: int, failures: nat,
                               log0: seq<Action>)
    returns (s: State, pos: nat)
    requires at <= |script|
    requires Exec(env, script[..at]) == State(Registering, interval, failures, 2, 1, log0)
    ensures at <= pos <= |script|
    ensures s == Exec(env, script[..pos])
    ensures pos < |script| ==> s.phase == Beating || s.phase == Ended
    ensures s.interval == interval && (s.phase == Beating ==> s.failures == 0)
  {
    var backoff, attempt := 2, 1;
    pos := at;
    s := State(Registering, interval, failures, backoff, attempt, log0);
    while pos < |script|
      invariant at <= pos <= |script|
      invariant s == Exec(env, script[..pos]) && s.phase == Registering && s.interval == interval
    {
      s := OnReply(env, script, pos, s);
      pos := pos + 1;
      if s.phase == Beating || pos == |script| {
        return;
      }
      s := OnWait(env, script, pos, s);
      pos := pos + 1;
      if s.phase == Ended {
        return;
      }
    }
  }

  /** One attempt to register. */
  method OnReply(env: Override, script: seq<Moment>, pos: nat, before: State) returns (s: State)
    requires pos < |script| && before == Exec(env, script[..pos]) && before.phase == Registering
    ensures s == Exec(env, script[..pos + 1])
    ensures s.interval == before.interval && (s.phase == BackingOff || (s.phase == Beating && s.failures == 0))
  {
    OneStepMore(env, script, pos);
    var m := script[pos];
    var accepted := RegisterSelf(m.register);
    var log := before.log + [Tried(accepted)];
    if accepted {
      return before.(phase := Beating, failures := 0, log := log);
    }
    s := before.(phase := BackingOff, log := log);
  }

  /** The wait after a failed attempt. */
  method OnWait(env: Override, script: seq<Moment>, pos: nat, before: State) returns (s: State)
    requires pos < |script| && before == Exec(env, script[..pos]) && before.phase == BackingOff
    ensures s == Exec(env, script[..pos + 1])
    ensures s.interval == before.interval && (s.phase == Ended || s.phase == Registering)
  {
    OneStepMore(env, script, pos);
    var m := script[pos];
    if m.stop {
      return before.(phase := Ended, log := before.log + [Stopped]);
    }
    var backoff, attempt := before.backoff, before.attempt;
    var log := before.log + [Waited(backoff)];
    attempt := attempt + 1;
    backoff := backoff * 2;
    if backoff > MAX_BACKOFF {
      backoff := MAX_BACKOFF;
    }
    s := State(Registering, before.interval, before.failures, backoff, attempt, log);
  }

  // ---- what a log says ----------------------------------------------------------------------

  /** Whether the engine holds a registration: the last successful one is not asked to be redone. */
  function Enrolled(log: seq<Action>): bool {
    if log == [] then false
    else
      match log[|log| - 1]
      case Tried(accepted) => accepted || Enrolled(log[..|log| - 1])
      case Beat(_, reply) => if reply.BeatOk? && reply.reRegister then false else Enrolled(log[..|log| - 1])
      case _ => Enrolled(log[..|log| - 1])
  }

  /** Failed heartbeats since the last good reply or successful registration. */
  function FailedBeats(log: seq<Action>): nat {
    if log == [] then 0
    else
      match log[|log| - 1]
      case Tried(accepted) => if accepted then 0 else FailedBeats(log[..|log| - 1])
      case Beat(_, reply) => if reply.BeatOk? then 0 else FailedBeats(log[..|log| - 1]) + 1
      case _ => FailedBeats(log[..|log| - 1])
  }

  /** Failed registrations since the last successful one or the last heartbeat. */
  function FailedTries(log: seq<Action>): nat {
    if log == [] then 0
    else
      match log[|log| - 1]
      case Tried(accepted) => if accepted then 0 else FailedTries(log[..|log| - 1]) + 1
      case Beat(_, _) => 0
      case _ => FailedTries(log[..|log| - 1])
  }

  /** Seconds waited between those registrations. */
  function WaitedFor(log: seq<Action>): int {
    if log == [] then 0
    else
      match log[|log| - 1]
      case Tried(accepted) => if accepted then 0 else WaitedFor(log[..|log| - 1])
      case Beat(_, _) => 0
      case Waited(seconds) => WaitedFor(log[..|log| - 1]) + seconds
      case Stopped => WaitedFor(log[..|log| - 1])
  }

  /** The last positive interval the engine recommended, or else the one given. */
  function LastAdvice(log: seq<Action>, start: int): int {
    if log == [] then start
    else
      match log[|log| - 1]
      case Beat(_, reply) => if reply.BeatOk? && reply.interval > 0 then reply.interval
        else LastAdvice(log[..|log| - 1], start)
      case _ => LastAdvice(log[..|log| - 1], start)
  }

  /** The interval in force: fixed if the environment sets it, else as last recommended. */
  function IntervalAfter(env: Override, log: seq<Action>): int {
    if env.Present? then StartInterval(env) else LastAdvice(log, StartInterval(env))
  }

  function Pow2(k: nat): int {
    if k == 0 then 1 else 2 * Pow2(k - 1)
  }

  /** The wait after the `k`-th failed registration in a row. */
  function Wait(k: nat): int {
    if Pow2(k) > MAX_BACKOFF then MAX_BACKOFF else Pow2(k)
  }

  function TotalWait(n: nat): int {
    if n == 0 then 0 else TotalWait(n - 1) + Wait(n)
  }

  /** What may come next after a log. */
  function PhaseAfter(log: seq<Action>): Phase {
    if log == [] then Registering
    else
      match log[|log| - 1]
      case Tried(accepted) => if accepted then Beating else BackingOff
      case Waited(_) => Registering
      case Beat(_, reply) => if reply.BeatOk? && reply.reRegister then Registering else Beating
      case Stopped => Ended
  }

  /** The rules of the protocol: heartbeats only while enrolled, tries and waits only while not, and by the clock. */
  predicate Allowed(env: Override, log: seq<Action>, next: Action) {
    match next
    case Tried(_) => PhaseAfter(log) == Registering && !Enrolled(log)
    case Waited(seconds) => PhaseAfter(log) == BackingOff && !Enrolled(log) && seconds == Wait(FailedTries(log))
    case Beat(interval, _) => PhaseAfter(log) == Beating && Enrolled(log) && interval == IntervalAfter(env, log) &&
      interval > 0
    case Stopped => PhaseAfter(log) == BackingOff || PhaseAfter(log) == Beating
  }

  predicate Lawful(env: Override, log: seq<Action>) {
    forall i :: 0 <= i < |log| ==> Allowed(env, log[..i], log[i])
  }

  /** The whole state is what the log says. */
  predicate Inv(env: Override, s: State) {
    Lawful(env, s.log) && Says(env, s)
  }

  predicate Says(env: Override, s: State) {
    && s.phase == PhaseAfter(s.log)
    && s.interval == IntervalAfter(env, s.log) > 0
    && (s.phase == Beating ==> Enrolled(s.log) && s.failures == FailedBeats(s.log))
    && (s.phase == Registering || s.phase == BackingOff ==> TryingInv(s))
  }

  predicate TryingInv(s: State) {
    var k := FailedTries(s.log);
    && !Enrolled(s.log)
    && (s.phase == BackingOff ==>
         k >= 1 && s.backoff == Wait(k) && s.attempt == k && WaitedFor(s.log) == TotalWait(k - 1))
    && (s.phase == Registering ==> s.backoff == Wait(k + 1) && s.attempt == k + 1 && WaitedFor(s.log) == TotalWait(k))
  }

  lemma LawfulSnoc(env: Override, log: seq<Action>, a: Action)
    requires Lawful(env, log) && Allowed(env, log, a)
    ensures Lawful(env, log + [a])
  {
    forall i | 0 <= i < |log| + 1 ensures Allowed(env, (log + [a])[..i], (log + [a])[i]) {
      if i < |log| {
        assert (log + [a])[..i] == log[..i];
      } else {
        assert (log + [a])[..i] == log;
      }
    }
  }

  /** The last action of a step. */
  lemma StepIsAllowed(env: Override, s: State, m: Moment) returns (a: Action)
    requires Says(env, s) && s.phase != Ended
    ensures Step(env, s, m).log == s.log + [a] && Allowed(env, s.log, a)
  {
    a := Step(env, s, m).log[|s.log|];
  }

  lemma StepSays(env: Override, s: State, m: Moment)
    requires Says(env, s) && s.phase != Ended
    ensures Says(env, Step(env, s, m))
  {
    match s.phase
    case Beating => BeatSays(env, s, m);
    case Registering => TrySays(env, s, m);
    case BackingOff => WaitSays(env, s, m);
  }

  lemma BeatSays(env: Override, s: State, m: Moment)
    requires Says(env, s) && s.phase == Beating
    ensures Says(env, Step(env, s, m))
  {
    var t := Step(env, s, m);
    assert t.log[..|t.log| - 1] == s.log;
  }

  lemma TrySays(env: Override, s: State, m: Moment)
    requires Says(env, s) && s.phase == Registering
    ensures Says(env, Step(env, s, m))
  {
    var t := Step(env, s, m);
    assert t.log[..|t.log| - 1] == s.log;
  }

  lemma WaitSays(env: Override, s: State, m: Moment)
    requires Says(env, s) && s.phase == BackingOff
    ensures Says(env, Step(env, s, m))
  {
    var t := Step(env, s, m);
    assert t.log[..|t.log| - 1] == s.log;
  }

  lemma StepKeepsInv(env: Override, s: State, m: Moment)
    requires Inv(env, s)
    ensures Inv(env, Step(env, s, m))
  {
    if s.phase != Ended {
      var a := StepIsAllowed(env, s, m);
      LawfulSnoc(env, s.log, a);
      StepSays(env, s, m);
      var t := Step(env, s, m);
      assert t.log == s.log + [a];
    }
  }

  /**
   * Safety over all runs: every log is lawful, and the counters always equal what the log says;
   * in particular no heartbeat is sent unless the last registration succeeded and was not
   * asked to be redone since.
   */
  lemma {:induction false} RunsAreSafe(env: Override, script: seq<Moment>)
    ensures Inv(env, Exec(env, script))
  {
    if script != [] {
      RunsAreSafe(env, script[..|script| - 1]);
      StepKeepsInv(env, Exec(env, script[..|script| - 1]), script[|script| - 1]);
    }
  }

  /**
   * The same, spelled out for a heartbeat: some earlier registration succeeded, and nothing in
   * between asked for another.
   */
  lemma HeartbeatsAreCovered(env: Override, script: seq<Moment>, i: nat) returns (r: nat)
    requires var log := Exec(env, script).log; i < |log| && log[i].Beat?
    ensures var log := Exec(env, script).log;
      && r < i && log[r] == Tried(true)
      && forall j :: r < j < i ==> log[j].Beat? && !(log[j].reply.BeatOk? && log[j].reply.reRegister)
  {
    RunsAreSafe(env, script);
    var log := Exec(env, script).log;
    assert Allowed(env, log[..i], log[i]);
    r := Covering(env, log, i);
  }

  lemma {:induction false} Covering(env: Override, log: seq<Action>, i: nat) returns (r: nat)
    requires i <= |log| && Lawful(env, log) && PhaseAfter(log[..i]) == Beating
    ensures r < i && log[r] == Tried(true)
    ensures forall j :: r < j < i ==> log[j].Beat? && !(log[j].reply.BeatOk? && log[j].reply.reRegister)
  {
    r := i - 1;
    if log[r] != Tried(true) {
      assert Allowed(env, log[..r], log[r]);
      r := Covering(env, log, i - 1);
    }
  }

  /** The engine recommends an interval. */
  predicate Advises(a: Action) {
    a.Beat? && a.reply.BeatOk? && a.reply.interval > 0
  }

  lemma {:induction false} NoAdvice(log: seq<Action>, start: int)
    requires forall j :: 0 <= j < |log| ==> !Advises(log[j])
    ensures LastAdvice(log, start) == start
  {
    if log != [] {
      NoAdvice(log[..|log| - 1], start);
    }
  }

  lemma {:induction false} LastAdviceAt(log: seq<Action>, start: int, j: nat)
    requires j < |log| && Advises(log[j]) && forall k :: j < k < |log| ==> !Advises(log[k])
    ensures LastAdvice(log, start) == log[j].reply.interval
  {
    if j < |log| - 1 {
      LastAdviceAt(log[..|log| - 1], start, j);
    }
  }

  /**
   * The interval of every heartbeat: the positive number in the environment if there is one; 30 if
   * the variable is set to anything else; otherwise 30 until the engine recommends a positive
   * number of seconds, and from then on the last one recommended.
   */
  lemma HeartbeatInterval(env: Override, script: seq<Moment>, i: nat)
    requires var log := Exec(env, script).log; i < |log| && log[i].Beat?
    ensures var log := Exec(env, script).log;
      match env
      case Present(Some(n)) => log[i].interval == if n > 0 then n else 30
      case Present(None) => log[i].interval == 30
      case Unset =>
        && ((forall j :: 0 <= j < i ==> !Advises(log[j])) ==> log[i].interval == 30)
        && forall j :: 0 <= j < i && Advises(log[j]) && (forall k :: j < k < i ==> !Advises(log[k])) ==>
             log[i].interval == log[j].reply.interval
  {
    RunsAreSafe(env, script);
    var log := Exec(env, script).log;
    assert Allowed(env, log[..i], log[i]);
    if env.Unset? {
      if forall j :: 0 <= j < i ==> !Advises(log[j]) {
        NoAdvice(log[..i], 30);
      }
      forall j | 0 <= j < i && Advises(log[j]) && (forall k :: j < k < i ==> !Advises(log[k]))
        ensures log[i].interval == log[j].reply.interval
      {
        LastAdviceAt(log[..i], 30, j);
      }
    }
  }

  lemma WaitDoubles(k: nat)
    ensures Wait(k + 1) == if 2 * Wait(k) > 30 then 30 else 2 * Wait(k)
  {
  }

  /** The waits of a run: two seconds after a first failure, then twice the wait before, but never above 30. */
  lemma WaitsDouble(env: Override, script: seq<Moment>, i: nat)
    requires var log := Exec(env, script).log; i < |log| && log[i].Waited?
    ensures var log := Exec(env, script).log;
      && i >= 1 && log[i - 1] == Tried(false)
      && log[i].seconds ==
           if i == 1 || !log[i - 2].Waited? then 2
           else if 2 * log[i - 2].seconds > 30 then 30 else 2 * log[i - 2].seconds
  {
    RunsAreSafe(env, script);
    LogWaitsDouble(env, Exec(env, script).log, i);
  }

  lemma LogWaitsDouble(env: Override, log: seq<Action>, i: nat)
    requires Lawful(env, log) && i < |log| && log[i].Waited?
    ensures i >= 1 && log[i - 1] == Tried(false)
    ensures log[i].seconds ==
      if i == 1 || !log[i - 2].Waited? then 2
      else if 2 * log[i - 2].seconds > 30 then 30 else 2 * log[i - 2].seconds
  {
    WaitFollowsTry(env, log, i);
    TriesSoFar(log[..i - 1]);
    if i >= 2 && log[i - 2].Waited? {
      assert log[..i - 1][..i - 2] == log[..i - 2] && log[..i - 1][i - 2] == log[i - 2];
      WaitIs(env, log, i - 2);
      WaitDoubles(FailedTries(log[..i - 2]));
    }
  }

  lemma WaitIs(env: Override, log: seq<Action>, i: nat)
    requires Lawful(env, log) && i < |log| && log[i].Waited?
    ensures log[i].seconds == Wait(FailedTries(log[..i]))
  {
    assert Allowed(env, log[..i], log[i]);
  }

  lemma WaitFollowsTry(env: Override, log: seq<Action>, i: nat)
    requires Lawful(env, log) && i < |log| && log[i].Waited?
    ensures i >= 1 && log[i - 1] == Tried(false) && PhaseAfter(log[..i - 1]) == Registering
    ensures log[i].seconds == Wait(FailedTries(log[..i - 1]) + 1)
  {
    assert Allowed(env, log[..i], log[i]);
    assert i >= 1 && log[..i][..i - 1] == log[..i - 1];
    assert Allowed(env, log[..i - 1], log[i - 1]);
  }

  /** When a try is due, only a wait just before carries failures over. */
  lemma TriesSoFar(log: seq<Action>)
    requires PhaseAfter(log) == Registering
    ensures FailedTries(log) == if log != [] && log[|log| - 1].Waited? then FailedTries(log[..|log| - 1]) else 0
  {
  }

  // ---- closed forms ---------------------------------------------------------------------------

  lemma {:induction false} Pow2Grows(k: nat)
    requires k >= 5
    ensures Pow2(k) >= 32
  {
    if k == 5 {
      assert Pow2(5) == 2 * Pow2(4) == 4 * Pow2(3) == 8 * Pow2(2) == 16 * Pow2(1) == 32;
    } else {
      Pow2Grows(k - 1);
    }
  }

  /** After `n >= 4` failures in a row exactly `30 * (n - 3)` seconds have been waited. */
  lemma {:induction false} TotalWaitClosed(n: nat)
    requires n >= 4
    ensures TotalWait(n) == 30 * (n - 3)
  {
    if n == 4 {
      assert Pow2(1) == 2 && Pow2(2) == 4 && Pow2(3) == 8 && Pow2(4) == 16;
      assert TotalWait(1) == 2 && TotalWait(2) == 6 && TotalWait(3) == 14;
    } else {
      TotalWaitClosed(n - 1);
      Pow2Grows(n);
    }
  }

  /** In any run: whenever a retry is due after `n >= 4` failures in a row, they cost `30 * (n - 3)` seconds. */
  lemma RetryCost(env: Override, script: seq<Moment>)
    requires var s := Exec(env, script); s.phase == Registering && FailedTries(s.log) >= 4
    ensures var s := Exec(env, script);
      WaitedFor(s.log) == 30 * (FailedTries(s.log) - 3) && s.attempt == FailedTries(s.log) + 1
  {
    RunsAreSafe(env, script);
    TotalWaitClosed(FailedTries(Exec(env, script).log));
  }

  // ---- every lawful log is a run, and runs only end when told to ------------------------------------

  /** A moment that makes the machine do this next. */
  function Cue(a: Action): Moment {
    match a
    case Tried(accepted) => Moment(Response(accepted), false, BeatFailed)
    case Waited(_) => Moment(Unreachable, false, BeatFailed)
    case Beat(_, reply) => Moment(Unreachable, false, reply)
    case Stopped => Moment(Unreachable, true, BeatFailed)
  }

  function Cues(log: seq<Action>): seq<Moment> {
    if log == [] then [] else Cues(log[..|log| - 1]) + [Cue(log[|log| - 1])]
  }

  /** The rules leave nothing out: a log is lawful if and only if some run produces it. */
  lemma {:induction false} LawfulIffRun(env: Override, log: seq<Action>)
    ensures Lawful(env, log) <==> exists script :: Exec(env, script).log == log
  {
    if Lawful(env, log) {
      LawfulIsRun(env, log);
    }
    forall script | Exec(env, script).log == log ensures Lawful(env, log) {
      RunsAreSafe(env, script);
    }
  }

  lemma NextIsCued(env: Override, s: State, a: Action)
    requires Says(env, s) && Allowed(env, s.log, a)
    ensures Step(env, s, Cue(a)).log == s.log + [a]
  {
  }

  lemma LawfulInit(env: Override, log: seq<Action>, a: Action)
    requires Lawful(env, log + [a])
    ensures Lawful(env, log) && Allowed(env, log, a)
  {
    var whole := log + [a];
    assert whole[..|log|] == log && Allowed(env, whole[..|log|], whole[|log|]);
    forall i | 0 <= i < |log| ensures Allowed(env, log[..i], log[i]) {
      assert whole[..i] == log[..i];
    }
  }

  lemma RunOneMore(env: Override, log: seq<Action>, a: Action)
    requires Exec(env, Cues(log)).log == log && Allowed(env, log, a)
    ensures Exec(env, Cues(log + [a])).log == log + [a]
  {
    RunsAreSafe(env, Cues(log));
    NextIsCued(env, Exec(env, Cues(log)), a);
    assert (log + [a])[..|log|] == log;
    var cues := Cues(log) + [Cue(a)];
    assert cues[..|cues| - 1] == Cues(log);
  }

  lemma {:induction false} LawfulIsRun(env: Override, log: seq<Action>)
    requires Lawful(env, log)
    ensures Exec(env, Cues(log)).log == log
  {
    if log != [] {
      var p, a := log[..|log| - 1], log[|log| - 1];
      assert log == p + [a];
      LawfulInit(env, p, a);
      LawfulIsRun(env, p);
      RunOneMore(env, p, a);
    }
  }

  /** The plugin never gives up by itself: a run that was never told to stop goes on. */
  lemma {:induction false} NeverGivesUp(env: Override, script: seq<Moment>)
    requires forall i :: 0 <= i < |script| ==> !script[i].stop
    ensures Exec(env, script).phase != Ended && |Exec(env, script).log| == |script|
  {
    if script != [] {
      NeverGivesUp(env, script[..|script| - 1]);
    }
  }
}
