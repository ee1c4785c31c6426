/** The station machine's timers as a run of the event loop's timers: every move of the machine is a
    short sequence of loop operations, so what holds of every run of the loop holds of the machine's
    timers; and no retry starts before its pause is over. */
module StationTimers {
  import opened Wrappers
  import opened TimerQueue
  import opened Station
  import opened StationRuns
  import Loops = TimerRuns

  // ---------- Loop operations on a clock ----------

  function After(c: Clock, op: Loops.Op): (d: Clock)
    ensures c.now <= d.now && c.nextId <= d.nextId
  {
    match op
    case Register(ms, h, d, u) =>
      Clock(c.now, c.nextId + 1, Insert(c.timers, Timer((c.now % WRAP + ms) % WRAP, h, d, u, c.now + ms, c.nextId)))
    case Cancel(h, d, u) => c.(timers := Without(c.timers, h, d, u))
    case Handle => if HeadDue(c) then c.(timers := c.timers[1..]) else c
    case Advance(ms) => c.(now := c.now + ms)
    case Terminate => c
  }

  function AfterAll(c: Clock, ops: seq<Loops.Op>): (d: Clock)
    ensures c.now <= d.now && c.nextId <= d.nextId
    decreases |ops|
  {
    if ops == [] then c else AfterAll(After(c, ops[0]), ops[1..])
  }

  lemma AfterOne(c: Clock, op: Loops.Op)
    ensures AfterAll(c, [op]) == After(c, op)
  {
    hide After;
    assert [op][1..] == [];
  }

  lemma {:induction false} AfterConcat(c: Clock, ops: seq<Loops.Op>, more: seq<Loops.Op>)
    ensures AfterAll(c, ops + more) == AfterAll(AfterAll(c, ops), more)
    decreases |ops|
  {
    hide After;
    if ops == [] {
      assert ops + more == more;
    } else {
      AfterConcat(After(c, ops[0]), ops[1..], more);
      assert (ops + more)[0] == ops[0] && (ops + more)[1..] == ops[1..] + more;
    }
  }

  // ---------- The operations of each move ----------

  function Start(ms: nat, handler: nat): Loops.Op { Loops.Register(ms, handler, SM, NULL) }

  function Stop(handler: nat): Loops.Op { Loops.Cancel(handler, ALL_CTX, ALL_CTX) }

  function StopPolls(): seq<Loops.Op> { [Stop(DHCP_POLL)] + [Stop(LINK_POLL)] }

  function StopAll(): seq<Loops.Op> { StopPolls() + [Stop(CONNECT_RETRY)] }

  function RetryOps(c: Clock, r: Retry): seq<Loops.Op> {
    if IsRegistered(c.timers, CONNECT_RETRY, SM, NULL) then [] else [Start(RetryDelay(r), CONNECT_RETRY)]
  }

  function FailedOps(s: State): seq<Loops.Op> {
    if s.retry.count > 0 then StopPolls() + RetryOps(CancelPolls(s.clock), s.retry) else StopAll()
  }

  function StepOps(s: State, m: Msg, env: Env): seq<Loops.Op> {
    if !s.init || m.event == Init then StopAll()
    else
      match s.phase
      case Idle =>
        if m.event == ConnectCmd then StopPolls()
        else if m.event == AutoConnectCmd then if env.joined == None then StopAll() else StopPolls()
        else []
      case Scan =>
        if m.event == DisconnectCmd || m.event == ConnectFail then StopAll()
        else if m.event == ScanFail then if s.retry.count > 0 then RetryOps(s.clock, s.retry) else StopAll()
        else []
      case Connected =>
        if m.event == ConnectCmd then StopAll() + StopPolls()
        else if m.event == DisconnectCmd then StopAll()
        else if m.event == Disconnect then if m.reason in {11, 12, 15, 16} then StopPolls() else StopAll()
        else if m.event == ScanDone && s.preroam.scanning && (env.roam.FastWeak? || env.roam.FastStrong?) then [Stop(LINK_POLL)]
        else if m.event == RoamingStart && s.preroam.enable then [Start(1, LINK_POLL)]
        else []
      case _ =>
        if m.event == DisconnectCmd then StopAll()
        else if m.event == ConnectFail || m.event == Disconnect || (m.event == DhcpFail && s.phase == Dhcp) then FailedOps(s)
        else if m.event == DhcpStart && s.phase == Handshake then [Start(DHCP_POLLING_INTERVAL, DHCP_POLL)]
        else if m.event == DhcpSuccess && s.phase == Dhcp then [Stop(CONNECT_RETRY)]
        else []
  }

  function TimerOps(s: State, handler: nat, env: Env): seq<Loops.Op> {
    if handler == DHCP_POLL then
      if env.addressed || env.staticIp || (s.polls + 255) % 256 == 0 then [] else [Start(DHCP_POLLING_INTERVAL, DHCP_POLL)]
    else if handler == LINK_POLL then
      if s.preroam.enable && s.preroam.start && !env.recovered then [Start(LINK_POLLING_INTERVAL, LINK_POLL)] else []
    else if handler == CONNECT_RETRY then StopPolls()
    else []
  }

  function MoveOps(s: State, v: Move): seq<Loops.Op> {
    match v
    case Deliver(env) => if s.queue == [] then [] else StepOps(s.(queue := s.queue[1..]), s.queue[0], env)
    case Fire(env) =>
      [Loops.Handle]
      + if HeadDue(s.clock)
        then TimerOps(s.(clock := s.clock.(timers := s.clock.timers[1..])), s.clock.timers[0].handler, env) else []
    case Tick(ms) => [Loops.Advance(ms)]
    case _ => []
  }

  function RunOps(s: State, vs: seq<Move>): seq<Loops.Op>
    decreases |vs|
  {
    if vs == [] then [] else MoveOps(s, vs[0]) + RunOps(Apply(s, vs[0]), vs[1..])
  }

  // ---------- Each move does its operations ----------

  lemma StopsPolls(c: Clock)
    ensures AfterAll(c, StopPolls()) == CancelPolls(c)
  {
    hide AfterAll;
    AfterConcat(c, [Stop(DHCP_POLL)], [Stop(LINK_POLL)]);
    AfterOne(c, Stop(DHCP_POLL));
    AfterOne(CancelTimers(c, DHCP_POLL), Stop(LINK_POLL));
  }

  lemma StopsAll(c: Clock)
    ensures AfterAll(c, StopAll()) == CancelAll(c)
  {
    hide AfterAll;
    StopsPolls(c);
    AfterConcat(c, StopPolls(), [Stop(CONNECT_RETRY)]);
    AfterOne(CancelPolls(c), Stop(CONNECT_RETRY));
  }

  lemma StartAdds(c: Clock, ms: nat, handler: nat)
    ensures AfterAll(c, [Start(ms, handler)]) == AddTimer(c, ms, handler)
  {
    hide AfterAll, Insert;
    AfterOne(c, Start(ms, handler));
  }

  lemma NoOps(c: Clock)
    ensures AfterAll(c, []) == c
  {
  }

  lemma StartsRetry(c: Clock, r: Retry)
    ensures AfterAll(c, RetryOps(c, r)) == RegisterRetry(c, r)
  {
    hide AfterAll, AddTimer, RetryDelay;
    NoOps(c);
    StartAdds(c, RetryDelay(r), CONNECT_RETRY);
  }

  lemma FailedTimers(s: State, reason: nat, env: Env)
    ensures AttemptFailed(s, reason, env).clock == AfterAll(s.clock, FailedOps(s))
  {
    hide AfterAll, CancelAll, CancelPolls, RegisterRetry;
    StopsAll(s.clock);
    StopsPolls(s.clock);
    AfterConcat(s.clock, StopPolls(), RetryOps(CancelPolls(s.clock), s.retry));
    StartsRetry(CancelPolls(s.clock), s.retry);
    SamePause(CancelPolls(s.clock), s.retry);
  }

  // Marking the retry as delayed does not change its pause.
  lemma SamePause(c: Clock, r: Retry)
    ensures RegisterRetry(c, r.(delayed := true)) == RegisterRetry(c, r) && RetryDelay(r.(delayed := true)) == RetryDelay(r)
  {
  }

  lemma StepTimers(s: State, m: Msg, env: Env)
    ensures Step(s, m, env).clock == AfterAll(s.clock, StepOps(s, m, env))
  {
    hide AfterAll, InIdle, InScan, InConnect, InHandshake, InDhcp, InConnected, CancelAll, StepOps;
    if !s.init || m.event == Init {
      StopsAll(s.clock);
      assert StepOps(s, m, env) == StopAll() by { ResetOps(s, m, env); }
    } else {
      match s.phase
      case Idle => IdleTimers(s, m, env);
      case Scan => ScanTimers(s, m, env);
      case Connect => ConnectTimers(s, m, env);
      case Handshake => HandshakeTimers(s, m, env);
      case Dhcp => DhcpTimers(s, m, env);
      case Connected => ConnectedTimers(s, m, env);
    }
  }

  lemma ResetOps(s: State, m: Msg, env: Env)
    requires !s.init || m.event == Init
    ensures StepOps(s, m, env) == StopAll()
  {
  }

  lemma IdleTimers(s: State, m: Msg, env: Env)
    requires s.init && m.event != Init && s.phase == Idle
    ensures InIdle(s, m, env).clock == AfterAll(s.clock, StepOps(s, m, env))
  {
    hide AfterAll, CancelAll, CancelPolls;
    NoOps(s.clock);
    StopsAll(s.clock);
    StopsPolls(s.clock);
  }

  lemma ScanTimers(s: State, m: Msg, env: Env)
    requires s.init && m.event != Init && s.phase == Scan
    ensures InScan(s, m, env).clock == AfterAll(s.clock, StepOps(s, m, env))
  {
    hide AfterAll, CancelAll, RegisterRetry, RetryOps;
    NoOps(s.clock);
    StopsAll(s.clock);
    StartsRetry(s.clock, s.retry);
  }

  lemma ConnectTimers(s: State, m: Msg, env: Env)
    requires s.init && m.event != Init && s.phase == Connect
    ensures InConnect(s, m, env).clock == AfterAll(s.clock, StepOps(s, m, env))
  {
    hide AfterAll, CancelAll, AttemptFailed, FailedOps;
    NoOps(s.clock);
    StopsAll(s.clock);
    FailedTimers(s, m.reason, env);
  }

  lemma HandshakeTimers(s: State, m: Msg, env: Env)
    requires s.init && m.event != Init && s.phase == Handshake
    ensures InHandshake(s, m, env).clock == AfterAll(s.clock, StepOps(s, m, env))
  {
    hide AfterAll, CancelAll, AttemptFailed, FailedOps;
    NoOps(s.clock);
    StopsAll(s.clock);
    FailedTimers(s, m.reason, env);
    StartAdds(s.clock, DHCP_POLLING_INTERVAL, DHCP_POLL);
  }

  lemma DhcpTimers(s: State, m: Msg, env: Env)
    requires s.init && m.event != Init && s.phase == Dhcp
    ensures InDhcp(s, m, env).clock == AfterAll(s.clock, StepOps(s, m, env))
  {
    hide AfterAll, CancelAll, AttemptFailed, FailedOps;
    NoOps(s.clock);
    StopsAll(s.clock);
    FailedTimers(s, m.reason, env);
    AfterOne(s.clock, Stop(CONNECT_RETRY));
  }

  lemma ConnectedTimers(s: State, m: Msg, env: Env)
    requires s.init && m.event != Init && s.phase == Connected
    ensures InConnected(s, m, env).clock == AfterAll(s.clock, StepOps(s, m, env))
  {
    hide AfterAll, CancelAll, CancelPolls, AddTimer;
    NoOps(s.clock);
    StopsAll(s.clock);
    StopsPolls(s.clock);
    StopsPolls(CancelAll(s.clock));
    AfterConcat(s.clock, StopAll(), StopPolls());
    AfterOne(s.clock, Stop(LINK_POLL));
    StartAdds(s.clock, 1, LINK_POLL);
  }

  lemma TimerTimers(s: State, handler: nat, env: Env)
    ensures RunTimer(s, handler, env).clock == AfterAll(s.clock, TimerOps(s, handler, env))
  {
    hide AfterAll, CancelPolls, AddTimer, StopPolls, Start;
    NoOps(s.clock);
    StopsPolls(s.clock);
    StartAdds(s.clock, DHCP_POLLING_INTERVAL, DHCP_POLL);
    StartAdds(s.clock, LINK_POLLING_INTERVAL, LINK_POLL);
  }

  lemma MoveTimers(s: State, v: Move)
    ensures Apply(s, v).clock == AfterAll(s.clock, MoveOps(s, v))
  {
    hide AfterAll, Step, StepOps, RunTimer, TimerOps, TimeAfterEq;
    NoOps(s.clock);
    match v
    case Deliver(env) => if s.queue != [] { StepTimers(s.(queue := s.queue[1..]), s.queue[0], env); }
    case Fire(env) =>
      AfterOne(s.clock, Loops.Handle);
      var c := After(s.clock, Loops.Handle);
      NoOps(c);
      if HeadDue(s.clock) {
        var h := s.clock.timers[0].handler;
        TimerTimers(s.(clock := c), h, env);
        AfterConcat(s.clock, [Loops.Handle], TimerOps(s.(clock := c), h, env));
      } else {
        assert [Loops.Handle] + [] == [Loops.Handle];
      }
    case Tick(ms) => AfterOne(s.clock, Loops.Advance(ms));
    case _ =>
  }

  /** The clock after any run of the machine is what the loop operations make of it. */
  lemma {:induction false} RunTimers(s: State, vs: seq<Move>)
    ensures Run(s, vs).clock == AfterAll(s.clock, RunOps(s, vs))
    decreases |vs|
  {
    hide Apply, MoveOps, AfterAll;
    if vs == [] {
      NoOps(s.clock);
    } else {
      MoveTimers(s, vs[0]);
      RunTimers(Apply(s, vs[0]), vs[1..]);
      AfterConcat(s.clock, MoveOps(s, vs[0]), RunOps(Apply(s, vs[0]), vs[1..]));
    }
  }

  // ---------- The loop does the same ----------

  predicate Shows(l: Loops.Loop, c: Clock) {
    l.pending == c.timers && l.now == c.now && |l.registered| == c.nextId && !l.terminated
  }

  predicate GoesOn(ops: seq<Loops.Op>) { forall k :: 0 <= k < |ops| ==> !ops[k].Terminate? }

  lemma {:induction false} LoopShows(l: Loops.Loop, c: Clock, ops: seq<Loops.Op>)
    requires Shows(l, c) && GoesOn(ops)
    ensures Shows(Loops.Run(l, ops), AfterAll(c, ops))
    decreases |ops|
  {
    hide TimeAfterEq;
    if ops != [] {
      assert forall k :: 0 <= k < |ops[1..]| ==> ops[1..][k] == ops[k + 1];
      LoopShows(Loops.Apply(l, ops[0]), After(c, ops[0]), ops[1..]);
    }
  }

  lemma MoveGoesOn(s: State, v: Move)
    ensures GoesOn(MoveOps(s, v))
  {
    hide LinkLost, RetryDelay, CancelPolls, IsRegistered, TimeAfterEq;
  }

  lemma {:induction false} RunGoesOn(s: State, vs: seq<Move>)
    ensures GoesOn(RunOps(s, vs))
    decreases |vs|
  {
    hide Apply, MoveOps;
    if vs != [] {
      MoveGoesOn(s, vs[0]);
      RunGoesOn(Apply(s, vs[0]), vs[1..]);
    }
  }

  /** In every run of the machine its timers are those of a run of the event loop; and as long as that run
      is tame they are pending in order and never fire early. */
  lemma TimersAreARun(vs: seq<Move>)
    ensures var ops := RunOps(POWER_ON, vs);
            var l := Loops.Run(Loops.START, ops);
            Shows(l, Run(POWER_ON, vs).clock) && Loops.Conserved(l)
            && (Loops.TameRun(Loops.START, ops) ==> Loops.Disciplined(l))
  {
    hide Run, RunOps, Loops.Run, Loops.TameRun, Loops.Disciplined;
    var ops := RunOps(POWER_ON, vs);
    RunGoesOn(POWER_ON, vs);
    RunTimers(POWER_ON, vs);
    LoopShows(Loops.START, POWER_ON.clock, ops);
    Loops.RunConserves(Loops.START, ops);
    if Loops.TameRun(Loops.START, ops) {
      StartDisciplined();
      Loops.RunDisciplined(Loops.START, ops);
    }
  }

  lemma StartDisciplined()
    ensures Loops.Disciplined(Loops.START)
  {
  }

  // ---------- A retry waits out its pause ----------

  predicate Numbered(c: Clock) { forall t :: t in c.timers ==> t.id < c.nextId }

  lemma {:induction false} OldStay(c: Clock, ops: seq<Loops.Op>, t: Timer)
    requires t in AfterAll(c, ops).timers && t.id < c.nextId
    ensures t in c.timers
    decreases |ops|
  {
    hide TimeAfterEq;
    if ops != [] {
      OldStay(After(c, ops[0]), ops[1..], t);
      OldBefore(c, ops[0], t);
    }
  }

  lemma OldBefore(c: Clock, op: Loops.Op, t: Timer)
    requires t in After(c, op).timers && t.id < c.nextId
    ensures t in c.timers
  {
    hide TimeAfterEq, Insert, Without;
    match op
    case Register(ms, h, d, u) => InsertMembers(c.timers, Timer((c.now % WRAP + ms) % WRAP, h, d, u, c.now + ms, c.nextId));
    case Cancel(h, d, u) => WithoutMembers(c.timers, h, d, u);
    case _ =>
  }

  lemma NumberedStays(c: Clock, op: Loops.Op)
    requires Numbered(c)
    ensures Numbered(After(c, op))
  {
    forall t | t in After(c, op).timers ensures t.id < After(c, op).nextId {
      if t.id >= c.nextId { NewIsRegistered(c, op, t); }
    }
  }

  lemma NewIsRegistered(c: Clock, op: Loops.Op, t: Timer)
    requires Numbered(c) && t in After(c, op).timers && t.id >= c.nextId
    ensures op.Register? && t.handler == op.handler && t.due == c.now + op.ms && t.id == c.nextId
  {
    hide TimeAfterEq, Insert, Without;
    match op
    case Register(ms, h, d, u) => InsertMembers(c.timers, Timer((c.now % WRAP + ms) % WRAP, h, d, u, c.now + ms, c.nextId));
    case Cancel(h, d, u) => WithoutMembers(c.timers, h, d, u);
    case _ =>
  }

  /** A timer that is new after some operations, with no time passing, was registered by one of them. */
  lemma {:induction false} NewTimer(c: Clock, ops: seq<Loops.Op>, t: Timer) returns (k: nat)
    requires Numbered(c) && t in AfterAll(c, ops).timers && t.id >= c.nextId
    requires forall i :: 0 <= i < |ops| ==> !ops[i].Advance?
    ensures k < |ops| && ops[k].Register? && ops[k].handler == t.handler && t.due == c.now + ops[k].ms
    decreases |ops|
  {
    hide After;
    var d := After(c, ops[0]);
    NumberedStays(c, ops[0]);
    if t.id < d.nextId {
      OldStay(d, ops[1..], t);
      NewIsRegistered(c, ops[0], t);
      k := 0;
    } else {
      assert forall i :: 0 <= i < |ops[1..]| ==> ops[1..][i] == ops[i + 1];
      SameTime(c, ops[0]);
      var i := NewTimer(d, ops[1..], t);
      k := i + 1;
    }
  }

  lemma SameTime(c: Clock, op: Loops.Op)
    requires !op.Advance?
    ensures After(c, op).now == c.now
  {
  }

  // No time passes, and a retry is scheduled with this pause only.
  predicate Paused(ops: seq<Loops.Op>, delay: nat) {
    forall k :: 0 <= k < |ops| ==>
      !ops[k].Advance? && (ops[k].Register? && ops[k].handler == CONNECT_RETRY ==> ops[k].ms == delay)
  }

  lemma OthersPaused(delay: nat, ms: nat, handler: nat)
    requires handler != CONNECT_RETRY
    ensures Paused([], delay) && Paused(StopAll(), delay) && Paused(StopPolls(), delay) && Paused(StopAll() + StopPolls(), delay)
    ensures Paused([Stop(handler)], delay) && Paused([Stop(CONNECT_RETRY)], delay) && Paused([Start(ms, handler)], delay)
  {
  }

  lemma RetryOpsPaused(c: Clock, r: Retry)
    ensures Paused(RetryOps(c, r), RetryDelay(r))
  {
    hide RetryDelay, IsRegistered;
  }

  lemma FailedOpsPaused(s: State, reason: nat, env: Env)
    ensures Paused(FailedOps(s), RetryDelay(AttemptFailed(s, reason, env).retry))
  {
    hide RetryOps, CancelPolls, AttemptFailed, RetryDelay;
    var delay := RetryDelay(AttemptFailed(s, reason, env).retry);
    OthersPaused(delay, 0, DHCP_POLL);
    RetryOpsPaused(CancelPolls(s.clock), s.retry);
    FailedKeepsPause(s, reason, env);
  }

  /** Whatever schedules a retry does so with the pause of the retry state it leaves. */
  lemma RetryPaused(s: State, v: Move)
    requires !v.Tick?
    ensures Paused(MoveOps(s, v), RetryDelay(Apply(s, v).retry))
  {
    hide RetryDelay, TimeAfterEq, Step, StepOps, RunTimer, TimerOps, Paused;
    var delay := RetryDelay(Apply(s, v).retry);
    OthersPaused(delay, 0, DHCP_POLL);
    match v
    case Deliver(env) => if s.queue != [] { StepPaused(s.(queue := s.queue[1..]), s.queue[0], env); }
    case Fire(env) => FirePaused(s, env, delay);
    case _ =>
  }

  lemma FirePaused(s: State, env: Env, delay: nat)
    ensures Paused(MoveOps(s, Fire(env)), delay)
  {
    hide TimeAfterEq;
  }

  lemma StepPaused(s: State, m: Msg, env: Env)
    ensures Paused(StepOps(s, m, env), RetryDelay(Step(s, m, env).retry))
  {
    hide Paused, StopAll, StopPolls, Start, Stop, RetryOps, FailedOps, AttemptFailed, RetryDelay, InIdle, InConnected, LinkLost;
    var delay := RetryDelay(Step(s, m, env).retry);
    OthersPaused(delay, 1, LINK_POLL);
    OthersPaused(delay, DHCP_POLLING_INTERVAL, DHCP_POLL);
    if s.init && s.phase == Scan && m.event == ScanFail && s.retry.count > 0 {
      RetryOpsPaused(s.clock, s.retry);
      ScanRetries(s, m, env);
    } else if s.init && Fails(s, m) {
      FailedOpsPaused(s, m.reason, env);
      LinkRetries(s, m, env);
    }
  }

  // The messages that fail an attempt after the scan.
  predicate Fails(s: State, m: Msg) {
    (s.phase == Connect || s.phase == Handshake || s.phase == Dhcp)
    && (m.event == ConnectFail || m.event == Disconnect || (m.event == DhcpFail && s.phase == Dhcp))
  }

  lemma ScanRetries(s: State, m: Msg, env: Env)
    requires s.init && s.phase == Scan && m.event == ScanFail && s.retry.count > 0
    ensures Step(s, m, env).retry == s.retry
  {
    hide RegisterRetry;
  }

  lemma LinkRetries(s: State, m: Msg, env: Env)
    requires s.init && Fails(s, m)
    ensures Step(s, m, env) == AttemptFailed(s, m.reason, env) && StepOps(s, m, env) == FailedOps(s)
  {
    hide AttemptFailed, FailedOps;
  }

  lemma FailedKeepsPause(s: State, reason: nat, env: Env)
    ensures s.retry.count > 0 ==> RetryDelay(AttemptFailed(s, reason, env).retry) == RetryDelay(s.retry)
  {
    hide CancelPolls, GiveUp, RegisterRetry;
  }

  /** A failed attempt with retries left schedules its retry, unless one is pending already. */
  lemma FailureSchedules(s: State, reason: nat, env: Env)
    requires OwnTimers(s.clock) && s.retry.count > 0 && CountsOf(s.clock).retry == 0
    ensures exists t :: t in AttemptFailed(s, reason, env).clock.timers && t.handler == CONNECT_RETRY && t.id == s.clock.nextId
                        && t.due == s.clock.now + RetryDelay(s.retry)
  {
    hide CancelPolls, RetryDelay, Insert, Count;
    var c := CancelPolls(s.clock);
    CancelPollsCounts(s.clock);
    RegisteredIffCounted(c, CONNECT_RETRY);
    PollsLeaveTime(s.clock);
    var delay := RetryDelay(s.retry);
    SamePause(c, s.retry);
    var t := Timer((c.now % WRAP + delay) % WRAP, CONNECT_RETRY, SM, NULL, c.now + delay, c.nextId);
    InsertMembers(c.timers, t);
    assert t in AttemptFailed(s, reason, env).clock.timers;
  }

  lemma PollsLeaveTime(c: Clock)
    ensures CancelPolls(c).now == c.now && CancelPolls(c).nextId == c.nextId
  {
  }

  lemma {:induction false} RunOneMore(s: State, vs: seq<Move>, v: Move)
    ensures Run(s, vs + [v]) == Apply(Run(s, vs), v)
    decreases |vs|
  {
    hide Apply;
    if vs == [] {
      assert [] + [v] == [v] && [v][1..] == [];
    } else {
      RunOneMore(Apply(s, vs[0]), vs[1..], v);
      assert (vs + [v])[0] == vs[0] && (vs + [v])[1..] == vs[1..] + [v];
    }
  }

  lemma PendingKnown(vs: seq<Move>, t: Timer, h: Timer)
    requires t in Run(POWER_ON, vs).clock.timers && h in Run(POWER_ON, vs).clock.timers
    ensures t.id < Run(POWER_ON, vs).clock.nextId && t.time == t.due % WRAP && (h.id == t.id ==> h == t)
  {
    hide Run, RunOps, Loops.Run;
    TimersAreARun(vs);
  }

  // A timer a short pause away is never taken for due too soon, wherever the 32-bit clock wraps.
  lemma ShortPauseIsKept(from: nat, delay: nat, now: nat)
    requires from <= now && delay <= MAX_RETRY_INTERVAL && TimeAfterEq(now % WRAP, (from + delay) % WRAP)
    ensures from + delay <= now
  {
    if now < from + delay { TimeAfterEqIff(now, from + delay); }
  }

  /** In every run, tame or not: a retry that one move schedules (a failed attempt or a scan that could not
      start) does not begin before its pause has passed since that move. */
  lemma RetryWaitsOut(pre: seq<Move>, v: Move, mid: seq<Move>, t: Timer)
    requires var s := Run(POWER_ON, pre);
             var r := Apply(s, v);
             t in r.clock.timers && t.handler == CONNECT_RETRY && s.clock.nextId <= t.id
    requires var u := Run(Apply(Run(POWER_ON, pre), v), mid); HeadDue(u.clock) && u.clock.timers[0].id == t.id
    ensures var s := Run(POWER_ON, pre);
            var r := Apply(s, v);
            var u := Run(r, mid);
            u.clock.timers[0] == t && s.clock.now + RetryDelay(r.retry) <= u.clock.now
  {
    hide Run, Apply, RunOps, MoveOps, AfterAll, RetryDelay, TimeAfterEq;
    var s := Run(POWER_ON, pre);
    var r := Apply(s, v);
    var u := Run(r, mid);
    var h := u.clock.timers[0];
    RunOneMore(POWER_ON, pre, v);
    PendingKnown(pre + [v], t, t);
    RunTimers(r, mid);
    assert h in u.clock.timers;
    OldStay(r.clock, RunOps(r, mid), h);
    PendingKnown(pre + [v], t, h);
    MoveTimers(s, v);
    forall x | x in s.clock.timers ensures x.id < s.clock.nextId { PendingKnown(pre, x, x); }
    if v.Tick? {
      TickAddsNone(s, v);
      assert false;
    } else {
      RetryPaused(s, v);
      var k := NewTimer(s.clock, MoveOps(s, v), t);
    }
    PauseCapped(r.retry);
    ShortPauseIsKept(s.clock.now, RetryDelay(r.retry), u.clock.now);
  }

  lemma TickAddsNone(s: State, v: Move)
    requires v.Tick?
    ensures Apply(s, v).clock.timers == s.clock.timers
  {
  }

  lemma PauseCapped(r: Retry)
    ensures RetryDelay(r) <= MAX_RETRY_INTERVAL
  {
  }
}
