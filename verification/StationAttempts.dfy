/** Linking whose every attempt fails, after a connect command, an auto-connect or a lost link, with the
    frames that the driver passes up at any time: the machine comes to rest in the idle phase after a
    bounded number of moves and exactly as many scans as it has retries for, and its blocked caller is
    woken exactly once. */
module StationAttempts {
  import opened Wrappers
  import opened TimerQueue
  import opened Station
  import opened StationRuns
  import opened StationRetry

  // ---------- Frames in the queue ----------

  function NoFrames(q: seq<Msg>): seq<Msg> {
    if q == [] then [] else if q[0].event == Frame then NoFrames(q[1..]) else [q[0]] + NoFrames(q[1..])
  }

  lemma {:induction false} NoFramesConcat(q: seq<Msg>, r: seq<Msg>)
    ensures NoFrames(q + r) == NoFrames(q) + NoFrames(r)
    decreases |q|
  {
    hide NoFrames;
    if q == [] {
      NoFramesOfNone();
      assert q + r == r && [] + NoFrames(r) == NoFrames(r);
    } else {
      NoFramesConcat(q[1..], r);
      assert (q + r)[0] == q[0] && (q + r)[1..] == q[1..] + r;
      QuietHead(q);
      QuietHead(q + r);
      assert [q[0]] + (NoFrames(q[1..]) + NoFrames(r)) == ([q[0]] + NoFrames(q[1..])) + NoFrames(r);
    }
  }

  lemma NoFramesOfNone()
    ensures NoFrames([]) == []
  {
  }

  lemma QuietHead(q: seq<Msg>)
    requires q != []
    ensures if q[0].event == Frame then NoFrames(q) == NoFrames(q[1..]) else NoFrames(q) == [q[0]] + NoFrames(q[1..])
  {
  }

  lemma {:induction false} NoFramesShort(q: seq<Msg>)
    ensures |NoFrames(q)| <= |q|
  {
    if q != [] { NoFramesShort(q[1..]); }
  }

  /** The state without the frames in its queue. */
  function Quiet(s: State): State { s.(queue := NoFrames(s.queue)) }

  // ---------- Steps only append to the queue ----------

  // `r` is what comes of `s` with an empty queue, `t` what comes of it with the queue `q`.
  predicate Appends(q: seq<Msg>, r: State, t: State) { t == r.(queue := q + r.queue) }

  predicate OneMore(r: State) { |r.queue| <= 1 && NoFrames(r.queue) == r.queue }

  lemma NothingAppends(s: State, q: seq<Msg>)
    requires s.queue == []
    ensures Appends(q, s, s.(queue := q)) && OneMore(s)
  {
    assert q + [] == q;
  }

  lemma PostAppends(s: State, q: seq<Msg>, m: Msg)
    requires s.queue == [] && |q| < QUEUE_SIZE && m.event != Frame
    ensures Appends(q, Post(s, m), Post(s.(queue := q), m)) && OneMore(Post(s, m))
  {
    assert [] + [m] == [m] && [m][1..] == [];
  }

  lemma ScanAppends(s: State, q: seq<Msg>, env: Env)
    requires s.queue == [] && |q| < QUEUE_SIZE
    ensures Appends(q, EnterScan(s, env), EnterScan(s.(queue := q), env)) && OneMore(EnterScan(s, env))
  {
    hide CancelPolls, Post, Appends, OneMore;
    var t := Enter(s, Scan).(clock := CancelPolls(s.clock));
    NothingAppends(t, q);
    var u := t.(hist := t.hist.(tally := t.hist.tally.(scans := t.hist.tally.scans + 1)));
    NothingAppends(u, q);
    PostAppends(u, q, Plain(ScanFail));
  }

  lemma BeginAppends(s: State, q: seq<Msg>, roaming: bool, env: Env)
    requires s.queue == [] && |q| < QUEUE_SIZE
    ensures Appends(q, BeginAttempt(s, roaming, env), BeginAttempt(s.(queue := q), roaming, env)) && OneMore(BeginAttempt(s, roaming, env))
  {
    hide EnterScan;
    ScanAppends(s.(retry := RetryParams(s.retry, roaming)), q, env);
  }

  lemma IdleEntryAppends(s: State, q: seq<Msg>)
    requires s.queue == []
    ensures Appends(q, EnterIdle(s), EnterIdle(s.(queue := q))) && OneMore(EnterIdle(s))
  {
    hide CancelAll;
    NothingAppends(EnterIdle(s), q);
  }

  lemma ConnectEntryAppends(s: State, q: seq<Msg>, env: Env)
    requires s.queue == [] && |q| < QUEUE_SIZE
    ensures Appends(q, EnterConnect(s, env), EnterConnect(s.(queue := q), env)) && OneMore(EnterConnect(s, env))
  {
    hide Post, Appends, OneMore;
    var t := Enter(s, Connect).(cfg := s.cfg.(bssid := env.bssid));
    NothingAppends(t, q);
    PostAppends(t, q, Msg(ConnectFail, env.connectReason, None, 0));
  }

  lemma LinkAppends(s: State, q: seq<Msg>)
    requires s.queue == [] && |q| < QUEUE_SIZE
    ensures Appends(q, EnterConnected(s), EnterConnected(s.(queue := q))) && OneMore(EnterConnected(s))
  {
    assert q + [] == q && [] + [Plain(ConnectSuccess)] == [Plain(ConnectSuccess)] && [Plain(ConnectSuccess)][1..] == [];
  }

  lemma OngoingAppends(s: State, q: seq<Msg>)
    requires s.queue == []
    ensures Appends(q, LinkOngoing(s), LinkOngoing(s.(queue := q))) && OneMore(LinkOngoing(s))
  {
    NothingAppends(LinkOngoing(s), q);
  }

  lemma ScanEndAppends(s: State, q: seq<Msg>)
    requires s.queue == []
    ensures Appends(q, PostScanDone(s), PostScanDone(s.(queue := q))) && OneMore(PostScanDone(s))
  {
    NothingAppends(PostScanDone(s), q);
  }

  lemma GiveUpAppends(s: State, q: seq<Msg>)
    requires s.queue == [] && |q| < QUEUE_SIZE
    ensures Appends(q, GiveUp(s), GiveUp(s.(queue := q))) && OneMore(GiveUp(s))
  {
    hide CancelAll;
    assert [] + [Plain(ConnectCmd)] == [Plain(ConnectCmd)] && q + [] == q && [Plain(ConnectCmd)][1..] == [];
  }

  lemma FailedAppends(s: State, q: seq<Msg>, reason: nat, env: Env)
    requires s.queue == [] && |q| < QUEUE_SIZE
    ensures Appends(q, AttemptFailed(s, reason, env), AttemptFailed(s.(queue := q), reason, env))
    ensures OneMore(AttemptFailed(s, reason, env))
  {
    hide GiveUp, EnterScan, RegisterRetry;
    var t := s.(lastReason := reason);
    GiveUpAppends(t, q);
    ScanAppends(t.(retry := t.retry.(delayed := true)), q, env);
  }

  lemma IdleEntryQueue(s: State, q: seq<Msg>)
    ensures EnterIdle(s.(queue := q)) == EnterIdle(s).(queue := q) && EnterIdle(s).queue == s.queue
  {
    hide CancelAll;
  }

  lemma CancelAppends(r: State, t: State, q: seq<Msg>)
    requires Appends(q, r, t) && OneMore(r)
    ensures var c, d := r.(clock := CancelTimers(r.clock, CONNECT_RETRY)), t.(clock := CancelTimers(t.clock, CONNECT_RETRY));
            Appends(q, c, d) && OneMore(c)
  {
    hide CancelTimers;
  }

  lemma AddressWaitAppends(s: State, q: seq<Msg>, env: Env)
    requires s.queue == []
    ensures Appends(q, EnterDhcp(s, env), EnterDhcp(s.(queue := q), env)) && OneMore(EnterDhcp(s, env))
  {
    hide AddTimer;
    NothingAppends(EnterDhcp(s, env), q);
  }

  lemma ConfigureAppends(s: State, q: seq<Msg>, m: Msg)
    ensures Configure(s.(queue := q), m) == Configure(s, m).(queue := q)
  {
  }

  lemma IdleAppends(s: State, q: seq<Msg>, m: Msg, env: Env)
    requires s.queue == [] && |q| < QUEUE_SIZE
    ensures Appends(q, InIdle(s, m, env), InIdle(s.(queue := q), m, env)) && OneMore(InIdle(s, m, env))
  {
    hide Appends, OneMore, EnterIdle, LinkOngoing, BeginAttempt, PostScanDone, Configure;
    NothingAppends(s, q);
    IdleEntryAppends(s, q);
    ScanEndAppends(s, q);
    assert Configure(s.(queue := q), m) == Configure(s, m).(queue := q) by { ConfigureAppends(s, q, m); }
    BeginAppends(Configure(s, m), q, false, env);
    if env.joined != None {
      BeginAppends(s.(cfg := s.cfg.(ssid := env.joined.value.ssid, channel := env.joined.value.channel)), q, true, env);
    }
  }

  lemma ScanStepAppends(s: State, q: seq<Msg>, m: Msg, env: Env)
    requires s.queue == [] && |q| < QUEUE_SIZE
    ensures Appends(q, InScan(s, m, env), InScan(s.(queue := q), m, env)) && OneMore(InScan(s, m, env))
  {
    hide Appends, OneMore, EnterIdle, LinkOngoing, GiveUp, RegisterRetry, EnterConnect;
    NothingAppends(s, q);
    NothingAppends(s.(clock := RegisterRetry(s.clock, s.retry)), q);
    IdleEntryAppends(s, q);
    OngoingAppends(s, q);
    ConnectEntryAppends(s, q, env);
    GiveUpAppends(s, q);
  }

  lemma ConnectAppends(s: State, q: seq<Msg>, m: Msg, env: Env)
    requires s.queue == [] && |q| < QUEUE_SIZE
    ensures Appends(q, InConnect(s, m, env), InConnect(s.(queue := q), m, env)) && OneMore(InConnect(s, m, env))
  {
    hide Appends, OneMore, EnterIdle, LinkOngoing, AttemptFailed;
    NothingAppends(s, q);
    NothingAppends(EnterHandshake(s), q);
    IdleEntryAppends(s, q);
    OngoingAppends(s, q);
    FailedAppends(s, q, m.reason, env);
  }

  lemma HandshakeAppends(s: State, q: seq<Msg>, m: Msg, env: Env)
    requires s.queue == [] && |q| < QUEUE_SIZE
    ensures Appends(q, InHandshake(s, m, env), InHandshake(s.(queue := q), m, env)) && OneMore(InHandshake(s, m, env))
  {
    hide Appends, OneMore, EnterIdle, LinkOngoing, AttemptFailed, EnterDhcp;
    NothingAppends(s, q);
    AddressWaitAppends(s, q, env);
    IdleEntryAppends(s, q);
    OngoingAppends(s, q);
    FailedAppends(s, q, m.reason, env);
  }

  lemma DhcpAppends(s: State, q: seq<Msg>, m: Msg, env: Env)
    requires s.queue == [] && |q| < QUEUE_SIZE
    ensures Appends(q, InDhcp(s, m, env), InDhcp(s.(queue := q), m, env)) && OneMore(InDhcp(s, m, env))
  {
    hide Appends, OneMore, EnterIdle, LinkOngoing, AttemptFailed, EnterConnected, CancelTimers;
    NothingAppends(s, q);
    LinkAppends(s, q);
    CancelAppends(EnterConnected(s), EnterConnected(s.(queue := q)), q);
    IdleEntryAppends(s, q);
    OngoingAppends(s, q);
    FailedAppends(s, q, m.reason, env);
  }

  lemma ConnectedAppends(s: State, q: seq<Msg>, m: Msg, env: Env)
    requires s.queue == [] && |q| < QUEUE_SIZE && m.event != ScanDone
    ensures Appends(q, InConnected(s, m, env), InConnected(s.(queue := q), m, env)) && OneMore(InConnected(s, m, env))
  {
    hide Appends, OneMore, EnterIdle, BeginAttempt, AddTimer, PostScanDone, Configure;
    NothingAppends(s, q);
    NothingAppends(s.(preroam := s.preroam.(start := true, backup := s.cfg.bssid), clock := AddTimer(s.clock, 1, LINK_POLL)), q);
    ScanEndAppends(s, q);
    ConfigureAppends(s, q, m);
    IdleEntryQueue(Configure(s, m), q);
    IdleEntryAppends(s, q);
    IdleEntryAppends(s.(lastReason := m.reason), q);
    BeginAppends(EnterIdle(Configure(s, m)), q, false, env);
    BeginAppends(s.(lastReason := m.reason), q, true, env);
  }

  /** Whatever waits in the queue, a message is handled the same, and what its handling posts, one message
      at most and never a frame, goes behind. */
  lemma StepAppends(s: State, q: seq<Msg>, m: Msg, env: Env)
    requires s.queue == [] && |q| < QUEUE_SIZE && !(s.phase == Connected && m.event == ScanDone)
    ensures Appends(q, Step(s, m, env), Step(s.(queue := q), m, env)) && OneMore(Step(s, m, env))
  {
    hide InIdle, InScan, InConnect, InHandshake, InDhcp, InConnected, CancelAll;
    if !s.init || m.event == Init {
      assert q + [] == q;
    } else {
      match s.phase
      case Idle => IdleAppends(s, q, m, env);
      case Scan => ScanStepAppends(s, q, m, env);
      case Connect => ConnectAppends(s, q, m, env);
      case Handshake => HandshakeAppends(s, q, m, env);
      case Dhcp => DhcpAppends(s, q, m, env);
      case Connected => ConnectedAppends(s, q, m, env);
    }
  }

  lemma PollAppends(s: State, q: seq<Msg>, env: Env)
    requires s.queue == [] && |q| < QUEUE_SIZE
    ensures Appends(q, PollDhcp(s, env), PollDhcp(s.(queue := q), env)) && OneMore(PollDhcp(s, env))
  {
    hide AddTimer, Post, Appends, OneMore;
    var t := s.(polls := (s.polls + 255) % 256);
    PostAppends(s, q, Msg(DhcpSuccess, 0, None, s.hist.stay));
    PostAppends(t, q, Msg(DhcpFail, 0, None, s.hist.stay));
    NothingAppends(t.(clock := AddTimer(t.clock, DHCP_POLLING_INTERVAL, DHCP_POLL)), q);
  }

  lemma TimerAppends(s: State, q: seq<Msg>, handler: nat, env: Env)
    requires s.queue == [] && |q| < QUEUE_SIZE
    ensures Appends(q, RunTimer(s, handler, env), RunTimer(s.(queue := q), handler, env)) && OneMore(RunTimer(s, handler, env))
  {
    hide EnterScan, PollDhcp, PollLink, Appends, OneMore;
    PollAppends(s, q, env);
    PollLinkAppends(s, q, env);
    ScanAppends(s.(retry := s.retry.(count := (s.retry.count + WRAP - 1) % WRAP, delayed := false)), q, env);
    NothingAppends(s, q);
  }

  lemma PollLinkAppends(s: State, q: seq<Msg>, env: Env)
    requires s.queue == []
    ensures Appends(q, PollLink(s, env), PollLink(s.(queue := q), env)) && OneMore(PollLink(s, env))
  {
    hide AddTimer;
    NothingAppends(PollLink(s, env), q);
  }

  // ---------- Moves with frames around ----------

  lemma AppendedQuiet(q: seq<Msg>, r: State, t: State, u: State)
    requires OneMore(r) && Appends(q, r, t) && Appends(NoFrames(q), r, u)
    ensures Quiet(t) == u
    ensures |t.queue| - |u.queue| == |q| - |NoFrames(q)|
  {
    NoFramesConcat(q, r.queue);
  }

  /** Room is kept for what the machine itself posts: a full queue drops messages. */
  predicate Roomy(s: State) { |s.queue| - |NoFrames(s.queue)| <= QUEUE_SIZE - 3 }

  /** The surroundings in which everything fails, with frames: no user command, each outstanding operation
      answered once, never an address, and a frame whenever the queue has room. */
  predicate Failing(s: State, v: Move) {
    match v
    case Send(m) => if m.event == Frame then |s.queue| < QUEUE_SIZE - 3 else Allowed(Quiet(s), v)
    case _ => Allowed(Quiet(s), v)
  }

  predicate FailingRun(s: State, vs: seq<Move>)
    decreases |vs|
  {
    vs == [] || (Failing(s, vs[0]) && FailingRun(Apply(s, vs[0]), vs[1..]))
  }

  /** The move brings the attempt on: frames do not. */
  predicate Useful(s: State, v: Move) {
    match v
    case Deliver(_) => s.queue != [] && s.queue[0].event != Frame
    case Fire(_) => HeadDue(s.clock)
    case Send(m) => m.event != Frame
    case _ => false
  }

  predicate Trying(s: State) { Attempting(Quiet(s)) && Roomy(s) }

  lemma FrameIgnored(s: State, env: Env)
    requires s.init && s.queue != [] && s.queue[0].event == Frame
    ensures Apply(s, Deliver(env)) == s.(queue := s.queue[1..])
  {
    hide RunTimer;
  }

  /** An attempt has at most two messages of its own in the queue and is never in the connected phase. */
  lemma AttemptShape(s: State)
    requires Attempting(s)
    ensures s.init && |s.queue| <= 2 && s.phase != Connected
  {
  }

  lemma QuietDeliver(s: State, env: Env)
    requires s.queue != [] && s.queue[0].event != Frame && |s.queue| <= QUEUE_SIZE
    requires !(s.phase == Connected && s.queue[0].event == ScanDone)
    ensures Quiet(Apply(s, Deliver(env))) == Apply(Quiet(s), Deliver(env))
    ensures Roomy(s) ==> Roomy(Apply(s, Deliver(env)))
  {
    hide Step, RunTimer;
    var q, m, b := s.queue[1..], s.queue[0], s.(queue := []);
    QuietHead(s.queue);
    NoFramesShort(q);
    assert ([m] + NoFrames(q))[1..] == NoFrames(q);
    StepAppends(b, q, m, env);
    StepAppends(b, NoFrames(q), m, env);
    AppendedQuiet(q, Step(b, m, env), Apply(s, Deliver(env)), Apply(Quiet(s), Deliver(env)));
  }

  lemma QuietFire(s: State, env: Env)
    requires HeadDue(s.clock) && |s.queue| < QUEUE_SIZE
    ensures Quiet(Apply(s, Fire(env))) == Apply(Quiet(s), Fire(env))
    ensures Roomy(s) ==> Roomy(Apply(s, Fire(env)))
  {
    hide Step, RunTimer, TimeAfterEq;
    var q, h := s.queue, s.clock.timers[0].handler;
    var b := s.(queue := [], clock := s.clock.(timers := s.clock.timers[1..]));
    NoFramesShort(q);
    TimerAppends(b, q, h, env);
    TimerAppends(b, NoFrames(q), h, env);
    AppendedQuiet(q, RunTimer(b, h, env), Apply(s, Fire(env)), Apply(Quiet(s), Fire(env)));
  }

  lemma QuietSend(s: State, m: Msg)
    requires |s.queue| < QUEUE_SIZE
    ensures Quiet(Apply(s, Send(m))) == if m.event == Frame then Quiet(s) else Apply(Quiet(s), Send(m))
    ensures Roomy(s) && (m.event == Frame ==> |s.queue| < QUEUE_SIZE - 3) ==> Roomy(Apply(s, Send(m)))
  {
    NoFramesConcat(s.queue, [m]);
    NoFramesShort(s.queue);
    assert NoFrames([m]) == (if m.event == Frame then [] else [m]) && NoFrames(s.queue) + [] == NoFrames(s.queue);
  }

  /** From `s` to `r`, the attempt goes on: no scan is gained or lost and no wake-up either. */
  predicate Proceeds(s: State, r: State) {
    Trying(r) && r.hist.tally.scans + Remaining(Quiet(r)) == s.hist.tally.scans + Remaining(Quiet(s)) && WakeUps(r) == WakeUps(s)
  }

  function EffortLeft(s: State): nat { Effort(Quiet(s)) }

  // A move that does to the quiet state what it does to the state.
  lemma CalmMove(s: State, v: Move)
    requires Trying(s) && Allowed(Quiet(s), v) && Quiet(Apply(s, v)) == Apply(Quiet(s), v) && Roomy(Apply(s, v))
    requires Useful(s, v) <==> Effective(Quiet(s), v)
    ensures Proceeds(s, Apply(s, v))
    ensures if Useful(s, v) then EffortLeft(Apply(s, v)) < EffortLeft(s) else EffortLeft(Apply(s, v)) == EffortLeft(s)
  {
    hide Attempting, Remaining, Effort, Apply, Allowed, Useful, Effective, Roomy;
    MoveKeeps(Quiet(s), v);
  }

  lemma UsefulIsEffective(s: State, v: Move)
    requires s.queue != [] && s.queue[0].event == Frame ==> !v.Deliver?
    requires v.Send? ==> v.msg.event != Frame
    ensures Useful(s, v) <==> Effective(Quiet(s), v)
  {
    hide TimeAfterEq;
    if s.queue != [] { QuietHead(s.queue); }
  }

  /** One move: the scans still to come, and the wake-ups, stay accounted for, and every move that brings
      the attempt on brings the end nearer. */
  lemma MoveProceeds(s: State, v: Move)
    requires Trying(s) && Failing(s, v)
    ensures Proceeds(s, Apply(s, v))
    ensures if Useful(s, v) then EffortLeft(Apply(s, v)) < EffortLeft(s) else EffortLeft(Apply(s, v)) == EffortLeft(s)
  {
    hide Attempting, Remaining, Effort, Step, RunTimer, TimeAfterEq, Strip;
    AttemptShape(Quiet(s));
    NoFramesShort(s.queue);
    match v
    case Deliver(env) =>
      if s.queue != [] && s.queue[0].event == Frame {
        FrameIgnored(s, env);
        QuietHead(s.queue);
      } else {
        if s.queue != [] { QuietDeliver(s, env); }
        UsefulIsEffective(s, v);
        hide Apply;
        CalmMove(s, v);
      }
    case Fire(env) =>
      if HeadDue(s.clock) { QuietFire(s, env); }
      UsefulIsEffective(s, v);
      hide Apply;
      CalmMove(s, v);
    case Send(m) =>
      QuietSend(s, m);
      if m.event != Frame {
        UsefulIsEffective(s, v);
        hide Apply;
        CalmMove(s, v);
      }
    case Tick(_) =>
      UsefulIsEffective(s, v);
      CalmMove(s, v);
    case _ =>
  }

  // ---------- Runs ----------

  function UsefulMoves(s: State, vs: seq<Move>): nat
    decreases |vs|
  {
    if vs == [] then 0
    else (if Useful(s, vs[0]) then 1 else 0) + UsefulMoves(Apply(s, vs[0]), vs[1..])
  }

  lemma {:induction false} RunKeeps(s: State, vs: seq<Move>)
    requires Trying(s) && FailingRun(s, vs)
    ensures Proceeds(s, Run(s, vs)) && UsefulMoves(s, vs) + EffortLeft(Run(s, vs)) <= EffortLeft(s)
    decreases |vs|
  {
    hide Apply, Failing, Useful, Trying, EffortLeft, Remaining;
    if vs != [] {
      MoveProceeds(s, vs[0]);
      RunKeeps(Apply(s, vs[0]), vs[1..]);
    }
  }

  /** At rest, but for frames that are still to be taken. */
  predicate Resting(s: State) { AtRest(Quiet(s)) }

  lemma TimerComesDue(s: State) returns (ms: nat)
    requires s.clock.timers != []
    ensures HeadDue(Apply(s, Tick(ms)).clock)
  {
    hide TimeAfterEq;
    var t := s.clock.timers[0];
    ms := (t.time - s.clock.now) % WRAP;
    DueAfter(s.clock.now, t.time);
  }

  /** Short of rest there is always something to do: a message to take, a timer that becomes due, or an
      answer to give. */
  lemma NeverStuck(s: State)
    requires Trying(s) && !Resting(s)
    ensures s.queue != [] || (exists ms: nat :: HeadDue(Apply(s, Tick(ms)).clock)) || exists v: Move :: Failing(s, v) && Useful(s, v)
  {
    hide TimeAfterEq;
    if s.clock.timers != [] {
      var ms := TimerComesDue(s);
    } else if s.queue == [] {
      assert Quiet(s) == s;
      var e := if s.phase == Scan then ScanFail else Disconnect;
      assert Failing(s, Send(Plain(e))) && Useful(s, Send(Plain(e)));
    }
  }

  lemma DueAfter(now: nat, time: Tick)
    ensures TimeAfterEq((now + (time - now) % WRAP) % WRAP, time)
  {
    ModAdd(time, (now + (time - now) % WRAP - time) / WRAP);
    assert (now + (time - now) % WRAP) % WRAP == time;
  }

  // ---------- The whole attempt ----------

  /** The next message starts linking, and only frames are behind it: a connect command to an idle or
      connected machine, an auto-connect with a network to go to, or the loss of a link with no delayed
      retry left marked. */
  predicate Starting(s: State, env: Env) {
    Sound(s) && s.init && s.queue != [] && NoFrames(s.queue[1..]) == [] && |s.queue| <= QUEUE_SIZE - 3 &&
    match s.queue[0].event
    case ConnectCmd => s.phase == Idle || s.phase == Connected
    case AutoConnectCmd => s.phase == Idle && env.joined != None
    case Disconnect => s.phase == Connected && s.queue[0].reason in {11, 12, 15, 16} && !s.retry.delayed
    case _ => false
  }

  // A new attempt, from a state with no timer but polls and nothing in its queue.
  lemma BeginKeeps(s: State, roaming: bool, env: Env)
    requires TimersFit(s) && s.init && s.queue == [] && CountsOf(s.clock).retry == 0 && !s.retry.delayed
    ensures var r := BeginAttempt(s, roaming, env);
            Settled(r) && r.phase == Scan && r.retry.count == (if roaming then ROAMING_RETRY_LIMIT else CONNECT_RETRY_LIMIT) - 1
            && Armed(r) == Armed(s) && r.hist.tally.scans == s.hist.tally.scans + 1
  {
    hide CancelPolls;
    CancelPollsCounts(s.clock);
    NoTimersLeft(CancelPolls(s.clock));
  }

  // The start without frames.
  lemma StartAlone(s: State, env: Env)
    requires Starting(s, env) && |s.queue| == 1
    ensures var r := Apply(s, Deliver(env));
            Settled(r) && r.phase == Scan && r.retry.count == (if s.queue[0].event == ConnectCmd then 2 else 99) && Armed(r) == Armed(s)
            && r.hist.tally.scans == s.hist.tally.scans + 1
  {
    hide BeginAttempt, CancelAll, Settled, Count;
    var m := s.queue[0];
    var t := s.(queue := s.queue[1..]);
    assert t.queue == [];
    match m.event
    case ConnectCmd =>
      var u := Configure(t, m);
      if s.phase == Connected {
        CancelAllCounts(u.clock);
        IdleFits(u);
        BeginKeeps(EnterIdle(u), false, env);
      } else {
        BeginKeeps(u, false, env);
      }
    case AutoConnectCmd =>
      var c := env.joined.value;
      BeginKeeps(t.(cfg := t.cfg.(ssid := c.ssid, channel := c.channel)), true, env);
    case Disconnect => BeginKeeps(t.(lastReason := m.reason), true, env);
  }

  lemma StartQuiet(s: State, env: Env)
    requires Starting(s, env)
    ensures Starting(Quiet(s), env) && Quiet(s).queue == [s.queue[0]] && s.queue[0].event != Frame && Roomy(s)
  {
    QuietHead(s.queue);
    assert [s.queue[0]][1..] == [];
  }

  lemma StartAttempts(s: State, env: Env)
    requires Starting(s, env)
    ensures var r := Apply(s, Deliver(env));
            Settled(Quiet(r)) && Roomy(r) && r.phase == Scan && Armed(r) == Armed(s)
            && r.retry.count == (if s.queue[0].event == ConnectCmd then 2 else 99)
            && r.hist.tally.scans == s.hist.tally.scans + 1
  {
    hide Apply, Settled, Sound;
    StartQuiet(s, env);
    QuietDeliver(s, env);
    StartAlone(Quiet(s), env);
  }

  /** When every attempt to link fails and no command intervenes, however the attempts fail and whatever
      frames come in: the machine reaches rest after boundedly many moves that bring the attempt on, and
      short of rest there is always one to make; at rest exactly the scans of the budget have been started,
      and a blocked caller has been woken exactly once. */
  lemma FailingLinkEnds(s: State, env: Env, vs: seq<Move>)
    requires Starting(s, env) && FailingRun(Apply(s, Deliver(env)), vs)
    ensures var a := Apply(s, Deliver(env));
            var r := Run(a, vs);
            var budget := (if s.queue[0].event == ConnectCmd then 3 else 100) + (if s.preroam.start && s.preroam.backup != 0 then 3 else 0);
            UsefulMoves(a, vs) < 1000 * budget
            && r.hist.tally.scans <= s.hist.tally.scans + budget
            && (!Resting(r) ==>
                  r.queue != [] || (exists ms: nat :: HeadDue(Apply(r, Tick(ms)).clock)) || exists v: Move :: Failing(r, v) && Useful(r, v))
            && (Resting(r) ==> r.hist.tally.scans == s.hist.tally.scans + budget
                               && r.hist.tally.connDone == a.hist.tally.connDone + (if a.cfg.blocked then 1 else 0))
  {
    hide Apply, Run, Failing, Useful, Starting, Settled, Roomy;
    StartAttempts(s, env);
    var a := Apply(s, Deliver(env));
    SettledNotStale(Quiet(a));
    RunKeeps(a, vs);
    var r := Run(a, vs);
    if !Resting(r) { NeverStuck(r); }
    assert Rank(Quiet(a)) <= 999;
  }
}
