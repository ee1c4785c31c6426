/** The connected phase is entered only on news from the current address wait: no success message
    left over from an earlier stay is ever taken for a new one, as long as associations are reported
    only when one was asked for. */
module StationDhcp {
  import opened TimerQueue
  import opened Station
  import opened StationRuns

  /** What the driver and the other tasks keep to: address successes come from the poller alone, and
      an association is reported only while a connect request is outstanding or the link is up (a fast
      transition), one undelivered report at a time. Everything else, reports of scans included, may be
      sent at any moment. */
  predicate Permitted(s: State, v: Move) {
    v.Send? ==>
      && v.msg.event != DhcpSuccess
      && (v.msg.event == AssocSuccess ==>
            (s.phase == Connect || s.phase == Connected) && forall m :: m in s.queue ==> m.event != AssocSuccess)
  }

  predicate PermittedRun(s: State, vs: seq<Move>)
    decreases |vs|
  {
    vs == [] || (Permitted(s, vs[0]) && PermittedRun(Apply(s, vs[0]), vs[1..]))
  }

  // ---------- The queue invariant ----------

  predicate OneAssoc(q: seq<Msg>) {
    forall i, j :: 0 <= i < j < |q| && q[i].event == AssocSuccess ==> q[j].event != AssocSuccess
  }

  predicate NoEvent(q: seq<Msg>, e: Event) { forall i :: 0 <= i < |q| ==> q[i].event != e }

  // No association report is ahead of an address success.
  predicate AssocBehind(q: seq<Msg>) {
    forall i, j :: 0 <= i < j < |q| && q[j].event == DhcpSuccess ==> q[i].event != AssocSuccess
  }

  predicate FromStay(q: seq<Msg>, stay: nat) {
    forall i :: 0 <= i < |q| && q[i].event == DhcpSuccess ==> q[i].stay == stay
  }

  predicate Clean(q: seq<Msg>, phase: Phase, stay: nat, polls: nat) {
    && OneAssoc(q) && AssocBehind(q)
    && (phase == Handshake || phase == Dhcp ==> NoEvent(q, AssocSuccess))
    && (phase == Handshake ==> NoEvent(q, DhcpSuccess))
    && (phase == Dhcp ==> FromStay(q, stay))
    && (polls > 0 ==> phase == Dhcp && NoEvent(q, DhcpSuccess))
  }

  predicate QueueClean(s: State) { Clean(s.queue, s.phase, s.hist.stay, CountsOf(s.clock).dhcp) }

  /** `r` is `q` with messages added that are neither associations nor address successes. */
  predicate Extends(q: seq<Msg>, r: seq<Msg>) {
    |q| <= |r| && r[..|q|] == q && forall i :: |q| <= i < |r| ==> r[i].event != AssocSuccess && r[i].event != DhcpSuccess
  }

  lemma ExtendsClean(q: seq<Msg>, r: seq<Msg>, phase: Phase, stay: nat, polls: nat)
    requires Clean(q, phase, stay, polls) && Extends(q, r)
    ensures Clean(r, phase, stay, polls)
  {
    assert forall i :: 0 <= i < |q| ==> r[i] == q[i];
  }

  lemma TailClean(q: seq<Msg>, phase: Phase, stay: nat, polls: nat)
    requires q != [] && Clean(q, phase, stay, polls)
    ensures Clean(q[1..], phase, stay, polls)
    ensures q[0].event == AssocSuccess ==> NoEvent(q[1..], AssocSuccess) && NoEvent(q[1..], DhcpSuccess)
  {
    var r := q[1..];
    assert forall i :: 0 <= i < |r| ==> r[i] == q[i + 1];
  }

  // ---------- One step ----------

  function PollersAfter(path: seq<Phase>, n: nat): nat {
    if path == [] then n
    else
      match path[|path| - 1]
      case Idle => 0
      case Scan => 0
      case Dhcp => n + 1
      case _ => n
  }

  /** What a step that enters the phases of `path` does to the queue, the pollers and the stay number. */
  predicate Effect(s: State, r: State, path: seq<Phase>) {
    && Extends(s.queue, r.queue)
    && CountsOf(r.clock).dhcp == PollersAfter(path, CountsOf(s.clock).dhcp)
    && r.hist.stay == s.hist.stay + if path == [Dhcp] then 1 else 0
  }

  lemma IdleEffect(s: State)
    ensures Effect(s, EnterIdle(s), [Idle])
  {
    CancelAllCounts(s.clock);
  }

  lemma ScanEffect(s: State, env: Env)
    ensures Effect(s, EnterScan(s, env), [Scan])
  {
    hide CancelPolls;
    CancelPollsCounts(s.clock);
  }

  lemma GiveUpEffect(s: State)
    ensures Effect(s, GiveUp(s), [Idle])
  {
    hide CancelAll, EnterIdle;
    IdleEffect(PostConnDone(Rollback(s), false));
  }

  lemma RetryEffect(c: Clock, r: Retry)
    ensures CountsOf(RegisterRetry(c, r)).dhcp == CountsOf(c).dhcp
  {
    AddCounts(c, RetryDelay(r), CONNECT_RETRY);
  }

  lemma FailedEffect(s: State, reason: nat, env: Env)
    ensures Effect(s, AttemptFailed(s, reason, env), [if s.retry.count > 0 then Scan else Idle])
  {
    hide RegisterRetry, GiveUp, EnterScan;
    var t := s.(lastReason := reason);
    GiveUpEffect(t);
    var u := EnterScan(t.(retry := t.retry.(delayed := true)), env);
    ScanEffect(t.(retry := t.retry.(delayed := true)), env);
    RetryEffect(u.clock, u.retry);
  }

  lemma AttemptEffect(s: State, roaming: bool, env: Env)
    ensures Effect(s, BeginAttempt(s, roaming, env), [Scan])
  {
    hide EnterScan;
    ScanEffect(s.(retry := RetryParams(s.retry, roaming)), env);
  }

  lemma InIdleEffect(s: State, m: Msg, env: Env)
    requires s.phase == Idle && s.init && m.event != Init
    ensures Effect(s, InIdle(s, m, env), StepPath(s, m, env))
  {
    hide BeginAttempt, EnterIdle, Configure, StartCommandScan, PostScanDone;
    IdleEffect(s);
    AttemptEffect(Configure(s, m), false, env);
    if env.joined.Some? {
      AttemptEffect(s.(cfg := s.cfg.(ssid := env.joined.value.ssid, channel := env.joined.value.channel)), true, env);
    }
  }

  lemma InScanEffect(s: State, m: Msg, env: Env)
    requires s.phase == Scan && s.init && m.event != Init
    ensures Effect(s, InScan(s, m, env), StepPath(s, m, env))
  {
    hide GiveUp, EnterIdle, RegisterRetry, LinkOngoing;
    IdleEffect(s);
    GiveUpEffect(s);
    RetryEffect(s.clock, s.retry);
  }

  lemma PollingEffect(s: State, env: Env)
    ensures Extends(s.queue, PollingScanDone(s, env).queue)
    ensures CountsOf(PollingScanDone(s, env).clock).dhcp == CountsOf(s.clock).dhcp
  {
    hide CancelTimers;
    CancelCounts(s.clock, LINK_POLL);
  }

  lemma InConnectedEffect(s: State, m: Msg, env: Env)
    requires s.phase == Connected && s.init && m.event != Init
    ensures Effect(s, InConnected(s, m, env), StepPath(s, m, env))
  {
    hide BeginAttempt, EnterIdle, Configure, StartCommandScan, PostScanDone, AddTimer, CancelTimers, PollingScanDone, StepPath;
    if m.event == ConnectCmd {
      IdleEffect(Configure(s, m));
      AttemptEffect(EnterIdle(Configure(s, m)), false, env);
    } else if m.event == DisconnectCmd {
      IdleEffect(s);
    } else if m.event == Disconnect {
      IdleEffect(s.(lastReason := m.reason));
      AttemptEffect(s.(lastReason := m.reason), true, env);
    } else if m.event == RoamingStart {
      AddCounts(s.clock, 1, LINK_POLL);
    } else if m.event == ScanDone {
      PollingEffect(s, env);
    }
    ConnectedPath(s, m, env);
  }

  lemma ConnectedPath(s: State, m: Msg, env: Env)
    requires s.phase == Connected && s.init && m.event != Init
    ensures StepPath(s, m, env) ==
            if m.event == ConnectCmd then [Idle, Scan]
            else if m.event == DisconnectCmd then [Idle]
            else if m.event == Disconnect then [if m.reason in {11, 12, 15, 16} then Scan else Idle] else []
  {
  }

  lemma InConnectEffect(s: State, m: Msg, env: Env)
    requires s.phase == Connect && s.init && m.event != Init
    ensures Effect(s, InConnect(s, m, env), StepPath(s, m, env))
  {
    hide AttemptFailed, EnterIdle, LinkOngoing;
    IdleEffect(s);
    FailedEffect(s, m.reason, env);
  }

  lemma InHandshakeEffect(s: State, m: Msg, env: Env)
    requires s.phase == Handshake && s.init && m.event != Init
    ensures Effect(s, InHandshake(s, m, env), StepPath(s, m, env))
  {
    hide AttemptFailed, EnterIdle, LinkOngoing, AddTimer;
    IdleEffect(s);
    FailedEffect(s, m.reason, env);
    AddCounts(s.clock, DHCP_POLLING_INTERVAL, DHCP_POLL);
  }

  lemma LinkUpEffect(s: State)
    ensures Extends(s.queue, EnterConnected(s).queue) && EnterConnected(s).clock == s.clock && EnterConnected(s).hist.stay == s.hist.stay
  {
    hide PostConnDone;
  }

  lemma InDhcpEffect(s: State, m: Msg, env: Env)
    requires s.phase == Dhcp && s.init && m.event != Init
    ensures Effect(s, InDhcp(s, m, env), StepPath(s, m, env))
  {
    hide AttemptFailed, EnterIdle, EnterConnected, LinkOngoing, CancelTimers;
    IdleEffect(s);
    FailedEffect(s, m.reason, env);
    LinkUpEffect(s);
    CancelCounts(s.clock, CONNECT_RETRY);
  }

  lemma StepEffect(s: State, m: Msg, env: Env)
    ensures Effect(s, Step(s, m, env), StepPath(s, m, env))
  {
    if !s.init || m.event == Init {
      IdleEffect(s.(init := true, phase := Idle, polls := 0, scanBlocked := false,
                    retry := RetryParams(s.retry, false), preroam := Preroam(true, false, false, 0, 0)));
    } else {
      match s.phase
      case Idle => InIdleEffect(s, m, env);
      case Scan => InScanEffect(s, m, env);
      case Connect => InConnectEffect(s, m, env);
      case Handshake => InHandshakeEffect(s, m, env);
      case Dhcp => InDhcpEffect(s, m, env);
      case Connected => InConnectedEffect(s, m, env);
    }
  }

  // ---------- Every permitted run ----------

  /** Entering new phases keeps the queue clean: a handshake consumes the only association there is,
      and an address wait begins with no address news in the queue. */
  lemma PathClean(s: State, m: Msg, env: Env)
    requires s.mirror == s.phase
    requires Clean([m] + s.queue, s.phase, s.hist.stay, CountsOf(s.clock).dhcp)
    ensures var r := Step(s, m, env); Clean(s.queue, r.phase, r.hist.stay, CountsOf(r.clock).dhcp)
  {
    hide Step, CountsOf;
    var q := [m] + s.queue;
    assert q[1..] == s.queue;
    TailClean(q, s.phase, s.hist.stay, CountsOf(s.clock).dhcp);
    StepEffect(s, m, env);
    StepWalks(s, m, env);
    var p := StepPath(s, m, env);
    if p == [Connected] {
      assert q[0].event == DhcpSuccess;
      assert CountsOf(s.clock).dhcp == 0;
    }
  }

  lemma DeliverClean(s: State, env: Env)
    requires s.mirror == s.phase && QueueClean(s)
    ensures QueueClean(Apply(s, Deliver(env)))
  {
    hide Step, Clean;
    if s.queue != [] {
      var t := s.(queue := s.queue[1..]);
      assert [s.queue[0]] + t.queue == s.queue;
      PathClean(t, s.queue[0], env);
      StepEffect(t, s.queue[0], env);
      var r := Step(t, s.queue[0], env);
      ExtendsClean(t.queue, r.queue, r.phase, r.hist.stay, CountsOf(r.clock).dhcp);
    }
  }

  lemma PollDhcpClean(s: State, env: Env)
    requires QueueClean(s) && s.phase == Dhcp && CountsOf(s.clock).dhcp == 0 && NoEvent(s.queue, DhcpSuccess)
    ensures QueueClean(PollDhcp(s, env))
  {
    hide AddTimer;
    AddCounts(s.clock, DHCP_POLLING_INTERVAL, DHCP_POLL);
  }

  lemma RetryClean(s: State, env: Env)
    requires QueueClean(s)
    ensures QueueClean(RetryConnect(s, env))
  {
    hide EnterScan;
    var u := s.(retry := s.retry.(count := (s.retry.count + WRAP - 1) % WRAP, delayed := false));
    ScanEffect(u, env);
    var r := EnterScan(u, env);
    assert r.phase == Scan by { hide *; ScanPhase(u, env); }
    ExtendsClean(s.queue, r.queue, Scan, s.hist.stay, 0);
  }

  lemma PollLinkClean(s: State, env: Env)
    requires QueueClean(s)
    ensures QueueClean(PollLink(s, env))
  {
    hide AddTimer;
    AddCounts(s.clock, LINK_POLLING_INTERVAL, LINK_POLL);
  }

  lemma FireClean(s: State, env: Env)
    requires TimersFit(s) && QueueClean(s)
    ensures QueueClean(Apply(s, Fire(env)))
  {
    hide PollDhcp, PollLink, RetryConnect, TimeAfterEq, Count;
    if HeadDue(s.clock) {
      HeadCounts(s.clock);
      var t := s.(clock := s.clock.(timers := s.clock.timers[1..]));
      var h := s.clock.timers[0].handler;
      if h == DHCP_POLL {
        PollDhcpClean(t, env);
      } else if h == LINK_POLL {
        PollLinkClean(t, env);
      } else if h == CONNECT_RETRY {
        RetryClean(t, env);
      }
    }
  }

  lemma ScanPhase(s: State, env: Env)
    ensures EnterScan(s, env).phase == Scan
  {
  }

  lemma ApplyClean(s: State, v: Move)
    requires Sound(s) && QueueClean(s) && Permitted(s, v)
    ensures QueueClean(Apply(s, v))
  {
    hide Step, RunTimer;
    match v
    case Deliver(env) => DeliverClean(s, env);
    case Fire(env) => FireClean(s, env);
    case Send(m) => SendClean(s, m);
    case _ =>
  }

  lemma SendClean(s: State, m: Msg)
    requires QueueClean(s) && Permitted(s, Send(m))
    ensures QueueClean(Post(s, m))
  {
    hide CountsOf;
    assert forall i :: 0 <= i < |s.queue| ==> s.queue[i] in s.queue;
  }

  lemma {:induction false} RunClean(s: State, vs: seq<Move>)
    requires Sound(s) && QueueClean(s) && PermittedRun(s, vs)
    ensures Sound(Run(s, vs)) && QueueClean(Run(s, vs))
    decreases |vs|
  {
    hide Apply, Sound, QueueClean, Permitted;
    if vs != [] {
      ApplySound(s, vs[0]);
      ApplyClean(s, vs[0]);
      RunClean(Apply(s, vs[0]), vs[1..]);
    }
  }

  /** In every permitted run from power-on: a move that takes the machine into the connected phase is
      the delivery, in the address wait, of a success that the poller of that very wait has sent. */
  lemma LinkOnFreshAddress(vs: seq<Move>, v: Move)
    requires PermittedRun(POWER_ON, vs)
    requires Run(POWER_ON, vs).phase != Connected && Apply(Run(POWER_ON, vs), v).phase == Connected
    ensures var s := Run(POWER_ON, vs);
            v.Deliver? && s.phase == Dhcp && s.queue != []
            && s.queue[0].event == DhcpSuccess && s.queue[0].stay == s.hist.stay
  {
    hide Run, Apply;
    PowerOnClean();
    RunClean(POWER_ON, vs);
    var s := Run(POWER_ON, vs);
    ConnectedBySuccess(s, v);
  }

  lemma PowerOnClean()
    ensures Sound(POWER_ON) && QueueClean(POWER_ON)
  {
    hide Run, Apply, Sound;
    PowerOnSound([]);
    assert Run(POWER_ON, []) == POWER_ON by { RunNothing(POWER_ON); }
  }

  lemma RunNothing(s: State)
    ensures Run(s, []) == s
  {
  }

  lemma ConnectedBySuccess(s: State, v: Move)
    requires Tracked(s) && QueueClean(s) && s.phase != Connected && Apply(s, v).phase == Connected
    ensures v.Deliver? && s.phase == Dhcp && s.queue != [] && s.queue[0].event == DhcpSuccess && s.queue[0].stay == s.hist.stay
  {
    hide Step, RunTimer, CountsOf;
    ApplyWalks(s, v);
  }
}
