/** The station machine as the program keeps it: one object whose fields each event updates in place,
    on top of the event loop object that holds its timers. Every method moves the abstract state
    (Snapshot) as module Station says, so the run theorems hold of the object. */
module StationMachine {
  import opened Wrappers
  import opened TimerQueue
  import opened EventLoop
  import opened Station

  class Machine {
    const loop: Eloop
    var init: bool
    var phase: Phase
    var mirror: Phase
    var cfg: StaCfg
    var lastReason: nat
    var polls: nat
    var scanBlocked: bool
    var queue: seq<Msg>
    var retry: Retry
    var preroam: Preroam
    var now: nat
    var hist: History

    ghost predicate Valid()
      reads this, loop
    {
      loop.Valid() && !loop.terminate
    }

    ghost function Timers(): Clock
      reads this, loop
    {
      Clock(now, loop.count, loop.timeouts)
    }

    ghost function Snapshot(): State
      reads this, loop
    {
      State.State(init, phase, mirror, cfg, lastReason, polls, scanBlocked, queue, retry, preroam, Timers(), hist)
    }

    constructor ()
      ensures Valid() && fresh(loop) && Snapshot() == POWER_ON
    {
      loop := new Eloop();
      init, phase, mirror, cfg, lastReason := false, Idle, Idle, NO_CFG, 0;
      polls, scanBlocked, queue, now := 0, false, [], 0;
      retry, preroam := Retry(false, 0, 0, 0), Preroam(false, false, false, 0, 0);
      hist := History(0, [Idle], NO_TALLY);
    }

    // ---------- Queue, timers and wake-ups ----------

    method Send(m: Msg)
      requires Valid()
      modifies this`queue
      ensures Valid() && Snapshot() == Post(old(Snapshot()), m)
    {
      if |queue| < QUEUE_SIZE { queue := queue + [m]; }
    }

    method StartTimer(ms: nat, handler: nat)
      requires Valid()
      modifies loop
      ensures Valid() && Timers() == AddTimer(old(Timers()), ms, handler)
    {
      var _ := loop.TimeoutRegister(now, ms, handler, SM, NULL, true);
    }

    method StopTimers(handler: nat)
      requires Valid()
      modifies loop
      ensures Valid() && Timers() == CancelTimers(old(Timers()), handler)
    {
      var _ := loop.TimeoutCancel(now, handler, ALL_CTX, ALL_CTX);
    }

    method WakeConnector(ok: bool)
      requires Valid()
      modifies this`cfg, this`hist
      ensures Valid() && Snapshot() == PostConnDone(old(Snapshot()), ok)
    {
      if !cfg.blocked { return; }
      cfg := cfg.(blocked := false);
      var t := hist.tally;
      hist := hist.(tally := t.(connDone := t.connDone + 1, connOk := t.connOk + if ok then 1 else 0));
    }

    method WakeScanner()
      requires Valid()
      modifies this`scanBlocked, this`hist
      ensures Valid() && Snapshot() == PostScanDone(old(Snapshot()))
    {
      if !scanBlocked { return; }
      scanBlocked := false;
      hist := hist.(tally := hist.tally.(scanDone := hist.tally.scanDone + 1));
    }

    method RefuseCommand()
      requires Valid()
      modifies this`cfg, this`hist
      ensures Valid() && Snapshot() == LinkOngoing(old(Snapshot()))
    {
      hist := hist.(tally := hist.tally.(ongoing := hist.tally.ongoing + 1));
      cfg := cfg.(blocked := true);
      WakeConnector(false);
    }

    // ---------- Retrying ----------

    method SetRetryParams(roaming: bool)
      requires Valid()
      modifies this`retry
      ensures Valid() && Snapshot() == old(Snapshot()).(retry := RetryParams(old(retry), roaming))
    {
      if roaming {
        retry := Retry(retry.delayed, ROAMING_RETRY_LIMIT - 1, ROAMING_RETRY_LIMIT, ROAMING_RETRY_INTERVAL);
      } else {
        retry := Retry(retry.delayed, CONNECT_RETRY_LIMIT - 1, CONNECT_RETRY_LIMIT, CONNECT_RETRY_INTERVAL);
      }
    }

    method ScheduleRetry()
      requires Valid()
      modifies loop
      ensures Valid() && Timers() == RegisterRetry(old(Timers()), retry)
    {
      var d: nat;
      if (retry.limit - retry.count) % WRAP > 30 {
        d := retry.interval * ((retry.limit - retry.count) % WRAP - 30) % WRAP;
      } else {
        d := retry.interval;
      }
      if d > MAX_RETRY_INTERVAL { d := MAX_RETRY_INTERVAL; }
      var there := loop.TimeoutIsRegistered(CONNECT_RETRY, SM, NULL);
      if !there { StartTimer(d, CONNECT_RETRY); }
    }

    method RollBack()
      requires Valid()
      modifies this`preroam, this`cfg, this`queue
      ensures Valid() && Snapshot() == Rollback(old(Snapshot()))
    {
      if preroam.start && preroam.backup != 0 {
        cfg := cfg.(channel := ALL_CHANNELS, bssid := preroam.backup, withBssid := true);
        preroam := preroam.(start := false, count := 0, backup := 0);
        Send(Plain(ConnectCmd));
      }
    }

    // ---------- State entries ----------

    method SetPhase(p: Phase)
      requires Valid()
      modifies this`phase, this`mirror, this`hist
      ensures Valid() && Snapshot() == Enter(old(Snapshot()), p)
    {
      phase := p;
      mirror := p;
      hist := hist.(path := hist.path + [p]);
    }

    method ToIdle()
      requires Valid()
      modifies this, loop
      ensures Valid() && Snapshot() == EnterIdle(old(Snapshot()))
    {
      SetPhase(Idle);
      retry := retry.(delayed := false);
      StopTimers(DHCP_POLL);
      StopTimers(LINK_POLL);
      StopTimers(CONNECT_RETRY);
    }

    method ToScan(env: Env)
      requires Valid()
      modifies this, loop
      ensures Valid() && Snapshot() == EnterScan(old(Snapshot()), env)
    {
      SetPhase(Scan);
      StopTimers(DHCP_POLL);
      StopTimers(LINK_POLL);
      if retry.delayed { return; }
      hist := hist.(tally := hist.tally.(scans := hist.tally.scans + 1));
      if !env.scanStarts { Send(Plain(ScanFail)); }
    }

    method ToConnect(env: Env)
      requires Valid()
      modifies this
      ensures Valid() && Snapshot() == EnterConnect(old(Snapshot()), env)
    {
      SetPhase(Connect);
      cfg := cfg.(bssid := env.bssid);
      if env.connectReason != 0 { Send(Msg(ConnectFail, env.connectReason, None, 0)); }
    }

    method ToHandshake()
      requires Valid()
      modifies this
      ensures Valid() && Snapshot() == EnterHandshake(old(Snapshot()))
    {
      SetPhase(Handshake);
    }

    method ToDhcp(env: Env)
      requires Valid()
      modifies this, loop
      ensures Valid() && Snapshot() == EnterDhcp(old(Snapshot()), env)
    {
      SetPhase(Dhcp);
      hist := hist.(stay := hist.stay + 1);
      if !env.staticIp { polls := DHCP_POLLING_LIMIT; }
      StartTimer(DHCP_POLLING_INTERVAL, DHCP_POLL);
    }

    method Announce()
      requires Valid()
      modifies this`cfg, this`queue, this`hist
      ensures Valid() && Snapshot() == AnnounceLink(old(Snapshot()))
    {
      hist := hist.(tally := hist.tally.(links := hist.tally.links + 1));
      if !cfg.blocked {
        hist := hist.(tally := hist.tally.(successes := hist.tally.successes + 1));
        Send(Plain(ConnectSuccess));
      } else {
        WakeConnector(true);
      }
    }

    method ToConnected()
      requires Valid()
      modifies this
      ensures Valid() && Snapshot() == EnterConnected(old(Snapshot()))
    {
      hide AnnounceLink;
      SetPhase(Connected);
      Announce();
      lastReason := 0;
      preroam := preroam.(start := false, count := 0, backup := 0);
      cfg := cfg.(withBssid := false);
    }

    // ---------- Messages ----------

    method CommandScan(env: Env)
      requires Valid()
      modifies this
      ensures Valid() && Snapshot() == StartCommandScan(old(Snapshot()), env)
    {
      if !env.scanStarts { WakeScanner(); }
    }

    method TakeConfig(m: Msg)
      requires Valid()
      modifies this
      ensures Valid() && Snapshot() == Configure(old(Snapshot()), m)
    {
      if m.cfg.Some? {
        cfg := m.cfg.value;
        var t := hist.tally;
        hist := hist.(tally := t.(blockedConnects := t.blockedConnects + if m.cfg.value.blocked then 1 else 0));
      }
    }

    method FailAttempt(reason: nat, env: Env)
      requires Valid()
      modifies this, loop
      ensures Valid() && Snapshot() == AttemptFailed(old(Snapshot()), reason, env)
    {
      lastReason := reason;
      if retry.count > 0 {
        retry := retry.(delayed := true);
        ToScan(env);
        ScheduleRetry();
      } else {
        RollBack();
        WakeConnector(false);
        ToIdle();
      }
    }

    method FinishPollingScan(env: Env)
      requires Valid()
      modifies this, loop
      ensures Valid() && Snapshot() == PollingScanDone(old(Snapshot()), env)
    {
      preroam := preroam.(scanning := false);
      match env.roam
      case NoCandidate =>
      case CurrentBest =>
      case FastWeak =>
        preroam := preroam.(count := 0);
        StopTimers(LINK_POLL);
      case FastStrong(ch) =>
        preroam := preroam.(count := 0);
        StopTimers(LINK_POLL);
        cfg := cfg.(channel := ch);
        Send(Plain(Frame));
      case Weak =>
      case Strong(ch) =>
        cfg := cfg.(channel := ch);
        Send(Plain(ConnectCmd));
    }

    method HandleIdle(m: Msg, env: Env)
      requires Valid()
      modifies this, loop
      ensures Valid() && Snapshot() == InIdle(old(Snapshot()), m, env)
    {
      hide EnterScan, EnterIdle;
      match m.event
      case ScanCmd => CommandScan(env);
      case ConnectCmd =>
        TakeConfig(m);
        SetRetryParams(false);
        ToScan(env);
      case AutoConnectCmd =>
        if env.joined == None {
          ToIdle();
        } else {
          cfg := cfg.(ssid := env.joined.value.ssid, channel := env.joined.value.channel);
          SetRetryParams(true);
          ToScan(env);
        }
      case ScanDone => WakeScanner();
      case _ =>
    }

    method HandleScan(m: Msg, env: Env)
      requires Valid()
      modifies this, loop
      ensures Valid() && Snapshot() == InScan(old(Snapshot()), m, env)
    {
      hide EnterIdle, EnterConnect, RegisterRetry, LinkOngoing;
      match m.event
      case ScanCmd => RefuseCommand();
      case ConnectCmd => RefuseCommand();
      case DisconnectCmd => ToIdle();
      case ConnectFail => ToIdle();
      case ScanDone => ToConnect(env);
      case ScanFail =>
        if retry.count > 0 {
          ScheduleRetry();
        } else {
          RollBack();
          WakeConnector(false);
          ToIdle();
        }
      case _ =>
    }

    method HandleConnect(m: Msg, env: Env)
      requires Valid()
      modifies this, loop
      ensures Valid() && Snapshot() == InConnect(old(Snapshot()), m, env)
    {
      hide EnterIdle, AttemptFailed, LinkOngoing;
      match m.event
      case ScanCmd => RefuseCommand();
      case ConnectCmd => RefuseCommand();
      case DisconnectCmd => ToIdle();
      case AssocSuccess => ToHandshake();
      case ConnectFail => FailAttempt(m.reason, env);
      case Disconnect => FailAttempt(m.reason, env);
      case _ =>
    }

    method HandleHandshake(m: Msg, env: Env)
      requires Valid()
      modifies this, loop
      ensures Valid() && Snapshot() == InHandshake(old(Snapshot()), m, env)
    {
      hide EnterIdle, EnterDhcp, AttemptFailed, LinkOngoing;
      match m.event
      case ScanCmd => RefuseCommand();
      case ConnectCmd => RefuseCommand();
      case DisconnectCmd => ToIdle();
      case ConnectFail => FailAttempt(m.reason, env);
      case Disconnect => FailAttempt(m.reason, env);
      case DhcpStart => ToDhcp(env);
      case _ =>
    }

    method HandleDhcp(m: Msg, env: Env)
      requires Valid()
      modifies this, loop
      ensures Valid() && Snapshot() == InDhcp(old(Snapshot()), m, env)
    {
      hide EnterIdle, EnterConnected, AttemptFailed, LinkOngoing, CancelTimers;
      match m.event
      case ScanCmd => RefuseCommand();
      case ConnectCmd => RefuseCommand();
      case DisconnectCmd => ToIdle();
      case DhcpSuccess =>
        ToConnected();
        StopTimers(CONNECT_RETRY);
      case DhcpFail => FailAttempt(m.reason, env);
      case ConnectFail => FailAttempt(m.reason, env);
      case Disconnect => FailAttempt(m.reason, env);
      case _ =>
    }

    method HandleConnected(m: Msg, env: Env)
      requires Valid()
      modifies this, loop
      ensures Valid() && Snapshot() == InConnected(old(Snapshot()), m, env)
    {
      hide EnterIdle, EnterScan, PollingScanDone, AddTimer, PostScanDone, StartCommandScan, Configure;
      match m.event
      case ScanCmd => CommandScan(env);
      case ConnectCmd =>
        TakeConfig(m);
        ToIdle();
        SetRetryParams(false);
        ToScan(env);
      case DisconnectCmd => ToIdle();
      case ScanDone =>
        if preroam.scanning { FinishPollingScan(env); }
        WakeScanner();
        WakeScanner();
      case ScanFail => WakeScanner();
      case Disconnect =>
        lastReason := m.reason;
        if LinkLost(m.reason) {
          SetRetryParams(true);
          ToScan(env);
        } else {
          ToIdle();
        }
      case RoamingStart =>
        if preroam.enable {
          preroam := preroam.(start := true, backup := cfg.bssid);
          StartTimer(1, LINK_POLL);
        }
      case _ =>
    }

    /** One event of the state machine. */
    method HandleMessage(m: Msg, env: Env)
      requires Valid()
      modifies this, loop
      ensures Valid() && Snapshot() == Step(old(Snapshot()), m, env)
    {
      hide EnterIdle, InIdle, InScan, InConnect, InHandshake, InDhcp, InConnected;
      if !init || m.event == Init {
        init, phase, polls, scanBlocked := true, Idle, 0, false;
        preroam := Preroam(true, false, false, 0, 0);
        SetRetryParams(false);
        ToIdle();
      } else {
        match phase
        case Idle => HandleIdle(m, env);
        case Scan => HandleScan(m, env);
        case Connect => HandleConnect(m, env);
        case Handshake => HandleHandshake(m, env);
        case Dhcp => HandleDhcp(m, env);
        case Connected => HandleConnected(m, env);
      }
    }

    // ---------- Timers ----------

    method DhcpPolling(env: Env)
      requires Valid()
      modifies this, loop
      ensures Valid() && Snapshot() == PollDhcp(old(Snapshot()), env)
    {
      hide AddTimer;
      if env.addressed || env.staticIp {
        Send(Msg(DhcpSuccess, 0, None, hist.stay));
        return;
      }
      polls := (polls + 255) % 256;
      if polls != 0 {
        StartTimer(DHCP_POLLING_INTERVAL, DHCP_POLL);
      } else {
        Send(Msg(DhcpFail, 0, None, hist.stay));
      }
    }

    method LinkPolling(env: Env)
      requires Valid()
      modifies this, loop
      ensures Valid() && Snapshot() == PollLink(old(Snapshot()), env)
    {
      hide AddTimer;
      if preroam.enable && preroam.start {
        if env.recovered {
          preroam := preroam.(start := false, count := 0, backup := 0);
          return;
        }
        if preroam.count < 10 || preroam.count % 10 == 0 {
          preroam := preroam.(scanning := true);
        }
        preroam := preroam.(count := (preroam.count + 1) % 0x1_0000);
        StartTimer(LINK_POLLING_INTERVAL, LINK_POLL);
      }
    }

    method ConnectRetry(env: Env)
      requires Valid()
      modifies this, loop
      ensures Valid() && Snapshot() == RetryConnect(old(Snapshot()), env)
    {
      hide EnterScan;
      retry := retry.(count := (retry.count + WRAP - 1) % WRAP, delayed := false);
      ToScan(env);
    }

    // ---------- One turn of the loop ----------

    /** Takes the oldest message, if there is one. */
    method TakeMessage(env: Env)
      requires Valid()
      modifies this, loop
      ensures Valid() && Snapshot() == Apply(old(Snapshot()), Deliver(env))
    {
      hide Step;
      if queue != [] {
        var m := queue[0];
        queue := queue[1..];
        HandleMessage(m, env);
      }
    }

    /** Fires the head timer, if it is due. */
    method FireTimer(env: Env)
      requires Valid()
      modifies this, loop
      ensures Valid() && Snapshot() == Apply(old(Snapshot()), Fire(env))
    {
      hide PollDhcp, PollLink, RetryConnect, TimeAfterEq;
      var due := loop.TimeoutHandle(now);
      if due != [] {
        var h := due[0].handler;
        if h == DHCP_POLL { DhcpPolling(env); }
        else if h == LINK_POLL { LinkPolling(env); }
        else if h == CONNECT_RETRY { ConnectRetry(env); }
      }
    }
  }
}
