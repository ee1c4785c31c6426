/** What every run of the station machine keeps, whatever the surroundings do: the mirrored state, the
    pending timers, the order of phases, and the accounting of wake-ups. */
module StationRuns {
  import opened Wrappers
  import opened TimerQueue
  import opened Station

  // ---------- Counting pending timers ----------

  predicate OwnTimers(c: Clock) {
    forall t :: t in c.timers ==>
      t.data == SM && t.user == NULL && (t.handler == DHCP_POLL || t.handler == LINK_POLL || t.handler == CONNECT_RETRY)
  }

  datatype Counts = Counts(retry: nat, dhcp: nat, link: nat)

  function CountsOf(c: Clock): Counts {
    Counts(Count(c.timers, CONNECT_RETRY), Count(c.timers, DHCP_POLL), Count(c.timers, LINK_POLL))
  }

  lemma AddCounts(c: Clock, ms: nat, handler: nat)
    ensures CountsOf(AddTimer(c, ms, handler)) ==
            Counts(CountsOf(c).retry + (if handler == CONNECT_RETRY then 1 else 0),
                   CountsOf(c).dhcp + (if handler == DHCP_POLL then 1 else 0),
                   CountsOf(c).link + (if handler == LINK_POLL then 1 else 0))
    ensures OwnTimers(c) && (handler == DHCP_POLL || handler == LINK_POLL || handler == CONNECT_RETRY) ==>
              OwnTimers(AddTimer(c, ms, handler))
  {
    var t := Timer((c.now % WRAP + ms) % WRAP, handler, SM, NULL, c.now + ms, c.nextId);
    CountInsert(c.timers, t, CONNECT_RETRY);
    CountInsert(c.timers, t, DHCP_POLL);
    CountInsert(c.timers, t, LINK_POLL);
    InsertMembers(c.timers, t);
  }

  lemma CancelCounts(c: Clock, handler: nat)
    ensures CountsOf(CancelTimers(c, handler)) ==
            Counts(if handler == CONNECT_RETRY then 0 else CountsOf(c).retry,
                   if handler == DHCP_POLL then 0 else CountsOf(c).dhcp,
                   if handler == LINK_POLL then 0 else CountsOf(c).link)
    ensures OwnTimers(c) ==> OwnTimers(CancelTimers(c, handler))
  {
    CountWithout(c.timers, handler, CONNECT_RETRY);
    CountWithout(c.timers, handler, DHCP_POLL);
    CountWithout(c.timers, handler, LINK_POLL);
    WithoutMembers(c.timers, handler, ALL_CTX, ALL_CTX);
  }

  lemma CancelPollsCounts(c: Clock)
    ensures CountsOf(CancelPolls(c)) == Counts(CountsOf(c).retry, 0, 0)
    ensures OwnTimers(c) ==> OwnTimers(CancelPolls(c))
  {
    CancelCounts(c, DHCP_POLL);
    CancelCounts(CancelTimers(c, DHCP_POLL), LINK_POLL);
  }

  lemma CancelAllCounts(c: Clock)
    ensures CountsOf(CancelAll(c)) == Counts(0, 0, 0)
    ensures OwnTimers(c) ==> OwnTimers(CancelAll(c))
  {
    CancelPollsCounts(c);
    CancelCounts(CancelPolls(c), CONNECT_RETRY);
  }

  lemma RegisteredIffCounted(c: Clock, handler: nat)
    requires OwnTimers(c)
    ensures IsRegistered(c.timers, handler, SM, NULL) <==> Count(c.timers, handler) > 0
  {
    CountZero(c.timers, handler);
    assert forall k :: 0 <= k < |c.timers| ==> c.timers[k] in c.timers;
  }

  /** The retry timer is registered at most once, however often that is asked for. */
  lemma RetryCounts(c: Clock, r: Retry)
    requires OwnTimers(c) && CountsOf(c).retry <= 1
    ensures CountsOf(RegisterRetry(c, r)) == Counts(1, CountsOf(c).dhcp, CountsOf(c).link) && OwnTimers(RegisterRetry(c, r))
  {
    RegisteredIffCounted(c, CONNECT_RETRY);
    AddCounts(c, RetryDelay(r), CONNECT_RETRY);
  }

  lemma HeadCounts(c: Clock)
    requires c.timers != []
    ensures CountsOf(c) ==
            var d := CountsOf(c.(timers := c.timers[1..]));
            var h := c.timers[0].handler;
            Counts(d.retry + (if h == CONNECT_RETRY then 1 else 0), d.dhcp + (if h == DHCP_POLL then 1 else 0),
                   d.link + (if h == LINK_POLL then 1 else 0))
    ensures OwnTimers(c) ==> OwnTimers(c.(timers := c.timers[1..]))
  {
  }

  // ---------- Timers and phases ----------

  predicate Fits(c: Clock, phase: Phase, retries: nat) {
    var n := CountsOf(c);
    && OwnTimers(c)
    && n.retry <= 1 && (n.retry == 1 ==> phase != Idle && phase != Connected && retries > 0)
    && n.dhcp <= 1 && (n.dhcp == 1 ==> phase == Dhcp || phase == Connected)
    && (n.link > 0 ==> phase == Connected)
  }

  predicate TimersFit(s: State) {
    Fits(s.clock, s.phase, s.retry.count) && (s.phase == Idle ==> !s.retry.delayed)
  }

  /** An idle machine has no timer of its own pending. */
  lemma NoTimersLeft(c: Clock)
    requires OwnTimers(c) && CountsOf(c) == Counts(0, 0, 0)
    ensures c.timers == []
  {
    CountsAddUp(c);
  }

  lemma {:induction false} CountsAddUp(c: Clock)
    requires OwnTimers(c)
    ensures CountsOf(c).retry + CountsOf(c).dhcp + CountsOf(c).link == |c.timers|
    decreases |c.timers|
  {
    if c.timers != [] {
      HeadCounts(c);
      assert c.timers[0] in c.timers;
      CountsAddUp(c.(timers := c.timers[1..]));
    }
  }

  lemma ScanFits(s: State, env: Env)
    requires OwnTimers(s.clock) && CountsOf(s.clock).retry <= 1 && (CountsOf(s.clock).retry == 1 ==> s.retry.count > 0)
    ensures TimersFit(EnterScan(s, env))
  {
    CancelPollsCounts(s.clock);
  }

  lemma IdleFits(s: State)
    requires OwnTimers(s.clock)
    ensures TimersFit(EnterIdle(s)) && CountsOf(EnterIdle(s).clock).retry == 0
  {
    CancelAllCounts(s.clock);
  }

  lemma FailedFits(s: State, reason: nat, env: Env)
    requires TimersFit(s) && s.phase != Connected && s.phase != Idle
    ensures TimersFit(AttemptFailed(s, reason, env))
  {
    hide Without, Insert, Count, IsRegistered, RetryDelay, AddTimer, CancelTimers, CancelAll, CancelPolls, RegisterRetry;
    var t := s.(lastReason := reason);
    if t.retry.count > 0 {
      var d := t.(retry := t.retry.(delayed := true));
      ScanFits(d, env);
      RetryCounts(EnterScan(d, env).clock, EnterScan(d, env).retry);
    } else {
      IdleFits(PostConnDone(Rollback(t), false));
    }
  }

  lemma IdleStepFits(s: State, m: Msg, env: Env)
    requires TimersFit(s) && s.phase == Idle
    ensures TimersFit(InIdle(s, m, env))
  {
    hide Without, Insert, Count, IsRegistered, RetryDelay, AddTimer, CancelTimers, CancelAll, CancelPolls, RegisterRetry;
    if m.event == ConnectCmd {
      var t := Configure(s, m);
      ScanFits(t.(retry := RetryParams(t.retry, false)), env);
    } else if m.event == AutoConnectCmd {
      match env.joined
      case None => IdleFits(s);
      case Some(c) =>
        var t := s.(cfg := s.cfg.(ssid := c.ssid, channel := c.channel));
        ScanFits(t.(retry := RetryParams(t.retry, true)), env);
    }
  }

  lemma ScanStepFits(s: State, m: Msg, env: Env)
    requires TimersFit(s) && s.phase == Scan
    ensures TimersFit(InScan(s, m, env))
  {
    hide Without, Insert, Count, IsRegistered, RetryDelay, AddTimer, CancelTimers, CancelAll, CancelPolls, RegisterRetry;
    if m.event == DisconnectCmd || m.event == ConnectFail {
      IdleFits(s);
    } else if m.event == ScanFail && s.retry.count > 0 {
      RetryCounts(s.clock, s.retry);
    } else if m.event == ScanFail {
      IdleFits(PostConnDone(Rollback(s), false));
    }
  }

  lemma ConnectStepFits(s: State, m: Msg, env: Env)
    requires TimersFit(s) && s.phase == Connect
    ensures TimersFit(InConnect(s, m, env))
  {
    hide Without, Insert, Count, IsRegistered, RetryDelay, AddTimer, CancelTimers, CancelAll, CancelPolls, RegisterRetry;
    hide EnterIdle, AttemptFailed;
    IdleFits(s);
    FailedFits(s, m.reason, env);
  }

  lemma HandshakeStepFits(s: State, m: Msg, env: Env)
    requires TimersFit(s) && s.phase == Handshake
    ensures TimersFit(InHandshake(s, m, env))
  {
    hide Without, Insert, Count, IsRegistered, RetryDelay, AddTimer, CancelTimers, CancelAll, CancelPolls, RegisterRetry;
    hide EnterIdle, AttemptFailed;
    IdleFits(s);
    FailedFits(s, m.reason, env);
    AddCounts(s.clock, DHCP_POLLING_INTERVAL, DHCP_POLL);
  }

  lemma DhcpStepFits(s: State, m: Msg, env: Env)
    requires TimersFit(s) && s.phase == Dhcp
    ensures TimersFit(InDhcp(s, m, env))
  {
    hide Without, Insert, Count, IsRegistered, RetryDelay, AddTimer, CancelTimers, CancelAll, CancelPolls, RegisterRetry;
    hide EnterIdle, AttemptFailed;
    IdleFits(s);
    FailedFits(s, m.reason, env);
    CancelCounts(s.clock, CONNECT_RETRY);
  }

  lemma ConnectedStepFits(s: State, m: Msg, env: Env)
    requires TimersFit(s) && s.phase == Connected
    ensures TimersFit(InConnected(s, m, env))
  {
    hide Without, Insert, Count, IsRegistered, RetryDelay, AddTimer, CancelTimers, CancelAll, CancelPolls, RegisterRetry;
    match m.event
    case ConnectCmd =>
      var t := EnterIdle(Configure(s, m));
      IdleFits(Configure(s, m));
      ScanFits(t.(retry := RetryParams(t.retry, false)), env);
    case DisconnectCmd => IdleFits(s);
    case ScanDone => CancelCounts(s.clock, LINK_POLL);
    case Disconnect =>
      var t := s.(lastReason := m.reason);
      IdleFits(t);
      ScanFits(t.(retry := RetryParams(t.retry, true)), env);
    case RoamingStart => AddCounts(s.clock, 1, LINK_POLL);
    case _ =>
  }

  lemma StepFits(s: State, m: Msg, env: Env)
    requires TimersFit(s)
    ensures TimersFit(Step(s, m, env))
  {
    if !s.init || m.event == Init {
      IdleFits(s.(init := true, phase := Idle, polls := 0, scanBlocked := false,
                  retry := RetryParams(s.retry, false), preroam := Preroam(true, false, false, 0, 0)));
    } else {
      match s.phase
      case Idle => IdleStepFits(s, m, env);
      case Scan => ScanStepFits(s, m, env);
      case Connect => ConnectStepFits(s, m, env);
      case Handshake => HandshakeStepFits(s, m, env);
      case Dhcp => DhcpStepFits(s, m, env);
      case Connected => ConnectedStepFits(s, m, env);
    }
  }

  lemma FireFits(s: State, env: Env)
    requires TimersFit(s)
    ensures TimersFit(Apply(s, Fire(env)))
  {
    hide Without, Insert, Count, IsRegistered, RetryDelay, AddTimer, CancelTimers, CancelAll, CancelPolls, RegisterRetry;
    if HeadDue(s.clock) {
      HeadCounts(s.clock);
      var c := s.clock.(timers := s.clock.timers[1..]);
      var t := s.(clock := c);
      var h := s.clock.timers[0].handler;
      if h == DHCP_POLL {
        AddCounts(c, DHCP_POLLING_INTERVAL, DHCP_POLL);
      } else if h == LINK_POLL {
        AddCounts(c, LINK_POLLING_INTERVAL, LINK_POLL);
      } else if h == CONNECT_RETRY {
        ScanFits(t.(retry := t.retry.(count := (t.retry.count + WRAP - 1) % WRAP, delayed := false)), env);
      }
    }
  }

  // ---------- Phases ----------

  /** Which phase may follow which: the way up is one step at a time, the way down is to a new scan
      or to idle. */
  predicate Follows(a: Phase, b: Phase) {
    match b
    case Idle => true
    case Scan => true
    case Connect => a == Scan
    case Handshake => a == Connect
    case Dhcp => a == Handshake
    case Connected => a == Dhcp
  }

  predicate LegalPath(p: seq<Phase>) {
    p != [] && p[0] == Idle && forall i :: 0 < i < |p| ==> Follows(p[i - 1], p[i])
  }

  /** The machine's phase is the last one entered, and the published station state is its mirror. */
  predicate Tracked(s: State) {
    LegalPath(s.hist.path) && s.hist.path[|s.hist.path| - 1] == s.phase && s.mirror == s.phase
  }

  // `b` was reached from `a` by entering the phases of `more` in turn, and nothing else.
  predicate Walks(a: State, b: State, more: seq<Phase>) {
    b.hist.path == a.hist.path + more && b.mirror == b.phase && b.phase == if more == [] then a.phase else more[|more| - 1]
  }

  // Each phase of `more` may follow the one before it, the first one `a`.
  predicate LegalFrom(a: Phase, more: seq<Phase>)
    decreases |more|
  {
    more == [] || (Follows(a, more[0]) && LegalFrom(more[0], more[1..]))
  }

  lemma LegalAppend(p: seq<Phase>, b: Phase)
    requires LegalPath(p) && Follows(p[|p| - 1], b)
    ensures LegalPath(p + [b])
  {
    var q := p + [b];
    forall i | 0 < i < |q| ensures Follows(q[i - 1], q[i]) {
      if i < |p| { assert Follows(p[i - 1], p[i]); }
    }
  }

  lemma {:induction false} LegalConcat(p: seq<Phase>, more: seq<Phase>)
    requires LegalPath(p) && LegalFrom(p[|p| - 1], more)
    ensures LegalPath(p + more)
    decreases |more|
  {
    if more == [] {
      assert p + more == p;
    } else {
      LegalAppend(p, more[0]);
      LegalConcat(p + [more[0]], more[1..]);
      assert (p + [more[0]]) + more[1..] == p + more;
    }
  }

  lemma WalkTracked(a: State, b: State, more: seq<Phase>)
    requires Tracked(a) && Walks(a, b, more) && LegalFrom(a.phase, more)
    ensures Tracked(b)
  {
    LegalConcat(a.hist.path, more);
  }

  lemma FailedWalk(s: State, reason: nat, env: Env)
    requires s.mirror == s.phase
    ensures Walks(s, AttemptFailed(s, reason, env), [if s.retry.count > 0 then Scan else Idle])
  {
    hide RegisterRetry, CancelAll, CancelPolls, Insert;
  }

  /** The phases entered while a message is handled. */
  function StepPath(s: State, m: Msg, env: Env): seq<Phase> {
    if !s.init || m.event == Init then [Idle]
    else
      match s.phase
      case Idle =>
        if m.event == ConnectCmd then [Scan]
        else if m.event == AutoConnectCmd then [if env.joined == None then Idle else Scan] else []
      case Scan =>
        if m.event == DisconnectCmd || m.event == ConnectFail || (m.event == ScanFail && s.retry.count == 0) then [Idle]
        else if m.event == ScanDone then [Connect] else []
      case Connected =>
        if m.event == ConnectCmd then [Idle, Scan]
        else if m.event == DisconnectCmd then [Idle]
        else if m.event == Disconnect then [if m.reason in {11, 12, 15, 16} then Scan else Idle] else []
      case _ =>
        if m.event == DisconnectCmd then [Idle]
        else if m.event == ConnectFail || m.event == Disconnect || (m.event == DhcpFail && s.phase == Dhcp) then
          [if s.retry.count > 0 then Scan else Idle]
        else if s.phase == Connect && m.event == AssocSuccess then [Handshake]
        else if s.phase == Handshake && m.event == DhcpStart then [Dhcp]
        else if s.phase == Dhcp && m.event == DhcpSuccess then [Connected]
        else []
  }

  lemma StepWalks(s: State, m: Msg, env: Env)
    requires s.mirror == s.phase
    ensures Walks(s, Step(s, m, env), StepPath(s, m, env))
  {
    hide RegisterRetry, CancelAll, CancelPolls, Insert, AddTimer, CancelTimers, PollingScanDone, InIdle, InScan, InConnected, AttemptFailed;
    if s.init && m.event != Init {
      match s.phase
      case Idle => IdleWalks(s, m, env);
      case Scan => ScanWalks(s, m, env);
      case Connected => ConnectedWalks(s, m, env);
      case _ => if m.event == ConnectFail || m.event == Disconnect || m.event == DhcpFail { FailedWalk(s, m.reason, env); }
    } else {
      var z := s.(init := true, phase := Idle, polls := 0, scanBlocked := false,
                  retry := RetryParams(s.retry, false), preroam := Preroam(true, false, false, 0, 0));
      assert Reset(s) == EnterIdle(z) && z.hist == s.hist;
    }
  }

  lemma IdleWalks(s: State, m: Msg, env: Env)
    requires s.mirror == s.phase == Idle && s.init && m.event != Init
    ensures Walks(s, InIdle(s, m, env), StepPath(s, m, env))
  {
    hide RegisterRetry, CancelAll, CancelPolls, Insert;
  }

  lemma ScanWalks(s: State, m: Msg, env: Env)
    requires s.mirror == s.phase == Scan && s.init && m.event != Init
    ensures Walks(s, InScan(s, m, env), StepPath(s, m, env))
  {
    hide RegisterRetry, CancelAll, CancelPolls, Insert;
  }

  lemma ConnectedWalks(s: State, m: Msg, env: Env)
    requires s.mirror == s.phase == Connected && s.init && m.event != Init
    ensures Walks(s, InConnected(s, m, env), StepPath(s, m, env))
  {
    hide RegisterRetry, CancelAll, CancelPolls, Insert, AddTimer, CancelTimers, PollingScanDone;
    if m.event == ConnectCmd {
      var t := EnterIdle(Configure(s, m));
      assert t.hist.path == s.hist.path + [Idle];
      assert (s.hist.path + [Idle]) + [Scan] == s.hist.path + [Idle, Scan];
    }
  }

  function ApplyPath(s: State, v: Move): seq<Phase> {
    match v
    case Deliver(env) => if s.queue == [] then [] else StepPath(s.(queue := s.queue[1..]), s.queue[0], env)
    case Fire(_) => if HeadDue(s.clock) && s.clock.timers[0].handler == CONNECT_RETRY then [Scan] else []
    case _ => []
  }

  lemma TimerWalks(s: State, handler: nat, env: Env)
    requires s.mirror == s.phase
    ensures Walks(s, RunTimer(s, handler, env), if handler == CONNECT_RETRY then [Scan] else [])
  {
    hide RegisterRetry, CancelAll, CancelPolls, Insert, AddTimer, CancelTimers;
    assert s.hist.path + [] == s.hist.path;
  }

  lemma FireWalks(s: State, env: Env)
    requires s.mirror == s.phase
    ensures Walks(s, Apply(s, Fire(env)), ApplyPath(s, Fire(env)))
  {
    hide RunTimer, TimeAfterEq;
    if HeadDue(s.clock) {
      TimerWalks(s.(clock := s.clock.(timers := s.clock.timers[1..])), s.clock.timers[0].handler, env);
    }
  }

  lemma ApplyWalks(s: State, v: Move)
    requires s.mirror == s.phase
    ensures Walks(s, Apply(s, v), ApplyPath(s, v))
  {
    hide Step, StepPath, RunTimer;
    match v
    case Deliver(env) => if s.queue != [] { StepWalks(s.(queue := s.queue[1..]), s.queue[0], env); }
    case Fire(env) => FireWalks(s, env);
    case _ =>
  }

  // ---------- Waking blocked callers ----------

  /** No more CONN_DONE posts than blocked connects accepted and commands refused, no more SCAN_DONE
      posts than blocked scans, and each entry into the connected phase announced exactly once. */
  predicate Balanced(s: State) {
    var t := s.hist.tally;
    && t.connDone + (if s.cfg.blocked then 1 else 0) <= t.blockedConnects + t.ongoing
    && t.scanDone + (if s.scanBlocked then 1 else 0) <= t.blockedScans
    && t.links == t.successes + t.connOk
  }

  lemma HelpersBalanced(s: State, m: Msg, env: Env)
    requires Balanced(s)
    ensures Balanced(PostConnDone(s, false)) && Balanced(PostScanDone(s)) && Balanced(LinkOngoing(s))
    ensures Balanced(StartCommandScan(s, env)) && Balanced(Configure(s, m)) && Balanced(Rollback(s))
  {
  }

  lemma ScanBalanced(s: State, env: Env)
    requires Balanced(s)
    ensures Balanced(EnterScan(s, env))
  {
    hide CancelPolls;
  }

  lemma EntriesBalanced(s: State, env: Env)
    requires Balanced(s)
    ensures Balanced(EnterIdle(s)) && Balanced(EnterConnect(s, env)) && Balanced(EnterHandshake(s)) && Balanced(EnterDhcp(s, env))
  {
    hide CancelAll, AddTimer;
  }

  lemma GiveUpBalanced(s: State)
    requires Balanced(s)
    ensures Balanced(GiveUp(s))
  {
    hide CancelAll, Rollback, PostConnDone;
    HelpersBalanced(s, Plain(Frame), Env(false, 0, 0, false, false, None, NoCandidate, false));
    HelpersBalanced(Rollback(s), Plain(Frame), Env(false, 0, 0, false, false, None, NoCandidate, false));
  }

  lemma FailedBalanced(s: State, reason: nat, env: Env)
    requires Balanced(s)
    ensures Balanced(AttemptFailed(s, reason, env))
  {
    hide RegisterRetry, GiveUp, EnterScan;
    var t := s.(lastReason := reason);
    GiveUpBalanced(t);
    ScanBalanced(t.(retry := t.retry.(delayed := true)), env);
  }

  lemma LinkBalanced(s: State)
    requires Balanced(s)
    ensures Balanced(EnterConnected(s))
  {
  }

  lemma AttemptBalanced(s: State, roaming: bool, env: Env)
    requires Balanced(s)
    ensures Balanced(BeginAttempt(s, roaming, env))
  {
    hide EnterScan;
    ScanBalanced(s.(retry := RetryParams(s.retry, roaming)), env);
  }

  lemma IdleBalanced(s: State, m: Msg, env: Env)
    requires Balanced(s)
    ensures Balanced(InIdle(s, m, env))
  {
    hide CancelAll, PostScanDone, StartCommandScan, Configure, BeginAttempt;
    HelpersBalanced(s, m, env);
    AttemptBalanced(Configure(s, m), false, env);
    if env.joined.Some? {
      AttemptBalanced(s.(cfg := s.cfg.(ssid := env.joined.value.ssid, channel := env.joined.value.channel)), true, env);
    }
  }

  lemma ScanEndBalanced(s: State)
    requires Balanced(s)
    ensures Balanced(PostScanDone(PostScanDone(s)))
  {
  }

  lemma ConnectedBalanced(s: State, m: Msg, env: Env)
    requires Balanced(s)
    ensures Balanced(InConnected(s, m, env))
  {
    hide CancelAll, CancelTimers, AddTimer, PostScanDone, StartCommandScan, Configure, BeginAttempt, PollingScanDone;
    HelpersBalanced(s, m, env);
    if m.event == ConnectCmd {
      AttemptBalanced(EnterIdle(Configure(s, m)), false, env);
    } else if m.event == Disconnect {
      AttemptBalanced(s.(lastReason := m.reason), true, env);
    } else if m.event == ScanDone {
      ScanEndBalanced(if s.preroam.scanning then PollingScanDone(s, env) else s);
    }
  }

  lemma ScanningBalanced(s: State, m: Msg, env: Env)
    requires Balanced(s)
    ensures Balanced(InScan(s, m, env))
  {
    hide RegisterRetry, LinkOngoing, GiveUp, EnterIdle, EnterConnect;
    HelpersBalanced(s, m, env);
    EntriesBalanced(s, env);
    GiveUpBalanced(s);
  }

  lemma LinkingBalanced(s: State, m: Msg, env: Env)
    requires Balanced(s)
    ensures Balanced(InConnect(s, m, env)) && Balanced(InHandshake(s, m, env))
  {
    hide LinkOngoing, AttemptFailed, EnterIdle, EnterHandshake, EnterDhcp;
    HelpersBalanced(s, m, env);
    EntriesBalanced(s, env);
    FailedBalanced(s, m.reason, env);
  }

  lemma DhcpBalanced(s: State, m: Msg, env: Env)
    requires Balanced(s)
    ensures Balanced(InDhcp(s, m, env))
  {
    hide CancelTimers, LinkOngoing, AttemptFailed, EnterConnected, EnterIdle;
    HelpersBalanced(s, m, env);
    EntriesBalanced(s, env);
    FailedBalanced(s, m.reason, env);
    LinkBalanced(s);
  }

  lemma StepBalanced(s: State, m: Msg, env: Env)
    requires Balanced(s)
    ensures Balanced(Step(s, m, env))
  {
    hide CancelAll, InIdle, InScan, InConnect, InHandshake, InDhcp, InConnected;
    IdleBalanced(s, m, env);
    ConnectedBalanced(s, m, env);
    ScanningBalanced(s, m, env);
    LinkingBalanced(s, m, env);
    DhcpBalanced(s, m, env);
  }

  lemma FireBalanced(s: State, env: Env)
    requires Balanced(s)
    ensures Balanced(Apply(s, Fire(env)))
  {
    hide AddTimer, EnterScan, TimeAfterEq;
    if HeadDue(s.clock) {
      var t := s.(clock := s.clock.(timers := s.clock.timers[1..]));
      ScanBalanced(t.(retry := t.retry.(count := (t.retry.count + WRAP - 1) % WRAP, delayed := false)), env);
    }
  }

  lemma ApplyBalanced(s: State, v: Move)
    requires Balanced(s)
    ensures Balanced(Apply(s, v))
  {
    hide Step, RunTimer;
    match v
    case Deliver(env) => if s.queue != [] { StepBalanced(s.(queue := s.queue[1..]), s.queue[0], env); }
    case Fire(env) => FireBalanced(s, env);
    case _ =>
  }

  // ---------- Every run ----------

  predicate Sound(s: State) { TimersFit(s) && Tracked(s) && Balanced(s) }

  lemma StepPathLegal(s: State, m: Msg, env: Env)
    ensures LegalFrom(s.phase, StepPath(s, m, env))
  {
    assert forall a: Phase, b: Phase :: Follows(a, b) ==> LegalFrom(a, [b]);
    assert LegalFrom(s.phase, [Idle, Scan]) by { assert [Idle, Scan][1..] == [Scan]; }
  }

  lemma ApplyTracked(s: State, v: Move)
    requires Tracked(s)
    ensures Tracked(Apply(s, v))
  {
    hide Apply, StepPath;
    ApplyWalks(s, v);
    if v.Deliver? && s.queue != [] { StepPathLegal(s.(queue := s.queue[1..]), s.queue[0], v.env); }
    WalkTracked(s, Apply(s, v), ApplyPath(s, v));
  }

  lemma ApplyFits(s: State, v: Move)
    requires TimersFit(s)
    ensures TimersFit(Apply(s, v))
  {
    hide Step, RunTimer;
    match v
    case Deliver(env) => if s.queue != [] { StepFits(s.(queue := s.queue[1..]), s.queue[0], env); }
    case Fire(env) => FireFits(s, env);
    case _ =>
  }

  lemma ApplySound(s: State, v: Move)
    requires Sound(s)
    ensures Sound(Apply(s, v))
  {
    hide Apply, TimersFit, Tracked, Balanced;
    ApplyFits(s, v);
    ApplyTracked(s, v);
    ApplyBalanced(s, v);
  }

  lemma {:induction false} RunSound(s: State, vs: seq<Move>)
    requires Sound(s)
    ensures Sound(Run(s, vs))
    decreases |vs|
  {
    hide Apply, Sound;
    if vs != [] {
      ApplySound(s, vs[0]);
      RunSound(Apply(s, vs[0]), vs[1..]);
    }
  }

  lemma PowerOnSound(vs: seq<Move>)
    ensures Sound(Run(POWER_ON, vs))
  {
    hide Run, Apply;
    RunSound(POWER_ON, vs);
  }

  /** In every run from power-on at most one retry timer is pending, and while it is, the machine is
      neither idle nor connected and retries are left, so that firing it never wraps the counter. */
  lemma OneRetryTimer(vs: seq<Move>)
    ensures var s := Run(POWER_ON, vs);
            Count(s.clock.timers, CONNECT_RETRY) <= 1
            && (Count(s.clock.timers, CONNECT_RETRY) == 1 ==> s.phase != Idle && s.phase != Connected && s.retry.count > 0)
  {
    hide Run, Apply;
    PowerOnSound(vs);
  }

  /** In every run, the connected phase is only ever entered after a scan, a connect request, a
      handshake and an address wait, each directly after the other, and the published state always
      shows the machine's phase. */
  lemma LinkOnlyThroughAllPhases(vs: seq<Move>, k: nat)
    requires k < |Run(POWER_ON, vs).hist.path| && Run(POWER_ON, vs).hist.path[k] == Connected
    ensures k >= 4 && Run(POWER_ON, vs).hist.path[k - 4..k] == [Scan, Connect, Handshake, Dhcp]
    ensures Run(POWER_ON, vs).mirror == Run(POWER_ON, vs).phase
  {
    hide Run, Apply;
    PowerOnSound(vs);
    var p := Run(POWER_ON, vs).hist.path;
    assert Follows(p[k - 1], p[k]);
    assert Follows(p[k - 2], p[k - 1]);
    assert Follows(p[k - 3], p[k - 2]);
    assert Follows(p[k - 4], p[k - 3]);
  }

  /** In every run, blocked callers are woken at most as often as they wait, and every link is
      announced exactly once, either to a waiting caller or by a success event. */
  lemma WakeUpsAccounted(vs: seq<Move>)
    ensures var t := Run(POWER_ON, vs).hist.tally;
            t.connDone <= t.blockedConnects + t.ongoing && t.scanDone <= t.blockedScans && t.links == t.successes + t.connOk
  {
    hide Run, Apply;
    PowerOnSound(vs);
  }

  // ---------- Callers that are not woken ----------

  /** A caller that waits for a link is left waiting by this message: it is forgotten by a reset, by a
      disconnect command and by a failure report during the scan; it keeps waiting while retries are left
      and while messages do not concern it; everything else wakes it, another command included. */
  predicate KeepsWaiting(s: State, m: Msg) {
    match m.event
    case Init => true
    case DisconnectCmd => true
    case ScanCmd => false
    case ConnectCmd => false
    case ScanFail => s.phase != Scan || s.retry.count > 0
    case ConnectFail => s.phase == Scan || s.retry.count > 0
    case Disconnect => s.phase == Scan || s.retry.count > 0
    case DhcpSuccess => s.phase != Dhcp
    case DhcpFail => s.phase != Dhcp || s.retry.count > 0
    case _ => true
  }

  /** Exactly when a caller that is blocked on a link is still waiting after a message. */
  lemma CallerForgottenIff(s: State, m: Msg, env: Env)
    requires s.init && s.cfg.blocked && s.phase != Idle && s.phase != Connected
    ensures Step(s, m, env).cfg.blocked <==> KeepsWaiting(s, m)
  {
    hide InScan, InConnect, InHandshake, InDhcp, CancelAll;
    if m.event != Init {
      hide KeepsWaiting;
      match s.phase
      case Scan => ScanCaller(s, m, env);
      case Connect => ConnectCaller(s, m, env);
      case Handshake => HandshakeCaller(s, m, env);
      case Dhcp => DhcpCaller(s, m, env);
    }
  }

  lemma ScanCaller(s: State, m: Msg, env: Env)
    requires s.cfg.blocked && s.phase == Scan && m.event != Init
    ensures InScan(s, m, env).cfg.blocked <==> KeepsWaiting(s, m)
  {
    hide CancelAll, RegisterRetry, GiveUp;
    GivingUpWakes(s);
  }

  lemma ConnectCaller(s: State, m: Msg, env: Env)
    requires s.cfg.blocked && s.phase == Connect && m.event != Init
    ensures InConnect(s, m, env).cfg.blocked <==> KeepsWaiting(s, m)
  {
    hide CancelAll, AttemptFailed;
    FailingWakes(s, m.reason, env);
  }

  lemma HandshakeCaller(s: State, m: Msg, env: Env)
    requires s.cfg.blocked && s.phase == Handshake && m.event != Init
    ensures InHandshake(s, m, env).cfg.blocked <==> KeepsWaiting(s, m)
  {
    hide CancelAll, AttemptFailed, AddTimer;
    FailingWakes(s, m.reason, env);
  }

  lemma LinkWakes(s: State)
    requires s.cfg.blocked
    ensures !EnterConnected(s).cfg.blocked
  {
  }

  lemma DhcpCaller(s: State, m: Msg, env: Env)
    requires s.cfg.blocked && s.phase == Dhcp && m.event != Init
    ensures InDhcp(s, m, env).cfg.blocked <==> KeepsWaiting(s, m)
  {
    hide CancelAll, AttemptFailed, CancelTimers, EnterConnected;
    FailingWakes(s, m.reason, env);
    LinkWakes(s);
  }

  lemma GivingUpWakes(s: State)
    ensures !GiveUp(s).cfg.blocked && GiveUp(s).phase == Idle
  {
    hide CancelAll;
  }

  lemma FailingWakes(s: State, reason: nat, env: Env)
    ensures AttemptFailed(s, reason, env).cfg.blocked == (s.cfg.blocked && s.retry.count > 0)
  {
    hide CancelAll, CancelPolls, RegisterRetry, GiveUp;
    GivingUpWakes(s.(lastReason := reason));
  }

  /** A command that arrives while a link is in progress posts exactly one failure and changes nothing
      else; a caller that was already waiting loses its latch to it. */
  lemma SecondCommandTakesLatch(s: State, m: Msg, env: Env)
    requires s.init && s.phase != Idle && s.phase != Connected && (m.event == ScanCmd || m.event == ConnectCmd)
    ensures var t := s.hist.tally;
            Step(s, m, env) == s.(cfg := s.cfg.(blocked := false),
                                  hist := s.hist.(tally := t.(connDone := t.connDone + 1, ongoing := t.ongoing + 1)))
  {
    hide CancelAll, CancelPolls, RegisterRetry, AddTimer, CancelTimers;
  }

  /** Losing an established link starts a new scan exactly when no delayed retry was left marked;
      otherwise the machine sits in the scan phase with no scan, no timer and no message of its own. */
  lemma LinkLossRescansIff(s: State, m: Msg, env: Env)
    requires s.init && s.phase == Connected && m.event == Disconnect && m.reason in {11, 12, 15, 16}
    requires TimersFit(s)
    ensures var r := Step(s, m, env);
            (r.hist.tally.scans == s.hist.tally.scans + 1 <==> !s.retry.delayed)
            && (s.retry.delayed ==> r.phase == Scan && r.hist.tally.scans == s.hist.tally.scans
                                    && r.queue == s.queue && r.clock.timers == [])
  {
    CancelPollsCounts(s.clock);
    if s.retry.delayed { NoTimersLeft(CancelPolls(s.clock)); }
  }

  // ---------- Back-off ----------

  /** The pause before a retry is at least the base interval, at most the cap, and never shorter than
      the pause before it, for both kinds of retry budget. */
  lemma BackOffGrows(roaming: bool, r: Retry, k: nat)
    requires r == RetryParams(r, roaming) && 0 < k < r.count
    ensures r.interval <= RetryDelay(r.(count := r.count - k + 1)) <= RetryDelay(r.(count := r.count - k)) <= MAX_RETRY_INTERVAL
  {
  }
}
