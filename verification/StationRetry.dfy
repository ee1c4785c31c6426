/** One move of an attempt to link that fails, in surroundings where everything fails: what is left to
    do gets less, and no scan and no wake-up is lost. StationAttempts.dfy puts the moves together. */
module StationRetry {
  import opened Wrappers
  import opened TimerQueue
  import opened Station
  import opened StationRuns

  // ---------- Surroundings in which everything fails ----------

  /** An answer to the one operation that is outstanding, given while no other answer waits; in the address
      wait, where the poller runs, the driver may report the loss of the link. */
  predicate Answers(s: State, m: Msg) {
    s.queue == [] && m.cfg == None &&
    match s.phase
    case Scan => s.clock.timers == [] && (m.event == ScanDone || m.event == ScanFail)
    case Connect => m.event == AssocSuccess || m.event == ConnectFail || m.event == Disconnect
    case Handshake => m.event == DhcpStart || m.event == ConnectFail || m.event == Disconnect
    case Dhcp => m.event == ConnectFail || m.event == Disconnect
    case _ => false
  }

  /** No user command, each outstanding operation answered once, and never an address. */
  predicate Allowed(s: State, v: Move) {
    match v
    case Deliver(env) => !env.staticIp
    case Fire(env) => !env.addressed && !env.staticIp
    case Send(m) => Answers(Strip(s), m)
    case Tick(_) => true
    case _ => false
  }

  // ---------- The shape of a failing attempt ----------

  predicate OneTimer(s: State, handler: nat) {
    |s.clock.timers| == 1 && s.clock.timers[0].handler == handler
    && s.clock.timers[0].data == SM && s.clock.timers[0].user == NULL
  }

  predicate Queued(s: State, e: Event) { |s.queue| == 1 && s.queue[0].event == e && s.queue[0].cfg == None }

  predicate AtRest(s: State) { s.phase == Idle && s.queue == [] && s.clock.timers == [] && !Armed(s) && !s.cfg.blocked }

  predicate RollingBack(s: State) {
    s.phase == Idle && Queued(s, ConnectCmd) && s.clock.timers == [] && !Armed(s) && !s.cfg.blocked && !s.retry.delayed
  }

  predicate RetryPending(s: State) { s.phase == Scan && s.queue == [] && OneTimer(s, CONNECT_RETRY) && s.retry.count > 0 }

  predicate DhcpPolling(s: State) { s.phase == Dhcp && s.queue == [] && OneTimer(s, DHCP_POLL) && 0 < s.polls <= DHCP_POLLING_LIMIT }

  // One operation is outstanding, or its answer is in the queue.
  predicate Operating(s: State) {
    s.clock.timers == [] &&
    match s.phase
    case Scan => s.queue == [] || Queued(s, ScanDone) || Queued(s, ScanFail)
    case Connect => s.queue == [] || Queued(s, AssocSuccess) || Queued(s, ConnectFail) || Queued(s, Disconnect)
    case Handshake => s.queue == [] || Queued(s, DhcpStart) || Queued(s, ConnectFail) || Queued(s, Disconnect)
    case Dhcp => Queued(s, DhcpFail)
    case _ => false
  }

  predicate Report(m: Msg) { (m.event == ConnectFail || m.event == Disconnect) && m.cfg == None }

  // A report waits while the poller still runs, or after it has given up as well.
  predicate Reported(s: State) {
    s.phase == Dhcp && |s.queue| == 1 && Report(s.queue[0]) && OneTimer(s, DHCP_POLL) && 0 < s.polls <= DHCP_POLLING_LIMIT
  }

  predicate ReportedTwice(s: State) {
    s.phase == Dhcp && |s.queue| == 2 && Report(s.queue[0]) && s.queue[1].event == DhcpFail && s.clock.timers == []
    && s.polls <= DHCP_POLLING_LIMIT
  }

  predicate Settled(s: State) {
    s.init && s.retry.count < ROAMING_RETRY_LIMIT
    && (AtRest(s) || RollingBack(s) || RetryPending(s)
        || ((DhcpPolling(s) || Reported(s) || ReportedTwice(s) || Operating(s)) && !s.retry.delayed))
  }

  // The poller's failure that is left over when a report has ended the address wait; it is ignored.
  predicate Stale(s: State) { (s.phase == Idle || s.phase == Scan) && s.queue != [] && s.queue[0].event == DhcpFail }

  function Strip(s: State): State { if Stale(s) then s.(queue := s.queue[1..]) else s }

  predicate Attempting(s: State) { Settled(Strip(s)) }

  // ---------- What is left to do ----------

  /** Scans still to be started: the retries left, a full budget if a rollback is armed, and one if
      its command is already queued. */
  function ScansLeft(s: State): nat {
    (if s.phase == Idle then 0 else s.retry.count)
    + (if Armed(s) then CONNECT_RETRY_LIMIT else 0)
    + (if s.phase == Idle && s.queue != [] then CONNECT_RETRY_LIMIT else 0)
  }

  // Progress within one attempt: an upper bound on the moves before it fails.
  function Rank(s: State): nat {
    if s.phase == Idle then |s.queue|
    else if s.queue != [] then
      match s.queue[0].event
      case ScanDone => 998
      case AssocSuccess => 980
      case DhcpStart => 960
      case _ => if s.phase == Dhcp && s.queue[0].event != DhcpFail then 250 + s.polls else 10
    else
      match s.phase
      case Scan => if s.clock.timers == [] then 999 else 5
      case Connect => 990
      case Handshake => 970
      case _ => 500 + s.polls
  }

  function Work(s: State): nat { 1000 * ScansLeft(s) + Rank(s) }

  /** The move does something: a message is taken, a timer fires, or an answer arrives. */
  predicate Effective(s: State, v: Move) {
    match v
    case Deliver(_) => s.queue != []
    case Fire(_) => HeadDue(s.clock)
    case Send(_) => true
    case _ => false
  }

  function WakeUps(s: State): nat { s.hist.tally.connDone + if s.cfg.blocked then 1 else 0 }

  /** From `s` to `r`, no scan is gained or lost and no wake-up either. */
  predicate Keeps(s: State, r: State) {
    Settled(r)
    && r.hist.tally.scans + ScansLeft(r) == s.hist.tally.scans + ScansLeft(s)
    && WakeUps(r) == WakeUps(s)
  }

  lemma ScanKeeps(s: State, env: Env)
    requires s.init && s.queue == [] && s.clock.timers == [] && !s.retry.delayed && s.retry.count < ROAMING_RETRY_LIMIT
    ensures var r := EnterScan(s, env);
            Settled(r) && r.phase == Scan && r.hist.tally.scans == s.hist.tally.scans + 1
            && r.retry == s.retry && Armed(r) == Armed(s) && WakeUps(r) == WakeUps(s) && Rank(r) <= 999
            && r.queue == if env.scanStarts then [] else [Plain(ScanFail)]
  {
  }

  lemma GiveUpKeeps(s: State)
    requires s.init && s.queue == [] && CancelAll(s.clock).timers == [] && s.retry.count == 0 && s.phase != Idle
    ensures Keeps(s, GiveUp(s)) && Work(GiveUp(s)) <= 1000 * ScansLeft(s) + 1
  {
    var t := Rollback(s);
    assert t.queue == if Armed(s) then [Plain(ConnectCmd)] else [];
    assert GiveUp(s).clock.timers == [];
  }

  lemma FailedKeeps(s: State, reason: nat, env: Env)
    requires s.init && s.queue == [] && CancelPolls(s.clock).timers == [] && CancelAll(s.clock).timers == [] && s.phase != Idle && s.phase != Connected
    requires s.retry.count < ROAMING_RETRY_LIMIT
    ensures Keeps(s, AttemptFailed(s, reason, env)) && Work(AttemptFailed(s, reason, env)) <= 1000 * ScansLeft(s) + 5
  {
    var t := s.(lastReason := reason);
    if t.retry.count == 0 {
      GiveUpKeeps(t);
    } else {
      hide GiveUp, RetryDelay;
      var u := EnterScan(t.(retry := t.retry.(delayed := true)), env);
      assert u.clock.timers == [];
      assert |RegisterRetry(u.clock, u.retry).timers| == 1;
    }
  }

  lemma DeliverScan(s: State, m: Msg, env: Env)
    requires s.init && s.phase == Scan && s.queue == [] && s.clock.timers == [] && !s.retry.delayed && s.retry.count < ROAMING_RETRY_LIMIT
    requires (m.event == ScanDone || m.event == ScanFail) && m.cfg == None
    ensures var r := InScan(s, m, env); Keeps(s, r) && Work(r) < 1000 * ScansLeft(s) + if m.event == ScanDone then 998 else 10
  {
    hide GiveUp, RetryDelay;
    if m.event == ScanFail && s.retry.count == 0 { GiveUpKeeps(s); }
  }

  // The pollers are all that a linking machine has pending.
  predicate OnlyPolls(s: State) { s.clock.timers == [] || (s.phase == Dhcp && OneTimer(s, DHCP_POLL)) }

  lemma PollsCancelled(s: State)
    requires OnlyPolls(s)
    ensures CancelPolls(s.clock).timers == [] && CancelAll(s.clock).timers == []
  {
    hide CancelTimers;
    if s.clock.timers != [] {
      HeadCounts(s.clock);
      assert s.clock.timers[1..] == [];
    }
    CancelPollsCounts(s.clock);
    CancelAllCounts(s.clock);
    NoTimersLeft(CancelPolls(s.clock));
    NoTimersLeft(CancelAll(s.clock));
  }

  lemma DeliverLinking(s: State, m: Msg, env: Env)
    requires s.init && s.queue == [] && OnlyPolls(s) && !s.retry.delayed && s.retry.count < ROAMING_RETRY_LIMIT
    requires m.event != Init && m.cfg == None && !env.staticIp
    requires (s.phase == Connect && (m.event == AssocSuccess || m.event == ConnectFail || m.event == Disconnect))
          || (s.phase == Handshake && (m.event == DhcpStart || m.event == ConnectFail || m.event == Disconnect))
          || (s.phase == Dhcp && (m.event == DhcpFail || Report(m)))
    ensures var r := Step(s, m, env);
            Keeps(s, r) && Work(r) < 1000 * ScansLeft(s) +
              if m.event == AssocSuccess then 980 else if m.event == DhcpStart then 960 else 10
  {
    hide AttemptFailed;
    PollsCancelled(s);
    if m.event == ConnectFail || m.event == Disconnect || m.event == DhcpFail {
      FailedKeeps(s, m.reason, env);
    }
  }

  lemma DeliverRollback(s: State, m: Msg, env: Env)
    requires s.init && s.phase == Idle && s.queue == [] && s.clock.timers == [] && !s.retry.delayed && !Armed(s) && !s.cfg.blocked
    requires m.event == ConnectCmd && m.cfg == None
    ensures var r := Step(s, m, env);
            Settled(r) && r.hist.tally.scans + ScansLeft(r) == s.hist.tally.scans + CONNECT_RETRY_LIMIT
            && WakeUps(r) == WakeUps(s) && Work(r) < 1000 * CONNECT_RETRY_LIMIT
  {
    hide EnterScan;
    ScanKeeps(s.(retry := RetryParams(s.retry, false)), env);
  }

  // ---------- One move ----------

  lemma DeliverKeeps(s: State, env: Env)
    requires Settled(s) && s.queue != [] && !ReportedTwice(s) && !env.staticIp
    ensures var r := Apply(s, Deliver(env)); Keeps(s, r) && Work(r) < Work(s)
  {
    hide Step, InScan, Keeps;
    var t := s.(queue := s.queue[1..]);
    var m := s.queue[0];
    assert t.queue == [];
    if RollingBack(s) {
      DeliverRollback(t, m, env);
      KeepsIntro(s, Step(t, m, env));
    } else if s.phase == Scan {
      DeliverScan(t, m, env);
      assert Step(t, m, env) == InScan(t, m, env) by { ScanStep(t, m, env); }
      KeepsTail(s, t, Step(t, m, env));
    } else {
      DeliverLinking(t, m, env);
      KeepsTail(s, t, Step(t, m, env));
    }
  }

  lemma ScanStep(s: State, m: Msg, env: Env)
    requires s.init && m.event != Init && s.phase == Scan
    ensures Step(s, m, env) == InScan(s, m, env)
  {
  }

  lemma KeepsIntro(s: State, r: State)
    requires Settled(r) && WakeUps(r) == WakeUps(s)
    requires r.hist.tally.scans + ScansLeft(r) == s.hist.tally.scans + ScansLeft(s)
    ensures Keeps(s, r)
  {
  }

  lemma KeepsTail(s: State, t: State, r: State)
    requires t == s.(queue := []) && s.phase != Idle && Keeps(t, r)
    ensures Keeps(s, r)
  {
  }

  lemma RetryKeeps(s: State, env: Env)
    requires Settled(s) && RetryPending(s)
    ensures var r := RetryConnect(s.(clock := s.clock.(timers := s.clock.timers[1..])), env); Keeps(s, r) && Work(r) < Work(s)
  {
    hide EnterScan;
    var t := s.(clock := s.clock.(timers := s.clock.timers[1..]));
    assert t.clock.timers == [];
    ScanKeeps(t.(retry := t.retry.(count := (t.retry.count + WRAP - 1) % WRAP, delayed := false)), env);
  }

  lemma PollKeeps(s: State, env: Env)
    requires Settled(s) && (DhcpPolling(s) || Reported(s)) && !env.addressed && !env.staticIp
    ensures var r := PollDhcp(s.(clock := s.clock.(timers := s.clock.timers[1..])), env); Keeps(s, r) && Work(r) < Work(s)
  {
    assert s.clock.timers[1..] == [];
  }

  lemma FireKeeps(s: State, env: Env)
    requires Settled(s) && HeadDue(s.clock) && !env.addressed && !env.staticIp
    ensures var r := Apply(s, Fire(env)); Keeps(s, r) && Work(r) < Work(s)
  {
    hide TimeAfterEq, RetryConnect, PollDhcp, Keeps, Work;
    if RetryPending(s) {
      RetryKeeps(s, env);
    } else {
      PollKeeps(s, env);
    }
  }

  lemma SendKeeps(s: State, m: Msg)
    requires Settled(s) && Answers(s, m)
    ensures var r := Apply(s, Send(m)); Keeps(s, r) && Work(r) < Work(s)
  {
  }

  lemma SettledMove(s: State, v: Move)
    requires Settled(s) && Allowed(s, v) && !(v.Deliver? && ReportedTwice(s))
    ensures Keeps(s, Apply(s, v))
    ensures if Effective(s, v) then Work(Apply(s, v)) < Work(s) else Work(Apply(s, v)) == Work(s)
  {
    hide Step, RunTimer, TimeAfterEq;
    match v
    case Deliver(env) => if s.queue != [] { hide Apply; DeliverKeeps(s, env); }
    case Fire(env) => if HeadDue(s.clock) { hide Apply; FireKeeps(s, env); }
    case Send(m) => SendKeeps(s, m) by { SettledNotStale(s); }
    case _ =>
  }

  // ---------- With a stale failure in the queue ----------

  function Remaining(s: State): nat { ScansLeft(Strip(s)) }

  function Effort(s: State): nat { Work(Strip(s)) + if Stale(s) then 1 else 0 }

  lemma SettledNotStale(s: State)
    requires Settled(s)
    ensures s.init && !Stale(s) && Strip(s) == s
  {
  }

  function Prefixed(m: Msg, s: State): State { s.(queue := [m] + s.queue) }

  lemma PrefixedStrips(m: Msg, s: State)
    requires Settled(s) && m.event == DhcpFail && (s.phase == Idle || s.phase == Scan)
    ensures Stale(Prefixed(m, s)) && Strip(Prefixed(m, s)) == s
  {
    assert ([m] + s.queue)[1..] == s.queue;
  }

  /** Nothing that a failed attempt does depends on a failure still in the queue. */
  lemma FailedPrefixed(m: Msg, s: State, reason: nat, env: Env)
    requires s.queue == []
    ensures AttemptFailed(Prefixed(m, s), reason, env) == Prefixed(m, AttemptFailed(s, reason, env))
    ensures var r := AttemptFailed(s, reason, env); r.phase == Idle || r.phase == Scan
  {
    hide CancelAll, CancelPolls, RegisterRetry, GiveUp;
    GiveUpPrefixed(m, s.(lastReason := reason));
    assert [m] + [] == [m];
  }

  lemma GiveUpPrefixed(m: Msg, s: State)
    requires s.queue == []
    ensures GiveUp(Prefixed(m, s)) == Prefixed(m, GiveUp(s)) && GiveUp(s).phase == Idle
  {
    hide CancelAll;
    assert [m] + [] == [m];
  }

  lemma TwiceReportedFails(s: State, env: Env)
    requires Settled(s) && ReportedTwice(s)
    ensures Apply(s, Deliver(env)) == Prefixed(s.queue[1], AttemptFailed(s.(queue := []), s.queue[0].reason, env))
  {
    hide AttemptFailed, RunTimer;
    FailedPrefixed(s.queue[1], s.(queue := []), s.queue[0].reason, env);
    assert s.queue[1..] == [s.queue[1]] && [s.queue[1]] + [] == [s.queue[1]];
  }

  lemma TwiceReportedKeeps(s: State, env: Env)
    requires Settled(s) && ReportedTwice(s)
    ensures Advances(s, Apply(s, Deliver(env))) && Effort(Apply(s, Deliver(env))) < Effort(s)
  {
    hide Apply, AttemptFailed;
    var t := s.(queue := []);
    var f := AttemptFailed(t, s.queue[0].reason, env);
    SettledNotStale(s);
    TwiceReportedFails(s, env);
    PollsCancelled(t);
    FailedKeeps(t, s.queue[0].reason, env);
    FailedPrefixed(s.queue[1], t, s.queue[0].reason, env);
    PrefixedStrips(s.queue[1], f);
  }

  lemma StaleIgnored(s: State, env: Env)
    requires s.init && Stale(s)
    ensures Apply(s, Deliver(env)) == Strip(s)
  {
    hide RunTimer;
  }

  lemma RetryPrefixed(m: Msg, s: State, env: Env)
    requires |s.queue| <= 1
    ensures RetryConnect(Prefixed(m, s), env) == Prefixed(m, RetryConnect(s, env))
    ensures RetryConnect(s, env).phase == Scan
  {
    hide CancelPolls;
    assert ([m] + s.queue) + [Plain(ScanFail)] == [m] + (s.queue + [Plain(ScanFail)]);
  }

  lemma StaleFires(s: State, env: Env)
    requires Attempting(s) && Stale(s) && HeadDue(s.clock)
    ensures HeadDue(Strip(s).clock) && Apply(s, Fire(env)) == Prefixed(s.queue[0], Apply(Strip(s), Fire(env)))
    ensures Apply(Strip(s), Fire(env)).phase == Scan
  {
    hide RetryConnect, TimeAfterEq;
    var b := Strip(s);
    assert s.queue == [s.queue[0]] + b.queue;
    RetryPrefixed(s.queue[0], b.(clock := b.clock.(timers := b.clock.timers[1..])), env);
  }

  /** From `s` to `r`, the attempt goes on: no scan is gained or lost and no wake-up either. */
  predicate Advances(s: State, r: State) {
    Attempting(r) && r.hist.tally.scans + Remaining(r) == s.hist.tally.scans + Remaining(s) && WakeUps(r) == WakeUps(s)
  }

  lemma StaleMove(s: State, v: Move)
    requires Attempting(s) && Stale(s) && Allowed(s, v)
    ensures var r := Apply(s, v);
            Advances(s, r) && if Effective(s, v) then Effort(r) < Effort(s) else Effort(r) == Effort(s)
  {
    hide Step, RunTimer, TimeAfterEq, Settled;
    var b := Strip(s);
    SettledNotStale(b);
    match v
    case Deliver(env) => StaleIgnored(s, env);
    case Fire(env) =>
      if HeadDue(s.clock) {
        hide Apply;
        StaleFires(s, env);
        FireKeeps(b, env);
        PrefixedStrips(s.queue[0], Apply(b, Fire(env)));
      }
    case Send(m) => StaleSend(s, m);
    case Tick(ms) =>
      SettledMove(b, v);
      assert Strip(Apply(s, v)) == Apply(b, v);
    case _ =>
  }

  lemma StaleSend(s: State, m: Msg)
    requires Attempting(s) && Stale(s) && Answers(Strip(s), m)
    ensures Advances(s, Apply(s, Send(m))) && Effort(Apply(s, Send(m))) < Effort(s)
  {
    var b := Strip(s);
    var r := Apply(b, Send(m));
    SettledNotStale(b);
    SendKeeps(b, m);
    PrefixedStrips(s.queue[0], r);
    assert s.queue == [s.queue[0]] && b.queue == [];
    assert Apply(s, Send(m)) == Prefixed(s.queue[0], r);
  }

  /** One move of the surroundings in which everything fails: the scans still to come, and the
      wake-ups, stay accounted for, and every move that does something brings the end nearer. */
  lemma MoveKeeps(s: State, v: Move)
    requires Attempting(s) && Allowed(s, v)
    ensures Advances(s, Apply(s, v))
    ensures if Effective(s, v) then Effort(Apply(s, v)) < Effort(s) else Effort(Apply(s, v)) == Effort(s)
  {
    hide Apply, Settled, ReportedTwice, Allowed, Effective;
    if Stale(s) {
      StaleMove(s, v);
    } else if v.Deliver? && ReportedTwice(s) {
      EffectiveTwice(s, v);
      TwiceReportedKeeps(s, v.env);
    } else {
      SettledMove(s, v);
      SettledNotStale(Apply(s, v));
    }
  }

  lemma EffectiveTwice(s: State, v: Move)
    requires ReportedTwice(s) && v.Deliver?
    ensures Effective(s, v)
  {
  }
}
