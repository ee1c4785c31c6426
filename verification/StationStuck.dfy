/** A run, with surroundings that keep to their contract, after which a lost link is never rebuilt: the
    report of a scan that a user had asked for before arrives while a retry is being delayed, it leads
    on to a link, and the delay mark survives it. */
module StationStuck {
  import opened Wrappers
  import opened Station
  import opened StationRuns
  import opened StationDhcp

  // The state is reached from power-on by a permitted run.
  ghost predicate Reachable(s: State) { exists vs: seq<Move> :: PermittedRun(POWER_ON, vs) && Run(POWER_ON, vs) == s }

  lemma {:induction false} RunMore(s: State, vs: seq<Move>, v: Move)
    requires PermittedRun(s, vs) && Permitted(Run(s, vs), v)
    ensures PermittedRun(s, vs + [v]) && Run(s, vs + [v]) == Apply(Run(s, vs), v)
    decreases |vs|
  {
    hide Apply, Permitted;
    if vs == [] {
      assert [] + [v] == [v] && [v][1..] == [];
    } else {
      RunMore(Apply(s, vs[0]), vs[1..], v);
      assert (vs + [v])[1..] == vs[1..] + [v] && (vs + [v])[0] == vs[0];
    }
  }

  lemma ReachMore(s: State, v: Move)
    requires Reachable(s) && Permitted(s, v)
    ensures Reachable(Apply(s, v))
  {
    hide Apply, Permitted, Run, PermittedRun;
    var vs :| PermittedRun(POWER_ON, vs) && Run(POWER_ON, vs) == s;
    RunMore(POWER_ON, vs, v);
  }

  const WELL := Env(true, 0, 1, true, false, None, NoCandidate, false)

  /** A message sent to an empty queue and taken at once. */
  lemma Exchange(s: State, m: Msg) returns (r: State)
    requires Reachable(s) && s.queue == [] && Permitted(s, Send(m))
    ensures Reachable(r) && r == Step(s, m, WELL)
  {
    hide Step;
    ReachMore(s, Send(m));
    var t := Apply(s, Send(m));
    assert t.queue == [m] && t.(queue := []) == s;
    ReachMore(t, Deliver(WELL));
    r := Apply(t, Deliver(WELL));
    assert t.queue[1..] == [];
  }

  lemma StartReachable() returns (s: State)
    ensures Reachable(s) && s.init && s.phase == Idle && s.queue == [] && s.clock == Clock(0, 0, []) && s.retry.count == 2
    ensures !s.retry.delayed && !s.cfg.blocked
  {
    assert Reachable(POWER_ON) by {
      hide Apply;
      assert PermittedRun(POWER_ON, []) && Run(POWER_ON, []) == POWER_ON;
    }
    s := Exchange(POWER_ON, Plain(Init));
    s := Exchange(s, Plain(ScanCmd));
  }

  lemma ConnectingReachable() returns (s: State)
    ensures Reachable(s) && s.init && s.phase == Connect && s.queue == [] && s.clock == Clock(0, 0, []) && s.retry == Retry(false, 2, 3, 2000)
    ensures !s.cfg.blocked
  {
    s := StartReachable();
    s := Exchange(s, Plain(ConnectCmd));
    s := Exchange(s, Plain(ScanDone));
  }

  // What a failed connect request leads to, from a clock that has not moved and has no timer.
  lemma FailureDelays(s: State)
    requires s.init && s.phase == Connect && s.queue == [] && s.clock == Clock(0, 0, []) && s.retry == Retry(false, 2, 3, 2000)
    ensures var r := Step(s, Plain(ConnectFail), WELL);
            && r.init && r.phase == Scan && r.queue == [] && r.retry.delayed && r.cfg == s.cfg
            && r.clock == RegisterRetry(Clock(0, 0, []), Retry(true, 2, 3, 2000))
  {
    hide RegisterRetry, GiveUp;
  }

  lemma FirstRetry()
    ensures var c := RegisterRetry(Clock(0, 0, []), Retry(true, 2, 3, 2000));
            c.now == 0 && |c.timers| == 1 && c.timers[0].handler == CONNECT_RETRY && c.timers[0].time == 2000
  {
  }

  lemma DelayedScanReachable() returns (s: State)
    ensures Reachable(s) && s.init && s.phase == Scan && s.queue == [] && s.retry.delayed && !s.cfg.blocked
    ensures s.clock.now == 0 && |s.clock.timers| == 1 && s.clock.timers[0].handler == CONNECT_RETRY && s.clock.timers[0].time == 2000
  {
    hide Step, Reachable, RegisterRetry;
    var c := ConnectingReachable();
    s := Exchange(c, Plain(ConnectFail));
    FailureDelays(c);
    FirstRetry();
  }

  lemma DelayedHandshakeReachable() returns (s: State)
    ensures Reachable(s) && s.init && s.phase == Handshake && s.queue == [] && s.retry.delayed && !s.cfg.blocked
    ensures s.clock.now == 0 && |s.clock.timers| == 1 && s.clock.timers[0].handler == CONNECT_RETRY && s.clock.timers[0].time == 2000
  {
    s := DelayedScanReachable();
    s := Exchange(s, Plain(ScanDone));
    s := Exchange(s, Plain(AssocSuccess));
  }

  lemma AddressWaitReachable() returns (s: State)
    ensures Reachable(s) && s.init && s.phase == Dhcp && s.queue == [] && s.retry.delayed && !s.cfg.blocked
    ensures s.clock.now == 0 && |s.clock.timers| == 2 && s.clock.timers[0].handler == DHCP_POLL && s.clock.timers[0].time == 100
  {
    s := DelayedHandshakeReachable();
    s := Exchange(s, Plain(DhcpStart));
  }

  lemma DelayedLinkReachable() returns (s: State)
    ensures Reachable(s) && s.init && s.phase == Connected && s.retry.delayed
  {
    s := AddressWaitReachable();
    ReachMore(s, Tick(100));
    s := Apply(s, Tick(100));
    ReachMore(s, Fire(WELL));
    s := Apply(s, Fire(WELL));
    ReachMore(s, Deliver(WELL));
    s := Apply(s, Deliver(WELL));
  }

  /** A connected machine can be reached whose next link loss leaves it in the scan phase without any
      scan being started and with no timer pending: nothing it does itself brings the link back. */
  lemma LostLinkNotRebuilt() returns (before: State, m: Msg)
    ensures Reachable(before) && before.phase == Connected && Permitted(before, Send(m)) && m.reason in {11, 12, 15, 16}
    ensures var r := Step(before, m, WELL);
            r.phase == Scan && r.hist.tally.scans == before.hist.tally.scans && r.clock.timers == []
  {
    hide Step, Run, PermittedRun;
    before := DelayedLinkReachable();
    m := Msg(Disconnect, NO_BEACON, None, 0);
    var vs :| PermittedRun(POWER_ON, vs) && Run(POWER_ON, vs) == before;
    PowerOnSound(vs);
    LinkLossRescansIff(before, m, WELL);
  }
}
