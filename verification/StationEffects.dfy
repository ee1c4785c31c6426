/** What each message and timer does to the station machine, in plain numbers and for every state: the
    reasons that count as a lost link, the retry budgets, the rollback, the polling, and who is woken. */
module StationEffects {
  import opened Wrappers
  import opened TimerQueue
  import opened Station
  import opened StationRuns

  // A queue with one more message, if there is room for it.
  function Queued(q: seq<Msg>, m: Msg): seq<Msg> { if |q| < 24 then q + [m] else q }

  // A scan is tried: if it does not start, the failure goes into the queue.
  function Tried(q: seq<Msg>, env: Env): seq<Msg> { if env.scanStarts then q else Queued(q, Msg(ScanFail, 0, None, 0)) }

  function OneScan(h: History, path: seq<Phase>): History {
    h.(path := h.path + path, tally := h.tally.(scans := h.tally.scans + 1))
  }

  lemma NoPolls(s: State)
    requires TimersFit(s) && (s.phase == Idle || s.phase == Connected)
    ensures CancelPolls(s.clock) == s.clock.(timers := [])
  {
    CancelPollsCounts(s.clock);
    NoTimersLeft(CancelPolls(s.clock));
  }

  lemma NoTimers(s: State)
    requires TimersFit(s)
    ensures CancelAll(s.clock) == s.clock.(timers := [])
  {
    CancelAllCounts(s.clock);
    NoTimersLeft(CancelAll(s.clock));
  }

  // ---------- Starting to link ----------

  /** A connected machine that is told of a disconnection records the reason. A received deauthentication (11),
      missing beacons (12), an unspecified reason (15) and a failed SA query (16) make it scan with a full
      roaming budget; with every other reason it stops, with no timer left. */
  lemma DisconnectionMeans(s: State, m: Msg, env: Env)
    requires TimersFit(s) && s.init && s.phase == Connected && m.event == Disconnect
    ensures var r := Step(s, m, env);
            if m.reason in {11, 12, 15, 16} then
              r == s.(phase := Scan, mirror := Scan, lastReason := m.reason, retry := Retry(s.retry.delayed, 99, 100, 2500),
                      clock := s.clock.(timers := []), queue := if s.retry.delayed then s.queue else Tried(s.queue, env),
                      hist := if s.retry.delayed then s.hist.(path := s.hist.path + [Scan]) else OneScan(s.hist, [Scan]))
            else
              r == s.(phase := Idle, mirror := Idle, lastReason := m.reason, retry := s.retry.(delayed := false),
                      clock := s.clock.(timers := []), hist := s.hist.(path := s.hist.path + [Idle]))
  {
    hide CancelPolls, CancelAll;
    NoPolls(s);
    NoTimers(s);
  }

  /** A connect command to an idle or a connected machine takes the configuration it carries over, latch
      included, and starts scanning with the small budget: two more tries, two seconds apart. */
  lemma ConnectCommandMeans(s: State, m: Msg, env: Env)
    requires TimersFit(s) && s.init && (s.phase == Idle || s.phase == Connected) && m.event == ConnectCmd
    ensures var r := Step(s, m, env);
            var t := s.hist.tally;
            var waits := if m.cfg != None && m.cfg.value.blocked then 1 else 0;
            var h := s.hist.(tally := t.(blockedConnects := t.blockedConnects + waits));
            r == s.(phase := Scan, mirror := Scan, cfg := if m.cfg == None then s.cfg else m.cfg.value,
                    retry := Retry(false, 2, 3, 2000), clock := s.clock.(timers := []), queue := Tried(s.queue, env),
                    hist := OneScan(h, if s.phase == Idle then [Scan] else [Idle, Scan]))
  {
    hide CancelPolls, CancelAll;
    NoPolls(s);
    NoTimers(s);
    assert CancelPolls(s.clock.(timers := [])) == s.clock.(timers := []) by { NothingToCancel(s.clock.(timers := [])); }
    assert s.hist.path + [Idle] + [Scan] == s.hist.path + [Idle, Scan];
  }

  lemma NothingToCancel(c: Clock)
    requires c.timers == []
    ensures CancelPolls(c) == c
  {
  }

  /** An auto-connect takes name and channel of the stored network and scans with the roaming budget; without
      a stored network nothing is begun. */
  lemma AutoConnectMeans(s: State, m: Msg, env: Env)
    requires TimersFit(s) && s.init && s.phase == Idle && m.event == AutoConnectCmd
    ensures var r := Step(s, m, env);
            match env.joined
            case None => r == s.(mirror := Idle, clock := s.clock.(timers := []), hist := s.hist.(path := s.hist.path + [Idle]))
            case Some(c) =>
              r == s.(phase := Scan, mirror := Scan, cfg := s.cfg.(ssid := c.ssid, channel := c.channel),
                      retry := Retry(false, 99, 100, 2500), clock := s.clock.(timers := []), queue := Tried(s.queue, env),
                      hist := OneScan(s.hist, [Scan]))
  {
    hide CancelPolls, CancelAll;
    NoPolls(s);
    NoTimers(s);
  }

  /** The first event of all, or an explicit one, sets everything up but the configuration. */
  lemma ResetMeans(s: State, m: Msg, env: Env)
    requires TimersFit(s) && (!s.init || m.event == Init)
    ensures Step(s, m, env) ==
            s.(init := true, phase := Idle, mirror := Idle, polls := 0, scanBlocked := false, retry := Retry(false, 2, 3, 2000),
               preroam := Preroam(true, false, false, 0, 0), clock := s.clock.(timers := []),
               hist := s.hist.(path := s.hist.path + [Idle]))
  {
    hide CancelAll;
    NoTimers(s);
  }

  // ---------- On the way ----------

  /** Each success on the way brings the next phase and nothing else, but for the access point that a connect
      request settles on, the failure it may report at once, and the poller that an address wait starts:
      200 polls, the first in 100 ms. */
  lemma ProgressMeans(s: State, m: Msg, env: Env)
    requires s.init
    ensures s.phase == Scan && m.event == ScanDone ==>
              Step(s, m, env) == s.(phase := Connect, mirror := Connect, cfg := s.cfg.(bssid := env.bssid),
                                    queue := if env.connectReason == 0 then s.queue
                                             else Queued(s.queue, Msg(ConnectFail, env.connectReason, None, 0)),
                                    hist := s.hist.(path := s.hist.path + [Connect]))
    ensures s.phase == Connect && m.event == AssocSuccess ==>
              Step(s, m, env) == s.(phase := Handshake, mirror := Handshake, hist := s.hist.(path := s.hist.path + [Handshake]))
    ensures s.phase == Handshake && m.event == DhcpStart ==>
              Step(s, m, env) == s.(phase := Dhcp, mirror := Dhcp, polls := if env.staticIp then s.polls else 200,
                                    clock := AddTimer(s.clock, 100, 1),
                                    hist := s.hist.(path := s.hist.path + [Dhcp], stay := s.hist.stay + 1))
  {
    hide AddTimer;
  }

  /** A started timer is one more in the list, due after the given time, and takes the next number. */
  lemma TimerStarted(c: Clock, ms: nat, handler: nat, t: Timer)
    ensures var r := AddTimer(c, ms, handler);
            r.now == c.now && r.nextId == c.nextId + 1
            && (t in r.timers <==> t in c.timers || t == Timer((c.now + ms) % 0x1_0000_0000, handler, 1, 0, c.now + ms, c.nextId))
  {
    InsertMembers(c.timers, Timer((c.now % WRAP + ms) % WRAP, handler, SM, NULL, c.now + ms, c.nextId));
    assert (c.now % 0x1_0000_0000 + ms) % 0x1_0000_0000 == (c.now + ms) % 0x1_0000_0000;
  }

  /** The link is up: reason and roaming marks are cleared, the delayed retry is cancelled, and either the
      waiting caller is told of the success or, if there is none, a success event is sent. */
  lemma LinkUpMeans(s: State, m: Msg, env: Env)
    requires s.init && s.phase == Dhcp && m.event == DhcpSuccess
    ensures var r := Step(s, m, env);
            var t := s.hist.tally;
            r == s.(phase := Connected, mirror := Connected, lastReason := 0, cfg := s.cfg.(blocked := false, withBssid := false),
                    preroam := s.preroam.(start := false, count := 0, backup := 0), clock := r.clock,
                    queue := if s.cfg.blocked then s.queue else Queued(s.queue, Msg(ConnectSuccess, 0, None, 0)),
                    hist := s.hist.(path := s.hist.path + [Connected], tally :=
                      if s.cfg.blocked then t.(links := t.links + 1, connDone := t.connDone + 1, connOk := t.connOk + 1)
                      else t.(links := t.links + 1, successes := t.successes + 1)))
            && CountsOf(r.clock) == Counts(0, CountsOf(s.clock).dhcp, CountsOf(s.clock).link)
  {
    hide CancelTimers;
    CancelCounts(s.clock, CONNECT_RETRY);
  }

  /** A report that ends an attempt on its way. */
  predicate Broken(s: State, m: Msg) {
    (s.phase == Connect || s.phase == Handshake || s.phase == Dhcp)
    && (m.event == ConnectFail || m.event == Disconnect || (m.event == DhcpFail && s.phase == Dhcp))
  }

  /** A broken attempt with retries left goes back to the scan phase without scanning: the retry timer is
      pending, the polls are gone and the reason is recorded. */
  lemma RetryMeans(s: State, m: Msg, env: Env)
    requires TimersFit(s) && s.init && Broken(s, m) && s.retry.count > 0
    ensures var r := Step(s, m, env);
            r == s.(phase := Scan, mirror := Scan, lastReason := m.reason, retry := s.retry.(delayed := true), clock := r.clock,
                    hist := s.hist.(path := s.hist.path + [Scan]))
            && CountsOf(r.clock) == Counts(1, 0, 0) && |r.clock.timers| == 1
  {
    hide RegisterRetry, CancelPolls;
    CancelPollsCounts(s.clock);
    RetryCounts(CancelPolls(s.clock), s.retry.(delayed := true));
    CountsAddUp(RegisterRetry(CancelPolls(s.clock), s.retry.(delayed := true)));
  }

  /** What giving up leaves: idle, no timer, the waiting caller told of the failure, and if roaming was under
      way with an access point to fall back to, one connect command for that one on any channel. */
  predicate GaveUp(s: State, r: State) {
    var t := s.hist.tally;
    var back := s.preroam.start && s.preroam.backup != 0;
    r == s.(phase := Idle, mirror := Idle, lastReason := r.lastReason, retry := s.retry.(delayed := false), clock := s.clock.(timers := []),
            cfg := if back then s.cfg.(blocked := false, channel := 255, bssid := s.preroam.backup, withBssid := true)
                   else s.cfg.(blocked := false),
            preroam := if back then s.preroam.(start := false, count := 0, backup := 0) else s.preroam,
            queue := if back then Queued(s.queue, Msg(ConnectCmd, 0, None, 0)) else s.queue,
            hist := s.hist.(path := s.hist.path + [Idle],
                            tally := if s.cfg.blocked then t.(connDone := t.connDone + 1) else t))
  }

  lemma GivenUp(s: State)
    requires TimersFit(s)
    ensures GaveUp(s, GiveUp(s)) && GiveUp(s).lastReason == s.lastReason
  {
    hide CancelAll;
    NoTimers(s);
  }

  lemma GiveUpMeans(s: State, m: Msg, env: Env)
    requires TimersFit(s) && s.init && s.retry.count == 0
    ensures Broken(s, m) ==> GaveUp(s, Step(s, m, env)) && Step(s, m, env).lastReason == m.reason
    ensures s.phase == Scan && m.event == ScanFail ==> GaveUp(s, Step(s, m, env)) && Step(s, m, env).lastReason == s.lastReason
  {
    hide GiveUp;
    var t := s.(lastReason := m.reason);
    GivenUp(s);
    GivenUp(t);
    assert GaveUp(t, GiveUp(t)) ==> GaveUp(s, GiveUp(t)) by { hide TimersFit; }
    hide GaveUp;
  }

  /** A scan that fails with retries left changes nothing but the timer list, which then holds the one retry. */
  lemma ScanFailedMeans(s: State, m: Msg, env: Env)
    requires TimersFit(s) && s.init && s.phase == Scan && m.event == ScanFail && s.retry.count > 0
    ensures var r := Step(s, m, env);
            r == s.(clock := r.clock) && CountsOf(r.clock) == Counts(1, 0, 0)
  {
    hide RegisterRetry;
    RetryCounts(s.clock, s.retry);
  }

  /** A disconnect command, in every phase but idle, and a failure report during the scan: the machine stops
      with no timer left, and tells nobody. */
  lemma StopMeans(s: State, m: Msg, env: Env)
    requires TimersFit(s) && s.init
    requires (m.event == DisconnectCmd && s.phase != Idle) || (m.event == ConnectFail && s.phase == Scan)
    ensures Step(s, m, env) == s.(phase := Idle, mirror := Idle, retry := s.retry.(delayed := false), clock := s.clock.(timers := []),
                                  hist := s.hist.(path := s.hist.path + [Idle]))
  {
    hide CancelAll;
    NoTimers(s);
  }

  /** The events that each phase acts upon; all others leave the machine as it is. */
  function ActsUpon(p: Phase): set<Event> {
    match p
    case Idle => {ScanCmd, ConnectCmd, AutoConnectCmd, ScanDone, Init}
    case Scan => {ScanCmd, ConnectCmd, DisconnectCmd, ConnectFail, ScanDone, ScanFail, Init}
    case Connect => {ScanCmd, ConnectCmd, DisconnectCmd, AssocSuccess, ConnectFail, Disconnect, Init}
    case Handshake => {ScanCmd, ConnectCmd, DisconnectCmd, ConnectFail, Disconnect, DhcpStart, Init}
    case Dhcp => {ScanCmd, ConnectCmd, DisconnectCmd, DhcpSuccess, DhcpFail, ConnectFail, Disconnect, Init}
    case Connected => {ScanCmd, ConnectCmd, DisconnectCmd, ScanDone, ScanFail, Disconnect, RoamingStart, Init}
  }

  lemma OthersIgnored(s: State, m: Msg, env: Env)
    requires s.init && m.event !in ActsUpon(s.phase)
    ensures Step(s, m, env) == s
  {
  }

  // ---------- Scans asked for ----------

  /** Exactly when a caller that waits for a scan is still waiting after a message: a failed scan wakes it
      only while the machine is connected, and nothing does while a link is being set up. */
  lemma ScanCallerWokenIff(s: State, m: Msg, env: Env)
    requires s.init && s.scanBlocked
    ensures !Step(s, m, env).scanBlocked <==>
            m.event == Init
            || ((s.phase == Idle || s.phase == Connected) && (m.event == ScanDone || (m.event == ScanCmd && !env.scanStarts)))
            || (s.phase == Connected && m.event == ScanFail)
  {
    hide CancelAll, CancelPolls, RegisterRetry, AddTimer, CancelTimers;
  }

  /** A scan command, or the end of a scan asked for, changes nothing but the waiting caller, who is told once. */
  lemma ScanCommandMeans(s: State, m: Msg, env: Env)
    requires s.init && (s.phase == Idle || s.phase == Connected) && !s.preroam.scanning
    requires m.event == ScanCmd || m.event == ScanDone || (m.event == ScanFail && s.phase == Connected)
    ensures var t := s.hist.tally;
            Step(s, m, env) ==
            if s.scanBlocked && !(m.event == ScanCmd && env.scanStarts)
            then s.(scanBlocked := false, hist := s.hist.(tally := t.(scanDone := t.scanDone + 1))) else s
  {
  }

  // ---------- Roaming ----------

  /** A notice that the signal gets weak makes the machine remember its access point and look at the link
      at once, if roaming is switched on. */
  lemma RoamingStartMeans(s: State, m: Msg, env: Env)
    requires s.init && s.phase == Connected && m.event == RoamingStart
    ensures Step(s, m, env) ==
            if !s.preroam.enable then s
            else s.(preroam := s.preroam.(start := true, backup := s.cfg.bssid), clock := AddTimer(s.clock, 1, 2))
  {
    hide AddTimer;
  }

  /** What a polling scan that has found a better access point leads to: nothing if there is none, or it is
      too weak; a connect command on its channel if it is strong; for a fast transition the polling ends,
      and if it is strong the frame exchange for it is begun. */
  lemma PollingScanMeans(s: State, m: Msg, env: Env)
    requires s.init && s.phase == Connected && m.event == ScanDone && s.preroam.scanning && !s.scanBlocked
    ensures var r := Step(s, m, env);
            var p := s.preroam.(scanning := false);
            match env.roam
            case FastWeak => r == s.(preroam := p.(count := 0), clock := r.clock) && CountsOf(r.clock) == CountsOf(s.clock).(link := 0)
            case FastStrong(ch) =>
              r == s.(preroam := p.(count := 0), clock := r.clock, cfg := s.cfg.(channel := ch),
                      queue := Queued(s.queue, Msg(Frame, 0, None, 0)))
              && CountsOf(r.clock) == CountsOf(s.clock).(link := 0)
            case Strong(ch) => r == s.(preroam := p, cfg := s.cfg.(channel := ch), queue := Queued(s.queue, Msg(ConnectCmd, 0, None, 0)))
            case _ => r == s.(preroam := p)
  {
    hide CancelTimers;
    CancelCounts(s.clock, LINK_POLL);
  }

  /** A look at the link: nothing unless roaming is on and under way; the end of it if the signal has
      recovered; otherwise a look again in 3 s, and a scan with each of the first ten looks and every tenth
      after that. */
  lemma LinkPollMeans(s: State, env: Env)
    ensures var p := s.preroam;
            RunTimer(s, 2, env) ==
            if !p.enable || !p.start then s
            else if env.recovered then s.(preroam := p.(start := false, count := 0, backup := 0))
            else s.(preroam := p.(scanning := p.scanning || p.count < 10 || p.count % 10 == 0, count := (p.count + 1) % 65536),
                    clock := AddTimer(s.clock, 3000, 2))
  {
    hide AddTimer;
  }

  // ---------- Address wait and retries ----------

  /** The state after `k` polls at which there was no address. */
  function Polled(s: State, env: Env, k: nat): State { if k == 0 then s else RunTimer(Polled(s, env, k - 1), 1, env) }

  /** While there is no address the poller asks again every 100 ms, and the 200th poll of an address wait reports the
      failure and asks no more. */
  lemma {:induction false} PollsRunOut(s: State, env: Env, k: nat)
    requires s.polls == 200 && !env.addressed && !env.staticIp && 1 <= k <= 200
    ensures var r, before := Polled(s, env, k), Polled(s, env, k - 1);
            r == before.(polls := 200 - k,
                         clock := if k < 200 then AddTimer(before.clock, 100, 1) else before.clock,
                         queue := if k < 200 then before.queue else Queued(before.queue, Msg(DhcpFail, 0, None, before.hist.stay)))
    decreases k
  {
    hide AddTimer;
    if k > 1 { PollsRunOut(s, env, k - 1); }
  }

  /** Once there is an address, or a static one is set, the poller reports the success and asks no more. */
  lemma AddressFound(s: State, env: Env)
    requires env.addressed || env.staticIp
    ensures RunTimer(s, 1, env) == s.(queue := Queued(s.queue, Msg(DhcpSuccess, 0, None, s.hist.stay)))
  {
  }

  /** The retry timer takes one try off the budget, clears the mark and scans. */
  lemma RetryFires(s: State, env: Env)
    requires s.retry.count > 0 && s.retry.count < 0x1_0000_0000
    ensures var r := RunTimer(s, 3, env);
            r == s.(phase := Scan, mirror := Scan, retry := s.retry.(delayed := false, count := s.retry.count - 1), clock := r.clock,
                    queue := Tried(s.queue, env), hist := OneScan(s.hist, [Scan]))
            && CountsOf(r.clock) == Counts(CountsOf(s.clock).retry, 0, 0)
  {
    hide CancelPolls;
    CancelPollsCounts(s.clock);
  }

  /** The pauses in numbers: 2 s after a command; while coming back to a lost link 2.5 s for the first 31
      tries, then as much more with each, up to 5 minutes. */
  lemma BackOffIs(count: nat)
    ensures count <= 2 ==> RetryDelay(Retry(true, count, 3, 2000)) == 2000
    ensures 70 <= count <= 99 ==> RetryDelay(Retry(true, count, 100, 2500)) == 2500
    ensures count < 70 ==> RetryDelay(Retry(true, count, 100, 2500)) == (if 70 - count < 120 then 2500 * (70 - count) else 300000)
  {
    assert count <= 100 ==> (100 - count) % 0x1_0000_0000 == 100 - count;
    assert count <= 3 ==> (3 - count) % 0x1_0000_0000 == 3 - count;
    assert count < 70 ==> 2500 * (70 - count) % 0x1_0000_0000 == 2500 * (70 - count);
  }
}
