/** The station connection state machine of src/wifi_manager/wifi_management.c as a value: one
    function per state entry, per message and per timer. Drivers, the supplicant and the network
    answer through `Env`, the replies they give during one step. */
module Station {
  import opened Wrappers
  import opened TimerQueue

  datatype Phase = Idle | Scan | Connect | Handshake | Dhcp | Connected

  // The part of the station configuration the machine reads or writes.
  datatype StaCfg = StaCfg(ssid: nat, bssid: nat, channel: nat, withBssid: bool, blocked: bool)

  /** Frame stands for every event that is handed to the supplicant, or only printed, in each phase
      (scan results, EAPOL, management and action frames, authentication and roaming notices). */
  datatype Event =
    | Init | ScanCmd | ConnectCmd | DisconnectCmd | AutoConnectCmd | ScanDone | ScanFail
    | AssocSuccess | DhcpStart | DhcpSuccess | DhcpFail | ConnectSuccess | ConnectFail
    | Disconnect | RoamingStart | Frame

  /** A queued message. `stay` says in which stay in the DHCP phase a poller sent it; the machine
      never looks at it. */
  datatype Msg = Msg(event: Event, reason: nat, cfg: Option<StaCfg>, stay: nat)

  function Plain(e: Event): Msg { Msg(e, 0, None, 0) }

  /** Totals since power-on of what the machine did. */
  datatype Tally = Tally(
    scans: nat,            // scans started by entering the scan phase
    connDone: nat,         // attempts to post CONN_DONE
    connOk: nat,           // those of them that report success
    scanDone: nat,         // attempts to post SCAN_DONE
    blockedConnects: nat,  // connect commands accepted with a blocked caller
    ongoing: nat,          // commands refused because a link is in progress
    blockedScans: nat,     // scan requests with a blocked caller
    successes: nat,        // CONNECT_SUCCESS events sent
    links: nat)            // entries into the connected phase

  const NO_TALLY := Tally(0, 0, 0, 0, 0, 0, 0, 0, 0)

  datatype Retry = Retry(delayed: bool, count: nat, limit: nat, interval: nat)

  /** Roaming ahead of a link loss: switched on, under way, a background scan is out, how many of
      them, and the access point to fall back to (0 for none). */
  datatype Preroam = Preroam(enable: bool, start: bool, scanning: bool, count: nat, backup: nat)

  datatype Clock = Clock(now: nat, nextId: nat, timers: seq<Timer>)

  /** What the machine has done: stays in the DHCP phase, phases entered, totals. */
  datatype History = History(stay: nat, path: seq<Phase>, tally: Tally)

  datatype State = State(
    init: bool, phase: Phase, mirror: Phase, cfg: StaCfg, lastReason: nat, polls: nat, scanBlocked: bool,
    queue: seq<Msg>, retry: Retry, preroam: Preroam, clock: Clock, hist: History)

  datatype Roam = NoCandidate | CurrentBest | FastWeak | FastStrong(ch: nat) | Weak | Strong(ch: nat)

  /** What the surroundings answer during one step: whether a scan starts, the result of a connect
      request and the access point it settles on, whether an address is there (leased or static),
      whether it is static, the stored network if one loads, the roaming candidate, and whether the
      signal has recovered. */
  datatype Env = Env(scanStarts: bool, connectReason: nat, bssid: nat, addressed: bool, staticIp: bool,
                     joined: Option<StaCfg>, roam: Roam, recovered: bool)

  const QUEUE_SIZE := 24
  const CONNECT_RETRY_LIMIT := 3
  const CONNECT_RETRY_INTERVAL := 2000
  const ROAMING_RETRY_LIMIT := 100
  const ROAMING_RETRY_INTERVAL := 2500
  const MAX_RETRY_INTERVAL := 300000
  const DHCP_POLLING_LIMIT := 200
  const DHCP_POLLING_INTERVAL := 100
  const LINK_POLLING_INTERVAL := 3000
  const ALL_CHANNELS := 0xFF

  const RECV_DEAUTH := 11
  const NO_BEACON := 12
  const UNSPECIFIED := 15
  const SA_QUERY_FAIL := 16

  const DHCP_POLL: nat := 1
  const LINK_POLL: nat := 2
  const CONNECT_RETRY: nat := 3
  const SM: nat := 1
  const NULL: nat := 0

  // ---------- Queue and timers ----------

  function Post(s: State, m: Msg): (r: State)
    ensures r == s.(queue := r.queue)
  {
    if |s.queue| < QUEUE_SIZE then s.(queue := s.queue + [m]) else s
  }

  function AddTimer(c: Clock, ms: nat, handler: nat): (r: Clock)
    ensures r.now == c.now
  {
    Clock(c.now, c.nextId + 1,
          Insert(c.timers, Timer((c.now % WRAP + ms) % WRAP, handler, SM, NULL, c.now + ms, c.nextId)))
  }

  function CancelTimers(c: Clock, handler: nat): (r: Clock)
    ensures r == c.(timers := r.timers)
  {
    c.(timers := Without(c.timers, handler, ALL_CTX, ALL_CTX))
  }

  // ---------- Waking blocked callers ----------

  function PostConnDone(s: State, ok: bool): (r: State)
    ensures r == s.(cfg := r.cfg, hist := r.hist) && r.hist == s.hist.(tally := r.hist.tally)
  {
    if !s.cfg.blocked then s
    else
      var t := s.hist.tally;
      s.(cfg := s.cfg.(blocked := false),
         hist := s.hist.(tally := t.(connDone := t.connDone + 1, connOk := t.connOk + if ok then 1 else 0)))
  }

  function PostScanDone(s: State): (r: State)
    ensures r == s.(scanBlocked := false, hist := r.hist) && r.hist == s.hist.(tally := r.hist.tally)
  {
    if !s.scanBlocked then s
    else
      var t := s.hist.tally;
      s.(scanBlocked := false, hist := s.hist.(tally := t.(scanDone := t.scanDone + 1)))
  }

  function LinkOngoing(s: State): (r: State)
    ensures r == s.(cfg := r.cfg, hist := r.hist) && r.hist == s.hist.(tally := r.hist.tally)
  {
    var t := s.hist.tally;
    PostConnDone(s.(cfg := s.cfg.(blocked := true), hist := s.hist.(tally := t.(ongoing := t.ongoing + 1))), false)
  }

  // ---------- Retrying ----------

  function RetryParams(r: Retry, roaming: bool): Retry {
    if roaming then Retry(r.delayed, ROAMING_RETRY_LIMIT - 1, ROAMING_RETRY_LIMIT, ROAMING_RETRY_INTERVAL)
    else Retry(r.delayed, CONNECT_RETRY_LIMIT - 1, CONNECT_RETRY_LIMIT, CONNECT_RETRY_INTERVAL)
  }

  /** The back-off before the next attempt, in 32-bit arithmetic. */
  function RetryDelay(r: Retry): nat {
    var used := (r.limit - r.count) % WRAP;
    var d := if used > 30 then r.interval * (used - 30) % WRAP else r.interval;
    if d > MAX_RETRY_INTERVAL then MAX_RETRY_INTERVAL else d
  }

  function RegisterRetry(c: Clock, r: Retry): Clock {
    if IsRegistered(c.timers, CONNECT_RETRY, SM, NULL) then c else AddTimer(c, RetryDelay(r), CONNECT_RETRY)
  }

  predicate Armed(s: State) { s.preroam.start && s.preroam.backup != 0 }

  /** Once: go back to the access point the link was on when roaming started. */
  function Rollback(s: State): (r: State)
    ensures r == s.(preroam := r.preroam, cfg := r.cfg, queue := r.queue)
  {
    if !Armed(s) then s
    else Post(s.(preroam := s.preroam.(start := false, count := 0, backup := 0),
                 cfg := s.cfg.(channel := ALL_CHANNELS, bssid := s.preroam.backup, withBssid := true)), Plain(ConnectCmd))
  }

  // ---------- State entries ----------

  function Enter(s: State, p: Phase): State {
    s.(phase := p, mirror := p, hist := s.hist.(path := s.hist.path + [p]))
  }

  function CancelAll(c: Clock): Clock {
    CancelTimers(CancelTimers(CancelTimers(c, DHCP_POLL), LINK_POLL), CONNECT_RETRY)
  }

  function CancelPolls(c: Clock): Clock { CancelTimers(CancelTimers(c, DHCP_POLL), LINK_POLL) }

  function EnterIdle(s: State): State {
    Enter(s, Idle).(retry := s.retry.(delayed := false), clock := CancelAll(s.clock))
  }

  function StartScan(s: State, env: Env): (r: State)
    ensures r == s.(queue := r.queue, hist := r.hist) && r.hist == s.hist.(tally := r.hist.tally)
  {
    var t := s.(hist := s.hist.(tally := s.hist.tally.(scans := s.hist.tally.scans + 1)));
    if env.scanStarts then t else Post(t, Plain(ScanFail))
  }

  function EnterScan(s: State, env: Env): State {
    var t := Enter(s, Scan).(clock := CancelPolls(s.clock));
    if t.retry.delayed then t else StartScan(t, env)
  }

  function EnterConnect(s: State, env: Env): State {
    var t := Enter(s, Connect).(cfg := s.cfg.(bssid := env.bssid));
    if env.connectReason == 0 then t else Post(t, Msg(ConnectFail, env.connectReason, None, 0))
  }

  function EnterHandshake(s: State): State { Enter(s, Handshake) }

  function EnterDhcp(s: State, env: Env): State {
    var t := Enter(s, Dhcp).(polls := if env.staticIp then s.polls else DHCP_POLLING_LIMIT,
                             clock := AddTimer(s.clock, DHCP_POLLING_INTERVAL, DHCP_POLL));
    t.(hist := t.hist.(stay := t.hist.stay + 1))
  }

  /** The caller that is waiting for the link is woken; without one, a success event is sent. */
  function AnnounceLink(s: State): (r: State)
    ensures r == s.(cfg := r.cfg, queue := r.queue, hist := r.hist) && r.hist == s.hist.(tally := r.hist.tally)
  {
    var t := s.(hist := s.hist.(tally := s.hist.tally.(links := s.hist.tally.links + 1)));
    if t.cfg.blocked then PostConnDone(t, true)
    else Post(t.(hist := t.hist.(tally := t.hist.tally.(successes := t.hist.tally.successes + 1))), Plain(ConnectSuccess))
  }

  function EnterConnected(s: State): State {
    var t := AnnounceLink(Enter(s, Connected));
    t.(lastReason := 0, preroam := t.preroam.(start := false, count := 0, backup := 0), cfg := t.cfg.(withBssid := false))
  }

  // ---------- Messages ----------

  function StartCommandScan(s: State, env: Env): (r: State)
    ensures r == s.(scanBlocked := r.scanBlocked, hist := r.hist) && r.hist == s.hist.(tally := r.hist.tally)
  {
    if env.scanStarts then s else PostScanDone(s)
  }

  // A new configuration, if the command carries one, replaces the old one, latch included.
  function Configure(s: State, m: Msg): (r: State)
    ensures r == s.(cfg := r.cfg, hist := r.hist) && r.hist == s.hist.(tally := r.hist.tally)
  {
    match m.cfg
    case None => s
    case Some(c) =>
      var t := s.hist.tally;
      s.(cfg := c, hist := s.hist.(tally := t.(blockedConnects := t.blockedConnects + if c.blocked then 1 else 0)))
  }

  /** Starting over: a fresh retry budget and a scan. */
  function BeginAttempt(s: State, roaming: bool, env: Env): State {
    EnterScan(s.(retry := RetryParams(s.retry, roaming)), env)
  }

  /** No retries left: fall back once if roaming had started, wake the caller, and stop. */
  function GiveUp(s: State): State { EnterIdle(PostConnDone(Rollback(s), false)) }

  /** A failed or broken attempt: wait and retry while retries are left, otherwise give up. */
  function AttemptFailed(s: State, reason: nat, env: Env): State {
    var t := s.(lastReason := reason);
    if t.retry.count > 0 then
      var u := EnterScan(t.(retry := t.retry.(delayed := true)), env);
      u.(clock := RegisterRetry(u.clock, u.retry))
    else GiveUp(t)
  }

  function PollingScanDone(s: State, env: Env): (r: State)
    ensures r == s.(preroam := r.preroam, cfg := r.cfg, queue := r.queue, clock := r.clock)
    ensures r.clock == s.clock || r.clock == CancelTimers(s.clock, LINK_POLL)
    ensures r.cfg.blocked == s.cfg.blocked
  {
    var t := s.(preroam := s.preroam.(scanning := false));
    match env.roam
    case NoCandidate => t
    case CurrentBest => t
    case FastWeak => t.(preroam := t.preroam.(count := 0), clock := CancelTimers(t.clock, LINK_POLL))
    case FastStrong(ch) =>
      Post(t.(preroam := t.preroam.(count := 0), clock := CancelTimers(t.clock, LINK_POLL), cfg := t.cfg.(channel := ch)), Plain(Frame))
    case Weak => t
    case Strong(ch) => Post(t.(cfg := t.cfg.(channel := ch)), Plain(ConnectCmd))
  }

  function InIdle(s: State, m: Msg, env: Env): State {
    match m.event
    case ScanCmd => StartCommandScan(s, env)
    case ConnectCmd => BeginAttempt(Configure(s, m), false, env)
    case AutoConnectCmd =>
      (match env.joined
       case None => EnterIdle(s)
       case Some(c) => BeginAttempt(s.(cfg := s.cfg.(ssid := c.ssid, channel := c.channel)), true, env))
    case ScanDone => PostScanDone(s)
    case _ => s
  }

  function InScan(s: State, m: Msg, env: Env): State {
    match m.event
    case ScanCmd => LinkOngoing(s)
    case ConnectCmd => LinkOngoing(s)
    case DisconnectCmd => EnterIdle(s)
    case ConnectFail => EnterIdle(s)
    case ScanDone => EnterConnect(s, env)
    case ScanFail =>
      if s.retry.count > 0 then s.(clock := RegisterRetry(s.clock, s.retry)) else GiveUp(s)
    case _ => s
  }

  function InConnect(s: State, m: Msg, env: Env): State {
    match m.event
    case ScanCmd => LinkOngoing(s)
    case ConnectCmd => LinkOngoing(s)
    case DisconnectCmd => EnterIdle(s)
    case AssocSuccess => EnterHandshake(s)
    case ConnectFail => AttemptFailed(s, m.reason, env)
    case Disconnect => AttemptFailed(s, m.reason, env)
    case _ => s
  }

  function InHandshake(s: State, m: Msg, env: Env): State {
    match m.event
    case ScanCmd => LinkOngoing(s)
    case ConnectCmd => LinkOngoing(s)
    case DisconnectCmd => EnterIdle(s)
    case ConnectFail => AttemptFailed(s, m.reason, env)
    case Disconnect => AttemptFailed(s, m.reason, env)
    case DhcpStart => EnterDhcp(s, env)
    case _ => s
  }

  function InDhcp(s: State, m: Msg, env: Env): State {
    match m.event
    case ScanCmd => LinkOngoing(s)
    case ConnectCmd => LinkOngoing(s)
    case DisconnectCmd => EnterIdle(s)
    case DhcpSuccess =>
      var t := EnterConnected(s);
      t.(clock := CancelTimers(t.clock, CONNECT_RETRY))
    case DhcpFail => AttemptFailed(s, m.reason, env)
    case ConnectFail => AttemptFailed(s, m.reason, env)
    case Disconnect => AttemptFailed(s, m.reason, env)
    case _ => s
  }

  predicate LinkLost(reason: nat) {
    reason == NO_BEACON || reason == UNSPECIFIED || reason == RECV_DEAUTH || reason == SA_QUERY_FAIL
  }

  function InConnected(s: State, m: Msg, env: Env): State {
    match m.event
    case ScanCmd => StartCommandScan(s, env)
    case ConnectCmd => BeginAttempt(EnterIdle(Configure(s, m)), false, env)
    case DisconnectCmd => EnterIdle(s)
    case ScanDone => PostScanDone(PostScanDone(if s.preroam.scanning then PollingScanDone(s, env) else s))
    case ScanFail => PostScanDone(s)
    case Disconnect =>
      var t := s.(lastReason := m.reason);
      if LinkLost(m.reason) then BeginAttempt(t, true, env) else EnterIdle(t)
    case RoamingStart =>
      if s.preroam.enable then
        s.(preroam := s.preroam.(start := true, backup := s.cfg.bssid), clock := AddTimer(s.clock, 1, LINK_POLL))
      else s
    case _ => s
  }

  /** The first event, or an explicit one, sets the machine up from nothing. */
  function Reset(s: State): State {
    EnterIdle(s.(init := true, phase := Idle, polls := 0, scanBlocked := false,
                 retry := RetryParams(s.retry, false), preroam := Preroam(true, false, false, 0, 0)))
  }

  function Step(s: State, m: Msg, env: Env): State {
    if !s.init || m.event == Init then Reset(s)
    else
      match s.phase
      case Idle => InIdle(s, m, env)
      case Scan => InScan(s, m, env)
      case Connect => InConnect(s, m, env)
      case Handshake => InHandshake(s, m, env)
      case Dhcp => InDhcp(s, m, env)
      case Connected => InConnected(s, m, env)
  }

  // ---------- Timers ----------

  function PollDhcp(s: State, env: Env): State {
    if env.addressed || env.staticIp then Post(s, Msg(DhcpSuccess, 0, None, s.hist.stay))
    else
      var t := s.(polls := (s.polls + 255) % 256);
      if t.polls != 0 then t.(clock := AddTimer(t.clock, DHCP_POLLING_INTERVAL, DHCP_POLL))
      else Post(t, Msg(DhcpFail, 0, None, s.hist.stay))
  }

  function PollLink(s: State, env: Env): State {
    var p := s.preroam;
    if !(p.enable && p.start) then s
    else if env.recovered then s.(preroam := p.(start := false, count := 0, backup := 0))
    else
      s.(preroam := p.(scanning := p.scanning || p.count < 10 || p.count % 10 == 0, count := (p.count + 1) % 0x1_0000),
         clock := AddTimer(s.clock, LINK_POLLING_INTERVAL, LINK_POLL))
  }

  function RetryConnect(s: State, env: Env): State {
    EnterScan(s.(retry := s.retry.(count := (s.retry.count + WRAP - 1) % WRAP, delayed := false)), env)
  }

  function RunTimer(s: State, handler: nat, env: Env): State {
    if handler == DHCP_POLL then PollDhcp(s, env)
    else if handler == LINK_POLL then PollLink(s, env)
    else if handler == CONNECT_RETRY then RetryConnect(s, env)
    else s
  }

  // ---------- Runs ----------

  /** One move of the system: the loop takes the oldest message or fires the head timer, the
      surroundings send a message, a task asks for a scan or switches roaming, or time passes. */
  datatype Move =
    | Deliver(env: Env)
    | Fire(env: Env)
    | Send(msg: Msg)
    | ScanRequest(blocked: bool)
    | RoamingSet(enable: bool)
    | Tick(ms: nat)

  predicate HeadDue(c: Clock) { c.timers != [] && TimeAfterEq(c.now % WRAP, c.timers[0].time) }

  function Apply(s: State, v: Move): State {
    match v
    case Deliver(env) => if s.queue == [] then s else Step(s.(queue := s.queue[1..]), s.queue[0], env)
    case Fire(env) =>
      if !HeadDue(s.clock) then s
      else RunTimer(s.(clock := s.clock.(timers := s.clock.timers[1..])), s.clock.timers[0].handler, env)
    case Send(m) => Post(s, m)
    case ScanRequest(b) =>
      var t := s.hist.tally;
      s.(scanBlocked := b, hist := s.hist.(tally := t.(blockedScans := t.blockedScans + if b then 1 else 0)))
    case RoamingSet(e) => s.(preroam := s.preroam.(enable := e))
    case Tick(ms) => s.(clock := s.clock.(now := s.clock.now + ms))
  }

  function Run(s: State, vs: seq<Move>): State
    decreases |vs|
  {
    if vs == [] then s else Run(Apply(s, vs[0]), vs[1..])
  }

  const NO_CFG := StaCfg(0, 0, 0, false, false)

  /** Zeroed memory at power-on. */
  const POWER_ON :=
    State.State(false, Idle, Idle, NO_CFG, 0, 0, false, [], Retry(false, 0, 0, 0), Preroam(false, false, false, 0, 0),
                Clock(0, 0, []), History(0, [Idle], NO_TALLY))
}
