/** The lease table of the SoftAP DHCP server (src/lwip/port/dhcpd.c) as a value, with one
    function per message handler. The class in LeaseServer.dfy updates the same table in place
    and is proved against these functions; LeaseRuns.dfy proves what holds over whole runs. */
module Leases {

  import opened Wrappers

  // The six bytes of a hardware address that the server compares, read as one number.
  type Mac = m: nat | m < 0x1_0000_0000_0000
  const ZERO_MAC: Mac := 0
  const BROADCAST_MAC: Mac := 0xFFFF_FFFF_FFFF

  // An IPv4 address in host byte order.
  type Addr = a: nat | a < 0x1_0000_0000

  datatype Lease = Lease(mac: Mac, addr: Addr, deleted: bool)
  const EMPTY_LEASE := Lease(ZERO_MAC, 0, false)

  // server: gateway address; boot: the "next server" field of every reply.
  datatype Config = Config(server: Addr, start: Addr, end: Addr, boot: Addr)

  // What the shared reply buffer holds.
  datatype Payload = Blank | Offer(mac: Mac, addr: Addr) | Ack(mac: Mac, addr: Addr) | Nak(mac: Mac)

  datatype State = State(leases: seq<Lease>, declined: seq<Addr>, cfg: Config, payload: Payload)

  datatype Output = Silent | Sent(payload: Payload)

  datatype Next = Next(state: State, out: Output)

  /** One thing that happens to the server. `arp` is the set of addresses the ARP table knows at
      that moment; absent options are None. */
  datatype Event =
    | Discover(mac: Mac, arp: set<Addr>)
    | Request(mac: Mac, ciaddr: Addr, requested: Option<Addr>)
    | Release(mac: Mac, serverId: Option<Addr>)
    | Decline(serverId: Option<Addr>, requested: Option<Addr>)
    | Delete(mac: Mac)
    | Restart(ip: Addr, gateway: Addr)

  // ---------- Lookups ----------

  /** Index of the first lease at or after `i` with this hardware address, or the table size. */
  function FindMac(ls: seq<Lease>, mac: Mac, i: nat := 0): (r: nat)
    requires i <= |ls|
    ensures i <= r <= |ls|
    ensures r < |ls| ==> ls[r].mac == mac
    ensures forall k :: i <= k < r ==> ls[k].mac != mac
    decreases |ls| - i
  {
    if i == |ls| || ls[i].mac == mac then i else FindMac(ls, mac, i + 1)
  }

  predicate Leased(ls: seq<Lease>, a: Addr) {
    exists k :: 0 <= k < |ls| && ls[k].addr == a
  }

  /** Index of the first decline entry at or after `i` that equals `a`, or the list size. */
  function FindDeclined(ds: seq<Addr>, a: Addr, i: nat := 0): (r: nat)
    requires i <= |ds|
    ensures i <= r <= |ds|
    ensures r < |ds| ==> ds[r] == a
    ensures forall k :: i <= k < r ==> ds[k] != a
    decreases |ds| - i
  {
    if i == |ds| || ds[i] == a then i else FindDeclined(ds, a, i + 1)
  }

  // ---------- Choosing an address ----------

  predicate Assignable(cfg: Config, a: Addr) {
    cfg.start <= a <= cfg.end && a % 256 != 0 && a % 256 != 255 && a != cfg.server
  }

  predicate Eligible(cfg: Config, ls: seq<Lease>, arp: set<Addr>, a: Addr) {
    Assignable(cfg, a) && a !in arp && !Leased(ls, a)
  }

  /** The least eligible address at or after `a`, or 0 exactly when there is none. */
  function FreshAddress(cfg: Config, ls: seq<Lease>, arp: set<Addr>, a: nat): (r: Addr)
    requires cfg.start <= a
    ensures r == 0 <==> forall x: Addr :: a <= x ==> !Eligible(cfg, ls, arp, x)
    ensures r != 0 ==> a <= r && Eligible(cfg, ls, arp, r)
    ensures r != 0 ==> forall x: Addr :: a <= x < r ==> !Eligible(cfg, ls, arp, x)
    decreases cfg.end + 1 - a
  {
    if a > cfg.end then 0
    else if Eligible(cfg, ls, arp, a) then a
    else FreshAddress(cfg, ls, arp, a + 1)
  }

  // ---------- Choosing a slot ----------

  predicate Free(l: Lease) { l.mac == ZERO_MAC && !l.deleted }

  function FirstFree(ls: seq<Lease>, i: nat := 0): (r: nat)
    requires i <= |ls|
    ensures i <= r <= |ls|
    ensures r < |ls| ==> Free(ls[r])
    ensures forall k :: i <= k < r ==> !Free(ls[k])
    decreases |ls| - i
  {
    if i == |ls| || Free(ls[i]) then i else FirstFree(ls, i + 1)
  }

  /** The last deleted slot below `n`, or `|ls|` when there is none. */
  function LastDeleted(ls: seq<Lease>, n: nat): (r: nat)
    requires n <= |ls|
    ensures r < n || r == |ls|
    ensures r < |ls| ==> ls[r].deleted && forall k :: r < k < n ==> !ls[k].deleted
    ensures r == |ls| ==> forall k :: 0 <= k < n ==> !ls[k].deleted
  {
    if n == 0 then |ls|
    else if ls[n - 1].deleted then n - 1
    else LastDeleted(ls, n - 1)
  }

  /** A never-used or wiped slot if there is one, otherwise the last deleted slot; the table size
      when there is neither. */
  function PickSlot(ls: seq<Lease>): (r: nat)
    ensures r <= |ls|
    ensures r < |ls| ==> Free(ls[r]) || ls[r].deleted
    ensures r == |ls| <==> forall k :: 0 <= k < |ls| ==> !Free(ls[k]) && !ls[k].deleted
    ensures r < |ls| && ls[r].deleted ==> forall k :: 0 <= k < |ls| ==> !Free(ls[k])
  {
    if FirstFree(ls) < |ls| then FirstFree(ls) else LastDeleted(ls, |ls|)
  }

  // ---------- Message handlers ----------

  /** Wipe the client's slot when its address is on the decline list, and drop that entry. */
  function ForgetDeclined(s: State, mac: Mac): State {
    var i := FindMac(s.leases, mac);
    if i == |s.leases| then s
    else
      var d := FindDeclined(s.declined, s.leases[i].addr);
      if d == |s.declined| then s
      else s.(leases := s.leases[i := EMPTY_LEASE], declined := s.declined[d := 0])
  }

  /** Place `chosen` in a slot for the client and offer it. Without a slot the reply buffer is left
      as it was, and it is sent all the same. */
  function PlaceClient(s: State, mac: Mac, chosen: Addr): Next {
    var k := PickSlot(s.leases);
    if k == |s.leases| then Next(s, Sent(s.payload))
    else
      var p := Payload.Offer(mac, chosen);
      Next(s.(leases := s.leases[k := Lease(mac, chosen, s.leases[k].deleted)], payload := p), Sent(p))
  }

  function DiscoverStep(s: State, mac: Mac, arp: set<Addr>): Next {
    var i := FindMac(s.leases, mac);
    if mac == ZERO_MAC || mac == BROADCAST_MAC then Next(s, Sent(s.payload))
    else if i < |s.leases| && s.leases[i].addr !in s.declined then
      var p := Payload.Offer(mac, s.leases[i].addr);
      Next(s.(payload := p), Sent(p))
    else PlaceClient(ForgetDeclined(s, mac), mac, FreshAddress(s.cfg, s.leases, arp, s.cfg.start))
  }

  // The octet compared by the concurrent-mode filter: the third one.
  function Octet3(a: Addr): nat { a / 256 % 256 }

  predicate RequestFiltered(cfg: Config, ciaddr: Addr, requested: Option<Addr>) {
    || (ciaddr != 0 && Octet3(ciaddr) != Octet3(cfg.boot))
    || (requested.Some? && Octet3(requested.value) != Octet3(cfg.boot))
  }

  function RequestStep(s: State, mac: Mac, ciaddr: Addr, requested: Option<Addr>): Next {
    var i := FindMac(s.leases, mac);
    var wanted: Addr := if requested.Some? then requested.value else 0;
    if RequestFiltered(s.cfg, ciaddr, requested) then Next(s, Silent)
    else if i < |s.leases| && (wanted == s.leases[i].addr || (wanted == 0 && ciaddr == s.leases[i].addr)) then
      var p := Ack(mac, s.leases[i].addr);
      Next(s.(leases := s.leases[i := s.leases[i].(deleted := false)], payload := p), Sent(p))
    else Next(s.(payload := Nak(mac)), Sent(Nak(mac)))
  }

  function DeleteStep(s: State, mac: Mac): State {
    var i := FindMac(s.leases, mac);
    if i == |s.leases| then s
    else s.(leases := s.leases[i := s.leases[i].(deleted := true)])
  }

  function DeclineStep(s: State, serverId: Option<Addr>, requested: Option<Addr>): State {
    if serverId == Some(s.cfg.server) && requested.Some? && FindDeclined(s.declined, requested.value) == |s.declined|
       && FindDeclined(s.declined, 0) < |s.declined|
    then s.(declined := s.declined[FindDeclined(s.declined, 0) := requested.value])
    else s
  }

  // ---------- Starting the daemon ----------

  /** The pool for interface address `ip` and `n` slots: n + 1 addresses after it, 32-bit wrap included. */
  function PoolConfig(ip: Addr, gateway: Addr, n: nat): Config {
    Config(gateway, (ip + 1) % 0x1_0000_0000, (ip + 1 + n) % 0x1_0000_0000, (ip + 2 + n) % 0x1_0000_0000)
  }

  function MarkUsed(ls: seq<Lease>): (r: seq<Lease>)
    ensures |r| == |ls|
    ensures forall k :: 0 <= k < |ls| ==> r[k] == if ls[k].mac != ZERO_MAC then ls[k].(deleted := true) else ls[k]
  {
    seq(|ls|, k requires 0 <= k < |ls| => if ls[k].mac != ZERO_MAC then ls[k].(deleted := true) else ls[k])
  }

  function RestartStep(s: State, ip: Addr, gateway: Addr): State {
    State(MarkUsed(s.leases), seq(|s.declined|, _ => 0), PoolConfig(ip, gateway, |s.leases|), s.payload)
  }

  function Step(s: State, e: Event): Next {
    match e
    case Discover(mac, arp) => DiscoverStep(s, mac, arp)
    case Request(mac, ciaddr, requested) => RequestStep(s, mac, ciaddr, requested)
    case Release(mac, id) => Next(if id == Some(s.cfg.server) then DeleteStep(s, mac) else s, Silent)
    case Decline(id, requested) => Next(DeclineStep(s, id, requested), Silent)
    case Delete(mac) => Next(DeleteStep(s, mac), Silent)
    case Restart(ip, gateway) => Next(RestartStep(s, ip, gateway), Silent)
  }

  function Run(s: State, es: seq<Event>): State
    decreases |es|
  {
    if es == [] then s else Run(Step(s, es[0]).state, es[1..])
  }

  function Outputs(s: State, es: seq<Event>): (r: seq<Output>)
    ensures |r| == |es|
    decreases |es|
  {
    if es == [] then [] else [Step(s, es[0]).out] + Outputs(Step(s, es[0]).state, es[1..])
  }

  /** Memory after boot: every slot zero, nothing declined, the first daemon start still to come. */
  function Boot(n: nat, m: nat, ip: Addr, gateway: Addr): State {
    State(seq(n, _ => EMPTY_LEASE), seq(m, _ => 0), PoolConfig(ip, gateway, n), Blank)
  }
}
