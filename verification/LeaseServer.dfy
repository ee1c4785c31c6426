/** The DHCP server's global tables, updated in place as in src/lwip/port/dhcpd.c. Every handler is
    proved to move the abstract state (Snapshot) exactly as the functions of module Leases do, so
    the run theorems of LeaseRuns hold of the arrays. */
module LeaseServer {
  import opened Wrappers
  import opened Leases

  // One look at an address of the pool.
  lemma AddressStep(c: Config, ls: seq<Lease>, arp: set<Addr>, a: Addr)
    requires c.start <= a <= c.end
    ensures var free := !(a % 256 == 0 || a % 256 == 0xFF || a == c.server) && a !in arp && !Leased(ls, a);
            FreshAddress(c, ls, arp, a) == if free then a else FreshAddress(c, ls, arp, a + 1)
    ensures a == 0xFFFF_FFFF ==> FreshAddress(c, ls, arp, a + 1) == 0
  {
    hide Leased;
  }

  lemma AddressNone(c: Config, ls: seq<Lease>, arp: set<Addr>, a: nat)
    requires c.start <= a && c.end < a
    ensures FreshAddress(c, ls, arp, a) == 0
  {
  }

  // The type of the slot index.
  newtype SignedByte = i: int | -0x80 <= i < 0x80

  class Server {
    const leases: array<Lease>
    const declined: array<Addr>
    var cfg: Config
    var payload: Payload

    /** The slot index is a signed byte. */
    ghost predicate Valid() { leases.Length < 0x80 }

    /** The address scan comes to an end inside the pool: its counter passes the last pool address, or
        an address is found before. Past the greatest address of all the counter starts again at 0. */
    ghost predicate ScanEnds(arp: set<Addr>)
      reads this, leases
    {
      cfg.end < 0xFFFF_FFFF || FreshAddress(cfg, leases[..], arp, cfg.start) != 0
    }

    ghost function Snapshot(): State
      reads this, leases, declined
    {
      State(leases[..], declined[..], cfg, payload)
    }

    constructor (n: nat, m: nat, ip: Addr, gateway: Addr)
      requires n < 0x80
      ensures Valid() && fresh(leases) && fresh(declined)
      ensures Snapshot() == Boot(n, m, ip, gateway)
      ensures ip + 2 + n < 0x1_0000_0000 ==> cfg == Config(gateway, ip + 1, ip + 1 + n, ip + 2 + n)
    {
      leases := new Lease[n](_ => EMPTY_LEASE);
      declined := new Addr[m](_ => 0);
      cfg := PoolConfig(ip, gateway, n);
      payload := Blank;
      new;
      assert leases[..] == seq(n, _ => EMPTY_LEASE);
      assert declined[..] == seq(m, _ => 0);
    }

    method FindLeaseByMac(mac: Mac) returns (r: nat)
      ensures r == FindMac(leases[..], mac)
    {
      r := 0;
      while r < leases.Length
        invariant r <= leases.Length
        invariant forall k :: 0 <= k < r ==> leases[k].mac != mac
      {
        if leases[r].mac == mac { return; }
        r := r + 1;
      }
    }

    method FindLeaseByAddr(a: Addr) returns (found: bool)
      ensures found == Leased(leases[..], a)
    {
      var i := 0;
      while i < leases.Length
        invariant i <= leases.Length
        invariant forall k :: 0 <= k < i ==> leases[k].addr != a
      {
        if leases[i].addr == a {
          assert leases[..][i].addr == a;
          return true;
        }
        i := i + 1;
      }
      return false;
    }

    method FindDeclinedAddr(a: Addr) returns (r: nat)
      ensures r == FindDeclined(declined[..], a)
    {
      r := 0;
      while r < declined.Length
        invariant r <= declined.Length
        invariant forall k :: 0 <= k < r ==> declined[k] != a
      {
        if declined[r] == a { return; }
        r := r + 1;
      }
    }

    /** The address scan: the least eligible address of the pool, or 0. */
    method FindAddress(arp: set<Addr>) returns (r: Addr)
      requires ScanEnds(arp)
      ensures r == FreshAddress(cfg, leases[..], arp, cfg.start)
    {
      hide FreshAddress, Leased;
      var addr: Addr := cfg.start;
      while addr <= cfg.end
        invariant cfg.start <= addr
        invariant FreshAddress(cfg, leases[..], arp, cfg.start) == FreshAddress(cfg, leases[..], arp, addr)
        decreases cfg.end + 1 - addr
      {
        AddressStep(cfg, leases[..], arp, addr);
        if !(addr % 256 == 0 || addr % 256 == 0xFF || addr == cfg.server) && addr !in arp {
          var taken := FindLeaseByAddr(addr);
          if !taken { return addr; }
        }
        addr := (addr + 1) % 0x1_0000_0000;
      }
      AddressNone(cfg, leases[..], arp, addr);
      return 0;
    }

    /** The slot scan: remembers the last deleted slot and stops at the first free one. */
    method FindSlot() returns (r: nat)
      requires Valid()
      ensures r == PickSlot(leases[..])
    {
      var idx: SignedByte := 0;
      var deletedIdx: SignedByte := -1;
      while idx as int < leases.Length
        invariant 0 <= idx as int <= leases.Length
        invariant -1 <= deletedIdx < idx
        invariant forall k :: 0 <= k < idx as int ==> !Free(leases[k])
        invariant LastDeleted(leases[..], idx as int) == if deletedIdx == -1 then leases.Length else deletedIdx as int
      {
        if leases[idx].deleted {
          deletedIdx := idx;
        } else if leases[idx].mac == ZERO_MAC {
          deletedIdx := -1;
          break;
        }
        idx := idx + 1;
      }
      if idx as int >= leases.Length && deletedIdx == -1 { return leases.Length; }
      if deletedIdx != -1 { idx := deletedIdx; }
      return idx as int;
    }

    /** DISCOVER; the result code is the one its only caller ignores. */
    method HandleDiscover(mac: Mac, arp: set<Addr>) returns (ok: bool)
      requires Valid() && (mac != ZERO_MAC && mac != BROADCAST_MAC ==> ScanEnds(arp))
      modifies this`payload, leases, declined
      ensures Valid()
      ensures Snapshot() == DiscoverStep(old(Snapshot()), mac, arp).state
      ensures Sent(payload) == DiscoverStep(old(Snapshot()), mac, arp).out
      ensures !ok ==> Snapshot() == old(Snapshot())
    {
      if mac == ZERO_MAC || mac == BROADCAST_MAC { return false; }
      var addr := FindAddress(arp);
      var lease := FindLeaseByMac(mac);
      if lease < leases.Length {
        var d := FindDeclinedAddr(leases[lease].addr);
        if d < declined.Length {
          leases[lease] := EMPTY_LEASE;
          declined[d] := 0;
          lease := leases.Length;
        }
      }
      assert Snapshot() == ForgetDeclined(old(Snapshot()), mac);
      if lease == leases.Length {
        var idx := FindSlot();
        if idx == leases.Length { return false; }
        leases[idx] := Lease(mac, addr, leases[idx].deleted);
        lease := idx;
      }
      payload := Payload.Offer(mac, leases[lease].addr);
      return true;
    }

    method HandleRequest(mac: Mac, ciaddr: Addr, requested: Option<Addr>) returns (sent: bool)
      requires Valid()
      modifies this`payload, leases
      ensures Valid()
      ensures Next(Snapshot(), if sent then Sent(payload) else Silent) == RequestStep(old(Snapshot()), mac, ciaddr, requested)
    {
      if ciaddr != 0 && Octet3(ciaddr) != Octet3(cfg.boot) {
        return false;
      } else if requested.Some? {
        if Octet3(cfg.boot) != Octet3(requested.value) { return false; }
      }
      var wanted: Addr := if requested.Some? then requested.value else 0;
      var i := FindLeaseByMac(mac);
      if i < leases.Length && wanted == leases[i].addr {
        payload := Ack(mac, leases[i].addr);
        if leases[i].deleted { leases[i] := leases[i].(deleted := false); }
      } else if i < leases.Length && wanted == 0 && ciaddr == leases[i].addr {
        payload := Ack(mac, leases[i].addr);
        if leases[i].deleted { leases[i] := leases[i].(deleted := false); }
      } else {
        payload := Nak(mac);
      }
      return true;
    }

    method DeleteByMac(mac: Mac)
      requires Valid()
      modifies leases
      ensures Valid() && Snapshot() == DeleteStep(old(Snapshot()), mac)
    {
      var i := FindLeaseByMac(mac);
      if i < leases.Length { leases[i] := leases[i].(deleted := true); }
    }

    method HandleRelease(mac: Mac, serverId: Option<Addr>)
      requires Valid()
      modifies leases
      ensures Valid() && Snapshot() == Step(old(Snapshot()), Release(mac, serverId)).state
    {
      if serverId == None { return; }
      if cfg.server == serverId.value { DeleteByMac(mac); }
    }

    method HandleDecline(serverId: Option<Addr>, requested: Option<Addr>)
      requires Valid()
      modifies declined
      ensures Valid() && Snapshot() == DeclineStep(old(Snapshot()), serverId, requested)
    {
      if serverId == None || requested == None { return; }
      if cfg.server == serverId.value {
        var d := FindDeclinedAddr(requested.value);
        if d < declined.Length { return; }
        var i := 0;
        while i < declined.Length
          invariant 0 <= i <= declined.Length
          invariant forall k :: 0 <= k < i ==> declined[k] != 0
          invariant declined[..] == old(declined[..])
        {
          if declined[i] == 0 {
            assert i == FindDeclined(old(declined[..]), 0);
            declined[i] := requested.value;
            break;
          }
          i := i + 1;
        }
      }
    }

    method MarkUsedSlots()
      modifies leases
      ensures leases[..] == MarkUsed(old(leases[..]))
    {
      var idx := 0;
      while idx < leases.Length
        invariant 0 <= idx <= leases.Length
        invariant forall k :: 0 <= k < idx ==> leases[k] == MarkUsed(old(leases[..]))[k]
        invariant forall k :: idx <= k < leases.Length ==> leases[k] == old(leases[k])
      {
        if leases[idx].mac != ZERO_MAC { leases[idx] := leases[idx].(deleted := true); }
        idx := idx + 1;
      }
    }

    /** Starting the daemon: the decline list is cleared, the pool recomputed, every used slot marked. */
    method Start(ip: Addr, gateway: Addr)
      requires Valid()
      modifies this`cfg, leases, declined
      ensures Valid() && Snapshot() == RestartStep(old(Snapshot()), ip, gateway)
      ensures var n := leases.Length;
              ip + 2 + n < 0x1_0000_0000 ==> cfg == Config(gateway, ip + 1, ip + 1 + n, ip + 2 + n)
    {
      forall k | 0 <= k < declined.Length { declined[k] := 0; }
      assert declined[..] == seq(declined.Length, _ => 0);
      cfg := PoolConfig(ip, gateway, leases.Length);
      MarkUsedSlots();
    }

    /** The address other modules are told for a client: its lease, unless deleted or declined. */
    method FindAddrByMac(mac: Mac) returns (r: Addr)
      ensures r != 0 ==> exists k :: 0 <= k < leases.Length && leases[k] == Lease(mac, r, false) && r !in declined[..]
      ensures r == 0 ==> forall k :: 0 <= k < leases.Length && leases[k].mac == mac && !leases[k].deleted && leases[k].addr != 0 ==>
                leases[k].addr in declined[..] || exists j :: 0 <= j < k && leases[j].mac == mac
    {
      var i := FindLeaseByMac(mac);
      if i < leases.Length && !leases[i].deleted {
        var d := FindDeclinedAddr(leases[i].addr);
        if d == declined.Length { return leases[i].addr; }
        assert declined[d] in declined[..];
      }
      return 0;
    }

    /** Dispatch of one decoded packet or call; true when the reply buffer is sent. */
    method Handle(e: Event) returns (sent: bool)
      requires Valid()
      requires e.Discover? && e.mac != ZERO_MAC && e.mac != BROADCAST_MAC ==> ScanEnds(e.arp)
      modifies this, leases, declined
      ensures Valid()
      ensures Next(Snapshot(), if sent then Sent(payload) else Silent) == Step(old(Snapshot()), e)
    {
      sent := false;
      match e
      case Discover(mac, arp) =>
        var _ := HandleDiscover(mac, arp);
        sent := true;
      case Request(mac, ciaddr, requested) => sent := HandleRequest(mac, ciaddr, requested);
      case Release(mac, id) => HandleRelease(mac, id);
      case Decline(id, requested) => HandleDecline(id, requested);
      case Delete(mac) => DeleteByMac(mac);
      case Restart(ip, gateway) => Start(ip, gateway);
    }
  }
}
