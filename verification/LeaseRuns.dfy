/** What the lease table keeps over whole runs: the table invariant, exclusive use of an
    acknowledged address, and the effect of a decline. */
module LeaseRuns {
  import opened Wrappers
  import opened Leases

  // ---------- The table invariant ----------

  predicate Distinct(ls: seq<Lease>) {
    forall i, j :: 0 <= i < j < |ls| ==>
      (ls[i].mac == ls[j].mac ==> ls[i].mac == ZERO_MAC) && (ls[i].addr == ls[j].addr ==> ls[i].addr == 0)
  }

  predicate EmptyHasNoAddress(ls: seq<Lease>) {
    forall i :: 0 <= i < |ls| && ls[i].mac == ZERO_MAC ==> ls[i].addr == 0
  }

  predicate DeclinedDistinct(ds: seq<Addr>) {
    forall i, j :: 0 <= i < j < |ds| && ds[i] == ds[j] ==> ds[i] == 0
  }

  predicate Inv(s: State) {
    Distinct(s.leases) && EmptyHasNoAddress(s.leases) && DeclinedDistinct(s.declined)
  }

  predicate InPool(s: State) {
    forall i :: 0 <= i < |s.leases| && s.leases[i].addr != 0 ==> Assignable(s.cfg, s.leases[i].addr)
  }

  lemma StepKeepsInv(s: State, e: Event)
    requires Inv(s)
    ensures Inv(Step(s, e).state)
    ensures |Step(s, e).state.leases| == |s.leases| && |Step(s, e).state.declined| == |s.declined|
  {
    match e
    case Discover(mac, arp) => DiscoverKeepsInv(s, mac, arp);
    case _ =>
  }

  // Once a declined client is wiped from the table, it is not found there.
  lemma Forgotten(s: State, a: Mac)
    requires Distinct(s.leases) && a != ZERO_MAC
    requires FindMac(s.leases, a) < |s.leases| ==> s.leases[FindMac(s.leases, a)].addr in s.declined
    ensures FindMac(ForgetDeclined(s, a).leases, a) == |s.leases|
  {
    var i := FindMac(s.leases, a);
    var t := ForgetDeclined(s, a);
    assert forall k :: 0 <= k < |t.leases| ==> t.leases[k].mac != a;
  }

  lemma ForgettingKeepsInv(s: State, mac: Mac)
    requires Inv(s)
    ensures var t := ForgetDeclined(s, mac);
            Inv(t) && forall k :: 0 <= k < |t.leases| ==> t.leases[k] == s.leases[k] || t.leases[k] == EMPTY_LEASE
  {
  }

  lemma PlacingKeepsInv(s: State, mac: Mac, x: Addr)
    requires Inv(s) && mac != ZERO_MAC && FindMac(s.leases, mac) == |s.leases| && (x != 0 ==> !Leased(s.leases, x))
    ensures Inv(PlaceClient(s, mac, x).state)
  {
  }

  lemma DiscoverKeepsInv(s: State, mac: Mac, arp: set<Addr>)
    requires Inv(s)
    ensures Inv(DiscoverStep(s, mac, arp).state)
  {
    hide Inv, Assignable, PickSlot;
    if mac != ZERO_MAC && (FindMac(s.leases, mac) < |s.leases| ==> s.leases[FindMac(s.leases, mac)].addr in s.declined) {
      var x := FreshAddress(s.cfg, s.leases, arp, s.cfg.start);
      var t := ForgetDeclined(s, mac);
      ForgettingKeepsInv(s, mac);
      InvDistinct(s);
      Forgotten(s, mac);
      assert x != 0 ==> !Leased(t.leases, x);
      PlacingKeepsInv(t, mac, x);
    } else if mac != ZERO_MAC {
      PayloadKeepsInv(s, Payload.Offer(mac, s.leases[FindMac(s.leases, mac)].addr));
    }
  }

  lemma PayloadKeepsInv(s: State, p: Payload)
    requires Inv(s)
    ensures Inv(s.(payload := p))
  {
  }

  lemma InvDistinct(s: State)
    requires Inv(s)
    ensures Distinct(s.leases)
  {
  }

  lemma {:induction false} RunKeepsInv(s: State, es: seq<Event>)
    requires Inv(s)
    ensures Inv(Run(s, es))
    ensures |Run(s, es).leases| == |s.leases|
    decreases |es|
  {
    if es != [] {
      StepKeepsInv(s, es[0]);
      RunKeepsInv(Step(s, es[0]).state, es[1..]);
    }
  }

  /** A restart that leaves the interface and gateway address alone, or any other event. */
  predicate SamePool(s: State, e: Event) {
    e.Restart? ==> PoolConfig(e.ip, e.gateway, |s.leases|) == s.cfg
  }

  lemma StepKeepsPool(s: State, e: Event)
    requires InPool(s) && SamePool(s, e)
    ensures InPool(Step(s, e).state) && Step(s, e).state.cfg == s.cfg
  {
    hide Assignable, PickSlot;
    if e.Discover? {
      var x := FreshAddress(s.cfg, s.leases, e.arp, s.cfg.start);
      assert x != 0 ==> Eligible(s.cfg, s.leases, e.arp, x);
    }
  }

  lemma {:induction false} RunKeepsPool(s: State, es: seq<Event>)
    requires Inv(s) && InPool(s)
    requires forall e :: e in es ==> SamePool(s, e)
    ensures InPool(Run(s, es)) && Run(s, es).cfg == s.cfg
    decreases |es|
  {
    hide Inv, InPool, Step;
    if es != [] {
      var t := Step(s, es[0]).state;
      StepKeepsInv(s, es[0]);
      assert es[0] in es;
      StepKeepsPool(s, es[0]);
      assert |t.leases| == |s.leases| && t.cfg == s.cfg;
      forall e | e in es[1..] ensures SamePool(t, e) {
        assert e in es && SamePool(s, e);
      }
      RunKeepsPool(t, es[1..]);
    }
  }

  /** From power-on, no two clients ever share an address, whatever arrives in whatever order. */
  lemma NoSharedAddressFromBoot(n: nat, m: nat, ip: Addr, gateway: Addr, es: seq<Event>, i: nat, j: nat)
    requires i < j < n
    ensures |Run(Boot(n, m, ip, gateway), es).leases| == n
    ensures var ls := Run(Boot(n, m, ip, gateway), es).leases;
            (ls[i].addr != 0 ==> ls[i].addr != ls[j].addr) && (ls[i].mac != ZERO_MAC ==> ls[i].mac != ls[j].mac)
  {
    RunKeepsInv(Boot(n, m, ip, gateway), es);
  }

  // ---------- An acknowledged address is exclusive ----------

  predicate Holds(s: State, a: Mac, x: Addr) {
    var i := FindMac(s.leases, a);
    i < |s.leases| && s.leases[i].addr == x && !s.leases[i].deleted
  }

  // No offer or acknowledgement of `x` to anyone but `a`.
  predicate Spares(p: Payload, a: Mac, x: Addr) {
    (p.Offer? || p.Ack?) && p.addr == x ==> p.mac == a
  }

  /** The events that end client `a`'s hold on `x`. */
  predicate EndsHold(s: State, e: Event, a: Mac, x: Addr) {
    match e
    case Discover(mac, _) => mac == a && x in s.declined
    case Release(mac, id) => mac == a && id == Some(s.cfg.server)
    case Delete(mac) => mac == a
    case Restart(_, _) => true
    case _ => false
  }

  predicate HoldUndisturbed(s: State, es: seq<Event>, a: Mac, x: Addr)
    decreases |es|
  {
    es == [] || (!EndsHold(s, es[0], a, x) && HoldUndisturbed(Step(s, es[0]).state, es[1..], a, x))
  }

  lemma StepKeepsHold(s: State, e: Event, a: Mac, x: Addr)
    requires Inv(s) && x != 0 && Holds(s, a, x) && Spares(s.payload, a, x)
    requires !EndsHold(s, e, a, x)
    ensures var t := Step(s, e).state; Holds(t, a, x) && Spares(t.payload, a, x)
    ensures Step(s, e).out.Sent? ==> Spares(Step(s, e).out.payload, a, x)
  {
    match e
    case Discover(mac, arp) => DiscoverKeepsHold(s, mac, arp, a, x);
    case Request(_, _, _) =>
      StepKeepsInv(s, e);
      HolderIndex(Step(s, e).state, FindMac(s.leases, a), a, x);
    case Release(mac, _) => HolderIndex(Step(s, e).state, FindMac(s.leases, a), a, x);
    case Decline(_, _) =>
    case Delete(mac) => HolderIndex(Step(s, e).state, FindMac(s.leases, a), a, x);
    case Restart(_, _) =>
  }

  lemma HolderIndex(s: State, i: nat, a: Mac, x: Addr)
    requires Distinct(s.leases) && a != ZERO_MAC
    requires i < |s.leases| && s.leases[i].mac == a && s.leases[i].addr == x && !s.leases[i].deleted
    ensures Holds(s, a, x)
  {
  }

  lemma DiscoverKeepsHold(s: State, mac: Mac, arp: set<Addr>, a: Mac, x: Addr)
    requires Inv(s) && x != 0 && Holds(s, a, x) && Spares(s.payload, a, x)
    requires mac == a ==> x !in s.declined
    ensures var r := DiscoverStep(s, mac, arp);
            Holds(r.state, a, x) && Spares(r.state.payload, a, x) && r.out == Sent(r.state.payload)
  {
    var i := FindMac(s.leases, a);
    var t := ForgetDeclined(s, mac);
    var c := FreshAddress(s.cfg, s.leases, arp, s.cfg.start);
    assert c != x by { assert Leased(s.leases, s.leases[i].addr); }
    assert t.leases[i] == s.leases[i];
    DiscoverKeepsInv(s, mac, arp);
    HolderIndex(DiscoverStep(s, mac, arp).state, i, a, x);
  }

  lemma {:induction false} HoldIsExclusive(s: State, es: seq<Event>, a: Mac, x: Addr)
    requires Inv(s) && x != 0 && Holds(s, a, x) && Spares(s.payload, a, x)
    requires HoldUndisturbed(s, es, a, x)
    ensures Holds(Run(s, es), a, x)
    ensures forall k :: 0 <= k < |es| && Outputs(s, es)[k].Sent? ==> Spares(Outputs(s, es)[k].payload, a, x)
    decreases |es|
  {
    if es != [] {
      StepKeepsHold(s, es[0], a, x);
      StepKeepsInv(s, es[0]);
      HoldIsExclusive(Step(s, es[0]).state, es[1..], a, x);
    }
  }

  /** The step answers with an ACK of a nonzero address. */
  predicate Grants(r: Next) {
    r.out.Sent? && r.out.payload.Ack? && r.out.payload.addr != 0
  }

  lemma GrantStartsHold(s: State, a: Mac, ciaddr: Addr, requested: Option<Addr>)
    requires Inv(s) && Grants(Step(s, Request(a, ciaddr, requested)))
    ensures var r := Step(s, Request(a, ciaddr, requested));
            Inv(r.state) && Holds(r.state, a, r.out.payload.addr) && Spares(r.state.payload, a, r.out.payload.addr)
  {
    StepKeepsInv(s, Request(a, ciaddr, requested));
    var i := FindMac(s.leases, a);
    var t := Step(s, Request(a, ciaddr, requested)).state;
    assert t.leases[i].mac == a && FindMac(t.leases, a) == i;
  }

  /** Once a REQUEST of client `a` is answered by an ACK of a nonzero address, no packet sent
      afterwards, in any run, offers or acknowledges that address to another client, until `a`
      releases it, is deleted, re-discovers after a decline, or the daemon restarts. */
  lemma AckedAddressIsExclusive(s: State, a: Mac, ciaddr: Addr, requested: Option<Addr>, after: seq<Event>)
    requires Inv(s)
    requires var r := Step(s, Request(a, ciaddr, requested));
             Grants(r) && HoldUndisturbed(r.state, after, a, r.out.payload.addr)
    ensures var r := Step(s, Request(a, ciaddr, requested));
            Holds(Run(r.state, after), a, r.out.payload.addr)
            && forall k :: 0 <= k < |after| && Outputs(r.state, after)[k].Sent? ==>
                 Spares(Outputs(r.state, after)[k].payload, a, r.out.payload.addr)
  {
    GrantStartsHold(s, a, ciaddr, requested);
    var r := Step(s, Request(a, ciaddr, requested));
    HoldIsExclusive(r.state, after, a, r.out.payload.addr);
  }

  /** Each of the exceptions really ends the hold: after such an event the client's slot is marked
      deleted or no longer carries the address. */
  lemma EndedHoldIsGone(s: State, e: Event, a: Mac, x: Addr)
    requires Inv(s) && a != BROADCAST_MAC && x != 0 && Holds(s, a, x) && EndsHold(s, e, a, x)
    ensures !Holds(Step(s, e).state, a, x)
  {
    var i := FindMac(s.leases, a);
    assert a != ZERO_MAC;
    if e.Discover? {
      assert s.leases[i].addr in s.declined;
      var c := FreshAddress(s.cfg, s.leases, e.arp, s.cfg.start);
      assert c != x by { assert Leased(s.leases, s.leases[i].addr); }
    }
  }

  // ---------- A declined address ----------

  /** A client whose address was declined: its next DISCOVER always finds a slot, is offered a
      different address, and the declined address leaves both the table and the decline list. */
  lemma DiscoverAfterDecline(s: State, a: Mac, arp: set<Addr>)
    requires Inv(s) && a != ZERO_MAC && a != BROADCAST_MAC
    requires FindMac(s.leases, a) < |s.leases|
    requires s.leases[FindMac(s.leases, a)].addr != 0 && s.leases[FindMac(s.leases, a)].addr in s.declined
    ensures var x := s.leases[FindMac(s.leases, a)].addr;
            var y := FreshAddress(s.cfg, s.leases, arp, s.cfg.start);
            var r := Step(s, Discover(a, arp));
            r.out == Sent(Payload.Offer(a, y)) && y != x && x !in r.state.declined && !Leased(r.state.leases, x)
            && (y != 0 ==> Holds(r.state, a, y))
  {
    var i := FindMac(s.leases, a);
    var x := s.leases[i].addr;
    var y := FreshAddress(s.cfg, s.leases, arp, s.cfg.start);
    assert Leased(s.leases, x);
    var t := ForgetDeclined(s, a);
    assert Free(t.leases[i]) && FindMac(t.leases, a) == |t.leases|;
    var k := PickSlot(t.leases);
    var u := Step(s, Discover(a, arp)).state;
    assert u.leases[k] == Lease(a, y, false);
    StepKeepsInv(s, Discover(a, arp));
    assert FindMac(u.leases, a) == k;
  }

  // ---------- The pool is large enough ----------

  lemma {:induction false} Pigeonhole<T>(s: seq<T>, big: set<T>) returns (x: T)
    requires |s| < |big|
    ensures x in big && x !in s
    decreases |s|
  {
    if s == [] {
      x :| x in big;
    } else {
      x := Pigeonhole(s[1..], big - {s[0]});
    }
  }

  function Interval(lo: nat, hi: nat): (r: set<nat>)
    requires lo <= hi
    ensures forall x :: x in r <==> lo <= x < hi
    ensures |r| == hi - lo
    decreases hi - lo
  {
    if lo == hi then {} else {lo} + Interval(lo + 1, hi)
  }

  /** The pool addresses that may be handed out at all. */
  function Usable(c: Config, arp: set<Addr>): set<Addr> {
    set x: Addr | c.start <= x <= c.end && Assignable(c, x) && x !in arp
  }

  /** With more usable addresses in the pool than slots, an address is always found (by counting). */
  lemma AddressFoundByCounting(c: Config, ls: seq<Lease>, arp: set<Addr>)
    requires |ls| < |Usable(c, arp)|
    ensures FreshAddress(c, ls, arp, c.start) != 0
  {
    var used: seq<Addr> := seq(|ls|, k requires 0 <= k < |ls| => ls[k].addr);
    assert forall k :: 0 <= k < |ls| ==> used[k] == ls[k].addr;
    var x := Pigeonhole(used, Usable(c, arp));
    assert Eligible(c, ls, arp, x);
  }

  /** The configured pool has one address more than there are slots, so an address is found whenever
      no pool address is excluded or in the ARP table and the pool does not wrap past 2^32. */
  lemma PoolNeverExhausted(ls: seq<Lease>, ip: Addr, gateway: Addr, arp: set<Addr>)
    requires ip + 1 + |ls| < 0x1_0000_0000
    requires forall x: Addr :: ip < x <= ip + 1 + |ls| ==> x % 256 != 0 && x % 256 != 255 && x != gateway && x !in arp
    ensures var c := PoolConfig(ip, gateway, |ls|); FreshAddress(c, ls, arp, c.start) != 0
  {
    var c := PoolConfig(ip, gateway, |ls|);
    assert c.start == ip + 1 && c.end == ip + 1 + |ls| && c.server == gateway;
    var pool: set<nat> := Usable(c, arp);
    assert pool == Interval(c.start, c.end + 1);
    AddressFoundByCounting(c, ls, arp);
  }

  // ---------- The shared reply buffer ----------

  /** A null or broadcast sender, or no slot for the client. */
  predicate Refused(s: State, a: Mac) {
    a == ZERO_MAC || a == BROADCAST_MAC
    || (FindMac(s.leases, a) == |s.leases| && forall k :: 0 <= k < |s.leases| ==> !Free(s.leases[k]) && !s.leases[k].deleted)
  }

  // A client with a slot never lacks one: wiping it leaves it free.
  lemma SlotAfterForgetting(s: State, a: Mac)
    requires !Refused(s, a) && (FindMac(s.leases, a) < |s.leases| ==> s.leases[FindMac(s.leases, a)].addr in s.declined)
    ensures PickSlot(ForgetDeclined(s, a).leases) < |s.leases|
  {
    var i := FindMac(s.leases, a);
    if i < |s.leases| {
      assert Free(ForgetDeclined(s, a).leases[i]);
    }
  }

  /** A DISCOVER that is refused changes nothing and has the previous reply sent a second time, because
      the handler's failure code is dropped; any other is answered by an offer to its sender. */
  lemma RefusedDiscoverResends(s: State, a: Mac, arp: set<Addr>)
    requires Inv(s)
    ensures var r := Step(s, Discover(a, arp));
            if Refused(s, a) then r == Next(s, Sent(s.payload)) else r.out.payload.Offer? && r.out.payload.mac == a
  {
    if !Refused(s, a) && (FindMac(s.leases, a) < |s.leases| ==> s.leases[FindMac(s.leases, a)].addr in s.declined) {
      SlotAfterForgetting(s, a);
    }
  }

  // The table gives the client this address, as an acknowledgement only without the deleted mark.
  predicate Backed(ls: seq<Lease>, p: Payload) {
    p.Offer? || p.Ack? ==>
      var i := FindMac(ls, p.mac);
      i < |ls| && ls[i].addr == p.addr && (p.Ack? ==> !ls[i].deleted)
  }

  lemma FoundAt(ls: seq<Lease>, a: Mac, i: nat)
    requires i < |ls| && ls[i].mac == a && forall k :: 0 <= k < i ==> ls[k].mac != a
    ensures FindMac(ls, a) == i
  {
    var r := FindMac(ls, a);
    assert r < |ls| ==> ls[r].mac == a;
  }

  lemma PlacedIsFound(s: State, a: Mac, x: Addr)
    requires PickSlot(s.leases) < |s.leases| && FindMac(s.leases, a) == |s.leases|
    ensures FindMac(PlaceClient(s, a, x).state.leases, a) == PickSlot(s.leases)
  {
    FoundAt(PlaceClient(s, a, x).state.leases, a, PickSlot(s.leases));
  }

  /** Every reply, except the one that is sent again for a refused DISCOVER, says what the table says. */
  lemma ReplyMatchesTable(s: State, e: Event)
    requires Inv(s) && (e.Discover? ==> !Refused(s, e.mac))
    ensures Step(s, e).out.Sent? ==> Backed(Step(s, e).state.leases, Step(s, e).out.payload)
  {
    match e
    case Discover(mac, arp) =>
      if FindMac(s.leases, mac) < |s.leases| ==> s.leases[FindMac(s.leases, mac)].addr in s.declined {
        SlotAfterForgetting(s, mac);
        Forgotten(s, mac);
        PlacedIsFound(ForgetDeclined(s, mac), mac, FreshAddress(s.cfg, s.leases, arp, s.cfg.start));
      }
    case Request(mac, _, _) =>
      var i := FindMac(s.leases, mac);
      if i < |s.leases| { FoundAt(s.leases[i := s.leases[i].(deleted := false)], mac, i); }
    case _ =>
  }
}
