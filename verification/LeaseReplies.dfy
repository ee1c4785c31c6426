/** What each message means to its sender, in terms of the table and of plain numbers: how every REQUEST
    is answered, what a RELEASE, a DECLINE and a daemon start do, and that a started server really
    acknowledges what it offers. */
module LeaseReplies {
  import opened Wrappers
  import opened Leases
  import opened LeaseRuns
  import opened LeaseOffers

  // ---------- DISCOVER ----------

  /** A client in the table whose address is not declined is offered that address, and the table stays as it is. */
  lemma KnownClientOffered(s: State, a: Mac, arp: set<Addr>, x: Addr)
    requires Inv(s) && a != 0 && a != 0xFFFF_FFFF_FFFF && HasEntry(s, a, x) && x !in s.declined
    ensures var r := Step(s, Discover(a, arp));
            r.out == Sent(Payload.Offer(a, x)) && r.state.leases == s.leases && r.state.declined == s.declined && r.state.cfg == s.cfg
  {
    EntryIsFound(s, a, x);
  }

  /** An address that may be given to a newcomer. */
  predicate Available(s: State, arp: set<Addr>, x: Addr) {
    s.cfg.start <= x <= s.cfg.end && x % 256 != 0 && x % 256 != 255 && x != s.cfg.server && x !in arp
    && forall k :: 0 <= k < |s.leases| ==> s.leases[k].addr != x
  }

  /** A newcomer is put into one slot, which keeps its mark: one without client and mark if there is such a slot,
      and otherwise a marked one. It gets the least available address, or 0 if there is none; nothing else
      changes. If every slot has a client and no mark, nothing changes at all. */
  lemma NewcomerPlacedInOneSlot(s: State, a: Mac, arp: set<Addr>) returns (k: nat, x: Addr)
    requires a != 0 && a != 0xFFFF_FFFF_FFFF && forall j :: 0 <= j < |s.leases| ==> s.leases[j].mac != a
    ensures var r := Step(s, Discover(a, arp));
            if forall j :: 0 <= j < |s.leases| ==> s.leases[j].mac != 0 && !s.leases[j].deleted then r.state == s
            else
              && k < |s.leases| && r.out == Sent(Payload.Offer(a, x))
              && r.state == s.(leases := s.leases[k := Lease(a, x, s.leases[k].deleted)], payload := Payload.Offer(a, x))
              && (s.leases[k].deleted || s.leases[k].mac == 0)
              && (s.leases[k].deleted ==> forall j :: 0 <= j < |s.leases| ==> s.leases[j].mac != 0 || s.leases[j].deleted)
              && (x != 0 ==> Available(s, arp, x) && forall y: Addr :: y < x ==> !Available(s, arp, y))
              && (x == 0 ==> forall y: Addr :: !Available(s, arp, y))
  {
    k, x := PickSlot(s.leases), FreshAddress(s.cfg, s.leases, arp, s.cfg.start);
    forall y: Addr ensures Available(s, arp, y) <==> Eligible(s.cfg, s.leases, arp, y) {}
    hide Eligible, Available, FreshAddress, PickSlot;
    assert FindMac(s.leases, a) == |s.leases|;
    assert ForgetDeclined(s, a) == s;
    NotBeforeStart(s, arp);
  }

  lemma NotBeforeStart(s: State, arp: set<Addr>)
    ensures forall y: Addr :: y < s.cfg.start ==> !Available(s, arp, y)
  {
  }

  // ---------- REQUEST ----------

  /** The client asks for `x`: by the option, or by its own address when the option is absent or zero. */
  predicate AsksFor(ciaddr: Addr, requested: Option<Addr>, x: Addr) {
    var wanted := if requested == None then 0 else requested.value;
    wanted == x || (wanted == 0 && ciaddr == x)
  }

  /** An address the message names has another third octet than the boot address. */
  predicate OtherNet(boot: Addr, ciaddr: Addr, requested: Option<Addr>) {
    (ciaddr != 0 && ciaddr / 256 % 256 != boot / 256 % 256)
    || (requested != None && requested.value / 256 % 256 != boot / 256 % 256)
  }

  predicate HasEntry(s: State, a: Mac, x: Addr) { exists i :: 0 <= i < |s.leases| && s.leases[i].mac == a && s.leases[i].addr == x }

  lemma EntryIsFound(s: State, a: Mac, x: Addr)
    requires Inv(s)
    ensures HasEntry(s, a, x) <==> FindMac(s.leases, a) < |s.leases| && s.leases[FindMac(s.leases, a)].addr == x
  {
    var i := FindMac(s.leases, a);
    if k :| 0 <= k < |s.leases| && s.leases[k].mac == a && s.leases[k].addr == x {
      assert i <= k;
    }
  }

  /** How every REQUEST is answered, selecting, rebooting, renewing or rebinding: silence exactly for another
      net; an acknowledgement of x exactly if the table has x for the client and the client asks for x; a
      refusal exactly if the table has nothing that the client asks for. */
  lemma RequestAnsweredIff(s: State, a: Mac, ciaddr: Addr, requested: Option<Addr>, x: Addr)
    requires Inv(s)
    ensures var out := Step(s, Request(a, ciaddr, requested)).out;
            var other := OtherNet(s.cfg.boot, ciaddr, requested);
            && (out == Silent <==> other)
            && (out == Sent(Ack(a, x)) <==> !other && HasEntry(s, a, x) && AsksFor(ciaddr, requested, x))
            && (out == Sent(Nak(a)) <==> !other && forall y: Addr :: HasEntry(s, a, y) ==> !AsksFor(ciaddr, requested, y))
  {
    EntryIsFound(s, a, x);
    var i := FindMac(s.leases, a);
    if i < |s.leases| { EntryIsFound(s, a, s.leases[i].addr); }
    forall y: Addr ensures HasEntry(s, a, y) <==> i < |s.leases| && s.leases[i].addr == y { EntryIsFound(s, a, y); }
  }

  /** A client that asks for the address it holds by `ciaddr` alone is renewed. */
  lemma RenewalAcknowledged(s: State, a: Mac, x: Addr)
    requires Inv(s) && HasEntry(s, a, x) && x != 0 && x / 256 % 256 == s.cfg.boot / 256 % 256
    ensures Step(s, Request(a, x, None)).out == Sent(Ack(a, x))
  {
    RequestAnsweredIff(s, a, x, None, x);
  }

  /** What a REQUEST does to the table: an acknowledgement takes the deleted mark off the client's slot;
      nothing else ever changes. */
  lemma RequestClearsMark(s: State, a: Mac, ciaddr: Addr, requested: Option<Addr>)
    requires Inv(s) && a != ZERO_MAC
    ensures var r := Step(s, Request(a, ciaddr, requested));
            && r.state.declined == s.declined && r.state.cfg == s.cfg && |r.state.leases| == |s.leases|
            && forall k :: 0 <= k < |s.leases| ==>
                 r.state.leases[k] ==
                 if s.leases[k].mac == a && r.out == Sent(Ack(a, s.leases[k].addr)) then Lease(a, s.leases[k].addr, false)
                 else s.leases[k]
  {
  }

  // ---------- RELEASE, deletion and DECLINE ----------

  /** A RELEASE that names this server, or a deletion, marks the client's slot and nothing else; any other
      RELEASE does nothing. */
  lemma ReleaseMarks(s: State, a: Mac, id: Option<Addr>)
    requires Inv(s) && a != ZERO_MAC
    ensures var t := Step(s, Release(a, id)).state;
            && t.declined == s.declined && t.cfg == s.cfg && |t.leases| == |s.leases|
            && forall k :: 0 <= k < |s.leases| ==>
                 t.leases[k] == if s.leases[k].mac == a && id == Some(s.cfg.server) then Lease(a, s.leases[k].addr, true) else s.leases[k]
    ensures var t := Step(s, Delete(a)).state;
            && t.declined == s.declined && t.cfg == s.cfg && |t.leases| == |s.leases|
            && forall k :: 0 <= k < |s.leases| ==>
                 t.leases[k] == if s.leases[k].mac == a then Lease(a, s.leases[k].addr, true) else s.leases[k]
  {
  }

  /** After a DECLINE that names this server the address is on the list, if it was already or there was room;
      every other address stays on it or off it. Any other DECLINE does nothing. */
  lemma DeclineRecorded(s: State, id: Option<Addr>, requested: Option<Addr>, y: Addr)
    requires Inv(s) && y != 0
    ensures var t := Step(s, Decline(id, requested)).state;
            && t.leases == s.leases && t.cfg == s.cfg && |t.declined| == |s.declined|
            && (y in t.declined <==> y in s.declined || (id == Some(s.cfg.server) && requested == Some(y) && 0 in s.declined))
  {
    var t := Step(s, Decline(id, requested)).state;
    if requested != None {
      ListedIff(s.declined, requested.value);
      ListedIff(s.declined, 0);
      var i := FindDeclined(s.declined, 0);
      assert forall k :: 0 <= k < |t.declined| ==> t.declined[k] == s.declined[k] || (k == i && t.declined[k] == requested.value);
      if t != s {
        assert forall k :: 0 <= k < |s.declined| && k != i ==> t.declined[k] == s.declined[k];
        assert t.declined[i] == requested.value;
      }
    }
  }

  lemma ListedIff(ds: seq<Addr>, a: Addr)
    ensures a in ds <==> FindDeclined(ds, a) < |ds|
  {
    var i := FindDeclined(ds, a);
    assert i < |ds| ==> ds[i] in ds;
  }

  /** A daemon start marks every slot with a client, no other, and empties the list of declined addresses. */
  lemma StartMarks(s: State, ip: Addr, gateway: Addr)
    ensures var t := Step(s, Restart(ip, gateway)).state;
            && |t.leases| == |s.leases| && |t.declined| == |s.declined| && (forall k :: 0 <= k < |t.declined| ==> t.declined[k] == 0)
            && forall k :: 0 <= k < |s.leases| ==>
                 t.leases[k] == Lease(s.leases[k].mac, s.leases[k].addr, s.leases[k].deleted || s.leases[k].mac != 0)
  {
  }

  // ---------- A started server ----------

  /** The server was started at `ip`: this is what its gateway, pool and boot address are. */
  predicate StartedAt(s: State, ip: Addr, gateway: Addr) { s.cfg == PoolConfig(ip, gateway, |s.leases|) }

  /** The pool of a server started at `ip` with `n` slots, in numbers: the n + 1 addresses behind its own,
      but for the gateway's and those that end in 0 or 255. */
  lemma PoolMeans(ip: Addr, gateway: Addr, n: nat, x: Addr)
    requires ip + 2 + n < 0x1_0000_0000
    ensures Assignable(PoolConfig(ip, gateway, n), x) <==> ip < x <= ip + 1 + n && x != gateway && x % 256 != 0 && x % 256 != 255
    ensures PoolConfig(ip, gateway, n).server == gateway
  {
  }

  /** No REQUEST for a pool address is filtered, by whichever field it names the address, if and only if the
      address has the third octet of the address two behind the pool's last. */
  lemma PoolPassesIff(ip: Addr, gateway: Addr, n: nat, x: Addr)
    requires ip + 2 + n < 0x1_0000_0000 && ip < x <= ip + 1 + n
    ensures !OtherNet(PoolConfig(ip, gateway, n).boot, 0, Some(x)) <==> x / 256 % 256 == (ip + 2 + n) / 256 % 256
    ensures !OtherNet(PoolConfig(ip, gateway, n).boot, x, None) <==> x / 256 % 256 == (ip + 2 + n) / 256 % 256
    ensures ip / 256 == (ip + 2 + n) / 256 ==> x / 256 % 256 == (ip + 2 + n) / 256 % 256
  {
  }

  lemma StartsAt(s: State, ip: Addr, gateway: Addr, n: nat, m: nat)
    ensures StartedAt(Boot(n, m, ip, gateway), ip, gateway) && Inv(Boot(n, m, ip, gateway))
    ensures StartedAt(Step(s, Restart(ip, gateway)).state, ip, gateway)
  {
  }

  predicate NoStart(es: seq<Event>) { forall e :: e in es ==> !e.Restart? }

  lemma {:induction false} RunKeepsStart(s: State, es: seq<Event>, ip: Addr, gateway: Addr)
    requires Inv(s) && StartedAt(s, ip, gateway) && NoStart(es)
    ensures Inv(Run(s, es)) && StartedAt(Run(s, es), ip, gateway) && |Run(s, es).leases| == |s.leases|
    decreases |es|
  {
    hide Inv, PoolConfig;
    if es != [] {
      assert es[0] in es && forall e :: e in es[1..] ==> e in es;
      StepKeepsInv(s, es[0]);
      assert Step(s, es[0]).state.cfg == s.cfg;
      RunKeepsStart(Step(s, es[0]).state, es[1..], ip, gateway);
    }
  }

  // The server as it is after a start and any events but another start.
  predicate Serving(s: State, ip: Addr, gateway: Addr) {
    Inv(s) && StartedAt(s, ip, gateway) && ip + 2 + |s.leases| < 0x1_0000_0000 && ip / 256 == (ip + 2 + |s.leases|) / 256
  }

  /** From boot, and after every daemon start, the server serves for as long as it is not started elsewhere. */
  lemma ServesFromStart(s: State, ip: Addr, gateway: Addr, n: nat, m: nat, es: seq<Event>)
    requires Inv(s) && NoStart(es)
    ensures ip + 2 + n < 0x1_0000_0000 && ip / 256 == (ip + 2 + n) / 256 ==> Serving(Run(Boot(n, m, ip, gateway), es), ip, gateway)
    ensures var l := |s.leases|;
            ip + 2 + l < 0x1_0000_0000 && ip / 256 == (ip + 2 + l) / 256 ==>
              Serving(Run(Step(s, Restart(ip, gateway)).state, es), ip, gateway)
  {
    hide Inv, Run, PoolConfig;
    StartsAt(s, ip, gateway, n, m);
    RunKeepsStart(Boot(n, m, ip, gateway), es, ip, gateway);
    StepKeepsInv(s, Restart(ip, gateway));
    RunKeepsStart(Step(s, Restart(ip, gateway)).state, es, ip, gateway);
  }

  /** A serving server keeps its word: a newcomer's nonzero offer in an unmarked slot is an address of the
      pool, and it is acknowledged after every sequence of steps by other clients. */
  lemma NewcomerServed(s: State, ip: Addr, gateway: Addr, a: Mac, arp: set<Addr>, others: seq<Event>)
    requires Serving(s, ip, gateway) && !Refused(s, a) && FindMac(s.leases, a) == |s.leases| && !Marked(s, a)
    requires Offered(s, a, arp) != 0 && AllForeign(others, a)
    ensures var x := Offered(s, a, arp);
            var r := Step(s, Discover(a, arp));
            && ip < x <= ip + 1 + |s.leases| && x != gateway && x % 256 != 0 && x % 256 != 255 && x !in arp
            && r.out == Sent(Payload.Offer(a, x)) && Step(Run(r.state, others), Request(a, 0, Some(x))).out == Sent(Ack(a, x))
  {
    hide Run, Inv, Refused, Step;
    var x := Offered(s, a, arp);
    var t := Step(s, Discover(a, arp)).state;
    assert Eligible(s.cfg, s.leases, arp, x);
    PoolMeans(ip, gateway, |s.leases|, x);
    PoolPassesIff(ip, gateway, |s.leases|, x);
    OfferPlaced(s, a, arp);
    HoldSurvivesForeigners(t, others, a, x);
    SelectAckedIff(Run(t, others), a, x);
  }
}
