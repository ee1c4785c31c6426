/** Offers that are honoured: exactly when a client that was offered an address will have it
    acknowledged, whatever other clients do in between, and how it can lose it otherwise. */
module LeaseOffers {
  import opened Wrappers
  import opened Leases
  import opened LeaseRuns

  // ---------- Other clients ----------

  /** Anything not done by, or to, client `a`, short of a restart. */
  predicate Foreign(e: Event, a: Mac) {
    match e
    case Restart(_, _) => false
    case Decline(_, _) => true
    case _ => e.mac != a
  }

  predicate AllForeign(es: seq<Event>, a: Mac) {
    forall e :: e in es ==> Foreign(e, a)
  }

  /** The client's first REQUEST for an offered address, as it is sent after an OFFER. */
  function SelectRequest(a: Mac, x: Addr): Event { Request(a, 0, Some(x)) }

  predicate Acks(s: State, a: Mac, x: Addr) {
    Step(s, SelectRequest(a, x)).out == Sent(Ack(a, x))
  }

  /** Exactly when a REQUEST selecting a nonzero address is acknowledged: the table has that very
      pair, and the pool's third octet passes the concurrent-mode filter. */
  lemma SelectAckedIff(s: State, a: Mac, x: Addr)
    requires Inv(s) && x != 0
    ensures Acks(s, a, x) <==>
            (exists i :: 0 <= i < |s.leases| && s.leases[i].mac == a && s.leases[i].addr == x) && x / 256 % 256 == s.cfg.boot / 256 % 256
  {
    var i := FindMac(s.leases, a);
    assert forall k :: 0 <= k < |s.leases| && s.leases[k].mac == a && s.leases[k].addr == x ==> k == i;
  }

  lemma {:induction false} HoldSurvivesForeigners(s: State, es: seq<Event>, a: Mac, x: Addr)
    requires Inv(s) && x != 0 && Holds(s, a, x) && AllForeign(es, a)
    ensures Inv(Run(s, es)) && Holds(Run(s, es), a, x) && Run(s, es).cfg == s.cfg
    decreases |es|
  {
    if es != [] {
      assert es[0] in es && forall e :: e in es[1..] ==> e in es;
      StepKeepsHold(s.(payload := Blank), es[0], a, x);
      StepKeepsInv(s, es[0]);
      PayloadIsOutputOnly(s, es[0]);
      HoldSurvivesForeigners(Step(s, es[0]).state, es[1..], a, x);
    }
  }

  // The reply buffer never influences the table.
  lemma PayloadIsOutputOnly(s: State, e: Event)
    ensures Step(s, e).state.leases == Step(s.(payload := Blank), e).state.leases
  {
  }

  lemma SomeUnknownMac(ls: seq<Lease>, a: Mac) returns (c: Mac)
    requires |ls| < 0xFFFF
    ensures c != ZERO_MAC && c != BROADCAST_MAC && c != a && FindMac(ls, c) == |ls|
  {
    var used: seq<nat> := seq(|ls|, k requires 0 <= k < |ls| => ls[k].mac) + [a];
    assert forall k :: 0 <= k < |ls| ==> used[k] == ls[k].mac;
    assert used[|ls|] == a;
    c := Pigeonhole(used, Interval(1, |ls| + 3));
  }

  /** Placing a new client: its DISCOVER, when it has no slot yet. */
  predicate NewClient(s: State, a: Mac) {
    a != ZERO_MAC && a != BROADCAST_MAC && FindMac(s.leases, a) == |s.leases| && PickSlot(s.leases) < |s.leases|
  }

  // ---------- How an offer is lost ----------

  /** A client whose slot is the one to be picked next is thrown out by the next newcomer. */
  lemma DeletedSlotIsStolen(s: State, a: Mac, c: Mac, arp: set<Addr>)
    requires Inv(s) && a != ZERO_MAC && FindMac(s.leases, a) == PickSlot(s.leases) < |s.leases| && NewClient(s, c) && c != a
    ensures FindMac(Step(s, Discover(c, arp)).state.leases, a) == |s.leases|
  {
    var t := Step(s, Discover(c, arp)).state;
    assert forall k :: 0 <= k < |t.leases| ==> t.leases[k].mac != a;
  }

  /** The slots that a newcomer may still get. */
  function Open(ls: seq<Lease>): set<nat> { set k: nat | k < |ls| && (Free(ls[k]) || ls[k].deleted) }

  // What one newcomer does to fill a slot: it finds the whole pool in use, takes the slot without an
  // address, and has it acknowledged.
  function Filling(s: State, c: Mac): seq<Event> { [Discover(c, Usable(s.cfg, {})), Request(c, 0, None)] }

  lemma NewcomerPlaced(s: State, c: Mac, arp: set<Addr>)
    requires NewClient(s, c)
    ensures var p := PickSlot(s.leases);
            var t := Step(s, Discover(c, arp)).state;
            t.leases == s.leases[p := Lease(c, FreshAddress(s.cfg, s.leases, arp, s.cfg.start), s.leases[p].deleted)]
            && FindMac(t.leases, c) == p && t.cfg == s.cfg && t.declined == s.declined
  {
    PlacedIsFound(s, c, FreshAddress(s.cfg, s.leases, arp, s.cfg.start));
  }

  lemma FillingFills(s: State, c: Mac)
    requires Inv(s) && NewClient(s, c)
    ensures var t := Run(s, Filling(s, c));
            Inv(t) && t.leases == s.leases[PickSlot(s.leases) := Lease(c, 0, false)]
  {
    var d, q := Discover(c, Usable(s.cfg, {})), Request(c, 0, None);
    var u := Step(s, d).state;
    var t := Step(u, q).state;
    assert FreshAddress(s.cfg, s.leases, Usable(s.cfg, {}), s.cfg.start) == 0;
    NewcomerPlaced(s, c, Usable(s.cfg, {}));
    StepKeepsInv(s, d);
    StepKeepsInv(u, q);
    RunTwo(s, d, q);
  }

  lemma RunTwo(s: State, d: Event, q: Event)
    ensures Run(s, [d, q]) == Step(Step(s, d).state, q).state
  {
    hide Step, Run;
    RunConcat(s, [d], [q]);
    RunOne(s, d);
    RunOne(Step(s, d).state, q);
    assert [d] + [q] == [d, q];
  }

  lemma {:induction false} RunConcat(s: State, es: seq<Event>, fs: seq<Event>)
    ensures Run(s, es + fs) == Run(Run(s, es), fs)
    decreases |es|
  {
    hide Step;
    if es == [] {
      assert es + fs == fs;
    } else {
      RunConcat(Step(s, es[0]).state, es[1..], fs);
      assert (es + fs)[0] == es[0] && (es + fs)[1..] == es[1..] + fs;
    }
  }

  lemma OpenShrinks(ls: seq<Lease>, c: Mac)
    requires c != ZERO_MAC && PickSlot(ls) < |ls|
    ensures Open(ls[PickSlot(ls) := Lease(c, 0, false)]) == Open(ls) - {PickSlot(ls)} && PickSlot(ls) in Open(ls)
  {
  }

  lemma StillThere(ls: seq<Lease>, p: nat, c: Mac, a: Mac)
    requires p < |ls| && c != a && FindMac(ls, a) < |ls| && p != FindMac(ls, a)
    ensures var k := FindMac(ls, a); FindMac(ls[p := Lease(c, 0, false)], a) == k
  {
    FoundAt(ls[p := Lease(c, 0, false)], a, FindMac(ls, a));
  }

  /** A client in a slot that is marked deleted can always be thrown out by others: they fill every slot
      that would be picked before it, and then take its own. */
  lemma {:induction false} MarkedIsLost(s: State, a: Mac) returns (es: seq<Event>)
    requires Inv(s) && a != ZERO_MAC && |s.leases| < 0xFFFF
    requires FindMac(s.leases, a) < |s.leases| && s.leases[FindMac(s.leases, a)].deleted
    ensures AllForeign(es, a) && Inv(Run(s, es)) && FindMac(Run(s, es).leases, a) == |Run(s, es).leases|
    decreases |Open(s.leases)|
  {
    hide Step, Inv, Run;
    var k, p := FindMac(s.leases, a), PickSlot(s.leases);
    var c := SomeUnknownMac(s.leases, a);
    if p == k {
      var e := Discover(c, {});
      es := [e];
      DeletedSlotIsStolen(s, a, c, {});
      StepKeepsInv(s, e);
      RunOne(s, e);
    } else {
      var t := Run(s, Filling(s, c));
      FillingFills(s, c);
      OpenShrinks(s.leases, c);
      StillThere(s.leases, p, c, a);
      var fs := MarkedIsLost(t, a);
      es := Filling(s, c) + fs;
      RunConcat(s, Filling(s, c), fs);
    }
  }

  lemma RunOne(s: State, e: Event)
    ensures Run(s, [e]) == Step(s, e).state
  {
    assert [e][1..] == [];
  }

  // ---------- When an offer is honoured ----------

  /** The address a DISCOVER is answered with: the client's own, unless it has none or it was declined. */
  function Offered(s: State, a: Mac, arp: set<Addr>): Addr {
    var i := FindMac(s.leases, a);
    if i < |s.leases| && s.leases[i].addr !in s.declined then s.leases[i].addr
    else FreshAddress(s.cfg, s.leases, arp, s.cfg.start)
  }

  /** The slot the offer is made in is marked deleted: the client's own one, or the one picked for it;
      a client whose address was declined gets a wiped one. */
  predicate Marked(s: State, a: Mac) {
    var i := FindMac(s.leases, a);
    if i < |s.leases| then s.leases[i].addr !in s.declined && s.leases[i].deleted
    else PickSlot(s.leases) < |s.leases| && s.leases[PickSlot(s.leases)].deleted
  }

  lemma OfferPlaced(s: State, a: Mac, arp: set<Addr>)
    requires Inv(s) && !Refused(s, a)
    ensures var r := Step(s, Discover(a, arp));
            var i := FindMac(r.state.leases, a);
            && r.out == Sent(Payload.Offer(a, Offered(s, a, arp))) && Inv(r.state) && r.state.cfg == s.cfg
            && |r.state.leases| == |s.leases| && i < |s.leases|
            && r.state.leases[i] == Lease(a, Offered(s, a, arp), Marked(s, a))
  {
    StepKeepsInv(s, Discover(a, arp));
    if FindMac(s.leases, a) < |s.leases| ==> s.leases[FindMac(s.leases, a)].addr in s.declined {
      SlotAfterForgetting(s, a);
      Forgotten(s, a);
      PlacedIsFound(ForgetDeclined(s, a), a, Offered(s, a, arp));
      if FindMac(s.leases, a) < |s.leases| { assert Free(ForgetDeclined(s, a).leases[FindMac(s.leases, a)]); }
    }
  }

  /** An offer of a nonzero address, to a newcomer or a returning client, is honoured after every possible
      sequence of steps by other clients if and only if the slot it is made in is not marked deleted (and
      the address passes the third-octet filter, without which no REQUEST is ever answered). */
  lemma OfferHonouredIff(s: State, a: Mac, arp: set<Addr>)
    requires Inv(s) && !Refused(s, a) && Offered(s, a, arp) != 0 && |s.leases| < 0xFFFF
    ensures var x := Offered(s, a, arp);
            var r := Step(s, Discover(a, arp));
            r.out == Sent(Payload.Offer(a, x)) &&
            ((forall es: seq<Event> | AllForeign(es, a) :: Acks(Run(r.state, es), a, x)) <==>
             (!Marked(s, a) && x / 256 % 256 == s.cfg.boot / 256 % 256))
  {
    hide Step, Marked, Offered, Inv, PickSlot, Refused;
    var x := Offered(s, a, arp);
    var t := Step(s, Discover(a, arp)).state;
    OfferPlaced(s, a, arp);
    if x / 256 % 256 != s.cfg.boot / 256 % 256 {
      SelectAckedIff(t, a, x);
      assert Run(t, []) == t && AllForeign([], a);
    } else if Marked(s, a) {
      NotRefusedIsReal(s, a);
      var es := MarkedIsLost(t, a);
      SelectAckedIff(Run(t, es), a, x);
      assert !Acks(Run(t, es), a, x);
    } else {
      forall es: seq<Event> | AllForeign(es, a) ensures Acks(Run(t, es), a, x) {
        HoldSurvivesForeigners(t, es, a, x);
        SelectAckedIff(Run(t, es), a, x);
      }
    }
  }

  lemma NotRefusedIsReal(s: State, a: Mac)
    requires !Refused(s, a)
    ensures a != ZERO_MAC
  {
  }

  /** A daemon start marks every client, so no offer made to a returning client is safe until it is
      acknowledged. */
  lemma RestartMarks(s: State, ip: Addr, gateway: Addr, a: Mac)
    requires a != ZERO_MAC && FindMac(s.leases, a) < |s.leases| && s.leases[FindMac(s.leases, a)].addr != 0
    ensures Marked(Step(s, Restart(ip, gateway)).state, a)
  {
    FoundAt(MarkUsed(s.leases), a, FindMac(s.leases, a));
  }
}
