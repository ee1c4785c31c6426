/** From raw packets to table events and from replies to option bytes: dhcp_process and the packet
    builders of src/lwip/port/dhcpd.c, on top of the option parser and writer. */
module DhcpPackets {
  import opened Wrappers
  import opened Leases
  import opened LeaseRuns
  import opened LeaseOffers
  import opened DhcpOptions

  const SUBNET: Byte := 1
  const ROUTER: Byte := 3
  const DNS_SERVER: Byte := 6
  const DOMAIN_NAME: Byte := 15
  const REQUESTED_IP: Byte := 50
  const LEASE_TIME: Byte := 51
  const MESSAGE_TYPE: Byte := 53
  const SERVER_ID: Byte := 54

  const DISCOVER: Byte := 1
  const REQUEST: Byte := 3
  const DECLINE: Byte := 4
  const NAK: Byte := 6
  const RELEASE: Byte := 7

  const CIADDR := 12
  const CHADDR := 28

  // ---------- Numbers in network byte order ----------

  function Word(p: seq<Byte>): Addr
    requires |p| == 4
  {
    var a: nat, b: nat, c: nat, d: nat := p[0], p[1], p[2], p[3];
    a * 0x100_0000 + b * 0x1_0000 + c * 256 + d
  }

  function Bytes(a: Addr): (r: seq<Byte>)
    ensures |r| == 4
  {
    [a / 256 / 256 / 256, a / 256 / 256 % 256, a / 256 % 256, a % 256]
  }

  lemma WordOfBytes(a: Addr)
    ensures Word(Bytes(a)) == a
  {
  }

  // Missing bytes of a short option read as zero.
  function ShortWord(d: seq<Byte>): Addr
    requires |d| <= 4
  {
    Word(d + [0, 0, 0, 0][|d|..])
  }

  function MacOf(p: seq<Byte>): Mac
    requires |p| >= PACKET_SIZE
  {
    var a: nat, b: nat, c: nat := Word(p[CHADDR..CHADDR + 4]), p[CHADDR + 4], p[CHADDR + 5];
    a * 0x1_0000 + b * 256 + c
  }

  function AddrOption(p: seq<Byte>, code: Byte): Option<Addr>
    requires |p| >= PACKET_SIZE + SLACK
  {
    match Pickup(p, code, 4) case None => None case Some(d) => Some(ShortWord(d))
  }

  // ---------- Receiving ----------

  /** What a received packet asks for; None when it has no message type or one that is ignored. */
  function Decode(p: seq<Byte>, arp: set<Addr>): Option<Event>
    requires |p| >= PACKET_SIZE + SLACK
  {
    match Pickup(p, MESSAGE_TYPE, 1)
    case None => None
    case Some(d) =>
      var kind := if d == [] then 0 else d[0];
      if kind == DISCOVER then Some(Discover(MacOf(p), arp))
      else if kind == REQUEST then Some(Request(MacOf(p), Word(p[CIADDR..CIADDR + 4]), AddrOption(p, REQUESTED_IP)))
      else if kind == RELEASE then Some(Release(MacOf(p), AddrOption(p, SERVER_ID)))
      else if kind == DECLINE then Some(Decline(AddrOption(p, SERVER_ID), AddrOption(p, REQUESTED_IP)))
      else None
  }

  /** Anything that reaches the server: a datagram with the ARP table of that moment, or a call. `memory` is
      what the program reads: the memory from the datagram's payload on, whatever the datagram's length. */
  datatype Input =
    | Datagram(memory: seq<Byte>, arp: set<Addr>)
    | DeleteCall(mac: Mac)
    | RestartCall(ip: Addr, gateway: Addr)

  // As much memory as the parser may look at.
  predicate Readable(i: Input) { i.Datagram? ==> |i.memory| >= PACKET_SIZE + SLACK }

  function EventOf(i: Input): Option<Event>
    requires Readable(i)
  {
    match i
    case Datagram(b, arp) => Decode(b, arp)
    case DeleteCall(mac) => Some(Delete(mac))
    case RestartCall(ip, gw) => Some(Restart(ip, gw))
  }

  function Process(s: State, i: Input): Next
    requires Readable(i)
  {
    match EventOf(i) case None => Next(s, Silent) case Some(e) => Step(s, e)
  }

  function ProcessAll(s: State, ins: seq<Input>): State
    requires forall i :: i in ins ==> Readable(i)
    decreases |ins|
  {
    if ins == [] then s
    else
      assert ins[0] in ins && forall i :: i in ins[1..] ==> i in ins;
      ProcessAll(Process(s, ins[0]).state, ins[1..])
  }

  function Events(ins: seq<Input>): seq<Event>
    requires forall i :: i in ins ==> Readable(i)
    decreases |ins|
  {
    if ins == [] then []
    else
      assert ins[0] in ins && forall i :: i in ins[1..] ==> i in ins;
      (match EventOf(ins[0]) case None => [] case Some(e) => [e]) + Events(ins[1..])
  }

  function Replies(s: State, ins: seq<Input>): seq<Output>
    requires forall i :: i in ins ==> Readable(i)
    decreases |ins|
  {
    if ins == [] then []
    else
      assert ins[0] in ins && forall i :: i in ins[1..] ==> i in ins;
      [Process(s, ins[0]).out] + Replies(Process(s, ins[0]).state, ins[1..])
  }

  /** The packets that are sent, in order. */
  function Packets(outs: seq<Output>): seq<Payload> {
    if outs == [] then []
    else if outs[0].Sent? then [outs[0].payload] + Packets(outs[1..])
    else Packets(outs[1..])
  }

  lemma {:induction false} PacketsAre(outs: seq<Output>, p: Payload)
    requires p in Packets(outs)
    ensures exists k :: 0 <= k < |outs| && outs[k] == Sent(p)
  {
    if outs[0] == Sent(p) {
      assert 0 < |outs| && outs[0] == Sent(p);
    } else {
      PacketsAre(outs[1..], p);
      var k :| 0 <= k < |outs[1..]| && outs[1..][k] == Sent(p);
      assert outs[k + 1] == Sent(p);
    }
  }

  /** Any sequence of datagrams and calls is a run of the table: the same states and the same packets. */
  lemma {:induction false} ProcessAllIsRun(s: State, ins: seq<Input>)
    requires forall i :: i in ins ==> Readable(i)
    ensures ProcessAll(s, ins) == Run(s, Events(ins))
    ensures Packets(Replies(s, ins)) == Packets(Outputs(s, Events(ins)))
    decreases |ins|
  {
    if ins != [] {
      hide Step, EventOf;
      assert ins[0] in ins && forall i :: i in ins[1..] ==> i in ins;
      var t := Process(s, ins[0]);
      ProcessAllIsRun(t.state, ins[1..]);
      assert Replies(s, ins)[0] == t.out && Replies(s, ins)[1..] == Replies(t.state, ins[1..]);
      match EventOf(ins[0])
      case None => assert Events(ins) == Events(ins[1..]);
      case Some(e) =>
        assert Events(ins)[0] == e && Events(ins)[1..] == Events(ins[1..]);
        assert Outputs(s, Events(ins))[0] == t.out && Outputs(s, Events(ins))[1..] == Outputs(t.state, Events(ins[1..]));
    }
  }

  /** Exclusive use on the wire: once a datagram is answered by an ACK of a nonzero address, no packet that
      any later datagrams bring about offers or acknowledges that address to another client, as long as
      none of them ends the hold. */
  lemma AckedAddressIsExclusiveOnTheWire(s: State, d: Input, after: seq<Input>)
    requires Inv(s) && Readable(d) && forall i :: i in after ==> Readable(i)
    requires Grants(Process(s, d)) && EventOf(d) != None && EventOf(d).value.Request?
    requires var r := Process(s, d); HoldUndisturbed(r.state, Events(after), EventOf(d).value.mac, r.out.payload.addr)
    ensures var r := Process(s, d);
            var a := EventOf(d).value.mac;
            Holds(ProcessAll(r.state, after), a, r.out.payload.addr)
            && forall p :: p in Packets(Replies(r.state, after)) ==> Spares(p, a, r.out.payload.addr)
  {
    hide Step, EventOf, Holds, Spares, HoldUndisturbed, Packets;
    var e := EventOf(d).value;
    var r := Process(s, d);
    AckedAddressIsExclusive(s, e.mac, e.ciaddr, e.requested, Events(after));
    ProcessAllIsRun(r.state, after);
    forall p | p in Packets(Replies(r.state, after)) ensures Spares(p, e.mac, r.out.payload.addr) {
      PacketsAre(Outputs(r.state, Events(after)), p);
    }
  }

  /** Whatever datagrams arrive, malformed ones included, the table never shares an address. */
  lemma NoSharedAddressOnTheWire(n: nat, m: nat, ip: Addr, gateway: Addr, ins: seq<Input>, i: nat, j: nat)
    requires (forall x :: x in ins ==> Readable(x)) && i < j < n
    ensures |ProcessAll(Boot(n, m, ip, gateway), ins).leases| == n
    ensures var ls := ProcessAll(Boot(n, m, ip, gateway), ins).leases;
            (ls[i].addr != 0 ==> ls[i].addr != ls[j].addr) && (ls[i].mac != ZERO_MAC ==> ls[i].mac != ls[j].mac)
  {
    ProcessAllIsRun(Boot(n, m, ip, gateway), ins);
    NoSharedAddressFromBoot(n, m, ip, gateway, Events(ins), i, j);
  }

  // ---------- Replying ----------

  const DOMAIN: seq<Byte> :=
    [119, 119, 119, 46, 103, 105, 103, 97, 100, 101, 118, 105, 99, 101, 46, 99, 111, 109, 46, 99, 110]

  /** The add calls that build an OFFER or ACK (seven options) or a NAK (two). */
  function ReplyCalls(kind: Byte, server: Addr, mask: Addr): (r: seq<Opt>)
    ensures AllWritable(r) && DistinctCodes(r) && (forall o :: o in r ==> o.code != OVERLOAD)
  {
    var head := [Opt(MESSAGE_TYPE, [kind]), Opt(SERVER_ID, Bytes(server))];
    if kind == NAK then head
    else head + [Opt(LEASE_TIME, Bytes(3600)), Opt(SUBNET, Bytes(mask)), Opt(ROUTER, Bytes(server)),
                 Opt(DNS_SERVER, Bytes(server)), Opt(DOMAIN_NAME, DOMAIN)]
  }

  lemma {:induction false} SizeAppend(os: seq<Opt>, o: Opt)
    ensures Size(os + [o]) == Size(os) + 2 + |o.data|
  {
    if os == [] {
      assert Size([o]) == 2 + |o.data| + Size([]);
    } else {
      SizeAppend(os[1..], o);
      assert (os + [o])[1..] == os[1..] + [o];
    }
  }

  /** One add call of a builder, on an area that has room for it. */
  method Put(area: array<Byte>, ghost os: seq<Opt>, code: Byte, data: seq<Byte>)
    requires area.Length == AREA_SIZE && Says(area[..], 0, os) && Writable(Opt(code, data)) && Fits(Size(os), |data|)
    modifies area
    ensures Says(area[..], 0, os + [Opt(code, data)]) && Size(os + [Opt(code, data)]) == Size(os) + 2 + |data|
  {
    AddedSays(area[..], os, Opt(code, data));
    SizeAppend(os, Opt(code, data));
    var _ := AddOption(area, code, data);
  }

  method PutLeaseTerms(area: array<Byte>, ghost os: seq<Opt>, mask: Addr)
    requires area.Length == AREA_SIZE && Says(area[..], 0, os) && Size(os) == 9
    modifies area
    ensures var r := os + [Opt(LEASE_TIME, Bytes(3600))] + [Opt(SUBNET, Bytes(mask))];
            Says(area[..], 0, r) && Size(r) == 21
  {
    Put(area, os, LEASE_TIME, Bytes(3600));
    Put(area, os + [Opt(LEASE_TIME, Bytes(3600))], SUBNET, Bytes(mask));
  }

  method PutNetwork(area: array<Byte>, ghost os: seq<Opt>, server: Addr)
    requires area.Length == AREA_SIZE && Says(area[..], 0, os) && Size(os) == 21
    modifies area
    ensures Says(area[..], 0, os + [Opt(ROUTER, Bytes(server))] + [Opt(DNS_SERVER, Bytes(server))] + [Opt(DOMAIN_NAME, DOMAIN)])
  {
    Put(area, os, ROUTER, Bytes(server));
    ghost var os1 := os + [Opt(ROUTER, Bytes(server))];
    Put(area, os1, DNS_SERVER, Bytes(server));
    Put(area, os1 + [Opt(DNS_SERVER, Bytes(server))], DOMAIN_NAME, DOMAIN);
  }

  /** The option area of a reply, built by successive add calls: every one of them fits. */
  method BuildReply(area: array<Byte>, kind: Byte, server: Addr, mask: Addr)
    requires area.Length == AREA_SIZE
    modifies area
    ensures Says(area[..], 0, ReplyCalls(kind, server, mask))
  {
    area[0] := END;
    ghost var head := [Opt(MESSAGE_TYPE, [kind])];
    assert [] + head == head;
    Put(area, [], MESSAGE_TYPE, [kind]);
    Put(area, head, SERVER_ID, Bytes(server));
    head := head + [Opt(SERVER_ID, Bytes(server))];
    if kind == NAK {
      assert head == ReplyCalls(kind, server, mask);
    } else {
      PutLeaseTerms(area, head, mask);
      head := head + [Opt(LEASE_TIME, Bytes(3600))] + [Opt(SUBNET, Bytes(mask))];
      PutNetwork(area, head, server);
      assert head + [Opt(ROUTER, Bytes(server))] + [Opt(DNS_SERVER, Bytes(server))] + [Opt(DOMAIN_NAME, DOMAIN)]
          == ReplyCalls(kind, server, mask);
    }
  }

  lemma SaidIsPicked(p: seq<Byte>, os: seq<Opt>, k: nat)
    requires |p| >= PACKET_SIZE + SLACK && k < |os| && AllWritable(os)
    requires Says(p[OPTIONS..PACKET_SIZE], 0, os) && DistinctCodes(os) && forall o :: o in os ==> o.code != OVERLOAD
    ensures Pickup(p, os[k].code, 255) == Some(os[k].data)
  {
    assert os[k] in os;
    PickupReadsBack(p, os[k].code, 255, 0, os);
    LookupDistinct(os, k);
  }

  lemma UnsaidIsAbsent(p: seq<Byte>, os: seq<Opt>, code: Byte)
    requires |p| >= PACKET_SIZE + SLACK && code != END
    requires Says(p[OPTIONS..PACKET_SIZE], 0, os) && forall o :: o in os ==> o.code != OVERLOAD && o.code != code
    ensures Pickup(p, code, 255) == None
  {
    PickupReadsBack(p, code, 255, 0, os);
    LookupAbsent(os, code);
  }

  // The option area of the packet is one that BuildReply leaves behind.
  predicate CarriesReply(p: seq<Byte>, kind: Byte, server: Addr, mask: Addr) {
    |p| >= PACKET_SIZE + SLACK && Says(p[OPTIONS..PACKET_SIZE], 0, ReplyCalls(kind, server, mask))
  }

  /** A client that parses the option area of an OFFER or ACK finds the message type, this server's
      identity and every lease parameter: no option is lost and none is garbled. */
  lemma GrantReadable(p: seq<Byte>, kind: Byte, server: Addr, mask: Addr)
    requires CarriesReply(p, kind, server, mask) && kind != 6
    ensures Pickup(p, 53, 255) == Some([kind]) && Pickup(p, 54, 255) == Some(Bytes(server))
    ensures Pickup(p, 51, 255) == Some(Bytes(3600)) && Pickup(p, 1, 255) == Some(Bytes(mask))
    ensures Pickup(p, 3, 255) == Some(Bytes(server)) && Pickup(p, 6, 255) == Some(Bytes(server))
    ensures Pickup(p, 15, 255) == Some(DOMAIN)
  {
    var c := ReplyCalls(kind, server, mask);
    SaidIsPicked(p, c, 0);
    SaidIsPicked(p, c, 1);
    SaidIsPicked(p, c, 2);
    SaidIsPicked(p, c, 3);
    SaidIsPicked(p, c, 4);
    SaidIsPicked(p, c, 5);
    SaidIsPicked(p, c, 6);
  }

  /** A NAK carries its type and the server's identity, and no lease parameter. */
  lemma NakReadable(p: seq<Byte>, server: Addr, mask: Addr, code: Byte)
    requires CarriesReply(p, 6, server, mask)
    ensures Pickup(p, 53, 255) == Some([6]) && Pickup(p, 54, 255) == Some(Bytes(server))
    ensures code != 53 && code != 54 && code != 255 ==> Pickup(p, code, 255) == None
  {
    var c := ReplyCalls(NAK, server, mask);
    SaidIsPicked(p, c, 0);
    SaidIsPicked(p, c, 1);
    if code != MESSAGE_TYPE && code != SERVER_ID && code != END { UnsaidIsAbsent(p, c, code); }
  }

  // ---------- The address handshake, on bytes ----------

  /** The options a client puts in a REQUEST for an offered address. */
  function RequestOptions(x: Addr, server: Addr): seq<Opt> {
    [Opt(53, [3]), Opt(50, Bytes(x)), Opt(54, Bytes(server))]
  }

  lemma DecodeRequest(p: seq<Byte>, x: Addr, server: Addr, arp: set<Addr>)
    requires |p| >= PACKET_SIZE + SLACK
    requires Says(p[OPTIONS..PACKET_SIZE], 0, RequestOptions(x, server))
    ensures Decode(p, arp) == Some(Request(MacOf(p), Word(p[CIADDR..CIADDR + 4]), Some(x)))
  {
    var os := RequestOptions(x, server);
    PickupReadsBack(p, MESSAGE_TYPE, 1, 0, os);
    PickupReadsBack(p, REQUESTED_IP, 4, 0, os);
    LookupDistinct(os, 0);
    LookupDistinct(os, 1);
    assert Bytes(x) + [0, 0, 0, 0][4..] == Bytes(x);
    WordOfBytes(x);
  }

  /** Bytes in network order as one number. */
  function Value(q: seq<Byte>): nat {
    if q == [] then 0 else Value(q[..|q| - 1]) * 256 + q[|q| - 1]
  }

  lemma ValueAppend(q: seq<Byte>, b: Byte)
    ensures Value(q + [b]) == Value(q) * 256 + b
  {
    assert (q + [b])[..|q|] == q;
  }

  lemma ValueOfWord(q: seq<Byte>)
    requires |q| == 4
    ensures Value(q) == Word(q)
  {
    hide Value;
    ValueNone();
    ValueAppend([], q[0]);
    ValueAppend([q[0]], q[1]);
    ValueAppend([q[0], q[1]], q[2]);
    ValueAppend([q[0], q[1], q[2]], q[3]);
    assert [] + [q[0]] == [q[0]] && [q[0]] + [q[1]] == [q[0], q[1]] && [q[0], q[1]] + [q[2]] == [q[0], q[1], q[2]];
    assert [q[0], q[1], q[2]] + [q[3]] == q;
  }

  lemma ValueNone()
    ensures Value([]) == 0
  {
  }

  /** An address among the said options: four bytes in network order, a shorter one filled up with zeros. */
  function SaidAddress(os: seq<Opt>, code: Byte): Option<nat> {
    match Lookup(os, code)
    case None => None
    case Some(d) => if |d| > 4 then None else Some(Value((d + [0, 0, 0, 0])[..4]))
  }

  lemma AddressRead(p: seq<Byte>, os: seq<Opt>, code: Byte)
    requires |p| >= PACKET_SIZE + SLACK && code != END && Says(p[OPTIONS..PACKET_SIZE], 0, os)
    requires forall o :: o in os ==> o.code != OVERLOAD
    ensures AddrOption(p, code) == SaidAddress(os, code)
  {
    PickupReadsBack(p, code, 4, 0, os);
    var l := Lookup(os, code);
    if l != None && |l.value| <= 4 {
      var d := l.value;
      assert d + [0, 0, 0, 0][|d|..] == (d + [0, 0, 0, 0])[..4];
      ValueOfWord((d + [0, 0, 0, 0])[..4]);
    }
  }

  lemma FieldsRead(p: seq<Byte>)
    requires |p| >= PACKET_SIZE
    ensures MacOf(p) == Value(p[28..34]) && Word(p[CIADDR..CIADDR + 4]) == Value(p[12..16])
  {
    ValueOfWord(p[12..16]);
    ValueOfWord(p[28..32]);
    ValueAppend(p[28..32], p[32]);
    ValueAppend(p[28..33], p[33]);
    assert p[28..32] + [p[32]] == p[28..33] && p[28..33] + [p[33]] == p[28..34];
  }

  /** What every datagram asks for whose options are well formed, by its message type: 1 discovers, 3
      requests, 4 declines, 7 releases, and anything else, or no type, asks for nothing. */
  lemma DatagramMeans(p: seq<Byte>, os: seq<Opt>, arp: set<Addr>)
    requires |p| >= PACKET_SIZE + SLACK && Says(p[OPTIONS..PACKET_SIZE], 0, os) && forall o :: o in os ==> o.code != OVERLOAD
    ensures var mac, ciaddr := Value(p[28..34]), Value(p[12..16]);
            var kind := match Lookup(os, 53) case None => 0 case Some(d) => if |d| == 1 then d[0] else 0;
            var e := Decode(p, arp);
            && (kind == 1 ==> e.Some? && e.value.Discover? && e.value.mac == mac && e.value.arp == arp)
            && (kind == 3 ==> e.Some? && e.value.Request? && e.value.mac == mac && e.value.ciaddr == ciaddr
                              && e.value.requested == SaidAddress(os, 50))
            && (kind == 4 ==> e.Some? && e.value.Decline? && e.value.serverId == SaidAddress(os, 54)
                              && e.value.requested == SaidAddress(os, 50))
            && (kind == 7 ==> e.Some? && e.value.Release? && e.value.mac == mac && e.value.serverId == SaidAddress(os, 54))
            && (kind != 1 && kind != 3 && kind != 4 && kind != 7 ==> e == None)
  {
    hide Pickup, MacOf, Word, AddrOption, SaidAddress, Value, Says;
    FieldsRead(p);
    AddressRead(p, os, 50);
    AddressRead(p, os, 54);
    TypeRead(p, os);
  }

  lemma TypeRead(p: seq<Byte>, os: seq<Opt>)
    requires |p| >= PACKET_SIZE + SLACK && Says(p[OPTIONS..PACKET_SIZE], 0, os) && forall o :: o in os ==> o.code != OVERLOAD
    ensures var d := Lookup(os, 53); Pickup(p, 53, 1) == if d.Some? && |d.value| > 1 then None else d
  {
    PickupReadsBack(p, 53, 1, 0, os);
  }

  /** DISCOVER, OFFER, REQUEST, ACK: a client that is offered an address in a slot not marked deleted, and
      whose REQUEST datagram selects it after any number of steps by other clients, is acknowledged and
      then holds that address. */
  lemma HandshakeCompletes(s: State, a: Mac, arp: set<Addr>, others: seq<Event>, p: seq<Byte>, arp': set<Addr>)
    requires Inv(s) && !Refused(s, a) && !Marked(s, a) && AllForeign(others, a)
    requires |p| >= PACKET_SIZE + SLACK && Value(p[28..34]) == a && Value(p[12..16]) == 0
    requires var x := Offered(s, a, arp);
             x != 0 && x / 256 % 256 == s.cfg.boot / 256 % 256 && Says(p[OPTIONS..PACKET_SIZE], 0, RequestOptions(x, s.cfg.server))
    ensures var x := Offered(s, a, arp);
            var offered := Step(s, Discover(a, arp));
            var r := Process(Run(offered.state, others), Datagram(p, arp'));
            offered.out == Sent(Payload.Offer(a, x)) && r.out == Sent(Ack(a, x)) && Holds(r.state, a, x)
  {
    hide Offered, Marked, Refused, Decode, MacOf, Says, Value, Word;
    FieldsRead(p);
    var x := Offered(s, a, arp);
    var t := Step(s, Discover(a, arp)).state;
    OfferPlaced(s, a, arp);
    HoldSurvivesForeigners(t, others, a, x);
    DecodeRequest(p, x, s.cfg.server, arp');
    var u := Run(t, others);
    SelectAckedIff(u, a, x);
    GrantStartsHold(u, a, 0, Some(x));
  }
}
