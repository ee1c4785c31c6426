/** The option area of a DHCP packet: the writer and the parser of src/lwip/port/dhcpd.c, with the
    layout of section 2 of RFC 2132 (code, length, data; pad 0, end 255). */
module DhcpOptions {
  import opened Wrappers

  const PAD: Byte := 0
  const OVERLOAD: Byte := 52
  const END: Byte := 255

  // Offsets in the packet, and the size of the three areas that may hold options.
  const SNAME := 44
  const FILE := 108
  const OPTIONS := 240
  const PACKET_SIZE := 548
  const AREA_SIZE := 308
  // An overload option at the very end of the area makes the parser look two bytes past the packet.
  const SLACK := 2

  // ---------- Writer ----------

  /** A walk over the option area from `i` reaches an end mark inside the area. */
  predicate Terminated(buf: seq<Byte>, i: nat)
    requires |buf| == AREA_SIZE
    decreases AREA_SIZE - i
  {
    i < AREA_SIZE &&
    (buf[i] == END ||
     (buf[i] == PAD && Terminated(buf, i + 1)) ||
     (buf[i] != PAD && i + 1 < AREA_SIZE && Terminated(buf, i + 2 + buf[i + 1])))
  }

  function EndMark(buf: seq<Byte>, i: nat): (r: nat)
    requires |buf| == AREA_SIZE && Terminated(buf, i)
    ensures i <= r < AREA_SIZE && buf[r] == END
    decreases AREA_SIZE - i
  {
    if buf[i] == END then i
    else if buf[i] == PAD then EndMark(buf, i + 1)
    else EndMark(buf, i + 2 + buf[i + 1])
  }

  predicate Fits(end: nat, len: nat) { end + len + 2 + 1 < AREA_SIZE }

  /** The area after adding an option: unchanged when the option does not fit. */
  function Added(buf: seq<Byte>, code: Byte, data: seq<Byte>): (r: seq<Byte>)
    requires |buf| == AREA_SIZE && Terminated(buf, 0) && |data| < 256
    ensures |r| == AREA_SIZE
  {
    var end := EndMark(buf, 0);
    if !Fits(end, |data|) then buf
    else buf[..end] + [code, |data|] + data + [END] + buf[end + |data| + 3..]
  }

  method FindEnd(area: array<Byte>) returns (end: nat)
    requires area.Length == AREA_SIZE && Terminated(area[..], 0)
    ensures end == EndMark(area[..], 0)
  {
    end := 0;
    while area[end] != END
      invariant end < AREA_SIZE && Terminated(area[..], end) && EndMark(area[..], end) == EndMark(area[..], 0)
      decreases AREA_SIZE - end
    {
      if area[end] == PAD {
        end := end + 1;
      } else {
        end := end + area[end + 1] + 2;
      }
    }
  }

  method WriteAt(area: array<Byte>, end: nat, code: Byte, data: seq<Byte>)
    requires area.Length == AREA_SIZE && |data| < 256 && Fits(end, |data|)
    modifies area
    ensures area[..] == old(area[..end]) + [code, |data|] + data + [END] + old(area[end + |data| + 3..])
  {
    area[end] := code;
    area[end + 1] := |data|;
    forall k | 0 <= k < |data| { area[end + 2 + k] := data[k]; }
    area[end + 2 + |data|] := END;
  }

  method AddOption(area: array<Byte>, code: Byte, data: seq<Byte>) returns (used: nat)
    requires area.Length == AREA_SIZE && Terminated(area[..], 0) && |data| < 256
    modifies area
    ensures area[..] == Added(old(area[..]), code, data)
    ensures used == if EndMark(old(area[..]), 0) + |data| + 3 < 308 then |data| + 2 else 0
  {
    var end := FindEnd(area);
    if end + |data| + 2 + 1 >= AREA_SIZE { return 0; }
    ghost var buf := area[..];
    assert area[..end] == buf[..end] && area[end + |data| + 3..] == buf[end + |data| + 3..];
    WriteAt(area, end, code, data);
    used := |data| + 2;
  }

  // ---------- What an area says ----------

  datatype Opt = Opt(code: Byte, data: seq<Byte>)

  predicate Writable(o: Opt) { o.code != PAD && o.code != END && |o.data| < 256 }

  predicate AllWritable(os: seq<Opt>) { forall o :: o in os ==> Writable(o) }

  function Encode(os: seq<Opt>): seq<Byte>
    requires AllWritable(os)
  {
    if os == [] then []
    else
      var o := os[0];
      assert o in os && forall x :: x in os[1..] ==> x in os;
      [o.code, |o.data|] + o.data + Encode(os[1..])
  }

  /** From offset `i`, the area holds exactly these options and then the end mark. */
  predicate Says(buf: seq<Byte>, i: nat, os: seq<Opt>)
    requires |buf| == AREA_SIZE
    decreases |os|
  {
    if os == [] then i + 1 < AREA_SIZE && buf[i] == END
    else
      var o := os[0];
      Writable(o) && i + 2 + |o.data| < AREA_SIZE
      && buf[i] == o.code && buf[i + 1] == |o.data| && buf[i + 2..i + 2 + |o.data|] == o.data
      && Says(buf, i + 2 + |o.data|, os[1..])
  }

  function Size(os: seq<Opt>): nat {
    if os == [] then 0 else 2 + |os[0].data| + Size(os[1..])
  }

  lemma {:induction false} SaysEnd(buf: seq<Byte>, i: nat, os: seq<Opt>)
    requires |buf| == AREA_SIZE && Says(buf, i, os)
    ensures Terminated(buf, i) && EndMark(buf, i) == i + Size(os)
    decreases |os|
  {
    if os != [] {
      SaysEnd(buf, i + 2 + |os[0].data|, os[1..]);
    }
  }

  lemma {:induction false} SaysAppend(buf: seq<Byte>, buf': seq<Byte>, i: nat, os: seq<Opt>, o: Opt)
    requires |buf| == |buf'| == AREA_SIZE && Says(buf, i, os) && Writable(o)
    requires var end := i + Size(os);
             Fits(end, |o.data|) && buf'[..end] == buf[..end] && Says(buf', end, [o])
    ensures Says(buf', i, os + [o])
    decreases |os|
  {
    hide Says, Terminated, EndMark, Writable;
    if os == [] {
      assert os + [o] == [o];
    } else {
      var j := i + 2 + |os[0].data|;
      SaysFirst(buf, i, os);
      SaysAppend(buf, buf', j, os[1..], o);
      assert (os + [o])[1..] == os[1..] + [o] && (os + [o])[0] == os[0];
      SamePrefix(buf, buf', i + Size(os), i, j);
      SaysFirst(buf', i, os + [o]);
    }
  }

  // What an area says, taken apart at the first option.
  lemma SaysFirst(buf: seq<Byte>, i: nat, os: seq<Opt>)
    requires |buf| == AREA_SIZE && os != []
    ensures Says(buf, i, os) <==>
            var j := i + 2 + |os[0].data|;
            Writable(os[0]) && j < AREA_SIZE && buf[i] == os[0].code && buf[i + 1] == |os[0].data| && buf[i + 2..j] == os[0].data
            && Says(buf, j, os[1..])
  {
  }

  lemma SamePrefix(a: seq<Byte>, b: seq<Byte>, end: nat, i: nat, j: nat)
    requires i + 2 <= j <= end <= |a| == |b| && a[..end] == b[..end]
    ensures b[i] == a[i] && b[i + 1] == a[i + 1] && b[i + 2..j] == a[i + 2..j]
  {
    forall k | i <= k < j ensures b[k] == a[k] { assert b[k] == b[..end][k] == a[..end][k]; }
  }

  /** Adding an option to an area: the area then says one option more, or, exactly when the option
      and a new end mark do not fit before the last byte, it is left as it was. */
  lemma AddedSays(buf: seq<Byte>, os: seq<Opt>, o: Opt)
    requires |buf| == AREA_SIZE && Says(buf, 0, os) && Writable(o)
    ensures Terminated(buf, 0) && EndMark(buf, 0) == Size(os)
    ensures Size(os) + |o.data| + 3 < 308 ==> Says(Added(buf, o.code, o.data), 0, os + [o])
    ensures Size(os) + |o.data| + 3 >= 308 ==> Added(buf, o.code, o.data) == buf
  {
    hide Says, Terminated, EndMark;
    SaysEnd(buf, 0, os);
    if Fits(Size(os), |o.data|) {
      var b := Added(buf, o.code, o.data);
      AddedBytes(buf, Size(os), o.code, o.data);
      SaysOne(b, Size(os), o);
      SaysAppend(buf, b, 0, os, o);
    }
  }

  lemma AddedBytes(buf: seq<Byte>, end: nat, code: Byte, data: seq<Byte>)
    requires |buf| == AREA_SIZE && |data| < 256 && Fits(end, |data|)
    ensures var b := buf[..end] + [code, |data|] + data + [END] + buf[end + |data| + 3..];
            && |b| == AREA_SIZE && b[..end] == buf[..end] && b[end] == code && b[end + 1] == |data|
            && b[end + 2..end + 2 + |data|] == data && b[end + 2 + |data|] == END
  {
  }

  lemma SaysOne(b: seq<Byte>, end: nat, o: Opt)
    requires |b| == AREA_SIZE && Writable(o) && Fits(end, |o.data|)
    requires b[end] == o.code && b[end + 1] == |o.data| && b[end + 2..end + 2 + |o.data|] == o.data && b[end + 2 + |o.data|] == END
    ensures Says(b, end, [o])
  {
    assert [o][1..] == [];
    assert Says(b, end + 2 + |o.data|, []);
  }

  /** A sequence of add calls, applied to an area in turn, keeping those that fit. */
  function Accepted(os: seq<Opt>, calls: seq<Opt>): (r: seq<Opt>)
    ensures os <= r
    decreases |calls|
  {
    if calls == [] then os
    else Accepted(if Fits(Size(os), |calls[0].data|) then os + [calls[0]] else os, calls[1..])
  }

  function AddAll(buf: seq<Byte>, os: seq<Opt>, calls: seq<Opt>): (r: seq<Byte>)
    requires |buf| == AREA_SIZE && Says(buf, 0, os) && AllWritable(calls)
    ensures |r| == AREA_SIZE && Says(r, 0, Accepted(os, calls))
    decreases |calls|
  {
    if calls == [] then buf
    else
      var o := calls[0];
      assert o in calls && forall x :: x in calls[1..] ==> x in calls;
      AddedSays(buf, os, o);
      AddAll(Added(buf, o.code, o.data), if Fits(Size(os), |o.data|) then os + [o] else os, calls[1..])
  }

  // ---------- Parser ----------

  datatype Field = OptionField | FileField | SnameField

  function Base(f: Field): nat {
    match f case OptionField => OPTIONS case FileField => FILE case SnameField => SNAME
  }

  function Length(f: Field): nat {
    match f case OptionField => AREA_SIZE case FileField => 128 case SnameField => 64
  }

  // Fields the parser may still move on to.
  function FieldsLeft(f: Field): nat {
    match f case OptionField => 2 case FileField => 1 case SnameField => 0
  }

  // Where one look at an option leads: to a result, or on to an offset of a field.
  datatype Look = Found(data: Option<seq<Byte>>) | Onward(f: Field, over: Byte, i: nat)

  /** One look, at offset `i` of field `f`; the overload option is followed exactly as it is coded, with
      its two wrong indices. */
  function LookAt(p: seq<Byte>, code: Byte, room: nat, f: Field, over: Byte, i: nat): (r: Look)
    requires |p| >= PACKET_SIZE + SLACK
    ensures r.Found? && r.data.Some? ==> |r.data.value| <= room
    ensures r.Onward? ==> FieldsLeft(r.f) < FieldsLeft(f) || (r.f == f && i < Length(f) && i < r.i)
  {
    var b := Base(f);
    if i >= Length(f) then Found(None)
    else if p[b + i] == code then
      var len := p[b + i + 1];
      if i + 1 + len >= Length(f) || len > room then Found(None) else Found(Some(p[b + i + 2..b + i + 2 + len]))
    else if p[b + i] == PAD then Onward(f, over, i + 1)
    else if p[b + i] == OVERLOAD then
      if i + 1 + p[b + i + 1] >= Length(f) then Found(None)
      else Onward(f, p[b + i + 3], i + p[b + 1] + 2)
    else if p[b + i] == END then
      if f.OptionField? && over % 2 == 1 then Onward(FileField, over, 0)
      else if f.FileField? && over / 2 % 2 == 1 then Onward(SnameField, over, 0)
      else Found(None)
    else Onward(f, over, i + p[b + i + 1] + 2)
  }

  /** The parser from offset `i` of field `f`: the data of the first option `code`, or None when it
      is absent, runs past its field, or is longer than `room`. `over` is the overload byte read so
      far. */
  function PickupFrom(p: seq<Byte>, code: Byte, room: nat, f: Field, over: Byte, i: nat): (r: Option<seq<Byte>>)
    requires |p| >= PACKET_SIZE + SLACK
    ensures r.Some? ==> |r.value| <= room
    decreases FieldsLeft(f), if i < Length(f) then Length(f) - i else 0
  {
    match LookAt(p, code, room, f, over, i)
    case Found(data) => data
    case Onward(f', over', i') => PickupFrom(p, code, room, f', over', i')
  }

  lemma PickupByLooking(p: seq<Byte>, code: Byte, room: nat, f: Field, over: Byte, i: nat)
    requires |p| >= PACKET_SIZE + SLACK
    ensures PickupFrom(p, code, room, f, over, i) ==
            match LookAt(p, code, room, f, over, i)
            case Found(data) => data
            case Onward(f', over', i') => PickupFrom(p, code, room, f', over', i')
  {
  }

  function Pickup(p: seq<Byte>, code: Byte, room: nat): Option<seq<Byte>>
    requires |p| >= PACKET_SIZE + SLACK
  {
    PickupFrom(p, code, room, OptionField, 0, 0)
  }

  /** The body of the parsing loop. */
  method LookOnce(p: array<Byte>, code: Byte, room: nat, curr: Field, over: Byte, i: nat) returns (r: Look)
    requires p.Length >= PACKET_SIZE + SLACK && i < Length(curr)
    ensures r == LookAt(p[..], code, room, curr, over, i)
  {
    var base, length := Base(curr), Length(curr);
    var opt, len := p[base + i], p[base + i + 1];
    if opt == code {
      if i + 1 + len >= length { return Found(None); }
      if len > room { return Found(None); }
      return Found(Some(p[base + i + 2..base + i + 2 + len]));
    }
    if opt == PAD {
      r := Onward(curr, over, i + 1);
    } else if opt == OVERLOAD {
      if i + 1 + len >= length { return Found(None); }
      r := Onward(curr, p[base + i + 3], i + p[base + 1] + 2);
    } else if opt == END {
      if curr == OptionField && over % 2 == 1 {
        r := Onward(FileField, over, 0);
      } else if curr == FileField && over / 2 % 2 == 1 {
        r := Onward(SnameField, over, 0);
      } else {
        r := Found(None);
      }
    } else {
      r := Onward(curr, over, i + len + 2);
    }
  }

  /** The parsing loop; it ends on every byte sequence. */
  method PickupOption(p: array<Byte>, code: Byte, room: nat) returns (r: Option<seq<Byte>>)
    requires p.Length >= PACKET_SIZE + SLACK
    ensures r == Pickup(p[..], code, room)
  {
    hide PickupFrom, LookAt;
    var curr, over: Byte, i: nat := OptionField, 0, 0;
    PickupByLooking(p[..], code, room, curr, over, i);
    while i < Length(curr)
      invariant Pickup(p[..], code, room) == PickupFrom(p[..], code, room, curr, over, i)
      decreases FieldsLeft(curr), if i < Length(curr) then Length(curr) - i else 0
    {
      PickupByLooking(p[..], code, room, curr, over, i);
      var look := LookOnce(p, code, room, curr, over, i);
      match look
      case Found(data) => return data;
      case Onward(f, o, k) => curr, over, i := f, o, k;
    }
    PastTheField(p[..], code, room, curr, over, i);
    return None;
  }

  lemma PastTheField(p: seq<Byte>, code: Byte, room: nat, f: Field, over: Byte, i: nat)
    requires |p| >= PACKET_SIZE + SLACK && i >= Length(f)
    ensures PickupFrom(p, code, room, f, over, i) == None
  {
  }

  // ---------- Round trip ----------

  /** The data of the first option with this code. */
  function Lookup(os: seq<Opt>, code: Byte): Option<seq<Byte>> {
    if os == [] then None else if os[0].code == code then Some(os[0].data) else Lookup(os[1..], code)
  }

  lemma SubRange(p: seq<Byte>, lo: nat, hi: nat, i: nat, j: nat)
    requires lo <= hi <= |p| && i <= j <= hi - lo
    ensures p[lo..hi][i..j] == p[lo + i..lo + j]
  {
    assert forall k :: 0 <= k < j - i ==> p[lo..hi][i..j][k] == p[lo + i..lo + j][k];
  }

  // Where each field starts in the packet, and how long it is.
  predicate Placed(f: Field, base: nat, length: nat) {
    (f.OptionField? && base == 240 && length == 308) || (f.FileField? && base == 108 && length == 128)
    || (f.SnameField? && base == 44 && length == 64)
  }

  /** An end mark leads from the options to the file field and from there to the server name, if the lowest
      and the second bit of the overload byte say so; otherwise nothing is found. */
  lemma EndRead(p: seq<Byte>, code: Byte, room: nat, f: Field, base: nat, length: nat, over: Byte, i: nat)
    requires |p| >= PACKET_SIZE + SLACK && code != 255 && Placed(f, base, length) && i < length && p[base + i] == 255
    ensures PickupFrom(p, code, room, f, over, i) ==
            if f.OptionField? && over % 2 == 1 then PickupFrom(p, code, room, FileField, over, 0)
            else if f.FileField? && over % 4 >= 2 then PickupFrom(p, code, room, SnameField, over, 0)
            else None
  {
    hide PickupFrom;
    PickupByLooking(p, code, room, f, over, i);
  }

  /** An option that ends inside its field is found, or stepped over. */
  lemma OptionRead(p: seq<Byte>, code: Byte, room: nat, f: Field, base: nat, length: nat, over: Byte, i: nat, o: Opt)
    requires |p| >= PACKET_SIZE + SLACK && Writable(o) && o.code != 52 && Placed(f, base, length) && i + 2 + |o.data| <= length
    requires p[base + i] == o.code && p[base + i + 1] == |o.data| && p[base + i + 2..base + i + 2 + |o.data|] == o.data
    ensures PickupFrom(p, code, room, f, over, i) ==
            if o.code == code then if |o.data| > room then None else Some(o.data)
            else PickupFrom(p, code, room, f, over, i + 2 + |o.data|)
  {
    hide PickupFrom;
    PickupByLooking(p, code, room, f, over, i);
  }

  lemma SaidOption(p: seq<Byte>, i: nat, os: seq<Opt>)
    requires |p| >= PACKET_SIZE + SLACK && Says(p[OPTIONS..PACKET_SIZE], i, os)
    ensures if os == [] then i < AREA_SIZE && p[OPTIONS + i] == END
            else
              var o := os[0];
              && Writable(o) && i + 2 + |o.data| <= AREA_SIZE && p[OPTIONS + i] == o.code && p[OPTIONS + i + 1] == |o.data|
              && p[OPTIONS + i + 2..OPTIONS + i + 2 + |o.data|] == o.data
              && Says(p[OPTIONS..PACKET_SIZE], i + 2 + |o.data|, os[1..])
  {
    if os != [] { SubRange(p, OPTIONS, PACKET_SIZE, i + 2, i + 2 + |os[0].data|); }
  }

  // Reading an area that says some options: the first one of the code, else on to the file field or not.
  lemma {:induction false} ReadsOn(p: seq<Byte>, code: Byte, room: nat, over: Byte, i: nat, os: seq<Opt>)
    requires |p| >= PACKET_SIZE + SLACK && code != END
    requires Says(p[OPTIONS..PACKET_SIZE], i, os) && (forall o :: o in os ==> o.code != OVERLOAD)
    ensures PickupFrom(p, code, room, OptionField, over, i) ==
            match Lookup(os, code)
            case Some(d) => if |d| > room then None else Some(d)
            case None => if over % 2 == 1 then PickupFrom(p, code, room, FileField, over, 0) else None
    decreases |os|
  {
    hide Says, PickupFrom, Writable;
    SaidOption(p, i, os);
    if os == [] {
      EndRead(p, code, room, OptionField, 240, 308, over, i);
    } else {
      assert os[0] in os && forall x :: x in os[1..] ==> x in os;
      OptionRead(p, code, room, OptionField, 240, 308, over, i, os[0]);
      if os[0].code != code { ReadsOn(p, code, room, over, i + 2 + |os[0].data|, os[1..]); }
    }
  }

  lemma PickupReadsBack(p: seq<Byte>, code: Byte, room: nat, i: nat, os: seq<Opt>)
    requires |p| >= PACKET_SIZE + SLACK && code != END
    requires Says(p[OPTIONS..PACKET_SIZE], i, os) && (forall o :: o in os ==> o.code != OVERLOAD)
    ensures var d := Lookup(os, code);
            PickupFrom(p, code, room, OptionField, 0, i) == if d.Some? && |d.value| > room then None else d
  {
    hide PickupFrom;
    ReadsOn(p, code, room, 0, i, os);
  }

  /** An overload option that comes first, with one byte of any value, is never obeyed: whether a code that
      the options do not hold is looked for in the file field depends on the code of the option behind it,
      or on the end mark, being odd. */
  lemma OverloadMisread(p: seq<Byte>, code: Byte, room: nat, os: seq<Opt>)
    requires |p| >= PACKET_SIZE + SLACK && code != 255 && code != 52
    requires p[240] == 52 && p[241] == 1 && Says(p[OPTIONS..PACKET_SIZE], 3, os) && forall o :: o in os ==> o.code != OVERLOAD
    ensures var next: Byte := if os == [] then 255 else os[0].code;
            Pickup(p, code, room) ==
            match Lookup(os, code)
            case Some(d) => if |d| > room then None else Some(d)
            case None => if next % 2 == 1 then PickupFrom(p, code, room, FileField, next, 0) else None
  {
    hide PickupFrom, Says;
    PickupByLooking(p, code, room, OptionField, 0, 0);
    SaidOption(p, 3, os);
    ReadsOn(p, code, room, p[243], 3, os);
  }

  predicate DistinctCodes(os: seq<Opt>) {
    forall i, j :: 0 <= i < j < |os| ==> os[i].code != os[j].code
  }

  lemma {:induction false} LookupDistinct(os: seq<Opt>, k: nat)
    requires DistinctCodes(os) && k < |os|
    ensures Lookup(os, os[k].code) == Some(os[k].data)
  {
    if k > 0 { LookupDistinct(os[1..], k - 1); }
  }

  lemma {:induction false} LookupAbsent(os: seq<Opt>, code: Byte)
    ensures Lookup(os, code) == None <==> forall o :: o in os ==> o.code != code
  {
    if os != [] {
      LookupAbsent(os[1..], code);
      assert os == [os[0]] + os[1..];
    }
  }

  /** Section 2 of RFC 2132 as a round trip: after any sequence of add calls with codes other than pad,
      end and overload on an empty area, the parser returns for every code exactly the bytes of the first
      accepted call with that code, and nothing for a code that was not added. */
  lemma OptionsRoundTrip(p: seq<Byte>, empty: seq<Byte>, calls: seq<Opt>, code: Byte)
    requires |p| >= PACKET_SIZE + SLACK && |empty| == AREA_SIZE && empty[0] == END
    requires AllWritable(calls) && forall o :: o in calls ==> o.code != OVERLOAD
    requires p[OPTIONS..PACKET_SIZE] == AddAll(empty, [], calls) && code != END
    ensures Pickup(p, code, 255) == Lookup(Accepted([], calls), code)
  {
    hide PickupFrom, AddAll;
    var os := Accepted([], calls);
    AcceptedAreCalls([], calls);
    PickupReadsBack(p, code, 255, 0, os);
    LookupShort(os, code);
  }

  lemma {:induction false} LookupShort(os: seq<Opt>, code: Byte)
    requires AllWritable(os)
    ensures Lookup(os, code) != None ==> |Lookup(os, code).value| < 256
  {
    if os != [] {
      assert os[0] in os && forall o :: o in os[1..] ==> o in os;
      LookupShort(os[1..], code);
    }
  }

  /** With distinct codes, that is every accepted call; other codes are absent. */
  lemma DistinctRoundTrip(p: seq<Byte>, empty: seq<Byte>, calls: seq<Opt>)
    requires |p| >= PACKET_SIZE + SLACK && |empty| == AREA_SIZE && empty[0] == END
    requires AllWritable(calls) && forall o :: o in calls ==> o.code != OVERLOAD
    requires p[OPTIONS..PACKET_SIZE] == AddAll(empty, [], calls)
    requires DistinctCodes(Accepted([], calls))
    ensures forall o :: o in Accepted([], calls) ==> Pickup(p, o.code, 255) == Some(o.data)
    ensures forall c: Byte :: c != END && (forall o :: o in Accepted([], calls) ==> o.code != c) ==> Pickup(p, c, 255) == None
  {
    hide Pickup, AddAll;
    var os := Accepted([], calls);
    AcceptedAreCalls([], calls);
    forall o | o in os ensures Pickup(p, o.code, 255) == Some(o.data) {
      var k :| 0 <= k < |os| && os[k] == o;
      OptionsRoundTrip(p, empty, calls, o.code);
      LookupDistinct(os, k);
    }
    forall c: Byte | c != END && (forall o :: o in os ==> o.code != c) ensures Pickup(p, c, 255) == None {
      OptionsRoundTrip(p, empty, calls, c);
      LookupAbsent(os, c);
    }
  }

  lemma {:induction false} AcceptedAreCalls(os: seq<Opt>, calls: seq<Opt>)
    ensures forall o :: o in Accepted(os, calls) ==> o in os || o in calls
    decreases |calls|
  {
    if calls != [] {
      var next := if Fits(Size(os), |calls[0].data|) then os + [calls[0]] else os;
      AcceptedAreCalls(next, calls[1..]);
      assert calls[0] in calls && forall o :: o in calls[1..] ==> o in calls;
    }
  }
}
