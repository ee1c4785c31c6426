/** The event loop object of src/wifi_manager/wifi_eloop.c: its timer list and its table of event
    handlers, updated in place. The timer methods are proved against module TimerRuns. */
module EventLoop {
  import opened TimerQueue
  import opened TimerRuns

  datatype Handler = Handler(event: nat, callback: nat, data: nat, user: nat)

  const EVENT_WAKEUP := 1
  const EVENT_TERMINATE := 2

  // The low twelve bits of an event identifier are the event, the next four the interface.
  function EventOf(id: nat): nat { id % 0x1000 }

  /** The handlers called for an event, in the order in which they were registered. */
  function HandlersFor(hs: seq<Handler>, event: nat): seq<Handler> {
    if hs == [] then []
    else if hs[0].event == event then [hs[0]] + HandlersFor(hs[1..], event)
    else HandlersFor(hs[1..], event)
  }

  lemma {:induction false} HandlersForConcat(a: seq<Handler>, b: seq<Handler>, event: nat)
    ensures HandlersFor(a + b, event) == HandlersFor(a, event) + HandlersFor(b, event)
  {
    if a == [] {
      assert a + b == b && HandlersFor(a, event) + HandlersFor(b, event) == HandlersFor(b, event);
    } else {
      HandlersForConcat(a[1..], b, event);
      assert (a + b)[1..] == a[1..] + b;
    }
  }

  lemma {:induction false} NoHandlers(hs: seq<Handler>, event: nat)
    requires forall k :: 0 <= k < |hs| ==> hs[k].event != event
    ensures HandlersFor(hs, event) == []
  {
    if hs != [] { NoHandlers(hs[1..], event); }
  }

  lemma HandlersAround(hs: seq<Handler>, i: nat, event: nat)
    requires i < |hs|
    ensures HandlersFor(hs, event) == HandlersFor(hs[..i], event) + HandlersFor([hs[i]], event) + HandlersFor(hs[i + 1..], event)
    ensures HandlersFor(hs[..i] + hs[i + 1..], event) == HandlersFor(hs[..i], event) + HandlersFor(hs[i + 1..], event)
  {
    HandlersForConcat(hs[..i], hs[i + 1..], event);
    HandlersForConcat(hs[..i], [hs[i]], event);
    HandlersForConcat(hs[..i] + [hs[i]], hs[i + 1..], event);
    assert hs == hs[..i] + [hs[i]] + hs[i + 1..];
  }

  /** Taking out the first entry for an event drops its oldest handler and no other event's. */
  lemma DropOldest(hs: seq<Handler>, i: nat, event: nat)
    requires i < |hs| && hs[i].event == event && forall k :: 0 <= k < i ==> hs[k].event != event
    ensures HandlersFor(hs, event) == [hs[i]] + HandlersFor(hs[..i] + hs[i + 1..], event)
    ensures forall e: nat :: e != event ==> HandlersFor(hs[..i] + hs[i + 1..], e) == HandlersFor(hs, e)
  {
    NoHandlers(hs[..i], event);
    HandlersAround(hs, i, event);
    forall e: nat | e != event ensures HandlersFor(hs[..i] + hs[i + 1..], e) == HandlersFor(hs, e) {
      HandlersAround(hs, i, e);
      NoHandlers([hs[i]], e);
    }
  }

  // One entry of a sweep: skipped or unlinked, what remains to be kept is the same.
  lemma SweepStep(q: seq<Timer>, i: nat, handler: nat, data: nat, user: nat)
    requires i < |q|
    ensures Matches(q[i], handler, data, user) ==> Without(q[i..], handler, data, user) == Without(q[i + 1..], handler, data, user)
    ensures !Matches(q[i], handler, data, user) ==>
              q[..i + 1] + Without(q[i + 1..], handler, data, user) == q[..i] + Without(q[i..], handler, data, user)
  {
    assert q[i..][0] == q[i] && q[i..][1..] == q[i + 1..];
    assert q[..i + 1] == q[..i] + [q[i]];
  }

  lemma SumWraps(now: nat, ms: nat)
    ensures (now % 0x1_0000_0000 + ms) % 0x1_0000_0000 == (now + ms) % 0x1_0000_0000
  {
  }

  class Eloop {
    var timeouts: seq<Timer>
    var events: seq<Handler>
    var terminate: bool
    // Number of timeouts registered so far, and the history that TimerRuns speaks about.
    var count: nat
    ghost var registered: seq<Timer>
    ghost var fired: seq<Timer>
    ghost var firedAt: seq<nat>
    ghost var cancelled: seq<Timer>

    ghost predicate Valid() reads this { count == |registered| }

    ghost function View(now: nat): Loop reads this {
      Loop(timeouts, now, registered, fired, firedAt, cancelled, terminate)
    }

    constructor ()
      ensures Valid() && View(0) == START && events == []
    {
      timeouts, events, terminate, count := [], [], false, 0;
      registered, fired, firedAt, cancelled := [], [], [], [];
    }

    /** Walks the list to the first entry that expires later and links the new one before it. */
    method Link(t: Timer)
      modifies this`timeouts
      ensures timeouts == Insert(old(timeouts), t)
    {
      var i := 0;
      while i < |timeouts|
        invariant 0 <= i <= |timeouts| && timeouts == old(timeouts)
        invariant Position(timeouts, t.time) == Position(timeouts, t.time, i)
      {
        if t.time < timeouts[i].time { break; }
        i := i + 1;
      }
      timeouts := timeouts[..i] + [t] + timeouts[i..];
    }

    /** Registers a timeout; `room` says whether the allocator has memory for it. */
    method TimeoutRegister(now: nat, ms: nat, handler: nat, data: nat, user: nat, room: bool) returns (res: int)
      requires Valid()
      modifies this
      ensures Valid() && events == old(events)
      ensures View(now) == if room then Apply(old(View(now)), Register(ms, handler, data, user)) else old(View(now))
      ensures res == if old(terminate) || !room then -1 else 0
      ensures old(terminate) || !room ==> timeouts == old(timeouts)
      ensures !old(terminate) && room ==>
                && |timeouts| == |old(timeouts)| + 1
                && forall t :: t in timeouts <==>
                     t in old(timeouts) || t == Timer((now + ms) % 0x1_0000_0000, handler, data, user, now + ms, old(count))
    {
      if terminate { return -1; }
      if !room { return -1; }
      var time := (now % WRAP + ms) % WRAP;
      var t := Timer(time, handler, data, user, now + ms, count);
      assert t == NewTimer(View(now), Register(ms, handler, data, user));
      SumWraps(now, ms);
      InsertMembers(timeouts, t);
      Link(t);
      count := count + 1;
      registered := registered + [t];
      res := 0;
    }

    method Sweep(handler: nat, data: nat, user: nat) returns (removed: nat)
      modifies this`timeouts
      ensures timeouts == Without(old(timeouts), handler, data, user)
      ensures removed == |old(timeouts)| - |timeouts|
    {
      removed := 0;
      var i := 0;
      ghost var want := Without(timeouts, handler, data, user);
      assert timeouts[..0] + want == want && timeouts[0..] == timeouts;
      while i < |timeouts|
        invariant 0 <= i <= |timeouts| && removed == |old(timeouts)| - |timeouts|
        invariant timeouts[..i] + Without(timeouts[i..], handler, data, user) == want
        decreases |timeouts| - i
      {
        SweepStep(timeouts, i, handler, data, user);
        if timeouts[i].handler == handler && (timeouts[i].data == data || data == ALL_CTX)
           && (timeouts[i].user == user || user == ALL_CTX) {
          ghost var keep, rest := timeouts[..i], timeouts[i + 1..];
          timeouts := timeouts[..i] + timeouts[i + 1..];
          assert timeouts[..i] == keep && timeouts[i..] == rest;
          removed := removed + 1;
        } else {
          i := i + 1;
        }
      }
      assert timeouts[..i] == timeouts && timeouts[i..] == [];
    }

    /** Unlinks every matching entry in one pass and returns how many there were. */
    method TimeoutCancel(now: nat, handler: nat, data: nat, user: nat) returns (removed: int)
      requires Valid()
      modifies this
      ensures Valid() && events == old(events)
      ensures View(now) == Apply(old(View(now)), Cancel(handler, data, user))
      ensures removed == if old(terminate) then -1 else |old(timeouts)| - |timeouts|
      ensures old(terminate) ==> timeouts == old(timeouts)
      ensures !old(terminate) ==>
                forall t :: t in timeouts <==>
                  t in old(timeouts)
                  && !(t.handler == handler && (t.data == data || data == 0xFFFF_FFFF) && (t.user == user || user == 0xFFFF_FFFF))
    {
      if terminate { return -1; }
      WithoutMembers(timeouts, handler, data, user);
      cancelled := cancelled + Removed(timeouts, handler, data, user);
      removed := Sweep(handler, data, user);
    }

    method TimeoutIsRegistered(handler: nat, data: nat, user: nat) returns (found: bool)
      ensures found == IsRegistered(timeouts, handler, data, user)
      ensures found <==> exists t :: t in timeouts && t.handler == handler && t.data == data && t.user == user
    {
      var i := 0;
      while i < |timeouts|
        invariant 0 <= i <= |timeouts|
        invariant forall k :: 0 <= k < i ==> !(timeouts[k].handler == handler && timeouts[k].data == data && timeouts[k].user == user)
      {
        if timeouts[i].handler == handler && timeouts[i].data == data && timeouts[i].user == user { return true; }
        i := i + 1;
      }
      return false;
    }

    /** Unlinks the head timer when it is due; the caller then runs its handler. */
    method TimeoutHandle(now: nat) returns (due: seq<Timer>)
      requires Valid()
      modifies this
      ensures Valid() && events == old(events)
      ensures View(now) == Apply(old(View(now)), Handle)
      ensures due == if View(now) == old(View(now)) then [] else [old(timeouts)[0]]
    {
      due := [];
      if timeouts != [] && TimeAfterEq(now % WRAP, timeouts[0].time) {
        due := [timeouts[0]];
        fired, firedAt := fired + [timeouts[0]], firedAt + [now];
        timeouts := timeouts[1..];
      }
    }

    /** The part of one loop iteration that decides how long to wait. */
    method NextWait(now: nat) returns (w: Wait)
      ensures w == LoopWait(timeouts, now % WRAP)
      ensures w == BlockForever <==> timeouts == []
    {
      var remain := 0;
      if timeouts != [] && TimeBefore(now % WRAP, timeouts[0].time) {
        remain := (timeouts[0].time - now % WRAP) % WRAP;
      }
      if timeouts != [] && remain == 0 {
        w := Yield;
      } else {
        w := if timeouts != [] then Block(remain) else BlockForever;
      }
    }

    /** Adds a handler behind the others; `room` says whether the table can be reallocated. */
    method EventRegister(event: nat, callback: nat, data: nat, user: nat, room: bool) returns (res: int)
      modifies this`events
      ensures terminate || !room ==> res == -1 && events == old(events)
      ensures !terminate && room ==> res == 0
      ensures !terminate && room ==>
                forall e: nat :: HandlersFor(events, e) ==
                  HandlersFor(old(events), e) + (if e == event then [Handler(event, callback, data, user)] else [])
    {
      if terminate { return -1; }
      if !room { return -1; }
      var h := Handler(event, callback, data, user);
      forall e: nat ensures HandlersFor(events + [h], e) == HandlersFor(events, e) + if e == event then [h] else [] {
        HandlersForConcat(events, [h], e);
      }
      events := events + [h];
      res := 0;
    }

    /** Removes the oldest handler of the event, if it has any. */
    method EventUnregister(event: nat)
      modifies this`events
      ensures terminate ==> events == old(events)
      ensures !terminate ==> var hs := HandlersFor(old(events), event); HandlersFor(events, event) == if hs == [] then [] else hs[1..]
      ensures forall e: nat :: e != event ==> HandlersFor(events, e) == HandlersFor(old(events), e)
    {
      if terminate || events == [] { return; }
      var i := 0;
      while i < |events| && events[i].event != event
        invariant 0 <= i <= |events| && forall k :: 0 <= k < i ==> events[k].event != event
      {
        i := i + 1;
      }
      if i == |events| {
        NoHandlers(events, event);
        return;
      }
      DropOldest(events, i, event);
      events := events[..i] + events[i + 1..];
    }

    /** Dispatch of one message: the state machine sees it first (`toMachine`), then every handler
        registered for exactly this identifier, in order; wake-ups do nothing and a termination
        message only stops the loop. */
    method EventDispatch(id: nat) returns (toMachine: bool, called: seq<Handler>)
      modifies this`terminate
      ensures toMachine <==> id % 0x1000 != 1 && id % 0x1000 != 2
      ensures called == if toMachine then HandlersFor(events, id) else []
      ensures terminate <==> old(terminate) || id % 0x1000 == 2
    {
      toMachine, called := false, [];
      if EventOf(id) == EVENT_WAKEUP { return; }
      if EventOf(id) == EVENT_TERMINATE {
        terminate := true;
        return;
      }
      toMachine := true;
      var i := 0;
      while i < |events|
        invariant 0 <= i <= |events| && terminate == old(terminate)
        invariant called + HandlersFor(events[i..], id) == HandlersFor(events, id)
      {
        assert events[i..][0] == events[i] && events[i..][1..] == events[i + 1..];
        if events[i].event == id { called := called + [events[i]]; }
        i := i + 1;
      }
    }
  }
}
