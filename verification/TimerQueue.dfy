/** The timer list of the event loop (src/wifi_manager/wifi_eloop.c): a list kept in order of 32-bit
    expiry times, which refines a queue ordered by (deadline, registration number) on a clock that
    never wraps. */
module TimerQueue {

  const WRAP: int := 0x1_0000_0000
  type Tick = t: nat | t < WRAP

  // Context value that matches every context in a cancellation.
  const ALL_CTX: nat := 0xFFFF_FFFF

  /** A registered timeout. `time` is what the program stores; `due` (the deadline on the unwrapped
      clock) and `id` (the registration number) are bookkeeping that no operation looks at. */
  datatype Timer = Timer(time: Tick, handler: nat, data: nat, user: nat, due: nat, id: nat)

  // ---------- 32-bit time ----------

  // The value of a 32-bit word read as a signed integer.
  function Signed(x: int): int {
    var m := x % WRAP;
    if m >= WRAP / 2 then m - WRAP else m
  }

  predicate TimeAfterEq(a: Tick, b: Tick) { Signed(a - b) >= 0 }

  predicate TimeBefore(a: Tick, b: Tick) { Signed(a - b) < 0 }

  lemma ModShift(x: int, y: int)
    ensures (x % WRAP - y % WRAP) % WRAP == (x - y) % WRAP
  {
    assert x - y == (x / WRAP - y / WRAP) * WRAP + (x % WRAP - y % WRAP);
    ModAdd(x % WRAP - y % WRAP, x / WRAP - y / WRAP);
  }

  lemma {:induction false} ModAdd(d: int, k: int)
    ensures (k * WRAP + d) % WRAP == d % WRAP
    decreases if k < 0 then -k else k
  {
    if k > 0 { ModAdd(d, k - 1); } else if k < 0 { ModAdd(d, k + 1); }
  }

  predicate Near(x: nat, y: nat) { -(WRAP / 2) <= x - y < WRAP / 2 }

  /** The wrapped comparison is right when the deadline is at most 2^31 ms ahead of the clock and less than
      2^31 ms behind it. */
  lemma TimeAfterEqIff(now: nat, due: nat)
    requires Near(now, due)
    ensures TimeAfterEq(now % WRAP, due % WRAP) <==> now >= due
  {
    ModShift(now, due);
  }

  /** For clock and deadline less than one period apart that condition is exact: a deadline more than
      2^31 ms ahead counts as passed, and one 2^31 ms or more behind as still to come. */
  lemma ComparisonRightIff(now: nat, due: nat)
    requires -WRAP < now - due < WRAP
    ensures (TimeAfterEq(now % WRAP, due % WRAP) <==> now >= due) <==> Near(now, due)
  {
    ModShift(now, due);
  }

  // ---------- List operations ----------

  /** First position at or after `i` whose entry expires strictly later, comparing raw 32-bit times. */
  function Position(q: seq<Timer>, time: Tick, i: nat := 0): (r: nat)
    requires i <= |q|
    ensures i <= r <= |q|
    ensures r < |q| ==> time < q[r].time
    ensures forall k :: i <= k < r ==> q[k].time <= time
    decreases |q| - i
  {
    if i == |q| || time < q[i].time then i else Position(q, time, i + 1)
  }

  function Insert(q: seq<Timer>, t: Timer): seq<Timer> {
    q[..Position(q, t.time)] + [t] + q[Position(q, t.time)..]
  }

  lemma InsertMembers(q: seq<Timer>, t: Timer)
    ensures forall x :: x in Insert(q, t) <==> x in q || x == t
  {
    assert q == q[..Position(q, t.time)] + q[Position(q, t.time)..];
  }

  predicate Matches(t: Timer, handler: nat, data: nat, user: nat) {
    t.handler == handler && (t.data == data || data == ALL_CTX) && (t.user == user || user == ALL_CTX)
  }

  function Without(q: seq<Timer>, handler: nat, data: nat, user: nat): seq<Timer> {
    if q == [] then []
    else if Matches(q[0], handler, data, user) then Without(q[1..], handler, data, user)
    else [q[0]] + Without(q[1..], handler, data, user)
  }

  /** A cancellation keeps exactly the entries it does not match. */
  lemma {:induction false} WithoutMembers(q: seq<Timer>, handler: nat, data: nat, user: nat)
    ensures forall t :: t in Without(q, handler, data, user) <==> t in q && !Matches(t, handler, data, user)
  {
    if q != [] {
      WithoutMembers(q[1..], handler, data, user);
      assert q == [q[0]] + q[1..];
    }
  }

  predicate IsRegistered(q: seq<Timer>, handler: nat, data: nat, user: nat) {
    exists k :: 0 <= k < |q| && q[k].handler == handler && q[k].data == data && q[k].user == user
  }

  function Count(q: seq<Timer>, handler: nat): nat {
    if q == [] then 0 else (if q[0].handler == handler then 1 else 0) + Count(q[1..], handler)
  }

  lemma {:induction false} CountConcat(q: seq<Timer>, r: seq<Timer>, handler: nat)
    ensures Count(q + r, handler) == Count(q, handler) + Count(r, handler)
  {
    if q == [] {
      assert q + r == r;
    } else {
      CountConcat(q[1..], r, handler);
      assert (q + r)[1..] == q[1..] + r;
    }
  }

  lemma CountInsert(q: seq<Timer>, t: Timer, handler: nat)
    ensures Count(Insert(q, t), handler) == Count(q, handler) + if t.handler == handler then 1 else 0
  {
    var p := Position(q, t.time);
    assert q == q[..p] + q[p..];
    CountConcat(q[..p], q[p..], handler);
    CountConcat(q[..p], [t], handler);
    CountConcat(q[..p] + [t], q[p..], handler);
  }

  lemma {:induction false} CountWithout(q: seq<Timer>, handler: nat, other: nat)
    ensures Count(Without(q, handler, ALL_CTX, ALL_CTX), other) == if other == handler then 0 else Count(q, other)
  {
    if q != [] {
      CountWithout(q[1..], handler, other);
      var rest := Without(q[1..], handler, ALL_CTX, ALL_CTX);
      assert q[0].handler != handler ==> ([q[0]] + rest)[1..] == rest;
    }
  }

  lemma {:induction false} CountZero(q: seq<Timer>, handler: nat)
    ensures Count(q, handler) == 0 <==> forall t :: t in q ==> t.handler != handler
  {
    if q != [] {
      CountZero(q[1..], handler);
      assert q == [q[0]] + q[1..];
    }
  }

  // ---------- When the list is the abstract queue ----------

  predicate Before(a: Timer, b: Timer) { a.due < b.due || (a.due == b.due && a.id < b.id) }

  predicate Ordered(q: seq<Timer>) { forall i, j :: 0 <= i < j < |q| ==> Before(q[i], q[j]) }

  predicate WellTimed(q: seq<Timer>) { forall t :: t in q ==> t.time == t.due % WRAP }

  function Epoch(due: nat): nat { due / WRAP }

  /** Live deadlines less than one clock period away from the new one. */
  predicate InWindow(q: seq<Timer>, due: nat) { forall t :: t in q ==> -WRAP < t.due - due < WRAP }

  /** What a caller can check before registering: nothing pending belongs to an earlier period of the
      32-bit clock, and if something belongs to a later one, then something of the new timer's own
      period is due after it. */
  predicate WrapSafe(q: seq<Timer>, due: nat) {
    && (forall t :: t in q ==> Epoch(t.due) >= Epoch(due))
    && ((forall t :: t in q ==> Epoch(t.due) == Epoch(due)) || exists t :: t in q && Epoch(t.due) == Epoch(due) && due < t.due)
  }

  // How raw times compare, by period.
  lemma RawOrder(a: nat, b: nat)
    requires -WRAP < b - a < WRAP
    ensures Epoch(a) == Epoch(b) ==> (a % WRAP < b % WRAP <==> a < b)
    ensures Epoch(a) < Epoch(b) ==> b % WRAP < a % WRAP && a < b
    ensures Epoch(a) > Epoch(b) ==> a % WRAP < b % WRAP && b < a
  {
    assert a == Epoch(a) * WRAP + a % WRAP && b == Epoch(b) * WRAP + b % WRAP;
  }

  // What every lemma about one insertion assumes: an ordered list of well-timed entries, all
  // registered before `t` and due within one clock period of it.
  predicate Insertable(q: seq<Timer>, t: Timer) {
    Ordered(q) && WellTimed(q) && t.time == t.due % WRAP && InWindow(q, t.due) && forall x :: x in q ==> x.id < t.id
  }

  lemma CompareAt(q: seq<Timer>, t: Timer, k: nat)
    requires Insertable(q, t) && k < |q|
    ensures q[k].id < t.id
    ensures Epoch(t.due) == Epoch(q[k].due) ==> (t.time < q[k].time <==> t.due < q[k].due)
    ensures Epoch(t.due) < Epoch(q[k].due) ==> q[k].time < t.time && t.due < q[k].due
    ensures Epoch(t.due) > Epoch(q[k].due) ==> t.time < q[k].time && q[k].due < t.due
  {
    assert q[k] in q;
    RawOrder(t.due, q[k].due);
  }

  predicate FitsAt(q: seq<Timer>, t: Timer, p: nat)
    requires p <= |q|
  {
    (forall k :: 0 <= k < p ==> Before(q[k], t)) && (forall k :: p <= k < |q| ==> Before(t, q[k]))
  }

  lemma OrderedMiddle(q: seq<Timer>, t: Timer, p: nat, r: seq<Timer>)
    requires Ordered(q) && p <= |q| && |r| == |q| + 1
    requires forall k {:trigger r[k]} :: 0 <= k < |r| ==> r[k] == if k < p then q[k] else if k == p then t else q[k - 1]
    ensures Ordered(r) <==> FitsAt(q, t, p)
  {
    if FitsAt(q, t, p) {
      forall i, j | 0 <= i < j < |r| ensures Before(r[i], r[j]) {
        if i != p && j != p {
          assert Before(q[if i < p then i else i - 1], q[if j < p then j else j - 1]);
        }
      }
    } else if k :| 0 <= k < p && !Before(q[k], t) {
      assert !Before(r[k], r[p]);
    } else {
      var k :| p <= k < |q| && !Before(t, q[k]);
      assert !Before(r[p], r[k + 1]);
    }
  }

  lemma OrderedAround(q: seq<Timer>, t: Timer)
    requires Ordered(q)
    ensures Ordered(Insert(q, t)) <==> FitsAt(q, t, Position(q, t.time))
  {
    OrderedMiddle(q, t, Position(q, t.time), Insert(q, t));
  }

  lemma AheadFits(q: seq<Timer>, t: Timer, k: nat)
    requires Insertable(q, t) && WrapSafe(q, t.due) && k < Position(q, t.time)
    ensures Before(q[k], t)
  {
    hide Position;
    assert q[k] in q && q[k].time <= t.time;
    CompareAt(q, t, k);
    if Epoch(q[k].due) > Epoch(t.due) { LaterEpochIsBehind(q, t, k); }
  }

  lemma BehindFits(q: seq<Timer>, t: Timer, k: nat)
    requires Insertable(q, t) && WrapSafe(q, t.due) && Position(q, t.time) <= k < |q|
    ensures Before(t, q[k])
  {
    hide Position, Epoch;
    var p := Position(q, t.time);
    assert q[p] in q && q[k] in q && t.time < q[p].time;
    CompareAt(q, t, p);
    assert k == p || Before(q[p], q[k]);
  }

  lemma SafeInsertOrdered(q: seq<Timer>, t: Timer)
    requires Insertable(q, t) && WrapSafe(q, t.due)
    ensures Ordered(Insert(q, t))
  {
    hide Insertable, WrapSafe, Insert, Before;
    InsertableOrdered(q, t);
    OrderedAround(q, t);
    forall k | 0 <= k < Position(q, t.time) ensures Before(q[k], t) { AheadFits(q, t, k); }
    forall k | Position(q, t.time) <= k < |q| ensures Before(t, q[k]) { BehindFits(q, t, k); }
  }

  lemma InsertableOrdered(q: seq<Timer>, t: Timer)
    requires Insertable(q, t)
    ensures Ordered(q)
  {
  }

  lemma LaterEpochIsBehind(q: seq<Timer>, t: Timer, k: nat)
    requires Insertable(q, t) && WrapSafe(q, t.due) && k < |q| && Epoch(q[k].due) > Epoch(t.due)
    ensures Position(q, t.time) <= k
  {
    assert q[k] in q;
    var x :| x in q && Epoch(x.due) == Epoch(t.due) && t.due < x.due;
    var j :| 0 <= j < |q| && q[j] == x;
    CompareAt(q, t, j);
    CompareAt(q, t, k);
    assert Before(q[j], q[k]) ==> j < k;
  }

  lemma UnsafeInsertDisordered(q: seq<Timer>, t: Timer)
    requires Insertable(q, t) && !WrapSafe(q, t.due)
    ensures !Ordered(Insert(q, t))
  {
    var p := Position(q, t.time);
    OrderedAround(q, t);
    if x :| x in q && Epoch(x.due) < Epoch(t.due) {
      var k :| 0 <= k < |q| && q[k] == x;
      CompareAt(q, t, k);
      assert p <= k && !Before(t, q[k]);
    } else {
      var x :| x in q && Epoch(x.due) > Epoch(t.due);
      var k :| 0 <= k < |q| && q[k] == x;
      forall j | 0 <= j < |q| ensures q[j] in q && !(t.time < q[j].time) {
        CompareAt(q, t, j);
        assert q[j] in q;
      }
      CompareAt(q, t, k);
      assert p == |q| && !Before(q[k], t);
    }
  }

  /** Insertion by raw time keeps the list in order of (deadline, registration) if and only if the
      registration is wrap-safe. */
  lemma InsertOrderedIff(q: seq<Timer>, t: Timer)
    requires Insertable(q, t)
    ensures Ordered(Insert(q, t)) <==> WrapSafe(q, t.due)
  {
    if WrapSafe(q, t.due) { SafeInsertOrdered(q, t); } else { UnsafeInsertDisordered(q, t); }
  }

  /** Two timers around the wrap of the clock: the later deadline is put first. */
  lemma WrapMisorders()
    ensures var late := Timer(5, 0, 0, 0, WRAP + 5, 0);
            var early := Timer(WRAP - 1, 0, 0, 0, WRAP - 1, 1);
            Insert([late], early) == [late, early] && Before(early, late) && !WrapSafe([late], WRAP - 1)
  {
    var late := Timer(5, 0, 0, 0, WRAP + 5, 0);
    assert Position([late], WRAP - 1) == 1;
    assert late in [late] && Epoch(WRAP + 5) == 1 && Epoch(WRAP - 1) == 0;
  }

  // ---------- Waiting ----------

  datatype Wait = Yield | Block(ms: nat) | BlockForever

  /** What the loop does before looking at the timers again. */
  function LoopWait(q: seq<Timer>, now: Tick): Wait {
    if q == [] then BlockForever
    else if TimeBefore(now, q[0].time) then Block((q[0].time - now) % WRAP)
    else Yield
  }

  /** The loop never sleeps past a deadline, and never without bound while a timer is pending: it
      yields when the earliest timer is due and otherwise sleeps exactly until then. */
  lemma WaitIsExact(q: seq<Timer>, now: nat)
    requires q != [] && Ordered(q) && WellTimed(q) && Near(now, q[0].due)
    ensures LoopWait(q, now % WRAP) == if q[0].due <= now then Yield else Block(q[0].due - now)
    ensures LoopWait(q, now % WRAP).Block? ==> forall t :: t in q ==> now + LoopWait(q, now % WRAP).ms <= t.due
  {
    assert q[0] in q;
    ModShift(now, q[0].due);
    ModShift(q[0].due, now);
    TimeAfterEqIff(now, q[0].due);
  }
}
