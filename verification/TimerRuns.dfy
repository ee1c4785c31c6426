/** Whole runs of the event loop's timers: nothing is lost or fired twice, nothing fires early, and
    timers fire in order of deadline and registration as long as no registration straddles a wrap of
    the 32-bit clock. */
module TimerRuns {
  import opened TimerQueue

  /** The loop with its history. `now` is the clock without wrap; registered, fired and cancelled
      list timers in the order in which that happened to them. */
  datatype Loop = Loop(pending: seq<Timer>, now: nat, registered: seq<Timer>, fired: seq<Timer>,
                       firedAt: seq<nat>, cancelled: seq<Timer>, terminated: bool)

  datatype Op =
    | Register(ms: nat, handler: nat, data: nat, user: nat)
    | Cancel(handler: nat, data: nat, user: nat)
    | Handle
    | Advance(ms: nat)
    | Terminate

  const START := Loop([], 0, [], [], [], [], false)

  function Removed(q: seq<Timer>, handler: nat, data: nat, user: nat): seq<Timer> {
    if q == [] then []
    else if Matches(q[0], handler, data, user) then [q[0]] + Removed(q[1..], handler, data, user)
    else Removed(q[1..], handler, data, user)
  }

  /** A cancellation takes out exactly the entries it matches. */
  lemma {:induction false} RemovedMembers(q: seq<Timer>, handler: nat, data: nat, user: nat)
    ensures forall t :: t in Removed(q, handler, data, user) <==> t in q && Matches(t, handler, data, user)
    ensures |Removed(q, handler, data, user)| + |Without(q, handler, data, user)| == |q|
  {
    if q != [] {
      RemovedMembers(q[1..], handler, data, user);
      assert q == [q[0]] + q[1..];
    }
  }

  function NewTimer(s: Loop, op: Op): Timer
    requires op.Register?
  {
    Timer((s.now % WRAP + op.ms) % WRAP, op.handler, op.data, op.user, s.now + op.ms, |s.registered|)
  }

  function Apply(s: Loop, op: Op): Loop {
    match op
    case Register(_, _, _, _) =>
      if s.terminated then s
      else s.(pending := Insert(s.pending, NewTimer(s, op)), registered := s.registered + [NewTimer(s, op)])
    case Cancel(h, d, u) =>
      if s.terminated then s
      else s.(pending := Without(s.pending, h, d, u), cancelled := s.cancelled + Removed(s.pending, h, d, u))
    case Handle =>
      if s.pending == [] || !TimeAfterEq(s.now % WRAP, s.pending[0].time) then s
      else s.(pending := s.pending[1..], fired := s.fired + [s.pending[0]], firedAt := s.firedAt + [s.now])
    case Advance(ms) => s.(now := s.now + ms)
    case Terminate => s.(terminated := true)
  }

  function Run(s: Loop, ops: seq<Op>): Loop
    decreases |ops|
  {
    if ops == [] then s else Run(Apply(s, ops[0]), ops[1..])
  }

  // ---------- Conservation, in every run ----------

  /** How often the registration number occurs in a list. */
  function Occurs(q: seq<Timer>, id: nat): nat {
    if q == [] then 0 else (if q[0].id == id then 1 else 0) + Occurs(q[1..], id)
  }

  lemma {:induction false} OccursConcat(q: seq<Timer>, r: seq<Timer>, id: nat)
    ensures Occurs(q + r, id) == Occurs(q, id) + Occurs(r, id)
  {
    if q == [] {
      assert q + r == r;
    } else {
      OccursConcat(q[1..], r, id);
      assert (q + r)[1..] == q[1..] + r;
    }
  }

  lemma OccursAppend(q: seq<Timer>, t: Timer, id: nat)
    ensures Occurs(q + [t], id) == Occurs(q, id) + if t.id == id then 1 else 0
  {
    OccursConcat(q, [t], id);
  }

  lemma OccursInsert(q: seq<Timer>, t: Timer, id: nat)
    ensures Occurs(Insert(q, t), id) == Occurs(q, id) + if t.id == id then 1 else 0
  {
    var p := Position(q, t.time);
    assert q == q[..p] + q[p..];
    OccursConcat(q[..p], q[p..], id);
    OccursAppend(q[..p], t, id);
    OccursConcat(q[..p] + [t], q[p..], id);
  }

  lemma {:induction false} OccursSplit(q: seq<Timer>, h: nat, d: nat, u: nat, id: nat)
    ensures Occurs(q, id) == Occurs(Without(q, h, d, u), id) + Occurs(Removed(q, h, d, u), id)
  {
    if q != [] {
      OccursSplit(q[1..], h, d, u, id);
      OccursConcat([q[0]], Without(q[1..], h, d, u), id);
      OccursConcat([q[0]], Removed(q[1..], h, d, u), id);
    }
  }

  lemma {:induction false} OccursMember(q: seq<Timer>, k: nat)
    requires k < |q|
    ensures Occurs(q, q[k].id) >= 1
    ensures forall l :: k < l < |q| && q[l].id == q[k].id ==> Occurs(q, q[k].id) >= 2
  {
    if k > 0 {
      OccursMember(q[1..], k - 1);
      assert forall l :: k < l < |q| ==> q[l] == q[1..][l - 1];
    } else if l :| k < l < |q| && q[l].id == q[k].id {
      OccursMember(q[1..], l - 1);
    }
  }

  lemma {:induction false} OccursNone(q: seq<Timer>, id: nat)
    requires forall t :: t in q ==> t.id != id
    ensures Occurs(q, id) == 0
  {
    if q != [] { OccursNone(q[1..], id); }
  }

  predicate Known(q: seq<Timer>, registered: seq<Timer>) {
    forall t :: t in q ==> t.id < |registered| && registered[t.id] == t
  }

  predicate Conserved(s: Loop) {
    && Known(s.pending, s.registered) && Known(s.fired, s.registered) && Known(s.cancelled, s.registered)
    && |s.firedAt| == |s.fired|
    && (forall i :: 0 <= i < |s.registered| ==> s.registered[i].id == i && s.registered[i].time == s.registered[i].due % WRAP)
    && (forall i :: 0 <= i < |s.registered| ==> Occurs(s.pending, i) + Occurs(s.fired, i) + Occurs(s.cancelled, i) == 1)
  }

  lemma ModOfSum(now: nat, ms: nat)
    ensures (now % WRAP + ms) % WRAP == (now + ms) % WRAP
  {
    assert now == now / WRAP * WRAP + now % WRAP;
    ModAdd(now % WRAP + ms, now / WRAP);
  }

  lemma RegisterConserves(s: Loop, op: Op)
    requires Conserved(s) && op.Register? && !s.terminated
    ensures Conserved(Apply(s, op))
  {
    var t := NewTimer(s, op);
    var r := Apply(s, op);
    InsertMembers(s.pending, t);
    ModOfSum(s.now, op.ms);
    forall i | 0 <= i < |r.registered| ensures Occurs(r.pending, i) + Occurs(r.fired, i) + Occurs(r.cancelled, i) == 1 {
      OccursInsert(s.pending, t, i);
      if i == |s.registered| {
        OccursNone(s.pending, i);
        OccursNone(s.fired, i);
        OccursNone(s.cancelled, i);
      }
    }
  }

  lemma CancelConserves(s: Loop, op: Op)
    requires Conserved(s) && op.Cancel? && !s.terminated
    ensures Conserved(Apply(s, op))
  {
    var r := Apply(s, op);
    var gone := Removed(s.pending, op.handler, op.data, op.user);
    WithoutMembers(s.pending, op.handler, op.data, op.user);
    RemovedMembers(s.pending, op.handler, op.data, op.user);
    forall i | 0 <= i < |r.registered| ensures Occurs(r.pending, i) + Occurs(r.fired, i) + Occurs(r.cancelled, i) == 1 {
      OccursSplit(s.pending, op.handler, op.data, op.user, i);
      OccursConcat(s.cancelled, gone, i);
    }
  }

  lemma HandleConserves(s: Loop)
    requires Conserved(s)
    ensures Conserved(Apply(s, Handle))
  {
    var r := Apply(s, Handle);
    if r != s {
      assert s.pending == [s.pending[0]] + r.pending;
      forall i | 0 <= i < |r.registered| ensures Occurs(r.pending, i) + Occurs(r.fired, i) + Occurs(r.cancelled, i) == 1 {
        OccursAppend(s.fired, s.pending[0], i);
      }
    }
  }

  lemma ApplyConserves(s: Loop, op: Op)
    requires Conserved(s)
    ensures Conserved(Apply(s, op))
  {
    match op
    case Register(_, _, _, _) => if !s.terminated { RegisterConserves(s, op); }
    case Cancel(_, _, _) => if !s.terminated { CancelConserves(s, op); }
    case Handle => HandleConserves(s);
    case _ =>
  }

  lemma {:induction false} RunConserves(s: Loop, ops: seq<Op>)
    requires Conserved(s)
    ensures Conserved(Run(s, ops))
    decreases |ops|
  {
    if ops != [] {
      ApplyConserves(s, ops[0]);
      RunConserves(Apply(s, ops[0]), ops[1..]);
    }
  }

  /** In every run, wrap or no wrap, each registered timer is in exactly one of three places and there
      exactly once: pending, fired, or cancelled. */
  lemma EachTimerAccountedOnce(ops: seq<Op>, i: nat)
    requires i < |Run(START, ops).registered|
    ensures var s := Run(START, ops); Occurs(s.pending, i) + Occurs(s.fired, i) + Occurs(s.cancelled, i) == 1
    ensures var s := Run(START, ops); s.registered[i].id == i
    ensures var s := Run(START, ops); forall t :: t in s.pending || t in s.fired || t in s.cancelled ==> t in s.registered
  {
    RunConserves(START, ops);
  }

  // ---------- Order, in runs without a wrap among live deadlines ----------

  /** A caller-side condition on each operation: registrations are wrap-safe, and the loop looks at
      the head timer within 2^31 ms of its deadline. */
  predicate Tame(s: Loop, op: Op) {
    match op
    case Register(ms, _, _, _) => InWindow(s.pending, s.now + ms) && WrapSafe(s.pending, s.now + ms)
    case Handle => s.pending != [] ==> Near(s.now, s.pending[0].due)
    case _ => true
  }

  predicate TameRun(s: Loop, ops: seq<Op>)
    decreases |ops|
  {
    ops == [] || (Tame(s, ops[0]) && TameRun(Apply(s, ops[0]), ops[1..]))
  }

  predicate FiredBeforePending(s: Loop) {
    forall k, j :: 0 <= k < |s.fired| && 0 <= j < |s.pending| ==> Before(s.fired[k], s.pending[j])
  }

  predicate NeverEarly(s: Loop) {
    |s.firedAt| == |s.fired| && forall k :: 0 <= k < |s.fired| ==> s.fired[k].due <= s.firedAt[k] <= s.now
  }

  predicate Disciplined(s: Loop) {
    Conserved(s) && Ordered(s.pending) && Ordered(s.fired) && FiredBeforePending(s) && NeverEarly(s)
  }

  lemma PendingTimed(s: Loop)
    requires Conserved(s)
    ensures WellTimed(s.pending) && forall t :: t in s.pending ==> t.id < |s.registered|
  {
  }

  lemma {:induction false} WithoutOrdered(q: seq<Timer>, h: nat, d: nat, u: nat)
    requires Ordered(q)
    ensures Ordered(Without(q, h, d, u))
  {
    if q != [] {
      assert forall i, j :: 0 <= i < j < |q[1..]| ==> Before(q[1..][i], q[1..][j]);
      WithoutOrdered(q[1..], h, d, u);
      WithoutMembers(q[1..], h, d, u);
      var rest := Without(q[1..], h, d, u);
      forall t | t in rest ensures Before(q[0], t) {
        var k :| 0 <= k < |q[1..]| && q[1..][k] == t;
        assert q[k + 1] == t;
      }
    }
  }

  // What has fired was due by now and was registered before; so it stays ahead of a new timer.
  lemma NewcomerIsBehind(s: Loop, t: Timer)
    requires FiredBeforePending(s) && NeverEarly(s) && s.now <= t.due
    requires forall k :: 0 <= k < |s.fired| ==> s.fired[k].id < t.id
    ensures FiredBeforePending(s.(pending := Insert(s.pending, t)))
  {
    var q := Insert(s.pending, t);
    InsertMembers(s.pending, t);
    forall k, j | 0 <= k < |s.fired| && 0 <= j < |q| ensures Before(s.fired[k], q[j]) {
      assert q[j] in q;
      if q[j] != t {
        var i :| 0 <= i < |s.pending| && s.pending[i] == q[j];
      }
    }
  }

  lemma RegisterDisciplined(s: Loop, op: Op)
    requires Disciplined(s) && Tame(s, op) && op.Register? && !s.terminated
    ensures Disciplined(Apply(s, op))
  {
    var t := NewTimer(s, op);
    RegisterConserves(s, op);
    PendingTimed(s);
    ModOfSum(s.now, op.ms);
    SafeInsertOrdered(s.pending, t);
    forall k | 0 <= k < |s.fired| ensures s.fired[k].id < t.id { assert s.fired[k] in s.fired; }
    NewcomerIsBehind(s, t);
  }

  lemma CancelDisciplined(s: Loop, op: Op)
    requires Disciplined(s) && op.Cancel? && !s.terminated
    ensures Disciplined(Apply(s, op))
  {
    CancelConserves(s, op);
    WithoutOrdered(s.pending, op.handler, op.data, op.user);
    WithoutMembers(s.pending, op.handler, op.data, op.user);
    var r := Apply(s, op);
    forall k, j | 0 <= k < |r.fired| && 0 <= j < |r.pending| ensures Before(r.fired[k], r.pending[j]) {
      assert r.pending[j] in r.pending;
      var i :| 0 <= i < |s.pending| && s.pending[i] == r.pending[j];
    }
  }

  lemma FireHead(s: Loop)
    requires Disciplined(s) && s.pending != []
    ensures var r := s.(pending := s.pending[1..], fired := s.fired + [s.pending[0]], firedAt := s.firedAt + [s.now]);
            Ordered(r.pending) && Ordered(r.fired) && FiredBeforePending(r)
  {
    var h := s.pending[0];
    var r := s.(pending := s.pending[1..], fired := s.fired + [h], firedAt := s.firedAt + [s.now]);
    forall i, j | 0 <= i < j < |r.pending| ensures Before(r.pending[i], r.pending[j]) {
      assert Before(s.pending[i + 1], s.pending[j + 1]);
    }
    forall k, j | 0 <= k < |r.fired| && 0 <= j < |r.pending| ensures Before(r.fired[k], r.pending[j]) {
      assert r.pending[j] == s.pending[j + 1] && Before(h, s.pending[j + 1]);
    }
    forall k, l | 0 <= k < l < |r.fired| ensures Before(r.fired[k], r.fired[l]) {
      if l == |s.fired| { assert r.fired[l] == s.pending[0]; }
    }
  }

  lemma HandleDisciplined(s: Loop)
    requires Disciplined(s) && Tame(s, Handle)
    ensures Disciplined(Apply(s, Handle))
  {
    HandleConserves(s);
    if Apply(s, Handle) != s {
      PendingTimed(s);
      assert s.pending[0] in s.pending;
      TimeAfterEqIff(s.now, s.pending[0].due);
      FireHead(s);
    }
  }

  lemma {:induction false} RunDisciplined(s: Loop, ops: seq<Op>)
    requires Disciplined(s) && TameRun(s, ops)
    ensures Disciplined(Run(s, ops))
    decreases |ops|
  {
    if ops != [] {
      var op := ops[0];
      if op.Register? && !s.terminated { RegisterDisciplined(s, op); }
      else if op.Cancel? && !s.terminated { CancelDisciplined(s, op); }
      else if op.Handle? { HandleDisciplined(s); }
      assert Disciplined(Apply(s, op));
      RunDisciplined(Apply(s, op), ops[1..]);
    }
  }

  /** In a tame run no timer fires before its deadline, and of any two fired timers the one that fired
      first has the earlier deadline, or the same deadline and the earlier registration. */
  lemma FiringOrder(ops: seq<Op>, k: nat, l: nat)
    requires TameRun(START, ops) && k < l < |Run(START, ops).fired|
    ensures var s := Run(START, ops);
            |s.firedAt| == |s.fired| && s.fired[k].due <= s.firedAt[k] && s.fired[l].due <= s.firedAt[l]
            && Before(s.fired[k], s.fired[l])
  {
    RunDisciplined(START, ops);
  }

  /** One pass fires a timer exactly when the earliest pending deadline has been reached, and the one
      it fires is that earliest one. */
  lemma HandleFiresEarliest(s: Loop)
    requires Disciplined(s) && Tame(s, Handle) && s.pending != []
    ensures s.pending[0].due <= s.now ==>
              Apply(s, Handle).fired == s.fired + [s.pending[0]] && Apply(s, Handle).pending == s.pending[1..]
              && forall j :: 0 < j < |s.pending| ==> Before(s.pending[0], s.pending[j])
    ensures s.pending[0].due > s.now ==> Apply(s, Handle) == s
  {
    PendingTimed(s);
    assert s.pending[0] in s.pending;
    TimeAfterEqIff(s.now, s.pending[0].due);
  }
}
