/** The hand-off of packet buffers to the driver in src/lwip/port/wifi_netif.c: reference counts, the
    copying of chains, and the table of segments. */
module TxBuffers {
  import opened Wrappers

  // ---------- Buffers ----------

  // The headroom that a buffer for transmission reserves, and that the driver takes over.
  const HEADROOM := 348

  /** One packet buffer: the next of its chain, its data, the free bytes before the data, the recorded
      length of the chain from here on, and the number of references. */
  datatype Pbuf = Pbuf(next: Option<nat>, data: seq<Byte>, room: seq<Byte>, totLen: nat, refs: nat)

  type Live = map<nat, Pbuf>

  /** `ids` is the whole chain that starts at its first element. */
  predicate Chain(live: Live, ids: seq<nat>) {
    ids != []
    && (forall k :: 0 <= k < |ids| ==> ids[k] in live)
    && (forall j, k :: 0 <= j < k < |ids| ==> ids[j] != ids[k])
    && (forall k :: 0 <= k < |ids| - 1 ==> live[ids[k]].next == Some(ids[k + 1]))
    && live[ids[|ids| - 1]].next == None
  }

  function Bytes(live: Live, ids: seq<nat>): seq<Byte>
    requires forall k :: 0 <= k < |ids| ==> ids[k] in live
  {
    if ids == [] then [] else live[ids[0]].data + Bytes(live, ids[1..])
  }

  function Longer(b: Pbuf, more: nat): Pbuf { b.(totLen := b.totLen + more) }

  /** A chain with a tail joined to its end, `more` bytes longer. */
  function Joined(live: Live, ids: seq<nat>, tail: nat, more: nat): (r: Live)
    requires ids != [] && forall k :: 0 <= k < |ids| ==> ids[k] in live
    ensures r.Keys == live.Keys
    decreases |ids|
  {
    var b := Longer(live[ids[0]], more);
    if |ids| == 1 then live[ids[0] := b.(next := Some(tail))] else Joined(live[ids[0] := b], ids[1..], tail, more)
  }

  lemma {:induction false} JoinedEach(live: Live, ids: seq<nat>, tail: nat, more: nat)
    requires ids != [] && (forall k :: 0 <= k < |ids| ==> ids[k] in live) && forall j, k :: 0 <= j < k < |ids| ==> ids[j] != ids[k]
    ensures var r := Joined(live, ids, tail, more);
            && (forall id :: id in live && id !in ids ==> r[id] == live[id])
            && (forall k :: 0 <= k < |ids| - 1 ==> r[ids[k]] == Longer(live[ids[k]], more))
            && r[ids[|ids| - 1]] == Longer(live[ids[|ids| - 1]], more).(next := Some(tail))
    decreases |ids|
  {
    if |ids| > 1 {
      var next := live[ids[0] := Longer(live[ids[0]], more)];
      JoinedEach(next, ids[1..], tail, more);
      assert ids[0] !in ids[1..];
      assert forall id :: id in ids <==> id == ids[0] || id in ids[1..];
      assert forall k :: 1 <= k < |ids| ==> ids[k] == ids[1..][k - 1];
    }
  }

  /** What releasing one reference to the head of a chain leaves: a buffer whose last reference goes is
      removed and releases the next one. */
  function Released(live: Live, ids: seq<nat>): Live
    requires forall k :: 0 <= k < |ids| ==> ids[k] in live
    requires forall j, k :: 0 <= j < k < |ids| ==> ids[j] != ids[k]
    decreases |ids|
  {
    if ids == [] then live
    else if live[ids[0]].refs <= 1 then Released(live - {ids[0]}, ids[1..])
    else live[ids[0] := live[ids[0]].(refs := live[ids[0]].refs - 1)]
  }

  predicate OnlyReference(live: Live, ids: seq<nat>) { forall k :: 0 <= k < |ids| ==> ids[k] in live && live[ids[k]].refs == 1 }

  lemma {:induction false} ReleasedWholly(live: Live, ids: seq<nat>)
    requires OnlyReference(live, ids) && forall j, k :: 0 <= j < k < |ids| ==> ids[j] != ids[k]
    ensures Released(live, ids) == live - (set id | id in ids)
    decreases |ids|
  {
    if ids != [] {
      ReleasedWholly(live - {ids[0]}, ids[1..]);
      assert (set id | id in ids) == {ids[0]} + set id | id in ids[1..];
    }
  }

  /** Two chains hold the same data, buffer by buffer. */
  predicate SameData(was: Live, ids: seq<nat>, live: Live, news: seq<nat>) {
    |ids| == |news| && forall k :: 0 <= k < |ids| ==> ids[k] in was && news[k] in live && live[news[k]].data == was[ids[k]].data
  }

  lemma {:induction false} SameBytes(was: Live, ids: seq<nat>, live: Live, news: seq<nat>)
    requires SameData(was, ids, live, news)
    ensures Bytes(live, news) == Bytes(was, ids)
    decreases |ids|
  {
    if ids != [] { SameBytes(was, ids[1..], live, news[1..]); }
  }

  lemma {:induction false} BytesAppend(live: Live, ids: seq<nat>, id: nat)
    requires id in live && forall k :: 0 <= k < |ids| ==> ids[k] in live
    ensures Bytes(live, ids + [id]) == Bytes(live, ids) + live[id].data
    decreases |ids|
  {
    if ids == [] {
      assert [id][1..] == [];
    } else {
      BytesAppend(live, ids[1..], id);
      assert (ids + [id])[1..] == ids[1..] + [id];
    }
  }

  /** Since `was`, exactly the chain `news` has been added, which nobody else refers to. */
  predicate Added(was: Live, live: Live, news: seq<nat>) {
    Chain(live, news) && OnlyReference(live, news)
    && (forall k :: 0 <= k < |news| ==> news[k] !in was)
    && (forall id :: id in was ==> id in live && live[id] == was[id])
    && (forall id :: id in live ==> id in was || id in news)
  }

  lemma BytesOne(live: Live, id: nat)
    requires id in live
    ensures Bytes(live, [id]) == live[id].data
  {
    assert [id][1..] == [];
  }

  lemma AddedFirst(was: Live, live: Live, id: nat)
    requires id !in was && live.Keys == was.Keys + {id} && live - {id} == was && live[id].next == None && live[id].refs == 1
    ensures Added(was, live, [id])
  {
    assert forall x :: x in was ==> x in live - {id};
  }

  lemma JoinedShape(before: Live, ids: seq<nat>, tail: nat, more: nat, k: nat)
    requires Chain(before, ids) && k < |ids|
    ensures var r := Joined(before, ids, tail, more);
            && r[ids[k]].refs == before[ids[k]].refs
            && r[ids[k]].next == if k < |ids| - 1 then Some(ids[k + 1]) else Some(tail)
  {
    JoinedEach(before, ids, tail, more);
    hide Joined;
  }

  lemma ChainNext(before: Live, news: seq<nat>, b: nat, more: nat)
    requires Chain(before, news) && b !in news && b in before && before[b].next == None
    ensures Chain(Joined(before, news, b, more), news + [b])
  {
    JoinedEach(before, news, b, more);
    hide Joined, Longer;
    var r, all := Joined(before, news, b, more), news + [b];
    forall k | 0 <= k < |all| - 1 ensures r[all[k]].next == Some(all[k + 1]) {
      JoinedShape(before, news, b, more, k);
    }
    forall j, k | 0 <= j < k < |all| ensures all[j] != all[k] {
      assert all[j] in news;
    }
    assert all[|all| - 1] == b;
  }

  lemma OnlyReferenceNext(before: Live, news: seq<nat>, b: nat, more: nat)
    requires Chain(before, news) && OnlyReference(before, news) && b !in news && b in before && before[b].refs == 1
    ensures OnlyReference(Joined(before, news, b, more), news + [b])
  {
    JoinedEach(before, news, b, more);
    hide Joined, Longer;
    var r, all := Joined(before, news, b, more), news + [b];
    forall k | 0 <= k < |all| ensures all[k] in r && r[all[k]].refs == 1 {
      if k < |news| { JoinedShape(before, news, b, more, k); }
    }
  }

  // A buffer that nobody refers to, and the chain with it joined on.
  lemma AddedNext(was: Live, before: Live, news: seq<nat>, b: nat, more: nat)
    requires Added(was, before - {b}, news) && b !in was && b !in news && b in before
    requires before[b].next == None && before[b].refs == 1
    ensures Added(was, Joined(before, news, b, more), news + [b])
  {
    SameChain(before - {b}, before, news);
    assert OnlyReference(before, news);
    ChainNext(before, news, b, more);
    OnlyReferenceNext(before, news, b, more);
    JoinedEach(before, news, b, more);
    hide Joined, Chain, OnlyReference;
    assert forall id :: id in was ==> id !in news && id != b && id in before - {b};
    assert forall id :: id in before ==> id in was || id in news || id == b;
  }

  lemma ChainAdded(was: Live, live: Live, news: seq<nat>)
    requires Added(was, live, news)
    ensures Chain(live, news) && was.Keys <= live.Keys
  {
  }

  lemma SameChain(was: Live, live: Live, ids: seq<nat>)
    requires Chain(was, ids) && forall id :: id in was ==> id in live && live[id] == was[id]
    ensures Chain(live, ids)
  {
  }

  lemma AddedAlone(was: Live, live: Live, news: seq<nat>)
    requires Added(was, live, news)
    ensures live - (set id | id in news) == was
  {
  }

  // ---------- Segments ----------

  function Pushed(b: Pbuf): Pbuf
    requires |b.room| >= HEADROOM
  {
    var cut := |b.room| - HEADROOM;
    b.(data := b.room[cut..] + b.data, room := b.room[..cut], totLen := b.totLen + HEADROOM)
  }

  // The header is left in place if the data is shorter than it.
  function Popped(b: Pbuf): Pbuf {
    if |b.data| < HEADROOM || b.totLen < HEADROOM then b
    else b.(data := b.data[HEADROOM..], room := b.room + b.data[..HEADROOM], totLen := b.totLen - HEADROOM)
  }

  lemma PushedPopped(b: Pbuf)
    requires |b.room| >= HEADROOM
    ensures Popped(Pushed(b)) == b && Pushed(b).next == b.next
  {
    var cut := |b.room| - HEADROOM;
    assert (b.room[cut..] + b.data)[..HEADROOM] == b.room[cut..];
    assert (b.room[cut..] + b.data)[HEADROOM..] == b.data;
    assert b.room[..cut] + b.room[cut..] == b.room;
  }

  lemma PushedMeans(b: Pbuf)
    requires |b.room| >= 348
    ensures var t := Pushed(b);
            |t.data| == 348 + |b.data| && t.data[348..] == b.data && t.totLen == 348 + b.totLen && t.room + t.data[..348] == b.room
  {
    var cut := |b.room| - 348;
    assert b.room[..cut] + b.room[cut..] == b.room;
  }

  const WIDTH := 0x1_0000

  function Size(live: Live, id: nat): nat
    requires id in live
  {
    |live[id].data|
  }

  /** The bytes in the first `k` buffers of a chain. */
  function Sum(live: Live, ids: seq<nat>, k: nat): nat
    requires k <= |ids| && forall j :: 0 <= j < |ids| ==> ids[j] in live
  {
    if k == 0 then 0 else Sum(live, ids, k - 1) + Size(live, ids[k - 1])
  }

  /** The first `k` buffers hold the recorded length, as far as 16 bits can tell. */
  predicate Matches(live: Live, ids: seq<nat>, k: nat)
    requires ids != [] && k <= |ids| && forall j :: 0 <= j < |ids| ==> ids[j] in live
  {
    Sum(live, ids, k) % WIDTH == live[ids[0]].totLen
  }

  /** How many buffers may be recorded: at least one. */
  function Limit(n: nat, max: int): nat { if max < 1 || n < 1 then 1 else if max < n then max else n }

  lemma Remaining(tot: nat, sum: nat, more: nat)
    requires tot < WIDTH
    ensures ((tot - sum) % WIDTH - more) % WIDTH == (tot - (sum + more)) % WIDTH
    ensures (tot - sum) % WIDTH == 0 <==> sum % WIDTH == tot
  {
  }

  lemma {:induction false} SumGrows(live: Live, ids: seq<nat>, j: nat, k: nat)
    requires j <= k <= |ids| && forall i :: 0 <= i < |ids| ==> ids[i] in live
    ensures Sum(live, ids, j) <= Sum(live, ids, k)
    decreases k
  {
    if j < k { SumGrows(live, ids, j, k - 1); }
  }

  lemma {:induction false} SameSums(was: Live, ids: seq<nat>, live: Live, news: seq<nat>, k: nat)
    requires SameData(was, ids, live, news) && k <= |ids|
    ensures Sum(live, news, k) == Sum(was, ids, k)
    decreases k
  {
    if k > 0 { SameSums(was, ids, live, news, k - 1); }
  }

  lemma {:induction false} SumIsBytes(live: Live, ids: seq<nat>, k: nat)
    requires k <= |ids| && forall j :: 0 <= j < |ids| ==> ids[j] in live
    ensures Sum(live, ids, k) == |Bytes(live, ids[..k])|
    decreases k
  {
    if k > 0 {
      SumIsBytes(live, ids, k - 1);
      BytesAppend(live, ids[..k - 1], ids[k - 1]);
      assert ids[..k] == ids[..k - 1] + [ids[k - 1]];
    }
  }

  lemma FirstSum(live: Live, ids: seq<nat>)
    requires Chain(live, ids)
    ensures Sum(live, ids, 0) == 0 && Sum(live, ids, 1) == Size(live, ids[0])
  {
  }

  lemma NextSum(live: Live, ids: seq<nat>, k: nat)
    requires Chain(live, ids) && k < |ids|
    ensures Sum(live, ids, k + 1) == Sum(live, ids, k) + Size(live, ids[k])
  {
  }

  /** For a chain whose recorded length is right, a prefix within the limit matches exactly when all the
      bytes are in the buffers within the limit, and then that prefix holds every byte. */
  lemma MatchesIff(live: Live, ids: seq<nat>, limit: nat)
    requires Chain(live, ids) && live[ids[0]].totLen == Sum(live, ids, |ids|) < WIDTH && 1 <= limit <= |ids|
    ensures (exists k :: 1 <= k <= limit && Matches(live, ids, k)) <==> Sum(live, ids, limit) == Sum(live, ids, |ids|)
    ensures forall k :: 1 <= k <= limit && Matches(live, ids, k) ==> Sum(live, ids, k) == Sum(live, ids, |ids|)
  {
    hide Sum;
    SumGrows(live, ids, limit, |ids|);
    forall k | 1 <= k <= limit && Matches(live, ids, k) ensures Sum(live, ids, k) == Sum(live, ids, |ids|) {
      SumGrows(live, ids, k, limit);
    }
    forall k | 1 <= k <= limit && Matches(live, ids, k) ensures Sum(live, ids, limit) == Sum(live, ids, |ids|) {
      SumGrows(live, ids, k, limit);
    }
    if Sum(live, ids, limit) == Sum(live, ids, |ids|) { assert Matches(live, ids, limit); }
  }

  lemma SizesSame(was: Live, ids: seq<nat>, live: Live, news: seq<nat>, limit: nat)
    requires ids != [] && SameData(was, ids, live, news) && limit <= |ids|
    ensures |news| == |ids| && Sum(live, news, limit) == Sum(was, ids, limit)
    ensures Sum(live, news, |news|) == |Bytes(was, ids)|
  {
    SameSums(was, ids, live, news, limit);
    SameSums(was, ids, live, news, |ids|);
    SumIsBytes(was, ids, |ids|);
    assert ids[..|ids|] == ids;
  }

  // Taking the headroom leaves a chain a chain.
  lemma SameShape(was: Live, live: Live, ids: seq<nat>)
    requires Chain(was, ids) && live.Keys == was.Keys && forall id :: id in was ==> live[id].next == was[id].next
    ensures Chain(live, ids)
  {
  }

  lemma ReleasedOnce(was: Live, ids: seq<nat>)
    requires Chain(was, ids) && was[ids[0]].refs >= 1
    ensures Released(was[ids[0] := was[ids[0]].(refs := was[ids[0]].refs + 1)], ids) == was
  {
  }

  class Pool {
    var live: Live
    // How many more buffers the allocator can give out, and the name of the next one.
    var supply: nat
    var unused: nat

    predicate Valid()
      reads this
    {
      forall id :: id in live ==> id < unused
    }

    /** pbuf_alloc: a single buffer with the transmission headroom and one reference. */
    method Alloc(len: nat) returns (r: Option<nat>)
      requires Valid()
      modifies this
      ensures Valid()
      ensures r == None <==> old(supply) == 0
      ensures r == None ==> live == old(live) && supply == old(supply)
      ensures r != None ==>
                && supply == old(supply) - 1
                && r.value !in old(live) && r.value in live && live - {r.value} == old(live)
                && live[r.value].next == None && live[r.value].refs == 1
                && |live[r.value].data| == len && live[r.value].totLen == len && |live[r.value].room| == HEADROOM
    {
      if supply == 0 { return None; }
      r := Some(unused);
      var data: seq<Byte> := seq(len, _ => 0);
      var room: seq<Byte> := seq(HEADROOM, _ => 0);
      live := live[unused := Pbuf(None, data, room, len, 1)];
      supply, unused := supply - 1, unused + 1;
    }

    /** pbuf_free. */
    method Free(head: nat, ghost ids: seq<nat>)
      requires Valid() && Chain(live, ids) && ids[0] == head
      modifies this`live
      ensures Valid() && live == Released(old(live), ids)
    {
      var p := Some(head);
      ghost var i := 0;
      while p != None
        invariant 0 <= i <= |ids| && p == if i == |ids| then None else Some(ids[i])
        invariant forall k :: i <= k < |ids| ==> ids[k] in live && live[ids[k]] == old(live)[ids[k]]
        invariant Valid() && Released(live, ids[i..]) == Released(old(live), ids)
        decreases |ids| - i
      {
        var b := live[p.value];
        assert ids[i..][0] == ids[i] && ids[i..][1..] == ids[i + 1..];
        if b.refs > 1 {
          live := live[p.value := b.(refs := b.refs - 1)];
          return;
        }
        live := live - {p.value};
        p := b.next;
        i := i + 1;
      }
      assert ids[i..] == [];
    }

    /** pbuf_cat: the tail joins the end of the chain, which takes over the caller's reference. */
    method Cat(head: nat, tail: nat, ghost ids: seq<nat>)
      requires Valid() && Chain(live, ids) && ids[0] == head && tail in live && tail !in ids
      modifies this`live
      ensures live == Joined(old(live), ids, tail, old(live)[tail].totLen)
    {
      var p, more := head, live[tail].totLen;
      ghost var i := 0;
      while live[p].next != None
        invariant 0 <= i < |ids| && p == ids[i] && live.Keys == old(live).Keys
        invariant forall k :: i <= k < |ids| ==> live[ids[k]] == old(live)[ids[k]]
        invariant live[p].next == if i < |ids| - 1 then Some(ids[i + 1]) else None
        invariant Joined(live, ids[i..], tail, more) == Joined(old(live), ids, tail, more)
        decreases |ids| - i
      {
        assert ids[i..][0] == ids[i] && ids[i..][1..] == ids[i + 1..];
        live := live[p := Longer(live[p], more)];
        p := live[p].next.value;
        i := i + 1;
      }
      assert ids[i..] == [p];
      live := live[p := Longer(live[p], more).(next := Some(tail))];
    }

    /** memcpy into the payload of a buffer of the same length. */
    method Fill(id: nat, data: seq<Byte>)
      requires Valid() && id in live && |live[id].data| == |data|
      modifies this`live
      ensures Valid() && live == old(live)[id := old(live)[id].(data := data)]
    {
      live := live[id := live[id].(data := data)];
    }

    /** Hands a chain to the driver. A datagram that must be copied goes as a fresh chain with the same bytes;
        anything else as one more reference to the chain itself. If the interface is down, the allocator
        runs dry or the driver refuses, every live buffer and reference count is as before. */
    method Output(head: nat, needsCopy: bool, up: bool, taken: bool, ghost ids: seq<nat>)
      returns (handed: Option<nat>, ghost sent: seq<nat>)
      requires Valid() && Chain(live, ids) && ids[0] == head && live[head].refs >= 1
      modifies this
      ensures Valid()
      ensures handed != None <==> up && taken && (needsCopy ==> |ids| <= old(supply))
      ensures handed == None ==> live == old(live)
      ensures handed != None && !needsCopy ==>
                sent == ids && live == old(live)[head := old(live)[head].(refs := old(live)[head].refs + 1)]
      ensures handed != None && needsCopy ==>
                && live - (set id | id in sent) == old(live) && OnlyReference(live, sent)
                && forall k :: 0 <= k < |sent| ==> sent[k] !in old(live)
      ensures handed != None ==> Chain(live, sent) && sent[0] == handed.value && SameData(old(live), ids, live, sent)
      ensures handed != None ==> Bytes(live, sent) == Bytes(old(live), ids)
      ensures handed != None && needsCopy ==>
                live[handed.value].totLen == |Bytes(old(live), ids)| && |live[handed.value].room| == HEADROOM
    {
      sent := [];
      if needsCopy {
        if !up { return None, sent; }
        handed, sent := Copy(head, ids);
        if handed == None { return; }
        if !taken {
          ReleasedWholly(live, sent);
          Free(handed.value, sent);
          return None, [];
        }
      } else {
        live := live[head := live[head].(refs := live[head].refs + 1)];
        SameBytes(old(live), ids, live, ids);
        if up && taken { return Some(head), ids; }
        Free(head, ids);
        assert live == old(live);
        handed := None;
      }
    }

    /** Copies a chain buffer by buffer; all of it is given back when the allocator runs dry. */
    method Copy(head: nat, ghost ids: seq<nat>) returns (r: Option<nat>, ghost news: seq<nat>)
      requires Valid() && Chain(live, ids) && ids[0] == head
      modifies this
      ensures Valid()
      ensures r == None <==> old(supply) < |ids|
      ensures r == None ==> live == old(live)
      ensures r != None ==>
                && Chain(live, news) && news[0] == r.value && OnlyReference(live, news)
                && live - (set id | id in news) == old(live) && (forall k :: 0 <= k < |news| ==> news[k] !in old(live))
                && SameData(old(live), ids, live, news) && Bytes(live, news) == Bytes(old(live), ids)
                && live[r.value].totLen == |Bytes(old(live), ids)| && |live[r.value].room| == HEADROOM
    {
      hide Bytes;
      var first := Alloc(|live[head].data|);
      if first == None { return None, []; }
      Fill(first.value, live[head].data);
      news := [first.value];
      BytesOne(live, first.value);
      AddedFirst(old(live), live, first.value);
      var p := head;
      ghost var i := 0;
      while live[p].next != None
        invariant 0 <= i < |ids| && p == ids[i] && |news| == i + 1 && news[0] == first.value
        invariant p in live && live[p].next == if i < |ids| - 1 then Some(ids[i + 1]) else None
        invariant Valid() && Added(old(live), live, news) && supply == old(supply) - (i + 1)
        invariant forall k :: 0 <= k <= i ==> live[news[k]].data == old(live)[ids[k]].data
        invariant live[first.value].totLen == |Bytes(live, news)| && |live[first.value].room| == HEADROOM
        decreases |ids| - i
      {
        p := live[p].next.value;
        i := i + 1;
        var b := CopyOne(first.value, live[p].data, old(live), news);
        if b == None {
          ReleasedWholly(live, news);
          AddedAlone(old(live), live, news);
          Free(first.value, news);
          return None, [];
        }
        news := news + [b.value];
      }
      SameBytes(old(live), ids, live, news);
      AddedAlone(old(live), live, news);
      r := first;
    }

    /** Appends a copy of one buffer's data to the chain being built. */
    method CopyOne(first: nat, data: seq<Byte>, ghost was: Live, ghost news: seq<nat>) returns (b: Option<nat>)
      requires Valid() && Added(was, live, news) && news[0] == first && live[first].totLen == |Bytes(live, news)|
      modifies this
      ensures Valid()
      ensures b == None <==> old(supply) == 0
      ensures b == None ==> live == old(live)
      ensures b != None ==> supply == old(supply) - 1 && live.Keys == old(live).Keys + {b.value}
      ensures b != None ==> Added(was, live, news + [b.value])
      ensures b != None ==> live[b.value].data == data && live[first].totLen == |Bytes(live, news + [b.value])|
      ensures b != None ==> live[first].room == old(live)[first].room
      ensures b != None ==> forall k :: 0 <= k < |news| ==> live[news[k]].data == old(live)[news[k]].data
    {
      hide Bytes, Joined, Added;
      ChainAdded(was, live, news);
      b := Alloc(|data|);
      if b == None { return; }
      Fill(b.value, data);
      ghost var before := live;
      assert before - {b.value} == old(live);
      AddedNext(was, before, news, b.value, |data|);
      JoinedEach(before, news, b.value, |data|);
      SameChain(old(live), before, news);
      Cat(first, b.value, news);
      BytesAppend(live, news, b.value);
      SameBytes(old(live), news, live, news);
    }

    /** Lists the segments of a chain and takes over the headroom. It succeeds exactly when the headroom is
        there and some prefix of at most `max` buffers (but at least one) matches the recorded length; the
        shortest such prefix is listed, as the data was before the headroom was taken. */
    method Info(head: nat, max: int, addrs: array<nat>, lens: array<nat>, ghost ids: seq<nat>)
      returns (ok: bool, totLen: nat, count: nat)
      requires Valid() && Chain(live, ids) && ids[0] == head && live[head].totLen < 0x1_0000
      requires addrs != lens && addrs.Length >= 1 && addrs.Length >= max && lens.Length >= 1 && lens.Length >= max
      modifies this`live, addrs, lens
      ensures Valid() && totLen == old(live)[head].totLen
      ensures live == if |old(live)[head].room| < HEADROOM then old(live) else old(live)[head := Pushed(old(live)[head])]
      ensures |old(live)[head].room| >= 348 ==>
                && |live[head].data| == 348 + |old(live)[head].data| && live[head].data[348..] == old(live)[head].data
                && live[head].totLen == 348 + old(live)[head].totLen && live[head].room + live[head].data[..348] == old(live)[head].room
      ensures ok <==> |old(live)[head].room| >= HEADROOM
                      && exists k :: 1 <= k <= |ids| && (k == 1 || k <= max) && Matches(old(live), ids, k)
      ensures ok ==> 1 <= count <= |ids| && (count == 1 || count <= max) && Matches(old(live), ids, count)
      ensures ok ==> forall k :: 1 <= k < count ==> !Matches(old(live), ids, k)
      ensures ok ==> forall k :: 0 <= k < count ==> addrs[k] == ids[k] && lens[k] == Size(old(live), ids[k])
    {
      hide Sum, Pushed;
      var b := live[head];
      totLen, count := b.totLen, 1;
      addrs[0], lens[0] := head, |b.data|;
      var length := (totLen - |b.data|) % WIDTH;
      if |b.room| < HEADROOM { return false, totLen, count; }
      FirstSum(live, ids);
      Remaining(totLen, 0, |b.data|);
      Remaining(totLen, |b.data|, 0);
      ghost var was := live;
      live := live[head := Pushed(b)];
      PushedMeans(b);
      var p := b.next;
      while length != 0 && p != None && count < max
        invariant 1 <= count <= Limit(|ids|, max) && live == was[head := Pushed(b)]
        invariant p == if count < |ids| then Some(ids[count]) else None
        invariant length == (totLen - Sum(was, ids, count)) % WIDTH
        invariant length == 0 <==> Matches(was, ids, count)
        invariant forall k :: 1 <= k < count ==> !Matches(was, ids, k)
        invariant forall k :: 0 <= k < count ==> addrs[k] == ids[k] && lens[k] == Size(was, ids[k])
        decreases |ids| - count
      {
        var q := live[p.value];
        assert q == was[ids[count]];
        addrs[count], lens[count] := p.value, |q.data|;
        NextSum(was, ids, count);
        Remaining(totLen, Sum(was, ids, count), |q.data|);
        Remaining(totLen, Sum(was, ids, count + 1), 0);
        length := (length - |q.data|) % WIDTH;
        count := count + 1;
        p := q.next;
      }
      ok := length == 0;
    }

    /** Gives up the headroom and the driver's reference. */
    method TxFree(head: nat, ghost ids: seq<nat>)
      requires Valid() && Chain(live, ids) && ids[0] == head
      modifies this`live
      ensures Valid() && live == Released(old(live)[head := Popped(old(live)[head])], ids)
    {
      ghost var was := live;
      live := live[head := Popped(live[head])];
      Free(head, ids);
    }

    /** A hand-off that is taken, listed and given up, or that fails on the way, leaves every live buffer,
        its data and its reference count as they were. */
    method SendAndComplete(head: nat, needsCopy: bool, up: bool, taken: bool, max: int, ghost ids: seq<nat>)
      returns (sent: bool, listed: bool)
      requires Valid() && Chain(live, ids) && ids[0] == head && live[head].refs >= 1
      requires |live[head].room| >= HEADROOM && live[head].totLen == |Bytes(live, ids)| < 0x1_0000
      modifies this
      ensures Valid() && live == old(live)
      ensures sent <==> up && taken && (needsCopy ==> |ids| <= old(supply))
      ensures var n := if max < 1 then 1 else if max < |ids| then max else |ids|;
              listed <==> sent && |Bytes(old(live), ids[..n])| == |Bytes(old(live), ids)|
    {
      hide Sum, Bytes, Released, Pushed, Popped, Matches, SameData;
      SumIsBytes(live, ids, Limit(|ids|, max));
      var handed, news := Output(head, needsCopy, up, taken, ids);
      if handed == None { return false, false; }
      ghost var mid := live;
      SizesSame(old(live), ids, mid, news, Limit(|ids|, max));
      MatchesIff(mid, news, Limit(|news|, max));
      var addrs, lens := new nat[if max < 1 then 1 else max], new nat[if max < 1 then 1 else max];
      var totLen, count;
      listed, totLen, count := Info(handed.value, max, addrs, lens, news);
      PushedPopped(mid[handed.value]);
      SameShape(mid, live, news);
      TxFree(handed.value, news);
      assert mid[handed.value := Pushed(mid[handed.value])][handed.value := mid[handed.value]] == mid;
      if needsCopy {
        ReleasedWholly(mid, news);
      } else {
        ReleasedOnce(old(live), ids);
      }
      sent := true;
    }
  }
}
