/** Block-wise transfer: serving and storing blocks (api/oc_blockwise.c), the choice of the
    block size (api/oc_main.c), and what both ends achieve together (section 2 of RFC 7959). */
module Blockwise {
  import opened Lists
  import opened Payload

  // ----- serving a block

  // Where the sender's payload runs out before the requested size, and not at its start,
  // the announced size ignores the offset.
  predicate Overstated(length: nat, offset: nat, requested: nat) {
    0 < offset < length < requested
  }

  function ServedSize(length: nat, offset: nat, requested: nat): nat
    requires offset < length
  {
    if length < requested then length
    else if requested < length - offset then requested
    else length - offset
  }

  // The block that a request at this offset is for.
  function BlockOf(payload: seq<bv8>, offset: nat, requested: nat): seq<bv8>
    requires offset < |payload|
  {
    payload[offset..if requested < |payload| - offset then offset + requested else |payload|]
  }

  // The announced size is that of the block, and stays inside the payload, exactly outside the overstated family.
  lemma ServedSizeExact(payload: seq<bv8>, offset: nat, requested: nat)
    requires offset < |payload|
    ensures var size := ServedSize(|payload|, offset, requested);
            && (size == |BlockOf(payload, offset, requested)| <==> !Overstated(|payload|, offset, requested))
            && (offset + size <= |payload| <==> !Overstated(|payload|, offset, requested))
  {
  }

  lemma OverstatedExample()
    ensures ServedSize(100, 16, 512) == 100 && |BlockOf(seq(100, _ => 0), 16, 512)| == 84
  {
  }

  // Offsets that are multiples of the block size, as the protocol asks for, are never in that family.
  lemma AlignedIsExact(length: nat, number: nat, size: nat)
    ensures !Overstated(length, number * size, size)
  {
    if number > 0 {
      assert number * size == (number - 1) * size + size;
    }
  }

  // ----- storing a block

  datatype Receiver = Receiver(data: seq<bv8>, next: nat)

  predicate Storable(capacity: nat, next: nat, offset: nat, size: nat) {
    offset < capacity && size <= capacity - offset && offset <= next
  }

  function Write(data: seq<bv8>, offset: nat, block: seq<bv8>): (r: seq<bv8>)
    requires offset + |block| <= |data|
    ensures |r| == |data|
  {
    data[..offset] + block + data[offset + |block|..]
  }

  lemma WriteOneMore(data: seq<bv8>, offset: nat, block: seq<bv8>, i: nat)
    requires offset + |block| <= |data| && i < |block|
    ensures Write(data, offset, block[..i])[offset + i := block[i]] == Write(data, offset, block[..i + 1])
  {
    var once := Write(data, offset, block[..i]);
    assert once[..offset + i] == data[..offset] + block[..i] && once[offset + i + 1..] == data[offset + i + 1..];
  }

  lemma WriteNothing(data: seq<bv8>, offset: nat)
    requires offset <= |data|
    ensures Write(data, offset, []) == data
  {
  }

  // Only the block that continues the stored prefix is taken over.
  function Store(r: Receiver, offset: nat, block: seq<bv8>): (Receiver, bool) {
    if !Storable(|r.data|, r.next, offset, |block|) then (r, false)
    else if offset == r.next then (Receiver(Write(r.data, offset, block), r.next + |block|), true)
    else (r, true)
  }

  // ----- the buffer

  class Buffer {
    const data: array<bv8>
    var next: nat
    var length: nat

    predicate Valid()
      reads this
    {
      length <= data.Length && next <= data.Length
    }

    function State(): Receiver
      reads this, data
    {
      Receiver(data[..], next)
    }

    constructor (capacity: nat)
      ensures Valid() && data.Length == capacity && next == 0 && length == 0
    {
      data, next, length := new bv8[capacity], 0, 0;
    }

    // The block at `offset` starts at data[offset] and is announced with the returned size.
    method Dispatch(offset: nat, requested: nat) returns (size: Option<nat>)
      requires Valid()
      modifies `next
      ensures size.Some? <==> offset < length
      ensures size.Some? ==> size.value == ServedSize(length, offset, requested) && next == offset + size.value
      ensures size.None? ==> next == old(next)
    {
      if offset < length {
        var n;
        if length < requested {
          n := length;
        } else {
          n := if requested < length - offset then requested else length - offset;
        }
        next := offset + n;
        size := Some(n);
      } else {
        size := None;
      }
    }

    method Handle(offset: nat, block: seq<bv8>) returns (ok: bool)
      requires Valid()
      modifies `next, data
      ensures Valid() && (State(), ok) == Store(old(State()), offset, block)
      ensures ok <==> offset <= old(next) && offset < data.Length && offset + |block| <= data.Length
      ensures if ok && offset == old(next) then
                next == old(next) + |block| && data[..] == old(data[..offset]) + block + old(data[offset + |block|..])
              else next == old(next) && data[..] == old(data[..])
    {
      if offset >= data.Length || |block| > data.Length - offset || offset > next {
        return false;
      }
      if next == offset {
        hide Write;
        WriteNothing(data[..], offset);
        Ends(block);
        for i := 0 to |block|
          invariant next == old(next) && data[..] == Write(old(data[..]), offset, block[..i])
        {
          ghost var before := data[..];
          data[offset + i] := block[i];
          assert data[..] == before[offset + i := block[i]];
          WriteOneMore(old(data[..]), offset, block, i);
        }
        next := next + |block|;
      }
      ok := true;
    }
  }

  // ----- both ends

  // What the receiver holds is the beginning of the payload.
  predicate HoldsPrefix(r: Receiver, payload: seq<bv8>) {
    r.next <= |payload| <= |r.data| && r.data[..r.next] == payload[..r.next]
  }

  // A request that reaches the sender.
  datatype Ask = Ask(offset: nat, requested: nat)

  // The sender has a block for it, and announces its true size.
  predicate Servable(payload: seq<bv8>, a: Ask) {
    a.offset < |payload| && !Overstated(|payload|, a.offset, a.requested)
  }

  function Served(payload: seq<bv8>, a: Ask): (block: seq<bv8>)
    requires Servable(payload, a)
    ensures block == BlockOf(payload, a.offset, a.requested)
  {
    payload[a.offset..a.offset + ServedSize(|payload|, a.offset, a.requested)]
  }

  predicate AllServable(payload: seq<bv8>, asks: seq<Ask>) {
    forall i :: 0 <= i < |asks| ==> Servable(payload, asks[i])
  }

  // Which blocks arrive, in which order and how often, is up to the network.
  function Deliver(r: Receiver, payload: seq<bv8>, asks: seq<Ask>): Receiver
    requires AllServable(payload, asks)
    decreases |asks|
  {
    if asks == [] then r
    else
      var last := asks[|asks| - 1];
      Store(Deliver(r, payload, asks[..|asks| - 1]), last.offset, Served(payload, last)).0
  }

  lemma StoreKeepsPrefix(r: Receiver, payload: seq<bv8>, a: Ask)
    requires HoldsPrefix(r, payload) && Servable(payload, a)
    ensures var u := Store(r, a.offset, Served(payload, a)).0;
            && HoldsPrefix(u, payload) && |u.data| == |r.data| && r.next <= u.next
            && u.next == if r.next == a.offset then a.offset + |Served(payload, a)| else r.next
  {
    var block := Served(payload, a);
    if a.offset == r.next {
      var u := Store(r, a.offset, block).0;
      assert payload[..u.next] == payload[..r.next] + block;
    }
  }

  // Lost, repeated and reordered blocks never corrupt the prefix, and it never shrinks or outgrows the buffer.
  lemma {:induction false} AnyScheduleKeepsPrefix(r: Receiver, payload: seq<bv8>, asks: seq<Ask>)
    requires HoldsPrefix(r, payload) && AllServable(payload, asks)
    ensures var u := Deliver(r, payload, asks);
            HoldsPrefix(u, payload) && |u.data| == |r.data| && r.next <= u.next
    decreases |asks|
  {
    if asks != [] {
      var init, last := asks[..|asks| - 1], asks[|asks| - 1];
      AnyScheduleKeepsPrefix(r, payload, init);
      StoreKeepsPrefix(Deliver(r, payload, init), payload, last);
    }
  }

  // ----- completion

  function Times(q: nat, size: nat): nat {
    q * size
  }

  ghost predicate IsMultiple(x: nat, size: nat) {
    exists q: nat :: x == Times(q, size)
  }

  // Requests for numbered blocks of one size.
  ghost predicate Numbered(payload: seq<bv8>, asks: seq<Ask>, size: nat)
  {
    forall i :: 0 <= i < |asks| ==>
      asks[i].offset < |payload| && IsMultiple(asks[i].offset, size) && asks[i].requested == size
  }

  // Blocks 0, 1, 2, ... arrive in this order at these places of the schedule, with anything in between.
  predicate InOrder(asks: seq<Ask>, places: seq<nat>, size: nat) {
    && (forall k :: 0 <= k < |places| ==> places[k] < |asks| && asks[places[k]].offset == Times(k, size))
    && (forall j, k :: 0 <= j < k < |places| ==> places[j] < places[k])
  }

  lemma NumberedIsServable(payload: seq<bv8>, asks: seq<Ask>, size: nat)
    requires Numbered(payload, asks, size)
    ensures AllServable(payload, asks)
  {
    forall i | 0 <= i < |asks| ensures Servable(payload, asks[i]) {
      var q: nat :| asks[i].offset == Times(q, size);
      AlignedIsExact(|payload|, q, size);
    }
  }

  lemma Beyond(q: nat, m: nat, size: nat)
    requires Times(q, size) > Times(m, size)
    ensures Times(q, size) >= Times(m + 1, size)
  {
    if q <= m {
      TimesOrdered(q, m, size);
    } else {
      TimesOrdered(m + 1, q, size);
    }
  }

  lemma TimesNext(m: nat, size: nat)
    ensures Times(m + 1, size) == Times(m, size) + size
  {
  }

  lemma TimesOrdered(a: nat, b: nat, size: nat)
    requires a <= b
    ensures Times(a, size) <= Times(b, size)
  {
    assert Times(b, size) == Times(a, size) + Times(b - a, size);
  }

  // The stored prefix ends between blocks, or is the whole payload.
  ghost predicate Aligned(r: Receiver, payload: seq<bv8>, size: nat) {
    IsMultiple(r.next, size) || r.next == |payload|
  }

  lemma OneStaysAligned(r: Receiver, payload: seq<bv8>, a: Ask, size: nat)
    requires HoldsPrefix(r, payload) && Aligned(r, payload, size) && Servable(payload, a)
    requires IsMultiple(a.offset, size) && a.requested == size
    ensures Aligned(Store(r, a.offset, Served(payload, a)).0, payload, size)
  {
    StoreKeepsPrefix(r, payload, a);
    hide Times;
    var q: nat :| a.offset == Times(q, size);
    TimesNext(q, size);
  }

  lemma {:induction false} StaysAligned(r: Receiver, payload: seq<bv8>, asks: seq<Ask>, size: nat)
    requires HoldsPrefix(r, payload) && Aligned(r, payload, size)
    requires Numbered(payload, asks, size) && AllServable(payload, asks)
    ensures Aligned(Deliver(r, payload, asks), payload, size)
    decreases |asks|
  {
    if asks != [] {
      hide Aligned, IsMultiple, Store;
      var init, last := asks[..|asks| - 1], asks[|asks| - 1];
      StaysAligned(r, payload, init, size);
      AnyScheduleKeepsPrefix(r, payload, init);
      OneStaysAligned(Deliver(r, payload, init), payload, last, size);
    }
  }

  lemma {:induction false} PrefixFirst(r: Receiver, payload: seq<bv8>, asks: seq<Ask>, k: nat)
    requires HoldsPrefix(r, payload) && k <= |asks| && AllServable(payload, asks)
    ensures Deliver(r, payload, asks[..k]).next <= Deliver(r, payload, asks).next
    decreases |asks|
  {
    if k < |asks| {
      var init, last := asks[..|asks| - 1], asks[|asks| - 1];
      assert init[..k] == asks[..k];
      PrefixFirst(r, payload, init, k);
      AnyScheduleKeepsPrefix(r, payload, init);
      StoreKeepsPrefix(Deliver(r, payload, init), payload, last);
    } else {
      assert asks[..k] == asks;
    }
  }

  // A block that arrives in its turn moves the stored prefix past it.
  lemma OneInTurn(r: Receiver, payload: seq<bv8>, a: Ask, m: nat, size: nat)
    requires HoldsPrefix(r, payload) && Aligned(r, payload, size) && Servable(payload, a)
    requires a.offset == Times(m, size) && a.requested == size && (r.next >= Times(m, size) || r.next == |payload|)
    ensures var u := Store(r, a.offset, Served(payload, a)).0; u.next >= Times(m + 1, size) || u.next == |payload|
  {
    hide Times, HoldsPrefix, Store;
    StoreKeepsPrefix(r, payload, a);
    TimesNext(m, size);
    if r.next != |payload| && r.next > Times(m, size) {
      var q: nat :| r.next == Times(q, size);
      Beyond(q, m, size);
    }
  }

  lemma FirstServable(payload: seq<bv8>, asks: seq<Ask>, i: nat, size: nat)
    requires i <= |asks| && Numbered(payload, asks, size) && AllServable(payload, asks)
    ensures Numbered(payload, asks[..i], size) && AllServable(payload, asks[..i])
  {
  }

  // Block m arrives at place i, when everything before it has arrived.
  lemma InTurnAt(r: Receiver, payload: seq<bv8>, asks: seq<Ask>, i: nat, m: nat, size: nat)
    requires HoldsPrefix(r, payload) && Aligned(r, payload, size) && i < |asks| && asks[i].offset == Times(m, size)
    requires Numbered(payload, asks, size) && AllServable(payload, asks)
    requires AllServable(payload, asks[..i]) && AllServable(payload, asks[..i + 1])
    requires var before := Deliver(r, payload, asks[..i]); before.next >= Times(m, size) || before.next == |payload|
    ensures var u := Deliver(r, payload, asks[..i + 1]); u.next >= Times(m + 1, size) || u.next == |payload|
  {
    hide Times, Aligned, Store, IsMultiple;
    var first := asks[..i];
    AnyScheduleKeepsPrefix(r, payload, first);
    StaysAligned(r, payload, first, size);
    OneInTurn(Deliver(r, payload, first), payload, asks[i], m, size);
    assert asks[..i + 1][..i] == first;
  }

  lemma StillThere(r: Receiver, payload: seq<bv8>, asks: seq<Ask>, k: nat, i: nat, bound: nat)
    requires HoldsPrefix(r, payload) && k <= i <= |asks| && AllServable(payload, asks)
    requires AllServable(payload, asks[..k]) && AllServable(payload, asks[..i])
    requires var u := Deliver(r, payload, asks[..k]); u.next >= bound || u.next == |payload|
    ensures var u := Deliver(r, payload, asks[..i]); u.next >= bound || u.next == |payload|
  {
    assert asks[..i][..k] == asks[..k];
    PrefixFirst(r, payload, asks[..i], k);
    AnyScheduleKeepsPrefix(r, payload, asks[..i]);
  }

  lemma PlaceOf(asks: seq<Ask>, places: seq<nat>, m: nat, size: nat)
    requires InOrder(asks, places, size) && m < |places|
    ensures places[m] < |asks| && asks[places[m]].offset == Times(m, size) && (m > 0 ==> places[m - 1] < places[m])
  {
  }

  // Once block m has arrived at its place, the prefix is past it.
  lemma {:induction false} InTurn(r: Receiver, payload: seq<bv8>, asks: seq<Ask>, places: seq<nat>, m: nat, size: nat)
    requires HoldsPrefix(r, payload) && Aligned(r, payload, size) && m < |places|
    requires Numbered(payload, asks, size) && AllServable(payload, asks) && InOrder(asks, places, size)
    ensures places[m] < |asks| && AllServable(payload, asks[..places[m] + 1])
    ensures var u := Deliver(r, payload, asks[..places[m] + 1]); u.next >= Times(m + 1, size) || u.next == |payload|
    decreases m
  {
    hide *;
    PlaceOf(asks, places, m, size);
    var i := places[m];
    FirstServable(payload, asks, i, size);
    FirstServable(payload, asks, i + 1, size);
    if m > 0 {
      FirstServable(payload, asks, places[m - 1] + 1, size);
      InTurn(r, payload, asks, places, m - 1, size);
      StillThere(r, payload, asks, places[m - 1] + 1, i, Times(m, size));
    } else {
      NothingBefore(size);
    }
    InTurnAt(r, payload, asks, i, m, size);
  }

  lemma NothingBefore(size: nat)
    ensures Times(0, size) == 0 && IsMultiple(0, size)
  {
    assert Times(0, size) == 0;
  }

  // A receiver that starts empty ends with the whole payload once every block has
  // arrived in its turn, whatever else arrived in between.
  lemma EveryBlockMeansComplete(r: Receiver, payload: seq<bv8>, asks: seq<Ask>, places: seq<nat>, size: nat)
    requires r.next == 0 && |payload| <= |r.data|
    requires Numbered(payload, asks, size) && InOrder(asks, places, size) && Times(|places|, size) >= |payload|
    ensures AllServable(payload, asks)
    ensures var u := Deliver(r, payload, asks); u.next == |payload| <= |u.data| && u.data[..u.next] == payload
  {
    StartsEmpty(r, payload, size);
    hide *;
    NumberedIsServable(payload, asks, size);
    AnyScheduleKeepsPrefix(r, payload, asks);
    var u := Deliver(r, payload, asks);
    WithinPayload(u, payload);
    if |places| > 0 {
      var last := |places| - 1;
      InTurn(r, payload, asks, places, last, size);
      PrefixFirst(r, payload, asks, places[last] + 1);
    } else {
      NothingBefore(size);
    }
  }

  lemma StartsEmpty(r: Receiver, payload: seq<bv8>, size: nat)
    requires r.next == 0 && |payload| <= |r.data|
    ensures HoldsPrefix(r, payload) && Aligned(r, payload, size)
  {
    NothingBefore(size);
  }

  lemma WithinPayload(u: Receiver, payload: seq<bv8>)
    requires HoldsPrefix(u, payload)
    ensures u.next <= |payload| <= |u.data|
    ensures u.next == |payload| ==> u.data[..u.next] == payload
  {
    Ends(payload);
  }

  // ----- the block size

  const MAX_HEADER := 111
  const SMALLEST := 16
  const LARGEST := 1024

  function Pow2(i: nat): nat {
    if i == 0 then 1 else 2 * Pow2(i - 1)
  }

  class Settings {
    var mtu: nat
    var blockSize: nat

    constructor ()
      ensures mtu == 2048 + MAX_HEADER && blockSize == LARGEST
    {
      mtu, blockSize := 2048 + MAX_HEADER, LARGEST;
    }

    // The largest power of two from 16 to 1024 that a message has room for.
    method SetMtuSize(size: nat) returns (r: int)
      modifies this
      ensures r == if size < MAX_HEADER + SMALLEST then -1 else 0
      ensures r == -1 ==> mtu == old(mtu) && blockSize == old(blockSize)
      ensures r == 0 ==> (
                && mtu == size && SMALLEST <= blockSize <= LARGEST && (exists i :: 4 <= i <= 10 && blockSize == Pow2(i))
                && blockSize <= size - MAX_HEADER && (blockSize == LARGEST || 2 * blockSize > size - MAX_HEADER))
    {
      if size < MAX_HEADER + SMALLEST {
        return -1;
      }
      mtu := size;
      var room := size - MAX_HEADER;
      var i, power := 10, LARGEST;
      PowersOfTwo();
      while i >= 4 && room / power == 0
        invariant 4 <= i <= 10 && power == Pow2(i) && SMALLEST <= power <= LARGEST
        invariant i == 10 || room < Pow2(i + 1)
      {
        i, power := i - 1, power / 2;
      }
      blockSize := power;
      r := 0;
    }
  }

  lemma PowersOfTwo()
    ensures Pow2(4) == 16 && Pow2(5) == 32 && Pow2(6) == 64 && Pow2(7) == 128 && Pow2(8) == 256
    ensures Pow2(9) == 512 && Pow2(10) == 1024 && Pow2(11) == 2048
  {
  }
}
