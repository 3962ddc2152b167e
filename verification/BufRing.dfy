/** A provided-buffer ring (`struct io_uring_buf_ring`), byte by byte.

An entry is sixteen bytes: addr (8), len (4), bid (2) and two reserved bytes. The
ring's 16-bit tail occupies the reserved bytes of entry 0. Numbers are stored
little-endian.
*/
module BufRing {
  import opened Words

  datatype Buf = Buf(addr: nat, len: nat, bid: nat)

  ghost predicate BufOk(b: Buf) { b.addr < TWO64 && b.len < TWO32 && b.bid < TWO16 }

  const ENTRY: nat := 16
  const TAIL_AT: nat := 14

  // ---- bytes ---------------------------------------------------------------

  function Bytes(x: nat, n: nat): (r: seq<byte>)
    ensures |r| == n
    decreases n
  {
    if n == 0 then [] else [x % 256] + Bytes(x / 256, n - 1)
  }

  function Number(s: seq<byte>): nat
    decreases |s|
  {
    if s == [] then 0 else s[0] + 256 * Number(s[1..])
  }

  function Range(n: nat): (r: nat)
    ensures r > 0
  {
    if n == 0 then 1 else 256 * Range(n - 1)
  }

  lemma {:induction false} NumberOfBytes(x: nat, n: nat)
    requires x < Range(n)
    ensures Number(Bytes(x, n)) == x
    decreases n
  {
    if n > 0 {
      assert x / 256 < Range(n - 1);
      NumberOfBytes(x / 256, n - 1);
      assert Bytes(x, n)[1..] == Bytes(x / 256, n - 1);
    }
  }

  lemma Ranges()
    ensures Range(2) == TWO16 && Range(4) == TWO32 && Range(8) == TWO64
  {
    assert Range(4) == 256 * 256 * Range(2);
    assert Range(6) == 256 * 256 * Range(4);
    assert Range(8) == 256 * 256 * Range(6);
  }

  lemma PatchTwice(m: seq<byte>, at: nat, s: seq<byte>, t: seq<byte>)
    requires at + |s| + |t| <= |m|
    ensures Patch(Patch(m, at, s), at + |s|, t) == Patch(m, at, s + t)
  {
  }

  lemma PatchElsewhere(m: seq<byte>, at: nat, s: seq<byte>, from: nat, to: nat)
    requires at + |s| <= |m| && from <= to <= |m| && (to <= at || at + |s| <= from)
    ensures Patch(m, at, s)[from..to] == m[from..to]
  {
  }

  lemma PatchWithin(m: seq<byte>, at: nat, s: seq<byte>, from: nat, to: nat)
    requires at + |s| <= |m| && at <= from <= to <= at + |s|
    ensures Patch(m, at, s)[from..to] == s[from - at..to - at]
  {
  }

  // ---- entries and the tail ------------------------------------------------

  function Image(b: Buf): (r: seq<byte>)
    ensures |r| == 14
  {
    Bytes(b.addr, 8) + Bytes(b.len, 4) + Bytes(b.bid, 2)
  }

  function Entry(m: seq<byte>, i: nat): Buf
    requires ENTRY * i + ENTRY <= |m|
  {
    var at := ENTRY * i;
    Buf(Number(m[at..at + 8]), Number(m[at + 8..at + 12]), Number(m[at + 12..at + 14]))
  }

  function PutEntry(m: seq<byte>, i: nat, b: Buf): (r: seq<byte>)
    requires ENTRY * i + ENTRY <= |m|
    ensures |r| == |m|
  {
    Patch(m, ENTRY * i, Image(b))
  }

  function TailWord(m: seq<byte>): nat
    requires ENTRY <= |m|
  {
    Number(m[TAIL_AT..TAIL_AT + 2])
  }

  function PutTail(m: seq<byte>, t: u16): (r: seq<byte>)
    requires ENTRY <= |m|
    ensures |r| == |m|
  {
    Patch(m, TAIL_AT, Bytes(t, 2))
  }

  lemma EntryOfPut(m: seq<byte>, i: nat, b: Buf)
    requires ENTRY * i + ENTRY <= |m| && BufOk(b)
    ensures Entry(PutEntry(m, i, b), i) == b
  {
    Ranges();
    var at := ENTRY * i;
    var s := Image(b);
    PatchWithin(m, at, s, at, at + 8);
    PatchWithin(m, at, s, at + 8, at + 12);
    PatchWithin(m, at, s, at + 12, at + 14);
    assert s[0..8] == Bytes(b.addr, 8) && s[8..12] == Bytes(b.len, 4) && s[12..14] == Bytes(b.bid, 2);
    NumberOfBytes(b.addr, 8);
    NumberOfBytes(b.len, 4);
    NumberOfBytes(b.bid, 2);
  }

  /** Writing an entry touches no other entry, and never the tail, entry 0 included. */
  lemma PutLeavesTheRest(m: seq<byte>, i: nat, j: nat, b: Buf)
    requires ENTRY * i + ENTRY <= |m| && ENTRY * j + ENTRY <= |m|
    ensures i != j ==> Entry(PutEntry(m, i, b), j) == Entry(m, j)
    ensures TailWord(PutEntry(m, i, b)) == TailWord(m)
  {
    if i != j {
      PatchLeavesEntry(m, ENTRY * i, Image(b), j);
    }
    PatchElsewhere(m, ENTRY * i, Image(b), TAIL_AT, TAIL_AT + 2);
  }

  lemma PatchLeavesEntry(m: seq<byte>, at: nat, s: seq<byte>, j: nat)
    requires at + |s| <= |m| && ENTRY * j + ENTRY <= |m|
    requires ENTRY * j + 14 <= at || at + |s| <= ENTRY * j
    ensures Entry(Patch(m, at, s), j) == Entry(m, j)
  {
    var other := ENTRY * j;
    PatchElsewhere(m, at, s, other, other + 8);
    PatchElsewhere(m, at, s, other + 8, other + 12);
    PatchElsewhere(m, at, s, other + 12, other + 14);
  }

  /** Storing the tail changes no addr, len or bid of any entry. */
  lemma TailLeavesEntries(m: seq<byte>, t: u16, j: nat)
    requires ENTRY <= |m| && ENTRY * j + ENTRY <= |m|
    ensures Entry(PutTail(m, t), j) == Entry(m, j)
    ensures TailWord(PutTail(m, t)) == t
  {
    Ranges();
    var s := Bytes(t, 2);
    PatchLeavesEntry(m, TAIL_AT, s, j);
    PatchWithin(m, TAIL_AT, s, TAIL_AT, TAIL_AT + 2);
    NumberOfBytes(t, 2);
  }

  // ---- a ring of slots -----------------------------------------------------

  /** The slot of a position in a ring of `n`: the remainder. */
  function SlotOf(pos: nat, n: nat): (i: nat)
    requires n > 0
    ensures i < n
  {
    if pos < n then pos else SlotOf(pos - n, n)
  }

  lemma {:induction false} SlotIsRemainder(pos: nat, n: nat)
    requires n > 0
    ensures SlotOf(pos, n) == pos % n
  {
    if pos < n {
      ModIs(pos, n, 0, pos);
    } else {
      SlotIsRemainder(pos - n, n);
      ModNext(pos - n, n);
    }
  }

  /** The slots at positions `head` to `tail`, oldest first. */
  function Between<T>(slots: seq<T>, head: nat, tail: nat): (q: seq<T>)
    requires |slots| > 0 && head <= tail
    ensures |q| == tail - head
  {
    seq(tail - head, i requires 0 <= i => SlotAt(slots, head + i))
  }

  function SlotAt<T>(slots: seq<T>, pos: nat): T
    requires |slots| > 0
  {
    slots[SlotOf(pos, |slots|)]
  }

  function Stage<T>(slots: seq<T>, tail: nat, xs: seq<T>): (r: seq<T>)
    requires |slots| > 0
    ensures |r| == |slots|
    decreases |xs|
  {
    if xs == [] then slots
    else
      var n := |xs| - 1;
      Stage(slots, tail, xs[..n])[SlotOf(tail + n, |slots|) := xs[n]]
  }

  lemma StageStep<T>(slots: seq<T>, tail: nat, xs: seq<T>)
    requires |slots| > 0 && xs != []
    ensures Stage(slots, tail, xs)
            == Stage(slots, tail, xs[..|xs| - 1])[SlotOf(tail + |xs| - 1, |slots|) := xs[|xs| - 1]]
  {
  }

  lemma UpdateBehind<T>(slots: seq<T>, head: nat, tail: nat, x: T)
    requires |slots| > 0 && head <= tail < head + |slots|
    ensures Between(slots[SlotOf(tail, |slots|) := x], head, tail) == Between(slots, head, tail)
    ensures Between(slots[SlotOf(tail, |slots|) := x], head, tail + 1) == Between(slots, head, tail) + [x]
  {
    var n := |slots|;
    var s := slots[SlotOf(tail, n) := x];
    forall p | head <= p < tail ensures SlotAt(s, p) == SlotAt(slots, p) {
      DistinctMod(p, tail, n);
      SlotIsRemainder(p, n);
      SlotIsRemainder(tail, n);
    }
    assert SlotAt(s, tail) == x;
    var q, r := Between(slots, head, tail), Between(s, head, tail + 1);
    assert forall i :: 0 <= i < |q| ==> r[i] == SlotAt(s, head + i) == q[i];
    assert r[|q|] == SlotAt(s, head + |q|);
  }

  /** Staging behind the tail appends, and leaves what is in front of it alone. */
  lemma {:induction false} StageAppends<T>(slots: seq<T>, head: nat, tail: nat, xs: seq<T>)
    requires |slots| > 0 && head <= tail && tail + |xs| <= head + |slots|
    ensures Between(Stage(slots, tail, xs), head, tail) == Between(slots, head, tail)
    ensures Between(Stage(slots, tail, xs), head, tail + |xs|) == Between(slots, head, tail) + xs
    decreases |xs|
  {
    if xs == [] {
      assert Between(slots, head, tail) + xs == Between(slots, head, tail);
    } else {
      var n := |xs| - 1;
      StageAppends(slots, head, tail, xs[..n]);
      var s := Stage(slots, tail, xs[..n]);
      UpdateBehind(s, head, tail + n, xs[n]);
      var t := s[SlotOf(tail + n, |slots|) := xs[n]];
      assert Between(t, head, tail) == Between(t, head, tail + n)[..tail - head];
      assert Between(s, head, tail) == Between(s, head, tail + n)[..tail - head];
      assert xs[..n] + [xs[n]] == xs;
      assert (Between(slots, head, tail) + xs[..n]) + [xs[n]] == Between(slots, head, tail) + xs;
    }
  }

  lemma BetweenFirst<T>(slots: seq<T>, head: nat, tail: nat)
    requires |slots| > 0 && head < tail
    ensures Between(slots, head, tail) == [SlotAt(slots, head)] + Between(slots, head + 1, tail)
  {
    var q, r := Between(slots, head, tail), Between(slots, head + 1, tail);
    forall i | 0 <= i < |r| ensures q[i + 1] == r[i] {
      assert head + (i + 1) == (head + 1) + i;
    }
  }

  // ---- the ring ------------------------------------------------------------

  datatype Ring = Ring(
    order: nat,          // 2^order entries, at most 32768
    mem: seq<byte>,
    // history
    head: nat,           // what the kernel has consumed
    tail: nat)           // what has been made visible to it

  function Entries(r: Ring): nat { Pow2(r.order) }

  ghost predicate Inv(r: Ring) {
    && r.order <= 15
    && |r.mem| == ENTRY * Entries(r)
    && TailWord(r.mem) == U16(r.tail)
    && r.head <= r.tail <= r.head + Entries(r)
  }

  /** The entries of the ring, decoded. */
  function Slots(m: seq<byte>, n: nat): (s: seq<Buf>)
    requires |m| == ENTRY * n
    ensures |s| == n
  {
    seq(n, i requires 0 <= i < n => Entry(m, i))
  }

  /** The buffers the kernel can pick, oldest first. */
  function Queue(r: Ring): (q: seq<Buf>)
    requires Inv(r)
    ensures |q| == r.tail - r.head
  {
    Between(Slots(r.mem, Entries(r)), r.head, r.tail)
  }

  /** `io_uring_buf_ring_add`: the entry `offset` places behind the tail is filled in. */
  function Add(r: Ring, b: Buf, offset: nat): Ring
    requires |r.mem| == ENTRY * Entries(r)
  {
    AddAt(r, b, SlotOf(r.tail + offset, Entries(r)))
  }

  function AddAt(r: Ring, b: Buf, i: nat): Ring
    requires |r.mem| == ENTRY * Entries(r) && i < Entries(r)
  {
    r.(mem := PutEntry(r.mem, i, b))
  }

  /** `io_uring_buf_ring_advance`. */
  function Advance(r: Ring, count: nat): Ring
    requires Inv(r)
  {
    r.(mem := PutTail(r.mem, U16(TailWord(r.mem) + count)), tail := r.tail + count)
  }

  /** The kernel picks the oldest buffer. */
  function Pick(r: Ring): Ring { r.(head := r.head + 1) }

  /** The masked sum of the 16-bit tail and an offset selects the slot of the position. */
  lemma AddressesSlot(r: Ring, offset: nat)
    requires Inv(r)
    ensures And(TailWord(r.mem) + offset, Entries(r) - 1) == SlotOf(r.tail + offset, Entries(r))
  {
    SlotOfSum(r.tail, offset, r.order, Entries(r));
  }

  lemma SlotOfSum(tail: nat, offset: nat, order: nat, n: nat)
    requires order <= 16 && n == Pow2(order)
    ensures And(U16(tail) + offset, n - 1) == SlotOf(tail + offset, n)
  {
    MaskedSum(tail, offset, order);
    SlotIsRemainder(tail + offset, n);
  }

  lemma SlotsOfPut(m: seq<byte>, n: nat, i: nat, b: Buf)
    requires |m| == ENTRY * n && i < n && BufOk(b)
    ensures Slots(PutEntry(m, i, b), n) == Slots(m, n)[i := b]
    ensures TailWord(PutEntry(m, i, b)) == TailWord(m)
  {
    EntryOfPut(m, i, b);
    PutLeavesTheRest(m, i, 0, b);
    forall j | 0 <= j < n && j != i ensures Entry(PutEntry(m, i, b), j) == Entry(m, j) {
      PutLeavesTheRest(m, i, j, b);
    }
  }

  lemma SlotsOfPutTail(m: seq<byte>, n: nat, t: u16)
    requires |m| == ENTRY * n && n > 0
    ensures Slots(PutTail(m, t), n) == Slots(m, n)
    ensures TailWord(PutTail(m, t)) == t
  {
    TailLeavesEntries(m, t, 0);
    forall j | 0 <= j < n ensures Entry(PutTail(m, t), j) == Entry(m, j) {
      TailLeavesEntries(m, t, j);
    }
  }

  lemma AddAtKeeps(r: Ring, b: Buf, i: nat, e: nat)
    requires Inv(r) && BufOk(b) && e == Entries(r) && i < e
    ensures Inv(AddAt(r, b, i))
    ensures Slots(AddAt(r, b, i).mem, e) == Slots(r.mem, e)[i := b]
  {
    SlotsOfPut(r.mem, e, i, b);
  }

  lemma AddKeeps(r: Ring, b: Buf, offset: nat)
    requires Inv(r) && BufOk(b)
    ensures Inv(Add(r, b, offset))
    ensures Slots(Add(r, b, offset).mem, Entries(r))
            == Slots(r.mem, Entries(r))[SlotOf(r.tail + offset, Entries(r)) := b]
  {
    var e := Entries(r);
    var i := SlotOf(r.tail + offset, e);
    AddAtKeeps(r, b, i, e);
    assert Add(r, b, offset) == AddAt(r, b, i);
  }

  lemma AdvanceKeeps(r: Ring, count: nat)
    requires Inv(r) && r.tail + count <= r.head + Entries(r)
    ensures Inv(Advance(r, count))
    ensures Slots(Advance(r, count).mem, Entries(r)) == Slots(r.mem, Entries(r))
  {
    HalfWordNext(r.tail, count);
    SlotsOfPutTail(r.mem, Entries(r), U16(r.tail + count));
  }

  ghost predicate AllOk(bufs: seq<Buf>) { forall i :: 0 <= i < |bufs| ==> BufOk(bufs[i]) }

  /** Adding at offsets 0, 1, ... as a caller does before it advances. */
  function AddAll(r: Ring, bufs: seq<Buf>): (s: Ring)
    requires Inv(r) && AllOk(bufs)
    ensures Inv(s) && s == r.(mem := s.mem)
    decreases |bufs|
  {
    if bufs == [] then r
    else
      var n := |bufs| - 1;
      var s := AddAll(r, bufs[..n]);
      AddKeeps(s, bufs[n], n);
      Add(s, bufs[n], n)
  }

  lemma {:induction false} AddAllStages(r: Ring, bufs: seq<Buf>, e: nat, slots: seq<Buf>)
    requires Inv(r) && AllOk(bufs) && e == Entries(r) && slots == Slots(r.mem, e)
    ensures Slots(AddAll(r, bufs).mem, e) == Stage(slots, r.tail, bufs)
    decreases |bufs|
  {
    if bufs != [] {
      var n := |bufs| - 1;
      AddAllStages(r, bufs[..n], e, slots);
      AddAllStep(r, bufs);
      StageStep(slots, r.tail, bufs);
      var s := AddAll(r, bufs[..n]);
      AddSlots(s, bufs[n], n, e, Stage(slots, r.tail, bufs[..n]));
    }
  }

  lemma AddSlots(r: Ring, b: Buf, offset: nat, e: nat, slots: seq<Buf>)
    requires Inv(r) && BufOk(b) && e == Entries(r) && slots == Slots(r.mem, e)
    ensures Inv(Add(r, b, offset))
    ensures Slots(Add(r, b, offset).mem, e) == slots[SlotOf(r.tail + offset, e) := b]
  {
    AddKeeps(r, b, offset);
  }

  lemma AddAllStep(r: Ring, bufs: seq<Buf>)
    requires Inv(r) && AllOk(bufs) && bufs != []
    ensures AddAll(r, bufs) == Add(AddAll(r, bufs[..|bufs| - 1]), bufs[|bufs| - 1], |bufs| - 1)
  {
  }

  /** The ring refines a queue: buffers added at offsets 0 to k - 1 and then advanced
      over by k are appended in order; what was waiting stays as it was. */
  lemma AppendsInOrder(r: Ring, bufs: seq<Buf>)
    requires Inv(r) && AllOk(bufs) && r.tail + |bufs| <= r.head + Entries(r)
    ensures Queue(AddAll(r, bufs)) == Queue(r)
    ensures Inv(Advance(AddAll(r, bufs), |bufs|))
    ensures Queue(Advance(AddAll(r, bufs), |bufs|)) == Queue(r) + bufs
  {
    AddAllStages(r, bufs, Entries(r), Slots(r.mem, Entries(r)));
    StageAppends(Slots(r.mem, Entries(r)), r.head, r.tail, bufs);
    AdvanceKeeps(AddAll(r, bufs), |bufs|);
  }

  /** The kernel takes the oldest buffer and nothing else. */
  lemma PicksOldest(r: Ring)
    requires Inv(r) && r.head < r.tail
    ensures Inv(Pick(r)) && Queue(r) == [Queue(r)[0]] + Queue(Pick(r))
  {
    var slots := Slots(r.mem, Entries(r));
    BetweenFirst(slots, r.head, r.tail);
    assert Queue(Pick(r)) == Between(slots, r.head + 1, r.tail);
  }

  // ---- io_uring_buf_ring_available -----------------------------------------

  /** `br->tail - head`: the tail is promoted, the subtraction is unsigned, the result
      is converted to `int`. */
  function Available(tailWord: u16, head: u32): int {
    var d := Sub32(tailWord, head);
    if d < 0x8000_0000 then d else d - TWO32
  }

  /** The count is exact if and only if the 16-bit tail has not wrapped past the head. */
  lemma AvailableIffNotWrapped(r: Ring)
    requires Inv(r)
    ensures Available(U16(r.tail), U16(r.head)) == |Queue(r)| <==> U16(r.head) <= U16(r.tail)
  {
    Pow2Values();
    Pow2Monotone(r.order, 15);
    AvailableWords(r.head, r.tail);
  }

  lemma AvailableWords(head: nat, tail: nat)
    requires head <= tail <= head + TWO16
    ensures U16(head) <= U16(tail) ==> Available(U16(tail), U16(head)) == U16(tail) - U16(head)
    ensures U16(head) > U16(tail) ==> Available(U16(tail), U16(head)) == U16(tail) - U16(head) < 0
    ensures tail < head + TWO16 && U16(head) <= U16(tail) ==> Available(U16(tail), U16(head)) == tail - head
  {
  }

  lemma AvailableAfterWrap()
    ensures var r := Ring(0, PutTail(seq(16, _ => 0), 0), 65535, 65536);
            Inv(r) && |Queue(r)| == 1 && Available(U16(r.tail), U16(r.head)) == -65535
  {
    TailLeavesEntries(seq(16, _ => 0), 0, 0);
  }

  // ---- in place ------------------------------------------------------------

  /** The ring in the memory it is registered with. */
  class BufferRing {
    const order: nat
    const mem: array<byte>
    ghost var head: nat
    ghost var tail: nat

    ghost function State(): Ring
      reads this, mem
    {
      Ring(order, mem[..], head, tail)
    }

    ghost predicate Valid()
      reads this, mem
    {
      Inv(State())
    }

    /** `io_uring_buf_ring_init` on a fresh mapping. */
    constructor (order: nat, mem: array<byte>)
      requires order <= 15 && mem.Length == ENTRY * Pow2(order)
      modifies mem
      ensures Valid() && this.order == order && this.mem == mem && Queue(State()) == []
    {
      this.order := order;
      this.mem := mem;
      head, tail := 0, 0;
      new;
      OrderFits(order);
      TailLeavesEntries(mem[..], 0, 0);
      StoreBytes(mem, TAIL_AT, Bytes(0, 2));
    }

    /** `io_uring_buf_ring_add`. */
    method AddBuf(b: Buf, offset: nat)
      requires Valid() && BufOk(b)
      modifies mem
      ensures Valid() && State() == Add(old(State()), b, offset)
    {
      var i := IndexOf(offset);
      StoreAt(i, b);
    }

    /** `(br->tail + buf_offset) & mask`, with `mask == entries - 1`. */
    method IndexOf(offset: nat) returns (i: nat)
      requires Valid()
      ensures i == SlotOf(tail + offset, Pow2(order))
    {
      AddressesSlot(State(), offset);
      i := And(ReadTail() + offset, Pow2(order) - 1);
    }

    method StoreAt(i: nat, b: Buf)
      requires Valid() && BufOk(b) && i < Pow2(order)
      modifies mem
      ensures Valid() && State() == AddAt(old(State()), b, i)
    {
      AddAtKeeps(State(), b, i, Pow2(order));
      StoreEntry(mem, ENTRY * i, b);
    }

    /** `io_uring_buf_ring_advance`; the caller has filled in `count` free entries. */
    method AdvanceTail(count: nat)
      requires Valid() && tail + count <= head + Pow2(order)
      modifies this, mem
      ensures Valid() && State() == Advance(old(State()), count)
    {
      AdvanceKeeps(State(), count);
      var newTail := U16(ReadTail() + count);
      StoreBytes(mem, TAIL_AT, Bytes(newTail, 2));
      tail := tail + count;
    }

    function ReadTail(): (t: nat)
      requires Valid()
      reads this, mem
      ensures t == TailWord(mem[..])
    {
      OrderFits(order);
      assert mem[TAIL_AT..TAIL_AT + 2] == mem[..][TAIL_AT..TAIL_AT + 2];
      Number(mem[TAIL_AT..TAIL_AT + 2])
    }
  }

  method StoreBytes(m: array<byte>, at: nat, s: seq<byte>)
    requires at + |s| <= m.Length
    modifies m
    ensures m[..] == Patch(old(m[..]), at, s)
  {
    for i := 0 to |s|
      invariant forall k :: 0 <= k < i ==> m[at + k] == s[k]
      invariant forall k :: 0 <= k < m.Length && !(at <= k < at + i) ==> m[k] == old(m[k])
    {
      m[at + i] := s[i];
    }
  }

  /** `buf->addr = ...; buf->len = ...; buf->bid = ...` */
  method StoreEntry(m: array<byte>, at: nat, b: Buf)
    requires at + 14 <= m.Length
    modifies m
    ensures m[..] == Patch(old(m[..]), at, Image(b))
  {
    ghost var before := m[..];
    StoreBytes(m, at, Bytes(b.addr, 8));
    StoreBytes(m, at + 8, Bytes(b.len, 4));
    StoreBytes(m, at + 12, Bytes(b.bid, 2));
    PatchTwice(before, at, Bytes(b.addr, 8), Bytes(b.len, 4));
    PatchTwice(before, at, Bytes(b.addr, 8) + Bytes(b.len, 4), Bytes(b.bid, 2));
  }
}
