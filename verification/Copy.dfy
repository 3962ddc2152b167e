/** The copy scheduler of examples/io_uring-cp.c: its requests, and what the kernel does
with them.

A request is a block of the file. It is first read into a buffer and then written from
it; the kernel completes requests in any order, in full, in part or not at all. Request
ids stand for the addresses of the `io_data` records. The kernel's part is a list of
steps taken during the program's calls.
*/
module Copy {
  import opened Words

  const QD: nat := 64
  const BS: nat := 32768

  /** `struct io_data` and its buffer. `base` is `iov_base` as an index into the buffer
      and `left` is `iov_len`; `reach` is the file position up to which the kernel has
      moved bytes for the current direction. */
  datatype Request = Request(
    read: bool, first: nat, len: nat,
    offset: nat, base: nat, left: nat,
    buf: seq<byte>, reach: nat, freed: bool)

  datatype Cqe = Cqe(id: nat, res: int)

  datatype World = World(
    reqs: seq<Request>,        // every request ever allocated
    sq: seq<nat>,              // queued, not yet consumed by the kernel
    running: multiset<nat>,    // the kernel is working on these
    cq: seq<Cqe>,              // completions the program has not taken
    out: map<nat, byte>)       // the output file

  function Ids(cq: seq<Cqe>): (r: seq<nat>)
    ensures |r| == |cq|
  {
    seq(|cq|, i requires 0 <= i < |cq| => cq[i].id)
  }

  function FileOf(input: seq<byte>): (f: map<nat, byte>) {
    map p: nat | 0 <= p < |input| :: input[p]
  }

  function Last(r: Request): nat { r.first + r.len }

  predicate InBlock(r: Request, p: nat) { r.first <= p < Last(r) }

  /** The output holds the bytes of a block that its write has reached. */
  predicate Written(r: Request, p: nat) { !r.read && p < r.reach }

  predicate Complete(r: Request) { !r.read && r.reach == Last(r) }

  // ---- counting ------------------------------------------------------------

  function Reads(r: Request): nat { if r.read && !r.freed then 1 else 0 }
  function Writes(r: Request): nat { if !r.read && !r.freed then 1 else 0 }
  function Unread(r: Request): nat { if r.read && !r.freed then r.len else 0 }

  function ReadCount(reqs: seq<Request>): nat {
    if reqs == [] then 0 else ReadCount(reqs[..|reqs| - 1]) + Reads(reqs[|reqs| - 1])
  }

  function WriteCount(reqs: seq<Request>): nat {
    if reqs == [] then 0 else WriteCount(reqs[..|reqs| - 1]) + Writes(reqs[|reqs| - 1])
  }

  /** The `first_len` of the reads in flight, added up. */
  function ReadBytes(reqs: seq<Request>): nat {
    if reqs == [] then 0 else ReadBytes(reqs[..|reqs| - 1]) + Unread(reqs[|reqs| - 1])
  }

  function LiveId(r: Request, n: nat): multiset<nat> { if r.freed then multiset{} else multiset{n} }

  function LiveIds(reqs: seq<Request>): multiset<nat> {
    if reqs == [] then multiset{} else LiveIds(reqs[..|reqs| - 1]) + LiveId(reqs[|reqs| - 1], |reqs| - 1)
  }

  lemma {:induction false} LiveOnce(reqs: seq<Request>, id: nat)
    ensures LiveIds(reqs)[id] == if id < |reqs| && !reqs[id].freed then 1 else 0
    decreases |reqs|
  {
    if reqs != [] {
      LiveOnce(reqs[..|reqs| - 1], id);
    }
  }

  lemma {:induction false} LiveSize(reqs: seq<Request>)
    ensures |LiveIds(reqs)| == ReadCount(reqs) + WriteCount(reqs)
    decreases |reqs|
  {
    if reqs != [] {
      LiveSize(reqs[..|reqs| - 1]);
    }
  }

  lemma {:induction false} CountUpdate(reqs: seq<Request>, id: nat, r: Request)
    requires id < |reqs|
    ensures ReadCount(reqs[id := r]) == ReadCount(reqs) - Reads(reqs[id]) + Reads(r)
    ensures WriteCount(reqs[id := r]) == WriteCount(reqs) - Writes(reqs[id]) + Writes(r)
    ensures ReadBytes(reqs[id := r]) == ReadBytes(reqs) - Unread(reqs[id]) + Unread(r)
    decreases |reqs|
  {
    var n := |reqs| - 1;
    if id == n {
      assert reqs[id := r][..n] == reqs[..n];
    } else {
      CountUpdate(reqs[..n], id, r);
      assert reqs[id := r][..n] == reqs[..n][id := r];
    }
  }

  lemma CountAppend(reqs: seq<Request>, r: Request)
    ensures ReadCount(reqs + [r]) == ReadCount(reqs) + Reads(r)
    ensures WriteCount(reqs + [r]) == WriteCount(reqs) + Writes(r)
    ensures ReadBytes(reqs + [r]) == ReadBytes(reqs) + Unread(r)
  {
    assert (reqs + [r])[..|reqs|] == reqs;
  }

  lemma LiveUpdate(reqs: seq<Request>, id: nat, r: Request)
    requires id < |reqs| && !reqs[id].freed
    ensures LiveIds(reqs[id := r]) + (if r.freed then multiset{id} else multiset{}) == LiveIds(reqs)
  {
    var a := LiveIds(reqs[id := r]) + if r.freed then multiset{id} else multiset{};
    var b := LiveIds(reqs);
    forall i: nat ensures a[i] == b[i] {
      LiveOnce(reqs[id := r], i);
      LiveOnce(reqs, i);
    }
    SameCounts(a, b);
  }

  lemma SameCounts(a: multiset<nat>, b: multiset<nat>)
    requires forall i: nat :: a[i] == b[i]
    ensures a == b
  {
  }

  lemma LiveAppend(reqs: seq<Request>, r: Request)
    requires !r.freed
    ensures LiveIds(reqs + [r]) == LiveIds(reqs) + multiset{|reqs|}
  {
    assert (reqs + [r])[..|reqs|] == reqs;
  }

  lemma {:induction false} NoBytesNoReads(reqs: seq<Request>)
    requires ReadBytes(reqs) == 0 && forall i :: 0 <= i < |reqs| ==> reqs[i].len > 0
    ensures forall i :: 0 <= i < |reqs| ==> reqs[i].read ==> reqs[i].freed
    decreases |reqs|
  {
    if reqs != [] {
      NoBytesNoReads(reqs[..|reqs| - 1]);
    }
  }

  // ---- the blocks tile the file --------------------------------------------

  function End(reqs: seq<Request>): nat { if reqs == [] then 0 else Last(reqs[|reqs| - 1]) }

  predicate Tiled(reqs: seq<Request>) {
    forall i :: 0 <= i < |reqs| ==> StartsRight(reqs, i)
  }

  predicate StartsRight(reqs: seq<Request>, i: nat)
    requires i < |reqs|
  {
    reqs[i].first == if i == 0 then 0 else Last(reqs[i - 1])
  }

  lemma TiledUpdate(reqs: seq<Request>, id: nat, r: Request)
    requires Tiled(reqs) && id < |reqs| && r.first == reqs[id].first && r.len == reqs[id].len
    ensures Tiled(reqs[id := r]) && End(reqs[id := r]) == End(reqs)
  {
    var reqs' := reqs[id := r];
    forall i | 0 <= i < |reqs| ensures StartsRight(reqs', i) {
      assert StartsRight(reqs, i);
    }
  }

  lemma TiledAppend(reqs: seq<Request>, r: Request)
    requires Tiled(reqs) && r.first == End(reqs)
    ensures Tiled(reqs + [r]) && End(reqs + [r]) == Last(r)
  {
    forall i | 0 <= i < |reqs| + 1 ensures StartsRight(reqs + [r], i) {
      if i < |reqs| {
        assert StartsRight(reqs, i);
      }
    }
  }

  lemma {:induction false} InOrder(reqs: seq<Request>, i: nat, j: nat)
    requires Tiled(reqs) && i < j < |reqs|
    ensures Last(reqs[i]) <= reqs[j].first
    decreases j
  {
    assert StartsRight(reqs, j);
    if i < j - 1 {
      InOrder(reqs, i, j - 1);
    }
  }

  lemma InsideEnd(reqs: seq<Request>, i: nat)
    requires Tiled(reqs) && i < |reqs|
    ensures Last(reqs[i]) <= End(reqs)
  {
    if i < |reqs| - 1 {
      InOrder(reqs, i, |reqs| - 1);
    }
  }

  lemma Apart(reqs: seq<Request>, i: nat, j: nat, p: nat)
    requires Tiled(reqs) && i < |reqs| && j < |reqs| && InBlock(reqs[i], p) && InBlock(reqs[j], p)
    ensures i == j
  {
    if i < j {
      InOrder(reqs, i, j);
    } else if j < i {
      InOrder(reqs, j, i);
    }
  }

  lemma {:induction false} FindBlock(reqs: seq<Request>, p: nat) returns (i: nat)
    requires Tiled(reqs) && p < End(reqs)
    ensures i < |reqs| && InBlock(reqs[i], p)
    decreases |reqs|
  {
    var n := |reqs| - 1;
    assert StartsRight(reqs, n);
    if reqs[n].first <= p {
      i := n;
    } else {
      forall k | 0 <= k < n ensures StartsRight(reqs[..n], k) {
        assert StartsRight(reqs, k);
      }
      i := FindBlock(reqs[..n], p);
    }
  }

  // ---- the invariant -------------------------------------------------------

  ghost predicate Sane(input: seq<byte>, r: Request) {
    && 0 < r.left <= r.len && r.first <= r.offset
    && r.offset + r.left == Last(r) <= |input|
    && r.base == r.offset - r.first && |r.buf| == r.len
    && r.offset <= r.reach <= Last(r)
    && Loaded(input, r)
  }

  /** The bytes already in the buffer are those of the file. */
  ghost predicate Loaded(input: seq<byte>, r: Request)
    requires r.first <= r.reach <= Last(r) <= |input| && |r.buf| == r.len
  {
    if r.read then r.buf[..r.reach - r.first] == input[r.first..r.reach]
    else r.buf == input[r.first..Last(r)]
  }

  ghost predicate Sound(input: seq<byte>, reqs: seq<Request>) {
    forall i :: 0 <= i < |reqs| ==> Sane(input, reqs[i])
  }

  /** No wrong byte has been written. */
  ghost predicate Right(input: seq<byte>, out: map<nat, byte>) {
    forall p :: p in out ==> p < |input| && out[p] == input[p]
  }

  ghost predicate Accounted(reqs: seq<Request>, out: map<nat, byte>) {
    && (forall i, p :: 0 <= i < |reqs| && InBlock(reqs[i], p) ==> (p in out <==> Written(reqs[i], p)))
    && (forall p :: p in out ==> p < End(reqs))
  }

  /** Every request that has not been freed is in exactly one place: queued, running,
      completed, or in the hands of the program. */
  ghost predicate Owned(w: World, hand: multiset<nat>) {
    multiset(w.sq) + w.running + multiset(Ids(w.cq)) + hand == LiveIds(w.reqs)
  }

  ghost predicate Untouched(reqs: seq<Request>, id: nat) {
    id < |reqs| && reqs[id].reach == reqs[id].offset
  }

  /** What a completion says about its request. */
  ghost predicate Tells(reqs: seq<Request>, e: Cqe) {
    && e.id < |reqs| && e.res <= reqs[e.id].left
    && reqs[e.id].reach == reqs[e.id].offset + (if e.res < 0 then 0 else e.res)
  }

  ghost predicate Reported(w: World) {
    && (forall i :: i in multiset(w.sq) + w.running ==> Untouched(w.reqs, i))
    && (forall k :: 0 <= k < |w.cq| ==> Tells(w.reqs, w.cq[k]))
  }

  ghost predicate Bytes(input: seq<byte>, reqs: seq<Request>, out: map<nat, byte>) {
    Sound(input, reqs) && Tiled(reqs) && Right(input, out) && Accounted(reqs, out)
  }

  ghost predicate Inv(input: seq<byte>, w: World, hand: multiset<nat>) {
    Bytes(input, w.reqs, w.out) && Owned(w, hand) && Reported(w)
  }

  /** The ring has room for whatever the program has in hand. */
  lemma RoomInSq(w: World, hand: multiset<nat>)
    requires Owned(w, hand)
    ensures |w.sq| + |w.running| + |w.cq| + |hand| == ReadCount(w.reqs) + WriteCount(w.reqs)
  {
    LiveSize(w.reqs);
    assert |multiset(w.sq) + w.running + multiset(Ids(w.cq)) + hand| == |LiveIds(w.reqs)|;
  }

  /** A request is in one place only. */
  lemma OnePlace(w: World, hand: multiset<nat>, id: nat)
    requires Owned(w, hand)
    ensures multiset(w.sq)[id] + w.running[id] + multiset(Ids(w.cq))[id] + hand[id]
            == if id < |w.reqs| && !w.reqs[id].freed then 1 else 0
  {
    LiveOnce(w.reqs, id);
    assert (multiset(w.sq) + w.running + multiset(Ids(w.cq)) + hand)[id] == LiveIds(w.reqs)[id];
  }

  // ---- the kernel ----------------------------------------------------------

  datatype KernelStep = Take | Finish(id: nat, res: int)

  /** The request after the kernel has moved `res` bytes for it. */
  function Moved(input: seq<byte>, r: Request, res: nat): Request
    requires r.offset + res <= |input| && r.base + res <= |r.buf|
  {
    r.(reach := r.offset + res,
       buf := if r.read then Patch(r.buf, r.base, input[r.offset..r.offset + res]) else r.buf)
  }

  function Stored(out: map<nat, byte>, r: Request, res: nat): map<nat, byte>
    requires r.base + res <= |r.buf|
  {
    if r.read then out
    else out + map p: nat | r.offset <= p < r.offset + res :: ByteAt(r, p)
  }

  function ByteAt(r: Request, p: nat): byte
    requires r.offset <= p && r.base + (p - r.offset) < |r.buf|
  {
    r.buf[r.base + (p - r.offset)]
  }

  /** The bytes asked for are in the file and in the buffer. */
  predicate CanMove(input: seq<byte>, r: Request, res: int) {
    res <= r.left && r.offset + res <= |input| && r.base + res <= |r.buf|
  }

  /** A step that is not enabled does nothing. */
  function Kernel(input: seq<byte>, w: World, k: KernelStep): World {
    match k
    case Take =>
      if w.sq == [] then w else w.(sq := w.sq[1..], running := w.running + multiset{w.sq[0]})
    case Finish(id, res) =>
      if id in w.running && id < |w.reqs| && CanMove(input, w.reqs[id], res)
      then Posted(Transferred(input, w, id, res), id, res)
      else w
  }

  function Transferred(input: seq<byte>, w: World, id: nat, res: int): World
    requires id < |w.reqs| && CanMove(input, w.reqs[id], res)
  {
    if res < 0 then w
    else
      w.(reqs := w.reqs[id := Moved(input, w.reqs[id], res)], out := Stored(w.out, w.reqs[id], res))
  }

  function Posted(w: World, id: nat, res: int): World {
    w.(running := w.running - multiset{id}, cq := w.cq + [Cqe(id, res)])
  }

  lemma TakeKeeps(input: seq<byte>, w: World, hand: multiset<nat>)
    requires Inv(input, w, hand)
    ensures Inv(input, Kernel(input, w, Take), hand)
  {
    if w.sq != [] {
      FirstRuns(w.sq, w.running);
      TakeReported(w);
    }
  }

  lemma FirstRuns(sq: seq<nat>, running: multiset<nat>)
    requires sq != []
    ensures multiset(sq[1..]) + (running + multiset{sq[0]}) == multiset(sq) + running
  {
    assert sq == [sq[0]] + sq[1..];
  }

  lemma TakeReported(w: World)
    requires Reported(w) && w.sq != []
    ensures Reported(w.(sq := w.sq[1..], running := w.running + multiset{w.sq[0]}))
  {
    FirstRuns(w.sq, w.running);
  }

  lemma MovedSane(input: seq<byte>, r: Request, res: nat)
    requires Sane(input, r) && res <= r.left && r.reach == r.offset
    ensures Sane(input, Moved(input, r, res))
  {
    if r.read {
      var b := Moved(input, r, res).buf;
      assert b[..r.base + res] == r.buf[..r.base] + input[r.offset..r.offset + res];
      assert input[r.first..r.offset] + input[r.offset..r.offset + res] == input[r.first..r.offset + res];
    }
  }

  lemma StoredRight(input: seq<byte>, out: map<nat, byte>, r: Request, res: nat)
    requires Sane(input, r) && res <= r.left && Right(input, out)
    ensures Right(input, Stored(out, r, res))
  {
  }

  lemma StoredAccounted(input: seq<byte>, reqs: seq<Request>, out: map<nat, byte>, id: nat, res: nat)
    requires Sound(input, reqs) && Tiled(reqs) && Accounted(reqs, out) && Untouched(reqs, id)
    requires res <= reqs[id].left
    ensures Accounted(reqs[id := Moved(input, reqs[id], res)], Stored(out, reqs[id], res))
  {
    var r := reqs[id];
    var reqs', out' := reqs[id := Moved(input, r, res)], Stored(out, r, res);
    forall i, p | 0 <= i < |reqs'| && InBlock(reqs'[i], p)
      ensures p in out' <==> Written(reqs'[i], p)
    {
      assert InBlock(reqs[i], p);
      if i != id && InBlock(r, p) {
        Apart(reqs, i, id, p);
      }
    }
    TiledUpdate(reqs, id, Moved(input, r, res));
    InsideEnd(reqs, id);
  }

  /** As `Reported`, but for the request `id`, which has yet to be. */
  ghost predicate ReportedBut(w: World, id: nat) {
    && (forall i :: i in multiset(w.sq) + w.running ==> i == id || Untouched(w.reqs, i))
    && (forall k :: 0 <= k < |w.cq| ==> Tells(w.reqs, w.cq[k]))
  }

  lemma MovedBytes(input: seq<byte>, reqs: seq<Request>, out: map<nat, byte>, id: nat, res: nat)
    requires Bytes(input, reqs, out) && Untouched(reqs, id) && res <= reqs[id].left
    ensures Bytes(input, reqs[id := Moved(input, reqs[id], res)], Stored(out, reqs[id], res))
  {
    MovedSane(input, reqs[id], res);
    StoredRight(input, out, reqs[id], res);
    StoredAccounted(input, reqs, out, id, res);
    TiledUpdate(reqs, id, Moved(input, reqs[id], res));
  }

  lemma TransferredKeeps(input: seq<byte>, w: World, hand: multiset<nat>, id: nat, res: int)
    requires Inv(input, w, hand) && Untouched(w.reqs, id) && !w.reqs[id].freed
    requires CanMove(input, w.reqs[id], res)
    ensures var t := Transferred(input, w, id, res);
            Bytes(input, t.reqs, t.out) && Owned(t, hand)
  {
    if res >= 0 {
      MovedBytes(input, w.reqs, w.out, id, res);
      LiveUpdate(w.reqs, id, Moved(input, w.reqs[id], res));
    }
  }

  lemma TransferredReported(input: seq<byte>, w: World, id: nat, res: int)
    requires Reported(w) && Untouched(w.reqs, id) && CanMove(input, w.reqs[id], res)
    requires multiset(Ids(w.cq))[id] == 0
    ensures ReportedBut(Transferred(input, w, id, res), id)
    ensures Tells(Transferred(input, w, id, res).reqs, Cqe(id, res))
  {
    forall k | 0 <= k < |w.cq| ensures w.cq[k].id != id {
      assert Ids(w.cq)[k] in multiset(Ids(w.cq));
    }
  }

  lemma PostedOwned(w: World, hand: multiset<nat>, id: nat, res: int)
    requires Owned(w, hand) && id in w.running
    ensures Owned(Posted(w, id, res), hand)
  {
    assert Ids(w.cq + [Cqe(id, res)]) == Ids(w.cq) + [id];
    ToCq(multiset(w.sq), w.running, multiset(Ids(w.cq)), hand, id);
  }

  lemma PostedReported(w: World, id: nat, res: int)
    requires ReportedBut(w, id) && Tells(w.reqs, Cqe(id, res))
    requires multiset(w.sq)[id] == 0 && w.running[id] == 1
    ensures Reported(Posted(w, id, res))
  {
    var t := Posted(w, id, res);
    forall i | i in multiset(t.sq) + t.running ensures Untouched(t.reqs, i) {
      assert i in multiset(w.sq) + w.running;
    }
  }

  lemma ToCq(sq: multiset<nat>, running: multiset<nat>, cq: multiset<nat>, hand: multiset<nat>, id: nat)
    requires id in running
    ensures sq + (running - multiset{id}) + (cq + multiset{id}) + hand == sq + running + cq + hand
  {
  }

  lemma PostedKeeps(input: seq<byte>, w: World, hand: multiset<nat>, id: nat, res: int)
    requires Bytes(input, w.reqs, w.out) && Owned(w, hand) && ReportedBut(w, id) && Tells(w.reqs, Cqe(id, res))
    requires multiset(w.sq)[id] == 0 && w.running[id] == 1
    ensures Inv(input, Posted(w, id, res), hand)
  {
    PostedOwned(w, hand, id, res);
    PostedReported(w, id, res);
  }

  lemma FinishKeeps(input: seq<byte>, w: World, hand: multiset<nat>, id: nat, res: int)
    requires Inv(input, w, hand) && id in w.running
    requires id < |w.reqs| && CanMove(input, w.reqs[id], res)
    ensures Inv(input, Posted(Transferred(input, w, id, res), id, res), hand)
  {
    OnePlace(w, hand, id);
    assert id in multiset(w.sq) + w.running;
    assert Untouched(w.reqs, id);
    TransferredKeeps(input, w, hand, id, res);
    TransferredReported(input, w, id, res);
    PostedKeeps(input, Transferred(input, w, id, res), hand, id, res);
  }

  lemma KernelKeeps(input: seq<byte>, w: World, hand: multiset<nat>, k: KernelStep)
    requires Inv(input, w, hand)
    ensures Inv(input, Kernel(input, w, k), hand)
  {
    match k
    case Take => TakeKeeps(input, w, hand);
    case Finish(id, res) =>
      if id in w.running && id < |w.reqs| && CanMove(input, w.reqs[id], res) {
        FinishKeeps(input, w, hand, id, res);
      }
  }

  // ---- the program's steps -------------------------------------------------

  /** `queue_read`: a new request, and an SQE for it. */
  function NewRead(first: nat, len: nat, memory: seq<byte>): Request {
    Request(true, first, len, first, 0, len, memory, first, false)
  }

  function QueueRead(w: World, len: nat, memory: seq<byte>): World {
    w.(reqs := w.reqs + [NewRead(End(w.reqs), len, memory)], sq := w.sq + [|w.reqs|])
  }

  /** `queue_prepped` of a request whose record has become `r`. */
  function Requeue(w: World, id: nat, r: Request): World
    requires id < |w.reqs|
  {
    w.(reqs := w.reqs[id := r], sq := w.sq + [id])
  }

  /** What is left of a request after a short completion. */
  function Rest(r: Request, res: nat): Request
    requires res <= r.left
  {
    r.(base := r.base + res, left := r.left - res, offset := r.offset + res)
  }

  /** `queue_write`: a finished read becomes a write of the same block. */
  function Turned(r: Request): Request {
    r.(read := false, offset := r.first, base := 0, left := r.len, reach := r.first)
  }

  function Free(w: World, id: nat): World
    requires id < |w.reqs|
  {
    w.(reqs := w.reqs[id := w.reqs[id].(freed := true)])
  }

  ghost predicate SameBlock(r: Request, r': Request) {
    && r'.first == r.first && r'.len == r.len
    && (forall p :: InBlock(r, p) ==> (Written(r, p) <==> Written(r', p)))
  }

  lemma BytesUpdate(input: seq<byte>, reqs: seq<Request>, out: map<nat, byte>, id: nat, r: Request)
    requires Bytes(input, reqs, out) && id < |reqs| && SameBlock(reqs[id], r) && Sane(input, r)
    ensures Bytes(input, reqs[id := r], out)
  {
    TiledUpdate(reqs, id, r);
    var reqs' := reqs[id := r];
    forall i, p | 0 <= i < |reqs'| && InBlock(reqs'[i], p) ensures p in out <==> Written(reqs'[i], p) {
      assert InBlock(reqs[i], p);
    }
  }

  /** Queueing the request in hand again, in any consistent shape. */
  lemma RequeueKeeps(input: seq<byte>, w: World, id: nat, r: Request)
    requires Inv(input, w, multiset{id}) && id < |w.reqs|
    requires SameBlock(w.reqs[id], r) && Sane(input, r) && !r.freed && r.reach == r.offset
    ensures Inv(input, Requeue(w, id, r), multiset{})
  {
    OnePlace(w, multiset{id}, id);
    BytesUpdate(input, w.reqs, w.out, id, r);
    LiveUpdate(w.reqs, id, r);
    HandToSq(w.sq, w.running, multiset(Ids(w.cq)), id);
    RequeueReported(w, id, r);
  }

  lemma HandToSq(sq: seq<nat>, running: multiset<nat>, cq: multiset<nat>, id: nat)
    ensures multiset(sq + [id]) + running + cq + multiset{} == multiset(sq) + running + cq + multiset{id}
  {
  }

  lemma RequeueReported(w: World, id: nat, r: Request)
    requires Reported(w) && id < |w.reqs| && r.reach == r.offset
    requires multiset(w.sq)[id] == 0 && w.running[id] == 0 && multiset(Ids(w.cq))[id] == 0
    ensures Reported(Requeue(w, id, r))
  {
    var t := Requeue(w, id, r);
    forall i | i in multiset(t.sq) + t.running ensures Untouched(t.reqs, i) {
      assert i == id || i in multiset(w.sq) + w.running;
    }
    CqesApart(w.cq, id);
  }

  lemma CqesApart(cq: seq<Cqe>, id: nat)
    requires multiset(Ids(cq))[id] == 0
    ensures forall k :: 0 <= k < |cq| ==> cq[k].id != id
  {
    forall k | 0 <= k < |cq| ensures cq[k].id != id {
      assert Ids(cq)[k] in multiset(Ids(cq));
    }
  }

  lemma FreeKeeps(input: seq<byte>, w: World, id: nat)
    requires Inv(input, w, multiset{id}) && id < |w.reqs|
    ensures Inv(input, Free(w, id), multiset{})
  {
    OnePlace(w, multiset{id}, id);
    var r := w.reqs[id].(freed := true);
    BytesUpdate(input, w.reqs, w.out, id, r);
    LiveUpdate(w.reqs, id, r);
    FreeOwned(multiset(w.sq) + w.running + multiset(Ids(w.cq)), LiveIds(w.reqs[id := r]), id);
    FreeReported(w, id);
  }

  lemma FreeReported(w: World, id: nat)
    requires Reported(w) && id < |w.reqs|
    ensures Reported(Free(w, id))
  {
    var t := Free(w, id);
    forall k | 0 <= k < |t.cq| ensures Tells(t.reqs, t.cq[k]) {
      assert Tells(w.reqs, w.cq[k]);
    }
    forall i | i in multiset(t.sq) + t.running ensures Untouched(t.reqs, i) {
      assert Untouched(w.reqs, i);
    }
  }

  lemma FreeOwned(places: multiset<nat>, live: multiset<nat>, id: nat)
    requires places + multiset{id} == live + multiset{id}
    ensures places + multiset{} == live
  {
    forall i: nat ensures places[i] == live[i] {
      assert (places + multiset{id})[i] == (live + multiset{id})[i];
    }
    SameCounts(places, live);
    assert places + multiset{} == places;
  }

  lemma QueueReadKeeps(input: seq<byte>, w: World, len: nat, memory: seq<byte>)
    requires Inv(input, w, multiset{}) && 0 < len == |memory| && End(w.reqs) + len <= |input|
    ensures Inv(input, QueueRead(w, len, memory), multiset{})
    ensures End(QueueRead(w, len, memory).reqs) == End(w.reqs) + len
  {
    var r := NewRead(End(w.reqs), len, memory);
    TiledAppend(w.reqs, r);
    BytesAppend(input, w.reqs, w.out, r);
    AppendOwned(w, r);
    AppendReported(w, r);
  }

  lemma AppendOwned(w: World, r: Request)
    requires Owned(w, multiset{}) && !r.freed
    ensures Owned(w.(reqs := w.reqs + [r], sq := w.sq + [|w.reqs|]), multiset{})
  {
    LiveAppend(w.reqs, r);
    HandToSq(w.sq, w.running, multiset(Ids(w.cq)), |w.reqs|);
  }

  lemma BytesAppend(input: seq<byte>, reqs: seq<Request>, out: map<nat, byte>, r: Request)
    requires Bytes(input, reqs, out) && r.read && r.first == End(reqs) && Sane(input, r)
    ensures Bytes(input, reqs + [r], out)
  {
    TiledAppend(reqs, r);
    var reqs' := reqs + [r];
    forall i, p | 0 <= i < |reqs'| && InBlock(reqs'[i], p) ensures p in out <==> Written(reqs'[i], p) {
      if i < |reqs| {
        assert InBlock(reqs[i], p);
      }
    }
  }

  lemma AppendReported(w: World, r: Request)
    requires Reported(w) && r.reach == r.offset
    ensures Reported(w.(reqs := w.reqs + [r], sq := w.sq + [|w.reqs|]))
  {
    var t := w.(reqs := w.reqs + [r], sq := w.sq + [|w.reqs|]);
    forall i | i in multiset(t.sq) + t.running ensures Untouched(t.reqs, i) {
      if i != |w.reqs| {
        assert i in multiset(w.sq) + w.running;
      }
    }
  }
}
