/** The echo server itself: its context, its handlers and its event loop, over a real
provided-buffer ring. The ownership balance of `Echo` is what entitles the handlers
to write into that ring.
*/
module EchoServer {
  import opened Common
  import opened Words
  import opened Echo
  import B = BufRing
  import C = Cmsg

  function Ids(q: seq<B.Buf>): (r: seq<nat>)
    ensures |r| == |q|
  {
    seq(|q|, i requires 0 <= i < |q| => q[i].bid)
  }

  /** What happens in one turn of the event loop: kernel steps during
      `io_uring_submit_and_wait`, its return value, the size of the batch that
      `io_uring_peek_batch_cqe` returns, and what happens around each completion. */
  datatype Turn = Turn(before: seq<KernelStep>, ret: int, batch: nat, around: nat -> (seq<KernelStep>, Meanwhile))

  /** `ctx->send[idx]`: the address and length of the payload, and those of the name. */
  datatype Outgoing = Outgoing(payload: nat, length: nat, name: nat, namelen: nat)

  function ReplyTo(b: B.Buf, e: Cqe): Outgoing {
    Outgoing(b.addr + C.PayloadOffset(NAMELEN, CONTROLLEN), C.PayloadLength(e.res, NAMELEN, CONTROLLEN),
             b.addr + C.OUT_SIZE, e.namelen)
  }

  /** The reply is the received payload, from the end of the name area to the last byte
      received, and its name lies in the name area before it. */
  lemma ReplyIsPayload(b: B.Buf, e: Cqe)
    requires C.Validate(e.res, NAMELEN, CONTROLLEN) && e.res < 0x8000_0000 && e.namelen <= NAMELEN
    ensures var r := ReplyTo(b, e);
            && r.payload + r.length == b.addr + e.res
            && b.addr <= r.name && r.name + r.namelen <= r.payload
  {
    C.PayloadEndsBufferIff(e.res, NAMELEN, CONTROLLEN);
  }

  ghost predicate SameMessage(before: map<nat, Outgoing>, after: map<nat, Outgoing>, i: nat) {
    (i in before <==> i in after) && (i in before ==> before[i] == after[i])
  }

  /** The sends that are queued or running in `s` have the messages they had. */
  ghost predicate MessagesKept(s: State, before: map<nat, Outgoing>, after: map<nat, Outgoing>) {
    forall i :: i in HeldBySq(s.sq) + s.inflight ==> SameMessage(before, after, i)
  }

  lemma OthersKept(n: nat, s: State, idx: nat, before: map<nat, Outgoing>, m: Outgoing)
    requires Balanced(n, s, multiset{idx}, 0)
    ensures MessagesKept(s, before, before[idx := m]) && MessagesKept(s, before, before)
  {
    HeldIsNotSending(n, s, multiset{idx}, 0, idx);
  }

  class EchoServer {
    const n: nat                 // BUFFERS
    const base: nat              // buffer_base
    const size: nat              // buffer_size
    var ring: B.Ring
    var sq: seq<Request>
    var armed: nat
    var inflight: multiset<nat>
    var cq: seq<Cqe>
    var processed: nat           // index into the batch being processed
    var send: map<nat, Outgoing> // the message of each send

    ghost predicate Layout()
      reads this
    {
      && B.Inv(ring) && B.Entries(ring) == n && n <= TWO16
      && base + n * size < TWO64 && size < TWO32
      && processed <= |cq|
    }

    ghost function View(): State
      requires Layout()
      reads this
    {
      State(Ids(B.Queue(ring)), sq, armed, inflight, cq[processed..])
    }

    ghost predicate Valid(held: multiset<nat>, tokens: nat)
      reads this
    {
      Layout() && Balanced(n, View(), held, tokens)
    }

    /** A server as `setup_context` leaves it, with every buffer in the ring; no receive is
        armed yet. */
    constructor (order: nat, mem: seq<byte>, base: nat, size: nat)
      requires order <= 15 && |mem| == B.ENTRY * Pow2(order)
      requires base + Pow2(order) * size < TWO64 && size < TWO32
      ensures n == Pow2(order) && Valid(multiset{}, 1)
      ensures View() == Initial(n) && B.Queue(ring) == Pool(base, size, n) && processed == 0
    {
      n, this.base, this.size := Pow2(order), base, size;
      OrderFits(order);
      B.TailLeavesEntries(mem, 0, 0);
      var filled := FillPool(B.Ring(order, B.PutTail(mem, 0), 0, 0), base, size);
      ring := filled;
      sq, armed, inflight, cq, processed, send := [], 0, multiset{}, [], 0, map[];
      new;
      InitialBalanced(n);
      PoolIds(base, size, n);
    }

    function BufOf(idx: nat): B.Buf { Slice(base, size, idx) }

    /** `recycle_buffer`: the balance guarantees a free entry, so nothing the kernel has
        yet to pick is overwritten. */
    method RecycleBuffer(idx: nat, ghost held: multiset<nat>, ghost tokens: nat)
      requires Valid(held + multiset{idx}, tokens)
      modifies this`ring
      ensures Valid(held, tokens) && View() == Recycle(old(View()), idx)
      ensures B.Queue(ring) == old(B.Queue(ring)) + [BufOf(idx)]
    {
      RecycleKeeps(n, View(), held, tokens, idx);
      BufFits(idx);
      var b := BufOf(idx);
      AppendOne(ring, b);
      ring := B.Add(ring, b, 0);
      ring := B.Advance(ring, 1);
    }

    lemma BufFits(idx: nat)
      requires Layout() && idx < n
      ensures B.BufOk(BufOf(idx))
    {
      SliceFits(base, size, n, idx);
    }

    /** One step of the kernel. */
    method KernelActs(k: KernelStep, ghost held: multiset<nat>, ghost tokens: nat)
      requires Valid(held, tokens)
      modifies this`ring, this`sq, this`armed, this`inflight, this`cq
      ensures Valid(held, tokens) && View() == Kernel(n, old(View()), k)
      ensures old(cq) <= cq
    {
      KernelKeeps(n, View(), held, tokens, k);
      TakeStep(k);
    }

    method TakeStep(k: KernelStep)
      requires Layout()
      modifies this`ring, this`sq, this`armed, this`inflight, this`cq
      ensures Layout() && View() == Kernel(n, old(View()), k)
      ensures old(cq) <= cq
    {
      match k
      case Consume => KernelConsumes();
      case Receive(_, _, _, _) => KernelReceives(k);
      case ReceiveFails(errno) => KernelRefuses(errno);
      case Sent(idx, res) => KernelSends(idx, res);
    }

    method KernelConsumes()
      requires Layout()
      modifies this`sq, this`armed, this`inflight
      ensures Layout() && View() == Kernel(n, old(View()), Consume)
    {
      if sq != [] {
        armed := armed + (if sq[0].Recv? then 1 else 0);
        inflight := inflight + SendId(sq[0]);
        sq := sq[1..];
      }
    }

    method KernelRefuses(errno: nat)
      requires Layout()
      modifies this`armed, this`cq
      ensures Layout() && View() == Kernel(n, old(View()), ReceiveFails(errno))
      ensures old(cq) <= cq
    {
      if armed != 0 && errno != 0 {
        armed := armed - 1;
        Post(Failed(n, errno));
      }
    }

    method KernelSends(idx: nat, res: int)
      requires Layout()
      modifies this`inflight, this`cq
      ensures Layout() && View() == Kernel(n, old(View()), Sent(idx, res))
      ensures old(cq) <= cq
    {
      if idx in inflight {
        inflight := inflight - multiset{idx};
        Post(SendDone(idx, res));
      }
    }

    method KernelReceives(k: KernelStep)
      requires Layout() && k.Receive?
      modifies this`ring, this`armed, this`cq
      ensures Layout() && View() == Kernel(n, old(View()), k)
      ensures old(cq) <= cq
    {
      if armed != 0 && ring.head != ring.tail {
        PickOne(ring);
        var e := Received(n, B.Queue(ring)[0].bid, k);
        ring := B.Pick(ring);
        armed := if k.more then armed else armed - 1;
        Post(e);
      }
    }

    method Post(e: Cqe)
      requires processed <= |cq|
      modifies this`cq
      ensures cq == old(cq) + [e] && cq[processed..] == old(cq[processed..]) + [e]
    {
      cq := cq + [e];
    }

    method KernelRuns(ks: seq<KernelStep>, ghost held: multiset<nat>, ghost tokens: nat)
      requires Valid(held, tokens)
      modifies this`ring, this`sq, this`armed, this`inflight, this`cq
      ensures Valid(held, tokens) && View() == Kernels(n, old(View()), ks)
      ensures old(cq) <= cq
    {
      var i := 0;
      assert ks[0..] == ks;
      while i < |ks|
        invariant 0 <= i <= |ks| && Valid(held, tokens) && old(cq) <= cq
        invariant Kernels(n, View(), ks[i..]) == Kernels(n, old(View()), ks)
      {
        assert ks[i..][1..] == ks[i + 1..];
        KernelActs(ks[i], held, tokens);
        i := i + 1;
      }
    }

    /** `get_sqe`. */
    method GetFreeSqe(ks: seq<KernelStep>, ghost held: multiset<nat>, ghost tokens: nat) returns (ok: bool)
      requires Valid(held, tokens)
      modifies this`ring, this`sq, this`armed, this`inflight, this`cq
      ensures Valid(held, tokens) && (View(), ok) == GetSqe(n, old(View()), ks)
      ensures ok ==> |sq| < QD
      ensures old(cq) <= cq
    {
      ok := |sq| < QD;
      if !ok {
        KernelRuns(ks, held, tokens);
        ok := |sq| < QD;
      }
    }

    method Enqueue(q: Request)
      requires Layout()
      modifies this`sq
      ensures Layout() && View() == Queue(old(View()), q)
    {
      sq := sq + [q];
    }

    /** `add_recv`. */
    method ArmReceive(ks: seq<KernelStep>, ghost held: multiset<nat>) returns (err: int)
      requires Valid(held, 1)
      modifies this`ring, this`sq, this`armed, this`inflight, this`cq
      ensures err == 0 ==> Valid(held, 0) && Go(View()) == AddRecv(n, old(View()), ks)
      ensures old(cq) <= cq
      ensures err != 0 ==> AddRecv(n, old(View()), ks).Stop?
    {
      AddRecvKeeps(n, View(), held, ks);
      var ok := GetFreeSqe(ks, held, 1);
      if !ok {
        return -1;
      }
      Enqueue(Recv);
      err := 0;
    }

    /** One turn of the inner loop: on success the completion at `processed` has been dealt
        with and the balance holds again. */
    method ProcessNext(m: Meanwhile) returns (err: int)
      requires Valid(multiset{}, 0) && processed < |cq|
      modifies this
      ensures old(cq) <= cq
      ensures err == 0 ==> Valid(multiset{}, 0) && processed == old(processed) + 1
      ensures err == 0 ==>
                Go(View()) == ProcessCqe(n, old(View()).(cq := old(View()).cq[1..]), old(cq[processed]), m)
    {
      TakeFirst(n, View());
      var e := cq[processed];
      ghost var t := View().(cq := View().cq[1..]);
      processed := processed + 1;
      assert View() == t;
      err := ProcessCompletion(e, m);
    }

    /** `process_cqe`. */
    method ProcessCompletion(e: Cqe, m: Meanwhile) returns (err: int)
      requires WellFormed(n, e) && Valid(Held(n, e), Token(n, e))
      modifies this`ring, this`sq, this`armed, this`inflight, this`cq, this`send
      ensures old(cq) <= cq
      ensures err == 0 ==> Valid(multiset{}, 0) && Go(View()) == ProcessCqe(n, old(View()), e, m)
    {
      if e.userData < n {
        assert Held(n, e) == multiset{} + multiset{e.userData};
        RecycleBuffer(e.userData, multiset{}, 0);
        return 0;
      }
      err := ProcessReceive(e, m);
    }

    /** `process_cqe_recv`. */
    method ProcessReceive(e: Cqe, m: Meanwhile) returns (err: int)
      requires WellFormed(n, e) && IsRecv(n, e) && Valid(Held(n, e), Token(n, e))
      modifies this`ring, this`sq, this`armed, this`inflight, this`cq, this`send
      ensures old(cq) <= cq
      ensures err == 0 ==> Valid(multiset{}, 0) && Go(View()) == ProcessCqe(n, old(View()), e, m)
    {
      if !e.more {
        err := ArmReceive(m.first, Held(n, e));
        if err != 0 {
          return err;
        }
      }
      err := FinishReceive(e, m.second);
    }

    method FinishReceive(e: Cqe, ks: seq<KernelStep>) returns (err: int)
      requires WellFormed(n, e) && IsRecv(n, e) && Valid(Held(n, e), 0)
      modifies this`ring, this`sq, this`armed, this`inflight, this`cq, this`send
      ensures old(cq) <= cq
      ensures err == 0 ==> Valid(multiset{}, 0) && Go(View()) == ProcessRecv(n, old(View()), e, ks)
      ensures MessagesKept(old(View()), old(send), send)
    {
      ProcessRecvKeeps(n, View(), e, ks);
      HeldByReceive(n, e);
      if e.res == 0 - ENOBUFS {
        return 0;
      }
      if e.buffer == [] || e.res < 0 {
        return -1;
      }
      var idx := e.buffer[0];
      if !C.Validate(e.res, NAMELEN, CONTROLLEN) {
        return -1;
      }
      assert multiset{} + multiset{idx} == multiset{idx};
      if e.namelen > NAMELEN || e.truncated {
        RecycleBuffer(idx, multiset{}, 0);
        return 0;
      }
      err := SendBack(idx, e, ks);
    }

    method QueueSend(idx: nat, ks: seq<KernelStep>) returns (err: int)
      requires Valid(multiset{idx}, 0)
      modifies this`ring, this`sq, this`armed, this`inflight, this`cq
      ensures old(cq) <= cq
      ensures (err == 0) == GetSqe(n, old(View()), ks).1
      ensures err == 0 ==>
                Valid(multiset{}, 0) && View() == Queue(GetSqe(n, old(View()), ks).0, Send(idx))
    {
      SendKeeps(n, View(), idx, ks);
      var ok := GetFreeSqe(ks, multiset{idx}, 0);
      if !ok {
        return -1;
      }
      Enqueue(Send(idx));
      err := 0;
    }

    /** The end of `process_cqe_recv`: a send of the payload just received, to where it came
        from. No send that is queued or running loses its message. */
    method SendBack(idx: nat, e: Cqe, ks: seq<KernelStep>) returns (err: int)
      requires Valid(multiset{idx}, 0) && C.Validate(e.res, NAMELEN, CONTROLLEN)
      modifies this`ring, this`sq, this`armed, this`inflight, this`cq, this`send
      ensures old(cq) <= cq
      ensures (err == 0) == GetSqe(n, old(View()), ks).1
      ensures err == 0 ==>
                Valid(multiset{}, 0) && View() == Queue(GetSqe(n, old(View()), ks).0, Send(idx))
      ensures err == 0 ==> send == old(send)[idx := ReplyTo(BufOf(idx), e)]
      ensures err != 0 ==> send == old(send)
      ensures MessagesKept(old(View()), old(send), send)
    {
      var message := ReplyTo(BufOf(idx), e);
      OthersKept(n, View(), idx, send, message);
      err := QueueSend(idx, ks);
      if err == 0 {
        send := send[idx := message];
      }
    }

    /** The inner loop over the completions of one batch. */
    method ProcessBatch(count: nat, around: nat -> (seq<KernelStep>, Meanwhile)) returns (err: int)
      requires Valid(multiset{}, 0) && processed == 0 && count <= |cq|
      modifies this
      ensures err == 0 ==> Valid(multiset{}, 0) && processed == count
    {
      while processed < count
        invariant Valid(multiset{}, 0) && processed <= count <= |cq|
      {
        var (ks, m) := around(processed);
        KernelRuns(ks, multiset{}, 0);
        err := ProcessNext(m);
        if err != 0 {
          return;
        }
      }
      err := 0;
    }

    /** `io_uring_cq_advance(count)`. */
    method GiveBack(count: nat)
      requires Valid(multiset{}, 0) && processed == count
      modifies this`cq, this`processed
      ensures Valid(multiset{}, 0) && processed == 0 && cq == old(cq[count..])
    {
      ghost var before := View();
      cq, processed := cq[count..], 0;
      assert cq[0..] == cq;
      assert View() == before;
    }

    /** The event loop of `main`: while it has not given up, the balance holds at the top
        of every turn and after every completion. */
    method EventLoop(turns: seq<Turn>) returns (gaveUp: bool)
      requires Valid(multiset{}, 0) && processed == 0
      modifies this
      ensures !gaveUp ==> Valid(multiset{}, 0) && processed == 0
    {
      for t := 0 to |turns|
        invariant Valid(multiset{}, 0) && processed == 0
      {
        gaveUp := OneTurn(turns[t]);
        if gaveUp {
          return;
        }
      }
      gaveUp := false;
    }

    /** `main` from the first receive on, for a server as it was constructed. */
    method Serve(ks: seq<KernelStep>, turns: seq<Turn>) returns (gaveUp: bool)
      requires Valid(multiset{}, 1) && processed == 0
      modifies this
      ensures !gaveUp ==> Valid(multiset{}, 0) && processed == 0
    {
      var err := ArmReceive(ks, multiset{});
      if err != 0 {
        return true;
      }
      gaveUp := EventLoop(turns);
    }

    method OneTurn(turn: Turn) returns (gaveUp: bool)
      requires Valid(multiset{}, 0) && processed == 0
      modifies this
      ensures !gaveUp ==> Valid(multiset{}, 0) && processed == 0
    {
      KernelRuns(turn.before, multiset{}, 0);
      if turn.ret == -EINTR {
        return false;
      }
      if turn.ret < 0 {
        return true;
      }
      var count := if turn.batch > |cq| then |cq| else turn.batch;
      var err := ProcessBatch(count, turn.around);
      if err != 0 {
        return true;
      }
      GiveBack(count);
      gaveUp := false;
    }
  }

  /** `get_buffer`. */
  function Slice(base: nat, size: nat, idx: nat): B.Buf { B.Buf(base + idx * size, size, idx) }

  function Pool(base: nat, size: nat, n: nat): (p: seq<B.Buf>)
    ensures |p| == n
  {
    seq(n, i requires 0 <= i => Slice(base, size, i))
  }

  ghost predicate PoolFits(base: nat, size: nat, n: nat) {
    base + n * size < TWO64 && size < TWO32 && n <= TWO16
  }

  lemma SliceFits(base: nat, size: nat, n: nat, idx: nat)
    requires PoolFits(base, size, n) && idx < n
    ensures B.BufOk(Slice(base, size, idx))
  {
    Scaled(idx, n, size);
  }

  lemma PoolOk(base: nat, size: nat, n: nat)
    requires PoolFits(base, size, n)
    ensures B.AllOk(Pool(base, size, n))
  {
    forall i | 0 <= i < n ensures B.BufOk(Pool(base, size, n)[i]) {
      SliceFits(base, size, n, i);
    }
  }

  lemma PoolIds(base: nat, size: nat, n: nat)
    ensures Ids(Pool(base, size, n)) == Identity(n)
  {
  }

  /** The loop of `setup_buffer_pool`, each buffer at its own offset, and the one advance
      after it: the kernel can pick every buffer, in order. */
  method FillPool(empty: B.Ring, base: nat, size: nat) returns (r: B.Ring)
    requires B.Inv(empty) && empty.head == empty.tail && PoolFits(base, size, B.Entries(empty))
    ensures B.Inv(r) && r.order == empty.order
    ensures B.Queue(r) == Pool(base, size, B.Entries(empty))
  {
    var n := B.Entries(empty);
    ghost var pool := Pool(base, size, n);
    PoolOk(base, size, n);
    r := empty;
    assert pool[..0] == [];
    for i := 0 to n
      invariant r == B.AddAll(empty, pool[..i])
    {
      AddNext(empty, pool, i, pool[..i], pool[..i + 1]);
      r := B.Add(r, Slice(base, size, i), i);
    }
    assert pool[..n] == pool;
    FillsEmpty(empty, pool);
    r := B.Advance(r, n);
  }

  lemma AddNext(empty: B.Ring, pool: seq<B.Buf>, i: nat, some: seq<B.Buf>, more: seq<B.Buf>)
    requires B.Inv(empty) && B.AllOk(pool) && i < |pool| && some == pool[..i] && more == pool[..i + 1]
    ensures B.AllOk(some) && B.AllOk(more)
    ensures B.AddAll(empty, more) == B.Add(B.AddAll(empty, some), pool[i], i)
  {
    B.AddAllStep(empty, more);
    assert more[..i] == some;
  }

  lemma FillsEmpty(empty: B.Ring, pool: seq<B.Buf>)
    requires B.Inv(empty) && B.AllOk(pool) && empty.head == empty.tail && |pool| == B.Entries(empty)
    ensures B.Inv(B.Advance(B.AddAll(empty, pool), |pool|))
    ensures B.Queue(B.Advance(B.AddAll(empty, pool), |pool|)) == pool
  {
    B.AppendsInOrder(empty, pool);
    assert B.Queue(empty) == [];
  }

  lemma Scaled(i: nat, n: nat, size: nat)
    requires i <= n
    ensures i * size <= n * size
  {
    assert (n - i) * size >= 0;
    assert n * size == i * size + (n - i) * size;
  }

  lemma PickOne(r: B.Ring)
    requires B.Inv(r) && r.head < r.tail
    ensures B.Inv(B.Pick(r)) && B.Entries(B.Pick(r)) == B.Entries(r)
    ensures Ids(B.Queue(r)) == [B.Queue(r)[0].bid] + Ids(B.Queue(B.Pick(r)))
    ensures Ids(B.Queue(B.Pick(r))) == Ids(B.Queue(r))[1..]
  {
    B.PicksOldest(r);
    var q, q' := B.Queue(r), B.Queue(B.Pick(r));
    forall i | 0 <= i < |q'| ensures Ids(q)[i + 1] == Ids(q')[i] {
      assert q[i + 1] == q'[i];
    }
  }

  lemma AppendOne(r: B.Ring, b: B.Buf)
    requires B.Inv(r) && B.BufOk(b) && r.tail < r.head + B.Entries(r)
    ensures B.Inv(B.Add(r, b, 0)) && B.Inv(B.Advance(B.Add(r, b, 0), 1))
    ensures B.Entries(B.Advance(B.Add(r, b, 0), 1)) == B.Entries(r)
    ensures B.Queue(B.Advance(B.Add(r, b, 0), 1)) == B.Queue(r) + [b]
    ensures Ids(B.Queue(r) + [b]) == Ids(B.Queue(r)) + [b.bid]
  {
    B.AppendsInOrder(r, [b]);
    B.AddAllStep(r, [b]);
    assert [b][..0] == [];
  }
}
