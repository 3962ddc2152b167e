/** The main loop and the drain loop of `copy_file`, on values: what one completion does
to the requests and the counters, and what the output file holds at the end. */
module CopyLoop {
  import opened Common
  import opened Words
  import opened Copy

  /** The local variables of `copy_file`. */
  datatype Counters = Counters(insize: nat, writeLeft: nat, offset: nat, reading: nat, writing: nat)

  /** `write_left` counts what is still to be asked for and what is being read; at most
      QD requests are in flight. */
  ghost predicate Tally(reqs: seq<Request>, c: Counters) {
    && c.writeLeft == c.insize + ReadBytes(reqs)
    && c.reading == ReadCount(reqs) && c.writing == WriteCount(reqs)
    && c.reading + c.writing <= QD
  }

  ghost predicate FreedComplete(reqs: seq<Request>) {
    forall i :: 0 <= i < |reqs| && reqs[i].freed ==> Complete(reqs[i])
  }

  ghost predicate Main(input: seq<byte>, w: World, c: Counters, hand: multiset<nat>) {
    && Inv(input, w, hand)
    && End(w.reqs) == c.offset && c.offset + c.insize == |input|
    && Tally(w.reqs, c) && FreedComplete(w.reqs)
  }

  ghost predicate Framed(reqs: seq<Request>, reqs': seq<Request>) {
    && |reqs'| == |reqs| && End(reqs') == End(reqs)
    && ReadCount(reqs') == ReadCount(reqs) && WriteCount(reqs') == WriteCount(reqs)
    && ReadBytes(reqs') == ReadBytes(reqs)
    && forall i :: 0 <= i < |reqs| ==> SameKind(reqs[i], reqs'[i])
  }

  ghost predicate SameKind(r: Request, r': Request) {
    && r'.read == r.read && r'.freed == r.freed && r'.first == r.first && r'.len == r.len
    && (r.freed ==> r' == r)
  }

  lemma UpdateFramed(reqs: seq<Request>, id: nat, r: Request)
    requires Tiled(reqs) && id < |reqs| && SameKind(reqs[id], r)
    ensures Framed(reqs, reqs[id := r])
  {
    CountUpdate(reqs, id, r);
    TiledUpdate(reqs, id, r);
  }

  lemma FinishFrame(input: seq<byte>, w: World, id: nat, res: int)
    requires Tiled(w.reqs) && id < |w.reqs| && !w.reqs[id].freed && CanMove(input, w.reqs[id], res)
    ensures Framed(w.reqs, Transferred(input, w, id, res).reqs)
  {
    if res >= 0 {
      UpdateFramed(w.reqs, id, Moved(input, w.reqs[id], res));
    }
  }

  /** The kernel changes no block, no direction and no freed request. */
  lemma KernelFrame(input: seq<byte>, w: World, hand: multiset<nat>, k: KernelStep)
    requires Inv(input, w, hand)
    ensures Framed(w.reqs, Kernel(input, w, k).reqs)
  {
    if k.Finish? && k.id in w.running && k.id < |w.reqs| && CanMove(input, w.reqs[k.id], k.res) {
      OnePlace(w, hand, k.id);
      FinishFrame(input, w, k.id, k.res);
    }
  }

  lemma FramedFreed(reqs: seq<Request>, reqs': seq<Request>)
    requires Framed(reqs, reqs')
    ensures FreedComplete(reqs) <==> FreedComplete(reqs')
  {
    forall i | 0 <= i < |reqs| ensures SameKind(reqs[i], reqs'[i]) {
    }
  }

  lemma MainFramed(input: seq<byte>, w: World, t: World, c: Counters, hand: multiset<nat>)
    requires Main(input, w, c, hand) && Inv(input, t, hand) && Framed(w.reqs, t.reqs)
    ensures Main(input, t, c, hand)
  {
    FramedFreed(w.reqs, t.reqs);
  }

  // ---- one completion ------------------------------------------------------

  datatype Verdict = Go(w: World, c: Counters) | Stop

  /** The body of the main loop, for the completion `e`. */
  function Handle(w: World, c: Counters, e: Cqe): Verdict
    requires e.id < |w.reqs| && e.res <= w.reqs[e.id].left
  {
    var r := w.reqs[e.id];
    if e.res == -EAGAIN then Go(Requeue(w, e.id, r), c)
    else if e.res < 0 then Stop
    else if e.res != r.left then Go(Requeue(w, e.id, Rest(r, e.res)), c)
    else if r.read then
      Go(Requeue(w, e.id, Turned(r)), TurnCount(c, r.len))
    else Go(Free(w, e.id), FreeCount(c))
  }

  function Minus(a: nat, b: nat): nat { if b <= a then a - b else 0 }

  lemma TallyUpdate(reqs: seq<Request>, c: Counters, id: nat, r: Request)
    requires Tally(reqs, c) && id < |reqs|
    requires Reads(r) == Reads(reqs[id]) && Writes(r) == Writes(reqs[id]) && Unread(r) == Unread(reqs[id])
    ensures Tally(reqs[id := r], c)
  {
    CountUpdate(reqs, id, r);
  }

  lemma Counted(reqs: seq<Request>, c: Counters, id: nat)
    requires Tally(reqs, c) && id < |reqs| && !reqs[id].freed
    ensures reqs[id].read ==> reqs[id].len <= c.writeLeft && 0 < c.reading
    ensures !reqs[id].read ==> 0 < c.writing
  {
    CountUpdate(reqs, id, reqs[id].(freed := true));
  }

  lemma RetryKeeps(input: seq<byte>, w: World, c: Counters, e: Cqe)
    requires Main(input, w, c, multiset{e.id}) && Tells(w.reqs, e) && e.res < 0
    ensures Main(input, Requeue(w, e.id, w.reqs[e.id]), c, multiset{})
  {
    OnePlace(w, multiset{e.id}, e.id);
    RequeueKeeps(input, w, e.id, w.reqs[e.id]);
    assert w.reqs[e.id := w.reqs[e.id]] == w.reqs;
  }

  lemma RestSane(input: seq<byte>, r: Request, res: nat)
    requires Sane(input, r) && res < r.left && r.reach == r.offset + res
    ensures Sane(input, Rest(r, res)) && SameBlock(r, Rest(r, res))
  {
  }

  lemma RestKeeps(input: seq<byte>, w: World, c: Counters, e: Cqe)
    requires Main(input, w, c, multiset{e.id}) && Tells(w.reqs, e) && 0 <= e.res < w.reqs[e.id].left
    ensures Main(input, Requeue(w, e.id, Rest(w.reqs[e.id], e.res)), c, multiset{})
  {
    OnePlace(w, multiset{e.id}, e.id);
    var r := Rest(w.reqs[e.id], e.res);
    RestSane(input, w.reqs[e.id], e.res);
    RequeueKeeps(input, w, e.id, r);
    TallyUpdate(w.reqs, c, e.id, r);
    TiledUpdate(w.reqs, e.id, r);
  }

  lemma TurnedSane(input: seq<byte>, r: Request)
    requires Sane(input, r) && r.read && r.reach == Last(r)
    ensures Sane(input, Turned(r)) && SameBlock(r, Turned(r))
  {
    assert r.buf[..r.len] == r.buf;
  }

  function TurnCount(c: Counters, len: nat): Counters {
    c.(writeLeft := Minus(c.writeLeft, len), reading := Minus(c.reading, 1), writing := c.writing + 1)
  }

  lemma TurnTally(reqs: seq<Request>, c: Counters, id: nat)
    requires Tally(reqs, c) && FreedComplete(reqs) && id < |reqs| && reqs[id].read && !reqs[id].freed
    ensures Tally(reqs[id := Turned(reqs[id])], TurnCount(c, reqs[id].len))
    ensures FreedComplete(reqs[id := Turned(reqs[id])])
  {
    CountUpdate(reqs, id, Turned(reqs[id]));
  }

  lemma TurnKeeps(input: seq<byte>, w: World, c: Counters, e: Cqe)
    requires Main(input, w, c, multiset{e.id}) && Tells(w.reqs, e)
    requires e.res == w.reqs[e.id].left && w.reqs[e.id].read
    ensures Main(input, Requeue(w, e.id, Turned(w.reqs[e.id])), TurnCount(c, w.reqs[e.id].len), multiset{})
  {
    OnePlace(w, multiset{e.id}, e.id);
    var r := w.reqs[e.id];
    TurnedSane(input, r);
    RequeueKeeps(input, w, e.id, Turned(r));
    TurnTally(w.reqs, c, e.id);
    TiledUpdate(w.reqs, e.id, Turned(r));
  }

  function FreeCount(c: Counters): Counters { c.(writing := Minus(c.writing, 1)) }

  lemma FreeTally(reqs: seq<Request>, c: Counters, id: nat)
    requires Tally(reqs, c) && FreedComplete(reqs) && id < |reqs| && Complete(reqs[id]) && !reqs[id].freed
    ensures Tally(reqs[id := reqs[id].(freed := true)], FreeCount(c))
    ensures FreedComplete(reqs[id := reqs[id].(freed := true)])
  {
    CountUpdate(reqs, id, reqs[id].(freed := true));
  }

  lemma FreeMain(input: seq<byte>, w: World, c: Counters, e: Cqe)
    requires Main(input, w, c, multiset{e.id}) && Tells(w.reqs, e)
    requires e.res == w.reqs[e.id].left && !w.reqs[e.id].read
    ensures Main(input, Free(w, e.id), FreeCount(c), multiset{})
  {
    OnePlace(w, multiset{e.id}, e.id);
    FreeKeeps(input, w, e.id);
    FreeTally(w.reqs, c, e.id);
    TiledUpdate(w.reqs, e.id, w.reqs[e.id].(freed := true));
  }

  /** Whatever the completion, its request is dealt with and every equation is restored. */
  lemma HandleKeeps(input: seq<byte>, w: World, c: Counters, e: Cqe)
    requires Main(input, w, c, multiset{e.id}) && Tells(w.reqs, e)
    ensures var v := Handle(w, c, e);
            v.Go? ==> Main(input, v.w, v.c, multiset{})
    ensures Handle(w, c, e).Stop? <==> e.res < 0 && e.res != -EAGAIN
    ensures w.reqs[e.id].read ==> w.reqs[e.id].len <= c.writeLeft && 0 < c.reading
    ensures !w.reqs[e.id].read ==> 0 < c.writing
  {
    OnePlace(w, multiset{e.id}, e.id);
    Counted(w.reqs, c, e.id);
    if e.res == -EAGAIN {
      RetryKeeps(input, w, c, e);
    } else if 0 <= e.res < w.reqs[e.id].left {
      RestKeeps(input, w, c, e);
    } else if e.res >= 0 && w.reqs[e.id].read {
      TurnKeeps(input, w, c, e);
    } else if e.res >= 0 {
      FreeMain(input, w, c, e);
    }
  }

  /** An SQE is free whenever a completion is in hand: `assert(sqe)` holds. */
  lemma SqeForRequeue(input: seq<byte>, w: World, c: Counters, id: nat)
    requires Main(input, w, c, multiset{id})
    ensures |w.sq| < QD
  {
    RoomInSq(w, multiset{id});
  }

  /** An SQE is free whenever the program starts a read. */
  lemma SqeForRead(input: seq<byte>, w: World, c: Counters)
    requires Main(input, w, c, multiset{}) && c.reading + c.writing < QD
    ensures |w.sq| < QD
  {
    RoomInSq(w, multiset{});
  }

  lemma ReadKeeps(input: seq<byte>, w: World, c: Counters, size: nat, memory: seq<byte>)
    requires Main(input, w, c, multiset{}) && c.reading + c.writing < QD
    requires 0 < size == |memory| <= c.insize
    ensures Main(input, QueueRead(w, size, memory),
                 c.(insize := c.insize - size, offset := c.offset + size, reading := c.reading + 1), multiset{})
  {
    QueueReadKeeps(input, w, size, memory);
    AppendRead(w.reqs, c, NewRead(End(w.reqs), size, memory), size);
  }

  lemma AppendRead(reqs: seq<Request>, c: Counters, r: Request, size: nat)
    requires Tally(reqs, c) && FreedComplete(reqs) && c.reading + c.writing < QD
    requires r.read && !r.freed && r.len == size <= c.insize
    ensures FreedComplete(reqs + [r])
    ensures Tally(reqs + [r], c.(insize := c.insize - size, offset := c.offset + size, reading := c.reading + 1))
  {
    CountAppend(reqs, r);
  }

  /** The oldest completion moves into the hands of the program. */
  lemma TakeFirst(input: seq<byte>, w: World, c: Counters)
    requires Main(input, w, c, multiset{}) && w.cq != []
    ensures Main(input, w.(cq := w.cq[1..]), c, multiset{w.cq[0].id}) && Tells(w.reqs, w.cq[0])
  {
    TakeFirstInv(input, w);
  }

  lemma TakeFirstInv(input: seq<byte>, w: World)
    requires Inv(input, w, multiset{}) && w.cq != []
    ensures Inv(input, w.(cq := w.cq[1..]), multiset{w.cq[0].id}) && Tells(w.reqs, w.cq[0])
  {
    var t := w.(cq := w.cq[1..]);
    assert Ids(w.cq) == [w.cq[0].id] + Ids(t.cq);
    FirstToHand(multiset(w.sq) + w.running, Ids(w.cq), Ids(t.cq), w.cq[0].id);
    forall k | 0 <= k < |t.cq| ensures Tells(t.reqs, t.cq[k]) {
      assert Tells(w.reqs, w.cq[k + 1]);
    }
  }

  lemma FirstToHand(rest: multiset<nat>, ids: seq<nat>, tail: seq<nat>, id: nat)
    requires ids == [id] + tail
    ensures rest + multiset(tail) + multiset{id} == rest + multiset(ids) + multiset{}
  {
  }

  // ---- the drain loop ------------------------------------------------------

  /** A completion taken by the drain loop: its result, and the length asked for. */
  datatype Drained = Drained(res: int, asked: nat)

  predicate AllFull(drained: seq<Drained>) {
    forall d <- drained :: d.res == d.asked
  }

  predicate AllSubmitted(batches: seq<int>) {
    forall b <- batches :: b >= 0
  }

  /** After the main loop has run to its end. */
  ghost predicate Draining(input: seq<byte>, w: World, writes: nat, drained: seq<Drained>, hand: multiset<nat>) {
    && Inv(input, w, hand)
    && End(w.reqs) == |input| && ReadCount(w.reqs) == 0 && WriteCount(w.reqs) == writes
    && (forall i :: 0 <= i < |w.reqs| ==> !w.reqs[i].read)
    && (FreedComplete(w.reqs) <==> AllFull(drained))
  }

  /** After the main loop has been left because a batch submit failed: some block has not
      been read, and never will be. */
  ghost predicate Abandoned(input: seq<byte>, w: World, hand: multiset<nat>) {
    && Inv(input, w, hand)
    && exists i :: 0 <= i < |w.reqs| && w.reqs[i].read
  }

  lemma DrainStarts(input: seq<byte>, w: World, c: Counters)
    requires Main(input, w, c, multiset{}) && c.insize == 0 && c.writeLeft == 0
    ensures Draining(input, w, c.writing, [], multiset{})
  {
    NoBytesNoReads(w.reqs);
    NoneLeft(w.reqs);
  }

  lemma {:induction false} NoneLeft(reqs: seq<Request>)
    requires forall i :: 0 <= i < |reqs| ==> reqs[i].read ==> reqs[i].freed
    ensures ReadCount(reqs) == 0
    decreases |reqs|
  {
    if reqs != [] {
      NoneLeft(reqs[..|reqs| - 1]);
    }
  }

  lemma {:induction false} SomeRead(reqs: seq<Request>)
    requires ReadCount(reqs) > 0
    ensures exists i :: 0 <= i < |reqs| && reqs[i].read
    decreases |reqs|
  {
    if Reads(reqs[|reqs| - 1]) == 0 {
      SomeRead(reqs[..|reqs| - 1]);
      var i :| 0 <= i < |reqs| - 1 && reqs[..|reqs| - 1][i].read;
      assert reqs[i].read;
    }
  }

  lemma DrainFramed(input: seq<byte>, w: World, t: World, writes: nat, drained: seq<Drained>, hand: multiset<nat>)
    requires Draining(input, w, writes, drained, hand) && Inv(input, t, hand) && Framed(w.reqs, t.reqs)
    ensures Draining(input, t, writes, drained, hand)
  {
    FramedFreed(w.reqs, t.reqs);
    forall i | 0 <= i < |t.reqs| ensures !t.reqs[i].read {
      assert SameKind(w.reqs[i], t.reqs[i]);
    }
  }

  lemma AbandonFramed(input: seq<byte>, w: World, t: World, hand: multiset<nat>)
    requires Abandoned(input, w, hand) && Inv(input, t, hand) && Framed(w.reqs, t.reqs)
    ensures Abandoned(input, t, hand)
  {
    var i :| 0 <= i < |w.reqs| && w.reqs[i].read;
    assert SameKind(w.reqs[i], t.reqs[i]);
  }

  /** The drain loop frees a request whatever its result was. */
  lemma DrainFree(input: seq<byte>, w: World, writes: nat, drained: seq<Drained>, e: Cqe)
    requires Draining(input, w, writes, drained, multiset{e.id}) && Tells(w.reqs, e) && 0 <= e.res
    ensures 0 < writes
    ensures Draining(input, Free(w, e.id), writes - 1, drained + [Drained(e.res, w.reqs[e.id].left)], multiset{})
  {
    OnePlace(w, multiset{e.id}, e.id);
    var r := w.reqs[e.id].(freed := true);
    FreeKeeps(input, w, e.id);
    CountUpdate(w.reqs, e.id, r);
    TiledUpdate(w.reqs, e.id, r);
    FreedAfter(w.reqs, e.id);
    FullAfter(drained, Drained(e.res, w.reqs[e.id].left));
  }

  lemma FreedAfter(reqs: seq<Request>, id: nat)
    requires id < |reqs| && !reqs[id].freed
    ensures FreedComplete(reqs[id := reqs[id].(freed := true)]) <==> FreedComplete(reqs) && Complete(reqs[id])
  {
    var reqs' := reqs[id := reqs[id].(freed := true)];
    if FreedComplete(reqs') {
      assert Complete(reqs'[id]);
      forall i | 0 <= i < |reqs| && reqs[i].freed ensures Complete(reqs[i]) {
        assert Complete(reqs'[i]);
      }
    }
  }

  lemma FullAfter(drained: seq<Drained>, d: Drained)
    ensures AllFull(drained + [d]) <==> AllFull(drained) && d.res == d.asked
  {
    if AllFull(drained + [d]) {
      assert d in drained + [d];
      forall e | e in drained ensures e.res == e.asked {
        assert e in drained + [d];
      }
    }
  }

  lemma AbandonFree(input: seq<byte>, w: World, e: Cqe)
    requires Abandoned(input, w, multiset{e.id}) && e.id < |w.reqs|
    ensures Abandoned(input, Free(w, e.id), multiset{})
  {
    FreeKeeps(input, w, e.id);
    var i :| 0 <= i < |w.reqs| && w.reqs[i].read;
    assert Free(w, e.id).reqs[i].read;
  }

  // ---- the end -------------------------------------------------------------

  lemma {:induction false} NoneLive(reqs: seq<Request>)
    requires ReadCount(reqs) == 0 && WriteCount(reqs) == 0
    ensures forall i :: 0 <= i < |reqs| ==> reqs[i].freed
    decreases |reqs|
  {
    if reqs != [] {
      NoneLive(reqs[..|reqs| - 1]);
    }
  }

  /** When every write has been waited out, the output is the input exactly if every write
      the drain loop took had completed in full. */
  lemma WholeIffFull(input: seq<byte>, w: World, drained: seq<Drained>)
    requires Draining(input, w, 0, drained, multiset{})
    ensures w.out == FileOf(input) <==> AllFull(drained)
  {
    NoneLive(w.reqs);
    if FreedComplete(w.reqs) {
      CompleteIsWhole(input, w);
    } else {
      var i :| 0 <= i < |w.reqs| && w.reqs[i].freed && !Complete(w.reqs[i]);
      GapRemains(input, w, i);
    }
  }

  lemma CompleteIsWhole(input: seq<byte>, w: World)
    requires Bytes(input, w.reqs, w.out) && End(w.reqs) == |input|
    requires forall i :: 0 <= i < |w.reqs| ==> Complete(w.reqs[i])
    ensures w.out == FileOf(input)
  {
    forall p: nat | p < |input| ensures p in w.out {
      var i := FindBlock(w.reqs, p);
      assert InBlock(w.reqs[i], p);
    }
  }

  lemma GapRemains(input: seq<byte>, w: World, i: nat)
    requires Bytes(input, w.reqs, w.out) && i < |w.reqs| && !Complete(w.reqs[i])
    ensures w.out != FileOf(input)
  {
    var p := Last(w.reqs[i]) - 1;
    assert InBlock(w.reqs[i], p);
    assert p !in w.out;
    assert p in FileOf(input);
  }

  lemma AbandonedIsNotWhole(input: seq<byte>, w: World, hand: multiset<nat>)
    requires Abandoned(input, w, hand)
    ensures w.out != FileOf(input)
  {
    var i :| 0 <= i < |w.reqs| && w.reqs[i].read;
    GapRemains(input, w, i);
  }
}
