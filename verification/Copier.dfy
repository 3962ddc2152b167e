/** `copy_file` itself, with its helpers, loops and early exits, against a script of what
the kernel and `malloc` do during each of its calls. Every statement that changes the
state is a step of the machine of `CopyRun`, so what is proved of its runs holds here. */
module Copier {
  import opened Common
  import opened Words
  import opened Copy
  import opened CopyLoop
  import opened CopyRun

  /** One call: the kernel's steps during it, and its return value. For `malloc` a zero is
      NULL, and `memory` is what the new block happens to hold. */
  datatype Event = Event(steps: seq<KernelStep>, ret: int, memory: nat -> nat)

  function Memory(event: Event, size: nat): (m: seq<byte>)
    ensures |m| == size
  {
    seq(size, i requires 0 <= i => event.memory(i) % 256)
  }

  /** The kernel's steps during one call. */
  function Kernels(input: seq<byte>, w: World, ks: seq<KernelStep>): World
    decreases |ks|
  {
    if ks == [] then w else Kernels(input, Copy.Kernel(input, w, ks[0]), ks[1..])
  }

  datatype Fetch = Failed | Blocked | Nothing | Got(e: Cqe)

  /** A run that has used up its script is unfinished. */
  datatype Status = Continue | Returned(code: int) | Unfinished

  class Copier {
    const input: seq<byte>
    const script: seq<Event>
    var clock: nat
    var reqs: seq<Request>
    var sq: seq<nat>
    var running: multiset<nat>
    var cq: seq<Cqe>
    var hand: seq<Cqe>               // the completion being handled
    var unseen: seq<Cqe>             // the completion taken and not yet marked as seen: still in the ring
    var out: map<nat, byte>
    var insize: nat
    var writeLeft: nat
    var offset: nat
    var reading: nat
    var writing: nat
    ghost var phase: Phase
    ghost var drained: seq<Drained>

    ghost function State(): Machine
      reads this
    {
      Machine(World(reqs, sq, running, cq, out), Counters(insize, writeLeft, offset, reading, writing),
              phase, hand, drained)
    }

    ghost predicate Valid()
      reads this
    {
      Reachable(input, State())
    }

    constructor (input: seq<byte>, script: seq<Event>)
      ensures this.input == input && this.script == script && clock == 0
      ensures Valid() && State() == Initial(input) && unseen == []
    {
      this.input, this.script := input, script;
      clock, hand, unseen := 0, [], [];
      reqs, sq, running, cq, out := [], [], multiset{}, [], map[];
      insize, writeLeft, offset, reading, writing := |input|, |input|, 0, 0, 0;
      phase, drained := Looping, [];
      new;
      Starts(input);
    }

    function At(t: nat): Event { if t < |script| then script[t] else Event([], 0, _ => 0) }

    // ---- the kernel --------------------------------------------------------

    method Kernel(k: KernelStep)
      requires Valid()
      modifies this`reqs, this`sq, this`running, this`cq, this`out
      ensures Valid() && State() == Apply(input, old(State()), KernelActs(k))
    {
      Goes(input, State(), KernelActs(k));
      if k.Take? {
        TakeOne();
      } else {
        FinishOne(k.id, k.res);
      }
    }

    method TakeOne()
      modifies this`sq, this`running
      ensures State().w == Copy.Kernel(input, old(State()).w, Take)
    {
      if sq != [] {
        running := running + multiset{sq[0]};
        sq := sq[1..];
      }
    }

    method FinishOne(id: nat, res: int)
      modifies this`reqs, this`running, this`cq, this`out
      ensures State().w == Copy.Kernel(input, old(State()).w, Finish(id, res))
    {
      if id in running && id < |reqs| && CanMove(input, reqs[id], res) {
        if res >= 0 {
          out := Stored(out, reqs[id], res);
          reqs := reqs[id := Moved(input, reqs[id], res)];
        }
        running := running - multiset{id};
        cq := cq + [Cqe(id, res)];
      }
    }

    /** `io_uring_submit`, and the part of every other call in which the kernel acts. */
    method Submit() returns (ret: int)
      requires Valid()
      modifies this`clock, this`reqs, this`sq, this`running, this`cq, this`out
      ensures Valid() && clock == old(clock) + 1 && ret == At(old(clock)).ret
      ensures State().w == Kernels(input, old(State()).w, At(old(clock)).steps)
    {
      var event := At(clock);
      clock := clock + 1;
      assert event.steps[0..] == event.steps;
      for i := 0 to |event.steps|
        invariant Valid() && clock == old(clock) + 1
        invariant Kernels(input, State().w, event.steps[i..]) == Kernels(input, old(State()).w, event.steps)
      {
        assert event.steps[i..][1..] == event.steps[i + 1..];
        Kernel(event.steps[i]);
      }
      ret := event.ret;
    }

    /** `io_uring_wait_cqe`: an error, or the oldest completion. */
    method WaitCqe() returns (f: Fetch)
      requires Valid() && hand == [] && unseen == []
      modifies this`clock, this`reqs, this`sq, this`running, this`cq, this`out, this`hand, this`unseen
      ensures Valid() && clock >= old(clock) && f != Nothing
      ensures f != Blocked ==> old(clock) < |script| && clock == old(clock) + 1
      ensures hand == unseen == if f.Got? then [f.e] else []
      ensures old(clock) < |script| ==> unseen + cq == Kernels(input, old(State()).w, At(old(clock)).steps).cq
    {
      if clock >= |script| {
        return Blocked;
      }
      var ret := Submit();
      if ret < 0 {
        return Failed;
      }
      if cq == [] {
        return Blocked;
      }
      f := Got(cq[0]);
      Hold();
    }

    /** `io_uring_peek_cqe`: an error, -EAGAIN, or the oldest completion. */
    method PeekCqe() returns (f: Fetch)
      requires Valid() && hand == [] && unseen == []
      modifies this`clock, this`reqs, this`sq, this`running, this`cq, this`out, this`hand, this`unseen
      ensures Valid() && clock >= old(clock)
      ensures f != Blocked ==> old(clock) < |script| && clock == old(clock) + 1
      ensures hand == unseen == (if f.Got? then [f.e] else []) && (f == Nothing ==> cq == [])
      ensures old(clock) < |script| ==> unseen + cq == Kernels(input, old(State()).w, At(old(clock)).steps).cq
    {
      if clock >= |script| {
        return Blocked;
      }
      var ret := Submit();
      if ret < 0 && ret != -EAGAIN {
        return Failed;
      }
      if cq == [] {
        return Nothing;
      }
      f := Got(cq[0]);
      Hold();
    }

    method Hold()
      requires Valid() && hand == [] && cq != []
      modifies this`cq, this`hand, this`unseen
      ensures unseen == hand == [old(cq[0])] && unseen + cq == old(cq)
      ensures Valid() && State() == Apply(input, old(State()), TakeCqe)
    {
      Goes(input, State(), TakeCqe);
      hand, unseen, cq := [cq[0]], [cq[0]], cq[1..];
    }

    /** `io_uring_cqe_seen`: the ring loses the completion, and only now. */
    method Seen()
      modifies this`unseen
      ensures unseen == []
    {
      unseen := [];
    }

    // ---- helpers of copy_file ----------------------------------------------

    /** `queue_prepped`. */
    method QueuePrepped(id: nat)
      requires |sq| < QD
      modifies this`sq
      ensures sq == old(sq) + [id] && |sq| <= QD
    {
      sq := sq + [id];
    }

    /** `queue_read`. */
    method QueueRead(size: nat) returns (failed: bool)
      modifies this`clock, this`reqs, this`sq
      ensures clock == old(clock) + 1
      ensures failed <==> At(old(clock)).ret == 0 || |old(sq)| >= QD
      ensures failed ==> reqs == old(reqs) && sq == old(sq)
      ensures !failed ==> sq == old(sq) + [|old(reqs)|] && |sq| <= QD
      ensures !failed ==> reqs == old(reqs) + [NewRead(offset, size, Memory(At(old(clock)), size))]
    {
      var event := At(clock);
      clock := clock + 1;
      if event.ret == 0 {
        return true;
      }
      if |sq| >= QD {
        return true;
      }
      reqs, sq := reqs + [NewRead(offset, size, Memory(event, size))], sq + [|reqs|];
      failed := false;
    }

    /** One turn of the first inner loop. A read is refused only if `malloc` fails. */
    method StartOne() returns (failed: bool)
      requires Valid() && phase == Looping && hand == [] && insize != 0 && reading + writing < QD
      modifies this`clock, this`reqs, this`sq, this`insize, this`offset, this`reading
      ensures Valid() && clock == old(clock) + 1
      ensures failed <==> At(old(clock)).ret == 0
      ensures insize <= old(insize) && (!failed ==> insize < old(insize))
      ensures reading == old(reading) + if failed then 0 else 1
    {
      NextReadFits(input, State());
      var size := if insize > BS then BS else insize;
      failed := StartBlock(size);
    }

    method StartBlock(size: nat) returns (failed: bool)
      requires Valid() && phase == Looping && hand == [] && reading + writing < QD
      requires |sq| < QD && offset == End(reqs) && 0 < size <= insize
      modifies this`clock, this`reqs, this`sq, this`insize, this`offset, this`reading
      ensures Valid() && clock == old(clock) + 1
      ensures failed <==> At(old(clock)).ret == 0
      ensures insize == old(insize) - if failed then 0 else size
      ensures reading == old(reading) + if failed then 0 else 1
      ensures !failed ==> State().w == Copy.QueueRead(old(State()).w, size, Memory(At(old(clock)), size))
    {
      ghost var step := StartRead(size, Memory(At(clock), size));
      Goes(input, State(), step);
      failed := QueueRead(size);
      if !failed {
        insize := insize - size;
        offset := offset + size;
        reading := reading + 1;
      }
    }

    /** The first inner loop: reads are queued until the file is used up, QD requests are
        in flight, or `malloc` fails. */
    method QueueReads()
      requires Valid() && phase == Looping && hand == []
      modifies this`clock, this`reqs, this`sq, this`insize, this`offset, this`reading
      ensures Valid() && old(reading) <= reading && clock >= old(clock)
      ensures insize == 0 || reading + writing >= QD || (clock > old(clock) && At(clock - 1).ret == 0)
    {
      while insize != 0
        invariant Valid() && old(reading) <= reading && clock >= old(clock)
        decreases insize
      {
        if reading + writing >= QD {
          break;
        }
        var failed := StartOne();
        if failed {
          break;
        }
      }
    }

    /** What the main loop does with a completion, up to its `io_uring_submit`. */
    method HandleOne(e: Cqe) returns (requeued: bool)
      requires Valid() && phase == Looping && hand == [e] && (e.res >= 0 || e.res == -EAGAIN)
      modifies this`reqs, this`sq, this`writeLeft, this`reading, this`writing, this`hand
      ensures Valid() && hand == []
      ensures Enabled(old(State()), HandleCqe) && State() == Apply(input, old(State()), HandleCqe)
    {
      InHandFits(input, State(), e);
      Goes(input, State(), HandleCqe);
      requeued := Redirect(e);
      hand := [];
    }

    /** The branches: retry, the rest of a short transfer, the write after a read, or the end
        of a write. The SQE that `queue_prepped` asserts is the free place in the ring. */
    method Redirect(e: Cqe) returns (requeued: bool)
      requires Handleable(State().w, e) && |sq| < QD && (e.res >= 0 || e.res == -EAGAIN)
      requires if reqs[e.id].read then reqs[e.id].len <= writeLeft && 0 < reading else 0 < writing
      modifies this`reqs, this`sq, this`writeLeft, this`reading, this`writing
      ensures Go(State().w, State().c) == Handle(old(State()).w, old(State()).c, e)
    {
      var r := reqs[e.id];
      requeued := true;
      if e.res == -EAGAIN {
        assert reqs[e.id := r] == reqs;
        QueuePrepped(e.id);
      } else if e.res != r.left {
        reqs := reqs[e.id := r.(base := r.base + e.res, left := r.left - e.res, offset := r.offset + e.res)];
        QueuePrepped(e.id);
      } else if r.read {
        reqs := reqs[e.id := r.(read := false, offset := r.first, base := 0, left := r.len, reach := r.first)];
        QueuePrepped(e.id);
        writeLeft := writeLeft - r.len;
        reading := reading - 1;
        writing := writing + 1;
      } else {
        reqs := reqs[e.id := r.(freed := true)];
        writing := writing - 1;
        requeued := false;
      }
    }

    /** A completion up to and including `io_uring_cqe_seen`. */
    method FinishOff(e: Cqe)
      requires Valid() && phase == Looping && hand == [e] && (e.res >= 0 || e.res == -EAGAIN)
      modifies this`clock, this`reqs, this`sq, this`running, this`cq, this`out, this`hand, this`unseen,
               this`writeLeft, this`reading, this`writing
      ensures Valid() && hand == [] && unseen == [] && clock >= old(clock)
    {
      var requeued := HandleOne(e);
      if requeued {
        var _ := Submit();
      }
      Seen();
    }

    /** The second inner loop. */
    method ProcessCompletions() returns (status: Status)
      requires Valid() && phase == Looping && hand == [] && unseen == []
      modifies this`clock, this`reqs, this`sq, this`running, this`cq, this`out, this`hand, this`unseen,
               this`writeLeft, this`reading, this`writing
      ensures Valid() && status != Returned(0) && (status == Continue ==> hand == [] && unseen == [])
      ensures status == Continue && old(writeLeft) != 0 ==> old(clock) < |script| && clock > old(clock)
    {
      var gotComp := false;
      while writeLeft != 0
        invariant Valid() && hand == [] && unseen == [] && clock >= old(clock)
        invariant gotComp ==> old(clock) < |script| && clock > old(clock)
        invariant !gotComp ==> writeLeft == old(writeLeft)
        decreases |script| - clock
      {
        var f;
        if !gotComp {
          f := WaitCqe();
          gotComp := true;
        } else {
          f := PeekCqe();
        }
        match f
        case Failed => return Returned(1);
        case Blocked => return Unfinished;
        case Nothing => break;
        case Got(e) =>
          if e.res < 0 && e.res != -EAGAIN {
            return Returned(1);
          }
          FinishOff(e);
      }
      status := Continue;
    }

    /** The last loop: it frees whatever completes, and counts it as a write. */
    method Drain() returns (status: Status)
      requires Valid() && phase != Looping && hand == [] && unseen == []
      modifies this`clock, this`reqs, this`sq, this`running, this`cq, this`out, this`hand, this`unseen,
               this`writing, this`drained
      ensures Valid() && status != Continue
      ensures status == Returned(0) ==> Finished(State())
    {
      while writing != 0
        invariant Valid() && hand == [] && unseen == []
        decreases writing
      {
        var f := WaitCqe();
        match f
        case Failed => return Returned(1);
        case Blocked => return Unfinished;
        case Got(e) =>
          if e.res < 0 {
            return Returned(1);
          }
          Discard(e);
          Seen();
      }
      status := Returned(0);
    }

    method Discard(e: Cqe)
      requires Valid() && phase != Looping && hand == [e] && e.res >= 0 && writing != 0
      modifies this`reqs, this`writing, this`hand, this`drained
      ensures Valid() && hand == [] && writing == old(writing) - 1
      ensures Enabled(old(State()), DrainCqe) && State() == Apply(input, old(State()), DrainCqe)
    {
      InHandFits(input, State(), e);
      Goes(input, State(), DrainCqe);
      drained := drained + [Drained(e.res, reqs[e.id].left)];
      reqs := reqs[e.id := reqs[e.id].(freed := true)];
      writing := writing - 1;
      hand := [];
    }

    /** `copy_file`. It never writes a wrong byte; and when it returns 0, the output is the
        input exactly if no batch submit failed and every completion that the last loop
        took was for the full length. */
    method CopyFile() returns (status: Status, batches: seq<int>)
      requires Valid() && State() == Initial(input) && unseen == []
      modifies this
      ensures status != Continue && Right(input, out)
      ensures status == Returned(0) ==>
                (out == FileOf(input) <==> AllSubmitted(batches) && AllFull(drained))
    {
      batches := [];
      var failed;
      status, batches, failed := MainLoop();
      NoWrongByte(input, State());
      if status != Continue {
        return;
      }
      ghost var step := if failed then Abandon else LeaveLoop;
      Goes(input, State(), step);
      phase := if failed then Abandoned else Draining;
      status := Drain();
      NoWrongByte(input, State());
      if status == Returned(0) {
        CopiedIff(input, State());
      }
    }

    /** The first half of a turn of the outer loop: reads, and one submit for all of them. */
    method QueueBatch() returns (batch: seq<int>)
      requires Valid() && phase == Looping && hand == []
      modifies this`clock, this`reqs, this`sq, this`running, this`cq, this`out, this`insize,
               this`offset, this`reading
      ensures Valid() && clock >= old(clock)
      ensures batch == [] || (|batch| == 1 && reading > 0)
    {
      var hadReads := reading;
      QueueReads();
      batch := [];
      if hadReads != reading {
        var ret := Submit();
        batch := [ret];
      }
    }

    /** The outer loop: `failed` if it was left because a batch submit failed. */
    method MainLoop() returns (status: Status, batches: seq<int>, failed: bool)
      requires Valid() && phase == Looping && hand == [] && unseen == []
      modifies this`clock, this`reqs, this`sq, this`running, this`cq, this`out, this`hand, this`unseen, this`insize,
               this`writeLeft, this`offset, this`reading, this`writing
      ensures Valid() && status != Returned(0)
      ensures status == Continue ==> hand == [] && unseen == [] && failed == !AllSubmitted(batches)
      ensures status == Continue ==> if failed then reading > 0 else insize == 0 && writeLeft == 0
    {
      batches, failed := [], false;
      while insize != 0 || writeLeft != 0
        invariant Valid() && hand == [] && unseen == [] && AllSubmitted(batches)
        decreases |script| - clock
      {
        NextReadFits(input, State());
        var batch := QueueBatch();
        batches := batches + batch;
        if batch != [] && batch[0] < 0 {
          assert batch[0] in batches;
          failed := true;
          break;
        }
        status := ProcessCompletions();
        if status != Continue {
          return;
        }
      }
      status := Continue;
    }
  }
}
