/** The application side of the completion ring (`struct io_uring_cq`), as the code
runs it: fields that are updated, loops that look again. Each method is proved
against its specification in `CompletionRing`, `WaitLoop` and `Batch`.
*/
module CompletionQueue {
  import opened Common
  import opened Words
  import opened CompletionRing
  import opened WaitLoop
  import opened Batch
  import SqPoll

  class CompletionQueue {
    const config: Config
    var khead: u32
    var ktail: u32
    var slots: seq<Cqe>
    var backlog: seq<Cqe>
    var head: nat
    var posted: seq<Cqe>

    function State(): Cq
      reads this
    {
      Cq(khead, ktail, slots, backlog, head, posted)
    }

    ghost predicate Valid()
      reads this
    {
      Inv(config, State())
    }

    /** The kernel moved the ring on to `q`. */
    method Become(q: Cq)
      modifies this
      ensures State() == q
    {
      khead, ktail, slots, backlog, head, posted := q.khead, q.ktail, q.slots, q.backlog, q.head, q.posted;
    }

    method KernelPosts(arrivals: seq<Arrival>)
      requires Valid()
      modifies this
      ensures Valid() && State() == Posts(config, old(State()), arrivals)
    {
      PostsKeep(config, State(), arrivals);
      Become(Posts(config, State(), arrivals));
    }

    /** `__sys_io_uring_enter`. */
    method EnterKernel(e: Enter, submit: nat, getevents: bool) returns (ret: int)
      requires Valid()
      modifies this
      ensures Valid() && State() == EnterRing(config, old(State()), e, getevents)
      ensures ret == Returned(e, submit)
    {
      Become(EnterRing(config, State(), e, getevents));
      ret := Returned(e, submit);
    }

    /** `io_uring_cq_ready`. */
    method CqReady() returns (ready: u32)
      requires Valid()
      ensures ready == |posted| - head
    {
      AvailableIsCount(config, State());
      ready := Sub32(ktail, khead);
    }

    /** `io_uring_cq_advance`. */
    method CqAdvance(nr: nat)
      requires Valid() && head + nr <= |posted|
      modifies this`khead, this`head
      ensures Valid() && State() == Advance(old(State()), nr)
    {
      AdvanceKeeps(config, State(), nr);
      if nr != 0 {
        khead := U32(khead + nr);
        head := head + nr;
      }
    }

    /** `__io_uring_peek_cqe`. */
    method PeekCqe(arrivals: seq<seq<Arrival>>) returns (err: int, cqe: Option<nat>, available: u32)
      requires Valid()
      modifies this
      ensures Valid() && Peeked(State(), cqe, available, err) == Peek(config, old(State()), arrivals)
    {
      err, cqe, available := 0, None, 0;
      var rest := arrivals;
      while true
        invariant Valid()
        invariant Peek(config, old(State()), arrivals) == Peek(config, State(), rest)
        decreases |rest|, |posted| - head
      {
        if rest != [] {
          KernelPosts(rest[0]);
        }
        LookResult(config, State());
        AvailableIsCount(config, State());
        cqe := None;
        available := Sub32(ktail, khead);
        if available == 0 {
          break;
        }
        var i := Index(config, khead);
        if !config.extArg && slots[i].userData == LIBURING_UDATA_TIMEOUT {
          if slots[i].res < 0 {
            err := slots[i].res;
          }
          CqAdvance(1);
          if err == 0 {
            rest := Rest(rest);
            continue;
          }
        } else {
          cqe := Some(i);
        }
        break;
      }
    }

    /** `io_uring_peek_batch_cqe`. */
    method PeekBatchCqe(cqes: array<nat>, count: nat, b: BatchCall) returns (n: nat)
      requires Valid() && count <= cqes.Length
      modifies this, cqes
      ensures Valid() && (State(), n) == PeekBatch(config, old(State()), count, b)
      ensures n <= count && cqes[..n] == Filled(config, State(), n)
      ensures cqes[n..] == old(cqes[n..])
    {
      n := CountBatch(count, b);
      FillBatch(cqes, n);
    }

    /** Looks once, and again after asking the kernel to flush its backlog. */
    method CountBatch(count: nat, b: BatchCall) returns (n: nat)
      requires Valid()
      modifies this
      ensures Valid() && (State(), n) == PeekBatch(config, old(State()), count, b)
    {
      var overflowChecked := false;
      KernelPosts(b.before);
      while true
        invariant Valid()
        invariant !overflowChecked ==> State() == Posts(config, old(State()), b.before)
        invariant overflowChecked ==>
                    && Ready(Posts(config, old(State()), b.before)) == 0
                    && (State(), Min(count, Ready(State()))) == PeekBatch(config, old(State()), count, b)
        decreases if overflowChecked then 0 else 1
      {
        var ready := Sub32(ktail, khead);
        if ready != 0 {
          return if count > ready then ready else count;
        }
        if overflowChecked {
          return 0;
        }
        KernelPosts(b.between);
        if backlog == [] && !b.taskrun {
          return 0;
        }
        var _ := EnterKernel(b.enter, 0, true);
        overflowChecked := true;
        KernelPosts(b.after);
      }
    }

    /** `head++`. */
    static function NextWord(w: u32): u32 { U32(w + 1) }

    /** The loop that stores the addresses, counting the head up to `head + count`
        in 32-bit words. */
    method FillBatch(cqes: array<nat>, n: nat)
      requires Valid() && n <= cqes.Length && head + n <= |posted|
      modifies cqes
      ensures cqes[..n] == Filled(config, State(), n)
      ensures cqes[n..] == old(cqes[n..])
    {
      OrderFits(config.order);
      CountUpTo(cqes, n, khead);
    }

    method CountUpTo(cqes: array<nat>, n: nat, start: u32)
      requires n <= cqes.Length && n <= TWO16
      modifies cqes
      ensures forall k :: 0 <= k < n ==> cqes[k] == Address(config, start, k)
      ensures forall k :: n <= k < cqes.Length ==> cqes[k] == old(cqes[k])
    {
      var h := start;
      var last := U32(start + n);
      var i := 0;
      CountingUp(start, 0, n);
      while h != last
        invariant 0 <= i <= n && h == U32(start + i)
        invariant h == last <==> i == n
        invariant forall k :: 0 <= k < i ==> cqes[k] == Address(config, start, k)
        invariant forall k :: i <= k < cqes.Length ==> cqes[k] == old(cqes[k])
        decreases n - i
      {
        cqes[i] := Index(config, h);
        CountingUp(start, i, n);
        CountingUp(start, i + 1, n);
        h := NextWord(h);
        i := i + 1;
      }
    }

    /** `_io_uring_get_cqe`. */
    method GetCqe(d: GetData, rounds: seq<Round>) returns (o: Outcome)
      requires Valid()
      modifies this
      ensures Valid() && o == WaitLoop.GetCqe(config, old(State()), d, rounds) && o.q == State()
    {
      var submit, looped, err, trace, i := d.submit, false, 0, START, 0;
      assert d.(submit := submit) == d && rounds[0..] == rounds;
      while i < |rounds|
        invariant Valid() && 0 <= i <= |rounds|
        invariant Loop(config, State(), d.(submit := submit), looped, err, trace, rounds[i..])
                  == WaitLoop.GetCqe(config, old(State()), d, rounds)
      {
        assert rounds[i..][0] == rounds[i] && rounds[i..][1..] == rounds[i + 1..];
        TurnKeeps(config, State(), d.(submit := submit), looped, err, trace, rounds[i]);
        var turn := TakeTurn(d.(submit := submit), looped, err, trace, rounds[i]);
        match turn
        case Leave(out) =>
          return out;
        case Again(_, submit', err', trace') =>
          submit, looped, err, trace := submit', true, err', trace';
          i := i + 1;
      }
      assert rounds[i..] == [];
      o := Looping(State(), submit, trace);
    }

    /** The body of the loop. */
    method TakeTurn(d: GetData, looped: bool, err0: int, trace: Trace, r: Round) returns (turn: Turn)
      requires Valid()
      modifies this
      ensures Valid() && turn == OneTurn(config, old(State()), d, looped, err0, trace, r)
      ensures State() == RingAfter(turn)
    {
      TurnKeeps(config, State(), d, looped, err0, trace, r);
      PeekResult(config, State(), r.arrivals);
      var ret, cqe, available := PeekCqe(r.arrivals);
      if ret != 0 {
        return Leave(Done(if err0 == 0 then ret else err0, cqe, State(), d.submit, trace));
      }
      KernelPosts(r.between);
      turn := DecideTurn(cqe, available, d, looped, err0, trace, r);
    }

    /** The rest of the body, branch by branch. */
    method DecideTurn(cqe: Option<nat>, available: u32, d: GetData, looped: bool, err0: int, trace: Trace, r: Round)
      returns (turn: Turn)
      requires Valid()
      modifies this
      ensures Valid() && turn == Decide(config, old(State()), cqe, available, d, looped, err0, trace, r)
      ensures State() == RingAfter(turn)
    {
      var err, needEnter, getevents := err0, false, false;
      if cqe.None? && d.waitNr == 0 && d.submit == 0 {
        if looped || !NeedsEnter(config, State(), r.taskrun) {
          if err == 0 {
            err := -EAGAIN;
          }
          return Leave(Done(err, cqe, State(), d.submit, trace));
        }
        needEnter := true;
      }
      if d.waitNr > available || needEnter {
        getevents, needEnter := true, true;
      }
      if SqPoll.SqRingNeedsEnter(d.submit, config.sqpoll, r.needWakeup).0 {
        needEnter := true;
      }
      if !needEnter {
        return Leave(Done(err, cqe, State(), d.submit, trace));
      }
      if looped && d.hasTs {
        if cqe.None? && err == 0 {
          err := -ETIME;
        }
        return Leave(Done(err, cqe, State(), d.submit, trace));
      }
      var ret := EnterKernel(r.enter, d.submit, getevents);
      var entered := trace.entered + [ret];
      if ret < 0 {
        if err == 0 {
          err := ret;
        }
        return Leave(Done(err, cqe, State(), d.submit, trace.(entered := entered)));
      }
      var submit := d.submit - ret;
      if cqe.Some? {
        return Leave(Done(err, cqe, State(), submit, trace.(entered := entered)));
      }
      if !looped {
        err := ret;
      }
      turn := Again(State(), submit, err, Trace(entered, trace.stalled || (ret == 0 && head == |posted|)));
    }
  }
}
