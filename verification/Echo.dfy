/** The UDP echo server of examples/io_uring-udp.c: who owns which buffer.

Every buffer id is, at any time, in the provided-buffer ring, in a completion that
has not been processed, or in a send that is queued or in flight; and there is one
multishot receive, armed in the kernel, queued in the submission ring, or ended by
a completion that has not been processed. The kernel's part of the protocol is a
list of steps that a run takes between and during the server's own. The number of
buffers is any power of two; the program uses 1024.
*/
module Echo {
  import opened Common
  import C = Cmsg

  const QD: nat := 64
  const NAMELEN: nat := 128              // sizeof(struct sockaddr_storage)
  const CONTROLLEN: nat := 0

  datatype Request = Recv | Send(idx: nat)

  /** A completion, with what the kernel wrote into the buffer it names. */
  datatype Cqe = Cqe(userData: nat, res: int, more: bool, buffer: seq<nat>, namelen: nat, truncated: bool)

  /** The receive is queued with the user data `n + 1`, a send with its buffer id. */
  predicate IsRecv(n: nat, e: Cqe) { e.userData >= n }

  /** A receive names one buffer when it succeeds, and none, and no more to come, when
      it fails. */
  ghost predicate WellFormed(n: nat, e: Cqe) {
    IsRecv(n, e) ==> if e.res < 0 then e.buffer == [] && !e.more else |e.buffer| == 1
  }

  function Held(n: nat, e: Cqe): multiset<nat> {
    if IsRecv(n, e) then multiset(e.buffer) else multiset{e.userData}
  }

  function Token(n: nat, e: Cqe): nat { if IsRecv(n, e) && !e.more then 1 else 0 }

  function SendId(q: Request): multiset<nat> { if q.Send? then multiset{q.idx} else multiset{} }

  // ---- sums ----------------------------------------------------------------

  function HeldByCqes(n: nat, s: seq<Cqe>): multiset<nat>
    decreases |s|
  {
    if s == [] then multiset{} else Held(n, s[0]) + HeldByCqes(n, s[1..])
  }

  function TokensOfCqes(n: nat, s: seq<Cqe>): nat
    decreases |s|
  {
    if s == [] then 0 else Token(n, s[0]) + TokensOfCqes(n, s[1..])
  }

  function HeldBySq(s: seq<Request>): multiset<nat> {
    if s == [] then multiset{} else SendId(s[0]) + HeldBySq(s[1..])
  }

  function TokensOfSq(s: seq<Request>): nat {
    if s == [] then 0 else (if s[0].Recv? then 1 else 0) + TokensOfSq(s[1..])
  }

  function AllIds(n: nat): (m: multiset<nat>)
    ensures |m| == n
    ensures forall i :: 0 <= i < n ==> m[i] == 1
    ensures forall i :: i >= n ==> m[i] == 0
  {
    if n == 0 then multiset{} else AllIds(n - 1) + multiset{n - 1}
  }

  lemma {:induction false} CqesAppend(n: nat, s: seq<Cqe>, e: Cqe)
    ensures HeldByCqes(n, s + [e]) == HeldByCqes(n, s) + Held(n, e)
    ensures TokensOfCqes(n, s + [e]) == TokensOfCqes(n, s) + Token(n, e)
    decreases |s|
  {
    if s == [] {
      assert s + [e] == [e];
      assert [e][1..] == [];
    } else {
      assert (s + [e])[1..] == s[1..] + [e];
      CqesAppend(n, s[1..], e);
    }
  }

  lemma {:induction false} SqAppend(s: seq<Request>, q: Request)
    ensures HeldBySq(s + [q]) == HeldBySq(s) + SendId(q)
    ensures TokensOfSq(s + [q]) == TokensOfSq(s) + (if q.Recv? then 1 else 0)
    decreases |s|
  {
    if s == [] {
      assert s + [q] == [q];
      assert [q][1..] == [];
    } else {
      assert (s + [q])[1..] == s[1..] + [q];
      SqAppend(s[1..], q);
    }
  }

  // ---- the balance ---------------------------------------------------------

  datatype State = State(
    free: seq<nat>,            // ids in the provided-buffer ring, oldest first
    sq: seq<Request>,          // queued, not yet consumed by the kernel
    armed: nat,                // multishot receives armed in the kernel
    inflight: multiset<nat>,   // sends the kernel is working on
    cq: seq<Cqe>)              // completions the server has not processed

  function Owners(n: nat, s: State): multiset<nat> {
    multiset(s.free) + HeldByCqes(n, s.cq) + HeldBySq(s.sq) + s.inflight
  }

  function Receives(n: nat, s: State): nat { s.armed + TokensOfSq(s.sq) + TokensOfCqes(n, s.cq) }

  ghost predicate Shape(n: nat, s: State) {
    && |s.sq| <= QD
    && (forall i :: 0 <= i < |s.cq| ==> WellFormed(n, s.cq[i]))
  }

  /** With the ids of `held` and `tokens` receives in the hands of the server itself,
      every buffer has one owner and there is one receive. */
  ghost predicate Balanced(n: nat, s: State, held: multiset<nat>, tokens: nat) {
    && Shape(n, s)
    && Owners(n, s) + held == AllIds(n)
    && Receives(n, s) + tokens == 1
  }

  lemma RingHasRoom(n: nat, s: State, held: multiset<nat>, tokens: nat)
    requires Balanced(n, s, held, tokens)
    ensures |s.free| + |held| <= n
  {
    assert |Owners(n, s) + held| == n;
  }

  lemma IdsAreSmall(n: nat, s: State, held: multiset<nat>, tokens: nat, i: nat)
    requires Balanced(n, s, held, tokens) && (i in held || i in s.inflight)
    ensures i < n
  {
    var all := AllIds(n);
    assert i in Owners(n, s) + held;
    assert all[i] > 0;
  }

  /** Each id has exactly one owner: one place in the ring, one completion, one queued or
      one running send. */
  lemma OneOwnerEach(n: nat, s: State, i: nat)
    requires Balanced(n, s, multiset{}, 0)
    ensures multiset(s.free)[i] + HeldByCqes(n, s.cq)[i] + HeldBySq(s.sq)[i] + s.inflight[i]
            == if i < n then 1 else 0
  {
    assert Owners(n, s) + multiset{} == Owners(n, s);
    var all := AllIds(n);
    assert all[i] == if i < n then 1 else 0;
    assert Owners(n, s)[i] == all[i];
  }

  /** A buffer in the server's hands is not the subject of any send. */
  lemma HeldIsNotSending(n: nat, s: State, held: multiset<nat>, tokens: nat, idx: nat)
    requires Balanced(n, s, held, tokens) && idx in held
    ensures HeldBySq(s.sq)[idx] == 0 && s.inflight[idx] == 0 && idx < n
  {
    IdsAreSmall(n, s, held, tokens, idx);
    var all := AllIds(n);
    assert all[idx] == 1;
    assert (Owners(n, s) + held)[idx] == all[idx];
  }

  // ---- the kernel ----------------------------------------------------------

  datatype KernelStep =
    | Consume                                                      // take the oldest submission
    | Receive(len: nat, more: bool, namelen: nat, truncated: bool) // a datagram, into the oldest buffer
    | ReceiveFails(errno: nat)                                     // includes ENOBUFS
    | Sent(idx: nat, res: int)

  function Received(n: nat, bid: nat, k: KernelStep): Cqe
    requires k.Receive?
  {
    Cqe(n + 1, k.len, k.more, [bid], k.namelen, k.truncated)
  }

  function Failed(n: nat, errno: nat): Cqe { Cqe(n + 1, 0 - errno, false, [], 0, false) }

  function SendDone(idx: nat, res: int): Cqe { Cqe(idx, res, false, [], 0, false) }

  function Kernel(n: nat, s: State, k: KernelStep): State {
    match k
    case Consume =>
      if s.sq == [] then s
      else
        s.(sq := s.sq[1..],
           armed := s.armed + (if s.sq[0].Recv? then 1 else 0),
           inflight := s.inflight + SendId(s.sq[0]))
    case Receive(_, _, _, _) =>
      if s.armed == 0 || s.free == [] then s
      else
        s.(free := s.free[1..],
           armed := if k.more then s.armed else s.armed - 1,
           cq := s.cq + [Received(n, s.free[0], k)])
    case ReceiveFails(errno) =>
      if s.armed == 0 || errno == 0 then s
      else s.(armed := s.armed - 1, cq := s.cq + [Failed(n, errno)])
    case Sent(idx, res) =>
      if idx !in s.inflight then s
      else s.(inflight := s.inflight - multiset{idx}, cq := s.cq + [SendDone(idx, res)])
  }

  /** A step that moves buffers and receives about, and makes none. */
  lemma SameBalance(n: nat, s: State, t: State, held: multiset<nat>, tokens: nat)
    requires Balanced(n, s, held, tokens) && Shape(n, t)
    requires Owners(n, t) == Owners(n, s) && Receives(n, t) == Receives(n, s)
    ensures Balanced(n, t, held, tokens)
  {
  }

  lemma ShapeAppend(n: nat, s: State, e: Cqe)
    requires Shape(n, s) && WellFormed(n, e)
    ensures Shape(n, s.(cq := s.cq + [e]))
  {
  }

  lemma ReceiveMoves(n: nat, s: State, k: KernelStep)
    requires Shape(n, s) && k.Receive? && s.armed != 0 && s.free != []
    ensures var t := Kernel(n, s, k);
            Shape(n, t) && Owners(n, t) == Owners(n, s) && Receives(n, t) == Receives(n, s)
  {
    var e := Received(n, s.free[0], k);
    CqesAppend(n, s.cq, e);
    FirstToCqe(s.free, HeldByCqes(n, s.cq), HeldBySq(s.sq), s.inflight);
    assert Held(n, e) == multiset{s.free[0]};
    ShapeAppend(n, s, e);
  }

  lemma ReceiveKeeps(n: nat, s: State, held: multiset<nat>, tokens: nat, k: KernelStep)
    requires Balanced(n, s, held, tokens) && k.Receive?
    ensures Balanced(n, Kernel(n, s, k), held, tokens)
  {
    if s.armed != 0 && s.free != [] {
      ReceiveMoves(n, s, k);
      SameBalance(n, s, Kernel(n, s, k), held, tokens);
    }
  }

  lemma FirstToCqe(free: seq<nat>, cqes: multiset<nat>, sqes: multiset<nat>, running: multiset<nat>)
    requires free != []
    ensures multiset(free[1..]) + (cqes + multiset{free[0]}) + sqes + running == multiset(free) + cqes + sqes + running
  {
    assert free == [free[0]] + free[1..];
  }

  lemma FailMoves(n: nat, s: State, errno: nat)
    requires Shape(n, s) && s.armed != 0 && errno != 0
    ensures var t := Kernel(n, s, ReceiveFails(errno));
            Shape(n, t) && Owners(n, t) == Owners(n, s) && Receives(n, t) == Receives(n, s)
  {
    var e := Failed(n, errno);
    CqesAppend(n, s.cq, e);
    assert Held(n, e) == multiset{};
    assert HeldByCqes(n, s.cq) + multiset{} == HeldByCqes(n, s.cq);
    ShapeAppend(n, s, e);
  }

  lemma FailKeeps(n: nat, s: State, held: multiset<nat>, tokens: nat, errno: nat)
    requires Balanced(n, s, held, tokens)
    ensures Balanced(n, Kernel(n, s, ReceiveFails(errno)), held, tokens)
  {
    if s.armed != 0 && errno != 0 {
      FailMoves(n, s, errno);
      SameBalance(n, s, Kernel(n, s, ReceiveFails(errno)), held, tokens);
    }
  }

  lemma ConsumeKeeps(n: nat, s: State, held: multiset<nat>, tokens: nat)
    requires Balanced(n, s, held, tokens)
    ensures Balanced(n, Kernel(n, s, Consume), held, tokens)
  {
    if s.sq != [] {
      assert Owners(n, Kernel(n, s, Consume)) == Owners(n, s);
    }
  }

  lemma SentMoves(n: nat, s: State, idx: nat, res: int)
    requires Shape(n, s) && idx in s.inflight && idx < n
    ensures var t := Kernel(n, s, Sent(idx, res));
            Shape(n, t) && Owners(n, t) == Owners(n, s) && Receives(n, t) == Receives(n, s)
  {
    var e := SendDone(idx, res);
    CqesAppend(n, s.cq, e);
    SendToCqe(multiset(s.free), HeldByCqes(n, s.cq), HeldBySq(s.sq), s.inflight, idx);
    ShapeAppend(n, s, e);
  }

  lemma SentKeeps(n: nat, s: State, held: multiset<nat>, tokens: nat, idx: nat, res: int)
    requires Balanced(n, s, held, tokens)
    ensures Balanced(n, Kernel(n, s, Sent(idx, res)), held, tokens)
  {
    if idx in s.inflight {
      IdsAreSmall(n, s, held, tokens, idx);
      SentMoves(n, s, idx, res);
      SameBalance(n, s, Kernel(n, s, Sent(idx, res)), held, tokens);
    }
  }

  lemma SendToCqe(free: multiset<nat>, cqes: multiset<nat>, sqes: multiset<nat>, running: multiset<nat>, idx: nat)
    requires idx in running
    ensures free + (cqes + multiset{idx}) + sqes + (running - multiset{idx}) == free + cqes + sqes + running
  {
  }

  lemma KernelKeeps(n: nat, s: State, held: multiset<nat>, tokens: nat, k: KernelStep)
    requires Balanced(n, s, held, tokens)
    ensures Balanced(n, Kernel(n, s, k), held, tokens)
  {
    match k
    case Consume => ConsumeKeeps(n, s, held, tokens);
    case Receive(_, _, _, _) => ReceiveKeeps(n, s, held, tokens, k);
    case ReceiveFails(errno) => FailKeeps(n, s, held, tokens, errno);
    case Sent(idx, res) => SentKeeps(n, s, held, tokens, idx, res);
  }

  function Kernels(n: nat, s: State, ks: seq<KernelStep>): State
    decreases |ks|
  {
    if ks == [] then s else Kernels(n, Kernel(n, s, ks[0]), ks[1..])
  }

  lemma {:induction false} KernelsKeep(n: nat, s: State, held: multiset<nat>, tokens: nat, ks: seq<KernelStep>)
    requires Balanced(n, s, held, tokens)
    ensures Balanced(n, Kernels(n, s, ks), held, tokens)
    decreases |ks|
  {
    if ks != [] {
      KernelKeeps(n, s, held, tokens, ks[0]);
      KernelsKeep(n, Kernel(n, s, ks[0]), held, tokens, ks[1..]);
    }
  }

  // ---- the server ----------------------------------------------------------

  /** `recycle_buffer`. */
  function Recycle(s: State, idx: nat): State { s.(free := s.free + [idx]) }

  /** A filled-in submission. */
  function Queue(s: State, q: Request): State { s.(sq := s.sq + [q]) }

  /** `get_sqe`: on a full ring, submit, during which the kernel takes the steps `ks`, and
      try once more. */
  function GetSqe(n: nat, s: State, ks: seq<KernelStep>): (State, bool) {
    if |s.sq| < QD then (s, true)
    else
      var t := Kernels(n, s, ks);
      (t, |t.sq| < QD)
  }

  /** What the server does with the completion at the front. */
  datatype Verdict = Go(s: State) | Stop

  /** What the kernel does while a completion is processed: before the receive is queued
      again, and before a send is. */
  datatype Meanwhile = Meanwhile(first: seq<KernelStep>, second: seq<KernelStep>)

  function AddRecv(n: nat, s: State, ks: seq<KernelStep>): Verdict {
    var (t, ok) := GetSqe(n, s, ks);
    if ok then Go(Queue(t, Recv)) else Stop
  }

  /** `process_cqe`, the completion having been taken off the front. */
  function ProcessCqe(n: nat, s: State, e: Cqe, m: Meanwhile): Verdict {
    if e.userData < n then Go(Recycle(s, e.userData))
    else
      var r := if e.more then Go(s) else AddRecv(n, s, m.first);
      if r.Stop? then Stop else ProcessRecv(n, r.s, e, m.second)
  }

  function ProcessRecv(n: nat, s: State, e: Cqe, ks: seq<KernelStep>): Verdict {
    if e.res == 0 - ENOBUFS then Go(s)
    else if e.buffer == [] || e.res < 0 then Stop
    else if !C.Validate(e.res, NAMELEN, CONTROLLEN) then Stop
    else if e.namelen > NAMELEN || e.truncated then Go(Recycle(s, e.buffer[0]))
    else
      var (t, ok) := GetSqe(n, s, ks);
      if ok then Go(Queue(t, Send(e.buffer[0]))) else Stop
  }

  /** Recycling needs a free place in the ring, and there is one. */
  lemma RecycleKeeps(n: nat, s: State, held: multiset<nat>, tokens: nat, idx: nat)
    requires Balanced(n, s, held + multiset{idx}, tokens)
    ensures Balanced(n, Recycle(s, idx), held, tokens) && |s.free| < n && idx < n
  {
    RingHasRoom(n, s, held + multiset{idx}, tokens);
    IdsAreSmall(n, s, held + multiset{idx}, tokens, idx);
    var t := Recycle(s, idx);
    assert multiset(t.free) == multiset(s.free) + multiset{idx};
    assert Owners(n, t) + held == Owners(n, s) + (held + multiset{idx});
  }

  lemma QueueKeeps(n: nat, s: State, held: multiset<nat>, tokens: nat, q: Request)
    requires |s.sq| < QD
    requires Balanced(n, s, held + SendId(q), tokens + (if q.Recv? then 1 else 0))
    ensures Balanced(n, Queue(s, q), held, tokens)
  {
    SqAppend(s.sq, q);
    assert Owners(n, Queue(s, q)) + held == Owners(n, s) + (held + SendId(q));
  }

  lemma GetSqeKeeps(n: nat, s: State, held: multiset<nat>, tokens: nat, ks: seq<KernelStep>)
    requires Balanced(n, s, held, tokens)
    ensures Balanced(n, GetSqe(n, s, ks).0, held, tokens)
  {
    KernelsKeep(n, s, held, tokens, ks);
  }

  lemma AddRecvKeeps(n: nat, s: State, held: multiset<nat>, ks: seq<KernelStep>)
    requires Balanced(n, s, held, 1)
    ensures AddRecv(n, s, ks).Go? ==> Balanced(n, AddRecv(n, s, ks).s, held, 0)
  {
    GetSqeKeeps(n, s, held, 1, ks);
    var (t, ok) := GetSqe(n, s, ks);
    if ok {
      assert held + SendId(Recv) == held;
      QueueKeeps(n, t, held, 0, Recv);
    }
  }

  lemma SendKeeps(n: nat, s: State, idx: nat, ks: seq<KernelStep>)
    requires Balanced(n, s, multiset{idx}, 0)
    ensures var (t, ok) := GetSqe(n, s, ks);
            ok ==> Balanced(n, Queue(t, Send(idx)), multiset{}, 0)
  {
    GetSqeKeeps(n, s, multiset{idx}, 0, ks);
    var (t, ok) := GetSqe(n, s, ks);
    assert multiset{} + SendId(Send(idx)) == multiset{idx};
    if ok {
      QueueKeeps(n, t, multiset{}, 0, Send(idx));
    }
  }

  lemma ProcessBufferKeeps(n: nat, s: State, e: Cqe, ks: seq<KernelStep>, idx: nat)
    requires e.res >= 0 && e.buffer == [idx] && Balanced(n, s, multiset{idx}, 0)
    ensures ProcessRecv(n, s, e, ks).Go? ==> Balanced(n, ProcessRecv(n, s, e, ks).s, multiset{}, 0)
  {
    var v := ProcessRecv(n, s, e, ks);
    if v.Go? {
      if e.namelen > NAMELEN || e.truncated {
        assert multiset{} + multiset{idx} == multiset{idx};
        RecycleKeeps(n, s, multiset{}, 0, idx);
      } else {
        SendKeeps(n, s, idx, ks);
      }
    }
  }

  lemma HeldByReceive(n: nat, e: Cqe)
    requires WellFormed(n, e) && IsRecv(n, e)
    ensures e.res < 0 ==> Held(n, e) == multiset{}
    ensures e.res >= 0 ==> |e.buffer| == 1 && e.buffer == [e.buffer[0]] && Held(n, e) == multiset{e.buffer[0]}
  {
    if e.res >= 0 {
      assert e.buffer == [e.buffer[0]];
    }
  }

  lemma ProcessRecvKeeps(n: nat, s: State, e: Cqe, ks: seq<KernelStep>)
    requires WellFormed(n, e) && IsRecv(n, e) && Balanced(n, s, Held(n, e), 0)
    ensures ProcessRecv(n, s, e, ks).Go? ==> Balanced(n, ProcessRecv(n, s, e, ks).s, multiset{}, 0)
  {
    HeldByReceive(n, e);
    if e.res >= 0 {
      ProcessBufferKeeps(n, s, e, ks, e.buffer[0]);
    }
  }

  /** Processing a completion hands its buffer on, to the ring or to a send, and its ended
      receive to a new one; or it ends the run. */
  lemma ProcessKeeps(n: nat, s: State, e: Cqe, m: Meanwhile)
    requires WellFormed(n, e) && Balanced(n, s, Held(n, e), Token(n, e))
    ensures ProcessCqe(n, s, e, m).Go? ==> Balanced(n, ProcessCqe(n, s, e, m).s, multiset{}, 0)
  {
    if e.userData < n {
      assert Held(n, e) == multiset{} + multiset{e.userData};
      RecycleKeeps(n, s, multiset{}, 0, e.userData);
    } else if e.more {
      ProcessRecvKeeps(n, s, e, m.second);
    } else {
      AddRecvKeeps(n, s, Held(n, e), m.first);
      var r := AddRecv(n, s, m.first);
      if r.Go? {
        ProcessRecvKeeps(n, r.s, e, m.second);
      }
    }
  }

  /** The completion at the front moves into the hands of the server. */
  lemma TakeFirst(n: nat, s: State)
    requires Balanced(n, s, multiset{}, 0) && s.cq != []
    ensures WellFormed(n, s.cq[0])
    ensures Balanced(n, s.(cq := s.cq[1..]), Held(n, s.cq[0]), Token(n, s.cq[0]))
  {
    var t := s.(cq := s.cq[1..]);
    assert Owners(n, t) + Held(n, s.cq[0]) == Owners(n, s) + multiset{};
    forall i | 0 <= i < |t.cq| ensures WellFormed(n, t.cq[i]) {
      assert WellFormed(n, s.cq[i + 1]);
    }
  }

  // ---- runs ----------------------------------------------------------------

  datatype Step = KernelActs(k: KernelStep) | ServerProcesses(m: Meanwhile)

  /** The server and the kernel in any order, until the server gives up. */
  function Run(n: nat, s: State, steps: seq<Step>): Verdict
    decreases |steps|
  {
    if steps == [] then Go(s)
    else
      match steps[0]
      case KernelActs(k) => Run(n, Kernel(n, s, k), steps[1..])
      case ServerProcesses(m) =>
        if s.cq == [] then Run(n, s, steps[1..])
        else
          match ProcessCqe(n, s.(cq := s.cq[1..]), s.cq[0], m)
          case Stop => Stop
          case Go(t) => Run(n, t, steps[1..])
  }

  /** All buffers in the ring, as `setup_buffer_pool` leaves them. */
  function Initial(n: nat): State { State(Identity(n), [], 0, multiset{}, []) }

  function Identity(n: nat): (r: seq<nat>)
    ensures |r| == n && forall i :: 0 <= i < n ==> r[i] == i
  {
    if n == 0 then [] else Identity(n - 1) + [n - 1]
  }

  lemma {:induction false} IdentityIsAll(n: nat)
    ensures multiset(Identity(n)) == AllIds(n)
  {
    if n > 0 {
      IdentityIsAll(n - 1);
    }
  }

  lemma InitialBalanced(n: nat)
    ensures Balanced(n, Initial(n), multiset{}, 1)
  {
    IdentityIsAll(n);
  }

  /** Ownership is conserved over every continuing run. */
  lemma {:induction false} RunKeeps(n: nat, s: State, steps: seq<Step>)
    requires Balanced(n, s, multiset{}, 0)
    ensures Run(n, s, steps).Go? ==> Balanced(n, Run(n, s, steps).s, multiset{}, 0)
    decreases |steps|
  {
    if steps != [] {
      match steps[0]
      case KernelActs(k) =>
        KernelKeeps(n, s, multiset{}, 0, k);
        RunKeeps(n, Kernel(n, s, k), steps[1..]);
      case ServerProcesses(m) =>
        if s.cq == [] {
          RunKeeps(n, s, steps[1..]);
        } else {
          TakeFirst(n, s);
          var t := s.(cq := s.cq[1..]);
          ProcessKeeps(n, t, s.cq[0], m);
          var v := ProcessCqe(n, t, s.cq[0], m);
          if v.Go? {
            RunKeeps(n, v.s, steps[1..]);
          }
        }
    }
  }

  /** From the start of the program: every buffer in one place, one receive, at any point
      of any run that has not ended. */
  lemma ServerConserves(n: nat, ks: seq<KernelStep>, steps: seq<Step>, i: nat)
    ensures var start := AddRecv(n, Initial(n), ks);
            start.Go? ==>
              var v := Run(n, start.s, steps);
              v.Go? ==>
                && multiset(v.s.free)[i] + HeldByCqes(n, v.s.cq)[i] + HeldBySq(v.s.sq)[i] + v.s.inflight[i]
                   == (if i < n then 1 else 0)
                && v.s.armed + TokensOfSq(v.s.sq) + TokensOfCqes(n, v.s.cq) == 1
  {
    InitialBalanced(n);
    AddRecvKeeps(n, Initial(n), multiset{}, ks);
    var start := AddRecv(n, Initial(n), ks);
    if start.Go? {
      RunKeeps(n, start.s, steps);
      var v := Run(n, start.s, steps);
      if v.Go? {
        OneOwnerEach(n, v.s, i);
      }
    }
  }
}
