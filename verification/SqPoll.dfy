/** The handshake between `io_uring_submit` and a kernel polling thread that sleeps.

The application stores the tail, fences, and reads `IORING_SQ_NEED_WAKEUP`; the
polling thread stores that flag, fences, and reads the tail again before it goes
to sleep. Each party's stores wait in a buffer of its own, in order per location,
and a fence completes only when that buffer is empty. Positions are unbounded;
what is stored and compared is their 32-bit word.
*/
module SqPoll {
  import opened Words

  datatype Config = Config(order: nat, fence: bool)

  datatype AppPc =
    | Idle                         // outside io_uring_submit
    | Flushed(pending: u32)        // __io_uring_flush_sq has returned
    | Fenced(pending: u32)         // io_uring_smp_mb has completed
    | Checked(enter: bool)         // kflags has been read

  datatype KernelPc =
    | Running
    | Flagging                     // NEED_WAKEUP stored, barrier not yet complete
    | Rechecking                   // barrier complete, tail not yet read again
    | Asleep

  datatype Poll = Poll(
    pc: AppPc,
    tail: nat,                     // what the application has flushed
    tailStores: seq<nat>,          // buffered release stores of *ktail
    seen: nat,                     // the *khead it loaded last
    ktail: nat,
    khead: nat,
    needWakeup: bool,
    kpc: KernelPc,
    head: nat,                     // what the polling thread has consumed
    headStores: seq<nat>,
    flagStores: seq<bool>)

  function Initial(): Poll { Poll(Idle, 0, [], 0, 0, 0, false, Running, 0, [], []) }

  /** `sq_ring_needs_enter`: whether to enter, and whether to ask for a wakeup. */
  function SqRingNeedsEnter(submit: nat, sqpoll: bool, needWakeup: bool): (bool, bool) {
    if submit == 0 then (false, false)
    else if !sqpoll then (true, false)
    else (needWakeup, needWakeup)
  }

  datatype Action =
    | Submit(n: nat, at: nat, at': nat) // n entries reserved against head `at`, flushed, head loaded at `at'`
    | Fence
    | CheckFlag
    | Finish
    | DrainTail
    | Consume
    | StoreHead
    | DrainHead
    | SetFlag
    | KernelFence
    | Recheck
    | DrainFlag
    | WakeUp                            // the thread wakes for a reason of its own

  predicate Enabled(c: Config, s: Poll, a: Action) {
    match a
    case Submit(n, at, at') =>
      && s.pc.Idle? && s.seen <= at <= at' <= s.khead
      && (n > 0 ==> n <= Pow2(c.order) && Sub32(U32(s.tail + n), U32(at)) <= Pow2(c.order))
    case Fence => s.pc.Flushed? && (s.pc.pending != 0 && c.fence ==> s.tailStores == [])
    case CheckFlag => s.pc.Fenced?
    case Finish => s.pc.Checked?
    case DrainTail => s.tailStores != []
    case Consume => s.kpc.Running? && U32(s.ktail) != U32(s.head)
    case StoreHead => s.kpc.Running?
    case DrainHead => s.headStores != []
    case SetFlag => s.kpc.Running?
    case KernelFence => s.kpc.Flagging? && s.headStores == [] && s.flagStores == []
    case Recheck => s.kpc.Rechecking?
    case DrainFlag => s.flagStores != []
    case WakeUp => s.kpc.Asleep?
  }

  function Step(c: Config, s: Poll, a: Action): Poll {
    if !Enabled(c, s, a) then s
    else
      match a
      case Submit(n, _, at') =>
        var t := if n == 0 then s else s.(tail := s.tail + n, tailStores := s.tailStores + [s.tail + n]);
        t.(seen := at', pc := Flushed(Sub32(U32(t.tail), U32(at'))))
      case Fence => if s.pc.pending == 0 then s.(pc := Idle) else s.(pc := Fenced(s.pc.pending))
      case CheckFlag => s.(pc := Checked(SqRingNeedsEnter(s.pc.pending, true, s.needWakeup).1))
      case Finish => if s.pc.enter then Woken(s).(pc := Idle) else s.(pc := Idle)
      case DrainTail => s.(ktail := s.tailStores[0], tailStores := s.tailStores[1..])
      case Consume => s.(head := s.head + 1)
      case StoreHead => s.(headStores := s.headStores + [s.head])
      case DrainHead => s.(khead := s.headStores[0], headStores := s.headStores[1..])
      case SetFlag => s.(kpc := Flagging, flagStores := s.flagStores + [true])
      case KernelFence => s.(kpc := Rechecking)
      case Recheck =>
        if U32(s.ktail) == U32(s.head) then s.(kpc := Asleep)
        else s.(kpc := Running, flagStores := s.flagStores + [false])
      case DrainFlag => s.(needWakeup := s.flagStores[0], flagStores := s.flagStores[1..])
      case WakeUp => Woken(s)
  }

  /** `IORING_ENTER_SQ_WAKEUP`: a sleeping thread resumes and clears its flag. */
  function Woken(s: Poll): Poll {
    if s.kpc.Asleep? then s.(kpc := Running, flagStores := s.flagStores + [false]) else s
  }

  function Run(c: Config, s: Poll, actions: seq<Action>): Poll
    decreases |actions|
  {
    if actions == [] then s else Run(c, Step(c, s, actions[0]), actions[1..])
  }

  /** No lost wakeup: whenever no submission is in progress, a sleeping thread has
      consumed everything that was ever flushed. */
  predicate NoLostWakeup(s: Poll) {
    s.pc.Idle? && s.kpc.Asleep? ==> s.head == s.tail
  }

  // ---- the invariant -------------------------------------------------------

  /** The stores of one location reach memory in order, from what it holds now up to `last`. */
  ghost predicate Rising(now: nat, stores: seq<nat>, last: nat) {
    && (stores == [] ==> now <= last)
    && (stores != [] ==> now <= stores[0] && stores[|stores| - 1] <= last)
    && (forall i, j :: 0 <= i < j < |stores| ==> stores[i] <= stores[j])
  }

  ghost predicate Positions(c: Config, s: Poll) {
    && s.seen <= s.khead && Rising(s.khead, s.headStores, s.head)
    && s.head <= s.ktail && Rising(s.ktail, s.tailStores, s.tail)
    && s.tail <= s.seen + Pow2(c.order)
    && (if s.tailStores == [] then s.ktail == s.tail else s.tailStores[|s.tailStores| - 1] == s.tail)
  }

  function NewestFlag(s: Poll): bool {
    if s.flagStores == [] then s.needWakeup else s.flagStores[|s.flagStores| - 1]
  }

  ghost predicate Flags(s: Poll) {
    && (!s.kpc.Running? ==> NewestFlag(s))
    && (s.kpc.Rechecking? || s.kpc.Asleep? ==> s.flagStores == [])
  }

  /** Outside the flush the tail is in memory, and an application that may stop
      looking leaves no sleeping thread with work to do. */
  ghost predicate Handshake(s: Poll) {
    && (!s.pc.Flushed? ==> s.tailStores == [])
    && (s.pc == Flushed(0) ==> s.tailStores == [] && s.head == s.tail)
    && (s.pc.Fenced? ==> s.pc.pending != 0)
    && (s.kpc.Asleep? && s.head < s.tail ==> !s.pc.Idle? && s.pc != Checked(false))
  }

  ghost predicate Inv(c: Config, s: Poll) { Positions(c, s) && Flags(s) && Handshake(s) }

  lemma RisingAppend(now: nat, stores: seq<nat>, last: nat, next: nat)
    requires Rising(now, stores, last) && last <= next
    ensures Rising(now, stores + [next], next)
  {
  }

  lemma RisingDrain(now: nat, stores: seq<nat>, last: nat)
    requires Rising(now, stores, last) && stores != []
    ensures Rising(stores[0], stores[1..], last) && now <= stores[0] <= last
  {
    assert forall i :: 0 <= i < |stores| - 1 ==> stores[1..][i] == stores[i + 1];
    assert |stores| > 1 ==> stores[0] <= stores[1];
    assert |stores| > 1 ==> stores[0] <= stores[|stores| - 1];
  }

  /** The u32 room test and the u32 estimate mean what they say. */
  lemma SubmitArithmetic(c: Config, s: Poll, n: nat, at: nat, at': nat)
    requires c.order <= 16 && Positions(c, s) && Enabled(c, s, Submit(n, at, at'))
    ensures s.tail + n <= at' + Pow2(c.order)
    ensures Sub32(U32(s.tail + n), U32(at')) == s.tail + n - at'
  {
    OrderFits(c.order);
    if n > 0 {
      WordDistance(s.tail + n, at);
    }
    WordDistance(s.tail + n, at');
  }

  lemma SubmitKeeps(c: Config, s: Poll, n: nat, at: nat, at': nat)
    requires c.order <= 16 && Inv(c, s) && Enabled(c, s, Submit(n, at, at'))
    ensures Inv(c, Step(c, s, Submit(n, at, at')))
  {
    SubmitArithmetic(c, s, n, at, at');
    RisingAppend(s.ktail, s.tailStores, s.tail, s.tail + n);
  }

  lemma ConsumerKeeps(c: Config, s: Poll, a: Action)
    requires c.order <= 16 && Inv(c, s) && Enabled(c, s, a)
    requires a.Consume? || a.StoreHead? || a.DrainHead?
    ensures Inv(c, Step(c, s, a))
  {
    if a.StoreHead? {
      RisingAppend(s.khead, s.headStores, s.head, s.head);
    } else if a.DrainHead? {
      RisingDrain(s.khead, s.headStores, s.head);
    }
  }

  lemma SleeperKeeps(c: Config, s: Poll, a: Action)
    requires c.order <= 16 && Inv(c, s) && Enabled(c, s, a)
    requires a.SetFlag? || a.KernelFence? || a.DrainFlag?
    ensures Inv(c, Step(c, s, a))
  {
  }

  lemma RecheckKeeps(c: Config, s: Poll)
    requires c.order <= 16 && Inv(c, s) && Enabled(c, s, Recheck)
    ensures Inv(c, Step(c, s, Recheck))
  {
    assert s.ktail < s.head + TWO32 by {
      OrderFits(c.order);
    }
    WordsEqual(s.ktail, s.head);
  }

  lemma FenceKeeps(c: Config, s: Poll)
    requires c.fence && Inv(c, s) && Enabled(c, s, Fence)
    ensures Inv(c, Step(c, s, Fence))
  {
  }

  lemma CheckFlagKeeps(c: Config, s: Poll)
    requires Inv(c, s) && Enabled(c, s, CheckFlag)
    ensures Inv(c, Step(c, s, CheckFlag))
  {
  }

  lemma FinishKeeps(c: Config, s: Poll)
    requires Inv(c, s) && Enabled(c, s, Finish)
    ensures Inv(c, Step(c, s, Finish))
  {
  }

  lemma StepKeeps(c: Config, s: Poll, a: Action)
    requires c.order <= 16 && c.fence && Inv(c, s)
    ensures Inv(c, Step(c, s, a))
  {
    if Enabled(c, s, a) {
      match a
      case Submit(n, at, at') => SubmitKeeps(c, s, n, at, at');
      case Fence => FenceKeeps(c, s);
      case CheckFlag => CheckFlagKeeps(c, s);
      case Finish => FinishKeeps(c, s);
      case DrainTail => RisingDrain(s.ktail, s.tailStores, s.tail);
      case WakeUp =>
      case Recheck => RecheckKeeps(c, s);
      case SetFlag => SleeperKeeps(c, s, a);
      case KernelFence => SleeperKeeps(c, s, a);
      case DrainFlag => SleeperKeeps(c, s, a);
      case _ => ConsumerKeeps(c, s, a);
    }
  }

  lemma {:induction false} RunKeeps(c: Config, s: Poll, actions: seq<Action>)
    requires c.order <= 16 && c.fence && Inv(c, s)
    ensures Inv(c, Run(c, s, actions))
    decreases |actions|
  {
    if actions != [] {
      StepKeeps(c, s, actions[0]);
      RunKeeps(c, Step(c, s, actions[0]), actions[1..]);
    }
  }

  ghost predicate NeverLosesWakeup(c: Config) {
    forall actions: seq<Action> :: NoLostWakeup(Run(c, Initial(), actions))
  }

  /** With the tail store still buffered, the application reads the flag too early. */
  function TooEarly(): seq<Action> {
    [Submit(1, 0, 0), Fence, CheckFlag, Finish, SetFlag, DrainFlag, KernelFence, Recheck]
  }

  lemma {:induction false} RunFour(c: Config, s: Poll, a: Action, a': Action, b: Action, b': Action, rest: seq<Action>)
    ensures Run(c, s, [a, a', b, b'] + rest) == Run(c, Step(c, Step(c, Step(c, Step(c, s, a), a'), b), b'), rest)
  {
    assert ([a, a', b, b'] + rest)[1..] == [a', b, b'] + rest;
    assert ([a', b, b'] + rest)[1..] == [b, b'] + rest;
    assert ([b, b'] + rest)[1..] == [b'] + rest;
    assert ([b'] + rest)[1..] == rest;
    var s1 := Step(c, s, a);
    var s2 := Step(c, s1, a');
    assert Run(c, s, [a, a', b, b'] + rest) == Run(c, s1, [a', b, b'] + rest) == Run(c, s2, [b, b'] + rest);
    var s3 := Step(c, s2, b);
    assert Run(c, s2, [b, b'] + rest) == Run(c, s3, [b'] + rest) == Run(c, Step(c, s3, b'), rest);
  }

  function Unpolled(): Poll { Poll(Idle, 1, [1], 0, 0, 0, false, Running, 0, [], []) }

  lemma SubmitsTooEarly(c: Config)
    requires c.order <= 16 && !c.fence
    ensures Step(c, Step(c, Step(c, Step(c, Initial(), Submit(1, 0, 0)), Fence), CheckFlag), Finish) == Unpolled()
  {
    OrderFits(c.order);
    var s1 := Step(c, Initial(), Submit(1, 0, 0));
    assert s1 == Unpolled().(pc := Flushed(1));
    var s2 := Step(c, s1, Fence);
    assert s2 == Unpolled().(pc := Fenced(1));
    var s3 := Step(c, s2, CheckFlag);
    assert s3 == Unpolled().(pc := Checked(false));
  }

  lemma SleepsTooEarly(c: Config)
    ensures Step(c, Step(c, Step(c, Step(c, Unpolled(), SetFlag), DrainFlag), KernelFence), Recheck)
            == Unpolled().(kpc := Asleep, needWakeup := true)
  {
    var s1 := Step(c, Unpolled(), SetFlag);
    assert s1 == Unpolled().(kpc := Flagging, flagStores := [true]);
    var s2 := Step(c, s1, DrainFlag);
    assert s2 == Unpolled().(kpc := Flagging, needWakeup := true);
    var s3 := Step(c, s2, KernelFence);
    assert s3 == Unpolled().(kpc := Rechecking, needWakeup := true);
  }

  lemma WithoutFenceLosesWakeup(c: Config)
    requires c.order <= 16 && !c.fence
    ensures !NoLostWakeup(Run(c, Initial(), TooEarly()))
  {
    var sleeps := [SetFlag, DrainFlag, KernelFence, Recheck];
    assert TooEarly() == [Submit(1, 0, 0), Fence, CheckFlag, Finish] + sleeps;
    RunFour(c, Initial(), Submit(1, 0, 0), Fence, CheckFlag, Finish, sleeps);
    SubmitsTooEarly(c);
    assert sleeps == sleeps + [];
    RunFour(c, Unpolled(), SetFlag, DrainFlag, KernelFence, Recheck, []);
    SleepsTooEarly(c);
  }

  /** Over all interleavings, wakeups are never lost exactly because of the fence
      between the store of the tail and the load of the flags. */
  lemma NoLostWakeupIffFence(c: Config)
    requires c.order <= 16
    ensures NeverLosesWakeup(c) <==> c.fence
  {
    if c.fence {
      forall actions: seq<Action> ensures NoLostWakeup(Run(c, Initial(), actions)) {
        RunKeeps(c, Initial(), actions);
      }
    } else {
      WithoutFenceLosesWakeup(c);
    }
  }
}
