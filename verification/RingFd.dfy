/** The ring's file descriptor and its registered index (src/register.c, and the part of
src/setup.c that sets them up and tears them down). The kernel's replies are parameters;
it never accepts a call that names a handle that is not live. */
module RingFd {
  import opened Common

  /** What a system call names: a descriptor, or an index registered for the process. */
  datatype Handle = Fd(n: int) | Slot(n: int)

  /** The fields of `struct io_uring`, and the kernel's side: the number of the descriptor
      the ring was created with, if any, whether it is open, the indices registered for the
      ring, and how often the descriptor has been closed. */
  datatype State = State(
    ringFd: int, enterFd: int, regRing: bool, regRegRing: bool, feature: bool,
    created: int, open: bool, slots: set<int>, closes: nat, exited: bool)

  predicate Live(s: State, h: Handle) {
    match h
    case Fd(n) => s.open && n == s.created
    case Slot(n) => n in s.slots
  }

  /** The handle that an `io_uring_enter` names. */
  function EnterHandle(s: State): Handle { if s.regRing then Slot(s.enterFd) else Fd(s.enterFd) }

  /** The handle that `do_register` names. */
  function RegisterHandle(s: State): Handle { if s.regRegRing then Slot(s.enterFd) else Fd(s.ringFd) }

  /** The outcome of a registration call: its return value, and the index it hands out. */
  datatype Reply = Reply(ret: int, index: nat)

  function Answer(s: State, reply: Reply): int { if Live(s, RegisterHandle(s)) then reply.ret else -EBADF }

  // ---- the operations ------------------------------------------------------

  /** A ring on a descriptor, or one that exists only as a registered index. */
  function Created(fd: nat, registeredOnly: bool, feature: bool): State {
    if registeredOnly then State(-1, fd, true, true, feature, -1, false, {fd}, 0, false)
    else State(fd, fd, false, false, feature, fd, true, {}, 0, false)
  }

  /** `io_uring_register_ring_fd`. */
  function Register(s: State, reply: Reply): (State, int) {
    if s.regRing then (s, -EEXIST)
    else
      var ret := Answer(s, reply);
      if ret == 1 then
        (s.(enterFd := reply.index, regRing := true, regRegRing := s.regRegRing || s.feature,
            slots := s.slots + {reply.index}), ret)
      else (s, ret)
  }

  /** `io_uring_unregister_ring_fd`. */
  function Unregister(s: State, reply: Reply): (State, int) {
    if !s.regRing then (s, -EINVAL)
    else
      var ret := Answer(s, reply);
      if ret == 1 then
        (s.(slots := s.slots - {s.enterFd}, enterFd := s.ringFd, regRing := false, regRegRing := false), ret)
      else (s, ret)
  }

  function Shut(s: State): State { s.(open := false, closes := s.closes + 1) }

  /** `io_uring_close_ring_fd`. */
  function CloseFd(s: State): (State, int) {
    if !s.feature then (s, -EOPNOTSUPP)
    else if !s.regRing then (s, -EINVAL)
    else if s.ringFd == -1 then (s, -EBADF)
    else (Shut(s).(ringFd := -1), 1)
  }

  /** The descriptor part of `io_uring_queue_exit`. */
  function Exit(s: State, reply: Reply): State {
    var t := if s.regRing then Unregister(s, reply).0 else s;
    (if t.ringFd != -1 then Shut(t) else t).(exited := true)
  }

  // ---- every run -----------------------------------------------------------

  datatype Step = DoRegister(reply: Reply) | DoUnregister(reply: Reply) | DoClose | DoExit(reply: Reply)

  function Next(s: State, op: Step): State {
    match op
    case DoRegister(reply) => Register(s, reply).0
    case DoUnregister(reply) => Unregister(s, reply).0
    case DoClose => CloseFd(s).0
    case DoExit(reply) => Exit(s, reply)
  }

  /** Calls in any order; nothing follows the exit. */
  function Run(s: State, ops: seq<Step>): State
    decreases |ops|
  {
    if ops == [] || s.exited then s else Run(Next(s, ops[0]), ops[1..])
  }

  ghost predicate Flags(s: State) {
    && (s.regRegRing ==> s.regRing)
    && (s.regRing ==> s.enterFd in s.slots)
    && (s.regRing && s.feature ==> s.regRegRing)
    && (!s.regRing ==> s.enterFd == s.ringFd)
  }

  /** Until the exit, `ring_fd` is the open descriptor or -1, and -1 only for a ring that is
      or was registered with the kernel's help. */
  ghost predicate Descriptor(s: State) {
    && (s.created == -1 || s.created >= 0)
    && (s.open <==> s.created >= 0 && s.closes == 0)
    && s.closes <= (if s.created >= 0 then 1 else 0)
    && (!s.exited ==> s.ringFd == if s.open then s.created else -1)
    && (!s.exited && s.ringFd == -1 && s.regRing ==> s.regRegRing)
    && (s.exited ==> !s.open)
  }

  ghost predicate Inv(s: State) { Flags(s) && Descriptor(s) }

  /** A registration call gets through exactly if there is a handle left. */
  lemma AnswerIff(s: State, reply: Reply)
    requires Inv(s) && !s.exited
    ensures Answer(s, reply) == if s.regRing || s.ringFd != -1 then reply.ret else -EBADF
  {
  }

  lemma NextKeeps(s: State, op: Step)
    requires Inv(s) && !s.exited
    ensures Inv(Next(s, op))
  {
  }

  lemma {:induction false} RunKeeps(s: State, ops: seq<Step>)
    requires Inv(s)
    ensures Inv(Run(s, ops)) && Run(s, ops).created == s.created
    decreases |ops|
  {
    if ops != [] && !s.exited {
      NextKeeps(s, ops[0]);
      RunKeeps(Next(s, ops[0]), ops[1..]);
    }
  }

  /** In every run: the second flag implies the first; while the first is set, everything
      that names the ring names a live handle, also once the descriptor is gone; without
      it, exactly if the descriptor is still there. */
  lemma HandlesAreLive(fd: nat, registeredOnly: bool, feature: bool, ops: seq<Step>)
    ensures var s := Run(Created(fd, registeredOnly, feature), ops);
            && (s.regRegRing ==> s.regRing)
            && (!s.exited && s.regRing ==> Live(s, EnterHandle(s)) && Live(s, RegisterHandle(s)))
            && (!s.exited && !s.regRing ==>
                  && (Live(s, EnterHandle(s)) <==> s.ringFd != -1)
                  && (Live(s, RegisterHandle(s)) <==> s.ringFd != -1))
  {
    RunKeeps(Created(fd, registeredOnly, feature), ops);
  }

  /** The descriptor is closed at most once in every run, and exactly once by the time the
      ring has been torn down, if there was one. */
  lemma ClosedOnce(fd: nat, registeredOnly: bool, feature: bool, ops: seq<Step>)
    ensures var s := Run(Created(fd, registeredOnly, feature), ops);
            && s.closes <= 1
            && (s.exited ==> s.closes == if registeredOnly then 0 else 1)
  {
    RunKeeps(Created(fd, registeredOnly, feature), ops);
  }

  /** Registering and unregistering again restores every field, unless the descriptor was
      closed in between: then no handle is left. */
  lemma UnregisterUndoesRegister(s: State, a: Reply, b: Reply)
    requires Inv(s) && !s.exited && !s.regRing && s.ringFd != -1 && a.ret == 1 && b.ret == 1
    requires a.index !in s.slots
    ensures Register(s, a).1 == 1
    ensures Unregister(Register(s, a).0, b) == (s, 1)
    ensures s.feature ==>
              var closed := CloseFd(Register(s, a).0);
              && closed.1 == 1
              && (var t := Unregister(closed.0, b).0;
                  !Live(t, EnterHandle(t)) && !Live(t, RegisterHandle(t)))
  {
    var t := Register(s, a).0;
    assert t.slots - {a.index} == s.slots;
  }

  // ---- the C functions -----------------------------------------------------

  class Ring {
    var ringFd: int
    var enterFd: int
    var regRing: bool
    var regRegRing: bool
    const feature: bool
    const created: int
    var open: bool
    var slots: set<int>
    var closes: nat
    var exited: bool

    ghost function View(): State
      reads this
    {
      State(ringFd, enterFd, regRing, regRegRing, feature, created, open, slots, closes, exited)
    }

    ghost predicate Valid()
      reads this
    {
      Inv(View()) && !exited
    }

    /** The end of `__io_uring_queue_init_params`. */
    constructor (fd: nat, registeredOnly: bool, feature: bool)
      ensures Valid() && View() == Created(fd, registeredOnly, feature)
    {
      this.feature := feature;
      enterFd := fd;
      if registeredOnly {
        ringFd, regRing, regRegRing := -1, true, true;
        created, open, slots := -1, false, {fd};
      } else {
        ringFd, regRing, regRegRing := fd, false, false;
        created, open, slots := fd, true, {};
      }
      closes, exited := 0, false;
    }

    /** `do_register`: the kernel answers as it likes while the ring is registered or its
        descriptor is open, and refuses the handle exactly when neither is left. */
    method CallRegister(reply: Reply) returns (ret: int)
      requires Valid()
      ensures ret == if regRing || ringFd != -1 then reply.ret else -EBADF
    {
      var h;
      if regRegRing {
        h := Slot(enterFd);
      } else {
        h := Fd(ringFd);
      }
      ret := match h
             case Fd(n) => if open && n == created then reply.ret else -EBADF
             case Slot(n) => if n in slots then reply.ret else -EBADF;
    }

    method RegisterRingFd(reply: Reply) returns (ret: int)
      requires Valid()
      modifies this
      ensures Valid() && (View(), ret) == Register(old(View()), reply)
    {
      NextKeeps(View(), DoRegister(reply));
      AnswerIff(View(), reply);
      if regRing {
        return -EEXIST;
      }
      ret := CallRegister(reply);
      if ret == 1 {
        slots := slots + {reply.index};
        enterFd := reply.index;
        regRing := true;
        if feature {
          regRegRing := true;
        }
      }
    }

    method UnregisterRingFd(reply: Reply) returns (ret: int)
      requires Valid()
      modifies this`slots, this`enterFd, this`regRing, this`regRegRing
      ensures Valid() && (View(), ret) == Unregister(old(View()), reply)
    {
      NextKeeps(View(), DoUnregister(reply));
      AnswerIff(View(), reply);
      if !regRing {
        return -EINVAL;
      }
      ret := CallRegister(reply);
      if ret == 1 {
        slots := slots - {enterFd};
        enterFd := ringFd;
        regRing, regRegRing := false, false;
      }
    }

    method CloseRingFd() returns (ret: int)
      requires Valid()
      modifies this`open, this`closes, this`ringFd
      ensures Valid() && (View(), ret) == CloseFd(old(View()))
      ensures ret == 1 ==> old(open) && old(regRegRing)
    {
      NextKeeps(View(), DoClose);
      if !feature {
        return -EOPNOTSUPP;
      }
      if !regRing {
        return -EINVAL;
      }
      if ringFd == -1 {
        return -EBADF;
      }
      open, closes := false, closes + 1;
      ringFd := -1;
      ret := 1;
    }

    method QueueExit(reply: Reply)
      requires Valid()
      modifies this
      ensures View() == Exit(old(View()), reply) && Inv(View())
      ensures closes == if created >= 0 then 1 else 0
    {
      NextKeeps(View(), DoExit(reply));
      if regRing {
        var _ := UnregisterRingFd(reply);
      }
      if ringFd != -1 {
        open, closes := false, closes + 1;
      }
      exited := true;
    }
  }
}
