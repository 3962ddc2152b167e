/** Runs of the copy program: the kernel's steps and the program's, in any order that the
program's control flow allows. */
module CopyRun {
  import opened Common
  import opened Words
  import opened Copy
  import opened CopyLoop

  /** Where `copy_file` is: in its main loop, in its drain loop after the main loop ran to
      its end, or in its drain loop after a batch submit failed. */
  datatype Phase = Looping | Draining | Abandoned

  /** `hand` is the completion being handled, if any. */
  datatype Machine = Machine(w: World, c: Counters, phase: Phase, hand: seq<Cqe>, drained: seq<Drained>)

  datatype Step =
    | KernelActs(k: KernelStep)
    | StartRead(size: nat, memory: seq<byte>)
    | TakeCqe
    | HandleCqe
    | LeaveLoop
    | Abandon
    | DrainCqe

  function Initial(input: seq<byte>): Machine {
    Machine(World([], [], multiset{}, [], map[]), Counters(|input|, |input|, 0, 0, 0), Looping, [], [])
  }

  predicate Enabled(m: Machine, s: Step) {
    match s
    case KernelActs(_) => true
    case StartRead(size, memory) =>
      && m.phase.Looping? && m.hand == [] && m.c.reading + m.c.writing < QD
      && 0 < size == |memory| <= m.c.insize
    case TakeCqe => m.hand == [] && m.w.cq != []
    case HandleCqe => m.phase.Looping? && m.hand != [] && Handleable(m.w, m.hand[0]) && Handle(m.w, m.c, m.hand[0]).Go?
    case LeaveLoop => m.phase.Looping? && m.hand == [] && m.c.insize == 0 && m.c.writeLeft == 0
    case Abandon => m.phase.Looping? && m.hand == [] && m.c.reading > 0
    case DrainCqe =>
      !m.phase.Looping? && m.hand != [] && Handleable(m.w, m.hand[0]) && m.hand[0].res >= 0 && m.c.writing > 0
  }

  predicate Handleable(w: World, e: Cqe) { e.id < |w.reqs| && e.res <= w.reqs[e.id].left }

  function Apply(input: seq<byte>, m: Machine, s: Step): Machine
    requires Enabled(m, s)
  {
    match s
    case KernelActs(k) => m.(w := Kernel(input, m.w, k))
    case StartRead(size, memory) =>
      m.(w := QueueRead(m.w, size, memory),
         c := m.c.(insize := m.c.insize - size, offset := m.c.offset + size, reading := m.c.reading + 1))
    case TakeCqe => m.(hand := [m.w.cq[0]], w := m.w.(cq := m.w.cq[1..]))
    case HandleCqe =>
      var v := Handle(m.w, m.c, m.hand[0]);
      m.(w := v.w, c := v.c, hand := [])
    case LeaveLoop => m.(phase := Draining)
    case Abandon => m.(phase := Abandoned)
    case DrainCqe =>
      m.(w := Free(m.w, m.hand[0].id), c := m.c.(writing := m.c.writing - 1), hand := [],
         drained := m.drained + [Drained(m.hand[0].res, m.w.reqs[m.hand[0].id].left)])
  }

  ghost predicate Linked(input: seq<byte>, states: seq<Machine>, i: nat)
    requires i + 1 < |states|
  {
    exists s :: Enabled(states[i], s) && states[i + 1] == Apply(input, states[i], s)
  }

  /** A run from the start of `copy_file` to the state `m`. */
  ghost predicate IsRun(input: seq<byte>, states: seq<Machine>, m: Machine) {
    && states != [] && states[0] == Initial(input) && states[|states| - 1] == m
    && forall i :: 0 <= i < |states| - 1 ==> Linked(input, states, i)
  }

  ghost predicate Reachable(input: seq<byte>, m: Machine) {
    exists states :: IsRun(input, states, m)
  }

  lemma Starts(input: seq<byte>)
    ensures Reachable(input, Initial(input))
  {
    assert IsRun(input, [Initial(input)], Initial(input));
  }

  lemma Goes(input: seq<byte>, m: Machine, s: Step)
    requires Reachable(input, m) && Enabled(m, s)
    ensures Reachable(input, Apply(input, m, s))
  {
    var states :| IsRun(input, states, m);
    var longer := states + [Apply(input, m, s)];
    forall i | 0 <= i < |longer| - 1 ensures Linked(input, longer, i) {
      if i < |states| - 1 {
        assert Linked(input, states, i);
        assert states[i] == longer[i] && states[i + 1] == longer[i + 1];
      } else {
        assert longer[i] == m;
      }
    }
    assert IsRun(input, longer, Apply(input, m, s));
  }

  // ---- the invariant of every run ------------------------------------------

  function InHand(m: Machine): multiset<nat> { multiset(Ids(m.hand)) }

  ghost predicate Valid(input: seq<byte>, m: Machine) {
    && |m.hand| <= 1 && (m.hand != [] ==> Tells(m.w.reqs, m.hand[0]))
    && match m.phase
       case Looping => Main(input, m.w, m.c, InHand(m)) && m.drained == []
       case Draining => CopyLoop.Draining(input, m.w, m.c.writing, m.drained, InHand(m))
       case Abandoned => CopyLoop.Abandoned(input, m.w, InHand(m))
  }

  lemma HandIs(m: Machine)
    requires |m.hand| <= 1
    ensures m.hand == [] ==> InHand(m) == multiset{}
    ensures m.hand != [] ==> InHand(m) == multiset{m.hand[0].id}
  {
    assert m.hand == [] ==> Ids(m.hand) == [];
    assert m.hand != [] ==> Ids(m.hand) == [m.hand[0].id];
  }

  lemma ValidInv(input: seq<byte>, m: Machine)
    requires Valid(input, m)
    ensures Inv(input, m.w, InHand(m))
  {
  }

  /** The kernel leaves the request in hand alone. */
  lemma HandUntouched(input: seq<byte>, w: World, e: Cqe, k: KernelStep)
    requires Inv(input, w, multiset{e.id}) && Tells(w.reqs, e)
    ensures Tells(Kernel(input, w, k).reqs, e)
  {
    OnePlace(w, multiset{e.id}, e.id);
  }

  lemma KernelValid(input: seq<byte>, m: Machine, k: KernelStep)
    requires Valid(input, m)
    ensures Valid(input, m.(w := Kernel(input, m.w, k)))
  {
    var t := Kernel(input, m.w, k);
    ValidInv(input, m);
    HandIs(m);
    KernelKeeps(input, m.w, InHand(m), k);
    KernelFrame(input, m.w, InHand(m), k);
    if m.hand != [] {
      HandUntouched(input, m.w, m.hand[0], k);
    }
    match m.phase
    case Looping => MainFramed(input, m.w, t, m.c, InHand(m));
    case Draining => DrainFramed(input, m.w, t, m.c.writing, m.drained, InHand(m));
    case Abandoned => AbandonFramed(input, m.w, t, InHand(m));
  }

  lemma TakeValid(input: seq<byte>, m: Machine)
    requires Valid(input, m) && Enabled(m, TakeCqe)
    ensures Valid(input, Apply(input, m, TakeCqe))
  {
    var t := Apply(input, m, TakeCqe);
    HandIs(m);
    HandIs(t);
    ValidInv(input, m);
    TakeFirstInv(input, m.w);
  }

  lemma HandleValid(input: seq<byte>, m: Machine)
    requires Valid(input, m) && Enabled(m, HandleCqe)
    ensures Valid(input, Apply(input, m, HandleCqe))
  {
    HandIs(m);
    HandIs(Apply(input, m, HandleCqe));
    HandleKeeps(input, m.w, m.c, m.hand[0]);
  }

  lemma LeaveValid(input: seq<byte>, m: Machine)
    requires Valid(input, m) && Enabled(m, LeaveLoop)
    ensures Valid(input, Apply(input, m, LeaveLoop))
  {
    HandIs(m);
    DrainStarts(input, m.w, m.c);
  }

  lemma AbandonValid(input: seq<byte>, m: Machine)
    requires Valid(input, m) && Enabled(m, Abandon)
    ensures Valid(input, Apply(input, m, Abandon))
  {
    SomeRead(m.w.reqs);
  }

  lemma DrainValid(input: seq<byte>, m: Machine)
    requires Valid(input, m) && Enabled(m, DrainCqe)
    ensures Valid(input, Apply(input, m, DrainCqe))
  {
    var t := Apply(input, m, DrainCqe);
    HandIs(m);
    HandIs(t);
    if m.phase.Draining? {
      DrainFree(input, m.w, m.c.writing, m.drained, m.hand[0]);
    } else {
      AbandonFree(input, m.w, m.hand[0]);
    }
  }

  lemma ReadValid(input: seq<byte>, m: Machine, size: nat, memory: seq<byte>)
    requires Valid(input, m) && Enabled(m, StartRead(size, memory))
    ensures Valid(input, Apply(input, m, StartRead(size, memory)))
  {
    HandIs(m);
    ReadKeeps(input, m.w, m.c, size, memory);
  }

  lemma StepValid(input: seq<byte>, m: Machine, s: Step)
    requires Valid(input, m) && Enabled(m, s)
    ensures Valid(input, Apply(input, m, s))
  {
    match s
    case KernelActs(k) => KernelValid(input, m, k);
    case StartRead(size, memory) => ReadValid(input, m, size, memory);
    case TakeCqe => TakeValid(input, m);
    case HandleCqe => HandleValid(input, m);
    case LeaveLoop => LeaveValid(input, m);
    case Abandon => AbandonValid(input, m);
    case DrainCqe => DrainValid(input, m);
  }

  lemma {:induction false} RunValid(input: seq<byte>, states: seq<Machine>, m: Machine)
    requires IsRun(input, states, m)
    ensures Valid(input, m)
    decreases |states|
  {
    if |states| == 1 {
      HandIs(m);
    } else {
      var n := |states| - 2;
      var rest := states[..n + 1];
      forall i | 0 <= i < |rest| - 1 ensures Linked(input, rest, i) {
        assert Linked(input, states, i);
      }
      RunValid(input, rest, states[n]);
      assert Linked(input, states, n);
      var s :| Enabled(states[n], s) && states[n + 1] == Apply(input, states[n], s);
      StepValid(input, states[n], s);
    }
  }

  /** Every state of every run satisfies the invariant of its phase. */
  lemma ReachableValid(input: seq<byte>, m: Machine)
    requires Reachable(input, m)
    ensures Valid(input, m)
  {
    var states :| IsRun(input, states, m);
    RunValid(input, states, m);
  }

  // ---- what holds in every run ---------------------------------------------

  /** In the main loop `write_left` is what has not been asked for and what is being read,
      and each request in flight is in one place: queued, running, completed or in hand. */
  lemma MainLoopBalance(input: seq<byte>, m: Machine)
    requires Reachable(input, m) && m.phase.Looping?
    ensures m.c.writeLeft == m.c.insize + ReadBytes(m.w.reqs)
    ensures |m.w.sq| + |m.w.running| + |m.w.cq| + |m.hand| == m.c.reading + m.c.writing <= QD
    ensures m.c.offset == End(m.w.reqs) && m.c.offset + m.c.insize == |input|
  {
    ReachableValid(input, m);
    HandIs(m);
    RoomInSq(m.w, InHand(m));
  }

  /** The completion ring, of twice QD entries, never overflows in the main loop, although a
      completion keeps its place until its request has been queued again. */
  lemma CqHasRoom(input: seq<byte>, m: Machine)
    requires Reachable(input, m) && m.phase.Looping?
    ensures |m.w.cq| + 1 <= 2 * QD
  {
    MainLoopBalance(input, m);
  }

  ghost predicate SameOrder(r: Request, r': Request) {
    r'.read == r.read && r'.offset == r.offset && r'.base == r.base && r'.left == r.left
  }

  /** What a queued or running SQE asks for - direction, offset, address and length - is what
      its record says, in every run: no step changes those fields of the record. */
  lemma QueuedIsStable(input: seq<byte>, m: Machine, s: Step, id: nat)
    requires Reachable(input, m) && Enabled(m, s) && id in multiset(m.w.sq) + m.w.running
    ensures id < |m.w.reqs| <= |Apply(input, m, s).w.reqs|
    ensures SameOrder(m.w.reqs[id], Apply(input, m, s).w.reqs[id])
  {
    ReachableValid(input, m);
    ValidInv(input, m);
    HandIs(m);
    OnePlace(m.w, InHand(m), id);
    match s
    case KernelActs(k) => KernelSameOrder(input, m.w, k, id);
    case _ =>
  }

  lemma KernelSameOrder(input: seq<byte>, w: World, k: KernelStep, id: nat)
    requires id < |w.reqs|
    ensures |Kernel(input, w, k).reqs| == |w.reqs| && SameOrder(w.reqs[id], Kernel(input, w, k).reqs[id])
  {
  }

  /** No run ever writes a wrong byte. */
  lemma NoWrongByte(input: seq<byte>, m: Machine)
    requires Reachable(input, m)
    ensures Right(input, m.w.out)
  {
    ReachableValid(input, m);
    ValidInv(input, m);
  }

  /** A completion in hand can be handled, and there is an SQE for its request. */
  lemma InHandFits(input: seq<byte>, m: Machine, e: Cqe)
    requires Reachable(input, m) && m.hand == [e]
    ensures Handleable(m.w, e)
    ensures m.phase.Looping? ==> |m.w.sq| < QD
    ensures m.phase.Looping? ==> (Handle(m.w, m.c, e).Stop? <==> e.res < 0 && e.res != -EAGAIN)
    ensures m.phase.Looping? ==>
              var r := m.w.reqs[e.id];
              if r.read then r.len <= m.c.writeLeft && 0 < m.c.reading else 0 < m.c.writing
  {
    ReachableValid(input, m);
    if m.phase.Looping? {
      HandIs(m);
      HandleKeeps(input, m.w, m.c, e);
      SqeForRequeue(input, m.w, m.c, e.id);
    }
  }

  /** There is an SQE for a new read, and its block follows the last. */
  lemma NextReadFits(input: seq<byte>, m: Machine)
    requires Reachable(input, m) && m.phase.Looping?
    ensures m.c.reading + m.c.writing < QD ==> |m.w.sq| < QD
    ensures m.c.offset == End(m.w.reqs) && m.c.insize <= m.c.writeLeft
  {
    MainLoopBalance(input, m);
  }

  /** The program has waited out its writes. */
  predicate Finished(m: Machine) { !m.phase.Looping? && m.hand == [] && m.c.writing == 0 }

  /** The output is the input exactly if no batch submit failed and every completion that
      the drain loop took was for the full length. */
  lemma CopiedIff(input: seq<byte>, m: Machine)
    requires Reachable(input, m) && Finished(m)
    ensures m.w.out == FileOf(input) <==> m.phase.Draining? && AllFull(m.drained)
  {
    ReachableValid(input, m);
    HandIs(m);
    if m.phase.Draining? {
      WholeIffFull(input, m.w, m.drained);
    } else {
      AbandonedIsNotWhole(input, m.w, InHand(m));
    }
  }

  // ---- two runs that copy less than the file -------------------------------

  /** A failed first batch: `copy_file` returns 0 and has written nothing. */
  lemma FailedBatchCopiesNothing(a: byte) returns (m: Machine)
    ensures Reachable([a], m) && Finished(m) && m.w.out == map[] != FileOf([a])
  {
    var s := StartRead(1, [0]);
    Starts([a]);
    Goes([a], Initial([a]), s);
    m := Apply([a], Initial([a]), s);
    Goes([a], m, Abandon);
    m := Apply([a], m, Abandon);
    assert 0 in FileOf([a]);
  }

  function OneBlock(r: Request, sq: seq<nat>, running: multiset<nat>, cq: seq<Cqe>, out: map<nat, byte>): World {
    World([r], sq, running, cq, out)
  }

  function ReadingBlock(): Request { Request(true, 0, 2, 0, 0, 2, [0, 0], 0, false) }
  function WritingBlock(a: byte, b: byte): Request { Request(false, 0, 2, 0, 0, 2, [a, b], 0, false) }

  const ASKED: Counters := Counters(0, 2, 2, 1, 0)
  const TURNED: Counters := Counters(0, 0, 2, 0, 1)

  lemma Reaches(input: seq<byte>, m: Machine, s: Step, t: Machine)
    requires Reachable(input, m) && Enabled(m, s) && Apply(input, m, s) == t
    ensures Reachable(input, t)
  {
    Goes(input, m, s);
  }

  lemma BlockIsRead(a: byte, b: byte) returns (m: Machine)
    ensures Reachable([a, b], m)
    ensures m == Machine(OneBlock(ReadingBlock().(reach := 2, buf := [a, b]), [], multiset{}, [Cqe(0, 2)], map[]),
                         ASKED, Looping, [], [])
  {
    Starts([a, b]);
    var m1 := Machine(OneBlock(ReadingBlock(), [0], multiset{}, [], map[]), ASKED, Looping, [], []);
    Reaches([a, b], Initial([a, b]), StartRead(2, [0, 0]), m1);
    var m2 := m1.(w := OneBlock(ReadingBlock(), [], multiset{0}, [], map[]));
    Reaches([a, b], m1, KernelActs(Take), m2);
    assert Patch([0, 0], 0, [a, b][0..2]) == [a, b];
    m := m1.(w := OneBlock(ReadingBlock().(reach := 2, buf := [a, b]), [], multiset{}, [Cqe(0, 2)], map[]));
    Reaches([a, b], m2, KernelActs(Finish(0, 2)), m);
  }

  lemma BlockIsTurned(a: byte, b: byte) returns (m: Machine)
    ensures Reachable([a, b], m)
    ensures m == Machine(OneBlock(WritingBlock(a, b), [0], multiset{}, [], map[]), TURNED, Draining, [], [])
  {
    var m3 := BlockIsRead(a, b);
    var m4 := m3.(w := m3.w.(cq := []), hand := [Cqe(0, 2)]);
    Reaches([a, b], m3, TakeCqe, m4);
    var m5 := Machine(OneBlock(WritingBlock(a, b), [0], multiset{}, [], map[]), TURNED, Looping, [], []);
    Reaches([a, b], m4, HandleCqe, m5);
    m := m5.(phase := Draining);
    Reaches([a, b], m5, LeaveLoop, m);
  }

  /** A short write that the drain loop takes: no submit fails, `copy_file` returns 0, and
      the second byte is missing. */
  lemma ShortDrainLosesAByte(a: byte, b: byte) returns (m: Machine)
    ensures Reachable([a, b], m) && Finished(m) && m.phase.Draining?
    ensures m.w.out == map[0 := a] != FileOf([a, b])
  {
    var m6 := BlockIsTurned(a, b);
    var m7 := m6.(w := OneBlock(WritingBlock(a, b), [], multiset{0}, [], map[]));
    Reaches([a, b], m6, KernelActs(Take), m7);
    var r := WritingBlock(a, b).(reach := 1);
    var m8 := m6.(w := OneBlock(r, [], multiset{}, [Cqe(0, 1)], map[0 := a]));
    assert Stored(map[], WritingBlock(a, b), 1) == map[0 := a];
    Reaches([a, b], m7, KernelActs(Finish(0, 1)), m8);
    var m9 := m8.(w := m8.w.(cq := []), hand := [Cqe(0, 1)]);
    Reaches([a, b], m8, TakeCqe, m9);
    Goes([a, b], m9, DrainCqe);
    m := Apply([a, b], m9, DrainCqe);
    assert 1 in FileOf([a, b]);
  }
}
