/** The loop of `_io_uring_get_cqe`: look at the ring, decide whether to enter the
kernel, enter it, look again.

What the kernel does during one turn of the loop is a `Round`. A run that has used
up its rounds without leaving the loop is `Looping`; nothing bounds the number of
turns in general, so everything below holds for every finite list of rounds.
*/
module WaitLoop {
  import opened Common
  import opened Words
  import opened CompletionRing
  import SqPoll

  /** `struct get_data`; `arg->ts` is set exactly when `has_ts` is. */
  datatype GetData = GetData(submit: nat, waitNr: nat, hasTs: bool)

  datatype Round = Round(
    arrivals: seq<seq<Arrival>>,   // posted while __io_uring_peek_cqe runs
    between: seq<Arrival>,         // posted before the flags are read
    taskrun: bool,                 // IORING_SQ_TASKRUN
    needWakeup: bool,              // IORING_SQ_NEED_WAKEUP
    enter: Enter)

  /** What one `io_uring_enter` does: `ret` is capped by the number of entries it was
      asked to submit; a failing call may or may not flush the backlog. */
  datatype Enter = Enter(ret: int, posts: seq<Arrival>, flushes: bool)

  function Returned(e: Enter, submit: nat): int { if e.ret <= submit then e.ret else submit }

  function EnterRing(c: Config, q: Cq, e: Enter, getevents: bool): (r: Cq)
    requires Inv(c, q)
    ensures Inv(c, r) && r.head == q.head && r.khead == q.khead && q.posted <= r.posted
    ensures Stream(r) == Stream(q) + Cqes(e.posts)
  {
    var f := if (getevents && e.ret >= 0) || e.flushes then FlushBacklog(c, q) else q;
    FlushKeeps(c, q);
    PostsKeep(c, f, e.posts);
    Posts(c, f, e.posts)
  }

  /** What happened on the way: the value of every enter, and whether a successful one
      neither consumed an entry nor left a completion in the ring. */
  datatype Trace = Trace(entered: seq<int>, stalled: bool)

  datatype Outcome =
    | Done(err: int, cqe: Option<nat>, q: Cq, submit: nat, trace: Trace)
    | Looping(q: Cq, submit: nat, trace: Trace)

  function Else(err: int, other: int): int { if err == 0 then other else err }

  /** One turn: either the loop is left with an outcome, or it goes round with a new state. */
  datatype Turn = Leave(out: Outcome) | Again(q: Cq, submit: nat, err: int, trace: Trace)

  function OneTurn(c: Config, q: Cq, d: GetData, looped: bool, err: int, t: Trace, r: Round): Turn
    requires Inv(c, q)
  {
    var p := Peek(c, q, r.arrivals);
    PeekResult(c, q, r.arrivals);
    if p.err != 0 then Leave(Done(Else(err, p.err), p.cqe, p.q, d.submit, t))
    else
      PostsKeep(c, p.q, r.between);
      Decide(c, Posts(c, p.q, r.between), p.cqe, p.available, d, looped, err, t, r)
  }

  /** The rest of a turn, after the look: `q` is the ring when the flags are read. */
  function Decide(c: Config, q: Cq, cqe: Option<nat>, available: u32,
                  d: GetData, looped: bool, err: int, t: Trace, r: Round): Turn
    requires Inv(c, q)
  {
    var nothing := cqe.None? && d.waitNr == 0 && d.submit == 0;
    if nothing && (looped || !NeedsEnter(c, q, r.taskrun)) then
      Leave(Done(Else(err, -EAGAIN), cqe, q, d.submit, t))
    else
      var getevents := d.waitNr > available || nothing;
      if !getevents && !NeedsSubmit(c, d.submit, r) then Leave(Done(err, cqe, q, d.submit, t))
      else if looped && d.hasTs then
        Leave(Done(if cqe.None? then Else(err, -ETIME) else err, cqe, q, d.submit, t))
      else
        var ret := Returned(r.enter, d.submit);
        var q' := EnterRing(c, q, r.enter, getevents);
        var t' := t.(entered := t.entered + [ret]);
        if ret < 0 then Leave(Done(Else(err, ret), cqe, q', d.submit, t'))
        else if cqe.Some? then Leave(Done(err, cqe, q', d.submit - ret, t'))
        else
          Again(q', d.submit - ret, if looped then err else ret,
                t'.(stalled := t.stalled || (ret == 0 && q'.head == |q'.posted|)))
  }

  function RingAfter(turn: Turn): Cq { if turn.Leave? then turn.out.q else turn.q }

  predicate NeedsSubmit(c: Config, submit: nat, r: Round) {
    SqPoll.SqRingNeedsEnter(submit, c.sqpoll, r.needWakeup).0
  }

  lemma TurnKeeps(c: Config, q: Cq, d: GetData, looped: bool, err: int, t: Trace, r: Round)
    requires Inv(c, q)
    ensures match OneTurn(c, q, d, looped, err, t, r)
            case Leave(o) => o.Done? && Inv(c, o.q)
            case Again(q', _, _, _) => Inv(c, q')
  {
    PeekResult(c, q, r.arrivals);
    var p := Peek(c, q, r.arrivals);
    PostsKeep(c, p.q, r.between);
  }

  function Loop(c: Config, q: Cq, d: GetData, looped: bool, err: int, t: Trace, rounds: seq<Round>): Outcome
    requires Inv(c, q)
    decreases |rounds|
  {
    if rounds == [] then Looping(q, d.submit, t)
    else
      TurnKeeps(c, q, d, looped, err, t, rounds[0]);
      match OneTurn(c, q, d, looped, err, t, rounds[0])
      case Leave(o) => o
      case Again(q', submit', err', t') => Loop(c, q', d.(submit := submit'), true, err', t', rounds[1..])
  }

  const START: Trace := Trace([], false)

  function GetCqe(c: Config, q: Cq, d: GetData, rounds: seq<Round>): Outcome
    requires Inv(c, q)
  {
    Loop(c, q, d, false, 0, START, rounds)
  }

  // ---- accounting ----------------------------------------------------------

  function Consumed(entered: seq<int>): int {
    if entered == [] then 0
    else
      var last := entered[|entered| - 1];
      Consumed(entered[..|entered| - 1]) + (if last < 0 then 0 else last)
  }

  lemma ConsumedAppend(entered: seq<int>, ret: int)
    ensures Consumed(entered + [ret]) == Consumed(entered) + (if ret < 0 then 0 else ret)
  {
    assert (entered + [ret])[..|entered|] == entered;
  }

  lemma TurnAccounts(c: Config, q: Cq, d: GetData, looped: bool, err: int, t: Trace, r: Round)
    requires Inv(c, q)
    ensures match OneTurn(c, q, d, looped, err, t, r)
            case Leave(o) => Consumed(o.trace.entered) + o.submit == Consumed(t.entered) + d.submit
            case Again(_, submit', _, t') => Consumed(t'.entered) + submit' == Consumed(t.entered) + d.submit
  {
    ConsumedAppend(t.entered, Returned(r.enter, d.submit));
  }

  lemma {:induction false} LoopAccounts(c: Config, q: Cq, d: GetData, looped: bool, err: int, t: Trace, rounds: seq<Round>)
    requires Inv(c, q)
    ensures var o := Loop(c, q, d, looped, err, t, rounds);
            Consumed(o.trace.entered) + o.submit == Consumed(t.entered) + d.submit
    decreases |rounds|
  {
    if rounds != [] {
      var r := rounds[0];
      TurnKeeps(c, q, d, looped, err, t, r);
      TurnAccounts(c, q, d, looped, err, t, r);
      match OneTurn(c, q, d, looped, err, t, r)
      case Leave(_) =>
      case Again(q', submit', err', t') =>
        LoopAccounts(c, q', d.(submit := submit'), true, err', t', rounds[1..]);
    }
  }

  /** Successful enters account for every entry: what they returned and what is left
      over add up to what the caller asked to submit. */
  lemma GetCqeAccounts(c: Config, q: Cq, d: GetData, rounds: seq<Round>)
    requires Inv(c, q)
    ensures var o := GetCqe(c, q, d, rounds);
            Consumed(o.trace.entered) + o.submit == d.submit
  {
    LoopAccounts(c, q, d, false, 0, START, rounds);
  }

  lemma SecondTurnLeaves(c: Config, q: Cq, d: GetData, err: int, t: Trace, r: Round)
    requires Inv(c, q) && (d.hasTs || (d.submit == 0 && d.waitNr == 0))
    ensures var turn := OneTurn(c, q, d, true, err, t, r);
            turn.Leave? && turn.out.trace == t
  {
    PeekResult(c, q, r.arrivals);
  }

  lemma SecondTurnIsLast(c: Config, q: Cq, d: GetData, err: int, t: Trace, rounds: seq<Round>)
    requires Inv(c, q) && (d.hasTs || (d.submit == 0 && d.waitNr == 0))
    ensures var o := Loop(c, q, d, true, err, t, rounds);
            o.trace == t && (rounds != [] ==> o.Done?)
  {
    if rounds != [] {
      TurnKeeps(c, q, d, true, err, t, rounds[0]);
      SecondTurnLeaves(c, q, d, err, t, rounds[0]);
    }
  }

  lemma TurnEntersOnce(c: Config, q: Cq, d: GetData, looped: bool, err: int, t: Trace, r: Round)
    requires Inv(c, q)
    ensures match OneTurn(c, q, d, looped, err, t, r)
            case Leave(o) => |o.trace.entered| <= |t.entered| + 1
            case Again(_, submit', _, t') => submit' <= d.submit && |t'.entered| == |t.entered| + 1
  {
  }

  /** A caller with a timeout, or with nothing to submit or wait for, enters at most
      once, and two turns are enough. */
  lemma EntersAtMostOnce(c: Config, q: Cq, d: GetData, rounds: seq<Round>)
    requires Inv(c, q) && (d.hasTs || (d.submit == 0 && d.waitNr == 0))
    ensures var o := GetCqe(c, q, d, rounds);
            |o.trace.entered| <= 1 && (|rounds| >= 2 ==> o.Done?)
  {
    if rounds != [] {
      TurnKeeps(c, q, d, false, 0, START, rounds[0]);
      TurnEntersOnce(c, q, d, false, 0, START, rounds[0]);
      match OneTurn(c, q, d, false, 0, START, rounds[0])
      case Leave(_) =>
      case Again(q', submit', err', t') =>
        SecondTurnIsLast(c, q', d.(submit := submit'), err', t', rounds[1..]);
    }
  }

  // ---- the result ----------------------------------------------------------

  /** A completion that is returned is the oldest unconsumed one, whoever calls. */
  ghost predicate OldestUnconsumed(c: Config, o: Outcome)
  {
    o.Done? && o.cqe.Some? ==>
      o.q.head < |o.q.posted| && At(o.q, o.cqe.value) == Some(o.q.posted[o.q.head]) && !Hidden(c, o.q.posted[o.q.head])
  }

  lemma TurnReturnsOldest(c: Config, q: Cq, d: GetData, looped: bool, err: int, t: Trace, r: Round)
    requires Inv(c, q)
    ensures var turn := OneTurn(c, q, d, looped, err, t, r);
            turn.Leave? ==> OldestUnconsumed(c, turn.out)
  {
    TurnKeeps(c, q, d, looped, err, t, r);
    PeekResult(c, q, r.arrivals);
    var p := Peek(c, q, r.arrivals);
    PostsKeep(c, p.q, r.between);
    var turn := OneTurn(c, q, d, looped, err, t, r);
    if turn.Leave? && turn.out.cqe.Some? {
      AvailableIsCount(c, turn.out.q);
      assert p.q.posted <= turn.out.q.posted;
    }
  }

  lemma {:induction false} LoopReturnsOldest(c: Config, q: Cq, d: GetData, looped: bool, err: int, t: Trace, rounds: seq<Round>)
    requires Inv(c, q)
    ensures OldestUnconsumed(c, Loop(c, q, d, looped, err, t, rounds))
    decreases |rounds|
  {
    if rounds != [] {
      TurnKeeps(c, q, d, looped, err, t, rounds[0]);
      TurnReturnsOldest(c, q, d, looped, err, t, rounds[0]);
      match OneTurn(c, q, d, looped, err, t, rounds[0])
      case Leave(_) =>
      case Again(q', submit', err', t') =>
        LoopReturnsOldest(c, q', d.(submit := submit'), true, err', t', rounds[1..]);
    }
  }

  /** The contract of the callers with nothing to submit: zero or a negative error, and
      no completion only with an error. */
  ghost predicate ZeroMeansCqe(o: Outcome) {
    o.Done? ==> o.err <= 0 && (o.cqe.None? ==> o.err < 0)
  }

  lemma TurnZeroMeansCqe(c: Config, q: Cq, d: GetData, looped: bool, t: Trace, r: Round)
    requires Inv(c, q) && d.submit == 0
    ensures match OneTurn(c, q, d, looped, 0, t, r)
            case Leave(o) => ZeroMeansCqe(o)
            case Again(_, submit', err', _) => submit' == 0 && err' == 0
  {
    PeekResult(c, q, r.arrivals);
  }

  lemma {:induction false} LoopZeroMeansCqe(c: Config, q: Cq, d: GetData, looped: bool, t: Trace, rounds: seq<Round>)
    requires Inv(c, q) && d.submit == 0
    ensures ZeroMeansCqe(Loop(c, q, d, looped, 0, t, rounds))
    decreases |rounds|
  {
    if rounds != [] {
      TurnKeeps(c, q, d, looped, 0, t, rounds[0]);
      TurnZeroMeansCqe(c, q, d, looped, t, rounds[0]);
      match OneTurn(c, q, d, looped, 0, t, rounds[0])
      case Leave(_) =>
      case Again(q', _, _, t') => LoopZeroMeansCqe(c, q', d, true, t', rounds[1..]);
    }
  }

  /** The result contract of `io_uring_peek_cqe`, `io_uring_wait_cqe` and of
      `io_uring_wait_cqes` on a kernel with extended arguments. */
  lemma WaitContract(c: Config, q: Cq, d: GetData, rounds: seq<Round>)
    requires Inv(c, q) && d.submit == 0
    ensures var o := GetCqe(c, q, d, rounds);
            && OldestUnconsumed(c, o) && ZeroMeansCqe(o)
            && (o.Done? && o.err == 0 ==> o.cqe.Some?)
  {
    LoopReturnsOldest(c, q, d, false, 0, START, rounds);
    LoopZeroMeansCqe(c, q, d, false, START, rounds);
  }

  // ---- termination ---------------------------------------------------------

  /** With extended arguments nothing in the ring is skipped, so a turn that finds a
      completion is the last one. */
  lemma FindsAndLeaves(c: Config, q: Cq, d: GetData, looped: bool, err: int, t: Trace, r: Round)
    requires Inv(c, q) && c.extArg && q.head < |q.posted|
    ensures OneTurn(c, q, d, looped, err, t, r).Leave?
  {
    PeekResult(c, q, r.arrivals);
  }

  lemma TurnProgress(c: Config, q: Cq, d: GetData, looped: bool, err: int, t: Trace, r: Round)
    requires Inv(c, q)
    ensures match OneTurn(c, q, d, looped, err, t, r)
            case Leave(o) => t.stalled == o.trace.stalled
            case Again(q', submit', _, t') =>
              && submit' <= d.submit && (t.stalled ==> t'.stalled)
              && (t'.stalled || submit' < d.submit || q'.head < |q'.posted|)
  {
    PeekResult(c, q, r.arrivals);
    var p := Peek(c, q, r.arrivals);
    PostsKeep(c, p.q, r.between);
  }

  lemma {:induction false} LoopEnds(c: Config, q: Cq, d: GetData, looped: bool, err: int, t: Trace, rounds: seq<Round>)
    requires Inv(c, q) && c.extArg
    requires |rounds| >= d.submit + 2 || (q.head < |q.posted| && |rounds| >= 1) || t.stalled
    ensures var o := Loop(c, q, d, looped, err, t, rounds); o.Done? || o.trace.stalled
    decreases |rounds|
  {
    if rounds != [] {
      var r := rounds[0];
      TurnKeeps(c, q, d, looped, err, t, r);
      TurnProgress(c, q, d, looped, err, t, r);
      if q.head < |q.posted| {
        FindsAndLeaves(c, q, d, looped, err, t, r);
      }
      match OneTurn(c, q, d, looped, err, t, r)
      case Leave(_) =>
      case Again(q', submit', err', t') =>
        LoopEnds(c, q', d.(submit := submit'), true, err', t', rounds[1..]);
    }
  }

  /** If every successful enter consumes an entry or leaves a completion, the loop is
      left within `submit + 2` turns. */
  lemma GetCqeEnds(c: Config, q: Cq, d: GetData, rounds: seq<Round>)
    requires Inv(c, q) && c.extArg && |rounds| >= d.submit + 2
    ensures var o := GetCqe(c, q, d, rounds); o.Done? || o.trace.stalled
  {
    LoopEnds(c, q, d, false, 0, START, rounds);
  }
}
