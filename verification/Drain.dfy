/** Draining: what `-EAGAIN` from `io_uring_peek_cqe` tells, and what repeated rounds of peek
and seen deliver, from the ring and from the overflow behind it.
*/
module Drain {
  import opened Common
  import opened Words
  import opened CompletionRing
  import opened WaitLoop
  import opened Delivery
  import opened Stopping

  /** A call whose enters, if any, succeed. */
  predicate EntersSucceed(call: Call) {
    forall i :: 0 <= i < |call.rounds| ==> call.rounds[i].enter.ret >= 0
  }

  /** Something is outstanding, in the ring or behind it, and the oldest may be shown. */
  predicate NextIsVisible(c: Config, q: Cq)
    requires q.head <= |q.posted|
  {
    q.head < |Stream(q)| && !Hidden(c, Stream(q)[q.head])
  }

  lemma TurnShows(c: Config, q: Cq, d: GetData, looped: bool, t: Trace, r: Round)
    requires Inv(c, q) && q.head < |q.posted| && !Hidden(c, q.posted[q.head]) && d.submit == 0 && r.enter.ret >= 0
    ensures var turn := OneTurn(c, q, d, looped, 0, t, r);
            turn.Leave? && turn.out.Done? && turn.out.err == 0 && turn.out.cqe.Some?
  {
    PeekResult(c, q, r.arrivals);
    PeekFinds(c, q, r.arrivals);
  }

  lemma LoopShowsNext(c: Config, q: Cq, d: GetData, looped: bool, t: Trace, rounds: seq<Round>)
    requires Inv(c, q) && q.head < |q.posted| && !Hidden(c, q.posted[q.head]) && d.submit == 0
    requires forall i :: 0 <= i < |rounds| ==> rounds[i].enter.ret >= 0
    ensures var o := Loop(c, q, d, looped, 0, t, rounds);
            if rounds == [] then o.Looping? else o.Done? && o.err == 0 && o.cqe.Some?
  {
    if rounds != [] {
      TurnShows(c, q, d, looped, t, rounds[0]);
    }
  }

  lemma TurnFetches(c: Config, q: Cq, d: GetData, r: Round)
    requires Inv(c, q) && q.head == |q.posted| && q.backlog != [] && !Hidden(c, q.backlog[0])
    requires d.submit == 0 && r.enter.ret >= 0
    ensures var turn := OneTurn(c, q, d, false, 0, START, r);
            && turn.Again? && Inv(c, turn.q) && turn.submit == 0 && turn.err == 0
            && turn.q.head < |turn.q.posted| && !Hidden(c, turn.q.posted[turn.q.head])
  {
    TurnFlushes(c, q, d, START, r);
    var turn := OneTurn(c, q, d, false, 0, START, r);
    OrderFits(c.order);
    assert FirstFlush(c, q.backlog)[0] == q.backlog[0];
    assert turn.Again? ==> InRing(turn.q)[0] == q.backlog[0];
  }

  lemma LoopFetches(c: Config, q: Cq, d: GetData, rounds: seq<Round>)
    requires Inv(c, q) && q.head == |q.posted| && q.backlog != [] && !Hidden(c, q.backlog[0]) && d.submit == 0
    requires forall i :: 0 <= i < |rounds| ==> rounds[i].enter.ret >= 0
    ensures var o := GetCqe(c, q, d, rounds);
            && (o.Done? ==> o.err == 0 && o.cqe.Some?)
            && (|rounds| >= 2 ==> o.Done?)
  {
    if rounds != [] {
      TurnFetches(c, q, d, rounds[0]);
      var turn := OneTurn(c, q, d, false, 0, START, rounds[0]);
      assert d.(submit := turn.submit) == d;
      LoopShowsNext(c, turn.q, d, true, turn.trace, rounds[1..]);
    }
  }

  lemma PassedFirst(c: Config, q: Cq, r: Cq)
    requires Inv(c, q) && Passed(c, q, r)
    ensures q.head < r.head ==> Hidden(c, Stream(r)[q.head])
  {
    if q.head < r.head {
      assert r.posted[q.head..r.head][0] == Stream(r)[q.head];
    }
  }

  /** An oldest completion that may be shown is returned, in the ring or behind it. */
  lemma VisibleIsFetched(c: Config, q: Cq, call: Call)
    requires Inv(c, q) && NextIsVisible(c, q) && EntersSucceed(call)
    ensures var o := Fetch(c, q, call);
            && (o.Done? ==> o.err == 0 && o.cqe.Some?) && o.q.head == q.head
            && (|call.rounds| >= 2 ==> o.Done?)
  {
    FetchResult(c, q, call);
    PassedFirst(c, q, Fetch(c, q, call).q);
    PeekResult(c, q, call.arrivals);
    if q.head < |q.posted| {
      PeekFinds(c, q, call.arrivals);
    } else {
      PeekFindsNothing(c, q, call.arrivals);
      LoopFetches(c, Peek(c, q, call.arrivals).q, GetData(0, call.waitNr, false), call.rounds);
    }
  }

  /** `io_uring_peek_cqe` with successful enters returned -EAGAIN. */
  predicate SaysAgain(c: Config, q: Cq, call: Call)
    requires Inv(c, q)
  {
    call.waitNr == 0 && EntersSucceed(call) && Fetch(c, q, call).Done? && Fetch(c, q, call).err == -EAGAIN
  }

  /** On every ring: -EAGAIN means that when the call began everything had been consumed, in
      the ring and behind it, or an internal timeout came next. */
  lemma AgainMeansDrained(c: Config, q: Cq, call: Call)
    requires Inv(c, q) && SaysAgain(c, q, call)
    ensures q.head == |Stream(q)| || Hidden(c, Stream(q)[q.head])
    ensures c.extArg ==> q.head == |q.posted| && q.backlog == []
  {
    if NextIsVisible(c, q) {
      VisibleIsFetched(c, q, call);
    }
  }

  /** Repeating peek and seen until -EAGAIN delivers, in posting order and once each, every
      completion of the ring and of the backlog, including all that arrived before the last
      call; on a ring without extended arguments, every one before an internal timeout. */
  lemma DrainDeliversEverything(c: Config, q: Cq, calls: seq<Call>, s: Session, last: Call)
    requires Inv(c, q) && Receives(c, Session(q, []), calls, s) && Inv(c, s.q) && SaysAgain(c, s.q, last)
    ensures Stream(q) <= Stream(s.q) && q.head <= s.q.head <= |Stream(s.q)|
    ensures s.delivered == Visible(c, Stream(s.q)[q.head..s.q.head])
    ensures s.q.head == |Stream(s.q)| || Hidden(c, Stream(s.q)[s.q.head])
    ensures c.extArg ==> s.delivered == Stream(s.q)[q.head..]
  {
    DeliversWhatWasPosted(c, q, calls, s);
    AgainMeansDrained(c, s.q, last);
    DrainedSession(c, q, s);
  }

  lemma DrainedSession(c: Config, q: Cq, s: Session)
    requires q.head <= s.q.head <= |s.q.posted|
    requires s.delivered == Visible(c, s.q.posted[q.head..s.q.head])
    requires c.extArg ==> s.delivered == s.q.posted[q.head..s.q.head] && s.q.head == |s.q.posted| && s.q.backlog == []
    ensures s.delivered == Visible(c, Stream(s.q)[q.head..s.q.head])
    ensures c.extArg ==> s.delivered == Stream(s.q)[q.head..]
  {
    assert Stream(s.q)[q.head..s.q.head] == s.q.posted[q.head..s.q.head];
    assert c.extArg ==> Stream(s.q) == s.q.posted;
  }

  // ---- when -EAGAIN can be trusted -----------------------------------------

  /** Nothing that may be shown was left when -EAGAIN was returned. */
  ghost predicate Honest(c: Config, q: Cq, call: Call) {
    Inv(c, q) && SaysAgain(c, q, call) ==> Visible(c, Outstanding(q)) == []
  }

  function Unexpired(): Cqe { Cqe(LIBURING_UDATA_TIMEOUT, 0, 0) }

  /** A ring's worth of internal timeouts in the overflow, and a completion behind them. */
  function Buried(c: Config): Cq {
    var size := if c.cqe32 then 2 * Entries(c) else Entries(c);
    Cq(0, 0, seq(size, _ => Unexpired()), seq(Entries(c), _ => Unexpired()) + [Cqe(0, 0, 0)], 0, [])
  }

  lemma {:induction false} AllUnexpired(c: Config, s: seq<Cqe>)
    requires !c.extArg && forall i :: 0 <= i < |s| ==> s[i] == Unexpired()
    ensures FirstStop(c, s).None?
    decreases |s|
  {
    if s != [] {
      AllUnexpired(c, s[1..]);
    }
  }

  /** Without extended arguments, -EAGAIN although a completion is waiting in the overflow,
      for any ring size. */
  lemma AgainMayHide(c: Config)
    requires c.order <= 16 && !c.extArg
    ensures Inv(c, Buried(c)) && SaysAgain(c, Buried(c), QuietCall()) && Cqe(0, 0, 0) in Outstanding(Buried(c))
  {
    var q := Buried(c);
    var call := QuietCall();
    var d := GetData(0, 0, false);
    var r := call.rounds[0];
    assert Inv(c, q);
    PeekFindsNothing(c, q, []);
    assert Peek(c, q, []).q == q;
    TurnFlushes(c, q, d, START, r);
    TurnKeeps(c, q, d, false, 0, START, r);
    BuriedTurn(c, q, r);
    var turn := OneTurn(c, q, d, false, 0, START, r);
    PeekFindsNothing(c, turn.q, []);
    PeekResult(c, turn.q, []);
    assert call.rounds[1..][0] == r;
    assert q.backlog[Entries(c)] == Cqe(0, 0, 0);
  }

  lemma BuriedTurn(c: Config, q: Cq, r: Round)
    requires c.order <= 16 && !c.extArg && q == Buried(c) && r == QuietCall().rounds[0] && Inv(c, q)
    ensures var turn := OneTurn(c, q, GetData(0, 0, false), false, 0, START, r);
            turn.Again? && Inv(c, turn.q) && FirstStop(c, InRing(turn.q)).None? && turn.err == 0
  {
    PeekFindsNothing(c, q, []);
    FlushFromEmpty(c, q);
    assert Peek(c, q, []).q == q && Posts(c, q, []) == q;
    var f := FlushBacklog(c, q);
    assert Posts(c, f, []) == f;
    assert InRing(f) == seq(Entries(c), _ => Unexpired());
    AllUnexpired(c, InRing(f));
  }

  /** -EAGAIN can be trusted on every ring of a configuration, against every kernel whose
      enters succeed, exactly if it has extended arguments. */
  lemma HonestIffExtArg(c: Config)
    requires c.order <= 16
    ensures (forall q: Cq, call: Call :: Honest(c, q, call)) <==> c.extArg
  {
    if c.extArg {
      forall q: Cq, call: Call ensures Honest(c, q, call) {
        if Inv(c, q) && SaysAgain(c, q, call) {
          AgainMeansDrained(c, q, call);
          assert Outstanding(q) == [];
        }
      }
    } else {
      AgainMayHide(c);
      var q := Buried(c);
      VisibleKeeps(c, Outstanding(q), Cqe(0, 0, 0));
      assert !Honest(c, q, QuietCall());
    }
  }

  lemma {:induction false} VisibleKeeps(c: Config, s: seq<Cqe>, e: Cqe)
    requires e in s && !Hidden(c, e)
    ensures e in Visible(c, s)
    decreases |s|
  {
    var n := |s| - 1;
    if s[n] != e {
      assert e in s[..n];
      VisibleKeeps(c, s[..n], e);
    }
  }

  // ---- a kernel that has stopped posting -----------------------------------

  predicate QuietRound(r: Round) {
    r.arrivals == [] && r.between == [] && r.enter.posts == [] && r.enter.ret >= 0
  }

  function QuietCall(): Call {
    var r := Round([], [], false, false, Enter(0, [], false));
    Call(0, [], [r, r])
  }

  lemma {:induction false} QuietPeek(c: Config, q: Cq)
    requires Inv(c, q)
    ensures Stream(Peek(c, q, []).q) == Stream(q)
    decreases |q.posted| - q.head
  {
    LookResult(c, q);
    if Look(c, q).1 {
      QuietPeek(c, Advance(q, 1));
    }
  }

  lemma QuietTurn(c: Config, q: Cq, d: GetData, looped: bool, err: int, t: Trace, r: Round)
    requires Inv(c, q) && QuietRound(r)
    ensures Stream(RingAfter(OneTurn(c, q, d, looped, err, t, r))) == Stream(q)
  {
    PeekResult(c, q, []);
    QuietPeek(c, q);
    var p := Peek(c, q, []);
    if p.err == 0 {
      var turn := Decide(c, p.q, p.cqe, p.available, d, looped, err, t, r);
      assert Stream(RingAfter(turn)) == Stream(p.q) + [] || Stream(RingAfter(turn)) == Stream(p.q);
    }
  }

  lemma {:induction false} QuietLoop(c: Config, q: Cq, d: GetData, looped: bool, err: int, t: Trace, rounds: seq<Round>)
    requires Inv(c, q) && (forall i :: 0 <= i < |rounds| ==> QuietRound(rounds[i]))
    ensures Stream(Loop(c, q, d, looped, err, t, rounds).q) == Stream(q)
    decreases |rounds|
  {
    if rounds != [] {
      TurnKeeps(c, q, d, looped, err, t, rounds[0]);
      QuietTurn(c, q, d, looped, err, t, rounds[0]);
      match OneTurn(c, q, d, looped, err, t, rounds[0])
      case Leave(_) =>
      case Again(q', submit', err', t') =>
        QuietLoop(c, q', d.(submit := submit'), true, err', t', rounds[1..]);
    }
  }

  /** A peek during which the kernel posts nothing and its enters succeed. */
  predicate IsQuiet(call: Call) {
    && call.waitNr == 0 && call.arrivals == [] && |call.rounds| >= 2
    && forall i :: 0 <= i < |call.rounds| ==> QuietRound(call.rounds[i])
  }

  predicate AllQuiet(calls: seq<Call>) { forall i :: 0 <= i < |calls| ==> IsQuiet(calls[i]) }

  lemma QuietFetch(c: Config, q: Cq, call: Call)
    requires Inv(c, q) && NextIsVisible(c, q) && IsQuiet(call)
    ensures var o := Fetch(c, q, call);
            o.Done? && o.err == 0 && o.cqe.Some? && Stream(o.q) == Stream(q) && o.q.head == q.head
  {
    VisibleIsFetched(c, q, call);
    PeekResult(c, q, []);
    QuietPeek(c, q);
    QuietLoop(c, Peek(c, q, []).q, GetData(0, 0, false), false, 0, START, call.rounds);
  }

  lemma QuietTake(c: Config, s: Session, call: Call)
    requires Inv(c, s.q) && NextIsVisible(c, s.q) && IsQuiet(call)
    ensures var r := Take(c, s, call);
            && Stream(r.q) == Stream(s.q) && r.q.head == s.q.head + 1
            && r.delivered == s.delivered + [Stream(s.q)[s.q.head]]
  {
    QuietFetch(c, s.q, call);
    FetchResult(c, s.q, call);
    var o := Fetch(c, s.q, call);
    assert o.q.posted[o.q.head] == Stream(o.q)[s.q.head];
  }

  /** `s` has received the first `n` completions that were outstanding in `q`. */
  ghost predicate Received(q: Cq, n: nat, s: Session) {
    && Stream(s.q) == Stream(q) && s.q.head == q.head + n <= |Stream(q)|
    && s.delivered == Stream(q)[q.head..q.head + n]
  }

  lemma ReceivedNext(q: Cq, n: nat, s: Session, r: Session)
    requires n > 0 && Received(q, n - 1, s) && q.head + n <= |Stream(q)|
    requires Stream(r.q) == Stream(s.q) && r.q.head == s.q.head + 1
    requires r.delivered == s.delivered + [Stream(s.q)[s.q.head]]
    ensures Received(q, n, r)
  {
    SliceLast(Stream(q), q.head, q.head + n);
  }

  lemma QuietNext(c: Config, q: Cq, n: nat, s: Session, call: Call)
    requires Inv(c, s.q) && IsQuiet(call) && n > 0 && q.head + n <= |Stream(q)|
    requires !Hidden(c, Stream(q)[q.head + n - 1]) && Received(q, n - 1, s)
    ensures Received(q, n, Take(c, s, call))
  {
    QuietTake(c, s, call);
    ReceivedNext(q, n, s, Take(c, s, call));
  }

  lemma {:induction false} QuietDrain(c: Config, q: Cq, calls: seq<Call>, s: Session)
    requires Inv(c, q) && AllQuiet(calls) && q.head + |calls| <= |Stream(q)|
    requires NoneHidden(c, Stream(q), q.head, q.head + |calls|) && Receives(c, Session(q, []), calls, s)
    ensures Received(q, |calls|, s)
    decreases |calls|
  {
    var n := |calls|;
    if n > 0 {
      var m := ReceivesLast(c, Session(q, []), calls, s);
      QuietDrain(c, q, calls[..n - 1], m);
      QuietNext(c, q, n, m, calls[n - 1]);
    } else {
      ReceivesNothing(c, Session(q, []), s);
      assert Stream(q)[q.head..q.head + n] == [];
    }
  }

  /** Once the kernel has stopped posting, rounds of peek and seen deliver as many of the
      next completions, from the ring and from the backlog behind it, exactly if none of
      them is an internal timeout. */
  lemma QuietDrainIff(c: Config, q: Cq, calls: seq<Call>, s: Session)
    requires Inv(c, q) && AllQuiet(calls) && q.head + |calls| <= |Stream(q)|
    requires Receives(c, Session(q, []), calls, s)
    ensures Received(q, |calls|, s) <==> NoneHidden(c, Stream(q), q.head, q.head + |calls|)
  {
    if NoneHidden(c, Stream(q), q.head, q.head + |calls|) {
      QuietDrain(c, q, calls, s);
    }
    DeliversWhatWasPosted(c, q, calls, s);
    ReceivedIsVisible(c, q, |calls|, s);
  }

  lemma ReceivedIsVisible(c: Config, q: Cq, n: nat, s: Session)
    requires q.head + n <= |Stream(q)| && q.head <= s.q.head <= |s.q.posted|
    requires s.delivered == Visible(c, s.q.posted[q.head..s.q.head])
    ensures Received(q, n, s) ==> NoneHidden(c, Stream(q), q.head, q.head + n)
  {
    if Received(q, n, s) {
      VisibleSlice(c, s.q.posted[q.head..s.q.head], Stream(q), q.head, q.head + n);
    }
  }

  lemma VisibleSlice(c: Config, all: seq<Cqe>, s: seq<Cqe>, start: nat, end: nat)
    requires start <= end <= |s| && Visible(c, all) == s[start..end]
    ensures NoneHidden(c, s, start, end)
  {
    VisibleHasNoHidden(c, all);
    forall i | start <= i < end ensures !Hidden(c, s[i]) {
      assert s[i] == s[start..end][i - start];
    }
  }

  ghost predicate NoneHidden(c: Config, s: seq<Cqe>, start: nat, end: nat)
    requires end <= |s|
  {
    forall i :: start <= i < end ==> !Hidden(c, s[i])
  }

  lemma {:induction false} VisibleHasNoHidden(c: Config, s: seq<Cqe>)
    ensures NoneHidden(c, Visible(c, s), 0, |Visible(c, s)|)
    decreases |s|
  {
    if s != [] {
      VisibleHasNoHidden(c, s[..|s| - 1]);
    }
  }

  lemma SliceLast<T>(s: seq<T>, start: nat, end: nat)
    requires start < end <= |s|
    ensures s[start..end] == s[start..end - 1] + [s[end - 1]]
  {
  }
}
