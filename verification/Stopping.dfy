/** Exact conditions for `_io_uring_get_cqe`, on every ring: when a caller that has
something to submit can be left with nothing, when the result can be positive, and when
the loop is bound to end.

What decides is the first outstanding entry at which a look stops: a completion that may
be shown, or an internal timeout that failed.
*/
module Stopping {
  import opened Common
  import opened Words
  import opened CompletionRing
  import opened WaitLoop
  import opened Delivery

  predicate Stops(c: Config, e: Cqe) { !Hidden(c, e) || e.res < 0 }

  function FirstStop(c: Config, s: seq<Cqe>): Option<Cqe>
    decreases |s|
  {
    if s == [] then None else if Stops(c, s[0]) then Some(s[0]) else FirstStop(c, s[1..])
  }

  /** The number of entries before the first that stops. */
  function StopAt(c: Config, s: seq<Cqe>): nat
    decreases |s|
  {
    if s == [] || Stops(c, s[0]) then 0 else 1 + StopAt(c, s[1..])
  }

  lemma {:induction false} FirstStopConcat(c: Config, s: seq<Cqe>, t: seq<Cqe>)
    ensures FirstStop(c, s + t) == if FirstStop(c, s).Some? then FirstStop(c, s) else FirstStop(c, t)
    ensures StopAt(c, s + t) == if FirstStop(c, s).Some? then StopAt(c, s) else |s| + StopAt(c, t)
    decreases |s|
  {
    if s == [] {
      assert s + t == t;
    } else {
      assert (s + t)[1..] == s[1..] + t;
      FirstStopConcat(c, s[1..], t);
    }
  }

  lemma FirstStopExtends(c: Config, s: seq<Cqe>, t: seq<Cqe>)
    requires s <= t && FirstStop(c, s).Some?
    ensures FirstStop(c, t) == FirstStop(c, s) && StopAt(c, t) == StopAt(c, s)
  {
    assert t == s + t[|s|..];
    FirstStopConcat(c, s, t[|s|..]);
  }

  function InRing(q: Cq): seq<Cqe>
    requires q.head <= |q.posted|
  {
    q.posted[q.head..]
  }

  function Outstanding(q: Cq): seq<Cqe>
    requires q.head <= |q.posted|
  {
    Stream(q)[q.head..]
  }

  /** As much of a backlog as the kernel moves into an empty ring. */
  function FirstFlush(c: Config, s: seq<Cqe>): seq<Cqe> {
    if |s| <= Entries(c) then s else s[..Entries(c)]
  }

  // ---- one look ------------------------------------------------------------

  /** The result of a look that stops at `f`. */
  ghost predicate StopsAt(c: Config, p: Peeked, f: Cqe) {
    if Hidden(c, f) then p.cqe.None? && p.err == f.res < 0 else p.cqe.Some? && p.err == 0
  }

  lemma LookStops(c: Config, q: Cq)
    requires Inv(c, q) && q.head < |q.posted|
    ensures if Stops(c, q.posted[q.head]) then !Look(c, q).1 && StopsAt(c, Look(c, q).0, q.posted[q.head])
            else Look(c, q).1 && Look(c, q).0.q == Advance(q, 1)
  {
    AvailableIsCount(c, q);
  }

  /** A stop in the ring is found, whatever arrives behind it. */
  lemma {:induction false} PeekFinds(c: Config, q: Cq, arrivals: seq<seq<Arrival>>)
    requires Inv(c, q) && FirstStop(c, InRing(q)).Some?
    ensures StopsAt(c, Peek(c, q, arrivals), FirstStop(c, InRing(q)).value)
    decreases |arrivals|, |q.posted| - q.head
  {
    var q1 := Arrive(c, q, arrivals);
    FirstStopExtends(c, InRing(q), InRing(q1));
    LookResult(c, q1);
    LookStops(c, q1);
    if Look(c, q1).1 {
      assert InRing(Advance(q1, 1)) == InRing(q1)[1..];
      PeekFinds(c, Advance(q1, 1), Rest(arrivals));
    }
  }

  /** With nothing in the ring that stops it, and nothing reaching the ring meanwhile, a
      look empties the ring. */
  lemma {:induction false} PeekFindsNothing(c: Config, q: Cq, arrivals: seq<seq<Arrival>>)
    requires Inv(c, q) && FirstStop(c, InRing(q)).None? && (arrivals == [] || q.backlog != [])
    ensures var p := Peek(c, q, arrivals);
            && p.cqe.None? && p.err == 0 && p.available == 0 && Inv(c, p.q)
            && p.q.posted == q.posted && p.q.head == |q.posted|
            && q.backlog <= p.q.backlog && (arrivals == [] ==> p.q.backlog == q.backlog)
    decreases |arrivals|, |q.posted| - q.head
  {
    var q1 := Arrive(c, q, arrivals);
    ArriveBehind(c, q, arrivals);
    LookResult(c, q1);
    AvailableIsCount(c, q1);
    if q1.head < |q1.posted| {
      LookStops(c, q1);
      assert InRing(Advance(q1, 1)) == InRing(q1)[1..];
      PeekFindsNothing(c, Advance(q1, 1), Rest(arrivals));
    }
  }

  lemma ArriveBehind(c: Config, q: Cq, arrivals: seq<seq<Arrival>>)
    requires Inv(c, q) && (arrivals == [] || q.backlog != [])
    ensures var r := Arrive(c, q, arrivals);
            && r.posted == q.posted && q.backlog <= r.backlog
            && (q.backlog != [] ==> r.backlog != []) && (arrivals == [] ==> r == q)
  {
    if arrivals != [] {
      PostsBehind(c, q, arrivals[0]);
    }
  }

  lemma PostsBehind(c: Config, q: Cq, arrivals: seq<Arrival>)
    requires Inv(c, q) && q.backlog != []
    ensures var r := Posts(c, q, arrivals);
            Inv(c, r) && r.head == q.head && r.posted == q.posted && q.backlog <= r.backlog && r.backlog != []
  {
    PostsKeep(c, q, arrivals);
    BehindStream(q.posted, q.backlog, Posts(c, q, arrivals).backlog, Cqes(arrivals));
  }

  lemma BehindStream(posted: seq<Cqe>, backlog: seq<Cqe>, longer: seq<Cqe>, more: seq<Cqe>)
    requires posted + longer == posted + backlog + more
    ensures backlog <= longer
  {
    assert longer == (posted + longer)[|posted|..];
    assert backlog + more == (posted + backlog + more)[|posted|..];
  }

  lemma FlushFromEmpty(c: Config, q: Cq)
    requires Inv(c, q) && q.head == |q.posted|
    ensures var r := FlushBacklog(c, q);
            && Inv(c, r) && r.head == q.head && r.khead == q.khead
            && InRing(r) == FirstFlush(c, q.backlog) && Stream(r) == Stream(q)
  {
    FlushKeeps(c, q);
    var r := FlushBacklog(c, q);
    var n := |r.posted| - q.head;
    assert r.posted == Stream(r)[..|r.posted|];
    assert InRing(r) == (q.posted + q.backlog)[|q.posted|..|q.posted| + n] == q.backlog[..n];
    assert r.backlog == [] ==> |Stream(r)| == |r.posted|;
  }

  // ---- what the first turn leads to ----------------------------------------

  lemma TurnStops(c: Config, q: Cq, d: GetData, looped: bool, err: int, t: Trace, r: Round)
    requires Inv(c, q) && FirstStop(c, InRing(q)).Some?
    ensures var turn := OneTurn(c, q, d, looped, err, t, r);
            var f := FirstStop(c, InRing(q)).value;
            && turn.Leave? && turn.out.Done?
            && (if Hidden(c, f) then turn.out.cqe.None? && turn.out.err == Else(err, f.res) else turn.out.cqe.Some?)
            && (err == 0 ==> turn.out.err <= 0)
  {
    PeekResult(c, q, r.arrivals);
    PeekFinds(c, q, r.arrivals);
  }

  ghost predicate FlushedOrFailed(c: Config, q: Cq, d: GetData, r: Round, turn: Turn) {
    && (turn.Leave? ==> r.enter.ret < 0 && turn.out.Done? && turn.out.err < 0 && turn.out.cqe.None?)
    && (turn.Again? ==>
          && r.enter.ret >= 0 && Inv(c, turn.q) && turn.q.head == |q.posted|
          && FirstFlush(c, q.backlog) <= InRing(turn.q)
          && turn.submit <= d.submit && turn.err == d.submit - turn.submit)
  }

  /** A turn that waits for events, or has nothing else to do, on a ring with a backlog and
      nothing to stop at: the kernel fails, or the start of the backlog is in the ring. */
  lemma TurnFlushes(c: Config, q: Cq, d: GetData, t: Trace, r: Round)
    requires Inv(c, q) && FirstStop(c, InRing(q)).None? && q.backlog != [] && (d.waitNr > 0 || d.submit == 0)
    ensures FlushedOrFailed(c, q, d, r, OneTurn(c, q, d, false, 0, t, r))
  {
    PeekResult(c, q, r.arrivals);
    PeekFindsNothing(c, q, r.arrivals);
    var p := Peek(c, q, r.arrivals);
    PostsBehind(c, p.q, r.between);
    DecideFlushes(c, Posts(c, p.q, r.between), d, t, r);
    FirstFlushGrows(c, q.backlog, Posts(c, p.q, r.between).backlog);
  }

  lemma DecideFlushes(c: Config, q: Cq, d: GetData, t: Trace, r: Round)
    requires Inv(c, q) && q.head == |q.posted| && q.backlog != [] && (d.waitNr > 0 || d.submit == 0)
    ensures FlushedOrFailed(c, q, d, r, Decide(c, q, None, 0, d, false, 0, t, r))
  {
    if r.enter.ret >= 0 {
      EnterFlushes(c, q, r.enter);
    }
  }

  lemma EnterFlushes(c: Config, q: Cq, e: Enter)
    requires Inv(c, q) && q.head == |q.posted| && e.ret >= 0
    ensures FirstFlush(c, q.backlog) <= InRing(EnterRing(c, q, e, true))
  {
    FlushFromEmpty(c, q);
    PostsKeep(c, FlushBacklog(c, q), e.posts);
  }

  lemma FirstFlushGrows(c: Config, s: seq<Cqe>, t: seq<Cqe>)
    requires s <= t
    ensures FirstFlush(c, s) <= FirstFlush(c, t)
  {
  }

  // ---- no completion, no error ---------------------------------------------

  ghost predicate NothingMeansError(o: Outcome) { o.Done? && o.cqe.None? ==> o.err < 0 }

  ghost predicate NotPositive(o: Outcome) { o.Done? ==> o.err <= 0 }

  /** What the caller can rely on before the call: nothing to submit; or something in the
      ring that stops the look; or a wait, and a backlog that shows a completion once as
      much of it is flushed as fits. */
  predicate NeverEmptyHanded(c: Config, q: Cq, d: GetData)
    requires q.head <= |q.posted|
  {
    || d.submit == 0 || FirstStop(c, InRing(q)).Some?
    || (d.waitNr > 0 && var f := FirstStop(c, FirstFlush(c, q.backlog)); f.Some? && !Hidden(c, f.value))
  }

  lemma StopEndsLoop(c: Config, q: Cq, d: GetData, rounds: seq<Round>)
    requires Inv(c, q) && FirstStop(c, InRing(q)).Some?
    ensures NothingMeansError(GetCqe(c, q, d, rounds)) && NotPositive(GetCqe(c, q, d, rounds))
  {
    if rounds != [] {
      TurnStops(c, q, d, false, 0, START, rounds[0]);
      StopIsError(c, InRing(q));
    }
  }

  lemma {:induction false} StopIsError(c: Config, s: seq<Cqe>)
    requires FirstStop(c, s).Some?
    ensures Stops(c, FirstStop(c, s).value)
    decreases |s|
  {
    if !Stops(c, s[0]) {
      StopIsError(c, s[1..]);
    }
  }

  lemma LoopShows(c: Config, q: Cq, d: GetData, looped: bool, err: int, t: Trace, rounds: seq<Round>)
    requires Inv(c, q)
    requires var f := FirstStop(c, InRing(q)); f.Some? && !Hidden(c, f.value)
    ensures var o := Loop(c, q, d, looped, err, t, rounds); o.Done? ==> o.cqe.Some?
  {
    if rounds != [] {
      TurnStops(c, q, d, looped, err, t, rounds[0]);
    }
  }

  lemma BacklogEndsLoop(c: Config, q: Cq, d: GetData, rounds: seq<Round>)
    requires Inv(c, q) && d.waitNr > 0 && FirstStop(c, InRing(q)).None?
    requires var f := FirstStop(c, FirstFlush(c, q.backlog)); f.Some? && !Hidden(c, f.value)
    ensures NothingMeansError(GetCqe(c, q, d, rounds))
  {
    if rounds != [] {
      TurnKeeps(c, q, d, false, 0, START, rounds[0]);
      TurnFlushes(c, q, d, START, rounds[0]);
      var turn := OneTurn(c, q, d, false, 0, START, rounds[0]);
      if turn.Again? {
        FirstStopExtends(c, FirstFlush(c, q.backlog), InRing(turn.q));
        LoopShows(c, turn.q, d.(submit := turn.submit), true, turn.err, turn.trace, rounds[1..]);
      }
    }
  }

  /** A kernel that consumes one entry, posts nothing and is then interrupted. */
  function ConsumesOne(): Round { Round([], [], false, true, Enter(1, [], false)) }
  function Interrupted(): Round { Round([], [], false, true, Enter(-EINTR, [], false)) }

  lemma ConsumesAndGoesOn(c: Config, q: Cq, d: GetData)
    requires Inv(c, q) && FirstStop(c, InRing(q)).None? && d.submit > 0
    ensures var turn := OneTurn(c, q, d, false, 0, START, ConsumesOne());
            && turn.Again? && Inv(c, turn.q) && turn.submit == d.submit - 1 && turn.err == 1
            && InRing(turn.q) == if d.waitNr > 0 then FirstFlush(c, q.backlog) else []
  {
    PeekFindsNothing(c, q, []);
    var p := Peek(c, q, []).q;
    FlushFromEmpty(c, p);
    assert Posts(c, p, []) == p;
    assert Posts(c, FlushBacklog(c, p), []) == FlushBacklog(c, p);
  }

  lemma InterruptLeavesPositive(c: Config, q: Cq, d: GetData, t: Trace)
    requires Inv(c, q)
    ensures var turn := OneTurn(c, q, d, true, 1, t, Interrupted());
            && turn.Leave? && turn.out.Done? && turn.out.err == 1
            && (turn.out.cqe.Some? <==> Peek(c, q, []).cqe.Some?)
  {
    PeekResult(c, q, []);
  }

  function Interrupt(): seq<Round> { [ConsumesOne(), Interrupted()] }

  /** Against that kernel, a caller that submits, and whose ring has nothing to stop at,
      always gets a positive result; and no completion with it, unless the start of the
      backlog shows one. */
  lemma SubmitterMayGetNothing(c: Config, q: Cq, d: GetData)
    requires Inv(c, q) && d.submit > 0 && FirstStop(c, InRing(q)).None?
    ensures var o := GetCqe(c, q, d, Interrupt());
            && o.Done? && o.err == 1
            && (o.cqe.None? <==> !NeverEmptyHanded(c, q, d))
  {
    var rounds := Interrupt();
    assert rounds[0] == ConsumesOne() && rounds[1..] == [Interrupted()];
    ConsumesAndGoesOn(c, q, d);
    TurnKeeps(c, q, d, false, 0, START, rounds[0]);
    var turn := OneTurn(c, q, d, false, 0, START, rounds[0]);
    InterruptLeavesPositive(c, turn.q, d.(submit := turn.submit), turn.trace);
    var f := FirstStop(c, InRing(turn.q));
    if f.Some? {
      PeekFinds(c, turn.q, []);
    } else {
      PeekFindsNothing(c, turn.q, []);
    }
  }

  /** No completion means an error, against every kernel, exactly under the condition
      above; on every ring, with and without extended arguments. */
  lemma NothingMeansErrorIff(c: Config, q: Cq, d: GetData)
    requires Inv(c, q)
    ensures (forall rounds: seq<Round> :: NothingMeansError(GetCqe(c, q, d, rounds))) <==> NeverEmptyHanded(c, q, d)
  {
    if NeverEmptyHanded(c, q, d) {
      forall rounds: seq<Round> ensures NothingMeansError(GetCqe(c, q, d, rounds)) {
        if d.submit == 0 {
          LoopZeroMeansCqe(c, q, d, false, START, rounds);
        } else if FirstStop(c, InRing(q)).Some? {
          StopEndsLoop(c, q, d, rounds);
        } else {
          BacklogEndsLoop(c, q, d, rounds);
        }
      }
    } else {
      SubmitterMayGetNothing(c, q, d);
    }
  }

  /** With extended arguments every entry stops a look, so the condition needs no
      contents. */
  lemma NeverEmptyHandedExtArg(c: Config, q: Cq, d: GetData)
    requires Inv(c, q) && c.extArg
    ensures NeverEmptyHanded(c, q, d) <==>
              d.submit == 0 || q.head < |q.posted| || (d.waitNr > 0 && q.backlog != [])
  {
    OrderFits(c.order);
    assert q.backlog != [] ==> FirstFlush(c, q.backlog)[0] == q.backlog[0];
  }

  /** The result is never positive, against every kernel, exactly if there is nothing to
      submit or something in the ring that stops the look. */
  lemma NotPositiveIff(c: Config, q: Cq, d: GetData)
    requires Inv(c, q)
    ensures (forall rounds: seq<Round> :: NotPositive(GetCqe(c, q, d, rounds)))
            <==> d.submit == 0 || FirstStop(c, InRing(q)).Some?
  {
    if d.submit == 0 || FirstStop(c, InRing(q)).Some? {
      forall rounds: seq<Round> ensures NotPositive(GetCqe(c, q, d, rounds)) {
        if d.submit == 0 {
          LoopZeroMeansCqe(c, q, d, false, START, rounds);
        } else {
          StopEndsLoop(c, q, d, rounds);
        }
      }
    } else {
      SubmitterMayGetNothing(c, q, d);
    }
  }

  // ---- when the loop ends --------------------------------------------------

  /** The call returns, or one of its successful enters consumed nothing and left the ring
      empty. */
  ghost predicate EndsIn(c: Config, q: Cq, d: GetData, rounds: seq<Round>)
    requires Inv(c, q)
  {
    var o := GetCqe(c, q, d, rounds);
    o.Done? || o.trace.stalled
  }

  ghost predicate EndsWithin(c: Config, q: Cq, d: GetData, n: nat)
    requires Inv(c, q)
  {
    forall rounds: seq<Round> :: |rounds| >= n ==> EndsIn(c, q, d, rounds)
  }

  /** `p` is what a look that started at `q` leaves, having passed over no stop. */
  ghost predicate Skipped(c: Config, q: Cq, p: Cq) {
    && q.head <= p.head <= |p.posted| && q.posted <= p.posted
    && FirstStop(c, p.posted[q.head..p.head]).None?
  }

  lemma SkippedNone(c: Config, q: Cq, p: Cq)
    requires q.head == p.head <= |p.posted| && q.posted <= p.posted
    ensures Skipped(c, q, p)
  {
    assert p.posted[q.head..p.head] == [];
  }

  lemma SkippedOneMore(c: Config, q: Cq, q1: Cq, p: Cq)
    requires q.head == q1.head < |q1.posted| && q.posted <= q1.posted && !Stops(c, q1.posted[q1.head])
    requires Skipped(c, Advance(q1, 1), p)
    ensures Skipped(c, q, p)
  {
    assert p.posted[q.head] == q1.posted[q1.head];
    SkipsOne(c, p.posted, q.head, p.head);
  }

  lemma {:induction false} PeekSkips(c: Config, q: Cq, arrivals: seq<seq<Arrival>>)
    requires Inv(c, q)
    ensures Peek(c, q, arrivals).err == 0 ==> Skipped(c, q, Peek(c, q, arrivals).q)
    decreases |arrivals|, |q.posted| - q.head
  {
    var q1 := Arrive(c, q, arrivals);
    LookResult(c, q1);
    AvailableIsCount(c, q1);
    if Look(c, q1).1 {
      LookStops(c, q1);
      PeekSkips(c, Advance(q1, 1), Rest(arrivals));
      if Peek(c, q, arrivals).err == 0 {
        SkippedOneMore(c, q, q1, Peek(c, q, arrivals).q);
      }
    } else if Look(c, q1).0.err == 0 {
      LookStays(c, q1);
      SkippedNone(c, q, q1);
    }
  }

  lemma LookStays(c: Config, q: Cq)
    requires Inv(c, q) && !Look(c, q).1 && Look(c, q).0.err == 0
    ensures Look(c, q).0.q == q
  {
    AvailableIsCount(c, q);
  }

  lemma SkipsOne(c: Config, s: seq<Cqe>, start: nat, end: nat)
    requires start < end <= |s| && !Stops(c, s[start])
    ensures FirstStop(c, s[start..end]) == FirstStop(c, s[start + 1..end])
  {
    assert s[start..end][1..] == s[start + 1..end];
  }

  /** The distance to the first stop, the entries to submit, and whether the ring is empty. */
  function Measure(c: Config, q: Cq, submit: nat): nat
    requires q.head <= |q.posted|
  {
    2 * StopAt(c, Outstanding(q)) + submit + (if q.head == |q.posted| then 1 else 0)
  }

  lemma Nearer(c: Config, q: Cq, r: Cq, skipped: seq<Cqe>)
    requires q.head <= r.head <= |r.posted| && q.head <= |q.posted| && Stream(q) <= Stream(r)
    requires skipped == Stream(r)[q.head..r.head]
    requires FirstStop(c, Outstanding(q)).Some? && FirstStop(c, skipped).None?
    ensures FirstStop(c, Outstanding(r)) == FirstStop(c, Outstanding(q))
    ensures StopAt(c, Outstanding(q)) == |skipped| + StopAt(c, Outstanding(r))
  {
    var all := Stream(r)[q.head..];
    assert Outstanding(q) <= all;
    FirstStopExtends(c, Outstanding(q), all);
    assert all == skipped + Outstanding(r);
    FirstStopConcat(c, skipped, Outstanding(r));
  }

  lemma MeasureDrops(c: Config, q: Cq, p: Cq, r: Cq, submit: nat, submit': nat)
    requires q.head <= |q.posted| <= p.head == r.head <= |p.posted| && p.posted <= r.posted
    requires Stream(q) <= Stream(r) && FirstStop(c, Outstanding(q)).Some?
    requires FirstStop(c, p.posted[q.head..p.head]).None?
    requires submit' <= submit && (submit' < submit || r.head < |r.posted|)
    ensures FirstStop(c, Outstanding(r)).Some? && Measure(c, r, submit') < Measure(c, q, submit)
  {
    var skipped := p.posted[q.head..p.head];
    assert skipped == Stream(r)[q.head..r.head];
    Nearer(c, q, r, skipped);
  }

  lemma TurnNearer(c: Config, q: Cq, d: GetData, looped: bool, err: int, t: Trace, r: Round)
    requires Inv(c, q) && FirstStop(c, Outstanding(q)).Some?
    ensures var turn := OneTurn(c, q, d, looped, err, t, r);
            turn.Again? && !turn.trace.stalled ==>
              && Inv(c, turn.q) && FirstStop(c, Outstanding(turn.q)).Some?
              && Measure(c, turn.q, turn.submit) < Measure(c, q, d.submit)
  {
    var turn := OneTurn(c, q, d, looped, err, t, r);
    if turn.Again? && !turn.trace.stalled {
      PeekResult(c, q, r.arrivals);
      PeekSkips(c, q, r.arrivals);
      TurnAdds(c, q, d, looped, err, t, r);
      PeekStream(c, q, r.arrivals);
      TurnProgress(c, q, d, looped, err, t, r);
      MeasureDrops(c, q, Peek(c, q, r.arrivals).q, turn.q, d.submit, turn.submit);
    }
  }

  lemma PeekStream(c: Config, q: Cq, arrivals: seq<seq<Arrival>>)
    requires Inv(c, q)
    ensures Stream(q) <= Stream(Peek(c, q, arrivals).q)
  {
    PeekPasses(c, q, arrivals);
  }

  lemma {:induction false} StalledStays(c: Config, q: Cq, d: GetData, looped: bool, err: int, t: Trace, rounds: seq<Round>)
    requires Inv(c, q) && t.stalled
    ensures Loop(c, q, d, looped, err, t, rounds).trace.stalled
    decreases |rounds|
  {
    if rounds != [] {
      TurnKeeps(c, q, d, looped, err, t, rounds[0]);
      TurnProgress(c, q, d, looped, err, t, rounds[0]);
      var turn := OneTurn(c, q, d, looped, err, t, rounds[0]);
      if turn.Again? {
        StalledStays(c, turn.q, d.(submit := turn.submit), true, turn.err, turn.trace, rounds[1..]);
      }
    }
  }

  lemma {:induction false} LoopEndsAtStop(c: Config, q: Cq, d: GetData, looped: bool, err: int, t: Trace, rounds: seq<Round>)
    requires Inv(c, q) && FirstStop(c, Outstanding(q)).Some? && |rounds| > Measure(c, q, d.submit)
    ensures var o := Loop(c, q, d, looped, err, t, rounds); o.Done? || o.trace.stalled
    decreases |rounds|
  {
    TurnKeeps(c, q, d, looped, err, t, rounds[0]);
    TurnNearer(c, q, d, looped, err, t, rounds[0]);
    var turn := OneTurn(c, q, d, looped, err, t, rounds[0]);
    if turn.Again? {
      var d' := d.(submit := turn.submit);
      if turn.trace.stalled {
        StalledStays(c, turn.q, d', true, turn.err, turn.trace, rounds[1..]);
      } else {
        LoopEndsAtStop(c, turn.q, d', true, turn.err, turn.trace, rounds[1..]);
      }
    }
  }

  /** An enter that consumes nothing and posts one more internal timeout. */
  function Tick(): Round {
    Round([], [], false, true, Enter(0, [Arrival(Cqe(LIBURING_UDATA_TIMEOUT, 0, 0), false)], true))
  }

  function Ticks(n: nat): (r: seq<Round>)
    ensures |r| == n
  {
    if n == 0 then [] else [Tick()] + Ticks(n - 1)
  }

  ghost predicate OnlyTimeouts(c: Config, q: Cq) { Inv(c, q) && FirstStop(c, Outstanding(q)).None? }

  lemma EnterTicks(c: Config, q: Cq, getevents: bool)
    requires !c.extArg && OnlyTimeouts(c, q) && q.head == |q.posted|
    ensures var r := EnterRing(c, q, Tick().enter, getevents);
            OnlyTimeouts(c, r) && r.head < |r.posted|
  {
    var e := Tick().enter;
    FlushFromEmpty(c, q);
    OrderFits(c.order);
    var f := FlushBacklog(c, q);
    PostsKeep(c, f, e.posts);
    var r := EnterRing(c, q, e, getevents);
    assert Cqes(e.posts) == [e.posts[0].cqe];
    assert Outstanding(r) == Outstanding(q) + Cqes(e.posts);
    FirstStopConcat(c, Outstanding(q), Cqes(e.posts));
    if q.backlog == [] {
      AvailableIsCount(c, f);
      assert f == q && Posts(c, f, e.posts) == Post(c, f, e.posts[0]);
    }
  }

  lemma TurnTicks(c: Config, q: Cq, d: GetData, looped: bool, t: Trace)
    requires !c.extArg && OnlyTimeouts(c, q) && !d.hasTs && (d.submit > 0 || d.waitNr > 0) && !t.stalled
    ensures var turn := OneTurn(c, q, d, looped, 0, t, Tick());
            turn.Again? && OnlyTimeouts(c, turn.q) && turn.submit == d.submit && turn.err == 0 && !turn.trace.stalled
  {
    assert Outstanding(q) == InRing(q) + q.backlog;
    FirstStopConcat(c, InRing(q), q.backlog);
    PeekFindsNothing(c, q, []);
    var p := Peek(c, q, []).q;
    assert Outstanding(p) == p.backlog;
    assert Posts(c, p, []) == p;
    DecideTicks(c, p, d, looped, t);
  }

  lemma DecideTicks(c: Config, q: Cq, d: GetData, looped: bool, t: Trace)
    requires !c.extArg && OnlyTimeouts(c, q) && q.head == |q.posted|
    requires !d.hasTs && (d.submit > 0 || d.waitNr > 0) && !t.stalled
    ensures var turn := Decide(c, q, None, 0, d, looped, 0, t, Tick());
            turn.Again? && OnlyTimeouts(c, turn.q) && turn.submit == d.submit && turn.err == 0 && !turn.trace.stalled
  {
    EnterTicks(c, q, d.waitNr > 0);
  }

  lemma {:induction false} LoopTicks(c: Config, q: Cq, d: GetData, looped: bool, t: Trace, n: nat)
    requires !c.extArg && OnlyTimeouts(c, q) && !d.hasTs && (d.submit > 0 || d.waitNr > 0) && !t.stalled
    ensures var o := Loop(c, q, d, looped, 0, t, Ticks(n)); o.Looping? && !o.trace.stalled
    decreases n
  {
    if n > 0 {
      TurnTicks(c, q, d, looped, t);
      var turn := OneTurn(c, q, d, looped, 0, t, Tick());
      assert Ticks(n)[0] == Tick() && Ticks(n)[1..] == Ticks(n - 1);
      assert d.(submit := turn.submit) == d;
      LoopTicks(c, turn.q, d, true, turn.trace, n - 1);
    }
  }

  /** However many rounds: a caller without a timeout that waits or submits, on a ring
      without extended arguments and with nothing outstanding that stops a look, is kept
      looping by one internal timeout after another, although no enter is in vain. */
  lemma TimeoutsKeepLooping(c: Config, q: Cq, d: GetData, n: nat)
    requires !c.extArg && OnlyTimeouts(c, q) && !d.hasTs && (d.submit > 0 || d.waitNr > 0)
    ensures |Ticks(n)| == n && !EndsIn(c, q, d, Ticks(n))
  {
    LoopTicks(c, q, d, false, START, n);
  }

  predicate Bounded(c: Config, q: Cq, d: GetData)
    requires q.head <= |q.posted|
  {
    c.extArg || d.hasTs || (d.submit == 0 && d.waitNr == 0) || FirstStop(c, Outstanding(q)).Some?
  }

  /** A number of turns that is always enough. */
  function Bound(c: Config, q: Cq, d: GetData): nat
    requires q.head <= |q.posted|
  {
    if d.hasTs || (d.submit == 0 && d.waitNr == 0) then 2
    else if c.extArg then d.submit + 2
    else Measure(c, q, d.submit) + 1
  }

  lemma EndsInTime(c: Config, q: Cq, d: GetData, rounds: seq<Round>)
    requires Inv(c, q) && Bounded(c, q, d) && |rounds| >= Bound(c, q, d)
    ensures EndsIn(c, q, d, rounds)
  {
    if d.hasTs || (d.submit == 0 && d.waitNr == 0) {
      EntersAtMostOnce(c, q, d, rounds);
    } else if c.extArg {
      GetCqeEnds(c, q, d, rounds);
    } else {
      LoopEndsAtStop(c, q, d, false, 0, START, rounds);
    }
  }

  /** On every ring: if no successful enter is in vain, the loop is bound to end exactly if
      there are extended arguments, a timeout, nothing to submit or wait for, or something
      outstanding that stops a look. */
  lemma EndsIff(c: Config, q: Cq, d: GetData)
    requires Inv(c, q)
    ensures (exists n: nat :: EndsWithin(c, q, d, n)) <==> Bounded(c, q, d)
  {
    if Bounded(c, q, d) {
      forall rounds: seq<Round> | |rounds| >= Bound(c, q, d) ensures EndsIn(c, q, d, rounds) {
        EndsInTime(c, q, d, rounds);
      }
      assert EndsWithin(c, q, d, Bound(c, q, d));
    } else {
      forall n: nat ensures !EndsWithin(c, q, d, n) {
        TimeoutsKeepLooping(c, q, d, n);
      }
    }
  }
}
