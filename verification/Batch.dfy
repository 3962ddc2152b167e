/** `io_uring_peek_batch_cqe` followed by `io_uring_cq_advance`: against the same number of
single peeks, and mixed with them. */
module Batch {
  import opened Common
  import opened Words
  import opened CompletionRing
  import opened WaitLoop
  import opened Delivery
  import opened Stopping
  import opened Drain

  /** What the kernel does during one call: arrivals before each of the two looks and
      before the flags are read, and the effect of `io_uring_get_events`. */
  datatype BatchCall = BatchCall(
    before: seq<Arrival>, between: seq<Arrival>, taskrun: bool, enter: Enter, after: seq<Arrival>)

  function Min(a: nat, b: nat): nat { if a > b then b else a }

  function Ready(q: Cq): u32 { Sub32(q.ktail, q.khead) }

  /** The ring when the call returns, and the number of entries it fills in: fewer than
      asked for only if the ring holds no more, or held nothing at the first look. */
  function PeekBatch(c: Config, q: Cq, count: nat, b: BatchCall): (r: (Cq, nat))
    requires Inv(c, q)
    ensures Inv(c, r.0) && r.0.head == q.head && r.0.khead == q.khead && q.posted <= r.0.posted
    ensures r.1 <= count && q.head + r.1 <= |r.0.posted|
    ensures r.1 < count ==> r.1 == |r.0.posted| - q.head || (r.1 == 0 && |Posts(c, q, b.before).posted| == q.head)
    ensures r.1 == 0 && count > 0 ==> |Posts(c, q, b.before).posted| == q.head
  {
    PostsKeep(c, q, b.before);
    var q1 := Posts(c, q, b.before);
    AvailableIsCount(c, q1);
    if Ready(q1) != 0 then (q1, Min(count, Ready(q1))) else CheckOverflow(c, q1, count, b)
  }

  /** The rest of the call, on an empty ring: 0 without a look if the kernel shows neither
      overflow nor pending work, and otherwise all that is asked for or all there is. */
  function CheckOverflow(c: Config, q: Cq, count: nat, b: BatchCall): (r: (Cq, nat))
    requires Inv(c, q) && q.head == |q.posted|
    ensures Inv(c, r.0) && r.0.head == q.head && r.0.khead == q.khead && q.posted <= r.0.posted
    ensures r.1 <= count && q.head + r.1 <= |r.0.posted|
    ensures Posts(c, q, b.between).backlog != [] || b.taskrun ==> r.1 == Min(count, |r.0.posted| - q.head)
    ensures Posts(c, q, b.between).backlog == [] && !b.taskrun ==> r.1 == 0
  {
    PostsKeep(c, q, b.between);
    var q2 := Posts(c, q, b.between);
    if q2.backlog != [] || b.taskrun then
      var q3 := EnterRing(c, q2, b.enter, true);
      PostsKeep(c, q3, b.after);
      var q4 := Posts(c, q3, b.after);
      AvailableIsCount(c, q4);
      (q4, Min(count, Ready(q4)))
    else (q2, 0)
  }

  /** The address of the entry `i` places after the head. */
  function Address(c: Config, khead: u32, i: nat): nat { Index(c, U32(khead + i)) }

  /** The addresses the call fills in. */
  function Filled(c: Config, q: Cq, n: nat): (r: seq<nat>)
    ensures |r| == n
  {
    seq<nat>(n, i requires 0 <= i => Address(c, q.khead, i))
  }

  function Contents(q: Cq, filled: seq<nat>): (r: seq<Cqe>)
    requires forall i :: 0 <= i < |filled| ==> filled[i] < |q.slots|
    ensures |r| == |filled|
  {
    seq(|filled|, i requires 0 <= i < |filled| => q.slots[filled[i]])
  }

  /** What a batch shows is the next stretch of what was posted, across any wrap of
      the 32-bit counters and for both entry sizes. */
  lemma BatchShowsPosted(c: Config, q: Cq, n: nat)
    requires Inv(c, q) && q.head + n <= |q.posted|
    ensures forall i :: 0 <= i < n ==> Filled(c, q, n)[i] < |q.slots|
    ensures Contents(q, Filled(c, q, n)) == q.posted[q.head..q.head + n]
  {
    var f := Filled(c, q, n);
    forall i | 0 <= i < n ensures f[i] < |q.slots| && q.slots[f[i]] == q.posted[q.head + i] {
      WordNext(q.head, i);
      assert f[i] == Address(c, q.khead, i) == Index(c, U32(q.head + i));
      assert At(q, Index(c, U32(q.head + i))) == Some(q.posted[q.head + i]);
    }
  }

  /** A single peek of a ring whose oldest entry may be shown. */
  lemma SingleShowsOldest(c: Config, s: Session, call: Call)
    requires call.arrivals == [] && Inv(c, s.q) && s.q.head < |s.q.posted| && !Hidden(c, s.q.posted[s.q.head])
    ensures Take(c, s, call) == Session(Advance(s.q, 1), s.delivered + [s.q.posted[s.q.head]])
  {
    AvailableIsCount(c, s.q);
    assert Peek(c, s.q, []) == Peeked(s.q, Some(Index(c, s.q.khead)), Ready(s.q), 0);
  }

  /** `s` has been shown exactly the next `n` entries of `q`. */
  ghost predicate Shown(q: Cq, n: nat, s: Session) {
    q.head + n <= |q.posted| && s == Session(Advance(q, n), q.posted[q.head..q.head + n])
  }

  lemma ShownNext(q: Cq, n: nat, s: Session, r: Session)
    requires q.head + n < |q.posted| && Shown(q, n, s)
    requires r == Session(Advance(s.q, 1), s.delivered + [s.q.posted[s.q.head]])
    ensures Shown(q, n + 1, r)
  {
    AdvanceTwice(q, n, 1);
    SliceLast(q.posted, q.head, q.head + n + 1);
  }

  lemma ShownNone(q: Cq)
    requires q.head <= |q.posted| && q.khead == U32(q.head)
    ensures Shown(q, 0, Session(q, []))
  {
    assert q.posted[q.head..q.head] == [];
    assert Advance(q, 0) == q;
  }

  lemma AdvanceTwice(q: Cq, a: nat, b: nat)
    ensures Advance(Advance(q, a), b) == Advance(q, a + b)
  {
    WordNext(q.khead + a, b);
  }

  lemma {:induction false} SinglesShowBatch(c: Config, q: Cq, calls: seq<Call>, s: Session)
    requires Inv(c, q) && AllQuiet(calls) && Receives(c, Session(q, []), calls, s)
    requires q.head + |calls| <= |q.posted| && NoneHidden(c, q.posted, q.head, q.head + |calls|)
    ensures Shown(q, |calls|, s)
    decreases |calls|
  {
    if calls == [] {
      ReceivesNothing(c, Session(q, []), s);
      ShownNone(q);
    } else {
      var n := |calls| - 1;
      var call := calls[n];
      var m := ReceivesLast(c, Session(q, []), calls, s);
      assert IsQuiet(call) && !Hidden(c, q.posted[q.head + n]);
      SinglesShowBatch(c, q, calls[..n], m);
      SingleShowsOldest(c, m, call);
      ShownNext(q, n, m, s);
    }
  }

  // ---- from the ring as it is before the call ------------------------------

  /** A batch call during which the kernel posts nothing. */
  predicate QuietBatch(b: BatchCall) { b.before == [] && b.between == [] && b.after == [] && b.enter.posts == [] }

  lemma QuietEnter(c: Config, q: Cq, e: Enter)
    requires Inv(c, q) && e.posts == []
    ensures EnterRing(c, q, e, true) == q || EnterRing(c, q, e, true) == FlushBacklog(c, q)
  {
    assert Posts(c, q, []) == q;
    assert Posts(c, FlushBacklog(c, q), []) == FlushBacklog(c, q);
  }

  lemma QuietOverflow(c: Config, q: Cq, count: nat, b: BatchCall)
    requires Inv(c, q) && q.head == |q.posted| && QuietBatch(b) && CheckOverflow(c, q, count, b).1 > 0
    ensures CheckOverflow(c, q, count, b).0 == FlushBacklog(c, q) && q.backlog != []
  {
    QuietEnter(c, q, b.enter);
    FlushFromEmpty(c, q);
    var r := EnterRing(c, q, b.enter, true);
    assert Posts(c, q, []) == q && Posts(c, r, []) == r;
    assert q.backlog == [] ==> FlushBacklog(c, q) == q;
  }

  ghost predicate FlushedIfEmpty(c: Config, q: Cq, r: Cq)
    requires Inv(c, q) && Inv(c, r)
  {
    if q.head < |q.posted| then r == q
    else q.backlog != [] && r == FlushBacklog(c, q) && InRing(r) == FirstFlush(c, q.backlog)
  }

  /** What the call shows is in the ring already, or was flushed into an empty ring. */
  lemma QuietBatchRing(c: Config, q: Cq, count: nat, b: BatchCall)
    requires Inv(c, q) && QuietBatch(b) && PeekBatch(c, q, count, b).1 > 0
    ensures FlushedIfEmpty(c, q, PeekBatch(c, q, count, b).0)
  {
    AvailableIsCount(c, q);
    assert Posts(c, q, []) == q;
    if q.head == |q.posted| {
      QuietOverflow(c, q, count, b);
      FlushFromEmpty(c, q);
    }
  }

  /** The first single peek of an empty ring flushes the backlog just as a batch does. */
  lemma FirstSingleFlushes(c: Config, q: Cq, call: Call)
    requires Inv(c, q) && q.head == |q.posted| && q.backlog != [] && !Hidden(c, q.backlog[0]) && IsQuiet(call)
    ensures Inv(c, FlushBacklog(c, q))
    ensures Take(c, Session(q, []), call) == Take(c, Session(FlushBacklog(c, q), []), call)
  {
    var f := FlushBacklog(c, q);
    FlushFromEmpty(c, q);
    OrderFits(c.order);
    assert InRing(f)[0] == q.backlog[0] == f.posted[f.head];
    SingleShowsOldest(c, Session(f, []), call);
    FirstSingle(c, q, call, f);
  }

  lemma FirstSingle(c: Config, q: Cq, call: Call, f: Cq)
    requires Inv(c, q) && q.head == |q.posted| && q.backlog != [] && IsQuiet(call)
    requires f == FlushBacklog(c, q) && Inv(c, f) && f.head == q.head < |f.posted| && !Hidden(c, f.posted[f.head])
    ensures Take(c, Session(q, []), call) == Session(Advance(f, 1), [f.posted[f.head]])
  {
    AvailableIsCount(c, q);
    AvailableIsCount(c, f);
    assert Peek(c, q, []) == Peeked(q, None, 0, 0);
    FirstGetCqe(c, q, call.rounds, f);
  }

  lemma FirstGetCqe(c: Config, q: Cq, rounds: seq<Round>, f: Cq)
    requires Inv(c, q) && q.head == |q.posted| && q.backlog != [] && |rounds| >= 2
    requires QuietRound(rounds[0]) && QuietRound(rounds[1])
    requires f == FlushBacklog(c, q) && Inv(c, f) && f.head < |f.posted| && !Hidden(c, f.posted[f.head])
    ensures var o := GetCqe(c, q, GetData(0, 0, false), rounds);
            o.Done? && o.err == 0 && o.cqe == Some(Index(c, f.khead)) && o.q == f
  {
    var d := GetData(0, 0, false);
    FirstTurn(c, q, rounds[0], f);
    var turn := OneTurn(c, q, d, false, 0, START, rounds[0]);
    assert d.(submit := 0) == d && rounds[1..][0] == rounds[1];
    SecondLoop(c, f, d, turn.trace, rounds[1..]);
  }

  lemma FirstTurn(c: Config, q: Cq, r: Round, f: Cq)
    requires Inv(c, q) && q.head == |q.posted| && q.backlog != [] && QuietRound(r)
    requires f == FlushBacklog(c, q) && Inv(c, f)
    ensures var turn := OneTurn(c, q, GetData(0, 0, false), false, 0, START, r);
            turn.Again? && turn.q == f && turn.submit == 0 && turn.err == 0
  {
    PeekFindsNothing(c, q, []);
    AvailableIsCount(c, q);
    assert Peek(c, q, []).q == q && Posts(c, q, []) == q && Posts(c, f, []) == f;
  }

  lemma SecondLoop(c: Config, f: Cq, d: GetData, t: Trace, rounds: seq<Round>)
    requires Inv(c, f) && f.head < |f.posted| && !Hidden(c, f.posted[f.head])
    requires d == GetData(0, 0, false) && rounds != [] && QuietRound(rounds[0])
    ensures Loop(c, f, d, true, 0, t, rounds) == Done(0, Some(Index(c, f.khead)), f, 0, t)
  {
    AvailableIsCount(c, f);
    assert Peek(c, f, []) == Peeked(f, Some(Index(c, f.khead)), Ready(f), 0);
    assert Posts(c, f, []) == f;
  }

  /** A batch call and an advance, seen from the ring before the call: the same completions,
      the same head and, unless nothing was shown, the same ring. */
  ghost predicate SameAsBatch(c: Config, r: Cq, n: nat, s: Session)
    requires Inv(c, r) && r.head + n <= |r.posted|
  {
    BatchShowsPosted(c, r, n);
    && s.delivered == Contents(r, Filled(c, r, n))
    && s.q.head == Advance(r, n).head && s.q.khead == Advance(r, n).khead
    && (n > 0 ==> s.q == Advance(r, n))
  }

  lemma SinglesFromBefore(c: Config, q: Cq, r: Cq, calls: seq<Call>, s: Session)
    requires Inv(c, q) && Inv(c, r) && AllQuiet(calls) && calls != [] && Receives(c, Session(q, []), calls, s)
    requires FlushedIfEmpty(c, q, r)
    requires r.head + |calls| <= |r.posted| && NoneHidden(c, r.posted, r.head, r.head + |calls|)
    ensures Shown(r, |calls|, s)
  {
    if q.head == |q.posted| {
      FlushedFirst(c, q, r);
      StartsFlushed(c, q, r, calls, s);
    }
    SinglesShowBatch(c, r, calls, s);
  }

  lemma FlushedFirst(c: Config, q: Cq, r: Cq)
    requires Inv(c, q) && Inv(c, r) && FlushedIfEmpty(c, q, r) && q.head == |q.posted|
    ensures q.backlog != [] && r.head == q.head < |r.posted| && r.posted[r.head] == q.backlog[0]
  {
    OrderFits(c.order);
    FlushFromEmpty(c, q);
    assert InRing(r)[0] == q.backlog[0];
  }

  lemma AfterFirst(c: Config, q: Cq, r: Cq, calls: seq<Call>, s: Session, m: Session)
    requires Inv(c, q) && q.head == |q.posted| && q.backlog != [] && calls != [] && IsQuiet(calls[0])
    requires Receives(c, Session(q, []), calls, s)
    requires r == FlushBacklog(c, q) && Inv(c, r) && r.head == q.head < |r.posted| && !Hidden(c, r.posted[r.head])
    requires m == Session(Advance(r, 1), [r.posted[r.head]])
    ensures Receives(c, m, calls[1..], s)
  {
    ReceivesFirst(c, Session(q, []), calls, s);
    FirstSingle(c, q, calls[0], r);
  }

  lemma FromFlushed(c: Config, r: Cq, call: Call, calls: seq<Call>, s: Session, m: Session)
    requires Inv(c, r) && r.head < |r.posted| && !Hidden(c, r.posted[r.head]) && call.arrivals == []
    requires m == Session(Advance(r, 1), [r.posted[r.head]]) && Receives(c, m, calls, s)
    ensures Receives(c, Session(r, []), [call] + calls, s)
  {
    SingleShowsOldest(c, Session(r, []), call);
    ReceivesMore(c, Session(r, []), calls, s, call, m);
  }

  lemma StartsFlushed(c: Config, q: Cq, r: Cq, calls: seq<Call>, s: Session)
    requires Inv(c, q) && q.head == |q.posted| && q.backlog != []
    requires AllQuiet(calls) && calls != [] && Receives(c, Session(q, []), calls, s)
    requires r == FlushBacklog(c, q) && Inv(c, r) && r.head == q.head < |r.posted| && !Hidden(c, r.posted[r.head])
    ensures Receives(c, Session(r, []), calls, s)
  {
    var m := Session(Advance(r, 1), [r.posted[r.head]]);
    AfterFirst(c, q, r, calls, s, m);
    FromFlushed(c, r, calls[0], calls[1..], s, m);
    assert [calls[0]] + calls[1..] == calls;
  }

  /** A batch call for any `count` that shows `n` completions, from the ring or from the
      overflow, and an advance by `n`, do the same as `n` rounds of peek and seen from the
      same ring, exactly if none of the `n` is an internal timeout; with extended arguments
      there are none to hide. */
  lemma BatchIsSinglesIff(c: Config, q: Cq, count: nat, b: BatchCall, calls: seq<Call>, s: Session)
    requires Inv(c, q) && QuietBatch(b) && AllQuiet(calls) && |calls| == PeekBatch(c, q, count, b).1
    requires Receives(c, Session(q, []), calls, s)
    ensures var (r, n) := PeekBatch(c, q, count, b);
            && (SameAsBatch(c, r, n, s) <==> NoneHidden(c, r.posted, r.head, r.head + n))
            && (c.extArg ==> NoneHidden(c, r.posted, r.head, r.head + n))
  {
    var (r, n) := PeekBatch(c, q, count, b);
    if n == 0 {
      NothingShown(c, q, r, calls, s);
    } else {
      QuietBatchRing(c, q, count, b);
      ShownIff(c, q, r, calls, s);
    }
  }

  lemma NothingShown(c: Config, q: Cq, r: Cq, calls: seq<Call>, s: Session)
    requires Inv(c, q) && Inv(c, r) && r.head == q.head && r.khead == q.khead
    requires calls == [] && Receives(c, Session(q, []), calls, s)
    ensures SameAsBatch(c, r, 0, s)
  {
    ReceivesNothing(c, Session(q, []), s);
    BatchShowsPosted(c, r, 0);
    SmallWord(r.khead);
  }

  lemma ShownIff(c: Config, q: Cq, r: Cq, calls: seq<Call>, s: Session)
    requires Inv(c, q) && Inv(c, r) && AllQuiet(calls) && calls != [] && Receives(c, Session(q, []), calls, s)
    requires FlushedIfEmpty(c, q, r) && r.head + |calls| <= |r.posted|
    ensures SameAsBatch(c, r, |calls|, s) <==> NoneHidden(c, r.posted, r.head, r.head + |calls|)
  {
    if NoneHidden(c, r.posted, r.head, r.head + |calls|) {
      SinglesFromBefore(c, q, r, calls, s);
      ShownIsSame(c, r, |calls|, s);
    }
    DeliversWhatWasPosted(c, q, calls, s);
    SameIsVisible(c, q, r, |calls|, s);
  }

  lemma ShownIsSame(c: Config, r: Cq, n: nat, s: Session)
    requires Inv(c, r) && Shown(r, n, s)
    ensures SameAsBatch(c, r, n, s)
  {
    BatchShowsPosted(c, r, n);
  }

  lemma SameIsVisible(c: Config, q: Cq, r: Cq, n: nat, s: Session)
    requires Inv(c, r) && r.head + n <= |r.posted| && q.head <= s.q.head <= |s.q.posted|
    requires s.delivered == Visible(c, s.q.posted[q.head..s.q.head])
    ensures SameAsBatch(c, r, n, s) ==> NoneHidden(c, r.posted, r.head, r.head + n)
  {
    BatchShowsPosted(c, r, n);
    if SameAsBatch(c, r, n, s) {
      VisibleSlice(c, s.q.posted[q.head..s.q.head], r.posted, r.head, r.head + n);
    }
  }

  /** A ring that holds one internal timeout. */
  function OneTimeout(c: Config): Cq {
    var size := if c.cqe32 then 2 * Entries(c) else Entries(c);
    Cq(0, 1, seq(size, _ => Unexpired()), [], 0, [Unexpired()])
  }

  /** Without extended arguments a batch returns the internal timeout that a peek hides. */
  lemma BatchShowsTimeout(c: Config, b: BatchCall, call: Call, s: Session)
    requires c.order <= 16 && !c.extArg && QuietBatch(b) && IsQuiet(call)
    requires Receives(c, Session(OneTimeout(c), []), [call], s)
    ensures var q := OneTimeout(c);
            && Inv(c, q) && PeekBatch(c, q, 1, b) == (q, 1)
            && Filled(c, q, 1)[0] < |q.slots| && q.slots[Filled(c, q, 1)[0]] == Unexpired()
            && s.delivered == []
  {
    var q := OneTimeout(c);
    OrderFits(c.order);
    TimeoutRing(c);
    AvailableIsCount(c, q);
    assert Posts(c, q, []) == q;
    BatchShowsPosted(c, q, 1);
    DeliversWhatWasPosted(c, q, [call], s);
    var m := ReceivesLast(c, Session(q, []), [call], s);
    assert [call][..0] == [];
    ReceivesNothing(c, Session(q, []), m);
    QuietTakeStream(c, m, call);
    OnlyTimeout(c, s);
  }

  lemma TimeoutRing(c: Config)
    requires c.order <= 16
    ensures Inv(c, OneTimeout(c))
  {
    OrderFits(c.order);
    IndexInRange(c, 0);
  }

  lemma QuietTakeStream(c: Config, s: Session, call: Call)
    requires Inv(c, s.q) && IsQuiet(call)
    ensures Stream(Take(c, s, call).q) == Stream(s.q)
  {
    PeekResult(c, s.q, []);
    QuietPeek(c, s.q);
    QuietLoop(c, Peek(c, s.q, []).q, GetData(0, 0, false), false, 0, START, call.rounds);
  }

  lemma OnlyTimeout(c: Config, s: Session)
    requires !c.extArg && Stream(s.q) == [Unexpired()] && s.q.head <= |s.q.posted|
    requires s.delivered == Visible(c, s.q.posted[0..s.q.head])
    ensures s.delivered == []
  {
    var shown := s.q.posted[0..s.q.head];
    assert |s.q.posted| <= 1;
    if s.q.head == 1 {
      assert s.q.posted[0] == Stream(s.q)[0];
      assert shown == [Unexpired()] && shown[..0] == [];
    } else {
      assert shown == [];
    }
  }

  // ---- batches and single peeks mixed --------------------------------------

  datatype Op = Single(call: Call) | Many(count: nat, b: BatchCall)

  /** One call, and the advance over what it showed. */
  function Perform(c: Config, s: Session, op: Op): (r: Session)
    requires Inv(c, s.q)
    ensures Inv(c, r.q)
  {
    match op
    case Single(call) => Take(c, s, call)
    case Many(count, b) =>
      var (r, n) := PeekBatch(c, s.q, count, b);
      BatchShowsPosted(c, r, n);
      AdvanceKeeps(c, r, n);
      Session(Advance(r, n), s.delivered + Contents(r, Filled(c, r, n)))
  }

  /** The calls take the session `s` to `r`. */
  ghost predicate Mixed(c: Config, s: Session, ops: seq<Op>, r: Session)
    decreases |ops|
  {
    if ops == [] then r == s
    else exists m :: Mixed(c, s, ops[..|ops| - 1], m) && Inv(c, m.q) && r == Perform(c, m, ops[|ops| - 1])
  }

  lemma {:induction false} VisibleConcat(c: Config, s: seq<Cqe>, t: seq<Cqe>)
    ensures Visible(c, s + t) == Visible(c, s) + Visible(c, t)
    decreases |t|
  {
    if t == [] {
      assert s + t == s;
    } else {
      var n := |t| - 1;
      VisibleConcat(c, s, t[..n]);
      VisibleAppend(c, s + t[..n], t[n]);
      assert s + t == (s + t[..n]) + [t[n]];
    }
  }

  lemma {:induction false} VisibleTwice(c: Config, s: seq<Cqe>)
    ensures Visible(c, Visible(c, s)) == Visible(c, s)
    decreases |s|
  {
    if s != [] {
      var init := s[..|s| - 1];
      VisibleTwice(c, init);
      VisibleAppend(c, Visible(c, init), s[|s| - 1]);
    }
  }

  /** What a step adds: the stretch it passes over, less internal timeouts at most, and with
      extended arguments all of it. */
  ghost predicate Adds(c: Config, s: Session, r: Session) {
    && Inv(c, r.q) && s.q.head <= r.q.head && s.q.posted <= r.q.posted && s.delivered <= r.delivered
    && var stretch, shown := r.q.posted[s.q.head..r.q.head], r.delivered[|s.delivered|..];
       Visible(c, shown) == Visible(c, stretch) && (c.extArg ==> shown == stretch)
  }

  lemma TakeAdds(c: Config, s: Session, call: Call)
    requires Inv(c, s.q)
    ensures Adds(c, s, Take(c, s, call))
  {
    var alone := Session(s.q, []);
    assert s.q.posted[s.q.head..s.q.head] == [];
    TakeDelivers(c, alone, call, s.q.head);
    var r := Take(c, s, call);
    var shown := Take(c, alone, call).delivered;
    assert r.delivered == s.delivered + shown && r.q == Take(c, alone, call).q;
    assert r.delivered[|s.delivered|..] == shown;
    VisibleTwice(c, r.q.posted[s.q.head..r.q.head]);
    if c.extArg {
      VisibleIsAll(c, r.q.posted[s.q.head..r.q.head]);
    }
  }

  lemma ManyAdds(c: Config, s: Session, count: nat, b: BatchCall)
    requires Inv(c, s.q)
    ensures Adds(c, s, Perform(c, s, Many(count, b)))
  {
    var (r, n) := PeekBatch(c, s.q, count, b);
    BatchShowsPosted(c, r, n);
    AdvanceKeeps(c, r, n);
    BatchAdds(c, s, r, n, Contents(r, Filled(c, r, n)));
  }

  lemma BatchAdds(c: Config, s: Session, r: Cq, n: nat, shown: seq<Cqe>)
    requires Inv(c, Advance(r, n)) && r.head == s.q.head && s.q.posted <= r.posted
    requires r.head + n <= |r.posted| && shown == r.posted[r.head..r.head + n]
    ensures Adds(c, s, Session(Advance(r, n), s.delivered + shown))
  {
    assert (s.delivered + shown)[|s.delivered|..] == shown;
  }

  lemma AddsOn(c: Config, q: Cq, m: Session, r: Session)
    requires Inv(c, m.q) && q.head <= m.q.head && Adds(c, m, r)
    requires Visible(c, m.delivered) == Visible(c, m.q.posted[q.head..m.q.head])
    requires c.extArg ==> m.delivered == m.q.posted[q.head..m.q.head]
    ensures Visible(c, r.delivered) == Visible(c, r.q.posted[q.head..r.q.head])
    ensures c.extArg ==> r.delivered == r.q.posted[q.head..r.q.head]
  {
    var shown := r.delivered[|m.delivered|..];
    var stretch := r.q.posted[m.q.head..r.q.head];
    assert r.delivered == m.delivered + shown;
    assert r.q.posted[q.head..r.q.head] == m.q.posted[q.head..m.q.head] + stretch;
    VisibleConcat(c, m.delivered, shown);
    VisibleConcat(c, m.q.posted[q.head..m.q.head], stretch);
  }

  /** Over any mix of single peeks, waits and batches, against any kernel: what is delivered
      is what was posted, in order and once each, but for internal timeouts; with extended
      arguments, all of it. */
  lemma {:induction false} MixedDelivers(c: Config, q: Cq, ops: seq<Op>, s: Session)
    requires Inv(c, q) && Mixed(c, Session(q, []), ops, s)
    ensures Inv(c, s.q) && q.head <= s.q.head && q.posted <= s.q.posted
    ensures Visible(c, s.delivered) == Visible(c, s.q.posted[q.head..s.q.head])
    ensures c.extArg ==> s.delivered == s.q.posted[q.head..s.q.head]
    decreases |ops|
  {
    if ops == [] {
      assert q.posted[q.head..q.head] == [];
    } else {
      var n := |ops| - 1;
      var m :| Mixed(c, Session(q, []), ops[..n], m) && Inv(c, m.q) && s == Perform(c, m, ops[n]);
      MixedDelivers(c, q, ops[..n], m);
      match ops[n]
      case Single(call) => TakeAdds(c, m, call); AddsOn(c, q, m, s);
      case Many(count, b) => ManyAdds(c, m, count, b); AddsOn(c, q, m, s);
    }
  }

  /** Counting a 32-bit head up to `head + n` takes exactly `n` steps. */
  lemma CountingUp(khead: u32, i: nat, n: nat)
    requires i <= n <= TWO16
    ensures U32(khead + i) == U32(khead + n) <==> i == n
    ensures U32(U32(khead + i) + 1) == U32(khead + (i + 1))
  {
    WordsEqual(khead + n, khead + i);
    WordNext(khead + i, 1);
  }
}
