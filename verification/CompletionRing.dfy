/** The completion ring: what the kernel posts, and how the library looks at it.

The kernel is an environment. It posts completions in order, to the ring while it
has room and nothing is waiting behind it, and to an overflow backlog otherwise;
it moves the backlog into the ring when it is entered for events. Completions that
arrive while a library function runs are parameters of that function, one batch
for each point at which it looks at shared memory.
*/
module CompletionRing {
  import opened Common
  import opened Words

  const LIBURING_UDATA_TIMEOUT: nat := TWO64 - 1

  datatype Cqe = Cqe(userData: nat, res: int, flags: nat)

  datatype Config = Config(
    order: nat,       // cq.ring_entries == 2^order
    cqe32: bool,      // IORING_SETUP_CQE32
    extArg: bool,     // IORING_FEAT_EXT_ARG
    iopoll: bool,     // IORING_SETUP_IOPOLL
    sqpoll: bool)     // IORING_SETUP_SQPOLL

  datatype Cq = Cq(
    khead: u32,
    ktail: u32,
    slots: seq<Cqe>,
    backlog: seq<Cqe>,     // overflowed completions; IORING_SQ_CQ_OVERFLOW is set while there are any
    // history
    head: nat,             // position of khead
    posted: seq<Cqe>)      // everything that ever reached the ring

  function Entries(c: Config): nat { Pow2(c.order) }

  /** `io_uring_cqe_index`. */
  function Index(c: Config, w: u32): nat {
    var slot := And(w, Entries(c) - 1);
    if c.cqe32 then 2 * slot else slot
  }

  ghost predicate Inv(c: Config, q: Cq) {
    && c.order <= 16
    && |q.slots| == (if c.cqe32 then 2 * Entries(c) else Entries(c))
    && q.khead == U32(q.head) && q.ktail == U32(|q.posted|)
    && q.head <= |q.posted| <= q.head + Entries(c)
    && (forall p :: q.head <= p < |q.posted| ==> At(q, Index(c, U32(p))) == Some(q.posted[p]))
  }

  function At(q: Cq, i: nat): Option<Cqe> { if i < |q.slots| then Some(q.slots[i]) else None }

  /** Everything the kernel has completed so far, in the order it did. */
  function Stream(q: Cq): seq<Cqe> { q.posted + q.backlog }

  // ---- the kernel ----------------------------------------------------------

  /** A completion; `spill` if the kernel queues it behind the ring although there is
      room, as it does when it sees an old head. */
  datatype Arrival = Arrival(cqe: Cqe, spill: bool)

  function Put(c: Config, q: Cq, e: Cqe): Cq {
    var i := Index(c, q.ktail);
    q.(slots := if i < |q.slots| then q.slots[i := e] else q.slots,
       ktail := U32(q.ktail + 1),
       posted := q.posted + [e])
  }

  function HasRoom(c: Config, q: Cq): bool { Sub32(q.ktail, q.khead) < Entries(c) }

  function Post(c: Config, q: Cq, a: Arrival): Cq {
    if q.backlog == [] && HasRoom(c, q) && !a.spill then Put(c, q, a.cqe)
    else q.(backlog := q.backlog + [a.cqe])
  }

  function Posts(c: Config, q: Cq, arrivals: seq<Arrival>): Cq
    decreases |arrivals|
  {
    if arrivals == [] then q else Posts(c, Post(c, q, arrivals[0]), arrivals[1..])
  }

  function FlushBacklog(c: Config, q: Cq): Cq
    decreases |q.backlog|
  {
    if q.backlog == [] || !HasRoom(c, q) then q
    else FlushBacklog(c, Put(c, q.(backlog := q.backlog[1..]), q.backlog[0]))
  }

  // ---- the library ---------------------------------------------------------

  /** `io_uring_cq_advance`. */
  function Advance(q: Cq, nr: nat): Cq { q.(khead := U32(q.khead + nr), head := q.head + nr) }

  /** `cq_ring_needs_enter`. */
  predicate NeedsEnter(c: Config, q: Cq, taskrun: bool) { c.iopoll || q.backlog != [] || taskrun }

  datatype Peeked = Peeked(q: Cq, cqe: Option<nat>, available: u32, err: int)

  /** One turn of the loop of `__io_uring_peek_cqe`, and whether it goes round again. */
  function Look(c: Config, q: Cq): (Peeked, bool) {
    var available := Sub32(q.ktail, q.khead);
    var i := Index(c, q.khead);
    if available == 0 || At(q, i).None? then (Peeked(q, None, available, 0), false)
    else
      var e := At(q, i).value;
      if !c.extArg && e.userData == LIBURING_UDATA_TIMEOUT then
        (Peeked(Advance(q, 1), None, available, if e.res < 0 then e.res else 0), e.res >= 0)
      else (Peeked(q, Some(i), available, 0), false)
  }

  /** `__io_uring_peek_cqe`: the index of the oldest completion the caller may see. */
  function Peek(c: Config, q: Cq, arrivals: seq<seq<Arrival>>): Peeked
    requires Inv(c, q)
    decreases |arrivals|, |q.posted| - q.head
  {
    var q1 := Arrive(c, q, arrivals);
    LookResult(c, q1);
    var (r, again) := Look(c, q1);
    if again then Peek(c, r.q, Rest(arrivals)) else r
  }

  function Rest<T>(s: seq<T>): seq<T> { if s == [] then [] else s[1..] }

  function Arrive(c: Config, q: Cq, arrivals: seq<seq<Arrival>>): (r: Cq)
    requires Inv(c, q)
    ensures Inv(c, r) && r.head == q.head && r.khead == q.khead && q.posted <= r.posted
    ensures arrivals == [] ==> r == q
  {
    if arrivals == [] then q else (PostsKeep(c, q, arrivals[0]); Posts(c, q, arrivals[0]))
  }

  // ---- the kernel keeps the ring -------------------------------------------

  lemma IndexInRange(c: Config, pos: nat)
    requires c.order <= 16
    ensures Index(c, U32(pos)) < (if c.cqe32 then 2 * Entries(c) else Entries(c))
    ensures Index(c, U32(pos)) == (if c.cqe32 then 2 * (pos % Entries(c)) else pos % Entries(c))
  {
    MaskedWord(pos, c.order);
  }

  lemma IndicesDiffer(c: Config, p: nat, q: nat)
    requires c.order <= 16 && p < q < p + Entries(c)
    ensures Index(c, U32(p)) != Index(c, U32(q))
  {
    IndexInRange(c, p);
    IndexInRange(c, q);
    DistinctMod(p, q, Entries(c));
  }

  lemma AvailableIsCount(c: Config, q: Cq)
    requires Inv(c, q)
    ensures Sub32(q.ktail, q.khead) == |q.posted| - q.head
    ensures q.head < |q.posted| ==> At(q, Index(c, q.khead)) == Some(q.posted[q.head])
  {
    OrderFits(c.order);
    WordDistance(|q.posted|, q.head);
  }

  lemma PutKeeps(c: Config, q: Cq, e: Cqe)
    requires Inv(c, q) && HasRoom(c, q)
    ensures Inv(c, Put(c, q, e))
  {
    AvailableIsCount(c, q);
    var t := |q.posted|;
    IndexInRange(c, t);
    WordNext(t, 1);
    var r := Put(c, q, e);
    forall p | r.head <= p < |r.posted| ensures At(r, Index(c, U32(p))) == Some(r.posted[p]) {
      if p < t {
        assert At(q, Index(c, U32(p))) == Some(q.posted[p]);
        IndicesDiffer(c, p, t);
      }
    }
  }

  lemma PostKeeps(c: Config, q: Cq, a: Arrival)
    requires Inv(c, q)
    ensures Inv(c, Post(c, q, a)) && Post(c, q, a).head == q.head && q.posted <= Post(c, q, a).posted
    ensures Stream(Post(c, q, a)) == Stream(q) + [a.cqe]
    ensures q.backlog != [] ==> Post(c, q, a).posted == q.posted && Post(c, q, a).backlog != []
  {
    if q.backlog == [] && HasRoom(c, q) && !a.spill {
      PutKeeps(c, q, a.cqe);
    }
  }

  function Cqes(arrivals: seq<Arrival>): (r: seq<Cqe>)
    ensures |r| == |arrivals|
  {
    seq(|arrivals|, i requires 0 <= i < |arrivals| => arrivals[i].cqe)
  }

  /** Arrivals extend the stream by exactly themselves, in order. */
  lemma {:induction false} PostsKeep(c: Config, q: Cq, arrivals: seq<Arrival>)
    requires Inv(c, q)
    ensures Inv(c, Posts(c, q, arrivals)) && Posts(c, q, arrivals).head == q.head
    ensures q.posted <= Posts(c, q, arrivals).posted
    ensures Posts(c, q, arrivals).khead == q.khead
    ensures Stream(Posts(c, q, arrivals)) == Stream(q) + Cqes(arrivals)
    ensures q.backlog != [] ==> Posts(c, q, arrivals).posted == q.posted && Posts(c, q, arrivals).backlog != []
    decreases |arrivals|
  {
    if arrivals != [] {
      PostKeeps(c, q, arrivals[0]);
      PostsKeep(c, Post(c, q, arrivals[0]), arrivals[1..]);
      assert Cqes(arrivals) == [arrivals[0].cqe] + Cqes(arrivals[1..]);
    }
  }

  /** Flushing reorders nothing and leaves a backlog only behind a full ring. */
  lemma {:induction false} FlushKeeps(c: Config, q: Cq)
    requires Inv(c, q)
    ensures Inv(c, FlushBacklog(c, q)) && FlushBacklog(c, q).head == q.head
    ensures FlushBacklog(c, q).khead == q.khead
    ensures q.posted <= FlushBacklog(c, q).posted
    ensures Stream(FlushBacklog(c, q)) == Stream(q)
    ensures FlushBacklog(c, q).backlog != [] ==> |FlushBacklog(c, q).posted| == q.head + Entries(c)
    decreases |q.backlog|
  {
    AvailableIsCount(c, q);
    if q.backlog != [] && HasRoom(c, q) {
      var r := q.(backlog := q.backlog[1..]);
      assert Inv(c, r);
      PutKeeps(c, r, q.backlog[0]);
      assert Stream(Put(c, r, q.backlog[0])) == Stream(q);
      FlushKeeps(c, Put(c, r, q.backlog[0]));
    }
  }

  lemma AdvanceKeeps(c: Config, q: Cq, nr: nat)
    requires Inv(c, q) && q.head + nr <= |q.posted|
    ensures Inv(c, Advance(q, nr))
  {
    WordNext(q.head, nr);
  }

  // ---- what a peek returns -------------------------------------------------

  /** The part of a stretch of completions a caller is shown. */
  function Visible(c: Config, s: seq<Cqe>): seq<Cqe> {
    if s == [] then []
    else
      var init := Visible(c, s[..|s| - 1]);
      if Hidden(c, s[|s| - 1]) then init else init + [s[|s| - 1]]
  }

  predicate Hidden(c: Config, e: Cqe) { !c.extArg && e.userData == LIBURING_UDATA_TIMEOUT }

  ghost predicate AllHidden(c: Config, s: seq<Cqe>) {
    forall i :: 0 <= i < |s| ==> Hidden(c, s[i])
  }

  /** A peek skips hidden entries and stops at the oldest visible one, at an expired
      internal timeout, or at the end of the ring. */
  ghost predicate Shows(c: Config, q: Cq, r: Peeked) {
    && Inv(c, r.q) && q.head <= r.q.head && q.posted <= r.q.posted
    && AllHidden(c, r.q.posted[q.head..r.q.head])
    && (c.extArg ==> r.q.head == q.head && r.err == 0)
    && r.err <= 0
    && match r.cqe
       case Some(i) =>
         && r.err == 0 && r.q.head < |r.q.posted| && !Hidden(c, r.q.posted[r.q.head])
         && i == Index(c, r.q.khead) && r.available == |r.q.posted| - r.q.head
       case None => r.err == 0 ==> r.q.head == |r.q.posted| && r.available == 0
  }

  lemma LookResult(c: Config, q: Cq)
    requires Inv(c, q)
    ensures var (r, again) := Look(c, q);
            if again then r.q == Advance(q, 1) && q.head < |q.posted| && Hidden(c, q.posted[q.head]) && Inv(c, r.q)
            else Shows(c, q, r)
  {
    AvailableIsCount(c, q);
    if q.head < |q.posted| && Hidden(c, q.posted[q.head]) {
      AdvanceKeeps(c, q, 1);
      assert q.posted[q.head..q.head + 1] == [q.posted[q.head]];
    }
  }

  lemma ShowsAfterSkip(c: Config, q: Cq, q1: Cq, r: Peeked)
    requires q1.head == q.head < |q1.posted| && q.posted <= q1.posted && Hidden(c, q1.posted[q1.head])
    requires Shows(c, Advance(q1, 1), r)
    ensures Shows(c, q, r)
  {
    assert r.q.posted[q.head] == q1.posted[q1.head];
    assert r.q.posted[q.head..r.q.head] == [q1.posted[q1.head]] + r.q.posted[q1.head + 1..r.q.head];
  }

  lemma {:induction false} PeekResult(c: Config, q: Cq, arrivals: seq<seq<Arrival>>)
    requires Inv(c, q)
    ensures Shows(c, q, Peek(c, q, arrivals))
    decreases |arrivals|, |q.posted| - q.head
  {
    var q1 := Arrive(c, q, arrivals);
    LookResult(c, q1);
    if Look(c, q1).1 {
      PeekResult(c, Advance(q1, 1), Rest(arrivals));
      ShowsAfterSkip(c, q, q1, Peek(c, Advance(q1, 1), Rest(arrivals)));
    }
  }
}
