/** One shared ring between a producer and a consumer under weak memory ordering.

The submission ring (application produces, kernel consumes) and the completion
ring (kernel produces, application consumes) are the same protocol with the
roles exchanged, so both are instances of this machine: `SubmissionRing` and
`CompletionRing` below.

Each party issues memory operations into a buffer of its own. A plain operation
of the buffer takes effect at any later time, in any order that respects
program order per location; a release store takes effect only after everything
issued before it, loads included (section 7.17.3 of ISO/IEC 9899:2011). A load
of the other party's index may return any value between the one it returned last
and the current one.

Words of the implementation are `u32` fields. Fields below "history" are
unbounded positions and recorded values; no branch of a step reads them.
*/
module WeakRing {
  import opened Words

  datatype Config = Config(
    order: nat,        // ring_entries == 2^order
    wide: bool,        // IORING_SETUP_SQE128 or IORING_SETUP_CQE32: two cells per entry
    sameThread: bool,
    releaseTail: bool,
    releaseHead: bool,
    index: seq<nat>)   // slot -> entry, as sq->array; the identity where there is none

  function Entries(c: Config): nat { Pow2(c.order) }

  function Width(c: Config): nat { if c.wide then 2 else 1 }

  /** `slot << shift`. */
  function Shift(c: Config, slot: nat): nat { if c.wide then 2 * slot else slot }

  ghost predicate ConfigOk(c: Config) {
    && c.order <= 16
    && |c.index| == Entries(c)
    && (forall i :: 0 <= i < |c.index| ==> c.index[i] == i)
  }

  /** What the code does: either both indices are released, or nobody else looks. */
  predicate Ordered(c: Config) { TailOrdered(c) && HeadOrdered(c) }

  predicate TailOrdered(c: Config) { c.sameThread || c.releaseTail }

  predicate HeadOrdered(c: Config) { c.sameThread || c.releaseHead }

  /** The submission ring: `__io_uring_flush_sq` releases the tail for SQPOLL, and stores it
      relaxed otherwise, when the kernel consumes on the submitting thread; the kernel
      releases the head. */
  function SubmissionRing(order: nat, sqe128: bool, sqpoll: bool): Config {
    Config(order, sqe128, !sqpoll, sqpoll, true, Identity(Pow2(order)))
  }

  /** The completion ring: the kernel releases the tail, `io_uring_cq_advance` the head. */
  function CompletionRing(order: nat, cqe32: bool): Config {
    Config(order, cqe32, false, true, true, Identity(Pow2(order)))
  }

  function Identity(n: nat): (r: seq<nat>)
    ensures |r| == n && forall i :: 0 <= i < n ==> r[i] == i
  {
    seq(n, i => i)
  }

  function Slot(c: Config, w: u32): nat { And(w, Entries(c) - 1) }

  /** The cell the producer addresses: `(w & mask) << shift`, plus the part. */
  function ProducerCell(c: Config, w: u32, part: nat): nat { Shift(c, Slot(c, w)) + part }

  /** The cell the consumer addresses, through the index array. */
  function ConsumerCell(c: Config, w: u32, part: nat): nat {
    var slot := Slot(c, w);
    Shift(c, if slot < |c.index| then c.index[slot] else 0) + part
  }

  datatype ProducerOp =
    | Write(pos: nat, part: nat, value: int)  // plain store to a cell of the entry at pos
    | Tail(word: u32, pos: nat)               // store to the shared tail

  datatype ConsumerOp =
    | Read(pos: nat, part: nat)               // plain load of a cell of the entry at pos
    | Head(word: u32, pos: nat)               // store to the shared head

  datatype Ring = Ring(
    // producer
    localHead: u32,                  // sqe_head: what has been published
    localTail: u32,                  // sqe_tail: what has been handed out
    producing: seq<ProducerOp>,
    // shared memory
    head: u32,
    tail: u32,
    cells: seq<int>,
    // consumer
    loadedTail: u32,
    nextRead: u32,
    storedHead: u32,
    consuming: seq<ConsumerOp>,
    // history
    handed: nat,
    seen: nat,                       // position of the head the producer loaded last
    view: seq<int>,                  // the cells in the producer's program order
    published: seq<seq<int>>,        // contents of each entry when it was published
    visible: nat,                    // position of `tail`
    loaded: nat,
    issued: nat,                     // entries the consumer has begun to read
    stored: nat,
    released: nat,                   // position of `head`
    got: map<(nat, nat), int>)       // what each load returned

  function Contents(c: Config, m: seq<int>, pos: nat): (r: seq<int>)
    ensures |r| == Width(c)
  {
    seq(Width(c), part requires 0 <= part => At(m, ProducerCell(c, U32(pos), part)))
  }

  function At(m: seq<int>, i: nat): int { if i < |m| then m[i] else 0 }

  // ---- steps of the producer ----------------------------------------------

  /** `io_uring_get_sqe`, with `at` the position of the head word the load returned. */
  function Reserve(c: Config, s: Ring, at: nat): (Ring, bool) {
    var next := U32(s.localTail + 1);
    if Sub32(next, U32(at)) <= Entries(c) then
      (s.(localTail := next, handed := s.handed + 1, seen := at), true)
    else
      (s.(seen := at), false)
  }

  /** The owner of a handed-out, unpublished entry fills in one cell of it. */
  function Store(c: Config, s: Ring, pos: nat, part: nat, value: int): Ring {
    s.(producing := s.producing + [Write(pos, part, value)], view := Do(c, s.view, Write(pos, part, value)))
  }

  /** `__io_uring_flush_sq` up to the store of the tail. */
  function Publish(c: Config, s: Ring): Ring
    requires |s.published| <= s.handed
  {
    if s.localHead != s.localTail then
      s.(localHead := s.localTail,
         producing := s.producing + [Tail(s.localTail, s.handed)],
         published := s.published + Unpublished(c, s))
    else s
  }

  function Unpublished(c: Config, s: Ring): (r: seq<seq<int>>)
    requires |s.published| <= s.handed
    ensures |r| == s.handed - |s.published|
  {
    seq(s.handed - |s.published|, k requires 0 <= k => Contents(c, s.view, |s.published| + k))
  }

  /** The value `__io_uring_flush_sq` returns, for a head word loaded at position `at`. */
  function Estimate(s: Ring, at: nat): u32 { Sub32(s.localTail, U32(at)) }

  predicate CanDrain(c: Config, s: Ring, i: nat) {
    && i < |s.producing|
    && match s.producing[i]
       case Write(pos, part, _) =>
         forall k :: 0 <= k < i ==> !WritesTo(c, s.producing[k], ProducerCell(c, U32(pos), part))
       case Tail(_, _) =>
         if c.releaseTail then i == 0 else forall k :: 0 <= k < i ==> s.producing[k].Write?
  }

  predicate WritesTo(c: Config, op: ProducerOp, cell: nat) {
    op.Write? && ProducerCell(c, U32(op.pos), op.part) == cell
  }

  /** The effect of one buffered operation on the cells. */
  function Do(c: Config, m: seq<int>, op: ProducerOp): (r: seq<int>)
    ensures |r| == |m|
  {
    match op
    case Write(pos, part, value) =>
      var cell := ProducerCell(c, U32(pos), part);
      if cell < |m| then m[cell := value] else m
    case Tail(_, _) => m
  }

  function Drain(c: Config, s: Ring, i: nat): Ring
    requires i < |s.producing|
  {
    var op := s.producing[i];
    var t := s.(producing := s.producing[..i] + s.producing[i + 1..], cells := Do(c, s.cells, op));
    if op.Tail? then t.(tail := op.word, visible := op.pos) else t
  }

  // ---- steps of the consumer ----------------------------------------------

  /** Acquire load of the tail; on the producer's own thread it sees its last store. */
  function LoadTail(c: Config, s: Ring): Ring {
    if c.sameThread then s.(loadedTail := s.localHead, loaded := |s.published|)
    else s.(loadedTail := s.tail, loaded := s.visible)
  }

  /** Begin reading the next entry, if the loaded tail says there is one. */
  function IssueRead(c: Config, s: Ring): Ring {
    if s.nextRead != s.loadedTail then
      s.(nextRead := U32(s.nextRead + 1),
         issued := s.issued + 1,
         consuming := s.consuming + seq(Width(c), part requires 0 <= part => Read(s.issued, part)))
    else s
  }

  /** `io_uring_cq_advance(nr)`, or the kernel's store of the submission head. */
  function StoreHead(s: Ring, nr: nat): Ring {
    var w := U32(s.storedHead + nr);
    s.(storedHead := w, stored := s.stored + nr, consuming := s.consuming + [Head(w, s.stored + nr)])
  }

  predicate CanPerform(c: Config, s: Ring, i: nat) {
    && i < |s.consuming|
    && (s.consuming[i].Head? ==>
          if HeadOrdered(c) then i == 0 else forall k :: 0 <= k < i ==> s.consuming[k].Read?)
  }

  function Perform(c: Config, s: Ring, i: nat): Ring
    requires i < |s.consuming|
  {
    var t := s.(consuming := s.consuming[..i] + s.consuming[i + 1..]);
    match s.consuming[i]
    case Read(pos, part) =>
      var m := if c.sameThread then s.view else s.cells;
      t.(got := s.got[(pos, part) := At(m, ConsumerCell(c, U32(pos), part))])
    case Head(word, pos) => t.(head := word, released := pos)
  }

  // ---- runs ----------------------------------------------------------------

  datatype Action =
    | DoReserve(at: nat)
    | DoStore(pos: nat, part: nat, value: int)
    | DoPublish
    | DoDrain(i: nat)
    | DoLoadTail
    | DoIssueRead
    | DoStoreHead(nr: nat)
    | DoPerform(i: nat)

  /** What each party may do: an owner writes only entries it holds, and a consumer
      gives back only entries it has begun to read. */
  predicate Enabled(c: Config, s: Ring, a: Action) {
    match a
    case DoReserve(at) => s.seen <= at <= s.released
    case DoStore(pos, part, _) => |s.published| <= pos < s.handed && part < Width(c)
    case DoPublish => true
    case DoDrain(i) => CanDrain(c, s, i)
    case DoLoadTail => true
    case DoIssueRead => true
    case DoStoreHead(nr) => 0 < nr && s.stored + nr <= s.issued
    case DoPerform(i) => CanPerform(c, s, i)
  }

  function Step(c: Config, s: Ring, a: Action): Ring {
    if !Enabled(c, s, a) || s.handed < |s.published| then s
    else
      match a
      case DoReserve(at) => Reserve(c, s, at).0
      case DoStore(pos, part, value) => Store(c, s, pos, part, value)
      case DoPublish => Publish(c, s)
      case DoDrain(i) => Drain(c, s, i)
      case DoLoadTail => LoadTail(c, s)
      case DoIssueRead => IssueRead(c, s)
      case DoStoreHead(nr) => StoreHead(s, nr)
      case DoPerform(i) => Perform(c, s, i)
  }

  function Run(c: Config, s: Ring, actions: seq<Action>): Ring
    decreases |actions|
  {
    if actions == [] then s else Run(c, Step(c, s, actions[0]), actions[1..])
  }

  /** The ring as it is mapped: all counters zero, the cells holding anything. */
  function Initial(cells: seq<int>): Ring {
    Ring(0, 0, [], 0, 0, cells, 0, 0, 0, [], 0, 0, cells, [], 0, 0, 0, 0, 0, map[])
  }

  // ---- the invariant -------------------------------------------------------

  ghost predicate WordsAgree(s: Ring) {
    && s.localHead == U32(|s.published|) && s.localTail == U32(s.handed)
    && s.head == U32(s.released) && s.tail == U32(s.visible)
    && s.loadedTail == U32(s.loaded) && s.nextRead == U32(s.issued) && s.storedHead == U32(s.stored)
  }

  function KernelTail(c: Config, s: Ring): nat { if c.sameThread then |s.published| else s.visible }

  ghost predicate InOrder(c: Config, s: Ring) {
    && s.seen <= s.released <= s.stored <= s.issued <= s.loaded <= KernelTail(c, s)
    && s.visible <= |s.published| <= s.handed <= s.seen + Entries(c)
  }

  /** Buffered stores: what is pending belongs to entries the consumer cannot see yet,
      and nothing issued after a tail store belongs to an entry that store publishes. */
  ghost predicate ProducerOk(c: Config, s: Ring) {
    && (forall i :: 0 <= i < |s.producing| ==> StoreOk(c, s, s.producing[i]))
    && (forall i, j :: 0 <= i < j < |s.producing| ==> Later(s.producing[i], s.producing[j]))
  }

  ghost predicate StoreOk(c: Config, s: Ring, op: ProducerOp) {
    match op
    case Write(pos, part, _) => part < Width(c) && pos < s.handed && (!c.sameThread ==> s.visible <= pos)
    case Tail(word, pos) => word == U32(pos) && s.visible <= pos <= |s.published|
  }

  ghost predicate Later(a: ProducerOp, b: ProducerOp) {
    a.Tail? ==> a.pos <= b.pos
  }

  ghost predicate ViewOk(c: Config, s: Ring) {
    && |s.cells| == Shift(c, Entries(c))
    && s.view == Apply(c, s.producing, s.cells)
  }

  function Apply(c: Config, ops: seq<ProducerOp>, m: seq<int>): (r: seq<int>)
    ensures |r| == |m|
    decreases |ops|
  {
    if ops == [] then m else Apply(c, ops[1..], Do(c, m, ops[0]))
  }

  ghost predicate PublishedOk(c: Config, s: Ring) {
    forall p :: s.released <= p < |s.published| ==> Contents(c, s.view, p) == s.published[p]
  }

  ghost predicate ConsumerOk(c: Config, s: Ring) {
    && (forall i :: 0 <= i < |s.consuming| ==> LoadOk(c, s, s.consuming[i]))
    && (forall i, j :: 0 <= i < j < |s.consuming| ==> After(s.consuming[i], s.consuming[j]))
  }

  ghost predicate LoadOk(c: Config, s: Ring, op: ConsumerOp) {
    match op
    case Read(pos, part) => s.released <= pos < s.issued && part < Width(c) && (pos, part) !in s.got
    case Head(word, pos) => word == U32(pos) && s.released <= pos <= s.stored
  }

  /** Nothing issued after a head store belongs to an entry that store gives back,
      and no cell is loaded twice. */
  ghost predicate After(a: ConsumerOp, b: ConsumerOp) {
    (a.Head? ==> a.pos <= b.pos) && (a.Read? ==> a != b)
  }

  /** Every load that took effect returned what was published, and every entry the
      consumer has begun to read has been or will be loaded in full. */
  ghost predicate GotOk(c: Config, s: Ring) {
    && (forall p, j :: (p, j) in s.got ==>
         p < s.issued && p < |s.published| && j < |s.published[p]| && s.got[(p, j)] == s.published[p][j])
    && (forall p, j :: 0 <= p < s.issued && 0 <= j < Width(c) ==> (p, j) in s.got || Read(p, j) in s.consuming)
  }

  ghost predicate Inv(c: Config, s: Ring) {
    && WordsAgree(s) && InOrder(c, s)
    && ProducerOk(c, s) && ViewOk(c, s) && PublishedOk(c, s)
    && ConsumerOk(c, s) && GotOk(c, s)
    && (forall p :: 0 <= p < |s.published| ==> |s.published[p]| == Width(c))
  }

  // ---- cells ---------------------------------------------------------------

  lemma SlotIsPosition(c: Config, pos: nat)
    requires ConfigOk(c)
    ensures Slot(c, U32(pos)) == pos % Entries(c) < Entries(c)
  {
    MaskedWord(pos, c.order);
  }

  /** Entries less than a ring apart occupy different cells. */
  lemma CellsDiffer(c: Config, p: nat, q: nat, i: nat, j: nat)
    requires ConfigOk(c) && i < Width(c) && j < Width(c)
    requires p < q < p + Entries(c)
    ensures ProducerCell(c, U32(p), i) != ProducerCell(c, U32(q), j)
  {
    SlotIsPosition(c, p);
    SlotIsPosition(c, q);
    DistinctMod(p, q, Entries(c));
  }

  lemma CellInRange(c: Config, pos: nat, part: nat)
    requires ConfigOk(c) && part < Width(c)
    ensures ProducerCell(c, U32(pos), part) < Shift(c, Entries(c))
    ensures ConsumerCell(c, U32(pos), part) == ProducerCell(c, U32(pos), part)
  {
    SlotIsPosition(c, pos);
  }

  // ---- the store buffer ----------------------------------------------------

  lemma {:induction false} ApplyAppend(c: Config, ops: seq<ProducerOp>, op: ProducerOp, m: seq<int>)
    ensures Apply(c, ops + [op], m) == Do(c, Apply(c, ops, m), op)
    decreases |ops|
  {
    if ops == [] {
      assert ops + [op] == [op];
      assert Apply(c, [op], m) == Apply(c, [op][1..], Do(c, m, op));
    } else {
      assert (ops + [op])[1..] == ops[1..] + [op];
      ApplyAppend(c, ops[1..], op, Do(c, m, ops[0]));
    }
  }

  /** Draining a store out of order keeps the producer's view. */
  lemma {:induction false} ApplyDrain(c: Config, ops: seq<ProducerOp>, i: nat, m: seq<int>)
    requires i < |ops|
    requires ops[i].Write? ==>
               forall k :: 0 <= k < i ==> !WritesTo(c, ops[k], ProducerCell(c, U32(ops[i].pos), ops[i].part))
    ensures Apply(c, ops[..i] + ops[i + 1..], Do(c, m, ops[i])) == Apply(c, ops, m)
    decreases i
  {
    var rest := ops[..i] + ops[i + 1..];
    if i == 0 {
      assert rest == ops[1..];
    } else {
      var tail := ops[1..];
      assert rest[1..] == tail[..i - 1] + tail[i..];
      assert Do(c, Do(c, m, ops[i]), ops[0]) == Do(c, Do(c, m, ops[0]), ops[i]) by {
        assert !ops[i].Write? || !WritesTo(c, ops[0], ProducerCell(c, U32(ops[i].pos), ops[i].part));
      }
      ApplyDrain(c, tail, i - 1, Do(c, m, ops[0]));
    }
  }

  lemma {:induction false} ApplyUntouched(c: Config, ops: seq<ProducerOp>, m: seq<int>, cell: nat)
    requires cell < |m|
    requires forall k :: 0 <= k < |ops| ==> !WritesTo(c, ops[k], cell)
    ensures Apply(c, ops, m)[cell] == m[cell]
    decreases |ops|
  {
    if ops != [] {
      assert !WritesTo(c, ops[0], cell);
      ApplyUntouched(c, ops[1..], Do(c, m, ops[0]), cell);
    }
  }

  /** A cell of an entry the consumer may read holds what the producer's program order says. */
  lemma VisibleCell(c: Config, s: Ring, p: nat, part: nat)
    requires ConfigOk(c) && !c.sameThread && InOrder(c, s) && ProducerOk(c, s) && ViewOk(c, s)
    requires s.released <= p < s.visible && part < Width(c)
    ensures At(s.cells, ProducerCell(c, U32(p), part)) == At(s.view, ProducerCell(c, U32(p), part))
  {
    var cell := ProducerCell(c, U32(p), part);
    CellInRange(c, p, part);
    forall k | 0 <= k < |s.producing| ensures !WritesTo(c, s.producing[k], cell) {
      var op := s.producing[k];
      assert StoreOk(c, s, op);
      if op.Write? {
        CellsDiffer(c, p, op.pos, part, op.part);
      }
    }
    ApplyUntouched(c, s.producing, s.cells, cell);
  }

  // ---- every step keeps the invariant --------------------------------------

  /** The u32 test of `io_uring_get_sqe` decides exactly whether the head that was
      loaded leaves room. */
  lemma ReserveDecides(c: Config, s: Ring, at: nat)
    requires ConfigOk(c) && WordsAgree(s) && InOrder(c, s) && s.seen <= at <= s.released
    ensures Reserve(c, s, at).1 <==> s.handed - at < Entries(c)
  {
    OrderFits(c.order);
    WordNext(s.handed, 1);
    WordDistance(s.handed + 1, at);
  }

  /** Buffers that a step does not touch stay well-formed. */
  lemma BuffersKept(c: Config, s: Ring, t: Ring)
    requires ProducerOk(c, s) && ConsumerOk(c, s)
    ensures (t.producing == s.producing && t.visible == s.visible && s.handed <= t.handed &&
             |s.published| <= |t.published|) ==> ProducerOk(c, t)
    ensures (t.consuming == s.consuming && t.released == s.released && t.got == s.got &&
             s.issued <= t.issued && s.stored <= t.stored) ==> ConsumerOk(c, t)
  {
    forall i | 0 <= i < |s.producing| ensures StoreOk(c, s, s.producing[i]) {}
    forall i | 0 <= i < |s.consuming| ensures LoadOk(c, s, s.consuming[i]) {}
  }

  lemma ReserveKeeps(c: Config, s: Ring, at: nat)
    requires ConfigOk(c) && Inv(c, s) && s.seen <= at <= s.released
    ensures Inv(c, Reserve(c, s, at).0)
  {
    ReserveDecides(c, s, at);
    WordNext(s.handed, 1);
    var t := Reserve(c, s, at).0;
    BuffersKept(c, s, t);
  }

  lemma StoreKeeps(c: Config, s: Ring, pos: nat, part: nat, value: int)
    requires ConfigOk(c) && Inv(c, s) && |s.published| <= pos < s.handed && part < Width(c)
    ensures Inv(c, Store(c, s, pos, part, value))
  {
    var op := Write(pos, part, value);
    var t := Store(c, s, pos, part, value);
    ApplyAppend(c, s.producing, op, s.cells);
    forall i | 0 <= i < |t.producing| ensures StoreOk(c, t, t.producing[i]) {
      assert i < |s.producing| ==> StoreOk(c, s, s.producing[i]);
    }
    forall i, j | 0 <= i < j < |t.producing| ensures Later(t.producing[i], t.producing[j]) {
      assert StoreOk(c, s, s.producing[i]);
      assert j < |s.producing| ==> Later(s.producing[i], s.producing[j]);
    }
    forall p | t.released <= p < |t.published| ensures Contents(c, t.view, p) == t.published[p] {
      assert Contents(c, s.view, p) == s.published[p];
      forall j | 0 <= j < Width(c)
        ensures At(t.view, ProducerCell(c, U32(p), j)) == At(s.view, ProducerCell(c, U32(p), j))
      {
        CellsDiffer(c, p, pos, j, part);
      }
      assert Contents(c, t.view, p) == Contents(c, s.view, p);
    }
    BuffersKept(c, s, t);
  }

  lemma PublishKeepsStores(c: Config, s: Ring)
    requires ProducerOk(c, s) && |s.published| <= s.handed && s.visible <= |s.published|
    requires s.localTail == U32(s.handed)
    ensures ProducerOk(c, Publish(c, s))
  {
    var t := Publish(c, s);
    forall i | 0 <= i < |t.producing| ensures StoreOk(c, t, t.producing[i]) {
      assert i < |s.producing| ==> StoreOk(c, s, s.producing[i]);
    }
    forall i, j | 0 <= i < j < |t.producing| ensures Later(t.producing[i], t.producing[j]) {
      assert StoreOk(c, s, s.producing[i]);
      assert j < |s.producing| ==> Later(s.producing[i], s.producing[j]);
    }
  }

  lemma PublishKeepsContents(c: Config, s: Ring)
    requires PublishedOk(c, s) && |s.published| <= s.handed
    ensures PublishedOk(c, Publish(c, s))
  {
    var t := Publish(c, s);
    forall p | t.released <= p < |t.published| ensures Contents(c, t.view, p) == t.published[p] {
      if p < |s.published| {
        assert Contents(c, s.view, p) == s.published[p];
      } else {
        assert t.published[p] == Unpublished(c, s)[p - |s.published|];
      }
    }
  }

  lemma PublishKeeps(c: Config, s: Ring)
    requires ConfigOk(c) && Inv(c, s)
    ensures Inv(c, Publish(c, s))
    ensures |Publish(c, s).published| == s.handed
  {
    OrderFits(c.order);
    WordsEqual(s.handed, |s.published|);
    PublishKeepsStores(c, s);
    PublishKeepsContents(c, s);
    BuffersKept(c, s, Publish(c, s));
    ApplyAppend(c, s.producing, Tail(s.localTail, s.handed), s.cells);
  }

  function Skip(i: nat, k: nat): nat { if k < i then k else k + 1 }

  lemma DrainKeepsOrder(s: Ring, ops: seq<ProducerOp>, i: nat)
    requires i < |s.producing| && ops == s.producing[..i] + s.producing[i + 1..]
    requires forall k, j :: 0 <= k < j < |s.producing| ==> Later(s.producing[k], s.producing[j])
    ensures forall k, j :: 0 <= k < j < |ops| ==> Later(ops[k], ops[j])
  {
    forall k, j | 0 <= k < j < |ops| ensures Later(ops[k], ops[j]) {
      assert ops[k] == s.producing[Skip(i, k)] && ops[j] == s.producing[Skip(i, j)];
      assert Later(s.producing[Skip(i, k)], s.producing[Skip(i, j)]);
    }
  }

  lemma DrainKeepsStores(c: Config, s: Ring, i: nat)
    requires TailOrdered(c) && ProducerOk(c, s) && CanDrain(c, s, i)
    ensures ProducerOk(c, Drain(c, s, i))
  {
    var op := s.producing[i];
    var t := Drain(c, s, i);
    forall k | 0 <= k < |t.producing| ensures StoreOk(c, t, t.producing[k]) {
      var k' := Skip(i, k);
      assert t.producing[k] == s.producing[k'];
      assert StoreOk(c, s, s.producing[k']);
      if op.Tail? {
        assert if k' < i then s.producing[k'].Write? else Later(s.producing[i], s.producing[k']);
      }
    }
    DrainKeepsOrder(s, t.producing, i);
  }

  lemma DrainKeeps(c: Config, s: Ring, i: nat)
    requires ConfigOk(c) && TailOrdered(c) && Inv(c, s) && CanDrain(c, s, i)
    ensures Inv(c, Drain(c, s, i))
  {
    assert StoreOk(c, s, s.producing[i]);
    DrainKeepsStores(c, s, i);
    ApplyDrain(c, s.producing, i, s.cells);
    BuffersKept(c, s, Drain(c, s, i));
  }

  lemma LoadTailKeeps(c: Config, s: Ring)
    requires ConfigOk(c) && Inv(c, s)
    ensures Inv(c, LoadTail(c, s))
  {
    var t := LoadTail(c, s);
    BuffersKept(c, s, t);
  }

  lemma IssueKeepsLoads(c: Config, s: Ring)
    requires ConsumerOk(c, s) && GotOk(c, s) && s.released <= s.stored <= s.issued && s.nextRead != s.loadedTail
    ensures ConsumerOk(c, IssueRead(c, s))
  {
    var t := IssueRead(c, s);
    var before := |s.consuming|;
    forall i | 0 <= i < |t.consuming| ensures LoadOk(c, t, t.consuming[i]) {
      if i < before {
        assert LoadOk(c, s, s.consuming[i]);
      } else {
        assert t.consuming[i] == Read(s.issued, i - before);
      }
    }
    forall i, j | 0 <= i < j < |t.consuming| ensures After(t.consuming[i], t.consuming[j]) {
      if j < before {
        assert After(s.consuming[i], s.consuming[j]);
      } else if i < before {
        assert LoadOk(c, s, s.consuming[i]);
        assert t.consuming[j] == Read(s.issued, j - before);
      }
    }
  }

  lemma IssueKeepsGot(c: Config, s: Ring)
    requires GotOk(c, s) && s.nextRead != s.loadedTail
    ensures GotOk(c, IssueRead(c, s))
  {
    var t := IssueRead(c, s);
    forall p, j | 0 <= p < t.issued && 0 <= j < Width(c)
      ensures (p, j) in t.got || Read(p, j) in t.consuming
    {
      if p == s.issued {
        assert t.consuming[|s.consuming| + j] == Read(p, j);
      }
    }
  }

  lemma IssueReadKeeps(c: Config, s: Ring)
    requires ConfigOk(c) && Inv(c, s)
    ensures Inv(c, IssueRead(c, s))
  {
    OrderFits(c.order);
    WordsEqual(s.loaded, s.issued);
    WordNext(s.issued, 1);
    BuffersKept(c, s, IssueRead(c, s));
    if s.nextRead != s.loadedTail {
      IssueKeepsLoads(c, s);
      IssueKeepsGot(c, s);
    }
  }

  lemma StoreHeadKeeps(c: Config, s: Ring, nr: nat)
    requires ConfigOk(c) && Inv(c, s) && s.stored + nr <= s.issued
    ensures Inv(c, StoreHead(s, nr))
  {
    var t := StoreHead(s, nr);
    WordNext(s.stored, nr);
    BuffersKept(c, s, t);
    forall i | 0 <= i < |t.consuming| ensures LoadOk(c, t, t.consuming[i]) {
      assert i < |s.consuming| ==> LoadOk(c, s, s.consuming[i]);
    }
    forall i, j | 0 <= i < j < |t.consuming| ensures After(t.consuming[i], t.consuming[j]) {
      assert LoadOk(c, s, s.consuming[i]);
      assert j < |s.consuming| ==> After(s.consuming[i], s.consuming[j]);
    }
  }

  /** A load that takes effect returns the published contents, whenever that happens. */
  lemma ReadReturnsPublished(c: Config, s: Ring, p: nat, part: nat)
    requires ConfigOk(c) && Inv(c, s) && s.released <= p < s.issued && part < Width(c)
    ensures |s.published[p]| == Width(c)
    ensures At(if c.sameThread then s.view else s.cells, ConsumerCell(c, U32(p), part)) == s.published[p][part]
  {
    CellInRange(c, p, part);
    if !c.sameThread {
      VisibleCell(c, s, p, part);
    }
    assert Contents(c, s.view, p) == s.published[p];
    assert Contents(c, s.view, p)[part] == At(s.view, ProducerCell(c, U32(p), part));
  }

  lemma PerformKeepsBuffer(c: Config, s: Ring, i: nat)
    requires HeadOrdered(c) && ConsumerOk(c, s) && CanPerform(c, s, i)
    ensures ConsumerOk(c, Perform(c, s, i))
  {
    var op := s.consuming[i];
    var t := Perform(c, s, i);
    forall k | 0 <= k < |t.consuming| ensures LoadOk(c, t, t.consuming[k]) {
      var k' := if k < i then k else k + 1;
      assert t.consuming[k] == s.consuming[k'];
      assert LoadOk(c, s, s.consuming[k']);
      assert if k' < i then After(s.consuming[k'], s.consuming[i]) else After(s.consuming[i], s.consuming[k']);
    }
    forall k, j | 0 <= k < j < |t.consuming| ensures After(t.consuming[k], t.consuming[j]) {
      var k', j' := if k < i then k else k + 1, if j < i then j else j + 1;
      assert t.consuming[k] == s.consuming[k'] && t.consuming[j] == s.consuming[j'];
      assert After(s.consuming[k'], s.consuming[j']);
    }
  }

  /** Removing one operation from the buffer leaves every other load in it. */
  lemma OthersRemain(ops: seq<ConsumerOp>, i: nat, op: ConsumerOp)
    requires i < |ops| && op in ops && op != ops[i]
    ensures op in ops[..i] + ops[i + 1..]
  {
    var k :| 0 <= k < |ops| && ops[k] == op;
    assert (ops[..i] + ops[i + 1..])[if k < i then k else k - 1] == op;
  }

  lemma PerformCovers(c: Config, s: Ring, i: nat, p: nat, j: nat)
    requires i < |s.consuming| && ((p, j) in s.got || Read(p, j) in s.consuming)
    ensures var t := Perform(c, s, i); (p, j) in t.got || Read(p, j) in t.consuming
  {
    if (p, j) !in s.got && s.consuming[i] != Read(p, j) {
      OthersRemain(s.consuming, i, Read(p, j));
    }
  }

  lemma PerformKeepsGot(c: Config, s: Ring, i: nat)
    requires ConfigOk(c) && Inv(c, s) && CanPerform(c, s, i)
    ensures GotOk(c, Perform(c, s, i))
  {
    var op := s.consuming[i];
    var t := Perform(c, s, i);
    assert LoadOk(c, s, op);
    if op.Read? {
      ReadReturnsPublished(c, s, op.pos, op.part);
    }
    forall p, j | 0 <= p < t.issued && 0 <= j < Width(c)
      ensures (p, j) in t.got || Read(p, j) in t.consuming
    {
      PerformCovers(c, s, i, p, j);
    }
  }

  lemma PerformKeeps(c: Config, s: Ring, i: nat)
    requires ConfigOk(c) && HeadOrdered(c) && Inv(c, s) && CanPerform(c, s, i)
    ensures Inv(c, Perform(c, s, i))
  {
    assert LoadOk(c, s, s.consuming[i]);
    PerformKeepsBuffer(c, s, i);
    PerformKeepsGot(c, s, i);
    BuffersKept(c, s, Perform(c, s, i));
  }

  lemma StepKeeps(c: Config, s: Ring, a: Action)
    requires ConfigOk(c) && Ordered(c) && Inv(c, s)
    ensures Inv(c, Step(c, s, a))
  {
    if Enabled(c, s, a) {
      match a
      case DoReserve(at) => ReserveKeeps(c, s, at);
      case DoStore(pos, part, value) => StoreKeeps(c, s, pos, part, value);
      case DoPublish => PublishKeeps(c, s);
      case DoDrain(i) => DrainKeeps(c, s, i);
      case DoLoadTail => LoadTailKeeps(c, s);
      case DoIssueRead => IssueReadKeeps(c, s);
      case DoStoreHead(nr) => StoreHeadKeeps(c, s, nr);
      case DoPerform(i) => PerformKeeps(c, s, i);
    }
  }

  lemma {:induction false} RunKeeps(c: Config, s: Ring, actions: seq<Action>)
    requires ConfigOk(c) && Ordered(c) && Inv(c, s)
    ensures Inv(c, Run(c, s, actions))
    decreases |actions|
  {
    if actions != [] {
      StepKeeps(c, s, actions[0]);
      RunKeeps(c, Step(c, s, actions[0]), actions[1..]);
    }
  }

  // ---- what every run guarantees -------------------------------------------

  lemma InitialHolds(c: Config, cells: seq<int>)
    requires ConfigOk(c) && |cells| == Shift(c, Entries(c))
    ensures Inv(c, Initial(cells))
  {
  }

  /** The consumer has only ever received what was published for each position, and
      of the entries it has begun to read nothing is left out. */
  ghost predicate Faithful(c: Config, s: Ring) {
    && (forall p, j :: (p, j) in s.got ==>
         p < |s.published| && j < |s.published[p]| && s.got[(p, j)] == s.published[p][j])
    && (forall p, j :: 0 <= p < s.issued && 0 <= j < Width(c) ==>
         ((p, j) in s.got) != (Read(p, j) in s.consuming))
  }

  ghost predicate AlwaysFaithful(c: Config) {
    forall cells: seq<int>, actions: seq<Action> ::
      |cells| == Shift(c, Entries(c)) ==> Faithful(c, Run(c, Initial(cells), actions))
  }

  lemma {:induction false} RunIsFaithful(c: Config, cells: seq<int>, actions: seq<Action>)
    requires ConfigOk(c) && Ordered(c) && |cells| == Shift(c, Entries(c))
    ensures var s := Run(c, Initial(cells), actions);
            && Faithful(c, s)
            && s.released <= s.issued <= |s.published| <= s.handed <= s.released + Entries(c)
  {
    InitialHolds(c, cells);
    RunKeeps(c, Initial(cells), actions);
    var s := Run(c, Initial(cells), actions);
    forall p, j | 0 <= p < s.issued && 0 <= j < Width(c)
      ensures ((p, j) in s.got) != (Read(p, j) in s.consuming)
    {
      if Read(p, j) in s.consuming {
        var k :| 0 <= k < |s.consuming| && s.consuming[k] == Read(p, j);
        assert LoadOk(c, s, s.consuming[k]);
      }
    }
  }

  /** States that some run from the mapped ring arrives at. */
  ghost predicate Reached(c: Config, cells: seq<int>, s: Ring) {
    exists actions: seq<Action> :: Run(c, Initial(cells), actions) == s
  }

  lemma {:induction false} RunLast(c: Config, s: Ring, actions: seq<Action>, a: Action)
    ensures Run(c, s, actions + [a]) == Step(c, Run(c, s, actions), a)
    decreases |actions|
  {
    if actions == [] {
      assert actions + [a] == [a] && [a][1..] == [];
    } else {
      assert (actions + [a])[1..] == actions[1..] + [a];
      RunLast(c, Step(c, s, actions[0]), actions[1..], a);
    }
  }

  lemma Reaches(c: Config, cells: seq<int>, s: Ring, a: Action, t: Ring)
    requires Reached(c, cells, s) && Step(c, s, a) == t
    ensures Reached(c, cells, t)
  {
    var actions: seq<Action> :| Run(c, Initial(cells), actions) == s;
    RunLast(c, Initial(cells), actions, a);
  }

  /** One entry, its first cell filled with 1 and published; the stores are still buffered. */
  function OnePublished(c: Config, cells: seq<int>): Ring
    requires ProducerCell(c, 0, 0) < |cells|
  {
    var view := cells[ProducerCell(c, 0, 0) := 1];
    Initial(cells).(localHead := 1, localTail := 1, handed := 1, view := view,
                    producing := [Write(0, 0, 1), Tail(1, 1)], published := [Contents(c, view, 0)])
  }

  lemma PublishesOne(c: Config, cells: seq<int>)
    requires ConfigOk(c) && |cells| == Shift(c, Entries(c))
    ensures ProducerCell(c, 0, 0) < |cells| && Reached(c, cells, OnePublished(c, cells))
    ensures OnePublished(c, cells).published[0][0] == 1
  {
    CellInRange(c, 0, 0);
    OrderFits(c.order);
    InitialHolds(c, cells);
    ReserveDecides(c, Initial(cells), 0);
    assert Run(c, Initial(cells), []) == Initial(cells);
    var s1 := Initial(cells).(localTail := 1, handed := 1);
    Reaches(c, cells, Initial(cells), DoReserve(0), s1);
    var s2 := s1.(producing := [Write(0, 0, 1)], view := cells[ProducerCell(c, 0, 0) := 1]);
    Reaches(c, cells, s1, DoStore(0, 0, 1), s2);
    Reaches(c, cells, s2, DoPublish, OnePublished(c, cells));
  }

  function Reads(c: Config): (r: seq<ConsumerOp>)
    ensures |r| == Width(c) && r[0] == Read(0, 0)
  {
    seq(Width(c), part requires 0 <= part => Read(0, part))
  }

  lemma TrustsTheTail(c: Config, cells: seq<int>, s: Ring)
    requires !c.sameThread && Reached(c, cells, s) && |s.published| <= s.handed
    requires s.tail == 1 && s.visible == 1 && s.nextRead == 0 && s.issued == 0 && s.consuming == []
    ensures Reached(c, cells, s.(loadedTail := 1, loaded := 1, nextRead := 1, issued := 1, consuming := Reads(c)))
  {
    var t := s.(loadedTail := 1, loaded := 1);
    Reaches(c, cells, s, DoLoadTail, t);
    Reaches(c, cells, t, DoIssueRead, t.(nextRead := 1, issued := 1, consuming := Reads(c)));
  }

  /** A first load that finds something else than what was published. */
  lemma ReadsWrong(c: Config, cells: seq<int>, s: Ring)
    requires ConfigOk(c) && !c.sameThread && Reached(c, cells, s) && |s.published| <= s.handed
    requires s.consuming != [] && s.consuming[0] == Read(0, 0)
    requires |s.published| > 0 && |s.published[0]| > 0 && At(s.cells, ProducerCell(c, 0, 0)) != s.published[0][0]
    ensures exists t :: Reached(c, cells, t) && !Faithful(c, t)
  {
    CellInRange(c, 0, 0);
    var t := Step(c, s, DoPerform(0));
    Reaches(c, cells, s, DoPerform(0), t);
    assert (0, 0) in t.got;
    assert !Faithful(c, t);
  }

  /** Without the release of the tail, and with the consumer on a thread of its own, the
      tail can overtake the contents: the consumer loads a cell that nobody has filled. */
  lemma TailOvertakesContents(c: Config, cells: seq<int>)
    requires ConfigOk(c) && !TailOrdered(c)
    requires |cells| == Shift(c, Entries(c)) && (forall i :: 0 <= i < |cells| ==> cells[i] == 0)
    ensures exists s :: Reached(c, cells, s) && !Faithful(c, s)
  {
    PublishesOne(c, cells);
    var s := OnePublished(c, cells);
    var t := s.(producing := [Write(0, 0, 1)], tail := 1, visible := 1);
    Reaches(c, cells, s, DoDrain(1), t);
    TrustsTheTail(c, cells, t);
    ReadsWrong(c, cells, t.(loadedTail := 1, loaded := 1, nextRead := 1, issued := 1, consuming := Reads(c)));
  }

  /** The entry has been published in full, its loads are outstanding, and the head has
      been moved past it. */
  function GivenBackEarly(c: Config, cells: seq<int>): Ring
    requires ProducerCell(c, 0, 0) < |cells|
  {
    var s := OnePublished(c, cells);
    s.(producing := [], cells := s.view, tail := 1, visible := 1,
       loadedTail := 1, loaded := 1, nextRead := 1, issued := 1, consuming := Reads(c),
       storedHead := 1, stored := 1, head := 1, released := 1)
  }

  lemma GivesBackEarly(c: Config, cells: seq<int>)
    requires ConfigOk(c) && !HeadOrdered(c) && |cells| == Shift(c, Entries(c))
    ensures ProducerCell(c, 0, 0) < |cells| && Reached(c, cells, GivenBackEarly(c, cells))
  {
    PublishesOne(c, cells);
    var s := OnePublished(c, cells);
    var s1 := s.(producing := [Tail(1, 1)], cells := s.view);
    Reaches(c, cells, s, DoDrain(0), s1);
    var s2 := s1.(producing := [], tail := 1, visible := 1);
    Reaches(c, cells, s1, DoDrain(0), s2);
    TrustsTheTail(c, cells, s2);
    var s3 := s2.(loadedTail := 1, loaded := 1, nextRead := 1, issued := 1, consuming := Reads(c));
    var s4 := s3.(storedHead := 1, stored := 1, consuming := Reads(c) + [Head(1, 1)]);
    Reaches(c, cells, s3, DoStoreHead(1), s4);
    assert s4.consuming[..Width(c)] + s4.consuming[Width(c) + 1..] == Reads(c);
    Reaches(c, cells, s4, DoPerform(Width(c)), GivenBackEarly(c, cells));
  }

  /** `n` more entries handed out. */
  function More(s: Ring, n: nat): Ring {
    if n == 0 then s else s.(localTail := U32(1 + n), handed := 1 + n, seen := 1)
  }

  lemma {:induction false} HandsOutMore(c: Config, cells: seq<int>, s: Ring, n: nat)
    requires ConfigOk(c) && n <= Entries(c) && Reached(c, cells, s)
    requires s.handed == 1 && s.localTail == 1 && s.seen == 0 && s.released == 1 && |s.published| == 1
    ensures Reached(c, cells, More(s, n))
  {
    if n > 0 {
      HandsOutMore(c, cells, s, n - 1);
      OrderFits(c.order);
      WordNext(n, 1);
      WordDistance(1 + n, 1);
      Reaches(c, cells, More(s, n - 1), DoReserve(1), More(s, n));
    }
  }

  /** The slot of the first entry is filled again, with a 2. */
  lemma Refills(c: Config, cells: seq<int>, s: Ring)
    requires ConfigOk(c) && Reached(c, cells, s) && |s.cells| == |s.view| == Shift(c, Entries(c))
    requires s.handed == Entries(c) + 1 && |s.published| == 1 && s.producing == []
    ensures exists t :: Reached(c, cells, t) && t == s.(view := t.view, cells := t.cells)
                        && At(t.cells, ProducerCell(c, 0, 0)) == 2
  {
    var n := Entries(c);
    CellInRange(c, n, 0);
    SlotIsPosition(c, 0);
    SlotIsPosition(c, n);
    ModIs(n, n, 1, 0);
    var op := Write(n, 0, 2);
    var s1 := s.(producing := [op], view := Do(c, s.view, op));
    assert s.producing + [op] == [op];
    Reaches(c, cells, s, DoStore(n, 0, 2), s1);
    var s2 := s1.(producing := [], cells := Do(c, s.cells, op));
    Reaches(c, cells, s1, DoDrain(0), s2);
  }

  /** Without the release of the head, an entry can be refilled while loads of it are still
      outstanding: the consumer loads the contents of a later entry. */
  lemma HeadOvertakesLoads(c: Config, cells: seq<int>)
    requires ConfigOk(c) && !HeadOrdered(c) && |cells| == Shift(c, Entries(c))
    ensures exists s :: Reached(c, cells, s) && !Faithful(c, s)
  {
    PublishesOne(c, cells);
    GivesBackEarly(c, cells);
    var s := GivenBackEarly(c, cells);
    HandsOutMore(c, cells, s, Entries(c));
    var t := More(s, Entries(c));
    Refills(c, cells, t);
    var u :| Reached(c, cells, u) && u == t.(view := u.view, cells := u.cells) && At(u.cells, ProducerCell(c, 0, 0)) == 2;
    ReadsWrong(c, cells, u);
  }

  /** The two orderings the code chooses are exactly what publication needs. */
  lemma FaithfulIffOrdered(c: Config)
    requires ConfigOk(c)
    ensures AlwaysFaithful(c) <==> Ordered(c)
  {
    if Ordered(c) {
      forall cells: seq<int>, actions: seq<Action> | |cells| == Shift(c, Entries(c))
        ensures Faithful(c, Run(c, Initial(cells), actions))
      {
        RunIsFaithful(c, cells, actions);
      }
    } else {
      var cells := seq(Shift(c, Entries(c)), _ => 0);
      if TailOrdered(c) {
        HeadOvertakesLoads(c, cells);
      } else {
        TailOvertakesContents(c, cells);
      }
    }
  }

  /** What the code's flags select is ordered, so every run of either ring is faithful. */
  lemma CodeIsFaithful(order: nat, wide: bool, sqpoll: bool)
    requires order <= 16
    ensures AlwaysFaithful(SubmissionRing(order, wide, sqpoll)) && AlwaysFaithful(CompletionRing(order, wide))
  {
    FaithfulIffOrdered(SubmissionRing(order, wide, sqpoll));
    FaithfulIffOrdered(CompletionRing(order, wide));
  }

  /** The entry at `cell` shares nothing with any entry handed out and not given back. */
  ghost predicate Unaliased(c: Config, s: Ring, cell: nat) {
    forall p, j :: s.released <= p < s.handed && 0 <= j < Width(c) ==>
      !(cell <= ProducerCell(c, U32(p), j) < cell + Width(c))
  }

  lemma HandedOutIsUnaliased(c: Config, s: Ring, at: nat)
    requires ConfigOk(c) && Inv(c, s) && s.seen <= at <= s.released
    requires Reserve(c, s, at).1
    ensures Unaliased(c, s, ProducerCell(c, s.localTail, 0))
  {
    assert s.handed < s.released + Entries(c) by {
      ReserveDecides(c, s, at);
    }
    var cell := ProducerCell(c, U32(s.handed), 0);
    assert cell + Width(c) - 1 == ProducerCell(c, U32(s.handed), Width(c) - 1);
    forall p, j | s.released <= p < s.handed && 0 <= j < Width(c)
      ensures !(cell <= ProducerCell(c, U32(p), j) < cell + Width(c))
    {
      CellsDiffer(c, p, s.handed, j, 0);
      CellsDiffer(c, p, s.handed, j, Width(c) - 1);
    }
  }

  /** What flushing returns: never less than what is unconsumed, never more than the
      ring, and zero only when nothing is pending. */
  lemma EstimateCovers(c: Config, s: Ring, at: nat)
    requires ConfigOk(c) && Inv(c, s) && s.seen <= at <= s.released
    ensures s.handed - s.issued <= Estimate(s, at) == s.handed - at <= Entries(c)
    ensures Estimate(s, at) == 0 ==> s.issued == |s.published| == s.handed == s.released
  {
    OrderFits(c.order);
    WordDistance(s.handed, at);
  }

  /** `ring_entries - ready`: zero exactly if the next reservation on this head fails. */
  lemma SpaceIsExact(c: Config, s: Ring, at: nat)
    requires ConfigOk(c) && Inv(c, s) && s.seen <= at <= s.released
    ensures U32(Entries(c) - (s.handed - at)) == Entries(c) - (s.handed - at)
    ensures Entries(c) - (s.handed - at) == 0 <==> !Reserve(c, s, at).1
  {
    EstimateCovers(c, s, at);
    ReserveDecides(c, s, at);
    RoomIsSmall(c, s.handed - at);
  }

  lemma RoomIsSmall(c: Config, used: nat)
    requires c.order <= 16 && used <= Entries(c)
    ensures U32(Entries(c) - used) == Entries(c) - used
  {
    OrderFits(c.order);
    SmallWord(Entries(c) - used);
  }
}
