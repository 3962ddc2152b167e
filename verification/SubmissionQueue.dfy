/** The application side of the submission ring (`struct io_uring_sq`).

The private indices are fields; the shared words, the buffered stores and the
history are a `WeakRing.Ring`. A load of `*khead` is a parameter: the position
`at` whose word `U32(at)` the load returned, which may be older than the kernel's
current one.
*/
module SubmissionQueue {
  import opened Words
  import W = WeakRing

  class SubmissionQueue {
    const config: W.Config
    const ringEntries: u32
    const ringMask: u32
    var sqeHead: u32
    var sqeTail: u32
    var shared: W.Ring

    ghost function State(): W.Ring
      reads this
    {
      shared.(localHead := sqeHead, localTail := sqeTail)
    }

    ghost predicate Valid()
      reads this
    {
      && W.ConfigOk(config)
      && ringEntries == W.Entries(config) && ringMask == ringEntries - 1
      && W.Inv(config, State())
    }

    /** `*khead` was at position `at` at some time since the last load. */
    ghost predicate Loaded(at: nat)
      reads this
    {
      shared.seen <= at <= shared.released
    }

    constructor (config: W.Config, cells: seq<int>)
      requires W.ConfigOk(config) && |cells| == W.Shift(config, W.Entries(config))
      ensures Valid() && this.config == config && State() == W.Initial(cells)
    {
      OrderFits(config.order);
      this.config := config;
      ringEntries := W.Entries(config);
      ringMask := W.Entries(config) - 1;
      sqeHead, sqeTail := 0, 0;
      shared := W.Initial(cells);
      new;
      W.InitialHolds(config, cells);
    }

    /** `_io_uring_get_sqe`. `cell` is the index of the first 64-byte cell handed out. */
    method GetSqe(at: nat) returns (ok: bool, cell: nat)
      requires Valid() && Loaded(at)
      modifies this
      ensures Valid() && State() == W.Reserve(config, old(State()), at).0
      ensures ok <==> old(shared.handed) - at < ringEntries
      ensures ok ==> cell == W.ProducerCell(config, U32(old(shared.handed)), 0)
      ensures ok ==> W.Unaliased(config, old(State()), cell)
    {
      W.ReserveDecides(config, State(), at);
      W.ReserveKeeps(config, State(), at);
      if W.Reserve(config, State(), at).1 {
        W.HandedOutIsUnaliased(config, State(), at);
      }
      ok, cell := TakeNext(at);
    }

    method TakeNext(at: nat) returns (ok: bool, cell: nat)
      requires ringEntries == W.Entries(config) && ringMask == ringEntries - 1
      modifies this
      ensures (State(), ok) == W.Reserve(config, old(State()), at)
      ensures ok ==> cell == W.ProducerCell(config, old(sqeTail), 0)
    {
      var head := U32(at);
      var next := U32(sqeTail + 1);
      ok, cell := false, 0;
      if Sub32(next, head) <= ringEntries {
        cell := W.Shift(config, And(sqeTail, ringMask));
        sqeTail := next;
        shared := shared.(handed := shared.handed + 1, seen := at);
        ok := true;
      } else {
        shared := shared.(seen := at);
      }
    }

    /** `__io_uring_flush_sq`. */
    method FlushSq(at: nat) returns (pending: u32)
      requires Valid() && Loaded(at)
      modifies this
      ensures Valid() && State() == W.Publish(config, old(State()))
      ensures |shared.published| == shared.handed == old(shared.handed)
      ensures shared.handed - shared.issued <= pending == shared.handed - at <= ringEntries
      ensures pending == 0 ==> shared.issued == shared.handed
    {
      W.PublishKeeps(config, State());
      StoreTail();
      W.EstimateCovers(config, State(), at);
      pending := Sub32(sqeTail, U32(at));
    }

    method StoreTail()
      requires |shared.published| <= shared.handed
      modifies this`sqeHead, this`shared
      ensures State() == W.Publish(config, old(State()))
    {
      var tail := sqeTail;
      if sqeHead != tail {
        sqeHead := tail;
        shared := shared.(producing := shared.producing + [W.Tail(tail, shared.handed)],
                          published := shared.published + W.Unpublished(config, shared));
      }
    }

    /** `io_uring_sq_ready`. */
    method SqReady(at: nat) returns (ready: u32)
      requires Valid() && Loaded(at)
      ensures ready == shared.handed - at
    {
      W.EstimateCovers(config, State(), at);
      ready := Sub32(sqeTail, U32(at));
    }

    /** `io_uring_sq_space_left`: zero exactly when the next `GetSqe` on this head fails. */
    method SqSpaceLeft(at: nat) returns (left: u32)
      requires Valid() && Loaded(at)
      ensures left == ringEntries - (shared.handed - at)
      ensures left == 0 <==> !W.Reserve(config, State(), at).1
    {
      W.SpaceIsExact(config, State(), at);
      var ready := SqReady(at);
      left := Sub32(ringEntries, ready);
    }
  }
}
