/** What an application receives over any sequence of calls of `io_uring_peek_cqe` or
`io_uring_wait_cqe`, each followed by `io_uring_cqe_seen`.
*/
module Delivery {
  import opened Common
  import opened Words
  import opened CompletionRing
  import opened WaitLoop

  /** One call: what arrives during the first look, and the rounds of the loop after it. */
  datatype Call = Call(waitNr: nat, arrivals: seq<seq<Arrival>>, rounds: seq<Round>)

  /** `io_uring_peek_cqe` (`waitNr == 0`) and `io_uring_wait_cqe` (`waitNr == 1`). */
  function Fetch(c: Config, q: Cq, call: Call): Outcome
    requires Inv(c, q)
  {
    var p := Peek(c, q, call.arrivals);
    PeekResult(c, q, call.arrivals);
    if p.err == 0 && p.cqe.Some? then Done(0, p.cqe, p.q, 0, START)
    else GetCqe(c, p.q, GetData(0, call.waitNr, false), call.rounds)
  }

  datatype Session = Session(q: Cq, delivered: seq<Cqe>)

  /** `io_uring_cqe_seen`, if a completion was returned. */
  function See(s: Session, o: Outcome): Session {
    if o.Done? && o.err == 0 && o.cqe.Some? && At(o.q, o.cqe.value).Some? then
      Session(Advance(o.q, 1), s.delivered + [At(o.q, o.cqe.value).value])
    else s.(q := o.q)
  }

  /** A call and what follows it. */
  function Take(c: Config, s: Session, call: Call): (r: Session)
    requires Inv(c, s.q)
    ensures Inv(c, r.q)
  {
    var o := Fetch(c, s.q, call);
    FetchResult(c, s.q, call);
    SeeKeeps(c, s, o);
    See(s, o)
  }

  lemma SeeKeeps(c: Config, s: Session, o: Outcome)
    requires Inv(c, o.q) && OldestUnconsumed(c, o)
    ensures Inv(c, See(s, o).q)
  {
    if o.Done? && o.cqe.Some? {
      AdvanceKeeps(c, o.q, 1);
    }
  }

  /** Step `i` of a sequence of calls. */
  ghost predicate StepOf(c: Config, calls: seq<Call>, path: seq<Session>, i: nat)
    requires i < |calls| && i + 1 < |path|
  {
    Inv(c, path[i].q) && path[i + 1] == Take(c, path[i], calls[i])
  }

  ghost predicate IsPath(c: Config, s: Session, calls: seq<Call>, path: seq<Session>, r: Session) {
    && |path| == |calls| + 1 && path[0] == s && path[|calls|] == r
    && forall i :: 0 <= i < |calls| ==> StepOf(c, calls, path, i)
  }

  /** The calls take the session `s` to `r`. */
  ghost predicate Receives(c: Config, s: Session, calls: seq<Call>, r: Session) {
    exists path :: IsPath(c, s, calls, path, r)
  }

  lemma ReceivesNothing(c: Config, s: Session, r: Session)
    ensures Receives(c, s, [], r) <==> r == s
  {
    assert IsPath(c, s, [], [s], s);
  }

  lemma ReceivesLast(c: Config, s: Session, calls: seq<Call>, r: Session) returns (m: Session)
    requires calls != [] && Receives(c, s, calls, r)
    ensures Receives(c, s, calls[..|calls| - 1], m)
    ensures Inv(c, m.q) && r == Take(c, m, calls[|calls| - 1])
  {
    var path :| IsPath(c, s, calls, path, r);
    var n := |calls| - 1;
    m := path[n];
    assert StepOf(c, calls, path, n);
    PathWithoutLast(c, s, calls, path, r, calls[..n], path[..n + 1]);
  }

  lemma PathWithoutLast(c: Config, s: Session, calls: seq<Call>, path: seq<Session>, r: Session,
                        calls': seq<Call>, path': seq<Session>)
    requires IsPath(c, s, calls, path, r) && calls != []
    requires calls' == calls[..|calls| - 1] && path' == path[..|calls|]
    ensures IsPath(c, s, calls', path', path[|calls| - 1])
  {
    forall i | 0 <= i < |calls'| ensures StepOf(c, calls', path', i) {
      assert StepOf(c, calls, path, i);
    }
  }

  lemma PathWithoutFirst(c: Config, s: Session, calls: seq<Call>, path: seq<Session>, r: Session,
                         calls': seq<Call>, path': seq<Session>)
    requires IsPath(c, s, calls, path, r) && calls != [] && calls' == calls[1..] && path' == path[1..]
    ensures IsPath(c, path[1], calls', path', r) && StepOf(c, calls, path, 0)
  {
    forall i | 0 <= i < |calls'| ensures StepOf(c, calls', path', i) {
      assert StepOf(c, calls, path, i + 1);
    }
  }

  lemma LaterStep(c: Config, calls: seq<Call>, path: seq<Session>, i: nat, calls': seq<Call>, path': seq<Session>)
    requires i < |calls| && i + 1 < |path| && StepOf(c, calls, path, i)
    requires |calls'| == |calls| + 1 && |path'| == |path| + 1 && calls'[1..] == calls && path'[1..] == path
    ensures StepOf(c, calls', path', i + 1)
  {
    assert calls'[i + 1] == calls[i] && path'[i + 1] == path[i] && path'[i + 2] == path[i + 1];
  }

  lemma PathWithFirst(c: Config, s: Session, calls: seq<Call>, path: seq<Session>, r: Session, call: Call, m: Session)
    requires IsPath(c, m, calls, path, r) && Inv(c, s.q) && m == Take(c, s, call)
    ensures IsPath(c, s, [call] + calls, [s] + path, r)
  {
    var calls', path' := [call] + calls, [s] + path;
    assert calls'[0] == call && path'[0] == s && path'[1] == m;
    forall i | 0 <= i < |calls'| ensures StepOf(c, calls', path', i) {
      if i > 0 {
        LaterStep(c, calls, path, i - 1, calls', path');
      }
    }
  }

  lemma ReceivesFirst(c: Config, s: Session, calls: seq<Call>, r: Session)
    requires calls != [] && Receives(c, s, calls, r)
    ensures Inv(c, s.q) && Receives(c, Take(c, s, calls[0]), calls[1..], r)
  {
    var path :| IsPath(c, s, calls, path, r);
    PathWithoutFirst(c, s, calls, path, r, calls[1..], path[1..]);
  }

  lemma ReceivesMore(c: Config, s: Session, calls: seq<Call>, r: Session, call: Call, m: Session)
    requires Inv(c, s.q) && m == Take(c, s, call) && Receives(c, m, calls, r)
    ensures Receives(c, s, [call] + calls, r)
  {
    var path :| IsPath(c, m, calls, path, r);
    PathWithFirst(c, s, calls, path, r, call, m);
  }

  /** Every sequence of calls leads somewhere. */
  lemma {:induction false} SessionExists(c: Config, s: Session, calls: seq<Call>) returns (r: Session)
    requires Inv(c, s.q)
    ensures Receives(c, s, calls, r)
    decreases |calls|
  {
    if calls == [] {
      r := s;
      ReceivesNothing(c, s, s);
    } else {
      var m := Take(c, s, calls[0]);
      r := SessionExists(c, m, calls[1..]);
      ReceivesMore(c, s, calls[1..], r, calls[0], m);
      assert calls == [calls[0]] + calls[1..];
    }
  }

  // ---- filtering -----------------------------------------------------------

  /** Between two states of the ring the kernel only added, and the library passed over
      hidden entries only. */
  ghost predicate Passed(c: Config, q: Cq, r: Cq) {
    && Inv(c, r) && q.head <= r.head && q.posted <= r.posted && Stream(q) <= Stream(r)
    && AllHidden(c, r.posted[q.head..r.head])
  }

  lemma PassedOn(c: Config, q: Cq, r: Cq, s: Cq)
    requires Inv(c, q) && Passed(c, q, r) && Passed(c, r, s)
    ensures Passed(c, q, s)
  {
    assert s.posted[q.head..s.head] == r.posted[q.head..r.head] + s.posted[r.head..s.head];
  }

  lemma {:induction false} PeekPasses(c: Config, q: Cq, arrivals: seq<seq<Arrival>>)
    requires Inv(c, q)
    ensures Passed(c, q, Peek(c, q, arrivals).q)
    decreases |arrivals|, |q.posted| - q.head
  {
    PeekResult(c, q, arrivals);
    if arrivals != [] {
      PostsKeep(c, q, arrivals[0]);
    }
    var q1 := Arrive(c, q, arrivals);
    LookResult(c, q1);
    if Look(c, q1).1 {
      PeekPasses(c, Advance(q1, 1), Rest(arrivals));
    }
  }

  /** After the look, a turn of the loop only lets the kernel add. */
  lemma TurnAdds(c: Config, q: Cq, d: GetData, looped: bool, err: int, t: Trace, r: Round)
    requires Inv(c, q)
    ensures var p := Peek(c, q, r.arrivals).q;
            var q' := RingAfter(OneTurn(c, q, d, looped, err, t, r));
            Inv(c, q') && q'.head == p.head && p.posted <= q'.posted && Stream(p) <= Stream(q')
  {
    PeekResult(c, q, r.arrivals);
    var p := Peek(c, q, r.arrivals);
    if p.err == 0 {
      PostsKeep(c, p.q, r.between);
      DecideAdds(c, Posts(c, p.q, r.between), p.cqe, p.available, d, looped, err, t, r);
    }
  }

  lemma DecideAdds(c: Config, q: Cq, cqe: Option<nat>, available: u32,
                   d: GetData, looped: bool, err: int, t: Trace, r: Round)
    requires Inv(c, q)
    ensures var q' := RingAfter(Decide(c, q, cqe, available, d, looped, err, t, r));
            Inv(c, q') && q'.head == q.head && q.posted <= q'.posted && Stream(q) <= Stream(q')
  {
  }

  lemma TurnPasses(c: Config, q: Cq, d: GetData, looped: bool, err: int, t: Trace, r: Round)
    requires Inv(c, q)
    ensures Passed(c, q, RingAfter(OneTurn(c, q, d, looped, err, t, r)))
  {
    TurnAdds(c, q, d, looped, err, t, r);
    PeekPasses(c, q, r.arrivals);
    PassedOn(c, q, Peek(c, q, r.arrivals).q, RingAfter(OneTurn(c, q, d, looped, err, t, r)));
  }

  lemma {:induction false} LoopPasses(c: Config, q: Cq, d: GetData, looped: bool, err: int, t: Trace, rounds: seq<Round>)
    requires Inv(c, q)
    ensures Passed(c, q, Loop(c, q, d, looped, err, t, rounds).q)
    decreases |rounds|
  {
    if rounds != [] {
      TurnKeeps(c, q, d, looped, err, t, rounds[0]);
      TurnPasses(c, q, d, looped, err, t, rounds[0]);
      match OneTurn(c, q, d, looped, err, t, rounds[0])
      case Leave(_) =>
      case Again(q', submit', err', t') =>
        LoopPasses(c, q', d.(submit := submit'), true, err', t', rounds[1..]);
        PassedOn(c, q, q', Loop(c, q', d.(submit := submit'), true, err', t', rounds[1..]).q);
    }
  }

  lemma FetchResult(c: Config, q: Cq, call: Call)
    requires Inv(c, q)
    ensures Passed(c, q, Fetch(c, q, call).q) && OldestUnconsumed(c, Fetch(c, q, call)) && ZeroMeansCqe(Fetch(c, q, call))
  {
    var p := Peek(c, q, call.arrivals);
    PeekResult(c, q, call.arrivals);
    PeekPasses(c, q, call.arrivals);
    AvailableIsCount(c, p.q);
    var d := GetData(0, call.waitNr, false);
    WaitContract(c, p.q, d, call.rounds);
    LoopPasses(c, p.q, d, false, 0, START, call.rounds);
    PassedOn(c, q, p.q, GetCqe(c, p.q, d, call.rounds).q);
  }

  lemma VisibleAppend(c: Config, s: seq<Cqe>, e: Cqe)
    ensures Visible(c, s + [e]) == Visible(c, s) + (if Hidden(c, e) then [] else [e])
  {
    assert (s + [e])[..|s|] == s;
  }

  lemma VisibleNext(c: Config, s: seq<Cqe>, start: nat, h: nat)
    requires start <= h < |s| && !Hidden(c, s[h])
    ensures Visible(c, s[start..h + 1]) == Visible(c, s[start..h]) + [s[h]]
  {
    VisibleAppend(c, s[start..h], s[h]);
    assert s[start..h + 1] == s[start..h] + [s[h]];
  }

  lemma {:induction false} VisibleHidden(c: Config, s: seq<Cqe>, t: seq<Cqe>)
    requires AllHidden(c, t)
    ensures Visible(c, s + t) == Visible(c, s)
    decreases |t|
  {
    if t == [] {
      assert s + t == s;
    } else {
      var n := |t| - 1;
      VisibleHidden(c, s, t[..n]);
      VisibleAppend(c, s + t[..n], t[n]);
      assert s + t == (s + t[..n]) + [t[n]];
    }
  }

  lemma {:induction false} VisibleIsAll(c: Config, s: seq<Cqe>)
    requires c.extArg
    ensures Visible(c, s) == s
    decreases |s|
  {
    if s != [] {
      VisibleIsAll(c, s[..|s| - 1]);
      assert s == s[..|s| - 1] + [s[|s| - 1]];
    }
  }

  lemma PassingShowsNothing(c: Config, q: Cq, r: Cq, start: nat)
    requires Inv(c, q) && Passed(c, q, r) && start <= q.head
    ensures Visible(c, r.posted[start..r.head]) == Visible(c, q.posted[start..q.head])
  {
    assert r.posted[start..r.head] == q.posted[start..q.head] + r.posted[q.head..r.head];
    VisibleHidden(c, q.posted[start..q.head], r.posted[q.head..r.head]);
  }

  lemma SeeDelivers(c: Config, s: Session, o: Outcome, start: nat)
    requires Inv(c, s.q) && start <= s.q.head && Passed(c, s.q, o.q) && OldestUnconsumed(c, o)
    requires s.delivered == Visible(c, s.q.posted[start..s.q.head])
    ensures DeliveredFrom(c, s, See(s, o), start)
  {
    PassingShowsNothing(c, s.q, o.q, start);
    if o.Done? && o.err == 0 && o.cqe.Some? {
      SeenDelivers(c, s, o.q, start);
    }
  }

  /** From `start` on, `r` has been delivered all that may be shown; `s` came before it. */
  ghost predicate DeliveredFrom(c: Config, s: Session, r: Session, start: nat) {
    && start <= r.q.head <= |r.q.posted| && s.q.posted <= r.q.posted && Stream(s.q) <= Stream(r.q)
    && r.delivered == Visible(c, r.q.posted[start..r.q.head])
  }

  lemma SeenDelivers(c: Config, s: Session, q: Cq, start: nat)
    requires start <= q.head < |q.posted| && !Hidden(c, q.posted[q.head])
    requires s.delivered == Visible(c, q.posted[start..q.head])
    ensures s.delivered + [q.posted[q.head]] == Visible(c, q.posted[start..q.head + 1])
  {
    VisibleNext(c, q.posted, start, q.head);
  }

  lemma TakeDelivers(c: Config, s: Session, call: Call, start: nat)
    requires Inv(c, s.q) && start <= s.q.head
    requires s.delivered == Visible(c, s.q.posted[start..s.q.head])
    ensures DeliveredFrom(c, s, Take(c, s, call), start)
  {
    FetchResult(c, s.q, call);
    SeeDelivers(c, s, Fetch(c, s.q, call), start);
  }

  lemma {:induction false} SessionDelivers(c: Config, q: Cq, calls: seq<Call>, s: Session)
    requires Inv(c, q) && Receives(c, Session(q, []), calls, s)
    ensures Inv(c, s.q) && q.head <= s.q.head && q.posted <= s.q.posted && Stream(q) <= Stream(s.q)
    ensures s.delivered == Visible(c, s.q.posted[q.head..s.q.head])
    decreases |calls|
  {
    if calls == [] {
      ReceivesNothing(c, Session(q, []), s);
      assert q.posted[q.head..q.head] == [];
    } else {
      var n := |calls| - 1;
      var m := ReceivesLast(c, Session(q, []), calls, s);
      SessionDelivers(c, q, calls[..n], m);
      TakeDelivers(c, m, calls[n], q.head);
    }
  }

  /** Over any sequence of calls, against any kernel: what is delivered is what was
      posted, in order, without the internal timeouts and with nothing else left out. */
  lemma DeliversWhatWasPosted(c: Config, q: Cq, calls: seq<Call>, s: Session)
    requires Inv(c, q) && Receives(c, Session(q, []), calls, s)
    ensures Inv(c, s.q) && q.head <= s.q.head && q.posted <= s.q.posted && Stream(q) <= Stream(s.q)
    ensures s.delivered == Visible(c, s.q.posted[q.head..s.q.head])
    ensures c.extArg ==> s.delivered == s.q.posted[q.head..s.q.head]
  {
    SessionDelivers(c, q, calls, s);
    if c.extArg {
      VisibleIsAll(c, s.q.posted[q.head..s.q.head]);
    }
  }
}
