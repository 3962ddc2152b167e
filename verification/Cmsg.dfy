/** The accessors for `struct io_uring_recvmsg_out`: where the payload is, and how to
walk the ancillary data (the CMSG macros of section 4.3 of RFC 2292).

Memory is a function from addresses to bytes; addresses and lengths are 64-bit, and
every sum the code forms wraps.
*/
module Cmsg {
  import opened Common
  import opened Words
  import B = BufRing

  const OUT_SIZE: nat := 16      // sizeof(struct io_uring_recvmsg_out)
  const HDR: nat := 16           // sizeof(struct cmsghdr)

  type Memory = nat -> byte

  function W64(x: nat): nat { x % TWO64 }

  // ---- the payload ---------------------------------------------------------

  /** `io_uring_recvmsg_validate` did not return NULL. */
  predicate Validate(bufLen: int, namelen: nat, controllen: nat) {
    bufLen >= 0 && bufLen >= W64(controllen + namelen + OUT_SIZE)
  }

  /** Offset of the payload from the start of the buffer, as 64-bit addresses wrap:
      `io_uring_recvmsg_payload`. */
  function PayloadOffset(namelen: nat, controllen: nat): nat { W64(OUT_SIZE + namelen + controllen) }

  /** `io_uring_recvmsg_payload_length`: the difference of the two addresses, truncated to 32
      bits as the code does. */
  function PayloadLength(bufLen: int, namelen: nat, controllen: nat): u32 {
    U32((bufLen - PayloadOffset(namelen, controllen)) % TWO64)
  }

  /** For every name and control length, wrapping sums included: the payload ends exactly at
      the end of the buffer if and only if the buffer was validated. */
  lemma PayloadEndsBufferIff(bufLen: int, namelen: nat, controllen: nat)
    requires bufLen < 0x8000_0000
    ensures PayloadOffset(namelen, controllen) + PayloadLength(bufLen, namelen, controllen) == bufLen
            <==> Validate(bufLen, namelen, controllen)
  {
  }

  // ---- the walk ------------------------------------------------------------

  /** What the `cmsg_len` field of a header at each address reads as. */
  type Lengths = nat -> nat

  ghost predicate LengthsOk(lens: Lengths) { forall a :: lens(a) < TWO64 }

  /** `CMSG_ALIGN`. */
  function Align(len: nat): nat { And(W64(len + 7), TWO64 - 8) }

  /** Rounding up to a multiple of eight, without wrapping. */
  function RoundUp(len: nat): nat { (len + 7) / 8 * 8 }

  /** `io_uring_recvmsg_cmsg_firsthdr`; `base` is the address just after the name. */
  function FirstHdr(base: nat, controllen: nat): Option<nat> {
    if controllen < HDR then None else Some(base)
  }

  /** `io_uring_recvmsg_cmsg_nexthdr` for the header at address `a`. */
  function NextHdr(lens: Lengths, base: nat, controllen: nat, a: nat): Option<nat> {
    if lens(a) < HDR then None
    else
      var end := W64(base + controllen);
      var a' := W64(a + Align(lens(a)));
      if W64(a' + HDR) > end then None
      else if W64(a' + Align(lens(a'))) > end then None
      else Some(a')
  }

  /** The addresses of the first `n` headers a caller visits, fewer if the walk ends. */
  function Walk(lens: Lengths, base: nat, controllen: nat, n: nat): seq<nat> {
    match FirstHdr(base, controllen)
    case None => []
    case Some(a) => WalkFrom(lens, base, controllen, a, n)
  }

  function WalkFrom(lens: Lengths, base: nat, controllen: nat, a: nat, n: nat): (r: seq<nat>)
    ensures n > 0 ==> |r| > 0 && r[0] == a
    decreases n
  {
    if n == 0 then []
    else
      match NextHdr(lens, base, controllen, a)
      case None => [a]
      case Some(a') => [a] + WalkFrom(lens, base, controllen, a', n - 1)
  }

  lemma AlignIs(len: nat)
    requires len < TWO64
    ensures Align(len) == W64(RoundUp(len)) && RoundUp(len) <= TWO64
    ensures len <= RoundUp(len) < len + 8
  {
    ClearLowThree(W64(len + 7));
    RoundUpCases(len);
  }

  lemma RoundUpCases(len: nat)
    requires len < TWO64
    ensures W64(len + 7) - W64(len + 7) % 8 == W64(RoundUp(len)) && RoundUp(len) <= TWO64
    ensures len <= RoundUp(len) < len + 8
  {
    if len + 7 < TWO64 {
      assert W64(len + 7) == len + 7;
    } else {
      assert W64(len + 7) == len + 7 - TWO64;
      assert RoundUp(len) == TWO64;
    }
  }

  lemma Unwrapped(x: nat)
    requires x < TWO64
    ensures W64(x) == x
  {
  }

  /** The step from a header to the next moves forward if and only if the sum of its
      address and its aligned length does not wrap. */
  lemma AdvancesIffNoWrap(lens: Lengths, base: nat, controllen: nat, a: nat)
    requires LengthsOk(lens) && a < TWO64 && NextHdr(lens, base, controllen, a).Some?
    ensures a < NextHdr(lens, base, controllen, a).value <==> a + RoundUp(lens(a)) < TWO64
  {
    var len := lens(a);
    AlignIs(len);
    WrapOrNot(a, RoundUp(len));
  }

  lemma WrapOrNot(a: nat, x: nat)
    requires a < TWO64 && x <= TWO64
    ensures W64(a + W64(x)) == if a + x < TWO64 then a + x else a + x - TWO64
  {
  }

  /** One header with a length of 2^64 - 1 keeps the walk where it is. */
  lemma WalkMayNotMove(lens: Lengths, base: nat)
    requires base + 16 < TWO64 && lens(base) == TWO64 - 1
    ensures NextHdr(lens, base, 16, base) == Some(base)
  {
    AlignIs(TWO64 - 1);
    assert Align(TWO64 - 1) == 0;
    Unwrapped(base);
    Unwrapped(base + 16);
  }

  /** No sum formed at this header wraps. */
  ghost predicate NoWrap(lens: Lengths, a: nat) {
    a + HDR < TWO64 && a + RoundUp(lens(a)) + HDR < TWO64
  }

  /** A header that the walk reaches lies wholly inside the control area. */
  lemma NextIsInside(lens: Lengths, base: nat, controllen: nat, a: nat)
    requires LengthsOk(lens) && base <= a < TWO64 && base + controllen < TWO64 && NoWrap(lens, a)
    requires NextHdr(lens, base, controllen, a).Some? && NoWrap(lens, NextHdr(lens, base, controllen, a).value)
    ensures var a' := NextHdr(lens, base, controllen, a).value;
            && a + HDR <= a' && a' + HDR <= base + controllen
            && a' + lens(a') <= base + controllen
  {
    SumUnwrapped(lens, a);
    var a' := NextHdr(lens, base, controllen, a).value;
    assert a' == a + RoundUp(lens(a));
    SumUnwrapped(lens, a');
    Unwrapped(base + controllen);
    Unwrapped(a' + HDR);
  }

  lemma SumUnwrapped(lens: Lengths, a: nat)
    requires LengthsOk(lens) && a + RoundUp(lens(a)) < TWO64
    ensures W64(a + Align(lens(a))) == a + RoundUp(lens(a))
    ensures lens(a) <= RoundUp(lens(a))
  {
    AlignIs(lens(a));
    Unwrapped(RoundUp(lens(a)));
    Unwrapped(a + RoundUp(lens(a)));
  }

  ghost predicate NoneWrap(lens: Lengths, visited: seq<nat>) {
    forall i :: 0 <= i < |visited| ==> NoWrap(lens, visited[i])
  }

  /** Every header after the first is inside, and there are no more than fit. */
  ghost predicate StaysInside(lens: Lengths, a: nat, end: nat, w: seq<nat>) {
    && a + HDR * |w| <= end
    && (forall i :: 0 < i < |w| ==> w[i] + HDR <= end && w[i] + lens(w[i]) <= end)
  }

  lemma {:induction false} WalkFromBounded(lens: Lengths, base: nat, controllen: nat, a: nat, n: nat)
    requires LengthsOk(lens) && base <= a && a + HDR <= base + controllen < TWO64
    requires NoneWrap(lens, WalkFrom(lens, base, controllen, a, n))
    ensures StaysInside(lens, a, base + controllen, WalkFrom(lens, base, controllen, a, n))
    decreases n
  {
    if n > 0 {
      var w := WalkFrom(lens, base, controllen, a, n);
      assert w[0] == a;
      var next := NextHdr(lens, base, controllen, a);
      if next.Some? && n > 1 {
        var rest := WalkFrom(lens, base, controllen, next.value, n - 1);
        assert w == [a] + rest;
        forall i | 0 <= i < |rest| ensures NoWrap(lens, rest[i]) {
          assert rest[i] == w[i + 1];
        }
        NextIsInside(lens, base, controllen, a);
        WalkFromBounded(lens, base, controllen, next.value, n - 1);
        StaysInsideNext(lens, a, next.value, base + controllen, rest);
      }
    }
  }

  lemma StaysInsideNext(lens: Lengths, a: nat, a': nat, end: nat, rest: seq<nat>)
    requires StaysInside(lens, a', end, rest) && rest != [] && rest[0] == a'
    requires a + HDR <= a' && a' + HDR <= end && a' + lens(a') <= end
    ensures StaysInside(lens, a, end, [a] + rest)
  {
    var w := [a] + rest;
    forall i | 0 < i < |w| ensures w[i] + HDR <= end && w[i] + lens(w[i]) <= end {
      assert w[i] == rest[i - 1];
    }
  }

  /** Whatever the control area holds, a walk that forms no wrapping sum visits at most
      `controllen / sizeof(struct cmsghdr)` headers, however far it is followed, and
      every header after the first lies wholly in the area. */
  lemma WalkIsBounded(lens: Lengths, base: nat, controllen: nat, n: nat)
    requires LengthsOk(lens) && base + controllen < TWO64 && NoneWrap(lens, Walk(lens, base, controllen, n))
    ensures var w := Walk(lens, base, controllen, n);
            && |w| <= controllen / HDR
            && (forall i :: 0 < i < |w| ==> w[i] + HDR <= base + controllen && w[i] + lens(w[i]) <= base + controllen)
  {
    if controllen >= HDR {
      WalkFromBounded(lens, base, controllen, base, n);
    }
  }

  // ---- walking what was encoded --------------------------------------------

  datatype Msg = Msg(level: nat, kind: nat, data: seq<byte>)

  ghost predicate MsgOk(m: Msg) { m.level < TWO32 && m.kind < TWO32 && HDR + |m.data| + 8 < TWO64 }

  ghost predicate MsgsOk(ms: seq<Msg>) { forall i :: 0 <= i < |ms| ==> MsgOk(ms[i]) }

  /** A header, the data, and padding up to a multiple of eight. */
  function EncodeOne(m: Msg): (r: seq<byte>)
    ensures |r| == Space(m)
  {
    var len := HDR + |m.data|;
    B.Bytes(len, 8) + B.Bytes(m.level, 4) + B.Bytes(m.kind, 4) + m.data + B.Bytes(0, RoundUp(len) - len)
  }

  /** `CMSG_SPACE`. */
  function Space(m: Msg): nat { RoundUp(HDR + |m.data|) }

  function Encode(ms: seq<Msg>): seq<byte>
    decreases |ms|
  {
    if ms == [] then [] else EncodeOne(ms[0]) + Encode(ms[1..])
  }

  function Load(mem: Memory, a: nat, n: nat): (r: seq<byte>)
    ensures |r| == n
  {
    seq(n, i requires 0 <= i => mem(a + i))
  }

  function LenAt(mem: Memory, a: nat): nat { B.Number(Load(mem, a, 8)) }

  ghost predicate Holds(mem: Memory, a: nat, s: seq<byte>) { Load(mem, a, |s|) == s }

  function Decode(mem: Memory, a: nat): Msg {
    var len := LenAt(mem, a);
    Msg(B.Number(Load(mem, a + 8, 4)), B.Number(Load(mem, a + 12, 4)), Load(mem, a + HDR, if len < HDR then 0 else len - HDR))
  }

  function DecodeAll(mem: Memory, visited: seq<nat>): (r: seq<Msg>)
    ensures |r| == |visited|
  {
    if visited == [] then [] else [Decode(mem, visited[0])] + DecodeAll(mem, visited[1..])
  }

  /** The addresses at which consecutive messages start. */
  function Starts(a: nat, ms: seq<Msg>): (r: seq<nat>)
    ensures |r| == |ms|
    decreases |ms|
  {
    if ms == [] then [] else [a] + Starts(a + Space(ms[0]), ms[1..])
  }

  function Extent(ms: seq<Msg>): nat {
    if ms == [] then 0 else Space(ms[0]) + Extent(ms[1..])
  }

  /** The lengths that matter to the walk are those of the messages. */
  ghost predicate LengthsAre(lens: Lengths, a: nat, ms: seq<Msg>)
    decreases |ms|
  {
    ms == [] || (lens(a) == HDR + |ms[0].data| && LengthsAre(lens, a + Space(ms[0]), ms[1..]))
  }

  lemma HoldsParts(mem: Memory, a: nat, s: seq<byte>, t: seq<byte>)
    requires Holds(mem, a, s + t)
    ensures Holds(mem, a, s) && Holds(mem, a + |s|, t)
  {
    var all := Load(mem, a, |s| + |t|);
    assert Load(mem, a, |s|) == all[..|s|] == s;
    assert Load(mem, a + |s|, |t|) == all[|s|..] == t;
  }

  lemma FieldHeld(mem: Memory, a: nat, n: nat, x: nat)
    requires Holds(mem, a, B.Bytes(x, n)) && x < B.Range(n)
    ensures B.Number(Load(mem, a, n)) == x
  {
    B.NumberOfBytes(x, n);
  }

  lemma DecodesOne(mem: Memory, a: nat, m: Msg)
    requires MsgOk(m) && Holds(mem, a, EncodeOne(m))
    ensures LenAt(mem, a) == HDR + |m.data| && Decode(mem, a) == m
  {
    var len := HDR + |m.data|;
    var f0, f1, f2, pad := B.Bytes(len, 8), B.Bytes(m.level, 4), B.Bytes(m.kind, 4), B.Bytes(0, RoundUp(len) - len);
    HoldsParts(mem, a, f0 + f1 + f2 + m.data, pad);
    HoldsParts(mem, a, f0 + f1 + f2, m.data);
    HoldsParts(mem, a, f0 + f1, f2);
    HoldsParts(mem, a, f0, f1);
    B.Ranges();
    FieldHeld(mem, a, 8, len);
    FieldHeld(mem, a + 8, 4, m.level);
    FieldHeld(mem, a + 12, 4, m.kind);
  }

  /** The messages lie one after another from `a` on, each as it is encoded. */
  ghost predicate Placed(mem: Memory, a: nat, ms: seq<Msg>)
    decreases |ms|
  {
    ms == [] || (PlacedOne(mem, a, ms[0]) && Placed(mem, a + Space(ms[0]), ms[1..]))
  }

  ghost predicate PlacedOne(mem: Memory, a: nat, m: Msg) {
    LenAt(mem, a) == HDR + |m.data| && Decode(mem, a) == m
  }

  lemma FirstIsPlaced(mem: Memory, a: nat, m: Msg, rest: seq<byte>, s: seq<byte>, at: nat)
    requires MsgOk(m) && Holds(mem, a, s) && s == EncodeOne(m) + rest && at == a + Space(m)
    ensures PlacedOne(mem, a, m) && Holds(mem, at, rest)
  {
    HoldsParts(mem, a, EncodeOne(m), rest);
    DecodesOne(mem, a, m);
  }

  lemma {:induction false} EncodeLength(ms: seq<Msg>)
    ensures |Encode(ms)| == Extent(ms)
    decreases |ms|
  {
    if ms != [] {
      EncodeLength(ms[1..]);
    }
  }

  lemma PlacedFirst(mem: Memory, a: nat, ms: seq<Msg>, at: nat)
    requires ms != [] && at == a + Space(ms[0]) && PlacedOne(mem, a, ms[0]) && Placed(mem, at, ms[1..])
    ensures Placed(mem, a, ms)
  {
  }

  lemma EncodeFirst(ms: seq<Msg>)
    requires ms != []
    ensures Encode(ms) == EncodeOne(ms[0]) + Encode(ms[1..])
  {
  }

  lemma {:induction false} EncodingIsPlaced(mem: Memory, a: nat, ms: seq<Msg>, s: seq<byte>)
    requires MsgsOk(ms) && s == Encode(ms) && Holds(mem, a, s)
    ensures Placed(mem, a, ms)
    decreases |ms|
  {
    if ms != [] {
      var at := a + Space(ms[0]);
      var t := Encode(ms[1..]);
      EncodeFirst(ms);
      FirstIsPlaced(mem, a, ms[0], t, s, at);
      EncodingIsPlaced(mem, at, ms[1..], t);
      PlacedFirst(mem, a, ms, at);
    }
  }

  lemma DecodeAllFirst(mem: Memory, a: nat, rest: seq<nat>, ms: seq<Msg>)
    requires ms != [] && Decode(mem, a) == ms[0] && DecodeAll(mem, rest) == ms[1..]
    ensures DecodeAll(mem, [a] + rest) == ms
  {
    assert ([a] + rest)[1..] == rest;
    assert ms == [ms[0]] + ms[1..];
  }

  lemma {:induction false} PlacedDecodes(mem: Memory, a: nat, ms: seq<Msg>)
    requires Placed(mem, a, ms)
    ensures DecodeAll(mem, Starts(a, ms)) == ms
    decreases |ms|
  {
    if ms != [] {
      PlacedDecodes(mem, a + Space(ms[0]), ms[1..]);
      DecodeAllFirst(mem, a, Starts(a + Space(ms[0]), ms[1..]), ms);
    }
  }

  lemma {:induction false} PlacedLengths(mem: Memory, a: nat, ms: seq<Msg>, lens: Lengths)
    requires Placed(mem, a, ms) && (forall x :: lens(x) == LenAt(mem, x))
    ensures LengthsAre(lens, a, ms)
    decreases |ms|
  {
    if ms != [] {
      PlacedLengths(mem, a + Space(ms[0]), ms[1..], lens);
    }
  }

  lemma NextAtEnd(lens: Lengths, base: nat, controllen: nat, a: nat)
    requires LengthsOk(lens)
    requires a + RoundUp(lens(a)) == base + controllen && base + controllen + HDR < TWO64
    ensures NextHdr(lens, base, controllen, a) == None
  {
    SumUnwrapped(lens, a);
    Unwrapped(base + controllen);
    Unwrapped(base + controllen + HDR);
  }

  lemma NextInside(lens: Lengths, base: nat, controllen: nat, a: nat, a': nat)
    requires LengthsOk(lens) && lens(a) >= HDR && a' == a + RoundUp(lens(a))
    requires a' + HDR <= base + controllen && a' + RoundUp(lens(a')) <= base + controllen < TWO64
    ensures NextHdr(lens, base, controllen, a) == Some(a')
  {
    SumUnwrapped(lens, a);
    SumUnwrapped(lens, a');
    Unwrapped(a' + HDR);
    Unwrapped(base + controllen);
  }

  lemma {:induction false} WalkFromVisitsStarts(lens: Lengths, base: nat, controllen: nat, a: nat, ms: seq<Msg>, n: nat)
    requires LengthsOk(lens) && ms != [] && LengthsAre(lens, a, ms) && n >= |ms|
    requires base <= a && a + Extent(ms) == base + controllen && base + controllen + HDR < TWO64
    ensures WalkFrom(lens, base, controllen, a, n) == Starts(a, ms)
    decreases |ms|
  {
    if |ms| == 1 {
      assert Extent(ms[1..]) == 0;
      NextAtEnd(lens, base, controllen, a);
      assert Starts(a + Space(ms[0]), ms[1..]) == [];
    } else {
      var a' := a + Space(ms[0]);
      assert ms[1..] != [] && lens(a') == HDR + |ms[1].data|;
      NextInside(lens, base, controllen, a, a');
      WalkFromVisitsStarts(lens, base, controllen, a', ms[1..], n - 1);
    }
  }

  lemma {:induction false} NumberBound(s: seq<byte>)
    ensures B.Number(s) < B.Range(|s|)
    decreases |s|
  {
    if s != [] {
      NumberBound(s[1..]);
    }
  }

  lemma LenBound(mem: Memory, a: nat)
    ensures LenAt(mem, a) < TWO64
  {
    NumberBound(Load(mem, a, 8));
    B.Ranges();
  }

  /** Walking an aligned encoding of any nonempty list of messages returns that list,
      however long the caller keeps asking for more. */
  lemma WalkReturnsMessages(mem: Memory, base: nat, ms: seq<Msg>, n: nat, lens: Lengths)
    requires ms != [] && MsgsOk(ms) && Holds(mem, base, Encode(ms)) && n >= |ms|
    requires base + |Encode(ms)| + HDR < TWO64 && (forall a :: lens(a) == LenAt(mem, a))
    ensures DecodeAll(mem, Walk(lens, base, |Encode(ms)|, n)) == ms
  {
    forall a ensures lens(a) < TWO64 {
      LenBound(mem, a);
    }
    EncodingIsPlaced(mem, base, ms, Encode(ms));
    EncodeLength(ms);
    PlacedDecodes(mem, base, ms);
    PlacedLengths(mem, base, ms, lens);
    assert Extent(ms) >= Space(ms[0]) >= HDR;
    WalkFromVisitsStarts(lens, base, |Encode(ms)|, base, ms, n);
  }
}
