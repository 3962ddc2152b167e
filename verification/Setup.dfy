/** Sizing and layout of the rings (src/setup.c). Page sizes are powers of two; memory is
made of regions of addresses, and what `mmap` returns is a parameter. */
module Setup {
  import opened Common
  import opened Words

  const KERN_MAX_ENTRIES: nat := 32768
  const KERN_MAX_CQ_ENTRIES: nat := 65536
  const HUGE_PAGE: nat := 2097152
  const SQE_SIZE: nat := 64
  const CQE_SIZE: nat := 16
  const INDEX_SIZE: nat := 4
  const KRING_SIZE: nat := 320

  // ---- powers of two -------------------------------------------------------

  /** `__fls`: the number of significant bits. */
  function Fls(x: nat): nat { if x == 0 then 0 else 1 + Fls(x / 2) }

  function RoundupPow2(depth: nat): nat
    requires depth > 0
  {
    Pow2(Fls(depth - 1))
  }

  /** `p` is the least power of two that is at least `x`. */
  ghost predicate IsLeast(p: nat, x: nat) {
    && (exists k: nat :: p == Pow2(k))
    && x <= p && (forall j: nat :: x <= Pow2(j) ==> p <= Pow2(j))
  }

  lemma {:induction false} FlsBounds(x: nat)
    ensures x < Pow2(Fls(x))
    ensures x > 0 ==> Pow2(Fls(x) - 1) <= x
  {
    if x > 0 {
      FlsBounds(x / 2);
    }
  }

  lemma RoundupIsLeast(x: nat)
    requires x > 0
    ensures IsLeast(RoundupPow2(x), x)
  {
    FlsBounds(x - 1);
    var k := Fls(x - 1);
    forall j: nat | x <= Pow2(j) ensures Pow2(k) <= Pow2(j) {
      if j < k {
        Pow2Monotone(j, k - 1);
      } else {
        Pow2Monotone(k, j);
      }
    }
  }

  // ---- get_sq_cq_entries ---------------------------------------------------

  datatype Params = Params(clamp: bool, cqSize: bool, cqEntries: u32, cqe32: bool, sqe128: bool, noSqArray: bool)

  datatype Result<T> = Ok(value: T) | Err(errno: int)

  datatype Sizes = Sizes(sq: nat, cq: nat)

  function Clamp(x: nat, max: nat): nat { if x > max then max else x }

  function GetSqCqEntries(entries: u32, p: Params): Result<Sizes> {
    if entries == 0 then Err(EINVAL)
    else if entries > KERN_MAX_ENTRIES && !p.clamp then Err(EINVAL)
    else
      var sq := RoundupPow2(Clamp(entries, KERN_MAX_ENTRIES));
      if !p.cqSize then Ok(Sizes(sq, 2 * sq))
      else if p.cqEntries == 0 then Err(EINVAL)
      else if p.cqEntries > KERN_MAX_CQ_ENTRIES && !p.clamp then Err(EINVAL)
      else
        var cq := RoundupPow2(Clamp(p.cqEntries, KERN_MAX_CQ_ENTRIES));
        if cq < sq then Err(EINVAL) else Ok(Sizes(sq, cq))
  }

  lemma RoundupWithin(x: nat, k: nat)
    requires 0 < x <= Pow2(k)
    ensures RoundupPow2(x) <= Pow2(k)
  {
    RoundupIsLeast(x);
  }

  /** Accepted sizes are the least powers of two covering the clamped requests, and within
      the kernel's limits. */
  lemma SizesAreLeast(entries: u32, p: Params)
    requires GetSqCqEntries(entries, p).Ok?
    ensures var s := GetSqCqEntries(entries, p).value;
            && IsLeast(s.sq, Clamp(entries, KERN_MAX_ENTRIES))
            && (if p.cqSize then IsLeast(s.cq, Clamp(p.cqEntries, KERN_MAX_CQ_ENTRIES)) else s.cq == 2 * s.sq)
            && 0 < s.sq <= KERN_MAX_ENTRIES && s.sq <= s.cq <= KERN_MAX_CQ_ENTRIES
  {
    Pow2Values();
    var x := Clamp(entries, KERN_MAX_ENTRIES);
    RoundupIsLeast(x);
    RoundupWithin(x, 15);
    if p.cqSize {
      var y := Clamp(p.cqEntries, KERN_MAX_CQ_ENTRIES);
      RoundupIsLeast(y);
      RoundupWithin(y, 16);
    }
  }

  /** A completion ring is too small for a submission ring exactly if a power of two covers
      the one and not the other. */
  lemma TooSmallIff(cq: nat, sq: nat)
    requires cq > 0 && sq > 0
    ensures RoundupPow2(cq) < RoundupPow2(sq) <==> exists j: nat :: cq <= Pow2(j) < sq
  {
    RoundupIsLeast(cq);
    RoundupIsLeast(sq);
    if RoundupPow2(cq) < RoundupPow2(sq) {
      var k := Fls(cq - 1);
      assert cq <= Pow2(k);
      assert Pow2(k) < sq;
    }
  }

  /** The error cases, all of them -EINVAL. */
  lemma RefusedIff(entries: u32, p: Params)
    ensures GetSqCqEntries(entries, p).Err? <==>
              || entries == 0 || (entries > KERN_MAX_ENTRIES && !p.clamp)
              || (p.cqSize &&
                  (|| p.cqEntries == 0 || (p.cqEntries > KERN_MAX_CQ_ENTRIES && !p.clamp)
                   || exists j: nat :: Clamp(p.cqEntries, KERN_MAX_CQ_ENTRIES) <= Pow2(j) < Clamp(entries, KERN_MAX_ENTRIES)))
    ensures GetSqCqEntries(entries, p).Err? ==> GetSqCqEntries(entries, p).errno == EINVAL
  {
    if entries > 0 && p.cqEntries > 0 {
      TooSmallIff(Clamp(p.cqEntries, KERN_MAX_CQ_ENTRIES), Clamp(entries, KERN_MAX_ENTRIES));
    }
  }

  // ---- rounding to pages ---------------------------------------------------

  /** `(x + page - 1) & ~(page - 1)` in a 64-bit word. */
  function Align(x: nat, order: nat): nat
    requires order < 64
  {
    AlignDown(x + Pow2(order) - 1, order)
  }

  function AlignDown(y: nat, order: nat): nat
    requires order < 64
  {
    PageFits(order);
    And(y, TWO64 - Pow2(order))
  }

  lemma WordWidth() returns (width: nat)
    ensures width == 64 && Pow2(width) == TWO64
  {
    width := 64;
    Pow2Values();
    Pow2Add(32, 32);
  }

  lemma PageFits(order: nat)
    requires order < 64
    ensures Pow2(order) <= TWO64
  {
    var width := WordWidth();
    Pow2Monotone(order, width);
  }

  lemma AlignDownClears(y: nat, order: nat)
    requires order < 64 && y < TWO64
    ensures AlignDown(y, order) == y - y % Pow2(order)
  {
    var width := WordWidth();
    AndClear(y, order, width);
  }

  lemma RoundUpTo(x: nat, n: nat, y: nat, a: nat)
    requires n > 0 && y == x + n - 1 && a == y - y % n
    ensures x <= a < x + n && a % n == 0
  {
    ModIs(a, n, y / n, 0);
  }

  lemma AlignIsLeast(x: nat, order: nat)
    requires order < 64 && x + Pow2(order) <= TWO64
    ensures x <= Align(x, order) < x + Pow2(order) && Align(x, order) % Pow2(order) == 0
  {
    AlignDownClears(x + Pow2(order) - 1, order);
    RoundUpTo(x, Pow2(order), x + Pow2(order) - 1, Align(x, order));
  }

  // ---- io_uring_alloc_huge -------------------------------------------------

  datatype Region = Region(at: nat, len: nat)

  predicate Inside(a: Region, b: Region) { b.at <= a.at && a.at + a.len <= b.at + b.len }

  predicate Apart(a: Region, b: Region) { a.at + a.len <= b.at || b.at + b.len <= a.at }

  datatype Layout = Layout(used: nat, sqes: Region, ring: Region, memory: seq<Region>)

  function SqesMem(s: Sizes, order: nat): nat
    requires order < 64
  {
    Align(s.sq * SQE_SIZE, order)
  }

  function RingMem(s: Sizes, p: Params): nat {
    s.cq * CQE_SIZE * (if p.cqe32 then 2 else 1) + (if p.noSqArray then 0 else s.sq * INDEX_SIZE)
  }

  function MemUsed(s: Sizes, p: Params, order: nat): nat
    requires order < 64
  {
    Align(SqesMem(s, order) + RingMem(s, p), order)
  }

  ghost predicate InLimits(s: Sizes) { 0 < s.sq <= KERN_MAX_ENTRIES && s.sq <= s.cq <= KERN_MAX_CQ_ENTRIES }

  lemma PageBound(order: nat)
    requires order <= 28
    ensures Pow2(order) <= 0x1000_0000
  {
    Pow2Values();
    Pow2Add(28, 3);
    assert Pow2(3) == 8;
    Pow2Monotone(order, 28);
  }

  lemma AlignBelow(x: nat, order: nat, bound: nat)
    requires order <= 28 && x <= bound < 0x4000_0000
    ensures x <= Align(x, order) < bound + 0x1000_0000 && Align(x, order) % Pow2(order) == 0
  {
    PageBound(order);
    AlignIsLeast(x, order);
  }

  lemma MemoryFits(s: Sizes, p: Params, order: nat)
    requires InLimits(s) && order <= 28
    ensures s.sq * SQE_SIZE <= SqesMem(s, order) && SqesMem(s, order) % Pow2(order) == 0
    ensures SqesMem(s, order) + RingMem(s, p) <= MemUsed(s, p, order) < 0x8000_0000
    ensures MemUsed(s, p, order) % Pow2(order) == 0 && MemUsed(s, p, order) > 0
  {
    AlignBelow(s.sq * SQE_SIZE, order, 0x20_0000);
    AlignBelow(SqesMem(s, order) + RingMem(s, p), order, 0x1080_0000);
  }

  /** The size of the mapping for the SQEs when the caller brings no memory. */
  function FirstMapping(s: Sizes, order: nat): nat
    requires order < 64
  {
    if SqesMem(s, order) <= Pow2(order) then Pow2(order) else HUGE_PAGE
  }

  /** `io_uring_alloc_huge`. `mapped` holds what the two calls of `mmap` return. */
  method AllocHuge(entries: u32, p: Params, order: nat, buf: Option<Region>,
                   mapped: (Result<nat>, Result<nat>))
      returns (r: Result<Layout>)
    requires order <= 28
    ensures GetSqCqEntries(entries, p).Err? ==> r == Err(EINVAL)
    ensures r.Ok? ==>
              var s := GetSqCqEntries(entries, p).value;
              && LaidOut(r.value, order) && r.value.used == MemUsed(s, p, order)
              && r.value.sqes.len == SqesMem(s, order) && r.value.ring.len == RingMem(s, p)
    ensures r.Ok? && buf.Some? ==> r.value.memory == [buf.value] && InFront(r.value, buf.value)
    ensures GetSqCqEntries(entries, p).Ok? && buf.Some? ==>
              (r.Err? <==> MemUsed(GetSqCqEntries(entries, p).value, p, order) > buf.value.len)
    ensures GetSqCqEntries(entries, p).Ok? && buf.None? ==>
              var s := GetSqCqEntries(entries, p).value;
              var one := MemUsed(s, p, order) <= FirstMapping(s, order);
              && (r.Ok? <==>
                    && SqesMem(s, order) <= HUGE_PAGE && RingMem(s, p) <= HUGE_PAGE
                    && mapped.0.Ok? && (one || mapped.1.Ok?))
              && (r.Ok? ==> |r.value.memory| == if one then 1 else 2)
              && (r.Err? ==> r.errno == if SqesMem(s, order) > HUGE_PAGE || RingMem(s, p) > HUGE_PAGE then ENOMEM
                                       else if mapped.0.Err? then mapped.0.errno else mapped.1.errno)
    ensures GetSqCqEntries(entries, p).Ok? && buf.Some? && r.Err? ==> r.errno == ENOMEM
  {
    var sizes := GetSqCqEntries(entries, p);
    if sizes.Err? {
      return Err(sizes.errno);
    }
    var s := sizes.value;
    SizesAreLeast(entries, p);
    MemoryFits(s, p, order);
    var page := Pow2(order);
    var sqesMem, ringMem, used := SqesMem(s, order), RingMem(s, p), MemUsed(s, p, order);
    if buf.None? && (sqesMem > HUGE_PAGE || ringMem > HUGE_PAGE) {
      return Err(ENOMEM);
    }
    var size, ptr;
    if buf.Some? {
      if used > buf.value.len {
        return Err(ENOMEM);
      }
      size, ptr := buf.value.len, buf.value.at;
    } else {
      size := FirstMapping(s, order);
      if mapped.0.Err? {
        return Err(mapped.0.errno);
      }
      ptr := mapped.0.value;
    }
    var first := Region(ptr, size);
    if used <= size {
      return Ok(Layout(used, Region(ptr, sqesMem), Region(ptr + sqesMem, ringMem), [first]));
    }
    size := if ringMem <= page then page else HUGE_PAGE;
    if mapped.1.Err? {
      return Err(mapped.1.errno);
    }
    var second := Region(mapped.1.value, size);
    r := Ok(Layout(used, Region(ptr, sqesMem), Region(mapped.1.value, ringMem), [first, second]));
  }

  /** Both areas lie in the memory obtained for them, and apart, given that two mappings
      never overlap; and the number of bytes reported is a positive `int` and a multiple of
      the page size. */
  ghost predicate LaidOut(l: Layout, order: nat) {
    && 1 <= |l.memory| <= 2
    && Inside(l.sqes, l.memory[0]) && Inside(l.ring, l.memory[|l.memory| - 1])
    && ((|l.memory| == 2 ==> Apart(l.memory[0], l.memory[1])) ==> Apart(l.sqes, l.ring))
    && 0 < l.used < 0x8000_0000 && l.used % Pow2(order) == 0
  }

  /** Both areas lie in the first `used` bytes of the caller's buffer. */
  ghost predicate InFront(l: Layout, buf: Region) {
    && l.used <= buf.len && l.sqes.at == buf.at && Apart(l.sqes, l.ring)
    && Inside(l.sqes, Region(buf.at, l.used)) && Inside(l.ring, Region(buf.at, l.used))
  }

  // ---- what the reserved bytes do not hold ---------------------------------

  lemma {:induction false} PowersDivide(k: nat, order: nat)
    requires order <= k
    ensures Pow2(k) % Pow2(order) == 0
  {
    Pow2Add(order, k - order);
    ModIs(Pow2(k), Pow2(order), Pow2(k - order), 0);
  }

  lemma NoMultipleBetween(x: nat, y: nat, n: nat)
    requires n > 0 && x % n == 0 && y % n == 0 && x <= y < x + n
    ensures x == y
  {
    if x < y {
      DistinctMod(x, y, n);
    }
  }

  lemma LeastMultiple(x: nat, n: nat, a: nat)
    requires n > 0 && a % n == 0 && x <= a < x + n
    ensures x % n == 0 ==> a == x
    ensures 0 < x <= n ==> a == n
  {
    if x % n == 0 {
      NoMultipleBetween(x, a, n);
    }
    if 0 < x <= n {
      ModIs(n, n, 1, 0);
      ModIs(0, n, 0, 0);
      if a < n {
        NoMultipleBetween(0, a, n);
      } else {
        NoMultipleBetween(n, a, n);
      }
    }
  }

  lemma AlignOfMultiple(x: nat, order: nat)
    requires order <= 28 && x <= 0x1000_0000 && x % Pow2(order) == 0
    ensures Align(x, order) == x
  {
    PageBound(order);
    AlignIsLeast(x, order);
    LeastMultiple(x, Pow2(order), Align(x, order));
  }

  lemma AlignOfSmall(x: nat, order: nat)
    requires order <= 28 && 0 < x <= Pow2(order)
    ensures Align(x, order) == Pow2(order)
  {
    PageBound(order);
    AlignIsLeast(x, order);
    LeastMultiple(x, Pow2(order), Align(x, order));
  }

  /** With 128-byte SQEs the area for them, sized for 64-byte ones, is large enough exactly
      if the 64-byte ones fill less than a page. */
  lemma WideSqesFitIff(s: Sizes, k: nat, order: nat)
    requires InLimits(s) && s.sq == Pow2(k) && order <= 28
    ensures s.sq * (2 * SQE_SIZE) <= SqesMem(s, order) <==> s.sq * SQE_SIZE < Pow2(order)
  {
    assert Pow2(6) == SQE_SIZE;
    Pow2Add(k, 6);
    var need := s.sq * SQE_SIZE;
    if k + 6 < order {
      Pow2Monotone(k + 6, order);
      AlignOfSmall(need, order);
    } else {
      PowersDivide(k + 6, order);
      Pow2Monotone(order, k + 6);
      AlignOfMultiple(need, order);
    }
  }

  /** Sixty-four entries fill a 4096-byte page; twice as much is asked for. */
  lemma WideSqesOverrun(p: Params)
    requires p.sqe128 && !p.cqSize
    ensures var s := Sizes(64, 128);
            GetSqCqEntries(64, p) == Ok(s) && SqesMem(s, 12) == 4096 < SqBytes(p, s.sq) == 8192
  {
    assert Pow2(6) == 64;
    RoundupIsLeast(64);
    RoundupWithin(64, 6);
    assert Pow2(12) == 64 * Pow2(6);
    AlignOfSmall(4096, 12);
  }

  /** The bytes reported for a ring have room for the kernel's ring header exactly if the
      last page of the ring area has. */
  lemma HeaderFitsIff(s: Sizes, p: Params, order: nat)
    requires InLimits(s) && order <= 28
    ensures SqesMem(s, order) + RingMem(s, p) + KRING_SIZE <= MemUsed(s, p, order)
            <==> 0 < RingMem(s, p) % Pow2(order) && RingMem(s, p) % Pow2(order) + KRING_SIZE <= Pow2(order)
  {
    MemoryFits(s, p, order);
    PageBound(order);
    AlignIsLeast(SqesMem(s, order) + RingMem(s, p), order);
    SlackHolds(SqesMem(s, order), RingMem(s, p), MemUsed(s, p, order), Pow2(order), KRING_SIZE);
  }

  lemma SlackHolds(a: nat, b: nat, used: nat, n: nat, more: nat)
    requires n > 0 && a % n == 0 && used % n == 0 && a + b <= used < a + b + n && more > 0
    ensures a + b + more <= used <==> 0 < b % n && b % n + more <= n
  {
    Slack(a, b, used, n);
  }

  lemma Slack(a: nat, b: nat, used: nat, n: nat)
    requires n > 0 && a % n == 0 && used % n == 0 && a + b <= used < a + b + n
    ensures used - (a + b) == if b % n == 0 then 0 else n - b % n
  {
    var whole := a + b - b % n;
    assert whole == (a / n + b / n) * n by {
      assert a == (a / n) * n && b == (b / n) * n + b % n;
      assert (a / n + b / n) * n == (a / n) * n + (b / n) * n;
    }
    ModIs(whole, n, a / n + b / n, 0);
    ModIs(whole + n, n, a / n + b / n + 1, 0);
    if b % n == 0 {
      NoMultipleBetween(whole, used, n);
    } else if used < whole + n {
      NoMultipleBetween(whole, used, n);
    } else {
      NoMultipleBetween(whole + n, used, n);
    }
  }

  /** 256 CQEs of 16 bytes fill a 4096-byte page: not a byte is left for the header. */
  lemma HeaderOverrun(p: Params)
    requires p.noSqArray && !p.cqe32 && !p.cqSize
    ensures var s := Sizes(128, 256);
            GetSqCqEntries(128, p) == Ok(s) && SqesMem(s, 12) + RingMem(s, p) == MemUsed(s, p, 12)
  {
    var s := Sizes(128, 256);
    assert Pow2(7) == 128;
    RoundupIsLeast(128);
    RoundupWithin(128, 7);
    assert Pow2(12) == 4096 by {
      Pow2Add(7, 5);
      assert Pow2(5) == 32;
    }
    AlignOfMultiple(8192, 12);
    AlignOfMultiple(12288, 12);
  }

  // ---- several rings in one buffer -----------------------------------------

  datatype Request = Request(entries: u32, p: Params)

  /** The caller's loop: each ring goes where the last one ended, until one does not fit. */
  method PlaceRings(requests: seq<Request>, order: nat, buf: Region) returns (placed: seq<Layout>)
    requires order <= 28
    ensures |placed| <= |requests| && Packed(placed, order, buf)
    ensures |placed| < |requests| ==>
              var q := requests[|placed|];
              var s := GetSqCqEntries(q.entries, q.p);
              s.Err? || MemUsed(s.value, q.p, order) > buf.len - Total(placed)
  {
    placed := [];
    var at, left := buf.at, buf.len;
    for i := 0 to |requests|
      invariant |placed| == i && Packed(placed, order, buf)
      invariant at == buf.at + Total(placed) && left == buf.len - Total(placed) >= 0
    {
      var r := AllocHuge(requests[i].entries, requests[i].p, order, Some(Region(at, left)), (Err(ENOMEM), Err(ENOMEM)));
      if r.Err? {
        return;
      }
      PackedNext(placed, r.value, order, buf);
      placed := placed + [r.value];
      at, left := at + r.value.used, left - r.value.used;
    }
  }

  function Total(ls: seq<Layout>): nat {
    if ls == [] then 0 else Total(ls[..|ls| - 1]) + ls[|ls| - 1].used
  }

  /** Ring `i` occupies `used` bytes, starting where ring `i - 1` ended. */
  ghost predicate Packed(ls: seq<Layout>, order: nat, buf: Region) {
    && Total(ls) <= buf.len
    && forall i :: 0 <= i < |ls| ==> At(ls, i, order, buf)
  }

  ghost predicate At(ls: seq<Layout>, i: nat, order: nat, buf: Region)
    requires i < |ls|
  {
    var room := Region(buf.at + Total(ls[..i]), ls[i].used);
    ls[i].used % Pow2(order) == 0 && Apart(ls[i].sqes, ls[i].ring) && Inside(ls[i].sqes, room) && Inside(ls[i].ring, room)
  }

  lemma PackedNext(ls: seq<Layout>, l: Layout, order: nat, buf: Region)
    requires Packed(ls, order, buf) && l.used <= buf.len - Total(ls) && l.used % Pow2(order) == 0
    requires InFront(l, Region(buf.at + Total(ls), buf.len - Total(ls)))
    ensures Packed(ls + [l], order, buf) && Total(ls + [l]) == Total(ls) + l.used
  {
    var more := ls + [l];
    assert more[..|ls|] == ls;
    forall i | 0 <= i < |more| ensures At(more, i, order, buf) {
      if i < |ls| {
        assert At(ls, i, order, buf);
        assert more[..i] == ls[..i];
      }
    }
  }

  lemma {:induction false} TotalGrows(ls: seq<Layout>, i: nat, j: nat)
    requires i < j <= |ls|
    ensures Total(ls[..i]) + ls[i].used <= Total(ls[..j]) <= Total(ls)
    decreases |ls| - i, j
  {
    assert ls[..j][..j - 1] == ls[..j - 1];
    if i < j - 1 {
      TotalGrows(ls, i, j - 1);
    }
    TotalPrefix(ls, j);
  }

  lemma {:induction false} TotalPrefix(ls: seq<Layout>, j: nat)
    requires j <= |ls|
    ensures Total(ls[..j]) <= Total(ls)
    decreases |ls| - j
  {
    if j == |ls| {
      assert ls[..j] == ls;
    } else {
      assert ls[..j + 1][..j] == ls[..j];
      TotalPrefix(ls, j + 1);
    }
  }

  /** Rings packed into one buffer stay inside it and never overlap. */
  lemma PackedApart(ls: seq<Layout>, order: nat, buf: Region, i: nat, j: nat)
    requires Packed(ls, order, buf) && i < j < |ls|
    ensures Inside(ls[i].sqes, buf) && Inside(ls[i].ring, buf) && Inside(ls[j].sqes, buf) && Inside(ls[j].ring, buf)
    ensures Apart(ls[i].sqes, ls[i].ring) && Apart(ls[j].sqes, ls[j].ring)
    ensures Apart(ls[i].sqes, ls[j].sqes) && Apart(ls[i].sqes, ls[j].ring)
    ensures Apart(ls[i].ring, ls[j].sqes) && Apart(ls[i].ring, ls[j].ring)
  {
    assert At(ls, i, order, buf) && At(ls, j, order, buf);
    TotalGrows(ls, i, j);
    TotalGrows(ls, j, j + 1);
  }

  // ---- the SQ array --------------------------------------------------------

  /** Slot `i` of the submission ring selects SQE `i`. */
  method FillSqArray(a: array<nat>)
    modifies a
    ensures forall i :: 0 <= i < a.Length ==> a[i] == i
  {
    for index := 0 to a.Length
      invariant forall i :: 0 <= i < index ==> a[i] == i
    {
      a[index] := index;
    }
  }

  // ---- rings_size ----------------------------------------------------------

  function NPages(size: nat, page: nat): nat
    requires size > 0 && page > 0
  {
    Fls((size - 1) / page)
  }

  /** `(x + 63) & ~63UL`. */
  function CacheAligned(x: nat): nat { Align(x, 6) }

  function CqBytes(p: Params, cq: nat): (r: nat)
    requires cq <= KERN_MAX_CQ_ENTRIES
    ensures r % 64 == 0
    ensures var need := cq * (if p.cqe32 then 2 * CQE_SIZE else CQE_SIZE) + KRING_SIZE;
            need <= r < need + 64
  {
    var x := cq * (if p.cqe32 then 2 * CQE_SIZE else CQE_SIZE) + KRING_SIZE;
    CacheLines(x);
    CacheAligned(x)
  }

  lemma CacheLines(x: nat)
    requires x < TWO32
    ensures x <= CacheAligned(x) < x + 64 && CacheAligned(x) % 64 == 0
  {
    assert Pow2(6) == 64;
    AlignIsLeast(x, 6);
  }

  function SqBytes(p: Params, sq: nat): nat { sq * (if p.sqe128 then SQE_SIZE + 64 else SQE_SIZE) }

  function RingsSize(p: Params, sq: nat, cq: nat, page: nat): nat
    requires sq > 0 && page > 0 && cq <= KERN_MAX_CQ_ENTRIES
  {
    (Pow2(NPages(CqBytes(p, cq), page)) + Pow2(NPages(SqBytes(p, sq), page))) * page
  }

  /** The number of pages that hold `size` bytes. */
  function PagesFor(size: nat, page: nat): nat
    requires size > 0 && page > 0
  {
    (size - 1) / page + 1
  }

  lemma PagesHold(size: nat, page: nat)
    requires size > 0 && page > 0
    ensures size <= PagesFor(size, page) * page
  {
    var k := (size - 1) / page;
    assert size - 1 == k * page + (size - 1) % page;
    assert (k + 1) * page == k * page + page;
  }

  lemma NPagesIsLeast(size: nat, page: nat)
    requires size > 0 && page > 0
    ensures IsLeast(Pow2(NPages(size, page)), PagesFor(size, page))
    ensures PagesFor(size, page) <= Pow2(NPages(size, page)) < 2 * PagesFor(size, page)
  {
    LeastOfNext((size - 1) / page);
  }

  lemma LeastOfNext(k: nat)
    ensures IsLeast(Pow2(Fls(k)), k + 1) && k + 1 <= Pow2(Fls(k)) < 2 * (k + 1)
  {
    RoundupIsLeast(k + 1);
    FlsBounds(k);
  }

  lemma Sum(a: nat, b: nat, x: nat, y: nat, page: nat)
    requires page > 0 && x <= a && y <= b && a < 2 * x && b < 2 * y
    ensures x * page + y * page <= (a + b) * page < 2 * (x * page + y * page)
  {
    assert (a + b) * page == a * page + b * page;
    assert (a - x) * page >= 0 && (b - y) * page >= 0;
    assert a * page == x * page + (a - x) * page && b * page == y * page + (b - y) * page;
    assert (2 * x - a) * page > 0 && (2 * y - b) * page > 0;
    assert (2 * x - a) * page == 2 * (x * page) - a * page;
    assert (2 * y - b) * page == 2 * (y * page) - b * page;
  }

  /** `rings_size` is a whole number of pages, two least powers of two of them: enough for
      both rings, and less than twice their sizes rounded up to pages. */
  lemma RingsSizeBounds(p: Params, sq: nat, cq: nat, page: nat)
    requires 0 < sq && cq <= KERN_MAX_CQ_ENTRIES && page > 0
    ensures exists a: nat, b: nat ::
              && IsLeast(a, PagesFor(CqBytes(p, cq), page)) && IsLeast(b, PagesFor(SqBytes(p, sq), page))
              && RingsSize(p, sq, cq, page) == (a + b) * page
    ensures RingsSize(p, sq, cq, page) >= CqBytes(p, cq) + SqBytes(p, sq)
    ensures RingsSize(p, sq, cq, page)
            < 2 * (PagesFor(CqBytes(p, cq), page) * page + PagesFor(SqBytes(p, sq), page) * page)
  {
    var x, y := CqBytes(p, cq), SqBytes(p, sq);
    NPagesIsLeast(x, page);
    NPagesIsLeast(y, page);
    PagesHold(x, page);
    PagesHold(y, page);
    Sum(Pow2(NPages(x, page)), Pow2(NPages(y, page)), PagesFor(x, page), PagesFor(y, page), page);
  }
}
