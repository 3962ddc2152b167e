/** Machine words, masks and powers of two.

Every ring of the library is indexed by a wrapping unsigned counter that is
masked with `entries - 1`. Positions are unbounded naturals here; a word is the
position modulo its width, and `And` is the bitwise operation the code uses.
*/
module Words {

  const TWO16: nat := 0x1_0000
  const TWO32: nat := 0x1_0000_0000
  const TWO64: nat := 0x1_0000_0000_0000_0000

  type byte = x: int | 0 <= x < 0x100
  type u16 = x: int | 0 <= x < 0x1_0000
  type u32 = x: int | 0 <= x < 0x1_0000_0000

  function U16(x: int): u16 { x % TWO16 }

  function U32(x: int): u32 { x % TWO32 }

  /** C's subtraction of two `unsigned` values. */
  function Sub32(a: u32, b: u32): u32 { U32(a - b) }

  function Pow2(k: nat): (r: nat)
    ensures r > 0
  {
    if k == 0 then 1 else 2 * Pow2(k - 1)
  }

  /** Bitwise conjunction of two naturals. */
  function And(a: nat, b: nat): nat {
    if a == 0 || b == 0 then 0
    else 2 * And(a / 2, b / 2) + (if a % 2 == 1 && b % 2 == 1 then 1 else 0)
  }

  // ---- memory --------------------------------------------------------------

  /** Memory after the bytes `s` are stored at `at`. */
  function Patch(m: seq<byte>, at: nat, s: seq<byte>): (r: seq<byte>)
    requires at + |s| <= |m|
    ensures |r| == |m|
  {
    m[..at] + s + m[at + |s|..]
  }

  // ---- division ------------------------------------------------------------

  lemma AtLeastOneMultiple(d: int, n: nat)
    ensures d >= 1 ==> d * n >= n
    ensures d <= -1 ==> d * n <= 0 - n
  {
    if d >= 1 {
      assert d * n == (d - 1) * n + n && (d - 1) * n >= 0;
    } else if d <= -1 {
      assert d * n == (d + 1) * n - n && (d + 1) * n <= 0;
    }
  }

  lemma MultipleInRange(d: int, n: nat, x: int)
    requires n > 0 && x == d * n && 0 < x + n && x < n
    ensures d == 0
  {
    AtLeastOneMultiple(d, n);
  }

  lemma ModIs(x: int, n: nat, q: int, r: int)
    requires n > 0 && 0 <= r < n && x == q * n + r
    ensures x % n == r && x / n == q
  {
    var d := q - x / n;
    assert x == (x / n) * n + x % n;
    assert d * n == q * n - (x / n) * n;
    MultipleInRange(d, n, x % n - r);
  }

  /** Reducing modulo a multiple of `n` first changes nothing. */
  lemma ModOfMod(x: int, n: nat, m: nat)
    requires n > 0 && m > 0
    ensures n * m > 0 && (x % (n * m)) % n == x % n
  {
    var k := n * m;
    assert k > 0;
    var q, r := x / k, x % k;
    var q', r' := r / n, r % n;
    assert x == q * k + r;
    assert r == q' * n + r';
    assert q * k == (q * m) * n;
    assert x == (q * m + q') * n + r' by {
      assert (q * m + q') * n == (q * m) * n + q' * n;
    }
    ModIs(x, n, q * m + q', r');
  }

  /** Two positions less than `n` apart never share a slot. */
  lemma DistinctMod(i: int, j: int, n: nat)
    requires n > 0 && i < j < i + n
    ensures i % n != j % n
  {
    var qi, qj := i / n, j / n;
    assert i == qi * n + i % n && j == qj * n + j % n;
    assert (qj - qi) * n == qj * n - qi * n;
    AtLeastOneMultiple(qj - qi, n);
    assert qj == qi ==> qj * n == qi * n;
  }

  lemma ModNext(i: nat, n: nat)
    requires n > 0
    ensures (i + n) % n == i % n
  {
    ModIs(i + n, n, i / n + 1, i % n);
  }

  // ---- powers of two -------------------------------------------------------

  lemma {:induction false} Pow2Add(a: nat, b: nat)
    ensures Pow2(a + b) == Pow2(a) * Pow2(b)
  {
    if a != 0 {
      Pow2Add(a - 1, b);
      assert 2 * (Pow2(a - 1) * Pow2(b)) == (2 * Pow2(a - 1)) * Pow2(b);
    }
  }

  lemma {:induction false} Pow2Monotone(a: nat, b: nat)
    requires a <= b
    ensures Pow2(a) <= Pow2(b)
    ensures a < b ==> 2 * Pow2(a) <= Pow2(b)
  {
    if a < b {
      Pow2Monotone(a, b - 1);
    }
  }

  lemma Pow2Values()
    ensures Pow2(15) == 32768 && Pow2(16) == TWO16 && Pow2(32) == TWO32 && Pow2(31) == 0x8000_0000
  {
    assert Pow2(8) == 256;
    Pow2Add(8, 7);
    assert Pow2(7) == 128;
    Pow2Add(8, 8);
    Pow2Add(16, 15);
    Pow2Add(16, 16);
  }

  // ---- masks ---------------------------------------------------------------

  /** Halving strips one bit of a remainder. */
  lemma ModHalf(x: nat, p: nat)
    requires p > 0
    ensures x % (2 * p) == 2 * ((x / 2) % p) + x % 2
  {
    var h := x / 2;
    var q, r := h / p, h % p;
    assert h == q * p + r;
    assert q * (2 * p) == 2 * (q * p);
    ModIs(x, 2 * p, q, 2 * r + x % 2);
  }

  /** `x & (2^k - 1)` is the remainder modulo `2^k`. */
  lemma {:induction false} AndMask(x: nat, k: nat)
    ensures And(x, Pow2(k) - 1) == x % Pow2(k)
  {
    if k == 0 {
      ModIs(x, 1, x, 0);
    } else {
      var p := Pow2(k - 1);
      var mask := Pow2(k) - 1;
      assert mask / 2 == p - 1 && mask % 2 == 1;
      AndMask(x / 2, k - 1);
      ModHalf(x, p);
    }
  }

  lemma AndEven(x: nat, h: nat)
    ensures And(x, 2 * h) == 2 * And(x / 2, h)
  {
    if x != 0 && h != 0 {
      assert (2 * h) / 2 == h && (2 * h) % 2 == 0;
    }
  }

  lemma ClearStep(x: nat, h: nat, half: nat, mask: nat, p: nat)
    requires half > 0 && p == 2 * half && mask == 2 * h
    requires And(x / 2, h) == x / 2 - (x / 2) % half
    ensures And(x, mask) == x - x % p
  {
    AndEven(x, h);
    ModHalf(x, half);
  }

  lemma Halves(x: nat, k: nat, w: nat)
    requires 0 < k <= w && x < Pow2(w)
    ensures Pow2(k) == 2 * Pow2(k - 1) && Pow2(w) == 2 * Pow2(w - 1)
    ensures Pow2(k - 1) <= Pow2(w - 1) && x / 2 < Pow2(w - 1)
  {
    Pow2Monotone(k - 1, w - 1);
  }

  lemma AndAll(x: nat, w: nat)
    requires x < Pow2(w)
    ensures And(x, Pow2(w) - 1) == x
  {
    AndMask(x, w);
    ModIs(x, Pow2(w), 0, x);
  }

  /** `x & ~(2^k - 1)` clears the low `k` bits, for a `w`-bit word. */
  lemma AndClear(x: nat, k: nat, w: nat)
    requires k <= w && x < Pow2(w)
    ensures Pow2(w) >= Pow2(k)
    ensures And(x, Pow2(w) - Pow2(k)) == x - x % Pow2(k)
  {
    Pow2Monotone(k, w);
    ClearBits(x, k, w, Pow2(w) - Pow2(k), Pow2(k));
  }

  lemma {:induction false} ClearBits(x: nat, k: nat, w: nat, mask: nat, p: nat)
    requires k <= w && x < Pow2(w) && p == Pow2(k) && mask == Pow2(w) - p
    ensures And(x, mask) == x - x % p
    decreases k
  {
    if k == 0 {
      ModIs(x, 1, x, 0);
      AndAll(x, w);
    } else {
      Halves(x, k, w);
      var half := Pow2(k - 1);
      var h := Pow2(w - 1) - half;
      ClearBits(x / 2, k - 1, w - 1, h, half);
      ClearStep(x, h, half, mask, p);
    }
  }

  /** The slot a masked 32-bit counter selects is the position modulo the ring size. */
  lemma MaskedWord(pos: nat, order: nat)
    requires order <= 32
    ensures And(U32(pos), Pow2(order) - 1) == pos % Pow2(order)
  {
    AndMask(U32(pos), order);
    Pow2Values();
    Pow2Add(order, 32 - order);
    ModOfMod(pos, Pow2(order), Pow2(32 - order));
  }

  /** Subtracting two words recovers a distance that fits in a word. */
  lemma WordDistance(a: nat, b: nat)
    requires b <= a < b + TWO32
    ensures Sub32(U32(a), U32(b)) == a - b
  {
  }

  lemma SmallWord(x: int)
    requires 0 <= x < TWO32
    ensures U32(x) == x
  {
  }

  lemma WordNext(pos: nat, n: nat)
    ensures U32(U32(pos) + n) == U32(pos + n)
  {
  }

  lemma HalfWordNext(pos: nat, n: nat)
    ensures U16(U16(pos) + n) == U16(pos + n)
  {
  }

  lemma WordsEqual(a: nat, b: nat)
    requires b <= a < b + TWO32
    ensures U32(a) == U32(b) <==> a == b
  {
  }

  lemma OrderFits(order: nat)
    requires order <= 16
    ensures 0 < Pow2(order) <= TWO16
  {
    Pow2Values();
    Pow2Monotone(order, 16);
  }

  lemma ModAdd(a: nat, b: nat, x: nat, n: nat)
    requires n > 0 && a % n == b % n
    ensures (a + x) % n == (b + x) % n
  {
    var r := (b + x) % n;
    assert (a / n) * n + a % n == a && (b / n) * n + b % n == b;
    assert ((b + x) / n) * n + r == b + x;
    assert ((b + x) / n - b / n + a / n) * n == ((b + x) / n) * n - (b / n) * n + (a / n) * n;
    ModIs(a + x, n, (b + x) / n - b / n + a / n, r);
  }

  /** A 16-bit counter plus an offset, masked. */
  lemma MaskedSum(pos: nat, offset: nat, order: nat)
    requires order <= 16
    ensures And(U16(pos) + offset, Pow2(order) - 1) == (pos + offset) % Pow2(order)
  {
    AndMask(U16(pos) + offset, order);
    Pow2Values();
    Pow2Add(order, 16 - order);
    ModOfMod(pos, Pow2(order), Pow2(16 - order));
    ModAdd(U16(pos), pos, offset, Pow2(order));
  }

  /** `x & ~7` in a 64-bit word. */
  lemma ClearLowThree(x: nat)
    requires x < TWO64
    ensures And(x, TWO64 - 8) == x - x % 8
  {
    assert Pow2(3) == 8;
    assert Pow2(64) == TWO64 by {
      Pow2Values();
      Pow2Add(32, 32);
    }
    AndClear(x, 3, 64);
  }
}
