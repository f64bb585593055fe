/** Retry delays: exponential up to a cap, half of it replaced by jitter, in 64-bit arithmetic that wraps. */
module Backoff {
  import opened Numbers

  type Int64 = x: int | -0x8000_0000_0000_0000 <= x < 0x8000_0000_0000_0000

  const DEFAULT_BASE: Int64 := 1_000_000_000
  const DEFAULT_CAP: Int64 := 300_000_000_000
  const MAX_SHIFT := 32

  function Pow2(n: nat): (p: nat)
    ensures 0 < p
  {
    if n == 0 then 1 else 2 * Pow2(n - 1)
  }

  /** The low 64 bits of x, read as a signed number. */
  function Wrap64(x: int): Int64 {
    var low := x % 0x1_0000_0000_0000_0000;
    if low < 0x8000_0000_0000_0000 then low else low - 0x1_0000_0000_0000_0000
  }

  function Shift(attempt: int): nat {
    var a := if attempt < 1 then 1 else attempt;
    if a - 1 > MAX_SHIFT then MAX_SHIFT else a - 1
  }

  function OrDefault(x: Int64, default: Int64): Int64 {
    if x <= 0 then default else x
  }

  /** What the delay would be if nothing overflowed and there were no cap. */
  function Ideal(attempt: int, base: Int64): int {
    OrDefault(base, DEFAULT_BASE) * Pow2(Shift(attempt))
  }

  /** A product as the machine computes it, cut to the cap; a sign that is not positive counts as overflow. */
  function Capped(product: int, cap: Int64): Int64 {
    var d := Wrap64(product);
    if d <= 0 || d > cap then cap else d
  }

  /** The delay before jitter. */
  function Delay(attempt: int, base: Int64, capDelay: Int64): Int64 {
    Capped(Ideal(attempt, base), OrDefault(capDelay, DEFAULT_CAP))
  }

  /** draw is any number; the program's random draw below half is draw % half. */
  function Backoff(attempt: int, base: Int64, capDelay: Int64, draw: nat): (r: Int64)
    ensures 0 < r <= (if capDelay <= 0 then 300_000_000_000 else capDelay)
    ensures Delay(attempt, base, capDelay) / 2 <= r <= Delay(attempt, base, capDelay)
  {
    var d := Delay(attempt, base, capDelay);
    var half := d / 2;
    if half <= 0 then d else half + draw % half
  }

  /** Jitter covers the whole upper half: every wait from half the delay up to just under all of it can be drawn. */
  lemma JitterCoversUpperHalf(attempt: int, base: Int64, capDelay: Int64, wait: int)
    requires var half := Delay(attempt, base, capDelay) / 2; half <= wait < 2 * half
    ensures Backoff(attempt, base, capDelay, wait - Delay(attempt, base, capDelay) / 2) == wait
  {
    hide Delay;
    SmallModulo(wait - Delay(attempt, base, capDelay) / 2, Delay(attempt, base, capDelay) / 2);
  }

  lemma SmallModulo(x: nat, n: nat)
    requires x < n
    ensures x % n == x
  {
  }

  lemma CappedIsExactIff(product: int, cap: Int64)
    requires 0 < product && 0 < cap
    ensures Capped(product, cap) == Min(product, cap)
       <==> (product < 0x8000_0000_0000_0000 || Wrap64(product) <= 0 || Wrap64(product) >= cap)
  {
  }

  /** The sign test catches an overflow exactly when the wrapped product is not a positive number below the cap. */
  lemma DelayIsExactIff(attempt: int, base: Int64, capDelay: Int64)
    ensures Delay(attempt, base, capDelay) == Min(Ideal(attempt, base), OrDefault(capDelay, DEFAULT_CAP))
       <==> (|| Ideal(attempt, base) < 0x8000_0000_0000_0000
             || Wrap64(Ideal(attempt, base)) <= 0
             || Wrap64(Ideal(attempt, base)) >= OrDefault(capDelay, DEFAULT_CAP))
  {
    hide Pow2, Capped, Wrap64;
    Product(OrDefault(base, DEFAULT_BASE), Pow2(Shift(attempt)));
    CappedIsExactIff(Ideal(attempt, base), OrDefault(capDelay, DEFAULT_CAP));
  }

  lemma Product(x: int, y: int)
    requires 0 < x && 0 < y
    ensures 0 < x * y
  {
  }

  lemma {:induction false} PowMonotone(m: nat, n: nat)
    requires m <= n
    ensures Pow2(m) <= Pow2(n)
  {
    if m < n {
      PowMonotone(m, n - 1);
    }
  }

  lemma Pow32()
    ensures Pow2(32) == 0x1_0000_0000
  {
    assert Pow2(8) == 0x100;
    assert Pow2(16) == 0x1_0000;
    assert Pow2(24) == 0x100_0000;
  }

  lemma MulMonotone(x: int, y: int, z: int)
    requires 0 <= x && y <= z
    ensures x * y <= x * z
  {
  }

  lemma {:induction false} PowSplit(m: nat, n: nat)
    ensures Pow2(m + n) == Pow2(m) * Pow2(n)
    decreases n
  {
    if n > 0 {
      PowSplit(m, n - 1);
      assert Pow2(m + n) == 2 * Pow2(m + n - 1);
      Regroup(Pow2(m), Pow2(n - 1));
    }
  }

  lemma Regroup(x: int, y: int)
    ensures 2 * (x * y) == x * (2 * y)
  {
  }

  lemma Pow64()
    ensures Pow2(64) == 0x1_0000_0000_0000_0000 && Pow2(63) == 0x8000_0000_0000_0000
  {
    Pow32();
    PowSplit(32, 32);
    assert Pow2(64) == 2 * Pow2(63);
  }

  lemma ModuloTimes(b: int, m: int, k: int)
    requires 0 < m && 0 < k
    ensures 0 < m * k && (b * k) % (m * k) == (b % m) * k
  {
    var q, r := b / m, b % m;
    Product(m, k);
    assert b == q * m + r;
    Distribute(q, m, r, k);
    MulMonotone(k, r, m - 1);
    assert 0 <= r * k && r * k <= (m - 1) * k == m * k - k by { Commute(r, k); Commute(m - 1, k); Less(m, k); }
    QuotientIsUnique(b * k, q, m * k, r * k);
  }

  lemma Less(m: int, k: int)
    ensures (m - 1) * k == m * k - k
  {
  }

  lemma Commute(x: int, y: int)
    ensures x * y == y * x
  {
  }

  lemma Distribute(q: int, m: int, r: int, k: int)
    ensures (q * m + r) * k == q * (m * k) + r * k
  {
  }

  lemma QuotientIsUnique(n: int, q: int, d: int, r: int)
    requires n == q * d + r && 0 <= r < d
    ensures n % d == r
  {
    var q', r' := n / d, n % d;
    assert (q - q') * d == r' - r;
    if q < q' {
      MulMonotone(d, 1, q' - q);
    } else if q' < q {
      MulMonotone(d, 1, q - q');
    }
  }

  /** Shifting drops the bits that no longer fit and reads the highest that is left as the sign. */
  lemma ShiftByBits(b: int, shift: nat)
    requires shift <= MAX_SHIFT
    ensures var low := b % Pow2(64 - shift);
            Wrap64(b * Pow2(shift)) == (if low < Pow2(63 - shift) then low else low - Pow2(64 - shift)) * Pow2(shift)
  {
    var m, k, low := Pow2(64 - shift), Pow2(shift), b % Pow2(64 - shift);
    hide Pow2;
    PowSplit(64 - shift, shift);
    PowSplit(63 - shift, shift);
    Pow64();
    ModuloTimes(b, m, k);
    if low < Pow2(63 - shift) {
      MulMonotone(k, low + 1, Pow2(63 - shift));
      Commute(k, low + 1);
      Commute(k, Pow2(63 - shift));
      Less(low + 1, k);
    } else {
      MulMonotone(k, Pow2(63 - shift), low);
      Commute(k, low);
      Commute(k, Pow2(63 - shift));
      Minus(low, m, k);
    }
  }

  lemma Minus(x: int, y: int, k: int)
    ensures (x - y) * k == x * k - y * k
  {
  }

  /** Where a shift of b goes wrong: bits are shifted out, and those left are positive and below the cap. Every number
      here fits 64 bits. */
  predicate Misread(b: int, shift: nat, cap: int)
    requires shift <= MAX_SHIFT
  {
    var low := b % Pow2(64 - shift);
    Pow2(63 - shift) <= b && 0 < low < Pow2(63 - shift) && low * Pow2(shift) < cap
  }

  /** The same test without computing the product. */
  lemma DelayIsExactIffBits(attempt: int, base: Int64, capDelay: Int64)
    ensures Delay(attempt, base, capDelay) == Min(Ideal(attempt, base), OrDefault(capDelay, DEFAULT_CAP))
       <==> !Misread(OrDefault(base, DEFAULT_BASE), Shift(attempt), OrDefault(capDelay, DEFAULT_CAP))
  {
    hide Pow2, Wrap64, Delay, Capped, OrDefault, Shift, Misread, Ideal;
    DelayIsExactIff(attempt, base, capDelay);
    IdealIs(attempt, base);
    MisreadIff(OrDefault(base, DEFAULT_BASE), Shift(attempt), OrDefault(capDelay, DEFAULT_CAP));
  }

  /** The first delay is the base, each one after that twice the last, and from the 33rd attempt on it stays. */
  lemma IdealDoubles(attempt: int, base: Int64)
    ensures var b := if base <= 0 then 1_000_000_000 else base as int;
            && (attempt <= 1 ==> Ideal(attempt, base) == b)
            && (1 <= attempt <= 32 ==> Ideal(attempt + 1, base) == 2 * Ideal(attempt, base))
            && (33 <= attempt ==> Ideal(attempt, base) == b * 0x1_0000_0000)
  {
    Pow32();
    if 1 <= attempt <= 32 {
      Regroup(OrDefault(base, DEFAULT_BASE), Pow2(attempt - 1));
      assert Pow2(attempt) == 2 * Pow2(attempt - 1);
    }
  }

  lemma IdealIs(attempt: int, base: Int64)
    ensures Ideal(attempt, base) == OrDefault(base, DEFAULT_BASE) * Pow2(Shift(attempt)) && Shift(attempt) <= MAX_SHIFT
  {
    hide Pow2, OrDefault;
  }

  lemma MisreadIff(b: int, shift: nat, cap: int)
    requires shift <= MAX_SHIFT
    ensures var w := Wrap64(b * Pow2(shift));
            (b * Pow2(shift) < 0x8000_0000_0000_0000 || w <= 0 || w >= cap) <==> !Misread(b, shift, cap)
  {
    hide Pow2, Wrap64;
    TopBit(b, shift);
    LowBits(b, shift);
  }

  lemma TopBit(b: int, shift: nat)
    requires shift <= MAX_SHIFT
    ensures b < Pow2(63 - shift) <==> b * Pow2(shift) < 0x8000_0000_0000_0000
  {
    hide Pow2;
    PowSplit(63 - shift, shift);
    Pow64();
    FitsIff(b, Pow2(63 - shift), Pow2(shift));
  }

  lemma LowBits(b: int, shift: nat)
    requires shift <= MAX_SHIFT
    ensures var low, w := b % Pow2(64 - shift), Wrap64(b * Pow2(shift));
            && 0 <= low && (low == 0 ==> low * Pow2(shift) == 0) && (0 < low ==> 0 < low * Pow2(shift))
            && if low < Pow2(63 - shift) then w == low * Pow2(shift) else w < 0
  {
    hide Pow2, Wrap64;
    ShiftByBits(b, shift);
    SignOfLow(b % Pow2(64 - shift), Pow2(64 - shift), Pow2(shift));
  }

  lemma FitsIff(b: int, top: int, k: int)
    requires 0 < k
    ensures b < top <==> b * k < top * k
  {
    if b < top {
      MulMonotone(k, b, top - 1);
      Less(top, k);
      Commute(k, b);
      Commute(k, top - 1);
    } else {
      MulMonotone(k, top, b);
      Commute(k, b);
      Commute(k, top);
    }
  }

  lemma SignOfLow(low: int, m: int, k: int)
    requires 0 <= low < m && 0 < k
    ensures low > 0 ==> low * k > 0
    ensures (low - m) * k < 0
  {
    FitsIff(0, low, k);
    FitsIff(low - m, 0, k);
  }

  /** With a base under 2^32 nanoseconds, about four seconds, the delay is what the doubling and the cap say. A base
      that is not positive stands for the default, which is shorter. */
  lemma ShortBaseIsExact(attempt: int, base: Int64, capDelay: Int64)
    requires base < 0x1_0000_0000
    ensures var b := if base <= 0 then 1_000_000_000 else base as int;
            var cap := if capDelay <= 0 then 300_000_000_000 else capDelay as int;
            var doublings := if attempt < 1 then 0 else if attempt - 1 < 32 then attempt - 1 else 32;
            Delay(attempt, base, capDelay) == if b * Pow2(doublings) <= cap then b * Pow2(doublings) else cap
  {
    var b, s := OrDefault(base, DEFAULT_BASE), Shift(attempt);
    hide Pow2;
    PowMonotone(s, 32);
    Pow32();
    MulMonotone(b, Pow2(s), 0x1_0000_0000);
    Product(b, Pow2(s));
    assert 0 < b * Pow2(s) < 0x1_0000_0000_0000_0000;
  }

  /** The guaranteed minimum wait never shrinks from one attempt to the next. */
  lemma FloorIsMonotone(a: int, b: int, base: Int64, capDelay: Int64)
    requires base < 0x1_0000_0000 && a <= b
    ensures Delay(a, base, capDelay) / 2 <= Delay(b, base, capDelay) / 2
  {
    ShortBaseIsExact(a, base, capDelay);
    ShortBaseIsExact(b, base, capDelay);
    PowMonotone(Shift(a), Shift(b));
    MulMonotone(OrDefault(base, DEFAULT_BASE), Pow2(Shift(a)), Pow2(Shift(b)));
  }

  /** A longer base can wrap past the sign test: here the 33rd retry falls back to about four seconds. */
  lemma LongBaseCanCollapse()
    ensures Delay(33, 0x1_0000_0001, 0x7fff_ffff_ffff_ffff) == 0x1_0000_0000
    ensures Delay(32, 0x1_0000_0001, 0x7fff_ffff_ffff_ffff) == 0x7fff_ffff_ffff_ffff
  {
    Pow32();
    assert Pow2(32) == 2 * Pow2(31);
  }
}
