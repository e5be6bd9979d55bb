/** Exact int64 fixed-point arithmetic (python/fastmm/fx.py): plain Python and the compiled forms. */
module FixedPoint {
  import opened Arith

  const SCALE := 100_000_000
  const TWO32 := 0x1_0000_0000
  const TWO63 := 0x8000_0000_0000_0000
  const TWO64 := 0x1_0000_0000_0000_0000

  type Int64 = x: int | -TWO63 <= x < TWO63
  type UInt64 = x: int | 0 <= x < TWO64

  function Abs(x: int): nat { if x < 0 then -x else x }

  /** The low 64 bits of an integer, read as a signed number. */
  function Wrap64(v: int): (w: Int64)
    ensures (v - w) % TWO64 == 0
  {
    var r := (v + TWO63) % TWO64;
    DivModIs(v + TWO63, TWO64);
    r - TWO63
  }

  /** Two integers with the same low 64 bits wrap to the same value. */
  lemma WrapCongruent(a: int, b: int, k: int)
    requires a == b + k * TWO64
    ensures Wrap64(a) == Wrap64(b)
  {
    DivShift(b + TWO63, k, TWO64);
  }

  lemma WrapIdentity(v: Int64)
    ensures Wrap64(v) == v
  {
  }

  // ---- Ratio multiplication ------------------------------------------------------------------

  /** Fixed * Ratio: the exact product over 1e8, truncated toward zero, low 64 bits. */
  function MulRatio(v: Int64, r: Int64): Int64 {
    Wrap64(TruncDiv(v * r, SCALE))
  }

  /** A left shift by 32 in a 64-bit register. */
  function Shl32(x: UInt64): UInt64 { x * TWO32 % TWO64 }

  /**
    x << 32 | y for y below 2^32. The shift leaves the low half zero, so the bitwise or is a sum
    (OrIsSum); `x` below 2^32 keeps every bit.
   */
  function Join(x: UInt64, y: UInt64): (r: UInt64)
    requires x < TWO32 && y < TWO32
    ensures r == x * TWO32 + y
  {
    DivUnique(x * TWO32, 0, x * TWO32, TWO64);
    Shl32(x) + y
  }

  lemma OrIsSum(x: bv64, y: bv64)
    requires x < 0x1_0000_0000 && y < 0x1_0000_0000
    ensures (x << 32) | y == (x << 32) + y
  {
  }

  /** The product of two int64 values fits in a signed 128-bit register, and so does its negation. */
  lemma ProductFits(v: Int64, r: Int64)
    ensures Abs(v * r) <= TWO63 * TWO63
  {
    MulMonotone(Abs(v), TWO63, Abs(r));
    MulMonotone(Abs(r), TWO63, TWO63);
    assert Abs(v * r) == Abs(v) * Abs(r);
    assert TWO63 * Abs(r) == Abs(r) * TWO63;
  }

  /** The magnitude of a 128-bit product divided by 1e8 in two 64-bit steps, low 64 bits. */
  function DivideSteps(hi: UInt64, lo: UInt64): UInt64 {
    var t := Join(hi % SCALE, lo / TWO32);
    var u := Join(t % SCALE, lo % TWO32);
    (Shl32(t / SCALE) + u / SCALE) % TWO64
  }

  /** The quotient of a magnitude that fits in 127 bits, through its two 64-bit halves. */
  function DivideMagnitude(mag: nat): UInt64
    requires mag <= TWO63 * TWO63
  {
    DivMonotone(mag, TWO63 * TWO63, TWO64);
    DivModIs(mag, TWO64);
    DivideSteps(mag / TWO64, mag % TWO64)
  }

  /** The compiled form: sign apart, magnitude divided in two 64-bit steps, sign put back. */
  function MulRatioCompiled(v: Int64, r: Int64): Int64 {
    ProductFits(v, r);
    var q: int := DivideMagnitude(Abs(v * r));
    Wrap64(if v * r < 0 then -q else q)
  }

  /** Long division in two digits: the exact quotient from those of the two steps. */
  lemma LongDivision(hi: UInt64, lo: UInt64, t: nat, u: nat)
    requires t == hi % SCALE * TWO32 + lo / TWO32 && u == t % SCALE * TWO32 + lo % TWO32
    ensures (hi * TWO64 + lo) / SCALE == u / SCALE + hi / SCALE * TWO64 + t / SCALE * TWO32
  {
    DivModIs(hi, SCALE);
    DivModIs(lo, TWO32);
    DivModIs(t, SCALE);
    assert hi * TWO64 + lo == u + (hi / SCALE * TWO64 + t / SCALE * TWO32) * SCALE;
    DivShift(u, hi / SCALE * TWO64 + t / SCALE * TWO32, SCALE);
  }

  /** Dropping the bits above 64 twice drops a multiple of 2^64. */
  lemma LowBits(a: nat, x: nat, r: nat) returns (k: int)
    ensures r + a * TWO64 + x == (x % TWO64 + r) % TWO64 + k * TWO64
  {
    DivModIs(x, TWO64);
    DivModIs(x % TWO64 + r, TWO64);
    k := a + x / TWO64 + (x % TWO64 + r) / TWO64;
  }

  /** The two steps compute the low 64 bits of the exact quotient of hi * 2^64 + lo by 1e8. */
  lemma StepsAreDivision(hi: UInt64, lo: UInt64)
    ensures exists k :: (hi * TWO64 + lo) / SCALE == DivideSteps(hi, lo) + k * TWO64
  {
    var t := Join(hi % SCALE, lo / TWO32);
    var u := Join(t % SCALE, lo % TWO32);
    LongDivision(hi, lo, t, u);
    var k := LowBits(hi / SCALE, t / SCALE * TWO32, u / SCALE);
    assert (hi * TWO64 + lo) / SCALE == DivideSteps(hi, lo) + k * TWO64;
  }

  lemma MagnitudeIsDivision(mag: nat) returns (k: int)
    requires mag <= TWO63 * TWO63
    ensures mag / SCALE == DivideMagnitude(mag) + k * TWO64
  {
    DivMonotone(mag, TWO63 * TWO63, TWO64);
    DivModIs(mag, TWO64);
    StepsAreDivision(mag / TWO64, mag % TWO64);
    k :| (mag / TWO64 * TWO64 + mag % TWO64) / SCALE == DivideSteps(mag / TWO64, mag % TWO64) + k * TWO64;
  }

  /**
    For every pair of int64 values the compiled multiplication returns exactly what the plain
    big-integer definition does, overflow included.
   */
  lemma CompiledMulIsExact(v: Int64, r: Int64)
    ensures MulRatioCompiled(v, r) == MulRatio(v, r)
  {
    ProductFits(v, r);
    SignedQuotient(v * r);
  }

  lemma SignedQuotient(p: int)
    requires Abs(p) <= TWO63 * TWO63
    ensures var q: int := DivideMagnitude(Abs(p));
            Wrap64(if p < 0 then -q else q) == Wrap64(TruncDiv(p, SCALE))
  {
    var q: int := DivideMagnitude(Abs(p));
    var k := MagnitudeIsDivision(Abs(p));
    if p < 0 {
      WrapCongruent(-(Abs(p) / SCALE), -q, -k);
    } else {
      WrapCongruent(Abs(p) / SCALE, q, k);
    }
  }

  // ---- Truncating division -------------------------------------------------------------------

  datatype Quotient = DivisionByZero | Value(q: Int64)

  /** Plain tdiv: magnitudes divided, sign put back. */
  function TDiv(a: Int64, b: Int64): Quotient {
    if b == 0 then DivisionByZero
    else
      var q := Abs(a) / Abs(b);
      Value(Wrap64(if (a < 0) == (b < 0) then q else -q))
  }

  /** The machine's signed division; INT64_MIN / -1 traps, so it is not in its domain. */
  function SDiv64(a: Int64, b: Int64): (q: Int64)
    requires b != 0 && !(a == -TWO63 && b == -1)
  {
    QuotientFits(a, b);
    if (a < 0) == (b < 0) then Abs(a) / Abs(b) else -(Abs(a) / Abs(b))
  }

  lemma QuotientFits(a: Int64, b: Int64)
    requires b != 0
    ensures 0 <= Abs(a) / Abs(b) <= TWO63
    ensures (a < 0) == (b < 0) && !(a == -TWO63 && b == -1) ==> Abs(a) / Abs(b) < TWO63
  {
    DivModIs(Abs(a), Abs(b));
    var q := Abs(a) / Abs(b);
    DivMonotone(0, Abs(a), Abs(b));
    assert 0 / Abs(b) == 0;
    if Abs(b) == 1 {
      assert Abs(a) / Abs(b) == Abs(a);
    } else {
      MulMonotone(2, Abs(b), q);
    }
  }

  /** The compiled form negates for -1 (wrapping) and divides otherwise. */
  function TDivCompiled(a: Int64, b: Int64): Quotient {
    if b == 0 then DivisionByZero
    else if b == -1 then var n: int := a; Value(Wrap64(-n))
    else Value(SDiv64(a, b))
  }

  /** Compiled and plain division agree everywhere, INT64_MIN / -1 and division by zero included. */
  lemma CompiledTDivIsExact(a: Int64, b: Int64)
    ensures TDivCompiled(a, b) == TDiv(a, b)
  {
    if b == -1 {
      assert Abs(a) / 1 == Abs(a);
    } else if b != 0 {
      QuotientFits(a, b);
      WrapIdentity(SDiv64(a, b));
    }
  }

  /** What tdiv means: a == b * q + rem with the remainder smaller than b and signed like a. */
  lemma TDivTruncates(a: Int64, b: Int64)
    requires b != 0 && !(a == -TWO63 && b == -1)
    ensures var q := TDiv(a, b).q;
            var rem := a - b * q;
            Abs(rem) < Abs(b) && (rem != 0 ==> (rem < 0) == (a < 0))
  {
    QuotientFits(a, b);
    DivModIs(Abs(a), Abs(b));
    CompiledTDivIsExact(a, b);
    WrapIdentity(SDiv64(a, b));
    var n, d := Abs(a), Abs(b);
    assert n - n / d * d == n % d;
  }

  // ---- Rounding to a grid --------------------------------------------------------------------

  /** Floor division, as Python divides (Dafny's own rounds by the sign of the divisor). */
  function FloorDiv(a: int, b: int): int
    requires b != 0
  {
    if b > 0 then a / b else (-a) / (-b)
  }

  function RoundPrice(p: int, tick: int, buy: bool): int
    requires tick != 0
  {
    var floored := FloorDiv(p, tick) * tick;
    if buy || floored == p then floored else floored + tick
  }

  function RoundQty(q: int, lot: int): int
    requires lot != 0
  {
    FloorDiv(q, lot) * lot
  }

  predicate OnGrid(p: int, tick: int)
    requires tick > 0
  {
    p % tick == 0
  }

  lemma MultipleOnGrid(k: int, tick: int)
    requires tick > 0
    ensures OnGrid(k * tick, tick)
  {
    DivUnique(k * tick, k, 0, tick);
  }

  /** Two grid points less than a step apart are one. */
  lemma GridGap(p: int, g: int, tick: int)
    requires tick > 0 && OnGrid(p, tick) && OnGrid(g, tick) && p < g
    ensures p + tick <= g
  {
    DivModIs(p, tick);
    DivModIs(g, tick);
    var k := g / tick - p / tick;
    assert k * tick == g - p;
    if k <= 0 {
      MulMonotone(k, 0, tick);
      assert false;
    }
    MulMonotone(1, k, tick);
  }

  lemma RoundPositive(p: int, tick: int, buy: bool, g: int)
    requires tick > 0 && OnGrid(g, tick)
    ensures var r := RoundPrice(p, tick, buy);
            && OnGrid(r, tick)
            && (if buy then r <= p && (g <= p ==> g <= r) else p <= r && (p <= g ==> r <= g))
  {
    DivModIs(p, tick);
    var floored := p / tick * tick;
    MultipleOnGrid(p / tick, tick);
    assert (p / tick + 1) * tick == floored + tick;
    MultipleOnGrid(p / tick + 1, tick);
    if floored < g { GridGap(floored, g, tick); }
    if g < floored + tick { GridGap(g, floored + tick, tick); }
  }

  /** A negative tick rounds the mirrored price by the mirrored tick. */
  lemma RoundMirrors(p: int, tick: int, buy: bool)
    requires tick < 0
    ensures RoundPrice(p, tick, buy) == -RoundPrice(-p, -tick, buy)
  {
    var q := (-p) / (-tick);
    assert q * tick == -(q * (-tick));
  }

  lemma MirrorOnGrid(p: int, tick: int)
    requires tick > 0 && OnGrid(p, tick)
    ensures OnGrid(-p, tick)
  {
    DivModIs(p, tick);
    assert (-(p / tick)) * tick == -p;
    MultipleOnGrid(-(p / tick), tick);
  }

  /**
    A bid rounds to the highest grid price not above it, an ask to the lowest not below it; a negative
    tick gives the same grid and swaps the two.
   */
  lemma RoundPriceIsBest(p: int, tick: int, buy: bool, g: int)
    requires tick != 0 && OnGrid(g, Abs(tick))
    ensures var r := RoundPrice(p, tick, buy);
            && OnGrid(r, Abs(tick))
            && (if buy == (tick > 0) then r <= p && (g <= p ==> g <= r) else p <= r && (p <= g ==> r <= g))
  {
    hide RoundPrice, OnGrid;
    if tick > 0 {
      RoundPositive(p, tick, buy, g);
    } else {
      MirrorOnGrid(g, -tick);
      RoundPositive(-p, -tick, buy, -g);
      RoundMirrors(p, tick, buy);
      MirrorOnGrid(RoundPrice(-p, -tick, buy), -tick);
    }
  }

  /** A quantity rounds down to a multiple of the lot, or up when the lot is negative. */
  lemma RoundQtyIsBest(q: int, lot: int, g: int)
    requires lot != 0 && OnGrid(g, Abs(lot))
    ensures var r := RoundQty(q, lot);
            && OnGrid(r, Abs(lot))
            && (if lot > 0 then r <= q && (g <= q ==> g <= r) else q <= r && (q <= g ==> r <= g))
  {
    RoundPriceIsBest(q, lot, true, g);
  }

  /** A ratio of one, 1e8, changes nothing; a ratio of zero leaves nothing. */
  lemma UnitRatio(v: Int64)
    ensures MulRatio(v, 100_000_000) == v && MulRatio(v, 0) == 0
  {
    WrapIdentity(v);
    var x: int := if v >= 0 then v else 0 - v;
    DivUnique(x * SCALE, x, 0, SCALE);
  }

  /** The limits are powers of two. */
  lemma LimitsAre()
    ensures TWO32 == 0x1_0000 * 0x1_0000 && TWO64 == TWO32 * TWO32 && 2 * TWO63 == TWO64
  {
  }
}
