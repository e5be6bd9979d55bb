/**
  CRC32C as the journal tools compute it (tools/journal_dump.py), against the bit-serial register of
  the Castagnoli polynomial (section 12.1 of RFC 3720, reflected form 0x82F63B78).

  Registers and bytes are sequences of bits, the least significant first.
 */
module Crc32c {
  type Reg = s: seq<bool> | |s| == 32 witness Zeros(32)
  type Byte = s: seq<bool> | |s| == 8 witness Zeros(8)

  function Zeros(n: nat): (s: seq<bool>)
    ensures |s| == n
  {
    seq(n, _ => false)
  }

  /** The low `n` bits of a number. */
  function BitsOf(v: nat, n: nat): (s: seq<bool>)
    ensures |s| == n
  {
    if n == 0 then [] else [v % 2 == 1] + BitsOf(v / 2, n - 1)
  }

  function ValueOf(s: seq<bool>): nat {
    if s == [] then 0 else (if s[0] then 1 else 0) + 2 * ValueOf(s[1..])
  }

  function Xor(x: Reg, y: Reg): Reg { seq(32, i requires 0 <= i < 32 => x[i] != y[i]) }

  function Shr(x: Reg, n: nat): Reg
    requires n <= 32
  {
    x[n..] + Zeros(n)
  }

  function Wide(b: Byte): Reg { b + Zeros(24) }

  const POLY_78: Byte := [false, false, false, true, true, true, true, false]
  const POLY_3B: Byte := [true, true, false, true, true, true, false, false]
  const POLY_F6: Byte := [false, true, true, false, true, true, true, true]
  const POLY_82: Byte := [false, true, false, false, false, false, false, true]

  /** 0x82F63B78, byte by byte from the low end. */
  function Poly(): Reg { POLY_78 + POLY_3B + POLY_F6 + POLY_82 }

  function Init(): Reg { seq(32, _ => true) }

  /** One bit through the register. */
  function Bit(c: Reg): Reg {
    if c[0] then Xor(Shr(c, 1), Poly()) else Shr(c, 1)
  }

  function Bits(c: Reg, n: nat): Reg {
    if n == 0 then c else Bit(Bits(c, n - 1))
  }

  /** Bytes through the register, bit by bit: each is added to the low bits, then stepped. */
  function Feed(c: Reg, data: seq<Byte>): Reg {
    if data == [] then c else Bits(Xor(Feed(c, data[..|data| - 1]), Wide(data[|data| - 1])), 8)
  }

  /** The checksum, by definition. */
  function Checksum(data: seq<Byte>): Reg { Xor(Feed(Init(), data), Init()) }

  // ---- The table --------------------------------------------------------------------------------

  function Entry(b: Byte): Reg { Bits(Wide(b), 8) }

  method MakeEntry(b: Byte) returns (c: Reg)
    ensures c == Entry(b)
  {
    c := Wide(b);
    for k := 0 to 8
      invariant c == Bits(Wide(b), k)
    {
      c := if c[0] then Xor(Shr(c, 1), Poly()) else Shr(c, 1);
    }
  }

  method MakeTable() returns (table: seq<Reg>)
    ensures |table| == 256
    ensures forall i :: 0 <= i < 256 ==> table[i] == Entry(BitsOf(i, 8))
  {
    table := [];
    for i := 0 to 256
      invariant |table| == i
      invariant forall j :: 0 <= j < i ==> table[j] == Entry(BitsOf(j, 8))
    {
      var c := MakeEntry(BitsOf(i, 8));
      table := table + [c];
    }
  }

  lemma {:induction false} BitsOfValue(s: seq<bool>)
    ensures BitsOf(ValueOf(s), |s|) == s
  {
    if s != [] {
      BitsOfValue(s[1..]);
      assert ValueOf(s) / 2 == ValueOf(s[1..]);
    }
  }

  lemma {:induction false} ValueOfByte(s: seq<bool>, n: nat)
    requires |s| <= n
    ensures ValueOf(s) < Pow2(n)
  {
    if s != [] {
      ValueOfByte(s[1..], n - 1);
    }
  }

  function Pow2(n: nat): (p: nat)
    ensures p >= 1
  {
    if n == 0 then 1 else 2 * Pow2(n - 1)
  }

  lemma {:induction false} Pow2Plus(a: nat, b: nat)
    ensures Pow2(a + b) == Pow2(a) * Pow2(b)
  {
    if a > 0 {
      Pow2Plus(a - 1, b);
    }
  }

  lemma DoubleProduct(x: nat, y: nat)
    ensures (2 * x) * y == 2 * (x * y)
  {
  }

  lemma {:induction false} ValueJoin(a: seq<bool>, b: seq<bool>)
    ensures ValueOf(a + b) == ValueOf(a) + Pow2(|a|) * ValueOf(b)
  {
    if a == [] {
      assert a + b == b;
    } else {
      assert (a + b)[1..] == a[1..] + b;
      ValueJoin(a[1..], b);
      DoubleProduct(Pow2(|a| - 1), ValueOf(b));
    }
  }

  lemma NibbleValue(s: seq<bool>)
    requires |s| == 4
    ensures ValueOf(s) == (if s[0] then 1 else 0) + (if s[1] then 2 else 0) +
                          (if s[2] then 4 else 0) + (if s[3] then 8 else 0)
  {
    assert s[3..][1..] == [] && s[2..][1..] == s[3..] && s[1..][1..] == s[2..];
    assert ValueOf(s[3..]) == if s[3] then 1 else 0;
    assert ValueOf(s[2..]) == (if s[2] then 1 else 0) + 2 * ValueOf(s[3..]);
  }

  lemma OctetValue(b: Byte)
    ensures ValueOf(b) == ValueOf(b[..4]) + 16 * ValueOf(b[4..])
  {
    ValueJoin(b[..4], b[4..]);
    assert b == b[..4] + b[4..] && Pow2(4) == 16;
  }

  lemma PolyByte(b: Byte, v: nat)
    requires v == (if b[0] then 1 else 0) + (if b[1] then 2 else 0) + (if b[2] then 4 else 0) +
                  (if b[3] then 8 else 0) + (if b[4] then 16 else 0) + (if b[5] then 32 else 0) +
                  (if b[6] then 64 else 0) + (if b[7] then 128 else 0)
    ensures ValueOf(b) == v
  {
    OctetValue(b);
    NibbleValue(b[..4]);
    NibbleValue(b[4..]);
  }

  /** The polynomial is the one of the format. */
  lemma PolyIs()
    ensures ValueOf(Poly()) == 0x82F63B78
  {
    PolyByte(POLY_78, 0x78);
    PolyByte(POLY_3B, 0x3B);
    PolyByte(POLY_F6, 0xF6);
    PolyByte(POLY_82, 0x82);
    FourBytes(POLY_78, POLY_3B, POLY_F6, POLY_82);
  }

  lemma FourBytes(a: Byte, b: Byte, c: Byte, d: Byte)
    ensures ValueOf(a + b + c + d) == ValueOf(a) + 0x100 * (ValueOf(b) + 0x100 * (ValueOf(c) + 0x100 * ValueOf(d)))
  {
    assert Pow2(8) == 0x100;
    hide ValueOf, Pow2;
    ValueJoin(c, d);
    ValueJoin(b, c + d);
    ValueJoin(a, b + (c + d));
    assert a + b + c + d == a + (b + (c + d));
  }

  // ---- Linearity --------------------------------------------------------------------------------

  lemma BitLinear(x: Reg, y: Reg)
    ensures Bit(Xor(x, y)) == Xor(Bit(x), Bit(y))
  {
    forall i | 0 <= i < 32 ensures Bit(Xor(x, y))[i] == Xor(Bit(x), Bit(y))[i] {
      BitAt(x, i);
      BitAt(y, i);
      BitAt(Xor(x, y), i);
    }
  }

  /** What one bit does to each place of the register. */
  lemma BitAt(x: Reg, i: nat)
    requires i < 32
    ensures Bit(x)[i] == ((i < 31 && x[i + 1]) != (x[0] && Poly()[i]))
  {
  }

  /** The register is linear: it processes a sum of inputs as the sum of the outputs. */
  lemma {:induction false} BitsLinear(x: Reg, y: Reg, n: nat)
    ensures Bits(Xor(x, y), n) == Xor(Bits(x, n), Bits(y, n))
  {
    if n > 0 {
      BitsLinear(x, y, n - 1);
      BitLinear(Bits(x, n - 1), Bits(y, n - 1));
    }
  }

  /** While only zeros leave it, the register just shifts. */
  lemma {:induction false} ShiftsHigh(h: Reg, n: nat)
    requires n <= 32 && forall i :: 0 <= i < n ==> !h[i]
    ensures Bits(h, n) == Shr(h, n)
  {
    if n > 0 {
      ShiftsHigh(h, n - 1);
    } else {
      assert Shr(h, 0) == h;
    }
  }

  /** Adding a value after a step is adding it eight bits higher before the step. */
  function Shl8(y: Reg): Reg { Zeros(8) + y[..24] }

  lemma FeedsLater(x: Reg, y: Reg)
    requires forall i :: 24 <= i < 32 ==> !y[i]
    ensures Xor(Bits(x, 8), y) == Bits(Xor(x, Shl8(y)), 8)
  {
    ShiftsHigh(Shl8(y), 8);
    assert Shr(Shl8(y), 8) == y;
    BitsLinear(x, Shl8(y), 8);
  }

  // ---- The table loop is the bit-serial register ----------------------------------------------------

  function Low(x: Reg): Byte { x[..8] }

  /** The table step is the bit-serial step. */
  lemma TableStep(c: Reg, b: Byte)
    ensures Xor(Entry(Low(Xor(c, Wide(b)))), Shr(c, 8)) == Bits(Xor(c, Wide(b)), 8)
  {
    var x := Xor(c, Wide(b));
    var low, high: Reg := Wide(Low(x)), Zeros(8) + x[8..];
    assert Xor(low, high) == x;
    BitsLinear(low, high, 8);
    ShiftsHigh(high, 8);
    assert Shr(high, 8) == Shr(c, 8);
  }

  /** The table-driven loop computes the bit-serial checksum of every byte string. */
  method Crc(table: seq<Reg>, data: seq<Byte>) returns (crc: Reg)
    requires |table| == 256 && forall i :: 0 <= i < 256 ==> table[i] == Entry(BitsOf(i, 8))
    ensures crc == Checksum(data)
  {
    var c := Init();
    for n := 0 to |data|
      invariant c == Feed(Init(), data[..n])
    {
      assert data[..n + 1][..n] == data[..n];
      TableStep(c, data[n]);
      var index := ValueOf(Low(Xor(c, Wide(data[n]))));
      ValueOfByte(Low(Xor(c, Wide(data[n]))), 8);
      BitsOfValue(Low(Xor(c, Wide(data[n]))));
      c := Xor(table[index], Shr(c, 8));
    }
    assert data[..|data|] == data;
    crc := Xor(c, Init());
  }

  // ---- Error detection --------------------------------------------------------------------------

  lemma XorCancels(x: Reg, y: Reg, z: Reg)
    requires Xor(x, z) == Xor(y, z)
    ensures x == y
  {
    forall i | 0 <= i < 32 ensures x[i] == y[i] {
      assert Xor(x, z)[i] == Xor(y, z)[i];
    }
  }

  lemma XorCommutes(x: Reg, y: Reg)
    ensures Xor(x, y) == Xor(y, x)
  {
  }

  lemma XorAssociates(x: Reg, y: Reg, z: Reg)
    ensures Xor(Xor(x, y), z) == Xor(x, Xor(y, z))
  {
  }

  /** The bit that leaves can be read off the top of the register, so no step loses information. */
  lemma BitInjective(x: Reg, y: Reg)
    requires Bit(x) == Bit(y)
    ensures x == y
  {
    BitAt(x, 31);
    BitAt(y, 31);
    assert Poly()[31];
    forall i | 0 < i < 32 ensures x[i] == y[i] {
      BitAt(x, i - 1);
      BitAt(y, i - 1);
    }
  }

  lemma {:induction false} BitsInjective(x: Reg, y: Reg, n: nat)
    requires Bits(x, n) == Bits(y, n)
    ensures x == y
  {
    if n > 0 {
      BitInjective(Bits(x, n - 1), Bits(y, n - 1));
      BitsInjective(x, y, n - 1);
    }
  }

  /** Registers that differ stay different through any common suffix. */
  lemma {:induction false} FeedInjective(x: Reg, y: Reg, data: seq<Byte>)
    requires Feed(x, data) == Feed(y, data)
    ensures x == y
    decreases |data|
  {
    if data != [] {
      var n := |data| - 1;
      var a, b := Feed(x, data[..n]), Feed(y, data[..n]);
      BitsInjective(Xor(a, Wide(data[n])), Xor(b, Wide(data[n])), 8);
      XorCancels(a, b, Wide(data[n]));
      FeedInjective(x, y, data[..n]);
    }
  }

  lemma {:induction false} FeedJoin(c: Reg, a: seq<Byte>, b: seq<Byte>)
    ensures Feed(c, a + b) == Feed(Feed(c, a), b)
    decreases |b|
  {
    if b == [] {
      assert a + b == a;
    } else {
      var n := |b| - 1;
      assert (a + b)[..|a + b| - 1] == a + b[..n];
      FeedJoin(c, a, b[..n]);
    }
  }

  /** Up to four bytes as the register sees them: the first in the low bits. */
  function Word(w: seq<Byte>): Reg
    requires |w| <= 4
  {
    if w == [] then Zeros(32) else Xor(Wide(w[0]), Shl8(Word(w[1..])))
  }

  lemma {:induction false} WordTop(w: seq<Byte>)
    requires |w| <= 4
    ensures forall i :: 8 * |w| <= i < 32 ==> !Word(w)[i]
  {
    if w != [] {
      WordTop(w[1..]);
    }
  }

  /** Up to four bytes go through the register as one word. */
  lemma {:induction false} FeedIsWord(r: Reg, w: seq<Byte>)
    requires |w| <= 4
    ensures Feed(r, w) == Bits(Xor(r, Word(w)), 8 * |w|)
    decreases |w|
  {
    if w == [] {
      assert Xor(r, Zeros(32)) == r;
    } else {
      var first, rest := Bits(Xor(r, Wide(w[0])), 8), w[1..];
      assert w == [w[0]] + rest && [w[0]][..0] == [];
      FeedJoin(r, [w[0]], rest);
      FeedIsWord(first, rest);
      WordTop(rest);
      FeedsLater(Xor(r, Wide(w[0])), Word(rest));
      XorAssociates(r, Wide(w[0]), Shl8(Word(rest)));
      BitsJoin(Xor(r, Word(w)), 8, 8 * |rest|);
    }
  }

  lemma {:induction false} BitsJoin(c: Reg, m: nat, n: nat)
    ensures Bits(Bits(c, m), n) == Bits(c, m + n)
  {
    if n > 0 {
      BitsJoin(c, m, n - 1);
      assert Bits(c, m + n) == Bit(Bits(c, m + n - 1));
    }
  }

  lemma {:induction false} WordInjective(v: seq<Byte>, w: seq<Byte>)
    requires |v| == |w| <= 4 && Word(v) == Word(w)
    ensures v == w
  {
    if v != [] {
      var x, y := Word(v[1..]), Word(w[1..]);
      WordTop(v[1..]);
      WordTop(w[1..]);
      forall i | 0 <= i < 8 ensures v[0][i] == w[0][i] {
        assert Word(v)[i] == Word(w)[i];
      }
      forall i | 0 <= i < 24 ensures x[i] == y[i] {
        assert Word(v)[i + 8] == Word(w)[i + 8];
      }
      assert v[0] == w[0] && x == y;
      WordInjective(v[1..], w[1..]);
      assert v == [v[0]] + v[1..] && w == [w[0]] + w[1..];
    }
  }

  /** Two copies with one checksum had one register where the damage ended. */
  lemma SameAfterDamage(before: seq<Byte>, v: seq<Byte>, w: seq<Byte>, after: seq<Byte>)
    requires Checksum(before + v + after) == Checksum(before + w + after)
    ensures Feed(Feed(Init(), before), v) == Feed(Feed(Init(), before), w)
  {
    XorCancels(Feed(Init(), before + v + after), Feed(Init(), before + w + after), Init());
    FeedJoin(Init(), before + v, after);
    FeedJoin(Init(), before + w, after);
    FeedInjective(Feed(Init(), before + v), Feed(Init(), before + w), after);
    FeedJoin(Init(), before, v);
    FeedJoin(Init(), before, w);
  }

  /**
    Damage confined to at most four consecutive bytes always changes the checksum, wherever it is
    and whatever surrounds it; one damaged byte is the case |v| == 1.
   */
  lemma BurstDetected(before: seq<Byte>, v: seq<Byte>, w: seq<Byte>, after: seq<Byte>)
    requires |v| == |w| <= 4
    ensures Checksum(before + v + after) == Checksum(before + w + after) <==> v == w
  {
    if Checksum(before + v + after) == Checksum(before + w + after) {
      var r := Feed(Init(), before);
      SameAfterDamage(before, v, w, after);
      FeedIsWord(r, v);
      FeedIsWord(r, w);
      BitsInjective(Xor(r, Word(v)), Xor(r, Word(w)), 8 * |v|);
      XorCommutes(r, Word(v));
      XorCommutes(r, Word(w));
      XorCancels(Word(v), Word(w), r);
      WordInjective(v, w);
    }
  }

  // ---- The preset -------------------------------------------------------------------------------------

  /** Every bit the other way round. */
  function Complement(x: Reg): Reg { seq(32, i requires 0 <= i < 32 => !x[i]) }

  function Flip(w: seq<Byte>): (r: seq<Byte>)
    ensures |r| == |w|
  {
    seq(|w|, j requires 0 <= j < |w| => seq(8, i requires 0 <= i < 8 => !w[j][i]))
  }

  /** The word of some bytes holds their bits, in order. */
  lemma {:induction false} WordAt(w: seq<Byte>, i: nat)
    requires |w| <= 4 && i < 8 * |w|
    ensures Word(w)[i] == w[i / 8][i % 8]
  {
    if i >= 8 {
      WordAt(w[1..], i - 8);
      assert w[1..][(i - 8) / 8] == w[i / 8];
    }
  }

  lemma FlippedWord(w: seq<Byte>)
    requires |w| == 4
    ensures Word(Flip(w)) == Complement(Word(w))
  {
    forall i | 0 <= i < 32 ensures Word(Flip(w))[i] == !Word(w)[i] {
      WordAt(w, i);
      WordAt(Flip(w), i);
    }
  }

  /**
    The register is preset to ones and inverted at the end: the checksum is the complement of feeding an
    empty register the same data with the first four bytes flipped.
   */
  lemma PresetFlips(w: seq<Byte>, rest: seq<Byte>)
    requires |w| == 4
    ensures Checksum(w + rest) == Complement(Feed(Zeros(32), Flip(w) + rest))
  {
    hide Feed, Word, Bits, Flip;
    FeedJoin(Init(), w, rest);
    FeedJoin(Zeros(32), Flip(w), rest);
    FeedIsWord(Init(), w);
    FeedIsWord(Zeros(32), Flip(w));
    FlippedWord(w);
    assert Xor(Init(), Word(w)) == Complement(Word(w));
    assert Xor(Zeros(32), Complement(Word(w))) == Complement(Word(w));
    var r := Feed(Zeros(32), Flip(w) + rest);
    assert Xor(r, Init()) == Complement(r);
  }

  // ---- A check value ----------------------------------------------------------------------------------

  lemma {:induction false} ValueOfBits(v: nat, n: nat)
    requires v < Pow2(n)
    ensures ValueOf(BitsOf(v, n)) == v
  {
    if n > 0 {
      ValueOfBits(v / 2, n - 1);
      assert BitsOf(v, n)[1..] == BitsOf(v / 2, n - 1);
    }
  }

  /** The byte `a` after a shift, with the lowest bit of the next one on top. */
  function Shifted(a: Byte, b: Byte): Byte { a[1..] + [b[0]] }

  /** A byte of the polynomial added to it, if a one left the register. */
  function Mixed(a: Byte, p: Byte, on: bool): Byte { seq(8, i requires 0 <= i < 8 => a[i] != (on && p[i])) }

  /** One step of a register, byte by byte. */
  lemma StepBytes(a: Byte, b: Byte, c: Byte, d: Byte)
    ensures Bit(a + b + c + d)
            == Mixed(Shifted(a, b), POLY_78, a[0]) + Mixed(Shifted(b, c), POLY_3B, a[0])
               + Mixed(Shifted(c, d), POLY_F6, a[0]) + Mixed(Shifted(d, Zeros(8)), POLY_82, a[0])
  {
    var r: Reg := a + b + c + d;
    var low: seq<bool> := Mixed(Shifted(a, b), POLY_78, a[0]) + Mixed(Shifted(b, c), POLY_3B, a[0]);
    var high: seq<bool> := Mixed(Shifted(c, d), POLY_F6, a[0]) + Mixed(Shifted(d, Zeros(8)), POLY_82, a[0]);
    forall i | 0 <= i < 32 ensures Bit(r)[i] == (low + high)[i] {
      BitOf(r, i);
      PolyAt(i);
    }
  }

  lemma BitOf(r: Reg, i: nat)
    requires i < 32
    ensures Bit(r)[i] == ((if i < 31 then r[i + 1] else false) != (r[0] && Poly()[i]))
  {
  }

  lemma PolyAt(i: nat)
    requires i < 32
    ensures Poly()[i] == if i < 8 then POLY_78[i] else if i < 16 then POLY_3B[i - 8]
                         else if i < 24 then POLY_F6[i - 16] else POLY_82[i - 24]
  {
  }

  // The bytes the register goes through when a zero byte is fed to it.
  const X_09: Byte := [true, false, false, true, false, false, false, false]
  const X_2F: Byte := [true, true, true, true, false, true, false, false]
  const X_3B: Byte := [true, true, false, true, true, true, false, false]
  const X_45: Byte := [true, false, true, false, false, false, true, false]
  const X_48: Byte := [false, false, false, true, false, false, true, false]
  const X_51: Byte := [true, false, false, false, true, false, true, false]
  const X_52: Byte := [false, true, false, false, true, false, true, false]
  const X_53: Byte := [true, true, false, false, true, false, true, false]
  const X_57: Byte := [true, true, true, false, true, false, true, false]
  const X_5A: Byte := [false, true, false, true, true, false, true, false]
  const X_5E: Byte := [false, true, true, true, true, false, true, false]
  const X_5F: Byte := [true, true, true, true, true, false, true, false]
  const X_72: Byte := [false, true, false, false, true, true, true, false]
  const X_7D: Byte := [true, false, true, true, true, true, true, false]
  const X_7E: Byte := [false, true, true, true, true, true, true, false]
  const X_82: Byte := [false, true, false, false, false, false, false, true]
  const X_87: Byte := [true, true, true, false, false, false, false, true]
  const X_8A: Byte := [false, true, false, true, false, false, false, true]
  const X_90: Byte := [false, false, false, false, true, false, false, true]
  const X_91: Byte := [true, false, false, false, true, false, false, true]
  const X_AC: Byte := [false, false, true, true, false, true, false, true]
  const X_AD: Byte := [true, false, true, true, false, true, false, true]
  const X_AE: Byte := [false, true, true, true, false, true, false, true]
  const X_BD: Byte := [true, false, true, true, true, true, false, true]
  const X_C4: Byte := [false, false, true, false, false, false, true, true]
  const X_C8: Byte := [false, false, false, true, false, false, true, true]
  const X_CF: Byte := [true, true, true, true, false, false, true, true]
  const X_D2: Byte := [false, true, false, false, true, false, true, true]
  const X_D9: Byte := [true, false, false, true, true, false, true, true]
  const X_E5: Byte := [true, false, true, false, false, true, true, true]
  const X_E9: Byte := [true, false, false, true, false, true, true, true]
  const X_FC: Byte := [false, false, true, true, true, true, true, true]
  const X_FD: Byte := [true, false, true, true, true, true, true, true]
  const X_FF: Byte := [true, true, true, true, true, true, true, true]

  lemma Step1()
    ensures Bit(X_FF + X_FF + X_FF + X_FF) == X_87 + X_C4 + X_09 + X_FD
  {
    StepBytes(X_FF, X_FF, X_FF, X_FF);
    hide Bit;
    assert Mixed(Shifted(X_FF, X_FF), POLY_78, true) == X_87;
    assert Mixed(Shifted(X_FF, X_FF), POLY_3B, true) == X_C4;
    assert Mixed(Shifted(X_FF, X_FF), POLY_F6, true) == X_09;
    assert Mixed(Shifted(X_FF, Zeros(8)), POLY_82, true) == X_FD;
  }

  lemma Step2()
    ensures Bit(X_87 + X_C4 + X_09 + X_FD) == X_3B + X_D9 + X_72 + X_FC
  {
    StepBytes(X_87, X_C4, X_09, X_FD);
    hide Bit;
    assert Mixed(Shifted(X_87, X_C4), POLY_78, true) == X_3B;
    assert Mixed(Shifted(X_C4, X_09), POLY_3B, true) == X_D9;
    assert Mixed(Shifted(X_09, X_FD), POLY_F6, true) == X_72;
    assert Mixed(Shifted(X_FD, Zeros(8)), POLY_82, true) == X_FC;
  }

  lemma Step3()
    ensures Bit(X_3B + X_D9 + X_72 + X_FC) == X_E5 + X_57 + X_CF + X_FC
  {
    StepBytes(X_3B, X_D9, X_72, X_FC);
    hide Bit;
    assert Mixed(Shifted(X_3B, X_D9), POLY_78, true) == X_E5;
    assert Mixed(Shifted(X_D9, X_72), POLY_3B, true) == X_57;
    assert Mixed(Shifted(X_72, X_FC), POLY_F6, true) == X_CF;
    assert Mixed(Shifted(X_FC, Zeros(8)), POLY_82, true) == X_FC;
  }

  lemma Step4()
    ensures Bit(X_E5 + X_57 + X_CF + X_FC) == X_8A + X_90 + X_91 + X_FC
  {
    StepBytes(X_E5, X_57, X_CF, X_FC);
    hide Bit;
    assert Mixed(Shifted(X_E5, X_57), POLY_78, true) == X_8A;
    assert Mixed(Shifted(X_57, X_CF), POLY_3B, true) == X_90;
    assert Mixed(Shifted(X_CF, X_FC), POLY_F6, true) == X_91;
    assert Mixed(Shifted(X_FC, Zeros(8)), POLY_82, true) == X_FC;
  }

  lemma Step5()
    ensures Bit(X_8A + X_90 + X_91 + X_FC) == X_45 + X_C8 + X_48 + X_7E
  {
    StepBytes(X_8A, X_90, X_91, X_FC);
    hide Bit;
    assert Mixed(Shifted(X_8A, X_90), POLY_78, false) == X_45;
    assert Mixed(Shifted(X_90, X_91), POLY_3B, false) == X_C8;
    assert Mixed(Shifted(X_91, X_FC), POLY_F6, false) == X_48;
    assert Mixed(Shifted(X_FC, Zeros(8)), POLY_82, false) == X_7E;
  }

  lemma Step6()
    ensures Bit(X_45 + X_C8 + X_48 + X_7E) == X_5A + X_5F + X_D2 + X_BD
  {
    StepBytes(X_45, X_C8, X_48, X_7E);
    hide Bit;
    assert Mixed(Shifted(X_45, X_C8), POLY_78, true) == X_5A;
    assert Mixed(Shifted(X_C8, X_48), POLY_3B, true) == X_5F;
    assert Mixed(Shifted(X_48, X_7E), POLY_F6, true) == X_D2;
    assert Mixed(Shifted(X_7E, Zeros(8)), POLY_82, true) == X_BD;
  }

  lemma Step7()
    ensures Bit(X_5A + X_5F + X_D2 + X_BD) == X_AD + X_2F + X_E9 + X_5E
  {
    StepBytes(X_5A, X_5F, X_D2, X_BD);
    hide Bit;
    assert Mixed(Shifted(X_5A, X_5F), POLY_78, false) == X_AD;
    assert Mixed(Shifted(X_5F, X_D2), POLY_3B, false) == X_2F;
    assert Mixed(Shifted(X_D2, X_BD), POLY_F6, false) == X_E9;
    assert Mixed(Shifted(X_BD, Zeros(8)), POLY_82, false) == X_5E;
  }

  lemma Step8()
    ensures Bit(X_AD + X_2F + X_E9 + X_5E) == X_AE + X_AC + X_82 + X_AD
  {
    StepBytes(X_AD, X_2F, X_E9, X_5E);
    hide Bit;
    assert Mixed(Shifted(X_AD, X_2F), POLY_78, true) == X_AE;
    assert Mixed(Shifted(X_2F, X_E9), POLY_3B, true) == X_AC;
    assert Mixed(Shifted(X_E9, X_5E), POLY_F6, true) == X_82;
    assert Mixed(Shifted(X_5E, Zeros(8)), POLY_82, true) == X_AD;
  }

  /** Eight steps from all ones. */
  lemma ZeroByteRegister()
    ensures Feed(Init(), [Zeros(8)]) == X_AE + X_AC + X_82 + X_AD
  {
    hide Bit;
    assert [Zeros(8)][..0] == [];
    assert Xor(Init(), Wide(Zeros(8))) == Init();
    assert Init() == X_FF + X_FF + X_FF + X_FF;
    var r := Init();
    assert Bits(r, 0) == r;
    Step1();
    assert Bits(r, 1) == X_87 + X_C4 + X_09 + X_FD;
    Step2();
    assert Bits(r, 2) == X_3B + X_D9 + X_72 + X_FC;
    Step3();
    assert Bits(r, 3) == X_E5 + X_57 + X_CF + X_FC;
    Step4();
    assert Bits(r, 4) == X_8A + X_90 + X_91 + X_FC;
    Step5();
    assert Bits(r, 5) == X_45 + X_C8 + X_48 + X_7E;
    Step6();
    assert Bits(r, 6) == X_5A + X_5F + X_D2 + X_BD;
    Step7();
    assert Bits(r, 7) == X_AD + X_2F + X_E9 + X_5E;
    Step8();
    assert Bits(r, 8) == X_AE + X_AC + X_82 + X_AD;
  }

  /** The checksum of one zero byte. */
  lemma ZeroByteValue()
    ensures ValueOf(Checksum([Zeros(8)])) == 0x527D5351
  {
    ZeroByteRegister();
    assert Xor(X_AE + X_AC + X_82 + X_AD, Init()) == X_51 + X_53 + X_7D + X_52;
    PolyByte(X_51, 0x51);
    PolyByte(X_53, 0x53);
    PolyByte(X_7D, 0x7D);
    PolyByte(X_52, 0x52);
    FourBytes(X_51, X_53, X_7D, X_52);
  }
}
