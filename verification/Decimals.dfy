/**
  Printers and parsers of decimal numbers: fixed-point values in the journal tools (tools/journal_dump.py
  and tools/pnl_report.py) and the shortest form of a double in the strategy parameters
  (python/fastmm/strategy.py).
 */
module Decimals {
  import opened Arith
  import opened Digits
  import opened Wrappers

  const SCALE := 100_000_000

  lemma ScaleIs()
    ensures Pow10(8) == SCALE
  {
    assert Pow10(4) == 10_000;
    Pow10Plus(4, 4);
  }

  // ---- Cutting at a character ------------------------------------------------------------------------------

  /** str.partition at one of `cs`: what is before, whether there is one, and what is behind. */
  datatype Cut = Cut(before: string, found: bool, after: string)

  function CutAt(s: string, cs: set<char>): Cut {
    if s == [] then Cut([], false, [])
    else if s[0] in cs then Cut([], true, s[1..])
    else
      var r := CutAt(s[1..], cs);
      Cut([s[0]] + r.before, r.found, r.after)
  }

  ghost predicate Without(s: string, cs: set<char>) { forall i :: 0 <= i < |s| ==> s[i] !in cs }

  lemma {:induction false} CutNone(s: string, cs: set<char>)
    requires Without(s, cs)
    ensures CutAt(s, cs) == Cut(s, false, [])
  {
    if s != [] {
      CutNone(s[1..], cs);
      assert s == [s[0]] + s[1..];
    }
  }

  lemma {:induction false} CutFound(a: string, c: char, b: string, cs: set<char>)
    requires Without(a, cs) && c in cs
    ensures CutAt(a + [c] + b, cs) == Cut(a, true, b)
  {
    var s := a + [c] + b;
    if a == [] {
      assert s[0] == c && s[1..] == b;
    } else {
      assert s[0] == a[0] && s[1..] == a[1..] + [c] + b;
      CutFound(a[1..], c, b, cs);
      assert a == [a[0]] + a[1..];
    }
  }

  // ---- Fixed point: dec and raw --------------------------------------------------------------------------------

  function Sign(negative: bool): string { if negative then "-" else "" }

  function Signed(negative: bool, m: nat): int { if negative then 0 - m else m }

  /** The printer: no fraction when there is none, and no trailing zeros in one. */
  function Dec(n: int): string {
    var m: nat := if n < 0 then -n else n;
    var whole, frac := m / SCALE, m % SCALE;
    if frac == 0 then Sign(n < 0) + Str(whole)
    else Strip(Sign(n < 0) + Str(whole) + "." + Padded(frac, 8))
  }

  /** int() of a string of digits with an optional sign; the empty string counts as 0. */
  function IntOf(s: string): Option<int> {
    if s == [] then Some(0)
    else
      var body := if s[0] == '-' || s[0] == '+' then s[1..] else s;
      if body == [] || !AllDigits(body) then None
      else Some(Signed(s[0] == '-', Val(body)))
  }

  function Abs(x: int): nat { if x < 0 then -x else x }

  /** The parser of the journal writer: eight decimals, further ones cut off. */
  function Raw(s: string): Option<int> {
    var c := CutAt(s, {'.'});
    var frac := (c.after + Zeros(8))[..8];
    var whole := IntOf(c.before);
    if whole.None? || !AllDigits(frac) then None
    else
      var m := Abs(whole.value) * SCALE + Val(frac);
      Some(Signed(c.before != [] && c.before[0] == '-', m))
  }

  /** Digits are not among the other characters of a number. */
  lemma DigitsHave(s: string, cs: set<char>)
    requires AllDigits(s) && forall c :: c in cs ==> !IsDigit(c)
    ensures Without(s, cs)
  {
    forall i | 0 <= i < |s| ensures s[i] !in cs { assert IsDigit(s[i]); }
  }

  lemma WholeReads(negative: bool, whole: nat)
    ensures var w := Sign(negative) + Str(whole);
            && Without(w, {'.'}) && w != [] && (w[0] == '-' <==> negative)
            && IntOf(w) == Some(Signed(negative, whole))
  {
    hide Str, Val;
    var w := Sign(negative) + Str(whole);
    ValStr(whole);
    assert IsDigit(Str(whole)[0]);
    if negative {
      assert w[1..] == Str(whole);
    } else {
      assert w == Str(whole);
    }
    DigitsHave(Str(whole), {'.'});
    forall i | 0 <= i < |w| ensures w[i] != '.' {
      if i >= |Sign(negative)| { assert w[i] == Str(whole)[i - |Sign(negative)|]; }
    }
  }

  /** Eight digits survive losing their trailing zeros. */
  lemma FractionReads(f: string)
    requires |f| == 8 && AllDigits(f)
    ensures (Strip(f) + Zeros(8))[..8] == f
  {
    StripIs(f);
    var n := |Strip(f)|;
    forall i | 0 <= i < 8 ensures (Strip(f) + Zeros(8))[i] == f[i] {
      assert f[i] == (Strip(f) + Zeros(8 - n))[i];
    }
  }

  /** Printing and reading gives every number back. */
  lemma RawDec(n: int)
    ensures Raw(Dec(n)) == Some(n)
  {
    hide Val, Str, Padded, Strip, CutAt, IntOf;
    var m: nat := if n < 0 then -n else n;
    var whole, frac := m / SCALE, m % SCALE;
    var w := Sign(n < 0) + Str(whole);
    WholeReads(n < 0, whole);
    DivModIs(m, SCALE);
    if frac == 0 {
      CutNone(w, {'.'});
      ValZeros(8);
      assert ([] + Zeros(8))[..8] == Zeros(8);
    } else {
      var f := Padded(frac, 8);
      ScaleIs();
      ValPadded(frac, 8);
      assert w + "." + f == (w + ".") + f;
      StripTail(w + ".", f);
      CutFound(w, '.', Strip(f), {'.'});
      FractionReads(f);
    }
  }

  lemma {:induction false} ValBelow(s: string)
    requires AllDigits(s)
    ensures Val(s) < Pow10(|s|)
  {
    if s != [] {
      ValBelow(s[..|s| - 1]);
    }
  }

  /** The first eight digits of a fraction, filled up with zeros: what is behind them is less than a unit. */
  lemma EightDigits(f: string)
    requires AllDigits(f)
    ensures var g := (f + Zeros(8))[..8];
            AllDigits(g) && Val(g) * Pow10(|f|) <= Val(f) * SCALE < (Val(g) + 1) * Pow10(|f|)
  {
    hide Val, Pow10;
    var g := (f + Zeros(8))[..8];
    ScaleIs();
    if |f| <= 8 {
      var z := Zeros(8 - |f|);
      assert g == f + z;
      ValJoin(f, z);
      ValZeros(8 - |f|);
      Pow10Plus(8 - |f|, |f|);
      Scales(Val(f), Pow10(8 - |f|), Pow10(|f|));
    } else {
      var rest := f[8..];
      assert g == f[..8] && f == g + rest;
      ValJoin(g, rest);
      ValBelow(rest);
      Pow10Plus(8, |rest|);
      Truncates(Val(g), Val(rest), Pow10(|rest|));
    }
  }

  lemma Scales(v: nat, p: nat, q: nat)
    requires p * q == SCALE && q > 0
    ensures v * p * q == v * SCALE && v * SCALE < (v * p + 1) * q
  {
    assert v * p * q == v * (p * q);
    assert (v * p + 1) * q == v * p * q + q;
  }

  lemma Truncates(g: nat, r: nat, p: nat)
    requires r < p
    ensures g * (SCALE * p) <= (g * p + r) * SCALE < (g + 1) * (SCALE * p)
  {
    assert g * (SCALE * p) == g * p * SCALE;
    assert (g + 1) * (SCALE * p) == g * p * SCALE + p * SCALE;
  }

  lemma SignedDigits(negative: bool, w: string)
    requires w != [] && AllDigits(w)
    ensures var s := Sign(negative) + w;
            && Without(s, {'.'}) && s != [] && (s[0] == '-' <==> negative) && IntOf(s) == Some(Signed(negative, Val(w)))
  {
    hide Val;
    var s := Sign(negative) + w;
    assert IsDigit(w[0]);
    if negative { assert s[1..] == w; } else { assert s == w; }
    DigitsHave(w, {'.'});
    forall i | 0 <= i < |s| ensures s[i] != '.' {
      if i >= |Sign(negative)| { assert s[i] == w[i - |Sign(negative)|]; }
    }
  }

  lemma RawAtPoint(negative: bool, w: string, f: string, g: string)
    requires w != [] && AllDigits(w) && AllDigits(g) && g == (f + Zeros(8))[..8]
    ensures Raw(Sign(negative) + w + ['.'] + f) == Some(Signed(negative, Val(w) * SCALE + Val(g)))
  {
    hide Val, CutAt, IntOf, Without;
    var s := Sign(negative) + w;
    SignedDigits(negative, w);
    CutFound(s, '.', f, {'.'});
  }

  /** Digits with a point are read as their value truncated to eight places, however many follow the point. */
  lemma RawTruncates(negative: bool, w: string, f: string)
    requires w != [] && AllDigits(w) && AllDigits(f)
    ensures var r := Raw(Sign(negative) + w + ['.'] + f);
            && r.Some? && AllDigits(w + f) && r.value == Signed(negative, Abs(r.value))
            && Abs(r.value) * Pow10(|f|) <= Val(w + f) * SCALE < (Abs(r.value) + 1) * Pow10(|f|)
  {
    hide Val, Pow10, Raw;
    var g := (f + Zeros(8))[..8];
    EightDigits(f);
    ValJoin(w, f);
    RawAtPoint(negative, w, f, g);
    Shifts(Val(w), Val(g), Val(f), Pow10(|f|));
  }

  lemma Shifts(w: nat, g: nat, f: nat, p: nat)
    requires g * p <= f * SCALE < (g + 1) * p
    ensures (w * SCALE + g) * p <= (w * p + f) * SCALE < (w * SCALE + g + 1) * p
  {
    assert (w * SCALE + g) * p == w * p * SCALE + g * p;
    assert (w * SCALE + g + 1) * p == w * p * SCALE + (g + 1) * p;
  }

  // ---- The grammar of numbers ---------------------------------------------------------------------------------

  /** m * 10^e. */
  datatype Num = Num(m: nat, e: int)

  function Min(x: int, y: int): int { if x <= y then x else y }

  /** Two forms of one number. */
  predicate Same(a: Num, b: Num) {
    var lo := Min(a.e, b.e);
    a.m * Pow10(a.e - lo) == b.m * Pow10(b.e - lo)
  }

  lemma Scaled(v: nat, i: nat, k: nat)
    ensures v * Pow10(i) * Pow10(k) == v * Pow10(i + k)
  {
    Pow10Plus(i, k);
    assert v * Pow10(i) * Pow10(k) == v * (Pow10(i) * Pow10(k));
  }

  lemma SameScaled(v: nat, e: int, i: nat, j: nat)
    ensures Same(Num(v * Pow10(i), e - i), Num(v * Pow10(j), e - j))
  {
    hide Same, Pow10;
    if i <= j {
      Scaled(v, i, j - i);
      SameIf(Num(v * Pow10(i), e - i), Num(v * Pow10(j), e - j), j - i);
    } else {
      Scaled(v, j, i - j);
      SameIf(Num(v * Pow10(j), e - j), Num(v * Pow10(i), e - i), i - j);
    }
  }

  lemma SameIf(a: Num, b: Num, d: nat)
    requires a.e == b.e + d && b.m == a.m * Pow10(d)
    ensures Same(a, b) && Same(b, a)
  {
    assert Pow10(0) == 1;
    hide Pow10;
    assert Min(a.e, b.e) == b.e && Min(b.e, a.e) == b.e && a.e - b.e == d;
  }

  /** Digits, perhaps with a point among them. */
  function ReadMantissa(s: string): Option<Num> {
    var c := CutAt(s, {'.'});
    if AllDigits(c.before) && AllDigits(c.after) && c.before + c.after != []
    then Some(Num(Val(c.before + c.after), -|c.after|))
    else None
  }

  /** A mantissa, perhaps with an exponent. */
  function ReadBody(s: string): Option<Num> {
    var c := CutAt(s, {'e', 'E'});
    var m := ReadMantissa(c.before);
    if m.None? then None
    else if !c.found then m
    else if c.after == [] || IntOf(c.after).None? then None
    else Some(Num(m.value.m, m.value.e + IntOf(c.after).value))
  }

  /** What a string of the accepted grammar denotes: its sign and magnitude. */
  datatype Real = Real(negative: bool, size: Num)

  function Read(s: string): Option<Real> {
    var signed := s != [] && (s[0] == '-' || s[0] == '+');
    var body := ReadBody(if signed then s[1..] else s);
    if body.None? then None else Some(Real(signed && s[0] == '-', body.value))
  }

  lemma PlainReads(a: string)
    requires AllDigits(a) && a != []
    ensures ReadBody(a) == Some(Num(Val(a), 0)) && ReadMantissa(a) == Some(Num(Val(a), 0)) && Without(a, {'e', 'E'})
  {
    hide Val, CutAt;
    DigitsHave(a, {'.'});
    DigitsHave(a, {'e', 'E'});
    CutNone(a, {'.'});
    CutNone(a, {'e', 'E'});
    assert a + [] == a;
  }

  lemma PointReads(a: string, b: string)
    requires AllDigits(a) && AllDigits(b) && a != []
    ensures var s := a + ['.'] + b;
            && AllDigits(a + b) && Without(s, {'e', 'E'})
            && ReadBody(s) == Some(Num(Val(a + b), -|b|)) && ReadMantissa(s) == Some(Num(Val(a + b), -|b|))
  {
    var s := a + ['.'] + b;
    DigitsHave(a, {'.'});
    DigitsHave(a, {'e', 'E'});
    DigitsHave(b, {'e', 'E'});
    CutFound(a, '.', b, {'.'});
    assert Without(s, {'e', 'E'});
    CutNone(s, {'e', 'E'});
  }

  lemma ExponentReads(mant: string, negative: bool, x: nat)
    requires Without(mant, {'e', 'E'}) && ReadMantissa(mant).Some?
    ensures var m := ReadMantissa(mant).value;
            ReadBody(mant + ['e'] + ([if negative then '-' else '+'] + Padded(x, 2)))
            == Some(Num(m.m, m.e + Signed(negative, x)))
  {
    hide Val, Padded, CutAt, ReadMantissa;
    var tail := [if negative then '-' else '+'] + Padded(x, 2);
    CutFound(mant, 'e', tail, {'e', 'E'});
    assert tail[1..] == Padded(x, 2);
    ValPadded(x, 2);
  }

  // ---- The shortest form of a double --------------------------------------------------------------------------

  function Chars(digits: seq<nat>): (r: string)
    requires forall i :: 0 <= i < |digits| ==> digits[i] < 10
    ensures |r| == |digits| && AllDigits(r)
  {
    seq(|digits|, i requires 0 <= i < |digits| => CharOf(digits[i]))
  }

  /** Significant digits without trailing zeros. */
  function Short(s: string): (r: string)
    requires AllDigits(s) && s != []
    ensures AllDigits(r) && 0 < |r| <= |s|
  {
    if Strip(s) == [] then "0" else Strip(s)
  }

  function Fixed(ds: string, exp: int): string
    requires ds != []
  {
    var n := |ds|;
    if exp >= 0 then ds + Zeros(exp)
    else if n + exp > 0 then ds[..n + exp] + ['.'] + ds[n + exp..]
    else "0" + ['.'] + (Zeros(-(n + exp)) + ds)
  }

  function Scientific(ds: string, exp: int): string
    requires ds != []
  {
    var e10 := exp + |ds| - 1;
    var mant := if |ds| > 1 then ds[..1] + ['.'] + ds[1..] else ds;
    mant + ['e'] + ([if e10 < 0 then '-' else '+'] + Padded(Abs(e10), 2))
  }

  /** A double whose shortest decimal form is the digits times 10^exp (Decimal(repr(x)).as_tuple()). */
  function FormatDouble(negative: bool, digits: seq<nat>, exp: int): string
    requires digits != [] && forall i :: 0 <= i < |digits| ==> digits[i] < 10
  {
    var s := Chars(digits);
    var ds := Short(s);
    var e := exp + (|s| - |ds|);
    var fixed, sci := Fixed(ds, e), Scientific(ds, e);
    Sign(negative) + if |fixed| <= |sci| then fixed else sci
  }

  lemma FixedReads(ds: string, exp: int)
    requires ds != [] && AllDigits(ds)
    ensures ReadBody(Fixed(ds, exp)) == Some(if exp >= 0 then Num(Val(ds) * Pow10(exp), 0) else Num(Val(ds), exp))
    ensures Fixed(ds, exp) != [] && IsDigit(Fixed(ds, exp)[0])
  {
    hide ReadBody, ReadMantissa, Val;
    var n := |ds|;
    if exp >= 0 {
      ValZeros(exp);
      ValJoin(ds, Zeros(exp));
      PlainReads(ds + Zeros(exp));
    } else if n + exp > 0 {
      PointReads(ds[..n + exp], ds[n + exp..]);
      assert ds[..n + exp] + ds[n + exp..] == ds;
    } else {
      var z := Zeros(-(n + exp));
      PointReads("0", z + ds);
      assert "0" + (z + ds) == Zeros(-(n + exp) + 1) + ds;
      ValZeros(-(n + exp) + 1);
      ValJoin(Zeros(-(n + exp) + 1), ds);
    }
  }

  lemma ScientificReads(ds: string, exp: int)
    requires ds != [] && AllDigits(ds)
    ensures ReadBody(Scientific(ds, exp)) == Some(Num(Val(ds), exp))
    ensures Scientific(ds, exp) != [] && IsDigit(Scientific(ds, exp)[0])
  {
    hide ReadBody, ReadMantissa, Val, Padded;
    var e10 := exp + |ds| - 1;
    var mant := if |ds| > 1 then ds[..1] + ['.'] + ds[1..] else ds;
    if |ds| > 1 {
      PointReads(ds[..1], ds[1..]);
      assert ds[..1] + ds[1..] == ds;
    } else {
      PlainReads(ds);
    }
    ExponentReads(mant, e10 < 0, Abs(e10));
  }

  /** Dropping trailing zeros and raising the exponent keeps the number. */
  lemma ShortKeeps(s: string)
    requires AllDigits(s) && s != []
    ensures Val(s) == Val(Short(s)) * Pow10(|s| - |Short(s)|)
  {
    hide Val, Pow10, Strip;
    StripIs(s);
    var k := |s| - |Strip(s)|;
    ValZeros(k);
    if Strip(s) == [] {
      assert s == Zeros(k);
      ValZeros(1);
      assert "0" == Zeros(1);
    } else {
      ValJoin(Strip(s), Zeros(k));
    }
  }

  /**
    The printed form is in the accepted grammar, denotes exactly the number it was made from, and is no
    longer than the fixed or the scientific form, one of which it is.
   */
  lemma FormatIsExact(negative: bool, digits: seq<nat>, exp: int)
    requires digits != [] && forall i :: 0 <= i < |digits| ==> digits[i] < 10
    ensures var r := Read(FormatDouble(negative, digits, exp));
            r.Some? && r.value.negative == negative && Same(r.value.size, Num(Val(Chars(digits)), exp))
    ensures var ds := Short(Chars(digits));
            var fixed, sci := Fixed(ds, exp + (|digits| - |ds|)), Scientific(ds, exp + (|digits| - |ds|));
            var out := FormatDouble(negative, digits, exp);
            && (out == Sign(negative) + fixed || out == Sign(negative) + sci)
            && |out| == |Sign(negative)| + Min(|fixed|, |sci|)
  {
    hide ReadBody, Val, Same, Fixed, Scientific, Chars, Short;
    var s := Chars(digits);
    var ds := Short(s);
    var k := |s| - |ds|;
    var e := exp + k;
    ShortKeeps(s);
    FixedReads(ds, e);
    ScientificReads(ds, e);
    var body := if |Fixed(ds, e)| <= |Scientific(ds, e)| then Fixed(ds, e) else Scientific(ds, e);
    var out := FormatDouble(negative, digits, exp);
    assert out == Sign(negative) + body;
    if negative { assert out[1..] == body; } else { assert out == body; }
    SameScaled(Val(ds), e, 0, k);
    if e >= 0 { SameScaled(Val(ds), e, e, k); }
    assert Val(ds) * Pow10(0) == Val(ds);
  }

  // ---- Integer parameters -------------------------------------------------------------------------------------

  /** The number is an integer, and which. */
  function Whole(x: Num): Option<nat> {
    if x.e >= 0 then Some(x.m * Pow10(x.e))
    else if x.m % Pow10(-x.e) == 0 then Some(x.m / Pow10(-x.e))
    else None
  }

  const INT64_LIMIT := 0x8000_0000_0000_0000

  function ParseInt(s: string): Option<int> {
    var r := Read(s);
    if r.None? || Whole(r.value.size).None? then None
    else
      var v := Signed(r.value.negative, Whole(r.value.size).value);
      if -INT64_LIMIT <= v < INT64_LIMIT then Some(v) else None
  }

  function IntStr(n: int): string { Sign(n < 0) + Str(Abs(n)) }

  /** Every 64-bit integer survives being printed and parsed, and no other does. */
  lemma ParseIntStr(n: int)
    ensures ParseInt(IntStr(n)) == if -INT64_LIMIT <= n < INT64_LIMIT then Some(n) else None
  {
    hide ReadBody, Val, Str;
    var body := Str(Abs(n));
    PlainReads(body);
    ValStr(Abs(n));
    assert IsDigit(body[0]);
    if n < 0 { assert IntStr(n)[1..] == body; } else { assert IntStr(n) == body; }
    assert Abs(n) * Pow10(0) == Abs(n);
  }

  /** The first and the last integer that are accepted, and their neighbours. */
  lemma IntegerRange()
    ensures ParseInt(IntStr(9_223_372_036_854_775_807)) == Some(9_223_372_036_854_775_807)
    ensures ParseInt(IntStr(9_223_372_036_854_775_808)) == None
    ensures ParseInt(IntStr(-9_223_372_036_854_775_808)) == Some(-9_223_372_036_854_775_808)
    ensures ParseInt(IntStr(-9_223_372_036_854_775_809)) == None
  {
    hide ParseInt, IntStr;
    ParseIntStr(9_223_372_036_854_775_807);
    ParseIntStr(9_223_372_036_854_775_808);
    ParseIntStr(-9_223_372_036_854_775_808);
    ParseIntStr(-9_223_372_036_854_775_809);
  }

  /** The parsed value is the number denoted, whatever form it was written in. */
  lemma WholeIsSame(x: Num)
    ensures Whole(x).Some? ==> Same(x, Num(Whole(x).value, 0))
    ensures forall v: nat :: Same(x, Num(v, 0)) ==> Whole(x) == Some(v)
  {
    assert Pow10(0) == 1;
    if x.e < 0 {
      var p := Pow10(-x.e);
      DivModIs(x.m, p);
      forall v: nat | Same(x, Num(v, 0)) ensures Whole(x) == Some(v) {
        assert x.m == v * p;
        DivUnique(x.m, v, 0, p);
      }
    }
  }

  /** The number a string denotes is the integer `v`. */
  predicate Denotes(r: Real, v: int) { Same(r.size, Num(Abs(v), 0)) && v == Signed(r.negative, Abs(v)) }

  /**
    The parser returns `v` exactly when the string is in the grammar, denotes `v`, and `v` fits in 64 bits;
    it refuses every other string.
   */
  lemma ParseIntIff(s: string, v: int)
    ensures ParseInt(s) == Some(v)
            <==> Read(s).Some? && Denotes(Read(s).value, v) && -INT64_LIMIT <= v < INT64_LIMIT
  {
    hide Read, Same, Whole;
    if Read(s).Some? {
      WholeIsSame(Read(s).value.size);
    }
  }
}
