/** Strings of decimal digits and the numbers they stand for. */
module Digits {

  predicate IsDigit(c: char) { '0' <= c <= '9' }

  function DigitOf(c: char): nat
    requires IsDigit(c)
  {
    (c - '0') as nat
  }

  function CharOf(d: nat): (c: char)
    requires d < 10
    ensures IsDigit(c) && DigitOf(c) == d
  {
    '0' + d as char
  }

  predicate AllDigits(s: string) { forall i :: 0 <= i < |s| ==> IsDigit(s[i]) }

  function Pow10(n: nat): (r: nat)
    ensures r > 0
  {
    if n == 0 then 1 else 10 * Pow10(n - 1)
  }

  lemma {:induction false} Pow10Plus(a: nat, b: nat)
    ensures Pow10(a + b) == Pow10(a) * Pow10(b)
  {
    if a > 0 {
      Pow10Plus(a - 1, b);
    }
  }

  function Val(s: string): nat
    requires AllDigits(s)
  {
    if s == [] then 0 else Val(s[..|s| - 1]) * 10 + DigitOf(s[|s| - 1])
  }

  lemma ValNext(s: string, c: char)
    requires AllDigits(s) && IsDigit(c)
    ensures Val(s + [c]) == Val(s) * 10 + DigitOf(c)
  {
    assert (s + [c])[..|s|] == s;
  }

  lemma {:induction false} ValJoin(a: string, b: string)
    requires AllDigits(a) && AllDigits(b)
    ensures AllDigits(a + b) && Val(a + b) == Val(a) * Pow10(|b|) + Val(b)
    decreases |b|
  {
    if b == [] {
      assert a + b == a;
    } else {
      var n := |b| - 1;
      ValJoin(a, b[..n]);
      assert a + b == (a + b[..n]) + [b[n]];
      assert AllDigits(a + b);
      ValNext(a + b[..n], b[n]);
      Shift(Val(a), Pow10(n), Val(b[..n]));
    }
  }

  lemma Shift(x: nat, p: nat, v: nat)
    ensures (x * p + v) * 10 == x * (10 * p) + v * 10
  {
  }

  function Zeros(n: nat): (r: string)
    ensures |r| == n && AllDigits(r)
  {
    seq(n, _ => '0')
  }

  lemma {:induction false} ValZeros(n: nat)
    ensures Val(Zeros(n)) == 0
  {
    if n > 0 {
      ValZeros(n - 1);
      assert Zeros(n)[..n - 1] == Zeros(n - 1);
    }
  }

  /** The decimal form without leading zeros. */
  function Str(n: nat): (r: string)
    ensures AllDigits(r) && |r| > 0
  {
    if n < 10 then [CharOf(n)] else Str(n / 10) + [CharOf(n % 10)]
  }

  lemma {:induction false} ValStr(n: nat)
    ensures Val(Str(n)) == n
  {
    if n < 10 {
      assert [CharOf(n)][..0] == [];
    } else {
      ValStr(n / 10);
      ValNext(Str(n / 10), CharOf(n % 10));
    }
  }

  /** Digits are written and read from the most significant one. */
  lemma DigitsAre()
    ensures Str(907) == "907" && Val("907") == 907
  {
    assert Str(9) == "9" && Str(90) == "90";
    ValStr(907);
  }

  /** The length of the decimal form tells the size of the number. */
  lemma {:induction false} StrLength(n: nat, w: nat)
    requires w >= 1
    ensures |Str(n)| <= w <==> n < Pow10(w)
    decreases n
  {
    if n < 10 {
      Pow10Grows(1, w);
    } else if w == 1 {
      assert |Str(n / 10)| > 0;
      assert Pow10(1) == 10 * Pow10(0);
    } else {
      StrLength(n / 10, w - 1);
    }
  }

  lemma {:induction false} Pow10Grows(a: nat, b: nat)
    requires a <= b
    ensures Pow10(a) <= Pow10(b)
  {
    if a < b {
      Pow10Grows(a, b - 1);
    }
  }

  /** At least `w` digits, with leading zeros. */
  function Padded(n: nat, w: nat): (r: string)
    ensures AllDigits(r) && |r| >= w
  {
    if |Str(n)| >= w then Str(n) else Zeros(w - |Str(n)|) + Str(n)
  }

  lemma ValPadded(n: nat, w: nat)
    ensures Val(Padded(n, w)) == n
    ensures w >= 1 && n < Pow10(w) ==> |Padded(n, w)| == w
  {
    hide Str, Val, Pow10;
    ValStr(n);
    if |Str(n)| < w {
      ValZeros(w - |Str(n)|);
      ValJoin(Zeros(w - |Str(n)|), Str(n));
    }
    if w >= 1 { StrLength(n, w); }
  }

  /** Drops trailing zeros. */
  function Strip(s: string): (r: string)
    ensures r <= s
  {
    if s != [] && s[|s| - 1] == '0' then Strip(s[..|s| - 1]) else s
  }

  lemma {:induction false} StripIs(s: string)
    ensures s == Strip(s) + Zeros(|s| - |Strip(s)|)
  {
    if s != [] && s[|s| - 1] == '0' {
      var n := |s| - 1;
      StripIs(s[..n]);
      assert s == s[..n] + ['0'];
      assert Zeros(|s| - |Strip(s)|) == Zeros(n - |Strip(s)|) + ['0'];
    } else {
      assert s == s + Zeros(0);
    }
  }

  /** Stripping stops at a digit that is not zero. */
  lemma {:induction false} StripTail(a: string, s: string)
    requires AllDigits(s) && Val(s) > 0
    ensures Strip(a + s) == a + Strip(s)
    decreases |s|
  {
    var n := |s| - 1;
    assert (a + s)[|a + s| - 1] == s[n];
    if s[n] == '0' {
      assert (a + s)[..|a + s| - 1] == a + s[..n];
      StripTail(a, s[..n]);
    }
  }
}
