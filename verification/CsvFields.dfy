/**
  Field parsing of the archive readers (src/backtest/csv_fields.hpp): splitting a line, unsigned
  64-bit numbers, and epoch times whose unit is told by their digit count.
 */
module CsvFields {
  import opened Arith
  import opened Digits

  // ---- Splitting -----------------------------------------------------------------------------------------

  function Join(fields: seq<string>): string
    requires fields != []
  {
    if |fields| == 1 then fields[0] else Join(fields[..|fields| - 1]) + [','] + fields[|fields| - 1]
  }

  lemma JoinNext(fields: seq<string>, f: string)
    requires fields != []
    ensures Join(fields + [f]) == Join(fields) + [','] + f
  {
    assert (fields + [f])[..|fields|] == fields;
  }

  /** The line cut at its commas; a line without one is a single field. */
  function Fields(line: string): (r: seq<string>)
    ensures r != []
  {
    if line == [] then [[]]
    else
      var n := |line| - 1;
      var r := Fields(line[..n]);
      if line[n] == ',' then r + [[]] else r[..|r| - 1] + [r[|r| - 1] + [line[n]]]
  }

  /**
    Writes the first `max` fields to the front of `out`, touches nothing behind them, and returns how
    many fields the line has.
   */
  method Split(line: string, out: array<string>, max: nat) returns (n: nat)
    requires max <= out.Length
    modifies out
    ensures n == |Fields(line)|
    ensures forall k :: 0 <= k < out.Length ==> out[k] == if k < n && k < max then Fields(line)[k] else old(out[k])
  {
    hide Fields;
    n := 0;
    var start := 0;
    ghost var done: seq<string> := [];
    FieldsOfNothing(line);
    for i := 0 to |line|
      invariant start <= i && n == |done| && Fields(line[..i]) == done + [line[start..i]]
      invariant forall k :: 0 <= k < out.Length ==> out[k] == if k < n && k < max then done[k] else old(out[k])
    {
      FieldsNext(line, i, start, done);
      if line[i] == ',' {
        if n < max { out[n] := line[start..i]; }
        done := done + [line[start..i]];
        n := n + 1;
        start := i + 1;
      }
    }
    assert line[..|line|] == line;
    if n < max { out[n] := line[start..]; }
    n := n + 1;
  }

  lemma FieldsOfNothing(line: string)
    ensures Fields(line[..0]) == [] + [line[0..0]]
  {
  }

  lemma FieldsNext(line: string, i: nat, start: nat, done: seq<string>)
    requires start <= i < |line| && Fields(line[..i]) == done + [line[start..i]]
    ensures Fields(line[..i + 1])
            == if line[i] == ',' then done + [line[start..i]] + [line[i + 1..i + 1]] else done + [line[start..i + 1]]
  {
    assert line[..i + 1][..i] == line[..i];
    assert line[start..i] + [line[i]] == line[start..i + 1];
    assert line[i + 1..i + 1] == [];
  }

  predicate NoComma(f: string) { forall i :: 0 <= i < |f| ==> f[i] != ',' }

  lemma FieldsStep(a: string, c: char)
    ensures var r := Fields(a);
            Fields(a + [c]) == if c == ',' then r + [[]] else r[..|r| - 1] + [r[|r| - 1] + [c]]
  {
    assert (a + [c])[..|a|] == a;
  }

  /** Joining the fields restores the line. */
  lemma {:induction false} JoinFields(line: string)
    ensures Join(Fields(line)) == line
  {
    if line != [] {
      hide Fields, Join;
      var a, c := line[..|line| - 1], line[|line| - 1];
      var r := Fields(a);
      JoinFields(a);
      assert line == a + [c];
      FieldsStep(a, c);
      if c == ',' {
        JoinNext(r, []);
        assert Join(r) + [','] + [] == Join(r) + [','];
      } else {
        var front, last := r[..|r| - 1], r[|r| - 1];
        assert r == front + [last];
        JoinGrows(front, last, c);
      }
    }
  }

  /** No field holds a comma. */
  lemma {:induction false} FieldsHaveNoComma(line: string)
    ensures forall i :: 0 <= i < |Fields(line)| ==> NoComma(Fields(line)[i])
  {
    if line != [] {
      FieldsHaveNoComma(line[..|line| - 1]);
    }
  }

  lemma JoinGrows(front: seq<string>, last: string, c: char)
    ensures Join(front + [last + [c]]) == Join(front + [last]) + [c]
  {
    if front == [] {
      assert front + [last] == [last] && front + [last + [c]] == [last + [c]];
    } else {
      JoinGrowsBehind(front, last, c);
    }
  }

  lemma JoinGrowsBehind(front: seq<string>, last: string, c: char)
    requires front != []
    ensures Join(front + [last + [c]]) == Join(front + [last]) + [c]
  {
    hide Join;
    JoinNext(front, last + [c]);
    JoinNext(front, last);
    var a := Join(front) + [','];
    assert a + (last + [c]) == (a + last) + [c];
  }

  lemma {:induction false} FieldsAfterComma(a: string, f: string)
    requires NoComma(f)
    ensures Fields(a + [','] + f) == Fields(a) + [f]
    decreases |f|
  {
    hide Fields;
    if f == [] {
      assert a + [','] + f == a + [','];
      FieldsStep(a, ',');
    } else {
      var g, c := f[..|f| - 1], f[|f| - 1];
      assert f == g + [c];
      assert a + [','] + f == (a + [','] + g) + [c];
      FieldsAfterComma(a, g);
      FieldsStep(a + [','] + g, c);
      assert (Fields(a) + [g])[..|Fields(a)|] == Fields(a);
    }
  }

  lemma {:induction false} FieldsWithoutComma(f: string)
    requires NoComma(f)
    ensures Fields(f) == [f]
  {
    if f != [] {
      var g, c := f[..|f| - 1], f[|f| - 1];
      assert f == g + [c];
      FieldsWithoutComma(g);
      FieldsStep(g, c);
    }
  }

  /** Fields without commas survive being joined and split. */
  lemma {:induction false} FieldsJoin(fields: seq<string>)
    requires fields != [] && forall i :: 0 <= i < |fields| ==> NoComma(fields[i])
    ensures Fields(Join(fields)) == fields
  {
    var k := |fields| - 1;
    assert fields == fields[..k] + [fields[k]];
    if k == 0 {
      FieldsWithoutComma(fields[0]);
    } else {
      FieldsJoin(fields[..k]);
      FieldsAfterComma(Join(fields[..k]), fields[k]);
    }
  }

  /** Splitting and joining are inverse: the fields are the only comma-free list that joins to the line. */
  lemma SplitIffJoin(line: string, fields: seq<string>)
    requires fields != []
    ensures fields == Fields(line)
            <==> Join(fields) == line && forall i :: 0 <= i < |fields| ==> NoComma(fields[i])
  {
    hide Fields, Join;
    JoinFields(line);
    FieldsHaveNoComma(line);
    if forall i :: 0 <= i < |fields| ==> NoComma(fields[i]) { FieldsJoin(fields); }
  }

  // ---- Numbers -------------------------------------------------------------------------------------------

  const UINT64_MAX := 0xFFFF_FFFF_FFFF_FFFF
  const INT64_MAX := 0x7FFF_FFFF_FFFF_FFFF

  /** A non-empty string of digits whose value fits in 64 bits. */
  predicate IsU64(s: string) { s != [] && AllDigits(s) && Val(s) <= UINT64_MAX }

  /** The overflow test before each digit: the running value never leaves 64 bits. */
  lemma StepFits(v: nat, d: nat)
    requires d < 10
    ensures v > (UINT64_MAX - d) / 10 <==> v * 10 + d > UINT64_MAX
  {
    DivModIs(UINT64_MAX - d, 10);
  }

  lemma {:induction false} PrefixFits(s: string, k: nat)
    requires AllDigits(s) && k <= |s|
    ensures AllDigits(s[..k]) && Val(s[..k]) <= Val(s)
  {
    if k == |s| {
      assert s[..k] == s;
    } else {
      var n := |s| - 1;
      assert s[..n][..k] == s[..k];
      PrefixFits(s[..n], k);
    }
  }

  /** Succeeds exactly on a number that fits, and then returns it; `was` is left otherwise. */
  method ParseU64(s: string, was: nat) returns (ok: bool, out: nat)
    ensures ok <==> IsU64(s)
    ensures out == if ok then Val(s) else was
  {
    if s == [] { return false, was; }
    var v: nat := 0;
    for i := 0 to |s|
      invariant AllDigits(s[..i]) && v == Val(s[..i]) && v <= UINT64_MAX
    {
      if s[i] < '0' || s[i] > '9' { return false, was; }
      var d := DigitOf(s[i]);
      assert s[..i + 1] == s[..i] + [s[i]];
      ValNext(s[..i], s[i]);
      StepFits(v, d);
      if v > (UINT64_MAX - d) / 10 {
        if AllDigits(s) { PrefixFits(s, i + 1); }
        return false, was;
      }
      v := v * 10 + d;
    }
    assert s[..|s|] == s;
    return true, v;
  }

  // ---- Epoch times ---------------------------------------------------------------------------------------

  /** Nanoseconds per unit, by the number of digits. */
  function Scale(length: nat): nat { if length >= 19 then 1 else if length >= 16 then 1_000 else 1_000_000 }

  predicate IsEpoch(s: string) { IsU64(s) && Val(s) * Scale(|s|) <= INT64_MAX }

  /** Never overflows: it fails exactly when the time does not fit in int64 nanoseconds. */
  method ParseEpochNs(s: string, was: int) returns (ok: bool, out: int)
    ensures ok <==> IsEpoch(s)
    ensures out == if ok then Val(s) * Scale(|s|) else was
    ensures ok ==> 0 <= out <= INT64_MAX
  {
    var good, v := ParseU64(s, 0);
    if !good { return false, was; }
    var scale := if |s| >= 19 then 1 else if |s| >= 16 then 1_000 else 1_000_000;
    DivModIs(INT64_MAX, scale);
    ScaleFits(v, scale);
    if v > INT64_MAX / scale { return false, was; }
    return true, v * scale;
  }

  /** The last nanosecond and the last number that are accepted, and their successors. */
  lemma LargestTime()
    ensures IsEpoch(Str(9_223_372_036_854_775_807)) && !IsEpoch(Str(9_223_372_036_854_775_808))
    ensures IsU64(Str(18_446_744_073_709_551_615)) && !IsU64(Str(18_446_744_073_709_551_616))
  {
    hide Str, Val, Pow10;
    Powers();
    forall n: nat | n >= 1_000_000_000_000_000_000 ensures Val(Str(n)) == n && |Str(n)| >= 19 {
      ValStr(n);
      StrLength(n, 18);
    }
  }

  lemma ScaleFits(v: nat, scale: nat)
    requires scale == 1 || scale == 1_000 || scale == 1_000_000
    ensures v <= INT64_MAX / scale <==> v * scale <= INT64_MAX
  {
  }

  /** The instant `ms` milliseconds after the epoch, spelled in milli-, micro- and nanoseconds. */
  predicate SpellingsAgree(ms: nat) {
    forall unit :: unit in {1, 1_000, 1_000_000} ==> ReadsAs(Str(ms * unit), ms * 1_000_000)
  }

  predicate ReadsAs(s: string, ns: nat) { IsEpoch(s) && Val(s) * Scale(|s|) == ns }

  /**
    The digit count tells the units apart exactly from 10^12 ms on (9 September 2001), or at the epoch
    itself: earlier instants of this century are read wrongly in micro- or nanoseconds.
   */
  lemma SpellingsAgreeIff(ms: nat)
    requires ms * 1_000_000 <= INT64_MAX
    ensures SpellingsAgree(ms) <==> ms == 0 || ms >= 1_000_000_000_000
  {
    Spelling(ms, 1);
    Spelling(ms, 1_000);
    Spelling(ms, 1_000_000);
    assert SpellingsAgree(ms) <==>
        ReadsAs(Str(ms * 1), ms * 1_000_000) && ReadsAs(Str(ms * 1_000), ms * 1_000_000)
        && ReadsAs(Str(ms * 1_000_000), ms * 1_000_000) by {
      assert 1 in {1, 1_000, 1_000_000} && 1_000 in {1, 1_000, 1_000_000} && 1_000_000 in {1, 1_000, 1_000_000};
    }
  }

  /** The first instant of 2001: its three spellings are not read as one time. */
  lemma NotThisWholeCentury()
    ensures !SpellingsAgree(978_307_200_000)
  {
    SpellingsAgreeIff(978_307_200_000);
  }

  /** How one spelling is read: right when the digit count gives its unit back. */
  lemma Spelling(ms: nat, unit: nat)
    requires ms * 1_000_000 <= INT64_MAX && (unit == 1 || unit == 1_000 || unit == 1_000_000)
    ensures var s := Str(ms * unit);
            && IsU64(s) && Val(s) == ms * unit
            && Scale(|s|) == if ms * unit >= 1_000_000_000_000_000_000 then 1
                             else if ms * unit >= 1_000_000_000_000_000 then 1_000 else 1_000_000
  {
    hide Str, Val, Pow10;
    ValStr(ms * unit);
    StrLength(ms * unit, 18);
    StrLength(ms * unit, 15);
    assert Pow10(15) == 1_000_000_000_000_000 by { Powers(); }
    assert Pow10(18) == 1_000_000_000_000_000_000 by { Powers(); }
  }

  lemma Powers()
    ensures Pow10(15) == 1_000_000_000_000_000 && Pow10(18) == 1_000_000_000_000_000_000
  {
    assert Pow10(5) == 100_000;
    Pow10Plus(5, 5);
    Pow10Plus(5, 10);
    assert Pow10(3) == 1_000;
    Pow10Plus(3, 15);
  }
}
