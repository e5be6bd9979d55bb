/**
  Two ways to account for the same fills: the report's average cost per instrument
  (python/fastmm/report.py) and the journal report's cash flow (tools/pnl_report.py). Money is real;
  rounding of floats is not modelled.
 */
module PnlBooks {
  import opened Sequences

  datatype FeeAsset = Quote | Base | Other

  datatype Fill = Fill(inst: nat, buy: bool, px: real, qty: real, fee: real, asset: FeeAsset)

  // ---- The report: average cost --------------------------------------------------------------------

  /** The signed quantity the report books. */
  function Signed(f: Fill): real {
    var side := if f.buy then f.qty else -f.qty;
    if f.asset.Base? then (if f.buy then side - f.fee else side + f.fee) else side
  }

  function FeeInQuote(f: Fill): real {
    match f.asset
    case Quote => f.fee
    case Base => f.fee * f.px
    case Other => 0.0
  }

  function AbsR(x: real): real { if x < 0.0 then -x else x }

  function MinR(x: real, y: real): real { if x <= y then x else y }

  /** A position with its average cost, and what closing trades realized. */
  datatype Position = Position(held: real, avg: real, realized: real)

  /** The trade goes the way of the position (or opens one), so it only moves the average. */
  predicate Adds(held: real, signed: real) { held == 0.0 || (held > 0.0) == (signed > 0.0) }

  function NewAvg(held: real, avg: real, signed: real, px: real): real {
    if Adds(held, signed) then
      var total := held + signed;
      if total != 0.0 then (avg * held + px * signed) / total else 0.0
    else if AbsR(signed) > AbsR(held) then px
    else avg
  }

  /** What a closing trade realizes on the quantity it closes. */
  function Gain(held: real, avg: real, signed: real, px: real): real {
    if Adds(held, signed) then 0.0
    else MinR(AbsR(held), AbsR(signed)) * (if held > 0.0 then 1.0 else -1.0) * (px - avg)
  }

  /** One trade of `signed` at `px`: it adds at a new average, reduces, or closes and flips. */
  function Trade(p: Position, signed: real, px: real): Position {
    Position(p.held + signed, NewAvg(p.held, p.avg, signed, px), p.realized + Gain(p.held, p.avg, signed, px))
  }

  const FLAT := Position(0.0, 0.0, 0.0)

  /** Average cost is exact: at every moment realized - avg * held is the cash paid out for trades. */
  lemma TradeConservesCash(p: Position, signed: real, px: real)
    ensures var q := Trade(p, signed, px);
            q.realized - q.avg * q.held == p.realized - p.avg * p.held - px * signed
    ensures Trade(p, signed, px).held == p.held + signed
  {
    var total := p.held + signed;
    if Adds(p.held, signed) {
      if total != 0.0 {
        assert (p.avg * p.held + px * signed) / total * total == p.avg * p.held + px * signed;
      } else {
        assert p.held == 0.0 && signed == 0.0;
      }
    } else if AbsR(signed) > AbsR(p.held) {
      FlipCash(p, signed, px);
    } else {
      ReduceCash(p, signed, px);
    }
  }

  lemma FlipCash(p: Position, signed: real, px: real)
    ensures p.realized + p.held * (px - p.avg) - px * (p.held + signed) == p.realized - p.avg * p.held - px * signed
  {
  }

  lemma ReduceCash(p: Position, signed: real, px: real)
    ensures p.realized + (-signed) * (px - p.avg) - p.avg * (p.held + signed)
            == p.realized - p.avg * p.held - px * signed
  {
  }

  // ---- The journal report: cash and inventory ---------------------------------------------------------

  /** The inventory a fill delivers: commission in base units comes out of it. */
  function Delivered(f: Fill): real {
    if f.buy then (if f.asset.Base? then f.qty - f.fee else f.qty)
    else -(if f.asset.Base? then f.qty + f.fee else f.qty)
  }

  function CashOf(f: Fill, mult: real): real {
    (if f.buy then -(f.px * f.qty * mult) else f.px * f.qty * mult) - if f.asset.Quote? then f.fee else 0.0
  }

  /** What one fill is worth at a mark: its move from price to mark, times the multiplier, less its commission. */
  lemma FillWorth(f: Fill, mark: real, mult: real)
    ensures CashOf(f, mult) + Delivered(f) * mark * mult
            == mult * ((if f.buy then f.qty else -f.qty) * (mark - f.px))
               - (if f.asset.Quote? then f.fee else 0.0) - mult * (mark * (if f.asset.Base? then f.fee else 0.0))
  {
    var q, p := f.qty, f.px;
    var e := if f.asset.Base? then f.fee else 0.0;
    Worth(q, p, e, mark, mult);
  }

  lemma Worth(q: real, p: real, e: real, mark: real, m: real)
    ensures -(p * q * m) + (q - e) * mark * m == m * (q * (mark - p)) - m * (mark * e)
    ensures p * q * m + (-(q + e)) * mark * m == m * ((-q) * (mark - p)) - m * (mark * e)
  {
    var x, y, z := q * mark, q * p, e * mark;
    assert (q - e) * mark == x - z && (-(q + e)) * mark == -x - z;
    assert q * (mark - p) == x - y && (-q) * (mark - p) == y - x;
    assert (x - z) * m == x * m - z * m && (-x - z) * m == -(x * m) - z * m;
    assert m * (x - y) == x * m - y * m && m * (y - x) == y * m - x * m;
    assert p * q * m == y * m && m * (mark * e) == z * m;
  }

  // ---- Folds over a session, one instrument at a time -------------------------------------------------

  function PositionOf(fs: seq<Fill>, i: nat): Position {
    if fs == [] then FLAT
    else
      var p, f := PositionOf(fs[..|fs| - 1], i), fs[|fs| - 1];
      if f.inst == i then Trade(p, Signed(f), f.px) else p
  }

  /** What one fill adds to the figures of an instrument, linear in the fill. */
  datatype Figure = Fees | Paid | Inventory | Cash(mult: real) | Excess(mark: real) | BaseSold | BaseValue

  function Term(f: Fill, w: Figure): real {
    match w
    case Fees => FeeInQuote(f)
    case Paid => f.px * Signed(f)
    case Inventory => Delivered(f)
    case Cash(mult) => CashOf(f, mult)
    // The report adds the base commission of a sell where the rule subtracts it: twice the fee.
    case Excess(mark) => if f.asset.Base? && !f.buy then 2.0 * f.fee * (mark - f.px) else 0.0
    case BaseSold => if f.asset.Base? && !f.buy then f.fee else 0.0
    case BaseValue => if f.asset.Base? && !f.buy then f.fee * f.px else 0.0
  }

  function SumOf(fs: seq<Fill>, i: nat, w: Figure): real {
    if fs == [] then 0.0
    else
      var f := fs[|fs| - 1];
      SumOf(fs[..|fs| - 1], i, w) + if f.inst == i then Term(f, w) else 0.0
  }

  /** InstrumentBook.pnl: cash plus inventory at the mark. */
  function BookPnl(fs: seq<Fill>, i: nat, mark: real, mult: real): real {
    SumOf(fs, i, Cash(mult)) + SumOf(fs, i, Inventory) * mark * mult
  }

  lemma {:induction false} RealizedIs(fs: seq<Fill>, i: nat)
    ensures var p := PositionOf(fs, i); p.realized - p.avg * p.held == -SumOf(fs, i, Paid)
  {
    hide Trade;
    if fs != [] {
      var rest, f := fs[..|fs| - 1], fs[|fs| - 1];
      RealizedIs(rest, i);
      if f.inst == i {
        TradeConservesCash(PositionOf(rest, i), Signed(f), f.px);
      }
    }
  }

  /** One fill: the report's view of it at a mark, against the journal report's. */
  lemma OneFill(f: Fill, mark: real)
    ensures Signed(f) * mark - Term(f, Paid) - Term(f, Fees)
            == Term(f, Cash(1.0)) + Term(f, Inventory) * mark + Term(f, Excess(mark))
  {
    var q, e, p := f.qty, f.fee, f.px;
    match f.asset
    case Quote =>
    case Other =>
    case Base =>
      if f.buy {
        assert (q - e) * mark - p * (q - e) - e * p == -(p * q) + (q - e) * mark by {
          assert p * (q - e) == p * q - p * e;
        }
      } else {
        assert Signed(f) == e - q;
        assert (e - q) * mark - p * (e - q) - e * p == p * q + (-(q + e)) * mark + 2.0 * e * (mark - p) by {
          assert p * (e - q) == p * e - p * q;
          assert (e - q) * mark == e * mark - q * mark;
          assert (-(q + e)) * mark == -(q * mark) - e * mark;
          assert 2.0 * e * (mark - p) == 2.0 * (e * mark) - 2.0 * (e * p);
        }
      }
  }

  lemma {:induction false} HeldIs(fs: seq<Fill>, i: nat, mark: real)
    ensures PositionOf(fs, i).held * mark - SumOf(fs, i, Paid) - SumOf(fs, i, Fees)
            == BookPnl(fs, i, mark, 1.0) + SumOf(fs, i, Excess(mark))
  {
    hide Trade, Signed, Term;
    if fs != [] {
      var rest, f := fs[..|fs| - 1], fs[|fs| - 1];
      HeldIs(rest, i, mark);
      if f.inst == i {
        OneFill(f, mark);
        TradeConservesCash(PositionOf(rest, i), Signed(f), f.px);
        Distribute(PositionOf(rest, i).held, Signed(f), mark);
        Distribute(SumOf(rest, i, Inventory), Term(f, Inventory), mark);
      }
    }
  }

  lemma Distribute(x: real, y: real, m: real)
    ensures (x + y) * m == x * m + y * m
  {
  }

  /**
    One instrument, any sequence of fills, any mark: the average-cost figure equals the cash-flow
    figure, except for twice the commission of base-fee sells, marked from their price to the mark.
   */
  lemma AverageCostIsCashFlow(fs: seq<Fill>, i: nat, mark: real)
    ensures ReportPnl(fs, i, mark) == BookPnl(fs, i, mark, 1.0) + SumOf(fs, i, Excess(mark))
  {
    hide PositionOf, SumOf, BookPnl;
    var p := PositionOf(fs, i);
    RealizedIs(fs, i);
    HeldIs(fs, i, mark);
    assert p.held * (mark - p.avg) == p.held * mark - p.avg * p.held;
  }

  /** The report's figure for one instrument. */
  function ReportPnl(fs: seq<Fill>, i: nat, mark: real): real {
    var p := PositionOf(fs, i);
    p.realized + p.held * (mark - p.avg) - SumOf(fs, i, Fees)
  }

  /** The excess is a line in the mark: its slope is the base commission of sells, its offset their value. */
  lemma {:induction false} ExcessIsLine(fs: seq<Fill>, i: nat, mark: real)
    ensures SumOf(fs, i, Excess(mark)) == 2.0 * (mark * SumOf(fs, i, BaseSold)) - 2.0 * SumOf(fs, i, BaseValue)
  {
    if fs != [] {
      var rest, f := fs[..|fs| - 1], fs[|fs| - 1];
      ExcessIsLine(rest, i, mark);
      assert 2.0 * f.fee * (mark - f.px) == 2.0 * (mark * f.fee) - 2.0 * (f.fee * f.px);
      assert mark * (SumOf(rest, i, BaseSold) + f.fee) == mark * SumOf(rest, i, BaseSold) + mark * f.fee;
    }
  }

  /**
    The two reports agree at every mark exactly when the base commissions of the instrument's sells,
    rebates counted negative, cancel both in units and in value.
   */
  lemma AgreeAtEveryMarkIff(fs: seq<Fill>, i: nat)
    ensures (forall mark :: ReportPnl(fs, i, mark) == BookPnl(fs, i, mark, 1.0))
            <==> SumOf(fs, i, BaseSold) == 0.0 && SumOf(fs, i, BaseValue) == 0.0
  {
    hide PositionOf, SumOf, BookPnl, ReportPnl;
    forall mark
      ensures ReportPnl(fs, i, mark) - BookPnl(fs, i, mark, 1.0)
              == 2.0 * (mark * SumOf(fs, i, BaseSold)) - 2.0 * SumOf(fs, i, BaseValue)
    {
      AverageCostIsCashFlow(fs, i, mark);
      ExcessIsLine(fs, i, mark);
    }
    if forall mark :: ReportPnl(fs, i, mark) == BookPnl(fs, i, mark, 1.0) {
      assert ReportPnl(fs, i, 0.0) == BookPnl(fs, i, 0.0, 1.0);
      assert ReportPnl(fs, i, 1.0) == BookPnl(fs, i, 1.0, 1.0);
    }
  }

  /** A sell of instrument `i` that pays a commission, or earns a rebate, in base units. */
  predicate PaysBaseSelling(f: Fill, i: nat) { f.inst == i && f.asset.Base? && !f.buy && f.fee != 0.0 }

  lemma {:induction false} NoExcess(fs: seq<Fill>, i: nat, mark: real)
    requires forall k :: 0 <= k < |fs| ==> !PaysBaseSelling(fs[k], i)
    ensures SumOf(fs, i, Excess(mark)) == 0.0
  {
    if fs != [] {
      var n := |fs| - 1;
      assert !PaysBaseSelling(fs[n], i);
      assert forall k :: 0 <= k < n ==> fs[..n][k] == fs[k];
      NoExcess(fs[..n], i, mark);
    }
  }

  ghost predicate AgreeAfter(fs: seq<Fill>, n: nat, i: nat)
    requires n <= |fs|
  {
    forall mark :: ReportPnl(fs[..n], i, mark) == BookPnl(fs[..n], i, mark, 1.0)
  }

  /** The first fill that splits the reports: marked one above its own price they differ by twice its fee. */
  lemma SplitShows(fs: seq<Fill>, k: nat, i: nat)
    requires k < |fs| && PaysBaseSelling(fs[k], i) && AgreeAfter(fs, k, i)
    ensures !AgreeAfter(fs, k + 1, i)
  {
    hide PositionOf, BookPnl, ReportPnl;
    var mark := fs[k].px + 1.0;
    assert fs[..k + 1][..k] == fs[..k];
    AverageCostIsCashFlow(fs[..k], i, mark);
    AverageCostIsCashFlow(fs[..k + 1], i, mark);
    assert ReportPnl(fs[..k], i, mark) == BookPnl(fs[..k], i, mark, 1.0);
    assert 2.0 * fs[k].fee * (mark - fs[k].px) == 2.0 * fs[k].fee;
    assert ReportPnl(fs[..k + 1], i, mark) != BookPnl(fs[..k + 1], i, mark, 1.0);
  }

  /** The two reports agree throughout a session exactly when no sell pays or earns a base commission. */
  lemma AgreeThroughoutIff(fs: seq<Fill>, i: nat)
    ensures (forall n :: 0 <= n <= |fs| ==> AgreeAfter(fs, n, i))
            <==> forall k :: 0 <= k < |fs| ==> !PaysBaseSelling(fs[k], i)
  {
    hide PositionOf, BookPnl, ReportPnl, SumOf;
    if forall n :: 0 <= n <= |fs| ==> AgreeAfter(fs, n, i) {
      forall k | 0 <= k < |fs| ensures !PaysBaseSelling(fs[k], i) {
        assert AgreeAfter(fs, k, i) && AgreeAfter(fs, k + 1, i);
        if PaysBaseSelling(fs[k], i) { SplitShows(fs, k, i); }
      }
    }
    if forall k :: 0 <= k < |fs| ==> !PaysBaseSelling(fs[k], i) {
      forall n | 0 <= n <= |fs| ensures AgreeAfter(fs, n, i) {
        forall mark ensures ReportPnl(fs[..n], i, mark) == BookPnl(fs[..n], i, mark, 1.0) {
          assert forall k :: 0 <= k < n ==> fs[..n][k] == fs[k];
          NoExcess(fs[..n], i, mark);
          AverageCostIsCashFlow(fs[..n], i, mark);
        }
      }
    }
  }

  /** One sell with a commission of half a unit in base, marked one above its price: off by one. */
  lemma BaseFeeSellSplits()
    ensures var fs := [Fill(0, false, 100.0, 1.0, 0.5, Base)];
            ReportPnl(fs, 0, 101.0) == BookPnl(fs, 0, 101.0, 1.0) + 1.0
  {
    hide PositionOf, BookPnl, ReportPnl;
    var fs := [Fill(0, false, 100.0, 1.0, 0.5, Base)];
    AverageCostIsCashFlow(fs, 0, 101.0);
    assert fs[..0] == [];
  }

  // ---- The session account: many instruments at once ----------------------------------------------------

  /** Realized PnL or fees of one instrument. */
  function Own(fs: seq<Fill>, i: nat, realized: bool): real {
    if realized then PositionOf(fs, i).realized else SumOf(fs, i, Fees)
  }

  function TotalOf(keys: seq<nat>, fs: seq<Fill>, realized: bool): real {
    if keys == [] then 0.0
    else TotalOf(keys[..|keys| - 1], fs, realized) + Own(fs, keys[|keys| - 1], realized)
  }

  /** A fill moves the total by what it moves its own instrument. */
  lemma {:induction false} TotalAfter(keys: seq<nat>, fs: seq<Fill>, f: Fill, realized: bool)
    requires NoDup(keys)
    ensures TotalOf(keys, fs + [f], realized) == TotalOf(keys, fs, realized) +
              if f.inst in keys then Own(fs + [f], f.inst, realized) - Own(fs, f.inst, realized) else 0.0
  {
    hide Trade, FeeInQuote;
    assert (fs + [f])[..|fs|] == fs;
    if keys != [] {
      var rest, k := keys[..|keys| - 1], keys[|keys| - 1];
      assert keys == rest + [k];
      TotalAfter(rest, fs, f, realized);
      if k == f.inst { assert k !in rest; }
    }
  }

  lemma {:induction false} UntradedIsFlat(fs: seq<Fill>, i: nat, w: Figure)
    requires forall k :: 0 <= k < |fs| ==> fs[k].inst != i
    ensures PositionOf(fs, i) == FLAT && SumOf(fs, i, w) == 0.0
  {
    if fs != [] {
      UntradedIsFlat(fs[..|fs| - 1], i, w);
    }
  }

  /** The traded instruments after one more fill. */
  function WithKey(keys: seq<nat>, i: nat): seq<nat> { if i in keys then keys else keys + [i] }

  /** What one more fill does to the per-instrument figures and to their totals. */
  lemma AddFill(keys: seq<nat>, fs: seq<Fill>, f: Fill)
    requires NoDup(keys) && forall k :: 0 <= k < |fs| ==> fs[k].inst in keys
    ensures var p := PositionOf(fs, f.inst);
            var q := Trade(p, Signed(f), f.px);
            && NoDup(WithKey(keys, f.inst))
            && TotalOf(WithKey(keys, f.inst), fs + [f], true) == TotalOf(keys, fs, true) + (q.realized - p.realized)
            && TotalOf(WithKey(keys, f.inst), fs + [f], false) == TotalOf(keys, fs, false) + FeeInQuote(f)
            && (f.inst !in keys ==> p == FLAT)
  {
    hide Trade, FeeInQuote;
    assert (fs + [f])[..|fs|] == fs;
    if f.inst !in keys {
      UntradedIsFlat(fs, f.inst, Fees);
      assert (keys + [f.inst])[..|keys|] == keys;
    }
    TotalAfter(WithKey(keys, f.inst), fs, f, true);
    TotalAfter(WithKey(keys, f.inst), fs, f, false);
  }

  /** The signed quantity and the quote charge of a fill, by the asset its fee is paid in. */
  method Commission(f: Fill) returns (signed: real, charge: real)
    ensures signed == Signed(f) && charge == FeeInQuote(f)
  {
    signed, charge := if f.buy then f.qty else -f.qty, 0.0;
    if f.asset.Quote? {
      charge := f.fee;
    } else if f.asset.Base? {
      charge := f.fee * f.px;
      signed := signed - if f.buy then f.fee else -f.fee;
    }
  }

  /** Average cost: a trade that reduces the position books the difference as realized. */
  method AverageCost(held: real, avg: real, signed: real, px: real) returns (newAvg: real, gain: real)
    ensures newAvg == NewAvg(held, avg, signed, px) && gain == Gain(held, avg, signed, px)
  {
    newAvg, gain := avg, 0.0;
    if held == 0.0 || (held > 0.0) == (signed > 0.0) {
      var total := held + signed;
      newAvg := if total != 0.0 then (avg * held + px * signed) / total else 0.0;
    } else {
      var closed := MinR(AbsR(held), AbsR(signed)) * (if held > 0.0 then 1.0 else -1.0);
      gain := closed * (px - avg);
      if AbsR(signed) > AbsR(held) { newAvg := px; }
    }
  }

  datatype Event = Filled(fill: Fill) | Marked(inst: nat, mid: real)

  function FillsOf(es: seq<Event>): seq<Fill> {
    if es == [] then []
    else
      var e := es[|es| - 1];
      FillsOf(es[..|es| - 1]) + if e.Filled? then [e.fill] else []
  }

  /** The last mid of every marked instrument. */
  function MarksOf(es: seq<Event>): map<nat, real> {
    if es == [] then map[]
    else
      var e, rest := es[|es| - 1], MarksOf(es[..|es| - 1]);
      if e.Marked? then rest[e.inst := e.mid] else rest
  }

  /** The instruments in the order they first traded. */
  function Traded(fs: seq<Fill>): seq<nat> {
    if fs == [] then [] else WithKey(Traded(fs[..|fs| - 1]), fs[|fs| - 1].inst)
  }

  /** The dictionaries hold every traded instrument's position and average cost. */
  ghost predicate Tracks(keys: seq<nat>, position: map<nat, real>, avgPx: map<nat, real>, fs: seq<Fill>) {
    && NoDup(keys)
    && (forall i :: i in keys <==> i in position) && (forall i :: i in keys <==> i in avgPx)
    && (forall k :: 0 <= k < |fs| ==> fs[k].inst in keys)
    && (forall i :: i in keys ==> position[i] == PositionOf(fs, i).held && avgPx[i] == PositionOf(fs, i).avg)
  }

  lemma TracksAfter(keys: seq<nat>, position: map<nat, real>, avgPx: map<nat, real>, fs: seq<Fill>, f: Fill)
    requires Tracks(keys, position, avgPx, fs)
    ensures var q := Trade(PositionOf(fs, f.inst), Signed(f), f.px);
            Tracks(WithKey(keys, f.inst), position[f.inst := q.held], avgPx[f.inst := q.avg], fs + [f])
  {
    hide Trade, Signed, PositionOf;
    var keys', q := WithKey(keys, f.inst), Trade(PositionOf(fs, f.inst), Signed(f), f.px);
    var position', avgPx', fs' := position[f.inst := q.held], avgPx[f.inst := q.avg], fs + [f];
    KeysAfter(keys, fs, f);
    forall i | i in keys'
      ensures i in position' && i in avgPx'
      ensures position'[i] == PositionOf(fs', i).held && avgPx'[i] == PositionOf(fs', i).avg
    {
      PositionAfter(fs, f, i);
    }
  }

  lemma TracksAt(keys: seq<nat>, position: map<nat, real>, avgPx: map<nat, real>, fs: seq<Fill>, i: nat)
    requires Tracks(keys, position, avgPx, fs)
    ensures NoDup(keys) && forall k :: 0 <= k < |fs| ==> fs[k].inst in keys
    ensures (i in position <==> i in keys) && (i in avgPx <==> i in keys)
    ensures i in keys ==> position[i] == PositionOf(fs, i).held && avgPx[i] == PositionOf(fs, i).avg
  {
    hide PositionOf;
  }

  lemma TradedNext(fs: seq<Fill>, f: Fill)
    ensures Traded(fs + [f]) == WithKey(Traded(fs), f.inst)
  {
    assert (fs + [f])[..|fs|] == fs;
  }

  lemma KeysAfter(keys: seq<nat>, fs: seq<Fill>, f: Fill)
    requires NoDup(keys) && forall k :: 0 <= k < |fs| ==> fs[k].inst in keys
    ensures NoDup(WithKey(keys, f.inst))
    ensures forall k :: 0 <= k < |fs + [f]| ==> (fs + [f])[k].inst in WithKey(keys, f.inst)
    ensures forall i :: i in WithKey(keys, f.inst) <==> i in keys || i == f.inst
  {
  }

  lemma PositionAfter(fs: seq<Fill>, f: Fill, i: nat)
    ensures PositionOf(fs + [f], i) ==
              if i == f.inst then Trade(PositionOf(fs, i), Signed(f), f.px) else PositionOf(fs, i)
  {
    hide Trade;
    assert (fs + [f])[..|fs|] == fs;
  }

  /** The report's running account: dictionaries by instrument and two running sums. */
  class SessionAccount {
    var keys: seq<nat>  // traded instruments, in the order they first traded
    var position: map<nat, real>
    var avgPx: map<nat, real>
    var mark: map<nat, real>
    var realized: real
    var fees: real
    ghost var fills: seq<Fill>

    ghost predicate Valid()
      reads this
    {
      && Tracks(keys, position, avgPx, fills) && keys == Traded(fills)
      && realized == TotalOf(keys, fills, true)
      && fees == TotalOf(keys, fills, false)
    }

    constructor ()
      ensures Valid() && fills == [] && mark == map[] && keys == []
    {
      keys, position, avgPx, mark, realized, fees, fills := [], map[], map[], map[], 0.0, 0.0, [];
    }

    method OnMark(inst: nat, mid: real)
      requires Valid()
      modifies this`mark
      ensures Valid() && mark == old(mark)[inst := mid]
    {
      mark := mark[inst := mid];
    }

    method OnFill(f: Fill)
      requires Valid()
      modifies this`keys, this`position, this`avgPx, this`realized, this`fees, this`fills
      ensures Valid() && fills == old(fills) + [f]
    {
      hide NewAvg, Gain, TotalOf, PositionOf, Signed, FeeInQuote, Tracks, Traded, WithKey;
      TracksAt(keys, position, avgPx, fills, f.inst);
      TradedNext(fills, f);
      AddFill(keys, fills, f);
      TracksAfter(keys, position, avgPx, fills, f);
      var signed, charge := Commission(f);
      var held := if f.inst in position then position[f.inst] else 0.0;
      var avg := if f.inst in avgPx then avgPx[f.inst] else 0.0;
      var newAvg, gain := AverageCost(held, avg, signed, f.px);
      keys, position, avgPx := WithKey(keys, f.inst), position[f.inst := held + signed], avgPx[f.inst := newAvg];
      realized, fees, fills := realized + gain, fees + charge, fills + [f];
    }

    /** Open profit: an instrument without a mark is carried at its average cost. */
    method Unrealized() returns (open: real)
      requires Valid()
      ensures open == OpenOf(keys, fills, mark)
    {
      hide PositionOf, Tracks, Traded, TotalOf, NoDup;
      open := 0.0;
      for n := 0 to |keys|
        invariant open == OpenOf(keys[..n], fills, mark)
      {
        var i := keys[n];
        TracksAt(keys, position, avgPx, fills, i);
        assert keys[..n + 1][..n] == keys[..n];
        var at := if i in mark then mark[i] else avgPx[i];
        assert at == MarkOf(fills, i, mark);
        NothingHeld(position[i], at - avgPx[i]);
        if position[i] != 0.0 {
          open := open + position[i] * (at - avgPx[i]);
        }
      }
      assert keys[..|keys|] == keys;
    }

    /**
      The session's net PnL: the sum over traded instruments of the cash-flow figure at the
      instrument's mark (its average cost when it has none) and of the base-sell excess.
     */
    method NetPnl() returns (net: real)
      requires Valid()
      ensures net == CashFlowTotal(keys, fills, mark)
    {
      var open := Unrealized();
      net := realized + open - fees;
      NetIsCashFlow(keys, fills, mark);
    }
  }

  lemma NothingHeld(held: real, move: real)
    ensures held == 0.0 ==> held * move == 0.0
  {
  }

  /** The price an instrument is carried at. */
  function MarkOf(fs: seq<Fill>, i: nat, mark: map<nat, real>): real {
    if i in mark then mark[i] else PositionOf(fs, i).avg
  }

  function OpenOf(keys: seq<nat>, fs: seq<Fill>, mark: map<nat, real>): real {
    if keys == [] then 0.0
    else
      var i := keys[|keys| - 1];
      var p := PositionOf(fs, i);
      OpenOf(keys[..|keys| - 1], fs, mark) + p.held * (MarkOf(fs, i, mark) - p.avg)
  }

  function CashFlowTotal(keys: seq<nat>, fs: seq<Fill>, mark: map<nat, real>): real {
    if keys == [] then 0.0
    else
      var i := keys[|keys| - 1];
      var m := MarkOf(fs, i, mark);
      CashFlowTotal(keys[..|keys| - 1], fs, mark) + BookPnl(fs, i, m, 1.0) + SumOf(fs, i, Excess(m))
  }

  /** The whole session: one average-cost account is many cash-flow books, plus the excess. */
  lemma {:induction false} NetIsCashFlow(keys: seq<nat>, fs: seq<Fill>, mark: map<nat, real>)
    ensures TotalOf(keys, fs, true) + OpenOf(keys, fs, mark) - TotalOf(keys, fs, false)
            == CashFlowTotal(keys, fs, mark)
  {
    hide PositionOf, SumOf, BookPnl, MarkOf;
    if keys != [] {
      var i := keys[|keys| - 1];
      NetIsCashFlow(keys[..|keys| - 1], fs, mark);
      AverageCostIsCashFlow(fs, i, MarkOf(fs, i, mark));
    }
  }

  /** A session read event by event: its net follows from its fills and its last marks alone. */
  method RunSession(es: seq<Event>) returns (account: SessionAccount, net: real)
    ensures account.Valid() && account.fills == FillsOf(es) && account.mark == MarksOf(es)
    ensures net == CashFlowTotal(Traded(FillsOf(es)), FillsOf(es), MarksOf(es))
  {
    account := new SessionAccount();
    for n := 0 to |es|
      invariant account.Valid() && fresh(account) && account.fills == FillsOf(es[..n])
      invariant account.mark == MarksOf(es[..n])
    {
      assert es[..n + 1][..n] == es[..n];
      match es[n]
      case Filled(f) => account.OnFill(f);
      case Marked(inst, mid) => account.OnMark(inst, mid);
    }
    assert es[..|es|] == es;
    net := account.NetPnl();
  }

  // ---- Drawdown --------------------------------------------------------------------------------------

  /** The largest fall from an earlier (or the same) point to a later one. */
  method MaxDrawdown(equity: seq<real>) returns (worst: real)
    ensures forall i, j :: 0 <= i <= j < |equity| ==> equity[i] - equity[j] <= worst
    ensures worst == 0.0 || exists i, j :: 0 <= i <= j < |equity| && equity[i] - equity[j] == worst
    ensures worst >= 0.0
  {
    worst := 0.0;
    if equity == [] { return; }
    var top := 0;
    ghost var low := 0;
    ghost var from := 0;
    for n := 0 to |equity|
      invariant 0 <= top < |equity| && (n > 0 ==> top < n) && (forall i :: 0 <= i < n ==> equity[i] <= equity[top])
      invariant worst >= 0.0 && 0 <= from <= low < |equity|
      invariant worst == equity[from] - equity[low]
      invariant forall i, j :: 0 <= i <= j < n ==> equity[i] - equity[j] <= worst
    {
      if n == 0 || equity[n] > equity[top] { top := n; }
      if equity[top] - equity[n] > worst {
        worst := equity[top] - equity[n];
        from, low := top, n;
      }
    }
  }
}
