/**
  The journal report's books (tools/pnl_report.py), one per instrument: cash, inventory, hour buckets, and
  how a journal fills them.
 */
module InstrumentBooks {
  import opened Wrappers
  import opened PnlBooks
  import opened Executions

  const NS_PER_HOUR := 3_600_000_000_000

  /** A fill with its time and liquidity. */
  datatype Stamped = Stamped(ts: int, fill: Fill, maker: bool)

  /** What the report shows for one hour. */
  datatype Hour = Hour(fills: nat, maker: nat, buy: real, sell: real, notional: real, fees: real, inventory: real)

  const NEW_HOUR := Hour(0, 0, 0.0, 0.0, 0.0, 0.0, 0.0)

  /** The hour a fill is shown in; a fill before the start counts for the first one. */
  function HourOf(ts: int, t0: int): nat { if ts < t0 then 0 else (ts - t0) / NS_PER_HOUR }

  /** Hours are 3600 seconds, counted from the start. */
  lemma HourIs(ts: int, t0: int, h: nat)
    ensures ts >= t0 ==>
              (HourOf(ts, t0) == h <==> t0 + h * 3_600 * 1_000_000_000 <= ts < t0 + (h + 1) * 3_600 * 1_000_000_000)
    ensures ts < t0 ==> HourOf(ts, t0) == 0
  {
  }

  function Notional(f: Fill, mult: real): real { f.px * f.qty * mult }

  /** A commission valued in quote. */
  function FeeIn(f: Fill, mult: real): real {
    match f.asset
    case Quote => f.fee
    case Base => f.fee * f.px * mult
    case Other => 0.0
  }

  // ---- The figures, as sums over the booked fills -------------------------------------------------------

  datatype Column =
    | Fills | Maker | Buy | Sell | Money | Charges | Stock | CashFlow
    | BaseFees | QuoteFees | OtherFees

  function One(b: bool, x: real): real { if b then x else 0.0 }

  function Entry(x: Stamped, c: Column, mult: real): real {
    match c
    case Fills => 1.0
    case Maker => One(x.maker, 1.0)
    case Buy => One(x.fill.buy, x.fill.qty)
    case Sell => One(!x.fill.buy, x.fill.qty)
    case Money => Notional(x.fill, mult)
    case Charges => FeeIn(x.fill, mult)
    case Stock => Delivered(x.fill)
    case CashFlow => CashOf(x.fill, mult)
    case BaseFees => One(x.fill.asset.Base?, x.fill.fee)
    case QuoteFees => One(x.fill.asset.Quote?, x.fill.fee)
    case OtherFees => One(x.fill.asset.Other?, 1.0)
  }

  function ColumnSum(xs: seq<Stamped>, c: Column, mult: real): real {
    if xs == [] then 0.0 else ColumnSum(xs[..|xs| - 1], c, mult) + Entry(xs[|xs| - 1], c, mult)
  }

  /** The fills of one hour. */
  function During(xs: seq<Stamped>, h: nat, t0: int): seq<Stamped> {
    if xs == [] then []
    else
      var rest, x := During(xs[..|xs| - 1], h, t0), xs[|xs| - 1];
      if HourOf(x.ts, t0) == h then rest + [x] else rest
  }

  /** The inventory after the last fill of an hour. */
  function StockAfter(xs: seq<Stamped>, h: nat, t0: int, mult: real): real {
    if xs == [] then 0.0
    else if HourOf(xs[|xs| - 1].ts, t0) == h then ColumnSum(xs, Stock, mult)
    else StockAfter(xs[..|xs| - 1], h, t0, mult)
  }

  /** The bucket of hour `h` shows exactly the fills of that hour. */
  ghost predicate BucketExact(b: Hour, xs: seq<Stamped>, h: nat, t0: int, mult: real) {
    var own := During(xs, h, t0);
    && b.fills == |own| && b.maker as real == ColumnSum(own, Maker, mult)
    && b.buy == ColumnSum(own, Buy, mult) && b.sell == ColumnSum(own, Sell, mult)
    && b.notional == ColumnSum(own, Money, mult) && b.fees == ColumnSum(own, Charges, mult)
    && b.inventory == StockAfter(xs, h, t0, mult)
  }

  ghost predicate HoursExact(hours: map<nat, Hour>, xs: seq<Stamped>, t0: int, mult: real) {
    && (forall h :: h in hours <==> During(xs, h, t0) != [])
    && (forall h :: h in hours ==> BucketExact(hours[h], xs, h, t0, mult))
  }

  function Booked(b: Hour, x: Stamped, mult: real, inventory: real): Hour {
    Hour(b.fills + 1, b.maker + if x.maker then 1 else 0,
         b.buy + One(x.fill.buy, x.fill.qty), b.sell + One(!x.fill.buy, x.fill.qty),
         b.notional + Notional(x.fill, mult), b.fees + FeeIn(x.fill, mult), inventory)
  }

  /** A fill changes the bucket of its own hour and no other. */
  lemma HoursAfter(hours: map<nat, Hour>, xs: seq<Stamped>, x: Stamped, t0: int, mult: real)
    requires HoursExact(hours, xs, t0, mult)
    ensures var h := HourOf(x.ts, t0);
            var b := if h in hours then hours[h] else NEW_HOUR;
            HoursExact(hours[h := Booked(b, x, mult, ColumnSum(xs + [x], Stock, mult))], xs + [x], t0, mult)
  {
    hide ColumnSum, Entry;
    var ys, h := xs + [x], HourOf(x.ts, t0);
    var b := if h in hours then hours[h] else NEW_HOUR;
    var hours' := hours[h := Booked(b, x, mult, ColumnSum(ys, Stock, mult))];
    assert ys[..|xs|] == xs;
    forall k ensures k in hours' <==> During(ys, k, t0) != [] {}
    forall k | k in hours' ensures BucketExact(hours'[k], ys, k, t0, mult) {
      if k == h {
        BucketAfter(b, h in hours, xs, x, t0, mult);
      } else {
        assert BucketExact(hours[k], xs, k, t0, mult);
      }
    }
  }

  lemma BucketAfter(b: Hour, known: bool, xs: seq<Stamped>, x: Stamped, t0: int, mult: real)
    requires var h := HourOf(x.ts, t0);
             if known then BucketExact(b, xs, h, t0, mult) else b == NEW_HOUR && During(xs, h, t0) == []
    ensures BucketExact(Booked(b, x, mult, ColumnSum(xs + [x], Stock, mult)), xs + [x], HourOf(x.ts, t0), t0, mult)
  {
    var h := HourOf(x.ts, t0);
    var own := During(xs, h, t0);
    assert (xs + [x])[..|xs|] == xs;
    assert During(xs + [x], h, t0) == own + [x];
    ColumnAfter(own, x, Maker, mult);
    ColumnAfter(own, x, Buy, mult);
    ColumnAfter(own, x, Sell, mult);
    ColumnAfter(own, x, Money, mult);
    ColumnAfter(own, x, Charges, mult);
  }

  lemma ColumnAfter(xs: seq<Stamped>, x: Stamped, c: Column, mult: real)
    ensures ColumnSum(xs + [x], c, mult) == ColumnSum(xs, c, mult) + Entry(x, c, mult)
  {
    assert (xs + [x])[..|xs|] == xs;
  }

  function Total(xs: seq<real>): real { if xs == [] then 0.0 else Total(xs[..|xs| - 1]) + xs[|xs| - 1] }

  /** A fill as the markouts use it. */
  datatype Trace = Trace(ts: int, sign: real, px: real, qty: real)

  function TraceOf(x: Stamped): Trace { Trace(x.ts, if x.fill.buy then 1.0 else -1.0, x.fill.px, x.fill.qty) }

  /** The running totals of a book, kept as one record. */
  datatype Totals = Totals(
    fills: nat, maker: nat, inventory: real, cash: real, notional: real, buyQty: real, sellQty: real,
    feesQuote: real, feesBase: real, feesQuoteAsset: real, feesOther: nat)

  /** What a book remembers of single fills. */
  datatype Trail = Trail(lastPx: real, firstTs: Option<int>, lastTs: Option<int>, traces: seq<Trace>)

  const NO_TOTALS := Totals(0, 0, 0.0, 0.0, 0.0, 0.0, 0.0, 0.0, 0.0, 0.0, 0)
  const NO_TRAIL := Trail(0.0, None, None, [])

  /** The totals are the sums over the fills; funding is the rest of the cash. */
  ghost predicate Figures(t: Totals, xs: seq<Stamped>, funding: real, mult: real) {
    && t.fills == |xs| && t.maker as real == ColumnSum(xs, Maker, mult)
    && t.inventory == ColumnSum(xs, Stock, mult) && t.cash == ColumnSum(xs, CashFlow, mult) + funding
    && t.notional == ColumnSum(xs, Money, mult)
    && t.buyQty == ColumnSum(xs, Buy, mult) && t.sellQty == ColumnSum(xs, Sell, mult)
    && t.feesQuote == ColumnSum(xs, Charges, mult) && t.feesBase == ColumnSum(xs, BaseFees, mult)
    && t.feesQuoteAsset == ColumnSum(xs, QuoteFees, mult) && t.feesOther as real == ColumnSum(xs, OtherFees, mult)
  }

  /** The trail is that of exactly these fills, in order. */
  ghost predicate Trails(t: Trail, xs: seq<Stamped>) {
    && t.lastPx == (if xs == [] then 0.0 else xs[|xs| - 1].fill.px)
    && t.firstTs == (if xs == [] then None else Some(xs[0].ts))
    && t.lastTs == (if xs == [] then None else Some(xs[|xs| - 1].ts))
    && |t.traces| == |xs| && forall k :: 0 <= k < |xs| ==> t.traces[k] == TraceOf(xs[k])
  }

  /** The totals after one more fill. */
  method AddToTotals(t: Totals, x: Stamped, mult: real, ghost xs: seq<Stamped>, ghost funding: real) returns (u: Totals)
    requires Figures(t, xs, funding, mult)
    ensures Figures(u, xs + [x], funding, mult) && u.inventory == ColumnSum(xs + [x], Stock, mult)
  {
    hide ColumnSum, Delivered, CashOf, FeeIn, Notional;
    var stock, paid, feeQ, amount := Parts(x.fill, mult);
    ColumnsAfter(xs, x, mult);
    var f := x.fill;
    u := Totals(t.fills + 1, t.maker + if x.maker then 1 else 0, t.inventory + stock, t.cash + paid,
                t.notional + amount, t.buyQty + One(f.buy, f.qty), t.sellQty + One(!f.buy, f.qty),
                t.feesQuote + feeQ, t.feesBase + One(f.asset.Base?, f.fee),
                t.feesQuoteAsset + One(f.asset.Quote?, f.fee), t.feesOther + if f.asset.Other? then 1 else 0);
  }

  method AddToTrail(t: Trail, x: Stamped, ghost xs: seq<Stamped>) returns (u: Trail)
    requires Trails(t, xs)
    ensures Trails(u, xs + [x])
  {
    u := Trail(x.fill.px, if t.firstTs.None? then Some(x.ts) else t.firstTs, Some(x.ts), t.traces + [TraceOf(x)]);
  }

  class InstrumentBook {
    const multiplier: real
    const t0: int
    var totals: Totals
    var trail: Trail
    var duplicates: nat
    var funding: real
    var fundingEvents: nat
    var hours: map<nat, Hour>
    ghost var booked: seq<Stamped>
    ghost var funded: seq<real>

    ghost predicate Valid()
      reads this
    {
      && funding == Total(funded) && fundingEvents == |funded|
      && Figures(totals, booked, funding, multiplier) && Trails(trail, booked)
      && HoursExact(hours, booked, t0, multiplier)
    }

    constructor (multiplier: real, t0: int)
      ensures Valid() && booked == [] && funded == [] && duplicates == 0
      ensures this.multiplier == multiplier && this.t0 == t0
    {
      this.multiplier, this.t0 := multiplier, t0;
      totals, trail, duplicates, funding, fundingEvents := NO_TOTALS, NO_TRAIL, 0, 0.0, 0;
      hours, booked, funded := map[], [], [];
    }

    method OnFill(x: Stamped)
      requires Valid()
      modifies this`totals, this`trail, this`hours, this`booked
      ensures Valid() && booked == old(booked) + [x]
    {
      hide Figures, Trails, HoursExact, ColumnSum, Booked, Total;
      var after := AddToTotals(totals, x, multiplier, booked, funding);
      var marks := AddToTrail(trail, x, booked);
      HoursAfter(hours, booked, x, t0, multiplier);
      var h := HourOf(x.ts, t0);
      var b := if h in hours then hours[h] else NEW_HOUR;
      totals, trail, booked := after, marks, booked + [x];
      hours := hours[h := Booked(b, x, multiplier, after.inventory)];
    }

    /** A funding payment is cash in the settlement currency. */
    method OnFunding(amount: real)
      requires Valid()
      modifies this`funding, this`fundingEvents, this`totals, this`funded
      ensures Valid() && funded == old(funded) + [amount]
    {
      hide HoursExact, ColumnSum, Trails;
      assert (funded + [amount])[..|funded|] == funded;
      funding, fundingEvents := funding + amount, fundingEvents + 1;
      totals, funded := totals.(cash := totals.cash + amount), funded + [amount];
    }

    /** Trading PnL in quote: cash plus inventory at the mark; commission is already in both. */
    method Pnl(mark: real) returns (pnl: real)
      requires Valid()
      ensures pnl == ColumnSum(booked, CashFlow, multiplier) + Total(funded)
                     + ColumnSum(booked, Stock, multiplier) * mark * multiplier
      ensures pnl == multiplier * Moves(booked, mark) - PaidIn(booked, Quote)
                     - multiplier * (mark * PaidIn(booked, Base)) + Total(funded)
    {
      hide HoursExact, ColumnSum, Total;
      BookWorth(booked, mark, multiplier);
      pnl := totals.cash + totals.inventory * mark * multiplier;
    }
  }

  /** What a fill does to inventory and to cash, its fee in quote, and its notional. */
  method Parts(f: Fill, mult: real) returns (stock: real, paid: real, feeQ: real, amount: real)
    ensures stock == Delivered(f) && paid == CashOf(f, mult)
    ensures feeQ == FeeIn(f, mult) && amount == Notional(f, mult)
  {
    var held, cashFee := f.qty, 0.0;
    match f.asset {
      case Base => held, feeQ := if f.buy then f.qty - f.fee else f.qty + f.fee, f.fee * f.px * mult;
      case Quote => feeQ, cashFee := f.fee, f.fee;
      case Other => feeQ := 0.0;
    }
    amount := f.px * f.qty * mult;
    if f.buy {
      stock, paid := held, -amount;
    } else {
      stock, paid := -held, amount;
    }
    paid := paid - cashFee;
  }

  lemma ColumnsAfter(xs: seq<Stamped>, x: Stamped, mult: real)
    ensures ColumnSum(xs + [x], Maker, mult) == ColumnSum(xs, Maker, mult) + One(x.maker, 1.0)
    ensures ColumnSum(xs + [x], Stock, mult) == ColumnSum(xs, Stock, mult) + Delivered(x.fill)
    ensures ColumnSum(xs + [x], CashFlow, mult) == ColumnSum(xs, CashFlow, mult) + CashOf(x.fill, mult)
    ensures ColumnSum(xs + [x], Charges, mult) == ColumnSum(xs, Charges, mult) + FeeIn(x.fill, mult)
    ensures ColumnSum(xs + [x], Money, mult) == ColumnSum(xs, Money, mult) + Notional(x.fill, mult)
    ensures ColumnSum(xs + [x], Buy, mult) == ColumnSum(xs, Buy, mult) + One(x.fill.buy, x.fill.qty)
    ensures ColumnSum(xs + [x], Sell, mult) == ColumnSum(xs, Sell, mult) + One(!x.fill.buy, x.fill.qty)
    ensures ColumnSum(xs + [x], BaseFees, mult) == ColumnSum(xs, BaseFees, mult) + One(x.fill.asset.Base?, x.fill.fee)
    ensures ColumnSum(xs + [x], QuoteFees, mult)
            == ColumnSum(xs, QuoteFees, mult) + One(x.fill.asset.Quote?, x.fill.fee)
    ensures ColumnSum(xs + [x], OtherFees, mult) == ColumnSum(xs, OtherFees, mult) + One(x.fill.asset.Other?, 1.0)
  {
    assert (xs + [x])[..|xs|] == xs;
  }

  /** A book that only ever traded instrument `i` has the cash and the inventory of PnlBooks. */
  lemma {:induction false} ColumnsAreSums(xs: seq<Stamped>, i: nat, mult: real)
    requires forall k :: 0 <= k < |xs| ==> xs[k].fill.inst == i
    ensures ColumnSum(xs, CashFlow, mult) == SumOf(Plain(xs), i, Cash(mult))
    ensures ColumnSum(xs, Stock, mult) == SumOf(Plain(xs), i, Inventory)
  {
    if xs != [] {
      var n := |xs| - 1;
      ColumnsAreSums(xs[..n], i, mult);
      assert Plain(xs)[..n] == Plain(xs[..n]);
    }
  }

  function Plain(xs: seq<Stamped>): seq<Fill> { seq(|xs|, k requires 0 <= k < |xs| => xs[k].fill) }

  // ---- What a book is worth ------------------------------------------------------------------------------

  /** How far the mark has moved from the prices, times signed quantities: from the fills alone. */
  function Moves(xs: seq<Stamped>, mark: real): real {
    if xs == [] then 0.0
    else
      var f := xs[|xs| - 1].fill;
      Moves(xs[..|xs| - 1], mark) + Move(f, mark)
  }

  /** The commissions paid in one asset, in its own units. */
  function PaidIn(xs: seq<Stamped>, asset: FeeAsset): real {
    if xs == [] then 0.0
    else
      var f := xs[|xs| - 1].fill;
      PaidIn(xs[..|xs| - 1], asset) + FeeIf(f, asset)
  }

  /** Cash and inventory at a mark. */
  function At(cash: real, stock: real, mark: real, mult: real): real { cash + stock * mark * mult }

  /** Moves and commissions at a mark. */
  function Net(moves: real, quote: real, base: real, mark: real, mult: real): real {
    mult * moves - quote - mult * (mark * base)
  }

  lemma AtAdds(c: real, s: real, d: real, t: real, mark: real, mult: real)
    ensures At(c + d, s + t, mark, mult) == At(c, s, mark, mult) + At(d, t, mark, mult)
  {
    assert (s + t) * mark == s * mark + t * mark;
    assert (s * mark + t * mark) * mult == s * mark * mult + t * mark * mult;
  }

  lemma NetAdds(m: real, q: real, b: real, n: real, r: real, c: real, mark: real, mult: real)
    ensures Net(m + n, q + r, b + c, mark, mult) == Net(m, q, b, mark, mult) + Net(n, r, c, mark, mult)
  {
    assert mult * (m + n) == mult * m + mult * n;
    assert mark * (b + c) == mark * b + mark * c;
    assert mult * (mark * b + mark * c) == mult * (mark * b) + mult * (mark * c);
  }

  function Move(f: Fill, mark: real): real { (if f.buy then f.qty else -f.qty) * (mark - f.px) }

  function FeeIf(f: Fill, asset: FeeAsset): real { if f.asset == asset then f.fee else 0.0 }

  lemma FillAtIsNet(f: Fill, mark: real, mult: real)
    ensures At(CashOf(f, mult), Delivered(f), mark, mult) == Net(Move(f, mark), FeeIf(f, Quote), FeeIf(f, Base), mark,
            mult)
  {
    FillWorth(f, mark, mult);
    hide CashOf, Delivered;
  }

  lemma {:induction false} BookAtIsNet(xs: seq<Stamped>, mark: real, mult: real)
    ensures At(ColumnSum(xs, CashFlow, mult), ColumnSum(xs, Stock, mult), mark, mult)
            == Net(Moves(xs, mark), PaidIn(xs, Quote), PaidIn(xs, Base), mark, mult)
  {
    if xs == [] {
      assert 0.0 * mark * mult == 0.0 && mult * 0.0 == 0.0 && mark * 0.0 == 0.0;
    } else {
      hide At, Net, Move, FeeIf, CashOf, Delivered;
      var rest, f := xs[..|xs| - 1], xs[|xs| - 1].fill;
      BookAtIsNet(rest, mark, mult);
      FillAtIsNet(f, mark, mult);
      AtAdds(ColumnSum(rest, CashFlow, mult), ColumnSum(rest, Stock, mult), CashOf(f, mult), Delivered(f), mark, mult);
      NetAdds(Moves(rest, mark), PaidIn(rest, Quote), PaidIn(rest, Base), Move(f, mark), FeeIf(f, Quote), FeeIf(f,
          Base),
              mark, mult);
    }
  }

  /**
    At any multiplier and any mark a book is worth the moves of its fills times the multiplier, less the
    commissions in quote, and less those in base at the mark.
   */
  lemma BookWorth(xs: seq<Stamped>, mark: real, mult: real)
    ensures ColumnSum(xs, CashFlow, mult) + ColumnSum(xs, Stock, mult) * mark * mult
            == mult * Moves(xs, mark) - PaidIn(xs, Quote) - mult * (mark * PaidIn(xs, Base))
  {
    hide ColumnSum, Moves, PaidIn;
    BookAtIsNet(xs, mark, mult);
  }

  /** A round trip earns the difference in price, times quantity and multiplier, whatever the mark. */
  lemma RoundTrip(ts: int, i: nat, p1: real, p2: real, q: real, mult: real, mark: real)
    ensures var buy, sell := Stamped(ts, Fill(i, true, p1, q, 0.0, Quote), true), Stamped(ts, Fill(i, false, p2, q,
            0.0, Quote), true);
            ColumnSum([buy, sell], CashFlow, mult) + ColumnSum([buy, sell], Stock, mult) * mark * mult
            == mult * (q * (p2 - p1))
  {
    var buy, sell := Stamped(ts, Fill(i, true, p1, q, 0.0, Quote), true), Stamped(ts, Fill(i, false, p2, q, 0.0,
        Quote), true);
    var xs := [buy, sell];
    BookWorth(xs, mark, mult);
    hide ColumnSum;
    assert xs[..1] == [buy] && [buy][..0] == [];
    assert Moves([buy], mark) == q * (mark - p1);
    assert Moves(xs, mark) == q * (mark - p1) + (-q) * (mark - p2);
    assert q * (mark - p1) + (-q) * (mark - p2) == q * (p2 - p1);
    assert PaidIn([buy], Quote) == 0.0 && PaidIn([buy], Base) == 0.0;
  }

  /** What the trail's fills have gained at a mark, before the multiplier. */
  function TraceGain(traces: seq<Trace>, mark: real): real {
    if traces == [] then 0.0
    else
      var t := traces[|traces| - 1];
      TraceGain(traces[..|traces| - 1], mark) + t.sign * (mark - t.px) * t.qty
  }

  /** The markouts see the fills as the books do: at any one mark the trail gains the moves of the fills. */
  lemma {:induction false} TrailMoves(t: Trail, xs: seq<Stamped>, mark: real)
    requires Trails(t, xs)
    ensures TraceGain(t.traces, mark) == Moves(xs, mark)
    ensures forall k :: 0 <= k < |xs| ==> t.traces[k].ts == xs[k].ts
    decreases |xs|
  {
    if xs != [] {
      var n := |xs| - 1;
      var rest := Trail(if n == 0 then 0.0 else xs[n - 1].fill.px, if n == 0 then None else Some(xs[0].ts),
                        if n == 0 then None else Some(xs[n - 1].ts), t.traces[..n]);
      TrailMoves(rest, xs[..n], mark);
      assert t.traces[n] == TraceOf(xs[n]);
    }
  }

  /** What was bought and sold, at its prices. */
  function Value(xs: seq<Stamped>, buy: bool): real {
    if xs == [] then 0.0
    else
      var f := xs[|xs| - 1].fill;
      Value(xs[..|xs| - 1], buy) + if f.buy == buy then f.px * f.qty else 0.0
  }

  function BaseFeeValue(xs: seq<Stamped>): real {
    if xs == [] then 0.0
    else
      var f := xs[|xs| - 1].fill;
      BaseFeeValue(xs[..|xs| - 1]) + if f.asset == Base then f.fee * f.px else 0.0
  }

  function Times(mult: real, x: real): real { mult * x }

  lemma TimesAdds(mult: real, x: real, y: real)
    ensures Times(mult, x + y) == Times(mult, x) + Times(mult, y) && Times(mult, 0.0) == 0.0
  {
  }

  lemma FillColumns(f: Fill, mult: real)
    ensures Notional(f, mult) == Times(mult, f.px * f.qty)
    ensures CashOf(f, mult) == (if f.buy then -Times(mult, f.px * f.qty) else Times(mult, f.px * f.qty)) - FeeIf(f,
            Quote)
    ensures FeeIn(f, mult) == FeeIf(f, Quote) + if f.asset == Base then Times(mult, f.fee * f.px) else 0.0
  {
    assert f.px * f.qty * mult == mult * (f.px * f.qty) && f.fee * f.px * mult == mult * (f.fee * f.px);
  }

  lemma {:induction false} ColumnsAreTimes(xs: seq<Stamped>, mult: real)
    ensures ColumnSum(xs, Money, mult) == Times(mult, Value(xs, true)) + Times(mult, Value(xs, false))
    ensures ColumnSum(xs, CashFlow, mult)
            == Times(mult, Value(xs, false)) - Times(mult, Value(xs, true)) - PaidIn(xs, Quote)
    ensures ColumnSum(xs, Charges, mult) == PaidIn(xs, Quote) + Times(mult, BaseFeeValue(xs))
    ensures ColumnSum(xs, QuoteFees, mult) == PaidIn(xs, Quote) && ColumnSum(xs, BaseFees, mult) == PaidIn(xs, Base)
  {
    hide Times, Notional, CashOf, FeeIn;
    if xs == [] {
      TimesAdds(mult, 0.0, 0.0);
    } else {
      var rest, f := xs[..|xs| - 1], xs[|xs| - 1].fill;
      ColumnsAreTimes(rest, mult);
      FillColumns(f, mult);
      TimesAdds(mult, Value(rest, f.buy), f.px * f.qty);
      TimesAdds(mult, BaseFeeValue(rest), f.fee * f.px);
      assert Value(xs, f.buy) == Value(rest, f.buy) + f.px * f.qty && Value(xs, !f.buy) == Value(rest, !f.buy);
      assert BaseFeeValue(xs) == if f.asset == Base then BaseFeeValue(rest) + f.fee * f.px else BaseFeeValue(rest);
      if f.buy { assert Value(xs, true) == Value(rest, true) + f.px * f.qty; }
    }
  }

  /** The other columns, from the fills alone: notional, cash, commissions. */
  lemma ColumnsFromFills(xs: seq<Stamped>, mult: real)
    ensures ColumnSum(xs, Money, mult) == mult * Value(xs, true) + mult * Value(xs, false)
    ensures ColumnSum(xs, CashFlow, mult) == mult * Value(xs, false) - mult * Value(xs, true) - PaidIn(xs, Quote)
    ensures ColumnSum(xs, Charges, mult) == PaidIn(xs, Quote) + mult * BaseFeeValue(xs)
    ensures ColumnSum(xs, QuoteFees, mult) == PaidIn(xs, Quote) && ColumnSum(xs, BaseFees, mult) == PaidIn(xs, Base)
  {
    hide ColumnSum, Value, PaidIn, BaseFeeValue;
    ColumnsAreTimes(xs, mult);
  }

  // ---- Reading a journal ---------------------------------------------------------------------------------

  function Whats(xs: seq<Exec<Stamped>>): seq<Stamped> { seq(|xs|, k requires 0 <= k < |xs| => xs[k].what) }

  /** The fills determine the hours shown. */
  lemma HoursDetermined(hours: map<nat, Hour>, again: map<nat, Hour>, xs: seq<Stamped>, t0: int, mult: real)
    requires HoursExact(hours, xs, t0, mult) && HoursExact(again, xs, t0, mult)
    ensures hours == again
  {
    hide During, ColumnSum, StockAfter;
    forall h ensures h in hours <==> h in again { assert h in hours <==> During(xs, h, t0) != []; }
    forall h | h in hours ensures hours[h] == again[h] {
      assert BucketExact(hours[h], xs, h, t0, mult) && BucketExact(again[h], xs, h, t0, mult);
    }
  }

  lemma TrailsDetermined(t: Trail, u: Trail, xs: seq<Stamped>)
    requires Trails(t, xs) && Trails(u, xs)
    ensures t == u
  {
    assert t.traces == u.traces;
  }

  /** The executions of one instrument. */
  function Of<T>(xs: seq<Exec<T>>, i: nat): seq<Exec<T>> {
    if xs == [] then []
    else
      var rest, e := Of(xs[..|xs| - 1], i), xs[|xs| - 1];
      if e.inst == i then rest + [e] else rest
  }

  lemma {:induction false} KeysOfInstrument<T>(xs: seq<Exec<T>>, i: nat, k: Key, text: bool)
    requires k.inst == i
    ensures k in Keys(Of(xs, i), text) <==> k in Keys(xs, text)
  {
    if xs != [] {
      var rest, e := xs[..|xs| - 1], xs[|xs| - 1];
      KeysOfInstrument(rest, i, k, text);
      assert (Of(rest, i) + [e])[..|Of(rest, i)|] == Of(rest, i);
    }
  }

  /** Instruments do not interfere: deduplicating a session and each instrument's part are one. */
  lemma {:induction false} KeptPerInstrument<T>(xs: seq<Exec<T>>, i: nat, text: bool)
    ensures Of(Kept(xs, text), i) == Kept(Of(xs, i), text)
  {
    if xs != [] {
      var rest, e := xs[..|xs| - 1], xs[|xs| - 1];
      KeptPerInstrument(rest, i, text);
      if e.inst == i {
        KeysOfInstrument(rest, i, KeyOf(e, text), text);
        assert (Of(rest, i) + [e])[..|Of(rest, i)|] == Of(rest, i);
      }
      assert (Kept(rest, text) + [e])[..|Kept(rest, text)|] == Kept(rest, text);
    }
  }

  /** The book of an instrument's executions and funding: each identified execution booked once. */
  ghost predicate IsReading(book: InstrumentBook, xs: seq<Exec<Stamped>>, paid: seq<real>, multiplier: real, t0: int)
    reads book
  {
    && book.Valid() && book.booked == Whats(Kept(xs, true)) && book.funded == paid
    && book.multiplier == multiplier && book.t0 == t0 && book.duplicates + book.totals.fills == |xs|
  }

  /** One execution of an instrument: a repeated one only counts as a duplicate. */
  method TakeExecution(book: InstrumentBook, e: Exec<Stamped>, repeated: bool, ghost xs: seq<Exec<Stamped>>,
                       ghost paid: seq<real>)
    requires IsReading(book, xs, paid, book.multiplier, book.t0) && repeated == Repeats(e, Keys(xs, true), true)
    modifies book
    ensures IsReading(book, xs + [e], paid, book.multiplier, book.t0)
  {
    hide HoursExact, ColumnSum, Total, Trails, Keys;
    assert (xs + [e])[..|xs|] == xs;
    if repeated {
      book.duplicates := book.duplicates + 1;
    } else {
      ghost var kept := Kept(xs, true);
      assert Whats(kept + [e]) == Whats(kept) + [e.what];
      book.OnFill(e.what);
    }
  }

  method TakeFunding(book: InstrumentBook, amount: real, ghost xs: seq<Exec<Stamped>>, ghost paid: seq<real>)
    requires IsReading(book, xs, paid, book.multiplier, book.t0)
    modifies book
    ensures IsReading(book, xs, paid + [amount], book.multiplier, book.t0)
  {
    hide HoursExact, ColumnSum, Total, Trails;
    book.OnFunding(amount);
  }

  /** What the report reads of a journal: executions and funding payments of any instruments. */
  datatype Record = Execution(e: Exec<Stamped>) | Funding(inst: nat, amount: real)

  function InstOf(r: Record): nat { if r.Execution? then r.e.inst else r.inst }

  function Execs(rs: seq<Record>): seq<Exec<Stamped>> {
    if rs == [] then []
    else
      var r := rs[|rs| - 1];
      Execs(rs[..|rs| - 1]) + if r.Execution? then [r.e] else []
  }

  /** The executions of one instrument in a journal. */
  function ExecsOf(rs: seq<Record>, i: nat): seq<Exec<Stamped>> { Of(Execs(rs), i) }

  function FundingOf(rs: seq<Record>, i: nat): seq<real> {
    if rs == [] then []
    else
      var r := rs[|rs| - 1];
      FundingOf(rs[..|rs| - 1], i) + if r.Funding? && r.inst == i then [r.amount] else []
  }

  /** Some record of the journal is about instrument `i`. */
  function Mentions(rs: seq<Record>): set<nat> {
    if rs == [] then {} else Mentions(rs[..|rs| - 1]) + {InstOf(rs[|rs| - 1])}
  }

  /** One record moves its own instrument's part of the journal and no other. */
  lemma RecordNext(rs: seq<Record>, r: Record, i: nat)
    ensures Mentions(rs + [r]) == Mentions(rs) + {InstOf(r)}
    ensures ExecsOf(rs + [r], i) == ExecsOf(rs, i) + if r.Execution? && r.e.inst == i then [r.e] else []
    ensures FundingOf(rs + [r], i) == FundingOf(rs, i) + if r.Funding? && r.inst == i then [r.amount] else []
    ensures Execs(rs + [r]) == Execs(rs) + if r.Execution? then [r.e] else []
  {
    assert (rs + [r])[..|rs|] == rs;
    if r.Execution? {
      assert (Execs(rs) + [r.e])[..|Execs(rs)|] == Execs(rs);
    } else {
      assert Execs(rs) + [] == Execs(rs);
    }
  }

  lemma {:induction false} UnmentionedIsEmpty(rs: seq<Record>, i: nat)
    requires i !in Mentions(rs)
    ensures ExecsOf(rs, i) == [] && FundingOf(rs, i) == []
  {
    if rs != [] {
      var rest, r := rs[..|rs| - 1], rs[|rs| - 1];
      assert rs == rest + [r];
      RecordNext(rest, r, i);
      UnmentionedIsEmpty(rest, i);
    }
  }

  type Books = map<nat, InstrumentBook>

  /** One book for every instrument mentioned, none shared, each the reading of its own records. */
  ghost predicate AllRead(books: Books, rs: seq<Record>, mult: nat -> real, t0: int)
    reads set i | i in books :: books[i]
  {
    && books.Keys == Mentions(rs)
    && (forall i, j :: i in books && j in books && i != j ==> books[i] != books[j])
    && forall i :: i in books ==> IsReading(books[i], ExecsOf(rs, i), FundingOf(rs, i), mult(i), t0)
  }

  ghost function Objects(books: Books): set<InstrumentBook> { set i | i in books :: books[i] }

  /** The book of instrument `i`, new if there is none yet. */
  method BookOf(books: Books, i: nat, mult: real, t0: int) returns (next: Books)
    ensures i in next && next == (if i in books then books else books[i := next[i]])
    ensures i !in books ==> fresh(next[i]) && IsReading(next[i], [], [], mult, t0)
  {
    next := books;
    if i !in books {
      var book := new InstrumentBook(mult, t0);
      next := books[i := book];
    }
  }

  /** One record goes to its own instrument's book, as a duplicate if its key has been booked anywhere. */
  method ReadOne(books: Books, booked: set<Key>, r: Record, mult: nat -> real, t0: int, ghost rs: seq<Record>)
    returns (next: Books, keys: set<Key>)
    requires AllRead(books, rs, mult, t0) && booked == Keys(Execs(rs), true)
    modifies Objects(books)
    ensures AllRead(next, rs + [r], mult, t0) && keys == Keys(Execs(rs + [r]), true)
    ensures forall o :: o in Objects(next) ==> o in Objects(books) || fresh(o)
  {
    hide IsReading, ExecsOf, FundingOf, Kept, Keys, Execs, Mentions;
    var i := InstOf(r);
    next := BookOf(books, i, mult(i), t0);
    if i !in books { UnmentionedIsEmpty(rs, i); }
    var book := next[i];
    assert forall j :: j in next && j != i ==> next[j] != book;
    assert IsReading(book, ExecsOf(rs, i), FundingOf(rs, i), mult(i), t0);
    ReadingHas(book, ExecsOf(rs, i), FundingOf(rs, i), mult(i), t0);
    keys := TakeRecord(book, r, booked, rs);
    forall j | j in next ensures IsReading(next[j], ExecsOf(rs + [r], j), FundingOf(rs + [r], j), mult(j), t0) {
      if j != i { OthersKeep(rs, r, j); }
    }
    RecordNext(rs, r, i);
  }

  lemma OthersKeep(rs: seq<Record>, r: Record, j: nat)
    requires j != InstOf(r)
    ensures ExecsOf(rs + [r], j) == ExecsOf(rs, j) && FundingOf(rs + [r], j) == FundingOf(rs, j)
  {
    RecordNext(rs, r, j);
  }

  /** One record and the book of its instrument. */
  method TakeRecord(book: InstrumentBook, r: Record, booked: set<Key>, ghost rs: seq<Record>) returns (keys: set<Key>)
    requires IsReading(book, ExecsOf(rs, InstOf(r)), FundingOf(rs, InstOf(r)), book.multiplier, book.t0)
    requires booked == Keys(Execs(rs), true)
    modifies book
    ensures IsReading(book, ExecsOf(rs + [r], InstOf(r)), FundingOf(rs + [r], InstOf(r)), book.multiplier, book.t0)
    ensures keys == Keys(Execs(rs + [r]), true)
  {
    hide IsReading, ExecsOf, FundingOf, Kept, Keys;
    ghost var xs, paid := ExecsOf(rs, InstOf(r)), FundingOf(rs, InstOf(r));
    RecordNext(rs, r, InstOf(r));
    assert xs + [] == xs && paid + [] == paid && Execs(rs) + [] == Execs(rs);
    keys := booked;
    match r {
      case Execution(e) =>
        var key := KeyOf(e, true);
        SameRepeats(rs, e);
        TakeExecution(book, e, e.id != [] && key in booked, xs, paid);
        KeysNext(Execs(rs), e);
        keys := keys + {key};
      case Funding(_, amount) =>
        TakeFunding(book, amount, xs, paid);
    }
  }

  lemma ReadingHas(book: InstrumentBook, xs: seq<Exec<Stamped>>, paid: seq<real>, mult: real, t0: int)
    requires IsReading(book, xs, paid, mult, t0)
    ensures book.multiplier == mult && book.t0 == t0
  {
  }

  lemma KeysNext(xs: seq<Exec<Stamped>>, e: Exec<Stamped>)
    ensures Keys(xs + [e], true) == Keys(xs, true) + {KeyOf(e, true)}
  {
    assert (xs + [e])[..|xs|] == xs;
  }

  /** A key has been booked in the journal exactly when it has been in its instrument's part of it. */
  lemma SameRepeats(rs: seq<Record>, e: Exec<Stamped>)
    ensures Repeats(e, Keys(Execs(rs), true), true) <==> Repeats(e, Keys(ExecsOf(rs, e.inst), true), true)
  {
    KeysOfInstrument(Execs(rs), e.inst, KeyOf(e, true), true);
  }

  /** The books of a journal. */
  method ReadFills(rs: seq<Record>, mult: nat -> real, t0: int) returns (books: Books)
    ensures AllRead(books, rs, mult, t0) && forall o :: o in Objects(books) ==> fresh(o)
  {
    hide AllRead;
    books := map[];
    var booked: set<Key> := {};
    NothingRead(mult, t0);
    for n := 0 to |rs|
      invariant AllRead(books, rs[..n], mult, t0) && booked == Keys(Execs(rs[..n]), true)
      invariant forall o :: o in Objects(books) ==> fresh(o)
    {
      assert rs[..n + 1] == rs[..n] + [rs[n]];
      books, booked := ReadOne(books, booked, rs[n], mult, t0, rs[..n]);
    }
    assert rs[..|rs|] == rs;
  }

  lemma NothingRead(mult: nat -> real, t0: int)
    ensures AllRead(map[], [], mult, t0) && Keys(Execs([]), true) == {}
  {
  }

  // ---- A replayed execution ----------------------------------------------------------------------------

  lemma {:induction false} RecordsJoin(a: seq<Record>, b: seq<Record>, i: nat)
    ensures ExecsOf(a + b, i) == ExecsOf(a, i) + ExecsOf(b, i)
    ensures FundingOf(a + b, i) == FundingOf(a, i) + FundingOf(b, i)
    ensures Mentions(a + b) == Mentions(a) + Mentions(b)
    decreases |b|
  {
    hide ExecsOf, FundingOf;
    if b == [] {
      assert a + b == a;
      UnmentionedIsEmpty(b, i);
    } else {
      var rest, r := b[..|b| - 1], b[|b| - 1];
      assert b == rest + [r] && a + b == (a + rest) + [r];
      RecordsJoin(a, rest, i);
      RecordNext(rest, r, i);
      RecordNext(a + rest, r, i);
      var more := if r.Execution? && r.e.inst == i then [r.e] else [];
      assert ExecsOf(a, i) + ExecsOf(rest, i) + more == ExecsOf(a, i) + (ExecsOf(rest, i) + more);
      var paid := if r.Funding? && r.inst == i then [r.amount] else [];
      assert FundingOf(a, i) + FundingOf(rest, i) + paid == FundingOf(a, i) + (FundingOf(rest, i) + paid);
    }
  }

  lemma {:induction false} BookedIsMentioned(rs: seq<Record>, e: Exec<Stamped>)
    requires KeyOf(e, true) in Keys(Execs(rs), true)
    ensures e.inst in Mentions(rs)
  {
    if rs != [] {
      var rest, r := rs[..|rs| - 1], rs[|rs| - 1];
      assert rs == rest + [r];
      RecordNext(rest, r, e.inst);
      if r.Execution? { KeysNext(Execs(rest), r.e); } else { assert Execs(rest) + [] == Execs(rest); }
      if KeyOf(e, true) in Keys(Execs(rest), true) { BookedIsMentioned(rest, e); }
    }
  }

  /** Everything the report prints of a book is the same, but for the duplicates. */
  ghost predicate SameFigures(book: InstrumentBook, again: InstrumentBook)
    reads book, again
  {
    && book.totals == again.totals && book.trail == again.trail && book.hours == again.hours
    && book.funding == again.funding && book.fundingEvents == again.fundingEvents
  }

  /** Two readings that kept the same executions and payments. */
  lemma SameKept(book: InstrumentBook, again: InstrumentBook, xs: seq<Exec<Stamped>>, ys: seq<Exec<Stamped>>,
                 paid: seq<real>, mult: real, t0: int)
    requires IsReading(book, xs, paid, mult, t0) && IsReading(again, ys, paid, mult, t0)
    requires Kept(xs, true) == Kept(ys, true)
    ensures SameFigures(book, again) && again.duplicates - book.duplicates == |ys| - |xs|
  {
    hide ColumnSum, HoursExact, Total, Trails, Kept;
    HoursDetermined(book.hours, again.hours, book.booked, t0, mult);
    TrailsDetermined(book.trail, again.trail, book.booked);
  }

  /** The replayed record lengthens its own instrument's part, by a repeat. */
  lemma ReplayedPart(a: seq<Record>, e: Exec<Stamped>, b: seq<Record>, i: nat)
    requires Repeats(e, Keys(Execs(a), true), true)
    ensures var xs, ys := ExecsOf(a + b, i), ExecsOf(a + [Execution(e)] + b, i);
            Kept(xs, true) == Kept(ys, true) && |ys| == |xs| + if i == e.inst then 1 else 0
    ensures FundingOf(a + [Execution(e)] + b, i) == FundingOf(a + b, i)
    ensures Mentions(a + [Execution(e)] + b) == Mentions(a + b)
  {
    hide ExecsOf, FundingOf, Keys, Kept, Mentions;
    RecordsJoin(a, b, i);
    RecordsJoin(a + [Execution(e)], b, i);
    RecordNext(a, Execution(e), i);
    BookedIsMentioned(a, e);
    if i == e.inst {
      SameRepeats(a, e);
      ReplayIsIgnored(ExecsOf(a, i), e, ExecsOf(b, i), true);
    } else {
      assert ExecsOf(a, i) + [] == ExecsOf(a, i);
    }
    assert FundingOf(a, i) + [] == FundingOf(a, i);
  }

  /**
    Reading a journal with a replayed execution, wherever it comes after its first delivery: every book of
    every instrument shows the same figures, and its own instrument's counts exactly one more duplicate.
   */
  lemma ReplayChangesNothing(a: seq<Record>, e: Exec<Stamped>, b: seq<Record>, mult: nat -> real, t0: int, books: Books,
                             again: Books)
    requires Repeats(e, Keys(Execs(a), true), true)
    requires AllRead(books, a + b, mult, t0) && AllRead(again, a + [Execution(e)] + b, mult, t0)
    ensures books.Keys == again.Keys
    ensures forall i :: i in books ==>
              && SameFigures(books[i], again[i])
              && again[i].duplicates == books[i].duplicates + if i == e.inst then 1 else 0
  {
    hide ExecsOf, FundingOf, Keys, Kept, IsReading, SameFigures;
    ReplayedPart(a, e, b, e.inst);
    forall i | i in books
      ensures SameFigures(books[i], again[i])
      ensures again[i].duplicates == books[i].duplicates + if i == e.inst then 1 else 0
    {
      ReplayedPart(a, e, b, i);
      SameKept(books[i], again[i], ExecsOf(a + b, i), ExecsOf(a + [Execution(e)] + b, i), FundingOf(a + b, i),
               mult(i), t0);
    }
  }

  /** Both readings, side by side. */
  method ReadWithReplay(a: seq<Record>, e: Exec<Stamped>, b: seq<Record>, mult: nat -> real, t0: int)
    returns (books: Books, again: Books)
    requires Repeats(e, Keys(Execs(a), true), true)
    ensures AllRead(books, a + b, mult, t0) && AllRead(again, a + [Execution(e)] + b, mult, t0)
    ensures books.Keys == again.Keys
    ensures forall i :: i in books ==>
              && SameFigures(books[i], again[i])
              && again[i].duplicates == books[i].duplicates + if i == e.inst then 1 else 0
  {
    hide AllRead, SameFigures, Keys;
    books := ReadFills(a + b, mult, t0);
    again := ReadFills(a + [Execution(e)] + b, mult, t0);
    ReplayChangesNothing(a, e, b, mult, t0, books, again);
  }
}
