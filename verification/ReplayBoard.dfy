/**
  The replay board's score (tools/replay_board.py): what the fills and the start positions of a run
  earn on the bars' mids, split over buckets of the day. Money is real; rounding is not modelled.
 */
module ReplayBoard {
  import opened Arith
  import opened Wrappers
  import opened Sequences

  /** The bars of one symbol: times and the mids from then on. */
  datatype Quotes = Quotes(ts: seq<int>, mids: seq<real>)

  type Series = map<string, Quotes>

  ghost predicate Ascending(ts: seq<int>) { forall i, j :: 0 <= i < j < |ts| ==> ts[i] <= ts[j] }

  ghost predicate Ordered(series: Series) {
    forall s :: s in series ==> |series[s].ts| == |series[s].mids| && Ascending(series[s].ts)
  }

  /** The mid of the last bar at or before `t`. */
  function Latest(ts: seq<int>, mids: seq<real>, t: int): (r: Option<real>)
    ensures r.Some? <==> exists i :: 0 <= i < |ts| && i < |mids| && ts[i] <= t
  {
    var n := if |ts| <= |mids| then |ts| else |mids|;
    if n == 0 then None
    else if ts[n - 1] <= t then Some(mids[n - 1])
    else
      assert forall i :: 0 <= i < n - 1 ==> ts[..n - 1][i] == ts[i];
      Latest(ts[..n - 1], mids[..n - 1], t)
  }

  function MidAt(series: Series, s: string, t: int): Option<real> {
    if s in series then Latest(series[s].ts, series[s].mids, t) else None
  }

  /** Once a symbol has a mid it always has one. */
  lemma MidStays(series: Series, s: string, t: int, u: int)
    requires t <= u && MidAt(series, s, t).Some?
    ensures MidAt(series, s, u).Some?
  {
    var q := series[s];
    var i :| 0 <= i < |q.ts| && i < |q.mids| && q.ts[i] <= t;
    assert q.ts[i] <= u;
  }

  lemma {:induction false} LatestAt(ts: seq<int>, mids: seq<real>, t: int, k: nat)
    requires |ts| == |mids| && k <= |ts|
    requires (forall i :: 0 <= i < k ==> ts[i] <= t) && forall i :: k <= i < |ts| ==> ts[i] > t
    ensures Latest(ts, mids, t) == if k > 0 then Some(mids[k - 1]) else None
  {
    if k < |ts| {
      var n := |ts| - 1;
      LatestAt(ts[..n], mids[..n], t, k);
    }
  }

  /** bisect_right, then the entry before it. */
  method FindMid(series: Series, s: string, t: int) returns (r: Option<real>)
    requires Ordered(series)
    ensures r == MidAt(series, s, t)
  {
    if s !in series { return None; }
    var ts, mids := series[s].ts, series[s].mids;
    var lo, hi := 0, |ts|;
    while lo < hi
      invariant 0 <= lo <= hi <= |ts|
      invariant (forall i :: 0 <= i < lo ==> ts[i] <= t) && forall i :: hi <= i < |ts| ==> ts[i] > t
    {
      var m := (lo + hi) / 2;
      if t < ts[m] { hi := m; } else { lo := m + 1; }
    }
    LatestAt(ts, mids, t, lo);
    r := if lo > 0 then Some(mids[lo - 1]) else None;
  }

  // ---- Buckets of the day ------------------------------------------------------------------------------

  /** From an hour to an hour, across midnight when the first is not the smaller. */
  datatype Span = Span(name: string, from: real, to: real)

  predicate Covers(s: Span, h: real) { if s.from < s.to then s.from <= h < s.to else h >= s.from || h < s.to }

  /** A span and the span from its end to its start share the day between them; a span starts at its start. */
  lemma SpansPartition(name: string, a: real, b: real, h: real)
    ensures a != b ==> (Covers(Span(name, a, b), h) <==> !Covers(Span(name, b, a), h))
    ensures a == b ==> Covers(Span(name, a, b), h)
    ensures Covers(Span(name, a, b), a) && (a != b ==> !Covers(Span(name, a, b), b))
    ensures a <= h && h < b ==> Covers(Span(name, a, b), h)
    ensures a < b && (h < a || b <= h) ==> !Covers(Span(name, a, b), h)
  {
  }

  function NameAt(buckets: seq<Span>, h: real): string {
    if buckets == [] then "other" else if Covers(buckets[0], h) then buckets[0].name else NameAt(buckets[1..], h)
  }

  method BucketOf(buckets: seq<Span>, h: real) returns (name: string)
    ensures name == NameAt(buckets, h)
  {
    for i := 0 to |buckets|
      invariant NameAt(buckets, h) == NameAt(buckets[i..], h)
    {
      assert buckets[i..][1..] == buckets[i + 1..];
      if Covers(buckets[i], h) { return buckets[i].name; }
    }
    return "other";
  }

  method BucketAt(c: Board, t: int) returns (name: string)
    ensures name == NameOf(c, t)
  {
    name := BucketOf(c.buckets, c.hour(t));
  }

  /** The hour of the day decides, and the first bucket that covers it wins. */
  lemma {:induction false} FirstBucketWins(buckets: seq<Span>, h: real, i: nat)
    requires i <= |buckets| && forall j :: 0 <= j < i ==> !Covers(buckets[j], h)
    requires i < |buckets| ==> Covers(buckets[i], h)
    ensures NameAt(buckets, h) == if i < |buckets| then buckets[i].name else "other"
  {
    if i > 0 {
      FirstBucketWins(buckets[1..], h, i - 1);
    }
  }

  // ---- The fills of a run ------------------------------------------------------------------------------

  /** A fill, with the mids recorded at the horizons after it where there are any. */
  datatype Row = Row(ts: int, sym: string, buys: bool, px: real, qty: real, maker: bool, fee: real,
                     marks: seq<Option<real>>)

  const HORIZONS := 3  // 0, 60 and 300 seconds

  /** The mid at horizon `h`, if it was recorded. */
  function MarkAt(r: Row, h: nat): Option<real> { if h < |r.marks| then r.marks[h] else None }

  function Signed(r: Row): real { if r.buys then r.qty else -r.qty }

  /** What is scored: fills from t0 to t1, in bars. `hour` is the local hour of a time. */
  datatype Board = Board(rows: seq<Row>, series: Series, start: map<string, real>, t0: int, t1: int, barNs: int,
                         rebateBps: real, hour: int -> real, buckets: seq<Span>)

  predicate In(c: Board, r: Row, t: int) { c.t0 <= r.ts < c.t1 && r.ts < t }

  /** The end of the bar a time falls into. */
  function BarEnd(c: Board, t: int): int
    requires c.barNs > 0
  {
    c.t0 + ((t - c.t0) / c.barNs + 1) * c.barNs
  }

  function Usd(r: Row): real { r.qty * r.px }

  function Rebate(c: Board, r: Row): real { if r.maker then Usd(r) * c.rebateBps / 10000.0 else 0.0 }

  /** The markout of a fill at a horizon. */
  function EdgeOf(r: Row, h: nat): real {
    if MarkAt(r, h).Some? then Signed(r) * (MarkAt(r, h).value - r.px) else 0.0
  }

  /** What a fill earns by the end of its bar, if it can be marked there, less its fee. */
  function Gain(c: Board, r: Row): real
    requires c.barNs > 0
  {
    var at := MidAt(c.series, r.sym, BarEnd(c, r.ts));
    (if at.Some? then Signed(r) * (at.value - r.px) else 0.0) - r.fee + Rebate(c, r)
  }

  function NameOf(c: Board, t: int): string { NameAt(c.buckets, c.hour(t)) }

  datatype Figure =
    | Move(sym: string)
    | Flow
    | Cost
    | Fee
    | Rebated
    | Count(name: string)
    | Turnover(name: string)
    | Bought(name: string)
    | RebatedIn(name: string)
    | PaidIn(name: string)
    | Edge(h: nat, name: string)
    | EdgeUsd(h: nat, name: string)

  function When(b: bool, x: real): real { if b then x else 0.0 }

  /** What one fill adds to a figure. */
  function Term(c: Board, r: Row, w: Figure): real
    requires c.barNs > 0
  {
    match w
    case Move(s) => When(r.sym == s, Signed(r))
    // The price is booked only when the fill can be marked at the end of its bar.
    case Flow =>
      When(MidAt(c.series, r.sym, BarEnd(c, r.ts)).Some?, -(Signed(r) * r.px)) - r.fee + Rebate(c, r)
    case Cost => Signed(r) * r.px
    case Fee => r.fee
    case Rebated => Rebate(c, r)
    case Count(name) => When(r.maker && NameOf(c, r.ts) == name, 1.0)
    case Turnover(name) => When(r.maker && NameOf(c, r.ts) == name, Usd(r))
    case Bought(name) => When(r.maker && r.buys && NameOf(c, r.ts) == name, Usd(r))
    case RebatedIn(name) => When(r.maker && NameOf(c, r.ts) == name, Rebate(c, r))
    case PaidIn(name) => When(NameOf(c, BarEnd(c, r.ts) - c.barNs) == name, Gain(c, r))
    case Edge(h, name) => When(r.maker && NameOf(c, r.ts) == name, EdgeOf(r, h))
    case EdgeUsd(h, name) => When(r.maker && NameOf(c, r.ts) == name, When(MarkAt(r, h).Some?, Usd(r)))
  }

  /** A figure over the scored fills before `t`. */
  function Add(c: Board, rows: seq<Row>, t: int, w: Figure): real
    requires c.barNs > 0
  {
    if rows == [] then 0.0
    else
      var r := rows[|rows| - 1];
      Add(c, rows[..|rows| - 1], t, w) + When(In(c, r, t), Term(c, r, w))
  }

  /** Stable insertion by time. */
  function Insert(xs: seq<Row>, r: Row): seq<Row> {
    if xs == [] || xs[|xs| - 1].ts <= r.ts then xs + [r] else Insert(xs[..|xs| - 1], r) + [xs[|xs| - 1]]
  }

  /** The scored fills in the order of time. */
  function Picked(c: Board, rows: seq<Row>): seq<Row> {
    if rows == [] then []
    else
      var rest, r := Picked(c, rows[..|rows| - 1]), rows[|rows| - 1];
      if In(c, r, c.t1) then Insert(rest, r) else rest
  }

  ghost predicate InOrder(c: Board, xs: seq<Row>) {
    && (forall i :: 0 <= i < |xs| ==> In(c, xs[i], c.t1))
    && forall i, j :: 0 <= i < j < |xs| ==> xs[i].ts <= xs[j].ts
  }

  lemma {:induction false} InsertHas(xs: seq<Row>, r: Row)
    ensures |Insert(xs, r)| == |xs| + 1
    ensures forall i :: 0 <= i <= |xs| ==> Insert(xs, r)[i] == r || Insert(xs, r)[i] in xs
  {
    if !(xs == [] || xs[|xs| - 1].ts <= r.ts) {
      InsertHas(xs[..|xs| - 1], r);
    }
  }

  lemma {:induction false} InsertKeepsOrder(c: Board, xs: seq<Row>, r: Row)
    requires InOrder(c, xs) && In(c, r, c.t1)
    ensures InOrder(c, Insert(xs, r))
  {
    hide In;
    if !(xs == [] || xs[|xs| - 1].ts <= r.ts) {
      var rest, x := xs[..|xs| - 1], xs[|xs| - 1];
      InsertHas(rest, r);
      InsertKeepsOrder(c, rest, r);
      var out := Insert(rest, r);
      assert forall i :: 0 <= i < |out| ==> out[i].ts <= x.ts;
    }
  }

  lemma {:induction false} PickedInOrder(c: Board, rows: seq<Row>)
    ensures InOrder(c, Picked(c, rows))
  {
    if rows != [] {
      var rest, r := rows[..|rows| - 1], rows[|rows| - 1];
      PickedInOrder(c, rest);
      if In(c, r, c.t1) { InsertKeepsOrder(c, Picked(c, rest), r); }
    }
  }

  lemma {:induction false} AddInserted(c: Board, xs: seq<Row>, r: Row, t: int, w: Figure)
    requires c.barNs > 0
    ensures Add(c, Insert(xs, r), t, w) == Add(c, xs, t, w) + When(In(c, r, t), Term(c, r, w))
  {
    hide Add, Term, In;
    if xs == [] || xs[|xs| - 1].ts <= r.ts {
      AddLast(c, xs, r, t, w);
    } else {
      var rest, x := xs[..|xs| - 1], xs[|xs| - 1];
      assert xs == rest + [x];
      AddInserted(c, rest, r, t, w);
      AddLast(c, rest, x, t, w);
      AddLast(c, Insert(rest, r), x, t, w);
    }
  }

  lemma AddLast(c: Board, xs: seq<Row>, r: Row, t: int, w: Figure)
    requires c.barNs > 0
    ensures Add(c, xs + [r], t, w) == Add(c, xs, t, w) + When(In(c, r, t), Term(c, r, w))
  {
    assert (xs + [r])[..|xs|] == xs;
  }

  /** Picking and sorting loses no scored fill and counts none twice. */
  lemma {:induction false} AddPicked(c: Board, rows: seq<Row>, t: int, w: Figure)
    requires c.barNs > 0
    ensures Add(c, Picked(c, rows), t, w) == Add(c, rows, t, w)
  {
    hide Add, Term;
    if rows == [] {
      assert Picked(c, rows) == rows;
    } else {
      var rest, r := rows[..|rows| - 1], rows[|rows| - 1];
      assert rows == rest + [r];
      AddPicked(c, rest, t, w);
      AddLast(c, rest, r, t, w);
      if In(c, r, c.t1) { AddInserted(c, Picked(c, rest), r, t, w); }
    }
  }

  /** The first `k` fills are those before `t`. */
  ghost predicate Cut(xs: seq<Row>, k: nat, t: int) {
    && k <= |xs| && (forall i :: 0 <= i < k ==> xs[i].ts < t) && forall i :: k <= i < |xs| ==> xs[i].ts >= t
  }

  lemma {:induction false} AddCut(c: Board, xs: seq<Row>, k: nat, t: int, w: Figure)
    requires c.barNs > 0 && InOrder(c, xs) && Cut(xs, k, t)
    ensures Add(c, xs[..k], c.t1, w) == Add(c, xs, t, w)
  {
    hide Term;
    if xs != [] {
      var n := |xs| - 1;
      assert In(c, xs[n], c.t1);
      if k == |xs| {
        assert xs[..k] == xs && xs[..n][..n] == xs[..n];
        AddCut(c, xs[..n], n, t, w);
      } else {
        assert xs[..n][..k] == xs[..k];
        AddCut(c, xs[..n], k, t, w);
      }
    }
  }

  lemma AddNext(c: Board, xs: seq<Row>, k: nat, w: Figure)
    requires c.barNs > 0 && k < |xs| && InOrder(c, xs)
    ensures Add(c, xs[..k + 1], c.t1, w) == Add(c, xs[..k], c.t1, w) + Term(c, xs[k], w)
  {
    assert xs[..k + 1][..k] == xs[..k];
    assert In(c, xs[k], c.t1);
  }

  // ---- What the makers' figures mean --------------------------------------------------------------------

  /** A sum over the makers' fills from t0 to t1, before `t`, in one bucket. */
  ghost function Over(c: Board, rows: seq<Row>, t: int, name: string, f: Row -> real): real {
    if rows == [] then 0.0
    else
      var r := rows[|rows| - 1];
      Over(c, rows[..|rows| - 1], t, name, f)
      + if c.t0 <= r.ts && r.ts < c.t1 && r.ts < t && r.maker && NameOf(c, r.ts) == name then f(r) else 0.0
  }

  /** What a fill costs: a sale brings money in. */
  function PaidFor(r: Row): real { if r.buys then r.qty * r.px else -(r.qty * r.px) }

  predicate HasMark(r: Row, h: nat) { h < |r.marks| && r.marks[h].Some? }

  /** The worth of what a fill delivered, at its mark, less what it cost; nothing without a mark. */
  function Kept(r: Row, h: nat): real {
    if !HasMark(r, h) then 0.0
    else if r.buys then r.qty * r.marks[h].value - PaidFor(r)
    else -(r.qty * r.marks[h].value) - PaidFor(r)
  }

  lemma FillFigures(r: Row, h: nat)
    ensures 2.0 * When(r.buys, Usd(r)) - Usd(r) == PaidFor(r)
    ensures EdgeOf(r, h) == Kept(r, h) && When(MarkAt(r, h).Some?, Usd(r)) == When(HasMark(r, h), Usd(r))
  {
    if HasMark(r, h) {
      var m := r.marks[h].value;
      assert r.qty * (m - r.px) == r.qty * m - r.qty * r.px;
      assert (-r.qty) * (m - r.px) == -(r.qty * m) + r.qty * r.px;
    }
  }

  lemma {:induction false} MoneyPaid(c: Board, rows: seq<Row>, t: int, name: string)
    requires c.barNs > 0
    ensures 2.0 * Add(c, rows, t, Bought(name)) - Add(c, rows, t, Turnover(name)) == Over(c, rows, t, name, PaidFor)
  {
    hide NameOf, Usd, PaidFor, Gain, MidAt, BarEnd, Rebate;
    if rows != [] {
      MoneyPaid(c, rows[..|rows| - 1], t, name);
      FillFigures(rows[|rows| - 1], 0);
    }
  }

  function Rate(x: real, bps: real): real { x * bps / 10000.0 }

  lemma RateAdds(x: real, y: real, bps: real)
    ensures Rate(x + y, bps) == Rate(x, bps) + Rate(y, bps) && Rate(0.0, bps) == 0.0
  {
    assert (x + y) * bps == x * bps + y * bps;
  }

  lemma FillRebate(c: Board, r: Row)
    requires r.maker
    ensures Rebate(c, r) == Rate(Usd(r), c.rebateBps)
  {
  }

  lemma {:induction false} RebateIsRate(c: Board, rows: seq<Row>, t: int, name: string)
    requires c.barNs > 0
    ensures Add(c, rows, t, RebatedIn(name)) == Rate(Add(c, rows, t, Turnover(name)), c.rebateBps)
  {
    hide NameOf, Usd, Gain, MidAt, BarEnd, Rebate, Rate;
    if rows == [] {
      RateAdds(0.0, 0.0, c.rebateBps);
    } else {
      var rest, r := rows[..|rows| - 1], rows[|rows| - 1];
      RebateIsRate(c, rest, t, name);
      RateAdds(Add(c, rest, t, Turnover(name)), Usd(r), c.rebateBps);
      if r.maker { FillRebate(c, r); }
    }
  }

  lemma {:induction false} EdgeKept(c: Board, rows: seq<Row>, t: int, name: string, h: nat)
    requires c.barNs > 0
    ensures Add(c, rows, t, Edge(h, name)) == Over(c, rows, t, name, r => Kept(r, h))
  {
    hide NameOf, Usd, EdgeOf, Kept, MarkAt, Gain, MidAt, BarEnd, Rebate;
    if rows != [] {
      EdgeKept(c, rows[..|rows| - 1], t, name, h);
      FillFigures(rows[|rows| - 1], h);
    }
  }

  lemma {:induction false} EdgeTurnover(c: Board, rows: seq<Row>, t: int, name: string, h: nat, all: bool)
    requires c.barNs > 0 && forall i :: 0 <= i < |rows| ==> HasMark(rows[i], h) == all
    ensures Add(c, rows, t, EdgeUsd(h, name)) == if all then Add(c, rows, t, Turnover(name)) else 0.0
  {
    hide NameOf, Usd, EdgeOf, HasMark, MarkAt, Gain, MidAt, BarEnd, Rebate;
    if rows != [] {
      EdgeTurnover(c, rows[..|rows| - 1], t, name, h, all);
      FillFigures(rows[|rows| - 1], h);
    }
  }

  /**
    The makers' figures of a bucket, from the fills of its window alone: twice the purchases less the turnover is
    the money paid, the rebate is a rate on the turnover, and the markout is what the fills kept at their marks,
    over the turnover of those that have one.
   */
  lemma MakerFigures(c: Board, rows: seq<Row>, t: int, name: string, h: nat)
    requires c.barNs > 0
    ensures 2.0 * Add(c, rows, t, Bought(name)) - Add(c, rows, t, Turnover(name)) == Over(c, rows, t, name, PaidFor)
    ensures Add(c, rows, t, RebatedIn(name)) == Add(c, rows, t, Turnover(name)) * c.rebateBps / 10000.0
    ensures Add(c, rows, t, Edge(h, name)) == Over(c, rows, t, name, r => Kept(r, h))
    ensures (forall i :: 0 <= i < |rows| ==> HasMark(rows[i], h)) ==>
              Add(c, rows, t, EdgeUsd(h, name)) == Add(c, rows, t, Turnover(name))
    ensures (forall i :: 0 <= i < |rows| ==> !HasMark(rows[i], h)) ==> Add(c, rows, t, EdgeUsd(h, name)) == 0.0
  {
    hide Add, HasMark;
    MoneyPaid(c, rows, t, name);
    RebateIsRate(c, rows, t, name);
    EdgeKept(c, rows, t, name, h);
    if forall i :: 0 <= i < |rows| ==> HasMark(rows[i], h) { EdgeTurnover(c, rows, t, name, h, true); }
    if forall i :: 0 <= i < |rows| ==> !HasMark(rows[i], h) { EdgeTurnover(c, rows, t, name, h, false); }
  }

  // ---- What positions are worth --------------------------------------------------------------------------

  function Look(pos: map<string, real>, s: string): real { if s in pos then pos[s] else 0.0 }

  /** The position in a symbol before `t`. */
  function PosAt(c: Board, s: string, t: int): real
    requires c.barNs > 0
  {
    Look(c.start, s) + Add(c, c.rows, t, Move(s))
  }

  function Mark(mid: Option<real>, held: real): real { if mid.Some? then held * mid.value else 0.0 }

  /** Positions `pos` at the mids of time `t`. */
  function Marked(c: Board, symbols: seq<string>, pos: map<string, real>, t: int): real {
    if symbols == [] then 0.0
    else
      var s := symbols[|symbols| - 1];
      Marked(c, symbols[..|symbols| - 1], pos, t) + Mark(MidAt(c.series, s, t), Look(pos, s))
  }

  /** The positions at `t`, at the mids of `t`. */
  function Worth(c: Board, symbols: seq<string>, t: int): real
    requires c.barNs > 0
  {
    if symbols == [] then 0.0
    else
      var s := symbols[|symbols| - 1];
      Worth(c, symbols[..|symbols| - 1], t) + Mark(MidAt(c.series, s, t), PosAt(c, s, t))
  }

  /** What positions held from `t` are worth at `u` in symbols whose first mid came in between. */
  function Arrived(c: Board, symbols: seq<string>, t: int, u: int): real
    requires c.barNs > 0
  {
    if symbols == [] then 0.0
    else
      var s := symbols[|symbols| - 1];
      Arrived(c, symbols[..|symbols| - 1], t, u)
      + When(MidAt(c.series, s, t).None?, Mark(MidAt(c.series, s, u), PosAt(c, s, t)))
  }

  function Bar(c: Board, n: nat): int { c.t0 + n * c.barNs }

  function Arrivals(c: Board, symbols: seq<string>, n: nat): real
    requires c.barNs > 0
  {
    if n == 0 then 0.0 else Arrivals(c, symbols, n - 1) + Arrived(c, symbols, Bar(c, n - 1), Bar(c, n))
  }

  lemma {:induction false} MarkedIsWorth(c: Board, symbols: seq<string>, pos: map<string, real>, t: int)
    requires c.barNs > 0 && forall s :: Look(pos, s) == PosAt(c, s, t)
    ensures Marked(c, symbols, pos, t) == Worth(c, symbols, t)
  {
    if symbols != [] {
      MarkedIsWorth(c, symbols[..|symbols| - 1], pos, t);
    }
  }

  lemma {:induction false} MarkedAfter(c: Board, symbols: seq<string>, pos: map<string, real>, t: int, s: string,
                                       x: real)
    requires NoDup(symbols)
    ensures Marked(c, symbols, pos[s := Look(pos, s) + x], t)
            == Marked(c, symbols, pos, t) + When(s in symbols, Mark(MidAt(c.series, s, t), x))
  {
    hide MidAt;
    if symbols != [] {
      var rest, u := symbols[..|symbols| - 1], symbols[|symbols| - 1];
      assert symbols == rest + [u];
      MarkedAfter(c, rest, pos, t, s, x);
      if s == u {
        assert s !in rest;
        MarkDistributes(MidAt(c.series, s, t), Look(pos, s), x);
      }
    }
  }

  lemma MarkDistributes(mid: Option<real>, x: real, y: real)
    ensures Mark(mid, x + y) == Mark(mid, x) + Mark(mid, y)
  {
  }

  // ---- The scores -----------------------------------------------------------------------------------------

  /** One figure per horizon. */
  type PerHorizon = s: seq<real> | |s| == 3 witness [0.0, 0.0, 0.0]

  datatype Stats = Stats(bars: nat, money: real, fills: real, notional: real, buy: real, rebate: real, long: real,
                         mo: PerHorizon, usd: PerHorizon)

  const NO_STATS := Stats(0, 0.0, 0.0, 0.0, 0.0, 0.0, 0.0, [0.0, 0.0, 0.0], [0.0, 0.0, 0.0])

  type Scores = map<string, Stats>

  function At(b: Scores, name: string): Stats { if name in b then b[name] else NO_STATS }

  ghost function Money(b: Scores): real {
    if b == map[] then 0.0
    else
      var k :| k in b;
      b[k].money + Money(b - {k})
  }

  lemma {:induction false} MoneyDrop(b: Scores, k: string)
    requires k in b
    ensures Money(b) == b[k].money + Money(b - {k})
    decreases |b|
  {
    var j :| j in b && Money(b) == b[j].money + Money(b - {j});
    if j != k {
      MoneyDrop(b - {j}, k);
      MoneyDrop(b - {k}, j);
      assert b - {j} - {k} == b - {k} - {j};
    }
  }

  lemma MoneyAfter(b: Scores, k: string, st: Stats)
    ensures Money(b[k := st]) == Money(b) + st.money - At(b, k).money
  {
    MoneyDrop(b[k := st], k);
    assert b[k := st] - {k} == b - {k};
    if k in b { MoneyDrop(b, k); } else { assert b - {k} == b; }
  }

  /** A bucket shows its own bars, what they earned, and the maker fills made in its hours. */
  ghost predicate Shows(c: Board, symbols: seq<string>, st: Stats, name: string, n: nat, fills: seq<Row>)
    requires c.barNs > 0
  {
    && st.bars == BarsIn(c, n, name)
    && st.money == CarryIn(c, symbols, n, name) + Add(c, fills, c.t1, PaidIn(name))
    && st.fills == Add(c, fills, c.t1, Count(name)) && st.notional == Add(c, fills, c.t1, Turnover(name))
    && st.buy == Add(c, fills, c.t1, Bought(name)) && st.rebate == Add(c, fills, c.t1, RebatedIn(name))
    && Edges(c, st, name, fills)
  }

  /** The markouts of a bucket's maker fills, and the notional they are over, at every horizon. */
  ghost predicate Edges(c: Board, st: Stats, name: string, fills: seq<Row>)
    requires c.barNs > 0
  {
    forall h :: 0 <= h < HORIZONS ==>
      st.mo[h] == Add(c, fills, c.t1, Edge(h, name)) && st.usd[h] == Add(c, fills, c.t1, EdgeUsd(h, name))
  }

  /** The bars that start in a bucket. */
  function BarsIn(c: Board, n: nat, name: string): nat {
    if n == 0 then 0 else BarsIn(c, n - 1, name) + if NameOf(c, Bar(c, n - 1)) == name then 1 else 0
  }

  /** What the held positions earned over the bars that start in a bucket. */
  function CarryIn(c: Board, symbols: seq<string>, n: nat, name: string): real
    requires c.barNs > 0
  {
    if n == 0 then 0.0
    else
      CarryIn(c, symbols, n - 1, name)
      + When(NameOf(c, Bar(c, n - 1)) == name, Carry(c, symbols, Bar(c, n - 1), Bar(c, n)))
  }

  ghost predicate AllShow(c: Board, symbols: seq<string>, b: Scores, n: nat, fills: seq<Row>)
    requires c.barNs > 0
  {
    forall name :: Shows(c, symbols, At(b, name), name, n, fills)
  }

  /** What the positions held through a bar earn, symbol by symbol. */
  function Carry(c: Board, symbols: seq<string>, t: int, u: int): real
    requires c.barNs > 0
  {
    if symbols == [] then 0.0
    else
      var s := symbols[|symbols| - 1];
      Carry(c, symbols[..|symbols| - 1], t, u) + CarryOf(MidAt(c.series, s, t), MidAt(c.series, s, u), PosAt(c, s, t))
  }

  function CarryOf(from: Option<real>, to: Option<real>, held: real): real {
    if from.Some? && to.Some? then held * (to.value - from.value) else 0.0
  }

  lemma CarryIs(from: Option<real>, to: Option<real>, held: real)
    requires from.Some? ==> to.Some?
    ensures CarryOf(from, to, held) == Mark(to, held) - Mark(from, held) - When(from.None?, Mark(to, held))
  {
  }

  lemma {:induction false} CarryTelescopes(c: Board, symbols: seq<string>, pos: map<string, real>, t: int, u: int)
    requires c.barNs > 0 && t <= u && forall s :: Look(pos, s) == PosAt(c, s, t)
    ensures Carry(c, symbols, t, u) == Marked(c, symbols, pos, u) - Worth(c, symbols, t) - Arrived(c, symbols, t, u)
  {
    hide MidAt, PosAt, Mark;
    if symbols != [] {
      var s := symbols[|symbols| - 1];
      CarryTelescopes(c, symbols[..|symbols| - 1], pos, t, u);
      if MidAt(c.series, s, t).Some? { MidStays(c.series, s, t, u); }
      CarryIs(MidAt(c.series, s, t), MidAt(c.series, s, u), PosAt(c, s, t));
    }
  }

  /** One fill, marked at the end of its bar, moves the worth of the positions and the flow of money. */
  lemma FillBalances(c: Board, symbols: seq<string>, pos: map<string, real>, r: Row, end: int)
    requires c.barNs > 0 && NoDup(symbols) && (r.sym in c.series ==> r.sym in symbols) && end == BarEnd(c, r.ts)
    ensures var pos' := pos[r.sym := Look(pos, r.sym) + Signed(r)];
            Gain(c, r) == Marked(c, symbols, pos', end) - Marked(c, symbols, pos, end) + Term(c, r, Flow)
  {
    hide BarEnd, Rebate, Marked;
    MarkedAfter(c, symbols, pos, end, r.sym, Signed(r));
    var at, x := MidAt(c.series, r.sym, end), Signed(r);
    if at.Some? {
      assert x * (at.value - r.px) == x * at.value - x * r.px;
    }
  }

  lemma BarEndIs(c: Board, n: nat, t: int)
    requires c.barNs > 0 && Bar(c, n) <= t < Bar(c, n + 1)
    ensures BarEnd(c, t) == Bar(c, n + 1)
  {
    assert (n + 1) * c.barNs == n * c.barNs + c.barNs;
    DivUnique(t - c.t0, n, t - Bar(c, n), c.barNs);
  }

  /** Money goes to the bucket of a bar's start: a bucket that no bar starts in earns nothing. */
  lemma {:induction false} MoneyAtBarStart(c: Board, rows: seq<Row>, t: int, name: string)
    requires c.barNs > 0 && forall n: nat :: NameOf(c, Bar(c, n)) != name
    ensures Add(c, rows, t, PaidIn(name)) == 0.0
  {
    hide Gain, NameOf, BarEnd;
    if rows != [] {
      var r := rows[|rows| - 1];
      MoneyAtBarStart(c, rows[..|rows| - 1], t, name);
      if c.t0 <= r.ts {
        var n := (r.ts - c.t0) / c.barNs;
        DivModIs(r.ts - c.t0, c.barNs);
        BarEndIs(c, n, r.ts);
      }
    }
  }

  /** A maker fill counts in the bucket of its own time. */
  function WithFill(c: Board, st: Stats, r: Row): Stats {
    st.(fills := st.fills + 1.0, notional := st.notional + Usd(r), buy := st.buy + When(r.buys, Usd(r)),
        rebate := st.rebate + Usd(r) * c.rebateBps / 10000.0,
        mo := seq(3, h requires 0 <= h < 3 => st.mo[h] + EdgeOf(r, h)),
        usd := seq(3, h requires 0 <= h < 3 => st.usd[h] + When(MarkAt(r, h).Some?, Usd(r))))
  }

  function AfterFill(c: Board, b: Scores, r: Row): Scores {
    if r.maker then b[NameOf(c, r.ts) := WithFill(c, At(b, NameOf(c, r.ts)), r)] else b
  }

  function Paid(b: Scores, name: string, x: real): Scores {
    b[name := At(b, name).(money := At(b, name).money + x)]
  }

  lemma ShowsNext(c: Board, symbols: seq<string>, st: Stats, name: string, n: nat, fills: seq<Row>, k: nat)
    requires c.barNs > 0 && k < |fills| && InOrder(c, fills) && Shows(c, symbols, st, name, n, fills[..k])
    ensures var r := fills[k];
            var st1 := if r.maker && NameOf(c, r.ts) == name then WithFill(c, st, r) else st;
            var own := NameOf(c, BarEnd(c, r.ts) - c.barNs) == name;
            var st2 := if own then st1.(money := st1.money + Gain(c, r)) else st1;
            Shows(c, symbols, st2, name, n, fills[..k + 1])
  {
    hide Add, NameOf, InOrder, BarsIn, CarryIn, Gain, BarEnd, EdgeOf;
    AddNext(c, fills, k, Count(name));
    AddNext(c, fills, k, Turnover(name));
    AddNext(c, fills, k, Bought(name));
    AddNext(c, fills, k, RebatedIn(name));
    AddNext(c, fills, k, PaidIn(name));
    EdgesNext(c, st, name, fills, k);
  }

  lemma EdgesNext(c: Board, st: Stats, name: string, fills: seq<Row>, k: nat)
    requires c.barNs > 0 && k < |fills| && InOrder(c, fills) && Edges(c, st, name, fills[..k])
    ensures var r := fills[k];
            Edges(c, if r.maker && NameOf(c, r.ts) == name then WithFill(c, st, r) else st, name, fills[..k + 1])
  {
    hide Add, NameOf, InOrder, EdgeOf, Usd;
    forall h | 0 <= h < HORIZONS
      ensures Add(c, fills[..k + 1], c.t1, Edge(h, name)) == Add(c, fills[..k], c.t1, Edge(h, name))
              + Term(c, fills[k], Edge(h, name))
      ensures Add(c, fills[..k + 1], c.t1, EdgeUsd(h, name)) == Add(c, fills[..k], c.t1, EdgeUsd(h, name))
              + Term(c, fills[k], EdgeUsd(h, name))
    {
      AddNext(c, fills, k, Edge(h, name));
      AddNext(c, fills, k, EdgeUsd(h, name));
    }
  }

  /** A fill is paid in the bucket of its bar and counted, if it made liquidity, in the bucket of its time. */
  lemma AllShowNext(c: Board, symbols: seq<string>, b: Scores, n: nat, fills: seq<Row>, k: nat, name: string)
    requires c.barNs > 0 && k < |fills| && InOrder(c, fills) && AllShow(c, symbols, b, n, fills[..k])
    requires name == NameOf(c, BarEnd(c, fills[k].ts) - c.barNs)
    ensures var b' := Paid(AfterFill(c, b, fills[k]), name, Gain(c, fills[k]));
            AllShow(c, symbols, b', n, fills[..k + 1]) && Money(b') == Money(b) + Gain(c, fills[k])
  {
    hide Shows, Money, NameOf, InOrder, Gain, BarEnd;
    var r := fills[k];
    var nm, b1 := NameOf(c, r.ts), AfterFill(c, b, r);
    MoneyAfter(b, nm, WithFill(c, At(b, nm), r));
    MoneyAfter(b1, name, At(b1, name).(money := At(b1, name).money + Gain(c, r)));
    forall x ensures Shows(c, symbols, At(Paid(b1, name, Gain(c, r)), x), x, n, fills[..k + 1]) {
      ShowsNext(c, symbols, At(b, x), x, n, fills, k);
    }
  }

  function BarAdded(st: Stats, earned: real): Stats { st.(bars := st.bars + 1, money := st.money + earned) }

  lemma AllShowBar(c: Board, symbols: seq<string>, b: Scores, n: nat, fills: seq<Row>)
    requires c.barNs > 0 && AllShow(c, symbols, b, n, fills)
    ensures var name, earned := NameOf(c, Bar(c, n)), Carry(c, symbols, Bar(c, n), Bar(c, n + 1));
            var b' := b[name := BarAdded(At(b, name), earned)];
            AllShow(c, symbols, b', n + 1, fills) && Money(b') == Money(b) + earned
  {
    hide Add, Money, NameOf, Carry;
    var name, earned := NameOf(c, Bar(c, n)), Carry(c, symbols, Bar(c, n), Bar(c, n + 1));
    var b' := b[name := BarAdded(At(b, name), earned)];
    MoneyAfter(b, name, b'[name]);
    forall nm ensures Shows(c, symbols, At(b', nm), nm, n + 1, fills) {
      assert Shows(c, symbols, At(b, nm), nm, n, fills);
    }
  }

  // ---- The loops ------------------------------------------------------------------------------------------

  method Listed(keys: set<string>) returns (xs: seq<string>)
    ensures NoDup(xs) && forall s :: s in xs <==> s in keys
  {
    xs := [];
    var rest := keys;
    while rest != {}
      invariant rest <= keys && NoDup(xs)
      invariant forall s :: s in xs <==> s in keys && s !in rest
      decreases rest
    {
      var s :| s in rest;
      xs, rest := xs + [s], rest - {s};
    }
  }

  // ---- Long positions and the path ---------------------------------------------------------------------------

  function Positive(x: real): real { if x > 0.0 then x else 0.0 }

  /** The sum of the long positions at `t`, at the mids of `t`. */
  function LongAt(c: Board, symbols: seq<string>, t: int): real
    requires c.barNs > 0
  {
    if symbols == [] then 0.0
    else
      var s := symbols[|symbols| - 1];
      LongAt(c, symbols[..|symbols| - 1], t) + Positive(Mark(MidAt(c.series, s, t), PosAt(c, s, t)))
  }

  /** The positions in money at `t`, of the symbols that have a mid by then. */
  function SnapshotAt(c: Board, symbols: seq<string>, t: int): map<string, real>
    requires c.barNs > 0
  {
    map s | s in symbols && MidAt(c.series, s, t).Some? :: Mark(MidAt(c.series, s, t), PosAt(c, s, t))
  }

  /** The long positions at the ends of a bucket's bars. */
  function LongIn(c: Board, symbols: seq<string>, n: nat, name: string): real
    requires c.barNs > 0
  {
    if n == 0 then 0.0
    else LongIn(c, symbols, n - 1, name) + When(NameOf(c, Bar(c, n - 1)) == name, LongAt(c, symbols, Bar(c, n)))
  }

  type Path = map<int, map<string, real>>

  /** Every bucket shows its long positions, and the path every bar's positions, and no other time. */
  ghost predicate Pictured(c: Board, symbols: seq<string>, b: Scores, path: Path, n: nat)
    requires c.barNs > 0
  {
    && (forall name :: At(b, name).long == LongIn(c, symbols, n, name))
    && (forall j: nat :: j < n ==> Bar(c, j) in path && path[Bar(c, j)] == SnapshotAt(c, symbols, Bar(c, j + 1)))
    && forall t :: t in path ==> c.t0 <= t < Bar(c, n) && (t - c.t0) % c.barNs == 0
  }

  ghost predicate SameLongs(b: Scores, b0: Scores) { forall name :: At(b, name).long == At(b0, name).long }

  lemma PaidKeepsLongs(c: Board, b: Scores, r: Row, name: string, x: real)
    ensures SameLongs(Paid(AfterFill(c, b, r), name, x), b)
  {
  }

  lemma SnapshotOfNone(c: Board, t: int)
    requires c.barNs > 0
    ensures SnapshotAt(c, [], t) == map[]
  {
  }

  lemma SnapshotNext(c: Board, symbols: seq<string>, s: string, t: int)
    requires c.barNs > 0
    ensures var mid := MidAt(c.series, s, t);
            SnapshotAt(c, symbols + [s], t) ==
              if mid.Some? then SnapshotAt(c, symbols, t)[s := Mark(mid, PosAt(c, s, t))] else SnapshotAt(c, symbols, t)
  {
    hide MidAt, PosAt;
    var mid, before, after := MidAt(c.series, s, t), SnapshotAt(c, symbols, t), SnapshotAt(c, symbols + [s], t);
    var expected := if mid.Some? then before[s := Mark(mid, PosAt(c, s, t))] else before;
    assert forall x :: x in after <==> x in expected;
    assert forall x :: x in after ==> after[x] == expected[x];
  }

  /** One bar's picture. */
  method Snapshot(c: Board, symbols: seq<string>, pos: map<string, real>, last: map<string, Option<real>>, end: int)
    returns (snap: map<string, real>, long: real)
    requires c.barNs > 0 && Marks(c, last, symbols, end) && forall s :: Look(pos, s) == PosAt(c, s, end)
    ensures snap == SnapshotAt(c, symbols, end) && long == LongAt(c, symbols, end)
  {
    hide MidAt, PosAt, SnapshotAt;
    SnapshotOfNone(c, end);
    assert symbols[..0] == [];
    snap, long := map[], 0.0;
    for i := 0 to |symbols|
      invariant snap == SnapshotAt(c, symbols[..i], end) && long == LongAt(c, symbols[..i], end)
    {
      var s := symbols[i];
      assert symbols[..i + 1][..i] == symbols[..i] && symbols[..i + 1] == symbols[..i] + [s];
      SnapshotNext(c, symbols[..i], s, end);
      assert s in symbols && last[s] == MidAt(c.series, s, end);
      assert last[s].Some? ==> Look(pos, s) * last[s].value == Mark(last[s], PosAt(c, s, end));
      if last[s].Some? {
        var value := Look(pos, s) * last[s].value;
        snap := snap[s := value];
        if value > 0.0 { long := long + value; }
      }
    }
    assert symbols[..|symbols|] == symbols;
  }

  lemma BarStart(c: Board, n: nat)
    requires c.barNs > 0
    ensures c.t0 <= Bar(c, n) < Bar(c, n + 1) && (Bar(c, n) - c.t0) % c.barNs == 0
  {
    assert (n + 1) * c.barNs == n * c.barNs + c.barNs;
    MulMonotone(0, n, c.barNs);
    DivUnique(n * c.barNs, n, 0, c.barNs);
  }

  function WithLong(b: Scores, name: string, x: real): Scores {
    b[name := At(b, name).(long := At(b, name).long + x)]
  }

  /** The end of a bar: its long positions go to its bucket, its positions to the path. */
  lemma PictureBar(c: Board, symbols: seq<string>, b0: Scores, b: Scores, path: Path, n: nat)
    requires c.barNs > 0 && Pictured(c, symbols, b0, path, n) && SameLongs(b, b0)
    ensures var name, end := NameOf(c, Bar(c, n)), Bar(c, n + 1);
            Pictured(c, symbols, WithLong(b, name, LongAt(c, symbols, end)),
                     path[Bar(c, n) := SnapshotAt(c, symbols, end)], n + 1)
  {
    hide NameOf, LongAt, SnapshotAt, Bar;
    BarStart(c, n);
    var end := Bar(c, n + 1);
    forall name ensures At(WithLong(b, NameOf(c, Bar(c, n)), LongAt(c, symbols, end)), name).long
                        == LongIn(c, symbols, n + 1, name)
    {
      assert At(b, name).long == At(b0, name).long;
    }
  }

  lemma WithLongShows(c: Board, symbols: seq<string>, b: Scores, name: string, x: real, n: nat, fills: seq<Row>)
    requires c.barNs > 0 && AllShow(c, symbols, b, n, fills)
    ensures AllShow(c, symbols, WithLong(b, name, x), n, fills) && Money(WithLong(b, name, x)) == Money(b)
  {
    hide Add, Money, NameOf, BarsIn, CarryIn;
    MoneyAfter(b, name, At(b, name).(long := At(b, name).long + x));
    forall nm ensures Shows(c, symbols, At(WithLong(b, name, x), nm), nm, n, fills) {
      assert Shows(c, symbols, At(b, nm), nm, n, fills);
    }
  }

  /** The positions after the first fills. */
  ghost predicate Holds(c: Board, pos: map<string, real>, fills: seq<Row>)
    requires c.barNs > 0
  {
    forall s :: Look(pos, s) == Look(c.start, s) + Add(c, fills, c.t1, Move(s))
  }

  ghost predicate Marks(c: Board, last: map<string, Option<real>>, symbols: seq<string>, t: int) {
    forall s :: s in symbols ==> s in last && last[s] == MidAt(c.series, s, t)
  }

  /** What the position held through the bar earned. */
  method CarryBar(c: Board, symbols: seq<string>, pos: map<string, real>, last: map<string, Option<real>>,
                  bar: int, end: int)
    returns (earned: real, marks: map<string, Option<real>>)
    requires c.barNs > 0 && bar <= end && Ordered(c.series) && NoDup(symbols) && Marks(c, last, symbols, bar)
    requires forall s :: Look(pos, s) == PosAt(c, s, bar)
    ensures earned == Carry(c, symbols, bar, end) && Marks(c, marks, symbols, end)
  {
    hide PosAt, MidAt;
    earned, marks := 0.0, last;
    for i := 0 to |symbols|
      invariant earned == Carry(c, symbols[..i], bar, end)
      invariant Marks(c, marks, symbols[..i], end) && Marks(c, marks, symbols[i..], bar)
    {
      var s := symbols[i];
      assert symbols[..i + 1][..i] == symbols[..i];
      var mid := FindMid(c.series, s, end);
      if mid.Some? && marks[s].Some? {
        earned := earned + Look(pos, s) * (mid.value - marks[s].value);
      }
      if MidAt(c.series, s, bar).Some? { MidStays(c.series, s, bar, end); }
      marks := marks[s := if mid.Some? then mid else marks[s]];
    }
    assert symbols[..|symbols|] == symbols;
  }

  /** The fills of one bar: each moves a position and is paid at the mid of the bar's end. */
  method FillBar(c: Board, symbols: seq<string>, fills: seq<Row>, from: nat, n: nat, pos0: map<string, real>,
                 b0: Scores)
    returns (k: nat, pos: map<string, real>, b: Scores)
    requires c.barNs > 0 && Ordered(c.series) && NoDup(symbols) && (forall s :: s in c.series ==> s in symbols)
    requires InOrder(c, fills) && Cut(fills, from, Bar(c, n))
    requires Holds(c, pos0, fills[..from]) && AllShow(c, symbols, b0, n + 1, fills[..from])
    ensures Cut(fills, k, Bar(c, n + 1)) && Holds(c, pos, fills[..k]) && AllShow(c, symbols, b, n + 1, fills[..k])
    ensures Money(b) - Marked(c, symbols, pos, Bar(c, n + 1)) - Add(c, fills[..k], c.t1, Flow)
            == Money(b0) - Marked(c, symbols, pos0, Bar(c, n + 1)) - Add(c, fills[..from], c.t1, Flow)
    ensures SameLongs(b, b0)
  {
    hide AllShow, Add, MidAt, Money, Marked, NameOf, Holds;
    var name := BucketAt(c, Bar(c, n));
    var end := Bar(c, n) + c.barNs;
    assert end == Bar(c, n + 1) by { assert (n + 1) * c.barNs == n * c.barNs + c.barNs; }
    k, pos, b := from, pos0, b0;
    while k < |fills| && fills[k].ts < end
      invariant from <= k <= |fills| && (forall i :: 0 <= i < k ==> fills[i].ts < end)
      invariant Holds(c, pos, fills[..k]) && AllShow(c, symbols, b, n + 1, fills[..k]) && SameLongs(b, b0)
      invariant Money(b) - Marked(c, symbols, pos, end) - Add(c, fills[..k], c.t1, Flow)
                == Money(b0) - Marked(c, symbols, pos0, end) - Add(c, fills[..from], c.t1, Flow)
    {
      pos, b := FillOne(c, symbols, fills, k, n, pos, b, name);
      k := k + 1;
    }
  }

  method FillOne(c: Board, symbols: seq<string>, fills: seq<Row>, k: nat, n: nat, pos0: map<string, real>,
                 b0: Scores, name: string)
    returns (pos: map<string, real>, b: Scores)
    requires c.barNs > 0 && Ordered(c.series) && NoDup(symbols) && (forall s :: s in c.series ==> s in symbols)
    requires InOrder(c, fills) && k < |fills| && Bar(c, n) <= fills[k].ts < Bar(c, n + 1)
    requires name == NameOf(c, Bar(c, n)) && Holds(c, pos0, fills[..k]) && AllShow(c, symbols, b0, n + 1, fills[..k])
    ensures Holds(c, pos, fills[..k + 1]) && AllShow(c, symbols, b, n + 1, fills[..k + 1])
    ensures Money(b) - Marked(c, symbols, pos, Bar(c, n + 1)) - Add(c, fills[..k + 1], c.t1, Flow)
            == Money(b0) - Marked(c, symbols, pos0, Bar(c, n + 1)) - Add(c, fills[..k], c.t1, Flow)
    ensures SameLongs(b, b0)
  {
    hide AllShow, Add, MidAt, Money, Marked, BarEnd, AfterFill, Paid, NameOf, SameLongs;
    var r := fills[k];
    var end := Bar(c, n + 1);
    BarEndIs(c, n, r.ts);
    assert (n + 1) * c.barNs == n * c.barNs + c.barNs;
    pos := pos0[r.sym := Look(pos0, r.sym) + Signed(r)];
    var at := FindMid(c.series, r.sym, end);
    var money := 0.0;
    if at.Some? { money := money + Signed(r) * (at.value - r.px); }
    money := money - r.fee;
    if r.maker { money := money + Usd(r) * c.rebateBps / 10000.0; }
    assert money == Gain(c, r);
    FillBalances(c, symbols, pos0, r, end);
    AddNext(c, fills, k, Flow);
    AllShowNext(c, symbols, b0, n + 1, fills, k, name);
    b := Paid(AfterFill(c, b0, r), name, money);
    PaidKeepsLongs(c, b0, r, name, money);
    forall s ensures Look(pos, s) == Look(c.start, s) + Add(c, fills[..k + 1], c.t1, Move(s)) {
      AddNext(c, fills, k, Move(s));
    }
  }

  /** The number of bars it takes to reach t1. */
  function Bars(c: Board): nat
    requires c.barNs > 0
  {
    if c.t1 <= c.t0 then 0 else (c.t1 - c.t0 - 1) / c.barNs + 1
  }

  lemma BarsReach(c: Board, n: nat)
    requires c.barNs > 0
    ensures Bar(c, n) < c.t1 <==> n < Bars(c)
  {
    if c.t0 < c.t1 {
      var span := c.t1 - c.t0 - 1;
      DivModIs(span, c.barNs);
      var q := span / c.barNs;
      if n <= q { MulMonotone(n, q, c.barNs); } else { MulMonotone(q + 1, n, c.barNs); }
      assert (q + 1) * c.barNs == q * c.barNs + c.barNs;
    } else {
      MulMonotone(0, n, c.barNs);
    }
  }

  /** The scores before bar `n`, with the first `k` fills booked. */
  ghost predicate Scored(c: Board, symbols: seq<string>, b: Scores, pos: map<string, real>, n: nat, fills: seq<Row>,
                         k: nat)
    requires c.barNs > 0
  {
    && Cut(fills, k, Bar(c, n)) && Holds(c, pos, fills[..k]) && AllShow(c, symbols, b, n, fills[..k])
    && Money(b) == Worth(c, symbols, Bar(c, n)) - Worth(c, symbols, c.t0) + Add(c, fills[..k], c.t1, Flow)
                   - Arrivals(c, symbols, n)
  }

  lemma HoldsAt(c: Board, pos: map<string, real>, k: nat, t: int)
    requires c.barNs > 0
    requires var fills := Picked(c, c.rows); Cut(fills, k, t) && Holds(c, pos, fills[..k])
    ensures forall s :: Look(pos, s) == PosAt(c, s, t)
  {
    hide Add, Picked;
    PickedInOrder(c, c.rows);
    forall s ensures Look(pos, s) == PosAt(c, s, t) {
      AddCut(c, Picked(c, c.rows), k, t, Move(s));
      AddPicked(c, c.rows, t, Move(s));
    }
  }

  method ScoreBar(c: Board, symbols: seq<string>, fills: seq<Row>, k0: nat, n: nat, pos0: map<string, real>, b0: Scores,
                  last0: map<string, Option<real>>, path0: Path)
    returns (k: nat, pos: map<string, real>, b: Scores, last: map<string, Option<real>>, path: Path)
    requires c.barNs > 0 && Ordered(c.series) && NoDup(symbols) && (forall s :: s in c.series ==> s in symbols)
    requires fills == Picked(c, c.rows) && Marks(c, last0, symbols, Bar(c, n))
    requires Scored(c, symbols, b0, pos0, n, fills, k0) && Pictured(c, symbols, b0, path0, n)
    ensures Scored(c, symbols, b, pos, n + 1, fills, k) && Marks(c, last, symbols, Bar(c, n + 1))
    ensures Pictured(c, symbols, b, path, n + 1)
  {
    hide AllShow, Add, MidAt, Money, Marked, Worth, NameOf, Picked, PosAt, Arrived, Carry, Pictured, SameLongs, Marks,
         SnapshotAt, LongAt, WithLong;
    var bar := Bar(c, n);
    var end := bar + c.barNs;
    assert end == Bar(c, n + 1) by { assert (n + 1) * c.barNs == n * c.barNs + c.barNs; }
    PickedInOrder(c, c.rows);
    HoldsAt(c, pos0, k0, bar);
    var name := BucketAt(c, bar);
    var earned;
    earned, last := CarryBar(c, symbols, pos0, last0, bar, end);
    CarryTelescopes(c, symbols, pos0, bar, end);
    AllShowBar(c, symbols, b0, n, fills[..k0]);
    var b1 := b0[name := BarAdded(At(b0, name), earned)];
    var b2;
    k, pos, b2 := FillBar(c, symbols, fills, k0, n, pos0, b1);
    HoldsAt(c, pos, k, end);
    MarkedIsWorth(c, symbols, pos, end);
    var snap, long := Snapshot(c, symbols, pos, last, end);
    BarKeepsLongs(b0, b1, b2, name, earned);
    PictureBar(c, symbols, b0, b2, path0, n);
    WithLongShows(c, symbols, b2, name, long, n + 1, fills[..k]);
    b, path := WithLong(b2, name, long), path0[bar := snap];
  }

  lemma BarKeepsLongs(b0: Scores, b1: Scores, b2: Scores, name: string, earned: real)
    requires b1 == b0[name := BarAdded(At(b0, name), earned)] && SameLongs(b2, b1)
    ensures SameLongs(b2, b0)
  {
    forall nm ensures At(b2, nm).long == At(b0, nm).long { assert At(b2, nm).long == At(b1, nm).long; }
  }

  method FirstMarks(c: Board, symbols: seq<string>) returns (last: map<string, Option<real>>)
    requires Ordered(c.series)
    ensures Marks(c, last, symbols, c.t0)
  {
    hide MidAt;
    last := map[];
    for i := 0 to |symbols|
      invariant Marks(c, last, symbols[..i], c.t0)
    {
      var mid := FindMid(c.series, symbols[i], c.t0);
      last := last[symbols[i] := mid];
    }
  }

  lemma PicturedAtStart(c: Board, symbols: seq<string>)
    requires c.barNs > 0
    ensures Pictured(c, symbols, map[], map[], 0)
  {
  }

  lemma ScoredAtStart(c: Board, symbols: seq<string>, fills: seq<Row>)
    requires c.barNs > 0 && InOrder(c, fills)
    ensures Scored(c, symbols, map[], c.start, 0, fills, 0)
  {
    hide Worth;
    assert fills[..0] == [];
    forall i | 0 <= i < |fills| ensures fills[i].ts >= Bar(c, 0) {
      assert In(c, fills[i], c.t1);
    }
  }

  /** Every bar is scored: all fills are booked, once each. */
  lemma ScoredAtEnd(c: Board, symbols: seq<string>, b: Scores, pos: map<string, real>, k: nat)
    requires c.barNs > 0 && Scored(c, symbols, b, pos, Bars(c), Picked(c, c.rows), k)
    ensures forall s :: Look(pos, s) == PosAt(c, s, c.t1)
    ensures AllShow(c, symbols, b, Bars(c), c.rows)
    ensures Money(b) == Worth(c, symbols, Bar(c, Bars(c))) - Worth(c, symbols, c.t0) + Add(c, c.rows, c.t1, Flow)
                        - Arrivals(c, symbols, Bars(c))
  {
    hide Add, Worth, Money, CarryIn, BarsIn, Bars, PosAt, Picked, Arrivals, Bar;
    var fills := Picked(c, c.rows);
    PickedInOrder(c, c.rows);
    BarsReach(c, Bars(c));
    assert Bar(c, Bars(c)) >= c.t1;
    assert forall i :: 0 <= i < |fills| ==> In(c, fills[i], c.t1) && fills[i].ts < Bar(c, Bars(c));
    if fills != [] { assert fills[|fills| - 1].ts < Bar(c, Bars(c)); }
    assert k == |fills| && fills[..k] == fills && Cut(fills, k, c.t1);
    HoldsAt(c, pos, k, c.t1);
    AddPicked(c, c.rows, c.t1, Flow);
    forall name ensures Shows(c, symbols, At(b, name), name, Bars(c), c.rows) {
      assert Shows(c, symbols, At(b, name), name, Bars(c), fills[..k]);
      AddPicked(c, c.rows, c.t1, PaidIn(name));
      AddPicked(c, c.rows, c.t1, Count(name));
      AddPicked(c, c.rows, c.t1, Turnover(name));
      AddPicked(c, c.rows, c.t1, Bought(name));
      AddPicked(c, c.rows, c.t1, RebatedIn(name));
      forall h | 0 <= h < HORIZONS
        ensures Add(c, fills, c.t1, Edge(h, name)) == Add(c, c.rows, c.t1, Edge(h, name))
        ensures Add(c, fills, c.t1, EdgeUsd(h, name)) == Add(c, c.rows, c.t1, EdgeUsd(h, name))
      {
        AddPicked(c, c.rows, c.t1, Edge(h, name));
        AddPicked(c, c.rows, c.t1, EdgeUsd(h, name));
      }
    }
  }

  /**
    The score of a run. Every scored fill is booked once, each bucket shows its own, and the money of all
    buckets together is what the positions gained in worth plus the flow of money of the fills, less what
    positions were worth in symbols whose first mid came after t0. With mids throughout it telescopes to
    final positions at the last mids, less start positions at the first, less the signed cost of the fills
    and their fees, plus rebates.
   */
  method Score(c: Board) returns (symbols: seq<string>, b: Scores, pos: map<string, real>, path: Path)
    requires c.barNs > 0 && Ordered(c.series)
    ensures NoDup(symbols) && forall s :: s in symbols <==> s in c.series || s in c.start
    ensures forall s :: Look(pos, s) == PosAt(c, s, c.t1)
    ensures AllShow(c, symbols, b, Bars(c), c.rows) && Pictured(c, symbols, b, path, Bars(c))
    ensures Money(b) == Worth(c, symbols, Bar(c, Bars(c))) - Worth(c, symbols, c.t0) + Add(c, c.rows, c.t1, Flow)
                        - Arrivals(c, symbols, Bars(c))
    ensures Quoted(c, symbols) ==>
              Money(b) == Worth(c, symbols, Bar(c, Bars(c))) - Worth(c, symbols, c.t0) - Add(c, c.rows, c.t1, Cost)
                          - Add(c, c.rows, c.t1, Fee) + Add(c, c.rows, c.t1, Rebated)
  {
    hide Quoted, Scored, Pictured, Add, Worth, Money, AllShow, PosAt, Picked, Arrivals, Bars, NoDup, Look;
    symbols := Listed(c.series.Keys + c.start.Keys);
    var fills := Picked(c, c.rows);
    PickedInOrder(c, c.rows);
    var last := FirstMarks(c, symbols);
    var n, k := 0, 0;
    b, pos, path := map[], c.start, map[];
    ScoredAtStart(c, symbols, fills);
    PicturedAtStart(c, symbols);
    BarsReach(c, 0);
    while Bar(c, n) < c.t1
      invariant n <= Bars(c) && (Bar(c, n) < c.t1 <==> n < Bars(c))
      invariant Scored(c, symbols, b, pos, n, fills, k) && Marks(c, last, symbols, Bar(c, n))
      invariant Pictured(c, symbols, b, path, n)
      decreases Bars(c) - n
    {
      k, pos, b, last, path := ScoreBar(c, symbols, fills, k, n, pos, b, last, path);
      n := n + 1;
      BarsReach(c, n);
    }
    ScoredAtEnd(c, symbols, b, pos, k);
    if Quoted(c, symbols) { FlowWhenQuoted(c, symbols); }
  }

  // ---- With mids available throughout ----------------------------------------------------------------------

  /** Every symbol held or traded has a mid at the start. */
  ghost predicate Quoted(c: Board, symbols: seq<string>) {
    && (forall s :: s in symbols ==> MidAt(c.series, s, c.t0).Some?)
    && forall i :: 0 <= i < |c.rows| && In(c, c.rows[i], c.t1) ==> MidAt(c.series, c.rows[i].sym, c.t0).Some?
  }

  lemma {:induction false} NothingArrives(c: Board, symbols: seq<string>, n: nat)
    requires c.barNs > 0 && forall s :: s in symbols ==> MidAt(c.series, s, c.t0).Some?
    ensures Arrivals(c, symbols, n) == 0.0
  {
    hide MidAt, PosAt;
    if n > 0 {
      NothingArrives(c, symbols, n - 1);
      MulMonotone(0, n - 1, c.barNs);
      NoneArrives(c, symbols, Bar(c, n - 1), Bar(c, n));
    }
  }

  lemma {:induction false} NoneArrives(c: Board, symbols: seq<string>, t: int, u: int)
    requires c.barNs > 0 && c.t0 <= t && forall s :: s in symbols ==> MidAt(c.series, s, c.t0).Some?
    ensures Arrived(c, symbols, t, u) == 0.0
  {
    hide MidAt, PosAt;
    if symbols != [] {
      NoneArrives(c, symbols[..|symbols| - 1], t, u);
      MidStays(c.series, symbols[|symbols| - 1], c.t0, t);
    }
  }

  lemma {:induction false} FlowIs(c: Board, rows: seq<Row>)
    requires c.barNs > 0
    requires forall i :: 0 <= i < |rows| && In(c, rows[i], c.t1) ==> MidAt(c.series, rows[i].sym, c.t0).Some?
    ensures Add(c, rows, c.t1, Flow)
            == -Add(c, rows, c.t1, Cost) - Add(c, rows, c.t1, Fee) + Add(c, rows, c.t1, Rebated)
  {
    hide MidAt, Rebate;
    if rows != [] {
      var n := |rows| - 1;
      var r := rows[n];
      FlowIs(c, rows[..n]);
      if In(c, r, c.t1) {
        DivModIs(r.ts - c.t0, c.barNs);
        assert ((r.ts - c.t0) / c.barNs + 1) * c.barNs == (r.ts - c.t0) / c.barNs * c.barNs + c.barNs;
        MidStays(c.series, r.sym, c.t0, BarEnd(c, r.ts));
      }
    }
  }

  /** With mids throughout nothing arrives late, and the flow is cost, fees and rebates. */
  lemma FlowWhenQuoted(c: Board, symbols: seq<string>)
    requires c.barNs > 0 && Quoted(c, symbols)
    ensures Arrivals(c, symbols, Bars(c)) == 0.0
    ensures Add(c, c.rows, c.t1, Flow)
            == -Add(c, c.rows, c.t1, Cost) - Add(c, c.rows, c.t1, Fee) + Add(c, c.rows, c.t1, Rebated)
  {
    hide Add;
    NothingArrives(c, symbols, Bars(c));
    FlowIs(c, c.rows);
  }
}
