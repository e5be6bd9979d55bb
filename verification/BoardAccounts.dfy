/**
  Three accounts of the same money: the replay board's bar-by-bar score (tools/replay_board.py), the
  journal report's cash flow (tools/pnl_report.py) and the report's average cost (python/fastmm/report.py).
  The board's fees are in quote units, and its symbols are instruments under some numbering.
 */
module BoardAccounts {
  import opened Arith
  import opened Sequences
  import opened Wrappers
  import B = ReplayBoard
  import P = PnlBooks

  type Numbering = string -> nat

  ghost predicate Distinct(id: Numbering) { forall x, y :: id(x) == id(y) ==> x == y }

  /** The scored fills as the other two accounts see them. */
  function FillsOf(c: B.Board, rows: seq<B.Row>, id: Numbering): seq<P.Fill> {
    if rows == [] then []
    else
      var rest, r := FillsOf(c, rows[..|rows| - 1], id), rows[|rows| - 1];
      if B.In(c, r, c.t1) then rest + [P.Fill(id(r.sym), r.buys, r.px, r.qty, r.fee, P.Quote)] else rest
  }

  function Cost(r: B.Row): real { B.Signed(r) * r.px + r.fee }

  /** What the fills of one symbol cost, fees included. */
  function Spent(c: B.Board, rows: seq<B.Row>, s: string): real {
    if rows == [] then 0.0
    else
      var r := rows[|rows| - 1];
      Spent(c, rows[..|rows| - 1], s) + B.When(B.In(c, r, c.t1) && r.sym == s, Cost(r))
  }

  function SpentOn(c: B.Board, rows: seq<B.Row>, symbols: seq<string>): real {
    if symbols == [] then 0.0
    else SpentOn(c, rows, symbols[..|symbols| - 1]) + Spent(c, rows, symbols[|symbols| - 1])
  }

  /** One symbol's fills, in the terms of the cash-flow book. */
  lemma {:induction false} SymbolSums(c: B.Board, rows: seq<B.Row>, s: string, id: Numbering)
    requires c.barNs > 0 && Distinct(id)
    ensures P.SumOf(FillsOf(c, rows, id), id(s), P.Cash(1.0)) == -Spent(c, rows, s)
    ensures P.SumOf(FillsOf(c, rows, id), id(s), P.Inventory) == B.Add(c, rows, c.t1, B.Move(s))
  {
    if rows != [] {
      var rest, r := rows[..|rows| - 1], rows[|rows| - 1];
      SymbolSums(c, rest, s, id);
      var fs := FillsOf(c, rest, id);
      if B.In(c, r, c.t1) {
        var f := P.Fill(id(r.sym), r.buys, r.px, r.qty, r.fee, P.Quote);
        assert (fs + [f])[..|fs|] == fs;
        assert f.inst == id(s) <==> r.sym == s;
        CashIsCost(r, f);
      }
    }
  }

  lemma CashIsCost(r: B.Row, f: P.Fill)
    requires f.buy == r.buys && f.px == r.px && f.qty == r.qty && f.fee == r.fee && f.asset == P.Quote
    ensures P.Term(f, P.Cash(1.0)) == -Cost(r) && P.Term(f, P.Inventory) == B.Signed(r)
  {
    assert r.px * r.qty * 1.0 == r.px * r.qty;
    if !r.buys { assert (-r.qty) * r.px == -(r.px * r.qty); }
  }

  /** All fills bear no base commission. */
  lemma {:induction false} QuoteOnly(c: B.Board, rows: seq<B.Row>, i: nat, id: Numbering)
    ensures forall k :: 0 <= k < |FillsOf(c, rows, id)| ==> !P.PaysBaseSelling(FillsOf(c, rows, id)[k], i)
  {
    if rows != [] {
      QuoteOnly(c, rows[..|rows| - 1], i, id);
    }
  }

  lemma {:induction false} NothingOnNone(c: B.Board, symbols: seq<string>)
    ensures SpentOn(c, [], symbols) == 0.0
  {
    if symbols != [] {
      NothingOnNone(c, symbols[..|symbols| - 1]);
    }
  }

  /** A fill is spent on its own symbol and no other. */
  lemma {:induction false} SpentNext(c: B.Board, rows: seq<B.Row>, r: B.Row, symbols: seq<string>)
    requires NoDup(symbols)
    ensures SpentOn(c, rows + [r], symbols)
            == SpentOn(c, rows, symbols) + B.When(B.In(c, r, c.t1) && r.sym in symbols, Cost(r))
  {
    hide Cost, B.In;
    if symbols != [] {
      var rest, s := symbols[..|symbols| - 1], symbols[|symbols| - 1];
      assert symbols == rest + [s];
      SpentNext(c, rows, r, rest);
      assert (rows + [r])[..|rows|] == rows;
      if r.sym == s { assert s !in rest; }
    }
  }

  /** Over all symbols the fills cost their signed price and their fees. */
  lemma {:induction false} SpentIsCost(c: B.Board, rows: seq<B.Row>, symbols: seq<string>)
    requires c.barNs > 0 && NoDup(symbols)
    requires forall i :: 0 <= i < |rows| && B.In(c, rows[i], c.t1) ==> rows[i].sym in symbols
    ensures SpentOn(c, rows, symbols) == B.Add(c, rows, c.t1, B.Cost) + B.Add(c, rows, c.t1, B.Fee)
  {
    hide SpentOn;
    if rows == [] {
      NothingOnNone(c, symbols);
    } else {
      var rest, r := rows[..|rows| - 1], rows[|rows| - 1];
      assert rows == rest + [r];
      SpentIsCost(c, rest, symbols);
      SpentNext(c, rest, r, symbols);
    }
  }

  // ---- Positions ------------------------------------------------------------------------------------------

  lemma {:induction false} AddBefore(c: B.Board, rows: seq<B.Row>, w: B.Figure)
    requires c.barNs > 0
    ensures B.Add(c, rows, c.t0, w) == 0.0
  {
    if rows != [] {
      AddBefore(c, rows[..|rows| - 1], w);
    }
  }

  lemma {:induction false} AddPast(c: B.Board, rows: seq<B.Row>, t: int, w: B.Figure)
    requires c.barNs > 0 && t >= c.t1
    ensures B.Add(c, rows, t, w) == B.Add(c, rows, c.t1, w)
  {
    hide B.Term;
    if rows != [] {
      AddPast(c, rows[..|rows| - 1], t, w);
    }
  }

  function LastMid(c: B.Board, s: string): real
    requires c.barNs > 0
  {
    var m := B.MidAt(c.series, s, B.Bar(c, B.Bars(c)));
    if m.Some? then m.value else 0.0
  }

  function FirstMid(c: B.Board, s: string): real {
    var m := B.MidAt(c.series, s, c.t0);
    if m.Some? then m.value else 0.0
  }

  /** What the start position in a symbol gained from the first mid to the last. */
  function Gain(c: B.Board, s: string): real
    requires c.barNs > 0
  {
    B.Look(c.start, s) * (LastMid(c, s) - FirstMid(c, s))
  }

  /** What the scored fills of a symbol delivered, at its last mid. */
  function Delivered(c: B.Board, s: string): real
    requires c.barNs > 0
  {
    B.Add(c, c.rows, c.t1, B.Move(s)) * LastMid(c, s)
  }

  /** What the start positions gained. */
  function StartGain(c: B.Board, symbols: seq<string>): real
    requires c.barNs > 0
  {
    if symbols == [] then 0.0
    else
      var s := symbols[|symbols| - 1];
      StartGain(c, symbols[..|symbols| - 1]) + Gain(c, s)
  }

  /** The cash-flow books of all symbols, or their average-cost figures, at the last mids. */
  function BooksTotal(c: B.Board, symbols: seq<string>, id: Numbering, average: bool): real
    requires c.barNs > 0
  {
    if symbols == [] then 0.0
    else
      var s, fs := symbols[|symbols| - 1], FillsOf(c, c.rows, id);
      BooksTotal(c, symbols[..|symbols| - 1], id, average)
      + if average then P.ReportPnl(fs, id(s), LastMid(c, s)) else P.BookPnl(fs, id(s), LastMid(c, s), 1.0)
  }

  lemma EndIsPast(c: B.Board)
    requires c.barNs > 0
    ensures B.Bar(c, B.Bars(c)) >= c.t1 && B.Bar(c, B.Bars(c)) >= c.t0
  {
    B.BarsReach(c, B.Bars(c));
    MulMonotone(0, B.Bars(c), c.barNs);
  }

  /** One symbol: the change in worth of its position, less what its fills cost, is its book and its start. */
  lemma SymbolBalances(c: B.Board, s: string, id: Numbering)
    requires c.barNs > 0 && Distinct(id) && B.MidAt(c.series, s, c.t0).Some?
    ensures var fs, end := FillsOf(c, c.rows, id), B.Bar(c, B.Bars(c));
            && B.Mark(B.MidAt(c.series, s, end), B.PosAt(c, s, end))
               - B.Mark(B.MidAt(c.series, s, c.t0), B.PosAt(c, s, c.t0))
               - Spent(c, c.rows, s)
               == P.BookPnl(fs, id(s), LastMid(c, s), 1.0) + Gain(c, s)
            && P.ReportPnl(fs, id(s), LastMid(c, s)) == P.BookPnl(fs, id(s), LastMid(c, s), 1.0)
  {
    hide *;
    WorthMoves(c, s);
    BookIs(c, s, id);
    AverageIs(c, s, id);
  }

  lemma PositionEnds(c: B.Board, s: string)
    requires c.barNs > 0 && B.MidAt(c.series, s, c.t0).Some?
    ensures var end := B.Bar(c, B.Bars(c));
            && B.MidAt(c.series, s, end) == B.MidAt(c.series, s, c.t0).(value := LastMid(c, s))
            && B.PosAt(c, s, end) == B.Look(c.start, s) + B.Add(c, c.rows, c.t1, B.Move(s))
    ensures B.MidAt(c.series, s, c.t0).value == FirstMid(c, s) && B.PosAt(c, s, c.t0) == B.Look(c.start, s)
  {
    hide B.Bar, B.Bars, B.Add, B.MidAt;
    var end := B.Bar(c, B.Bars(c));
    EndIsPast(c);
    B.MidStays(c.series, s, c.t0, end);
    AddPast(c, c.rows, end, B.Move(s));
    AddBefore(c, c.rows, B.Move(s));
  }

  lemma WorthMoves(c: B.Board, s: string)
    requires c.barNs > 0 && B.MidAt(c.series, s, c.t0).Some?
    ensures var end := B.Bar(c, B.Bars(c));
            B.Mark(B.MidAt(c.series, s, end), B.PosAt(c, s, end))
            - B.Mark(B.MidAt(c.series, s, c.t0), B.PosAt(c, s, c.t0))
            == Delivered(c, s) + Gain(c, s)
  {
    hide B.Bar, B.Bars, B.Add, B.PosAt, B.MidAt, B.Mark, B.Look, LastMid, FirstMid;
    PositionEnds(c, s);
    var end := B.Bar(c, B.Bars(c));
    Regroup(B.MidAt(c.series, s, end), B.MidAt(c.series, s, c.t0), B.Look(c.start, s),
            B.Add(c, c.rows, c.t1, B.Move(s)), LastMid(c, s), FirstMid(c, s));
  }

  lemma BookIs(c: B.Board, s: string, id: Numbering)
    requires c.barNs > 0 && Distinct(id)
    ensures P.BookPnl(FillsOf(c, c.rows, id), id(s), LastMid(c, s), 1.0)
            == Delivered(c, s) - Spent(c, c.rows, s)
  {
    hide B.Bar, B.Bars, B.Add, P.SumOf, LastMid, Spent, FillsOf;
    SymbolSums(c, c.rows, s, id);
    var x := B.Add(c, c.rows, c.t1, B.Move(s)) * LastMid(c, s);
    assert x * 1.0 == x;
  }

  lemma AverageIs(c: B.Board, s: string, id: Numbering)
    requires c.barNs > 0
    ensures var fs := FillsOf(c, c.rows, id);
            P.ReportPnl(fs, id(s), LastMid(c, s)) == P.BookPnl(fs, id(s), LastMid(c, s), 1.0)
  {
    hide P.ReportPnl, P.BookPnl, P.SumOf, LastMid, FillsOf;
    var fs := FillsOf(c, c.rows, id);
    QuoteOnly(c, c.rows, id(s), id);
    P.NoExcess(fs, id(s), LastMid(c, s));
    P.AverageCostIsCashFlow(fs, id(s), LastMid(c, s));
  }

  lemma Regroup(last: Option<real>, first: Option<real>, held: real, moved: real, m: real, m0: real)
    requires last == Some(m) && first == Some(m0)
    ensures B.Mark(last, held + moved) - B.Mark(first, held) == moved * m + held * (m - m0)
  {
  }

  lemma {:induction false} WorthBalances(c: B.Board, symbols: seq<string>, id: Numbering)
    requires c.barNs > 0 && Distinct(id) && forall s :: s in symbols ==> B.MidAt(c.series, s, c.t0).Some?
    ensures B.Worth(c, symbols, B.Bar(c, B.Bars(c))) - B.Worth(c, symbols, c.t0) - SpentOn(c, c.rows, symbols)
            == BooksTotal(c, symbols, id, false) + StartGain(c, symbols)
    ensures BooksTotal(c, symbols, id, true) == BooksTotal(c, symbols, id, false)
  {
    hide B.MidAt, B.PosAt, Spent, FillsOf, Gain, LastMid, P.BookPnl, P.ReportPnl, B.Bars, B.Mark;
    if symbols != [] {
      var rest, s := symbols[..|symbols| - 1], symbols[|symbols| - 1];
      assert symbols == rest + [s];
      WorthBalances(c, rest, id);
      SymbolBalances(c, s, id);
    }
  }

  /**
    The board's money is what the cash-flow books, and what the average-cost account, make of the same
    fills at the last mids, plus the gain of the start positions and the rebates.
   */
  lemma ThreeAccounts(c: B.Board, symbols: seq<string>, id: Numbering)
    requires c.barNs > 0 && Distinct(id) && NoDup(symbols) && B.Quoted(c, symbols)
    requires forall s :: s in c.series ==> s in symbols
    ensures B.Worth(c, symbols, B.Bar(c, B.Bars(c))) - B.Worth(c, symbols, c.t0) - B.Add(c, c.rows, c.t1, B.Cost)
            - B.Add(c, c.rows, c.t1, B.Fee)
            == BooksTotal(c, symbols, id, false) + StartGain(c, symbols)
    ensures BooksTotal(c, symbols, id, true) == BooksTotal(c, symbols, id, false)
  {
    hide B.Worth, B.Add, B.Bars, SpentOn, BooksTotal, StartGain;
    WorthBalances(c, symbols, id);
    SpentIsCost(c, c.rows, symbols);
  }

  /** The program's score, against the other two accounts. */
  method ScoreAgainstBooks(c: B.Board, id: Numbering) returns (symbols: seq<string>, b: B.Scores)
    requires c.barNs > 0 && B.Ordered(c.series) && Distinct(id)
    ensures B.Quoted(c, symbols) ==>
              var rest := StartGain(c, symbols) + B.Add(c, c.rows, c.t1, B.Rebated);
              && B.Money(b) == BooksTotal(c, symbols, id, false) + rest
              && B.Money(b) == BooksTotal(c, symbols, id, true) + rest
  {
    hide B.Worth, B.Add, B.Bars, B.Money, BooksTotal, StartGain, B.Quoted;
    var pos, path;
    symbols, b, pos, path := B.Score(c);
    if B.Quoted(c, symbols) { ThreeAccounts(c, symbols, id); }
  }
}
