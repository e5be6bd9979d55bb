/**
  The synthetic market data generator (tools/gen_synthetic_data.py): an internal book that trades
  deplete and every flush re-draws, and the rows a reader of the file sees. Every random draw is an
  arbitrary choice, so what holds here holds for every seed. Prices are ticks, quantities lots.
 */
module SyntheticData {
  import opened Sums

  datatype Side = Bid | Ask

  datatype Kind = Snapshot | Delta | Trade | Ticker

  datatype Row = Row(ts: int, kind: Kind, side: Side, price: int, qty: int, number: nat)

  type Levels = map<int, int>

  datatype Sides = Sides(bids: Levels, asks: Levels) {
    function Of(s: Side): Levels { if s.Bid? then bids else asks }

    function With(s: Side, l: Levels): Sides { if s.Bid? then this.(bids := l) else this.(asks := l) }
  }

  function Opposite(s: Side): Side { if s.Bid? then Ask else Bid }

  function Get(l: Levels, p: int): int { if p in l then l[p] else 0 }

  ghost predicate Positive(l: Levels) { forall p :: p in l ==> l[p] > 0 }

  /** `p` is the better price of the two. */
  predicate Better(s: Side, p: int, q: int) { if s.Bid? then p > q else p < q }

  predicate IsBest(l: Levels, s: Side, p: int) { BestOf(l.Keys, s, p) }

  predicate BestOf(keys: set<int>, s: Side, p: int) {
    p in keys && forall q :: q in keys && q != p ==> Better(s, p, q)
  }

  lemma {:induction false} HasBest(keys: set<int>, s: Side)
    requires keys != {}
    ensures exists p :: BestOf(keys, s, p)
    decreases keys
  {
    assert (forall q :: q !in keys) ==> keys == {};
    var p :| p in keys;
    var rest := keys - {p};
    assert forall q :: q in keys ==> q == p || q in rest;
    if rest == {} {
      assert BestOf(keys, s, p);
    } else {
      HasBest(rest, s);
      var b :| BestOf(rest, s, b);
      if Better(s, p, b) { assert BestOf(keys, s, p); } else { assert BestOf(keys, s, b); }
    }
  }

  // ---- What a reader of the file holds --------------------------------------------------------------

  function Apply(l: Levels, r: Row): Levels {
    if r.qty == 0 then l - {r.price} else l[r.price := r.qty]
  }

  /** The levels of one side after the snapshot and delta rows; trades and tickers change nothing. */
  function View(rows: seq<Row>, s: Side): Levels {
    if rows == [] then map[]
    else
      var rest, r := View(rows[..|rows| - 1], s), rows[|rows| - 1];
      if r.side == s && (r.kind.Snapshot? || r.kind.Delta?) then Apply(rest, r) else rest
  }

  lemma ViewAfter(rows: seq<Row>, r: Row, s: Side)
    ensures View(rows + [r], s)
            == if r.side == s && (r.kind.Snapshot? || r.kind.Delta?) then Apply(View(rows, s), r) else View(rows, s)
  {
    assert (rows + [r])[..|rows|] == rows;
  }

  /** Rows that are no depth of side `s`. */
  ghost predicate NoDepth(rows: seq<Row>, s: Side) {
    forall i :: 0 <= i < |rows| ==> rows[i].side != s || rows[i].kind.Trade? || rows[i].kind.Ticker?
  }

  lemma {:induction false} ViewIgnores(rows: seq<Row>, more: seq<Row>, s: Side)
    requires NoDepth(more, s)
    ensures View(rows + more, s) == View(rows, s)
    decreases |more|
  {
    if more == [] {
      assert rows + more == rows;
    } else {
      var n := |more| - 1;
      assert rows + more == rows + more[..n] + [more[n]];
      ViewIgnores(rows, more[..n], s);
      ViewAfter(rows + more[..n], more[n], s);
    }
  }

  /** Two views with no empty level are the same when they show the same quantity at every price. */
  lemma SameLevels(l: Levels, m: Levels)
    requires Positive(l) && Positive(m) && forall p :: Get(l, p) == Get(m, p)
    ensures l == m
  {
    forall p ensures p in l <==> p in m { assert Get(l, p) == Get(m, p); }
    forall p | p in l ensures l[p] == m[p] { assert Get(l, p) == Get(m, p); }
  }

  // ---- The target book ---------------------------------------------------------------------------------

  /** Some size; the generator draws it and never takes less than one lot. */
  method Size() returns (q: int)
    ensures q >= 1
  {
    q := *;
    if q < 1 { q := 1; }
  }

  /** Nanoseconds to the next event: an exponential draw, rounded down, plus one. */
  method Wait() returns (w: int)
    ensures w >= 1
  {
    w := *;
    if w < 0 { w := 0; }
    w := w + 1;
  }

  method Gap() returns (gap: int)
    ensures 1 <= gap <= 10
  {
    gap := 1;
    var more: bool := *;
    while more && gap < 10
      invariant 1 <= gap <= 10
    {
      gap := gap + 1;
      more := *;
    }
  }

  /** `levels` prices from the top outwards, at most ten ticks apart. */
  method DrawSide(s: Side, top: int, levels: nat) returns (want: Levels)
    requires levels >= 1
    ensures |want| == levels && IsBest(want, s, top) && Positive(want)
    ensures forall p :: p in want ==> -10 * levels < p - top < 10 * levels
  {
    want := map[];
    var price := top;
    for i := 0 to levels
      invariant |want| == i && Positive(want)
      invariant i == 0 ==> price == top
      invariant i > 0 ==> IsBest(want, s, top) && Better(s, top, price)
      invariant forall p :: p in want ==> p == top || Better(s, top, p)
      invariant forall p :: p in want ==> Better(s, p, price)
      invariant forall p :: p in want ==> -10 * i < p - top < 10 * i
      invariant -10 * i <= price - top <= 10 * i
    {
      var q := Size();
      want := want[price := q];
      var gap := Gap();
      price := if s.Bid? then price - gap else price + gap;
    }
  }

  /** The desired levels around a latent mid of mid2 / 2 ticks. */
  method TargetBook(mid2: int, levels: nat) returns (want: Sides)
    requires levels >= 1
    ensures IsBest(want.bids, Bid, (mid2 - 1) / 2) && IsBest(want.asks, Ask, (mid2 - 1) / 2 + 1)
    ensures Positive(want.bids) && Positive(want.asks) && |want.bids| == levels && |want.asks| == levels
  {
    var bids := DrawSide(Bid, (mid2 - 1) / 2, levels);
    var asks := DrawSide(Ask, (mid2 - 1) / 2 + 1, levels);
    want := Sides(bids, asks);
  }

  // ---- One side of a flush -------------------------------------------------------------------------------

  /** Levels outside the target go; missing ones, and some others, take the drawn size. */
  method Redraw(cur: Levels, want: Levels) returns (l: Levels)
    requires Positive(cur) && Positive(want)
    ensures l.Keys == want.Keys && Positive(l)
    ensures forall p :: p in l ==> l[p] == want[p] || (p in cur && l[p] == cur[p])
  {
    l := map p | p in cur && p in want :: cur[p];
    var rest: set<int> := want.Keys;
    while rest != {}
      invariant rest <= want.Keys && Positive(l)
      invariant forall p :: p in l ==> p in want && (l[p] == want[p] || (p in cur && l[p] == cur[p]))
      invariant forall p :: p in want && p !in rest ==> p in l
      decreases rest
    {
      assert (forall q :: q !in rest) ==> rest == {};
      var p :| p in rest;
      var again: bool := *;
      if p !in l || again { l := l[p := want[p]]; }
      rest := rest - {p};
    }
    assert forall p :: p in want.Keys <==> p in l.Keys;
  }

  /** The reader has been told of every price not in `rest`. */
  ghost predicate Told(v: Levels, pub: Levels, cur: Levels, rest: set<int>) {
    Positive(v) && forall p :: Get(v, p) == if p in rest then Get(pub, p) else Get(cur, p)
  }

  lemma ToldAtFirst(pub: Levels, cur: Levels, kind: Kind, s: Side, first: Side)
    requires Positive(pub)
    ensures Told(pub, pub, cur, pub.Keys + cur.Keys) && Changes([], kind, s, first, pub, cur, pub.Keys + cur.Keys)
  {
  }

  lemma ToldAll(v: Levels, pub: Levels, cur: Levels)
    requires Told(v, pub, cur, {}) && Positive(cur)
    ensures v == cur
  {
    SameLevels(v, cur);
  }

  lemma TellNext(v: Levels, pub: Levels, cur: Levels, rest: set<int>, r: Row)
    requires Told(v, pub, cur, rest) && Positive(cur) && r.price in rest && r.qty == Get(cur, r.price)
    ensures Told(Apply(v, r), pub, cur, rest - {r.price})
    ensures Get(pub, r.price) == r.qty ==> Told(v, pub, cur, rest - {r.price})
  {
  }

  /** One row per price that differs, in the order of `first`, each with the current quantity. */
  ghost predicate Changes(changes: seq<Row>, kind: Kind, s: Side, first: Side, pub: Levels, cur: Levels,
                          rest: set<int>)
  {
    && (forall i :: 0 <= i < |changes| ==>
          && changes[i].kind == kind && changes[i].side == s && changes[i].qty == Get(cur, changes[i].price)
          && changes[i].qty != Get(pub, changes[i].price)
          && forall p :: p in rest ==> Better(first, changes[i].price, p))
    && forall i, j :: 0 <= i < j < |changes| ==> Better(first, changes[i].price, changes[j].price)
  }

  lemma ChangesNext(changes: seq<Row>, kind: Kind, s: Side, first: Side, pub: Levels, cur: Levels, rest: set<int>,
                    r: Row)
    requires Changes(changes, kind, s, first, pub, cur, rest) && BestOf(rest, first, r.price)
    requires r.kind == kind && r.side == s && r.qty == Get(cur, r.price)
    ensures Changes(changes, kind, s, first, pub, cur, rest - {r.price})
    ensures Get(pub, r.price) != r.qty ==> Changes(changes + [r], kind, s, first, pub, cur, rest - {r.price})
  {
    hide Better;
  }

  /** The rows that turn a published side into the current one: a snapshot when nothing was published. */
  method Publish(ts: int, kind: Kind, s: Side, first: Side, pub: Levels, cur: Levels, number: nat,
                 ghost before: seq<Row>)
    returns (changes: seq<Row>)
    requires Positive(pub) && Positive(cur) && View(before, s) == pub && (kind == Snapshot || kind == Delta)
    ensures View(before + changes, s) == cur && Changes(changes, kind, s, first, pub, cur, {})
    ensures forall i :: 0 <= i < |changes| ==> changes[i].ts == ts && changes[i].number == number
  {
    hide View, Apply, Changes, Told;
    changes := [];
    ToldAtFirst(pub, cur, kind, s, first);
    var rest: set<int> := pub.Keys + cur.Keys;
    assert before + changes == before;
    while rest != {}
      invariant Told(View(before + changes, s), pub, cur, rest) && Changes(changes, kind, s, first, pub, cur, rest)
      invariant forall i :: 0 <= i < |changes| ==> changes[i].ts == ts && changes[i].number == number
      decreases rest
    {
      HasBest(rest, first);
      var p :| BestOf(rest, first, p);
      var r := Row(ts, kind, s, p, Get(cur, p), number);
      TellNext(View(before + changes, s), pub, cur, rest, r);
      ChangesNext(changes, kind, s, first, pub, cur, rest, r);
      if Get(pub, p) != r.qty {
        assert before + (changes + [r]) == before + changes + [r];
        ViewAfter(before + changes, r, s);
        changes := changes + [r];
      }
      rest := rest - {p};
    }
    ToldAll(View(before + changes, s), pub, cur);
  }

  // ---- A market order ------------------------------------------------------------------------------------

  function Total(rows: seq<Row>): int {
    if rows == [] then 0 else Total(rows[..|rows| - 1]) + rows[|rows| - 1].qty
  }

  function TotalAt(rows: seq<Row>, p: int): int {
    if rows == [] then 0
    else TotalAt(rows[..|rows| - 1], p) + if rows[|rows| - 1].price == p then rows[|rows| - 1].qty else 0
  }

  lemma TotalsAfter(rows: seq<Row>, r: Row)
    ensures Total(rows + [r]) == Total(rows) + r.qty
    ensures forall p :: TotalAt(rows + [r], p) == TotalAt(rows, p) + if r.price == p then r.qty else 0
  {
    assert (rows + [r])[..|rows|] == rows;
  }

  /** A level after a print: gone when nothing is left. */
  function Taken(l: Levels, p: int, qty: int): Levels
    requires p in l
  {
    if l[p] <= qty then l - {p} else l[p := l[p] - qty]
  }

  lemma TakenSum(l: Levels, p: int, qty: int)
    requires p in l && 0 < qty <= l[p] && Positive(l)
    ensures Sum(Taken(l, p, qty)) == Sum(l) - qty && Positive(Taken(l, p, qty))
    ensures forall q :: Get(Taken(l, p, qty), q) == Get(l, q) - if q == p then qty else 0
  {
    SumDrop(l, p);
    if l[p] > qty { SumPut(l, p, l[p] - qty); }
  }

  /** What a market order leaves: prints explain every missing lot, best prices go first. */
  ghost predicate Swept(l0: Levels, l: Levels, maker: Side, prints: seq<Row>) {
    && Positive(l) && Sum(l) + Total(prints) == Sum(l0)
    && (forall p :: Get(l, p) + TotalAt(prints, p) == Get(l0, p))
    && (forall p :: Get(l, p) <= Get(l0, p))
    && forall p, q :: Get(l, p) < Get(l0, p) && Better(maker, q, p) ==> q !in l
  }

  ghost predicate Prints(prints: seq<Row>, ts: int, aggressor: Side, number: nat) {
    forall i :: 0 <= i < |prints| ==>
      && prints[i].ts == ts && prints[i].kind == Trade && prints[i].side == aggressor
      && prints[i].qty > 0 && prints[i].number == number + 1 + i
  }

  lemma SweepNext(l0: Levels, l: Levels, maker: Side, prints: seq<Row>, r: Row)
    requires Swept(l0, l, maker, prints) && IsBest(l, maker, r.price) && 0 < r.qty <= l[r.price]
    ensures Swept(l0, Taken(l, r.price, r.qty), maker, prints + [r])
  {
    hide Total, TotalAt;
    TakenSum(l, r.price, r.qty);
    TotalsAfter(prints, r);
    var l' := Taken(l, r.price, r.qty);
    forall p, q | Get(l', p) < Get(l0, p) && Better(maker, q, p) ensures q !in l' {
      if p == r.price { assert q !in l; }
    }
  }

  function Min(x: int, y: int): int { if x <= y then x else y }

  /** A market order prints one row per level it meets, and in total its size or the side's depth. */
  method Sweep(ts: int, l0: Levels, aggressor: Side, order: int, number: nat) returns (l: Levels, prints: seq<Row>)
    requires Positive(l0)
    ensures Swept(l0, l, Opposite(aggressor), prints) && Prints(prints, ts, aggressor, number)
    ensures Total(prints) == Min(if order > 0 then order else 0, Sum(l0))
  {
    hide Swept, IsBest, Total;
    var maker := Opposite(aggressor);
    var remaining := order;
    l, prints := l0, [];
    SweptAtFirst(l0, maker);
    while remaining > 0
      invariant Swept(l0, l, maker, prints) && Prints(prints, ts, aggressor, number)
      invariant Total(prints) == order - remaining
      invariant (order > 0 ==> remaining >= 0) && (order <= 0 ==> remaining == order)
    {
      if l == map[] { break; }
      var best := Best(l, maker);
      var qty := Min(l[best], remaining);
      var r := Row(ts, Trade, aggressor, best, qty, number + |prints| + 1);
      SweptPositive(l0, l, maker, prints);
      SweepNext(l0, l, maker, prints, r);
      TotalsAfter(prints, r);
      l, prints, remaining := Taken(l, best, qty), prints + [r], remaining - qty;
    }
    SweptPositive(l0, l, maker, prints);
    PositiveSum(l0);
  }

  lemma PositiveSum(l: Levels)
    requires Positive(l)
    ensures Sum(l) >= 0
  {
    forall p | p in l ensures l[p] >= 0 { assert l[p] > 0; }
    SumNonNegative(l);
  }

  lemma SweptAtFirst(l: Levels, maker: Side)
    requires Positive(l)
    ensures Swept(l, l, maker, []) && Total([]) == 0
  {
  }

  lemma SweptPositive(l0: Levels, l: Levels, maker: Side, prints: seq<Row>)
    requires Swept(l0, l, maker, prints)
    ensures Positive(l) && Sum(l) + Total(prints) == Sum(l0) && Sum(l) >= 0 && (l == map[] ==> Sum(l) == 0)
  {
    PositiveSum(l);
  }

  method Best(l: Levels, s: Side) returns (p: int)
    requires l != map[]
    ensures p in l && IsBest(l, s, p)
  {
    assert l.Keys != {} by { assert |l| > 0; assert |l.Keys| == |l|; }
    HasBest(l.Keys, s);
    p :| BestOf(l.Keys, s, p);
  }

  // ---- The clock -------------------------------------------------------------------------------------------

  /** The times of the next flush, trade and step of the latent mid. */
  datatype Clock = Clock(flush: int, trade: int, step: int) {
    function Next(): int { Min(Min(flush, trade), step) }
  }

  /** One turn of the event loop: the event that is due gets a new time, in the generator's order. */
  ghost predicate Turn(c: Clock, d: Clock, interval: int) {
    var t := c.Next();
    if t == c.step then d.step > t && d == c.(step := d.step)
    else if t == c.trade then d.trade > t && d == c.(trade := d.trade)
    else d == c.(flush := t + interval)
  }

  ghost predicate Turns(cs: seq<Clock>, end: int, interval: int) {
    forall i :: 0 <= i < |cs| - 1 ==> cs[i].Next() <= end && Turn(cs[i], cs[i + 1], interval)
  }

  function Left(end: int, t: int): nat { if t <= end then end + 1 - t else 0 }

  function Budget(c: Clock, end: int): nat { Left(end, c.flush) + Left(end, c.trade) + Left(end, c.step) }

  lemma TurnSpends(c: Clock, d: Clock, end: int, interval: int)
    requires interval >= 1 && c.Next() <= end && Turn(c, d, interval)
    ensures Budget(d, end) < Budget(c, end)
  {
  }

  /** With a positive interval the loop ends, after at most as many turns as nanoseconds are left. */
  lemma {:induction false} LoopEnds(cs: seq<Clock>, end: int, interval: int)
    requires cs != [] && Turns(cs, end, interval) && interval >= 1
    ensures |cs| - 1 <= Budget(cs[0], end)
  {
    if |cs| > 1 {
      TurnSpends(cs[0], cs[1], end, interval);
      var rest := cs[1..];
      forall i | 0 <= i < |rest| - 1 ensures rest[i].Next() <= end && Turn(rest[i], rest[i + 1], interval) {
        assert Turn(cs[i + 1], cs[i + 2], interval);
      }
      LoopEnds(rest, end, interval);
    }
  }

  /** Without one it never does: once a flush is due by the end, one always is. */
  lemma {:induction false} LoopNeverEnds(cs: seq<Clock>, end: int, interval: int)
    requires cs != [] && Turns(cs, end, interval) && interval <= 0 && cs[0].flush <= end
    ensures cs[|cs| - 1].flush <= end && cs[|cs| - 1].Next() <= end
  {
    var n := |cs| - 1;
    if n > 0 {
      LoopNeverEnds(cs[..n], end, interval);
      assert Turn(cs[n - 1], cs[n], interval);
    }
  }

  // ---- The generator -----------------------------------------------------------------------------------------

  ghost predicate Uncrossed(b: Sides) { forall p, q :: p in b.bids && q in b.asks ==> p < q }

  /** A row agrees with what a reader of the rows before it holds. */
  ghost predicate Agrees(rows: seq<Row>, r: Row) {
    && (r.kind.Trade? ==> 0 < r.qty <= Get(View(rows, Opposite(r.side)), r.price))
    && (r.kind.Ticker? ==> IsBest(View(rows, r.side), r.side, r.price) && Get(View(rows, r.side), r.price) == r.qty)
    && (r.kind.Ticker? ==> Uncrossed(Sides(View(rows, Bid), View(rows, Ask))))
  }

  /**
    Every trade prints at a shown price, no more than was shown there; every ticker is the shown best
    of an uncrossed book.
   */
  ghost predicate AllAgree(rows: seq<Row>) {
    rows == [] || (AllAgree(rows[..|rows| - 1]) && Agrees(rows[..|rows| - 1], rows[|rows| - 1]))
  }

  lemma {:induction false} DepthAgrees(rows: seq<Row>, more: seq<Row>)
    requires AllAgree(rows) && forall i :: 0 <= i < |more| ==> more[i].kind.Snapshot? || more[i].kind.Delta?
    ensures AllAgree(rows + more)
    decreases |more|
  {
    if more == [] {
      assert rows + more == rows;
    } else {
      var n := |more| - 1;
      DepthAgrees(rows, more[..n]);
      AgreesNext(rows + more[..n], more[n]);
      assert rows + more == rows + more[..n] + [more[n]];
    }
  }

  lemma AgreesNext(rows: seq<Row>, r: Row)
    requires AllAgree(rows) && Agrees(rows, r)
    ensures AllAgree(rows + [r])
  {
    assert (rows + [r])[..|rows|] == rows;
  }

  lemma {:induction false} TotalAtLeast(rows: seq<Row>, p: int, i: nat)
    requires i < |rows| && rows[i].price == p && forall j :: 0 <= j < |rows| ==> rows[j].qty > 0
    ensures TotalAt(rows, p) >= rows[i].qty
  {
    var n := |rows| - 1;
    if i < n {
      TotalAtLeast(rows[..n], p, i);
    } else {
      TotalAtSign(rows[..n], p);
    }
  }

  lemma {:induction false} TotalAtSign(rows: seq<Row>, p: int)
    requires forall j :: 0 <= j < |rows| ==> rows[j].qty > 0
    ensures TotalAt(rows, p) >= 0
  {
    if rows != [] { TotalAtSign(rows[..|rows| - 1], p); }
  }

  /** Prints that the shown depth covers. */
  lemma {:induction false} PrintsAgree(rows: seq<Row>, prints: seq<Row>, ts: int, aggressor: Side, number: nat)
    requires AllAgree(rows) && Prints(prints, ts, aggressor, number)
    requires forall p :: TotalAt(prints, p) <= Get(View(rows, Opposite(aggressor)), p)
    ensures AllAgree(rows + prints)
    decreases |prints|
  {
    hide View;
    if prints == [] {
      assert rows + prints == rows;
    } else {
      var n := |prints| - 1;
      var r := prints[n];
      TotalAtLeast(prints, r.price, n);
      assert forall p :: TotalAt(prints[..n], p) <= TotalAt(prints, p);
      PrintsAgree(rows, prints[..n], ts, aggressor, number);
      ViewIgnores(rows, prints[..n], Opposite(aggressor));
      AgreesNext(rows + prints[..n], r);
      assert rows + prints == rows + prints[..n] + [r];
    }
  }

  /** The reader holds the published book, trades have only taken from it, and it is two-sided and uncrossed. */
  ghost predicate Market(book: Sides, published: Sides, rows: seq<Row>) {
    && (forall s :: View(rows, s) == published.Of(s) && Positive(published.Of(s)) && published.Of(s) != map[])
    && (forall s :: Positive(book.Of(s)) && forall p :: Get(book.Of(s), p) <= Get(published.Of(s), p))
    && Uncrossed(published) && AllAgree(rows)
  }

  /** The internal book is crossed at no time. */
  lemma BookUncrossed(book: Sides, published: Sides, rows: seq<Row>)
    requires Market(book, published, rows)
    ensures Uncrossed(book)
  {
    forall p, q | p in book.bids && q in book.asks ensures p < q {
      assert Get(book.Of(Bid), p) <= Get(published.Of(Bid), p);
      assert Get(book.Of(Ask), q) <= Get(published.Of(Ask), q);
    }
  }

  /** The book a flush leaves: `levels` prices a side from the touch around the latent mid. */
  ghost predicate OnTarget(b: Sides, mid2: int, levels: nat) {
    && IsBest(b.bids, Bid, (mid2 - 1) / 2) && IsBest(b.asks, Ask, (mid2 - 1) / 2 + 1)
    && |b.bids| == levels && |b.asks| == levels && Positive(b.bids) && Positive(b.asks)
  }

  /** Rows n to m were written at one time, under one number, each for a level that readers held otherwise. */
  ghost predicate Announced(rows: seq<Row>, n: nat, m: nat, ts: int, kind: Kind, number: nat, pub: Sides) {
    n <= m <= |rows| && forall i :: n <= i < m ==>
      && rows[i].ts == ts && rows[i].kind == kind && rows[i].number == number
      && rows[i].qty != Get(pub.Of(rows[i].side), rows[i].price)
  }

  /** Rows n and n + 1 are the file's last: the tickers of the two sides, bid first. */
  ghost predicate EndsInTickers(rows: seq<Row>, n: nat, ts: int, number: nat) {
    && n + 2 == |rows| && rows[n].side == Bid && rows[n + 1].side == Ask
    && forall i :: n <= i < n + 2 ==> rows[i].ts == ts && rows[i].kind == Ticker && rows[i].number == number
  }

  lemma AnnouncedMore(rows: seq<Row>, n: nat, changes: seq<Row>, ts: int, kind: Kind, s: Side, first: Side,
                      number: nat, pub: Sides, cur: Levels)
    requires Announced(rows, n, |rows|, ts, kind, number, pub) && Changes(changes, kind, s, first, pub.Of(s), cur, {})
    requires forall i :: 0 <= i < |changes| ==> changes[i].ts == ts && changes[i].number == number
    ensures Announced(rows + changes, n, |rows + changes|, ts, kind, number, pub)
  {
  }

  /** Both sides' changes, bids first. */
  method PublishBoth(ts: int, kind: Kind, pub: Sides, cur: Sides, number: nat, rows: seq<Row>) returns (out: seq<Row>)
    requires (kind == Snapshot || kind == Delta) && AllAgree(rows)
    requires forall s :: View(rows, s) == pub.Of(s) && Positive(pub.Of(s)) && Positive(cur.Of(s))
    ensures AllAgree(out) && rows <= out && forall s :: View(out, s) == cur.Of(s)
    ensures Announced(out, |rows|, |out|, ts, kind, number, pub)
  {
    hide View, AllAgree, Positive, Announced;
    assert Announced(rows, |rows|, |rows|, ts, kind, number, pub) by { NothingAnnounced(rows, ts, kind, number, pub); }
    var bids := Publish(ts, kind, Bid, if kind == Snapshot then Bid else Ask, pub.Of(Bid), cur.Of(Bid), number, rows);
    ViewIgnores(rows, bids, Ask);
    DepthAgrees(rows, bids);
    out := rows + bids;
    AnnouncedMore(rows, |rows|, bids, ts, kind, Bid, if kind == Snapshot then Bid else Ask, number, pub, cur.Of(Bid));
    assert View(out, Ask) == pub.Of(Ask);
    var asks := Publish(ts, kind, Ask, Ask, pub.Of(Ask), cur.Of(Ask), number, out);
    ViewIgnores(out, asks, Bid);
    DepthAgrees(out, asks);
    AnnouncedMore(out, |rows|, asks, ts, kind, Ask, Ask, number, pub, cur.Of(Ask));
    out := out + asks;
    forall s ensures View(out, s) == cur.Of(s) { assert s == Bid || s == Ask; }
  }

  lemma NothingAnnounced(rows: seq<Row>, ts: int, kind: Kind, number: nat, pub: Sides)
    ensures Announced(rows, |rows|, |rows|, ts, kind, number, pub)
  {
  }

  /** The best level of each side, when both have one. */
  method Tickers(ts: int, book: Sides, number: nat, rows: seq<Row>) returns (out: seq<Row>)
    requires AllAgree(rows) && Uncrossed(book) && forall s :: View(rows, s) == book.Of(s)
    ensures AllAgree(out) && rows <= out && forall s :: View(out, s) == book.Of(s)
    ensures book.bids != map[] && book.asks != map[] ==> EndsInTickers(out, |rows|, ts, number)
  {
    hide View, AllAgree, IsBest, Uncrossed;
    out := rows;
    if book.bids != map[] && book.asks != map[] {
      var bb := Best(book.bids, Bid);
      var ba := Best(book.asks, Ask);
      var bid, ask := Row(ts, Ticker, Bid, bb, book.bids[bb], number), Row(ts, Ticker, Ask, ba, book.asks[ba], number);
      assert View(rows, Bid) == book.Of(Bid) && View(rows, Ask) == book.Of(Ask);
      assert Sides(View(rows, Bid), View(rows, Ask)) == book;
      AgreesNext(rows, bid);
      ViewAfter(rows, bid, Bid);
      ViewAfter(rows, bid, Ask);
      AgreesNext(rows + [bid], ask);
      ViewAfter(rows + [bid], ask, Bid);
      ViewAfter(rows + [bid], ask, Ask);
      out := rows + [bid] + [ask];
      forall s ensures View(out, s) == book.Of(s) { assert s == Bid || s == Ask; }
    }
  }

  lemma TargetUncrossed(book: Sides, mid2: int, levels: nat)
    requires OnTarget(book, mid2, levels)
    ensures Uncrossed(book)
  {
    forall p, q | p in book.bids && q in book.asks ensures p < q {
      assert p <= (mid2 - 1) / 2 && (mid2 - 1) / 2 + 1 <= q;
    }
  }

  lemma TwoSided(book: Sides, mid2: int, levels: nat)
    requires OnTarget(book, mid2, levels)
    ensures book.bids != map[] && book.asks != map[]
  {
    assert (mid2 - 1) / 2 in book.bids && (mid2 - 1) / 2 + 1 in book.asks;
  }

  lemma TargetIsMarket(book: Sides, rows: seq<Row>, mid2: int, levels: nat)
    requires OnTarget(book, mid2, levels) && AllAgree(rows) && forall s :: View(rows, s) == book.Of(s)
    ensures Market(book, book, rows)
  {
    hide View, AllAgree;
    assert (mid2 - 1) / 2 in book.bids && (mid2 - 1) / 2 + 1 in book.asks;
    TargetUncrossed(book, mid2, levels);
    forall s ensures Positive(book.Of(s)) && book.Of(s) != map[] { assert s == Bid || s == Ask; }
  }

  /** A sweep takes from the internal book only, and its prints lie within what readers were shown. */
  lemma SweepKeepsMarket(book: Sides, published: Sides, rows: seq<Row>, l: Levels, prints: seq<Row>, ts: int,
                         aggressor: Side, number: nat)
    requires Market(book, published, rows) && Prints(prints, ts, aggressor, number)
    requires Swept(book.Of(Opposite(aggressor)), l, Opposite(aggressor), prints)
    ensures Market(book.With(Opposite(aggressor), l), published, rows + prints)
  {
    hide View, AllAgree, Sum, Total, TotalAt;
    var maker := Opposite(aggressor);
    assert View(rows, maker) == published.Of(maker);
    forall p ensures TotalAt(prints, p) <= Get(published.Of(maker), p) {
      assert Get(book.Of(maker), p) <= Get(published.Of(maker), p);
      SignedGet(l, p);
    }
    PrintsAgree(rows, prints, ts, aggressor, number);
    forall s ensures View(rows + prints, s) == published.Of(s) { ViewIgnores(rows, prints, s); }
    var book' := book.With(maker, l);
    forall s ensures Positive(book'.Of(s)) && forall p :: Get(book'.Of(s), p) <= Get(published.Of(s), p) {
      assert Positive(book.Of(s)) && forall p :: Get(book.Of(s), p) <= Get(published.Of(s), p);
      if s == maker {
        assert book'.Of(s) == l;
        forall p ensures Get(l, p) <= Get(published.Of(s), p) { assert Get(l, p) <= Get(book.Of(s), p); }
      } else {
        assert book'.Of(s) == book.Of(s);
      }
    }
  }

  lemma SignedGet(l: Levels, p: int)
    requires Positive(l)
    ensures Get(l, p) >= 0
  {
  }

  lemma MarketParts(book: Sides, published: Sides, rows: seq<Row>)
    requires Market(book, published, rows)
    ensures AllAgree(rows) && Uncrossed(published)
    ensures forall s :: View(rows, s) == published.Of(s) && Positive(published.Of(s)) && Positive(book.Of(s))
  {
    hide View, AllAgree;
  }

  /** A new target, and the book moved onto its prices. */
  method RedrawBoth(book: Sides, mid2: int, levels: nat) returns (cur: Sides)
    requires levels >= 1 && forall s :: Positive(book.Of(s))
    ensures OnTarget(cur, mid2, levels) && forall s :: Positive(cur.Of(s))
  {
    hide IsBest;
    var want := TargetBook(mid2, levels);
    assert Positive(book.Of(Bid)) && Positive(book.Of(Ask));
    var bids := Redraw(book.bids, want.bids);
    var asks := Redraw(book.asks, want.asks);
    cur := Sides(bids, asks);
    SameKeysOnTarget(want, cur, mid2, levels);
    forall s ensures Positive(cur.Of(s)) { assert s == Bid || s == Ask; }
  }

  /** The generator's whole state between two events. */
  datatype Frame = Frame(book: Sides, published: Sides, rows: seq<Row>, number: nat, mid2: int, clock: Clock)

  /** What a flush establishes: reader, published view and internal book are one, and on target. */
  ghost predicate Synced(g: Frame, levels: nat) {
    && g.book == g.published && (forall s :: View(g.rows, s) == g.book.Of(s))
    && OnTarget(g.book, g.mid2, levels) && Uncrossed(g.book)
  }

  /** The latent mid took one tick, and nothing else happened. */
  ghost predicate Stepped(f: Frame, g: Frame, t: int) {
    && g == f.(mid2 := g.mid2, clock := f.clock.(step := g.clock.step)) && g.clock.step > t
    && (g.mid2 == f.mid2 + 2 || g.mid2 == f.mid2 - 2)
  }

  /** A market order took from one side what it printed, and nothing else happened. */
  ghost predicate Traded(f: Frame, g: Frame, t: int, aggressor: Side) {
    var maker := Opposite(aggressor);
    && f.rows <= g.rows && g.clock.trade > t
    && Swept(f.book.Of(maker), g.book.Of(maker), maker, g.rows[|f.rows|..])
    && Prints(g.rows[|f.rows|..], t, aggressor, f.number)
    && g == Frame(f.book.With(maker, g.book.Of(maker)), f.published, g.rows, f.number + |g.rows| - |f.rows|, f.mid2,
                  f.clock.(trade := g.clock.trade))
  }

  /** The book was re-drawn around the latent mid and published: what changed, and both tickers. */
  ghost predicate Flushed(f: Frame, g: Frame, t: int, interval: int, levels: nat) {
    && Synced(g, levels) && f.rows <= g.rows && |f.rows| + 2 <= |g.rows|
    && Announced(g.rows, |f.rows|, |g.rows| - 2, t, Delta, g.number, f.published)
    && EndsInTickers(g.rows, |g.rows| - 2, t, g.number)
    && g.number == f.number + 1 && g.mid2 == f.mid2 && g.clock == f.clock.(flush := t + interval)
  }

  /** One turn of the event loop: the event that is due, in the generator's order. */
  ghost predicate Happened(f: Frame, g: Frame, interval: int, levels: nat) {
    var t := f.clock.Next();
    if t == f.clock.step then Stepped(f, g, t)
    else if t == f.clock.trade then Traded(f, g, t, Bid) || Traded(f, g, t, Ask)
    else Flushed(f, g, t, interval, levels)
  }

  /** Every frame follows from the one before it by the event that was due. */
  ghost predicate History(h: seq<Frame>, end: int, interval: int, levels: nat) {
    h != [] && forall i :: 0 <= i < |h| - 1 ==> h[i].clock.Next() <= end && Happened(h[i], h[i + 1], interval, levels)
  }

  lemma HistoryNext(h: seq<Frame>, g: Frame, end: int, interval: int, levels: nat)
    requires History(h, end, interval, levels) && h[|h| - 1].clock.Next() <= end
    requires Happened(h[|h| - 1], g, interval, levels)
    ensures History(h + [g], end, interval, levels)
  {
    hide Happened;
  }

  /** The flush that frame `i` starts. */
  ghost predicate FlushAt(h: seq<Frame>, i: int, t: int, interval: int, levels: nat) {
    0 <= i < |h| - 1 && h[i].clock.Next() == t && Flushed(h[i], h[i + 1], t, interval, levels)
  }

  ghost predicate FlushHappened(h: seq<Frame>, t: int, interval: int, levels: nat) {
    exists i :: FlushAt(h, i, t, interval, levels)
  }

  /** What one turn does to the time of the next flush. */
  lemma FlushMoves(f: Frame, g: Frame, interval: int, levels: nat)
    requires Happened(f, g, interval, levels)
    ensures var t := f.clock.Next();
            if t == f.clock.step || t == f.clock.trade then g.clock.flush == f.clock.flush
            else t == f.clock.flush && g.clock.flush == t + interval && Flushed(f, g, t, interval, levels)
  {
    hide Swept, Prints, Synced;
  }

  /** A history without its first frame. */
  lemma HistoryRest(h: seq<Frame>, end: int, interval: int, levels: nat)
    requires History(h, end, interval, levels) && |h| > 1
    ensures History(h[1..], end, interval, levels)
    ensures h[0].clock.Next() <= end && Happened(h[0], h[1], interval, levels)
  {
    hide Happened;
    var rest := h[1..];
    assert h[0 + 1] == h[1];
    forall i | 0 <= i < |rest| - 1
      ensures rest[i].clock.Next() <= end && Happened(rest[i], rest[i + 1], interval, levels)
    {
      assert rest[i] == h[i + 1] && rest[i + 1] == h[i + 1 + 1];
    }
  }

  lemma MulBack(j: nat, n: int)
    requires n >= 1
    ensures 0 <= j * n && (j - 1) * n == j * n - n
  {
  }

  lemma FlushLater(h: seq<Frame>, t: int, interval: int, levels: nat)
    requires h != [] && FlushHappened(h[1..], t, interval, levels)
    ensures FlushHappened(h, t, interval, levels)
  {
    hide Flushed;
    var i :| FlushAt(h[1..], i, t, interval, levels);
    assert FlushAt(h, i + 1, t, interval, levels);
  }

  lemma {:induction false} FlushIn(h: seq<Frame>, end: int, interval: int, levels: nat, j: nat, t: int)
    requires History(h, end, interval, levels) && h != [] && h[|h| - 1].clock.Next() > end && interval >= 1
    requires t == h[0].clock.flush + j * interval <= end
    ensures FlushHappened(h, t, interval, levels)
    decreases |h|
  {
    hide History, Happened, Flushed;
    MulBack(j, interval);
    HistoryRest(h, end, interval, levels);
    FlushMoves(h[0], h[1], interval, levels);
    if h[0].clock.Next() == h[0].clock.step || h[0].clock.Next() == h[0].clock.trade {
      FlushIn(h[1..], end, interval, levels, j, t);
      FlushLater(h, t, interval, levels);
    } else if j > 0 {
      FlushIn(h[1..], end, interval, levels, j - 1, t);
      FlushLater(h, t, interval, levels);
    } else {
      assert FlushAt(h, 0, t, interval, levels);
    }
  }

  /** In a finished history every flush of the schedule happened, on time and on target. */
  lemma EveryFlushHappens(h: seq<Frame>, end: int, interval: int, levels: nat, j: nat)
    requires History(h, end, interval, levels) && h[|h| - 1].clock.Next() > end && interval >= 1
    requires h[0].clock.flush + j * interval <= end
    ensures FlushHappened(h, h[0].clock.flush + j * interval, interval, levels)
  {
    hide Happened, FlushHappened;
    FlushIn(h, end, interval, levels, j, h[0].clock.flush + j * interval);
  }

  lemma ClockKept(f: Frame, g: Frame, interval: int, levels: nat)
    requires Happened(f, g, interval, levels)
    ensures Turn(f.clock, g.clock, interval)
  {
    hide Swept, Prints, Synced;
  }

  class Feed {
    const levels: nat
    const interval: int
    var book: Sides
    var published: Sides
    var rows: seq<Row>
    var number: nat
    var mid2: int
    var clock: Clock

    ghost predicate Valid()
      reads this
    {
      levels >= 1 && Market(book, published, rows)
    }

    ghost function State(): Frame
      reads this
    {
      Frame(book, published, rows, number, mid2, clock)
    }

    constructor (midTicks: int, start: int, levels: nat, interval: int)
      requires levels >= 1
      ensures Valid() && Synced(State(), levels) && this.levels == levels && this.interval == interval
      ensures mid2 == midTicks * 2 && Announced(rows, 0, |rows|, start, Snapshot, 1, Sides(map[], map[]))
      ensures clock.flush == start + interval && clock.trade > start && clock.step > start
    {
      hide View, AllAgree, IsBest;
      var target := TargetBook(midTicks * 2, levels);
      NothingRead();
      var out := PublishBoth(start, Snapshot, Sides(map[], map[]), target, 1, []);
      TargetIsMarket(target, out, midTicks * 2, levels);
      var trade := Wait();
      var step := Wait();
      this.levels, this.interval := levels, interval;
      book, published, rows, number, mid2 := target, target, out, 1, midTicks * 2;
      clock := Clock(start + interval, start + trade, start + step);
    }

    /** The latent mid takes one tick up or down. */
    method Step(t: int)
      requires Valid()
      modifies this`mid2, this`clock
      ensures Valid() && Stepped(old(State()), State(), t)
    {
      var up: bool := *;
      var wait := Wait();
      mid2 := if up then mid2 + 2 else mid2 - 2;
      clock := clock.(step := t + wait);
    }

    /** A market order of any size hits one side. */
    method Hit(t: int) returns (aggressor: Side, order: int)
      requires Valid()
      modifies this`book, this`rows, this`number, this`clock
      ensures Valid() && Traded(old(State()), State(), t, aggressor)
      ensures Total(rows[|old(rows)|..]) == Min(if order > 0 then order else 0, Sum(old(book).Of(Opposite(aggressor))))
    {
      hide Market, Swept, Sum, Total;
      aggressor, order := *, *;
      var maker := Opposite(aggressor);
      MarketParts(book, published, rows);
      var l, prints := Sweep(t, book.Of(maker), aggressor, order, number);
      SweepKeepsMarket(book, published, rows, l, prints, t, aggressor, number);
      var wait := Wait();
      assert (rows + prints)[|rows|..] == prints;
      book, rows, number, clock := book.With(maker, l), rows + prints, number + |prints|, clock.(trade := t + wait);
    }

    /** Re-draws the book around the latent mid and publishes every difference to what readers hold. */
    method Flush(t: int)
      requires Valid()
      modifies this`book, this`published, this`rows, this`number, this`clock
      ensures Valid() && Flushed(old(State()), State(), t, interval, levels)
    {
      hide View, AllAgree, OnTarget, Market, Uncrossed;
      MarketParts(book, published, rows);
      var cur := RedrawBoth(book, mid2, levels);
      number := number + 1;
      var out := PublishBoth(t, Delta, published, cur, number, rows);
      TargetUncrossed(cur, mid2, levels);
      TwoSided(cur, mid2, levels);
      out := Tickers(t, cur, number, out);
      TargetIsMarket(cur, out, mid2, levels);
      MarketParts(cur, cur, out);
      book, published, rows, clock := cur, cur, out, clock.(flush := t + interval);
    }

    /** The event loop: from frame to frame by the event that is due, until none is by the end. */
    method Run(end: int) returns (ghost history: seq<Frame>)
      requires Valid() && interval >= 1
      modifies this
      ensures Valid() && clock.Next() > end
      ensures History(history, end, interval, levels)
      ensures history[0] == old(State()) && history[|history| - 1] == State()
    {
      hide Market, Stepped, Traded, Flushed, Swept;
      history := [State()];
      while true
        invariant Valid() && History(history, end, interval, levels)
        invariant history[0] == old(State()) && history[|history| - 1] == State()
        decreases Budget(clock, end)
      {
        var t := clock.Next();
        if t > end { break; }
        ghost var before := State();
        if t == clock.step {
          Step(t);
        } else if t == clock.trade {
          var aggressor, order := Hit(t);
        } else {
          Flush(t);
        }
        ClockKept(before, State(), interval, levels);
        TurnSpends(before.clock, clock, end, interval);
        HistoryNext(history, State(), end, interval, levels);
        history := history + [State()];
      }
    }
  }

  lemma NothingRead()
    ensures AllAgree([]) && forall s :: View([], s) == Sides(map[], map[]).Of(s) && Positive(Sides(map[], map[]).Of(s))
  {
  }

  lemma SameKeysOnTarget(want: Sides, cur: Sides, mid2: int, levels: nat)
    requires OnTarget(want, mid2, levels) && cur.bids.Keys == want.bids.Keys && cur.asks.Keys == want.asks.Keys
    requires Positive(cur.bids) && Positive(cur.asks)
    ensures OnTarget(cur, mid2, levels)
  {
    hide BestOf;
    assert |cur.bids.Keys| == |cur.bids| && |want.bids.Keys| == |want.bids|;
    assert |cur.asks.Keys| == |cur.asks| && |want.asks.Keys| == |want.asks|;
  }
}
