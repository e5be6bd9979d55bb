/**
  The three steps of the queue models (include/fastmm/core/queue_model.hpp): what a level change,
  a print and a recorded execution mean for one resting order. Quantities are raw fixed point,
  SCALE units to the share.
 */
module QueueRules {
  import opened Arith
  import opened Itch

  const SCALE := 100_000_000

  /**
    The quantity ahead after the level went from `was` to `now`. A level of nothing cannot shrink
    in the program (QueueSound.LevelChangeInRange); the case is given a value to keep the
    rule total.
   */
  function AfterLevelChange(ahead: int, was: int, now: int, conservatism: int): int {
    if now >= was || ahead == 0 then ahead
    else if now == 0 then 0
    else if was == 0 then ahead
    else
      var share := TruncDiv(TruncDiv((was - now) * ahead, was) * (10_000 - conservatism), 10_000);
      if share >= ahead then 0 else ahead - share
  }

  /** A print: the queue ahead it leaves, and the quantity that reaches the order. */
  function AfterTrade(ahead: int, side: Side, price: int, leaves: int,
                      px: int, qty: int, aggressor: Side): (int, int)
  {
    if side != aggressor.Opposite() || leaves == 0 then (ahead, 0)
    else if Better(aggressor, px, price) then (0, Min(qty, leaves))
    else if px != price then (ahead, 0)
    else if qty > ahead then (0, Min(qty - ahead, leaves))
    else (ahead - qty, 0)
  }

  datatype Reach = Elsewhere | Ahead | Fills

  /** What the execution of a recorded order (rPx, rPrio) at `execPx` means for ours (price, prio). */
  function ExecutionReaches(side: Side, price: int, prio: nat, rPx: int, rPrio: nat, execPx: int): Reach {
    var reached := AtOrBetter(side, price, execPx);
    if reached && (Better(side, price, rPx) || (price == rPx && prio < rPrio)) then Fills
    else if price == rPx && rPrio < prio then Ahead
    else Elsewhere
  }

  function Min(a: int, b: int): int { if a <= b then a else b }

  function Less(ahead: int, q: int): int { if ahead > q then ahead - q else 0 }

  // ---- Properties of the rules ---------------------------------------------------------------

  /**
    An earlier order at our price is reported Ahead however it executes, and nothing else is: the
    rule never confuses an order in front of ours with one behind it.
   */
  lemma AheadExactly(side: Side, price: int, prio: nat, rPx: int, rPrio: nat, execPx: int)
    ensures ExecutionReaches(side, price, prio, rPx, rPrio, execPx) == Ahead
            <==> price == rPx && rPrio < prio
  {
  }

  /**
    A print at the order's own price takes from the queue first and gives the order the rest: together
    exactly the print, as far as queue and order reach, and nothing to the order while anyone is ahead.
   */
  lemma PrintConserves(ahead: int, side: Side, price: int, leaves: int, qty: int)
    requires 0 <= ahead && 0 <= qty && 0 < leaves
    ensures var (a, fill) := AfterTrade(ahead, side, price, leaves, price, qty, side.Opposite());
            && ahead - a + fill == Min(qty, ahead + leaves) && 0 <= a <= ahead && 0 <= fill <= leaves
            && (fill > 0 ==> a == 0)
  {
  }

  /** A print through the order's price is one at its price with nothing ahead; any other passes it by. */
  lemma PrintElsewhere(ahead: int, side: Side, price: int, leaves: int, px: int, qty: int, aggressor: Side)
    requires 0 <= qty && 0 <= leaves
    ensures Better(side, price, px) && aggressor == side.Opposite() && 0 < leaves ==>
              AfterTrade(ahead, side, price, leaves, px, qty, aggressor)
              == AfterTrade(0, side, price, leaves, price, qty, aggressor)
    ensures Better(side, px, price) || aggressor == side || leaves == 0 ==>
              AfterTrade(ahead, side, price, leaves, px, qty, aggressor) == (ahead, 0)
  {
  }

  /** Ours comes before theirs: a better price, or the same price and an earlier place. */
  predicate Before(side: Side, price: int, prio: nat, rPx: int, rPrio: nat) {
    Better(side, price, rPx) || (price == rPx && prio < rPrio)
  }

  /** Of two orders with different places one comes first, and not both. */
  lemma BeforeIsTotal(side: Side, price: int, prio: nat, rPx: int, rPrio: nat)
    requires prio != rPrio
    ensures Before(side, price, prio, rPx, rPrio) <==> !Before(side, rPx, rPrio, price, prio)
  {
  }

  /** The order is filled exactly when it comes before the executed one and the aggressor reached its price. */
  lemma FillsExactly(side: Side, price: int, prio: nat, rPx: int, rPrio: nat, execPx: int)
    ensures ExecutionReaches(side, price, prio, rPx, rPrio, execPx) == Fills
            <==> Before(side, price, prio, rPx, rPrio) && !Better(side, execPx, price)
  {
  }

  /** How much of a shrinking level is taken from in front of the order. */
  function Cut(ahead: int, was: int, now: int, conservatism: int): int
    requires was > 0
  {
    (was - now) * ahead / was * (10_000 - conservatism) / 10_000
  }

  /** The share of a level in front of the order grows no faster than the queue itself. */
  lemma ShareGrowth(a: int, b: int, r: int, was: int)
    requires 0 <= a <= b && 0 <= r <= was && was > 0
    ensures 0 <= r * a / was <= r * b / was <= r * a / was + (b - a)
  {
    assert 0 <= r * a <= r * b <= r * a + (b - a) * was by {
      assert r * (b - a) <= was * (b - a);
      assert r * b == r * a + r * (b - a);
    }
    DivMonotone(0, r * a, was);
    DivMonotone(r * a, r * b, was);
    DivMonotone(r * b, r * a + (b - a) * was, was);
    DivShift(r * a, b - a, was);
  }

  lemma CutGrowth(a: int, b: int, was: int, now: int, c: int, d: int)
    requires 0 <= a <= b && 0 <= now <= was && was > 0 && 0 <= c <= d <= 10_000
    ensures Cut(b, was, now, d) <= Cut(a, was, now, c) + (b - a)
  {
    var x, y := (was - now) * a / was, (was - now) * b / was;
    ShareGrowth(a, b, was - now, was);
    WeightGrowth(x, y, b - a, 10_000 - c, 10_000 - d);
    DivMonotone(y * (10_000 - d), x * (10_000 - c) + (b - a) * 10_000, 10_000);
    DivShift(x * (10_000 - c), b - a, 10_000);
  }

  lemma CutBounds(a: int, was: int, now: int, c: int)
    requires 0 <= a && 0 <= now <= was && was > 0 && 0 <= c <= 10_000
    ensures 0 <= Cut(a, was, now, c) <= a
  {
    var x := (was - now) * a / was;
    assert (was - now) * 0 / was == 0;
    ShareGrowth(0, a, was - now, was);
    MulMonotone(0, 10_000 - c, x);
    MulMonotone(10_000 - c, 10_000, x);
  }

  lemma WeightGrowth(x: int, y: int, n: int, w: int, v: int)
    requires 0 <= x && 0 <= n && 0 <= y <= x + n && 0 <= v <= w <= 10_000
    ensures y * v <= x * w + n * 10_000
  {
    MulMonotone(y, x + n, v);
    MulMonotone(v, w, x + n);
    MulMonotone(w, 10_000, n);
    assert (x + n) * w == x * w + n * w;
  }

  lemma LevelChangeCuts(a: int, was: int, now: int, c: int)
    requires 0 <= a && 0 < now < was && 0 <= c <= 10_000
    ensures AfterLevelChange(a, was, now, c) == a - Cut(a, was, now, c)
  {
    CutBounds(a, was, now, c);
    MulMonotone(0, was - now, a);
    assert (was - now) * 0 / was == 0;
    ShareGrowth(0, a, was - now, was);
    MulMonotone(0, 10_000 - c, (was - now) * a / was);
  }

  /**
    A level change keeps the order of the models: a queue that was no longer, judged no more
    conservatively, is no longer afterwards.
   */
  lemma LevelChangeMonotone(a: int, b: int, was: int, now: int, c: int, d: int)
    requires 0 <= a <= b && 0 <= now <= was && 0 <= c <= d <= 10_000
    ensures 0 <= AfterLevelChange(a, was, now, c) <= AfterLevelChange(b, was, now, d)
    ensures AfterLevelChange(a, was, now, c) <= a
  {
    if 0 < now < was {
      LevelChangeCuts(a, was, now, c);
      LevelChangeCuts(b, was, now, d);
      CutGrowth(a, b, was, now, c, d);
      CutBounds(a, was, now, c);
      CutBounds(b, was, now, d);
    }
  }

  /** One order in one model: what a print leaves of it. */
  datatype Place = Place(ahead: int, filled: int)

  function Printed(p: Place, side: Side, price: int, qty0: int, px: int, qty: int, aggressor: Side): Place {
    var (ahead, fill) := AfterTrade(p.ahead, side, price, qty0 - p.filled, px, qty, aggressor);
    Place(ahead, p.filled + fill)
  }

  /** A place in the queue of an order of `qty0`: once it fills, nothing is ahead of it. */
  predicate Proper(p: Place, qty0: int) {
    && 0 <= p.ahead
    && 0 <= p.filled <= qty0
    && (p.filled > 0 ==> p.ahead == 0)
  }

  /** A print keeps the order of the models, in the queue and in what they filled. */
  lemma TradeMonotone(p: Place, p': Place, side: Side, price: int, qty0: int, px: int, qty: int, aggressor: Side)
    requires Proper(p, qty0) && Proper(p', qty0) && qty >= 0
    requires p.ahead <= p'.ahead && p'.filled <= p.filled
    ensures var (r, r') := (Printed(p, side, price, qty0, px, qty, aggressor),
                            Printed(p', side, price, qty0, px, qty, aggressor));
            && Proper(r, qty0) && Proper(r', qty0)
            && r.ahead <= r'.ahead && r'.filled <= r.filled
            && p.filled <= r.filled && r.ahead <= p.ahead
  {
  }

  // ---- What a level change takes from the queue ------------------------------------------------------

  /** Without conservatism the queue shrinks in proportion to the level, rounded up. */
  lemma ProportionalShare(a: int, was: int, now: int)
    requires 0 <= a && 0 < now < was
    ensures var b := AfterLevelChange(a, was, now, 0);
            b * was >= a * now > (b - 1) * was
  {
    LevelChangeCuts(a, was, now, 0);
    var x := (was - now) * a;
    MulMonotone(0, was - now, a);
    DivModIs(x, was);
    var q := x / was;
    assert q * 10_000 / 10_000 == q;
    assert (a - q) * was == a * was - q * was;
    assert (a - q - 1) * was == a * was - q * was - was;
    assert x == was * a - now * a;
  }

  /** With it the order is credited with its complement of that share, rounded down. */
  lemma CreditIsShare(a: int, was: int, now: int, c: int)
    requires 0 <= a && 0 < now < was && 0 <= c <= 10_000
    ensures var full, credit := a - AfterLevelChange(a, was, now, 0), a - AfterLevelChange(a, was, now, c);
            credit * 10_000 <= full * (10_000 - c) < (credit + 1) * 10_000
  {
    LevelChangeCuts(a, was, now, 0);
    LevelChangeCuts(a, was, now, c);
    var q := (was - now) * a / was;
    assert q * 10_000 / 10_000 == q;
    DivModIs(q * (10_000 - c), 10_000);
  }

  /** A level that does not shrink, or that nobody is left in, leaves no doubt. */
  lemma LevelChangeEnds(a: int, was: int, now: int, c: int)
    requires 0 <= a && 0 <= now && 0 <= was
    ensures now >= was ==> AfterLevelChange(a, was, now, c) == a
    ensures now == 0 < was ==> AfterLevelChange(a, was, now, c) == 0
  {
  }
}
