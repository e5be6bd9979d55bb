/**
  The order messages of a Nasdaq TotalView-ITCH 5.0 feed (sections 1.3 Add Order and 1.4 Modify
  Order Messages) and what both replay programs keep of them: orders by reference, displayed
  quantity by (locate, side, price).

  Prices are ITCH integers (units of 0.0001); the sources multiply them by a positive constant
  before comparing, which changes no comparison.
 */
module Itch {
  import opened Sums

  datatype Side = Buy | Sell {
    function Opposite(): Side { if Buy? then Sell else Buy }
  }

  /** `p` is strictly better than `q` for an order of side `s`. */
  predicate Better(s: Side, p: int, q: int) { if s.Buy? then p > q else p < q }

  predicate AtOrBetter(s: Side, p: int, q: int) { if s.Buy? then p >= q else p <= q }

  datatype Message =
    | Add(loc: nat, ts: nat, ref: nat, side: Side, qty: nat, px: nat)             // 'A', 'F'
    | Executed(loc: nat, ts: nat, ref: nat, qty: nat)                             // 'E'
    | ExecutedAt(loc: nat, ts: nat, ref: nat, qty: nat, printable: bool, px: nat) // 'C'
    | Reduced(loc: nat, ts: nat, ref: nat, qty: nat)                              // 'X'
    | Deleted(loc: nat, ts: nat, ref: nat)                                        // 'D'
    | Replaced(loc: nat, ts: nat, ref: nat, newRef: nat, qty: nat, px: nat)       // 'U'
    | Trade(loc: nat, ts: nat, qty: nat, px: nat)                                 // 'P'
    | Other(loc: nat, ts: nat)

  datatype BookKey = BookKey(loc: nat, side: Side)

  datatype LevelKey = LevelKey(loc: nat, side: Side, px: int)

  /** An order as it rests in a book. */
  datatype Resting = Resting(loc: nat, side: Side, px: int, qty: int) {
    function Key(): LevelKey { LevelKey(loc, side, px) }
  }

  type Levels = map<LevelKey, int>

  function Displayed(levels: Levels, k: LevelKey): int {
    if k in levels then levels[k] else 0
  }

  // ---- What a level should show -------------------------------------------------------------

  ghost function AtKey(orders: map<nat, Resting>, k: LevelKey): map<nat, int> {
    map r | r in orders && orders[r].Key() == k :: orders[r].qty
  }

  /** The resting quantity at one (locate, side, price). */
  ghost function QtyAt(orders: map<nat, Resting>, k: LevelKey): int {
    Sum(AtKey(orders, k))
  }

  function Share(o: Resting, k: LevelKey): int { if o.Key() == k then o.qty else 0 }

  /** Taking one order out of the book takes its quantity from its own level and no other. */
  lemma QtyAtDrop(orders: map<nat, Resting>, r: nat, k: LevelKey)
    requires r in orders
    ensures QtyAt(orders, k) == QtyAt(orders - {r}, k) + Share(orders[r], k)
  {
    var m, m' := AtKey(orders, k), AtKey(orders - {r}, k);
    if orders[r].Key() == k {
      SumDrop(m, r);
      assert m - {r} == m';
    } else {
      assert m == m';
    }
  }

  lemma QtyAtPut(orders: map<nat, Resting>, r: nat, o: Resting, k: LevelKey)
    ensures QtyAt(orders[r := o], k) == QtyAt(orders - {r}, k) + Share(o, k)
  {
    QtyAtDrop(orders[r := o], r, k);
    assert orders[r := o] - {r} == orders - {r};
  }

  /** One order never shows more than its level does. */
  lemma QtyAtCovers(orders: map<nat, Resting>, r: nat)
    requires r in orders
    requires forall x :: x in orders ==> orders[x].qty >= 0
    ensures orders[r].qty <= QtyAt(orders, orders[r].Key())
  {
    QtyAtDrop(orders, r, orders[r].Key());
    SumNonNegative(AtKey(orders - {r}, orders[r].Key()));
  }

  /** Two different orders at one price: the level covers both. */
  lemma QtyAtCoversTwo(orders: map<nat, Resting>, r: nat, x: nat)
    requires r in orders && x in orders && r != x
    requires orders[r].Key() == orders[x].Key()
    requires forall y :: y in orders ==> orders[y].qty >= 0
    ensures orders[r].qty + orders[x].qty <= QtyAt(orders, orders[r].Key())
  {
    QtyAtDrop(orders, r, orders[r].Key());
    QtyAtCovers(orders - {r}, x);
  }

  /** The displayed levels are exactly the sums of the resting orders, and no level is empty. */
  ghost predicate LevelsExact(orders: map<nat, Resting>, levels: Levels) {
    && (forall r :: r in orders ==> orders[r].qty > 0)
    && (forall k :: k in levels ==> levels[k] > 0)
    && (forall k :: Displayed(levels, k) == QtyAt(orders, k))
  }

  /** Exact levels are determined by the orders: two exact books over one order map are one book. */
  lemma LevelsDetermined(orders: map<nat, Resting>, levels: Levels, levels': Levels)
    requires LevelsExact(orders, levels) && LevelsExact(orders, levels')
    ensures levels == levels'
  {
    forall k ensures k in levels <==> k in levels' {
      assert Displayed(levels, k) == Displayed(levels', k);
    }
    forall k | k in levels ensures levels[k] == levels'[k] {
      assert Displayed(levels, k) == Displayed(levels', k);
    }
  }

  lemma EmptyIsExact()
    ensures LevelsExact(map[], map[])
  {
    forall k ensures QtyAt(map[], k) == 0 {
      assert AtKey(map[], k) == map[];
    }
  }

  /** Changing the quantity shown at one level. */
  function Shifted(levels: Levels, k: LevelKey, delta: int): Levels {
    var v := Displayed(levels, k) + delta;
    if v <= 0 then levels - {k} else levels[k := v]
  }

  /** A new order raises its level by its quantity. */
  lemma ExactAfterAdd(orders: map<nat, Resting>, levels: Levels, r: nat, o: Resting)
    requires LevelsExact(orders, levels) && r !in orders && o.qty > 0
    ensures LevelsExact(orders[r := o], Shifted(levels, o.Key(), o.qty))
  {
    var levels' := Shifted(levels, o.Key(), o.qty);
    forall k ensures Displayed(levels', k) == QtyAt(orders[r := o], k) {
      QtyAtPut(orders, r, o, k);
      assert orders - {r} == orders;
      assert Displayed(levels, k) == QtyAt(orders, k);
      SumNonNegative(AtKey(orders, k));
    }
  }

  /** The order map after `n` shares of order `r` left the book. */
  function Reduce(orders: map<nat, Resting>, r: nat, n: int): map<nat, Resting>
    requires r in orders
  {
    if orders[r].qty == n then orders - {r} else orders[r := orders[r].(qty := orders[r].qty - n)]
  }

  /** Shares that leave an order leave its level too. */
  lemma ExactAfterReduce(orders: map<nat, Resting>, levels: Levels, r: nat, n: int)
    requires LevelsExact(orders, levels) && r in orders && 0 <= n <= orders[r].qty
    ensures LevelsExact(Reduce(orders, r, n), Shifted(levels, orders[r].Key(), -n))
    ensures orders[r].Key() in levels && levels[orders[r].Key()] >= orders[r].qty
  {
    var key, orders', levels' := orders[r].Key(), Reduce(orders, r, n), Shifted(levels, orders[r].Key(), -n);
    QtyAtCovers(orders, r);
    assert Displayed(levels, key) == QtyAt(orders, key);
    forall k ensures Displayed(levels', k) == QtyAt(orders', k) {
      QtyAtDrop(orders, r, k);
      assert Displayed(levels, k) == QtyAt(orders, k);
      if orders[r].qty != n {
        QtyAtPut(orders, r, orders'[r], k);
      }
    }
  }

  // ---- Best prices ---------------------------------------------------------------------------

  /** The prices shown on one side of one book. */
  function Prices(levels: Levels, b: BookKey): set<int> {
    set k | k in levels && k.loc == b.loc && k.side == b.side :: k.px
  }

  lemma Member(ps: set<int>) returns (x: int)
    requires ps != {}
    ensures x in ps
  {
    assert (forall y :: y !in ps) ==> ps == {};
    x :| x in ps;
  }

  lemma {:induction false} BestExists(ps: set<int>, s: Side) returns (p: int)
    requires ps != {}
    ensures p in ps && forall q :: q in ps ==> AtOrBetter(s, p, q)
    decreases |ps|
  {
    p := Member(ps);
    var rest := ps - {p};
    assert ps == rest + {p};
    if rest != {} {
      var w := BestExists(rest, s);
      p := if AtOrBetter(s, p, w) then p else w;
    }
  }

  function Extreme(ps: set<int>, s: Side): (p: int)
    requires ps != {}
    ensures p in ps && forall q :: q in ps ==> AtOrBetter(s, p, q)
  {
    assert exists p :: p in ps && forall q :: q in ps ==> AtOrBetter(s, p, q) by {
      var w := BestExists(ps, s);
    }
    var p :| p in ps && forall q :: q in ps ==> AtOrBetter(s, p, q);
    p
  }

  /** The price `rank` places behind the best one, or -1 when the side is not that deep. */
  function Ranked(ps: set<int>, s: Side, rank: nat): int
    decreases rank
  {
    if |ps| <= rank then -1
    else if rank == 0 then Extreme(ps, s)
    else Ranked(ps - {Extreme(ps, s)}, s, rank - 1)
  }

  /** Exactly `rank` shown prices beat the one of that rank. */
  lemma {:induction false} RankedIsNthBest(ps: set<int>, s: Side, rank: nat)
    requires rank < |ps|
    ensures Ranked(ps, s, rank) in ps
    ensures |set q | q in ps && Better(s, q, Ranked(ps, s, rank))| == rank
    decreases rank
  {
    var p, top := Ranked(ps, s, rank), Extreme(ps, s);
    var ahead := set q | q in ps && Better(s, q, p);
    if rank == 0 {
      assert ahead == {};
    } else {
      var rest := ps - {top};
      RankedIsNthBest(rest, s, rank - 1);
      assert p in rest && AtOrBetter(s, top, p);
      assert ahead == {top} + set q | q in rest && Better(s, q, p);
    }
  }

  function Best(levels: Levels, b: BookKey, rank: nat): int { Ranked(Prices(levels, b), b.side, rank) }

  // ---- Which messages a book accepts ---------------------------------------------------------

  /**
    What a well-formed feed sends a book that holds `orders`: new references are not resting
    already, and no order is added, replaced or executed for nothing. Messages about references
    that do not rest are harmless, and so are quantities above what an order has left.
   */
  predicate Accepts(orders: map<nat, Resting>, m: Message) {
    match m
    case Add(_, _, ref, _, qty, _) => ref !in orders && qty > 0
    case Executed(_, _, ref, qty) => ref in orders ==> qty > 0
    case ExecutedAt(_, _, ref, qty, _, _) => ref in orders ==> qty > 0
    case Replaced(_, _, ref, newRef, qty, _) => ref in orders ==> qty > 0 && newRef !in orders - {ref}
    case _ => true
  }
}
