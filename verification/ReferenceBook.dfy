/** The std::map reference book that the ITCH replay checks its fast book against. */
module ReferenceBook {
  import opened Itch

  datatype Book = Book(orders: map<nat, Resting>, levels: Levels) {
    ghost predicate Exact() { LevelsExact(orders, levels) }
  }

  const EMPTY := Book(map[], map[])

  /** How many shares a reduction by `shares` takes from an order of `qty`: 0 or too much takes all. */
  function Clip(shares: int, qty: int): int { if shares <= 0 || shares > qty then qty else shares }

  function ReduceOrder(b: Book, ref: nat, shares: int): Book {
    if ref !in b.orders then b
    else
      var o := b.orders[ref];
      var n := Clip(shares, o.qty);
      Book(Reduce(b.orders, ref, n), Shifted(b.levels, o.Key(), -n))
  }

  function AddOrder(b: Book, ref: nat, o: Resting): Book {
    if o.qty <= 0 || ref in b.orders then b
    else Book(b.orders[ref := o], Shifted(b.levels, o.Key(), o.qty))
  }

  function Apply(b: Book, m: Message): Book {
    match m
    case Add(loc, _, ref, side, qty, px) => AddOrder(b, ref, Resting(loc, side, px, qty))
    case Executed(_, _, ref, qty) => ReduceOrder(b, ref, qty)
    case ExecutedAt(_, _, ref, qty, _, _) => ReduceOrder(b, ref, qty)
    case Reduced(_, _, ref, qty) => ReduceOrder(b, ref, qty)
    case Deleted(_, _, ref) => ReduceOrder(b, ref, 0)
    case Replaced(loc, _, ref, newRef, qty, px) =>
      if ref !in b.orders then b
      else AddOrder(ReduceOrder(b, ref, 0), newRef, Resting(loc, b.orders[ref].side, px, qty))
    case Trade(_, _, _, _) => b
    case Other(_, _) => b
  }

  function Run(b: Book, ms: seq<Message>): Book
    decreases |ms|
  {
    if ms == [] then b else Apply(Run(b, ms[..|ms| - 1]), ms[|ms| - 1])
  }

  lemma ReduceKeepsExact(b: Book, ref: nat, shares: int)
    requires b.Exact()
    ensures ReduceOrder(b, ref, shares).Exact()
    ensures ref in b.orders ==> b.orders[ref].Key() in b.levels
  {
    if ref in b.orders {
      ExactAfterReduce(b.orders, b.levels, ref, Clip(shares, b.orders[ref].qty));
    }
  }

  lemma AddKeepsExact(b: Book, ref: nat, o: Resting)
    requires b.Exact()
    ensures AddOrder(b, ref, o).Exact()
  {
    if o.qty > 0 && ref !in b.orders {
      ExactAfterAdd(b.orders, b.levels, ref, o);
    }
  }

  /** No message at all, valid or not, makes the reference book's levels inexact. */
  lemma ApplyKeepsExact(b: Book, m: Message)
    requires b.Exact()
    ensures Apply(b, m).Exact()
  {
    match m
    case Add(loc, _, ref, side, qty, px) => AddKeepsExact(b, ref, Resting(loc, side, px, qty));
    case Executed(_, _, ref, qty) => ReduceKeepsExact(b, ref, qty);
    case ExecutedAt(_, _, ref, qty, _, _) => ReduceKeepsExact(b, ref, qty);
    case Reduced(_, _, ref, qty) => ReduceKeepsExact(b, ref, qty);
    case Deleted(_, _, ref) => ReduceKeepsExact(b, ref, 0);
    case Replaced(loc, _, ref, newRef, qty, px) =>
      if ref in b.orders {
        ReduceKeepsExact(b, ref, 0);
        AddKeepsExact(ReduceOrder(b, ref, 0), newRef, Resting(loc, b.orders[ref].side, px, qty));
      }
    case _ =>
  }

  /** After any stream whatsoever the levels are the sums of the resting orders. */
  lemma {:induction false} RunIsExact(ms: seq<Message>)
    ensures Run(EMPTY, ms).Exact()
    decreases |ms|
  {
    if ms == [] {
      EmptyIsExact();
    } else {
      RunIsExact(ms[..|ms| - 1]);
      ApplyKeepsExact(Run(EMPTY, ms[..|ms| - 1]), ms[|ms| - 1]);
    }
  }

  /** The stream is accepted message by message, each by the book the earlier ones left. */
  ghost predicate ValidStream(ms: seq<Message>) {
    forall i :: 0 <= i < |ms| ==> Accepts(Run(EMPTY, ms[..i]).orders, ms[i])
  }

  lemma ValidPrefix(ms: seq<Message>, n: nat)
    requires ValidStream(ms) && n <= |ms|
    ensures ValidStream(ms[..n])
  {
    forall i | 0 <= i < n ensures Accepts(Run(EMPTY, ms[..n][..i]).orders, ms[..n][i]) {
      assert ms[..n][..i] == ms[..i];
    }
  }

  lemma ValidNext(ms: seq<Message>, n: nat)
    requires n < |ms| && ValidStream(ms[..n]) && Accepts(Run(EMPTY, ms[..n]).orders, ms[n])
    ensures ValidStream(ms[..n + 1])
  {
    hide Run, Accepts;
    var part := ms[..n + 1];
    forall i | 0 <= i < |part| ensures Accepts(Run(EMPTY, part[..i]).orders, part[i]) {
      if i < n {
        assert part[..i] == ms[..n][..i] && part[i] == ms[..n][i];
      } else {
        assert part[..n] == ms[..n];
      }
    }
  }

  /** The book as the program keeps it: an order table and price maps updated in place. */
  class RefBook {
    var orders: map<nat, Resting>
    var levels: Levels

    function Value(): Book
      reads this
    {
      Book(orders, levels)
    }

    ghost predicate Valid()
      reads this
    {
      Value().Exact()
    }

    constructor ()
      ensures Valid() && Value() == EMPTY
    {
      orders, levels := map[], map[];
      EmptyIsExact();
    }

    /** The price lookup is unchecked: that the level exists is part of what is proved here. */
    method RefReduce(ref: nat, shares: int)
      requires Valid()
      modifies this
      ensures Valid() && Value() == ReduceOrder(old(Value()), ref, shares)
    {
      ReduceKeepsExact(Value(), ref, shares);
      if ref !in orders { return; }
      var o := orders[ref];
      var n := shares;
      if n <= 0 || n > o.qty { n := o.qty; }
      ExactAfterReduce(orders, levels, ref, n);
      var left := levels[o.Key()] - n;
      levels := levels[o.Key() := left];
      if left == 0 { levels := levels - {o.Key()}; }
      assert levels == Shifted(old(levels), o.Key(), -n);
      orders := orders[ref := o.(qty := o.qty - n)];
      if orders[ref].qty == 0 { orders := orders - {ref}; }
      assert orders == Reduce(old(orders), ref, n);
    }

    method RefAdd(ref: nat, o: Resting)
      requires Valid()
      modifies this
      ensures Valid() && Value() == AddOrder(old(Value()), ref, o)
    {
      AddKeepsExact(Value(), ref, o);
      if o.qty <= 0 || ref in orders { return; }
      assert Displayed(levels, o.Key()) >= 0;
      orders := orders[ref := o];
      levels := levels[o.Key() := Displayed(levels, o.Key()) + o.qty];
    }

    method RefApply(m: Message)
      requires Valid()
      modifies this
      ensures Valid() && Value() == Apply(old(Value()), m)
    {
      match m
      case Add(loc, _, ref, side, qty, px) => RefAdd(ref, Resting(loc, side, px, qty));
      case Executed(_, _, ref, qty) => RefReduce(ref, qty);
      case ExecutedAt(_, _, ref, qty, _, _) => RefReduce(ref, qty);
      case Reduced(_, _, ref, qty) => RefReduce(ref, qty);
      case Deleted(_, _, ref) => RefReduce(ref, 0);
      case Replaced(loc, _, ref, newRef, qty, px) =>
        if ref in orders {
          var s := orders[ref].side;
          RefReduce(ref, 0);
          RefAdd(newRef, Resting(loc, s, px, qty));
        }
      case Trade(_, _, _, _) =>
      case Other(_, _) =>
    }

    /** The best price and its quantity, (0, 0) on an empty side. */
    method Touch(b: BookKey) returns (px: int, qty: int)
      requires Valid()
      ensures Prices(levels, b) == {} ==> (px, qty) == (0, 0)
      ensures Prices(levels, b) != {} ==>
                && px in Prices(levels, b)
                && (forall p :: p in Prices(levels, b) ==> AtOrBetter(b.side, px, p))
                && qty == QtyAt(orders, LevelKey(b.loc, b.side, px)) > 0
    {
      if Prices(levels, b) == {} { return 0, 0; }
      px := Extreme(Prices(levels, b), b.side);
      qty := levels[LevelKey(b.loc, b.side, px)];
      assert Displayed(levels, LevelKey(b.loc, b.side, px)) == qty;
    }
  }
}
