/**
  What the scorer keeps on every stream that a book accepts: exact levels, followers that mirror
  their resting orders, and an L3 queue that is exactly the quantity in front of the order.
 */
module QueueSound {
  import opened Sums
  import opened Itch
  import opened QueueRules
  import opened QueueTruth
  import opened Wrappers
  import opened QueueFollower
  import opened QueueSafety
  import Reference = ReferenceBook

  /** The resting orders with an earlier arrival place than `prio`. */
  ghost function Earlier(orders: map<nat, Order>, prio: nat): map<nat, Resting> {
    map r | r in orders && orders[r].prio < prio :: orders[r].Resting()
  }

  /** The quantity that rests at a price in front of an arrival place. */
  ghost function AheadOf(orders: map<nat, Order>, k: LevelKey, prio: nat): int {
    QtyAt(Earlier(orders, prio), k)
  }

  function InFront(o: Order, k: LevelKey, prio: nat): bool { o.Key() == k && o.prio < prio }

  lemma AheadLowered(orders: map<nat, Order>, ref: nat, q: int, link: Option<nat>, k: LevelKey, prio: nat)
    requires ref in orders && 0 <= q <= orders[ref].qty
    requires forall r :: r in orders ==> orders[r].qty >= 0
    ensures AheadOf(Lowered(orders, ref, q, link), k, prio)
            == AheadOf(orders, k, prio) - if InFront(orders[ref], k, prio) then q else 0
    ensures InFront(orders[ref], k, prio) ==> q <= AheadOf(orders, k, prio)
  {
    var o, orders' := orders[ref], Lowered(orders, ref, q, link);
    var before, after := Earlier(orders, prio), Earlier(orders', prio);
    if o.prio < prio {
      QtyAtDrop(before, ref, k);
      SumNonNegative(AtKey(before - {ref}, k));
      if o.qty == q {
        assert after == before - {ref};
      } else {
        assert after == before[ref := orders'[ref].Resting()];
        QtyAtPut(before, ref, orders'[ref].Resting(), k);
      }
    } else {
      assert after == before;
    }
  }

  /** A newcomer is behind everyone who is already there. */
  lemma AheadAdded(orders: map<nat, Order>, ref: nat, o: Order, k: LevelKey, prio: nat)
    requires ref !in orders && prio <= o.prio
    ensures AheadOf(orders[ref := o], k, prio) == AheadOf(orders, k, prio)
  {
    assert Earlier(orders[ref := o], prio) == Earlier(orders, prio);
  }

  ghost predicate Timely(s: State) {
    && (forall r :: r in s.orders ==> s.orders[r].prio <= s.prio)
    && (forall i :: 0 <= i < |s.followed| ==> s.followed[i].prio <= s.prio)
  }

  /** A living follower is the shadow of one resting order, and that order knows it. */
  ghost predicate Mirrors(s: State, i: nat)
    requires i < |s.followed|
  {
    var f := s.followed[i];
    f.alive ==> f.ref in s.orders && s.orders[f.ref].followed == Some(i) && s.orders[f.ref].qty == f.left
  }

  ghost predicate Exactly(s: State, i: nat)
    requires i < |s.followed|
  {
    var f := s.followed[i];
    Good(f) && (f.alive ==> QueueExact(f, AheadOf(s.orders, f.Key(), f.prio)))
  }

  ghost predicate Sound(s: State) {
    && Safe(s)
    && LevelsExact(Plain(s.orders), s.levels)
    && Timely(s)
    && (forall i :: 0 <= i < |s.followed| ==> Mirrors(s, i))
    && (forall i :: 0 <= i < |s.followed| ==> Exactly(s, i))
  }

  lemma Positive(s: State, r: nat)
    requires Sound(s) && r in s.orders
    ensures s.orders[r].qty > 0
  {
    assert Plain(s.orders)[r].qty > 0;
  }

  /**
    The arguments of the level rule are always in its domain: with the follower's own remainder
    taken out of the level, what others show is never negative, shrinks by exactly the shares that
    left, and was not already zero.
   */
  lemma LevelChangeInRange(s: State, i: nat, ref: nat, q: int)
    requires Sound(s) && i < |s.followed| && s.followed[i].alive
    requires ref in s.orders && ref != s.followed[i].ref && s.orders[ref].Key() == s.followed[i].Key()
    requires 0 <= q <= s.orders[ref].qty
    ensures var before, left := Displayed(s.levels, s.orders[ref].Key()), s.followed[i].left;
            var was, now := before - left, before - q - left;
            0 <= now <= was && was - now == q && 0 < was
  {
    var f, p := s.followed[i], Plain(s.orders);
    assert Mirrors(s, i);
    assert Linked(s.orders, s.followed);
    Positive(s, ref);
    QtyAtCoversTwo(p, ref, f.ref);
    assert Displayed(s.levels, p[ref].Key()) == QtyAt(p, p[ref].Key());
  }

  // ---- Every accepted message keeps the state sound --------------------------------------------

  lemma NonNegative(s: State)
    requires Sound(s)
    ensures forall r :: r in s.orders ==> s.orders[r].qty >= 0
  {
    forall r | r in s.orders ensures s.orders[r].qty >= 0 { Positive(s, r); }
  }

  lemma CancelKeepsFollower(s: State, ref: nat, shares: int, i: nat)
    requires Sound(s) && ref in s.orders && i < |s.followed|
    ensures var t := Cancel(s, ref, shares); i < |t.followed| && Mirrors(t, i) && Exactly(t, i)
  {
    hide Cancel, CancelSeen;
    var o, f, t := s.orders[ref], s.followed[i], Cancel(s, ref, shares);
    var q := Reference.Clip(shares, o.qty);
    CancelShape(s, ref, shares);
    assert t.followed[i] == AfterCancel(s, ref, q, i);
    assert Mirrors(s, i) && Exactly(s, i);
    if o.followed == Some(i) {
      OrderedIgnores(f, t.followed[i]);
    } else if f.alive {
      assert f.ref != ref;
      Positive(s, ref);
      NonNegative(s);
      AheadLowered(s.orders, ref, q, None, f.Key(), f.prio);
      if f.Book() == o.Book() {
        if f.px == o.px { LevelChangeInRange(s, i, ref, q); }
        CancelKeepsGood(f, ref, o, q, Displayed(s.levels, o.Key()), AheadOf(s.orders, f.Key(), f.prio));
      }
    }
  }

  lemma CancelKeepsBook(s: State, ref: nat, shares: int)
    requires Sound(s) && ref in s.orders
    ensures var t := Cancel(s, ref, shares); LevelsExact(Plain(t.orders), t.levels) && Timely(t)
  {
    hide Cancel, CancelSeen;
    var o, t := s.orders[ref], Cancel(s, ref, shares);
    var q := Reference.Clip(shares, o.qty);
    CancelShape(s, ref, shares);
    Positive(s, ref);
    LoweredPlain(s.orders, ref, q, None);
    ExactAfterReduce(Plain(s.orders), s.levels, ref, q);
    forall i | 0 <= i < |t.followed| ensures t.followed[i].prio <= t.prio {
      assert t.followed[i] == AfterCancel(s, ref, q, i);
      CancelKeepsIdentity(s.followed[i], ref, o, q, Displayed(s.levels, o.Key()));
    }
  }

  lemma CancelKeepsSound(s: State, ref: nat, shares: int)
    requires Sound(s)
    ensures Sound(Cancel(s, ref, shares))
  {
    if ref in s.orders {
      hide Cancel;
      CancelKeepsSafe(s, ref, shares);
      CancelKeepsBook(s, ref, shares);
      forall i | 0 <= i < |Cancel(s, ref, shares).followed|
        ensures Mirrors(Cancel(s, ref, shares), i) && Exactly(Cancel(s, ref, shares), i)
      {
        CancelShape(s, ref, shares);
        CancelKeepsFollower(s, ref, shares, i);
      }
    }
  }

  lemma ExecuteKeepsFollower(s: State, ref: nat, shares: int, execPx: Option<int>, printable: bool, ts: nat, i: nat)
    requires Sound(s) && ref in s.orders && shares > 0 && i < |s.followed|
    ensures var t := Execute(s, ref, shares, execPx, printable, ts);
            i < |t.followed| && Mirrors(t, i) && Exactly(t, i)
  {
    hide Execute, ExecutionSeen, OwnExecution;
    var e, f, t := ExecutionOf(s, ref, shares, execPx, printable, ts), s.followed[i],
                   Execute(s, ref, shares, execPx, printable, ts);
    ExecuteShape(s, ref, shares, execPx, printable, ts);
    assert t.followed[i] == AfterExecute(s, e, i);
    assert Mirrors(s, i) && Exactly(s, i);
    Positive(s, ref);
    if e.o.followed == Some(i) {
      OwnExecutionKeepsGood(f, e);
    } else if f.alive {
      assert f.ref != ref;
      NonNegative(s);
      AheadLowered(s.orders, ref, e.q, e.o.followed, f.Key(), f.prio);
      if f.Book() == e.o.Book() {
        if f.px == e.o.px { LevelChangeInRange(s, i, ref, e.q); }
        ExecutionKeepsGood(f, e, AheadOf(s.orders, f.Key(), f.prio));
      }
    }
  }

  lemma ExecuteKeepsBook(s: State, ref: nat, shares: int, execPx: Option<int>, printable: bool, ts: nat)
    requires Sound(s) && ref in s.orders && shares > 0
    ensures var t := Execute(s, ref, shares, execPx, printable, ts);
            LevelsExact(Plain(t.orders), t.levels) && Timely(t)
  {
    hide Execute, ExecutionSeen, OwnExecution;
    var e, t := ExecutionOf(s, ref, shares, execPx, printable, ts), Execute(s, ref, shares, execPx, printable, ts);
    ExecuteShape(s, ref, shares, execPx, printable, ts);
    Positive(s, ref);
    LoweredPlain(s.orders, ref, e.q, e.o.followed);
    ExactAfterReduce(Plain(s.orders), s.levels, ref, e.q);
    forall i | 0 <= i < |t.followed| ensures t.followed[i].prio <= t.prio {
      assert t.followed[i] == AfterExecute(s, e, i);
      SeenKeepsIdentity(s.followed[i], e);
      OwnKeepsIdentity(s.followed[i], e);
    }
  }

  lemma ExecuteKeepsSound(s: State, ref: nat, shares: int, execPx: Option<int>, printable: bool, ts: nat)
    requires Sound(s) && (ref in s.orders ==> shares > 0)
    ensures Sound(Execute(s, ref, shares, execPx, printable, ts))
  {
    if ref in s.orders {
      hide Execute;
      ExecuteKeepsSafe(s, ref, shares, execPx, printable, ts);
      ExecuteKeepsBook(s, ref, shares, execPx, printable, ts);
      forall i | 0 <= i < |Execute(s, ref, shares, execPx, printable, ts).followed|
        ensures Mirrors(Execute(s, ref, shares, execPx, printable, ts), i)
        ensures Exactly(Execute(s, ref, shares, execPx, printable, ts), i)
      {
        ExecuteShape(s, ref, shares, execPx, printable, ts);
        ExecuteKeepsFollower(s, ref, shares, execPx, printable, ts, i);
      }
    }
  }

  lemma ShownIs(s: State, k: LevelKey)
    requires LevelsExact(Plain(s.orders), s.levels)
    ensures Displayed(s.levels, k) == QtyAt(Plain(s.orders), k) && Displayed(s.levels, k) >= 0
  {
  }

  lemma AddKeepsFollower(s: State, ref: nat, o: Resting, ts: nat, i: nat)
    requires Sound(s) && ref !in s.orders && o.qty > 0 && i < |AddOrder(s, ref, o, ts).followed|
    ensures Mirrors(AddOrder(s, ref, o, ts), i) && Exactly(AddOrder(s, ref, o, ts), i)
  {
    hide KindOf, Good, QtyAt, LevelsExact, Safe;
    var t := AddOrder(s, ref, o, ts);
    var f := t.followed[i];
    if i < |s.followed| {
      assert f == s.followed[i] && Mirrors(s, i) && Exactly(s, i);
      AheadAdded(s.orders, ref, t.orders[ref], f.Key(), f.prio);
    } else {
      var shown := Displayed(s.levels, o.Key());
      AheadAdded(s.orders, ref, t.orders[ref], f.Key(), f.prio);
      assert Earlier(s.orders, f.prio) == Plain(s.orders);
      ShownIs(s, o.Key());
      NewIsGood(ref, f.prio, o, f.kind, shown);
    }
  }

  lemma AddKeepsBook(s: State, ref: nat, o: Resting, ts: nat)
    requires Sound(s) && ref !in s.orders && o.qty > 0
    ensures var t := AddOrder(s, ref, o, ts);
            LevelsExact(Plain(t.orders), t.levels) && Timely(t)
  {
    hide KindOf, LevelsExact, Safe, Mirrors, Exactly, Shifted;
    var t := AddOrder(s, ref, o, ts);
    assert Plain(t.orders) == Plain(s.orders)[ref := o];
    ExactAfterAdd(Plain(s.orders), s.levels, ref, o);
  }

  lemma AddKeepsSound(s: State, ref: nat, o: Resting, ts: nat)
    requires Sound(s) && ref !in s.orders && o.qty > 0
    ensures Sound(AddOrder(s, ref, o, ts))
  {
    AddKeepsSafe(s, ref, o, ts);
    AddKeepsBook(s, ref, o, ts);
    forall i | 0 <= i < |AddOrder(s, ref, o, ts).followed|
      ensures Mirrors(AddOrder(s, ref, o, ts), i) && Exactly(AddOrder(s, ref, o, ts), i)
    {
      AddKeepsFollower(s, ref, o, ts, i);
    }
  }

  lemma HiddenKeepsSound(s: State, loc: nat, px: int, qty: nat, ts: nat)
    requires Sound(s)
    ensures Sound(HiddenTrade(s, loc, px, qty, ts))
  {
    var t := HiddenTrade(s, loc, px, qty, ts);
    HiddenKeepsSafe(s, loc, px, qty, ts);
    forall i | 0 <= i < |t.followed| ensures Mirrors(t, i) && Exactly(t, i) && t.followed[i].prio <= t.prio {
      HiddenShape(s, loc, px, qty, ts, i);
      assert Mirrors(s, i) && Exactly(s, i);
      PrintKeepsGood(s.followed[i], px, qty * SCALE, ts);
    }
  }

  /** One accepted message, whatever its kind. */
  lemma StepKeepsSound(s: State, hidden: bool, m: Message)
    requires Sound(s) && Accepts(Plain(s.orders), m)
    ensures Sound(Step(s, hidden, m))
  {
    match m
    case Add(loc, ts, ref, side, qty, px) => AddKeepsSound(s, ref, Resting(loc, side, px, qty), ts);
    case Executed(_, ts, ref, qty) => ExecuteKeepsSound(s, ref, qty, None, true, ts);
    case ExecutedAt(_, ts, ref, qty, printable, px) => ExecuteKeepsSound(s, ref, qty, Some(px), printable, ts);
    case Reduced(_, _, ref, qty) => CancelKeepsSound(s, ref, qty);
    case Deleted(_, _, ref) => CancelKeepsSound(s, ref, 0);
    case Replaced(loc, ts, ref, newRef, qty, px) =>
      if ref in s.orders {
        CancelKeepsSound(s, ref, 0);
        CancelShape(s, ref, 0);
        AddKeepsSound(Cancel(s, ref, 0), newRef, Resting(loc, s.orders[ref].side, px, qty), ts);
      }
    case Trade(loc, ts, qty, px) => HiddenKeepsSound(s, loc, px, qty, ts);
    case Other(_, _) =>
  }

  lemma StartIsSound()
    ensures Sound(START)
  {
    EmptyIsExact();
    assert Plain(START.orders) == map[];
  }
}
