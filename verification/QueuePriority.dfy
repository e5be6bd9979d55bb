/**
  When the queue models are exact. The L3 rule follows the truth share for share as long as no
  execution passes over a living followed order; on streams in price-time priority none does, and
  there the most conservative L2 model stays on the safe side of both.
 */
module QueuePriority {
  import opened Sums
  import opened Itch
  import opened QueueRules
  import opened QueueTruth
  import opened Wrappers
  import opened QueueFollower
  import opened QueueSafety
  import opened QueueSound
  import opened QueueTallies
  import opened QueueRuns
  import Reference = ReferenceBook

  const STRICT := 4  // model index of the L2 rule at 10000 bps

  // ---- The L3 rule and the truth -----------------------------------------------------------------

  predicate IsTrue(f: Followed) { f.filled[L3] == f.filledTrue * SCALE }

  ghost predicate AllTrue(s: State) { forall i :: 0 <= i < |s.followed| ==> IsTrue(s.followed[i]) }

  /** The execution is of an order behind this one, at a price the aggressor reached. */
  predicate Jumps(f: Followed, e: Execution) {
    f.ref != e.ref && ExecutionReaches(f.side, f.px, f.prio, e.o.px, e.o.prio, e.px) == Fills
  }

  lemma SeenIsTrueIff(f: Followed, e: Execution)
    requires Good(f) && f.alive && IsTrue(f) && 0 < e.q
    requires f.ref != e.ref && f.px == e.o.px ==> f.left + e.q <= e.before
    ensures IsTrue(ExecutionSeen(f, e).0) <==> !Jumps(f, e)
  {
    if f.ref != e.ref {
      ShownKeepsOrder(f, e);
      hide ExecutionShown, Ordered;
      var h := ExecutionShown(f, e).0;
      assert 0 < h.qty0 * SCALE - h.filled[L3];
    }
  }

  lemma OwnIsTrue(f: Followed, e: Execution)
    requires Good(f) && f.alive && IsTrue(f) && 0 < e.q <= f.left
    ensures IsTrue(OwnExecution(f, e).0)
  {
    OwnShownKeepsOrder(f, e);
    hide OwnShown, Ordered;
  }

  lemma CancelIsTrue(f: Followed, ref: nat, o: Order, q: int, before: int)
    ensures IsTrue(CancelSeen(f, ref, o, q, before)) <==> IsTrue(f)
  {
  }

  ghost predicate Jumped(s: State, e: Execution) {
    exists i: nat :: LivesAt(s.followed, e.o.Book(), i) && Jumps(s.followed[i], e)
  }

  lemma ExecuteIsTrueAt(s: State, ref: nat, shares: int, execPx: Option<int>, printable: bool, ts: nat, i: nat)
    requires Sound(s) && ref in s.orders && shares > 0 && i < |s.followed| && IsTrue(s.followed[i])
    ensures var e := ExecutionOf(s, ref, shares, execPx, printable, ts);
            IsTrue(AfterExecute(s, e, i)) <==> !(LivesAt(s.followed, e.o.Book(), i) && Jumps(s.followed[i], e))
  {
    hide ExecutionSeen, OwnExecution, ExecutionReaches;
    var e, f := ExecutionOf(s, ref, shares, execPx, printable, ts), s.followed[i];
    assert Mirrors(s, i) && Exactly(s, i);
    Positive(s, ref);
    if e.o.followed == Some(i) {
      OwnIsTrue(f, e);
    } else if LivesAt(s.followed, e.o.Book(), i) {
      assert f.ref != ref;
      if f.px == e.o.px { LevelChangeInRange(s, i, ref, e.q); }
      SeenIsTrueIff(f, e);
    }
  }

  lemma ExecuteIsTrueIff(s: State, ref: nat, shares: int, execPx: Option<int>, printable: bool, ts: nat)
    requires Sound(s) && AllTrue(s) && ref in s.orders && shares > 0
    ensures AllTrue(Execute(s, ref, shares, execPx, printable, ts))
            <==> !Jumped(s, ExecutionOf(s, ref, shares, execPx, printable, ts))
  {
    hide Execute, ExecutionOf, AfterExecute, Jumps, IsTrue;
    var e, t := ExecutionOf(s, ref, shares, execPx, printable, ts), Execute(s, ref, shares, execPx, printable, ts);
    ExecuteShape(s, ref, shares, execPx, printable, ts);
    forall i: nat | i < |s.followed|
      ensures IsTrue(t.followed[i]) <==> !(LivesAt(s.followed, e.o.Book(), i) && Jumps(s.followed[i], e))
    {
      ExecuteIsTrueAt(s, ref, shares, execPx, printable, ts, i);
    }
  }

  lemma CancelAllTrue(s: State, ref: nat, shares: int)
    requires Sound(s) && AllTrue(s)
    ensures AllTrue(Cancel(s, ref, shares))
  {
    hide Cancel, CancelSeen;
    if ref in s.orders {
      var o, t := s.orders[ref], Cancel(s, ref, shares);
      CancelShape(s, ref, shares);
      forall i | 0 <= i < |t.followed| ensures IsTrue(t.followed[i]) {
        CancelIsTrue(s.followed[i], ref, o, Reference.Clip(shares, o.qty), Displayed(s.levels, o.Key()));
      }
    } else {
      assert Cancel(s, ref, shares) == s by { CancelMissing(s, ref, shares); }
    }
  }

  lemma CancelMissing(s: State, ref: nat, shares: int)
    requires ref !in s.orders
    ensures Cancel(s, ref, shares) == s
  {
  }

  lemma AddAllTrue(s: State, ref: nat, o: Resting, ts: nat)
    requires AllTrue(s)
    ensures AllTrue(AddOrder(s, ref, o, ts))
  {
    hide KindOf;
  }

  lemma HiddenAllTrue(s: State, loc: nat, px: int, qty: nat, ts: nat)
    requires Sound(s) && AllTrue(s)
    ensures AllTrue(HiddenTrade(s, loc, px, qty, ts))
  {
    hide HiddenTrade, PrintModels, Good;
    var t := HiddenTrade(s, loc, px, qty, ts);
    HiddenKeepsCount(s, loc, px, qty, ts);
    forall i: nat | i < |s.followed| ensures IsTrue(t.followed[i]) {
      HiddenShape(s, loc, px, qty, ts, i);
      assert Exactly(s, i);
      PrintKeepsGood(s.followed[i], px, qty * SCALE, ts);
    }
  }

  lemma HiddenKeepsCount(s: State, loc: nat, px: int, qty: nat, ts: nat)
    ensures |HiddenTrade(s, loc, px, qty, ts).followed| == |s.followed|
  {
  }

  /** The message executes an order over the head of a living followed one. */
  ghost predicate JumpedBy(s: State, m: Message) {
    match m
    case Executed(_, ts, ref, qty) => ref in s.orders && Jumped(s, ExecutionOf(s, ref, qty, None, true, ts))
    case ExecutedAt(_, ts, ref, qty, printable, px) =>
      ref in s.orders && Jumped(s, ExecutionOf(s, ref, qty, Some(px), printable, ts))
    case _ => false
  }

  lemma ExecuteMissing(s: State, ref: nat, shares: int, execPx: Option<int>, printable: bool, ts: nat)
    requires ref !in s.orders
    ensures Execute(s, ref, shares, execPx, printable, ts) == s
  {
  }

  /** From true fills, a message leads to true fills exactly when it jumps over nobody. */
  lemma StepIsTrueIff(s: State, hidden: bool, m: Message)
    requires Sound(s) && AllTrue(s) && Accepts(Plain(s.orders), m)
    ensures AllTrue(Step(s, hidden, m)) <==> !JumpedBy(s, m)
  {
    hide Execute, ExecutionOf, Cancel, AddOrder, HiddenTrade, Jumped, AllTrue, Sound;
    match m
    case Add(loc, ts, ref, side, qty, px) => AddAllTrue(s, ref, Resting(loc, side, px, qty), ts);
    case Executed(_, ts, ref, qty) =>
      if ref in s.orders { ExecuteIsTrueIff(s, ref, qty, None, true, ts); }
      else { ExecuteMissing(s, ref, qty, None, true, ts); }
    case ExecutedAt(_, ts, ref, qty, printable, px) =>
      if ref in s.orders { ExecuteIsTrueIff(s, ref, qty, Some(px), printable, ts); }
      else { ExecuteMissing(s, ref, qty, Some(px), printable, ts); }
    case Reduced(_, _, ref, qty) => CancelAllTrue(s, ref, qty);
    case Deleted(_, _, ref) => CancelAllTrue(s, ref, 0);
    case Replaced(loc, ts, ref, newRef, qty, px) =>
      if ref in s.orders {
        CancelAllTrue(s, ref, 0);
        AddAllTrue(Cancel(s, ref, 0), newRef, Resting(loc, s.orders[ref].side, px, qty), ts);
      }
    case Trade(loc, ts, qty, px) => HiddenAllTrue(s, loc, px, qty, ts);
    case Other(_, _) =>
  }

  function After(hidden: bool, ms: seq<Message>, n: nat): State
    requires n <= |ms|
  {
    Replay(START, hidden, ms[..n])
  }

  /** One more message of a valid stream. */
  lemma AfterNext(hidden: bool, ms: seq<Message>, n: nat)
    requires Reference.ValidStream(ms) && n < |ms|
    ensures Sound(After(hidden, ms, n)) && Accepts(Plain(After(hidden, ms, n).orders), ms[n])
    ensures After(hidden, ms, n + 1) == Step(After(hidden, ms, n), hidden, ms[n])
  {
    hide Sound, Step, Counted;
    Reference.ValidPrefix(ms, n);
    ReplayIsSound(hidden, ms[..n]);
    assert ms[..n + 1][..n] == ms[..n];
  }

  lemma {:induction false} TrueUpTo(hidden: bool, ms: seq<Message>, n: nat)
    requires Reference.ValidStream(ms) && n <= |ms|
    requires forall k :: 0 <= k < n ==> !JumpedBy(After(hidden, ms, k), ms[k])
    ensures AllTrue(After(hidden, ms, n))
  {
    hide Sound, Step, JumpedBy;
    if n > 0 {
      TrueUpTo(hidden, ms, n - 1);
      AfterNext(hidden, ms, n - 1);
      StepIsTrueIff(After(hidden, ms, n - 1), hidden, ms[n - 1]);
    }
  }

  /** The L3 rule equals the truth all along a valid stream exactly when no execution jumps a living follower. */
  lemma L3IsTrueIff(hidden: bool, ms: seq<Message>)
    requires Reference.ValidStream(ms)
    ensures (forall n :: 0 <= n <= |ms| ==> AllTrue(After(hidden, ms, n)))
            <==> forall n :: 0 <= n < |ms| ==> !JumpedBy(After(hidden, ms, n), ms[n])
  {
    hide Sound, Step, JumpedBy, AllTrue, After;
    if forall n :: 0 <= n <= |ms| ==> AllTrue(After(hidden, ms, n)) {
      forall n | 0 <= n < |ms| ensures !JumpedBy(After(hidden, ms, n), ms[n]) {
        assert AllTrue(After(hidden, ms, n)) && AllTrue(After(hidden, ms, n + 1));
        AfterNext(hidden, ms, n);
        StepIsTrueIff(After(hidden, ms, n), hidden, ms[n]);
      }
    }
    if forall n :: 0 <= n < |ms| ==> !JumpedBy(After(hidden, ms, n), ms[n]) {
      forall n | 0 <= n <= |ms| ensures AllTrue(After(hidden, ms, n)) {
        TrueUpTo(hidden, ms, n);
      }
    }
  }

  // ---- A stream that the L3 rule gets wrong -------------------------------------------------------------

  const NOON := 43_200_000_000_000

  function Offer(ref: nat, side: Side, px: nat): Message { Add(0, NOON, ref, side, 100, px) }

  /** An offer, two bids at 100, one at 90, and an execution of the last while the others still rest. */
  const PASSED_OVER: seq<Message> :=
    [Offer(1, Sell, 200), Offer(2, Buy, 100), Offer(3, Buy, 100), Offer(4, Buy, 90), Executed(0, NOON, 4, 50)]

  /** The touch of a side that shows one price. */
  lemma OnlyPrice(levels: Levels, b: BookKey, px: int)
    requires Prices(levels, b) == {px}
    ensures Best(levels, b, 0) == px
  {
    assert Extreme({px}, b.side) in {px};
  }

  /** The book of the first two orders, one on each side. */
  lemma TwoOrders(s: State)
    requires s == Step(Step(START, false, Offer(1, Sell, 200)), false, Offer(2, Buy, 100))
    ensures Best(s.levels, BookKey(0, Buy), 0) == 100 && Best(s.levels, BookKey(0, Sell), 0) == 200
    ensures s.orders.Keys == {1, 2}
  {
    hide KindOf, Best;
    var sell, buy := LevelKey(0, Sell, 200), LevelKey(0, Buy, 100);
    assert s.levels == map[sell := 100, buy := 100];
    assert buy in s.levels && sell in s.levels;
    assert Prices(s.levels, BookKey(0, Buy)) == {100};
    assert Prices(s.levels, BookKey(0, Sell)) == {200};
    OnlyPrice(s.levels, BookKey(0, Buy), 100);
    OnlyPrice(s.levels, BookKey(0, Sell), 200);
  }

  /** The third order joins the touch and is followed; the fourth leaves it alone. */
  lemma ThirdIsFollowed(s2: State, s4: State)
    requires Best(s2.levels, BookKey(0, Buy), 0) == 100 && Best(s2.levels, BookKey(0, Sell), 0) == 200
    requires s4 == Step(Step(s2, false, Offer(3, Buy, 100)), false, Offer(4, Buy, 90))
    ensures var i := |s2.followed|;
            && LivesAt(s4.followed, BookKey(0, Buy), i) && s4.followed[i].ref == 3 && s4.followed[i].px == 100
            && 4 in s4.orders && s4.orders[4].Key() == LevelKey(0, Buy, 90)
    ensures s4.orders.Keys == s2.orders.Keys + {3, 4}
  {
    hide Best;
    assert KindOf(s2.levels, BookKey(0, Buy), 100, NOON) == Some(0);
    hide KindOf;
  }

  lemma {:induction false} AddsAreValid(ms: seq<Message>, n: nat)
    requires n <= |ms| && forall k :: 0 <= k < n ==> ms[k].Add? && ms[k].qty > 0
    requires forall j, k :: 0 <= j < k < n ==> ms[j].ref != ms[k].ref
    ensures Reference.ValidStream(ms[..n])
    ensures forall r :: r in Reference.Run(Reference.EMPTY, ms[..n]).orders ==> exists k :: 0 <= k < n && ms[k].ref == r
  {
    if n > 0 {
      AddsAreValid(ms, n - 1);
      assert ms[..n][..n - 1] == ms[..n - 1];
      Reference.ValidNext(ms, n - 1);
    }
  }

  /** The L3 rule fills the order that was passed over, although nothing of it was executed. */
  lemma PassedOverIsFilled()
    ensures Reference.ValidStream(PASSED_OVER) && !AllTrue(Replay(START, false, PASSED_OVER))
    ensures var s := Replay(START, false, PASSED_OVER); exists i :: 0 <= i < |s.followed| && Overfilled(s, i)
  {
    hide Step, JumpedBy, AllTrue, Sound;
    var ms := PASSED_OVER;
    AddsAreValid(ms, 4);
    var s2, s4 := After(false, ms, 2), After(false, ms, 4);
    assert After(false, ms, 0) == START by { assert ms[..0] == []; }
    ReplayNext(ms, 0);
    ReplayNext(ms, 1);
    ReplayNext(ms, 2);
    ReplayNext(ms, 3);
    hide After;
    TwoOrders(s2);
    ThirdIsFollowed(s2, s4);
    assert Accepts(Reference.Run(Reference.EMPTY, ms[..4]).orders, ms[4]);
    Reference.ValidNext(ms, 4);
    assert ms[..5] == ms;
    JumpsThird(s4, |s2.followed|);
    AddsJumpNobody(ms);
    TrueUpTo(false, ms, 4);
    AfterNext(false, ms, 4);
    StepIsTrueIff(s4, false, ms[4]);
    AfterAll(ms);
    ReplayIsSound(false, ms);
    SomeOverfilled(Replay(START, false, ms));
  }

  lemma ReplayNext(ms: seq<Message>, n: nat)
    requires n < |ms|
    ensures After(false, ms, n + 1) == Step(After(false, ms, n), false, ms[n])
  {
    hide Step;
    assert ms[..n + 1][..n] == ms[..n];
  }

  lemma AfterAll(ms: seq<Message>)
    ensures After(false, ms, |ms|) == Replay(START, false, ms)
  {
    assert ms[..|ms|] == ms;
  }

  ghost predicate Overfilled(s: State, i: nat)
    requires i < |s.followed|
  {
    s.followed[i].filledTrue * SCALE < s.followed[i].filled[L3]
  }

  lemma SomeOverfilled(s: State)
    requires Sound(s) && !AllTrue(s)
    ensures exists i :: 0 <= i < |s.followed| && Overfilled(s, i)
  {
    var i :| 0 <= i < |s.followed| && !IsTrue(s.followed[i]);
    assert Exactly(s, i);
    assert Overfilled(s, i);
  }

  lemma JumpsThird(s: State, i: nat)
    requires LivesAt(s.followed, BookKey(0, Buy), i) && s.followed[i].ref == 3 && s.followed[i].px == 100
    requires 4 in s.orders && s.orders[4].Key() == LevelKey(0, Buy, 90)
    ensures JumpedBy(s, PASSED_OVER[4])
  {
    var e := ExecutionOf(s, 4, 50, None, true, NOON);
    assert Jumps(s.followed[i], e);
    assert Jumped(s, e);
  }

  lemma AddsJumpNobody(ms: seq<Message>)
    requires ms == PASSED_OVER
    ensures forall k :: 0 <= k < 4 ==> !JumpedBy(After(false, ms, k), ms[k])
  {
  }

  // ---- Price-time priority ------------------------------------------------------------------------

  /** No order of the same side is better priced, and none at the price is earlier. */
  ghost predicate First(orders: map<nat, Order>, ref: nat)
    requires ref in orders
  {
    var o := orders[ref];
    forall r :: r in orders && r != ref && orders[r].Book() == o.Book() ==>
      !Better(o.side, orders[r].px, o.px) && (orders[r].px == o.px ==> o.prio < orders[r].prio)
  }

  /** Executions are of the first order in the queue, at its own price. */
  ghost predicate InPriority(s: State, m: Message) {
    match m
    case Executed(_, _, ref, _) => ref in s.orders ==> First(s.orders, ref)
    case ExecutedAt(_, _, ref, _, _, px) => ref in s.orders ==> First(s.orders, ref) && px == s.orders[ref].px
    case _ => true
  }

  /** How a living follower stands to the order that is first. */
  lemma BehindFirst(s: State, ref: nat, i: nat)
    requires Sound(s) && ref in s.orders && First(s.orders, ref) && LivesAt(s.followed, s.orders[ref].Book(), i)
    requires s.followed[i].ref != ref
    ensures var o, f := s.orders[ref], s.followed[i];
            !Better(o.side, f.px, o.px) && (f.px == o.px ==> o.prio < f.prio)
  {
    hide LevelsExact, Good;
    assert Mirrors(s, i);
    assert s.orders[s.followed[i].ref].Key() == s.followed[i].Key();
  }

  lemma PriorityJumpsNobody(s: State, m: Message)
    requires Sound(s) && InPriority(s, m)
    ensures !JumpedBy(s, m)
  {
    hide Sound, First;
    if JumpedBy(s, m) {
      var ref := m.ref;
      var e := if m.Executed? then ExecutionOf(s, ref, m.qty, None, true, m.ts)
               else ExecutionOf(s, ref, m.qty, Some(m.px), m.printable, m.ts);
      var i: nat :| LivesAt(s.followed, e.o.Book(), i) && Jumps(s.followed[i], e);
      BehindFirst(s, ref, i);
      assert false;
    }
  }

  // ---- The strict L2 model --------------------------------------------------------------------------

  lemma {:induction false} SumSub(a: map<nat, int>, b: map<nat, int>)
    requires forall r :: r in a ==> r in b && a[r] == b[r]
    requires forall r :: r in b ==> b[r] >= 0
    ensures Sum(a) <= Sum(b)
    decreases |a|
  {
    if a == map[] {
      SumNonNegative(b);
    } else {
      var r :| r in a;
      SumDrop(a, r);
      SumDrop(b, r);
      SumSub(a - {r}, b - {r});
    }
  }

  /** What rests in front of an order, and the order itself, are part of its level. */
  lemma AheadAndOwn(s: State, i: nat)
    requires Sound(s) && i < |s.followed| && s.followed[i].alive
    ensures var f := s.followed[i];
            0 <= AheadOf(s.orders, f.Key(), f.prio) <= Displayed(s.levels, f.Key()) - f.left
  {
    var f, p := s.followed[i], Plain(s.orders);
    assert Mirrors(s, i) && Linked(s.orders, s.followed);
    var front, others := AtKey(Earlier(s.orders, f.prio), f.Key()), AtKey(p - {f.ref}, f.Key());
    NonNegative(s);
    SumNonNegative(front);
    SumSub(front, others);
    QtyAtDrop(p, f.ref, f.Key());
    ShownIs(s, f.Key());
  }

  /** Nothing rests in front of the order that is first. */
  lemma FirstHasNoneAhead(s: State, ref: nat)
    requires ref in s.orders && First(s.orders, ref)
    ensures AheadOf(s.orders, s.orders[ref].Key(), s.orders[ref].prio) == 0
  {
    var o := s.orders[ref];
    assert AtKey(Earlier(s.orders, o.prio), o.Key()) == map[];
  }

  /** The strict model gives a shrinking level no credit until nobody else is left in it. */
  lemma StrictLevelChange(a: int, was: int, now: int)
    requires 0 <= a && 0 <= now <= was
    ensures AfterLevelChange(a, was, now, 10_000) == if now < was && now == 0 then 0 else a
  {
  }

  /** The strict model has at least `ahead` shares in front and has filled no more than was true. */
  predicate Strict(f: Followed, ahead: int) {
    f.filled[STRICT] <= f.filledTrue * SCALE && (f.alive ==> ahead * SCALE <= f.ahead[STRICT])
  }

  lemma StrictShrunk(f: Followed, was: int, now: int, ahead: int, after: int)
    requires Strict(f, ahead) && 0 <= f.ahead[STRICT] && 0 <= now <= was && after <= ahead && after <= now
    ensures Strict(Shrunk(f, was, now), after)
  {
    StrictLevelChange(f.ahead[STRICT], was * SCALE, now * SCALE);
  }

  lemma StrictCancel(f: Followed, ref: nat, o: Order, q: int, before: int, ahead: int, after: int)
    requires Good(f) && f.alive && Strict(f, ahead) && after <= ahead && 0 < q
    requires f.ref != ref && f.px == o.px ==> after <= before - q - f.left && 0 <= before - q - f.left
    ensures Strict(CancelSeen(f, ref, o, q, before), after)
  {
    hide Shrunk;
    assert Proper(PlaceOf(f, STRICT), f.qty0 * SCALE);
    if f.ref != ref && f.px == o.px {
      StrictShrunk(f, before - f.left, before - q - f.left, ahead, after);
    }
  }

  /** A print at the follower's price by the order in front of it; deeper prints do not reach it. */
  lemma StrictPrinted(f: Followed, px: int, q: int, aggressor: Side, ts: nat, ahead: int, after: int)
    requires Good(f) && f.alive && Strict(f, ahead) && after <= ahead && 0 < q
    requires !Better(aggressor, px, f.px) && (px == f.px ==> q <= ahead && after == ahead - q)
    ensures Strict(PrintModels(f, L2_MODELS, px, q * SCALE, aggressor, ts).0, after)
  {
    PrintModelsAt(f, L2_MODELS, px, q * SCALE, aggressor, ts, STRICT);
    hide PrintModels;
    assert Proper(PlaceOf(f, STRICT), f.qty0 * SCALE);
    var g := PrintModels(f, L2_MODELS, px, q * SCALE, aggressor, ts).0;
    assert Place(g.ahead[STRICT], g.filled[STRICT])
        == Printed(Place(f.ahead[STRICT], f.filled[STRICT]), f.side, f.px, f.qty0 * SCALE, px, q * SCALE, aggressor);
    if px == f.px { assert q * SCALE <= ahead * SCALE; }
  }

  lemma StrictSeen(f: Followed, e: Execution, ahead: int, after: int)
    requires Good(f) && f.alive && Strict(f, ahead) && after <= ahead && 0 < e.q && f.ref != e.ref
    requires e.px == e.o.px && f.side == e.o.side && !Better(e.o.side, f.px, e.o.px)
    requires f.px == e.o.px ==>
               && e.q <= ahead && after == ahead - e.q
               && 0 <= e.before - e.q - f.left && after <= e.before - e.q - f.left
    ensures Strict(ExecutionSeen(f, e).0, after)
  {
    hide Shrunk, PrintModels, Good;
    assert 0 <= f.ahead[STRICT] by { StrictNonNegative(f); }
    if e.printable {
      StrictPrinted(f, e.px, e.q, e.o.side.Opposite(), e.ts, ahead, after);
    } else if f.px == e.o.px {
      StrictShrunk(f, e.before - f.left, e.before - e.q - f.left, ahead, after);
    }
  }

  lemma StrictNonNegative(f: Followed)
    requires Good(f)
    ensures 0 <= f.ahead[STRICT]
  {
    assert Proper(PlaceOf(f, STRICT), f.qty0 * SCALE);
  }

  lemma StrictOwn(f: Followed, e: Execution)
    requires Good(f) && f.alive && Strict(f, 0) && 0 < e.q <= f.left
    ensures Strict(OwnExecution(f, e).0, 0) && 0 <= OwnExecution(f, e).0.ahead[STRICT]
  {
    var g := f.(filledTrue := f.filledTrue + e.q);
    OrderedIgnores(f, g);
    PrintModelsAt(g, L2_MODELS, e.px, e.q * SCALE, e.o.side.Opposite(), e.ts, STRICT);
    PrintKeepsOrder(g, e.px, e.q * SCALE, e.o.side.Opposite(), e.ts);
    hide PrintModels;
    var h := OwnShown(f, e).0;
    StrictNonNegative(f);
    assert Proper(PlaceOf(g, STRICT), g.qty0 * SCALE);
    assert h.filled[STRICT] <= f.filled[STRICT] + e.q * SCALE && 0 <= h.ahead[STRICT];
  }

  ghost predicate StrictAt(s: State, i: nat)
    requires i < |s.followed|
  {
    Strict(s.followed[i], AheadOf(s.orders, s.followed[i].Key(), s.followed[i].prio))
  }

  ghost predicate AllStrict(s: State) { forall i :: 0 <= i < |s.followed| ==> StrictAt(s, i) }

  lemma CancelKeepsStrict(s: State, ref: nat, shares: int, i: nat)
    requires Sound(s) && ref in s.orders && i < |s.followed| && StrictAt(s, i)
    ensures var t := Cancel(s, ref, shares); i < |t.followed| && StrictAt(t, i)
  {
    hide Cancel, CancelSeen, Strict, Sound;
    var o, f, t := s.orders[ref], s.followed[i], Cancel(s, ref, shares);
    var q := Reference.Clip(shares, o.qty);
    CancelShape(s, ref, shares) by { SoundIsSafe(s); }
    CancelKeepsSound(s, ref, shares);
    SoundAt(s, i);
    assert t.followed[i] == AfterCancel(s, ref, q, i);
    if o.followed == Some(i) {
      StrictEnds(f, AheadOf(s.orders, f.Key(), f.prio), AheadOf(t.orders, f.Key(), f.prio));
    } else if f.alive {
      OthersGo(s, t, ref, q, None, i);
      if f.Book() == o.Book() {
        CancelKeepsIdentity(f, ref, o, q, Displayed(s.levels, o.Key()));
        CancelKeepsLeft(f, ref, o, q, Displayed(s.levels, o.Key()));
        RoomLeft(s, t, ref, q, i, f.left);
        StrictCancel(f, ref, o, q, Displayed(s.levels, o.Key()), AheadOf(s.orders, f.Key(), f.prio),
                     AheadOf(t.orders, f.Key(), f.prio));
      } else {
        StrictFewer(f, AheadOf(s.orders, f.Key(), f.prio), AheadOf(t.orders, f.Key(), f.prio));
      }
    } else {
      StrictEnds(f, AheadOf(s.orders, f.Key(), f.prio), AheadOf(t.orders, f.Key(), f.prio));
    }
  }

  lemma CancelKeepsLeft(f: Followed, ref: nat, o: Order, q: int, before: int)
    ensures CancelSeen(f, ref, o, q, before).left == f.left
  {
  }

  lemma SoundIsSafe(s: State)
    requires Sound(s)
    ensures Safe(s)
  {
  }

  lemma SoundAt(s: State, i: nat)
    requires Sound(s) && i < |s.followed|
    ensures Good(s.followed[i]) && Mirrors(s, i)
    ensures forall r :: r in s.orders ==> s.orders[r].qty > 0
  {
    assert Exactly(s, i);
    forall r | r in s.orders ensures s.orders[r].qty > 0 { Positive(s, r); }
  }

  /** A follower that is over has nothing left to keep but its fills. */
  lemma StrictEnds(f: Followed, ahead: int, other: int)
    requires Strict(f, ahead)
    ensures Strict(f.(alive := false), other) && (!f.alive ==> Strict(f, other))
  {
  }

  lemma StrictFewer(f: Followed, ahead: int, after: int)
    requires Strict(f, ahead) && after <= ahead
    ensures Strict(f, after)
  {
  }

  /** Shares of another order leave: what is in front of a follower shrinks by them if they were there. */
  lemma OthersGo(s: State, t: State, ref: nat, q: int, link: Option<nat>, i: nat)
    requires Sound(s) && ref in s.orders && 0 <= q <= s.orders[ref].qty && i < |s.followed|
    requires t.orders == Lowered(s.orders, ref, q, link)
    ensures var f, o := s.followed[i], s.orders[ref];
            AheadOf(t.orders, f.Key(), f.prio)
            == AheadOf(s.orders, f.Key(), f.prio) - if InFront(o, f.Key(), f.prio) then q else 0
    ensures var f, o := s.followed[i], s.orders[ref];
            InFront(o, f.Key(), f.prio) ==> q <= AheadOf(s.orders, f.Key(), f.prio)
  {
    NonNegative(s);
    AheadLowered(s.orders, ref, q, link, s.followed[i].Key(), s.followed[i].prio);
  }

  /** What is still in front of a follower is still in its level, beside the follower itself. */
  lemma RoomLeft(s: State, t: State, ref: nat, q: int, i: nat, left: int)
    requires Sound(s) && Sound(t) && ref in s.orders && 0 < q <= s.orders[ref].qty
    requires t.levels == Shifted(s.levels, s.orders[ref].Key(), -q)
    requires i < |s.followed| && i < |t.followed| && t.followed[i].alive && SameIdentity(s.followed[i], t.followed[i])
    requires s.followed[i].Key() == s.orders[ref].Key() ==> left == t.followed[i].left == s.followed[i].left
    ensures s.followed[i].Key() == s.orders[ref].Key() ==>
              0 <= AheadOf(t.orders, s.followed[i].Key(), s.followed[i].prio)
                <= Displayed(s.levels, s.orders[ref].Key()) - q - left
  {
    var k := s.orders[ref].Key();
    if s.followed[i].Key() == k {
      AheadAndOwn(t, i);
      ShownIs(s, k);
      NonNegative(s);
      QtyAtCovers(Plain(s.orders), ref);
    }
  }

  lemma ExecuteKeepsStrict(s: State, ref: nat, shares: int, execPx: Option<int>, printable: bool, ts: nat, i: nat)
    requires Sound(s) && ref in s.orders && shares > 0 && i < |s.followed| && StrictAt(s, i)
    requires First(s.orders, ref) && (execPx.Some? ==> execPx.value == s.orders[ref].px)
    ensures var t := Execute(s, ref, shares, execPx, printable, ts); i < |t.followed| && StrictAt(t, i)
  {
    hide Execute, ExecutionSeen, OwnExecution, Strict, Sound, First, ExecutionReaches, Lowered;
    var e, f, t := ExecutionOf(s, ref, shares, execPx, printable, ts), s.followed[i],
                   Execute(s, ref, shares, execPx, printable, ts);
    SoundIsSafe(s);
    ExecuteShape(s, ref, shares, execPx, printable, ts);
    ExecuteKeepsSound(s, ref, shares, execPx, printable, ts);
    SoundAt(s, i);
    assert t.followed[i] == AfterExecute(s, e, i);
    var ahead, after := AheadOf(s.orders, f.Key(), f.prio), AheadOf(t.orders, f.Key(), f.prio);
    if e.o.followed == Some(i) {
      FirstHasNoneAhead(s, ref);
      StrictOwn(f, e);
      OwnKeepsIdentity(f, e);
      OthersGo(s, t, ref, e.q, e.o.followed, i);
      StrictEnds(OwnExecution(f, e).0, 0, after);
    } else if LivesAt(s.followed, e.o.Book(), i) {
      OthersGo(s, t, ref, e.q, e.o.followed, i);
      BehindFirst(s, ref, i);
      SeenKeepsIdentity(f, e);
      SeenKeepsLeft(s, e, i);
      RoomLeft(s, t, ref, e.q, i, f.left);
      StrictSeen(f, e, ahead, after);
    } else if f.alive {
      OthersGo(s, t, ref, e.q, e.o.followed, i);
    } else {
      StrictEnds(f, ahead, after);
    }
  }

  lemma SeenKeepsLeft(s: State, e: Execution, i: nat)
    requires Sound(s) && e.ref in s.orders && e.o == s.orders[e.ref] && 0 < e.q <= e.o.qty
    requires e.before == Displayed(s.levels, e.o.Key())
    requires LivesAt(s.followed, e.o.Book(), i) && s.followed[i].ref != e.ref
    ensures ExecutionSeen(s.followed[i], e).0.left == s.followed[i].left
  {
    hide ExecutionSeen, Good;
    var f := s.followed[i];
    assert Mirrors(s, i) && Exactly(s, i);
    NonNegative(s);
    AheadLowered(s.orders, e.ref, e.q, None, f.Key(), f.prio);
    if f.px == e.o.px { LevelChangeInRange(s, i, e.ref, e.q); }
    ExecutionKeepsGood(f, e, AheadOf(s.orders, f.Key(), f.prio));
  }

  lemma AddKeepsStrict(s: State, ref: nat, o: Resting, ts: nat, i: nat)
    requires Sound(s) && AllStrict(s) && ref !in s.orders && o.qty > 0 && i < |AddOrder(s, ref, o, ts).followed|
    ensures StrictAt(AddOrder(s, ref, o, ts), i)
  {
    hide KindOf, QtyAt, LevelsExact, Safe, Good;
    var t := AddOrder(s, ref, o, ts);
    var f := t.followed[i];
    assert Timely(s);
    AheadAdded(s.orders, ref, t.orders[ref], f.Key(), f.prio);
    if i < |s.followed| {
      assert f == s.followed[i] && StrictAt(s, i);
    } else {
      assert Earlier(s.orders, f.prio) == Plain(s.orders);
      ShownIs(s, o.Key());
    }
  }

  /** In priority, and without hidden prints. */
  ghost predicate Orderly(s: State, hidden: bool, m: Message) { InPriority(s, m) && !(hidden && m.Trade?) }

  lemma StepKeepsStrict(s: State, hidden: bool, m: Message)
    requires Sound(s) && AllStrict(s) && Accepts(Plain(s.orders), m) && Orderly(s, hidden, m)
    ensures AllStrict(Step(s, hidden, m))
  {
    hide Execute, Cancel, AddOrder, HiddenTrade, StrictAt, Sound, First;
    match m
    case Add(loc, ts, ref, side, qty, px) => AddAllStrict(s, ref, Resting(loc, side, px, qty), ts);
    case Executed(_, ts, ref, qty) => ExecuteAllStrict(s, ref, qty, None, true, ts);
    case ExecutedAt(_, ts, ref, qty, printable, px) => ExecuteAllStrict(s, ref, qty, Some(px), printable, ts);
    case Reduced(_, _, ref, qty) => CancelAllStrict(s, ref, qty);
    case Deleted(_, _, ref) => CancelAllStrict(s, ref, 0);
    case Replaced(loc, ts, ref, newRef, qty, px) =>
      if ref in s.orders {
        CancelAllStrict(s, ref, 0);
        CancelKeepsSound(s, ref, 0);
        CancelRemoves(s, ref, newRef);
        AddAllStrict(Cancel(s, ref, 0), newRef, Resting(loc, s.orders[ref].side, px, qty), ts);
      }
    case Trade(loc, ts, qty, px) =>
    case Other(_, _) =>
  }

  lemma CancelRemoves(s: State, ref: nat, other: nat)
    requires Sound(s) && ref in s.orders && other !in Plain(s.orders) - {ref}
    ensures other !in Cancel(s, ref, 0).orders
  {
    CancelShape(s, ref, 0);
    Positive(s, ref);
  }

  lemma AddAllStrict(s: State, ref: nat, o: Resting, ts: nat)
    requires Sound(s) && AllStrict(s) && ref !in s.orders && o.qty > 0
    ensures AllStrict(AddOrder(s, ref, o, ts))
  {
    hide AddOrder, StrictAt, Sound;
    forall i | 0 <= i < |AddOrder(s, ref, o, ts).followed| ensures StrictAt(AddOrder(s, ref, o, ts), i) {
      AddKeepsStrict(s, ref, o, ts, i);
    }
  }

  lemma CancelAllStrict(s: State, ref: nat, shares: int)
    requires Sound(s) && AllStrict(s)
    ensures AllStrict(Cancel(s, ref, shares))
  {
    hide Cancel, StrictAt, Sound;
    if ref in s.orders {
      SoundIsSafe(s);
      CancelShape(s, ref, shares);
      forall i | 0 <= i < |Cancel(s, ref, shares).followed| ensures StrictAt(Cancel(s, ref, shares), i) {
        CancelKeepsStrict(s, ref, shares, i);
      }
    } else {
      CancelMissing(s, ref, shares);
    }
  }

  lemma ExecuteAllStrict(s: State, ref: nat, shares: int, execPx: Option<int>, printable: bool, ts: nat)
    requires Sound(s) && AllStrict(s) && (ref in s.orders ==> shares > 0 && First(s.orders, ref))
    requires ref in s.orders && execPx.Some? ==> execPx.value == s.orders[ref].px
    ensures AllStrict(Execute(s, ref, shares, execPx, printable, ts))
  {
    hide Execute, StrictAt, Sound, First;
    if ref in s.orders {
      var t := Execute(s, ref, shares, execPx, printable, ts);
      SoundIsSafe(s);
      ExecuteShape(s, ref, shares, execPx, printable, ts);
      forall i | 0 <= i < |t.followed| ensures StrictAt(t, i) {
        ExecuteKeepsStrict(s, ref, shares, execPx, printable, ts, i);
      }
    } else {
      ExecuteMissing(s, ref, shares, execPx, printable, ts);
    }
  }

  // ---- Whole runs in priority ---------------------------------------------------------------------------

  /** Every execution of the stream is of the first order in its queue, at that order's price. */
  ghost predicate PriorityStream(hidden: bool, ms: seq<Message>) {
    forall n :: 0 <= n < |ms| ==> InPriority(After(hidden, ms, n), ms[n])
  }

  ghost predicate NoHiddenPrints(hidden: bool, ms: seq<Message>) {
    hidden ==> forall n :: 0 <= n < |ms| ==> !ms[n].Trade?
  }

  /** In price-time priority the L3 rule's fills are the true fills, order by order, at every moment. */
  lemma PriorityIsTrue(hidden: bool, ms: seq<Message>)
    requires Reference.ValidStream(ms) && PriorityStream(hidden, ms)
    ensures forall n :: 0 <= n <= |ms| ==> AllTrue(After(hidden, ms, n))
  {
    hide Sound, Step, JumpedBy, AllTrue, InPriority, After;
    forall n | 0 <= n < |ms| ensures !JumpedBy(After(hidden, ms, n), ms[n]) {
      AfterNext(hidden, ms, n);
      PriorityJumpsNobody(After(hidden, ms, n), ms[n]);
    }
    L3IsTrueIff(hidden, ms);
  }

  lemma {:induction false} StrictUpTo(hidden: bool, ms: seq<Message>, n: nat)
    requires Reference.ValidStream(ms) && PriorityStream(hidden, ms) && NoHiddenPrints(hidden, ms) && n <= |ms|
    ensures AllStrict(After(hidden, ms, n))
  {
    hide Sound, Step, InPriority, StrictAt;
    if n > 0 {
      StrictUpTo(hidden, ms, n - 1);
      AfterNext(hidden, ms, n - 1);
      StepKeepsStrict(After(hidden, ms, n - 1), hidden, ms[n - 1]);
    }
  }

  /**
    In price-time priority and without hidden prints, at every moment: the strict L2 model's queue is never
    shorter than the L3 queue, and it has never filled more than was true.
   */
  lemma StrictIsSafe(hidden: bool, ms: seq<Message>, n: nat, i: nat)
    requires Reference.ValidStream(ms) && PriorityStream(hidden, ms) && NoHiddenPrints(hidden, ms)
    requires n <= |ms| && i < |After(hidden, ms, n).followed|
    ensures var f := After(hidden, ms, n).followed[i];
            f.filled[STRICT] <= f.filledTrue * SCALE && (f.alive ==> f.ahead[L3] <= f.ahead[STRICT])
  {
    hide Step, Replay, AheadOf;
    StrictUpTo(hidden, ms, n);
    Reference.ValidPrefix(ms, n);
    ReplayIsSound(hidden, ms[..n]);
    var s := After(hidden, ms, n);
    assert StrictAt(s, i) && Exactly(s, i);
    if s.followed[i].alive { AheadAndOwn(s, i); }
    StrictNonNegative(s.followed[i]);
  }

  lemma {:induction false} TrueTotals(fs: seq<Followed>, k: Kind)
    requires forall i :: 0 <= i < |fs| ==> IsTrue(fs[i]) && fs[i].filledTrue >= 0
    ensures Total(fs, k, ModelOnly(L3)) == 0
    ensures Total(fs, k, QtyModel(L3)) == Total(fs, k, QtyTrue) * SCALE
  {
    if fs != [] {
      TrueTotals(fs[..|fs| - 1], k);
      assert IsTrue(fs[|fs| - 1]);
    }
  }

  lemma {:induction false} StrictTotals(fs: seq<Followed>, k: Kind)
    requires forall i :: 0 <= i < |fs| ==> fs[i].filled[STRICT] <= fs[i].filledTrue * SCALE && fs[i].filledTrue >= 0
    ensures Total(fs, k, ModelOnly(STRICT)) == 0
    ensures Total(fs, k, QtyModel(STRICT)) <= Total(fs, k, QtyTrue) * SCALE
  {
    if fs != [] {
      StrictTotals(fs[..|fs| - 1], k);
      var f := fs[|fs| - 1];
      assert f.filled[STRICT] <= f.filledTrue * SCALE && f.filledTrue >= 0;
    }
  }

  /** What the final scoreboard takes over from the last moment of the stream. */
  lemma ScoreTakesOver(hidden: bool, ms: seq<Message>, i: nat)
    requires Reference.ValidStream(ms) && i < |Score(hidden, ms).followed|
    ensures |After(hidden, ms, |ms|).followed| == |Score(hidden, ms).followed|
    ensures Score(hidden, ms).followed[i] == After(hidden, ms, |ms|).followed[i].(alive := false)
    ensures Score(hidden, ms).followed[i].filledTrue >= 0
  {
    hide Replay, Sound, Counted, FinishAlive, Ordered;
    assert ms[..|ms|] == ms;
    var s := Replay(START, hidden, ms);
    ReplayIsSound(hidden, ms);
    SoundParts(s);
    FinishAliveIs(s, |s.followed|);
    SoundAt(s, i);
  }

  lemma SoundParts(s: State)
    requires Sound(s)
    ensures Indexed(s.alive, s.followed)
  {
  }

  /**
    The scoreboard of a stream in price-time priority: the L3 rule claims no fill that was not true and its
    quantity is the true one. Without hidden prints the strict L2 model claims none either.
   */
  lemma ScoreInPriority(hidden: bool, ms: seq<Message>, k: Kind)
    requires Reference.ValidStream(ms) && PriorityStream(hidden, ms)
    ensures var t := Score(hidden, ms).tally[k]; t.modelOnly[L3] == 0 && t.qtyModel[L3] == t.qtyTrue * SCALE
    ensures NoHiddenPrints(hidden, ms) ==>
              var t := Score(hidden, ms).tally[k]; t.modelOnly[STRICT] == 0 && t.qtyModel[STRICT] <= t.qtyTrue * SCALE
  {
    hide Score, After, Counted, Good, PriorityStream;
    var s := Score(hidden, ms);
    ScoreIs(hidden, ms);
    PriorityIsTrue(hidden, ms);
    assert AllTrue(After(hidden, ms, |ms|));
    forall i | 0 <= i < |s.followed| ensures IsTrue(s.followed[i]) && s.followed[i].filledTrue >= 0 {
      ScoreTakesOver(hidden, ms, i);
    }
    TrueTotals(s.followed, k);
    CellsRead(s, k, ModelOnly(L3), QtyModel(L3));
    CellsRead(s, k, ModelOnly(STRICT), QtyModel(STRICT));
    CellsRead(s, k, QtyTrue, QtyTrue);
    if NoHiddenPrints(hidden, ms) {
      forall i | 0 <= i < |s.followed|
        ensures s.followed[i].filled[STRICT] <= s.followed[i].filledTrue * SCALE && s.followed[i].filledTrue >= 0
      {
        ScoreTakesOver(hidden, ms, i);
        StrictIsSafe(hidden, ms, |ms|, i);
      }
      StrictTotals(s.followed, k);
    }
  }

  // ---- Calm streams: prints alone, in priority -----------------------------------------------------------

  /** Every L2 model has filled what was true and has exactly `ahead` shares in front. */
  ghost predicate Plainly(f: Followed, ahead: int) {
    forall m :: 0 <= m < L2_MODELS ==>
      f.filled[m] == f.filledTrue * SCALE && (f.alive ==> f.ahead[m] == ahead * SCALE)
  }

  lemma PlainPrinted(f: Followed, px: int, q: int, aggressor: Side, ts: nat, ahead: int, after: int, m: nat)
    requires Good(f) && f.alive && Plainly(f, ahead) && 0 < q && 0 <= ahead && m < L2_MODELS
    requires aggressor == f.side.Opposite() && !Better(aggressor, px, f.px)
    requires if px == f.px then q <= ahead && after == ahead - q else after == ahead
    ensures var g := PrintModels(f, L2_MODELS, px, q * SCALE, aggressor, ts).0;
            SameOrder(f, g) && g.filled[m] == f.filledTrue * SCALE && g.ahead[m] == after * SCALE
  {
    PrintModelsAt(f, L2_MODELS, px, q * SCALE, aggressor, ts, m);
    hide PrintModels;
    var g, leaves := PrintModels(f, L2_MODELS, px, q * SCALE, aggressor, ts).0, f.qty0 * SCALE - f.filled[m];
    assert Place(g.ahead[m], g.filled[m])
        == Printed(Place(f.ahead[m], f.filled[m]), f.side, f.px, f.qty0 * SCALE, px, q * SCALE, aggressor);
    assert leaves == f.left * SCALE > 0;
    if px == f.px {
      PrintConserves(f.ahead[m], f.side, f.px, leaves, q * SCALE);
    } else {
      PrintElsewhere(f.ahead[m], f.side, f.px, leaves, px, q * SCALE, aggressor);
    }
  }

  lemma PlainSeen(f: Followed, e: Execution, ahead: int, after: int)
    requires Good(f) && f.alive && Plainly(f, ahead) && 0 < e.q && f.ref != e.ref && e.printable && 0 <= ahead
    requires e.px == e.o.px && f.side == e.o.side && !Better(e.o.side, f.px, e.o.px)
    requires if f.px == e.o.px then e.q <= ahead && after == ahead - e.q else after == ahead
    ensures Plainly(ExecutionSeen(f, e).0, after)
  {
    hide PrintModels, Good;
    var g := ExecutionSeen(f, e).0;
    forall m | 0 <= m < L2_MODELS
      ensures g.filled[m] == g.filledTrue * SCALE && (g.alive ==> g.ahead[m] == after * SCALE)
    {
      PlainPrinted(f, e.px, e.q, e.o.side.Opposite(), e.ts, ahead, after, m);
    }
  }

  /** Its own printed execution fills every model with exactly the shares executed. */
  lemma PlainOwn(f: Followed, e: Execution)
    requires Good(f) && f.alive && Plainly(f, 0) && 0 < e.q <= f.left && e.printable
    requires e.px == f.px && f.side == e.o.side
    ensures Plainly(OwnExecution(f, e).0, 0)
  {
    var g, r := f.(filledTrue := f.filledTrue + e.q), OwnExecution(f, e).0;
    OrderedIgnores(f, g);
    forall m | 0 <= m < L2_MODELS
      ensures r.filled[m] == r.filledTrue * SCALE && (r.alive ==> r.ahead[m] == 0 * SCALE)
    {
      PrintModelsAt(g, L2_MODELS, e.px, e.q * SCALE, e.o.side.Opposite(), e.ts, m);
      PlainOwnAt(f, e, m);
    }
  }

  lemma PlainOwnAt(f: Followed, e: Execution, m: nat)
    requires Good(f) && f.alive && Plainly(f, 0) && 0 < e.q <= f.left && m < L2_MODELS
    requires e.px == f.px && f.side == e.o.side
    ensures var p := Printed(PlaceOf(f, m), f.side, f.px, f.qty0 * SCALE, e.px, e.q * SCALE, e.o.side.Opposite());
            p == Place(0, (f.filledTrue + e.q) * SCALE)
  {
    assert f.qty0 * SCALE - f.filled[m] == f.left * SCALE;
    PrintConserves(0, f.side, f.px, f.left * SCALE, e.q * SCALE);
  }

  ghost predicate PlainAt(s: State, i: nat)
    requires i < |s.followed|
  {
    Plainly(s.followed[i], AheadOf(s.orders, s.followed[i].Key(), s.followed[i].prio))
  }

  ghost predicate AllPlain(s: State) { forall i :: 0 <= i < |s.followed| ==> PlainAt(s, i) }

  lemma PlainEnds(f: Followed, ahead: int, other: int)
    requires Plainly(f, ahead)
    ensures Plainly(f.(alive := false), other) && (!f.alive ==> Plainly(f, other))
  {
  }

  lemma ExecuteKeepsPlain(s: State, ref: nat, shares: int, execPx: Option<int>, ts: nat, i: nat)
    requires Sound(s) && ref in s.orders && shares > 0 && i < |s.followed| && PlainAt(s, i)
    requires First(s.orders, ref) && (execPx.Some? ==> execPx.value == s.orders[ref].px)
    ensures var t := Execute(s, ref, shares, execPx, true, ts); i < |t.followed| && PlainAt(t, i)
  {
    hide Execute, ExecutionSeen, OwnExecution, Plainly, Sound, First, ExecutionReaches, Lowered;
    var e, f, t := ExecutionOf(s, ref, shares, execPx, true, ts), s.followed[i], Execute(s, ref, shares, execPx, true,
        ts);
    SoundIsSafe(s);
    ExecuteShape(s, ref, shares, execPx, true, ts);
    SoundAt(s, i);
    assert t.followed[i] == AfterExecute(s, e, i);
    var ahead, after := AheadOf(s.orders, f.Key(), f.prio), AheadOf(t.orders, f.Key(), f.prio);
    OthersGo(s, t, ref, e.q, e.o.followed, i);
    if e.o.followed == Some(i) {
      FirstHasNoneAhead(s, ref);
      PlainOwn(f, e);
      OwnKeepsIdentity(f, e);
      PlainEnds(OwnExecution(f, e).0, 0, after);
    } else if LivesAt(s.followed, e.o.Book(), i) {
      BehindFirst(s, ref, i);
      SeenKeepsIdentity(f, e);
      AheadAndOwn(s, i);
      PlainSeen(f, e, ahead, after);
    } else if !f.alive {
      PlainEnds(f, ahead, after);
    }
  }

  lemma AddKeepsPlain(s: State, ref: nat, o: Resting, ts: nat, i: nat)
    requires Sound(s) && AllPlain(s) && ref !in s.orders && o.qty > 0 && i < |AddOrder(s, ref, o, ts).followed|
    ensures PlainAt(AddOrder(s, ref, o, ts), i)
  {
    hide KindOf, QtyAt, LevelsExact, Safe, Good;
    var t := AddOrder(s, ref, o, ts);
    var f := t.followed[i];
    assert Timely(s);
    AheadAdded(s.orders, ref, t.orders[ref], f.Key(), f.prio);
    if i < |s.followed| {
      assert f == s.followed[i] && PlainAt(s, i);
    } else {
      assert Earlier(s.orders, f.prio) == Plain(s.orders);
      ShownIs(s, o.Key());
    }
  }

  /** Executions in priority, all of them printed at the order's price; no cancels, no hidden prints. */
  ghost predicate Calm(s: State, hidden: bool, m: Message) {
    match m
    case Executed(_, _, ref, _) => ref in s.orders ==> First(s.orders, ref)
    case ExecutedAt(_, _, ref, _, printable, px) =>
      ref in s.orders ==> First(s.orders, ref) && px == s.orders[ref].px && printable
    case Reduced(_, _, ref, _) => ref !in s.orders
    case Deleted(_, _, ref) => ref !in s.orders
    case Replaced(_, _, ref, _, _, _) => ref !in s.orders
    case Trade(_, _, _, _) => !hidden
    case _ => true
  }

  lemma ExecuteAllPlain(s: State, ref: nat, shares: int, execPx: Option<int>, ts: nat)
    requires Sound(s) && AllPlain(s) && (ref in s.orders ==> shares > 0 && First(s.orders, ref))
    requires ref in s.orders && execPx.Some? ==> execPx.value == s.orders[ref].px
    ensures AllPlain(Execute(s, ref, shares, execPx, true, ts))
  {
    hide Execute, PlainAt, Sound, First;
    if ref in s.orders {
      var t := Execute(s, ref, shares, execPx, true, ts);
      SoundIsSafe(s);
      ExecuteShape(s, ref, shares, execPx, true, ts);
      forall i | 0 <= i < |t.followed| ensures PlainAt(t, i) {
        ExecuteKeepsPlain(s, ref, shares, execPx, ts, i);
      }
    } else {
      ExecuteMissing(s, ref, shares, execPx, true, ts);
    }
  }

  lemma StepKeepsPlain(s: State, hidden: bool, m: Message)
    requires Sound(s) && AllPlain(s) && Accepts(Plain(s.orders), m) && Calm(s, hidden, m)
    ensures AllPlain(Step(s, hidden, m))
  {
    hide Execute, Cancel, AddOrder, HiddenTrade, PlainAt, Sound, First;
    match m
    case Add(loc, ts, ref, side, qty, px) =>
      var o := Resting(loc, side, px, qty);
      forall i | 0 <= i < |AddOrder(s, ref, o, ts).followed| ensures PlainAt(AddOrder(s, ref, o, ts), i) {
        AddKeepsPlain(s, ref, o, ts, i);
      }
    case Executed(_, ts, ref, qty) => ExecuteAllPlain(s, ref, qty, None, ts);
    case ExecutedAt(_, ts, ref, qty, printable, px) =>
      if ref in s.orders { ExecuteAllPlain(s, ref, qty, Some(px), ts); }
      else { ExecuteMissing(s, ref, qty, Some(px), printable, ts); }
    case Reduced(_, _, ref, qty) => CancelMissing(s, ref, qty);
    case Deleted(_, _, ref) => CancelMissing(s, ref, 0);
    case Replaced(_, _, _, _, _, _) =>
    case Trade(_, _, _, _) =>
    case Other(_, _) =>
  }

  ghost predicate CalmStream(hidden: bool, ms: seq<Message>) {
    forall n :: 0 <= n < |ms| ==> Calm(After(hidden, ms, n), hidden, ms[n])
  }

  lemma {:induction false} PlainUpTo(hidden: bool, ms: seq<Message>, n: nat)
    requires Reference.ValidStream(ms) && CalmStream(hidden, ms) && n <= |ms|
    ensures AllPlain(After(hidden, ms, n))
  {
    hide Sound, Step, Calm, PlainAt;
    if n > 0 {
      PlainUpTo(hidden, ms, n - 1);
      AfterNext(hidden, ms, n - 1);
      StepKeepsPlain(After(hidden, ms, n - 1), hidden, ms[n - 1]);
    }
  }

  /** On a calm stream every L2 model is exact at every moment: true fills, and a queue of what rests in front. */
  lemma CalmIsExact(hidden: bool, ms: seq<Message>, n: nat, i: nat, m: nat)
    requires Reference.ValidStream(ms) && CalmStream(hidden, ms)
    requires n <= |ms| && i < |After(hidden, ms, n).followed| && m < L2_MODELS
    ensures var s := After(hidden, ms, n);
            var f := s.followed[i];
            && f.filled[m] == f.filledTrue * SCALE
            && (f.alive ==> f.ahead[m] == AheadOf(s.orders, f.Key(), f.prio) * SCALE)
  {
    hide AheadOf, After;
    PlainUpTo(hidden, ms, n);
    assert PlainAt(After(hidden, ms, n), i);
  }

  lemma {:induction false} PlainTotals(fs: seq<Followed>, k: Kind, m: Model)
    requires forall i :: 0 <= i < |fs| ==> fs[i].filled[m] == fs[i].filledTrue * SCALE && fs[i].filledTrue >= 0
    ensures Total(fs, k, ModelOnly(m)) == 0 && Total(fs, k, TruthOnly(m)) == 0
    ensures Total(fs, k, QtyModel(m)) == Total(fs, k, QtyTrue) * SCALE
  {
    if fs != [] {
      PlainTotals(fs[..|fs| - 1], k, m);
      var f := fs[|fs| - 1];
      assert f.filled[m] == f.filledTrue * SCALE && f.filledTrue >= 0;
    }
  }

  /** Its scoreboard: no L2 model misses a fill or claims a false one, and each has the true quantity. */
  lemma ScoreOfCalm(hidden: bool, ms: seq<Message>, k: Kind, m: Model)
    requires Reference.ValidStream(ms) && CalmStream(hidden, ms) && m < L2_MODELS
    ensures var t := Score(hidden, ms).tally[k];
            t.modelOnly[m] == 0 && t.truthOnly[m] == 0 && t.qtyModel[m] == t.qtyTrue * SCALE
  {
    hide Score, After, Counted, Good, CalmStream;
    var s := Score(hidden, ms);
    ScoreIs(hidden, ms);
    forall i | 0 <= i < |s.followed|
      ensures s.followed[i].filled[m] == s.followed[i].filledTrue * SCALE && s.followed[i].filledTrue >= 0
    {
      ScoreTakesOver(hidden, ms, i);
      CalmIsExact(hidden, ms, |ms|, i, m);
    }
    PlainTotals(s.followed, k, m);
    CellsRead(s, k, ModelOnly(m), TruthOnly(m));
    CellsRead(s, k, QtyModel(m), QtyTrue);
  }

  /** The five L2 models: a shrinking level is judged at 0, 2500, 5000, 7500 and 10000 bps in turn. */
  lemma ModelsAre(f: Followed, was: int, now: int, m: nat)
    requires m < L2_MODELS
    ensures Shrunk(f, was, now).ahead[m] == AfterLevelChange(f.ahead[m], was * SCALE, now * SCALE, 2_500 * m)
  {
    assert CONSERVATISM[m] == 2_500 * m;
  }
}
