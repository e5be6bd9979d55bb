/**
  The proportional L2 model (0 bps) against the level it watches: its queue never exceeds what others show
  at the price. And what a hidden print does to every follower.
 */
module QueueLevels {
  import opened Itch
  import opened QueueRules
  import opened QueueTruth
  import opened Wrappers
  import opened QueueFollower
  import opened QueueSafety
  import opened QueueSound
  import opened QueuePriority
  import opened QueueTallies
  import opened QueueRuns
  import opened Arith
  import Reference = ReferenceBook

  /** A proportional queue inside a level is inside what is left of the level. */
  lemma ProportionalWithin(a: int, was: int, now: int)
    requires 0 <= a <= was && 0 <= now <= was
    ensures AfterLevelChange(a, was, now, 0) <= now
  {
    if 0 < now < was {
      ProportionalShare(a, was, now);
      var b := AfterLevelChange(a, was, now, 0);
      MulMonotone(a, was, now);
      if b > now {
        MulMonotone(now, b - 1, was);
        assert false;
      }
    }
  }

  /** What others show at the follower's price. */
  function Others(levels: Levels, f: Followed): int { Displayed(levels, f.Key()) - f.left }

  /** The proportional model's queue lies within `others` shares. */
  predicate Within(f: Followed, others: int) { f.alive ==> f.ahead[0] <= others * SCALE }

  ghost predicate WithinAt(s: State, i: nat)
    requires i < |s.followed|
  {
    Within(s.followed[i], Others(s.levels, s.followed[i]))
  }

  ghost predicate AllWithin(s: State) { forall i :: 0 <= i < |s.followed| ==> WithinAt(s, i) }

  lemma FirstIsProper(f: Followed)
    requires Good(f)
    ensures 0 <= f.ahead[0] && (f.filled[0] > 0 ==> f.ahead[0] == 0) && 0 <= f.filled[0] <= f.qty0 * SCALE
  {
    assert Proper(PlaceOf(f, 0), f.qty0 * SCALE);
  }

  lemma ShrunkWithin(f: Followed, was: int, now: int)
    requires Good(f) && Within(f, was) && 0 <= now <= was && f.alive
    ensures Within(Shrunk(f, was, now), now)
  {
    FirstIsProper(f);
    ProportionalWithin(f.ahead[0], was * SCALE, now * SCALE);
  }

  /** Shares leave one level, and no other level shows less. */
  lemma LevelGoes(levels: Levels, k: LevelKey, q: int, other: LevelKey)
    requires 0 <= q <= Displayed(levels, k)
    ensures Displayed(Shifted(levels, k, -q), other) == Displayed(levels, other) - if k == other then q else 0
  {
  }

  lemma LevelCovers(s: State, ref: nat)
    requires Sound(s) && ref in s.orders
    ensures 0 < s.orders[ref].qty <= Displayed(s.levels, s.orders[ref].Key())
  {
    Positive(s, ref);
    NonNegative(s);
    ShownIs(s, s.orders[ref].Key());
    QtyAtCovers(Plain(s.orders), ref);
  }

  lemma CancelWithin(f: Followed, ref: nat, o: Order, q: int, before: int)
    requires Good(f) && f.alive && f.ref != ref && f.px == o.px
    requires Within(f, before - f.left) && 0 < q && 0 <= before - q - f.left
    ensures var g := CancelSeen(f, ref, o, q, before); Within(g, before - q - f.left) && g.left == f.left
  {
    ShrunkWithin(f, before - f.left, before - q - f.left);
  }

  lemma CancelKeepsWithin(s: State, ref: nat, shares: int, i: nat)
    requires Sound(s) && ref in s.orders && i < |s.followed| && WithinAt(s, i)
    ensures var t := Cancel(s, ref, shares); i < |t.followed| && WithinAt(t, i)
  {
    hide Cancel, Shrunk, Sound, Good, Shifted;
    var o, f, t := s.orders[ref], s.followed[i], Cancel(s, ref, shares);
    var q, before := Reference.Clip(shares, o.qty), Displayed(s.levels, o.Key());
    CancelShape(s, ref, shares) by { SoundIsSafe(s); }
    SoundAt(s, i);
    LevelCovers(s, ref);
    LevelGoes(s.levels, o.Key(), q, f.Key());
    assert t.followed[i] == AfterCancel(s, ref, q, i);
    if f.alive && o.followed != Some(i) && f.Book() == o.Book() && f.px == o.px {
      LevelChangeInRange(s, i, ref, q);
      CancelWithin(f, ref, o, q, before);
      CancelKeepsIdentity(f, ref, o, q, before);
    }
  }

  /** A print never lengthens a queue, and shortens one at its price by as much as it can. */
  lemma PrintWithin(f: Followed, px: int, q: int, aggressor: Side, ts: nat)
    requires Good(f) && 0 < q
    ensures var g := PrintModels(f, L2_MODELS, px, q * SCALE, aggressor, ts).0;
            && SameOrder(f, g) && 0 <= g.ahead[0] <= f.ahead[0]
            && (aggressor == f.side.Opposite() && !Better(f.side, px, f.px) ==>
                  g.ahead[0] <= Less(f.ahead[0], q * SCALE))
  {
    PrintModelsAt(f, L2_MODELS, px, q * SCALE, aggressor, ts, 0);
    hide PrintModels;
    FirstIsProper(f);
    var g := PrintModels(f, L2_MODELS, px, q * SCALE, aggressor, ts).0;
    assert Place(g.ahead[0], g.filled[0])
        == Printed(PlaceOf(f, 0), f.side, f.px, f.qty0 * SCALE, px, q * SCALE, aggressor);
  }

  lemma SeenWithin(f: Followed, e: Execution)
    requires Good(f) && f.alive && f.ref != e.ref && 0 < e.q && f.side == e.o.side
    ensures var g := ExecutionSeen(f, e).0; f.px != e.o.px ==> g.ahead[0] <= f.ahead[0] && g.left == f.left
    ensures var g := ExecutionSeen(f, e).0;
            && (f.px == e.o.px && Within(f, e.before - f.left) && 0 <= e.before - e.q - f.left
                && (e.printable ==> !Better(e.o.side, e.px, e.o.px)) ==>
                  Within(g, e.before - e.q - f.left) && g.left == f.left)
  {
    hide PrintModels, Shrunk, Good;
    var h := ExecutionShown(f, e).0;
    if e.printable {
      PrintWithin(f, e.px, e.q, e.o.side.Opposite(), e.ts);
    } else if f.px == e.o.px {
      if Within(f, e.before - f.left) && 0 <= e.before - e.q - f.left {
        ShrunkWithin(f, e.before - f.left, e.before - e.q - f.left);
      }
      ShrunkLeft(f, e.before - f.left, e.before - e.q - f.left);
    }
    ReachedKeepsFirst(h, e);
  }

  lemma ShrunkLeft(f: Followed, was: int, now: int)
    ensures var g := Shrunk(f, was, now); g == f.(ahead := g.ahead)
  {
  }

  lemma ReachedKeepsFirst(f: Followed, e: Execution)
    ensures var g := QueueReached(f, e).0; g.ahead[0] == f.ahead[0] && g.left == f.left && g.alive == f.alive
  {
  }

  lemma OwnWithin(f: Followed, e: Execution)
    requires Good(f) && 0 < e.q
    ensures var g := OwnExecution(f, e).0; g.ahead[0] <= f.ahead[0] && g.left == f.left - e.q && g.alive == f.alive
  {
    hide PrintModels, Ordered;
    var g := f.(filledTrue := f.filledTrue + e.q);
    OrderedIgnores(f, g);
    FirstIsProper(f);
    OwnPrint(g, e);
  }

  lemma OwnPrint(g: Followed, e: Execution)
    requires Ordered(g) && 0 < e.q
    ensures var h := PrintModels(g, L2_MODELS, e.px, e.q * SCALE, e.o.side.Opposite(), e.ts).0;
            SameOrder(g, h) && h.ahead[0] <= g.ahead[0]
  {
    PrintModelsAt(g, L2_MODELS, e.px, e.q * SCALE, e.o.side.Opposite(), e.ts, 0);
    hide PrintModels;
    assert Proper(PlaceOf(g, 0), g.qty0 * SCALE);
    var h := PrintModels(g, L2_MODELS, e.px, e.q * SCALE, e.o.side.Opposite(), e.ts).0;
    assert PlaceOf(h, 0)
        == Printed(PlaceOf(g, 0), g.side, g.px, g.qty0 * SCALE, e.px, e.q * SCALE, e.o.side.Opposite());
  }

  lemma ExecuteKeepsWithin(s: State, ref: nat, shares: int, execPx: Option<int>, printable: bool, ts: nat, i: nat)
    requires Sound(s) && ref in s.orders && shares > 0 && i < |s.followed| && WithinAt(s, i)
    requires printable && execPx.Some? ==> !Better(s.orders[ref].side, execPx.value, s.orders[ref].px)
    ensures var t := Execute(s, ref, shares, execPx, printable, ts); i < |t.followed| && WithinAt(t, i)
  {
    hide Execute, ExecutionSeen, OwnExecution, Sound, Good, Shifted, Lowered;
    var e, f, t := ExecutionOf(s, ref, shares, execPx, printable, ts), s.followed[i],
                   Execute(s, ref, shares, execPx, printable, ts);
    SoundIsSafe(s);
    ExecuteShape(s, ref, shares, execPx, printable, ts);
    SoundAt(s, i);
    LevelCovers(s, ref);
    LevelGoes(s.levels, e.o.Key(), e.q, f.Key());
    assert t.followed[i] == AfterExecute(s, e, i);
    if e.o.followed == Some(i) {
      OwnWithin(f, e);
      OwnKeepsIdentity(f, e);
    } else if LivesAt(s.followed, e.o.Book(), i) {
      SeenKeepsIdentity(f, e);
      if f.px == e.o.px { LevelChangeInRange(s, i, ref, e.q); }
      SeenWithin(f, e);
    }
  }

  lemma AddKeepsWithin(s: State, ref: nat, o: Resting, ts: nat, i: nat)
    requires Sound(s) && AllWithin(s) && o.qty > 0 && i < |AddOrder(s, ref, o, ts).followed|
    ensures WithinAt(AddOrder(s, ref, o, ts), i)
  {
    hide KindOf, Sound;
    ShownIs(s, o.Key()) by { SoundLevels(s); }
    var t := AddOrder(s, ref, o, ts);
    if i < |s.followed| {
      assert t.followed[i] == s.followed[i] && WithinAt(s, i);
    }
  }

  lemma SoundLevels(s: State)
    requires Sound(s)
    ensures LevelsExact(Plain(s.orders), s.levels)
  {
  }

  lemma HiddenKeepsWithin(s: State, loc: nat, px: int, qty: nat, ts: nat, i: nat)
    requires Sound(s) && i < |s.followed| && WithinAt(s, i)
    ensures var t := HiddenTrade(s, loc, px, qty, ts); i < |t.followed| && WithinAt(t, i)
  {
    hide PrintAll, PrintModels, Sound, Good;
    SoundIsSafe(s);
    SoundAt(s, i);
    HiddenShape(s, loc, px, qty, ts, i);
    HiddenWithin(s.followed[i], px, qty, ts);
  }

  lemma HiddenWithin(f: Followed, px: int, qty: nat, ts: nat)
    requires Good(f)
    ensures var g := PrintModels(f, L2_MODELS, px, qty * SCALE, Buy, ts).0; SameOrder(f, g) && g.ahead[0] <= f.ahead[0]
  {
    PrintModelsAt(f, L2_MODELS, px, qty * SCALE, Buy, ts, 0);
    hide PrintModels;
    FirstIsProper(f);
    var g := PrintModels(f, L2_MODELS, px, qty * SCALE, Buy, ts).0;
    assert PlaceOf(g, 0) == Printed(PlaceOf(f, 0), f.side, f.px, f.qty0 * SCALE, px, qty * SCALE, Buy);
  }

  // ---- Every message, and whole runs ----------------------------------------------------------------------

  /** No execution is printed at a better price than its order's own. */
  predicate Fair(s: State, m: Message) {
    m.ExecutedAt? && m.printable && m.ref in s.orders ==> !Better(s.orders[m.ref].side, m.px, s.orders[m.ref].px)
  }

  lemma CancelAllWithin(s: State, ref: nat, shares: int)
    requires Sound(s) && AllWithin(s)
    ensures AllWithin(Cancel(s, ref, shares))
  {
    hide Cancel, WithinAt, Sound;
    if ref in s.orders {
      SoundIsSafe(s);
      CancelShape(s, ref, shares);
      forall i | 0 <= i < |Cancel(s, ref, shares).followed| ensures WithinAt(Cancel(s, ref, shares), i) {
        CancelKeepsWithin(s, ref, shares, i);
      }
    } else {
      CancelMissing(s, ref, shares);
    }
  }

  lemma ExecuteAllWithin(s: State, ref: nat, shares: int, execPx: Option<int>, printable: bool, ts: nat)
    requires Sound(s) && AllWithin(s) && (ref in s.orders ==> shares > 0)
    requires ref in s.orders && printable && execPx.Some? ==>
               !Better(s.orders[ref].side, execPx.value, s.orders[ref].px)
    ensures AllWithin(Execute(s, ref, shares, execPx, printable, ts))
  {
    hide Execute, WithinAt, Sound;
    if ref in s.orders {
      var t := Execute(s, ref, shares, execPx, printable, ts);
      SoundIsSafe(s);
      ExecuteShape(s, ref, shares, execPx, printable, ts);
      forall i | 0 <= i < |t.followed| ensures WithinAt(t, i) {
        ExecuteKeepsWithin(s, ref, shares, execPx, printable, ts, i);
      }
    } else {
      ExecuteMissing(s, ref, shares, execPx, printable, ts);
    }
  }

  lemma AddAllWithin(s: State, ref: nat, o: Resting, ts: nat)
    requires Sound(s) && AllWithin(s) && o.qty > 0
    ensures AllWithin(AddOrder(s, ref, o, ts))
  {
    hide AddOrder, WithinAt, Sound;
    forall i | 0 <= i < |AddOrder(s, ref, o, ts).followed| ensures WithinAt(AddOrder(s, ref, o, ts), i) {
      AddKeepsWithin(s, ref, o, ts, i);
    }
  }

  lemma HiddenAllWithin(s: State, loc: nat, px: int, qty: nat, ts: nat)
    requires Sound(s) && AllWithin(s)
    ensures AllWithin(HiddenTrade(s, loc, px, qty, ts))
  {
    hide PrintAll, WithinAt, Sound;
    var t := HiddenTrade(s, loc, px, qty, ts);
    forall i | 0 <= i < |t.followed| ensures WithinAt(t, i) {
      HiddenKeepsWithin(s, loc, px, qty, ts, i);
    }
  }

  /** Cancels, silent executions, prints and hidden prints all keep the proportional queue within its level. */
  lemma StepKeepsWithin(s: State, hidden: bool, m: Message)
    requires Sound(s) && AllWithin(s) && Accepts(Plain(s.orders), m) && Fair(s, m)
    ensures AllWithin(Step(s, hidden, m))
  {
    hide Execute, Cancel, AddOrder, HiddenTrade, WithinAt, Sound;
    match m
    case Add(loc, ts, ref, side, qty, px) => AddAllWithin(s, ref, Resting(loc, side, px, qty), ts);
    case Executed(_, ts, ref, qty) => ExecuteAllWithin(s, ref, qty, None, true, ts);
    case ExecutedAt(_, ts, ref, qty, printable, px) => ExecuteAllWithin(s, ref, qty, Some(px), printable, ts);
    case Reduced(_, _, ref, qty) => CancelAllWithin(s, ref, qty);
    case Deleted(_, _, ref) => CancelAllWithin(s, ref, 0);
    case Replaced(loc, ts, ref, newRef, qty, px) =>
      if ref in s.orders {
        CancelAllWithin(s, ref, 0);
        CancelKeepsSound(s, ref, 0);
        AddAllWithin(Cancel(s, ref, 0), newRef, Resting(loc, s.orders[ref].side, px, qty), ts);
      }
    case Trade(loc, ts, qty, px) => HiddenAllWithin(s, loc, px, qty, ts);
    case Other(_, _) =>
  }

  ghost predicate FairStream(hidden: bool, ms: seq<Message>) {
    forall n :: 0 <= n < |ms| ==> Fair(After(hidden, ms, n), ms[n])
  }

  lemma {:induction false} WithinUpTo(hidden: bool, ms: seq<Message>, n: nat)
    requires Reference.ValidStream(ms) && FairStream(hidden, ms) && n <= |ms|
    ensures AllWithin(After(hidden, ms, n))
  {
    hide Sound, Step, Fair, WithinAt;
    if n > 0 {
      WithinUpTo(hidden, ms, n - 1);
      AfterNext(hidden, ms, n - 1);
      StepKeepsWithin(After(hidden, ms, n - 1), hidden, ms[n - 1]);
    }
  }

  /**
    At every moment of a valid stream the proportional model has no more in front of a living order than
    others show at its price: when the order is alone there, its queue is empty.
   */
  lemma ProportionalInRun(hidden: bool, ms: seq<Message>, n: nat, i: nat)
    requires Reference.ValidStream(ms) && FairStream(hidden, ms)
    requires n <= |ms| && i < |After(hidden, ms, n).followed| && After(hidden, ms, n).followed[i].alive
    ensures var s := After(hidden, ms, n);
            var f := s.followed[i];
            && 0 <= f.ahead[0] <= (QtyAt(Plain(s.orders), f.Key()) - f.left) * SCALE
            && (QtyAt(Plain(s.orders), f.Key()) == f.left ==> f.ahead[0] == 0)
  {
    hide After, QtyAt, Good;
    var s := After(hidden, ms, n);
    WithinUpTo(hidden, ms, n);
    assert WithinAt(s, i);
    SoundAfter(hidden, ms, n);
    SoundAt(s, i);
    FirstIsProper(s.followed[i]);
    SoundLevels(s);
    ShownIs(s, s.followed[i].Key());
  }

  lemma SoundAfter(hidden: bool, ms: seq<Message>, n: nat)
    requires Reference.ValidStream(ms) && n <= |ms|
    ensures Sound(After(hidden, ms, n))
  {
    hide Sound, Counted;
    Reference.ValidPrefix(ms, n);
    ReplayIsSound(hidden, ms[..n]);
  }

  /**
    The condition is exact for an order with the whole level in front of it: a printed execution of another
    order there keeps its queue within the level if and only if the print was not at a better price.
   */
  lemma FairIff(s: State, ref: nat, shares: int, px: int, ts: nat, i: nat)
    requires Sound(s) && ref in s.orders && shares > 0 && i < |s.followed| && s.followed[i].alive
    requires s.followed[i].Key() == s.orders[ref].Key() && s.followed[i].ref != ref
    requires s.followed[i].ahead[0] == Others(s.levels, s.followed[i]) * SCALE
    ensures var t := Execute(s, ref, shares, Some(px), true, ts);
            i < |t.followed| && (WithinAt(t, i) <==> !Better(s.orders[ref].side, px, s.orders[ref].px))
  {
    hide Execute, ExecutionSeen, Sound, Good, Shifted, Lowered;
    var e, f, t := ExecutionOf(s, ref, shares, Some(px), true, ts), s.followed[i],
                   Execute(s, ref, shares, Some(px), true, ts);
    if !Better(e.o.side, px, e.o.px) {
      ExecuteKeepsWithin(s, ref, shares, Some(px), true, ts, i);
    } else {
      SoundIsSafe(s);
      ExecuteShape(s, ref, shares, Some(px), true, ts);
      SoundAt(s, i);
      LevelCovers(s, ref);
      LevelGoes(s.levels, e.o.Key(), e.q, f.Key());
      LevelChangeInRange(s, i, ref, e.q);
      assert t.followed[i] == AfterExecute(s, e, i);
      assert e.o.followed != Some(i);
      assert LivesAt(s.followed, e.o.Book(), i);
      SeenKeepsIdentity(f, e);
      SeenUnfair(f, e);
    }
  }

  /** A print at a better price than its own passes an order by. */
  lemma SeenUnfair(f: Followed, e: Execution)
    requires Good(f) && f.ref != e.ref && 0 < e.q && e.printable && f.side == e.o.side && Better(f.side, e.px, f.px)
    ensures var g := ExecutionSeen(f, e).0; g.ahead[0] == f.ahead[0] && g.left == f.left
  {
    PrintModelsAt(f, L2_MODELS, e.px, e.q * SCALE, e.o.side.Opposite(), e.ts, 0);
    hide PrintModels, Good;
    var h := ExecutionShown(f, e).0;
    assert PlaceOf(h, 0)
        == Printed(PlaceOf(f, 0), f.side, f.px, f.qty0 * SCALE, e.px, e.q * SCALE, e.o.side.Opposite());
    FirstIsProper(f);
    PrintElsewhere(f.ahead[0], f.side, f.px, f.qty0 * SCALE - f.filled[0], e.px, e.q * SCALE, e.o.side.Opposite());
    ReachedKeepsFirst(h, e);
  }

  // ---- Hidden prints --------------------------------------------------------------------------------------

  /**
    A hidden print is a buyer's: it passes every bid and every other stock by, and gives each model of an
    offer what a print gives: all it can at its price, and the order itself once the print is through it.
   */
  lemma HiddenPrint(s: State, loc: nat, ts: nat, qty: nat, px: nat, i: nat, m: nat)
    requires Sound(s) && i < |s.followed| && m < L2_MODELS
    ensures var f, g := s.followed[i], Step(s, true, Trade(loc, ts, qty, px)).followed[i];
            var leaves := f.qty0 * SCALE - f.filled[m];
            if !f.alive || f.loc != loc || f.side.Buy? || px < f.px || leaves == 0
            then g.ahead[m] == f.ahead[m] && g.filled[m] == f.filled[m]
            else && g.filled[m] - f.filled[m]
                    == Min(qty * SCALE - (if px == f.px then f.ahead[m] - g.ahead[m] else 0), leaves)
                 && g.ahead[m] == (if px == f.px then Less(f.ahead[m], qty * SCALE) else 0)
  {
    hide PrintAll, PrintModels, Sound, Good;
    var f := s.followed[i];
    SoundIsSafe(s);
    SoundAt(s, i);
    HiddenShape(s, loc, px, qty, ts, i);
    HiddenPrinted(f, px, qty, ts, m);
  }

  lemma HiddenPrinted(f: Followed, px: int, qty: nat, ts: nat, m: nat)
    requires Good(f) && m < L2_MODELS
    ensures var g := PrintModels(f, L2_MODELS, px, qty * SCALE, Buy, ts).0;
            var leaves := f.qty0 * SCALE - f.filled[m];
            if f.side.Buy? || px < f.px || leaves == 0 then g.ahead[m] == f.ahead[m] && g.filled[m] == f.filled[m]
            else && g.filled[m] - f.filled[m]
                    == Min(qty * SCALE - (if px == f.px then f.ahead[m] - g.ahead[m] else 0), leaves)
                 && g.ahead[m] == (if px == f.px then Less(f.ahead[m], qty * SCALE) else 0)
  {
    PrintModelsAt(f, L2_MODELS, px, qty * SCALE, Buy, ts, m);
    hide PrintModels;
    assert Proper(PlaceOf(f, m), f.qty0 * SCALE);
    var g := PrintModels(f, L2_MODELS, px, qty * SCALE, Buy, ts).0;
    assert PlaceOf(g, m) == Printed(PlaceOf(f, m), f.side, f.px, f.qty0 * SCALE, px, qty * SCALE, Buy);
  }
}
