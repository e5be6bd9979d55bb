/** The scorer as the program runs it: tables updated in place, one message at a time. */
module QueueScorer {
  import opened Itch
  import opened QueueRules
  import opened QueueTruth
  import opened Wrappers
  import opened QueueSafety
  import QueueRuns
  import ItchMerge
  import Reference = ReferenceBook

  // ---- Loops over the models of one follower ---------------------------------------------------

  method ShrinkModels(f: Followed, was: int, now: int) returns (g: Followed)
    ensures g == Shrunk(f, was, now)
  {
    g := f;
    for m := 0 to L2_MODELS
      invariant g == f.(ahead := g.ahead)
      invariant forall j :: 0 <= j < m ==> g.ahead[j] == Shrunk(f, was, now).ahead[j]
      invariant forall j :: m <= j < 6 ==> g.ahead[j] == f.ahead[j]
    {
      g := g.(ahead := g.ahead[m := AfterLevelChange(g.ahead[m], was * SCALE, now * SCALE, CONSERVATISM[m])]);
    }
    assert g.ahead == Shrunk(f, was, now).ahead;
  }

  method ModelFill(f: Followed, m: nat, q: int, ts: nat) returns (g: Followed, more: seq<Fill>)
    requires m <= L3
    ensures (g, more) == FillModel(f, m, q, ts)
  {
    g, more := f, [];
    if q > 0 {
      g := f.(filled := f.filled[m := f.filled[m] + q]);
      more := [Fill(ts, f.px, q / SCALE, f.loc, f.side, m, f.kind)];
    }
  }

  method PrintToModels(f: Followed, px: int, qty: int, aggressor: Side, ts: nat) returns (g: Followed, fills: seq<Fill>)
    ensures (g, fills) == PrintModels(f, L2_MODELS, px, qty, aggressor, ts)
  {
    hide AfterTrade;
    g, fills := f, [];
    for m := 0 to L2_MODELS
      invariant (g, fills) == PrintModels(f, m, px, qty, aggressor, ts)
    {
      var (ahead, fill) := AfterTrade(g.ahead[m], g.side, g.px, g.qty0 * SCALE - g.filled[m], px, qty, aggressor);
      var more;
      g, more := ModelFill(g.(ahead := g.ahead[m := ahead]), m, fill, ts);
      fills := fills + more;
    }
  }

  method TallyFinished(t: Tally, f: Followed) returns (u: Tally)
    ensures u == TallyOrder(t, f)
  {
    var truth := f.filledTrue > 0;
    u := t.(orders := t.orders + 1,
            filledTrue := t.filledTrue + if truth then 1 else 0,
            qtyTrue := t.qtyTrue + f.filledTrue);
    ghost var u0 := u;
    for m := 0 to 6
      invariant u == TallyModels(u0, f, m)
    {
      var model := f.filled[m] > 0;
      u := u.(qtyModel := u.qtyModel[m := u.qtyModel[m] + f.filled[m]]);
      if truth && model {
        u := u.(both := u.both[m := u.both[m] + 1]);
      } else if truth {
        u := u.(truthOnly := u.truthOnly[m := u.truthOnly[m] + 1]);
      } else if model {
        u := u.(modelOnly := u.modelOnly[m := u.modelOnly[m] + 1]);
      }
    }
  }

  lemma {:induction false} WithoutAt(list: seq<nat>, j: nat)
    requires j < |list| && list[j] !in list[..j]
    ensures Without(list, list[j]) == list[..j] + list[j + 1..]
  {
    if j > 0 {
      assert list[0] == list[..j][0];
      assert list[1..][..j - 1] == list[..j][1..];
      WithoutAt(list[1..], j - 1);
      assert list[..j] == [list[0]] + list[1..][..j - 1];
      assert list[j + 1..] == list[1..][j..];
    }
  }

  /** erase(find(...)): undefined when the element is missing, so finding it is a precondition. */
  method EraseFirst(list: seq<nat>, i: nat) returns (rest: seq<nat>)
    requires i in list
    ensures rest == Without(list, i)
  {
    var j := 0;
    while list[j] != i
      invariant 0 <= j < |list| && i !in list[..j] && i in list[j..]
      decreases |list| - j
    {
      assert list[j..] == [list[j]] + list[j + 1..];
      assert list[..j + 1] == list[..j] + [list[j]];
      j := j + 1;
    }
    WithoutAt(list, j);
    rest := list[..j] + list[j + 1..];
  }

  /** The messages of the locates that are followed. */
  function Selected(ms: seq<Message>, on: set<nat>): seq<Message> {
    if ms == [] then []
    else
      var rest, m := Selected(ms[..|ms| - 1], on), ms[|ms| - 1];
      if m.loc in on then rest + [m] else rest
  }

  /** Every followed locate keeps its messages, all of them and in their order; the others keep none. */
  lemma {:induction false} SelectedPerLocate(ms: seq<Message>, on: set<nat>, loc: nat)
    ensures ItchMerge.Only(Selected(ms, on), loc) == if loc in on then ItchMerge.Only(ms, loc) else []
  {
    if ms != [] {
      var rest, m := ms[..|ms| - 1], ms[|ms| - 1];
      SelectedPerLocate(rest, on, loc);
      var picked := Selected(rest, on);
      assert (picked + [m])[..|picked|] == picked;
    }
  }

  // ---- The program -----------------------------------------------------------------------------

  class Scorer {
    const hidden: bool
    var orders: map<nat, Order>
    var levels: Levels
    var alive: map<BookKey, seq<nat>>
    var followed: seq<Followed>
    var fills: seq<Fill>
    var tally: Tallies
    var prio: nat

    function Value(): State
      reads this
    {
      State(orders, levels, alive, followed, fills, tally, prio)
    }

    ghost predicate Valid()
      reads this
    {
      Safe(Value())
    }

    constructor (hidden: bool)
      ensures Valid() && Value() == START && this.hidden == hidden
    {
      this.hidden := hidden;
      orders, levels, alive, followed, fills, prio := map[], map[], map[], [], [], 0;
      tally := [ZERO, ZERO, ZERO];
    }

    method LevelAdd(k: LevelKey, q: int)
      modifies this`levels
      ensures levels == Shifted(old(levels), k, q)
    {
      var v := Displayed(levels, k) + q;
      levels := levels[k := v];
      if v <= 0 { levels := levels - {k}; }
    }

    method FinishOrder(i: nat)
      requires Indexed(alive, followed) && i < |followed| && followed[i].alive
      modifies this`followed, this`alive, this`tally
      ensures Value() == Finish(old(Value()), i)
    {
      var f := followed[i];
      assert LivesAt(followed, f.Book(), i);
      followed := followed[i := f.(alive := false)];
      var rest := EraseFirst(AliveAt(alive, f.Book()), i);
      alive := alive[f.Book() := rest];
      var t := TallyFinished(tally[f.kind], f);
      tally := tally[f.kind := t];
    }

    method OnCancelOrder(ref: nat, o: Order, q: int)
      requires Indexed(alive, followed)
      modifies this`followed
      ensures Value() == OnCancel(old(Value()), ref, o, q)
    {
      var before := Displayed(levels, o.Key());
      var list := AliveAt(alive, o.Book());
      for n := 0 to |list|
        invariant |followed| == |old(followed)|
        invariant followed == CancelAll(list[..n], old(followed), ref, o, q, before)
      {
        assert list[..n + 1][..n] == list[..n];
        var i := list[n];
        assert LivesAt(old(followed), o.Book(), i);
        var f := followed[i];
        if f.ref != ref && f.px == o.px {
          f := ShrinkModels(f, before - f.left, before - q - f.left);
          if o.prio < f.prio {
            var a := f.ahead[L3];
            f := f.(ahead := f.ahead[L3 := if a > q * SCALE then a - q * SCALE else 0]);
          }
        }
        followed := followed[i := f];
      }
      assert list[..|list|] == list;
    }

    /** What one follower makes of another order's execution. */
    method SeeExecution(f: Followed, e: Execution) returns (g: Followed, more: seq<Fill>)
      ensures (g, more) == ExecutionSeen(f, e)
    {
      g, more := f, [];
      if f.ref == e.ref { return; }
      if !e.printable && f.px == e.o.px {
        g := ShrinkModels(f, e.before - f.left, e.before - e.q - f.left);
      }
      if e.printable {
        g, more := PrintToModels(f, e.px, e.q * SCALE, e.o.side.Opposite(), e.ts);
      }
      assert (g, more) == ExecutionShown(f, e) && more + [] == more;
      match ExecutionReaches(g.side, g.px, g.prio, e.o.px, e.o.prio, e.px)
      case Fills =>
        var q := Min(e.q * SCALE, g.qty0 * SCALE - g.filled[L3]);
        var filled;
        g, filled := ModelFill(g.(ahead := g.ahead[L3 := 0]), L3, q, e.ts);
        more := more + filled;
      case Ahead =>
        var a := g.ahead[L3];
        g := g.(ahead := g.ahead[L3 := if a > e.q * SCALE then a - e.q * SCALE else 0]);
      case Elsewhere =>
    }

    method OwnFill(f: Followed, e: Execution) returns (g: Followed, more: seq<Fill>)
      ensures (g, more) == OwnExecution(f, e)
    {
      g := f.(filledTrue := f.filledTrue + e.q);
      more := [Fill(e.ts, f.px, e.q, f.loc, f.side, TRUTH, f.kind)];
      if e.printable {
        var printed;
        g, printed := PrintToModels(g, e.px, e.q * SCALE, e.o.side.Opposite(), e.ts);
        more := more + printed;
      }
      var q := Min(e.q * SCALE, g.qty0 * SCALE - g.filled[L3]);
      var filled;
      g, filled := ModelFill(g.(ahead := g.ahead[L3 := 0]), L3, q, e.ts);
      more := more + filled;
      g := g.(left := g.left - e.q);
    }

    method OnExecuteOrder(e: Execution)
      requires Indexed(alive, followed)
      requires e.o.followed.Some? ==> e.o.followed.value < |followed|
      modifies this`followed, this`fills
      ensures Value() == OnExecute(old(Value()), e)
    {
      hide ExecutionSeen, OwnExecution;
      var list := AliveAt(alive, e.o.Book());
      ghost var added: seq<Fill> := [];
      for n := 0 to |list|
        invariant |followed| == |old(followed)|
        invariant (followed, added) == ExecuteAll(list[..n], old(followed), e)
        invariant fills == old(fills) + added
      {
        assert list[..n + 1][..n] == list[..n];
        var i := list[n];
        assert LivesAt(old(followed), e.o.Book(), i);
        var f, more := SeeExecution(followed[i], e);
        followed := followed[i := f];
        fills := fills + more;
        added := added + more;
      }
      assert list[..|list|] == list;
      if e.o.followed.Some? {
        var i := e.o.followed.value;
        var f, more := OwnFill(followed[i], e);
        followed := followed[i := f];
        fills := fills + more;
      }
    }

    method AddNew(ref: nat, o: Resting, ts: nat)
      requires Valid()
      modifies this
      ensures Valid() && Value() == AddOrder(old(Value()), ref, o, ts)
    {
      hide KindOf, NewFollowed, Shifted;
      AddKeepsSafe(Value(), ref, o, ts);
      var b := BookKey(o.loc, o.side);
      var kind := KindOf(levels, b, o.px, ts);
      var link := None;
      prio := prio + 1;
      if kind.Some? {
        link := Some(|followed|);
        alive := alive[b := AliveAt(alive, b) + [|followed|]];
        followed := followed + [NewFollowed(ref, prio, o, kind.value, Displayed(levels, o.Key()))];
      }
      orders := orders[ref := Order(o.loc, o.side, o.px, o.qty, prio, link)];
      LevelAdd(o.Key(), o.qty);
    }

    method CancelOrder(ref: nat, shares: int)
      requires Valid()
      modifies this
      ensures Valid() && Value() == Cancel(old(Value()), ref, shares)
    {
      hide CancelAll, TallyOrder, Without, Shifted;
      CancelKeepsSafe(Value(), ref, shares);
      if ref !in orders { return; }
      var o := orders[ref];
      var q := shares;
      if q <= 0 || q > o.qty { q := o.qty; }
      if o.followed.Some? {
        var i := o.followed.value;
        ghost var fs := followed;
        IndexedFinish(alive, fs, fs[i := fs[i].(alive := false)], i);
        FinishOrder(i);
      }
      OnCancelOrder(ref, o, q);
      LevelAdd(o.Key(), -q);
      TakeFrom(ref, o.(followed := None), q);
    }

    /** The order loses `q` shares, and leaves the table with its last one. */
    method TakeFrom(ref: nat, o: Order, q: int)
      modifies this`orders
      ensures orders == if o.qty == q then old(orders) - {ref} else old(orders)[ref := o.(qty := o.qty - q)]
    {
      orders := orders[ref := o.(qty := o.qty - q)];
      if orders[ref].qty == 0 { orders := orders - {ref}; }
    }

    method ExecuteOrder(ref: nat, shares: int, execPx: Option<int>, printable: bool, ts: nat)
      requires Valid()
      modifies this
      ensures Valid() && Value() == Execute(old(Value()), ref, shares, execPx, printable, ts)
    {
      hide ExecuteAll, OwnExecution, TallyOrder, Without, Shifted;
      ExecuteKeepsSafe(Value(), ref, shares, execPx, printable, ts);
      if ref !in orders { return; }
      var o := orders[ref];
      var q := Min(shares, o.qty);
      var e := ExecutionOf(Value(), ref, shares, execPx, printable, ts);
      OnExecuteOrder(e);
      LevelAdd(o.Key(), -q);
      TakeFrom(ref, o, q);
      if o.qty == q && o.followed.Some? {
        FinishExecuted(old(Value()), e);
        FinishOrder(o.followed.value);
      }
    }

    /** After an execution the executed follower is still alive and listed, so it can be finished. */
    lemma FinishExecuted(s: State, e: Execution)
      requires Safe(s) && e.ref in s.orders && e.o == s.orders[e.ref] && e.o.followed.Some?
      ensures var t := OnExecute(s, e);
              && |t.followed| == |s.followed| && Indexed(t.alive, t.followed)
              && t.followed[e.o.followed.value].alive
    {
      var t := OnExecute(s, e);
      OnExecuteAt(s, e, e.o.followed.value);
      forall i | 0 <= i < |s.followed|
        ensures t.followed[i].alive == s.followed[i].alive && t.followed[i].Book() == s.followed[i].Book()
      {
        OnExecuteAt(s, e, i);
        SeenKeepsIdentity(s.followed[i], e);
        OwnKeepsIdentity(s.followed[i], e);
      }
      IndexedSame(s.alive, s.followed, t.followed);
    }

    method PrintHidden(b: BookKey, px: int, qty: int, ts: nat)
      requires Indexed(alive, followed)
      modifies this`followed, this`fills
      ensures var r := PrintAll(AliveAt(alive, b), old(followed), px, qty, ts);
              followed == r.0 && fills == old(fills) + r.1
    {
      hide PrintModels;
      var list := AliveAt(alive, b);
      ghost var added: seq<Fill> := [];
      for n := 0 to |list|
        invariant |followed| == |old(followed)|
        invariant (followed, added) == PrintAll(list[..n], old(followed), px, qty, ts)
        invariant fills == old(fills) + added
      {
        assert list[..n + 1][..n] == list[..n];
        var i := list[n];
        assert LivesAt(old(followed), b, i);
        var f, more := PrintToModels(followed[i], px, qty, Buy, ts);
        followed := followed[i := f];
        fills := fills + more;
        added := added + more;
      }
      assert list[..|list|] == list;
    }

    method OnHiddenTrade(loc: nat, px: int, qty: int, ts: nat)
      requires Valid()
      modifies this
      ensures Valid() && Value() == HiddenTrade(old(Value()), loc, px, qty, ts)
    {
      HiddenKeepsSafe(Value(), loc, px, qty, ts);
      PrintHidden(BookKey(loc, Buy), px, qty * SCALE, ts);
      forall i | 0 <= i < |followed|
        ensures followed[i].alive == old(followed)[i].alive && followed[i].Book() == old(followed)[i].Book()
      {
        PrintAllAt(AliveAt(alive, BookKey(loc, Buy)), old(followed), px, qty * SCALE, ts, i);
        PrintKeepsIdentity(old(followed)[i], L2_MODELS, px, qty * SCALE, Buy, ts);
      }
      IndexedSame(alive, old(followed), followed);
      PrintHidden(BookKey(loc, Sell), px, qty * SCALE, ts);
    }

    method OnMessage(m: Message)
      requires Valid()
      modifies this
      ensures Valid() && Value() == Step(old(Value()), hidden, m)
    {
      match m
      case Add(loc, ts, ref, side, qty, px) => AddNew(ref, Resting(loc, side, px, qty), ts);
      case Executed(_, ts, ref, qty) => ExecuteOrder(ref, qty, None, true, ts);
      case ExecutedAt(_, ts, ref, qty, printable, px) => ExecuteOrder(ref, qty, Some(px), printable, ts);
      case Reduced(_, _, ref, qty) => CancelOrder(ref, qty);
      case Deleted(_, _, ref) => CancelOrder(ref, 0);
      case Replaced(loc, ts, ref, newRef, qty, px) =>
        if ref in orders {
          var s := orders[ref].side;
          CancelOrder(ref, 0);
          AddNew(newRef, Resting(loc, s, px, qty), ts);
        }
      case Trade(loc, ts, qty, px) => if hidden { OnHiddenTrade(loc, px, qty, ts); }
      case Other(_, _) =>
    }

    /**
      A whole file: every message of a selected locate, then the end of every order still followed.
      On a stream the book accepts, the L3 column misses no true fill.
     */
    method Run(ms: seq<Message>, on: set<nat>)
      requires Value() == START
      modifies this
      ensures Value() == Score(hidden, Selected(ms, on))
      ensures Reference.ValidStream(Selected(ms, on)) ==>
                forall k: Kind :: tally[k].truthOnly[L3] == 0 && tally[k].both[L3] == tally[k].filledTrue
    {
      hide Step, Safe, Finish, Reference.ValidStream;
      SafeAtStart();
      for n := 0 to |ms|
        invariant Valid() && Value() == Replay(START, hidden, Selected(ms[..n], on))
      {
        assert ms[..n + 1][..n] == ms[..n];
        if ms[n].loc in on {
          ghost var picked := Selected(ms[..n], on);
          assert (picked + [ms[n]])[..|picked|] == picked;
          OnMessage(ms[n]);
        }
      }
      assert ms[..|ms|] == ms;
      ghost var s := Value();
      SafeIsIndexed(s);
      for i := 0 to |followed|
        invariant Indexed(alive, followed) && |followed| == |s.followed|
        invariant Value() == FinishAlive(s, i)
      {
        if followed[i].alive {
          ghost var fs := followed;
          IndexedFinish(alive, fs, fs[i := fs[i].(alive := false)], i);
          FinishIs(Value(), i);
          FinishOrder(i);
        }
      }
      if Reference.ValidStream(Selected(ms, on)) {
        forall k: Kind ensures tally[k].truthOnly[L3] == 0 && tally[k].both[L3] == tally[k].filledTrue {
          QueueRuns.ScoreL3MissesNothing(hidden, Selected(ms, on), k);
        }
      }
    }
  }

  lemma SafeAtStart()
    ensures Safe(START)
  {
  }

  lemma SafeIsIndexed(s: State)
    requires Safe(s)
    ensures Indexed(s.alive, s.followed)
  {
  }

  /** Finishing an order touches its own flag and its own list. */
  lemma FinishIs(s: State, i: nat)
    requires i < |s.followed|
    ensures var t, f := Finish(s, i), s.followed[i];
            && t.followed == s.followed[i := f.(alive := false)]
            && t.alive == s.alive[f.Book() := Without(AliveAt(s.alive, f.Book()), i)]
  {
  }
}
