/**
  What the scorer keeps on every message stream, even a malformed one: the alive lists, the alive
  flags and the links from orders to followers agree, so every index it follows is in range and
  every order it ends is found in the list it is erased from.
 */
module QueueSafety {
  import opened Itch
  import opened QueueRules
  import opened QueueTruth
  import opened Wrappers
  import opened Sequences
  import Reference = ReferenceBook

  predicate LivesAt(fs: seq<Followed>, b: BookKey, i: nat) { i < |fs| && fs[i].alive && fs[i].Book() == b }

  /** The alive lists hold each living follower once, under its own book, and nothing else. */
  ghost predicate Indexed(alive: map<BookKey, seq<nat>>, fs: seq<Followed>) {
    && (forall b :: NoDup(AliveAt(alive, b)))
    && (forall b, i: nat :: i in AliveAt(alive, b) <==> LivesAt(fs, b, i))
  }

  /** A linked order is the one its follower was made for. */
  ghost predicate Linked(orders: map<nat, Order>, fs: seq<Followed>) {
    forall r :: r in orders && orders[r].followed.Some? ==>
      var i := orders[r].followed.value;
      i < |fs| && fs[i].alive && fs[i].ref == r && fs[i].Key() == orders[r].Key() && fs[i].prio == orders[r].prio
  }

  ghost predicate Safe(s: State) { Indexed(s.alive, s.followed) && Linked(s.orders, s.followed) }

  /** What identifies a follower; no event changes it but the end of its life. */
  predicate SameIdentity(f: Followed, g: Followed) {
    && f.ref == g.ref && f.prio == g.prio && f.Key() == g.Key() && f.kind == g.kind && f.qty0 == g.qty0
    && f.alive == g.alive
  }

  lemma {:induction false} PrintKeepsIdentity(f: Followed, n: nat, px: int, qty: int, aggressor: Side, ts: nat)
    requires n <= L2_MODELS
    ensures SameIdentity(f, PrintModels(f, n, px, qty, aggressor, ts).0)
  {
    if n > 0 {
      PrintKeepsIdentity(f, n - 1, px, qty, aggressor, ts);
    }
  }

  lemma SeenKeepsIdentity(f: Followed, e: Execution)
    ensures SameIdentity(f, ExecutionSeen(f, e).0)
  {
    PrintKeepsIdentity(f, L2_MODELS, e.px, e.q * SCALE, e.o.side.Opposite(), e.ts);
    assert SameIdentity(f, ExecutionShown(f, e).0);
  }

  lemma OwnKeepsIdentity(f: Followed, e: Execution)
    ensures SameIdentity(f, OwnExecution(f, e).0)
  {
    PrintKeepsIdentity(f.(filledTrue := f.filledTrue + e.q), L2_MODELS, e.px, e.q * SCALE, e.o.side.Opposite(), e.ts);
    assert SameIdentity(f, OwnShown(f, e).0);
  }

  lemma CancelKeepsIdentity(f: Followed, ref: nat, o: Order, q: int, before: int)
    ensures var g := CancelSeen(f, ref, o, q, before);
            SameIdentity(f, g) && f.filled == g.filled && f.filledTrue == g.filledTrue
  {
  }

  // ---- The folds act follower by follower ----------------------------------------------------

  lemma SplitLast(list: seq<nat>)
    requires list != [] && NoDup(list)
    ensures NoDup(list[..|list| - 1]) && list[|list| - 1] !in list[..|list| - 1]
    ensures forall i :: i in list <==> i in list[..|list| - 1] || i == list[|list| - 1]
  {
    assert list == list[..|list| - 1] + [list[|list| - 1]];
  }

  lemma {:induction false} CancelAllAt(list: seq<nat>, fs: seq<Followed>, ref: nat, o: Order, q: int, before: int,
                                       i: nat)
    requires NoDup(list) && i < |fs|
    ensures CancelAll(list, fs, ref, o, q, before)[i]
            == if i in list then CancelSeen(fs[i], ref, o, q, before) else fs[i]
    decreases |list|
  {
    if list != [] {
      SplitLast(list);
      CancelAllAt(list[..|list| - 1], fs, ref, o, q, before, i);
    }
  }

  lemma {:induction false} ExecuteAllAt(list: seq<nat>, fs: seq<Followed>, e: Execution, i: nat)
    requires NoDup(list) && i < |fs|
    ensures ExecuteAll(list, fs, e).0[i] == if i in list then ExecutionSeen(fs[i], e).0 else fs[i]
    decreases |list|
  {
    if list != [] {
      SplitLast(list);
      ExecuteAllAt(list[..|list| - 1], fs, e, i);
    }
  }

  lemma {:induction false} PrintAllAt(list: seq<nat>, fs: seq<Followed>, px: int, qty: int, ts: nat, i: nat)
    requires NoDup(list) && i < |fs|
    ensures PrintAll(list, fs, px, qty, ts).0[i]
            == if i in list then PrintModels(fs[i], L2_MODELS, px, qty, Buy, ts).0 else fs[i]
    decreases |list|
  {
    if list != [] {
      SplitLast(list);
      PrintAllAt(list[..|list| - 1], fs, px, qty, ts, i);
    }
  }

  lemma {:induction false} WithoutIs(list: seq<nat>, i: nat)
    requires NoDup(list)
    ensures NoDup(Without(list, i))
    ensures forall x :: x in Without(list, i) <==> x in list && x != i
    decreases |list|
  {
    if list != [] {
      assert list == [list[0]] + list[1..];
      if list[0] != i {
        WithoutIs(list[1..], i);
        var rest := Without(list[1..], i);
        assert list[0] !in rest;
        assert forall k :: 0 <= k < |rest| ==> rest[k] in rest;
      }
    }
  }

  // ---- The shape of each change --------------------------------------------------------------

  /** The order table after `q` shares of `ref` left it. */
  function Lowered(orders: map<nat, Order>, ref: nat, q: int, link: Option<nat>): map<nat, Order>
    requires ref in orders
  {
    var o := orders[ref];
    if o.qty == q then orders - {ref} else orders[ref := o.(followed := link, qty := o.qty - q)]
  }

  lemma LoweredPlain(orders: map<nat, Order>, ref: nat, q: int, link: Option<nat>)
    requires ref in orders
    ensures Plain(Lowered(orders, ref, q, link)) == Reduce(Plain(orders), ref, q)
  {
  }

  ghost function AfterCancel(s: State, ref: nat, q: int, i: nat): Followed
    requires ref in s.orders && i < |s.followed|
  {
    var o, f := s.orders[ref], s.followed[i];
    if o.followed == Some(i) then f.(alive := false)
    else if f.alive && f.Book() == o.Book() then CancelSeen(f, ref, o, q, Displayed(s.levels, o.Key()))
    else f
  }

  lemma CancelShape(s: State, ref: nat, shares: int)
    requires Safe(s) && ref in s.orders
    ensures var o := s.orders[ref];
            var q := Reference.Clip(shares, o.qty);
            var t := Cancel(s, ref, shares);
            && t.orders == Lowered(s.orders, ref, q, None)
            && t.levels == Shifted(s.levels, o.Key(), -q) && t.prio == s.prio
            && |t.followed| == |s.followed|
            && (forall i :: 0 <= i < |s.followed| ==> t.followed[i] == AfterCancel(s, ref, q, i))
  {
    var o := s.orders[ref];
    var q := Reference.Clip(shares, o.qty);
    var u := FinishIf(s, o.followed);
    if o.followed.Some? {
      WithoutIs(AliveAt(s.alive, o.Book()), o.followed.value);
    }
    forall i | 0 <= i < |s.followed| ensures Cancel(s, ref, shares).followed[i] == AfterCancel(s, ref, q, i) {
      CancelAllAt(AliveAt(u.alive, o.Book()), u.followed, ref, o, q, Displayed(u.levels, o.Key()), i);
    }
  }

  /** What the execution makes of follower `i`: its own fill, what it sees of another's, or nothing. */
  ghost function Touched(s: State, e: Execution, i: nat): Followed
    requires i < |s.followed|
  {
    var f := s.followed[i];
    if e.o.followed == Some(i) then OwnExecution(f, e).0
    else if LivesAt(s.followed, e.o.Book(), i) then ExecutionSeen(f, e).0
    else f
  }

  ghost function AfterExecute(s: State, e: Execution, i: nat): Followed
    requires i < |s.followed|
  {
    var g := Touched(s, e, i);
    if e.o.followed == Some(i) && e.q == e.o.qty then g.(alive := false) else g
  }

  lemma ExecuteShape(s: State, ref: nat, shares: int, execPx: Option<int>, printable: bool, ts: nat)
    requires Safe(s) && ref in s.orders
    ensures var e := ExecutionOf(s, ref, shares, execPx, printable, ts);
            var t := Execute(s, ref, shares, execPx, printable, ts);
            && t.orders == Lowered(s.orders, ref, e.q, e.o.followed)
            && t.levels == Shifted(s.levels, e.o.Key(), -e.q) && t.prio == s.prio
            && |t.followed| == |s.followed|
            && (forall i :: 0 <= i < |s.followed| ==> t.followed[i] == AfterExecute(s, e, i))
  {
    var e := ExecutionOf(s, ref, shares, execPx, printable, ts);
    SettleShape(OnExecute(s, e), e);
    forall i | 0 <= i < |s.followed|
      ensures Execute(s, ref, shares, execPx, printable, ts).followed[i] == AfterExecute(s, e, i)
    {
      ExecuteAt(s, ref, shares, execPx, printable, ts, i);
    }
  }

  lemma ExecuteAt(s: State, ref: nat, shares: int, execPx: Option<int>, printable: bool, ts: nat, i: nat)
    requires Safe(s) && ref in s.orders && i < |s.followed|
    ensures var e := ExecutionOf(s, ref, shares, execPx, printable, ts);
            var t := Execute(s, ref, shares, execPx, printable, ts);
            |t.followed| == |s.followed| && t.followed[i] == AfterExecute(s, e, i)
  {
    var e := ExecutionOf(s, ref, shares, execPx, printable, ts);
    OnExecuteAt(s, e, i);
    SettleShape(OnExecute(s, e), e);
  }

  lemma SettleShape(s: State, e: Execution)
    requires e.ref in s.orders && e.o == s.orders[e.ref]
    ensures var t := Settle(s, e);
            && t.orders == Lowered(s.orders, e.ref, e.q, e.o.followed)
            && t.levels == Shifted(s.levels, e.o.Key(), -e.q) && t.prio == s.prio
            && |t.followed| == |s.followed|
            && (forall i :: 0 <= i < |s.followed| ==>
                  t.followed[i] == if e.o.followed == Some(i) && e.q == e.o.qty then s.followed[i].(alive := false)
                                   else s.followed[i])
  {
  }

  lemma OnExecuteAt(s: State, e: Execution, i: nat)
    requires Indexed(s.alive, s.followed) && i < |s.followed|
    requires e.o.followed == Some(i) ==> s.followed[i].ref == e.ref && s.followed[i].alive
    ensures |OnExecute(s, e).followed| == |s.followed|
    ensures OnExecute(s, e).followed[i] == Touched(s, e, i)
  {
    ExecuteAllAt(AliveAt(s.alive, e.o.Book()), s.followed, e, i);
    assert i in AliveAt(s.alive, e.o.Book()) <==> LivesAt(s.followed, e.o.Book(), i);
    SeenKeepsIdentity(s.followed[i], e);
    OwnKeepsIdentity(s.followed[i], e);
  }

  // ---- Safety of every message ---------------------------------------------------------------

  lemma IndexedSame(alive: map<BookKey, seq<nat>>, fs: seq<Followed>, gs: seq<Followed>)
    requires Indexed(alive, fs) && |gs| == |fs|
    requires forall i :: 0 <= i < |fs| ==> gs[i].alive == fs[i].alive && gs[i].Book() == fs[i].Book()
    ensures Indexed(alive, gs)
  {
    forall b, i: nat ensures i in AliveAt(alive, b) <==> LivesAt(gs, b, i) {
      assert i in AliveAt(alive, b) <==> LivesAt(fs, b, i);
    }
  }

  /** Ending follower `i` keeps the lists and the flags in step. */
  lemma IndexedFinish(alive: map<BookKey, seq<nat>>, fs: seq<Followed>, gs: seq<Followed>, i: nat)
    requires Indexed(alive, fs) && |gs| == |fs| && i < |fs| && !gs[i].alive && gs[i].Book() == fs[i].Book()
    requires forall j :: 0 <= j < |fs| && j != i ==> gs[j].alive == fs[j].alive && gs[j].Book() == fs[j].Book()
    ensures var b := fs[i].Book(); Indexed(alive[b := Without(AliveAt(alive, b), i)], gs)
  {
    var alive' := alive[fs[i].Book() := Without(AliveAt(alive, fs[i].Book()), i)];
    WithoutIs(AliveAt(alive, fs[i].Book()), i);
    forall b ensures NoDup(AliveAt(alive', b)) {
      assert NoDup(AliveAt(alive, b));
    }
    forall b, j: nat ensures j in AliveAt(alive', b) <==> LivesAt(gs, b, j) {
      assert j in AliveAt(alive, b) <==> LivesAt(fs, b, j);
    }
  }

  lemma CancelKeepsSafe(s: State, ref: nat, shares: int)
    requires Safe(s)
    ensures Safe(Cancel(s, ref, shares))
  {
    hide CancelSeen, CancelAll;
    if ref in s.orders {
      var o, t := s.orders[ref], Cancel(s, ref, shares);
      var q := Reference.Clip(shares, o.qty);
      CancelShape(s, ref, shares);
      forall i | 0 <= i < |s.followed|
        ensures SameIdentity(s.followed[i], t.followed[i].(alive := s.followed[i].alive))
        ensures t.followed[i].alive == (s.followed[i].alive && o.followed != Some(i))
      {
        assert t.followed[i] == AfterCancel(s, ref, q, i);
        CancelKeepsIdentity(s.followed[i], ref, o, q, Displayed(s.levels, o.Key()));
      }
      if o.followed.Some? {
        IndexedFinish(s.alive, s.followed, t.followed, o.followed.value);
      } else {
        IndexedSame(s.alive, s.followed, t.followed);
      }
    }
  }

  lemma ExecuteKeepsSafe(s: State, ref: nat, shares: int, execPx: Option<int>, printable: bool, ts: nat)
    requires Safe(s)
    ensures Safe(Execute(s, ref, shares, execPx, printable, ts))
  {
    hide ExecutionSeen, OwnExecution, ExecuteAll;
    if ref in s.orders {
      var e, t := ExecutionOf(s, ref, shares, execPx, printable, ts), Execute(s, ref, shares, execPx, printable, ts);
      ExecuteShape(s, ref, shares, execPx, printable, ts);
      forall i | 0 <= i < |s.followed|
        ensures SameIdentity(s.followed[i], t.followed[i].(alive := s.followed[i].alive))
        ensures t.followed[i].alive == (s.followed[i].alive && !(e.o.followed == Some(i) && e.q == e.o.qty))
      {
        assert t.followed[i] == AfterExecute(s, e, i);
        SeenKeepsIdentity(s.followed[i], e);
        OwnKeepsIdentity(s.followed[i], e);
      }
      if e.o.followed.Some? && e.q == e.o.qty {
        IndexedFinish(s.alive, s.followed, t.followed, e.o.followed.value);
      } else {
        IndexedSame(s.alive, s.followed, t.followed);
      }
    }
  }

  lemma AddKeepsSafe(s: State, ref: nat, o: Resting, ts: nat)
    requires Safe(s)
    ensures Safe(AddOrder(s, ref, o, ts))
  {
    var t := AddOrder(s, ref, o, ts);
    var b := BookKey(o.loc, o.side);
    if KindOf(s.levels, b, o.px, ts).Some? {
      var list := AliveAt(s.alive, b);
      assert |s.followed| !in list;
      forall c, i: nat ensures i in AliveAt(t.alive, c) <==> LivesAt(t.followed, c, i) {
        assert i in AliveAt(s.alive, c) <==> LivesAt(s.followed, c, i);
      }
      forall c ensures NoDup(AliveAt(t.alive, c)) {
        assert NoDup(AliveAt(s.alive, c));
      }
    }
  }

  lemma HiddenShape(s: State, loc: nat, px: int, qty: int, ts: nat, i: nat)
    requires Safe(s) && i < |s.followed|
    ensures var t := HiddenTrade(s, loc, px, qty, ts);
            && |t.followed| == |s.followed|
            && t.followed[i] == if s.followed[i].alive && s.followed[i].loc == loc
                                then PrintModels(s.followed[i], L2_MODELS, px, qty * SCALE, Buy, ts).0
                                else s.followed[i]
  {
    var buys, sells := AliveAt(s.alive, BookKey(loc, Buy)), AliveAt(s.alive, BookKey(loc, Sell));
    PrintAllAt(buys, s.followed, px, qty * SCALE, ts, i);
    PrintAllAt(sells, PrintAll(buys, s.followed, px, qty * SCALE, ts).0, px, qty * SCALE, ts, i);
  }

  lemma HiddenKeepsSafe(s: State, loc: nat, px: int, qty: int, ts: nat)
    requires Safe(s)
    ensures Safe(HiddenTrade(s, loc, px, qty, ts))
  {
    var t := HiddenTrade(s, loc, px, qty, ts);
    forall i | 0 <= i < |s.followed| ensures SameIdentity(s.followed[i], t.followed[i]) {
      HiddenShape(s, loc, px, qty, ts, i);
      PrintKeepsIdentity(s.followed[i], L2_MODELS, px, qty * SCALE, Buy, ts);
    }
    IndexedSame(s.alive, s.followed, t.followed);
  }

  /** Any message, well formed or not, keeps the indexes in agreement. */
  lemma StepKeepsSafe(s: State, hidden: bool, m: Message)
    requires Safe(s)
    ensures Safe(Step(s, hidden, m))
  {
    match m
    case Add(loc, ts, ref, side, qty, px) => AddKeepsSafe(s, ref, Resting(loc, side, px, qty), ts);
    case Executed(_, ts, ref, qty) => ExecuteKeepsSafe(s, ref, qty, None, true, ts);
    case ExecutedAt(_, ts, ref, qty, printable, px) => ExecuteKeepsSafe(s, ref, qty, Some(px), printable, ts);
    case Reduced(_, _, ref, qty) => CancelKeepsSafe(s, ref, qty);
    case Deleted(_, _, ref) => CancelKeepsSafe(s, ref, 0);
    case Replaced(loc, ts, ref, newRef, qty, px) =>
      if ref in s.orders {
        CancelKeepsSafe(s, ref, 0);
        AddKeepsSafe(Cancel(s, ref, 0), newRef, Resting(loc, s.orders[ref].side, px, qty), ts);
      }
    case Trade(loc, ts, qty, px) => HiddenKeepsSafe(s, loc, px, qty, ts);
    case Other(_, _) =>
  }
}
