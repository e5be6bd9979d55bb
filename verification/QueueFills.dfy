/**
  The fill list: every entry is a followed order's, stamped by the message that made it, and the entries of a
  model add up to what it filled, less a fraction of a share each. On any stream, well formed or not.
 */
module QueueFills {
  import opened Itch
  import opened QueueRules
  import opened QueueTruth
  import opened Wrappers
  import opened QueueSafety
  import opened QueueTallies
  import opened QueueRuns
  import Reference = ReferenceBook

  /** The entry is of this order: its stock, side, price and kind. */
  predicate Of(x: Fill, f: Followed) {
    x.loc == f.loc && x.side == f.side && x.px == f.px && x.kind == f.kind
  }

  /** Entries of one order, made at one time. */
  ghost predicate AllOf(fills: seq<Fill>, f: Followed, ts: nat) {
    forall j :: 0 <= j < |fills| ==> Of(fills[j], f) && fills[j].ts == ts
  }

  ghost function FillCount(fills: seq<Fill>, k: Kind, model: nat): nat {
    if fills == [] then 0
    else
      var f := fills[|fills| - 1];
      FillCount(fills[..|fills| - 1], k, model) + if f.kind == k && f.model == model then 1 else 0
  }

  lemma {:induction false} FillCountJoin(a: seq<Fill>, b: seq<Fill>, k: Kind, model: nat)
    ensures FillCount(a + b, k, model) == FillCount(a, k, model) + FillCount(b, k, model)
    decreases |b|
  {
    if b == [] {
      assert a + b == a;
    } else {
      assert (a + b)[..|a + b| - 1] == a + b[..|b| - 1];
      FillCountJoin(a, b[..|b| - 1], k, model);
    }
  }

  /** `amount` is what the list says of a model, and less than a share more for each entry. */
  ghost predicate Covers(fills: seq<Fill>, amount: int, k: Kind, m: Model) {
    FillSum(fills, k, m) * SCALE <= amount <= FillSum(fills, k, m) * SCALE + FillCount(fills, k, m) * (SCALE - 1)
  }

  lemma CoversJoin(a: seq<Fill>, b: seq<Fill>, x: int, y: int, k: Kind, m: Model)
    requires Covers(a, x, k, m) && Covers(b, y, k, m)
    ensures Covers(a + b, x + y, k, m)
  {
    FillSumJoin(a, b, k, m);
    FillCountJoin(a, b, k, m);
  }

  /** What a follower filled in one model, for its own kind. */
  function Own(f: Followed, k: Kind, m: Model): int { if f.kind == k then f.filled[m] else 0 }

  /** The list accounts for a follower's way from `f` to `g`. */
  ghost predicate Accounts(fills: seq<Fill>, f: Followed, g: Followed, ts: nat, k: Kind, m: Model) {
    SameIdentity(f, g) && AllOf(fills, f, ts) && Covers(fills, Own(g, k, m) - Own(f, k, m), k, m)
  }

  lemma AccountsJoin(a: seq<Fill>, b: seq<Fill>, f: Followed, g: Followed, h: Followed, ts: nat, k: Kind, m: Model)
    requires Accounts(a, f, g, ts, k, m) && Accounts(b, g, h, ts, k, m)
    ensures Accounts(a + b, f, h, ts, k, m)
  {
    CoversJoin(a, b, Own(g, k, m) - Own(f, k, m), Own(h, k, m) - Own(g, k, m), k, m);
    forall j | 0 <= j < |a + b| ensures Of((a + b)[j], f) && (a + b)[j].ts == ts {
      if j >= |a| { assert Of(b[j - |a|], g); }
    }
  }

  lemma NothingAccounts(f: Followed, g: Followed, ts: nat, k: Kind, m: Model)
    requires SameIdentity(f, g) && f.filled == g.filled
    ensures Accounts([], f, g, ts, k, m)
  {
  }

  lemma OneEntry(x: Fill, k: Kind, m: nat)
    ensures FillSum([x], k, m) == (if x.kind == k && x.model == m then x.qty else 0)
    ensures FillCount([x], k, m) == (if x.kind == k && x.model == m then 1 else 0)
  {
    assert [x][..0] == [];
  }

  lemma ModelAccounts(f: Followed, n: nat, q: int, ts: nat, k: Kind, m: Model)
    requires n <= L3
    ensures var (g, fills) := FillModel(f, n, q, ts); Accounts(fills, f, g, ts, k, m)
  {
    if q > 0 {
      var x := Fill(ts, f.px, q / SCALE, f.loc, f.side, n, f.kind);
      OneEntry(x, k, m);
      assert FillModel(f, n, q, ts).1 == [x];
    }
  }

  lemma {:induction false} PrintAccounts(f: Followed, n: nat, px: int, qty: int, aggressor: Side, ts: nat, k: Kind,
                                         m: Model)
    requires n <= L2_MODELS
    ensures var (g, fills) := PrintModels(f, n, px, qty, aggressor, ts); Accounts(fills, f, g, ts, k, m)
  {
    hide AfterTrade, Accounts;
    if n == 0 {
      NothingAccounts(f, f, ts, k, m);
    } else {
      var (g, fills) := PrintModels(f, n - 1, px, qty, aggressor, ts);
      PrintAccounts(f, n - 1, px, qty, aggressor, ts, k, m);
      var (ahead, fill) :=
        AfterTrade(g.ahead[n - 1], g.side, g.px, g.qty0 * SCALE - g.filled[n - 1], px, qty, aggressor);
      var g' := g.(ahead := g.ahead[n - 1 := ahead]);
      NothingAccounts(g, g', ts, k, m);
      ModelAccounts(g', n - 1, fill, ts, k, m);
      var (h, more) := FillModel(g', n - 1, fill, ts);
      AccountsJoin([], more, g, g', h, ts, k, m);
      assert [] + more == more;
      AccountsJoin(fills, more, f, g, h, ts, k, m);
    }
  }

  lemma SeenAccounts(f: Followed, e: Execution, k: Kind, m: Model)
    ensures var (g, fills) := ExecutionSeen(f, e); Accounts(fills, f, g, e.ts, k, m)
  {
    hide PrintModels, Accounts;
    NothingAccounts(f, f, e.ts, k, m);
    if f.ref != e.ref {
      var (h, fills) := ExecutionShown(f, e);
      PrintAccounts(f, L2_MODELS, e.px, e.q * SCALE, e.o.side.Opposite(), e.ts, k, m);
      if !e.printable { NothingAccounts(f, h, e.ts, k, m); }
      ReachedAccounts(h, e, k, m);
      var (r, more) := QueueReached(h, e);
      AccountsJoin(fills, more, f, h, r, e.ts, k, m);
    }
  }

  lemma ReachedAccounts(f: Followed, e: Execution, k: Kind, m: Model)
    ensures var (g, fills) := QueueReached(f, e); Accounts(fills, f, g, e.ts, k, m)
  {
    var f' := f.(ahead := f.ahead[L3 := 0]);
    ModelAccounts(f', L3, Min(e.q * SCALE, f.qty0 * SCALE - f.filled[L3]), e.ts, k, m);
  }

  lemma OwnAccounts(f: Followed, e: Execution, k: Kind, m: Model)
    ensures var (g, fills) := OwnExecution(f, e); Accounts(fills, f, g, e.ts, k, m)
  {
    hide PrintModels, Accounts, FillModel;
    var x, g := Fill(e.ts, f.px, e.q, f.loc, f.side, TRUTH, f.kind), f.(filledTrue := f.filledTrue + e.q);
    TruthAccounts(f, e, k, m);
    PrintAccounts(g, L2_MODELS, e.px, e.q * SCALE, e.o.side.Opposite(), e.ts, k, m);
    var (h, fills) := OwnShown(f, e);
    if e.printable {
      AccountsJoin([x], PrintModels(g, L2_MODELS, e.px, e.q * SCALE, e.o.side.Opposite(), e.ts).1, f, g, h, e.ts, k, m);
    }
    var h', q := h.(ahead := h.ahead[L3 := 0]), Min(e.q * SCALE, h.qty0 * SCALE - h.filled[L3]);
    ModelAccounts(h', L3, q, e.ts, k, m);
    var (r, more) := FillModel(h', L3, q, e.ts);
    OwnEnds(h, h', r, r.(left := r.left - e.q), more, e.ts, k, m);
    AccountsJoin(fills, more, f, h, r.(left := r.left - e.q), e.ts, k, m);
  }

  lemma OwnEnds(h: Followed, h': Followed, r: Followed, r': Followed, more: seq<Fill>, ts: nat, k: Kind, m: Model)
    requires Accounts(more, h', r, ts, k, m)
    requires h' == h.(ahead := h'.ahead) && r' == r.(left := r'.left)
    ensures Accounts(more, h, r', ts, k, m)
  {
    forall j | 0 <= j < |more| ensures Of(more[j], h) && more[j].ts == ts { assert Of(more[j], h'); }
  }

  lemma TruthAccounts(f: Followed, e: Execution, k: Kind, m: Model)
    ensures Accounts([Fill(e.ts, f.px, e.q, f.loc, f.side, TRUTH, f.kind)], f, f.(filledTrue := f.filledTrue + e.q),
                     e.ts, k, m)
  {
    OneEntry(Fill(e.ts, f.px, e.q, f.loc, f.side, TRUTH, f.kind), k, m);
  }

  // ---- Lists of followers -------------------------------------------------------------------------------

  /** What the followers of a kind filled in one model. */
  ghost function Filled(fs: seq<Followed>, k: Kind, m: Model): int {
    if fs == [] then 0 else Filled(fs[..|fs| - 1], k, m) + Own(fs[|fs| - 1], k, m)
  }

  lemma {:induction false} FilledUpdate(fs: seq<Followed>, i: nat, g: Followed, k: Kind, m: Model)
    requires i < |fs|
    ensures Filled(fs[i := g], k, m) == Filled(fs, k, m) - Own(fs[i], k, m) + Own(g, k, m)
  {
    var n := |fs| - 1;
    if i < n {
      FilledUpdate(fs[..n], i, g, k, m);
      assert fs[i := g][..n] == fs[..n][i := g];
    } else {
      assert fs[i := g][..n] == fs[..n];
    }
  }

  lemma {:induction false} FilledSame(fs: seq<Followed>, gs: seq<Followed>, k: Kind, m: Model)
    requires |fs| == |gs| && forall i :: 0 <= i < |fs| ==> Own(fs[i], k, m) == Own(gs[i], k, m)
    ensures Filled(fs, k, m) == Filled(gs, k, m)
  {
    if fs != [] {
      FilledSame(fs[..|fs| - 1], gs[..|gs| - 1], k, m);
    }
  }

  /** Every entry is some follower's, made at one time. */
  ghost predicate AllFrom(fills: seq<Fill>, fs: seq<Followed>, ts: nat) {
    forall j :: 0 <= j < |fills| ==> fills[j].ts == ts && exists i :: 0 <= i < |fs| && Of(fills[j], fs[i])
  }

  ghost predicate SameOrders(fs: seq<Followed>, gs: seq<Followed>) {
    |fs| == |gs| && forall i :: 0 <= i < |fs| ==> gs[i].Key() == fs[i].Key() && gs[i].kind == fs[i].kind
  }

  /** The list accounts for the way of all followers. */
  ghost predicate AccountsAll(fills: seq<Fill>, fs: seq<Followed>, gs: seq<Followed>, ts: nat, k: Kind, m: Model) {
    SameOrders(fs, gs) && AllFrom(fills, fs, ts) && Covers(fills, Filled(gs, k, m) - Filled(fs, k, m), k, m)
  }

  lemma AccountsOne(fills: seq<Fill>, fs: seq<Followed>, i: nat, g: Followed, ts: nat, k: Kind, m: Model)
    requires i < |fs| && Accounts(fills, fs[i], g, ts, k, m)
    ensures AccountsAll(fills, fs, fs[i := g], ts, k, m)
  {
    FilledUpdate(fs, i, g, k, m);
  }

  lemma AccountsMore(a: seq<Fill>, b: seq<Fill>, fs: seq<Followed>, gs: seq<Followed>, hs: seq<Followed>, ts: nat,
                     k: Kind, m: Model)
    requires AccountsAll(a, fs, gs, ts, k, m) && AccountsAll(b, gs, hs, ts, k, m)
    ensures AccountsAll(a + b, fs, hs, ts, k, m)
  {
    CoversJoin(a, b, Filled(gs, k, m) - Filled(fs, k, m), Filled(hs, k, m) - Filled(gs, k, m), k, m);
    forall j | 0 <= j < |a + b|
      ensures (a + b)[j].ts == ts && exists i :: 0 <= i < |fs| && Of((a + b)[j], fs[i])
    {
      if j >= |a| {
        var i :| 0 <= i < |gs| && Of(b[j - |a|], gs[i]);
        assert gs[i].Key() == fs[i].Key() && Of(b[j - |a|], fs[i]);
      }
    }
  }

  lemma AccountsNone(fs: seq<Followed>, gs: seq<Followed>, ts: nat, k: Kind, m: Model)
    requires SameOrders(fs, gs) && forall i :: 0 <= i < |fs| ==> gs[i].filled == fs[i].filled
    ensures AccountsAll([], fs, gs, ts, k, m)
  {
    FilledSame(fs, gs, k, m);
  }

  lemma {:induction false} ExecuteAllAccounts(list: seq<nat>, fs: seq<Followed>, e: Execution, k: Kind, m: Model)
    ensures var (gs, fills) := ExecuteAll(list, fs, e); AccountsAll(fills, fs, gs, e.ts, k, m)
    decreases |list|
  {
    hide ExecutionSeen, AccountsAll, Accounts;
    if list == [] {
      AccountsNone(fs, fs, e.ts, k, m);
    } else {
      var rest, i := list[..|list| - 1], list[|list| - 1];
      var (gs, fills) := ExecuteAll(rest, fs, e);
      ExecuteAllAccounts(rest, fs, e, k, m);
      if i < |gs| {
        var (g, more) := ExecutionSeen(gs[i], e);
        SeenAccounts(gs[i], e, k, m);
        AccountsOne(more, gs, i, g, e.ts, k, m);
        AccountsMore(fills, more, fs, gs, gs[i := g], e.ts, k, m);
      }
    }
  }

  lemma {:induction false} PrintAllAccounts(list: seq<nat>, fs: seq<Followed>, px: int, qty: int, ts: nat, k: Kind,
                                            m: Model)
    ensures var (gs, fills) := PrintAll(list, fs, px, qty, ts); AccountsAll(fills, fs, gs, ts, k, m)
    decreases |list|
  {
    hide PrintModels, AccountsAll, Accounts;
    if list == [] {
      AccountsNone(fs, fs, ts, k, m);
    } else {
      var rest, i := list[..|list| - 1], list[|list| - 1];
      var (gs, fills) := PrintAll(rest, fs, px, qty, ts);
      PrintAllAccounts(rest, fs, px, qty, ts, k, m);
      if i < |gs| {
        var (g, more) := PrintModels(gs[i], L2_MODELS, px, qty, Buy, ts);
        PrintAccounts(gs[i], L2_MODELS, px, qty, Buy, ts, k, m);
        AccountsOne(more, gs, i, g, ts, k, m);
        AccountsMore(fills, more, fs, gs, gs[i := g], ts, k, m);
      }
    }
  }

  // ---- Every message ---------------------------------------------------------------------------------------

  /** From `s` to `t` the list only grew, by entries that account for what the followers of `s` filled. */
  ghost predicate Adds(s: State, t: State, ts: nat, k: Kind, m: Model) {
    && s.fills <= t.fills && |s.followed| <= |t.followed|
    && AccountsAll(t.fills[|s.fills|..], s.followed, t.followed[..|s.followed|], ts, k, m)
    && forall i :: |s.followed| <= i < |t.followed| ==> Own(t.followed[i], k, m) == 0
  }

  lemma AddsMore(s: State, t: State, fills: seq<Fill>, ts: nat, k: Kind, m: Model)
    requires t.fills == s.fills + fills && AccountsAll(fills, s.followed, t.followed, ts, k, m)
    ensures Adds(s, t, ts, k, m)
  {
    assert t.fills[|s.fills|..] == fills && t.followed[..|s.followed|] == t.followed;
  }

  lemma AddsNone(s: State, t: State, ts: nat, k: Kind, m: Model)
    requires t.fills == s.fills && SameOrders(s.followed, t.followed)
    requires forall i :: 0 <= i < |s.followed| ==> t.followed[i].filled == s.followed[i].filled
    ensures Adds(s, t, ts, k, m)
  {
    AccountsNone(s.followed, t.followed, ts, k, m);
    assert s.fills + [] == s.fills;
    AddsMore(s, t, [], ts, k, m);
  }

  lemma OnExecuteAdds(s: State, e: Execution, k: Kind, m: Model)
    ensures Adds(s, OnExecute(s, e), e.ts, k, m)
  {
    hide AccountsAll, Accounts, ExecutionSeen, OwnExecution, Adds;
    var t := OnExecute(s, e);
    var (fs, fills) := ExecuteAll(AliveAt(s.alive, e.o.Book()), s.followed, e);
    ExecuteAllAccounts(AliveAt(s.alive, e.o.Book()), s.followed, e, k, m);
    if e.o.followed.Some? && e.o.followed.value < |fs| {
      var i := e.o.followed.value;
      var (g, own) := OwnExecution(fs[i], e);
      OwnAccounts(fs[i], e, k, m);
      AccountsOne(own, fs, i, g, e.ts, k, m);
      AccountsMore(fills, own, s.followed, fs, fs[i := g], e.ts, k, m);
      assert s.fills + fills + own == s.fills + (fills + own);
      AddsMore(s, t, fills + own, e.ts, k, m);
    } else {
      AddsMore(s, t, fills, e.ts, k, m);
    }
  }

  lemma ExecuteAdds(s: State, ref: nat, shares: int, execPx: Option<int>, printable: bool, ts: nat, k: Kind, m: Model)
    ensures Adds(s, Execute(s, ref, shares, execPx, printable, ts), ts, k, m)
  {
    hide OnExecute, AccountsAll;
    if ref in s.orders {
      var e := ExecutionOf(s, ref, shares, execPx, printable, ts);
      var u, t := OnExecute(s, e), Settle(OnExecute(s, e), e);
      OnExecuteAdds(s, e, k, m);
      OnExecuteSize(s, e);
      assert u.followed[..|s.followed|] == u.followed;
      forall i | 0 <= i < |u.followed|
        ensures t.followed[i].filled == u.followed[i].filled && t.followed[i].Key() == u.followed[i].Key()
        ensures t.followed[i].kind == u.followed[i].kind
      {
      }
      AccountsNone(u.followed, t.followed, ts, k, m);
      var fills := u.fills[|s.fills|..];
      AccountsMore(fills, [], s.followed, u.followed, t.followed, ts, k, m);
      assert fills + [] == fills;
      AddsMore(s, t, fills, ts, k, m);
    } else {
      AddsNone(s, s, ts, k, m);
    }
  }

  lemma OnExecuteSize(s: State, e: Execution)
    ensures |OnExecute(s, e).followed| == |s.followed|
  {
  }

  lemma {:induction false} CancelAllKeeps(list: seq<nat>, fs: seq<Followed>, ref: nat, o: Order, q: int, before: int,
                                          i: nat)
    requires i < |fs|
    ensures var g := CancelAll(list, fs, ref, o, q, before)[i]; SameIdentity(fs[i], g) && fs[i].filled == g.filled
    decreases |list|
  {
    hide CancelSeen;
    if list != [] {
      var rest, j := list[..|list| - 1], list[|list| - 1];
      CancelAllKeeps(rest, fs, ref, o, q, before, i);
      if j == i { CancelKeepsIdentity(CancelAll(rest, fs, ref, o, q, before)[i], ref, o, q, before); }
    }
  }

  lemma CancelAdds(s: State, ref: nat, shares: int, ts: nat, k: Kind, m: Model)
    ensures Adds(s, Cancel(s, ref, shares), ts, k, m) && |Cancel(s, ref, shares).followed| == |s.followed|
    ensures Cancel(s, ref, shares).fills == s.fills
  {
    hide CancelAll, TallyOrder, Adds;
    var t := Cancel(s, ref, shares);
    if ref in s.orders {
      var o := s.orders[ref];
      var u := FinishIf(s, o.followed);
      forall i | 0 <= i < |s.followed|
        ensures t.followed[i].filled == s.followed[i].filled && t.followed[i].Key() == s.followed[i].Key()
        ensures t.followed[i].kind == s.followed[i].kind
      {
        CancelAllKeeps(AliveAt(u.alive, o.Book()), u.followed, ref, o, Reference.Clip(shares, o.qty),
                       Displayed(u.levels, o.Key()), i);
      }
    }
    AddsNone(s, t, ts, k, m);
  }

  lemma AddAdds(s: State, ref: nat, o: Resting, ts: nat, k: Kind, m: Model)
    ensures Adds(s, AddOrder(s, ref, o, ts), ts, k, m)
  {
    hide KindOf, Shifted;
    var t := AddOrder(s, ref, o, ts);
    AccountsNone(s.followed, s.followed, ts, k, m);
    assert t.followed[..|s.followed|] == s.followed;
    assert t.fills[|s.fills|..] == [];
  }

  lemma HiddenAdds(s: State, loc: nat, px: int, qty: int, ts: nat, k: Kind, m: Model)
    ensures Adds(s, HiddenTrade(s, loc, px, qty, ts), ts, k, m)
  {
    hide PrintAll, AccountsAll, Adds;
    var (fs, fills) := PrintAll(AliveAt(s.alive, BookKey(loc, Buy)), s.followed, px, qty * SCALE, ts);
    var (gs, more) := PrintAll(AliveAt(s.alive, BookKey(loc, Sell)), fs, px, qty * SCALE, ts);
    PrintAllAccounts(AliveAt(s.alive, BookKey(loc, Buy)), s.followed, px, qty * SCALE, ts, k, m);
    PrintAllAccounts(AliveAt(s.alive, BookKey(loc, Sell)), fs, px, qty * SCALE, ts, k, m);
    AccountsMore(fills, more, s.followed, fs, gs, ts, k, m);
    assert s.fills + fills + more == s.fills + (fills + more);
    AddsMore(s, HiddenTrade(s, loc, px, qty, ts), fills + more, ts, k, m);
  }

  lemma ReplaceAdds(s: State, u: State, t: State, ts: nat, k: Kind, m: Model)
    requires Adds(s, u, ts, k, m) && Adds(u, t, ts, k, m) && |u.followed| == |s.followed| && u.fills == s.fills
    ensures Adds(s, t, ts, k, m)
  {
    hide AccountsAll;
    var fs := t.followed[..|s.followed|];
    assert u.followed[..|s.followed|] == u.followed;
    assert u.fills[|s.fills|..] == [];
    AccountsMore([], t.fills[|s.fills|..], s.followed, u.followed, fs, ts, k, m);
    assert [] + t.fills[|s.fills|..] == t.fills[|s.fills|..];
  }

  /** One message, well formed or not: its entries are its own, and they account for what was filled. */
  lemma StepAdds(s: State, hidden: bool, msg: Message, k: Kind, m: Model)
    ensures Adds(s, Step(s, hidden, msg), msg.ts, k, m)
  {
    hide Adds, Execute, Cancel, AddOrder, HiddenTrade;
    match msg
    case Add(loc, ts, ref, side, qty, px) => AddAdds(s, ref, Resting(loc, side, px, qty), ts, k, m);
    case Executed(_, ts, ref, qty) => ExecuteAdds(s, ref, qty, None, true, ts, k, m);
    case ExecutedAt(_, ts, ref, qty, printable, px) => ExecuteAdds(s, ref, qty, Some(px), printable, ts, k, m);
    case Reduced(_, ts, ref, qty) => CancelAdds(s, ref, qty, ts, k, m);
    case Deleted(_, ts, ref) => CancelAdds(s, ref, 0, ts, k, m);
    case Replaced(loc, ts, ref, newRef, qty, px) =>
      if ref in s.orders {
        var u, o := Cancel(s, ref, 0), Resting(loc, s.orders[ref].side, px, qty);
        CancelAdds(s, ref, 0, ts, k, m);
        AddAdds(u, newRef, o, ts, k, m);
        ReplaceAdds(s, u, AddOrder(u, newRef, o, ts), ts, k, m);
      } else {
        AddsNone(s, s, ts, k, m);
      }
    case Trade(loc, ts, qty, px) => HiddenAdds(s, loc, px, qty, ts, k, m); AddsNone(s, s, ts, k, m);
    case Other(_, ts) => AddsNone(s, s, ts, k, m);
  }

  // ---- Whole runs -----------------------------------------------------------------------------------------

  lemma {:induction false} FilledNew(fs: seq<Followed>, n: nat, k: Kind, m: Model)
    requires n <= |fs| && forall i :: n <= i < |fs| ==> Own(fs[i], k, m) == 0
    ensures Filled(fs, k, m) == Filled(fs[..n], k, m)
  {
    if n < |fs| {
      FilledNew(fs[..|fs| - 1], n, k, m);
      assert fs[..|fs| - 1][..n] == fs[..n];
    } else {
      assert fs[..n] == fs;
    }
  }

  lemma {:induction false} ListCovers(hidden: bool, ms: seq<Message>, k: Kind, m: Model)
    ensures var s := Replay(START, hidden, ms); Covers(s.fills, Filled(s.followed, k, m), k, m)
    decreases |ms|
  {
    hide Step, Covers;
    if ms == [] {
      assert Covers([], 0, k, m) by { NothingCovers(k, m); }
    } else {
      var s, msg := Replay(START, hidden, ms[..|ms| - 1]), ms[|ms| - 1];
      var t := Step(s, hidden, msg);
      ListCovers(hidden, ms[..|ms| - 1], k, m);
      StepAdds(s, hidden, msg, k, m);
      var n, more := |s.followed|, t.fills[|s.fills|..];
      FilledNew(t.followed, n, k, m);
      CoversJoin(s.fills, more, Filled(s.followed, k, m), Filled(t.followed[..n], k, m) - Filled(s.followed, k, m), k,
          m);
      assert s.fills + more == t.fills;
    }
  }

  lemma NothingCovers(k: Kind, m: Model)
    ensures Covers([], 0, k, m)
  {
  }

  /** The entry was made by some message of the stream for some followed order. */
  ghost predicate Accounted(x: Fill, ms: seq<Message>, fs: seq<Followed>) {
    (exists n :: 0 <= n < |ms| && x.ts == ms[n].ts) && exists i :: 0 <= i < |fs| && Of(x, fs[i])
  }

  lemma StillAccounted(x: Fill, ms: seq<Message>, fs: seq<Followed>, gs: seq<Followed>)
    requires ms != [] && |fs| <= |gs| && SameOrders(fs, gs[..|fs|])
    requires Accounted(x, ms[..|ms| - 1], fs) || x.ts == ms[|ms| - 1].ts
    requires exists i :: 0 <= i < |fs| && Of(x, fs[i])
    ensures Accounted(x, ms, gs)
  {
    var i :| 0 <= i < |fs| && Of(x, fs[i]);
    assert gs[..|fs|][i] == gs[i] && gs[i].Key() == fs[i].Key() && Of(x, gs[i]);
    if Accounted(x, ms[..|ms| - 1], fs) {
      var n :| 0 <= n < |ms| - 1 && x.ts == ms[..|ms| - 1][n].ts;
      assert x.ts == ms[n].ts;
    }
  }

  lemma {:induction false} EntriesAccounted(hidden: bool, ms: seq<Message>, j: nat)
    requires j < |Replay(START, hidden, ms).fills|
    ensures var s := Replay(START, hidden, ms); Accounted(s.fills[j], ms, s.followed)
    decreases |ms|
  {
    hide Step, Of, Covers;
    if ms != [] {
      var s, msg := Replay(START, hidden, ms[..|ms| - 1]), ms[|ms| - 1];
      var t := Step(s, hidden, msg);
      StepAdds(s, hidden, msg, 0, 0);
      if j < |s.fills| {
        EntriesAccounted(hidden, ms[..|ms| - 1], j);
        assert s.fills[j] == t.fills[j];
      } else {
        assert t.fills[|s.fills|..][j - |s.fills|] == t.fills[j];
      }
      StillAccounted(t.fills[j], ms, s.followed, t.followed);
    }
  }

  lemma {:induction false} FinishKeepsList(s: State, n: nat)
    requires n <= |s.followed|
    ensures var t := FinishAlive(s, n);
            && t.fills == s.fills && SameOrders(s.followed, t.followed)
            && forall i :: 0 <= i < |s.followed| ==> t.followed[i].filled == s.followed[i].filled
  {
    hide TallyOrder;
    if n > 0 {
      FinishKeepsList(s, n - 1);
    }
  }

  /**
    The scorer's fill list on any stream: every entry carries the stock, side, price and kind of a followed order
    and the time of a message, and a model's entries add up to what it filled, less than a share short each.
   */
  lemma ListInScore(hidden: bool, ms: seq<Message>, k: Kind, m: Model)
    ensures var s := Score(hidden, ms);
            && FillSum(s.fills, k, m) * SCALE <= Filled(s.followed, k, m)
            && Filled(s.followed, k, m) <= FillSum(s.fills, k, m) * SCALE + FillCount(s.fills, k, m) * (SCALE - 1)
            && forall j :: 0 <= j < |s.fills| ==> Accounted(s.fills[j], ms, s.followed)
  {
    hide Replay, FinishAlive, Accounted, Of;
    var r, s := Replay(START, hidden, ms), Score(hidden, ms);
    FinishKeepsList(r, |r.followed|);
    ListCovers(hidden, ms, k, m);
    FilledSame(r.followed, s.followed, k, m);
    forall j | 0 <= j < |s.fills| ensures Accounted(s.fills[j], ms, s.followed) {
      EntriesAccounted(hidden, ms, j);
      FinishedAccounted(s.fills[j], ms, r.followed, s.followed);
    }
  }

  lemma FinishedAccounted(x: Fill, ms: seq<Message>, fs: seq<Followed>, gs: seq<Followed>)
    requires Accounted(x, ms, fs) && SameOrders(fs, gs)
    ensures Accounted(x, ms, gs)
  {
    var i :| 0 <= i < |fs| && Of(x, fs[i]);
    assert gs[i].Key() == fs[i].Key() && Of(x, gs[i]);
  }
}
