/** The scorer's tallies and its fill list count every followed order exactly once. */
module QueueTallies {
  import opened Itch
  import opened QueueRules
  import opened QueueTruth
  import opened Wrappers
  import opened Sequences
  import opened QueueFollower
  import opened QueueSafety
  import opened QueueSound
  import Reference = ReferenceBook

  type Model = m: nat | m <= L3

  /** One number of a tally, and (Booked) what the fill list says of the true or the L3 fills. */
  datatype Cell =
    | Orders | FilledTrue | QtyTrue
    | Both(m: Model) | TruthOnly(m: Model) | ModelOnly(m: Model) | QtyModel(m: Model)
    | Booked(truth: bool)

  function One(b: bool): int { if b then 1 else 0 }

  /** What a finished order adds to a cell. */
  function Merit(f: Followed, c: Cell): int {
    var truth := f.filledTrue > 0;
    match c
    case Orders => 1
    case FilledTrue => One(truth)
    case QtyTrue => f.filledTrue
    case Both(m) => One(truth && f.filled[m] > 0)
    case TruthOnly(m) => One(truth && f.filled[m] <= 0)
    case ModelOnly(m) => One(!truth && f.filled[m] > 0)
    case QtyModel(m) => f.filled[m]
    case Booked(t) => if t then f.filledTrue * SCALE else f.filled[L3]
  }

  /** Tallies count the orders of one kind that are finished; fills are booked while they live. */
  function Worth(f: Followed, k: Kind, c: Cell): int {
    if f.kind == k && (c.Booked? || !f.alive) then Merit(f, c) else 0
  }

  ghost function Total(fs: seq<Followed>, k: Kind, c: Cell): int {
    if fs == [] then 0 else Total(fs[..|fs| - 1], k, c) + Worth(fs[|fs| - 1], k, c)
  }

  lemma {:induction false} TotalUpdate(fs: seq<Followed>, i: nat, g: Followed, k: Kind, c: Cell)
    requires i < |fs|
    ensures Total(fs[i := g], k, c) == Total(fs, k, c) - Worth(fs[i], k, c) + Worth(g, k, c)
  {
    var n := |fs| - 1;
    if i < n {
      TotalUpdate(fs[..n], i, g, k, c);
      assert fs[i := g][..n] == fs[..n][i := g];
    } else {
      assert fs[i := g][..n] == fs[..n];
    }
  }

  lemma {:induction false} TotalSame(fs: seq<Followed>, gs: seq<Followed>, k: Kind, c: Cell)
    requires |fs| == |gs|
    requires forall i :: 0 <= i < |fs| ==> Worth(fs[i], k, c) == Worth(gs[i], k, c)
    ensures Total(fs, k, c) == Total(gs, k, c)
  {
    if fs != [] {
      TotalSame(fs[..|fs| - 1], gs[..|gs| - 1], k, c);
    }
  }

  // ---- The tallies ---------------------------------------------------------------------------

  function Read(t: Tally, c: Cell): int
    requires !c.Booked?
  {
    match c
    case Orders => t.orders
    case FilledTrue => t.filledTrue
    case QtyTrue => t.qtyTrue
    case Both(m) => t.both[m]
    case TruthOnly(m) => t.truthOnly[m]
    case ModelOnly(m) => t.modelOnly[m]
    case QtyModel(m) => t.qtyModel[m]
  }

  predicate PerModel(c: Cell) { c.Both? || c.TruthOnly? || c.ModelOnly? || c.QtyModel? }

  lemma {:induction false} TallyModelsRead(t: Tally, f: Followed, n: nat, c: Cell)
    requires n <= 6 && !c.Booked?
    ensures Read(TallyModels(t, f, n), c) == Read(t, c) + if PerModel(c) && c.m < n then Merit(f, c) else 0
  {
    if n > 0 {
      TallyModelsRead(t, f, n - 1, c);
    }
  }

  /** Finishing an order adds its merit to every cell of its tally. */
  lemma TallyOrderRead(t: Tally, f: Followed, c: Cell)
    requires !c.Booked?
    ensures Read(TallyOrder(t, f), c) == Read(t, c) + Merit(f, c)
  {
    TallyModelsRead(t.(orders := t.orders + 1,
                       filledTrue := t.filledTrue + if f.filledTrue > 0 then 1 else 0,
                       qtyTrue := t.qtyTrue + f.filledTrue), f, 6, c);
  }

  ghost predicate TallyExact(tally: Tallies, fs: seq<Followed>) {
    forall k: Kind, c: Cell :: !c.Booked? ==> Read(tally[k], c) == Total(fs, k, c)
  }

  // ---- The fill list -------------------------------------------------------------------------

  /** The shares of one kind's fills by one model. */
  ghost function FillSum(fills: seq<Fill>, k: Kind, model: nat): int {
    if fills == [] then 0
    else
      var f := fills[|fills| - 1];
      FillSum(fills[..|fills| - 1], k, model) + if f.kind == k && f.model == model then f.qty else 0
  }

  lemma {:induction false} FillSumJoin(a: seq<Fill>, b: seq<Fill>, k: Kind, model: nat)
    ensures FillSum(a + b, k, model) == FillSum(a, k, model) + FillSum(b, k, model)
    decreases |b|
  {
    if b == [] {
      assert a + b == a;
    } else {
      assert (a + b)[..|a + b| - 1] == a + b[..|b| - 1];
      FillSumJoin(a, b[..|b| - 1], k, model);
    }
  }

  function ModelOf(truth: bool): nat { if truth then TRUTH else L3 }

  /** The true fills and the L3 fills in the list add up to what the followers booked. */
  ghost predicate FillsExact(fills: seq<Fill>, fs: seq<Followed>) {
    forall k: Kind, truth: bool :: FillSum(fills, k, ModelOf(truth)) * SCALE == Total(fs, k, Booked(truth))
  }

  /** `fills` explains how a follower went from `f` to `g`. */
  ghost predicate Explains(fills: seq<Fill>, f: Followed, g: Followed, k: Kind, truth: bool) {
    FillSum(fills, k, ModelOf(truth)) * SCALE == Worth(g, k, Booked(truth)) - Worth(f, k, Booked(truth))
  }

  /** A print only makes L2 fills. */
  lemma {:induction false} PrintFills(f: Followed, n: nat, px: int, qty: int, aggressor: Side, ts: nat, k: Kind,
                                      truth: bool)
    requires n <= L2_MODELS
    ensures var (g, fills) := PrintModels(f, n, px, qty, aggressor, ts);
            && FillSum(fills, k, ModelOf(truth)) == 0
            && SameIdentity(f, g) && f.filledTrue == g.filledTrue && f.filled[L3] == g.filled[L3]
  {
    if n > 0 {
      var (g, fills) := PrintModels(f, n - 1, px, qty, aggressor, ts);
      PrintFills(f, n - 1, px, qty, aggressor, ts, k, truth);
      FillSumJoin(fills, PrintModel(g, n - 1, px, qty, aggressor, ts).1, k, ModelOf(truth));
    }
  }

  lemma L3Fill(f: Followed, q: int, ts: nat, k: Kind, truth: bool)
    requires q % SCALE == 0 && q >= 0
    ensures var (g, fills) := FillModel(f, L3, q, ts); Explains(fills, f, g, k, truth)
  {
    assert q / SCALE * SCALE == q;
  }

  lemma SeenExplains(f: Followed, e: Execution, k: Kind, truth: bool)
    requires Good(f) && e.q >= 0
    ensures var (g, fills) := ExecutionSeen(f, e); Explains(fills, f, g, k, truth)
  {
    if f.ref != e.ref {
      var (h, fills) := ExecutionShown(f, e);
      PrintFills(f, L2_MODELS, e.px, e.q * SCALE, e.o.side.Opposite(), e.ts, k, truth);
      ReachedExplains(h, e, k, truth);
      FillSumJoin(fills, QueueReached(h, e).1, k, ModelOf(truth));
    }
  }

  /** The L3 rule fills whole shares. */
  lemma WholeFill(f: Followed, q: int)
    requires f.filled[L3] <= f.qty0 * SCALE && f.filled[L3] % SCALE == 0 && q >= 0
    ensures var x := Min(q * SCALE, f.qty0 * SCALE - f.filled[L3]); x >= 0 && x % SCALE == 0
  {
    assert f.filled[L3] == f.filled[L3] / SCALE * SCALE;
    assert (f.qty0 - f.filled[L3] / SCALE) * SCALE % SCALE == 0;
  }

  lemma ExplainsJoin(a: seq<Fill>, b: seq<Fill>, f: Followed, g: Followed, h: Followed, k: Kind, truth: bool)
    requires Explains(a, f, g, k, truth) && Explains(b, g, h, k, truth)
    ensures Explains(a + b, f, h, k, truth)
  {
    FillSumJoin(a, b, k, ModelOf(truth));
  }

  lemma ReachedExplains(f: Followed, e: Execution, k: Kind, truth: bool)
    requires f.filled[L3] <= f.qty0 * SCALE && f.filled[L3] % SCALE == 0 && e.q >= 0
    ensures var (g, fills) := QueueReached(f, e); Explains(fills, f, g, k, truth)
  {
    WholeFill(f, e.q);
    L3Fill(f.(ahead := f.ahead[L3 := 0]), Min(e.q * SCALE, f.qty0 * SCALE - f.filled[L3]), e.ts, k, truth);
  }

  lemma OwnExplains(f: Followed, e: Execution, k: Kind, truth: bool)
    requires Good(f) && e.q >= 0
    ensures var (g, fills) := OwnExecution(f, e); Explains(fills, f, g, k, truth)
  {
    var h, fills := OwnShown(f, e).0, OwnShown(f, e).1;
    OwnShownExplains(f, e, k, truth);
    WholeFill(h, e.q);
    var h' := h.(ahead := h.ahead[L3 := 0]);
    var q := Min(e.q * SCALE, h.qty0 * SCALE - h.filled[L3]);
    L3Fill(h', q, e.ts, k, truth);
    ExplainsJoin(fills, FillModel(h', L3, q, e.ts).1, f, h', FillModel(h', L3, q, e.ts).0, k, truth);
  }

  lemma OwnShownExplains(f: Followed, e: Execution, k: Kind, truth: bool)
    ensures var (h, fills) := OwnShown(f, e);
            Explains(fills, f, h, k, truth) && h.filled[L3] == f.filled[L3] && h.qty0 == f.qty0
  {
    var own, g := [Fill(e.ts, f.px, e.q, f.loc, f.side, TRUTH, f.kind)], f.(filledTrue := f.filledTrue + e.q);
    TruthExplains(f, e, k, truth);
    PrintFills(g, L2_MODELS, e.px, e.q * SCALE, e.o.side.Opposite(), e.ts, k, truth);
    if e.printable {
      var (h, fills) := PrintModels(g, L2_MODELS, e.px, e.q * SCALE, e.o.side.Opposite(), e.ts);
      ExplainsJoin(own, fills, f, g, h, k, truth);
    }
  }

  lemma TruthExplains(f: Followed, e: Execution, k: Kind, truth: bool)
    ensures var truly := [Fill(e.ts, f.px, e.q, f.loc, f.side, TRUTH, f.kind)];
            Explains(truly, f, f.(filledTrue := f.filledTrue + e.q), k, truth)
  {
    var own := [Fill(e.ts, f.px, e.q, f.loc, f.side, TRUTH, f.kind)];
    assert own[..0] == [];
  }

  lemma {:induction false} ExecuteAllFills(list: seq<nat>, fs: seq<Followed>, e: Execution, k: Kind, truth: bool)
    requires NoDup(list) && e.q >= 0
    requires forall i :: 0 <= i < |fs| ==> Good(fs[i])
    ensures var (gs, fills) := ExecuteAll(list, fs, e);
            FillSum(fills, k, ModelOf(truth)) * SCALE == Total(gs, k, Booked(truth)) - Total(fs, k, Booked(truth))
    decreases |list|
  {
    if list != [] {
      SplitLast(list);
      var rest, i := list[..|list| - 1], list[|list| - 1];
      var (gs, fills) := ExecuteAll(rest, fs, e);
      ExecuteAllFills(rest, fs, e, k, truth);
      if i < |gs| {
        ExecuteAllAt(rest, fs, e, i);
        SeenExplains(gs[i], e, k, truth);
        var (g, more) := ExecutionSeen(gs[i], e);
        FillSumJoin(fills, more, k, ModelOf(truth));
        TotalUpdate(gs, i, g, k, Booked(truth));
      }
    }
  }

  lemma {:induction false} PrintAllFills(list: seq<nat>, fs: seq<Followed>, px: int, qty: int, ts: nat, k: Kind,
                                         truth: bool)
    ensures FillSum(PrintAll(list, fs, px, qty, ts).1, k, ModelOf(truth)) == 0
    decreases |list|
  {
    if list != [] {
      var rest, i := list[..|list| - 1], list[|list| - 1];
      var (gs, fills) := PrintAll(rest, fs, px, qty, ts);
      PrintAllFills(rest, fs, px, qty, ts, k, truth);
      if i < |gs| {
        PrintFills(gs[i], L2_MODELS, px, qty, Buy, ts, k, truth);
        FillSumJoin(fills, PrintModels(gs[i], L2_MODELS, px, qty, Buy, ts).1, k, ModelOf(truth));
      }
    }
  }

  // ---- Every accepted message keeps the counts exact --------------------------------------------

  ghost predicate Counted(s: State) { TallyExact(s.tally, s.followed) && FillsExact(s.fills, s.followed) }

  /** Two follower lists that every cell counts alike. */
  ghost predicate Alike(fs: seq<Followed>, gs: seq<Followed>) {
    |fs| == |gs| && forall i, k: Kind, c: Cell :: 0 <= i < |fs| ==> Worth(fs[i], k, c) == Worth(gs[i], k, c)
  }

  lemma CountedAlike(s: State, t: State)
    requires Counted(s) && Alike(s.followed, t.followed) && t.tally == s.tally && t.fills == s.fills
    ensures Counted(t)
  {
    forall k: Kind, c: Cell ensures Total(s.followed, k, c) == Total(t.followed, k, c) {
      TotalSame(s.followed, t.followed, k, c);
    }
  }

  lemma FinishKeepsCounted(s: State, i: nat)
    requires Counted(s) && i < |s.followed| && s.followed[i].alive
    ensures Counted(Finish(s, i))
  {
    var f, t := s.followed[i], Finish(s, i);
    forall k: Kind, c: Cell
      ensures Total(t.followed, k, c) == Total(s.followed, k, c) + if k == f.kind && !c.Booked? then Merit(f, c) else 0
    {
      TotalUpdate(s.followed, i, f.(alive := false), k, c);
    }
    forall k: Kind, c: Cell | !c.Booked? ensures Read(t.tally[k], c) == Total(t.followed, k, c) {
      TallyOrderRead(s.tally[f.kind], f, c);
    }
  }

  lemma CancelKeepsCounted(s: State, ref: nat, shares: int)
    requires Sound(s) && Counted(s)
    ensures Counted(Cancel(s, ref, shares))
  {
    hide CancelSeen, CancelAll;
    if ref in s.orders {
      var o, t := s.orders[ref], Cancel(s, ref, shares);
      var u := FinishIf(s, o.followed);
      if o.followed.Some? {
        FinishKeepsCounted(s, o.followed.value);
      }
      CancelShape(s, ref, shares);
      forall i, k: Kind, c: Cell | 0 <= i < |s.followed|
        ensures Worth(u.followed[i], k, c) == Worth(t.followed[i], k, c)
      {
        assert t.followed[i] == AfterCancel(s, ref, Reference.Clip(shares, o.qty), i);
        CancelKeepsIdentity(s.followed[i], ref, o, Reference.Clip(shares, o.qty), Displayed(s.levels, o.Key()));
      }
      CountedAlike(u, t);
    }
  }

  lemma TouchedAlike(s: State, e: Execution, i: nat, k: Kind, c: Cell)
    requires i < |s.followed| && !c.Booked?
    requires e.o.followed == Some(i) ==> s.followed[i].alive
    ensures Worth(Touched(s, e, i), k, c) == Worth(s.followed[i], k, c)
  {
    SeenKeepsIdentity(s.followed[i], e);
    OwnKeepsIdentity(s.followed[i], e);
  }

  lemma OnExecuteKeepsCounted(s: State, e: Execution)
    requires Sound(s) && Counted(s) && e.ref in s.orders && e.o == s.orders[e.ref] && e.q >= 0
    ensures Counted(OnExecute(s, e))
  {
    var t := OnExecute(s, e);
    forall k: Kind, c: Cell | !c.Booked? ensures Total(t.followed, k, c) == Total(s.followed, k, c) {
      forall i | 0 <= i < |s.followed| ensures Worth(s.followed[i], k, c) == Worth(t.followed[i], k, c) {
        OnExecuteAt(s, e, i);
        TouchedAlike(s, e, i, k, c);
      }
      TotalSame(s.followed, t.followed, k, c);
    }
    forall k: Kind, truth: bool
      ensures FillSum(t.fills, k, ModelOf(truth)) * SCALE == Total(t.followed, k, Booked(truth))
    {
      OnExecuteFills(s, e, k, truth);
    }
  }

  lemma OnExecuteFills(s: State, e: Execution, k: Kind, truth: bool)
    requires Sound(s) && Counted(s) && e.ref in s.orders && e.o == s.orders[e.ref] && e.q >= 0
    ensures var t := OnExecute(s, e); FillSum(t.fills, k, ModelOf(truth)) * SCALE == Total(t.followed, k, Booked(truth))
  {
    var list := AliveAt(s.alive, e.o.Book());
    var (fs, fills) := ExecuteAll(list, s.followed, e);
    forall i | 0 <= i < |s.followed| ensures Good(s.followed[i]) { assert Exactly(s, i); }
    ExecuteAllFills(list, s.followed, e, k, truth);
    FillSumJoin(s.fills, fills, k, ModelOf(truth));
    if e.o.followed.Some? {
      var i := e.o.followed.value;
      ExecuteAllAt(list, s.followed, e, i);
      assert fs[i] == s.followed[i];
      OwnExplains(fs[i], e, k, truth);
      var (g, own) := OwnExecution(fs[i], e);
      TotalUpdate(fs, i, g, k, Booked(truth));
      FillSumJoin(s.fills + fills, own, k, ModelOf(truth));
    }
  }

  lemma ExecuteKeepsCounted(s: State, ref: nat, shares: int, execPx: Option<int>, printable: bool, ts: nat)
    requires Sound(s) && Counted(s) && shares >= 0
    ensures Counted(Execute(s, ref, shares, execPx, printable, ts))
  {
    hide OnExecute, ExecutionSeen, OwnExecution, TallyOrder, FillsExact, TallyExact;
    if ref in s.orders {
      var e := ExecutionOf(s, ref, shares, execPx, printable, ts);
      var t := OnExecute(s, e);
      Positive(s, ref);
      OnExecuteKeepsCounted(s, e);
      if e.o.followed.Some? && e.q == e.o.qty {
        OnExecuteAt(s, e, e.o.followed.value);
        SeenKeepsIdentity(s.followed[e.o.followed.value], e);
        OwnKeepsIdentity(s.followed[e.o.followed.value], e);
        FinishKeepsCounted(t.(levels := Shifted(t.levels, e.o.Key(), -e.q)), e.o.followed.value);
      }
    }
  }

  lemma AddKeepsCounted(s: State, ref: nat, o: Resting, ts: nat)
    requires Counted(s)
    ensures Counted(AddOrder(s, ref, o, ts))
  {
    var t := AddOrder(s, ref, o, ts);
    if |t.followed| == |s.followed| + 1 {
      assert t.followed[..|s.followed|] == s.followed;
    }
  }

  lemma HiddenFills(s: State, loc: nat, px: int, qty: nat, ts: nat, k: Kind, truth: bool)
    ensures FillSum(HiddenTrade(s, loc, px, qty, ts).fills, k, ModelOf(truth)) == FillSum(s.fills, k, ModelOf(truth))
  {
    var (fs, fills) := PrintAll(AliveAt(s.alive, BookKey(loc, Buy)), s.followed, px, qty * SCALE, ts);
    var more := PrintAll(AliveAt(s.alive, BookKey(loc, Sell)), fs, px, qty * SCALE, ts).1;
    PrintAllFills(AliveAt(s.alive, BookKey(loc, Buy)), s.followed, px, qty * SCALE, ts, k, truth);
    PrintAllFills(AliveAt(s.alive, BookKey(loc, Sell)), fs, px, qty * SCALE, ts, k, truth);
    FillSumJoin(s.fills, fills, k, ModelOf(truth));
    FillSumJoin(s.fills + fills, more, k, ModelOf(truth));
  }

  lemma HiddenAlike(s: State, loc: nat, px: int, qty: nat, ts: nat)
    requires Sound(s)
    ensures Alike(s.followed, HiddenTrade(s, loc, px, qty, ts).followed)
  {
    hide PrintModels, PrintAll;
    var t := HiddenTrade(s, loc, px, qty, ts);
    forall i, k: Kind, c: Cell | 0 <= i < |s.followed|
      ensures Worth(s.followed[i], k, c) == Worth(t.followed[i], k, c)
    {
      HiddenShape(s, loc, px, qty, ts, i);
      PrintFills(s.followed[i], L2_MODELS, px, qty * SCALE, Buy, ts, k, true);
    }
  }

  lemma HiddenKeepsCounted(s: State, loc: nat, px: int, qty: nat, ts: nat)
    requires Sound(s) && Counted(s)
    ensures Counted(HiddenTrade(s, loc, px, qty, ts))
  {
    var t := HiddenTrade(s, loc, px, qty, ts);
    HiddenAlike(s, loc, px, qty, ts);
    CountedAlike(s, t.(fills := s.fills));
    forall k: Kind, truth: bool ensures FillSum(t.fills, k, ModelOf(truth)) == FillSum(s.fills, k, ModelOf(truth)) {
      HiddenFills(s, loc, px, qty, ts, k, truth);
    }
  }

  lemma StepKeepsCounted(s: State, hidden: bool, m: Message)
    requires Sound(s) && Counted(s) && Accepts(Plain(s.orders), m)
    ensures Counted(Step(s, hidden, m))
  {
    match m
    case Add(loc, ts, ref, side, qty, px) => AddKeepsCounted(s, ref, Resting(loc, side, px, qty), ts);
    case Executed(_, ts, ref, qty) => ExecuteKeepsCounted(s, ref, qty, None, true, ts);
    case ExecutedAt(_, ts, ref, qty, printable, px) => ExecuteKeepsCounted(s, ref, qty, Some(px), printable, ts);
    case Reduced(_, _, ref, qty) => CancelKeepsCounted(s, ref, qty);
    case Deleted(_, _, ref) => CancelKeepsCounted(s, ref, 0);
    case Replaced(loc, ts, ref, newRef, qty, px) =>
      if ref in s.orders {
        CancelKeepsCounted(s, ref, 0);
        AddKeepsCounted(Cancel(s, ref, 0), newRef, Resting(loc, s.orders[ref].side, px, qty), ts);
      }
    case Trade(loc, ts, qty, px) => HiddenKeepsCounted(s, loc, px, qty, ts);
    case Other(_, _) =>
  }
}
