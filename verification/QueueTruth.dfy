/**
  The queue-truth scorer (bench/queue_truth.cpp) as a state machine over ITCH messages: the book,
  the followed orders with their place in every queue model, the fills and the tallies.

  Every function here is total: it says what the program does on any message stream, well formed
  or not. Qty values are raw fixed point (QueueRules.SCALE); share counts are plain integers.
 */
module QueueTruth {
  import opened Itch
  import opened QueueRules
  import opened Wrappers
  import Reference = ReferenceBook

  const L2_MODELS := 5
  const L3 := 5     // model index of the order-by-order rule
  const TRUTH := 6  // model index of the true fills
  const CONSERVATISM: seq<int> := [0, 2_500, 5_000, 7_500, 10_000]

  /** One number for each of the five L2 models and the L3 rule. */
  type Models = s: seq<int> | |s| == 6 witness [0, 0, 0, 0, 0, 0]

  const NONE: Models := [0, 0, 0, 0, 0, 0]

  type Kind = k: nat | k < 3

  datatype Order = Order(loc: nat, side: Side, px: int, qty: int, prio: nat, followed: Option<nat>) {
    function Resting(): Resting { Itch.Resting(loc, side, px, qty) }
    function Book(): BookKey { BookKey(loc, side) }
    function Key(): LevelKey { LevelKey(loc, side, px) }
  }

  datatype Followed = Followed(
    ref: nat, prio: nat, loc: nat, side: Side, px: int, kind: Kind,
    qty0: int, left: int, filledTrue: int, ahead: Models, filled: Models, alive: bool)
  {
    function Book(): BookKey { BookKey(loc, side) }
    function Key(): LevelKey { LevelKey(loc, side, px) }
  }

  datatype Fill = Fill(ts: nat, px: int, qty: int, loc: nat, side: Side, model: nat, kind: Kind)

  datatype Tally = Tally(orders: nat, filledTrue: nat, qtyTrue: int,
                         both: Models, truthOnly: Models, modelOnly: Models, qtyModel: Models)

  const ZERO := Tally(0, 0, 0, NONE, NONE, NONE, NONE)

  type Tallies = s: seq<Tally> | |s| == 3 witness [ZERO, ZERO, ZERO]

  datatype State = State(orders: map<nat, Order>, levels: Levels, alive: map<BookKey, seq<nat>>,
                         followed: seq<Followed>, fills: seq<Fill>, tally: Tallies, prio: nat)

  const START := State(map[], map[], map[], [], [], [ZERO, ZERO, ZERO], 0)

  function AliveAt(alive: map<BookKey, seq<nat>>, b: BookKey): seq<nat> {
    if b in alive then alive[b] else []
  }

  /** The book without the bookkeeping of the followers. */
  function Plain(orders: map<nat, Order>): map<nat, Resting> {
    map r | r in orders :: orders[r].Resting()
  }

  // ---- One followed order -------------------------------------------------------------------

  function FillModel(f: Followed, m: nat, q: int, ts: nat): (Followed, seq<Fill>)
    requires m <= L3
  {
    if q <= 0 then (f, [])
    else (f.(filled := f.filled[m := f.filled[m] + q]),
          [Fill(ts, f.px, q / SCALE, f.loc, f.side, m, f.kind)])
  }

  /** A print seen by one L2 model. */
  function PrintModel(f: Followed, m: nat, px: int, qty: int, aggressor: Side, ts: nat): (Followed, seq<Fill>)
    requires m < L2_MODELS
  {
    var (ahead, fill) :=
      AfterTrade(f.ahead[m], f.side, f.px, f.qty0 * SCALE - f.filled[m], px, qty, aggressor);
    FillModel(f.(ahead := f.ahead[m := ahead]), m, fill, ts)
  }

  /** A print seen by the first `n` L2 models, in order. */
  function PrintModels(f: Followed, n: nat, px: int, qty: int, aggressor: Side, ts: nat): (Followed, seq<Fill>)
    requires n <= L2_MODELS
  {
    if n == 0 then (f, [])
    else
      var (g, fills) := PrintModels(f, n - 1, px, qty, aggressor, ts);
      var (h, more) := PrintModel(g, n - 1, px, qty, aggressor, ts);
      (h, fills + more)
  }

  /** Others' quantity at the order's price went from `was` to `now` without a print. */
  function Shrunk(f: Followed, was: int, now: int): Followed {
    f.(ahead := seq(6, m requires 0 <= m < 6 =>
      if m < L2_MODELS then AfterLevelChange(f.ahead[m], was * SCALE, now * SCALE, CONSERVATISM[m])
      else f.ahead[m]))
  }

  /** What a cancel of `q` of order `o` (reference `ref`) means for one follower; `before`: the level. */
  function CancelSeen(f: Followed, ref: nat, o: Order, q: int, before: int): Followed {
    if f.ref == ref || f.px != o.px then f
    else
      var g := Shrunk(f, before - f.left, before - q - f.left);
      if o.prio < f.prio then g.(ahead := g.ahead[L3 := Less(g.ahead[L3], q * SCALE)]) else g
  }

  /** An execution of `q` of order `o`. */
  datatype Execution = Execution(ref: nat, o: Order, q: int, px: int, printable: bool, ts: nat, before: int)

  function QueueReached(f: Followed, e: Execution): (Followed, seq<Fill>) {
    match ExecutionReaches(f.side, f.px, f.prio, e.o.px, e.o.prio, e.px)
    case Fills =>
      FillModel(f.(ahead := f.ahead[L3 := 0]), L3, Min(e.q * SCALE, f.qty0 * SCALE - f.filled[L3]), e.ts)
    case Ahead => (f.(ahead := f.ahead[L3 := Less(f.ahead[L3], e.q * SCALE)]), [])
    case Elsewhere => (f, [])
  }

  /** What the L2 models see of another order's execution: a print, or a level that just shrank. */
  function ExecutionShown(f: Followed, e: Execution): (Followed, seq<Fill>) {
    if e.printable then PrintModels(f, L2_MODELS, e.px, e.q * SCALE, e.o.side.Opposite(), e.ts)
    else if f.px == e.o.px then (Shrunk(f, e.before - f.left, e.before - e.q - f.left), [])
    else (f, [])
  }

  function ExecutionSeen(f: Followed, e: Execution): (Followed, seq<Fill>) {
    if f.ref == e.ref then (f, [])
    else
      var (h, fills) := ExecutionShown(f, e);
      var (r, more) := QueueReached(h, e);
      (r, fills + more)
  }

  /** The followed order's own execution is a true fill and, if printed, a print for the L2 models. */
  function OwnShown(f: Followed, e: Execution): (Followed, seq<Fill>) {
    var truth := [Fill(e.ts, f.px, e.q, f.loc, f.side, TRUTH, f.kind)];
    var g := f.(filledTrue := f.filledTrue + e.q);
    if e.printable then
      var (h, fills) := PrintModels(g, L2_MODELS, e.px, e.q * SCALE, e.o.side.Opposite(), e.ts);
      (h, truth + fills)
    else (g, truth)
  }

  /** It is also the L3 rule's fill: nothing can be ahead of an order that executes. */
  function OwnExecution(f: Followed, e: Execution): (Followed, seq<Fill>) {
    var (h, fills) := OwnShown(f, e);
    var (r, more) := FillModel(h.(ahead := h.ahead[L3 := 0]), L3,
                               Min(e.q * SCALE, h.qty0 * SCALE - h.filled[L3]), e.ts);
    (r.(left := r.left - e.q), fills + more)
  }

  // ---- All followers of one side of one book -------------------------------------------------

  function CancelAll(list: seq<nat>, fs: seq<Followed>, ref: nat, o: Order, q: int, before: int): (gs: seq<Followed>)
    ensures |gs| == |fs|
    decreases |list|
  {
    if list == [] then fs
    else
      var gs := CancelAll(list[..|list| - 1], fs, ref, o, q, before);
      var i := list[|list| - 1];
      if i < |gs| then gs[i := CancelSeen(gs[i], ref, o, q, before)] else gs
  }

  function ExecuteAll(list: seq<nat>, fs: seq<Followed>, e: Execution): (r: (seq<Followed>, seq<Fill>))
    ensures |r.0| == |fs|
    decreases |list|
  {
    if list == [] then (fs, [])
    else
      var (gs, fills) := ExecuteAll(list[..|list| - 1], fs, e);
      var i := list[|list| - 1];
      if i < |gs| then
        var (g, more) := ExecutionSeen(gs[i], e);
        (gs[i := g], fills + more)
      else (gs, fills)
  }

  function PrintAll(list: seq<nat>, fs: seq<Followed>, px: int, qty: int, ts: nat): (r: (seq<Followed>, seq<Fill>))
    ensures |r.0| == |fs|
    decreases |list|
  {
    if list == [] then (fs, [])
    else
      var (gs, fills) := PrintAll(list[..|list| - 1], fs, px, qty, ts);
      var i := list[|list| - 1];
      if i < |gs| then
        var (g, more) := PrintModels(gs[i], L2_MODELS, px, qty, Buy, ts);
        (gs[i := g], fills + more)
      else (gs, fills)
  }

  // ---- Tallies ------------------------------------------------------------------------------

  function Bump(counts: Models, m: nat, when: bool): Models
    requires m <= L3
  {
    if when then counts[m := counts[m] + 1] else counts
  }

  /** The tally after models 0..n of a finished order are counted. */
  function TallyModels(t: Tally, f: Followed, n: nat): Tally
    requires n <= 6
  {
    if n == 0 then t
    else
      var u := TallyModels(t, f, n - 1);
      var m := n - 1;
      var truth, model := f.filledTrue > 0, f.filled[m] > 0;
      Tally(u.orders, u.filledTrue, u.qtyTrue,
            Bump(u.both, m, truth && model), Bump(u.truthOnly, m, truth && !model),
            Bump(u.modelOnly, m, !truth && model), u.qtyModel[m := u.qtyModel[m] + f.filled[m]])
  }

  function TallyOrder(t: Tally, f: Followed): Tally {
    TallyModels(t.(orders := t.orders + 1,
                   filledTrue := t.filledTrue + if f.filledTrue > 0 then 1 else 0,
                   qtyTrue := t.qtyTrue + f.filledTrue), f, 6)
  }

  // ---- State changes -------------------------------------------------------------------------

  function Without(list: seq<nat>, i: nat): seq<nat> {
    if list == [] then []
    else if list[0] == i then list[1..]
    else [list[0]] + Without(list[1..], i)
  }

  /** A followed order's life ends: it leaves the alive list and is tallied. */
  function Finish(s: State, i: nat): State
    requires i < |s.followed|
  {
    var f := s.followed[i];
    s.(followed := s.followed[i := f.(alive := false)],
       alive := s.alive[f.Book() := Without(AliveAt(s.alive, f.Book()), i)],
       tally := s.tally[f.kind := TallyOrder(s.tally[f.kind], f)])
  }

  function FinishIf(s: State, link: Option<nat>): State {
    match link
    case Some(i) => if i < |s.followed| then Finish(s, i) else s
    case None => s
  }

  function OnCancel(s: State, ref: nat, o: Order, q: int): State {
    s.(followed := CancelAll(AliveAt(s.alive, o.Book()), s.followed, ref, o, q, Displayed(s.levels, o.Key())))
  }

  function Cancel(s: State, ref: nat, shares: int): State {
    if ref !in s.orders then s
    else
      var o := s.orders[ref];
      var q := Reference.Clip(shares, o.qty);
      var t := OnCancel(FinishIf(s, o.followed), ref, o, q);
      t.(levels := Shifted(t.levels, o.Key(), -q),
         orders := if o.qty == q then t.orders - {ref}
                   else t.orders[ref := o.(followed := None, qty := o.qty - q)])
  }

  function OnExecute(s: State, e: Execution): State {
    var (fs, fills) := ExecuteAll(AliveAt(s.alive, e.o.Book()), s.followed, e);
    match e.o.followed
    case Some(i) =>
      if i < |fs| then
        var (g, own) := OwnExecution(fs[i], e);
        s.(followed := fs[i := g], fills := s.fills + fills + own)
      else s.(followed := fs, fills := s.fills + fills)
    case None => s.(followed := fs, fills := s.fills + fills)
  }

  /** The execution of (at most) `shares` of a resting order, as the program sees it. */
  function ExecutionOf(s: State, ref: nat, shares: int, execPx: Option<int>, printable: bool, ts: nat): Execution
    requires ref in s.orders
  {
    var o := s.orders[ref];
    Execution(ref, o, Min(shares, o.qty), if execPx.Some? then execPx.value else o.px, printable, ts,
              Displayed(s.levels, o.Key()))
  }

  /** The executed shares leave the book, and with the last of them the order. */
  function Settle(s: State, e: Execution): State {
    var t := s.(levels := Shifted(s.levels, e.o.Key(), -e.q));
    if e.o.qty == e.q then FinishIf(t, e.o.followed).(orders := t.orders - {e.ref})
    else t.(orders := t.orders[e.ref := e.o.(qty := e.o.qty - e.q)])
  }

  function Execute(s: State, ref: nat, shares: int, execPx: Option<int>, printable: bool, ts: nat): State {
    if ref !in s.orders then s
    else
      var e := ExecutionOf(s, ref, shares, execPx, printable, ts);
      Settle(OnExecute(s, e), e)
  }

  /** Which followed kind a new order is: it joins the touch, improves it, or joins the level behind. */
  function KindOf(levels: Levels, b: BookKey, px: int, ts: nat): Option<Kind> {
    var touch := Best(levels, b, 0);
    var far := Best(levels, BookKey(b.loc, b.side.Opposite()), 0);
    if !(34_205_000_000_000 < ts < 57_595_000_000_000) || touch < 0 || far < 0 then None
    else if px == touch then Some(0)
    else if Better(b.side, px, touch) && !Better(b.side, px, far) && px != far then Some(1)
    else if px == Best(levels, b, 1) then Some(2)
    else None
  }

  function NewFollowed(ref: nat, prio: nat, o: Resting, kind: Kind, shown: int): Followed {
    Followed(ref, prio, o.loc, o.side, o.px, kind, o.qty, o.qty, 0, seq(6, _ => shown * SCALE), NONE, true)
  }

  function AddOrder(s: State, ref: nat, o: Resting, ts: nat): State {
    var b := BookKey(o.loc, o.side);
    var kind := KindOf(s.levels, b, o.px, ts);
    var prio := s.prio + 1;
    var i := |s.followed|;
    var link := if kind.Some? then Some(i) else None;
    var t := s.(prio := prio,
                orders := s.orders[ref := Order(o.loc, o.side, o.px, o.qty, prio, link)],
                levels := Shifted(s.levels, o.Key(), o.qty));
    if kind.None? then t
    else t.(followed := s.followed + [NewFollowed(ref, prio, o, kind.value, Displayed(s.levels, o.Key()))],
            alive := s.alive[b := AliveAt(s.alive, b) + [i]])
  }

  /** A hidden print reaches both sides: the feed does not say which one rested. */
  function HiddenTrade(s: State, loc: nat, px: int, qty: int, ts: nat): State {
    var (fs, fills) := PrintAll(AliveAt(s.alive, BookKey(loc, Buy)), s.followed, px, qty * SCALE, ts);
    var (gs, more) := PrintAll(AliveAt(s.alive, BookKey(loc, Sell)), fs, px, qty * SCALE, ts);
    s.(followed := gs, fills := s.fills + fills + more)
  }

  function Step(s: State, hidden: bool, m: Message): State {
    match m
    case Add(loc, ts, ref, side, qty, px) => AddOrder(s, ref, Resting(loc, side, px, qty), ts)
    case Executed(_, ts, ref, qty) => Execute(s, ref, qty, None, true, ts)
    case ExecutedAt(_, ts, ref, qty, printable, px) => Execute(s, ref, qty, Some(px), printable, ts)
    case Reduced(_, _, ref, qty) => Cancel(s, ref, qty)
    case Deleted(_, _, ref) => Cancel(s, ref, 0)
    case Replaced(loc, ts, ref, newRef, qty, px) =>
      if ref !in s.orders then s
      else AddOrder(Cancel(s, ref, 0), newRef, Resting(loc, s.orders[ref].side, px, qty), ts)
    case Trade(loc, ts, qty, px) => if hidden then HiddenTrade(s, loc, px, qty, ts) else s
    case Other(_, _) => s
  }

  function Replay(s: State, hidden: bool, ms: seq<Message>): State
    decreases |ms|
  {
    if ms == [] then s else Step(Replay(s, hidden, ms[..|ms| - 1]), hidden, ms[|ms| - 1])
  }

  /** The end of the file: the first `n` followed orders that still rest are finished. */
  function FinishAlive(s: State, n: nat): (t: State)
    requires n <= |s.followed|
    ensures |t.followed| == |s.followed|
  {
    if n == 0 then s
    else
      var t := FinishAlive(s, n - 1);
      if t.followed[n - 1].alive then Finish(t, n - 1) else t
  }

  /** A whole run over a file of messages. */
  function Score(hidden: bool, ms: seq<Message>): State {
    var s := Replay(START, hidden, ms);
    FinishAlive(s, |s.followed|)
  }

  // ---- Which orders are followed -----------------------------------------------------------------------

  /** The continuous session, five seconds in from either end. */
  predicate InSession(ts: nat) { 34_205_000_000_000 < ts < 57_595_000_000_000 }

  /** The shown prices that beat `px`. */
  function BetterThan(ps: set<int>, s: Side, px: int): set<int> { set p | p in ps && Better(s, p, px) }

  /** A shown price is determined by how many beat it. */
  lemma RankUnique(ps: set<int>, s: Side, p: int, q: int)
    requires p in ps && q in ps && |BetterThan(ps, s, p)| == |BetterThan(ps, s, q)|
    ensures p == q
  {
    if Better(s, p, q) {
      Nested(ps, s, p, q);
    } else if Better(s, q, p) {
      Nested(ps, s, q, p);
    }
  }

  lemma Nested(ps: set<int>, s: Side, p: int, q: int)
    requires p in ps && Better(s, p, q)
    ensures |BetterThan(ps, s, p)| < |BetterThan(ps, s, q)|
  {
    var a, b := BetterThan(ps, s, p), BetterThan(ps, s, q);
    assert a + {p} <= b && p !in a;
    Subset(a + {p}, b);
  }

  lemma {:induction false} Subset(a: set<int>, b: set<int>)
    requires a <= b
    ensures |a| <= |b|
    decreases |a|
  {
    assert |b| == |a| + |b - a| by { assert b == a + (b - a); }
  }

  lemma TouchIs(levels: Levels, b: BookKey)
    ensures var ps, t := Prices(levels, b), Best(levels, b, 0);
            if ps == {} then t == -1 else t in ps && forall p :: p in ps ==> AtOrBetter(b.side, t, p)
  {
  }

  lemma SecondIs(levels: Levels, b: BookKey, px: int)
    requires px >= 0
    ensures px == Best(levels, b, 1)
            <==> px in Prices(levels, b) && |BetterThan(Prices(levels, b), b.side, px)| == 1
  {
    var ps := Prices(levels, b);
    var above := BetterThan(ps, b.side, px);
    if 1 < |ps| {
      var second := Best(levels, b, 1);
      RankedIsNthBest(ps, b.side, 1);
      assert BetterThan(ps, b.side, second) == set q | q in ps && Better(b.side, q, second);
      if px in ps && |above| == 1 { RankUnique(ps, b.side, px, second); }
    } else if px in ps {
      assert above + {px} <= ps && px !in above;
      Subset(above + {px}, ps);
    }
  }

  /**
    Which orders are followed, and as what: in the session, with both sides shown, an order at the best
    price of its side (0), one strictly between the two touches (1), and one at the second best price (2).
   */
  lemma KindIs(levels: Levels, b: BookKey, px: int, ts: nat)
    requires px >= 0 && forall k :: k in levels ==> k.px >= 0
    ensures var ps, qs := Prices(levels, b), Prices(levels, BookKey(b.loc, b.side.Opposite()));
            var open := InSession(ts) && ps != {} && qs != {};
            && (KindOf(levels, b, px, ts) == Some(0) <==> open && px in ps && BetterThan(ps, b.side, px) == {})
            && (KindOf(levels, b, px, ts) == Some(1) <==>
                  && open && (forall p :: p in ps ==> Better(b.side, px, p))
                  && forall q :: q in qs ==> Better(b.side, q, px))
            && (KindOf(levels, b, px, ts) == Some(2) <==> open && px in ps && |BetterThan(ps, b.side, px)| == 1)
  {
    var far := BookKey(b.loc, b.side.Opposite());
    var ps, qs := Prices(levels, b), Prices(levels, far);
    TouchIs(levels, b);
    TouchIs(levels, far);
    SecondIs(levels, b, px);
    assert forall p :: p in ps || p in qs ==> p >= 0;
    var touch := Best(levels, b, 0);
    hide Best, Prices;
    if px in ps && px == touch { assert BetterThan(ps, b.side, px) == {}; }
    if px in ps && px != touch && ps != {} { assert touch in BetterThan(ps, b.side, px); }
  }

  /** A share is 100 million units: what a newcomer sees in front, and what the list makes of a fill. */
  lemma UnitsAre(f: Followed, ref: nat, prio: nat, o: Resting, kind: Kind, shown: int, m: nat, q: nat, ts: nat)
    requires m <= L3 && q > 0
    ensures NewFollowed(ref, prio, o, kind, shown).ahead[m] == shown * 100_000_000
    ensures FillModel(f, m, q * 100_000_000, ts).1 == [Fill(ts, f.px, q, f.loc, f.side, m, f.kind)]
  {
    assert q * 100_000_000 / 100_000_000 == q;
  }
}
