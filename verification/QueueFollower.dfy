/** What one followed order keeps, whatever happens around it. */
module QueueFollower {
  import opened Itch
  import opened QueueRules
  import opened QueueTruth

  function PlaceOf(f: Followed, m: nat): Place
    requires m <= L3
  {
    Place(f.ahead[m], f.filled[m])
  }

  /**
    The five L2 models of one order: each has a proper place in the queue, and a more conservative
    model is never ahead of a less conservative one, neither in the queue nor in its fills.
   */
  ghost predicate Ordered(f: Followed) {
    && (forall m :: 0 <= m < L2_MODELS ==> Proper(PlaceOf(f, m), f.qty0 * SCALE))
    && (forall i, j :: 0 <= i <= j < L2_MODELS ==> f.ahead[i] <= f.ahead[j] && f.filled[j] <= f.filled[i])
  }

  /** The numbers of a followed order between messages. */
  ghost predicate Good(f: Followed) {
    && Ordered(f)
    && 0 < f.qty0
    && 0 <= f.filledTrue <= f.qty0
    && f.filledTrue * SCALE <= f.filled[L3] <= f.qty0 * SCALE
    && f.filled[L3] % SCALE == 0
    && 0 <= f.ahead[L3]
    && (f.alive ==> f.filledTrue + f.left == f.qty0 && 0 < f.left)
  }

  /** `g` is `f` with only its places in the queue models changed. */
  predicate SameOrder(f: Followed, g: Followed) { g == f.(ahead := g.ahead, filled := g.filled) }

  predicate SameL3(f: Followed, g: Followed) { f.ahead[L3] == g.ahead[L3] && f.filled[L3] == g.filled[L3] }

  lemma ShrunkKeepsOrder(f: Followed, was: int, now: int)
    requires Ordered(f) && 0 <= now <= was
    ensures Ordered(Shrunk(f, was, now))
    ensures SameOrder(f, Shrunk(f, was, now)) && SameL3(f, Shrunk(f, was, now))
  {
    var g := Shrunk(f, was, now);
    forall i, j | 0 <= i <= j < L2_MODELS ensures 0 <= g.ahead[i] <= g.ahead[j] && g.ahead[i] <= f.ahead[i] {
      assert Proper(PlaceOf(f, i), f.qty0 * SCALE);
      LevelChangeMonotone(f.ahead[i], f.ahead[j], was * SCALE, now * SCALE, CONSERVATISM[i], CONSERVATISM[j]);
    }
    forall m | 0 <= m < L2_MODELS ensures Proper(PlaceOf(g, m), f.qty0 * SCALE) {
      assert Proper(PlaceOf(f, m), f.qty0 * SCALE);
      assert 0 <= g.ahead[m] <= g.ahead[m];
    }
  }

  /** A print seen by one model moves that model as the rule says. */
  lemma PrintModelAt(f: Followed, k: nat, px: int, qty: int, aggressor: Side, ts: nat)
    requires k < L2_MODELS && Proper(PlaceOf(f, k), f.qty0 * SCALE) && qty >= 0
    ensures var g := PrintModel(f, k, px, qty, aggressor, ts).0;
            && SameOrder(f, g)
            && PlaceOf(g, k) == Printed(PlaceOf(f, k), f.side, f.px, f.qty0 * SCALE, px, qty, aggressor)
            && forall m :: 0 <= m <= L3 && m != k ==> PlaceOf(g, m) == PlaceOf(f, m)
  {
  }

  /** A print moves the first `n` L2 models as the rule says and touches nothing else. */
  lemma {:induction false} PrintModelsAt(f: Followed, n: nat, px: int, qty: int, aggressor: Side, ts: nat, m: nat)
    requires Ordered(f) && n <= L2_MODELS && qty >= 0 && m <= L3
    ensures var g := PrintModels(f, n, px, qty, aggressor, ts).0;
            && SameOrder(f, g)
            && PlaceOf(g, m) == (if m < n then Printed(PlaceOf(f, m), f.side, f.px, f.qty0 * SCALE, px, qty, aggressor)
                                 else PlaceOf(f, m))
  {
    if n > 0 {
      var g := PrintModels(f, n - 1, px, qty, aggressor, ts).0;
      PrintModelsAt(f, n - 1, px, qty, aggressor, ts, m);
      PrintModelsAt(f, n - 1, px, qty, aggressor, ts, n - 1);
      assert Proper(PlaceOf(f, n - 1), f.qty0 * SCALE);
      PrintModelAt(g, n - 1, px, qty, aggressor, ts);
      assert PrintModels(f, n, px, qty, aggressor, ts).0 == PrintModel(g, n - 1, px, qty, aggressor, ts).0;
    }
  }

  lemma PrintKeepsOrder(f: Followed, px: int, qty: int, aggressor: Side, ts: nat)
    requires Ordered(f) && qty >= 0
    ensures var g := PrintModels(f, L2_MODELS, px, qty, aggressor, ts).0;
            Ordered(g) && SameOrder(f, g) && SameL3(f, g)
  {
    var g := PrintModels(f, L2_MODELS, px, qty, aggressor, ts).0;
    PrintModelsAt(f, L2_MODELS, px, qty, aggressor, ts, L3);
    forall i, j | 0 <= i <= j < L2_MODELS
      ensures Proper(PlaceOf(g, i), f.qty0 * SCALE) && g.ahead[i] <= g.ahead[j] && g.filled[j] <= g.filled[i]
    {
      PrintModelsAt(f, L2_MODELS, px, qty, aggressor, ts, i);
      PrintModelsAt(f, L2_MODELS, px, qty, aggressor, ts, j);
      assert Proper(PlaceOf(f, i), f.qty0 * SCALE) && Proper(PlaceOf(f, j), f.qty0 * SCALE);
      TradeMonotone(PlaceOf(f, i), PlaceOf(f, j), f.side, f.px, f.qty0 * SCALE, px, qty, aggressor);
    }
    forall m | 0 <= m < L2_MODELS ensures Proper(PlaceOf(g, m), f.qty0 * SCALE) {
      assert 0 <= m <= m < L2_MODELS;
    }
  }

  /** A change of the L3 entries alone leaves the L2 models ordered. */
  lemma L3Apart(f: Followed, g: Followed)
    requires Ordered(f) && SameOrder(f, g)
    requires forall m :: 0 <= m < L2_MODELS ==> PlaceOf(g, m) == PlaceOf(f, m)
    ensures Ordered(g)
  {
    forall i, j | 0 <= i <= j < L2_MODELS ensures g.ahead[i] <= g.ahead[j] && g.filled[j] <= g.filled[i] {
      assert PlaceOf(g, i) == PlaceOf(f, i) && PlaceOf(g, j) == PlaceOf(f, j);
    }
    forall m | 0 <= m < L2_MODELS ensures Proper(PlaceOf(g, m), g.qty0 * SCALE) {
      assert PlaceOf(g, m) == PlaceOf(f, m);
    }
  }

  // ---- The L3 entries ------------------------------------------------------------------------

  /** The L3 queue of a follower with `ahead` shares resting in front of it. */
  predicate QueueExact(f: Followed, ahead: int) {
    f.ahead[L3] == if f.filled[L3] > 0 then 0 else ahead * SCALE
  }

  /** A cancel of another order, at a level that shows this follower and that order. */
  lemma CancelKeepsGood(f: Followed, ref: nat, o: Order, q: int, before: int, ahead: int)
    requires Good(f) && f.alive && 0 < q
    requires f.ref != ref && f.px == o.px ==> f.left + q <= before
    requires QueueExact(f, ahead)
    requires f.ref != ref && f.px == o.px && o.prio < f.prio ==> q <= ahead
    ensures var g := CancelSeen(f, ref, o, q, before);
            && Good(g) && SameOrder(f, g)
            && QueueExact(g, if f.ref != ref && f.px == o.px && o.prio < f.prio then ahead - q else ahead)
  {
    hide Shrunk;
    if f.ref != ref && f.px == o.px {
      var h := Shrunk(f, before - f.left, before - q - f.left);
      ShrunkKeepsOrder(f, before - f.left, before - q - f.left);
      L3Apart(h, CancelSeen(f, ref, o, q, before));
    }
  }

  lemma QueueReachedKeepsGood(f: Followed, e: Execution, ahead: int)
    requires Good(f) && f.alive && 0 < e.q
    requires QueueExact(f, ahead) && (f.px == e.o.px && e.o.prio < f.prio ==> e.q <= ahead)
    ensures var g := QueueReached(f, e).0;
            && Good(g) && SameOrder(f, g)
            && QueueExact(g, if f.px == e.o.px && e.o.prio < f.prio then ahead - e.q else ahead)
  {
    AheadExactly(f.side, f.px, f.prio, e.o.px, e.o.prio, e.px);
    L3Apart(f, QueueReached(f, e).0);
    assert (f.qty0 * SCALE - f.filled[L3]) % SCALE == 0;
  }

  /** Another order's execution. */
  lemma ExecutionKeepsGood(f: Followed, e: Execution, ahead: int)
    requires Good(f) && f.alive && 0 < e.q
    requires f.ref != e.ref && f.px == e.o.px ==> f.left + e.q <= e.before
    requires QueueExact(f, ahead)
    requires f.ref != e.ref && f.px == e.o.px && e.o.prio < f.prio ==> e.q <= ahead
    ensures var g := ExecutionSeen(f, e).0;
            && Good(g) && SameOrder(f, g)
            && QueueExact(g, if f.ref != e.ref && f.px == e.o.px && e.o.prio < f.prio then ahead - e.q else ahead)
  {
    if f.ref != e.ref {
      ShownKeepsOrder(f, e);
      QueueReachedKeepsGood(ExecutionShown(f, e).0, e, ahead);
    }
  }

  lemma ShownKeepsOrder(f: Followed, e: Execution)
    requires Ordered(f) && 0 < e.q
    requires f.px == e.o.px ==> f.left + e.q <= e.before
    ensures var h := ExecutionShown(f, e).0; Ordered(h) && SameOrder(f, h) && SameL3(f, h)
  {
    if e.printable {
      PrintKeepsOrder(f, e.px, e.q * SCALE, e.o.side.Opposite(), e.ts);
    } else if f.px == e.o.px {
      ShrunkKeepsOrder(f, e.before - f.left, e.before - e.q - f.left);
    }
  }

  /**
    The order's own execution of `e.q` of its remaining shares: the true fill never overtakes the
    L3 fill, and nothing is ahead of it any more.
   */
  lemma OwnExecutionKeepsGood(f: Followed, e: Execution)
    requires Good(f) && f.alive && 0 < e.q <= f.left
    ensures var g := OwnExecution(f, e).0;
            && Good(g.(alive := g.left > 0))
            && g == f.(ahead := g.ahead, filled := g.filled, filledTrue := f.filledTrue + e.q, left := f.left - e.q)
            && QueueExact(g, 0) && g.filled[L3] > 0
  {
    hide OwnShown, Ordered;
    var h := OwnShown(f, e).0;
    OwnShownKeepsOrder(f, e);
    var h' := h.(ahead := h.ahead[L3 := 0]);
    var r := FillModel(h', L3, Min(e.q * SCALE, h.qty0 * SCALE - h.filled[L3]), e.ts).0;
    L3Apart(h, r);
    assert (h.qty0 * SCALE - h.filled[L3]) % SCALE == 0;
    OrderedIgnores(r, OwnExecution(f, e).0.(alive := r.left - e.q > 0));
  }

  lemma OwnShownKeepsOrder(f: Followed, e: Execution)
    requires Ordered(f) && 0 < e.q
    ensures var h := OwnShown(f, e).0;
            Ordered(h) && SameL3(f, h) && SameOrder(f.(filledTrue := f.filledTrue + e.q), h)
  {
    OrderedIgnores(f, f.(filledTrue := f.filledTrue + e.q));
    PrintKeepsOrder(f.(filledTrue := f.filledTrue + e.q), e.px, e.q * SCALE, e.o.side.Opposite(), e.ts);
  }

  lemma OrderedIgnores(f: Followed, g: Followed)
    requires Ordered(f) && f.qty0 == g.qty0 && f.ahead == g.ahead && f.filled == g.filled
    ensures Ordered(g)
  {
    forall m | 0 <= m < L2_MODELS ensures Proper(PlaceOf(g, m), g.qty0 * SCALE) {
      assert PlaceOf(g, m) == PlaceOf(f, m);
    }
  }

  /** A hidden print. */
  lemma PrintKeepsGood(f: Followed, px: int, qty: int, ts: nat)
    requires Good(f) && qty >= 0
    ensures var g := PrintModels(f, L2_MODELS, px, qty, Buy, ts).0;
            Good(g) && SameOrder(f, g) && SameL3(f, g)
  {
    PrintKeepsOrder(f, px, qty, Buy, ts);
  }

  lemma NewIsGood(ref: nat, prio: nat, o: Resting, kind: Kind, shown: int)
    requires o.qty > 0 && shown >= 0
    ensures Good(NewFollowed(ref, prio, o, kind, shown)) && QueueExact(NewFollowed(ref, prio, o, kind, shown), shown)
  {
  }
}
