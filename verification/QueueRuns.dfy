/** The theorems about whole runs of the queue-truth scorer. */
module QueueRuns {
  import opened Itch
  import opened QueueRules
  import opened QueueTruth
  import opened Wrappers
  import opened QueueFollower
  import opened QueueSafety
  import opened QueueSound
  import opened QueueTallies
  import Reference = ReferenceBook

  // ---- Two books, one market -------------------------------------------------------------------

  /** The scorer's book in the reference book's terms. */
  function BookOf(s: State): Reference.Book { Reference.Book(Plain(s.orders), s.levels) }

  lemma CancelAgrees(s: State, ref: nat, shares: int)
    requires Sound(s)
    ensures BookOf(Cancel(s, ref, shares)) == Reference.ReduceOrder(BookOf(s), ref, shares)
  {
    if ref in s.orders {
      CancelShape(s, ref, shares);
      LoweredPlain(s.orders, ref, Reference.Clip(shares, s.orders[ref].qty), None);
    }
  }

  lemma ExecuteAgreesIff(s: State, ref: nat, shares: nat, execPx: Option<int>, printable: bool, ts: nat)
    requires Sound(s)
    ensures BookOf(Execute(s, ref, shares, execPx, printable, ts)) == Reference.ReduceOrder(BookOf(s), ref, shares)
            <==> (ref in s.orders ==> shares > 0)
  {
    if ref in s.orders {
      var e := ExecutionOf(s, ref, shares, execPx, printable, ts);
      ExecuteShape(s, ref, shares, execPx, printable, ts);
      LoweredPlain(s.orders, ref, e.q, e.o.followed);
      Positive(s, ref);
      assert shares == 0 ==> ref in Plain(Execute(s, ref, shares, execPx, printable, ts).orders);
    }
  }

  lemma AddAgreesIff(s: State, ref: nat, o: Resting, ts: nat)
    requires Sound(s) && o.qty >= 0
    ensures BookOf(AddOrder(s, ref, o, ts)) == Reference.AddOrder(BookOf(s), ref, o)
            <==> ref !in s.orders && o.qty > 0
  {
    var t := AddOrder(s, ref, o, ts);
    assert Plain(t.orders) == Plain(s.orders)[ref := o];
    if o.qty == 0 {
      assert Plain(t.orders)[ref].qty == 0;
      if ref in s.orders { Positive(s, ref); }
    } else if ref in s.orders {
      assert Displayed(s.levels, o.Key()) >= 0;
      assert Displayed(t.levels, o.Key()) == Displayed(s.levels, o.Key()) + o.qty;
    }
  }

  /**
    The two replay programs agree after a message exactly when the message is well formed for the
    book they share: this is the whole difference between them. An execution of 0 shares is one
    message that splits them (the reference removes the order), a reused reference another.
   */
  lemma StepAgreesIff(s: State, hidden: bool, m: Message)
    requires Sound(s)
    ensures BookOf(Step(s, hidden, m)) == Reference.Apply(BookOf(s), m) <==> Accepts(Plain(s.orders), m)
  {
    match m
    case Add(loc, ts, ref, side, qty, px) => AddAgreesIff(s, ref, Resting(loc, side, px, qty), ts);
    case Executed(_, ts, ref, qty) => ExecuteAgreesIff(s, ref, qty, None, true, ts);
    case ExecutedAt(_, ts, ref, qty, printable, px) => ExecuteAgreesIff(s, ref, qty, Some(px), printable, ts);
    case Reduced(_, _, ref, qty) => CancelAgrees(s, ref, qty);
    case Deleted(_, _, ref) => CancelAgrees(s, ref, 0);
    case Replaced(loc, ts, ref, newRef, qty, px) =>
      if ref in s.orders {
        CancelAgrees(s, ref, 0);
        CancelKeepsSound(s, ref, 0);
        CancelShape(s, ref, 0);
        Positive(s, ref);
        AddAgreesIff(Cancel(s, ref, 0), newRef, Resting(loc, s.orders[ref].side, px, qty), ts);
      }
    case Trade(loc, ts, qty, px) =>
    case Other(_, _) =>
  }

  /** An execution of 0 shares: a no-op for the scorer, the end of the order for the reference. */
  lemma ZeroExecutionSplits(ref: nat, o: Resting)
    requires o.qty > 0
    ensures var s := AddOrder(START, ref, o, 0);
            var m := Executed(o.loc, 0, ref, 0);
            && BookOf(s) == Reference.AddOrder(Reference.EMPTY, ref, o)
            && ref in Step(s, false, m).orders && ref !in Reference.Apply(BookOf(s), m).orders
  {
    StartIsSound();
    var s := AddOrder(START, ref, o, 0);
    AddKeepsSound(START, ref, o, 0);
    AddAgreesIff(START, ref, o, 0);
    assert BookOf(START) == Reference.EMPTY;
    ExecuteShape(s, ref, 0, None, true, 0);
  }

  // ---- Whole runs ------------------------------------------------------------------------------

  /** On any stream at all the indexes agree. */
  lemma {:induction false} ReplayIsSafe(hidden: bool, ms: seq<Message>)
    ensures Safe(Replay(START, hidden, ms))
    decreases |ms|
  {
    if ms != [] {
      ReplayIsSafe(hidden, ms[..|ms| - 1]);
      StepKeepsSafe(Replay(START, hidden, ms[..|ms| - 1]), hidden, ms[|ms| - 1]);
    }
  }

  /** On a valid stream the scorer's book is the reference book and everything is accounted for. */
  lemma {:induction false} ReplayIsSound(hidden: bool, ms: seq<Message>)
    requires Reference.ValidStream(ms)
    ensures var s := Replay(START, hidden, ms);
            Sound(s) && Counted(s) && BookOf(s) == Reference.Run(Reference.EMPTY, ms)
    decreases |ms|
  {
    if ms == [] {
      StartIsSound();
      assert BookOf(START) == Reference.EMPTY;
    } else {
      var n := |ms| - 1;
      Reference.ValidPrefix(ms, n);
      ReplayIsSound(hidden, ms[..n]);
      var s := Replay(START, hidden, ms[..n]);
      assert Accepts(Reference.Run(Reference.EMPTY, ms[..n]).orders, ms[n]);
      StepKeepsSound(s, hidden, ms[n]);
      StepKeepsCounted(s, hidden, ms[n]);
      StepAgreesIff(s, hidden, ms[n]);
    }
  }

  /** The two programs hold the same book after `n` messages. */
  ghost predicate AgreeAfter(hidden: bool, ms: seq<Message>, n: nat)
    requires n <= |ms|
  {
    BookOf(Replay(START, hidden, ms[..n])) == Reference.Run(Reference.EMPTY, ms[..n])
  }

  lemma AgreeNext(hidden: bool, ms: seq<Message>, n: nat)
    requires n < |ms| && Reference.ValidStream(ms[..n])
    requires AgreeAfter(hidden, ms, n) && AgreeAfter(hidden, ms, n + 1)
    ensures Reference.ValidStream(ms[..n + 1])
  {
    hide Step, Sound, Counted, Accepts, Reference.Apply, Reference.ValidStream;
    ReplayIsSound(hidden, ms[..n]);
    assert ms[..n + 1][..n] == ms[..n];
    StepAgreesIff(Replay(START, hidden, ms[..n]), hidden, ms[n]);
    Reference.ValidNext(ms, n);
  }

  lemma {:induction false} AgreeingIsValid(hidden: bool, ms: seq<Message>, n: nat)
    requires n <= |ms| && forall k :: 0 <= k <= |ms| ==> AgreeAfter(hidden, ms, k)
    ensures Reference.ValidStream(ms[..n])
  {
    hide AgreeAfter;
    if n > 0 {
      AgreeingIsValid(hidden, ms, n - 1);
      AgreeNext(hidden, ms, n - 1);
    }
  }

  /** Over a whole stream the two programs agree after every message exactly when the stream is valid. */
  lemma RunsAgreeIff(hidden: bool, ms: seq<Message>)
    ensures (forall n :: 0 <= n <= |ms| ==> AgreeAfter(hidden, ms, n)) <==> Reference.ValidStream(ms)
  {
    hide Sound, Counted;
    if forall n :: 0 <= n <= |ms| ==> AgreeAfter(hidden, ms, n) {
      AgreeingIsValid(hidden, ms, |ms|);
      assert ms[..|ms|] == ms;
    }
    if Reference.ValidStream(ms) {
      forall n | 0 <= n <= |ms| ensures AgreeAfter(hidden, ms, n) {
        Reference.ValidPrefix(ms, n);
        ReplayIsSound(hidden, ms[..n]);
      }
    }
  }

  /** In every reachable state the level shown at a price is the resting quantity there. */
  lemma LevelsInRun(hidden: bool, ms: seq<Message>, k: LevelKey)
    requires Reference.ValidStream(ms)
    ensures var s := Replay(START, hidden, ms);
            && Displayed(s.levels, k) == QtyAt(Plain(s.orders), k)
            && (k in s.levels <==> exists r :: r in s.orders && s.orders[r].Key() == k)
  {
    ReplayIsSound(hidden, ms);
    var s := Replay(START, hidden, ms);
    var p := Plain(s.orders);
    assert Displayed(s.levels, k) == QtyAt(p, k);
    if r :| r in s.orders && s.orders[r].Key() == k {
      QtyAtCovers(p, r);
      assert p[r].qty > 0;
    } else {
      assert AtKey(p, k) == map[];
    }
  }

  /** In every reachable state `best` is a resting price, and exactly `rank` resting prices beat it. */
  lemma BestInRun(hidden: bool, ms: seq<Message>, b: BookKey, rank: nat)
    requires Reference.ValidStream(ms)
    ensures var s := Replay(START, hidden, ms);
            var ps := Prices(s.levels, b);
            var p := Best(s.levels, b, rank);
            if |ps| <= rank then p == -1
            else && (exists r :: r in s.orders && s.orders[r].Key() == LevelKey(b.loc, b.side, p))
                 && |set q | q in ps && Better(b.side, q, p)| == rank
  {
    var s := Replay(START, hidden, ms);
    var ps := Prices(s.levels, b);
    if rank < |ps| {
      RankedIsNthBest(ps, b.side, rank);
      LevelsInRun(hidden, ms, LevelKey(b.loc, b.side, Best(s.levels, b, rank)));
    }
  }

  /**
    The L3 queue in every reachable state: while the rule has not filled the order, the quantity
    ahead is exactly what rests at its price with an earlier place; afterwards it is zero.
   */
  lemma L3QueueInRun(hidden: bool, ms: seq<Message>, i: nat)
    requires Reference.ValidStream(ms) && i < |Replay(START, hidden, ms).followed|
    ensures var s := Replay(START, hidden, ms);
            var f := s.followed[i];
            f.alive ==> f.ahead[L3] == if f.filled[L3] > 0 then 0 else AheadOf(s.orders, f.Key(), f.prio) * SCALE
  {
    ReplayIsSound(hidden, ms);
    assert Exactly(Replay(START, hidden, ms), i);
  }

  /** Truth never overtakes the L3 rule, and shares are conserved, in every reachable state. */
  lemma FillsInRun(hidden: bool, ms: seq<Message>, i: nat)
    requires Reference.ValidStream(ms) && i < |Replay(START, hidden, ms).followed|
    ensures var s := Replay(START, hidden, ms);
            var f := s.followed[i];
            && f.filledTrue * SCALE <= f.filled[L3] <= f.qty0 * SCALE
            && (f.alive ==> f.filledTrue + f.left == f.qty0 && f.ref in s.orders
                            && s.orders[f.ref].followed == Some(i) && s.orders[f.ref].qty == f.left)
            && (f.alive <==> i in AliveAt(s.alive, f.Book()))
  {
    ReplayIsSound(hidden, ms);
    var s := Replay(START, hidden, ms);
    assert Exactly(s, i) && Mirrors(s, i);
    assert i in AliveAt(s.alive, s.followed[i].Book()) <==> LivesAt(s.followed, s.followed[i].Book(), i);
  }

  /** A more conservative L2 model never has a shorter queue or more fills, in every reachable state. */
  lemma ConservatismInRun(hidden: bool, ms: seq<Message>, i: nat, m: nat, n: nat)
    requires Reference.ValidStream(ms) && i < |Replay(START, hidden, ms).followed| && m <= n < L2_MODELS
    ensures var f := Replay(START, hidden, ms).followed[i];
            && 0 <= f.ahead[m] <= f.ahead[n]
            && 0 <= f.filled[n] <= f.filled[m] <= f.qty0 * SCALE
            && (f.filled[m] > 0 ==> f.ahead[m] == 0)
  {
    ReplayIsSound(hidden, ms);
    var f := Replay(START, hidden, ms).followed[i];
    assert Exactly(Replay(START, hidden, ms), i);
    assert Proper(PlaceOf(f, m), f.qty0 * SCALE) && Proper(PlaceOf(f, n), f.qty0 * SCALE);
  }

  // ---- The final scoreboard --------------------------------------------------------------------

  /** Ending the first `n` survivors changes nothing about them but that they are over. */
  lemma {:induction false} FinishAliveIs(s: State, n: nat)
    requires Indexed(s.alive, s.followed) && Counted(s) && n <= |s.followed|
    ensures var t := FinishAlive(s, n);
            && Indexed(t.alive, t.followed) && Counted(t) && t.fills == s.fills
            && forall i :: 0 <= i < |s.followed| ==>
                 t.followed[i] == s.followed[i].(alive := s.followed[i].alive && i >= n)
  {
    if n > 0 {
      FinishAliveIs(s, n - 1);
      var t := FinishAlive(s, n - 1);
      if t.followed[n - 1].alive {
        FinishKeepsCounted(t, n - 1);
        IndexedFinish(t.alive, t.followed, Finish(t, n - 1).followed, n - 1);
      }
    }
  }

  lemma {:induction false} TotalAtMost(fs: seq<Followed>, k: Kind, c: Cell, d: Cell)
    requires forall i :: 0 <= i < |fs| ==> Worth(fs[i], k, c) <= Worth(fs[i], k, d)
    ensures Total(fs, k, c) <= Total(fs, k, d)
  {
    if fs != [] {
      TotalAtMost(fs[..|fs| - 1], k, c, d);
    }
  }

  lemma {:induction false} TotalSplits(fs: seq<Followed>, k: Kind, m: Model)
    ensures Total(fs, k, Both(m)) + Total(fs, k, TruthOnly(m)) == Total(fs, k, FilledTrue)
  {
    if fs != [] {
      TotalSplits(fs[..|fs| - 1], k, m);
    }
  }

  lemma {:induction false} EveryOrderOnce(fs: seq<Followed>)
    requires forall i :: 0 <= i < |fs| ==> !fs[i].alive
    ensures Total(fs, 0, Orders) + Total(fs, 1, Orders) + Total(fs, 2, Orders) == |fs|
  {
    if fs != [] {
      EveryOrderOnce(fs[..|fs| - 1]);
    }
  }

  lemma {:induction false} NothingMissed(fs: seq<Followed>, k: Kind)
    requires forall i :: 0 <= i < |fs| ==> Good(fs[i])
    ensures Total(fs, k, TruthOnly(L3)) == 0
  {
    if fs != [] {
      NothingMissed(fs[..|fs| - 1], k);
      assert Good(fs[|fs| - 1]);
    }
  }

  lemma {:induction false} BookedIsTallied(fs: seq<Followed>, k: Kind)
    requires forall i :: 0 <= i < |fs| ==> !fs[i].alive
    ensures Total(fs, k, Booked(true)) == Total(fs, k, QtyTrue) * SCALE
    ensures Total(fs, k, Booked(false)) == Total(fs, k, QtyModel(L3))
  {
    if fs != [] {
      BookedIsTallied(fs[..|fs| - 1], k);
    }
  }

  /** After a run every followed order is over, and its numbers are good. */
  lemma ScoreIs(hidden: bool, ms: seq<Message>)
    requires Reference.ValidStream(ms)
    ensures var s := Score(hidden, ms);
            && Counted(s)
            && forall i :: 0 <= i < |s.followed| ==> !s.followed[i].alive && Good(s.followed[i])
  {
    var r := Replay(START, hidden, ms);
    ReplayIsSound(hidden, ms);
    FinishAliveIs(r, |r.followed|);
    forall i | 0 <= i < |r.followed| ensures Good(Score(hidden, ms).followed[i]) {
      assert Exactly(r, i);
      OrderedIgnores(r.followed[i], Score(hidden, ms).followed[i]);
    }
  }

  /** Every followed order is tallied once, each model splits the truly filled ones in two. */
  lemma ScoreCountsOnce(hidden: bool, ms: seq<Message>)
    requires Reference.ValidStream(ms)
    ensures var s := Score(hidden, ms);
            && s.tally[0].orders + s.tally[1].orders + s.tally[2].orders == |s.followed|
            && forall k: Kind, m: Model :: s.tally[k].both[m] + s.tally[k].truthOnly[m] == s.tally[k].filledTrue
  {
    var s := Score(hidden, ms);
    ScoreIs(hidden, ms);
    EveryOrderOnce(s.followed);
    assert forall k: Kind :: Read(s.tally[k], Orders) == Total(s.followed, k, Orders);
    forall k: Kind, m: Model ensures s.tally[k].both[m] + s.tally[k].truthOnly[m] == s.tally[k].filledTrue {
      TotalSplits(s.followed, k, m);
      assert Read(s.tally[k], Both(m)) == Total(s.followed, k, Both(m));
      assert Read(s.tally[k], TruthOnly(m)) == Total(s.followed, k, TruthOnly(m));
      assert Read(s.tally[k], FilledTrue) == Total(s.followed, k, FilledTrue);
    }
  }

  /** The L3 rule misses no true fill, and fills at least the true quantity. */
  lemma ScoreL3MissesNothing(hidden: bool, ms: seq<Message>, k: Kind)
    requires Reference.ValidStream(ms)
    ensures var t := Score(hidden, ms).tally[k];
            && t.truthOnly[L3] == 0 && t.both[L3] == t.filledTrue
            && t.qtyTrue * SCALE <= t.qtyModel[L3]
  {
    var s := Score(hidden, ms);
    ScoreIs(hidden, ms);
    ScoreCountsOnce(hidden, ms);
    NothingMissed(s.followed, k);
    assert Read(s.tally[k], TruthOnly(L3)) == Total(s.followed, k, TruthOnly(L3));
    BookedIsTallied(s.followed, k);
    TotalAtMost(s.followed, k, Booked(true), Booked(false));
    assert Read(s.tally[k], QtyTrue) == Total(s.followed, k, QtyTrue);
    assert Read(s.tally[k], QtyModel(L3)) == Total(s.followed, k, QtyModel(L3));
    assert s.tally[k].both[L3] + s.tally[k].truthOnly[L3] == s.tally[k].filledTrue;
  }

  /** The scoreboard is monotone in conservatism, column by column. */
  lemma ScoreIsMonotone(hidden: bool, ms: seq<Message>, k: Kind, m: nat, n: nat)
    requires Reference.ValidStream(ms) && m <= n < L2_MODELS
    ensures var t := Score(hidden, ms).tally[k];
            && t.both[n] <= t.both[m] && t.truthOnly[m] <= t.truthOnly[n]
            && t.modelOnly[n] <= t.modelOnly[m] && t.qtyModel[n] <= t.qtyModel[m]
  {
    hide Score, Counted, Good;
    var s := Score(hidden, ms);
    ScoreIs(hidden, ms);
    forall i | 0 <= i < |s.followed| ensures s.followed[i].filled[n] <= s.followed[i].filled[m] {
      FillsOrdered(s.followed[i], m, n);
    }
    TotalAtMost(s.followed, k, Both(n), Both(m));
    TotalAtMost(s.followed, k, TruthOnly(m), TruthOnly(n));
    TotalAtMost(s.followed, k, ModelOnly(n), ModelOnly(m));
    TotalAtMost(s.followed, k, QtyModel(n), QtyModel(m));
    CellsRead(s, k, Both(m), Both(n));
    CellsRead(s, k, TruthOnly(m), TruthOnly(n));
    CellsRead(s, k, ModelOnly(m), ModelOnly(n));
    CellsRead(s, k, QtyModel(m), QtyModel(n));
  }

  lemma FillsOrdered(f: Followed, m: nat, n: nat)
    requires Good(f) && m <= n < L2_MODELS
    ensures f.filled[n] <= f.filled[m]
  {
  }

  lemma CellsRead(s: State, k: Kind, c: Cell, d: Cell)
    requires Counted(s) && !c.Booked? && !d.Booked?
    ensures Read(s.tally[k], c) == Total(s.followed, k, c) && Read(s.tally[k], d) == Total(s.followed, k, d)
  {
  }

  /** The fill list adds up to the tallies: true fills share for share, L3 fills likewise. */
  lemma ScoreFillsAddUp(hidden: bool, ms: seq<Message>, k: Kind)
    requires Reference.ValidStream(ms)
    ensures var s := Score(hidden, ms);
            && FillSum(s.fills, k, TRUTH) == s.tally[k].qtyTrue
            && FillSum(s.fills, k, L3) * SCALE == s.tally[k].qtyModel[L3]
  {
    var s := Score(hidden, ms);
    ScoreIs(hidden, ms);
    BookedIsTallied(s.followed, k);
    assert FillSum(s.fills, k, ModelOf(true)) * SCALE == Total(s.followed, k, Booked(true));
    assert FillSum(s.fills, k, ModelOf(false)) * SCALE == Total(s.followed, k, Booked(false));
    assert Read(s.tally[k], QtyTrue) == Total(s.followed, k, QtyTrue);
    assert Read(s.tally[k], QtyModel(L3)) == Total(s.followed, k, QtyModel(L3));
  }
}
