/**
  The replayable ITCH streams the codec benchmarks generate (bench/bench_codecs_nasdaq.cpp). Every
  random draw is an arbitrary choice here, so what holds of the stream holds for every seed.
 */
module ItchStream {
  import opened Itch
  import Reference = ReferenceBook

  datatype Live = Live(ref: nat, qty: int, side: Side)

  const TWO32 := 0x1_0000_0000

  /** References of one locate share their high half: (locate - 7) shifted up, modulo 2^64. */
  function RefBase(locate: nat): nat { (locate - 7) % TWO32 * TWO32 + 1 }

  predicate OwnRef(ref: nat, locate: nat) { RefBase(locate) <= ref < RefBase(locate) + TWO32 }

  /** The references a message names. */
  function Refs(m: Message): set<nat> {
    match m
    case Add(_, _, ref, _, _, _) => {ref}
    case Executed(_, _, ref, _) => {ref}
    case ExecutedAt(_, _, ref, _, _, _) => {ref}
    case Reduced(_, _, ref, _) => {ref}
    case Deleted(_, _, ref) => {ref}
    case Replaced(_, _, ref, newRef, _, _) => {ref, newRef}
    case _ => {}
  }

  /** The message names only references of its own locate. */
  predicate SelfContained(m: Message) {
    m.loc < 0x1_0000 && forall r :: r in Refs(m) ==> OwnRef(r, m.loc)
  }

  /** Stricter than Accepts: the order named rests, and no more is executed than it has left. */
  predicate Names(orders: map<nat, Resting>, m: Message) {
    match m
    case Add(_, _, ref, _, qty, _) => ref !in orders && qty > 0
    case Executed(_, _, ref, qty) => ref in orders && 0 < qty <= orders[ref].qty
    case ExecutedAt(_, _, ref, qty, _, _) => ref in orders && 0 < qty <= orders[ref].qty
    case Reduced(_, _, ref, qty) => ref in orders && 0 < qty <= orders[ref].qty
    case Deleted(_, _, ref) => ref in orders
    case Replaced(_, _, ref, newRef, qty, _) => ref in orders && qty == orders[ref].qty && newRef !in orders
    case _ => true
  }

  function BookAfter(ms: seq<Message>): Reference.Book { Reference.Run(Reference.EMPTY, ms) }

  const HUNDRED_DOLLARS := 1_000_000  // in ITCH units

  /** Buys rest at $100 or below and sells above it, so the book is not crossed. */
  ghost predicate Apart(orders: map<nat, Resting>) {
    forall r :: r in orders ==>
      if orders[r].side.Buy? then orders[r].px <= HUNDRED_DOLLARS else orders[r].px > HUNDRED_DOLLARS
  }

  /** Message by message: what it names rests, never more than `cap` orders do, and no price crosses. */
  ghost predicate Healthy(ms: seq<Message>, cap: nat) {
    ms == [] ||
    var rest, m := ms[..|ms| - 1], ms[|ms| - 1];
    && Healthy(rest, cap) && Names(BookAfter(rest).orders, m) && |BookAfter(rest).orders| <= cap
    && Apart(BookAfter(rest).orders)
  }

  lemma {:induction false} HealthyAt(ms: seq<Message>, cap: nat, i: nat)
    requires Healthy(ms, cap) && i < |ms|
    ensures Names(BookAfter(ms[..i]).orders, ms[i]) && |BookAfter(ms[..i]).orders| <= cap
    ensures forall r, q :: r in BookAfter(ms[..i]).orders && q in BookAfter(ms[..i]).orders ==>
              var x, y := BookAfter(ms[..i]).orders[r], BookAfter(ms[..i]).orders[q];
              x.side.Buy? && y.side.Sell? ==> x.px < y.px
  {
    if i < |ms| - 1 {
      HealthyAt(ms[..|ms| - 1], cap, i);
      assert ms[..|ms| - 1][..i] == ms[..i];
    }
  }

  lemma HealthyIsValid(ms: seq<Message>, cap: nat)
    requires Healthy(ms, cap)
    ensures Reference.ValidStream(ms)
  {
    forall i | 0 <= i < |ms| ensures Accepts(BookAfter(ms[..i]).orders, ms[i]) {
      Reference.RunIsExact(ms[..i]);
      HealthyAt(ms, cap, i);
    }
  }

  // ---- The generator's list of resting orders ---------------------------------------------------

  /** The generator's list is the book's order table, in some order: as many entries, all different. */
  ghost predicate Matches(live: seq<Live>, orders: map<nat, Resting>) {
    && (forall j :: 0 <= j < |live| ==>
          live[j].ref in orders && orders[live[j].ref].qty == live[j].qty && orders[live[j].ref].side == live[j].side)
    && (forall i, j :: 0 <= i < j < |live| ==> live[i].ref != live[j].ref)
    && |orders| == |live|
    && (forall r :: r in orders ==> orders[r].qty > 0)
  }

  lemma MatchesPush(live: seq<Live>, orders: map<nat, Resting>, ref: nat, o: Resting)
    requires Matches(live, orders) && ref !in orders && o.qty > 0
    ensures Matches(live + [Live(ref, o.qty, o.side)], orders[ref := o])
  {
    var live', orders' := live + [Live(ref, o.qty, o.side)], orders[ref := o];
    assert |orders'| == |orders| + 1;
  }

  lemma MatchesUpdate(live: seq<Live>, orders: map<nat, Resting>, k: nat, o: Resting)
    requires Matches(live, orders) && k < |live| && o.qty > 0 && o.side == live[k].side
    ensures Matches(live[k := live[k].(qty := o.qty)], orders[live[k].ref := o])
  {
    var ref, live', orders' := live[k].ref, live[k := live[k].(qty := o.qty)], orders[live[k].ref := o];
    assert orders'.Keys == orders.Keys;
  }

  /** Swap-and-pop: the last order takes the place of the one that left. */
  function SwapPop(live: seq<Live>, k: nat): seq<Live>
    requires k < |live|
  {
    live[k := live[|live| - 1]][..|live| - 1]
  }

  lemma MatchesPop(live: seq<Live>, orders: map<nat, Resting>, k: nat)
    requires Matches(live, orders) && k < |live|
    ensures Matches(SwapPop(live, k), orders - {live[k].ref})
  {
    var live', orders', last := SwapPop(live, k), orders - {live[k].ref}, |live| - 1;
    forall j | 0 <= j < |live'| ensures live'[j] == if j == k then live[last] else live[j] {}
    assert orders'.Keys == orders.Keys - {live[k].ref};
  }

  lemma MatchesReplace(live: seq<Live>, orders: map<nat, Resting>, k: nat, ref: nat, o: Resting)
    requires Matches(live, orders) && k < |live| && ref !in orders && o.qty == live[k].qty && o.side == live[k].side
    ensures Matches(live[k := live[k].(ref := ref)], (orders - {live[k].ref})[ref := o])
  {
    var live', orders' := live[k := live[k].(ref := ref)], (orders - {live[k].ref})[ref := o];
    assert live[k].ref in orders && orders[live[k].ref].qty > 0;
    assert (orders - {live[k].ref}).Keys == orders.Keys - {live[k].ref};
  }

  // ---- The generator ----------------------------------------------------------------------------

  /** The generator's uniform draw below `n`; 0 when there is nothing to draw from. */
  method Uniform(n: nat) returns (r: nat)
    ensures if n == 0 then r == 0 else r < n
  {
    r := 0;
    if n > 0 { r :| 0 <= r < n; }
  }

  /** A random price in ITCH units: within `spread` cents of $100, or a stub quote. */
  method DrawPrice(side: Side, spread: nat) returns (px: nat)
    requires spread <= 10_001
    ensures px % 100 == 0
    ensures if side.Buy? then px <= HUNDRED_DOLLARS else px > HUNDRED_DOLLARS
    ensures px in {10_000, 9_000_000} || HUNDRED_DOLLARS - 100 * spread <= px <= HUNDRED_DOLLARS + 100 * spread + 100
  {
    var r := Uniform(100);
    var cents;
    if r == 0 {
      cents := if side.Buy? then 100 else 90_000;
    } else {
      var off := Uniform(spread);
      cents := if side.Buy? then 10_000 - off else 10_001 + off;
    }
    px := cents * 100;
  }

  /** The message is about one locate and names references in a range. */
  predicate Within(m: Message, locate: nat, base: nat, end: nat) {
    m.loc == locate && forall r :: r in Refs(m) ==> base <= r < end
  }

  /** The order table a message leaves; the levels play no part in it. */
  function Next(orders: map<nat, Resting>, m: Message): map<nat, Resting>
    requires Names(orders, m)
  {
    match m
    case Add(loc, _, ref, side, qty, px) => orders[ref := Resting(loc, side, px, qty)]
    case Executed(_, _, ref, qty) => Reduce(orders, ref, qty)
    case ExecutedAt(_, _, ref, qty, _, _) => Reduce(orders, ref, qty)
    case Reduced(_, _, ref, qty) => Reduce(orders, ref, qty)
    case Deleted(_, _, ref) => orders - {ref}
    case Replaced(loc, _, ref, newRef, qty, px) =>
      (orders - {ref})[newRef := Resting(loc, orders[ref].side, px, qty)]
    case _ => orders
  }

  lemma NextIsApply(b: Reference.Book, m: Message)
    requires Names(b.orders, m) && forall r :: r in b.orders ==> b.orders[r].qty > 0
    ensures Reference.Apply(b, m).orders == Next(b.orders, m)
  {
  }

  /** What the generator has written: a healthy stream that leaves `orders`, for its own locate. */
  ghost predicate Written(ms: seq<Message>, orders: map<nat, Resting>, nextRef: nat, locate: nat, base: nat, cap: nat) {
    && Healthy(ms, cap)
    && orders == BookAfter(ms).orders
    && base <= nextRef <= base + |ms|
    && (forall m :: m in ms ==> Within(m, locate, base, nextRef))
  }

  lemma Append(ms: seq<Message>, orders: map<nat, Resting>, nextRef: nat, locate: nat, base: nat, cap: nat,
               m: Message, end: nat)
    requires Written(ms, orders, nextRef, locate, base, cap) && |orders| <= cap
    requires Names(orders, m) && Within(m, locate, base, end) && nextRef <= end <= nextRef + 1
    requires Apart(orders) && forall r :: r in orders ==> orders[r].qty > 0
    ensures Written(ms + [m], Next(orders, m), end, locate, base, cap)
  {
    assert (ms + [m])[..|ms|] == ms;
    NextIsApply(BookAfter(ms), m);
  }

  /** The generator's list is in step with the order table. */
  ghost predicate Fits(live: seq<Live>, orders: map<nat, Resting>, base: nat, nextRef: nat) {
    Matches(live, orders) && Apart(orders) && forall r :: r in orders ==> base <= r < nextRef
  }

  class Generator {
    const locate: nat
    const base: nat
    const spread: nat
    ghost const cap: nat
    var ms: seq<Message>
    var live: seq<Live>
    var nextRef: nat
    ghost var orders: map<nat, Resting>

    ghost predicate Valid()
      reads this
    {
      spread <= 10_001 && Written(ms, orders, nextRef, locate, base, cap) && Fits(live, orders, base, nextRef)
    }

    constructor (locate: nat, spread: nat, ghost cap: nat)
      requires spread <= 10_001
      ensures Valid() && ms == [] && live == []
      ensures this.locate == locate && this.base == RefBase(locate) && this.cap == cap
    {
      this.locate, this.base, this.spread, this.cap := locate, RefBase(locate), spread, cap;
      ms, live, nextRef, orders := [], [], RefBase(locate), map[];
    }

    /** What the rest of the program needs to know of a generator. */
    lemma Parts()
      requires Valid()
      ensures Healthy(ms, cap) && |BookAfter(ms).orders| == |live| && nextRef <= base + |ms|
      ensures forall m :: m in ms ==> Within(m, locate, base, nextRef) && m.loc == locate
    {
    }

    /** Appends a message the book accepts; `rest` is what then rests. */
    method Push(m: Message, rest: seq<Live>, end: nat)
      requires Valid() && |live| <= cap
      requires Names(orders, m) && Within(m, locate, base, end) && nextRef <= end <= nextRef + 1
      requires Fits(rest, Next(orders, m), base, end)
      modifies this`ms, this`live, this`nextRef, this`orders
      ensures Valid() && ms == old(ms) + [m] && live == rest && nextRef == end
    {
      Append(ms, orders, nextRef, locate, base, cap, m, end);
      ms, live, nextRef, orders := ms + [m], rest, end, Next(orders, m);
    }

    method PushAdd()
      requires Valid() && |live| <= cap
      modifies this`ms, this`live, this`nextRef, this`orders
      ensures Valid() && |ms| == old(|ms|) + 1 && |live| == old(|live|) + 1
      ensures old(ms) < ms && ms[old(|ms|)].Add? && ms[old(|ms|)].ref == old(nextRef)
      ensures 100 <= ms[old(|ms|)].qty <= 2_000 && ms[old(|ms|)].qty % 100 == 0
    {
      var coin := Uniform(2);
      var side := if coin == 0 then Buy else Sell;
      var draw := Uniform(20);
      var qty := (1 + draw) * 100;
      var px := DrawPrice(side, spread);
      AddFits(live, orders, base, nextRef, locate, side, qty, px);
      hide Written, Fits, Next, Names, Within;
      assert 100 <= qty <= 2_000 && qty % 100 == 0;
      Push(Add(locate, 1, nextRef, side, qty, px), live + [Live(nextRef, qty, side)], nextRef + 1);
    }

    /** Executes 100 shares, or what is left. */
    method PushExecution(k: nat, withPrice: bool)
      requires Valid() && k < |live| <= cap
      modifies this`ms, this`live, this`nextRef, this`orders
      ensures Valid() && |ms| == old(|ms|) + 1 && |live| <= old(|live|) && nextRef == old(nextRef)
      ensures old(ms) < ms && if withPrice then ms[old(|ms|)].ExecutedAt? else ms[old(|ms|)].Executed?
      ensures ms[old(|ms|)].ref == old(live)[k].ref
      ensures ms[old(|ms|)].qty == if old(live)[k].qty < 100 then old(live)[k].qty else 100
    {
      var o := live[k];
      assert o.ref in orders && o.qty > 0;
      var q := if o.qty < 100 then o.qty else 100;
      var rest := if q == o.qty then SwapPop(live, k) else live[k := o.(qty := o.qty - q)];
      var m := Executed(locate, 1, o.ref, q);
      if withPrice {
        var coin := Uniform(2);
        m := ExecutedAt(locate, 1, o.ref, q, coin == 0, 1_891_234);
      }
      ExecutionFits(live, orders, base, nextRef, locate, k, q, m);
      Push(m, rest, nextRef);
    }

    method PushDelete(k: nat)
      requires Valid() && k < |live| <= cap
      modifies this`ms, this`live, this`nextRef, this`orders
      ensures Valid() && ms == old(ms) + [Deleted(locate, 1, old(live)[k].ref)]
      ensures live == SwapPop(old(live), k) && nextRef == old(nextRef)
    {
      MatchesPop(live, orders, k);
      Push(Deleted(locate, 1, live[k].ref), SwapPop(live, k), nextRef);
    }

    method PushReplace(k: nat)
      requires Valid() && k < |live| <= cap
      modifies this`ms, this`live, this`nextRef, this`orders
      ensures Valid() && |ms| == old(|ms|) + 1 && |live| == old(|live|)
      ensures old(ms) < ms && ms[old(|ms|)].Replaced? && ms[old(|ms|)].ref == old(live)[k].ref
      ensures ms[old(|ms|)].newRef == old(nextRef) && ms[old(|ms|)].qty == old(live)[k].qty
    {
      var o := live[k];
      assert o.ref in orders && o.qty > 0;
      var px := DrawPrice(o.side, spread);
      MatchesReplace(live, orders, k, nextRef, Resting(locate, o.side, px, o.qty));
      Push(Replaced(locate, 1, o.ref, nextRef, o.qty, px), live[k := o.(ref := nextRef)], nextRef + 1);
    }

    /** The end of the stream: everything that rests is deleted, in list order. */
    method PushDeletes()
      requires Valid() && |live| <= cap
      modifies this`ms, this`live, this`nextRef, this`orders
      ensures Valid() && |ms| == old(|ms| + |live|) && live == [] && nextRef == old(nextRef)
      ensures old(ms) <= ms && forall i :: |old(ms)| <= i < |ms| ==> ms[i].Deleted?
    {
      while live != []
        invariant Valid() && |live| <= cap && nextRef == old(nextRef) && |ms| + |live| == old(|ms| + |live|)
        invariant old(ms) <= ms && forall i :: |old(ms)| <= i < |ms| ==> ms[i].Deleted?
        decreases |live|
      {
        DeletionFits(live, orders, base, nextRef, locate);
        Push(Deleted(locate, 1, live[0].ref), live[1..], nextRef);
      }
    }
  }

  lemma AddFits(live: seq<Live>, orders: map<nat, Resting>, base: nat, nextRef: nat, locate: nat, side: Side,
                qty: nat, px: nat)
    requires Fits(live, orders, base, nextRef) && base <= nextRef && qty > 0
    requires if side.Buy? then px <= HUNDRED_DOLLARS else px > HUNDRED_DOLLARS
    ensures var m := Add(locate, 1, nextRef, side, qty, px);
            && Names(orders, m) && Within(m, locate, base, nextRef + 1)
            && Fits(live + [Live(nextRef, qty, side)], Next(orders, m), base, nextRef + 1)
  {
    MatchesPush(live, orders, nextRef, Resting(locate, side, px, qty));
  }

  lemma ExecutionFits(live: seq<Live>, orders: map<nat, Resting>, base: nat, nextRef: nat, locate: nat,
                      k: nat, q: nat, m: Message)
    requires Fits(live, orders, base, nextRef) && k < |live| && 0 < q <= live[k].qty
    requires (m.Executed? || m.ExecutedAt?) && m.loc == locate && m.ref == live[k].ref && m.qty == q
    ensures Names(orders, m) && Within(m, locate, base, nextRef)
    ensures Fits(if q == live[k].qty then SwapPop(live, k) else live[k := live[k].(qty := live[k].qty - q)],
                 Next(orders, m), base, nextRef)
  {
    var o := live[k];
    assert o.ref in orders && orders[o.ref].qty == o.qty;
    if q == o.qty {
      MatchesPop(live, orders, k);
    } else {
      MatchesUpdate(live, orders, k, orders[o.ref].(qty := o.qty - q));
    }
  }

  lemma DeletionFits(live: seq<Live>, orders: map<nat, Resting>, base: nat, nextRef: nat, locate: nat)
    requires Fits(live, orders, base, nextRef) && live != []
    ensures var m := Deleted(locate, 1, live[0].ref);
            && Names(orders, m) && Within(m, locate, base, nextRef)
            && Fits(live[1..], Next(orders, m), base, nextRef)
  {
    MatchesDropFirst(live, orders);
  }

  /** Below `lo` resting orders the generator only adds, above `hi` it only deletes. */
  ghost predicate Paced(ms: seq<Message>, i: nat, lo: nat, hi: nat)
    requires i < |ms|
  {
    var resting := |BookAfter(ms[..i]).orders|;
    (resting < lo ==> ms[i].Add?) && (resting >= lo && resting > hi ==> ms[i].Deleted?)
  }

  ghost predicate AllPaced(ms: seq<Message>, n: nat, lo: nat, hi: nat) {
    n <= |ms| && forall i :: 0 <= i < n ==> Paced(ms, i, lo, hi)
  }

  lemma PacedStays(ms: seq<Message>, more: seq<Message>, n: nat, lo: nat, hi: nat)
    requires AllPaced(ms, n, lo, hi) && ms <= more
    ensures AllPaced(more, n, lo, hi)
  {
    forall i | 0 <= i < n ensures Paced(more, i, lo, hi) {
      assert Paced(ms, i, lo, hi) && more[..i] == ms[..i] && more[i] == ms[i];
    }
  }

  lemma PacedNext(ms: seq<Message>, more: seq<Message>, lo: nat, hi: nat, resting: nat)
    requires AllPaced(ms, |ms|, lo, hi) && ms < more && |more| == |ms| + 1 && |BookAfter(ms).orders| == resting
    requires (resting < lo ==> more[|ms|].Add?) && (resting >= lo && resting > hi ==> more[|ms|].Deleted?)
    ensures AllPaced(more, |more|, lo, hi)
  {
    PacedStays(ms, more, |ms|, lo, hi);
    assert more[..|ms|] == ms;
    assert Paced(more, |ms|, lo, hi);
  }

  lemma WithinOwnRange(ms: seq<Message>, locate: nat, end: nat)
    requires forall m :: m in ms ==> Within(m, locate, RefBase(locate), end)
    requires end <= RefBase(locate) + TWO32 && locate < 0x1_0000
    ensures forall m :: m in ms ==> SelfContained(m)
  {
  }

  /**
    For every sequence of draws: the stream only names resting orders and never over-executes, the
    book never holds more than `liveHi + 1` orders (or `liveLo` if that is more), and the stream
    leaves it empty. Fewer than 2^32 references keep to their locate's range.
   */
  method MakeStream(n: nat, liveLo: nat, liveHi: nat, spread: nat, locate: nat) returns (ms: seq<Message>)
    requires 1 <= liveLo && spread <= 10_001
    ensures Healthy(ms, if liveLo <= liveHi then liveHi + 1 else liveLo)
    ensures Reference.ValidStream(ms) && BookAfter(ms) == Reference.EMPTY
    ensures |ms| >= n && forall m :: m in ms ==> m.loc == locate
    ensures forall i :: 0 <= i < |ms| ==> if i < n then Paced(ms, i, liveLo, liveHi) else ms[i].Deleted?
    ensures n < TWO32 && locate < 0x1_0000 ==> forall m :: m in ms ==> SelfContained(m)
  {
    hide Written, Fits, Healthy, BookAfter, Reference.ValidStream, Paced, Within, SelfContained;
    ghost var cap := if liveLo <= liveHi then liveHi + 1 else liveLo;
    var g := new Generator(locate, spread, cap);
    while |g.ms| < n
      invariant g.Valid() && g.cap == cap && g.locate == locate && g.base == RefBase(locate) && fresh(g)
      invariant |g.live| <= cap && |g.ms| <= n
      invariant AllPaced(g.ms, |g.ms|, liveLo, liveHi)
      decreases n - |g.ms|
    {
      ghost var was, resting := g.ms, |g.live|;
      g.Parts();
      var op := Uniform(6);
      op := if |g.live| < liveLo then 0 else if |g.live| > liveHi then 4 else op;
      if op <= 1 {
        g.PushAdd();
      } else {
        var k := Uniform(|g.live|);
        if op == 2 || op == 3 {
          g.PushExecution(k, op == 3);
        } else if op == 4 {
          g.PushDelete(k);
        } else {
          g.PushReplace(k);
        }
      }
      PacedNext(was, g.ms, liveLo, liveHi, resting);
    }
    ghost var drawn := g.ms;
    ghost var end := g.nextRef;
    g.Parts();
    g.PushDeletes();
    g.Parts();
    ms := g.ms;
    PacedStays(drawn, ms, n, liveLo, liveHi);
    if n < TWO32 && locate < 0x1_0000 { WithinOwnRange(ms, locate, end); }
    HealthyIsValid(ms, cap);
    EmptyOrdersEmptyBook(ms);
  }

  lemma MatchesDropFirst(live: seq<Live>, orders: map<nat, Resting>)
    requires Matches(live, orders) && live != []
    ensures Matches(live[1..], orders - {live[0].ref})
  {
    var orders' := orders - {live[0].ref};
    assert orders'.Keys == orders.Keys - {live[0].ref};
  }

  /** A book without orders shows no levels. */
  lemma EmptyOrdersEmptyBook(ms: seq<Message>)
    requires |BookAfter(ms).orders| == 0
    ensures BookAfter(ms) == Reference.EMPTY
  {
    Reference.RunIsExact(ms);
    EmptyIsExact();
    assert BookAfter(ms).orders == map[];
    LevelsDetermined(map[], BookAfter(ms).levels, map[]);
  }
}
