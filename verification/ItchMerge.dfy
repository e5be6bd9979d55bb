/** Interleaving the streams of several locates into one feed. */
module ItchMerge {
  import opened Itch
  import opened ItchStream
  import Reference = ReferenceBook

  /** The messages of one locate, in order. */
  function Only(ms: seq<Message>, loc: nat): seq<Message> {
    if ms == [] then []
    else
      var rest, m := Only(ms[..|ms| - 1], loc), ms[|ms| - 1];
      if m.loc == loc then rest + [m] else rest
  }

  /** The resting orders whose references belong to one locate. */
  function Owned(orders: map<nat, Resting>, loc: nat): map<nat, Resting> {
    map r | r in orders && OwnRef(r, loc) :: orders[r]
  }

  /** Reference ranges of different locates do not meet. */
  lemma RangesDisjoint(a: nat, b: nat, r: nat)
    requires a < 0x1_0000 && b < 0x1_0000 && OwnRef(r, a) && OwnRef(r, b)
    ensures a == b
  {
    var x, y := (a - 7) % TWO32, (b - 7) % TWO32;
    assert x * TWO32 + 1 <= r < (x + 1) * TWO32 + 1 && y * TWO32 + 1 <= r < (y + 1) * TWO32 + 1;
    assert x == y;
  }

  /** Every resting order is one of its own locate's. */
  ghost predicate AtHome(orders: map<nat, Resting>) {
    forall r :: r in orders ==> orders[r].loc < 0x1_0000 && OwnRef(r, orders[r].loc)
  }

  /** Whether a book accepts a message depends only on the orders of the message's own locate. */
  lemma AcceptsLocally(orders: map<nat, Resting>, m: Message)
    requires SelfContained(m)
    ensures Accepts(orders, m) <==> Accepts(Owned(orders, m.loc), m)
  {
    assert forall r :: r in Refs(m) ==> (r in orders <==> r in Owned(orders, m.loc));
  }

  /** ... and so does what the message does to them. */
  lemma AppliesLocally(b: Reference.Book, c: Reference.Book, m: Message)
    requires SelfContained(m) && c.orders == Owned(b.orders, m.loc)
    ensures Reference.Apply(c, m).orders == Owned(Reference.Apply(b, m).orders, m.loc)
  {
    assert forall r :: r in Refs(m) ==>
             (r in b.orders <==> r in c.orders) && (r in b.orders ==> b.orders[r] == c.orders[r]);
  }

  /** Orders of other locates are left alone. */
  lemma LeavesOthersAlone(b: Reference.Book, m: Message, loc: nat)
    requires SelfContained(m) && loc < 0x1_0000 && loc != m.loc
    ensures Owned(Reference.Apply(b, m).orders, loc) == Owned(b.orders, loc)
  {
    forall r | r in Refs(m) ensures !OwnRef(r, loc) {
      if OwnRef(r, loc) { RangesDisjoint(loc, m.loc, r); }
    }
    var after := Reference.Apply(b, m).orders;
    assert forall r :: r !in Refs(m) ==> (r in after <==> r in b.orders) && (r in b.orders ==> after[r] == b.orders[r]);
  }

  lemma StaysAtHome(b: Reference.Book, m: Message)
    requires SelfContained(m) && AtHome(b.orders)
    ensures AtHome(Reference.Apply(b, m).orders)
  {
    var after := Reference.Apply(b, m).orders;
    forall r | r in after ensures after[r].loc < 0x1_0000 && OwnRef(r, after[r].loc) {
      if r in b.orders { assert OwnRef(r, b.orders[r].loc); }
      if r in Refs(m) { assert OwnRef(r, m.loc); }
    }
  }

  /** In a merged feed each locate's orders are those its own stream alone would leave. */
  lemma {:induction false} MergedRun(ms: seq<Message>, loc: nat)
    requires forall m :: m in ms ==> SelfContained(m)
    requires loc < 0x1_0000
    ensures Owned(BookAfter(ms).orders, loc) == BookAfter(Only(ms, loc)).orders
    ensures AtHome(BookAfter(ms).orders)
    decreases |ms|
  {
    if ms != [] {
      var rest, m := ms[..|ms| - 1], ms[|ms| - 1];
      MergedRun(rest, loc);
      StaysAtHome(BookAfter(rest), m);
      if m.loc == loc {
        AppliesLocally(BookAfter(rest), BookAfter(Only(rest, loc)), m);
        assert (Only(rest, loc) + [m])[..|Only(rest, loc)|] == Only(rest, loc);
      } else {
        LeavesOthersAlone(BookAfter(rest), m, loc);
      }
    }
  }

  lemma {:induction false} OnlyPrefix(ms: seq<Message>, i: nat, loc: nat)
    requires i <= |ms|
    ensures Only(ms[..i], loc) <= Only(ms, loc)
    ensures i < |ms| && ms[i].loc == loc ==>
              |Only(ms[..i], loc)| < |Only(ms, loc)| && Only(ms, loc)[|Only(ms[..i], loc)|] == ms[i]
    decreases |ms|
  {
    if i == |ms| {
      assert ms[..i] == ms;
    } else {
      var rest := ms[..|ms| - 1];
      if i < |rest| {
        OnlyPrefix(rest, i, loc);
      }
      assert rest[..i] == ms[..i];
    }
  }

  /**
    Any order-preserving interleaving of valid, self-contained streams of different locates is a
    valid stream, and if each of them leaves its book empty, so does the interleaving.
   */
  lemma MergedIsValid(ms: seq<Message>)
    requires forall m :: m in ms ==> SelfContained(m)
    requires forall loc :: 0 <= loc < 0x1_0000 ==> Reference.ValidStream(Only(ms, loc))
    ensures Reference.ValidStream(ms)
    ensures (forall loc :: 0 <= loc < 0x1_0000 ==> BookAfter(Only(ms, loc)) == Reference.EMPTY) ==>
              BookAfter(ms) == Reference.EMPTY
  {
    forall i | 0 <= i < |ms| ensures Accepts(BookAfter(ms[..i]).orders, ms[i]) {
      var loc := ms[i].loc;
      assert ms[i] in ms && SelfContained(ms[i]);
      forall m | m in ms[..i] ensures SelfContained(m) { assert m in ms; }
      MergedRun(ms[..i], loc);
      AcceptsLocally(BookAfter(ms[..i]).orders, ms[i]);
      OnlyPrefix(ms, i, loc);
      var own, k := Only(ms, loc), |Only(ms[..i], loc)|;
      assert own[..k] == Only(ms[..i], loc);
      assert Accepts(BookAfter(own[..k]).orders, own[k]);
    }
    if forall loc :: 0 <= loc < 0x1_0000 ==> BookAfter(Only(ms, loc)) == Reference.EMPTY {
      MergedIsEmpty(ms);
    }
  }

  /** Whatever rests after a merged feed also rests after its own locate's stream. */
  lemma RestsInOwnStream(ms: seq<Message>, r: nat)
    requires forall m :: m in ms ==> SelfContained(m)
    requires r in BookAfter(ms).orders
    ensures var loc := BookAfter(ms).orders[r].loc;
            loc < 0x1_0000 && r in BookAfter(Only(ms, loc)).orders
  {
    MergedRun(ms, 0);
    MergedRun(ms, BookAfter(ms).orders[r].loc);
  }

  lemma MergedIsEmpty(ms: seq<Message>)
    requires forall m :: m in ms ==> SelfContained(m)
    requires forall loc :: 0 <= loc < 0x1_0000 ==> BookAfter(Only(ms, loc)) == Reference.EMPTY
    ensures BookAfter(ms) == Reference.EMPTY
  {
    var orders := BookAfter(ms).orders;
    if r :| r in orders {
      RestsInOwnStream(ms, r);
      assert false;
    }
    assert orders == map[];
    EmptyOrdersEmptyBook(ms);
  }

  // ---- The merge loop ----------------------------------------------------------------------------

  function Left(streams: seq<seq<Message>>, cursor: seq<nat>): int
    requires |cursor| == |streams|
  {
    if streams == [] then 0 else |streams[0]| - cursor[0] + Left(streams[1..], cursor[1..])
  }

  lemma {:induction false} LeftAdvance(streams: seq<seq<Message>>, cursor: seq<nat>, i: nat)
    requires |cursor| == |streams| && i < |streams|
    ensures Left(streams, cursor[i := cursor[i] + 1]) == Left(streams, cursor) - 1
  {
    if i > 0 {
      LeftAdvance(streams[1..], cursor[1..], i - 1);
      assert cursor[i := cursor[i] + 1][1..] == cursor[1..][i - 1 := cursor[i] + 1];
    } else {
      assert cursor[i := cursor[i] + 1][1..] == cursor[1..];
    }
  }

  lemma {:induction false} LeftPositive(streams: seq<seq<Message>>, cursor: seq<nat>) returns (i: nat)
    requires |cursor| == |streams| && Left(streams, cursor) > 0
    ensures i < |streams| && cursor[i] < |streams[i]|
  {
    if cursor[0] < |streams[0]| {
      i := 0;
    } else {
      i := LeftPositive(streams[1..], cursor[1..]);
      i := i + 1;
    }
  }

  lemma {:induction false} LeftZero(streams: seq<seq<Message>>, cursor: seq<nat>, i: nat)
    requires |cursor| == |streams| && i < |streams| && Left(streams, cursor) == 0
    requires forall j :: 0 <= j < |streams| ==> cursor[j] <= |streams[j]|
    ensures cursor[i] == |streams[i]|
  {
    LeftNonNegative(streams[1..], cursor[1..]);
    if i > 0 {
      LeftZero(streams[1..], cursor[1..], i - 1);
    }
  }

  lemma {:induction false} LeftNonNegative(streams: seq<seq<Message>>, cursor: seq<nat>)
    requires |cursor| == |streams|
    requires forall j :: 0 <= j < |streams| ==> cursor[j] <= |streams[j]|
    ensures Left(streams, cursor) >= 0
  {
    if streams != [] {
      LeftNonNegative(streams[1..], cursor[1..]);
    }
  }

  function Zeros(n: nat): seq<nat> { seq(n, _ => 0) }

  method CountMessages(streams: seq<seq<Message>>) returns (total: nat)
    ensures total == Left(streams, Zeros(|streams|))
  {
    total := 0;
    for i := 0 to |streams|
      invariant total == Left(streams[..i], Zeros(i))
    {
      LeftAppend(streams[..i], Zeros(i), streams[i], 0);
      assert streams[..i + 1] == streams[..i] + [streams[i]] && Zeros(i + 1) == Zeros(i) + [0];
      total := total + |streams[i]|;
    }
    assert streams[..|streams|] == streams;
  }

  /**
    The merge of streams for locates 7, 8, ...: any choice among the streams that are not exhausted
    keeps each stream's order. (A draw that hits an exhausted stream changes nothing and is left out.)
   */
  method Merge(streams: seq<seq<Message>>) returns (merged: seq<Message>)
    requires forall i, m :: 0 <= i < |streams| && m in streams[i] ==> m.loc == 7 + i
    ensures forall i :: 0 <= i < |streams| ==> Only(merged, 7 + i) == streams[i]
    ensures forall m :: m in merged ==> 7 <= m.loc < 7 + |streams| && m in streams[m.loc - 7]
  {
    hide Left;
    var cursor: seq<nat> := Zeros(|streams|);
    var remaining := CountMessages(streams);
    LeftNonNegative(streams, cursor);
    merged := [];
    while remaining != 0
      invariant |cursor| == |streams| && remaining == Left(streams, cursor) >= 0
      invariant forall i :: 0 <= i < |streams| ==>
                  cursor[i] <= |streams[i]| && Only(merged, 7 + i) == streams[i][..cursor[i]]
      invariant forall m :: m in merged ==> 7 <= m.loc < 7 + |streams| && m in streams[m.loc - 7]
      decreases remaining
    {
      ghost var w := LeftPositive(streams, cursor);
      var i :| 0 <= i < |streams| && cursor[i] < |streams[i]|;
      var m := streams[i][cursor[i]];
      LeftAdvance(streams, cursor, i);
      LeftNonNegative(streams, cursor[i := cursor[i] + 1]);
      assert (merged + [m])[..|merged|] == merged;
      assert streams[i][..cursor[i] + 1] == streams[i][..cursor[i]] + [m];
      merged := merged + [m];
      cursor := cursor[i := cursor[i] + 1];
      remaining := remaining - 1;
    }
    forall i | 0 <= i < |streams| ensures Only(merged, 7 + i) == streams[i] {
      LeftZero(streams, cursor, i);
    }
  }

  lemma {:induction false} LeftAppend(streams: seq<seq<Message>>, cursor: seq<nat>, s: seq<Message>, c: nat)
    requires |cursor| == |streams|
    ensures Left(streams + [s], cursor + [c]) == Left(streams, cursor) + |s| - c
  {
    if streams != [] {
      LeftAppend(streams[1..], cursor[1..], s, c);
      assert (streams + [s])[1..] == streams[1..] + [s] && (cursor + [c])[1..] == cursor[1..] + [c];
    }
  }

  lemma {:induction false} OnlyAbsent(ms: seq<Message>, loc: nat)
    requires forall m :: m in ms ==> m.loc != loc
    ensures Only(ms, loc) == []
    decreases |ms|
  {
    if ms != [] {
      OnlyAbsent(ms[..|ms| - 1], loc);
    }
  }

  /** A stream of one locate that leaves its book empty. */
  ghost predicate Whole(ms: seq<Message>, loc: nat) {
    && Reference.ValidStream(ms) && BookAfter(ms) == Reference.EMPTY
    && forall m :: m in ms ==> m.loc == loc && SelfContained(m)
  }

  lemma WholeMerged(merged: seq<Message>, streams: seq<seq<Message>>)
    requires |streams| <= 2_000 && forall i :: 0 <= i < |streams| ==> Whole(streams[i], 7 + i)
    requires forall i :: 0 <= i < |streams| ==> Only(merged, 7 + i) == streams[i]
    requires forall m :: m in merged ==> 7 <= m.loc < 7 + |streams| && m in streams[m.loc - 7]
    ensures Reference.ValidStream(merged) && BookAfter(merged) == Reference.EMPTY
  {
    hide SelfContained;
    forall loc | 0 <= loc < 0x1_0000
      ensures Reference.ValidStream(Only(merged, loc)) && BookAfter(Only(merged, loc)) == Reference.EMPTY
    {
      if 7 <= loc < 7 + |streams| {
        assert Only(merged, 7 + (loc - 7)) == streams[loc - 7] && Whole(streams[loc - 7], loc);
      } else {
        OnlyAbsent(merged, loc);
      }
    }
    forall m | m in merged ensures SelfContained(m) { assert Whole(streams[m.loc - 7], m.loc); }
    MergedIsValid(merged);
  }

  /** The multi-symbol benchmark's feed: valid, and replayable because it ends with every book empty. */
  method MultiSymbol(symbols: nat) returns (merged: seq<Message>)
    requires 1 <= symbols <= 2_000
    ensures Reference.ValidStream(merged) && BookAfter(merged) == Reference.EMPTY
  {
    hide Paced, Healthy, SelfContained, BookAfter, Reference.ValidStream;
    var streams: seq<seq<Message>> := [];
    for i := 0 to symbols
      invariant |streams| == i && forall j :: 0 <= j < i ==> Whole(streams[j], 7 + j)
    {
      var s := MakeStream(0x4_0000 / symbols, 2_000 / symbols, 6_000 / symbols, 50, 7 + i);
      assert Whole(s, 7 + i);
      streams := streams + [s];
    }
    forall i, m | 0 <= i < |streams| && m in streams[i] ensures m.loc == 7 + i { assert Whole(streams[i], 7 + i); }
    merged := Merge(streams);
    WholeMerged(merged, streams);
  }
}
