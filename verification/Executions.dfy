/**
  Replayed executions. A reconnect delivers executions a second time; both journal readers book each
  identified execution once, keyed by (venue exec id, instrument, side).
 */
module Executions {

  /** An execution report: the bytes of its venue id (empty when it has none) and what it says. */
  datatype Exec<T> = Exec(id: seq<nat>, inst: nat, side: nat, what: T)

  datatype Key = Key(id: seq<nat>, inst: nat, side: nat)

  /** ASCII decoding with replacement: every byte above 127 becomes the same character. */
  function Decode(id: seq<nat>): seq<nat> {
    seq(|id|, i requires 0 <= i < |id| => if id[i] < 128 then id[i] else 0xFFFD)
  }

  /** One reader keys by the decoded text of the id, the other by its bytes. */
  function KeyOf<T>(e: Exec<T>, text: bool): Key { Key(if text then Decode(e.id) else e.id, e.inst, e.side) }

  function Keys<T>(xs: seq<Exec<T>>, text: bool): set<Key> {
    if xs == [] then {} else Keys(xs[..|xs| - 1], text) + {KeyOf(xs[|xs| - 1], text)}
  }

  /** An identified execution whose key has been seen. */
  predicate Repeats<T>(e: Exec<T>, seen: set<Key>, text: bool) { e.id != [] && KeyOf(e, text) in seen }

  /** The executions a reader books, in order. */
  function Kept<T>(xs: seq<Exec<T>>, text: bool): seq<Exec<T>> {
    if xs == [] then []
    else
      var rest, e := xs[..|xs| - 1], xs[|xs| - 1];
      if Repeats(e, Keys(rest, text), text) then Kept(rest, text) else Kept(rest, text) + [e]
  }

  method Dedupe<T>(xs: seq<Exec<T>>, text: bool) returns (kept: seq<Exec<T>>, duplicates: nat)
    ensures kept == Kept(xs, text)
    ensures duplicates + |kept| == |xs|
  {
    kept, duplicates := [], 0;
    var booked: set<Key> := {};
    for n := 0 to |xs|
      invariant kept == Kept(xs[..n], text) && booked == Keys(xs[..n], text)
      invariant duplicates + |kept| == n
    {
      assert xs[..n + 1][..n] == xs[..n];
      var key := KeyOf(xs[n], text);
      if xs[n].id != [] && key in booked {
        duplicates := duplicates + 1;
      } else {
        kept := kept + [xs[n]];
      }
      booked := booked + {key};
    }
    assert xs[..|xs|] == xs;
  }

  // ---- Replays change nothing ------------------------------------------------------------------------

  lemma {:induction false} KeysJoin<T>(a: seq<Exec<T>>, b: seq<Exec<T>>, text: bool)
    ensures Keys(a + b, text) == Keys(a, text) + Keys(b, text)
    decreases |b|
  {
    if b == [] {
      assert a + b == a;
    } else {
      assert (a + b)[..|a + b| - 1] == a + b[..|b| - 1];
      KeysJoin(a, b[..|b| - 1], text);
    }
  }

  lemma KeysReplay<T>(a: seq<Exec<T>>, e: Exec<T>, b: seq<Exec<T>>, text: bool)
    requires KeyOf(e, text) in Keys(a, text)
    ensures Keys(a + [e] + b, text) == Keys(a + b, text)
  {
    KeysJoin(a + [e], b, text);
    KeysJoin(a, [e], text);
    KeysJoin(a, b, text);
    assert Keys([e], text) == {KeyOf(e, text)} by { assert [e][..0] == []; }
  }

  /** Replaying an identified execution anywhere after its first delivery changes no booking. */
  lemma {:induction false} ReplayIsIgnored<T>(a: seq<Exec<T>>, e: Exec<T>, b: seq<Exec<T>>, text: bool)
    requires Repeats(e, Keys(a, text), text)
    ensures Kept(a + [e] + b, text) == Kept(a + b, text)
    decreases |b|
  {
    hide Keys;
    if b == [] {
      assert a + [e] + b == a + [e] && a + b == a;
      assert (a + [e])[..|a|] == a;
    } else {
      var n := |b| - 1;
      var long, short := a + [e] + b, a + b;
      assert long[..|long| - 1] == a + [e] + b[..n] && long[|long| - 1] == b[n];
      assert short[..|short| - 1] == a + b[..n] && short[|short| - 1] == b[n];
      ReplayIsIgnored(a, e, b[..n], text);
      KeysReplay(a, e, b[..n], text);
    }
  }

  // ---- Two readers -----------------------------------------------------------------------------------

  /** Two identified executions that only the bytes of their ids tell apart. */
  predicate Confusable<T>(d: Exec<T>, e: Exec<T>) {
    e.id != [] && d.id != e.id && KeyOf(d, true) == KeyOf(e, true)
  }

  ghost predicate Confused<T>(xs: seq<Exec<T>>) {
    exists i, j :: 0 <= i < j < |xs| && Confusable(xs[i], xs[j])
  }

  lemma {:induction false} KeysHave<T>(xs: seq<Exec<T>>, k: Key, text: bool)
    ensures k in Keys(xs, text) <==> exists i :: 0 <= i < |xs| && KeyOf(xs[i], text) == k
  {
    if xs != [] {
      var n := |xs| - 1;
      KeysHave(xs[..n], k, text);
      if i :| 0 <= i < |xs| && KeyOf(xs[i], text) == k {
        if i < n { assert KeyOf(xs[..n][i], text) == k; }
      }
      if k in Keys(xs[..n], text) {
        var i :| 0 <= i < n && KeyOf(xs[..n][i], text) == k;
        assert KeyOf(xs[i], text) == k;
      }
    }
  }

  /** A repeat by bytes is a repeat by text. */
  lemma RepeatIsRepeat<T>(xs: seq<Exec<T>>, e: Exec<T>)
    requires Repeats(e, Keys(xs, false), false)
    ensures Repeats(e, Keys(xs, true), true)
  {
    KeysHave(xs, KeyOf(e, false), false);
    var i :| 0 <= i < |xs| && KeyOf(xs[i], false) == KeyOf(e, false);
    assert KeyOf(xs[i], true) == KeyOf(e, true);
    KeysHave(xs, KeyOf(e, true), true);
  }

  /** A repeat by text alone means some earlier id was confused with this one. */
  lemma NewIsConfused<T>(xs: seq<Exec<T>>, e: Exec<T>)
    requires Repeats(e, Keys(xs, true), true) && !Repeats(e, Keys(xs, false), false)
    ensures exists i :: 0 <= i < |xs| && Confusable(xs[i], e)
  {
    KeysHave(xs, KeyOf(e, true), true);
    var i :| 0 <= i < |xs| && KeyOf(xs[i], true) == KeyOf(e, true);
    KeysHave(xs, KeyOf(e, false), false);
    assert KeyOf(xs[i], false) != KeyOf(e, false);
    assert Confusable(xs[i], e);
  }

  /** Confusion arises among the earlier executions or with the last one. */
  lemma ConfusedSplits<T>(xs: seq<Exec<T>>)
    requires xs != []
    ensures var n := |xs| - 1;
            Confused(xs) <==> Confused(xs[..n]) || exists i :: 0 <= i < n && Confusable(xs[i], xs[n])
  {
    var n := |xs| - 1;
    var rest := xs[..n];
    if i, j :| 0 <= i < j < |xs| && Confusable(xs[i], xs[j]) {
      if j < n { assert Confusable(rest[i], rest[j]); } else { assert Confusable(xs[i], xs[n]); }
    }
    if i, j :| 0 <= i < j < n && Confusable(rest[i], rest[j]) {
      assert Confusable(xs[i], xs[j]);
    }
  }

  /** An id whose bytes were seen before is confused only if they already were. */
  lemma RepeatedConfusion<T>(xs: seq<Exec<T>>, e: Exec<T>, i: nat)
    requires Repeats(e, Keys(xs, false), false) && i < |xs| && Confusable(xs[i], e)
    ensures Confused(xs)
  {
    KeysHave(xs, KeyOf(e, false), false);
    var k :| 0 <= k < |xs| && KeyOf(xs[k], false) == KeyOf(e, false);
    assert xs[i].id != [] && xs[k].id == e.id;
    if i < k { assert Confusable(xs[i], xs[k]); } else { assert Confusable(xs[k], xs[i]); }
  }

  lemma ConfusableRepeats<T>(xs: seq<Exec<T>>, e: Exec<T>, i: nat)
    requires i < |xs| && Confusable(xs[i], e)
    ensures Repeats(e, Keys(xs, true), true)
  {
    KeysHave(xs, KeyOf(e, true), true);
  }

  /** Keying by bytes keeps at least as many executions, and more as soon as two ids are confused. */
  lemma {:induction false} BytesKeepMore<T>(xs: seq<Exec<T>>)
    ensures |Kept(xs, true)| <= |Kept(xs, false)|
    ensures Confused(xs) ==> |Kept(xs, true)| < |Kept(xs, false)|
    ensures !Confused(xs) ==> Kept(xs, true) == Kept(xs, false)
  {
    hide Keys;
    if xs != [] {
      var n := |xs| - 1;
      var rest, e := xs[..n], xs[n];
      BytesKeepMore(rest);
      ConfusedSplits(xs);
      if i :| 0 <= i < n && Confusable(xs[i], e) {
        assert rest[i] == xs[i];
        ConfusableRepeats(rest, e, i);
        if Repeats(e, Keys(rest, false), false) { RepeatedConfusion(rest, e, i); }
      }
      if Repeats(e, Keys(rest, false), false) {
        RepeatIsRepeat(rest, e);
      } else if Repeats(e, Keys(rest, true), true) {
        NewIsConfused(rest, e);
        var i :| 0 <= i < n && Confusable(rest[i], e);
        assert rest[i] == xs[i];
      }
    }
  }

  /** The two readers keep the same executions exactly when no two ids differ only in non-ASCII bytes. */
  lemma ReadersKeepSameIff<T>(xs: seq<Exec<T>>)
    ensures Kept(xs, true) == Kept(xs, false) <==> !Confused(xs)
  {
    BytesKeepMore(xs);
  }

  /** The smallest example: two one-byte ids above 127. */
  lemma NonAsciiIdsCollide<T>(w: T)
    ensures var xs := [Exec([200], 0, 0, w), Exec([201], 0, 0, w)];
            Kept(xs, true) != Kept(xs, false)
  {
    var xs := [Exec([200], 0, 0, w), Exec([201], 0, 0, w)];
    assert Decode([200]) == Decode([201]);
    assert Confusable(xs[0], xs[1]);
    ReadersKeepSameIff(xs);
  }

  // ---- What a repeat is, from the reports themselves ---------------------------------------------------

  /** Ids that read alike: the same bytes, except that bytes above 127 cannot be told apart. */
  predicate Alike(a: seq<nat>, b: seq<nat>) {
    |a| == |b| && forall i :: 0 <= i < |a| ==> a[i] == b[i] || (a[i] >= 128 && b[i] >= 128)
  }

  /** Two reports of one execution: id, instrument and side agree, the id as one reader or the other sees it. */
  predicate SameExecution<T>(d: Exec<T>, e: Exec<T>, text: bool) {
    (if text then Alike(d.id, e.id) else d.id == e.id) && d.inst == e.inst && d.side == e.side
  }

  lemma DecodesAlike(a: seq<nat>, b: seq<nat>)
    ensures Decode(a) == Decode(b) <==> Alike(a, b)
  {
    if Decode(a) == Decode(b) {
      assert |Decode(a)| == |Decode(b)|;
      forall i | 0 <= i < |a| ensures a[i] == b[i] || (a[i] >= 128 && b[i] >= 128) {
        assert Decode(a)[i] == Decode(b)[i];
      }
    }
  }

  lemma SameKeyIff<T>(d: Exec<T>, e: Exec<T>, text: bool)
    ensures KeyOf(d, text) == KeyOf(e, text) <==> SameExecution(d, e, text)
  {
    DecodesAlike(d.id, e.id);
  }

  /** A report is a repeat exactly when it has an id and an earlier one is of the same execution. */
  lemma RepeatsIff<T>(xs: seq<Exec<T>>, e: Exec<T>, text: bool)
    ensures Repeats(e, Keys(xs, text), text)
            <==> e.id != [] && exists i :: 0 <= i < |xs| && SameExecution(xs[i], e, text)
  {
    hide KeyOf, SameExecution;
    KeysHave(xs, KeyOf(e, text), text);
    forall i | 0 <= i < |xs| ensures KeyOf(xs[i], text) == KeyOf(e, text) <==> SameExecution(xs[i], e, text) {
      SameKeyIff(xs[i], e, text);
    }
  }

  /**
    What is booked, from the reports alone: one without an id, or that differs from every earlier one in id,
    instrument or side, always; any other never.
   */
  lemma KeptNext<T>(xs: seq<Exec<T>>, e: Exec<T>, text: bool)
    ensures (e.id == [] || forall i :: 0 <= i < |xs| ==> !SameExecution(xs[i], e, text)) ==>
              Kept(xs + [e], text) == Kept(xs, text) + [e]
    ensures (e.id != [] && exists i :: 0 <= i < |xs| && SameExecution(xs[i], e, text)) ==>
              Kept(xs + [e], text) == Kept(xs, text)
  {
    assert (xs + [e])[..|xs|] == xs;
    RepeatsIff(xs, e, text);
  }

  /** The buy and the sell of one execution id are both booked, by either reader. */
  lemma BothSidesKept<T>(w: T, text: bool)
    ensures var xs := [Exec([65], 0, 0, w), Exec([65], 0, 1, w)]; Kept(xs, text) == xs
  {
    var buy, sell := Exec([65], 0, 0, w), Exec([65], 0, 1, w);
    KeptNext([], buy, text);
    KeptNext([buy], sell, text);
    assert [] + [buy] == [buy] && [buy] + [sell] == [buy, sell];
  }
}
