/**
  Where the SBE compiler puts the fields of a block and the members of a composite
  (tools/sbe_gen.py; sections 3 and 5 of FIX Simple Binary Encoding 1.0): in schema order, each at its
  own offset attribute or right after the one before it.
 */
module SbeLayout {
  import opened Wrappers

  /** What is placed: the offset attribute, if any, and the encoded size (0: not on the wire). */
  datatype Item = Item(offset: Option<int>, size: nat)

  datatype Placed = Placed(at: seq<nat>, end: nat) | Overlap(index: nat)

  /** The running position decides; an item without size keeps no place (its entry is not used). */
  function Place(items: seq<Item>): (r: Placed)
    ensures r.Placed? ==> |r.at| == |items|
    ensures r.Overlap? ==> r.index < |items|
  {
    if items == [] then Placed([], 0)
    else
      var n := |items| - 1;
      var rest, item := Place(items[..n]), items[n];
      if rest.Overlap? then rest
      else if item.size == 0 then Placed(rest.at + [rest.end], rest.end)
      else if item.offset.None? then Placed(rest.at + [rest.end], rest.end + item.size)
      else if item.offset.value < rest.end then Overlap(n)
      else Placed(rest.at + [item.offset.value], item.offset.value + item.size)
  }

  datatype Layout = Laid(at: seq<nat>, blockLength: nat) | Overlaps(index: nat) | Beyond(end: nat)

  function LayOut(items: seq<Item>, blockLength: Option<int>): Layout {
    var p := Place(items);
    if p.Overlap? then Overlaps(p.index)
    else if blockLength.None? then Laid(p.at, p.end)
    else if p.end > blockLength.value then Beyond(p.end)
    else Laid(p.at, blockLength.value)
  }

  /** The compiler's loop. */
  method Compile(items: seq<Item>, blockLength: Option<int>) returns (r: Layout)
    ensures r == LayOut(items, blockLength)
  {
    var pos: nat, at: seq<nat> := 0, [];
    for i := 0 to |items|
      invariant Place(items[..i]) == Placed(at, pos)
    {
      assert items[..i + 1][..i] == items[..i];
      var item := items[i];
      if item.size == 0 {
        at := at + [pos];
      } else {
        var offset := if item.offset.None? then pos else item.offset.value;
        if offset < pos {
          OverlapStays(items, i + 1);
          return Overlaps(i);
        }
        at, pos := at + [offset], offset + item.size;
      }
    }
    assert items[..|items|] == items;
    if blockLength.None? { return Laid(at, pos); }
    if pos > blockLength.value { return Beyond(pos); }
    return Laid(at, blockLength.value);
  }

  lemma {:induction false} OverlapStays(items: seq<Item>, k: nat)
    requires k <= |items| && Place(items[..k]).Overlap?
    ensures Place(items) == Place(items[..k])
  {
    if k == |items| {
      assert items[..k] == items;
    } else {
      var n := |items| - 1;
      assert items[..n][..k] == items[..k];
      OverlapStays(items[..n], k);
    }
  }

  // ---- What a layout is ---------------------------------------------------------------------------------

  /** Items in schema order, none overlapping another, offsets honoured, all before `end`. */
  ghost predicate Arranged(items: seq<Item>, at: seq<nat>, end: int) {
    && |at| == |items| && end >= 0
    && (forall i :: 0 <= i < |items| && items[i].size > 0 ==> at[i] + items[i].size <= end)
    && (forall i :: 0 <= i < |items| && items[i].size > 0 && items[i].offset.Some? ==> at[i] == items[i].offset.value)
    && forall i, j :: 0 <= i < j < |items| && items[i].size > 0 && items[j].size > 0 ==> at[i] + items[i].size <= at[j]
  }

  lemma {:induction false} PlacedIsArranged(items: seq<Item>)
    requires Place(items).Placed?
    ensures Arranged(items, Place(items).at, Place(items).end)
  {
    if items != [] {
      PlacedIsArranged(items[..|items| - 1]);
    }
  }

  /** Packing is least: whatever arrangement there is, the compiler finds one that ends no later. */
  lemma {:induction false} PlacingIsLeast(items: seq<Item>, at: seq<nat>, end: int)
    requires Arranged(items, at, end)
    ensures Place(items).Placed? && Place(items).end <= end
  {
    if items != [] {
      var n := |items| - 1;
      var before: int := if items[n].size > 0 then at[n] else end;
      PlacingIsLeast(items[..n], at[..n], before);
    }
  }

  ghost predicate Fits(items: seq<Item>, end: int) { exists at :: Arranged(items, at, end) }

  ghost predicate Arrangeable(items: seq<Item>) { exists at, end :: Arranged(items, at, end) }

  /** A schema is refused exactly when no ordered arrangement honours its offsets and its block length. */
  lemma AcceptedIff(items: seq<Item>, blockLength: Option<int>)
    ensures LayOut(items, blockLength).Laid?
            <==> if blockLength.Some? then Fits(items, blockLength.value) else Arrangeable(items)
    ensures LayOut(items, blockLength).Laid? ==>
              Arranged(items, LayOut(items, blockLength).at, LayOut(items, blockLength).blockLength)
  {
    var r := LayOut(items, blockLength);
    if r.Laid? {
      PlacedIsArranged(items);
      assert Arranged(items, r.at, r.blockLength);
    }
    if blockLength.Some? {
      if at :| Arranged(items, at, blockLength.value) { PlacingIsLeast(items, at, blockLength.value); }
    } else {
      if at, end :| Arranged(items, at, end) { PlacingIsLeast(items, at, end); }
    }
  }

  /** Items appended to a block do not move the ones before them. */
  lemma {:induction false} PrefixKeepsPlace(items: seq<Item>, k: nat)
    requires k <= |items| && Place(items).Placed?
    ensures Place(items[..k]).Placed? && Place(items[..k]).at == Place(items).at[..k]
    ensures Place(items[..k]).end <= Place(items).end
  {
    if k == |items| {
      assert items[..k] == items && Place(items).at[..k] == Place(items).at;
    } else {
      var n := |items| - 1;
      assert items[..n][..k] == items[..k];
      PrefixKeepsPlace(items[..n], k);
      assert Place(items).at[..k] == Place(items[..n]).at[..k];
    }
  }

  /** An item without an offset attribute follows the items before it without a gap. */
  lemma PackedTight(items: seq<Item>, i: nat)
    requires i < |items| && Place(items).Placed? && items[i].size > 0 && items[i].offset.None?
    ensures Place(items[..i]).Placed? && Place(items).at[i] == Place(items[..i]).end
  {
    PrefixKeepsPlace(items, i);
    PrefixKeepsPlace(items, i + 1);
    assert items[..i + 1][..i] == items[..i];
    assert Place(items[..i + 1]).at[i] == Place(items).at[i];
  }
}
