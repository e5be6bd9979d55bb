/**
  Repeating groups behind the root block (include/fastmm/codecs/sbe/sbe.hpp and the accessors that
  tools/sbe_gen.py emits): each starts where the one before it ends, and entries are as far apart as the
  writer's block length says.
 */
module SbeGroups {
  import opened Arith
  import opened LittleEndian
  import opened SbeBlocks

  /** A group dimension: where its block length and its entry count are. */
  datatype Dim = Dim(size: nat, lengthAt: nat, lengthBytes: nat, countAt: nat, countBytes: nat)

  predicate DimOk(d: Dim) {
    && d.lengthAt + d.lengthBytes <= d.size && d.countAt + d.countBytes <= d.size
    && (d.lengthAt + d.lengthBytes <= d.countAt || d.countAt + d.countBytes <= d.lengthAt)
  }

  /** A written group. */
  datatype Group = Group(dim: Dim, blockLength: nat, entries: seq<seq<Byte>>)

  /** What the group writer accepts: the dimension can express the count, and entries have the block's length. */
  ghost predicate GroupOk(g: Group) {
    && DimOk(g.dim) && g.blockLength < Pow256(g.dim.lengthBytes) && |g.entries| < Pow256(g.dim.countBytes)
    && forall i :: 0 <= i < |g.entries| ==> |g.entries[i]| == g.blockLength
  }

  function Concat(es: seq<seq<Byte>>): seq<Byte> {
    if es == [] then [] else Concat(es[..|es| - 1]) + es[|es| - 1]
  }

  function Header(d: Dim, blockLength: nat, count: nat): (r: seq<Byte>)
    requires DimOk(d)
    ensures |r| == d.size
  {
    Put(Put(Zeros(d.size), d.lengthAt, LeBytes(blockLength, d.lengthBytes)), d.countAt, LeBytes(count, d.countBytes))
  }

  function Bytes(g: Group): seq<Byte>
    requires DimOk(g.dim)
  {
    Header(g.dim, g.blockLength, |g.entries|) + Concat(g.entries)
  }

  function LengthIn(d: Dim, header: seq<Byte>): nat
    requires DimOk(d) && |header| >= d.size
  {
    LeNumber(header[d.lengthAt..d.lengthAt + d.lengthBytes])
  }

  function CountIn(d: Dim, header: seq<Byte>): nat
    requires DimOk(d) && |header| >= d.size
  {
    LeNumber(header[d.countAt..d.countAt + d.countBytes])
  }

  lemma HeaderReads(d: Dim, blockLength: nat, count: nat)
    requires DimOk(d) && blockLength < Pow256(d.lengthBytes) && count < Pow256(d.countBytes)
    ensures LengthIn(d, Header(d, blockLength, count)) == blockLength
    ensures CountIn(d, Header(d, blockLength, count)) == count
  {
    hide LeNumber, LeBytes;
    LeRoundTrip(blockLength, d.lengthBytes);
    LeRoundTrip(count, d.countBytes);
    var first := Put(Zeros(d.size), d.lengthAt, LeBytes(blockLength, d.lengthBytes));
    var from, to := d.lengthAt, d.lengthAt + d.lengthBytes;
    assert Header(d, blockLength, count)[from..to] == first[from..to];
  }

  /** The dimension's two numbers are little-endian at the places the schema gives them. */
  lemma HeaderIs(d: Dim, blockLength: nat, count: nat)
    requires DimOk(d)
    ensures var r := Header(d, blockLength, count);
            && r[d.lengthAt..d.lengthAt + d.lengthBytes] == LeBytes(blockLength, d.lengthBytes)
            && r[d.countAt..d.countAt + d.countBytes] == LeBytes(count, d.countBytes)
            && forall k :: 0 <= k < d.size ==>
                 d.lengthAt <= k < d.lengthAt + d.lengthBytes || d.countAt <= k < d.countAt + d.countBytes || r[k] == 0
  {
    hide LeBytes;
    var first := Put(Zeros(d.size), d.lengthAt, LeBytes(blockLength, d.lengthBytes));
    var from, to := d.lengthAt, d.lengthAt + d.lengthBytes;
    assert Header(d, blockLength, count)[from..to] == first[from..to];
  }

  lemma {:induction false} ConcatLength(es: seq<seq<Byte>>, n: nat)
    requires forall i :: 0 <= i < |es| ==> |es[i]| == n
    ensures |Concat(es)| == n * |es|
  {
    if es != [] {
      ConcatLength(es[..|es| - 1], n);
      assert n * |es| == n * (|es| - 1) + n;
    }
  }

  lemma {:induction false} ConcatAt(es: seq<seq<Byte>>, n: nat, i: nat)
    requires i < |es| && forall i :: 0 <= i < |es| ==> |es[i]| == n
    ensures 0 <= n * i <= n * i + n <= |Concat(es)| && Concat(es)[n * i..n * i + n] == es[i]
  {
    var k := |es| - 1;
    var front := Concat(es[..k]);
    ConcatLength(es, n);
    ConcatLength(es[..k], n);
    assert n * |es| == n * k + n;
    if i == k {
      assert Concat(es)[n * k..n * k + n] == es[k];
    } else {
      ConcatAt(es[..k], n, i);
      assert Concat(es)[n * i..n * i + n] == front[n * i..n * i + n];
    }
  }

  // ---- Reading ---------------------------------------------------------------------------------------------

  /** What a reader's schema says of a group. */
  datatype GroupSchema = GroupSchema(dim: Dim, required: nat)

  /** The group view: it spans `at` to `end` of the body when it is valid. */
  datatype View = View(at: nat, first: nat, blockLength: nat, count: nat, end: nat) | Invalid

  /** Every entry of a valid view lies inside the body and is long enough for its reader. */
  function ReadGroup(body: seq<Byte>, at: nat, g: GroupSchema): (v: View)
    requires DimOk(g.dim)
    ensures v.View? ==> v.at == at && v.first + v.blockLength * v.count == v.end <= |body|
    ensures v.View? && v.count > 0 ==> v.blockLength >= g.required
  {
    if at > |body| || |body| - at < g.dim.size then Invalid
    else
      var header := body[at..at + g.dim.size];
      Viewed(at, g, LengthIn(g.dim, header), CountIn(g.dim, header), |body|)
  }

  /** The view of a group whose dimension says `n` bytes an entry and `k` entries. */
  function Viewed(at: nat, g: GroupSchema, n: nat, k: nat, size: nat): (v: View)
    ensures v.View? ==> v.at == at && v.first + v.blockLength * v.count == v.end <= size
    ensures v.View? && v.count > 0 ==> v.blockLength >= g.required
  {
    MulMonotone(0, k, n);
    if g.dim.size + n * k > size - at || (k != 0 && n < g.required) then Invalid
    else View(at, at + g.dim.size, n, k, at + g.dim.size + n * k)
  }

  /** Group `k` starts where group `k - 1` ends, the first behind the acting root block. */
  function GroupAt(body: seq<Byte>, root: nat, gs: seq<GroupSchema>, k: nat): View
    requires k < |gs| && forall i :: 0 <= i < |gs| ==> DimOk(gs[i].dim)
  {
    if k == 0 then ReadGroup(body, root, gs[0])
    else
      var before := GroupAt(body, root, gs, k - 1);
      if before.Invalid? then Invalid else ReadGroup(body, before.end, gs[k])
  }

  function Entry(body: seq<Byte>, v: View, i: nat): seq<Byte>
    requires v.View? && i < v.count && v.first + v.blockLength * v.count <= |body|
  {
    StrideFits(v.blockLength, i, v.count);
    body[v.first + v.blockLength * i..v.first + v.blockLength * i + v.blockLength]
  }

  lemma StrideFits(n: nat, i: nat, count: nat)
    requires i < count
    ensures n * i + n <= n * count
  {
    MulMonotone(i + 1, count, n);
    assert n * i + n == n * (i + 1);
  }

  // ---- What was written is what is read ----------------------------------------------------------------------

  function Tail(gs: seq<Group>): seq<Byte>
    requires forall i :: 0 <= i < |gs| ==> DimOk(gs[i].dim)
  {
    if gs == [] then [] else Tail(gs[..|gs| - 1]) + Bytes(gs[|gs| - 1])
  }

  lemma {:induction false} TailAt(gs: seq<Group>, k: nat)
    requires k < |gs| && forall i :: 0 <= i < |gs| ==> DimOk(gs[i].dim)
    ensures var at := |Tail(gs[..k])|;
            && at + |Bytes(gs[k])| == |Tail(gs[..k + 1])| <= |Tail(gs)|
            && Tail(gs)[at..at + |Bytes(gs[k])|] == Bytes(gs[k])
  {
    hide Bytes;
    var n := |gs| - 1;
    assert gs[..k + 1][..k] == gs[..k];
    if k == n {
      assert gs[..k + 1] == gs;
    } else {
      TailAt(gs[..n], k);
      assert gs[..n][..k] == gs[..k] && gs[..n][..k + 1] == gs[..k + 1];
      var at := |Tail(gs[..k])|;
      assert Tail(gs)[at..at + |Bytes(gs[k])|] == Tail(gs[..n])[at..at + |Bytes(gs[k])|];
    }
  }

  /** How a written group looks to its reader. */
  function Seen(g: Group, at: nat): View {
    View(at, at + g.dim.size, g.blockLength, |g.entries|, at + g.dim.size + g.blockLength * |g.entries|)
  }

  /** The bytes of a group are read as that group, wherever they are. */
  lemma BytesRead(body: seq<Byte>, at: nat, g: Group, r: GroupSchema)
    requires GroupOk(g) && r.dim == g.dim && at + |Bytes(g)| <= |body| && body[at..at + |Bytes(g)|] == Bytes(g)
    requires g.entries == [] || g.blockLength >= r.required
    ensures ReadGroup(body, at, r) == Seen(g, at) && Seen(g, at).end == at + |Bytes(g)|
  {
    hide LengthIn, CountIn, Header, Concat;
    var size := g.dim.size;
    ConcatLength(g.entries, g.blockLength);
    HeaderReads(g.dim, g.blockLength, |g.entries|);
    assert body[at..at + size] == Header(g.dim, g.blockLength, |g.entries|) by {
      assert Bytes(g)[..size] == Header(g.dim, g.blockLength, |g.entries|);
      assert body[at..at + |Bytes(g)|][..size] == body[at..at + size];
    }
  }

  lemma Within(s: seq<Byte>, at: nat, part: seq<Byte>, header: seq<Byte>, tail: seq<Byte>, from: nat, to: nat)
    requires part == header + tail && at + |part| <= |s| && s[at..at + |part|] == part && from <= to <= |tail|
    ensures s[at + |header| + from..at + |header| + to] == tail[from..to]
  {
    var x, start := s[at + |header| + from..at + |header| + to], |header| + from;
    forall k | 0 <= k < |x| ensures x[k] == tail[from..to][k] {
      assert s[at..at + |part|][start + k] == part[start + k];
    }
  }

  lemma EntriesRead(body: seq<Byte>, at: nat, g: Group, i: nat)
    requires GroupOk(g) && at + |Bytes(g)| <= |body| && body[at..at + |Bytes(g)|] == Bytes(g) && i < |g.entries|
    ensures Seen(g, at).end <= |body| && Entry(body, Seen(g, at), i) == g.entries[i]
  {
    hide Header, Concat, DimOk, Pow256;
    var n := g.blockLength;
    ConcatLength(g.entries, n);
    ConcatAt(g.entries, n, i);
    StrideFits(n, i, |g.entries|);
    Within(body, at, Bytes(g), Header(g.dim, n, |g.entries|), Concat(g.entries), n * i, n * i + n);
  }

  /** A reader's groups and the written ones are the same groups, perhaps of different versions. */
  ghost predicate Fit(gs: seq<Group>, rs: seq<GroupSchema>) {
    && (forall i :: 0 <= i < |gs| ==> GroupOk(gs[i]))
    && (forall i :: 0 <= i < |rs| ==> DimOk(rs[i].dim))
    && forall i :: 0 <= i < |gs| && i < |rs| ==>
         rs[i].dim == gs[i].dim && (gs[i].entries == [] || gs[i].blockLength >= rs[i].required)
  }

  /**
    Whatever their block lengths, groups are read as written, entry by entry: a longer block of a newer
    version is stepped over correctly.
   */
  lemma {:induction false} GroupsReadBack(block: seq<Byte>, gs: seq<Group>, rest: seq<Byte>, rs: seq<GroupSchema>,
                                          k: nat)
    requires Fit(gs, rs) && k < |gs| && k < |rs|
    ensures var body := block + Tail(gs) + rest;
            var v := Seen(gs[k], |block| + |Tail(gs[..k])|);
            && GroupAt(body, |block|, rs, k) == v && v.end == |block| + |Tail(gs[..k + 1])| <= |body|
            && forall i :: 0 <= i < |gs[k].entries| ==> Entry(body, v, i) == gs[k].entries[i]
  {
    hide Bytes, ReadGroup, Entry, DimOk, Pow256;
    var body := block + Tail(gs) + rest;
    var at := |block| + |Tail(gs[..k])|;
    if k > 0 {
      GroupsReadBack(block, gs, rest, rs, k - 1);
    } else {
      assert gs[..0] == [];
    }
    TailAt(gs, k);
    Shifted(block, Tail(gs), rest, |Tail(gs[..k])|, |Tail(gs[..k + 1])|);
    BytesRead(body, at, gs[k], rs[k]);
    forall i: nat | i < |gs[k].entries| ensures Entry(body, Seen(gs[k], at), i) == gs[k].entries[i] {
      EntriesRead(body, at, gs[k], i);
    }
  }

  lemma Shifted(a: seq<Byte>, b: seq<Byte>, c: seq<Byte>, from: nat, to: nat)
    requires from <= to <= |b|
    ensures (a + b + c)[|a| + from..|a| + to] == b[from..to]
  {
  }

  /** The generated valid(), as far as the groups go: the last view decides. */
  ghost predicate GroupsValid(body: seq<Byte>, root: nat, rs: seq<GroupSchema>)
    requires forall i :: 0 <= i < |rs| ==> DimOk(rs[i].dim)
  {
    rs == [] || GroupAt(body, root, rs, |rs| - 1).View?
  }

  /** A view does not change when more bytes follow. */
  lemma {:induction false} ViewStays(body: seq<Byte>, more: seq<Byte>, root: nat, rs: seq<GroupSchema>, k: nat)
    requires k < |rs| && (forall i :: 0 <= i < |rs| ==> DimOk(rs[i].dim)) && GroupAt(body, root, rs, k).View?
    ensures GroupAt(body + more, root, rs, k) == GroupAt(body, root, rs, k)
  {
    hide ReadGroup;
    if k > 0 {
      ViewStays(body, more, root, rs, k - 1);
      GroupStays(body, more, GroupAt(body, root, rs, k - 1).end, rs[k]);
    } else {
      GroupStays(body, more, root, rs[0]);
    }
  }

  lemma GroupStays(body: seq<Byte>, more: seq<Byte>, at: nat, g: GroupSchema)
    requires DimOk(g.dim) && ReadGroup(body, at, g).View?
    ensures ReadGroup(body + more, at, g) == ReadGroup(body, at, g)
  {
    hide LengthIn, CountIn;
    assert (body + more)[at..at + g.dim.size] == body[at..at + g.dim.size];
  }

  /** A message cut anywhere before its end is not valid. */
  lemma CutIsInvalid(block: seq<Byte>, gs: seq<Group>, rs: seq<GroupSchema>, m: nat)
    requires Fit(gs, rs) && |gs| == |rs| > 0 && m < |block + Tail(gs)|
    ensures !GroupsValid((block + Tail(gs))[..m], |block|, rs)
  {
    hide GroupAt, Tail, Seen;
    var body := block + Tail(gs);
    var n := |rs| - 1;
    assert body == block + Tail(gs) + [] && gs[..n + 1] == gs;
    GroupsReadBack(block, gs, [], rs, n);
    if GroupAt(body[..m], |block|, rs, n).View? {
      assert body[..m] + body[m..] == body;
      ViewStays(body[..m], body[m..], |block|, rs, n);
      ViewEnds(body[..m], |block|, rs, n);
      assert false;
    }
  }

  lemma ViewEnds(body: seq<Byte>, root: nat, rs: seq<GroupSchema>, k: nat)
    requires k < |rs| && (forall i :: 0 <= i < |rs| ==> DimOk(rs[i].dim)) && GroupAt(body, root, rs, k).View?
    ensures GroupAt(body, root, rs, k).end <= |body|
  {
    hide ReadGroup;
  }

  /**
    A complete message is valid to a reader exactly when it carries every group the reader knows: a group
    added by a later version makes the messages of earlier ones invalid.
   */
  lemma {:induction false} ValidIffComplete(block: seq<Byte>, gs: seq<Group>, rs: seq<GroupSchema>)
    requires Fit(gs, rs) && forall i :: 0 <= i < |rs| ==> rs[i].dim.size > 0
    ensures GroupsValid(block + Tail(gs), |block|, rs) <==> |rs| <= |gs|
  {
    hide GroupAt, Tail;
    var body := block + Tail(gs);
    assert body == block + Tail(gs) + [];
    var n := |rs| - 1;
    if rs != [] && |rs| <= |gs| {
      GroupsReadBack(block, gs, [], rs, n);
    } else if |rs| > |gs| {
      MissingIsInvalid(block, gs, rs, n);
    }
  }

  /**
    A message of two bytes and no group, as its first version writes it: valid to its own reader, but not
    once a group (of three dimension bytes) has been added to the schema.
   */
  lemma AddedGroupBreaks()
    ensures var block: seq<Byte> := [1, 2];
            && GroupsValid(block, |block|, []) && !GroupsValid(block, |block|, [GroupSchema(Dim(3, 0, 2, 2, 1), 4)])
  {
    var block: seq<Byte>, rs := [1, 2], [GroupSchema(Dim(3, 0, 2, 2, 1), 4)];
    assert block + Tail([]) == block;
    ValidIffComplete(block, [], rs);
  }

  lemma {:induction false} MissingIsInvalid(block: seq<Byte>, gs: seq<Group>, rs: seq<GroupSchema>, k: nat)
    requires Fit(gs, rs) && (forall i :: 0 <= i < |rs| ==> rs[i].dim.size > 0) && |gs| <= k < |rs|
    ensures GroupAt(block + Tail(gs), |block|, rs, k).Invalid?
  {
    hide LengthIn, CountIn;
    var body := block + Tail(gs);
    assert body == block + Tail(gs) + [];
    if k > |gs| {
      MissingIsInvalid(block, gs, rs, k - 1);
    } else if k > 0 {
      GroupsReadBack(block, gs, [], rs, k - 1);
      assert gs[..k] == gs;
    }
  }
}
