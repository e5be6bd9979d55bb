/**
  The .fmj journal's framing: blocks of messages after a file header, read by two independent
  readers (tools/journal_dump.py and python/fastmm/_fmj.py) and written block by block.

  A message is the sequence of its bytes, header included; both readers decode their events from
  exactly those bytes.
 */
module Journal {
  import opened LittleEndian
  import Crc32c

  const BLOCK_HEADER := 64
  const EVENT_HEADER := 64
  const MAGIC: seq<Byte> := [0x46, 0x4D, 0x4A, 0x42]  // "FMJB"

  /** A little-endian 32-bit field. */
  function U32(data: seq<Byte>, at: nat): nat
    requires at + 4 <= |data|
  {
    LeNumber(data[at..at + 4])
  }

  lemma Pow256Is()
    ensures Pow256(4) == 0x1_0000_0000
  {
    assert Pow256(2) == 0x1_0000;
    assert Pow256(3) == 0x100 * Pow256(2);
  }

  /** The bytes of one message, header included. */
  datatype Message = Message(bytes: seq<Byte>)

  /** The bytes of one block's payload. */
  datatype Slab = Slab(bytes: seq<Byte>)

  /** A checksum of payloads; Crc (below) is the one the format prescribes. */
  type Summing = seq<Byte> -> nat

  // ---- What a journal says ------------------------------------------------------------------------

  /** A message starts here and fits. */
  predicate HasMessage(payload: seq<Byte>) {
    |payload| >= EVENT_HEADER && EVENT_HEADER <= U32(payload, 0) <= |payload|
  }

  /** The messages of a block, up to the first bad length. */
  function Messages(payload: seq<Byte>): seq<Message>
    decreases |payload|
  {
    if !HasMessage(payload) then []
    else var n := U32(payload, 0); [Message(payload[..n])] + Messages(payload[n..])
  }

  /** A whole block starts here. */
  predicate HasBlock(data: seq<Byte>) {
    |data| >= BLOCK_HEADER && data[..4] == MAGIC && BLOCK_HEADER + U32(data, 4) <= |data|
  }

  function Payload(data: seq<Byte>): seq<Byte>
    requires HasBlock(data)
  {
    data[BLOCK_HEADER..BLOCK_HEADER + U32(data, 4)]
  }

  function AfterBlock(data: seq<Byte>): seq<Byte>
    requires HasBlock(data)
  {
    data[BLOCK_HEADER + U32(data, 4)..]
  }

  predicate IsTrailer(data: seq<Byte>)
    requires HasBlock(data)
  {
    U32(data, 32) % 2 == 1
  }

  /** The flag is the lowest bit of byte 32; no other bit of the header matters. */
  lemma TrailerFlag(data: seq<Byte>)
    requires HasBlock(data)
    ensures IsTrailer(data) <==> data[32] % 2 == 1
  {
    assert data[32..36][0] == data[32];
  }

  /** The payloads of the complete blocks; one reader stops after the trailer, the other does not. */
  function Blocks(data: seq<Byte>, stop: bool): seq<Slab>
    decreases |data|
  {
    if !HasBlock(data) then []
    else [Slab(Payload(data))] + if stop && IsTrailer(data) then [] else Blocks(AfterBlock(data), stop)
  }

  function Flatten(blocks: seq<Slab>): seq<Message> {
    if blocks == [] then [] else Messages(blocks[0].bytes) + Flatten(blocks[1..])
  }

  /** The events of a journal from its first block on. */
  function Events(data: seq<Byte>, stop: bool): seq<Message>
    decreases |data|
  {
    if !HasBlock(data) then []
    else Messages(Payload(data)) + if stop && IsTrailer(data) then [] else Events(AfterBlock(data), stop)
  }

  /** They are the messages of the complete blocks. */
  lemma {:induction false} EventsAreBlocks(data: seq<Byte>, stop: bool)
    ensures Events(data, stop) == Flatten(Blocks(data, stop))
    decreases |data|
  {
    if HasBlock(data) {
      var rest := if stop && IsTrailer(data) then [] else Blocks(AfterBlock(data), stop);
      if !(stop && IsTrailer(data)) { EventsAreBlocks(AfterBlock(data), stop); }
      assert ([Slab(Payload(data))] + rest)[1..] == rest;
    }
  }

  function From(data: seq<Byte>, start: nat): seq<Byte> { if start <= |data| then data[start..] else [] }

  // ---- The readers ----------------------------------------------------------------------------------

  datatype Stats = Stats(blocks: nat, badBlocks: nat, trailer: bool)

  /** The blocks whose stored checksum is wrong. */
  function BadBlocks(data: seq<Byte>, crc: Summing): nat
    decreases |data|
  {
    if !HasBlock(data) then 0
    else (if crc(Payload(data)) != U32(data, 28) then 1 else 0) +
         if IsTrailer(data) then 0 else BadBlocks(AfterBlock(data), crc)
  }

  predicate EndsWithTrailer(data: seq<Byte>)
    decreases |data|
  {
    HasBlock(data) && (IsTrailer(data) || EndsWithTrailer(AfterBlock(data)))
  }

  /** The message at a position of a payload, if one fits there. */
  lemma MessageAt(payload: seq<Byte>, pos: nat)
    requires pos + EVENT_HEADER <= |payload|
    ensures var n := U32(payload, pos);
            if EVENT_HEADER <= n && pos + n <= |payload|
            then Messages(payload[pos..]) == [Message(payload[pos..pos + n])] + Messages(payload[pos + n..])
            else Messages(payload[pos..]) == []
  {
    var n := U32(payload, pos);
    assert payload[pos..][0..4] == payload[pos..pos + 4];
    assert U32(payload[pos..], 0) == n;
    if EVENT_HEADER <= n && pos + n <= |payload| {
      assert payload[pos..][..n] == payload[pos..pos + n];
      assert payload[pos..][n..] == payload[pos + n..];
    }
  }

  lemma Associates(a: seq<Message>, b: seq<Message>, c: seq<Message>)
    ensures a + (b + c) == (a + b) + c
  {
  }

  /** The messages of one payload, by advancing a position in it. */
  method ReadPayload(payload: seq<Byte>) returns (out: seq<Message>)
    ensures out == Messages(payload)
  {
    out := [];
    var pos := 0;
    while pos + EVENT_HEADER <= |payload|
      invariant 0 <= pos <= |payload|
      invariant Messages(payload) == out + Messages(payload[pos..])
      decreases |payload| - pos
    {
      var length := U32(payload, pos);
      MessageAt(payload, pos);
      ghost var before := out;
      if length < EVENT_HEADER || pos + length > |payload| { break; }
      out := out + [Message(payload[pos..pos + length])];
      Associates(before, [Message(payload[pos..pos + length])], Messages(payload[pos + length..]));
      pos := pos + length;
    }
    assert out + [] == out;
  }

  lemma {:induction false} FlattenJoin(a: seq<Slab>, b: seq<Slab>)
    ensures Flatten(a + b) == Flatten(a) + Flatten(b)
  {
    if a == [] {
      assert a + b == b;
    } else {
      assert (a + b)[1..] == a[1..] + b;
      FlattenJoin(a[1..], b);
    }
  }

  // The same, by offset into the file: what the readers' loops compute.

  predicate BlockAt(data: seq<Byte>, off: nat) {
    && off + BLOCK_HEADER <= |data| && data[off..off + 4] == MAGIC
    && off + BLOCK_HEADER + U32(data, off + 4) <= |data|
  }

  function EndAt(data: seq<Byte>, off: nat): nat
    requires BlockAt(data, off)
  {
    off + BLOCK_HEADER + U32(data, off + 4)
  }

  predicate TrailerAt(data: seq<Byte>, off: nat)
    requires BlockAt(data, off)
  {
    U32(data, off + 32) % 2 == 1
  }

  function BlocksFrom(data: seq<Byte>, off: nat, stop: bool): seq<Slab>
    decreases |data| - off
  {
    if !BlockAt(data, off) then []
    else [Slab(data[off + BLOCK_HEADER..EndAt(data, off)])] +
         if stop && TrailerAt(data, off) then [] else BlocksFrom(data, EndAt(data, off), stop)
  }

  function BadFrom(data: seq<Byte>, off: nat, crc: Summing): nat
    decreases |data| - off
  {
    if !BlockAt(data, off) then 0
    else (if crc(data[off + BLOCK_HEADER..EndAt(data, off)]) != U32(data, off + 28) then 1 else 0) +
         if TrailerAt(data, off) then 0 else BadFrom(data, EndAt(data, off), crc)
  }

  predicate TrailerFrom(data: seq<Byte>, off: nat)
    decreases |data| - off
  {
    BlockAt(data, off) && (TrailerAt(data, off) || TrailerFrom(data, EndAt(data, off)))
  }

  lemma FieldAt(data: seq<Byte>, off: nat, at: nat)
    requires off + at + 4 <= |data|
    ensures U32(data[off..], at) == U32(data, off + at)
  {
    assert data[off..][at..at + 4] == data[off + at..off + at + 4];
  }

  /** A block at an offset is a block at the start of the rest of the file. */
  lemma RestAt(data: seq<Byte>, off: nat)
    ensures BlockAt(data, off) <==> HasBlock(From(data, off))
    ensures BlockAt(data, off) ==>
              && Payload(From(data, off)) == data[off + BLOCK_HEADER..EndAt(data, off)]
              && AfterBlock(From(data, off)) == From(data, EndAt(data, off))
              && IsTrailer(From(data, off)) == TrailerAt(data, off)
              && U32(From(data, off), 28) == U32(data, off + 28)
  {
    if off + BLOCK_HEADER <= |data| {
      FieldAt(data, off, 4);
      FieldAt(data, off, 28);
      FieldAt(data, off, 32);
      assert data[off..][..4] == data[off..off + 4];
    }
  }

  /** Reading from an offset is reading the rest of the file. */
  lemma {:induction false} FromIsRest(data: seq<Byte>, off: nat, stop: bool)
    ensures BlocksFrom(data, off, stop) == Blocks(From(data, off), stop)
    decreases |data| - off
  {
    RestAt(data, off);
    if BlockAt(data, off) {
      FromIsRest(data, EndAt(data, off), stop);
    }
  }

  lemma {:induction false} CountsFromRest(data: seq<Byte>, off: nat, crc: Summing)
    ensures BadFrom(data, off, crc) == BadBlocks(From(data, off), crc)
    ensures TrailerFrom(data, off) == EndsWithTrailer(From(data, off))
    decreases |data| - off
  {
    RestAt(data, off);
    if BlockAt(data, off) {
      CountsFromRest(data, EndAt(data, off), crc);
    }
  }

  /** One more block read. */
  lemma OneMore(done: seq<Slab>, payload: seq<Byte>, rest: seq<Slab>)
    ensures Flatten(done + [Slab(payload)]) == Flatten(done) + Messages(payload)
    ensures done + ([Slab(payload)] + rest) == (done + [Slab(payload)]) + rest
  {
    FlattenJoin(done, [Slab(payload)]);
    assert Flatten([Slab(payload)]) == Messages(payload) + Flatten([]);
  }

  /** journal_dump's reader: it stops after the trailer block and counts what it sees. */
  method IterEvents(data: seq<Byte>, start: nat, crc: Summing) returns (out: seq<Message>, stats: Stats)
    ensures out == Events(From(data, start), true)
    ensures stats.blocks == |Blocks(From(data, start), true)|
    ensures stats.badBlocks == BadBlocks(From(data, start), crc)
    ensures stats.trailer == EndsWithTrailer(From(data, start))
  {
    hide Events, Blocks, BadBlocks, EndsWithTrailer, U32, Messages;
    FromIsRest(data, start, true);
    CountsFromRest(data, start, crc);
    EventsAreBlocks(From(data, start), true);
    out, stats := [], Stats(0, 0, false);
    var off := start;
    ghost var done: seq<Slab> := [];
    while off + BLOCK_HEADER <= |data|
      invariant start <= off && !stats.trailer && out == Flatten(done)
      invariant BlocksFrom(data, start, true) == done + BlocksFrom(data, off, true)
      invariant stats.blocks == |done| && BadFrom(data, start, crc) == stats.badBlocks + BadFrom(data, off, crc)
      invariant TrailerFrom(data, start) == TrailerFrom(data, off)
      decreases |data| - off
    {
      var found, end := FindBlock(data, off);
      if !found { break; }
      var payload := data[off + BLOCK_HEADER..end];
      var trailer, bad := U32(data, off + 32) % 2 == 1, crc(payload) != U32(data, off + 28);
      var more := ReadPayload(payload);
      OneMore(done, payload, if trailer then [] else BlocksFrom(data, end, true));
      stats := Stats(stats.blocks + 1, stats.badBlocks + if bad then 1 else 0, trailer);
      out, done := out + more, done + [Slab(payload)];
      if trailer {
        assert done + [] == done;
        return;
      }
      off := end;
    }
    assert done + [] == done;
  }

  /** Where the block at `off` ends, if its magic is right and all of it is there. */
  method FindBlock(data: seq<Byte>, off: nat) returns (found: bool, end: nat)
    requires off + BLOCK_HEADER <= |data|
    ensures found == BlockAt(data, off)
    ensures found ==> end == EndAt(data, off)
  {
    found, end := false, off + BLOCK_HEADER + U32(data, off + 4);
    if data[off..off + 4] != MAGIC { return; }
    if end > |data| { return; }
    found := true;
  }

  lemma MessageInPlace(data: seq<Byte>, pos: nat, end: nat)
    requires pos + EVENT_HEADER <= end <= |data|
    ensures var n := U32(data, pos);
            if EVENT_HEADER <= n && pos + n <= end
            then Messages(data[pos..end]) == [Message(data[pos..pos + n])] + Messages(data[pos + n..end])
            else Messages(data[pos..end]) == []
  {
    var n := U32(data, pos);
    assert data[..end][pos..] == data[pos..end];
    assert data[..end][pos..pos + 4] == data[pos..pos + 4];
    assert U32(data[..end], pos) == n;
    MessageAt(data[..end], pos);
    if EVENT_HEADER <= n && pos + n <= end {
      assert data[..end][pos + n..] == data[pos + n..end];
      assert data[..end][pos..pos + n] == data[pos..pos + n];
    }
  }

  /** The messages between two offsets of the file, without copying the payload. */
  method ReadInPlace(data: seq<Byte>, start: nat, payloadEnd: nat) returns (out: seq<Message>)
    requires start <= payloadEnd <= |data|
    ensures out == Messages(data[start..payloadEnd])
  {
    hide Messages;
    out := [];
    var pos := start;
    while pos + EVENT_HEADER <= payloadEnd
      invariant start <= pos <= payloadEnd
      invariant Messages(data[start..payloadEnd]) == out + Messages(data[pos..payloadEnd])
      decreases payloadEnd - pos
    {
      var length := U32(data, pos);
      MessageInPlace(data, pos, payloadEnd);
      if length < EVENT_HEADER || pos + length > payloadEnd { break; }
      Associates(out, [Message(data[pos..pos + length])], Messages(data[pos + length..payloadEnd]));
      out := out + [Message(data[pos..pos + length])];
      pos := pos + length;
    }
    if pos + EVENT_HEADER > payloadEnd { ShortHasNone(data[pos..payloadEnd]); }
    assert out + [] == out;
  }

  lemma ShortHasNone(payload: seq<Byte>)
    requires |payload| < EVENT_HEADER
    ensures Messages(payload) == []
  {
  }

  /** _fmj's reader: it walks the file itself, past a trailer too. */
  method IterEventsInPlace(data: seq<Byte>, start: nat) returns (out: seq<Message>)
    ensures out == Events(From(data, start), false)
  {
    FromIsRest(data, start, false);
    EventsAreBlocks(From(data, start), false);
    out := [];
    var off := start;
    ghost var done: seq<Slab> := [];
    while off + BLOCK_HEADER <= |data|
      invariant start <= off && out == Flatten(done)
      invariant BlocksFrom(data, start, false) == done + BlocksFrom(data, off, false)
      decreases |data| - off
    {
      var found, payloadEnd := FindBlock(data, off);
      if !found { break; }
      var more := ReadInPlace(data, off + BLOCK_HEADER, payloadEnd);
      OneMore(done, data[off + BLOCK_HEADER..payloadEnd], BlocksFrom(data, payloadEnd, false));
      out, done := out + more, done + [Slab(data[off + BLOCK_HEADER..payloadEnd])];
      off := payloadEnd;
    }
    assert done + [] == done;
  }

  // ---- Two readers, one journal -----------------------------------------------------------------------

  /** What follows the first trailer block (nothing, if there is none). */
  function AfterTrailer(data: seq<Byte>): seq<Byte>
    decreases |data|
  {
    if !HasBlock(data) then [] else if IsTrailer(data) then AfterBlock(data) else AfterTrailer(AfterBlock(data))
  }

  /** The second reader yields the first one's events and then whatever it finds past the trailer. */
  lemma {:induction false} ReadersDiffer(data: seq<Byte>)
    ensures Events(data, false) == Events(data, true) + Events(AfterTrailer(data), false)
    decreases |data|
  {
    hide Messages;
    if HasBlock(data) {
      if !IsTrailer(data) {
        ReadersDiffer(AfterBlock(data));
        Associates(Messages(Payload(data)), Events(AfterBlock(data), true), Events(AfterTrailer(data), false));
      }
    }
  }

  ghost predicate NoMessages(blocks: seq<Slab>) {
    forall i :: 0 <= i < |blocks| ==> !HasMessage(blocks[i].bytes)
  }

  lemma MessagesEmptyIff(payload: seq<Byte>)
    ensures Messages(payload) == [] <==> !HasMessage(payload)
  {
  }

  lemma NoMessagesNext(b: Slab, rest: seq<Slab>)
    ensures NoMessages([b] + rest) <==> !HasMessage(b.bytes) && NoMessages(rest)
  {
    hide HasMessage;
    assert ([b] + rest)[0] == b;
    assert forall i :: 0 <= i < |rest| ==> rest[i] == ([b] + rest)[i + 1];
  }

  lemma {:induction false} NoEventsIff(data: seq<Byte>, stop: bool)
    ensures Events(data, stop) == [] <==> NoMessages(Blocks(data, stop))
    decreases |data|
  {
    hide HasMessage, Messages, U32, IsTrailer;
    if HasBlock(data) {
      var b := Slab(Payload(data));
      MessagesEmptyIff(b.bytes);
      if stop && IsTrailer(data) {
        assert Blocks(data, stop) == [b] && [b][0] == b;
        assert Events(data, stop) == Messages(b.bytes);
      } else {
        var rest := Blocks(AfterBlock(data), stop);
        assert Blocks(data, stop) == [b] + rest;
        NoEventsIff(AfterBlock(data), stop);
        NoMessagesNext(b, rest);
      }
    }
  }

  /** So they agree exactly when no complete block behind the trailer starts with a whole message. */
  lemma ReadersAgreeIff(data: seq<Byte>)
    ensures Events(data, true) == Events(data, false) <==> NoMessages(Blocks(AfterTrailer(data), false))
    ensures AfterTrailer(data) == [] ==> Events(data, true) == Events(data, false)
  {
    ReadersDiffer(data);
    NoEventsIff(AfterTrailer(data), false);
  }

  // ---- A file cut short ---------------------------------------------------------------------------------

  /** The bytes a list of blocks takes. */
  function Size(blocks: seq<Slab>): nat {
    if blocks == [] then 0 else BLOCK_HEADER + |blocks[0].bytes| + Size(blocks[1..])
  }

  /** The number of leading blocks that end within the first `n` bytes. */
  function Whole(blocks: seq<Slab>, n: nat): (k: nat)
    ensures k <= |blocks|
  {
    if blocks == [] || BLOCK_HEADER + |blocks[0].bytes| > n then 0
    else 1 + Whole(blocks[1..], n - BLOCK_HEADER - |blocks[0].bytes|)
  }

  lemma {:induction false} WholeIsMaximal(blocks: seq<Slab>, n: nat)
    ensures var k := Whole(blocks, n);
            Size(blocks[..k]) <= n && (k < |blocks| ==> Size(blocks[..k + 1]) > n)
  {
    if blocks != [] && BLOCK_HEADER + |blocks[0].bytes| <= n {
      var k := Whole(blocks[1..], n - BLOCK_HEADER - |blocks[0].bytes|);
      WholeIsMaximal(blocks[1..], n - BLOCK_HEADER - |blocks[0].bytes|);
      assert blocks[..k + 1][1..] == blocks[1..][..k];
      if k < |blocks[1..]| {
        assert blocks[..k + 2][1..] == blocks[1..][..k + 1];
      }
    } else if blocks != [] {
      assert blocks[..1][1..] == [];
    }
  }

  lemma CutKeepsBlock(data: seq<Byte>, n: nat)
    requires n <= |data|
    ensures HasBlock(data[..n]) <==> HasBlock(data) && BLOCK_HEADER + U32(data, 4) <= n
    ensures HasBlock(data[..n]) ==>
              && Payload(data[..n]) == Payload(data) && IsTrailer(data[..n]) == IsTrailer(data)
              && AfterBlock(data[..n]) == AfterBlock(data)[..n - BLOCK_HEADER - U32(data, 4)]
  {
    if BLOCK_HEADER <= n {
      assert data[..n][4..8] == data[4..8] && data[..n][32..36] == data[32..36];
      assert U32(data[..n], 4) == U32(data, 4);
      assert data[..n][..4] == data[..4];
    }
  }

  /** Cutting the file after any byte keeps exactly the blocks that were complete by then. */
  lemma {:induction false} CutKeepsWholeBlocks(data: seq<Byte>, n: nat, stop: bool)
    requires n <= |data|
    ensures Blocks(data[..n], stop) == Blocks(data, stop)[..Whole(Blocks(data, stop), n)]
    decreases |data|
  {
    hide U32, IsTrailer, Whole;
    CutKeepsBlock(data, n);
    if !HasBlock(data[..n]) {
      WholeNone(data, n, stop);
    } else {
      var m := n - BLOCK_HEADER - U32(data, 4);
      if stop && IsTrailer(data) {
        WholeStep(Slab(Payload(data)), [], n);
      } else {
        CutKeepsWholeBlocks(AfterBlock(data), m, stop);
        WholeStep(Slab(Payload(data)), Blocks(AfterBlock(data), stop), n);
      }
    }
  }

  lemma WholeNone(data: seq<Byte>, n: nat, stop: bool)
    requires n <= |data| && !(HasBlock(data) && BLOCK_HEADER + U32(data, 4) <= n)
    ensures Whole(Blocks(data, stop), n) == 0
  {
  }

  lemma WholeStep(b: Slab, rest: seq<Slab>, n: nat)
    requires BLOCK_HEADER + |b.bytes| <= n
    ensures ([b] + rest)[..Whole([b] + rest, n)] == [b] + rest[..Whole(rest, n - BLOCK_HEADER - |b.bytes|)]
  {
    assert ([b] + rest)[1..] == rest;
  }

  /** A journal cut short reads as a prefix of the whole journal's events. */
  lemma CutReadsPrefix(data: seq<Byte>, n: nat, stop: bool)
    requires n <= |data|
    ensures Events(data[..n], stop) <= Events(data, stop)
  {
    hide Events, Blocks, Whole, Flatten;
    CutKeepsWholeBlocks(data, n, stop);
    EventsAreBlocks(data, stop);
    EventsAreBlocks(data[..n], stop);
    var blocks, k := Blocks(data, stop), Whole(Blocks(data, stop), n);
    FlattenJoin(blocks[..k], blocks[k..]);
    assert blocks == blocks[..k] + blocks[k..];
  }

  // ---- Writing -------------------------------------------------------------------------------------------

  /** Everything a block header holds. */
  datatype Header = Header(first: nat, last: nat, count: nat, trailer: bool)

  function WriteBlock(h: Header, payload: seq<Byte>, crc: Summing): seq<Byte> {
    MAGIC + LeBytes(|payload|, 4) + LeBytes(h.first, 8) + LeBytes(h.last, 8) + LeBytes(h.count, 4) +
    LeBytes(crc(payload), 4) + LeBytes(if h.trailer then 1 else 0, 4) + LeBytes(0, 28) + payload
  }

  function Join(ms: seq<Message>): seq<Byte> {
    if ms == [] then [] else ms[0].bytes + Join(ms[1..])
  }

  /** A message as the writer makes it: its length is its first field. */
  predicate WellFormed(m: Message) {
    EVENT_HEADER <= |m.bytes| < 0x1_0000_0000 && m.bytes[..4] == LeBytes(|m.bytes|, 4)
  }

  lemma U32OfLe(data: seq<Byte>, at: nat, v: nat)
    requires at + 4 <= |data| && data[at..at + 4] == LeBytes(v, 4) && v < 0x1_0000_0000
    ensures U32(data, at) == v
  {
    Pow256Is();
    LeRoundTrip(v, 4);
  }

  /** Messages written one after the other come back as they were. */
  lemma {:induction false} MessagesOfJoin(ms: seq<Message>)
    requires forall i :: 0 <= i < |ms| ==> WellFormed(ms[i])
    ensures Messages(Join(ms)) == ms
  {
    if ms != [] {
      var m, rest := ms[0], ms[1..];
      assert WellFormed(m);
      var all, n := m.bytes + Join(rest), |m.bytes|;
      assert all[0..4] == m.bytes[..4];
      U32OfLe(all, 0, n);
      assert all[..n] == m.bytes && all[n..] == Join(rest);
      MessagesOfJoin(rest);
    }
  }

  /** A written block, with anything behind it, is a whole block that holds its payload. */
  lemma BlockOfWrite(h: Header, payload: seq<Byte>, crc: Summing, rest: seq<Byte>)
    requires |payload| < 0x1_0000_0000
    ensures var data := WriteBlock(h, payload, crc) + rest;
            && HasBlock(data) && Payload(data) == payload && AfterBlock(data) == rest
            && IsTrailer(data) == h.trailer && (crc(payload) < 0x1_0000_0000 ==> U32(data, 28) == crc(payload))
  {
    hide LeBytes, U32;
    var data := WriteBlock(h, payload, crc) + rest;
    var flags := if h.trailer then 1 else 0;
    Fields(MAGIC, LeBytes(|payload|, 4), LeBytes(h.first, 8), LeBytes(h.last, 8), LeBytes(h.count, 4),
           LeBytes(crc(payload), 4), LeBytes(flags, 4), LeBytes(0, 28), payload, rest);
    U32OfLe(data, 4, |payload|);
    U32OfLe(data, 32, flags);
    if crc(payload) < 0x1_0000_0000 { U32OfLe(data, 28, crc(payload)); }
  }

  /** Where the fields of a block header are. */
  lemma Fields(magic: seq<Byte>, length: seq<Byte>, first: seq<Byte>, last: seq<Byte>, count: seq<Byte>, crc: seq<Byte>,
               flags: seq<Byte>, pad: seq<Byte>, payload: seq<Byte>, rest: seq<Byte>)
    requires |magic| == |length| == |count| == |crc| == |flags| == 4 && |first| == |last| == 8 && |pad| == 28
    ensures var data := magic + length + first + last + count + crc + flags + pad + payload + rest;
            && |data| == BLOCK_HEADER + |payload| + |rest|
            && data[..4] == magic && data[4..8] == length && data[28..32] == crc && data[32..36] == flags
            && data[BLOCK_HEADER..BLOCK_HEADER + |payload|] == payload && data[BLOCK_HEADER + |payload|..] == rest
  {
    var data := magic + length + first + last + count + crc + flags + pad + payload + rest;
    assert forall i :: 0 <= i < 4 ==> data[i] == magic[i] && data[4 + i] == length[i];
    assert forall i :: 0 <= i < 4 ==> data[28 + i] == crc[i] && data[32 + i] == flags[i];
    assert forall i :: 0 <= i < |payload| ==> data[BLOCK_HEADER + i] == payload[i];
    assert forall i :: 0 <= i < |rest| ==> data[BLOCK_HEADER + |payload| + i] == rest[i];
  }

  datatype Block = Block(header: Header, messages: seq<Message>)

  predicate Writable(b: Block) {
    (forall i :: 0 <= i < |b.messages| ==> WellFormed(b.messages[i])) && |Join(b.messages)| < 0x1_0000_0000
  }

  function WriteAll(bs: seq<Block>, crc: Summing): seq<Byte> {
    if bs == [] then [] else WriteBlock(bs[0].header, Join(bs[0].messages), crc) + WriteAll(bs[1..], crc)
  }

  function AllMessages(bs: seq<Block>): seq<Message> {
    if bs == [] then [] else bs[0].messages + AllMessages(bs[1..])
  }

  /** What is written is read back, message for message, by either reader; a trailer comes last. */
  lemma {:induction false} ReadBack(bs: seq<Block>, crc: Summing, stop: bool)
    requires forall i :: 0 <= i < |bs| ==> Writable(bs[i])
    requires forall i :: 0 <= i < |bs| - 1 ==> !bs[i].header.trailer
    ensures Events(WriteAll(bs, crc), stop) == AllMessages(bs)
  {
    if bs != [] {
      var b, rest := bs[0], WriteAll(bs[1..], crc);
      assert Writable(b);
      BlockOfWrite(b.header, Join(b.messages), crc, rest);
      MessagesOfJoin(b.messages);
      ReadBack(bs[1..], crc, stop);
    }
  }

  /** A writer that dies mid-file loses only the blocks it had not finished, for both readers alike. */
  lemma CrashLosesOneBlock(bs: seq<Block>, crc: Summing, n: nat, stop: bool)
    requires forall i :: 0 <= i < |bs| ==> Writable(bs[i])
    requires forall i :: 0 <= i < |bs| - 1 ==> !bs[i].header.trailer
    requires n <= |WriteAll(bs, crc)|
    ensures Events(WriteAll(bs, crc)[..n], stop) == AllMessages(bs[..Whole(Payloads(bs), n)])
    ensures |WriteAll(bs, crc)| == Size(Payloads(bs))
  {
    hide Events, Blocks, WriteAll;
    var k := Whole(Payloads(bs), n);
    BlocksOfWrite(bs, crc, stop);
    CutKeepsWholeBlocks(WriteAll(bs, crc), n, stop);
    EventsAreBlocks(WriteAll(bs, crc)[..n], stop);
    PayloadsPrefix(bs, k);
    FlattenPayloads(bs[..k]);
    SizeOfWrite(bs, crc);
  }

  lemma {:induction false} SizeOfWrite(bs: seq<Block>, crc: Summing)
    ensures |WriteAll(bs, crc)| == Size(Payloads(bs))
  {
    if bs != [] {
      SizeOfWrite(bs[1..], crc);
      assert Payloads(bs)[1..] == Payloads(bs[1..]);
    }
  }

  lemma {:induction false} PayloadsPrefix(bs: seq<Block>, k: nat)
    requires k <= |bs|
    ensures Payloads(bs)[..k] == Payloads(bs[..k])
  {
    if bs == [] {
      assert bs[..k] == [];
    } else if k == 0 {
      PayloadsPrefix(bs[1..], 0);
    } else {
      PayloadsPrefix(bs[1..], k - 1);
      assert bs[..k][1..] == bs[1..][..k - 1];
    }
  }

  lemma {:induction false} FlattenPayloads(bs: seq<Block>)
    requires forall i :: 0 <= i < |bs| ==> Writable(bs[i])
    ensures Flatten(Payloads(bs)) == AllMessages(bs)
  {
    if bs != [] {
      assert Writable(bs[0]);
      MessagesOfJoin(bs[0].messages);
      FlattenPayloads(bs[1..]);
      assert Payloads(bs)[1..] == Payloads(bs[1..]);
    }
  }

  /** A block behind the trailer is read by one reader only. */
  lemma BlockBehindTrailer(crc: Summing)
    ensures var m := Message(LeBytes(EVENT_HEADER, 4) + LeBytes(0, 60));
            var data := WriteAll([Block(Header(1, 0, 0, true), []), Block(Header(1, 1, 1, false), [m])], crc);
            Events(data, true) == [] && Events(data, false) == [m]
  {
    var m := Message(LeBytes(EVENT_HEADER, 4) + LeBytes(0, 60));
    var first, second := Block(Header(1, 0, 0, true), []), Block(Header(1, 1, 1, false), [m]);
    assert WellFormed(m) by { assert m.bytes[..4] == LeBytes(EVENT_HEADER, 4); }
    assert Join([m]) == m.bytes by { assert [m][1..] == []; assert m.bytes + [] == m.bytes; }
    assert Writable(second);
    assert [first, second][1..] == [second];
    var tail := WriteAll([second], crc);
    ReadBack([second], crc, false);
    assert AllMessages([second]) == [m] by { assert [second][1..] == []; }
    assert WriteAll([first, second], crc) == WriteBlock(first.header, [], crc) + tail;
    TrailerFirst(first.header, tail, crc);
  }

  lemma TrailerFirst(h: Header, rest: seq<Byte>, crc: Summing)
    requires h.trailer
    ensures Events(WriteBlock(h, [], crc) + rest, true) == []
    ensures Events(WriteBlock(h, [], crc) + rest, false) == Events(rest, false)
  {
    BlockOfWrite(h, [], crc, rest);
    assert Messages([]) == [];
  }

  function Payloads(bs: seq<Block>): (r: seq<Slab>)
    ensures |r| == |bs|
  {
    if bs == [] then [] else [Slab(Join(bs[0].messages))] + Payloads(bs[1..])
  }

  lemma {:induction false} BlocksOfWrite(bs: seq<Block>, crc: Summing, stop: bool)
    requires forall i :: 0 <= i < |bs| ==> Writable(bs[i])
    requires forall i :: 0 <= i < |bs| - 1 ==> !bs[i].header.trailer
    ensures Blocks(WriteAll(bs, crc), stop) == Payloads(bs)
  {
    if bs != [] {
      assert Writable(bs[0]);
      BlockOfWrite(bs[0].header, Join(bs[0].messages), crc, WriteAll(bs[1..], crc));
      BlocksOfWrite(bs[1..], crc, stop);
    }
  }

  // ---- Damage -------------------------------------------------------------------------------------------

  function ToBits(data: seq<Byte>): seq<Crc32c.Byte> {
    seq(|data|, i requires 0 <= i < |data| => Crc32c.BitsOf(data[i], 8))
  }

  /** The crc32c of a payload, as the number stored in the block header. */
  function Crc(payload: seq<Byte>): nat { Crc32c.ValueOf(Crc32c.Checksum(ToBits(payload))) }

  lemma ToBitsInjective(v: seq<Byte>, w: seq<Byte>)
    requires |v| == |w| && ToBits(v) == ToBits(w)
    ensures v == w
  {
    forall i | 0 <= i < |v| ensures v[i] == w[i] {
      assert ToBits(v)[i] == ToBits(w)[i];
      assert Crc32c.Pow2(8) == 0x100;
      Crc32c.ValueOfBits(v[i], 8);
      Crc32c.ValueOfBits(w[i], 8);
    }
  }

  /** A payload damaged in at most four consecutive bytes never matches its stored checksum. */
  lemma DamageShows(before: seq<Byte>, v: seq<Byte>, w: seq<Byte>, after: seq<Byte>)
    requires |v| == |w| <= 4
    ensures Crc(before + v + after) == Crc(before + w + after) <==> v == w
  {
    if Crc(before + v + after) == Crc(before + w + after) {
      var b, a := ToBits(before), ToBits(after);
      assert ToBits(before + v + after) == b + ToBits(v) + a;
      assert ToBits(before + w + after) == b + ToBits(w) + a;
      Crc32c.BitsOfValue(Crc32c.Checksum(b + ToBits(v) + a));
      Crc32c.BitsOfValue(Crc32c.Checksum(b + ToBits(w) + a));
      Crc32c.BurstDetected(b, ToBits(v), ToBits(w), a);
      ToBitsInjective(v, w);
    }
  }

  lemma CrcFits(payload: seq<Byte>)
    ensures Crc(payload) < 0x1_0000_0000
  {
    Crc32c.ValueOfByte(Crc32c.Checksum(ToBits(payload)), 32);
    assert Crc32c.Pow2(8) == 0x100;
    Crc32c.Pow2Plus(8, 8);
    Crc32c.Pow2Plus(16, 16);
  }

  /** No block of a written journal is reported as damaged. */
  lemma {:induction false} WrittenIsSound(bs: seq<Block>)
    requires forall i :: 0 <= i < |bs| ==> Writable(bs[i])
    ensures BadBlocks(WriteAll(bs, Crc), Crc) == 0
  {
    hide Crc;
    if bs != [] {
      assert Writable(bs[0]);
      CrcFits(Join(bs[0].messages));
      BlockOfWrite(bs[0].header, Join(bs[0].messages), Crc, WriteAll(bs[1..], Crc));
      WrittenIsSound(bs[1..]);
    }
  }

  /** A block whose payload was written as one thing and is now another of the same length. */
  function Altered(h: Header, written: seq<Byte>, now: seq<Byte>): seq<Byte> {
    var whole := WriteBlock(h, written, Crc);
    whole[..|whole| - |written|] + now
  }

  lemma AlteredReads(h: Header, written: seq<Byte>, now: seq<Byte>, rest: seq<Byte>)
    requires |written| == |now| < 0x1_0000_0000
    ensures var data := Altered(h, written, now) + rest;
            && HasBlock(data) && Payload(data) == now && AfterBlock(data) == rest && IsTrailer(data) == h.trailer
            && U32(data, 28) == Crc(written)
  {
    hide Crc, U32, LeBytes;
    CrcFits(written);
    BlockOfWrite(h, written, Crc, rest);
    var data, whole := Altered(h, written, now) + rest, WriteBlock(h, written, Crc) + rest;
    SameHeader(data, whole);
  }

  /** Files that begin with the same header have the same header fields. */
  lemma SameHeader(data: seq<Byte>, whole: seq<Byte>)
    requires |data| >= BLOCK_HEADER && |whole| >= BLOCK_HEADER && data[..BLOCK_HEADER] == whole[..BLOCK_HEADER]
    ensures data[..4] == whole[..4]
    ensures forall at :: 0 <= at <= BLOCK_HEADER - 4 ==> U32(data, at) == U32(whole, at)
  {
    assert data[..4] == data[..BLOCK_HEADER][..4] && whole[..4] == whole[..BLOCK_HEADER][..4];
    forall at | 0 <= at <= BLOCK_HEADER - 4 ensures U32(data, at) == U32(whole, at) {
      assert data[at..at + 4] == data[..BLOCK_HEADER][at..at + 4];
      assert whole[at..at + 4] == whole[..BLOCK_HEADER][at..at + 4];
    }
  }

  /**
    Damage within four consecutive bytes of one payload is always reported: exactly that block counts as
    bad, wherever it is in the journal.
   */
  lemma {:induction false} DamageIsCounted(bs: seq<Block>, h: Header, before: seq<Byte>, v: seq<Byte>, w: seq<Byte>,
                                           after: seq<Byte>, tail: seq<Block>)
    requires |v| == |w| <= 4 && v != w && |before + v + after| < 0x1_0000_0000
    requires forall i :: 0 <= i < |bs| ==> Writable(bs[i]) && !bs[i].header.trailer
    requires forall i :: 0 <= i < |tail| ==> Writable(tail[i])
    ensures var damaged := Altered(h, before + v + after, before + w + after);
            BadBlocks(WriteAll(bs, Crc) + (damaged + WriteAll(tail, Crc)), Crc) == 1
  {
    hide Crc;
    var bad := Altered(h, before + v + after, before + w + after) + WriteAll(tail, Crc);
    if bs == [] {
      assert WriteAll(bs, Crc) + bad == bad;
      AlteredReads(h, before + v + after, before + w + after, WriteAll(tail, Crc));
      DamageShows(before, v, w, after);
      WrittenIsSound(tail);
    } else {
      assert Writable(bs[0]);
      var block, rest := WriteBlock(bs[0].header, Join(bs[0].messages), Crc), WriteAll(bs[1..], Crc);
      assert WriteAll(bs, Crc) + bad == block + (rest + bad);
      CrcFits(Join(bs[0].messages));
      BlockOfWrite(bs[0].header, Join(bs[0].messages), Crc, rest + bad);
      DamageIsCounted(bs[1..], h, before, v, w, after, tail);
    }
  }

  lemma AlteredEvents(h: Header, written: seq<Byte>, now: seq<Byte>, rest: seq<Byte>, stop: bool)
    requires |written| == |now| < 0x1_0000_0000 && (h.trailer ==> rest == [])
    ensures Events(Altered(h, written, now) + rest, stop) == Messages(now) + Events(rest, stop)
  {
    hide Crc, Messages, Altered, U32;
    AlteredReads(h, written, now, rest);
  }

  lemma EventsNext(b: Block, rest: seq<Byte>, stop: bool)
    requires Writable(b) && !b.header.trailer
    ensures Events(WriteBlock(b.header, Join(b.messages), Crc) + rest, stop) == b.messages + Events(rest, stop)
  {
    hide Crc, Messages, WriteBlock, U32;
    BlockOfWrite(b.header, Join(b.messages), Crc, rest);
    MessagesOfJoin(b.messages);
  }

  /**
    Damage is contained: both readers still yield every message of every other block, and of the damaged
    one whatever its bytes now say.
   */
  lemma {:induction false} DamageIsContained(bs: seq<Block>, h: Header, written: seq<Byte>, now: seq<Byte>,
                                             tail: seq<Block>, stop: bool)
    requires |written| == |now| < 0x1_0000_0000 && (h.trailer ==> tail == [])
    requires forall i :: 0 <= i < |bs| ==> Writable(bs[i]) && !bs[i].header.trailer
    requires forall i :: 0 <= i < |tail| ==> Writable(tail[i])
    requires forall i :: 0 <= i < |tail| - 1 ==> !tail[i].header.trailer
    ensures Events(WriteAll(bs, Crc) + (Altered(h, written, now) + WriteAll(tail, Crc)), stop)
            == AllMessages(bs) + (Messages(now) + AllMessages(tail))
  {
    hide Crc, Messages, Altered, Events, WriteBlock;
    var bad := Altered(h, written, now) + WriteAll(tail, Crc);
    if bs == [] {
      assert WriteAll(bs, Crc) + bad == bad;
      AlteredEvents(h, written, now, WriteAll(tail, Crc), stop);
      ReadBack(tail, Crc, stop);
      assert AllMessages(bs) + (Messages(now) + AllMessages(tail)) == Messages(now) + AllMessages(tail);
    } else {
      var block, rest := WriteBlock(bs[0].header, Join(bs[0].messages), Crc), WriteAll(bs[1..], Crc);
      assert WriteAll(bs, Crc) + bad == block + (rest + bad);
      EventsNext(bs[0], rest + bad, stop);
      DamageIsContained(bs[1..], h, written, now, tail, stop);
      Associates(bs[0].messages, AllMessages(bs[1..]), Messages(now) + AllMessages(tail));
    }
  }

  // ---- The format, byte for byte ----------------------------------------------------------------------

  /** The checksum of a payload of one zero byte, and of an empty one. */
  lemma ChecksumsAre()
    ensures Crc([0]) == 0x527D5351 && Crc([]) == 0
  {
    assert ToBits([0]) == [Crc32c.Zeros(8)] by { ZeroBits(8); }
    Crc32c.ZeroByteValue();
    assert ToBits([]) == [];
    assert Crc32c.Checksum([]) == Crc32c.Zeros(32);
    ZeroBits(32);
    assert Crc32c.Pow2(32) > 0;
    Crc32c.ValueOfBits(0, 32);
  }

  lemma {:induction false} ZeroBits(n: nat)
    ensures Crc32c.BitsOf(0, n) == Crc32c.Zeros(n)
  {
    if n > 0 {
      ZeroBits(n - 1);
    }
  }

  lemma {:induction false} SmallBytes(v: nat, n: nat)
    requires n > 0 && v < 0x100
    ensures LeBytes(v, n) == [v] + LeBytes(0, n - 1)
  {
  }

  lemma {:induction false} ZeroBytes(n: nat)
    ensures LeBytes(0, n) == seq(n, _ => 0)
  {
    if n > 0 {
      ZeroBytes(n - 1);
    }
  }

  /** A trailer as it lies in the file: FMJB, no payload, first and last sequence number, flag 1, padding. */
  lemma TrailerBytes()
    ensures WriteBlock(Header(11, 10, 0, true), [], Crc)
            == [0x46, 0x4D, 0x4A, 0x42] + [0, 0, 0, 0] + [11, 0, 0, 0, 0, 0, 0, 0] + [10, 0, 0, 0, 0, 0, 0, 0]
               + [0, 0, 0, 0] + [0, 0, 0, 0] + [1, 0, 0, 0] + seq(28, _ => 0)
  {
    ChecksumsAre();
    hide Crc;
    SmallBytes(11, 8);
    SmallBytes(10, 8);
    SmallBytes(1, 4);
    ZeroBytes(3);
    ZeroBytes(4);
    ZeroBytes(7);
    ZeroBytes(28);
    assert LeBytes(11, 8) == [11, 0, 0, 0, 0, 0, 0, 0] && LeBytes(10, 8) == [10, 0, 0, 0, 0, 0, 0, 0];
    assert LeBytes(1, 4) == [1, 0, 0, 0] && LeBytes(0, 4) == [0, 0, 0, 0];
    hide LeBytes;
    var h := [0x46, 0x4D, 0x4A, 0x42] + [0, 0, 0, 0] + [11, 0, 0, 0, 0, 0, 0, 0] + [10, 0, 0, 0, 0, 0, 0, 0]
             + [0, 0, 0, 0] + [0, 0, 0, 0] + [1, 0, 0, 0] + seq(28, _ => 0);
    assert h + [] == h;
  }
}
