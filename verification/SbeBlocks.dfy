/**
  What the generated SBE readers and writers do with a block (tools/sbe_gen.py and the loads and
  stores of include/fastmm/codecs/sbe/sbe.hpp): little-endian cells at fixed offsets, and the rules by
  which messages of one schema version are read by another.
 */
module SbeBlocks {
  import opened LittleEndian
  import opened Wrappers
  import opened SbeLayout

  // ---- Cells on the wire ---------------------------------------------------------------------------------

  datatype Prim = Scalar(bytes: nat, signed: bool) | Chars(n: nat)

  datatype Value = Number(v: int) | Text(chars: seq<Byte>)

  function Size(p: Prim): nat { if p.Scalar? then p.bytes else p.n }

  /** What a C++ value of this type can be. */
  predicate Typed(p: Prim, v: Value) {
    match p
    case Scalar(n, signed) =>
      v.Number? && if signed then 0 <= 2 * v.v + Pow256(n) && 2 * v.v < Pow256(n) else 0 <= v.v < Pow256(n)
    case Chars(_) => v.Text?
  }

  function Zeros(n: nat): (r: seq<Byte>)
    ensures |r| == n
  {
    seq(n, _ => 0)
  }

  /** At most `n` bytes of a text. */
  function Head(s: seq<Byte>, n: nat): seq<Byte> { if |s| <= n then s else s[..n] }

  /** A text ends at its first NUL. */
  function UpToNul(s: seq<Byte>): seq<Byte> {
    if s == [] || s[0] == 0 then [] else [s[0]] + UpToNul(s[1..])
  }

  function Encode(p: Prim, v: Value): (r: seq<Byte>)
    requires Typed(p, v)
    ensures |r| == Size(p)
  {
    match p
    case Scalar(n, _) => LeBytes(if v.v < 0 then v.v + Pow256(n) else v.v, n)
    case Chars(n) => Head(v.chars, n) + Zeros(n - |Head(v.chars, n)|)
  }

  function Decode(p: Prim, bs: seq<Byte>): (r: Value)
    requires |bs| == Size(p)
    ensures Typed(p, r)
  {
    match p
    case Scalar(n, signed) =>
      var x := LeNumber(bs);
      Number(if signed && 2 * x >= Pow256(n) then x - Pow256(n) else x)
    case Chars(_) => Text(UpToNul(bs))
  }

  /** What a stored value reads back as: texts lose what is past the array or the first NUL. */
  function Clean(p: Prim, v: Value): Value {
    match p
    case Scalar(_, _) => v
    case Chars(n) => if v.Text? then Text(UpToNul(Head(v.chars, n))) else v
  }

  lemma DecodeEncode(p: Prim, v: Value)
    requires Typed(p, v)
    ensures Decode(p, Encode(p, v)) == Clean(p, v)
  {
    match p
    case Scalar(n, _) => LeRoundTrip(if v.v < 0 then v.v + Pow256(n) else v.v, n);
    case Chars(n) => UpToNulPads(Head(v.chars, n), n - |Head(v.chars, n)|);
  }

  lemma {:induction false} UpToNulPads(s: seq<Byte>, n: nat)
    ensures UpToNul(s + Zeros(n)) == UpToNul(s)
  {
    if s == [] {
      assert s + Zeros(n) == Zeros(n);
    } else {
      assert (s + Zeros(n))[1..] == s[1..] + Zeros(n);
      UpToNulPads(s[1..], n);
    }
  }

  lemma {:induction false} UpToNulIs(s: seq<Byte>)
    ensures UpToNul(s) <= s && 0 !in UpToNul(s)
    ensures UpToNul(s) == s <==> 0 !in s
    ensures |UpToNul(s)| < |s| ==> s[|UpToNul(s)|] == 0
  {
    if s != [] {
      UpToNulIs(s[1..]);
      assert s == [s[0]] + s[1..];
    }
  }

  lemma {:induction false} AllOnes(n: nat)
    ensures LeBytes(Pow256(n) - 1, n) == seq(n, _ => 0xFF)
  {
    if n > 0 {
      AllOnes(n - 1);
    }
  }

  /** Negative numbers are in two's complement: minus one is all ones, and the least value its highest bit. */
  lemma MinusOne(n: nat)
    requires n > 0
    ensures Typed(Scalar(n, true), Number(-1))
    ensures Encode(Scalar(n, true), Number(-1)) == seq(n, _ => 0xFF)
    ensures Decode(Scalar(n, true), seq(n, _ => 0xFF)) == Number(-1)
  {
    AllOnes(n);
    DecodeEncode(Scalar(n, true), Number(-1));
  }

  /** A text survives exactly when it fits and holds no NUL; a number always does. */
  lemma CleanIff(p: Prim, v: Value)
    requires Typed(p, v)
    ensures Clean(p, v) == v <==> (p.Chars? ==> |v.chars| <= p.n && 0 !in v.chars)
  {
    if p.Chars? {
      UpToNulIs(Head(v.chars, p.n));
    }
  }

  // ---- Stores and loads ------------------------------------------------------------------------------------

  /** memcpy to an offset. */
  function Put(b: seq<Byte>, at: nat, bs: seq<Byte>): (r: seq<Byte>)
    requires at + |bs| <= |b|
    ensures |r| == |b| && r[at..at + |bs|] == bs
    ensures forall k :: 0 <= k < |b| && !(at <= k < at + |bs|) ==> r[k] == b[k]
  {
    b[..at] + bs + b[at + |bs|..]
  }

  /** One primitive of a field, at an offset from the field's start. */
  datatype Cell = Cell(at: nat, prim: Prim)

  /** The cells of a field lie in its size, in order. */
  ghost predicate Fitted(cells: seq<Cell>, size: nat) {
    && (forall i :: 0 <= i < |cells| ==> cells[i].at + Size(cells[i].prim) <= size)
    && forall i, j :: 0 <= i < j < |cells| ==> cells[i].at + Size(cells[i].prim) <= cells[j].at
  }

  ghost predicate AllTyped(cells: seq<Cell>, vs: seq<Value>) {
    |vs| == |cells| && forall i :: 0 <= i < |cells| ==> Typed(cells[i].prim, vs[i])
  }

  function Store(b: seq<Byte>, at: nat, size: nat, cells: seq<Cell>, vs: seq<Value>): (r: seq<Byte>)
    requires Fitted(cells, size) && at + size <= |b| && AllTyped(cells, vs)
    ensures |r| == |b|
  {
    if cells == [] then b
    else
      var n := |cells| - 1;
      Put(Store(b, at, size, cells[..n], vs[..n]), at + cells[n].at, Encode(cells[n].prim, vs[n]))
  }

  function LoadCell(b: seq<Byte>, at: nat, c: Cell): Value
    requires at + c.at + Size(c.prim) <= |b|
  {
    Decode(c.prim, b[at + c.at..at + c.at + Size(c.prim)])
  }

  ghost function Load(b: seq<Byte>, at: nat, size: nat, cells: seq<Cell>): (r: seq<Value>)
    requires Fitted(cells, size) && at + size <= |b|
    ensures |r| == |cells|
  {
    seq(|cells|, i requires 0 <= i < |cells| => LoadCell(b, at, cells[i]))
  }

  function CleanAll(cells: seq<Cell>, vs: seq<Value>): (r: seq<Value>)
    requires |vs| == |cells|
    ensures |r| == |cells|
  {
    seq(|cells|, i requires 0 <= i < |cells| => Clean(cells[i].prim, vs[i]))
  }

  /** A store stays inside its field. */
  lemma {:induction false} StoreFrame(b: seq<Byte>, at: nat, size: nat, cells: seq<Cell>, vs: seq<Value>, k: nat)
    requires Fitted(cells, size) && at + size <= |b| && AllTyped(cells, vs)
    requires k < |b| && !(at <= k < at + size)
    ensures Store(b, at, size, cells, vs)[k] == b[k]
  {
    if cells != [] {
      var n := |cells| - 1;
      StoreFrame(b, at, size, cells[..n], vs[..n], k);
    }
  }

  /** Every cell of a stored field reads back as the value stored there. */
  lemma {:induction false} LoadStored(b: seq<Byte>, at: nat, size: nat, cells: seq<Cell>, vs: seq<Value>, i: nat)
    requires Fitted(cells, size) && at + size <= |b| && AllTyped(cells, vs) && i < |cells|
    ensures LoadCell(Store(b, at, size, cells, vs), at, cells[i]) == Clean(cells[i].prim, vs[i])
  {
    hide Encode, Decode, Typed, Clean, Put;
    var n := |cells| - 1;
    var b1 := Store(b, at, size, cells[..n], vs[..n]);
    var bs := Encode(cells[n].prim, vs[n]);
    var b2 := Put(b1, at + cells[n].at, bs);
    if i == n {
      DecodeEncode(cells[n].prim, vs[n]);
    } else {
      LoadStored(b, at, size, cells[..n], vs[..n], i);
      var from, to := at + cells[i].at, at + cells[i].at + Size(cells[i].prim);
      PutElsewhere(b1, at + cells[n].at, bs, from, to);
    }
  }

  lemma PutElsewhere(b: seq<Byte>, at: nat, bs: seq<Byte>, from: nat, to: nat)
    requires at + |bs| <= |b| && from <= to <= |b| && (to <= at || at + |bs| <= from)
    ensures Put(b, at, bs)[from..to] == b[from..to]
  {
  }

  lemma LoadStore(b: seq<Byte>, at: nat, size: nat, cells: seq<Cell>, vs: seq<Value>)
    requires Fitted(cells, size) && at + size <= |b| && AllTyped(cells, vs)
    ensures Load(Store(b, at, size, cells, vs), at, size, cells) == CleanAll(cells, vs)
  {
    hide Store, LoadCell, Clean;
    forall i | 0 <= i < |cells|
      ensures Load(Store(b, at, size, cells, vs), at, size, cells)[i] == CleanAll(cells, vs)[i]
    {
      LoadStored(b, at, size, cells, vs, i);
    }
  }

  /** A load depends on nothing outside its field. */
  lemma LoadAgrees(b: seq<Byte>, c: seq<Byte>, at: nat, size: nat, cells: seq<Cell>)
    requires Fitted(cells, size) && at + size <= |b| && at + size <= |c|
    requires forall k :: at <= k < at + size ==> b[k] == c[k]
    ensures Load(b, at, size, cells) == Load(c, at, size, cells)
  {
    hide Decode;
    forall i | 0 <= i < |cells| ensures LoadCell(b, at, cells[i]) == LoadCell(c, at, cells[i]) {
      var from, to := at + cells[i].at, at + cells[i].at + Size(cells[i].prim);
      assert b[from..to] == c[from..to];
    }
  }

  // ---- Schemas -----------------------------------------------------------------------------------------------

  /** A member of a composite that is on the wire: a scalar, perhaps with an offset attribute. */
  datatype Member = Member(offset: Option<int>, bytes: nat, signed: bool)

  /** The primitive types of a schema; integers have 1, 2, 4 or 8 bytes. */
  datatype Code = Char | Int(bytes: nat) | UInt(bytes: nat)

  function PrimOf(c: Code): Prim {
    match c
    case Char => Scalar(1, true)
    case Int(n) => Scalar(n, true)
    case UInt(n) => Scalar(n, false)
  }

  /** The null of an optional type: its own nullValue, or the one SBE 1.0 gives the primitive type. */
  function NullOf(c: Code, nullValue: Option<int>): int {
    if nullValue.Some? then nullValue.value
    else
      match c
      case Char => 0
      case Int(n) => -(Pow256(n) / 2)
      case UInt(n) => Pow256(n) - 1
  }

  datatype Presence = Required | Optional(nullValue: Option<int>)

  /** What a field can be: a number, a char array, an enum, a set of bits, a decimal or another composite. */
  datatype Type =
    | Plain(code: Code, presence: Presence)
    | CharArray(n: nat)
    | Enum(code: Code, presence: Presence)
    | SetOf(code: Code)
    | Decimal(mantissa: Code, presence: Presence)
    | Composite(members: seq<Member>)

  function MemberItems(ms: seq<Member>): seq<Item> {
    seq(|ms|, i requires 0 <= i < |ms| => Item(ms[i].offset, ms[i].bytes))
  }

  predicate CodeOk(c: Code) { c.Char? || c.bytes == 1 || c.bytes == 2 || c.bytes == 4 || c.bytes == 8 }

  /** A nullValue is a value of its own type. */
  predicate PresenceOk(c: Code, p: Presence) {
    CodeOk(c) && (p.Optional? && p.nullValue.Some? ==> Typed(PrimOf(c), Number(p.nullValue.value)))
  }

  /** The generator accepts the type: every primitive has a size and no members overlap. */
  predicate TypeOk(t: Type) {
    match t
    case Plain(c, p) => PresenceOk(c, p)
    case CharArray(n) => n > 1
    case Enum(c, p) => PresenceOk(c, p)
    case SetOf(c) => CodeOk(c)
    case Decimal(c, p) => PresenceOk(c, p)
    case Composite(ms) =>
      ms != [] && (forall i :: 0 <= i < |ms| ==> ms[i].bytes > 0) && Place(MemberItems(ms)).Placed?
  }

  /** The one primitive of a type that is not a general composite. */
  function Single(t: Type): Prim
    requires !t.Composite?
  {
    match t
    case Plain(c, _) => PrimOf(c)
    case CharArray(n) => Chars(n)
    case Enum(c, _) => PrimOf(c)
    case SetOf(c) => PrimOf(c)
    case Decimal(c, _) => PrimOf(c)
  }

  function TypeSize(t: Type): nat
    requires TypeOk(t)
  {
    if t.Composite? then Place(MemberItems(t.members)).end else Size(Single(t))
  }

  function Cells(t: Type): seq<Cell>
    requires TypeOk(t)
  {
    if !t.Composite? then [Cell(0, Single(t))]
    else
      var ms, at := t.members, Place(MemberItems(t.members)).at;
      seq(|ms|, i requires 0 <= i < |ms| => Cell(at[i], Scalar(ms[i].bytes, ms[i].signed)))
  }

  /** What a getter returns for a field that the block does not have. */
  function AbsentOf(t: Type): seq<Value> {
    match t
    case Plain(c, p) => [Number(if p.Optional? then NullOf(c, p.nullValue) else 0)]
    case CharArray(_) => [Text([])]
    case Enum(_, p) => [Number(if p.Optional? && p.nullValue.Some? then p.nullValue.value else 0)]
    case SetOf(_) => [Number(0)]
    case Decimal(c, p) => [Number(if p.Optional? then NullOf(c, p.nullValue) else 0)]
    case Composite(ms) => seq(|ms|, _ => Number(0))
  }

  /** An optional number whose generated has_x() is false, or a decimal whose is_null() is true; others have neither. */
  predicate Missing(t: Type, vs: seq<Value>) {
    match t
    case Plain(c, p) => p.Optional? && vs == [Number(NullOf(c, p.nullValue))]
    case Decimal(c, p) => p.Optional? && vs == [Number(NullOf(c, p.nullValue))]
    case _ => false
  }

  lemma Pow256Even(n: nat)
    requires n > 0
    ensures Pow256(n) % 2 == 0 && Pow256(n) >= 0x100
  {
    var half := 0x80 * Pow256(n - 1);
    assert Pow256(n) == 2 * half && half >= 0x80;
  }

  lemma NullIsTyped(c: Code, p: Presence)
    requires PresenceOk(c, p) && p.Optional?
    ensures Typed(PrimOf(c), Number(NullOf(c, p.nullValue)))
  {
    if !c.Char? { Pow256Even(c.bytes); } else { Pow256Even(1); }
  }

  lemma ZeroIsTyped(bytes: nat, signed: bool)
    requires bytes > 0
    ensures Typed(Scalar(bytes, signed), Number(0))
  {
  }

  /** The absent value is a value of the field's own type. */
  lemma AbsentIsTyped(t: Type)
    requires TypeOk(t)
    ensures AllTyped(Cells(t), AbsentOf(t))
  {
    hide Pow256, NullOf;
    match t
    case Plain(c, p) => if p.Optional? { NullIsTyped(c, p); } else { ZeroIsTyped(PrimOf(c).bytes, PrimOf(c).signed); }
    case Decimal(c, p) => if p.Optional? { NullIsTyped(c, p); } else { ZeroIsTyped(PrimOf(c).bytes, PrimOf(c).signed); }
    case Enum(c, p) => ZeroIsTyped(PrimOf(c).bytes, PrimOf(c).signed);
    case SetOf(c) => ZeroIsTyped(PrimOf(c).bytes, PrimOf(c).signed);
    case CharArray(_) =>
    case Composite(ms) =>
      forall i | 0 <= i < |ms| ensures Typed(Cells(t)[i].prim, AbsentOf(t)[i]) {
        ZeroIsTyped(ms[i].bytes, ms[i].signed);
      }
  }

  /** Composites are laid out like blocks: their members are disjoint and inside. */
  lemma CellsFitted(t: Type)
    requires TypeOk(t)
    ensures Fitted(Cells(t), TypeSize(t)) && TypeSize(t) > 0
  {
    if t.Composite? {
      var items := MemberItems(t.members);
      PlacedIsArranged(items);
      assert items[0].size > 0;
    }
  }

  /** A field: its type, or the constant it stands for. */
  datatype Field =
    | OnWire(kind: Type, offset: Option<int>, since: nat)
    | Constant(value: Value)

  predicate FieldOk(f: Field) { f.OnWire? ==> TypeOk(f.kind) }

  function FieldItem(f: Field): Item
    requires FieldOk(f)
  {
    if f.OnWire? then Item(f.offset, TypeSize(f.kind)) else Item(None, 0)
  }

  predicate FieldsOk(fs: seq<Field>) { forall i :: 0 <= i < |fs| ==> FieldOk(fs[i]) }

  function Items(fs: seq<Field>): (r: seq<Item>)
    requires FieldsOk(fs)
    ensures |r| == |fs|
  {
    seq(|fs|, i requires 0 <= i < |fs| => FieldItem(fs[i]))
  }

  /** A block as one version of a schema defines it; `since` is the version that introduced the message. */
  datatype Schema = Schema(fields: seq<Field>, blockLength: Option<int>, since: nat, version: nat)

  predicate Accepted(s: Schema) { FieldsOk(s.fields) && LayOut(Items(s.fields), s.blockLength).Laid? }

  function BlockLength(s: Schema): nat
    requires Accepted(s)
  {
    LayOut(Items(s.fields), s.blockLength).blockLength
  }

  function Offset(s: Schema, i: nat): nat
    requires Accepted(s) && i < |s.fields|
  {
    LayOut(Items(s.fields), s.blockLength).at[i]
  }

  /** Field `i` is on the wire. */
  predicate Wired(s: Schema, i: int) { 0 <= i < |s.fields| && s.fields[i].OnWire? }

  function End(s: Schema, i: nat): nat
    requires Accepted(s) && Wired(s, i)
  {
    Offset(s, i) + TypeSize(s.fields[i].kind)
  }

  /** In every accepted schema the fields lie in the block and do not overlap. */
  lemma FieldsDisjoint(s: Schema)
    requires Accepted(s)
    ensures forall i :: Wired(s, i) ==> End(s, i) <= BlockLength(s)
    ensures forall i: nat, j: nat :: i < j && Wired(s, i) && Wired(s, j) ==> End(s, i) <= Offset(s, j)
  {
    var items := Items(s.fields);
    AcceptedIff(items, s.blockLength);
    forall i: nat | Wired(s, i) ensures items[i].size == TypeSize(s.fields[i].kind) && items[i].size > 0 {
      CellsFitted(s.fields[i].kind);
    }
  }

  // ---- Nulls ---------------------------------------------------------------------------------------------------

  /** What the primitive types hold. */
  lemma RangesAre(v: int)
    ensures Typed(PrimOf(Char), Number(v)) <==> -0x80 <= v < 0x80
    ensures Typed(PrimOf(Int(1)), Number(v)) <==> -0x80 <= v < 0x80
    ensures Typed(PrimOf(UInt(1)), Number(v)) <==> 0 <= v < 0x100
    ensures Typed(PrimOf(Int(2)), Number(v)) <==> -0x8000 <= v < 0x8000
    ensures Typed(PrimOf(UInt(2)), Number(v)) <==> 0 <= v < 0x1_0000
    ensures Typed(PrimOf(Int(4)), Number(v)) <==> -0x8000_0000 <= v < 0x8000_0000
    ensures Typed(PrimOf(UInt(4)), Number(v)) <==> 0 <= v < 0x1_0000_0000
    ensures Typed(PrimOf(Int(8)), Number(v)) <==> -0x8000_0000_0000_0000 <= v < 0x8000_0000_0000_0000
    ensures Typed(PrimOf(UInt(8)), Number(v)) <==> 0 <= v < 0x1_0000_0000_0000_0000
  {
    PowersAre();
    hide Pow256;
  }

  /** The members of a composite hold what their own sizes and signs say. */
  lemma MemberRanges(ms: seq<Member>, vs: seq<Value>)
    requires TypeOk(Composite(ms))
    ensures AllTyped(Cells(Composite(ms)), vs) <==>
              && |vs| == |ms|
              && forall i :: 0 <= i < |ms| ==>
                   && vs[i].Number?
                   && if ms[i].signed then 0 - Pow256(ms[i].bytes) <= 2 * vs[i].v < Pow256(ms[i].bytes)
                      else 0 <= vs[i].v < Pow256(ms[i].bytes)
  {
    hide Pow256;
    var cells := Cells(Composite(ms));
    forall i | 0 <= i < |ms| ensures cells[i].prim == Scalar(ms[i].bytes, ms[i].signed) {
      assert cells[i].prim.bytes == ms[i].bytes;
    }
  }

  lemma PowersAre()
    ensures Pow256(1) == 0x100 && Pow256(2) == 0x1_0000 && Pow256(4) == 0x1_0000_0000
    ensures Pow256(8) == 0x1_0000_0000_0000_0000
  {
    assert Pow256(2) == 0x100 * Pow256(1);
    assert Pow256(3) == 0x100 * Pow256(2);
    assert Pow256(4) == 0x100 * Pow256(3);
    assert Pow256(5) == 0x100 * Pow256(4);
    assert Pow256(6) == 0x100 * Pow256(5);
    assert Pow256(7) == 0x100 * Pow256(6);
    assert Pow256(8) == 0x100 * Pow256(7);
  }

  /**
    The null of a type without a nullValue is the largest value of an unsigned type, the smallest of a
    signed one, and NUL for a character.
   */
  lemma DefaultNull(c: Code, v: int)
    requires CodeOk(c) && Typed(PrimOf(c), Number(v))
    ensures Typed(PrimOf(c), Number(NullOf(c, None)))
    ensures c.UInt? ==> v <= NullOf(c, None)
    ensures c.Int? ==> NullOf(c, None) <= v
    ensures c.Char? ==> NullOf(c, None) == 0
  {
    NullIsTyped(c, Optional(None));
    if !c.Char? { Pow256Even(c.bytes); }
  }

  /** A nullValue of the schema's own replaces it. */
  lemma OwnNull(c: Code, v: int)
    ensures NullOf(c, Some(v)) == v
  {
  }

  /** So a stored zero of an optional integer without its own nullValue is there. */
  lemma ZeroIsThere(c: Code)
    requires CodeOk(c) && !c.Char?
    ensures !Missing(Plain(c, Optional(None)), [Number(0)]) && !Missing(Decimal(c, Optional(None)), [Number(0)])
  {
    Pow256Even(c.bytes);
    hide Pow256;
  }

  lemma {:induction false} ZeroNumber(n: nat)
    ensures LeNumber(Zeros(n)) == 0
  {
    if n > 0 {
      ZeroNumber(n - 1);
      assert Zeros(n)[1..] == Zeros(n - 1);
    }
  }

  lemma DecodeZeros(p: Prim)
    requires p.Scalar? ==> p.bytes > 0
    ensures Decode(p, Zeros(Size(p))) == if p.Scalar? then Number(0) else Text([])
  {
    if p.Scalar? {
      ZeroNumber(p.bytes);
    } else {
      assert [] + Zeros(p.n) == Zeros(p.n);
      UpToNulPads([], p.n);
    }
  }

  /** The kinds that have a null of their own. */
  predicate HasNull(t: Type) {
    match t
    case Plain(_, p) => p.Optional?
    case Decimal(_, p) => p.Optional?
    case Enum(_, p) => p.Optional? && p.nullValue.Some?
    case _ => false
  }

  /** A cell of zeros holds zero, or no text. */
  lemma ZeroCell(size: nat, c: Cell)
    requires c.at + Size(c.prim) <= size && (c.prim.Scalar? ==> c.prim.bytes > 0)
    ensures LoadCell(Zeros(size), 0, c) == if c.prim.Scalar? then Number(0) else Text([])
  {
    hide Decode;
    assert Zeros(size)[0 + c.at..0 + c.at + Size(c.prim)] == Zeros(Size(c.prim));
    DecodeZeros(c.prim);
  }

  lemma AbsentCell(t: Type, i: nat)
    requires TypeOk(t) && !HasNull(t) && i < |Cells(t)|
    ensures |AbsentOf(t)| == |Cells(t)| && (Cells(t)[i].prim.Scalar? ==> Cells(t)[i].prim.bytes > 0)
    ensures AbsentOf(t)[i] == if Cells(t)[i].prim.Scalar? then Number(0) else Text([])
  {
    hide Pow256, NullOf, Place;
  }

  /**
    What an absent field reads as: its null where its kind has one (reported as missing where the kind can
    report it), and otherwise what a block of zeros would hold.
   */
  lemma AbsentIs(t: Type)
    requires TypeOk(t) && Fitted(Cells(t), TypeSize(t))
    ensures (t.Plain? || t.Decimal?) && HasNull(t) ==> Missing(t, AbsentOf(t))
    ensures t.Enum? && HasNull(t) ==> AbsentOf(t) == [Number(t.presence.nullValue.value)]
    ensures !HasNull(t) ==> AbsentOf(t) == Load(Zeros(TypeSize(t)), 0, TypeSize(t), Cells(t))
  {
    hide Cells, TypeSize, TypeOk, LoadCell, NullOf;
    if !HasNull(t) {
      var z, cells := Zeros(TypeSize(t)), Cells(t);
      assert |AbsentOf(t)| == |cells| by { CellCount(t); }
      forall i | 0 <= i < |cells| ensures LoadCell(z, 0, cells[i]) == AbsentOf(t)[i] {
        AbsentCell(t, i);
        ZeroCell(TypeSize(t), cells[i]);
      }
    }
  }

  lemma CellCount(t: Type)
    requires TypeOk(t)
    ensures |AbsentOf(t)| == |Cells(t)|
  {
  }

  // ---- Readers ---------------------------------------------------------------------------------------------------

  /** A received body, with the block length and version its header announces. */
  datatype Received = Received(body: seq<Byte>, blockLength: nat, version: nat)

  /** What every version since the message's first has in its block. */
  method RequiredLength(s: Schema) returns (end: nat)
    requires Accepted(s)
    ensures Required(s, end)
  {
    hide LayOut, TypeSize;
    end := 0;
    for i := 0 to |s.fields|
      invariant forall k: nat :: k < i && Wired(s, k) && s.fields[k].since <= s.since ==> End(s, k) <= end
      invariant end == 0 || exists k: nat :: k < i && Wired(s, k) && s.fields[k].since <= s.since && End(s, k) == end
    {
      var f := s.fields[i];
      if f.OnWire? && f.since <= s.since && End(s, i) > end {
        end := End(s, i);
      }
    }
  }

  /** `end` is the least length that holds every field of the message's first version. */
  ghost predicate Required(s: Schema, end: nat)
    requires Accepted(s)
  {
    && (forall k: nat :: Wired(s, k) && s.fields[k].since <= s.since ==> End(s, k) <= end)
    && (end == 0 || exists k: nat :: Wired(s, k) && s.fields[k].since <= s.since && End(s, k) == end)
  }

  /** The generated valid(). */
  ghost predicate ValidFor(s: Schema, m: Received)
    requires Accepted(s)
  {
    |m.body| >= m.blockLength && exists end: nat :: Required(s, end) && m.blockLength >= end
  }

  /** The generated getter's guard: an added field that this block does not have. */
  predicate Absent(s: Schema, m: Received, i: nat)
    requires Accepted(s) && Wired(s, i)
  {
    var f := s.fields[i];
    f.since > s.since && (m.version < f.since || m.blockLength < End(s, i))
  }

  /** In a valid message every field that is not absent ends inside the acting block. */
  lemma PresentIsInside(s: Schema, m: Received, i: nat)
    requires Accepted(s) && Wired(s, i) && ValidFor(s, m) && !Absent(s, m, i)
    ensures End(s, i) <= m.blockLength <= |m.body|
  {
  }

  /** The generated getter; it sees the acting block and nothing behind it. */
  ghost function Get(s: Schema, m: Received, i: nat): seq<Value>
    requires Accepted(s) && i < |s.fields| && ValidFor(s, m)
  {
    var f := s.fields[i];
    if f.Constant? then [f.value]
    else if Absent(s, m, i) then AbsentOf(f.kind)
    else
      PresentIsInside(s, m, i);
      CellsFitted(f.kind);
      Load(m.body[..m.blockLength], Offset(s, i), TypeSize(f.kind), Cells(f.kind))
  }

  /** Whatever follows the acting block, or changes in it outside the field, a getter reads the same. */
  lemma GetDepends(s: Schema, m: Received, m': Received, i: nat)
    requires Accepted(s) && Wired(s, i) && ValidFor(s, m) && ValidFor(s, m')
    requires m.blockLength == m'.blockLength && m.version == m'.version
    requires Absent(s, m, i) ||
             forall k :: Offset(s, i) <= k < End(s, i) && k < m.blockLength ==> m.body[k] == m'.body[k]
    ensures Get(s, m, i) == Get(s, m', i)
  {
    hide LayOut, TypeSize, Cells, Load, Required;
    if !Absent(s, m, i) {
      PresentIsInside(s, m, i);
      PresentIsInside(s, m', i);
      CellsFitted(s.fields[i].kind);
      LoadAgrees(m.body[..m.blockLength], m'.body[..m.blockLength], Offset(s, i), TypeSize(s.fields[i].kind),
                 Cells(s.fields[i].kind));
    }
  }

  // ---- Writers ---------------------------------------------------------------------------------------------------

  /** A constant field takes no byte of any block and reads the same from every message. */
  lemma ConstantReads(s: Schema, m: Received, other: Received, i: nat)
    requires Accepted(s) && i < |s.fields| && s.fields[i].Constant? && ValidFor(s, m) && ValidFor(s, other)
    ensures Get(s, m, i) == Get(s, other, i) == [s.fields[i].value] && Items(s.fields)[i].size == 0
  {
  }

  /** What field `i` of a written block holds. */
  ghost function Held(s: Schema, b: seq<Byte>, i: nat): seq<Value>
    requires Accepted(s) && Wired(s, i) && |b| >= BlockLength(s)
  {
    FieldsDisjoint(s);
    CellsFitted(s.fields[i].kind);
    Load(b, Offset(s, i), TypeSize(s.fields[i].kind), Cells(s.fields[i].kind))
  }

  /** The generated setter. */
  function Written(s: Schema, b: seq<Byte>, i: nat, vs: seq<Value>): (r: seq<Byte>)
    requires Accepted(s) && Wired(s, i) && |b| >= BlockLength(s) && AllTyped(Cells(s.fields[i].kind), vs)
    ensures |r| == |b|
  {
    FieldsDisjoint(s);
    CellsFitted(s.fields[i].kind);
    Store(b, Offset(s, i), TypeSize(s.fields[i].kind), Cells(s.fields[i].kind), vs)
  }

  /** A setter stores its own field, and neither another field nor anything behind the block. */
  lemma SetterLaws(s: Schema, b: seq<Byte>, i: nat, vs: seq<Value>)
    requires Accepted(s) && Wired(s, i) && |b| >= BlockLength(s) && AllTyped(Cells(s.fields[i].kind), vs)
    ensures Held(s, Written(s, b, i, vs), i) == CleanAll(Cells(s.fields[i].kind), vs)
    ensures forall j: nat :: j != i && Wired(s, j) ==> Held(s, Written(s, b, i, vs), j) == Held(s, b, j)
    ensures Written(s, b, i, vs)[BlockLength(s)..] == b[BlockLength(s)..]
  {
    hide LayOut, TypeSize, Cells, Load, Store, CleanAll;
    FieldsDisjoint(s);
    var kind, at := s.fields[i].kind, Offset(s, i);
    CellsFitted(kind);
    LoadStore(b, at, TypeSize(kind), Cells(kind), vs);
    var b' := Written(s, b, i, vs);
    forall k: nat | k < |b| && !(at <= k < at + TypeSize(kind)) ensures b'[k] == b[k] {
      StoreFrame(b, at, TypeSize(kind), Cells(kind), vs, k);
    }
    forall j: nat | j != i && Wired(s, j) ensures Held(s, b', j) == Held(s, b, j) {
      CellsFitted(s.fields[j].kind);
      LoadAgrees(b', b, Offset(s, j), TypeSize(s.fields[j].kind), Cells(s.fields[j].kind));
    }
  }

  /** Writes the root block at the start of a buffer. */
  class BlockWriter {
    const schema: Schema
    var body: seq<Byte>
    var ok: bool
    var used: nat

    ghost predicate Valid()
      reads this
    {
      Accepted(schema) && (ok ==> |body| >= BlockLength(schema)) && used == if ok then BlockLength(schema) else 0
    }

    /** Zero-fills the block; a buffer that is too short is left alone. */
    constructor (schema: Schema, body: seq<Byte>)
      requires Accepted(schema)
      ensures Valid() && this.schema == schema && ok == (|body| >= BlockLength(schema))
      ensures |this.body| == |body| && if ok then this.body == Zeros(used) + body[used..] else this.body == body
    {
      this.schema := schema;
      var length := BlockLength(schema);
      if |body| < length {
        this.body, ok, used := body, false, 0;
      } else {
        this.body, ok, used := Zeros(length) + body[length..], true, length;
      }
    }

    method Set(i: nat, vs: seq<Value>)
      requires Valid() && Wired(schema, i) && AllTyped(Cells(schema.fields[i].kind), vs)
      modifies this`body
      ensures Valid() && |body| == |old(body)|
      ensures if ok then body == Written(schema, old(body), i, vs) else body == old(body)
    {
      if ok {
        body := Written(schema, body, i, vs);
      }
    }
  }

  /** One value list per field; those of constants are not looked at. */
  ghost predicate Values(s: Schema, vs: seq<seq<Value>>)
    requires Accepted(s)
  {
    |vs| == |s.fields| && forall i :: Wired(s, i) ==> AllTyped(Cells(s.fields[i].kind), vs[i])
  }

  ghost predicate Holds(s: Schema, b: seq<Byte>, vs: seq<seq<Value>>)
    requires Accepted(s) && Values(s, vs)
  {
    && |b| >= BlockLength(s)
    && forall i :: Wired(s, i) ==> Held(s, b, i) == CleanAll(Cells(s.fields[i].kind), vs[i])
  }

  /** Writing every field leaves a block that holds every value. */
  method WriteAll(s: Schema, vs: seq<seq<Value>>, body: seq<Byte>) returns (ok: bool, out: seq<Byte>)
    requires Accepted(s) && Values(s, vs)
    ensures ok == (|body| >= BlockLength(s)) && |out| == |body|
    ensures ok ==> Holds(s, out, vs) && out[BlockLength(s)..] == body[BlockLength(s)..]
    ensures !ok ==> out == body
  {
    hide LayOut, TypeSize, Cells, Load, Written, CleanAll;
    var w := new BlockWriter(s, body);
    for i := 0 to |s.fields|
      invariant w.Valid() && w.schema == s && w.ok == (|body| >= BlockLength(s)) && |w.body| == |body|
      invariant w.ok ==> forall k: nat :: k < i && Wired(s, k) ==>
                  Held(s, w.body, k) == CleanAll(Cells(s.fields[k].kind), vs[k])
      invariant w.ok ==> w.body[BlockLength(s)..] == body[BlockLength(s)..]
      invariant !w.ok ==> w.body == body
    {
      if s.fields[i].OnWire? {
        assert Wired(s, i);
        if w.ok { SetterLaws(s, w.body, i, vs[i]); }
        w.Set(i, vs[i]);
      }
    }
    return w.ok, w.body;
  }

  // ---- Across versions -------------------------------------------------------------------------------------------

  /** A later version of a schema: fields appended, each marked with the version that added it. */
  ghost predicate Extends(base: Schema, later: Schema) {
    && Accepted(base) && Accepted(later) && base.fields <= later.fields && base.since == later.since
    && base.since <= base.version <= later.version
    && (forall i :: Wired(base, i) ==> base.fields[i].since <= base.version)
    && forall i: nat :: Wired(later, i) && i >= |base.fields| ==> base.version < later.fields[i].since <= later.version
  }

  lemma SameOffsets(base: Schema, later: Schema, i: nat)
    requires Extends(base, later) && Wired(base, i)
    ensures Wired(later, i) && later.fields[i] == base.fields[i]
    ensures Offset(later, i) == Offset(base, i) && End(later, i) == End(base, i)
  {
    var k := |base.fields|;
    assert Items(later.fields)[..k] == Items(base.fields);
    PrefixKeepsPlace(Items(later.fields), k);
  }

  /** What a message carries: the acting block length and version are the writer's. */
  function Sent(s: Schema, b: seq<Byte>): Received
    requires Accepted(s)
  {
    Received(b, BlockLength(s), s.version)
  }

  lemma RequiredExists(s: Schema) returns (end: nat)
    requires Accepted(s)
    ensures Required(s, end) && end <= BlockLength(s)
  {
    hide LayOut, TypeSize;
    FieldsDisjoint(s);
    end := RequiredIs(s, |s.fields|);
  }

  lemma {:induction false} RequiredIs(s: Schema, n: nat) returns (end: nat)
    requires Accepted(s) && n <= |s.fields|
    ensures forall k: nat :: k < n && Wired(s, k) && s.fields[k].since <= s.since ==> End(s, k) <= end
    ensures end == 0 || exists k: nat :: k < n && Wired(s, k) && s.fields[k].since <= s.since && End(s, k) == end
  {
    hide LayOut, TypeSize;
    end := 0;
    if n > 0 {
      end := RequiredIs(s, n - 1);
      if Wired(s, n - 1) && s.fields[n - 1].since <= s.since && End(s, n - 1) > end { end := End(s, n - 1); }
    }
  }

  /** A block of one version is valid to a reader of another. */
  lemma OtherVersionIsValid(w: Schema, r: Schema, b: seq<Byte>)
    requires (Extends(w, r) || Extends(r, w)) && |b| >= BlockLength(w)
    ensures ValidFor(r, Sent(w, b))
  {
    hide LayOut, TypeSize, Required;
    var end := RequiredExists(r);
    RequiredFits(w, r, end);
  }

  lemma RequiredFits(w: Schema, r: Schema, end: nat)
    requires (Extends(w, r) || Extends(r, w)) && Required(r, end)
    ensures end <= BlockLength(w)
  {
    hide LayOut, TypeSize;
    FieldsDisjoint(w);
    if end != 0 {
      var k: nat :| Wired(r, k) && r.fields[k].since <= r.since && End(r, k) == end;
      if Extends(w, r) { SameOffsets(w, r, k); } else { SameOffsets(r, w, k); }
    }
  }

  /** A field of both versions is where the writer put it and present to the reader. */
  lemma CommonField(w: Schema, r: Schema, b: seq<Byte>, i: nat)
    requires (Extends(w, r) || Extends(r, w)) && |b| >= BlockLength(w)
    requires Wired(w, i) && Wired(r, i) && ValidFor(r, Sent(w, b))
    ensures Get(r, Sent(w, b), i) == Held(w, b, i) && r.fields[i] == w.fields[i]
  {
    hide LayOut, TypeSize, Cells, Load, Required, ValidFor;
    if Extends(w, r) { SameOffsets(w, r, i); } else { SameOffsets(r, w, i); }
    FieldsDisjoint(w);
    CellsFitted(w.fields[i].kind);
    LoadAgrees(b[..BlockLength(w)], b, Offset(w, i), TypeSize(w.fields[i].kind), Cells(w.fields[i].kind));
  }

  /**
    Any two versions understand each other: whatever is written, the reader gets every field both have,
    its constants, and the absent value for each field the writer does not know.
   */
  lemma AcrossVersions(w: Schema, r: Schema, b: seq<Byte>, vs: seq<seq<Value>>)
    requires (Extends(w, r) || Extends(r, w)) && Values(w, vs) && Holds(w, b, vs)
    ensures ValidFor(r, Sent(w, b))
    ensures forall i: nat :: Wired(r, i) ==>
              Get(r, Sent(w, b), i)
              == if i < |w.fields| then CleanAll(Cells(r.fields[i].kind), vs[i]) else AbsentOf(r.fields[i].kind)
  {
    hide LayOut, TypeSize, Cells, Load, Required, CleanAll;
    OtherVersionIsValid(w, r, b);
    forall i: nat | Wired(r, i)
      ensures Get(r, Sent(w, b), i)
              == if i < |w.fields| then CleanAll(Cells(r.fields[i].kind), vs[i]) else AbsentOf(r.fields[i].kind)
    {
      if i < |w.fields| { CommonField(w, r, b, i); } else { assert Absent(r, Sent(w, b), i); }
    }
  }

  /** Stored numbers and decimals read back as they are. */
  lemma SingleIsClean(t: Type, vs: seq<Value>)
    requires TypeOk(t) && (t.Plain? || t.Decimal?) && AllTyped(Cells(t), vs)
    ensures CleanAll(Cells(t), vs) == vs
  {
  }

  /**
    Across versions, a field is reported as missing exactly when it is optional and the writer did not
    know it or stored its null: a required field that is absent cannot be told from a stored zero.
   */
  lemma MissingIff(w: Schema, r: Schema, b: seq<Byte>, vs: seq<seq<Value>>, i: nat)
    requires (Extends(w, r) || Extends(r, w)) && Values(w, vs) && Holds(w, b, vs) && Wired(r, i)
    requires ValidFor(r, Sent(w, b))
    ensures var t := r.fields[i].kind;
            Missing(t, Get(r, Sent(w, b), i))
            <==> (t.Plain? || t.Decimal?) && t.presence.Optional? && (i >= |w.fields| || vs[i] == AbsentOf(t))
  {
    hide LayOut, TypeSize, Load, Required, CleanAll, NullOf;
    AcrossVersions(w, r, b, vs);
    var t := r.fields[i].kind;
    if i < |w.fields| {
      CommonField(w, r, b, i);
      if t.Plain? || t.Decimal? { SingleIsClean(t, vs[i]); }
    }
  }

  /**
    What an added field reads as from an older block is what it reads as from a newer one that stores its
    absent value: the reader cannot tell the two apart.
   */
  lemma AbsentLooksStored(base: Schema, later: Schema, older: seq<Byte>, newer: seq<Byte>, vs: seq<seq<Value>>,
                          ws: seq<seq<Value>>, i: nat)
    requires Extends(base, later) && Extends(later, later) && Wired(later, i) && i >= |base.fields|
    requires Values(base, vs) && Holds(base, older, vs) && Values(later, ws) && Holds(later, newer, ws)
    requires CleanAll(Cells(later.fields[i].kind), ws[i]) == AbsentOf(later.fields[i].kind)
    ensures ValidFor(later, Sent(base, older)) && ValidFor(later, Sent(later, newer))
    ensures Get(later, Sent(base, older), i) == Get(later, Sent(later, newer), i)
  {
    hide LayOut, TypeSize, Cells, Load, Required, CleanAll, Holds, Values;
    AcrossVersions(base, later, older, vs);
    AcrossVersions(later, later, newer, ws);
  }

  /** A message without fields, and its second version with one required byte. */
  const FIRST_VERSION := Schema([], None, 0, 0)
  const SECOND_VERSION := Schema([OnWire(Plain(UInt(1), Presence.Required), None, 1)], None, 0, 1)

  /** The byte that was never sent and the byte 0 read alike, and neither is reported missing. */
  lemma ZeroOrAbsent()
    ensures Extends(FIRST_VERSION, SECOND_VERSION)
    ensures ValidFor(SECOND_VERSION, Sent(FIRST_VERSION, [])) && ValidFor(SECOND_VERSION, Sent(SECOND_VERSION, [0]))
    ensures Get(SECOND_VERSION, Sent(FIRST_VERSION, []), 0) == Get(SECOND_VERSION, Sent(SECOND_VERSION, [0]), 0)
    ensures !Missing(SECOND_VERSION.fields[0].kind, Get(SECOND_VERSION, Sent(FIRST_VERSION, []), 0))
  {
    var base, later := FIRST_VERSION, SECOND_VERSION;
    var kind := later.fields[0].kind;
    assert Items(base.fields) == [];
    assert Items(later.fields)[..0] == [] && Items(later.fields)[0] == Item(None, 1);
    assert Cells(kind) == [Cell(0, Scalar(1, false))];
    assert AllTyped(Cells(kind), [Number(0)]);
    assert Extends(base, later) && Extends(later, later);
    OneByteHeld();
    AbsentLooksStored(base, later, [], [0], [], [[Number(0)]], 0);
  }

  /** An optional byte added in the second version: absent it reads 255 and is missing, a stored 0 is not. */
  lemma AbsentOptionalByte(later: Schema, i: nat, older: seq<Byte>, newer: seq<Byte>, vs: seq<seq<Value>>,
                           ws: seq<seq<Value>>, base: Schema)
    requires Extends(base, later) && Extends(later, later) && Wired(later, i) && i >= |base.fields|
    requires later.fields[i].kind == Plain(UInt(1), Optional(None))
    requires Values(base, vs) && Holds(base, older, vs) && Values(later, ws) && Holds(later, newer, ws)
    requires ws[i] == [Number(0)]
    ensures ValidFor(later, Sent(base, older)) && ValidFor(later, Sent(later, newer))
    ensures Get(later, Sent(base, older), i) == [Number(255)]
    ensures Missing(later.fields[i].kind, Get(later, Sent(base, older), i))
    ensures !Missing(later.fields[i].kind, Get(later, Sent(later, newer), i))
  {
    hide LayOut, TypeSize, Load, Required, CleanAll, Holds;
    AcrossVersions(base, later, older, vs);
    AcrossVersions(later, later, newer, ws);
    MissingIff(base, later, older, vs, i);
    MissingIff(later, later, newer, ws, i);
    RangesAre(255);
    DefaultNull(UInt(1), 255);
    RangesAre(NullOf(UInt(1), None));
  }

  lemma OneByteHeld()
    requires Accepted(SECOND_VERSION)
    ensures Values(SECOND_VERSION, [[Number(0)]]) && Holds(SECOND_VERSION, [0], [[Number(0)]])
  {
    var later := SECOND_VERSION;
    assert Items(later.fields)[..0] == [] && Items(later.fields)[0] == Item(None, 1);
    assert [0][1..] == [];
    assert LeNumber([0]) == 0;
    assert Held(later, [0], 0) == [Number(0)];
  }

  /** The same version reads back what it wrote. */
  lemma ReadBack(s: Schema, b: seq<Byte>, vs: seq<seq<Value>>)
    requires Accepted(s) && s.since <= s.version && (forall i :: Wired(s, i) ==> s.fields[i].since <= s.version)
    requires Values(s, vs) && Holds(s, b, vs)
    ensures ValidFor(s, Sent(s, b))
    ensures forall i: nat :: Wired(s, i) ==> Get(s, Sent(s, b), i) == CleanAll(Cells(s.fields[i].kind), vs[i])
  {
    assert Extends(s, s);
    AcrossVersions(s, s, b, vs);
  }
}
