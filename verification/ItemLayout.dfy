/**
 * Items of the segment cache in segment memory:
 * `[klen u8][flags u8][vlen u32][optional][key][value]`, a number as
 * `[pad][value u64][version u64]` on an 8-byte boundary, every item rounded up
 * to a multiple of eight. The build without integrity fields.
 */
module ItemLayout {
  import opened Bytes
  import opened Wrappers
  import opened TinyItem

  const ITEM_HDR_SIZE := 6
  const NUMERIC := 0x80
  const DELETED := 0x40
  const OLEN_LIMIT := 0x40

  datatype Item = Item(key: Key, optional: seq<Byte>, value: Value)

  /** What the header fields can carry. */
  predicate Definable(item: Item) {
    && |item.key| <= 0xFF && |item.optional| < OLEN_LIMIT
    && (item.value.Bytes? ==> |item.value.bytes| <= U32_MAX)
  }

  function NumericValuePad(klen: nat, olen: nat): nat { (8 - (ITEM_HDR_SIZE + olen + klen) % 8) % 8 }

  function RoundUp(raw: nat): nat { (raw / 8 + 1) * 8 }

  /** The size reserved for an item before it is written. */
  function ItemSize(item: Item): (size: nat)
    ensures size > ITEM_HDR_SIZE && size % 8 == 0
  {
    var (klen, olen) := (|item.key|, |item.optional|);
    var extra := if item.value.U64? then NumericValuePad(klen, olen) + 8 else 0;
    RoundUp(ITEM_HDR_SIZE + olen + klen + extra + item.value.Size())
  }

  // ----- Reading an item from its first bytes -----

  predicate Header(b: seq<Byte>) { |b| >= ITEM_HDR_SIZE }

  function Klen(b: seq<Byte>): nat
    requires Header(b)
  {
    b[0]
  }

  function Olen(b: seq<Byte>): nat
    requires Header(b)
  {
    b[1] % OLEN_LIMIT
  }

  predicate IsNumeric(b: seq<Byte>)
    requires Header(b)
  {
    b[1] >= NUMERIC
  }

  predicate IsDeleted(b: seq<Byte>)
    requires Header(b)
  {
    b[1] % NUMERIC >= DELETED
  }

  function Vlen(b: seq<Byte>): u32
    requires Header(b)
  {
    ReadLe32(b[2..6])
  }

  function KeyOffset(b: seq<Byte>): nat
    requires Header(b)
  {
    ITEM_HDR_SIZE + Olen(b)
  }

  function ValueOffset(b: seq<Byte>): nat
    requires Header(b)
  {
    var unpadded := KeyOffset(b) + Klen(b);
    if IsNumeric(b) then unpadded + NumericValuePad(Klen(b), Olen(b)) else unpadded
  }

  /** The size of an item, re-read from its bytes. */
  function Size(b: seq<Byte>): nat
    requires Header(b)
  {
    var extra := if IsNumeric(b) then NumericValuePad(Klen(b), Olen(b)) + 8 else 0;
    RoundUp(ITEM_HDR_SIZE + Olen(b) + Klen(b) + extra + Vlen(b))
  }

  /** The item at the start of `b`, if it is all there. */
  function ReadItem(b: seq<Byte>): (r: Option<Item>)
    ensures r.Some? ==> Header(b) && 0 < Size(b) <= |b|
  {
    if !Header(b) || Size(b) > |b| then None
    else
      SizeCovers(b);
      var optional := b[ITEM_HDR_SIZE..KeyOffset(b)];
      var key := b[KeyOffset(b)..KeyOffset(b) + Klen(b)];
      var at := ValueOffset(b);
      Some(Item(key, optional, if IsNumeric(b) then U64(ReadLe64(b[at..at + 8])) else Bytes(b[at..at + Vlen(b)])))
  }

  lemma SizeCovers(b: seq<Byte>)
    requires Header(b)
    ensures ValueOffset(b) + Vlen(b) < Size(b) && (IsNumeric(b) ==> ValueOffset(b) + Vlen(b) + 8 < Size(b))
  {
  }

  // ----- Writing an item -----

  function Zeros(n: nat): (z: seq<Byte>)
    ensures |z| == n
  {
    seq(n, (i: nat) => 0)
  }

  /** The lengths are truncated to their fields. */
  function HeaderBytes(item: Item): (h: seq<Byte>)
    ensures |h| == ITEM_HDR_SIZE
  {
    var flags := |item.optional| % OLEN_LIMIT + if item.value.U64? then NUMERIC else 0;
    [|item.key| % 0x100] + [flags] + Le32(item.value.Size() % (U32_MAX + 1))
  }

  /** The value as stored: a number is padded to eight bytes and followed by version zero. */
  function ValueBytes(item: Item): seq<Byte> {
    match item.value
    case Bytes(b) => b
    case U64(n) => Zeros(NumericValuePad(|item.key|, |item.optional|)) + Le64(n) + Le64(0)
  }

  function Encoded(item: Item): (e: seq<Byte>)
    ensures |e| < ItemSize(item)
  {
    HeaderBytes(item) + item.optional + item.key + ValueBytes(item)
  }

  /** An item takes more than its bytes, and at most one word more. */
  lemma SizeIsTight(item: Item)
    ensures |Encoded(item)| < ItemSize(item) <= |Encoded(item)| + 8 && ItemSize(item) % 8 == 0
  {
  }

  predicate Holds(b: seq<Byte>, item: Item) {
    ItemSize(item) <= |b| && Encoded(item) <= b
  }

  lemma HeaderReadsBack(b: seq<Byte>, item: Item)
    requires Holds(b, item) && Definable(item)
    ensures Header(b) && Klen(b) == |item.key| && Olen(b) == |item.optional| && Vlen(b) == item.value.Size()
    ensures IsNumeric(b) == item.value.U64? && !IsDeleted(b) && Size(b) == ItemSize(item)
  {
    hide ValueBytes, FromLe, ToLe;
    var h, e := HeaderBytes(item), Encoded(item);
    assert e[..6] == h;
    assert b[0] == e[0] == h[0] && b[1] == e[1] == h[1];
    assert b[2..6] == e[2..6] == h[2..6] == Le32(item.value.Size() % (U32_MAX + 1));
  }

  lemma PartsReadBack(b: seq<Byte>, item: Item)
    requires Holds(b, item)
    ensures var k := ITEM_HDR_SIZE + |item.optional|;
      var v := k + |item.key|;
      && b[ITEM_HDR_SIZE..k] == item.optional && b[k..v] == item.key
      && v + |ValueBytes(item)| <= |b| && b[v..v + |ValueBytes(item)|] == ValueBytes(item)
  {
    var e := Encoded(item);
    var k := ITEM_HDR_SIZE + |item.optional|;
    var v := k + |item.key|;
    var head := HeaderBytes(item) + item.optional;
    assert e == head + item.key + ValueBytes(item);
    assert e[..k] == head && e[..v] == head + item.key;
    assert b[ITEM_HDR_SIZE..k] == e[..k][ITEM_HDR_SIZE..];
    assert b[k..v] == e[..v][k..];
    assert b[v..v + |ValueBytes(item)|] == e[v..];
  }

  /**
   * An item written into a buffer with the reserved size is read back whole
   * exactly when its lengths fit their fields. It then has the same size and is
   * not deleted; the words of a number lie on 8-byte boundaries inside the item
   * and its version starts at zero.
   */
  lemma DefineReadsBack(b: seq<Byte>, item: Item)
    requires Holds(b, item)
    ensures Header(b) && (Definable(item) <==> ReadItem(b) == Some(item))
    ensures Definable(item) ==> Size(b) == ItemSize(item) && !IsDeleted(b)
    ensures Definable(item) && item.value.U64? ==>
              && ValueOffset(b) % 8 == 0 && ValueOffset(b) + 16 < ItemSize(item)
              && ReadLe64(b[ValueOffset(b) + 8..ValueOffset(b) + 16]) == 0
  {
    hide Encoded, HeaderBytes, ItemSize;
    if Definable(item) {
      HeaderReadsBack(b, item);
      PartsReadBack(b, item);
      if item.value.U64? { NumberReadsBack(b, item); }
    } else if ReadItem(b) == Some(item) {
      ReadIsDefinable(b);
    }
  }

  /** Whatever is read from bytes fits the header fields. */
  lemma ReadIsDefinable(b: seq<Byte>)
    requires ReadItem(b).Some?
    ensures Definable(ReadItem(b).value)
  {
    SizeCovers(b);
  }

  lemma TwoWords(b: seq<Byte>, v: nat, pad: nat, n: u64)
    requires v + pad + 16 <= |b| && b[v..v + (pad + 16)] == Zeros(pad) + Le64(n) + Le64(0)
    ensures b[v + pad..v + pad + 8] == Le64(n) && b[v + pad + 8..v + pad + 16] == Le64(0)
  {
    hide Le64, Zeros;
    var w := Zeros(pad) + Le64(n) + Le64(0);
    assert w[pad..pad + 8] == Le64(n) && w[pad + 8..pad + 16] == Le64(0);
    RangeOfRange(b, v, v + (pad + 16), pad, pad + 8);
    RangeOfRange(b, v, v + (pad + 16), pad + 8, pad + 16);
  }

  lemma NumberReadsBack(b: seq<Byte>, item: Item)
    requires Holds(b, item) && item.value.U64?
    ensures var at := ITEM_HDR_SIZE + |item.optional| + |item.key| + NumericValuePad(|item.key|, |item.optional|);
      && at % 8 == 0 && at + 16 < ItemSize(item)
      && b[at..at + 8] == Le64(item.value.n) && b[at + 8..at + 16] == Le64(0)
  {
    hide Encoded, HeaderBytes, Le64;
    var v, pad := ITEM_HDR_SIZE + |item.optional| + |item.key|, NumericValuePad(|item.key|, |item.optional|);
    PartsReadBack(b, item);
    TwoWords(b, v, pad, item.value.n);
    PadAligns(|item.key|, |item.optional|);
  }

  /** The pad brings the value to the next 8-byte boundary and never wastes a word. */
  lemma PadAligns(klen: nat, olen: nat)
    ensures NumericValuePad(klen, olen) < 8
    ensures (ITEM_HDR_SIZE + olen + klen + NumericValuePad(klen, olen)) % 8 == 0
  {
  }

  // ----- Items laid end to end -----

  /** The items found by walking from the start, each size re-read from the bytes. */
  function Walk(b: seq<Byte>): Option<seq<Item>>
    decreases |b|
  {
    if b == [] then Some([])
    else
      match ReadItem(b)
      case None => None
      case Some(item) =>
        match Walk(b[Size(b)..])
        case None => None
        case Some(rest) => Some([item] + rest)
  }

  lemma HeadRange(b: seq<Byte>, rest: seq<Byte>, i: nat, j: nat)
    requires i <= j <= |b|
    ensures (b + rest)[i..j] == b[i..j]
  {
    forall k | 0 <= k < j - i ensures (b + rest)[i..j][k] == b[i..j][k] {
    }
  }

  /** An item is read from its own bytes, whatever follows them. */
  lemma ReadIgnoresRest(b: seq<Byte>, rest: seq<Byte>)
    requires ReadItem(b).Some?
    ensures ReadItem(b + rest) == ReadItem(b) && Size(b + rest) == Size(b)
    ensures (b + rest)[Size(b)..] == b[Size(b)..] + rest
  {
    var c := b + rest;
    HeadRange(b, rest, 2, 6);
    assert Klen(c) == Klen(b) && Olen(c) == Olen(b) && IsNumeric(c) == IsNumeric(b) && Vlen(c) == Vlen(b);
    ReadIgnoresBody(b, rest);
  }

  lemma ReadIgnoresBody(b: seq<Byte>, rest: seq<Byte>)
    requires ReadItem(b).Some? && Header(b + rest)
    requires var c := b + rest;
      Klen(c) == Klen(b) && Olen(c) == Olen(b) && IsNumeric(c) == IsNumeric(b) && Vlen(c) == Vlen(b)
    ensures ReadItem(b + rest) == ReadItem(b) && Size(b + rest) == Size(b)
    ensures (b + rest)[Size(b)..] == b[Size(b)..] + rest
  {
    hide Klen, Olen, IsNumeric, Vlen, FromLe;
    SizeCovers(b);
    var k, v := KeyOffset(b), ValueOffset(b);
    HeadRange(b, rest, ITEM_HDR_SIZE, k);
    HeadRange(b, rest, k, k + Klen(b));
    if IsNumeric(b) { HeadRange(b, rest, v, v + 8); } else { HeadRange(b, rest, v, v + Vlen(b)); }
  }

  /** Walking finds what was there and then the item appended. */
  lemma {:induction false} WalkAppend(b: seq<Byte>, e: seq<Byte>, item: Item)
    requires Walk(b).Some? && Definable(item) && Holds(e, item) && |e| == ItemSize(item)
    ensures Walk(b + e) == Some(Walk(b).value + [item])
    decreases |b|
  {
    hide ReadItem, Size, Encoded, ItemSize;
    if b == [] {
      DefineReadsBack(e, item);
      assert b + e == e && e[Size(e)..] == [] && [item] + [] == [] + [item];
    } else {
      ReadIgnoresRest(b, e);
      WalkAppend(b[Size(b)..], e, item);
      var first := ReadItem(b).value;
      assert [first] + (Walk(b[Size(b)..]).value + [item]) == ([first] + Walk(b[Size(b)..]).value) + [item];
    }
  }

  /** Marking an item deleted, or taking the mark back, leaves everything else as it was. */
  function WithDeleted(b: seq<Byte>, deleted: bool): (r: seq<Byte>)
    requires Header(b)
    ensures |r| == |b|
  {
    var flags := b[1] % DELETED + if IsNumeric(b) then NUMERIC else 0;
    b[1 := flags + if deleted then DELETED else 0]
  }

  lemma MarkedFlags(b: seq<Byte>, deleted: bool)
    requires Header(b)
    ensures var r := WithDeleted(b, deleted);
      IsDeleted(r) == deleted && Olen(r) == Olen(b) && IsNumeric(r) == IsNumeric(b)
        && Klen(r) == Klen(b) && Vlen(r) == Vlen(b)
  {
    var r := WithDeleted(b, deleted);
    assert r[2..6] == b[2..6];
  }

  /** What is read depends on the header fields and on the bytes after the header. */
  lemma SameFieldsSameItem(b: seq<Byte>, r: seq<Byte>)
    requires Header(b) && |r| == |b| && b[ITEM_HDR_SIZE..] == r[ITEM_HDR_SIZE..]
    requires Olen(r) == Olen(b) && IsNumeric(r) == IsNumeric(b) && Klen(r) == Klen(b) && Vlen(r) == Vlen(b)
    ensures Size(r) == Size(b) && ReadItem(r) == ReadItem(b)
  {
    hide Klen, Olen, IsNumeric, Vlen;
    if Size(b) <= |b| {
      SizeCovers(b);
      var k, v := KeyOffset(b), ValueOffset(b);
      SameRange(b, r, ITEM_HDR_SIZE, k);
      SameRange(b, r, k, k + Klen(b));
      if IsNumeric(b) { SameRange(b, r, v, v + 8); } else { SameRange(b, r, v, v + Vlen(b)); }
    }
  }

  lemma SameRange(b: seq<Byte>, r: seq<Byte>, i: nat, j: nat)
    requires ITEM_HDR_SIZE <= i <= j <= |b| == |r| && b[ITEM_HDR_SIZE..] == r[ITEM_HDR_SIZE..]
    ensures b[i..j] == r[i..j]
  {
    forall k | i <= k < j ensures b[k] == r[k] {
      assert b[k] == b[ITEM_HDR_SIZE..][k - ITEM_HDR_SIZE];
    }
  }

  lemma DeletedChangesOnlyTheMark(b: seq<Byte>, deleted: bool)
    requires Header(b)
    ensures var r := WithDeleted(b, deleted);
      IsDeleted(r) == deleted && Size(r) == Size(b) && ReadItem(r) == ReadItem(b)
  {
    MarkedFlags(b, deleted);
    SameFieldsSameItem(b, WithDeleted(b, deleted));
  }

  // ----- A segment -----

  class Segment {
    const data: array<Byte>
    var writeOffset: nat

    ghost predicate Valid()
      reads this, data
    {
      writeOffset <= data.Length && writeOffset % 8 == 0 && Walk(data[..writeOffset]).Some?
    }

    /** The items found by walking the segment from its start. */
    ghost function Items(): seq<Item>
      requires Valid()
      reads this, data
    {
      Walk(data[..writeOffset]).value
    }

    constructor (capacity: nat)
      ensures Valid() && Items() == [] && fresh(data) && data.Length == capacity
    {
      data := new Byte[capacity](i => 0);
      writeOffset := 0;
    }

    /** Write `bytes` after what has been written from `start` on. */
    method WriteNext(start: nat, at: nat, bytes: seq<Byte>, ghost done: seq<Byte>)
      requires start <= at && at + |bytes| <= data.Length && data[start..at] == done
      modifies data
      ensures data[start..at + |bytes|] == done + bytes && data[..start] == old(data[..start])
    {
      forall k | 0 <= k < |bytes| { data[at + k] := bytes[k]; }
      assert data[start..at] == done && data[at..at + |bytes|] == bytes;
    }

    /** Write the item's header, optional, key and value from `at` on. */
    method Define(at: nat, item: Item)
      requires at + ItemSize(item) <= data.Length
      modifies data
      ensures Holds(data[at..at + ItemSize(item)], item)
      ensures data[..at] == old(data[..at])
    {
      hide ItemSize, HeaderBytes, ValueBytes, Walk, ReadItem;
      var h, v := HeaderBytes(item), ValueBytes(item);
      var k := at + |h|;
      assert Encoded(item) == [] + h + item.optional + item.key + v;
      WriteNext(at, at, h, []);
      WriteNext(at, k, item.optional, [] + h);
      WriteNext(at, k + |item.optional|, item.key, [] + h + item.optional);
      WriteNext(at, k + |item.optional| + |item.key|, v, [] + h + item.optional + item.key);
      ghost var used := at + |Encoded(item)|;
      assert data[at..used] == Encoded(item);
      assert data[at..at + ItemSize(item)] == data[at..used] + data[used..at + ItemSize(item)];
    }

    /** Reserve room for the item and define it there, if it fits. */
    method Append(item: Item) returns (ok: bool)
      requires Valid() && Definable(item)
      modifies `writeOffset, data
      ensures Valid() && ok == (old(writeOffset) + ItemSize(item) <= data.Length)
      ensures Items() == if ok then old(Items()) + [item] else old(Items())
      ensures ok ==> writeOffset == old(writeOffset) + ItemSize(item)
    {
      hide Encoded, Walk, ReadItem;
      var size := ItemSize(item);
      ok := writeOffset + size <= data.Length;
      if ok {
        ghost var b, w := data[..writeOffset], writeOffset;
        Define(writeOffset, item);
        WalkAppend(b, data[w..w + size], item);
        assert data[..w + size] == b + data[w..w + size];
        writeOffset := writeOffset + size;
      }
    }

    /** Walk the segment as the scans do, re-reading each item's size from its bytes. */
    method Scan() returns (items: seq<Item>)
      requires Valid()
      ensures items == Items()
    {
      hide ReadItem;
      items := [];
      var at := 0;
      assert data[0..writeOffset] == data[..writeOffset];
      while at < writeOffset
        invariant 0 <= at <= writeOffset && Walk(data[at..writeOffset]).Some?
        invariant Items() == items + Walk(data[at..writeOffset]).value
        decreases writeOffset - at
      {
        var b := data[at..writeOffset];
        var item := ReadItem(b).value;
        ghost var rest := Walk(b[Size(b)..]).value;
        assert items + ([item] + rest) == (items + [item]) + rest;
        assert b[Size(b)..] == data[at + Size(b)..writeOffset];
        items := items + [item];
        at := at + Size(b);
      }
      assert data[at..writeOffset] == [];
    }
  }
}
