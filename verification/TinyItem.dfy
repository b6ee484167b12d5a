/**
 * The slot layout of the cuckoo cache: `[expire u32][klen u8][vlen u8][key][value]`.
 * `vlen == 0` marks a numeric value held in eight big-endian bytes; an
 * expiration of zero marks an empty slot. Both lengths are stored truncated to
 * one byte.
 */
module TinyItem {
  import opened Bytes
  import opened Wrappers

  type Key = seq<Byte>

  datatype Value = Bytes(bytes: seq<Byte>) | U64(n: u64)
  {
    /** The number of bytes the payload occupies. */
    function Size(): nat { if U64? then 8 else |bytes| }
  }

  /** The contents of an occupied slot. */
  datatype Record = Record(key: Key, value: Value, expire: u32)

  const HDR_SIZE := 6

  function ExpireOf(s: seq<Byte>): u32
    requires |s| >= HDR_SIZE
  {
    ReadLe32(s[..4])
  }

  /** The value length in bytes that the header announces. */
  function ValueLen(s: seq<Byte>): nat
    requires |s| >= HDR_SIZE
  {
    if s[5] == 0 then 8 else s[5]
  }

  /** The lengths in the header stay inside the slot. */
  predicate InBounds(s: seq<Byte>) {
    |s| >= HDR_SIZE && HDR_SIZE + s[4] + ValueLen(s) <= |s|
  }

  function KeyOf(s: seq<Byte>): Key
    requires InBounds(s)
  {
    s[HDR_SIZE..HDR_SIZE + s[4]]
  }

  function ValueOf(s: seq<Byte>): Value
    requires InBounds(s)
  {
    var off := HDR_SIZE + s[4];
    if s[5] == 0 then U64(ReadBe64(s[off..off + 8])) else Bytes(s[off..off + s[5]])
  }

  /** What a slot holds: nothing if its expiration is zero. */
  function Decode(s: seq<Byte>): (o: Option<Record>)
    requires |s| >= HDR_SIZE && (ExpireOf(s) != 0 ==> InBounds(s))
    ensures o.Some? ==> o.value.expire == ExpireOf(s) != 0
  {
    if ExpireOf(s) == 0 then None else Some(Record(KeyOf(s), ValueOf(s), ExpireOf(s)))
  }

  function Payload(value: Value): (p: seq<Byte>)
    ensures |p| == value.Size()
  {
    match value case Bytes(b) => b case U64(n) => Be64(n)
  }

  function Header(key: Key, value: Value, expire: u32): (h: seq<Byte>)
    ensures |h| == HDR_SIZE
  {
    Le32(expire) + [|key| % 256] + [if value.U64? then 0 else |value.bytes| % 256]
  }

  predicate Fits(s: seq<Byte>, key: Key, value: Value) {
    HDR_SIZE + |key| + value.Size() <= |s|
  }

  /** The bytes of slot `s` after an item is defined in it; the tail is kept. */
  function Defined(s: seq<Byte>, key: Key, value: Value, expire: u32): (r: seq<Byte>)
    requires Fits(s, key, value)
    ensures |r| == |s|
  {
    Header(key, value, expire) + key + Payload(value) + s[HDR_SIZE + |key| + value.Size()..]
  }

  /** The lengths a one-byte header field can carry without losing the item. */
  predicate Storable(key: Key, value: Value) {
    |key| <= 255 && (value.Bytes? ==> 1 <= |value.bytes| <= 255)
  }

  lemma DefinedParts(s: seq<Byte>, key: Key, value: Value, expire: u32)
    requires Fits(s, key, value)
    ensures var r := Defined(s, key, value, expire);
      && r[..4] == Le32(expire) && r[4] == |key| % 256
      && r[5] == (if value.U64? then 0 else |value.bytes| % 256)
      && r[HDR_SIZE..HDR_SIZE + |key|] == key
      && r[HDR_SIZE + |key|..HDR_SIZE + |key| + value.Size()] == Payload(value)
      && ExpireOf(r) == expire
  {
    var r := Defined(s, key, value, expire);
    assert r[..HDR_SIZE] == Header(key, value, expire);
    assert r[..4] == r[..HDR_SIZE][..4] == Le32(expire);
    assert r[4] == r[..HDR_SIZE][4] && r[5] == r[..HDR_SIZE][5];
  }

  /**
   * Defining an item and reading it back returns the key, value and expiration
   * exactly when both lengths survive the truncation to one byte and the value
   * is not the empty byte string, which would read as a number.
   */
  lemma DefineReadsBack(s: seq<Byte>, key: Key, value: Value, expire: u32)
    requires Fits(s, key, value)
    ensures var r := Defined(s, key, value, expire);
      Storable(key, value) <==>
      InBounds(r) && KeyOf(r) == key && ValueOf(r) == value && ExpireOf(r) == expire
  {
    var r := Defined(s, key, value, expire);
    DefinedParts(s, key, value, expire);
    if Storable(key, value) {
      assert r[4] == |key|;
      assert InBounds(r);
      if value.U64? {
        assert r[HDR_SIZE + |key|..HDR_SIZE + |key| + 8] == Be64(value.n);
      }
    } else if InBounds(r) && KeyOf(r) == key {
      assert |KeyOf(r)| == |key| % 256;
      if r[5] != 0 { assert |ValueOf(r).bytes| == |value.bytes| % 256; }
    }
  }

  /** The empty byte value is read back as a number: the eight bytes that happen to follow the key. */
  lemma EmptyReadsAsNumber(s: seq<Byte>, key: Key, expire: u32)
    requires HDR_SIZE + |key| + 8 <= |s| && |key| <= 255
    ensures Fits(s, key, Bytes([]))
    ensures var r := Defined(s, key, Bytes([]), expire); InBounds(r) && KeyOf(r) == key && ValueOf(r).U64?
  {
    DefinedParts(s, key, Bytes([]), expire);
  }

  /** So is a byte value whose length is a multiple of 256. */
  lemma LongReadsAsNumber(s: seq<Byte>, key: Key, bytes: seq<Byte>, expire: u32)
    requires |key| <= 255 && |bytes| > 0 && |bytes| % 256 == 0 && Fits(s, key, Bytes(bytes))
    ensures var r := Defined(s, key, Bytes(bytes), expire); InBounds(r) && KeyOf(r) == key && ValueOf(r).U64?
  {
    DefinedParts(s, key, Bytes(bytes), expire);
  }

  /** A defined item decodes to its record, or to nothing under expiration zero. */
  lemma DefinedDecodes(s: seq<Byte>, key: Key, value: Value, expire: u32)
    requires Fits(s, key, value) && Storable(key, value)
    ensures var r := Defined(s, key, value, expire);
      InBounds(r) && Decode(r) == if expire == 0 then None else Some(Record(key, value, expire))
  {
    DefineReadsBack(s, key, value, expire);
  }

  /** The bytes of a numeric slot after its value is overwritten in place. */
  function WithNumber(s: seq<Byte>, n: u64): (r: seq<Byte>)
    requires InBounds(s) && s[5] == 0
    ensures |r| == |s|
  {
    var off := HDR_SIZE + s[4];
    s[..off] + Be64(n) + s[off + 8..]
  }

  /** Overwriting the number changes the value and nothing else. */
  lemma WithNumberDecodes(s: seq<Byte>, n: u64)
    requires InBounds(s) && s[5] == 0
    ensures var r := WithNumber(s, n);
      && InBounds(r) && KeyOf(r) == KeyOf(s) && ValueOf(r) == U64(n)
      && ExpireOf(r) == ExpireOf(s)
  {
    var off := HDR_SIZE + s[4];
    var r := WithNumber(s, n);
    assert r[..off] == s[..off];
    assert r[..4] == r[..off][..4] == s[..4];
    assert r[4] == r[..off][4] == s[4] && r[5] == r[..off][5];
    assert KeyOf(r) == r[..off][HDR_SIZE..] == KeyOf(s);
    assert r[off..off + 8] == Be64(n);
  }
}
