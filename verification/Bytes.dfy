/** Fixed-width unsigned integers and their byte encodings. */
module Bytes {
  type Byte = n: int | 0 <= n < 0x100
  type u32 = n: int | 0 <= n < 0x1_0000_0000
  type u64 = n: int | 0 <= n < 0x1_0000_0000_0000_0000

  const U32_MAX: u32 := 0xFFFF_FFFF
  const TWO_64 := 0x1_0000_0000_0000_0000

  function WrappingAdd(a: u64, b: u64): u64 { (a + b) % TWO_64 }

  function SaturatingSub(a: u64, b: u64): u64 { if a <= b then 0 else a - b }

  function SaturatingAdd32(a: u32, b: u32): u32 { if a + b > U32_MAX then U32_MAX else a + b }

  function Pow256(n: nat): nat { if n == 0 then 1 else 256 * Pow256(n - 1) }

  lemma Widths()
    ensures Pow256(4) == U32_MAX + 1 && Pow256(8) == TWO_64
  {
    assert Pow256(2) == 0x1_0000;
    assert Pow256(4) == 0x1_0000_0000;
    assert Pow256(6) == 0x1_0000_0000_0000;
  }

  /** The `n` big-endian bytes of `v` (higher digits dropped). */
  function ToBe(v: nat, n: nat): (s: seq<Byte>)
    ensures |s| == n
  {
    if n == 0 then [] else ToBe(v / 256, n - 1) + [v % 256]
  }

  function FromBe(s: seq<Byte>): (v: nat)
    ensures v < Pow256(|s|)
  {
    if s == [] then 0 else FromBe(s[..|s| - 1]) * 256 + s[|s| - 1]
  }

  /** The `n` little-endian bytes of `v`. */
  function ToLe(v: nat, n: nat): (s: seq<Byte>)
    ensures |s| == n
  {
    if n == 0 then [] else [v % 256] + ToLe(v / 256, n - 1)
  }

  function FromLe(s: seq<Byte>): (v: nat)
    ensures v < Pow256(|s|)
  {
    if s == [] then 0 else s[0] + 256 * FromLe(s[1..])
  }

  lemma {:induction false} BeRoundTrip(v: nat, n: nat)
    requires v < Pow256(n)
    ensures FromBe(ToBe(v, n)) == v
  {
    if n > 0 {
      BeRoundTrip(v / 256, n - 1);
      assert ToBe(v, n)[..n - 1] == ToBe(v / 256, n - 1);
    }
  }

  lemma {:induction false} LeRoundTrip(v: nat, n: nat)
    requires v < Pow256(n)
    ensures FromLe(ToLe(v, n)) == v
  {
    if n > 0 {
      LeRoundTrip(v / 256, n - 1);
      assert ToLe(v, n)[1..] == ToLe(v / 256, n - 1);
    }
  }

  function Be64(v: u64): (s: seq<Byte>)
    ensures |s| == 8 && FromBe(s) == v
  {
    Widths();
    BeRoundTrip(v, 8);
    ToBe(v, 8)
  }

  function Le32(v: u32): (s: seq<Byte>)
    ensures |s| == 4 && FromLe(s) == v
  {
    Widths();
    LeRoundTrip(v, 4);
    ToLe(v, 4)
  }

  function ReadBe64(s: seq<Byte>): u64
    requires |s| == 8
  {
    Widths();
    FromBe(s)
  }

  function ReadLe32(s: seq<Byte>): u32
    requires |s| == 4
  {
    Widths();
    FromLe(s)
  }

  function Le64(v: u64): (s: seq<Byte>)
    ensures |s| == 8 && FromLe(s) == v
  {
    Widths();
    LeRoundTrip(v, 8);
    ToLe(v, 8)
  }

  function ReadLe64(s: seq<Byte>): u64
    requires |s| == 8
  {
    Widths();
    FromLe(s)
  }

  /** A range of a range is a range. */
  lemma RangeOfRange(d: seq<Byte>, x: nat, y: nat, a: nat, b: nat)
    requires x <= y <= |d| && a <= b <= y - x
    ensures d[x..y][a..b] == d[x + a..x + b]
    ensures a < b ==> d[x..y][a] == d[x + a]
  {
    var (s, r) := (d[x..y][a..b], d[x + a..x + b]);
    assert |s| == |r|;
    forall k | 0 <= k < b - a ensures s[k] == r[k] {
      assert s[k] == d[x..y][a + k] == d[x + (a + k)];
    }
  }
}
