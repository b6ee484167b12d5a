/** The tokens of compare-and-set: an item's identity mixed with its version. */
module CasToken {
  import opened Bytes

  const SPREAD: u64 := 0x9E37_79B9_7F4A_7C15
  const SPREAD_INVERSE: u64 := 0xF1DE_83E1_9937_733D

  function WrappingMul(a: u64, b: u64): u64 { (a * b) % TWO_64 }

  /** Bitwise exclusive or of the low `bits` bits. */
  function Xor(a: nat, b: nat, bits: nat): (x: nat)
    ensures x < Pow2(bits)
  {
    if bits == 0 then 0 else (a + b) % 2 + 2 * Xor(a / 2, b / 2, bits - 1)
  }

  function Pow2(n: nat): (p: nat)
    ensures p >= 1
  {
    if n == 0 then 1 else 2 * Pow2(n - 1)
  }

  lemma Pow2Of64()
    ensures Pow2(64) == TWO_64
  {
    assert Pow2(8) == 0x100;
    assert Pow2(16) == 0x1_0000;
    assert Pow2(24) == 0x100_0000;
    assert Pow2(32) == 0x1_0000_0000;
    assert Pow2(40) == 0x100_0000_0000;
    assert Pow2(48) == 0x1_0000_0000_0000;
    assert Pow2(56) == 0x100_0000_0000_0000;
  }

  lemma LowBit(a: nat, b: nat, y: nat)
    ensures var x := (a + b) % 2 + 2 * y;
      x / 2 == y && (a + x) % 2 == b % 2
  {
  }

  /** Exclusive or with the same word twice gives the other word back. */
  lemma {:induction false} XorCancels(a: nat, b: nat, bits: nat)
    requires b < Pow2(bits)
    ensures Xor(a, Xor(a, b, bits), bits) == b
  {
    if bits > 0 {
      var y := Xor(a / 2, b / 2, bits - 1);
      LowBit(a, b, y);
      assert b / 2 < Pow2(bits - 1);
      XorCancels(a / 2, b / 2, bits - 1);
    }
  }

  function MixVersion(raw: u64, version: u64): (token: u64) {
    Pow2Of64();
    Xor(raw, WrappingMul(version, SPREAD), 64)
  }

  /** The version is recovered from the token and the raw identity. */
  function UnmixVersion(raw: u64, token: u64): u64 {
    Pow2Of64();
    WrappingMul(Xor(raw, token, 64), SPREAD_INVERSE)
  }

  lemma ModOfMultiple(v: u64, k: int)
    ensures (v + k * TWO_64) % TWO_64 == v
  {
  }

  lemma SpreadIsInvertible(v: u64)
    ensures WrappingMul(WrappingMul(v, SPREAD), SPREAD_INVERSE) == v
  {
    var q := SPREAD * SPREAD_INVERSE / TWO_64;
    assert SPREAD * SPREAD_INVERSE == 1 + q * TWO_64;
    var high := v * SPREAD / TWO_64;
    var low := WrappingMul(v, SPREAD);
    assert low == v * SPREAD - high * TWO_64;
    var k := v * q - high * SPREAD_INVERSE;
    assert low * SPREAD_INVERSE == v + k * TWO_64 by {
      assert low * SPREAD_INVERSE == v * SPREAD * SPREAD_INVERSE - high * TWO_64 * SPREAD_INVERSE;
      assert v * (SPREAD * SPREAD_INVERSE) == v + v * q * TWO_64;
    }
    ModOfMultiple(v, k);
  }

  /** Mixing loses nothing: for a fixed identity the version can be read back. */
  lemma MixRoundTrip(raw: u64, version: u64)
    ensures UnmixVersion(raw, MixVersion(raw, version)) == version
  {
    Pow2Of64();
    XorCancels(raw, WrappingMul(version, SPREAD), 64);
    SpreadIsInvertible(version);
  }

  /**
   * For one identity two versions give the same token only if they are equal,
   * so a token minted at an odd version never matches an even one.
   */
  lemma MixInjective(raw: u64, version: u64, version': u64)
    ensures MixVersion(raw, version) == MixVersion(raw, version') <==> version == version'
  {
    MixRoundTrip(raw, version);
    MixRoundTrip(raw, version');
  }
}
