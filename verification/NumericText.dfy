/** Recognizing byte strings that are the canonical decimal form of a `u64`. */
module NumericText {
  import opened Bytes
  import opened Wrappers

  const ZERO: Byte := 48

  predicate IsDigit(b: Byte) { ZERO <= b <= ZERO + 9 }

  ghost predicate AllDigits(s: seq<Byte>) { forall i | 0 <= i < |s| :: IsDigit(s[i]) }

  /** The canonical decimal rendering of a number. */
  function Decimal(v: nat): (s: seq<Byte>)
    ensures s != []
  {
    if v < 10 then [ZERO + v] else Decimal(v / 10) + [ZERO + v % 10]
  }

  /** The number a string of digits denotes. */
  ghost function Digits(s: seq<Byte>): nat
    requires AllDigits(s)
  {
    if s == [] then 0 else Digits(s[..|s| - 1]) * 10 + (s[|s| - 1] - ZERO)
  }

  lemma {:induction false} DecimalDigits(v: nat)
    ensures AllDigits(Decimal(v)) && Digits(Decimal(v)) == v
    ensures |Decimal(v)| > 1 ==> Decimal(v)[0] != ZERO
  {
    if v >= 10 {
      DecimalDigits(v / 10);
      assert Decimal(v)[..|Decimal(v)| - 1] == Decimal(v / 10);
      if v / 10 < 10 { assert Decimal(v / 10) == [ZERO + v / 10]; }
    } else {
      assert Decimal(v)[..0] == [];
    }
  }

  lemma {:induction false} DigitsDecimal(s: seq<Byte>)
    requires s != [] && AllDigits(s) && (|s| > 1 ==> s[0] != ZERO)
    ensures Decimal(Digits(s)) == s
    ensures |s| > 1 || s[0] != ZERO ==> Digits(s) >= 1
  {
    var init := s[..|s| - 1];
    if |s| > 1 {
      DigitsDecimal(init);
      assert Digits(s) / 10 == Digits(init) && Digits(s) % 10 == s[|s| - 1] - ZERO;
      assert s == init + [s[|s| - 1]];
    } else {
      assert init == [];
    }
  }

  lemma {:induction false} DigitsGrow(s: seq<Byte>, i: nat)
    requires AllDigits(s) && i <= |s|
    ensures Digits(s[..i]) <= Digits(s)
    decreases |s|
  {
    if i < |s| {
      DigitsGrow(s[..|s| - 1], i);
      assert s[..|s| - 1][..i] == s[..i];
    } else {
      assert s[..i] == s;
    }
  }

  /** No number renders as a string that is not digits or that starts with a spare zero. */
  lemma NotCanonical(s: seq<Byte>, v: nat)
    requires !AllDigits(s) || s == [] || (|s| > 1 && s[0] == ZERO)
    ensures Decimal(v) != s
  {
    DecimalDigits(v);
  }

  /**
   * The exact inverse of decimal printing over `u64`: a result is the number
   * whose rendering is `bytes`, no result means no `u64` renders as `bytes`.
   */
  method ParseSimpleNumeric(bytes: seq<Byte>) returns (r: Option<u64>)
    ensures match r
      case Some(v) => bytes == Decimal(v)
      case None => forall v: u64 :: bytes != Decimal(v)
  {
    if bytes == [] {
      forall v: u64 { NotCanonical(bytes, v); }
      return None;
    }
    if |bytes| > 1 && bytes[0] == ZERO {
      forall v: u64 { NotCanonical(bytes, v); }
      return None;
    }
    var value: u64 := 0;
    for i := 0 to |bytes|
      invariant AllDigits(bytes[..i]) && value == Digits(bytes[..i])
    {
      var b := bytes[i];
      if !IsDigit(b) {
        forall v: u64 { NotCanonical(bytes, v); }
        return None;
      }
      assert bytes[..i + 1][..i] == bytes[..i];
      var next := value * 10 + (b - ZERO);
      if value * 10 >= TWO_64 || next >= TWO_64 {
        forall v: u64 ensures bytes != Decimal(v) {
          DecimalDigits(v);
          if bytes == Decimal(v) { DigitsGrow(bytes, i + 1); }
        }
        return None;
      }
      value := next;
    }
    assert bytes[..|bytes|] == bytes;
    DigitsDecimal(bytes);
    return Some(value);
  }
}
