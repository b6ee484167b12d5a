/** Fixed-size slots side by side in one flat byte array. */
module SlotArray {
  import opened Bytes
  import opened Wrappers
  import opened TinyItem
  import opened CuckooTable

  ghost predicate SlotOk(s: seq<Byte>) {
    |s| >= HDR_SIZE && (ExpireOf(s) != 0 ==> InBounds(s))
  }

  lemma SlotInRange(i: nat, n: nat, size: nat)
    requires i < n
    ensures 0 <= i * size <= i * size + size <= n * size
  {
    assert (i + 1) * size <= n * size;
  }

  lemma SlotsApart(i: nat, j: nat, size: nat)
    requires i < j
    ensures i * size + size <= j * size
  {
    assert (i + 1) * size <= j * size;
  }

  ghost predicate Sized(c: Config, d: seq<Byte>) { c.Valid() && |d| == c.nitem * c.itemSize }

  ghost function SlotOf(c: Config, d: seq<Byte>, i: nat): (s: seq<Byte>)
    requires Sized(c, d) && i < c.nitem
    ensures |s| == c.itemSize
  {
    SlotInRange(i, c.nitem, c.itemSize);
    d[i * c.itemSize..i * c.itemSize + c.itemSize]
  }

  /** A range of a slot is the same range of the array, moved by the slot's offset. */
  lemma SlotSlice(c: Config, d: seq<Byte>, i: nat, a: nat, b: nat)
    requires Sized(c, d) && i < c.nitem && a <= b <= c.itemSize
    ensures 0 <= i * c.itemSize + a <= i * c.itemSize + b <= |d|
    ensures SlotOf(c, d, i)[a..b] == d[i * c.itemSize + a..i * c.itemSize + b]
    ensures a < b ==> SlotOf(c, d, i)[a] == d[i * c.itemSize + a]
  {
    SlotInRange(i, c.nitem, c.itemSize);
    RangeOfRange(d, i * c.itemSize, i * c.itemSize + c.itemSize, a, b);
  }

  ghost predicate WellFormed(c: Config, d: seq<Byte>) {
    Sized(c, d) && forall i | 0 <= i < c.nitem :: SlotOk(SlotOf(c, d, i))
  }

  ghost function TableOf(c: Config, d: seq<Byte>): (t: Table)
    requires WellFormed(c, d)
    ensures |t| == c.nitem && forall i | 0 <= i < c.nitem :: t[i] == Decode(SlotOf(c, d, i))
  {
    seq(c.nitem, i requires 0 <= i < c.nitem && WellFormed(c, d) => Decode(SlotOf(c, d, i)))
  }

  /** `d` and `d'` differ at most inside slot `i`. */
  ghost predicate SameOutside(c: Config, d: seq<Byte>, d': seq<Byte>, i: nat) {
    |d| == |d'| && forall k | 0 <= k < |d| && !(i * c.itemSize <= k < i * c.itemSize + c.itemSize) :: d[k] == d'[k]
  }

  /** Writing inside one slot changes that table entry and no other. */
  lemma OneSlotWritten(c: Config, d: seq<Byte>, d': seq<Byte>, i: nat)
    requires WellFormed(c, d) && i < c.nitem && SameOutside(c, d, d', i)
    requires SlotOk(SlotOf(c, d', i))
    ensures WellFormed(c, d') && TableOf(c, d') == TableOf(c, d)[i := Decode(SlotOf(c, d', i))]
  {
    forall j | 0 <= j < c.nitem && j != i ensures SlotOf(c, d', j) == SlotOf(c, d, j) {
      if i < j { SlotsApart(i, j, c.itemSize); } else { SlotsApart(j, i, c.itemSize); }
      SlotInRange(j, c.nitem, c.itemSize);
    }
  }

  lemma ZeroSlotIsEmpty(s: seq<Byte>)
    requires |s| >= HDR_SIZE && forall k | 0 <= k < |s| :: s[k] == 0
    ensures SlotOk(s) && Decode(s) == None
  {
    var e := s[..4];
    assert e[1..][1..] == e[2..] && e[2..][1..] == e[3..] && e[3..][1..] == [];
    assert FromLe(e[3..]) == 0 && FromLe(e[2..]) == 0 && FromLe(e[1..]) == 0;
  }

  lemma ZeroedIsEmpty(c: Config, d: seq<Byte>)
    requires Sized(c, d) && forall k | 0 <= k < |d| :: d[k] == 0
    ensures WellFormed(c, d) && TableOf(c, d) == seq(c.nitem, i => None)
  {
    forall i | 0 <= i < c.nitem ensures SlotOk(SlotOf(c, d, i)) && Decode(SlotOf(c, d, i)) == None {
      SlotInRange(i, c.nitem, c.itemSize);
      ZeroSlotIsEmpty(SlotOf(c, d, i));
    }
  }
}
