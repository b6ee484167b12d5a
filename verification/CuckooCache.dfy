/** The cuckoo cache over one flat byte array, proved against the table operations. */
module CuckooCache {
  import opened Bytes
  import opened Wrappers
  import opened TinyItem
  import opened CuckooTable
  import opened Displacement
  import opened DisplacementCost
  import opened CuckooOps
  import opened SlotArray

  datatype Error = ItemOversized(size: nat, max: nat)
  datatype Result = Ok | Err(error: Error)

  lemma FirstIs(ps: seq<nat>, good: nat -> bool, i: nat)
    requires i < |ps| && good(ps[i]) && forall j | 0 <= j < i :: !good(ps[j])
    ensures First(ps, good) == Some(ps[i])
  {
    if i > 0 {
      FirstIs(ps[1..], good, i - 1);
    }
  }

  lemma OneMove(t: Table, p: nat, alt: nat)
    requires p < |t| && alt < |t|
    ensures InTable(t, [p, alt]) && Unwind(t, [p, alt]) == Move(t[alt := None], p, alt)
  {
    assert [p, alt][1..] == [alt];
  }

  class CuckooCache {
    const c: Config
    const data: array<Byte>

    ghost predicate Valid()
      reads data
    {
      WellFormed(c, data[..])
    }

    ghost function Table(): (t: Table)
      requires Valid()
      reads data
      ensures Fit(c, t)
    {
      TableOf(c, data[..])
    }

    /** A cache of empty slots. */
    constructor (c: Config)
      requires c.Valid()
      ensures this.c == c && fresh(data) && Valid()
      ensures Table() == seq(c.nitem, i => None)
    {
      this.c := c;
      data := new Byte[c.nitem * c.itemSize](i => 0);
      new;
      ZeroedIsEmpty(c, data[..]);
    }

    // ----- Slots -----

    method SlotExpireAt(i: nat) returns (e: u32)
      requires Valid() && i < c.nitem
      ensures e == SlotExpire(Table(), i)
    {
      SlotInRange(i, c.nitem, c.itemSize);
      var off := i * c.itemSize;
      assert data[off..off + 4] == SlotOf(c, data[..], i)[..4];
      e := ReadLe32(data[off..off + 4]);
    }

    method SlotIsEmpty(i: nat) returns (b: bool)
      requires Valid() && i < c.nitem
      ensures b == Table()[i].None?
    {
      var e := SlotExpireAt(i);
      b := e == 0;
    }

    method SlotIsExpired(i: nat, now: u32) returns (b: bool)
      requires Valid() && i < c.nitem
      ensures b == IsExpired(Table(), now)(i)
    {
      var e := SlotExpireAt(i);
      if e == 0 || e == U32_MAX {
        return false;
      }
      return now > e;
    }

    method SlotKey(i: nat) returns (key: Key)
      requires Valid() && i < c.nitem && Table()[i].Some?
      ensures key == Table()[i].value.key
    {
      hide ExpireOf, ValueOf;
      SlotInRange(i, c.nitem, c.itemSize);
      var off := i * c.itemSize;
      ghost var s := SlotOf(c, data[..], i);
      assert InBounds(s);
      SlotSlice(c, data[..], i, 4, 5);
      SlotSlice(c, data[..], i, HDR_SIZE, HDR_SIZE + s[4]);
      key := data[off + HDR_SIZE..off + HDR_SIZE + data[off + 4]];
    }

    method SlotRecord(i: nat) returns (r: Record)
      requires Valid() && i < c.nitem && Table()[i].Some?
      ensures Some(r) == Table()[i]
    {
      SlotInRange(i, c.nitem, c.itemSize);
      var off := i * c.itemSize;
      var s := data[off..off + c.itemSize];
      assert s == SlotOf(c, data[..], i);
      r := Record(KeyOf(s), ValueOf(s), ExpireOf(s));
    }

    method ClearSlot(i: nat)
      requires Valid() && i < c.nitem
      modifies data
      ensures Valid() && Table() == old(Table())[i := None]
    {
      SlotInRange(i, c.nitem, c.itemSize);
      var off := i * c.itemSize;
      forall k | off <= k < off + c.itemSize { data[k] := 0; }
      ghost var s := SlotOf(c, data[..], i);
      ZeroSlotIsEmpty(s);
      OneSlotWritten(c, old(data[..]), data[..], i);
    }

    method CopySlot(src: nat, dst: nat)
      requires Valid() && src < c.nitem && dst < c.nitem
      modifies data
      ensures Valid() && Table() == old(Table())[dst := old(Table())[src]]
    {
      SlotInRange(src, c.nitem, c.itemSize);
      SlotInRange(dst, c.nitem, c.itemSize);
      var s, d := src * c.itemSize, dst * c.itemSize;
      forall k | 0 <= k < c.itemSize { data[d + k] := data[s + k]; }
      assert SlotOf(c, data[..], dst) == SlotOf(c, old(data[..]), src);
      OneSlotWritten(c, old(data[..]), data[..], dst);
    }

    method MoveSlot(src: nat, dst: nat)
      requires Valid() && src < c.nitem && dst < c.nitem
      modifies data
      ensures Valid() && Table() == Move(old(Table()), src, dst)
    {
      CopySlot(src, dst);
      ClearSlot(src);
    }

    /** Overwrite the start of a slot with `bytes`. */
    method WriteBytes(i: nat, at: nat, bytes: seq<Byte>)
      requires Sized(c, data[..]) && i < c.nitem && at + |bytes| <= c.itemSize
      modifies data
      ensures Sized(c, data[..]) && SameOutside(c, old(data[..]), data[..], i)
      ensures var s := SlotOf(c, old(data[..]), i);
        SlotOf(c, data[..], i) == s[..at] + bytes + s[at + |bytes|..]
    {
      SlotInRange(i, c.nitem, c.itemSize);
      var off := i * c.itemSize + at;
      forall k | 0 <= k < |bytes| { data[off + k] := bytes[k]; }
    }

    method WriteSlot(i: nat, key: Key, value: Value, expire: u32)
      requires Valid() && i < c.nitem && !Oversized(c, key, value) && Storable(key, value)
      modifies data
      ensures Valid() && Table() == old(Table())[i := Stored(key, value, expire)]
    {
      ClearSlot(i);
      ghost var before := data[..];
      DefineAt(i, key, value, expire);
      DefinedDecodes(SlotOf(c, before, i), key, value, expire);
      OneSlotWritten(c, before, data[..], i);
    }

    method DefineAt(i: nat, key: Key, value: Value, expire: u32)
      requires Sized(c, data[..]) && i < c.nitem && !Oversized(c, key, value)
      modifies data
      ensures Sized(c, data[..]) && SameOutside(c, old(data[..]), data[..], i)
      ensures SlotOf(c, data[..], i) == Defined(SlotOf(c, old(data[..]), i), key, value, expire)
    {
      hide Header, Payload, SlotOf;
      ghost var s := SlotOf(c, data[..], i);
      WriteBytes(i, 0, Header(key, value, expire));
      WriteBytes(i, HDR_SIZE, key);
      WriteBytes(i, HDR_SIZE + |key|, Payload(value));
      ThreeWrites(s, Header(key, value, expire), key, Payload(value));
    }

    lemma ThreeWrites(s: seq<Byte>, h: seq<Byte>, k: seq<Byte>, p: seq<Byte>)
      requires |h| + |k| + |p| <= |s|
      ensures var s1 := s[..0] + h + s[0 + |h|..];
        var s2 := s1[..|h|] + k + s1[|h| + |k|..];
        s2[..|h| + |k|] + p + s2[|h| + |k| + |p|..] == h + k + p + s[|h| + |k| + |p|..]
    {
      var s1 := s[..0] + h + s[0 + |h|..];
      assert s1[..|h|] == h;
      var s2 := s1[..|h|] + k + s1[|h| + |k|..];
      assert s2[..|h| + |k|] == h + k;
    }

    // ----- Hashing -----

    method CandidatePositions(key: Key) returns (ps: seq<nat>)
      requires c.Valid()
      ensures ps == c.Positions(key)
    {
      ps := [];
      for i := 0 to D
        invariant |ps| == i && forall j | 0 <= j < i :: ps[j] == c.Positions(key)[j]
      {
        ps := ps + [c.hashers[i](key) % c.nitem];
      }
    }

    // ----- Displacement -----

    /**
     * Frees slot `pos` along the path the search finds, or changes nothing.
     * `calls` and `moves` count the recursive calls and the slot moves.
     */
    method DisplaceFrom(now: u32, pos: nat, depth: nat) returns (ok: bool, ghost calls: nat, ghost moves: nat)
      requires Valid() && pos < c.nitem
      modifies data
      ensures Valid() && Displaced(old(Table()), Table(), Search(c, old(Table()), now, pos, depth), ok, moves)
      ensures calls == Calls(c, old(Table()), now, pos, depth)
      decreases if depth < c.maxDisplace then c.maxDisplace - depth else 0, 1
    {
      ghost var t := Table();
      calls, moves := 1, 0;
      var empty := SlotIsEmpty(pos);
      if empty {
        assert t[pos := None] == t;
        return true, calls, moves;
      }
      var expired := SlotIsExpired(pos, now);
      if expired {
        ClearSlot(pos);
        return true, calls, moves;
      }
      if depth >= c.maxDisplace {
        return false, calls, moves;
      }
      var key := SlotKey(pos);
      var alts := CandidatePositions(key);
      var moved := MoveToFreeAlternative(now, pos, alts);
      if moved {
        return true, calls, 1;
      }
      ghost var n;
      ok, n, moves := MoveToDisplacedAlternative(now, pos, depth, alts);
      calls := calls + n;
    }

    /** The outcome of a displacement that did or did not find `path`. */
    ghost predicate Displaced(t: Table, t': Table, path: Option<seq<nat>>, ok: bool, moves: nat) {
      && ok == path.Some?
      && (ok ==> InTable(t, path.value) && t' == Unwind(t, path.value) && moves == |path.value| - 1)
      && (!ok ==> t' == t && moves == 0)
    }

    /** The first loop: move the occupant to its first empty or expired alternative. */
    method MoveToFreeAlternative(now: u32, pos: nat, alts: seq<nat>) returns (moved: bool)
      requires Valid() && pos < c.nitem && |alts| == D && AllBelow(alts, c.nitem)
      modifies data
      ensures Valid()
      ensures match First(alts, FreeAlt(old(Table()), now, pos))
        case Some(alt) => moved && Displaced(old(Table()), Table(), Some([pos, alt]), true, 1)
        case None => !moved && Table() == old(Table())
    {
      hide WellFormed, TableOf;
      ghost var t := Table();
      for i := 0 to D
        invariant Valid() && Table() == t
        invariant forall j | 0 <= j < i :: !FreeAlt(t, now, pos)(alts[j])
      {
        var alt := alts[i];
        if alt != pos {
          var empty := SlotIsEmpty(alt);
          var expired := SlotIsExpired(alt, now);
          if empty || expired {
            FirstIs(alts, FreeAlt(t, now, pos), i);
            if expired { ClearSlot(alt); }
            assert Table() == t[alt := None];
            MoveSlot(pos, alt);
            OneMove(t, pos, alt);
            return true;
          }
        }
      }
      return false;
    }

    /** The second loop: move the occupant to the first alternative a displacement frees. */
    method MoveToDisplacedAlternative(now: u32, pos: nat, depth: nat, alts: seq<nat>)
      returns (ok: bool, ghost calls: nat, ghost moves: nat)
      requires Valid() && pos < c.nitem && |alts| == D && AllBelow(alts, c.nitem) && depth < c.maxDisplace
      modifies data
      ensures Valid() && Displaced(old(Table()), Table(), SearchAlts(c, old(Table()), now, pos, depth, alts), ok, moves)
      ensures calls == AltCalls(c, old(Table()), now, pos, depth, alts)
      decreases c.maxDisplace - depth, 0
    {
      ghost var t := Table();
      calls, moves := 0, 0;
      assert alts[0..] == alts;
      for i := 0 to D
        invariant Valid() && Table() == t && moves == 0
        invariant SearchAlts(c, t, now, pos, depth, alts) == SearchAlts(c, t, now, pos, depth, alts[i..])
        invariant calls + AltCalls(c, t, now, pos, depth, alts[i..]) == AltCalls(c, t, now, pos, depth, alts)
      {
        var alt := alts[i];
        assert alts[i..][0] == alt && alts[i..][1..] == alts[i + 1..];
        if alt != pos {
          ghost var n;
          ok, n, moves := DisplaceFrom(now, alt, depth + 1);
          calls := calls + n;
          if ok {
            ghost var rest := Search(c, t, now, alt, depth + 1).value;
            SearchFinds(c, t, now, alt, depth + 1);
            MoveSlot(pos, alt);
            UnwindLonger(t, pos, rest);
            moves := moves + 1;
            return;
          }
        }
      }
      ok := false;
    }

    lemma UnwindLonger(t: Table, p: nat, rest: seq<nat>)
      requires InTable(t, rest) && p < |t|
      ensures InTable(t, [p] + rest) && Unwind(t, [p] + rest) == Move(Unwind(t, rest), p, rest[0])
    {
      assert ([p] + rest)[1..] == rest;
    }

    /** Frees the first of the candidates a displacement can free. */
    method TryDisplace(now: u32, candidates: seq<nat>) returns (freed: Option<nat>)
      requires Valid() && |candidates| == D && AllBelow(candidates, c.nitem)
      modifies data
      ensures Valid() && (freed.Some? ==> freed.value < D)
      ensures var path := TryPaths(c, old(Table()), now, candidates);
        && freed.Some? == path.Some?
        && (path.Some? ==> InTable(old(Table()), path.value) && candidates[freed.value] == path.value[0]
                           && Table() == Unwind(old(Table()), path.value))
        && (path.None? ==> Table() == old(Table()))
    {
      ghost var t := Table();
      assert candidates[0..] == candidates;
      for i := 0 to D
        invariant Valid() && Table() == t
        invariant TryPaths(c, t, now, candidates) == TryPaths(c, t, now, candidates[i..])
      {
        assert candidates[i..][0] == candidates[i] && candidates[i..][1..] == candidates[i + 1..];
        var ok, _, _ := DisplaceFrom(now, candidates[i], 0);
        if ok {
          SearchFinds(c, t, now, candidates[i], 0);
          return Some(i);
        }
      }
      return None;
    }

    method SelectVictim(candidates: seq<nat>, draw: u64) returns (v: nat)
      requires Valid() && |candidates| == D && AllBelow(candidates, c.nitem)
      ensures v == Victim(c, Table(), candidates, draw)
    {
      hide WellFormed, TableOf;
      match c.policy {
        case Random => v := draw % D;
        case Expire =>
          v := 0;
          var best: u32 := U32_MAX;
          for i := 0 to D
            invariant v < D && (v == 0 || v < i) && best <= U32_MAX
            invariant best == U32_MAX ==>
              v == 0 && forall j | 0 <= j < i :: SlotExpire(Table(), candidates[j]) == U32_MAX
            invariant best < U32_MAX ==> v < i && best == SlotExpire(Table(), candidates[v])
            invariant forall j | 0 <= j < i :: best <= SlotExpire(Table(), candidates[j])
            invariant forall j | 0 <= j < v :: best < SlotExpire(Table(), candidates[j])
          {
            var e := SlotExpireAt(candidates[i]);
            if e < best {
              v, best := i, e;
            }
          }
          ghost var w := LeastExpiry(Table(), candidates);
          assert v == w;
      }
    }

    // ----- Insertion -----

    method FindLiveKey(now: u32, key: Key, ps: seq<nat>) returns (r: Option<nat>)
      requires Valid() && |ps| == D && AllBelow(ps, c.nitem)
      ensures r == First(ps, HoldsLive(Table(), now, key))
    {
      for i := 0 to D
        invariant forall j | 0 <= j < i :: !HoldsLive(Table(), now, key)(ps[j])
      {
        var empty := SlotIsEmpty(ps[i]);
        var expired := SlotIsExpired(ps[i], now);
        if !empty && !expired {
          var k := SlotKey(ps[i]);
          if k == key {
            FirstIs(ps, HoldsLive(Table(), now, key), i);
            return Some(ps[i]);
          }
        }
      }
      return None;
    }

    method FindEmpty(ps: seq<nat>) returns (r: Option<nat>)
      requires Valid() && |ps| == D && AllBelow(ps, c.nitem)
      ensures r == First(ps, IsEmpty(Table()))
    {
      for i := 0 to D
        invariant forall j | 0 <= j < i :: !IsEmpty(Table())(ps[j])
      {
        var empty := SlotIsEmpty(ps[i]);
        if empty {
          FirstIs(ps, IsEmpty(Table()), i);
          return Some(ps[i]);
        }
      }
      return None;
    }

    method FindExpired(now: u32, ps: seq<nat>) returns (r: Option<nat>)
      requires Valid() && |ps| == D && AllBelow(ps, c.nitem)
      ensures r == First(ps, IsExpired(Table(), now))
    {
      for i := 0 to D
        invariant forall j | 0 <= j < i :: !IsExpired(Table(), now)(ps[j])
      {
        var expired := SlotIsExpired(ps[i], now);
        if expired {
          FirstIs(ps, IsExpired(Table(), now), i);
          return Some(ps[i]);
        }
      }
      return None;
    }

    /** The five passes: live key, empty slot, expired slot, displacement, eviction. */
    method FindSlotForInsert(now: u32, key: Key, ps: seq<nat>, draw: u64) returns (pos: nat, update: bool)
      requires Valid() && ps == c.Positions(key)
      modifies data
      ensures Valid() && Slot(Table(), pos, update) == FindSlot(c, old(Table()), now, key, draw)
    {
      var live := FindLiveKey(now, key, ps);
      if live.Some? {
        return live.value, true;
      }
      var empty := FindEmpty(ps);
      if empty.Some? {
        return empty.value, false;
      }
      var expired := FindExpired(now, ps);
      if expired.Some? {
        ClearSlot(expired.value);
        return expired.value, false;
      }
      var freed := TryDisplace(now, ps);
      if freed.Some? {
        return ps[freed.value], false;
      }
      var v := SelectVictim(ps, draw);
      ClearSlot(ps[v]);
      return ps[v], false;
    }

    method Insert(now: u32, key: Key, value: Value, ttl: Duration, draw: u64) returns (r: Result)
      requires Valid() && (!Oversized(c, key, value) ==> Storable(key, value))
      modifies data
      ensures Valid() && r.Err? == Oversized(c, key, value)
      ensures match r
        case Err(ItemOversized(size, max)) =>
          size == HDR_SIZE + |key| + value.Size() && max == c.itemSize && Table() == old(Table())
        case Ok => Table() == CuckooOps.Insert(c, old(Table()), now, key, value, ttl, draw)
    {
      var required := HDR_SIZE + |key| + value.Size();
      if required > c.itemSize {
        return Err(ItemOversized(required, c.itemSize));
      }
      var expire := ComputeExpire(c.maxTtl, ttl, now);
      var ps := CandidatePositions(key);
      var pos, update := FindSlotForInsert(now, key, ps, draw);
      WriteSlot(pos, key, value, expire);
      return Ok;
    }

    // ----- Lookup, removal and arithmetic -----

    method Get(now: u32, key: Key) returns (r: Option<Record>)
      requires Valid()
      modifies data
      ensures Valid() && (Table(), r) == CuckooOps.Get(c, old(Table()), now, key)
    {
      hide WellFormed, TableOf;
      ghost var t := Table();
      var ps := CandidatePositions(key);
      for i := 0 to D
        invariant Valid() && Table() == t
        invariant forall j | 0 <= j < i :: !Holds(t, key)(ps[j])
      {
        var empty := SlotIsEmpty(ps[i]);
        if !empty {
          var k := SlotKey(ps[i]);
          if k == key {
            FirstIs(ps, Holds(t, key), i);
            var expired := SlotIsExpired(ps[i], now);
            if expired {
              ClearSlot(ps[i]);
              return None;
            }
            var item := SlotRecord(ps[i]);
            return Some(item);
          }
        }
      }
      return None;
    }

    method Delete(now: u32, key: Key) returns (removed: bool)
      requires Valid()
      modifies data
      ensures Valid() && (Table(), removed) == CuckooOps.Delete(c, old(Table()), now, key)
    {
      hide WellFormed, TableOf;
      ghost var t := Table();
      var ps := CandidatePositions(key);
      for i := 0 to D
        invariant Valid() && Table() == t
        invariant forall j | 0 <= j < i :: !Holds(t, key)(ps[j])
      {
        var empty := SlotIsEmpty(ps[i]);
        if !empty {
          var k := SlotKey(ps[i]);
          if k == key {
            FirstIs(ps, Holds(t, key), i);
            var expired := SlotIsExpired(ps[i], now);
            ClearSlot(ps[i]);
            return !expired;
          }
        }
      }
      return false;
    }

    method Clear()
      requires Valid()
      modifies data
      ensures Valid() && Table() == seq(c.nitem, i => None)
    {
      forall k | 0 <= k < data.Length { data[k] := 0; }
      ZeroedIsEmpty(c, data[..]);
    }

    /** Wrapping addition or saturating subtraction on a stored number, in place. */
    method UpdateNumber(now: u32, key: Key, op: Arithmetic, rhs: u64) returns (r: NumericResult)
      requires Valid()
      modifies data
      ensures Valid() && (Table(), r) == Update(c, old(Table()), now, key, op, rhs)
    {
      hide WellFormed, TableOf;
      ghost var t := Table();
      var ps := CandidatePositions(key);
      for i := 0 to D
        invariant Valid() && Table() == t
        invariant forall j | 0 <= j < i :: !HoldsLive(t, now, key)(ps[j])
      {
        var empty := SlotIsEmpty(ps[i]);
        var expired := SlotIsExpired(ps[i], now);
        if !empty && !expired {
          var item := SlotRecord(ps[i]);
          if item.key == key {
            FirstIs(ps, HoldsLive(t, now, key), i);
            match item.value {
              case Bytes(_) => return NotNumeric;
              case U64(n) =>
                WriteNumber(ps[i], Apply(op, n, rhs));
                return Updated(item.(value := U64(Apply(op, n, rhs))));
            }
          }
        }
      }
      return NotFound;
    }

    method WriteNumber(i: nat, n: u64)
      requires Valid() && i < c.nitem && Table()[i].Some? && Table()[i].value.value.U64?
      modifies data
      ensures Valid() && Table() == old(Table())[i := Some(old(Table())[i].value.(value := U64(n)))]
    {
      SlotInRange(i, c.nitem, c.itemSize);
      ghost var s := SlotOf(c, data[..], i);
      assert s[4] == data[i * c.itemSize + 4];
      WriteBytes(i, HDR_SIZE + data[i * c.itemSize + 4], Be64(n));
      assert SlotOf(c, data[..], i) == WithNumber(s, n);
      WithNumberDecodes(s, n);
      OneSlotWritten(c, old(data[..]), data[..], i);
    }
  }
}
