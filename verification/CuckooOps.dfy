/** The public operations of the cuckoo cache as functions on its table. */
module CuckooOps {
  import opened Bytes
  import opened Wrappers
  import opened TinyItem
  import opened CuckooTable
  import opened Displacement

  datatype Duration = Duration(secs: u64, nanos: nat)

  /** The expiration stored for a time to live; zero durations never expire. */
  function ComputeExpire(maxTtl: u32, ttl: Duration, now: u32): (e: u32) {
    if ttl.secs == 0 && ttl.nanos == 0 then U32_MAX
    else SaturatingAdd32(now, if ttl.secs <= maxTtl then ttl.secs else maxTtl)
  }

  /**
   * A stored item reads as an empty slot exactly when a non-zero time to live
   * rounds to zero seconds in the first second of the cache; otherwise it is
   * live at the moment it is stored.
   */
  lemma ExpireZeroExactly(maxTtl: u32, ttl: Duration, now: u32, key: Key, value: Value)
    ensures var e := ComputeExpire(maxTtl, ttl, now);
      && (e == 0 <==> now == 0 && ttl != Duration(0, 0) && (ttl.secs == 0 || maxTtl == 0))
      && !Expired(Record(key, value, e), now)
  {
  }

  /** Half a second to live in the first second of the cache is such a time. */
  lemma HalfASecondIsDropped(maxTtl: u32)
    ensures ComputeExpire(maxTtl, Duration(0, 500_000_000), 0) == 0
  {
  }

  function HoldsLive(t: Table, now: u32, key: Key): nat -> bool {
    (p: nat) => p < |t| && Live(t[p], now) && t[p].value.key == key
  }

  function Holds(t: Table, key: Key): nat -> bool {
    (p: nat) => p < |t| && t[p].Some? && t[p].value.key == key
  }

  function IsEmpty(t: Table): nat -> bool {
    (p: nat) => p < |t| && t[p].None?
  }

  function IsExpired(t: Table, now: u32): nat -> bool {
    (p: nat) => p < |t| && t[p].Some? && Expired(t[p].value, now)
  }

  function SlotExpire(t: Table, p: nat): u32
    requires p < |t|
  {
    if t[p].Some? then t[p].value.expire else 0
  }

  /** The leftmost candidate with the least expiration. */
  function LeastExpiry(t: Table, ps: seq<nat>): (v: nat)
    requires ps != [] && AllBelow(ps, |t|)
    ensures v < |ps| && forall i | 0 <= i < |ps| ::
      SlotExpire(t, ps[v]) <= SlotExpire(t, ps[i]) && (i < v ==> SlotExpire(t, ps[v]) < SlotExpire(t, ps[i]))
  {
    if |ps| == 1 then 0
    else
      var v := LeastExpiry(t, ps[1..]);
      assert forall i | 1 <= i < |ps| :: ps[i] == ps[1..][i - 1];
      if SlotExpire(t, ps[0]) <= SlotExpire(t, ps[v + 1]) then 0 else v + 1
  }

  function Victim(c: Config, t: Table, ps: seq<nat>, draw: u64): (v: nat)
    requires |ps| == D && AllBelow(ps, |t|)
    ensures v < D
  {
    match c.policy
    case Random => draw % D
    case Expire => LeastExpiry(t, ps)
  }

  datatype Slot = Slot(table: Table, pos: nat, update: bool)

  /** Where an insert of `key` goes and what the table is just before the write. */
  ghost function FindSlot(c: Config, t: Table, now: u32, key: Key, draw: u64): (s: Slot)
    requires Fit(c, t)
    ensures Fit(c, s.table) && s.pos < |t| && s.pos in c.Positions(key)
  {
    var ps := c.Positions(key);
    match First(ps, HoldsLive(t, now, key))
    case Some(p) => Slot(t, p, true)
    case None =>
      match First(ps, IsEmpty(t))
      case Some(p) => Slot(t, p, false)
      case None =>
        match First(ps, IsExpired(t, now))
        case Some(p) => Slot(t[p := None], p, false)
        case None =>
          match TryPaths(c, t, now, ps)
          case Some(path) =>
            TryPathsFinds(c, t, now, ps);
            Slot(Unwind(t, path), path[0], false)
          case None =>
            var v := ps[Victim(c, t, ps, draw)];
            Slot(t[v := None], v, false)
  }

  lemma {:induction false} TryPathsFinds(c: Config, t: Table, now: u32, ps: seq<nat>)
    requires Fit(c, t) && AllBelow(ps, |t|)
    ensures var r := TryPaths(c, t, now, ps);
      && (r.Some? ==> InTable(t, r.value) && r.value[0] in ps
                      && Search(c, t, now, r.value[0], 0) == r)
      && (r.None? ==> forall p | p in ps :: Search(c, t, now, p, 0).None?)
  {
    if ps != [] {
      SearchFinds(c, t, now, ps[0], 0);
      TryPathsFinds(c, t, now, ps[1..]);
    }
  }

  predicate Oversized(c: Config, key: Key, value: Value) {
    HDR_SIZE + |key| + value.Size() > c.itemSize
  }

  function Stored(key: Key, value: Value, expire: u32): Option<Record> {
    if expire == 0 then None else Some(Record(key, value, expire))
  }

  ghost function Insert(c: Config, t: Table, now: u32, key: Key, value: Value, ttl: Duration, draw: u64): (r: Table)
    requires Fit(c, t) && !Oversized(c, key, value)
    ensures Fit(c, r)
  {
    var s := FindSlot(c, t, now, key, draw);
    s.table[s.pos := Stored(key, value, ComputeExpire(c.maxTtl, ttl, now))]
  }

  function Get(c: Config, t: Table, now: u32, key: Key): (r: (Table, Option<Record>))
    requires c.Valid() && |t| == c.nitem
    ensures |r.0| == |t|
  {
    match First(c.Positions(key), Holds(t, key))
    case None => (t, None)
    case Some(p) => if Expired(t[p].value, now) then (t[p := None], None) else (t, t[p])
  }

  function Delete(c: Config, t: Table, now: u32, key: Key): (r: (Table, bool))
    requires c.Valid() && |t| == c.nitem
    ensures |r.0| == |t|
  {
    match First(c.Positions(key), Holds(t, key))
    case None => (t, false)
    case Some(p) => (t[p := None], !Expired(t[p].value, now))
  }

  datatype Arithmetic = Add | Sub

  function Apply(op: Arithmetic, v: u64, rhs: u64): u64 {
    match op case Add => WrappingAdd(v, rhs) case Sub => SaturatingSub(v, rhs)
  }

  datatype NumericResult = Updated(item: Record) | NotNumeric | NotFound

  function Update(c: Config, t: Table, now: u32, key: Key, op: Arithmetic, rhs: u64): (r: (Table, NumericResult))
    requires c.Valid() && |t| == c.nitem
    ensures |r.0| == |t|
  {
    match First(c.Positions(key), HoldsLive(t, now, key))
    case None => (t, NotFound)
    case Some(p) =>
      var item := t[p].value;
      if item.value.U64? then
        var item' := item.(value := U64(Apply(op, item.value.n, rhs)));
        (t[p := Some(item')], Updated(item'))
      else (t, NotNumeric)
  }
}
