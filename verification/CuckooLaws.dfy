/**
 * What the cuckoo operations promise, in plain terms: how long an item lasts,
 * what the arithmetic computes, which slot an insert takes, and that lookups and
 * deletes touch nothing else.
 */
module CuckooLaws {
  import opened Bytes
  import opened Wrappers
  import opened TinyItem
  import opened CuckooTable
  import opened Displacement
  import opened Placement
  import opened CuckooOps
  import opened CuckooEffects

  /** `p` is the first candidate with the property. */
  ghost predicate FirstWith(ps: seq<nat>, good: nat -> bool, p: nat) {
    exists i | 0 <= i < |ps| :: ps[i] == p && good(p) && forall j | 0 <= j < i :: !good(ps[j])
  }

  // ----- How long an item lasts -----

  /** A time to live counts in whole seconds, up to the largest the cache allows. */
  function Seconds(c: Config, ttl: Duration): nat { if ttl.secs <= c.maxTtl then ttl.secs else c.maxTtl }

  /** An item stored at `now` is there at `at`: it never expires, or its last second has not passed. */
  predicate Lasts(c: Config, now: u32, ttl: Duration, at: u32) {
    || (ttl.secs == 0 && ttl.nanos == 0)
    || (now + Seconds(c, ttl) != 0 && (now + Seconds(c, ttl) >= 0xffff_ffff || at <= now + Seconds(c, ttl)))
  }

  /** The slot written holds the only copy of the key in a candidate slot. */
  ghost predicate OnlyCopy(c: Config, t: Table, key: Key, pos: nat)
    requires Fit(c, t)
  {
    forall p | p in c.Positions(key) && p != pos :: t[p].Some? ==> t[p].value.key != key
  }

  /**
   * With no operation in between and no other copy of the key about, an item is
   * returned, removed and counted on at any later time if and only if it lasts.
   */
  lemma StoredItemLasts(c: Config, t: Table, now: u32, key: Key, value: Value, ttl: Duration, draw: u64, at: u32)
    requires Fit(c, t) && HDR_SIZE + |key| + value.Size() <= c.itemSize && now <= at
    requires OnlyCopy(c, Insert(c, t, now, key, value, ttl, draw), key, FindSlot(c, t, now, key, draw).pos)
    ensures var t' := Insert(c, t, now, key, value, ttl, draw);
      var got := Get(c, t', at, key).1;
      && (got.Some? <==> Lasts(c, now, ttl, at))
      && (got.Some? ==> got.value.key == key && got.value.value == value)
      && (Delete(c, t', at, key).1 <==> Lasts(c, now, ttl, at))
      && forall op, rhs :: Update(c, t', at, key, op, rhs).1 == NotFound <==> !Lasts(c, now, ttl, at)
  {
    hide FindSlot;
    var s := FindSlot(c, t, now, key, draw);
    var t' := Insert(c, t, now, key, value, ttl, draw);
    var ps := c.Positions(key);
    assert forall p | p in ps && Holds(t', key)(p) :: p == s.pos;
    var r, live := First(ps, Holds(t', key)), First(ps, HoldsLive(t', at, key));
    if t'[s.pos].Some? {
      assert Holds(t', key)(s.pos);
      assert r == Some(s.pos);
      assert HoldsLive(t', at, key)(s.pos) ==> live == Some(s.pos);
    }
    assert live.Some? ==> Holds(t', key)(live.value);
  }

  // ----- Arithmetic -----

  /** `r` is the wrapping sum, or the saturating difference. */
  predicate Computes(op: Arithmetic, n: nat, rhs: nat, r: nat) {
    match op
    case Add => r == if n + rhs < 0x1_0000_0000_0000_0000 then n + rhs else n + rhs - 0x1_0000_0000_0000_0000
    case Sub => r == if rhs <= n then n - rhs else 0
  }

  lemma ApplyComputes(op: Arithmetic, n: u64, rhs: u64)
    ensures Computes(op, n, rhs, Apply(op, n, rhs))
  {
    if op.Add? && n + rhs >= TWO_64 { assert n + rhs == TWO_64 + (n + rhs - TWO_64); }
  }

  /** The slot of the first live copy of the key in candidate order. */
  ghost predicate FirstLiveCopy(c: Config, t: Table, now: u32, key: Key, p: nat)
    requires Fit(c, t)
  {
    var ps := c.Positions(key);
    FirstWith(ps, HoldsLive(t, now, key), p)
  }

  /**
   * An update of a key with a live copy acts on the first of them, and on nothing
   * else: a number becomes its sum or difference and the answer is the item as
   * stored, anything else is refused. Without a live copy nothing is found.
   */
  lemma UpdateActs(c: Config, t: Table, now: u32, key: Key, op: Arithmetic, rhs: u64)
    requires Fit(c, t)
    ensures var (t', r) := Update(c, t, now, key, op, rhs);
      match r
      case NotFound => t' == t && forall p | p in c.Positions(key) :: !HoldsLive(t, now, key)(p)
      case NotNumeric => t' == t && exists p: nat :: FirstLiveCopy(c, t, now, key, p) && t[p].value.value.Bytes?
      case Updated(item) =>
        exists p: nat :: FirstLiveCopy(c, t, now, key, p) && t[p].value.value.U64? && t' == t[p := Some(item)]
          && item.key == key && item.expire == t[p].value.expire && item.value.U64?
          && Computes(op, t[p].value.value.n, rhs, item.value.n)
  {
    var ps := c.Positions(key);
    var r := First(ps, HoldsLive(t, now, key));
    if r.Some? {
      var i := FirstIndex(ps, HoldsLive(t, now, key));
      assert ps[i] == r.value;
      assert FirstLiveCopy(c, t, now, key, r.value);
      if t[r.value].value.value.U64? { ApplyComputes(op, t[r.value].value.value.n, rhs); }
    }
  }

  // ----- Which slot an insert takes -----

  ghost predicate NoneWith(ps: seq<nat>, good: nat -> bool) { forall p | p in ps :: !good(p) }

  /**
   * An insert overwrites the first live copy of its key; else it takes the first
   * empty candidate; else the first expired one. In these cases no other slot
   * changes.
   */
  lemma InsertTakes(c: Config, t: Table, now: u32, key: Key, value: Value, ttl: Duration, draw: u64, p: nat)
    requires Fit(c, t) && !Oversized(c, key, value)
    requires var ps := c.Positions(key);
      || FirstWith(ps, HoldsLive(t, now, key), p)
      || (NoneWith(ps, HoldsLive(t, now, key)) && FirstWith(ps, IsEmpty(t), p))
      || (NoneWith(ps, HoldsLive(t, now, key)) && NoneWith(ps, IsEmpty(t)) && FirstWith(ps, IsExpired(t, now), p))
    ensures p < |t|
    ensures var t' := Insert(c, t, now, key, value, ttl, draw);
      && (forall q | 0 <= q < |t| && q != p :: t'[q] == t[q])
      && (t'[p].Some? ==> t'[p].value.key == key && t'[p].value.value == value)
      && (t'[p].None? <==> !Lasts(c, now, ttl, now))
  {
    var ps := c.Positions(key);
    if FirstWith(ps, HoldsLive(t, now, key), p) { FirstIsTaken(ps, HoldsLive(t, now, key), p); }
    else if FirstWith(ps, IsEmpty(t), p) && NoneWith(ps, HoldsLive(t, now, key)) { FirstIsTaken(ps, IsEmpty(t), p); }
    else { FirstIsTaken(ps, IsExpired(t, now), p); }
  }

  lemma {:induction false} FirstIsTaken(ps: seq<nat>, good: nat -> bool, p: nat)
    requires FirstWith(ps, good, p)
    ensures First(ps, good) == Some(p)
  {
    var i :| 0 <= i < |ps| && ps[i] == p && good(p) && forall j | 0 <= j < i :: !good(ps[j]);
    if i > 0 {
      assert ps[1..][i - 1] == p;
      FirstIsTaken(ps[1..], good, p);
    }
  }

  // ----- Lookups and deletes touch nothing else -----

  /** Every slot stays as it is, but for one candidate that is emptied of a copy of the key. */
  ghost predicate Clears(c: Config, t: Table, t': Table, key: Key, p: nat)
    requires Fit(c, t)
  {
    p in c.Positions(key) && t[p].Some? && t[p].value.key == key && t' == t[p := None]
  }

  /**
   * A lookup loses no live item: it returns a live copy and changes nothing, finds
   * no copy in any candidate, or clears an expired copy.
   */
  lemma GetKeepsItems(c: Config, t: Table, now: u32, key: Key)
    requires Fit(c, t)
    ensures var (t', r) := Get(c, t, now, key);
      && LiveItems(t', now) == LiveItems(t, now)
      && (t' == t || (r.None? && exists p: nat :: Clears(c, t, t', key, p) && !Live(t[p], now)))
      && (t' == t && r.None? ==> forall p | p in c.Positions(key) :: t[p].Some? ==> t[p].value.key != key)
      && (r.Some? ==> r.value.key == key && Live(r, now) && exists p :: p in c.Positions(key) && t[p] == r)
  {
    var r := First(c.Positions(key), Holds(t, key));
    if r.Some? {
      LiveItemsUpdate(t, now, r.value, None);
      if Expired(t[r.value].value, now) { assert Clears(c, t, t[r.value := None], key, r.value); }
    } else {
      NoCopyHeld(c, t, key);
    }
  }

  lemma NoCopyHeld(c: Config, t: Table, key: Key)
    requires Fit(c, t) && First(c.Positions(key), Holds(t, key)).None?
    ensures forall p | p in c.Positions(key) :: t[p].Some? ==> t[p].value.key != key
  {
    forall p | p in c.Positions(key) ensures t[p].Some? ==> t[p].value.key != key {
      assert !Holds(t, key)(p);
    }
  }

  ghost predicate DeletesAt(c: Config, t: Table, t': Table, now: u32, key: Key, removed: bool, p: nat)
    requires Fit(c, t)
  {
    && Clears(c, t, t', key, p) && (removed <==> Live(t[p], now))
    && LiveItems(t', now) == LiveItems(t, now) - (if removed then multiset{t[p]} else multiset{})
  }

  /** A delete takes away one copy of its key: the live item it acknowledges, or an expired one. */
  lemma DeleteTakesOne(c: Config, t: Table, now: u32, key: Key)
    requires Fit(c, t)
    ensures var (t', removed) := Delete(c, t, now, key);
      if t' == t then !removed && forall p | p in c.Positions(key) :: t[p].Some? ==> t[p].value.key != key
      else exists p :: DeletesAt(c, t, t', now, key, removed, p)
  {
    hide LiveItems;
    var r := First(c.Positions(key), Holds(t, key));
    if r.Some? {
      LiveItemsUpdate(t, now, r.value, None);
      assert DeletesAt(c, t, t[r.value := None], now, key, Delete(c, t, now, key).1, r.value);
    } else {
      NoCopyHeld(c, t, key);
    }
  }
}
