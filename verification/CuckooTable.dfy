/**
 * The cuckoo cache as a table of optional records: candidate positions,
 * expiration, and the displacement search with the moves it makes.
 */
module CuckooTable {
  import opened Bytes
  import opened Wrappers
  import opened TinyItem

  /** The number of candidate positions of a key. */
  const D := 4

  datatype Policy = Random | Expire

  /** The settings of a cache. The hash functions are arbitrary. */
  datatype Config = Config(hashers: seq<Key -> u64>, nitem: nat, itemSize: nat,
                           maxDisplace: nat, maxTtl: u32, policy: Policy)
  {
    predicate Valid() { |hashers| == D && nitem > 0 && itemSize > HDR_SIZE }

    function Positions(key: Key): (ps: seq<nat>)
      requires Valid()
      ensures |ps| == D && AllBelow(ps, nitem)
    {
      seq(D, i requires 0 <= i < D => hashers[i](key) % nitem)
    }
  }

  type Table = seq<Option<Record>>

  predicate Expired(r: Record, now: u32) { r.expire != U32_MAX && now > r.expire }

  predicate Live(o: Option<Record>, now: u32) { o.Some? && !Expired(o.value, now) }

  /** Every record sits in one of its key's candidate positions. */
  predicate Placed(c: Config, t: Table)
    requires c.Valid()
  {
    forall i | 0 <= i < |t| && t[i].Some? :: i in c.Positions(t[i].value.key)
  }

  /** The first of `ps` that satisfies `good`. */
  function First(ps: seq<nat>, good: nat -> bool): (r: Option<nat>)
    ensures r.Some? ==> r.value in ps && good(r.value)
    ensures r.None? <==> forall p | p in ps :: !good(p)
  {
    if ps == [] then None
    else if good(ps[0]) then Some(ps[0])
    else First(ps[1..], good)
  }

  function FreeAlt(t: Table, now: u32, p: nat): nat -> bool {
    (a: nat) => a != p && a < |t| && !Live(t[a], now)
  }

  predicate AllBelow(ps: seq<nat>, n: nat) { forall i | 0 <= i < |ps| :: ps[i] < n }

  ghost predicate Fit(c: Config, t: Table) { c.Valid() && |t| == c.nitem }

  /**
   * The slots a displacement of `p` runs through: each occupant moves to the
   * next slot, the last slot is empty or expired. The search is depth-first,
   * takes the occupant's candidates in order and remembers no visited slot.
   */
  function Search(c: Config, t: Table, now: u32, p: nat, depth: nat): (r: Option<seq<nat>>)
    requires c.Valid() && |t| == c.nitem && p < c.nitem
    decreases if depth < c.maxDisplace then c.maxDisplace - depth else 0, D + 1
  {
    if !Live(t[p], now) then Some([p])
    else if depth >= c.maxDisplace then None
    else
      var alts := c.Positions(t[p].value.key);
      match First(alts, FreeAlt(t, now, p))
      case Some(free) => Some([p, free])
      case None => SearchAlts(c, t, now, p, depth, alts)
  }

  function SearchAlts(c: Config, t: Table, now: u32, p: nat, depth: nat, alts: seq<nat>): (r: Option<seq<nat>>)
    requires c.Valid() && |t| == c.nitem && p < c.nitem && depth < c.maxDisplace && |alts| <= D
    requires AllBelow(alts, c.nitem)
    decreases c.maxDisplace - depth, |alts|
  {
    if alts == [] then None
    else if alts[0] == p then SearchAlts(c, t, now, p, depth, alts[1..])
    else
      match Search(c, t, now, alts[0], depth + 1)
      case Some(path) => Some([p] + path)
      case None => SearchAlts(c, t, now, p, depth, alts[1..])
  }

  /** Move the contents of slot `a` to slot `b` and clear `a`. */
  function Move(t: Table, a: nat, b: nat): (r: Table)
    requires a < |t| && b < |t|
    ensures |r| == |t|
  {
    t[b := t[a]][a := None]
  }

  ghost predicate InTable(t: Table, path: seq<nat>) {
    path != [] && forall i | 0 <= i < |path| :: path[i] < |t|
  }

  /** The moves along a path, made from its end back to its start. */
  ghost function Unwind(t: Table, path: seq<nat>): (r: Table)
    requires InTable(t, path)
    ensures |r| == |t|
  {
    if |path| == 1 then t[path[0] := None]
    else Move(Unwind(t, path[1..]), path[0], path[1])
  }

  /** The path freeing the first of `ps` that a displacement can free. */
  function TryPaths(c: Config, t: Table, now: u32, ps: seq<nat>): (r: Option<seq<nat>>)
    requires c.Valid() && |t| == c.nitem && AllBelow(ps, c.nitem)
  {
    if ps == [] then None
    else
      match Search(c, t, now, ps[0], 0)
      case Some(path) => Some(path)
      case None => TryPaths(c, t, now, ps[1..])
  }
}
