/** How many calls and moves one displacement makes. */
module DisplacementCost {
  import opened Bytes
  import opened CuckooTable
  import opened Displacement

  /** The calls of the recursive search, the first one included. */
  ghost function Calls(c: Config, t: Table, now: u32, p: nat, depth: nat): (n: nat)
    requires c.Valid() && |t| == c.nitem && p < c.nitem
    decreases if depth < c.maxDisplace then c.maxDisplace - depth else 0, D + 1
  {
    if !Live(t[p], now) || depth >= c.maxDisplace then 1
    else
      var alts := c.Positions(t[p].value.key);
      if First(alts, FreeAlt(t, now, p)).Some? then 1 else 1 + AltCalls(c, t, now, p, depth, alts)
  }

  ghost function AltCalls(c: Config, t: Table, now: u32, p: nat, depth: nat, alts: seq<nat>): (n: nat)
    requires c.Valid() && |t| == c.nitem && p < c.nitem && depth < c.maxDisplace && |alts| <= D
    requires AllBelow(alts, c.nitem)
    decreases c.maxDisplace - depth, |alts|
  {
    if alts == [] then 0
    else if alts[0] == p then AltCalls(c, t, now, p, depth, alts[1..])
    else
      Calls(c, t, now, alts[0], depth + 1)
      + if Search(c, t, now, alts[0], depth + 1).Some? then 0 else AltCalls(c, t, now, p, depth, alts[1..])
  }

  /** 3^0 + 3^1 + ... + 3^n. */
  function Geometric(n: nat): (g: nat)
    ensures g >= 1
  {
    if n == 0 then 1 else 1 + 3 * Geometric(n - 1)
  }

  function Others(alts: seq<nat>, p: nat): (n: nat)
    ensures n <= |alts| && (p in alts ==> n < |alts|)
  {
    if alts == [] then 0 else (if alts[0] == p then 0 else 1) + Others(alts[1..], p)
  }

  /** In a table with every record placed the search makes at most 3^0 + ... + 3^n calls. */
  lemma {:induction false} CallBound(c: Config, t: Table, now: u32, p: nat, depth: nat)
    requires Fit(c, t) && Placed(c, t) && p < |t| && depth <= c.maxDisplace
    ensures Calls(c, t, now, p, depth) <= Geometric(c.maxDisplace - depth)
    decreases c.maxDisplace - depth, D + 1
  {
    if Live(t[p], now) && depth < c.maxDisplace {
      var alts := c.Positions(t[p].value.key);
      assert p in alts;
      AltCallBound(c, t, now, p, depth, alts);
      assert Others(alts, p) * Geometric(c.maxDisplace - depth - 1) <= 3 * Geometric(c.maxDisplace - depth - 1);
    }
  }

  lemma {:induction false} AltCallBound(c: Config, t: Table, now: u32, p: nat, depth: nat, alts: seq<nat>)
    requires Fit(c, t) && Placed(c, t) && p < |t| && depth < c.maxDisplace && |alts| <= D
    requires AllBelow(alts, c.nitem)
    ensures AltCalls(c, t, now, p, depth, alts) <= Others(alts, p) * Geometric(c.maxDisplace - depth - 1)
    decreases c.maxDisplace - depth, |alts|
  {
    if alts != [] {
      AltCallBound(c, t, now, p, depth, alts[1..]);
      if alts[0] != p {
        CallBound(c, t, now, alts[0], depth + 1);
        assert Others(alts, p) == 1 + Others(alts[1..], p);
        assert (1 + Others(alts[1..], p)) * Geometric(c.maxDisplace - depth - 1)
            == Geometric(c.maxDisplace - depth - 1) + Others(alts[1..], p) * Geometric(c.maxDisplace - depth - 1);
      }
    }
  }

  /** A successful displacement makes at most `maxDisplace - depth` moves. */
  lemma MoveBound(c: Config, t: Table, now: u32, p: nat, depth: nat)
    requires Fit(c, t) && p < |t| && depth <= c.maxDisplace
    ensures var r := Search(c, t, now, p, depth);
      r.Some? ==> |r.value| - 1 <= c.maxDisplace - depth
  {
    SearchFinds(c, t, now, p, depth);
  }
}
