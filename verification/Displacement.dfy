/** What a displacement search finds and what unwinding its path does. */
module Displacement {
  import opened Bytes
  import opened Wrappers
  import opened CuckooTable

  /** One step of a displacement: `q` is another candidate of `p`'s live occupant. */
  ghost predicate Hop(c: Config, t: Table, now: u32, p: nat, q: nat)
    requires Fit(c, t)
  {
    p < |t| && q < |t| && p != q && Live(t[p], now) && q in c.Positions(t[p].value.key)
  }

  /** A chain of hops over live occupants that ends in a slot free for use. */
  ghost predicate Chain(c: Config, t: Table, now: u32, path: seq<nat>)
    requires Fit(c, t)
  {
    && InTable(t, path)
    && (forall i | 0 <= i < |path| - 1 :: Hop(c, t, now, path[i], path[i + 1]))
    && !Live(t[path[|path| - 1]], now)
  }

  /** The slot before the end of the path occurs nowhere earlier on it. */
  ghost predicate LastHopFresh(path: seq<nat>) {
    forall i | 0 <= i < |path| - 2 :: path[i] != path[|path| - 2]
  }

  ghost predicate HasFreeAlt(c: Config, t: Table, now: u32, p: nat)
    requires Fit(c, t) && p < |t| && t[p].Some?
  {
    First(c.Positions(t[p].value.key), FreeAlt(t, now, p)).Some?
  }

  ghost predicate NoEarlyStop(c: Config, t: Table, now: u32, path: seq<nat>)
    requires Fit(c, t) && Chain(c, t, now, path)
  {
    forall i | 0 <= i < |path| - 2 :: Hop(c, t, now, path[i], path[i + 1]) && !HasFreeAlt(c, t, now, path[i])
  }

  lemma {:induction false} SearchFinds(c: Config, t: Table, now: u32, p: nat, depth: nat)
    requires Fit(c, t) && p < |t|
    ensures var r := Search(c, t, now, p, depth);
      r.Some? ==>
        && Chain(c, t, now, r.value) && NoEarlyStop(c, t, now, r.value) && r.value[0] == p
        && (|r.value| == 1 || (depth < c.maxDisplace && |r.value| - 1 <= c.maxDisplace - depth))
    decreases if depth < c.maxDisplace then c.maxDisplace - depth else 0, D + 1
  {
    if Live(t[p], now) && depth < c.maxDisplace {
      var alts := c.Positions(t[p].value.key);
      match First(alts, FreeAlt(t, now, p))
      case Some(free) => assert Hop(c, t, now, p, free);
      case None => SearchAltsFinds(c, t, now, p, depth, alts);
    }
  }

  lemma {:induction false} SearchAltsFinds(c: Config, t: Table, now: u32, p: nat, depth: nat, alts: seq<nat>)
    requires Fit(c, t) && p < |t| && depth < c.maxDisplace && |alts| <= D
    requires Live(t[p], now) && !HasFreeAlt(c, t, now, p)
    requires AllBelow(alts, c.nitem) && forall i | 0 <= i < |alts| :: alts[i] in c.Positions(t[p].value.key)
    ensures var r := SearchAlts(c, t, now, p, depth, alts);
      r.Some? ==>
        && Chain(c, t, now, r.value) && NoEarlyStop(c, t, now, r.value) && r.value[0] == p
        && 2 <= |r.value| <= c.maxDisplace - depth + 1
    decreases c.maxDisplace - depth, |alts|
  {
    if alts != [] {
      SearchAltsFinds(c, t, now, p, depth, alts[1..]);
      if alts[0] != p {
        SearchFinds(c, t, now, alts[0], depth + 1);
        var r := Search(c, t, now, alts[0], depth + 1);
        if r.Some? {
          assert Hop(c, t, now, p, alts[0]);
          var path := [p] + r.value;
          assert forall i | 1 <= i < |path| :: path[i] == r.value[i - 1];
          assert Live(t[alts[0]], now) by {
            assert !FreeAlt(t, now, p)(alts[0]);
          }
        }
      }
    }
  }

  /** The search is complete: it fails only when no chain fits the depth left. */
  lemma {:induction false} ChainIsFound(c: Config, t: Table, now: u32, path: seq<nat>, depth: nat)
    requires Fit(c, t) && Chain(c, t, now, path)
    requires |path| == 1 || |path| - 1 <= c.maxDisplace - depth
    ensures Search(c, t, now, path[0], depth).Some?
    decreases |path|
  {
    if |path| > 1 {
      var p, q := path[0], path[1];
      assert Hop(c, t, now, p, q);
      var rest := path[1..];
      assert forall i | 0 <= i < |rest| - 1 :: Hop(c, t, now, rest[i], rest[i + 1]) by {
        forall i | 0 <= i < |rest| - 1 ensures Hop(c, t, now, rest[i], rest[i + 1]) {
          assert Hop(c, t, now, path[i + 1], path[i + 2]);
        }
      }
      ChainIsFound(c, t, now, rest, depth + 1);
      SearchAltsTries(c, t, now, p, depth, c.Positions(t[p].value.key), q);
    }
  }

  lemma {:induction false} SearchAltsTries(c: Config, t: Table, now: u32, p: nat, depth: nat, alts: seq<nat>, q: nat)
    requires Fit(c, t) && p < |t| && depth < c.maxDisplace && |alts| <= D
    requires AllBelow(alts, c.nitem)
    requires q in alts && q != p && Search(c, t, now, q, depth + 1).Some?
    ensures SearchAlts(c, t, now, p, depth, alts).Some?
    decreases |alts|
  {
    if alts[0] != q {
      SearchAltsTries(c, t, now, p, depth, alts[1..], q);
    }
  }

  /**
   * A displacement of `p` succeeds exactly when some chain of at most
   * `maxDisplace - depth` hops leads from `p` to an empty or expired slot.
   */
  lemma SearchIsComplete(c: Config, t: Table, now: u32, p: nat, depth: nat)
    requires Fit(c, t) && p < |t|
    ensures Search(c, t, now, p, depth).Some? <==>
      exists path :: Chain(c, t, now, path) && path[0] == p
                     && (|path| == 1 || |path| - 1 <= c.maxDisplace - depth)
  {
    SearchFinds(c, t, now, p, depth);
    if path :| Chain(c, t, now, path) && path[0] == p
               && (|path| == 1 || |path| - 1 <= c.maxDisplace - depth) {
      ChainIsFound(c, t, now, path, depth);
    }
  }

  lemma FreshFromNoEarlyStop(c: Config, t: Table, now: u32, path: seq<nat>)
    requires Fit(c, t) && Chain(c, t, now, path) && NoEarlyStop(c, t, now, path)
    ensures LastHopFresh(path)
  {
    var n := |path| - 2;
    if n >= 0 {
      assert Hop(c, t, now, path[n], path[n + 1]);
      assert FreeAlt(t, now, path[n])(path[n + 1]);
      assert HasFreeAlt(c, t, now, path[n]);
      forall i | 0 <= i < n ensures path[i] != path[n] {
        assert Hop(c, t, now, path[i], path[i + 1]) && !HasFreeAlt(c, t, now, path[i]);
      }
    }
  }

  /**
   * For every depth limit: unwinding frees the first slot and only permutes the
   * table, except that the last slot's expired record, if any, is gone.
   */
  lemma {:induction false} UnwindPermutes(t: Table, path: seq<nat>)
    requires InTable(t, path)
    requires forall i | 0 <= i < |path| - 1 :: path[i] != path[i + 1]
    ensures Unwind(t, path)[path[0]] == None
    ensures multiset(Unwind(t, path)) == multiset(t[path[|path| - 1] := None])
    decreases |path|
  {
    if |path| > 1 {
      var rest := path[1..];
      assert forall i | 0 <= i < |rest| :: rest[i] == path[i + 1];
      UnwindPermutes(t, rest);
      MovePermutes(Unwind(t, rest), path[0], path[1]);
    }
  }

  lemma MovePermutes(t: Table, a: nat, b: nat)
    requires a < |t| && b < |t| && a != b && t[b] == None
    ensures multiset(Move(t, a, b)) == multiset(t)
  {
    var t1 := t[b := t[a]];
    assert multiset(t1)
      == multiset(t)[None := multiset(t)[None] - 1][t[a] := multiset(t)[None := multiset(t)[None] - 1][t[a]] + 1];
    assert t1[a] == t[a];
  }

  lemma UnwindHead(t: Table, p: nat, q: nat, rest: seq<nat>)
    requires InTable(t, [q] + rest) && p < |t|
    ensures InTable(t, [p] + ([q] + rest))
    ensures Unwind(t, [p] + ([q] + rest)) == Move(Unwind(t, [q] + rest), p, q)
  {
    var path := [p] + ([q] + rest);
    assert path[1..] == [q] + rest;
  }

  /** Unwinding clears the first slot and leaves every slot off the path alone. */
  lemma {:induction false} UnwindFrame(t: Table, path: seq<nat>)
    requires InTable(t, path)
    ensures Unwind(t, path)[path[0]] == None
    ensures forall j | 0 <= j < |t| && j !in path :: Unwind(t, path)[j] == t[j]
    decreases |path|
  {
    if |path| > 1 {
      UnwindFrame(t, path[1..]);
    }
  }
}
