/** Displacement keeps records in candidate positions exactly up to depth four. */
module Placement {
  import opened Bytes
  import opened Wrappers
  import opened TinyItem
  import opened CuckooTable
  import opened Displacement

  ghost predicate Distinct(path: seq<nat>) {
    forall i, j | 0 <= i < j < |path| :: path[i] != path[j]
  }

  lemma ChainTail(c: Config, t: Table, now: u32, path: seq<nat>)
    requires Fit(c, t) && Chain(c, t, now, path) && Distinct(path) && |path| > 1
    ensures Hop(c, t, now, path[0], path[1]) && Chain(c, t, now, path[1..]) && Distinct(path[1..])
    ensures path[0] !in path[1..] && path[1] in path[1..] && forall j | j in path[1..] :: j in path
  {
    var rest := path[1..];
    assert forall i | 0 <= i < |rest| :: rest[i] == path[i + 1];
    forall i | 0 <= i < |rest| - 1 ensures Hop(c, t, now, rest[i], rest[i + 1]) {
      assert Hop(c, t, now, path[i + 1], path[i + 2]);
    }
  }

  lemma {:induction false} UnwindDistinct(c: Config, t: Table, now: u32, path: seq<nat>)
    requires Fit(c, t) && Placed(c, t) && Chain(c, t, now, path) && Distinct(path)
    ensures var r := Unwind(t, path);
      Placed(c, r) && forall j | 0 <= j < |t| && j !in path :: r[j] == t[j]
    decreases |path|
  {
    if |path| > 1 {
      ChainTail(c, t, now, path);
      UnwindDistinct(c, t, now, path[1..]);
      var r := Unwind(t, path[1..]);
      assert Unwind(t, path) == Move(r, path[0], path[1]) && r[path[0]] == t[path[0]];
    }
  }

  lemma MovesCancel(r: Table, a: nat, b: nat)
    requires a < |r| && b < |r| && a != b && r[a] == None
    ensures Move(Move(r, b, a), a, b) == r
  {
  }

  /** Coming back to a slot after two hops cancels: both moves are undone. */
  lemma RevisitCancels(t: Table, a: nat, b: nat, rest: seq<nat>)
    requires InTable(t, [a] + rest) && b < |t| && b !in [a] + rest
    ensures InTable(t, [a] + ([b] + ([a] + rest)))
    ensures Unwind(t, [a] + ([b] + ([a] + rest))) == Unwind(t, [a] + rest)
  {
    var short := [a] + rest;
    var r := Unwind(t, short);
    UnwindFrame(t, short);
    assert r[a] == None by { assert short[0] == a; }
    assert a != b by { assert a in short; }
    MovesCancel(r, a, b);
    UnwindHead(t, b, a, rest);
    UnwindHead(t, a, b, short);
  }

  /** A path of at most five slots is free of repeats or only returns to its start. */
  lemma ShortPathShape(path: seq<nat>)
    requires 1 <= |path| <= 5 && LastHopFresh(path)
    requires forall i | 0 <= i < |path| - 1 :: path[i] != path[i + 1] && path[i] != path[|path| - 1]
    ensures Distinct(path) || (|path| == 5 && path[0] == path[2]
      && Distinct([path[0], path[3], path[4]]) && path[1] !in [path[0], path[3], path[4]])
  {
    if |path| == 5 {
      assert path[0] != path[3] && path[1] != path[3] && path[2] != path[3];
      assert path[0] != path[1] && path[1] != path[2];
      assert path[0] != path[4] && path[1] != path[4] && path[2] != path[4] && path[3] != path[4];
    } else if |path| == 4 {
      assert path[0] != path[2] && path[1] != path[2] && path[0] != path[1];
    }
  }

  lemma ChainAdjacent(c: Config, t: Table, now: u32, path: seq<nat>)
    requires Fit(c, t) && Chain(c, t, now, path)
    ensures forall i | 0 <= i < |path| - 1 :: path[i] != path[i + 1] && path[i] != path[|path| - 1]
  {
    forall i | 0 <= i < |path| - 1 ensures path[i] != path[i + 1] && path[i] != path[|path| - 1] {
      assert Hop(c, t, now, path[i], path[i + 1]);
    }
  }

  lemma ShortCut(c: Config, t: Table, now: u32, path: seq<nat>)
    requires Fit(c, t) && Chain(c, t, now, path) && |path| == 5 && path[0] == path[2]
    ensures Chain(c, t, now, [path[0], path[3], path[4]])
  {
    assert Hop(c, t, now, path[2], path[3]) && Hop(c, t, now, path[3], path[4]);
  }

  /** Up to four levels deep a displacement leaves every record placed. */
  lemma DisplacementKeepsPlacement(c: Config, t: Table, now: u32, p: nat)
    requires Fit(c, t) && p < |t| && Placed(c, t) && c.maxDisplace <= 4
    ensures var r := Search(c, t, now, p, 0);
      r.Some? ==> InTable(t, r.value) && Placed(c, Unwind(t, r.value))
  {
    SearchFinds(c, t, now, p, 0);
    var r := Search(c, t, now, p, 0);
    if r.Some? {
      var path := r.value;
      FreshFromNoEarlyStop(c, t, now, path);
      ChainAdjacent(c, t, now, path);
      ShortPathShape(path);
      if Distinct(path) {
        UnwindDistinct(c, t, now, path);
      } else {
        var rest := [path[3], path[4]];
        var short := [path[0]] + rest;
        assert short == [path[0], path[3], path[4]];
        ShortCut(c, t, now, path);
        RevisitCancels(t, path[0], path[1], rest);
        assert path == [path[0]] + ([path[1]] + short);
        UnwindDistinct(c, t, now, short);
      }
    }
  }

  ghost predicate KeysStorable(t: Table) {
    forall i | 0 <= i < |t| && t[i].Some? :: 1 <= |t[i].value.key| <= 255
  }

  /** No displacement at this depth limit can misplace a record, in any table. */
  ghost predicate PlacementSafe(maxDisplace: nat) {
    forall c: Config, t: Table, now: u32, p: nat |
      Fit(c, t) && c.maxDisplace == maxDisplace && p < |t| && Placed(c, t) && KeysStorable(t) ::
      Search(c, t, now, p, 0).Some? ==>
        InTable(t, Search(c, t, now, p, 0).value) && Placed(c, Unwind(t, Search(c, t, now, p, 0).value))
  }

  // ----- A table that goes wrong at every limit from five up -----

  /** The `j`-th candidate of key number `i`: a chain of `n` slots, then a loop. */
  function Target(n: nat, i: nat, j: nat): nat {
    if i == n + 5 then n + 1
    else if i >= n + 4 then 0
    else if j == 0 then i
    else if i == n + 2 then n
    else if i == n && j >= 2 then n + 3
    else i + 1
  }

  /** Slot `i` holds a live record with the candidates of key number `i`. */
  ghost predicate Occupied(c: Config, t: Table, n: nat, i: nat)
    requires Fit(c, t) && i < |t|
  {
    && Live(t[i], 0)
    && c.Positions(t[i].value.key) == [i, Target(n, i, 1), Target(n, i, 2), Target(n, i, 3)]
  }

  /** Every slot but the last is occupied, the last one is empty. */
  ghost predicate LoopTable(c: Config, t: Table, n: nat) {
    && Fit(c, t) && |t| == c.maxDisplace == n + 5 && t[n + 4] == None
    && forall i | 0 <= i < n + 4 :: Occupied(c, t, n, i)
  }

  lemma NoFree(t: Table, now: u32, p: nat, alts: seq<nat>)
    requires forall i | 0 <= i < |alts| :: alts[i] < |t| && Live(t[alts[i]], now)
    ensures First(alts, FreeAlt(t, now, p)) == None
  {
  }

  lemma AltsCons(c: Config, t: Table, now: u32, p: nat, depth: nat, a: nat, rest: seq<nat>)
    requires Fit(c, t) && p < |t| && a < |t| && depth < c.maxDisplace && |rest| < D && AllBelow(rest, |t|)
    ensures SearchAlts(c, t, now, p, depth, [a] + rest) ==
      if a == p then SearchAlts(c, t, now, p, depth, rest)
      else match Search(c, t, now, a, depth + 1)
        case Some(path) => Some([p] + path)
        case None => SearchAlts(c, t, now, p, depth, rest)
  {
    assert ([a] + rest)[1..] == rest;
  }

  lemma AltsNil(c: Config, t: Table, now: u32, p: nat, depth: nat)
    requires Fit(c, t) && p < |t| && depth < c.maxDisplace
    ensures SearchAlts(c, t, now, p, depth, []) == None
  {
  }

  lemma SearchOfLive(c: Config, t: Table, p: nat, depth: nat)
    requires Fit(c, t) && p < |t| && Live(t[p], 0) && depth < c.maxDisplace
    requires First(c.Positions(t[p].value.key), FreeAlt(t, 0, p)) == None
    ensures Search(c, t, 0, p, depth) == SearchAlts(c, t, 0, p, depth, c.Positions(t[p].value.key))
  {
  }

  /** With one live alternative the search of `i` is the search of that one. */
  lemma LoopStep(c: Config, t: Table, n: nat, i: nat, depth: nat)
    requires LoopTable(c, t, n) && i < n + 3 && i != n && depth < n + 5
    ensures Search(c, t, 0, i, depth) ==
      match Search(c, t, 0, Target(n, i, 1), depth + 1)
      case Some(path) => Some([i] + path)
      case None => None
  {
    hide Search, SearchAlts;
    assert Occupied(c, t, n, i);
    var q := Target(n, i, 1);
    assert q < n + 4 && q != i && Occupied(c, t, n, q);
    var alts := c.Positions(t[i].value.key);
    assert alts == [i] + ([q] + ([q] + ([q] + [])));
    NoFree(t, 0, i, alts);
    SearchOfLive(c, t, i, depth);
    AltsNil(c, t, 0, i, depth);
    AltsCons(c, t, 0, i, depth, q, []);
    AltsCons(c, t, 0, i, depth, q, [q] + []);
    AltsCons(c, t, 0, i, depth, q, [q] + ([q] + []));
    AltsCons(c, t, 0, i, depth, i, [q] + ([q] + ([q] + [])));
  }

  /** The search that comes back to slot `n` leaves the loop through `n + 3`. */
  lemma LoopRevisit(c: Config, t: Table, n: nat)
    requires LoopTable(c, t, n)
    ensures Search(c, t, 0, n, n + 3) == Some([n, n + 3, n + 4])
  {
    LoopStep(c, t, n, n + 1, n + 4);
    assert Occupied(c, t, n, n + 2);
    assert Search(c, t, 0, n + 1, n + 4) == None;
    LoopExit(c, t, n);
    LoopHead(c, t, n, n + 3);
    assert [n] + [n + 3, n + 4] == [n, n + 3, n + 4];
  }

  lemma LoopExit(c: Config, t: Table, n: nat)
    requires LoopTable(c, t, n)
    ensures Search(c, t, 0, n + 3, n + 4) == Some([n + 3, n + 4])
  {
    assert Occupied(c, t, n, n + 3);
    var ends := c.Positions(t[n + 3].value.key);
    assert ends[0] == n + 3 && ends[1..] == [n + 4, n + 4, n + 4];
    assert !FreeAlt(t, 0, n + 3)(n + 3) && FreeAlt(t, 0, n + 3)(n + 4);
    assert First(ends[1..], FreeAlt(t, 0, n + 3)) == Some(n + 4);
  }

  /** Slot `n` tries `n + 1` first and `n + 3` after it. */
  lemma LoopHead(c: Config, t: Table, n: nat, depth: nat)
    requires LoopTable(c, t, n) && depth < n + 5
    ensures var first := Search(c, t, 0, n + 1, depth + 1);
      var second := Search(c, t, 0, n + 3, depth + 1);
      && (first.Some? ==> Search(c, t, 0, n, depth) == Some([n] + first.value))
      && (first.None? && second.Some? ==> Search(c, t, 0, n, depth) == Some([n] + second.value))
  {
    hide Search, SearchAlts;
    assert Occupied(c, t, n, n) && Occupied(c, t, n, n + 1) && Occupied(c, t, n, n + 3);
    var alts := c.Positions(t[n].value.key);
    assert alts == [n, n + 1, n + 3, n + 3];
    NoFree(t, 0, n, alts);
    SearchOfLive(c, t, n, depth);
    assert alts == [n] + [n + 1, n + 3, n + 3];
    AltsCons(c, t, 0, n, depth, n, [n + 1, n + 3, n + 3]);
    assert [n + 1, n + 3, n + 3] == [n + 1] + [n + 3, n + 3];
    AltsCons(c, t, 0, n, depth, n + 1, [n + 3, n + 3]);
    assert [n + 3, n + 3] == [n + 3] + [n + 3];
    AltsCons(c, t, 0, n, depth, n + 3, [n + 3]);
  }

  function LoopPath(n: nat): seq<nat> { [n, n + 1, n + 2, n, n + 3, n + 4] }

  lemma LoopSearch(c: Config, t: Table, n: nat)
    requires LoopTable(c, t, n)
    ensures Search(c, t, 0, n, n) == Some(LoopPath(n))
  {
    LoopRevisit(c, t, n);
    LoopStep(c, t, n, n + 2, n + 2);
    LoopStep(c, t, n, n + 1, n + 1);
    LoopHead(c, t, n, n);
    assert [n] + ([n + 1] + ([n + 2] + [n, n + 3, n + 4])) == LoopPath(n);
  }

  lemma UnwindLast(t: Table, q: nat)
    requires q < |t|
    ensures InTable(t, [q] + []) && Unwind(t, [q] + []) == t[q := None]
  {
  }

  /** The end of the loop's path leaves slots `n + 1` and `n + 2` alone. */
  lemma LoopTailUnwinds(t: Table, n: nat) returns (tail: seq<nat>)
    requires |t| == n + 5
    ensures tail == [n + 3] + ([n + 4] + []) && InTable(t, [n] + tail)
    ensures Unwind(t, [n] + tail)[n + 1] == t[n + 1] && Unwind(t, [n] + tail)[n + 2] == t[n + 2]
  {
    hide Unwind;
    UnwindLast(t, n + 4);
    UnwindHead(t, n + 3, n + 4, []);
    tail := [n + 3] + ([n + 4] + []);
    UnwindHead(t, n, n + 3, [n + 4] + []);
  }

  /** Slot `n + 1` ends up with the record of slot `n + 2`. */
  lemma LoopUnwinds(t: Table, n: nat)
    requires |t| == n + 5
    ensures InTable(t, LoopPath(n)) && Unwind(t, LoopPath(n))[n + 1] == t[n + 2]
  {
    hide Unwind;
    var tail := LoopTailUnwinds(t, n);
    UnwindHead(t, n + 2, n, tail);
    UnwindHead(t, n + 1, n + 2, [n] + tail);
    UnwindHead(t, n, n + 1, [n + 2] + ([n] + tail));
    assert LoopPath(n) == [n] + ([n + 1] + ([n + 2] + ([n] + tail)));
  }

  /** The chain in front of the loop only lends it a deeper start. */
  lemma {:induction false} LoopFromStart(c: Config, t: Table, n: nat, i: nat) returns (path: seq<nat>)
    requires LoopTable(c, t, n) && i <= n
    ensures Search(c, t, 0, i, i) == Some(path)
    ensures InTable(t, path) && path[0] == i && Unwind(t, path)[n + 1] == t[n + 2]
    decreases n - i
  {
    if i == n {
      LoopSearch(c, t, n);
      LoopUnwinds(t, n);
      path := LoopPath(n);
    } else {
      var rest := LoopFromStart(c, t, n, i + 1);
      LoopStep(c, t, n, i, i);
      path := [i] + rest;
      assert path[1..] == rest;
    }
  }

  function LoopHasher(n: nat, j: nat): Key -> u64
    requires n + 5 < TWO_64
  {
    (k: Key) => Target(n, FromBe(k), j)
  }

  function LoopHashers(n: nat): (hs: seq<Key -> u64>)
    requires n + 5 < TWO_64
    ensures |hs| == D && forall j | 0 <= j < D :: hs[j] == LoopHasher(n, j)
  {
    seq(D, j requires 0 <= j < D => LoopHasher(n, j))
  }

  function LoopRecord(i: u64): (r: Record)
    ensures FromBe(r.key) == i && |r.key| == 8 && r.expire == U32_MAX
  {
    Record(Be64(i), U64(0), U32_MAX)
  }

  lemma SmallMod(x: nat, m: nat)
    requires x < m
    ensures x % m == x
  {
  }

  lemma LoopCandidate(n: nat, key: Key, j: nat)
    requires n + 5 < TWO_64 && j < D
    ensures LoopHashers(n)[j](key) % (n + 5) == Target(n, FromBe(key), j)
  {
    assert LoopHashers(n)[j] == LoopHasher(n, j);
    SmallMod(Target(n, FromBe(key), j), n + 5);
  }

  lemma LoopOccupied(c: Config, t: Table, n: nat, i: nat)
    requires n + 5 < TWO_64 && Fit(c, t) && c.nitem == n + 5 && i < n + 4
    requires c.hashers == LoopHashers(n) && t[i] == Some(LoopRecord(i))
    ensures Occupied(c, t, n, i)
  {
    var k := LoopRecord(i).key;
    var ps := c.Positions(k);
    LoopCandidate(n, k, 0);
    LoopCandidate(n, k, 1);
    LoopCandidate(n, k, 2);
    LoopCandidate(n, k, 3);
    assert ps == [ps[0], ps[1], ps[2], ps[3]];
  }

  function LoopConfig(n: nat): (c: Config)
    requires n + 5 < TWO_64
    ensures c.Valid() && c.nitem == c.maxDisplace == n + 5
  {
    Config(LoopHashers(n), n + 5, 64, n + 5, 0, Random)
  }

  /** The first `k` slots hold the records of the keys numbered so. */
  function LoopPrefix(n: nat, k: nat): (t: Table)
    requires k <= n + 5 < TWO_64
    ensures |t| == n + 5 && forall i | 0 <= i < n + 5 :: t[i] == if i < k then Some(LoopRecord(i)) else None
  {
    seq(n + 5, i requires 0 <= i < n + 5 => if i < k then Some(LoopRecord(i)) else None)
  }

  lemma LoopPrefixPlaced(n: nat)
    requires n + 5 < TWO_64
    ensures var (c, t) := (LoopConfig(n), LoopPrefix(n, n + 4)); LoopTable(c, t, n) && Placed(c, t) && KeysStorable(t)
  {
    var (c, t) := (LoopConfig(n), LoopPrefix(n, n + 4));
    forall i | 0 <= i < n + 4 ensures Occupied(c, t, n, i) {
      LoopOccupied(c, t, n, i);
    }
    forall i | 0 <= i < |t| && t[i].Some? ensures i in c.Positions(t[i].value.key) {
      assert Occupied(c, t, n, i);
      assert c.Positions(t[i].value.key)[0] == i;
    }
  }

  /** Displacing slot 0 of the placed table leaves slot `n + 1` with a record that has no candidate there. */
  lemma LoopMisplaces(n: nat) returns (path: seq<nat>)
    requires n + 5 < TWO_64
    ensures var (c, t) := (LoopConfig(n), LoopPrefix(n, n + 4));
      && Search(c, t, 0, 0, 0) == Some(path) && InTable(t, path) && path[0] == 0
      && Unwind(t, path)[n + 1] == t[n + 2] && t[n + 2].Some? && n + 1 !in c.Positions(t[n + 2].value.key)
  {
    var (c, t) := (LoopConfig(n), LoopPrefix(n, n + 4));
    LoopPrefixPlaced(n);
    path := LoopFromStart(c, t, n, 0);
    assert Occupied(c, t, n, n + 2);
  }

  lemma MisplacedFromFive(n: nat)
    requires n + 5 < TWO_64
    ensures !PlacementSafe(n + 5)
  {
    var (c, t) := (LoopConfig(n), LoopPrefix(n, n + 4));
    LoopPrefixPlaced(n);
    var path := LoopMisplaces(n);
    assert !Placed(c, Unwind(t, path));
  }

  /**
   * Displacement never misplaces a record, in any table and under any hash
   * functions, if and only if the depth limit is at most four.
   */
  lemma PlacementSafeExactly(maxDisplace: u64)
    ensures PlacementSafe(maxDisplace) <==> maxDisplace <= 4
  {
    if maxDisplace <= 4 {
      forall c: Config, t: Table, now: u32, p: nat |
        Fit(c, t) && c.maxDisplace == maxDisplace && p < |t| && Placed(c, t) && KeysStorable(t)
        ensures Search(c, t, now, p, 0).Some? ==>
          InTable(t, Search(c, t, now, p, 0).value) && Placed(c, Unwind(t, Search(c, t, now, p, 0).value))
      {
        DisplacementKeepsPlacement(c, t, now, p);
      }
    } else {
      MisplacedFromFive(maxDisplace - 5);
    }
  }
}
