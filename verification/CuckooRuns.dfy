/** Whole runs of the cuckoo cache refine a plain map that may forget keys. */
module CuckooRuns {
  import opened Bytes
  import opened Wrappers
  import opened TinyItem
  import opened CuckooTable
  import opened Displacement
  import opened Placement
  import opened CuckooOps
  import opened CuckooEffects
  import opened CuckooLaws

  datatype Op =
    | OpGet(key: Key)
    | OpInsert(key: Key, value: Value, ttl: Duration, draw: u64)
    | OpDelete(key: Key)
    | OpClear
    | OpUpdate(key: Key, arith: Arithmetic, rhs: u64)

  /** An operation and the clock reading it works with. */
  datatype Call = Call(now: u32, op: Op)

  datatype Response =
    | Item(item: Record)
    | Missing
    | Inserted
    | TooLarge
    | Removed
    | NotRemoved
    | Emptied
    | NotANumber

  // ----- The cache -----

  ghost function Step(c: Config, t: Table, call: Call): (r: (Table, Response))
    requires Fit(c, t)
    ensures Fit(c, r.0)
  {
    match call.op
    case OpGet(key) =>
      var r := Get(c, t, call.now, key);
      (r.0, if r.1.Some? then Item(r.1.value) else Missing)
    case OpInsert(key, value, ttl, draw) =>
      if Oversized(c, key, value) then (t, TooLarge)
      else (Insert(c, t, call.now, key, value, ttl, draw), Inserted)
    case OpDelete(key) =>
      var r := Delete(c, t, call.now, key);
      (r.0, if r.1 then Removed else NotRemoved)
    case OpClear => (seq(|t|, i => None), Emptied)
    case OpUpdate(key, arith, rhs) =>
      var r := Update(c, t, call.now, key, arith, rhs);
      (r.0, match r.1 case Updated(item) => Item(item) case NotNumeric => NotANumber case NotFound => Missing)
  }

  // ----- The reference: a map from keys to the record last stored -----

  type Store = map<Key, Record>

  ghost predicate Present(m: Store, now: u32, key: Key) { key in m && !Expired(m[key], now) }

  /** The responses a map that may forget keys can give. */
  ghost predicate Allowed(c: Config, m: Store, call: Call, response: Response) {
    match call.op
    case OpGet(key) =>
      response == Missing || (Present(m, call.now, key) && response == Item(m[key]))
    case OpInsert(key, value, _, _) =>
      response == if Oversized(c, key, value) then TooLarge else Inserted
    case OpDelete(key) =>
      response == NotRemoved || (Present(m, call.now, key) && response == Removed)
    case OpClear => response == Emptied
    case OpUpdate(key, arith, rhs) =>
      || response == Missing
      || (Present(m, call.now, key) && m[key].value.Bytes? && response == NotANumber)
      || (Present(m, call.now, key) && m[key].value.U64? && response.Item? && response.item.value.U64?
          && response.item == m[key].(value := response.item.value)
          && Computes(arith, m[key].value.n, rhs, response.item.value.n))
  }

  /** The map after an acknowledged operation. */
  ghost function Next(c: Config, m: Store, call: Call, response: Response): Store {
    match call.op
    case OpInsert(key, value, ttl, _) =>
      if response == Inserted then m[key := Record(key, value, ComputeExpire(c.maxTtl, ttl, call.now))] else m
    case OpDelete(key) => if response == Removed then m - {key} else m
    case OpClear => map[]
    case OpUpdate(key, _, _) => if response.Item? then m[key := response.item] else m
    case OpGet(_) => m
  }

  // ----- Refinement -----

  ghost predicate Agree(t: Table, m: Store, now: u32) {
    forall i | 0 <= i < |t| && Live(t[i], now) ::
      t[i].value.key in m && m[t[i].value.key] == t[i].value
  }

  ghost predicate Inv(c: Config, t: Table, m: Store, now: u32) {
    Fit(c, t) && Placed(c, t) && OneLive(t, now) && Agree(t, m, now)
  }

  lemma TimePasses(c: Config, t: Table, m: Store, now: u32, later: u32)
    requires Inv(c, t, m, now) && now <= later
    ensures Inv(c, t, m, later)
  {
    assert forall o: Option<Record> | Live(o, later) :: Live(o, now);
  }

  ghost predicate ItemsAgree(items: Items, m: Store) {
    forall o | o in items :: o.Some? && o.value.key in m && m[o.value.key] == o.value
  }

  lemma AgreeIsItemsAgree(t: Table, m: Store, now: u32)
    ensures Agree(t, m, now) <==> ItemsAgree(LiveItems(t, now), m)
  {
    var items := LiveItems(t, now);
    if Agree(t, m, now) {
      forall o | o in items ensures o.Some? && o.value.key in m && m[o.value.key] == o.value {
        LiveItemsCount(t, now, o);
        var i :| 0 <= i < |t| && t[i] == o;
      }
    }
    if ItemsAgree(items, m) {
      forall i | 0 <= i < |t| && Live(t[i], now) ensures t[i].value.key in m && m[t[i].value.key] == t[i].value {
        LiveItemsCount(t, now, t[i]);
        assert t[i] in multiset(t);
      }
    }
  }

  lemma InsertAgrees(c: Config, t: Table, m: Store, call: Call)
    requires Inv(c, t, m, call.now) && c.maxDisplace <= 4 && call.op.OpInsert?
    requires !Oversized(c, call.op.key, call.op.value)
    ensures Inv(c, Step(c, t, call).0, Next(c, m, call, Inserted), call.now)
  {
    hide Insert, LiveItems;
    var now, key, value, ttl, draw := call.now, call.op.key, call.op.value, call.op.ttl, call.op.draw;
    var t' := Insert(c, t, now, key, value, ttl, draw);
    var m' := Next(c, m, call, Inserted);
    InsertKeepsPlacement(c, t, now, key, value, ttl, draw);
    InsertKeepsOneLive(c, t, now, key, value, ttl, draw);
    InsertAccounts(c, t, now, key, value, ttl, draw);
    AgreeIsItemsAgree(t, m, now);
    var items := LiveItems(t', now);
    assert ItemsAgree(items, m') by {
      forall o | o in items ensures o.Some? && o.value.key in m' && m'[o.value.key] == o.value {
        if o.value.key != key {
          assert o in LiveItems(t, now);
        }
      }
    }
    AgreeIsItemsAgree(t', m', now);
  }

  /** A live copy of the key lies in a candidate slot, and only there. */
  lemma OtherCopiesElsewhere(c: Config, t: Table, now: u32, key: Key, p: nat)
    requires Fit(c, t) && OneLive(t, now) && p < |t| && HoldsLive(t, now, key)(p)
    ensures forall i | 0 <= i < |t| && i != p && Live(t[i], now) :: t[i].value.key != key
  {
  }

  /** Step `call` gives a response the map allows and keeps the invariant. */
  ghost predicate Faithful(c: Config, t: Table, m: Store, call: Call)
    requires Fit(c, t)
  {
    var r := Step(c, t, call);
    Allowed(c, m, call, r.1) && Inv(c, r.0, Next(c, m, call, r.1), call.now)
  }

  lemma DeleteRefines(c: Config, t: Table, m: Store, call: Call)
    requires Inv(c, t, m, call.now) && call.op.OpDelete?
    ensures Faithful(c, t, m, call)
  {
    var key := call.op.key;
    var r := First(c.Positions(key), Holds(t, key));
    if r.Some? && !Expired(t[r.value].value, call.now) { OtherCopiesElsewhere(c, t, call.now, key, r.value); }
  }

  lemma UpdateRefines(c: Config, t: Table, m: Store, call: Call)
    requires Inv(c, t, m, call.now) && call.op.OpUpdate?
    ensures Faithful(c, t, m, call)
  {
    var key := call.op.key;
    var r := First(c.Positions(key), HoldsLive(t, call.now, key));
    if r.Some? {
      OtherCopiesElsewhere(c, t, call.now, key, r.value);
      if t[r.value].value.value.U64? { ApplyComputes(call.op.arith, t[r.value].value.value.n, call.op.rhs); }
    }
  }

  lemma InsertRefines(c: Config, t: Table, m: Store, call: Call)
    requires Inv(c, t, m, call.now) && c.maxDisplace <= 4 && call.op.OpInsert?
    ensures Faithful(c, t, m, call)
  {
    hide Insert;
    if !Oversized(c, call.op.key, call.op.value) { InsertAgrees(c, t, m, call); }
  }

  /** Every operation gives a response the map allows and keeps the invariant. */
  lemma StepRefines(c: Config, t: Table, m: Store, call: Call)
    requires Inv(c, t, m, call.now) && c.maxDisplace <= 4
    ensures Faithful(c, t, m, call)
  {
    match call.op
    case OpGet(_) =>
    case OpInsert(_, _, _, _) => InsertRefines(c, t, m, call);
    case OpDelete(_) => DeleteRefines(c, t, m, call);
    case OpClear =>
    case OpUpdate(_, _, _) => UpdateRefines(c, t, m, call);
  }

  ghost predicate ClockForward(now: u32, calls: seq<Call>)
    decreases |calls|
  {
    calls != [] ==> now <= calls[0].now && ClockForward(calls[0].now, calls[1..])
  }

  /** Each response of the run is one the reference map allows at that point. */
  ghost predicate Refines(c: Config, t: Table, m: Store, calls: seq<Call>)
    requires Fit(c, t)
    decreases |calls|
  {
    calls != [] ==>
      var r := Step(c, t, calls[0]);
      Allowed(c, m, calls[0], r.1) && Refines(c, r.0, Next(c, m, calls[0], r.1), calls[1..])
  }

  lemma {:induction false} RunRefines(c: Config, t: Table, m: Store, now: u32, calls: seq<Call>)
    requires Inv(c, t, m, now) && c.maxDisplace <= 4 && ClockForward(now, calls)
    ensures Refines(c, t, m, calls)
    decreases |calls|
  {
    if calls != [] {
      TimePasses(c, t, m, now, calls[0].now);
      StepRefines(c, t, m, calls[0]);
      var r := Step(c, t, calls[0]);
      RunRefines(c, r.0, Next(c, m, calls[0], r.1), calls[0].now, calls[1..]);
    }
  }

  function Empty(nitem: nat): (t: Table)
    ensures |t| == nitem
  {
    seq(nitem, i => None)
  }

  /**
   * Every run of a fresh cache with depth at most four and a clock that does
   * not go back refines the map: a hit returns the last stored, unexpired and
   * undeleted value of the key, and arithmetic acts on that value.
   */
  lemma EveryRunRefines(c: Config, calls: seq<Call>)
    requires c.Valid() && c.maxDisplace <= 4 && ClockForward(0, calls)
    ensures Refines(c, Empty(c.nitem), map[], calls)
  {
    RunRefines(c, Empty(c.nitem), map[], 0, calls);
  }

  // ----- When runs keep records in their candidate slots -----

  ghost function After(c: Config, t: Table, calls: seq<Call>): (t': Table)
    requires Fit(c, t)
    ensures Fit(c, t')
    decreases |calls|
  {
    if calls == [] then t else After(c, Step(c, t, calls[0]).0, calls[1..])
  }

  /** In no run of a fresh cache of this depth limit does a record leave the candidate slots of its key. */
  ghost predicate RunsKeepPlacement(maxDisplace: nat) {
    forall c: Config, calls: seq<Call> | c.Valid() && c.maxDisplace == maxDisplace && ClockForward(0, calls) ::
      Placed(c, After(c, Empty(c.nitem), calls))
  }

  lemma {:induction false} AfterPlaced(c: Config, t: Table, m: Store, now: u32, calls: seq<Call>)
    requires Inv(c, t, m, now) && c.maxDisplace <= 4 && ClockForward(now, calls)
    ensures Placed(c, After(c, t, calls))
    decreases |calls|
  {
    if calls != [] {
      TimePasses(c, t, m, now, calls[0].now);
      StepRefines(c, t, m, calls[0]);
      var r := Step(c, t, calls[0]);
      AfterPlaced(c, r.0, Next(c, m, calls[0], r.1), calls[0].now, calls[1..]);
    }
  }

  /** Storing key number `k`, which never expires. */
  function Store0(k: u64): Call { Call(0, OpInsert(LoopRecord(k).key, U64(0), Duration(0, 0), 0)) }

  /** Storing the keys numbered `k` to `n + 4` in turn. */
  function StoreFrom(n: nat, k: nat): (calls: seq<Call>)
    requires k <= n + 5 < TWO_64
    ensures |calls| == n + 5 - k && ClockForward(0, calls)
    decreases n + 5 - k
  {
    if k == n + 5 then [] else [Store0(k)] + StoreFrom(n, k + 1)
  }

  lemma LoopPositions(n: nat, k: nat)
    requires k <= n + 5 < TWO_64
    ensures LoopConfig(n).Positions(LoopRecord(k).key)
      == [Target(n, k, 0), Target(n, k, 1), Target(n, k, 2), Target(n, k, 3)]
  {
    var ps := LoopConfig(n).Positions(LoopRecord(k).key);
    LoopCandidate(n, LoopRecord(k).key, 0);
    LoopCandidate(n, LoopRecord(k).key, 1);
    LoopCandidate(n, LoopRecord(k).key, 2);
    LoopCandidate(n, LoopRecord(k).key, 3);
    assert ps == [ps[0], ps[1], ps[2], ps[3]];
  }

  /** The keys below `k` are not key number `k`. */
  lemma KeyIsNew(n: nat, k: nat)
    requires k <= n + 4 && n + 5 < TWO_64
    ensures First(LoopConfig(n).Positions(LoopRecord(k).key), HoldsLive(LoopPrefix(n, k), 0, LoopRecord(k).key)) == None
  {
  }

  lemma LoopStartsEmpty(n: nat)
    requires n + 5 < TWO_64
    ensures LoopPrefix(n, 0) == Empty(n + 5)
  {
  }

  /** Key number `k` goes to slot `k`. */
  lemma StoreInOrder(n: nat, k: nat)
    requires k < n + 4 && n + 5 < TWO_64
    ensures Step(LoopConfig(n), LoopPrefix(n, k), Store0(k)).0 == LoopPrefix(n, k + 1)
  {
    hide Search, TryPaths;
    var (t, key) := (LoopPrefix(n, k), LoopRecord(k).key);
    var ps := LoopConfig(n).Positions(key);
    KeyIsNew(n, k);
    LoopPositions(n, k);
    assert IsEmpty(t)(k) && ps[0] == k;
    assert First(ps, IsEmpty(t)) == Some(k);
  }

  /** The displacement of slot 0 permutes the records, and leaves slot 0 as the only empty one. */
  lemma LoopPermuted(n: nat, path: seq<nat>)
    requires n + 5 < TWO_64
    requires var (c, t) := (LoopConfig(n), LoopPrefix(n, n + 4)); Search(c, t, 0, 0, 0) == Some(path)
    requires InTable(LoopPrefix(n, n + 4), path) && path[0] == 0
    ensures var (t, r) := (LoopPrefix(n, n + 4), Unwind(LoopPrefix(n, n + 4), path));
      multiset(r) == multiset(t) && r[0] == None
  {
    var (c, t) := (LoopConfig(n), LoopPrefix(n, n + 4));
    SearchFinds(c, t, 0, 0, 0);
    ChainAdjacent(c, t, 0, path);
    UnwindPermutes(t, path);
    var last := path[|path| - 1];
    assert last == n + 4 by { assert !Live(t[last], 0) && last < |t|; }
    assert t[last := None] == t;
    DisplacedItems(c, t, 0, path);
  }

  /** No record is in the table twice, and one slot is empty. */
  lemma LoopPrefixOnce(n: nat, o: Option<Record>)
    requires n + 5 < TWO_64
    ensures multiset(LoopPrefix(n, n + 4))[o] <= 1
  {
    var t := LoopPrefix(n, n + 4);
    forall i, j | 0 <= i < |t| && 0 <= j < |t| && t[i] == t[j] == o ensures i == j {
      if o.Some? { assert FromBe(o.value.key) == i && FromBe(o.value.key) == j; }
    }
    PresentOnce(t, o);
  }

  lemma PermutedAt(n: nat, r: Table, j: nat, q: nat)
    requires n + 5 < TWO_64 && |r| == n + 5 && multiset(r) == multiset(LoopPrefix(n, n + 4)) && j < |r| && q < |r|
    ensures j != q ==> r[j] != r[q]
    ensures r[j] == None || exists k :: 0 <= k < n + 4 && r[j] == Some(LoopRecord(k))
  {
    LoopPrefixOnce(n, r[j]);
    if j < q && r[j] == r[q] { TwicePresent(r, j, q); }
    if q < j && r[j] == r[q] { TwicePresent(r, q, j); }
    assert r[j] in multiset(r);
    assert r[j] in LoopPrefix(n, n + 4);
  }

  /** The table after all the keys are stored: full, with the record of key `n + 2` in slot `n + 1` only. */
  ghost predicate Scattered(n: nat, t: Table) {
    && n + 5 < TWO_64 && |t| == n + 5 && t[n + 1] == Some(LoopRecord(n + 2))
    && forall j | 0 <= j < |t| :: Live(t[j], 0) && (j != n + 1 ==> t[j].value.key != LoopRecord(n + 2).key)
  }

  lemma ScatteredByUnwind(n: nat, r: Table)
    requires n + 5 < TWO_64 && |r| == n + 5 && multiset(r) == multiset(LoopPrefix(n, n + 4))
    requires r[0] == None && r[n + 1] == Some(LoopRecord(n + 2))
    ensures Scattered(n, r[0 := Some(LoopRecord(n + 4))])
  {
    var t := r[0 := Some(LoopRecord(n + 4))];
    forall j | 0 <= j < |t| ensures Live(t[j], 0) && (j != n + 1 ==> t[j].value.key != LoopRecord(n + 2).key) {
      if j == 0 {
        assert FromBe(LoopRecord(n + 4).key) != FromBe(LoopRecord(n + 2).key);
      } else {
        PermutedAt(n, r, j, 0);
        PermutedAt(n, r, j, n + 1);
        var k :| 0 <= k < n + 4 && r[j] == Some(LoopRecord(k));
        if j != n + 1 { assert k != n + 2 && FromBe(LoopRecord(k).key) != FromBe(LoopRecord(n + 2).key); }
      }
    }
  }

  /** With no candidate free for use, an insert of a new key takes the slot a displacement frees. */
  lemma DisplacingSlot(c: Config, t: Table, now: u32, key: Key, draw: u64, path: seq<nat>)
    requires Fit(c, t) && TryPaths(c, t, now, c.Positions(key)) == Some(path)
    requires forall p | p in c.Positions(key) :: Live(t[p], now) && t[p].value.key != key
    ensures InTable(t, path) && FindSlot(c, t, now, key, draw) == Slot(Unwind(t, path), path[0], false)
  {
    hide TryPaths, Unwind, Search;
    TryPathsFinds(c, t, now, c.Positions(key));
  }

  /** The last key has every candidate at slot 0, which another key holds. */
  lemma LastKeyMeets(n: nat)
    requires n + 5 < TWO_64
    ensures var (c, t, key) := (LoopConfig(n), LoopPrefix(n, n + 4), LoopRecord(n + 4).key);
      && c.Positions(key) == [0, 0, 0, 0] && Live(t[0], 0) && t[0].value.key != key
  {
    KeyIsNew(n, n + 4);
    LoopPositions(n, n + 4);
    assert !HoldsLive(LoopPrefix(n, n + 4), 0, LoopRecord(n + 4).key)(0);
  }

  lemma FirstPath(c: Config, t: Table, now: u32, ps: seq<nat>)
    requires Fit(c, t) && AllBelow(ps, |t|) && ps != [] && Search(c, t, now, ps[0], 0).Some?
    ensures TryPaths(c, t, now, ps) == Search(c, t, now, ps[0], 0)
  {
  }

  lemma StoreStep(c: Config, t: Table, k: nat)
    requires Fit(c, t) && k < TWO_64 && !Oversized(c, LoopRecord(k).key, U64(0))
    ensures var s := FindSlot(c, t, 0, LoopRecord(k).key, 0);
      Step(c, t, Store0(k)).0 == s.table[s.pos := Some(LoopRecord(k))]
  {
    hide FindSlot;
  }

  /** It displaces the occupant of slot 0. */
  lemma LastStoreStep(n: nat, path: seq<nat>)
    requires n + 5 < TWO_64
    requires Search(LoopConfig(n), LoopPrefix(n, n + 4), 0, 0, 0) == Some(path)
    ensures var t := LoopPrefix(n, n + 4);
      && InTable(t, path) && path[0] == 0
      && Step(LoopConfig(n), t, Store0(n + 4)).0 == Unwind(t, path)[0 := Some(LoopRecord(n + 4))]
  {
    var (c, t, key) := (LoopConfig(n), LoopPrefix(n, n + 4), LoopRecord(n + 4).key);
    assert !Oversized(c, key, U64(0));
    hide Search, Unwind, FindSlot, LoopPrefix, LoopConfig, Config.Positions, TryPaths, Step, Insert, Live, Oversized;
    LastKeyMeets(n);
    SearchFinds(c, t, 0, 0, 0);
    FirstPath(c, t, 0, c.Positions(key));
    DisplacingSlot(c, t, 0, key, 0, path);
    StoreStep(c, t, n + 4);
  }

  lemma LastStoreScatters(n: nat)
    requires n + 5 < TWO_64
    ensures Scattered(n, Step(LoopConfig(n), LoopPrefix(n, n + 4), Store0(n + 4)).0)
  {
    hide Search, Unwind, Scattered, Step;
    var path := LoopMisplaces(n);
    LastStoreStep(n, path);
    LoopPermuted(n, path);
    ScatteredByUnwind(n, Unwind(LoopPrefix(n, n + 4), path));
  }

  lemma ScatteredIsMisplaced(n: nat, t: Table)
    requires Scattered(n, t)
    ensures !Placed(LoopConfig(n), t)
  {
    LoopPositions(n, n + 2);
    assert n + 1 !in LoopConfig(n).Positions(t[n + 1].value.key);
  }

  lemma {:induction false} StoresMisplace(n: nat, k: nat)
    requires k <= n + 4 && n + 5 < TWO_64
    ensures !Placed(LoopConfig(n), After(LoopConfig(n), LoopPrefix(n, k), StoreFrom(n, k)))
    decreases n + 4 - k
  {
    hide Step, LoopConfig, LoopPrefix;
    var (c, t, calls) := (LoopConfig(n), LoopPrefix(n, k), StoreFrom(n, k));
    assert calls[0] == Store0(k) && calls[1..] == StoreFrom(n, k + 1);
    if k == n + 4 {
      LastStoreScatters(n);
      ScatteredIsMisplaced(n, Step(c, t, Store0(k)).0);
      assert After(c, Step(c, t, Store0(k)).0, []) == Step(c, t, Store0(k)).0;
    } else {
      StoreInOrder(n, k);
      StoresMisplace(n, k + 1);
    }
  }

  /**
   * In a cache that has only ever been used through its operations every record
   * lies in a candidate slot of its key, whatever the hash functions, if and
   * only if the depth limit is at most four; from five on, storing as many keys
   * as there are slots can misplace one.
   */
  lemma RunsKeepPlacementExactly(maxDisplace: u64)
    ensures RunsKeepPlacement(maxDisplace) <==> maxDisplace <= 4
  {
    hide After, LoopConfig, LoopPrefix;
    if maxDisplace <= 4 {
      forall c: Config, calls: seq<Call> | c.Valid() && c.maxDisplace == maxDisplace && ClockForward(0, calls)
        ensures Placed(c, After(c, Empty(c.nitem), calls))
      {
        AfterPlaced(c, Empty(c.nitem), map[], 0, calls);
      }
    } else {
      var n := maxDisplace - 5;
      StoresMisplace(n, 0);
      LoopStartsEmpty(n);
    }
  }

  // ----- When runs refine the map -----

  /** Every run of a fresh cache of this depth limit refines the map. */
  ghost predicate RunsRefine(maxDisplace: nat) {
    forall c: Config, calls: seq<Call> | c.Valid() && c.maxDisplace == maxDisplace && ClockForward(0, calls) ::
      Refines(c, Empty(c.nitem), map[], calls)
  }

  /** Key `n + 2` is stored again, over the occupant of slot `n`. */
  function StoreAgain(n: nat): Call
    requires n + 5 < TWO_64
  {
    Call(0, OpInsert(LoopRecord(n + 2).key, U64(1), Duration(0, 0), 1))
  }

  /** It is stored again and deleted; another key moves the copy left in slot `n + 1` back, and that is looked up. */
  function Resurrect(n: nat): (calls: seq<Call>)
    requires n + 5 < TWO_64
    ensures |calls| == 4
  {
    var key := LoopRecord(n + 2).key;
    [StoreAgain(n), Call(0, OpDelete(key)), Store0(n + 5), Call(0, OpGet(key))]
  }

  /** In a full table no displacement succeeds. */
  lemma {:induction false} FullTable(c: Config, t: Table, now: u32, ps: seq<nat>)
    requires Fit(c, t) && AllBelow(ps, |t|) && forall j | 0 <= j < |t| :: Live(t[j], now)
    ensures TryPaths(c, t, now, ps) == None
  {
    if ps != [] {
      SearchFinds(c, t, now, ps[0], 0);
      FullTable(c, t, now, ps[1..]);
    }
  }

  lemma SlotOfAgain(n: nat, t: Table)
    requires Scattered(n, t)
    ensures FindSlot(LoopConfig(n), t, 0, LoopRecord(n + 2).key, 1) == Slot(t[n := None], n, false)
  {
    hide Search, TryPaths;
    var (c, key) := (LoopConfig(n), LoopRecord(n + 2).key);
    var ps := c.Positions(key);
    LoopPositions(n, n + 2);
    assert ps == [n + 2, n, n, n];
    assert First(ps, HoldsLive(t, 0, key)) == None;
    assert First(ps, IsEmpty(t)) == None && First(ps, IsExpired(t, 0)) == None;
    FullTable(c, t, 0, ps);
    assert ps[Victim(c, t, ps, 1)] == n;
  }

  lemma StoredAgain(n: nat, t: Table)
    requires Scattered(n, t)
    ensures Step(LoopConfig(n), t, StoreAgain(n)).0 == t[n := Some(Record(LoopRecord(n + 2).key, U64(1), U32_MAX))]
  {
    hide FindSlot;
    SlotOfAgain(n, t);
  }

  /** The delete removes the new copy, the only one in a candidate slot. */
  lemma DeletedAgain(n: nat, t: Table, t1: Table)
    requires Scattered(n, t) && t1 == t[n := Some(Record(LoopRecord(n + 2).key, U64(1), U32_MAX))]
    ensures Step(LoopConfig(n), t1, Call(0, OpDelete(LoopRecord(n + 2).key))) == (t[n := None], Removed)
  {
    var (c, key) := (LoopConfig(n), LoopRecord(n + 2).key);
    var ps := c.Positions(key);
    LoopPositions(n, n + 2);
    assert ps == [n + 2] + [n, n, n] && !Holds(t1, key)(n + 2) && Holds(t1, key)(n);
    assert First([n, n, n], Holds(t1, key)) == Some(n);
    assert First(ps, Holds(t1, key)) == Some(n) by { assert ps[1..] == [n, n, n]; }
    assert t1[n := None] == t[n := None];
  }

  /** Key `n + 5` wants slot `n + 1` only; its occupant moves to the slot just emptied. */
  lemma MovedBack(n: nat, t: Table)
    requires Scattered(n, t)
    ensures var t2 := Step(LoopConfig(n), t[n := None], Store0(n + 5)).0;
      |t2| == n + 5 && t2[n] == Some(LoopRecord(n + 2)) && t2[n + 2] == t[n + 2]
  {
    var (c, t1, key) := (LoopConfig(n), t[n := None], LoopRecord(n + 5).key);
    var (ps, alts) := (c.Positions(key), c.Positions(LoopRecord(n + 2).key));
    LoopPositions(n, n + 5);
    LoopPositions(n, n + 2);
    assert ps == [n + 1, n + 1, n + 1, n + 1] && alts == [n + 2] + [n, n, n];
    assert FromBe(key) != FromBe(t1[n + 1].value.key);
    assert !HoldsLive(t1, 0, key)(n + 1) && !IsEmpty(t1)(n + 1) && !IsExpired(t1, 0)(n + 1);
    assert First(ps, HoldsLive(t1, 0, key)) == None && First(ps, IsEmpty(t1)) == None;
    assert First(ps, IsExpired(t1, 0)) == None;
    assert !FreeAlt(t1, 0, n + 1)(n + 2) && FreeAlt(t1, 0, n + 1)(n);
    assert First([n, n, n], FreeAlt(t1, 0, n + 1)) == Some(n);
    assert First(alts, FreeAlt(t1, 0, n + 1)) == Some(n) by { assert alts[1..] == [n, n, n]; }
    assert Search(c, t1, 0, n + 1, 0) == Some([n + 1, n]);
    assert TryPaths(c, t1, 0, ps) == Some([n + 1, n]);
    assert [n + 1, n][1..] == [n];
    assert Unwind(t1, [n + 1, n]) == Move(t1[n := None], n + 1, n);
  }

  lemma FoundAgain(n: nat, t: Table)
    requires n + 5 < TWO_64 && |t| == n + 5 && t[n] == Some(LoopRecord(n + 2))
    requires t[n + 2].Some? && t[n + 2].value.key != LoopRecord(n + 2).key
    ensures Step(LoopConfig(n), t, Call(0, OpGet(LoopRecord(n + 2).key))).1 == Item(LoopRecord(n + 2))
  {
    var (c, key) := (LoopConfig(n), LoopRecord(n + 2).key);
    var ps := c.Positions(key);
    LoopPositions(n, n + 2);
    assert ps == [n + 2] + [n, n, n] && !Holds(t, key)(n + 2) && Holds(t, key)(n);
    assert First([n, n, n], Holds(t, key)) == Some(n);
    assert First(ps, Holds(t, key)) == Some(n) by { assert ps[1..] == [n, n, n]; }
  }

  /** The lookup returns a value of the key that was overwritten and deleted. */
  lemma Resurrected(n: nat, t: Table, m: Store)
    requires Scattered(n, t)
    ensures !Refines(LoopConfig(n), t, m, Resurrect(n))
  {
    hide Step, LoopConfig, LoopRecord;
    var (c, key, calls) := (LoopConfig(n), LoopRecord(n + 2).key, Resurrect(n));
    StoredAgain(n, t);
    var t1 := Step(c, t, calls[0]).0;
    DeletedAgain(n, t, t1);
    MovedBack(n, t);
    var t3 := Step(c, t[n := None], calls[2]).0;
    FoundAgain(n, t3);
    var m1 := Next(c, m, calls[0], Step(c, t, calls[0]).1);
    var m2 := Next(c, m1, calls[1], Removed);
    var m3 := Next(c, m2, calls[2], Step(c, t[n := None], calls[2]).1);
    OtherKeys(n);
    assert key !in m3;
    assert !Refines(c, t3, m3, calls[3..]);
    assert calls[2..][1..] == calls[3..] && calls[1..][1..] == calls[2..];
    assert !Refines(c, t[n := None], m2, calls[2..]);
    assert !Refines(c, t1, m1, calls[1..]);
  }

  lemma OtherKeys(n: nat)
    requires n + 5 < TWO_64
    ensures LoopRecord(n + 5).key != LoopRecord(n + 2).key
  {
    assert FromBe(LoopRecord(n + 5).key) != FromBe(LoopRecord(n + 2).key);
  }

  /** The keys numbered `k` to `n + 4` are stored, and then key `n + 2` comes back. */
  function StoreAndResurrect(n: nat, k: nat): (calls: seq<Call>)
    requires k <= n + 5 < TWO_64
    ensures calls != [] && forall i | 0 <= i < |calls| :: calls[i].now == 0
    decreases n + 5 - k
  {
    if k == n + 5 then Resurrect(n) else [Store0(k)] + StoreAndResurrect(n, k + 1)
  }

  lemma {:induction false} StandingClock(calls: seq<Call>)
    requires forall i | 0 <= i < |calls| :: calls[i].now == 0
    ensures ClockForward(0, calls)
    decreases |calls|
  {
    if calls != [] { StandingClock(calls[1..]); }
  }

  lemma {:induction false} StoresDoNotRefine(n: nat, k: nat, m: Store)
    requires k <= n + 4 && n + 5 < TWO_64
    ensures !Refines(LoopConfig(n), LoopPrefix(n, k), m, StoreAndResurrect(n, k))
    decreases n + 4 - k
  {
    hide Step, LoopConfig, LoopPrefix;
    var (c, t, calls) := (LoopConfig(n), LoopPrefix(n, k), StoreAndResurrect(n, k));
    assert calls[0] == Store0(k) && calls[1..] == StoreAndResurrect(n, k + 1);
    var r := Step(c, t, Store0(k));
    var m' := Next(c, m, Store0(k), r.1);
    if k == n + 4 {
      LastStoreScatters(n);
      Resurrected(n, r.0, m');
    } else {
      StoreInOrder(n, k);
      StoresDoNotRefine(n, k + 1, m');
    }
  }

  /**
   * Every run of every fresh cache with a clock that does not go back refines the
   * map if and only if the depth limit is at most four; from five on a lookup can
   * return a value that was overwritten and deleted.
   */
  lemma RunsRefineExactly(maxDisplace: u64)
    ensures RunsRefine(maxDisplace) <==> maxDisplace <= 4
  {
    hide Refines, LoopConfig, LoopPrefix;
    if maxDisplace <= 4 {
      forall c: Config, calls: seq<Call> | c.Valid() && c.maxDisplace == maxDisplace && ClockForward(0, calls)
        ensures Refines(c, Empty(c.nitem), map[], calls)
      {
        EveryRunRefines(c, calls);
      }
    } else {
      var n := maxDisplace - 5;
      StoresDoNotRefine(n, 0, map[]);
      StandingClock(StoreAndResurrect(n, 0));
      LoopStartsEmpty(n);
    }
  }

  // ----- A live key can be missed -----

  /**
   * Reading your own write can fail: a key stored again after its first copy
   * expired sits behind that copy, and the lookup stops at the expired one.
   */
  lemma StoredKeyMissed(key: Key, other: Value) returns (c: Config, calls: seq<Call>)
    requires |key| == 1 && other == U64(7)
    ensures c.Valid() && c.maxDisplace == 2 && ClockForward(0, calls) && |calls| == 3
    ensures calls[1].op == OpInsert(key, other, Duration(0, 0), 0)
         && calls[2] == Call(calls[1].now, OpGet(key))
    ensures Step(c, After(c, Empty(c.nitem), calls[..2]), calls[2]).1 == Missing
  {
    hide Search, TryPaths;
    var at0, at1: Key -> u64 := k => 0, k => 1;
    c := Config([at0, at1, at1, at1], 2, 64, 2, 100, Random);
    var first := Call(1, OpInsert(key, U64(1), Duration(1, 0), 0));
    var second := Call(9, OpInsert(key, other, Duration(0, 0), 0));
    var third := Call(9, OpGet(key));
    calls := [first, second, third];
    assert calls[1..] == [second, third] && [second, third][1..] == [third] && [third][1..] == [];
    assert ClockForward(9, [third]) && ClockForward(1, [second, third]);
    var t0 := Empty(2);
    var ps := c.Positions(key);
    assert ps == [0, 1, 1, 1];
    var stale, current := Record(key, U64(1), 2), Record(key, other, U32_MAX);
    assert !HoldsLive(t0, 1, key)(0) && !HoldsLive(t0, 1, key)(1) && IsEmpty(t0)(0);
    assert First(ps, IsEmpty(t0)) == Some(0);
    var t1 := Step(c, t0, first).0;
    assert t1 == [Some(stale), None];
    assert !HoldsLive(t1, 9, key)(0) && !HoldsLive(t1, 9, key)(1);
    assert !IsEmpty(t1)(0) && IsEmpty(t1)(1) && ps[1..][0] == 1;
    assert First(ps, IsEmpty(t1)) == Some(1);
    var t2 := Step(c, t1, second).0;
    assert t2 == [Some(stale), Some(current)];
    assert Holds(t2, key)(0);
    assert First(ps, Holds(t2, key)) == Some(0);
    assert calls[..2][1..] == [second] && calls[..2][0] == first && [second][1..] == [];
    assert After(c, t1, [second]) == t2;
  }
}
