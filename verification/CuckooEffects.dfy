/** What the cuckoo operations do to the live items of the table. */
module CuckooEffects {
  import opened Bytes
  import opened Wrappers
  import opened TinyItem
  import opened CuckooTable
  import opened Displacement
  import opened Placement
  import opened CuckooOps

  type Items = multiset<Option<Record>>

  /** The live items of the table, with multiplicity. */
  ghost function LiveItems(t: Table, now: u32): Items {
    if t == [] then multiset{}
    else LiveItems(t[..|t| - 1], now) + Only(t[|t| - 1], now)
  }

  ghost function Only(o: Option<Record>, now: u32): Items {
    if Live(o, now) then multiset{o} else multiset{}
  }

  lemma {:induction false} LiveItemsCount(t: Table, now: u32, o: Option<Record>)
    ensures LiveItems(t, now)[o] == if Live(o, now) then multiset(t)[o] else 0
  {
    if t != [] {
      LiveItemsCount(t[..|t| - 1], now, o);
      assert t == t[..|t| - 1] + [t[|t| - 1]];
    }
  }

  lemma LiveItemsOfPermutation(t: Table, t': Table, now: u32)
    requires multiset(t) == multiset(t')
    ensures LiveItems(t, now) == LiveItems(t', now)
  {
    forall o ensures LiveItems(t, now)[o] == LiveItems(t', now)[o] {
      LiveItemsCount(t, now, o);
      LiveItemsCount(t', now, o);
    }
  }

  lemma UpdateCount(t: Table, i: nat, o: Option<Record>, x: Option<Record>)
    requires i < |t|
    ensures t[i] in multiset(t)
    ensures multiset(t[i := o])[x] == multiset(t)[x] - (if x == t[i] then 1 else 0) + (if x == o then 1 else 0)
  {
    assert multiset(t[i := o]) == multiset(t) - multiset{t[i]} + multiset{o};
  }

  lemma LiveItemsUpdate(t: Table, now: u32, i: nat, o: Option<Record>)
    requires i < |t|
    ensures Only(t[i], now) <= LiveItems(t, now)
    ensures LiveItems(t[i := o], now) == LiveItems(t, now) - Only(t[i], now) + Only(o, now)
  {
    hide LiveItems;
    var before, after := LiveItems(t, now), LiveItems(t[i := o], now);
    forall x ensures Only(t[i], now)[x] <= before[x]
      && after[x] == before[x] - Only(t[i], now)[x] + Only(o, now)[x] {
      LiveItemsCount(t, now, x);
      LiveItemsCount(t[i := o], now, x);
      UpdateCount(t, i, o, x);
    }
  }

  /** No key has two live copies. */
  ghost predicate OneLive(t: Table, now: u32) {
    forall i, j | 0 <= i < |t| && 0 <= j < |t| && Live(t[i], now) && Live(t[j], now)
                  && t[i].value.key == t[j].value.key :: i == j
  }

  /** The same, said of the live items alone. */
  ghost predicate OneOfEach(items: Items) {
    forall o, o' | o in items && o' in items && o.Some? && o'.Some? && o.value.key == o'.value.key ::
      o == o' && items[o] == 1
  }

  lemma TwicePresent(t: Table, i: nat, j: nat)
    requires i < j < |t| && t[i] == t[j]
    ensures multiset(t)[t[i]] >= 2
  {
    assert t == t[..i] + [t[i]] + t[i + 1..j] + [t[j]] + t[j + 1..];
  }

  lemma {:induction false} PresentOnce(t: Table, o: Option<Record>)
    requires forall i, j | 0 <= i < |t| && 0 <= j < |t| && t[i] == t[j] == o :: i == j
    ensures multiset(t)[o] <= 1
  {
    if t != [] {
      var n := |t| - 1;
      assert t == t[..n] + [t[n]];
      PresentOnce(t[..n], o);
      assert t[n] == o ==> o !in t[..n];
    }
  }

  lemma OneLiveIsOneOfEach(t: Table, now: u32)
    ensures OneLive(t, now) <==> OneOfEach(LiveItems(t, now))
  {
    var items := LiveItems(t, now);
    if OneLive(t, now) {
      forall o, o' | o in items && o' in items && o.Some? && o'.Some? && o.value.key == o'.value.key
        ensures o == o' && items[o] == 1
      {
        LiveItemsCount(t, now, o);
        LiveItemsCount(t, now, o');
        var i :| 0 <= i < |t| && t[i] == o;
        var j :| 0 <= j < |t| && t[j] == o';
        PresentOnce(t, o);
      }
    }
    if OneOfEach(items) {
      forall i, j | 0 <= i < |t| && 0 <= j < |t| && Live(t[i], now) && Live(t[j], now)
                    && t[i].value.key == t[j].value.key ensures i == j
      {
        LiveItemsCount(t, now, t[i]);
        LiveItemsCount(t, now, t[j]);
        assert t[i] in multiset(t) && t[j] in multiset(t);
        if i < j { TwicePresent(t, i, j); }
        if j < i { TwicePresent(t, j, i); }
      }
    }
  }

  // ----- Insertion -----

  /** The live item an insert gives up: the old copy, or a victim as a last resort. */
  ghost function Lost(c: Config, t: Table, now: u32, key: Key, draw: u64): (items: Items)
    requires Fit(c, t)
  {
    var ps := c.Positions(key);
    match First(ps, HoldsLive(t, now, key))
    case Some(p) => multiset{t[p]}
    case None =>
      if (exists p | p in ps :: !Live(t[p], now)) || TryPaths(c, t, now, ps).Some? then multiset{}
      else multiset{t[ps[Victim(c, t, ps, draw)]]}
  }

  lemma DisplacedItems(c: Config, t: Table, now: u32, path: seq<nat>)
    requires Fit(c, t) && Chain(c, t, now, path)
    ensures LiveItems(Unwind(t, path), now) == LiveItems(t, now) && Unwind(t, path)[path[0]] == None
  {
    ChainAdjacent(c, t, now, path);
    UnwindPermutes(t, path);
    var last := path[|path| - 1];
    LiveItemsOfPermutation(Unwind(t, path), t[last := None], now);
    LiveItemsUpdate(t, now, last, None);
  }

  /** Before the write the chosen slot holds nothing live but the key's old copy. */
  lemma FindSlotItems(c: Config, t: Table, now: u32, key: Key, draw: u64)
    requires Fit(c, t)
    ensures var s := FindSlot(c, t, now, key, draw);
      && s.update == First(c.Positions(key), HoldsLive(t, now, key)).Some?
      && Lost(c, t, now, key, draw) <= LiveItems(t, now)
      && LiveItems(s.table, now) - Only(s.table[s.pos], now) == LiveItems(t, now) - Lost(c, t, now, key, draw)
  {
    hide LiveItems, Search;
    var ps := c.Positions(key);
    var s := FindSlot(c, t, now, key, draw);
    LiveItemsUpdate(t, now, s.pos, None);
    if First(ps, HoldsLive(t, now, key)).None? && First(ps, IsEmpty(t)).None? && First(ps, IsExpired(t, now)).None? {
      forall p | p in ps ensures Live(t[p], now) {
        assert !IsEmpty(t)(p) && !IsExpired(t, now)(p);
      }
      var r := TryPaths(c, t, now, ps);
      TryPathsFinds(c, t, now, ps);
      if r.Some? {
        SearchFinds(c, t, now, r.value[0], 0);
        DisplacedItems(c, t, now, r.value);
      }
    } else if First(ps, HoldsLive(t, now, key)).None? {
      assert s.pos in ps && !Live(t[s.pos], now);
    }
  }

  /**
   * For every depth limit an insert changes the live items by exactly the new
   * item gained and at most one item lost.
   */
  lemma InsertAccounts(c: Config, t: Table, now: u32, key: Key, value: Value, ttl: Duration, draw: u64)
    requires Fit(c, t) && !Oversized(c, key, value)
    ensures var t' := Insert(c, t, now, key, value, ttl, draw);
      var lost := Lost(c, t, now, key, draw);
      && lost <= LiveItems(t, now) && |lost| <= 1
      && LiveItems(t', now) == LiveItems(t, now) - lost
           + Only(Stored(key, value, ComputeExpire(c.maxTtl, ttl, now)), now)
  {
    var s := FindSlot(c, t, now, key, draw);
    FindSlotItems(c, t, now, key, draw);
    LiveItemsUpdate(s.table, now, s.pos, Stored(key, value, ComputeExpire(c.maxTtl, ttl, now)));
  }

  /**
   * An insert loses another key's item only when that item sits in a candidate
   * of `key`, all candidates are live and no displacement frees any of them; it is
   * the one drawn, or one that expires no later than any other candidate.
   */
  lemma VictimIsLastResort(c: Config, t: Table, now: u32, key: Key, draw: u64, o: Option<Record>)
    requires Fit(c, t) && o in Lost(c, t, now, key, draw)
    ensures o.Some? && (o.value.key != key ==>
      && (exists p | p in c.Positions(key) :: t[p] == o)
      && (forall p | p in c.Positions(key) :: Live(t[p], now) && Search(c, t, now, p, 0).None?)
      && match c.policy
         case Random => o == t[c.Positions(key)[draw % 4]]
         case Expire => forall p | p in c.Positions(key) :: t[p].Some? && o.value.expire <= t[p].value.expire)
  {
    var ps := c.Positions(key);
    TryPathsFinds(c, t, now, ps);
    assert forall i | 0 <= i < D :: ps[i] in ps;
  }

  /** Inserting keeps records placed, up to depth four. */
  lemma InsertKeepsPlacement(c: Config, t: Table, now: u32, key: Key, value: Value, ttl: Duration, draw: u64)
    requires Fit(c, t) && Placed(c, t) && c.maxDisplace <= 4 && !Oversized(c, key, value)
    ensures Placed(c, Insert(c, t, now, key, value, ttl, draw))
  {
    var ps := c.Positions(key);
    var s := FindSlot(c, t, now, key, draw);
    TryPathsFinds(c, t, now, ps);
    var r := TryPaths(c, t, now, ps);
    if r.Some? {
      DisplacementKeepsPlacement(c, t, now, r.value[0]);
    }
    assert Placed(c, s.table);
  }

  /** With records placed, `Lost` is the only live copy of the key there was. */
  lemma NoOtherCopy(c: Config, t: Table, now: u32, key: Key, draw: u64, o: Option<Record>)
    requires Fit(c, t) && Placed(c, t) && OneLive(t, now)
    requires o in LiveItems(t, now) - Lost(c, t, now, key, draw)
    ensures o.Some? && o.value.key != key
  {
    LiveItemsCount(t, now, o);
    var i :| 0 <= i < |t| && t[i] == o;
    if o.value.key == key {
      assert HoldsLive(t, now, key)(i) && i in c.Positions(key);
      var p := First(c.Positions(key), HoldsLive(t, now, key)).value;
      assert p == i;
      OneLiveIsOneOfEach(t, now);
    }
  }

  /**
   * Up to depth four an insert leaves at most one live copy of every key, and
   * its own key's copy is the item just stored.
   */
  lemma InsertKeepsOneLive(c: Config, t: Table, now: u32, key: Key, value: Value, ttl: Duration, draw: u64)
    requires Fit(c, t) && Placed(c, t) && OneLive(t, now) && !Oversized(c, key, value)
    ensures var t' := Insert(c, t, now, key, value, ttl, draw);
      var stored := Stored(key, value, ComputeExpire(c.maxTtl, ttl, now));
      && OneLive(t', now)
      && (forall o | o in LiveItems(t', now) :: o.Some? && (o.value.key == key ==> o == stored))
      && (stored.Some? ==> stored in LiveItems(t', now))
  {
    hide LiveItems, Insert, FindSlot;
    var t' := Insert(c, t, now, key, value, ttl, draw);
    var stored := Stored(key, value, ComputeExpire(c.maxTtl, ttl, now));
    var rest := LiveItems(t, now) - Lost(c, t, now, key, draw);
    InsertAccounts(c, t, now, key, value, ttl, draw);
    OneLiveIsOneOfEach(t, now);
    forall o | o in rest ensures o.Some? && o.value.key != key {
      NoOtherCopy(c, t, now, key, draw, o);
    }
    ExpireZeroExactly(c.maxTtl, ttl, now, key, value);
    assert OneOfEach(LiveItems(t', now));
    OneLiveIsOneOfEach(t', now);
  }

  // ----- Lookup and removal -----

  /** An expired copy of the key comes before its live one in candidate order. */
  ghost predicate Shadowed(c: Config, t: Table, now: u32, key: Key)
    requires Fit(c, t)
  {
    var ps := c.Positions(key);
    exists i | 0 <= i < D :: Holds(t, key)(ps[i]) && Expired(t[ps[i]].value, now)
      && forall j | 0 <= j < i :: !HoldsLive(t, now, key)(ps[j])
  }

  lemma {:induction false} FirstIndex(ps: seq<nat>, good: nat -> bool) returns (i: nat)
    requires First(ps, good).Some?
    ensures i < |ps| && ps[i] == First(ps, good).value && forall j | 0 <= j < i :: !good(ps[j])
  {
    if good(ps[0]) {
      i := 0;
    } else {
      i := FirstIndex(ps[1..], good);
      i := i + 1;
    }
  }

  /**
   * In every table, whatever the depth limit: a lookup and a delete of a key with
   * a live copy in a candidate slot miss it exactly when an expired copy of the
   * key comes first.
   */
  lemma LiveKeyMissedExactly(c: Config, t: Table, now: u32, key: Key, q: nat)
    requires Fit(c, t) && q in c.Positions(key) && HoldsLive(t, now, key)(q)
    ensures Get(c, t, now, key).1.None? <==> Shadowed(c, t, now, key)
    ensures Delete(c, t, now, key).1 <==> !Shadowed(c, t, now, key)
  {
    var ps := c.Positions(key);
    assert Holds(t, key)(q);
    var i := FirstIndex(ps, Holds(t, key));
    if Expired(t[ps[i]].value, now) {
      assert forall j | 0 <= j < i :: !Holds(t, key)(ps[j]);
      assert Shadowed(c, t, now, key);
    } else {
      assert HoldsLive(t, now, key)(ps[i]);
    }
  }

  /**
   * Reading one's own write, whatever the depth limit: a lookup right after an
   * insert misses the item just stored exactly when an expired copy shadows it.
   */
  lemma StoredKeyFoundExactly(c: Config, t: Table, now: u32, key: Key, value: Value, ttl: Duration, draw: u64)
    requires Fit(c, t) && !Oversized(c, key, value) && ComputeExpire(c.maxTtl, ttl, now) != 0
    ensures var t' := Insert(c, t, now, key, value, ttl, draw);
      && (Get(c, t', now, key).1.None? <==> Shadowed(c, t', now, key))
      && (Delete(c, t', now, key).1 <==> !Shadowed(c, t', now, key))
  {
    var s := FindSlot(c, t, now, key, draw);
    ExpireZeroExactly(c.maxTtl, ttl, now, key, value);
    LiveKeyMissedExactly(c, Insert(c, t, now, key, value, ttl, draw), now, key, s.pos);
  }

  /**
   * With records placed and no key live twice, what a lookup then returns is that
   * live copy.
   */
  lemma LiveKeyFoundExactly(c: Config, t: Table, now: u32, key: Key, q: nat)
    requires Fit(c, t) && Placed(c, t) && OneLive(t, now) && q < |t| && HoldsLive(t, now, key)(q)
    ensures Get(c, t, now, key).1 == if Shadowed(c, t, now, key) then None else t[q]
    ensures Delete(c, t, now, key).1 <==> !Shadowed(c, t, now, key)
  {
    LiveKeyMissedExactly(c, t, now, key, q);
    var r := First(c.Positions(key), Holds(t, key));
    if !Shadowed(c, t, now, key) { assert HoldsLive(t, now, key)(r.value); }
  }
}
