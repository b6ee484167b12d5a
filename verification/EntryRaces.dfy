/**
 * Inserts of any number of threads and keys racing with each other and with
 * deletes, evictions and relocations over the whole hash table, one load or
 * exchange of a slot per step. Creating an entry takes the stripe lock of the
 * key and a second scan under it; everything else is lock-free.
 */
module EntryRaces {
  import opened Wrappers
  import opened TinyItem
  import opened ReadPath

  type Tid = nat
  type Stripe = nat

  /** What the table makes of a key: its tag, its candidate buckets and its stripe; all arbitrary. */
  datatype Hashing = Hashing(keys: Keys, choices: Key -> seq<nat>, stripe: Key -> Stripe)

  /** An insert: the key and the place its new item has been written to. */
  datatype Ins = Ins(key: Key, loc: Loc)

  /**
   * `c` and `i` are the choice and the slot the scan has come to; `locked` scans
   * are the second ones. `full` are the choices and slots a claim has found
   * occupied.
   */
  datatype Pc =
    | Idle
    | Scan(op: Ins, locked: bool, unknown: bool, c: nat, i: nat)
    | Loaded(op: Ins, locked: bool, unknown: bool, c: nat, i: nat, e: Entry)
    | Matched(op: Ins, locked: bool, unknown: bool, c: nat, i: nat, e: Entry)
    | WantStripe(op: Ins)
    | Claiming(op: Ins, full: set<(nat, nat)>)
    | ClaimLoaded(op: Ins, full: set<(nat, nat)>, c: nat, i: nat, e: Entry)
    | Finished(op: Ins, locked: bool)
  {
    predicate Locked() {
      match this
      case Scan(_, locked, _, _, _) => locked
      case Loaded(_, locked, _, _, _, _) => locked
      case Matched(_, locked, _, _, _, _) => locked
      case Claiming(_, _) => true
      case ClaimLoaded(_, _, _, _, _) => true
      case Finished(_, locked) => locked
      case _ => false
    }
  }

  /** The whole table with the state of the segments, the holders of stripes, and the threads. */
  datatype State = State(world: World, stripes: map<Stripe, Tid>, threads: map<Tid, Pc>)
  {
    function At(t: Tid, pc: Pc): State { this.(threads := threads[t := pc]) }

    /** One slot is exchanged. */
    function Put(b: nat, i: nat, e: Entry): State
      requires InRange(world, b, i)
    {
      this.(world := world.(buckets := world.buckets[b := world.buckets[b][i := e]]))
    }
  }

  ghost predicate Init(h: Hashing, s: State) {
    && WorldOk(h.keys, s.world) && s.stripes == map[]
    && (forall b: nat, i: nat | InRange(s.world, b, i) :: s.world.buckets[b][i] == Empty)
    && forall t | t in s.threads :: s.threads[t] == Idle
  }

  // ----- Steps -----

  ghost predicate OpOk(h: Hashing, w: World, op: Ins) { h.keys.at(op.loc) == op.key && op.loc.seg in w.gens }

  /** The entry an insert publishes. */
  function New(h: Hashing, op: Ins): Entry { Item(h.keys.tag(op.key), op.loc) }

  /** An insert begins; an entry is deleted, evicted or relocated; or segments change around the table. */
  ghost predicate IdleStep(h: Hashing, s: State, s': State, t: Tid) {
    || (exists op :: OpOk(h, s.world, op) && s' == s.At(t, Scan(op, false, false, 0, 0)))
    || (exists b, i :: Unlinked(s, s', b, i))
    || (exists b, i, loc :: Relocated(h, s, s', b, i, loc))
    || (s' == s.(world := s'.world) && SegmentsChange(s.world, s'.world))
  }

  /** A live entry is taken away, leaving nothing or a ghost. */
  ghost predicate Unlinked(s: State, s': State, b: nat, i: nat) {
    && InRange(s.world, b, i) && s.world.buckets[b][i].Item?
    && (s' == s.Put(b, i, Empty) || s' == s.Put(b, i, Ghost(s.world.buckets[b][i].tag)))
  }

  /** A live entry gets a new location of its own key in place. */
  ghost predicate Relocated(h: Hashing, s: State, s': State, b: nat, i: nat, loc: Loc) {
    && InRange(s.world, b, i) && s.world.buckets[b][i].Item? && loc.seg in s.world.gens
    && h.keys.at(loc) == h.keys.at(s.world.buckets[b][i].loc)
    && s' == s.Put(b, i, Item(s.world.buckets[b][i].tag, loc))
  }

  ghost predicate SegmentsChange(w: World, w': World) { w'.buckets == w.buckets && w'.gens.Keys == w.gens.Keys }

  ghost predicate ScanStep(h: Hashing, s: State, s': State, t: Tid, pc: Pc)
    requires pc.Scan?
  {
    var Scan(op, locked, unknown, c, i) := pc;
    var choices := h.choices(op.key);
    if c >= |choices| then
      // an unverified candidate ends the insert; else the first scan leads to the lock, the second to a claim
      s' == s.At(t, if unknown then Finished(op, locked) else if locked then Claiming(op, {}) else WantStripe(op))
    else if i >= SLOTS then s' == s.At(t, Scan(op, locked, unknown, c + 1, 0))
    else
      && InRange(s.world, choices[c], i)
      && var e := s.world.buckets[choices[c]][i];
         s' == s.At(t, if e.Item? && e.tag == h.keys.tag(op.key) then Loaded(op, locked, unknown, c, i, e)
                       else Scan(op, locked, unknown, c, i + 1))
  }

  /** The candidate is compared under a pin, if its segment grants one. */
  ghost predicate VerifyStep(h: Hashing, s: State, s': State, t: Tid, pc: Pc)
    requires pc.Loaded? && pc.e.Item?
  {
    var Loaded(op, locked, unknown, c, i, e) := pc;
    var known := e.loc.seg in s.world.gens;
    s' == s.At(t, if known && !Pinnable(s.world, e.loc) then Scan(op, locked, true, c, i + 1)
                  else if known && h.keys.at(e.loc) == op.key then Matched(op, locked, unknown, c, i, e)
                  else Scan(op, locked, unknown, c, i + 1))
  }

  /** Replace the matching entry in place; the exchange fails if the slot has changed, or for its frequency alone. */
  ghost predicate ReplaceStep(h: Hashing, s: State, s': State, t: Tid, pc: Pc)
    requires pc.Matched?
  {
    var Matched(op, locked, unknown, c, i, e) := pc;
    || s' == s.At(t, Scan(op, locked, unknown, c, i))
    || (&& c < |h.choices(op.key)| && InRange(s.world, h.choices(op.key)[c], i)
        && s.world.buckets[h.choices(op.key)[c]][i] == e
        && s' == s.Put(h.choices(op.key)[c], i, New(h, op)).At(t, Finished(op, locked)))
  }

  ghost predicate AllFull(h: Hashing, key: Key, full: set<(nat, nat)>) {
    forall c: nat, i: nat | c < |h.choices(key)| && i < SLOTS :: (c, i) in full
  }

  /** Look at a candidate slot: it is occupied or it may be claimed; when all are, there is no room. */
  ghost predicate ClaimStep(h: Hashing, s: State, s': State, t: Tid, op: Ins, full: set<(nat, nat)>) {
    || (AllFull(h, op.key, full) && s' == s.At(t, Finished(op, true)))
    || exists c: nat, i: nat ::
         && c < |h.choices(op.key)| && i < SLOTS && InRange(s.world, h.choices(op.key)[c], i)
         && var e := s.world.buckets[h.choices(op.key)[c]][i];
            s' == s.At(t, if e.Item? then Claiming(op, full + {(c, i)}) else ClaimLoaded(op, full, c, i, e))
  }

  ghost predicate CreateStep(h: Hashing, s: State, s': State, t: Tid, pc: Pc)
    requires pc.ClaimLoaded?
  {
    || s' == s.At(t, Claiming(pc.op, pc.full))
    || (&& pc.c < |h.choices(pc.op.key)| && InRange(s.world, h.choices(pc.op.key)[pc.c], pc.i)
        && s.world.buckets[h.choices(pc.op.key)[pc.c]][pc.i] == pc.e
        && s' == s.Put(h.choices(pc.op.key)[pc.c], pc.i, New(h, pc.op)).At(t, Finished(pc.op, true)))
  }

  ghost predicate Step(h: Hashing, s: State, s': State, t: Tid) {
    && t in s.threads
    && var pc := s.threads[t];
       match pc
       case Idle => IdleStep(h, s, s', t)
       case Scan(_, _, _, _, _) => ScanStep(h, s, s', t, pc)
       case Loaded(_, _, _, _, _, e) => e.Item? && VerifyStep(h, s, s', t, pc)
       case Matched(_, _, _, _, _, _) => ReplaceStep(h, s, s', t, pc)
       case WantStripe(op) =>
         && h.stripe(op.key) !in s.stripes
         && s' == s.(stripes := s.stripes[h.stripe(op.key) := t]).At(t, Scan(op, true, false, 0, 0))
       case Claiming(op, full) => ClaimStep(h, s, s', t, op, full)
       case ClaimLoaded(_, _, _, _, _) => CreateStep(h, s, s', t, pc)
       case Finished(op, locked) =>
         s' == (if locked then s.(stripes := s.stripes - {h.stripe(op.key)}) else s).At(t, Idle)
  }

  // ----- Invariant -----

  /** Entries lie in candidate buckets of their keys. */
  ghost predicate InChoices(h: Hashing, w: World) {
    forall key, b, i | HoldsKey(h.keys, w, b, i, key) :: b in h.choices(key)
  }

  /** The slots before the `i`-th of choice `c` are without the key. */
  ghost predicate ScannedTo(h: Hashing, w: World, key: Key, c: nat, i: nat) {
    forall d: nat, j: nat | d < |h.choices(key)| && (d < c || (d == c && j < i)) && j < SLOTS ::
      !HoldsKey(h.keys, w, h.choices(key)[d], j, key)
  }

  /** What a thread that holds its stripe has established. */
  ghost predicate LockedOk(h: Hashing, w: World, pc: Pc) {
    match pc
    case Scan(op, _, unknown, c, i) => !unknown ==> ScannedTo(h, w, op.key, c, i)
    case Loaded(op, _, unknown, c, i, e) =>
      !unknown ==>
        && ScannedTo(h, w, op.key, c, i)
        && (e.Item? && h.keys.at(e.loc) != op.key ==> ScannedTo(h, w, op.key, c, i + 1))
    case Matched(op, _, unknown, c, i, _) => !unknown ==> ScannedTo(h, w, op.key, c, i)
    case Claiming(op, _) => KeyAbsent(h.keys, w, op.key)
    case ClaimLoaded(op, _, _, _, _) => KeyAbsent(h.keys, w, op.key)
    case _ => true
  }

  ghost predicate PcOk(h: Hashing, w: World, pc: Pc) {
    && (!pc.Idle? ==> OpOk(h, w, pc.op))
    && (pc.Loaded? ==> pc.e.Item? && pc.e.loc.seg in w.gens)
    && (pc.Matched? ==> pc.e.Item? && h.keys.at(pc.e.loc) == pc.op.key)
    && (pc.ClaimLoaded? ==> pc.c < |h.choices(pc.op.key)| && !pc.e.Item?)
    && (pc.Locked() ==> LockedOk(h, w, pc))
  }

  ghost predicate HasStripe(h: Hashing, s: State, t: Tid, pc: Pc) {
    pc.Locked() && !pc.Idle? ==> h.stripe(pc.op.key) in s.stripes && s.stripes[h.stripe(pc.op.key)] == t
  }

  ghost predicate TableOk(h: Hashing, w: World) {
    WorldOk(h.keys, w) && Unique(h.keys, w) && InChoices(h, w)
  }

  ghost predicate Inv(h: Hashing, s: State) {
    && TableOk(h, s.world)
    && forall t | t in s.threads :: PcOk(h, s.world, s.threads[t]) && HasStripe(h, s, t, s.threads[t])
  }

  // ----- What a step may do to the table -----

  /** No slot without the key comes to hold it. */
  ghost predicate NoneGained(k: Keys, w: World, w': World, key: Key) {
    forall b, i | HoldsKey(k, w', b, i, key) :: HoldsKey(k, w, b, i, key)
  }

  /** The table stays as it is, or one slot is exchanged in place. */
  ghost predicate Disciplined(k: Keys, w: World, w': World) {
    w'.buckets == w.buckets || exists b, i :: Exchanges(k, w, w', b, i)
  }

  /** Only the holder of its stripe lets a key gain an entry. */
  ghost predicate Effect(h: Hashing, s: State, s': State, t: Tid) {
    && TableOk(h, s'.world) && Disciplined(h.keys, s.world, s'.world) && s'.world.gens.Keys == s.world.gens.Keys
    && forall key ::
         || NoneGained(h.keys, s.world, s'.world, key)
         || (h.stripe(key) in s.stripes && s.stripes[h.stripe(key)] == t)
  }

  lemma SameBuckets(h: Hashing, w: World, w': World)
    requires TableOk(h, w) && SegmentsChange(w, w')
    ensures TableOk(h, w') && Disciplined(h.keys, w, w') && forall key :: NoneGained(h.keys, w, w', key)
  {
    assert forall b, i, key :: HoldsKey(h.keys, w', b, i, key) == HoldsKey(h.keys, w, b, i, key);
    forall b, i | 0 <= b < |w'.buckets| && 0 <= i < SLOTS ensures EntryOk(h.keys, w', w'.buckets[b][i]) {
      assert EntryOk(h.keys, w, w.buckets[b][i]);
    }
  }

  /** A slot is exchanged for nothing, for an entry of its own key, or for an entry of a key that has none. */
  lemma PutKeeps(h: Hashing, s: State, b: nat, i: nat, e: Entry)
    requires TableOk(h, s.world) && InRange(s.world, b, i) && EntryOk(h.keys, s.world, e)
    requires e.Item? ==>
      || HoldsKey(h.keys, s.world, b, i, h.keys.at(e.loc))
      || (KeyAbsent(h.keys, s.world, h.keys.at(e.loc)) && b in h.choices(h.keys.at(e.loc)))
    ensures var w' := s.Put(b, i, e).world;
      && TableOk(h, w') && Exchanges(h.keys, s.world, w', b, i)
      && forall key | !e.Item? || key != h.keys.at(e.loc) || HoldsKey(h.keys, s.world, b, i, key) ::
           NoneGained(h.keys, s.world, w', key)
  {
    var w' := s.Put(b, i, e).world;
    assert Exchanges(h.keys, s.world, w', b, i);
    ExchangeIsSteady(h.keys, s.world, w', b, i);
    forall c: nat, j: nat, key ensures (c != b || j != i) ==>
      HoldsKey(h.keys, w', c, j, key) == HoldsKey(h.keys, s.world, c, j, key)
    {
      if c != b || j != i { OtherSlotKept(h.keys, s.world, w', b, i, c, j, key); }
    }
    PutWorldOk(h, s, b, i, e);
  }

  lemma PutWorldOk(h: Hashing, s: State, b: nat, i: nat, e: Entry)
    requires WorldOk(h.keys, s.world) && InRange(s.world, b, i) && EntryOk(h.keys, s.world, e)
    ensures WorldOk(h.keys, s.Put(b, i, e).world)
  {
    var w' := s.Put(b, i, e).world;
    forall c, j | 0 <= c < |w'.buckets| && 0 <= j < SLOTS ensures EntryOk(h.keys, w', w'.buckets[c][j]) {
      assert EntryOk(h.keys, s.world, s.world.buckets[c][j]);
    }
  }

  lemma PutEffect(h: Hashing, s: State, s': State, t: Tid, b: nat, i: nat, e: Entry)
    requires TableOk(h, s.world) && InRange(s.world, b, i) && EntryOk(h.keys, s.world, e)
    requires s'.world == s.Put(b, i, e).world
    requires e.Item? && !HoldsKey(h.keys, s.world, b, i, h.keys.at(e.loc)) ==>
      var key := h.keys.at(e.loc);
      && KeyAbsent(h.keys, s.world, key) && b in h.choices(key)
      && h.stripe(key) in s.stripes && s.stripes[h.stripe(key)] == t
    ensures Effect(h, s, s', t)
  {
    hide TableOk, Exchanges, NoneGained;
    PutKeeps(h, s, b, i, e);
  }

  lemma QuietEffect(h: Hashing, s: State, s': State, t: Tid)
    requires TableOk(h, s.world) && SegmentsChange(s.world, s'.world)
    ensures Effect(h, s, s', t)
  {
    SameBuckets(h, s.world, s'.world);
  }

  // ----- Every step keeps the invariant -----

  lemma IdleEffect(h: Hashing, s: State, s': State, t: Tid)
    requires Inv(h, s) && IdleStep(h, s, s', t)
    ensures Effect(h, s, s', t)
  {
    hide TableOk, Effect;
    var k := h.keys;
    if b: nat, i: nat :| Unlinked(s, s', b, i) {
      PutEffect(h, s, s', t, b, i, s'.world.buckets[b][i]);
    } else if b: nat, i: nat, loc :| Relocated(h, s, s', b, i, loc) {
      SlotOk(h, s.world, b, i);
      PutEffect(h, s, s', t, b, i, Item(s.world.buckets[b][i].tag, loc));
    } else {
      QuietEffect(h, s, s', t);
    }
  }

  lemma SlotOk(h: Hashing, w: World, b: nat, i: nat)
    requires TableOk(h, w) && InRange(w, b, i)
    ensures EntryOk(h.keys, w, w.buckets[b][i]) && i < SLOTS
  {
  }

  lemma StepEffect(h: Hashing, s: State, s': State, t: Tid)
    requires Inv(h, s) && Step(h, s, s', t)
    ensures Effect(h, s, s', t)
  {
    hide TableOk, Effect, LockedOk, IdleStep;
    var pc := s.threads[t];
    assert PcOk(h, s.world, pc) && HasStripe(h, s, t, pc);
    if pc.Idle? {
      IdleEffect(h, s, s', t);
    } else if pc.Matched? && s'.world != s.world {
      PutEffect(h, s, s', t, h.choices(pc.op.key)[pc.c], pc.i, New(h, pc.op));
    } else if pc.ClaimLoaded? && s'.world != s.world {
      ClaimIsAbsent(h, s.world, pc);
      PutEffect(h, s, s', t, h.choices(pc.op.key)[pc.c], pc.i, New(h, pc.op));
    } else {
      QuietEffect(h, s, s', t);
    }
  }

  lemma ClaimIsAbsent(h: Hashing, w: World, pc: Pc)
    requires pc.ClaimLoaded? && PcOk(h, w, pc)
    ensures KeyAbsent(h.keys, w, pc.op.key)
  {
  }

  lemma ScannedStays(h: Hashing, w: World, w': World, key: Key, c: nat, i: nat)
    requires ScannedTo(h, w, key, c, i) && NoneGained(h.keys, w, w', key)
    ensures ScannedTo(h, w', key, c, i)
  {
  }

  lemma AbsentStays(k: Keys, w: World, w': World, key: Key)
    requires KeyAbsent(k, w, key) && NoneGained(k, w, w', key)
    ensures KeyAbsent(k, w', key)
  {
  }

  /** What a thread has established stays true while its key gains no entry. */
  lemma LockedStays(h: Hashing, w: World, w': World, pc: Pc)
    requires LockedOk(h, w, pc) && (!pc.Idle? ==> NoneGained(h.keys, w, w', pc.op.key))
    ensures LockedOk(h, w', pc)
  {
    hide ScannedTo, KeyAbsent, NoneGained;
    match pc
    case Scan(op, _, unknown, c, i) => if !unknown { ScannedStays(h, w, w', op.key, c, i); }
    case Loaded(op, _, unknown, c, i, e) =>
      if !unknown {
        ScannedStays(h, w, w', op.key, c, i);
        if e.Item? && h.keys.at(e.loc) != op.key { ScannedStays(h, w, w', op.key, c, i + 1); }
      }
    case Matched(op, _, unknown, c, i, _) => if !unknown { ScannedStays(h, w, w', op.key, c, i); }
    case Claiming(op, _) => AbsentStays(h.keys, w, w', op.key);
    case ClaimLoaded(op, _, _, _, _) => AbsentStays(h.keys, w, w', op.key);
    case _ =>
  }

  ghost predicate OneMoved(s: State, s': State, t: Tid) {
    t in s.threads && t in s'.threads && s'.threads == s.threads[t := s'.threads[t]]
  }

  lemma OtherKept(h: Hashing, s: State, s': State, t: Tid, u: Tid)
    requires Inv(h, s) && Effect(h, s, s', t) && u in s.threads && u != t
    ensures PcOk(h, s'.world, s.threads[u])
  {
    hide TableOk, Disciplined, LockedOk, NoneGained;
    var pc := s.threads[u];
    assert PcOk(h, s.world, pc) && HasStripe(h, s, u, pc);
    if pc.Locked() && !pc.Idle? {
      assert NoneGained(h.keys, s.world, s'.world, pc.op.key);
      LockedStays(h, s.world, s'.world, pc);
    }
  }

  /** The thread's own stripe: taken, kept or given back. */
  lemma StripesKept(h: Hashing, s: State, s': State, t: Tid, u: Tid)
    requires Inv(h, s) && Step(h, s, s', t) && u in s'.threads
    ensures HasStripe(h, s', u, s'.threads[u])
  {
    hide TableOk, PcOk;
    assert HasStripe(h, s, t, s.threads[t]);
    if u in s.threads { assert HasStripe(h, s, u, s.threads[u]); }
  }

  lemma ScanKept(h: Hashing, s: State, s': State, t: Tid, pc: Pc)
    requires TableOk(h, s.world) && PcOk(h, s.world, pc) && pc.Scan? && ScanStep(h, s, s', t, pc)
    ensures t in s'.threads && PcOk(h, s.world, s'.threads[t])
  {
    var Scan(op, locked, unknown, c, i) := pc;
    var choices := h.choices(op.key);
    if c >= |choices| {
      if locked && !unknown { AllScanned(h, s.world, op.key, c, i); }
    } else if i < SLOTS {
      SlotOk(h, s.world, choices[c], i);
    }
  }

  /** A complete scan that found nothing shows that the key has no entry. */
  lemma AllScanned(h: Hashing, w: World, key: Key, c: nat, i: nat)
    requires TableOk(h, w) && ScannedTo(h, w, key, c, i) && c >= |h.choices(key)|
    ensures KeyAbsent(h.keys, w, key)
  {
    forall b, j | 0 <= b < |w.buckets| && 0 <= j < |w.buckets[b]| ensures !HoldsKey(h.keys, w, b, j, key) {
      if b in h.choices(key) {
        var d :| 0 <= d < |h.choices(key)| && h.choices(key)[d] == b;
        assert !HoldsKey(h.keys, w, h.choices(key)[d], j, key);
      }
    }
  }

  lemma OwnKept(h: Hashing, s: State, s': State, t: Tid)
    requires Inv(h, s) && Step(h, s, s', t)
    ensures OneMoved(s, s', t) && PcOk(h, s'.world, s'.threads[t])
  {
    hide TableOk;
    var pc := s.threads[t];
    assert PcOk(h, s.world, pc);
    match pc
    case Scan(_, _, _, _, _) => ScanKept(h, s, s', t, pc);
    case Loaded(_, _, _, _, _, _) => VerifyKept(h, s, s', t, pc);
    case _ => RestKept(h, s, s', t);
  }

  lemma VerifyKept(h: Hashing, s: State, s': State, t: Tid, pc: Pc)
    requires PcOk(h, s.world, pc) && pc.Loaded? && VerifyStep(h, s, s', t, pc)
    ensures t in s'.threads && PcOk(h, s.world, s'.threads[t])
  {
    hide ScannedTo;
  }

  lemma RestKept(h: Hashing, s: State, s': State, t: Tid)
    requires Inv(h, s) && Step(h, s, s', t) && !s.threads[t].Scan? && !s.threads[t].Loaded?
    ensures OneMoved(s, s', t) && PcOk(h, s'.world, s'.threads[t])
  {
    hide TableOk;
    assert PcOk(h, s.world, s.threads[t]);
  }

  lemma StepKeepsInv(h: Hashing, s: State, s': State, t: Tid)
    requires Inv(h, s) && Step(h, s, s', t)
    ensures Inv(h, s')
  {
    StepEffect(h, s, s', t);
    OwnKept(h, s, s', t);
    hide Step, TableOk, PcOk, HasStripe;
    forall u | u in s'.threads ensures PcOk(h, s'.world, s'.threads[u]) && HasStripe(h, s', u, s'.threads[u]) {
      if u != t { OtherKept(h, s, s', t, u); }
      StripesKept(h, s, s', t, u);
    }
  }

  // ----- Runs -----

  ghost predicate Moves(h: Hashing, s: State, s': State) { exists t :: Step(h, s, s', t) }

  ghost predicate Run(h: Hashing, run: seq<State>) {
    && run != [] && Init(h, run[0])
    && forall i, j | 0 <= i && j == i + 1 < |run| :: Moves(h, run[i], run[j])
  }

  lemma {:induction false} RunInv(h: Hashing, run: seq<State>, n: nat)
    requires Run(h, run) && n < |run|
    ensures Inv(h, run[n])
  {
    hide Step, TableOk;
    if n == 0 {
      InitOk(h, run[0]);
    } else {
      RunInv(h, run, n - 1);
      assert Moves(h, run[n - 1], run[n]);
      var t :| Step(h, run[n - 1], run[n], t);
      StepKeepsInv(h, run[n - 1], run[n], t);
    }
  }

  lemma InitOk(h: Hashing, s: State)
    requires Init(h, s)
    ensures Inv(h, s)
  {
  }

  /** The buckets `cs` of the table, as a lookup sees it. */
  function View(w: World, cs: seq<nat>): World
    requires forall j | 0 <= j < |cs| :: cs[j] < |w.buckets|
  {
    w.(buckets := seq(|cs|, j requires 0 <= j < |cs| => w.buckets[cs[j]]))
  }

  /** The distinct candidate buckets of a key. */
  ghost predicate CandidatesOf(h: Hashing, w: World, key: Key, cs: seq<nat>) {
    && cs != [] && (forall b | b in h.choices(key) :: b in cs)
    && (forall j | 0 <= j < |cs| :: cs[j] < |w.buckets|)
    && forall j, m | 0 <= j < m < |cs| :: cs[j] != cs[m]
  }

  lemma ViewHolds(k: Keys, w: World, cs: seq<nat>, j: nat, i: nat, key: Key)
    requires forall j | 0 <= j < |cs| :: cs[j] < |w.buckets|
    ensures HoldsKey(k, View(w, cs), j, i, key) <==> j < |cs| && HoldsKey(k, w, cs[j], i, key)
  {
  }

  /** An exchange in the table is one in the view of its candidate buckets, or does not show there. */
  lemma ExchangeInView(k: Keys, w: World, w': World, cs: seq<nat>, b: nat, i: nat)
    requires (forall j | 0 <= j < |cs| :: cs[j] < |w.buckets|) && Exchanges(k, w, w', b, i)
    requires forall j, m | 0 <= j < m < |cs| :: cs[j] != cs[m]
    ensures |w'.buckets| == |w.buckets| && Disciplined(k, View(w, cs), View(w', cs))
  {
    var v, v' := View(w, cs), View(w', cs);
    if j :| 0 <= j < |cs| && cs[j] == b {
      var e := w'.buckets[b][i];
      assert v'.buckets == v.buckets[j := v.buckets[j][i := e]];
      if e.Item? {
        var key := k.at(e.loc);
        ViewHolds(k, w, cs, j, i, key);
        if KeyAbsent(k, w, key) {
          forall d, m | 0 <= d < |v.buckets| && 0 <= m < |v.buckets[d]| ensures !HoldsKey(k, v, d, m, key) {
            ViewHolds(k, w, cs, d, m, key);
          }
        }
      }
      assert Exchanges(k, v, v', j, i);
    } else {
      assert v'.buckets == v.buckets;
    }
  }

  /**
   * What lookups rely on: in every run, whichever threads insert, delete, evict
   * and relocate, no key ever has two entries, and every step exchanges at most
   * one slot, for an entry of the key it held or of a key that had none. The
   * candidate buckets of a key see it that way too, and hold its entry, if any.
   */
  lemma EntriesAreUnique(h: Hashing, run: seq<State>, n: nat, key: Key, cs: seq<nat>)
    requires Run(h, run) && n < |run| && CandidatesOf(h, run[n].world, key, cs)
    ensures Unique(h.keys, run[n].world)
    ensures KeyAbsent(h.keys, View(run[n].world, cs), key) <==> KeyAbsent(h.keys, run[n].world, key)
    ensures n > 0 ==>
      && |run[n - 1].world.buckets| == |run[n].world.buckets|
      && Disciplined(h.keys, run[n - 1].world, run[n].world)
      && var v, v' := View(run[n - 1].world, cs), View(run[n].world, cs);
         forall pins, removers | Rely(h.keys, v, v', pins, removers) :: EnvStep(h.keys, v, v', pins, removers)
  {
    RunInv(h, run, n);
    var w := run[n].world;
    ViewTells(h, w, key, cs);
    if n > 0 {
      RunInv(h, run, n - 1);
      assert Moves(h, run[n - 1], run[n]);
      var t :| Step(h, run[n - 1], run[n], t);
      StepEffect(h, run[n - 1], run[n], t);
      var before := run[n - 1].world;
      if before.buckets != w.buckets {
        var b, i :| Exchanges(h.keys, before, w, b, i);
        ExchangeInView(h.keys, before, w, cs, b, i);
      }
      DisciplineIsEnvStep(h.keys, View(before, cs), View(w, cs));
    }
  }

  lemma DisciplineIsEnvStep(k: Keys, v: World, v': World)
    requires Disciplined(k, v, v')
    ensures forall pins, removers | Rely(k, v, v', pins, removers) :: EnvStep(k, v, v', pins, removers)
  {
    if v'.buckets != v.buckets {
      var b, i :| Exchanges(k, v, v', b, i);
    }
  }

  lemma ViewTells(h: Hashing, w: World, key: Key, cs: seq<nat>)
    requires TableOk(h, w) && CandidatesOf(h, w, key, cs)
    ensures KeyAbsent(h.keys, View(w, cs), key) <==> KeyAbsent(h.keys, w, key)
  {
    var v := View(w, cs);
    if KeyAbsent(h.keys, v, key) {
      forall b, i | 0 <= b < |w.buckets| && 0 <= i < |w.buckets[b]| ensures !HoldsKey(h.keys, w, b, i, key) {
        if b in cs {
          var j :| 0 <= j < |cs| && cs[j] == b;
          ViewHolds(h.keys, w, cs, j, i, key);
          assert v.buckets[j] == w.buckets[b];
        }
      }
    }
    if KeyAbsent(h.keys, w, key) {
      forall j, i | 0 <= j < |v.buckets| && 0 <= i < |v.buckets[j]| ensures !HoldsKey(h.keys, v, j, i, key) {
        ViewHolds(h.keys, w, cs, j, i, key);
      }
    }
  }

  // ----- What an insert answers -----

  /** A run and the thread that takes each of its steps. */
  ghost predicate RunBy(h: Hashing, run: seq<State>, who: seq<Tid>) {
    && |run| == |who| + 1 && Init(h, run[0])
    && forall i, j | 0 <= i && j == i + 1 < |run| :: Step(h, run[i], run[j], who[i])
  }

  /** The new entry is put into a candidate slot. */
  ghost predicate Puts(h: Hashing, w: World, w': World, op: Ins) {
    exists b: nat, i: nat ::
      && b in h.choices(op.key) && InRange(w, b, i) && w'.buckets == w.buckets[b := w.buckets[b][i := New(h, op)]]
  }

  ghost predicate Published(h: Hashing, run: seq<State>, who: seq<Tid>, t: Tid, op: Ins, i: nat, j: nat)
    requires |run| == |who| + 1
  {
    exists k, k' ::
      i <= k && k' == k + 1 <= j && k' < |run| && who[k] == t && Puts(h, run[k].world, run[k'].world, op)
  }

  /** An entry with the tag of the key was in the candidate slot. */
  ghost predicate Candidate(h: Hashing, w: World, key: Key, c: nat, i: nat, e: Entry) {
    && c < |h.choices(key)| && InRange(w, h.choices(key)[c], i) && w.buckets[h.choices(key)[c]][i] == e
    && e.Item? && e.tag == h.keys.tag(key)
  }

  ghost predicate SeenCandidate(h: Hashing, run: seq<State>, key: Key, c: nat, i: nat, e: Entry, from: nat, j: nat) {
    exists k :: from <= k <= j && k < |run| && Candidate(h, run[k].world, key, c, i, e)
  }

  /** A candidate of the key could not be pinned. */
  ghost predicate CouldNotTell(h: Hashing, run: seq<State>, key: Key, from: nat, j: nat) {
    exists m, c: nat, i: nat, e: Entry ::
      && from <= m <= j && m < |run| && SeenCandidate(h, run, key, c, i, e, from, m)
      && e.Item? && !Pinnable(run[m].world, e.loc)
  }

  /** The candidate slot held a live entry at an instant. */
  ghost predicate SeenFull(h: Hashing, run: seq<State>, key: Key, c: nat, i: nat, from: nat, j: nat) {
    exists k :: from <= k <= j && k < |run| && c < |h.choices(key)| && InRange(run[k].world, h.choices(key)[c], i)
      && run[k].world.buckets[h.choices(key)[c]][i].Item?
  }

  ghost predicate NoRoom(h: Hashing, run: seq<State>, key: Key, from: nat, j: nat) {
    forall c: nat, i: nat | c < |h.choices(key)| && i < SLOTS :: SeenFull(h, run, key, c, i, from, j)
  }

  ghost predicate Answered(h: Hashing, run: seq<State>, who: seq<Tid>, t: Tid, op: Ins, i: nat, j: nat)
    requires |run| == |who| + 1
  {
    Published(h, run, who, t, op, i, j) || CouldNotTell(h, run, op.key, i, j) || NoRoom(h, run, op.key, i, j)
  }

  ghost predicate AllSeenFull(h: Hashing, run: seq<State>, key: Key, full: set<(nat, nat)>, from: nat, j: nat) {
    forall c: nat, i: nat | (c, i) in full :: SeenFull(h, run, key, c, i, from, j)
  }

  /** Where an insert that began in state `i` stands in state `j`. */
  ghost predicate Stands(h: Hashing, run: seq<State>, who: seq<Tid>, t: Tid, op: Ins, i: nat, j: nat, pc: Pc)
    requires |run| == |who| + 1
  {
    && (!pc.Idle? ==> pc.op == op)
    && match pc
       case Idle => Answered(h, run, who, t, op, i, j)
       case Scan(_, _, unknown, _, _) => unknown ==> CouldNotTell(h, run, op.key, i, j)
       case Loaded(_, _, unknown, c, m, e) =>
         (unknown ==> CouldNotTell(h, run, op.key, i, j)) && SeenCandidate(h, run, op.key, c, m, e, i, j)
       case Matched(_, _, unknown, _, _, _) => unknown ==> CouldNotTell(h, run, op.key, i, j)
       case WantStripe(_) => true
       case Claiming(_, full) => AllSeenFull(h, run, op.key, full, i, j)
       case ClaimLoaded(_, full, _, _, _) => AllSeenFull(h, run, op.key, full, i, j)
       case Finished(_, _) => Answered(h, run, who, t, op, i, j)
  }

  lemma CouldNotTellStays(h: Hashing, run: seq<State>, key: Key, from: nat, j: nat)
    requires CouldNotTell(h, run, key, from, j)
    ensures CouldNotTell(h, run, key, from, j + 1)
  {
    hide SeenCandidate, Pinnable;
  }

  lemma SeenFullStays(h: Hashing, run: seq<State>, key: Key, c: nat, i: nat, from: nat, j: nat)
    requires SeenFull(h, run, key, c, i, from, j)
    ensures SeenFull(h, run, key, c, i, from, j + 1)
  {
  }

  lemma AllSeenFullStays(h: Hashing, run: seq<State>, key: Key, full: set<(nat, nat)>, from: nat, j: nat)
    requires AllSeenFull(h, run, key, full, from, j)
    ensures AllSeenFull(h, run, key, full, from, j + 1)
  {
    hide SeenFull;
    forall c: nat, i: nat | (c, i) in full ensures SeenFull(h, run, key, c, i, from, j + 1) {
      SeenFullStays(h, run, key, c, i, from, j);
    }
  }

  lemma AnsweredStays(h: Hashing, run: seq<State>, who: seq<Tid>, t: Tid, op: Ins, i: nat, j: nat)
    requires |run| == |who| + 1 && Answered(h, run, who, t, op, i, j)
    ensures Answered(h, run, who, t, op, i, j + 1)
  {
    hide Puts, CouldNotTell, SeenFull;
    if CouldNotTell(h, run, op.key, i, j) { CouldNotTellStays(h, run, op.key, i, j); }
    else if NoRoom(h, run, op.key, i, j) {
      var j' := j + 1;
      forall c: nat, m: nat | c < |h.choices(op.key)| && m < SLOTS ensures SeenFull(h, run, op.key, c, m, i, j') {
        SeenFullStays(h, run, op.key, c, m, i, j);
      }
    }
  }

  lemma StandsStays(h: Hashing, run: seq<State>, who: seq<Tid>, t: Tid, op: Ins, i: nat, j: nat, pc: Pc)
    requires |run| == |who| + 1 && Stands(h, run, who, t, op, i, j, pc)
    ensures Stands(h, run, who, t, op, i, j + 1, pc)
  {
    hide Answered, CouldNotTell, AllSeenFull, Candidate;
    if CouldNotTell(h, run, op.key, i, j) { CouldNotTellStays(h, run, op.key, i, j); }
    if Answered(h, run, who, t, op, i, j) { AnsweredStays(h, run, who, t, op, i, j); }
    if pc.Claiming? || pc.ClaimLoaded? { AllSeenFullStays(h, run, op.key, pc.full, i, j); }
  }

  lemma ScanStands(h: Hashing, run: seq<State>, who: seq<Tid>, t: Tid, op: Ins, i: nat, j: nat)
    requires |run| == |who| + 1 && i <= j && j + 1 < |run| && who[j] == t
    requires t in run[j].threads && run[j].threads[t].Scan?
    requires ScanStep(h, run[j], run[j + 1], t, run[j].threads[t])
    requires Stands(h, run, who, t, op, i, j + 1, run[j].threads[t])
    ensures t in run[j + 1].threads && Stands(h, run, who, t, op, i, j + 1, run[j + 1].threads[t])
  {
    hide CouldNotTell, SeenFull, Published, NoRoom;
    var pc' := run[j + 1].threads[t];
    if pc'.Loaded? {
      assert Candidate(h, run[j].world, op.key, pc'.c, pc'.i, pc'.e);
    }
  }

  lemma VerifyStands(h: Hashing, run: seq<State>, who: seq<Tid>, t: Tid, op: Ins, i: nat, j: nat)
    requires |run| == |who| + 1 && i <= j && j + 1 < |run| && who[j] == t && t in run[j].threads
    requires run[j].threads[t].Loaded? && run[j].threads[t].e.Item?
    requires VerifyStep(h, run[j], run[j + 1], t, run[j].threads[t])
    requires Stands(h, run, who, t, op, i, j, run[j].threads[t])
    requires Stands(h, run, who, t, op, i, j + 1, run[j].threads[t])
    ensures t in run[j + 1].threads && Stands(h, run, who, t, op, i, j + 1, run[j + 1].threads[t])
  {
    hide SeenCandidate;
    var (pc, pc') := (run[j].threads[t], run[j + 1].threads[t]);
    if pc'.Scan? && pc'.unknown && !pc.unknown {
      assert SeenCandidate(h, run, op.key, pc.c, pc.i, pc.e, i, j) && !Pinnable(run[j].world, pc.e.loc);
      assert CouldNotTell(h, run, op.key, i, j + 1);
    }
  }

  lemma PutStands(h: Hashing, run: seq<State>, who: seq<Tid>, t: Tid, op: Ins, i: nat, j: nat)
    requires |run| == |who| + 1 && i <= j && j + 1 < |run| && who[j] == t
    requires t in run[j].threads && Step(h, run[j], run[j + 1], t)
    requires run[j].threads[t].Matched? || run[j].threads[t].ClaimLoaded?
    requires Stands(h, run, who, t, op, i, j + 1, run[j].threads[t])
    ensures t in run[j + 1].threads && Stands(h, run, who, t, op, i, j + 1, run[j + 1].threads[t])
  {
    hide CouldNotTell, SeenFull, NoRoom;
    var (pc, s, s') := (run[j].threads[t], run[j], run[j + 1]);
    if s'.threads[t].Finished? {
      var b := h.choices(op.key)[pc.c];
      assert b in h.choices(op.key) && s'.world.buckets == s.world.buckets[b := s.world.buckets[b][pc.i := New(h, op)]];
      assert Puts(h, s.world, s'.world, op);
    }
  }

  lemma ClaimStands(h: Hashing, run: seq<State>, who: seq<Tid>, t: Tid, op: Ins, i: nat, j: nat)
    requires |run| == |who| + 1 && i <= j && j + 1 < |run| && who[j] == t && t in run[j].threads
    requires run[j].threads[t].Claiming? && Step(h, run[j], run[j + 1], t)
    requires Stands(h, run, who, t, op, i, j + 1, run[j].threads[t])
    ensures t in run[j + 1].threads && Stands(h, run, who, t, op, i, j + 1, run[j + 1].threads[t])
  {
    hide CouldNotTell, Published;
    var (pc, pc') := (run[j].threads[t], run[j + 1].threads[t]);
    if pc'.Claiming? {
      forall c: nat, m: nat | (c, m) in pc'.full ensures SeenFull(h, run, op.key, c, m, i, j + 1) {
        if (c, m) !in pc.full { assert run[j].world.buckets[h.choices(op.key)[c]][m].Item?; }
      }
    }
  }

  /** One step of the insert. */
  lemma StandsStep(h: Hashing, run: seq<State>, who: seq<Tid>, t: Tid, op: Ins, i: nat, j: nat)
    requires RunBy(h, run, who) && i <= j && j + 1 < |run| && t in run[j].threads && !run[j].threads[t].Idle?
    requires Stands(h, run, who, t, op, i, j, run[j].threads[t])
    ensures t in run[j + 1].threads && Stands(h, run, who, t, op, i, j + 1, run[j + 1].threads[t])
  {
    var (s, s', pc) := (run[j], run[j + 1], run[j].threads[t]);
    assert Step(h, s, s', who[j]);
    StandsStays(h, run, who, t, op, i, j, pc);
    StepMovesOne(h, s, s', who[j]);
    if who[j] == t {
      hide Stands, Init;
      if pc.Scan? { ScanStands(h, run, who, t, op, i, j); }
      else if pc.Loaded? { VerifyStands(h, run, who, t, op, i, j); }
      else if pc.Matched? || pc.ClaimLoaded? { PutStands(h, run, who, t, op, i, j); }
      else if pc.Claiming? { ClaimStands(h, run, who, t, op, i, j); }
      else { LockStands(h, run, who, t, op, i, j); }
    }
  }

  lemma LockStands(h: Hashing, run: seq<State>, who: seq<Tid>, t: Tid, op: Ins, i: nat, j: nat)
    requires |run| == |who| + 1 && j + 1 < |run| && t in run[j].threads && Step(h, run[j], run[j + 1], t)
    requires run[j].threads[t].WantStripe? || run[j].threads[t].Finished?
    requires Stands(h, run, who, t, op, i, j + 1, run[j].threads[t])
    ensures t in run[j + 1].threads && Stands(h, run, who, t, op, i, j + 1, run[j + 1].threads[t])
  {
    hide Answered;
  }

  lemma StepMovesOne(h: Hashing, s: State, s': State, t: Tid)
    requires Step(h, s, s', t)
    ensures forall u | u in s.threads :: u in s'.threads && (u != t ==> s'.threads[u] == s.threads[u])
  {
  }

  lemma {:induction false} AttemptStands(h: Hashing, run: seq<State>, who: seq<Tid>, t: Tid, op: Ins, i: nat, j: nat)
    requires RunBy(h, run, who) && i <= j < |run|
    requires forall k | i <= k <= j :: t in run[k].threads && !run[k].threads[t].Idle?
    requires run[i].threads[t] == Scan(op, false, false, 0, 0)
    ensures Stands(h, run, who, t, op, i, j, run[j].threads[t])
    decreases j
  {
    hide Step, Init;
    if i < j {
      hide Stands;
      AttemptStands(h, run, who, t, op, i, j - 1);
      StandsStep(h, run, who, t, op, i, j - 1);
    }
  }

  /**
   * In every run, an insert that a thread begins in state `i` and ends after state
   * `j` has put its entry into a candidate slot in one of its own steps, or a
   * candidate could not be pinned, or every candidate slot was seen to hold a
   * live entry.
   */
  lemma InsertIsAnswered(h: Hashing, run: seq<State>, who: seq<Tid>, t: Tid, op: Ins, i: nat, j: nat)
    requires RunBy(h, run, who) && i <= j && j + 1 < |run|
    requires forall k | i <= k <= j :: t in run[k].threads && !run[k].threads[t].Idle?
    requires run[i].threads[t] == Scan(op, false, false, 0, 0)
    requires t in run[j + 1].threads && run[j + 1].threads[t].Idle?
    ensures || Published(h, run, who, t, op, i, j + 1) || CouldNotTell(h, run, op.key, i, j + 1)
            || NoRoom(h, run, op.key, i, j + 1)
  {
    hide Step, Init, Published, CouldNotTell, NoRoom;
    AttemptStands(h, run, who, t, op, i, j);
    StandsStep(h, run, who, t, op, i, j);
  }

  /** With the slot as it was read, the exchange that publishes the entry can succeed. */
  lemma ExchangeCanSucceed(h: Hashing, s: State, t: Tid)
    requires t in s.threads && (s.threads[t].Matched? || s.threads[t].ClaimLoaded?)
    requires var pc := s.threads[t];
      && pc.c < |h.choices(pc.op.key)| && InRange(s.world, h.choices(pc.op.key)[pc.c], pc.i)
      && s.world.buckets[h.choices(pc.op.key)[pc.c]][pc.i] == pc.e
    ensures exists s' :: Step(h, s, s', t) && Puts(h, s.world, s'.world, s.threads[t].op)
  {
    var pc := s.threads[t];
    var b := h.choices(pc.op.key)[pc.c];
    var s' := s.Put(b, pc.i, New(h, pc.op)).At(t, Finished(pc.op, pc.Locked()));
    assert b in h.choices(pc.op.key);
    assert s'.world.buckets == s.world.buckets[b := s.world.buckets[b][pc.i := New(h, pc.op)]];
    assert Step(h, s, s', t);
  }

  ghost predicate CanGoOn(h: Hashing, s: State, t: Tid)
    requires t in s.threads
  {
    exists s' :: Step(h, s, s', t) && t in s'.threads && s'.threads[t] != s.threads[t]
  }

  lemma ScanGoesOn(h: Hashing, s: State, t: Tid)
    requires Inv(h, s) && t in s.threads && (s.threads[t].Scan? || s.threads[t].Loaded?)
    requires forall b | b in h.choices(s.threads[t].op.key) :: b < |s.world.buckets|
    ensures CanGoOn(h, s, t)
  {
    var pc := s.threads[t];
    assert PcOk(h, s.world, pc);
    if pc.Loaded? {
      var known := pc.e.loc.seg in s.world.gens;
      var pc' := if known && !Pinnable(s.world, pc.e.loc) then Scan(pc.op, pc.locked, true, pc.c, pc.i + 1)
                 else if known && h.keys.at(pc.e.loc) == pc.op.key
                      then Matched(pc.op, pc.locked, pc.unknown, pc.c, pc.i, pc.e)
                 else Scan(pc.op, pc.locked, pc.unknown, pc.c, pc.i + 1);
      assert Step(h, s, s.At(t, pc'), t);
    } else {
      var choices := h.choices(pc.op.key);
      var pc' :=
        if pc.c >= |choices| then
          if pc.unknown then Finished(pc.op, pc.locked)
          else if pc.locked then Claiming(pc.op, {}) else WantStripe(pc.op)
        else if pc.i >= SLOTS then Scan(pc.op, pc.locked, pc.unknown, pc.c + 1, 0)
        else
          assert choices[pc.c] in choices;
          var e := s.world.buckets[choices[pc.c]][pc.i];
          if e.Item? && e.tag == h.keys.tag(pc.op.key) then Loaded(pc.op, pc.locked, pc.unknown, pc.c, pc.i, e)
          else Scan(pc.op, pc.locked, pc.unknown, pc.c, pc.i + 1);
      assert Step(h, s, s.At(t, pc'), t);
    }
  }

  lemma ClaimGoesOn(h: Hashing, s: State, t: Tid)
    requires Inv(h, s) && t in s.threads && s.threads[t].Claiming?
    requires forall b | b in h.choices(s.threads[t].op.key) :: b < |s.world.buckets|
    ensures CanGoOn(h, s, t)
  {
    var Claiming(op, full) := s.threads[t];
    var choices := h.choices(op.key);
    if AllFull(h, op.key, full) {
      assert Step(h, s, s.At(t, Finished(op, true)), t);
    } else {
      var c: nat, i: nat :| c < |choices| && i < SLOTS && (c, i) !in full;
      assert choices[c] in choices;
      assert InRange(s.world, choices[c], i);
      var e := s.world.buckets[choices[c]][i];
      var pc' := if e.Item? then Claiming(op, full + {(c, i)}) else ClaimLoaded(op, full, c, i, e);
      assert Step(h, s, s.At(t, pc'), t);
      if e.Item? { assert (c, i) in pc'.full; }
    }
  }

  /** A thread in the middle of an insert can go on unless it waits for its stripe. */
  lemma InsertGoesOn(h: Hashing, s: State, t: Tid)
    requires Inv(h, s) && t in s.threads && !s.threads[t].Idle?
    requires s.threads[t].WantStripe? ==> h.stripe(s.threads[t].op.key) !in s.stripes
    requires forall b | b in h.choices(s.threads[t].op.key) :: b < |s.world.buckets|
    ensures CanGoOn(h, s, t)
  {
    match s.threads[t]
    case Scan(_, _, _, _, _) => ScanGoesOn(h, s, t);
    case Loaded(_, _, _, _, _, _) => ScanGoesOn(h, s, t);
    case Claiming(_, _) => ClaimGoesOn(h, s, t);
    case Matched(op, locked, unknown, c, i, _) => assert Step(h, s, s.At(t, Scan(op, locked, unknown, c, i)), t);
    case ClaimLoaded(op, full, _, _, _) => assert Step(h, s, s.At(t, Claiming(op, full)), t);
    case WantStripe(op) =>
      assert Step(h, s, s.(stripes := s.stripes[h.stripe(op.key) := t]).At(t, Scan(op, true, false, 0, 0)), t);
    case Finished(op, locked) =>
      assert Step(h, s, (if locked then s.(stripes := s.stripes - {h.stripe(op.key)}) else s).At(t, Idle), t);
  }
}
