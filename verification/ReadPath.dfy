/**
 * Lookups, gets and deletes of one key against an environment that may publish,
 * replace, relocate, delete, drain and recycle before every single access. It
 * takes any number of steps in between, each recorded in the trace; what a step
 * may do is stated once, in `EnvStep`.
 */
module ReadPath {
  import opened Wrappers
  import opened TinyItem

  type Seg = nat
  type Tag = nat

  const SLOTS := 8
  const REVALIDATE_RETRIES := 16

  /** An item's place: its segment, the incarnation of the segment, and its offset. */
  datatype Loc = Loc(seg: Seg, gen: nat, off: nat)

  datatype Entry = Empty | Ghost(tag: Tag) | Item(tag: Tag, loc: Loc)

  /** The distinct candidate buckets of the key, and the state of the segments. */
  datatype World = World(buckets: seq<seq<Entry>>, gens: map<Seg, nat>,
                         readable: set<Seg>, removable: set<Seg>, expired: set<Seg>)

  datatype Verified = Match | DifferentKey | Unverified

  datatype Lookup = Found(loc: Loc, bucket: nat, slot: nat) | Absent | Unknown(loc: Loc)

  /** `Waiting` stands for a call that is still retrying when the patience runs out. */
  datatype Got = Hit(loc: Loc) | Miss | Waiting

  /** The outcome of following a key that was republished. */
  datatype Step = Done(r: Got) | Retry(loc: Loc) | Follow(loc: Loc)

  datatype Deleted = Ack(removed: bool) | Retrying

  /**
   * One pass of a delete: nothing to remove, an entry found that could no longer
   * be unlinked under its remover pin, unlinked under it, unlinked without one
   * and then seen gone, unlinked without that confirmation, or no progress.
   */
  datatype Pass = NotFound | Overtaken | Removed | Confirmed | Landed | Again

  /** An append-only incarnation: what a location holds never changes. */
  datatype Keys = Keys(at: Loc -> Key, tag: Key -> Tag)

  predicate WorldOk(k: Keys, w: World) {
    && w.buckets != []
    && (forall b | 0 <= b < |w.buckets| :: |w.buckets[b]| == SLOTS)
    && forall b, i | 0 <= b < |w.buckets| && 0 <= i < SLOTS :: EntryOk(k, w, w.buckets[b][i])
  }

  /** A published entry carries the tag of its key and names a segment of the heap. */
  predicate EntryOk(k: Keys, w: World, e: Entry) {
    e.Item? ==> e.tag == k.tag(k.at(e.loc)) && e.loc.seg in w.gens
  }

  /** Over any span of time generations only grow, and a segment pinned throughout keeps its own. */
  predicate Rely(k: Keys, w: World, w': World, pins: multiset<Seg>, removers: multiset<Seg>) {
    && WorldOk(k, w') && |w'.buckets| == |w.buckets| && w'.gens.Keys == w.gens.Keys
    && forall s | s in w.gens :: w.gens[s] <= w'.gens[s] && (s in pins || s in removers ==> w'.gens[s] == w.gens[s])
  }

  /** Two spans of time make one; what was pinned in both was pinned throughout. */
  lemma RelyChain(k: Keys, w: World, w': World, w'': World, pins: multiset<Seg>, p: multiset<Seg>, p': multiset<Seg>,
                  removers: multiset<Seg>)
    requires Rely(k, w, w', p, removers) && Rely(k, w', w'', p', removers)
    requires forall s | s in pins :: s in p && s in p'
    ensures Rely(k, w, w'', pins, removers)
  {
  }

  lemma PinnedStays(k: Keys, w: World, w': World, pins: multiset<Seg>, removers: multiset<Seg>, loc: Loc)
    requires Rely(k, w, w', pins, removers) && loc.seg in w.gens
    ensures loc.seg in w'.gens
    ensures (loc.seg in pins || loc.seg in removers) && w.gens[loc.seg] == loc.gen ==> w'.gens[loc.seg] == loc.gen
  {
  }

  // ----- What the environment may do -----

  predicate InRange(w: World, b: nat, i: nat) { b < |w.buckets| && i < |w.buckets[b]| }

  predicate HoldsKey(k: Keys, w: World, b: nat, i: nat, key: Key) {
    InRange(w, b, i) && w.buckets[b][i].Item? && k.at(w.buckets[b][i].loc) == key
  }

  predicate KeyAbsent(k: Keys, w: World, key: Key) {
    forall b, i | 0 <= b < |w.buckets| && 0 <= i < |w.buckets[b]| :: !HoldsKey(k, w, b, i, key)
  }

  /**
   * One slot is exchanged. An entry takes the place of one of its own key, or is
   * created while its key has none.
   */
  predicate Exchanges(k: Keys, w: World, w': World, b: nat, i: nat) {
    && InRange(w, b, i) && |w'.buckets| == |w.buckets| && InRange(w', b, i)
    && var e := w'.buckets[b][i];
       && w'.buckets == w.buckets[b := w.buckets[b][i := e]]
       && (e.Item? ==> HoldsKey(k, w, b, i, k.at(e.loc)) || KeyAbsent(k, w, k.at(e.loc)))
  }

  predicate EnvStep(k: Keys, w: World, w': World, pins: multiset<Seg>, removers: multiset<Seg>) {
    && Rely(k, w, w', pins, removers)
    && (w'.buckets == w.buckets || exists b, i | 0 <= b < |w.buckets| && 0 <= i < SLOTS :: Exchanges(k, w, w', b, i))
  }

  predicate EnvRun(k: Keys, w: World, ws: seq<World>, pins: multiset<Seg>, removers: multiset<Seg>) {
    && ws != []
    && var n := |ws| - 1;
       if n == 0 then EnvStep(k, w, ws[0], pins, removers)
       else EnvRun(k, w, ws[..n], pins, removers) && EnvStep(k, ws[n - 1], ws[n], pins, removers)
  }

  /** No key has two entries. */
  ghost predicate Unique(k: Keys, w: World) {
    forall key, b, i, c, j | HoldsKey(k, w, b, i, key) && HoldsKey(k, w, c, j, key) :: b == c && i == j
  }

  /** From one state to the next the entry of the key left its slot, and turned up in another. */
  ghost predicate Hops(k: Keys, w: World, w': World, key: Key) {
    !KeyAbsent(k, w', key) && exists b, i :: HoldsKey(k, w, b, i, key) && !HoldsKey(k, w', b, i, key)
  }

  ghost predicate NoneHops(k: Keys, w: World, w': World) { forall key :: !Hops(k, w, w', key) }

  /** In no state of the trace does a key have two entries, and in no step does an entry hop. */
  ghost predicate Steady(k: Keys, tr: seq<World>) {
    && (forall j | 0 <= j < |tr| :: Unique(k, tr[j]))
    && forall j, j' | 0 <= j && j' == j + 1 < |tr| :: NoneHops(k, tr[j], tr[j'])
  }

  lemma OtherSlotKept(k: Keys, w: World, w': World, b: nat, i: nat, c: nat, j: nat, key: Key)
    requires Exchanges(k, w, w', b, i) && (c != b || j != i)
    ensures HoldsKey(k, w', c, j, key) == HoldsKey(k, w, c, j, key)
  {
  }

  /** An exchange gives no key a second entry. */
  lemma ExchangeIsUnique(k: Keys, w: World, w': World, b: nat, i: nat, c: nat, j: nat, d: nat, m: nat, key: Key)
    requires Unique(k, w) && Exchanges(k, w, w', b, i)
    requires HoldsKey(k, w', c, j, key) && HoldsKey(k, w', d, m, key)
    ensures c == d && j == m
  {
    if c != b || j != i { OtherSlotKept(k, w, w', b, i, c, j, key); }
    if d != b || m != i { OtherSlotKept(k, w, w', b, i, d, m, key); }
  }

  lemma ExchangeIsSteady(k: Keys, w: World, w': World, b: nat, i: nat)
    requires Unique(k, w) && Exchanges(k, w, w', b, i)
    ensures Unique(k, w') && NoneHops(k, w, w')
  {
    forall key, c: nat, j: nat, d: nat, m: nat | HoldsKey(k, w', c, j, key) && HoldsKey(k, w', d, m, key)
      ensures c == d && j == m
    {
      ExchangeIsUnique(k, w, w', b, i, c, j, d, m, key);
    }
    forall key ensures !Hops(k, w, w', key) {
      if Hops(k, w, w', key) {
        var c: nat, j: nat :| HoldsKey(k, w, c, j, key) && !HoldsKey(k, w', c, j, key);
        var d: nat, m: nat :| HoldsKey(k, w', d, m, key);
        if c != b || j != i { OtherSlotKept(k, w, w', b, i, c, j, key); }
        if d != b || m != i { OtherSlotKept(k, w, w', b, i, d, m, key); }
      }
    }
  }

  lemma SteadyExtends(k: Keys, tr: seq<World>, w': World)
    requires tr != [] && Steady(k, tr) && Unique(k, w') && NoneHops(k, tr[|tr| - 1], w')
    ensures Steady(k, tr + [w'])
  {
    hide Unique, NoneHops;
    var longer := tr + [w'];
    forall j, j' | 0 <= j && j' == j + 1 < |longer| ensures NoneHops(k, longer[j], longer[j']) {
      if j' < |tr| { assert NoneHops(k, tr[j], tr[j']); }
    }
  }

  lemma StepIsSteady(k: Keys, w: World, w': World, pins: multiset<Seg>, removers: multiset<Seg>)
    requires WorldOk(k, w) && Unique(k, w) && EnvStep(k, w, w', pins, removers)
    ensures Unique(k, w') && NoneHops(k, w, w')
  {
    if w'.buckets == w.buckets {
      assert forall key, b, i :: HoldsKey(k, w', b, i, key) == HoldsKey(k, w, b, i, key);
    } else {
      var b, i :| 0 <= b < |w.buckets| && 0 <= i < SLOTS && Exchanges(k, w, w', b, i);
      ExchangeIsSteady(k, w, w', b, i);
    }
  }

  /** What the environment's steps come to. */
  lemma {:induction false} RunRelies(k: Keys, tr: seq<World>, ws: seq<World>, pins: multiset<Seg>,
                                     removers: multiset<Seg>)
    requires tr != [] && WorldOk(k, tr[|tr| - 1]) && Steady(k, tr) && EnvRun(k, tr[|tr| - 1], ws, pins, removers)
    ensures Rely(k, tr[|tr| - 1], ws[|ws| - 1], pins, removers) && Steady(k, tr + ws)
    decreases |ws|
  {
    hide WorldOk, Unique, NoneHops, Rely;
    var w, n := tr[|tr| - 1], |ws| - 1;
    if n > 0 {
      var less := ws[..n];
      RunRelies(k, tr, less, pins, removers);
      RelyWorldOk(k, w, less[n - 1], pins, removers);
      assert Unique(k, (tr + less)[|tr + less| - 1]);
      StepIsSteady(k, less[n - 1], ws[n], pins, removers);
      SteadyExtends(k, tr + less, ws[n]);
      assert tr + ws == (tr + less) + [ws[n]];
      RelyChain(k, w, less[n - 1], ws[n], pins, pins, pins, removers);
    } else {
      StepIsSteady(k, w, ws[0], pins, removers);
      SteadyExtends(k, tr, ws[0]);
      assert ws == [ws[0]];
    }
  }

  lemma RelyWorldOk(k: Keys, w: World, w': World, pins: multiset<Seg>, removers: multiset<Seg>)
    requires Rely(k, w, w', pins, removers)
    ensures WorldOk(k, w')
  {
  }

  // ----- What a call has seen -----

  ghost predicate Publishes(w: World, b: nat, i: nat, loc: Loc) {
    InRange(w, b, i) && w.buckets[b][i].Item? && w.buckets[b][i].loc == loc
  }

  /** Since `from` there was an instant when slot `i` of bucket `b` did not hold the key. */
  ghost predicate SlotWithout(k: Keys, tr: seq<World>, from: nat, b: nat, i: nat, key: Key) {
    exists j :: from <= j < |tr| && !HoldsKey(k, tr[j], b, i, key)
  }

  ghost predicate BucketWithout(k: Keys, tr: seq<World>, from: nat, b: nat, key: Key) {
    forall i | 0 <= i < SLOTS :: SlotWithout(k, tr, from, b, i, key)
  }

  /** Since `from` every candidate slot was seen not to hold the key. */
  ghost predicate SeenAbsent(k: Keys, tr: seq<World>, from: nat, key: Key) {
    tr != [] && forall b | 0 <= b < |tr[|tr| - 1].buckets| :: BucketWithout(k, tr, from, b, key)
  }

  ghost predicate SeenIn(tr: seq<World>, from: nat, b: nat, i: nat, loc: Loc) {
    exists j :: from <= j < |tr| && Publishes(tr[j], b, i, loc)
  }

  ghost predicate SeenPublished(tr: seq<World>, from: nat, loc: Loc) {
    exists j, b, i :: from <= j < |tr| && Publishes(tr[j], b, i, loc)
  }

  /** The segment of `loc` can be pinned in the incarnation `loc` names. */
  ghost predicate Pinnable(w: World, loc: Loc) {
    loc.seg in w.readable && loc.seg in w.gens && w.gens[loc.seg] == loc.gen
  }

  /** At an instant since `from`, and no later than `upto`, `loc` was pinned. */
  ghost predicate SeenPinned(tr: seq<World>, from: nat, upto: nat, loc: Loc) {
    exists j :: from <= j < upto <= |tr| && Pinnable(tr[j], loc)
  }

  /** Since `from`, `loc` was pinned and after that still published. */
  ghost predicate SeenFresh(tr: seq<World>, from: nat, loc: Loc) {
    exists j :: from <= j < |tr| && Pinnable(tr[j], loc) && SeenPublished(tr, j + 1, loc)
  }

  /** Since `from`, `loc` was pinned, and after that its segment was seen not to have expired. */
  ghost predicate SeenUsable(tr: seq<World>, from: nat, loc: Loc) {
    exists j, m :: from <= j <= m < |tr| && Pinnable(tr[j], loc) && loc.seg !in tr[m].expired
  }

  /** Throughout, since `from`, slot `i` of bucket `b` publishes `loc`, which can be pinned and has not expired. */
  ghost predicate AvailableAt(tr: seq<World>, from: nat, b: nat, i: nat, loc: Loc) {
    forall j | from <= j < |tr| :: Publishes(tr[j], b, i, loc) && Pinnable(tr[j], loc) && loc.seg !in tr[j].expired
  }

  /** Throughout, since `from`, the key has one and the same entry, which can be pinned and has not expired. */
  ghost predicate Available(k: Keys, tr: seq<World>, from: nat, key: Key) {
    exists b: nat, i: nat, loc: Loc :: k.at(loc) == key && AvailableAt(tr, from, b, i, loc)
  }

  /** No entry of the key is available in the slot. */
  ghost predicate SlotUnavailable(k: Keys, tr: seq<World>, from: nat, b: nat, i: nat, key: Key) {
    forall loc: Loc | k.at(loc) == key :: !AvailableAt(tr, from, b, i, loc)
  }

  /**
   * Since `c` the key had no entry at an instant, or a location published since
   * `from` had lost its incarnation, or the key was found at a location other
   * than one it had been found at since `from`.
   */
  ghost predicate ChargeSpan(k: Keys, tr: seq<World>, from: nat, c: nat, key: Key) {
    || AbsentOnce(k, tr, c, key)
    || (exists m, loc: Loc :: c <= m < |tr| && StaleAt(tr, from, m, loc))
    || (exists loc: Loc, next: Loc :: MovedSince(k, tr, from, c, loc, next, key))
  }

  ghost predicate StaleAt(tr: seq<World>, from: nat, m: nat, loc: Loc)
    requires m < |tr|
  {
    SeenPublished(tr, from, loc) && loc.seg in tr[m].gens && tr[m].gens[loc.seg] != loc.gen
  }

  ghost predicate MovedSince(k: Keys, tr: seq<World>, from: nat, c: nat, loc: Loc, next: Loc, key: Key) {
    && loc != next && k.at(loc) == key && k.at(next) == key
    && SeenPublished(tr, from, loc) && SeenPublished(tr, c, next)
  }

  /** Since `from` there were `n` spans, one after the other, each with a reason to charge a retry. */
  ghost predicate Spent(k: Keys, tr: seq<World>, from: nat, n: nat, key: Key)
    decreases n
  {
    n == 0 || exists c :: from <= c <= |tr| && Spent(k, tr[..c], from, n - 1, key) && ChargeSpan(k, tr, from, c, key)
  }

  /** Since `from` an entry of the key was found, and after that its segment was seen expired. */
  ghost predicate SeenExpired(k: Keys, tr: seq<World>, from: nat, key: Key) {
    exists j, m, loc: Loc :: from <= j <= m < |tr| && ExpiredAt(k, tr, j, m, loc, key)
  }

  ghost predicate ExpiredAt(k: Keys, tr: seq<World>, j: nat, m: nat, loc: Loc, key: Key)
    requires j <= m < |tr|
  {
    k.at(loc) == key && PublishedAt(tr[j], loc) && loc.seg in tr[m].expired
  }

  /** Between `from` and `upto` an entry publishing `loc` was emptied. */
  ghost predicate Unlinks(tr: seq<World>, from: nat, upto: nat, loc: Loc) {
    exists j, b, i :: from <= j < upto - 1 && upto <= |tr| && Publishes(tr[j], b, i, loc) && Emptied(tr[j + 1], b, i)
  }

  ghost predicate Emptied(w: World, b: nat, i: nat) { InRange(w, b, i) && w.buckets[b][i].Empty? }

  ghost predicate EmptiesAt(tr: seq<World>, n: nat, loc: Loc)
    requires n + 1 < |tr|
  {
    exists b, i :: Publishes(tr[n], b, i, loc) && Emptied(tr[n + 1], b, i)
  }

  /** In this order: published, generation `g`, not expired. */
  ghost predicate LiveAt(tr: seq<World>, f: nat, q: nat, m: nat, loc: Loc, g: nat)
    requires f <= q <= m < |tr|
  {
    PublishedAt(tr[f], loc) && loc.seg in tr[q].gens && tr[q].gens[loc.seg] == g && loc.seg !in tr[m].expired
  }

  ghost predicate SeenLive(tr: seq<World>, from: nat, loc: Loc, g: nat) {
    exists f, q, m :: from <= f <= q <= m < |tr| && LiveAt(tr, f, q, m, loc, g)
  }

  /**
   * The segment grants a remover pin in state `p`; or it refused one in state `a`,
   * and in state `p` it is still of generation `g`.
   */
  ghost predicate MayUnlink(tr: seq<World>, a: nat, p: nat, loc: Loc, g: nat)
    requires a <= p < |tr|
  {
    || loc.seg in tr[p].removable
    || (loc.seg !in tr[a].removable && loc.seg in tr[p].gens && tr[p].gens[loc.seg] == g)
  }

  /**
   * Between `from` and `upto`, in this order: `loc` was published, its segment had
   * not expired, the segment granted a remover pin, or refused it and was still of
   * the generation it had before, and the entry was emptied.
   */
  ghost predicate TakesLive(tr: seq<World>, from: nat, upto: nat, loc: Loc) {
    exists t: nat, a: nat, p: nat, n: nat, g: nat :: TakenAt(tr, from, upto, loc, t, a, p, n, g)
  }

  ghost predicate TakenAt(tr: seq<World>, from: nat, upto: nat, loc: Loc, t: nat, a: nat, p: nat, n: nat, g: nat) {
    && t <= a <= p <= n && n + 1 < upto <= |tr| && SeenLive(tr[..t], from, loc, g)
    && MayUnlink(tr, a, p, loc, g) && EmptiesAt(tr, n, loc)
  }

  ghost predicate SlotWithoutLoc(tr: seq<World>, from: nat, b: nat, i: nat, loc: Loc) {
    exists j :: from <= j < |tr| && !Publishes(tr[j], b, i, loc)
  }

  /** Since `from` every candidate slot was seen not to publish `loc`. */
  ghost predicate SeenUnlinked(tr: seq<World>, from: nat, loc: Loc) {
    tr != [] && forall b, i | 0 <= b < |tr[|tr| - 1].buckets| && 0 <= i < SLOTS :: SlotWithoutLoc(tr, from, b, i, loc)
  }

  /** Since `from` there was an instant when the key had no entry. */
  ghost predicate AbsentOnce(k: Keys, tr: seq<World>, from: nat, key: Key) {
    exists j :: from <= j < |tr| && KeyAbsent(k, tr[j], key)
  }

  /** Since `from` the key had no entry at an instant, or one was found whose segment was then seen expired. */
  ghost predicate SeenGone(k: Keys, tr: seq<World>, from: nat, key: Key) {
    AbsentOnce(k, tr, from, key) || SeenExpired(k, tr, from, key)
  }

  ghost predicate PublishedAt(w: World, loc: Loc) { exists b, i :: Publishes(w, b, i, loc) }

  /**
   * Since `from` an entry of the key was published, its segment granted a remover
   * pin after that, and after that every candidate slot was seen without it.
   */
  ghost predicate SeenOvertaken(k: Keys, tr: seq<World>, from: nat, key: Key) {
    exists j, m, loc: Loc :: from <= j < m < |tr| && OvertakenAt(k, tr, j, m, loc, key)
  }

  ghost predicate OvertakenAt(k: Keys, tr: seq<World>, j: nat, m: nat, loc: Loc, key: Key)
    requires j < m < |tr|
  {
    k.at(loc) == key && PublishedAt(tr[j], loc) && loc.seg in tr[m].removable && SeenUnlinked(tr, m + 1, loc)
  }

  /** In this step the entry of the key was replaced in its slot by one at another location. */
  ghost predicate Replaced(k: Keys, w: World, w': World, key: Key) {
    exists b: nat, i: nat ::
      && HoldsKey(k, w, b, i, key) && HoldsKey(k, w', b, i, key)
      && w'.buckets[b][i].loc != w.buckets[b][i].loc
  }

  ghost predicate ReplacedOnce(k: Keys, tr: seq<World>, from: nat, key: Key) {
    exists n, n' :: from <= n && n' == n + 1 < |tr| && Replaced(k, tr[n], tr[n'], key)
  }

  /** Since `from` there was an instant when the entry of the key lay in an expired segment. */
  ghost predicate ExpiredOnce(k: Keys, tr: seq<World>, from: nat, key: Key) {
    exists m :: from <= m < |tr| && ExpiredEntry(k, tr[m], key)
  }

  ghost predicate ExpiredEntry(k: Keys, w: World, key: Key) {
    exists b: nat, i: nat :: HoldsKey(k, w, b, i, key) && w.buckets[b][i].loc.seg in w.expired
  }

  /**
   * Since `from` the key was without an entry at an instant, or had it in an
   * expired segment at an instant, or its entry was replaced in place.
   */
  ghost predicate Excused(k: Keys, tr: seq<World>, from: nat, key: Key) {
    AbsentOnce(k, tr, from, key) || ExpiredOnce(k, tr, from, key) || ReplacedOnce(k, tr, from, key)
  }

  lemma {:induction false} EntryStaysPut(k: Keys, tr: seq<World>, from: nat, upto: nat, b: nat, i: nat, key: Key)
    requires from <= upto < |tr| && HoldsKey(k, tr[from], b, i, key)
    requires Steady(k, tr) && forall j | from <= j <= upto :: !KeyAbsent(k, tr[j], key)
    ensures forall j | from <= j <= upto :: HoldsKey(k, tr[j], b, i, key)
    decreases upto
  {
    if from < upto {
      EntryStaysPut(k, tr, from, upto - 1, b, i, key);
      var j := upto - 1;
      assert NoneHops(k, tr[j], tr[upto]) && !Hops(k, tr[j], tr[upto], key);
      assert HoldsKey(k, tr[j], b, i, key);
    }
  }

  /** A key seen absent slot by slot was absent at one instant. */
  lemma AbsentAtAnInstant(k: Keys, tr: seq<World>, from: nat, key: Key)
    requires from < |tr| && WorldOk(k, tr[|tr| - 1]) && Steady(k, tr) && SeenAbsent(k, tr, from, key)
    ensures AbsentOnce(k, tr, from, key)
  {
    hide Steady;
    if forall j | from <= j < |tr| :: !KeyAbsent(k, tr[j], key) {
      var b, i :| HoldsKey(k, tr[from], b, i, key);
      EntryStaysPut(k, tr, from, |tr| - 1, b, i, key);
      HeldIsNotAbsent(k, tr, from, b, i, key);
    }
  }

  lemma HeldIsNotAbsent(k: Keys, tr: seq<World>, from: nat, b: nat, i: nat, key: Key)
    requires from < |tr| && WorldOk(k, tr[|tr| - 1]) && forall j | from <= j < |tr| :: HoldsKey(k, tr[j], b, i, key)
    ensures !SeenAbsent(k, tr, from, key)
  {
    assert HoldsKey(k, tr[|tr| - 1], b, i, key);
    assert !SlotWithout(k, tr, from, b, i, key);
    assert !BucketWithout(k, tr, from, b, key);
  }

  /**
   * A delete that loses the entry it has found loses it to somebody else: since
   * then the key had no entry at an instant, or its entry was replaced in place.
   */
  lemma OvertakenByOthers(k: Keys, tr: seq<World>, from: nat, key: Key)
    requires tr != [] && WorldOk(k, tr[|tr| - 1]) && Steady(k, tr) && SeenOvertaken(k, tr, from, key)
    ensures AbsentOnce(k, tr, from, key) || ReplacedOnce(k, tr, from, key)
  {
    hide Steady;
    if !AbsentOnce(k, tr, from, key) && !ReplacedOnce(k, tr, from, key) {
      var j, m, loc: Loc :| from <= j < m < |tr| && OvertakenAt(k, tr, j, m, loc, key);
      var b, i :| Publishes(tr[j], b, i, loc);
      assert HoldsKey(k, tr[j], b, i, key);
      EntryStaysPut(k, tr, j, |tr| - 1, b, i, key);
      LocStaysPut(k, tr, j, |tr| - 1, b, i, loc, key);
      LocIsNotOvertaken(k, tr, j, m, b, i, loc, key);
    }
  }

  /**
   * An entry found and then seen expired: since it was found the key had no entry
   * at an instant, or had it in an expired segment at an instant, or its entry
   * was replaced in place before the segment expired.
   */
  lemma ExpiredOrReplaced(k: Keys, tr: seq<World>, from: nat, key: Key)
    requires Steady(k, tr) && SeenExpired(k, tr, from, key)
    ensures Excused(k, tr, from, key)
  {
    hide Steady;
    if !AbsentOnce(k, tr, from, key) && !ReplacedOnce(k, tr, from, key) {
      var j, m, loc: Loc :| from <= j <= m < |tr| && ExpiredAt(k, tr, j, m, loc, key);
      var b, i :| Publishes(tr[j], b, i, loc);
      assert HoldsKey(k, tr[j], b, i, key);
      EntryStaysPut(k, tr, j, m, b, i, key);
      LocStaysPut(k, tr, j, m, b, i, loc, key);
      assert Publishes(tr[m], b, i, loc) && ExpiredEntry(k, tr[m], key);
    }
  }

  lemma LocIsNotOvertaken(k: Keys, tr: seq<World>, j: nat, m: nat, b: nat, i: nat, loc: Loc, key: Key)
    requires j < m < |tr| && WorldOk(k, tr[|tr| - 1]) && forall n | j <= n < |tr| :: Publishes(tr[n], b, i, loc)
    ensures !OvertakenAt(k, tr, j, m, loc, key)
  {
    assert Publishes(tr[|tr| - 1], b, i, loc);
    assert !SlotWithoutLoc(tr, m + 1, b, i, loc);
  }

  lemma {:induction false} LocStaysPut(k: Keys, tr: seq<World>, from: nat, upto: nat, b: nat, i: nat, loc: Loc,
                                       key: Key)
    requires from <= upto < |tr| && Publishes(tr[from], b, i, loc)
    requires forall j | from <= j <= upto :: HoldsKey(k, tr[j], b, i, key)
    requires forall n, n' | from <= n && n' == n + 1 <= upto :: !Replaced(k, tr[n], tr[n'], key)
    ensures forall j | from <= j <= upto :: Publishes(tr[j], b, i, loc)
    decreases upto
  {
    if from < upto {
      LocStaysPut(k, tr, from, upto - 1, b, i, loc, key);
      var j := upto - 1;
      assert HoldsKey(k, tr[j], b, i, key) && HoldsKey(k, tr[upto], b, i, key) && !Replaced(k, tr[j], tr[upto], key);
    }
  }

  function OneEntry(loc: Loc): (bucket: seq<Entry>)
    ensures |bucket| == SLOTS && bucket[0] == Item(0, loc) && forall i | 1 <= i < SLOTS :: bucket[i] == Empty
  {
    [Item(0, loc)] + seq(SLOTS - 1, i => Empty)
  }

  function TwoSegments(loc: Loc): World { World([OneEntry(loc)], map[0 := 0, 1 := 0], {0, 1}, {0, 1}, {}) }

  /**
   * Being overtaken is real, and a delete then answers false for a live key: the
   * entry it has found is replaced in place before its segment grants the remover
   * pin. The key has an entry in every state, and nothing expires.
   */
  lemma OvertakenWhileLive(key: Key) returns (k: Keys, tr: seq<World>)
    ensures |tr| == 3 && WorldOk(k, tr[0]) && Unique(k, tr[0])
    ensures forall n, n' | 0 <= n && n' == n + 1 < 3 :: EnvStep(k, tr[n], tr[n'], multiset{}, multiset{})
    ensures SeenOvertaken(k, tr, 0, key)
    ensures (forall n | 0 <= n < 3 :: HoldsKey(k, tr[n], 0, 0, key)) && !SeenGone(k, tr, 0, key)
  {
    k := Keys(l => key, x => 0);
    var found, republished := Loc(0, 0, 0), Loc(1, 0, 0);
    var w, w' := TwoSegments(found), TwoSegments(republished);
    tr := [w, w', w'];
    assert OneEntry(republished) == OneEntry(found)[0 := Item(0, republished)];
    assert Exchanges(k, w, w', 0, 0);
    assert Publishes(w, 0, 0, found);
    forall b, i | 0 <= b < |w'.buckets| && 0 <= i < SLOTS ensures SlotWithoutLoc(tr, 2, b, i, found) {
      assert !Publishes(tr[2], b, i, found);
    }
    assert OvertakenAt(k, tr, 0, 1, found, key);
    forall n | 0 <= n < 3 ensures HoldsKey(k, tr[n], 0, 0, key) && tr[n].expired == {} {
    }
  }

  /**
   * So is the other way to miss a live key: the entry found is replaced in place,
   * and the segment it lay in expires before it is asked. In every state the key
   * has an entry, in a segment that has not expired.
   */
  lemma ExpiredWhileLive(key: Key) returns (k: Keys, tr: seq<World>)
    ensures |tr| == 3 && WorldOk(k, tr[0]) && Unique(k, tr[0])
    ensures forall n, n' | 0 <= n && n' == n + 1 < 3 :: EnvStep(k, tr[n], tr[n'], multiset{}, multiset{})
    ensures SeenExpired(k, tr, 0, key)
    ensures forall n | 0 <= n < 3 ::
              HoldsKey(k, tr[n], 0, 0, key) && tr[n].buckets[0][0].loc.seg !in tr[n].expired
    ensures !AbsentOnce(k, tr, 0, key) && !ExpiredOnce(k, tr, 0, key)
  {
    k := Keys(l => key, x => 0);
    var found, republished := Loc(0, 0, 0), Loc(1, 0, 0);
    var w, w' := TwoSegments(found), TwoSegments(republished);
    tr := [w, w', w'.(expired := {0})];
    assert OneEntry(republished) == OneEntry(found)[0 := Item(0, republished)];
    assert Exchanges(k, w, w', 0, 0);
    assert Publishes(w, 0, 0, found);
    assert ExpiredAt(k, tr, 0, 2, found, key);
    forall n | 0 <= n < 3 ensures HoldsKey(k, tr[n], 0, 0, key) && !ExpiredEntry(k, tr[n], key) {
    }
  }

  lemma AvailableIsOne(k: Keys, tr: seq<World>, from: nat, b: nat, i: nat, loc: Loc, j: nat, c: nat, d: nat, seen: Loc,
                       key: Key)
    requires AvailableAt(tr, from, b, i, loc) && k.at(loc) == key && Steady(k, tr)
    requires from <= j < |tr| && Publishes(tr[j], c, d, seen) && k.at(seen) == key
    ensures b == c && i == d && loc == seen
  {
    assert Unique(k, tr[j]);
    assert HoldsKey(k, tr[j], b, i, key) && HoldsKey(k, tr[j], c, d, key);
  }

  lemma UnavailableStays(tr: seq<World>, tr': seq<World>, from: nat, from': nat, b: nat, i: nat, loc: Loc)
    requires tr <= tr' && from' <= from && !AvailableAt(tr, from, b, i, loc)
    ensures !AvailableAt(tr', from', b, i, loc)
  {
    var j :| from <= j < |tr| &&
      !(Publishes(tr[j], b, i, loc) && Pinnable(tr[j], loc) && loc.seg !in tr[j].expired);
    assert tr'[j] == tr[j];
  }

  lemma SlotUnavailableStays(k: Keys, tr: seq<World>, tr': seq<World>, from: nat, from': nat, b: nat, i: nat, key: Key)
    requires tr <= tr' && from' <= from && SlotUnavailable(k, tr, from, b, i, key)
    ensures SlotUnavailable(k, tr', from', b, i, key)
  {
    hide AvailableAt;
    forall loc: Loc | k.at(loc) == key ensures !AvailableAt(tr', from', b, i, loc) {
      UnavailableStays(tr, tr', from, from', b, i, loc);
    }
  }

  lemma NotAvailableStays(k: Keys, tr: seq<World>, tr': seq<World>, from: nat, from': nat, key: Key)
    requires tr <= tr' && from' <= from && !Available(k, tr, from, key)
    ensures !Available(k, tr', from', key)
  {
    hide AvailableAt;
    forall b: nat, i: nat, loc: Loc | k.at(loc) == key ensures !AvailableAt(tr', from', b, i, loc) {
      UnavailableStays(tr, tr', from, from', b, i, loc);
    }
  }

  lemma WithoutIsUnavailable(k: Keys, tr: seq<World>, from: nat, b: nat, i: nat, key: Key)
    requires SlotWithout(k, tr, from, b, i, key)
    ensures SlotUnavailable(k, tr, from, b, i, key)
  {
    var j :| from <= j < |tr| && !HoldsKey(k, tr[j], b, i, key);
    forall loc: Loc | k.at(loc) == key ensures !AvailableAt(tr, from, b, i, loc) {
      assert !Publishes(tr[j], b, i, loc);
    }
  }

  /** The slot published `e` and its location could not be pinned. */
  lemma UnpinnableIsUnavailable(k: Keys, tr: seq<World>, from: nat, j: nat, m: nat, b: nat, i: nat, e: Loc, key: Key)
    requires from <= j < |tr| && from <= m < |tr| && Publishes(tr[j], b, i, e) && !Pinnable(tr[m], e)
    ensures SlotUnavailable(k, tr, from, b, i, key)
  {
    forall loc: Loc | k.at(loc) == key ensures !AvailableAt(tr, from, b, i, loc) {
      if loc != e { assert !Publishes(tr[j], b, i, loc); }
    }
  }

  /** A key that was absent, expired or replaced was not available throughout. */
  lemma ExcusedIsUnavailable(k: Keys, tr: seq<World>, from: nat, key: Key)
    requires Excused(k, tr, from, key) && Steady(k, tr)
    ensures !Available(k, tr, from, key)
  {
    hide Steady;
    forall b: nat, i: nat, loc: Loc | k.at(loc) == key ensures !AvailableAt(tr, from, b, i, loc) {
      if AvailableAt(tr, from, b, i, loc) { ExcusedNotAt(k, tr, from, b, i, loc, key); }
    }
  }

  lemma ExcusedNotAt(k: Keys, tr: seq<World>, from: nat, b: nat, i: nat, loc: Loc, key: Key)
    requires AvailableAt(tr, from, b, i, loc) && k.at(loc) == key && Steady(k, tr)
    ensures !Excused(k, tr, from, key)
  {
    forall j | from <= j < |tr| ensures !KeyAbsent(k, tr[j], key) && !ExpiredEntry(k, tr[j], key) {
      assert HoldsKey(k, tr[j], b, i, key);
      NotExpiredEntry(k, tr[j], b, i, key);
    }
    forall n, n' | from <= n && n' == n + 1 < |tr| ensures !Replaced(k, tr[n], tr[n'], key) {
      assert HoldsKey(k, tr[n], b, i, key) && HoldsKey(k, tr[n'], b, i, key);
      NotReplaced(k, tr[n], tr[n'], b, i, key);
    }
  }

  lemma NotExpiredEntry(k: Keys, w: World, b: nat, i: nat, key: Key)
    requires Unique(k, w) && HoldsKey(k, w, b, i, key) && w.buckets[b][i].loc.seg !in w.expired
    ensures !ExpiredEntry(k, w, key)
  {
  }

  lemma NotReplaced(k: Keys, w: World, w': World, b: nat, i: nat, key: Key)
    requires Unique(k, w) && HoldsKey(k, w, b, i, key) && HoldsKey(k, w', b, i, key)
    requires w'.buckets[b][i].loc == w.buckets[b][i].loc
    ensures !Replaced(k, w, w', key)
  {
  }

  lemma ChargeStays(k: Keys, tr: seq<World>, tr': seq<World>, from: nat, c: nat, key: Key)
    requires tr <= tr' && ChargeSpan(k, tr, from, c, key)
    ensures ChargeSpan(k, tr', from, c, key)
  {
    hide SeenPublished, KeyAbsent;
    if AbsentOnce(k, tr, c, key) {
      var j :| c <= j < |tr| && KeyAbsent(k, tr[j], key);
      assert tr'[j] == tr[j];
    } else if m, loc: Loc :| c <= m < |tr| && StaleAt(tr, from, m, loc) {
      PublishedStays(tr, tr', from, from, loc);
      assert tr'[m] == tr[m] && StaleAt(tr', from, m, loc);
    } else {
      var loc: Loc, next: Loc :| MovedSince(k, tr, from, c, loc, next, key);
      PublishedStays(tr, tr', from, from, loc);
      PublishedStays(tr, tr', c, c, next);
      assert MovedSince(k, tr', from, c, loc, next, key);
    }
  }

  lemma SpentStays(k: Keys, tr: seq<World>, tr': seq<World>, from: nat, n: nat, key: Key)
    requires tr <= tr' && Spent(k, tr, from, n, key)
    ensures Spent(k, tr', from, n, key)
  {
    hide ChargeSpan;
    if n > 0 {
      var c :| from <= c <= |tr| && Spent(k, tr[..c], from, n - 1, key) && ChargeSpan(k, tr, from, c, key);
      assert tr'[..c] == tr[..c];
      ChargeStays(k, tr, tr', from, c, key);
    }
  }

  /** One more charge. */
  lemma SpendOne(k: Keys, tr: seq<World>, tr': seq<World>, from: nat, n: nat, key: Key)
    requires tr <= tr' && from <= |tr| && Spent(k, tr, from, n, key) && ChargeSpan(k, tr', from, |tr|, key)
    ensures Spent(k, tr', from, n + 1, key)
  {
    hide ChargeSpan;
    assert tr'[..|tr|] == tr;
  }

  lemma LiveStays(tr: seq<World>, tr': seq<World>, from: nat, from': nat, loc: Loc, g: nat)
    requires tr <= tr' && from' <= from && SeenLive(tr, from, loc, g)
    ensures SeenLive(tr', from', loc, g)
  {
    hide PublishedAt;
    var f, q, m :| from <= f <= q <= m < |tr| && LiveAt(tr, f, q, m, loc, g);
    assert LiveAt(tr', f, q, m, loc, g);
  }

  lemma TakesStays(tr: seq<World>, tr': seq<World>, from: nat, from': nat, upto: nat, upto': nat, loc: Loc)
    requires tr <= tr' && from' <= from && upto <= upto' <= |tr'| && TakesLive(tr, from, upto, loc)
    ensures TakesLive(tr', from', upto', loc)
  {
    hide SeenLive, MayUnlink, EmptiesAt;
    var t: nat, a: nat, p: nat, n: nat, g: nat :| TakenAt(tr, from, upto, loc, t, a, p, n, g);
    LiveStays(tr[..t], tr'[..t], from, from', loc, g);
    UnlinkStays(tr, tr', a, p, n, loc, g);
    assert TakenAt(tr', from', upto', loc, t, a, p, n, g);
  }

  lemma UnlinkStays(tr: seq<World>, tr': seq<World>, a: nat, p: nat, n: nat, loc: Loc, g: nat)
    requires tr <= tr' && a <= p <= n && n + 1 < |tr| && MayUnlink(tr, a, p, loc, g) && EmptiesAt(tr, n, loc)
    ensures MayUnlink(tr', a, p, loc, g) && EmptiesAt(tr', n, loc)
  {
    assert tr'[a] == tr[a] && tr'[p] == tr[p] && tr'[n] == tr[n] && tr'[n + 1] == tr[n + 1];
  }

  /** Found live in `tr`, allowed to be unlinked in state `p`, and unlinked after that. */
  lemma TakesFrom(tr: seq<World>, tr': seq<World>, from: nat, a: nat, p: nat, upto: nat, loc: Loc, g: nat)
    requires tr <= tr' && |tr| <= a <= p < |tr'| && SeenLive(tr, from, loc, g)
    requires MayUnlink(tr', a, p, loc, g) && Unlinks(tr', p + 1, upto, loc)
    ensures TakesLive(tr', from, upto, loc)
  {
    hide SeenLive;
    var n, b, i :| p + 1 <= n < upto - 1 && upto <= |tr'| && Publishes(tr'[n], b, i, loc) && Emptied(tr'[n + 1], b, i);
    assert tr'[..|tr|] == tr && EmptiesAt(tr', n, loc);
    assert TakenAt(tr', from, upto, loc, |tr|, a, p, n, g);
  }

  lemma BucketStays(k: Keys, tr: seq<World>, tr': seq<World>, from: nat, b: nat, key: Key)
    requires tr <= tr' && BucketWithout(k, tr, from, b, key)
    ensures BucketWithout(k, tr', from, b, key)
  {
    forall i | 0 <= i < SLOTS ensures SlotWithout(k, tr', from, b, i, key) {
      assert SlotWithout(k, tr, from, b, i, key);
      var j :| from <= j < |tr| && !HoldsKey(k, tr[j], b, i, key);
      assert tr'[j] == tr[j];
    }
  }

  lemma SlotStays(k: Keys, tr: seq<World>, tr': seq<World>, from: nat, b: nat, i: nat, key: Key)
    requires tr <= tr' && SlotWithout(k, tr, from, b, i, key)
    ensures SlotWithout(k, tr', from, b, i, key)
  {
    var j :| from <= j < |tr| && !HoldsKey(k, tr[j], b, i, key);
    assert tr'[j] == tr[j];
  }

  lemma PublishedStays(tr: seq<World>, tr': seq<World>, from: nat, from': nat, loc: Loc)
    requires tr <= tr' && from' <= from && SeenPublished(tr, from, loc)
    ensures SeenPublished(tr', from', loc)
  {
    var j, b, i :| from <= j < |tr| && Publishes(tr[j], b, i, loc);
    assert Publishes(tr'[j], b, i, loc);
  }

  lemma PinnedStaysSeen(tr: seq<World>, tr': seq<World>, from: nat, from': nat, upto: nat, upto': nat, loc: Loc)
    requires tr <= tr' && from' <= from && upto <= upto' <= |tr'| && SeenPinned(tr, from, upto, loc)
    ensures SeenPinned(tr', from', upto', loc)
  {
    var j :| from <= j < upto <= |tr| && Pinnable(tr[j], loc);
    assert tr'[j] == tr[j];
  }

  lemma FreshAfterPin(tr: seq<World>, from: nat, upto: nat, loc: Loc)
    requires SeenPinned(tr, from, upto, loc) && SeenPublished(tr, upto, loc)
    ensures SeenFresh(tr, from, loc)
  {
    var j :| from <= j < upto <= |tr| && Pinnable(tr[j], loc);
    PublishedStays(tr, tr, upto, j + 1, loc);
  }

  lemma FreshStays(tr: seq<World>, tr': seq<World>, from: nat, loc: Loc)
    requires tr <= tr' && SeenFresh(tr, from, loc)
    ensures SeenFresh(tr', from, loc)
  {
    var j :| from <= j < |tr| && Pinnable(tr[j], loc) && SeenPublished(tr, j + 1, loc);
    assert tr'[j] == tr[j];
    PublishedStays(tr, tr', j + 1, j + 1, loc);
  }

  lemma UnlinksStay(tr: seq<World>, tr': seq<World>, from: nat, from': nat, upto: nat, upto': nat, loc: Loc)
    requires tr <= tr' && from' <= from && upto <= upto' <= |tr'| && Unlinks(tr, from, upto, loc)
    ensures Unlinks(tr', from', upto', loc)
  {
    var j, b, i :| from <= j < upto - 1 && upto <= |tr| && Publishes(tr[j], b, i, loc) && Emptied(tr[j + 1], b, i);
    assert Publishes(tr'[j], b, i, loc) && Emptied(tr'[j + 1], b, i);
  }

  class Segcache {
    const keys: Keys
    var world: World
    /** Every state of the world since the start, the present one last. */
    ghost var trace: seq<World>
    /** The reader and remover pins this thread holds. */
    var pins: multiset<Seg>
    var removers: multiset<Seg>
    /** The locations this thread has unlinked. */
    ghost var unlinked: seq<Loc>

    ghost predicate Valid()
      reads this
    {
      WorldOk(keys, world) && trace != [] && trace[|trace| - 1] == world && Steady(keys, trace)
    }

    /** Time has passed; what was pinned throughout keeps its generation. */
    twostate predicate Onward()
      reads this
    {
      && Valid() && old(trace) <= trace
      && Rely(keys, old(world), world, old(pins), old(removers))
    }

    constructor (keys: Keys, world: World)
      requires WorldOk(keys, world) && Unique(keys, world)
      ensures Valid() && this.keys == keys && this.world == world && pins == removers == multiset{} && unlinked == []
    {
      this.keys := keys;
      this.world := world;
      trace := [world];
      pins := multiset{};
      removers := multiset{};
      unlinked := [];
    }

    /** The environment takes any number of steps. */
    method Interfere()
      requires Valid()
      modifies `world, `trace
      ensures Onward() && |old(trace)| < |trace|
    {
      hide Steady;
      var ws :| EnvRun(keys, world, ws, pins, removers) by {
        assert EnvStep(keys, world, world, pins, removers);
        assert EnvRun(keys, world, [world], pins, removers);
      }
      RunRelies(keys, trace, ws, pins, removers);
      RelyWorldOk(keys, world, ws[|ws| - 1], pins, removers);
      world := ws[|ws| - 1];
      trace := trace + ws;
    }

    method ReadSlot(b: nat, i: nat) returns (e: Entry)
      requires Valid() && b < |world.buckets| && i < SLOTS
      modifies `world, `trace
      ensures Onward() && |old(trace)| < |trace| && e == world.buckets[b][i]
    {
      Interfere();
      e := world.buckets[b][i];
    }

    /** Pin the segment for reading if it is readable and still the incarnation of `loc`. */
    method AcquireItemAt(loc: Loc) returns (ok: bool)
      requires Valid() && loc.seg in world.gens
      modifies `world, `trace, `pins
      ensures Onward() && |old(trace)| < |trace|
      ensures ok <==> loc.seg in world.readable && world.gens[loc.seg] == loc.gen
      ensures pins == if ok then old(pins) + multiset{loc.seg} else old(pins)
    {
      Interfere();
      ok := loc.seg in world.readable && world.gens[loc.seg] == loc.gen;
      if ok { pins := pins + multiset{loc.seg}; }
    }

    method DropPin(seg: Seg, ghost held: multiset<Seg>)
      requires Valid() && pins == held + multiset{seg}
      modifies `pins
      ensures Valid() && pins == held
    {
      pins := pins - multiset{seg};
    }

    method Verify(key: Key, loc: Loc) returns (v: Verified)
      requires Valid()
      modifies `world, `trace, `pins
      ensures Onward()
      ensures v.Match? ==> keys.at(loc) == key && loc.seg in world.gens && world.gens[loc.seg] == loc.gen
      ensures v.Match? ==> pins == old(pins) + multiset{loc.seg} && SeenPinned(trace, |old(trace)|, |trace|, loc)
      ensures !v.Match? ==> pins == old(pins)
      ensures v.DifferentKey? && loc.seg in world.gens ==> keys.at(loc) != key
      ensures v.Unverified? ==> loc.seg in world.gens
      ensures v.Unverified? ==> exists m :: |old(trace)| <= m < |trace| && !Pinnable(trace[m], loc)
    {
      if loc.seg !in world.gens {
        return DifferentKey;
      }
      var ok := AcquireItemAt(loc);
      if !ok {
        assert !Pinnable(trace[|trace| - 1], loc);
        return Unverified;
      }
      assert Pinnable(trace[|trace| - 1], loc);
      if keys.at(loc) == key {
        return Match;
      }
      DropPin(loc.seg, old(pins));
      return DifferentKey;
    }

    // ----- Lookup -----

    /** The first look at a bucket: which slots carry the tag and are not ghosts. */
    method TagMatches(b: nat, key: Key) returns (mask: seq<bool>)
      requires Valid() && b < |world.buckets|
      modifies `world, `trace
      ensures Onward() && |mask| == SLOTS && |old(trace)| < |trace|
      ensures forall i | 0 <= i < SLOTS && !mask[i] :: SlotWithout(keys, trace, |old(trace)|, b, i, key)
    {
      mask := [];
      for i := 0 to SLOTS
        invariant i > 0 ==> |old(trace)| < |trace|
        invariant Onward() && |mask| == i && old(pins) == pins && old(removers) == removers
        invariant forall j | 0 <= j < i && !mask[j] :: SlotWithout(keys, trace, |old(trace)|, b, j, key)
      {
        ghost var before := trace;
        var e := ReadSlot(b, i);
        assert EntryOk(keys, world, world.buckets[b][i]);
        mask := mask + [e.Item? && e.tag == keys.tag(key)];
        if !mask[i] { assert !HoldsKey(keys, trace[|trace| - 1], b, i, key); }
        forall j | 0 <= j < i && !mask[j] ensures SlotWithout(keys, trace, |old(trace)|, b, j, key) {
          SlotStays(keys, before, trace, |old(trace)|, b, j, key);
        }
      }
    }

    /** Read a slot again and verify its entry, if it still carries the tag. */
    method ExamineSlot(b: nat, i: nat, key: Key) returns (r: Lookup)
      requires Valid() && b < |world.buckets| && i < SLOTS
      modifies `world, `trace, `pins
      ensures Onward()
      ensures r.Found? ==> FoundHere(r, |old(trace)|, key) && pins == old(pins) + multiset{r.loc.seg} && r.slot == i
      ensures !r.Found? ==> pins == old(pins)
      ensures r.Unknown? ==> r.loc.seg in world.gens && SeenPublished(trace, |old(trace)|, r.loc)
      ensures r.Absent? ==> SlotWithout(keys, trace, |old(trace)|, b, i, key)
      ensures r.Unknown? ==> SlotUnavailable(keys, trace, |old(trace)|, b, i, key)
    {
      hide SlotUnavailable;
      var e := ReadSlot(b, i);
      ghost var seen := |trace| - 1;
      assert EntryOk(keys, world, world.buckets[b][i]);
      if !e.Item? || e.tag != keys.tag(key) {
        assert !HoldsKey(keys, trace[seen], b, i, key);
        return Absent;
      }
      assert Publishes(trace[seen], b, i, e.loc);
      var v := Verify(key, e.loc);
      match v {
        case Match =>
          assert Publishes(trace[seen], b, i, e.loc);
          PinnedStaysSeen(trace, trace, seen + 1, seen, |trace|, |trace|, e.loc);
          return Found(e.loc, b, i);
        case DifferentKey =>
          assert !HoldsKey(keys, trace[seen], b, i, key);
          return Absent;
        case Unverified =>
          ghost var m :| seen < m < |trace| && !Pinnable(trace[m], e.loc);
          UnpinnableIsUnavailable(keys, trace, |old(trace)|, seen, m, b, i, e.loc, key);
          return Unknown(e.loc);
      }
    }

    /** Scan one bucket. A candidate that cannot be verified never counts as a miss. */
    method SearchBucket(b: nat, key: Key) returns (r: Lookup)
      requires Valid() && b < |world.buckets|
      modifies `world, `trace, `pins
      ensures Onward() && |old(trace)| < |trace|
      ensures r.Found? ==> FoundHere(r, |old(trace)|, key) && pins == old(pins) + multiset{r.loc.seg}
      ensures !r.Found? ==> pins == old(pins)
      ensures r.Unknown? ==> r.loc.seg in world.gens && SeenPublished(trace, |old(trace)|, r.loc)
      ensures r.Absent? ==> BucketWithout(keys, trace, |old(trace)|, b, key)
      ensures !r.Found? ==> forall i | 0 <= i < SLOTS :: SlotUnavailable(keys, trace, |old(trace)|, b, i, key)
    {
      hide SeenPublished, SeenPinned, SlotUnavailable, SeenIn, SlotWithout, Steady, WorldOk;
      ghost var start := |trace|;
      var mask := TagMatches(b, key);
      var unknown: Option<Loc> := None;
      for i := 0 to SLOTS
        invariant Onward() && pins == old(pins) && removers == old(removers) && start < |trace|
        invariant unknown.Some? ==> unknown.value.seg in world.gens && SeenPublished(trace, start, unknown.value)
        invariant forall j | 0 <= j < i :: SlotUnavailable(keys, trace, start, b, j, key)
        invariant forall j | i <= j < SLOTS && !mask[j] :: SlotWithout(keys, trace, start, b, j, key)
        invariant unknown.None? ==> forall j | 0 <= j < i :: SlotWithout(keys, trace, start, b, j, key)
      {
        ghost var before := trace;
        if mask[i] {
          var examined := ExamineSlot(b, i, key);
          if examined.Found? {
            SincePublished(|before|, start, examined.loc);
            SinceIn(|before|, start, examined.bucket, examined.slot, examined.loc);
            PinnedStaysSeen(trace, trace, |before|, start, |trace|, |trace|, examined.loc);
            return examined;
          }
          if unknown.Some? { PublishedStays(before, trace, start, start, unknown.value); }
          if examined.Absent? { WithoutSince(|before|, start, b, i, key); }
          if examined.Unknown? {
            SincePublished(|before|, start, examined.loc);
            SlotUnavailableStays(keys, trace, trace, |before|, start, b, i, key);
            if unknown.None? { unknown := Some(examined.loc); }
          }
        }
        SlotsStay(before, start, b, key);
        UnavailablesStay(before, start, b, i, key);
        if SlotWithout(keys, trace, start, b, i, key) { WithoutIsUnavailable(keys, trace, start, b, i, key); }
      }
      r := if unknown.Some? then Unknown(unknown.value) else Absent;
    }

    /** The found entry is pinned, matches the key, and was in its slot at an instant of this call. */
    ghost predicate FoundHere(r: Lookup, from: nat, key: Key)
      requires r.Found?
      reads this
    {
      && keys.at(r.loc) == key && SeenPublished(trace, from, r.loc) && SeenPinned(trace, from, |trace|, r.loc)
      && r.loc.seg in world.gens && world.gens[r.loc.seg] == r.loc.gen && InRange(world, r.bucket, r.slot)
      && SeenIn(trace, from, r.bucket, r.slot, r.loc)
    }

    lemma UnavailablesStay(before: seq<World>, from: nat, b: nat, n: nat, key: Key)
      requires before <= trace
      ensures forall j | 0 <= j < n && SlotUnavailable(keys, before, from, b, j, key) ::
                SlotUnavailable(keys, trace, from, b, j, key)
    {
      hide SlotUnavailable;
      forall j | 0 <= j < n && SlotUnavailable(keys, before, from, b, j, key)
        ensures SlotUnavailable(keys, trace, from, b, j, key)
      {
        SlotUnavailableStays(keys, before, trace, from, from, b, j, key);
      }
    }

    lemma SlotsStay(before: seq<World>, from: nat, b: nat, key: Key)
      requires before <= trace
      ensures forall j | 0 <= j < SLOTS && SlotWithout(keys, before, from, b, j, key) ::
                SlotWithout(keys, trace, from, b, j, key)
    {
      forall j | 0 <= j < SLOTS && SlotWithout(keys, before, from, b, j, key)
        ensures SlotWithout(keys, trace, from, b, j, key)
      {
        SlotStays(keys, before, trace, from, b, j, key);
      }
    }

    /** Scan all candidate buckets: a match wins, an unverified candidate is remembered. */
    method LookupKey(key: Key) returns (r: Lookup)
      requires Valid()
      modifies `world, `trace, `pins
      ensures Onward()
      ensures r.Found? ==> FoundHere(r, |old(trace)|, key) && pins == old(pins) + multiset{r.loc.seg}
      ensures !r.Found? ==> pins == old(pins)
      ensures r.Unknown? ==> r.loc.seg in world.gens && SeenPublished(trace, |old(trace)|, r.loc)
      ensures !r.Found? ==> !Available(keys, trace, |old(trace)|, key)
      ensures |old(trace)| < |trace|
      ensures r.Absent? ==> AbsentOnce(keys, trace, |old(trace)|, key)
    {
      hide Steady, AbsentOnce, SeenPublished, SeenPinned, SeenIn, SlotUnavailable, Available;
      ghost var start := |trace|;
      var unknown: Option<Loc> := None;
      var n := |world.buckets|;
      for b := 0 to n
        invariant Onward() && pins == old(pins) && removers == old(removers)
        invariant unknown.Some? ==> unknown.value.seg in world.gens && SeenPublished(trace, start, unknown.value)
        invariant forall c, i | 0 <= c < b && 0 <= i < SLOTS :: SlotUnavailable(keys, trace, start, c, i, key)
        invariant b > 0 ==> start < |trace|
        invariant unknown.None? ==> forall j | 0 <= j < b :: BucketWithout(keys, trace, start, j, key)
      {
        ghost var before := trace;
        var found := SearchBucket(b, key);
        if found.Found? {
          SincePublished(|before|, start, found.loc);
          SinceIn(|before|, start, found.bucket, found.slot, found.loc);
          PinnedStaysSeen(trace, trace, |before|, start, |trace|, |trace|, found.loc);
          return found;
        }
        if unknown.Some? { PublishedStays(before, trace, start, start, unknown.value); }
        if found.Unknown? {
          SincePublished(|before|, start, found.loc);
          if unknown.None? { unknown := Some(found.loc); }
        }
        BucketsUnavailable(before, start, b, key);
        if found.Absent? { BucketSince(|before|, start, b, key); }
        BucketsStay(before, start, b, key);
      }
      NothingAvailable(start, key);
      if unknown.Some? { return Unknown(unknown.value); }
      assert BucketWithout(keys, trace, start, 0, key) && SlotWithout(keys, trace, start, 0, 0, key);
      AbsentAtAnInstant(keys, trace, start, key);
      return Absent;
    }

    lemma WithoutSince(from: nat, from': nat, b: nat, i: nat, key: Key)
      requires from' <= from && SlotWithout(keys, trace, from, b, i, key)
      ensures SlotWithout(keys, trace, from', b, i, key)
    {
    }

    lemma SinceIn(from: nat, from': nat, b: nat, i: nat, loc: Loc)
      requires from' <= from && SeenIn(trace, from, b, i, loc)
      ensures SeenIn(trace, from', b, i, loc)
    {
    }

    /** What was unavailable stays so, and the bucket just searched is. */
    lemma BucketsUnavailable(before: seq<World>, from: nat, b: nat, key: Key)
      requires before <= trace && from <= |before|
      requires forall c, i | 0 <= c < b && 0 <= i < SLOTS :: SlotUnavailable(keys, before, from, c, i, key)
      requires forall i | 0 <= i < SLOTS :: SlotUnavailable(keys, trace, |before|, b, i, key)
      ensures forall c, i | 0 <= c <= b && 0 <= i < SLOTS :: SlotUnavailable(keys, trace, from, c, i, key)
    {
      hide SlotUnavailable;
      forall c, i | 0 <= c <= b && 0 <= i < SLOTS ensures SlotUnavailable(keys, trace, from, c, i, key) {
        if c < b { SlotUnavailableStays(keys, before, trace, from, from, c, i, key); }
        else { SlotUnavailableStays(keys, trace, trace, |before|, from, c, i, key); }
      }
    }

    lemma NothingAvailable(from: nat, key: Key)
      requires Valid() && from < |trace|
      requires forall b, i | 0 <= b < |world.buckets| && 0 <= i < SLOTS :: SlotUnavailable(keys, trace, from, b, i, key)
      ensures !Available(keys, trace, from, key)
    {
      hide Steady;
      forall b: nat, i: nat, loc: Loc | keys.at(loc) == key ensures !AvailableAt(trace, from, b, i, loc) {
        if InRange(world, b, i) { assert SlotUnavailable(keys, trace, from, b, i, key); }
        else { assert !Publishes(trace[|trace| - 1], b, i, loc); }
      }
    }

    lemma SincePublished(from: nat, from': nat, loc: Loc)
      requires from' <= from && SeenPublished(trace, from, loc)
      ensures SeenPublished(trace, from', loc)
    {
      PublishedStays(trace, trace, from, from', loc);
    }

    lemma BucketSince(from: nat, from': nat, b: nat, key: Key)
      requires from' <= from && BucketWithout(keys, trace, from, b, key)
      ensures BucketWithout(keys, trace, from', b, key)
    {
      forall i | 0 <= i < SLOTS ensures SlotWithout(keys, trace, from', b, i, key) {
        assert SlotWithout(keys, trace, from, b, i, key);
      }
    }

    lemma BucketsStay(before: seq<World>, from: nat, n: nat, key: Key)
      requires before <= trace
      ensures forall j | 0 <= j < n && BucketWithout(keys, before, from, j, key) ::
                BucketWithout(keys, trace, from, j, key)
    {
      forall j | 0 <= j < n && BucketWithout(keys, before, from, j, key)
        ensures BucketWithout(keys, trace, from, j, key)
      {
        BucketStays(keys, before, trace, from, j, key);
      }
    }

    // ----- Get -----

    /** Does the slot still publish `loc`? */
    method SlotPublishes(b: nat, i: nat, loc: Loc) returns (yes: bool)
      requires Valid() && InRange(world, b, i)
      modifies `world, `trace
      ensures Onward() && (yes ==> SeenPublished(trace, |old(trace)|, loc))
      ensures !yes ==> !AvailableAt(trace, |old(trace)|, b, i, loc)
    {
      var e := ReadSlot(b, i);
      yes := e.Item? && e.loc == loc;
      if yes { assert Publishes(trace[|trace| - 1], b, i, loc); }
      else { assert !Publishes(trace[|trace| - 1], b, i, loc); }
    }

    /** Does `loc` still name the current incarnation of its segment? */
    method Resolves(loc: Loc) returns (yes: bool)
      requires Valid() && loc.seg in world.gens
      modifies `world, `trace
      ensures Onward() && |old(trace)| < |trace|
      ensures yes <==> world.gens[loc.seg] == loc.gen
    {
      Interfere();
      yes := world.gens[loc.seg] == loc.gen;
    }

    method IsExpired(seg: Seg) returns (yes: bool)
      requires Valid()
      modifies `world, `trace
      ensures Onward() && |old(trace)| < |trace| && (yes <==> seg in world.expired)
    {
      Interfere();
      yes := seg in world.expired;
    }

    /** What a finished get has established, `charged` retries later. */
    twostate predicate Answers(key: Key, r: Got, from: nat, charged: nat)
      reads this
    {
      && (r.Hit? ==>
            && keys.at(r.loc) == key && SeenFresh(trace, from, r.loc) && SeenUsable(trace, from, r.loc)
            && r.loc.seg in world.gens && world.gens[r.loc.seg] == r.loc.gen)
      && (r.Miss? ==>
            AbsentOnce(keys, trace, from, key) || SeenExpired(keys, trace, from, key) || charged == REVALIDATE_RETRIES)
    }

    /** `loc` is pinned in its own incarnation, beside the pins in `held`. */
    ghost predicate Pinning(loc: Loc, held: multiset<Seg>)
      reads this
    {
      Valid() && pins == held + multiset{loc.seg} && loc.seg in world.gens && world.gens[loc.seg] == loc.gen
    }

    /** Found in `tr`, expired now. */
    lemma ExpiredHere(tr: seq<World>, from: nat, loc: Loc, key: Key)
      requires tr <= trace && SeenPublished(tr, from, loc) && keys.at(loc) == key
      requires Valid() && loc.seg in world.expired
      ensures SeenExpired(keys, trace, from, key)
    {
      hide Steady;
      var j, b, i :| from <= j < |tr| && Publishes(tr[j], b, i, loc);
      assert Publishes(trace[j], b, i, loc);
      assert ExpiredAt(keys, trace, j, |trace| - 1, loc, key);
    }

    /** Pinned in `tr`, not expired now. */
    lemma UsableNow(tr: seq<World>, from: nat, loc: Loc)
      requires tr <= trace && SeenFresh(tr, from, loc) && Valid() && loc.seg !in world.expired
      ensures SeenUsable(trace, from, loc)
    {
      hide Steady;
      var j :| from <= j < |tr| && Pinnable(tr[j], loc) && SeenPublished(tr, j + 1, loc);
      assert trace[j] == tr[j];
    }

    /** Hand out the pinned item unless its segment has expired. */
    method ItemFromPin(key: Key, loc: Loc, ghost held: multiset<Seg>, ghost from: nat, ghost charged: nat)
      returns (r: Got)
      requires Pinning(loc, held) && keys.at(loc) == key && SeenPublished(trace, from, loc) && from <= |trace|
      requires SeenFresh(trace, from, loc)
      modifies `world, `trace, `pins
      ensures Valid() && old(trace) <= trace && Rely(keys, old(world), world, held, old(removers))
      ensures (r == Hit(loc) || r == Miss) && Answers(key, r, from, charged)
      ensures pins == if r.Hit? then held + multiset{loc.seg} else held
      ensures !r.Hit? ==> forall b: nat, i: nat :: !AvailableAt(trace, |old(trace)|, b, i, loc)
    {
      var expired := IsExpired(loc.seg);
      PublishedStays(old(trace), trace, from, from, loc);
      FreshStays(old(trace), trace, from, loc);
      if expired {
        ExpiredHere(old(trace), from, loc, key);
        DropPin(loc.seg, held);
        return Miss;
      }
      UsableNow(old(trace), from, loc);
      return Hit(loc);
    }

    /**
     * One revalidation of a pinned location. The fresh lookup agrees with the
     * pin and answers, finds the key nowhere, cannot tell, or leads to another
     * location, which is charged and pinned next. `held` are the pins the caller
     * keeps.
     */
    method Revalidate(key: Key, loc: Loc, attempts: nat, ghost held: multiset<Seg>, ghost from: nat)
      returns (step: Step, spent: nat)
      requires Pinning(loc, held) && attempts < REVALIDATE_RETRIES && from <= |trace|
      requires SeenPinned(trace, from, |trace|, loc) && SeenPublished(trace, from, loc) && keys.at(loc) == key
      requires Spent(keys, trace, from, attempts, key)
      modifies `world, `trace, `pins
      ensures Valid() && old(trace) <= trace && Rely(keys, old(world), world, held, old(removers))
      ensures attempts <= spent <= REVALIDATE_RETRIES && StepOk(key, step, held, from, spent)
      ensures step.Follow? ==> spent == attempts + 1
      ensures Spent(keys, trace, from, spent, key)
    {
      hide WorldOk, SeenPublished, AbsentOnce, SeenExpired, SeenPinned, SeenFresh, SeenUsable, Rely, Steady;
      hide Available, AvailableAt, Spent, ChargeSpan, SeenIn;
      spent := attempts;
      ghost var before, w, p := |trace|, world, pins;
      var current := LookupKey(key);
      RelyChain(keys, old(world), w, world, held, p, p, removers) by { RelySelf(p); }
      PinnedStays(keys, w, world, p, removers, loc);
      if current.Unknown? {
        SincePublished(before, from, current.loc);
        SpentStays(keys, old(trace), trace, from, attempts, key);
        DropPin(loc.seg, held);
        return Retry(current.loc), spent;
      }
      if current.Absent? {
        AbsentSince(before, from, key);
        SpendOne(keys, old(trace), trace, from, attempts, key) by { AbsentCharges(from, before, key); }
        DropPin(loc.seg, held);
        return Done(Miss), spent + 1;
      }
      PinnedStaysSeen(old(trace), trace, from, from, before, before, loc);
      PublishedStays(old(trace), trace, from, from, loc);
      w := world;
      step, spent := Compare(key, loc, current.loc, attempts, held, from, old(trace));
      RelyChain(keys, old(world), w, world, held, p, held, removers);
    }

    /** Since the end of `tr` the key was published at `now`: answer if that is the pinned location, or follow it. */
    method Compare(key: Key, loc: Loc, now: Loc, attempts: nat, ghost held: multiset<Seg>, ghost from: nat,
                   ghost tr: seq<World>)
      returns (step: Step, spent: nat)
      requires Pinning(loc, held + multiset{now.seg}) && keys.at(now) == key && now.seg in world.gens
      requires attempts < REVALIDATE_RETRIES && from <= |tr| && tr <= trace && Spent(keys, tr, from, attempts, key)
      requires SeenPinned(trace, from, |tr|, loc) && SeenPublished(trace, |tr|, now)
      requires SeenPublished(trace, from, loc) && keys.at(loc) == key
      modifies `world, `trace, `pins
      ensures Valid() && old(trace) <= trace && Rely(keys, old(world), world, held, old(removers))
      ensures attempts <= spent <= REVALIDATE_RETRIES && StepOk(key, step, held, from, spent)
      ensures step.Follow? ==> spent == attempts + 1
      ensures Spent(keys, trace, from, spent, key)
    {
      hide WorldOk, SeenPublished, AbsentOnce, SeenExpired, SeenPinned, SeenFresh, SeenUsable, Rely, Steady;
      hide Available, AvailableAt, Spent, ChargeSpan, SeenIn;
      DropPin(now.seg, held + multiset{loc.seg});
      if now == loc {
        FreshAfterPin(trace, from, |tr|, loc);
        SpentStays(keys, tr, trace, from, attempts, key);
        step := Agree(key, loc, attempts, held, from);
        return step, attempts;
      }
      SincePublished(|tr|, from, now);
      SpendOne(keys, tr, trace, from, attempts, key) by { MoveCharges(from, |tr|, loc, now, key); }
      step, spent := Charge(key, loc, now, attempts, held, from);
    }

    /** The lookup agrees with the pin. */
    method Agree(key: Key, loc: Loc, attempts: nat, ghost held: multiset<Seg>, ghost from: nat) returns (step: Step)
      requires Pinning(loc, held) && keys.at(loc) == key && SeenPublished(trace, from, loc) && from <= |trace|
      requires SeenFresh(trace, from, loc) && Spent(keys, trace, from, attempts, key)
      modifies `world, `trace, `pins
      ensures Valid() && old(trace) <= trace && Rely(keys, old(world), world, held, old(removers))
      ensures step.Done? && StepOk(key, step, held, from, attempts) && Spent(keys, trace, from, attempts, key)
    {
      hide WorldOk, SeenPublished, AbsentOnce, SeenExpired, SeenPinned, SeenFresh, SeenUsable, Rely, Steady;
      hide Available, AvailableAt, Spent, ChargeSpan, SeenIn;
      var r := ItemFromPin(key, loc, held, from, attempts);
      SpentStays(keys, old(trace), trace, from, attempts, key);
      step := Done(r);
    }

    /** The key has moved from `loc` to `next`: let go of the one and, unless the retries are spent, pin the other. */
    method Charge(key: Key, loc: Loc, next: Loc, attempts: nat, ghost held: multiset<Seg>, ghost from: nat)
      returns (step: Step, spent: nat)
      requires keys.at(next) == key && SeenPublished(trace, from, next) && Spent(keys, trace, from, attempts + 1, key)
      requires Pinning(loc, held) && next.seg in world.gens && attempts < REVALIDATE_RETRIES && from <= |trace|
      modifies `world, `trace, `pins
      ensures Valid() && old(trace) <= trace && Rely(keys, old(world), world, held, old(removers))
      ensures Spent(keys, trace, from, spent, key)
      ensures spent == attempts + 1 && StepOk(key, step, held, from, spent)
    {
      hide WorldOk, SeenPublished, AbsentOnce, SeenExpired, SeenPinned, SeenFresh, SeenUsable, Rely, Steady;
      hide Available, AvailableAt, Spent, ChargeSpan, SeenIn;
      RelySelf(held);
      DropPin(loc.seg, held);
      spent := attempts + 1;
      if spent >= REVALIDATE_RETRIES {
        return Done(Miss), spent;
      }
      ghost var tr := trace;
      step := PinNext(key, next, held, from, spent);
      SpentStays(keys, tr, trace, from, spent, key);
    }

    /** Pin the place the key was republished at, to be revalidated in turn. */
    method PinNext(key: Key, loc: Loc, ghost held: multiset<Seg>, ghost from: nat, ghost spent: nat)
      returns (step: Step)
      requires Valid() && pins == held && loc.seg in world.gens && from <= |trace| && spent < REVALIDATE_RETRIES
      requires keys.at(loc) == key && SeenPublished(trace, from, loc)
      modifies `world, `trace, `pins
      ensures Valid() && old(trace) <= trace && Rely(keys, old(world), world, held, old(removers))
      ensures StepOk(key, step, held, from, spent) && !step.Done?
    {
      hide WorldOk, SeenPublished, AbsentOnce, SeenExpired, SeenPinned, SeenFresh, SeenUsable, Rely, Steady;
      hide Available, AvailableAt, Spent, ChargeSpan, SeenIn;
      ghost var acquired := |trace|;
      var ok := AcquireItemAt(loc);
      PinnedStays(keys, old(world), world, held, removers, loc);
      PublishedStays(old(trace), trace, from, from, loc);
      if ok { PinnedNow(loc, acquired, from); }
      step := if ok then Follow(loc) else Retry(loc);
    }

    lemma PinnedNow(loc: Loc, before: nat, from: nat)
      requires Valid() && Pinnable(world, loc) && from <= before < |trace|
      ensures SeenPinned(trace, from, |trace|, loc)
    {
      assert Pinnable(trace[|trace| - 1], loc);
    }

    twostate predicate StepOk(key: Key, step: Step, held: multiset<Seg>, from: nat, spent: nat)
      reads this
    {
      match step
      case Done(r) =>
        && !r.Waiting? && Answers(key, r, from, spent)
        && pins == if r.Hit? then held + multiset{r.loc.seg} else held
      case Retry(loc) =>
        && Valid() && spent < REVALIDATE_RETRIES && loc.seg in world.gens && pins == held
        && SeenPublished(trace, from, loc)
      case Follow(loc) =>
        && spent < REVALIDATE_RETRIES && Pinning(loc, held) && SeenPinned(trace, from, |trace|, loc)
        && keys.at(loc) == key && SeenPublished(trace, from, loc)
    }

    /**
     * The pinned location is no longer in the slot it was found in: look the key
     * up again until the lookup agrees with the pin, following it where it went.
     * Ends with an answer, or with a location that could not be pinned.
     */
    method FollowRepublished(key: Key, hit: Loc, attempts: nat, ghost held: multiset<Seg>, ghost from: nat)
      returns (step: Step, spent: nat)
      requires Pinning(hit, held) && attempts < REVALIDATE_RETRIES && from <= |trace|
      requires SeenPinned(trace, from, |trace|, hit) && SeenPublished(trace, from, hit) && keys.at(hit) == key
      requires Spent(keys, trace, from, attempts, key)
      modifies `world, `trace, `pins
      ensures Valid() && old(trace) <= trace && Rely(keys, old(world), world, held, old(removers))
      ensures attempts <= spent <= REVALIDATE_RETRIES && StepOk(key, step, held, from, spent) && !step.Follow?
      ensures Spent(keys, trace, from, spent, key)
    {
      hide WorldOk, SeenPublished, AbsentOnce, SeenExpired, SeenPinned, SeenFresh, SeenUsable, Rely, Steady;
      hide Available, AvailableAt, Spent, ChargeSpan, SeenIn;
      spent := attempts;
      step := Follow(hit);
      RelySelf(held);
      while step.Follow?
        invariant Valid() && old(trace) <= trace && Rely(keys, old(world), world, held, removers)
        invariant removers == old(removers) && attempts <= spent <= REVALIDATE_RETRIES
        invariant StepOk(key, step, held, from, spent) && Spent(keys, trace, from, spent, key)
        decreases step.Follow?, REVALIDATE_RETRIES - spent
      {
        ghost var w := world;
        step, spent := Revalidate(key, step.loc, spent, held, from);
        RelyChain(keys, old(world), w, world, held, held, held, removers);
      }
    }

    lemma RelySelf(pins: multiset<Seg>)
      requires Valid()
      ensures Rely(keys, world, world, pins, removers)
    {
    }

    /** One resolve: look the key up and see whether its slot still publishes it. */
    method TryGet(key: Key, attempts: nat, ghost from: nat) returns (step: Step, spent: nat)
      requires Valid() && attempts < REVALIDATE_RETRIES && from <= |trace| && Spent(keys, trace, from, attempts, key)
      modifies `world, `trace, `pins
      ensures Onward() && attempts <= spent <= REVALIDATE_RETRIES
      ensures StepOk(key, step, old(pins), from, spent) && !step.Follow?
      ensures Spent(keys, trace, from, spent, key)
      ensures !(step.Done? && step.r.Hit?) ==> !Available(keys, trace, |old(trace)|, key)
    {
      hide WorldOk, SeenPublished, AbsentOnce, SeenExpired, SeenPinned, SeenFresh, SeenUsable, Rely, Steady;
      hide Available, AvailableAt, Spent, ChargeSpan, SeenIn;
      ghost var before, held := |trace|, pins;
      var hit := LookupKey(key);
      SpentStays(keys, old(trace), trace, from, attempts, key);
      if hit.Absent? {
        AbsentSince(before, from, key);
        return Done(Miss), attempts;
      }
      if hit.Unknown? {
        SincePublished(before, from, hit.loc);
        return Retry(hit.loc), attempts;
      }
      PinnedStaysSeen(trace, trace, before, from, |trace|, |trace|, hit.loc);
      SincePublished(before, from, hit.loc);
      ghost var w, tr := world, trace;
      step, spent := CheckSlot(key, hit, attempts, held, from);
      RelyChain(keys, old(world), w, world, held, held, held, removers);
      if !(step.Done? && step.r.Hit?) { HitWasNotAvailable(tr, before, hit, key); }
    }

    /** An available entry is the one that was found. */
    lemma HitWasNotAvailable(tr: seq<World>, from: nat, hit: Lookup, key: Key)
      requires Valid() && tr <= trace && hit.Found? && keys.at(hit.loc) == key
      requires SeenIn(tr, from, hit.bucket, hit.slot, hit.loc)
      requires !AvailableAt(trace, |tr|, hit.bucket, hit.slot, hit.loc)
      ensures !Available(keys, trace, from, key)
    {
      hide Steady;
      var j :| from <= j < |tr| && Publishes(tr[j], hit.bucket, hit.slot, hit.loc);
      UnavailableStays(trace, trace, |tr|, from, hit.bucket, hit.slot, hit.loc);
      forall b: nat, i: nat, loc: Loc | keys.at(loc) == key ensures !AvailableAt(trace, from, b, i, loc) {
        if AvailableAt(trace, from, b, i, loc) {
          AvailableIsOne(keys, trace, from, b, i, loc, j, hit.bucket, hit.slot, hit.loc, key);
        }
      }
    }

    lemma AbsentCharges(from: nat, c: nat, key: Key)
      requires AbsentOnce(keys, trace, c, key)
      ensures ChargeSpan(keys, trace, from, c, key)
    {
    }

    lemma MoveCharges(from: nat, c: nat, loc: Loc, next: Loc, key: Key)
      requires loc != next && keys.at(loc) == key && keys.at(next) == key
      requires SeenPublished(trace, from, loc) && SeenPublished(trace, c, next)
      ensures ChargeSpan(keys, trace, from, c, key)
    {
      assert MovedSince(keys, trace, from, c, loc, next, key);
    }

    lemma StaleCharges(tr: seq<World>, from: nat, loc: Loc, key: Key)
      requires Valid() && tr <= trace && |tr| < |trace| && SeenPublished(tr, from, loc)
      requires loc.seg in world.gens && world.gens[loc.seg] != loc.gen
      ensures ChargeSpan(keys, trace, from, |tr|, key)
    {
      hide Steady;
      PublishedStays(tr, trace, from, from, loc);
      assert StaleAt(trace, from, |trace| - 1, loc);
    }

    /** The found entry is pinned: answer if its slot still publishes it, or follow it. */
    method CheckSlot(key: Key, hit: Lookup, attempts: nat, ghost held: multiset<Seg>, ghost from: nat)
      returns (step: Step, spent: nat)
      requires hit.Found? && Pinning(hit.loc, held) && keys.at(hit.loc) == key && InRange(world, hit.bucket, hit.slot)
      requires attempts < REVALIDATE_RETRIES && from <= |trace| && SeenPinned(trace, from, |trace|, hit.loc)
      requires SeenPublished(trace, from, hit.loc) && Spent(keys, trace, from, attempts, key)
      modifies `world, `trace, `pins
      ensures Valid() && old(trace) <= trace && Rely(keys, old(world), world, held, old(removers))
      ensures attempts <= spent <= REVALIDATE_RETRIES && StepOk(key, step, held, from, spent) && !step.Follow?
      ensures Spent(keys, trace, from, spent, key)
      ensures !(step.Done? && step.r.Hit?) ==> !AvailableAt(trace, |old(trace)|, hit.bucket, hit.slot, hit.loc)
    {
      hide SeenPublished, AbsentOnce, SeenExpired, SeenPinned, SeenFresh, SeenUsable, Rely, Steady;
      hide Available, AvailableAt, Spent, ChargeSpan, SeenIn;
      ghost var before, p := |trace|, pins;
      var published := SlotPublishes(hit.bucket, hit.slot, hit.loc);
      PinnedStays(keys, old(world), world, p, removers, hit.loc);
      assert Pinning(hit.loc, held);
      ghost var w, looked := world, trace;
      PublishedStays(old(trace), trace, from, from, hit.loc);
      SpentStays(keys, old(trace), trace, from, attempts, key);
      PinnedStaysSeen(old(trace), trace, from, from, before, before, hit.loc);
      if published {
        FreshAfterPin(trace, from, before, hit.loc);
        SincePublished(before, from, hit.loc);
        var r := ItemFromPin(key, hit.loc, held, from, attempts);
        RelyChain(keys, old(world), w, world, held, p, held, removers);
        SpentStays(keys, looked, trace, from, attempts, key);
        if !r.Hit? { UnavailableStays(trace, trace, |looked|, before, hit.bucket, hit.slot, hit.loc); }
        return Done(r), attempts;
      }
      PinnedStaysSeen(trace, trace, from, from, before, |trace|, hit.loc);
      step, spent := FollowRepublished(key, hit.loc, attempts, held, from);
      UnavailableStays(looked, trace, before, before, hit.bucket, hit.slot, hit.loc);
      RelyChain(keys, old(world), w, world, held, p, held, removers);
    }

    /**
     * A hit is a pinned item whose key matches, in the incarnation its location
     * names, and which was still published at an instant after it was pinned in
     * this call. A miss means that the key had no entry at an instant of this
     * call, that it had one in an expired segment at an instant, that its entry
     * was replaced in place during the call and the old segment then found
     * expired, or that the sixteen charged retries are spent. Pins do not leak:
     * only the item handed out keeps one. `patience` bounds the retries that are
     * not charged.
     */
    method GetPinned(key: Key, patience: nat) returns (r: Got, charged: nat)
      requires Valid()
      modifies `world, `trace, `pins
      ensures Onward() && charged <= REVALIDATE_RETRIES
      ensures Answers(key, r, |old(trace)|, charged)
      ensures r.Miss? && charged < REVALIDATE_RETRIES ==> Excused(keys, trace, |old(trace)|, key)
      ensures !r.Hit? ==> !Available(keys, trace, |old(trace)|, key)
      ensures Spent(keys, trace, |old(trace)|, charged, key) && (r.Waiting? ==> charged < REVALIDATE_RETRIES)
      ensures pins == if r.Hit? then old(pins) + multiset{r.loc.seg} else old(pins)
    {
      hide WorldOk, SeenPublished, AbsentOnce, SeenExpired, SeenPinned, SeenFresh, SeenUsable, Rely, Steady;
      hide Available, AvailableAt, Spent, ChargeSpan, SeenIn;
      ghost var start := |trace|;
      ghost var tries := 0;
      var left := patience;
      charged := 0;
      RelySelf(pins);
      SpentNothing(start, key);
      while true
        invariant Onward() && pins == old(pins) && removers == old(removers)
        invariant charged < REVALIDATE_RETRIES && Spent(keys, trace, start, charged, key)
        invariant tries > 0 ==> !Available(keys, trace, start, key)
        decreases REVALIDATE_RETRIES - charged + left
      {
        ghost var w, tr := world, trace;
        var step;
        step, charged := TryGet(key, charged, start);
        if !(step.Done? && step.r.Hit?) { NotAvailableStays(keys, trace, trace, |tr|, start, key); }
        tries := tries + 1;
        RelyChain(keys, old(world), w, world, old(pins), old(pins), old(pins), removers);
        if step.Done? {
          if step.r.Miss? && charged < REVALIDATE_RETRIES { GoneIsExcused(start, key); }
          return step.r, charged;
        }
        // a candidate could not be pinned: charge the retry if its incarnation is gone
        w, tr := world, trace;
        var resolves := Resolves(step.loc);
        NotAvailableStays(keys, tr, trace, start, start, key);
        RelyChain(keys, old(world), w, world, old(pins), old(pins), old(pins), removers);
        if !resolves {
          SpendOne(keys, tr, trace, start, charged, key) by { StaleCharges(tr, start, step.loc, key); }
          charged := charged + 1;
          if charged >= REVALIDATE_RETRIES {
            return Miss, charged;
          }
        } else if left == 0 {
          SpentStays(keys, tr, trace, start, charged, key);
          return Waiting, charged;
        } else {
          SpentStays(keys, tr, trace, start, charged, key);
          left := left - 1;
        }
      }
    }

    lemma SpentNothing(from: nat, key: Key)
      ensures Spent(keys, trace, from, 0, key)
    {
    }

    lemma GoneIsExcused(from: nat, key: Key)
      requires Valid() && SeenGone(keys, trace, from, key)
      ensures Excused(keys, trace, from, key)
    {
      hide ExpiredAt, Steady;
      if SeenExpired(keys, trace, from, key) { ExpiredOrReplaced(keys, trace, from, key); }
    }

    lemma OvertakenIsExcused(from: nat, key: Key)
      requires Valid() && SeenOvertaken(keys, trace, from, key)
      ensures Excused(keys, trace, from, key)
    {
      OvertakenByOthers(keys, trace, from, key);
    }

    lemma AbsentSince(from: nat, from': nat, key: Key)
      requires from' <= from && AbsentOnce(keys, trace, from, key)
      ensures AbsentOnce(keys, trace, from', key)
    {
    }

    // ----- Delete -----

    method Generation(seg: Seg) returns (g: nat)
      requires Valid() && seg in world.gens
      modifies `world, `trace
      ensures Onward() && |old(trace)| < |trace| && seg in world.gens && g == world.gens[seg]
    {
      Interfere();
      g := world.gens[seg];
    }

    /** Pin the segment against drains, if items may be removed from it. */
    method TryPinRemover(seg: Seg) returns (ok: bool)
      requires Valid()
      modifies `world, `trace, `removers
      ensures Onward() && |old(trace)| < |trace| && (ok <==> seg in world.removable)
      ensures removers == if ok then old(removers) + multiset{seg} else old(removers)
    {
      Interfere();
      ok := seg in world.removable;
      if ok { removers := removers + multiset{seg}; }
    }

    method DropRemover(seg: Seg, ghost held: multiset<Seg>)
      requires Valid() && removers == held + multiset{seg}
      modifies `removers
      ensures Valid() && removers == held
    {
      removers := removers - multiset{seg};
    }

    /** Empty the slot if it publishes `loc`, in one atomic exchange. */
    method UnlinkSlot(b: nat, i: nat, key: Key, loc: Loc) returns (done: bool)
      requires Valid() && b < |world.buckets| && i < SLOTS && keys.at(loc) == key
      modifies `world, `trace, `unlinked
      ensures Onward()
      ensures unlinked == if done then old(unlinked) + [loc] else old(unlinked)
      ensures done ==> Unlinks(trace, |old(trace)|, |trace|, loc)
      ensures !done ==> SlotWithoutLoc(trace, |old(trace)|, b, i, loc)
    {
      var e := ReadSlot(b, i);
      assert EntryOk(keys, world, world.buckets[b][i]);
      done := e.Item? && e.tag == keys.tag(key) && e.loc == loc;
      if done {
        ghost var seen, w := |trace| - 1, world;
        world := world.(buckets := world.buckets[b := world.buckets[b][i := Empty]]);
        assert Exchanges(keys, w, world, b, i);
        assert Unique(keys, w) by { assert Unique(keys, trace[seen]); }
        ExchangeIsSteady(keys, w, world, b, i);
        SteadyExtends(keys, trace, world);
        trace := trace + [world];
        assert Publishes(trace[seen], b, i, loc) && Emptied(trace[seen + 1], b, i);
        unlinked := unlinked + [loc];
      } else {
        assert !Publishes(trace[|trace| - 1], b, i, loc);
      }
    }

    /** Unlink the entry of `loc`, whichever candidate slot holds it. */
    method Unlink(key: Key, loc: Loc) returns (done: bool)
      requires Valid() && keys.at(loc) == key
      modifies `world, `trace, `unlinked
      ensures Onward()
      ensures unlinked == if done then old(unlinked) + [loc] else old(unlinked)
      ensures done ==> Unlinks(trace, |old(trace)|, |trace|, loc)
      ensures !done ==> SeenUnlinked(trace, |old(trace)|, loc)
    {
      hide Steady, Unlinks, SlotWithoutLoc;
      ghost var start := |trace|;
      var n := |world.buckets|;
      for b := 0 to n
        invariant Onward() && pins == old(pins) && removers == old(removers) && unlinked == old(unlinked)
        invariant forall c, i | 0 <= c < b && 0 <= i < SLOTS :: SlotWithoutLoc(trace, start, c, i, loc)
      {
        for i := 0 to SLOTS
          invariant Onward() && pins == old(pins) && removers == old(removers) && unlinked == old(unlinked)
          invariant forall c, j | 0 <= c <= b && 0 <= j < SLOTS && (c < b || j < i) ::
                      SlotWithoutLoc(trace, start, c, j, loc)
        {
          ghost var before := trace;
          done := UnlinkSlot(b, i, key, loc);
          if done {
            UnlinksStay(trace, trace, |before|, start, |trace|, |trace|, loc);
            return true;
          }
          LocsStay(before, start, loc);
          LocSince(|before|, start, b, i, loc);
        }
      }
      return false;
    }

    lemma LocsStay(before: seq<World>, from: nat, loc: Loc)
      requires before <= trace
      ensures forall b, i | SlotWithoutLoc(before, from, b, i, loc) :: SlotWithoutLoc(trace, from, b, i, loc)
    {
      forall b, i | SlotWithoutLoc(before, from, b, i, loc) ensures SlotWithoutLoc(trace, from, b, i, loc) {
        var j :| from <= j < |before| && !Publishes(before[j], b, i, loc);
        assert trace[j] == before[j];
      }
    }

    lemma LocSince(from: nat, from': nat, b: nat, i: nat, loc: Loc)
      requires from' <= from && SlotWithoutLoc(trace, from, b, i, loc)
      ensures SlotWithoutLoc(trace, from', b, i, loc)
    {
    }

    lemma GoneSince(from: nat, from': nat, key: Key)
      requires from' <= from && SeenGone(keys, trace, from, key)
      ensures SeenGone(keys, trace, from', key)
    {
      if !AbsentOnce(keys, trace, from, key) {
        var j, m, loc: Loc :| from <= j <= m < |trace| && ExpiredAt(keys, trace, j, m, loc, key);
        assert from' <= j && ExpiredAt(keys, trace, j, m, loc, key);
      }
    }

    lemma UnlinkedSince(from: nat, from': nat, loc: Loc)
      requires from' <= from && SeenUnlinked(trace, from, loc)
      ensures SeenUnlinked(trace, from', loc)
    {
      forall b, i | 0 <= b < |trace[|trace| - 1].buckets| && 0 <= i < SLOTS
        ensures SlotWithoutLoc(trace, from', b, i, loc)
      {
        assert SlotWithoutLoc(trace, from, b, i, loc);
      }
    }

    lemma OvertakenSince(from: nat, from': nat, key: Key)
      requires from' <= from && SeenOvertaken(keys, trace, from, key)
      ensures SeenOvertaken(keys, trace, from', key)
    {
      hide OvertakenAt;
    }

    /** The segment refuses the remover pin: unlink without it, unless the segment was recycled since the lookup. */
    method UnlinkUnpinned(key: Key, loc: Loc, observed: nat) 
      returns (pass: Pass, ghost before: nat, ghost since: nat)
      requires Valid() && keys.at(loc) == key && loc.seg in world.gens
      modifies `world, `trace, `pins, `unlinked
      ensures Onward() && pins == old(pins) && removers == old(removers)
      ensures |old(trace)| < |trace|
      ensures pass.Again? || pass.Landed? || pass.Confirmed?
      ensures pass.Landed? ==> exists l: Loc :: SeenPublished(trace, since, l)
      ensures unlinked == if pass.Again? then old(unlinked) else old(unlinked) + [loc]
      ensures since <= |trace| && (!pass.Again? ==> Unlinks(trace, before, since, loc))
      ensures !pass.Again? ==> |old(trace)| < before <= |trace| 
      ensures !pass.Again? ==> loc.seg in trace[before - 1].gens && trace[before - 1].gens[loc.seg] == observed
      ensures !pass.Again? ==> forall b: nat, i: nat :: !AvailableAt(trace, |old(trace)|, b, i, loc)
      ensures pass.Again? ==>
        || (exists m :: |old(trace)| <= m < |trace| && loc.seg in trace[m].gens && trace[m].gens[loc.seg] != observed)
        || SeenUnlinked(trace, |old(trace)|, loc)
      ensures pass.Confirmed? ==> AbsentOnce(keys, trace, since, key)
    {
      hide AbsentOnce, SeenUnlinked, SeenPublished, WorldOk, Unlinks, Steady;
      since, before := |trace|, |trace|;
      var g := Generation(loc.seg);
      if g != observed {
        assert trace[|trace| - 1].gens[loc.seg] != observed;
        return Again, before, since;
      }
      before := |trace|;
      var done := Unlink(key, loc);
      if !done {
        UnlinkedSince(before, |old(trace)|, loc);
        return Again, before, since;
      }
      since := |trace|;
      ghost var tr := trace;
      pass := SeeGone(key);
      UnlinksStay(tr, trace, before, before, since, since, loc);
      UnlinkedNotAvailable(|old(trace)|, before, since, loc);
    }

    /** What this call unlinked was not there throughout. */
    lemma UnlinkedNotAvailable(from: nat, before: nat, upto: nat, loc: Loc)
      requires Valid() && from <= before && Unlinks(trace, before, upto, loc)
      ensures forall b: nat, i: nat :: !AvailableAt(trace, from, b, i, loc)
    {
      hide Steady;
      var n, c, j :| before <= n < upto - 1 && upto <= |trace| &&
        Publishes(trace[n], c, j, loc) && Emptied(trace[n + 1], c, j);
      forall b: nat, i: nat ensures !AvailableAt(trace, from, b, i, loc) {
        if b == c && i == j { assert !Publishes(trace[n + 1], b, i, loc); }
        else { OneSlotOnly(n, b, i, c, j, loc); }
      }
    }

    lemma OneSlotOnly(n: nat, b: nat, i: nat, c: nat, j: nat, loc: Loc)
      requires Valid() && n < |trace| && Publishes(trace[n], c, j, loc) && (b != c || i != j)
      ensures !Publishes(trace[n], b, i, loc)
    {
      assert Unique(keys, trace[n]);
      assert HoldsKey(keys, trace[n], c, j, keys.at(loc));
      if Publishes(trace[n], b, i, loc) { assert HoldsKey(keys, trace[n], b, i, keys.at(loc)); }
    }

    lemma UnlinkedMeansUnavailable(from: nat, loc: Loc)
      requires Valid() && SeenUnlinked(trace, from, loc) && from < |trace|
      ensures forall b: nat, i: nat :: !AvailableAt(trace, from, b, i, loc)
    {
      hide Steady;
      forall b: nat, i: nat ensures !AvailableAt(trace, from, b, i, loc) {
        if InRange(world, b, i) { assert SlotWithoutLoc(trace, from, b, i, loc); }
        else { assert !Publishes(trace[|trace| - 1], b, i, loc); }
      }
    }

    /** Look the key up once more after it was unlinked. */
    method SeeGone(key: Key) returns (pass: Pass)
      requires Valid()
      modifies `world, `trace, `pins
      ensures Onward() && pins == old(pins)
      ensures pass == Landed || (pass == Confirmed && AbsentOnce(keys, trace, |old(trace)|, key))
      ensures pass == Landed ==> exists loc: Loc :: SeenPublished(trace, |old(trace)|, loc)
    {
      hide AbsentOnce, SeenPublished, WorldOk, Steady;
      var r := LookupKey(key);
      if r.Found? { DropPin(r.loc.seg, old(pins)); }
      pass := if r.Absent? then Confirmed else Landed;
    }

    /** Unlink under the remover pin, which is then given back. */
    method UnlinkPinned(key: Key, loc: Loc, ghost held: multiset<Seg>) returns (done: bool)
      requires Valid() && keys.at(loc) == key && removers == held + multiset{loc.seg}
      modifies `world, `trace, `removers, `unlinked
      ensures Onward() && removers == held
      ensures unlinked == if done then old(unlinked) + [loc] else old(unlinked)
      ensures done ==> Unlinks(trace, |old(trace)|, |trace|, loc)
      ensures !done ==> SeenUnlinked(trace, |old(trace)|, loc)
    {
      done := Unlink(key, loc);
      DropRemover(loc.seg, held);
    }

    /** The key's entry, or nothing to remove, or no telling; with the generation read after the lookup. */
    method FindEntry(key: Key) returns (pass: Pass, loc: Loc, observed: nat)
      requires Valid()
      modifies `world, `trace, `pins
      ensures Onward() && pins == old(pins) && (pass.NotFound? || pass.Again? || pass.Landed?)
      ensures pass.NotFound? ==> SeenGone(keys, trace, |old(trace)|, key)
      ensures pass.Landed? ==> keys.at(loc) == key && loc.seg in world.gens && SeenPublished(trace, |old(trace)|, loc)
      ensures pass.Landed? ==> SeenLive(trace, |old(trace)|, loc, observed)
      ensures pass.Landed? ==> exists b: nat, i: nat :: SeenIn(trace, |old(trace)|, b, i, loc)
      ensures pass.Landed? ==>
        observed == loc.gen || forall b: nat, i: nat :: !AvailableAt(trace, |old(trace)|, b, i, loc)
      ensures pass.Again? ==> !Available(keys, trace, |old(trace)|, key)
    {
      hide AbsentOnce, SeenUnlinked, Steady, Available, SeenLive;
      ghost var start := |trace|;
      loc, observed := Loc(0, 0, 0), 0;
      var hit := LookupKey(key);
      if hit.Absent? { return NotFound, loc, observed; }
      if hit.Unknown? { return Again, loc, observed; }
      loc := hit.loc;
      DropPin(loc.seg, old(pins));
      ghost var found := trace;
      observed := Generation(loc.seg);
      ghost var read := |trace| - 1;
      var expired := IsExpired(loc.seg);
      PublishedStays(found, trace, start, start, loc);
      if expired {
        ExpiredHere(found, start, loc, key);
        return NotFound, loc, observed;
      }
      LiveHere(found, start, read, loc, observed);
      assert SeenIn(trace, start, hit.bucket, hit.slot, loc) by { InStays(found, start, hit.bucket, hit.slot, loc); }
      if observed != loc.gen { assert !Pinnable(trace[read], loc); }
      pass := Landed;
    }

    lemma InStays(tr: seq<World>, from: nat, b: nat, i: nat, loc: Loc)
      requires tr <= trace && SeenIn(tr, from, b, i, loc)
      ensures SeenIn(trace, from, b, i, loc)
    {
      var j :| from <= j < |tr| && Publishes(tr[j], b, i, loc);
      assert Publishes(trace[j], b, i, loc);
    }

    /** Found in `tr`, of generation `g` in state `q` after that, and not expired now. */
    lemma LiveHere(tr: seq<World>, from: nat, q: nat, loc: Loc, g: nat)
      requires tr <= trace && SeenPublished(tr, from, loc) && |tr| <= q < |trace|
      requires loc.seg in trace[q].gens && trace[q].gens[loc.seg] == g && Valid() && loc.seg !in world.expired
      ensures SeenLive(trace, from, loc, g)
    {
      hide Steady;
      var f, b, i :| from <= f < |tr| && Publishes(tr[f], b, i, loc);
      assert Publishes(trace[f], b, i, loc);
      assert LiveAt(trace, f, q, |trace| - 1, loc, g);
    }

    /** Unlink the entry just found, under a remover pin if its segment grants one. */
    method RemoveEntry(key: Key, loc: Loc, observed: nat, ghost from: nat) returns (pass: Pass, ghost since: nat)
      requires Valid() && keys.at(loc) == key && loc.seg in world.gens && from <= |trace|
      requires SeenPublished(trace, from, loc) && SeenLive(trace, from, loc, observed)
      modifies `world, `trace, `pins, `removers, `unlinked
      ensures Onward() && pins == old(pins) && removers == old(removers)
      ensures since <= |trace|
      ensures (pass.Removed? || pass.Confirmed? || pass.Landed? ==> TakesLive(trace, from, since, loc))
      ensures unlinked == if pass.Overtaken? || pass.Again? then old(unlinked) else old(unlinked) + [loc]
      ensures !pass.NotFound? && (pass.Overtaken? ==> SeenOvertaken(keys, trace, from, key))
      ensures pass.Again? || pass.Landed? ==>
        observed != loc.gen || forall b: nat, i: nat :: !AvailableAt(trace, |old(trace)|, b, i, loc)
      ensures pass.Confirmed? ==> AbsentOnce(keys, trace, since, key)
    {
      hide AbsentOnce, SeenUnlinked, SeenPublished, Unlinks, Rely, Steady, SeenOvertaken;
      hide SeenLive, TakesLive, AvailableAt;
      since := 0;
      ghost var tr, w := trace, world;
      var pinned := TryPinRemover(loc.seg);
      PinnedStays(keys, w, world, pins, old(removers), loc);
      ghost var w', r, granted := world, removers, trace;
      if !pinned {
        ghost var p;
        pass, p, since := UnlinkUnpinned(key, loc, observed);
        RemoversChain(w, w', world, pins, old(removers), r);
        if !pass.Again? { TakesFrom(tr, trace, from, |granted| - 1, p - 1, since, loc, observed); }
        NotThroughout(|tr|, |granted|, loc, observed, pass);
        return;
      }
      var done := UnlinkPinned(key, loc, old(removers));
      RemoversChain(w, w', world, pins, old(removers), r);
      if done {
        TakesFrom(tr, trace, from, |granted| - 1, |granted| - 1, |trace|, loc, observed);
        return Removed, |trace|;
      }
      OvertakenHere(tr, granted, from, loc, key);
      pass := Overtaken;
    }

    /** An unpinned pass that ends without an answer ends so because the entry was not there throughout. */
    lemma NotThroughout(from: nat, before: nat, loc: Loc, observed: nat, pass: Pass)
      requires Valid() && from <= before && before < |trace|
      requires !pass.Again? ==> forall b: nat, i: nat :: !AvailableAt(trace, before, b, i, loc)
      requires pass.Again? ==>
        || (exists m :: before <= m < |trace| && loc.seg in trace[m].gens && trace[m].gens[loc.seg] != observed)
        || SeenUnlinked(trace, before, loc)
      ensures observed != loc.gen || forall b: nat, i: nat :: !AvailableAt(trace, from, b, i, loc)
    {
      hide Steady, SeenUnlinked;
      if pass.Again? && SeenUnlinked(trace, before, loc) { UnlinkedMeansUnavailable(before, loc); }
      if observed == loc.gen {
        if pass.Again? && !SeenUnlinked(trace, before, loc) {
          var m :| before <= m < |trace| && loc.seg in trace[m].gens && trace[m].gens[loc.seg] != observed;
          assert !Pinnable(trace[m], loc);
        } else {
          forall b: nat, i: nat ensures !AvailableAt(trace, from, b, i, loc) {
            UnavailableStays(trace, trace, before, from, b, i, loc);
          }
        }
      }
    }

    /** Found in `tr`, pinned at the end of `granted`, and not to be unlinked after that. */
    lemma OvertakenHere(tr: seq<World>, granted: seq<World>, from: nat, loc: Loc, key: Key)
      requires tr <= granted <= trace && |tr| < |granted| && SeenPublished(tr, from, loc) && keys.at(loc) == key
      requires loc.seg in granted[|granted| - 1].removable && SeenUnlinked(trace, |granted|, loc)
      ensures SeenOvertaken(keys, trace, from, key)
    {
      hide SeenUnlinked;
      var j, b, i :| from <= j < |tr| && Publishes(tr[j], b, i, loc);
      assert Publishes(trace[j], b, i, loc) && trace[|granted| - 1] == granted[|granted| - 1];
      assert OvertakenAt(keys, trace, j, |granted| - 1, loc, key);
    }

    lemma RemoversChain(w: World, w': World, w'': World, pins: multiset<Seg>, held: multiset<Seg>, r: multiset<Seg>)
      requires Rely(keys, w, w', pins, held) && Rely(keys, w', w'', pins, r) && forall s | s in held :: s in r
      ensures Rely(keys, w, w'', pins, held)
    {
    }

    /** One pass of a delete. */
    method DeleteOnce(key: Key) returns (pass: Pass, ghost since: nat)
      requires Valid()
      modifies `world, `trace, `pins, `removers, `unlinked
      ensures Onward() && pins == old(pins) && removers == old(removers)
      ensures pass.NotFound? || pass.Overtaken? || pass.Again? ==> unlinked == old(unlinked)
      ensures since <= |trace| && (pass.Removed? || pass.Confirmed? || pass.Landed? ==> UnlinkedOne(key, since))
      ensures pass.NotFound? ==> SeenGone(keys, trace, |old(trace)|, key)
      ensures pass.Overtaken? ==> SeenOvertaken(keys, trace, |old(trace)|, key)
      ensures pass.Again? || pass.Landed? ==> !Available(keys, trace, |old(trace)|, key)
      ensures pass.Confirmed? ==> AbsentOnce(keys, trace, since, key)
    {
      hide SeenGone, SeenPublished, Unlinks, Rely, AbsentOnce, SeenOvertaken, Steady;
      hide Available, AvailableAt, SeenLive, TakesLive, SeenIn;
      since := 0;
      ghost var start := |trace|;
      var loc, observed;
      pass, loc, observed := FindEntry(key);
      if pass.Landed? {
        ghost var w, found := world, trace;
        ghost var b: nat, i: nat :| SeenIn(found, start, b, i, loc);
        pass, since := RemoveEntry(key, loc, observed, start);
        RelyChain(keys, old(world), w, world, pins, pins, pins, removers);
        if pass.Again? || pass.Landed? { FoundNotAvailable(found, start, b, i, loc, observed, key); }
      }
    }

    /** The entry found was the only one that could have been available, and was not. */
    lemma FoundNotAvailable(tr: seq<World>, from: nat, b: nat, i: nat, loc: Loc, observed: nat, key: Key)
      requires Valid() && from <= |tr| && tr <= trace && keys.at(loc) == key && SeenIn(tr, from, b, i, loc)
      requires observed == loc.gen || forall b: nat, i: nat :: !AvailableAt(tr, from, b, i, loc)
      requires observed != loc.gen || forall b: nat, i: nat :: !AvailableAt(trace, |tr|, b, i, loc)
      ensures !Available(keys, trace, from, key)
    {
      hide Steady;
      if observed == loc.gen { UnavailableStays(trace, trace, |tr|, from, b, i, loc); }
      else { UnavailableStays(tr, trace, from, from, b, i, loc); }
      var j :| from <= j < |tr| && Publishes(tr[j], b, i, loc);
      forall c: nat, d: nat, l: Loc | keys.at(l) == key ensures !AvailableAt(trace, from, c, d, l) {
        if AvailableAt(trace, from, c, d, l) { AvailableIsOne(keys, trace, from, c, d, l, j, b, i, loc, key); }
      }
    }

    /** This step unlinked exactly one location, an entry of the key, before `since`. */
    twostate predicate UnlinkedOne(key: Key, since: nat)
      reads this
    {
      && |unlinked| == |old(unlinked)| + 1 && old(unlinked) <= unlinked && since <= |trace|
      && keys.at(unlinked[|old(unlinked)|]) == key && TakesLive(trace, |old(trace)|, since, unlinked[|old(unlinked)|])
    }

    /** From the `n`-th location on, everything unlinked is an entry of the key emptied between `from` and `upto`. */
    ghost predicate UnlinkedOnly(key: Key, n: nat, from: nat, upto: nat)
      reads this
    {
      forall k | n <= k < |unlinked| :: keys.at(unlinked[k]) == key && TakesLive(trace, from, upto, unlinked[k])
    }

    lemma UnlinkedOnlyStays(before: seq<World>, had: seq<Loc>, key: Key, n: nat, from: nat, upto: nat, upto': nat)
      requires before <= trace && n <= |had| && had <= unlinked && |unlinked| <= |had| + 1 && upto <= upto' <= |trace|
      requires forall k | n <= k < |had| :: keys.at(had[k]) == key && TakesLive(before, from, upto, had[k])
      requires |unlinked| > |had| ==>
        keys.at(unlinked[|had|]) == key && TakesLive(trace, |before|, upto', unlinked[|had|])
      requires from <= |before|
      ensures UnlinkedOnly(key, n, from, upto')
    {
      forall k | n <= k < |unlinked| ensures keys.at(unlinked[k]) == key && TakesLive(trace, from, upto', unlinked[k]) {
        if k < |had| { TakesStays(before, trace, from, from, upto, upto', had[k]); }
        else { TakesStays(trace, trace, |before|, from, upto', upto', unlinked[k]); }
      }
    }

    /**
     * The delete is acknowledged exactly when this call unlinked an entry, on
     * every exit, and every entry it unlinked was the key's, published and
     * emptied between the start of the call and `since`. A negative answer means
     * that the key had no entry at an instant of the call, or that the segment of
     * the entry found was then seen expired, or that the call was overtaken: the
     * entry it had found was gone when its remover pin had been granted. So the
     * key was absent or expired at an instant, or replaced in place. A positive
     * answer without a remover pin means the same of the time after `since`. No
     * pin is kept. `patience` bounds the retries.
     */
    method Delete(key: Key, patience: nat)
      returns (r: Deleted, ghost underPin: bool, ghost lost: bool, ghost since: nat)
      requires Valid()
      modifies `world, `trace, `pins, `removers, `unlinked
      ensures Onward() && pins == old(pins) && removers == old(removers)
      ensures old(unlinked) <= unlinked && UnlinkedOnly(key, |old(unlinked)|, |old(trace)|, since)
      ensures |old(trace)| <= since <= |trace|
      ensures r.Ack? ==> (r.removed <==> |unlinked| > |old(unlinked)|)
      ensures r == Ack(false) || (r == Ack(true) && !underPin) ==>
                if lost then SeenOvertaken(keys, trace, since, key) else SeenGone(keys, trace, since, key)
      ensures r == Ack(false) || (r == Ack(true) && !underPin) ==> Excused(keys, trace, since, key)
      ensures lost ==> r.Ack? && !underPin
      ensures r != Ack(true) ==> !Available(keys, trace, |old(trace)|, key)
    {
      hide SeenGone, SeenOvertaken, SeenPublished, TakesLive, Rely, WorldOk, AbsentOnce, Steady, Excused, Available;
      ghost var tries := 0;
      ghost var start := |trace|;
      var done, left := false, patience;
      underPin, lost, since := false, false, start;
      RelySelf(pins);
      while true
        invariant Onward() && pins == old(pins) && removers == old(removers)
        invariant start <= since <= |trace| && !lost
        invariant old(unlinked) <= unlinked && UnlinkedOnly(key, |old(unlinked)|, start, since)
        invariant tries > 0 ==> !Available(keys, trace, start, key)
        invariant !done ==> since == start
        invariant done <==> |unlinked| > |old(unlinked)|
        decreases left
      {
        ghost var w, tr, had, until := world, trace, unlinked, since;
        var pass;
        ghost var after;
        pass, after := DeleteOnce(key);
        RelyChain(keys, old(world), w, world, pins, pins, pins, removers);
        if pass.Removed? || pass.Confirmed? || pass.Landed? {
          TakesEnds(|tr|, after, unlinked[|had|]);
          since := after;
        }
        UnlinkedOnlyStays(tr, had, key, |old(unlinked)|, start, until, since);
        match pass {
          case NotFound =>
            GoneSince(|tr|, since, key);
            GoneIsExcused(since, key);
            if !done { ExcusedIsUnavailable(keys, trace, start, key); }
            return Ack(done), false, false, since;
          case Overtaken =>
            OvertakenSince(|tr|, since, key);
            OvertakenIsExcused(since, key);
            if !done { ExcusedIsUnavailable(keys, trace, start, key); }
            return Ack(done), false, true, since;
          case Removed => return Ack(true), true, false, since;
          case Confirmed =>
            AbsentIsGone(since, key);
            GoneIsExcused(since, key);
            return Ack(true), false, false, since;
          case Landed => done := true;
          case Again =>
        }
        NotAvailableStays(keys, trace, trace, |tr|, start, key);
        tries := tries + 1;
        if left == 0 { return Retrying, false, false, since; }
        left := left - 1;
      }
    }

    lemma AbsentIsGone(from: nat, key: Key)
      requires AbsentOnce(keys, trace, from, key)
      ensures SeenGone(keys, trace, from, key)
    {
    }

    lemma TakesEnds(from: nat, upto: nat, loc: Loc)
      requires TakesLive(trace, from, upto, loc)
      ensures from < upto <= |trace|
    {
    }
  }
}
