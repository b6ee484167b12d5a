/**
 * The life of one segment under any number of readers, drainers and reservers,
 * one atomic access per step: pinning with back-out, draining, condemning, and
 * the three claimants that may free a condemned segment.
 */
module SegmentHandoff {

  type Tid = nat

  const TAGS := 0x100
  const GENERATIONS := 0x1_0000

  /** The state in the metadata word; a condemned word carries a tag. */
  datatype Seg = Free | Reserved | Linking | Live | Sealed | Relinking | Draining | AwaitingRelease(tag: nat)
  {
    predicate Readable() { Live? || Sealed? || Relinking? }

    /** The bytes of the current incarnation are in place. */
    predicate Held() { Readable() || Draining? || AwaitingRelease? }
  }

  datatype Pc =
    | Idle
    // a reader; `inc` is the incarnation it pinned
    | Checked
    | Counted
    | Pinned(inc: nat)
    | BackingOut
    // a claimant: it saw the reader count reach zero when `at` condemns had happened
    | LastOut(at: nat)
    | HasToken(at: nat, tag: nat, seen: nat)
    // the owner of a free segment on its way to a queue
    | Freed
    | Returning(used: bool)
    // a reserver
    | Taken
    | Preparing
    | Filling
    // a drainer
    | Claimed
    | Recycling
    | Condemning
    | Condemned
  {
    /** The thread is counted in the reader count. */
    predicate Counts() { Counted? || Pinned? || BackingOut? }

    /** The thread alone decides what happens to the segment next. */
    predicate Owns() {
      Freed? || Returning? || Taken? || Preparing? || Filling? || Claimed? || Recycling? || Condemning?
    }
  }

  /**
   * `queue` is how often the segment is in the free or spare queue; `ended`,
   * `condemns` and `returned` count the used incarnations ended, the condemns,
   * and the pushes that followed the end of a used incarnation.
   */
  datatype State = State(seg: Seg, refs: nat, gen: nat, queue: nat, threads: map<Tid, Pc>,
                         ended: nat, condemns: nat, returned: nat)
  {
    function At(t: Tid, pc: Pc): State { this.(threads := threads[t := pc]) }
  }

  ghost predicate Init(s: State) {
    && s.seg == Free && s.refs == 0 && s.gen == 0 && s.queue == 1
    && s.ended == 0 && s.condemns == 0 && s.returned == 0
    && forall t | t in s.threads :: s.threads[t] == Idle
  }

  // ----- Steps -----

  ghost predicate ReadStep(s: State, s': State, t: Tid)
    requires t in s.threads
  {
    match s.threads[t]
    case Idle => s.seg.Readable() && s' == s.At(t, Checked)
    case Checked => s' == s.(refs := s.refs + 1).At(t, Counted)
    case Counted => s' == s.At(t, if s.seg.Readable() then Pinned(s.ended) else BackingOut)
    case Pinned(_) => Decrement(s, s', t)
    case BackingOut => Decrement(s, s', t)
    case _ => false
  }

  /** Drop a pin; the thread that drops the last one goes on to look at the state. */
  ghost predicate Decrement(s: State, s': State, t: Tid) {
    s.refs > 0 && s' == s.(refs := s.refs - 1).At(t, if s.refs == 1 then LastOut(s.condemns) else Idle)
  }

  ghost predicate ClaimStep(s: State, s': State, t: Tid)
    requires t in s.threads
  {
    match s.threads[t]
    case LastOut(at) =>
      s' == s.At(t, if s.seg.AwaitingRelease? then HasToken(at, s.seg.tag, s.ended) else Idle)
    case HasToken(at, tag, seen) =>
      s' == if s.seg == AwaitingRelease(tag) then s.(seg := Free, ended := s.ended + 1).At(t, Freed) else s.At(t, Idle)
    case Freed => s' == s.(gen := (s.gen + 1) % GENERATIONS).At(t, Returning(true))
    case Returning(used) =>
      s' == s.(queue := s.queue + 1, returned := s.returned + if used then 1 else 0).At(t, Idle)
    case _ => false
  }

  ghost predicate ReserveStep(s: State, s': State, t: Tid)
    requires t in s.threads
  {
    match s.threads[t]
    case Idle =>
      || (s.queue > 0 && s' == s.(queue := s.queue - 1).At(t, Taken))
      || (s.seg.Live? && s' == s.(seg := Sealed))
    case Taken =>
      s' == if s.seg.Free? then s.(seg := Reserved).At(t, Preparing) else s.(queue := s.queue + 1).At(t, Idle)
    case Preparing =>
      || (s.seg.Reserved? && s' == s.(seg := Linking))
      || (s.seg.Linking? && (s' == s.(seg := Live).At(t, Idle) || s' == s.(seg := Relinking).At(t, Filling)))
      || ((s.seg.Reserved? || s.seg.Linking?) && s' == s.(seg := Free).At(t, Returning(false)))
    case Filling => s.seg.Relinking? && s' == s.(seg := Sealed).At(t, Idle)
    case _ => false
  }

  ghost predicate DrainStep(s: State, s': State, t: Tid)
    requires t in s.threads
  {
    match s.threads[t]
    case Idle => (s.seg.Sealed? || s.seg.Live?) && s' == s.(seg := Draining).At(t, Claimed)
    case Claimed => s' == s.At(t, if s.refs == 0 then Recycling else Condemning)
    case Recycling => s.seg.Draining? && s' == s.(seg := Free, ended := s.ended + 1).At(t, Freed)
    case Condemning =>
      s.seg.Draining? && s' == s.(seg := AwaitingRelease(s.gen % TAGS), condemns := s.condemns + 1).At(t, Condemned)
    case Condemned => s' == s.At(t, if s.refs == 0 then LastOut(s.condemns) else Idle)
    case _ => false
  }

  ghost predicate Step(s: State, s': State, t: Tid) {
    t in s.threads && (ReadStep(s, s', t) || ClaimStep(s, s', t) || ReserveStep(s, s', t) || DrainStep(s, s', t))
  }

  // ----- Invariant -----

  function Pins(s: State): set<Tid> { set t | t in s.threads && s.threads[t].Counts() }

  function Owners(s: State): set<Tid> { set t | t in s.threads && s.threads[t].Owns() }

  predicate InUse(seg: Seg) { seg.Live? || seg.Sealed? || seg.AwaitingRelease? }

  /** A used incarnation has ended and its generation is not spent yet. */
  ghost predicate Unspent(s: State) { exists t | t in s.threads :: s.threads[t].Freed? }

  /** A used incarnation has ended and the segment is not back in a queue yet. */
  ghost predicate Unreturned(s: State) {
    exists t | t in s.threads :: s.threads[t].Freed? || s.threads[t] == Returning(true)
  }

  ghost predicate NonePinned(s: State) { forall t | t in s.threads :: !s.threads[t].Pinned? }

  ghost predicate PcOk(s: State, t: Tid)
    requires t in s.threads
  {
    match s.threads[t]
    case Pinned(inc) => inc <= s.ended && (inc == s.ended ==> s.seg.Held())
    case LastOut(at) => at <= s.condemns && (at == s.condemns && s.seg.AwaitingRelease? ==> NonePinned(s))
    case HasToken(at, tag, seen) =>
      && at <= s.condemns && (at == s.condemns && s.seg.AwaitingRelease? ==> NonePinned(s))
      && seen <= s.ended && tag == seen % TAGS
    case Freed => s.seg.Free?
    case Returning(_) => s.seg.Free?
    case Taken => s.seg.Free?
    case Preparing => s.seg.Reserved? || s.seg.Linking?
    case Filling => s.seg.Relinking?
    case Claimed => s.seg.Draining?
    case Recycling => s.seg.Draining? && NonePinned(s)
    case Condemning => s.seg.Draining?
    case _ => true
  }

  /** A thread that is going to try to free the condemned segment. */
  ghost predicate WillTry(s: State, t: Tid)
    requires t in s.threads
  {
    s.threads[t].Condemned? || s.threads[t].LastOut?
    || (s.threads[t].HasToken? && s.seg == AwaitingRelease(s.threads[t].tag))
  }

  /** The segment is with one owner, in one queue or in use: exactly one of them. */
  ghost predicate Conserved(s: State) {
    && |Owners(s)| + s.queue + (if InUse(s.seg) then 1 else 0) == 1
    && (s.queue > 0 ==> s.seg.Free?)
  }

  ghost predicate Counters(s: State) {
    && s.refs == |Pins(s)|
    && s.ended == s.returned + (if Unreturned(s) then 1 else 0)
    && (Unspent(s) ==> s.ended > 0)
    && s.gen == (if Unspent(s) then s.ended - 1 else s.ended) % GENERATIONS
    && (s.seg.AwaitingRelease? ==> s.seg.tag == s.ended % TAGS)
  }

  ghost predicate NotLeaked(s: State) {
    s.seg.AwaitingRelease? && s.refs == 0 ==> exists t | t in s.threads :: WillTry(s, t)
  }

  ghost predicate Inv(s: State) {
    && Conserved(s) && Counters(s) && NotLeaked(s)
    && forall t | t in s.threads :: PcOk(s, t)
  }

  // ----- Counting threads -----

  function Delta(before: bool, after: bool): int {
    if after && !before then 1 else if before && !after then -1 else 0
  }

  lemma PinsAt(s: State, s': State, t: Tid)
    requires t in s.threads && t in s'.threads && s'.threads == s.threads[t := s'.threads[t]]
    ensures |Pins(s')| == |Pins(s)| + Delta(s.threads[t].Counts(), s'.threads[t].Counts())
  {
    var rest := Pins(s) - {t};
    assert Pins(s) == if s.threads[t].Counts() then rest + {t} else rest;
    assert Pins(s') == if s'.threads[t].Counts() then rest + {t} else rest;
  }

  lemma OwnersAt(s: State, s': State, t: Tid)
    requires t in s.threads && t in s'.threads && s'.threads == s.threads[t := s'.threads[t]]
    ensures |Owners(s')| == |Owners(s)| + Delta(s.threads[t].Owns(), s'.threads[t].Owns())
  {
    var rest := Owners(s) - {t};
    assert Owners(s) == if s.threads[t].Owns() then rest + {t} else rest;
    assert Owners(s') == if s'.threads[t].Owns() then rest + {t} else rest;
  }

  /** One thread moved: the two sets of threads change by at most that thread. */
  lemma SetsAt(s: State, s': State, t: Tid)
    requires t in s.threads && t in s'.threads && s'.threads == s.threads[t := s'.threads[t]]
    ensures |Pins(s')| == |Pins(s)| + Delta(s.threads[t].Counts(), s'.threads[t].Counts())
    ensures |Owners(s')| == |Owners(s)| + Delta(s.threads[t].Owns(), s'.threads[t].Owns())
  {
    PinsAt(s, s', t);
    OwnersAt(s, s', t);
  }

  /** The phases of an ended incarnation, told by its one owner. */
  lemma OwnerTells(s: State, t: Tid)
    requires Conserved(s) && t in s.threads && s.threads[t].Owns()
    ensures s.queue == 0 && !InUse(s.seg) && forall u | u in s.threads && u != t :: !s.threads[u].Owns()
    ensures Unspent(s) <==> s.threads[t].Freed?
    ensures Unreturned(s) <==> s.threads[t].Freed? || s.threads[t] == Returning(true)
  {
    assert t in Owners(s) && |Owners(s)| == 1;
    assert |Owners(s) - {t}| == 0;
    forall u | u in s.threads && u != t ensures !s.threads[u].Owns() {
      assert u !in Owners(s) - {t};
    }
  }

  lemma NoOwner(s: State)
    requires Conserved(s) && (InUse(s.seg) || s.queue > 0)
    ensures !Unspent(s) && !Unreturned(s) && forall u | u in s.threads :: !s.threads[u].Owns()
  {
    assert |Owners(s)| == 0;
    forall u | u in s.threads ensures !s.threads[u].Owns() {
      assert u !in Owners(s);
    }
  }

  lemma NobodyPinned(s: State)
    requires Counters(s) && s.refs == 0
    ensures NonePinned(s)
  {
    forall t | t in s.threads ensures !s.threads[t].Pinned? {
      assert t !in Pins(s);
    }
  }

  // ----- Preservation -----

  /** A step of a thread that owns nothing before or after, and leaves the segment's state alone. */
  lemma AsideKept(s: State, s': State, t: Tid)
    requires Inv(s) && t in s.threads && t in s'.threads && s'.threads == s.threads[t := s'.threads[t]]
    requires !s.threads[t].Owns() && !s'.threads[t].Owns()
    requires s' == s.(refs := s'.refs, threads := s'.threads)
    requires s'.refs == s.refs + Delta(s.threads[t].Counts(), s'.threads[t].Counts())
    requires s'.threads[t].Pinned? ==> s.seg.Readable()
    requires PcOk(s', t) && NotLeaked(s')
    ensures Inv(s')
  {
    SetsAt(s, s', t);
    assert Unspent(s') <==> Unspent(s) by {
      if u :| u in s.threads && s.threads[u].Freed? { assert u in s'.threads && s'.threads[u].Freed?; }
    }
    assert Unreturned(s') <==> Unreturned(s) by {
      if u :| u in s.threads && (s.threads[u].Freed? || s.threads[u] == Returning(true)) {
        assert u in s'.threads && s'.threads[u] == s.threads[u];
      }
    }
    forall u | u in s'.threads ensures PcOk(s', u) {
      assert PcOk(s, u);
      if NonePinned(s) && !s'.threads[t].Pinned? { assert NonePinned(s'); }
    }
  }

  lemma ReadKept(s: State, s': State, t: Tid)
    requires Inv(s) && t in s.threads && ReadStep(s, s', t)
    ensures Inv(s')
  {
    SetsAt(s, s', t);
    if s'.threads[t].LastOut? {
      assert |Pins(s')| == 0;
      forall u | u in s'.threads ensures !s'.threads[u].Pinned? { assert u !in Pins(s'); }
      assert t in s'.threads && WillTry(s', t);
    }
    if s.seg.AwaitingRelease? && s'.refs == 0 && s.refs == 0 {
      var u :| u in s.threads && WillTry(s, u);
      assert u in s'.threads && WillTry(s', u);
    }
    AsideKept(s, s', t);
  }

  lemma LookKept(s: State, s': State, t: Tid)
    requires Inv(s) && t in s.threads && s.threads[t].LastOut? && ClaimStep(s, s', t)
    ensures Inv(s')
  {
    assert PcOk(s, t);
    if s.seg.AwaitingRelease? { assert t in s'.threads && WillTry(s', t); }
    AsideKept(s, s', t);
  }

  lemma WinKept(s: State, s': State, t: Tid)
    requires Inv(s) && t in s.threads && s.threads[t].HasToken? && ClaimStep(s, s', t)
    ensures Inv(s')
  {
    assert PcOk(s, t);
    if s.seg == AwaitingRelease(s.threads[t].tag) {
      NoOwner(s);
      SetsAt(s, s', t);
      assert t in s'.threads && s'.threads[t].Freed?;
      forall u | u in s'.threads ensures PcOk(s', u) { assert PcOk(s, u); }
    } else {
      if s.seg.AwaitingRelease? && s.refs == 0 {
        var u :| u in s.threads && WillTry(s, u);
        assert u in s'.threads && WillTry(s', u);
      }
      AsideKept(s, s', t);
    }
  }

  lemma ReturnKept(s: State, s': State, t: Tid)
    requires Inv(s) && t in s.threads && (s.threads[t].Freed? || s.threads[t].Returning?) && ClaimStep(s, s', t)
    ensures Inv(s')
  {
    assert PcOk(s, t);
    OwnerTells(s, t);
    SetsAt(s, s', t);
    if s.threads[t].Freed? {
      OwnerTells(s', t);
      GenerationSpent(s.ended);
    } else {
      NoOwner(s');
    }
    forall u | u in s'.threads ensures PcOk(s', u) { assert PcOk(s, u); }
  }

  lemma GenerationSpent(ended: nat)
    requires ended > 0
    ensures ((ended - 1) % GENERATIONS + 1) % GENERATIONS == ended % GENERATIONS
  {
  }

  lemma TagOfGeneration(ended: nat)
    ensures ended % GENERATIONS % TAGS == ended % TAGS
  {
    assert ended == ended / GENERATIONS * GENERATIONS + ended % GENERATIONS;
    assert ended / GENERATIONS * GENERATIONS == ended / GENERATIONS * TAGS * TAGS;
    ModOfMultiple(ended / GENERATIONS * TAGS, ended % GENERATIONS);
  }

  lemma ModOfMultiple(k: nat, r: nat)
    ensures (k * TAGS + r) % TAGS == r % TAGS
  {
  }

  lemma ReserveKept(s: State, s': State, t: Tid)
    requires Inv(s) && t in s.threads && ReserveStep(s, s', t)
    ensures Inv(s')
  {
    hide Conserved, Counters, NotLeaked, PcOk, ReserveStep;
    ReserveCounts(s, s', t);
    forall u | u in s'.threads ensures PcOk(s', u) {
      assert PcOk(s, t) && PcOk(s, u);
      ReservePcKept(s, s', t, u);
    }
  }

  lemma ReserveCounts(s: State, s': State, t: Tid)
    requires Inv(s) && t in s.threads && ReserveStep(s, s', t)
    ensures Conserved(s') && Counters(s') && NotLeaked(s') && s'.threads.Keys == s.threads.Keys
  {
    assert PcOk(s, t);
    SetsAt(s, s', t);
    if s.threads[t].Idle? { NoOwner(s); } else { OwnerTells(s, t); }
    if s'.threads[t].Owns() { OwnerTells(s', t); } else { NoOwner(s'); }
  }

  lemma ReservePcKept(s: State, s': State, t: Tid, u: Tid)
    requires Conserved(s) && t in s.threads && ReserveStep(s, s', t) && u in s.threads && u in s'.threads
    requires PcOk(s, t) && PcOk(s, u)
    ensures PcOk(s', u)
  {
    if s.threads[t].Idle? { NoOwner(s); } else { OwnerTells(s, t); }
  }

  lemma DrainKept(s: State, s': State, t: Tid)
    requires Inv(s) && t in s.threads && (s.threads[t].Idle? || s.threads[t].Claimed? || s.threads[t].Recycling?)
    requires DrainStep(s, s', t)
    ensures Inv(s')
  {
    assert PcOk(s, t);
    SetsAt(s, s', t);
    if s.threads[t].Idle? { NoOwner(s); } else { OwnerTells(s, t); }
    OwnerTells(s', t);
    if s'.threads[t].Recycling? { NobodyPinned(s); }
    forall u | u in s'.threads ensures PcOk(s', u) { assert PcOk(s, u); }
  }

  lemma CondemnKept(s: State, s': State, t: Tid)
    requires Inv(s) && t in s.threads && s.threads[t].Condemning? && DrainStep(s, s', t)
    ensures Inv(s')
  {
    assert PcOk(s, t);
    SetsAt(s, s', t);
    OwnerTells(s, t);
    NoOwner(s');
    TagOfGeneration(s.ended);
    assert t in s'.threads && WillTry(s', t);
    forall u | u in s'.threads ensures PcOk(s', u) { assert PcOk(s, u); }
  }

  lemma RecheckKept(s: State, s': State, t: Tid)
    requires Inv(s) && t in s.threads && s.threads[t].Condemned? && DrainStep(s, s', t)
    ensures Inv(s')
  {
    if s.refs == 0 {
      NobodyPinned(s);
      assert t in s'.threads && WillTry(s', t);
    }
    AsideKept(s, s', t);
  }

  lemma StepKeepsInv(s: State, s': State, t: Tid)
    requires Inv(s) && Step(s, s', t)
    ensures Inv(s')
  {
    if ReadStep(s, s', t) { ReadKept(s, s', t); }
    else if ReserveStep(s, s', t) { ReserveKept(s, s', t); }
    else if ClaimStep(s, s', t) {
      match s.threads[t]
      case LastOut(_) => LookKept(s, s', t);
      case HasToken(_, _, _) => WinKept(s, s', t);
      case _ => ReturnKept(s, s', t);
    } else {
      match s.threads[t]
      case Condemning => CondemnKept(s, s', t);
      case Condemned => RecheckKept(s, s', t);
      case _ => DrainKept(s, s', t);
    }
  }

  // ----- Runs -----

  ghost predicate Moves(s: State, s': State) { exists t :: Step(s, s', t) }

  ghost predicate Run(run: seq<State>) {
    && run != [] && Init(run[0])
    && forall i, j | 0 <= i && j == i + 1 < |run| :: Moves(run[i], run[j])
  }

  lemma InitInv(s: State)
    requires Init(s)
    ensures Inv(s)
  {
    assert Pins(s) == {} && Owners(s) == {};
  }

  lemma {:induction false} RunInv(run: seq<State>, n: nat)
    requires Run(run) && n < |run|
    ensures Inv(run[n])
  {
    if n == 0 {
      InitInv(run[0]);
    } else {
      RunInv(run, n - 1);
      assert Moves(run[n - 1], run[n]);
      var t :| Step(run[n - 1], run[n], t);
      StepKeepsInv(run[n - 1], run[n], t);
    }
  }

  /**
   * In every run the segment is in one queue, in use, or with one owner, never
   * in two of these and never in none; every used incarnation that ended has
   * been returned to a queue once or is on its one owner's way there; and the
   * generation counts the ended incarnations, but for the one whose owner is
   * about to spend it.
   */
  lemma FreedExactlyOnce(run: seq<State>)
    requires Run(run)
    ensures var s := run[|run| - 1];
      && |Owners(s)| + s.queue + (if InUse(s.seg) then 1 else 0) == 1
      && (s.queue > 0 ==> s.seg.Free?)
      && s.ended == s.returned + (if Unreturned(s) then 1 else 0)
      && (if Unspent(s) then s.ended > 0 && s.gen == (s.ended - 1) % GENERATIONS else s.gen == s.ended % GENERATIONS)
      && s.refs == |Pins(s)|
  {
    RunInv(run, |run| - 1);
  }

  /**
   * In every run a condemned segment without readers has a thread that is going
   * to try to free it, with a token the state word still matches once it has
   * loaded one. Once all threads rest or hold a pin, the segment is in its queue
   * or in service, or condemned and held by a pin whose drop will free it.
   */
  lemma NeverLeaked(run: seq<State>)
    requires Run(run)
    ensures var s := run[|run| - 1];
      && (s.seg.AwaitingRelease? && s.refs == 0 ==> exists t | t in s.threads :: WillTry(s, t))
      && ((forall t | t in s.threads :: s.threads[t].Idle? || s.threads[t].Pinned?) ==>
            || (s.seg.Free? && s.queue == 1)
            || s.seg.Live? || s.seg.Sealed?
            || (s.seg.AwaitingRelease? && exists t | t in s.threads :: s.threads[t].Pinned?))
  {
    var s := run[|run| - 1];
    RunInv(run, |run| - 1);
    if forall t | t in s.threads :: s.threads[t].Idle? || s.threads[t].Pinned? {
      assert Owners(s) == {};
      if s.seg.AwaitingRelease? {
        assert s.refs != 0;
        var t :| t in Pins(s);
      }
    }
  }

  /** The last reader of a condemned segment drops its pin while nobody else moves. */
  lemma LastDropFrees(s: State, t: Tid) returns (run: seq<State>)
    requires Inv(s) && t in s.threads && s.seg.AwaitingRelease? && s.threads[t].Pinned? && s.refs == 1
    ensures |run| == 6 && run[0] == s && forall i, j | 0 <= i && j == i + 1 < 6 :: Step(run[i], run[j], t)
    ensures run[5].seg.Free? && run[5].queue == 1 && run[5].returned == run[5].ended == s.ended + 1
    ensures run[5].gen == (s.gen + 1) % GENERATIONS
  {
    NoOwner(s);
    var s1 := s.(refs := 0).At(t, LastOut(s.condemns));
    var s2 := s1.At(t, HasToken(s.condemns, s.seg.tag, s.ended));
    var s3 := s2.(seg := Free, ended := s.ended + 1).At(t, Freed);
    var s4 := s3.(gen := (s.gen + 1) % GENERATIONS).At(t, Returning(true));
    var s5 := s4.(queue := s.queue + 1, returned := s.returned + 1).At(t, Idle);
    run := [s, s1, s2, s3, s4, s5];
    assert ReadStep(s, s1, t) && ClaimStep(s1, s2, t) && ClaimStep(s2, s3, t)
           && ClaimStep(s3, s4, t) && ClaimStep(s4, s5, t);
  }

  /** An undisturbed drain of a segment nobody has pinned puts it in the queue with the next generation. */
  lemma DrainAlone(s: State, t: Tid) returns (run: seq<State>)
    requires Inv(s) && t in s.threads && s.threads[t].Idle? && (s.seg.Sealed? || s.seg.Live?) && s.refs == 0
    ensures |run| == 6 && run[0] == s && forall i, j | 0 <= i && j == i + 1 < 6 :: Step(run[i], run[j], t)
    ensures run[5].seg.Free? && run[5].queue == 1 && run[5].returned == run[5].ended == s.ended + 1
    ensures run[5].gen == (s.gen + 1) % GENERATIONS && run[5].condemns == s.condemns
  {
    NoOwner(s);
    var s1 := s.(seg := Draining).At(t, Claimed);
    var s2 := s1.At(t, Recycling);
    var s3 := s2.(seg := Free, ended := s.ended + 1).At(t, Freed);
    var s4 := s3.(gen := (s.gen + 1) % GENERATIONS).At(t, Returning(true));
    var s5 := s4.(queue := s.queue + 1, returned := s.returned + 1).At(t, Idle);
    run := [s, s1, s2, s3, s4, s5];
    assert DrainStep(s, s1, t) && DrainStep(s1, s2, t) && DrainStep(s2, s3, t);
    assert ClaimStep(s3, s4, t) && ClaimStep(s4, s5, t);
  }

  /** An undisturbed reader pins a segment in service, whichever of the three states it is in. */
  lemma PinAlone(s: State, t: Tid) returns (run: seq<State>)
    requires t in s.threads && s.threads[t].Idle? && (s.seg.Live? || s.seg.Sealed? || s.seg.Relinking?)
    ensures |run| == 4 && run[0] == s && forall i, j | 0 <= i && j == i + 1 < 4 :: Step(run[i], run[j], t)
    ensures run[3] == s.(refs := s.refs + 1).At(t, Pinned(s.ended))
  {
    var s1 := s.At(t, Checked);
    var s2 := s1.(refs := s.refs + 1).At(t, Counted);
    var s3 := s2.At(t, Pinned(s.ended));
    run := [s, s1, s2, s3];
    assert ReadStep(s, s1, t) && ReadStep(s1, s2, t) && ReadStep(s2, s3, t);
    assert s3.threads == s.threads[t := Pinned(s.ended)];
  }

  /** A pin is granted in those three states only; a reader that finds another backs out. */
  lemma PinGrantedExactly(s: State, s': State, t: Tid)
    requires t in s.threads && s.threads[t].Counted? && Step(s, s', t)
    ensures t in s'.threads && s' == s.At(t, s'.threads[t])
    ensures s'.threads[t] == if s.seg.Live? || s.seg.Sealed? || s.seg.Relinking? then Pinned(s.ended) else BackingOut
  {
    assert ReadStep(s, s', t);
  }

  /** A reserved segment goes into service at once, or after it has been filled, or back to the queue unused. */
  lemma ReserveAlone(s: State, t: Tid, filled: bool, used: bool) returns (run: seq<State>)
    requires t in s.threads && s.threads[t].Idle? && s.queue > 0 && s.seg.Free?
    ensures |run| >= 4 && run[0] == s && forall i, j | 0 <= i && j == i + 1 < |run| :: Step(run[i], run[j], t)
    ensures var s' := run[|run| - 1];
      && t in s'.threads && s'.threads[t].Idle? && s'.gen == s.gen && s'.ended == s.ended && s'.returned == s.returned
      && (if used then s'.queue == s.queue - 1 && s'.seg == (if filled then Sealed else Live)
          else s'.queue == s.queue && s'.seg == Free)
  {
    var s1 := s.(queue := s.queue - 1).At(t, Taken);
    var s2 := s1.(seg := Reserved).At(t, Preparing);
    var s3 := s2.(seg := Linking);
    assert ReserveStep(s, s1, t) && ReserveStep(s1, s2, t) && ReserveStep(s2, s3, t);
    if !used {
      var s4 := s3.(seg := Free).At(t, Returning(false));
      var s5 := s4.(queue := s.queue).At(t, Idle);
      assert ReserveStep(s3, s4, t) && ClaimStep(s4, s5, t);
      run := [s, s1, s2, s3, s4, s5];
    } else if filled {
      var s4 := s3.(seg := Relinking).At(t, Filling);
      var s5 := s4.(seg := Sealed).At(t, Idle);
      assert ReserveStep(s3, s4, t) && ReserveStep(s4, s5, t);
      run := [s, s1, s2, s3, s4, s5];
    } else {
      var s4 := s3.(seg := Live).At(t, Idle);
      assert ReserveStep(s3, s4, t);
      run := [s, s1, s2, s3, s4];
    }
  }

  /**
   * In every run a claimant that frees the segment with a token it loaded in an
   * earlier incarnation has been stalled for a whole multiple of 256 of them.
   */
  lemma StaleTokenAliases(run: seq<State>, t: Tid)
    requires Run(run) && t in run[|run| - 1].threads && run[|run| - 1].threads[t].HasToken?
    requires run[|run| - 1].seg == AwaitingRelease(run[|run| - 1].threads[t].tag)
    ensures var s := run[|run| - 1];
      s.threads[t].seen <= s.ended && (s.ended - s.threads[t].seen) % TAGS == 0
  {
    RunInv(run, |run| - 1);
    var s := run[|run| - 1];
    assert PcOk(s, t);
    EqualTags(s.threads[t].seen, s.ended);
  }

  lemma EqualTags(a: nat, b: nat)
    requires a <= b && a % TAGS == b % TAGS
    ensures (b - a) % TAGS == 0
  {
  }

  // ----- Pins and the end of an incarnation -----

  /** Every pin holds the incarnation it was taken in. */
  ghost predicate PinsValid(s: State) {
    forall t | t in s.threads && s.threads[t].Pinned? :: s.threads[t].inc == s.ended
  }

  /** The thread is about to free the condemned segment, and somebody holds a pin on it. */
  ghost predicate FreesPinned(s: State, t: Tid) {
    && t in s.threads && s.threads[t].HasToken? && s.seg == AwaitingRelease(s.threads[t].tag)
    && !NonePinned(s)
  }

  /**
   * A step takes the incarnation from under a pin exactly when it is that of a
   * claimant whose token the state word matches while a pin is held; and such a
   * claimant last looked at the reader count before the condemn.
   */
  lemma PinsSurviveExactly(s: State, s': State, t: Tid)
    requires Inv(s) && Step(s, s', t) && PinsValid(s)
    ensures PinsValid(s') <==> !FreesPinned(s, t)
    ensures FreesPinned(s, t) ==> s.threads[t].at < s.condemns
  {
    assert PcOk(s, t);
    if !NonePinned(s) && s'.ended == s.ended + 1 {
      var u :| u in s.threads && s.threads[u].Pinned?;
      assert u in s'.threads && s'.threads[u] == s.threads[u];
    }
  }

  /** Every pin holds its own incarnation, whose bytes are in place. */
  ghost predicate PinsHold(s: State) {
    forall t | t in s.threads && s.threads[t].Pinned? :: s.threads[t].inc == s.ended && s.seg.Held()
  }

  lemma ValidPinsHold(s: State)
    requires Inv(s)
    ensures PinsValid(s) <==> PinsHold(s)
  {
    forall t | PinsValid(s) && t in s.threads && s.threads[t].Pinned?
      ensures s.threads[t].inc == s.ended && s.seg.Held()
    {
      assert PcOk(s, t);
    }
  }

  /** No step of the run up to state `n` frees the segment under a pin. */
  ghost predicate NoneFreesPinned(run: seq<State>, n: nat)
    requires n < |run|
  {
    forall i, j, t | 0 <= i && j == i + 1 <= n && Step(run[i], run[j], t) :: !FreesPinned(run[i], t)
  }

  lemma {:induction false} PinsHoldUpTo(run: seq<State>, n: nat)
    requires Run(run) && n < |run|
    ensures (forall i | 0 <= i <= n :: PinsHold(run[i])) <==> NoneFreesPinned(run, n)
  {
    hide PinsHold, PinsValid, FreesPinned, Inv, Step;
    RunInv(run, n);
    ValidPinsHold(run[n]);
    if n == 0 {
      InitPinsValid(run[0]);
    } else {
      PinsHoldUpTo(run, n - 1);
      var (s, s') := (run[n - 1], run[n]);
      RunInv(run, n - 1);
      ValidPinsHold(s);
      assert Moves(s, s');
      if PinsHold(s) {
        forall t | Step(s, s', t) ensures PinsHold(s') <==> !FreesPinned(s, t) {
          PinsSurviveExactly(s, s', t);
        }
      }
    }
  }

  lemma InitPinsValid(s: State)
    requires Init(s)
    ensures PinsValid(s)
  {
  }

  /**
   * A pinned segment is never freed in a run, and its bytes stay in place,
   * exactly when no step of the run is that of a claimant whose token matches
   * while a pin is held; and whenever a claimant is about to take such a step it
   * last looked at the reader count before the condemn.
   */
  lemma PinnedIsNotFreed(run: seq<State>)
    requires Run(run)
    ensures (forall i | 0 <= i < |run| :: PinsHold(run[i])) <==> NoneFreesPinned(run, |run| - 1)
    ensures forall i, t | 0 <= i < |run| && FreesPinned(run[i], t) :: run[i].threads[t].at < run[i].condemns
  {
    PinsHoldUpTo(run, |run| - 1);
    forall i, t | 0 <= i < |run| && FreesPinned(run[i], t) ensures run[i].threads[t].at < run[i].condemns {
      RunInv(run, i);
      assert PcOk(run[i], t);
    }
  }

  lemma RunExtends(run: seq<State>, s': State, t: Tid)
    requires Run(run) && Step(run[|run| - 1], s', t)
    ensures Run(run + [s'])
  {
    var longer := run + [s'];
    forall i, j | 0 <= i && j == i + 1 < |longer| ensures Moves(longer[i], longer[j]) {
      if j < |run| { assert Moves(run[i], run[j]); } else { assert Step(longer[i], longer[j], t); }
    }
  }

  /** Thread 0 brings the segment into service and seals it. */
  lemma SealedRun() returns (run: seq<State>)
    ensures Run(run)
    ensures run[|run| - 1] == State(Sealed, 0, 0, 0, map[0 := Idle, 1 := Idle, 2 := Idle], 0, 0, 0)
  {
    var s := State(Free, 0, 0, 1, map[0 := Idle, 1 := Idle, 2 := Idle], 0, 0, 0);
    run := [s];
    var s1 := s.(queue := 0).At(0, Taken);
    RunExtends(run, s1, 0);
    run := run + [s1];
    var s2 := s1.(seg := Reserved).At(0, Preparing);
    RunExtends(run, s2, 0);
    run := run + [s2];
    var s3 := s2.(seg := Linking);
    RunExtends(run, s3, 0);
    run := run + [s3];
    var s4 := s3.(seg := Live).At(0, Idle);
    RunExtends(run, s4, 0);
    run := run + [s4];
    var s5 := s4.(seg := Sealed);
    RunExtends(run, s5, 0);
    run := run + [s5];
    assert s5.threads == map[0 := Idle, 1 := Idle, 2 := Idle];
  }

  /** A reader pins the sealed segment. */
  lemma PinRun(run: seq<State>, t: Tid) returns (longer: seq<State>)
    requires Run(run) && t in run[|run| - 1].threads && run[|run| - 1].threads[t].Idle? && run[|run| - 1].seg.Readable()
    ensures Run(longer)
    ensures var s := run[|run| - 1];
      longer[|longer| - 1] == s.(refs := s.refs + 1).At(t, Pinned(s.ended))
  {
    var s := run[|run| - 1];
    var s1 := s.At(t, Checked);
    RunExtends(run, s1, t);
    var s2 := s1.(refs := s.refs + 1).At(t, Counted);
    RunExtends(run + [s1], s2, t);
    var s3 := s2.At(t, Pinned(s.ended));
    RunExtends(run + [s1] + [s2], s3, t);
    longer := run + [s1] + [s2] + [s3];
    assert s3.threads == s.threads[t := Pinned(s.ended)];
  }

  /**
   * The stale claimant is real: reader 1 drops the last pin of a sealed segment
   * and stalls, reader 2 pins it, thread 0 drains and condemns it, and reader 1
   * then frees it while reader 2 still holds its pin.
   */
  lemma FreedUnderAPin() returns (run: seq<State>)
    ensures Run(run) && |run| >= 2
    ensures var (s, s') := (run[|run| - 2], run[|run| - 1]);
      && Step(s, s', 1) && FreesPinned(s, 1) && s'.seg.Free?
      && 2 in s'.threads && s'.threads[2].Pinned? && s'.threads[2].inc < s'.ended
  {
    run := SealedRun();
    run := PinRun(run, 1);
    var s1 := run[|run| - 1].(refs := 0).At(1, LastOut(0));
    RunExtends(run, s1, 1);
    run := PinRun(run + [s1], 2);
    run := CondemnRun(run);
    var s2 := run[|run| - 1];
    var s3 := s2.At(1, HasToken(0, 0, 0));
    RunExtends(run, s3, 1);
    assert s3.threads[2].Pinned?;
    var s4 := s3.(seg := Free, ended := 1).At(1, Freed);
    RunExtends(run + [s3], s4, 1);
    run := run + [s3] + [s4];
  }

  /** Thread 0 drains and condemns the pinned segment, and leaves it to the reader. */
  lemma CondemnRun(run: seq<State>) returns (longer: seq<State>)
    requires Run(run) && 0 in run[|run| - 1].threads && run[|run| - 1].threads[0].Idle?
    requires run[|run| - 1].seg.Sealed? && run[|run| - 1].refs > 0 && run[|run| - 1].gen == 0
    ensures Run(longer)
    ensures var s := run[|run| - 1];
      longer[|longer| - 1] == s.(seg := AwaitingRelease(0), condemns := s.condemns + 1)
  {
    var s := run[|run| - 1];
    var s1 := s.(seg := Draining).At(0, Claimed);
    RunExtends(run, s1, 0);
    var s2 := s1.At(0, Condemning);
    RunExtends(run + [s1], s2, 0);
    var s3 := s2.(seg := AwaitingRelease(0), condemns := s.condemns + 1).At(0, Condemned);
    RunExtends(run + [s1] + [s2], s3, 0);
    var s4 := s3.At(0, Idle);
    RunExtends(run + [s1] + [s2] + [s3], s4, 0);
    longer := run + [s1] + [s2] + [s3] + [s4];
    assert s4.threads == s.threads;
  }
}
