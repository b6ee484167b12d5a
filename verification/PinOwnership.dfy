/**
 * Who holds what: every step of the pin protocol changes pin counts, lock tables
 * and segment phases exactly as it changes what the stepping thread holds, and
 * that keeps the invariant.
 */
module PinOwnership {
  import opened Wrappers
  import opened PinProtocol

  // ----- Invariant -----

  /** What a thread holds. */
  datatype Hold = Hold(writes: Option<Sid>, removes: Option<Sid>, chain: Option<Bucket>,
                       source: Option<Sid>, target: Option<Sid>, leaf: Option<Leaf>, evicts: bool)

  function Holds(pc: Pc): Hold {
    Hold(pc.Writes(), pc.Removes(), pc.Chain(), pc.Source(), pc.Target(), pc.Leaf(), pc.Evicts())
  }

  function Writers(s: State, c: Sid): set<Tid> { set t | t in s.threads && Holds(s.threads[t]).writes == Some(c) }

  function Removers(s: State, c: Sid): set<Tid> { set t | t in s.threads && Holds(s.threads[t]).removes == Some(c) }

  function Evicting(s: State): set<Tid> { set t | t in s.threads && Holds(s.threads[t]).evicts }

  ghost predicate Known(s: State, c: Option<Sid>) { c.Some? ==> c.value in s.segs }

  ghost predicate HoldOk(s: State, t: Tid, h: Hold) {
    && Known(s, h.writes) && Known(s, h.removes) && Known(s, h.source) && Known(s, h.target)
    && (h.chain.Some? ==> h.chain.value in s.chains && s.chains[h.chain.value] == t)
    && (h.leaf.Some? ==> h.leaf.value in s.leaves && s.leaves[h.leaf.value] == t)
    && (h.source.Some? ==> s.segs[h.source.value].phase.Draining?)
    && (h.target.Some? ==> s.segs[h.target.value].phase.Relinking?)
  }

  ghost predicate PcOk(s: State, t: Tid)
    requires t in s.threads
  {
    HoldOk(s, t, Holds(s.threads[t])) && Known(s, s.threads[t].Names())
  }

  /** The operation of a thread that has looked its entry up and has neither published nor given up. */
  function Looking(pc: Pc): Option<Op> {
    match pc
    case Examined(op) => Some(op)
    case WriterCounted(op) => Some(op)
    case Reserved(op) => Some(op)
    case RemoverCounted(op) => Some(op)
    case Refused(op) => Some(op)
    case BothPinned(op) => Some(op)
    case ItemWait(op, _) => Some(op)
    case ItemLocked(op, _) => Some(op)
    case Lost(op) => Some(op)
    case _ => None
  }

  /** What a thread remembers lies in the past; a `Lost` entry has changed since. */
  ghost predicate SeenOk(s: State, pc: Pc) {
    var looking := Looking(pc);
    && (looking.Some? ==> looking.value.seen <= s.Changes(looking.value.key) - if pc.Lost? then 1 else 0)
    && (pc.EvictionWait? ==> pc.target <= s.started)
  }

  /** The counters count the threads that hold a pin or are about to give a failed one back. */
  ghost predicate Counted(s: State, c: Sid)
    requires c in s.segs
  {
    s.segs[c].writers == |Writers(s, c)| && s.segs[c].removers == |Removers(s, c)|
  }

  ghost predicate DrainedBy(s: State, c: Sid, t: Tid) { t in s.threads && Holds(s.threads[t]).source == Some(c) }

  ghost predicate FilledBy(s: State, c: Sid, t: Tid) { t in s.threads && Holds(s.threads[t]).target == Some(c) }

  /** A segment being drained or filled has a thread that does it, and only one. */
  ghost predicate Owned(s: State, c: Sid)
    requires c in s.segs
  {
    && (s.segs[c].phase.Draining? ==> exists t :: DrainedBy(s, c, t))
    && (s.segs[c].phase.Relinking? ==> exists t :: FilledBy(s, c, t))
    && (forall t, u | DrainedBy(s, c, t) && DrainedBy(s, c, u) :: t == u)
    && (forall t, u | FilledBy(s, c, t) && FilledBy(s, c, u) :: t == u)
  }

  ghost predicate TableOk(s: State) { forall x | x in s.table :: Known(s, s.table[x].seg) }

  ghost predicate Inv(s: State) {
    && (forall t | t in s.threads :: PcOk(s, t) && SeenOk(s, s.threads[t]))
    && (forall c | c in s.segs :: Counted(s, c) && Owned(s, c))
    && (forall b | b in s.chains :: s.chains[b] in s.threads && Holds(s.threads[s.chains[b]]).chain == Some(b))
    && (forall l | l in s.leaves :: s.leaves[l] in s.threads && Holds(s.threads[s.leaves[l]]).leaf == Some(l))
    && TableOk(s) && s.started == s.finished + |Evicting(s)|
  }

  // ----- What a step may change -----

  function Delta(before: bool, after: bool): int {
    if after && !before then 1 else if before && !after then -1 else 0
  }

  /** A lock table changes as the stepping thread's own hold does. */
  ghost predicate LockMove(a: map<nat, Tid>, b: map<nat, Tid>, t: Tid, x: Option<nat>, y: Option<nat>) {
    if x == y then a == b
    else if x.None? then y.value !in a && b == a[y.value := t]
    else y.None? && b == a - {x.value}
  }

  /** Segment `c` changes as the stepping thread's pins and ownership do. */
  ghost predicate SegMove(a: Seg, b: Seg, c: Sid, h: Hold, h': Hold) {
    && b.writers == a.writers + Delta(h.writes == Some(c), h'.writes == Some(c))
    && b.removers == a.removers + Delta(h.removes == Some(c), h'.removes == Some(c))
    && (h'.source == Some(c) && h.source != Some(c) ==> !a.phase.Draining?)
    && (h'.target == Some(c) && h.target != Some(c) ==> !a.phase.Relinking?)
    && (b.phase.Draining? <==> h'.source == Some(c) || (a.phase.Draining? && h.source != Some(c)))
    && (b.phase.Relinking? <==> h'.target == Some(c) || (a.phase.Relinking? && h.target != Some(c)))
  }

  ghost predicate SegsMove(s: State, s': State, h: Hold, h': Hold) {
    s'.segs.Keys == s.segs.Keys && forall c | c in s.segs :: SegMove(s.segs[c], s'.segs[c], c, h, h')
  }

  ghost predicate Orderly(s: State, s': State, t: Tid) {
    && OneMoved(s, s', t)
    && var (h, h') := (Holds(s.threads[t]), Holds(s'.threads[t]));
       && LockMove(s.chains, s'.chains, t, h.chain, h'.chain)
       && LockMove(s.leaves, s'.leaves, t, h.leaf, h'.leaf)
       && SegsMove(s, s', h, h')
       && s'.started - s'.finished == s.started - s.finished + Delta(h.evicts, h'.evicts) && s.started <= s'.started
       && PcOk(s', t)
  }

  ghost predicate OneMoved(s: State, s': State, t: Tid) {
    t in s.threads && t in s'.threads && s'.threads == s.threads[t := s'.threads[t]]
  }

  lemma WritersAt(s: State, s': State, t: Tid, c: Sid)
    requires OneMoved(s, s', t)
    ensures |Writers(s', c)| == |Writers(s, c)|
      + Delta(Holds(s.threads[t]).writes == Some(c), Holds(s'.threads[t]).writes == Some(c))
  {
    hide Holds;
    var rest := Writers(s, c) - {t};
    assert Writers(s, c) == if Holds(s.threads[t]).writes == Some(c) then rest + {t} else rest;
    assert Writers(s', c) == if Holds(s'.threads[t]).writes == Some(c) then rest + {t} else rest;
  }

  lemma RemoversAt(s: State, s': State, t: Tid, c: Sid)
    requires OneMoved(s, s', t)
    ensures |Removers(s', c)| == |Removers(s, c)|
      + Delta(Holds(s.threads[t]).removes == Some(c), Holds(s'.threads[t]).removes == Some(c))
  {
    hide Holds;
    var rest := Removers(s, c) - {t};
    assert Removers(s, c) == if Holds(s.threads[t]).removes == Some(c) then rest + {t} else rest;
    assert Removers(s', c) == if Holds(s'.threads[t]).removes == Some(c) then rest + {t} else rest;
  }

  lemma EvictingAt(s: State, s': State, t: Tid)
    requires OneMoved(s, s', t)
    ensures |Evicting(s')| == |Evicting(s)| + Delta(Holds(s.threads[t]).evicts, Holds(s'.threads[t]).evicts)
  {
    hide Holds;
    var rest := Evicting(s) - {t};
    assert Evicting(s) == if Holds(s.threads[t]).evicts then rest + {t} else rest;
    assert Evicting(s') == if Holds(s'.threads[t]).evicts then rest + {t} else rest;
  }

  lemma CountedKept(s: State, s': State, t: Tid, c: Sid)
    requires Inv(s) && Orderly(s, s', t) && c in s.segs
    ensures Counted(s', c)
  {
    hide Holds;
    hide PcOk, Owned, LockMove, Writers, Removers;
    assert Counted(s, c) && SegMove(s.segs[c], s'.segs[c], c, Holds(s.threads[t]), Holds(s'.threads[t]));
    WritersAt(s, s', t, c);
    RemoversAt(s, s', t, c);
  }

  lemma DrainedByMoves(s: State, s': State, t: Tid, c: Sid, u: Tid)
    requires OneMoved(s, s', t)
    ensures u != t ==> DrainedBy(s', c, u) == DrainedBy(s, c, u) && FilledBy(s', c, u) == FilledBy(s, c, u)
    ensures DrainedBy(s', c, t) <==> Holds(s'.threads[t]).source == Some(c)
    ensures FilledBy(s', c, t) <==> Holds(s'.threads[t]).target == Some(c)
  {
  }

  lemma OwnedKept(s: State, s': State, t: Tid, c: Sid)
    requires Inv(s) && Orderly(s, s', t) && c in s.segs
    ensures Owned(s', c)
  {
    hide Holds;
    hide PcOk, Counted, LockMove, DrainedBy, FilledBy;
    assert Owned(s, c) && SegMove(s.segs[c], s'.segs[c], c, Holds(s.threads[t]), Holds(s'.threads[t]));
    DrainedPhase(s, c);
    DrainedByMoves(s, s', t, c, t);
    DrainedByMoves(s, s, t, c, t);
    forall u ensures u != t ==> DrainedBy(s', c, u) == DrainedBy(s, c, u) && FilledBy(s', c, u) == FilledBy(s, c, u) {
      DrainedByMoves(s, s', t, c, u);
    }
    if s'.segs[c].phase.Draining? && !DrainedBy(s', c, t) {
      var u :| DrainedBy(s, c, u);
      assert DrainedBy(s', c, u);
    }
    if s'.segs[c].phase.Relinking? && !FilledBy(s', c, t) {
      var u :| FilledBy(s, c, u);
      assert FilledBy(s', c, u);
    }
  }

  lemma DrainedPhase(s: State, c: Sid)
    requires Inv(s) && c in s.segs
    ensures forall u | DrainedBy(s, c, u) :: s.segs[c].phase.Draining?
    ensures forall u | FilledBy(s, c, u) :: s.segs[c].phase.Relinking?
  {
    hide Holds;
    forall u | DrainedBy(s, c, u) || FilledBy(s, c, u) ensures PcOk(s, u) {
    }
  }

  /** Entries only gain changes, and name segments of the heap. */
  ghost predicate TableGrows(s: State, s': State) {
    && (forall x :: s.Changes(x) <= s'.Changes(x))
    && (TableOk(s) ==> TableOk(s'))
  }

  lemma SourceKept(s: State, s': State, t: Tid, u: Tid, c: Sid)
    requires Inv(s) && Orderly(s, s', t) && u in s.threads && u != t && Holds(s.threads[u]).source == Some(c)
    ensures c in s'.segs && s'.segs[c].phase.Draining?
  {
    hide Holds, LockMove, Counted, TableOk;
    assert PcOk(s, u);
    assert DrainedBy(s, c, u) && Owned(s, c) && !DrainedBy(s, c, t);
    assert SegMove(s.segs[c], s'.segs[c], c, Holds(s.threads[t]), Holds(s'.threads[t]));
  }

  lemma TargetKept(s: State, s': State, t: Tid, u: Tid, c: Sid)
    requires Inv(s) && Orderly(s, s', t) && u in s.threads && u != t && Holds(s.threads[u]).target == Some(c)
    ensures c in s'.segs && s'.segs[c].phase.Relinking?
  {
    hide Holds, LockMove, Counted, TableOk;
    assert PcOk(s, u);
    assert FilledBy(s, c, u) && Owned(s, c) && !FilledBy(s, c, t);
    assert SegMove(s.segs[c], s'.segs[c], c, Holds(s.threads[t]), Holds(s'.threads[t]));
  }

  lemma PcKept(s: State, s': State, t: Tid, u: Tid)
    requires Inv(s) && Orderly(s, s', t) && u in s.threads && u != t
    ensures PcOk(s', u)
  {
    hide Holds, Counted, Owned, SegMove, TableOk, Pc.Names;
    var h := Holds(s.threads[u]);
    assert PcOk(s, u) && PcOk(s, t);
    if h.source.Some? { SourceKept(s, s', t, u, h.source.value); }
    if h.target.Some? { TargetKept(s, s', t, u, h.target.value); }
  }

  lemma SeenStays(s: State, s': State, pc: Pc)
    requires SeenOk(s, pc) && (forall x :: s.Changes(x) <= s'.Changes(x)) && s.started <= s'.started
    ensures SeenOk(s', pc)
  {
  }

  lemma OrderlyKeepsInv(s: State, s': State, t: Tid)
    requires Inv(s) && Orderly(s, s', t) && TableGrows(s, s') && SeenOk(s', s'.threads[t])
    ensures Inv(s')
  {
    hide Holds, HoldOk, SegsMove, TableOk, SeenOk;
    assert PcOk(s, t);
    forall u | u in s'.threads ensures PcOk(s', u) && SeenOk(s', s'.threads[u]) {
      if u != t {
        PcKept(s, s', t, u);
        SeenStays(s, s', s.threads[u]);
      }
    }
    SegsKept(s, s', t);
    EvictingAt(s, s', t);
    LocksKept(s, s', t);
  }

  lemma SegsKept(s: State, s': State, t: Tid)
    requires Inv(s) && Orderly(s, s', t)
    ensures forall c | c in s'.segs :: Counted(s', c) && Owned(s', c)
  {
    hide Counted, Owned, Holds, HoldOk, SegMove;
    forall c | c in s'.segs ensures Counted(s', c) && Owned(s', c) {
      CountedKept(s, s', t, c);
      OwnedKept(s, s', t, c);
    }
  }

  lemma LocksKept(s: State, s': State, t: Tid)
    requires Inv(s) && Orderly(s, s', t)
    ensures forall b | b in s'.chains :: s'.chains[b] in s'.threads && Holds(s'.threads[s'.chains[b]]).chain == Some(b)
    ensures forall l | l in s'.leaves :: s'.leaves[l] in s'.threads && Holds(s'.threads[s'.leaves[l]]).leaf == Some(l)
  {
    hide Holds, Counted, Owned, SegsMove, TableOk;
    assert PcOk(s, t);
    forall b | b in s'.chains ensures s'.chains[b] in s'.threads && Holds(s'.threads[s'.chains[b]]).chain == Some(b) {
      if b in s.chains { assert Holds(s.threads[s.chains[b]]).chain == Some(b); }
    }
    forall l | l in s'.leaves ensures s'.leaves[l] in s'.threads && Holds(s'.threads[s'.leaves[l]]).leaf == Some(l) {
      if l in s.leaves { assert Holds(s.threads[s.leaves[l]]).leaf == Some(l); }
    }
  }

  // ----- The kinds of step -----

  /** A thread moves on holding what it holds. */
  lemma Moved(s: State, t: Tid, pc': Pc)
    requires t in s.threads && PcOk(s, t) && Holds(pc') == Holds(s.threads[t]) && Known(s, pc'.Names())
    ensures Orderly(s, s.At(t, pc'), t)
  {
    hide Holds, Pc.Names;
  }

  /** The segments change phase around the thread, none of them from or to a busy one. */
  lemma Around(s: State, s': State, t: Tid, pc': Pc)
    requires t in s.threads && PcOk(s, t) && Holds(pc') == Holds(s.threads[t]) && Known(s, pc'.Names())
    requires s' == s.(segs := s'.segs, freed := s'.freed).At(t, pc') && s'.segs.Keys == s.segs.Keys
    requires forall c | c in s.segs ::
               && s'.segs[c].writers == s.segs[c].writers && s'.segs[c].removers == s.segs[c].removers
               && (s'.segs[c].phase == s.segs[c].phase || (!s'.segs[c].phase.Busy() && !s.segs[c].phase.Busy()))
    ensures Orderly(s, s', t)
  {
    hide Holds, Pc.Names;
    var h := Holds(s.threads[t]);
    forall c | c in s.segs ensures SegMove(s.segs[c], s'.segs[c], c, h, h) {
      if h.source == Some(c) { assert s.segs[c].phase.Draining?; }
    }
  }

  /** The hash table is no part of what a thread holds. */
  lemma TableAside(s: State, s1: State, s': State, t: Tid)
    requires Orderly(s, s1, t) && s' == s1.(table := s'.table, freed := s'.freed)
    ensures Orderly(s, s', t)
  {
    hide Holds, Pc.Names;
  }

  lemma WriterPinned(s: State, t: Tid, c: Sid, pc': Pc)
    requires t in s.threads && PcOk(s, t) && c in s.segs && Known(s, pc'.Names())
    requires Holds(s.threads[t]).writes.None? && Holds(pc') == Holds(s.threads[t]).(writes := Some(c))
    ensures Orderly(s, s.PinWriter(c).At(t, pc'), t)
  {
    hide Holds, Pc.Names;
  }

  lemma WriterDropped(s: State, t: Tid, c: Sid, pc': Pc)
    requires t in s.threads && PcOk(s, t) && Drops(s, c) && Known(s, pc'.Names())
    requires Holds(s.threads[t]).writes == Some(c) && Holds(pc') == Holds(s.threads[t]).(writes := None)
    ensures Orderly(s, s.DropWriter(c).At(t, pc'), t)
  {
    hide Holds, Pc.Names;
  }

  lemma RemoverPinned(s: State, t: Tid, c: Sid, pc': Pc)
    requires t in s.threads && PcOk(s, t) && c in s.segs && Known(s, pc'.Names())
    requires Holds(s.threads[t]).removes.None? && Holds(pc') == Holds(s.threads[t]).(removes := Some(c))
    ensures Orderly(s, s.PinRemover(c).At(t, pc'), t)
  {
    hide Holds, Pc.Names;
  }

  lemma RemoverDropped(s: State, t: Tid, c: Sid, pc': Pc)
    requires t in s.threads && PcOk(s, t) && DropsRemover(s, c) && Known(s, pc'.Names())
    requires Holds(s.threads[t]).removes == Some(c) && Holds(pc') == Holds(s.threads[t]).(removes := None)
    ensures Orderly(s, s.DropRemover(c).At(t, pc'), t)
  {
    hide Holds, Pc.Names;
  }

  lemma LeafTaken(s: State, t: Tid, l: Leaf, pc': Pc)
    requires t in s.threads && PcOk(s, t) && l !in s.leaves && Known(s, pc'.Names())
    requires Holds(s.threads[t]).leaf.None? && Holds(pc') == Holds(s.threads[t]).(leaf := Some(l))
    ensures Orderly(s, s.TakeLeaf(l, t).At(t, pc'), t)
  {
    hide Holds, Pc.Names;
  }

  lemma LeafDropped(s: State, t: Tid, l: Leaf, pc': Pc)
    requires t in s.threads && PcOk(s, t) && Known(s, pc'.Names())
    requires Holds(s.threads[t]).leaf == Some(l) && Holds(pc') == Holds(s.threads[t]).(leaf := None)
    ensures Orderly(s, s.DropLeaf(l).At(t, pc'), t)
  {
    hide Holds, Pc.Names;
  }

  lemma ChainTaken(s: State, t: Tid, b: Bucket, pc': Pc)
    requires t in s.threads && PcOk(s, t) && b !in s.chains && Known(s, pc'.Names())
    requires Holds(s.threads[t]).chain.None? && Holds(pc') == Holds(s.threads[t]).(chain := Some(b))
    ensures Orderly(s, s.(chains := s.chains[b := t]).At(t, pc'), t)
  {
    hide Holds, Pc.Names;
  }

  /** The chain lock is released, and the eviction it served, if any, may be over. */
  lemma ChainDropped(s: State, t: Tid, b: Bucket, over: bool, pc': Pc)
    requires t in s.threads && PcOk(s, t) && Known(s, pc'.Names()) && Holds(s.threads[t]).chain == Some(b)
    requires over ==> Holds(s.threads[t]).evicts
    requires Holds(pc') == Holds(s.threads[t]).(chain := None, evicts := Holds(s.threads[t]).evicts && !over)
    ensures Orderly(s, s.(chains := s.chains - {b}, finished := s.finished + if over then 1 else 0).At(t, pc'), t)
  {
    hide Holds, Pc.Names;
  }

  lemma EvictionStarted(s: State, t: Tid, pc': Pc)
    requires t in s.threads && PcOk(s, t) && Known(s, pc'.Names())
    requires !Holds(s.threads[t]).evicts && Holds(pc') == Holds(s.threads[t]).(evicts := true)
    ensures Orderly(s, s.(started := s.started + 1).At(t, pc'), t)
  {
    hide Holds, Pc.Names;
  }

  lemma Claimed(s: State, t: Tid, c: Sid, pc': Pc)
    requires t in s.threads && PcOk(s, t) && c in s.segs && s.segs[c].phase.Removable() && Known(s, pc'.Names())
    requires Holds(s.threads[t]).source.None? && Holds(pc') == Holds(s.threads[t]).(source := Some(c))
    ensures Orderly(s, s.InPhase(c, Draining).At(t, pc'), t)
  {
    hide Holds, Pc.Names;
  }

  lemma Linked(s: State, t: Tid, d: Sid, pc': Pc)
    requires t in s.threads && PcOk(s, t) && d in s.segs && s.segs[d].phase.Free? && Known(s, pc'.Names())
    requires Holds(s.threads[t]).target.None? && Holds(pc') == Holds(s.threads[t]).(target := Some(d))
    ensures Orderly(s, s.InPhase(d, Relinking).At(t, pc'), t)
  {
    hide Holds, Pc.Names;
  }

  /** The thread ends its drain of a segment. */
  lemma Drained(s: State, s': State, t: Tid, c: Sid, seg: Seg, pc': Pc)
    requires t in s.threads && PcOk(s, t) && c in s.segs && Known(s, pc'.Names()) && !seg.phase.Busy()
    requires s' == s.(segs := s.segs[c := seg], freed := s'.freed).At(t, pc')
    requires seg.writers == s.segs[c].writers && seg.removers == s.segs[c].removers
    requires Holds(s.threads[t]).source == Some(c) && Holds(pc') == Holds(s.threads[t]).(source := None)
    ensures Orderly(s, s', t)
  {
    hide Holds, Pc.Names;
  }

  /** The thread ends its fill of a segment. */
  lemma Filled(s: State, t: Tid, d: Sid, pc': Pc)
    requires t in s.threads && PcOk(s, t) && d in s.segs && Known(s, pc'.Names())
    requires Holds(s.threads[t]).target == Some(d) && Holds(pc') == Holds(s.threads[t]).(target := None)
    ensures Orderly(s, s.InPhase(d, Sealed).At(t, pc'), t)
  {
    hide Holds, Pc.Names;
  }

  // ----- Every step is of one of these kinds -----

  lemma StartOrderly(s: State, s': State, t: Tid)
    requires t in s.threads && PcOk(s, t) && TableOk(s) && s.threads[t].Idle? && Start(s, s', t)
    ensures Orderly(s, s', t)
  {
    hide Orderly, HoldOk, TableOk;
    match s'.threads[t]
    case WriterCounted(op) => WriterPinned(s, t, op.own, WriterCounted(op));
    case WantLock(b, job) =>
      if job.evict { EvictionStarted(s, t, WantLock(b, job)); } else { Moved(s, t, WantLock(b, job)); }
    case Idle => RecycleOrderly(s, s', t);
    case _ => StartMoved(s, s', t);
  }

  lemma RecycleOrderly(s: State, s': State, t: Tid)
    requires t in s.threads && PcOk(s, t) && s.threads[t].Idle?
    requires exists c :: c in s.segs && s.segs[c].phase.Condemned? && s' == s.Recycle(c)
    ensures Orderly(s, s', t)
  {
    hide Orderly, PcOk, Holds;
    assert s.threads[t := Idle] == s.threads;
    Around(s, s', t, Idle);
  }

  lemma StartMoved(s: State, s': State, t: Tid)
    requires t in s.threads && PcOk(s, t) && TableOk(s) && s.threads[t].Idle? && t in s'.threads
    requires s' == s.At(t, s'.threads[t])
    requires var pc := s'.threads[t];
      (pc.Deleting? && s.EntryOf(pc.key).seg == Some(pc.seg))
      || (pc.Examined? && s.EntryOf(pc.op.key).seg == Some(pc.op.other))
      || pc.EvictionWait? || pc.CountWait?
    ensures Orderly(s, s', t)
  {
    hide Orderly, HoldOk;
    Moved(s, t, s'.threads[t]);
  }

  lemma LookupOrderly(s: State, s': State, t: Tid, op: Op)
    requires t in s.threads && PcOk(s, t) && s.threads[t] == Reserved(op) && LookupStep(s, s', t, op)
    ensures Orderly(s, s', t)
  {
    hide Orderly, HoldOk;
    if s'.threads[t].RemoverCounted? {
      RemoverPinned(s, t, s'.threads[t].op.other, s'.threads[t]);
    } else {
      Moved(s, t, s'.threads[t]);
    }
  }

  lemma ReserveOrderly(s: State, s': State, t: Tid)
    requires t in s.threads && PcOk(s, t) && ReserveStep(s, s', t)
    ensures Orderly(s, s', t)
  {
    hide Orderly, HoldOk, LookupStep;
    match s.threads[t]
    case Examined(op) => ExaminedOrderly(s, s', t, op);
    case WriterCounted(op) => WriterCountedOrderly(s, s', t, op);
    case Reserved(op) =>
      if op.cas { RemoverPinned(s, t, op.other, RemoverCounted(op)); } else { LookupOrderly(s, s', t, op); }
    case RemoverCounted(op) =>
      if s.segs[op.other].phase.Removable() { Moved(s, t, BothPinned(op)); }
      else { RefusedOrderly(s, t, op); }
    case Refused(_) => Moved(s, t, s'.threads[t]);
  }

  lemma WriterCountedOrderly(s: State, s': State, t: Tid, op: Op)
    requires t in s.threads && PcOk(s, t) && s.threads[t] == WriterCounted(op) && ReserveStep(s, s', t)
    ensures Orderly(s, s', t)
  {
    hide Orderly, HoldOk;
    if s.segs[op.own].phase.Live? { Moved(s, t, Reserved(op)); } else { WriterDropped(s, t, op.own, Idle); }
  }

  lemma ExaminedOrderly(s: State, s': State, t: Tid, op: Op)
    requires t in s.threads && PcOk(s, t) && s.threads[t] == Examined(op) && ReserveStep(s, s', t)
    ensures Orderly(s, s', t)
  {
    hide Orderly, HoldOk;
    if s' == s.At(t, Idle) {
      Moved(s, t, Idle);
    } else {
      var f :| f in s.segs && s' == s.PinWriter(f).At(t, WriterCounted(op.(own := f)));
      WriterPinned(s, t, f, WriterCounted(op.(own := f)));
    }
  }

  lemma RefusedOrderly(s: State, t: Tid, op: Op)
    requires t in s.threads && PcOk(s, t) && s.threads[t] == RemoverCounted(op) && DropsRemover(s, op.other)
    ensures Orderly(s, s.DropRemover(op.other).At(t, Refused(op)), t)
  {
    hide Orderly;
    assert Known(s, Holds(s.threads[t]).removes);
    RemoverDropped(s, t, op.other, Refused(op));
  }

  lemma TryPublishOrderly(s: State, s': State, t: Tid, op: Op)
    requires t in s.threads && PcOk(s, t) && s.threads[t] == BothPinned(op) && TryPublish(s, s', t, op)
    ensures Orderly(s, s', t)
  {
    hide Orderly, HoldOk;
    Moved(s, t, s'.threads[t]);
    TableAside(s, s.At(t, s'.threads[t]), s', t);
  }

  lemma LockedPublishOrderly(s: State, s': State, t: Tid, op: Op, l: Leaf)
    requires t in s.threads && PcOk(s, t) && s.threads[t] == ItemLocked(op, l) && TryPublish(s.DropLeaf(l), s', t, op)
    ensures Orderly(s, s', t)
  {
    hide Orderly, HoldOk;
    LeafDropped(s, t, l, s'.threads[t]);
    TableAside(s, s.DropLeaf(l).At(t, s'.threads[t]), s', t);
  }

  lemma PublishOrderly(s: State, s': State, t: Tid)
    requires t in s.threads && PcOk(s, t) && PublishStep(s, s', t)
    ensures Orderly(s, s', t)
  {
    hide Orderly, HoldOk, TryPublish;
    match s.threads[t]
    case BothPinned(op) =>
      if TryPublish(s, s', t, op) { TryPublishOrderly(s, s', t, op); } else { Moved(s, t, s'.threads[t]); }
    case ItemWait(op, l) => LeafTaken(s, t, l, ItemLocked(op, l));
    case ItemLocked(op, l) =>
      if TryPublish(s.DropLeaf(l), s', t, op) { LockedPublishOrderly(s, s', t, op, l); }
      else { LeafDropped(s, t, l, Mismatched(op)); }
    case _ => UnpublishedOrderly(s, s', t);
  }

  lemma UnpublishedOrderly(s: State, s': State, t: Tid)
    requires t in s.threads && PcOk(s, t) && PublishStep(s, s', t)
    requires s.threads[t].Published? || s.threads[t].Lost? || s.threads[t].Mismatched?
    ensures Orderly(s, s', t)
  {
    hide Orderly, HoldOk, TryPublish;
    match s.threads[t]
    case Published(op) => WriterDropped(s, t, op.own, s'.threads[t]);
    case Lost(op) => RemoverDropped(s, t, op.other, s'.threads[t]);
    case Mismatched(op) => RemoverDropped(s, t, op.other, s'.threads[t]);
  }

  lemma CreateOrderly(s: State, s': State, t: Tid)
    requires t in s.threads && PcOk(s, t) && CreateStep(s, s', t)
    ensures Orderly(s, s', t)
  {
    hide Orderly, HoldOk, Unverifiable;
    match s.threads[t]
    case StripeWait(op, l) => LeafTaken(s, t, l, StripeLocked(op, l));
    case StripeLocked(op, l) => StripeOrderly(s, s', t, op, l);
    case Created(op, _) => WriterDropped(s, t, op.own, s'.threads[t]);
  }

  lemma StripeOrderly(s: State, s': State, t: Tid, op: Op, l: Leaf)
    requires t in s.threads && PcOk(s, t) && s.threads[t] == StripeLocked(op, l) && CreateStep(s, s', t)
    ensures Orderly(s, s', t)
  {
    hide Orderly, PcOk;
    if s'.threads[t].Created? { StripeCreated(s, s', t, op, l); } else { StripeGivenUp(s, s', t, op, l); }
  }

  lemma StripeCreated(s: State, s': State, t: Tid, op: Op, l: Leaf)
    requires t in s.threads && PcOk(s, t) && s.threads[t] == StripeLocked(op, l)
    requires Replaceable(s, s.EntryOf(op.key).seg)
    requires s' == s.DropLeaf(l).Exchange(op.key, Some(op.own)).At(t, Created(op, s.EntryOf(op.key).seg))
    ensures Orderly(s, s', t)
  {
    hide Orderly, HoldOk;
    var pc' := Created(op, s.EntryOf(op.key).seg);
    LeafDropped(s, t, l, pc');
    TableAside(s, s.DropLeaf(l).At(t, pc'), s', t);
  }

  lemma StripeGivenUp(s: State, s': State, t: Tid, op: Op, l: Leaf)
    requires t in s.threads && PcOk(s, t) && s.threads[t] == StripeLocked(op, l)
    requires exists wait :: s' == s.DropLeaf(l).At(t, GivingUp(op.own, wait, op.left))
    ensures Orderly(s, s', t)
  {
    hide Orderly, HoldOk;
    LeafDropped(s, t, l, s'.threads[t]);
  }

  lemma RemoveOrderly(s: State, s': State, t: Tid)
    requires t in s.threads && PcOk(s, t) && RemoveStep(s, s', t)
    ensures Orderly(s, s', t)
  {
    hide Orderly, HoldOk;
    match s.threads[t]
    case GivingUp(f, w, left) => WriterDropped(s, t, f, Unpinned(f, w, left));
    case Unpinned(c, w, left) => RemoverPinned(s, t, c, OwnCounted(c, w, left));
    case OwnCounted(c, w, left) =>
      if s.segs[c].phase.Removable() { Moved(s, t, Removing(c, w, left)); } else { RemoverDropped(s, t, c, After(w)); }
    case Removing(c, w, left) => RemoverDropped(s, t, c, Removed(w, left));
    case _ => RemovedOrderly(s, s', t);
  }

  lemma RemovedOrderly(s: State, s': State, t: Tid)
    requires t in s.threads && PcOk(s, t) && RemoveStep(s, s', t) && (s.threads[t].Removed? || s.threads[t].Waiting?)
    ensures Orderly(s, s', t)
  {
    hide Orderly, HoldOk;
    Moved(s, t, s'.threads[t]);
  }

  lemma DeleteOrderly(s: State, s': State, t: Tid)
    requires t in s.threads && PcOk(s, t) && DeleteStep(s, s', t)
    ensures Orderly(s, s', t)
  {
    hide Orderly, PcOk;
    if s.threads[t].Deleting? || s.threads[t].DeleteCounted? { DeletePinOrderly(s, s', t); }
    else { UnlinkOrderly(s, s', t); }
  }

  lemma DeletePinOrderly(s: State, s': State, t: Tid)
    requires t in s.threads && PcOk(s, t) && DeleteStep(s, s', t)
    requires (s.threads[t].Deleting? || s.threads[t].DeleteCounted?)
    ensures Orderly(s, s', t)
  {
    hide Orderly, HoldOk;
    match s.threads[t]
    case Deleting(x, c, seen, left) => RemoverPinned(s, t, c, DeleteCounted(x, c, seen, left));
    case DeleteCounted(x, c, seen, left) =>
      if s.segs[c].phase.Removable() { Moved(s, t, s'.threads[t]); } else { RemoverDropped(s, t, c, s'.threads[t]); }
  }

  lemma UnlinkOrderly(s: State, s': State, t: Tid)
    requires t in s.threads && PcOk(s, t) && DeleteStep(s, s', t)
    requires (s.threads[t].DeletePinned? || s.threads[t].DeleteBare?)
    ensures Orderly(s, s', t)
  {
    hide Orderly, HoldOk;
    match s.threads[t]
    case DeletePinned(x, c, seen, left) =>
      if s.Changes(x) == seen {
        Moved(s, t, s'.threads[t]);
        TableAside(s, s.At(t, s'.threads[t]), s', t);
      } else {
        RemoverDropped(s, t, c, Idle);
      }
    case DeleteBare(x, seen) =>
      Moved(s, t, Idle);
      TableAside(s, s.At(t, Idle), s', t);
  }

  lemma UnlockOrderly(s: State, s': State, t: Tid, b: Bucket, job: Job)
    requires t in s.threads && PcOk(s, t) && s.threads[t] == Locked(b, None, job) && Unlocks(s, s', t, b, job)
    ensures Orderly(s, s', t)
  {
    hide Orderly, HoldOk;
    if t in s'.threads && s'.threads[t].WantLock? {
      ChainDropped(s, t, b, false, s'.threads[t]);
    } else {
      ChainDropped(s, t, b, job.evict, After(job.wait));
    }
  }

  lemma ExtendOrderly(s: State, s1: State, t: Tid, pc': Pc)
    requires t in s.threads && PcOk(s, t) && Holds(pc') == Holds(s.threads[t]) && Known(s, pc'.Names())
    requires Extends(s, s1)
    ensures Orderly(s, s1.At(t, pc'), t)
  {
    hide Orderly, PcOk, Holds, Pc.Names, SealsTail;
    var d :| d in s.segs && s.segs[d].phase.Free? && (s1 == s.InPhase(d, Live) || SealsTail(s, s1, d));
    if SealsTail(s, s1, d) { SealOrderly(s, s1, t, d, pc'); } else { Around(s, s1.At(t, pc'), t, pc'); }
  }

  lemma SealOrderly(s: State, s1: State, t: Tid, d: Sid, pc': Pc)
    requires t in s.threads && PcOk(s, t) && Holds(pc') == Holds(s.threads[t]) && Known(s, pc'.Names())
    requires d in s.segs && s.segs[d].phase.Free? && SealsTail(s, s1, d)
    ensures Orderly(s, s1.At(t, pc'), t)
  {
    hide Orderly, PcOk, Holds, Pc.Names;
    Around(s, s1.At(t, pc'), t, pc');
  }

  lemma SweptOrderly(s: State, s': State, t: Tid, c: Sid, pc': Pc)
    requires t in s.threads && PcOk(s, t) && c in s.segs && Known(s, pc'.Names())
    requires Holds(s.threads[t]).source == Some(c) && Holds(pc') == Holds(s.threads[t]).(source := None)
    requires s' == s.Recycle(c).Sweep(c).At(t, pc') || s' == s.InPhase(c, Condemned).Sweep(c).At(t, pc')
    ensures Orderly(s, s', t)
  {
    hide Orderly, HoldOk, Holds;
    var s1 := s'.(table := s.table);
    Drained(s, s1, t, c, s'.segs[c], pc');
    TableAside(s, s1, s', t);
  }

  lemma ClaimOrderly(s: State, s': State, t: Tid, b: Bucket, c: Sid, dest: Option<Sid>, job: Job)
    requires t in s.threads && PcOk(s, t) && s.threads[t] == Locked(b, dest, job) && Claims(s, s', t, b, c, dest, job)
    ensures Orderly(s, s', t)
  {
    hide Orderly, HoldOk;
    Claimed(s, t, c, AwaitWriters(b, c, dest, Less(job)));
  }

  lemma LockedOrderly(s: State, s': State, t: Tid, b: Bucket, dest: Option<Sid>, job: Job)
    requires t in s.threads && PcOk(s, t) && s.threads[t] == Locked(b, dest, job) && LockedStep(s, s', t, b, dest, job)
    ensures Orderly(s, s', t)
  {
    hide Orderly, HoldOk, Extends, Unlocks, Claims;
    if c :| Claims(s, s', t, b, c, dest, job) {
      ClaimOrderly(s, s', t, b, c, dest, job);
    } else if dest.None? && Unlocks(s, s', t, b, job) {
      UnlockOrderly(s, s', t, b, job);
    } else if dest.Some? && dest.value in s.segs && s' == s.InPhase(dest.value, Sealed).At(t, Locked(b, None, job)) {
      Filled(s, t, dest.value, Locked(b, None, job));
    } else {
      var s1 :| Extends(s, s1) && s' == s1.At(t, Locked(b, dest, Less(job)));
      ExtendOrderly(s, s1, t, Locked(b, dest, Less(job)));
    }
  }

  lemma SweepingOrderly(s: State, s': State, t: Tid, b: Bucket, c: Sid, dest: Option<Sid>, job: Job)
    requires t in s.threads && PcOk(s, t) && s.threads[t] == Sweeping(b, c, dest, job)
    requires SweepStep(s, s', t, b, c, dest, job)
    ensures Orderly(s, s', t)
  {
    hide Orderly, HoldOk;
    match s'.threads[t]
    case Sweeping(_, _, _, _) => DestOrderly(s, s', t, b, c, dest, job);
    case CopyWait(_, _, _, _, l) => Moved(s, t, CopyWait(b, c, dest, Less(job), l));
    case Locked(_, _, _) => SweptOrderly(s, s', t, c, Locked(b, dest, job));
  }

  lemma DestOrderly(s: State, s': State, t: Tid, b: Bucket, c: Sid, dest: Option<Sid>, job: Job)
    requires t in s.threads && PcOk(s, t) && s.threads[t] == Sweeping(b, c, dest, job)
    requires SweepStep(s, s', t, b, c, dest, job)
    requires s'.threads[t].Sweeping?
    ensures Orderly(s, s', t)
  {
    hide Orderly, HoldOk;
    if dest.None? { Linked(s, t, s'.threads[t].dest.value, s'.threads[t]); }
    else { Filled(s, t, dest.value, Sweeping(b, c, None, job)); }
  }

  lemma ChainOrderly(s: State, s': State, t: Tid)
    requires t in s.threads && PcOk(s, t) && ChainStep(s, s', t)
    ensures Orderly(s, s', t)
  {
    hide Orderly, HoldOk, LockedStep, SweepStep;
    match s.threads[t]
    case EvictionWait(_, _) => Moved(s, t, Idle);
    case WantLock(b, job) => ChainTaken(s, t, b, Locked(b, None, job));
    case Locked(b, dest, job) => LockedOrderly(s, s', t, b, dest, job);
    case AwaitWriters(b, c, dest, job) => Moved(s, t, AwaitRemovers(b, c, dest, job));
    case AwaitRemovers(b, c, dest, job) => Moved(s, t, Sweeping(b, c, dest, job));
    case Sweeping(b, c, dest, job) => SweepingOrderly(s, s', t, b, c, dest, job);
    case _ => CopyOrderly(s, s', t);
  }

  lemma CopyOrderly(s: State, s': State, t: Tid)
    requires t in s.threads && PcOk(s, t) && ChainStep(s, s', t) && (s.threads[t].CopyWait? || s.threads[t].Copying?)
    ensures Orderly(s, s', t)
  {
    hide Orderly, HoldOk;
    match s.threads[t]
    case CopyWait(b, c, dest, job, l) => LeafTaken(s, t, l, Copying(b, c, dest, job, l));
    case Copying(b, c, dest, job, l) =>
      LeafDropped(s, t, l, Sweeping(b, c, dest, job));
      TableAside(s, s.DropLeaf(l).At(t, Sweeping(b, c, dest, job)), s', t);
  }

  lemma CountOrderly(s: State, s': State, t: Tid)
    requires t in s.threads && PcOk(s, t) && CountStep(s, s', t)
    ensures Orderly(s, s', t)
  {
    hide Orderly, HoldOk;
    match s.threads[t]
    case CountWait(l) => LeafTaken(s, t, l, Counting(l));
    case Counting(l) => LeafDropped(s, t, l, Idle);
  }

  lemma StepOrderly(s: State, s': State, t: Tid)
    requires Inv(s) && Step(s, s', t)
    ensures Orderly(s, s', t)
  {
    hide Orderly;
    assert PcOk(s, t);
    if s.threads[t].Idle? { StartOrderly(s, s', t); }
    else if ReserveStep(s, s', t) { ReserveOrderly(s, s', t); }
    else if PublishStep(s, s', t) { PublishOrderly(s, s', t); }
    else if CreateStep(s, s', t) { CreateOrderly(s, s', t); }
    else if RemoveStep(s, s', t) { RemoveOrderly(s, s', t); }
    else if DeleteStep(s, s', t) { DeleteOrderly(s, s', t); }
    else if ChainStep(s, s', t) { ChainOrderly(s, s', t); }
    else { CountOrderly(s, s', t); }
  }
}
