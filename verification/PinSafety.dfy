/**
 * What the pins are for: while a thread holds a writer pin, nobody is past waiting
 * for the writers of that segment, and while it holds a remover pin, nobody sweeps
 * or copies out of it. And what an insert or a delete that gets through does to
 * the entry of its key.
 */
module PinSafety {
  import opened Wrappers
  import opened PinProtocol
  import opened PinOwnership
  import opened PinProgress
  import opened PinDeadlock
  import opened PinRestarts

  // ----- Remover pins -----

  /** The segment on which the thread holds a remover pin that was granted. */
  function Removing(pc: Pc): Option<Sid> {
    if pc.RemoverCounted? || pc.OwnCounted? || pc.DeleteCounted? then None else pc.Removes()
  }

  /** The thread sweeps the segment or copies out of it. */
  predicate Sweeps(pc: Pc, c: Sid) { (pc.Sweeping? || pc.CopyWait? || pc.Copying?) && pc.src == c }

  /** The segment is in service, or its drain has not begun to sweep. */
  ghost predicate Unswept(s: State, c: Sid) {
    && c in s.segs
    && (s.segs[c].phase.Removable()
        || (s.segs[c].phase.Draining? && forall u | u in s.threads :: !Sweeps(s.threads[u], c)))
  }

  ghost predicate Shielded(s: State, pc: Pc) { Removing(pc).Some? ==> Unswept(s, Removing(pc).value) }

  /** The thread keeps its remover pin, is granted one, and sweeps only when there are none. */
  ghost predicate RemoverMove(s: State, s': State, t: Tid)
    requires t in s.threads && t in s'.threads
  {
    var (pc, pc') := (s.threads[t], s'.threads[t]);
    && (Removing(pc').Some? ==>
          || Removing(pc') == Removing(pc)
          || (pc.Removes() == Removing(pc') && Calm(s, s')
              && pc.Removes().value in s.segs && s.segs[pc.Removes().value].phase.Removable()))
    && (pc'.Sweeping? || pc'.CopyWait? || pc'.Copying? ==>
          || Sweeps(pc, pc'.src)
          || (pc.AwaitRemovers? && pc.src == pc'.src && pc.src in s.segs && s.segs[pc.src].removers == 0))
  }

  /** No segment changes its phase. */
  ghost predicate Calm(s: State, s': State) {
    s'.segs.Keys == s.segs.Keys && forall c | c in s.segs :: s'.segs[c].phase == s.segs[c].phase
  }

  /** A step after which the thread holds no remover pin that was granted, and sweeps nothing. */
  lemma PlainMove(s: State, s': State, t: Tid)
    requires t in s.threads && t in s'.threads && Removing(s'.threads[t]).None?
    requires var pc' := s'.threads[t]; !pc'.Sweeping? && !pc'.CopyWait? && !pc'.Copying?
    ensures RemoverMove(s, s', t)
  {
  }

  /** A step that keeps the pin or the sweep as it was. */
  lemma KeepingMove(s: State, s': State, t: Tid)
    requires t in s.threads && t in s'.threads && Removing(s'.threads[t]) == Removing(s.threads[t])
    requires var pc' := s'.threads[t]; pc'.Sweeping? || pc'.CopyWait? || pc'.Copying? ==> Sweeps(s.threads[t], pc'.src)
    ensures RemoverMove(s, s', t)
  {
  }

  lemma StartMove(s: State, s': State, t: Tid)
    requires t in s.threads && s.threads[t].Idle? && Start(s, s', t)
    ensures t in s'.threads && RemoverMove(s, s', t)
  {
    hide RemoverMove;
    PlainMove(s, s', t);
  }

  lemma ReserveMove(s: State, s': State, t: Tid)
    requires t in s.threads && ReserveStep(s, s', t)
    ensures t in s'.threads && RemoverMove(s, s', t)
  {
    hide RemoverMove, LookupStep, Removing;
    var pc := s.threads[t];
    if pc.RemoverCounted? { GrantMove(s, s', t); }
    else if pc.Reserved? && !pc.op.cas { LookupMove(s, s', t, pc.op); }
    else { ReservingMove(s, s', t); }
  }

  lemma GrantMove(s: State, s': State, t: Tid)
    requires t in s.threads && ReserveStep(s, s', t) && s.threads[t].RemoverCounted?
    ensures t in s'.threads && RemoverMove(s, s', t)
  {
    hide LookupStep;
  }

  lemma LookupMove(s: State, s': State, t: Tid, op: Op)
    requires t in s.threads && s.threads[t] == Reserved(op) && LookupStep(s, s', t, op)
    ensures t in s'.threads && RemoverMove(s, s', t)
  {
    hide RemoverMove;
    PlainMove(s, s', t);
  }

  lemma ReservingMove(s: State, s': State, t: Tid)
    requires t in s.threads && ReserveStep(s, s', t) && !s.threads[t].RemoverCounted?
    requires s.threads[t].Reserved? ==> s.threads[t].op.cas
    ensures t in s'.threads && RemoverMove(s, s', t)
  {
    hide RemoverMove, LookupStep;
    PlainMove(s, s', t);
  }

  lemma PublishMove(s: State, s': State, t: Tid)
    requires t in s.threads && PublishStep(s, s', t)
    ensures t in s'.threads && RemoverMove(s, s', t)
  {
    hide RemoverMove, Removing;
    var pc := s.threads[t];
    if pc.Lost? || pc.Mismatched? { LetGoMove(s, s', t); }
    else if pc.Published? || pc.ItemWait? { PinnedMove(s, s', t); }
    else { CompareMove(s, s', t); }
  }

  lemma LetGoMove(s: State, s': State, t: Tid)
    requires t in s.threads && PublishStep(s, s', t) && (s.threads[t].Lost? || s.threads[t].Mismatched?)
    ensures t in s'.threads && RemoverMove(s, s', t)
  {
    hide RemoverMove, TryPublish;
    PlainMove(s, s', t);
  }

  lemma PinnedMove(s: State, s': State, t: Tid)
    requires t in s.threads && PublishStep(s, s', t) && (s.threads[t].Published? || s.threads[t].ItemWait?)
    ensures t in s'.threads && RemoverMove(s, s', t)
  {
    hide RemoverMove, TryPublish;
    KeepingMove(s, s', t);
  }

  /** The exchange of the entry ends here or there. */
  ghost predicate ExchangeEnds(s: State, s': State, t: Tid, op: Op) {
    && t in s'.threads
    && if s'.threads[t].Published? then
         && s'.threads[t].op == op && Matches(s, op)
         && s'.EntryOf(op.key) == Entry(Some(op.own), s.Changes(op.key) + 1)
       else s'.threads[t] == Lost(op) && !Unchanged(s, op)
  }

  lemma ExchangeSteps(s: State, s': State, t: Tid, op: Op)
    requires TryPublish(s, s', t, op)
    ensures ExchangeEnds(s, s', t, op)
  {
  }

  lemma ComparingMove(s: State, s': State, t: Tid)
    requires t in s.threads && PublishStep(s, s', t) && s.threads[t].BothPinned?
    ensures t in s'.threads && RemoverMove(s, s', t)
  {
    hide RemoverMove, TryPublish, Matches, Unchanged;
    var op := s.threads[t].op;
    if TryPublish(s, s', t, op) { ExchangeSteps(s, s', t, op); }
    KeepingMove(s, s', t);
  }

  lemma LockedCompareMove(s: State, s': State, t: Tid)
    requires t in s.threads && PublishStep(s, s', t) && s.threads[t].ItemLocked?
    ensures t in s'.threads && RemoverMove(s, s', t)
  {
    hide RemoverMove, TryPublish, Matches, Unchanged;
    var op := s.threads[t].op;
    var s0 := s.DropLeaf(s.threads[t].leaf);
    if TryPublish(s0, s', t, op) { ExchangeSteps(s0, s', t, op); }
    KeepingMove(s, s', t);
  }

  lemma CompareMove(s: State, s': State, t: Tid)
    requires t in s.threads && PublishStep(s, s', t) && (s.threads[t].BothPinned? || s.threads[t].ItemLocked?)
    ensures t in s'.threads && RemoverMove(s, s', t)
  {
    hide RemoverMove, Removing, PublishStep;
    if s.threads[t].BothPinned? { ComparingMove(s, s', t); } else { LockedCompareMove(s, s', t); }
  }

  lemma CreateMove(s: State, s': State, t: Tid)
    requires t in s.threads && CreateStep(s, s', t)
    ensures t in s'.threads && RemoverMove(s, s', t)
  {
    hide RemoverMove, Unverifiable, Replaceable, Removing;
    if s.threads[t].StripeLocked? { StripeMove(s, s', t); } else { AroundStripeMove(s, s', t); }
  }

  lemma StripeMove(s: State, s': State, t: Tid)
    requires t in s.threads && CreateStep(s, s', t) && s.threads[t].StripeLocked?
    ensures t in s'.threads && RemoverMove(s, s', t)
  {
    hide RemoverMove, Unverifiable, Replaceable;
    PlainMove(s, s', t);
  }

  lemma AroundStripeMove(s: State, s': State, t: Tid)
    requires t in s.threads && CreateStep(s, s', t) && (s.threads[t].StripeWait? || s.threads[t].Created?)
    ensures t in s'.threads && RemoverMove(s, s', t)
  {
    hide RemoverMove, Unverifiable, Replaceable;
    PlainMove(s, s', t);
  }

  lemma RemoveMove(s: State, s': State, t: Tid)
    requires t in s.threads && RemoveStep(s, s', t)
    ensures t in s'.threads && RemoverMove(s, s', t)
  {
    hide RemoverMove, Removing;
    if s.threads[t].OwnCounted? { OwnGrantMove(s, s', t); } else { RemovedMove(s, s', t); }
  }

  lemma OwnGrantMove(s: State, s': State, t: Tid)
    requires t in s.threads && RemoveStep(s, s', t) && s.threads[t].OwnCounted?
    ensures t in s'.threads && RemoverMove(s, s', t)
  {
  }

  lemma RemovedMove(s: State, s': State, t: Tid)
    requires t in s.threads && RemoveStep(s, s', t) && !s.threads[t].OwnCounted?
    ensures t in s'.threads && RemoverMove(s, s', t)
  {
    hide RemoverMove;
    PlainMove(s, s', t);
  }

  lemma DeleteMove(s: State, s': State, t: Tid)
    requires t in s.threads && DeleteStep(s, s', t)
    ensures t in s'.threads && RemoverMove(s, s', t)
  {
    hide RemoverMove, Removing;
    if s.threads[t].DeleteCounted? { DeleteGrantMove(s, s', t); }
    else if s.threads[t].DeletePinned? && s'.threads[t].Removing? { UnlinkMove(s, s', t); }
    else { DeletedMove(s, s', t); }
  }

  lemma DeleteGrantMove(s: State, s': State, t: Tid)
    requires t in s.threads && DeleteStep(s, s', t) && s.threads[t].DeleteCounted?
    ensures t in s'.threads && RemoverMove(s, s', t)
  {
  }

  lemma UnlinkMove(s: State, s': State, t: Tid)
    requires t in s.threads && t in s'.threads && DeleteStep(s, s', t)
    requires s.threads[t].DeletePinned? && s'.threads[t].Removing?
    ensures RemoverMove(s, s', t)
  {
    hide RemoverMove;
    KeepingMove(s, s', t);
  }

  lemma DeletedMove(s: State, s': State, t: Tid)
    requires t in s.threads && t in s'.threads && DeleteStep(s, s', t) && !s.threads[t].DeleteCounted?
    requires s.threads[t].DeletePinned? ==> !s'.threads[t].Removing?
    ensures RemoverMove(s, s', t)
  {
    hide RemoverMove;
    PlainMove(s, s', t);
  }

  lemma LockedMove(s: State, s': State, t: Tid, b: Bucket, dest: Option<Sid>, job: Job)
    requires t in s.threads && s.threads[t] == Locked(b, dest, job) && LockedStep(s, s', t, b, dest, job)
    ensures t in s'.threads && RemoverMove(s, s', t)
  {
    hide RemoverMove, Extends, State.InPhase;
    PlainMove(s, s', t);
  }

  lemma SweepMove(s: State, s': State, t: Tid, b: Bucket, c: Sid, dest: Option<Sid>, job: Job)
    requires t in s.threads && s.threads[t] == Sweeping(b, c, dest, job) && SweepStep(s, s', t, b, c, dest, job)
    ensures t in s'.threads && RemoverMove(s, s', t)
  {
    hide RemoverMove;
    KeepingMove(s, s', t);
  }

  lemma ChainMove(s: State, s': State, t: Tid)
    requires t in s.threads && ChainStep(s, s', t)
    ensures t in s'.threads && RemoverMove(s, s', t)
  {
    hide RemoverMove, Removing, LockedStep, SweepStep;
    var pc := s.threads[t];
    if pc.Locked? { LockedMove(s, s', t, pc.bucket, pc.dest, pc.job); }
    else if pc.Sweeping? { SweepMove(s, s', t, pc.bucket, pc.src, pc.dest, pc.job); }
    else if pc.AwaitRemovers? { BeginSweepMove(s, s', t); }
    else if pc.CopyWait? || pc.Copying? { CopyMove(s, s', t); }
    else { ChainWaitMove(s, s', t); }
  }

  lemma BeginSweepMove(s: State, s': State, t: Tid)
    requires t in s.threads && ChainStep(s, s', t) && s.threads[t].AwaitRemovers?
    ensures t in s'.threads && RemoverMove(s, s', t)
  {
    hide LockedStep, SweepStep;
  }

  lemma CopyMove(s: State, s': State, t: Tid)
    requires t in s.threads && ChainStep(s, s', t) && (s.threads[t].CopyWait? || s.threads[t].Copying?)
    ensures t in s'.threads && RemoverMove(s, s', t)
  {
    hide RemoverMove, LockedStep, SweepStep;
    KeepingMove(s, s', t);
  }

  lemma ChainWaitMove(s: State, s': State, t: Tid)
    requires t in s.threads && ChainStep(s, s', t)
    requires s.threads[t].EvictionWait? || s.threads[t].WantLock? || s.threads[t].AwaitWriters?
    ensures t in s'.threads && RemoverMove(s, s', t)
  {
    hide RemoverMove, LockedStep, SweepStep;
    PlainMove(s, s', t);
  }

  lemma CountMove(s: State, s': State, t: Tid)
    requires t in s.threads && CountStep(s, s', t)
    ensures t in s'.threads && RemoverMove(s, s', t)
  {
    hide RemoverMove;
    PlainMove(s, s', t);
  }

  lemma StepMove(s: State, s': State, t: Tid)
    requires Step(s, s', t)
    ensures t in s.threads && t in s'.threads && RemoverMove(s, s', t)
  {
    hide RemoverMove;
    if s.threads[t].Idle? { StartMove(s, s', t); }
    else if ReserveStep(s, s', t) { ReserveMove(s, s', t); }
    else if PublishStep(s, s', t) { PublishMove(s, s', t); }
    else if CreateStep(s, s', t) { CreateMove(s, s', t); }
    else if RemoveStep(s, s', t) { RemoveMove(s, s', t); }
    else if DeleteStep(s, s', t) { DeleteMove(s, s', t); }
    else if ChainStep(s, s', t) { ChainMove(s, s', t); }
    else { CountMove(s, s', t); }
  }

  lemma SweeperDrains(s: State, c: Sid, u: Tid)
    requires Inv(s) && Unswept(s, c) && u in s.threads
    ensures !Sweeps(s.threads[u], c)
  {
    DrainedPhase(s, c);
    hide Inv;
    if Sweeps(s.threads[u], c) { SweepsMeansDrains(s, c, u); }
  }

  lemma SweepsMeansDrains(s: State, c: Sid, u: Tid)
    requires u in s.threads && Sweeps(s.threads[u], c)
    ensures DrainedBy(s, c, u) && DrainsPast(s.threads[u], c)
  {
  }

  /** The segment stays unswept in a step of `t`, if somebody has a remover pin on it. */
  lemma UnsweptKept(s: State, s': State, t: Tid, c: Sid)
    requires Inv(s) && Settles(s, s', t) && RemoverMove(s, s', t) && OneMoved(s, s', t)
    requires Unswept(s, c) && s.segs[c].removers > 0
    ensures Unswept(s', c)
  {
    hide Inv, Settles, RemoverMove, Sweeps;
    UnsweptPhase(s, s', t, c);
    forall u | u in s'.threads ensures !Sweeps(s'.threads[u], c) {
      SweeperDrains(s, c, u);
      if u == t { SweepsNothingNew(s, s', t, c); }
    }
  }

  lemma UnsweptPhase(s: State, s': State, t: Tid, c: Sid)
    requires Inv(s) && Settles(s, s', t) && Unswept(s, c)
    ensures c in s'.segs && (s'.segs[c].phase.Removable() || s'.segs[c].phase.Draining?)
  {
    SweeperDrains(s, c, t);
    hide Inv, OwnMove, EntryMove, NoneNames;
    assert PhaseMove(s, s', t, c);
  }

  lemma SweepsNothingNew(s: State, s': State, t: Tid, c: Sid)
    requires t in s.threads && t in s'.threads && RemoverMove(s, s', t) && !Sweeps(s.threads[t], c)
    requires c in s.segs && s.segs[c].removers > 0
    ensures !Sweeps(s'.threads[t], c)
  {
  }

  lemma ShieldedKept(s: State, s': State, t: Tid, u: Tid)
    requires Inv(s) && Settles(s, s', t) && RemoverMove(s, s', t) && OneMoved(s, s', t)
    requires u in s.threads && u in s'.threads && Shielded(s, s.threads[u])
    ensures Shielded(s', s'.threads[u])
  {
    hide Inv, Settles, Unswept, Calm;
    var pc' := s'.threads[u];
    if Removing(pc').Some? {
      var c := Removing(pc').value;
      if Removing(s.threads[u]) == Some(c) {
        RemoverCounts(s, u, c);
        UnsweptKept(s, s', t, c);
      } else {
        GrantedUnswept(s, s', t, c);
      }
    }
  }

  lemma RemoverCounts(s: State, u: Tid, c: Sid)
    requires Inv(s) && u in s.threads && Removing(s.threads[u]) == Some(c)
    ensures c in s.segs && s.segs[c].removers > 0
  {
    PinsCounted(s, u);
    hide Inv;
    assert s.threads[u].Removes() == Some(c);
  }

  /** A pin is granted in service only. */
  lemma GrantedUnswept(s: State, s': State, t: Tid, c: Sid)
    requires Calm(s, s') && c in s.segs && s.segs[c].phase.Removable()
    ensures Unswept(s', c)
  {
  }

  ghost predicate Safe(s: State) { Firm(s) && forall t | t in s.threads :: Shielded(s, s.threads[t]) }

  lemma SafeKept(s: State, s': State, t: Tid)
    requires Safe(s) && Step(s, s', t)
    ensures Safe(s')
  {
    FirmKept(s, s', t);
    StepSettles(s, s', t);
    StepMove(s, s', t);
    StepOrderly(s, s', t);
    OrderlyMovesOne(s, s', t);
    hide Inv, EntriesStand, Anchored, Step, Settles, RemoverMove, Shielded, Orderly;
    forall u | u in s'.threads ensures Shielded(s', s'.threads[u]) {
      ShieldedKept(s, s', t, u);
    }
  }

  lemma {:induction false} RunSafe(run: seq<State>, who: seq<Tid>, n: nat)
    requires Run(run, who) && EntriesStand(run[0]) && n < |run|
    ensures Safe(run[n])
  {
    hide Init, Step, Firm, Shielded, EntriesStand;
    if n == 0 {
      RunFirm(run, who, 0);
      InitShielded(run[0]);
    } else {
      RunSafe(run, who, n - 1);
      SafeKept(run[n - 1], run[n], who[n - 1]);
    }
  }

  lemma InitShielded(s: State)
    requires Init(s)
    ensures forall t | t in s.threads :: Shielded(s, s.threads[t])
  {
  }

  /**
   * In every run that starts with entries in segments in service: while a thread
   * keeps a reservation, the segment takes entries and nobody is past waiting for
   * its writers; while a thread keeps a remover pin that was granted, nobody
   * sweeps the segment or copies out of it. In both cases it is not recycled or
   * condemned.
   */
  lemma PinsKeepSegments(run: seq<State>, who: seq<Tid>, t: Tid)
    requires Run(run, who) && EntriesStand(run[0]) && t in run[|run| - 1].threads
    ensures var (s, pc) := (run[|run| - 1], run[|run| - 1].threads[t]);
      && (Publishes(pc).Some? ==>
            var c := Publishes(pc).value;
            && c in s.segs && (s.segs[c].phase.Live? || s.segs[c].phase.Sealed? || s.segs[c].phase.Draining?)
            && forall u | u in s.threads && s.threads[u].Source() == Some(c) :: s.threads[u].AwaitWriters?)
      && (Removing(pc).Some? ==>
            var c := Removing(pc).value;
            && c in s.segs && (s.segs[c].phase.Live? || s.segs[c].phase.Sealed? || s.segs[c].phase.Draining?)
            && forall u | u in s.threads && s.threads[u].Source() == Some(c) ::
                 s.threads[u].AwaitWriters? || s.threads[u].AwaitRemovers?)
  {
    RunSafe(run, who, |run| - 1);
    hide Run, EntriesStand, Safe, Publishes, Removing, Pc.Source;
    var s := run[|run| - 1];
    if Publishes(s.threads[t]).Some? { PublisherKeeps(s, t); }
    if Removing(s.threads[t]).Some? { RemoverKeeps(s, t); }
  }

  lemma PublisherKeeps(s: State, t: Tid)
    requires Safe(s) && t in s.threads && Publishes(s.threads[t]).Some?
    ensures var c := Publishes(s.threads[t]).value;
      && c in s.segs && (s.segs[c].phase.Live? || s.segs[c].phase.Sealed? || s.segs[c].phase.Draining?)
      && forall u | u in s.threads && s.threads[u].Source() == Some(c) :: s.threads[u].AwaitWriters?
  {
    var c := Publishes(s.threads[t]).value;
    assert Anchored(s, s.threads[t]);
    hide Inv, Shielded;
    forall u | u in s.threads && s.threads[u].Source() == Some(c) ensures s.threads[u].AwaitWriters? {
      OnlyAwaits(s, c, u);
    }
  }

  lemma RemoverKeeps(s: State, t: Tid)
    requires Safe(s) && t in s.threads && Removing(s.threads[t]).Some?
    ensures var c := Removing(s.threads[t]).value;
      && c in s.segs && (s.segs[c].phase.Live? || s.segs[c].phase.Sealed? || s.segs[c].phase.Draining?)
      && forall u | u in s.threads && s.threads[u].Source() == Some(c) ::
           s.threads[u].AwaitWriters? || s.threads[u].AwaitRemovers?
  {
    var c := Removing(s.threads[t]).value;
    assert Shielded(s, s.threads[t]);
    hide Inv, Anchored;
    forall u | u in s.threads && s.threads[u].Source() == Some(c)
      ensures s.threads[u].AwaitWriters? || s.threads[u].AwaitRemovers?
    {
      SweeperDrains(s, c, u);
    }
  }

  lemma OnlyAwaits(s: State, c: Sid, u: Tid)
    requires Inv(s) && StillOpen(s, c) && u in s.threads && s.threads[u].Source() == Some(c)
    ensures s.threads[u].AwaitWriters?
  {
    NotDrainedPast(s, c, u);
    hide Inv;
  }

  // ----- Incarnations -----

  /**
   * The generation of a segment goes up by one when an incarnation ends, and only
   * then; a step ends at most one, and the count of freed segments goes up with it.
   */
  lemma IncarnationsCounted(s: State, s': State, t: Tid)
    requires Inv(s) && Step(s, s', t)
    ensures s'.segs.Keys == s.segs.Keys
    ensures forall c | c in s.segs :: s'.segs[c].gen == s.segs[c].gen + if Ends(s, s', c) then 1 else 0
    ensures s'.freed == s.freed + if exists c :: Ends(s, s', c) then 1 else 0
    ensures forall c, d | Ends(s, s', c) && Ends(s, s', d) :: c == d
  {
    StepSettles(s, s', t);
    hide Inv, Step, OwnMove, EntryMove, NoneNames;
    forall c | c in s.segs ensures s'.segs[c].gen == s.segs[c].gen + if Ends(s, s', c) then 1 else 0 {
      assert PhaseMove(s, s', t, c);
    }
  }

  // ----- What gets through -----

  /** What a step that ends with a published or removed entry has done to it, and what a lookup has found. */
  ghost predicate Through(s: State, s': State, pc: Pc, pc': Pc) {
    && (pc'.Published? ==>
          && (pc.BothPinned? || pc.ItemLocked?) && pc'.op == pc.op && Matches(s, pc.op)
          && s'.EntryOf(pc.op.key) == Entry(Some(pc.op.own), s.Changes(pc.op.key) + 1))
    && (pc'.Lost? ==> (pc.BothPinned? || pc.ItemLocked?) && s.Changes(pc.op.key) != pc.op.seen)
    && (pc'.Created? ==>
          && pc.StripeLocked? && pc'.op == pc.op && pc'.raced == s.EntryOf(pc.op.key).seg
          && s'.EntryOf(pc.op.key) == Entry(Some(pc.op.own), s.Changes(pc.op.key) + 1))
    && (pc.DeletePinned? ==>
          if pc'.Removing? then
            s.Changes(pc.key) == pc.seen && s'.EntryOf(pc.key) == Entry(None, s.Changes(pc.key) + 1)
          else s.Changes(pc.key) != pc.seen)
    && (pc'.RemoverCounted? && !pc'.op.cas ==> Verifiable(s, pc'.op))
  }

  /** The entry names the location, whose segment readers may pin, in its own incarnation. */
  ghost predicate Verifiable(s: State, op: Op) {
    && s.EntryOf(op.key) == Entry(Some(op.other), op.seen) && op.other in s.segs && op.gen == s.segs[op.other].gen
    && (s.segs[op.other].phase.Live? || s.segs[op.other].phase.Sealed? || s.segs[op.other].phase.Relinking?)
  }

  /** A step that ends elsewhere. */
  lemma NothingThrough(s: State, s': State, pc: Pc, pc': Pc)
    requires !pc'.Published? && !pc'.Lost? && !pc'.Created? && !pc.DeletePinned?
    requires pc'.RemoverCounted? ==> pc'.op.cas
    ensures Through(s, s', pc, pc')
  {
  }

  lemma StartThrough(s: State, s': State, t: Tid)
    requires t in s.threads && s.threads[t].Idle? && Start(s, s', t)
    ensures t in s'.threads && Through(s, s', s.threads[t], s'.threads[t])
  {
    hide Through;
    NothingThrough(s, s', s.threads[t], s'.threads[t]);
  }

  lemma PublishThrough(s: State, s': State, t: Tid)
    requires t in s.threads && PublishStep(s, s', t)
    ensures t in s'.threads && Through(s, s', s.threads[t], s'.threads[t])
  {
    hide Through, TryPublish;
    var pc := s.threads[t];
    if pc.BothPinned? { TryThrough(s, s', t); }
    else if pc.ItemLocked? { LockedTryThrough(s, s', t); }
    else { UnpublishedThrough(s, s', t); }
  }

  lemma TryThrough(s: State, s': State, t: Tid)
    requires t in s.threads && PublishStep(s, s', t) && s.threads[t].BothPinned?
    ensures t in s'.threads && Through(s, s', s.threads[t], s'.threads[t])
  {
    hide TryPublish, Matches;
    var op := s.threads[t].op;
    if TryPublish(s, s', t, op) { ExchangeSteps(s, s', t, op); }
  }

  lemma LockedTryThrough(s: State, s': State, t: Tid)
    requires t in s.threads && PublishStep(s, s', t) && s.threads[t].ItemLocked?
    ensures t in s'.threads && Through(s, s', s.threads[t], s'.threads[t])
  {
    hide TryPublish;
    var op := s.threads[t].op;
    var s0 := s.DropLeaf(s.threads[t].leaf);
    if TryPublish(s0, s', t, op) { ExchangeSteps(s0, s', t, op); }
  }

  lemma UnpublishedThrough(s: State, s': State, t: Tid)
    requires t in s.threads && PublishStep(s, s', t)
    requires var pc := s.threads[t]; pc.ItemWait? || pc.Published? || pc.Lost? || pc.Mismatched?
    ensures t in s'.threads && Through(s, s', s.threads[t], s'.threads[t])
  {
    hide Through, TryPublish;
    NothingThrough(s, s', s.threads[t], s'.threads[t]);
  }

  lemma CreateThrough(s: State, s': State, t: Tid)
    requires t in s.threads && CreateStep(s, s', t)
    ensures t in s'.threads && Through(s, s', s.threads[t], s'.threads[t])
  {
    hide Through, CreateStep;
    if s.threads[t].StripeLocked? { StripeThrough(s, s', t); } else { AroundStripeThrough(s, s', t); }
  }

  lemma StripeThrough(s: State, s': State, t: Tid)
    requires t in s.threads && CreateStep(s, s', t) && s.threads[t].StripeLocked?
    ensures t in s'.threads && Through(s, s', s.threads[t], s'.threads[t])
  {
    hide Unverifiable, Replaceable;
  }

  lemma AroundStripeThrough(s: State, s': State, t: Tid)
    requires t in s.threads && CreateStep(s, s', t) && !s.threads[t].StripeLocked?
    ensures t in s'.threads && Through(s, s', s.threads[t], s'.threads[t])
  {
    hide Through, Unverifiable, Replaceable;
    NothingThrough(s, s', s.threads[t], s'.threads[t]);
  }

  lemma DeleteThrough(s: State, s': State, t: Tid)
    requires t in s.threads && DeleteStep(s, s', t)
    ensures t in s'.threads && Through(s, s', s.threads[t], s'.threads[t])
  {
    hide Through;
    if s.threads[t].DeletePinned? { UnlinkThrough(s, s', t); } else { DeletingThrough(s, s', t); }
  }

  lemma UnlinkThrough(s: State, s': State, t: Tid)
    requires t in s.threads && DeleteStep(s, s', t) && s.threads[t].DeletePinned?
    ensures t in s'.threads && Through(s, s', s.threads[t], s'.threads[t])
  {
  }

  lemma DeletingThrough(s: State, s': State, t: Tid)
    requires t in s.threads && DeleteStep(s, s', t)
    requires var pc := s.threads[t]; !pc.DeletePinned?
    ensures t in s'.threads && Through(s, s', s.threads[t], s'.threads[t])
  {
    hide Through;
    NothingThrough(s, s', s.threads[t], s'.threads[t]);
  }

  lemma ReserveThrough(s: State, s': State, t: Tid)
    requires t in s.threads && ReserveStep(s, s', t)
    ensures t in s'.threads && Through(s, s', s.threads[t], s'.threads[t])
  {
    hide Through, LookupStep;
    var pc := s.threads[t];
    if pc.Reserved? && !pc.op.cas { LookupThrough(s, s', t, pc.op); } else { ReservingThrough(s, s', t); }
  }

  lemma LookupThrough(s: State, s': State, t: Tid, op: Op)
    requires t in s.threads && s.threads[t] == Reserved(op) && LookupStep(s, s', t, op)
    ensures t in s'.threads && Through(s, s', s.threads[t], s'.threads[t])
  {
    hide Unverifiable;
  }

  lemma ReservingThrough(s: State, s': State, t: Tid)
    requires t in s.threads && ReserveStep(s, s', t)
    requires var pc := s.threads[t]; pc.Reserved? ==> pc.op.cas
    ensures t in s'.threads && Through(s, s', s.threads[t], s'.threads[t])
  {
    hide Through, ReserveStep;
    if s.threads[t].Refused? { RefusedThrough(s, s', t); } else { ReservedThrough(s, s', t); }
  }

  lemma RefusedThrough(s: State, s': State, t: Tid)
    requires t in s.threads && ReserveStep(s, s', t) && s.threads[t].Refused?
    ensures t in s'.threads && Through(s, s', s.threads[t], s'.threads[t])
  {
    hide Through, LookupStep;
    NothingThrough(s, s', s.threads[t], s'.threads[t]);
  }

  lemma ReservedThrough(s: State, s': State, t: Tid)
    requires t in s.threads && ReserveStep(s, s', t) && !s.threads[t].Refused?
    requires var pc := s.threads[t]; pc.Reserved? ==> pc.op.cas
    ensures t in s'.threads && Through(s, s', s.threads[t], s'.threads[t])
  {
    hide Through, LookupStep;
    NothingThrough(s, s', s.threads[t], s'.threads[t]);
  }

  lemma RemoveThrough(s: State, s': State, t: Tid)
    requires t in s.threads && RemoveStep(s, s', t)
    ensures t in s'.threads && Through(s, s', s.threads[t], s'.threads[t])
  {
    hide Through, RemoveStep;
    var pc := s.threads[t];
    if pc.GivingUp? || pc.Unpinned? || pc.OwnCounted? { RollbackThrough(s, s', t); } else { RemovedThrough(s, s', t); }
  }

  lemma RollbackThrough(s: State, s': State, t: Tid)
    requires t in s.threads && RemoveStep(s, s', t)
    requires var pc := s.threads[t]; pc.GivingUp? || pc.Unpinned? || pc.OwnCounted?
    ensures t in s'.threads && Through(s, s', s.threads[t], s'.threads[t])
  {
    hide Through;
    NothingThrough(s, s', s.threads[t], s'.threads[t]);
  }

  lemma RemovedThrough(s: State, s': State, t: Tid)
    requires t in s.threads && RemoveStep(s, s', t)
    requires var pc := s.threads[t]; !pc.GivingUp? && !pc.Unpinned? && !pc.OwnCounted?
    ensures t in s'.threads && Through(s, s', s.threads[t], s'.threads[t])
  {
    hide Through;
    NothingThrough(s, s', s.threads[t], s'.threads[t]);
  }

  lemma ChainThrough(s: State, s': State, t: Tid)
    requires t in s.threads && ChainStep(s, s', t)
    ensures t in s'.threads && Through(s, s', s.threads[t], s'.threads[t])
  {
    hide Through, LockedStep, SweepStep;
    var pc := s.threads[t];
    if pc.Locked? { LockedThrough(s, s', t, pc.bucket, pc.dest, pc.job); }
    else if pc.Sweeping? { SweepThrough(s, s', t, pc.bucket, pc.src, pc.dest, pc.job); }
    else if pc.CopyWait? || pc.Copying? { CopyThrough(s, s', t); }
    else { WaitThrough(s, s', t); }
  }

  lemma LockedThrough(s: State, s': State, t: Tid, b: Bucket, dest: Option<Sid>, job: Job)
    requires t in s.threads && s.threads[t] == Locked(b, dest, job) && LockedStep(s, s', t, b, dest, job)
    ensures t in s'.threads && Through(s, s', s.threads[t], s'.threads[t])
  {
    hide Through, Extends, State.InPhase;
    NothingThrough(s, s', s.threads[t], s'.threads[t]);
  }

  lemma SweepThrough(s: State, s': State, t: Tid, b: Bucket, c: Sid, dest: Option<Sid>, job: Job)
    requires t in s.threads && s.threads[t] == Sweeping(b, c, dest, job) && SweepStep(s, s', t, b, c, dest, job)
    ensures t in s'.threads && Through(s, s', s.threads[t], s'.threads[t])
  {
    hide Through, State.InPhase;
    NothingThrough(s, s', s.threads[t], s'.threads[t]);
  }

  lemma CopyThrough(s: State, s': State, t: Tid)
    requires t in s.threads && ChainStep(s, s', t)
    requires var pc := s.threads[t]; pc.CopyWait? || pc.Copying?
    ensures t in s'.threads && Through(s, s', s.threads[t], s'.threads[t])
  {
    hide Through, LockedStep, SweepStep;
    NothingThrough(s, s', s.threads[t], s'.threads[t]);
  }

  lemma WaitThrough(s: State, s': State, t: Tid)
    requires t in s.threads && ChainStep(s, s', t)
    requires var pc := s.threads[t]; pc.EvictionWait? || pc.WantLock? || pc.AwaitWriters? || pc.AwaitRemovers?
    ensures t in s'.threads && Through(s, s', s.threads[t], s'.threads[t])
  {
    hide Through, LockedStep, SweepStep;
    NothingThrough(s, s', s.threads[t], s'.threads[t]);
  }

  lemma CountThrough(s: State, s': State, t: Tid)
    requires t in s.threads && CountStep(s, s', t)
    requires var pc := s.threads[t]; pc.CountWait? || pc.Counting?
    ensures t in s'.threads && Through(s, s', s.threads[t], s'.threads[t])
  {
    hide Through;
    NothingThrough(s, s', s.threads[t], s'.threads[t]);
  }

  /**
   * An insert that gets through leaves the entry of its key naming its own
   * segment: it replaces what it saw, or what is there under the stripe lock; a
   * delete that gets through leaves no entry. Each is one change. An exchange or
   * a pinned delete fails only if the entry has changed since it was looked up. A
   * lookup finds only what readers may pin.
   */
  lemma GetsThrough(s: State, s': State, t: Tid)
    requires Step(s, s', t)
    ensures t in s.threads && t in s'.threads && Through(s, s', s.threads[t], s'.threads[t])
  {
    hide Through;
    if s.threads[t].Idle? { StartThrough(s, s', t); }
    else if ReserveStep(s, s', t) { ReserveThrough(s, s', t); }
    else if PublishStep(s, s', t) { PublishThrough(s, s', t); }
    else if CreateStep(s, s', t) { CreateThrough(s, s', t); }
    else if RemoveStep(s, s', t) { RemoveThrough(s, s', t); }
    else if DeleteStep(s, s', t) { DeleteThrough(s, s', t); }
    else if ChainStep(s, s', t) { ChainThrough(s, s', t); }
    else { CountThrough(s, s', t); }
  }
}
