/**
 * Why an insert restarts: not for nothing. The location it waited on was named by
 * an entry during the attempt, and since then that entry has changed or a drain
 * or fill of that very incarnation has been going on and has ended.
 */
module PinRestarts {
  import opened Wrappers
  import opened PinProtocol
  import opened PinOwnership
  import opened PinProgress
  import opened PinDeadlock

  // ----- Entries name segments in service -----

  predicate Standing(phase: Phase) { !phase.Free? && !phase.Condemned? }

  /** The thread has seen the writers of the segment it drains go. */
  predicate PastWriters(pc: Pc) { pc.AwaitRemovers? || pc.Sweeping? || pc.CopyWait? || pc.Copying? }

  predicate DrainsPast(pc: Pc, c: Sid) { PastWriters(pc) && pc.Source() == Some(c) }

  /** The segment takes entries: it is in service, or its drain still waits for the writers. */
  ghost predicate StillOpen(s: State, c: Sid) {
    && c in s.segs
    && (s.segs[c].phase.Removable()
        || (s.segs[c].phase.Draining? && forall u | u in s.threads :: !DrainsPast(s.threads[u], c)))
  }

  /** The segment a thread may publish into. */
  function Publishes(pc: Pc): Option<Sid> {
    if pc.Doing().Some? && !pc.WriterCounted? then Some(pc.Doing().value.own) else None
  }

  ghost predicate Anchored(s: State, pc: Pc) { Publishes(pc).Some? ==> StillOpen(s, Publishes(pc).value) }

  ghost predicate NoneNames(s: State, c: Sid) { forall x :: s.EntryOf(x).seg != Some(c) }

  ghost predicate EntriesStand(s: State) {
    forall x :: s.EntryOf(x).seg.Some? ==>
      s.EntryOf(x).seg.value in s.segs && Standing(s.segs[s.EntryOf(x).seg.value].phase)
  }

  ghost predicate Firm(s: State) {
    Inv(s) && EntriesStand(s) && forall t | t in s.threads :: Anchored(s, s.threads[t])
  }

  /** What may become of a segment in a step of `t`. */
  ghost predicate PhaseMove(s: State, s': State, t: Tid, c: Sid)
    requires c in s.segs && c in s'.segs && t in s.threads && t in s'.threads
  {
    var (a, b) := (s.segs[c], s'.segs[c]);
    || (b.gen == a.gen &&
         (|| b.phase == a.phase
          || (a.phase.Free? && (b.phase.Live? || b.phase.Relinking?))
          || ((a.phase.Live? || a.phase.Relinking?) && b.phase.Sealed?)
          || (a.phase.Removable() && b.phase.Draining? && s'.threads[t].AwaitWriters?)))
    || (&& a.phase.Draining? && s.threads[t].Sweeping? && s.threads[t].src == c && NoneNames(s', c)
        && if b.phase.Free? then b.gen == a.gen + 1 else b.phase.Condemned? && b.gen == a.gen)
    || (a.phase.Condemned? && b.phase.Free? && b.gen == a.gen + 1)
  }

  /** An incarnation of the segment ends. */
  ghost predicate Ends(s: State, s': State, c: Sid) {
    c in s.segs && c in s'.segs && !s.segs[c].phase.Free? && s'.segs[c].phase.Free?
  }

  ghost predicate FreedMove(s: State, s': State) {
    && (s'.freed == if exists c :: Ends(s, s', c) then s.freed + 1 else s.freed)
    && forall c, d | Ends(s, s', c) && Ends(s, s', d) :: c == d
  }

  ghost predicate PhasesMove(s: State, s': State, t: Tid)
    requires t in s.threads && t in s'.threads
  {
    s'.segs.Keys == s.segs.Keys && FreedMove(s, s') && forall c | c in s.segs :: PhaseMove(s, s', t, c)
  }

  /** An entry that changes comes to name nothing, the thread's reservation, or its copy destination. */
  ghost predicate EntryMove(s: State, s': State, t: Tid, x: KeyId)
    requires t in s.threads
  {
    || s'.EntryOf(x) == s.EntryOf(x)
    || (&& s.Changes(x) < s'.Changes(x)
        && var seg := s'.EntryOf(x).seg;
           seg == None || seg == Publishes(s.threads[t]) || (s.threads[t].Copying? && seg == s.threads[t].Target()))
  }

  /** The thread goes on in the segment it publishes into, and drains past writers only when there are none. */
  ghost predicate OwnMove(s: State, s': State, t: Tid)
    requires t in s.threads && t in s'.threads
  {
    var (pc, pc') := (s.threads[t], s'.threads[t]);
    && (Publishes(pc').Some? ==>
          || Publishes(pc') == Publishes(pc)
          || (&& pc.WriterCounted? && Publishes(pc') == Some(pc.op.own)
              && pc.op.own in s.segs && s.segs[pc.op.own].phase.Live?))
    && (PastWriters(pc') ==>
          || DrainsPast(pc, pc'.Source().value)
          || (pc.AwaitWriters? && pc.src == pc'.Source().value && pc.src in s.segs && s.segs[pc.src].writers == 0))
  }

  ghost predicate Settles(s: State, s': State, t: Tid) {
    && t in s.threads && t in s'.threads
    && PhasesMove(s, s', t) && OwnMove(s, s', t) && forall x :: EntryMove(s, s', t, x)
  }

  /** Segments keep phase and generation, and the table stays. */
  lemma CalmSettles(s: State, s': State, t: Tid)
    requires t in s.threads && t in s'.threads && OwnMove(s, s', t)
    requires s'.table == s.table && s'.segs.Keys == s.segs.Keys && s'.freed == s.freed
    requires forall c | c in s.segs :: s'.segs[c].phase == s.segs[c].phase && s'.segs[c].gen == s.segs[c].gen
    ensures Settles(s, s', t)
  {
    hide OwnMove;
  }

  /** Segments stay, and one entry is exchanged. */
  lemma ExchangeSettles(s: State, s': State, t: Tid, x: KeyId, seg: Option<Sid>)
    requires t in s.threads && t in s'.threads && s'.segs == s.segs && s'.freed == s.freed && OwnMove(s, s', t)
    requires s'.table == s.Exchange(x, seg).table
    requires seg == None || seg == Publishes(s.threads[t]) || (s.threads[t].Copying? && seg == s.threads[t].Target())
    ensures Settles(s, s', t)
  {
    hide OwnMove, Publishes;
    forall y ensures EntryMove(s, s', t, y) {
      if y != x { assert s'.EntryOf(y) == s.EntryOf(y); }
    }
  }

  lemma StartSettles(s: State, s': State, t: Tid)
    requires t in s.threads && s.threads[t].Idle? && Start(s, s', t)
    ensures Settles(s, s', t)
  {
    hide Settles;
    if s'.threads[t].Idle? {
      RecycleSettles(s, s', t);
    } else {
      CalmSettles(s, s', t);
    }
  }

  lemma RecycleSettles(s: State, s': State, t: Tid)
    requires t in s.threads && s.threads[t].Idle? && t in s'.threads && s'.threads[t].Idle?
    requires exists c :: c in s.segs && s.segs[c].phase.Condemned? && s' == s.Recycle(c)
    ensures Settles(s, s', t)
  {
    var c :| c in s.segs && s.segs[c].phase.Condemned? && s' == s.Recycle(c);
    assert Ends(s, s', c);
  }

  lemma ReserveSettles(s: State, s': State, t: Tid)
    requires t in s.threads && ReserveStep(s, s', t)
    ensures Settles(s, s', t)
  {
    hide Settles, LookupStep;
    var pc := s.threads[t];
    if pc.Reserved? && !pc.op.cas { LookupSettles(s, s', t, pc.op); }
    else if pc.Examined? || pc.WriterCounted? { ReservingSettles(s, s', t); }
    else if pc.Refused? { RefusedSettles(s, s', t); }
    else { CountedSettles(s, s', t); }
  }

  lemma ReservingSettles(s: State, s': State, t: Tid)
    requires t in s.threads && ReserveStep(s, s', t)
    requires var pc := s.threads[t]; pc.Examined? || pc.WriterCounted?
    ensures Settles(s, s', t)
  {
    hide Settles, LookupStep;
    CalmSettles(s, s', t);
  }

  lemma RefusedSettles(s: State, s': State, t: Tid)
    requires t in s.threads && ReserveStep(s, s', t)
    requires var pc := s.threads[t]; pc.Refused?
    ensures Settles(s, s', t)
  {
    hide Settles, LookupStep;
    CalmSettles(s, s', t);
  }

  lemma CountedSettles(s: State, s': State, t: Tid)
    requires t in s.threads && ReserveStep(s, s', t)
    requires var pc := s.threads[t]; (pc.Reserved? && pc.op.cas) || pc.RemoverCounted?
    ensures Settles(s, s', t)
  {
    hide Settles, LookupStep;
    CalmSettles(s, s', t);
  }

  lemma LookupSettles(s: State, s': State, t: Tid, op: Op)
    requires t in s.threads && s.threads[t] == Reserved(op) && LookupStep(s, s', t, op)
    ensures Settles(s, s', t)
  {
    hide Settles;
    CalmSettles(s, s', t);
  }

  lemma PublishSettles(s: State, s': State, t: Tid)
    requires t in s.threads && PublishStep(s, s', t)
    ensures Settles(s, s', t)
  {
    hide Settles, OwnMove, PhasesMove;
    var pc := s.threads[t];
    if (pc.BothPinned? || pc.ItemLocked?) && s'.threads[t].Published? { PublishedSettles(s, s', t); }
    else if pc.BothPinned? || pc.ItemLocked? { CompareSettles(s, s', t); }
    else { UnpublishedSettles(s, s', t); }
  }

  lemma PublishedSettles(s: State, s': State, t: Tid)
    requires t in s.threads && (s.threads[t].BothPinned? || s.threads[t].ItemLocked?) && PublishStep(s, s', t)
    requires t in s'.threads && s'.threads[t].Published?
    ensures Settles(s, s', t)
  {
    hide Settles;
    ExchangeSettles(s, s', t, s.threads[t].op.key, Some(s.threads[t].op.own));
  }

  lemma CompareSettles(s: State, s': State, t: Tid)
    requires t in s.threads && t in s'.threads && PublishStep(s, s', t) && !s'.threads[t].Published?
    requires s.threads[t].BothPinned? || s.threads[t].ItemLocked?
    ensures Settles(s, s', t)
  {
    hide Settles;
    CalmSettles(s, s', t);
  }

  lemma UnpublishedSettles(s: State, s': State, t: Tid)
    requires t in s.threads && PublishStep(s, s', t)
    requires var pc := s.threads[t]; pc.Published? || pc.Lost? || pc.Mismatched? || pc.ItemWait?
    ensures Settles(s, s', t)
  {
    hide Settles, TryPublish;
    CalmSettles(s, s', t);
  }

  lemma CreateSettles(s: State, s': State, t: Tid)
    requires t in s.threads && CreateStep(s, s', t)
    ensures Settles(s, s', t)
  {
    hide Settles, Unverifiable, Replaceable;
    if s.threads[t].StripeLocked? {
      if s'.threads[t].Created? { CreatedSettles(s, s', t); } else { UncreatedSettles(s, s', t); }
    } else {
      AroundStripeSettles(s, s', t);
    }
  }

  lemma CreatedSettles(s: State, s': State, t: Tid)
    requires t in s.threads && t in s'.threads && CreateStep(s, s', t)
    requires s.threads[t].StripeLocked? && s'.threads[t].Created?
    ensures Settles(s, s', t)
  {
    hide Settles, Unverifiable, Replaceable;
    ExchangeSettles(s, s', t, s.threads[t].op.key, Some(s.threads[t].op.own));
  }

  lemma UncreatedSettles(s: State, s': State, t: Tid)
    requires t in s.threads && t in s'.threads && CreateStep(s, s', t)
    requires s.threads[t].StripeLocked? && !s'.threads[t].Created?
    ensures Settles(s, s', t)
  {
    hide Settles, Unverifiable, Replaceable;
    CalmSettles(s, s', t);
  }

  lemma AroundStripeSettles(s: State, s': State, t: Tid)
    requires t in s.threads && CreateStep(s, s', t)
    requires var pc := s.threads[t]; pc.StripeWait? || pc.Created?
    ensures Settles(s, s', t)
  {
    hide Settles, Unverifiable, Replaceable;
    CalmSettles(s, s', t);
  }

  lemma RemoveSettles(s: State, s': State, t: Tid)
    requires t in s.threads && RemoveStep(s, s', t)
    ensures Settles(s, s', t)
  {
    hide Settles, OwnMove, PhasesMove;
    var pc := s.threads[t];
    if pc.GivingUp? || pc.Unpinned? { RollbackSettles(s, s', t); }
    else if pc.OwnCounted? || pc.Removing? { RemovingSettles(s, s', t); }
    else { RemovedSettles(s, s', t); }
  }

  lemma RollbackSettles(s: State, s': State, t: Tid)
    requires t in s.threads && RemoveStep(s, s', t)
    requires var pc := s.threads[t]; pc.GivingUp? || pc.Unpinned?
    ensures Settles(s, s', t)
  {
    hide Settles;
    CalmSettles(s, s', t);
  }

  lemma RemovingSettles(s: State, s': State, t: Tid)
    requires t in s.threads && RemoveStep(s, s', t)
    requires var pc := s.threads[t]; pc.OwnCounted? || pc.Removing?
    ensures Settles(s, s', t)
  {
    hide Settles;
    CalmSettles(s, s', t);
  }

  lemma RemovedSettles(s: State, s': State, t: Tid)
    requires t in s.threads && RemoveStep(s, s', t)
    requires var pc := s.threads[t]; pc.Removed? || pc.Waiting?
    ensures Settles(s, s', t)
  {
    hide Settles;
    CalmSettles(s, s', t);
  }

  lemma DeleteSettles(s: State, s': State, t: Tid)
    requires t in s.threads && DeleteStep(s, s', t)
    ensures Settles(s, s', t)
  {
    hide Settles, OwnMove, PhasesMove;
    var pc := s.threads[t];
    if pc.DeletePinned? || pc.DeleteBare? { UnlinkSettles(s, s', t); } else { DeletePinSettles(s, s', t); }
  }

  lemma DeletePinSettles(s: State, s': State, t: Tid)
    requires t in s.threads && DeleteStep(s, s', t)
    requires var pc := s.threads[t]; pc.Deleting? || pc.DeleteCounted?
    ensures Settles(s, s', t)
  {
    hide Settles;
    CalmSettles(s, s', t);
  }

  lemma UnlinkSettles(s: State, s': State, t: Tid)
    requires t in s.threads && DeleteStep(s, s', t) && (s.threads[t].DeletePinned? || s.threads[t].DeleteBare?)
    ensures Settles(s, s', t)
  {
    hide Settles;
    var pc := s.threads[t];
    if s.Changes(pc.key) == pc.seen { ExchangeSettles(s, s', t, pc.key, None); } else { CalmSettles(s, s', t); }
  }

  /** The phase of one segment or two changes, within what may become of them. */
  lemma PhaseSettles(s: State, s': State, t: Tid)
    requires t in s.threads && t in s'.threads && OwnMove(s, s', t)
    requires s'.table == s.table && s'.segs.Keys == s.segs.Keys && s'.freed == s.freed
    requires forall c | c in s.segs :: PhaseMove(s, s', t, c) && !Ends(s, s', c)
    ensures Settles(s, s', t)
  {
    hide OwnMove, PhaseMove;
  }

  ghost predicate PhasesFit(s: State, s1: State, t: Tid, pc': Pc)
    requires t in s.threads
  {
    var s' := s1.At(t, pc');
    && s'.table == s.table && s'.segs.Keys == s.segs.Keys && s'.freed == s.freed
    && forall c | c in s.segs :: PhaseMove(s, s', t, c) && !Ends(s, s', c)
  }

  lemma SealsPhases(s: State, s1: State, t: Tid, pc': Pc, d: Sid)
    requires t in s.threads && d in s.segs && s.segs[d].phase.Free? && SealsTail(s, s1, d)
    ensures PhasesFit(s, s1, t, pc')
  {
    hide NoneNames, DrainsPast;
  }

  lemma ExtendsPhases(s: State, s1: State, t: Tid, pc': Pc)
    requires t in s.threads && Extends(s, s1)
    ensures PhasesFit(s, s1, t, pc')
  {
    hide NoneNames, DrainsPast, SealsTail;
    var d :| d in s.segs && s.segs[d].phase.Free? && (s1 == s.InPhase(d, Live) || SealsTail(s, s1, d));
    if SealsTail(s, s1, d) { SealsPhases(s, s1, t, pc', d); }
  }

  lemma ExtendSettles(s: State, s1: State, t: Tid, b: Bucket, dest: Option<Sid>, job: Job)
    requires t in s.threads && s.threads[t] == Locked(b, dest, job) && job.left > 0 && Extends(s, s1)
    ensures Settles(s, s1.At(t, Locked(b, dest, Less(job))), t)
  {
    hide Settles, Extends, PhaseMove;
    ExtendsPhases(s, s1, t, Locked(b, dest, Less(job)));
    PhaseSettles(s, s1.At(t, Locked(b, dest, Less(job))), t);
  }

  lemma LockedSettles(s: State, s': State, t: Tid, b: Bucket, dest: Option<Sid>, job: Job)
    requires t in s.threads && PcOk(s, t) && s.threads[t] == Locked(b, dest, job) && LockedStep(s, s', t, b, dest, job)
    ensures Settles(s, s', t)
  {
    hide Settles, Extends, Unlocks, Claims, PcOk;
    if c :| Claims(s, s', t, b, c, dest, job) {
      ClaimSettles(s, s', t, b, c, dest, job);
    } else if dest.None? && Unlocks(s, s', t, b, job) {
      UnlockSettles(s, s', t, b, job);
    } else if dest.Some? && dest.value in s.segs && s' == s.InPhase(dest.value, Sealed).At(t, Locked(b, None, job)) {
      SealSettles(s, t, dest.value, Locked(b, None, job));
    } else {
      var s1 :| Extends(s, s1) && s' == s1.At(t, Locked(b, dest, Less(job)));
      ExtendSettles(s, s1, t, b, dest, job);
    }
  }

  lemma ClaimSettles(s: State, s': State, t: Tid, b: Bucket, c: Sid, dest: Option<Sid>, job: Job)
    requires t in s.threads && s.threads[t] == Locked(b, dest, job) && Claims(s, s', t, b, c, dest, job)
    ensures Settles(s, s', t)
  {
    hide Settles;
    PhaseSettles(s, s', t);
  }

  lemma UnlockSettles(s: State, s': State, t: Tid, b: Bucket, job: Job)
    requires t in s.threads && s.threads[t] == Locked(b, None, job) && Unlocks(s, s', t, b, job)
    ensures Settles(s, s', t)
  {
    hide Settles;
    CalmSettles(s, s', t);
  }

  /** A filled segment goes into service. */
  lemma SealSettles(s: State, t: Tid, d: Sid, pc': Pc)
    requires t in s.threads && PcOk(s, t) && s.threads[t].Target() == Some(d) && d in s.segs
    requires (s.threads[t].Locked? && pc'.Locked?)
          || (s.threads[t].Sweeping? && pc'.Sweeping? && pc'.src == s.threads[t].src)
    ensures Settles(s, s.InPhase(d, Sealed).At(t, pc'), t)
  {
    hide Settles;
    assert s.segs[d].phase.Relinking?;
    PhaseSettles(s, s.InPhase(d, Sealed).At(t, pc'), t);
  }

  /** The entries of the swept segment go, and it is recycled or condemned. */
  lemma SweptSettles(s: State, s': State, t: Tid, b: Bucket, c: Sid, dest: Option<Sid>, job: Job)
    requires t in s.threads && PcOk(s, t) && s.threads[t] == Sweeping(b, c, dest, job) && c in s.segs
    requires s' == s.Recycle(c).Sweep(c).At(t, Locked(b, dest, job))
          || s' == s.InPhase(c, Condemned).Sweep(c).At(t, Locked(b, dest, job))
    ensures Settles(s, s', t)
  {
    assert s.segs[c].phase.Draining?;
    SweptEntries(s, s', t, c);
    if s'.segs[c].phase.Free? { assert Ends(s, s', c); }
    hide NoneNames, EntryMove, State.Sweep;
  }

  lemma SweptEntries(s: State, s': State, t: Tid, c: Sid)
    requires t in s.threads && s'.table == s.Sweep(c).table
    ensures NoneNames(s', c) && forall x :: EntryMove(s, s', t, x)
  {
    forall x ensures EntryMove(s, s', t, x) {
    }
  }

  lemma SweepingSettles(s: State, s': State, t: Tid, b: Bucket, c: Sid, dest: Option<Sid>, job: Job)
    requires t in s.threads && PcOk(s, t)
    requires s.threads[t] == Sweeping(b, c, dest, job) && SweepStep(s, s', t, b, c, dest, job)
    ensures Settles(s, s', t)
  {
    hide Settles, PcOk;
    match s'.threads[t]
    case Sweeping(_, _, d, _) =>
      if dest.Some? { SealSettles(s, t, dest.value, Sweeping(b, c, None, job)); }
      else { LinkSettles(s, s', t, b, c, d.value, job); }
    case CopyWait(_, _, _, _, _) => CalmSettles(s, s', t);
    case Locked(_, _, _) => SweptSettles(s, s', t, b, c, dest, job);
  }

  lemma LinkSettles(s: State, s': State, t: Tid, b: Bucket, c: Sid, d: Sid, job: Job)
    requires t in s.threads && s.threads[t] == Sweeping(b, c, None, job) && Links(s, s', t, b, c, d, job)
    ensures Settles(s, s', t)
  {
    hide Settles;
    PhaseSettles(s, s', t);
  }

  lemma ChainSettles(s: State, s': State, t: Tid)
    requires t in s.threads && PcOk(s, t) && ChainStep(s, s', t)
    ensures Settles(s, s', t)
  {
    hide Settles, LockedStep, SweepStep, PcOk;
    match s.threads[t]
    case Locked(b, dest, job) => LockedSettles(s, s', t, b, dest, job);
    case Sweeping(b, c, dest, job) => SweepingSettles(s, s', t, b, c, dest, job);
    case Copying(_, _, _, _, _) => CopySettles(s, s', t);
    case _ => WaitSettles(s, s', t);
  }

  lemma CopySettles(s: State, s': State, t: Tid)
    requires t in s.threads && s.threads[t].Copying? && ChainStep(s, s', t)
    ensures Settles(s, s', t)
  {
    hide Settles;
    var Copying(b, c, dest, job, l) := s.threads[t];
    if x :| s.EntryOf(x).seg == Some(c) && s' == s.DropLeaf(l).Exchange(x, dest).At(t, Sweeping(b, c, dest, job)) {
      ExchangeSettles(s, s', t, x, dest);
    } else {
      CalmSettles(s, s', t);
    }
  }

  lemma WaitSettles(s: State, s': State, t: Tid)
    requires t in s.threads && ChainStep(s, s', t)
    requires var pc := s.threads[t]; !pc.Locked? && !pc.Sweeping? && !pc.Copying?
    ensures Settles(s, s', t)
  {
    hide Settles, LockedStep, SweepStep, OwnMove, PhasesMove;
    var pc := s.threads[t];
    if pc.EvictionWait? || pc.WantLock? { LockWaitSettles(s, s', t); }
    else if pc.AwaitWriters? || pc.AwaitRemovers? { DrainWaitSettles(s, s', t); }
    else { CopyWaitSettles(s, s', t); }
  }

  lemma LockWaitSettles(s: State, s': State, t: Tid)
    requires t in s.threads && ChainStep(s, s', t)
    requires var pc := s.threads[t]; pc.EvictionWait? || pc.WantLock?
    ensures Settles(s, s', t)
  {
    hide Settles, LockedStep, SweepStep;
    CalmSettles(s, s', t);
  }

  lemma DrainWaitSettles(s: State, s': State, t: Tid)
    requires t in s.threads && ChainStep(s, s', t)
    requires var pc := s.threads[t]; pc.AwaitWriters? || pc.AwaitRemovers?
    ensures Settles(s, s', t)
  {
    hide Settles, LockedStep, SweepStep;
    CalmSettles(s, s', t);
  }

  lemma CopyWaitSettles(s: State, s': State, t: Tid)
    requires t in s.threads && ChainStep(s, s', t)
    requires var pc := s.threads[t]; pc.CopyWait?
    ensures Settles(s, s', t)
  {
    hide Settles, LockedStep, SweepStep;
    CalmSettles(s, s', t);
  }

  lemma CountSettles(s: State, s': State, t: Tid)
    requires t in s.threads && CountStep(s, s', t)
    ensures Settles(s, s', t)
  {
    hide Settles;
    CalmSettles(s, s', t);
  }

  lemma StepSettles(s: State, s': State, t: Tid)
    requires Inv(s) && Step(s, s', t)
    ensures Settles(s, s', t)
  {
    assert PcOk(s, t);
    hide Inv, Settles, PcOk;
    if s.threads[t].Idle? { StartSettles(s, s', t); }
    else if ReserveStep(s, s', t) { ReserveSettles(s, s', t); }
    else if PublishStep(s, s', t) { PublishSettles(s, s', t); }
    else if CreateStep(s, s', t) { CreateSettles(s, s', t); }
    else if RemoveStep(s, s', t) { RemoveSettles(s, s', t); }
    else if DeleteStep(s, s', t) { DeleteSettles(s, s', t); }
    else if ChainStep(s, s', t) { ChainSettles(s, s', t); }
    else { CountSettles(s, s', t); }
  }

  // ----- and that is kept -----

  /** A thread that publishes into a segment is one of its writers, and drains nothing. */
  lemma PublisherWrites(s: State, t: Tid)
    requires Inv(s) && t in s.threads && Publishes(s.threads[t]).Some?
    ensures var c := Publishes(s.threads[t]).value;
      c in s.segs && s.segs[c].writers > 0 && s.threads[t].Source().None? && s.threads[t].Target().None?
  {
    PinsCounted(s, t);
    hide Inv;
    assert s.threads[t].Writes() == Publishes(s.threads[t]);
  }

  /** The segment stays open in a step of `t`, if somebody publishes into it. */
  lemma OpenKept(s: State, s': State, t: Tid, c: Sid)
    requires Inv(s) && Settles(s, s', t) && OneMoved(s, s', t) && StillOpen(s, c) && s.segs[c].writers > 0
    ensures StillOpen(s', c)
  {
    hide Inv, Settles, DrainsPast;
    OpenPhase(s, s', t, c);
    forall u | u in s'.threads && s'.segs[c].phase.Draining? ensures !DrainsPast(s'.threads[u], c) {
      OpenDrains(s, s', t, c, u);
    }
  }

  lemma OpenPhase(s: State, s': State, t: Tid, c: Sid)
    requires Settles(s, s', t) && StillOpen(s, c)
    ensures c in s'.segs && (s'.segs[c].phase.Removable() || s'.segs[c].phase.Draining?)
    ensures s'.segs[c].phase.Draining? ==> s.segs[c].phase.Draining? || s'.threads[t].AwaitWriters?
  {
    hide NoneNames, EntryMove, OwnMove;
    assert PhaseMove(s, s', t, c);
  }

  lemma OpenDrains(s: State, s': State, t: Tid, c: Sid, u: Tid)
    requires Inv(s) && Settles(s, s', t) && OneMoved(s, s', t) && StillOpen(s, c) && s.segs[c].writers > 0
    requires u in s'.threads
    ensures !DrainsPast(s'.threads[u], c)
  {
    hide Inv, PhasesMove, EntryMove, DrainsPast, OwnMove;
    NotDrainedPast(s, c, u);
    if u == t { DrainsNothingNew(s, s', t, c); }
  }

  lemma NotDrainedPast(s: State, c: Sid, u: Tid)
    requires Inv(s) && StillOpen(s, c) && u in s.threads
    ensures !DrainsPast(s.threads[u], c)
  {
    DrainedPhase(s, c);
    hide Inv, DrainsPast;
    PastDrains(s, c, u);
  }

  lemma DrainsNothingNew(s: State, s': State, t: Tid, c: Sid)
    requires t in s.threads && t in s'.threads && OwnMove(s, s', t) && !DrainsPast(s.threads[t], c)
    requires c in s.segs && s.segs[c].writers > 0
    ensures !DrainsPast(s'.threads[t], c)
  {
    hide Publishes;
  }

  lemma PastDrains(s: State, c: Sid, u: Tid)
    requires u in s.threads
    ensures DrainsPast(s.threads[u], c) ==> DrainedBy(s, c, u)
  {
  }

  lemma AnchoredKept(s: State, s': State, t: Tid, u: Tid)
    requires Firm(s) && Settles(s, s', t) && OneMoved(s, s', t) && u in s'.threads
    ensures Anchored(s', s'.threads[u])
  {
    hide Inv, EntriesStand, PhasesMove, StillOpen, EntryMove;
    var pc' := s'.threads[u];
    assert Anchored(s, s.threads[u]);
    if Publishes(pc').Some? {
      var c := Publishes(pc').value;
      if Publishes(s.threads[u]) == Some(c) {
        PublisherWrites(s, u);
        OpenKept(s, s', t, c);
      } else {
        assert u == t && OwnMove(s, s', t);
        ReservedIsOpen(s, s', t);
      }
    }
  }

  /** A reservation is kept in a live segment only. */
  lemma ReservedIsOpen(s: State, s': State, t: Tid)
    requires Settles(s, s', t) && s.threads[t].WriterCounted? && s.threads[t].op.own in s.segs
    requires s.segs[s.threads[t].op.own].phase.Live? && Publishes(s'.threads[t]).Some?
    ensures StillOpen(s', s.threads[t].op.own)
  {
    hide OwnMove, EntryMove, NoneNames;
    var c := s.threads[t].op.own;
    assert PhaseMove(s, s', t, c);
  }

  lemma EntriesKept(s: State, s': State, t: Tid)
    requires Firm(s) && Settles(s, s', t)
    ensures EntriesStand(s')
  {
    hide Inv, OwnMove;
    forall x | s'.EntryOf(x).seg.Some?
      ensures s'.EntryOf(x).seg.value in s'.segs && Standing(s'.segs[s'.EntryOf(x).seg.value].phase)
    {
      var c := s'.EntryOf(x).seg.value;
      assert EntryMove(s, s', t, x);
      NamedStands(s, s', t, x, c);
      assert PhaseMove(s, s', t, c);
    }
  }

  lemma EntryStands(s: State, x: KeyId, c: Sid)
    requires EntriesStand(s) && s.EntryOf(x).seg == Some(c)
    ensures c in s.segs && Standing(s.segs[c].phase)
  {
  }

  lemma PublishedStands(s: State, t: Tid, c: Sid)
    requires t in s.threads && Anchored(s, s.threads[t]) && Publishes(s.threads[t]) == Some(c)
    ensures c in s.segs && Standing(s.segs[c].phase)
  {
    hide Publishes;
  }

  lemma TargetStands(s: State, t: Tid, c: Sid)
    requires Inv(s) && t in s.threads && s.threads[t].Target() == Some(c)
    ensures c in s.segs && Standing(s.segs[c].phase)
  {
    assert PcOk(s, t);
  }

  lemma NamedStands(s: State, s': State, t: Tid, x: KeyId, c: Sid)
    requires Firm(s) && t in s.threads && s'.EntryOf(x).seg == Some(c) && EntryMove(s, s', t, x)
    ensures c in s.segs && Standing(s.segs[c].phase)
  {
    hide Inv, EntriesStand, Anchored, Publishes, Pc.Target, State.EntryOf, Standing;
    if s'.EntryOf(x) == s.EntryOf(x) { EntryStands(s, x, c); }
    else if Some(c) == Publishes(s.threads[t]) { PublishedStands(s, t, c); }
    else { TargetStands(s, t, c); }
  }

  lemma FirmKept(s: State, s': State, t: Tid)
    requires Firm(s) && Step(s, s', t)
    ensures Firm(s')
  {
    StepKeepsInv(s, s', t);
    StepSettles(s, s', t);
    StepOrderly(s, s', t);
    OrderlyMovesOne(s, s', t);
    hide Inv, Step, Settles, EntriesStand, Anchored, Orderly;
    EntriesKept(s, s', t);
    forall u | u in s'.threads ensures Anchored(s', s'.threads[u]) {
      AnchoredKept(s, s', t, u);
    }
  }

  lemma {:induction false} RunFirm(run: seq<State>, who: seq<Tid>, n: nat)
    requires Run(run, who) && EntriesStand(run[0]) && n < |run|
    ensures Firm(run[n])
  {
    hide Inv, Init, Step, EntriesStand, Anchored;
    if n == 0 {
      InitInv(run[0]);
      InitAnchored(run[0]);
    } else {
      RunFirm(run, who, n - 1);
      FirmKept(run[n - 1], run[n], who[n - 1]);
    }
  }

  lemma InitAnchored(s: State)
    requires Init(s)
    ensures forall t | t in s.threads :: Anchored(s, s.threads[t])
  {
  }

  // ----- Why an insert restarts -----

  /** The entry of `x` names incarnation `g` of segment `c`. */
  ghost predicate NamesLoc(s: State, x: KeyId, c: Sid, g: nat) {
    s.EntryOf(x).seg == Some(c) && c in s.segs && s.segs[c].gen == g
  }

  /** The incarnation a thread is to wait on. */
  function WaitOf(pc: Pc): Wait {
    match pc
    case GivingUp(_, wait, _) => wait
    case Unpinned(_, wait, _) => wait
    case OwnCounted(_, wait, _) => wait
    case Removing(_, wait, _) => wait
    case Removed(wait, _) => wait
    case Waiting(c, g) => WaitFor(c, g)
    case _ => if pc.WantLock? || pc.Chain().Some? then pc.job.wait else NoWait
  }

  /** Since state `k` the entry of `x` has changed, or a drain or fill of incarnation `g` of `c` was going on. */
  ghost predicate MovedOn(run: seq<State>, k: nat, j: nat, x: KeyId, c: Sid, g: nat)
    requires k <= j < |run|
  {
    run[k].Changes(x) < run[j].Changes(x) || exists m :: k <= m <= j && StillBusy(run[m], c, g)
  }

  /** Since state `i` an entry has named incarnation `g` of `c`, and things have moved on since it did. */
  ghost predicate Cause(run: seq<State>, i: nat, j: nat, c: Sid, g: nat)
    requires j < |run|
  {
    exists k, x :: i <= k <= j && NamesLoc(run[k], x, c, g) && MovedOn(run, k, j, x, c, g)
  }

  /** Since state `i` an entry has named incarnation `g` of `c`. */
  ghost predicate ReadIn(run: seq<State>, i: nat, j: nat, c: Sid, g: nat)
    requires j < |run|
  {
    exists k, x :: i <= k <= j && NamesLoc(run[k], x, c, g)
  }

  /** What a lookup of `t` reports unverifiable is a location it has read since state `i`. */
  ghost predicate ReportsWhatItRead(run: seq<State>, who: seq<Tid>, t: Tid, i: nat, j: nat)
    requires |run| == |who| + 1 && j < |run|
  {
    forall k, k' | i <= k && k' == k + 1 <= j && who[k] == t && t in run[k].threads && t in run[k'].threads ::
      Reports(run[k].threads[t], run[k'].threads[t]) ==>
        ReadIn(run, i, k, run[k'].threads[t].wait.seg, run[k'].threads[t].wait.gen)
  }

  predicate Reports(pc: Pc, pc': Pc) {
    (pc.Reserved? || pc.StripeLocked?) && pc'.GivingUp? && pc'.wait.WaitFor?
  }

  /** While its entry does not change, a location keeps naming a segment in service. */
  lemma {:induction false} NameStays(run: seq<State>, who: seq<Tid>, k: nat, j: nat, x: KeyId, c: Sid, g: nat)
    requires Run(run, who) && EntriesStand(run[0]) && k <= j < |run|
    requires NamesLoc(run[k], x, c, g)
    ensures run[k].Changes(x) <= run[j].Changes(x)
    ensures run[k].Changes(x) == run[j].Changes(x) ==> NamesLoc(run[j], x, c, g) && Standing(run[j].segs[c].phase)
    decreases j
  {
    hide Inv, Init, Step, Anchored, OwnMove;
    RunFirm(run, who, j);
    if k < j {
      NameStays(run, who, k, j - 1, x, c, g);
      var (s, s', t) := (run[j - 1], run[j], who[j - 1]);
      RunFirm(run, who, j - 1);
      StepSettles(s, s', t);
      assert EntryMove(s, s', t, x);
      if run[k].Changes(x) == s'.Changes(x) { NameStaysInStep(s, s', t, x, c, g); }
    }
  }

  lemma NameStaysInStep(s: State, s': State, t: Tid, x: KeyId, c: Sid, g: nat)
    requires EntriesStand(s) && Settles(s, s', t) && NamesLoc(s, x, c, g) && s'.EntryOf(x) == s.EntryOf(x)
    ensures NamesLoc(s', x, c, g)
  {
    hide OwnMove, EntryMove;
    assert PhaseMove(s, s', t, c);
  }

  lemma ChangesGrow(run: seq<State>, who: seq<Tid>, j: nat, x: KeyId)
    requires Run(run, who) && j + 1 < |run|
    ensures run[j].Changes(x) <= run[j + 1].Changes(x)
  {
    hide Inv, Init, Step, TableOk, OneMoved;
    StepAt(run, who, j, j + 1);
    StepMoves(run[j], run[j + 1], who[j]);
  }

  lemma CauseStays(run: seq<State>, who: seq<Tid>, i: nat, j: nat, c: Sid, g: nat)
    requires Run(run, who) && j + 1 < |run| && Cause(run, i, j, c, g)
    ensures Cause(run, i, j + 1, c, g)
  {
    hide Init, Step, NamesLoc, StillBusy;
    var k, x :| i <= k <= j && NamesLoc(run[k], x, c, g) && MovedOn(run, k, j, x, c, g);
    ChangesGrow(run, who, j, x);
    assert MovedOn(run, k, j + 1, x, c, g);
  }

  /** A location read earlier and now not to be had has changed or is being drained or filled. */
  lemma ReadThenGone(run: seq<State>, who: seq<Tid>, i: nat, k: nat, j: nat, x: KeyId, c: Sid, g: nat)
    requires Run(run, who) && EntriesStand(run[0]) && i <= k <= j < |run| && NamesLoc(run[k], x, c, g)
    requires c in run[j].segs && (!run[j].segs[c].phase.Removable() || run[j].segs[c].gen != g)
    ensures Cause(run, i, j, c, g)
  {
    hide Inv, Init, Step, EntriesStand;
    NameStays(run, who, k, j, x, c, g);
    if run[k].Changes(x) == run[j].Changes(x) { assert StillBusy(run[j], c, g); }
    assert MovedOn(run, k, j, x, c, g);
  }

  /** How a thread comes to wait, or to be refused. */
  ghost predicate Waits(s: State, pc: Pc, pc': Pc) {
    && (WaitOf(pc').WaitFor? ==>
          var w := WaitOf(pc');
          || WaitOf(pc) == w
          || (pc.Refused? && !pc.op.cas && w == WaitFor(pc.op.other, pc.op.gen))
          || (Reports(pc, pc') && pc'.wait == w && Unverifiable(s, w.seg, w.gen)))
    && (pc'.Refused? ==>
          pc == RemoverCounted(pc'.op) && pc'.op.other in s.segs && !s.segs[pc'.op.other].phase.Removable())
    && (pc'.RemoverCounted? && !pc'.op.cas ==> NamesLoc(s, pc'.op.key, pc'.op.other, pc'.op.gen))
  }

  /** A step after which nothing is waited for, and no pin has been refused or counted. */
  lemma NothingWaits(s: State, pc: Pc, pc': Pc)
    requires WaitOf(pc').NoWait? && !pc'.Refused? && !pc'.RemoverCounted?
    ensures Waits(s, pc, pc')
  {
  }

  /** A wait is passed on. */
  lemma PassedWait(s: State, pc: Pc, pc': Pc)
    requires WaitOf(pc') == WaitOf(pc) && !pc'.Refused? && !pc'.RemoverCounted?
    ensures Waits(s, pc, pc')
  {
  }

  lemma StartWaits(s: State, s': State, t: Tid)
    requires t in s.threads && s.threads[t].Idle? && Start(s, s', t)
    ensures t in s'.threads && Waits(s, s.threads[t], s'.threads[t])
  {
    hide Waits;
    NothingWaits(s, s.threads[t], s'.threads[t]);
  }

  lemma ReserveWaits(s: State, s': State, t: Tid)
    requires t in s.threads && ReserveStep(s, s', t)
    ensures t in s'.threads && Waits(s, s.threads[t], s'.threads[t])
  {
    hide LookupStep, Waits, WaitOf;
    var pc := s.threads[t];
    if pc.Reserved? && !pc.op.cas { LookupWaits(s, s', t, pc.op); }
    else if pc.Examined? || pc.WriterCounted? { ReservingWaits(s, s', t); }
    else if pc.Refused? { RefusedWaits(s, s', t); }
    else { CountedWaits(s, s', t); }
  }

  lemma ReservingWaits(s: State, s': State, t: Tid)
    requires t in s.threads && ReserveStep(s, s', t) && (s.threads[t].Examined? || s.threads[t].WriterCounted?)
    ensures t in s'.threads && Waits(s, s.threads[t], s'.threads[t])
  {
    hide LookupStep, Waits;
    NothingWaits(s, s.threads[t], s'.threads[t]);
  }

  lemma LookupWaits(s: State, s': State, t: Tid, op: Op)
    requires t in s.threads && s.threads[t] == Reserved(op) && LookupStep(s, s', t, op)
    ensures t in s'.threads && Waits(s, s.threads[t], s'.threads[t])
  {
  }

  lemma RefusedWaits(s: State, s': State, t: Tid)
    requires t in s.threads && ReserveStep(s, s', t) && s.threads[t].Refused?
    ensures t in s'.threads && Waits(s, s.threads[t], s'.threads[t])
  {
    hide LookupStep;
  }

  lemma CountedWaits(s: State, s': State, t: Tid)
    requires t in s.threads && ReserveStep(s, s', t)
    requires (s.threads[t].Reserved? && s.threads[t].op.cas) || s.threads[t].RemoverCounted?
    ensures t in s'.threads && Waits(s, s.threads[t], s'.threads[t])
  {
    hide LookupStep, NamesLoc;
  }

  lemma PublishWaits(s: State, s': State, t: Tid)
    requires t in s.threads && PublishStep(s, s', t)
    ensures t in s'.threads && Waits(s, s.threads[t], s'.threads[t])
  {
    hide Waits, WaitOf, TryPublish;
    var pc := s.threads[t];
    if pc.BothPinned? || pc.ItemWait? || pc.ItemLocked? { CompareWaits(s, s', t); } else { UnpublishedWaits(s, s', t); }
  }

  lemma CompareWaits(s: State, s': State, t: Tid)
    requires t in s.threads && PublishStep(s, s', t)
    requires s.threads[t].BothPinned? || s.threads[t].ItemWait? || s.threads[t].ItemLocked?
    ensures t in s'.threads && Waits(s, s.threads[t], s'.threads[t])
  {
    hide Waits;
    NothingWaits(s, s.threads[t], s'.threads[t]);
  }

  lemma UnpublishedWaits(s: State, s': State, t: Tid)
    requires t in s.threads && PublishStep(s, s', t)
    requires s.threads[t].Published? || s.threads[t].Lost? || s.threads[t].Mismatched?
    ensures t in s'.threads && Waits(s, s.threads[t], s'.threads[t])
  {
    hide Waits, TryPublish;
    NothingWaits(s, s.threads[t], s'.threads[t]);
  }

  lemma CreateWaits(s: State, s': State, t: Tid)
    requires t in s.threads && CreateStep(s, s', t)
    ensures t in s'.threads && Waits(s, s.threads[t], s'.threads[t])
  {
    hide Replaceable, Unverifiable, Waits, WaitOf;
    if s.threads[t].StripeLocked? { StripeWaits(s, s', t); } else { AroundStripeWaits(s, s', t); }
  }

  lemma StripeWaits(s: State, s': State, t: Tid)
    requires t in s.threads && CreateStep(s, s', t) && s.threads[t].StripeLocked?
    ensures t in s'.threads && Waits(s, s.threads[t], s'.threads[t])
  {
    hide Replaceable, Unverifiable;
  }

  lemma AroundStripeWaits(s: State, s': State, t: Tid)
    requires t in s.threads && CreateStep(s, s', t) && (s.threads[t].StripeWait? || s.threads[t].Created?)
    ensures t in s'.threads && Waits(s, s.threads[t], s'.threads[t])
  {
    hide Replaceable, Unverifiable, Waits;
    NothingWaits(s, s.threads[t], s'.threads[t]);
  }

  lemma RemoveWaits(s: State, s': State, t: Tid)
    requires t in s.threads && RemoveStep(s, s', t)
    ensures t in s'.threads && Waits(s, s.threads[t], s'.threads[t])
  {
    hide Waits, WaitOf;
    var pc := s.threads[t];
    if pc.GivingUp? || pc.Unpinned? || pc.OwnCounted? { RollbackWaits(s, s', t); } else { RemovedWaits(s, s', t); }
  }

  lemma RollbackWaits(s: State, s': State, t: Tid)
    requires t in s.threads && RemoveStep(s, s', t)
    requires s.threads[t].GivingUp? || s.threads[t].Unpinned? || s.threads[t].OwnCounted?
    ensures t in s'.threads && Waits(s, s.threads[t], s'.threads[t])
  {
    hide Waits;
    PassedWait(s, s.threads[t], s'.threads[t]);
  }

  lemma RemovedWaits(s: State, s': State, t: Tid)
    requires t in s.threads && RemoveStep(s, s', t)
    requires s.threads[t].Removing? || s.threads[t].Removed? || s.threads[t].Waiting?
    ensures t in s'.threads && Waits(s, s.threads[t], s'.threads[t])
  {
    hide Waits;
    if s.threads[t].Waiting? { NothingWaits(s, s.threads[t], s'.threads[t]); }
    else { PassedWait(s, s.threads[t], s'.threads[t]); }
  }

  lemma DeleteWaits(s: State, s': State, t: Tid)
    requires t in s.threads && DeleteStep(s, s', t)
    ensures t in s'.threads && Waits(s, s.threads[t], s'.threads[t])
  {
    hide Waits;
    NothingWaits(s, s.threads[t], s'.threads[t]);
  }

  lemma LockedWaits(s: State, s': State, t: Tid, b: Bucket, dest: Option<Sid>, job: Job)
    requires t in s.threads && s.threads[t] == Locked(b, dest, job) && LockedStep(s, s', t, b, dest, job)
    ensures t in s'.threads && Waits(s, s.threads[t], s'.threads[t])
  {
    hide Extends, Waits, State.InPhase, Unlocks;
    if dest.None? && Unlocks(s, s', t, b, job) { UnlockWaits(s, s', t, b, job); }
    else { JobWaits(s, Locked(b, dest, job), s'.threads[t], job.wait); }
  }

  lemma UnlockWaits(s: State, s': State, t: Tid, b: Bucket, job: Job)
    requires t in s.threads && s.threads[t] == Locked(b, None, job) && Unlocks(s, s', t, b, job)
    ensures t in s'.threads && Waits(s, s.threads[t], s'.threads[t])
  {
    hide Waits;
    JobWaits(s, Locked(b, None, job), s'.threads[t], job.wait);
  }

  lemma SweepWaits(s: State, s': State, t: Tid, b: Bucket, c: Sid, dest: Option<Sid>, job: Job)
    requires t in s.threads && s.threads[t] == Sweeping(b, c, dest, job) && SweepStep(s, s', t, b, c, dest, job)
    ensures t in s'.threads && Waits(s, s.threads[t], s'.threads[t])
  {
    hide Waits;
    JobWaits(s, Sweeping(b, c, dest, job), s'.threads[t], job.wait);
  }

  /** Chain work carries its wait along, and ends with it. */
  lemma JobWaits(s: State, pc: Pc, pc': Pc, wait: Wait)
    requires WaitOf(pc) == wait
    requires ((pc'.WantLock? || pc'.Chain().Some?) && pc'.job.wait == wait) || pc' == After(wait)
    ensures Waits(s, pc, pc')
  {
  }

  lemma ChainWaits(s: State, s': State, t: Tid)
    requires t in s.threads && ChainStep(s, s', t)
    ensures t in s'.threads && Waits(s, s.threads[t], s'.threads[t])
  {
    hide LockedStep, SweepStep, Waits, WaitOf;
    var pc := s.threads[t];
    if pc.Locked? { LockedWaits(s, s', t, pc.bucket, pc.dest, pc.job); }
    else if pc.Sweeping? { SweepWaits(s, s', t, pc.bucket, pc.src, pc.dest, pc.job); }
    else if pc.EvictionWait? || pc.WantLock? { LockWaits(s, s', t); }
    else { DrainWaits(s, s', t); }
  }

  lemma LockWaits(s: State, s': State, t: Tid)
    requires t in s.threads && ChainStep(s, s', t) && (s.threads[t].EvictionWait? || s.threads[t].WantLock?)
    ensures t in s'.threads && Waits(s, s.threads[t], s'.threads[t])
  {
    hide LockedStep, SweepStep, Waits;
    PassedWait(s, s.threads[t], s'.threads[t]);
  }

  lemma DrainWaits(s: State, s': State, t: Tid)
    requires t in s.threads && ChainStep(s, s', t) && PastLock(s.threads[t])
    ensures t in s'.threads && Waits(s, s.threads[t], s'.threads[t])
  {
    hide ChainStep, Waits;
    var pc := s.threads[t];
    if pc.AwaitWriters? || pc.AwaitRemovers? { PinsGoneWaits(s, s', t); } else { CopyWaits(s, s', t); }
  }

  lemma PinsGoneWaits(s: State, s': State, t: Tid)
    requires t in s.threads && ChainStep(s, s', t) && (s.threads[t].AwaitWriters? || s.threads[t].AwaitRemovers?)
    ensures t in s'.threads && Waits(s, s.threads[t], s'.threads[t])
  {
    hide LockedStep, SweepStep, Waits;
    PassedWait(s, s.threads[t], s'.threads[t]);
  }

  lemma CopyWaits(s: State, s': State, t: Tid)
    requires t in s.threads && ChainStep(s, s', t) && (s.threads[t].CopyWait? || s.threads[t].Copying?)
    ensures t in s'.threads && Waits(s, s.threads[t], s'.threads[t])
  {
    hide LockedStep, SweepStep, Waits;
    PassedWait(s, s.threads[t], s'.threads[t]);
  }

  predicate PastLock(pc: Pc) { pc.AwaitWriters? || pc.AwaitRemovers? || pc.CopyWait? || pc.Copying? }

  lemma StepWaits(s: State, s': State, t: Tid)
    requires Step(s, s', t)
    ensures t in s.threads && t in s'.threads && Waits(s, s.threads[t], s'.threads[t])
  {
    hide Waits;
    if s.threads[t].Idle? { StartWaits(s, s', t); }
    else if ReserveStep(s, s', t) { ReserveWaits(s, s', t); }
    else if PublishStep(s, s', t) { PublishWaits(s, s', t); }
    else if CreateStep(s, s', t) { CreateWaits(s, s', t); }
    else if RemoveStep(s, s', t) { RemoveWaits(s, s', t); }
    else if DeleteStep(s, s', t) { DeleteWaits(s, s', t); }
    else if ChainStep(s, s', t) { ChainWaits(s, s', t); }
    else { CountWaits(s, s', t); }
  }

  lemma CountWaits(s: State, s': State, t: Tid)
    requires t in s.threads && CountStep(s, s', t)
    ensures t in s'.threads && Waits(s, s.threads[t], s'.threads[t])
  {
  }

  /** What an attempt that began in state `i` has behind it when it waits, is refused, or is about to be. */
  ghost predicate Explained(run: seq<State>, i: nat, j: nat, pc: Pc)
    requires j < |run|
  {
    && (WaitOf(pc).WaitFor? ==> Cause(run, i, j, WaitOf(pc).seg, WaitOf(pc).gen))
    && (pc.Refused? && !pc.op.cas ==> Cause(run, i, j, pc.op.other, pc.op.gen))
    && (pc.RemoverCounted? && !pc.op.cas ==> ReadIn(run, i, j, pc.op.other, pc.op.gen))
  }

  lemma ExplainedStays(run: seq<State>, who: seq<Tid>, i: nat, j: nat, pc: Pc)
    requires Run(run, who) && j + 1 < |run| && Explained(run, i, j, pc)
    ensures Explained(run, i, j + 1, pc)
  {
    hide Init, Step, Cause, NamesLoc;
    if WaitOf(pc).WaitFor? { CauseStays(run, who, i, j, WaitOf(pc).seg, WaitOf(pc).gen); }
    if pc.Refused? && !pc.op.cas { CauseStays(run, who, i, j, pc.op.other, pc.op.gen); }
  }

  lemma ExplainedStep(run: seq<State>, who: seq<Tid>, t: Tid, i: nat, j: nat)
    requires Run(run, who) && EntriesStand(run[0]) && i <= j && j + 1 < |run| && who[j] == t
    requires t in run[j].threads && Explained(run, i, j, run[j].threads[t])
    requires ReportsWhatItRead(run, who, t, i, j + 1)
    ensures t in run[j + 1].threads && Explained(run, i, j + 1, run[j + 1].threads[t])
  {
    hide Init, Step, Cause, EntriesStand, NamesLoc;
    StepWaits(run[j], run[j + 1], t);
    var (pc, pc') := (run[j].threads[t], run[j + 1].threads[t]);
    ExplainedStays(run, who, i, j, pc);
    if Reports(pc, pc') {
      var w := pc'.wait;
      var k, x :| i <= k <= j && NamesLoc(run[k], x, w.seg, w.gen);
      ReadThenGone(run, who, i, k, j, x, w.seg, w.gen);
      CauseStays(run, who, i, j, w.seg, w.gen);
    }
    if pc'.Refused? && !pc'.op.cas {
      var k, x :| i <= k <= j && NamesLoc(run[k], x, pc.op.other, pc.op.gen);
      ReadThenGone(run, who, i, k, j, x, pc.op.other, pc.op.gen);
      CauseStays(run, who, i, j, pc.op.other, pc.op.gen);
    }
    if pc'.RemoverCounted? && !pc'.op.cas { assert ReadIn(run, i, j + 1, pc'.op.other, pc'.op.gen); }
  }

  lemma {:induction false} AttemptIsExplained(run: seq<State>, who: seq<Tid>, t: Tid, i: nat, j: nat)
    requires Run(run, who) && EntriesStand(run[0]) && i <= j < |run| && t in run[i].threads && run[i].threads[t].Idle?
    requires ReportsWhatItRead(run, who, t, i, j)
    ensures t in run[j].threads && Explained(run, i, j, run[j].threads[t])
    decreases j
  {
    hide Inv, Init, Step, Explained, EntriesStand;
    if i == j {
      IdleIsExplained(run, i, run[i].threads[t]);
    } else {
      assert ReportsWhatItRead(run, who, t, i, j - 1);
      AttemptIsExplained(run, who, t, i, j - 1);
      StepAt(run, who, j - 1, j);
      if who[j - 1] == t { ExplainedStep(run, who, t, i, j - 1); }
      else { ExplainedStays(run, who, i, j - 1, run[j].threads[t]); }
    }
  }

  lemma IdleIsExplained(run: seq<State>, i: nat, pc: Pc)
    requires i < |run| && pc.Idle?
    ensures Explained(run, i, i, pc)
  {
  }

  /**
   * When the wait of an insert ends and it restarts, the location it waited on
   * was named by an entry after the attempt began in state `i`, and since then
   * that entry has changed, or a drain or fill of that incarnation was going on
   * and has ended.
   */
  lemma RestartsAreCaused(run: seq<State>, who: seq<Tid>, t: Tid, i: nat, j: nat)
    requires Run(run, who) && EntriesStand(run[0]) && i <= j && j + 1 < |run|
    requires t in run[i].threads && run[i].threads[t].Idle? && ReportsWhatItRead(run, who, t, i, j)
    requires t in run[j].threads && run[j].threads[t].Waiting? && who[j] == t
    ensures var (c, g) := (run[j].threads[t].seg, run[j].threads[t].gen);
      Cause(run, i, j, c, g) && !StillBusy(run[j], c, g)
  {
    hide Init, Cause, EntriesStand;
    AttemptIsExplained(run, who, t, i, j);
    assert Step(run[j], run[j + 1], t);
  }
}
