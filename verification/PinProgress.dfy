/**
 * How much an attempt may still do: every step of an attempt, whichever it takes,
 * lowers its budget.
 */
module PinProgress {
  import opened Wrappers
  import opened PinProtocol
  import opened PinOwnership

  // ----- How much an attempt may still do -----

  /** How many more steps the attempt takes if nobody changes its entry. */
  function Rank(pc: Pc): nat {
    match pc
    case Idle => 0
    case Examined(op) => 8 * op.left + 12 * op.n + 18
    case WriterCounted(op) => 8 * op.left + 12 * op.n + 17
    case Reserved(op) => 8 * op.left + 12 * op.n + 16
    case RemoverCounted(op) => 8 * op.left + 12 * op.n + 15
    case Refused(op) => 8 * op.left + 12 * op.n + 14
    case BothPinned(op) => 8 * op.left + 12 * op.n + 14
    case ItemWait(op, _) => 8 * op.left + 12 * op.n + 13
    case ItemLocked(op, _) => 8 * op.left + 12 * op.n + 12
    case Lost(op) => 8 * op.left + 12 * op.n + 11
    case StripeWait(op, _) => 8 * op.left + 11
    case StripeLocked(op, _) => 8 * op.left + 10
    case Mismatched(op) => 8 * op.left + 10
    case Created(op, _) => 8 * op.left + 9
    case Published(op) => 8 * op.left + 7
    case GivingUp(_, _, left) => 8 * left + 9
    case Unpinned(_, _, left) => 8 * left + 8
    case OwnCounted(_, _, left) => 8 * left + 7
    case Removing(_, _, left) => 8 * left + 6
    case Removed(_, left) => 8 * left + 5
    case Waiting(_, _) => 1
    case Deleting(_, _, _, left) => 8 * left + 9
    case DeleteCounted(_, _, _, left) => 8 * left + 8
    case DeletePinned(_, _, _, left) => 8 * left + 7
    case DeleteBare(_, _) => 1
    case EvictionWait(_, _) => 1
    case WantLock(_, job) => 8 * job.left + 4
    case Locked(_, dest, job) => 8 * job.left + if dest.Some? then 3 else 2
    case AwaitWriters(_, _, _, job) => 8 * job.left + 7
    case AwaitRemovers(_, _, _, job) => 8 * job.left + 6
    case Sweeping(_, _, dest, job) => 8 * job.left + if dest.Some? then 5 else 4
    case CopyWait(_, _, _, job, _) => 8 * job.left + 7
    case Copying(_, _, _, job, _) => 8 * job.left + 6
    case CountWait(_) => 2
    case Counting(_) => 1
  }

  /** How many more exchanges and sweeps of the table the attempt may make. */
  function Power(pc: Pc): nat {
    match pc
    case Examined(op) => op.left + 1
    case Published(op) => op.left
    case Created(op, _) => op.left
    case GivingUp(_, _, left) => left
    case Unpinned(_, _, left) => left
    case OwnCounted(_, _, left) => left
    case Removing(_, _, left) => left
    case Removed(_, left) => left
    case Deleting(_, _, _, left) => left + 1
    case DeleteCounted(_, _, _, left) => left + 1
    case DeletePinned(_, _, _, left) => left + 1
    case DeleteBare(_, _) => 1
    case WantLock(_, job) => job.left
    case Locked(_, _, job) => job.left
    case AwaitWriters(_, _, _, job) => job.left + 1
    case AwaitRemovers(_, _, _, job) => job.left + 1
    case Sweeping(_, _, _, job) => job.left + 1
    case CopyWait(_, _, _, job, _) => job.left + 2
    case Copying(_, _, _, job, _) => job.left + 2
    case _ => if pc.Doing().Some? then pc.Doing().value.left + 1 else 0
  }

  /** The rank, and what the changes of the entry since the thread looked may cost. */
  ghost function Budget(s: State, pc: Pc): nat
    requires SeenOk(s, pc)
  {
    Rank(pc) + if Looking(pc).Some? then 8 * (s.Changes(Looking(pc).value.key) - Looking(pc).value.seen) else 0
  }

  /** The table changes by at most one exchange or sweep. */
  ghost predicate TableMoves(s: State, s': State) {
    && (forall x :: s.Changes(x) <= s'.Changes(x) <= s.Changes(x) + 1)
    && (TableOk(s) ==> TableOk(s'))
  }

  lemma ExchangeMoves(s: State, s': State, x: KeyId, seg: Option<Sid>)
    requires Known(s, seg) && s'.segs.Keys == s.segs.Keys && s'.table == s.Exchange(x, seg).table
    ensures TableMoves(s, s')
  {
  }

  lemma SweepMoves(s: State, s': State, c: Sid)
    requires s'.segs.Keys == s.segs.Keys && s'.table == s.Sweep(c).table
    ensures TableMoves(s, s')
  {
  }

  /** The thread minds the same entry as before, as it last looked it up or as it is now; or minds none any more. */
  ghost predicate Watches(s: State, pc: Pc, pc': Pc) {
    var (was, now) := (Looking(pc), Looking(pc'));
    now.Some? ==>
      && was.Some? && now.value.key == was.value.key
      && (now.value.seen == was.value.seen || now.value.seen == s.Changes(now.value.key))
  }

  /** A step of an attempt lowers its budget, and each change of the table its power. */
  ghost predicate Pays(s: State, s': State, t: Tid) {
    && t in s.threads && t in s'.threads && TableMoves(s, s')
    && var (pc, pc') := (s.threads[t], s'.threads[t]);
       && SeenOk(s, pc) && SeenOk(s', pc') && Budget(s', pc') < Budget(s, pc)
       && Watches(s, pc, pc') && (Looking(pc').Some? ==> s'.table == s.table)
       && Power(pc') + (if s'.table == s.table then 0 else 1) <= Power(pc)
  }

  /** The step lowers budget and power by itself, as seen before it. */
  ghost predicate Falls(s: State, pc: Pc, pc': Pc, cost: nat) {
    SeenOk(s, pc) && SeenOk(s, pc') && Budget(s, pc') < Budget(s, pc)
    && Watches(s, pc, pc') && Power(pc') + cost <= Power(pc)
  }

  lemma QuietPays(s: State, s': State, t: Tid)
    requires t in s.threads && t in s'.threads && s'.table == s.table && s'.segs.Keys == s.segs.Keys
    requires s.started == s'.started
    requires Falls(s, s.threads[t], s'.threads[t], 0)
    ensures Pays(s, s', t)
  {
    hide Rank, Power, Looking;
  }

  /** A thread that is not looking does not mind a change of the table. */
  lemma ChangePays(s: State, s': State, t: Tid)
    requires t in s.threads && t in s'.threads && TableMoves(s, s') && s.started == s'.started
    requires Falls(s, s.threads[t], s'.threads[t], 1) && Looking(s'.threads[t]).None? && s'.threads[t].Lost? == false
    ensures Pays(s, s', t)
  {
    hide Rank, Power, TableMoves, Looking;
    assert forall x :: s.Changes(x) <= s'.Changes(x) by { TableGrown(s, s'); }
    SeenStays(s, s', s'.threads[t]);
  }

  lemma TableGrown(s: State, s': State)
    requires TableMoves(s, s')
    ensures forall x :: s.Changes(x) <= s'.Changes(x)
  {
  }

  lemma LookupPays(s: State, s': State, t: Tid, op: Op)
    requires t in s.threads && SeenOk(s, s.threads[t]) && s.threads[t] == Reserved(op) && LookupStep(s, s', t, op)
    ensures Pays(s, s', t)
  {
    hide Pays;
    QuietPays(s, s', t);
  }

  lemma ReservePays(s: State, s': State, t: Tid)
    requires t in s.threads && SeenOk(s, s.threads[t]) && ReserveStep(s, s', t)
    ensures Pays(s, s', t)
  {
    hide LookupStep, Pays, Falls;
    match s.threads[t]
    case Examined(_) => ExaminedPays(s, s', t);
    case WriterCounted(_) => WriterCountedPays(s, s', t);
    case Reserved(op) => if op.cas { ReservedPays(s, s', t); } else { LookupPays(s, s', t, op); }
    case RemoverCounted(_) => ReservedPays(s, s', t);
    case Refused(op) => if op.cas { RefusedCasPays(s, s', t, op); } else { RefusedPays(s, s', t, op); }
  }

  lemma ReservedPays(s: State, s': State, t: Tid)
    requires t in s.threads && SeenOk(s, s.threads[t]) && ReserveStep(s, s', t)
    requires (s.threads[t].Reserved? && s.threads[t].op.cas) || s.threads[t].RemoverCounted?
    ensures Pays(s, s', t)
  {
    hide LookupStep, Pays;
    QuietPays(s, s', t);
  }

  lemma ExaminedPays(s: State, s': State, t: Tid)
    requires t in s.threads && SeenOk(s, s.threads[t]) && ReserveStep(s, s', t) && s.threads[t].Examined?
    ensures Pays(s, s', t)
  {
    hide LookupStep, Pays;
    QuietPays(s, s', t);
  }

  lemma WriterCountedPays(s: State, s': State, t: Tid)
    requires t in s.threads && SeenOk(s, s.threads[t]) && ReserveStep(s, s', t) && s.threads[t].WriterCounted?
    ensures Pays(s, s', t)
  {
    hide LookupStep, Pays;
    QuietPays(s, s', t);
  }

  lemma RefusedPays(s: State, s': State, t: Tid, op: Op)
    requires t in s.threads && SeenOk(s, s.threads[t]) && ReserveStep(s, s', t)
    requires s.threads[t] == Refused(op) && !op.cas
    ensures Pays(s, s', t)
  {
    hide LookupStep, Pays;
    QuietPays(s, s', t);
  }

  lemma RefusedCasPays(s: State, s': State, t: Tid, op: Op)
    requires t in s.threads && SeenOk(s, s.threads[t]) && ReserveStep(s, s', t)
    requires s.threads[t] == Refused(op) && op.cas
    ensures Pays(s, s', t)
  {
    hide LookupStep, Pays;
    QuietPays(s, s', t);
  }

  lemma TryPublishPays(s: State, s': State, t: Tid, op: Op)
    requires t in s.threads && SeenOk(s, s.threads[t]) && op.own in s.segs
    requires || (s.threads[t] == BothPinned(op) && TryPublish(s, s', t, op))
             || (exists l :: s.threads[t] == ItemLocked(op, l) && TryPublish(s.DropLeaf(l), s', t, op))
    ensures Pays(s, s', t)
  {
    hide Pays;
    if s'.threads[t].Published? {
      ExchangeMoves(s, s', op.key, Some(op.own));
      ChangePays(s, s', t);
    } else {
      QuietPays(s, s', t);
    }
  }

  lemma PublishPays(s: State, s': State, t: Tid)
    requires t in s.threads && PcOk(s, t) && SeenOk(s, s.threads[t]) && PublishStep(s, s', t)
    ensures Pays(s, s', t)
  {
    hide TryPublish, Pays, SeenOk, Budget, Power;
    var pc := s.threads[t];
    assert Known(s, Holds(pc).writes);
    if pc.BothPinned? && TryPublish(s, s', t, pc.op) {
      TryPublishPays(s, s', t, pc.op);
    } else if pc.ItemLocked? && TryPublish(s.DropLeaf(pc.leaf), s', t, pc.op) {
      TryPublishPays(s, s', t, pc.op);
    } else {
      PublishQuiet(s, s', t);
    }
  }

  lemma PublishQuiet(s: State, s': State, t: Tid)
    requires t in s.threads && SeenOk(s, s.threads[t]) && PublishStep(s, s', t)
    requires var pc := s.threads[t];
      && (pc.BothPinned? ==> !TryPublish(s, s', t, pc.op))
      && (pc.ItemLocked? ==> !TryPublish(s.DropLeaf(pc.leaf), s', t, pc.op))
    ensures Pays(s, s', t)
  {
    hide TryPublish, Pays, SeenOk, Falls;
    var pc := s.threads[t];
    if pc.BothPinned? || pc.ItemWait? || pc.ItemLocked? { ComparePays(s, s', t); } else { UnpublishedPays(s, s', t); }
  }

  lemma ComparePays(s: State, s': State, t: Tid)
    requires t in s.threads && SeenOk(s, s.threads[t]) && PublishStep(s, s', t)
    requires var pc := s.threads[t];
      || (pc.BothPinned? && !TryPublish(s, s', t, pc.op))
      || (pc.ItemLocked? && !TryPublish(s.DropLeaf(pc.leaf), s', t, pc.op))
      || pc.ItemWait?
    ensures Pays(s, s', t)
  {
    hide TryPublish, Pays;
    QuietPays(s, s', t);
  }

  lemma UnpublishedPays(s: State, s': State, t: Tid)
    requires t in s.threads && SeenOk(s, s.threads[t]) && PublishStep(s, s', t)
    requires s.threads[t].Published? || s.threads[t].Lost? || s.threads[t].Mismatched?
    ensures Pays(s, s', t)
  {
    hide TryPublish, Pays;
    QuietPays(s, s', t);
  }

  lemma CreatePays(s: State, s': State, t: Tid)
    requires t in s.threads && PcOk(s, t) && SeenOk(s, s.threads[t]) && CreateStep(s, s', t)
    ensures Pays(s, s', t)
  {
    hide Pays, Unverifiable, SeenOk, Falls, Replaceable;
    var pc := s.threads[t];
    if pc.StripeLocked? { StripePays(s, s', t, pc.op, pc.leaf); } else { AroundStripePays(s, s', t); }
  }

  lemma StripePays(s: State, s': State, t: Tid, op: Op, l: Leaf)
    requires t in s.threads && PcOk(s, t) && SeenOk(s, s.threads[t]) && s.threads[t] == StripeLocked(op, l)
    requires CreateStep(s, s', t)
    ensures Pays(s, s', t)
  {
    hide Pays, Unverifiable, SeenOk, Falls, Replaceable;
    if s'.threads[t].Created? { CreatedPays(s, s', t, op, l); } else { StripeGivenUpPays(s, s', t, op, l); }
  }

  lemma CreatedPays(s: State, s': State, t: Tid, op: Op, l: Leaf)
    requires t in s.threads && PcOk(s, t) && SeenOk(s, s.threads[t]) && s.threads[t] == StripeLocked(op, l)
    requires s' == s.DropLeaf(l).Exchange(op.key, Some(op.own)).At(t, Created(op, s.EntryOf(op.key).seg))
    ensures Pays(s, s', t)
  {
    hide Pays;
    assert Known(s, Holds(s.threads[t]).writes);
    ExchangeMoves(s, s', op.key, Some(op.own));
    ChangePays(s, s', t);
  }

  lemma StripeGivenUpPays(s: State, s': State, t: Tid, op: Op, l: Leaf)
    requires t in s.threads && SeenOk(s, s.threads[t]) && s.threads[t] == StripeLocked(op, l)
    requires exists wait :: s' == s.DropLeaf(l).At(t, GivingUp(op.own, wait, op.left))
    ensures Pays(s, s', t)
  {
    hide Pays;
    QuietPays(s, s', t);
  }

  lemma AroundStripePays(s: State, s': State, t: Tid)
    requires t in s.threads && SeenOk(s, s.threads[t]) && (s.threads[t].StripeWait? || s.threads[t].Created?)
    requires CreateStep(s, s', t)
    ensures Pays(s, s', t)
  {
    hide Pays;
    QuietPays(s, s', t);
  }

  lemma RemovePays(s: State, s': State, t: Tid)
    requires t in s.threads && SeenOk(s, s.threads[t]) && RemoveStep(s, s', t)
    ensures Pays(s, s', t)
  {
    hide Pays, SeenOk, Falls;
    var pc := s.threads[t];
    if pc.GivingUp? || pc.Unpinned? { RollbackPays(s, s', t); }
    else if pc.OwnCounted? || pc.Removing? { RemovingPays(s, s', t); }
    else { RemovedPays(s, s', t); }
  }

  lemma RollbackPays(s: State, s': State, t: Tid)
    requires t in s.threads && SeenOk(s, s.threads[t]) && (s.threads[t].GivingUp? || s.threads[t].Unpinned?)
    requires RemoveStep(s, s', t)
    ensures Pays(s, s', t)
  {
    hide Pays;
    QuietPays(s, s', t);
  }

  lemma RemovingPays(s: State, s': State, t: Tid)
    requires t in s.threads && SeenOk(s, s.threads[t]) && (s.threads[t].OwnCounted? || s.threads[t].Removing?)
    requires RemoveStep(s, s', t)
    ensures Pays(s, s', t)
  {
    hide Pays;
    QuietPays(s, s', t);
  }

  lemma RemovedPays(s: State, s': State, t: Tid)
    requires t in s.threads && SeenOk(s, s.threads[t]) && (s.threads[t].Removed? || s.threads[t].Waiting?)
    requires RemoveStep(s, s', t)
    ensures Pays(s, s', t)
  {
    hide Pays;
    QuietPays(s, s', t);
  }

  lemma DeletePays(s: State, s': State, t: Tid)
    requires t in s.threads && SeenOk(s, s.threads[t]) && DeleteStep(s, s', t)
    ensures Pays(s, s', t)
  {
    hide Pays, SeenOk, Falls;
    var pc := s.threads[t];
    if pc.DeletePinned? || pc.DeleteBare? { UnlinkPays(s, s', t); }
    else if pc.Deleting? { DeletingPays(s, s', t); }
    else { DeletePinPays(s, s', t); }
  }

  lemma DeletingPays(s: State, s': State, t: Tid)
    requires t in s.threads && SeenOk(s, s.threads[t])
    requires s.threads[t].Deleting? && DeleteStep(s, s', t)
    ensures Pays(s, s', t)
  {
    hide Pays;
    QuietPays(s, s', t);
  }

  lemma DeletePinPays(s: State, s': State, t: Tid)
    requires t in s.threads && SeenOk(s, s.threads[t])
    requires s.threads[t].DeleteCounted? && DeleteStep(s, s', t)
    ensures Pays(s, s', t)
  {
    hide Pays;
    QuietPays(s, s', t);
  }

  lemma UnlinkPays(s: State, s': State, t: Tid)
    requires t in s.threads && SeenOk(s, s.threads[t])
    requires (s.threads[t].DeletePinned? || s.threads[t].DeleteBare?) && DeleteStep(s, s', t)
    ensures Pays(s, s', t)
  {
    hide Pays;
    var pc := s.threads[t];
    if s.Changes(pc.key) == pc.seen {
      ExchangeMoves(s, s', pc.key, None);
      ChangePays(s, s', t);
    } else {
      QuietPays(s, s', t);
    }
  }

  lemma SweepPays(s: State, s': State, t: Tid, b: Bucket, c: Sid, dest: Option<Sid>, job: Job)
    requires t in s.threads && SeenOk(s, s.threads[t])
    requires s.threads[t] == Sweeping(b, c, dest, job) && SweepStep(s, s', t, b, c, dest, job)
    ensures Pays(s, s', t)
  {
    hide Pays, SeenOk, Falls;
    if s'.threads[t].Locked? { SweptPays(s, s', t, b, c, dest, job); } else { SweepingPays(s, s', t, b, c, dest, job); }
  }

  lemma SweptPays(s: State, s': State, t: Tid, b: Bucket, c: Sid, dest: Option<Sid>, job: Job)
    requires t in s.threads && t in s'.threads && SeenOk(s, s.threads[t]) && s'.threads[t].Locked?
    requires s.threads[t] == Sweeping(b, c, dest, job) && SweepStep(s, s', t, b, c, dest, job)
    ensures Pays(s, s', t)
  {
    hide Pays;
    SweepMoves(s, s', c);
    ChangePays(s, s', t);
  }

  lemma SweepingPays(s: State, s': State, t: Tid, b: Bucket, c: Sid, dest: Option<Sid>, job: Job)
    requires t in s.threads && t in s'.threads && SeenOk(s, s.threads[t]) && !s'.threads[t].Locked?
    requires s.threads[t] == Sweeping(b, c, dest, job) && SweepStep(s, s', t, b, c, dest, job)
    ensures Pays(s, s', t)
  {
    hide Pays;
    QuietPays(s, s', t);
  }

  /** Extending a chain touches segments only. */
  lemma ExtendsSegs(s: State, s1: State)
    requires Extends(s, s1)
    ensures s1 == s.(segs := s1.segs) && s1.segs.Keys == s.segs.Keys
  {
  }

  lemma ExtendPays(s: State, s1: State, t: Tid, b: Bucket, dest: Option<Sid>, job: Job)
    requires t in s.threads && SeenOk(s, s.threads[t]) && s.threads[t] == Locked(b, dest, job) && job.left > 0
    requires Extends(s, s1)
    ensures Pays(s, s1.At(t, Locked(b, dest, Less(job))), t)
  {
    hide Pays, Extends;
    ExtendsSegs(s, s1);
    QuietPays(s, s1.At(t, Locked(b, dest, Less(job))), t);
  }

  lemma UnlockPays(s: State, s': State, t: Tid, b: Bucket, job: Job)
    requires t in s.threads && SeenOk(s, s.threads[t]) && s.threads[t] == Locked(b, None, job)
    requires Unlocks(s, s', t, b, job)
    ensures Pays(s, s', t)
  {
    hide Pays, Falls;
    if t in s'.threads && s'.threads[t].WantLock? {
      assert Falls(s, s.threads[t], WantLock(s'.threads[t].bucket, Less(job)), 0)
      by { BucketFalls(s, b, s'.threads[t].bucket, job); }
    } else {
      assert Falls(s, s.threads[t], After(job.wait), 0) by { UnlockFalls(s, b, job); }
    }
    QuietPays(s, s', t);
  }

  lemma BucketFalls(s: State, b: Bucket, b': Bucket, job: Job)
    requires job.left > 0
    ensures Falls(s, Locked(b, None, job), WantLock(b', Less(job)), 0)
  {
  }

  lemma UnlockFalls(s: State, b: Bucket, job: Job)
    ensures Falls(s, Locked(b, None, job), After(job.wait), 0)
  {
  }

  lemma ClaimPays(s: State, s': State, t: Tid, b: Bucket, c: Sid, dest: Option<Sid>, job: Job)
    requires t in s.threads && SeenOk(s, s.threads[t]) && s.threads[t] == Locked(b, dest, job)
    requires Claims(s, s', t, b, c, dest, job)
    ensures Pays(s, s', t)
  {
    hide Pays;
    QuietPays(s, s', t);
  }

  lemma SealPays(s: State, t: Tid, b: Bucket, d: Sid, job: Job)
    requires t in s.threads && SeenOk(s, s.threads[t]) && s.threads[t] == Locked(b, Some(d), job) && d in s.segs
    ensures Pays(s, s.InPhase(d, Sealed).At(t, Locked(b, None, job)), t)
  {
    hide Pays;
    QuietPays(s, s.InPhase(d, Sealed).At(t, Locked(b, None, job)), t);
  }

  lemma LockedPays(s: State, s': State, t: Tid, b: Bucket, dest: Option<Sid>, job: Job)
    requires t in s.threads && SeenOk(s, s.threads[t])
    requires s.threads[t] == Locked(b, dest, job) && LockedStep(s, s', t, b, dest, job)
    ensures Pays(s, s', t)
  {
    hide Pays, Extends, Unlocks, Claims, SeenOk, State.At, State.InPhase;
    if c :| Claims(s, s', t, b, c, dest, job) {
      ClaimPays(s, s', t, b, c, dest, job);
    } else if dest.None? && Unlocks(s, s', t, b, job) {
      UnlockPays(s, s', t, b, job);
    } else if dest.Some? && dest.value in s.segs && s' == s.InPhase(dest.value, Sealed).At(t, Locked(b, None, job)) {
      SealPays(s, t, b, dest.value, job);
    } else {
      var s1 :| Extends(s, s1) && s' == s1.At(t, Locked(b, dest, Less(job)));
      ExtendPays(s, s1, t, b, dest, job);
    }
  }

  lemma ChainPays(s: State, s': State, t: Tid)
    requires t in s.threads && PcOk(s, t) && SeenOk(s, s.threads[t]) && ChainStep(s, s', t)
    ensures Pays(s, s', t)
  {
    hide LockedStep, SweepStep, Pays, SeenOk, Falls, PcOk;
    match s.threads[t]
    case Locked(b, dest, job) => LockedPays(s, s', t, b, dest, job);
    case Sweeping(b, c, dest, job) => SweepPays(s, s', t, b, c, dest, job);
    case Copying(_, _, _, _, _) => CopyPays(s, s', t);
    case AwaitWriters(_, _, _, _) => DrainWaitPays(s, s', t);
    case AwaitRemovers(_, _, _, _) => DrainWaitPays(s, s', t);
    case CopyWait(_, _, _, _, _) => CopyWaitPays(s, s', t);
    case _ => WaitPays(s, s', t);
  }

  lemma DrainWaitPays(s: State, s': State, t: Tid)
    requires t in s.threads && SeenOk(s, s.threads[t]) && ChainStep(s, s', t)
    requires s.threads[t].AwaitWriters? || s.threads[t].AwaitRemovers?
    ensures Pays(s, s', t)
  {
    hide LockedStep, SweepStep, Pays;
    QuietPays(s, s', t);
  }

  lemma CopyWaitPays(s: State, s': State, t: Tid)
    requires t in s.threads && SeenOk(s, s.threads[t]) && ChainStep(s, s', t) && s.threads[t].CopyWait?
    ensures Pays(s, s', t)
  {
    hide LockedStep, SweepStep, Pays;
    QuietPays(s, s', t);
  }

  lemma WaitPays(s: State, s': State, t: Tid)
    requires t in s.threads && SeenOk(s, s.threads[t]) && ChainStep(s, s', t)
    requires s.threads[t].EvictionWait? || s.threads[t].WantLock?
    ensures Pays(s, s', t)
  {
    hide LockedStep, SweepStep, Pays;
    QuietPays(s, s', t);
  }

  lemma CopyPays(s: State, s': State, t: Tid)
    requires t in s.threads && PcOk(s, t) && SeenOk(s, s.threads[t]) && s.threads[t].Copying? && ChainStep(s, s', t)
    ensures Pays(s, s', t)
  {
    hide Pays;
    var Copying(b, c, dest, job, l) := s.threads[t];
    assert Known(s, Holds(s.threads[t]).target);
    if x :| s.EntryOf(x).seg == Some(c) && s' == s.DropLeaf(l).Exchange(x, dest).At(t, Sweeping(b, c, dest, job)) {
      ExchangeMoves(s, s', x, dest);
      ChangePays(s, s', t);
    } else {
      QuietPays(s, s', t);
    }
  }

  /** Every step of an attempt, whichever it takes, brings the attempt nearer to its end. */
  lemma StepPays(s: State, s': State, t: Tid)
    requires Inv(s) && Step(s, s', t) && !s.threads[t].Idle?
    ensures Pays(s, s', t)
  {
    assert PcOk(s, t) && SeenOk(s, s.threads[t]);
    hide Inv, Pays, PcOk, SeenOk;
    if ReserveStep(s, s', t) { ReservePays(s, s', t); }
    else if PublishStep(s, s', t) { PublishPays(s, s', t); }
    else if CreateStep(s, s', t) { CreatePays(s, s', t); }
    else if RemoveStep(s, s', t) { RemovePays(s, s', t); }
    else if DeleteStep(s, s', t) { DeletePays(s, s', t); }
    else if ChainStep(s, s', t) { ChainPays(s, s', t); }
    else { CountPays(s, s', t); }
  }

  lemma CountPays(s: State, s': State, t: Tid)
    requires t in s.threads && SeenOk(s, s.threads[t]) && CountStep(s, s', t)
    ensures Pays(s, s', t)
  {
    hide Pays;
    match s.threads[t]
    case CountWait(l) => assert Falls(s, CountWait(l), Counting(l), 0); QuietPays(s, s', t);
    case Counting(l) => assert Falls(s, Counting(l), Idle, 0); QuietPays(s, s', t);
  }

  lemma StartSeen(s: State, s': State, t: Tid)
    requires t in s.threads && s.threads[t].Idle? && Start(s, s', t)
    ensures t in s'.threads && SeenOk(s', s'.threads[t]) && s'.table == s.table
    ensures var now := Looking(s'.threads[t]); now.Some? ==> now.value.seen == s'.Changes(now.value.key)
  {
  }

  lemma StepKeepsInv(s: State, s': State, t: Tid)
    requires Inv(s) && Step(s, s', t)
    ensures Inv(s')
  {
    StepOrderly(s, s', t);
    if s.threads[t].Idle? { StartSeen(s, s', t); } else { StepPays(s, s', t); }
    StepInv(s, s', t);
  }

  lemma StepInv(s: State, s': State, t: Tid)
    requires Inv(s) && Orderly(s, s', t) && TableMoves(s, s') && SeenOk(s', s'.threads[t])
    ensures Inv(s')
  {
    hide Inv, SeenOk;
    OrderlyKeepsInv(s, s', t);
  }
}
