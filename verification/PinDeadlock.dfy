/**
 * Nothing deadlocks and nothing spins for ever: someone can always move, every
 * attempt ends within its budget, and without new attempts every run settles.
 */
module PinDeadlock {
  import opened Wrappers
  import opened PinProtocol
  import opened PinOwnership
  import opened PinProgress

  // ----- Who can move -----

  /** The thread waits: for a lock, for pins to go, for a drain or fill to end, or for running evictions. */
  ghost predicate Blocked(s: State, t: Tid)
    requires t in s.threads
  {
    match s.threads[t]
    case WantLock(b, _) => b in s.chains
    case AwaitWriters(_, c, _, _) => c in s.segs && s.segs[c].writers > 0
    case AwaitRemovers(_, c, _, _) => c in s.segs && s.segs[c].removers > 0
    case Waiting(c, g) => StillBusy(s, c, g)
    case EvictionWait(target, freed) => s.finished < target && s.freed == freed
    case _ => s.threads[t].WantsLeaf().Some? && s.threads[t].WantsLeaf().value in s.leaves
  }

  ghost predicate CanMove(s: State, t: Tid) { t in s.threads && exists s' :: Step(s, s', t) }

  /** A thread in the middle of an attempt that is not waiting. */
  ghost predicate Runs(s: State, t: Tid) { t in s.threads && !s.threads[t].Idle? && !Blocked(s, t) }

  /** The counters of the segments a thread has pinned are positive. */
  ghost predicate PinsHeld(s: State, t: Tid)
    requires t in s.threads
  {
    var h := Holds(s.threads[t]);
    (h.writes.Some? ==> Drops(s, h.writes.value)) && (h.removes.Some? ==> DropsRemover(s, h.removes.value))
  }

  lemma PinsCounted(s: State, t: Tid)
    requires Inv(s) && t in s.threads
    ensures PinsHeld(s, t) && PcOk(s, t)
  {
    hide Holds;
    assert PcOk(s, t);
    var h := Holds(s.threads[t]);
    if h.writes.Some? { assert t in Writers(s, h.writes.value) && Counted(s, h.writes.value); }
    if h.removes.Some? { assert t in Removers(s, h.removes.value) && Counted(s, h.removes.value); }
  }

  lemma LookupGoes(s: State, t: Tid, op: Op)
    requires t in s.threads && TableOk(s) && s.threads[t] == Reserved(op) && !op.cas
    ensures CanMove(s, t)
  {
    var seg := s.EntryOf(op.key).seg;
    var looked := op.(seen := s.Changes(op.key));
    if seg.None? {
      assert Step(s, s.At(t, StripeWait(looked, 0)), t);
    } else if s.segs[seg.value].phase.Readable() {
      var pc' := RemoverCounted(looked.(other := seg.value, gen := s.segs[seg.value].gen));
      assert Step(s, s.PinRemover(seg.value).At(t, pc'), t);
    } else {
      assert Step(s, s.At(t, GivingUp(op.own, WaitFor(seg.value, s.segs[seg.value].gen), op.left)), t);
    }
  }

  lemma RefusedGoes(s: State, t: Tid, op: Op)
    requires t in s.threads && s.threads[t] == Refused(op)
    ensures CanMove(s, t)
  {
    if op.cas {
      var pc' := if !Unchanged(s, op) || op.other == op.own || op.n == 0 then GivingUp(op.own, NoWait, op.left)
                 else Reserved(op.(n := op.n - 1));
      assert Step(s, s.At(t, pc'), t);
    } else if op.other == op.own || op.n == 0 {
      assert Step(s, s.At(t, GivingUp(op.own, WaitFor(op.other, op.gen), op.left)), t);
    } else {
      assert Step(s, s.At(t, Reserved(op.(n := op.n - 1))), t);
    }
  }

  lemma ReserveGoes(s: State, t: Tid)
    requires Runs(s, t) && PinsHeld(s, t) && PcOk(s, t) && TableOk(s)
    requires var pc := s.threads[t];
      pc.Examined? || pc.WriterCounted? || pc.Reserved? || pc.RemoverCounted? || pc.Refused?
    ensures CanMove(s, t)
  {
    hide TableOk, LookupStep;
    match s.threads[t]
    case Examined(_) => assert Step(s, s.At(t, Idle), t);
    case WriterCounted(op) =>
      assert Step(s, if s.segs[op.own].phase.Live? then s.At(t, Reserved(op)) else s.DropWriter(op.own).At(t, Idle), t);
    case Reserved(op) =>
      if op.cas { assert Step(s, s.PinRemover(op.other).At(t, RemoverCounted(op)), t); } else { LookupGoes(s, t, op); }
    case RemoverCounted(op) =>
      assert Step(s, if s.segs[op.other].phase.Removable() then s.At(t, BothPinned(op))
                     else s.DropRemover(op.other).At(t, Refused(op)), t);
    case Refused(op) => RefusedGoes(s, t, op);
  }

  lemma TryPublishGoes(s: State, t: Tid, op: Op)
    requires t in s.threads && (s.threads[t] == BothPinned(op) || exists l :: s.threads[t] == ItemLocked(op, l))
    ensures CanMove(s, t)
  {
    var s1 := if s.threads[t].ItemLocked? then s.DropLeaf(s.threads[t].leaf) else s;
    var s' := if Unchanged(s, op) then s1.Exchange(op.key, Some(op.own)).At(t, Published(op)) else s1.At(t, Lost(op));
    assert TryPublish(s1, s', t, op);
    assert Step(s, s', t);
  }

  lemma PublishGoes(s: State, t: Tid)
    requires Runs(s, t) && PinsHeld(s, t) && PcOk(s, t)
    requires var pc := s.threads[t];
      pc.BothPinned? || pc.ItemWait? || pc.ItemLocked? || pc.Published? || pc.Lost? || pc.Mismatched?
    ensures CanMove(s, t)
  {
    hide TryPublish;
    match s.threads[t]
    case BothPinned(op) => TryPublishGoes(s, t, op);
    case ItemWait(op, l) => assert Step(s, s.TakeLeaf(l, t).At(t, ItemLocked(op, l)), t);
    case ItemLocked(op, _) => TryPublishGoes(s, t, op);
    case Published(op) => assert Step(s, s.DropWriter(op.own).At(t, Removing(op.other, NoWait, op.left)), t);
    case Lost(op) =>
      var pc' := if op.cas then GivingUp(op.own, NoWait, op.left) else Reserved(op.(seen := s.Changes(op.key)));
      assert Step(s, s.DropRemover(op.other).At(t, pc'), t);
    case Mismatched(op) => assert Step(s, s.DropRemover(op.other).At(t, GivingUp(op.own, NoWait, op.left)), t);
  }

  lemma StripeGoes(s: State, t: Tid, op: Op, l: Leaf)
    requires t in s.threads && TableOk(s) && s.threads[t] == StripeLocked(op, l)
    ensures CanMove(s, t)
  {
    var seg := s.EntryOf(op.key).seg;
    if Replaceable(s, seg) {
      assert Step(s, s.DropLeaf(l).Exchange(op.key, Some(op.own)).At(t, Created(op, seg)), t);
    } else {
      var gen := s.segs[seg.value].gen;
      assert Unverifiable(s, seg.value, gen);
      assert Step(s, s.DropLeaf(l).At(t, GivingUp(op.own, WaitFor(seg.value, gen), op.left)), t);
    }
  }

  lemma CreateGoes(s: State, t: Tid)
    requires Runs(s, t) && PinsHeld(s, t) && PcOk(s, t) && TableOk(s)
    requires var pc := s.threads[t]; pc.StripeWait? || pc.StripeLocked? || pc.Created? || pc.CountWait? || pc.Counting?
    ensures CanMove(s, t)
  {
    hide TableOk;
    match s.threads[t]
    case StripeWait(op, l) => assert Step(s, s.TakeLeaf(l, t).At(t, StripeLocked(op, l)), t);
    case StripeLocked(op, l) => StripeGoes(s, t, op, l);
    case Created(op, raced) =>
      assert Step(s, s.DropWriter(op.own).At(t,
        if raced.Some? then Unpinned(raced.value, NoWait, op.left) else Idle), t);
    case CountWait(l) => assert Step(s, s.TakeLeaf(l, t).At(t, Counting(l)), t);
    case Counting(l) => assert Step(s, s.DropLeaf(l).At(t, Idle), t);
  }

  lemma RemoveGoes(s: State, t: Tid)
    requires Runs(s, t) && PinsHeld(s, t) && PcOk(s, t)
    requires var pc := s.threads[t];
      pc.GivingUp? || pc.Unpinned? || pc.OwnCounted? || pc.Removing? || pc.Removed? || pc.Waiting?
    ensures CanMove(s, t)
  {
    match s.threads[t]
    case GivingUp(f, w, left) => assert Step(s, s.DropWriter(f).At(t, Unpinned(f, w, left)), t);
    case Unpinned(c, w, left) => assert Step(s, s.PinRemover(c).At(t, OwnCounted(c, w, left)), t);
    case OwnCounted(c, w, left) =>
      assert Step(s, if s.segs[c].phase.Removable() then s.At(t, Removing(c, w, left))
                     else s.DropRemover(c).At(t, After(w)), t);
    case Removing(c, w, left) => assert Step(s, s.DropRemover(c).At(t, Removed(w, left)), t);
    case Removed(w, _) => assert Step(s, s.At(t, After(w)), t);
    case Waiting(_, _) => assert Step(s, s.At(t, Idle), t);
  }

  lemma DeleteGoes(s: State, t: Tid)
    requires Runs(s, t) && PinsHeld(s, t) && PcOk(s, t)
    requires var pc := s.threads[t]; pc.Deleting? || pc.DeleteCounted? || pc.DeletePinned? || pc.DeleteBare?
    ensures CanMove(s, t)
  {
    match s.threads[t]
    case Deleting(x, c, seen, left) => assert Step(s, s.PinRemover(c).At(t, DeleteCounted(x, c, seen, left)), t);
    case DeleteCounted(x, c, seen, left) =>
      assert Step(s, if s.segs[c].phase.Removable() then s.At(t, DeletePinned(x, c, seen, left))
                     else s.DropRemover(c).At(t, DeleteBare(x, seen)), t);
    case DeletePinned(x, c, seen, left) =>
      assert Step(s, if s.Changes(x) == seen then s.Exchange(x, None).At(t, Removing(c, NoWait, left))
                     else s.DropRemover(c).At(t, Idle), t);
    case DeleteBare(x, seen) =>
      assert Step(s, if s.Changes(x) == seen then s.Exchange(x, None).At(t, Idle) else s.At(t, Idle), t);
  }

  lemma LockedGoes(s: State, t: Tid, b: Bucket, dest: Option<Sid>, job: Job)
    requires t in s.threads && PcOk(s, t) && s.threads[t] == Locked(b, dest, job)
    ensures CanMove(s, t)
  {
    if dest.Some? {
      assert Step(s, s.InPhase(dest.value, Sealed).At(t, Locked(b, None, job)), t);
    } else {
      var s' := s.(chains := s.chains - {b},
                   finished := s.finished + if job.evict then 1 else 0).At(t, After(job.wait));
      assert Unlocks(s, s', t, b, job);
      assert Step(s, s', t);
    }
  }

  lemma ChainGoes(s: State, t: Tid)
    requires Runs(s, t) && PinsHeld(s, t) && PcOk(s, t)
    requires var pc := s.threads[t]; pc.Locked? || pc.Sweeping? || pc.CopyWait? || pc.Copying?
    ensures CanMove(s, t)
  {
    match s.threads[t]
    case Locked(b, dest, job) => LockedGoes(s, t, b, dest, job);
    case Sweeping(b, c, dest, job) => assert Step(s, s.Recycle(c).Sweep(c).At(t, Locked(b, dest, job)), t);
    case CopyWait(b, c, dest, job, l) => assert Step(s, s.TakeLeaf(l, t).At(t, Copying(b, c, dest, job, l)), t);
    case Copying(b, c, dest, job, l) => assert Step(s, s.DropLeaf(l).At(t, Sweeping(b, c, dest, job)), t);
  }

  lemma WaitGoes(s: State, t: Tid)
    requires Runs(s, t) && PinsHeld(s, t) && PcOk(s, t)
    requires var pc := s.threads[t]; pc.EvictionWait? || pc.WantLock? || pc.AwaitWriters? || pc.AwaitRemovers?
    ensures CanMove(s, t)
  {
    match s.threads[t]
    case EvictionWait(_, _) => assert Step(s, s.At(t, Idle), t);
    case WantLock(b, job) => assert Step(s, s.(chains := s.chains[b := t]).At(t, Locked(b, None, job)), t);
    case AwaitWriters(b, c, dest, job) => assert Step(s, s.At(t, AwaitRemovers(b, c, dest, job)), t);
    case AwaitRemovers(b, c, dest, job) => assert Step(s, s.At(t, Sweeping(b, c, dest, job)), t);
  }

  lemma RunningGoes(s: State, t: Tid)
    requires Inv(s) && Runs(s, t)
    ensures CanMove(s, t)
  {
    assert TableOk(s);
    hide Inv, Blocked, TableOk, PcOk, PinsHeld, CanMove;
    PinsCounted(s, t);
    var pc := s.threads[t];
    if pc.Examined? || pc.WriterCounted? || pc.Reserved? || pc.RemoverCounted? || pc.Refused? { ReserveGoes(s, t); }
    else if pc.BothPinned? || pc.ItemWait? || pc.ItemLocked? || pc.Published? || pc.Lost? || pc.Mismatched?
    { PublishGoes(s, t); }
    else if pc.GivingUp? || pc.Unpinned? || pc.OwnCounted? || pc.Removing? || pc.Removed? || pc.Waiting?
    { RemoveGoes(s, t); }
    else if pc.Deleting? || pc.DeleteCounted? || pc.DeletePinned? || pc.DeleteBare? { DeleteGoes(s, t); }
    else if pc.Locked? || pc.Sweeping? || pc.CopyWait? || pc.Copying? { ChainGoes(s, t); }
    else if pc.EvictionWait? || pc.WantLock? || pc.AwaitWriters? || pc.AwaitRemovers? { WaitGoes(s, t); }
    else { CreateGoes(s, t); }
  }

  // ----- Someone can always move -----

  /** The holder of an item lock or a stripe never waits. */
  lemma LeafHolderRuns(s: State, l: Leaf)
    requires Inv(s) && l in s.leaves
    ensures Runs(s, s.leaves[l])
  {
    assert Holds(s.threads[s.leaves[l]]).leaf == Some(l);
  }

  /** A thread with a pin waits at most for a leaf lock. */
  lemma PinHolderLeads(s: State, t: Tid) returns (u: Tid)
    requires Inv(s) && t in s.threads && (s.threads[t].Writes().Some? || s.threads[t].Removes().Some?)
    ensures Runs(s, u)
  {
    u := t;
    if Blocked(s, t) {
      var l := s.threads[t].WantsLeaf().value;
      LeafHolderRuns(s, l);
      u := s.leaves[l];
    }
  }

  /** A counter that is not zero counts someone. */
  lemma PinsLead(s: State, c: Sid) returns (u: Tid)
    requires Inv(s) && c in s.segs && (s.segs[c].writers > 0 || s.segs[c].removers > 0)
    ensures Runs(s, u)
  {
    hide Runs, Pc.Names, Owned, PcOk, SeenOk;
    assert Counted(s, c);
    assert |Writers(s, c)| > 0 || |Removers(s, c)| > 0;
    var w :| w in Writers(s, c) || w in Removers(s, c);
    u := PinHolderLeads(s, w);
  }

  /** A drain waits for pins, or for a leaf lock while it copies. */
  lemma DrainLeads(s: State, t: Tid) returns (u: Tid)
    requires Inv(s) && t in s.threads && s.threads[t].Chain().Some?
    ensures Runs(s, u)
  {
    hide Inv;
    u := t;
    if Blocked(s, t) {
      match s.threads[t]
      case AwaitWriters(_, c, _, _) => u := PinsLead(s, c);
      case AwaitRemovers(_, c, _, _) => u := PinsLead(s, c);
      case CopyWait(_, _, _, _, l) =>
        LeafHolderRuns(s, l);
        u := s.leaves[l];
    }
  }

  /** The holder of a chain lock leads to someone who runs. */
  lemma LockLeads(s: State, b: Bucket) returns (u: Tid)
    requires Inv(s) && b in s.chains
    ensures Runs(s, u)
  {
    assert Holds(s.threads[s.chains[b]]).chain == Some(b);
    u := DrainLeads(s, s.chains[b]);
  }

  /** A busy segment has a thread that drains or fills it. */
  lemma BusyLeads(s: State, c: Sid) returns (u: Tid)
    requires Inv(s) && c in s.segs && s.segs[c].phase.Busy()
    ensures Runs(s, u)
  {
    var o := BusyOwner(s, c);
    u := DrainLeads(s, o);
  }

  lemma BusyOwner(s: State, c: Sid) returns (o: Tid)
    requires Inv(s) && c in s.segs && s.segs[c].phase.Busy()
    ensures o in s.threads && s.threads[o].Chain().Some?
  {
    hide PcOk, SeenOk, Counted, Holds;
    assert Owned(s, c);
    o :| DrainedBy(s, c, o) || FilledBy(s, c, o);
    OwnersAreLocked(s.threads[o]);
  }

  lemma OwnersAreLocked(pc: Pc)
    ensures Holds(pc).source.Some? || Holds(pc).target.Some? ==> pc.Chain().Some?
  {
  }

  lemma EvictorLeads(s: State, e: Tid) returns (u: Tid)
    requires Inv(s) && e in s.threads && s.threads[e].Evicts()
    ensures Runs(s, u)
  {
    hide Inv;
    if s.threads[e].Chain().Some? { u := DrainLeads(s, e); }
    else if s.threads[e].bucket in s.chains { u := LockLeads(s, s.threads[e].bucket); }
    else { u := e; }
  }

  /** An eviction that has started and not finished is under way or wants a chain lock. */
  lemma EvictionLeads(s: State) returns (u: Tid)
    requires Inv(s) && s.finished < s.started
    ensures Runs(s, u)
  {
    assert |Evicting(s)| > 0;
    var e :| e in Evicting(s);
    u := EvictorLeads(s, e);
  }

  /** Whoever waits, someone behind the wait runs. */
  lemma WaitLeads(s: State, t: Tid) returns (u: Tid)
    requires Inv(s) && t in s.threads && !s.threads[t].Idle?
    ensures Runs(s, u)
  {
    var pc := s.threads[t];
    if !Blocked(s, t) {
      u := t;
    } else if pc.Chain().Some? {
      u := DrainLeads(s, t);
    } else if pc.WantsLeaf().Some? {
      LeafHolderRuns(s, pc.WantsLeaf().value);
      u := s.leaves[pc.WantsLeaf().value];
    } else if pc.WantLock? {
      u := LockLeads(s, pc.bucket);
    } else if pc.EvictionWait? {
      assert SeenOk(s, pc);
      u := EvictionLeads(s);
    } else {
      u := BusyLeads(s, pc.seg);
    }
  }

  // ----- Runs -----

  /** A run and the thread that takes each of its steps. */
  ghost predicate Run(run: seq<State>, who: seq<Tid>) {
    && |run| == |who| + 1 && Init(run[0])
    && forall i, j | 0 <= i && j == i + 1 < |run| :: Step(run[i], run[j], who[i])
  }

  lemma InitInv(s: State)
    requires Init(s)
    ensures Inv(s)
  {
    forall c | c in s.segs ensures Counted(s, c) && Owned(s, c) {
      assert Writers(s, c) == {} && Removers(s, c) == {};
    }
    assert Evicting(s) == {};
  }

  lemma {:induction false} RunInv(run: seq<State>, who: seq<Tid>, n: nat)
    requires Run(run, who) && n < |run|
    ensures Inv(run[n])
  {
    hide Inv, Init, Step;
    if n == 0 {
      InitInv(run[0]);
    } else {
      RunInv(run, who, n - 1);
      StepKeepsInv(run[n - 1], run[n], who[n - 1]);
    }
  }

  lemma StepAt(run: seq<State>, who: seq<Tid>, i: nat, j: nat)
    requires Run(run, who) && j == i + 1 < |run|
    ensures Inv(run[i]) && Inv(run[j]) && Step(run[i], run[j], who[i])
    ensures OneMoved(run[i], run[j], who[i])
  {
    hide Inv, Init, Step, Orderly;
    RunInv(run, who, i);
    RunInv(run, who, j);
    StepOrderly(run[i], run[j], who[i]);
    assert OneMoved(run[i], run[j], who[i]) by { OrderlyMovesOne(run[i], run[j], who[i]); }
  }

  lemma OrderlyMovesOne(s: State, s': State, t: Tid)
    requires Orderly(s, s', t)
    ensures OneMoved(s, s', t)
  {
  }

  // ----- Every attempt ends -----

  /** Thread `t` is in the middle of one attempt from state `i` up to the step before state `j`. */
  ghost predicate During(run: seq<State>, t: Tid, i: nat, j: nat)
    requires j <= |run|
  {
    forall k | i <= k < j :: t in run[k].threads && !run[k].threads[t].Idle?
  }

  /** How many of the steps from state `i` to state `j` thread `t` takes. */
  ghost function OwnSteps(who: seq<Tid>, t: Tid, i: nat, j: nat): nat
    requires i <= j <= |who|
    decreases j
  {
    if i == j then 0 else OwnSteps(who, t, i, j - 1) + if who[j - 1] == t then 1 else 0
  }

  /** In step `k` a thread other than `t` changes the entry of `x`. */
  ghost predicate ChangedByOther(run: seq<State>, who: seq<Tid>, t: Tid, x: KeyId, k: nat)
    requires |run| == |who| + 1 && k < |who|
  {
    who[k] != t && run[k].Changes(x) < run[k + 1].Changes(x)
  }

  /** How many of the steps from state `i` to state `j` do that. */
  ghost function OthersChanges(run: seq<State>, who: seq<Tid>, t: Tid, x: KeyId, i: nat, j: nat): nat
    requires |run| == |who| + 1 && i <= j <= |who|
    decreases j
  {
    if i == j then 0
    else OthersChanges(run, who, t, x, i, j - 1) + if ChangedByOther(run, who, t, x, j - 1) then 1 else 0
  }

  /** The key whose changes an attempt at `pc` still minds. */
  function Minds(pc: Pc): Option<KeyId> { if Looking(pc).Some? then Some(Looking(pc).value.key) else None }

  /** A step of another thread raises a budget only by changing the entry looked up, and by 8 at most. */
  lemma OtherStepCosts(s: State, s': State, t: Tid, pc: Pc)
    requires Inv(s) && Step(s, s', t) && SeenOk(s, pc)
    ensures SeenOk(s', pc)
    ensures Budget(s', pc) <= Budget(s, pc) +
      if Minds(pc).Some? && s.Changes(Minds(pc).value) < s'.Changes(Minds(pc).value) then 8 else 0
  {
    hide Inv, Step, Rank, Looking;
    StepMoves(s, s', t);
    SeenStays(s, s', pc);
  }

  lemma StepMoves(s: State, s': State, t: Tid)
    requires Inv(s) && Step(s, s', t)
    ensures TableMoves(s, s') && s.started <= s'.started && OneMoved(s, s', t)
  {
    hide Inv, Holds, PcOk, SegsMove, LockMove, SeenOk, Rank, Power;
    StepOrderly(s, s', t);
    if s.threads[t].Idle? { StartSeen(s, s', t); StartMoves(s, s', t); } else { StepPays(s, s', t); }
  }

  lemma StartMoves(s: State, s': State, t: Tid)
    requires Orderly(s, s', t) && s'.table == s.table
    ensures TableMoves(s, s')
  {
    hide Holds, PcOk, LockMove;
  }

  /** A thread never starts to mind a key in the middle of an attempt. */
  lemma MindsLess(s: State, s': State, t: Tid)
    requires Inv(s) && Step(s, s', t) && !s.threads[t].Idle?
    ensures t in s'.threads && (Minds(s'.threads[t]).Some? ==> Minds(s'.threads[t]) == Minds(s.threads[t]))
  {
    hide Inv, Step, Budget, SeenOk, Power, TableMoves, Looking;
    StepPays(s, s', t);
  }

  lemma {:induction false} AttemptsCost(run: seq<State>, who: seq<Tid>, t: Tid, i: nat, j: nat)
    requires Run(run, who) && i <= j < |run| && t in run[i].threads && During(run, t, i, j)
    ensures t in run[j].threads && SeenOk(run[i], run[i].threads[t]) && SeenOk(run[j], run[j].threads[t])
    ensures var x := Minds(run[i].threads[t]);
      && (Minds(run[j].threads[t]).Some? ==> Minds(run[j].threads[t]) == x)
      && OwnSteps(who, t, i, j) + Budget(run[j], run[j].threads[t])
           <= Budget(run[i], run[i].threads[t]) + if x.Some? then 8 * OthersChanges(run, who, t, x.value, i, j) else 0
    decreases j
  {
    hide Inv, Step, Budget, SeenOk, Minds;
    if i == j {
      RunInv(run, who, i);
      InvSeen(run[i], t);
    } else {
      AttemptsCost(run, who, t, i, j - 1);
      StepAt(run, who, j - 1, j);
      if who[j - 1] == t {
        StepPays(run[j - 1], run[j], t);
        MindsLess(run[j - 1], run[j], t);
        PaysBudget(run[j - 1], run[j], t);
      } else {
        OtherStepCosts(run[j - 1], run[j], who[j - 1], run[j - 1].threads[t]);
      }
    }
  }

  lemma InvSeen(s: State, t: Tid)
    requires Inv(s) && t in s.threads
    ensures SeenOk(s, s.threads[t])
  {
  }

  lemma PaysBudget(s: State, s': State, t: Tid)
    requires Pays(s, s', t)
    ensures t in s.threads && t in s'.threads && SeenOk(s, s.threads[t]) && SeenOk(s', s'.threads[t])
    ensures Budget(s', s'.threads[t]) < Budget(s, s.threads[t])
  {
  }

  /**
   * An attempt ends: from any state of a run on, and whichever steps it takes, a
   * thread takes no more steps of its attempt than its budget, and 8 for each
   * change another thread makes meanwhile to the entry it looked up.
   */
  lemma AttemptsEnd(run: seq<State>, who: seq<Tid>, t: Tid, i: nat, j: nat)
    requires Run(run, who) && i <= j < |run| && t in run[i].threads && During(run, t, i, j)
    ensures SeenOk(run[i], run[i].threads[t])
    ensures var x := Minds(run[i].threads[t]);
      OwnSteps(who, t, i, j)
        <= Budget(run[i], run[i].threads[t]) + if x.Some? then 8 * OthersChanges(run, who, t, x.value, i, j) else 0
  {
    hide Inv, Step, Budget, SeenOk, Minds, Init;
    AttemptsCost(run, who, t, i, j);
  }

  ghost predicate PinsSegment(pc: Pc, c: Sid) { pc.Writes() == Some(c) || pc.Removes() == Some(c) }

  /**
   * What a drain of `c` waits for: a thread that holds a pin on `c` all along
   * from state `i` to state `j` takes boundedly many steps in between.
   */
  lemma PinsAreReleased(run: seq<State>, who: seq<Tid>, t: Tid, c: Sid, i: nat, j: nat)
    requires Run(run, who) && i <= j < |run|
    requires forall k | i <= k <= j :: t in run[k].threads && PinsSegment(run[k].threads[t], c)
    ensures SeenOk(run[i], run[i].threads[t])
    ensures var x := Minds(run[i].threads[t]);
      OwnSteps(who, t, i, j)
        <= Budget(run[i], run[i].threads[t]) + if x.Some? then 8 * OthersChanges(run, who, t, x.value, i, j) else 0
  {
    hide Inv, Step, Budget, SeenOk, Minds, Init, Runs;
    forall k | i <= k < j ensures !run[k].threads[t].Idle? {
      PinnersAreBusy(run[k].threads[t], c);
    }
    AttemptsEnd(run, who, t, i, j);
  }

  /**
   * In every reachable state a thread that holds a pin can take a step, unless it
   * waits for an item lock or stripe, whose holder runs and can.
   */
  lemma PinHoldersBarelyWait(run: seq<State>, who: seq<Tid>, t: Tid, c: Sid)
    requires Run(run, who) && t in run[|run| - 1].threads && PinsSegment(run[|run| - 1].threads[t], c)
    ensures var s := run[|run| - 1];
      if Blocked(s, t) then
        var leaf := s.threads[t].WantsLeaf();
        leaf.Some? && leaf.value in s.leaves && Runs(s, s.leaves[leaf.value]) && CanMove(s, s.leaves[leaf.value])
      else CanMove(s, t)
  {
    hide Inv, Init, Step;
    RunInv(run, who, |run| - 1);
    PinHolderGoes(run[|run| - 1], t, c);
  }

  lemma PinnersAreBusy(pc: Pc, c: Sid)
    requires PinsSegment(pc, c)
    ensures !pc.Idle?
  {
  }

  lemma PinHolderGoes(s: State, t: Tid, c: Sid)
    requires Inv(s) && t in s.threads && PinsSegment(s.threads[t], c)
    ensures
      if Blocked(s, t) then
        var leaf := s.threads[t].WantsLeaf();
        leaf.Some? && leaf.value in s.leaves && Runs(s, s.leaves[leaf.value]) && CanMove(s, s.leaves[leaf.value])
      else CanMove(s, t)
  {
    hide Inv, CanMove;
    if Blocked(s, t) {
      LeafHolderRuns(s, s.threads[t].WantsLeaf().value);
      RunningGoes(s, s.leaves[s.threads[t].WantsLeaf().value]);
    } else {
      RunningGoes(s, t);
    }
  }

  // ----- An exchange is lost to others only -----

  /**
   * From state `i`, when the entry of `x` had changed `seen` times, until state
   * `j` thread `t` minds the entry; step `i` is another thread's change of it.
   */
  ghost predicate Overtaken(run: seq<State>, who: seq<Tid>, t: Tid, x: KeyId, seen: nat, i: nat, j: nat)
    requires |run| == |who| + 1
  {
    && i < j < |run| && ChangedByOther(run, who, t, x, i) && run[i].Changes(x) == seen
    && forall k | i <= k <= j :: t in run[k].threads && Minds(run[k].threads[t]) == Some(x)
  }

  lemma {:induction false} StaleMeansOvertaken(run: seq<State>, who: seq<Tid>, t: Tid, op: Op, j: nat) returns (i: nat)
    requires Run(run, who) && j < |run| && t in run[j].threads
    requires Looking(run[j].threads[t]) == Some(op) && op.seen < run[j].Changes(op.key)
    ensures Overtaken(run, who, t, op.key, op.seen, i, j)
    decreases j
  {
    hide Inv, Step, Looking;
    assert j > 0 by { InitLooksNowhere(run[0]); }
    var (s, s') := (run[j - 1], run[j]);
    StepAt(run, who, j - 1, j);
    if who[j - 1] == t {
      OwnStepWatches(s, s', t, op);
      i := StaleMeansOvertaken(run, who, t, Looking(s.threads[t]).value, j - 1);
    } else {
      LooksBack(s, t, op);
      if op.seen < s.Changes(op.key) { i := StaleMeansOvertaken(run, who, t, op, j - 1); } else { i := j - 1; }
    }
  }

  lemma InitLooksNowhere(s: State)
    requires Init(s)
    ensures forall t | t in s.threads :: Looking(s.threads[t]).None?
  {
  }

  lemma LooksBack(s: State, t: Tid, op: Op)
    requires Inv(s) && t in s.threads && Looking(s.threads[t]) == Some(op)
    ensures op.seen <= s.Changes(op.key)
  {
    assert SeenOk(s, s.threads[t]);
  }

  lemma OwnStepWatches(s: State, s': State, t: Tid, op: Op)
    requires Inv(s) && Step(s, s', t) && t in s'.threads
    requires Looking(s'.threads[t]) == Some(op) && op.seen < s'.Changes(op.key)
    ensures s'.table == s.table
    ensures Looking(s.threads[t]).Some? && Looking(s.threads[t]).value.key == op.key
    ensures Looking(s.threads[t]).value.seen == op.seen
  {
    hide Inv, Looking, SeenOk, Budget, Power, TableMoves;
    hide Start, ReserveStep, PublishStep, CreateStep, RemoveStep, DeleteStep, ChainStep, CountStep;
    if s.threads[t].Idle? { StartSeen(s, s', t); } else { StepPays(s, s', t); }
  }

  /**
   * An exchange that has failed was overtaken: while the thread looked at the
   * entry, another thread changed it.
   */
  lemma LostMeansOvertaken(run: seq<State>, who: seq<Tid>, t: Tid, j: nat)
    requires Run(run, who) && j < |run| && t in run[j].threads && run[j].threads[t].Lost?
    ensures var op := run[j].threads[t].op; exists i :: Overtaken(run, who, t, op.key, op.seen, i, j)
  {
    hide Inv, Step, Overtaken;
    RunInv(run, who, j);
    LostIsStale(run[j], t);
    var i := StaleMeansOvertaken(run, who, t, run[j].threads[t].op, j);
  }

  lemma LostIsStale(s: State, t: Tid)
    requires Inv(s) && t in s.threads && s.threads[t].Lost?
    ensures var op := s.threads[t].op; Looking(s.threads[t]) == Some(op) && op.seen < s.Changes(op.key)
  {
    assert SeenOk(s, s.threads[t]);
  }

  // ----- Everything settles -----

  ghost predicate AllSeen(s: State) { forall t | t in s.threads :: SeenOk(s, s.threads[t]) }

  /** What an attempt may still cost among `n` threads: its own steps, and 8 for each other thread with each change. */
  ghost function Cost(s: State, pc: Pc, n: nat): nat
    requires SeenOk(s, pc)
  {
    Budget(s, pc) + 8 * (n * Power(pc))
  }

  /** The costs of the threads below `m`. */
  ghost function Total(s: State, n: nat, m: nat): nat
    requires AllSeen(s)
  {
    if m == 0 then 0 else Total(s, n, m - 1) + if m - 1 in s.threads then Cost(s, s.threads[m - 1], n) else 0
  }

  /** A change of the table may cost each of `m` threads 8 steps. */
  ghost function Raise(s: State, s': State, m: nat): nat { if s'.table == s.table then 0 else 8 * m }

  lemma CostFalls(s: State, s': State, t: Tid, n: nat)
    requires Pays(s, s', t)
    ensures t in s.threads && t in s'.threads && SeenOk(s, s.threads[t]) && SeenOk(s', s'.threads[t])
    ensures Cost(s', s'.threads[t], n) + 1 + Raise(s, s', n) <= Cost(s, s.threads[t], n)
  {
    hide Budget, Power, SeenOk, Looking, TableMoves;
    Scaled(n, Power(s.threads[t]), Power(s'.threads[t]));
  }

  lemma {:induction false} Scaled(n: nat, p: nat, p': nat)
    ensures p' <= p ==> n * p' <= n * p
    ensures p' < p ==> n * p' + n <= n * p
    decreases p
  {
    if p' < p {
      Scaled(n, p - 1, p');
      assert n * p == n * (p - 1) + n;
    }
  }

  lemma CostKept(s: State, s': State, u: Tid, pc: Pc, n: nat)
    requires Inv(s) && Step(s, s', u) && SeenOk(s, pc)
    ensures SeenOk(s', pc) && Cost(s', pc, n) <= Cost(s, pc, n) + Raise(s, s', 1)
  {
    hide Inv, Step, Budget, SeenOk, Power, Minds;
    OtherStepCosts(s, s', u, pc);
  }

  lemma {:induction false} TotalFalls(s: State, s': State, t: Tid, n: nat, m: nat)
    requires Inv(s) && Step(s, s', t) && Pays(s, s', t) && OneMoved(s, s', t) && AllSeen(s) && AllSeen(s')
    ensures Total(s', n, m) + (if t < m then 1 + Raise(s, s', n) else 0) <= Total(s, n, m) + Raise(s, s', m)
  {
    hide Inv, Step, Cost, Pays, SeenOk;
    if m > 0 {
      TotalFalls(s, s', t, n, m - 1);
      if m - 1 == t { CostFalls(s, s', t, n); }
      else if m - 1 in s.threads { CostKept(s, s', t, s.threads[m - 1], n); }
    }
  }

  lemma InvAllSeen(s: State)
    requires Inv(s)
    ensures AllSeen(s)
  {
  }

  /** Every step from state `i` to state `j` belongs to an attempt that is under way. */
  ghost predicate NothingStarts(run: seq<State>, who: seq<Tid>, i: nat, j: nat)
    requires |run| == |who| + 1 && j <= |who|
  {
    forall k | i <= k < j :: who[k] in run[k].threads && !run[k].threads[who[k]].Idle?
  }

  lemma {:induction false} SettlingCosts(run: seq<State>, who: seq<Tid>, n: nat, i: nat, j: nat)
    requires Run(run, who) && i <= j < |run| && NothingStarts(run, who, i, j) && forall t | t in run[i].threads :: t < n
    ensures AllSeen(run[i]) && AllSeen(run[j]) && run[j].threads.Keys == run[i].threads.Keys
    ensures j - i + Total(run[j], n, n) <= Total(run[i], n, n)
    decreases j
  {
    hide Inv, Step, AllSeen, Pays, Total;
    if i == j {
      RunInv(run, who, i);
      InvAllSeen(run[i]);
    } else {
      SettlingCosts(run, who, n, i, j - 1);
      StepAt(run, who, j - 1, j);
      InvAllSeen(run[j]);
      StepPays(run[j - 1], run[j], who[j - 1]);
      TotalFalls(run[j - 1], run[j], who[j - 1], n, n);
    }
  }

  /** No attempt that is under way can take a step. */
  ghost predicate Settled(s: State) { forall t, s' | Step(s, s', t) :: s.threads[t].Idle? }

  /**
   * Neither deadlock nor livelock: if no new attempt starts after state `i` of a
   * run, what is left of the run is no longer than the total of that state, and
   * when no attempt can go on, every attempt has ended.
   */
  lemma EverythingSettles(run: seq<State>, who: seq<Tid>, n: nat, i: nat, j: nat)
    requires Run(run, who) && i <= j < |run| && NothingStarts(run, who, i, j) && forall t | t in run[i].threads :: t < n
    ensures AllSeen(run[i]) && j - i <= Total(run[i], n, n)
    ensures Settled(run[j]) ==> forall t | t in run[j].threads :: run[j].threads[t].Idle?
  {
    hide Inv, Init, Step, AllSeen, Total, Runs, Pays;
    SettlingCosts(run, who, n, i, j);
    RunInv(run, who, j);
    forall t | t in run[j].threads && !run[j].threads[t].Idle? ensures !Settled(run[j]) {
      NotSettled(run[j], t);
    }
  }

  lemma SomeoneGoes(s: State, t: Tid) returns (u: Tid)
    requires Inv(s) && t in s.threads && !s.threads[t].Idle?
    ensures Runs(s, u) && CanMove(s, u) && !s.threads[u].Idle?
  {
    hide Inv, Blocked, CanMove;
    u := WaitLeads(s, t);
    RunningGoes(s, u);
  }

  lemma NotSettled(s: State, t: Tid)
    requires Inv(s) && t in s.threads && !s.threads[t].Idle?
    ensures !Settled(s)
  {
    hide Inv, Step, Runs;
    var u := SomeoneGoes(s, t);
    var s' :| Step(s, s', u);
  }

  /**
   * No reachable state is deadlocked: while any attempt is under way, some
   * thread in the middle of one is not waiting and can take a step, and
   * whichever step it takes, its attempt is nearer to its end.
   */
  lemma NeverDeadlocked(run: seq<State>, who: seq<Tid>)
    requires Run(run, who)
    ensures var s := run[|run| - 1];
      (exists t | t in s.threads :: !s.threads[t].Idle?) ==>
        exists u :: Runs(s, u) && CanMove(s, u) && forall s' | Step(s, s', u) :: Pays(s, s', u)
  {
    hide Inv, Init, Step, Runs, Pays;
    RunInv(run, who, |run| - 1);
    var s := run[|run| - 1];
    if t :| t in s.threads && !s.threads[t].Idle? {
      var u := SomeoneGoes(s, t);
      forall s' | Step(s, s', u) ensures Pays(s, s', u) {
        StepPays(s, s', u);
      }
    }
  }

  /** In every reachable state a segment being drained or filled has exactly one thread that does it. */
  lemma DrainsAreExclusive(run: seq<State>, who: seq<Tid>, c: Sid)
    requires Run(run, who) && c in run[|run| - 1].segs
    ensures var s := run[|run| - 1];
      && (s.segs[c].phase.Draining? <==> exists t :: DrainedBy(s, c, t))
      && (s.segs[c].phase.Relinking? <==> exists t :: FilledBy(s, c, t))
      && (forall t, u | DrainedBy(s, c, t) && DrainedBy(s, c, u) :: t == u)
      && (forall t, u | FilledBy(s, c, t) && FilledBy(s, c, u) :: t == u)
      && s.segs[c].writers == |Writers(s, c)| && s.segs[c].removers == |Removers(s, c)|
  {
    hide Init, Step, DrainedBy, FilledBy, Writers, Removers;
    RunInv(run, who, |run| - 1);
    var s := run[|run| - 1];
    assert Counted(s, c) && Owned(s, c);
    DrainedPhase(s, c);
  }

  // ----- Where the rollback is the only way on -----

  lemma RunExtends(run: seq<State>, who: seq<Tid>, s': State, t: Tid)
    requires Run(run, who) && Step(run[|run| - 1], s', t)
    ensures Run(run + [s'], who + [t])
  {
    hide Step, Init;
    var (longer, steps) := (run + [s'], who + [t]);
    forall i, j | 0 <= i && j == i + 1 < |longer| ensures Step(longer[i], longer[j], steps[i]) {
      if j < |run| { assert Step(run[i], run[j], who[i]); }
    }
  }

  const PlainInsert := Op(false, 0, 0, 0, 0, 0, 9, 0)
  const ShortJob := Job(NoWait, false, 1)

  /** An insert has reserved in segment 0 and found the entry it replaces in the same segment. */
  lemma FoundRun() returns (run: seq<State>, who: seq<Tid>)
    ensures Run(run, who)
    ensures run[|run| - 1] ==
      State(map[0 := Seg(Live, 0, 1, 1)], map[0 := Entry(Some(0), 0)], map[], map[],
            map[0 := RemoverCounted(PlainInsert), 1 := Idle], 0, 0, 0)
  {
    var s := State(map[0 := Seg(Live, 0, 0, 0)], map[0 := Entry(Some(0), 0)], map[], map[],
                   map[0 := Idle, 1 := Idle], 0, 0, 0);
    run, who := [s], [];
    var s1 := s.PinWriter(0).At(0, WriterCounted(PlainInsert));
    assert Start(s, s1, 0);
    RunExtends(run, who, s1, 0);
    var s2 := s1.At(0, Reserved(PlainInsert));
    RunExtends(run + [s1], who + [0], s2, 0);
    var s3 := s2.PinRemover(0).At(0, RemoverCounted(PlainInsert));
    assert LookupStep(s2, s3, 0, PlainInsert);
    RunExtends(run + [s1] + [s2], who + [0] + [0], s3, 0);
    run, who := run + [s1] + [s2] + [s3], who + [0] + [0] + [0];
    assert s3.threads == map[0 := RemoverCounted(PlainInsert), 1 := Idle];
  }

  /** Thread 1 takes the chain lock. */
  lemma LockedRun() returns (run: seq<State>, who: seq<Tid>)
    ensures Run(run, who)
    ensures run[|run| - 1] ==
      State(map[0 := Seg(Live, 0, 1, 1)], map[0 := Entry(Some(0), 0)], map[0 := 1], map[],
            map[0 := RemoverCounted(PlainInsert), 1 := Locked(0, None, ShortJob)], 0, 0, 0)
  {
    run, who := FoundRun();
    var s := run[|run| - 1];
    var s1 := s.At(1, WantLock(0, ShortJob));
    assert Start(s, s1, 1);
    RunExtends(run, who, s1, 1);
    var s2 := s1.(chains := map[0 := 1]).At(1, Locked(0, None, ShortJob));
    RunExtends(run + [s1], who + [1], s2, 1);
    run, who := run + [s1] + [s2], who + [1] + [1];
    assert s2.threads == map[0 := RemoverCounted(PlainInsert), 1 := Locked(0, None, ShortJob)];
  }

  /** Thread 1 claims the segment under its chain lock and waits for the writer. */
  lemma ClaimedRun() returns (run: seq<State>, who: seq<Tid>)
    ensures Run(run, who)
    ensures run[|run| - 1] ==
      State(map[0 := Seg(Draining, 0, 1, 1)], map[0 := Entry(Some(0), 0)], map[0 := 1], map[],
            map[0 := RemoverCounted(PlainInsert), 1 := AwaitWriters(0, 0, None, Less(ShortJob))], 0, 0, 0)
  {
    run, who := LockedRun();
    var s := run[|run| - 1];
    var s1 := s.InPhase(0, Draining).At(1, AwaitWriters(0, 0, None, Less(ShortJob)));
    assert Claims(s, s1, 1, 0, 0, None, ShortJob);
    RunExtends(run, who, s1, 1);
    run, who := run + [s1], who + [1];
    assert s1.threads == map[0 := RemoverCounted(PlainInsert), 1 := AwaitWriters(0, 0, None, Less(ShortJob))];
  }

  /**
   * The rollback is what keeps the system going: there is a run after which a
   * drain waits for the writer pin of an insert whose old entry the drain owns,
   * the insert is the only thread that can move, and all it can do is give up
   * its reservation.
   */
  lemma OnlyTheRollbackMoves() returns (run: seq<State>, who: seq<Tid>)
    ensures Run(run, who)
    ensures var s := run[|run| - 1];
      && 1 in s.threads && s.threads[1].AwaitWriters? && Blocked(s, 1)
      && 0 in s.threads && s.threads[0] == Refused(PlainInsert)
      && forall s', t | Step(s, s', t) :: t == 0 && 0 in s'.threads && s'.threads[0].GivingUp?
  {
    run, who := ClaimedRun();
    var s := run[|run| - 1];
    var s1 := s.DropRemover(0).At(0, Refused(PlainInsert));
    RunExtends(run, who, s1, 0);
    run, who := run + [s1], who + [0];
  }
}
