/**
 * Writer pins, remover pins, chain locks and drains: who waits for whom when any
 * number of threads insert, compare-and-set, delete, evict, merge and update
 * counters over any number of segments and keys. A wait for a lock, for pins or
 * for a drain is a step that is not enabled yet; a retry is a step like any
 * other. An exchange made under an item lock or a stripe and the unlock after it
 * are one step, and so is the sweep of a drained segment's entries.
 */
module PinProtocol {
  import opened Wrappers

  type Tid = nat
  type Sid = nat
  type KeyId = nat
  type Bucket = nat
  type Leaf = nat

  datatype Phase = Free | Live | Sealed | Relinking | Draining | Condemned
  {
    predicate Readable() { Live? || Sealed? || Relinking? }

    predicate Removable() { Live? || Sealed? }

    /** A drain or a fill owns the segment. */
    predicate Busy() { Draining? || Relinking? }
  }

  datatype Seg = Seg(phase: Phase, gen: nat, writers: nat, removers: nat)

  /** The hash table entry of a key: the segment it names, and how often it has changed. */
  datatype Entry = Entry(seg: Option<Sid>, changes: nat)

  /** The incarnation of a segment a location names; an insert waits on it after its rollback. */
  datatype Wait = NoWait | WaitFor(seg: Sid, gen: nat)

  /**
   * An insert or a `cas`: the segment of its reservation, the segment of the
   * entry it replaces with its generation, and the changes of that entry when it
   * last looked; what is left of its backoff, and of the work it may do on a
   * chain afterwards. A `cas` examines the entry before it reserves, and gives up
   * where an insert waits and restarts.
   */
  datatype Op = Op(cas: bool, key: KeyId, own: Sid, other: Sid, gen: nat, seen: nat, n: nat, left: nat)

  /** A trip under a chain lock: what comes after it, whether it is an eviction, and the work left. */
  datatype Job = Job(wait: Wait, evict: bool, left: nat)

  datatype Pc =
    | Idle
    | Examined(op: Op)
    | WriterCounted(op: Op)
    | Reserved(op: Op)
    | RemoverCounted(op: Op)
    | Refused(op: Op)
    | BothPinned(op: Op)
    | ItemWait(op: Op, leaf: Leaf)
    | ItemLocked(op: Op, leaf: Leaf)
    | Published(op: Op)
    | Lost(op: Op)
    | Mismatched(op: Op)
    // a fresh key: entry creation under the stripe lock
    | StripeWait(op: Op, leaf: Leaf)
    | StripeLocked(op: Op, leaf: Leaf)
    | Created(op: Op, raced: Option<Sid>)
    // rolling back, and removing a replaced or reserved item
    | GivingUp(own: Sid, wait: Wait, left: nat)
    | Unpinned(seg: Sid, wait: Wait, left: nat)
    | OwnCounted(seg: Sid, wait: Wait, left: nat)
    | Removing(seg: Sid, wait: Wait, left: nat)
    | Removed(wait: Wait, left: nat)
    | Waiting(seg: Sid, gen: nat)
    // a delete
    | Deleting(key: KeyId, seg: Sid, seen: nat, left: nat)
    | DeleteCounted(key: KeyId, seg: Sid, seen: nat, left: nat)
    | DeletePinned(key: KeyId, seg: Sid, seen: nat, left: nat)
    | DeleteBare(key: KeyId, seen: nat)
    // evicting, merging, expiring or extending a chain
    | EvictionWait(target: nat, freed: nat)
    | WantLock(bucket: Bucket, job: Job)
    | Locked(bucket: Bucket, dest: Option<Sid>, job: Job)
    | AwaitWriters(bucket: Bucket, src: Sid, dest: Option<Sid>, job: Job)
    | AwaitRemovers(bucket: Bucket, src: Sid, dest: Option<Sid>, job: Job)
    | Sweeping(bucket: Bucket, src: Sid, dest: Option<Sid>, job: Job)
    | CopyWait(bucket: Bucket, src: Sid, dest: Option<Sid>, job: Job, leaf: Leaf)
    | Copying(bucket: Bucket, src: Sid, dest: Option<Sid>, job: Job, leaf: Leaf)
    // updating a counter in place
    | CountWait(leaf: Leaf)
    | Counting(leaf: Leaf)
  {
    /** The insert or `cas` under way while it holds its reservation. */
    function Doing(): Option<Op> {
      match this
      case WriterCounted(op) => Some(op)
      case Reserved(op) => Some(op)
      case RemoverCounted(op) => Some(op)
      case Refused(op) => Some(op)
      case BothPinned(op) => Some(op)
      case ItemWait(op, _) => Some(op)
      case ItemLocked(op, _) => Some(op)
      case Published(op) => Some(op)
      case Lost(op) => Some(op)
      case Mismatched(op) => Some(op)
      case StripeWait(op, _) => Some(op)
      case StripeLocked(op, _) => Some(op)
      case Created(op, _) => Some(op)
      case _ => None
    }

    /** The segment whose writer count includes this thread. */
    function Writes(): Option<Sid> {
      if Doing().Some? then Some(Doing().value.own) else if GivingUp? then Some(own) else None
    }

    /** The segment whose remover count includes this thread. */
    function Removes(): Option<Sid> {
      match this
      case RemoverCounted(op) => Some(op.other)
      case BothPinned(op) => Some(op.other)
      case ItemWait(op, _) => Some(op.other)
      case ItemLocked(op, _) => Some(op.other)
      case Published(op) => Some(op.other)
      case Lost(op) => Some(op.other)
      case Mismatched(op) => Some(op.other)
      case OwnCounted(c, _, _) => Some(c)
      case Removing(c, _, _) => Some(c)
      case DeleteCounted(_, c, _, _) => Some(c)
      case DeletePinned(_, c, _, _) => Some(c)
      case _ => None
    }

    /** The chain lock this thread holds. */
    function Chain(): Option<Bucket> {
      match this
      case Locked(b, _, _) => Some(b)
      case AwaitWriters(b, _, _, _) => Some(b)
      case AwaitRemovers(b, _, _, _) => Some(b)
      case Sweeping(b, _, _, _) => Some(b)
      case CopyWait(b, _, _, _, _) => Some(b)
      case Copying(b, _, _, _, _) => Some(b)
      case _ => None
    }

    /** The segment this thread is draining. */
    function Source(): Option<Sid> {
      match this
      case AwaitWriters(_, c, _, _) => Some(c)
      case AwaitRemovers(_, c, _, _) => Some(c)
      case Sweeping(_, c, _, _) => Some(c)
      case CopyWait(_, c, _, _, _) => Some(c)
      case Copying(_, c, _, _, _) => Some(c)
      case _ => None
    }

    /** The segment this thread is filling. */
    function Target(): Option<Sid> { if Chain().Some? then this.dest else None }

    /** This thread counts as a running eviction. */
    predicate Evicts() { (WantLock? || Chain().Some?) && this.job.evict }

    /** The item version lock or insert stripe this thread holds. */
    function Leaf(): Option<Leaf> {
      match this
      case ItemLocked(_, l) => Some(l)
      case StripeLocked(_, l) => Some(l)
      case Copying(_, _, _, _, l) => Some(l)
      case Counting(l) => Some(l)
      case _ => None
    }

    /** Another segment this thread is going to pin. */
    function Names(): Option<Sid> {
      match this
      case Examined(op) => Some(op.other)
      case WriterCounted(op) => if op.cas then Some(op.other) else None
      case Reserved(op) => if op.cas then Some(op.other) else None
      case Refused(op) => if op.cas then Some(op.other) else None
      case Created(_, raced) => raced
      case Unpinned(c, _, _) => Some(c)
      case Deleting(_, c, _, _) => Some(c)
      case _ => None
    }

    /** The leaf lock this thread waits for. */
    function WantsLeaf(): Option<Leaf> {
      match this
      case ItemWait(_, l) => Some(l)
      case StripeWait(_, l) => Some(l)
      case CopyWait(_, _, _, _, l) => Some(l)
      case CountWait(l) => Some(l)
      case _ => None
    }
  }

  /**
   * Segments, the hash table, the holders of chain locks and of leaf locks, the
   * threads, and the counts of evictions started, finished and segments freed.
   */
  datatype State = State(segs: map<Sid, Seg>, table: map<KeyId, Entry>, chains: map<Bucket, Tid>,
                         leaves: map<Leaf, Tid>, threads: map<Tid, Pc>, started: nat, finished: nat, freed: nat)
  {
    function At(t: Tid, pc: Pc): State { this.(threads := threads[t := pc]) }

    function InPhase(c: Sid, phase: Phase): State
      requires c in segs
    {
      this.(segs := segs[c := segs[c].(phase := phase)])
    }

    /** The incarnation of `c` ends. */
    function Recycle(c: Sid): State
      requires c in segs
    {
      this.(segs := segs[c := segs[c].(phase := Free, gen := segs[c].gen + 1)], freed := freed + 1)
    }

    function PinWriter(c: Sid): State
      requires c in segs
    {
      this.(segs := segs[c := segs[c].(writers := segs[c].writers + 1)])
    }

    function DropWriter(c: Sid): State
      requires c in segs && segs[c].writers > 0
    {
      this.(segs := segs[c := segs[c].(writers := segs[c].writers - 1)])
    }

    function PinRemover(c: Sid): State
      requires c in segs
    {
      this.(segs := segs[c := segs[c].(removers := segs[c].removers + 1)])
    }

    function DropRemover(c: Sid): State
      requires c in segs && segs[c].removers > 0
    {
      this.(segs := segs[c := segs[c].(removers := segs[c].removers - 1)])
    }

    function TakeLeaf(l: Leaf, t: Tid): State { this.(leaves := leaves[l := t]) }

    function DropLeaf(l: Leaf): State { this.(leaves := leaves - {l}) }

    function EntryOf(x: KeyId): Entry { if x in table then table[x] else Entry(None, 0) }

    function Changes(x: KeyId): nat { EntryOf(x).changes }

    /** The entry of `x` is exchanged. */
    function Exchange(x: KeyId, seg: Option<Sid>): State { this.(table := table[x := Entry(seg, Changes(x) + 1)]) }

    /** Every entry that names `c` is unlinked. */
    function Sweep(c: Sid): State {
      this.(table := map x | x in table ::
        if table[x].seg == Some(c) then Entry(None, table[x].changes + 1) else table[x])
    }
  }

  ghost predicate Init(s: State) {
    && s.chains == map[] && s.leaves == map[] && s.started == s.finished
    && (forall c | c in s.segs :: s.segs[c].writers == 0 && s.segs[c].removers == 0 && !s.segs[c].phase.Busy())
    && (forall x | x in s.table :: s.table[x].seg.Some? ==> s.table[x].seg.value in s.segs)
    && forall t | t in s.threads :: s.threads[t] == Idle
  }

  // ----- Steps -----

  ghost predicate Drops(s: State, c: Sid) { c in s.segs && s.segs[c].writers > 0 }

  ghost predicate DropsRemover(s: State, c: Sid) { c in s.segs && s.segs[c].removers > 0 }

  /** What an operation does after its rollback or removal. */
  function After(wait: Wait): Pc { if wait.NoWait? then Idle else Waiting(wait.seg, wait.gen) }

  /** The location cannot be pinned for reading: its segment is not readable, or its incarnation is gone. */
  ghost predicate Unverifiable(s: State, c: Sid, gen: nat) {
    c in s.segs && (!s.segs[c].phase.Readable() || s.segs[c].gen != gen)
  }

  /** A new attempt; or the last reader of a condemned segment lets go. */
  ghost predicate Start(s: State, s': State, t: Tid) {
    && t in s'.threads
    && var pc' := s'.threads[t];
       match pc'
       case Examined(op) => op.cas && s.EntryOf(op.key) == Entry(Some(op.other), op.seen) && s' == s.At(t, pc')
       case WriterCounted(op) =>
         !op.cas && op.own in s.segs && op.seen == s.Changes(op.key)
         && s' == s.PinWriter(op.own).At(t, WriterCounted(op))
       case Deleting(x, c, seen, _) => s.EntryOf(x) == Entry(Some(c), seen) && s' == s.At(t, pc')
       case WantLock(_, job) =>
         job.wait.NoWait? && s' == s.(started := s.started + if job.evict then 1 else 0).At(t, pc')
       case EvictionWait(target, _) => target == s.started && s' == s.At(t, pc')
       case CountWait(_) => s' == s.At(t, pc')
       case Idle => exists c :: c in s.segs && s.segs[c].phase.Condemned? && s' == s.Recycle(c)
       case _ => false
  }

  /** Looking the key up: a candidate cannot be verified, there is no entry, or the entry is found. */
  ghost predicate LookupStep(s: State, s': State, t: Tid, op: Op) {
    && t in s'.threads
    && var looked := op.(seen := s.Changes(op.key));
       match s'.threads[t]
       case GivingUp(f, w, left) =>
         && f == op.own && left == op.left && w.WaitFor? && Unverifiable(s, w.seg, w.gen)
         && s' == s.At(t, GivingUp(f, w, left))
       case StripeWait(op', l) => s.EntryOf(op.key).seg == None && op' == looked && s' == s.At(t, StripeWait(op', l))
       case RemoverCounted(op') =>
         && op'.other in s.segs && s.segs[op'.other].phase.Readable()
         && s.EntryOf(op.key).seg == Some(op'.other)
         && op' == looked.(other := op'.other, gen := s.segs[op'.other].gen)
         && s' == s.PinRemover(op'.other).At(t, RemoverCounted(op'))
       case _ => false
  }

  ghost predicate ReserveStep(s: State, s': State, t: Tid)
    requires t in s.threads
  {
    match s.threads[t]
    case Examined(op) =>
      s' == s.At(t, Idle) || exists f :: f in s.segs && s' == s.PinWriter(f).At(t, WriterCounted(op.(own := f)))
    case WriterCounted(op) =>
      && Drops(s, op.own)
      && s' == if s.segs[op.own].phase.Live? then s.At(t, Reserved(op)) else s.DropWriter(op.own).At(t, Idle)
    case Reserved(op) =>
      if op.cas then op.other in s.segs && s' == s.PinRemover(op.other).At(t, RemoverCounted(op))
      else LookupStep(s, s', t, op)
    case RemoverCounted(op) =>
      && DropsRemover(s, op.other)
      && s' == if s.segs[op.other].phase.Removable() then s.At(t, BothPinned(op))
               else s.DropRemover(op.other).At(t, Refused(op))
    case Refused(op) =>
      // roll back if the entry is in the reservation's own segment or the backoff is spent, else retry
      if op.cas then
        || ((!Unchanged(s, op) || op.other == op.own || op.n == 0) && s' == s.At(t, GivingUp(op.own, NoWait, op.left)))
        || (Matches(s, op) && op.other != op.own && op.n > 0 && s' == s.At(t, Reserved(op.(n := op.n - 1))))
      else if op.other == op.own || op.n == 0 then
        s' == s.At(t, GivingUp(op.own, WaitFor(op.other, op.gen), op.left))
      else s' == s.At(t, Reserved(op.(n := op.n - 1)))
    case _ => false
  }

  ghost predicate Unchanged(s: State, op: Op) { s.Changes(op.key) == op.seen }

  /** The entry has not changed since the thread looked, or it may have come back to the same location. */
  ghost predicate Matches(s: State, op: Op) { Unchanged(s, op) || s.EntryOf(op.key).seg == Some(op.other) }

  /** The exchange of the entry fails only if the entry has changed since the thread looked. */
  ghost predicate TryPublish(s: State, s': State, t: Tid, op: Op) {
    || (Matches(s, op) && s' == s.Exchange(op.key, Some(op.own)).At(t, Published(op)))
    || (!Unchanged(s, op) && s' == s.At(t, Lost(op)))
  }

  ghost predicate PublishStep(s: State, s': State, t: Tid)
    requires t in s.threads
  {
    match s.threads[t]
    case BothPinned(op) =>
      || (op.cas && (s' == s.At(t, Mismatched(op)) || exists l :: s' == s.At(t, ItemWait(op, l))))
      || TryPublish(s, s', t, op)
    case ItemWait(op, l) => l !in s.leaves && s' == s.TakeLeaf(l, t).At(t, ItemLocked(op, l))
    case ItemLocked(op, l) => s' == s.DropLeaf(l).At(t, Mismatched(op)) || TryPublish(s.DropLeaf(l), s', t, op)
    case Published(op) => Drops(s, op.own) && s' == s.DropWriter(op.own).At(t, Removing(op.other, NoWait, op.left))
    case Lost(op) =>
      && DropsRemover(s, op.other)
      && s' == s.DropRemover(op.other).At(t, if op.cas then GivingUp(op.own, NoWait, op.left)
                                             else Reserved(op.(seen := s.Changes(op.key))))
    case Mismatched(op) =>
      DropsRemover(s, op.other) && s' == s.DropRemover(op.other).At(t, GivingUp(op.own, NoWait, op.left))
    case _ => false
  }

  /** There is no entry to replace, or it can be verified. */
  ghost predicate Replaceable(s: State, seg: Option<Sid>) {
    seg.Some? ==> seg.value in s.segs && s.segs[seg.value].phase.Readable()
  }

  ghost predicate CreateStep(s: State, s': State, t: Tid)
    requires t in s.threads
  {
    match s.threads[t]
    case StripeWait(op, l) => l !in s.leaves && s' == s.TakeLeaf(l, t).At(t, StripeLocked(op, l))
    case StripeLocked(op, l) =>
      // the entry is created or replaced, the table is full, or a candidate cannot be verified
      || s' == s.DropLeaf(l).At(t, GivingUp(op.own, NoWait, op.left))
      || (exists c, g :: Unverifiable(s, c, g) && s' == s.DropLeaf(l).At(t, GivingUp(op.own, WaitFor(c, g), op.left)))
      || (&& Replaceable(s, s.EntryOf(op.key).seg)
          && s' == s.DropLeaf(l).Exchange(op.key, Some(op.own)).At(t, Created(op, s.EntryOf(op.key).seg)))
    case Created(op, raced) =>
      && Drops(s, op.own)
      && s' == s.DropWriter(op.own).At(t, if raced.Some? then Unpinned(raced.value, NoWait, op.left) else Idle)
    case _ => false
  }

  ghost predicate RemoveStep(s: State, s': State, t: Tid)
    requires t in s.threads
  {
    match s.threads[t]
    case GivingUp(f, w, left) => Drops(s, f) && s' == s.DropWriter(f).At(t, Unpinned(f, w, left))
    case Unpinned(c, w, left) => c in s.segs && s' == s.PinRemover(c).At(t, OwnCounted(c, w, left))
    case OwnCounted(c, w, left) =>
      && DropsRemover(s, c)
      && s' == if s.segs[c].phase.Removable() then s.At(t, Removing(c, w, left)) else s.DropRemover(c).At(t, After(w))
    case Removing(c, w, left) => DropsRemover(s, c) && s' == s.DropRemover(c).At(t, Removed(w, left))
    case Removed(w, left) => s' == s.At(t, After(w)) || exists b :: s' == s.At(t, WantLock(b, Job(w, false, left)))
    case Waiting(c, g) => !StillBusy(s, c, g) && s' == s.At(t, Idle)
    case _ => false
  }

  ghost predicate DeleteStep(s: State, s': State, t: Tid)
    requires t in s.threads
  {
    match s.threads[t]
    case Deleting(x, c, seen, left) => c in s.segs && s' == s.PinRemover(c).At(t, DeleteCounted(x, c, seen, left))
    case DeleteCounted(x, c, seen, left) =>
      && DropsRemover(s, c)
      && s' == if s.segs[c].phase.Removable() then s.At(t, DeletePinned(x, c, seen, left))
               else s.DropRemover(c).At(t, DeleteBare(x, seen))
    case DeletePinned(x, c, seen, left) =>
      && DropsRemover(s, c)
      && s' == if s.Changes(x) == seen then s.Exchange(x, None).At(t, Removing(c, NoWait, left))
               else s.DropRemover(c).At(t, Idle)
    case DeleteBare(x, seen) =>
      s' == if s.Changes(x) == seen then s.Exchange(x, None).At(t, Idle) else s.At(t, Idle)
    case _ => false
  }

  /** The incarnation waited for is still being drained or filled. */
  ghost predicate StillBusy(s: State, c: Sid, g: nat) {
    c in s.segs && s.segs[c].gen == g && s.segs[c].phase.Busy()
  }

  /** A reserved segment becomes the tail of a chain; the full tail before it, if any, is sealed. */
  ghost predicate Extends(s: State, s': State) {
    exists d :: d in s.segs && s.segs[d].phase.Free? && (s' == s.InPhase(d, Live) || SealsTail(s, s', d))
  }

  ghost predicate SealsTail(s: State, s': State, d: Sid)
    requires d in s.segs
  {
    exists c :: c in s.segs && s.segs[c].phase.Live? && s' == s.InPhase(c, Sealed).InPhase(d, Live)
  }

  function Less(job: Job): Job
    requires job.left > 0
  {
    job.(left := job.left - 1)
  }

  ghost predicate Claims(s: State, s': State, t: Tid, b: Bucket, c: Sid, dest: Option<Sid>, job: Job) {
    && job.left > 0 && c in s.segs && s.segs[c].phase.Removable()
    && s' == s.InPhase(c, Draining).At(t, AwaitWriters(b, c, dest, Less(job)))
  }

  /** A reserved segment takes the place of the drained one, as the destination of its copies. */
  ghost predicate Links(s: State, s': State, t: Tid, b: Bucket, c: Sid, d: Sid, job: Job) {
    && job.left > 0 && d in s.segs && s.segs[d].phase.Free?
    && s' == s.InPhase(d, Relinking).At(t, Sweeping(b, c, Some(d), Less(job)))
  }

  /** The chain lock is released; an eviction that goes on to another bucket has not finished. */
  ghost predicate Unlocks(s: State, s': State, t: Tid, b: Bucket, job: Job) {
    var freed := s.(chains := s.chains - {b});
    || s' == freed.(finished := s.finished + if job.evict then 1 else 0).At(t, After(job.wait))
    || (job.left > 0 && exists b' :: s' == freed.At(t, WantLock(b', Less(job))))
  }

  ghost predicate LockedStep(s: State, s': State, t: Tid, b: Bucket, dest: Option<Sid>, job: Job) {
    // claim a segment; extend the chain; seal the copy destination; leave
    || (exists c :: Claims(s, s', t, b, c, dest, job))
    || (job.left > 0 && exists s1 :: Extends(s, s1) && s' == s1.At(t, Locked(b, dest, Less(job))))
    || (dest.Some? && dest.value in s.segs && s' == s.InPhase(dest.value, Sealed).At(t, Locked(b, None, job)))
    || (dest.None? && Unlocks(s, s', t, b, job))
  }

  ghost predicate SweepStep(s: State, s': State, t: Tid, b: Bucket, c: Sid, dest: Option<Sid>, job: Job) {
    && c in s.segs && t in s'.threads
    && match s'.threads[t]
       // link a copy destination, or seal it
       case Sweeping(_, _, d, _) =>
         if dest.None? then d.Some? && Links(s, s', t, b, c, d.value, job)
         else dest.value in s.segs && s' == s.InPhase(dest.value, Sealed).At(t, Sweeping(b, c, None, job))
       // copy an item
       case CopyWait(_, _, _, _, l) => dest.Some? && job.left > 0 && s' == s.At(t, CopyWait(b, c, dest, Less(job), l))
       // sweep the entries and finish
       case Locked(_, _, _) =>
         || s' == s.Recycle(c).Sweep(c).At(t, Locked(b, dest, job))
         || s' == s.InPhase(c, Condemned).Sweep(c).At(t, Locked(b, dest, job))
       case _ => false
  }

  ghost predicate ChainStep(s: State, s': State, t: Tid)
    requires t in s.threads
  {
    match s.threads[t]
    case EvictionWait(target, freed) => (s.finished >= target || s.freed != freed) && s' == s.At(t, Idle)
    case WantLock(b, job) => b !in s.chains && s' == s.(chains := s.chains[b := t]).At(t, Locked(b, None, job))
    case Locked(b, dest, job) => LockedStep(s, s', t, b, dest, job)
    case AwaitWriters(b, c, dest, job) =>
      c in s.segs && s.segs[c].writers == 0 && s' == s.At(t, AwaitRemovers(b, c, dest, job))
    case AwaitRemovers(b, c, dest, job) =>
      c in s.segs && s.segs[c].removers == 0 && s' == s.At(t, Sweeping(b, c, dest, job))
    case Sweeping(b, c, dest, job) => SweepStep(s, s', t, b, c, dest, job)
    case CopyWait(b, c, dest, job, l) => l !in s.leaves && s' == s.TakeLeaf(l, t).At(t, Copying(b, c, dest, job, l))
    case Copying(b, c, dest, job, l) =>
      || s' == s.DropLeaf(l).At(t, Sweeping(b, c, dest, job))
      || (exists x :: s.EntryOf(x).seg == Some(c) &&
                    s' == s.DropLeaf(l).Exchange(x, dest).At(t, Sweeping(b, c, dest, job)))
    case _ => false
  }

  ghost predicate CountStep(s: State, s': State, t: Tid)
    requires t in s.threads
  {
    match s.threads[t]
    case CountWait(l) => l !in s.leaves && s' == s.TakeLeaf(l, t).At(t, Counting(l))
    case Counting(l) => s' == s.DropLeaf(l).At(t, Idle)
    case _ => false
  }

  ghost predicate Step(s: State, s': State, t: Tid) {
    && t in s.threads
    && if s.threads[t].Idle? then Start(s, s', t)
       else || ReserveStep(s, s', t) || PublishStep(s, s', t) || CreateStep(s, s', t) || RemoveStep(s, s', t)
            || DeleteStep(s, s', t) || ChainStep(s, s', t) || CountStep(s, s', t)
  }
}
