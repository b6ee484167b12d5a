/**
 * The version word of a numeric item as a lock for writers and a validity
 * check for readers: every load, store and compare-and-swap is one step of one
 * of any number of threads. The checksum function is arbitrary.
 */
module SeqLock {
  import opened Bytes
  import opened Wrappers

  type Checksum = u64 -> u32
  type Op = u64 -> u64
  type Tid = nat

  /** Where a thread is. `v` is the even version seen when the lock was taken. */
  datatype Pc =
    | Idle
    // a writer taking the lock
    | Spin(op: Op)
    | Loaded(op: Op, v: u64)
    // a writer holding the lock
    | Locked(op: Op, v: u64)
    | Computed(op: Op, v: u64, next: u64)
    | ValueStored(op: Op, v: u64, next: u64)
    | CrcStored(op: Op, v: u64, next: u64)
    | Acked(op: Op, next: u64, n: nat)
    // a lock holder copying the item instead of updating it
    | Copying(op: Op, v: u64, value: u64)
    | Copied(op: Op, v: u64, value: u64, crc: u32)
    // a reader; `since` and `at` number the update current at its start and at its first load
    | Reading(since: nat)
    | GotVersion(since: nat, at: nat, v1: u64)
    | GotValue(since: nat, at: nat, v1: u64, value: u64)
    | GotCrc(since: nat, at: nat, v1: u64, value: u64, crc: u32)
    | Returned(since: nat, at: nat, value: u64, crc: u32)
  {
    predicate Holds() {
      Locked? || Computed? || ValueStored? || CrcStored? || Copying? || Copied?
    }
  }

  /** A relocated copy of the item, stamped with a version. */
  datatype Copy = Copy(version: u64, value: u64, crc: u32)

  /** What a call that updated the item returned: its update, the value it was told, and its place in the log. */
  datatype Ack = Ack(op: Op, next: u64, n: nat)

  /**
   * The item's three words, the threads, the copies made, and what has happened:
   * `history` holds every completed value, `log` the updates between them, and
   * `returned` the acknowledgements of the calls that are over.
   */
  datatype State = State(word: u64, value: u64, crc: u32, threads: map<Tid, Pc>, copies: seq<Copy>,
                         holder: Option<Tid>, history: seq<u64>, log: seq<Op>, returned: seq<Ack>)
  {
    function At(t: Tid, pc: Pc): State { this.(threads := threads[t := pc]) }

    function Last(): u64
      requires history != []
    {
      history[|history| - 1]
    }
  }

  function Plus(word: u64, n: nat): u64 { (word + n) % TWO_64 }

  ghost predicate Init(f: Checksum, s: State) {
    && s.word == 0 && s.crc == f(s.value) && s.copies == [] && s.holder == None
    && s.history == [s.value] && s.log == [] && s.returned == []
    && forall t | t in s.threads :: s.threads[t] == Idle
  }

  // ----- Steps -----

  ghost predicate Begin(s: State, s': State, t: Tid) {
    && t in s'.threads && s' == s.At(t, s'.threads[t])
    && (s'.threads[t].Spin? || s'.threads[t] == Reading(|s.history|))
  }

  ghost predicate TakeLock(s: State, s': State, t: Tid)
    requires t in s.threads && (s.threads[t].Spin? || s.threads[t].Loaded?)
  {
    match s.threads[t]
    case Spin(op) => s' == if s.word % 2 == 1 then s else s.At(t, Loaded(op, s.word))
    case Loaded(op, v) =>
      // the exchange succeeds, or it fails (possibly for no reason) and sees the word
      || (s.word == v && s' == s.(word := Plus(v, 1), holder := Some(t)).At(t, Locked(op, v)))
      || s' == s.At(t, if s.word % 2 == 1 then Spin(op) else Loaded(op, s.word))
  }

  ghost predicate UseLock(f: Checksum, s: State, s': State, t: Tid)
    requires t in s.threads && s.threads[t].Holds()
  {
    match s.threads[t]
    case Locked(op, v) =>
      || s' == s.At(t, Computed(op, v, op(s.value)))
      || s' == s.(word := v, holder := None).At(t, Idle)
      || s' == s.At(t, Copying(op, v, s.value))
    case Computed(op, v, next) => s' == s.(value := next).At(t, ValueStored(op, v, next))
    case ValueStored(op, v, next) => s' == s.(crc := f(next)).At(t, CrcStored(op, v, next))
    case CrcStored(op, v, next) =>
      s' == s.(word := Plus(v, 2), holder := None, history := s.history + [next], log := s.log + [op])
             .At(t, Acked(op, next, |s.history|))
    case Copying(op, v, value) => s' == s.At(t, Copied(op, v, value, s.crc))
    case Copied(op, v, value, crc) =>
      s' == s.(copies := s.copies + [Copy(v, value, crc)]).At(t, Locked(op, v))
  }

  ghost predicate Read(s: State, s': State, t: Tid)
    requires t in s.threads
    requires (s.threads[t].Reading? || s.threads[t].GotVersion? || s.threads[t].GotValue? || s.threads[t].GotCrc?)
  {
    match s.threads[t]
    case Reading(since) =>
      s' == if s.word % 2 == 1 then s else s.At(t, GotVersion(since, |s.history|, s.word))
    case GotVersion(since, at, v1) => s' == s.At(t, GotValue(since, at, v1, s.value))
    case GotValue(since, at, v1, value) => s' == s.At(t, GotCrc(since, at, v1, value, s.crc))
    case GotCrc(since, at, v1, value, crc) =>
      s' == s.At(t, if s.word == v1 then Returned(since, at, value, crc) else Reading(since))
  }

  ghost predicate Step(f: Checksum, s: State, s': State, t: Tid) {
    && t in s.threads
    && match s.threads[t]
       case Idle => Begin(s, s', t)
       case Spin(_) => TakeLock(s, s', t)
       case Loaded(_, _) => TakeLock(s, s', t)
       case Acked(op, next, n) => s' == s.(returned := s.returned + [Ack(op, next, n)]).At(t, Idle)
       case Returned(_, _, _, _) => s' == s.At(t, Idle)
       case Reading(_) => Read(s, s', t)
       case GotVersion(_, _, _) => Read(s, s', t)
       case GotValue(_, _, _, _) => Read(s, s', t)
       case GotCrc(_, _, _, _, _) => Read(s, s', t)
       case _ => UseLock(f, s, s', t)
  }

  // ----- Invariant -----

  /** The version word after `n` completed updates, unlocked. */
  function EvenWord(n: nat): u64 { (2 * n) % TWO_64 }

  ghost predicate DirtyValue(s: State) {
    s.holder.Some? && s.holder.value in s.threads
    && (s.threads[s.holder.value].ValueStored? || s.threads[s.holder.value].CrcStored?)
  }

  ghost predicate DirtyCrc(s: State) {
    s.holder.Some? && s.holder.value in s.threads && s.threads[s.holder.value].CrcStored?
  }

  ghost predicate Base(f: Checksum, s: State) {
    && s.history != [] && |s.log| == |s.history| - 1
    && (forall i | 0 <= i < |s.log| :: s.history[i + 1] == s.log[i](s.history[i]))
    && s.word == Plus(EvenWord(|s.log|), if s.holder.Some? then 1 else 0)
    && (s.holder.Some? ==> s.holder.value in s.threads && s.threads[s.holder.value].Holds())
    && (!DirtyValue(s) ==> s.value == s.Last())
    && (!DirtyCrc(s) ==> s.crc == f(s.Last()))
  }

  ghost predicate HolderOk(f: Checksum, s: State, t: Tid)
    requires t in s.threads && s.threads[t].Holds() && s.history != []
  {
    var pc := s.threads[t];
    && s.holder == Some(t) && pc.v == EvenWord(|s.log|)
    && (pc.Computed? || pc.ValueStored? || pc.CrcStored? ==> pc.next == pc.op(s.Last()))
    && (pc.ValueStored? || pc.CrcStored? ==> s.value == pc.next)
    && (pc.CrcStored? ==> s.crc == f(pc.next))
    && (pc.Copying? || pc.Copied? ==> pc.value == s.Last())
    && (pc.Copied? ==> pc.crc == f(s.Last()))
  }

  ghost predicate InPast(s: State, since: nat, at: nat) { 1 <= since <= at <= |s.history| }

  /** The update is entry `n` of the log, and its result the value right after it. */
  ghost predicate AckIn(s: State, ack: Ack) {
    && 1 <= ack.n < |s.history| && |s.log| == |s.history| - 1
    && s.log[ack.n - 1] == ack.op && s.history[ack.n] == ack.next
  }

  /** Thread `t` is about to return the acknowledgement of log entry `n`. */
  ghost predicate Pending(s: State, t: Tid, n: nat) { t in s.threads && s.threads[t].Acked? && s.threads[t].n == n }

  /** The acknowledgement of log entry `n` has been returned. */
  ghost predicate Done(s: State, i: nat, n: nat) { i < |s.returned| && s.returned[i].n == n }

  ghost predicate Acknowledged(s: State, n: nat) { (exists t :: Pending(s, t, n)) || (exists i :: Done(s, i, n)) }

  /** Every log entry has exactly one acknowledgement. */
  ghost predicate OneAckEach(s: State) {
    && (forall n, t, u | Pending(s, t, n) && Pending(s, u, n) :: t == u)
    && (forall n, i, j | Done(s, i, n) && Done(s, j, n) :: i == j)
    && (forall n, t, i | Pending(s, t, n) :: !Done(s, i, n))
    && (forall n | 1 <= n <= |s.log| :: Acknowledged(s, n))
  }

  ghost predicate Acks(s: State) {
    && OneAckEach(s)
    && forall i | 0 <= i < |s.returned| :: AckIn(s, s.returned[i])
  }

  ghost predicate ThreadOk(f: Checksum, s: State, t: Tid)
    requires t in s.threads && s.history != []
  {
    match s.threads[t]
    case Idle => true
    case Spin(_) => true
    case Loaded(_, v) => v % 2 == 0
    case Acked(op, next, n) => AckIn(s, Ack(op, next, n))
    case Reading(since) => 1 <= since <= |s.history|
    case GotVersion(since, at, v1) => InPast(s, since, at) && v1 == EvenWord(at - 1)
    case GotValue(since, at, v1, value) =>
      && InPast(s, since, at) && v1 == EvenWord(at - 1)
      && (at == |s.history| && !DirtyValue(s) ==> value == s.Last())
    case GotCrc(since, at, v1, value, crc) =>
      && InPast(s, since, at) && v1 == EvenWord(at - 1)
      && (at == |s.history| && !DirtyValue(s) ==> value == s.Last())
      && (at == |s.history| && !DirtyCrc(s) ==> crc == f(s.Last()))
    case Returned(since, at, value, crc) =>
      InPast(s, since, at) && value == s.history[at - 1] && crc == f(value)
    case _ => HolderOk(f, s, t)
  }

  /** A copy carries an even version and the value and checksum that version had. */
  ghost predicate CopyOk(f: Checksum, s: State, copy: Copy) {
    exists n :: 0 <= n < |s.history| && copy == Copy(EvenWord(n), s.history[n], f(s.history[n]))
  }

  ghost predicate Inv(f: Checksum, s: State) {
    && Base(f, s)
    && (forall t | t in s.threads :: ThreadOk(f, s, t))
    && (forall i | 0 <= i < |s.copies| :: CopyOk(f, s, s.copies[i]))
    && Acks(s)
  }

  /** No reader sleeps through so many updates that the version word wraps. */
  ghost predicate NoWrap(s: State) {
    forall t | t in s.threads && s.threads[t].GotCrc? :: |s.history| - s.threads[t].at < TWO_64 / 2
  }

  lemma WordTells(n: nat, m: nat, odd: nat)
    requires n <= m && m - n < TWO_64 / 2 && odd <= 1
    ensures Plus(EvenWord(m), odd) == EvenWord(n) <==> n == m && odd == 0
  {
    assert (2 * m) % TWO_64 == (2 * n + 2 * (m - n)) % TWO_64;
  }

  lemma WordParity(n: nat, odd: nat)
    requires odd <= 1
    ensures Plus(EvenWord(n), odd) % 2 == odd && Plus(EvenWord(n), 2) == EvenWord(n + 1)
  {
  }

  /** What a step can do to the words as seen by a thread that does not hold the lock. */
  ghost predicate Effect(f: Checksum, s: State, s': State) {
    && s'.history != [] && |s'.log| == |s'.history| - 1
    && s.history <= s'.history && s.log <= s'.log
    && (|s'.history| == |s.history| && !DirtyValue(s') ==> !DirtyValue(s) && s'.value == s.value)
    && (|s'.history| == |s.history| && !DirtyCrc(s') ==> !DirtyCrc(s) && s'.crc == s.crc)
  }

  /** Other threads hold no lock, and what they saw stays true of the past. */
  lemma OthersKept(f: Checksum, s: State, s': State, u: Tid)
    requires Base(f, s) && Effect(f, s, s')
    requires u in s.threads && u in s'.threads && s'.threads[u] == s.threads[u]
    requires ThreadOk(f, s, u) && !s.threads[u].Holds()
    ensures ThreadOk(f, s', u)
  {
  }

  lemma BeginKept(f: Checksum, s: State, s': State, t: Tid)
    requires Inv(f, s) && t in s.threads && !s.threads[t].Holds() && Begin(s, s', t)
    ensures Base(f, s') && ThreadOk(f, s', t) && Effect(f, s, s')
  {
    assert ThreadOk(f, s, t);
  }

  lemma TakeLockKept(f: Checksum, s: State, s': State, t: Tid)
    requires Inv(f, s) && t in s.threads && (s.threads[t].Spin? || s.threads[t].Loaded?) && TakeLock(s, s', t)
    ensures Base(f, s') && ThreadOk(f, s', t) && Effect(f, s, s')
    ensures s'.threads[t].Holds() ==> s.holder == None
  {
    assert ThreadOk(f, s, t);
    WordParity(|s.log|, 0);
    WordParity(|s.log|, 1);
    if s'.threads[t].Locked? {
      assert s.holder == None;
      assert s'.word == Plus(EvenWord(|s.log|), 1);
    }
  }

  lemma UseLockKept(f: Checksum, s: State, s': State, t: Tid)
    requires Inv(f, s) && t in s.threads && s.threads[t].Holds() && UseLock(f, s, s', t)
    ensures Base(f, s') && ThreadOk(f, s', t) && Effect(f, s, s')
  {
    assert ThreadOk(f, s, t);
    match s.threads[t]
    case Locked(op, v) => WordParity(|s.log|, 0); LockedKept(f, s, s', t);
    case Computed(op, v, next) =>
    case ValueStored(op, v, next) =>
    case CrcStored(op, v, next) => UnlockKept(f, s, s', t);
    case Copying(op, v, value) =>
    case Copied(op, v, value, crc) =>
  }

  lemma LockedKept(f: Checksum, s: State, s': State, t: Tid)
    requires Inv(f, s) && t in s.threads && s.threads[t].Locked? && UseLock(f, s, s', t)
    ensures Base(f, s') && ThreadOk(f, s', t) && Effect(f, s, s')
  {
    assert ThreadOk(f, s, t);
    assert Plus(EvenWord(|s.log|), 0) == EvenWord(|s.log|);
  }

  lemma UnlockKept(f: Checksum, s: State, s': State, t: Tid)
    requires Inv(f, s) && t in s.threads && s.threads[t].CrcStored? && UseLock(f, s, s', t)
    ensures Base(f, s') && ThreadOk(f, s', t) && Effect(f, s, s')
  {
    assert ThreadOk(f, s, t);
    var pc := s.threads[t];
    WordParity(|s.log|, 0);
    assert s'.word == EvenWord(|s'.log|) == Plus(EvenWord(|s'.log|), 0);
    assert s'.Last() == pc.next;
    forall i | 0 <= i < |s'.log| ensures s'.history[i + 1] == s'.log[i](s'.history[i]) {
      if i < |s.log| { assert s.history[i + 1] == s.log[i](s.history[i]); }
    }
  }

  lemma ReadKept(f: Checksum, s: State, s': State, t: Tid)
    requires Inv(f, s) && NoWrap(s) && t in s.threads
    requires (s.threads[t].Reading? || s.threads[t].GotVersion? || s.threads[t].GotValue? || s.threads[t].GotCrc?)
    requires Read(s, s', t)
    ensures Base(f, s') && ThreadOk(f, s', t) && Effect(f, s, s')
  {
    assert ThreadOk(f, s, t);
    match s.threads[t]
    case Reading(since) => FirstLoadKept(f, s, s', t);
    case GotVersion(since, at, v1) =>
    case GotValue(since, at, v1, value) =>
    case GotCrc(since, at, v1, value, crc) => LastLoadKept(f, s, s', t);
  }

  lemma FirstLoadKept(f: Checksum, s: State, s': State, t: Tid)
    requires Inv(f, s) && t in s.threads && s.threads[t].Reading? && Read(s, s', t)
    ensures Base(f, s') && ThreadOk(f, s', t) && Effect(f, s, s')
  {
    assert ThreadOk(f, s, t);
    WordParity(|s.log|, 0);
    WordParity(|s.log|, 1);
    if s.word % 2 == 0 {
      assert s.holder == None && s.word == EvenWord(|s.log|);
    }
  }

  lemma LastLoadKept(f: Checksum, s: State, s': State, t: Tid)
    requires Inv(f, s) && NoWrap(s) && t in s.threads && s.threads[t].GotCrc? && Read(s, s', t)
    ensures Base(f, s') && ThreadOk(f, s', t) && Effect(f, s, s')
  {
    assert ThreadOk(f, s, t);
    var pc := s.threads[t];
    WordTells(pc.at - 1, |s.log|, if s.holder.Some? then 1 else 0);
    if s.word == pc.v1 {
      assert s.holder == None && pc.at == |s.history|;
    }
  }

  lemma RestKept(f: Checksum, s: State, s': State, t: Tid)
    requires Inv(f, s) && t in s.threads && !s.threads[t].Holds() && s' == s.(returned := s'.returned).At(t, Idle)
    ensures Base(f, s') && ThreadOk(f, s', t) && Effect(f, s, s')
  {
  }

  lemma StepFrame(f: Checksum, s: State, s': State, t: Tid)
    requires Step(f, s, s', t)
    ensures s'.threads.Keys == s.threads.Keys
    ensures forall u | u in s.threads && u != t :: s'.threads[u] == s.threads[u]
  {
  }

  lemma OwnKept(f: Checksum, s: State, s': State, t: Tid)
    requires Inv(f, s) && NoWrap(s) && Step(f, s, s', t)
    ensures s'.threads.Keys == s.threads.Keys
    ensures Base(f, s') && ThreadOk(f, s', t) && Effect(f, s, s')
    ensures forall u | u in s.threads && u != t :: s'.threads[u] == s.threads[u]
  {
    var pc := s.threads[t];
    if pc.Idle? { BeginKept(f, s, s', t); }
    else if pc.Spin? || pc.Loaded? { TakeLockKept(f, s, s', t); }
    else if pc.Holds() { UseLockKept(f, s, s', t); }
    else if pc.Acked? || pc.Returned? { RestKept(f, s, s', t); }
    else { ReadKept(f, s, s', t); }
    StepFrame(f, s, s', t);
  }

  lemma CopiesKept(f: Checksum, s: State, s': State, t: Tid)
    requires Inv(f, s) && Step(f, s, s', t)
    ensures forall i | 0 <= i < |s'.copies| :: CopyOk(f, s', s'.copies[i])
  {
    assert ThreadOk(f, s, t);
    forall i | 0 <= i < |s'.copies| ensures CopyOk(f, s', s'.copies[i]) {
      if i < |s.copies| {
        assert CopyOk(f, s, s.copies[i]);
        var n :| 0 <= n < |s.history| && s.copies[i] == Copy(EvenWord(n), s.history[n], f(s.history[n]));
        assert s'.history[n] == s.history[n];
      } else {
        assert s'.copies[i] == Copy(EvenWord(|s.log|), s.history[|s.log|], f(s.history[|s.log|]));
      }
    }
  }

  /** The acknowledgements of `s` are still there, possibly passed on. */
  lemma AcksStay(s: State, s': State)
    requires OneAckEach(s)
    requires forall u, n | Pending(s, u, n) :: Acknowledged(s', n)
    requires forall i, n | Done(s, i, n) :: Done(s', i, n)
    ensures forall n | 1 <= n <= |s.log| :: Acknowledged(s', n)
  {
    forall n | 1 <= n <= |s.log| ensures Acknowledged(s', n) {
      assert Acknowledged(s, n);
      if u :| Pending(s, u, n) {
      } else {
        var i :| Done(s, i, n);
        assert Done(s', i, n);
      }
    }
  }

  lemma ReturnedStay(s: State, s': State)
    requires Acks(s) && s.history <= s'.history && s.log <= s'.log && |s'.log| == |s'.history| - 1
    requires s'.returned == s.returned
    ensures forall i | 0 <= i < |s'.returned| :: AckIn(s', s'.returned[i])
  {
    forall i | 0 <= i < |s'.returned| ensures AckIn(s', s'.returned[i]) {
      assert AckIn(s, s.returned[i]);
    }
  }

  /** A step that acknowledges nothing. */
  lemma SameAcks(f: Checksum, s: State, s': State, t: Tid)
    requires Inv(f, s) && t in s.threads && t in s'.threads && s'.threads == s.threads[t := s'.threads[t]]
    requires !s.threads[t].Acked? && !s'.threads[t].Acked?
    requires s'.returned == s.returned && s'.log == s.log && s'.history == s.history
    ensures Acks(s')
  {
    hide ThreadOk, CopyOk, Acknowledged;
    assert forall u, n :: Pending(s', u, n) == Pending(s, u, n);
    assert forall i, n :: Done(s', i, n) == Done(s, i, n);
    forall u, n | Pending(s, u, n) ensures Acknowledged(s', n) { PendingTells(s', u, n); }
    hide Pending, Done;
    AcksStay(s, s');
    ReturnedStay(s, s');
  }

  lemma PendingTells(s: State, t: Tid, n: nat)
    requires Pending(s, t, n)
    ensures Acknowledged(s, n)
  {
  }

  /** The unlock adds the one log entry that nobody has acknowledged. */
  lemma UnlockAcks(f: Checksum, s: State, s': State, t: Tid)
    requires Inv(f, s) && t in s.threads && s.threads[t].CrcStored? && UseLock(f, s, s', t)
    ensures Acks(s')
  {
    hide CopyOk, Acknowledged, AckIn;
    var last := |s.history|;
    forall u, n ensures Pending(s', u, n) <==> Pending(s, u, n) || (u == t && n == last) {
      if u == t { assert !Pending(s, t, n); }
    }
    assert forall i, n :: Done(s', i, n) == Done(s, i, n);
    forall u, n | Pending(s', u, n) ensures Acknowledged(s', n) { PendingTells(s', u, n); }
    forall u ensures !Pending(s, u, last) { NobodyAcks(f, s, u, 0); }
    forall i ensures !Done(s, i, last) { NobodyAcks(f, s, 0, i); }
    assert Pending(s', t, last);
    hide Pending, Done;
    AcksStay(s, s');
    ReturnedStay(s, s');
  }

  lemma NobodyAcks(f: Checksum, s: State, t: Tid, i: nat)
    requires Inv(f, s)
    ensures !Pending(s, t, |s.history|) && !Done(s, i, |s.history|)
  {
    if t in s.threads { assert ThreadOk(f, s, t); }
    if i < |s.returned| { assert AckIn(s, s.returned[i]); }
  }

  /** The return passes the acknowledgement on. */
  lemma ReturnAcks(f: Checksum, s: State, s': State, t: Tid)
    requires Inv(f, s) && t in s.threads && s.threads[t].Acked? && Step(f, s, s', t)
    ensures Acks(s')
  {
    hide CopyOk, Acknowledged;
    var (n, last) := (s.threads[t].n, |s.returned|);
    assert ThreadOk(f, s, t);
    assert forall u, m :: Pending(s', u, m) <==> Pending(s, u, m) && u != t;
    assert forall i, m :: Done(s', i, m) <==> Done(s, i, m) || (i == last && m == n);
    assert Pending(s, t, n) && Done(s', last, n);
    forall u, m | Pending(s, u, m) ensures Acknowledged(s', m) { PassedOn(s, s', t, u, m); }
    AcksStay(s, s');
    forall i | 0 <= i < |s'.returned| ensures AckIn(s', s'.returned[i]) {
      if i < last { assert AckIn(s, s.returned[i]); }
    }
  }

  lemma PassedOn(s: State, s': State, t: Tid, u: Tid, m: nat)
    requires Pending(s, u, m) && (if u == t then Done(s', |s.returned|, m) else Pending(s', u, m))
    ensures Acknowledged(s', m)
  {
  }

  lemma AcksKept(f: Checksum, s: State, s': State, t: Tid)
    requires Inv(f, s) && Step(f, s, s', t)
    ensures Acks(s')
  {
    if s.threads[t].Acked? { ReturnAcks(f, s, s', t); }
    else if s.threads[t].CrcStored? { UnlockAcks(f, s, s', t); }
    else { SameAcks(f, s, s', t); }
  }

  lemma StepKeepsInv(f: Checksum, s: State, s': State, t: Tid)
    requires Inv(f, s) && NoWrap(s) && Step(f, s, s', t)
    ensures Inv(f, s')
  {
    OwnKept(f, s, s', t);
    CopiesKept(f, s, s', t);
    AcksKept(f, s, s', t);
    forall u | u in s'.threads ensures ThreadOk(f, s', u) {
      assert ThreadOk(f, s, u);
      if u != t {
        if s.threads[u].Holds() {
          assert s.holder == Some(u) && !s.threads[t].Holds();
          HolderKept(f, s, s', t, u);
        } else {
          OthersKept(f, s, s', u);
        }
      }
    }
  }

  /** Threads without the lock leave its holder alone. */
  lemma HolderKept(f: Checksum, s: State, s': State, t: Tid, u: Tid)
    requires Inv(f, s) && Step(f, s, s', t) && u in s.threads && u != t
    requires s.holder == Some(u) && s.threads[u].Holds() && !s.threads[t].Holds()
    ensures u in s'.threads && s'.threads[u] == s.threads[u] && s'.history != [] && ThreadOk(f, s', u)
  {
    assert ThreadOk(f, s, u) && ThreadOk(f, s, t);
    WordParity(|s.log|, 1);
  }

  // ----- Runs -----

  ghost predicate Moves(f: Checksum, s: State, s': State) { exists t :: Step(f, s, s', t) }

  ghost predicate Run(f: Checksum, run: seq<State>) {
    && run != [] && Init(f, run[0])
    && forall i, j | 0 <= i && j == i + 1 < |run| :: NoWrap(run[i]) && Moves(f, run[i], run[j])
  }

  lemma {:induction false} RunInv(f: Checksum, run: seq<State>, n: nat)
    requires Run(f, run) && n < |run|
    ensures Inv(f, run[n])
  {
    if n > 0 {
      RunInv(f, run, n - 1);
      assert Moves(f, run[n - 1], run[n]);
      var t :| Step(f, run[n - 1], run[n], t);
      StepKeepsInv(f, run[n - 1], run[n], t);
    }
  }

  /** The value after a sequence of updates. */
  ghost function Fold(v: u64, log: seq<Op>): u64 {
    if log == [] then v else log[|log| - 1](Fold(v, log[..|log| - 1]))
  }

  lemma {:induction false} HistoryIsFold(s: State, n: nat)
    requires |s.log| == |s.history| - 1 && n < |s.history|
    requires forall i | 0 <= i < |s.log| :: s.history[i + 1] == s.log[i](s.history[i])
    ensures s.history[n] == Fold(s.history[0], s.log[..n])
  {
    if n > 0 {
      HistoryIsFold(s, n - 1);
      assert s.log[..n][..n - 1] == s.log[..n - 1];
    }
  }

  /** An acknowledged update is an entry of the log, and its result the value of all updates up to it. */
  ghost predicate AckOk(s: State, ack: Ack)
    requires s.history != []
  {
    1 <= ack.n <= |s.log| && s.log[ack.n - 1] == ack.op && ack.next == Fold(s.history[0], s.log[..ack.n])
  }

  lemma AckInLog(f: Checksum, s: State, ack: Ack)
    requires Inv(f, s) && AckIn(s, ack)
    ensures AckOk(s, ack)
  {
    HistoryIsFold(s, ack.n);
  }

  lemma UnlockedIsFold(f: Checksum, s: State)
    requires Inv(f, s) && s.holder.None?
    ensures s.value == Fold(s.history[0], s.log) && s.crc == f(s.value)
  {
    HistoryIsFold(s, |s.log|);
    assert s.log[..|s.log|] == s.log;
  }

  /**
   * In every run the version is twice the number of completed updates, plus one
   * while locked; the unlocked value and checksum belong together and are the
   * fold of all completed updates; and every completed update is acknowledged by
   * exactly one call, returned or about to, with the value right after it.
   */
  lemma UpdatesAreSerial(f: Checksum, run: seq<State>)
    requires Run(f, run)
    ensures var s := run[|run| - 1];
      && s.history != [] && s.word == (2 * |s.log| + if s.holder.Some? then 1 else 0) % TWO_64
      && (s.holder.None? ==> s.value == Fold(s.history[0], s.log) && s.crc == f(s.value))
      && OneAckEach(s)
      && (forall i | 0 <= i < |s.returned| :: AckOk(s, s.returned[i]))
      && (forall t | t in s.threads && s.threads[t].Acked? ::
            AckOk(s, Ack(s.threads[t].op, s.threads[t].next, s.threads[t].n)))
  {
    var s := run[|run| - 1];
    RunInv(f, run, |run| - 1);
    BaseAndAcks(f, s);
    hide Inv, OneAckEach, Run;
    if s.holder.None? { UnlockedIsFold(f, s); }
    forall i | 0 <= i < |s.returned| ensures AckOk(s, s.returned[i]) {
      AckInLog(f, s, s.returned[i]);
    }
    forall t | t in s.threads && s.threads[t].Acked?
      ensures AckOk(s, Ack(s.threads[t].op, s.threads[t].next, s.threads[t].n))
    {
      PendingInLog(f, s, t);
      AckInLog(f, s, Ack(s.threads[t].op, s.threads[t].next, s.threads[t].n));
    }
  }

  lemma PendingInLog(f: Checksum, s: State, t: Tid)
    requires Inv(f, s) && t in s.threads && s.threads[t].Acked?
    ensures AckIn(s, Ack(s.threads[t].op, s.threads[t].next, s.threads[t].n))
  {
    assert ThreadOk(f, s, t);
  }

  lemma BaseAndAcks(f: Checksum, s: State)
    requires Inv(f, s)
    ensures s.history != [] && s.word == (2 * |s.log| + if s.holder.Some? then 1 else 0) % TWO_64
    ensures OneAckEach(s) && forall i | 0 <= i < |s.returned| :: AckIn(s, s.returned[i])
  {
  }

  /**
   * In every run a value a reader returns, and the checksum it was compared
   * with, belong to one completed update that was current during the read; a
   * relocated copy is never odd and pairs its version with its own value.
   */
  lemma ReadsAreWhole(f: Checksum, run: seq<State>)
    requires Run(f, run)
    ensures var s := run[|run| - 1];
      && (forall t | t in s.threads && s.threads[t].Returned? ::
            var pc := s.threads[t];
            && 1 <= pc.since <= pc.at <= |s.history|
            && pc.value == s.history[pc.at - 1] && pc.crc == f(pc.value))
      && (forall i | 0 <= i < |s.copies| :: s.copies[i].version % 2 == 0 && CopyOk(f, s, s.copies[i]))
  {
    var s := run[|run| - 1];
    RunInv(f, run, |run| - 1);
    hide Run, Base, Acks, CopyOk;
    forall t | t in s.threads && s.threads[t].Returned?
      ensures var pc := s.threads[t];
        && 1 <= pc.since <= pc.at <= |s.history|
        && pc.value == s.history[pc.at - 1] && pc.crc == f(pc.value)
    {
      assert ThreadOk(f, s, t);
    }
    forall i | 0 <= i < |s.copies| ensures s.copies[i].version % 2 == 0 {
      CopiesAreEven(f, s, s.copies[i]);
    }
  }

  lemma CopiesAreEven(f: Checksum, s: State, copy: Copy)
    requires CopyOk(f, s, copy)
    ensures copy.version % 2 == 0
  {
    var n :| 0 <= n < |s.history| && copy == Copy(EvenWord(n), s.history[n], f(s.history[n]));
    WordParity(n, 0);
    assert Plus(EvenWord(n), 0) == EvenWord(n);
  }

  // ----- Undisturbed calls succeed -----

  /** A sequence of states, each a step of `t` after the one before. */
  ghost predicate Alone(f: Checksum, run: seq<State>, t: Tid) {
    run != [] && forall i, j | 0 <= i && j == i + 1 < |run| :: Step(f, run[i], run[j], t)
  }

  /** The lock is free: the words are those of the last completed update. */
  lemma FreeWords(f: Checksum, s: State)
    requires Inv(f, s) && s.holder.None?
    ensures s.word % 2 == 0 && s.value == s.Last() && s.crc == f(s.value)
  {
    WordParity(|s.log|, 0);
  }

  /** An undisturbed update of an unlocked item completes and is told the new value. */
  lemma UpdateAlone(f: Checksum, s: State, t: Tid, op: Op) returns (run: seq<State>)
    requires Inv(f, s) && s.holder.None? && t in s.threads && s.threads[t] == Spin(op)
    ensures Alone(f, run, t) && run[0] == s
    ensures var s' := run[|run| - 1];
      && t in s'.threads && s'.threads[t].Idle? && s'.value == op(s.value) && s'.crc == f(op(s.value))
      && s'.word == (s.word + 2) % TWO_64 && s'.holder.None? && s'.log == s.log + [op]
      && s'.returned == s.returned + [Ack(op, op(s.value), |s.history|)]
  {
    hide Inv;
    FreeWords(f, s);
    var (v, next) := (s.word, op(s.value));
    var s1 := s.At(t, Loaded(op, v));
    var s2 := s1.(word := Plus(v, 1), holder := Some(t)).At(t, Locked(op, v));
    var s3 := s2.At(t, Computed(op, v, next));
    var s4 := s3.(value := next).At(t, ValueStored(op, v, next));
    var s5 := s4.(crc := f(next)).At(t, CrcStored(op, v, next));
    var s6 := s5.(word := Plus(v, 2), holder := None, history := s.history + [next], log := s.log + [op])
                .At(t, Acked(op, next, |s.history|));
    var s7 := s6.(returned := s.returned + [Ack(op, next, |s.history|)]).At(t, Idle);
    run := [s, s1, s2, s3, s4, s5, s6, s7];
    assert Step(f, s, s1, t) && Step(f, s1, s2, t) && Step(f, s2, s3, t) && Step(f, s3, s4, t);
    assert Step(f, s4, s5, t) && Step(f, s5, s6, t) && Step(f, s6, s7, t);
  }

  /** An undisturbed read of an unlocked item returns its value and checksum. */
  lemma ReadAlone(f: Checksum, s: State, t: Tid, since: nat) returns (run: seq<State>)
    requires Inv(f, s) && s.holder.None? && t in s.threads && s.threads[t] == Reading(since)
    ensures Alone(f, run, t) && run[0] == s
    ensures var s' := run[|run| - 1];
      t in s'.threads && s'.threads[t] == Returned(since, |s.history|, s.value, s.crc)
  {
    hide Inv;
    FreeWords(f, s);
    var (at, v) := (|s.history|, s.word);
    var s1 := s.At(t, GotVersion(since, at, v));
    var s2 := s1.At(t, GotValue(since, at, v, s.value));
    var s3 := s2.At(t, GotCrc(since, at, v, s.value, s.crc));
    var s4 := s3.At(t, Returned(since, at, s.value, s.crc));
    run := [s, s1, s2, s3, s4];
    assert Step(f, s, s1, t) && Step(f, s1, s2, t) && Step(f, s2, s3, t) && Step(f, s3, s4, t);
  }

  /** A lock holder that copies instead of updating adds the copy and gives the lock back as it was. */
  lemma CopyAlone(f: Checksum, s: State, t: Tid, op: Op, v: u64) returns (run: seq<State>)
    requires t in s.threads && s.threads[t] == Locked(op, v)
    ensures Alone(f, run, t) && run[0] == s
    ensures var s' := run[|run| - 1];
      && t in s'.threads && s'.threads[t].Idle? && s'.word == v && s'.holder.None? && s'.log == s.log
      && s'.value == s.value && s'.crc == s.crc && s'.copies == s.copies + [Copy(v, s.value, s.crc)]
  {
    var s1 := s.At(t, Copying(op, v, s.value));
    var s2 := s1.At(t, Copied(op, v, s.value, s.crc));
    var s3 := s2.(copies := s.copies + [Copy(v, s.value, s.crc)]).At(t, Locked(op, v));
    var s4 := s3.(word := v, holder := None).At(t, Idle);
    run := [s, s1, s2, s3, s4];
    assert Step(f, s, s1, t) && Step(f, s1, s2, t) && Step(f, s2, s3, t) && Step(f, s3, s4, t);
  }
}
