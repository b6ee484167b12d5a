/**
 * Increments, compare-and-set, relocation, plain sets and deletes of one key by
 * any number of threads, one atomic access per step. The key has one hash table
 * slot; every published item keeps its own location (no tag aliasing), so a
 * location is an index into the sequence of all items ever written.
 */
module NumericProtocol {
  import opened Bytes
  import opened Wrappers
  import opened CasToken

  type Tid = nat
  type Loc = nat
  type Op = u64 -> u64

  /** The raw token of a location and its generation: any function of the location. */
  type Base = Loc -> u64

  datatype Val = Num(n: u64) | Text(id: nat)

  /**
   * An item. `holder` is the thread holding its version lock, `owner` the thread
   * that wrote it and has not published it, `odd` marks a byte copy that still
   * carries the locked version of its source.
   */
  datatype Item = Item(val: Val, version: nat, holder: Option<Tid>, owner: Option<Tid>, odd: bool)

  /** A token; the item, version and value it was minted from; the length of the log then. */
  datatype Token = Token(bits: u64, loc: Loc, ver: nat, val: Val, len: nat)

  datatype Pc =
    | Idle
    // increment or decrement
    | IncLookup(op: Op)
    | IncFound(op: Op, loc: Loc)
    | IncLocked(op: Op, loc: Loc, v: nat)
    | IncStale(op: Op, loc: Loc, v: nat)
    | IncChecked(op: Op, loc: Loc, v: nat, at: nat)
    | IncLoaded(op: Op, loc: Loc, v: nat, at: nat, next: u64)
    | IncStored(op: Op, loc: Loc, v: nat, at: nat, next: u64)
    // get, then compare-and-set
    | Got(loc: Loc)
    | Holding(tk: Token)
    | CasLookup(tk: Token, val: Val)
    | CasPinned(tk: Token, val: Val, loc: Loc)
    | CasFresh(tk: Token, val: Val, loc: Loc)
    | CasChecked(tk: Token, val: Val, loc: Loc)
    | CasReserved(tk: Token, val: Val, loc: Loc, dst: Loc)
    | CasLinked(tk: Token, val: Val, loc: Loc, dst: Loc)
    | CasLocked(tk: Token, val: Val, loc: Loc, dst: Loc, v: nat)
    | CasMismatch(loc: Loc, v: nat)
    | CasVerified(tk: Token, val: Val, loc: Loc, dst: Loc, guard: Option<nat>)
    | CasPublished(loc: Loc, guard: Option<nat>)
    | CasLost(tk: Token, val: Val, loc: Loc, dst: Loc, guard: Option<nat>)
    // relocation
    | RelFound(loc: Loc)
    | RelLocked(loc: Loc, v: nat)
    | RelCopied(loc: Loc, v: nat, dst: Loc)
    | RelStamped(loc: Loc, v: nat, dst: Loc)
    | RelUnlock(loc: Loc, v: nat)
    | RelText(loc: Loc, dst: Loc)
    // plain set
    | SetDefined(val: Val, dst: Loc)
  {
    /** The item locked and the even version it had when it was locked. */
    function Lock(): Option<(Loc, nat)> {
      match this
      case IncLocked(_, l, v) => Some((l, v))
      case IncStale(_, l, v) => Some((l, v))
      case IncChecked(_, l, v, _) => Some((l, v))
      case IncLoaded(_, l, v, _, _) => Some((l, v))
      case IncStored(_, l, v, _, _) => Some((l, v))
      case CasLocked(_, _, l, _, v) => Some((l, v))
      case CasMismatch(l, v) => Some((l, v))
      case CasVerified(_, _, l, _, g) => if g.Some? then Some((l, g.value)) else None
      case CasPublished(l, g) => if g.Some? then Some((l, g.value)) else None
      case CasLost(_, _, l, _, g) => if g.Some? then Some((l, g.value)) else None
      case RelLocked(l, v) => Some((l, v))
      case RelCopied(l, v, _) => Some((l, v))
      case RelStamped(l, v, _) => Some((l, v))
      case RelUnlock(l, v) => Some((l, v))
      case _ => None
    }

    /** The published item the thread works on. */
    function Source(): Option<Loc> {
      match this
      case IncFound(_, l) => Some(l)
      case Got(l) => Some(l)
      case CasPinned(_, _, l) => Some(l)
      case CasFresh(_, _, l) => Some(l)
      case CasChecked(_, _, l) => Some(l)
      case CasReserved(_, _, l, _) => Some(l)
      case CasLinked(_, _, l, _) => Some(l)
      case CasVerified(_, _, l, _, _) => Some(l)
      case CasPublished(l, _) => Some(l)
      case CasLost(_, _, l, _, _) => Some(l)
      case RelFound(l) => Some(l)
      case RelText(l, _) => Some(l)
      case _ => if Lock().Some? then Some(Lock().value.0) else None
    }

    /** The item written but not yet published. */
    function Fresh(): Option<Loc> {
      match this
      case CasReserved(_, _, _, d) => Some(d)
      case CasLinked(_, _, _, d) => Some(d)
      case CasLocked(_, _, _, d, _) => Some(d)
      case CasVerified(_, _, _, d, _) => Some(d)
      case CasLost(_, _, _, d, _) => Some(d)
      case RelCopied(_, _, d) => Some(d)
      case RelStamped(_, _, d) => Some(d)
      case RelText(_, d) => Some(d)
      case SetDefined(_, d) => Some(d)
      case _ => None
    }

    /** The value the unpublished item holds, when it is the thread's own choice. */
    function Chosen(): Option<Val> {
      match this
      case CasReserved(_, val, _, _) => Some(val)
      case CasLinked(_, val, _, _) => Some(val)
      case CasLocked(_, val, _, _, _) => Some(val)
      case CasVerified(_, val, _, _, _) => Some(val)
      case CasLost(_, val, _, _, _) => Some(val)
      case SetDefined(val, _) => Some(val)
      case _ => None
    }

    function Held(): Option<Token> {
      match this
      case Holding(tk) => Some(tk)
      case CasLookup(tk, _) => Some(tk)
      case CasPinned(tk, _, _) => Some(tk)
      case CasFresh(tk, _, _) => Some(tk)
      case CasChecked(tk, _, _) => Some(tk)
      case CasReserved(tk, _, _, _) => Some(tk)
      case CasLinked(tk, _, _, _) => Some(tk)
      case CasLocked(tk, _, _, _, _) => Some(tk)
      case CasVerified(tk, _, _, _, _) => Some(tk)
      case CasLost(tk, _, _, _, _) => Some(tk)
      case _ => None
    }

    /** The log entry of an increment that is past its linkage check and not acknowledged. */
    function Pending(): Option<nat> {
      match this
      case IncChecked(_, _, _, at) => Some(at)
      case IncLoaded(_, _, _, at, _) => Some(at)
      case IncStored(_, _, _, at, _) => Some(at)
      case _ => None
    }
  }

  datatype Event = Set(val: Val) | Del | Inc(t: Tid, op: Op) | Cas(val: Val, tk: Token, loc: Loc)

  /**
   * `log` lists the operations in the order they take effect; `acked` maps the
   * log index of each acknowledged increment to the value it returned.
   */
  datatype State = State(items: seq<Item>, slot: Option<Loc>, threads: map<Tid, Pc>,
                         log: seq<Event>, acked: map<nat, u64>)
  {
    function At(t: Tid, pc: Pc): State { this.(threads := threads[t := pc]) }

    function Put(l: Loc, item: Item): State
      requires l < |items|
    {
      this.(items := items[l := item])
    }

    function Append(item: Item): State { this.(items := items + [item]) }

    function Record(e: Event): State { this.(log := log + [e]) }

    /** Take the version lock of `l`. */
    function Take(l: Loc, t: Tid): State
      requires l < |items|
    {
      Put(l, items[l].(version := items[l].version + 1, holder := Some(t)))
    }

    /** Release the version lock of `l`, leaving version `v`. */
    function Release(l: Loc, v: nat): State
      requires l < |items|
    {
      Put(l, items[l].(version := v, holder := None))
    }

    /** Publish `dst` in the slot. */
    function Publish(dst: Loc): State
      requires dst < |items|
    {
      Put(dst, items[dst].(owner := None)).(slot := Some(dst))
    }
  }

  /** What the key maps to after the operations of the log. */
  ghost function Fold(log: seq<Event>): Option<Val> {
    if log == [] then None
    else
      var before := Fold(log[..|log| - 1]);
      match log[|log| - 1]
      case Set(val) => Some(val)
      case Del => None
      case Cas(val, _, _) => Some(val)
      case Inc(_, op) => if before.Some? && before.value.Num? then Some(Num(op(before.value.n))) else before
  }

  function TokenBits(base: Base, l: Loc, val: Val, version: nat): u64 {
    if val.Num? then MixVersion(base(l), version % TWO_64) else base(l)
  }

  ghost predicate Init(s: State) {
    s.items == [] && s.slot == None && s.log == [] && s.acked == map[]
      && forall t | t in s.threads :: s.threads[t] == Idle
  }

  // ----- Steps -----

  ghost predicate StartStep(s: State, s': State, t: Tid)
    requires t in s.threads
  {
    || (t in s'.threads && s'.threads[t].IncLookup? && s' == s.At(t, s'.threads[t]))
    || (s.slot.Some? && s' == s.At(t, Got(s.slot.value)))
    || (s.slot.Some? && s' == s.At(t, RelFound(s.slot.value)))
    || (exists val :: s' == s.Append(Item(val, 0, None, Some(t), false)).At(t, SetDefined(val, |s.items|)))
    || s' == s.(slot := None).Record(Del)
  }

  ghost predicate SetStep(s: State, s': State, t: Tid)
    requires t in s.threads && s.threads[t].SetDefined?
  {
    var SetDefined(val, dst) := s.threads[t];
    dst < |s.items| && s' == s.Publish(dst).Record(Set(val)).At(t, Idle)
  }

  ghost predicate IncStep(s: State, s': State, t: Tid)
    requires t in s.threads
  {
    match s.threads[t]
    case IncLookup(op) =>
      s' == s.At(t, if s.slot.Some? then IncFound(op, s.slot.value) else Idle)
    case IncFound(op, l) =>
      && l < |s.items|
      && if s.items[l].val.Text? then s' == s.At(t, if s.slot == Some(l) then Idle else IncLookup(op))
         else s' == s || (s.items[l].version % 2 == 0 && s' == s.Take(l, t).At(t, IncLocked(op, l, s.items[l].version)))
    case IncLocked(op, l, v) =>
      if s.slot == Some(l) then s' == s.Record(Inc(t, op)).At(t, IncChecked(op, l, v, |s.log|))
      else s' == s.At(t, IncStale(op, l, v))
    case IncStale(op, l, v) => l < |s.items| && s' == s.Release(l, v).At(t, IncLookup(op))
    case IncChecked(op, l, v, at) =>
      && l < |s.items| && s.items[l].val.Num?
      && s' == s.At(t, IncLoaded(op, l, v, at, op(s.items[l].val.n)))
    case IncLoaded(op, l, v, at, next) =>
      l < |s.items| && s' == s.Put(l, s.items[l].(val := Num(next))).At(t, IncStored(op, l, v, at, next))
    case IncStored(op, l, v, at, next) =>
      && l < |s.items|
      && s' == s.Release(l, v + 2).(acked := s.acked[at := next]).At(t, Idle)
    case _ => false
  }

  ghost predicate CasStep(base: Base, s: State, s': State, t: Tid)
    requires t in s.threads
  {
    match s.threads[t]
    case Got(l) =>
      && l < |s.items|
      && var item := s.items[l];
         s' == s.At(t, Holding(Token(TokenBits(base, l, item.val, item.version), l, item.version, item.val, |s.log|)))
    case Holding(tk) =>
      || s' == s.At(t, Idle)
      || (t in s'.threads && s'.threads[t].CasLookup? && s'.threads[t].tk == tk && s' == s.At(t, s'.threads[t]))
    case CasLookup(tk, val) => s' == s.At(t, if s.slot.Some? then CasPinned(tk, val, s.slot.value) else Idle)
    case CasPinned(tk, val, l) =>
      if s.slot == Some(l) then s' == s.At(t, CasFresh(tk, val, l))
      else s' == s.At(t, CasLookup(tk, val)) || s' == s.At(t, Idle)
    case CasFresh(tk, val, l) =>
      && l < |s.items|
      && s' == s.At(t, if TokenBits(base, l, s.items[l].val, s.items[l].version) == tk.bits
                        then CasChecked(tk, val, l) else Idle)
    case CasChecked(tk, val, l) =>
      s' == s.Append(Item(val, 0, None, Some(t), false)).At(t, CasReserved(tk, val, l, |s.items|))
    case CasReserved(tk, val, l, d) =>
      s' == s.At(t, if s.slot == Some(l) then CasLinked(tk, val, l, d) else Idle)
    case CasLinked(tk, val, l, d) =>
      && l < |s.items|
      && if s.items[l].val.Text? then
           s' == s.At(t, if base(l) == tk.bits then CasVerified(tk, val, l, d, None) else Idle)
         else s' == s
              || (s.items[l].version % 2 == 0 && s' == s.Take(l, t).At(t, CasLocked(tk, val, l, d, s.items[l].version)))
    case CasLocked(tk, val, l, d, v) =>
      s' == s.At(t, if MixVersion(base(l), v % TWO_64) == tk.bits
                    then CasVerified(tk, val, l, d, Some(v)) else CasMismatch(l, v))
    case CasMismatch(l, v) => l < |s.items| && s' == s.Release(l, v).At(t, Idle)
    case CasVerified(tk, val, l, d, g) =>
      // the exchange may also fail while the location stays, when only the frequency beside it has changed
      && d < |s.items|
      && (|| (s.slot == Some(l) && s' == s.Publish(d).Record(Cas(val, tk, l)).At(t, CasPublished(l, g)))
          || s' == s.At(t, CasLost(tk, val, l, d, g)))
    case CasPublished(l, g) =>
      && l < |s.items|
      && s' == (if g.Some? then s.Release(l, g.value) else s).At(t, Idle)
    case CasLost(tk, val, l, d, g) =>
      && l < |s.items|
      && s' == (if g.Some? then s.Release(l, g.value) else s).At(t, CasReserved(tk, val, l, d))
    case _ => false
  }

  ghost predicate RelStep(s: State, s': State, t: Tid)
    requires t in s.threads
  {
    match s.threads[t]
    case RelFound(l) =>
      && l < |s.items|
      && if s.items[l].val.Text? then
           s' == s.Append(s.items[l].(owner := Some(t))).At(t, RelText(l, |s.items|))
         else s' == s || (s.items[l].version % 2 == 0 && s' == s.Take(l, t).At(t, RelLocked(l, s.items[l].version)))
    case RelLocked(l, v) =>
      // the byte copy carries the source's locked version
      && l < |s.items|
      && s' == s.Append(Item(s.items[l].val, s.items[l].version, None, Some(t), true)).At(t, RelCopied(l, v, |s.items|))
    case RelCopied(l, v, d) =>
      d < |s.items| && s' == s.Put(d, s.items[d].(version := v, odd := false)).At(t, RelStamped(l, v, d))
    case RelStamped(l, v, d) =>
      d < |s.items| && s' == (if s.slot == Some(l) then s.Publish(d) else s).At(t, RelUnlock(l, v))
    case RelUnlock(l, v) => l < |s.items| && s' == s.Release(l, v).At(t, Idle)
    case RelText(l, d) =>
      d < |s.items| && s' == (if s.slot == Some(l) then s.Publish(d) else s).At(t, Idle)
    case _ => false
  }

  ghost predicate Step(base: Base, s: State, s': State, t: Tid) {
    && t in s.threads
    && ((s.threads[t].Idle? && StartStep(s, s', t)) || (s.threads[t].SetDefined? && SetStep(s, s', t))
        || IncStep(s, s', t) || CasStep(base, s, s', t) || RelStep(s, s', t))
  }

  // ----- Invariant -----

  /** The increment has passed its linkage check and still holds the lock. */
  predicate PastPc(pc: Pc) { pc.IncChecked? || pc.IncLoaded? || pc.IncStored? }

  /** What an item is worth once the thread that holds its lock has let go. */
  function Worth(pc: Pc, val: Val): Val {
    match pc
    case IncChecked(op, _, _, _) => if val.Num? then Num(op(val.n)) else val
    case IncLoaded(_, _, _, _, next) => Num(next)
    case _ => val
  }

  ghost predicate Held(s: State, l: Loc)
    requires l < |s.items|
  {
    s.items[l].holder.Some? && s.items[l].holder.value in s.threads
  }

  ghost predicate Past(s: State, l: Loc)
    requires l < |s.items|
  {
    Held(s, l) && PastPc(s.threads[s.items[l].holder.value])
  }

  ghost function Now(s: State, l: Loc): Val
    requires l < |s.items|
  {
    if Held(s, l) then Worth(s.threads[s.items[l].holder.value], s.items[l].val) else s.items[l].val
  }

  ghost predicate ItemOk(s: State, l: Loc)
    requires l < |s.items|
  {
    var item := s.items[l];
    && (item.odd ==> item.owner.Some?)
    && (item.owner.Some? ==> item.holder.None?)
    && (!item.odd ==> (item.version % 2 == 1 <==> item.holder.Some?))
    && (item.val.Text? ==> item.version == 0)
    && (item.holder.Some? ==> Held(s, l) && s.threads[item.holder.value].Lock() == Some((l, item.version - 1)))
  }

  ghost predicate SlotOk(s: State) {
    match s.slot
    case None => Fold(s.log) == None
    case Some(l) => l < |s.items| && s.items[l].owner.None? && Fold(s.log) == Some(Now(s, l))
  }

  /** Entry `i`, if it is an increment, is acknowledged with the value it produced, or still running. */
  ghost predicate IncOk(s: State, i: nat)
    requires i < |s.log|
  {
    && (i in s.acked ==> s.log[i].Inc? && Fold(s.log[..i + 1]) == Some(Num(s.acked[i])))
    && (s.log[i].Inc? && i !in s.acked ==> s.log[i].t in s.threads && s.threads[s.log[i].t].Pending() == Some(i))
  }

  /** A token minted from the item a compare-and-set replaced was minted right before it. */
  ghost predicate CasOk(s: State, i: nat)
    requires i < |s.log|
  {
    s.log[i].Cas? && s.log[i].tk.loc == s.log[i].loc ==>
      s.log[i].tk.ver % 2 == 0 && s.log[i].tk.len == i && Fold(s.log[..i]) == Some(s.log[i].tk.val)
  }

  ghost predicate LogOk(s: State) {
    && (forall i | i in s.acked :: i < |s.log|)
    && forall i | 0 <= i < |s.log| :: IncOk(s, i) && CasOk(s, i)
  }

  ghost predicate Quiet(s: State, l: Loc, version: nat)
    requires l < |s.items|
  {
    s.items[l].version <= version + 1 && !Past(s, l)
  }

  /** While the item a token was minted from stays published and quiet, nothing else has happened. */
  ghost predicate MintOk(base: Base, s: State, tk: Token) {
    && tk.loc < |s.items| && s.items[tk.loc].owner.None?
    && tk.val.Num? == s.items[tk.loc].val.Num?
    && tk.bits == TokenBits(base, tk.loc, tk.val, tk.ver)
    && (tk.val.Text? ==> tk.ver == 0)
    && (tk.ver % 2 == 0 ==>
          && tk.ver <= s.items[tk.loc].version
          && (s.slot == Some(tk.loc) && Quiet(s, tk.loc, tk.ver) ==>
                  |s.log| == tk.len && s.items[tk.loc].val == tk.val))
  }

  ghost predicate LockOk(s: State, t: Tid, lock: (Loc, nat)) {
    && lock.0 < |s.items| && lock.1 % 2 == 0
    && var item := s.items[lock.0];
       item.holder == Some(t) && item.version == lock.1 + 1 && item.val.Num? && item.owner.None?
  }

  ghost predicate FreshOk(s: State, t: Tid, pc: Pc, d: Loc) {
    && d < |s.items| && s.items[d].owner == Some(t)
    && (pc.Chosen().Some? ==> s.items[d].val == pc.Chosen().value && s.items[d].version == 0 && !s.items[d].odd)
    && (pc.RelCopied? ==> pc.loc < |s.items| && s.items[d].val == s.items[pc.loc].val)
    && (pc.RelStamped? ==>
          pc.loc < |s.items| && s.items[d].val == s.items[pc.loc].val && s.items[d].version == pc.v && !s.items[d].odd)
    && (pc.RelText? ==>
          pc.loc < |s.items| && s.items[d].val == s.items[pc.loc].val && s.items[d].val.Text? && !s.items[d].odd)
  }

  /** A running increment's log entry is its own, and the fold up to it is its result. */
  ghost predicate PendingOk(s: State, t: Tid, pc: Pc, at: nat) {
    && at < |s.log| && at !in s.acked && s.log[at].Inc? && s.log[at].t == t
    && pc.Lock().Some? && pc.Lock().value.0 < |s.items|
    && Fold(s.log[..at + 1]) == Some(Worth(pc, s.items[pc.Lock().value.0].val))
    && (pc.IncStored? ==> s.items[pc.loc].val == Num(pc.next))
  }

  /** The token has been compared with the item under its lock. */
  ghost predicate Verified(base: Base, s: State, tk: Token, l: Loc, guard: Option<nat>)
    requires l < |s.items|
  {
    if guard.Some? then MixVersion(base(l), guard.value % TWO_64) == tk.bits
    else s.items[l].val.Text? && base(l) == tk.bits
  }

  ghost predicate PcOk(base: Base, s: State, t: Tid, pc: Pc) {
    && (pc.Source().Some? ==> pc.Source().value < |s.items| && s.items[pc.Source().value].owner.None?)
    && (pc.Lock().Some? ==> LockOk(s, t, pc.Lock().value))
    && (pc.Fresh().Some? ==> FreshOk(s, t, pc, pc.Fresh().value))
    && (pc.Pending().Some? ==> PendingOk(s, t, pc, pc.Pending().value))
    && (pc.Held().Some? ==> MintOk(base, s, pc.Held().value))
    && (pc.CasVerified? ==> Verified(base, s, pc.tk, pc.loc, pc.guard))
  }

  ghost predicate World(s: State) {
    && SlotOk(s) && LogOk(s)
    && forall l | 0 <= l < |s.items| :: ItemOk(s, l)
  }

  ghost predicate Inv(base: Base, s: State) {
    World(s) && forall t | t in s.threads :: PcOk(base, s, t, s.threads[t])
  }

  /** The premise: no version word has wrapped. */
  ghost predicate NoWrap(s: State) {
    forall l | 0 <= l < |s.items| :: s.items[l].version < TWO_64
  }

  // ----- What a step leaves to the other threads -----

  /** Item `l` as seen by a token minted from it. */
  ghost predicate MintKept(s: State, s': State, l: Loc)
    requires l < |s.items| <= |s'.items|
  {
    var (a, b) := (s.items[l], s'.items[l]);
    && b.owner.None? && a.val.Num? == b.val.Num?
    && (a.version <= b.version || (a.version % 2 == 1 && b.version == a.version - 1))
    && (s'.slot == Some(l) ==> s.slot == Some(l))
    && (s'.slot == Some(l) && !Past(s', l) ==>
          || (a.version % 2 == 1 && b.version == a.version + 1)
          || (!Past(s, l) && s'.log == s.log && a.val == b.val && b.version <= a.version + 1))
  }

  /** Item `l` as seen by threads other than `t`. */
  ghost predicate ItemKept(s: State, s': State, t: Tid, l: Loc)
    requires l < |s.items| <= |s'.items|
  {
    var (a, b) := (s.items[l], s'.items[l]);
    && (a.holder.Some? && a.holder != Some(t) ==> a == b)
    && (a.owner.Some? && a.owner != Some(t) ==> a == b)
    && (a.owner.None? ==> MintKept(s, s', l) && (a.val.Text? ==> b.val == a.val))
  }

  ghost predicate Frame(s: State, s': State, t: Tid) {
    && |s.items| <= |s'.items| && s.log <= s'.log
    && t in s'.threads && s'.threads == s.threads[t := s'.threads[t]]
    && (forall i | i in s'.acked && i !in s.acked :: i < |s.log| && s.log[i].Inc? && s.log[i].t == t)
    && forall l | 0 <= l < |s.items| :: ItemKept(s, s', t, l)
  }

  /** An even version below a version that a step changes from `a` to `b`. */
  lemma VersionStays(m: nat, a: nat, b: nat)
    requires m % 2 == 0 && m <= a && (a <= b || (a % 2 == 1 && b == a - 1))
    ensures m <= b
    ensures b <= m + 1 ==> !(a % 2 == 1 && b == a + 1) && a <= m + 1
  {
  }

  lemma MintStays(base: Base, s: State, s': State, tk: Token)
    requires MintOk(base, s, tk) && |s.items| <= |s'.items| && MintKept(s, s', tk.loc)
    ensures MintOk(base, s', tk)
  {
    if tk.ver % 2 == 0 {
      VersionStays(tk.ver, s.items[tk.loc].version, s'.items[tk.loc].version);
    }
  }

  lemma OthersKept(base: Base, s: State, s': State, t: Tid, u: Tid)
    requires Frame(s, s', t) && u in s.threads && u != t && PcOk(base, s, u, s.threads[u])
    ensures PcOk(base, s', u, s.threads[u])
  {
    hide MixVersion;
    var pc := s.threads[u];
    if pc.Source().Some? { assert ItemKept(s, s', t, pc.Source().value); }
    if pc.Lock().Some? { assert ItemKept(s, s', t, pc.Lock().value.0); }
    if pc.Fresh().Some? { assert ItemKept(s, s', t, pc.Fresh().value); }
    if pc.Held().Some? {
      assert ItemKept(s, s', t, pc.Held().value.loc);
      MintStays(base, s, s', pc.Held().value);
    }
    if pc.Pending().Some? {
      var at := pc.Pending().value;
      assert s'.log[..at + 1] == s.log[..at + 1];
    }
  }

  lemma LogKept(s: State, s': State, t: Tid)
    requires LogOk(s) && s.log <= s'.log
    requires t in s.threads && t in s'.threads && s'.threads == s.threads[t := s'.threads[t]]
    requires forall i | i in s.acked :: i in s'.acked && s'.acked[i] == s.acked[i]
    requires forall i | i in s'.acked :: i in s.acked || s.threads[t].Pending() == Some(i)
    requires s.threads[t].Pending().Some? ==>
               s.threads[t].Pending().value < |s.log| && IncOk(s', s.threads[t].Pending().value)
    requires forall i | |s.log| <= i < |s'.log| :: IncOk(s', i) && CasOk(s', i)
    ensures LogOk(s')
  {
    forall i | 0 <= i < |s'.log| ensures IncOk(s', i) && CasOk(s', i) {
      if i < |s.log| {
        assert IncOk(s, i) && CasOk(s, i);
        assert s'.log[..i + 1] == s.log[..i + 1] && s'.log[..i] == s.log[..i];
      }
    }
  }

  /** An item the step does not write, and whose holder, if it is `t`, keeps its lock. */
  lemma Bystander(s: State, s': State, t: Tid, k: Loc)
    requires k < |s.items| <= |s'.items| && s'.items[k] == s.items[k] && ItemOk(s, k)
    requires t in s.threads && t in s'.threads && s'.threads == s.threads[t := s'.threads[t]]
    requires s.items[k].holder == Some(t) ==>
               && s'.threads[t].Lock() == s.threads[t].Lock() && PastPc(s'.threads[t]) == PastPc(s.threads[t])
               && Worth(s'.threads[t], s.items[k].val) == Worth(s.threads[t], s.items[k].val)
    ensures ItemOk(s', k) && Now(s', k) == Now(s, k) && Past(s', k) == Past(s, k)
    ensures (s.items[k].owner.None? && s'.slot == Some(k) ==> s.slot == Some(k) && s'.log == s.log) ==>
              ItemKept(s, s', t, k)
  {
  }

  // ----- The kinds of step -----

  /** A thread moves on without touching an item, the slot or the log. */
  lemma Moved(base: Base, s: State, t: Tid, pc': Pc)
    requires Inv(base, s) && t in s.threads
    requires pc'.Lock() == s.threads[t].Lock() && pc'.Pending() == s.threads[t].Pending()
    requires PastPc(pc') == PastPc(s.threads[t])
    requires pc'.Lock().Some? ==>
               && pc'.Lock().value.0 < |s.items|
               && var val := s.items[pc'.Lock().value.0].val; Worth(pc', val) == Worth(s.threads[t], val)
    ensures World(s.At(t, pc')) && Frame(s, s.At(t, pc'), t)
  {
    var s' := s.At(t, pc');
    assert PcOk(base, s, t, s.threads[t]);
    if pc'.Pending().Some? { assert IncOk(s, pc'.Pending().value); }
    LogKept(s, s', t);
    forall k | 0 <= k < |s.items| ensures ItemOk(s', k) && Now(s', k) == Now(s, k) && ItemKept(s, s', t, k) {
      assert ItemOk(s, k);
      Bystander(s, s', t, k);
    }
  }

  ghost predicate MayTake(base: Base, s: State, t: Tid, l: Loc, pc': Pc) {
    && Inv(base, s) && t in s.threads && l < |s.items|
    && s.threads[t].Lock().None? && s.threads[t].Pending().None?
    && s.items[l].owner.None? && s.items[l].val.Num? && s.items[l].version % 2 == 0
    && pc'.Lock() == Some((l, s.items[l].version)) && !PastPc(pc') && pc'.Pending().None?
  }

  lemma TakenItem(base: Base, s: State, t: Tid, l: Loc, pc': Pc, k: Loc)
    requires MayTake(base, s, t, l, pc') && k < |s.items|
    ensures var s' := s.Take(l, t).At(t, pc');
      ItemOk(s', k) && Now(s', k) == Now(s, k) && Past(s', k) == Past(s, k) && ItemKept(s, s', t, k)
  {
    assert ItemOk(s, k) && ItemOk(s, l);
    hide Inv, Worth;
  }

  lemma Taken(base: Base, s: State, t: Tid, l: Loc, pc': Pc)
    requires MayTake(base, s, t, l, pc')
    ensures World(s.Take(l, t).At(t, pc')) && Frame(s, s.Take(l, t).At(t, pc'), t)
    ensures LockOk(s.Take(l, t).At(t, pc'), t, pc'.Lock().value)
  {
    var s' := s.Take(l, t).At(t, pc');
    LogKept(s, s', t);
    forall k | 0 <= k < |s.items| ensures ItemOk(s', k) && Now(s', k) == Now(s, k) && ItemKept(s, s', t, k) {
      TakenItem(base, s, t, l, pc', k);
    }
  }

  lemma Released(base: Base, s: State, t: Tid, l: Loc, v: nat, pc': Pc)
    requires Inv(base, s) && t in s.threads && l < |s.items|
    requires s.threads[t].Lock() == Some((l, v)) && !PastPc(s.threads[t]) && s.threads[t].Pending().None?
    requires pc'.Lock().None? && pc'.Pending().None?
    ensures World(s.Release(l, v).At(t, pc')) && Frame(s, s.Release(l, v).At(t, pc'), t)
  {
    var s' := s.Release(l, v).At(t, pc');
    LogKept(s, s', t);
    assert PcOk(base, s, t, s.threads[t]);
    forall k | 0 <= k < |s.items| ensures ItemOk(s', k) && Now(s', k) == Now(s, k) && ItemKept(s, s', t, k) {
      assert ItemOk(s, k);
      if k != l { Bystander(s, s', t, k); }
    }
  }

  /** A thread writes a new item of its own. */
  lemma Appended(base: Base, s: State, t: Tid, item: Item, pc': Pc)
    requires Inv(base, s) && t in s.threads
    requires item.owner == Some(t) && item.holder.None? && (item.odd || item.version % 2 == 0)
    requires item.val.Text? ==> item.version == 0
    requires pc'.Lock() == s.threads[t].Lock() && !PastPc(s.threads[t]) && !PastPc(pc')
    requires pc'.Pending().None? && s.threads[t].Pending().None?
    ensures World(s.Append(item).At(t, pc')) && Frame(s, s.Append(item).At(t, pc'), t)
  {
    var s' := s.Append(item).At(t, pc');
    LogKept(s, s', t);
    forall k | 0 <= k < |s.items|
      ensures ItemOk(s', k) && Now(s', k) == Now(s, k) && Past(s', k) == Past(s, k) && ItemKept(s, s', t, k)
    {
      assert ItemOk(s, k);
      Bystander(s, s', t, k);
    }
  }

  lemma FoldOfOne(log: seq<Event>, e: Event)
    ensures Fold(log + [e]) == match e
      case Set(val) => Some(val)
      case Del => None
      case Cas(val, _, _) => Some(val)
      case Inc(_, op) =>
        if Fold(log).Some? && Fold(log).value.Num? then Some(Num(op(Fold(log).value.n))) else Fold(log)
  {
    assert (log + [e])[..|log|] == log;
  }

  /** A thread publishes its own item, and that is one operation of the log. */
  lemma PublishedNew(base: Base, s: State, t: Tid, d: Loc, e: Event, pc': Pc)
    requires Inv(base, s) && t in s.threads && s.threads[t].Fresh() == Some(d) && d < |s.items|
    requires !s.items[d].odd && (e == Set(s.items[d].val) || (e.Cas? && e.val == s.items[d].val))
    requires e.Cas? && e.tk.loc == e.loc ==>
               e.tk.ver % 2 == 0 && e.tk.len == |s.log| && Fold(s.log) == Some(e.tk.val)
    requires pc'.Lock() == s.threads[t].Lock() && !PastPc(s.threads[t]) && !PastPc(pc')
    requires pc'.Pending().None? && s.threads[t].Pending().None?
    ensures World(s.Publish(d).Record(e).At(t, pc')) && Frame(s, s.Publish(d).Record(e).At(t, pc'), t)
  {
    var s' := s.Publish(d).Record(e).At(t, pc');
    assert PcOk(base, s, t, s.threads[t]);
    FoldOfOne(s.log, e);
    assert s'.log[..|s.log|] == s.log;
    LogKept(s, s', t);
    forall k | 0 <= k < |s.items| ensures ItemOk(s', k) && ItemKept(s, s', t, k) {
      assert ItemOk(s, k);
      if k != d { Bystander(s, s', t, k); }
    }
    assert ItemOk(s, d);
  }

  /** Relocation publishes a copy of the item it has locked, or of an immutable one. */
  lemma PublishedCopy(base: Base, s: State, t: Tid, l: Loc, d: Loc, pc': Pc)
    requires Inv(base, s) && t in s.threads && s.threads[t].Fresh() == Some(d) && d < |s.items| && l < |s.items|
    requires s.slot == Some(l) && s.items[d].val == s.items[l].val && !s.items[d].odd
    requires s.items[l].val.Text? || (s.threads[t].Lock().Some? && s.threads[t].Lock().value.0 == l)
    requires pc'.Lock() == s.threads[t].Lock() && !PastPc(s.threads[t]) && !PastPc(pc')
    requires pc'.Pending().None? && s.threads[t].Pending().None?
    ensures World(s.Publish(d).At(t, pc')) && Frame(s, s.Publish(d).At(t, pc'), t)
  {
    var s' := s.Publish(d).At(t, pc');
    assert PcOk(base, s, t, s.threads[t]);
    LogKept(s, s', t);
    assert ItemOk(s, d) && ItemOk(s, l);
    assert Now(s, l) == s.items[l].val;
    forall k | 0 <= k < |s.items| ensures ItemOk(s', k) && ItemKept(s, s', t, k) {
      assert ItemOk(s, k);
      if k != d { Bystander(s, s', t, k); }
    }
  }

  /** An increment that finds its item still published under the lock takes effect. */
  lemma Checked(base: Base, s: State, t: Tid, op: Op, l: Loc, v: nat)
    requires Inv(base, s) && t in s.threads && s.threads[t] == IncLocked(op, l, v) && s.slot == Some(l)
    ensures var s' := s.Record(Inc(t, op)).At(t, IncChecked(op, l, v, |s.log|));
      World(s') && Frame(s, s', t) && PcOk(base, s', t, s'.threads[t])
  {
    hide MixVersion;
    var s' := s.Record(Inc(t, op)).At(t, IncChecked(op, l, v, |s.log|));
    assert PcOk(base, s, t, s.threads[t]);
    FoldOfOne(s.log, Inc(t, op));
    assert s'.log[..|s.log| + 1] == s'.log;
    LogKept(s, s', t);
    forall k | 0 <= k < |s.items| ensures ItemOk(s', k) && ItemKept(s, s', t, k) {
      assert ItemOk(s, k);
      if k != l { Bystander(s, s', t, k); }
    }
  }

  lemma ValueStored(base: Base, s: State, t: Tid, op: Op, l: Loc, v: nat, at: nat, next: u64)
    requires Inv(base, s) && t in s.threads && s.threads[t] == IncLoaded(op, l, v, at, next) && l < |s.items|
    ensures var s' := s.Put(l, s.items[l].(val := Num(next))).At(t, IncStored(op, l, v, at, next));
      World(s') && Frame(s, s', t) && PcOk(base, s', t, s'.threads[t])
  {
    hide MixVersion;
    var s' := s.Put(l, s.items[l].(val := Num(next))).At(t, IncStored(op, l, v, at, next));
    assert PcOk(base, s, t, s.threads[t]);
    assert IncOk(s, at);
    LogKept(s, s', t);
    forall k | 0 <= k < |s.items| ensures ItemOk(s', k) && Now(s', k) == Now(s, k) && ItemKept(s, s', t, k) {
      assert ItemOk(s, k);
      if k != l { Bystander(s, s', t, k); }
    }
  }

  lemma AcknowledgedItem(base: Base, s: State, t: Tid, op: Op, l: Loc, v: nat, at: nat, next: u64, k: Loc)
    requires Inv(base, s) && t in s.threads && s.threads[t] == IncStored(op, l, v, at, next)
    requires l < |s.items| && k < |s.items|
    ensures var s' := s.Release(l, v + 2).(acked := s.acked[at := next]).At(t, Idle);
      ItemOk(s', k) && Now(s', k) == Now(s, k) && ItemKept(s, s', t, k)
  {
    hide MixVersion, LogOk, SlotOk;
    assert PcOk(base, s, t, s.threads[t]) && ItemOk(s, k);
    if k != l { Bystander(s, s.Release(l, v + 2).(acked := s.acked[at := next]).At(t, Idle), t, k); }
  }

  lemma Acknowledged(base: Base, s: State, t: Tid, op: Op, l: Loc, v: nat, at: nat, next: u64)
    requires Inv(base, s) && t in s.threads && s.threads[t] == IncStored(op, l, v, at, next) && l < |s.items|
    ensures var s' := s.Release(l, v + 2).(acked := s.acked[at := next]).At(t, Idle);
      World(s') && Frame(s, s', t)
  {
    hide MixVersion;
    var s' := s.Release(l, v + 2).(acked := s.acked[at := next]).At(t, Idle);
    assert PcOk(base, s, t, s.threads[t]);
    LogKept(s, s', t);
    forall k | 0 <= k < |s.items| ensures ItemOk(s', k) && Now(s', k) == Now(s, k) && ItemKept(s, s', t, k) {
      AcknowledgedItem(base, s, t, op, l, v, at, next, k);
    }
    hide ItemOk, ItemKept, Now, MintOk, FreshOk, Verified;
  }

  lemma Deleted(base: Base, s: State, t: Tid)
    requires Inv(base, s) && t in s.threads && s.threads[t].Idle?
    ensures World(s.(slot := None).Record(Del)) && Frame(s, s.(slot := None).Record(Del), t)
  {
    var s' := s.(slot := None).Record(Del);
    FoldOfOne(s.log, Del);
    LogKept(s, s', t);
    forall k | 0 <= k < |s.items| ensures ItemOk(s', k) && ItemKept(s, s', t, k) {
      assert ItemOk(s, k);
      Bystander(s, s', t, k);
    }
  }

  lemma StampedItem(base: Base, s: State, t: Tid, l: Loc, v: nat, d: Loc, k: Loc)
    requires Inv(base, s) && t in s.threads && s.threads[t] == RelCopied(l, v, d) && d < |s.items| && k < |s.items|
    ensures var s' := s.Put(d, s.items[d].(version := v, odd := false)).At(t, RelStamped(l, v, d));
      ItemOk(s', k) && ItemKept(s, s', t, k) && (k != d ==> Now(s', k) == Now(s, k))
  {
    hide MixVersion;
    var s' := s.Put(d, s.items[d].(version := v, odd := false)).At(t, RelStamped(l, v, d));
    assert PcOk(base, s, t, s.threads[t]) && ItemOk(s, k);
    if k != d { Bystander(s, s', t, k); }
  }

  lemma StampedApart(base: Base, s: State, t: Tid, l: Loc, v: nat, d: Loc)
    requires Inv(base, s) && t in s.threads && s.threads[t] == RelCopied(l, v, d) && d < |s.items|
    ensures l < |s.items| && l != d && s.slot != Some(d) && LockOk(s, t, (l, v)) && s.items[l].owner.None?
    ensures s.items[d].owner == Some(t) && s.items[d].val == s.items[l].val
  {
    hide MixVersion, PendingOk, MintOk, Verified, LogOk, Now;
    assert PcOk(base, s, t, s.threads[t]);
  }

  lemma StampedPc(base: Base, s: State, t: Tid, l: Loc, v: nat, d: Loc)
    requires Inv(base, s) && t in s.threads && s.threads[t] == RelCopied(l, v, d) && d < |s.items|
    ensures var s' := s.Put(d, s.items[d].(version := v, odd := false)).At(t, RelStamped(l, v, d));
      l < |s.items| && l != d && s'.items[l] == s.items[l] && s.slot != Some(d) && PcOk(base, s', t, s'.threads[t])
  {
    StampedApart(base, s, t, l, v, d);
    hide MixVersion, PendingOk, MintOk, Verified, Inv;
  }

  lemma Stamped(base: Base, s: State, t: Tid, l: Loc, v: nat, d: Loc)
    requires Inv(base, s) && t in s.threads && s.threads[t] == RelCopied(l, v, d) && d < |s.items|
    ensures var s' := s.Put(d, s.items[d].(version := v, odd := false)).At(t, RelStamped(l, v, d));
      World(s') && Frame(s, s', t) && PcOk(base, s', t, s'.threads[t])
  {
    hide MixVersion, ItemOk, ItemKept, Now, PcOk, LogOk;
    var s' := s.Put(d, s.items[d].(version := v, odd := false)).At(t, RelStamped(l, v, d));
    StampedPc(base, s, t, l, v, d);
    LogKept(s, s', t);
    forall k | 0 <= k < |s.items|
      ensures ItemOk(s', k) && ItemKept(s, s', t, k) && (k != d ==> Now(s', k) == Now(s, k))
    {
      StampedItem(base, s, t, l, v, d, k);
    }
  }

  // ----- Every step -----

  ghost predicate Good(base: Base, s: State, s': State, t: Tid) {
    World(s') && Frame(s, s', t) && PcOk(base, s', t, s'.threads[t])
  }

  /** What a thread holds across its own step. */
  lemma TokenStays(base: Base, s: State, s': State, t: Tid, pc: Pc, pc': Pc)
    requires Frame(s, s', t) && PcOk(base, s, t, pc) && pc'.Held() == pc.Held()
    ensures pc'.Held().Some? ==> MintOk(base, s', pc'.Held().value)
  {
    if pc'.Held().Some? {
      assert ItemKept(s, s', t, pc.Held().value.loc);
      MintStays(base, s, s', pc.Held().value);
    }
  }

  lemma StartMoveKept(base: Base, s: State, t: Tid, pc': Pc)
    requires Inv(base, s) && t in s.threads && s.threads[t].Idle?
    requires pc'.IncLookup? || (s.slot.Some? && (pc' == Got(s.slot.value) || pc' == RelFound(s.slot.value)))
    ensures Good(base, s, s.At(t, pc'), t)
  {
    Moved(base, s, t, pc');
  }

  lemma SetDefinedKept(base: Base, s: State, t: Tid, val: Val)
    requires Inv(base, s) && t in s.threads && s.threads[t].Idle?
    ensures Good(base, s, s.Append(Item(val, 0, None, Some(t), false)).At(t, SetDefined(val, |s.items|)), t)
  {
    Appended(base, s, t, Item(val, 0, None, Some(t), false), SetDefined(val, |s.items|));
  }

  lemma StartKept(base: Base, s: State, s': State, t: Tid)
    requires Inv(base, s) && t in s.threads && s.threads[t].Idle? && StartStep(s, s', t)
    ensures Good(base, s, s', t)
  {
    if s' == s.(slot := None).Record(Del) {
      Deleted(base, s, t);
    } else if t in s'.threads && s'.threads[t].SetDefined? {
      SetDefinedKept(base, s, t, s'.threads[t].val);
    } else {
      StartMoveKept(base, s, t, s'.threads[t]);
    }
  }

  lemma SetKept(base: Base, s: State, s': State, t: Tid)
    requires Inv(base, s) && t in s.threads && s.threads[t].SetDefined? && SetStep(s, s', t)
    ensures Good(base, s, s', t)
  {
    assert PcOk(base, s, t, s.threads[t]);
    PublishedNew(base, s, t, s.threads[t].dst, Set(s.threads[t].val), Idle);
  }

  lemma Unmoved(base: Base, s: State, t: Tid)
    requires Inv(base, s) && t in s.threads
    ensures Good(base, s, s, t)
  {
    Moved(base, s, t, s.threads[t]);
    assert s.threads[t := s.threads[t]] == s.threads;
    assert PcOk(base, s, t, s.threads[t]);
  }

  lemma IncFoundKept(base: Base, s: State, s': State, t: Tid)
    requires Inv(base, s) && t in s.threads && s.threads[t].IncFound? && IncStep(s, s', t)
    ensures Good(base, s, s', t)
  {
    var IncFound(op, l) := s.threads[t];
    assert PcOk(base, s, t, s.threads[t]);
    if s' == s {
      Unmoved(base, s, t);
    } else if s.items[l].val.Text? {
      Moved(base, s, t, s'.threads[t]);
    } else {
      Taken(base, s, t, l, IncLocked(op, l, s.items[l].version));
    }
  }

  lemma IncMoveKept(base: Base, s: State, s': State, t: Tid)
    requires Inv(base, s) && t in s.threads && IncStep(s, s', t)
    requires var pc := s.threads[t]; pc.IncLookup? || (pc.IncLocked? && s.slot != Some(pc.loc)) || pc.IncChecked?
    ensures Good(base, s, s', t)
  {
    hide MixVersion, FreshOk, LogOk;
    assert PcOk(base, s, t, s.threads[t]);
    Moved(base, s, t, s'.threads[t]);
  }

  lemma IncLockedKept(base: Base, s: State, s': State, t: Tid, op: u64 -> u64, l: Loc, v: nat)
    requires Inv(base, s) && t in s.threads && s.threads[t] == IncLocked(op, l, v) && IncStep(s, s', t)
    ensures Good(base, s, s', t)
  {
    hide MixVersion;
    if s.slot == Some(l) { Checked(base, s, t, op, l, v); } else { IncMoveKept(base, s, s', t); }
  }

  lemma IncKept(base: Base, s: State, s': State, t: Tid)
    requires Inv(base, s) && t in s.threads && IncStep(s, s', t)
    ensures Good(base, s, s', t)
  {
    hide MixVersion, World, Frame;
    match s.threads[t]
    case IncLookup(op) => IncMoveKept(base, s, s', t);
    case IncFound(op, l) => IncFoundKept(base, s, s', t);
    case IncLocked(op, l, v) => IncLockedKept(base, s, s', t, op, l, v);
    case IncStale(op, l, v) => Released(base, s, t, l, v, IncLookup(op));
    case IncChecked(op, l, v, at) => IncMoveKept(base, s, s', t);
    case IncLoaded(op, l, v, at, next) => ValueStored(base, s, t, op, l, v, at, next);
    case IncStored(op, l, v, at, next) => Acknowledged(base, s, t, op, l, v, at, next);
  }

  /** A token minted from the item just looked up. */
  lemma MintedKept(base: Base, s: State, s': State, t: Tid)
    requires Inv(base, s) && t in s.threads && s.threads[t].Got? && CasStep(base, s, s', t)
    ensures Good(base, s, s', t)
  {
    hide MixVersion;
    var l := s.threads[t].loc;
    assert PcOk(base, s, t, s.threads[t]) && ItemOk(s, l);
    Moved(base, s, t, s'.threads[t]);
  }

  /** A compare-and-set moves on: it gives up, or keeps its token, its item and its lock. */
  lemma CasMoveKept(base: Base, s: State, t: Tid, pc': Pc)
    requires Inv(base, s) && t in s.threads && s.threads[t].Held().Some?
    requires s.threads[t].Lock() == pc'.Lock() && !pc'.RelCopied? && !pc'.RelStamped? && !pc'.RelText?
    requires pc'.Source() == s.threads[t].Source() || pc'.Source() == None || (s.slot.Some? && pc'.Source() == s.slot)
    requires pc'.Fresh() == None
             || (pc'.Fresh() == s.threads[t].Fresh() && pc'.Chosen() == s.threads[t].Chosen() != None)
    requires pc'.Held() == None || pc'.Held() == s.threads[t].Held()
    requires pc'.CasVerified? ==> PcOk(base, s, t, pc')
    requires !PastPc(pc') && pc'.Pending() == None && !pc'.IncStored?
    ensures Good(base, s, s.At(t, pc'), t)
  {
    hide MixVersion;
    assert PcOk(base, s, t, s.threads[t]);
    Moved(base, s, t, pc');
    if pc'.Held().Some? { TokenStays(base, s, s.At(t, pc'), t, s.threads[t], pc'); }
  }

  lemma CasFindKept(base: Base, s: State, s': State, t: Tid)
    requires Inv(base, s) && t in s.threads && CasStep(base, s, s', t)
    requires var pc := s.threads[t]; pc.Holding? || pc.CasLookup? || pc.CasPinned? || pc.CasFresh?
    ensures Good(base, s, s', t)
  {
    hide MixVersion;
    assert PcOk(base, s, t, s.threads[t]);
    CasMoveKept(base, s, t, s'.threads[t]);
  }

  lemma CasCheckKept(base: Base, s: State, s': State, t: Tid)
    requires Inv(base, s) && t in s.threads && CasStep(base, s, s', t)
    requires s.threads[t].CasReserved? || s.threads[t].CasLocked?
    ensures Good(base, s, s', t)
  {
    hide MixVersion;
    assert PcOk(base, s, t, s.threads[t]);
    CasMoveKept(base, s, t, s'.threads[t]);
  }

  lemma CasReserveKept(base: Base, s: State, s': State, t: Tid)
    requires Inv(base, s) && t in s.threads && s.threads[t].CasChecked? && CasStep(base, s, s', t)
    ensures Good(base, s, s', t)
  {
    var CasChecked(tk, val, l) := s.threads[t];
    assert PcOk(base, s, t, s.threads[t]);
    Appended(base, s, t, Item(val, 0, None, Some(t), false), CasReserved(tk, val, l, |s.items|));
    TokenStays(base, s, s', t, s.threads[t], s'.threads[t]);
  }

  lemma CasLinkedKept(base: Base, s: State, s': State, t: Tid)
    requires Inv(base, s) && t in s.threads && s.threads[t].CasLinked? && CasStep(base, s, s', t)
    ensures Good(base, s, s', t)
  {
    hide MixVersion, LogOk, SlotOk, PendingOk;
    var CasLinked(tk, val, l, d) := s.threads[t];
    assert PcOk(base, s, t, s.threads[t]);
    if s' == s {
      Unmoved(base, s, t);
    } else {
      if s.items[l].val.Text? {
        Moved(base, s, t, s'.threads[t]);
      } else {
        Taken(base, s, t, l, CasLocked(tk, val, l, d, s.items[l].version));
      }
      if s'.threads[t].Held().Some? { TokenStays(base, s, s', t, s.threads[t], s'.threads[t]); }
    }
  }

  /** Versions that have not wrapped are told apart by their tokens. */
  lemma SameVersion(base: Base, tk: Token, v: nat)
    requires v < TWO_64 && tk.val.Num? && tk.ver % 2 == 0 ==> tk.ver <= v
    requires v < TWO_64 && v % 2 == 0 && tk.val.Num?
    requires tk.bits == TokenBits(base, tk.loc, tk.val, tk.ver) == MixVersion(base(tk.loc), v % TWO_64)
    ensures tk.ver == v
  {
    MixInjective(base(tk.loc), tk.ver % TWO_64, v % TWO_64);
    assert tk.ver % TWO_64 == v;
    ParityOfWord(tk.ver);
  }

  lemma ParityOfWord(n: nat)
    ensures n % TWO_64 % 2 == n % 2
  {
    assert n == n / TWO_64 * TWO_64 + n % TWO_64;
  }

  lemma VerifiedFacts(base: Base, s: State, t: Tid)
    requires Inv(base, s) && t in s.threads && s.threads[t].CasVerified?
    ensures var CasVerified(tk, val, l, d, g) := s.threads[t];
      && MintOk(base, s, tk) && l < |s.items| && Verified(base, s, tk, l, g)
      && (g.Some? ==> LockOk(s, t, (l, g.value)))
      && (s.items[l].val.Text? ==> s.items[l].version == 0 && s.items[l].holder.None?)
  {
    hide MixVersion;
    assert PcOk(base, s, t, s.threads[t]);
    assert ItemOk(s, s.threads[t].loc);
  }

  /** A verified token of the item still published was minted by the latest operation. */
  lemma VerifiedIsLatest(base: Base, s: State, t: Tid)
    requires Inv(base, s) && NoWrap(s) && t in s.threads && s.threads[t].CasVerified?
    requires s.slot == Some(s.threads[t].loc) && s.threads[t].tk.loc == s.threads[t].loc
    ensures var tk := s.threads[t].tk;
      tk.ver % 2 == 0 && tk.len == |s.log| && Fold(s.log) == Some(tk.val)
  {
    var CasVerified(tk, val, l, d, g) := s.threads[t];
    VerifiedFacts(base, s, t);
    VerifiedVersion(base, s, t, tk, g);
    hide PcOk, LogOk, ItemOk, MixVersion, NoWrap, Verified;
    assert Quiet(s, l, tk.ver) && Now(s, l) == s.items[l].val;
  }

  /** The item still has the version the token was minted at, but for the lock. */
  lemma VerifiedVersion(base: Base, s: State, t: Tid, tk: Token, g: Option<nat>)
    requires tk.loc < |s.items| && MintOk(base, s, tk) && Verified(base, s, tk, tk.loc, g) && NoWrap(s)
    requires g.Some? ==> LockOk(s, t, (tk.loc, g.value))
    requires s.items[tk.loc].val.Text? ==> s.items[tk.loc].version == 0
    ensures tk.ver % 2 == 0 && s.items[tk.loc].version <= tk.ver + 1
  {
    hide MixVersion;
    if g.Some? { SameVersion(base, tk, g.value); }
  }

  lemma PublishedPcKept(base: Base, s: State, s': State, t: Tid, pc: Pc)
    requires PcOk(base, s, t, pc) && pc.CasVerified?
    requires pc.loc < |s'.items| && s'.items[pc.loc] == s.items[pc.loc]
    ensures PcOk(base, s', t, CasPublished(pc.loc, pc.guard))
  {
    hide MintOk, FreshOk, PendingOk, Verified;
  }

  lemma CasPublishKept(base: Base, s: State, t: Tid, pc: Pc)
    requires Inv(base, s) && t in s.threads && s.threads[t] == pc && pc.CasVerified? && pc.dst < |s.items|
    requires pc.tk.loc == pc.loc ==> pc.tk.ver % 2 == 0 && pc.tk.len == |s.log| && Fold(s.log) == Some(pc.tk.val)
    ensures Good(base, s, s.Publish(pc.dst).Record(Cas(pc.val, pc.tk, pc.loc)).At(t, CasPublished(pc.loc, pc.guard)), t)
  {
    hide MixVersion;
    assert PcOk(base, s, t, pc);
    PublishedNew(base, s, t, pc.dst, Cas(pc.val, pc.tk, pc.loc), CasPublished(pc.loc, pc.guard));
    PublishedPcKept(base, s, s.Publish(pc.dst).Record(Cas(pc.val, pc.tk, pc.loc)).At(t,
        CasPublished(pc.loc, pc.guard)), t, pc);
  }

  lemma CasVerifiedKept(base: Base, s: State, s': State, t: Tid)
    requires Inv(base, s) && NoWrap(s) && t in s.threads && s.threads[t].CasVerified? && CasStep(base, s, s', t)
    ensures Good(base, s, s', t)
  {
    hide MixVersion;
    var pc := s.threads[t];
    var lost := CasLost(pc.tk, pc.val, pc.loc, pc.dst, pc.guard);
    if s' == s.At(t, lost) {
      CasMoveKept(base, s, t, lost);
    } else {
      if pc.tk.loc == pc.loc { VerifiedIsLatest(base, s, t); }
      CasPublishKept(base, s, t, pc);
    }
  }

  lemma CasGiveUpKept(base: Base, s: State, s': State, t: Tid)
    requires Inv(base, s) && t in s.threads && CasStep(base, s, s', t)
    requires s.threads[t].CasPublished? || s.threads[t].CasMismatch?
    ensures Good(base, s, s', t)
  {
    var pc := s.threads[t];
    if pc.Lock().Some? {
      Released(base, s, t, pc.loc, pc.Lock().value.1, Idle);
    } else {
      Moved(base, s, t, Idle);
    }
  }

  lemma CasLostKept(base: Base, s: State, s': State, t: Tid)
    requires Inv(base, s) && t in s.threads && s.threads[t].CasLost? && CasStep(base, s, s', t)
    ensures Good(base, s, s', t)
  {
    hide MixVersion;
    var CasLost(tk, val, l, d, g) := s.threads[t];
    var pc' := CasReserved(tk, val, l, d);
    assert PcOk(base, s, t, s.threads[t]);
    if g.Some? {
      Released(base, s, t, l, g.value, pc');
    } else {
      Moved(base, s, t, pc');
    }
    TokenStays(base, s, s', t, s.threads[t], pc');
  }

  lemma CasKept(base: Base, s: State, s': State, t: Tid)
    requires Inv(base, s) && NoWrap(s) && t in s.threads && CasStep(base, s, s', t)
    ensures Good(base, s, s', t)
  {
    match s.threads[t]
    case Got(_) => MintedKept(base, s, s', t);
    case CasChecked(_, _, _) => CasReserveKept(base, s, s', t);
    case CasLinked(_, _, _, _) => CasLinkedKept(base, s, s', t);
    case CasVerified(_, _, _, _, _) => CasVerifiedKept(base, s, s', t);
    case CasMismatch(_, _) => CasGiveUpKept(base, s, s', t);
    case CasPublished(_, _) => CasGiveUpKept(base, s, s', t);
    case CasLost(_, _, _, _, _) => CasLostKept(base, s, s', t);
    case CasReserved(_, _, _, _) => CasCheckKept(base, s, s', t);
    case CasLocked(_, _, _, _, _) => CasCheckKept(base, s, s', t);
    case _ => CasFindKept(base, s, s', t);
  }

  lemma RelFoundKept(base: Base, s: State, s': State, t: Tid)
    requires Inv(base, s) && t in s.threads && s.threads[t].RelFound? && RelStep(s, s', t)
    ensures Good(base, s, s', t)
  {
    hide MixVersion;
    var l := s.threads[t].loc;
    assert PcOk(base, s, t, s.threads[t]) && ItemOk(s, l);
    if s' == s {
      Unmoved(base, s, t);
    } else if s.items[l].val.Text? {
      Appended(base, s, t, s.items[l].(owner := Some(t)), RelText(l, |s.items|));
    } else {
      Taken(base, s, t, l, RelLocked(l, s.items[l].version));
    }
  }

  lemma RelCopyKept(base: Base, s: State, s': State, t: Tid)
    requires Inv(base, s) && t in s.threads && s.threads[t].RelLocked? && RelStep(s, s', t)
    ensures Good(base, s, s', t)
  {
    var RelLocked(l, v) := s.threads[t];
    assert PcOk(base, s, t, s.threads[t]);
    Appended(base, s, t, Item(s.items[l].val, s.items[l].version, None, Some(t), true), RelCopied(l, v, |s.items|));
  }

  lemma RelPublishKept(base: Base, s: State, s': State, t: Tid)
    requires Inv(base, s) && t in s.threads && (s.threads[t].RelStamped? || s.threads[t].RelText?) && RelStep(s, s', t)
    ensures Good(base, s, s', t)
  {
    hide MixVersion, World, Frame;
    var pc := s.threads[t];
    assert PcOk(base, s, t, pc);
    if s.slot == Some(pc.loc) {
      PublishedCopy(base, s, t, pc.loc, pc.dst, s'.threads[t]);
    } else {
      Moved(base, s, t, s'.threads[t]);
    }
  }

  lemma RelKept(base: Base, s: State, s': State, t: Tid)
    requires Inv(base, s) && t in s.threads && RelStep(s, s', t)
    ensures Good(base, s, s', t)
  {
    match s.threads[t]
    case RelFound(_) => RelFoundKept(base, s, s', t);
    case RelLocked(_, _) => RelCopyKept(base, s, s', t);
    case RelCopied(l, v, d) => Stamped(base, s, t, l, v, d);
    case RelStamped(_, _, _) => RelPublishKept(base, s, s', t);
    case RelUnlock(l, v) => Released(base, s, t, l, v, Idle);
    case RelText(_, _) => RelPublishKept(base, s, s', t);
  }

  lemma StepGood(base: Base, s: State, s': State, t: Tid)
    requires Inv(base, s) && NoWrap(s) && Step(base, s, s', t)
    ensures Good(base, s, s', t)
  {
    var pc := s.threads[t];
    if pc.Idle? && StartStep(s, s', t) { StartKept(base, s, s', t); }
    else if pc.SetDefined? && SetStep(s, s', t) { SetKept(base, s, s', t); }
    else if IncStep(s, s', t) { IncKept(base, s, s', t); }
    else if CasStep(base, s, s', t) { CasKept(base, s, s', t); }
    else { RelKept(base, s, s', t); }
  }

  lemma StepKeepsInv(base: Base, s: State, s': State, t: Tid)
    requires Inv(base, s) && NoWrap(s) && Step(base, s, s', t)
    ensures Inv(base, s')
  {
    StepGood(base, s, s', t);
    forall u | u in s'.threads ensures PcOk(base, s', u, s'.threads[u]) {
      if u != t { OthersKept(base, s, s', t, u); }
    }
  }

  // ----- Runs -----

  ghost predicate Moves(base: Base, s: State, s': State) { exists t :: Step(base, s, s', t) }

  ghost predicate Run(base: Base, run: seq<State>) {
    && run != [] && Init(run[0])
    && forall i, j | 0 <= i && j == i + 1 < |run| :: NoWrap(run[i]) && Moves(base, run[i], run[j])
  }

  lemma {:induction false} RunInv(base: Base, run: seq<State>, n: nat)
    requires Run(base, run) && n < |run|
    ensures Inv(base, run[n])
  {
    if n > 0 {
      RunInv(base, run, n - 1);
      assert Moves(base, run[n - 1], run[n]);
      var t :| Step(base, run[n - 1], run[n], t);
      StepKeepsInv(base, run[n - 1], run[n], t);
    }
  }

  /**
   * In every run, whenever no increment is past its linkage check and short of
   * its release, the published value is the fold of the operations in the order
   * they took effect. At every moment each increment of the log is acknowledged
   * or still running in its thread, never both, and an acknowledged one returned
   * the value right after it: none is lost and none is applied twice.
   */
  lemma NoIncrementLost(base: Base, run: seq<State>)
    requires Run(base, run)
    ensures var s := run[|run| - 1];
      && (s.slot.None? ==> Fold(s.log) == None)
      && (s.slot.Some? ==>
            && s.slot.value < |s.items|
            && (!Past(s, s.slot.value) ==> Fold(s.log) == Some(s.items[s.slot.value].val)))
      && (forall i | i in s.acked :: i < |s.log| && s.log[i].Inc? && Fold(s.log[..i + 1]) == Some(Num(s.acked[i])))
      && (forall i | 0 <= i < |s.log| && s.log[i].Inc? ::
            i in s.acked <==> !(s.log[i].t in s.threads && s.threads[s.log[i].t].Pending() == Some(i)))
  {
    var s := run[|run| - 1];
    RunInv(base, run, |run| - 1);
    forall i | i in s.acked
      ensures i < |s.log| && s.log[i].Inc? && Fold(s.log[..i + 1]) == Some(Num(s.acked[i]))
    {
      assert IncOk(s, i);
    }
    forall i | 0 <= i < |s.log| && s.log[i].Inc?
      ensures i in s.acked <==> !(s.log[i].t in s.threads && s.threads[s.log[i].t].Pending() == Some(i))
    {
      assert IncOk(s, i);
      if s.log[i].t in s.threads && s.threads[s.log[i].t].Pending() == Some(i) {
        assert PcOk(base, s, s.log[i].t, s.threads[s.log[i].t]);
      }
    }
  }

  /**
   * In every run a compare-and-set that replaced the item its token was minted
   * from did so right after the mint: the token carried an even version, no
   * operation took effect in between, and the value replaced is the one the
   * token was minted from.
   */
  lemma CasReplacesWhatItSaw(base: Base, run: seq<State>, i: nat)
    requires Run(base, run) && i < |run[|run| - 1].log| && run[|run| - 1].log[i].Cas?
    ensures var log := run[|run| - 1].log;
      log[i].tk.loc == log[i].loc ==>
        log[i].tk.ver % 2 == 0 && log[i].tk.len == i && Fold(log[..i]) == Some(log[i].tk.val)
  {
    RunInv(base, run, |run| - 1);
    assert CasOk(run[|run| - 1], i);
  }

  /** How many more steps a thread holds its version lock. */
  function HoldTime(pc: Pc): nat {
    match pc
    case IncLocked(_, _, _) => 4
    case IncChecked(_, _, _, _) => 3
    case IncLoaded(_, _, _, _, _) => 2
    case IncStored(_, _, _, _, _) => 1
    case IncStale(_, _, _) => 1
    case CasLocked(_, _, _, _, _) => 3
    case CasVerified(_, _, _, _, _) => 2
    case CasPublished(_, _) => 1
    case CasLost(_, _, _, _, _) => 1
    case CasMismatch(_, _) => 1
    case RelLocked(_, _) => 4
    case RelCopied(_, _, _) => 3
    case RelStamped(_, _, _) => 2
    case RelUnlock(_, _) => 1
    case _ => 0
  }

  /** The step `t` takes when it holds a lock. */
  ghost function HolderStep(base: Base, s: State, t: Tid): State
    requires Inv(base, s) && t in s.threads && s.threads[t].Lock().Some?
  {
    assert PcOk(base, s, t, s.threads[t]);
    match s.threads[t]
    case IncLocked(op, l, v) =>
      if s.slot == Some(l) then s.Record(Inc(t, op)).At(t, IncChecked(op, l, v, |s.log|))
      else s.At(t, IncStale(op, l, v))
    case IncStale(op, l, v) => s.Release(l, v).At(t, IncLookup(op))
    case IncChecked(op, l, v, at) => s.At(t, IncLoaded(op, l, v, at, op(s.items[l].val.n)))
    case IncLoaded(op, l, v, at, next) => s.Put(l, s.items[l].(val := Num(next))).At(t, IncStored(op, l, v, at, next))
    case IncStored(op, l, v, at, next) => s.Release(l, v + 2).(acked := s.acked[at := next]).At(t, Idle)
    case CasLocked(tk, val, l, d, v) =>
      s.At(t, if MixVersion(base(l), v % TWO_64) == tk.bits
              then CasVerified(tk, val, l, d, Some(v)) else CasMismatch(l, v))
    case CasVerified(tk, val, l, d, g) =>
      if s.slot == Some(l) then s.Publish(d).Record(Cas(val, tk, l)).At(t, CasPublished(l, g))
      else s.At(t, CasLost(tk, val, l, d, g))
    case CasPublished(l, g) => s.Release(l, g.value).At(t, Idle)
    case CasLost(tk, val, l, d, g) => s.Release(l, g.value).At(t, CasReserved(tk, val, l, d))
    case CasMismatch(l, v) => s.Release(l, v).At(t, Idle)
    case RelLocked(l, v) =>
      s.Append(Item(s.items[l].val, s.items[l].version, None, Some(t), true)).At(t, RelCopied(l, v, |s.items|))
    case RelCopied(l, v, d) => s.Put(d, s.items[d].(version := v, odd := false)).At(t, RelStamped(l, v, d))
    case RelStamped(l, v, d) => (if s.slot == Some(l) then s.Publish(d) else s).At(t, RelUnlock(l, v))
    case RelUnlock(l, v) => s.Release(l, v).At(t, Idle)
  }

  lemma HolderStepIsStep(base: Base, s: State, t: Tid)
    requires Inv(base, s) && t in s.threads && s.threads[t].Lock().Some?
    ensures Step(base, s, HolderStep(base, s, t), t)
  {
    hide MixVersion;
    assert PcOk(base, s, t, s.threads[t]);
  }

  ghost predicate Nearer(s: State, s': State, t: Tid) {
    && t in s.threads && t in s'.threads
    && (s'.threads[t].Lock().Some? ==>
          s'.threads[t].Lock() == s.threads[t].Lock() && HoldTime(s'.threads[t]) < HoldTime(s.threads[t]))
  }

  lemma IncComesNearer(s: State, s': State, t: Tid)
    requires t in s.threads && s.threads[t].Lock().Some? && IncStep(s, s', t)
    ensures Nearer(s, s', t)
  {
  }

  lemma CasComesNearer(base: Base, s: State, s': State, t: Tid)
    requires t in s.threads && s.threads[t].Lock().Some? && CasStep(base, s, s', t)
    ensures Nearer(s, s', t)
  {
    hide MixVersion;
  }

  /** Each step of a lock holder keeps the lock and comes nearer to releasing it, or releases it. */
  lemma HolderComesNearer(base: Base, s: State, s': State, t: Tid)
    requires t in s.threads && s.threads[t].Lock().Some? && Step(base, s, s', t)
    ensures Nearer(s, s', t)
  {
    hide MixVersion;
    if IncStep(s, s', t) { IncComesNearer(s, s', t); }
    else if CasStep(base, s, s', t) { CasComesNearer(base, s, s', t); }
  }

  /**
   * No item is published with a version that stays odd: in every run the odd
   * version of the published item has a holder, the holder always has a step of
   * its own, and at most four of them release the lock.
   */
  lemma PublishedVersionIsNotStuck(base: Base, run: seq<State>)
    requires Run(base, run)
    ensures var s := run[|run| - 1];
      s.slot.Some? ==>
        && s.slot.value < |s.items|
        && var item := s.items[s.slot.value];
           item.version % 2 == 1 ==>
             && item.holder.Some? && item.holder.value in s.threads
             && var t := item.holder.value;
                && s.threads[t].Lock() == Some((s.slot.value, item.version - 1)) && 1 <= HoldTime(s.threads[t]) <= 4
                && (exists s' :: Step(base, s, s', t))
                && (forall s' | Step(base, s, s', t) :: Nearer(s, s', t))
  {
    hide MixVersion;
    var s := run[|run| - 1];
    RunInv(base, run, |run| - 1);
    if s.slot.Some? && s.items[s.slot.value].version % 2 == 1 {
      assert ItemOk(s, s.slot.value);
      var t := s.items[s.slot.value].holder.value;
      HolderStepIsStep(base, s, t);
      forall s' | Step(base, s, s', t)
        ensures Nearer(s, s', t)
      {
        HolderComesNearer(base, s, s', t);
      }
    }
  }
}
