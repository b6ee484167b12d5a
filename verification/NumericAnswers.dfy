/**
 * What the operations on a number answer: a compare-and-set is refused only for a
 * reason, an increment ends with its acknowledgement or has found no number, and
 * a relocation publishes its copy or has come too late. The reasons are facts of
 * some state during the attempt, not of the thread's own bookkeeping.
 */
module NumericAnswers {
  import opened Bytes
  import opened Wrappers
  import opened CasToken
  import opened NumericProtocol

  // ----- While nothing has happened since the mint -----

  /**
   * While no operation has taken effect since a token was minted at an even
   * version, and its item is still published, the item is as it was, but for a
   * lock somebody may hold without having used it.
   */
  ghost predicate Minted(s: State, tk: Token) {
    && tk.len <= |s.log|
    && (tk.ver % 2 == 0 && s.slot == Some(tk.loc) && |s.log| == tk.len && tk.loc < |s.items| ==>
          var item := s.items[tk.loc];
          && item.val == tk.val && !Past(s, tk.loc)
          && item.version == tk.ver + if item.holder.Some? then 1 else 0)
  }

  /** What a step of `t` that logs nothing may do to a published item. */
  ghost predicate Tame(s: State, s': State, t: Tid, l: Loc)
    requires l < |s.items| && l < |s'.items|
  {
    var (a, b) := (s.items[l], s'.items[l]);
    || Past(s, l)
    || (b == a && !Past(s', l))
    || (a.holder.None? && b == a.(version := a.version + 1, holder := Some(t)) && !Past(s', l))
    || (a.holder.Some? && a.version > 0 && b == a.(version := a.version - 1, holder := None))
  }

  /** The item is left alone, and its holder, if it is `t`, is not past its linkage check afterwards. */
  lemma AsideIsTame(s: State, s': State, t: Tid, l: Loc)
    requires l < |s.items| && l < |s'.items| && s'.items[l] == s.items[l]
    requires t in s.threads && t in s'.threads && s'.threads == s.threads[t := s'.threads[t]]
    requires s.items[l].holder == Some(t) ==> PastPc(s'.threads[t]) ==> PastPc(s.threads[t])
    ensures Tame(s, s', t, l)
  {
  }

  lemma StartTame(s: State, s': State, t: Tid, l: Loc)
    requires t in s.threads && s.threads[t].Idle? && StartStep(s, s', t) && l < |s.items|
    ensures t in s'.threads && l < |s'.items| && Tame(s, s', t, l)
  {
    hide Tame;
    AsideIsTame(s, s', t, l);
  }

  lemma SetTame(s: State, s': State, t: Tid, l: Loc)
    requires t in s.threads && s.threads[t].SetDefined? && SetStep(s, s', t) && l < |s.items| && l != s.threads[t].dst
    ensures t in s'.threads && l < |s'.items| && Tame(s, s', t, l)
  {
    hide Tame;
    AsideIsTame(s, s', t, l);
  }

  lemma IncTame(base: Base, s: State, s': State, t: Tid, l: Loc)
    requires Inv(base, s) && t in s.threads && IncStep(s, s', t) && l < |s.items| && s'.log == s.log
    requires s.items[l].owner.None?
    ensures t in s'.threads && l < |s'.items| && Tame(s, s', t, l)
  {
    hide MixVersion, LogOk, SlotOk, MintOk, FreshOk, PendingOk;
    var pc := s.threads[t];
    assert PcOk(base, s, t, pc) && ItemOk(s, l);
    if pc.Source().Some? && pc.Source().value == l && s'.items[l] != s.items[l] {
      if PastPc(pc) { assert Past(s, l); }
    } else {
      AsideIsTame(s, s', t, l);
    }
  }

  lemma CasTame(base: Base, s: State, s': State, t: Tid, l: Loc)
    requires Inv(base, s) && t in s.threads && CasStep(base, s, s', t) && l < |s.items| && s'.log == s.log
    requires s.items[l].owner.None?
    ensures t in s'.threads && l < |s'.items| && Tame(s, s', t, l)
  {
    hide MixVersion, LogOk, SlotOk, MintOk, FreshOk, PendingOk, TokenBits;
    var pc := s.threads[t];
    assert PcOk(base, s, t, pc) && ItemOk(s, l);
    if s'.items[l] == s.items[l] { AsideIsTame(s, s', t, l); }
  }

  lemma RelTame(base: Base, s: State, s': State, t: Tid, l: Loc)
    requires Inv(base, s) && t in s.threads && RelStep(s, s', t) && l < |s.items| && s'.log == s.log
    requires s.items[l].owner.None?
    ensures t in s'.threads && l < |s'.items| && Tame(s, s', t, l)
  {
    hide MixVersion, LogOk, SlotOk, MintOk, PendingOk;
    var pc := s.threads[t];
    assert PcOk(base, s, t, pc) && ItemOk(s, l);
    if s'.items[l] == s.items[l] { AsideIsTame(s, s', t, l); }
  }

  lemma StepTame(base: Base, s: State, s': State, t: Tid, l: Loc)
    requires Inv(base, s) && Step(base, s, s', t) && l < |s.items| && s.items[l].owner.None? && s'.log == s.log
    ensures t in s'.threads && l < |s'.items| && Tame(s, s', t, l)
  {
    hide Inv, Tame, StartStep, IncStep, CasStep, RelStep;
    if s.threads[t].Idle? && StartStep(s, s', t) { StartTame(s, s', t, l); }
    else if s.threads[t].SetDefined? && SetStep(s, s', t) { SetLogs(s, s', t); }
    else if IncStep(s, s', t) { IncTame(base, s, s', t, l); }
    else if CasStep(base, s, s', t) { CasTame(base, s, s', t, l); }
    else { RelTame(base, s, s', t, l); }
  }

  lemma SetLogs(s: State, s': State, t: Tid)
    requires t in s.threads && s.threads[t].SetDefined? && SetStep(s, s', t)
    ensures s'.log != s.log
  {
  }

  lemma MintedStays(base: Base, s: State, s': State, t: Tid, tk: Token)
    requires Inv(base, s) && Step(base, s, s', t) && MintOk(base, s, tk) && Minted(s, tk)
    requires Frame(s, s', t)
    ensures Minted(s', tk)
  {
    hide Inv, Step, MixVersion, TokenBits;
    var l := tk.loc;
    assert ItemKept(s, s', t, l);
    if tk.ver % 2 == 0 && s'.slot == Some(l) && |s'.log| == tk.len {
      assert s'.log == s.log && s.slot == Some(l);
      StepTame(base, s, s', t, l);
      HolderIsThere(base, s, l);
    }
  }

  lemma HolderIsThere(base: Base, s: State, l: Loc)
    requires Inv(base, s) && l < |s.items|
    ensures s.items[l].holder.Some? ==> Held(s, l)
  {
    assert ItemOk(s, l);
  }

  /** A token minted just now. */
  lemma MintedNow(base: Base, s: State, s': State, t: Tid)
    requires Inv(base, s) && t in s.threads && s.threads[t].Got? && CasStep(base, s, s', t)
    ensures t in s'.threads && s'.threads[t].Holding? && Minted(s', s'.threads[t].tk)
  {
    hide MixVersion, TokenBits, LogOk, SlotOk;
    var l := s.threads[t].loc;
    assert PcOk(base, s, t, s.threads[t]) && ItemOk(s, l);
    assert s'.items == s.items;
    if s.items[l].version % 2 == 0 { assert s.items[l].holder.None?; }
  }

  ghost predicate AllMinted(s: State) {
    forall t | t in s.threads && s.threads[t].Held().Some? :: Minted(s, s.threads[t].Held().value)
  }

  lemma OthersHoldNoToken(s: State, s': State, t: Tid)
    requires t in s.threads
    requires || (s.threads[t].Idle? && StartStep(s, s', t)) || (s.threads[t].SetDefined? && SetStep(s, s', t))
             || IncStep(s, s', t) || RelStep(s, s', t)
    ensures t in s'.threads && s'.threads[t].Held().None?
  {
  }

  lemma CasTokenFromBefore(base: Base, s: State, s': State, t: Tid)
    requires t in s.threads && CasStep(base, s, s', t) && !s.threads[t].Got?
    ensures t in s'.threads && (s'.threads[t].Held().Some? ==> s.threads[t].Held() == s'.threads[t].Held())
  {
    hide MixVersion, TokenBits;
  }

  lemma TokenFromBefore(base: Base, s: State, s': State, t: Tid)
    requires Step(base, s, s', t) && t in s'.threads && s'.threads[t].Held().Some? && !s.threads[t].Got?
    ensures s.threads[t].Held() == s'.threads[t].Held()
  {
    hide IncStep, CasStep, RelStep, SetStep, StartStep;
    if CasStep(base, s, s', t) { CasTokenFromBefore(base, s, s', t); }
    else { OthersHoldNoToken(s, s', t); }
  }

  lemma AllMintedKept(base: Base, s: State, s': State, t: Tid)
    requires Inv(base, s) && NoWrap(s) && AllMinted(s) && Step(base, s, s', t)
    ensures AllMinted(s')
  {
    StepGood(base, s, s', t);
    hide Step, Inv, Minted, NoWrap, World;
    forall u | u in s'.threads && s'.threads[u].Held().Some? ensures Minted(s', s'.threads[u].Held().value) {
      if u == t && s.threads[t].Got? {
        GotSteps(base, s, s', t);
        MintedNow(base, s, s', t);
      } else {
        if u == t { TokenFromBefore(base, s, s', t); }
        HeldIsMinted(base, s, u);
        MintedStays(base, s, s', t, s'.threads[u].Held().value);
      }
    }
  }

  lemma GotSteps(base: Base, s: State, s': State, t: Tid)
    requires Step(base, s, s', t) && s.threads[t].Got?
    ensures CasStep(base, s, s', t)
  {
  }

  lemma HeldIsMinted(base: Base, s: State, u: Tid)
    requires Inv(base, s) && u in s.threads && s.threads[u].Held().Some?
    ensures MintOk(base, s, s.threads[u].Held().value)
  {
    assert PcOk(base, s, u, s.threads[u]);
  }

  // ----- Runs and attempts -----

  /** A run and the thread that takes each of its steps. */
  ghost predicate RunBy(base: Base, run: seq<State>, who: seq<Tid>) {
    && |run| == |who| + 1 && Init(run[0])
    && forall i, j | 0 <= i && j == i + 1 < |run| :: NoWrap(run[i]) && Step(base, run[i], run[j], who[i])
  }

  lemma {:induction false} RunMinted(base: Base, run: seq<State>, who: seq<Tid>, n: nat)
    requires RunBy(base, run, who) && n < |run|
    ensures Inv(base, run[n]) && AllMinted(run[n])
  {
    hide Step, NoWrap, Inv, Minted;
    if n == 0 {
      InitMinted(base, run[0]);
    } else {
      RunMinted(base, run, who, n - 1);
      StepKeepsInv(base, run[n - 1], run[n], who[n - 1]);
      AllMintedKept(base, run[n - 1], run[n], who[n - 1]);
    }
  }

  lemma InitMinted(base: Base, s: State)
    requires Init(s)
    ensures Inv(base, s) && AllMinted(s)
  {
  }

  lemma OthersStay(base: Base, run: seq<State>, who: seq<Tid>, t: Tid, j: nat)
    requires RunBy(base, run, who) && j + 1 < |run| && t in run[j].threads
    ensures Inv(base, run[j]) && AllMinted(run[j]) && Step(base, run[j], run[j + 1], who[j])
    ensures t in run[j + 1].threads && (who[j] != t ==> run[j + 1].threads[t] == run[j].threads[t])
    ensures run[j].log <= run[j + 1].log
  {
    hide Step, NoWrap, Inv, Minted, World, AllMinted;
    RunMinted(base, run, who, j);
    StepGood(base, run[j], run[j + 1], who[j]);
  }

  /** In step `k` thread `t` makes `e` take effect. */
  ghost predicate Effects(run: seq<State>, who: seq<Tid>, t: Tid, k: nat, e: Event)
    requires |run| == |who| + 1 && k < |who|
  {
    who[k] == t && run[k + 1].log == run[k].log + [e]
  }

  // ----- A compare-and-set is refused only for a reason -----

  /**
   * What may refuse a token: an operation has taken effect since the mint, the
   * item is no longer published, the token was minted in the middle of an update,
   * or another thread holds the lock of the item.
   */
  ghost predicate Excuse(s: State, t: Tid, tk: Token) {
    || |s.log| > tk.len || s.slot != Some(tk.loc) || tk.ver % 2 == 1
    || (tk.loc < |s.items| && s.items[tk.loc].holder.Some? && s.items[tk.loc].holder != Some(t))
  }

  ghost predicate Excused(run: seq<State>, t: Tid, tk: Token, i: nat, j: nat) {
    exists k :: i <= k <= j && k < |run| && Excuse(run[k], t, tk)
  }

  ghost predicate Succeeded(run: seq<State>, who: seq<Tid>, t: Tid, tk: Token, val: Val, i: nat, j: nat)
    requires |run| == |who| + 1
  {
    exists k, loc :: i <= k < j && k < |who| && Effects(run, who, t, k, Cas(val, tk, loc))
  }

  /** The thread is at a compare-and-set of `val` with this token. */
  predicate Compares(pc: Pc, tk: Token, val: Val) {
    match pc
    case CasLookup(k, v) => k == tk && v == val
    case CasPinned(k, v, _) => k == tk && v == val
    case CasFresh(k, v, _) => k == tk && v == val
    case CasChecked(k, v, _) => k == tk && v == val
    case CasReserved(k, v, _, _) => k == tk && v == val
    case CasLinked(k, v, _, _) => k == tk && v == val
    case CasLocked(k, v, _, _, _) => k == tk && v == val
    case CasVerified(k, v, _, _, _) => k == tk && v == val
    case CasLost(k, v, _, _, _) => k == tk && v == val
    case _ => false
  }

  /** Where a compare-and-set that began in state `i` stands: on the way, refused for a reason, or done. */
  ghost predicate Standing(run: seq<State>, who: seq<Tid>, t: Tid, tk: Token, val: Val, i: nat, j: nat)
    requires |run| == |who| + 1 && j < |run| && t in run[j].threads
  {
    var pc := run[j].threads[t];
    || (Compares(pc, tk, val) && (!pc.CasLookup? ==> pc.loc == tk.loc || Excused(run, t, tk, i, j)))
    || (pc.CasMismatch? && Excused(run, t, tk, i, j))
    || (pc.CasPublished? && Succeeded(run, who, t, tk, val, i, j))
    || (pc.Idle? && (Excused(run, t, tk, i, j) || Succeeded(run, who, t, tk, val, i, j)))
  }

  /** One step of the compare-and-set. */
  ghost predicate Goes(s: State, s': State, t: Tid, tk: Token, val: Val)
    requires t in s.threads && t in s'.threads
  {
    var (pc, pc') := (s.threads[t], s'.threads[t]);
    var still := Compares(pc, tk, val) ==> pc.CasLookup? || pc.loc == tk.loc;
    if Compares(pc, tk, val) then
      || (Compares(pc', tk, val) && (!pc'.CasLookup? ==> (still && pc'.loc == tk.loc) || !still || Excuse(s, t, tk)))
      || (pc'.CasPublished? && exists loc :: s'.log == s.log + [Cas(val, tk, loc)])
      || ((pc'.CasMismatch? || pc'.Idle?) && (!still || Excuse(s, t, tk)))
    else (pc.CasMismatch? || pc.CasPublished?) ==> pc'.Idle?
  }

  /** The comparison of an unlocked item. */
  lemma FreshMatches(base: Base, s: State, t: Tid, tk: Token)
    requires Inv(base, s) && AllMinted(s) && t in s.threads && s.threads[t].Held() == Some(tk)
    requires s.threads[t].Lock().None? && !Excuse(s, t, tk)
    ensures tk.loc < |s.items| && TokenBits(base, tk.loc, s.items[tk.loc].val, s.items[tk.loc].version) == tk.bits
  {
    hide MixVersion, LogOk, SlotOk;
    HeldIsMinted(base, s, t);
    assert Minted(s, tk);
    HolderIsThere(base, s, tk.loc);
    assert ItemOk(s, tk.loc);
  }

  /** The comparison under the lock. */
  lemma LockedMatches(base: Base, s: State, t: Tid, tk: Token, v: nat)
    requires Inv(base, s) && AllMinted(s) && t in s.threads && s.threads[t].Held() == Some(tk)
    requires s.threads[t].Lock() == Some((tk.loc, v)) && !Excuse(s, t, tk)
    ensures MixVersion(base(tk.loc), v % TWO_64) == tk.bits
  {
    hide MixVersion, LogOk, SlotOk;
    HeldIsMinted(base, s, t);
    assert Minted(s, tk) && PcOk(base, s, t, s.threads[t]);
  }

  lemma FindGoes(base: Base, s: State, s': State, t: Tid, tk: Token, val: Val)
    requires Inv(base, s) && AllMinted(s) && t in s.threads && CasStep(base, s, s', t)
    requires Compares(s.threads[t], tk, val)
    requires s.threads[t].CasLookup? || s.threads[t].CasPinned? || s.threads[t].CasFresh? || s.threads[t].CasChecked?
    ensures t in s'.threads && Goes(s, s', t, tk, val)
  {
    hide MixVersion, TokenBits, Inv, Minted;
    if s.threads[t].CasFresh? && s.threads[t].loc == tk.loc && !Excuse(s, t, tk) { FreshMatches(base, s, t, tk); }
  }

  lemma CheckGoes(base: Base, s: State, s': State, t: Tid, tk: Token, val: Val)
    requires Inv(base, s) && AllMinted(s) && t in s.threads && CasStep(base, s, s', t)
    requires Compares(s.threads[t], tk, val)
    requires s.threads[t].CasReserved? || s.threads[t].CasLinked? || s.threads[t].CasLocked?
    ensures t in s'.threads && Goes(s, s', t, tk, val)
  {
    hide MixVersion, Inv, Minted;
    var pc := s.threads[t];
    if pc.loc == tk.loc && !Excuse(s, t, tk) {
      if pc.CasLinked? { FreshMatches(base, s, t, tk); }
      if pc.CasLocked? { LockedMatches(base, s, t, tk, pc.v); }
    }
  }

  lemma LastGoes(base: Base, s: State, s': State, t: Tid, tk: Token, val: Val)
    requires t in s.threads && CasStep(base, s, s', t)
    requires var pc := s.threads[t];
      || (Compares(pc, tk, val) && (pc.CasVerified? || pc.CasLost?))
      || pc.CasMismatch? || pc.CasPublished?
    ensures t in s'.threads && Goes(s, s', t, tk, val)
  {
    hide MixVersion, TokenBits;
  }

  lemma StepGoes(base: Base, s: State, s': State, t: Tid, tk: Token, val: Val)
    requires Inv(base, s) && AllMinted(s) && Step(base, s, s', t)
    requires Compares(s.threads[t], tk, val) || s.threads[t].CasMismatch? || s.threads[t].CasPublished?
    ensures t in s'.threads && Goes(s, s', t, tk, val)
  {
    hide MixVersion, TokenBits, Inv, Minted, Goes;
    var pc := s.threads[t];
    assert CasStep(base, s, s', t) by { CasSteps(base, s, s', t, tk, val); }
    hide CasStep, Step;
    if Compares(pc, tk, val) && (pc.CasLookup? || pc.CasPinned? || pc.CasFresh? || pc.CasChecked?) {
      FindGoes(base, s, s', t, tk, val);
    } else if Compares(pc, tk, val) && (pc.CasReserved? || pc.CasLinked? || pc.CasLocked?) {
      CheckGoes(base, s, s', t, tk, val);
    } else {
      LastGoes(base, s, s', t, tk, val);
    }
  }

  lemma CasSteps(base: Base, s: State, s': State, t: Tid, tk: Token, val: Val)
    requires Step(base, s, s', t)
    requires Compares(s.threads[t], tk, val) || s.threads[t].CasMismatch? || s.threads[t].CasPublished?
    ensures CasStep(base, s, s', t)
  {
    hide CasStep;
  }

  lemma ExcusedStays(run: seq<State>, t: Tid, tk: Token, i: nat, j: nat)
    requires Excused(run, t, tk, i, j)
    ensures Excused(run, t, tk, i, j + 1)
  {
    hide Excuse;
  }

  lemma SucceededStays(run: seq<State>, who: seq<Tid>, t: Tid, tk: Token, val: Val, i: nat, j: nat)
    requires |run| == |who| + 1 && Succeeded(run, who, t, tk, val, i, j)
    ensures Succeeded(run, who, t, tk, val, i, j + 1)
  {
    hide Effects;
  }

  /** The compare-and-set goes on from state `j` to state `j + 1`. */
  lemma StandingStep(base: Base, run: seq<State>, who: seq<Tid>, t: Tid, tk: Token, val: Val, i: nat, j: nat)
    requires RunBy(base, run, who) && i <= j && j + 1 < |run| && t in run[j].threads && !run[j].threads[t].Idle?
    requires Standing(run, who, t, tk, val, i, j)
    ensures t in run[j + 1].threads && Standing(run, who, t, tk, val, i, j + 1)
  {
    hide Step, NoWrap, Inv, AllMinted, Excuse, Excused, Succeeded, Goes;
    OthersStay(base, run, who, t, j);
    if Excused(run, t, tk, i, j) { ExcusedStays(run, t, tk, i, j); }
    if Succeeded(run, who, t, tk, val, i, j) { SucceededStays(run, who, t, tk, val, i, j); }
    if who[j] == t {
      StepGoes(base, run[j], run[j + 1], t, tk, val);
      GoesOn(run, who, t, tk, val, i, j);
    }
  }

  lemma GoesOn(run: seq<State>, who: seq<Tid>, t: Tid, tk: Token, val: Val, i: nat, j: nat)
    requires |run| == |who| + 1 && i <= j && j + 1 < |run| && who[j] == t
    requires t in run[j].threads && t in run[j + 1].threads && !run[j].threads[t].Idle?
    requires Standing(run, who, t, tk, val, i, j) && Goes(run[j], run[j + 1], t, tk, val)
    requires Excused(run, t, tk, i, j) ==> Excused(run, t, tk, i, j + 1)
    requires Succeeded(run, who, t, tk, val, i, j) ==> Succeeded(run, who, t, tk, val, i, j + 1)
    ensures Standing(run, who, t, tk, val, i, j + 1)
  {
    hide Excuse, Succeeded;
    var (s, s') := (run[j], run[j + 1]);
    if s'.threads[t].CasPublished? {
      if loc :| s'.log == s.log + [Cas(val, tk, loc)] { PublishedNow(run, who, t, tk, val, loc, i, j); }
    }
    if Excuse(s, t, tk) { assert Excused(run, t, tk, i, j + 1); }
  }

  lemma PublishedNow(run: seq<State>, who: seq<Tid>, t: Tid, tk: Token, val: Val, loc: Loc, i: nat, j: nat)
    requires |run| == |who| + 1 && i <= j < |who| && Effects(run, who, t, j, Cas(val, tk, loc))
    ensures Succeeded(run, who, t, tk, val, i, j + 1)
  {
  }

  /** Thread `t` is in the middle of one attempt from state `i` to state `j`. */
  ghost predicate Busy(run: seq<State>, t: Tid, i: nat, j: nat)
    requires j < |run|
  {
    forall k | i <= k <= j :: t in run[k].threads && !run[k].threads[t].Idle?
  }

  lemma {:induction false} AttemptStands(base: Base, run: seq<State>, who: seq<Tid>, t: Tid, tk: Token, val: Val,
                                         i: nat, j: nat)
    requires RunBy(base, run, who) && i <= j < |run| && Busy(run, t, i, j) && run[i].threads[t] == CasLookup(tk, val)
    ensures Standing(run, who, t, tk, val, i, j)
    decreases j
  {
    hide Step, NoWrap, Standing;
    if i == j {
      StandsAtStart(run, who, t, tk, val, i);
    } else {
      AttemptStands(base, run, who, t, tk, val, i, j - 1);
      StandingStep(base, run, who, t, tk, val, i, j - 1);
    }
  }

  lemma StandsAtStart(run: seq<State>, who: seq<Tid>, t: Tid, tk: Token, val: Val, i: nat)
    requires |run| == |who| + 1 && i < |run| && t in run[i].threads && run[i].threads[t] == CasLookup(tk, val)
    ensures Standing(run, who, t, tk, val, i, i)
  {
  }

  /**
   * In every run, a compare-and-set that a thread begins in state `i` and ends
   * after state `j` has made its own value take effect, or at some instant in
   * between an operation had taken effect since the mint, the item the token was
   * minted from was no longer published, or another thread held its lock; or the
   * token was minted in the middle of an update.
   */
  lemma RefusedForAReason(base: Base, run: seq<State>, who: seq<Tid>, t: Tid, tk: Token, val: Val, i: nat, j: nat)
    requires RunBy(base, run, who) && i <= j && j + 1 < |run| && Busy(run, t, i, j)
    requires run[i].threads[t] == CasLookup(tk, val) && t in run[j + 1].threads && run[j + 1].threads[t].Idle?
    ensures Excused(run, t, tk, i, j + 1) || Succeeded(run, who, t, tk, val, i, j + 1)
  {
    hide Step, NoWrap, Excused, Succeeded;
    AttemptStands(base, run, who, t, tk, val, i, j);
    StandingStep(base, run, who, t, tk, val, i, j);
  }

  // ----- An increment ends with its acknowledgement or has found no number -----

  /** There is no entry, or it is not a number. */
  ghost predicate NoNumber(s: State) { s.slot.None? || (s.slot.value < |s.items| && s.items[s.slot.value].val.Text?) }

  ghost predicate FoundNoNumber(run: seq<State>, i: nat, j: nat) {
    exists k :: i <= k <= j && k < |run| && NoNumber(run[k])
  }

  /** The increment took effect in step `k`. */
  ghost predicate LoggedAt(run: seq<State>, who: seq<Tid>, t: Tid, op: Op, i: nat, j: nat, at: nat)
    requires |run| == |who| + 1
  {
    exists k :: i <= k < j && k < |who| && Effects(run, who, t, k, Inc(t, op)) && at == |run[k].log|
  }

  /** The increment took effect and is acknowledged with the value of all operations up to it. */
  ghost predicate Acknowledged(run: seq<State>, who: seq<Tid>, t: Tid, op: Op, i: nat, j: nat)
    requires |run| == |who| + 1 && j < |run|
  {
    exists at :: LoggedAt(run, who, t, op, i, j, at) && at in run[j].acked
  }

  /** Where an increment that began in state `i` stands. */
  ghost predicate IncStands(run: seq<State>, who: seq<Tid>, t: Tid, op: Op, i: nat, j: nat)
    requires |run| == |who| + 1 && j < |run| && t in run[j].threads
  {
    match run[j].threads[t]
    case IncLookup(o) => o == op
    case IncFound(o, _) => o == op
    case IncLocked(o, _, _) => o == op
    case IncStale(o, _, _) => o == op
    case IncChecked(o, _, _, at) => o == op && LoggedAt(run, who, t, op, i, j, at)
    case IncLoaded(o, _, _, at, _) => o == op && LoggedAt(run, who, t, op, i, j, at)
    case IncStored(o, _, _, at, _) => o == op && LoggedAt(run, who, t, op, i, j, at)
    case Idle => FoundNoNumber(run, i, j) || Acknowledged(run, who, t, op, i, j)
    case _ => false
  }

  /** One step of the increment. */
  ghost predicate IncGoes(s: State, s': State, t: Tid)
    requires t in s.threads && t in s'.threads
  {
    var pc' := s'.threads[t];
    match s.threads[t]
    case IncLookup(op) => pc' == IncLookup(op) || (pc'.IncFound? && pc'.op == op) || (pc'.Idle? && NoNumber(s))
    case IncFound(op, _) =>
      || ((pc'.IncFound? || pc'.IncLookup? || pc'.IncLocked?) && pc'.op == op)
      || (pc'.Idle? && NoNumber(s))
    case IncLocked(op, _, _) =>
      || (pc'.IncStale? && pc'.op == op)
      || (pc'.IncChecked? && pc'.op == op && pc'.at == |s.log| && s'.log == s.log + [Inc(t, op)])
    case IncStale(op, _, _) => pc' == IncLookup(op)
    case IncChecked(op, _, _, at) => pc'.IncLoaded? && pc'.op == op && pc'.at == at
    case IncLoaded(op, _, _, at, _) => pc'.IncStored? && pc'.op == op && pc'.at == at
    case IncStored(op, _, _, at, _) => pc'.Idle? && at in s'.acked
    case _ => true
  }

  lemma IncStepGoes(base: Base, s: State, s': State, t: Tid)
    requires Step(base, s, s', t)
    ensures t in s'.threads && IncGoes(s, s', t)
    ensures forall at | at in s.acked :: at in s'.acked
  {
    hide MixVersion, TokenBits;
    if s.threads[t].Idle? && StartStep(s, s', t) {
    } else if IncStep(s, s', t) {
      IncMoves(s, s', t);
    } else {
      hide IncGoes;
      NotInc(base, s, s', t);
    }
  }

  lemma IncMoves(s: State, s': State, t: Tid)
    requires t in s.threads && IncStep(s, s', t)
    ensures t in s'.threads && IncGoes(s, s', t)
    ensures forall at | at in s.acked :: at in s'.acked
  {
  }

  lemma NotInc(base: Base, s: State, s': State, t: Tid)
    requires Step(base, s, s', t) && !IncStep(s, s', t)
    ensures t in s'.threads && IncGoes(s, s', t) && s'.acked == s.acked
  {
    hide IncStep, CasStep, IncGoes;
    if CasStep(base, s, s', t) { CasIsNoInc(base, s, s', t); } else { OthersAreNoInc(s, s', t); }
  }

  lemma CasIsNoInc(base: Base, s: State, s': State, t: Tid)
    requires t in s.threads && CasStep(base, s, s', t)
    ensures t in s'.threads && IncGoes(s, s', t) && s'.acked == s.acked
  {
    hide MixVersion, TokenBits;
  }

  lemma OthersAreNoInc(s: State, s': State, t: Tid)
    requires t in s.threads
    requires || (s.threads[t].Idle? && StartStep(s, s', t)) || (s.threads[t].SetDefined? && SetStep(s, s', t))
             || RelStep(s, s', t)
    ensures t in s'.threads && IncGoes(s, s', t) && s'.acked == s.acked
  {
  }

  lemma LoggedStays(run: seq<State>, who: seq<Tid>, t: Tid, op: Op, i: nat, j: nat, at: nat)
    requires |run| == |who| + 1 && LoggedAt(run, who, t, op, i, j, at)
    ensures LoggedAt(run, who, t, op, i, j + 1, at)
  {
    hide Effects;
  }

  lemma IncStandsStep(base: Base, run: seq<State>, who: seq<Tid>, t: Tid, op: Op, i: nat, j: nat)
    requires RunBy(base, run, who) && i <= j && j + 1 < |run| && t in run[j].threads && !run[j].threads[t].Idle?
    requires IncStands(run, who, t, op, i, j)
    ensures t in run[j + 1].threads && IncStands(run, who, t, op, i, j + 1)
  {
    hide Step, NoWrap, Inv, AllMinted, LoggedAt, NoNumber;
    OthersStay(base, run, who, t, j);
    var pc := run[j].threads[t];
    if pc.Pending().Some? { LoggedStays(run, who, t, op, i, j, pc.Pending().value); }
    IncStepGoes(base, run[j], run[j + 1], who[j]);
    if who[j] == t {
      if run[j + 1].threads[t].IncChecked? && pc.IncLocked? { LoggedNow(run, who, t, op, i, j); }
      if run[j + 1].threads[t].Idle? && pc.IncStored? { AcknowledgedNow(run, who, t, op, i, j + 1, pc.at); }
    }
  }

  lemma AcknowledgedNow(run: seq<State>, who: seq<Tid>, t: Tid, op: Op, i: nat, j: nat, at: nat)
    requires |run| == |who| + 1 && j < |run| && LoggedAt(run, who, t, op, i, j, at) && at in run[j].acked
    ensures Acknowledged(run, who, t, op, i, j)
  {
  }

  lemma LoggedNow(run: seq<State>, who: seq<Tid>, t: Tid, op: Op, i: nat, j: nat)
    requires |run| == |who| + 1 && i <= j < |who| && Effects(run, who, t, j, Inc(t, op))
    ensures LoggedAt(run, who, t, op, i, j + 1, |run[j].log|)
  {
  }

  lemma {:induction false} IncAttemptStands(base: Base, run: seq<State>, who: seq<Tid>, t: Tid, op: Op, i: nat, j: nat)
    requires RunBy(base, run, who) && i <= j < |run| && Busy(run, t, i, j) && run[i].threads[t] == IncLookup(op)
    ensures IncStands(run, who, t, op, i, j)
    decreases j
  {
    hide Step, NoWrap, LoggedAt, FoundNoNumber, Acknowledged;
    if i < j {
      IncAttemptStands(base, run, who, t, op, i, j - 1);
      IncStandsStep(base, run, who, t, op, i, j - 1);
    }
  }

  /**
   * In every run, an increment that a thread begins in state `i` and ends after
   * state `j` has taken effect in one of its own steps and is acknowledged, or at
   * some instant in between there was no number to increment.
   */
  lemma IncrementIsAnswered(base: Base, run: seq<State>, who: seq<Tid>, t: Tid, op: Op, i: nat, j: nat)
    requires RunBy(base, run, who) && i <= j && j + 1 < |run| && Busy(run, t, i, j)
    requires run[i].threads[t] == IncLookup(op) && t in run[j + 1].threads && run[j + 1].threads[t].Idle?
    ensures FoundNoNumber(run, i, j + 1) || Acknowledged(run, who, t, op, i, j + 1)
  {
    hide Step, NoWrap, FoundNoNumber, Acknowledged;
    IncAttemptStands(base, run, who, t, op, i, j);
    IncStandsStep(base, run, who, t, op, i, j);
  }

  // ----- A relocation publishes its copy or has come too late -----

  /** The copy takes the place of the item, with the same value, and nothing takes effect. */
  ghost predicate Relocates(s: State, s': State, l: Loc) {
    && s.slot == Some(l) && s'.slot.Some? && s'.slot != Some(l) && s'.log == s.log
    && l < |s.items| && s'.slot.value < |s'.items| && s'.items[s'.slot.value].val == s.items[l].val
  }

  ghost predicate Relocated(run: seq<State>, who: seq<Tid>, t: Tid, l: Loc, i: nat, j: nat)
    requires |run| == |who| + 1
  {
    exists k, k' :: i <= k && k' == k + 1 <= j && k' < |run| && who[k] == t && Relocates(run[k], run[k'], l)
  }

  /** At some instant the item was not the published one. */
  ghost predicate LeftSlot(run: seq<State>, l: Loc, i: nat, j: nat) {
    exists k :: i <= k <= j && k < |run| && run[k].slot != Some(l)
  }

  predicate Relocating(pc: Pc) { pc.RelFound? || pc.RelLocked? || pc.RelCopied? || pc.RelStamped? || pc.RelText? }

  ghost predicate RelStands(run: seq<State>, who: seq<Tid>, t: Tid, l: Loc, i: nat, j: nat)
    requires |run| == |who| + 1 && j < |run| && t in run[j].threads
  {
    var pc := run[j].threads[t];
    || (Relocating(pc) && pc.loc == l)
    || ((pc.RelUnlock? || pc.Idle?) && (Relocated(run, who, t, l, i, j) || LeftSlot(run, l, i, j)))
  }

  ghost predicate RelGoes(s: State, s': State, t: Tid)
    requires t in s.threads && t in s'.threads
  {
    var (pc, pc') := (s.threads[t], s'.threads[t]);
    && (Relocating(pc) ==>
          || (Relocating(pc') && pc'.loc == pc.loc)
          || ((pc'.RelUnlock? || pc'.Idle?) && (Relocates(s, s', pc.loc) || s.slot != Some(pc.loc))))
    && (pc.RelUnlock? ==> pc'.Idle?)
  }

  lemma RelStepGoes(base: Base, s: State, s': State, t: Tid)
    requires Inv(base, s) && t in s.threads && RelStep(s, s', t)
    ensures t in s'.threads && RelGoes(s, s', t)
  {
    hide MixVersion, LogOk, SlotOk, MintOk, PendingOk;
    assert PcOk(base, s, t, s.threads[t]);
  }

  lemma RelSteps(base: Base, s: State, s': State, t: Tid)
    requires Step(base, s, s', t)
    requires Relocating(s.threads[t]) || s.threads[t].RelUnlock?
    ensures RelStep(s, s', t)
  {
    hide MixVersion, TokenBits, RelStep;
  }

  lemma RelStandsStep(base: Base, run: seq<State>, who: seq<Tid>, t: Tid, l: Loc, i: nat, j: nat)
    requires RunBy(base, run, who) && i <= j && j + 1 < |run| && t in run[j].threads && !run[j].threads[t].Idle?
    requires RelStands(run, who, t, l, i, j)
    ensures t in run[j + 1].threads && RelStands(run, who, t, l, i, j + 1)
  {
    hide Step, NoWrap, Inv, AllMinted, Relocates;
    OthersStay(base, run, who, t, j);
    if who[j] == t {
      RelSteps(base, run[j], run[j + 1], t);
      RelStepGoes(base, run[j], run[j + 1], t);
      assert run[j].slot != Some(l) ==> LeftSlot(run, l, i, j + 1);
      assert Relocates(run[j], run[j + 1], l) ==> Relocated(run, who, t, l, i, j + 1);
    }
  }

  lemma {:induction false} RelAttemptStands(base: Base, run: seq<State>, who: seq<Tid>, t: Tid, l: Loc, i: nat, j: nat)
    requires RunBy(base, run, who) && i <= j < |run| && Busy(run, t, i, j) && run[i].threads[t] == RelFound(l)
    ensures RelStands(run, who, t, l, i, j)
    decreases j
  {
    hide Step, NoWrap, Relocated, LeftSlot;
    if i < j {
      RelAttemptStands(base, run, who, t, l, i, j - 1);
      RelStandsStep(base, run, who, t, l, i, j - 1);
    }
  }

  /**
   * In every run, a relocation of an item that begins in state `i` and ends after
   * state `j` has put a copy with the same value in its place, without any
   * operation taking effect, or at some instant the item was no longer published.
   */
  lemma RelocationIsAnswered(base: Base, run: seq<State>, who: seq<Tid>, t: Tid, l: Loc, i: nat, j: nat)
    requires RunBy(base, run, who) && i <= j && j + 1 < |run| && Busy(run, t, i, j)
    requires run[i].threads[t] == RelFound(l) && t in run[j + 1].threads && run[j + 1].threads[t].Idle?
    ensures Relocated(run, who, t, l, i, j + 1) || LeftSlot(run, l, i, j + 1)
  {
    hide Step, NoWrap, Relocated, LeftSlot;
    RelAttemptStands(base, run, who, t, l, i, j);
    RelStandsStep(base, run, who, t, l, i, j);
  }

  // ----- Undisturbed attempts succeed -----

  /** A sequence of states, each a step of `t` after the one before. */
  ghost predicate Alone(base: Base, run: seq<State>, t: Tid) {
    run != [] && forall i, j | 0 <= i && j == i + 1 < |run| :: Step(base, run[i], run[j], t)
  }

  lemma AloneExtends(base: Base, run: seq<State>, t: Tid, s': State)
    requires Alone(base, run, t) && Step(base, run[|run| - 1], s', t)
    ensures Alone(base, run + [s'], t) && (run + [s'])[|run + [s']| - 1] == s'
  {
    hide Step;
    var longer := run + [s'];
    forall i, j | 0 <= i && j == i + 1 < |longer| ensures Step(base, longer[i], longer[j], t) {
      if j < |run| { assert Step(base, run[i], run[j], t); }
    }
  }

  lemma AloneJoins(base: Base, run: seq<State>, more: seq<State>, t: Tid)
    requires Alone(base, run, t) && Alone(base, more, t) && more[0] == run[|run| - 1]
    ensures Alone(base, run + more[1..], t) && run + more[1..] != []
    ensures (run + more[1..])[0] == run[0] && (run + more[1..])[|run + more[1..]| - 1] == more[|more| - 1]
  {
    hide Step;
    var longer := run + more[1..];
    forall i, j | 0 <= i && j == i + 1 < |longer| ensures Step(base, longer[i], longer[j], t) {
      if j < |run| { assert Step(base, run[i], run[j], t); }
      else {
        var k := j - |run| + 1;
        assert longer[j] == more[k] && longer[i] == more[k - 1] && Step(base, more[k - 1], more[k], t);
      }
    }
  }

  /** The steps of an undisturbed increment up to its linkage check. */
  lemma IncrementChecks(base: Base, s: State, t: Tid, op: Op, l: Loc) returns (run: seq<State>)
    requires t in s.threads && s.threads[t] == IncLookup(op) && s.slot == Some(l) && l < |s.items|
    requires s.items[l].val.Num? && s.items[l].version % 2 == 0
    ensures Alone(base, run, t) && run != [] && run[0] == s
    ensures run[|run| - 1] ==
      s.Take(l, t).Record(Inc(t, op)).At(t, IncChecked(op, l, s.items[l].version, |s.log|))
  {
    hide Alone;
    var (v, at) := (s.items[l].version, |s.log|);
    var s1 := s.At(t, IncFound(op, l));
    var s2 := s1.Take(l, t).At(t, IncLocked(op, l, v));
    var s3 := s2.Record(Inc(t, op)).At(t, IncChecked(op, l, v, at));
    assert IncStep(s, s1, t) && IncStep(s1, s2, t) && IncStep(s2, s3, t);
    run := ThreeSteps(base, t, s, s1, s2, s3);
    assert s3.threads == s.threads[t := IncChecked(op, l, v, at)];
  }

  lemma ThreeSteps(base: Base, t: Tid, s: State, s1: State, s2: State, s3: State) returns (run: seq<State>)
    requires Step(base, s, s1, t) && Step(base, s1, s2, t) && Step(base, s2, s3, t)
    ensures Alone(base, run, t) && run != [] && run[0] == s && run[|run| - 1] == s3
  {
    hide Step;
    run := [s, s1, s2, s3];
  }

  /** The rest of an increment that has passed its linkage check. */
  lemma IncrementEnds(base: Base, s: State, t: Tid, op: Op, l: Loc, v: nat, at: nat) returns (run: seq<State>)
    requires t in s.threads && s.threads[t] == IncChecked(op, l, v, at) && l < |s.items| && s.items[l].val.Num?
    ensures Alone(base, run, t) && run != [] && run[0] == s
    ensures var (s', n) := (run[|run| - 1], s.items[l].val.n);
      && t in s'.threads && s'.threads[t].Idle? && s'.log == s.log && s'.slot == s.slot
      && s'.items == s.items[l := s.items[l].(val := Num(op(n)), version := v + 2, holder := None)]
      && s'.acked == s.acked[at := op(n)]
  {
    hide Alone;
    var n := s.items[l].val.n;
    var s1 := s.At(t, IncLoaded(op, l, v, at, op(n)));
    var s2 := s1.Put(l, s1.items[l].(val := Num(op(n)))).At(t, IncStored(op, l, v, at, op(n)));
    var s3 := s2.Release(l, v + 2).(acked := s2.acked[at := op(n)]).At(t, Idle);
    assert IncStep(s, s1, t) && IncStep(s1, s2, t) && IncStep(s2, s3, t);
    run := ThreeSteps(base, t, s, s1, s2, s3);
  }

  /** An undisturbed increment of an unlocked number takes effect and is acknowledged with the new value. */
  lemma IncrementAlone(base: Base, s: State, t: Tid, op: Op, l: Loc) returns (run: seq<State>)
    requires t in s.threads && s.threads[t] == IncLookup(op) && s.slot == Some(l) && l < |s.items|
    requires s.items[l].val.Num? && s.items[l].version % 2 == 0
    ensures Alone(base, run, t) && run != [] && run[0] == s
    ensures var s' := run[|run| - 1];
      && t in s'.threads && s'.threads[t].Idle? && s'.log == s.log + [Inc(t, op)] && s'.slot == s.slot
      && |s'.items| == |s.items| && s'.items[l].val == Num(op(s.items[l].val.n))
      && s'.items[l].version == s.items[l].version + 2 && s'.items[l].holder.None?
      && |s.log| in s'.acked && s'.acked[|s.log|] == op(s.items[l].val.n)
  {
    hide Alone;
    var first := IncrementChecks(base, s, t, op, l);
    var more := IncrementEnds(base, first[|first| - 1], t, op, l, s.items[l].version, |s.log|);
    AloneJoins(base, first, more, t);
    run := first + more[1..];
  }

  /** The steps of an undisturbed compare-and-set up to the comparison. */
  lemma CasFindsAlone(base: Base, s: State, t: Tid, val: Val) returns (run: seq<State>)
    requires t in s.threads && s.threads[t].Holding? && s.slot == Some(s.threads[t].tk.loc)
    ensures Alone(base, run, t) && run != [] && run[0] == s
    ensures var tk := s.threads[t].tk; run[|run| - 1] == s.At(t, CasFresh(tk, val, tk.loc))
  {
    hide Alone, MixVersion, TokenBits;
    var tk := s.threads[t].tk;
    var s1 := s.At(t, CasLookup(tk, val));
    var s2 := s1.At(t, CasPinned(tk, val, tk.loc));
    var s3 := s2.At(t, CasFresh(tk, val, tk.loc));
    assert CasStep(base, s, s1, t) && CasStep(base, s1, s2, t) && CasStep(base, s2, s3, t);
    run := ThreeSteps(base, t, s, s1, s2, s3);
    assert s3.threads == s.threads[t := CasFresh(tk, val, tk.loc)];
  }

  /** From a comparison that matches to the second look at the slot, with the new item written. */
  lemma CasDefinesAlone(base: Base, s: State, t: Tid, tk: Token, val: Val) returns (run: seq<State>)
    requires t in s.threads && s.threads[t] == CasFresh(tk, val, tk.loc) && s.slot == Some(tk.loc)
    requires tk.loc < |s.items| && TokenBits(base, tk.loc, s.items[tk.loc].val, s.items[tk.loc].version) == tk.bits
    ensures Alone(base, run, t) && run != [] && run[0] == s
    ensures run[|run| - 1] == s.Append(Item(val, 0, None, Some(t), false)).At(t, CasLinked(tk, val, tk.loc, |s.items|))
  {
    hide Alone, MixVersion, TokenBits;
    var (l, d) := (tk.loc, |s.items|);
    var s1 := s.At(t, CasChecked(tk, val, l));
    var s2 := s1.Append(Item(val, 0, None, Some(t), false)).At(t, CasReserved(tk, val, l, d));
    var s3 := s2.At(t, CasLinked(tk, val, l, d));
    assert CasStep(base, s, s1, t) && CasStep(base, s1, s2, t) && CasStep(base, s2, s3, t);
    run := ThreeSteps(base, t, s, s1, s2, s3);
    assert s3.threads == s.threads[t := CasLinked(tk, val, l, d)];
  }

  /** The steps up to the second look at the slot of an undisturbed compare-and-set. */
  lemma CasReservesAlone(base: Base, s: State, t: Tid, val: Val) returns (run: seq<State>)
    requires t in s.threads && s.threads[t].Holding? && s.slot == Some(s.threads[t].tk.loc)
    requires var tk := s.threads[t].tk;
      tk.loc < |s.items| && TokenBits(base, tk.loc, s.items[tk.loc].val, s.items[tk.loc].version) == tk.bits
    ensures Alone(base, run, t) && run != [] && run[0] == s
    ensures var tk := s.threads[t].tk;
      run[|run| - 1] ==
        s.Append(Item(val, 0, None, Some(t), false)).At(t, CasLinked(tk, val, tk.loc, |s.items|))
  {
    hide Alone, MixVersion, TokenBits;
    var tk := s.threads[t].tk;
    var first := CasFindsAlone(base, s, t, val);
    var s3 := first[|first| - 1];
    var more := CasDefinesAlone(base, s3, t, tk, val);
    AloneJoins(base, first, more, t);
    run := first + more[1..];
    var pc' := CasLinked(tk, val, tk.loc, |s.items|);
    assert s3.threads[t := pc'] == s.threads[t := pc'];
  }

  /** An undisturbed compare-and-set with a token that nothing refuses publishes its value. */
  lemma CasAlone(base: Base, s: State, t: Tid, val: Val) returns (run: seq<State>)
    requires Inv(base, s) && AllMinted(s) && t in s.threads && s.threads[t].Holding?
    requires !Excuse(s, t, s.threads[t].tk)
    ensures Alone(base, run, t) && run != [] && run[0] == s
    ensures var (s', tk) := (run[|run| - 1], s.threads[t].tk);
      && t in s'.threads && s'.threads[t].Idle? && s'.log == s.log + [Cas(val, tk, tk.loc)]
      && s'.slot == Some(|s.items|) && |s'.items| == |s.items| + 1 && s'.items[|s.items|].val == val
  {
    hide Alone, MixVersion;
    var tk := s.threads[t].tk;
    FreshMatches(base, s, t, tk);
    run := CasReservesAlone(base, s, t, val);
    HolderIsThere(base, s, tk.loc);
    NotHolding(base, s, t, tk.loc);
    EvenIfUnlocked(base, s, t, tk.loc);
    run := CasPublishesAlone(base, run, s, t, val);
  }

  lemma EvenIfUnlocked(base: Base, s: State, t: Tid, l: Loc)
    requires Inv(base, s) && t in s.threads && s.threads[t].Held().Some? && s.threads[t].Held().value.loc == l
    requires l < |s.items| && s.items[l].holder.None?
    ensures s.items[l].version % 2 == 0
  {
    HeldIsMinted(base, s, t);
    assert ItemOk(s, l);
  }

  lemma NotHolding(base: Base, s: State, t: Tid, l: Loc)
    requires Inv(base, s) && t in s.threads && s.threads[t].Holding? && l < |s.items|
    ensures s.items[l].holder != Some(t)
  {
    assert ItemOk(s, l);
  }

  lemma CasPublishesAlone(base: Base, before: seq<State>, s: State, t: Tid, val: Val) returns (run: seq<State>)
    requires t in s.threads && s.threads[t].Holding? && s.slot == Some(s.threads[t].tk.loc)
    requires Alone(base, before, t) && before != [] && before[0] == s
    requires var tk := s.threads[t].tk;
      && tk.loc < |s.items| && s.items[tk.loc].version % 2 == 0
      && TokenBits(base, tk.loc, s.items[tk.loc].val, s.items[tk.loc].version) == tk.bits
      && before[|before| - 1] ==
           s.Append(Item(val, 0, None, Some(t), false)).At(t, CasLinked(tk, val, tk.loc, |s.items|))
    ensures Alone(base, run, t) && run != [] && run[0] == s
    ensures var (s', tk) := (run[|run| - 1], s.threads[t].tk);
      && t in s'.threads && s'.threads[t].Idle? && s'.log == s.log + [Cas(val, tk, tk.loc)]
      && s'.slot == Some(|s.items|) && |s'.items| == |s.items| + 1 && s'.items[|s.items|].val == val
  {
    hide Alone, MixVersion;
    var tk := s.threads[t].tk;
    var (l, d) := (tk.loc, |s.items|);
    var s1 := before[|before| - 1];
    if s.items[l].val.Text? {
      var s2 := s1.At(t, CasVerified(tk, val, l, d, None));
      assert CasStep(base, s1, s2, t);
      hide TokenBits, CasStep;
      run := PublishAlone(base, before, t, s1, s2, tk, val, l, d, None);
    } else {
      var v := s.items[l].version;
      var s2 := s1.Take(l, t).At(t, CasLocked(tk, val, l, d, v));
      assert CasStep(base, s1, s2, t);
      AloneExtends(base, before, t, s2);
      var s3 := s2.At(t, CasVerified(tk, val, l, d, Some(v)));
      assert CasStep(base, s2, s3, t);
      hide TokenBits, CasStep;
      run := PublishAlone(base, before + [s2], t, s2, s3, tk, val, l, d, Some(v));
    }
  }

  lemma PublishAlone(base: Base, before: seq<State>, t: Tid, s0: State, s: State, tk: Token, val: Val, l: Loc, d: Loc,
                     g: Option<nat>) returns (run: seq<State>)
    requires Alone(base, before, t) && before != [] && before[|before| - 1] == s0 && Step(base, s0, s, t)
    requires t in s.threads && s.threads[t] == CasVerified(tk, val, l, d, g)
    requires s.slot == Some(l) && l < |s.items| && d < |s.items| && l != d && s.items[d].val == val
    ensures Alone(base, run, t) && run != [] && run[0] == before[0]
    ensures var s' := run[|run| - 1];
      && t in s'.threads && s'.threads[t].Idle? && s'.log == s.log + [Cas(val, tk, l)]
      && s'.slot == Some(d) && |s'.items| == |s.items| && s'.items[d].val == val
  {
    hide Alone, MixVersion;
    AloneExtends(base, before, t, s);
    var s1 := s.Publish(d).Record(Cas(val, tk, l)).At(t, CasPublished(l, g));
    assert CasStep(base, s, s1, t);
    AloneExtends(base, before + [s], t, s1);
    var s2 := (if g.Some? then s1.Release(l, g.value) else s1).At(t, Idle);
    assert CasStep(base, s1, s2, t);
    AloneExtends(base, before + [s] + [s1], t, s2);
    run := before + [s] + [s1] + [s2];
  }

  /** An undisturbed relocation of an unlocked item puts a copy of the same value and version in its place. */
  lemma RelocationAlone(base: Base, s: State, t: Tid, l: Loc) returns (run: seq<State>)
    requires t in s.threads && s.threads[t] == RelFound(l) && s.slot == Some(l) && l < |s.items|
    requires s.items[l].version % 2 == 0
    ensures Alone(base, run, t) && run != [] && run[0] == s
    ensures var (s', d) := (run[|run| - 1], |s.items|);
      && t in s'.threads && s'.threads[t].Idle? && s'.log == s.log && s'.slot == Some(d) && d < |s'.items|
      && s'.items[d].val == s.items[l].val && s'.items[d].version == s.items[l].version && s'.items[d].owner.None?
  {
    hide Alone, MixVersion;
    var (d, v) := (|s.items|, s.items[l].version);
    if s.items[l].val.Text? {
      var s1 := s.Append(s.items[l].(owner := Some(t))).At(t, RelText(l, d));
      var s2 := s1.Publish(d).At(t, Idle);
      assert RelStep(s, s1, t) && RelStep(s1, s2, t);
      run := TwoSteps(base, t, s, s1, s2);
    } else {
      run := NumberRelocates(base, s, t, l);
    }
  }

  lemma NumberRelocates(base: Base, s: State, t: Tid, l: Loc) returns (run: seq<State>)
    requires t in s.threads && s.threads[t] == RelFound(l) && s.slot == Some(l) && l < |s.items|
    requires s.items[l].version % 2 == 0 && s.items[l].val.Num?
    ensures Alone(base, run, t) && run != [] && run[0] == s
    ensures var (s', d) := (run[|run| - 1], |s.items|);
      && t in s'.threads && s'.threads[t].Idle? && s'.log == s.log && s'.slot == Some(d) && d < |s'.items|
      && s'.items[d].val == s.items[l].val && s'.items[d].version == s.items[l].version && s'.items[d].owner.None?
  {
    hide Alone, Step;
    var (d, v) := (|s.items|, s.items[l].version);
    var s1 := s.Take(l, t).At(t, RelLocked(l, v));
    var s2 := s1.Append(Item(s1.items[l].val, v + 1, None, Some(t), true)).At(t, RelCopied(l, v, d));
    OneStep(base, s, s1, t);
    OneStep(base, s1, s2, t);
    var first := TwoSteps(base, t, s, s1, s2);
    var more := CopyPublishes(base, s2, t, l, v, d);
    AloneJoins(base, first, more, t);
    run := first + more[1..];
  }

  /** From the copy to the end of a relocation. */
  lemma CopyPublishes(base: Base, s: State, t: Tid, l: Loc, v: nat, d: Loc) returns (run: seq<State>)
    requires t in s.threads && s.threads[t] == RelCopied(l, v, d) && s.slot == Some(l)
    requires l < |s.items| && d < |s.items| && l != d
    ensures Alone(base, run, t) && run != [] && run[0] == s
    ensures var s' := run[|run| - 1];
      && t in s'.threads && s'.threads[t].Idle? && s'.log == s.log && s'.slot == Some(d) && d < |s'.items|
      && s'.items[d].val == s.items[d].val && s'.items[d].version == v && s'.items[d].owner.None?
  {
    hide Alone, Step;
    var s1 := s.Put(d, s.items[d].(version := v, odd := false)).At(t, RelStamped(l, v, d));
    var s2 := s1.Publish(d).At(t, RelUnlock(l, v));
    var s3 := s2.Release(l, v).At(t, Idle);
    OneStep(base, s, s1, t);
    OneStep(base, s1, s2, t);
    OneStep(base, s2, s3, t);
    run := ThreeSteps(base, t, s, s1, s2, s3);
  }

  lemma OneStep(base: Base, s: State, s': State, t: Tid)
    requires t in s.threads && RelStep(s, s', t)
    ensures Step(base, s, s', t)
  {
    hide RelStep;
  }

  lemma TwoSteps(base: Base, t: Tid, s: State, s1: State, s2: State) returns (run: seq<State>)
    requires Step(base, s, s1, t) && Step(base, s1, s2, t)
    ensures Alone(base, run, t) && run != [] && run[0] == s && run[|run| - 1] == s2
  {
    hide Step;
    run := [s, s1, s2];
  }
}
