/** Calls of the fiber pools by several workers at a time, one critical section after the other. */
module FiberSections {
  // Only the global pool has a lock: a call that finds its worker's pool empty or full moves fibers between the two
  // under it, and does the rest without it. Between the two parts any number of sections of other calls may come.

  import opened Commons
  import opened FiberPool

  /** Where worker w is; n fibers of its batch are still to come from the system, or to go there. */
  datatype Pc = Idle | Allocates | Restocks(n: nat) | Deallocates(f: nat) | Returns(f: nat, n: nat)

  datatype Shared = Shared(pools: State, pcs: seq<Pc>)

  datatype Action = BeginAllocate(w: nat) | BeginDeallocate(w: nat, f: nat) | Section(w: nat)

  // ---------------------------------------------------------------------------------------------
  // Sections
  // ---------------------------------------------------------------------------------------------

  predicate GivesBack(pc: Pc, f: nat) {
    (pc.Deallocates? || pc.Returns?) && pc.f == f
  }

  function Half(s: State, i: nat): nat
    requires i < |s.caps|
  {
    s.caps[i] / BATCH_FRACTION
  }

  /** How many fibers the global pool gives to a batch. */
  function FromParent(s: State, i: nat): nat
    requires i < |s.caps| == |s.pools|
  {
    Min(|s.pools[0]|, Half(s, i))
  }

  /** The assertions of the calls: there is a fiber to hand out, a batch to give away, room for the fiber. */
  predicate Ready(s: State, i: nat, pc: Pc) {
    && 0 < i < |s.pools| == |s.caps| && |s.pools[0]| <= s.caps[0]
    && match pc
       case Idle => false
       case Allocates => true
       case Restocks(n) => |s.pools[i]| + n > 0
       case Deallocates(_) => Half(s, i) <= s.caps[i]
       case Returns(_, n) => n <= |s.pools[i]| && |s.pools[i]| - n < s.caps[i]
  }

  function PoolsAfter(s: State, i: nat, pc: Pc): State
    requires Ready(s, i, pc)
  {
    match pc
    case Allocates =>
      if |s.pools[i]| > 0 then Leave(s, i, InUse)
      else Moves(Grow(s, i, Half(s, i) + |s.pools[i]|), 0, i, FromParent(s, i))
    case Restocks(n) => Leave(Makes(s, i, n), i, InUse)
    case Deallocates(f) =>
      if |s.pools[i]| != s.caps[i] then Enter(s, i, f) else Moves(s, i, 0, ToParent(s, i, Half(s, i)))
    case Returns(f, n) => Enter(Leaves(s, i, n), i, f)
    case Idle => s
  }

  function PcAfter(s: State, i: nat, pc: Pc): Pc
    requires Ready(s, i, pc)
  {
    match pc
    case Allocates => if |s.pools[i]| > 0 then Idle else Restocks(Half(s, i) - FromParent(s, i))
    case Deallocates(f) =>
      if |s.pools[i]| != s.caps[i] then Idle else Returns(f, Half(s, i) - ToParent(s, i, Half(s, i)))
    case _ => Idle
  }

  /** Nobody gives back what is not in use, or what somebody is giving back. */
  predicate Enabled(x: Shared, a: Action) {
    match a
    case BeginAllocate(w) => w < |x.pcs| && x.pcs[w].Idle?
    case BeginDeallocate(w, f) =>
      && w < |x.pcs| && x.pcs[w].Idle? && UsedIn(x.pools, f)
      && (forall v | 0 <= v < |x.pcs| :: !GivesBack(x.pcs[v], f))
    case Section(w) => w < |x.pcs| && Ready(x.pools, w + 1, x.pcs[w])
  }

  function Apply(x: Shared, a: Action): Shared
    requires Enabled(x, a)
  {
    match a
    case BeginAllocate(w) => x.(pcs := x.pcs[w := Allocates])
    case BeginDeallocate(w, f) => x.(pcs := x.pcs[w := Deallocates(f)])
    case Section(w) =>
      Shared(PoolsAfter(x.pools, w + 1, x.pcs[w]), x.pcs[w := PcAfter(x.pools, w + 1, x.pcs[w])])
  }

  // ---------------------------------------------------------------------------------------------
  // What a section does
  // ---------------------------------------------------------------------------------------------

  /** The pools of the others have not changed, nor has any capacity. */
  ghost predicate OthersKept(s: State, t: State, i: nat) {
    && t.caps == s.caps && |t.pools| == |s.pools|
    && (forall j | 0 < j < |s.pools| && j != i :: t.pools[j] == s.pools[j])
  }

  lemma {:induction false} MovesElsewhere(s: State, i: nat, j: nat, n: nat, m: nat)
    requires i < |s.pools| && j < |s.pools| && i != j && n <= |s.pools[i]| && m < |s.pools| && m != i && m != j
    ensures Moves(s, i, j, n).pools[m] == s.pools[m]
    decreases n
  {
    if n > 0 {
      MovesElsewhere(s, i, j, n - 1, m);
    }
  }

  lemma MovesKeepOthers(s: State, i: nat, j: nat, n: nat, d: nat)
    requires i < |s.pools| && j < |s.pools| && i != j && n <= |s.pools[i]| && (i == 0 || j == 0) && d == i + j
    ensures OthersKept(s, Moves(s, i, j, n), d)
  {
    forall m | 0 < m < |s.pools| && m != d ensures Moves(s, i, j, n).pools[m] == s.pools[m] {
      MovesElsewhere(s, i, j, n, m);
    }
  }

  lemma MakesKeepOthers(s: State, i: nat, n: nat)
    requires 0 < i < |s.pools|
    ensures OthersKept(s, Makes(s, i, n), i)
  {
    forall m | 0 < m < |s.pools| && m != i ensures Makes(s, i, n).pools[m] == s.pools[m] {
      MakesElsewhere(s, i, n, m);
    }
  }

  lemma LeavesKeepOthers(s: State, i: nat, n: nat)
    requires 0 < i < |s.pools| && n <= |s.pools[i]|
    ensures OthersKept(s, Leaves(s, i, n), i)
  {
    forall m | 0 < m < |s.pools| && m != i ensures Leaves(s, i, n).pools[m] == s.pools[m] {
      LeavesElsewhere(s, i, n, m);
    }
  }

  /** What a worker in the middle of a call knows of its own pool, which holds two fibers or more. */
  predicate Knows(s: State, i: nat, pc: Pc) {
    && 0 < i < |s.pools| == |s.caps| && s.caps[i] >= 2
    && (pc.Restocks? ==> |s.pools[i]| + pc.n == Half(s, i))
    && (pc.Returns? ==> pc.n <= |s.pools[i]| && |s.pools[i]| - pc.n == s.caps[i] - Half(s, i))
    && (pc.Deallocates? || pc.Returns? ==> UsedIn(s, pc.f))
  }

  lemma AlwaysReady(s: State, i: nat, pc: Pc)
    requires Inv(s) && Knows(s, i, pc) && pc != Idle
    ensures Ready(s, i, pc)
  {
  }

  /** A batch of a pool that is empty: no capacity grows, as half of it is asked for. */
  lemma RestockBegins(s: State, i: nat)
    requires Knows(s, i, Allocates) && Ready(s, i, Allocates) && |s.pools[i]| == 0
    requires Inv(s)
    ensures var t := PoolsAfter(s, i, Allocates);
            && Inv(t) && SameUse(s, t) && OthersKept(s, t, i) && Knows(t, i, PcAfter(s, i, Allocates))
  {
    hide Inv, SameUse, Moves;
    assert Grow(s, i, Half(s, i) + |s.pools[i]|) == s;
    MovesKeepsInv(s, 0, i, FromParent(s, i));
    MovesKeepUse(s, 0, i, FromParent(s, i));
    MovesKeepOthers(s, 0, i, FromParent(s, i), i);
  }

  lemma ClearBegins(s: State, i: nat, f: nat)
    requires Knows(s, i, Deallocates(f)) && Ready(s, i, Deallocates(f)) && |s.pools[i]| == s.caps[i]
    requires Inv(s)
    ensures var t := PoolsAfter(s, i, Deallocates(f));
            && Inv(t) && SameUse(s, t) && OthersKept(s, t, i) && Knows(t, i, PcAfter(s, i, Deallocates(f)))
  {
    hide Inv, Moves;
    var n := ToParent(s, i, Half(s, i));
    MovesKeepsInv(s, i, 0, n);
    MovesKeepUse(s, i, 0, n);
    MovesKeepOthers(s, i, 0, n, i);
  }

  /** The fiber that an allocation returns is the top one of the pool, topped up by the system. */
  function Stock(s: State, i: nat, pc: Pc): State
    requires Ready(s, i, pc)
  {
    if pc.Restocks? then Makes(s, i, pc.n) else s
  }

  predicate Allocating(pc: Pc) {
    pc.Allocates? || pc.Restocks?
  }

  lemma AllocationEnds(s: State, i: nat, pc: Pc)
    requires Knows(s, i, pc) && Ready(s, i, pc) && Allocating(pc) && PcAfter(s, i, pc) == Idle
    requires Inv(s)
    ensures var t := PoolsAfter(s, i, pc);
            && Inv(t) && OthersKept(s, t, i)
            && exists f :: !UsedIn(s, f) && UsedIn(t, f) && forall g | g != f :: UsedIn(s, g) <==> UsedIn(t, g)
  {
    hide Inv, SameUse, Makes, Leave, OthersKept;
    var u, t := Stock(s, i, pc), PoolsAfter(s, i, pc);
    if pc.Restocks? {
      CapacityOf(s, i);
      MakesKeepsInv(s, i, pc.n);
      MakesKeepUse(s, i, pc.n);
      MakesKeepOthers(s, i, pc.n);
    } else {
      AllSameUse(s);
      NothingChanged(s, i);
    }
    LeaveKeepsInv(u, i, InUse);
    UseAfterLeave(s, u, i, t, Top(u.pools[i]));
    LeaveKeepsOthers(s, u, i);
  }

  lemma CapacityOf(s: State, i: nat)
    requires Inv(s) && i < |s.pools|
    ensures |s.pools| == |s.caps| && |s.pools[i]| <= s.caps[i] && |s.pools[0]| <= s.caps[0]
  {
  }

  lemma NothingChanged(s: State, i: nat)
    ensures OthersKept(s, s, i)
  {
  }

  lemma LeaveKeepsOthers(s: State, u: State, i: nat)
    requires OthersKept(s, u, i) && i < |u.pools| && |u.pools[i]| > 0
    ensures OthersKept(s, Leave(u, i, InUse), i)
  {
  }

  lemma DeallocationEnds(s: State, i: nat, pc: Pc)
    requires Knows(s, i, pc) && Ready(s, i, pc) && (pc.Deallocates? || pc.Returns?) && PcAfter(s, i, pc) == Idle
    requires Inv(s)
    ensures var t := PoolsAfter(s, i, pc);
            && Inv(t) && OthersKept(s, t, i) && !UsedIn(t, pc.f)
            && forall g | g != pc.f :: UsedIn(s, g) <==> UsedIn(t, g)
  {
    hide Inv, SameUse, Leaves, Enter, OthersKept;
    CapacityOf(s, i);
    var u := if pc.Returns? then Leaves(s, i, pc.n) else s;
    if pc.Returns? {
      LeavesKeepsInv(s, i, pc.n);
      LeavesKeepUse(s, i, pc.n);
      LeavesKeepOthers(s, i, pc.n);
    } else {
      AllSameUse(s);
      NothingChanged(s, i);
    }
    UseKept(s, u);
    EnterKeepsInv(u, i, pc.f);
    EnterKeepsOthers(s, u, i, pc.f);
  }

  lemma UseKept(s: State, u: State)
    requires SameUse(s, u)
    ensures forall g :: UsedIn(s, g) <==> UsedIn(u, g)
  {
  }

  lemma EnterKeepsOthers(s: State, u: State, i: nat, f: nat)
    requires OthersKept(s, u, i) && i < |u.pools|
    ensures OthersKept(s, Enter(u, i, f), i) && !UsedIn(Enter(u, i, f), f)
    ensures forall g | g != f :: UsedIn(u, g) <==> UsedIn(Enter(u, i, f), g)
  {
  }

  // ---------------------------------------------------------------------------------------------
  // The invariant
  // ---------------------------------------------------------------------------------------------

  ghost predicate Good(x: Shared) {
    && Inv(x.pools) && |x.pools.pools| == |x.pcs| + 1
    && (forall w | 0 <= w < |x.pcs| :: Knows(x.pools, w + 1, x.pcs[w]))
    && (forall v, w, f | 0 <= v < w < |x.pcs| :: !(GivesBack(x.pcs[v], f) && GivesBack(x.pcs[w], f)))
  }

  /** No assertion of a call can fail: a worker in the middle of a call can always go on. */
  lemma CanGoOn(x: Shared, w: nat)
    requires Good(x) && w < |x.pcs| && x.pcs[w] != Idle
    ensures Enabled(x, Section(w))
  {
    hide Inv, Ready;
    AlwaysReady(x.pools, w + 1, x.pcs[w]);
  }

  /** What a section of worker w does to the fibers in use: at most that of its own call comes into use or goes. */
  ghost predicate UseAfter(s: State, t: State, pc: Pc, pc': Pc) {
    if pc' != Idle then SameUse(s, t)
    else if Allocating(pc) then
      exists f :: !UsedIn(s, f) && UsedIn(t, f) && forall g | g != f :: UsedIn(s, g) <==> UsedIn(t, g)
    else (pc.Deallocates? || pc.Returns?) && !UsedIn(t, pc.f) && forall g | g != pc.f :: UsedIn(s, g) <==> UsedIn(t, g)
  }

  lemma SectionDoes(s: State, i: nat, pc: Pc)
    requires Knows(s, i, pc) && Ready(s, i, pc)
    requires Inv(s)
    ensures var t, pc' := PoolsAfter(s, i, pc), PcAfter(s, i, pc);
            Inv(t) && OthersKept(s, t, i) && UseAfter(s, t, pc, pc') && (pc' == Idle || Knows(t, i, pc'))
  {
    if PcAfter(s, i, pc) == Idle {
      hide Inv, Knows, PoolsAfter, OthersKept, Ready;
      assert pc != Idle by { ReadyIsBusy(s, i, pc); }
      if Allocating(pc) { AllocationEnds(s, i, pc); } else { DeallocationEnds(s, i, pc); }
    } else if pc.Allocates? {
      RestockBegins(s, i);
    } else {
      ClearBegins(s, i, pc.f);
    }
  }

  lemma ReadyIsBusy(s: State, i: nat, pc: Pc)
    requires Ready(s, i, pc)
    ensures pc != Idle
  {
  }

  lemma KnowsStill(s: State, t: State, i: nat, j: nat, pc: Pc)
    requires Knows(s, j, pc) && OthersKept(s, t, i) && j != i
    requires pc.Deallocates? || pc.Returns? ==> UsedIn(t, pc.f)
    ensures Knows(t, j, pc)
  {
  }

  lemma SectionKeepsGood(x: Shared, w: nat)
    requires Good(x) && Enabled(x, Section(w))
    ensures Good(Apply(x, Section(w)))
  {
    hide Inv, OthersKept, PoolsAfter, PcAfter, Ready, Knows, SameUse;
    var y, pc := Apply(x, Section(w)), x.pcs[w];
    SectionDoes(x.pools, w + 1, pc);
    SizeKept(x.pools, y.pools, w + 1);
    PcsFollow(x.pools, w + 1, pc);
    forall v | 0 <= v < |y.pcs| ensures Knows(y.pools, v + 1, y.pcs[v]) {
      if v != w {
        UseOfOthers(x, w, v);
        KnowsStill(x.pools, y.pools, w + 1, v + 1, x.pcs[v]);
      } else if y.pcs[w] == Idle {
        KnowsIdle(x.pools, y.pools, w + 1, pc);
      }
    }
  }

  lemma SizeKept(s: State, t: State, i: nat)
    requires OthersKept(s, t, i)
    ensures |t.pools| == |s.pools| && t.caps == s.caps
  {
  }

  lemma PcsFollow(s: State, i: nat, pc: Pc)
    requires Ready(s, i, pc)
    ensures forall f | GivesBack(PcAfter(s, i, pc), f) :: GivesBack(pc, f)
  {
  }

  lemma KnowsIdle(s: State, t: State, i: nat, pc: Pc)
    requires Knows(s, i, pc) && t.caps == s.caps && |t.pools| == |s.pools|
    ensures Knows(t, i, Idle)
  {
  }

  /** What another worker gives back stays in use. */
  lemma UseOfOthers(x: Shared, w: nat, v: nat)
    requires Good(x) && w < |x.pcs| && v < |x.pcs| && v != w && Ready(x.pools, w + 1, x.pcs[w])
    ensures var pc := x.pcs[v];
            pc.Deallocates? || pc.Returns? ==> UsedIn(PoolsAfter(x.pools, w + 1, x.pcs[w]), pc.f)
  {
    hide Inv, OthersKept, PoolsAfter, PcAfter, Ready;
    assert Knows(x.pools, v + 1, x.pcs[v]);
    SectionDoes(x.pools, w + 1, x.pcs[w]);
    var pc := x.pcs[v];
    if pc.Deallocates? || pc.Returns? {
      assert GivesBack(pc, pc.f) && !GivesBack(x.pcs[w], pc.f);
    }
  }

  lemma ActionKeepsGood(x: Shared, a: Action)
    requires Good(x) && Enabled(x, a)
    ensures Good(Apply(x, a)) && |Apply(x, a).pcs| == |x.pcs|
  {
    hide Inv, Ready, PoolsAfter, PcAfter;
    if a.Section? {
      SectionKeepsGood(x, a.w);
    }
  }

  // ---------------------------------------------------------------------------------------------
  // Runs
  // ---------------------------------------------------------------------------------------------

  datatype Trace = Trace(states: seq<Shared>, acts: seq<Action>)

  predicate StepOf(x: Shared, a: Action, y: Shared) {
    Enabled(x, a) && y == Apply(x, a)
  }

  /** Workers with pools as they are initialised, taking sections of their calls in any order. */
  ghost predicate IsTrace(workers: nat, cap: nat, r: Trace) {
    && |r.states| == |r.acts| + 1
    && r.states[0] == Shared(Initialised(workers, cap, workers), seq(workers, w => Idle))
    && forall i {:trigger r.acts[i]} | 0 <= i < |r.acts| :: StepOf(r.states[i], r.acts[i], r.states[i + 1])
  }

  lemma StartsGood(workers: nat, cap: nat)
    requires cap >= 2
    ensures Good(Shared(Initialised(workers, cap, workers), seq(workers, w => Idle)))
  {
    hide Inv, Initialised;
    StartsWell(workers, cap, workers, Initialised(workers, cap, workers));
  }

  lemma {:induction false} TraceKeepsGood(workers: nat, cap: nat, r: Trace, k: nat)
    requires cap >= 2 && IsTrace(workers, cap, r) && k < |r.states|
    ensures Good(r.states[k]) && |r.states[k].pcs| == workers
    decreases k
  {
    hide Inv, Enabled, Apply, Good;
    if k == 0 {
      StartsGood(workers, cap);
    } else {
      TraceKeepsGood(workers, cap, r, k - 1);
      assert StepOf(r.states[k - 1], r.acts[k - 1], r.states[k]);
      ActionKeepsGood(r.states[k - 1], r.acts[k - 1]);
    }
  }

  /** Whatever sections come in between, an allocation ends with a fiber that nobody uses and a deallocation takes its
      fiber away; no other fiber changes hands, and the sections before the last change none. */
  lemma SectionsHandOver(workers: nat, cap: nat, r: Trace, k: nat, w: nat)
    requires cap >= 2 && IsTrace(workers, cap, r) && k < |r.acts| && r.acts[k] == Section(w)
    ensures w < workers == |r.states[k].pcs| == |r.states[k + 1].pcs|
    ensures UseAfter(r.states[k].pools, r.states[k + 1].pools, r.states[k].pcs[w], r.states[k + 1].pcs[w])
  {
    hide Inv, PoolsAfter, PcAfter, Ready, UseAfter, Knows;
    TraceKeepsGood(workers, cap, r, k);
    TraceKeepsGood(workers, cap, r, k + 1);
    assert StepOf(r.states[k], r.acts[k], r.states[k + 1]);
    SectionDoes(r.states[k].pools, w + 1, r.states[k].pcs[w]);
  }

  /** A call is still to be served as it was begun when its worker comes to its first section. */
  lemma {:induction false} BegunAsAsked(workers: nat, cap: nat, r: Trace, i: nat, j: nat, w: nat)
    requires cap >= 2 && IsTrace(workers, cap, r) && i < j < |r.states| && r.acts[i].w == w && !r.acts[i].Section?
    requires forall k | i < k < j :: r.acts[k].w != w
    ensures w < |r.states[j].pcs|
    ensures match r.acts[i]
            case BeginAllocate(_) => r.states[j].pcs[w] == Allocates
            case BeginDeallocate(_, f) => r.states[j].pcs[w] == Deallocates(f)
            case Section(_) => true
    decreases j
  {
    hide Inv, Ready, PoolsAfter, PcAfter;
    assert StepOf(r.states[j - 1], r.acts[j - 1], r.states[j]);
    if j > i + 1 {
      BegunAsAsked(workers, cap, r, i, j - 1, w);
    }
  }

  /** Every call ends with its first or its second section. */
  lemma EndsInTwoSections(workers: nat, cap: nat, r: Trace, k: nat, w: nat)
    requires cap >= 2 && IsTrace(workers, cap, r) && k < |r.acts| && r.acts[k] == Section(w)
    ensures w < workers == |r.states[k].pcs| == |r.states[k + 1].pcs|
    ensures r.states[k + 1].pcs[w] == Idle || r.states[k].pcs[w].Allocates? || r.states[k].pcs[w].Deallocates?
    ensures var pc := r.states[k + 1].pcs[w]; pc == Idle || pc.Restocks? || pc.Returns?
  {
    hide Inv, PoolsAfter, Ready;
    TraceKeepsGood(workers, cap, r, k);
    TraceKeepsGood(workers, cap, r, k + 1);
    assert StepOf(r.states[k], r.acts[k], r.states[k + 1]);
  }
}
