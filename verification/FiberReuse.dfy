/** Where the fibers of a pool come from and go to, how many at a time, and when the lock is needed. */
module FiberReuse {

  import opened Commons
  import opened FiberPool
  import Sections = FiberSections

  // ---------------------------------------------------------------------------------------------
  // Batches
  // ---------------------------------------------------------------------------------------------

  function Reverse(l: seq<nat>): (r: seq<nat>)
    ensures |r| == |l|
  {
    if l == [] then [] else [l[|l| - 1]] + Reverse(l[..|l| - 1])
  }

  /** The next n names that the system gives. */
  function Fresh(next: nat, n: nat): (r: seq<nat>)
    ensures |r| == n && forall k | 0 <= k < n :: r[k] == next + k
  {
    seq(n, k requires 0 <= k < n => next + k)
  }

  /** The pools other than i and j, and the capacities, are as they were. */
  ghost predicate Elsewhere(s: State, t: State, i: nat, j: nat) {
    && |t.pools| == |s.pools| && t.caps == s.caps
    && forall m | 0 <= m < |s.pools| && m != i && m != j :: t.pools[m] == s.pools[m]
  }

  /** The last n of pool i come to the top of pool j, the last one first. */
  lemma {:induction false} MovesAre(s: State, i: nat, j: nat, n: nat)
    requires i < |s.pools| && j < |s.pools| && i != j && n <= |s.pools[i]|
    ensures var t, rest := Moves(s, i, j, n), |s.pools[i]| - n;
            && Elsewhere(s, t, i, j) && t.pools[i] == s.pools[i][..rest]
            && t.pools[j] == s.pools[j] + Reverse(s.pools[i][rest..]) && t.next == s.next
    decreases n
  {
    if n > 0 {
      MovesAre(s, i, j, n - 1);
      ReverseNext(s.pools[i], |s.pools[i]| - n);
      hide Reverse;
    }
  }

  lemma {:induction false} ReverseNext(l: seq<nat>, k: nat)
    requires k < |l|
    ensures Reverse(l[k..]) == Reverse(l[k + 1..]) + [l[k]]
    decreases |l|
  {
    var m := l[..|l| - 1];
    if k < |l| - 1 {
      ReverseNext(m, k);
      assert l[k..][..|l| - k - 1] == m[k..] && l[k + 1..][..|l| - k - 2] == m[k + 1..];
    }
  }

  lemma {:induction false} MakesAre(s: State, i: nat, n: nat)
    requires i < |s.pools|
    ensures var t := Makes(s, i, n);
            Elsewhere(s, t, i, i) && t.pools[i] == s.pools[i] + Fresh(s.next, n) && t.next == s.next + n
    decreases n
  {
    if n > 0 {
      MakesAre(s, i, n - 1);
      assert Fresh(s.next, n) == Fresh(s.next, n - 1) + [s.next + n - 1];
    }
  }

  /** The top n of pool i are returned to the system. */
  lemma {:induction false} LeavesAre(s: State, i: nat, n: nat)
    requires i < |s.pools| && n <= |s.pools[i]|
    ensures var t, rest := Leaves(s, i, n), |s.pools[i]| - n;
            && Elsewhere(s, t, i, i) && t.pools[i] == s.pools[i][..rest] && t.next == s.next
            && forall f :: f in s.pools[i][rest..] ==> f in t.place && t.place[f] == Returned
    decreases n
  {
    if n > 0 {
      LeavesAre(s, i, n - 1);
      var rest := |s.pools[i]| - n;
      assert s.pools[i][rest..] == [s.pools[i][rest]] + s.pools[i][rest + 1..];
    }
  }

  /** A batch into the pool of a worker: what the global pool has, its top first, and only what it lacks from the
      system, in the order of its names. */
  lemma AllocateBatchIs(s: State, i: nat, n: nat)
    requires 0 < i < |s.pools| == |s.caps|
    ensures var t, g, k := AllocateBatch(s, i, n), s.pools[0], Min(|s.pools[0]|, n);
            && t.pools[0] == g[..|g| - k] && t.next == s.next + (n - k)
            && t.pools[i] == s.pools[i] + Reverse(g[|g| - k..]) + Fresh(s.next, n - k)
            && (forall m | 0 < m < |s.pools| && m != i :: t.pools[m] == s.pools[m])
            && t.caps == s.caps[i := Max(s.caps[i], n + |s.pools[i]|)]
  {
    hide Moves, Makes, Reverse;
    var k, u := Min(|s.pools[0]|, n), Grow(s, i, n + |s.pools[i]|);
    MovesAre(u, 0, i, k);
    MakesAre(Moves(u, 0, i, k), i, n - k);
  }

  /** A batch out of the pool of a worker: as many as the global pool has room for, the top first, and only the rest
      to the system. */
  lemma FreeBatchIs(s: State, i: nat, n: nat)
    requires 0 < i < |s.pools| == |s.caps| && |s.pools[0]| <= s.caps[0] && n <= |s.pools[i]|
    ensures var t, p, k := FreeBatch(s, i, n), s.pools[i], Min(n, s.caps[0] - |s.pools[0]|);
            && t.pools[0] == s.pools[0] + Reverse(p[|p| - k..]) && t.pools[i] == p[..|p| - n]
            && (forall f | f in p[|p| - n..|p| - k] :: f in t.place && t.place[f] == Returned)
            && (forall m | 0 < m < |s.pools| && m != i :: t.pools[m] == s.pools[m])
            && t.caps == s.caps && t.next == s.next
  {
    hide Moves, Leaves, Reverse;
    var k := Min(n, s.caps[0] - |s.pools[0]|);
    var u := Moves(s, i, 0, k);
    MovesAre(s, i, 0, k);
    LeavesAre(u, i, n - k);
    assert s.pools[i][..|s.pools[i]| - k][|s.pools[i]| - n..] == s.pools[i][|s.pools[i]| - n..|s.pools[i]| - k];
  }

  // ---------------------------------------------------------------------------------------------
  // A worker's own pool
  // ---------------------------------------------------------------------------------------------

  /** Nothing but pool i has changed: no lock is needed and the system is not asked. */
  ghost predicate Local(s: State, t: State, i: nat) {
    Elsewhere(s, t, i, i) && t.next == s.next
  }

  /** An allocation that finds the pool empty leaves half of its capacity in it, less the fiber it returns. */
  lemma HalfAPoolIsLeft(s: State, i: nat)
    requires 0 < i < |s.pools| == |s.caps| && s.pools[i] == [] && s.caps[i] >= 2
    ensures |Stocked(s, i).pools[i]| == s.caps[i] / 2
    ensures |Allocate(s, i).pools| == |s.pools| && Allocate(s, i).caps == s.caps
    ensures |Allocate(s, i).pools[i]| + 1 == s.caps[i] / 2
  {
    AllocateBatchIs(s, i, s.caps[i] / 2);
    hide AllocateBatch;
  }

  /** One that finds a fiber takes the top one of its own pool and touches nothing else. */
  lemma AllocationIsLocal(s: State, i: nat)
    requires 0 < i < |s.pools| == |s.caps| && s.pools[i] != []
    ensures Local(s, Allocate(s, i), i) && Allocate(s, i).pools[i] == s.pools[i][..|s.pools[i]| - 1]
    ensures AllocatedFiber(s, i) == s.pools[i][|s.pools[i]| - 1]
  {
  }

  function Allocations(s: State, i: nat, n: nat): State
    requires 0 < i < |s.pools| == |s.caps| && n <= |s.pools[i]|
    decreases n
  {
    if n == 0 then s else Allocations(Allocate(s, i), i, n - 1)
  }

  lemma {:induction false} AllocationsAreLocal(s: State, i: nat, n: nat)
    requires 0 < i < |s.pools| == |s.caps| && n <= |s.pools[i]|
    ensures Local(s, Allocations(s, i, n), i) && Allocations(s, i, n).pools[i] == s.pools[i][..|s.pools[i]| - n]
    decreases n
  {
    if n > 0 {
      AllocationIsLocal(s, i);
      AllocationsAreLocal(Allocate(s, i), i, n - 1);
      hide Allocate;
    }
  }

  /** After an allocation that has had to go for a batch, half of the capacity of the pool of allocations, less one, do
      without the lock and without the system. */
  lemma TheNextAllocationsAreLocal(s: State, i: nat, n: nat)
    requires 0 < i < |s.pools| == |s.caps| && s.pools[i] == [] && s.caps[i] >= 2 && n + 1 <= s.caps[i] / 2
    ensures |Stocked(s, i).pools[i]| > 0
    ensures |Allocate(s, i).pools| == |s.pools| && Allocate(s, i).caps == s.caps && n <= |Allocate(s, i).pools[i]|
    ensures Local(Allocate(s, i), Allocations(Allocate(s, i), i, n), i)
  {
    hide Local, Allocate, Allocations;
    HalfAPoolIsLeft(s, i);
    AllocationsAreLocal(Allocate(s, i), i, n);
  }

  /** A deallocation that finds the pool full leaves room for half of its capacity, less the fiber it adds. */
  lemma HalfAPoolHasRoom(s: State, i: nat, f: nat)
    requires 0 < i < |s.pools| == |s.caps| && |s.pools[0]| <= s.caps[0] && |s.pools[i]| == s.caps[i]
    ensures var t := Deallocate(s, i, f);
            && |t.pools| == |s.pools| && t.caps == s.caps && |t.pools[i]| == s.caps[i] - s.caps[i] / 2 + 1
            && |t.pools[0]| <= t.caps[0]
  {
    FreeBatchIs(s, i, s.caps[i] / 2);
    hide FreeBatch;
  }

  lemma DeallocationIsLocal(s: State, i: nat, f: nat)
    requires 0 < i < |s.pools| == |s.caps| && |s.pools[0]| <= s.caps[0] && |s.pools[i]| < s.caps[i]
    ensures Local(s, Deallocate(s, i, f), i) && Deallocate(s, i, f).pools[i] == s.pools[i] + [f]
  {
  }

  function Deallocations(s: State, i: nat, fs: seq<nat>): State
    requires 0 < i < |s.pools| == |s.caps| && |s.pools[0]| <= s.caps[0] && |s.pools[i]| + |fs| <= s.caps[i]
    decreases |fs|
  {
    if fs == [] then s else Deallocations(Deallocate(s, i, fs[0]), i, fs[1..])
  }

  lemma {:induction false} DeallocationsAreLocal(s: State, i: nat, fs: seq<nat>)
    requires 0 < i < |s.pools| == |s.caps| && |s.pools[0]| <= s.caps[0] && |s.pools[i]| + |fs| <= s.caps[i]
    ensures Local(s, Deallocations(s, i, fs), i) && Deallocations(s, i, fs).pools[i] == s.pools[i] + fs
    decreases |fs|
  {
    if fs != [] {
      DeallocationIsLocal(s, i, fs[0]);
      DeallocationsAreLocal(Deallocate(s, i, fs[0]), i, fs[1..]);
      hide Deallocate;
    }
  }

  /** After a deallocation that has had to give a batch back, half of the capacity of the pool of deallocations, less
      one, do without the lock and without the system. */
  lemma TheNextDeallocationsAreLocal(s: State, i: nat, f: nat, fs: seq<nat>)
    requires 0 < i < |s.pools| == |s.caps| && |s.pools[0]| <= s.caps[0] && |s.pools[i]| == s.caps[i]
    requires |fs| + 1 <= s.caps[i] / 2
    ensures var t := Deallocate(s, i, f);
            && |t.pools| == |s.pools| && t.caps == s.caps && |t.pools[0]| <= t.caps[0]
            && |t.pools[i]| + |fs| <= t.caps[i] && Local(t, Deallocations(t, i, fs), i)
  {
    hide Local, Deallocate, Deallocations;
    HalfAPoolHasRoom(s, i, f);
    DeallocationsAreLocal(Deallocate(s, i, f), i, fs);
  }

  /** Last in, first out: a worker gets the fiber again that it gave back last. */
  lemma LastInFirstOut(s: State, i: nat, f: nat)
    requires 0 < i < |s.pools| == |s.caps| && |s.pools[0]| <= s.caps[0]
    ensures var t := Deallocate(s, i, f); |Stocked(t, i).pools[i]| > 0 && AllocatedFiber(t, i) == f
  {
    hide FreeBatch, AllocateBatch;
  }

  lemma CallKeepsCapacities(s: State, c: Call, t: State)
    requires Step(s, c, t)
    ensures |t.pools| == |s.pools| && t.caps == s.caps
  {
    var i := c.w + 1;
    hide AllocateBatch, FreeBatch;
    if c.AllocateCall? && s.pools[i] == [] {
      HalfAPoolIsLeft(s, i);
    }
  }

  /** From the start on the global pool may hold ten times as many fibers as that of a worker, and no call enlarges an
      array. */
  lemma {:induction false} CapacitiesAreFixed(workers: nat, cap: nat, states: seq<State>, calls: seq<Call>, k: nat)
    requires |states| == |calls| + 1 && k <= |calls| && states[0] == Initialised(workers, cap, workers)
    requires forall j | 0 <= j < |calls| :: StepAt(states, calls, j)
    ensures |states[k].caps| == workers + 1 && states[k].caps[0] == 10 * cap
    ensures forall i | 0 < i <= workers :: states[k].caps[i] == cap
    decreases k
  {
    hide Step, Inv;
    if k == 0 {
      StartsWell(workers, cap, workers, states[0]);
    } else {
      CapacitiesAreFixed(workers, cap, states, calls, k - 1);
      assert StepAt(states, calls, k - 1);
      CallKeepsCapacities(states[k - 1], calls[k - 1], states[k]);
    }
  }

  // ---------------------------------------------------------------------------------------------
  // Calls and their critical sections
  // ---------------------------------------------------------------------------------------------

  /** With nobody in between, the sections of an allocation do what the whole call does. */
  lemma SectionsAllocate(s: State, i: nat)
    requires Sections.Knows(s, i, Sections.Allocates) && |s.pools[0]| <= s.caps[0]
    ensures |Stocked(s, i).pools[i]| > 0
    ensures var t, pc := Sections.PoolsAfter(s, i, Sections.Allocates), Sections.PcAfter(s, i, Sections.Allocates);
            if pc == Sections.Idle then t == Allocate(s, i) else
              Sections.Ready(t, i, pc) && Sections.PoolsAfter(t, i, pc) == Allocate(s, i)
              && Sections.PcAfter(t, i, pc) == Sections.Idle
  {
    hide Moves, Makes;
    if s.pools[i] == [] {
      HalfAPoolIsLeft(s, i);
    }
  }

  lemma SectionsDeallocate(s: State, i: nat, f: nat)
    requires Sections.Knows(s, i, Sections.Deallocates(f)) && |s.pools[0]| <= s.caps[0] && |s.pools[i]| <= s.caps[i]
    ensures var d := Sections.Deallocates(f);
            var t, pc := Sections.PoolsAfter(s, i, d), Sections.PcAfter(s, i, d);
            if pc == Sections.Idle then t == Deallocate(s, i, f) else
              Sections.Ready(t, i, pc) && Sections.PoolsAfter(t, i, pc) == Deallocate(s, i, f)
              && Sections.PcAfter(t, i, pc) == Sections.Idle
  {
    hide Moves, Leaves;
  }
}
