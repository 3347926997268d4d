/** Fiber pools at two levels: one for every worker and a global one. */
module FiberPool {
  // Fibers move between the two in batches. A fiber is named by the order in which the system handed it out.

  import opened Commons

  const BATCH_FRACTION: nat := 2
  const GLOBAL_POOL_RATIO: nat := 10

  datatype Place = Pooled(pool: nat) | InUse | Returned

  /** What the pools hold, bottom first (pool 0 is the global one, pool w + 1 that of worker w), how much they may hold,
      how many fibers the system has handed out, and where each of them is. */
  datatype State = State(pools: seq<seq<nat>>, caps: seq<nat>, next: nat, place: map<nat, Place>)

  // ---------------------------------------------------------------------------------------------
  // Steps
  // ---------------------------------------------------------------------------------------------

  function Pop(l: seq<nat>): seq<nat>
    requires |l| > 0
  {
    l[..|l| - 1]
  }

  function Top(l: seq<nat>): nat
    requires |l| > 0
  {
    l[|l| - 1]
  }

  /** The top fiber of pool i goes to the top of pool j. */
  function Move(s: State, i: nat, j: nat): State
    requires i < |s.pools| && j < |s.pools| && i != j && |s.pools[i]| > 0
  {
    var f := Top(s.pools[i]);
    s.(pools := s.pools[i := Pop(s.pools[i])][j := s.pools[j] + [f]], place := s.place[f := Pooled(j)])
  }

  /** The system hands out a fiber, to the top of pool i. */
  function Make(s: State, i: nat): State
    requires i < |s.pools|
  {
    s.(pools := s.pools[i := s.pools[i] + [s.next]], place := s.place[s.next := Pooled(i)], next := s.next + 1)
  }

  /** The top fiber of pool i goes somewhere outside of the pools. */
  function Leave(s: State, i: nat, to: Place): State
    requires i < |s.pools| && |s.pools[i]| > 0
  {
    s.(pools := s.pools[i := Pop(s.pools[i])], place := s.place[Top(s.pools[i]) := to])
  }

  /** A fiber comes to the top of pool i. */
  function Enter(s: State, i: nat, f: nat): State
    requires i < |s.pools|
  {
    s.(pools := s.pools[i := s.pools[i] + [f]], place := s.place[f := Pooled(i)])
  }

  /** The array of pool i is made larger, never smaller. */
  function Grow(s: State, i: nat, cap: nat): State
    requires i < |s.caps|
  {
    if s.caps[i] < cap then s.(caps := s.caps[i := cap]) else s
  }

  // ---------------------------------------------------------------------------------------------
  // The invariant
  // ---------------------------------------------------------------------------------------------

  /** Neither pool nor array is exceeded. */
  ghost predicate Sizes(s: State) {
    0 < |s.pools| == |s.caps| && (forall i | 0 <= i < |s.pools| :: |s.pools[i]| <= s.caps[i])
  }

  ghost predicate HeldAt(s: State, i: int, k: int) {
    0 <= i < |s.pools| && 0 <= k < |s.pools[i]| && s.pools[i][k] in s.place && s.place[s.pools[i][k]] == Pooled(i)
  }

  /** What a pool holds is known to be there, and is in it once. */
  ghost predicate Held(s: State) {
    && (forall i, k | 0 <= i < |s.pools| && 0 <= k < |s.pools[i]| :: HeldAt(s, i, k))
    && (forall i, k, m | 0 <= i < |s.pools| && 0 <= k < m < |s.pools[i]| :: s.pools[i][k] != s.pools[i][m])
  }

  ghost predicate PlacedAt(s: State, f: nat) {
    f in s.place && (s.place[f].Pooled? ==> s.place[f].pool < |s.pools| && f in s.pools[s.place[f].pool])
  }

  /** Every fiber that the system has handed out is in a pool, in use, or returned. */
  ghost predicate Placed(s: State) {
    && (forall f: nat :: f in s.place <==> f < s.next)
    && (forall f | f in s.place :: PlacedAt(s, f))
  }

  ghost predicate Inv(s: State) {
    Sizes(s) && Held(s) && Placed(s)
  }

  // ---------------------------------------------------------------------------------------------
  // Every step keeps the invariant
  // ---------------------------------------------------------------------------------------------

  /** A fiber that is elsewhere is not in a pool. */
  lemma NotHeld(s: State, f: nat, i: nat)
    requires Held(s) && i < |s.pools| && (f !in s.place || s.place[f] != Pooled(i))
    ensures f !in s.pools[i]
  {
    forall k | 0 <= k < |s.pools[i]| ensures s.pools[i][k] != f {
      assert HeldAt(s, i, k);
    }
  }

  lemma TopIsPlaced(s: State, i: nat)
    requires Held(s) && i < |s.pools| && |s.pools[i]| > 0
    ensures Top(s.pools[i]) in s.place && s.place[Top(s.pools[i])] == Pooled(i) && Top(s.pools[i]) !in Pop(s.pools[i])
  {
    assert HeldAt(s, i, |s.pools[i]| - 1);
  }

  lemma LeaveKeepsHeld(s: State, i: nat, to: Place)
    requires Held(s) && i < |s.pools| && |s.pools[i]| > 0
    ensures Held(Leave(s, i, to))
  {
    var t, g := Leave(s, i, to), Top(s.pools[i]);
    TopIsPlaced(s, i);
    forall j, k | 0 <= j < |t.pools| && 0 <= k < |t.pools[j]| ensures HeldAt(t, j, k) {
      assert HeldAt(s, j, k);
      assert t.pools[j][k] == s.pools[j][k];
      if j == i {
        assert s.pools[i][k] in Pop(s.pools[i]);
      }
    }
  }

  lemma LeaveKeepsPlaced(s: State, i: nat, to: Place)
    requires Held(s) && Placed(s) && i < |s.pools| && |s.pools[i]| > 0 && !to.Pooled?
    ensures Placed(Leave(s, i, to))
  {
    var t, g := Leave(s, i, to), Top(s.pools[i]);
    TopIsPlaced(s, i);
    hide Held;
    forall f | f in t.place ensures PlacedAt(t, f) {
      if f != g {
        assert PlacedAt(s, f);
        if s.place[f] == Pooled(i) {
        }
      }
    }
  }

  lemma LeaveKeepsInv(s: State, i: nat, to: Place)
    requires Inv(s) && i < |s.pools| && |s.pools[i]| > 0 && !to.Pooled?
    ensures Inv(Leave(s, i, to))
  {
    LeaveKeepsHeld(s, i, to);
    LeaveKeepsPlaced(s, i, to);
    hide Held, Placed;
  }

  lemma EnterKeepsHeld(s: State, i: nat, f: nat)
    requires Held(s) && i < |s.pools| && (f !in s.place || !s.place[f].Pooled?)
    ensures Held(Enter(s, i, f))
  {
    var t := Enter(s, i, f);
    forall j | 0 <= j < |s.pools| ensures f !in s.pools[j] {
      NotHeld(s, f, j);
    }
    forall j, k | 0 <= j < |t.pools| && 0 <= k < |t.pools[j]| ensures HeldAt(t, j, k) {
      if j != i || k < |s.pools[i]| {
        assert HeldAt(s, j, k) && s.pools[j][k] in s.pools[j];
      }
    }
    forall j, k, m | 0 <= j < |t.pools| && 0 <= k < m < |t.pools[j]| ensures t.pools[j][k] != t.pools[j][m] {
      if j == i {
        assert s.pools[j][k] in s.pools[j];
      }
    }
  }

  lemma EnterKeepsInv(s: State, i: nat, f: nat)
    requires Inv(s) && i < |s.pools| && f in s.place && !s.place[f].Pooled? && |s.pools[i]| < s.caps[i]
    ensures Inv(Enter(s, i, f))
  {
    EnterKeepsHeld(s, i, f);
    hide Held, Placed;
  }

  lemma MakeKeepsInv(s: State, i: nat)
    requires Inv(s) && i < |s.pools| && |s.pools[i]| < s.caps[i]
    ensures Inv(Make(s, i))
  {
    var t := Make(s, i);
    assert s.next !in s.place;
    EnterKeepsHeld(s, i, s.next);
    assert t.pools == Enter(s, i, s.next).pools && t.place == Enter(s, i, s.next).place;
    forall j, k | 0 <= j < |t.pools| && 0 <= k < |t.pools[j]| ensures HeldAt(t, j, k) {
      assert HeldAt(Enter(s, i, s.next), j, k);
    }
    forall f | f in t.place ensures PlacedAt(t, f) {
      if f != s.next {
        assert PlacedAt(s, f);
      }
    }
  }

  /** A move is a fiber that leaves one pool and enters another. */
  lemma MoveKeepsInv(s: State, i: nat, j: nat)
    requires Inv(s) && i < |s.pools| && j < |s.pools| && i != j && |s.pools[i]| > 0 && |s.pools[j]| < s.caps[j]
    ensures Inv(Move(s, i, j))
  {
    var f, t := Top(s.pools[i]), Leave(s, i, InUse);
    TopIsPlaced(s, i);
    LeaveKeepsInv(s, i, InUse);
    EnterKeepsInv(t, j, f);
    assert Enter(t, j, f) == Move(s, i, j);
  }

  lemma GrowKeepsInv(s: State, i: nat, cap: nat)
    requires Inv(s) && i < |s.caps|
    ensures Inv(Grow(s, i, cap))
  {
    var t := Grow(s, i, cap);
    forall j, k | 0 <= j < |t.pools| && 0 <= k < |t.pools[j]| ensures HeldAt(t, j, k) {
      assert HeldAt(s, j, k);
    }
    forall f | f in t.place ensures PlacedAt(t, f) {
      assert PlacedAt(s, f);
    }
  }

  // ---------------------------------------------------------------------------------------------
  // Batches
  // ---------------------------------------------------------------------------------------------

  function Moves(s: State, i: nat, j: nat, n: nat): (t: State)
    requires i < |s.pools| && j < |s.pools| && i != j && n <= |s.pools[i]|
    ensures |t.pools| == |s.pools| && t.caps == s.caps && t.next == s.next
    ensures |t.pools[i]| == |s.pools[i]| - n && |t.pools[j]| == |s.pools[j]| + n
    decreases n
  {
    if n == 0 then s else Move(Moves(s, i, j, n - 1), i, j)
  }

  function Makes(s: State, i: nat, n: nat): (t: State)
    requires i < |s.pools|
    ensures |t.pools| == |s.pools| && t.caps == s.caps && |t.pools[i]| == |s.pools[i]| + n && t.next == s.next + n
    decreases n
  {
    if n == 0 then s else Make(Makes(s, i, n - 1), i)
  }

  function Leaves(s: State, i: nat, n: nat): (t: State)
    requires i < |s.pools| && n <= |s.pools[i]|
    ensures |t.pools| == |s.pools| && t.caps == s.caps && |t.pools[i]| == |s.pools[i]| - n && t.next == s.next
    decreases n
  {
    if n == 0 then s else Leave(Leaves(s, i, n - 1), i, Returned)
  }

  /** fiber_pool_allocate_batch for the pool of a worker: what the global pool has, and the rest from the system. */
  function AllocateBatch(s: State, i: nat, n: nat): (t: State)
    requires 0 < i < |s.pools| == |s.caps|
    ensures |t.pools| == |s.pools| == |t.caps| && |t.pools[i]| == |s.pools[i]| + n
    ensures |t.pools[0]| == |s.pools[0]| - Min(|s.pools[0]|, n)
  {
    var k := Min(|s.pools[0]|, n);
    MakesElsewhere(Moves(Grow(s, i, n + |s.pools[i]|), 0, i, k), i, n - k, 0);
    Makes(Moves(Grow(s, i, n + |s.pools[i]|), 0, i, k), i, n - k)
  }

  lemma {:induction false} MakesElsewhere(s: State, i: nat, n: nat, j: nat)
    requires i < |s.pools| && j < |s.pools| && j != i
    ensures Makes(s, i, n).pools[j] == s.pools[j]
    decreases n
  {
    if n > 0 {
      MakesElsewhere(s, i, n - 1, j);
    }
  }

  /** How many fibers the parent of a pool takes back; the global pool has none. */
  function ToParent(s: State, i: nat, n: nat): nat
    requires 0 < |s.pools| == |s.caps| && |s.pools[0]| <= s.caps[0]
  {
    if i == 0 then 0 else Min(n, s.caps[0] - |s.pools[0]|)
  }

  /** fiber_pool_free_batch: as many as the parent has room for, and the rest to the system. */
  function FreeBatch(s: State, i: nat, n: nat): (t: State)
    requires i < |s.pools| == |s.caps| && |s.pools[0]| <= s.caps[0] && n <= |s.pools[i]|
    ensures |t.pools| == |s.pools| && t.caps == s.caps && |t.pools[i]| == |s.pools[i]| - n
  {
    var k := ToParent(s, i, n);
    Leaves(if i == 0 then s else Moves(s, i, 0, k), i, n - k)
  }

  lemma {:induction false} MovesKeepsInv(s: State, i: nat, j: nat, n: nat)
    requires i < |s.pools| == |s.caps| && j < |s.pools| && i != j && n <= |s.pools[i]| && |s.pools[j]| + n <= s.caps[j]
    requires Inv(s)
    ensures Inv(Moves(s, i, j, n))
    decreases n
  {
    hide Inv, Move;
    if n > 0 {
      MovesKeepsInv(s, i, j, n - 1);
      MoveKeepsInv(Moves(s, i, j, n - 1), i, j);
    }
  }

  lemma {:induction false} MakesKeepsInv(s: State, i: nat, n: nat)
    requires i < |s.pools| == |s.caps| && |s.pools[i]| + n <= s.caps[i]
    requires Inv(s)
    ensures Inv(Makes(s, i, n))
    decreases n
  {
    hide Inv, Make;
    if n > 0 {
      MakesKeepsInv(s, i, n - 1);
      MakeKeepsInv(Makes(s, i, n - 1), i);
    }
  }

  lemma {:induction false} LeavesKeepsInv(s: State, i: nat, n: nat)
    requires i < |s.pools| && n <= |s.pools[i]|
    requires Inv(s)
    ensures Inv(Leaves(s, i, n))
    decreases n
  {
    hide Inv, Leave;
    if n > 0 {
      LeavesKeepsInv(s, i, n - 1);
      LeaveKeepsInv(Leaves(s, i, n - 1), i, Returned);
    }
  }

  lemma AllocateBatchKeepsInv(s: State, i: nat, n: nat, t: State)
    requires 0 < i < |s.pools| == |s.caps| && t == AllocateBatch(s, i, n)
    requires Inv(s)
    ensures Inv(t)
  {
    hide Inv, Moves, Makes;
    var k, g := Min(|s.pools[0]|, n), Grow(s, i, n + |s.pools[i]|);
    GrowKeepsInv(s, i, n + |s.pools[i]|);
    MovesKeepsInv(g, 0, i, k);
    MakesKeepsInv(Moves(g, 0, i, k), i, n - k);
  }

  lemma FreeBatchKeepsInv(s: State, i: nat, n: nat, t: State)
    requires i < |s.pools| == |s.caps| && |s.pools[0]| <= s.caps[0] && n <= |s.pools[i]| && t == FreeBatch(s, i, n)
    requires Inv(s)
    ensures Inv(t)
  {
    hide Inv, Moves, Leaves;
    var k := ToParent(s, i, n);
    if i > 0 {
      MovesKeepsInv(s, i, 0, k);
      LeavesKeepsInv(Moves(s, i, 0, k), i, n - k);
    } else {
      LeavesKeepsInv(s, i, n);
    }
  }

  // ---------------------------------------------------------------------------------------------
  // The calls of a worker
  // ---------------------------------------------------------------------------------------------

  /** A pool that is empty gets half of its capacity first. */
  function Stocked(s: State, i: nat): (t: State)
    requires 0 < i < |s.pools| == |s.caps|
    ensures |t.pools| == |s.pools| == |t.caps|
  {
    if |s.pools[i]| == 0 then AllocateBatch(s, i, s.caps[i] / BATCH_FRACTION) else s
  }

  /** A pool that is full gives half of its capacity away first. */
  function Cleared(s: State, i: nat): (t: State)
    requires 0 < i < |s.pools| == |s.caps| && |s.pools[0]| <= s.caps[0]
    ensures |t.pools| == |s.pools| == |t.caps| && t.caps == s.caps
  {
    if |s.pools[i]| == s.caps[i] then FreeBatch(s, i, s.caps[i] / BATCH_FRACTION) else s
  }

  /** A worker gets a fiber exactly if its pool is not empty or may hold two. */
  lemma AllocationWorksExactly(s: State, i: nat, t: State)
    requires 0 < i < |s.pools| == |s.caps| && t == Stocked(s, i)
    requires Inv(s)
    ensures Inv(t) && (|t.pools[i]| > 0 <==> |s.pools[i]| > 0 || s.caps[i] >= 2)
  {
    hide Inv, AllocateBatch;
    if |s.pools[i]| == 0 {
      AllocateBatchKeepsInv(s, i, s.caps[i] / BATCH_FRACTION, t);
    }
  }

  /** A worker can give a fiber back exactly if its pool is not full or may hold two. */
  lemma DeallocationWorksExactly(s: State, i: nat, t: State)
    requires 0 < i < |s.pools| == |s.caps| && |s.pools[0]| <= s.caps[0] && t == Cleared(s, i)
    requires Inv(s)
    ensures Inv(t) && (|t.pools[i]| < t.caps[i] <==> |s.pools[i]| < s.caps[i] || s.caps[i] >= 2)
    ensures |s.pools[i]| == s.caps[i] ==> t.caps[i] - |t.pools[i]| >= t.caps[i] / BATCH_FRACTION
  {
    assert |s.pools[i]| <= s.caps[i];
    hide Inv, FreeBatch;
    if |s.pools[i]| == s.caps[i] {
      FreeBatchKeepsInv(s, i, s.caps[i] / BATCH_FRACTION, t);
    }
  }

  function Allocate(s: State, i: nat): State
    requires 0 < i < |s.pools| == |s.caps| && |Stocked(s, i).pools[i]| > 0
  {
    Leave(Stocked(s, i), i, InUse)
  }

  function AllocatedFiber(s: State, i: nat): nat
    requires 0 < i < |s.pools| == |s.caps| && |Stocked(s, i).pools[i]| > 0
  {
    Top(Stocked(s, i).pools[i])
  }

  function Deallocate(s: State, i: nat, f: nat): State
    requires 0 < i < |s.pools| == |s.caps| && |s.pools[0]| <= s.caps[0]
  {
    Enter(Cleared(s, i), i, f)
  }

  // What a batch does not touch.

  /** No fiber has come into use or gone out of it. */
  ghost predicate SameUse(s: State, t: State) {
    forall f :: f in s.place && s.place[f] == InUse <==> f in t.place && t.place[f] == InUse
  }

  lemma {:induction false} MovesKeepUse(s: State, i: nat, j: nat, n: nat)
    requires i < |s.pools| == |s.caps| && j < |s.pools| && i != j && n <= |s.pools[i]| && |s.pools[j]| + n <= s.caps[j]
    requires Inv(s)
    ensures SameUse(s, Moves(s, i, j, n))
    decreases n
  {
    hide Inv, SameUse, Move;
    if n > 0 {
      var t := Moves(s, i, j, n - 1);
      MovesKeepsInv(s, i, j, n - 1);
      MovesKeepUse(s, i, j, n - 1);
      MoveKeepsUse(s, t, i, j);
    } else {
      AllSameUse(s);
    }
  }

  lemma HeldOf(s: State)
    requires Inv(s)
    ensures Held(s) && Placed(s) && Sizes(s)
  {
    hide Held, Placed, Sizes;
  }

  lemma MovesStep(s: State, i: nat, j: nat, n: nat)
    requires i < |s.pools| && j < |s.pools| && i != j && 0 < n <= |s.pools[i]|
    ensures Moves(s, i, j, n) == Move(Moves(s, i, j, n - 1), i, j)
  {
    hide Move;
  }

  lemma MoveKeepsUse(s: State, t: State, i: nat, j: nat)
    requires SameUse(s, t) && i < |t.pools| && j < |t.pools| && i != j && |t.pools[i]| > 0
    requires Inv(t)
    ensures SameUse(s, Move(t, i, j))
  {
    HeldOf(t);
    TopIsPlaced(t, i);
    hide Inv, Held, Placed, Sizes;
  }

  lemma {:induction false} MakesKeepUse(s: State, i: nat, n: nat)
    requires i < |s.pools| == |s.caps| && |s.pools[i]| + n <= s.caps[i]
    requires Inv(s)
    ensures SameUse(s, Makes(s, i, n))
    decreases n
  {
    if n > 0 {
      MakesKeepsInv(s, i, n - 1);
      MakesKeepUse(s, i, n - 1);
      HeldOf(Makes(s, i, n - 1));
      assert Makes(s, i, n - 1).next !in Makes(s, i, n - 1).place;
      hide Held, Sizes, Inv;
    }
  }

  lemma {:induction false} LeavesKeepUse(s: State, i: nat, n: nat)
    requires i < |s.pools| && n <= |s.pools[i]|
    requires Inv(s)
    ensures SameUse(s, Leaves(s, i, n))
    decreases n
  {
    hide Inv, SameUse, Leave;
    if n > 0 {
      var t := Leaves(s, i, n - 1);
      LeavesKeepsInv(s, i, n - 1);
      LeavesKeepUse(s, i, n - 1);
      LeaveKeepsUse(s, t, i);
    } else {
      AllSameUse(s);
    }
  }

  lemma LeaveKeepsUse(s: State, t: State, i: nat)
    requires SameUse(s, t) && i < |t.pools| && |t.pools[i]| > 0
    requires Inv(t)
    ensures SameUse(s, Leave(t, i, Returned))
  {
    HeldOf(t);
    TopIsPlaced(t, i);
    hide Inv, Held, Placed, Sizes;
  }

  lemma SameUseTwice(s: State, t: State, u: State)
    requires SameUse(s, t) && SameUse(t, u)
    ensures SameUse(s, u)
  {
  }

  lemma AllocateBatchKeepsUse(s: State, i: nat, n: nat, t: State)
    requires 0 < i < |s.pools| == |s.caps| && t == AllocateBatch(s, i, n)
    requires Inv(s)
    ensures SameUse(s, t)
  {
    hide Inv, Moves, Makes, SameUse;
    var k, g := Min(|s.pools[0]|, n), Grow(s, i, n + |s.pools[i]|);
    GrowKeepsInv(s, i, n + |s.pools[i]|);
    MovesKeepsInv(g, 0, i, k);
    MovesKeepUse(g, 0, i, k);
    MakesKeepUse(Moves(g, 0, i, k), i, n - k);
    SameUseTwice(s, g, Moves(g, 0, i, k));
    SameUseTwice(s, Moves(g, 0, i, k), t);
  }

  lemma FreeBatchKeepsUse(s: State, i: nat, n: nat, t: State)
    requires i < |s.pools| == |s.caps| && |s.pools[0]| <= s.caps[0] && n <= |s.pools[i]| && t == FreeBatch(s, i, n)
    requires Inv(s)
    ensures SameUse(s, t)
  {
    hide Inv, Moves, Leaves, SameUse;
    var k := ToParent(s, i, n);
    if i > 0 {
      MovesKeepsInv(s, i, 0, k);
      MovesKeepUse(s, i, 0, k);
      LeavesKeepUse(Moves(s, i, 0, k), i, n - k);
      SameUseTwice(s, Moves(s, i, 0, k), t);
    } else {
      LeavesKeepUse(s, i, n);
    }
  }

  predicate UsedIn(s: State, f: nat) { f in s.place && s.place[f] == InUse }

  /** A worker gets a fiber that nobody uses; nobody else's fiber changes hands. */
  lemma AllocateHandsOut(s: State, i: nat, u: State, t: State, f: nat)
    requires 0 < i < |s.pools| == |s.caps| && u == Stocked(s, i) && |u.pools[i]| > 0
    requires t == Allocate(s, i) && f == AllocatedFiber(s, i)
    requires Inv(s)
    ensures Inv(t) && !UsedIn(s, f) && UsedIn(t, f)
    ensures forall g | g != f :: UsedIn(s, g) <==> UsedIn(t, g)
  {
    hide Inv, AllocateBatch, SameUse, Leave;
    if |s.pools[i]| == 0 {
      AllocateBatchKeepsInv(s, i, s.caps[i] / BATCH_FRACTION, u);
      AllocateBatchKeepsUse(s, i, s.caps[i] / BATCH_FRACTION, u);
    } else {
      AllSameUse(s);
    }
    LeaveKeepsInv(u, i, InUse);
    UseAfterLeave(s, u, i, t, f);
  }

  lemma AllSameUse(s: State)
    ensures SameUse(s, s)
  {
  }

  lemma UseAfterLeave(s: State, u: State, i: nat, t: State, f: nat)
    requires i < |u.pools| && |u.pools[i]| > 0 && f == Top(u.pools[i]) && t == Leave(u, i, InUse)
    requires SameUse(s, u)
    requires Inv(u)
    ensures !UsedIn(s, f) && UsedIn(t, f)
    ensures forall g | g != f :: UsedIn(s, g) <==> UsedIn(t, g)
  {
    HeldOf(u);
    TopIsPlaced(u, i);
    hide Inv, Held, Placed, Sizes;
  }

  /** A worker gives back a fiber in use, to its own pool, whichever worker got it. */
  lemma DeallocateTakesBack(s: State, i: nat, f: nat, u: State, t: State)
    requires 0 < i < |s.pools| == |s.caps| && |s.pools[0]| <= s.caps[0] && u == Cleared(s, i)
    requires |u.pools[i]| < u.caps[i]
    requires t == Deallocate(s, i, f) && UsedIn(s, f)
    requires Inv(s)
    ensures Inv(t) && f in t.place && t.place[f] == Pooled(i)
    ensures forall g | g != f :: UsedIn(s, g) <==> UsedIn(t, g)
  {
    hide Inv, FreeBatch;
    assert |s.pools[i]| == s.caps[i] ==> u == FreeBatch(s, i, s.caps[i] / BATCH_FRACTION);
    hide Cleared, SameUse, Enter;
    if |s.pools[i]| == s.caps[i] {
      FreeBatchKeepsInv(s, i, s.caps[i] / BATCH_FRACTION, u);
      FreeBatchKeepsUse(s, i, s.caps[i] / BATCH_FRACTION, u);
    } else {
      AllSameUse(s);
    }
    EnterKeepsInv(u, i, f);
  }
  // ---------------------------------------------------------------------------------------------
  // The end
  // ---------------------------------------------------------------------------------------------

  /** Every fiber of pool i goes back to the system. */
  function ReturnAll(s: State, i: nat): State
    requires i < |s.pools|
  {
    s.(pools := s.pools[i := []], place := s.place + map f | f in s.pools[i] :: Returned)
  }

  /** The pool of a worker is destroyed; worker 0 does the same for the global pool. */
  function DestroyOne(s: State, i: nat): (t: State)
    requires 0 < i < |s.pools| == |s.caps|
    ensures |t.pools| == |s.pools| == |t.caps|
  {
    var u := ReturnAll(s, i);
    if i == 1 then Leaves(u, 0, |u.pools[0]|) else u
  }

  function DestroyUpTo(s: State, n: nat): (t: State)
    requires n < |s.pools| == |s.caps|
    ensures |t.pools| == |s.pools| == |t.caps|
    decreases n
  {
    if n == 0 then s else DestroyOne(DestroyUpTo(s, n - 1), n)
  }

  lemma ReturnAllKeepsInv(s: State, i: nat)
    requires Inv(s) && i < |s.pools|
    ensures Inv(ReturnAll(s, i))
  {
    var t := ReturnAll(s, i);
    forall f | f in s.pools[i] ensures f in s.place {
      var k :| 0 <= k < |s.pools[i]| && s.pools[i][k] == f;
      assert HeldAt(s, i, k);
    }
    assert t.place.Keys == s.place.Keys;
    forall j, k | 0 <= j < |t.pools| && 0 <= k < |t.pools[j]| ensures HeldAt(t, j, k) {
      assert HeldAt(s, j, k);
      NotHeld(s, s.pools[j][k], i);
    }
    forall f | f in t.place ensures PlacedAt(t, f) {
      assert PlacedAt(s, f);
    }
  }

  lemma {:induction false} LeavesElsewhere(s: State, i: nat, n: nat, j: nat)
    requires i < |s.pools| && j < |s.pools| && j != i && n <= |s.pools[i]|
    ensures Leaves(s, i, n).pools[j] == s.pools[j]
    decreases n
  {
    if n > 0 {
      LeavesElsewhere(s, i, n - 1, j);
    }
  }

  lemma {:induction false} DestroyKeepsInv(s: State, n: nat, t: State)
    requires n < |s.pools| == |s.caps| && t == DestroyUpTo(s, n)
    requires Inv(s)
    ensures Inv(t) && (forall i | 1 <= i <= n :: t.pools[i] == []) && (n > 0 ==> t.pools[0] == [])
    decreases n
  {
    if n > 0 {
      var u := DestroyUpTo(s, n - 1);
      DestroyKeepsInv(s, n - 1, u);
      ReturnAllKeepsInv(u, n);
      hide Inv, Leaves, DestroyUpTo;
      var v := ReturnAll(u, n);
      if n == 1 {
        LeavesKeepsInv(v, 0, |v.pools[0]|);
        LeavesElsewhere(v, 0, |v.pools[0]|, 1);
      }
    }
  }

  /** When the pools of all workers are destroyed the global pool is empty too, and every fiber is returned
      or in use. */
  lemma DestroyReturnsAll(s: State, t: State)
    requires 1 < |s.pools| == |s.caps| && t == DestroyUpTo(s, |s.pools| - 1)
    requires Inv(s)
    ensures t.pools[0] == [] && (forall f | f in t.place :: OutOfPools(t, f))
  {
    hide DestroyUpTo, Inv, OutOfPools;
    DestroyKeepsInv(s, |s.pools| - 1, t);
    EmptyPools(t);
  }

  predicate OutOfPools(s: State, f: nat) {
    f in s.place && (s.place[f] == Returned || s.place[f] == InUse)
  }

  lemma EmptyPools(t: State)
    requires forall i | 0 <= i < |t.pools| :: t.pools[i] == []
    requires Inv(t)
    ensures forall f | f in t.place :: OutOfPools(t, f)
  {
    HeldOf(t);
    hide Inv, Held, Sizes;
    forall f | f in t.place ensures OutOfPools(t, f) {
      assert PlacedAt(t, f);
    }
  }

  // ---------------------------------------------------------------------------------------------
  // Runs
  // ---------------------------------------------------------------------------------------------

  datatype Call = AllocateCall(w: nat) | DeallocateCall(w: nat, f: nat)

  /** There is a worker, its pool may hold two fibers, and what it gives back is in use. */
  predicate Legal(s: State, c: Call) {
    && c.w + 1 < |s.pools| == |s.caps| && s.caps[c.w + 1] >= 2 && |s.pools[0]| <= s.caps[0]
    && (c.DeallocateCall? ==> UsedIn(s, c.f))
  }

  ghost predicate Step(s: State, c: Call, t: State) {
    && Legal(s, c)
    && (c.AllocateCall? ==> |Stocked(s, c.w + 1).pools[c.w + 1]| > 0 && t == Allocate(s, c.w + 1))
    && (c.DeallocateCall? ==> t == Deallocate(s, c.w + 1, c.f))
  }

  ghost predicate StepAt(states: seq<State>, calls: seq<Call>, k: int) {
    0 <= k < |calls| && k + 1 < |states| && Step(states[k], calls[k], states[k + 1])
  }

  lemma CallKeepsInv(s: State, c: Call, t: State)
    requires Step(s, c, t)
    requires Inv(s)
    ensures Inv(t)
  {
    var i := c.w + 1;
    hide Inv, Allocate, Deallocate, Stocked, Cleared;
    if c.AllocateCall? {
      AllocateHandsOut(s, i, Stocked(s, i), t, AllocatedFiber(s, i));
    } else {
      DeallocationWorksExactly(s, i, Cleared(s, i));
      DeallocateTakesBack(s, i, c.f, Cleared(s, i), t);
    }
  }

  /** Over any run of allocations and deallocations, by any workers. */
  lemma {:induction false} RunKeepsInv(states: seq<State>, calls: seq<Call>, k: nat)
    requires |states| == |calls| + 1 && k <= |calls|
    requires forall j | 0 <= j < |calls| :: StepAt(states, calls, j)
    requires Inv(states[0])
    ensures Inv(states[k])
    decreases k
  {
    hide Inv, Step;
    if k > 0 {
      RunKeepsInv(states, calls, k - 1);
      assert StepAt(states, calls, k - 1);
      CallKeepsInv(states[k - 1], calls[k - 1], states[k]);
    }
  }

  // ---------------------------------------------------------------------------------------------
  // The start
  // ---------------------------------------------------------------------------------------------

  /** Empty pools: the global one, and one of capacity cap for every worker. */
  function Empty(workers: nat, cap: nat): State {
    State(seq(workers + 1, i => []), seq(workers + 1, i => if i == 0 then GLOBAL_POOL_RATIO * cap else cap), 0, map[])
  }

  /** The first k workers have initialised their pools, each with a batch of half its capacity. */
  function Initialised(workers: nat, cap: nat, k: nat): (s: State)
    requires k <= workers
    ensures |s.pools| == |s.caps| == workers + 1
    decreases k
  {
    if k == 0 then Empty(workers, cap)
    else AllocateBatch(Initialised(workers, cap, k - 1), k, cap / BATCH_FRACTION)
  }

  lemma AllocatesFresh(s: State, i: nat, n: nat)
    requires 0 < i < |s.pools| == |s.caps| && |s.pools[0]| == 0 && n + |s.pools[i]| <= s.caps[i]
    ensures var t := AllocateBatch(s, i, n);
            t.caps == s.caps && forall j | 0 <= j < |s.pools| && j != i :: t.pools[j] == s.pools[j]
  {
    forall j | 0 <= j < |s.pools| && j != i ensures AllocateBatch(s, i, n).pools[j] == s.pools[j] {
      MakesElsewhere(s, i, n, j);
    }
  }

  lemma {:induction false} StartsWell(workers: nat, cap: nat, k: nat, s: State)
    requires k <= workers && s == Initialised(workers, cap, k)
    ensures Inv(s) && s.pools[0] == [] && s.caps == Empty(workers, cap).caps
    ensures forall i | 0 < i <= workers :: |s.pools[i]| == if i <= k then cap / BATCH_FRACTION else 0
    decreases k
  {
    hide Inv, AllocateBatch;
    if k == 0 {
      EmptyInv(workers, cap);
    } else {
      var r := Initialised(workers, cap, k - 1);
      StartsWell(workers, cap, k - 1, r);
      AllocateBatchKeepsInv(r, k, cap / BATCH_FRACTION, s);
      AllocatesFresh(r, k, cap / BATCH_FRACTION);
    }
  }

  lemma EmptyInv(workers: nat, cap: nat)
    ensures Inv(Empty(workers, cap))
  {
  }

  /** The pools as the workers initialise them, and every run from there: no array is exceeded, and every fiber is in
      one pool, in use or returned. */
  lemma RunFromTheStart(workers: nat, cap: nat, states: seq<State>, calls: seq<Call>, k: nat)
    requires |states| == |calls| + 1 && k <= |calls|
    requires forall j | 0 <= j < |calls| :: StepAt(states, calls, j)
    requires states[0] == Initialised(workers, cap, workers)
    ensures Inv(states[k])
    ensures forall i | 0 < i <= workers :: |states[0].pools[i]| == cap / BATCH_FRACTION
  {
    StartsWell(workers, cap, workers, states[0]);
    RunKeepsInv(states, calls, k);
  }
}
