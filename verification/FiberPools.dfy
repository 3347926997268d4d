/** The fiber pools as the runtime keeps them: arrays that are filled up to a size, and batches that move fibers from
    one to the other one by one. */
module FiberPools {

  import opened FiberPool
  import opened Commons

  class Pool {
    var fibers: array<nat>
    var capacity: nat
    var size: nat

    ghost predicate Valid()
      reads this
    {
      size <= capacity == fibers.Length
    }

    ghost function Contents(): seq<nat>
      requires Valid()
      reads this, fibers
    {
      fibers[..size]
    }

    /** fiber_pool_init: an empty pool. */
    constructor (bufsize: nat)
      ensures Valid() && Contents() == [] && capacity == bufsize && fresh(fibers)
    {
      fibers := new nat[bufsize];
      capacity := bufsize;
      size := 0;
    }

    method IncreaseCapacity(newSize: nat)
      requires Valid()
      modifies this
      ensures Valid() && Contents() == old(Contents())
      ensures capacity == if old(capacity) < newSize then newSize else old(capacity)
      ensures fibers == old(fibers) || fresh(fibers)
    {
      if capacity < newSize {
        var larger := new nat[newSize];
        var i := 0;
        while i < size
          invariant 0 <= i <= size && larger[..i] == fibers[..i]
          modifies larger
        {
          larger[i] := fibers[i];
          i := i + 1;
        }
        fibers := larger;
        capacity := newSize;
      }
    }

    method Push(f: nat)
      requires Valid() && size < capacity
      modifies this`size, fibers
      ensures Valid() && Contents() == old(Contents()) + [f] && size == old(size) + 1
    {
      fibers[size] := f;
      size := size + 1;
    }

    method PopTop() returns (f: nat)
      requires Valid() && size > 0
      modifies this`size
      ensures Valid() && Contents() == Pop(old(Contents())) && f == Top(old(Contents())) && size == old(size) - 1
    {
      size := size - 1;
      f := fibers[size];
    }
  }

  class Pools {
    /** Pool 0 is the global one, pool w + 1 that of worker w. */
    const pools: seq<Pool>
    var next: nat
    var locked: bool
    ghost var place: map<nat, Place>

    ghost predicate Valid()
      reads pools, set p | p in pools :: p.fibers
    {
      && |pools| > 0
      && (forall i | 0 <= i < |pools| :: pools[i].Valid())
      && (forall i, j | 0 <= i < j < |pools| :: pools[i] != pools[j] && pools[i].fibers != pools[j].fibers)
    }

    ghost function S(): (s: State)
      requires Valid()
      reads `next, `place, pools, set p | p in pools :: p.fibers
      ensures |s.pools| == |pools| == |s.caps| && s.next == next && s.place == place
      ensures forall i | 0 <= i < |pools| :: s.pools[i] == pools[i].Contents() && s.caps[i] == pools[i].capacity
    {
      State(seq(|pools|, i requires 0 <= i < |pools| reads pools, set p | p in pools :: p.fibers
                           requires forall k | 0 <= k < |pools| :: pools[k].Valid() => pools[i].Contents()),
            seq(|pools|, i requires 0 <= i < |pools| reads pools => pools[i].capacity), next, place)
    }

    /** fiber_pool_lock, which the owner of the lock must not call. */
    method Lock()
      requires Valid() && !locked
      modifies this`locked
      ensures locked && Valid() && S() == old(S())
    {
      locked := true;
    }

    method Unlock()
      requires Valid() && locked
      modifies this`locked
      ensures !locked && Valid() && S() == old(S())
    {
      locked := false;
    }

    /** The top fiber leaves a pool. */
    method TakeTop(ghost i: nat, pool: Pool, ghost to: Place) returns (f: nat)
      requires Valid() && i < |pools| && pools[i] == pool && pool.size > 0
      modifies this`place, pool`size
      ensures Valid() && S() == Leave(old(S()), i, to) && f == Top(old(S()).pools[i])
      ensures pool.size == old(pool.size) - 1
    {
      hide S;
      ghost var s0 := S();
      f := pool.PopTop();
      forall k | 0 <= k < |pools|
        ensures pools[k].Contents() == (if k == i then Pop(s0.pools[i]) else s0.pools[k])
        ensures pools[k].capacity == s0.caps[k]
      {
      }
      place := place[f := to];
      assert S().pools == s0.pools[i := Pop(s0.pools[i])];
      assert S().caps == s0.caps;
    }

    /** A fiber goes to the top of a pool. */
    method PutTop(ghost i: nat, pool: Pool, f: nat)
      requires Valid() && i < |pools| && pools[i] == pool && pool.size < pool.capacity
      modifies this`place, pool`size, pool.fibers
      ensures Valid() && S() == Enter(old(S()), i, f)
      ensures pool.size == old(pool.size) + 1
    {
      hide S;
      ghost var s0 := S();
      pool.Push(f);
      forall k | 0 <= k < |pools| && k != i
        ensures pools[k].Contents() == s0.pools[k] && pools[k].capacity == s0.caps[k]
      {
      }
      place := place[f := Pooled(i)];
      assert S().pools == s0.pools[i := s0.pools[i] + [f]];
      assert S().caps == s0.caps;
    }

    method AllocateFromSystem(ghost i: nat, pool: Pool)
      requires Valid() && i < |pools| && pools[i] == pool && pool.size < pool.capacity
      modifies this`place, this`next, pool`size, pool.fibers
      ensures Valid() && S() == Make(old(S()), i)
      ensures pool.size == old(pool.size) + 1
    {
      hide S, Enter;
      MakeIsEnter(S(), i);
      PutTop(i, pool, next);
      next := next + 1;
    }

    /** The top fiber of one pool goes to the top of another. */
    method Transfer(ghost i: nat, from: Pool, ghost j: nat, to: Pool)
      requires Valid() && i < |pools| && j < |pools| && i != j && pools[i] == from && pools[j] == to
      requires from.size > 0 && to.size < to.capacity
      modifies this`place, from`size, to`size, to.fibers
      ensures Valid() && S() == Move(old(S()), i, j)
      ensures from.size == old(from.size) - 1 && to.size == old(to.size) + 1
    {
      hide Leave, Enter, Move, Valid, S;
      Apart(i, j);
      MoveIs(S(), i, j);
      var f := TakeTop(i, from, InUse);
      Apart(i, j);
      PutTop(j, to, f);
    }

    lemma Apart(i: nat, j: nat)
      requires Valid() && i < |pools| && j < |pools| && i != j
      ensures pools[i] != pools[j] && pools[i].fibers != pools[j].fibers
      ensures |S().pools[i]| == pools[i].size && |S().pools[j]| == pools[j].size
    {
    }

    /** fiber_pool_increase_capacity. */
    method IncreaseCapacity(ghost i: nat, pool: Pool, newSize: nat)
      requires Valid() && i < |pools| && pools[i] == pool
      modifies pool
      ensures Valid() && S() == Grow(old(S()), i, newSize)
      ensures pool.fibers == old(pool.fibers) || fresh(pool.fibers)
      ensures pool.size == old(pool.size) && pool.capacity >= newSize
    {
      hide S;
      ghost var s0 := S();
      pool.IncreaseCapacity(newSize);
      forall k | 0 <= k < |pools|
        ensures pools[k].Contents() == s0.pools[k]
        ensures pools[k].capacity == if k == i then pool.capacity else s0.caps[k]
      {
      }
      assert S().pools == s0.pools;
      assert S().caps == s0.caps[i := pool.capacity];
    }

    /** The loop that moves a batch from one pool to another. */
    method TransferMany(ghost i: nat, from: Pool, ghost j: nat, to: Pool, n: nat)
      requires Valid() && i < |pools| && j < |pools| && i != j && pools[i] == from && pools[j] == to
      requires n <= from.size && to.size + n <= to.capacity
      modifies this`place, from`size, to`size, to.fibers
      ensures Valid() && S() == Moves(old(S()), i, j, n)
      ensures from.size == old(from.size) - n && to.size == old(to.size) + n
    {
      hide Leave, Enter, Move, Moves, Valid, S;
      Apart(i, j);
      ghost var s0, fibers := S(), to.fibers;
      NoneYet(s0, i, j);
      var k := 0;
      while k < n
        invariant 0 <= k <= n && Valid() && S() == Moves(s0, i, j, k) && to.fibers == fibers
        invariant from.size == old(from.size) - k && to.size == old(to.size) + k
      {
        Transfer(i, from, j, to);
        MovesStep(s0, i, j, k + 1);
        k := k + 1;
      }
    }

    /** The same with the global pool, which is one of the two, locked. */
    method TransferLocked(ghost i: nat, from: Pool, ghost j: nat, to: Pool, n: nat)
      requires Valid() && i < |pools| && j < |pools| && i != j && pools[i] == from && pools[j] == to && !locked
      requires n <= from.size && to.size + n <= to.capacity
      modifies this`place, this`locked, from`size, to`size, to.fibers
      ensures Valid() && S() == Moves(old(S()), i, j, n) && !locked
      ensures from.size == old(from.size) - n && to.size == old(to.size) + n
    {
      hide Moves, Valid, S;
      Lock();
      TransferMany(i, from, j, to, n);
      Unlock();
    }

    /** The loop that gets a batch from the system. */
    method AllocateMany(ghost i: nat, pool: Pool, n: nat)
      requires Valid() && i < |pools| && pools[i] == pool && pool.size + n <= pool.capacity
      modifies this`place, this`next, pool`size, pool.fibers
      ensures Valid() && S() == Makes(old(S()), i, n)
      ensures pool.size == old(pool.size) + n
    {
      hide Make, Valid, S;
      ghost var s0, fibers := S(), pool.fibers;
      SameCount(i);
      var k := 0;
      while k < n
        invariant 0 <= k <= n && Valid() && S() == Makes(s0, i, k) && pool.fibers == fibers
        invariant pool.size == old(pool.size) + k
      {
        AllocateFromSystem(i, pool);
        k := k + 1;
      }
    }

    /** The loop that gives a batch back to the system. */
    method FreeMany(ghost i: nat, pool: Pool, n: nat)
      requires Valid() && i < |pools| && pools[i] == pool && n <= pool.size
      modifies this`place, pool`size
      ensures Valid() && |old(S()).pools[i]| >= n && S() == Leaves(old(S()), i, n)
      ensures pool.size == old(pool.size) - n
    {
      hide Leave, Valid, S;
      ghost var s0 := S();
      SameCount(i);
      var k := 0;
      while k < n
        invariant 0 <= k <= n && Valid() && S() == Leaves(s0, i, k)
        invariant pool.size == old(pool.size) - k
      {
        var f := TakeTop(i, pool, Returned);
        k := k + 1;
      }
    }

    lemma SameCount(i: nat)
      requires Valid() && i < |pools|
      ensures |S().pools[i]| == pools[i].size && S().caps[i] == pools[i].capacity
      ensures |S().pools| == |pools| == |S().caps|
    {
    }

    /** fiber_pool_allocate_batch, once the array is long enough. */
    method FillBatch(ghost i: nat, pool: Pool, parent: Pool, batchSize: nat, ghost k: nat)
      requires Valid() && 0 < i < |pools| && pools[i] == pool && pools[0] == parent && !locked
      requires pool.size + batchSize <= pool.capacity && k == Min(parent.size, batchSize)
      modifies this`place, this`next, this`locked, pool`size, pool.fibers, parent`size
      ensures Valid() && k <= |old(S()).pools[0]| && S() == Makes(Moves(old(S()), 0, i, k), i, batchSize - k) && !locked
    {
      hide Makes, Moves, Valid, S;
      Apart(0, i);
      var fromParent := if parent.size <= batchSize then parent.size else batchSize;
      assert fromParent == k;
      TransferLocked(0, parent, i, pool, fromParent);
      ghost var m := S();
      if batchSize - fromParent > 0 {
        AllocateMany(i, pool, batchSize - fromParent);
      } else {
        NoneMade(m, i);
      }
    }

    /** fiber_pool_allocate_batch. */
    method AllocateBatch(ghost i: nat, pool: Pool, parent: Pool, batchSize: nat)
      requires Valid() && 0 < i < |pools| && pools[i] == pool && pools[0] == parent && !locked
      modifies this, pool, pool.fibers, parent`size
      ensures Valid() && S() == FiberPool.AllocateBatch(old(S()), i, batchSize) && !locked
      ensures pool.fibers == old(pool.fibers) || fresh(pool.fibers)
    {
      hide Makes, Moves, Grow, Valid, S, FiberPool.AllocateBatch;
      ghost var s := S();
      Apart(0, i);
      IncreaseCapacity(i, pool, batchSize + pool.size);
      Apart(0, i);
      ghost var g, k := S(), Min(parent.size, batchSize);
      FillBatch(i, pool, parent, batchSize, k);
      AllocateBatchIs(s, i, batchSize, g, k, Moves(g, 0, i, k), S());
    }

    /** fiber_pool_free_batch, for the pool of a worker. */
    method FreeBatch(ghost i: nat, pool: Pool, parent: Pool, batchSize: nat)
      requires Valid() && 0 < i < |pools| && pools[i] == pool && pools[0] == parent && !locked && batchSize <= pool.size
      modifies this, pool`size, parent`size, parent.fibers
      ensures Valid() && |old(S()).pools[0]| <= old(S()).caps[0] && |old(S()).pools[i]| >= batchSize
      ensures S() == FiberPool.FreeBatch(old(S()), i, batchSize) && !locked
    {
      hide Leaves, Moves, Valid, S, FiberPool.FreeBatch;
      Apart(0, i);
      Room(0);
      SameCount(0);
      ghost var s := S();
      var toParent := if batchSize <= parent.capacity - parent.size then batchSize else parent.capacity - parent.size;
      TransferLocked(i, pool, 0, parent, toParent);
      ghost var m := S();
      if batchSize - toParent > 0 {
        FreeMany(i, pool, batchSize - toParent);
      } else {
        NoneLeft(m, i);
      }
      FreeBatchIs(s, i, batchSize, toParent, m, S());
    }

    lemma Room(i: nat)
      requires Valid() && i < |pools|
      ensures pools[i].size <= pools[i].capacity
    {
    }

    /** cilk_fiber_allocate_from_pool. */
    method AllocateFromPool(ghost i: nat, pool: Pool, parent: Pool) returns (f: nat)
      requires Valid() && 0 < i < |pools| && pools[i] == pool && pools[0] == parent && !locked
      requires pool.size > 0 || pool.capacity >= 2
      modifies this, pool, pool.fibers, parent`size
      ensures Valid() && |Stocked(old(S()), i).pools[i]| > 0
      ensures S() == Allocate(old(S()), i) && f == AllocatedFiber(old(S()), i) && !locked
    {
      hide FiberPool.AllocateBatch, Leave, Valid, S;
      SameCount(i);
      ghost var s0 := S();
      if pool.size == 0 {
        AllocateBatch(i, pool, parent, pool.capacity / BATCH_FRACTION);
      }
      SameCount(i);
      f := TakeTop(i, pool, InUse);
    }

    /** cilk_fiber_deallocate_to_pool; there may be no fiber to return, and then only room is made. */
    method DeallocateToPool(ghost i: nat, pool: Pool, parent: Pool, fiber: Option<nat>)
      requires Valid() && 0 < i < |pools| && pools[i] == pool && pools[0] == parent && !locked
      requires pool.size < pool.capacity || pool.capacity >= 2
      modifies this, pool`size, pool.fibers, parent`size, parent.fibers
      ensures Valid() && |old(S()).pools[0]| <= old(S()).caps[0] && !locked
      ensures S() == if fiber.Some? then Deallocate(old(S()), i, fiber.value) else Cleared(old(S()), i)
    {
      hide FiberPool.FreeBatch, Enter, Valid, S;
      SameCount(i);
      SameCount(0);
      Room(0);
      if pool.size == pool.capacity {
        FreeBatch(i, pool, parent, pool.capacity / BATCH_FRACTION);
      }
      SameCount(i);
      Room(i);
      match fiber
      case Some(f) => PutTop(i, pool, f);
      case None =>
    }

    /** cilk_fiber_pool_per_worker_destroy: bottom up, every fiber of the pool goes back to the system, and for worker 0
        those of the global pool do too. A destroyed pool counts as empty. */
    method DestroyWorker(ghost i: nat, pool: Pool, parent: Pool, isFirst: bool)
      requires Valid() && 0 < i < |pools| && pools[i] == pool && pools[0] == parent && !locked && isFirst == (i == 1)
      modifies this`place, this`locked, pool`size, parent`size
      ensures Valid() && S() == DestroyOne(old(S()), i) && !locked
    {
      hide Leaves, Valid, S, ReturnFirst, ReturnAll;
      SameCount(i);
      ghost var s := S();
      NoneReturned(s, i);
      var k := 0;
      while k < pool.size
        invariant 0 <= k <= pool.size == |s.pools[i]| && Valid() && S() == ReturnFirst(s, i, k) && !locked
      {
        SameCount(i);
        ReturnOneMore(k, pool, i, s);
        k := k + 1;
      }
      Empty(i, pool, s);
      if isFirst {
        Apart(0, i);
        Lock();
        FreeMany(0, parent, parent.size);
        Unlock();
      }
    }

    method ReturnOneMore(k: nat, pool: Pool, ghost i: nat, ghost s: State)
      requires Valid() && i < |pools| && pools[i] == pool && i < |s.pools| && k < |s.pools[i]| == pool.size
      requires S() == ReturnFirst(s, i, k)
      modifies this`place
      ensures Valid() && S() == ReturnFirst(s, i, k + 1)
    {
      var f := pool.fibers[k];
      place := place[f := Returned];
      ReturnStep(s, i, k, f, place);
    }

    method Empty(ghost i: nat, pool: Pool, ghost s: State)
      requires Valid() && i < |pools| && pools[i] == pool && i < |s.pools| && S() == ReturnFirst(s, i, |s.pools[i]|)
      modifies pool`size
      ensures Valid() && S() == ReturnAll(s, i)
    {
      hide S;
      ghost var s0 := S();
      pool.size := 0;
      forall k | 0 <= k < |pools|
        ensures pools[k].Contents() == (if k == i then [] else s0.pools[k]) && pools[k].capacity == s0.caps[k]
      {
      }
      assert S().pools == s0.pools[i := []];
      assert S().caps == s0.caps;
      assert s.pools[i][..|s.pools[i]|] == s.pools[i];
    }

    /** workers_deinit, as far as the fibers are concerned. */
    method DestroyAll()
      requires Valid() && |pools| > 1 && !locked
      modifies this`place, this`locked, pools
      ensures Valid() && S() == DestroyUpTo(old(S()), |pools| - 1)
    {
      hide DestroyOne, Valid, S;
      SameCount(0);
      ghost var s := S();
      var w := 0;
      while w < |pools| - 1
        invariant 0 <= w <= |pools| - 1 && Valid() && S() == DestroyUpTo(s, w) && !locked
      {
        DestroyWorker(w + 1, pools[w + 1], pools[0], w == 0);
        w := w + 1;
      }
    }
  }

  lemma AllocateBatchIs(s: State, i: nat, n: nat, g: State, k: nat, m: State, t: State)
    requires 0 < i < |s.pools| == |s.caps| && k == Min(|s.pools[0]|, n) && g == Grow(s, i, n + |s.pools[i]|)
    requires m == Moves(g, 0, i, k) && t == Makes(m, i, n - k)
    ensures t == FiberPool.AllocateBatch(s, i, n)
  {
    hide Makes, Moves, Grow;
  }

  lemma FreeBatchIs(s: State, i: nat, n: nat, k: nat, m: State, t: State)
    requires 0 < i < |s.pools| == |s.caps| && |s.pools[0]| <= s.caps[0] && n <= |s.pools[i]|
    requires k == Min(n, s.caps[0] - |s.pools[0]|) && m == Moves(s, i, 0, k) && t == Leaves(m, i, n - k)
    ensures t == FiberPool.FreeBatch(s, i, n)
  {
    hide Leaves, Moves;
  }

  /** The first k fibers of pool i, from the bottom, are returned. */
  ghost function ReturnFirst(s: State, i: nat, k: nat): State
    requires i < |s.pools| && k <= |s.pools[i]|
  {
    s.(place := s.place + map f | f in s.pools[i][..k] :: Returned)
  }

  lemma NoneReturned(s: State, i: nat)
    requires i < |s.pools|
    ensures ReturnFirst(s, i, 0) == s
  {
  }

  lemma ReturnStep(s: State, i: nat, k: nat, f: nat, place: map<nat, Place>)
    requires i < |s.pools| && k < |s.pools[i]| && f == s.pools[i][k]
    requires place == ReturnFirst(s, i, k).place[f := Returned]
    ensures place == ReturnFirst(s, i, k + 1).place
  {
    assert s.pools[i][..k + 1] == s.pools[i][..k] + [f];
  }

  lemma NoneYet(s: State, i: nat, j: nat)
    requires i < |s.pools| && j < |s.pools| && i != j
    ensures Moves(s, i, j, 0) == s
  {
  }

  lemma NoneMade(s: State, i: nat)
    requires i < |s.pools|
    ensures Makes(s, i, 0) == s
  {
  }

  lemma NoneLeft(s: State, i: nat)
    requires i < |s.pools|
    ensures Leaves(s, i, 0) == s
  {
  }

  lemma MakeIsEnter(s: State, i: nat)
    requires i < |s.pools|
    ensures Make(s, i) == Enter(s, i, s.next).(next := s.next + 1)
  {
  }

  lemma MoveIs(s: State, i: nat, j: nat)
    requires i < |s.pools| && j < |s.pools| && i != j && |s.pools[i]| > 0
    ensures Move(s, i, j) == Enter(Leave(s, i, InUse), j, Top(s.pools[i]))
  {
  }
}
