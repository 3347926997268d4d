/** Where the allocator's blocks come from: what is reused before anything new is carved, and when the lock is
    needed. */
module BlockReuse {

  import opened InternalMalloc
  import Sections = MallocSections

  // ---------------------------------------------------------------------------------------------
  // Chunks
  // ---------------------------------------------------------------------------------------------

  /** The pool is as it was: nothing has been carved. */
  predicate SamePool(s: State, t: State) {
    t.chunk == s.chunk && t.begin == s.begin && t.end == s.end
  }

  /** As long as there is room in the chunk the next block lies right behind the last one; only when fewer bytes are
      left is there a new chunk, and then the block is its first. */
  lemma CarveGoesOn(s: State, size: nat, t: State)
    requires 0 < |s.used| == |s.mallocs| && t == Carve(s, size)
    ensures s.begin + size <= s.end ==>
              && t.live == s.live[Carved(s.chunk, s.begin, size) := size]
              && t.chunk == s.chunk && t.begin == s.begin + size && t.end == s.end
    ensures s.begin + size > s.end ==>
              && t.live == s.live[Carved(s.chunk + 1, 0, size) := size]
              && t.chunk == s.chunk + 1 && t.begin == size && t.end == CHUNK
  {
  }

  /** A block of the global list is reused before anything is carved, the last one that came first. */
  lemma GlobalListFirst(s: State, b: nat, t: State)
    requires Has(s, 0, b) && t == GlobalAlloc(s, b)
    ensures var l := s.lists[Slot(0, b)];
            if l != [] then
              SamePool(s, t) && GlobalBlock(s, b) == l[0] && t.lists[Slot(0, b)] == l[1..]
            else t.lists == s.lists && t == Carve(s, BucketSize(b))
    ensures t.systems == s.systems
  {
  }

  /** The first block of a chunk, and those that follow it. */
  predicate FillsChunks(s: State, t: State, size: nat, q: nat, m: nat) {
    t.chunk == s.chunk + q + 1 && t.begin == m * size && t.end == CHUNK
  }

  lemma NoRefill(s: State, d: nat, b: nat)
    requires Has(s, 0, b) && Has(s, d, b)
    ensures Refill(s, d, b, 0) == s
  {
  }

  lemma RefillNext(s: State, d: nat, b: nat, n: nat)
    requires Has(s, 0, b) && Has(s, d, b) && n > 0
    ensures Refill(s, d, b, n) == RefillOne(Refill(s, d, b, n - 1), d, b)
  {
    hide RefillOne;
  }

  lemma RefillOneReuses(s: State, d: nat, b: nat)
    requires Has(s, 0, b) && Has(s, d, b) && d > 0 && s.lists[Slot(0, b)] != []
    ensures var t := RefillOne(s, d, b);
            SamePool(s, t) && t.systems == s.systems && t.lists[Slot(0, b)] == s.lists[Slot(0, b)][1..]
  {
    hide Carve, BucketSize;
  }

  /** Whatever is taken by a batch first comes from the global list, without anything being carved. */
  lemma {:induction false} RefillReuses(s: State, d: nat, b: nat, n: nat)
    requires Has(s, 0, b) && Has(s, d, b) && d > 0 && n <= |s.lists[Slot(0, b)]|
    ensures var t := Refill(s, d, b, n);
            SamePool(s, t) && t.systems == s.systems && t.lists[Slot(0, b)] == s.lists[Slot(0, b)][n..]
    decreases n
  {
    hide RefillOne, Refill;
    if n == 0 {
      assert Refill(s, d, b, 0) == s by { NoRefill(s, d, b); }
    } else {
      RefillReuses(s, d, b, n - 1);
      RefillNext(s, d, b, n);
      RefillOneReuses(Refill(s, d, b, n - 1), d, b);
    }
  }

  /** Blocks of one size are carved one after the other, and as many of them come out of a chunk of 32 KB as fit: with
      the global list empty and no room left, n blocks take the chunks that q whole ones and m more blocks need. */
  lemma {:induction false} ChunksAreFilled(s: State, d: nat, b: nat, n: nat, q: nat, m: nat)
    requires Has(s, 0, b) && Has(s, d, b) && d > 0 && s.lists[Slot(0, b)] == [] && s.begin + BucketSize(b) > s.end
    requires 0 < m <= CHUNK / BucketSize(b) && n == q * (CHUNK / BucketSize(b)) + m
    ensures var t := Refill(s, d, b, n); FillsChunks(s, t, BucketSize(b), q, m) && t.lists[Slot(0, b)] == []
    decreases n
  {
    hide Refill, RefillOne;
    var size, per := BucketSize(b), CHUNK / BucketSize(b);
    assert per * size == CHUNK;
    hide BucketSize;
    RefillNext(s, d, b, n);
    RefillOneCarves(Refill(s, d, b, n - 1), d, b);
    if m > 1 {
      ChunksAreFilled(s, d, b, n - 1, q, m - 1);
      OneMoreFits(size, per, m);
    } else if q > 0 {
      OneChunkLess(per, n, q);
      ChunksAreFilled(s, d, b, n - 1, q - 1, per);
    } else {
      NoRefill(s, d, b);
    }
  }

  lemma OneChunkLess(per: nat, n: nat, q: nat)
    requires q > 0 && n == q * per + 1
    ensures n - 1 == (q - 1) * per + per
  {
  }

  lemma OneMoreFits(size: nat, per: nat, m: nat)
    requires 1 < m <= per && per * size == CHUNK
    ensures (m - 1) * size + size == m * size <= CHUNK
  {
    assert m * size <= per * size;
  }

  lemma RefillOneCarves(s: State, d: nat, b: nat)
    requires Has(s, 0, b) && Has(s, d, b) && d > 0
    ensures var t, size := RefillOne(s, d, b), BucketSize(b);
            s.lists[Slot(0, b)] == [] ==>
            && t.lists[Slot(0, b)] == [] && t.end == (if s.begin + size <= s.end then s.end else CHUNK)
            && t.chunk == (if s.begin + size <= s.end then s.chunk else s.chunk + 1)
            && t.begin == if s.begin + size <= s.end then s.begin + size else size
  {
    hide BucketSize;
  }

  // ---------------------------------------------------------------------------------------------
  // A worker's own lists
  // ---------------------------------------------------------------------------------------------

  /** Every bucket holds blocks twice as large as the one before, and a full list 8 or 16 KB of them. */
  lemma BucketsDouble(b: nat)
    requires b < NUM_BUCKETS
    ensures BucketSize(0) == 32 && (b > 0 ==> BucketSize(b) == 2 * BucketSize(b - 1))
    ensures Capacity(b) * BucketSize(b) == if b < 3 then 0x2000 else 0x4000
  {
  }

  /** Nothing but the list of bucket b of descriptor d has changed: no lock is needed. */
  ghost predicate Local(s: State, t: State, d: nat, b: nat) {
    && SamePool(s, t) && t.systems == s.systems && |t.used| == |s.used| && |t.mallocs| == |s.mallocs|
    && Has(s, d, b) && Has(t, d, b)
    && (forall x | x in s.lists && x in s.count && x != Slot(d, b) :: Same(s, t, x))
  }

  /** A malloc that finds its list empty leaves half a list, less the block it returns. */
  lemma HalfAListIsLeft(s: State, d: nat, size: int)
    requires Serves(s, d, size) && size < SIZE_THRESH && s.lists[Slot(d, BucketOf(size))] == []
    ensures var b, t := BucketOf(size), Malloc(s, d, size);
            Has(t, d, b) && 2 * (|t.lists[Slot(d, b)]| + 1) == Capacity(b)
  {
    hide Refill, Capacity;
  }

  /** A malloc that finds a block takes the first of its own list and touches nothing else. */
  lemma MallocIsLocal(s: State, d: nat, size: int)
    requires Serves(s, d, size) && size < SIZE_THRESH && s.lists[Slot(d, BucketOf(size))] != []
    ensures var b, t := BucketOf(size), Malloc(s, d, size);
            && Local(s, t, d, b) && Serves(t, d, size)
            && MallocBlock(s, d, size) == s.lists[Slot(d, b)][0] && t.lists[Slot(d, b)] == s.lists[Slot(d, b)][1..]
  {
    hide Refill, Capacity, BucketSize;
  }

  /** Malloc n times with the same size. */
  function Mallocs(s: State, d: nat, size: int, n: nat): (t: State)
    requires Serves(s, d, size) && size < SIZE_THRESH && n <= |s.lists[Slot(d, BucketOf(size))]|
    decreases n
  {
    if n == 0 then s else
      MallocIsLocal(s, d, size);
      Mallocs(Malloc(s, d, size), d, size, n - 1)
  }

  lemma LocalTwice(s: State, t: State, u: State, d: nat, b: nat)
    requires Local(s, t, d, b) && Local(t, u, d, b)
    ensures Local(s, u, d, b)
  {
    forall x | x in s.lists && x in s.count && x != Slot(d, b) ensures Same(s, u, x) {
      assert Same(s, t, x) && Same(t, u, x);
    }
  }

  lemma LocalNothing(s: State, d: nat, b: nat)
    requires Has(s, d, b)
    ensures Local(s, s, d, b)
  {
  }

  lemma {:induction false} MallocsAreLocal(s: State, d: nat, size: int, n: nat)
    requires Serves(s, d, size) && size < SIZE_THRESH && n <= |s.lists[Slot(d, BucketOf(size))]|
    ensures var b, t := BucketOf(size), Mallocs(s, d, size, n);
            Local(s, t, d, b) && t.lists[Slot(d, b)] == s.lists[Slot(d, b)][n..]
    decreases n
  {
    hide Local, Malloc;
    var b := BucketOf(size);
    if n == 0 {
      LocalNothing(s, d, b);
    } else {
      MallocIsLocal(s, d, size);
      MallocsAreLocal(Malloc(s, d, size), d, size, n - 1);
      LocalTwice(s, Malloc(s, d, size), Mallocs(s, d, size, n), d, b);
    }
  }

  /** After a malloc that has had to go for a batch, half the capacity of the list of mallocs, less one, do without the
      lock: they touch neither the pool nor any other list. */
  lemma TheNextMallocsAreLocal(s: State, d: nat, size: int, n: nat)
    requires Serves(s, d, size) && size < SIZE_THRESH && s.lists[Slot(d, BucketOf(size))] == []
    requires 2 * (n + 1) <= Capacity(BucketOf(size))
    ensures Serves(Malloc(s, d, size), d, size) && n <= |Malloc(s, d, size).lists[Slot(d, BucketOf(size))]|
    ensures Local(Malloc(s, d, size), Mallocs(Malloc(s, d, size), d, size, n), d, BucketOf(size))
  {
    hide Local, Refill, Mallocs, Capacity;
    HalfAListIsLeft(s, d, size);
    StillServes(s, d, size);
    MallocsAreLocal(Malloc(s, d, size), d, size, n);
  }

  lemma StillServes(s: State, d: nat, size: int)
    requires Serves(s, d, size) && size < SIZE_THRESH
    ensures Serves(Malloc(s, d, size), d, size)
  {
    hide Refill, BucketSize, Capacity;
    RefillServes(s, d, BucketOf(size), Batch(BucketOf(size)));
  }

  lemma {:induction false} RefillServes(s: State, d: nat, b: nat, n: nat)
    requires Has(s, 0, b) && Has(s, d, b) && d > 0
    ensures var t := Refill(s, d, b, n); |t.used| == |s.used| && |t.mallocs| == |s.mallocs|
    decreases n
  {
    hide Refill, RefillOne;
    if n == 0 {
      NoRefill(s, d, b);
    } else {
      RefillServes(s, d, b, n - 1);
      RefillNext(s, d, b, n);
      RefillOneServes(Refill(s, d, b, n - 1), d, b);
    }
  }

  lemma RefillOneServes(s: State, d: nat, b: nat)
    requires Has(s, 0, b) && Has(s, d, b) && d > 0
    ensures |RefillOne(s, d, b).used| == |s.used| && |RefillOne(s, d, b).mallocs| == |s.mallocs|
  {
    hide BucketSize;
  }

  /** A free that finds its list full leaves room for half a list, less the block it adds. */
  lemma HalfAListHasRoom(s: State, d: nat, p: Block, size: int)
    requires Serves(s, d, size) && CanFree(s, d, size) && size <= 1024 && s.count[Slot(d, BucketOf(size))] == 0
    ensures var b, t := BucketOf(size), Free(s, d, p, size);
            Has(t, d, b) && 2 * (t.count[Slot(d, b)] + 1) == Capacity(b)
  {
    hide GiveBack, Capacity;
  }

  /** A free that finds room puts the block in front of its own list and touches nothing else. */
  lemma FreeIsLocal(s: State, d: nat, p: Block, size: int)
    requires Serves(s, d, size) && CanFree(s, d, size) && size <= SIZE_THRESH
    requires s.count[Slot(d, BucketOf(size))] > 0
    ensures var b, t := BucketOf(size), Free(s, d, p, size);
            && Local(s, t, d, b) && Serves(t, d, size)
            && t.lists[Slot(d, b)] == [p] + s.lists[Slot(d, b)] && t.count[Slot(d, b)] == s.count[Slot(d, b)] - 1
  {
    hide GiveBack, Capacity, BucketSize;
  }

  /** Blocks of one bucket are freed one after the other. */
  function Frees(s: State, d: nat, ps: seq<Block>, size: int): State
    requires Serves(s, d, size) && size <= SIZE_THRESH && |ps| <= s.count[Slot(d, BucketOf(size))]
    decreases |ps|
  {
    if ps == [] then s else
      FreeIsLocal(s, d, ps[0], size);
      Frees(Free(s, d, ps[0], size), d, ps[1..], size)
  }

  lemma {:induction false} FreesAreLocal(s: State, d: nat, ps: seq<Block>, size: int)
    requires Serves(s, d, size) && size <= SIZE_THRESH && |ps| <= s.count[Slot(d, BucketOf(size))]
    ensures Local(s, Frees(s, d, ps, size), d, BucketOf(size))
    decreases |ps|
  {
    hide Local, Free;
    var b := BucketOf(size);
    if ps == [] {
      LocalNothing(s, d, b);
    } else {
      FreeIsLocal(s, d, ps[0], size);
      FreesAreLocal(Free(s, d, ps[0], size), d, ps[1..], size);
      LocalTwice(s, Free(s, d, ps[0], size), Frees(s, d, ps, size), d, b);
    }
  }

  /** After a free that has had to give a batch back, half the capacity of the list of frees, less one, do without the
      lock. */
  lemma TheNextFreesAreLocal(s: State, d: nat, p: Block, size: int, ps: seq<Block>)
    requires Serves(s, d, size) && CanFree(s, d, size) && size <= 1024 && s.count[Slot(d, BucketOf(size))] == 0
    requires 2 * (|ps| + 1) <= Capacity(BucketOf(size))
    ensures Serves(Free(s, d, p, size), d, size) && |ps| <= Free(s, d, p, size).count[Slot(d, BucketOf(size))]
    ensures Local(Free(s, d, p, size), Frees(Free(s, d, p, size), d, ps, size), d, BucketOf(size))
  {
    hide Local, GiveBack, Frees, Capacity;
    HalfAListHasRoom(s, d, p, size);
    ServesAfterFree(s, d, p, size);
    FreesAreLocal(Free(s, d, p, size), d, ps, size);
  }

  lemma ServesAfterFree(s: State, d: nat, p: Block, size: int)
    requires Serves(s, d, size) && CanFree(s, d, size) && size <= SIZE_THRESH
    ensures Serves(Free(s, d, p, size), d, size)
  {
    hide GiveBack, BucketSize, Capacity;
    if s.count[Slot(d, BucketOf(size))] <= 0 {
      GiveBackServes(s, d, BucketOf(size), Batch(BucketOf(size)));
    }
  }

  lemma {:induction false} GiveBackServes(s: State, d: nat, b: nat, n: nat)
    requires Has(s, 0, b) && Has(s, d, b) && d > 0 && b < 6 && |s.lists[Slot(d, b)]| >= n
    ensures var t := GiveBack(s, d, b, n); |t.used| == |s.used| && |t.mallocs| == |s.mallocs|
    decreases n
  {
    hide ReturnOne;
    if n > 0 {
      GiveBackServes(s, d, b, n - 1);
      ReturnOneServes(GiveBack(s, d, b, n - 1), d, b);
    }
  }

  lemma ReturnOneServes(s: State, d: nat, b: nat)
    requires Has(s, 0, b) && Has(s, d, b) && d > 0 && b < 6 && |s.lists[Slot(d, b)]| > 0
    ensures |ReturnOne(s, d, b).used| == |s.used| && |ReturnOne(s, d, b).mallocs| == |s.mallocs|
  {
    hide BucketSize;
  }

  /** Last in, first out: the next malloc of the bucket returns the block that was freed last. */
  lemma LastFreedComesFirst(s: State, d: nat, p: Block, size: int, next: int)
    requires Serves(s, d, size) && CanFree(s, d, size) && size <= SIZE_THRESH
    requires next < SIZE_THRESH && BucketOf(next) == BucketOf(size)
    ensures Serves(Free(s, d, p, size), d, next) && MallocBlock(Free(s, d, p, size), d, next) == p
  {
    hide GiveBack, Capacity, BucketSize;
    ServesAfterFree(s, d, p, size);
  }

  // ---------------------------------------------------------------------------------------------
  // Calls and their critical sections
  // ---------------------------------------------------------------------------------------------

  /** With nobody in between, the sections of a malloc do what the whole call does. */
  lemma SectionsMalloc(s: State, w: nat, size: int)
    requires Sections.Ready(s, w, Sections.Mallocs(size))
    ensures var pc := Sections.Mallocs(size); var t := Sections.HeapAfter(s, w, pc);
            if Sections.Ends(s, w, pc) then t == Malloc(s, w + 1, size) else
              Sections.Ready(t, w, pc) && Sections.Ends(t, w, pc)
              && Sections.HeapAfter(t, w, pc) == Malloc(s, w + 1, size)
  {
    hide Refill, BucketSize, Capacity;
    if size < SIZE_THRESH {
      RefillServes(s, w + 1, BucketOf(size), Batch(BucketOf(size)));
    }
  }

  /** So do those of a free, unless it is one of those that never end. */
  lemma SectionsFree(s: State, w: nat, p: Block, size: int)
    requires Sections.Ready(s, w, Sections.Frees(p, size)) && CanFree(s, w + 1, size)
    requires size <= SIZE_THRESH ==> s.count[Slot(w + 1, BucketOf(size))] >= 0
    ensures var pc := Sections.Frees(p, size); var t := Sections.HeapAfter(s, w, pc);
            if Sections.Ends(s, w, pc) then t == Free(s, w + 1, p, size) else
              Sections.Ready(t, w, pc) && Sections.Ends(t, w, pc)
              && Sections.HeapAfter(t, w, pc) == Free(s, w + 1, p, size)
  {
    hide GiveBack, BucketSize, Capacity;
    if size <= 1024 && s.count[Slot(w + 1, BucketOf(size))] <= 0 {
      GiveBackServes(s, w + 1, BucketOf(size), Batch(BucketOf(size)));
    }
  }
}
