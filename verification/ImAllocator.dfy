/** The allocator's calls, with the lock that guards the global lists and the recursion between a call and the batches
    it starts. */
module ImAllocator {

  import opened InternalMalloc

  // ---------------------------------------------------------------------------------------------
  // A call counts first and moves blocks afterwards; the counting does not meet the batches
  // ---------------------------------------------------------------------------------------------

  /** A descriptor counts x bytes and m blocks. */
  function Count(s: State, d: nat, x: int, m: int): State
    requires d < |s.used| == |s.mallocs|
  {
    s.(used := s.used[d := s.used[d] + x], mallocs := s.mallocs[d := s.mallocs[d] + m])
  }

  lemma PutCounted(s: State, e: nat, b: nat, p: Block, size: int, d: nat, x: int, m: int)
    requires Has(s, e, b) && d < |s.used|
    ensures Has(Count(s, d, x, m), e, b)
    ensures Put(Count(s, d, x, m), e, b, p, size) == Count(Put(s, e, b, p, size), d, x, m)
  {
  }

  lemma TakeCounted(s: State, e: nat, b: nat, size: int, d: nat, x: int, m: int)
    requires Has(s, e, b) && d < |s.used| && |s.lists[Slot(e, b)]| > 0
    ensures Has(Count(s, d, x, m), e, b) && Take(Count(s, d, x, m), e, b, size) == Count(Take(s, e, b, size), d, x, m)
  {
  }

  lemma ExtendCounted(s: State, size: nat, d: nat, x: int, m: int)
    requires d < |s.used| == |s.mallocs|
    ensures Extend(Count(s, d, x, m), size) == Count(Extend(s, size), d, x, m)
  {
  }

  lemma CutOffCounted(s: State, size: nat, d: nat, x: int, m: int)
    requires d < |s.used| == |s.mallocs|
    ensures CutOff(Count(s, d, x, m), size) == Count(CutOff(s, size), d, x, m)
  {
  }

  lemma CarveCounted(s: State, size: nat, d: nat, x: int, m: int)
    requires d < |s.used| == |s.mallocs|
    ensures Carve(Count(s, d, x, m), size) == Count(Carve(s, size), d, x, m)
  {
    hide CutOff, Extend, Count;
    ExtendCounted(s, size, d, x, m);
    SameLengths(s, size, d, x, m);
    CutOffCounted(Extend(s, size), size, d, x, m);
  }

  lemma SameLengths(s: State, size: nat, d: nat, x: int, m: int)
    requires d < |s.used| == |s.mallocs|
    ensures |Extend(s, size).used| == |s.used| && |Extend(s, size).mallocs| == |s.mallocs|
    ensures |Count(s, d, x, m).used| == |s.used| && |Count(s, d, x, m).mallocs| == |s.mallocs|
  {
  }

  lemma RefillOneCounted(s: State, d: nat, b: nat, x: int, m: int)
    requires Has(s, 0, b) && Has(s, d, b)
    ensures Has(Count(s, d, x, m), 0, b) && Has(Count(s, d, x, m), d, b)
    ensures RefillOne(Count(s, d, x, m), d, b) == Count(RefillOne(s, d, b), d, x, m)
  {
    if |s.lists[Slot(0, b)]| > 0 {
      TakeCounted(s, 0, b, BucketSize(b), d, x, m);
    } else {
      CarveCounted(s, BucketSize(b), d, x, m);
    }
    PutCounted(GlobalAlloc(s, b), d, b, GlobalBlock(s, b), BucketSize(b), d, x, m);
    hide Take, Carve, Put;
  }

  lemma {:induction false} RefillCounted(s: State, d: nat, b: nat, n: nat, x: int, m: int)
    requires Has(s, 0, b) && Has(s, d, b)
    ensures Has(Count(s, d, x, m), 0, b) && Has(Count(s, d, x, m), d, b)
    ensures Refill(Count(s, d, x, m), d, b, n) == Count(Refill(s, d, b, n), d, x, m)
    decreases n
  {
    hide RefillOne;
    if n > 0 {
      RefillCounted(s, d, b, n - 1, x, m);
      RefillOneCounted(Refill(s, d, b, n - 1), d, b, x, m);
    }
  }

  lemma ReturnOneCounted(s: State, d: nat, b: nat, x: int, m: int)
    requires Has(s, 0, b) && Has(s, d, b) && b < 6 && |s.lists[Slot(d, b)]| > 0
    ensures Has(Count(s, d, x, m), 0, b) && Has(Count(s, d, x, m), d, b)
    ensures ReturnOne(Count(s, d, x, m), d, b) == Count(ReturnOne(s, d, b), d, x, m)
  {
    TakeCounted(s, d, b, BucketSize(b), d, x, m);
    PutCounted(Take(s, d, b, BucketSize(b)), 0, b, ReturnBlock(s, d, b), BucketSize(b), d, x, m);
    hide Take, Put;
  }

  lemma {:induction false} GiveBackCounted(s: State, d: nat, b: nat, n: nat, x: int, m: int)
    requires Has(s, 0, b) && Has(s, d, b) && d > 0 && b < 6 && |s.lists[Slot(d, b)]| >= n
    ensures Has(Count(s, d, x, m), 0, b) && Has(Count(s, d, x, m), d, b)
    ensures GiveBack(Count(s, d, x, m), d, b, n) == Count(GiveBack(s, d, b, n), d, x, m)
    decreases n
  {
    hide ReturnOne;
    if n > 0 {
      GiveBackCounted(s, d, b, n - 1, x, m);
      ReturnOneCounted(GiveBack(s, d, b, n - 1), d, b, x, m);
    }
  }

  // ---------------------------------------------------------------------------------------------
  // The calls
  // ---------------------------------------------------------------------------------------------

  /** A malloc that does not find its list empty starts no batch. */
  predicate QuietMalloc(s: State, d: nat, size: int)
    requires Serves(s, d, size)
  {
    size >= SIZE_THRESH || |s.lists[Slot(d, BucketOf(size))]| > 0
  }

  /** A free that does not find its list full starts no batch. */
  predicate QuietFree(s: State, d: nat, size: int)
    requires Serves(s, d, size)
  {
    size > SIZE_THRESH || s.count[Slot(d, BucketOf(size))] > 0
  }

  /** Inside a batch a free is quiet, and moves the block to the list. */
  lemma FreeInBatch(s0: State, d: nat, b: nat, i: nat, s: State, t: State, p: Block, size: nat)
    requires Has(s0, 0, b) && Has(s0, d, b) && d > 0 && b < NUM_BUCKETS && size == BucketSize(b)
    requires s == Refill(s0, d, b, i) && s0.count[Slot(d, b)] > i
    requires t == GlobalAlloc(s, b) && p == GlobalBlock(s, b)
    ensures Serves(t, d, size) && QuietFree(t, d, size) && CanFree(t, d, size)
    ensures Free(t, d, p, size) == Refill(s0, d, b, i + 1)
  {
    assert BucketOf(size) == b;
    hide GlobalAlloc, GlobalBlock, BucketSize;
  }

  /** A block at the front of a list. */
  function Push(s: State, d: nat, b: nat, p: Block): State
    requires Has(s, d, b)
  {
    var x := Slot(d, b);
    s.(lists := s.lists[x := [p] + s.lists[x]], count := s.count[x := s.count[x] - 1],
       place := s.place[p := Listed(x)], live := s.live - {p})
  }

  /** The first block of a list handed out, without counting it. */
  function Pop(s: State, d: nat, b: nat, size: int): State
    requires Has(s, d, b) && |s.lists[Slot(d, b)]| > 0
  {
    var x := Slot(d, b);
    s.(lists := s.lists[x := s.lists[x][1..]], count := s.count[x := s.count[x] + 1],
       place := s.place[s.lists[x][0] := Live], live := s.live[s.lists[x][0] := size])
  }

  lemma PushCounted(v: State, d: nat, b: nat, p: Block, size: int)
    requires Has(v, d, b)
    ensures Has(Count(v, d, -size, -1), d, b) && Put(v, d, b, p, size) == Push(Count(v, d, -size, -1), d, b, p)
  {
  }

  lemma FreeIsPut(s: State, d: nat, b: nat, p: Block, size: int, v: State)
    requires size <= SIZE_THRESH && b == BucketOf(size) && Serves(s, d, size) && CanFree(s, d, size) && Has(v, d, b)
    requires v == Drained(s, d, b)
    ensures Free(s, d, p, size) == Put(v, d, b, p, size)
  {
    hide Drained, Put, BucketOf, Capacity, BucketSize, Batch;
  }

  lemma FreeIsPush(s: State, d: nat, b: nat, p: Block, size: int, v: State, u: State)
    requires size <= SIZE_THRESH && b == BucketOf(size) && Serves(s, d, size) && CanFree(s, d, size) && Has(v, d, b)
    requires v == Drained(s, d, b) && u == Count(v, d, -size, -1)
    ensures Has(u, d, b) && Free(s, d, p, size) == Push(u, d, b, p)
  {
    hide *;
    FreeIsPut(s, d, b, p, size, v);
    PushCounted(v, d, b, p, size);
  }

  lemma PopCounted(v: State, d: nat, b: nat, size: int)
    requires Has(v, d, b) && |v.lists[Slot(d, b)]| > 0
    ensures Count(v, d, size, 1).lists == v.lists && Has(Count(v, d, size, 1), d, b)
    ensures Take(v, d, b, size) == Pop(Count(v, d, size, 1), d, b, size)
  {
  }

  /** The front of the chunk handed out, without counting it. */
  function Cut(s: State, size: nat): State {
    s.(begin := s.begin + size, place := s.place[Carved(s.chunk, s.begin, size) := Live],
       live := s.live[Carved(s.chunk, s.begin, size) := size])
  }

  lemma CutIs(s: State, size: nat)
    requires 0 < |s.used| == |s.mallocs|
    ensures CutOff(s, size) == Cut(Count(s, 0, size, 1), size)
  {
  }

  lemma CutCounted(s: State, size: nat)
    requires 0 < |s.used| == |s.mallocs|
    ensures Carve(s, size) == Cut(Extend(Count(s, 0, size, 1), size), size)
  {
    hide CutOff, Extend, Count, Cut;
    ExtendCounted(s, size, 0, size, 1);
    SameLengths(s, size, 0, size, 1);
    CutIs(Extend(s, size), size);
  }

  lemma MallocIsTake(s: State, d: nat, b: nat, size: int, v: State)
    requires size < SIZE_THRESH && b == BucketOf(size) && Serves(s, d, size) && Has(v, d, b)
    requires |v.lists[Slot(d, b)]| > 0
    requires v == Filled(s, d, b)
    ensures Malloc(s, d, size) == Take(v, d, b, size) && MallocBlock(s, d, size) == v.lists[Slot(d, b)][0]
  {
    hide Filled, Take, BucketOf, Capacity, BucketSize, Batch;
  }

  lemma MallocIsPop(s: State, d: nat, b: nat, size: int, v: State, u: State)
    requires size < SIZE_THRESH && b == BucketOf(size) && Serves(s, d, size) && Has(v, d, b)
    requires |v.lists[Slot(d, b)]| > 0
    requires v == Filled(s, d, b) && u == Count(v, d, size, 1)
    ensures Has(u, d, b) && |u.lists[Slot(d, b)]| > 0
    ensures Malloc(s, d, size) == Pop(u, d, b, size) && MallocBlock(s, d, size) == u.lists[Slot(d, b)][0]
  {
    hide *;
    MallocIsTake(s, d, b, size, v);
    PopCounted(v, d, b, size);
  }

  lemma FreeOfTheSystem(s: State, d: nat, p: Block, size: int)
    requires size > SIZE_THRESH && Serves(s, d, size)
    ensures CanFree(s, d, size) && Free(s, d, p, size) == ToSystem(s, d, p, size)
  {
  }

  lemma MallocFromTheSystem(s: State, d: nat, size: int)
    requires size >= SIZE_THRESH && Serves(s, d, size)
    ensures Malloc(s, d, size) == FromSystem(s, d, size) && MallocBlock(s, d, size) == System(s.systems, size)
  {
  }

  lemma CountKeeps(s: State, d: nat, x: int, m: int)
    requires d < |s.used| == |s.mallocs|
    ensures Count(s, d, x, m).lists == s.lists && Count(s, d, x, m).count == s.count
  {
  }

  /** One round of the loop in free makes room, and then the loop ends. */
  lemma DrainRound(s: State, d: nat, b: nat, size: int, t: State)
    requires Has(s, 0, b) && Has(s, d, b) && d > 0 && b < 6
    requires s.count[Slot(d, b)] == 0 && |s.lists[Slot(d, b)]| >= Batch(b) && t == Count(s, d, -size, -1)
    ensures Has(t, 0, b) && Has(t, d, b) && |t.lists[Slot(d, b)]| >= Batch(b)
    ensures GiveBack(t, d, b, Batch(b)) == Count(Drained(s, d, b), d, -size, -1)
    ensures GiveBack(t, d, b, Batch(b)).count[Slot(d, b)] > 0
  {
    hide GiveBack, Drained, Capacity, BucketSize, Count, Batch;
    CountKeeps(s, d, -size, -1);
    GiveBackCounted(s, d, b, Batch(b), -size, -1);
    DrainedIs(s, d, b);
  }

  lemma ListOrRoom(s: State, d: nat, size: int)
    requires size <= SIZE_THRESH && Serves(s, d, size) && CanFree(s, d, size)
    ensures s.count[Slot(d, BucketOf(size))] <= 0 ==>
      BucketOf(size) < 6 && |s.lists[Slot(d, BucketOf(size))]| >= Batch(BucketOf(size))
  {
    hide Batch;
  }

  lemma DrainedIs(s: State, d: nat, b: nat)
    requires Has(s, 0, b) && Has(s, d, b) && d > 0
    requires s.count[Slot(d, b)] <= 0 ==> b < 6 && |s.lists[Slot(d, b)]| >= Batch(b)
    ensures Drained(s, d, b) == (if s.count[Slot(d, b)] <= 0 then GiveBack(s, d, b, Batch(b)) else s)
  {
    hide GiveBack, Batch;
  }

  lemma FilledIs(s: State, d: nat, b: nat)
    requires Has(s, 0, b) && Has(s, d, b) && d > 0
    ensures Filled(s, d, b) == (if |s.lists[Slot(d, b)]| == 0 then Refill(s, d, b, Batch(b)) else s)
  {
    hide Refill, Batch;
  }

  lemma NoneMoved(s: State, d: nat, b: nat)
    requires Has(s, 0, b) && Has(s, d, b)
    ensures Refill(s, d, b, 0) == s && (d > 0 ==> GiveBack(s, d, b, 0) == s)
  {
  }

  /** Inside a batch a malloc is quiet, and takes the first block of the list. */
  lemma MallocInBatch(s0: State, d: nat, b: nat, i: nat, s: State, size: nat)
    requires Has(s0, 0, b) && Has(s0, d, b) && d > 0 && b < 6 && size == BucketSize(b)
    requires |s0.lists[Slot(d, b)]| > i && s == GiveBack(s0, d, b, i)
    ensures Serves(s, d, size) && QuietMalloc(s, d, size)
    ensures Has(Malloc(s, d, size), 0, b)
    ensures Put(Malloc(s, d, size), 0, b, MallocBlock(s, d, size), size) == GiveBack(s0, d, b, i + 1)
  {
    assert BucketOf(size) == b;
    hide Put, Take, BucketSize, Capacity;
  }

  function NoBlocks(n: nat): map<Slot, seq<Block>> {
    map d: nat, b: nat | d < n && b < NUM_BUCKETS :: Slot(d, b) := []
  }

  function FullCounts(n: nat): map<Slot, int> {
    map d: nat, b: nat | d < n && b < NUM_BUCKETS :: Slot(d, b) := Capacity(b)
  }

  lemma NothingYet(n: nat, s: State)
    requires n > 0 && s.lists == NoBlocks(n) && s.count == FullCounts(n)
    requires s.used == seq(n, i => 0) && s.mallocs == seq(n, i => 0) && s.begin == s.end == 0
    requires s.place == map[] && s.live == map[]
    ensures Inv(s) && (forall x | x in s.lists :: s.lists[x] == [])
  {
    hide Capacity, Sum;
    Zeros(s.used);
    Zeros(s.mallocs);
  }

  lemma {:induction false} Zeros(l: seq<int>)
    requires forall i | 0 <= i < |l| :: l[i] == 0
    ensures Sum(l) == 0
  {
    if l != [] {
      Zeros(l[1..]);
    }
  }

  class Allocator {
    var lists: map<Slot, seq<Block>>
    var count: map<Slot, int>
    var used: seq<int>
    var mallocs: seq<int>
    var chunk: int
    var memBegin: nat
    var memEnd: nat
    var systems: nat
    var locked: bool
    ghost var place: map<Block, Place>
    ghost var live: map<Block, int>

    ghost function S(): State
      reads `lists, `count, `used, `mallocs, `chunk, `memBegin, `memEnd, `systems, `place, `live
    {
      State(lists, count, used, mallocs, chunk, memBegin, memEnd, systems, place, live)
    }

    /** Every list is empty and has room for a full one; nothing is carved yet. */
    constructor (nproc: nat)
      ensures Inv(S()) && |used| == nproc + 1 && live == map[] && !locked
      ensures forall x | x in lists :: lists[x] == []
    {
      lists := NoBlocks(nproc + 1);
      count := FullCounts(nproc + 1);
      used := seq(nproc + 1, i => 0);
      mallocs := seq(nproc + 1, i => 0);
      chunk, memBegin, memEnd, systems, locked := -1, 0, 0, 0, false;
      place, live := map[], map[];
      new;
      hide Inv, NoBlocks, FullCounts;
      NothingYet(nproc + 1, S());
    }

    method Lock()
      requires !locked
      modifies this`locked
      ensures locked
    {
      locked := true;
    }

    method Unlock()
      requires locked
      modifies this`locked
      ensures !locked
    {
      locked := false;
    }

    /** A block goes to the front of a list. */
    method PushFront(d: nat, b: nat, p: Block)
      requires Has(S(), d, b)
      modifies this`lists, this`count, this`place, this`live
      ensures S() == Push(old(S()), d, b, p)
    {
      var x := Slot(d, b);
      lists := lists[x := [p] + lists[x]];
      count := count[x := count[x] - 1];
      place := place[p := Listed(x)];
      live := live - {p};
    }

    /** The first block of a list is handed out. */
    method PopFront(d: nat, b: nat, size: int) returns (mem: Block)
      requires Has(S(), d, b) && |lists[Slot(d, b)]| > 0
      modifies this`lists, this`count, this`place, this`live
      ensures S() == Pop(old(S()), d, b, size) && mem == old(lists[Slot(d, b)][0])
    {
      var x := Slot(d, b);
      mem := lists[x][0];
      lists := lists[x := lists[x][1..]];
      count := count[x := count[x] + 1];
      place := place[mem := Live];
      live := live[mem := size];
    }

    /** extend_global_pool: a chunk from the system; what is left of the current one is lost. */
    method ExtendGlobalPool()
      requires locked
      modifies this`chunk, this`memBegin, this`memEnd
      ensures chunk == old(chunk) + 1 && memBegin == 0 && memEnd == CHUNK
    {
      memBegin := 0;
      memEnd := memBegin + CHUNK;
      chunk := chunk + 1;
    }

    method GlobalImAlloc(size: nat, bucket: nat) returns (mem: Block)
      requires locked && Has(S(), 0, bucket) && size == BucketSize(bucket)
      modifies this`lists, this`count, this`used, this`mallocs, this`chunk, this`memBegin, this`memEnd, this`place,
        this`live
      ensures S() == GlobalAlloc(old(S()), bucket) && mem == GlobalBlock(old(S()), bucket)
    {
      hide BucketSize, Capacity, BucketOf, Pop, CutOff, Take;
      ghost var s0 := S();
      used := used[0 := used[0] + size];
      mallocs := mallocs[0 := mallocs[0] + 1];
      if |lists[Slot(0, bucket)]| > 0 {
        PopCounted(s0, 0, bucket, size);
        mem := PopFront(0, bucket, size);
      } else {
        CutCounted(s0, size);
        if memBegin + size > memEnd {
          ExtendGlobalPool();
        }
        mem := CutBlock(size);
      }
    }

    /** The front of the chunk is handed out. */
    method CutBlock(size: nat) returns (mem: Block)
      modifies this`memBegin, this`place, this`live
      ensures S() == Cut(old(S()), size) && mem == Carved(chunk, old(memBegin), size)
    {
      mem := Carved(chunk, memBegin, size);
      memBegin := memBegin + size;
      place := place[mem := Live];
      live := live[mem := size];
    }

    method GlobalImFree(p: Block, size: nat, bucket: nat)
      requires locked && Has(S(), 0, bucket)
      modifies this`lists, this`count, this`used, this`mallocs, this`place, this`live
      ensures S() == Put(old(S()), 0, bucket, p, size)
    {
      PushCounted(S(), 0, bucket, p, size);
      used := used[0 := used[0] - size];
      mallocs := mallocs[0 := mallocs[0] - 1];
      hide Push, Put;
      PushFront(0, bucket, p);
    }

    method ImAllocateBatch(w: nat, size: nat, bucket: nat)
      requires !locked && bucket < NUM_BUCKETS && size == BucketSize(bucket)
      requires Has(S(), 0, bucket) && Has(S(), w + 1, bucket) && S().count[Slot(w + 1, bucket)] >= Batch(bucket)
      modifies this
      ensures S() == Refill(old(S()), w + 1, bucket, Batch(bucket)) && !locked
      decreases 2
    {
      hide S, Refill, RefillOne, GiveBack, ReturnOne, GlobalAlloc, GlobalBlock, Free, Malloc, MallocBlock, Put, CanFree,
        Serves, QuietFree, QuietMalloc, Capacity, BucketSize, BucketOf, Has;
      ghost var s0 := S();
      NoneMoved(s0, w + 1, bucket);
      var batch := Batch(bucket);
      Lock();
      var i := 0;
      while i < batch
        invariant 0 <= i <= batch && locked
        invariant S() == Refill(s0, w + 1, bucket, i)
      {
        ghost var s := S();
        var p := GlobalImAlloc(size, bucket);
        FreeInBatch(s0, w + 1, bucket, i, s, S(), p, size);
        CilkInternalFree(w, p, size);
        i := i + 1;
      }
      Unlock();
    }

    method ImFreeBatch(w: nat, size: nat, bucket: nat)
      requires !locked && bucket < 6 && size == BucketSize(bucket)
      requires Has(S(), 0, bucket) && Has(S(), w + 1, bucket) && |S().lists[Slot(w + 1, bucket)]| >= Batch(bucket)
      modifies this
      ensures S() == GiveBack(old(S()), w + 1, bucket, Batch(bucket)) && !locked
      decreases 2
    {
      hide S, Refill, RefillOne, GiveBack, ReturnOne, GlobalAlloc, GlobalBlock, Free, Malloc, MallocBlock, Put, CanFree,
        Serves, QuietFree, QuietMalloc, Capacity, BucketSize, BucketOf, Has;
      ghost var s0 := S();
      NoneMoved(s0, w + 1, bucket);
      var batch := Batch(bucket);
      Lock();
      var i := 0;
      while i < batch
        invariant 0 <= i <= batch && locked
        invariant S() == GiveBack(s0, w + 1, bucket, i)
      {
        MallocInBatch(s0, w + 1, bucket, i, S(), size);
        var p := CilkInternalMalloc(w, size);
        GlobalImFree(p, size, bucket);
        i := i + 1;
      }
      Unlock();
    }

    method CilkInternalMalloc(w: nat, size: int) returns (mem: Block)
      requires Serves(S(), w + 1, size)
      requires !QuietMalloc(S(), w + 1, size) ==> !locked && count[Slot(w + 1, BucketOf(size))] >= Batch(BucketOf(size))
      modifies this
      ensures S() == Malloc(old(S()), w + 1, size) && mem == MallocBlock(old(S()), w + 1, size) && locked == old(locked)
      decreases if QuietMalloc(S(), w + 1, size) then 0 else 3
    {
      hide Refill, Filled, Malloc, MallocBlock, BucketSize, BucketOf, Capacity, Batch, Pop;
      var d := w + 1;
      ghost var s0 := S();
      used := used[d := used[d] + size];
      mallocs := mallocs[d := mallocs[d] + 1];
      if size >= SIZE_THRESH {
        mem := System(systems, size);
        systems := systems + 1;
        place := place[mem := Live];
        live := live[mem := size];
        MallocFromTheSystem(s0, d, size);
      } else {
        var b := SizeToBucket(size);
        var csize, x := BucketSize(b), Slot(d, b);
        FilledIs(s0, d, b);
        if |lists[x]| == 0 {
          ImAllocateBatch(w, csize, b);
          RefillCounted(s0, d, b, Batch(b), size, 1);
        }
        MallocIsPop(s0, d, b, size, Filled(s0, d, b), S());
        mem := PopFront(d, b, size);
      }
    }

    method CilkInternalFree(w: nat, p: Block, size: int)
      requires Serves(S(), w + 1, size) && CanFree(S(), w + 1, size)
      requires !QuietFree(S(), w + 1, size) ==> !locked && size <= 1024 && count[Slot(w + 1, BucketOf(size))] == 0
      modifies this
      ensures S() == Free(old(S()), w + 1, p, size) && locked == old(locked)
      decreases if QuietFree(S(), w + 1, size) then 0 else 3
    {
      hide GiveBack, Drained, Free, BucketSize, BucketOf, Capacity, Batch, CanFree, Push;
      var d := w + 1;
      ghost var s0 := S();
      used := used[d := used[d] - size];
      mallocs := mallocs[d := mallocs[d] - 1];
      if size > SIZE_THRESH {
        place := place - {p};
        live := live - {p};
        FreeOfTheSystem(s0, d, p, size);
        return;
      }
      var b := SizeToBucket(size);
      var csize, x := BucketSize(b), Slot(d, b);
      ListOrRoom(s0, d, size);
      DrainedIs(s0, d, b);
      while count[x] <= 0
        invariant x in count && locked == old(locked)
        invariant S() == Count(if count[x] > 0 then Drained(s0, d, b) else s0, d, -size, -1)
        decreases 1 - count[x]
      {
        DrainRound(s0, d, b, size, S());
        ImFreeBatch(w, csize, b);
      }
      FreeIsPush(s0, d, b, p, size, Drained(s0, d, b), S());
      PushFront(d, b, p);
    }
  }
}
