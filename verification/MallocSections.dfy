/** Calls of the allocator by several workers at a time, one critical section after the other. */
module MallocSections {
  // A call looks at its worker's own list, which nobody else touches, and goes for a batch under the lock if the list
  // is empty or full. Between two such sections of a call any number of sections of other calls may come. Blocks are
  // charged to a descriptor when they are handed out or taken back.

  import opened InternalMalloc

  /** Where worker w is. */
  datatype Pc = Idle | Mallocs(size: int) | Frees(block: Block, size: int)

  datatype Shared = Shared(heap: State, pcs: seq<Pc>)

  datatype Action = BeginMalloc(w: nat, size: int) | BeginFree(w: nat, block: Block, size: int) | Section(w: nat)

  // ---------------------------------------------------------------------------------------------
  // Sections
  // ---------------------------------------------------------------------------------------------

  /** The list of this worker and size. */
  function Own(w: nat, size: int): Slot
    requires size <= SIZE_THRESH
  {
    Slot(w + 1, BucketOf(size))
  }

  /** What a section relies on: the lists exist, and a full list has enough blocks for a batch. */
  predicate Ready(s: State, w: nat, pc: Pc) {
    && pc != Idle && Serves(s, w + 1, pc.size)
    && (pc.Frees? && pc.size <= 1024 && s.count[Own(w, pc.size)] <= 0 ==>
          |s.lists[Own(w, pc.size)]| >= Batch(BucketOf(pc.size)))
  }

  /** This is the last section of the call: nothing stands in its way. */
  predicate Ends(s: State, w: nat, pc: Pc)
    requires Ready(s, w, pc)
  {
    if pc.Mallocs? then pc.size >= SIZE_THRESH || |s.lists[Own(w, pc.size)]| > 0
    else pc.size > SIZE_THRESH || s.count[Own(w, pc.size)] > 0
  }

  function HeapAfter(s: State, w: nat, pc: Pc): State
    requires Ready(s, w, pc)
  {
    match pc
    case Mallocs(size) =>
      if size >= SIZE_THRESH then FromSystem(s, w + 1, size)
      else if Ends(s, w, pc) then Take(s, w + 1, BucketOf(size), size)
      else Refill(s, w + 1, BucketOf(size), Batch(BucketOf(size)))
    case Frees(p, size) =>
      if size > SIZE_THRESH then ToSystem(s, w + 1, p, size)
      else if Ends(s, w, pc) then Put(s, w + 1, BucketOf(size), p, size)
      else GiveBack(s, w + 1, BucketOf(size), Batch(BucketOf(size)))
  }

  /** Nobody frees what it does not hold, or what somebody is freeing. */
  predicate Enabled(x: Shared, a: Action) {
    match a
    case BeginMalloc(w, _) => w < |x.pcs| && x.pcs[w].Idle?
    case BeginFree(w, p, size) =>
      && w < |x.pcs| && x.pcs[w].Idle? && p in x.heap.live && x.heap.live[p] == size
      && (forall v | 0 <= v < |x.pcs| && x.pcs[v].Frees? :: x.pcs[v].block != p)
    case Section(w) => w < |x.pcs| && Ready(x.heap, w, x.pcs[w])
  }

  function Apply(x: Shared, a: Action): Shared
    requires Enabled(x, a)
  {
    match a
    case BeginMalloc(w, size) => x.(pcs := x.pcs[w := Mallocs(size)])
    case BeginFree(w, p, size) => x.(pcs := x.pcs[w := Frees(p, size)])
    case Section(w) =>
      Shared(HeapAfter(x.heap, w, x.pcs[w]), if Ends(x.heap, w, x.pcs[w]) then x.pcs[w := Idle] else x.pcs)
  }

  // ---------------------------------------------------------------------------------------------
  // What a section does to the lists and to the blocks that somebody holds
  // ---------------------------------------------------------------------------------------------

  /** No list of another worker has changed. */
  ghost predicate OthersKept(s: State, t: State, d: nat) {
    && |t.used| == |s.used|
    && (forall x | x in s.lists && x.desc != d && x.desc != 0 :: Same(s, t, x))
  }

  lemma MovedKeepsOthers(s: State, t: State, d: nat, b: nat, n: int)
    requires Moved(s, t, d, b, n)
    ensures OthersKept(s, t, d) && t.live == s.live
  {
    hide Same;
  }

  lemma LocalKeepsOthers(s: State, d: nat, b: nat, p: Block, size: int)
    requires Inv(s) && Has(s, d, b)
    ensures |s.lists[Slot(d, b)]| > 0 ==> OthersKept(s, Take(s, d, b, size), d)
    ensures OthersKept(s, Put(s, d, b, p, size), d)
    ensures OthersKept(s, FromSystem(s, d, size), d) && OthersKept(s, ToSystem(s, d, p, size), d)
  {
    hide Lists, Places, Behinds, Aparts, Sums;
    forall x | x in s.lists ensures x in s.count {
      assert CountAt(s, x);
    }
  }

  /** One round with blocks of 2048 bytes: one comes from the system and joins the global list. */
  lemma ReturnOneOf2048(s: State, d: nat)
    requires Inv(s) && 0 < d < |s.used| && Has(s, 0, 6) && Has(s, d, 6)
    ensures Inv(ReturnOne(s, d, 6)) && Moved(s, ReturnOne(s, d, 6), d, 6, 0)
  {
    hide Inv, Put, Puts, Moved, FromSystem;
    var u, p := FromSystem(s, d, SIZE_THRESH), System(s.systems, SIZE_THRESH);
    FromSystemKeepsInv(s, d, SIZE_THRESH);
    AfterFromSystem(s, d, u, p);
    PutKeepsInv(u, 0, 6, p, SIZE_THRESH);
  }

  lemma AfterFromSystem(s: State, d: nat, u: State, p: Block)
    requires Inv(s) && 0 < d < |s.used| && Has(s, 0, 6) && Has(s, d, 6)
    requires u == FromSystem(s, d, SIZE_THRESH) && p == System(s.systems, SIZE_THRESH)
    ensures Has(u, 0, 6) && Has(u, d, 6) && Puts(u, 0, 6, p, SIZE_THRESH)
    ensures Moved(s, Put(u, 0, 6, p, SIZE_THRESH), d, 6, 0)
    ensures BucketSize(6) == SIZE_THRESH
  {
    InvParts(s);
    SystemIsNew(s);
    hide Inv, Lists, Places, Behinds, Aparts, Sums;
    var t := Put(u, 0, 6, p, SIZE_THRESH);
    assert t.live == s.live;
    forall x | x in s.lists && x != Slot(d, 6) && x != Slot(0, 6) ensures Same(s, t, x) {
      assert CountAt(s, x);
    }
  }

  lemma SystemIsNew(s: State)
    requires Inv(s)
    ensures System(s.systems, SIZE_THRESH) !in s.live
  {
    InvParts(s);
    hide Inv, Shape, Counts, Lists, Aparts, Sums;
    var p := System(s.systems, SIZE_THRESH);
    assert p in s.place ==> Behind(s, p);
  }

  /** A batch towards the global list keeps the invariant whatever the bucket; the last bucket makes no room. */
  lemma {:induction false} GiveBackKeeps(s: State, d: nat, b: nat, n: nat)
    requires Has(s, 0, b) && Has(s, d, b) && 0 < d < |s.used| && b < NUM_BUCKETS
    requires b < 6 ==> |s.lists[Slot(d, b)]| >= n
    requires Inv(s)
    ensures Inv(GiveBack(s, d, b, n)) && Moved(s, GiveBack(s, d, b, n), d, b, if b < 6 then 0 - n else 0)
    decreases n
  {
    hide Inv, Moved, ReturnOne;
    if b < 6 {
      GiveBackMoves(s, d, b, n, GiveBack(s, d, b, n));
    } else if n == 0 {
      MovedNothing(s, d, b);
    } else {
      var u := GiveBack(s, d, 6, n - 1);
      GiveBackKeeps(s, d, 6, n - 1);
      MovedHas(s, u, d, 6, 0);
      ReturnOneOf2048(u, d);
      MovedTwice(s, u, ReturnOne(u, d, 6), d, 6, 0, 0);
    }
  }

  /** What worker w has in hand: if it frees a block, it is a live one. */
  predicate Holds(s: State, pc: Pc) {
    pc.Frees? ==> pc.block in s.live && s.live[pc.block] == pc.size
  }

  lemma AlwaysReady(s: State, w: nat, pc: Pc)
    requires Inv(s) && w + 1 < |s.used| && pc != Idle
    ensures Ready(s, w, pc)
  {
    AllServed(s, w + 1, pc.size);
    if pc.size <= SIZE_THRESH {
      FullListIsLong(s, w + 1, BucketOf(pc.size));
    }
  }

  /** The block that a malloc returns. */
  function Got(s: State, w: nat, size: int): Block
    requires Ready(s, w, Mallocs(size)) && Ends(s, w, Mallocs(size))
  {
    if size >= SIZE_THRESH then System(s.systems, size) else s.lists[Own(w, size)][0]
  }

  lemma MallocEnds(s: State, w: nat, size: int)
    requires Ready(s, w, Mallocs(size)) && Ends(s, w, Mallocs(size))
    requires Inv(s)
    ensures var t, p := HeapAfter(s, w, Mallocs(size)), Got(s, w, size);
            && Inv(t) && OthersKept(s, t, w + 1) && p !in s.live && t.live == s.live[p := size] && p.size >= size
            && forall q | q in s.live :: Apart(p, q)
  {
    hide Inv, Take, FromSystem, OthersKept, Refill;
    var t, p := HeapAfter(s, w, Mallocs(size)), Got(s, w, size);
    assert t == Malloc(s, w + 1, size) && p == MallocBlock(s, w + 1, size);
    MallocHandsOut(s, w + 1, size, p, t);
    if size >= SIZE_THRESH {
      AllServed(s, w + 1, 0);
      LocalKeepsOthers(s, w + 1, 0, p, size);
    } else {
      LocalKeepsOthers(s, w + 1, BucketOf(size), p, size);
    }
  }

  lemma FreeEnds(s: State, w: nat, p: Block, size: int)
    requires Ready(s, w, Frees(p, size)) && Ends(s, w, Frees(p, size)) && p in s.live && s.live[p] == size
    requires Inv(s)
    ensures var t := HeapAfter(s, w, Frees(p, size));
            Inv(t) && OthersKept(s, t, w + 1) && t.live == s.live - {p}
  {
    hide Inv, Put, ToSystem, OthersKept, GiveBack;
    var t := HeapAfter(s, w, Frees(p, size));
    assert CanFree(s, w + 1, size) && t == Free(s, w + 1, p, size);
    FreeTakesBack(s, w + 1, p, size, t);
    if size > SIZE_THRESH {
      AllServed(s, w + 1, 0);
      LocalKeepsOthers(s, w + 1, 0, p, size);
    } else {
      LocalKeepsOthers(s, w + 1, BucketOf(size), p, size);
    }
  }

  /** A batch leaves the call where it was, with a block in the list or, but for the last bucket, room in it. */
  lemma BatchGoesOn(s: State, w: nat, pc: Pc)
    requires Ready(s, w, pc) && !Ends(s, w, pc)
    requires Inv(s)
    ensures var t := HeapAfter(s, w, pc);
            && Inv(t) && OthersKept(s, t, w + 1) && t.live == s.live && Ready(t, w, pc)
            && (Ends(t, w, pc) <==> pc.Mallocs? || BucketOf(pc.size) < 6)
            && (pc.Frees? && BucketOf(pc.size) == 6 ==> t.count[Own(w, pc.size)] == s.count[Own(w, pc.size)])
  {
    hide Inv, Refill, GiveBack, Moved, OthersKept, Capacity;
    var d, b := w + 1, BucketOf(pc.size);
    var t := HeapAfter(s, w, pc);
    CountOf(s, d, b);
    if pc.Mallocs? {
      RefillMoves(s, d, b, Batch(b));
      MovedHas(s, t, d, b, Batch(b));
      MovedKeepsOthers(s, t, d, b, Batch(b));
    } else {
      GiveBackKeeps(s, d, b, Batch(b));
      MovedHas(s, t, d, b, if b < 6 then 0 - Batch(b) else 0);
      MovedKeepsOthers(s, t, d, b, if b < 6 then 0 - Batch(b) else 0);
    }
    AlwaysReady(t, w, pc);
  }

  // ---------------------------------------------------------------------------------------------
  // The invariant
  // ---------------------------------------------------------------------------------------------

  ghost predicate Good(x: Shared) {
    && Inv(x.heap) && |x.heap.used| == |x.pcs| + 1
    && (forall w | 0 <= w < |x.pcs| :: Holds(x.heap, x.pcs[w]))
    && (forall v, w | 0 <= v < w < |x.pcs| && x.pcs[v].Frees? && x.pcs[w].Frees? :: x.pcs[v].block != x.pcs[w].block)
  }

  /** A worker in the middle of a call can always go on. */
  lemma CanGoOn(x: Shared, w: nat)
    requires Good(x) && w < |x.pcs| && x.pcs[w] != Idle
    ensures Enabled(x, Section(w))
  {
    hide Inv, Ready;
    AlwaysReady(x.heap, w, x.pcs[w]);
  }

  lemma SectionKeepsGood(x: Shared, w: nat)
    requires Good(x) && Enabled(x, Section(w))
    ensures Good(Apply(x, Section(w))) && OthersKept(x.heap, Apply(x, Section(w)).heap, w + 1)
  {
    hide Inv, OthersKept, HeapAfter, Ready, Ends;
    var pc := x.pcs[w];
    assert pc != Idle by { ReadyIsBusy(x.heap, w, pc); }
    if !Ends(x.heap, w, pc) {
      BatchGoesOn(x.heap, w, pc);
    } else if pc.Mallocs? {
      MallocEnds(x.heap, w, pc.size);
    } else {
      assert Holds(x.heap, pc);
      FreeEnds(x.heap, w, pc.block, pc.size);
    }
    assert OthersKept(x.heap, Apply(x, Section(w)).heap, w + 1);
    SameLength(x.heap, Apply(x, Section(w)).heap, w + 1);
    var y := Apply(x, Section(w));
    forall v | 0 <= v < |y.pcs| ensures Holds(y.heap, y.pcs[v]) {
      assert Holds(x.heap, x.pcs[v]);
    }
  }

  lemma ReadyIsBusy(s: State, w: nat, pc: Pc)
    requires Ready(s, w, pc)
    ensures pc != Idle
  {
  }

  lemma SameLength(s: State, t: State, d: nat)
    requires OthersKept(s, t, d)
    ensures |t.used| == |s.used|
  {
  }

  lemma ActionKeepsGood(x: Shared, a: Action)
    requires Good(x) && Enabled(x, a)
    ensures Good(Apply(x, a)) && |Apply(x, a).pcs| == |x.pcs|
  {
    hide Inv, Ready, HeapAfter, Ends;
    if a.Section? {
      SectionKeepsGood(x, a.w);
    }
  }

  /** What nobody but worker w changes: where its call is, and its lists. */
  ghost predicate Mine(x: Shared, y: Shared, w: nat, b: nat) {
    && w < |x.pcs| == |y.pcs| && y.pcs[w] == x.pcs[w] && Same(x.heap, y.heap, Slot(w + 1, b))
  }

  lemma OthersLeaveMine(x: Shared, a: Action, w: nat, b: nat)
    requires Good(x) && Enabled(x, a) && a.w != w < |x.pcs| && b < NUM_BUCKETS
    ensures Mine(x, Apply(x, a), w, b)
  {
    hide Inv, Ready, HeapAfter, Ends, OthersKept, Same;
    OwnList(x.heap, w + 1, b);
    if a.Section? {
      SectionKeepsGood(x, a.w);
      KeptOfOther(x.heap, Apply(x, a).heap, a.w + 1, Slot(w + 1, b));
    }
  }

  lemma OwnList(s: State, d: nat, b: nat)
    requires Inv(s) && d < |s.used| && b < NUM_BUCKETS
    ensures Slot(d, b) in s.lists && Same(s, s, Slot(d, b))
  {
    InvParts(s);
    hide Inv, Counts, Lists, Places, Behinds, Aparts, Sums;
    assert Has(s, d, b);
  }

  lemma KeptOfOther(s: State, t: State, d: nat, x: Slot)
    requires OthersKept(s, t, d) && x in s.lists && x.desc != d && x.desc != 0
    ensures Same(s, t, x)
  {
  }

  // ---------------------------------------------------------------------------------------------
  // Runs
  // ---------------------------------------------------------------------------------------------

  datatype Trace = Trace(states: seq<Shared>, acts: seq<Action>)

  predicate StepOf(x: Shared, a: Action, y: Shared) {
    Enabled(x, a) && y == Apply(x, a)
  }

  /** Any number of workers, taking sections of their calls in any order. */
  ghost predicate IsTrace(r: Trace) {
    && |r.states| == |r.acts| + 1
    && Inv(r.states[0].heap) && |r.states[0].heap.used| == |r.states[0].pcs| + 1
    && (forall w | 0 <= w < |r.states[0].pcs| :: r.states[0].pcs[w] == Idle)
    && forall i {:trigger r.acts[i]} | 0 <= i < |r.acts| :: StepOf(r.states[i], r.acts[i], r.states[i + 1])
  }

  lemma {:induction false} TraceKeepsGood(r: Trace, k: nat)
    requires IsTrace(r) && k < |r.states|
    ensures Good(r.states[k]) && |r.states[k].pcs| == |r.states[0].pcs|
    decreases k
  {
    hide Inv, Enabled, Apply;
    if k > 0 {
      TraceKeepsGood(r, k - 1);
      assert StepOf(r.states[k - 1], r.acts[k - 1], r.states[k]);
      ActionKeepsGood(r.states[k - 1], r.acts[k - 1]);
    }
  }

  /** Whatever sections come between those of a malloc, it returns a block that nobody holds, at least as large as
      asked for and apart from every live block, and changes nobody else's blocks. */
  lemma MallocReturns(r: Trace, k: nat, w: nat)
    requires IsTrace(r) && k < |r.acts| && r.acts[k] == Section(w)
    requires w < |r.states[k].pcs| && r.states[k].pcs[w].Mallocs?
    ensures w < |r.states[k + 1].pcs|
    ensures var s, t, size := r.states[k].heap, r.states[k + 1].heap, r.states[k].pcs[w].size;
            if r.states[k + 1].pcs[w] == Idle then
              exists p :: p !in s.live && t.live == s.live[p := size] && p.size >= size
                          && forall q | q in s.live :: Apart(p, q)
            else t.live == s.live
  {
    var x := r.states[k];
    TraceKeepsGood(r, k);
    assert StepOf(x, r.acts[k], r.states[k + 1]);
    hide Inv, HeapAfter, Ends, OthersKept;
    if Ends(x.heap, w, x.pcs[w]) {
      MallocEnds(x.heap, w, x.pcs[w].size);
    } else {
      BatchGoesOn(x.heap, w, x.pcs[w]);
    }
  }

  /** A free takes the block away from its holder, whoever got it, and nobody else's. */
  lemma FreeTakesAway(r: Trace, k: nat, w: nat)
    requires IsTrace(r) && k < |r.acts| && r.acts[k] == Section(w)
    requires w < |r.states[k].pcs| && r.states[k].pcs[w].Frees?
    ensures w < |r.states[k + 1].pcs| && r.states[k].pcs[w].block in r.states[k].heap.live
    ensures r.states[k + 1].heap.live ==
              if r.states[k + 1].pcs[w] == Idle then r.states[k].heap.live - {r.states[k].pcs[w].block}
              else r.states[k].heap.live
  {
    var x := r.states[k];
    TraceKeepsGood(r, k);
    assert StepOf(x, r.acts[k], r.states[k + 1]) && Holds(x.heap, x.pcs[w]);
    hide Inv, HeapAfter, Ends, OthersKept;
    if Ends(x.heap, w, x.pcs[w]) {
      FreeEnds(x.heap, w, x.pcs[w].block, x.pcs[w].size);
    } else {
      BatchGoesOn(x.heap, w, x.pcs[w]);
    }
  }

  /** Worker w takes no section between steps i and j. */
  predicate Pauses(r: Trace, i: nat, j: nat, w: nat) {
    forall k | i < k < j && k < |r.acts| :: r.acts[k].w != w
  }

  lemma {:induction false} MineMeanwhile(r: Trace, i: nat, j: nat, w: nat, b: nat)
    requires IsTrace(r) && i < j <= |r.acts| && Pauses(r, i, j, w) && w < |r.states[0].pcs| && b < NUM_BUCKETS
    ensures Mine(r.states[i + 1], r.states[j], w, b)
    decreases j
  {
    hide Inv, Enabled, Apply, Same;
    TraceKeepsGood(r, j - 1);
    if j == i + 1 {
      TraceKeepsGood(r, j);
      OwnList(r.states[j].heap, w + 1, b);
    } else {
      MineMeanwhile(r, i, j - 1, w, b);
      assert StepOf(r.states[j - 1], r.acts[j - 1], r.states[j]);
      OthersLeaveMine(r.states[j - 1], r.acts[j - 1], w, b);
      SameTwice(r.states[i + 1].heap, r.states[j - 1].heap, r.states[j].heap, Slot(w + 1, b));
    }
  }

  lemma SameTwice(s: State, t: State, u: State, x: Slot)
    requires Same(s, t, x) && Same(t, u, x)
    ensures Same(s, u, x)
  {
  }

  /** A call is still to be served as it was begun when its worker comes to its first section. */
  lemma BegunAsAsked(r: Trace, i: nat, j: nat, w: nat)
    requires IsTrace(r) && i < j <= |r.acts| && Pauses(r, i, j, w) && r.acts[i].w == w && !r.acts[i].Section?
    ensures w < |r.states[j].pcs|
    ensures match r.acts[i]
            case BeginMalloc(_, size) => r.states[j].pcs[w] == Mallocs(size)
            case BeginFree(_, p, size) => r.states[j].pcs[w] == Frees(p, size)
            case Section(_) => true
  {
    hide Inv, Same, Ready, HeapAfter, Ends;
    TraceKeepsGood(r, i);
    TraceKeepsGood(r, j);
    assert StepOf(r.states[i], r.acts[i], r.states[i + 1]);
    MineMeanwhile(r, i, j, w, 0);
  }

  /** The size is one whose free ends: not of the bucket for which freeing and allocating disagree. */
  predicate MakesRoom(pc: Pc) {
    pc.Frees? ==> pc.size <= 1024 || pc.size > SIZE_THRESH
  }

  /** A call ends with its first or its second section, whatever others do in between. */
  lemma EndsInTwoSections(r: Trace, i: nat, j: nat, w: nat)
    requires IsTrace(r) && i < j < |r.acts| && r.acts[i] == r.acts[j] == Section(w) && Pauses(r, i, j, w)
    requires w < |r.states[i].pcs| && r.states[i].pcs[w] != Idle && MakesRoom(r.states[i].pcs[w])
    ensures w < |r.states[i + 1].pcs| && w < |r.states[j + 1].pcs|
    ensures r.states[i + 1].pcs[w] == Idle || r.states[j + 1].pcs[w] == Idle
  {
    hide Inv, HeapAfter, OthersKept, Same, Ready, Ends;
    var x, pc := r.states[i], r.states[i].pcs[w];
    TraceKeepsGood(r, i);
    TraceKeepsGood(r, i + 1);
    TraceKeepsGood(r, j);
    assert StepOf(x, r.acts[i], r.states[i + 1]);
    assert StepOf(r.states[j], r.acts[j], r.states[j + 1]);
    if !Ends(x.heap, w, pc) {
      SmallUnlessEnds(x.heap, w, pc);
      BatchGoesOn(x.heap, w, pc);
      MineMeanwhile(r, i, j, w, BucketOf(pc.size));
      KeepsEnding(r.states[i + 1].heap, r.states[j].heap, w, pc);
    }
  }

  lemma SmallUnlessEnds(s: State, w: nat, pc: Pc)
    requires Ready(s, w, pc) && !Ends(s, w, pc)
    ensures pc.size <= SIZE_THRESH
  {
  }

  lemma KeepsEnding(s: State, t: State, w: nat, pc: Pc)
    requires Ready(s, w, pc) && Ready(t, w, pc) && Ends(s, w, pc)
    requires pc.size <= SIZE_THRESH && Same(s, t, Own(w, pc.size))
    ensures Ends(t, w, pc)
  {
  }

  /** A free of 1025 to 2048 bytes into a full list. */
  predicate Stuck(x: Shared, w: nat) {
    && w < |x.pcs| && x.pcs[w].Frees? && 1024 < x.pcs[w].size <= SIZE_THRESH
    && Slot(w + 1, 6) in x.heap.count && x.heap.count[Slot(w + 1, 6)] <= 0
  }

  lemma StaysStuck(x: Shared, a: Action, w: nat)
    requires Good(x) && Enabled(x, a) && Stuck(x, w)
    ensures Stuck(Apply(x, a), w)
  {
    if a.w != w {
      hide Inv, Ready, HeapAfter, Ends;
      OthersLeaveMine(x, a, w, 6);
    } else {
      hide Inv, HeapAfter, OthersKept;
      BatchGoesOn(x.heap, w, x.pcs[w]);
    }
  }

  /** Such a free never ends in any run. */
  lemma {:induction false} FreeOf2048NeverEnds(r: Trace, i: nat, k: nat, w: nat)
    requires IsTrace(r) && i <= k < |r.states| && Stuck(r.states[i], w)
    ensures Stuck(r.states[k], w)
    decreases k
  {
    hide Inv, Enabled, Apply, Stuck;
    if i < k {
      FreeOf2048NeverEnds(r, i, k - 1, w);
      TraceKeepsGood(r, k - 1);
      assert StepOf(r.states[k - 1], r.acts[k - 1], r.states[k]);
      StaysStuck(r.states[k - 1], r.acts[k - 1], w);
    }
  }
}
