/** The runtime's own allocator: blocks of seven sizes, kept in a list for every worker and size and in a global list
    for every size, and moved between the two in batches under one lock. */
module InternalMalloc {

  const NUM_BUCKETS: nat := 7
  const SIZE_THRESH: int := 2048
  const CHUNK: nat := 32768

  function BucketSize(b: nat): (n: nat)
    ensures 32 <= n <= 2048
  {
    if b == 0 then 32 else if b == 1 then 64 else if b == 2 then 128 else if b == 3 then 256 else
    if b == 4 then 512 else if b == 5 then 1024 else 2048
  }

  function Capacity(b: nat): (n: nat)
    ensures n >= 8
  {
    if b == 0 then 256 else if b == 1 then 128 else if b == 2 then 64 else if b == 3 then 64 else
    if b == 4 then 32 else if b == 5 then 16 else 8
  }

  /** Half of a list, which is what a batch moves. */
  function Batch(b: nat): (n: nat)
    ensures 4 <= n && 2 * n == Capacity(b)
  {
    Capacity(b) / 2
  }

  /** The smallest bucket that a size fits. */
  function BucketOf(size: int): (b: nat)
    requires size <= SIZE_THRESH
    ensures b < NUM_BUCKETS && size <= BucketSize(b) && (b > 0 ==> BucketSize(b - 1) < size)
    ensures b == 6 <==> size > 1024
  {
    if size <= 32 then 0 else if size <= 64 then 1 else if size <= 128 then 2 else if size <= 256 then 3 else
    if size <= 512 then 4 else if size <= 1024 then 5 else 6
  }

  method SizeToBucket(size: int) returns (b: int)
    ensures size <= SIZE_THRESH ==> b == BucketOf(size)
    ensures size > SIZE_THRESH ==> b == -1
  {
    var i := 0;
    while i < NUM_BUCKETS
      invariant 0 <= i <= NUM_BUCKETS
      invariant i > 0 ==> BucketSize(i - 1) < size
    {
      if size <= BucketSize(i) {
        return i;
      }
      i := i + 1;
    }
    return -1;
  }

  /** A piece of memory: carved out of a chunk of the pool, or got from the system on its own. */
  datatype Block = Carved(chunk: int, offset: nat, size: int) | System(id: nat, size: int)

  /** A free list: descriptor 0 is the global one, descriptor w + 1 is that of worker w. */
  datatype Slot = Slot(desc: nat, bucket: nat)

  datatype Place = Listed(slot: Slot) | Live

  /** The allocator: the free lists and their counters, what every descriptor counts as used, the chunk that is
      being carved, and, for every block, where it is and with which size it was asked for. */
  datatype State = State(
    lists: map<Slot, seq<Block>>,
    count: map<Slot, int>,
    used: seq<int>,
    mallocs: seq<int>,
    chunk: int,
    begin: nat,
    end: nat,
    systems: nat,
    place: map<Block, Place>,
    live: map<Block, int>
  )

  // ---------------------------------------------------------------------------------------------
  // Steps
  // ---------------------------------------------------------------------------------------------

  predicate Has(s: State, d: nat, b: nat) {
    && Slot(d, b) in s.lists && Slot(d, b) in s.count
    && d < |s.used| == |s.mallocs|
  }

  /** A descriptor counts a block of so many bytes as handed out. */
  function Charge(s: State, d: nat, p: Block, size: int): State
    requires d < |s.used| == |s.mallocs|
  {
    s.(used := s.used[d := s.used[d] + size], mallocs := s.mallocs[d := s.mallocs[d] + 1],
       place := s.place[p := Live], live := s.live[p := size])
  }

  /** The first block of a list is handed out. */
  function Take(s: State, d: nat, b: nat, size: int): State
    requires Has(s, d, b) && |s.lists[Slot(d, b)]| > 0
  {
    var l := s.lists[Slot(d, b)];
    Charge(s, d, l[0], size).(lists := s.lists[Slot(d, b) := l[1..]],
                              count := s.count[Slot(d, b) := s.count[Slot(d, b)] + 1])
  }

  /** A new chunk, if the current one is too short for a block of this size. */
  function Extend(s: State, size: nat): State {
    if s.begin + size > s.end then s.(chunk := s.chunk + 1, begin := 0, end := CHUNK) else s
  }

  /** The front of the chunk is cut off. */
  function CutOff(s: State, size: nat): State
    requires 0 < |s.used| == |s.mallocs|
  {
    Charge(s, 0, Carved(s.chunk, s.begin, size), size).(begin := s.begin + size)
  }

  /** A block is carved out of the chunk and handed out by the global descriptor. */
  function Carve(s: State, size: nat): State
    requires 0 < |s.used| == |s.mallocs|
  {
    CutOff(Extend(s, size), size)
  }

  /** The system hands out a block. */
  function FromSystem(s: State, d: nat, size: int): State
    requires d < |s.used| == |s.mallocs|
  {
    Charge(s, d, System(s.systems, size), size).(systems := s.systems + 1)
  }

  /** A block comes back to the front of a list. */
  function Put(s: State, d: nat, b: nat, p: Block, size: int): State
    requires Has(s, d, b)
  {
    s.(used := s.used[d := s.used[d] - size], mallocs := s.mallocs[d := s.mallocs[d] - 1],
       place := s.place[p := Listed(Slot(d, b))], live := s.live - {p},
       lists := s.lists[Slot(d, b) := [p] + s.lists[Slot(d, b)]],
       count := s.count[Slot(d, b) := s.count[Slot(d, b)] - 1])
  }

  /** A block goes back to the system. */
  function ToSystem(s: State, d: nat, p: Block, size: int): State
    requires d < |s.used| == |s.mallocs|
  {
    s.(used := s.used[d := s.used[d] - size], mallocs := s.mallocs[d := s.mallocs[d] - 1],
       place := s.place - {p}, live := s.live - {p})
  }

  // ---------------------------------------------------------------------------------------------
  // The invariant
  // ---------------------------------------------------------------------------------------------

  /** There is a list and a counter for every descriptor and bucket. */
  ghost predicate Shape(s: State) {
    && 0 < |s.used| == |s.mallocs|
    && (forall d: nat, b: nat | d < |s.used| && b < NUM_BUCKETS :: Has(s, d, b))
    && (forall x | x in s.lists :: x.desc < |s.used| && x.bucket < NUM_BUCKETS)
  }

  ghost predicate CountAt(s: State, x: Slot) {
    && x in s.lists && x in s.count && s.count[x] + |s.lists[x]| == Capacity(x.bucket)
    && (x.desc > 0 ==> s.count[x] >= 0)
  }

  /** The counter of a list says how many more blocks it takes until it is full; that of a worker never gets past 0. */
  ghost predicate Counts(s: State) {
    forall x | x in s.lists :: CountAt(s, x)
  }

  ghost predicate ListedAt(s: State, x: Slot, i: int) {
    && x in s.lists && 0 <= i < |s.lists[x]|
    && s.lists[x][i] in s.place && s.place[s.lists[x][i]] == Listed(x)
    && s.lists[x][i].size == BucketSize(x.bucket)
  }

  /** What is in a list is known to be there, and is in it once. */
  ghost predicate Lists(s: State) {
    && (forall x, i | x in s.lists && 0 <= i < |s.lists[x]| :: ListedAt(s, x, i))
    && (forall x, i, j | x in s.lists && 0 <= i < j < |s.lists[x]| :: s.lists[x][i] != s.lists[x][j])
  }

  ghost predicate PlacedAt(s: State, p: Block) {
    p in s.place && (match s.place[p]
      case Listed(x) => x in s.lists && p in s.lists[x] && p !in s.live
      case Live => p in s.live && Suits(p, s.live[p]))
  }

  /** A block that was asked for with this size is of the size of its bucket, or of its own if it is a large one. */
  predicate Suits(p: Block, size: int) {
    if size > SIZE_THRESH then p.System? && p.size == size else p.size == BucketSize(BucketOf(size))
  }

  /** Every block is in a list or live. */
  ghost predicate Places(s: State) {
    && (forall p | p in s.place :: PlacedAt(s, p))
    && (forall p | p in s.live :: p in s.place && s.place[p] == Live)
  }

  /** A block lies in a chunk, before the part of it that is still to be carved. */
  predicate Behind(s: State, p: Block) {
    match p
    case Carved(c, o, n) => n > 0 && o + n <= CHUNK && (c < s.chunk || (c == s.chunk && o + n <= s.begin))
    case System(id, n) => id < s.systems
  }

  ghost predicate Behinds(s: State) {
    && s.begin <= s.end <= CHUNK
    && (forall p | p in s.place :: Behind(s, p))
  }

  /** Two pieces of memory share no byte. */
  predicate Apart(p: Block, q: Block) {
    match (p, q)
    case (Carved(c, o, n), Carved(c', o', n')) => c == c' ==> o + n <= o' || o' + n' <= o
    case (System(id, _), System(id', _)) => id != id'
    case (_, _) => true
  }

  ghost predicate Aparts(s: State) {
    forall p, q | p in s.place && q in s.place && p != q :: Apart(p, q)
  }

  function Sum(l: seq<int>): int {
    if l == [] then 0 else l[0] + Sum(l[1..])
  }

  ghost function SumOf(m: map<Block, int>): int
    decreases |m|
  {
    if |m| == 0 then 0 else
      var p :| p in m;
      assert |m - {p}| < |m|;
      m[p] + SumOf(m - {p})
  }

  /** The counters of all descriptors together add up to the live blocks. */
  ghost predicate Sums(s: State) {
    Sum(s.used) == SumOf(s.live) && Sum(s.mallocs) == |s.live|
  }

  ghost predicate Inv(s: State) {
    Shape(s) && Counts(s) && Lists(s) && Places(s) && Behinds(s) && Aparts(s) && Sums(s)
  }

  lemma {:induction false} SumUpdate(l: seq<int>, i: nat, x: int)
    requires i < |l|
    ensures Sum(l[i := x]) == Sum(l) - l[i] + x
  {
    if i == 0 {
      assert l[0 := x][1..] == l[1..];
    } else {
      assert l[i := x][1..] == l[1..][i - 1 := x];
      SumUpdate(l[1..], i - 1, x);
    }
  }

  lemma FirstKey(m: map<Block, int>) returns (q: Block)
    requires |m| > 0
    ensures q in m && SumOf(m) == m[q] + SumOf(m - {q})
  {
    q :| q in m && SumOf(m) == m[q] + SumOf(m - {q});
  }

  lemma {:induction false} SumWithout(m: map<Block, int>, p: Block)
    requires p in m
    ensures SumOf(m) == m[p] + SumOf(m - {p})
    decreases |m|
  {
    var q := FirstKey(m);
    hide SumOf;
    if q != p {
      SumWithout(m - {q}, p);
      SumWithout(m - {p}, q);
      assert m - {q} - {p} == m - {p} - {q};
    }
  }

  lemma SumWith(m: map<Block, int>, p: Block, size: int)
    requires p !in m
    ensures SumOf(m[p := size]) == SumOf(m) + size && |m[p := size]| == |m| + 1
  {
    var n := m[p := size];
    assert n - {p} == m;
    SumWithout(n, p);
  }

  // ---------------------------------------------------------------------------------------------
  // Every step keeps the invariant
  // ---------------------------------------------------------------------------------------------

  /** A block that is not live is handed out: what that does to the sums. */
  lemma ChargeSums(s: State, d: nat, p: Block, size: int)
    requires Sums(s) && d < |s.used| == |s.mallocs| && p !in s.live
    ensures Sums(Charge(s, d, p, size))
  {
    hide Sum, SumOf;
    SumUpdate(s.used, d, s.used[d] + size);
    SumUpdate(s.mallocs, d, s.mallocs[d] + 1);
    SumWith(s.live, p, size);
  }

  lemma ReturnSums(s: State, d: nat, p: Block, size: int, t: State)
    requires Sums(s) && d < |s.used| == |s.mallocs| && p in s.live && s.live[p] == size
    requires t.used == s.used[d := s.used[d] - size] && t.mallocs == s.mallocs[d := s.mallocs[d] - 1]
    requires t.live == s.live - {p}
    ensures Sums(t)
  {
    hide Sum, SumOf;
    SumUpdate(s.used, d, s.used[d] - size);
    SumUpdate(s.mallocs, d, s.mallocs[d] - 1);
    SumWithout(s.live, p);
  }

  // Take: the first block of a list is handed out.

  ghost predicate Takes(s: State, d: nat, b: nat, size: int) {
    && Has(s, d, b) && |s.lists[Slot(d, b)]| > 0 && b < NUM_BUCKETS
    && size <= SIZE_THRESH && BucketOf(size) == b
  }

  lemma FirstIsListed(s: State, d: nat, b: nat, size: int)
    requires Takes(s, d, b, size) && Lists(s) && Places(s)
    ensures var p := s.lists[Slot(d, b)][0]; p in s.place && s.place[p] == Listed(Slot(d, b)) && p !in s.live
    ensures Suits(s.lists[Slot(d, b)][0], size)
  {
    var p := s.lists[Slot(d, b)][0];
    assert ListedAt(s, Slot(d, b), 0);
    assert PlacedAt(s, p);
    hide Lists, Places;
  }

  lemma TakeKeepsShape(s: State, d: nat, b: nat, size: int)
    requires Takes(s, d, b, size) && Shape(s) && Counts(s)
    ensures Shape(Take(s, d, b, size)) && Counts(Take(s, d, b, size))
  {
    var t := Take(s, d, b, size);
    forall d': nat, b': nat | d' < |t.used| && b' < NUM_BUCKETS ensures Has(t, d', b') {
      assert Has(s, d', b');
    }
    forall x | x in t.lists ensures CountAt(t, x) {
      assert CountAt(s, x);
    }
  }

  lemma TakeKeepsLists(s: State, d: nat, b: nat, size: int)
    requires Takes(s, d, b, size) && Lists(s) && Places(s)
    ensures Lists(Take(s, d, b, size))
  {
    var t, y := Take(s, d, b, size), Slot(d, b);
    var p := s.lists[y][0];
    FirstIsListed(s, d, b, size);
    hide Places;
    forall x, i | x in t.lists && 0 <= i < |t.lists[x]| ensures ListedAt(t, x, i) {
      if x == y {
        assert ListedAt(s, x, i + 1);
        assert s.lists[x][0] != s.lists[x][i + 1];
      } else {
        assert ListedAt(s, x, i);
      }
    }
    forall x, i, j | x in t.lists && 0 <= i < j < |t.lists[x]| ensures t.lists[x][i] != t.lists[x][j] {
      if x == y {
        assert s.lists[x][i + 1] != s.lists[x][j + 1];
      }
    }
  }

  lemma TakeKeepsPlaces(s: State, d: nat, b: nat, size: int)
    requires Takes(s, d, b, size) && Lists(s) && Places(s)
    ensures Places(Take(s, d, b, size))
  {
    var t, y := Take(s, d, b, size), Slot(d, b);
    var p := s.lists[y][0];
    FirstIsListed(s, d, b, size);
    hide Lists, Suits;
    forall q | q in t.place ensures PlacedAt(t, q) {
      if q != p {
        assert PlacedAt(s, q);
      }
    }
  }

  lemma TakeKeepsRest(s: State, d: nat, b: nat, size: int)
    requires Takes(s, d, b, size) && Lists(s) && Places(s) && Behinds(s) && Aparts(s) && Sums(s)
    ensures Behinds(Take(s, d, b, size)) && Aparts(Take(s, d, b, size)) && Sums(Take(s, d, b, size))
  {
    var t, y := Take(s, d, b, size), Slot(d, b);
    var p := s.lists[y][0];
    FirstIsListed(s, d, b, size);
    hide Lists, Places, Sum, SumOf;
    ChargeSums(s, d, p, size);
    assert t.place.Keys == s.place.Keys;
    forall q | q in t.place ensures Behind(t, q) {
      assert Behind(s, q);
    }
    forall q, r | q in t.place && r in t.place && q != r ensures Apart(q, r) {
      assert q in s.place && r in s.place;
    }
  }

  lemma TakeKeepsInv(s: State, d: nat, b: nat, size: int)
    requires Takes(s, d, b, size) && Inv(s)
    ensures Inv(Take(s, d, b, size))
  {
    hide Shape, Counts, Lists, Places, Behinds, Aparts, Sums, Take, Takes;
    TakeKeepsShape(s, d, b, size);
    TakeKeepsLists(s, d, b, size);
    TakeKeepsPlaces(s, d, b, size);
    TakeKeepsRest(s, d, b, size);
  }

  // Carve and FromSystem: a new block is handed out.

  /** S' is S with the new block P charged to descriptor D, the pool aside. */
  ghost predicate Charged(s: State, s': State, d: nat, p: Block, size: int) {
    && s'.lists == s.lists && s'.count == s.count && d < |s.used| == |s.mallocs|
    && s'.used == s.used[d := s.used[d] + size] && s'.mallocs == s.mallocs[d := s.mallocs[d] + 1]
    && s'.place == s.place[p := Live] && s'.live == s.live[p := size]
    && p !in s.place
  }

  lemma ChargedKeepsShape(s: State, s': State, d: nat, p: Block, size: int)
    requires Charged(s, s', d, p, size) && Shape(s) && Counts(s)
    ensures Shape(s') && Counts(s')
  {
    forall d': nat, b': nat | d' < |s'.used| && b' < NUM_BUCKETS ensures Has(s', d', b') {
      assert Has(s, d', b');
    }
    forall x | x in s'.lists ensures CountAt(s', x) {
      assert CountAt(s, x);
    }
  }

  lemma ChargedKeepsLists(s: State, s': State, d: nat, p: Block, size: int)
    requires Charged(s, s', d, p, size) && Lists(s)
    ensures Lists(s')
  {
    forall x, i | x in s'.lists && 0 <= i < |s'.lists[x]| ensures ListedAt(s', x, i) {
      assert ListedAt(s, x, i);
    }
  }

  lemma ChargedKeepsPlaces(s: State, s': State, d: nat, p: Block, size: int)
    requires Charged(s, s', d, p, size) && Places(s) && Suits(p, size)
    ensures Places(s')
  {
    hide Suits;
    forall q | q in s'.place ensures PlacedAt(s', q) {
      if q != p {
        assert PlacedAt(s, q);
      }
    }
  }

  lemma ChargedKeepsSums(s: State, s': State, d: nat, p: Block, size: int)
    requires Charged(s, s', d, p, size) && Places(s) && Sums(s)
    ensures Sums(s')
  {
    assert p !in s.live;
    hide Places, Sum, SumOf;
    SumUpdate(s.used, d, s.used[d] + size);
    SumUpdate(s.mallocs, d, s.mallocs[d] + 1);
    SumWith(s.live, p, size);
  }

  lemma ChargedKeepsAparts(s: State, s': State, d: nat, p: Block, size: int)
    requires Charged(s, s', d, p, size) && Aparts(s)
    requires forall q | q in s.place :: Apart(p, q) && Apart(q, p)
    ensures Aparts(s')
  {
    hide Apart;
    forall q, r | q in s'.place && r in s'.place && q != r ensures Apart(q, r) {
      assert q == p || q in s.place;
      assert r == p || r in s.place;
    }
  }

  lemma ChargedKeepsInv(s: State, s': State, d: nat, p: Block, size: int)
    requires Charged(s, s', d, p, size) && Inv(s) && Suits(p, size) && Behinds(s')
    requires forall q | q in s.place :: Apart(p, q) && Apart(q, p)
    ensures Inv(s')
  {
    hide Charged, Shape, Counts, Lists, Places, Behinds, Aparts, Sums, Apart, Suits;
    ChargedKeepsShape(s, s', d, p, size);
    ChargedKeepsLists(s, s', d, p, size);
    ChargedKeepsPlaces(s, s', d, p, size);
    ChargedKeepsSums(s, s', d, p, size);
    ChargedKeepsAparts(s, s', d, p, size);
  }

  /** A block that is carved is new: what is in use of its chunk lies before it. */
  lemma CarvedIsNew(s: State, size: nat, s': State, p: Block)
    requires Behinds(s) && 0 < size <= CHUNK && 0 < |s.used| == |s.mallocs|
    requires s' == Carve(s, size) && p == Carved(s'.chunk, s'.begin - size, size)
    ensures Charged(s, s', 0, p, size) && Behinds(s')
    ensures forall q | q in s.place :: Apart(p, q) && Apart(q, p)
  {
    forall q | q in s.place ensures Apart(p, q) && Apart(q, p) && p != q && Behind(s', q) {
      assert Behind(s, q);
    }
  }

  lemma CarveKeepsInv(s: State, b: nat)
    requires Inv(s) && b < NUM_BUCKETS
    ensures Inv(Carve(s, BucketSize(b)))
  {
    var size := BucketSize(b);
    assert Suits(Carved(0, 0, size), size);
    var s' := Carve(s, size);
    var p := Carved(s'.chunk, s'.begin - size, size);
    assert Suits(p, size);
    CarvedIsNew(s, size, s', p);
    hide *;
    ChargedKeepsInv(s, s', 0, p, size);
  }

  lemma FromSystemKeepsInv(s: State, d: nat, size: int)
    requires Inv(s) && d < |s.used| && size >= SIZE_THRESH
    ensures Inv(FromSystem(s, d, size))
  {
    var s', p := FromSystem(s, d, size), System(s.systems, size);
    assert Suits(p, size);
    forall q | q in s.place ensures Apart(p, q) && Apart(q, p) && p != q && Behind(s', q) {
      assert Behind(s, q);
    }
    assert Charged(s, s', d, p, size);
    hide Shape, Counts, Lists, Places, Aparts, Sums, Apart, Suits, Charged;
    ChargedKeepsInv(s, s', d, p, size);
  }

  // Put: a block comes back to a list.

  ghost predicate Puts(s: State, d: nat, b: nat, p: Block, size: int) {
    && Has(s, d, b) && b < NUM_BUCKETS && size <= SIZE_THRESH && BucketOf(size) == b
    && p in s.live && s.live[p] == size && (d > 0 ==> s.count[Slot(d, b)] > 0)
  }

  lemma LiveIsPlaced(s: State, p: Block)
    requires Places(s) && p in s.live
    ensures p in s.place && s.place[p] == Live && Suits(p, s.live[p])
  {
    assert PlacedAt(s, p);
  }

  lemma LiveIsNotListed(s: State, p: Block, x: Slot)
    requires Places(s) && Lists(s) && p in s.live && x in s.lists
    ensures p !in s.lists[x]
  {
    LiveIsPlaced(s, p);
    hide Places;
    forall i | 0 <= i < |s.lists[x]| ensures s.lists[x][i] != p {
      assert ListedAt(s, x, i);
    }
  }

  lemma PutKeepsShape(s: State, d: nat, b: nat, p: Block, size: int)
    requires Puts(s, d, b, p, size) && Shape(s) && Counts(s)
    ensures Shape(Put(s, d, b, p, size)) && Counts(Put(s, d, b, p, size))
  {
    var t := Put(s, d, b, p, size);
    forall d': nat, b': nat | d' < |t.used| && b' < NUM_BUCKETS ensures Has(t, d', b') {
      assert Has(s, d', b');
    }
    forall x | x in t.lists ensures CountAt(t, x) {
      assert CountAt(s, x);
    }
  }

  lemma PutKeepsLists(s: State, d: nat, b: nat, p: Block, size: int)
    requires Puts(s, d, b, p, size) && Lists(s) && Places(s)
    ensures Lists(Put(s, d, b, p, size))
  {
    var t, y := Put(s, d, b, p, size), Slot(d, b);
    LiveIsPlaced(s, p);
    forall x | x in s.lists ensures p !in s.lists[x] {
      LiveIsNotListed(s, p, x);
    }
    hide Places;
    forall x, i | x in t.lists && 0 <= i < |t.lists[x]| ensures ListedAt(t, x, i) {
      if x != y {
        assert ListedAt(s, x, i) && s.lists[x][i] in s.lists[x];
      } else if i > 0 {
        assert ListedAt(s, x, i - 1) && s.lists[x][i - 1] in s.lists[x];
      }
    }
    forall x, i, j | x in t.lists && 0 <= i < j < |t.lists[x]| ensures t.lists[x][i] != t.lists[x][j] {
      if x == y {
        assert t.lists[x][j] == s.lists[x][j - 1] && s.lists[x][j - 1] in s.lists[x];
        if i > 0 {
          assert s.lists[x][i - 1] != s.lists[x][j - 1];
        }
      }
    }
  }

  lemma PutKeepsPlaces(s: State, d: nat, b: nat, p: Block, size: int)
    requires Puts(s, d, b, p, size) && Places(s)
    ensures Places(Put(s, d, b, p, size))
  {
    var t := Put(s, d, b, p, size);
    hide Suits;
    forall q | q in t.place ensures PlacedAt(t, q) {
      if q != p {
        assert PlacedAt(s, q);
      }
    }
  }

  lemma PutKeepsRest(s: State, d: nat, b: nat, p: Block, size: int)
    requires Puts(s, d, b, p, size) && Places(s) && Behinds(s) && Aparts(s) && Sums(s)
    ensures Behinds(Put(s, d, b, p, size)) && Aparts(Put(s, d, b, p, size)) && Sums(Put(s, d, b, p, size))
  {
    var t := Put(s, d, b, p, size);
    LiveIsPlaced(s, p);
    hide Places, Sum, SumOf;
    ReturnSums(s, d, p, size, t);
    assert t.place.Keys == s.place.Keys;
    forall q | q in t.place ensures Behind(t, q) {
      assert Behind(s, q);
    }
    forall q, r | q in t.place && r in t.place && q != r ensures Apart(q, r) {
      assert q in s.place && r in s.place;
    }
  }

  lemma PutKeepsInv(s: State, d: nat, b: nat, p: Block, size: int)
    requires Puts(s, d, b, p, size) && Inv(s)
    ensures Inv(Put(s, d, b, p, size))
  {
    hide Shape, Counts, Lists, Places, Behinds, Aparts, Sums, Put, Puts;
    PutKeepsShape(s, d, b, p, size);
    PutKeepsLists(s, d, b, p, size);
    PutKeepsPlaces(s, d, b, p, size);
    PutKeepsRest(s, d, b, p, size);
  }

  // ToSystem: a large block goes back.

  lemma ToSystemKeepsInv(s: State, d: nat, p: Block, size: int)
    requires Inv(s) && d < |s.used| && p in s.live && s.live[p] == size
    ensures Inv(ToSystem(s, d, p, size))
  {
    hide Counts, Lists, Places, Behinds, Aparts, Sums;
    ToSystemKeepsLists(s, d, p, size);
    ReturnSums(s, d, p, size, ToSystem(s, d, p, size));
    ToSystemKeepsShape(s, d, p, size);
    ToSystemKeepsRest(s, d, p, size);
  }

  lemma ToSystemKeepsShape(s: State, d: nat, p: Block, size: int)
    requires Shape(s) && Counts(s) && d < |s.used|
    ensures Shape(ToSystem(s, d, p, size)) && Counts(ToSystem(s, d, p, size))
  {
    var t := ToSystem(s, d, p, size);
    forall d': nat, b': nat | d' < |t.used| && b' < NUM_BUCKETS ensures Has(t, d', b') {
      assert Has(s, d', b');
    }
    forall x | x in t.lists ensures CountAt(t, x) {
      assert CountAt(s, x);
    }
  }

  lemma ToSystemKeepsRest(s: State, d: nat, p: Block, size: int)
    requires Places(s) && Behinds(s) && Aparts(s) && d < |s.used| == |s.mallocs| && p in s.live
    ensures Places(ToSystem(s, d, p, size)) && Behinds(ToSystem(s, d, p, size)) && Aparts(ToSystem(s, d, p, size))
  {
    var t := ToSystem(s, d, p, size);
    forall q | q in t.place ensures Behind(t, q) && PlacedAt(t, q) {
      assert Behind(s, q) && PlacedAt(s, q);
    }
    hide Apart, Suits;
  }

  lemma ToSystemKeepsLists(s: State, d: nat, p: Block, size: int)
    requires Lists(s) && Places(s) && d < |s.used| == |s.mallocs| && p in s.live
    ensures Lists(ToSystem(s, d, p, size))
  {
    var t := ToSystem(s, d, p, size);
    forall x, i | x in t.lists && 0 <= i < |t.lists[x]| ensures ListedAt(t, x, i) {
      LiveIsNotListed(s, p, x);
      assert ListedAt(s, x, i) && s.lists[x][i] in s.lists[x];
    }
  }

  // ---------------------------------------------------------------------------------------------
  // Batches
  // ---------------------------------------------------------------------------------------------

  ghost predicate Same(s: State, t: State, x: Slot) {
    x in s.lists && x in t.lists && x in s.count && x in t.count && t.lists[x] == s.lists[x] && t.count[x] == s.count[x]
  }

  /** T differs from S in the list of bucket B of descriptor D, in the global list of bucket B, and in the counts of
      the two descriptors; no block has become live or ceased to be. */
  ghost predicate Moved(s: State, t: State, d: nat, b: nat, n: int) {
    && |t.used| == |s.used| && t.live == s.live
    && (forall x | x in s.lists && x != Slot(d, b) && x != Slot(0, b) :: Same(s, t, x))
    && (forall x | x in t.lists :: x in s.lists)
    && Has(s, d, b) && Has(t, d, b) && |t.lists[Slot(d, b)]| == |s.lists[Slot(d, b)]| + n
    && t.count[Slot(d, b)] == s.count[Slot(d, b)] - n
  }

  lemma MovedTwice(s: State, t: State, u: State, d: nat, b: nat, m: int, n: int)
    requires Moved(s, t, d, b, m) && Moved(t, u, d, b, n)
    ensures Moved(s, u, d, b, m + n)
  {
    forall x | x in s.lists && x != Slot(d, b) && x != Slot(0, b) ensures Same(s, u, x) {
      assert Same(s, t, x) && Same(t, u, x);
    }
  }

  lemma MovedNothing(s: State, d: nat, b: nat)
    requires Inv(s) && d < |s.used| && b < NUM_BUCKETS
    ensures Moved(s, s, d, b, 0)
  {
    hide Lists, Places, Behinds, Aparts, Sums;
    assert Has(s, d, b);
    forall x | x in s.lists ensures Same(s, s, x) {
      assert CountAt(s, x);
    }
  }

  /** The block that the global descriptor hands out next. */
  function GlobalBlock(s: State, b: nat): Block
    requires Has(s, 0, b)
  {
    if |s.lists[Slot(0, b)]| > 0 then s.lists[Slot(0, b)][0] else
      var t := Extend(s, BucketSize(b));
      Carved(t.chunk, t.begin, BucketSize(b))
  }

  /** It comes from the global list, or is carved out of the chunk if that list is empty. */
  function GlobalAlloc(s: State, b: nat): (t: State)
    requires Has(s, 0, b)
    ensures forall d, b' | Has(s, d, b') :: Has(t, d, b')
  {
    if |s.lists[Slot(0, b)]| > 0 then Take(s, 0, b, BucketSize(b)) else Carve(s, BucketSize(b))
  }

  lemma GlobalAllocKeepsInv(s: State, b: nat)
    requires Inv(s) && b < NUM_BUCKETS
    ensures Has(s, 0, b) && Inv(GlobalAlloc(s, b)) && |GlobalAlloc(s, b).used| == |s.used|
    ensures GlobalBlock(s, b) !in s.live && GlobalAlloc(s, b).live == s.live[GlobalBlock(s, b) := BucketSize(b)]
    ensures forall x | x in s.lists && x != Slot(0, b) :: Same(s, GlobalAlloc(s, b), x)
    ensures GlobalAlloc(s, b).lists.Keys == s.lists.Keys
  {
    hide Lists, Places, Behinds, Aparts, Sums, Shape, Counts, GlobalBlock, GlobalAlloc, Has, Same;
    GlobalAllocLists(s, b);
    GlobalAllocStep(s, b);
  }

  lemma GlobalAllocStep(s: State, b: nat)
    requires Inv(s) && b < NUM_BUCKETS && Has(s, 0, b)
    ensures Inv(GlobalAlloc(s, b)) && |GlobalAlloc(s, b).used| == |s.used|
    ensures GlobalBlock(s, b) !in s.live && GlobalAlloc(s, b).live == s.live[GlobalBlock(s, b) := BucketSize(b)]
  {
    hide Inv, Lists, Places, Behinds, Aparts, Sums, Shape, Counts;
    InvParts(s);
    if |s.lists[Slot(0, b)]| > 0 {
      assert BucketOf(BucketSize(b)) == b;
      FirstIsListed(s, 0, b, BucketSize(b));
      TakeKeepsInv(s, 0, b, BucketSize(b));
    } else {
      CarvedIsFree(s, b);
      CarveKeepsInv(s, b);
    }
  }

  lemma InvParts(s: State)
    requires Inv(s)
    ensures Shape(s) && Counts(s) && Lists(s) && Places(s) && Behinds(s) && Aparts(s) && Sums(s)
  {
    hide Lists, Places, Behinds, Aparts, Sums, Shape, Counts;
  }

  lemma CarvedIsFree(s: State, b: nat)
    requires Behinds(s) && Places(s)
    ensures var t := Extend(s, BucketSize(b)); Carved(t.chunk, t.begin, BucketSize(b)) !in s.live
  {
    var t := Extend(s, BucketSize(b));
    var p := Carved(t.chunk, t.begin, BucketSize(b));
  }

  lemma GlobalAllocLists(s: State, b: nat)
    requires Shape(s) && Counts(s) && b < NUM_BUCKETS
    ensures Has(s, 0, b)
    ensures forall x | x in s.lists && x != Slot(0, b) :: Same(s, GlobalAlloc(s, b), x)
    ensures GlobalAlloc(s, b).lists.Keys == s.lists.Keys
  {
    assert Has(s, 0, b);
    forall x | x in s.lists && x != Slot(0, b) ensures Same(s, GlobalAlloc(s, b), x) {
      assert CountAt(s, x);
    }
  }

  /** One block moves from the global descriptor to the list of a worker. */
  function RefillOne(s: State, d: nat, b: nat): (t: State)
    requires Has(s, 0, b) && Has(s, d, b)
    ensures Has(t, 0, b) && Has(t, d, b)
    ensures d > 0 ==> |t.lists[Slot(d, b)]| == |s.lists[Slot(d, b)]| + 1
    ensures d > 0 ==> t.count[Slot(d, b)] == s.count[Slot(d, b)] - 1
  {
    Put(GlobalAlloc(s, b), d, b, GlobalBlock(s, b), BucketSize(b))
  }

  lemma RefillOneMoves(s: State, d: nat, b: nat)
    requires Inv(s) && 0 < d < |s.used| && b < NUM_BUCKETS && Has(s, 0, b) && Has(s, d, b) && s.count[Slot(d, b)] > 0
    ensures Inv(RefillOne(s, d, b)) && Moved(s, RefillOne(s, d, b), d, b, 1)
  {
    hide Inv, GlobalAlloc, GlobalBlock, Moved, Put, Puts, Take, Carve, Same;
    var t, p := GlobalAlloc(s, b), GlobalBlock(s, b);
    GlobalAllocKeepsInv(s, b);
    CanPut(s, t, d, b, p);
    PutAfterAlloc(s, t, d, b, p);
    hide Has;
    PutKeepsInv(t, d, b, p, BucketSize(b));
  }

  lemma CanPut(s: State, t: State, d: nat, b: nat, p: Block)
    requires 0 < d && b < NUM_BUCKETS && Has(s, d, b) && Has(t, d, b) && s.count[Slot(d, b)] > 0
    requires t.live == s.live[p := BucketSize(b)]
    requires forall x | x in s.lists && x != Slot(0, b) :: Same(s, t, x)
    ensures Puts(t, d, b, p, BucketSize(b))
  {
    assert BucketOf(BucketSize(b)) == b;
    assert Same(s, t, Slot(d, b));
  }

  lemma PutAfterAlloc(s: State, t: State, d: nat, b: nat, p: Block)
    requires 0 < d && Has(s, d, b) && Has(t, d, b) && |s.used| == |t.used|
    requires t.lists.Keys == s.lists.Keys && p !in s.live && t.live == s.live[p := BucketSize(b)]
    requires forall x | x in s.lists && x != Slot(0, b) :: Same(s, t, x)
    ensures Moved(s, Put(t, d, b, p, BucketSize(b)), d, b, 1)
  {
    hide BucketSize;
    assert Same(s, t, Slot(d, b));
    var u := Put(t, d, b, p, BucketSize(b));
    assert u.live == s.live;
    forall x | x in s.lists && x != Slot(d, b) && x != Slot(0, b) ensures Same(s, u, x) {
      assert Same(s, t, x);
    }
  }

  /** im_allocate_batch: n blocks move from the global descriptor to the list of a worker. */
  function Refill(s: State, d: nat, b: nat, n: nat): (t: State)
    requires Has(s, 0, b) && Has(s, d, b)
    ensures Has(t, 0, b) && Has(t, d, b)
    ensures d > 0 ==> |t.lists[Slot(d, b)]| == |s.lists[Slot(d, b)]| + n
    ensures d > 0 ==> t.count[Slot(d, b)] == s.count[Slot(d, b)] - n
    decreases n
  {
    if n == 0 then s else RefillOne(Refill(s, d, b, n - 1), d, b)
  }

  lemma {:induction false} RefillMoves(s: State, d: nat, b: nat, n: nat)
    requires Inv(s) && 0 < d < |s.used| && b < NUM_BUCKETS && Has(s, 0, b) && Has(s, d, b) && s.count[Slot(d, b)] >= n
    ensures Inv(Refill(s, d, b, n)) && Moved(s, Refill(s, d, b, n), d, b, n)
    decreases n
  {
    hide Inv, Moved, RefillOne;
    if n == 0 {
      MovedNothing(s, d, b);
    } else {
      var t := Refill(s, d, b, n - 1);
      RefillMoves(s, d, b, n - 1);
      MovedHas(s, t, d, b, n - 1);
      RefillOneMoves(t, d, b);
      MovedTwice(s, t, RefillOne(t, d, b), d, b, n - 1, 1);
    }
  }

  lemma MovedHas(s: State, t: State, d: nat, b: nat, n: int)
    requires Moved(s, t, d, b, n)
    ensures Has(s, d, b) && Has(t, d, b) && |t.used| == |s.used| && t.live == s.live
    ensures |t.lists[Slot(d, b)]| == |s.lists[Slot(d, b)]| + n && t.count[Slot(d, b)] == s.count[Slot(d, b)] - n
  {
    hide Same;
  }

  /** The block that the malloc inside im_free_batch returns: the first of the worker's list, except that a block of
      2048 bytes comes from the system. */
  function ReturnBlock(s: State, d: nat, b: nat): Block
    requires Has(s, d, b) && (b < 6 ==> |s.lists[Slot(d, b)]| > 0)
  {
    if b < 6 then s.lists[Slot(d, b)][0] else System(s.systems, BucketSize(b))
  }

  /** One block moves to the global list. */
  function ReturnOne(s: State, d: nat, b: nat): (t: State)
    requires Has(s, 0, b) && Has(s, d, b) && (b < 6 ==> |s.lists[Slot(d, b)]| > 0)
    ensures Has(t, 0, b) && Has(t, d, b)
    ensures d > 0 ==> |t.lists[Slot(d, b)]| == |s.lists[Slot(d, b)]| - (if b < 6 then 1 else 0)
    ensures d > 0 ==> t.count[Slot(d, b)] == s.count[Slot(d, b)] + (if b < 6 then 1 else 0)
  {
    var u := if b < 6 then Take(s, d, b, BucketSize(b)) else FromSystem(s, d, BucketSize(b));
    Put(u, 0, b, ReturnBlock(s, d, b), BucketSize(b))
  }

  lemma ReturnOneMoves(s: State, d: nat, b: nat)
    requires Inv(s) && 0 < d < |s.used| && b < 6 && Has(s, 0, b) && Has(s, d, b) && |s.lists[Slot(d, b)]| > 0
    ensures Inv(ReturnOne(s, d, b)) && Moved(s, ReturnOne(s, d, b), d, b, -1)
  {
    hide Inv, Moved, Takes, Put, Puts, Suits, Take;
    var t, p := Take(s, d, b, BucketSize(b)), ReturnBlock(s, d, b);
    CanTake(s, d, b);
    TakeKeepsInv(s, d, b, BucketSize(b));
    AfterTake(s, d, b, p);
    PutKeepsInv(t, 0, b, p, BucketSize(b));
    PutAfterTake(s, d, b, p);
  }

  lemma CanTake(s: State, d: nat, b: nat)
    requires Inv(s) && Has(s, d, b) && b < NUM_BUCKETS && |s.lists[Slot(d, b)]| > 0
    ensures Takes(s, d, b, BucketSize(b)) && s.lists[Slot(d, b)][0] !in s.live
  {
    assert BucketOf(BucketSize(b)) == b;
    InvParts(s);
    hide Inv, Lists, Places;
    FirstIsListed(s, d, b, BucketSize(b));
  }

  lemma AfterTake(s: State, d: nat, b: nat, p: Block)
    requires Has(s, d, b) && Has(s, 0, b) && b < NUM_BUCKETS && |s.lists[Slot(d, b)]| > 0 && p == s.lists[Slot(d, b)][0]
    ensures Has(Take(s, d, b, BucketSize(b)), 0, b) && Puts(Take(s, d, b, BucketSize(b)), 0, b, p, BucketSize(b))
  {
    assert BucketOf(BucketSize(b)) == b;
  }

  lemma PutAfterTake(s: State, d: nat, b: nat, p: Block)
    requires Inv(s) && 0 < d && Has(s, d, b) && Has(s, 0, b) && |s.lists[Slot(d, b)]| > 0
    requires p == s.lists[Slot(d, b)][0] && p !in s.live
    ensures Moved(s, Put(Take(s, d, b, BucketSize(b)), 0, b, p, BucketSize(b)), d, b, -1)
  {
    InvParts(s);
    hide Inv, Shape, Lists, Places, Behinds, Aparts, Sums, BucketSize;
    var u := Put(Take(s, d, b, BucketSize(b)), 0, b, p, BucketSize(b));
    assert u.live == s.live;
    forall x | x in s.lists && x != Slot(d, b) && x != Slot(0, b) ensures Same(s, u, x) {
      assert CountAt(s, x);
    }
  }

  /** The malloc and the global free inside im_free_batch, n times. */
  function GiveBack(s: State, d: nat, b: nat, n: nat): (t: State)
    requires Has(s, 0, b) && Has(s, d, b) && d > 0 && (b < 6 ==> |s.lists[Slot(d, b)]| >= n)
    ensures Has(t, 0, b) && Has(t, d, b) && |t.lists[Slot(d, b)]| == |s.lists[Slot(d, b)]| - (if b < 6 then n else 0)
    ensures t.count[Slot(d, b)] == s.count[Slot(d, b)] + (if b < 6 then n else 0)
    decreases n
  {
    if n == 0 then s else ReturnOne(GiveBack(s, d, b, n - 1), d, b)
  }

  lemma {:induction false} GiveBackMoves(s: State, d: nat, b: nat, n: nat, t: State)
    requires Has(s, 0, b) && Has(s, d, b) && 0 < d < |s.used| && b < 6 && |s.lists[Slot(d, b)]| >= n
    requires t == GiveBack(s, d, b, n)
    requires Inv(s)
    ensures Inv(t) && Moved(s, t, d, b, 0 - n)
    decreases n
  {
    hide Inv, Moved, ReturnOne;
    if n == 0 {
      MovedNothing(s, d, b);
    } else {
      var u := GiveBack(s, d, b, n - 1);
      GiveBackMoves(s, d, b, n - 1, u);
      MovedHas(s, u, d, b, 1 - n);
      ReturnOneMoves(u, d, b);
      MovedTwice(s, u, t, d, b, 1 - n, -1);
    }
  }

  // ---------------------------------------------------------------------------------------------
  // malloc and free
  // ---------------------------------------------------------------------------------------------

  /** The list that a malloc takes its block from: refilled first if it is empty. */
  function Filled(s: State, d: nat, b: nat): (t: State)
    requires Has(s, 0, b) && Has(s, d, b)
    ensures Has(t, 0, b) && Has(t, d, b) && (d > 0 ==> |t.lists[Slot(d, b)]| > 0)
  {
    if |s.lists[Slot(d, b)]| == 0 then Refill(s, d, b, Batch(b)) else s
  }

  /** The list that a free adds its block to: half of it given back first if it is full. */
  function Drained(s: State, d: nat, b: nat): (t: State)
    requires Has(s, 0, b) && Has(s, d, b) && d > 0
    requires s.count[Slot(d, b)] <= 0 ==> b < 6 && |s.lists[Slot(d, b)]| >= Batch(b)
    ensures Has(t, 0, b) && Has(t, d, b)
  {
    if s.count[Slot(d, b)] <= 0 then GiveBack(s, d, b, Batch(b)) else s
  }

  lemma FilledHasABlock(s: State, d: nat, b: nat)
    requires Inv(s) && 0 < d < |s.used| && b < NUM_BUCKETS && Has(s, 0, b) && Has(s, d, b)
    ensures Inv(Filled(s, d, b)) && |Filled(s, d, b).lists[Slot(d, b)]| > 0
    ensures |s.lists[Slot(d, b)]| == 0 ==> s.count[Slot(d, b)] >= Batch(b)
                                           && Moved(s, Filled(s, d, b), d, b, Batch(b))
  {
    CountOf(s, d, b);
    hide Inv, Refill, Moved;
    if |s.lists[Slot(d, b)]| == 0 {
      RefillMoves(s, d, b, Batch(b));
      MovedHas(s, Refill(s, d, b, Batch(b)), d, b, Batch(b));
    }
  }

  lemma CountOf(s: State, d: nat, b: nat)
    requires Inv(s) && Has(s, d, b)
    ensures s.count[Slot(d, b)] + |s.lists[Slot(d, b)]| == Capacity(b) && (d > 0 ==> s.count[Slot(d, b)] >= 0)
  {
    assert CountAt(s, Slot(d, b));
  }

  lemma FullListIsLong(s: State, d: nat, b: nat)
    requires Inv(s) && Has(s, d, b)
    ensures s.count[Slot(d, b)] <= 0 ==> |s.lists[Slot(d, b)]| >= Batch(b)
  {
    hide Inv;
    CountOf(s, d, b);
  }

  lemma DrainedHasRoom(s: State, d: nat, b: nat, t: State)
    requires Has(s, 0, b) && Has(s, d, b) && 0 < d < |s.used| && b < NUM_BUCKETS
    requires s.count[Slot(d, b)] <= 0 ==> b < 6 && |s.lists[Slot(d, b)]| >= Batch(b)
    requires t == Drained(s, d, b)
    requires Inv(s)
    ensures Inv(t) && t.count[Slot(d, b)] > 0 && t.live == s.live
    ensures s.count[Slot(d, b)] <= 0 ==> Moved(s, t, d, b, 0 - Batch(b))
  {
    hide Inv, GiveBack, Moved;
    CountOf(s, d, b);
    if s.count[Slot(d, b)] <= 0 {
      GiveBackMoves(s, d, b, Batch(b), t);
      MovedHas(s, t, d, b, 0 - Batch(b));
    }
  }

  /** A list of a worker that is neither overdrawn nor overfull. */
  predicate Filling(s: State, d: nat, b: nat) {
    && Has(s, 0, b) && Has(s, d, b) && d > 0
    && s.count[Slot(d, b)] >= 0 && s.count[Slot(d, b)] + |s.lists[Slot(d, b)]| == Capacity(b)
  }

  /** At most n rounds of the loop that makes room in a full list. */
  function Rounds(s: State, d: nat, b: nat, n: nat): (t: State)
    requires Filling(s, d, b)
    ensures Filling(t, d, b)
    decreases n
  {
    if n == 0 || s.count[Slot(d, b)] > 0 then s else Rounds(GiveBack(s, d, b, Batch(b)), d, b, n - 1)
  }

  lemma {:induction false} RoundsOf2048(s: State, d: nat, n: nat)
    requires Filling(s, d, 6) && s.count[Slot(d, 6)] == 0
    ensures Rounds(s, d, 6, n).count[Slot(d, 6)] == 0
    decreases n
  {
    hide GiveBack, Capacity, Batch;
    if n > 0 {
      RoundsOf2048(GiveBack(s, d, 6, Batch(6)), d, n - 1);
    }
  }

  /** The loop makes room unless the blocks are of 2048 bytes, for which it never ends. */
  lemma LoopEndsExactly(s: State, d: nat, b: nat)
    requires Filling(s, d, b) && b < NUM_BUCKETS
    ensures (exists n: nat :: Rounds(s, d, b, n).count[Slot(d, b)] > 0) <==> b < 6 || s.count[Slot(d, b)] > 0
  {
    if b < 6 || s.count[Slot(d, b)] > 0 {
      var t := if s.count[Slot(d, b)] > 0 then s else GiveBack(s, d, b, Batch(b));
      assert Rounds(t, d, b, 0) == t;
      assert Rounds(s, d, b, 1) == t;
      assert Rounds(s, d, b, 1).count[Slot(d, b)] > 0;
    } else {
      forall n: nat ensures Rounds(s, d, b, n).count[Slot(d, b)] == 0 {
        RoundsOf2048(s, d, n);
      }
    }
  }

  // What the two calls do.

  /** There is a worker with this descriptor, and lists for this size. */
  predicate Serves(s: State, d: nat, size: int) {
    && 0 < d < |s.used| == |s.mallocs|
    && (size <= SIZE_THRESH ==> Has(s, d, BucketOf(size)) && Has(s, 0, BucketOf(size)))
  }

  function MallocBlock(s: State, d: nat, size: int): Block
    requires Serves(s, d, size)
  {
    if size >= SIZE_THRESH then System(s.systems, size)
    else Filled(s, d, BucketOf(size)).lists[Slot(d, BucketOf(size))][0]
  }

  function Malloc(s: State, d: nat, size: int): State
    requires Serves(s, d, size)
  {
    if size >= SIZE_THRESH then FromSystem(s, d, size) else
      Take(Filled(s, d, BucketOf(size)), d, BucketOf(size), size)
  }

  /** A block that is large, or whose list has room, or whose list can make room. */
  predicate CanFree(s: State, d: nat, size: int)
    requires Serves(s, d, size)
  {
    size > SIZE_THRESH || s.count[Slot(d, BucketOf(size))] > 0
    || (size <= 1024 && |s.lists[Slot(d, BucketOf(size))]| >= Batch(BucketOf(size)))
  }

  function Free(s: State, d: nat, p: Block, size: int): State
    requires Serves(s, d, size) && CanFree(s, d, size)
  {
    if size > SIZE_THRESH then ToSystem(s, d, p, size) else
      Put(Drained(s, d, BucketOf(size)), d, BucketOf(size), p, size)
  }

  /** In every reachable state every worker is served whatever size it asks for. */
  lemma AllServed(s: State, d: nat, size: int)
    requires Inv(s) && 0 < d < |s.used|
    ensures Serves(s, d, size)
  {
    hide Counts, Lists, Places, Behinds, Aparts, Sums;
  }

  /** malloc returns a block that nobody holds, large enough, and changes nobody else's blocks. */
  lemma MallocHandsOut(s: State, d: nat, size: int, p: Block, t: State)
    requires Serves(s, d, size) && p == MallocBlock(s, d, size) && t == Malloc(s, d, size)
    requires Inv(s)
    ensures Inv(t) && p !in s.live && t.live == s.live[p := size] && p.size >= size
    ensures forall q | q in s.live :: Apart(p, q)
  {
    hide Inv, FromSystem, Take;
    if size >= SIZE_THRESH {
      MallocOfTheSystem(s, d, size, p, t);
    } else {
      MallocOfAList(s, d, BucketOf(size), size, p, Filled(s, d, BucketOf(size)), t);
    }
    LiveAreApart(t, p);
  }

  lemma LiveAreApart(s: State, p: Block)
    requires Inv(s) && p in s.live
    ensures forall q | q in s.live && q != p :: Apart(p, q)
  {
    InvParts(s);
    hide Inv, Shape, Counts, Lists, Behinds, Sums, Apart;
    forall q | q in s.live && q != p ensures Apart(p, q) {
      LiveIsPlaced(s, p);
      LiveIsPlaced(s, q);
    }
  }

  lemma MallocOfTheSystem(s: State, d: nat, size: int, p: Block, t: State)
    requires 0 < d < |s.used| == |s.mallocs| && size >= SIZE_THRESH
    requires p == System(s.systems, size) && t == FromSystem(s, d, size)
    requires Inv(s)
    ensures Inv(t) && p !in s.live && t.live == s.live[p := size]
  {
    InvParts(s);
    hide Inv, Shape, Counts, Lists, Aparts, Sums, Places, Behinds;
    FromSystemKeepsInv(s, d, size);
    if p in s.live {
    }
  }

  lemma MallocOfAList(s: State, d: nat, b: nat, size: int, p: Block, u: State, t: State)
    requires Has(s, 0, b) && Has(s, d, b) && 0 < d < |s.used| && size < SIZE_THRESH && b == BucketOf(size)
    requires u == Filled(s, d, b) && p == u.lists[Slot(d, b)][0] && t == Take(u, d, b, size)
    requires Inv(s)
    ensures Inv(t) && p !in s.live && t.live == s.live[p := size] && p.size >= size
  {
    hide Inv, Refill, Moved;
    FilledKeepsLive(s, d, b, u);
    FilledHasABlock(s, d, b);
    TakeKeepsInv(u, d, b, size);
    FirstOfAList(u, d, b, size);
  }

  lemma FirstOfAList(u: State, d: nat, b: nat, size: int)
    requires Takes(u, d, b, size)
    requires Inv(u)
    ensures u.lists[Slot(d, b)][0] !in u.live && u.lists[Slot(d, b)][0].size == BucketSize(b)
  {
    InvParts(u);
    hide Inv, Shape, Counts, Lists, Aparts, Sums, Places, Behinds;
    FirstIsListed(u, d, b, size);
  }

  lemma FilledKeepsLive(s: State, d: nat, b: nat, u: State)
    requires Has(s, 0, b) && Has(s, d, b) && 0 < d < |s.used| && b < NUM_BUCKETS && u == Filled(s, d, b)
    requires Inv(s)
    ensures u.live == s.live
  {
    hide Inv, Refill, Moved;
    FilledHasABlock(s, d, b);
    if |s.lists[Slot(d, b)]| == 0 {
      MovedHas(s, u, d, b, Batch(b));
    }
  }

  /** free takes the block away from its holder, and nobody else's. */
  lemma FreeTakesBack(s: State, d: nat, p: Block, size: int, t: State)
    requires Serves(s, d, size) && CanFree(s, d, size) && t == Free(s, d, p, size)
    requires p in s.live && s.live[p] == size
    requires Inv(s)
    ensures Inv(t) && t.live == s.live - {p}
  {
    hide Inv, ToSystem, Put, Puts, Drained;
    if size > SIZE_THRESH {
      ToSystemKeepsInv(s, d, p, size);
      ToSystemLive(s, d, p, size);
    } else {
      FreeToAList(s, d, BucketOf(size), p, size, Drained(s, d, BucketOf(size)), t);
    }
  }

  lemma ToSystemLive(s: State, d: nat, p: Block, size: int)
    requires d < |s.used| == |s.mallocs|
    ensures ToSystem(s, d, p, size).live == s.live - {p}
  {
  }

  lemma FreeToAList(s: State, d: nat, b: nat, p: Block, size: int, u: State, t: State)
    requires Has(s, 0, b) && Has(s, d, b) && 0 < d < |s.used| && b < NUM_BUCKETS && size <= SIZE_THRESH
    requires b == BucketOf(size)
    requires s.count[Slot(d, b)] <= 0 ==> b < 6 && |s.lists[Slot(d, b)]| >= Batch(b)
    requires u == Drained(s, d, b) && t == Put(u, d, b, p, size)
    requires p in s.live && s.live[p] == size
    requires Inv(s)
    ensures Inv(t) && t.live == s.live - {p}
  {
    hide Inv, GiveBack, Moved;
    DrainedHasRoom(s, d, b, u);
    PutKeepsInv(u, d, b, p, size);
  }

  /** The check at the end of a run passes exactly if every block has been freed. */
  lemma CheckPassesExactly(s: State)
    requires Inv(s)
    ensures Sum(s.used) == 0 && Sum(s.mallocs) == 0 <==> s.live == map[]
  {
    InvParts(s);
    hide Inv, Shape, Counts, Lists, Places, Behinds, Aparts;
    if Sum(s.mallocs) == 0 {
      NoKeys(s.live);
    }
  }

  lemma NoKeys(m: map<Block, int>)
    requires |m| == 0
    ensures m == map[]
  {
    assert m.Keys == {};
  }

  /** A block in a list is in no other list, and nobody holds it. */
  lemma OnePlaceOnly(s: State, p: Block, x: Slot, y: Slot)
    requires Inv(s) && x in s.lists && p in s.lists[x]
    ensures p !in s.live && (y in s.lists && p in s.lists[y] ==> x == y)
  {
    InvParts(s);
    hide Inv, Shape, Counts, Aparts, Sums, Behinds;
    var i :| 0 <= i < |s.lists[x]| && s.lists[x][i] == p;
    assert ListedAt(s, x, i);
    assert PlacedAt(s, p);
    if y in s.lists && p in s.lists[y] {
      var j :| 0 <= j < |s.lists[y]| && s.lists[y][j] == p;
      assert ListedAt(s, y, j);
    }
  }

  /** A free can end unless its block is of bucket 6 and the list of that bucket is full. */
  lemma CanFreeExactly(s: State, d: nat, size: int)
    requires Serves(s, d, size)
    requires Inv(s)
    ensures CanFree(s, d, size) <==> size > SIZE_THRESH || size <= 1024 || s.count[Slot(d, BucketOf(size))] > 0
  {
    hide Inv, Capacity, BucketSize;
    if size <= SIZE_THRESH {
      FullListIsLong(s, d, BucketOf(size));
    }
  }

  // ---------------------------------------------------------------------------------------------
  // Runs
  // ---------------------------------------------------------------------------------------------

  /** A call by worker w: a block may be freed by another worker than the one that got it. */
  datatype Call = MallocCall(w: nat, size: int) | FreeCall(w: nat, block: Block, size: int)

  /** What a caller must see to: to free only what it holds, with the size it asked for. */
  ghost predicate Legal(s: State, c: Call) {
    && Serves(s, c.w + 1, c.size)
    && (c.FreeCall? ==> CanFree(s, c.w + 1, c.size) && c.block in s.live && s.live[c.block] == c.size)
  }

  function After(s: State, c: Call): State
    requires Serves(s, c.w + 1, c.size) && (c.FreeCall? ==> CanFree(s, c.w + 1, c.size))
  {
    if c.MallocCall? then Malloc(s, c.w + 1, c.size) else Free(s, c.w + 1, c.block, c.size)
  }

  ghost predicate StepAt(states: seq<State>, calls: seq<Call>, k: int) {
    0 <= k < |calls| && k + 1 < |states| && Legal(states[k], calls[k]) && states[k + 1] == After(states[k], calls[k])
  }

  ghost predicate IsRun(states: seq<State>, calls: seq<Call>) {
    && |states| == |calls| + 1 && Inv(states[0])
    && (forall k | 0 <= k < |calls| :: StepAt(states, calls, k))
  }

  lemma CallKeepsInv(s: State, c: Call, t: State)
    requires Legal(s, c) && t == After(s, c)
    requires Inv(s)
    ensures Inv(t)
  {
    hide Inv, Malloc, Free, Serves, CanFree;
    if c.MallocCall? {
      MallocHandsOut(s, c.w + 1, c.size, MallocBlock(s, c.w + 1, c.size), t);
    } else {
      FreeTakesBack(s, c.w + 1, c.block, c.size, t);
    }
  }

  /** Over any run of calls, by any workers. */
  lemma {:induction false} RunKeepsInv(states: seq<State>, calls: seq<Call>, k: nat)
    requires IsRun(states, calls) && k <= |calls|
    ensures Inv(states[k])
    decreases k
  {
    hide Inv, Legal, After;
    if k > 0 {
      RunKeepsInv(states, calls, k - 1);
      assert StepAt(states, calls, k - 1);
      CallKeepsInv(states[k - 1], calls[k - 1], states[k]);
    }
  }
}
