/** From how many cores every container may have to which ones it gets. */
module CorePlacement {
  // Everybody gets its own core first, then the cores it had, then any that are left.

  import opened Commons
  import opened PlatformScheduler

  /** The containers that run, how many cores each may have, the cores it had, and how many it is counted to have
      got already; the guarantee sets this count to 0. */
  datatype Demand = Demand(nproc: nat, running: seq<nat>, tryNum: seq<int>, cpu: seq<set<nat>>, tmp: seq<int>)

  ghost predicate Valid(d: Demand) {
    && |d.tryNum| == |d.cpu| == |d.tmp| && |d.tryNum| + 2 <= d.nproc
    && (forall u | u in d.running :: u < |d.tryNum|)
    && (forall i, j | 0 <= i < j < |d.running| :: d.running[i] != d.running[j])
  }

  /** Everybody's own core, for the first k of the list. */
  function Reserved(l: seq<nat>, k: nat): map<nat, nat>
    requires k <= |l|
    decreases k
  {
    if k == 0 then map[] else Reserved(l, k - 1)[Invariant(l[k - 1]) := l[k - 1]]
  }

  /** The lowest free cores among some, as many as wanted. */
  function Grab(m: map<nat, nat>, candidates: set<nat>, nproc: nat, want: int): set<nat> {
    Lowest(candidates - m.Keys, 2, nproc, want)
  }

  function Assign(m: map<nat, nat>, cores: set<nat>, u: nat): map<nat, nat> {
    m + map c | c in cores :: u
  }

  /** How many more cores a container wants once its own is reserved. */
  function Want(d: Demand, u: nat): int
    requires u < |d.tryNum| == |d.tmp|
  {
    d.tryNum[u] - (d.tmp[u] + 1)
  }

  /** First the cores it had, then any. */
  function PlaceOne(m: map<nat, nat>, u: nat, had: set<nat>, nproc: nat, want: int): map<nat, nat> {
    var a := Grab(m, had, nproc, want);
    var n := Assign(m, a, u);
    Assign(n, Grab(n, AllCores(nproc), nproc, want - |a|), u)
  }

  function PlaceUpTo(d: Demand, k: nat): map<nat, nat>
    requires |d.tryNum| == |d.cpu| == |d.tmp| && k <= |d.running| && (forall u | u in d.running :: u < |d.tryNum|)
    decreases k
  {
    if k == 0 then Reserved(d.running, |d.running|) else
      var u := d.running[k - 1];
      assert u in d.running;
      PlaceOne(PlaceUpTo(d, k - 1), u, d.cpu[u], d.nproc, Want(d, u))
  }

  /** The map of cores at the end. */
  function Placed(d: Demand): map<nat, nat>
    requires |d.tryNum| == |d.cpu| == |d.tmp| && (forall u | u in d.running :: u < |d.tryNum|)
  {
    PlaceUpTo(d, |d.running|)
  }

  /** The cores of a container in the map. */
  function Owned(m: map<nat, nat>, u: nat): set<nat> {
    set c | c in m && m[c] == u
  }

  // ---------------------------------------------------------------------------------------------
  // Everybody has its own core, and no core is given to two
  // ---------------------------------------------------------------------------------------------

  predicate OwnOf(l: seq<nat>, c: nat) {
    c >= 2 && c - 2 in l
  }

  /** The map of a list of containers: everybody's own core. */
  ghost predicate IsOwnMap(m: map<nat, nat>, l: seq<nat>) {
    (forall c :: c in m <==> OwnOf(l, c)) && (forall c | c in m :: m[c] == c - 2) && |m| == |l|
  }

  lemma {:induction false} ReservedIs(l: seq<nat>, k: nat)
    requires k <= |l| && (forall i, j | 0 <= i < j < |l| :: l[i] != l[j])
    ensures IsOwnMap(Reserved(l, k), l[..k])
    decreases k
  {
    hide IsOwnMap;
    if k > 0 {
      ReservedIs(l, k - 1);
      assert l[..k] == l[..k - 1] + [l[k - 1]];
      assert l[k - 1] !in l[..k - 1];
      OneMoreOwn(Reserved(l, k - 1), l[..k - 1], l[k - 1]);
    } else {
      NobodysOwn(l);
    }
  }

  lemma NobodysOwn(l: seq<nat>)
    ensures IsOwnMap(map[], l[..0])
  {
  }

  lemma OneMoreOwn(m: map<nat, nat>, l: seq<nat>, u: nat)
    requires IsOwnMap(m, l) && u !in l
    ensures IsOwnMap(m[Invariant(u) := u], l + [u])
  {
    var n := m[Invariant(u) := u];
    forall c ensures c in n <==> OwnOf(l + [u], c) {
      assert OwnOf(l + [u], c) <==> OwnOf(l, c) || c == Invariant(u);
    }
  }

  function FreeAmong(cores: set<nat>, keys: set<nat>): nat {
    |cores - keys|
  }

  lemma GrabIs(m: map<nat, nat>, candidates: set<nat>, nproc: nat, want: int, g: set<nat>)
    requires CoresOf(nproc, candidates) && g == Grab(m, candidates, nproc, want)
    ensures g <= candidates && g !! m.Keys
    ensures want >= 0 ==> |g| == Min(want, FreeAmong(candidates, m.Keys))
    ensures want <= 0 ==> g == {}
  {
    var f := candidates - m.Keys;
    LowestAreOfTheMask(f, 2, nproc, want);
    assert From(f, 2) == f;
  }

  lemma AssignIs(m: map<nat, nat>, cores: set<nat>, u: nat, n: map<nat, nat>)
    requires cores !! m.Keys && n == Assign(m, cores, u)
    ensures IsAssigned(m, cores, u, n)
  {
    assert n.Keys == m.Keys + cores;
    assert |n| == |n.Keys| && |m| == |m.Keys|;
  }

  /** One container's turn gives it some free cores and changes nothing else. */
  lemma PlaceOneIs(m: map<nat, nat>, u: nat, had: set<nat>, nproc: nat, want: int,
                   n: map<nat, nat>)
      returns (got: set<nat>)
    requires CoresOf(nproc, had) && n == PlaceOne(m, u, had, nproc, want)
    ensures IsAssigned(m, got, u, n) && CoresOf(nproc, got)
    ensures want <= 0 ==> got == {}
    ensures want >= 0 ==> |got| == Min(want, FreeAmong(AllCores(nproc), m.Keys))
    ensures want >= 0 && FreeAmong(had, m.Keys) >= want ==> got <= had
  {
    hide *;
    var a, p, b := PlaceSteps(m, u, had, nproc, want, n);
    got := a + b;
    Chain(m, a, p, b, n, u, got);
    AddsUp(nproc, had, m.Keys, a, p.Keys, b, want, got);
  }

  lemma PlaceSteps(m: map<nat, nat>, u: nat, had: set<nat>, nproc: nat, want: int, n: map<nat, nat>)
      returns (a: set<nat>, p: map<nat, nat>, b: set<nat>)
    requires CoresOf(nproc, had) && n == PlaceOne(m, u, had, nproc, want)
    ensures IsAssigned(m, a, u, p) && IsAssigned(p, b, u, n) && a <= had && b <= AllCores(nproc)
    ensures want >= 0 ==> |a| == Min(want, FreeAmong(had, m.Keys))
    ensures want - |a| >= 0 ==> |b| == Min(want - |a|, FreeAmong(AllCores(nproc), p.Keys))
    ensures want <= 0 ==> a == {}
    ensures want - |a| <= 0 ==> b == {}
  {
    hide *;
    a := Grab(m, had, nproc, want);
    p := Assign(m, a, u);
    b := Grab(p, AllCores(nproc), nproc, want - |a|);
    PlaceOneSteps(m, u, had, nproc, want, a, p, b);
    AllAreCores(nproc);
    GrabIs(m, had, nproc, want, a);
    AssignIs(m, a, u, p);
    GrabIs(p, AllCores(nproc), nproc, want - |a|, b);
    AssignIs(p, b, u, n);
  }

  lemma PlaceOneSteps(m: map<nat, nat>, u: nat, had: set<nat>, nproc: nat, want: int,
                      a: set<nat>, p: map<nat, nat>, b: set<nat>)
    requires a == Grab(m, had, nproc, want) && p == Assign(m, a, u) && b == Grab(p, AllCores(nproc), nproc, want - |a|)
    ensures PlaceOne(m, u, had, nproc, want) == Assign(p, b, u)
  {
    hide Grab, Assign, AllCores;
  }

  /** N is M with some free cores assigned to u. */
  ghost predicate IsAssigned(m: map<nat, nat>, cores: set<nat>, u: nat, n: map<nat, nat>) {
    && cores !! m.Keys && n.Keys == m.Keys + cores && |n| == |m| + |cores|
    && (forall c | c in m :: n[c] == m[c]) && (forall c | c in cores :: n[c] == u)
  }

  lemma Chain(m: map<nat, nat>, a: set<nat>, p: map<nat, nat>, b: set<nat>, n: map<nat, nat>, u: nat, got: set<nat>)
    requires IsAssigned(m, a, u, p) && IsAssigned(p, b, u, n) && got == a + b
    ensures IsAssigned(m, got, u, n) && a !! m.Keys && p.Keys == m.Keys + a && b !! p.Keys
  {
    ChainKeys(m.Keys, a, p.Keys, b, n.Keys, got);
    forall c | c in m ensures n[c] == m[c] {
      assert p[c] == m[c];
    }
    forall c | c in got ensures n[c] == u {
      assert c in a ==> p[c] == u;
    }
  }

  lemma ChainKeys(m: set<nat>, a: set<nat>, p: set<nat>, b: set<nat>, n: set<nat>, got: set<nat>)
    requires a !! m && p == m + a && b !! p && n == p + b && got == a + b
    ensures got !! m && n == m + got && |got| == |a| + |b|
  {
  }

  lemma AllAreCores(nproc: nat)
    ensures CoresOf(nproc, AllCores(nproc))
  {
  }

  lemma CoresAreCores(nproc: nat, m: set<nat>)
    requires CoresOf(nproc, m)
    ensures m <= AllCores(nproc)
  {
    forall c | c in m ensures c in AllCores(nproc) {
      assert IsCore(c, nproc);
    }
  }

  lemma AddsUp(nproc: nat, had: set<nat>, keys: set<nat>, a: set<nat>, keys': set<nat>, b: set<nat>, want: int,
               got: set<nat>)
    requires CoresOf(nproc, had) && a <= had && a !! keys && keys' == keys + a && b <= AllCores(nproc) && b !! keys'
    requires got == a + b
    requires want >= 0 ==> |a| == Min(want, FreeAmong(had, keys))
    requires want - |a| >= 0 ==> |b| == Min(want - |a|, FreeAmong(AllCores(nproc), keys'))
    requires want <= 0 ==> a == {}
    requires want - |a| <= 0 ==> b == {}
    ensures CoresOf(nproc, got) && |got| == |a| + |b|
    ensures want <= 0 ==> got == {}
    ensures want >= 0 ==> |got| == Min(want, FreeAmong(AllCores(nproc), keys))
    ensures want >= 0 && FreeAmong(had, keys) >= want ==> got <= had
  {
    CoresAreCores(nproc, had);
    AllAreCores(nproc);
    hide AllCores;
    var all := AllCores(nproc);
    FreeAfter(all, keys, a, keys');
    Subset(had - keys, all - keys);
  }

  lemma FreeAfter(all: set<nat>, keys: set<nat>, a: set<nat>, keys': set<nat>)
    requires a <= all && a !! keys && keys' == keys + a
    ensures |all - keys'| == |all - keys| - |a|
  {
    assert all - keys == (all - keys') + a;
  }

  lemma Subset(a: set<nat>, b: set<nat>)
    requires a <= b
    ensures |a| <= |b|
  {
    assert b == a + (b - a);
  }

  /** The map after the first k have had their turns. */
  ghost predicate MapOk(d: Demand, k: nat, m: map<nat, nat>)
    requires Valid(d)
  {
    && k <= |d.running| && CoresOf(d.nproc, m.Keys)
    && (forall q: nat | q < |d.running| :: HasOwn(d, m, q))
    && (forall q: nat | k <= q < |d.running| :: OnlyOwn(d, m, q))
  }

  ghost predicate HasOwn(d: Demand, m: map<nat, nat>, q: nat) {
    q < |d.running| && Invariant(d.running[q]) in m && m[Invariant(d.running[q])] == d.running[q]
  }

  ghost predicate OnlyOwn(d: Demand, m: map<nat, nat>, q: nat) {
    q < |d.running| && Owned(m, d.running[q]) == {Invariant(d.running[q])}
  }

  lemma OwnMapIsOk(d: Demand, m: map<nat, nat>)
    requires Valid(d) && IsOwnMap(m, d.running)
    ensures MapOk(d, 0, m)
  {
    forall c | c in m.Keys ensures 2 <= c < d.nproc {
      assert OwnOf(d.running, c);
    }
    forall q: nat | q < |d.running| ensures HasOwn(d, m, q) && OnlyOwn(d, m, q) {
      assert d.running[q] in d.running;
      assert OwnOf(d.running, Invariant(d.running[q]));
    }
  }

  lemma OwnedAfter(m: map<nat, nat>, cores: set<nat>, u: nat, n: map<nat, nat>, v: nat)
    requires IsAssigned(m, cores, u, n)
    ensures Owned(n, v) == Owned(m, v) + (if v == u then cores else {})
  {
  }

  lemma SumOfParts(a: set<nat>, b: set<nat>)
    requires a !! b
    ensures |a + b| == |a| + |b|
  {
  }

  /** A turn, seen from the containers. */
  lemma TurnIs(d: Demand, k: nat, m: map<nat, nat>, n: map<nat, nat>, got: set<nat>)
    requires Valid(d) && k < |d.running| && MapOk(d, k, m) && IsAssigned(m, got, d.running[k], n)
    requires CoresOf(d.nproc, got)
    ensures MapOk(d, k + 1, n)
    ensures Owned(n, d.running[k]) == {Invariant(d.running[k])} + got && |Owned(n, d.running[k])| == 1 + |got|
    ensures forall v | v != d.running[k] :: Owned(n, v) == Owned(m, v)
  {
    var u := d.running[k];
    assert OnlyOwn(d, m, k) && HasOwn(d, m, k);
    hide Owned, IsAssigned;
    forall v ensures Owned(n, v) == Owned(m, v) + (if v == u then got else {}) {
      OwnedAfter(m, got, u, n, v);
    }
    forall v | v != u ensures Owned(n, v) == Owned(m, v) {
      assert Owned(m, v) + {} == Owned(m, v);
    }
    SumOfParts({Invariant(u)}, got);
    forall q: nat | q < |d.running| ensures HasOwn(d, n, q) {
      assert HasOwn(d, m, q);
    }
    forall q: nat | k + 1 <= q < |d.running| ensures OnlyOwn(d, n, q) {
      assert OnlyOwn(d, m, q);
    }
  }

  lemma PlaceStep(d: Demand, k: nat)
    requires Valid(d) && 0 < k <= |d.running|
    ensures d.running[k - 1] < |d.tryNum|
    ensures PlaceUpTo(d, k) == PlaceOne(PlaceUpTo(d, k - 1), d.running[k - 1], d.cpu[d.running[k - 1]], d.nproc,
      Want(d, d.running[k - 1]))
  {
    assert d.running[k - 1] in d.running;
    hide PlaceOne, Want;
  }

  ghost predicate HadCores(d: Demand) {
    forall u | 0 <= u < |d.cpu| :: CoresOf(d.nproc, d.cpu[u])
  }

  lemma {:induction false} PlacedIsOk(d: Demand, k: nat, m: map<nat, nat>)
    requires Valid(d) && HadCores(d) && k <= |d.running| && m == PlaceUpTo(d, k)
    ensures MapOk(d, k, m)
    decreases k
  {
    hide MapOk, HadCores, Want, Owned, AllCores, PlaceOne, Reserved, PlaceUpTo;
    if k == 0 {
      OwnFirst(d, m);
    } else {
      var p := PlaceUpTo(d, k - 1);
      PlacedIsOk(d, k - 1, p);
      var got := Turn(d, k - 1, p, m);
    }
  }

  lemma OwnFirst(d: Demand, m: map<nat, nat>)
    requires Valid(d) && m == PlaceUpTo(d, 0)
    ensures MapOk(d, 0, m)
  {
    hide MapOk, Reserved;
    ReservedIs(d.running, |d.running|);
    assert d.running[..|d.running|] == d.running;
    OwnMapIsOk(d, m);
  }

  /** The turn of the container at place k: what it gets, and what that leaves unchanged. */
  lemma Turn(d: Demand, k: nat, p: map<nat, nat>, m: map<nat, nat>) returns (got: set<nat>)
    requires Valid(d) && HadCores(d) && k < |d.running| && p == PlaceUpTo(d, k) && m == PlaceUpTo(d, k + 1)
    requires MapOk(d, k, p)
    ensures MapOk(d, k + 1, m) && |m| == |p| + |got| && d.running[k] < |d.tryNum|
    ensures Owned(m, d.running[k]) == {Invariant(d.running[k])} + got && |Owned(m, d.running[k])| == 1 + |got|
    ensures forall v | v != d.running[k] :: Owned(m, v) == Owned(p, v)
    ensures Want(d, d.running[k]) <= 0 ==> got == {}
    ensures Want(d, d.running[k]) >= 0 ==> |got| == Min(Want(d, d.running[k]), FreeAmong(AllCores(d.nproc), p.Keys))
    ensures Want(d, d.running[k]) >= 0 && FreeAmong(d.cpu[d.running[k]], p.Keys) >= Want(d, d.running[k]) ==>
      got <= d.cpu[d.running[k]]
    ensures got !! p.Keys
  {
    hide MapOk, PlaceOne, Want, PlaceUpTo, Owned, AllCores;
    PlaceStep(d, k + 1);
    var u := d.running[k];
    got := PlaceOneIs(p, u, d.cpu[u], d.nproc, Want(d, u), m);
    TurnIs(d, k, p, m, got);
  }

  /** Everybody ends up with its own core, so nobody with none, and no core is given to two. */
  lemma EverybodyHasItsOwnCore(d: Demand, u: nat)
    requires Valid(d) && HadCores(d) && u in d.running
    ensures Invariant(u) in Owned(Placed(d), u) && CoresOf(d.nproc, Owned(Placed(d), u)) && |Owned(Placed(d), u)| >= 1
    ensures forall v | v != u :: Owned(Placed(d), u) !! Owned(Placed(d), v)
  {
    var m := Placed(d);
    PlacedIsOk(d, |d.running|, m);
    var q :| 0 <= q < |d.running| && d.running[q] == u;
    assert HasOwn(d, m, q);
    hide PlaceUpTo, Placed;
    assert {Invariant(u)} <= Owned(m, u);
    Subset({Invariant(u)}, Owned(m, u));
  }

  // ---------------------------------------------------------------------------------------------
  // How many cores, and which
  // ---------------------------------------------------------------------------------------------

  /** The numbers of cores that the first k of the list may have, together. */
  function Total(d: Demand, k: nat): int
    requires k <= |d.running| && (forall u | u in d.running :: u < |d.tryNum|)
    decreases k
  {
    if k == 0 then 0 else
      assert d.running[k - 1] in d.running;
      Total(d, k - 1) + d.tryNum[d.running[k - 1]]
  }

  /** Counts were reset, nobody is left out, and there are cores for all. */
  ghost predicate Fair(d: Demand) {
    && Valid(d) && HadCores(d)
    && (forall u | u in d.running :: d.tmp[u] == 0 && d.tryNum[u] >= 1)
    && Total(d, |d.running|) <= d.nproc - 2
  }

  lemma {:induction false} TotalGrows(d: Demand, j: nat, k: nat)
    requires Valid(d) && (forall u | u in d.running :: d.tryNum[u] >= 1) && j <= k <= |d.running|
    ensures Total(d, k) >= Total(d, j) + (k - j)
    decreases k
  {
    if j < k {
      assert d.running[k - 1] in d.running;
      TotalGrows(d, j, k - 1);
    }
  }

  function CountCores(nproc: nat): nat { if nproc < 2 then 0 else nproc - 2 }

  lemma {:induction false} AllCoresCount(nproc: nat)
    ensures |AllCores(nproc)| == CountCores(nproc)
  {
    if nproc < 3 {
      assert AllCores(nproc) == {};
    } else {
      AllCoresCount(nproc - 1);
      assert AllCores(nproc) == AllCores(nproc - 1) + {nproc - 1} by {
        assert IsCore(nproc - 1, nproc);
        forall c | c in AllCores(nproc) ensures c in AllCores(nproc - 1) + {nproc - 1} {
          assert IsCore(c, nproc - 1) || c == nproc - 1;
        }
        forall c | c in AllCores(nproc - 1) ensures c in AllCores(nproc) {
          assert IsCore(c, nproc);
        }
      }
    }
  }

  lemma FreeCount(nproc: nat, m: map<nat, nat>)
    requires CoresOf(nproc, m.Keys) && nproc >= 2
    ensures FreeAmong(AllCores(nproc), m.Keys) == nproc - 2 - |m|
  {
    AllCoresCount(nproc);
    CoresAreCores(nproc, m.Keys);
    hide AllCores;
    assert AllCores(nproc) == (AllCores(nproc) - m.Keys) + m.Keys;
  }

  lemma OkCores(d: Demand, k: nat, m: map<nat, nat>)
    requires Valid(d) && MapOk(d, k, m)
    ensures CoresOf(d.nproc, m.Keys)
  {
    hide HasOwn, OnlyOwn;
  }

  lemma MapCount(d: Demand, m: map<nat, nat>)
    requires Valid(d) && m == PlaceUpTo(d, 0)
    ensures |m| == |d.running|
  {
    hide Reserved;
    ReservedIs(d.running, |d.running|);
    assert d.running[..|d.running|] == d.running;
  }

  lemma FairAt(d: Demand, k: nat)
    requires Fair(d) && k < |d.running|
    ensures d.running[k] in d.running && d.running[k] < |d.tryNum| == |d.tmp| && d.nproc >= 2
    ensures Want(d, d.running[k]) == d.tryNum[d.running[k]] - 1 >= 0
    ensures Total(d, k + 1) == Total(d, k) + d.tryNum[d.running[k]]
    ensures Total(d, k + 1) + (|d.running| - (k + 1)) <= d.nproc - 2
  {
    assert d.running[k] in d.running;
    TotalGrows(d, k + 1, |d.running|);
  }

  /** A turn of a fair placement gives the container as many cores as it may have. */
  lemma FairTurn(d: Demand, k: nat, p: map<nat, nat>, m: map<nat, nat>)
    requires Valid(d) && HadCores(d)
    requires k < |d.running| && p == PlaceUpTo(d, k) && m == PlaceUpTo(d, k + 1)
    requires |p| == Total(d, k) + (|d.running| - k)
    requires Fair(d)
    ensures |m| == Total(d, k + 1) + (|d.running| - (k + 1))
    ensures d.running[k] < |d.tryNum| && |Owned(m, d.running[k])| == d.tryNum[d.running[k]]
    ensures forall v | v != d.running[k] :: Owned(m, v) == Owned(p, v)
  {
    hide *;
    FairAt(d, k);
    PlacedIsOk(d, k, p);
    OkCores(d, k, p);
    FreeCount(d.nproc, p);
    var got := Turn(d, k, p, m);
  }

  lemma FairIsValid(d: Demand)
    requires Fair(d)
    ensures Valid(d) && HadCores(d)
  {
    hide Valid, HadCores;
  }

  lemma {:induction false} CountsUpTo(d: Demand, k: nat, m: map<nat, nat>)
    requires Valid(d) && k <= |d.running| && m == PlaceUpTo(d, k)
    requires Fair(d)
    ensures |m| == Total(d, k) + (|d.running| - k)
    ensures forall q: nat | q < k :: CountAt(d, m, q)
    decreases k
  {
    hide Fair, Owned, PlaceUpTo, HadCores, AllCores;
    FairIsValid(d);
    if k == 0 {
      MapCount(d, m);
    } else {
      var p := PlaceUpTo(d, k - 1);
      CountsUpTo(d, k - 1, p);
      FairTurn(d, k - 1, p, m);
      forall q: nat | q < k ensures CountAt(d, m, q) {
        if q < k - 1 {
          assert CountAt(d, p, q);
        }
      }
    }
  }

  ghost predicate CountAt(d: Demand, m: map<nat, nat>, q: nat) {
    q < |d.running| && d.running[q] < |d.tryNum| && |Owned(m, d.running[q])| == d.tryNum[d.running[q]]
  }

  /** If nobody is left out and there are cores for all, everybody gets exactly as many as it may have. */
  lemma EverybodyGetsItsNumber(d: Demand, u: nat)
    requires Fair(d) && u in d.running
    ensures |Owned(Placed(d), u)| == d.tryNum[u]
  {
    CountsUpTo(d, |d.running|, Placed(d));
    var q: nat :| q < |d.running| && d.running[q] == u;
    assert CountAt(d, Placed(d), q);
  }

  /** What a placement leaves: masks apart, everybody's own core in its mask, as many cores as it may have. */
  ghost predicate Fixed(d: Demand) {
    && Fair(d)
    && (forall u | u in d.running :: Invariant(u) in d.cpu[u] && |d.cpu[u]| == d.tryNum[u])
    && (forall u, v | u in d.running && v in d.running && u != v :: d.cpu[u] !! d.cpu[v])
  }

  ghost predicate KeysIn(d: Demand, m: map<nat, nat>) {
    forall c | c in m :: KeyIn(d, m, c)
  }

  ghost predicate KeyIn(d: Demand, m: map<nat, nat>, c: nat) {
    c in m && m[c] in d.running && m[c] < |d.cpu| && c in d.cpu[m[c]]
  }

  lemma OwnKeysIn(d: Demand, m: map<nat, nat>)
    requires Valid(d) && m == PlaceUpTo(d, 0)
    requires Fixed(d)
    ensures KeysIn(d, m)
  {
    hide Reserved, Fixed;
    ReservedIs(d.running, |d.running|);
    assert d.running[..|d.running|] == d.running;
    forall c | c in m ensures KeyIn(d, m, c) {
      assert OwnOf(d.running, c);
      FixedOf(d, m[c]);
    }
  }

  lemma FixedOf(d: Demand, u: nat)
    requires Fixed(d) && u in d.running
    ensures u < |d.cpu| && Invariant(u) in d.cpu[u]
  {
    hide HadCores;
  }

  /** In its turn a container takes the very cores it had. */
  lemma TurnTakesHad(d: Demand, k: nat, p: map<nat, nat>, m: map<nat, nat>)
    requires Valid(d) && HadCores(d) && k < |d.running| && p == PlaceUpTo(d, k) && m == PlaceUpTo(d, k + 1)
    requires MapOk(d, k, p) && KeysIn(d, p)
    requires Fixed(d)
    ensures d.running[k] in d.running && d.running[k] < |d.cpu| && Owned(m, d.running[k]) == d.cpu[d.running[k]]
    ensures KeysIn(d, m)
    ensures forall v | v != d.running[k] :: Owned(m, v) == Owned(p, v)
  {
    hide *;
    FixedAt(d, k);
    var u := d.running[k];
    OnlyOwnOf(d, k, p);
    FreeHad(d, k, p);
    var had := d.cpu[u];
    var rest := had - {Invariant(u)};
    Remainder(had, {Invariant(u)});
    var got := Turn(d, k, p, m);
    FreeIs(had, p.Keys, rest);
    assert got <= rest;
    FreeAll(d.nproc, had, p.Keys, d);
    SameSet(got, rest);
    assert had == rest + {Invariant(u)};
    StillKeysIn(d, k, p, m, had);
  }

  lemma FixedAt(d: Demand, k: nat)
    requires Fixed(d) && k < |d.running|
    ensures d.running[k] in d.running && d.running[k] < |d.cpu| == |d.tryNum| == |d.tmp|
    ensures Invariant(d.running[k]) in d.cpu[d.running[k]] && Want(d, d.running[k]) == |d.cpu[d.running[k]]| - 1 >= 0
  {
    assert d.running[k] in d.running;
  }

  lemma OnlyOwnOf(d: Demand, k: nat, m: map<nat, nat>)
    requires Valid(d) && MapOk(d, k, m) && k < |d.running|
    ensures Owned(m, d.running[k]) == {Invariant(d.running[k])}
  {
    assert OnlyOwn(d, m, k);
    hide Owned;
  }

  /** Of the cores it had, only its own is on the map yet. */
  lemma FreeHad(d: Demand, k: nat, p: map<nat, nat>)
    requires k < |d.running| && d.running[k] in d.running && d.running[k] < |d.cpu|
    requires KeysIn(d, p) && Owned(p, d.running[k]) == {Invariant(d.running[k])}
    requires Fixed(d)
    ensures d.cpu[d.running[k]] - p.Keys == d.cpu[d.running[k]] - {Invariant(d.running[k])}
  {
    var u := d.running[k];
    var had := d.cpu[u];
    forall c | c in had && c in p ensures c == Invariant(u) {
      assert KeyIn(d, p, c);
      assert p[c] == u;
      assert c in Owned(p, u);
    }
    assert Invariant(u) in Owned(p, u);
    hide Fair;
  }

  lemma FreeIs(had: set<nat>, keys: set<nat>, rest: set<nat>)
    requires had - keys == rest
    ensures FreeAmong(had, keys) == |rest|
    ensures forall got: set<nat> | got <= had && got !! keys :: got <= rest
  {
  }

  lemma FreeAll(nproc: nat, had: set<nat>, keys: set<nat>, d: Demand)
    requires HadCores(d) && had in d.cpu && nproc == d.nproc
    ensures FreeAmong(AllCores(nproc), keys) >= FreeAmong(had, keys)
  {
    CoresAreCores(nproc, had);
    hide AllCores;
    Subset(had - keys, AllCores(nproc) - keys);
  }

  lemma SameSet(a: set<nat>, b: set<nat>)
    requires a <= b && |a| >= |b|
    ensures a == b
  {
    assert b == a + (b - a);
  }

  lemma StillKeysIn(d: Demand, k: nat, p: map<nat, nat>, m: map<nat, nat>, had: set<nat>)
    requires k < |d.running| && d.running[k] in d.running && d.running[k] < |d.cpu| && had == d.cpu[d.running[k]]
    requires KeysIn(d, p) && Owned(m, d.running[k]) == had
    requires (forall v | v != d.running[k] :: Owned(m, v) == Owned(p, v))
    ensures KeysIn(d, m)
  {
    forall c | c in m ensures KeyIn(d, m, c) {
      assert c in Owned(m, m[c]);
      if m[c] != d.running[k] {
        assert c in Owned(p, m[c]);
        assert KeyIn(d, p, c);
      }
    }
  }

  ghost predicate SameAt(d: Demand, m: map<nat, nat>, q: nat) {
    q < |d.running| && d.running[q] < |d.cpu| && Owned(m, d.running[q]) == d.cpu[d.running[q]]
  }

  lemma FixedIsValid(d: Demand)
    requires Fixed(d)
    ensures Valid(d) && HadCores(d)
  {
    hide Valid, HadCores;
  }

  lemma {:induction false} FixedUpTo(d: Demand, k: nat, m: map<nat, nat>)
    requires Valid(d) && k <= |d.running| && m == PlaceUpTo(d, k)
    requires Fixed(d)
    ensures KeysIn(d, m)
    ensures forall q: nat | q < k :: SameAt(d, m, q)
    decreases k
  {
    hide Fixed, Owned, PlaceUpTo, HadCores, AllCores, MapOk, KeysIn;
    FixedIsValid(d);
    if k == 0 {
      OwnKeysIn(d, m);
    } else {
      var p := PlaceUpTo(d, k - 1);
      FixedUpTo(d, k - 1, p);
      PlacedIsOk(d, k - 1, p);
      TurnTakesHad(d, k - 1, p, m);
      forall q: nat | q < k ensures SameAt(d, m, q) {
        if q < k - 1 {
          assert SameAt(d, p, q);
        }
      }
    }
  }

  /** Placing again with unchanged numbers moves no core. */
  lemma PlacingAgainMovesNothing(d: Demand, u: nat)
    requires Fixed(d) && u in d.running
    ensures Owned(Placed(d), u) == d.cpu[u]
  {
    FixedIsValid(d);
    FixedUpTo(d, |d.running|, Placed(d));
    var q: nat :| q < |d.running| && d.running[q] == u;
    assert SameAt(d, Placed(d), q);
  }

  /** The masks that a fair placement leaves are such that placing again moves nothing. */
  lemma FairPlacementIsFixed(d: Demand, e: Demand)
    requires Fair(d) && e == d.(cpu := e.cpu) && |e.cpu| == |d.cpu|
    requires forall u | 0 <= u < |e.cpu| :: e.cpu[u] == if u in d.running then Owned(Placed(d), u) else d.cpu[u]
    ensures Fixed(e)
  {
    assert |e.running| == |d.running|;
    SameTotal(d, e, |d.running|);
    hide Placed, Owned;
    forall u | 0 <= u < |e.cpu| ensures CoresOf(e.nproc, e.cpu[u]) {
      if u in d.running {
        EverybodyHasItsOwnCore(d, u);
      }
    }
    forall u | u in e.running ensures Invariant(u) in e.cpu[u] && |e.cpu[u]| == e.tryNum[u] {
      EverybodyHasItsOwnCore(d, u);
      EverybodyGetsItsNumber(d, u);
    }
    forall u, v | u in e.running && v in e.running && u != v ensures e.cpu[u] !! e.cpu[v] {
      EverybodyHasItsOwnCore(d, u);
    }
  }

  lemma {:induction false} SameTotal(d: Demand, e: Demand, k: nat)
    requires k <= |d.running| && (forall u | u in d.running :: u < |d.tryNum|) && e.running == d.running
    requires e.tryNum == d.tryNum
    ensures Total(e, k) == Total(d, k)
    decreases k
  {
    if k > 0 {
      SameTotal(d, e, k - 1);
    }
  }

  lemma {:induction false} NobodyGetsMore(d: Demand, k: nat, m: map<nat, nat>)
    requires Valid(d) && HadCores(d) && k <= |d.running| && m == PlaceUpTo(d, k)
    requires forall u | u in d.running :: Want(d, u) <= 0
    ensures forall q: nat | q < |d.running| :: OnlyOwn(d, m, q)
    decreases k
  {
    hide PlaceUpTo, HadCores, Want, Owned, OnlyOwn, MapOk;
    PlacedIsOk(d, k, m);
    if k == 0 {
      AllOnlyOwn(d, m);
    } else {
      var p := PlaceUpTo(d, k - 1);
      NobodyGetsMore(d, k - 1, p);
      PlacedIsOk(d, k - 1, p);
      assert d.running[k - 1] in d.running;
      var got := Turn(d, k - 1, p, m);
      StillOnlyOwn(d, k - 1, p, m);
    }
  }

  lemma AllOnlyOwn(d: Demand, m: map<nat, nat>)
    requires Valid(d) && MapOk(d, 0, m)
    ensures forall q: nat | q < |d.running| :: OnlyOwn(d, m, q)
  {
  }

  lemma StillOnlyOwn(d: Demand, k: nat, p: map<nat, nat>, m: map<nat, nat>)
    requires k < |d.running| && Owned(m, d.running[k]) == {Invariant(d.running[k])}
    requires forall v | v != d.running[k] :: Owned(m, v) == Owned(p, v)
    requires forall q: nat | q < |d.running| :: OnlyOwn(d, p, q)
    ensures forall q: nat | q < |d.running| :: OnlyOwn(d, m, q)
  {
    hide Owned;
    forall q: nat | q < |d.running| ensures OnlyOwn(d, m, q) {
      assert OnlyOwn(d, p, q);
    }
  }

  /** Placing again without a reset of the counts leaves everybody with its own core and no other. */
  lemma WithoutAResetOnlyOwnCores(d: Demand, u: nat)
    requires Valid(d) && HadCores(d) && u in d.running
    requires forall v | v in d.running :: d.tmp[v] >= d.tryNum[v]
    ensures Owned(Placed(d), u) == {Invariant(u)}
  {
    NobodyGetsMore(d, |d.running|, Placed(d));
    var q: nat :| q < |d.running| && d.running[q] == u;
    assert OnlyOwn(d, Placed(d), q);
  }

  /** Placing a second time with the counts as the first placement leaves them, that is without the guarantee that
      resets them, leaves container u its own core only; so it moves nothing of u exactly if u may have one core. */
  lemma SecondPlacementMovesNothingExactly(d: Demand, e: Demand, u: nat)
    requires Fair(d) && u in d.running && e == d.(cpu := e.cpu, tmp := e.tmp) && |e.cpu| == |e.tmp| == |d.cpu|
    requires forall v | 0 <= v < |d.cpu| ::
      if v in d.running then e.cpu[v] == Owned(Placed(d), v) && e.tmp[v] == d.tmp[v] + |Owned(Placed(d), v)|
      else e.cpu[v] == d.cpu[v]
    ensures Owned(Placed(e), u) == {Invariant(u)}
    ensures Owned(Placed(e), u) == e.cpu[u] <==> d.tryNum[u] == 1
  {
    hide Placed, Owned;
    forall v | 0 <= v < |e.cpu| ensures CoresOf(e.nproc, e.cpu[v]) {
      if v in d.running {
        EverybodyHasItsOwnCore(d, v);
      }
    }
    forall v | v in e.running ensures e.tmp[v] >= e.tryNum[v] {
      EverybodyGetsItsNumber(d, v);
    }
    WithoutAResetOnlyOwnCores(e, u);
    EverybodyHasItsOwnCore(d, u);
    EverybodyGetsItsNumber(d, u);
    OnlyOne(e.cpu[u], Invariant(u));
  }

  lemma OnlyOne(m: set<nat>, c: nat)
    requires c in m
    ensures m == {c} <==> |m| == 1
  {
    if |m| == 1 {
      SameSet({c}, m);
    }
  }

  // ---------------------------------------------------------------------------------------------
  // What the scheduling of cores leaves is placed
  // ---------------------------------------------------------------------------------------------

  /** The cores that the first k of the list try for. */
  function TriedUpTo(s: State, k: nat): set<nat>
    requires k <= |s.running| && (forall u | u in s.running :: u < |s.try|)
    decreases k
  {
    if k == 0 then {} else
      assert s.running[k - 1] in s.running;
      TriedUpTo(s, k - 1) + s.try[s.running[k - 1]]
  }

  lemma {:induction false} TriedUpToApart(s: State, k: nat, j: nat)
    requires Shape(s) && Disjoint(s) && k <= j < |s.running|
    ensures s.running[j] in s.running && TriedUpTo(s, k) !! s.try[s.running[j]]
    decreases k
  {
    if k > 0 {
      TriedUpToApart(s, k - 1, j);
      assert s.running[k - 1] in s.running && s.running[j] in s.running && s.running[k - 1] != s.running[j];
    }
  }

  lemma {:induction false} TriedUpToCores(s: State, k: nat)
    requires Shape(s) && Masks(s) && k <= |s.running|
    ensures TriedUpTo(s, k) <= AllCores(s.nproc)
    decreases k
  {
    if k > 0 {
      TriedUpToCores(s, k - 1);
      assert s.running[k - 1] in s.running;
      assert CoresOf(s.nproc, s.try[s.running[k - 1]]);
    }
  }

  lemma {:induction false} TotalIsPopulation(s: State, d: Demand, k: nat)
    requires Shape(s) && Disjoint(s) && Numbers(s) && k <= |s.running|
    requires d.running == s.running && d.tryNum == s.tryNum
    ensures Total(d, k) == |TriedUpTo(s, k)|
    decreases k
  {
    if k > 0 {
      TotalIsPopulation(s, d, k - 1);
      TriedUpToApart(s, k - 1, k - 1);
      assert s.running[k - 1] in s.running && NumberAt(s, s.running[k - 1]);
    }
  }

  /** In every reachable state the counts are such that everybody gets its number, if nobody was left out. */
  lemma SettledIsFair(s: State, d: Demand)
    requires Inv(s) && Valid(d) && HadCores(d)
    requires d.nproc == s.nproc && d.running == s.running && d.tryNum == s.tryNum
    requires forall u | u in d.running :: d.tmp[u] == 0 && d.tryNum[u] >= 1
    ensures Fair(d)
  {
    hide HadCores, TriedUpTo, AllCores, Total;
    var n := |s.running|;
    TotalIsPopulation(s, d, n);
    TriedUpToCores(s, n);
    Subset(TriedUpTo(s, n), AllCores(s.nproc));
    AllCoresCount(s.nproc);
  }
}
