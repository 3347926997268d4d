/** Sharing the cores out among the containers of the pool that run. */
module PlatformScheduler {
  // Which cores every container tries to have, when one starts, when one ends and from time to time. A container is
  // named by its place in the pool; cores 0 and 1 are never shared out, and container u has core u + 2 as the one it
  // can always run on.

  import opened Commons

  /** The containers that run, in the order of the list, and, for every container of the pool, the cores it tries to
      have, how many these are, and how many it wants. */
  datatype State = State(
    nproc: nat,
    running: seq<nat>,
    nrunning: int,
    try: seq<set<nat>>,
    tryNum: seq<int>,
    desired: seq<int>,
    rand: nat
  )

  function Invariant(u: nat): nat { u + 2 }

  // ---------------------------------------------------------------------------------------------
  // The invariant between two calls
  // ---------------------------------------------------------------------------------------------

  ghost predicate Shape(s: State) {
    && |s.try| == |s.tryNum| == |s.desired| && |s.try| + 2 <= s.nproc
    && (forall u | u in s.running :: u < |s.try|)
    && (forall i, j | 0 <= i < j < |s.running| :: s.running[i] != s.running[j])
    && s.nrunning == |s.running|
  }

  predicate CoresOf(nproc: nat, m: set<nat>) {
    forall i | i in m :: 2 <= i < nproc
  }

  ghost predicate Masks(s: State) {
    forall u | u in s.running && u < |s.try| :: CoresOf(s.nproc, s.try[u])
  }

  /** No core is tried for by two containers. */
  ghost predicate Disjoint(s: State) {
    forall u, v | u in s.running && v in s.running && u < |s.try| && v < |s.try| && u != v :: s.try[u] !! s.try[v]
  }

  predicate NumberAt(s: State, u: nat)
    requires u < |s.try| == |s.tryNum|
  {
    s.tryNum[u] == |s.try[u]|
  }

  ghost predicate Numbers(s: State) {
    |s.try| == |s.tryNum| && (forall u | u in s.running && u < |s.try| :: NumberAt(s, u))
  }

  predicate WantsAt(s: State, u: nat)
    requires u < |s.desired|
  {
    1 <= s.desired[u] <= s.nproc - 2
  }

  ghost predicate Wants(s: State) {
    forall u | 0 <= u < |s.desired| :: WantsAt(s, u)
  }

  /** Nobody tries for more than it wants. */
  ghost predicate Content(s: State) {
    |s.tryNum| == |s.desired| && (forall u | u in s.running && u < |s.desired| :: s.tryNum[u] <= s.desired[u])
  }

  ghost predicate Sharing(s: State) {
    Shape(s) && Masks(s) && Disjoint(s) && Wants(s)
  }

  ghost predicate Inv(s: State) {
    Sharing(s) && Numbers(s) && Content(s)
  }

  /** Some container that runs tries for the core. */
  ghost predicate Allocated(s: State, i: nat) {
    exists k :: TriedBy(s, i, k)
  }

  ghost predicate TriedBy(s: State, i: nat, k: int) {
    0 <= k < |s.running| && s.running[k] < |s.try| && i in s.try[s.running[k]]
  }

  /** No core that somebody tried for is left idle. */
  ghost predicate NoneReleased(s: State, t: State) {
    forall i | Allocated(s, i) :: Allocated(t, i)
  }

  // ---------------------------------------------------------------------------------------------
  // The lowest cores of a mask
  // ---------------------------------------------------------------------------------------------

  /** What a loop over the cores from i on picks, that takes the cores of a mask until it has n of them. */
  function Lowest(m: set<nat>, i: nat, nproc: nat, n: int): set<nat>
    decreases nproc - i
  {
    if i >= nproc || n <= 0 then {} else
    if i in m then {i} + Lowest(m, i + 1, nproc, n - 1) else Lowest(m, i + 1, nproc, n)
  }

  function From(m: set<nat>, i: nat): set<nat> {
    set c | c in m && c >= i
  }

  lemma {:induction false} LowestAreOfTheMask(m: set<nat>, i: nat, nproc: nat, n: int)
    requires forall c | c in m :: c < nproc
    ensures forall c | c in Lowest(m, i, nproc, n) :: c in m && c >= i
    ensures n >= 0 ==> |Lowest(m, i, nproc, n)| == Min(n, |From(m, i)|)
    decreases nproc - i
  {
    if i >= nproc {
      assert From(m, i) == {};
    } else if n <= 0 {
    } else if i in m {
      LowestAreOfTheMask(m, i + 1, nproc, n - 1);
      assert From(m, i) == {i} + From(m, i + 1) && i !in From(m, i + 1);
      assert i !in Lowest(m, i + 1, nproc, n - 1);
    } else {
      LowestAreOfTheMask(m, i + 1, nproc, n);
      assert From(m, i) == From(m, i + 1);
    }
  }

  // ---------------------------------------------------------------------------------------------
  // A container starts
  // ---------------------------------------------------------------------------------------------

  const RAND_RANGE: nat := 0x1_0000_0000

  /** The generator, on words of 32 bits. */
  function NextRand(r: nat): nat { (r * 1103515245 + 12345) % RAND_RANGE }

  function Draw(r: nat): nat { NextRand(r) / 65536 }

  /** Appended to the list. */
  function Activate(s: State, u: nat): State {
    s.(running := s.running + [u], nrunning := s.nrunning + 1)
  }

  /** The cores that the draws pick for a new container, one draw a core. */
  function Drawn(r: nat, n: nat, i: nat, nproc: nat): set<nat>
    requires n > 0
    decreases nproc - i
  {
    if i >= nproc then {} else
      (if Draw(r) % n == 0 then {i} else {}) + Drawn(NextRand(r), n, i + 1, nproc)
  }

  function AfterDraws(r: nat, i: nat, nproc: nat): nat
    decreases nproc - i
  {
    if i >= nproc then r else AfterDraws(NextRand(r), i + 1, nproc)
  }

  /** The cores that nobody tries for. */
  ghost function Idle(s: State): set<nat> {
    set i: nat | 0 <= i < s.nproc && IsCore(i, s.nproc) && !Allocated(s, i)
  }

  function Clear(s: State, u: nat): State
    requires u < |s.try|
  {
    s.(try := s.try[u := {}])
  }

  /** Container u gets these cores, and whoever else runs and has one of the second set loses it. */
  function Hand(s: State, u: nat, idle: set<nat>, taken: set<nat>): (t: State)
    requires u < |s.try|
    ensures |t.try| == |s.try|
  {
    s.(try := seq(|s.try|, v requires 0 <= v < |s.try| =>
      if v == u then s.try[v] + idle + taken else if v in s.running then s.try[v] - taken else s.try[v]))
  }

  predicate IsCore(i: nat, nproc: nat) { 2 <= i < nproc }

  function AllCores(nproc: nat): set<nat> {
    set i: nat | 0 <= i < nproc && IsCore(i, nproc)
  }

  /** The first half of DREP for a new container: as many cores as the draws pick, idle ones first. */
  ghost function StartDrep(s: State, u: nat): State
    requires u < |s.try| && s.nrunning >= 0
  {
    var c := Clear(s, u);
    if s.nrunning == 0 then Hand(c, u, AllCores(s.nproc), {}) else
      var drawn := Drawn(s.rand, s.nrunning, 2, s.nproc);
      var idle := Lowest(Idle(c), 2, s.nproc, |drawn|);
      var taken := Lowest(drawn, 2, s.nproc, |drawn| - |idle|);
      Hand(c, u, idle, taken).(rand := AfterDraws(s.rand, 2, s.nproc))
  }

  lemma {:induction false} DrawnAreCores(r: nat, n: nat, i: nat, nproc: nat)
    requires n > 0 && i >= 2
    ensures forall c | c in Drawn(r, n, i, nproc) :: i <= c < nproc
    decreases nproc - i
  {
    if i < nproc {
      DrawnAreCores(NextRand(r), n, i + 1, nproc);
    }
  }

  lemma ClearKeepsSharing(s: State, u: nat, c: State)
    requires Sharing(s) && u < |s.try| && u !in s.running && c == Clear(Activate(s, u), u)
    ensures Sharing(c) && c.try[u] == {} && NoneReleased(s, c)
  {
    assert forall v | v in c.running :: v == u || v in s.running;
    forall i | 0 <= i < |c.desired| ensures WantsAt(c, i) {
      assert WantsAt(s, i);
    }
    forall i | Allocated(s, i) ensures Allocated(c, i) {
      var k :| TriedBy(s, i, k);
      assert TriedBy(c, i, k);
    }
  }

  lemma AllocatedBy(s: State, i: nat, u: nat)
    requires u in s.running && u < |s.try| && i in s.try[u]
    ensures Allocated(s, i)
  {
    var k :| 0 <= k < |s.running| && s.running[k] == u;
    assert TriedBy(s, i, k);
  }

  lemma HandKeepsSharing(c: State, u: nat, idle: set<nat>, taken: set<nat>, t: State)
    requires Sharing(c) && u in c.running && u < |c.try| && t.try == Hand(c, u, idle, taken).try
    requires t.nproc == c.nproc && t.running == c.running && t.nrunning == c.nrunning && t.desired == c.desired
    requires t.tryNum == c.tryNum
    requires CoresOf(c.nproc, idle) && CoresOf(c.nproc, taken) && (forall i | i in idle :: !Allocated(c, i))
    ensures Sharing(t) && NoneReleased(c, t)
  {
    forall v | 0 <= v < |t.desired| ensures WantsAt(t, v) {
      assert WantsAt(c, v);
    }
    HandKeepsDisjoint(c, u, idle, taken, t);
    hide Disjoint, Wants;
    forall i | Allocated(c, i) ensures Allocated(t, i) {
      var k :| TriedBy(c, i, k);
      if i in taken {
        AllocatedBy(t, i, u);
      } else {
        assert TriedBy(t, i, k);
      }
    }
  }

  lemma HandKeepsDisjoint(c: State, u: nat, idle: set<nat>, taken: set<nat>, t: State)
    requires Disjoint(c) && u in c.running && u < |c.try| && t.try == Hand(c, u, idle, taken).try
    requires t.running == c.running
    requires forall i | i in idle :: !Allocated(c, i)
    ensures Disjoint(t)
  {
    forall v | v in c.running && v < |c.try| ensures c.try[v] !! idle {
      forall i | i in c.try[v] ensures i !in idle {
        AllocatedBy(c, i, v);
      }
    }
  }

  /** The cores that a start hands out are idle or drawn. */
  lemma StartHands(c: State, u: nat, r: nat, n: nat, idle: set<nat>, taken: set<nat>)
    requires n > 0 && c.nproc >= 2
    requires var drawn := Drawn(r, n, 2, c.nproc);
      idle == Lowest(Idle(c), 2, c.nproc, |drawn|) && taken == Lowest(drawn, 2, c.nproc, |drawn| - |idle|)
    ensures CoresOf(c.nproc, idle) && CoresOf(c.nproc, taken) && (forall i | i in idle :: !Allocated(c, i))
  {
    hide Lowest, Drawn, Allocated;
    var drawn := Drawn(r, n, 2, c.nproc);
    DrawnAreCores(r, n, 2, c.nproc);
    LowestAreOfTheMask(Idle(c), 2, c.nproc, |drawn|);
    LowestAreOfTheMask(drawn, 2, c.nproc, |drawn| - |idle|);
  }

  lemma StartIs(a: State, u: nat, idle: set<nat>, taken: set<nat>)
    requires u < |a.try| && a.nrunning > 0
    requires var drawn := Drawn(a.rand, a.nrunning, 2, a.nproc); var c := Clear(a, u);
      idle == Lowest(Idle(c), 2, a.nproc, |drawn|) && taken == Lowest(drawn, 2, a.nproc, |drawn| - |idle|)
    ensures StartDrep(a, u) == Hand(Clear(a, u), u, idle, taken).(rand := AfterDraws(a.rand, 2, a.nproc))
  {
    hide Lowest, Drawn, Hand, Idle, Clear;
  }

  /** A start takes no core out of use, keeps the masks apart, and takes cores from others only for the new
      container. */
  lemma StartShares(s: State, u: nat, t: State)
    requires Sharing(s) && u < |s.try| && u !in s.running && t == StartDrep(Activate(s, u), u)
    ensures Sharing(t) && NoneReleased(s, t) && t.running == s.running + [u]
    ensures forall v | v in s.running :: t.try[v] <= s.try[v]
  {
    var a := Activate(s, u);
    var c := Clear(a, u);
    ClearKeepsSharing(s, u, c);
    hide Sharing, Lowest, Drawn, NoneReleased, StartDrep, Idle;
    var drawn := Drawn(s.rand, a.nrunning, 2, s.nproc);
    var idle := Lowest(Idle(c), 2, s.nproc, |drawn|);
    var taken := Lowest(drawn, 2, s.nproc, |drawn| - |idle|);
    StartIs(a, u, idle, taken);
    StartHands(c, u, s.rand, a.nrunning, idle, taken);
    HandKeepsSharing(c, u, idle, taken, t);
  }
  // ---------------------------------------------------------------------------------------------
  // A container ends
  // ---------------------------------------------------------------------------------------------

  function Without(l: seq<nat>, u: nat): seq<nat> {
    if l == [] then [] else if l[0] == u then l[1..] else [l[0]] + Without(l[1..], u)
  }

  /** Taken out of the list. */
  function Deactivate(s: State, u: nat): State {
    s.(running := Without(s.running, u), nrunning := s.nrunning - 1)
  }

  /** rand_pick_unfinished_job: with the list as long as its counter says, the search for the drawn place succeeds. */
  function Pick(s: State): (v: nat)
    requires s.nrunning == |s.running| > 0
    ensures v in s.running
  {
    s.running[Draw(s.rand) % s.nrunning]
  }

  function Give(s: State, v: nat, i: nat): State
    requires v < |s.try|
  {
    s.(try := s.try[v := s.try[v] + {i}], rand := NextRand(s.rand))
  }

  /** Every core of a mask, from core i on, goes to a container that is drawn. */
  function GiveAway(s: State, m: set<nat>, i: nat): State
    requires s.nrunning == |s.running| > 0 && (forall v | v in s.running :: v < |s.try|)
    decreases s.nproc - i
  {
    if i >= s.nproc then s else
    if i !in m then GiveAway(s, m, i + 1) else GiveAway(Give(s, Pick(s), i), m, i + 1)
  }

  /** DREP for a container that has ended. */
  function EndDrep(s: State, u: nat): State
    requires s.nrunning == |s.running| > 0 && (forall v | v in s.running :: v < |s.try|) && u < |s.try| == |s.tryNum|
  {
    var t := GiveAway(s, s.try[u], 2);
    GiveAwayShape(s, s.try[u], 2);
    t.(try := t.try[u := {}], tryNum := t.tryNum[u := 0])
  }

  lemma {:induction false} GiveAwayShape(s: State, m: set<nat>, i: nat)
    requires s.nrunning == |s.running| > 0 && (forall v | v in s.running :: v < |s.try|)
    ensures var t := GiveAway(s, m, i); |t.try| == |s.try| && t == s.(try := t.try, rand := t.rand)
    decreases s.nproc - i
  {
    if i < s.nproc {
      if i !in m {
        GiveAwayShape(s, m, i + 1);
      } else {
        GiveAwayShape(Give(s, Pick(s), i), m, i + 1);
      }
    }
  }

  lemma {:induction false} WithoutIs(l: seq<nat>, u: nat)
    requires forall i, j | 0 <= i < j < |l| :: l[i] != l[j]
    ensures forall v :: v in Without(l, u) <==> v in l && v != u
    ensures |Without(l, u)| == |l| - (if u in l then 1 else 0)
    ensures forall i, j | 0 <= i < j < |Without(l, u)| :: Without(l, u)[i] != Without(l, u)[j]
  {
    if l != [] {
      var r := l[1..];
      assert forall v :: v in l <==> v == l[0] || v in r;
      WithoutIs(r, u);
      if l[0] != u {
        var w := Without(l, u);
        assert w == [l[0]] + Without(r, u);
        assert l[0] !in r;
        forall i, j | 0 <= i < j < |w| ensures w[i] != w[j] {
          if i > 0 {
            assert w[i] == Without(r, u)[i - 1] && w[j] == Without(r, u)[j - 1];
          } else {
            assert w[j] in Without(r, u);
          }
        }
      }
    }
  }

  lemma DeactivateKeepsSharing(s: State, u: nat)
    requires Sharing(s)
    ensures u in s.running ==> Sharing(Deactivate(s, u))
    ensures forall v :: v in Deactivate(s, u).running <==> v in s.running && v != u
  {
    WithoutIs(s.running, u);
    hide Wants;
    assert Wants(Deactivate(s, u)) by { WantsOf(s, Deactivate(s, u)); }
  }

  lemma WantsOf(s: State, t: State)
    requires Wants(s) && t.desired == s.desired && t.nproc == s.nproc
    ensures Wants(t)
  {
    forall v | 0 <= v < |t.desired| ensures WantsAt(t, v) {
      assert WantsAt(s, v);
    }
  }

  lemma GiveShares(s: State, v: nat, i: nat)
    requires Sharing(s) && v in s.running && v < |s.try| && IsCore(i, s.nproc) && !Allocated(s, i)
    ensures Sharing(Give(s, v, i)) && NoneReleased(s, Give(s, v, i)) && Allocated(Give(s, v, i), i)
    ensures forall w | 0 <= w < |s.try| :: s.try[w] <= Give(s, v, i).try[w]
  {
    var t := Give(s, v, i);
    forall w | w in s.running && w < |s.try| ensures i !in s.try[w] {
      if i in s.try[w] {
        AllocatedBy(s, i, w);
      }
    }
    WantsOf(s, t);
    hide Wants;
    AllocatedBy(t, i, v);
    forall c | Allocated(s, c) ensures Allocated(t, c) {
      var k :| TriedBy(s, c, k);
      assert TriedBy(t, c, k);
    }
  }

  lemma OnlyOneMore(s: State, v: nat, i: nat, c: nat)
    requires v < |s.try| && !Allocated(s, c) && c != i
    ensures !Allocated(Give(s, v, i), c)
  {
    if Allocated(Give(s, v, i), c) {
      var k :| TriedBy(Give(s, v, i), c, k);
      assert TriedBy(s, c, k);
    }
  }

  lemma {:induction false} GiveAwayShares(s: State, m: set<nat>, i: nat, t: State)
    requires Sharing(s) && |s.running| > 0 && CoresOf(s.nproc, m) && (forall c | c in m && c >= i :: !Allocated(s, c))
    requires t == GiveAway(s, m, i)
    ensures Sharing(t) && NoneReleased(s, t) && |t.try| == |s.try| && t.running == s.running
    ensures forall c | c in m && c >= i :: Allocated(t, c)
    ensures forall w | 0 <= w < |s.try| :: s.try[w] <= t.try[w]
    decreases s.nproc - i
  {
    if i >= s.nproc {
    } else if i !in m {
      GiveAwayShares(s, m, i + 1, t);
    } else {
      var v := Pick(s);
      var g := Give(s, v, i);
      GiveShares(s, v, i);
      forall c | c in m && c >= i + 1 ensures !Allocated(g, c) {
        OnlyOneMore(s, v, i, c);
      }
      GiveAwayShares(g, m, i + 1, t);
      hide Sharing, Allocated;
    }
  }

  /** An end hands every core of the container that has ended to one that runs, and takes none from anybody else. */
  lemma EndShares(s: State, u: nat, d: State, t: State)
    requires Sharing(s) && u in s.running && d == Deactivate(s, u) && d.nrunning > 0
    requires d.nrunning == |d.running| && (forall v | v in d.running :: v < |d.try|) && u < |d.try| == |d.tryNum|
    requires t == EndDrep(d, u)
    ensures Sharing(t) && NoneReleased(s, t) && t.running == d.running
    ensures forall v | v in d.running :: s.try[v] <= t.try[v]
  {
    DeactivateKeepsSharing(s, u);
    forall c | c in s.try[u] ensures !Allocated(d, c) {
    }
    var g := GiveAway(d, d.try[u], 2);
    GiveAwayShares(d, d.try[u], 2, g);
    ClearOther(g, u, t);
    forall c | Allocated(s, c) ensures Allocated(t, c) {
      var k :| TriedBy(s, c, k);
      if s.running[k] != u {
        AllocatedBy(d, c, s.running[k]);
      }
      assert Allocated(g, c);
    }
  }

  lemma ClearOther(g: State, u: nat, t: State)
    requires Sharing(g) && u !in g.running && u < |g.try|
    requires t == g.(try := g.try[u := {}], tryNum := g.tryNum[u := 0])
    ensures Sharing(t) && NoneReleased(g, t)
  {
    WantsOf(g, t);
    hide Wants;
    forall c | Allocated(g, c) ensures Allocated(t, c) {
      var k :| TriedBy(g, c, k);
      assert g.running[k] in g.running;
      assert TriedBy(t, c, k);
    }
  }

  // ---------------------------------------------------------------------------------------------
  // The guarantee: nobody is left without a core, as far as one pass over the list goes
  // ---------------------------------------------------------------------------------------------

  /** Every container that runs counts its cores. */
  function Recount(s: State): (t: State)
    requires |s.try| == |s.tryNum|
    ensures |t.tryNum| == |s.tryNum|
  {
    s.(tryNum := seq(|s.tryNum|, v requires 0 <= v < |s.tryNum| => if v in s.running then |s.try[v]| else s.tryNum[v]))
  }

  /** A container without a core takes its own from whoever tries for it. */
  function ServeOne(s: State, u: nat): (t: State)
    requires u < |s.try| == |s.tryNum|
    ensures |t.try| == |s.try| && |t.tryNum| == |s.tryNum| && t == s.(try := t.try, tryNum := t.tryNum)
  {
    if s.tryNum[u] != 0 then s else
      s.(try := seq(|s.try|, v requires 0 <= v < |s.try| =>
           if v == u then s.try[v] + {Invariant(u)} else
           if v in s.running then s.try[v] - {Invariant(u)} else s.try[v]),
         tryNum := seq(|s.tryNum|, v requires 0 <= v < |s.tryNum| =>
           if v == u then 1 else
           if v in s.running && Invariant(u) in s.try[v] then s.tryNum[v] - 1 else s.tryNum[v]))
  }

  function ServeUpTo(s: State, k: nat): (t: State)
    requires |s.try| == |s.tryNum| && k <= |s.running| && (forall v | v in s.running :: v < |s.try|)
    ensures |t.try| == |s.try| && |t.tryNum| == |s.tryNum| && t == s.(try := t.try, tryNum := t.tryNum)
    decreases k
  {
    if k == 0 then s else
      assert s.running[k - 1] in s.running;
      ServeOne(ServeUpTo(s, k - 1), s.running[k - 1])
  }

  function Guarantee(s: State): State
    requires |s.try| == |s.tryNum| && (forall v | v in s.running :: v < |s.try|)
  {
    ServeUpTo(Recount(s), |s.running|)
  }

  /** What needy containers take, among the first k of the list: a container is needy when all its cores are taken. */
  function TakenBy(s: State, k: nat): set<nat>
    requires k <= |s.running| && (forall v | v in s.running :: v < |s.try|)
    decreases k, 1
  {
    if k == 0 then {} else
      TakenBy(s, k - 1) + (if Needy(s, k - 1) then {Invariant(s.running[k - 1])} else {})
  }

  predicate Needy(s: State, k: nat)
    requires k < |s.running| && (forall v | v in s.running :: v < |s.try|)
    decreases k, 2
  {
    assert s.running[k] in s.running;
    s.try[s.running[k]] <= TakenBy(s, k)
  }

  /** What a container of the list has once the first k are served. */
  function Served(s: State, k: nat, q: nat): set<nat>
    requires k <= |s.running| && q < |s.running| && (forall v | v in s.running :: v < |s.try|)
  {
    assert s.running[q] in s.running;
    if q < k && Needy(s, q) then {Invariant(s.running[q])} else s.try[s.running[q]] - TakenBy(s, k)
  }

  ghost predicate ServedAt(s: State, t: State, k: nat, q: int)
    requires k <= |s.running| && (forall v | v in s.running :: v < |s.try|)
  {
    0 <= q < |s.running| && s.running[q] < |t.try| == |t.tryNum| ==>
      t.try[s.running[q]] == Served(s, k, q) && t.tryNum[s.running[q]] == |t.try[s.running[q]]|
  }

  lemma {:induction false} TakenAreInvariants(s: State, k: nat, c: nat)
    requires k <= |s.running| && (forall v | v in s.running :: v < |s.try|) && c in TakenBy(s, k)
    ensures exists j: nat :: j < k && TakerAt(s, j, c)
    decreases k
  {
    if c in TakenBy(s, k - 1) {
      TakenAreInvariants(s, k - 1, c);
    } else {
      assert TakerAt(s, k - 1, c);
    }
  }

  /** The container at place j of the list is needy, and the core is its own. */
  predicate TakerAt(s: State, j: nat, c: nat)
    requires forall v | v in s.running :: v < |s.try|
  {
    j < |s.running| && Needy(s, j) && c == Invariant(s.running[j])
  }

  lemma {:induction false} NeedyTakes(s: State, k: nat, q: nat)
    requires k <= |s.running| && (forall v | v in s.running :: v < |s.try|) && q < k && Needy(s, q)
    ensures Invariant(s.running[q]) in TakenBy(s, k)
    decreases k
  {
    if q < k - 1 {
      NeedyTakes(s, k - 1, q);
    }
  }

  lemma NeedyIs(s: State, t: State, k: nat)
    requires k < |s.running| && (forall v | v in s.running :: v < |s.try|) && s.running[k] in s.running
    requires |t.try| == |t.tryNum| == |s.try| && ServedAt(s, t, k, k)
    ensures t.tryNum[s.running[k]] == 0 <==> Needy(s, k)
    ensures t.tryNum[s.running[k]] == 0 <==> t.try[s.running[k]] == {}
  {
    var m := t.try[s.running[k]];
    assert |m| == 0 <==> m == {};
  }

  /** Serving the next container of the list, seen from any container of the list. */
  lemma ServeNext(s: State, t: State, k: nat, q: nat)
    requires k < |s.running| && q < |s.running| && (forall v | v in s.running :: v < |s.try|)
    requires |t.try| == |t.tryNum| == |s.try| && t.running == s.running
    requires forall i, j | 0 <= i < j < |s.running| :: s.running[i] != s.running[j]
    requires ServedAt(s, t, k, k) && ServedAt(s, t, k, q)
    ensures s.running[k] < |t.try| && ServedAt(s, ServeOne(t, s.running[k]), k + 1, q)
  {
    hide Needy, TakenBy, ServeOne, Served;
    var u, v := s.running[k], s.running[q];
    assert u in s.running && v in s.running;
    assert q != k ==> u != v;
    NeedyIs(s, t, k);
    ServeOneAt(t, u, v);
    TakenNext(s, k);
    ServedNext(s, k, q);
  }

  /** What the turn of container u does to container v. */
  lemma ServeOneAt(t: State, u: nat, v: nat)
    requires u < |t.try| == |t.tryNum| && v < |t.try| && v in t.running
    ensures var n := ServeOne(t, u);
      if t.tryNum[u] != 0 then n == t
      else if u == v then n.try[v] == t.try[v] + {Invariant(u)} && n.tryNum[v] == 1
      else n.try[v] == t.try[v] - {Invariant(u)} && (t.tryNum[v] == |t.try[v]| ==> n.tryNum[v] == |n.try[v]|)
  {
  }

  lemma ServedNext(s: State, k: nat, q: nat)
    requires k < |s.running| && q < |s.running| && (forall v | v in s.running :: v < |s.try|)
    requires forall i, j | 0 <= i < j < |s.running| :: s.running[i] != s.running[j]
    ensures Served(s, k + 1, q) ==
      if !Needy(s, k) then Served(s, k, q)
      else if q == k then {Invariant(s.running[k])}
      else Served(s, k, q) - {Invariant(s.running[k])}
  {
    hide Needy, TakenBy;
    TakenNext(s, k);
    assert s.running[q] in s.running;
    assert q != k ==> s.running[q] != s.running[k];
  }

  lemma TakenNext(s: State, k: nat)
    requires k < |s.running| && (forall v | v in s.running :: v < |s.try|)
    ensures TakenBy(s, k + 1) == TakenBy(s, k) + (if Needy(s, k) then {Invariant(s.running[k])} else {})
  {
  }

  lemma {:induction false} SameNeeds(s: State, t: State, k: nat)
    requires k <= |s.running| && (forall v | v in s.running :: v < |s.try|) && t.running == s.running && t.try == s.try
    ensures TakenBy(t, k) == TakenBy(s, k)
    ensures k < |s.running| ==> (Needy(t, k) <==> Needy(s, k))
    decreases k
  {
    if k > 0 {
      SameNeeds(s, t, k - 1);
    }
  }

  lemma {:induction false} ServedUpTo(s: State, k: nat, t: State)
    requires Shape(s) && k <= |s.running| && t == ServeUpTo(s, k)
    requires forall u | u in s.running :: NumberAt(s, u)
    ensures forall q | 0 <= q < |s.running| :: ServedAt(s, t, k, q)
    decreases k
  {
    if k == 0 {
      forall q | 0 <= q < |s.running| ensures ServedAt(s, t, k, q) {
        assert s.running[q] in s.running;
      }
    } else {
      var r := ServeUpTo(s, k - 1);
      ServedUpTo(s, k - 1, r);
      forall q | 0 <= q < |s.running| ensures ServedAt(s, t, k, q) {
        hide ServeUpTo, ServedAt, ServeOne;
        ServeNext(s, r, k - 1, q);
        ServeStep(s, k);
      }
    }
  }

  lemma ServeStep(s: State, k: nat)
    requires |s.try| == |s.tryNum| && 0 < k <= |s.running| && (forall v | v in s.running :: v < |s.try|)
    ensures s.running[k - 1] < |s.try| && ServeUpTo(s, k) == ServeOne(ServeUpTo(s, k - 1), s.running[k - 1])
  {
    assert s.running[k - 1] in s.running;
  }

  /** What the pass over the list comes to: a needy container has its own core and no other; any other container has
      what needy ones have left to it. */
  lemma GuaranteeIs(s: State, g: State, q: nat)
    requires Shape(s) && g == Guarantee(s) && q < |s.running|
    ensures g == s.(try := g.try, tryNum := g.tryNum) && |g.try| == |g.tryNum| == |s.try| && s.running[q] < |g.try|
    ensures g.try[s.running[q]] == Served(s, |s.running|, q) && g.tryNum[s.running[q]] == |g.try[s.running[q]]|
  {
    var r := Recount(s);
    assert s.running[q] in s.running;
    ServedUpTo(r, |s.running|, g);
    assert ServedAt(r, g, |s.running|, q);
    SameNeeds(s, r, |s.running|);
    SameNeeds(s, r, q);
  }

  lemma AllServed(s: State, g: State)
    requires Shape(s) && g == Guarantee(s)
    ensures g == s.(try := g.try, tryNum := g.tryNum) && |g.try| == |g.tryNum| == |s.try|
    ensures forall q | 0 <= q < |s.running| :: ServedAt(s, g, |s.running|, q)
  {
    hide Needy, Guarantee, Served;
    GuaranteeFrame(s, g);
    forall q | 0 <= q < |s.running| ensures ServedAt(s, g, |s.running|, q) {
      GuaranteeIs(s, g, q);
    }
  }

  lemma GuaranteeFrame(s: State, g: State)
    requires Shape(s) && g == Guarantee(s)
    ensures g == s.(try := g.try, tryNum := g.tryNum) && |g.try| == |g.tryNum| == |s.try|
  {
  }

  /** The guarantee keeps the masks apart and leaves no core idle that somebody tried for. */
  lemma GuaranteeShares(s: State, g: State)
    requires Sharing(s) && g == Guarantee(s)
    ensures Sharing(g) && Numbers(g) && NoneReleased(s, g)
  {
    AllServed(s, g);
    WantsOf(s, g);
    hide Wants, Guarantee;
    GuaranteeMasks(s, g);
    GuaranteeDisjoint(s, g);
    forall c | Allocated(s, c) ensures Allocated(g, c) {
      GuaranteeReleasesNone(s, g, c);
    }
  }

  lemma GuaranteeMasks(s: State, g: State)
    requires Shape(s) && Masks(s) && g == s.(try := g.try, tryNum := g.tryNum) && |g.try| == |g.tryNum| == |s.try|
    requires forall q | 0 <= q < |s.running| :: ServedAt(s, g, |s.running|, q)
    ensures Masks(g) && Numbers(g)
  {
    forall u | u in g.running && u < |g.try| ensures CoresOf(g.nproc, g.try[u]) && NumberAt(g, u) {
      var q :| 0 <= q < |s.running| && s.running[q] == u;
      assert ServedAt(s, g, |s.running|, q);
      hide Needy, TakenBy;
    }
  }

  lemma GuaranteeDisjoint(s: State, g: State)
    requires Shape(s) && Disjoint(s) && g == s.(try := g.try, tryNum := g.tryNum) && |g.try| == |g.tryNum| == |s.try|
    requires forall q | 0 <= q < |s.running| :: ServedAt(s, g, |s.running|, q)
    ensures Disjoint(g)
  {
    forall u, v | u in g.running && v in g.running && u < |g.try| && v < |g.try|
      && u != v ensures g.try[u] !! g.try[v] {
      var p :| 0 <= p < |s.running| && s.running[p] == u;
      var q :| 0 <= q < |s.running| && s.running[q] == v;
      assert ServedAt(s, g, |s.running|, p) && ServedAt(s, g, |s.running|, q);
      if Needy(s, p) { NeedyTakes(s, |s.running|, p); }
      if Needy(s, q) { NeedyTakes(s, |s.running|, q); }
      hide Needy, TakenBy;
    }
  }

  lemma GuaranteeReleasesNone(s: State, g: State, c: nat)
    requires Shape(s) && g == s.(try := g.try, tryNum := g.tryNum) && |g.try| == |g.tryNum| == |s.try|
    requires forall q | 0 <= q < |s.running| :: ServedAt(s, g, |s.running|, q)
    requires Allocated(s, c)
    ensures Allocated(g, c)
  {
    var n := |s.running|;
    var k :| TriedBy(s, c, k);
    assert ServedAt(s, g, n, k);
    if c in TakenBy(s, n) {
      TakenAreInvariants(s, n, c);
      var j: nat :| j < n && TakerAt(s, j, c);
      assert ServedAt(s, g, n, j) && s.running[j] in s.running;
      assert TriedBy(g, c, j);
    } else {
      if Needy(s, k) {
        TakenGrows(s, k, n);
      }
      assert TriedBy(g, c, k);
    }
  }

  lemma {:induction false} TakenGrows(s: State, j: nat, k: nat)
    requires j <= k <= |s.running| && (forall v | v in s.running :: v < |s.try|)
    ensures TakenBy(s, j) <= TakenBy(s, k)
    decreases k
  {
    if j < k {
      TakenGrows(s, j, k - 1);
    }
  }

  /** The own cores of the containers of n among the first k of the list. */
  ghost function OwnAmong(s: State, n: set<nat>, k: nat): set<nat> {
    set q: nat | q < k && q < |s.running| && q in n :: Invariant(s.running[q])
  }

  /** Before the call: container q of the list is in n if all its cores are own cores of earlier containers of n, and
      otherwise it has a core that is the own core of none of them, earlier or later. */
  ghost predicate YieldAt(s: State, n: set<nat>, q: nat)
    requires q < |s.running| && (forall v | v in s.running :: v < |s.try|)
  {
    assert s.running[q] in s.running;
    var m := s.try[s.running[q]];
    if q in n then m <= OwnAmong(s, n, q) else !(m <= OwnAmong(s, n, |s.running|))
  }

  ghost predicate Yield(s: State, n: set<nat>)
    requires forall v | v in s.running :: v < |s.try|
  {
    forall q: nat | q < |s.running| :: YieldAt(s, n, q)
  }

  ghost predicate EverybodyHasACore(g: State) {
    forall q: nat | q < |g.running| :: HasACore(g, q)
  }

  /** The pass leaves everybody a core if and only if the masks before it allow such a set of containers. */
  lemma NobodyIsLeftOutExactly(s: State, g: State)
    requires Shape(s) && g == Guarantee(s)
    ensures EverybodyHasACore(g) <==> exists n :: Yield(s, n)
  {
    AllServed(s, g);
    hide Guarantee, HasACore, KeepsACore, Needy, YieldAt;
    forall q: nat | q < |s.running| ensures HasACore(g, q) <==> Needy(s, q) || KeepsACore(s, q) {
      HasACoreExactly(s, g, q);
    }
    var needy := NeedyOnes(s);
    if EverybodyHasACore(g) {
      forall q: nat | q < |s.running| ensures YieldAt(s, needy, q) {
        NeedyYields(s, q);
      }
      assert Yield(s, needy);
    }
    if n :| Yield(s, n) {
      forall q: nat | q < |s.running| ensures Needy(s, q) || KeepsACore(s, q) {
        YieldIsNeedy(s, n, q);
      }
    }
  }

  ghost function NeedyOnes(s: State): set<nat>
    requires forall v | v in s.running :: v < |s.try|
  {
    set q: nat | q < |s.running| && Needy(s, q)
  }

  lemma {:induction false} TakenAreOwn(s: State, n: set<nat>, k: nat)
    requires k <= |s.running| && (forall v | v in s.running :: v < |s.try|)
    requires forall q: nat | q < k :: q in n <==> Needy(s, q)
    ensures TakenBy(s, k) == OwnAmong(s, n, k)
    decreases k
  {
    if k > 0 {
      TakenAreOwn(s, n, k - 1);
      TakenNext(s, k - 1);
      assert OwnAmong(s, n, k) == OwnAmong(s, n, k - 1) + (if k - 1 in n then {Invariant(s.running[k - 1])} else {});
    }
  }

  lemma NeedyYields(s: State, q: nat)
    requires q < |s.running| && (forall v | v in s.running :: v < |s.try|)
    requires Needy(s, q) || KeepsACore(s, q)
    ensures YieldAt(s, NeedyOnes(s), q)
  {
    TakenAreOwn(s, NeedyOnes(s), q);
    TakenAreOwn(s, NeedyOnes(s), |s.running|);
    assert s.running[q] in s.running;
  }

  lemma {:induction false} YieldersAreNeedy(s: State, n: set<nat>, k: nat)
    requires k <= |s.running| && (forall v | v in s.running :: v < |s.try|) && Yield(s, n)
    ensures forall q: nat | q < k :: q in n <==> Needy(s, q)
    decreases k
  {
    if k > 0 {
      YieldersAreNeedy(s, n, k - 1);
      TakenAreOwn(s, n, k - 1);
      assert YieldAt(s, n, k - 1);
      assert OwnAmong(s, n, k - 1) <= OwnAmong(s, n, |s.running|);
    }
  }

  lemma YieldIsNeedy(s: State, n: set<nat>, q: nat)
    requires q < |s.running| && (forall v | v in s.running :: v < |s.try|) && Yield(s, n)
    ensures Needy(s, q) || KeepsACore(s, q)
  {
    YieldersAreNeedy(s, n, |s.running|);
    TakenAreOwn(s, n, |s.running|);
    assert YieldAt(s, n, q);
  }

  ghost predicate HasACore(g: State, q: nat) {
    q < |g.running| && g.running[q] < |g.tryNum| && g.tryNum[g.running[q]] >= 1
  }

  /** One of the cores of the container is not the own core of a needy one. */
  predicate KeepsACore(s: State, q: nat)
    requires q < |s.running| && (forall v | v in s.running :: v < |s.try|)
  {
    assert s.running[q] in s.running;
    !(s.try[s.running[q]] <= TakenBy(s, |s.running|))
  }

  lemma HasACoreExactly(s: State, g: State, q: nat)
    requires Shape(s) && g == s.(try := g.try, tryNum := g.tryNum) && |g.try| == |g.tryNum| == |s.try|
    requires q < |s.running| && ServedAt(s, g, |s.running|, q)
    ensures HasACore(g, q) <==> Needy(s, q) || KeepsACore(s, q)
  {
    assert s.running[q] in s.running;
    var m := s.try[s.running[q]] - TakenBy(s, |s.running|);
    assert m == {} <==> s.try[s.running[q]] <= TakenBy(s, |s.running|);
    assert |m| == 0 <==> m == {};
  }

  // ---------------------------------------------------------------------------------------------
  // The feedback: nobody keeps more than it wants
  // ---------------------------------------------------------------------------------------------

  /** A mask without its n lowest cores, not counting the core of its own, which stays. */
  function Kept(m: set<nat>, own: nat, nproc: nat, n: int): set<nat> {
    m - Lowest(m - {own}, 2, nproc, n)
  }

  /** platform_alloted_feedback_scheduling. */
  function Trim(s: State): (t: State)
    requires |s.try| == |s.tryNum| == |s.desired|
    ensures |t.try| == |s.try| && |t.tryNum| == |s.tryNum| && t == s.(try := t.try, tryNum := t.tryNum)
  {
    s.(try := seq(|s.try|, v requires 0 <= v < |s.try| =>
         if v in s.running then Kept(s.try[v], Invariant(v), s.nproc, s.tryNum[v] - s.desired[v]) else s.try[v]),
       tryNum := seq(|s.tryNum|, v requires 0 <= v < |s.tryNum| =>
         if v in s.running then Min(s.tryNum[v], s.desired[v]) else s.tryNum[v]))
  }

  lemma KeptIs(m: set<nat>, own: nat, nproc: nat, wanted: int, k: set<nat>)
    requires CoresOf(nproc, m) && wanted >= 1 && k == Kept(m, own, nproc, |m| - wanted)
    ensures k <= m && |k| == Min(|m|, wanted) && (own in m ==> own in k)
  {
    hide Lowest, From;
    var o := m - {own};
    var d := Lowest(o, 2, nproc, |m| - wanted);
    LowestAreOfTheMask(o, 2, nproc, |m| - wanted);
    AllFrom(o);
    assert d <= o;
    if |m| <= wanted {
      NoneLowest(o, 2, nproc, |m| - wanted);
    }
    Remainder(m, d);
  }

  lemma AllFrom(m: set<nat>)
    requires forall c | c in m :: c >= 2
    ensures From(m, 2) == m
  {
  }

  lemma NoneLowest(m: set<nat>, i: nat, nproc: nat, n: int)
    requires n <= 0
    ensures Lowest(m, i, nproc, n) == {}
  {
  }

  lemma Remainder(m: set<nat>, d: set<nat>)
    requires d <= m
    ensures |m - d| == |m| - |d|
  {
    assert m == (m - d) + d;
  }

  /** After the feedback everybody tries for as many cores as it has, and for no more than it wants; nobody gets a core
      by it, and nobody loses the core of its own. */
  lemma TrimSettles(s: State, t: State)
    requires Sharing(s) && Numbers(s) && t == Trim(s)
    ensures Inv(t)
    ensures forall v | v in s.running && v < |s.try| :: t.try[v] <= s.try[v]
    ensures forall v | v in s.running && v < |s.try| :: t.tryNum[v] == Min(s.tryNum[v], s.desired[v])
    ensures forall v | v in s.running && v < |s.try| :: Invariant(v) in s.try[v] ==> Invariant(v) in t.try[v]
  {
    WantsOf(s, t);
    forall v | v in s.running && v < |s.try|
      ensures t.try[v] <= s.try[v] && NumberAt(t, v) && t.tryNum[v] <= t.desired[v]
      ensures Invariant(v) in s.try[v] ==> Invariant(v) in t.try[v]
    {
      TrimOne(s, t, v);
    }
    hide Wants, Trim, Kept;
  }

  lemma TrimOne(s: State, t: State, v: nat)
    requires Sharing(s) && Numbers(s) && t == Trim(s) && v in s.running && v < |s.try|
    ensures t.try[v] <= s.try[v] && NumberAt(t, v) && t.tryNum[v] == Min(s.tryNum[v], s.desired[v])
    ensures Invariant(v) in s.try[v] ==> Invariant(v) in t.try[v]
  {
    assert WantsAt(s, v) && NumberAt(s, v);
    KeptIs(s.try[v], Invariant(v), s.nproc, s.desired[v], t.try[v]);
  }

  /** platform_verify_scheduling: -1 if somebody tries for more than it wants. */
  function Verify(s: State): int
    requires |s.tryNum| == |s.desired| && (forall v | v in s.running :: v < |s.tryNum|)
  {
    if exists v | v in s.running :: s.tryNum[v] > s.desired[v] then -1 else 0
  }

  // ---------------------------------------------------------------------------------------------
  // From time to time: what a container wants
  // ---------------------------------------------------------------------------------------------

  /** Half as many cores if they are not used well, twice as many if all that was wanted was had. */
  function NewWish(desired: int, tryNum: int, efficient: bool, nproc: int): int {
    if !efficient then Min(Max(desired / 2, 1), nproc - 2) else
    if desired == tryNum then Min(Max(desired * 2, 1), nproc - 2) else desired
  }

  /** Whether a job of the container has started, and whether its cores were used well. */
  datatype Report = Report(started: bool, efficient: bool)

  function Analyze(s: State, reports: seq<Report>): (t: State)
    requires |s.desired| == |s.tryNum| == |reports|
    ensures t == s.(desired := t.desired) && |t.desired| == |s.desired|
  {
    s.(desired := seq(|s.desired|, v requires 0 <= v < |s.desired| =>
      if v in s.running && reports[v].started then NewWish(s.desired[v], s.tryNum[v], reports[v].efficient, s.nproc)
      else s.desired[v]))
  }

  lemma AnalyzeKeepsSharing(s: State, reports: seq<Report>, t: State)
    requires Inv(s) && |reports| == |s.desired| && t == Analyze(s, reports)
    ensures Sharing(t)
  {
    forall v | 0 <= v < |t.desired| ensures WantsAt(t, v) {
      assert WantsAt(s, v);
    }
  }

  // ---------------------------------------------------------------------------------------------
  // One call, and runs of calls
  // ---------------------------------------------------------------------------------------------

  datatype Event = Start(u: nat) | End(u: nat) | Tick(reports: seq<Report>)

  /** A container starts that does not run, one ends that runs, and a tick reports on all. */
  predicate Possible(s: State, e: Event) {
    match e
    case Start(u) => u < |s.try| && u !in s.running
    case End(u) => u in s.running
    case Tick(reports) => |reports| == |s.try|
  }

  /** What the call decides before the guarantee. */
  ghost function Decide(s: State, e: Event): State
    requires Shape(s) && Possible(s, e)
  {
    match e
    case Start(u) => StartDrep(Activate(s, u), u)
    case End(u) =>
      WithoutIs(s.running, u);
      var d := Deactivate(s, u);
      if d.nrunning == 0 then d else EndDrep(d, u)
    case Tick(reports) => if s.nrunning == 0 then s else Analyze(s, reports)
  }

  /** The whole call: with nobody left to run, nothing is scheduled. */
  ghost function After(s: State, e: Event): State
    requires Inv(s) && Possible(s, e)
  {
    var d := Decide(s, e);
    if d.running == [] then d else
      assert Sharing(d) by { DecideShares(s, e, d); }
      assert Sharing(Guarantee(d)) by { GuaranteeShares(d, Guarantee(d)); }
      Trim(Guarantee(d))
  }

  lemma DecideShares(s: State, e: Event, d: State)
    requires Inv(s) && Possible(s, e) && d == Decide(s, e)
    ensures Sharing(d) && (d.running != [] ==> NoneReleased(s, d))
  {
    hide NoneReleased, StartDrep, EndDrep, Analyze;
    match e
    case Start(u) =>
      StartShares(s, u, d);
    case End(u) =>
      WithoutIs(s.running, u);
      DeactivateKeepsSharing(s, u);
      var w := Deactivate(s, u);
      if w.nrunning > 0 {
        EndShares(s, u, w, d);
      }
    case Tick(reports) =>
      SameAllocation(s, s);
      if s.nrunning > 0 {
        AnalyzeKeepsSharing(s, reports, d);
        SameAllocation(s, d);
      }
  }

  lemma SameAllocation(s: State, t: State)
    requires t.running == s.running && t.try == s.try
    ensures NoneReleased(s, t)
  {
    forall c | Allocated(s, c) ensures Allocated(t, c) {
      var k :| TriedBy(s, c, k);
      assert TriedBy(t, c, k);
    }
  }

  /** What holds between two calls holds after the next one. */
  lemma CallKeepsInv(s: State, e: Event, t: State)
    requires Inv(s) && Possible(s, e) && t == After(s, e)
    ensures Inv(t)
  {
    var d := Decide(s, e);
    DecideShares(s, e, d);
    hide Decide, Guarantee, Trim, Wants;
    if d.running == [] {
      NobodyRuns(d);
    } else {
      var g := Guarantee(d);
      GuaranteeShares(d, g);
      TrimSettles(g, t);
    }
  }

  lemma NobodyRuns(s: State)
    requires Sharing(s) && s.running == []
    ensures Inv(s)
  {
    hide Wants;
  }

  /** Only the feedback leaves a core idle that somebody tried for, unless the last container has ended. */
  lemma OnlyTheFeedbackReleases(s: State, e: Event, d: State)
    requires Inv(s) && Possible(s, e) && d == Decide(s, e) && d.running != []
    ensures Sharing(d) && NoneReleased(s, d) && NoneReleased(s, Guarantee(d))
  {
    DecideShares(s, e, d);
    hide Decide, Guarantee, NoneReleased, Sharing;
    GuaranteeShares(d, Guarantee(d));
  }

  /** The calls that abort the platform cannot be reached: the check after the feedback passes, nobody is found to try
      for more than it wants, and nobody comes to want nothing. */
  lemma NobodyAborts(s: State, e: Event, t: State)
    requires Inv(s) && Possible(s, e) && t == After(s, e)
    ensures Inv(t) && Verify(t) == 0
    ensures forall v | v in s.running :: v < |s.try| && s.tryNum[v] <= s.desired[v] && s.desired[v] > 0
  {
    CallKeepsInv(s, e, t);
    ContentVerifies(t);
    forall v | v in s.running ensures v < |s.try| && s.tryNum[v] <= s.desired[v] && s.desired[v] > 0 {
      assert WantsAt(s, v);
    }
  }

  lemma ContentVerifies(t: State)
    requires Shape(t) && Content(t)
    ensures Verify(t) == 0
  {
  }

  /** Calls one after the other, each possible after the ones before. */
  ghost predicate IsRun(states: seq<State>, events: seq<Event>) {
    && |states| == |events| + 1
    && Sharing(states[0]) && states[0].running == []
    && forall j | 0 <= j < |events| :: StepOf(states[j], events[j], states[j + 1])
  }

  ghost predicate StepOf(s: State, e: Event, t: State) {
    Inv(s) ==> Possible(s, e) && t == After(s, e)
  }

  /** Over any run of starts, ends and ticks from a state with no container running. */
  lemma {:induction false} RunKeepsInv(states: seq<State>, events: seq<Event>, k: nat)
    requires IsRun(states, events) && k <= |events|
    ensures Inv(states[k])
    decreases k
  {
    hide Inv, Sharing, After, Possible;
    if k == 0 {
      NobodyRuns(states[0]);
    } else {
      RunKeepsInv(states, events, k - 1);
      assert StepOf(states[k - 1], events[k - 1], states[k]);
      CallKeepsInv(states[k - 1], events[k - 1], states[k]);
    }
  }

  // ---------------------------------------------------------------------------------------------
  // One pass is not enough
  // ---------------------------------------------------------------------------------------------

  const SEED: nat := 7 * 162347

  /** Nobody runs yet on five cores, with room for three containers that want all cores. */
  function Fresh(): State {
    State(5, [], 0, [{}, {}, {}], [0, 0, 0], [3, 3, 3], SEED)
  }

  lemma AllLowest(m: set<nat>, nproc: nat, n: int)
    requires CoresOf(nproc, m) && n >= |m|
    ensures Lowest(m, 2, nproc, n) == m
  {
    LowestAreOfTheMask(m, 2, nproc, n);
    assert From(m, 2) == m;
    Remainder(m, Lowest(m, 2, nproc, n));
  }

  lemma PicksOf(drawn: set<nat>, idle: set<nat>, nproc: nat)
    requires CoresOf(nproc, drawn) && (idle == drawn || idle == {})
    ensures Lowest(idle, 2, nproc, |drawn|) == idle
    ensures Lowest(drawn, 2, nproc, |drawn| - |idle|) == drawn - idle
  {
    hide Lowest;
    AllLowest(idle, nproc, |drawn|);
    if idle == drawn {
      NoneLowest(drawn, 2, nproc, 0);
    } else {
      AllLowest(drawn, nproc, |drawn|);
    }
  }

  /** A start whose draws and idle cores are known, when all drawn cores are idle or no core is. */
  lemma StartsAs(a: State, u: nat, drawn: set<nat>, idle: set<nat>)
    requires u < |a.try| && a.nrunning > 0 && a.nproc >= 2
    requires drawn == Drawn(a.rand, a.nrunning, 2, a.nproc) && idle == Idle(Clear(a, u))
    requires idle == drawn || idle == {}
    ensures StartDrep(a, u) == Hand(Clear(a, u), u, idle, drawn - idle).(rand := AfterDraws(a.rand, 2, a.nproc))
  {
    hide Drawn, Idle, Hand, Clear, AfterDraws, Lowest, StartDrep;
    DrawnAreCores(a.rand, a.nrunning, 2, a.nproc);
    PicksOf(drawn, idle, a.nproc);
    StartIs(a, u, idle, drawn - idle);
  }

  lemma IdleAre(c: State, idle: set<nat>)
    requires c.nproc == 5 && idle <= {2, 3, 4}
    requires (2 in idle <==> !Allocated(c, 2)) && (3 in idle <==> !Allocated(c, 3)) && (4 in idle <==> !Allocated(c, 4))
    ensures Idle(c) == idle
  {
    hide Allocated;
  }

  lemma DrawsOfThree(r: nat, n: nat, r1: nat, r2: nat, r3: nat)
    requires n > 0 && r1 == NextRand(r) && r2 == NextRand(r1) && r3 == NextRand(r2)
    ensures Drawn(r, n, 2, 5) == (if (r1 / 65536) % n == 0 then {2} else {})
      + (if (r2 / 65536) % n == 0 then {3} else {}) + (if (r3 / 65536) % n == 0 then {4} else {})
    ensures AfterDraws(r, 2, 5) == r3
  {
    hide NextRand;
  }

  function AfterFirst(): State { State(5, [0], 1, [{2, 3, 4}, {}, {}], [3, 0, 0], [3, 3, 3], 2151995056) }

  function AfterSecond(): State { State(5, [0, 2], 2, [{2, 4}, {}, {3}], [2, 0, 1], [3, 3, 3], 3108581967) }

  function ThirdDecision(): State { State(5, [0, 2, 1], 3, [{2, 4}, {}, {3}], [2, 0, 1], [3, 3, 3], 2034875834) }

  lemma ThreeMasks(m: seq<set<nat>>, m0: set<nat>, m1: set<nat>, m2: set<nat>)
    requires |m| == 3 && m[0] == m0 && m[1] == m1 && m[2] == m2
    ensures m == [m0, m1, m2]
  {
  }

  lemma FirstStart()
    ensures StartDrep(Activate(Fresh(), 0), 0) == AfterFirst().(tryNum := [0, 0, 0])
  {
    hide StartDrep, Idle, Drawn, Lowest, AfterDraws;
    var a := Activate(Fresh(), 0);
    var c := Clear(a, 0);
    DrawsOfThree(SEED, 1, 700449890, 2380524019, 2151995056);
    IdleAre(c, {2, 3, 4});
    assert {2} + {3} + {4} == {2, 3, 4};
    var all: set<nat> := {2, 3, 4};
    assert all - all == {};
    StartsAs(a, 0, all, all);
    ThreeMasks(Hand(c, 0, {2, 3, 4}, {}).try, {2, 3, 4}, {}, {});
  }

  lemma SecondStart()
    ensures StartDrep(Activate(AfterFirst(), 2), 2) == AfterSecond().(tryNum := [3, 0, 0])
  {
    hide StartDrep, Idle, Drawn, Lowest, AfterDraws;
    var a := Activate(AfterFirst(), 2);
    var c := Clear(a, 2);
    DrawsOfThree(a.rand, 2, 1389967657, 345900206, 3108581967);
    AllocatedBy(c, 2, 0);
    AllocatedBy(c, 3, 0);
    AllocatedBy(c, 4, 0);
    IdleAre(c, {});
    var three: set<nat> := {3};
    assert three - {} == three;
    StartsAs(a, 2, three, {});
    ThreeMasks(Hand(c, 2, {}, {3}).try, {2, 4}, {}, {3});
  }

  lemma ThirdStart()
    ensures StartDrep(Activate(AfterSecond(), 1), 1) == ThirdDecision()
  {
    hide StartDrep, Idle, Drawn, Lowest, AfterDraws;
    var a := Activate(AfterSecond(), 1);
    var c := Clear(a, 1);
    DrawsOfThree(a.rand, 3, 697871836, 2401451749, 2034875834);
    AllocatedBy(c, 2, 0);
    AllocatedBy(c, 3, 2);
    AllocatedBy(c, 4, 0);
    IdleAre(c, {});
    StartsAs(a, 1, {}, {});
    ThreeMasks(Hand(c, 1, {}, {}).try, {2, 4}, {}, {3});
  }

  lemma {:induction false} NobodyServed(r: State, k: nat)
    requires |r.try| == |r.tryNum| && k <= |r.running|
    requires forall v | v in r.running :: v < |r.try| && r.tryNum[v] != 0
    ensures ServeUpTo(r, k) == r
    decreases k
  {
    if k > 0 {
      NobodyServed(r, k - 1);
      assert r.running[k - 1] in r.running;
    }
  }

  lemma NobodyTrimmed(g: State)
    requires |g.try| == |g.tryNum| == |g.desired|
    requires forall v | v in g.running && v < |g.tryNum| :: g.tryNum[v] <= g.desired[v]
    ensures Trim(g) == g
  {
    forall v | 0 <= v < |g.try| ensures Trim(g).try[v] == g.try[v] && Trim(g).tryNum[v] == g.tryNum[v] {
      if v in g.running {
        NoneLowest(g.try[v] - {Invariant(v)}, 2, g.nproc, g.tryNum[v] - g.desired[v]);
      }
    }
  }

  lemma StartThenSettle(s: State, u: nat, d: State, g: State)
    requires Inv(s) && Possible(s, Start(u)) && d == StartDrep(Activate(s, u), u)
    ensures |d.try| == |d.tryNum| == |d.desired| && (forall v | v in d.running :: v < |d.try|)
    ensures |Guarantee(d).try| == |Guarantee(d).tryNum| == |d.desired| && Guarantee(d).desired == d.desired
    ensures After(s, Start(u)) == Trim(Guarantee(d))
  {
    hide Guarantee, Trim, StartDrep, NoneReleased;
    StartShares(s, u, d);
    GuaranteeFrame(d, Guarantee(d));
    assert Decide(s, Start(u)) == d;
  }

  /** With a core for everybody and everything wanted, a start is followed by a count only. */
  lemma Counted(s: State, u: nat, d: State, t: State)
    requires Inv(s) && Possible(s, Start(u)) && d == StartDrep(Activate(s, u), u)
    requires |d.try| == |d.tryNum| == |d.desired| && (forall v | v in d.running :: v < |d.try|)
    requires t == Recount(d) && (forall v | v in d.running :: 0 < t.tryNum[v] <= d.desired[v])
    ensures After(s, Start(u)) == t
  {
    hide Inv, StartDrep, Trim, ServeUpTo;
    StartThenSettle(s, u, d, t);
    NobodyServed(t, |t.running|);
    NobodyTrimmed(t);
  }

  lemma ThreeCounts(n: seq<int>, n0: int, n1: int, n2: int)
    requires |n| == 3 && n[0] == n0 && n[1] == n1 && n[2] == n2
    ensures n == [n0, n1, n2]
  {
  }

  /** The pass takes core 3 from container 2, whose turn is over, and leaves it without any. */
  lemma ThirdGuarantee(g: State)
    requires g == ThirdDecision().(try := [{2, 4}, {3}, {}], tryNum := [2, 1, 0])
    ensures Guarantee(ThirdDecision()) == g
  {
    var r := Recount(ThirdDecision());
    ThreeCounts(r.tryNum, 2, 0, 1);
    assert ServeUpTo(r, 1) == ServeOne(ServeUpTo(r, 0), 0) == r;
    assert ServeUpTo(r, 2) == ServeOne(r, 2) == r;
    var t := ServeOne(r, 1);
    assert ServeUpTo(r, 3) == t;
    ThreeMasks(t.try, {2, 4}, {3}, {});
    ThreeCounts(t.tryNum, 2, 1, 0);
  }

  lemma FreshRuns()
    ensures Sharing(Fresh()) && Inv(Fresh())
  {
  }

  /** With the seed that the platform sets, on five cores, three starts leave a running container without a core. */
  lemma OnePassIsNotEnough() returns (states: seq<State>, events: seq<Event>)
    ensures IsRun(states, events) && states[0] == Fresh() && events == [Start(0), Start(2), Start(1)]
    ensures |states| == 4 && states[3].running == [0, 2, 1]
    ensures states[3].try == [{2, 4}, {3}, {}] && states[3].tryNum == [2, 1, 0]
  {
    hide Guarantee, Trim, After, Inv, StartDrep;
    FreshRuns();
    var a := AfterFirst().(tryNum := [0, 0, 0]);
    FirstStart();
    ThreeCounts(Recount(a).tryNum, 3, 0, 0);
    Counted(Fresh(), 0, a, AfterFirst());
    CallKeepsInv(Fresh(), Start(0), AfterFirst());
    SecondStart();
    var b := AfterSecond().(tryNum := [3, 0, 0]);
    ThreeCounts(Recount(b).tryNum, 2, 0, 1);
    Counted(AfterFirst(), 2, b, AfterSecond());
    CallKeepsInv(AfterFirst(), Start(2), AfterSecond());
    ThirdStart();
    var last := ThirdDecision().(try := [{2, 4}, {3}, {}], tryNum := [2, 1, 0]);
    StartThenSettle(AfterSecond(), 1, ThirdDecision(), last);
    ThirdGuarantee(last);
    NobodyTrimmed(last);
    states, events := [Fresh(), AfterFirst(), AfterSecond(), last], [Start(0), Start(2), Start(1)];
  }
}
