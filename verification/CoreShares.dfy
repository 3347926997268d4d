/** Who gets which cores by the draws of the platform, who loses which, and which way the wishes move. */
module CoreShares {

  import opened Commons
  import opened PlatformScheduler
  import Placement = CorePlacement

  // ---------------------------------------------------------------------------------------------
  // Wishes
  // ---------------------------------------------------------------------------------------------

  /** A container that runs, with a job that has started. */
  predicate Measured(s: State, reports: seq<Report>, u: nat) {
    u in s.running && u < |reports| && reports[u].started
  }

  /** Cores that are not used well halve the wish, to 1 at least; cores that are used well double it, to all at most, if
      all that was wanted was had, and leave it alone otherwise. */
  lemma WishesFollowUse(s: State, reports: seq<Report>, t: State, u: nat)
    requires Inv(s) && |reports| == |s.desired| && u < |s.desired| && t == Analyze(s, reports)
    ensures |t.desired| == |s.desired| && t == s.(desired := t.desired)
    ensures var d, d' := s.desired[u], t.desired[u];
            if !Measured(s, reports, u) then d' == d
            else if !reports[u].efficient then (2 * d' <= d || d' == 1) && d <= 2 * d' + 1 && d' <= d
            else if s.tryNum[u] == d then (d' == 2 * d || (d' == s.nproc - 2 && d' < 2 * d)) && d' >= d
            else d' == d
  {
    assert WantsAt(s, u);
  }

  /** Nothing but a tick changes a wish, and nothing but a start or an end the list. */
  lemma CallsChange(s: State, e: Event, t: State)
    requires Inv(s) && Possible(s, e) && t == After(s, e)
    ensures t.nproc == s.nproc && |t.try| == |s.try| == |t.desired|
    ensures t.desired == if e.Tick? && s.running != [] then Analyze(s, e.reports).desired else s.desired
    ensures match e
            case Start(u) => t.running == s.running + [u]
            case End(u) => forall v :: v in t.running <==> v in s.running && v != u
            case Tick(_) => t.running == s.running
  {
    hide Numbers, Content, Wants, Disjoint, Masks, NoneReleased;
    var d := Decide(s, e);
    DecisionChanges(s, e, d);
    if d.running != [] {
      DecideShares(s, e, d);
      GuaranteeShares(d, Guarantee(d));
      GuaranteeFrame(d, Guarantee(d));
    }
  }

  lemma DecisionChanges(s: State, e: Event, d: State)
    requires Inv(s) && Possible(s, e) && d == Decide(s, e)
    ensures d.nproc == s.nproc && |d.try| == |s.try|
    ensures d.desired == if e.Tick? && s.running != [] then Analyze(s, e.reports).desired else s.desired
    ensures match e
            case Start(u) => d.running == s.running + [u]
            case End(u) => forall v :: v in d.running <==> v in s.running && v != u
            case Tick(_) => d.running == s.running
  {
    hide Numbers, Content, Wants, Disjoint, Masks, Lowest, Drawn, Idle, GiveAway;
    match e
    case Start(u) =>
    case End(u) =>
      WithoutIs(s.running, u);
      var w := Deactivate(s, u);
      if w.nrunning > 0 {
        GiveAwayShape(w, w.try[u], 2);
      }
    case Tick(_) =>
  }

  // ---------------------------------------------------------------------------------------------
  // Draws
  // ---------------------------------------------------------------------------------------------

  /** The generator after k draws. */
  function RandAfter(r: nat, k: nat): nat
    decreases k
  {
    if k == 0 then r else RandAfter(NextRand(r), k - 1)
  }

  /** Core c is drawn for a new container if and only if the draw that is its turn is a multiple of their number. */
  lemma {:induction false} DrawnIs(r: nat, n: nat, i: nat, nproc: nat, c: nat)
    requires n > 0
    ensures c in Drawn(r, n, i, nproc) <==> i <= c < nproc && Draw(RandAfter(r, c - i)) % n == 0
    ensures i <= nproc ==> AfterDraws(r, i, nproc) == RandAfter(r, nproc - i)
    decreases nproc - i
  {
    hide NextRand, Draw;
    if i < nproc {
      DrawnIs(NextRand(r), n, i + 1, nproc, c);
      if c > i {
        assert RandAfter(r, c - i) == RandAfter(NextRand(r), c - (i + 1));
      }
    }
  }

  /** The inverse of the factor of the generator, modulo 2^32. */
  const INVERSE: nat := 4005161829

  lemma Congruent(x: nat, z: int)
    requires x < RAND_RANGE
    ensures (x + z * RAND_RANGE) % RAND_RANGE == x
  {
  }

  /** Every word is the next one of another word. */
  lemma EveryWordComesNext(x: nat) returns (r: nat)
    requires x < RAND_RANGE
    ensures r < RAND_RANGE && NextRand(r) == x
  {
    var y := x + RAND_RANGE - 12345;
    var q := INVERSE * y / RAND_RANGE;
    r := INVERSE * y % RAND_RANGE;
    assert INVERSE * y == q * RAND_RANGE + r;
    var z := 1 + 1029054899 * y - 1103515245 * q;
    assert r * 1103515245 + 12345 == x + z * RAND_RANGE by {
      assert INVERSE * 1103515245 == 1 + 1029054899 * RAND_RANGE;
    }
    Congruent(x, z);
  }

  predicate Draws(r: nat, n: nat, k: nat)
    requires n > 0
  {
    r < RAND_RANGE && Draw(r) % n == k
  }

  lemma DrawOfWord(r: nat, k: nat)
    ensures Draw(r) < 65536 && (NextRand(r) == k * 65536 ==> Draw(r) == k)
  {
  }

  lemma SmallRemainder(k: nat, n: nat)
    requires k < n
    ensures k % n == k
  {
  }

  /** Of n places every one can be drawn, as long as there are no more than the generator's 65536 results. */
  lemma EveryPlaceIsDrawnExactly(n: nat, k: nat)
    requires k < n
    ensures (exists r: nat :: Draws(r, n, k)) <==> k < 65536
  {
    hide NextRand, Draw;
    if k < 65536 {
      var r := EveryWordComesNext(k * 65536);
      DrawOfWord(r, k);
      SmallRemainder(k, n);
      assert Draws(r, n, k);
    } else {
      forall r: nat ensures !Draws(r, n, k) {
        DrawOfWord(r, k);
        SmallRemainder(Draw(r), n);
      }
    }
  }

  /** The container at the drawn place of the list is picked: whichever runs, some state of the generator picks it. */
  lemma EverybodyIsPicked(s: State, k: nat)
    requires s.nrunning == |s.running| && k < |s.running| <= 65536
    ensures exists r: nat :: r < RAND_RANGE && Pick(s.(rand := r)) == s.running[k]
  {
    EveryPlaceIsDrawnExactly(|s.running|, k);
    var r: nat :| Draws(r, |s.running|, k);
    hide NextRand, Draw;
    assert Pick(s.(rand := r)) == s.running[k];
  }

  // ---------------------------------------------------------------------------------------------
  // Who gets and who loses
  // ---------------------------------------------------------------------------------------------

  /** No core of the set is passed over for a higher one. */
  ghost predicate LowestOf(picked: set<nat>, m: set<nat>) {
    picked <= m && forall c, d | c in picked && d in m && d < c :: d in picked
  }

  lemma {:induction false} LowestComeFirst(m: set<nat>, i: nat, nproc: nat, n: int)
    ensures forall c, d | c in Lowest(m, i, nproc, n) && d in m && i <= d < c :: d in Lowest(m, i, nproc, n)
    decreases nproc - i
  {
    if i < nproc && n > 0 {
      LowestComeFirst(m, i + 1, nproc, if i in m then n - 1 else n);
    }
  }

  lemma LowestOfCores(m: set<nat>, nproc: nat, n: int, picked: set<nat>)
    requires CoresOf(nproc, m) && picked == Lowest(m, 2, nproc, n) && n >= 0
    ensures LowestOf(picked, m) && |picked| == Min(n, |m|)
  {
    LowestComeFirst(m, 2, nproc, n);
    LowestAreOfTheMask(m, 2, nproc, n);
    assert From(m, 2) == m;
    hide Lowest;
  }

  /** The cores that no container tries for. */
  ghost function Free(s: State): set<nat> {
    set c: nat | 0 <= c < s.nproc && IsCore(c, s.nproc) && !Allocated(s, c)
  }

  /** A new container gets as many cores as were drawn for it: idle ones, the lowest, and only if there are not enough
      of these the lowest drawn ones for the rest, which the others lose and nothing else. */
  lemma StartTakes(s: State, u: nat, t: State, drawn: set<nat>) returns (idle: set<nat>, taken: set<nat>)
    requires Sharing(s) && Possible(s, Start(u)) && t == Decide(s, Start(u))
    requires drawn == Drawn(s.rand, |s.running| + 1, 2, s.nproc)
    ensures LowestOf(idle, Free(s)) && |idle| == Min(|drawn|, |Free(s)|)
    ensures LowestOf(taken, drawn) && |taken| == |drawn| - |idle|
    ensures |t.try| == |s.try| && t.try[u] == idle + taken
    ensures forall v | v in s.running :: v < |s.try| && t.try[v] == s.try[v] - taken
    ensures t.rand == RandAfter(s.rand, s.nproc - 2)
  {
    hide *;
    var a := Activate(s, u);
    DecidesByDraws(s, u, t);
    StartsFrom(s, u, a, drawn);
    var c := Clear(a, u);
    SameFree(s, u, c);
    FreeAreCores(s);
    idle := Lowest(Idle(c), 2, s.nproc, |drawn|);
    taken := Lowest(drawn, 2, s.nproc, |drawn| - |idle|);
    LowestOfCores(Free(s), s.nproc, |drawn|, idle);
    LowestOfCores(drawn, s.nproc, |drawn| - |idle|, taken);
    StartIs(a, u, idle, taken);
    HandsOver(s, u, a, idle, taken, t);
  }

  lemma DecidesByDraws(s: State, u: nat, t: State)
    requires Sharing(s) && Possible(s, Start(u)) && t == Decide(s, Start(u))
    ensures u < |s.try| && u !in s.running && Activate(s, u).nrunning >= 0 && |Activate(s, u).try| == |s.try|
    ensures t == StartDrep(Activate(s, u), u)
  {
    hide StartDrep, Masks, Disjoint, Wants;
  }

  lemma StartsFrom(s: State, u: nat, a: State, drawn: set<nat>)
    requires Sharing(s) && u < |s.try| && a == Activate(s, u)
    requires drawn == Drawn(s.rand, |s.running| + 1, 2, s.nproc)
    ensures a.nrunning == |s.running| + 1 && a.nproc == s.nproc && a.rand == s.rand && |a.try| == |s.try|
    ensures CoresOf(s.nproc, drawn) && AfterDraws(s.rand, 2, s.nproc) == RandAfter(s.rand, s.nproc - 2) && s.nproc >= 2
  {
    DrawnAreCores(s.rand, a.nrunning, 2, s.nproc);
    DrawnIs(s.rand, a.nrunning, 2, s.nproc, 0);
    hide Drawn, NextRand, AfterDraws, RandAfter, Wants, Disjoint, Masks;
  }

  lemma HandsOver(s: State, u: nat, a: State, idle: set<nat>, taken: set<nat>, t: State)
    requires Sharing(s) && u < |s.try| && u !in s.running && a == Activate(s, u) && s.nproc >= 2
    requires t == Hand(Clear(a, u), u, idle, taken).(rand := AfterDraws(s.rand, 2, s.nproc))
    requires AfterDraws(s.rand, 2, s.nproc) == RandAfter(s.rand, s.nproc - 2)
    ensures |t.try| == |s.try| && t.try[u] == idle + taken && t.rand == RandAfter(s.rand, s.nproc - 2)
    ensures forall v | v in s.running :: v < |s.try| && t.try[v] == s.try[v] - taken
  {
    hide NextRand, AfterDraws, RandAfter, Wants, Disjoint, Masks;
  }

  lemma FreeAreCores(s: State)
    ensures CoresOf(s.nproc, Free(s))
  {
  }

  /** To have been cleared and listed does not make a container try for a core. */
  lemma SameFree(s: State, u: nat, c: State)
    requires u < |s.try| && u !in s.running && c == Clear(Activate(s, u), u)
    ensures Idle(c) == Free(s)
  {
    forall i ensures Allocated(c, i) <==> Allocated(s, i) {
      if Allocated(c, i) {
        var k :| TriedBy(c, i, k);
        assert TriedBy(s, i, k);
      }
      if Allocated(s, i) {
        var k :| TriedBy(s, i, k);
        assert TriedBy(c, i, k);
      }
    }
  }

  /** A container that starts when nobody runs gets every core. */
  lemma TheFirstGetsAll(s: State, u: nat, t: State)
    requires Sharing(s) && s.running == [] && Possible(s, Start(u)) && t == Decide(s, Start(u))
    ensures |t.try| == |s.try| && t.try[u] == AllCores(s.nproc)
  {
    hide *;
    var drawn := Drawn(s.rand, 1, 2, s.nproc);
    AllAreDrawn(s.rand, s.nproc);
    var idle, taken := StartTakes(s, u, t, drawn);
    AllAreFree(s);
    SameSize(idle, AllCores(s.nproc));
    NoneTaken(taken);
  }

  lemma AllAreDrawn(r: nat, nproc: nat)
    ensures Drawn(r, 1, 2, nproc) == AllCores(nproc)
  {
    hide Drawn, Draw, NextRand, RandAfter;
    forall c | c in AllCores(nproc) ensures c in Drawn(r, 1, 2, nproc) {
      DrawnIs(r, 1, 2, nproc, c);
    }
    forall c | c in Drawn(r, 1, 2, nproc) ensures c in AllCores(nproc) {
      DrawnIs(r, 1, 2, nproc, c);
      assert IsCore(c, nproc);
    }
  }

  lemma AllAreFree(s: State)
    requires s.running == []
    ensures Free(s) == AllCores(s.nproc)
  {
    hide IsCore;
  }

  lemma SameSize(picked: set<nat>, m: set<nat>)
    requires LowestOf(picked, m) && |picked| == |m|
    ensures picked == m
  {
    Remainder(m, picked);
    assert |m - picked| == 0;
    assert m == picked + (m - picked);
  }

  lemma NoneTaken(taken: set<nat>)
    requires |taken| == 0
    ensures forall m: set<nat> :: m + taken == m
  {
    assert taken == {};
  }

  // A container ends.

  /** Who gets core c when the cores of a mask are given away from core i on: one draw a core, in their order. */
  function Receiver(s: State, m: set<nat>, i: nat, c: nat): nat
    requires |s.running| > 0
  {
    s.running[Draw(RandAfter(s.rand, |Between(m, i, c)|)) % |s.running|]
  }

  function Between(m: set<nat>, i: nat, c: nat): set<nat> {
    set d | d in m && i <= d < c
  }

  /** Every core of the mask goes to its receiver, and nobody gets or loses anything else. */
  lemma {:induction false} GiveAwayIs(s: State, m: set<nat>, i: nat, t: State, v: nat, c: nat)
    requires s.nrunning == |s.running| > 0 && (forall w | w in s.running :: w < |s.try|) && t == GiveAway(s, m, i)
    requires v < |s.try|
    ensures |t.try| == |s.try| && t == s.(try := t.try, rand := t.rand)
    ensures c in t.try[v] <==> c in s.try[v] || (c in m && i <= c < s.nproc && v == Receiver(s, m, i, c))
    decreases s.nproc - i
  {
    hide Draw, NextRand;
    if i < s.nproc {
      if i !in m {
        assert Between(m, i, c) == Between(m, i + 1, c);
        GiveAwayIs(s, m, i + 1, t, v, c);
      } else {
        var g := Give(s, Pick(s), i);
        GiveAwayIs(g, m, i + 1, t, v, c);
        if c > i {
          assert Between(m, i, c) == {i} + Between(m, i + 1, c);
          assert |Between(m, i, c)| == 1 + |Between(m, i + 1, c)|;
        } else {
          assert Between(m, i, c) == {};
        }
      }
    }
  }

  /** An end gives every core of the container that has ended to the one that is drawn for it among those left. */
  lemma EndGives(s: State, u: nat, left: State, t: State, v: nat, c: nat)
    requires Sharing(s) && u in s.running && left == Deactivate(s, u) && left.running != []
    requires t == Decide(s, End(u)) && v < |s.try| && v != u
    ensures |t.try| == |s.try| && |t.tryNum| == |s.tryNum| && u < |s.try| && t.try[u] == {} && t.tryNum[u] == 0
    ensures forall w :: w in left.running <==> w in s.running && w != u
    ensures c in t.try[v] <==> c in s.try[v] || (c in s.try[u] && v == Receiver(left, s.try[u], 2, c))
  {
    WithoutIs(s.running, u);
    assert CoresOf(s.nproc, s.try[u]);
    hide Masks, Disjoint, Wants, Receiver, GiveAway;
    GiveAwayIs(left, s.try[u], 2, GiveAway(left, s.try[u], 2), v, c);
  }

  // The feedback.

  /** What the feedback takes away are the lowest cores, except that a container keeps its own. */
  lemma TheHighestAreKept(m: set<nat>, own: nat, nproc: nat, n: int, k: set<nat>, c: nat, d: nat)
    requires CoresOf(nproc, m) && k == Kept(m, own, nproc, n) && c in m - k && d in k && d != own
    ensures c < d && c != own
  {
    LowestComeFirst(m - {own}, 2, nproc, n);
    LowestAreOfTheMask(m - {own}, 2, nproc, n);
    hide Lowest;
  }

  // The placement.

  /** Core c has been given in a container's turn, and d is still free after it. */
  predicate PreferredTo(m: map<nat, nat>, n: map<nat, nat>, nproc: nat, c: nat, d: nat) {
    c in n && c !in m && d in AllCores(nproc) && d !in n
  }

  /** A core is passed over only once as many as wanted have been picked, all of them lower. */
  lemma PassedOver(m: set<nat>, nproc: nat, n: int, picked: set<nat>, d: nat)
    requires CoresOf(nproc, m) && picked == Lowest(m, 2, nproc, n) && d in m && d !in picked
    ensures picked <= m && (n <= 0 || |picked| == n) && (n <= 0 ==> picked == {}) && forall c | c in picked :: c < d
  {
    LowestComeFirst(m, 2, nproc, n);
    LowestAreOfTheMask(m, 2, nproc, n);
    assert From(m, 2) == m;
    if n > 0 && |picked| != n {
      Placement.SameSet(picked, m);
    }
  }

  /** In its turn a container gets cores that it had rather than others, and lower ones rather than higher ones. */
  lemma FormerCoresFirst(m: map<nat, nat>, u: nat, had: set<nat>, nproc: nat, want: int, n: map<nat, nat>, c: nat,
                         d: nat)
    requires CoresOf(nproc, had) && n == Placement.PlaceOne(m, u, had, nproc, want) && PreferredTo(m, n, nproc, c, d)
    ensures d in had ==> c in had
    ensures (c in had <==> d in had) ==> c < d
  {
    hide *;
    var a, p, b := PlacedInTwo(m, u, had, nproc, want, n);
    Preferred(m, n, nproc, c, d);
    InTurn(had, AllCores(nproc), m.Keys, a, p, b, n.Keys, nproc, want, c, d);
  }

  /** First the cores a, then the cores b. */
  lemma PlacedInTwo(m: map<nat, nat>, u: nat, had: set<nat>, nproc: nat, want: int, n: map<nat, nat>)
      returns (a: set<nat>, p: set<nat>, b: set<nat>)
    requires CoresOf(nproc, had) && n == Placement.PlaceOne(m, u, had, nproc, want)
    ensures p == m.Keys + a && n.Keys == p + b && a <= had - m.Keys
    ensures CoresOf(nproc, had - m.Keys) && a == Lowest(had - m.Keys, 2, nproc, want)
    ensures CoresOf(nproc, AllCores(nproc) - p) && b == Lowest(AllCores(nproc) - p, 2, nproc, want - |a|)
  {
    hide *;
    a := LeftAre(m, had, nproc, want);
    var q := Placement.Assign(m, a, u);
    p := q.Keys;
    Placement.AllAreCores(nproc);
    b := LeftAre(q, AllCores(nproc), nproc, want - |a|);
    Placement.PlaceOneSteps(m, u, had, nproc, want, a, q, b);
    KeysGrow(m, a, u, q);
    KeysGrow(q, b, u, n);
  }

  lemma InTurn(had: set<nat>, all: set<nat>, m: set<nat>, a: set<nat>, p: set<nat>, b: set<nat>, n: set<nat>,
               nproc: nat, want: int, c: nat, d: nat)
    requires p == m + a && n == p + b && c in n && c !in m && d in all && d !in n
    requires CoresOf(nproc, had - m) && a == Lowest(had - m, 2, nproc, want) && a <= had - m
    requires CoresOf(nproc, all - p) && b == Lowest(all - p, 2, nproc, want - |a|)
    ensures d in had ==> c in had
    ensures (c in had <==> d in had) ==> c < d
  {
    hide Lowest, CoresOf;
    PicksInTurn(had - m, all - p, nproc, want, a, b, d);
  }

  lemma KeysGrow(m: map<nat, nat>, cores: set<nat>, u: nat, n: map<nat, nat>)
    requires n == Placement.Assign(m, cores, u)
    ensures n.Keys == m.Keys + cores
  {
  }

  lemma LeftAre(m: map<nat, nat>, candidates: set<nat>, nproc: nat, want: int) returns (picked: set<nat>)
    requires CoresOf(nproc, candidates)
    ensures picked == Placement.Grab(m, candidates, nproc, want) == Lowest(candidates - m.Keys, 2, nproc, want)
    ensures CoresOf(nproc, candidates - m.Keys) && picked <= candidates - m.Keys
  {
    LowestAreOfTheMask(candidates - m.Keys, 2, nproc, want);
    hide Lowest;
    picked := Placement.Grab(m, candidates, nproc, want);
  }

  lemma Preferred(m: map<nat, nat>, n: map<nat, nat>, nproc: nat, c: nat, d: nat)
    requires PreferredTo(m, n, nproc, c, d)
    ensures c in n.Keys && c !in m.Keys && d in AllCores(nproc) && d !in n.Keys
  {
    hide AllCores;
  }

  lemma PicksInTurn(first: set<nat>, rest: set<nat>, nproc: nat, want: int, a: set<nat>, b: set<nat>, d: nat)
    requires CoresOf(nproc, first) && a == Lowest(first, 2, nproc, want) && d !in a
    requires CoresOf(nproc, rest) && b == Lowest(rest, 2, nproc, want - |a|) && d !in b
    ensures d in first ==> b == {} && forall c | c in a :: c < d
    ensures d in rest ==> forall c | c in b :: c < d
  {
    hide Lowest, CoresOf;
    if d in first {
      PassedOver(first, nproc, want, a, d);
      NoneLowest(rest, 2, nproc, want - |a|);
    }
    if d in rest {
      PassedOver(rest, nproc, want - |a|, b, d);
    }
  }
}
