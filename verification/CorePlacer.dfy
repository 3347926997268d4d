/** The map of cores and the masks that are set from it, as the platform keeps them. */
module CorePlacer {

  import opened Commons
  import opened PlatformScheduler
  import opened CorePlacement

  class Placer {
    const nproc: nat
    const containers: nat
    const running: seq<nat>
    const tryNum: array<int>
    const numCpu: array<int>
    const tmpNum: array<int>
    const cpuMask: array2<bool>
    const coreMap: array<int>

    ghost predicate Shaped()
      reads this
    {
      && tryNum.Length == numCpu.Length == tmpNum.Length == cpuMask.Length0 == containers
      && cpuMask.Length1 == coreMap.Length == nproc && containers + 2 <= nproc
      && tryNum != numCpu && tryNum != tmpNum && numCpu != tmpNum && coreMap != tryNum && coreMap != numCpu
        && coreMap != tmpNum
      && (forall u | u in running :: u < containers)
      && (forall i, j | 0 <= i < j < |running| :: running[i] != running[j])
    }

    ghost function Row(u: nat): set<nat>
      requires u < cpuMask.Length0
      reads cpuMask
    {
      set i: nat | 0 <= i < cpuMask.Length1 && cpuMask[u, i]
    }

    ghost function D(): (d: Demand)
      requires Shaped()
      reads this, tryNum, tmpNum, cpuMask
      ensures d.nproc == nproc && d.running == running && d.tryNum == tryNum[..] && d.tmp == tmpNum[..]
      ensures |d.cpu| == containers && (forall u | 0 <= u < containers :: d.cpu[u] == Row(u))
      ensures CorePlacement.Valid(d)
    {
      Demand(nproc, running, tryNum[..], seq(containers, u requires 0 <= u < cpuMask.Length0 reads cpuMask => Row(u)),
        tmpNum[..])
    }

    predicate Mapped(i: nat)
      requires i < coreMap.Length
      reads coreMap
    {
      coreMap[i] >= 1
    }

    /** The map that the array stands for: a container by its number in the pool plus one, nobody by -1. */
    ghost function M(): map<nat, nat>
      reads coreMap
    {
      map i: nat | 0 <= i < coreMap.Length && Mapped(i) :: (coreMap[i] - 1) as nat
    }

    method SetCore(i: nat, u: nat)
      requires i < coreMap.Length
      modifies coreMap
      ensures M() == old(M())[i := u]
    {
      coreMap[i] := u + 1;
      assert forall j: nat | 0 <= j < coreMap.Length && j != i :: Mapped(j) <==> old(Mapped(j));
    }

    method UnsetMap()
      modifies coreMap
      ensures M() == map[]
    {
      var i := 0;
      while i < coreMap.Length
        invariant 0 <= i <= coreMap.Length && (forall j | 0 <= j < i :: coreMap[j] == -1)
      {
        coreMap[i] := -1;
        i := i + 1;
      }
    }

    method Reserve()
      requires Shaped() && M() == map[]
      modifies coreMap, tmpNum
      ensures M() == Reserved(running, |running|)
      ensures forall u | 0 <= u < containers :: tmpNum[u] == old(tmpNum[u]) + (if u in running then 1 else 0)
    {
      var k := 0;
      while k < |running|
        invariant 0 <= k <= |running| && M() == Reserved(running, k)
        invariant forall u | 0 <= u < containers :: tmpNum[u] == old(tmpNum[u]) + (if u in running[..k] then 1 else 0)
      {
        var u := running[k];
        assert u in running && u !in running[..k];
        assert running[..k + 1] == running[..k] + [u];
        SetCore(Invariant(u), u);
        tmpNum[u] := tmpNum[u] + 1;
        k := k + 1;
      }
      assert running[..k] == running;
    }

    /** A loop over the cores that takes free ones, among those the container had or among all, until it has enough. */
    method TakeFree(u: nat, any: bool, ghost candidates: set<nat>) returns (ghost got: set<nat>)
      requires Shaped() && u < containers
      requires forall i | 2 <= i < nproc :: i in candidates <==> any || cpuMask[u, i]
      modifies coreMap, tmpNum
      ensures got == Grab(old(M()), candidates, nproc, tryNum[u] - old(tmpNum[u])) && M() == Assign(old(M()), got, u)
      ensures tmpNum[u] == old(tmpNum[u]) + |got|
      ensures (forall v | 0 <= v < containers && v != u :: tmpNum[v] == old(tmpNum[v]))
    {
      hide Lowest, Assign;
      ghost var m, w := M(), tryNum[u] - tmpNum[u];
      ghost var f := candidates - m.Keys;
      got := {};
      AssignNone(m, u);
      var i := 2;
      while i < nproc
        invariant 2 <= i <= nproc && M() == Assign(m, got, u) && (forall c | c in got :: c < i)
        invariant Lowest(f, 2, nproc, w) == got + Lowest(f, i, nproc, w - |got|)
        invariant tmpNum[u] == old(tmpNum[u]) + |got|
        invariant forall v | 0 <= v < containers && v != u :: tmpNum[v] == old(tmpNum[v])
      {
        FreeNext(m, f, got, u, i, nproc, w - |got|, M());
        if tmpNum[u] >= tryNum[u] {
          break;
        }
        if (any || cpuMask[u, i]) && !Mapped(i) {
          SetCore(i, u);
          AssignOne(m, got, u, i);
          tmpNum[u] := tmpNum[u] + 1;
          got := got + {i};
        }
        i := i + 1;
      }
      FreeEnd(f, i, nproc, w - |got|);
    }

    /** The turn of one container. */
    method Place(u: nat)
      requires Shaped() && u < containers && CoresOf(nproc, Row(u))
      modifies coreMap, tmpNum, numCpu
      ensures M() == PlaceOne(old(M()), u, Row(u), nproc, tryNum[u] - old(tmpNum[u]))
      ensures tmpNum[u] == old(tmpNum[u]) + |M()| - |old(M())| && numCpu[u] == tryNum[u]
      ensures forall v | 0 <= v < containers && v != u :: tmpNum[v] == old(tmpNum[v]) && numCpu[v] == old(numCpu[v])
    {
      hide Grab, Assign, AllCores, PlaceOne, M, Lowest;
      ghost var m, had, want := M(), Row(u), tryNum[u] - tmpNum[u];
      numCpu[u] := tryNum[u];
      AllAreCores(nproc);
      CoresAre(nproc);
      ghost var a := TakeFree(u, false, had);
      ghost var p := M();
      ghost var b := TakeFree(u, true, AllCores(nproc));
      PlaceOneSteps(m, u, had, nproc, want, a, p, b);
      GrabCounts(m, had, nproc, want, u, a, p);
      GrabCounts(p, AllCores(nproc), nproc, want - |a|, u, b, M());
    }

    /** How a container stands once the map is m. */
    ghost predicate Counted(d: Demand, m: map<nat, nat>, u: nat)
      requires u < |d.tmp|
      reads this, tmpNum, numCpu, tryNum
    {
      u < tmpNum.Length && u < numCpu.Length && u < tryNum.Length &&
      tmpNum[u] == d.tmp[u] + |Owned(m, u)| && numCpu[u] == tryNum[u]
    }

    method PlaceAll(ghost d: Demand)
      requires Shaped() && HadCores(D()) && M() == Reserved(running, |running|)
      requires d == D().(tmp := d.tmp) && |d.tmp| == containers
      requires forall u | 0 <= u < containers :: tmpNum[u] == d.tmp[u] + (if u in running then 1 else 0)
      modifies coreMap, tmpNum, numCpu
      ensures CorePlacement.Valid(d) && HadCores(d) && M() == Placed(d)
      ensures forall u | u in running :: u < containers && Counted(d, M(), u)
      ensures forall u | 0 <= u < containers && u !in running ::
                tmpNum[u] == old(tmpNum[u]) && numCpu[u] == old(numCpu[u])
    {
      hide M, PlaceOne, Owned, HadCores, MapOk, Reserved, PlaceUpTo, AllCores, CoresOf, Row, D;
      PlaceNone(d);
      HadIs(D(), d);
      var k := 0;
      while k < |running|
        invariant 0 <= k <= |running| && M() == PlaceUpTo(d, k)
        invariant forall j: nat | j < k :: running[j] < containers && Counted(d, M(), running[j])
        invariant forall u | 0 <= u < containers && u !in running[..k] ::
                    tmpNum[u] == old(tmpNum[u]) && numCpu[u] == old(numCpu[u])
      {
        var u := running[k];
        assert u in running && u !in running[..k];
        assert running[..k + 1] == running[..k] + [u];
        ghost var p := M();
        PlacedIsOk(d, k, p);
        PlaceStep(d, k + 1);
        Place(u);
        ghost var got := Turn(d, k, p, M());
        k := k + 1;
      }
      assert running[..k] == running;
      forall u | u in running ensures u < containers && Counted(d, M(), u) {
        var j :| 0 <= j < |running| && running[j] == u;
      }
    }

    /** A container's mask is set from the map. */
    method SetMask(u: nat, ghost own: nat)
      requires Shaped() && u < containers && CoresOf(nproc, Row(u)) && CoresOf(nproc, M().Keys)
      requires own in Owned(M(), u)
      modifies cpuMask
      ensures Row(u) == Owned(M(), u)
      ensures forall v | 0 <= v < containers && v != u :: Row(v) == old(Row(v))
    {
      ghost var m, had := M(), Row(u);
      var count, i := 0, 2;
      ghost var seen: set<nat> := {};
      while i < nproc
        invariant 2 <= i <= nproc && count == |seen| && (forall c | c in seen :: c < i)
        invariant forall c | 2 <= c < i :: c in seen <==> c in m && m[c] == u
        invariant forall c | 2 <= c < i :: cpuMask[u, c] <==> c in seen
        invariant forall v, c | 0 <= v < containers && 0 <= c < nproc && (v != u || c < 2 || i <= c) ::
          cpuMask[v, c] == old(cpuMask[v, c])
      {
        if coreMap[i] == u + 1 {
          count := count + 1;
          seen := seen + {i};
          cpuMask[u, i] := true;
        } else {
          cpuMask[u, i] := false;
        }
        i := i + 1;
      }
      assert own in seen;
      assert count != 0;
      forall c: nat ensures c in Row(u) <==> c in Owned(m, u) {
        if c < 2 {
          assert c !in had && c !in m.Keys;
        }
      }
      assert Row(u) == Owned(m, u);
      forall v | 0 <= v < containers && v != u ensures Row(v) == old(Row(v)) {
      }
    }

    method SetMasks()
      requires Shaped() && HadCores(D()) && CoresOf(nproc, M().Keys)
      requires forall u | u in running :: u < containers && Invariant(u) in Owned(M(), u)
      modifies cpuMask
      ensures forall u | u in running :: u < containers && Row(u) == Owned(M(), u)
      ensures forall u | 0 <= u < containers && u !in running :: Row(u) == old(Row(u))
    {
      hide M, Owned, CoresOf, D, Row;
      ghost var d := D();
      var k := 0;
      while k < |running|
        invariant 0 <= k <= |running|
        invariant forall j: nat | j < k :: running[j] < containers && Row(running[j]) == Owned(M(), running[j])
        invariant forall u | 0 <= u < containers && u !in running[..k] :: Row(u) == d.cpu[u]
      {
        var u := running[k];
        assert u in running && u !in running[..k];
        assert running[..k + 1] == running[..k] + [u];
        SetMask(u, Invariant(u));
        k := k + 1;
      }
      assert running[..k] == running;
      forall u | u in running ensures u < containers && Row(u) == Owned(M(), u) {
        var j :| 0 <= j < |running| && running[j] == u;
      }
    }

    /** platform_determine_scheduling: nobody is left without a core, so its abort cannot be reached. */
    method DetermineScheduling()
      requires Shaped() && HadCores(D())
      modifies coreMap, tmpNum, numCpu, cpuMask
      ensures M() == Placed(old(D()))
      ensures forall u | u in running :: u < containers && Row(u) == Owned(Placed(old(D())), u)
      ensures forall u | u in running :: u < containers && Counted(old(D()), M(), u)
      ensures forall u | 0 <= u < containers && u !in running ::
        Row(u) == old(Row(u)) && tmpNum[u] == old(tmpNum[u]) && numCpu[u] == old(numCpu[u])
    {
      hide M, Owned, CoresOf, D, Row, HadCores, Counted, Placed, Reserved;
      ghost var d := D();
      UnsetMap();
      Reserve();
      SameHad(d);
      PlaceAll(d);
      OwnCores(d, M());
      SameHad(d);
      SetMasks();
    }

    lemma SameHad(d: Demand)
      requires Shaped() && HadCores(d) && d.nproc == nproc && |d.cpu| == containers
      requires forall u | 0 <= u < containers :: d.cpu[u] == Row(u)
      ensures HadCores(D())
    {
      hide Row;
    }
  }

  lemma AssignNone(m: map<nat, nat>, u: nat)
    ensures Assign(m, {}, u) == m
  {
  }

  lemma AssignOne(m: map<nat, nat>, cores: set<nat>, u: nat, i: nat)
    ensures Assign(m, cores, u)[i := u] == Assign(m, cores + {i}, u)
  {
  }

  /** The next core of the loop: it is free among the candidates if it is a candidate and not on the map yet. */
  lemma FreeNext(m: map<nat, nat>, f: set<nat>, got: set<nat>, u: nat, i: nat, nproc: nat, n: int, p: map<nat, nat>)
    requires i < nproc && p == Assign(m, got, u) && (forall c | c in got :: c < i)
    ensures i in p <==> i in m
    ensures Lowest(f, i, nproc, n)
      == if n <= 0 then {} else if i in f then {i} + Lowest(f, i + 1, nproc, n - 1) else Lowest(f, i + 1, nproc, n)
  {
  }

  lemma FreeEnd(f: set<nat>, i: nat, nproc: nat, n: int)
    requires i >= nproc || n <= 0
    ensures Lowest(f, i, nproc, n) == {}
  {
  }

  lemma CoresAre(nproc: nat)
    ensures forall i | 2 <= i < nproc :: i in AllCores(nproc)
  {
    forall i | 2 <= i < nproc ensures i in AllCores(nproc) {
      assert IsCore(i, nproc);
    }
  }

  lemma GrabCounts(m: map<nat, nat>, candidates: set<nat>, nproc: nat, want: int, u: nat, g: set<nat>,
                   n: map<nat, nat>)
    requires CoresOf(nproc, candidates) && g == Grab(m, candidates, nproc, want) && n == Assign(m, g, u)
    ensures |n| == |m| + |g|
  {
    hide Grab, Assign, CoresOf;
    GrabIs(m, candidates, nproc, want, g);
    AssignIs(m, g, u, n);
  }

  lemma PlaceNone(d: Demand)
    requires CorePlacement.Valid(d)
    ensures PlaceUpTo(d, 0) == Reserved(d.running, |d.running|)
  {
    hide Reserved;
  }

  lemma HadIs(d: Demand, e: Demand)
    requires HadCores(d) && e.cpu == d.cpu && e.nproc == d.nproc
    ensures HadCores(e)
  {
  }

  lemma OwnCores(d: Demand, m: map<nat, nat>)
    requires CorePlacement.Valid(d) && HadCores(d) && m == Placed(d)
    ensures CoresOf(d.nproc, m.Keys) && (forall u | u in d.running :: Invariant(u) in Owned(m, u))
  {
    PlacedIsOk(d, |d.running|, m);
    OkCores(d, |d.running|, m);
    hide Placed, PlaceUpTo;
    forall u | u in d.running ensures Invariant(u) in Owned(m, u) {
      EverybodyHasItsOwnCore(d, u);
    }
  }
}
