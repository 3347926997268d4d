/** The platform's scheduler as it works on its arrays: one row of cores for every container of the pool. */
module Platform {

  import opened Commons
  import opened PlatformScheduler

  class Scheduler {
    const nproc: nat
    const containers: nat
    const tryMask: array2<bool>
    const tryNum: array<int>
    const desired: array<int>
    const drepMask: array<bool>
    const idleMask: array<bool>
    var running: seq<nat>
    var nprogramRunning: int
    var randNext: nat

    ghost predicate Valid()
      reads this
    {
      && tryMask.Length0 == tryNum.Length == desired.Length == containers
      && tryMask.Length1 == drepMask.Length == idleMask.Length == nproc
      && tryNum != desired && drepMask != idleMask
      && containers + 2 <= nproc && nprogramRunning == |running|
      && (forall u | u in running :: u < containers)
      && (forall i, j | 0 <= i < j < |running| :: running[i] != running[j])
    }

    ghost function Row(u: nat): (m: set<nat>)
      requires u < tryMask.Length0
      reads tryMask
    {
      set i: nat | 0 <= i < tryMask.Length1 && tryMask[u, i]
    }

    ghost function S(): (s: State)
      requires Valid()
      reads this, tryMask, tryNum, desired
      ensures |s.try| == |s.tryNum| == |s.desired| == containers && s.nproc == nproc
      ensures s.running == running && s.nrunning == nprogramRunning && s.rand == randNext
      ensures forall u, i | 0 <= u < containers && 0 <= i < nproc :: tryMask[u, i] <==> i in s.try[u]
      ensures forall u | 0 <= u < containers :: s.tryNum[u] == tryNum[u] && s.desired[u] == desired[u]
    {
      State(nproc, running, nprogramRunning,
            seq(containers, u requires 0 <= u < tryMask.Length0 reads tryMask => Row(u)), tryNum[..],
            desired[..], randNext)
    }

    // Single cores.

    method SetCore(u: nat, i: nat)
      requires Valid() && u < containers && i < nproc
      modifies tryMask
      ensures S() == old(S()).(try := old(S()).try[u := old(S()).try[u] + {i}])
    {
      ghost var s := S();
      tryMask[u, i] := true;
      assert Row(u) == s.try[u] + {i};
      forall v | 0 <= v < containers && v != u ensures Row(v) == s.try[v] {
      }
      assert S().try == s.try[u := s.try[u] + {i}];
    }

    method DropCore(u: nat, i: nat)
      requires Valid() && u < containers && i < nproc
      modifies tryMask
      ensures S() == old(S()).(try := old(S()).try[u := old(S()).try[u] - {i}])
    {
      ghost var s := S();
      tryMask[u, i] := false;
      assert Row(u) == s.try[u] - {i};
      forall v | 0 <= v < containers && v != u ensures Row(v) == s.try[v] {
      }
      assert S().try == s.try[u := s.try[u] - {i}];
    }

    method SetTryNum(u: nat, n: int)
      requires Valid() && u < containers
      modifies tryNum
      ensures S() == old(S()).(tryNum := old(S()).tryNum[u := n])
    {
      tryNum[u] := n;
    }

    /** All cores of a container dropped. */
    method ClearRow(u: nat)
      requires Valid() && u < containers
      modifies tryMask
      ensures S() == Clear(old(S()), u)
    {
      ghost var s := S();
      var i := 0;
      while i < nproc
        invariant 0 <= i <= nproc
        invariant forall v, k | 0 <= v < containers && 0 <= k < nproc ::
          tryMask[v, k] == (old(tryMask[v, k]) && (v != u || k >= i))
      {
        tryMask[u, i] := false;
        i := i + 1;
      }
      assert Row(u) == {};
      forall v | 0 <= v < containers && v != u ensures Row(v) == s.try[v] {
      }
      assert S().try == s.try[u := {}];
    }

    method Rand() returns (r: nat)
      requires Valid()
      modifies `randNext
      ensures Valid() && r == Draw(old(randNext)) && S() == old(S()).(rand := NextRand(old(randNext)))
    {
      randNext := NextRand(randNext);
      r := randNext / 65536;
    }

    /** rand_pick_unfinished_job: the search through the list for the drawn place does not fall off its end. */
    method RandPick() returns (v: nat)
      requires Valid() && nprogramRunning > 0
      modifies `randNext
      ensures Valid() && v == Pick(old(S())) && S() == old(S()).(rand := NextRand(old(randNext)))
    {
      var r := Rand();
      var num := r % nprogramRunning;
      var i, k := 0, 0;
      while k < |running|
        invariant 0 <= k <= |running| && i == k <= num
      {
        if i == num {
          return running[k];
        }
        i := i + 1;
        k := k + 1;
      }
      assert false;
    }

    // DREP for a container that has ended.

    method EndDrep(u: nat)
      requires Valid() && nprogramRunning > 0 && u < containers && u !in running
      modifies `randNext, tryMask, tryNum
      ensures Valid() && nprogramRunning == |running| > 0 && (forall v | v in old(S()).running :: v < |old(S()).try|)
      ensures S() == PlatformScheduler.EndDrep(old(S()), u)
    {
      ghost var s := S();
      ghost var m := s.try[u];
      var i := 2;
      while i < nproc
        invariant 2 <= i <= nproc && Valid() && running == old(running) && nprogramRunning == old(nprogramRunning)
        invariant S().try[u] == m
        invariant GiveAway(S(), m, i) == GiveAway(s, m, 2)
      {
        if tryMask[u, i] {
          var v := RandPick();
          SetCore(v, i);
        }
        i := i + 1;
      }
      GiveAwayShape(s, m, 2);
      ClearRow(u);
      SetTryNum(u, 0);
    }

    // DREP for a container that starts.

    /** Whether anybody who runs tries for the core. */
    method IsTried(i: nat) returns (flag: bool)
      requires Valid() && i < nproc
      ensures flag <==> Allocated(S(), i)
    {
      var k := 0;
      flag := false;
      while k < |running|
        invariant 0 <= k <= |running|
        invariant !flag ==> forall j | 0 <= j < k :: !TriedBy(S(), i, j)
        invariant flag ==> Allocated(S(), i)
      {
        assert running[k] in running;
        if tryMask[running[k], i] {
          assert TriedBy(S(), i, k);
          return true;
        }
        k := k + 1;
      }
    }

    method ClearScratch()
      requires Valid()
      modifies drepMask, idleMask
      ensures forall c | 0 <= c < nproc :: !drepMask[c] && !idleMask[c]
    {
      var j := 0;
      while j < nproc
        invariant 0 <= j <= nproc
        invariant forall c | 0 <= c < j :: !drepMask[c] && !idleMask[c]
      {
        drepMask[j] := false;
        idleMask[j] := false;
        j := j + 1;
      }
    }

    /** The draw for one core. */
    method DrawOne(i: nat) returns (won: bool)
      requires Valid() && nprogramRunning > 0 && i < nproc
      modifies `randNext, drepMask
      ensures Valid() && S() == old(S()).(rand := NextRand(old(randNext)))
      ensures (won <==> Draw(old(randNext)) % nprogramRunning == 0)
      ensures forall c | 0 <= c < nproc :: drepMask[c] == (old(drepMask[c]) || (won && c == i))
    {
      hide NextRand, Draw;
      var draw := Rand();
      var num := draw % nprogramRunning + 1;
      won := num == 1;
      if won {
        drepMask[i] := true;
      }
    }

    method LookForIdle(i: nat)
      requires Valid() && i < nproc && !idleMask[i]
      modifies idleMask
      ensures idleMask[i] <==> !Allocated(S(), i)
      ensures forall c | 0 <= c < nproc && c != i :: idleMask[c] == old(idleMask[c])
    {
      var flag := IsTried(i);
      if !flag {
        idleMask[i] := true;
      }
    }

    /** One draw a core for the new container, and a look at which cores are idle. */
    method DrawCores() returns (allocate: nat)
      requires Valid() && nprogramRunning > 0
      modifies `randNext, drepMask, idleMask
      ensures Valid() && S() == old(S()).(rand := AfterDraws(old(randNext), 2, nproc))
      ensures allocate == |Drawn(old(randNext), nprogramRunning, 2, nproc)|
      ensures forall i | 2 <= i < nproc :: drepMask[i] <==> i in Drawn(old(randNext), nprogramRunning, 2, nproc)
      ensures forall i | 2 <= i < nproc :: idleMask[i] <==> !Allocated(S(), i)
    {
      hide S, Drawn, AfterDraws, NextRand, Draw, Allocated, WithDrawn;
      ghost var s, n := S(), nprogramRunning;
      ClearScratch();
      allocate := 0;
      ghost var drawn: set<nat> := {};
      var i := 2;
      while i < nproc
        invariant 2 <= i <= nproc && Valid() && S() == s.(rand := randNext)
        invariant Drawn(s.rand, n, 2, nproc) == drawn + Drawn(randNext, n, i, nproc)
        invariant AfterDraws(s.rand, 2, nproc) == AfterDraws(randNext, i, nproc)
        invariant allocate == |drawn| && (forall c | c in drawn :: 2 <= c < i)
        invariant forall c | 2 <= c < nproc :: drepMask[c] <==> c in drawn
        invariant forall c | 2 <= c < i :: idleMask[c] <==> !Allocated(s, c)
        invariant forall c | i <= c < nproc :: !idleMask[c]
      {
        DrawnStep(randNext, n, i, nproc);
        var won := DrawOne(i);
        OneMoreDrawn(drawn, won, i, Drawn(randNext, n, i + 1, nproc));
        if won {
          allocate := allocate + 1;
        }
        drawn := WithDrawn(drawn, won, i);
        LookForIdle(i);
        SameAllocated(s, S(), i);
        i := i + 1;
      }
      NoneDrawn(randNext, n, i, nproc);
      forall c | 2 <= c < nproc ensures Allocated(S(), c) <==> Allocated(s, c) {
        SameAllocated(s, S(), c);
      }
    }

    /** The idle cores, from the lowest on, as long as there are some to allocate. */
    method GiveIdle(u: nat, wanted: nat, ghost m: set<nat>) returns (allocate: nat)
      requires Valid() && u < containers && (forall i | 2 <= i < nproc :: idleMask[i] <==> i in m)
      modifies tryMask
      ensures S() == Add(old(S()), u, Lowest(m, 2, nproc, wanted))
      ensures |Lowest(m, 2, nproc, wanted)| <= wanted && allocate == wanted - |Lowest(m, 2, nproc, wanted)|
    {
      hide S, Lowest, Add;
      ghost var s := S();
      ghost var given: set<nat> := {};
      AddNone(s, u);
      allocate := wanted;
      var i := 2;
      while i < nproc
        invariant 2 <= i <= nproc && S() == Add(s, u, given) && allocate == wanted - |given|
        invariant forall c | c in given :: c < i
        invariant Lowest(m, 2, nproc, wanted) == given + Lowest(m, i, nproc, allocate)
      {
        LowestStep(m, i, nproc, allocate);
        if idleMask[i] && allocate > 0 {
          SetCore(u, i);
          AddOne(s, u, given, i);
          given := given + {i};
          allocate := allocate - 1;
        } else if allocate <= 0 {
          break;
        }
        i := i + 1;
      }
      LowestEnd(m, i, nproc, allocate);
    }

    /** The others who run lose a core. */
    method TakeFromOthers(u: nat, i: nat)
      requires Valid() && u < containers && i < nproc
      modifies tryMask
      ensures S() == Strip(old(S()), u, {i}, old(S()).running)
    {
      hide S;
      ghost var s := S();
      var k := 0;
      while k < |running|
        invariant 0 <= k <= |running| && S() == Strip(s, u, {i}, running[..k])
      {
        assert running[k] in running;
        if running[k] != u {
          DropCore(running[k], i);
        }
        StripNext(s, u, {i}, k);
        k := k + 1;
      }
      assert running[..k] == running;
    }

    /** The drawn cores, from the lowest on, as long as there are some to allocate; the others lose them. */
    method GiveDrawn(u: nat, wanted: nat, ghost m: set<nat>)
      requires Valid() && u < containers && (forall i | 2 <= i < nproc :: drepMask[i] <==> i in m)
      modifies tryMask
      ensures S() == Strip(Add(old(S()), u, Lowest(m, 2, nproc, wanted)), u, Lowest(m, 2, nproc, wanted), running)
    {
      hide S, Lowest, Add, Strip;
      ghost var s := S();
      ghost var given: set<nat> := {};
      MoveNone(s, u);
      var allocate := wanted;
      var i := 2;
      while i < nproc
        invariant 2 <= i <= nproc && S() == Strip(Add(s, u, given), u, given, running) && allocate == wanted - |given|
        invariant forall c | c in given :: c < i
        invariant Lowest(m, 2, nproc, wanted) == given + Lowest(m, i, nproc, allocate)
      {
        LowestStep(m, i, nproc, allocate);
        if drepMask[i] && allocate > 0 {
          SetCore(u, i);
          MoveOne(s, u, given, i, S());
          TakeFromOthers(u, i);
          given := given + {i};
          allocate := allocate - 1;
        } else if allocate <= 0 {
          break;
        }
        i := i + 1;
      }
      LowestEnd(m, i, nproc, allocate);
    }

    /** DREP for a container that starts: if it is on the list already, then the list is not empty. */
    method StartDrep(u: nat)
      requires Valid() && u < containers
      modifies `randNext, tryMask, drepMask, idleMask
      ensures Valid() && S() == PlatformScheduler.StartDrep(old(S()), u)
    {
      hide S, Lowest, Drawn, AfterDraws, Add, Strip, Hand;
      ghost var s := S();
      ClearRow(u);
      ghost var c := S();
      if nprogramRunning != 0 {
        var allocate := DrawCores();
        ghost var d := S();
        ghost var drawn, idle := Drawn(s.rand, s.nrunning, 2, nproc), Idle(c);
        DrawnFit(s.rand, s.nrunning, nproc);
        IdleIs(c, d, idle);
        var left := GiveIdle(u, allocate, idle);
        GiveDrawn(u, left, drawn);
        HandIs(c, d, u, Lowest(idle, 2, nproc, allocate), Lowest(drawn, 2, nproc, left));
      } else {
        GiveAll(u);
        HandAll(c, u);
      }
    }

    method GiveAll(u: nat)
      requires Valid() && u < containers
      modifies tryMask
      ensures S() == Add(old(S()), u, AllCores(nproc))
    {
      hide S, Add;
      ghost var s := S();
      ghost var given: set<nat> := {};
      AddNone(s, u);
      var i := 2;
      while i < nproc
        invariant 2 <= i <= nproc && S() == Add(s, u, given)
        invariant forall c :: c in given <==> 2 <= c < i
      {
        SetCore(u, i);
        AddOne(s, u, given, i);
        given := given + {i};
        i := i + 1;
      }
      assert given == AllCores(nproc);
    }

    // The guarantee.

    method CountCores(u: nat) returns (count: nat)
      requires Valid() && u < containers
      ensures CoresOf(nproc, S().try[u]) ==> count == |S().try[u]|
    {
      hide S;
      ghost var m, seen := S().try[u], {};
      count := 0;
      var i := 2;
      while i < nproc
        invariant 2 <= i <= nproc && count == |seen|
        invariant forall c | 2 <= c < i :: c in seen <==> c in m
        invariant forall c | c in seen :: 2 <= c < i
      {
        if tryMask[u, i] {
          seen := seen + {i};
          count := count + 1;
        }
        i := i + 1;
      }
      if CoresOf(nproc, m) {
        forall c: nat ensures c in seen <==> c in m {
          if c in m {
            assert 2 <= c < nproc;
          }
        }
        assert seen == m;
      }
    }

    method RecountAll()
      requires Valid() && Masks(S())
      modifies tryNum
      ensures S() == Recount(old(S()))
    {
      hide S, Recount;
      ghost var s := S();
      var k := 0;
      while k < |running|
        invariant 0 <= k <= |running| && S() == RecountOf(s, running[..k])
      {
        assert running[k] in running;
        var n := CountCores(running[k]);
        SetTryNum(running[k], n);
        k := k + 1;
      }
      assert running[..k] == running;
      RecountIs(s);
    }

    /** A container without a core takes its own from the others, who count one less for it. */
    method Serve(u: nat)
      requires Valid() && u in running && u < containers
      modifies tryMask, tryNum
      ensures S() == ServeOne(old(S()), u)
    {
      hide S, ServeOne;
      ghost var s := S();
      if tryNum[u] == 0 {
        SetCore(u, Invariant(u));
        SetTryNum(u, 1);
        ghost var t := S();
        var k := 0;
        while k < |running|
          invariant 0 <= k <= |running| && S() == LoseOwn(t, u, running[..k])
        {
          var v := running[k];
          assert v in running;
          if v != u {
            if tryMask[v, Invariant(u)] {
              DropCore(v, Invariant(u));
              SetTryNum(v, tryNum[v] - 1);
            }
          }
          LoseNext(t, u, k);
          k := k + 1;
        }
        assert running[..k] == running;
        ServeIs(s, u, t, S());
      } else {
        ServedAlready(s, u);
      }
    }

    method InvariantGuarantee()
      requires Valid() && Masks(S())
      modifies tryMask, tryNum
      ensures Valid() && S() == Guarantee(old(S()))
    {
      hide S, Recount, ServeOne;
      ghost var s := S();
      RecountAll();
      ghost var r := S();
      var k := 0;
      while k < |running|
        invariant 0 <= k <= |running| && S() == ServeUpTo(r, k)
      {
        assert running[k] in running;
        Serve(running[k]);
        ServeStep(r, k + 1);
        k := k + 1;
      }
    }

    // The feedback.

    /** A container gives up its lowest cores, except its own, until it has no more than it wants. */
    method GiveUp(u: nat)
      requires Valid() && u < containers
      modifies tryMask, tryNum
      ensures S() == TrimOf(old(S()), [u])
    {
      hide S, Lowest;
      ghost var s := S();
      if desired[u] < tryNum[u] {
        ghost var o := s.try[u] - {Invariant(u)};
        ghost var gone: set<nat> := {};
        var diff := tryNum[u] - desired[u];
        var i := 2;
        SubNone(s, u);
        while i < nproc
          invariant 2 <= i <= nproc && S() == Sub(s, u, gone) && diff >= 0
          invariant forall c | c in gone :: c < i
          invariant Lowest(o, 2, nproc, s.tryNum[u] - s.desired[u]) == gone + Lowest(o, i, nproc, diff)
        {
          LowestStep(o, i, nproc, diff);
          assert i !in gone;
          assert i in o <==> tryMask[u, i] && i != Invariant(u);
          if diff <= 0 {
            LowestEnd(o, i + 1, nproc, diff);
          }
          if tryMask[u, i] && diff > 0 && i != Invariant(u) {
            DropCore(u, i);
            SubOne(s, u, gone, i);
            gone := gone + {i};
            diff := diff - 1;
          }
          i := i + 1;
        }
        LowestEnd(o, i, nproc, diff);
        SetTryNum(u, desired[u]);
      } else {
        TrimNoneIs(s, u);
      }
    }

    method AllotedFeedback()
      requires Valid()
      modifies tryMask, tryNum
      ensures S() == Trim(old(S()))
    {
      hide S, TrimOf, Trim;
      ghost var s := S();
      TrimNobody(s);
      var k := 0;
      while k < |running|
        invariant 0 <= k <= |running| && S() == TrimOf(s, running[..k])
      {
        assert running[k] in running;
        GiveUp(running[k]);
        TrimNext(s, k);
        k := k + 1;
      }
      assert running[..k] == running;
      TrimIs(s);
    }

    method VerifyScheduling() returns (r: int)
      requires Valid()
      ensures (forall v | v in S().running :: v < |S().tryNum|) && r == Verify(S())
    {
      var k := 0;
      while k < |running|
        invariant 0 <= k <= |running|
        invariant forall j | 0 <= j < k :: running[j] in running && tryNum[running[j]] <= desired[running[j]]
      {
        assert running[k] in running;
        if tryNum[running[k]] > desired[running[k]] {
          return -1;
        }
        k := k + 1;
      }
      return 0;
    }

    // What a container wants.

    method AnalyzeOne(u: nat, report: Report)
      requires Valid() && u < containers && tryNum[u] <= desired[u]
      modifies desired
      ensures S() == old(S()).(desired := old(S()).desired[u :=
        if report.started then NewWish(old(S()).desired[u], old(S()).tryNum[u], report.efficient, nproc)
        else old(S()).desired[u]])
    {
      if report.started {
        var satisfied := desired[u] == tryNum[u];
        if !report.efficient {
          desired[u] := Min(Max(desired[u] / 2, 1), nproc - 2);
        } else if satisfied {
          desired[u] := Min(Max(desired[u] * 2, 1), nproc - 2);
        }
      }
    }

    method AdaptiveScheduler(reports: seq<Report>)
      requires Valid() && |reports| == containers && Content(S())
      modifies desired
      ensures S() == Analyze(old(S()), reports)
    {
      hide S, Analyze, NewWish;
      ghost var s := S();
      var k := 0;
      while k < |running|
        invariant 0 <= k <= |running| && S() == AnalyzeOf(s, reports, running[..k])
      {
        assert running[k] in running;
        AnalyzeOne(running[k], reports[running[k]]);
        k := k + 1;
      }
      assert running[..k] == running;
      AnalyzeIs(s, reports);
    }

    // The calls.

    method ActivateContainer(u: nat)
      requires Valid() && u < containers && u !in running
      modifies `running, `nprogramRunning
      ensures Valid() && S() == Activate(old(S()), u)
    {
      running := running + [u];
      nprogramRunning := nprogramRunning + 1;
    }

    method DeactivateContainer(u: nat)
      requires Valid() && u in running
      modifies `running, `nprogramRunning
      ensures Valid() && S() == Deactivate(old(S()), u)
    {
      WithoutIs(running, u);
      var k := 0;
      while running[k] != u
        invariant 0 <= k < |running| && (forall j | 0 <= j < k :: running[j] != u)
        decreases |running| - k
      {
        k := k + 1;
      }
      WithoutAt(running, u, k);
      running := running[..k] + running[k + 1..];
      nprogramRunning := nprogramRunning - 1;
    }

    /** The part of platform_scheduling that every call goes through; the check at its end passes. */
    method Settle()
      requires Valid() && Sharing(S())
      modifies tryMask, tryNum
      ensures Valid() && Inv(S()) && S() == Settled(old(S()))
    {
      hide S, Guarantee, Trim;
      ghost var s := S();
      GuaranteeShares(s, Guarantee(s));
      GuaranteeFrame(s, Guarantee(s));
      InvariantGuarantee();
      TrimSettles(S(), Trim(S()));
      AllotedFeedback();
      var r := VerifyScheduling();
      ContentVerifies(S());
      assert r == 0;
    }

    /** A container is put on the list and gets its first cores. */
    method NewProgram(u: nat)
      requires Valid() && Inv(S()) && u < containers && u !in running
      modifies this, tryMask, tryNum, drepMask, idleMask
      ensures Valid() && Inv(S()) && S() == After(old(S()), Start(u))
    {
      hide S, Settled, PlatformScheduler.StartDrep, Activate, Inv;
      ghost var s := S();
      AfterStart(s, u);
      ActivateContainer(u);
      StartDrep(u);
      Settle();
    }

    /** A container is taken off the list; if others still run they get its cores. */
    method ExitProgram(u: nat)
      requires Valid() && Inv(S()) && u in running
      modifies this, tryMask, tryNum
      ensures Valid() && Inv(S()) && S() == After(old(S()), End(u))
    {
      hide S, Settled, PlatformScheduler.EndDrep, Inv;
      ghost var s := S();
      AfterEnd(s, u);
      DeactivateContainer(u);
      if nprogramRunning != 0 {
        EndDrep(u);
        Settle();
      }
    }

    method Timed(reports: seq<Report>)
      requires Valid() && Inv(S()) && |reports| == containers
      modifies tryMask, tryNum, desired
      ensures Valid() && Inv(S()) && S() == After(old(S()), Tick(reports))
    {
      hide S, Settled, Analyze;
      ghost var s := S();
      AfterTick(s, reports);
      if nprogramRunning != 0 {
        AdaptiveScheduler(reports);
        Settle();
      }
    }
  }

  lemma DrawnStep(r: nat, n: nat, i: nat, nproc: nat)
    requires n > 0 && i < nproc
    ensures Drawn(r, n, i, nproc) == (if Draw(r) % n == 0 then {i} else {}) + Drawn(NextRand(r), n, i + 1, nproc)
    ensures AfterDraws(r, i, nproc) == AfterDraws(NextRand(r), i + 1, nproc)
  {
  }

  ghost function WithDrawn(drawn: set<nat>, won: bool, i: nat): set<nat> {
    if won then drawn + {i} else drawn
  }

  lemma OneMoreDrawn(drawn: set<nat>, won: bool, i: nat, rest: set<nat>)
    requires i !in drawn
    ensures drawn + ((if won then {i} else {}) + rest) == WithDrawn(drawn, won, i) + rest
    ensures |WithDrawn(drawn, won, i)| == |drawn| + (if won then 1 else 0)
    ensures forall c :: c in WithDrawn(drawn, won, i) <==> c in drawn || (won && c == i)
  {
  }

  lemma NoneDrawn(r: nat, n: nat, i: nat, nproc: nat)
    requires n > 0 && i >= nproc
    ensures Drawn(r, n, i, nproc) == {} && AfterDraws(r, i, nproc) == r
  {
  }

  lemma SameAllocated(s: State, t: State, i: nat)
    requires t.running == s.running && t.try == s.try
    ensures Allocated(s, i) <==> Allocated(t, i)
  {
    SameAllocation(s, t);
    SameAllocation(t, s);
  }

  function Add(s: State, u: nat, m: set<nat>): State
    requires u < |s.try|
  {
    s.(try := s.try[u := s.try[u] + m])
  }

  /** The containers of a list, u aside, lose the cores of a mask. */
  function Strip(s: State, u: nat, m: set<nat>, l: seq<nat>): State {
    s.(try := seq(|s.try|, v requires 0 <= v < |s.try| => if v != u && v in l then s.try[v] - m else s.try[v]))
  }

  lemma AddNone(s: State, u: nat)
    requires u < |s.try|
    ensures Add(s, u, {}) == s
  {
    assert s.try[u] + {} == s.try[u];
  }

  lemma AddOne(s: State, u: nat, m: set<nat>, i: nat)
    requires u < |s.try|
    ensures Add(s, u, m).(try := Add(s, u, m).try[u := Add(s, u, m).try[u] + {i}]) == Add(s, u, m + {i})
  {
    assert s.try[u] + m + {i} == s.try[u] + (m + {i});
  }

  lemma StripNext(s: State, u: nat, m: set<nat>, k: nat)
    requires k < |s.running| && s.running[k] < |s.try|
    ensures var v := s.running[k]; var t := Strip(s, u, m, s.running[..k]);
      Strip(s, u, m, s.running[..k + 1]) == if v == u then t else t.(try := t.try[v := t.try[v] - m])
  {
    var v, t := s.running[k], Strip(s, u, m, s.running[..k]);
    var n := Strip(s, u, m, s.running[..k + 1]);
    assert s.running[..k + 1] == s.running[..k] + [v];
    var e := if v == u then t else t.(try := t.try[v := t.try[v] - m]);
    forall w | 0 <= w < |s.try| ensures n.try[w] == e.try[w] {
    }
    assert n.try == e.try;
  }

  lemma MoveNone(s: State, u: nat)
    requires u < |s.try|
    ensures Strip(Add(s, u, {}), u, {}, s.running) == s
  {
    AddNone(s, u);
    forall w | 0 <= w < |s.try| ensures Strip(s, u, {}, s.running).try[w] == s.try[w] {
      assert s.try[w] - {} == s.try[w];
    }
    assert Strip(s, u, {}, s.running).try == s.try;
  }

  lemma MoveOne(s: State, u: nat, m: set<nat>, i: nat, t: State)
    requires u < |s.try|
    requires var g := Strip(Add(s, u, m), u, m, s.running); t == g.(try := g.try[u := g.try[u] + {i}])
    ensures Strip(t, u, {i}, s.running) == Strip(Add(s, u, m + {i}), u, m + {i}, s.running)
  {
    var a, b := Strip(t, u, {i}, s.running), Strip(Add(s, u, m + {i}), u, m + {i}, s.running);
    forall w | 0 <= w < |s.try| ensures a.try[w] == b.try[w] {
      if w == u {
        assert s.try[u] + m + {i} == s.try[u] + (m + {i});
      } else {
        assert s.try[w] - m - {i} == s.try[w] - (m + {i});
      }
    }
    assert a.try == b.try;
  }

  lemma LowestStep(m: set<nat>, i: nat, nproc: nat, n: int)
    requires i < nproc
    ensures Lowest(m, i, nproc, n)
      == if n <= 0 then {} else if i in m then {i} + Lowest(m, i + 1, nproc, n - 1) else Lowest(m, i + 1, nproc, n)
  {
  }

  lemma LowestEnd(m: set<nat>, i: nat, nproc: nat, n: int)
    requires i >= nproc || n <= 0
    ensures Lowest(m, i, nproc, n) == {}
  {
  }

  lemma DrawnFit(r: nat, n: nat, nproc: nat)
    requires n > 0
    ensures forall c | c in Drawn(r, n, 2, nproc) :: 2 <= c < nproc
  {
    DrawnAreCores(r, n, 2, nproc);
  }

  lemma IdleIs(c: State, d: State, idle: set<nat>)
    requires d.running == c.running && d.try == c.try && idle == Idle(c)
    ensures forall i | 2 <= i < c.nproc :: i in idle <==> !Allocated(d, i)
  {
    forall i | 2 <= i < c.nproc ensures i in idle <==> !Allocated(d, i) {
      SameAllocated(c, d, i);
      assert IsCore(i, c.nproc);
    }
  }

  lemma HandIs(c: State, d: State, u: nat, idle: set<nat>, taken: set<nat>)
    requires u < |c.try| && d == c.(rand := d.rand)
    ensures Strip(Add(Add(d, u, idle), u, taken), u, taken, c.running) == Hand(c, u, idle, taken).(rand := d.rand)
  {
    assert Strip(Add(Add(d, u, idle), u, taken), u, taken, c.running).try == Hand(c, u, idle, taken).try;
  }

  lemma HandAll(c: State, u: nat)
    requires u < |c.try|
    ensures Add(c, u, AllCores(c.nproc)) == Hand(c, u, AllCores(c.nproc), {})
  {
    var a, h := Add(c, u, AllCores(c.nproc)), Hand(c, u, AllCores(c.nproc), {});
    forall w | 0 <= w < |c.try| ensures a.try[w] == h.try[w] {
    }
    assert a.try == h.try;
  }

  function RecountOf(s: State, l: seq<nat>): State
    requires |s.try| == |s.tryNum|
  {
    s.(tryNum := seq(|s.tryNum|, v requires 0 <= v < |s.tryNum| => if v in l then |s.try[v]| else s.tryNum[v]))
  }

  lemma RecountIs(s: State)
    requires |s.try| == |s.tryNum|
    ensures RecountOf(s, s.running) == Recount(s)
  {
  }

  /** The containers of a list, u aside, lose the own core of u, and count one less for it. */
  function LoseOwn(s: State, u: nat, l: seq<nat>): State
    requires |s.try| == |s.tryNum|
  {
    s.(try := seq(|s.try|, v requires 0 <= v < |s.try| =>
         if v != u && v in l then s.try[v] - {Invariant(u)} else s.try[v]),
       tryNum := seq(|s.tryNum|, v requires 0 <= v < |s.tryNum| =>
         if v != u && v in l && Invariant(u) in s.try[v] then s.tryNum[v] - 1 else s.tryNum[v]))
  }

  lemma LoseNext(s: State, u: nat, k: nat)
    requires |s.try| == |s.tryNum| && k < |s.running| && s.running[k] < |s.try|
    requires forall i, j | 0 <= i < j < |s.running| :: s.running[i] != s.running[j]
    ensures var v := s.running[k]; var t := LoseOwn(s, u, s.running[..k]);
      LoseOwn(s, u, s.running[..k + 1]) ==
        if v == u || Invariant(u) !in t.try[v] then t
        else t.(try := t.try[v := t.try[v] - {Invariant(u)}], tryNum := t.tryNum[v := t.tryNum[v] - 1])
  {
    var v, t, n := s.running[k], LoseOwn(s, u, s.running[..k]), LoseOwn(s, u, s.running[..k + 1]);
    assert s.running[..k + 1] == s.running[..k] + [v];
    assert v !in s.running[..k];
    var e := if v == u || Invariant(u) !in t.try[v] then t
             else t.(try := t.try[v := t.try[v] - {Invariant(u)}], tryNum := t.tryNum[v := t.tryNum[v] - 1]);
    forall w | 0 <= w < |s.try| ensures n.try[w] == e.try[w] && n.tryNum[w] == e.tryNum[w] {
      if w == v && Invariant(u) !in s.try[v] {
        assert s.try[v] - {Invariant(u)} == s.try[v];
      }
    }
    assert n.try == e.try && n.tryNum == e.tryNum;
  }

  lemma ServeIs(s: State, u: nat, t: State, e: State)
    requires u < |s.try| == |s.tryNum| && s.tryNum[u] == 0
    requires t == s.(try := s.try[u := s.try[u] + {Invariant(u)}], tryNum := s.tryNum[u := 1])
    requires e == LoseOwn(t, u, s.running)
    ensures e == ServeOne(s, u)
  {
    var n := ServeOne(s, u);
    forall w | 0 <= w < |s.try| ensures n.try[w] == e.try[w] && n.tryNum[w] == e.tryNum[w] {
    }
    assert n.try == e.try && n.tryNum == e.tryNum;
  }

  lemma ServedAlready(s: State, u: nat)
    requires u < |s.try| == |s.tryNum| && s.tryNum[u] != 0
    ensures ServeOne(s, u) == s
  {
  }

  function Sub(s: State, u: nat, m: set<nat>): State
    requires u < |s.try|
  {
    s.(try := s.try[u := s.try[u] - m])
  }

  lemma SubNone(s: State, u: nat)
    requires u < |s.try|
    ensures Sub(s, u, {}) == s
  {
    assert s.try[u] - {} == s.try[u];
  }

  lemma SubOne(s: State, u: nat, m: set<nat>, i: nat)
    requires u < |s.try|
    ensures Sub(s, u, m).(try := Sub(s, u, m).try[u := Sub(s, u, m).try[u] - {i}]) == Sub(s, u, m + {i})
  {
    assert s.try[u] - m - {i} == s.try[u] - (m + {i});
  }

  /** The feedback for the containers of a list. */
  function TrimOf(s: State, l: seq<nat>): State
    requires |s.try| == |s.tryNum| == |s.desired|
  {
    s.(try := seq(|s.try|, v requires 0 <= v < |s.try| =>
         if v in l then Kept(s.try[v], Invariant(v), s.nproc, s.tryNum[v] - s.desired[v]) else s.try[v]),
       tryNum := seq(|s.tryNum|, v requires 0 <= v < |s.tryNum| =>
         if v in l then Min(s.tryNum[v], s.desired[v]) else s.tryNum[v]))
  }

  lemma TrimNoneIs(s: State, u: nat)
    requires |s.try| == |s.tryNum| == |s.desired| && u < |s.try| && s.desired[u] >= s.tryNum[u]
    ensures s == TrimOf(s, [u])
  {
    LowestEnd(s.try[u] - {Invariant(u)}, 2, s.nproc, s.tryNum[u] - s.desired[u]);
    assert s.try[u] - {} == s.try[u];
    assert s.try == TrimOf(s, [u]).try && s.tryNum == TrimOf(s, [u]).tryNum;
  }

  lemma TrimNobody(s: State)
    requires |s.try| == |s.tryNum| == |s.desired|
    ensures TrimOf(s, s.running[..0]) == s
  {
    assert TrimOf(s, s.running[..0]).try == s.try && TrimOf(s, s.running[..0]).tryNum == s.tryNum;
  }

  lemma TrimNext(s: State, k: nat)
    requires |s.try| == |s.tryNum| == |s.desired| && k < |s.running|
    requires forall i, j | 0 <= i < j < |s.running| :: s.running[i] != s.running[j]
    ensures TrimOf(TrimOf(s, s.running[..k]), [s.running[k]]) == TrimOf(s, s.running[..k + 1])
  {
    var l, u, l' := s.running[..k], s.running[k], s.running[..k + 1];
    assert l' == l + [u] && u !in l;
    hide TrimOf;
    TrimShape(s, l);
    TrimShape(s, l');
    var t, b := TrimOf(s, l), TrimOf(s, l');
    TrimShape(t, [u]);
    var a := TrimOf(t, [u]);
    forall w | 0 <= w < |s.try| ensures a.try[w] == b.try[w] && a.tryNum[w] == b.tryNum[w] {
      TrimNextAt(s, l, t, u, l', w);
    }
    SameMasks(s, a, b);
  }

  lemma SameMasks(s: State, a: State, b: State)
    requires a == s.(try := a.try, tryNum := a.tryNum) && b == s.(try := b.try, tryNum := b.tryNum)
    requires |a.try| == |b.try| == |a.tryNum| == |b.tryNum|
    requires forall w | 0 <= w < |a.try| :: a.try[w] == b.try[w] && a.tryNum[w] == b.tryNum[w]
    ensures a == b
  {
    assert a.try == b.try && a.tryNum == b.tryNum;
  }

  lemma TrimShape(s: State, l: seq<nat>)
    requires |s.try| == |s.tryNum| == |s.desired|
    ensures var t := TrimOf(s, l); t == s.(try := t.try, tryNum := t.tryNum) && |t.try| == |t.tryNum| == |s.try|
  {
  }

  lemma TrimAt(s: State, l: seq<nat>, v: nat)
    requires |s.try| == |s.tryNum| == |s.desired| && v < |s.try|
    ensures |TrimOf(s, l).try| == |TrimOf(s, l).tryNum| == |s.try|
    ensures TrimOf(s, l).try[v] ==
      (if v in l then Kept(s.try[v], Invariant(v), s.nproc, s.tryNum[v] - s.desired[v]) else s.try[v])
    ensures TrimOf(s, l).tryNum[v] == (if v in l then Min(s.tryNum[v], s.desired[v]) else s.tryNum[v])
  {
  }

  lemma TrimNextAt(s: State, l: seq<nat>, t: State, u: nat, l': seq<nat>, w: nat)
    requires |s.try| == |s.tryNum| == |s.desired| && w < |s.try| && l' == l + [u] && u !in l
    requires t == TrimOf(s, l) && t == s.(try := t.try, tryNum := t.tryNum) && |t.try| == |t.tryNum| == |s.try|
    ensures |TrimOf(t, [u]).try| == |TrimOf(t, [u]).tryNum| == |s.try|
    ensures |TrimOf(s, l').try| == |TrimOf(s, l').tryNum| == |s.try|
    ensures TrimOf(t, [u]).try[w] == TrimOf(s, l').try[w] && TrimOf(t, [u]).tryNum[w] == TrimOf(s, l').tryNum[w]
  {
    hide TrimOf, Kept, Min;
    TrimAt(s, l, w);
    TrimAt(t, [u], w);
    TrimAt(s, l', w);
  }

  lemma TrimIs(s: State)
    requires |s.try| == |s.tryNum| == |s.desired|
    ensures TrimOf(s, s.running) == Trim(s)
  {
    assert TrimOf(s, s.running).try == Trim(s).try && TrimOf(s, s.running).tryNum == Trim(s).tryNum;
  }

  function AnalyzeOf(s: State, reports: seq<Report>, l: seq<nat>): State
    requires |s.desired| == |s.tryNum| == |reports|
  {
    s.(desired := seq(|s.desired|, v requires 0 <= v < |s.desired| =>
      if v in l && reports[v].started then NewWish(s.desired[v], s.tryNum[v], reports[v].efficient, s.nproc)
      else s.desired[v]))
  }

  lemma AnalyzeIs(s: State, reports: seq<Report>)
    requires |s.desired| == |s.tryNum| == |reports|
    ensures AnalyzeOf(s, reports, s.running) == Analyze(s, reports)
  {
    assert AnalyzeOf(s, reports, s.running).desired == Analyze(s, reports).desired;
  }

  lemma {:induction false} WithoutAt(l: seq<nat>, u: nat, k: nat)
    requires k < |l| && l[k] == u && (forall j | 0 <= j < k :: l[j] != u)
    ensures Without(l, u) == l[..k] + l[k + 1..]
  {
    if k > 0 {
      WithoutAt(l[1..], u, k - 1);
      assert l[..k] == [l[0]] + l[1..][..k - 1];
      assert l[k + 1..] == l[1..][k..];
    }
  }

  function Settled(s: State): State
    requires Shape(s)
  {
    GuaranteeFrame(s, Guarantee(s));
    Trim(Guarantee(s))
  }

  lemma AfterStart(s: State, u: nat)
    requires Inv(s) && u < |s.try| && u !in s.running
    ensures var d := PlatformScheduler.StartDrep(Activate(s, u), u); Sharing(d) && After(s, Start(u)) == Settled(d)
  {
    var d := PlatformScheduler.StartDrep(Activate(s, u), u);
    StartShares(s, u, d);
    hide Guarantee, Trim, PlatformScheduler.StartDrep;
    assert Decide(s, Start(u)) == d;
  }

  lemma AfterEnd(s: State, u: nat)
    requires Inv(s) && u in s.running
    ensures var d := Deactivate(s, u);
      && d.nrunning == |d.running| && Inv(d) && (forall v | v in d.running :: v < |d.try|) && u !in d.running
      && if d.nrunning == 0 then After(s, End(u)) == d
         else var e := PlatformScheduler.EndDrep(d, u); Sharing(e) && After(s, End(u)) == Settled(e)
  {
    WithoutIs(s.running, u);
    DeactivateKeepsSharing(s, u);
    var d := Deactivate(s, u);
    if d.nrunning > 0 {
      var e := PlatformScheduler.EndDrep(d, u);
      EndShares(s, u, d, e);
    }
    hide Guarantee, Trim, PlatformScheduler.EndDrep;
  }

  lemma AfterTick(s: State, reports: seq<Report>)
    requires Inv(s) && |reports| == |s.try|
    ensures if s.nrunning == 0 then After(s, Tick(reports)) == s
            else Sharing(Analyze(s, reports)) && After(s, Tick(reports)) == Settled(Analyze(s, reports))
  {
    if s.nrunning > 0 {
      AnalyzeKeepsSharing(s, reports, Analyze(s, reports));
    }
    hide Guarantee, Trim, Analyze;
  }
}
