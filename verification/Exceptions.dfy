/** When the owner of a deque is sent into the exception handler, and how it leaves it. */
module Exceptions {

  import opened Commons
  import opened The

  lemma {:induction false} StatesKeepInv(r: Run, k: nat)
    requires IsRun(r) && Inv(r.states[0]) && k < |r.states|
    ensures Inv(r.states[k])
    decreases k
  {
    hide Inv, Apply, Emit, Enabled;
    if k > 0 {
      StatesKeepInv(r, k - 1);
      assert StepOf(r.states[k - 1], r.acts[k - 1], r.events[k - 1], r.states[k]);
      StepRefines(r.states[k - 1], r.acts[k - 1]);
    }
  }

  // ---------------------------------------------------------------------------------------------
  // Sleep requests
  // ---------------------------------------------------------------------------------------------

  /** The owner has entered the handler and not looked at the sleep request yet. */
  predicate Entering(o: OwnerPc) {
    o.Undecided? && (o.h.WaitDeque? || o.h.WaitClosure? || o.h.HaveBoth? || o.h.ExcReset?)
  }

  predicate Honouring(s: State) {
    || (Entering(s.owner) && s.elastic == SleepRequested)
    || (s.owner == Undecided(Compare) && s.elastic == ToSleep && s.head > s.tail && s.lock == ByOwner)
  }

  /** The owner is on its way to sleep, with its frame in hand or with everything stolen. */
  predicate Honoured(s: State) {
    s.elastic == ToSleep && (s.owner == ParkClosure || s.owner == Drained(LostClosure))
  }

  lemma HonourStep(s: State, a: Action)
    requires Inv(s) && Enabled(s, a) && Honouring(s)
    ensures Honouring(Apply(s, a)) || Honoured(Apply(s, a))
  {
    hide PointersAgree, ExcAgrees, ClosuresAgree;
  }

  lemma HonouredDecides(s: State)
    requires Honouring(s) || Honoured(s)
    ensures s.owner.Undecided? <==> Honouring(s)
  {
  }

  /** A sleep request that stands when the owner enters the handler is answered by it: the handler decides to sleep, if
      anything is left with the frame in hand, otherwise without any. */
  lemma {:induction false} RequestIsHonoured(r: Run, k: nat, m: nat)
    requires IsRun(r) && Inv(r.states[0]) && k < m < |r.states|
    requires r.states[k].elastic == SleepRequested && Entering(r.states[k].owner)
    requires forall j | k <= j < m :: r.states[j].owner.Undecided?
    ensures if r.states[m].owner.Undecided? then Honouring(r.states[m]) else Honoured(r.states[m])
    decreases m
  {
    hide Inv, Apply, Enabled, Emit;
    if k + 1 < m {
      RequestIsHonoured(r, k, m - 1);
    }
    StatesKeepInv(r, m - 1);
    assert StepOf(r.states[m - 1], r.acts[m - 1], r.events[m - 1], r.states[m]);
    HonourStep(r.states[m - 1], r.acts[m - 1]);
    HonouredDecides(r.states[m]);
  }

  /** A worker that was parked with a frame in hand is active again, in user code, and has its frame. */
  lemma WakesUp(r: Run, k: nat)
    requires IsRun(r) && Inv(r.states[0]) && k < |r.acts| && r.acts[k] == Go && r.states[k].owner == Parked
    ensures r.states[k + 1].owner == User && r.states[k + 1].elastic == Active
    ensures r.states[k + 1].head == r.states[k].head <= r.states[k + 1].tail == r.states[k].tail
  {
    StatesKeepInv(r, k);
    assert StepOf(r.states[k], r.acts[k], r.events[k], r.states[k + 1]);
  }

  lemma SignalAbove(s: State, a: Action)
    requires Inv(s) && Enabled(s, a) && (a.SignalAtomic? || a.SignalWrite?) && !s.owner.Drained?
    ensures Apply(s, a).exc > Apply(s, a).tail && Apply(s, a).owner == s.owner
  {
    hide ExcAgrees, ClosuresAgree, LocksAgree;
  }

  /** A signal sends the owner into the handler with the next frame that it leaves: once exc is written it is above
      tail, however long ago the signaller has loaded that. */
  lemma SignalIsNoticed(r: Run, k: nat)
    requires IsRun(r) && Inv(r.states[0]) && k < |r.acts| && (r.acts[k].SignalAtomic? || r.acts[k].SignalWrite?)
    requires !r.states[k].owner.Drained?
    ensures r.states[k + 1].exc > r.states[k + 1].tail
    ensures k + 1 < |r.acts| && r.acts[k + 1] == Go && r.states[k + 1].owner == Undecided(TailLowered) ==>
              r.states[k + 2].owner == Undecided(WaitDeque)
  {
    StatesKeepInv(r, k);
    assert StepOf(r.states[k], r.acts[k], r.events[k], r.states[k + 1]);
    SignalAbove(r.states[k], r.acts[k]);
    hide Inv;
    if k + 1 < |r.acts| {
      assert StepOf(r.states[k + 1], r.acts[k + 1], r.events[k + 1], r.states[k + 2]);
    }
  }

  /** A worker that slept in the runtime is active again when it is woken. */
  lemma WakesInTheRuntime(r: Run, k: nat)
    requires IsRun(r) && k < |r.acts| && r.acts[k] == Wake
    ensures r.states[k].elastic == Asleep && r.states[k + 1].elastic == Active
    ensures r.states[k + 1].owner == r.states[k].owner
  {
    assert StepOf(r.states[k], r.acts[k], r.events[k], r.states[k + 1]);
  }

  /** Nor does a worker sleep in the runtime unless it was asked to, and has nothing left. */
  lemma DozesOnRequest(r: Run, k: nat)
    requires IsRun(r) && Inv(r.states[0]) && k < |r.acts| && r.acts[k] == Doze
    ensures r.states[k].elastic == SleepRequested || r.states[k].elastic == ToSleep
    ensures r.states[k + 1].elastic == Asleep && r.states[k].head >= r.states[k].tail && r.states[k].owner.Drained?
  {
    StatesKeepInv(r, k);
    assert StepOf(r.states[k], r.acts[k], r.events[k], r.states[k + 1]);
  }

  /** Nobody sleeps who was not asked: a worker that parks in the handler has a request. */
  lemma ParksOnRequest(r: Run, k: nat)
    requires IsRun(r) && Inv(r.states[0]) && k < |r.acts| && r.states[k].owner.Undecided?
    requires r.states[k + 1].owner == ParkClosure
    ensures r.states[k].elastic == SleepRequested && r.states[k + 1].elastic == ToSleep
    ensures r.states[k].head <= r.states[k].tail
  {
    assert StepOf(r.states[k], r.acts[k], r.events[k], r.states[k + 1]);
  }

  // ---------------------------------------------------------------------------------------------
  // The reset of exc
  // ---------------------------------------------------------------------------------------------

  /** A thief claims a frame, or somebody signals. */
  predicate Raises(s: State, a: Action) {
    a.SignalAtomic? || a.SignalWrite? || (a == Thief && s.lock.ByThief? && s.lock.pc.IncStore?)
  }

  /** exc says that all frames are the owner's, and nobody is about to take one or has to lower exc again. */
  predicate Calm(s: State) {
    && s.exc == s.head && !s.owner.Drained? && s.owner != RequestAgain && s.owner != SignalSelf
    && (s.lock.ByThief? ==>
          var pc := s.lock.pc; pc.Entered? || pc.IncLoad? || pc.IncStore? || pc.GiveUp? || pc.Unlock?)
  }

  /** The handler resets exc, and so does the return to a caller. */
  predicate Resets(s: State, a: Action) {
    a == Go && (s.owner == Undecided(HaveBoth) || s.owner == CallResume)
  }

  lemma ResetIsCalm(s: State, a: Action)
    requires Inv(s) && Enabled(s, a) && Resets(s, a)
    ensures Calm(Apply(s, a))
  {
    hide PointersAgree, ExcAgrees, ClosuresAgree;
  }

  lemma CalmStep(s: State, a: Action)
    requires Calm(s) && Enabled(s, a) && !Raises(s, a) && !Apply(s, a).owner.Drained?
    ensures Calm(Apply(s, a))
  {
  }

  lemma {:induction false} StaysCalm(r: Run, k: nat, m: nat)
    requires IsRun(r) && Inv(r.states[0]) && k < m < |r.states| && Resets(r.states[k], r.acts[k])
    requires forall j | k < j < m :: !Raises(r.states[j], r.acts[j])
    requires forall j | k < j <= m :: !r.states[j].owner.Drained?
    ensures Calm(r.states[m])
    decreases m
  {
    hide Inv, Apply, Enabled, Emit, Calm, Raises, Resets;
    assert StepOf(r.states[m - 1], r.acts[m - 1], r.events[m - 1], r.states[m]);
    if k + 1 == m {
      StatesKeepInv(r, k);
      ResetIsCalm(r.states[k], r.acts[k]);
    } else {
      StaysCalm(r, k, m - 1);
      CalmStep(r.states[m - 1], r.acts[m - 1]);
    }
  }

  /** Once exc is reset nothing but a thief's claim or a signal sends the owner into the handler: until then it leaves
      every frame without a lock. */
  lemma LeavesWithoutALock(r: Run, k: nat, m: nat)
    requires IsRun(r) && Inv(r.states[0]) && k < m < |r.acts| && Resets(r.states[k], r.acts[k])
    requires forall j | k < j < m :: !Raises(r.states[j], r.acts[j])
    requires forall j | k < j <= m :: !r.states[j].owner.Drained?
    requires r.acts[m] == Go && r.states[m].owner == Undecided(TailLowered) && r.states[m].head <= r.states[m].tail
    ensures r.states[m + 1].owner == User
    ensures 0 <= r.states[m].tail < |r.states[m].slots| && r.events[m] == Pop(r.states[m].slots[r.states[m].tail])
  {
    StaysCalm(r, k, m);
    assert StepOf(r.states[m], r.acts[m], r.events[m], r.states[m + 1]);
  }

  /** Nobody leaves the lock of the top closure held: it is the owner's or the thief's only where their program counters
      say so, and another worker's only from the step in which that worker takes it. */
  lemma NobodyLeavesALock(r: Run, k: nat)
    requires IsRun(r) && Inv(r.states[0]) && k < |r.acts|
    ensures var s, s' := r.states[k], r.states[k + 1];
            && (s'.closureLock == OwnerHas <==> OwnerHoldsClosure(s'.owner))
            && (s'.closureLock == ThiefHas <==> s'.lock.ByThief? && ThiefHoldsClosure(s'.lock.pc))
            && (s'.closureLock == OtherHas ==> s.closureLock == OtherHas || r.acts[k] == OtherLock)
  {
    StatesKeepInv(r, k + 1);
    assert StepOf(r.states[k], r.acts[k], r.events[k], r.states[k + 1]);
    OthersLock(r.states[k], r.acts[k]);
    hide Apply, Enabled;
  }

  lemma OthersLock(s: State, a: Action)
    requires Enabled(s, a)
    ensures Apply(s, a).closureLock == OtherHas ==> s.closureLock == OtherHas || a == OtherLock
  {
  }

  // ---------------------------------------------------------------------------------------------
  // Every operation ends
  // ---------------------------------------------------------------------------------------------

  /** How many steps of its own the owner is away from user code, at most. */
  function Rank(o: OwnerPc): nat {
    match o
    case User => 0
    case SlotWritten => 1
    case Undecided(h) =>
      (match h
       case TailLowered => 24
       case WaitDeque => 23
       case WaitClosure => 22
       case HaveBoth => 21
       case ExcReset => 20
       case Compare => 19)
    case Drained(r) =>
      (match r
       case LostClosure => 18
       case LostDeque => 17
       case Runtime => 16
       case RuntimeLocked => 15
       case RuntimeUnlock => 14
       case NoClosure => 13
       case SetHead => 12
       case SetTail => 11
       case SetExc => 10
       case AddLocked => 9
       case AddUnlock => 8)
    case ParkClosure => 3
    case ParkDeque => 2
    case Parked => 1
    case KeepClosure => 2
    case KeepDeque => 1
    case RequestAgain => 2
    case SignalSelf => 1
    case SlowWaitDeque => 17
    case SlowWaitClosure => 16
    case SlowBoth => 15
    case CallResume => 2
    case CallUnlock => 1
  }

  predicate OwnStep(a: Action) {
    a.Go? || a.Choose? || a.CallReturn?
  }

  predicate Begins(a: Action) {
    a.Detach? || a.Leave? || a.Sync?
  }

  lemma OwnStepsLead(s: State, a: Action)
    requires Enabled(s, a) && OwnStep(a)
    ensures Rank(Apply(s, a).owner) < Rank(s.owner)
  {
  }

  lemma OthersLeaveTheOwner(s: State, a: Action)
    requires Enabled(s, a) && !OwnStep(a) && !Begins(a)
    ensures Apply(s, a).owner == s.owner
  {
    hide HandlerGo, RestartGo, UserGo;
  }

  lemma BeginsInUserCode(s: State, a: Action)
    requires Enabled(s, a) && Begins(a)
    ensures s.owner == User && Apply(s, a).owner != User && Rank(Apply(s, a).owner) <= 24
  {
  }

  function OwnSteps(acts: seq<Action>): nat {
    if acts == [] then 0 else OwnSteps(acts[..|acts| - 1]) + (if OwnStep(acts[|acts| - 1]) then 1 else 0)
  }

  /** Whatever others do meanwhile, an operation of the owner takes it back to user code with at most 24 steps of its
      own; in between it may have slept, or looked for the next closure. */
  lemma {:induction false} OperationsEnd(r: Run, k: nat, m: nat)
    requires IsRun(r) && k < m < |r.states| && Begins(r.acts[k])
    requires forall j | k < j < m :: r.states[j].owner != User
    ensures OwnSteps(r.acts[k + 1..m]) + Rank(r.states[m].owner) <= 24
    decreases m
  {
    hide Apply, Enabled, Emit, Rank;
    assert StepOf(r.states[m - 1], r.acts[m - 1], r.events[m - 1], r.states[m]);
    if Begins(r.acts[m - 1]) {
      BeginsInUserCode(r.states[m - 1], r.acts[m - 1]);
    } else if OwnStep(r.acts[m - 1]) {
      OwnStepsLead(r.states[m - 1], r.acts[m - 1]);
    } else {
      OthersLeaveTheOwner(r.states[m - 1], r.acts[m - 1]);
    }
    if m == k + 1 {
      assert r.acts[k + 1..m] == [];
    } else {
      OperationsEnd(r, k, m - 1);
      assert r.acts[k + 1..m] == r.acts[k + 1..m - 1] + [r.acts[m - 1]];
    }
  }

  /** How many steps a thief is away from giving the deque lock up, at most. */
  function ThiefRank(lock: DequeLock): nat {
    match lock
    case Free | ByOwner => 0
    case ByThief(_, pc) =>
      (match pc
       case Entered => 10
       case IncLoad => 9
       case IncStore(_) => 8
       case ReadHead => 7
       case ReadTail(_) => 6
       case Won => 5
       case TakeSame | TakeNew => 4
       case DecLoad => 4
       case AddSame | AddNew => 3
       case DecStore(_) => 3
       case XtractTop => 2
       case GiveUp => 2
       case Unlock => 1)
  }

  predicate ThiefStep(a: Action) {
    a == Thief || a.ThiefSame?
  }

  lemma OthersLeaveTheThief(s: State, a: Action)
    requires Inv(s) && Enabled(s, a) && s.lock.ByThief? && !ThiefStep(a)
    ensures Apply(s, a).lock == s.lock
  {
    hide PointersAgree, ExcAgrees, ClosuresAgree;
  }

  /** The thief of the first lock comes closer to its end, or gives the lock up. */
  predicate Leads(lock: DequeLock, lock': DequeLock) {
    && ThiefRank(lock') < ThiefRank(lock) <= 10
    && (lock' == Free || (lock.ByThief? && lock'.ByThief? && lock'.thief == lock.thief))
  }

  lemma DekkerLeads(s: State)
    requires Enabled(s, Thief) && !Promoting(s.lock.pc)
    ensures Leads(s.lock, DekkerGo(s).lock)
  {
  }

  lemma PromoteLeads(s: State)
    requires Enabled(s, Thief) && Promoting(s.lock.pc)
    ensures Leads(s.lock, PromoteGo(s).lock)
  {
  }

  /** A steal, won or lost, ends after at most ten steps of the thief, and until then nobody else takes the lock. */
  lemma StealsEnd(s: State, a: Action)
    requires Inv(s) && Enabled(s, a) && s.lock.ByThief?
    ensures if ThiefStep(a) then Leads(s.lock, Apply(s, a).lock) else Apply(s, a).lock == s.lock
  {
    hide DekkerGo, PromoteGo, Inv;
    if a == Thief {
      if Promoting(s.lock.pc) { PromoteLeads(s); } else { DekkerLeads(s); }
    } else if !ThiefStep(a) {
      OthersLeaveTheThief(s, a);
    }
  }
}
