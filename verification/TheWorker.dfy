/** The worker record that owner, thieves and platform update in place. */
module TheWorker {
  // Each access to it is one step of the protocol; the operations of the owner are proved against the deque of frames
  // although any number of steps of others may come between two of their accesses.

  import opened Commons
  import opened The

  /** How leaving a detached frame ends: the frame is the owner's, now or after sleeping, or it was stolen; or the
      owner is still waiting for one of its locks. */
  datatype Outcome = Popped(frame: nat) | Parking(frame: nat) | Stolen | Waiting

  /** What the owner may count on while others move. */
  ghost predicate Meanwhile(s: State, s': State) {
    && s'.limit == s.limit && s'.split == s.split && s'.slots == s.slots && s'.next == s.next
    && s'.tail == s.tail && s'.owner == s.owner && s.head <= s'.head
    && (s.lock == ByOwner ==> s'.lock == ByOwner && s'.head == s.head)
    && (s.closureLock == OwnerHas ==> s'.closureLock == OwnerHas)
    && (s.elastic == ToSleep ==> s'.elastic == ToSleep)
  }

  predicate OfOthers(a: Action) {
    !a.Go? && !OwnersChoice(a)
  }

  /** Whatever thieves, other workers and signallers do keeps to it, step by step. */
  lemma OthersKeepTo(s: State, s': State, a: Action)
    requires Inv(s) && Meanwhile(s, s') && Inv(s') && OfOthers(a) && Enabled(s', a)
    ensures Inv(Apply(s', a)) && Meanwhile(s, Apply(s', a))
  {
    hide Inv, Meanwhile, Apply, Enabled, Live, DequeStep, Emit, OfOthers;
    StepRefines(s', a);
    LocksNest(s');
    OthersStep(s', a);
    MeanwhileTwice(s, s', Apply(s', a));
  }

  lemma OthersStep(s: State, a: Action)
    requires OfOthers(a) && Enabled(s, a) && (s.closureLock == OwnerHas ==> s.lock == ByOwner)
    ensures Meanwhile(s, Apply(s, a))
  {
    hide HandlerGo, RestartGo, UserGo;
  }

  lemma MeanwhileTwice(s: State, s': State, s'': State)
    requires Meanwhile(s, s') && Meanwhile(s', s'')
    ensures Meanwhile(s, s'')
  {
  }

  /** The owner takes the closure lock only inside the deque lock. */
  lemma LocksNest(s: State)
    requires Inv(s)
    ensures s.closureLock == OwnerHas ==> s.lock == ByOwner
  {
  }

  /** The frames that were there and have not been stolen since. */
  function Rest(live: seq<nat>, stolen: int): seq<nat> {
    if 0 <= stolen <= |live| then live[stolen..] else []
  }

  /** Meanwhile frames can only be stolen, the oldest first. */
  lemma LiveMeanwhile(s: State, s': State)
    requires Inv(s) && Inv(s') && Meanwhile(s, s') && !s.owner.Drained?
    ensures 0 <= s'.head - s.head <= |Live(s)| && Live(s') == Rest(Live(s), s'.head - s.head)
  {
  }

  lemma LiveOfPointers(s: State, s': State)
    requires s'.head == s.head && s'.tail == s.tail && s'.owner == s.owner && s'.slots == s.slots
    ensures Live(s') == Live(s)
  {
  }

  /** The owner's own steps since s0 have left the shadow stack and tail alone; thieves may have raised head. */
  ghost predicate Since(s0: State, s: State) {
    s.limit == s0.limit && s.slots == s0.slots && s.tail == s0.tail && s0.head <= s.head
  }

  /** What has become of the youngest frame of a deque that held `live` when head was `h`. */
  ghost predicate Left(live: seq<nat>, h: int, s: State, o: Outcome) {
    match o
    case Popped(f) => s.owner == User && Rest(live, s.head - h) == Live(s) + [f]
    case Parking(f) => s.owner == Parked && s.elastic == ToSleep && Rest(live, s.head - h) == Live(s) + [f]
    case Stolen => s.owner == Drained(Runtime) && s.head - h == |live|
    case Waiting => s.owner.Undecided? && Rest(live, s.head - h) == Live(s)
  }

  lemma LeftIs(s0: State, s: State, o: Outcome)
    requires Inv(s0) && Inv(s) && s0.owner.Undecided? && Since(s0, s)
    requires match o
             case Popped(f) => s.owner == User && s.head <= s.tail && f == s.slots[s.tail]
             case Parking(f) => s.owner == Parked && s.elastic == ToSleep && f == s.slots[s.tail]
             case Stolen => s.owner == Drained(Runtime)
             case Waiting => s.owner.Undecided?
    ensures Left(Live(s0), s0.head, s, o)
  {
    hide PointersAgree, LocksAgree, ClosuresAgree, ExcAgrees, Live, Rest;
    LiveOfUndecided(s0);
    RestOfSlots(s.slots, s0.head, s.head, s0.tail + 1);
    match o
    case Popped(_) | Parking(_) => LiveAbove(s);
    case Stolen => NothingLeft(s);
    case Waiting => LiveOfUndecided(s);
  }

  lemma NothingLeft(s: State)
    requires Inv(s) && s.owner == Drained(Runtime)
    ensures s.head == s.tail + 1
  {
  }

  lemma LiveOfUndecided(s: State)
    requires Inv(s) && s.owner.Undecided?
    ensures 0 <= s.head <= s.tail + 1 <= |s.slots| && Live(s) == s.slots[s.head..s.tail + 1]
  {
  }

  lemma RestOfSlots(slots: seq<nat>, a: int, b: int, c: int)
    requires 0 <= a <= c <= |slots| && a <= b
    ensures Rest(slots[a..c], b - a) == if b <= c then slots[b..c] else []
  {
  }

  lemma LiveAbove(s: State)
    requires Inv(s) && ((s.owner == User && s.head <= s.tail) || s.owner == Parked)
    ensures s.head <= s.tail < |s.slots| && s.slots[s.head..s.tail + 1] == Live(s) + [s.slots[s.tail]]
  {
  }

  lemma SinceMeanwhile(s0: State, s: State, s': State)
    requires Since(s0, s) && Meanwhile(s, s')
    ensures Since(s0, s') && s'.owner == s.owner
    ensures s.elastic == ToSleep ==> s'.elastic == ToSleep
  {
  }

  /** Where the handler goes from `h` with both locks held, up to its decision. */
  predicate Advances(h: HandlerPc, t: State) {
    match h
    case HaveBoth => t.owner == Undecided(ExcReset)
    case ExcReset => t.owner == Undecided(Compare) || (t.owner == ParkClosure && t.elastic == ToSleep)
    case Compare => t.owner == KeepClosure || t.owner == Drained(LostClosure)
    case TailLowered | WaitDeque | WaitClosure => false
  }

  lemma HandlerNext(s0: State, s: State)
    requires Inv(s) && Since(s0, s) && s.owner.Undecided?
    requires s.owner.h.HaveBoth? || s.owner.h.ExcReset? || s.owner.h.Compare?
    ensures Enabled(s, Go) && Since(s0, Apply(s, Go)) && Advances(s.owner.h, Apply(s, Go))
  {
  }

  /** The frame that tail is lowered to is still the youngest of the deque. */
  lemma Lowered(s: State)
    requires Inv(s) && s.owner == User
    ensures Enabled(s, Leave)
    ensures Inv(Apply(s, Leave)) && Live(Apply(s, Leave)) == Live(s)
    ensures Apply(s, Leave).head == s.head && Apply(s, Leave).owner == Undecided(TailLowered)
  {
    StepRefines(s, Leave);
  }

  /** With exc <= tail the frame at tail is the owner's. */
  lemma ReadExc(s: State)
    requires Inv(s) && s.owner == Undecided(TailLowered)
    ensures Enabled(s, Go)
    ensures s.exc <= s.tail ==> Apply(s, Go).owner == User && 0 <= s.head <= s.tail < |s.slots|
    ensures s.exc > s.tail ==> Apply(s, Go).owner == Undecided(WaitDeque)
    ensures Since(s, Apply(s, Go)) && Apply(s, Go).head == s.head
    ensures s.exc > s.tail ==> Live(Apply(s, Go)) == Live(s)
  {
    hide LocksAgree, ClosuresAgree, RestartGo, UserGo, DekkerGo, PromoteGo;
  }

  lemma WrittenIs(s: State)
    requires Inv(s) && s.owner == User && s.tail + 1 < s.limit
    ensures Enabled(s, Detach)
    ensures var t := Apply(s, Detach);
            Inv(t) && Live(t) == Live(s) && t.owner == SlotWritten && t.head == s.head && t.next == s.next
  {
    StepRefines(s, Detach);
  }

  lemma PushedIs(s: State, s': State)
    requires Inv(s') && Meanwhile(s, s') && s.owner == SlotWritten
    ensures Enabled(s', Go)
    ensures var t := Apply(s', Go);
            t.owner == User && t.head == s'.head && t.next == s.next + 1 && Live(t) == Live(s') + [s.next]
  {
    StepRefines(s', Go);
  }

  lemma LeftLater(s0: State, s: State, s': State, o: Outcome)
    requires Since(s0, s) && Left(Live(s), s.head, s', o) && Live(s) == Rest(Live(s0), s.head - s0.head)
    requires 0 <= s.head - s0.head <= |Live(s0)| && s'.head >= s.head
    ensures Left(Live(s0), s0.head, s', o)
  {
    hide Live;
    RestOfRest(Live(s0), s.head - s0.head, s'.head - s.head);
  }

  lemma RestOfRest(live: seq<nat>, a: int, b: int)
    requires 0 <= a <= |live| && 0 <= b
    ensures Rest(Rest(live, a), b) == Rest(live, a + b)
  {
  }

  lemma WonIs(s: State)
    requires Inv(s) && s.lock.ByThief? && s.lock.pc == Won
    ensures s.closures == [Running] && s.closureLock == ThiefHas && 0 <= s.head < |s.slots|
  {
  }

  /** The top closure is running, nobody has locked it, and it has a frame to take. */
  predicate Stealable(s: State) {
    Open(s) && s.head < s.tail
  }

  predicate Open(s: State) {
    s.closures != [] && s.closureLock == Unlocked && s.closures[0] == Running
  }

  /** The frame at head is gone; exc stays above head as it was. */
  function Robbed(s: State): State {
    s.(head := s.head + 1, exc := s.exc + 1)
  }

  /** A closure is in the deque again; a worker that still has to sleep has asked itself to. */
  function Added(s: State): State {
    if s.elastic == ToSleep then
      s.(owner := User, closures := [Running], elastic := SleepRequested, exc := s.tail + DEFAULT_DEQ_DEPTH)
    else s.(owner := User, closures := [Running])
  }

  /** A worker with a new closure and an empty deque. */
  function Renewed(s: State): State {
    Added(s.(head := 0, tail := 0, exc := 0, closures := [], closureLock := Unlocked))
  }

  lemma AddIs(s: State)
    requires Inv(s) && s.lock.ByThief?
    ensures s.lock.pc == AddSame ==> s.closures + [Running] == [Running, Running]
    ensures s.lock.pc == AddNew ==> s.closures + [Running] == [Running] && s.closureLock == Unlocked
  {
  }

  lemma StolenIs(s: State)
    requires Inv(s) && s.lock.ByThief? && (s.lock.pc == TakeSame || s.lock.pc == TakeNew)
    ensures Enabled(s, Thief) && Live(s) == [s.slots[s.head]] + Live(Apply(s, Thief))
  {
    hide LocksAgree, ClosuresAgree, HandlerGo, RestartGo, UserGo, DekkerGo, Live;
    StepRefines(s, Thief);
  }

  class Worker {
    const limit: nat
    const split: bool
    const shadowStack: array<nat>
    var next: nat
    var head: int
    var tail: int
    var exc: int
    var elastic: Elastic
    var owner: OwnerPc
    var lock: DequeLock
    var closureLock: ClosureLock
    var closures: seq<Status>
    var requests: nat
    var pending: multiset<int>

    ghost function Abs(): State
      reads this, shadowStack
    {
      State(limit, split, shadowStack[..], next, head, tail, exc, elastic, owner, lock, closureLock, closures,
            requests, pending)
    }

    /** A worker whose deque holds its first running closure. */
    constructor (limit: nat, split: bool)
      requires 1 <= limit
      ensures Abs() == Init(limit, split)
      ensures fresh(shadowStack)
      ensures Safe(limit, split) ==> Inv(Abs())
    {
      this.limit, this.split := limit, split;
      shadowStack := new nat[limit](i => 0);
      next, head, tail, exc := 0, 0, 0, 0;
      elastic, owner, lock, closureLock := Active, User, Free, Unlocked;
      closures, requests, pending := [Running], 0, multiset{};
    }

    // -------------------------------------------------------------------------------------------
    // Single accesses
    // -------------------------------------------------------------------------------------------

    /** Any number of steps of thieves, other workers and signallers; callers know no more of it than its contract. */
    method Others()
      requires Inv(Abs())
      modifies this
      ensures Inv(Abs()) && Meanwhile(old(Abs()), Abs())
    {
    }

    /** The read of exc in __cilkrts_leave_frame and the accesses of Cilk_exception_handler. */
    method HandlerStep()
      requires Inv(Abs()) && owner.Undecided? && Enabled(Abs(), Go)
      modifies this
      ensures Inv(Abs()) && Abs() == Apply(old(Abs()), Go)
    {
      hide PointersAgree, LocksAgree, ClosuresAgree, ExcAgrees, Live, DequeStep, Emit;
      StepRefines(Abs(), Go);
      match owner.h {
        case TailLowered =>
          if exc > tail { owner := Undecided(WaitDeque); } else { owner := User; }
        case WaitDeque =>
          lock := ByOwner;
          owner := Undecided(WaitClosure);
        case WaitClosure =>
          closureLock := OwnerHas;
          owner := Undecided(HaveBoth);
        case HaveBoth =>
          exc := head;
          owner := Undecided(ExcReset);
        case ExcReset =>
          owner := Undecided(Compare);
          if elastic == SleepRequested {
            elastic := ToSleep;
            if head <= tail { owner := ParkClosure; }
          }
        case Compare =>
          if head > tail {
            closures := ButBottom(closures) + [Returning];
            owner := Drained(LostClosure);
          } else {
            owner := KeepClosure;
          }
      }
    }

    /** The runtime drops the returning closure; setup_for_execution prepares the next one. */
    method RestartStep()
      requires Inv(Abs()) && owner.Drained? && Enabled(Abs(), Go)
      modifies this
      ensures Inv(Abs()) && Abs() == Apply(old(Abs()), Go)
    {
      hide PointersAgree, LocksAgree, ClosuresAgree, ExcAgrees, Live, DequeStep, Emit;
      StepRefines(Abs(), Go);
      match owner.r {
        case LostClosure => closureLock := Unlocked; owner := Drained(LostDeque);
        case LostDeque => lock := Free; owner := Drained(Runtime);
        case Runtime => lock := ByOwner; owner := Drained(RuntimeLocked);
        case RuntimeLocked =>
          closures := ButBottom(closures);
          closureLock := Unlocked;
          owner := Drained(RuntimeUnlock);
        case RuntimeUnlock => lock := Free; owner := Drained(NoClosure);
        case NoClosure => head := 0; owner := Drained(SetHead);
        case SetHead => tail := 0; owner := Drained(SetTail);
        case SetTail => exc := head; owner := Drained(SetExc);
        case SetExc => lock := ByOwner; owner := Drained(AddLocked);
        case AddLocked => closures := closures + [Running]; owner := Drained(AddUnlock);
        case AddUnlock => lock := Free; owner := if elastic == ToSleep then RequestAgain else User;
      }
    }

    /** The rest of detach, of parking and of the owner's request to itself, and the locks of a slow sync. */
    method UserStep()
      requires Inv(Abs()) && !owner.Undecided? && !owner.Drained? && Enabled(Abs(), Go)
      modifies this
      ensures Inv(Abs()) && Abs() == Apply(old(Abs()), Go)
    {
      hide PointersAgree, LocksAgree, ClosuresAgree, ExcAgrees, Live, DequeStep, Emit;
      StepRefines(Abs(), Go);
      match owner {
        case SlotWritten => tail := tail + 1; next := next + 1; owner := User;
        case ParkClosure => closureLock := Unlocked; owner := ParkDeque;
        case ParkDeque => lock := Free; owner := Parked;
        case Parked => elastic := Active; owner := User;
        case RequestAgain => elastic := SleepRequested; owner := SignalSelf;
        case SignalSelf => exc := tail + DEFAULT_DEQ_DEPTH; owner := User;
        case KeepClosure => closureLock := Unlocked; owner := KeepDeque;
        case KeepDeque | CallUnlock => lock := Free; owner := User;
        case SlowWaitDeque => lock := ByOwner; owner := SlowWaitClosure;
        case SlowWaitClosure => closureLock := OwnerHas; owner := SlowBoth;
        case CallResume => exc := head; closures := closures + [Running]; owner := CallUnlock;
      }
    }

    /** Closure_steal up to the outcome of do_dekker_on. */
    method DekkerStep()
      requires Inv(Abs()) && lock.ByThief? && !Promoting(lock.pc) && Enabled(Abs(), Thief)
      modifies this
      ensures Inv(Abs()) && Abs() == Apply(old(Abs()), Thief)
    {
      hide PointersAgree, LocksAgree, ClosuresAgree, ExcAgrees, Live, DequeStep, Emit;
      StepRefines(Abs(), Thief);
      var t := lock.thief;
      match lock.pc {
        case Entered =>
          if closures == [] || closureLock != Unlocked {
            lock := ByThief(t, Unlock);
          } else {
            closureLock := ThiefHas;
            lock := ByThief(t, if closures[0] == Running then IncLoad else GiveUp);
          }
        case IncLoad => lock := ByThief(t, IncStore(exc));
        case IncStore(e) => exc := e + 1; lock := ByThief(t, ReadHead);
        case ReadHead => lock := ByThief(t, ReadTail(head));
        case ReadTail(h) => lock := ByThief(t, if h >= tail then DecLoad else Won);
        case DecLoad => lock := ByThief(t, DecStore(exc));
        case DecStore(e) => exc := e - 1; lock := ByThief(t, GiveUp);
        case GiveUp => closureLock := Unlocked; lock := ByThief(t, Unlock);
      }
    }

    /** promote_child and the end of Closure_steal. */
    method PromoteStep()
      requires Inv(Abs()) && lock.ByThief? && Promoting(lock.pc) && Enabled(Abs(), Thief)
      modifies this
      ensures Inv(Abs()) && Abs() == Apply(old(Abs()), Thief)
    {
      hide PointersAgree, LocksAgree, ClosuresAgree, ExcAgrees, Live, DequeStep, Emit;
      StepRefines(Abs(), Thief);
      var t := lock.thief;
      match lock.pc {
        case TakeSame => head := head + 1; lock := ByThief(t, AddSame);
        case TakeNew => head := head + 1; lock := ByThief(t, AddNew);
        case AddSame => closures := closures + [Running]; lock := ByThief(t, XtractTop);
        case AddNew => closures := closures + [Running]; lock := ByThief(t, Unlock);
        case XtractTop =>
          closures := closures[1..];
          closureLock := Unlocked;
          lock := ByThief(t, Unlock);
        case Unlock => lock := Free;
      }
    }

    // -------------------------------------------------------------------------------------------
    // Whole operations
    // -------------------------------------------------------------------------------------------

    /** __cilkrts_detach: however much is stolen meanwhile, the frame becomes the youngest of the deque. */
    method Detach()
      requires Inv(Abs()) && owner == User && tail + 1 < limit
      modifies this, shadowStack
      ensures Inv(Abs()) && owner == User && next == old(next) + 1
      ensures Live(Abs()) == Rest(old(Live(Abs())), head - old(head)) + [old(next)]
    {
      hide Apply, Enabled, Live, Meanwhile, Rest;
      WrittenIs(Abs());
      Store();
      ghost var written := Abs();
      Others();
      LiveMeanwhile(written, Abs());
      PushedIs(written, Abs());
      UserStep();
    }

    method Store()
      requires Inv(Abs()) && owner == User && tail + 1 < limit && Enabled(Abs(), Action.Detach)
      modifies this, shadowStack
      ensures Inv(Abs()) && Abs() == Apply(old(Abs()), Action.Detach)
    {
      StepRefines(Abs(), Action.Detach);
      shadowStack[tail] := next;
      owner := SlotWritten;
    }

    /** Cilk_exception_handler, called again while it waits for a lock: it finds the youngest frame stolen exactly if
        the whole deque was, and otherwise keeps it, to return or to sleep first. */
    method Handler() returns (o: Outcome)
      requires Inv(Abs()) && (owner == Undecided(WaitDeque) || owner == Undecided(WaitClosure))
      modifies this
      ensures Inv(Abs()) && Left(old(Live(Abs())), old(head), Abs(), o) && head >= old(head)
    {
      ghost var s := Abs();
      if owner == Undecided(WaitDeque) {
        Others();
        if lock != Free {
          LeftIs(s, Abs(), Waiting);
          return Waiting;
        }
        HandlerStep();
      }
      Others();
      if closureLock != Unlocked {
        LeftIs(s, Abs(), Waiting);
        return Waiting;
      }
      HandlerStep();
      o := Decide(s);
    }

    /** The handler with both locks held. */
    method Decide(ghost s: State) returns (o: Outcome)
      requires Inv(Abs()) && owner == Undecided(HaveBoth)
      requires Inv(s) && s.owner.Undecided? && Since(s, Abs())
      modifies this
      ensures Inv(Abs()) && Left(Live(s), s.head, Abs(), o) && head >= s.head
    {
      hide Inv, Apply, Enabled, Since, Left, Live, Meanwhile;
      Await(s);
      HandlerStep();
      Await(s);
      HandlerStep();
      if owner != ParkClosure {
        Await(s);
        HandlerStep();
      }
      o := Release(s);
    }

    /** Others move, and the handler can go on. */
    method Await(ghost s: State)
      requires Inv(Abs()) && owner.Undecided? && (owner.h.HaveBoth? || owner.h.ExcReset? || owner.h.Compare?)
      requires Since(s, Abs())
      modifies this
      ensures Inv(Abs()) && owner == old(owner) && Enabled(Abs(), Go)
      ensures Since(s, Apply(Abs(), Go)) && Advances(owner.h, Apply(Abs(), Go))
    {
      hide Inv, Apply, Enabled, Since, Meanwhile;
      ghost var before := Abs();
      Others();
      SinceMeanwhile(s, before, Abs());
      HandlerNext(s, Abs());
    }

    /** The outcome is known; the locks are given back. */
    method Release(ghost s: State) returns (o: Outcome)
      requires Inv(Abs()) && (owner == ParkClosure || owner == KeepClosure || owner == Drained(LostClosure))
      requires owner == ParkClosure ==> elastic == ToSleep
      requires Inv(s) && s.owner.Undecided? && Since(s, Abs())
      modifies this
      ensures Inv(Abs()) && Left(Live(s), s.head, Abs(), o) && head >= s.head
    {
      if owner.Drained? {
        RestartStep();
        Others();
        RestartStep();
        o := Stolen;
      } else {
        o := if owner == ParkClosure then Parking(shadowStack[tail]) else Popped(shadowStack[tail]);
        UserStep();
        Others();
        UserStep();
      }
      LeftIs(s, Abs(), o);
    }

    method Lower()
      requires Inv(Abs()) && owner == User
      modifies this
      ensures Inv(Abs()) && Abs() == Apply(old(Abs()), Leave)
    {
      StepRefines(Abs(), Leave);
      tail := tail - 1;
      owner := Undecided(TailLowered);
    }

    /** __cilkrts_leave_frame of a detached frame: the youngest frame of the deque is popped, without a lock or under
        it, or everything was stolen. */
    method LeaveFrame() returns (o: Outcome)
      requires Inv(Abs()) && owner == User
      modifies this
      ensures Inv(Abs()) && Left(old(Live(Abs())), old(head), Abs(), o)
    {
      hide Inv, Apply, Enabled, Left, Live, Meanwhile;
      Lowered(Abs());
      Lower();
      ghost var low := Abs();
      Others();
      LiveMeanwhile(low, Abs());
      SinceMeanwhile(low, low, Abs());
      ReadExc(Abs());
      ghost var before := Abs();
      if exc <= tail {
        o := Popped(shadowStack[tail]);
        HandlerStep();
        LeftIs(low, Abs(), o);
      } else {
        HandlerStep();
        ghost var mid := Abs();
        o := Handler();
        LeftLater(low, mid, Abs(), o);
      }
    }

    /** Closure_steal, undisturbed: it takes the oldest frame exactly if the top closure is running, not locked and has
        one, and otherwise leaves everything as it was. */
    method Steal(t: nat, same: bool) returns (got: bool, frame: nat)
      requires Inv(Abs()) && Abs().lock == Free
      modifies this
      ensures Inv(Abs())
      ensures got <==> old(Stealable(Abs()))
      ensures got ==> old(Live(Abs())) == [frame] + Live(Abs())
      ensures Abs() == if got then Robbed(old(Abs())) else old(Abs())
    {
      hide Inv, Live, Apply, Enabled, Abs;
      frame := 0;
      StartSteal(t);
      got := Attempt();
      if got {
        frame := Take(same);
      }
      EndSteal();
    }

    /** do_dekker_on. */
    method Attempt() returns (won: bool)
      requires Inv(Abs()) && Abs().lock.ByThief? && Abs().lock.pc == Entered
      modifies this
      ensures Inv(Abs()) && Live(Abs()) == old(Live(Abs()))
      ensures won <==> old(Stealable(Abs()))
      ensures Abs() == if won then ThiefAt(old(Abs()).(closureLock := ThiefHas, exc := old(Abs()).exc + 1), Won)
                       else ThiefAt(old(Abs()), Unlock)
    {
      hide Inv, Live, Apply, Enabled, Promoting;
      won := Raise();
      if won {
        won := Meet();
      }
    }

    method StartSteal(t: nat)
      requires Inv(Abs()) && Abs().lock == Free
      modifies this
      ensures Inv(Abs()) && Abs() == old(Abs()).(lock := ByThief(t, Entered)) && Live(Abs()) == old(Live(Abs()))
    {
      hide PointersAgree, LocksAgree, ClosuresAgree, ExcAgrees, Live;
      StepRefines(Abs(), Action.TryLock(t));
      lock := ByThief(t, Entered);
    }

    method EndSteal()
      requires Inv(Abs()) && Abs().lock.ByThief? && Abs().lock.pc == Unlock
      modifies this
      ensures Inv(Abs()) && Abs() == old(Abs()).(lock := Free) && Live(Abs()) == old(Live(Abs()))
    {
      hide Inv;
      PromoteStep();
    }

    /** The first half of do_dekker_on: exc is raised for a closure that is running and not locked. */
    method Raise() returns (raised: bool)
      requires Inv(Abs()) && Abs().lock.ByThief? && Abs().lock.pc == Entered
      modifies this
      ensures Inv(Abs()) && Live(Abs()) == old(Live(Abs()))
      ensures raised <==> old(Open(Abs()))
      ensures Abs() == if raised then ThiefAt(old(Abs()).(closureLock := ThiefHas, exc := old(Abs()).exc + 1), ReadHead)
                       else ThiefAt(old(Abs()), Unlock)
    {
      hide Inv, HandlerGo, RestartGo, UserGo, PromoteGo, Live;
      raised := false;
      ghost var s := Abs();
      DekkerStep();
      if lock.pc == IncLoad {
        Increment();
        raised := true;
      } else if lock.pc == GiveUp {
        DekkerStep();
      }
      LiveOfPointers(s, Abs());
    }

    /** The second half: exc stays raised if there is a frame to take. */
    method Meet() returns (won: bool)
      requires Inv(Abs()) && Abs().lock.ByThief? && Abs().lock.pc == ReadHead
      modifies this
      ensures Inv(Abs()) && Live(Abs()) == old(Live(Abs()))
      ensures won <==> old(Abs()).head < old(Abs()).tail
      ensures Abs() == if won then ThiefAt(old(Abs()), Won)
                       else ThiefAt(old(Abs()).(closureLock := Unlocked, exc := old(Abs()).exc - 1), Unlock)
    {
      hide Inv, HandlerGo, RestartGo, UserGo;
      DekkerStep();
      DekkerStep();
      won := lock.pc == Won;
      if !won {
        Retreat();
      }
    }

    method Retreat()
      requires Inv(Abs()) && Abs().lock.ByThief? && Abs().lock.pc == DecLoad
      modifies this
      ensures Inv(Abs()) && Live(Abs()) == old(Live(Abs()))
      ensures Abs() == ThiefAt(old(Abs()).(closureLock := Unlocked, exc := old(Abs()).exc - 1), Unlock)
    {
      hide Inv, HandlerGo, RestartGo, UserGo;
      DekkerStep();
      DekkerStep();
      DekkerStep();
    }

    method Increment()
      requires Inv(Abs()) && Abs().lock.ByThief? && Abs().lock.pc == IncLoad
      modifies this
      ensures Inv(Abs()) && Abs() == ThiefAt(old(Abs()).(exc := old(Abs()).exc + 1), ReadHead)
    {
      hide Inv;
      DekkerStep();
      DekkerStep();
    }

    /** promote_child and the end of Closure_steal. */
    method Take(same: bool) returns (frame: nat)
      requires Inv(Abs()) && Abs().lock.ByThief? && Abs().lock.pc == Won
      modifies this
      ensures Inv(Abs()) && old(Live(Abs())) == [frame] + Live(Abs())
      ensures Abs() == ThiefAt(old(Abs()).(head := old(Abs()).head + 1, closureLock := Unlocked), Unlock)
    {
      hide Inv, Live, Apply;
      WonIs(Abs());
      frame := shadowStack[head];
      Decided(same);
      TakeHead();
      AddAndUnlock();
    }

    method TakeHead()
      requires Inv(Abs()) && Abs().lock.ByThief? && (Abs().lock.pc == TakeSame || Abs().lock.pc == TakeNew)
      modifies this
      ensures Inv(Abs()) && 0 <= old(Abs()).head < |old(Abs()).slots|
      ensures old(Live(Abs())) == [old(Abs()).slots[old(Abs()).head]] + Live(Abs())
      ensures var s := old(Abs());
              Abs() == ThiefAt(s.(head := s.head + 1), if s.lock.pc == TakeSame then AddSame else AddNew)
    {
      hide Inv, Live, HandlerGo, RestartGo, UserGo, DekkerGo;
      StolenIs(Abs());
      PromoteStep();
    }

    /** The stolen closure is in the deque of its thief; the child of a stolen top closure takes its place. */
    method AddAndUnlock()
      requires Inv(Abs()) && Abs().lock.ByThief? && (Abs().lock.pc == AddSame || Abs().lock.pc == AddNew)
      modifies this
      ensures Inv(Abs()) && Live(Abs()) == old(Live(Abs()))
      ensures Abs() == ThiefAt(old(Abs()).(closures := [Running], closureLock := Unlocked), Unlock)
    {
      hide Inv, HandlerGo, RestartGo, UserGo, DekkerGo;
      AddIs(Abs());
      PromoteStep();
      if lock.pc == XtractTop {
        Xtract();
      }
    }

    method Xtract()
      requires Inv(Abs()) && Abs().lock.ByThief? && Abs().lock.pc == XtractTop && closures == [Running, Running]
      modifies this
      ensures Inv(Abs()) && Live(Abs()) == old(Live(Abs()))
      ensures Abs() == ThiefAt(old(Abs()).(closures := [Running], closureLock := Unlocked), Unlock)
    {
      hide Inv, HandlerGo, RestartGo, UserGo, DekkerGo;
      assert closures[1..] == [Running];
      PromoteStep();
    }

    /** Whether the stolen frame is that of the top closure, which stays locked, or a younger one. */
    method Decided(same: bool)
      requires Inv(Abs()) && Abs().lock.ByThief? && Abs().lock.pc == Won
      modifies this
      ensures Inv(Abs())
      ensures Abs() == if same then ThiefAt(old(Abs()), TakeSame)
                       else ThiefAt(old(Abs()).(closures := ButBottom(old(Abs()).closures), closureLock := Unlocked),
                         TakeNew)
      ensures Live(Abs()) == old(Live(Abs()))
    {
      hide PointersAgree, LocksAgree, ExcAgrees, ClosuresAgree, HandlerGo, RestartGo, UserGo, DekkerGo, PromoteGo;
      StepRefines(Abs(), ThiefSame(same));
      var t := lock.thief;
      if same {
        lock := ByThief(t, TakeSame);
      } else {
        closures := ButBottom(closures);
        closureLock := Unlocked;
        lock := ByThief(t, TakeNew);
      }
    }

    /** From a closure that was stolen or has returned to the next one, undisturbed; a worker that was asked to sleep
        meanwhile asks itself again, so that its next leave_frame finds the request. */
    method NextClosure()
      requires Inv(Abs()) && Abs().owner == Drained(Runtime) && Abs().lock == Free && Abs().elastic != Asleep
      modifies this
      ensures Inv(Abs()) && Abs() == Renewed(old(Abs()))
    {
      hide Inv, Abs, Apply, Enabled;
      DropClosure();
      SetUp();
      AddClosure();
    }

    /** The returning closure leaves the deque. */
    method DropClosure()
      requires Inv(Abs()) && Abs().owner == Drained(Runtime) && Abs().lock == Free && Abs().elastic != Asleep
      modifies this
      ensures Inv(Abs())
      ensures Abs() == old(Abs()).(owner := Drained(NoClosure), closures := [], closureLock := Unlocked)
    {
      hide HandlerGo, UserGo, DekkerGo, PromoteGo, PointersAgree, ExcAgrees;
      RestartStep();
      RestartStep();
      RestartStep();
    }

    /** setup_for_execution. */
    method SetUp()
      requires Inv(Abs()) && Abs().owner == Drained(NoClosure) && Abs().elastic != Asleep && Abs().lock == Free
      modifies this
      ensures Inv(Abs()) && Abs() == old(Abs()).(owner := Drained(SetExc), head := 0, tail := 0, exc := 0)
    {
      hide Inv, HandlerGo, UserGo, DekkerGo, PromoteGo;
      RestartStep();
      RestartStep();
      RestartStep();
    }

    /** The closure goes into the deque. */
    method AddClosure()
      requires Inv(Abs()) && Abs().owner == Drained(SetExc) && Abs().lock == Free && Abs().closures == []
      requires Abs().elastic != Asleep
      modifies this
      ensures Inv(Abs()) && Abs() == Added(old(Abs()))
    {
      hide Inv, HandlerGo, DekkerGo, PromoteGo;
      HangIn();
      RestartStep();
      if owner == RequestAgain {
        AskAgain();
      }
    }

    method HangIn()
      requires Inv(Abs()) && Abs().owner == Drained(SetExc) && Abs().lock == Free && Abs().closures == []
      modifies this
      ensures Inv(Abs())
      ensures Abs() == old(Abs()).(owner := Drained(AddUnlock), lock := ByOwner, closures := [Running])
    {
      hide Inv, HandlerGo, DekkerGo, PromoteGo, UserGo;
      RestartStep();
      RestartStep();
    }

    method AskAgain()
      requires Inv(Abs()) && Abs().owner == RequestAgain
      modifies this
      ensures Inv(Abs())
      ensures Abs() == old(Abs()).(owner := User, elastic := SleepRequested, exc := old(Abs()).tail + DEFAULT_DEQ_DEPTH)
    {
      hide Inv, HandlerGo, RestartGo, DekkerGo, PromoteGo;
      UserStep();
      UserStep();
    }

    /** platform_try_sleep_worker: the request is there, and no leave_frame can miss it. */
    method TrySleep() returns (asked: bool)
      requires Inv(Abs())
      modifies this
      ensures Inv(Abs()) && Live(Abs()) == old(Live(Abs())) && asked == (old(elastic) == Active)
      ensures asked ==> elastic == SleepRequested && exc > tail
      ensures !asked ==> Abs() == old(Abs())
    {
      hide PointersAgree, LocksAgree, ClosuresAgree, ExcAgrees, Live, HandlerGo, RestartGo, UserGo, DekkerGo, PromoteGo;
      ghost var s := Abs();
      asked := elastic == Active;
      if asked {
        StepRefines(s, SignalCas);
        elastic, requests := SleepRequested, requests + 1;
        assert Abs() == Apply(s, SignalCas);
        StepRefines(Abs(), SignalAtomic);
        ghost var t := Abs();
        exc, requests := tail + DEFAULT_DEQ_DEPTH, requests - 1;
        assert Abs() == Apply(t, SignalAtomic);
      }
    }
  }
}
