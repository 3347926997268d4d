/** The THE work-stealing protocol. */
module The {
  // One worker (the owner) pushes and pops frames at `tail`, any number of thieves steal at `head`, and `exc` is the
  // flag of their Dekker protocol. The platform writes `exc` asynchronously to ask the worker to go to sleep.
  //
  // Every step below is one memory access or one lock operation; all interleavings are runs.

  import opened Commons

  const DEFAULT_DEQ_DEPTH := 1024

  /** The owner has lowered tail and not yet learnt whose frame that is. */
  datatype HandlerPc =
    | TailLowered     // leave_frame lowered tail, exc not yet read
    | WaitDeque       // exception handler: deque lock wanted
    | WaitClosure     // exception handler: closure lock wanted
    | HaveBoth        // exception handler: exc not yet reset
    | ExcReset        // exception handler: exc == head was written, sleep request not yet looked at
    | Compare         // exception handler: head > tail not yet tested

  /** No frame of the owner is on the shadow stack. */
  datatype RestartPc =
    | LostClosure | LostDeque                   // the frame was stolen, handler jumps to the runtime
    | Runtime | RuntimeLocked | RuntimeUnlock   // the returning closure leaves the deque
    | NoClosure | SetHead | SetTail | SetExc | AddLocked | AddUnlock   // the next closure is set up

  /** Where the owner is. */
  datatype OwnerPc =
    | User            // user code; may detach, leave a detached frame, sync, return to its caller
    | SlotWritten     // detach stored the frame at *tail, tail not yet raised
    | Undecided(h: HandlerPc)
    | Drained(r: RestartPc)
    | ParkClosure | ParkDeque | Parked      // going to sleep with the frame in hand
    | KeepClosure | KeepDeque               // handler returns to user code
    | RequestAgain | SignalSelf             // the owner still has to sleep: it asks itself once more
    | SlowWaitDeque | SlowWaitClosure | SlowBoth | CallResume | CallUnlock  // sync and call return

  /** Where the thief holding the deque lock is.  A thief without that lock has no effect on the
      victim, so one program counter serves any number of thieves. */
  datatype ThiefPc =
    | Entered | IncLoad | IncStore(old_exc: int) | ReadHead | ReadTail(seen_head: int)
    | DecLoad | DecStore(old_exc: int) | GiveUp
    | Won | TakeSame | TakeNew | AddSame | AddNew | XtractTop | Unlock

  datatype DequeLock = Free | ByOwner | ByThief(thief: nat, pc: ThiefPc)

  /** The lock of the closure at the top of the deque; other workers take it when a child returns. */
  datatype ClosureLock = Unlocked | OwnerHas | ThiefHas | OtherHas

  /** The part of elastic_s that the protocol depends on; Asleep stands for a worker that sleeps in the runtime. */
  datatype Elastic = Active | SleepRequested | ToSleep | Asleep

  datatype State = State(
    limit: nat,            // ltq_limit - shadow_stack
    split: bool,           // the signal's load of tail and store of exc are separate steps
    slots: seq<nat>,       // the shadow stack; each push has its own number
    next: nat,             // number of the next push
    head: int, tail: int, exc: int,
    elastic: Elastic,
    owner: OwnerPc,
    lock: DequeLock,
    closureLock: ClosureLock,
    closures: seq<Status>, // the ready deque, top first
    requests: nat,         // signallers that are about to load tail
    pending: multiset<int>)  // values signallers have computed and not yet written

  datatype Action =
    | Detach | Leave | Sync | Go
    | Choose(ready: bool)               // outcome of a slow sync
    | CallReturn
    | TryLock(thief: nat) | Thief | ThiefSame(same: bool)
    | Doze | Wake                       // the owner goes to sleep in the runtime, and is activated
    | SignalCas | SignalAgain           // a signaller's compare-and-swap succeeds, or it signals without one
    | SignalAtomic | SignalRead | SignalWrite(value: int)
    | OtherLock | OtherUnlock

  datatype Event = Silent | Push(id: nat) | Pop(id: nat) | PopEmpty | Steal(thief: nat, id: nat)

  function Init(limit: nat, split: bool): State {
    State(limit, split, seq(limit, i => 0), 0, 0, 0, 0, Active, User, Free, Unlocked, [Running], 0,
          multiset{})
  }

  predicate Enabled(s: State, a: Action) {
    match a
    case Detach => s.owner == User && 0 <= s.tail < |s.slots| && s.tail + 1 < s.limit
    case Leave => s.owner == User
    case Sync => s.owner == User
    case Go =>
      (match s.owner
       case User | SlowBoth => false
       case Undecided(TailLowered) => s.exc > s.tail || 0 <= s.tail < |s.slots|
       case Undecided(ExcReset) | Undecided(Compare) => s.head > s.tail || 0 <= s.tail < |s.slots|
       case Undecided(WaitDeque) | Drained(SetExc) | SlowWaitDeque => s.lock == Free
       case Drained(Runtime) => s.lock == Free && s.elastic != Asleep
       case Drained(NoClosure) => s.elastic != Asleep
       case Undecided(WaitClosure) | SlowWaitClosure => s.closureLock == Unlocked
       case _ => true)
    case Choose(_) => s.owner == SlowBoth && s.head == s.tail
    case CallReturn => s.owner == SlowBoth && s.head == s.tail
    case TryLock(_) => s.lock == Free
    case Thief =>
      && s.lock.ByThief? && s.lock.pc != Won
      && ((s.lock.pc == TakeSame || s.lock.pc == TakeNew) ==> 0 <= s.head < |s.slots|)
      && (s.lock.pc == XtractTop ==> s.closures != [])
    case ThiefSame(_) => s.lock.ByThief? && s.lock.pc == Won
    case Doze =>
      || (s.elastic == SleepRequested && (s.owner == Drained(Runtime) || s.owner == Drained(NoClosure)))
      || (s.elastic == ToSleep && s.owner == Drained(NoClosure))
    case Wake => s.elastic == Asleep
    case SignalCas => s.elastic == Active
    case SignalAgain => true
    case SignalAtomic => s.requests > 0
    case SignalRead => s.split && s.requests > 0
    case SignalWrite(v) => v in s.pending
    case OtherLock => s.closures != [] && s.closureLock == Unlocked
    case OtherUnlock => s.closureLock == OtherHas
  }

  /** __cilkrts_leave_frame after lowering tail, and Cilk_exception_handler up to its decision. */
  function HandlerGo(s: State): State
    requires Enabled(s, Go) && s.owner.Undecided?
  {
    match s.owner.h
    case TailLowered => s.(owner := if s.exc > s.tail then Undecided(WaitDeque) else User)
    case WaitDeque => s.(lock := ByOwner, owner := Undecided(WaitClosure))
    case WaitClosure => s.(closureLock := OwnerHas, owner := Undecided(HaveBoth))
    case HaveBoth => s.(exc := s.head, owner := Undecided(ExcReset))
    case ExcReset =>
      if s.elastic == SleepRequested then
        s.(elastic := ToSleep, owner := if s.head <= s.tail then ParkClosure else Undecided(Compare))
      else s.(owner := Undecided(Compare))
    case Compare =>
      if s.head > s.tail then
        s.(owner := Drained(LostClosure), closures := ButBottom(s.closures) + [Returning])
      else s.(owner := KeepClosure)
  }

  /** The owner drops its returning closure in the runtime and sets up the next one. */
  function RestartGo(s: State): State
    requires Enabled(s, Go) && s.owner.Drained?
  {
    match s.owner.r
    case LostClosure => s.(closureLock := Unlocked, owner := Drained(LostDeque))
    case LostDeque => s.(lock := Free, owner := Drained(Runtime))
    case Runtime => s.(lock := ByOwner, owner := Drained(RuntimeLocked))
    case RuntimeLocked =>
      s.(closures := ButBottom(s.closures), closureLock := Unlocked, owner := Drained(RuntimeUnlock))
    case RuntimeUnlock => s.(lock := Free, owner := Drained(NoClosure))
    case NoClosure => s.(head := 0, owner := Drained(SetHead))
    case SetHead => s.(tail := 0, owner := Drained(SetTail))
    case SetTail => s.(exc := s.head, owner := Drained(SetExc))
    case SetExc => s.(lock := ByOwner, owner := Drained(AddLocked))
    case AddLocked => s.(closures := s.closures + [Running], owner := Drained(AddUnlock))
    case AddUnlock => s.(lock := Free, owner := if s.elastic == ToSleep then RequestAgain else User)
  }

  /** The other steps of the owner that leave no choice. */
  function UserGo(s: State): State
    requires Enabled(s, Go)
  {
    match s.owner
    case SlotWritten => s.(tail := s.tail + 1, next := s.next + 1, owner := User)
    case ParkClosure => s.(closureLock := Unlocked, owner := ParkDeque)
    case ParkDeque => s.(lock := Free, owner := Parked)
    case Parked => s.(elastic := Active, owner := User)
    case RequestAgain => s.(elastic := SleepRequested, owner := SignalSelf)
    case SignalSelf => s.(exc := s.tail + DEFAULT_DEQ_DEPTH, owner := User)
    case KeepClosure => s.(closureLock := Unlocked, owner := KeepDeque)
    case KeepDeque => s.(lock := Free, owner := User)
    case SlowWaitDeque => s.(lock := ByOwner, owner := SlowWaitClosure)
    case SlowWaitClosure => s.(closureLock := OwnerHas, owner := SlowBoth)
    case CallResume => s.(exc := s.head, closures := s.closures + [Running], owner := CallUnlock)
    case CallUnlock => s.(lock := Free, owner := User)
    case _ => s
  }

  /** Closure_steal up to the outcome of do_dekker_on, and the way out of a failed attempt. */
  function DekkerGo(s: State): State
    requires Enabled(s, Thief)
  {
    match s.lock.pc
    case Entered =>
      if s.closures == [] || s.closureLock != Unlocked then ThiefAt(s, Unlock)
      else ThiefAt(s.(closureLock := ThiefHas), if s.closures[0] == Running then IncLoad else GiveUp)
    case IncLoad => ThiefAt(s, IncStore(s.exc))
    case IncStore(e) => ThiefAt(s.(exc := e + 1), ReadHead)
    case ReadHead => ThiefAt(s, ReadTail(s.head))
    case ReadTail(h) => ThiefAt(s, if h >= s.tail then DecLoad else Won)
    case DecLoad => ThiefAt(s, DecStore(s.exc))
    case DecStore(e) => ThiefAt(s.(exc := e - 1), GiveUp)
    case GiveUp => ThiefAt(s.(closureLock := Unlocked), Unlock)
    case _ => s
  }

  /** promote_child and the end of Closure_steal.  The stolen frame is either the one of the top
      closure, which is taken out of the deque once its child is in, or a younger one, in which case
      the top closure was suspended and the thief holds a closure of its own. */
  function PromoteGo(s: State): State
    requires Enabled(s, Thief)
  {
    match s.lock.pc
    case TakeSame => ThiefAt(s.(head := s.head + 1), AddSame)
    case TakeNew => ThiefAt(s.(head := s.head + 1), AddNew)
    case AddSame => ThiefAt(s.(closures := s.closures + [Running]), XtractTop)
    case AddNew => ThiefAt(s.(closures := s.closures + [Running]), Unlock)
    case XtractTop => ThiefAt(s.(closures := s.closures[1..], closureLock := Unlocked), Unlock)
    case Unlock => s.(lock := Free)
    case _ => s
  }

  predicate Promoting(pc: ThiefPc) {
    pc.TakeSame? || pc.TakeNew? || pc.AddSame? || pc.AddNew? || pc.XtractTop? || pc.Unlock?
  }

  /** The ready deque without its bottom closure. */
  function ButBottom(closures: seq<Status>): seq<Status> {
    if closures == [] then [] else closures[..|closures| - 1]
  }

  function ThiefAt(s: State, pc: ThiefPc): State
    requires s.lock.ByThief?
  {
    s.(lock := ByThief(s.lock.thief, pc))
  }

  function Apply(s: State, a: Action): State
    requires Enabled(s, a)
  {
    match a
    case Detach => s.(slots := s.slots[s.tail := s.next], owner := SlotWritten)
    case Leave => s.(tail := s.tail - 1, owner := Undecided(TailLowered))
    case Sync => s.(owner := SlowWaitDeque)
    case Go =>
      if s.owner.Undecided? then HandlerGo(s) else if s.owner.Drained? then RestartGo(s) else UserGo(s)
    case Choose(ready) =>
      if ready then s.(owner := KeepClosure)
      else s.(closures := ButBottom(s.closures), closureLock := Unlocked, owner := Drained(RuntimeUnlock))
    case CallReturn =>
      s.(closures := ButBottom(s.closures), closureLock := Unlocked, owner := CallResume)
    case TryLock(t) => s.(lock := ByThief(t, Entered))
    case Thief => if Promoting(s.lock.pc) then PromoteGo(s) else DekkerGo(s)
    case ThiefSame(same) =>
      if same then ThiefAt(s, TakeSame)
      else ThiefAt(s.(closures := ButBottom(s.closures), closureLock := Unlocked), TakeNew)
    case Doze => s.(elastic := Asleep)
    case Wake => s.(elastic := Active)
    case SignalCas => s.(elastic := SleepRequested, requests := s.requests + 1)
    case SignalAgain => s.(requests := s.requests + 1)
    case SignalAtomic => s.(exc := s.tail + DEFAULT_DEQ_DEPTH, requests := s.requests - 1)
    case SignalRead =>
      s.(pending := s.pending + multiset{s.tail + DEFAULT_DEQ_DEPTH}, requests := s.requests - 1)
    case SignalWrite(v) => s.(exc := v, pending := s.pending - multiset{v})
    case OtherLock => s.(closureLock := OtherHas)
    case OtherUnlock => s.(closureLock := Unlocked)
  }

  /** What a step decides about the deque of frames: the owner's pop is decided when it reads
      exc <= tail, or under the lock in the handler; a steal is decided by head++. */
  function Emit(s: State, a: Action): Event
    requires Enabled(s, a)
  {
    match a
    case Go =>
      (match s.owner
       case SlotWritten => Push(s.next)
       case Undecided(TailLowered) => if s.exc > s.tail then Silent else Pop(s.slots[s.tail])
       case Undecided(ExcReset) =>
         if s.elastic == SleepRequested && s.head <= s.tail then Pop(s.slots[s.tail]) else Silent
       case Undecided(Compare) => if s.head > s.tail then PopEmpty else Pop(s.slots[s.tail])
       case _ => Silent)
    case Thief =>
      if s.lock.pc == TakeSame || s.lock.pc == TakeNew
      then Steal(s.lock.thief, s.slots[s.head]) else Silent
    case _ => Silent
  }

  // ---------------------------------------------------------------------------------------------
  // The specification: an atomic double-ended queue
  // ---------------------------------------------------------------------------------------------

  /** The events an atomic deque may produce when it holds `d`, oldest frame first. */
  predicate Allowed(d: seq<nat>, e: Event) {
    match e
    case Silent | Push(_) => true
    case Pop(id) => d != [] && id == d[|d| - 1]
    case PopEmpty => d == []
    case Steal(_, id) => d != [] && id == d[0]
  }

  function After(d: seq<nat>, e: Event): seq<nat> {
    match e
    case Silent | PopEmpty => d
    case Push(id) => d + [id]
    case Pop(_) => if d == [] then [] else d[..|d| - 1]
    case Steal(_, _) => if d == [] then [] else d[1..]
  }

  predicate DequeStep(d: seq<nat>, e: Event, d': seq<nat>) {
    Allowed(d, e) && d' == After(d, e)
  }

  function Contents(h: seq<Event>): seq<nat> {
    if h == [] then [] else After(Contents(h[..|h| - 1]), h[|h| - 1])
  }

  /** `h` is a history of an atomic deque that starts empty. */
  predicate AtomicHistory(h: seq<Event>) {
    h == [] || (AtomicHistory(h[..|h| - 1]) && Allowed(Contents(h[..|h| - 1]), h[|h| - 1]))
  }

  /** The returning closure is still in the ready deque. */
  predicate HasReturning(r: RestartPc) {
    r.LostClosure? || r.LostDeque? || r.Runtime? || r.RuntimeLocked?
  }

  /** No closure of the owner is in its ready deque. */
  predicate NoneInDeque(pc: OwnerPc) {
    if pc.Drained? then !HasReturning(pc.r) && pc.r != AddUnlock else pc == CallResume
  }

  function Top(s: State): int {
    if s.owner.Drained? then s.head else if s.owner.Undecided? then s.tail + 1 else s.tail
  }

  /** The frames nobody has taken yet, oldest first. */
  function Live(s: State): seq<nat> {
    if 0 <= s.head <= Top(s) <= |s.slots| then s.slots[s.head..Top(s)] else []
  }

  // ---------------------------------------------------------------------------------------------
  // The invariant
  // ---------------------------------------------------------------------------------------------

  predicate OwnerHoldsDeque(pc: OwnerPc) {
    match pc
    case Undecided(h) => h != TailLowered && h != WaitDeque
    case Drained(r) =>
      r.LostClosure? || r.LostDeque? || r.RuntimeLocked? || r.RuntimeUnlock? || r.AddLocked? || r.AddUnlock?
    case User | SlotWritten | Parked | RequestAgain | SignalSelf | SlowWaitDeque => false
    case ParkClosure | ParkDeque | KeepClosure | KeepDeque => true
    case SlowWaitClosure | SlowBoth | CallResume | CallUnlock => true
  }

  predicate OwnerHoldsClosure(pc: OwnerPc) {
    match pc
    case Undecided(h) => h.HaveBoth? || h.ExcReset? || h.Compare?
    case Drained(r) => r == LostClosure
    case ParkClosure | KeepClosure | SlowBoth => true
    case User | SlotWritten | Parked | RequestAgain | SignalSelf | SlowWaitDeque => false
    case ParkDeque | KeepDeque | SlowWaitClosure | CallResume | CallUnlock => false
  }

  predicate ThiefHoldsClosure(pc: ThiefPc) {
    !pc.Entered? && pc != Unlock && pc != TakeNew && pc != AddNew
  }

  /** The thief's increment of exc is visible and it may still go on to take the frame at head. */
  predicate Claiming(pc: ThiefPc) {
    pc.ReadHead? || pc.ReadTail? || pc.Won? || pc.TakeSame? || pc.TakeNew?
  }

  /** The owner's view of the ready deque whenever no thief is inside. */
  predicate OwnClosures(s: State) {
    if NoneInDeque(s.owner) then s.closures == []
    else if s.owner.Drained? && HasReturning(s.owner.r) then s.closures == [Returning]
    else s.closures == [Running]
  }

  predicate LocksAgree(s: State) {
    && (s.lock == ByOwner <==> OwnerHoldsDeque(s.owner))
    && (s.closureLock == OwnerHas <==> OwnerHoldsClosure(s.owner))
    && (s.closureLock == ThiefHas <==> s.lock.ByThief? && ThiefHoldsClosure(s.lock.pc))
    && (s.lock.ByThief? && (s.lock.pc == TakeNew || s.lock.pc == AddNew) ==> s.closureLock == Unlocked)
  }

  predicate ClosuresAgree(s: State) {
    if !s.lock.ByThief? || (s.lock.pc.Entered? || s.lock.pc.GiveUp? || s.lock.pc.Unlock?) then OwnClosures(s)
    else
      // a thief past its checks runs only against a running closure, which the owner keeps in place
      && !NoneInDeque(s.owner)
      && (s.owner.Drained? ==> !HasReturning(s.owner.r))
      && s.closures == (match s.lock.pc
                        case TakeNew | AddNew => []
                        case XtractTop => [Running, Running]
                        case _ => [Running])
  }

  predicate RestartAgrees(s: State, r: RestartPc) {
    && (HasReturning(r) ==> s.tail == s.head - 1)
    && (r.RuntimeUnlock? || r.NoClosure? ==> s.tail <= s.head)
    && (r.SetHead? || r.SetTail? || r.SetExc? || r.AddLocked? || r.AddUnlock? ==> s.head == 0)
    && (r.SetTail? || r.SetExc? || r.AddLocked? || r.AddUnlock? ==> s.tail == 0)
  }

  predicate PointersAgree(s: State) {
    && |s.slots| == s.limit
    && 1 <= s.limit
    && (s.split ==> s.limit < DEFAULT_DEQ_DEPTH)
    && (!s.split ==> s.pending == multiset{})
    && (forall v <- s.pending :: s.limit <= v)
    && 0 <= s.head <= Top(s) <= s.limit - 1
    && s.head - 1 <= s.tail
    && (s.owner == SlotWritten ==> s.tail + 1 < s.limit && s.slots[s.tail] == s.next)
    && (s.owner.Drained? ==> RestartAgrees(s, s.owner.r))
    && ((s.owner.SlowBoth? || s.owner.CallResume? || s.owner.CallUnlock?) ==> s.head <= s.tail)
    && (s.owner == CallResume ==> s.head == s.tail)
    && ((s.owner.ParkClosure? || s.owner.ParkDeque? || s.owner.Parked? || s.owner.KeepClosure? || s.owner.KeepDeque?)
        ==> s.head <= s.tail)
  }

  /** The owner is rewriting the pointers of a deque that holds no closure. */
  predicate Resetting(pc: OwnerPc) {
    if pc.Drained? then pc.r.NoClosure? || pc.r.SetHead? || pc.r.SetTail? else pc == CallResume
  }

  /** The heart of the Dekker argument: exc never falls below head, and stays above the frame a
      claiming thief is after.  Between closures the owner rewrites the pointers alone. */
  predicate ExcAgrees(s: State) {
    && (Resetting(s.owner) || s.head <= s.exc)
    && (s.lock.ByThief? ==>
        match s.lock.pc
        case IncStore(e) => s.head <= e
        case ReadHead => s.head < s.exc
        case ReadTail(h) => h == s.head < s.exc
        case DecLoad => s.head < s.exc
        case DecStore(e) => s.head < e
        case Won | TakeSame | TakeNew => s.head < s.exc && s.head < Top(s) &&
                                         (s.head == s.tail ==> s.owner.Undecided?)
        case _ => true)
  }

  ghost predicate Inv(s: State) {
    PointersAgree(s) && LocksAgree(s) && ClosuresAgree(s) && ExcAgrees(s)
  }

  // Moving either end of the live slice of the shadow stack is an operation of the atomic deque.

  lemma TopGrows(s: State, s': State, e: Event)
    requires 0 <= s.head <= Top(s) < |s.slots|
    requires s'.slots == s.slots && s'.head == s.head && Top(s') == Top(s) + 1
    requires e == Push(s.slots[Top(s)])
    ensures DequeStep(Live(s), e, Live(s'))
  {
    assert s.slots[s.head..Top(s) + 1] == s.slots[s.head..Top(s)] + [s.slots[Top(s)]];
  }

  lemma TopShrinks(s: State, s': State, e: Event)
    requires 0 <= s.head < Top(s) <= |s.slots|
    requires s'.slots == s.slots && s'.head == s.head && Top(s') == Top(s) - 1
    requires e == Pop(s.slots[Top(s) - 1])
    ensures DequeStep(Live(s), e, Live(s'))
  {
    assert Live(s)[..|Live(s)| - 1] == Live(s');
  }

  lemma HeadGrows(s: State, s': State, e: Event)
    requires 0 <= s.head < Top(s) <= |s.slots|
    requires s'.slots == s.slots && s'.head == s.head + 1 && Top(s') == Top(s)
    requires e.Steal? && e.id == s.slots[s.head]
    ensures DequeStep(Live(s), e, Live(s'))
  {
    assert Live(s)[1..] == Live(s');
  }

  lemma HandlerPointers(s: State)
    requires Inv(s) && Enabled(s, Go) && s.owner.Undecided?
    ensures PointersAgree(Apply(s, Go)) && ExcAgrees(Apply(s, Go))
  {
    hide RestartGo, UserGo, DekkerGo, PromoteGo;
  }

  lemma HandlerLocks(s: State)
    requires LocksAgree(s) && ClosuresAgree(s) && Enabled(s, Go) && s.owner.Undecided?
    ensures LocksAgree(Apply(s, Go)) && ClosuresAgree(Apply(s, Go))
  {
    hide RestartGo, UserGo, DekkerGo, PromoteGo;
  }

  lemma HandlerRefines(s: State)
    requires PointersAgree(s) && ExcAgrees(s) && Enabled(s, Go) && s.owner.Undecided?
    ensures DequeStep(Live(s), Emit(s, Go), Live(Apply(s, Go)))
  {
    if Emit(s, Go).Pop? {
      TopShrinks(s, Apply(s, Go), Emit(s, Go));
    } else {
      assert Live(Apply(s, Go)) == Live(s);
    }
  }

  lemma RestartPointers(s: State)
    requires PointersAgree(s) && Enabled(s, Go) && s.owner.Drained?
    ensures PointersAgree(Apply(s, Go))
  {
    hide UserGo, DekkerGo, PromoteGo, HandlerGo;
  }

  lemma RestartRefines(s: State)
    requires PointersAgree(s) && Enabled(s, Go) && s.owner.Drained?
    ensures DequeStep(Live(s), Emit(s, Go), Live(Apply(s, Go)))
  {
    hide UserGo, DekkerGo, PromoteGo, HandlerGo;
    assert Live(s) == [] && Live(Apply(s, Go)) == [];
  }

  lemma RestartExc(s: State)
    requires Inv(s) && Enabled(s, Go) && s.owner.Drained?
    ensures ExcAgrees(Apply(s, Go))
  {
  }

  lemma RestartLocks(s: State)
    requires LocksAgree(s) && ClosuresAgree(s) && Enabled(s, Go) && s.owner.Drained?
    ensures LocksAgree(Apply(s, Go)) && ClosuresAgree(Apply(s, Go))
  {
  }

  lemma UserPointers(s: State)
    requires Inv(s) && Enabled(s, Go) && !s.owner.Undecided? && !s.owner.Drained?
    ensures PointersAgree(Apply(s, Go)) && ExcAgrees(Apply(s, Go))
  {
  }

  lemma UserLocks(s: State)
    requires LocksAgree(s) && ClosuresAgree(s) && Enabled(s, Go) && !s.owner.Undecided? && !s.owner.Drained?
    ensures LocksAgree(Apply(s, Go)) && ClosuresAgree(Apply(s, Go))
  {
  }

  lemma UserRefines(s: State)
    requires PointersAgree(s) && Enabled(s, Go) && !s.owner.Undecided? && !s.owner.Drained?
    ensures DequeStep(Live(s), Emit(s, Go), Live(Apply(s, Go)))
  {
    if s.owner == SlotWritten {
      TopGrows(s, Apply(s, Go), Emit(s, Go));
    } else {
      assert Live(Apply(s, Go)) == Live(s);
    }
  }

  /** Neither the shadow stack nor the owner's place in it has changed. */
  predicate SamePointers(s: State, s': State) {
    && s'.limit == s.limit && s'.split == s.split && s'.slots == s.slots && s'.next == s.next
    && s'.head == s.head && s'.tail == s.tail && s'.owner == s.owner && s'.pending == s.pending
  }

  lemma PointersUnmoved(s: State, s': State)
    requires PointersAgree(s) && SamePointers(s, s')
    ensures PointersAgree(s') && DequeStep(Live(s), Silent, Live(s'))
  {
  }

  lemma DekkerPointers(s: State)
    requires PointersAgree(s) && Enabled(s, Thief) && !Promoting(s.lock.pc)
    ensures PointersAgree(Apply(s, Thief))
    ensures DequeStep(Live(s), Emit(s, Thief), Live(Apply(s, Thief)))
  {
    hide PointersAgree, Live, DequeStep;
    PointersUnmoved(s, Apply(s, Thief));
  }

  lemma DekkerExc(s: State)
    requires PointersAgree(s) && ClosuresAgree(s) && ExcAgrees(s) && Enabled(s, Thief) && !Promoting(s.lock.pc)
    ensures ExcAgrees(Apply(s, Thief))
  {
    hide PointersAgree, ClosuresAgree;
    if !s.lock.pc.Entered? && !s.lock.pc.GiveUp? {
      ThiefMeetsAClosure(s);
    }
    HeadBelowTop(s);
  }

  lemma ThiefMeetsAClosure(s: State)
    requires ClosuresAgree(s) && s.lock.ByThief? && !s.lock.pc.Entered? && !s.lock.pc.GiveUp? && !s.lock.pc.Unlock?
    ensures !Resetting(s.owner) && (s.owner.Drained? ==> s.owner.r == AddUnlock)
  {
  }

  lemma HeadBelowTop(s: State)
    requires PointersAgree(s)
    ensures 0 <= s.head <= Top(s) && s.head - 1 <= s.tail
    ensures s.owner == Drained(AddUnlock) ==> s.tail == s.head
  {
  }

  lemma DekkerLocks(s: State)
    requires LocksAgree(s) && ClosuresAgree(s) && Enabled(s, Thief) && !Promoting(s.lock.pc)
    ensures LocksAgree(Apply(s, Thief)) && ClosuresAgree(Apply(s, Thief))
  {
  }

  lemma PromotePointers(s: State)
    requires Inv(s) && Enabled(s, Thief) && Promoting(s.lock.pc)
    ensures PointersAgree(Apply(s, Thief)) && ExcAgrees(Apply(s, Thief))
  {
  }

  lemma PromoteRefines(s: State)
    requires PointersAgree(s) && ExcAgrees(s) && Enabled(s, Thief) && Promoting(s.lock.pc)
    ensures DequeStep(Live(s), Emit(s, Thief), Live(Apply(s, Thief)))
  {
    hide HandlerGo, RestartGo, UserGo, DekkerGo;
    if s.lock.pc.TakeSame? || s.lock.pc.TakeNew? {
      HeadGrows(s, Apply(s, Thief), Emit(s, Thief));
    } else {
      assert Live(Apply(s, Thief)) == Live(s);
    }
  }

  lemma PromoteLocks(s: State)
    requires LocksAgree(s) && ClosuresAgree(s) && Enabled(s, Thief) && Promoting(s.lock.pc)
    ensures LocksAgree(Apply(s, Thief)) && ClosuresAgree(Apply(s, Thief))
  {
  }

  predicate OwnersChoice(a: Action) {
    a.Detach? || a.Leave? || a.Sync? || a.Choose? || a.CallReturn? || a.Doze?
  }

  lemma ChoicePointers(s: State, a: Action)
    requires Inv(s) && Enabled(s, a) && OwnersChoice(a)
    ensures PointersAgree(Apply(s, a)) && ExcAgrees(Apply(s, a))
    ensures DequeStep(Live(s), Emit(s, a), Live(Apply(s, a)))
  {
    if a == Detach {
      assert Live(Apply(s, a)) == Live(s);
    }
  }

  lemma ChoiceLocks(s: State, a: Action)
    requires LocksAgree(s) && ClosuresAgree(s) && Enabled(s, a) && OwnersChoice(a)
    ensures LocksAgree(Apply(s, a)) && ClosuresAgree(Apply(s, a))
  {
  }

  lemma OthersPointers(s: State, a: Action)
    requires PointersAgree(s) && Enabled(s, a) && a != Go && a != Thief && !OwnersChoice(a)
    ensures PointersAgree(Apply(s, a))
    ensures DequeStep(Live(s), Emit(s, a), Live(Apply(s, a)))
  {
    hide PointersAgree, Live, DequeStep, HandlerGo, RestartGo, UserGo, DekkerGo, PromoteGo;
    var s' := Apply(s, a);
    if a.SignalRead? || a.SignalWrite? {
      PointersUnmoved(s, s'.(pending := s.pending));
      PendingChanges(s'.(pending := s.pending), s'.pending);
    } else {
      PointersUnmoved(s, s');
    }
  }

  /** A value that a signaller has loaded lies beyond the shadow stack. */
  lemma PendingChanges(s: State, pending: multiset<int>)
    requires PointersAgree(s)
    requires pending <= s.pending || (s.split && pending == s.pending + multiset{s.tail + DEFAULT_DEQ_DEPTH})
    ensures PointersAgree(s.(pending := pending)) && Live(s.(pending := pending)) == Live(s)
  {
  }

  lemma OthersExc(s: State, a: Action)
    requires PointersAgree(s) && ExcAgrees(s) && Enabled(s, a) && a != Go && a != Thief && !OwnersChoice(a)
    ensures ExcAgrees(Apply(s, a))
  {
    hide PointersAgree, HandlerGo, UserGo, RestartGo, DekkerGo, PromoteGo;
    HeadBelowTop(s);
    if a.SignalWrite? {
      PendingAbove(s, a.value);
    }
  }

  lemma PendingAbove(s: State, v: int)
    requires PointersAgree(s) && v in s.pending
    ensures s.head < v
  {
  }

  lemma OthersLocks(s: State, a: Action)
    requires LocksAgree(s) && ClosuresAgree(s) && Enabled(s, a) && a != Go && a != Thief && !OwnersChoice(a)
    ensures LocksAgree(Apply(s, a)) && ClosuresAgree(Apply(s, a))
  {
  }

  /** Every step keeps the invariant and is at most one operation of an atomic deque. */
  lemma StepRefines(s: State, a: Action)
    requires Inv(s) && Enabled(s, a)
    ensures Inv(Apply(s, a))
    ensures DequeStep(Live(s), Emit(s, a), Live(Apply(s, a)))
  {
    hide Apply, Emit, DequeStep, Live, PointersAgree, LocksAgree, ClosuresAgree, ExcAgrees, Promoting;
    if a == Go {
      if s.owner.Undecided? {
        HandlerPointers(s); HandlerLocks(s); HandlerRefines(s);
      } else if s.owner.Drained? {
        RestartPointers(s); RestartRefines(s); RestartExc(s); RestartLocks(s);
      } else {
        UserPointers(s); UserLocks(s); UserRefines(s);
      }
    } else if a == Thief {
      if Promoting(s.lock.pc) {
        PromotePointers(s); PromoteLocks(s); PromoteRefines(s);
      } else {
        DekkerPointers(s); DekkerExc(s); DekkerLocks(s);
      }
    } else if OwnersChoice(a) {
      ChoicePointers(s, a); ChoiceLocks(s, a);
    } else {
      OthersPointers(s, a); OthersExc(s, a); OthersLocks(s, a);
    }
  }

  // ---------------------------------------------------------------------------------------------
  // Whole runs
  // ---------------------------------------------------------------------------------------------

  /** A run: states[i] takes the step acts[i], emits events[i] and becomes states[i + 1]. */
  datatype Run = Run(states: seq<State>, acts: seq<Action>, events: seq<Event>)

  predicate StepOf(s: State, a: Action, e: Event, s': State) {
    Enabled(s, a) && e == Emit(s, a) && s' == Apply(s, a)
  }

  ghost predicate IsRun(r: Run) {
    && |r.states| == |r.acts| + 1
    && |r.events| == |r.acts|
    && forall i {:trigger r.acts[i]} | 0 <= i < |r.acts| ::
         StepOf(r.states[i], r.acts[i], r.events[i], r.states[i + 1])
  }

  ghost predicate RunFrom(limit: nat, split: bool, r: Run) {
    IsRun(r) && r.states[0] == Init(limit, split)
  }

  function Last(r: Run): State
    requires r.states != []
  {
    r.states[|r.states| - 1]
  }

  function Before(r: Run): Run
    requires r.states != [] && r.acts != [] && r.events != []
  {
    Run(r.states[..|r.states| - 1], r.acts[..|r.acts| - 1], r.events[..|r.events| - 1])
  }

  lemma LastStep(r: Run)
    requires IsRun(r) && r.acts != []
    ensures IsRun(Before(r)) && Before(r).states[0] == r.states[0]
    ensures StepOf(Last(Before(r)), r.acts[|r.acts| - 1], r.events[|r.events| - 1], Last(r))
  {
    var n := |r.acts| - 1;
    var p := Before(r);
    forall i {:trigger p.acts[i]} | 0 <= i < n
      ensures StepOf(p.states[i], p.acts[i], p.events[i], p.states[i + 1])
    {
      assert p.acts[i] == r.acts[i];
    }
    assert r.acts[n] == r.acts[|r.acts| - 1];
  }

  /** Settings for which the protocol is safe: a signal that loads tail and stores exc in one step,
      or a shadow stack of fewer than DEFAULT_DEQ_DEPTH entries. */
  predicate Safe(limit: nat, split: bool) {
    1 <= limit && (split ==> limit < DEFAULT_DEQ_DEPTH)
  }

  lemma {:induction false} RunKeepsInv(limit: nat, split: bool, r: Run)
    requires Safe(limit, split) && RunFrom(limit, split, r)
    ensures Inv(Last(r))
    decreases |r.acts|
  {
    if r.acts == [] {
    } else {
      LastStep(r);
      RunKeepsInv(limit, split, Before(r));
      StepRefines(Last(Before(r)), r.acts[|r.acts| - 1]);
    }
  }

  /** Linearizability: every run looks to its owner and its thieves like a run of an atomic deque,
      and the frames that deque still holds are exactly the untaken ones. */
  lemma {:induction false} RunRefinesAtomicDeque(limit: nat, split: bool, r: Run)
    requires Safe(limit, split) && RunFrom(limit, split, r)
    ensures AtomicHistory(r.events)
    ensures Contents(r.events) == Live(Last(r))
    decreases |r.acts|
  {
    if r.acts == [] {
    } else {
      LastStep(r);
      RunRefinesAtomicDeque(limit, split, Before(r));
      RunKeepsInv(limit, split, Before(r));
      StepRefines(Last(Before(r)), r.acts[|r.acts| - 1]);
    }
  }

  function Pushes(h: seq<Event>, id: nat): nat {
    if h == [] then 0
    else Pushes(h[..|h| - 1], id) + (if h[|h| - 1] == Push(id) then 1 else 0)
  }

  /** How often the owner popped or a thief stole the frame `id`. */
  function Takes(h: seq<Event>, id: nat): nat {
    if h == [] then 0
    else
      var e := h[|h| - 1];
      Takes(h[..|h| - 1], id) + (if (e.Pop? || e.Steal?) && e.id == id then 1 else 0)
  }

  lemma AfterConserves(d: seq<nat>, e: Event, id: nat)
    requires Allowed(d, e)
    ensures multiset(d)[id] + (if e == Push(id) then 1 else 0)
         == (if (e.Pop? || e.Steal?) && e.id == id then 1 else 0) + multiset(After(d, e))[id]
  {
    if e.Pop? {
      assert d == d[..|d| - 1] + [e.id];
    } else if e.Steal? {
      assert d == [e.id] + d[1..];
    }
  }

  lemma {:induction false} AtomicDequeConserves(h: seq<Event>, id: nat)
    requires AtomicHistory(h)
    ensures Pushes(h, id) == Takes(h, id) + multiset(Contents(h))[id]
  {
    if h == [] {
    } else {
      AtomicDequeConserves(h[..|h| - 1], id);
      AfterConserves(Contents(h[..|h| - 1]), h[|h| - 1], id);
    }
  }

  lemma StepNumbersPush(s: State, a: Action)
    requires Enabled(s, a)
    ensures var e := Emit(s, a);
            Apply(s, a).next == (if e.Push? then s.next + 1 else s.next) && (e.Push? ==> e.id == s.next)
  {
  }

  lemma {:induction false} PushesAreNumbered(r: Run, id: nat)
    requires IsRun(r)
    ensures r.states[0].next <= Last(r).next
    ensures Pushes(r.events, id) == if r.states[0].next <= id < Last(r).next then 1 else 0
    decreases |r.acts|
  {
    if r.acts == [] {
    } else {
      LastStep(r);
      PushesAreNumbered(Before(r), id);
      StepNumbersPush(Last(Before(r)), r.acts[|r.acts| - 1]);
    }
  }

  /** Each pushed frame is taken exactly once or still in the deque; nothing else is ever taken. */
  lemma ExactlyOnce(limit: nat, split: bool, r: Run, id: nat)
    requires Safe(limit, split) && RunFrom(limit, split, r)
    ensures Takes(r.events, id) + multiset(Live(Last(r)))[id] == if id < Last(r).next then 1 else 0
  {
    RunRefinesAtomicDeque(limit, split, r);
    AtomicDequeConserves(r.events, id);
    PushesAreNumbered(r, id);
  }

  /** When the owner gives up its closure no frame is left behind: every push has been taken. */
  lemma NothingIsLost(limit: nat, split: bool, r: Run, id: nat)
    requires Safe(limit, split) && RunFrom(limit, split, r)
    requires Last(r).owner.Drained? && id < Last(r).next
    ensures Takes(r.events, id) == 1
  {
    ExactlyOnce(limit, split, r, id);
    RunKeepsInv(limit, split, r);
  }

  /** The ready deque holds at most one closure whenever its lock is free, and the exception handler
      always finds its own running closure there. */
  lemma DequeOfClosures(limit: nat, split: bool, r: Run)
    requires Safe(limit, split) && RunFrom(limit, split, r)
    ensures Last(r).lock == Free ==> |Last(r).closures| <= 1
    ensures OwnerHoldsClosure(Last(r).owner) && Last(r).owner != Drained(LostClosure)
            ==> Last(r).closures == [Running]
  {
    RunKeepsInv(limit, split, r);
  }

  /** A worker that sleeps with its frame in hand keeps its closure and a non-empty deque, whatever thieves take from
      it meanwhile: this is why a woken worker finds its deque empty only if it was mugged. */
  lemma ParkedKeepsItsClosure(limit: nat, split: bool, r: Run)
    requires Safe(limit, split) && RunFrom(limit, split, r)
    requires Last(r).owner == Parked
    ensures Last(r).head <= Last(r).tail
    ensures Last(r).lock == Free ==> Last(r).closures == [Running]
  {
    RunKeepsInv(limit, split, r);
  }

  /** A worker that goes to sleep in the runtime has an empty deque, so the abort in worker_sleep_handling is
      unreachable. */
  lemma SleepsWithEmptyDeque(limit: nat, split: bool, r: Run)
    requires Safe(limit, split) && RunFrom(limit, split, r)
    requires Enabled(Last(r), Doze)
    ensures Last(r).head >= Last(r).tail && Live(Last(r)) == []
  {
    RunKeepsInv(limit, split, r);
  }

  /** A thief between its increment of exc and head++ has exc >= head + 1. */
  lemma ClaimIsVisible(limit: nat, split: bool, r: Run)
    requires Safe(limit, split) && RunFrom(limit, split, r)
    requires Last(r).lock.ByThief? && Claiming(Last(r).lock.pc)
    ensures Last(r).exc >= Last(r).head + 1
  {
    RunKeepsInv(limit, split, r);
  }

  // ---------------------------------------------------------------------------------------------
  // The bound on the shadow stack is exact
  // ---------------------------------------------------------------------------------------------

  /** A signaller got its request through and loaded tail while it was one below the base; the owner has since set up
      another closure, asked itself to sleep once more and pushed `k` frames, `taken` of which one thief has stolen. */
  predicate Stale(s: State, limit: nat, k: nat, taken: nat) {
    && s.limit == limit == |s.slots| && s.split
    && s.owner == User && s.lock == Free && s.closureLock == Unlocked && s.closures == [Running]
    && s.elastic == SleepRequested
    && 0 <= taken <= k < limit
    && s.head == taken && s.exc == taken + DEFAULT_DEQ_DEPTH && s.tail == k
    && DEFAULT_DEQ_DEPTH - 1 in s.pending
  }

  /** A run on which every signal follows a compare-and-swap that succeeded. */
  ghost predicate Reaches(limit: nat, r: Run, s: State) {
    RunFrom(limit, true, r) && Last(r) == s && SignalAgain !in r.acts
  }

  /** The step `a` leads from `s` to the state `s'`. */
  lemma Reach(limit: nat, r: Run, s: State, a: Action, s': State) returns (r': Run)
    requires Reaches(limit, r, s) && a != SignalAgain && Enabled(s, a) && Apply(s, a) == s'
    ensures Reaches(limit, r', s') && r'.events == r.events + [Emit(s, a)]
  {
    r' := Run(r.states + [s'], r.acts + [a], r.events + [Emit(s, a)]);
    forall i {:trigger r'.acts[i]} | 0 <= i < |r'.acts|
      ensures StepOf(r'.states[i], r'.acts[i], r'.events[i], r'.states[i + 1])
    {
      if i < |r.acts| {
        assert r'.acts[i] == r.acts[i];
      }
    }
  }

  lemma Extend(limit: nat, r: Run, s: State, a: Action) returns (r': Run, s': State)
    requires Reaches(limit, r, s) && a != SignalAgain && Enabled(s, a)
    ensures s' == Apply(s, a) && Reaches(limit, r', s')
    ensures r'.events == r.events + [Emit(s, a)]
  {
    s' := Apply(s, a);
    r' := Reach(limit, r, s, a, s');
  }

  /** The handler has found the frame stolen: the owner lets go of its locks and drops the closure in the runtime. */
  lemma DropClosure(limit: nat, r0: Run, s0: State) returns (r: Run, s: State)
    requires Reaches(limit, r0, s0) && s0.owner == Drained(LostClosure) && s0.lock == ByOwner && s0.elastic == ToSleep
    requires |s0.closures| == 1
    ensures s == s0.(owner := Drained(NoClosure), lock := Free, closureLock := Unlocked, closures := [])
    ensures Reaches(limit, r, s)
  {
    hide Reaches, Emit, HandlerGo, UserGo, DekkerGo, PromoteGo;
    var open := s0.(closureLock := Unlocked);
    r := Reach(limit, r0, s0, Go, open.(owner := Drained(LostDeque)));
    r := Reach(limit, r, open.(owner := Drained(LostDeque)), Go, open.(owner := Drained(Runtime), lock := Free));
    r := Reach(limit, r, open.(owner := Drained(Runtime), lock := Free), Go, open.(owner := Drained(RuntimeLocked)));
    var gone := open.(owner := Drained(RuntimeUnlock), closures := []);
    r := Reach(limit, r, open.(owner := Drained(RuntimeLocked)), Go, gone);
    s := gone.(owner := Drained(NoClosure), lock := Free);
    r := Reach(limit, r, gone, Go, s);
  }

  lemma ResetPointers(limit: nat, r0: Run, s0: State) returns (r: Run, s: State)
    requires Reaches(limit, r0, s0) && s0.owner == Drained(NoClosure) && s0.lock == Free && s0.elastic == ToSleep
    ensures s == s0.(owner := Drained(SetExc), head := 0, tail := 0, exc := 0)
    ensures Reaches(limit, r, s)
  {
    hide Reaches, Emit, HandlerGo, UserGo, DekkerGo, PromoteGo;
    r := Reach(limit, r0, s0, Go, s0.(head := 0, owner := Drained(SetHead)));
    r := Reach(limit, r, s0.(head := 0, owner := Drained(SetHead)), Go,
      s0.(head := 0, tail := 0, owner := Drained(SetTail)));
    s := s0.(head := 0, tail := 0, exc := 0, owner := Drained(SetExc));
    r := Reach(limit, r, s0.(head := 0, tail := 0, owner := Drained(SetTail)), Go, s);
  }

  /** The closure handed back by the return goes into the deque, and the owner repeats the request to itself. */
  lemma AddClosure(limit: nat, r0: Run, s0: State) returns (r: Run, s: State)
    requires Reaches(limit, r0, s0) && s0.owner == Drained(SetExc) && s0.lock == Free && s0.closures == []
    requires s0.elastic == ToSleep && s0.tail == 0
    ensures s == s0.(owner := User, closures := [Running], elastic := SleepRequested, exc := DEFAULT_DEQ_DEPTH)
    ensures Reaches(limit, r, s)
  {
    hide Reaches, Emit, HandlerGo, DekkerGo, PromoteGo;
    var held := s0.(lock := ByOwner);
    r := Reach(limit, r0, s0, Go, held.(owner := Drained(AddLocked)));
    r := Reach(limit, r, held.(owner := Drained(AddLocked)), Go, held.(owner := Drained(AddUnlock),
      closures := [Running]));
    var added := s0.(closures := [Running], owner := RequestAgain);
    r := Reach(limit, r, held.(owner := Drained(AddUnlock), closures := [Running]), Go, added);
    var asked := added.(elastic := SleepRequested, owner := SignalSelf);
    r := Reach(limit, r, added, Go, asked);
    s := asked.(owner := User, exc := DEFAULT_DEQ_DEPTH);
    r := Reach(limit, r, asked, Go, s);
  }

  /** The frame below the base is left; a signaller's request gets through, and it loads tail at that moment. */
  lemma LeaveAndSignal(limit: nat) returns (r: Run, s: State)
    requires 1 <= limit
    ensures s == Init(limit, true).(tail := -1, elastic := SleepRequested, owner := Undecided(WaitDeque),
                                    pending := multiset{DEFAULT_DEQ_DEPTH - 1})
    ensures Reaches(limit, r, s)
  {
    s := Init(limit, true);
    r := Run([s], [], []);
    r, s := Extend(limit, r, s, Leave);
    r, s := Extend(limit, r, s, SignalCas);
    r, s := Extend(limit, r, s, SignalRead);
    r, s := Extend(limit, r, s, Go);
  }

  lemma StaleSignal(limit: nat) returns (r: Run, s: State)
    requires 1 <= limit
    ensures Reaches(limit, r, s) && Stale(s, limit, 0, 0)
  {
    r, s := LeaveAndSignal(limit);
    r, s := Extend(limit, r, s, Go);
    r, s := Extend(limit, r, s, Go);
    r, s := Extend(limit, r, s, Go);
    r, s := Extend(limit, r, s, Go);
    r, s := Extend(limit, r, s, Go);
    r, s := DropClosure(limit, r, s);
    r, s := ResetPointers(limit, r, s);
    r, s := AddClosure(limit, r, s);
  }

  lemma {:induction false} PushMany(limit: nat, k: nat) returns (r: Run, s: State)
    requires k < limit
    ensures Reaches(limit, r, s) && Stale(s, limit, k, 0)
  {
    if k == 0 {
      r, s := StaleSignal(limit);
    } else {
      r, s := PushMany(limit, k - 1);
      r, s := Extend(limit, r, s, Detach);
      r, s := Extend(limit, r, s, Go);
    }
  }

  /** A thief gets the two locks and finds the top closure running. */
  lemma EnterDeque(limit: nat, r0: Run, s0: State, k: nat, taken: nat) returns (r: Run, s: State)
    requires Reaches(limit, r0, s0) && Stale(s0, limit, k, taken)
    ensures s == s0.(lock := ByThief(0, IncLoad), closureLock := ThiefHas)
    ensures Reaches(limit, r, s) && r0.events <= r.events
  {
    hide Reaches, Emit, HandlerGo, RestartGo, UserGo, PromoteGo;
    r := Reach(limit, r0, s0, TryLock(0), s0.(lock := ByThief(0, Entered)));
    s := s0.(lock := ByThief(0, IncLoad), closureLock := ThiefHas);
    r := Reach(limit, r, s0.(lock := ByThief(0, Entered)), Thief, s);
  }

  /** The thief's part of the Dekker protocol up to its visible increment of exc. */
  lemma RaiseExc(limit: nat, r0: Run, s0: State, k: nat, taken: nat) returns (r: Run, s: State)
    requires Reaches(limit, r0, s0) && Stale(s0, limit, k, taken)
    ensures s == s0.(lock := ByThief(0, ReadHead), closureLock := ThiefHas, exc := s0.exc + 1)
    ensures Reaches(limit, r, s) && r0.events <= r.events
  {
    hide Reaches, Emit, HandlerGo, RestartGo, UserGo, PromoteGo;
    var held := s0.(closureLock := ThiefHas);
    r, s := EnterDeque(limit, r0, s0, k, taken);
    r := Reach(limit, r, s, Thief, held.(lock := ByThief(0, IncStore(s0.exc))));
    s := held.(lock := ByThief(0, ReadHead), exc := s0.exc + 1);
    r := Reach(limit, r, held.(lock := ByThief(0, IncStore(s0.exc))), Thief, s);
  }

  /** The thief finds a frame. */
  lemma Win(limit: nat, r0: Run, s0: State) returns (r: Run, s: State)
    requires Reaches(limit, r0, s0) && s0.lock == ByThief(0, ReadHead) && s0.head < s0.tail
    ensures s == s0.(lock := ByThief(0, Won))
    ensures Reaches(limit, r, s)
  {
    hide Reaches, HandlerGo, RestartGo, UserGo;
    r := Reach(limit, r0, s0, Thief, s0.(lock := ByThief(0, ReadTail(s0.head))));
    s := s0.(lock := ByThief(0, Won));
    r := Reach(limit, r, s0.(lock := ByThief(0, ReadTail(s0.head))), Thief, s);
  }

  /** The frame is that of the top closure, which the thief takes out of the deque for a child. */
  lemma TakeSameFrame(limit: nat, r0: Run, s0: State) returns (r: Run, s: State)
    requires Reaches(limit, r0, s0) && s0.lock == ByThief(0, Won) && 0 <= s0.head < |s0.slots|
    requires s0.closures == [Running]
    ensures s == s0.(lock := Free, closureLock := Unlocked, head := s0.head + 1)
    ensures Reaches(limit, r, s)
    ensures Steal(0, s0.slots[s0.head]) in r.events
  {
    hide Reaches, HandlerGo, RestartGo, UserGo, DekkerGo;
    r := Reach(limit, r0, s0, ThiefSame(true), s0.(lock := ByThief(0, TakeSame)));
    var taken := s0.(lock := ByThief(0, AddSame), head := s0.head + 1);
    r := Reach(limit, r, s0.(lock := ByThief(0, TakeSame)), Thief, taken);
    assert r.events[|r.events| - 1] == Steal(0, s0.slots[s0.head]);
    var both := taken.(closures := [Running, Running], lock := ByThief(0, XtractTop));
    r, s := FinishSteal(limit, r, taken, both, Steal(0, s0.slots[s0.head]));
  }

  lemma FinishSteal(limit: nat, r0: Run, s0: State, both: State, e: Event) returns (r: Run, s: State)
    requires Reaches(limit, r0, s0) && e in r0.events
    requires s0.lock == ByThief(0, AddSame) && s0.closures == [Running]
    requires both == s0.(closures := [Running, Running], lock := ByThief(0, XtractTop))
    ensures s == s0.(lock := Free, closureLock := Unlocked)
    ensures Reaches(limit, r, s) && e in r.events
  {
    hide Reaches, HandlerGo, RestartGo, UserGo, DekkerGo;
    r := Reach(limit, r0, s0, Thief, both);
    assert both.closures[1..] == [Running];
    var out := s0.(lock := ByThief(0, Unlock), closureLock := Unlocked);
    r := Reach(limit, r, both, Thief, out);
    s := out.(lock := Free);
    r := Reach(limit, r, out, Thief, s);
  }

  /** The frame is a younger one: the thief suspends the top closure and adds a child of a closure of its own. */
  lemma TakeNewFrame(limit: nat, r0: Run, s0: State) returns (r: Run, s: State)
    requires Reaches(limit, r0, s0) && s0.lock == ByThief(0, Won) && 0 <= s0.head < |s0.slots|
    requires s0.closures == [Running]
    ensures s == s0.(lock := Free, closureLock := Unlocked, head := s0.head + 1)
    ensures Reaches(limit, r, s)
    ensures Steal(0, s0.slots[s0.head]) in r.events
  {
    hide Reaches, HandlerGo, RestartGo, UserGo, DekkerGo;
    var open := s0.(closures := [], closureLock := Unlocked);
    r := Reach(limit, r0, s0, ThiefSame(false), open.(lock := ByThief(0, TakeNew)));
    var taken := open.(lock := ByThief(0, AddNew), head := s0.head + 1);
    r := Reach(limit, r, open.(lock := ByThief(0, TakeNew)), Thief, taken);
    assert r.events[|r.events| - 1] == Steal(0, s0.slots[s0.head]);
    r, s := FinishNewSteal(limit, r, taken, Steal(0, s0.slots[s0.head]));
  }

  lemma FinishNewSteal(limit: nat, r0: Run, s0: State, e: Event) returns (r: Run, s: State)
    requires Reaches(limit, r0, s0) && e in r0.events
    requires s0.lock == ByThief(0, AddNew) && s0.closures == []
    ensures s == s0.(lock := Free, closures := [Running])
    ensures Reaches(limit, r, s) && e in r.events
  {
    hide Reaches, HandlerGo, RestartGo, UserGo, DekkerGo;
    var added := s0.(closures := [Running], lock := ByThief(0, Unlock));
    r := Reach(limit, r0, s0, Thief, added);
    s := added.(lock := Free);
    r := Reach(limit, r, added, Thief, s);
  }

  /** Only the first steal can meet the closure's own frame; the child that the victim goes on with has none yet. */
  lemma StealOne(limit: nat, r0: Run, s0: State, k: nat, taken: nat) returns (r: Run, s: State)
    requires Reaches(limit, r0, s0) && Stale(s0, limit, k, taken) && taken < k
    ensures Reaches(limit, r, s) && Stale(s, limit, k, taken + 1) && s.slots == s0.slots
    ensures Steal(0, s0.slots[taken]) in r.events
  {
    r, s := RaiseExc(limit, r0, s0, k, taken);
    r, s := Win(limit, r, s);
    if taken == 0 {
      r, s := TakeSameFrame(limit, r, s);
    } else {
      r, s := TakeNewFrame(limit, r, s);
    }
  }

  lemma {:induction false} StealMany(limit: nat, k: nat, taken: nat) returns (r: Run, s: State)
    requires taken <= k < limit
    ensures Reaches(limit, r, s) && Stale(s, limit, k, taken)
    ensures taken > 0 ==> Steal(0, s.slots[taken - 1]) in r.events
  {
    if taken == 0 {
      r, s := PushMany(limit, k);
    } else {
      r, s := StealMany(limit, k, taken - 1);
      r, s := StealOne(limit, r, s, k, taken - 1);
    }
  }

  /** The late store of the signal falls between a failing thief's increment of exc and its decrement. */
  lemma LateStore(limit: nat, r0: Run, s0: State, k: nat, e: Event) returns (r: Run, s: State)
    requires Reaches(limit, r0, s0) && s0.lock == ByThief(0, ReadHead) && e in r0.events
    requires s0.head == s0.tail == k && k in s0.pending
    ensures s == s0.(lock := ByThief(0, DecLoad), exc := k, pending := s0.pending - multiset{k})
    ensures Reaches(limit, r, s) && e in r.events
  {
    var late := s0.(exc := k, pending := s0.pending - multiset{k});
    r := Reach(limit, r0, s0, SignalWrite(k), late);
    r := Reach(limit, r, late, Thief, late.(lock := ByThief(0, ReadTail(k))));
    s := late.(lock := ByThief(0, DecLoad));
    r := Reach(limit, r, late.(lock := ByThief(0, ReadTail(k))), Thief, s);
  }

  lemma LowerExc(limit: nat, r0: Run, s0: State, e: Event) returns (r: Run, s: State)
    requires Reaches(limit, r0, s0) && s0.lock == ByThief(0, DecLoad) && e in r0.events
    ensures s == s0.(lock := ByThief(0, GiveUp), exc := s0.exc - 1)
    ensures Reaches(limit, r, s) && e in r.events
  {
    r := Reach(limit, r0, s0, Thief, s0.(lock := ByThief(0, DecStore(s0.exc))));
    s := s0.(lock := ByThief(0, GiveUp), exc := s0.exc - 1);
    r := Reach(limit, r, s0.(lock := ByThief(0, DecStore(s0.exc))), Thief, s);
  }

  /** With DEFAULT_DEQ_DEPTH entries or more a delayed signal of a request lets the owner pop a stolen frame. */
  lemma StaleSignalTakesTwice(limit: nat) returns (r: Run, id: nat, thief: nat)
    requires DEFAULT_DEQ_DEPTH <= limit
    ensures RunFrom(limit, true, r) && SignalAgain !in r.acts
    ensures Steal(thief, id) in r.events
    ensures Pop(id) in r.events
  {
    var k := DEFAULT_DEQ_DEPTH - 1;
    var s;
    r, s := StealMany(limit, k, k);
    thief, id := 0, s.slots[k - 1];
    var before := r.events;
    r, s := RaiseExc(limit, r, s, k, k);
    assert Steal(0, id) in before[..] && before <= r.events;
    r, s := LateStore(limit, r, s, k, Steal(0, id));
    r, s := LowerExc(limit, r, s, Steal(0, id));
    var low := s.(tail := k - 1, owner := Undecided(TailLowered));
    r := Reach(limit, r, s, Leave, low);
    r := Reach(limit, r, low, Go, low.(owner := User));
    assert r.events[|r.events| - 1] == Pop(id);
  }

  ghost predicate TakesAtMostOnce(limit: nat, split: bool) {
    forall r: Run, id: nat | RunFrom(limit, split, r) :: Takes(r.events, id) <= 1
  }

  lemma {:induction false} TakesBoth(h: seq<Event>, i: nat, j: nat, id: nat, thief: nat)
    requires i < |h| && j < |h| && h[i] == Steal(thief, id) && h[j] == Pop(id)
    ensures Takes(h, id) >= 2
  {
    var n := |h| - 1;
    if i < n && j < n {
      TakesBoth(h[..n], i, j, id, thief);
    } else {
      TakesOne(h[..n], if i < n then i else j, id);
    }
  }

  lemma {:induction false} TakesOne(h: seq<Event>, i: nat, id: nat)
    requires i < |h| && (h[i].Steal? || h[i].Pop?) && h[i].id == id
    ensures Takes(h, id) >= 1
  {
    if i < |h| - 1 {
      TakesOne(h[..|h| - 1], i, id);
    }
  }

  /** With a signal that stores exc in one step the protocol is safe for every stack depth; with the
      load and the store apart it is safe for exactly the depths below DEFAULT_DEQ_DEPTH. */
  lemma SafeExactlyBelowTheSignalOffset(limit: nat, split: bool)
    requires 1 <= limit
    ensures TakesAtMostOnce(limit, split) <==> Safe(limit, split)
  {
    if Safe(limit, split) {
      forall r: Run, id: nat | RunFrom(limit, split, r)
        ensures Takes(r.events, id) <= 1
      {
        ExactlyOnce(limit, split, r, id);
      }
    } else {
      var r, id, thief := StaleSignalTakesTwice(limit);
      var h := r.events;
      var i :| 0 <= i < |h| && h[i] == Steal(thief, id);
      var j :| 0 <= j < |h| && h[j] == Pop(id);
      TakesBoth(h, i, j, id, thief);
    }
  }
}
