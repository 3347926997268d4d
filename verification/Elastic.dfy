/** The elastic workers of one program. */
module Elastic {
  // A worker asked to sleep parks in one of the two end regions of cpu_state_group: in front with its deque full, at
  // the back with its deque drained. A running worker may mug a worker parked with work: it swaps its own empty deque
  // for the full one.
  //
  // The regions move under the elastic_core lock; the states move by separate compare-and-swaps. Each step below is
  // one compare-and-swap, one lock operation or one statement under the lock.

  datatype Estate =
    | Active | SleepRequested | ToSleep
    | SleepingAdapting | SleepingActive | SleepingMugging | SleepingInactive
    | ActivateRequested | Activating | DoMugging

  datatype Region = Middle | WithWork | Idle

  /** The turns of a worker that moves between the middle and an end region.  It moves the border of the region
      before it exchanges places on the way in, and after that on the way out. */
  datatype Turn = Lock | Border | Exchange | Unlock

  /** The turns of a mugger that has claimed its victim. */
  datatype MugTurn =
    | Drain | GiveUp | Deques | Enter | Grow | Move | Fill(at: nat) | Shrink | Leave | Release

  datatype Pc =
    | Run
    | Moving(front: bool, enter: bool, turn: Turn)
    | Entered | Parked(front: bool) | Woken(front: bool) | Left
    | IdleDrain | IdleAdapt
    | MugPick | MugSelf(v: nat) | MugClaim(v: nat) | MugBack | MugGaveUp | MugDone
    | Mugging(v: nat, mug: MugTurn)

  /** `region` is where the worker belongs; the code only knows it through the two pointers. */
  datatype Worker = Worker(es: Estate, pc: Pc, region: Region, full: bool)

  datatype State = State(
    ws: seq<Worker>,
    group: seq<nat>,   // cpu_state_group
    pos: seq<nat>,     // elastic_pos_in_cpu_state_group of each worker
    pa: int,           // ptr_sleeping_active_deque
    pi: int,           // ptr_sleeping_inactive_deque
    holder: int)       // worker inside the elastic_core lock, -1 when it is free

  datatype Action =
    | Work(w: nat, full: bool)          // user code and scheduling change the worker's own deque
    | Handler(w: nat)                   // SLEEP_REQUESTED is noticed in the exception handler
    | Park(w: nat) | ParkIdle(w: nat) | ParkExit(w: nat) | Mug(w: nat)
    | Step(w: nat) | Drained(w: nat, ready: bool) | Pick(w: nat, r: nat)
    | RequestSleep(v: nat) | Activate(v: nat) | CancelSleep(v: nat)

  function Init(full: seq<bool>): State {
    var n := |full|;
    State(seq(n, i requires 0 <= i < n => Worker(Active, Run, Middle, full[i])),
          seq(n, i requires 0 <= i < n => i), seq(n, i requires 0 <= i < n => i), -1, n, -1)
  }

  // ---------------------------------------------------------------------------------------------
  // Steps
  // ---------------------------------------------------------------------------------------------

  function Set(s: State, w: nat, es: Estate, pc: Pc): State
    requires w < |s.ws|
  {
    s.(ws := s.ws[w := s.ws[w].(es := es, pc := pc)])
  }

  function Go(s: State, w: nat, pc: Pc): State
    requires w < |s.ws|
  {
    s.(ws := s.ws[w := s.ws[w].(pc := pc)])
  }

  function Place(s: State, w: nat, region: Region): State
    requires w < |s.ws|
  {
    s.(ws := s.ws[w := s.ws[w].(region := region)])
  }

  predicate CanSwap(s: State, a: nat, b: int) {
    a < |s.pos| && 0 <= b < |s.group| && s.group[b] < |s.pos|
    && s.pos[a] < |s.group| && s.pos[s.group[b]] < |s.group|
  }

  /** elastic_do_exchange_state_group(a, worker at position b). */
  function Swap(s: State, a: nat, b: int): State
    requires CanSwap(s, a, b)
  {
    var x := s.group[b];
    var pa, px := s.pos[a], s.pos[x];
    s.(group := s.group[pa := x][px := a], pos := s.pos[a := px][x := pa])
  }

  /** The last position of the front region, or the first of the end region. */
  function BorderOf(s: State, front: bool): int {
    if front then s.pa else s.pi
  }

  predicate Enabled(s: State, a: Action) {
    match a
    case Work(w, _) => w < |s.ws| && s.ws[w].pc.Run?
    case Handler(w) => w < |s.ws| && s.ws[w].pc.Run? && s.ws[w].es.SleepRequested?
    // that its deque is full is what ParkedDeque.HandlerParksWithWork proves
    case Park(w) => w < |s.ws| && s.ws[w].pc.Run? && s.ws[w].es.ToSleep? && s.ws[w].full
    case ParkIdle(w) => w < |s.ws| && s.ws[w].pc.Run? && (s.ws[w].es.ToSleep? || s.ws[w].es.SleepRequested?)
    case ParkExit(w) => w < |s.ws| && s.ws[w].pc.Run? && (s.ws[w].es.Active? || s.ws[w].es.SleepRequested?)
    case Mug(w) => w < |s.ws| && s.ws[w].pc.Run? && s.ws[w].es.Active?
    case Drained(w, _) =>
      w < |s.ws| && (s.ws[w].pc.IdleDrain? || (s.ws[w].pc.Mugging? && s.ws[w].pc.mug.Drain? && s.ws[w].pc.v < |s.ws|))
    case Pick(w, r) => w < |s.ws| && s.ws[w].pc.MugPick? && s.holder == -1 && s.pa < |s.group|
    case RequestSleep(v) => v < |s.ws| && s.ws[v].es.Active?
    case Activate(v) => v < |s.ws| && s.ws[v].es.SleepingInactive?
    case CancelSleep(v) => v < |s.ws| && s.ws[v].es.SleepingActive?
    case Step(w) =>
      w < |s.ws| &&
      match s.ws[w].pc
      case Run | IdleDrain | MugPick => false
      case Moving(front, _, turn) =>
        (turn.Lock? ==> s.holder == -1) && (turn.Exchange? ==> CanSwap(s, w, BorderOf(s, front)))
      case Parked(_) => s.ws[w].es.ActivateRequested?
      case MugClaim(v) => v < |s.ws|
      case Mugging(v, mug) =>
        v < |s.ws| &&
        (match mug
         case Drain => false
         case Enter => s.holder == -1
         case Move => CanSwap(s, v, s.pi)
         case Fill(at) => at < |s.group| && CanSwap(s, s.group[at], s.pa)
         case GiveUp | Deques | Grow | Shrink | Leave | Release => true)
      case Entered | Woken(_) | Left | IdleAdapt | MugSelf(_) | MugBack | MugGaveUp | MugDone => true
  }

  function End(front: bool): Region {
    if front then WithWork else Idle
  }

  /** The next turn of a worker that moves into an end region or out of it. */
  function NextMove(x: Worker): Worker
    requires x.pc.Moving?
  {
    var front := x.pc.front;
    match x.pc.turn
    case Lock => x.(pc := x.pc.(turn := if x.pc.enter then Border else Exchange))
    case Border => x.(pc := x.pc.(turn := if x.pc.enter then Exchange else Unlock))
    case Exchange =>
      if x.pc.enter then x.(pc := x.pc.(turn := Unlock), region := End(front))
      else x.(pc := x.pc.(turn := Border), region := Middle)
    case Unlock => x.(pc := if !x.pc.enter then Left else if front then Entered else Parked(false))
  }

  /** The worker's own next state and program counter, when its step writes no other worker. */
  function Next(x: Worker): Worker {
    match x.pc
    case Moving(_, _, _) => NextMove(x)
    case Entered => x.(es := SleepingActive, pc := Parked(true))
    case Parked(front) => x.(pc := Woken(front))
    case Woken(front) => x.(es := Activating, pc := Moving(front && x.full, false, Lock))
    case Left => x.(es := Active, pc := Run)
    case IdleAdapt => x.(es := SleepingInactive, pc := Moving(false, true, Lock))
    case MugSelf(v) => if x.es.Active? then x.(es := DoMugging, pc := MugClaim(v)) else x.(pc := Run)
    case MugBack => x.(es := Active, pc := MugPick)
    case MugGaveUp | MugDone => x.(es := Active, pc := Run)
    case Mugging(v, Enter) => x.(pc := Mugging(v, Grow))
    case Mugging(v, Grow) => x.(pc := Mugging(v, Move))
    case Mugging(v, Fill(_)) => x.(pc := Mugging(v, Shrink))
    case Mugging(v, Shrink) => x.(pc := Mugging(v, Leave))
    case Mugging(v, Leave) => x.(pc := Mugging(v, Release))
    case _ => x
  }

  /** What the turn of a moving worker does to the lock, the two pointers and cpu_state_group. */
  function CoreMove(s: State, w: nat): State
    requires Enabled(s, Step(w)) && s.ws[w].pc.Moving?
  {
    var pc := s.ws[w].pc;
    match pc.turn
    case Lock => s.(holder := w)
    case Unlock => s.(holder := -1)
    case Border =>
      if pc.front then s.(pa := if pc.enter then s.pa + 1 else s.pa - 1)
      else s.(pi := if pc.enter then s.pi - 1 else s.pi + 1)
    case Exchange => Swap(s, w, BorderOf(s, pc.front))
  }

  function Core(s: State, w: nat): State
    requires Enabled(s, Step(w))
  {
    match s.ws[w].pc
    case Moving(_, _, _) => CoreMove(s, w)
    case Mugging(_, Enter) => s.(holder := w)
    case Mugging(_, Grow) => s.(pi := s.pi - 1)
    case Mugging(_, Fill(at)) => Swap(s, s.group[at], s.pa)
    case Mugging(_, Shrink) => s.(pa := s.pa - 1)
    case Mugging(_, Leave) => s.(holder := -1)
    case _ => s
  }

  /** The five steps of a mugger that write the worker it mugs. */
  predicate TouchesVictim(pc: Pc) {
    pc.MugClaim? || (pc.Mugging? && (pc.mug.GiveUp? || pc.mug.Deques? || pc.mug.Move? || pc.mug.Release?))
  }

  function VictimStep(s: State, w: nat): State
    requires Enabled(s, Step(w)) && TouchesVictim(s.ws[w].pc)
  {
    var v := s.ws[w].pc.v;
    match s.ws[w].pc
    case MugClaim(_) =>
      if s.ws[v].es.SleepingActive?
      then Go(s.(ws := s.ws[v := s.ws[v].(es := SleepingMugging)]), w, Mugging(v, Drain))
      else Go(s, w, MugBack)
    case Mugging(_, GiveUp) => Go(s.(ws := s.ws[v := s.ws[v].(es := SleepingActive)]), w, MugGaveUp)
    case Mugging(_, Deques) =>
      var fw, fv := s.ws[w].full, s.ws[v].full;
      Go(s.(ws := s.ws[v := s.ws[v].(full := fw)][w := s.ws[w].(full := fv)]), w, Mugging(v, Enter))
    case Mugging(_, Move) => Place(Go(Swap(s, v, s.pi), w, Mugging(v, Fill(s.pos[v]))), v, Idle)
    case Mugging(_, Release) => Go(s.(ws := s.ws[v := s.ws[v].(es := SleepingInactive)]), w, MugDone)
    case _ => s
  }

  function Apply(s: State, a: Action): State
    requires Enabled(s, a)
  {
    match a
    case Work(w, full) => s.(ws := s.ws[w := s.ws[w].(full := full)])
    case Handler(w) => Set(s, w, ToSleep, Run)
    case Park(w) => Set(s, w, SleepingAdapting, Moving(true, true, Lock))
    case ParkIdle(w) => Set(s, w, SleepingAdapting, if s.ws[w].es.ToSleep? then IdleDrain else IdleAdapt)
    case ParkExit(w) => Set(s, w, SleepingInactive, Moving(false, true, Lock))
    case Mug(w) => Go(s, w, MugPick)
    case Drained(w, ready) =>
      if s.ws[w].pc.IdleDrain? then
        if ready then Set(s.(ws := s.ws[w := s.ws[w].(full := true)]), w, SleepRequested, Run)
        else Go(s.(ws := s.ws[w := s.ws[w].(full := false)]), w, IdleAdapt)
      else
        Go(s.(ws := s.ws[w := s.ws[w].(full := ready)]), w, Mugging(s.ws[w].pc.v, if ready then GiveUp else Deques))
    case Pick(w, r) =>
      if s.pa < 0 || s.group[r % (s.pa + 1)] == w then Go(s, w, Run)
      else Go(s, w, MugSelf(s.group[r % (s.pa + 1)]))
    case RequestSleep(v) => s.(ws := s.ws[v := s.ws[v].(es := SleepRequested)])
    case Activate(v) => s.(ws := s.ws[v := s.ws[v].(es := ActivateRequested)])
    case CancelSleep(v) => s.(ws := s.ws[v := s.ws[v].(es := ActivateRequested)])
    case Step(w) =>
      if TouchesVictim(s.ws[w].pc) then VictimStep(s, w)
      else Core(s, w).(ws := s.ws[w := Next(s.ws[w])])
  }

  // ---------------------------------------------------------------------------------------------
  // Invariant
  // ---------------------------------------------------------------------------------------------

  /** cpu_state_group is a permutation of the workers and pos its inverse. */
  ghost predicate Perm(s: State) {
    && |s.group| == |s.pos| == |s.ws|
    && (forall i {:trigger s.group[i]} | 0 <= i < |s.group| :: s.group[i] < |s.ws| && s.pos[s.group[i]] == i)
    && (forall w {:trigger s.pos[w]} | 0 <= w < |s.pos| :: s.pos[w] < |s.ws| && s.group[s.pos[w]] == w)
  }

  function HolderPc(s: State): Pc {
    if 0 <= s.holder < |s.ws| then s.ws[s.holder].pc else Run
  }

  /** A moving worker has moved the border of its region and not yet exchanged places, or the other way round. */
  predicate HalfMoved(pc: Pc) {
    pc.Moving? && if pc.enter then pc.turn.Exchange? else pc.turn.Border?
  }

  /** The end of the region of workers parked with work, whatever the holder has half done. */
  function WorkEnd(s: State): int {
    var pc := HolderPc(s);
    if (HalfMoved(pc) && pc.front) || (pc.Mugging? && pc.mug.Shrink?) then s.pa - 1 else s.pa
  }

  function IdleBegin(s: State): int {
    var pc := HolderPc(s);
    if (HalfMoved(pc) && !pc.front) || (pc.Mugging? && pc.mug.Move?) then s.pi + 1 else s.pi
  }

  /** The position a mugged worker has left and the last worker of its region has not yet filled. */
  function Hole(s: State): int {
    var pc := HolderPc(s);
    if pc.Mugging? && pc.mug.Fill? then pc.mug.at else -1
  }

  /** The region that position `p` of cpu_state_group belongs to. */
  function Zone(s: State, p: int): Region {
    if p == Hole(s) then Middle
    else if p <= WorkEnd(s) then WithWork
    else if p < IdleBegin(s) then Middle
    else Idle
  }

  predicate Placed(s: State, w: nat)
    requires w < |s.ws| && |s.pos| == |s.ws|
  {
    s.ws[w].region == Zone(s, s.pos[w])
  }

  predicate Bounds(s: State) {
    && -1 <= s.pa < s.pi <= |s.ws|
    && -1 <= WorkEnd(s) && IdleBegin(s) <= |s.ws|
    && Hole(s) <= WorkEnd(s)
    && -1 <= s.holder < |s.ws|
  }

  ghost predicate Regions(s: State)
    requires |s.pos| == |s.ws|
  {
    Bounds(s) && forall w | 0 <= w < |s.ws| :: Placed(s, w)
  }

  predicate HoldsCore(pc: Pc) {
    match pc
    case Moving(_, _, turn) => !turn.Lock?
    case Mugging(_, mug) => mug.Grow? || mug.Move? || mug.Fill? || mug.Shrink? || mug.Leave?
    case _ => false
  }

  /** A moving worker has exchanged places. */
  predicate Exchanged(pc: Pc)
    requires pc.Moving?
  {
    if pc.enter then pc.turn.Unlock? else pc.turn.Border? || pc.turn.Unlock?
  }

  /** The mugger has taken the deque of the worker pc.v. */
  predicate EmptiedBy(mug: MugTurn) {
    !mug.Drain? && !mug.GiveUp? && !mug.Deques?
  }

  /** What a worker's program counter says about its state, its region and its deque. */
  predicate Local(x: Worker) {
    match x.pc
    case Run => x.region.Middle? && (x.es.Active? || x.es.SleepRequested? || x.es.ToSleep?)
    case Moving(front, enter, _) =>
      && x.region == (if Exchanged(x.pc) == enter then End(front) else Middle)
      && (if !enter then x.es.Activating?
          else if front then x.es.SleepingAdapting? && x.full
          else x.es.SleepingInactive? || x.es.ActivateRequested?)
    case Entered => x.region.WithWork? && x.es.SleepingAdapting? && x.full
    case Parked(front) =>
      (match x.es
       case SleepingActive => front && x.region.WithWork? && x.full
       case SleepingInactive => x.region.Idle? && (front ==> !x.full)
       case ActivateRequested => x.region == End(front && x.full)
       case SleepingMugging => front && !x.region.Middle?
       case _ => false)
    case Woken(front) => x.es.ActivateRequested? && x.region == End(front && x.full)
    case Left => x.region.Middle? && x.es.Activating?
    case IdleDrain | IdleAdapt => x.region.Middle? && x.es.SleepingAdapting?
    case MugPick | MugSelf(_) => x.region.Middle? && (x.es.Active? || x.es.SleepRequested?)
    case Mugging(_, mug) =>
      && x.region.Middle? && x.es.DoMugging?
      && (mug.Deques? ==> !x.full) && (mug.GiveUp? || EmptiedBy(mug) ==> x.full)
    case MugClaim(_) | MugBack => x.region.Middle? && x.es.DoMugging?
    case MugGaveUp | MugDone => x.region.Middle? && x.es.DoMugging? && x.full
  }

  /** The mugger has moved the worker pc.v to the idle region. */
  predicate MovedBy(mug: MugTurn) {
    mug.Fill? || mug.Shrink? || mug.Leave? || mug.Release?
  }

  /** A mugger and the worker it has claimed. */
  predicate Claimed(s: State, m: nat)
    requires m < |s.ws|
  {
    var pc := s.ws[m].pc;
    pc.Mugging? ==>
      && pc.v < |s.ws|
      && pc.v != m
      && var v := s.ws[pc.v];
         && v.pc == Parked(true) && v.es.SleepingMugging?
         && (v.region.WithWork? <==> !MovedBy(pc.mug))
         && (v.full <==> !EmptiedBy(pc.mug))
  }

  ghost predicate Claims(s: State) {
    && (forall m | 0 <= m < |s.ws| :: Claimed(s, m))
    && (forall m, k {:trigger s.ws[m], s.ws[k]} | 0 <= m < k < |s.ws| ::
          s.ws[m].pc.Mugging? && s.ws[k].pc.Mugging? ==> s.ws[m].pc.v != s.ws[k].pc.v)
  }

  ghost predicate Locals(s: State) {
    forall w {:trigger s.ws[w]} | 0 <= w < |s.ws| :: AtHome(s, s.ws[w], w)
  }

  /** The worker x, as number w, fits its own program counter and the lock. */
  predicate AtHome(s: State, x: Worker, w: nat) {
    Local(x) && (HoldsCore(x.pc) <==> w == s.holder)
  }

  ghost predicate Inv(s: State) {
    Perm(s) && Regions(s) && Locals(s) && Claims(s)
  }

  lemma SwapKeepsPerm(s: State, a: nat, b: int)
    requires Perm(s) && a < |s.ws| && 0 <= b < |s.ws|
    ensures CanSwap(s, a, b) && Perm(Swap(s, a, b))
    ensures var s', x := Swap(s, a, b), s.group[b];
            && s'.pos[a] == b && s'.pos[x] == s.pos[a]
            && forall w | 0 <= w < |s.ws| && w != a && w != x :: s'.pos[w] == s.pos[w]
  {
  }

  // ---------------------------------------------------------------------------------------------
  // How a step may change the state
  // ---------------------------------------------------------------------------------------------

  predicate Unmoved(s: State, s': State) {
    && s'.pos == s.pos && s'.group == s.group
    && WorkEnd(s') == WorkEnd(s) && IdleBegin(s') == IdleBegin(s) && Hole(s') == Hole(s)
  }

  lemma RegionsUnmoved(s: State, s': State)
    requires Perm(s) && Regions(s) && |s'.ws| == |s.ws| && Unmoved(s, s') && Bounds(s')
    requires forall u {:trigger s'.ws[u]} | 0 <= u < |s.ws| :: s'.ws[u].region == s.ws[u].region
    ensures Perm(s') && Regions(s')
  {
    hide WorkEnd, IdleBegin, Hole;
    forall u | 0 <= u < |s.ws| ensures Placed(s', u) {
      assert Placed(s, u);
    }
  }

  /** Worker `a` goes to position `b`, the worker found there goes where `a` was. */
  ghost predicate Moved(s: State, s': State, a: nat, b: int) {
    && |s.pos| == |s.group| == |s.ws| == |s'.ws| && a < |s.ws| && 0 <= b < |s.ws| && Bounds(s')
    && CanSwap(s, a, b) && s'.pos == Swap(s, a, b).pos && s'.group == Swap(s, a, b).group
    && s'.ws[a].region == Zone(s', b)
    && (s.group[b] != a ==> Zone(s, b) == Zone(s', s.pos[a]))
    && (forall p | 0 <= p < |s.ws| && p != b && p != s.pos[a] :: Zone(s', p) == Zone(s, p))
  }

  lemma RegionsAfterSwap(s: State, s': State, a: nat, b: int)
    requires Perm(s) && Regions(s) && Moved(s, s', a, b)
    requires forall u {:trigger s'.ws[u]} | 0 <= u < |s.ws| && u != a :: s'.ws[u].region == s.ws[u].region
    ensures Perm(s') && Regions(s')
  {
    hide Zone, WorkEnd, IdleBegin, Hole;
    var x := s.group[b];
    SwapKeepsPerm(s, a, b);
    assert Placed(s, x);
    forall u | 0 <= u < |s.ws| ensures Placed(s', u) {
      if u != a && u != x {
        assert s'.pos[u] == s.pos[u];
        assert Placed(s, u);
        assert s.pos[u] != b && s.pos[u] != s.pos[a] by {
          assert s.group[s.pos[u]] == u;
        }
      }
    }
  }

  /** Nobody but w takes or gives up the lock. */
  predicate LockBy(s: State, s': State, w: nat) {
    s'.holder == s.holder || (s.holder == -1 && s'.holder == w) || (s.holder == w && s'.holder == -1)
  }

  /** Only the workers m and v change. */
  ghost predicate Frame(s: State, s': State, m: nat, v: nat) {
    && m < |s.ws| == |s'.ws| && v < |s.ws|
    && forall u {:trigger s'.ws[u]} | 0 <= u < |s.ws| && u != m && u != v :: s'.ws[u] == s.ws[u]
  }

  lemma LocalsAfter(s: State, s': State, m: nat, v: nat)
    requires Locals(s) && Frame(s, s', m, v) && LockBy(s, s', m)
    requires AtHome(s', s'.ws[m], m) && AtHome(s', s'.ws[v], v)
    ensures Locals(s')
  {
    hide Local, HoldsCore;
    forall u {:trigger s'.ws[u]} | 0 <= u < |s.ws| ensures AtHome(s', s'.ws[u], u) {
      assert AtHome(s, s.ws[u], u);
    }
  }

  /** Worker w, whom nobody has claimed, claims nobody new. */
  predicate ClaimsOn(s: State, s': State, w: nat) {
    && w < |s.ws| == |s'.ws| && !s.ws[w].es.SleepingMugging?
    && (s'.ws[w].pc.Mugging? ==> s.ws[w].pc.Mugging? && s'.ws[w].pc.v == s.ws[w].pc.v)
    && Claimed(s', w)
  }

  lemma ClaimsAfterOne(s: State, s': State, w: nat)
    requires Claims(s) && Frame(s, s', w, w) && ClaimsOn(s, s', w)
    ensures Claims(s')
  {
    forall m | 0 <= m < |s.ws| ensures Claimed(s', m) {
      assert Claimed(s, m);
    }
    forall m, k {:trigger s'.ws[m], s'.ws[k]} | 0 <= m < k < |s.ws|
      ensures s'.ws[m].pc.Mugging? && s'.ws[k].pc.Mugging? ==> s'.ws[m].pc.v != s'.ws[k].pc.v
    {
      var _ := s.ws[m];
      var _ := s.ws[k];
    }
  }

  /** The mugger m and its victim v change together; the others see nothing of it. */
  predicate ClaimsTwo(s: State, s': State, m: nat, v: nat) {
    && m < |s.ws| == |s'.ws| && v < |s.ws| && m != v
    && !s.ws[m].es.SleepingMugging?
    && (s'.ws[m].pc.Mugging? ==> s'.ws[m].pc.v == v)
    && !s.ws[v].pc.Mugging? && s'.ws[v].pc == s.ws[v].pc
    && (if s.ws[m].pc.Mugging? then s.ws[m].pc.v == v else !s.ws[v].es.SleepingMugging?)
    && Claimed(s', m)
  }

  lemma ClaimsAfterTwo(s: State, s': State, m: nat, v: nat)
    requires Claims(s) && Frame(s, s', m, v) && ClaimsTwo(s, s', m, v)
    ensures Claims(s')
  {
    forall k | 0 <= k < |s.ws| ensures Claimed(s', k) {
      assert Claimed(s, k);
      assert k != m && s.ws[k].pc.Mugging? ==> s.ws[k].pc.v != v by {
        var _ := s.ws[m];
      }
    }
    forall i, k {:trigger s'.ws[i], s'.ws[k]} | 0 <= i < k < |s.ws|
      ensures s'.ws[i].pc.Mugging? && s'.ws[k].pc.Mugging? ==> s'.ws[i].pc.v != s'.ws[k].pc.v
    {
      assert Claimed(s, i) && Claimed(s, k);
    }
  }

  // ---------------------------------------------------------------------------------------------
  // Every step keeps the invariant
  // ---------------------------------------------------------------------------------------------

  /** What worker w itself may know about the shared state. */
  predicate Sees(s: State, w: nat) {
    && w < |s.ws| == |s.pos| == |s.group| && s.pos[w] < |s.ws|
    && AtHome(s, s.ws[w], w) && Placed(s, w) && Bounds(s)
  }

  lemma InvSees(s: State, w: nat)
    requires Inv(s) && w < |s.ws|
    ensures Sees(s, w) && Claimed(s, w)
  {
    hide Local, HoldsCore, WorkEnd, IdleBegin, Hole, Zone;
    var _ := s.ws[w];
    assert Placed(s, w);
  }

  /** A change of worker w that it may make outside of the lock, where it is. */
  predicate Stays(x: Worker, x': Worker) {
    && Local(x') && x'.region == x.region && !x.es.SleepingMugging?
    && !HoldsCore(x.pc) && !HoldsCore(x'.pc)
    && (x'.pc.Mugging? ==>
          x.pc.Mugging? && x'.pc.v == x.pc.v
          && EmptiedBy(x'.pc.mug) == EmptiedBy(x.pc.mug) && MovedBy(x'.pc.mug) == MovedBy(x.pc.mug))
  }

  /** The change stays within worker w; the borders, the lock and the other workers are left alone. */
  lemma StayKeepsInv(s: State, s': State, w: nat)
    requires Inv(s) && w < |s.ws| == |s'.ws| && s' == s.(ws := s.ws[w := s'.ws[w]])
    requires Stays(s.ws[w], s'.ws[w]) || StateOnly(s.ws[w], s'.ws[w])
    ensures Inv(s')
  {
    hide Zone, Local, HoldsCore, HalfMoved;
    InvSees(s, w);
    LocalsAfter(s, s', w, w);
    ClaimsAfterOne(s, s', w);
    RegionsUnmoved(s, s');
  }

  /** Only the worker's state changes, to one that its place allows as well. */
  predicate StateOnly(x: Worker, x': Worker) {
    x' == x.(es := x'.es) && Local(x') && !x.es.SleepingMugging? && !x.pc.Mugging?
  }

  predicate Quiet(pc: Pc) {
    || pc.Entered? || pc.Parked? || pc.Woken? || pc.Left? || pc.IdleAdapt? || pc.MugSelf? || pc.MugBack?
    || pc.MugGaveUp? || pc.MugDone?
  }

  lemma NextStays(x: Worker)
    requires Local(x) && Quiet(x.pc) && (x.pc.Parked? ==> x.es.ActivateRequested?)
    ensures Stays(x, Next(x))
  {
  }

  /** The turns under the lock that move nobody: taking and giving up the lock, and moving a border. */
  predicate Turns(pc: Pc) {
    match pc
    case Moving(_, _, turn) => !turn.Exchange?
    case Mugging(_, mug) => mug.Enter? || mug.Grow? || mug.Shrink? || mug.Leave?
    case _ => false
  }

  lemma MoveTurns(s: State, w: nat)
    requires Sees(s, w) && Enabled(s, Step(w)) && Turns(s.ws[w].pc) && s.ws[w].pc.Moving?
    ensures var s' := Apply(s, Step(w));
            && Frame(s, s', w, w) && LockBy(s, s', w) && AtHome(s', s'.ws[w], w) && Bounds(s') && Unmoved(s, s')
            && ClaimsOn(s, s', w) && s'.ws[w].region == s.ws[w].region
  {
  }

  lemma MugTurns(s: State, w: nat)
    requires Sees(s, w) && Claimed(s, w) && Enabled(s, Step(w)) && Turns(s.ws[w].pc) && s.ws[w].pc.Mugging?
    ensures var s' := Apply(s, Step(w));
            && Frame(s, s', w, w) && LockBy(s, s', w) && AtHome(s', s'.ws[w], w) && Bounds(s') && Unmoved(s, s')
            && ClaimsOn(s, s', w) && s'.ws[w].region == s.ws[w].region
  {
  }

  lemma TurnKeepsInv(s: State, w: nat)
    requires Inv(s) && w < |s.ws| && Enabled(s, Step(w)) && Turns(s.ws[w].pc)
    ensures Inv(Apply(s, Step(w)))
  {
    hide Apply, Enabled, Local, HoldsCore, Unmoved, Bounds, ClaimsOn, Claimed, Sees, AtHome, Zone, Locals, Claims,
      LockBy;
    InvSees(s, w);
    var s' := Apply(s, Step(w));
    if s.ws[w].pc.Moving? { MoveTurns(s, w); } else { MugTurns(s, w); }
    LocalsAfter(s, s', w, w);
    ClaimsAfterOne(s, s', w);
    RegionsUnmoved(s, s');
  }

  /** A worker that moves exchanges places with the one at the border of its region. */
  lemma ExchangeIsMoved(s: State, w: nat)
    requires Perm(s) && Sees(s, w) && Enabled(s, Step(w)) && s.ws[w].pc.Moving? && s.ws[w].pc.turn.Exchange?
    ensures var s' := Apply(s, Step(w));
            Frame(s, s', w, w) && Moved(s, s', w, BorderOf(s, s.ws[w].pc.front))
  {
  }

  lemma ExchangeIsSeen(s: State, w: nat)
    requires Sees(s, w) && Enabled(s, Step(w)) && s.ws[w].pc.Moving? && s.ws[w].pc.turn.Exchange?
    ensures var s' := Apply(s, Step(w));
            |s'.ws| == |s.ws| && LockBy(s, s', w) && AtHome(s', s'.ws[w], w) && ClaimsOn(s, s', w)
  {
  }

  lemma ExchangeKeepsInv(s: State, w: nat)
    requires Inv(s) && w < |s.ws| && Enabled(s, Step(w)) && s.ws[w].pc.Moving? && s.ws[w].pc.turn.Exchange?
    ensures Inv(Apply(s, Step(w)))
  {
    hide Apply, Enabled, Local, HoldsCore, Moved, Bounds, ClaimsOn, Claimed, Sees, AtHome, Zone, Locals, Claims, LockBy;
    InvSees(s, w);
    var s' := Apply(s, Step(w));
    ExchangeIsMoved(s, w);
    ExchangeIsSeen(s, w);
    LocalsAfter(s, s', w, w);
    ClaimsAfterOne(s, s', w);
    RegionsAfterSwap(s, s', w, BorderOf(s, s.ws[w].pc.front));
  }

  /** The worker that has fallen into the mugged worker's place. */
  function Fallen(s: State, w: nat): nat
    requires w < |s.ws| && s.ws[w].pc.Mugging? && s.ws[w].pc.mug.Fill? && s.ws[w].pc.mug.at < |s.group|
  {
    s.group[s.ws[w].pc.mug.at]
  }

  /** It moves to the end of the front region. */
  lemma FillIsMoved(s: State, w: nat)
    requires Perm(s) && Sees(s, w) && Enabled(s, Step(w)) && s.ws[w].pc.Mugging? && s.ws[w].pc.mug.Fill?
    requires Placed(s, Fallen(s, w))
    ensures Moved(s, Apply(s, Step(w)), Fallen(s, w), s.pa)
  {
  }

  lemma FillIsSeen(s: State, w: nat)
    requires Sees(s, w) && Claimed(s, w) && Enabled(s, Step(w)) && s.ws[w].pc.Mugging? && s.ws[w].pc.mug.Fill?
    ensures var s' := Apply(s, Step(w));
            && Frame(s, s', w, w) && LockBy(s, s', w) && AtHome(s', s'.ws[w], w)
            && ClaimsOn(s, s', w) && s'.ws[w].region == s.ws[w].region
  {
  }

  lemma FillKeepsInv(s: State, w: nat)
    requires Inv(s) && w < |s.ws| && Enabled(s, Step(w)) && s.ws[w].pc.Mugging? && s.ws[w].pc.mug.Fill?
    ensures Inv(Apply(s, Step(w)))
  {
    hide Apply, Local, HoldsCore, Moved, Bounds, ClaimsOn, Claimed, Sees, AtHome, Zone, Locals, Claims, LockBy;
    InvSees(s, w);
    var s' := Apply(s, Step(w));
    assert Placed(s, Fallen(s, w));
    FillIsMoved(s, w);
    FillIsSeen(s, w);
    LocalsAfter(s, s', w, w);
    ClaimsAfterOne(s, s', w);
    RegionsAfterSwap(s, s', Fallen(s, w), s.pa);
  }

  /** A mugger that has found a victim, and the victim, see each other and the lock. */
  predicate PairSees(s: State, w: nat) {
    && w < |s.ws| && TouchesVictim(s.ws[w].pc) && Enabled(s, Step(w)) && Claimed(s, w)
    && AtHome(s, s.ws[w], w) && AtHome(s, s.ws[s.ws[w].pc.v], s.ws[w].pc.v)
    && (s.ws[w].pc.MugClaim? ==> s.ws[s.ws[w].pc.v].es.SleepingActive?)
  }

  lemma PairClaims(s: State, w: nat)
    requires PairSees(s, w)
    ensures var s', v := Apply(s, Step(w)), s.ws[w].pc.v;
            Frame(s, s', w, v) && ClaimsTwo(s, s', w, v) && s'.holder == s.holder
  {
    hide HoldsCore;
  }

  lemma PairHomes(s: State, w: nat)
    requires PairSees(s, w)
    ensures var s', v := Apply(s, Step(w)), s.ws[w].pc.v;
            && |s'.ws| == |s.ws| && s'.ws[w].region == s.ws[w].region
            && AtHome(s', s'.ws[w], w) && AtHome(s', s'.ws[v], v)
  {
    hide Core, Next, Exchanged;
  }

  /** The mugger m and the worker v it mugs change together, and nobody moves. */
  lemma PairStays(s: State, w: nat)
    requires PairSees(s, w) && Sees(s, w) && (s.ws[w].pc.Mugging? ==> !s.ws[w].pc.mug.Move?)
    ensures var s', v := Apply(s, Step(w)), s.ws[w].pc.v;
            v < |s.ws| == |s'.ws| && Bounds(s') && Unmoved(s, s') && s'.ws[v].region == s.ws[v].region
  {
    hide Claimed;
    assert HolderPc(Apply(s, Step(w))) == HolderPc(s);
  }

  lemma VictimIsMoved(s: State, w: nat)
    requires Perm(s) && Sees(s, w) && PairSees(s, w) && s.ws[w].pc.Mugging? && s.ws[w].pc.mug.Move?
    requires Placed(s, s.ws[w].pc.v)
    ensures Moved(s, Apply(s, Step(w)), s.ws[w].pc.v, s.pi)
  {
  }

  lemma PairKeepsInv(s: State, w: nat)
    requires Inv(s) && PairSees(s, w)
    ensures Inv(Apply(s, Step(w)))
  {
    hide Apply, Local, HoldsCore, Moved, Unmoved, Bounds, Claimed, Sees, AtHome, Zone, Locals, Claims, PairSees,
      ClaimsTwo;
    var v := VictimOf(s, w);
    InvSees(s, w);
    var s' := Apply(s, Step(w));
    PairClaims(s, w);
    PairHomes(s, w);
    LocalsAfter(s, s', w, v);
    ClaimsAfterTwo(s, s', w, v);
    if s.ws[w].pc.Mugging? && s.ws[w].pc.mug.Move? {
      assert Placed(s, v);
      VictimIsMoved(s, w);
      RegionsAfterSwap(s, s', v, s.pi);
    } else {
      PairStays(s, w);
      RegionsUnmoved(s, s');
    }
  }

  lemma VictimOf(s: State, w: nat) returns (v: nat)
    requires PairSees(s, w)
    ensures w < |s.ws| && (s.ws[w].pc.MugClaim? || s.ws[w].pc.Mugging?)
    ensures v == s.ws[w].pc.v < |s.ws| && Enabled(s, Step(w))
  {
    v := s.ws[w].pc.v;
  }

  lemma StepKeepsInv(s: State, w: nat)
    requires Inv(s) && w < |s.ws| && Enabled(s, Step(w))
    ensures Inv(Apply(s, Step(w)))
  {
    hide Inv, Claimed, Next, Core, VictimStep, Local, HoldsCore;
    InvSees(s, w);
    var pc := s.ws[w].pc;
    if TouchesVictim(pc) {
      InvSees(s, pc.v);
      if pc.MugClaim? && !s.ws[pc.v].es.SleepingActive? {
        LostClaimStays(s, w);
        StayKeepsInv(s, Apply(s, Step(w)), w);
      } else {
        PairKeepsInv(s, w);
      }
    } else if Turns(pc) {
      TurnKeepsInv(s, w);
    } else if pc.Moving? {
      ExchangeKeepsInv(s, w);
    } else if pc.Mugging? {
      FillKeepsInv(s, w);
    } else {
      NextStays(s.ws[w]);
      QuietIsAlone(s, w);
      StayKeepsInv(s, Apply(s, Step(w)), w);
    }
  }

  lemma LostClaimStays(s: State, w: nat)
    requires w < |s.ws| && Local(s.ws[w]) && s.ws[w].pc.MugClaim? && Enabled(s, Step(w))
    requires !s.ws[s.ws[w].pc.v].es.SleepingActive?
    ensures var s' := Apply(s, Step(w));
            |s'.ws| == |s.ws| && s' == s.(ws := s.ws[w := s'.ws[w]]) && Stays(s.ws[w], s'.ws[w])
  {
  }

  lemma QuietIsAlone(s: State, w: nat)
    requires w < |s.ws| && Enabled(s, Step(w)) && Quiet(s.ws[w].pc)
    ensures Apply(s, Step(w)) == s.(ws := s.ws[w := Next(s.ws[w])])
  {
  }

  /** The worker that an action other than Step changes. */
  function Subject(a: Action): nat {
    match a
    case Work(w, _) => w
    case Handler(w) => w
    case Park(w) => w
    case ParkIdle(w) => w
    case ParkExit(w) => w
    case Mug(w) => w
    case Step(w) => w
    case Drained(w, _) => w
    case Pick(w, _) => w
    case RequestSleep(v) => v
    case Activate(v) => v
    case CancelSleep(v) => v
  }

  lemma ChoiceStays(s: State, a: Action)
    requires Enabled(s, a) && !a.Step? && Subject(a) < |s.ws| && Local(s.ws[Subject(a)])
    ensures var s', w := Apply(s, a), Subject(a);
            && |s'.ws| == |s.ws| && s' == s.(ws := s.ws[w := s'.ws[w]])
            && (Stays(s.ws[w], s'.ws[w]) || StateOnly(s.ws[w], s'.ws[w]))
  {
  }

  lemma ActionKeepsInv(s: State, a: Action)
    requires Inv(s) && Enabled(s, a)
    ensures Inv(Apply(s, a))
  {
    hide Inv, Apply, Claimed, Local, HoldsCore, Stays, StateOnly;
    if a.Step? {
      StepKeepsInv(s, a.w);
    } else {
      InvSees(s, Subject(a));
      ChoiceStays(s, a);
      StayKeepsInv(s, Apply(s, a), Subject(a));
    }
  }
  // ---------------------------------------------------------------------------------------------
  // Runs
  // ---------------------------------------------------------------------------------------------

  datatype Trace = Trace(states: seq<State>, acts: seq<Action>)

  predicate StepOf(s: State, a: Action, s': State) {
    Enabled(s, a) && s' == Apply(s, a)
  }

  /** Any number of workers, started with any deques, taking steps in any order. */
  ghost predicate IsRun(full: seq<bool>, r: Trace) {
    && |r.states| == |r.acts| + 1
    && r.states[0] == Init(full)
    && forall i {:trigger r.acts[i]} | 0 <= i < |r.acts| :: StepOf(r.states[i], r.acts[i], r.states[i + 1])
  }

  lemma {:induction false} RunKeepsInv(full: seq<bool>, r: Trace, k: nat)
    requires IsRun(full, r) && k < |r.states|
    ensures Inv(r.states[k])
    decreases k
  {
    if k == 0 {
    } else {
      RunKeepsInv(full, r, k - 1);
      assert StepOf(r.states[k - 1], r.acts[k - 1], r.states[k]);
      ActionKeepsInv(r.states[k - 1], r.acts[k - 1]);
    }
  }

  /** The worker has entered the region of workers parked with work and not left it, as its own
      program counter and deque tell. */
  predicate ParkedWithWork(x: Worker) {
    || x.pc.Entered?
    || (x.pc.Moving? && x.pc.front && Exchanged(x.pc) == x.pc.enter)
    || ((x.pc.Parked? || x.pc.Woken?) && x.pc.front && x.full)
  }

  predicate ParkedIdle(x: Worker) {
    || (x.pc.Moving? && !x.pc.front && Exchanged(x.pc) == x.pc.enter)
    || ((x.pc.Parked? || x.pc.Woken?) && !(x.pc.front && x.full))
  }

  /** With the elastic_core lock free, the two end regions hold exactly the workers parked with
      work and the workers parked idle, except that a worker being mugged may be in either. */
  lemma RegionsHoldTheParked(full: seq<bool>, r: Trace, k: nat, w: nat)
    requires IsRun(full, r) && k < |r.states| && w < |r.states[k].ws| && r.states[k].holder == -1
    ensures var s := r.states[k];
            && |s.group| == |s.pos| == |s.ws| && s.pos[w] < |s.ws| && s.group[s.pos[w]] == w
            && -1 <= s.pa < s.pi <= |s.ws|
            && (!s.ws[w].es.SleepingMugging? ==>
                  && (s.pos[w] <= s.pa <==> ParkedWithWork(s.ws[w]))
                  && (s.pi <= s.pos[w] <==> ParkedIdle(s.ws[w])))
            && (s.ws[w].es.SleepingMugging? ==> s.pos[w] <= s.pa || s.pi <= s.pos[w])
  {
    var s := r.states[k];
    RunKeepsInv(full, r, k);
    InvSees(s, w);
  }

  /** cpu_state_group is a permutation with elastic_pos_in_cpu_state_group its inverse, lock or no lock. */
  lemma GroupIsPermutation(full: seq<bool>, r: Trace, k: nat, i: nat)
    requires IsRun(full, r) && k < |r.states| && i < |r.states[k].ws|
    ensures var s := r.states[k];
            && |s.group| == |s.pos| == |s.ws| == |full|
            && s.group[i] < |s.ws| && s.pos[i] < |s.ws|
            && s.pos[s.group[i]] == i && s.group[s.pos[i]] == i
            && -1 <= s.pa < s.pi <= |s.ws|
  {
    RunKeepsInv(full, r, k);
    SizeIsFixed(full, r, k);
  }

  lemma {:induction false} SizeIsFixed(full: seq<bool>, r: Trace, k: nat)
    requires IsRun(full, r) && k < |r.states|
    ensures |r.states[k].ws| == |full|
    decreases k
  {
    if k > 0 {
      SizeIsFixed(full, r, k - 1);
      assert StepOf(r.states[k - 1], r.acts[k - 1], r.states[k]);
    }
  }

  /** A thief draws its victim modulo ptr_sleeping_inactive_deque, without the lock: it never divides by zero. */
  lemma ThiefModulusIsPositive(full: seq<bool>, r: Trace, k: nat, w: nat)
    requires IsRun(full, r) && k < |r.states| && w < |r.states[k].ws| && r.states[k].ws[w].pc.Run?
    ensures 1 <= r.states[k].pi <= |r.states[k].group|
  {
    var s := r.states[k];
    RunKeepsInv(full, r, k);
    InvSees(s, w);
    if s.holder != -1 {
      InvSees(s, s.holder);
      assert s.group[s.pos[w]] == w && s.group[s.pos[s.holder]] == s.holder;
    }
  }

  /** What the compare-and-swap of this step expects to find in the worker's own state. */
  predicate Expected(x: Worker) {
    && (x.pc.Entered? || x.pc.IdleAdapt? || x.pc.IdleDrain? ==> x.es.SleepingAdapting?)
    && (x.pc.Woken? ==> x.es.ActivateRequested?)
    && (x.pc.Left? ==> x.es.Activating?)
    && (x.pc.MugBack? || x.pc.MugGaveUp? || x.pc.MugDone? ==> x.es.DoMugging?)
  }

  /** None of the aborts "is changed by others" or "activated without requested" can be reached:
      every compare-and-swap on the way in or out of a region finds the state it expects. */
  lemma NoStateIsChangedByOthers(full: seq<bool>, r: Trace, k: nat, w: nat)
    requires IsRun(full, r) && k < |r.states| && w < |r.states[k].ws|
    ensures var s := r.states[k];
            && Expected(s.ws[w])
            && (s.ws[w].pc.Mugging? && (s.ws[w].pc.mug.GiveUp? || s.ws[w].pc.mug.Release?) ==>
                  s.ws[w].pc.v < |s.ws| && s.ws[s.ws[w].pc.v].es.SleepingMugging?)
  {
    RunKeepsInv(full, r, k);
    InvSees(r.states[k], w);
  }

  /** A worker is mugged by one other worker at most, and meanwhile nobody can activate it. */
  lemma OneClaimPerSleeper(full: seq<bool>, r: Trace, k: nat, m: nat)
    requires IsRun(full, r) && k < |r.states| && m < |r.states[k].ws| && r.states[k].ws[m].pc.Mugging?
    ensures var s, v := r.states[k], r.states[k].ws[m].pc.v;
            && v < |s.ws| && v != m && s.ws[v].pc == Parked(true)
            && !Enabled(s, CancelSleep(v)) && !Enabled(s, Activate(v)) && !Enabled(s, Step(v))
            && forall j | 0 <= j < |s.ws| && s.ws[j].pc.Mugging? && s.ws[j].pc.v == v :: j == m
  {
    var s := r.states[k];
    RunKeepsInv(full, r, k);
    InvSees(s, m);
    forall j | 0 <= j < |s.ws| && s.ws[j].pc.Mugging? && s.ws[j].pc.v == s.ws[m].pc.v ensures j == m {
      var _ := s.ws[m];
    }
  }

  predicate ByPlatform(e: Estate, e': Estate) {
    (e.Active? && e'.SleepRequested?) || ((e.SleepingActive? || e.SleepingInactive?) && e'.ActivateRequested?)
  }

  predicate ByMugger(e: Estate, e': Estate) {
    || (e.SleepingActive? && e'.SleepingMugging?)
    || (e.SleepingMugging? && (e'.SleepingActive? || e'.SleepingInactive?))
  }

  predicate ByItself(e: Estate, e': Estate) {
    match e
    case Active => e'.DoMugging? || e'.SleepingInactive?
    case DoMugging => e'.Active?
    case SleepRequested => e'.ToSleep? || e'.SleepingAdapting? || e'.SleepingInactive?
    case ToSleep => e'.SleepingAdapting?
    case SleepingAdapting => e'.SleepingActive? || e'.SleepingInactive? || e'.SleepRequested?
    case ActivateRequested => e'.Activating?
    case Activating => e'.Active?
    case _ => false
  }

  /** Whoever takes a step, the state of a worker changes by one of the compare-and-swaps of the runtime only: those of
      the platform, those of its mugger, or its own. A worker that gives its sleep up has work. */
  lemma EveryChangeIsASwap(full: seq<bool>, r: Trace, k: nat, u: nat)
    requires IsRun(full, r) && k < |r.acts| && u < |r.states[k].ws|
    ensures |r.states[k + 1].ws| == |r.states[k].ws|
    ensures var a, x, x' := r.acts[k], r.states[k].ws[u], r.states[k + 1].ws[u];
            x'.es != x.es ==>
            && (if a.RequestSleep? || a.Activate? || a.CancelSleep? then Subject(a) == u && ByPlatform(x.es, x'.es)
                else if Subject(a) == u then ByItself(x.es, x'.es) else a.Step? && ByMugger(x.es, x'.es))
            && (x.es.SleepingAdapting? && x'.es.SleepRequested? ==> x'.full)
  {
    var s, a := r.states[k], r.acts[k];
    RunKeepsInv(full, r, k);
    assert StepOf(s, a, r.states[k + 1]);
    SubjectIsThere(s, a);
    InvSees(s, Subject(a));
    assert AtHome(s, s.ws[Subject(a)], Subject(a));
    hide Inv, Sees, Claimed, Local, Apply, Enabled, HoldsCore;
    assert SwappedIn(s, a, u) by {
      if !a.Step? {
        SwapOfChoice(s, a, u);
      } else if TouchesVictim(s.ws[a.w].pc) {
        SwapOfPair(s, a.w, u);
      } else {
        SwapOfStep(s, a.w, u);
      }
    }
  }

  lemma SubjectIsThere(s: State, a: Action)
    requires Enabled(s, a)
    ensures Subject(a) < |s.ws|
  {
  }

  predicate SwappedIn(s: State, a: Action, u: nat)
    requires Enabled(s, a) && u < |s.ws|
  {
    && |Apply(s, a).ws| == |s.ws|
    && var x, x' := s.ws[u], Apply(s, a).ws[u];
       x'.es != x.es ==>
       && (if a.RequestSleep? || a.Activate? || a.CancelSleep? then Subject(a) == u && ByPlatform(x.es, x'.es)
           else if Subject(a) == u then ByItself(x.es, x'.es) else a.Step? && ByMugger(x.es, x'.es))
       && (x.es.SleepingAdapting? && x'.es.SleepRequested? ==> x'.full)
  }

  lemma SwapOfChoice(s: State, a: Action, u: nat)
    requires Enabled(s, a) && !a.Step? && u < |s.ws| && Subject(a) < |s.ws| && Local(s.ws[Subject(a)])
    ensures SwappedIn(s, a, u)
  {
  }

  lemma SwapOfStep(s: State, w: nat, u: nat)
    requires Enabled(s, Step(w)) && u < |s.ws| && Local(s.ws[w]) && !TouchesVictim(s.ws[w].pc)
    ensures SwappedIn(s, Step(w), u)
  {
    assert Apply(s, Step(w)).ws == s.ws[w := Next(s.ws[w])];
    hide Apply, Core;
  }

  lemma SwapOfPair(s: State, w: nat, u: nat)
    requires Enabled(s, Step(w)) && u < |s.ws| && Local(s.ws[w]) && TouchesVictim(s.ws[w].pc)
    requires Claimed(s, w)
    ensures SwappedIn(s, Step(w), u)
  {
    hide Core, Next;
  }

  /** A worker that has mugged another, or given the mugging up, goes back to work: it has a deque of work. */
  lemma WorksAfterMugging(full: seq<bool>, r: Trace, k: nat, w: nat)
    requires IsRun(full, r) && k < |r.acts| && r.acts[k] == Step(w) && w < |r.states[k].ws|
    requires r.states[k].ws[w].pc.MugDone? || r.states[k].ws[w].pc.MugGaveUp?
    ensures w < |r.states[k + 1].ws| && r.states[k + 1].ws[w] == Worker(Active, Run, Middle, true)
  {
    RunKeepsInv(full, r, k);
    assert StepOf(r.states[k], r.acts[k], r.states[k + 1]);
    InvSees(r.states[k], w);
  }

  predicate GoingIdle(x: Worker) {
    x.pc.IdleDrain? || x.pc.IdleAdapt?
  }

  /** Worker w starts to park idle at step i and is still at it at step j. */
  ghost predicate GoesIdle(full: seq<bool>, r: Trace, i: nat, j: nat, w: nat) {
    && IsRun(full, r) && i < j < |r.states| && r.acts[i] == ParkIdle(w) && w < |r.states[i].ws|
    && forall k | i < k <= j :: w < |r.states[k].ws| && GoingIdle(r.states[k].ws[w])
  }

  /** What a step leaves of a worker that parks idle. */
  predicate IdleAfter(s: State, a: Action, w: nat)
    requires Enabled(s, a) && w < |s.ws|
  {
    var x, x' := s.ws[w], Apply(s, a).ws;
    w < |x'| && (GoingIdle(x'[w]) ==> x'[w] == x || (x.pc.IdleDrain? && x'[w].pc.IdleAdapt? && !x'[w].full))
  }

  lemma IdleInPair(s: State, m: nat, w: nat)
    requires Enabled(s, Step(m)) && w < |s.ws| && GoingIdle(s.ws[w]) && Local(s.ws[w]) && Claimed(s, m)
    requires TouchesVictim(s.ws[m].pc)
    ensures IdleAfter(s, Step(m), w)
  {
    hide Core, Next;
  }

  lemma IdleInStep(s: State, m: nat, w: nat)
    requires Enabled(s, Step(m)) && w < |s.ws| && GoingIdle(s.ws[w]) && !TouchesVictim(s.ws[m].pc)
    ensures IdleAfter(s, Step(m), w)
  {
    assert Apply(s, Step(m)).ws == s.ws[m := Next(s.ws[m])];
    hide Apply, Core;
  }

  lemma IdleInChoice(s: State, a: Action, w: nat)
    requires Enabled(s, a) && !a.Step? && w < |s.ws| && GoingIdle(s.ws[w]) && Local(s.ws[w])
    ensures IdleAfter(s, a, w)
  {
  }

  lemma IdleStep(s: State, a: Action, w: nat)
    requires Inv(s) && Enabled(s, a) && w < |s.ws| && GoingIdle(s.ws[w])
    ensures IdleAfter(s, a, w)
  {
    SubjectIsThere(s, a);
    InvSees(s, Subject(a));
    InvSees(s, w);
    assert AtHome(s, s.ws[w], w);
    hide Inv, Sees, Local, Core, Apply, Enabled, IdleAfter, Claimed;
    if !a.Step? {
      IdleInChoice(s, a, w);
    } else if TouchesVictim(s.ws[a.w].pc) {
      IdleInPair(s, a.w, w);
    } else {
      IdleInStep(s, a.w, w);
    }
  }

  /** A worker that goes to sleep with its frames taken gives away what is left of its deque first; one that does so in
      the runtime has nothing to give away and leaves its deque as it is. */
  lemma {:induction false} DrainsBeforeItParks(full: seq<bool>, r: Trace, i: nat, j: nat, w: nat)
    requires GoesIdle(full, r, i, j, w)
    ensures var x, x' := r.states[i].ws[w], r.states[j].ws[w];
            if x.es.ToSleep? then x'.pc.IdleAdapt? ==> !x'.full else x'.pc.IdleAdapt? && x'.full == x.full
    decreases j
  {
    RunKeepsInv(full, r, j - 1);
    assert StepOf(r.states[j - 1], r.acts[j - 1], r.states[j]);
    hide Inv, Enabled;
    if j > i + 1 {
      hide Apply;
      DrainsBeforeItParks(full, r, i, j - 1, w);
      IdleStep(r.states[j - 1], r.acts[j - 1], w);
    }
  }

  predicate InFront(s: State, v: nat) {
    v < |s.ws| && s.ws[v].region.WithWork?
  }

  lemma FrontIs(s: State, v: nat)
    requires Inv(s) && s.holder == -1 && v < |s.ws|
    ensures v < |s.pos| == |s.group| && (InFront(s, v) <==> s.pos[v] <= s.pa) && s.group[s.pos[v]] == v
    ensures s.pa >= 0 ==> s.group[0] < |s.ws| && InFront(s, s.group[0])
  {
    InvSees(s, v);
    if s.pa >= 0 {
      InvSees(s, s.group[0]);
    }
  }

  /** A mugger that draws the number d picks another worker, one that belongs to the region of those parked with work
      and stands there at place d, modulo the size of the region; it gives up exactly if nobody is parked with work. */
  lemma PicksTheDrawnOne(full: seq<bool>, r: Trace, k: nat, w: nat, d: nat)
    requires IsRun(full, r) && k < |r.acts| && r.acts[k] == Pick(w, d)
    ensures var s, s' := r.states[k], r.states[k + 1];
            && w < |s.ws| == |s'.ws| == |s.pos| && s' == s.(ws := s.ws[w := s.ws[w].(pc := s'.ws[w].pc)])
            && (if exists v :: InFront(s, v)
                then s'.ws[w].pc.MugSelf? && InFront(s, s'.ws[w].pc.v) && s'.ws[w].pc.v != w
                     && s.pa >= 0 && s.pos[s'.ws[w].pc.v] == d % (s.pa + 1)
                else s'.ws[w].pc.Run?)
  {
    var s := r.states[k];
    RunKeepsInv(full, r, k);
    assert StepOf(s, r.acts[k], r.states[k + 1]);
    FrontIs(s, w);
    InvSees(s, w);
    if v :| InFront(s, v) {
      FrontIs(s, v);
      StandsAt(s, d % (s.pa + 1));
    }
    hide Inv, Sees;
  }

  lemma StandsAt(s: State, i: nat)
    requires Inv(s) && s.holder == -1 && i <= s.pa
    ensures i < |s.group| == |s.pos| && s.group[i] < |s.pos| && s.pos[s.group[i]] == i && InFront(s, s.group[i])
  {
    assert s.pos[s.group[i]] == i;
    FrontIs(s, s.group[i]);
  }

  lemma DrawnAt(s: State, w: nat, v: nat, d: nat)
    requires Enabled(s, Pick(w, 0)) && d <= s.pa && s.group[d] == v && v != w
    ensures Enabled(s, Pick(w, d)) && Apply(s, Pick(w, d)).ws[w].pc == MugSelf(v)
  {
    assert d % (s.pa + 1) == d;
  }

  /** Every worker parked with work is picked for some draw. */
  lemma EverySleeperIsDrawn(full: seq<bool>, r: Trace, k: nat, w: nat, v: nat)
    requires IsRun(full, r) && k < |r.states| && Enabled(r.states[k], Pick(w, 0)) && InFront(r.states[k], v)
    ensures exists d: nat :: Enabled(r.states[k], Pick(w, d)) && Apply(r.states[k], Pick(w, d)).ws[w].pc == MugSelf(v)
  {
    var s := r.states[k];
    RunKeepsInv(full, r, k);
    FrontIs(s, w);
    FrontIs(s, v);
    InvSees(s, w);
    hide Inv, Apply, Sees;
    DrawnAt(s, w, v, s.pos[v]);
  }

  /** The step in which a mugger exchanges its deque for that of v. */
  predicate TakesDeque(s: State, a: Action, v: nat) {
    a.Step? && a.w < |s.ws| && s.ws[a.w].pc.Mugging? && s.ws[a.w].pc.mug.Deques? && s.ws[a.w].pc.v == v
  }

  /** Mugging moves one full deque: the mugger had none, the mugged worker has none afterwards,
      and no other worker notices. */
  lemma MuggingMovesTheDeque(full: seq<bool>, r: Trace, k: nat, v: nat)
    requires IsRun(full, r) && k < |r.acts| && TakesDeque(r.states[k], r.acts[k], v)
    ensures var s, s', m := r.states[k], r.states[k + 1], r.acts[k].w;
            && v < |s.ws| == |s'.ws| && m != v
            && !s.ws[m].full && s.ws[v].full && s'.ws[m].full && !s'.ws[v].full
            && forall u | 0 <= u < |s.ws| && u != m && u != v :: s'.ws[u] == s.ws[u]
  {
    RunKeepsInv(full, r, k);
    assert StepOf(r.states[k], r.acts[k], r.states[k + 1]);
    InvSees(r.states[k], r.acts[k].w);
  }

  predicate Asleep(x: Worker) {
    (x.pc.Parked? || x.pc.Woken?) && x.pc.front
  }

  lemma SleeperKeepsDeque(s: State, a: Action, w: nat)
    requires Enabled(s, a) && w < |s.ws| && Asleep(s.ws[w]) && !TakesDeque(s, a, w)
    ensures |Apply(s, a).ws| == |s.ws| && (Asleep(Apply(s, a).ws[w]) ==> Apply(s, a).ws[w].full == s.ws[w].full)
  {
  }

  lemma SleeperStep(full: seq<bool>, r: Trace, k: nat, w: nat)
    requires IsRun(full, r) && k < |r.acts| && w < |r.states[k].ws| && Asleep(r.states[k].ws[w])
    ensures |r.states[k + 1].ws| == |r.states[k].ws|
    ensures Asleep(r.states[k + 1].ws[w]) ==>
              r.states[k + 1].ws[w].full == (r.states[k].ws[w].full && !MuggedAt(r, w, k))
  {
    assert StepOf(r.states[k], r.acts[k], r.states[k + 1]);
    if TakesDeque(r.states[k], r.acts[k], w) {
      MuggingMovesTheDeque(full, r, k, w);
    } else {
      SleeperKeepsDeque(r.states[k], r.acts[k], w);
    }
  }

  lemma ParksFull(full: seq<bool>, r: Trace, i: nat, w: nat)
    requires IsRun(full, r) && i < |r.acts| && w < |r.states[i].ws|
    requires r.states[i].ws[w].pc.Entered? && r.acts[i] == Step(w)
    ensures |r.states[i + 1].ws| == |r.states[i].ws| && r.states[i + 1].ws[w].full
  {
    assert StepOf(r.states[i], r.acts[i], r.states[i + 1]);
    RunKeepsInv(full, r, i);
    InvSees(r.states[i], w);
  }

  /** Worker w parks with work at step i and is still there, or just woken, at step j. */
  ghost predicate SleepsFrom(full: seq<bool>, r: Trace, i: nat, j: nat, w: nat) {
    && IsRun(full, r) && i < j < |r.states|
    && w < |r.states[i].ws| && r.states[i].ws[w].pc.Entered? && r.acts[i] == Step(w)
    && forall k | i < k <= j :: w < |r.states[k].ws| && Asleep(r.states[k].ws[w])
  }

  /** Somebody mugs w at step k. */
  predicate MuggedAt(r: Trace, w: nat, k: nat) {
    k < |r.acts| && k < |r.states| && TakesDeque(r.states[k], r.acts[k], w)
  }

  /** A worker that has parked with work keeps its deque until it comes back, or until a mugger takes it. */
  lemma {:induction false} FullUnlessMugged(full: seq<bool>, r: Trace, i: nat, j: nat, w: nat)
    requires SleepsFrom(full, r, i, j, w)
    ensures r.states[j].ws[w].full <==> forall k | i < k < j :: !MuggedAt(r, w, k)
    decreases j
  {
    hide MuggedAt, Asleep;
    if i + 1 == j {
      ParksFull(full, r, i, w);
    } else {
      FullUnlessMugged(full, r, i, j - 1, w);
      SleeperStep(full, r, j - 1, w);
      assert (forall k | i < k < j :: !MuggedAt(r, w, k))
        <==> (forall k | i < k < j - 1 :: !MuggedAt(r, w, k)) && !MuggedAt(r, w, j - 1);
    }
  }

  lemma WokenStep(full: seq<bool>, r: Trace, j: nat, w: nat)
    requires IsRun(full, r) && j < |r.acts| && w < |r.states[j].ws|
    requires r.states[j].ws[w].pc == Woken(true) && r.acts[j] == Step(w)
    ensures w < |r.states[j + 1].ws| && w < |r.states[j].pos|
    ensures r.states[j + 1].ws[w].pc == Moving(r.states[j].ws[w].full, false, Lock)
    ensures r.states[j].holder == -1 ==>
              var p := r.states[j].pos;
              if r.states[j].ws[w].full then p[w] <= r.states[j].pa else r.states[j].pi <= p[w]
  {
    assert StepOf(r.states[j], r.acts[j], r.states[j + 1]);
    RunKeepsInv(full, r, j);
    InvSees(r.states[j], w);
  }

  /** A worker woken after parking with work takes the branch for the region it is really in: it
      finds its deque non-empty and leaves the front region if nobody mugged it, and finds the
      deque empty and leaves the idle region if somebody did. */
  lemma WokenWorkerLeavesItsRegion(full: seq<bool>, r: Trace, i: nat, j: nat, w: nat)
    requires SleepsFrom(full, r, i, j, w) && j < |r.acts|
    requires r.states[j].ws[w].pc == Woken(true) && r.acts[j] == Step(w)
    ensures var mugged := exists k: nat | i < k < j :: MuggedAt(r, w, k);
            && w < |r.states[j + 1].ws|
            && r.states[j + 1].ws[w].pc == Moving(!mugged, false, Lock)
            && (r.states[j].holder == -1 ==>
                  var p := r.states[j].pos;
                  w < |p| && if mugged then r.states[j].pi <= p[w] else p[w] <= r.states[j].pa)
  {
    FullUnlessMugged(full, r, i, j, w);
    WokenStep(full, r, j, w);
  }
}
