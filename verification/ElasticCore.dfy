/** The elastic core as the program keeps it, in arrays and worker records. */
module ElasticCore {
  // Two arrays and two pointers are changed in place under the elastic_core lock; a mugger exchanges the deques of two
  // worker records. Each critical section is proved to do what the corresponding steps of `Elastic` say.

  import opened Elastic

  class Core {
    const group: array<nat>    // cpu_state_group
    const pos: array<nat>      // elastic_pos_in_cpu_state_group of each worker
    var pa: int                // ptr_sleeping_active_deque
    var pi: int                // ptr_sleeping_inactive_deque

    /** The arrays and pointers are those of the modelled state. */
    ghost predicate Shows(s: State)
      reads this, group, pos
    {
      group != pos && group[..] == s.group && pos[..] == s.pos && pa == s.pa && pi == s.pi
    }

    constructor (nproc: nat)
      ensures forall full: seq<bool> | |full| == nproc :: Shows(Init(full))
      ensures fresh(group) && fresh(pos)
    {
      group := new nat[nproc];
      pos := new nat[nproc];
      pa, pi := -1, nproc;
      new;
      for i := 0 to nproc
        invariant forall j | 0 <= j < i :: group[j] == j && pos[j] == j
        invariant fresh(group) && fresh(pos) && group != pos && pa == -1 && pi == nproc
      {
        group[i], pos[i] := i, i;
      }
      assert group[..] == seq(nproc, i requires 0 <= i < nproc => i);
    }

    /** elastic_do_exchange_state_group of worker a and the worker x. */
    method Exchange(a: nat, x: nat, ghost s: State, ghost b: int)
      requires group != pos && group[..] == s.group && pos[..] == s.pos
      requires CanSwap(s, a, b) && s.group[b] == x
      modifies group, pos
      ensures group[..] == Swap(s, a, b).group && pos[..] == Swap(s, a, b).pos
    {
      group[pos[a]] := x;
      group[pos[x]] := a;
      var tmp := pos[a];
      pos[a] := pos[x];
      pos[x] := tmp;
    }

    method EnterFront(w: nat, ghost s: State)
      requires Shows(s) && TwoSteps(s, w) && s.ws[w].pc == Moving(true, true, Border)
      modifies this, group, pos
      ensures Shows(Twice(s, w))
    {
      pa := pa + 1;
      Exchange(w, group[pa], s, s.pa + 1);
    }

    method LeaveFront(w: nat, ghost s: State)
      requires Shows(s) && TwoSteps(s, w) && s.ws[w].pc == Moving(true, false, Turn.Exchange)
      modifies this, group, pos
      ensures Shows(Twice(s, w))
    {
      Exchange(w, group[pa], s, s.pa);
      pa := pa - 1;
    }

    method EnterIdle(w: nat, ghost s: State)
      requires Shows(s) && TwoSteps(s, w) && s.ws[w].pc == Moving(false, true, Border)
      modifies this, group, pos
      ensures Shows(Twice(s, w))
    {
      pi := pi - 1;
      Exchange(w, group[pi], s, s.pi - 1);
    }

    method LeaveIdle(w: nat, ghost s: State)
      requires Shows(s) && TwoSteps(s, w) && s.ws[w].pc == Moving(false, false, Turn.Exchange)
      modifies this, group, pos
      ensures Shows(Twice(s, w))
    {
      Exchange(w, group[pi], s, s.pi);
      pi := pi + 1;
    }

    /** The critical section of a mugger: the victim goes to the idle region, and whoever fell into
        its old place goes to the end of the front region, which then shrinks. */
    method MoveMugged(w: nat, v: nat, ghost s: State)
      requires Shows(s) && TwoSteps(s, w) && TwoSteps(Twice(s, w), w) && s.ws[w].pc == Pc.Mugging(v, Grow) && w != v
      modifies this, group, pos
      ensures Shows(Twice(Twice(s, w), w))
    {
      hide Twice, Enabled, Apply;
      VictimMoves(s, w, v);
      HoleCloses(Twice(s, w), w, v, s.pos[v]);
      pi := pi - 1;
      var at := pos[v];
      Exchange(v, group[pi], s, s.pi - 1);
      Exchange(group[at], group[pa], Twice(s, w), s.pa);
      pa := pa - 1;
    }
  }

  predicate TwoSteps(s: State, w: nat) {
    Enabled(s, Step(w)) && Enabled(Apply(s, Step(w)), Step(w))
  }

  /** The state after two steps of w. */
  function Twice(s: State, w: nat): State
    requires TwoSteps(s, w)
  {
    Apply(Apply(s, Step(w)), Step(w))
  }

  lemma TwiceKeepsInv(s: State, w: nat)
    requires Inv(s) && TwoSteps(s, w)
    ensures w < |s.ws| && Inv(Twice(s, w))
  {
    hide Inv, Apply;
    StepKeepsInv(s, w);
    StepKeepsInv(Apply(s, Step(w)), w);
  }

  /** The workers in front of the border, and behind it. */
  ghost function Front(s: State): set<nat> {
    set u: nat | u < |s.pos| && s.pos[u] <= s.pa
  }

  ghost function Rear(s: State): set<nat> {
    set u: nat | u < |s.pos| && s.pi <= s.pos[u]
  }

  ghost function In(s: State, region: Region): set<nat> {
    set u: nat | u < |s.ws| && s.ws[u].region == region
  }

  /** The holder of the lock, if any, is between two moves. */
  predicate Settled(s: State) {
    WorkEnd(s) == s.pa && IdleBegin(s) == s.pi && Hole(s) == -1
  }

  lemma RegionsAre(s: State)
    requires Inv(s) && Settled(s)
    ensures Front(s) == In(s, WithWork) && Rear(s) == In(s, Idle)
  {
    hide Local, HoldsCore;
    forall u: nat | u < |s.ws|
      ensures (u in Front(s) <==> u in In(s, WithWork)) && (u in Rear(s) <==> u in In(s, Idle))
    {
      InvSees(s, u);
    }
    assert |s.pos| == |s.ws|;
  }

  lemma InTheLock(s: State, w: nat)
    requires Inv(s) && w < |s.ws| && s.ws[w].pc.Moving? && !s.ws[w].pc.turn.Lock?
    requires s.ws[w].pc.turn == if s.ws[w].pc.enter then Border else Turn.Exchange
    ensures Settled(s) && TwoSteps(s, w) && |Twice(s, w).ws| == |s.ws| && Settled(Twice(s, w))
    ensures Twice(s, w).ws == s.ws[w := Twice(s, w).ws[w]]
    ensures Twice(s, w).ws[w].region == if s.ws[w].pc.enter then End(s.ws[w].pc.front) else Middle
    ensures s.ws[w].region == if s.ws[w].pc.enter then Middle else End(s.ws[w].pc.front)
  {
    InvSees(s, w);
  }

  /** cpu_state_group, its inverse and the two pointers are those of t. */
  predicate SameCore(s: State, t: State) {
    s.group == t.group && s.pos == t.pos && s.pa == t.pa && s.pi == t.pi
  }

  /** The first two steps of a mugger in the lock. */
  lemma VictimMoves(s: State, w: nat, v: nat)
    requires TwoSteps(s, w) && s.ws[w].pc == Pc.Mugging(v, Grow) && w != v
    ensures CanSwap(s, v, s.pi - 1) && SameCore(Twice(s, w), Swap(s, v, s.pi - 1).(pi := s.pi - 1))
    ensures |Twice(s, w).ws| == |s.ws| && Twice(s, w).ws[w].pc == Pc.Mugging(v, Fill(s.pos[v]))
  {
  }

  /** The other two. */
  lemma HoleCloses(s: State, w: nat, v: nat, at: nat)
    requires TwoSteps(s, w) && s.ws[w].pc == Pc.Mugging(v, Fill(at))
    ensures at < |s.group| && CanSwap(s, s.group[at], s.pa)
    ensures SameCore(Twice(s, w), Swap(s, s.group[at], s.pa).(pa := s.pa - 1))
    ensures |Twice(s, w).ws| == |s.ws| && Twice(s, w).ws == s.ws[w := Twice(s, w).ws[w]]
    ensures Twice(s, w).ws[w].pc == Pc.Mugging(v, Leave) && Twice(s, w).ws[w].region == s.ws[w].region
  {
  }

  /** A worker that crosses a border under the lock changes one region by itself, and the other region not at all. */
  lemma CrossingMoves(s: State, w: nat)
    requires Inv(s) && w < |s.ws| && s.ws[w].pc.Moving? && !s.ws[w].pc.turn.Lock?
    requires s.ws[w].pc.turn == if s.ws[w].pc.enter then Border else Turn.Exchange
    ensures TwoSteps(s, w)
    ensures var t, pc := Twice(s, w), s.ws[w].pc;
            && Front(t) == (if !pc.front then Front(s) else if pc.enter then Front(s) + {w} else Front(s) - {w})
            && Rear(t) == (if pc.front then Rear(s) else if pc.enter then Rear(s) + {w} else Rear(s) - {w})
  {
    hide Front, Rear, Inv, Apply, Enabled, Settled;
    InTheLock(s, w);
    TwiceKeepsInv(s, w);
    RegionsAre(s);
    RegionsAre(Twice(s, w));
  }

  /** A mugger's critical section can always go on; it moves its victim from the front region to the rear, and nobody
      else from one region to another. */
  lemma MuggingMoves(s: State, w: nat, v: nat)
    requires Inv(s) && w < |s.ws| && s.ws[w].pc == Pc.Mugging(v, Grow)
    ensures TwoSteps(s, w) && TwoSteps(Twice(s, w), w)
    ensures var t := Twice(Twice(s, w), w);
            v in Front(s) && Front(t) == Front(s) - {v} && Rear(t) == Rear(s) + {v}
  {
    hide Front, Rear, Inv, Apply, Enabled, Settled;
    ClaimInLock(s, w, v);
    VictimLeaves(s, w, v);
    TwiceKeepsInv(s, w);
    var h := Twice(s, w);
    VictimMoves(s, w, v);
    HoleInLock(h, w);
    HoleCanClose(h, w);
    TwiceKeepsInv(h, w);
    HoleCloses(h, w, v, s.pos[v]);
    RegionsAre(s);
    RegionsAre(Twice(h, w));
  }

  lemma ClaimInLock(s: State, w: nat, v: nat)
    requires Inv(s) && w < |s.ws| && s.ws[w].pc == Pc.Mugging(v, Grow)
    ensures Settled(s) && v < |s.ws| && v != w && s.ws[v].region.WithWork? && s.ws[w].region.Middle?
    ensures CanSwap(s, v, s.pi - 1)
  {
    InvSees(s, w);
    InvSees(s, v);
    SwapKeepsPerm(s, v, s.pi - 1);
  }

  lemma VictimLeaves(s: State, w: nat, v: nat)
    requires w < |s.ws| && v < |s.ws| && v != w && s.ws[w].pc == Pc.Mugging(v, Grow) && s.ws[w].region.Middle?
    requires CanSwap(s, v, s.pi - 1)
    ensures TwoSteps(s, w)
    ensures var t := Twice(s, w); t.ws == s.ws[v := s.ws[v].(region := Idle)][w := t.ws[w]] && t.ws[w].region.Middle?
  {
  }

  lemma HoleInLock(s: State, w: nat)
    requires Inv(s) && w < |s.ws| && s.ws[w].pc.Mugging? && s.ws[w].pc.mug.Fill?
    ensures s.holder == w && s.ws[w].pc.mug.at < |s.group| && CanSwap(s, Fallen(s, w), s.pa) && s.ws[w].pc.v < |s.ws|
  {
    InvSees(s, w);
    SwapKeepsPerm(s, Fallen(s, w), s.pa);
  }

  lemma HoleCanClose(s: State, w: nat)
    requires w < |s.ws| && s.ws[w].pc.Mugging? && s.ws[w].pc.mug.Fill? && s.ws[w].pc.v < |s.ws|
    requires s.holder == w && s.ws[w].pc.mug.at < |s.group| && CanSwap(s, Fallen(s, w), s.pa)
    ensures TwoSteps(s, w) && Settled(Twice(s, w))
  {
  }

  class Frame {
    var worker: nat
  }

  /** The part of a worker that mugging exchanges, and the deque limit, which it does not. */
  class WorkerRecord {
    const self: nat
    var tail: int
    var head: int
    var exc: int
    var ltqLimit: int
    var shadowStack: int
    var provablyGoodSteal: bool
    var currentFrame: Frame

    constructor (self: nat, frame: Frame)
      ensures this.self == self && currentFrame == frame
    {
      this.self := self;
      tail, head, exc, ltqLimit, shadowStack, provablyGoodSteal := 0, 0, 0, 0, 0, false;
      currentFrame := frame;
    }
  }

  /** elastic_mugging: the mugger and its victim exchange deques, and each frame that changes hands
      names its new worker.  The deque limits stay where they are. */
  method Mugging(w: WorkerRecord, victim: WorkerRecord, deques: array<int>)
    requires w != victim && w.self != victim.self
    requires w.self < deques.Length && victim.self < deques.Length
    requires w.currentFrame != victim.currentFrame
    modifies w, victim, deques, w.currentFrame, victim.currentFrame
    ensures deques[..] == old(deques[..])[w.self := old(deques[victim.self])][victim.self := old(deques[w.self])]
    ensures w.tail == old(victim.tail) && w.head == old(victim.head) && w.exc == old(victim.exc)
    ensures victim.tail == old(w.tail) && victim.head == old(w.head) && victim.exc == old(w.exc)
    ensures w.shadowStack == old(victim.shadowStack) && victim.shadowStack == old(w.shadowStack)
    ensures w.provablyGoodSteal == old(victim.provablyGoodSteal) && victim.provablyGoodSteal == old(w.provablyGoodSteal)
    ensures w.currentFrame == old(victim.currentFrame) && victim.currentFrame == old(w.currentFrame)
    ensures w.currentFrame.worker == w.self && victim.currentFrame.worker == victim.self
    ensures w.ltqLimit == old(w.ltqLimit) && victim.ltqLimit == old(victim.ltqLimit)
  {
    deques[w.self], deques[victim.self] := deques[victim.self], deques[w.self];
    w.tail, victim.tail := victim.tail, w.tail;
    w.head, victim.head := victim.head, w.head;
    w.exc, victim.exc := victim.exc, w.exc;
    w.shadowStack, victim.shadowStack := victim.shadowStack, w.shadowStack;
    w.provablyGoodSteal, victim.provablyGoodSteal := victim.provablyGoodSteal, w.provablyGoodSteal;
    w.currentFrame, victim.currentFrame := victim.currentFrame, w.currentFrame;
    w.currentFrame.worker := w.self;
    victim.currentFrame.worker := victim.self;
  }
}
