/** The tree of full frames, or closures. */
module ClosureTree {
  // How steals, syncs and returns hand fibers around and count children. Every step below is one critical section of
  // the scheduler: it runs under the deque lock and the lock of the closures it changes. User code is free: a running
  // closure may be stolen from, may sync and may return whenever the scheduler allows it.

  import opened Commons

  type Cid = nat    // a closure; no two closures ever get the same one
  type Fid = nat    // one allocation of a fiber

  /** A closure, or full frame. */
  datatype FullFrame = FullFrame(
    status: Status,
    fiber: Option<Fid>,
    fiberChild: Option<Fid>,
    children: seq<Cid>,           // left to right, as the sibling links give them
    joinCounter: int,             // join_counter, which the scheduler looks at instead of the list
    callee: Option<Cid>,          // what has_cilk_callee stands for
    callParent: Option<Cid>,
    spawnParent: Option<Cid>,
    unsynced: bool,               // its frame has been stolen since its last sync
    base: Fid,                    // the fiber the closure was created on
    at: nat)                      // the worker that holds it, unless it is suspended

  datatype Mode =
    | Sched                               // looking for work
    | Hand(t: Cid)                        // in the scheduler, about to deal with t
    | User(t: Cid)                        // running t
    | Leaving(next: Option<Cid>)          // on the way from user code to the scheduler

  datatype Worker = Worker(mode: Mode, toFree: Option<Fid>)

  /** Where a fiber that is not in a pool is. */
  datatype Place = On(t: Cid) | Kept(t: Cid) | Hanging(w: nat)

  datatype State = State(
    cs: map<Cid, FullFrame>, ws: seq<Worker>,
    places: map<Fid, Place>, freed: seq<Fid>, nextC: Cid, nextF: Fid)

  datatype Action =
    | StealSame(thief: nat, victim: nat)  // the oldest stacklet is the victim's closure itself
    | StealNew(thief: nat, victim: nat)   // it needs closures of its own
    | Link(thief: nat)                    // one frame in the middle of the stacklet becomes a closure
    | Finish(thief: nat)
    | Execute(w: nat)
    | Sync(w: nat)
    | Return(w: nat)                      // a spawned closure is done
    | Leave(w: nat)
    | ChildReturn(w: nat)
    | SetReturn(w: nat)                   // a called closure is done

  /** One worker is about to run the root closure. */
  function Init(n: nat): State
    requires n > 0
  {
    var root := FullFrame(Ready, Some(0), None, [], 0, None, None, None, false, 0, 0);
    State(map[0 := root], seq(n, i => Worker(if i == 0 then Hand(0) else Sched, None)), map[0 := On(0)], [], 1, 1)
  }

  // ---------------------------------------------------------------------------------------------
  // Steps
  // ---------------------------------------------------------------------------------------------

  predicate Runs(s: State, w: nat) {
    w < |s.ws| && s.ws[w].mode.User? && s.ws[w].mode.t in s.cs && s.cs[s.ws[w].mode.t].fiber.Some?
  }

  predicate Has(s: State, w: nat, status: Status) {
    w < |s.ws| && s.ws[w].mode.Hand? && s.ws[w].mode.t in s.cs && s.cs[s.ws[w].mode.t].status == status
  }

  predicate ParentOf(s: State, p: Option<Cid>) {
    p.Some? && p.value in s.cs
  }

  predicate Enabled(s: State, a: Action) {
    match a
    case StealSame(thief, victim) =>
      thief < |s.ws| && s.ws[thief] == Worker(Sched, None) && Runs(s, victim)
    case StealNew(thief, victim) =>
      thief < |s.ws| && s.ws[thief] == Worker(Sched, None) && Runs(s, victim)
    case Link(w) => Has(s, w, Forming) && ParentOf(s, s.cs[s.ws[w].mode.t].callParent)
                    && s.cs[s.cs[s.ws[w].mode.t].callParent.value].fiber.Some?
    case Finish(w) => Has(s, w, Forming)
    case Execute(w) => Has(s, w, Ready)
    case Sync(w) => Runs(s, w) && s.cs[s.ws[w].mode.t].unsynced
    case Return(w) => Runs(s, w) && !s.cs[s.ws[w].mode.t].unsynced && s.cs[s.ws[w].mode.t].spawnParent.Some?
    case Leave(w) => w < |s.ws| && s.ws[w].mode.Leaving?
    case ChildReturn(w) =>
      && Has(s, w, Returning)
      && var c := s.cs[s.ws[w].mode.t];
         && c.fiber.Some? && ParentOf(s, c.spawnParent)
         && s.ws[w].mode.t in s.cs[c.spawnParent.value].children
         && !s.cs[c.spawnParent.value].status.Forming?
    case SetReturn(w) =>
      && Runs(s, w) && !s.cs[s.ws[w].mode.t].unsynced && ParentOf(s, s.cs[s.ws[w].mode.t].callParent)
  }

  function SetMode(ws: seq<Worker>, w: nat, mode: Mode): seq<Worker>
    requires w < |ws|
  {
    ws[w := ws[w].(mode := mode)]
  }

  function Spawned(parent: Cid, fiber: Fid, at: nat): FullFrame {
    FullFrame(Running, Some(fiber), None, [], 0, None, None, Some(parent), false, fiber, at)
  }

  function Listed(o: Option<Fid>): seq<Fid> {
    if o.Some? then [o.value] else []
  }

  function Without<T>(m: map<Fid, T>, o: Option<Fid>): map<Fid, T> {
    if o.Some? then m - {o.value} else m
  }

  function Place1(m: map<Fid, Place>, o: Option<Fid>, p: Place): map<Fid, Place> {
    if o.Some? then m[o.value := p] else m
  }

  function Remove(s: seq<Cid>, c: Cid): (r: seq<Cid>) {
    if s == [] then [] else if s[0] == c then s[1..] else [s[0]] + Remove(s[1..], c)
  }

  /** Closure_return up to the provably good steal: the leftmost child hands its fiber up, any other frees it. */
  function Joined(p: FullFrame, c: Cid, fiber: Option<Fid>): FullFrame
    requires p.children != []
  {
    p.(children := Remove(p.children, c), joinCounter := p.joinCounter - 1,
       fiberChild := if Passes(p, c) then fiber else p.fiberChild)
  }

  predicate Passes(p: FullFrame, c: Cid)
    requires p.children != []
  {
    p.children[0] == c && p.fiberChild.None?
  }

  /** setup_for_sync: back to the fiber the leftmost child left. */
  function Synced(p: FullFrame): FullFrame {
    p.(fiber := p.fiberChild, fiberChild := None, unsynced := false)
  }

  /** Closure_has_children: the counter and the callee tell. */
  predicate HasChildren(x: FullFrame) {
    x.callee.Some? || x.joinCounter != 0
  }

  predicate Resumes(p: FullFrame) {
    !HasChildren(p) && p.status.Suspended?
  }

  function Apply(s: State, a: Action): State
    requires Enabled(s, a)
  {
    match a
    case StealSame(thief, victim) =>
      var t := s.ws[victim].mode.t;
      var x, f, n, c := s.cs[t], s.cs[t].fiber.value, s.nextF, s.nextC;
      s.(cs := s.cs[t := x.(status := Ready, fiber := Some(n), unsynced := true, at := thief,
                            children := x.children + [c], joinCounter := x.joinCounter + 1)]
                   [c := Spawned(t, f, victim)],
         ws := SetMode(SetMode(s.ws, victim, User(c)), thief, Hand(t)),
         places := s.places[f := On(c)][n := On(t)], nextC := c + 1, nextF := n + 1)
    case StealNew(thief, victim) =>
      var t := s.ws[victim].mode.t;
      var x, f, n, y, c := s.cs[t], s.cs[t].fiber.value, s.nextF, s.nextC, s.nextC + 1;
      s.(cs := s.cs[t := x.(status := Suspended, callee := Some(y))]
                   [y := FullFrame(Forming, Some(n), None, [c], 1, None, Some(t), None, true, f, thief)]
                   [c := Spawned(y, f, victim)],
         ws := SetMode(SetMode(s.ws, victim, User(c)), thief, Hand(y)),
         places := s.places[f := On(c)][n := On(y)], nextC := c + 1, nextF := n + 1)
    case Link(w) =>
      var y := s.ws[w].mode.t;
      var p, k := s.cs[y].callParent.value, s.nextC;
      var f := s.cs[p].fiber.value;
      s.(cs := s.cs[p := s.cs[p].(callee := Some(k))]
                   [y := s.cs[y].(callParent := Some(k))]
                   [k := FullFrame(Suspended, Some(f), None, [], 0, Some(y), Some(p), None, false, f, w)],
         nextC := k + 1)
    case Finish(w) =>
      var t := s.ws[w].mode.t;
      s.(cs := s.cs[t := s.cs[t].(status := Ready)])
    case Execute(w) =>
      var t := s.ws[w].mode.t;
      s.(cs := s.cs[t := s.cs[t].(status := Running)], ws := SetMode(s.ws, w, User(t)))
    case Sync(w) =>
      var t, hung := s.ws[w].mode.t, s.ws[w].toFree;
      var x := s.cs[t];
      var left := Without(s.places, hung)[x.fiber.value := Hanging(w)];
      if HasChildren(x) then
        s.(cs := s.cs[t := x.(fiber := None, status := Suspended)],
           ws := s.ws[w := Worker(Leaving(None), x.fiber)], places := left, freed := s.freed + Listed(hung))
      else
        s.(cs := s.cs[t := Synced(x)],
           ws := s.ws[w := Worker(User(t), x.fiber)], places := Place1(left, x.fiberChild, On(t)),
           freed := s.freed + Listed(hung))
    case Return(w) =>
      var t := s.ws[w].mode.t;
      s.(cs := s.cs[t := s.cs[t].(status := Returning)], ws := SetMode(s.ws, w, Leaving(Some(t))))
    case Leave(w) =>
      var x := s.ws[w];
      s.(ws := s.ws[w := Worker(if x.mode.next.Some? then Hand(x.mode.next.value) else Sched, None)],
         places := Without(s.places, x.toFree), freed := s.freed + Listed(x.toFree))
    case ChildReturn(w) =>
      var c := s.ws[w].mode.t;
      var f, p := s.cs[c].fiber, s.cs[c].spawnParent.value;
      var x := Joined(s.cs[p], c, f);
      var passes := Passes(s.cs[p], c);
      var places := if passes then Place1(s.places, f, Kept(p)) else Without(s.places, f);
      var freed := if passes then s.freed else s.freed + Listed(f);
      if Resumes(x) then
        s.(cs := (s.cs - {c})[p := Synced(x).(status := Ready, at := w)],
           ws := s.ws[w := Worker(Hand(p), x.fiber)],
           places := Place1(places, x.fiberChild, On(p)), freed := freed)
      else
        s.(cs := (s.cs - {c})[p := x], ws := SetMode(s.ws, w, Sched), places := places, freed := freed)
    case SetReturn(w) =>
      var t := s.ws[w].mode.t;
      var p := s.cs[t].callParent.value;
      s.(cs := (s.cs - {t})[p := s.cs[p].(callee := None, status := Running, at := w)],
         ws := SetMode(s.ws, w, User(p)), places := Place1(s.places, s.cs[t].fiber, On(p)))
  }

  // ---------------------------------------------------------------------------------------------
  // Invariant
  // ---------------------------------------------------------------------------------------------

  ghost predicate Distinct(s: seq<nat>) {
    forall i, j | 0 <= i < j < |s| :: s[i] != s[j]
  }

  /** What a closure says about itself. */
  ghost predicate Shape(t: Cid, x: FullFrame) {
    && Distinct(x.children) && x.joinCounter == |x.children|
    && (!x.unsynced ==> x.children == [] && x.fiberChild.None? && x.fiber == Some(x.base))
    && (x.fiberChild.Some? ==> x.fiberChild == Some(x.base))
    && (x.unsynced && x.fiberChild.None? ==> x.children != [])
    && (x.callee.Some? ==> x.status.Suspended? && x.fiber.Some? && x.callee != Some(t))
    && (x.status.Suspended? && x.callee.None? ==> x.unsynced && x.fiber.None? && x.children != [])
    && (!x.status.Suspended? ==> x.fiber.Some?)
    && (x.status.Returning? ==> !x.unsynced && x.spawnParent.Some?)
    && (x.status.Forming? ==> x.callParent.Some? && x.children != [])
    && !(x.callParent.Some? && x.spawnParent.Some?)
    && (x.unsynced ==> x.fiber != Some(x.base))
  }

  /** How it agrees with its relatives. */
  ghost predicate Linked(s: State, t: Cid)
    requires t in s.cs
  {
    var x := s.cs[t];
    && (x.callee.Some? && x.fiber.Some? ==>
          && x.callee.value in s.cs
          && s.cs[x.callee.value].callParent == Some(t)
          && Some(s.cs[x.callee.value].base) == x.fiber)
    && (x.callParent.Some? ==> x.callParent.value in s.cs && s.cs[x.callParent.value].callee == Some(t))
    && (x.spawnParent.Some? ==> x.spawnParent.value in s.cs && t in s.cs[x.spawnParent.value].children)
    && (forall c | c in x.children :: c in s.cs && s.cs[c].spawnParent == Some(t))
    && (x.unsynced && x.fiberChild.None? && x.children != [] && x.children[0] in s.cs ==>
          s.cs[x.children[0]].base == x.base)
  }

  /** Where its fibers and the closure itself are. */
  ghost predicate Held(s: State, t: Cid)
    requires t in s.cs
  {
    var x := s.cs[t];
    && (x.callee.None? && x.fiber.Some? ==> x.fiber.value in s.places && s.places[x.fiber.value] == On(t))
    && (x.fiberChild.Some? ==> x.fiberChild.value in s.places && s.places[x.fiberChild.value] == Kept(t))
    && (!x.status.Suspended? ==> x.at < |s.ws| && Holds(s.ws[x.at].mode, t, x.status))
  }

  predicate Holds(mode: Mode, t: Cid, status: Status) {
    match mode
    case Sched => false
    case User(u) => u == t && status.Running?
    case Hand(u) => u == t && !status.Running?
    case Leaving(n) => n == Some(t) && status.Returning?
  }

  ghost predicate Staffed(s: State, w: nat)
    requires w < |s.ws|
  {
    var x := s.ws[w];
    && (match x.mode
        case Sched => true
        case User(t) => t in s.cs && s.cs[t].status.Running? && s.cs[t].at == w
        case Hand(t) => t in s.cs && s.cs[t].at == w && !s.cs[t].status.Suspended? && !s.cs[t].status.Running?
        case Leaving(n) => n.Some? ==> n.value in s.cs && s.cs[n.value].at == w && s.cs[n.value].status.Returning?)
    && (x.mode.Sched? || x.mode.Hand? ==> x.toFree.None?)
    && (x.toFree.Some? ==>
          x.toFree.value < s.nextF && x.toFree.value in s.places && s.places[x.toFree.value] == Hanging(w))
  }

  ghost predicate Placed(s: State, f: Fid)
    requires f in s.places
  {
    && f < s.nextF
    && match s.places[f]
       case On(t) => t in s.cs && s.cs[t].callee.None? && s.cs[t].fiber == Some(f)
       case Kept(t) => t in s.cs && s.cs[t].fiberChild == Some(f)
       case Hanging(w) => w < |s.ws| && s.ws[w].toFree == Some(f)
  }

  /** Every fiber ever allocated is in one place or has been freed once. */
  ghost predicate Accounted(s: State) {
    && Distinct(s.freed)
    && (forall f | f in s.freed :: f < s.nextF && f !in s.places)
    && (forall f: nat | f < s.nextF :: f in s.places || f in s.freed)
  }

  ghost predicate Sees(s: State, t: Cid) {
    && t in s.cs && t < s.nextC
    && s.cs[t].base < s.nextF && (s.cs[t].fiber.Some? ==> s.cs[t].fiber.value < s.nextF)
    && Shape(t, s.cs[t]) && Linked(s, t) && Held(s, t)
  }

  ghost predicate Inv(s: State) {
    && (forall t {:trigger Sees(s, t)} | t in s.cs :: Sees(s, t))
    && (forall w: nat {:trigger Staffed(s, w)} | w < |s.ws| :: Staffed(s, w))
    && (forall f {:trigger Placed(s, f)} | f in s.places :: Placed(s, f))
    && Accounted(s)
  }

  // ---------------------------------------------------------------------------------------------
  // Every step keeps the invariant
  // ---------------------------------------------------------------------------------------------

  /** A worker and the closure it runs or has in hand. */
  ghost predicate Subject(s: State, w: nat) {
    && w < |s.ws| && Staffed(s, w)
    && (s.ws[w].mode.User? || s.ws[w].mode.Hand? ==> Sees(s, s.ws[w].mode.t))
  }

  /** What the proof of a step needs to know about the closures and workers that take part. */
  ghost predicate Context(s: State, a: Action) {
    && Enabled(s, a)
    && s.nextC !in s.cs && s.nextC + 1 !in s.cs && s.nextF !in s.places
    && match a
       case StealSame(thief, victim) => Subject(s, thief) && Subject(s, victim)
       case StealNew(thief, victim) => Subject(s, thief) && Subject(s, victim)
       case Link(w) => Subject(s, w) && Sees(s, s.cs[s.ws[w].mode.t].callParent.value)
       case Finish(w) => Subject(s, w)
       case Execute(w) => Subject(s, w)
       case Sync(w) => Subject(s, w)
       case Return(w) => Subject(s, w)
       case Leave(w) => Subject(s, w)
       case ChildReturn(w) => Subject(s, w) && Sees(s, s.cs[s.ws[w].mode.t].spawnParent.value)
       case SetReturn(w) => Subject(s, w) && Sees(s, s.cs[s.ws[w].mode.t].callParent.value)
  }

  lemma InvContext(s: State, a: Action)
    requires Inv(s) && Enabled(s, a)
    ensures Context(s, a)
  {
    forall t | t in s.cs ensures t < s.nextC {
      assert Sees(s, t);
    }
    forall f | f in s.places ensures f < s.nextF {
      assert Placed(s, f);
    }
  }

  lemma {:induction false} RemoveOne(s: seq<Cid>, c: Cid)
    requires Distinct(s)
    ensures Distinct(Remove(s, c))
    ensures forall x :: x in Remove(s, c) <==> x in s && x != c
    ensures c in s ==> |Remove(s, c)| == |s| - 1
    ensures s != [] && s[0] != c ==> Remove(s, c) != [] && Remove(s, c)[0] == s[0]
  {
    if s != [] {
      RemoveOne(s[1..], c);
      assert s == [s[0]] + s[1..];
      if s[0] != c {
        DistinctWith(s[0], Remove(s[1..], c));
      }
    }
  }

  lemma DistinctWith(x: Cid, r: seq<Cid>)
    requires Distinct(r) && x !in r
    ensures Distinct([x] + r)
  {
  }

  lemma FinishSees(s: State, a: Action, t: Cid)
    requires Inv(s) && Enabled(s, a) && a.Finish? && t in Apply(s, a).cs
    ensures Sees(Apply(s, a), t)
  {
    InvContext(s, a);
    assert Sees(s, t);
    assert Linked(Apply(s, a), t);
  }

  lemma ExecuteSees(s: State, a: Action, t: Cid)
    requires Inv(s) && Enabled(s, a) && a.Execute? && t in Apply(s, a).cs
    ensures Sees(Apply(s, a), t)
  {
    InvContext(s, a);
    assert Sees(s, t);
    assert Linked(Apply(s, a), t);
  }

  lemma LeaveSees(s: State, a: Action, t: Cid)
    requires Inv(s) && Enabled(s, a) && (a.Return? || a.Leave?) && t in Apply(s, a).cs
    ensures Sees(Apply(s, a), t)
  {
    InvContext(s, a);
    assert Sees(s, t);
    assert Linked(Apply(s, a), t);
  }

  lemma StealSameLinked(s: State, a: Action, t: Cid)
    requires Inv(s) && Enabled(s, a) && a.StealSame? && t in Apply(s, a).cs
    ensures Linked(Apply(s, a), t)
  {
    InvContext(s, a);
    assert t in s.cs ==> Sees(s, t);
  }

  lemma StealSameSees(s: State, a: Action, t: Cid)
    requires Inv(s) && Enabled(s, a) && a.StealSame? && t in Apply(s, a).cs
    ensures Sees(Apply(s, a), t)
  {
    StealSameLinked(s, a, t);
    InvContext(s, a);
    assert t in s.cs ==> Sees(s, t);
  }

  lemma StealNewLinked(s: State, a: Action, t: Cid)
    requires Inv(s) && Enabled(s, a) && a.StealNew? && t in Apply(s, a).cs
    ensures Linked(Apply(s, a), t)
  {
    InvContext(s, a);
    assert t in s.cs ==> Sees(s, t);
  }

  lemma StealNewSees(s: State, a: Action, t: Cid)
    requires Inv(s) && Enabled(s, a) && a.StealNew? && t in Apply(s, a).cs
    ensures Sees(Apply(s, a), t)
  {
    hide Linked;
    StealNewLinked(s, a, t);
    InvContext(s, a);
    assert t in s.cs ==> Sees(s, t);
  }

  lemma LinkLinked(s: State, a: Action, t: Cid)
    requires Inv(s) && Enabled(s, a) && a.Link? && t in Apply(s, a).cs
    ensures Linked(Apply(s, a), t)
  {
    if t in s.cs {
      OldLinked(s, a, t);
    } else {
      InvContext(s, a);
    }
  }

  lemma OldLinked(s: State, a: Action, t: Cid)
    requires Inv(s) && Enabled(s, a) && a.Link? && t in s.cs
    ensures t in Apply(s, a).cs && Linked(Apply(s, a), t)
  {
    InvContext(s, a);
    assert Sees(s, t);
  }

  lemma LinkSees(s: State, a: Action, t: Cid)
    requires Inv(s) && Enabled(s, a) && a.Link? && t in Apply(s, a).cs
    ensures Sees(Apply(s, a), t)
  {
    LinkLinked(s, a, t);
    InvContext(s, a);
    assert t in s.cs ==> Sees(s, t);
  }

  lemma SyncSuspends(s: State, a: Action, t: Cid)
    requires Inv(s) && Enabled(s, a) && a.Sync? && HasChildren(s.cs[s.ws[a.w].mode.t]) && t in Apply(s, a).cs
    ensures Sees(Apply(s, a), t)
  {
    InvContext(s, a);
    assert t in s.cs ==> Sees(s, t);
  }

  lemma SyncPasses(s: State, a: Action, t: Cid)
    requires Inv(s) && Enabled(s, a) && a.Sync? && !HasChildren(s.cs[s.ws[a.w].mode.t]) && t in Apply(s, a).cs
    ensures Sees(Apply(s, a), t)
  {
    InvContext(s, a);
    assert t in s.cs ==> Sees(s, t);
  }

  lemma SetReturnLinked(s: State, a: Action, t: Cid)
    requires Inv(s) && Enabled(s, a) && a.SetReturn? && t in Apply(s, a).cs
    ensures Linked(Apply(s, a), t)
  {
    InvContext(s, a);
    assert t in s.cs ==> Sees(s, t);
  }

  lemma SetReturnSees(s: State, a: Action, t: Cid)
    requires Inv(s) && Enabled(s, a) && a.SetReturn? && t in Apply(s, a).cs
    ensures Sees(Apply(s, a), t)
  {
    SetReturnLinked(s, a, t);
    InvContext(s, a);
    assert t in s.cs ==> Sees(s, t);
  }

  lemma ChildReturnHeld(s: State, a: Action)
    requires Inv(s) && Enabled(s, a) && a.ChildReturn?
    ensures var p := s.cs[s.ws[a.w].mode.t].spawnParent.value;
            p in Apply(s, a).cs && Held(Apply(s, a), p)
  {
    hide Linked, Remove;
    InvContext(s, a);
  }

  lemma ChildReturnLinked(s: State, a: Action)
    requires Inv(s) && Enabled(s, a) && a.ChildReturn?
    ensures var p := s.cs[s.ws[a.w].mode.t].spawnParent.value;
            p in Apply(s, a).cs && Linked(Apply(s, a), p)
  {
    hide Held, Accounted, Placed, Staffed;
    InvContext(s, a);
    var c := s.ws[a.w].mode.t;
    RemoveOne(s.cs[s.cs[c].spawnParent.value].children, c);
  }

  lemma ChildReturnParent(s: State, a: Action)
    requires Inv(s) && Enabled(s, a) && a.ChildReturn?
    ensures Sees(Apply(s, a), s.cs[s.ws[a.w].mode.t].spawnParent.value)
  {
    ChildReturnHeld(s, a);
    ChildReturnLinked(s, a);
    InvContext(s, a);
    hide Held, Linked;
    var c := s.ws[a.w].mode.t;
    RemoveOne(s.cs[s.cs[c].spawnParent.value].children, c);
  }

  /** A closure other than the returning child and its parent sees nothing of the return. */
  predicate Bystander(s: State, a: Action, t: Cid)
    requires Enabled(s, a) && a.ChildReturn?
  {
    t in s.cs && t != s.ws[a.w].mode.t && t != s.cs[s.ws[a.w].mode.t].spawnParent.value
  }

  lemma ChildReturnUnlinked(s: State, a: Action, t: Cid)
    requires Inv(s) && Enabled(s, a) && a.ChildReturn? && Bystander(s, a, t)
    ensures t in Apply(s, a).cs && Apply(s, a).cs[t] == s.cs[t] && Linked(Apply(s, a), t)
  {
    InvContext(s, a);
    assert Sees(s, t);
    var c := s.ws[a.w].mode.t;
    RemoveOne(s.cs[s.cs[c].spawnParent.value].children, c);
  }

  lemma ChildReturnOthers(s: State, a: Action, t: Cid)
    requires Inv(s) && Enabled(s, a) && a.ChildReturn? && Bystander(s, a, t)
    ensures t in Apply(s, a).cs && Sees(Apply(s, a), t)
  {
    ChildReturnUnlinked(s, a, t);
    InvContext(s, a);
    assert Sees(s, t);
  }

  lemma SyncStaffed(s: State, a: Action, w: nat)
    requires Inv(s) && Enabled(s, a) && a.Sync? && w < |s.ws|
    ensures |Apply(s, a).ws| == |s.ws| && Staffed(Apply(s, a), w)
  {
    InvContext(s, a);
    assert Staffed(s, w);
  }

  lemma ReturnStaffed(s: State, a: Action, w: nat)
    requires Inv(s) && Enabled(s, a) && a.ChildReturn? && w < |s.ws|
    ensures |Apply(s, a).ws| == |s.ws| && Staffed(Apply(s, a), w)
  {
    InvContext(s, a);
    assert Staffed(s, w);
  }

  predicate Steals(a: Action) {
    a.StealSame? || a.StealNew? || a.Link?
  }

  lemma StealStaffed(s: State, a: Action, w: nat)
    requires Inv(s) && Enabled(s, a) && Steals(a) && w < |s.ws|
    ensures |Apply(s, a).ws| == |s.ws| && Staffed(Apply(s, a), w)
  {
    InvContext(s, a);
    assert Staffed(s, w);
  }

  lemma OtherStaffed(s: State, a: Action, w: nat)
    requires Inv(s) && Enabled(s, a) && !Steals(a) && !a.Sync? && !a.ChildReturn? && w < |s.ws|
    ensures |Apply(s, a).ws| == |s.ws| && Staffed(Apply(s, a), w)
  {
    InvContext(s, a);
    assert Staffed(s, w);
  }

  lemma ReturnPlaced(s: State, a: Action, f: Fid)
    requires Inv(s) && Enabled(s, a) && a.ChildReturn? && f in Apply(s, a).places
    ensures Placed(Apply(s, a), f)
  {
    InvContext(s, a);
    assert f in s.places ==> Placed(s, f);
  }

  lemma StealPlaced(s: State, a: Action, f: Fid)
    requires Inv(s) && Enabled(s, a) && Steals(a) && f in Apply(s, a).places
    ensures Placed(Apply(s, a), f)
  {
    InvContext(s, a);
    assert f in s.places ==> Placed(s, f);
  }

  lemma SyncPlaced(s: State, a: Action, f: Fid)
    requires Inv(s) && Enabled(s, a) && (a.Sync? || a.SetReturn?) && f in Apply(s, a).places
    ensures Placed(Apply(s, a), f)
  {
    InvContext(s, a);
    assert f in s.places ==> Placed(s, f);
  }

  lemma OtherPlaced(s: State, a: Action, f: Fid)
    requires Inv(s) && Enabled(s, a) && !Steals(a) && !a.ChildReturn? && !a.Sync? && !a.SetReturn?
    requires f in Apply(s, a).places
    ensures Placed(Apply(s, a), f)
  {
    InvContext(s, a);
    assert f in s.places ==> Placed(s, f);
  }

  lemma StepAccounted(s: State, a: Action)
    requires Inv(s) && Enabled(s, a)
    ensures Accounted(Apply(s, a))
  {
    hide Linked;
    InvContext(s, a);
  }

  lemma StepSees(s: State, a: Action, t: Cid)
    requires Inv(s) && Enabled(s, a) && t in Apply(s, a).cs
    ensures Sees(Apply(s, a), t)
  {
    if a.StealSame? {
      StealSameSees(s, a, t);
    } else if a.StealNew? {
      StealNewSees(s, a, t);
    } else if a.Link? {
      LinkSees(s, a, t);
    } else if a.Finish? {
      FinishSees(s, a, t);
    } else if a.Execute? {
      ExecuteSees(s, a, t);
    } else if a.Return? || a.Leave? {
      LeaveSees(s, a, t);
    } else if a.Sync? {
      if HasChildren(s.cs[s.ws[a.w].mode.t]) { SyncSuspends(s, a, t); } else { SyncPasses(s, a, t); }
    } else if a.SetReturn? {
      SetReturnSees(s, a, t);
    } else if t == s.cs[s.ws[a.w].mode.t].spawnParent.value {
      ChildReturnParent(s, a);
    } else {
      ChildReturnOthers(s, a, t);
    }
  }

  lemma StepKeepsInv(s: State, a: Action)
    requires Inv(s) && Enabled(s, a)
    ensures Inv(Apply(s, a))
  {
    hide Apply, Enabled, Sees, Staffed, Placed, Accounted;
    var s' := Apply(s, a);
    forall t | t in s'.cs ensures Sees(s', t) { StepSees(s, a, t); }
    StepKeepsSize(s, a);
    forall w: nat | w < |s'.ws| ensures Staffed(s', w) {
      if a.Sync? {
        SyncStaffed(s, a, w);
      } else if a.ChildReturn? {
        ReturnStaffed(s, a, w);
      } else if Steals(a) {
        StealStaffed(s, a, w);
      } else {
        OtherStaffed(s, a, w);
      }
    }
    forall f | f in s'.places ensures Placed(s', f) {
      if a.ChildReturn? {
        ReturnPlaced(s, a, f);
      } else if Steals(a) {
        StealPlaced(s, a, f);
      } else if a.Sync? || a.SetReturn? {
        SyncPlaced(s, a, f);
      } else {
        OtherPlaced(s, a, f);
      }
    }
    StepAccounted(s, a);
  }

  lemma StepKeepsSize(s: State, a: Action)
    requires Enabled(s, a)
    ensures |Apply(s, a).ws| == |s.ws|
  {
  }

  lemma InitInv(n: nat)
    requires n > 0
    ensures Inv(Init(n))
  {
  }

  // ---------------------------------------------------------------------------------------------
  // Runs
  // ---------------------------------------------------------------------------------------------

  datatype Trace = Trace(states: seq<State>, acts: seq<Action>)

  predicate StepOf(s: State, a: Action, s': State) {
    Enabled(s, a) && s' == Apply(s, a)
  }

  ghost predicate IsRun(n: nat, r: Trace) {
    && n > 0
    && |r.states| == |r.acts| + 1
    && r.states[0] == Init(n)
    && forall i {:trigger r.acts[i]} | 0 <= i < |r.acts| :: StepOf(r.states[i], r.acts[i], r.states[i + 1])
  }

  lemma {:induction false} RunKeepsInv(n: nat, r: Trace, k: nat)
    requires IsRun(n, r) && k < |r.states|
    ensures Inv(r.states[k])
    decreases k
  {
    if k == 0 {
      InitInv(n);
    } else {
      RunKeepsInv(n, r, k - 1);
      assert StepOf(r.states[k - 1], r.acts[k - 1], r.states[k]);
      StepKeepsInv(r.states[k - 1], r.acts[k - 1]);
    }
  }

  /** In every state of every run join_counter is the length of the list of siblings, which holds exactly the closures
      spawned by t that have not yet returned, each once. */
  lemma JoinCounterCounts(n: nat, r: Trace, k: nat, t: Cid)
    requires IsRun(n, r) && k < |r.states| && t in r.states[k].cs
    ensures var s, x := r.states[k], r.states[k].cs[t];
            && x.joinCounter == |x.children| && Distinct(x.children)
            && forall c :: c in x.children <==> c in s.cs && s.cs[c].spawnParent == Some(t)
  {
    var s := r.states[k];
    RunKeepsInv(n, r, k);
    assert Sees(s, t);
    forall c | c in s.cs && s.cs[c].spawnParent == Some(t) ensures c in s.cs[t].children {
      assert Sees(s, c);
    }
  }

  // ---------------------------------------------------------------------------------------------
  // Fibers
  // ---------------------------------------------------------------------------------------------

  lemma BaseStep(s: State, a: Action, t: Cid)
    requires Enabled(s, a) && t < s.nextC && t in Apply(s, a).cs
    ensures t in s.cs && Apply(s, a).cs[t].base == s.cs[t].base
    ensures s.nextC <= Apply(s, a).nextC
  {
  }

  lemma {:induction false} BaseIsFixed(n: nat, r: Trace, i: nat, m: nat, t: Cid)
    requires IsRun(n, r) && i <= m < |r.states| && t < r.states[i].nextC && t in r.states[m].cs
    ensures r.states[i].nextC <= r.states[m].nextC
    ensures t in r.states[i].cs && r.states[i].cs[t].base == r.states[m].cs[t].base
    decreases m
  {
    if i < m {
      NamesGrow(n, r, i, m - 1);
      assert StepOf(r.states[m - 1], r.acts[m - 1], r.states[m]);
      BaseStep(r.states[m - 1], r.acts[m - 1], t);
      BaseIsFixed(n, r, i, m - 1, t);
    }
  }

  lemma {:induction false} NamesGrow(n: nat, r: Trace, i: nat, m: nat)
    requires IsRun(n, r) && i <= m < |r.states|
    ensures r.states[i].nextC <= r.states[m].nextC
    decreases m
  {
    if i < m {
      NamesGrow(n, r, i, m - 1);
      assert StepOf(r.states[m - 1], r.acts[m - 1], r.states[m]);
    }
  }

  /** However often a closure is stolen from in between, and whatever its children and callees do,
      whenever it has synced it is back on the same fiber. */
  lemma SyncRestoresFiber(n: nat, r: Trace, i: nat, m: nat, t: Cid)
    requires IsRun(n, r) && i <= m < |r.states| && t in r.states[i].cs && t in r.states[m].cs
    requires !r.states[i].cs[t].unsynced && !r.states[m].cs[t].unsynced
    ensures r.states[i].cs[t].fiber.Some? && r.states[i].cs[t].fiber == r.states[m].cs[t].fiber
  {
    RunKeepsInv(n, r, i);
    RunKeepsInv(n, r, m);
    assert Sees(r.states[i], t) && Sees(r.states[m], t);
    BaseIsFixed(n, r, i, m, t);
  }

  /** The fiber is in this place, as the closures and workers themselves tell. */
  predicate At(s: State, p: Place, f: Fid) {
    match p
    case On(t) => t in s.cs && s.cs[t].callee.None? && s.cs[t].fiber == Some(f)
    case Kept(t) => t in s.cs && s.cs[t].fiberChild == Some(f)
    case Hanging(w) => w < |s.ws| && s.ws[w].toFree == Some(f)
  }

  /** Every fiber ever allocated is freed once or is in exactly one place: a closure runs on it, it
      waits in a fiber_child, or a worker is about to free it. */
  lemma FibersAreConserved(n: nat, r: Trace, k: nat, f: Fid)
    requires IsRun(n, r) && k < |r.states| && f < r.states[k].nextF
    ensures Distinct(r.states[k].freed)
    ensures f in r.states[k].freed <==> !exists p :: At(r.states[k], p, f)
    ensures forall p, q :: At(r.states[k], p, f) && At(r.states[k], q, f) ==> p == q
  {
    var s := r.states[k];
    RunKeepsInv(n, r, k);
    forall p | At(s, p, f) ensures f in s.places && s.places[f] == p {
      match p
      case On(t) => assert Sees(s, t);
      case Kept(t) => assert Sees(s, t);
      case Hanging(w) => assert Staffed(s, w);
    }
    if f in s.places {
      assert Placed(s, f);
      assert At(s, s.places[f], f);
    }
  }

  // ---------------------------------------------------------------------------------------------
  // Stacks
  // ---------------------------------------------------------------------------------------------

  /** The fiber that the stack pointer of worker w is on after a step, as the jumps tell: into a closure's fiber when
      it executes, back to the fiber of the leftmost child when a sync passes, and off all fibers into the runtime. */
  function StackAfter(s: State, a: Action, w: nat, stack: Option<Fid>): Option<Fid>
    requires Enabled(s, a)
  {
    if a == Execute(w) then s.cs[s.ws[w].mode.t].fiber else
    if a == Leave(w) then None else
    if a == Sync(w) && !HasChildren(s.cs[s.ws[w].mode.t]) then s.cs[s.ws[w].mode.t].fiberChild else stack
  }

  ghost function StackOf(n: nat, r: Trace, k: nat, w: nat): Option<Fid>
    requires IsRun(n, r) && k < |r.states|
    decreases k
  {
    if k == 0 then None else
      assert StepOf(r.states[k - 1], r.acts[k - 1], r.states[k]);
      StackAfter(r.states[k - 1], r.acts[k - 1], w, StackOf(n, r, k - 1, w))
  }

  /** Where the scheduler takes worker w to be: on the fiber of the closure it runs or comes from, on the one it will
      free if that closure has been suspended, and on none in the runtime. */
  predicate StandsOn(s: State, w: nat, stack: Option<Fid>) {
    && w < |s.ws|
    && match s.ws[w].mode
       case User(t) => stack.Some? && t in s.cs && s.cs[t].fiber == stack
       case Leaving(Some(t)) => stack.Some? && t in s.cs && s.cs[t].fiber == stack
       case Leaving(None) => stack.Some? && s.ws[w].toFree == stack
       case _ => stack.None?
  }

  /** Worker w in one of its modes, and its closure. */
  ghost predicate KnownTo(s: State, a: Action, w: nat) {
    && Context(s, a) && w < |s.ws| && Staffed(s, w)
    && (s.ws[w].mode.User? ==> Sees(s, s.ws[w].mode.t))
    && (s.ws[w].mode.Leaving? && s.ws[w].mode.next.Some? ==> Sees(s, s.ws[w].mode.next.value))
  }

  lemma StandsInStep(s: State, a: Action, w: nat, stack: Option<Fid>)
    requires KnownTo(s, a, w) && StandsOn(s, w, stack) && !Steals(a) && !a.ChildReturn? && !a.SetReturn?
    ensures StandsOn(Apply(s, a), w, StackAfter(s, a, w, stack))
  {
    hide Held;
  }

  lemma StandsInSteal(s: State, a: Action, w: nat, stack: Option<Fid>)
    requires KnownTo(s, a, w) && StandsOn(s, w, stack) && Steals(a)
    ensures StandsOn(Apply(s, a), w, StackAfter(s, a, w, stack))
  {
    hide Held;
  }

  lemma StandsInChildReturn(s: State, a: Action, w: nat, stack: Option<Fid>)
    requires KnownTo(s, a, w) && StandsOn(s, w, stack) && a.ChildReturn?
    ensures StandsOn(Apply(s, a), w, StackAfter(s, a, w, stack))
  {
    hide Held;
  }

  lemma StandsInSetReturn(s: State, a: Action, w: nat, stack: Option<Fid>)
    requires KnownTo(s, a, w) && StandsOn(s, w, stack) && a.SetReturn?
    ensures StandsOn(Apply(s, a), w, StackAfter(s, a, w, stack))
  {
  }

  lemma StandsStill(s: State, a: Action, w: nat, stack: Option<Fid>)
    requires Inv(s) && Enabled(s, a) && StandsOn(s, w, stack)
    ensures StandsOn(Apply(s, a), w, StackAfter(s, a, w, stack))
  {
    InvContext(s, a);
    assert KnownTo(s, a, w) by {
      assert Staffed(s, w);
      if s.ws[w].mode.User? { assert Sees(s, s.ws[w].mode.t); }
      if s.ws[w].mode.Leaving? && s.ws[w].mode.next.Some? { assert Sees(s, s.ws[w].mode.next.value); }
    }
    hide *;
    if a.ChildReturn? {
      StandsInChildReturn(s, a, w, stack);
    } else if a.SetReturn? {
      StandsInSetReturn(s, a, w, stack);
    } else if Steals(a) {
      StandsInSteal(s, a, w, stack);
    } else {
      StandsInStep(s, a, w, stack);
    }
  }

  /** Whatever is stolen, synced and returned, the stack of a worker is where the scheduler takes it to be. */
  lemma {:induction false} StacksAreKnown(n: nat, r: Trace, k: nat, w: nat)
    requires IsRun(n, r) && k < |r.states| && w < n
    ensures StandsOn(r.states[k], w, StackOf(n, r, k, w))
    decreases k
  {
    hide Inv, StandsOn, StackAfter;
    if k == 0 {
      StartsOff(n, w);
    } else {
      StacksAreKnown(n, r, k - 1, w);
      RunKeepsInv(n, r, k - 1);
      assert StepOf(r.states[k - 1], r.acts[k - 1], r.states[k]);
      StandsStill(r.states[k - 1], r.acts[k - 1], w, StackOf(n, r, k - 1, w));
    }
  }

  lemma StartsOff(n: nat, w: nat)
    requires w < n
    ensures StandsOn(Init(n), w, None)
  {
  }

  /** No fiber is freed under a worker's feet, nor one that a worker has still to free. */
  lemma NoStackIsFreed(n: nat, r: Trace, k: nat, w: nat)
    requires IsRun(n, r) && k < |r.states| && w < n
    ensures w < |r.states[k].ws|
    ensures var s, stack := r.states[k], StackOf(n, r, k, w);
            && (s.ws[w].mode.User? || s.ws[w].mode.Leaving? <==> stack.Some?)
            && (stack.Some? ==> stack.value !in s.freed)
            && (s.ws[w].toFree.Some? ==> s.ws[w].toFree.value !in s.freed)
  {
    var s := r.states[k];
    StacksAreKnown(n, r, k, w);
    RunKeepsInv(n, r, k);
    assert Staffed(s, w);
    match s.ws[w].mode
    case User(t) => assert Sees(s, t);
    case Leaving(Some(t)) => assert Sees(s, t);
    case _ =>
  }

  /** A worker jumps off the fiber that its sync has left, or has long jumped off it when it syncs again. */
  predicate Jumps(a: Action, w: nat) {
    a == Leave(w) || a == Sync(w)
  }

  lemma WaitsOn(s: State, a: Action, w: nat, f: Fid)
    requires Inv(s) && Enabled(s, a) && w < |s.ws| && s.ws[w].toFree == Some(f)
    ensures w < |Apply(s, a).ws|
    ensures if Jumps(a, w) then f in Apply(s, a).freed else Apply(s, a).ws[w].toFree == Some(f)
  {
    hide Accounted, Placed, Sees;
    InvContext(s, a);
    assert Staffed(s, w);
  }

  /** The fiber f that a sync of w leaves, whether children are outstanding or not, is not freed by it; it is freed when
      w next leaves for the runtime or syncs, and by nobody else and no earlier. */
  lemma {:induction false} SyncedFiberWaits(n: nat, r: Trace, k: nat, m: nat, w: nat, f: Fid)
    requires IsRun(n, r) && k < m < |r.states| && r.acts[k] == Sync(w)
    requires w < |r.states[k].ws| && r.states[k].ws[w].mode.User? && r.states[k].ws[w].mode.t in r.states[k].cs
    requires r.states[k].cs[r.states[k].ws[w].mode.t].fiber == Some(f)
    requires forall j | k < j < m :: !Jumps(r.acts[j], w)
    ensures w < |r.states[m].ws| && r.states[m].ws[w].toFree == Some(f) && f !in r.states[m].freed
    ensures m < |r.acts| && Jumps(r.acts[m], w) ==> f in r.states[m + 1].freed
    decreases m
  {
    hide Inv, Apply, Enabled;
    RunKeepsInv(n, r, m - 1);
    assert StepOf(r.states[m - 1], r.acts[m - 1], r.states[m]);
    if m == k + 1 {
      SyncHangs(r.states[k], w);
    } else {
      SyncedFiberWaits(n, r, k, m - 1, w, f);
      WaitsOn(r.states[m - 1], r.acts[m - 1], w, f);
    }
    RunKeepsInv(n, r, m);
    HungIsNotFreed(r.states[m], w);
    if m < |r.acts| {
      assert StepOf(r.states[m], r.acts[m], r.states[m + 1]);
      WaitsOn(r.states[m], r.acts[m], w, f);
    }
  }

  lemma SyncHangs(s: State, w: nat)
    requires Enabled(s, Sync(w))
    ensures w < |s.ws| == |Apply(s, Sync(w)).ws| && s.ws[w].mode.User? && s.ws[w].mode.t in s.cs
    ensures Apply(s, Sync(w)).ws[w].toFree == s.cs[s.ws[w].mode.t].fiber
  {
  }

  lemma HungIsNotFreed(s: State, w: nat)
    requires Inv(s) && w < |s.ws| && s.ws[w].toFree.Some?
    ensures s.ws[w].toFree.value !in s.freed
  {
    assert Staffed(s, w);
  }

  /** The assertions the scheduler makes at each of these steps. */
  predicate Asserted(s: State, a: Action)
    requires Enabled(s, a)
  {
    match a
    case StealSame(thief, victim) => var x := s.cs[s.ws[victim].mode.t]; x.status.Running? && x.callee.None?
    case StealNew(thief, victim) => var x := s.cs[s.ws[victim].mode.t]; x.status.Running? && x.callee.None?
    case Sync(w) =>
      var x := s.cs[s.ws[w].mode.t];
      && x.status.Running? && x.callee.None? && s.ws[w].toFree != x.fiber
      && (x.children == [] ==> x.fiberChild.Some? && x.fiberChild != x.fiber)
    case Return(w) => s.cs[s.ws[w].mode.t].children == []
    case ChildReturn(w) =>
      var c := s.cs[s.ws[w].mode.t];
      var p := s.cs[c.spawnParent.value];
      && s.ws[w].toFree.None? && c.children == [] && c.callee.None? && c.callParent.None?
      && !p.status.Returning? && p.fiberChild != c.fiber && |p.children| > 0
      && (Resumes(Joined(p, s.ws[w].mode.t, c.fiber)) ==>
            p.fiber.None? && Joined(p, s.ws[w].mode.t, c.fiber).fiberChild.Some?)
    case SetReturn(w) =>
      var x := s.cs[s.ws[w].mode.t];
      var p := s.cs[x.callParent.value];
      && x.children == [] && x.spawnParent.None? && x.callee.None?
      && p.status.Suspended? && p.callee == Some(s.ws[w].mode.t) && p.fiber == x.fiber
    case Execute(w) => s.cs[s.ws[w].mode.t].fiber.Some? && s.ws[w].toFree.None?
    case Link(w) => s.cs[s.cs[s.ws[w].mode.t].callParent.value].fiber == Some(s.cs[s.ws[w].mode.t].base)
    case Finish(w) => s.cs[s.ws[w].mode.t].fiber.Some? && s.cs[s.ws[w].mode.t].children != []
    case Leave(w) => true
  }

  /** No assertion of the scheduler about fibers, children, callees and status can fail. */
  lemma AssertionsHold(n: nat, r: Trace, k: nat)
    requires IsRun(n, r) && k < |r.acts|
    ensures Enabled(r.states[k], r.acts[k]) && Asserted(r.states[k], r.acts[k])
  {
    RunKeepsInv(n, r, k);
    assert StepOf(r.states[k], r.acts[k], r.states[k + 1]);
    InvContext(r.states[k], r.acts[k]);
    if r.acts[k].ChildReturn? {
      var s, c := r.states[k], r.states[k].ws[r.acts[k].w].mode.t;
      RemoveOne(s.cs[s.cs[c].spawnParent.value].children, c);
    }
  }

  // ---------------------------------------------------------------------------------------------
  // The frames in the middle of a stolen stacklet
  // ---------------------------------------------------------------------------------------------

  /** From callee to caller: the first closure is being formed, and the others are suspended on the fiber f. */
  ghost predicate CallPath(s: State, l: seq<Cid>, f: Fid) {
    && |l| >= 2 && (forall i | 0 <= i < |l| :: l[i] in s.cs) && s.cs[l[0]].status.Forming?
    && (forall i | 0 <= i < |l| - 1 :: CalledBy(s, l, i))
    && (forall i | 0 < i < |l| :: s.cs[l[i]].status.Suspended? && s.cs[l[i]].fiber == Some(f))
  }

  predicate CalledBy(s: State, l: seq<Cid>, i: nat)
    requires i + 1 < |l| && l[i] in s.cs
  {
    s.cs[l[i]].callParent == Some(l[i + 1])
  }

  predicate LinksIn(s: State, a: Action, y: Cid) {
    a.Link? && a.thief < |s.ws| && s.ws[a.thief].mode == Hand(y)
  }

  /** The worker that forms y is through with it. */
  predicate Finishes(s: State, a: Action, y: Cid) {
    a.Finish? && a.thief < |s.ws| && s.ws[a.thief].mode == Hand(y)
  }

  /** The closure is suspended for a callee that is not about to return. */
  predicate Waits(s: State, c: Cid) {
    && c in s.cs && s.cs[c].status.Suspended? && s.cs[c].callee.Some? && s.cs[c].callee.value in s.cs
    && !s.cs[s.cs[c].callee.value].status.Running?
  }

  predicate IsFormed(s: State, a: Action, c: Cid) {
    c in s.cs && s.cs[c].status.Forming? && !LinksIn(s, a, c) && !Finishes(s, a, c)
  }

  predicate Same(x: FullFrame, x': FullFrame) {
    x'.callParent == x.callParent && x'.status == x.status && x'.fiber == x.fiber
  }

  /** No step changes the caller, the status or the fiber of such a closure. */
  lemma WaitingStays(s: State, a: Action, c: Cid)
    requires Inv(s) && Enabled(s, a) && Waits(s, c)
    ensures c in s.cs && c in Apply(s, a).cs && Same(s.cs[c], Apply(s, a).cs[c])
  {
    hide Accounted, Placed, Held;
    InvContext(s, a);
    assert Sees(s, c);
  }

  lemma FormedStays(s: State, a: Action, c: Cid)
    requires Inv(s) && Enabled(s, a) && IsFormed(s, a, c)
    ensures c in s.cs && c in Apply(s, a).cs && Same(s.cs[c], Apply(s, a).cs[c])
  {
    hide Accounted, Placed, Held;
    InvContext(s, a);
    assert Sees(s, c);
  }

  lemma PathWaits(s: State, l: seq<Cid>, f: Fid, i: nat)
    requires Inv(s) && CallPath(s, l, f) && 0 < i < |l|
    ensures Waits(s, l[i])
  {
    hide Accounted, Placed, Held;
    assert CalledBy(s, l, i - 1);
    assert Sees(s, l[i - 1]) && Sees(s, l[i]);
  }

  /** What others do leaves the path as it is. */
  lemma PathStays(s: State, a: Action, l: seq<Cid>, f: Fid)
    requires Inv(s) && Enabled(s, a) && CallPath(s, l, f) && !LinksIn(s, a, l[0]) && !Finishes(s, a, l[0])
    ensures CallPath(Apply(s, a), l, f)
  {
    forall i | 0 <= i < |l| ensures l[i] in s.cs && l[i] in Apply(s, a).cs && Same(s.cs[l[i]], Apply(s, a).cs[l[i]]) {
      if i > 0 {
        PathWaits(s, l, f, i);
        WaitingStays(s, a, l[i]);
      } else {
        FormedStays(s, a, l[0]);
      }
    }
    hide Inv, Apply, Enabled;
    forall i | 0 <= i < |l| - 1 ensures CalledBy(Apply(s, a), l, i) {
      assert CalledBy(s, l, i);
    }
  }

  /** One more frame of the stacklet becomes a closure, between the first one and its caller. */
  lemma PathGrows(s: State, w: nat, l: seq<Cid>, f: Fid)
    requires Inv(s) && Enabled(s, Link(w)) && CallPath(s, l, f) && w < |s.ws| && s.ws[w].mode == Hand(l[0])
    ensures CallPath(Apply(s, Link(w)), [l[0], s.nextC] + l[1..], f)
  {
    InvContext(s, Link(w));
    var m, s' := [l[0], s.nextC] + l[1..], Apply(s, Link(w));
    assert CalledBy(s, l, 0);
    forall i | 0 <= i < |m|
      ensures m[i] in s'.cs && (i > 0 ==> s'.cs[m[i]].status.Suspended? && s'.cs[m[i]].fiber == Some(f))
    {
      if i > 1 {
        assert m[i] == l[i - 1];
        PathWaits(s, l, f, i - 1);
      }
    }
    forall i | 0 <= i < |m| - 1 ensures CalledBy(s', m, i) {
      if i > 1 {
        assert CalledBy(s, l, i - 1);
        PathWaits(s, l, f, i - 1);
      }
    }
  }

  lemma PathBegins(s: State, w: nat, v: nat)
    requires Inv(s) && Enabled(s, StealNew(w, v))
    ensures var t := s.ws[v].mode.t;
            && CallPath(Apply(s, StealNew(w, v)), [s.nextC, t], s.cs[t].fiber.value)
            && w < |Apply(s, StealNew(w, v)).ws| && Apply(s, StealNew(w, v)).ws[w].mode == Hand(s.nextC)
  {
    InvContext(s, StealNew(w, v));
    var l := [s.nextC, s.ws[v].mode.t];
    assert CalledBy(Apply(s, StealNew(w, v)), l, 0);
  }

  /** How many frames worker w has linked between steps k and m. */
  function LinkedBy(r: Trace, k: nat, m: nat, w: nat): nat
    requires k < m <= |r.acts|
    decreases m
  {
    if m == k + 1 then 0 else LinkedBy(r, k, m - 1, w) + (if r.acts[m - 1] == Link(w) then 1 else 0)
  }

  lemma FormsStill(s: State, a: Action, w: nat, y: Cid)
    requires Inv(s) && Enabled(s, a) && w < |s.ws| && s.ws[w].mode == Hand(y) && y in s.cs && s.cs[y].status.Forming?
    requires a != Finish(w)
    ensures w < |Apply(s, a).ws| && Apply(s, a).ws[w].mode == Hand(y)
    ensures (LinksIn(s, a, y) <==> a == Link(w)) && !Finishes(s, a, y)
  {
    hide Accounted, Placed, Held, Linked;
    InvContext(s, a);
    assert Staffed(s, w);
  }

  /** While worker w forms the closures of a stacklet that it has stolen from under the closure t of v, and whatever
      others do meanwhile, the calls lead from the youngest closure over as many as have been linked up to t, and all of
      them are suspended on the fiber that t had. */
  lemma {:induction false} LinksLeadToTheVictim(n: nat, r: Trace, k: nat, m: nat, w: nat, v: nat) returns (l: seq<Cid>)
    requires IsRun(n, r) && k < m < |r.states| && r.acts[k] == StealNew(w, v)
    requires forall j | k < j < m :: r.acts[j] != Finish(w)
    ensures v < |r.states[k].ws| && r.states[k].ws[v].mode.User? && r.states[k].ws[v].mode.t in r.states[k].cs
    ensures var t := r.states[k].ws[v].mode.t;
            && |l| == 2 + LinkedBy(r, k, m, w) && l[0] == r.states[k].nextC && l[|l| - 1] == t
            && r.states[k].cs[t].fiber.Some? && CallPath(r.states[m], l, r.states[k].cs[t].fiber.value)
    ensures w < |r.states[m].ws| && r.states[m].ws[w].mode == Hand(l[0])
    decreases m
  {
    hide Inv, Apply, CallPath;
    RunKeepsInv(n, r, m - 1);
    assert StepOf(r.states[m - 1], r.acts[m - 1], r.states[m]);
    if m == k + 1 {
      PathBegins(r.states[k], w, v);
      l := [r.states[k].nextC, r.states[k].ws[v].mode.t];
    } else {
      l := LinksLeadToTheVictim(n, r, k, m - 1, w, v);
      var s, f := r.states[m - 1], r.states[k].cs[r.states[k].ws[v].mode.t].fiber.value;
      l := PathAfter(s, r.acts[m - 1], w, l, f);
    }
  }

  lemma PathAfter(s: State, a: Action, w: nat, l: seq<Cid>, f: Fid) returns (m: seq<Cid>)
    requires Inv(s) && Enabled(s, a) && |l| >= 2 && CallPath(s, l, f)
    requires w < |s.ws| && s.ws[w].mode == Hand(l[0]) && a != Finish(w)
    ensures |m| == |l| + (if a == Link(w) then 1 else 0) && m[0] == l[0] && m[|m| - 1] == l[|l| - 1]
    ensures CallPath(Apply(s, a), m, f) && w < |Apply(s, a).ws| && Apply(s, a).ws[w].mode == Hand(m[0])
  {
    FormsStill(s, a, w, l[0]);
    hide Inv, Apply, CallPath;
    if a == Link(w) {
      PathGrows(s, w, l, f);
      m := [l[0], s.nextC] + l[1..];
    } else {
      PathStays(s, a, l, f);
      m := l;
    }
  }

  // ---------------------------------------------------------------------------------------------
  // Resuming
  // ---------------------------------------------------------------------------------------------

  /** A suspended closure always has somebody to wait for. */
  lemma SuspendedIsWaiting(n: nat, r: Trace, k: nat, t: Cid)
    requires IsRun(n, r) && k < |r.states| && t in r.states[k].cs && r.states[k].cs[t].status.Suspended?
    ensures var s, x := r.states[k], r.states[k].cs[t];
            if x.callee.Some?
            then x.callee.value in s.cs && s.cs[x.callee.value].callParent == Some(t)
            else x.children != [] && forall c | c in x.children :: c in s.cs && s.cs[c].spawnParent == Some(t)
  {
    RunKeepsInv(n, r, k);
    assert Sees(r.states[k], t);
  }

  /** The only outstanding child of t returns, and t has no callee. */
  predicate LastChildReturns(s: State, a: Action, t: Cid)
    requires Enabled(s, a) && t in s.cs
  {
    a.ChildReturn? && s.cs[t].callee.None? && s.cs[t].children == [s.ws[a.w].mode.t]
  }

  predicate CalleeReturns(s: State, a: Action, t: Cid)
    requires Enabled(s, a) && t in s.cs
  {
    a.SetReturn? && s.cs[t].callee == Some(s.ws[a.w].mode.t)
  }

  /** A suspended closure is resumed by the return of its last child when it has no callee, by the
      return of its callee when it has one, and by nothing else: never by both. */
  lemma ResumedExactlyBy(n: nat, r: Trace, k: nat, t: Cid)
    requires IsRun(n, r) && k < |r.acts| && t in r.states[k].cs && r.states[k].cs[t].status.Suspended?
    ensures var s, s', a := r.states[k], r.states[k + 1], r.acts[k];
            && Enabled(s, a) && t in s'.cs
            && (!s'.cs[t].status.Suspended? <==> LastChildReturns(s, a, t) || CalleeReturns(s, a, t))
            && !(LastChildReturns(s, a, t) && CalleeReturns(s, a, t))
  {
    hide Accounted, Placed, Held, Distinct;
    var s, a := r.states[k], r.acts[k];
    RunKeepsInv(n, r, k);
    assert StepOf(s, a, r.states[k + 1]);
    InvContext(s, a);
    assert Sees(s, t);
    if a.ChildReturn? {
      var c := s.ws[a.w].mode.t;
      var p := s.cs[c].spawnParent.value;
      RemoveOne(s.cs[p].children, c);
      if p == t && Remove(s.cs[p].children, c) == [] {
        assert s.cs[p].children == [c];
      }
    }
  }
}
