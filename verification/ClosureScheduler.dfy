/** The scheduler routines that steal, sync and return, written as they are: they update closures,
    workers and the fiber pool one field after the other.  Each is proved to take exactly the step
    of `ClosureTree` it stands for. */
module ClosureScheduler {

  import opened Commons
  import opened ClosureTree

  class Scheduler {
    var cs: map<Cid, FullFrame>
    var ws: seq<Worker>
    var places: map<Fid, Place>
    var freed: seq<Fid>
    var nextC: Cid
    var nextF: Fid

    ghost function Abs(): State
      reads this
    {
      State(cs, ws, places, freed, nextC, nextF)
    }

    constructor (n: nat)
      requires n > 0
      ensures Abs() == Init(n)
    {
      cs := map[0 := FullFrame(Ready, Some(0), None, [], 0, None, None, None, false, 0, 0)];
      ws := seq(n, i => Worker(if i == 0 then Hand(0) else Sched, None));
      places, freed, nextC, nextF := map[0 := On(0)], [], 1, 1;
    }

    method CreateClosure(x: FullFrame) returns (c: Cid)
      modifies this`cs, this`nextC
      ensures c == old(nextC) && nextC == c + 1 && cs == old(cs)[c := x]
    {
      c := nextC;
      cs := cs[c := x];
      nextC := nextC + 1;
    }

    method AllocateFiber() returns (f: Fid)
      modifies this`nextF
      ensures f == old(nextF) && nextF == f + 1
    {
      f := nextF;
      nextF := nextF + 1;
    }

    method DeallocateFiber(f: Fid)
      modifies this`places, this`freed
      ensures places == old(places) - {f} && freed == old(freed) + [f]
    {
      places := places - {f};
      freed := freed + [f];
    }

    /** promote_child for a closure whose own frame is the oldest on the deque, and the hand-over of
        fibers in Closure_steal. */
    method StealOwn(thief: nat, victim: nat)
      requires Enabled(Abs(), StealSame(thief, victim)) && nextC !in cs
      modifies this
      ensures Abs() == Apply(old(Abs()), StealSame(thief, victim))
    {
      var res := ws[victim].mode.t;
      var parentFiber := cs[res].fiber.value;
      var fiber := AllocateFiber();
      cs := cs[res := cs[res].(children := cs[res].children + [nextC], joinCounter := cs[res].joinCounter + 1)];
      var child := CreateClosure(Spawned(res, parentFiber, victim));
      cs := cs[res := cs[res].(fiber := Some(fiber))];
      places := places[parentFiber := On(child)][fiber := On(res)];
      cs := cs[res := cs[res].(status := Ready, unsynced := true, at := thief)];
      ws := ws[victim := ws[victim].(mode := User(child))];
      ws := ws[thief := ws[thief].(mode := Hand(res))];
    }

    /** The same when the oldest frame on the deque has no closure yet: the victim's closure is
        suspended, with the new closure as its temporary callee. */
    method StealYounger(thief: nat, victim: nat)
      requires Enabled(Abs(), StealNew(thief, victim)) && nextC !in cs && nextC + 1 !in cs
      modifies this
      ensures Abs() == Apply(old(Abs()), StealNew(thief, victim))
    {
      var cl := ws[victim].mode.t;
      var parentFiber := cs[cl].fiber.value;
      var fiber := AllocateFiber();
      var stolen :=
        FullFrame(Forming, Some(fiber), None, [nextC + 1], 1, None, Some(cl), None, true, parentFiber, thief);
      var res := CreateClosure(stolen);
      cs := cs[cl := cs[cl].(callee := Some(res))];
      cs := cs[cl := cs[cl].(status := Suspended)];
      var child := CreateClosure(Spawned(res, parentFiber, victim));
      places := places[parentFiber := On(child)][fiber := On(res)];
      ws := ws[victim := ws[victim].(mode := User(child))];
      ws := ws[thief := ws[thief].(mode := Hand(res))];
    }

    /** setup_for_sync for a closure whose current fiber is already on its way out of the worker. */
    method SetupForSync(w: nat, t: Cid)
      requires w < |ws| && t in cs
      modifies this`cs, this`ws, this`places
      ensures cs == old(cs)[t := Synced(old(cs)[t])]
      ensures ws == old(ws)[w := old(ws)[w].(toFree := old(cs)[t].fiber)]
      ensures places == Place1(Place1(old(places), old(cs)[t].fiber, Hanging(w)), old(cs)[t].fiberChild, On(t))
    {
      ws := ws[w := ws[w].(toFree := cs[t].fiber)];
      places := Place1(places, cs[t].fiber, Hanging(w));
      cs := cs[t := cs[t].(fiber := cs[t].fiberChild)];
      cs := cs[t := cs[t].(fiberChild := None)];
      places := Place1(places, cs[t].fiber, On(t));
      cs := cs[t := cs[t].(unsynced := false)];
    }

    method CilkSync(w: nat)
      requires Enabled(Abs(), ClosureTree.Sync(w))
      modifies this
      ensures Abs() == Apply(old(Abs()), ClosureTree.Sync(w))
    {
      var t := ws[w].mode.t;
      if ws[w].toFree.Some? {
        DeallocateFiber(ws[w].toFree.value);
        ws := ws[w := ws[w].(toFree := None)];
      }
      if HasChildren(cs[t]) {
        ws := ws[w := ws[w].(toFree := cs[t].fiber)];
        places := Place1(places, cs[t].fiber, Hanging(w));
        cs := cs[t := cs[t].(fiber := None)];
        cs := cs[t := cs[t].(status := Suspended)];
        ws := ws[w := ws[w].(mode := Leaving(None))];
      } else {
        SetupForSync(w, t);
      }
    }

    /** Closure_remove_child and the join_counter that Closure_return lowers with it. */
    method RemoveChild(p: Cid, c: Cid)
      requires p in cs
      modifies this`cs
      ensures var x := old(cs)[p];
              cs == old(cs)[p := x.(children := Remove(x.children, c), joinCounter := x.joinCounter - 1)]
    {
      cs := cs[p := cs[p].(children := Remove(cs[p].children, c), joinCounter := cs[p].joinCounter - 1)];
    }

    method ProvablyGoodStealMaybe(w: nat, parent: Cid)
      requires w < |ws| && ws[w].toFree.None? && parent in cs
      requires Resumes(cs[parent]) ==> cs[parent].fiber.None?
      modifies this`cs, this`ws, this`places
      ensures Resumes(old(cs)[parent]) ==>
                && cs == old(cs)[parent := Synced(old(cs)[parent]).(status := Ready, at := w)]
                && ws == old(ws)[w := Worker(Hand(parent), None)]
                && places == Place1(old(places), old(cs)[parent].fiberChild, On(parent))
      ensures !Resumes(old(cs)[parent]) ==>
                cs == old(cs) && places == old(places) && ws == old(ws)[w := Worker(Sched, None)]
    {
      if !HasChildren(cs[parent]) && cs[parent].status.Suspended? {
        SetupForSync(w, parent);
        cs := cs[parent := cs[parent].(status := Ready, at := w)];
        ws := ws[w := ws[w].(mode := Hand(parent))];
      } else {
        ws := ws[w := ws[w].(mode := Sched)];
      }
    }

    /** The left-holder logic of Closure_return: the leftmost child hands its fiber up, any other frees it. */
    method PassFiber(parent: Cid, child: Cid)
      requires parent in cs && child in cs && cs[child].fiber.Some? && cs[parent].children != []
      modifies this`cs, this`places, this`freed
      ensures var p, f := old(cs)[parent], old(cs)[child].fiber.value;
              if Passes(p, child) then
                cs == old(cs)[parent := p.(fiberChild := Some(f))] && places == old(places)[f := Kept(parent)]
                && freed == old(freed)
              else cs == old(cs) && places == old(places) - {f} && freed == old(freed) + [f]
    {
      if cs[parent].children[0] != child || cs[parent].fiberChild.Some? {
        DeallocateFiber(cs[child].fiber.value);
      } else {
        cs := cs[parent := cs[parent].(fiberChild := cs[child].fiber)];
        places := places[cs[child].fiber.value := Kept(parent)];
      }
    }

    method ClosureReturn(w: nat)
      requires Inv(Abs()) && Enabled(Abs(), ClosureTree.ChildReturn(w))
      modifies this
      ensures Abs() == Apply(old(Abs()), ClosureTree.ChildReturn(w))
    {
      hide Inv, Synced, Resumes, Remove, HasChildren;
      var child := ws[w].mode.t;
      var parent := cs[child].spawnParent.value;
      ReturnContext(Abs(), w);
      ghost var joined := Joined(cs[parent], child, cs[child].fiber);
      PassFiber(parent, child);
      RemoveChild(parent, child);
      cs := cs - {child};
      assert cs[parent] == joined;
      ProvablyGoodStealMaybe(w, parent);
    }

    method CilkSetReturn(w: nat)
      requires Inv(Abs()) && Enabled(Abs(), ClosureTree.SetReturn(w))
      modifies this
      ensures Abs() == Apply(old(Abs()), ClosureTree.SetReturn(w))
    {
      var t := ws[w].mode.t;
      var callParent := cs[t].callParent.value;
      InvContext(Abs(), ClosureTree.SetReturn(w));
      assert cs[callParent].fiber == cs[t].fiber;
      places := places[cs[t].fiber.value := On(callParent)];
      cs := cs[callParent := cs[callParent].(callee := None)];
      cs := cs[callParent := cs[callParent].(status := Running, at := w)];
      cs := cs - {t};
      ws := ws[w := ws[w].(mode := User(callParent))];
    }
  }

  /** The child is not its own parent, and a parent that can be resumed is on no fiber. */
  lemma ReturnContext(s: State, w: nat)
    requires Inv(s) && Enabled(s, ClosureTree.ChildReturn(w))
    ensures var c := s.cs[s.ws[w].mode.t];
            && c.spawnParent != Some(s.ws[w].mode.t) && s.ws[w].toFree.None?
            && (Resumes(Joined(s.cs[c.spawnParent.value], s.ws[w].mode.t, c.fiber)) ==>
                  s.cs[c.spawnParent.value].fiber.None?)
  {
    InvContext(s, ClosureTree.ChildReturn(w));
  }
}
