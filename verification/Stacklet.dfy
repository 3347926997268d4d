/** Promoting a stolen stacklet: every frame between the stolen one and the frame of the suspended
    closure gets a closure of its own, so that the call parents of the closures mirror the call
    parents of the frames. */
module Stacklet {

  import opened Closures
  import opened Commons

  const NOBODY := -1

  ghost predicate Calls(fs: seq<Frame>, i: int)
    reads fs`callParent
  {
    0 <= i < |fs| - 1 ==> fs[i].callParent == fs[i + 1]
  }

  /** Each frame is called by the next one. */
  ghost predicate Chain(fs: seq<Frame>)
    reads fs`callParent
  {
    && (forall i, j | 0 <= i < j < |fs| :: fs[i] != fs[j])
    && forall i | 0 <= i < |fs| - 1 :: Calls(fs, i)
  }

  lemma ChainTail(fs: seq<Frame>)
    requires Chain(fs) && fs != []
    ensures Chain(fs[1..])
  {
    forall i | 0 <= i < |fs| - 2 ensures Calls(fs[1..], i) {
      assert Calls(fs, i + 1);
    }
  }

  /** The frames of a stacklet nobody has stolen, from the youngest to the oldest. */
  ghost predicate Unstolen(fs: seq<Frame>, victim: int)
    reads fs, set f | f in fs :: f.callParent
  {
    && fs != [] && Chain(fs)
    && (forall i | 0 <= i < |fs| :: !fs[i].stolen && fs[i].worker == victim)
    && (forall i | 0 <= i < |fs| - 1 :: !fs[i].detached)
    && var last := fs[|fs| - 1];
       last.detached || last.callParent == null || last.callParent.stolen
  }

  /** oldest_non_stolen_frame_in_stacklet */
  method OldestNonStolen(head: Frame, ghost fs: seq<Frame>, ghost victim: int) returns (cur: Frame)
    requires Unstolen(fs, victim) && head == fs[0]
    ensures cur == fs[|fs| - 1]
  {
    cur := head;
    ghost var i := 0;
    while !cur.detached && cur.callParent != null && !cur.callParent.stolen
      invariant 0 <= i < |fs| && cur == fs[i]
      decreases |fs| - i
    {
      assert Calls(fs, i);
      cur := cur.callParent;
      i := i + 1;
    }
    assert Calls(fs, i);
  }

  /** The i-th closure stands for the i-th frame and is the callee of the next closure. */
  ghost predicate Mirrors(cls: seq<Closure>, fs: seq<Frame>, i: int)
    reads cls
  {
    |cls| == |fs| && 0 <= i < |cls| - 1 ==>
      && cls[i].frame == fs[i] && cls[i].callParent == cls[i + 1]
      && cls[i + 1].callee == cls[i] && cls[i + 1].hasCallee
  }

  /** A frame in the middle of the stacklet has been promoted: its closure waits, on the fiber of the
      oldest one, for its callee. */
  ghost predicate Middle(cls: seq<Closure>, fs: seq<Frame>, i: int, fiber: int)
    reads cls, fs
  {
    |cls| == |fs| && 0 <= i < |cls| - 1 ==>
      && fs[i].stolen && fs[i].worker == NOBODY
      && cls[i].status == Suspended && cls[i].fiber == fiber
  }

  /** setup_call_parent_closure_helper: closures for the frames fs, the last of which is oldest's own. */
  method CallParents(frame: Frame, oldest: Closure, ghost fs: seq<Frame>)
    returns (cl: Closure, ghost cls: seq<Closure>)
    requires fs != [] && Chain(fs) && fs[0] == frame && oldest.frame == fs[|fs| - 1]
    requires oldest.callee == null
    modifies oldest`callee, oldest`hasCallee, fs[..|fs| - 1]`stolen, fs[..|fs| - 1]`worker
    ensures |cls| == |fs| && cls[0] == cl && cls[|fs| - 1] == oldest
    ensures forall i | 0 <= i < |cls| - 1 :: Mirrors(cls, fs, i)
    ensures forall i | 0 <= i < |cls| - 1 :: Middle(cls, fs, i, oldest.fiber)
    ensures cl.callee == null && cl.fiber == oldest.fiber && cl.frame == frame
    ensures forall i | 0 <= i < |cls| - 1 :: fresh(cls[i])
    decreases |fs|
  {
    if oldest.frame == frame {
      assert |fs| == 1;
      return oldest, [oldest];
    }
    assert Calls(fs, 0);
    ChainTail(fs);
    ghost var rest := fs[1..];
    assert rest[..|rest| - 1] == fs[1..|fs| - 1];
    var callParent;
    ghost var above;
    callParent, above := CallParents(frame.callParent, oldest, rest);
    frame.stolen := true;
    cl := new Closure();
    cl.frame := frame;
    cl.status := Suspended;
    frame.worker := NOBODY;
    cl.fiber := callParent.fiber;
    cls := [cl] + above;
    label L:
    cl.BecomeCallee(callParent);
    forall i | 0 <= i < |cls| - 1 ensures Mirrors(cls, fs, i) {
      assert i > 0 ==> old@L(Mirrors(above, rest, i - 1));
    }
    forall i | 0 <= i < |cls| - 1 ensures Middle(cls, fs, i, oldest.fiber) {
      assert i > 0 ==> old@L(Middle(above, rest, i - 1, oldest.fiber));
    }
  }

  /** The whole stacklet is promoted: the chain of closures mirrors the chain of frames, all frames
      are marked stolen, only the youngest still belongs to the victim, and the closures in the
      middle are suspended on the fiber of the oldest. */
  ghost predicate Promoted(cls: seq<Closure>, fs: seq<Frame>, victim: int)
    reads cls, fs
  {
    && 1 < |fs| == |cls|
    && cls[|cls| - 1].frame == fs[|fs| - 1] && fs[|fs| - 1].stolen && fs[|fs| - 1].worker == NOBODY
    && fs[0].stolen && fs[0].worker == victim
    && (forall i | 0 <= i < |cls| - 1 :: Mirrors(cls, fs, i))
    && var fiber := cls[|cls| - 1].fiber;
       forall i | 0 < i < |cls| - 1 :: Middle(cls, fs, i, fiber)
  }

  /** The common end of setup_closures_in_stacklet: fs reaches up to the frame of the oldest closure. */
  method SetupClosures(youngest: Closure, oldest: Closure, ghost fs: seq<Frame>, ghost victim: int)
    returns (ghost cls: seq<Closure>)
    requires 1 < |fs| && Chain(fs) && youngest != oldest
    requires youngest.frame == fs[0] && oldest.frame == fs[|fs| - 1] && oldest.callee == null
    requires fs[0].worker == victim && fs[|fs| - 1].stolen && fs[|fs| - 1].worker == NOBODY
    modifies youngest`callParent, oldest`callee, oldest`hasCallee, fs[..|fs| - 1]`stolen, fs[..|fs| - 1]`worker
    ensures |cls| == |fs| && cls[0] == youngest && cls[|fs| - 1] == oldest
    ensures Promoted(cls, fs, victim)
  {
    assert Calls(fs, 0);
    ChainTail(fs);
    ghost var rest := fs[1..];
    assert rest[..|rest| - 1] == fs[1..|fs| - 1];
    var callParent;
    ghost var above;
    callParent, above := CallParents(youngest.frame.callParent, oldest, rest);
    youngest.frame.stolen := true;
    cls := [youngest] + above;
    label L:
    youngest.BecomeCallee(callParent);
    forall i | 0 <= i < |cls| - 1 ensures Mirrors(cls, fs, i) {
      assert i > 0 ==> old@L(Mirrors(above, rest, i - 1));
    }
    forall i | 0 < i < |cls| - 1 ensures Middle(cls, fs, i, oldest.fiber) {
      assert old@L(Middle(above, rest, i - 1, oldest.fiber));
    }
  }

  /** The frames that get mirrored: up to the suspended closure's own frame, which is the oldest of
      the stacklet if it had none yet. */
  ghost function Mirrored(oldestCl: Closure, fs: seq<Frame>): seq<Frame>
    reads oldestCl
  {
    if oldestCl.frame == null then fs else fs + [oldestCl.frame]
  }

  method SetupClosuresInStacklet(youngest: Closure, ghost fs: seq<Frame>, ghost victim: int)
    returns (ghost cls: seq<Closure>)
    requires Unstolen(fs, victim) && youngest.frame == fs[0]
    requires youngest.callParent != null && youngest.callParent != youngest && youngest.callParent.callee == null
    requires var f := youngest.callParent.frame;
             if f == null then |fs| > 1 && fs[|fs| - 1].detached
             else f == fs[|fs| - 1].callParent && f.stolen && f !in fs
    modifies youngest`callParent, fs`stolen, fs`worker
    modifies youngest.callParent`frame, youngest.callParent`callee, youngest.callParent`hasCallee
    modifies (if youngest.callParent.frame == null then {} else {youngest.callParent.frame})`worker
    ensures var all := old(Mirrored(youngest.callParent, fs));
            && |cls| == |all| && cls[0] == youngest && cls[|all| - 1] == old(youngest.callParent)
            && Promoted(cls, all, victim)
  {
    var oldestCl := youngest.callParent;
    var oldest := OldestNonStolen(youngest.frame, fs, victim);
    ghost var all := Mirrored(oldestCl, fs);
    if oldestCl.frame == null {
      oldest.stolen := true;
      oldestCl.frame := oldest;
    }
    oldestCl.frame.worker := NOBODY;
    forall i | 0 <= i < |all| - 1 ensures Calls(all, i) {
      assert i < |fs| - 1 ==> Calls(fs, i);
    }
    assert forall f | f in all[..|all| - 1] :: f in fs;
    cls := SetupClosures(youngest, oldestCl, all, victim);
  }
}
