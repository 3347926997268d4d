/** Closures as objects: the doubly linked list of siblings under a parent, and the doubly linked
    ready deque.  A ghost sequence gives the closures in order; each routine is proved to do to the
    links what its name says of the sequence. */
module Closures {

  import opened Commons

  class Frame {
    var callParent: Frame?
    var stolen: bool
    var detached: bool
    var worker: int

    constructor (callParent: Frame?, detached: bool, worker: int)
      ensures this.callParent == callParent && this.detached == detached && this.worker == worker && !stolen
    {
      this.callParent, this.detached, this.worker, stolen := callParent, detached, worker, false;
    }
  }

  class Closure {
    var frame: Frame?
    var fiber: int
    var status: Status
    var callParent: Closure?
    var callee: Closure?
    var hasCallee: bool
    var leftSib: Closure?
    var rightSib: Closure?
    var rightMostChild: Closure?
    var joinCounter: nat
    var prevReady: Closure?
    var nextReady: Closure?

    constructor ()
      ensures frame == null && callParent == null && callee == null && !hasCallee
      ensures leftSib == null && rightSib == null && rightMostChild == null && joinCounter == 0
      ensures prevReady == null && nextReady == null
    {
      frame, fiber, status, callParent, callee, hasCallee := null, 0, Running, null, null, false;
      leftSib, rightSib, rightMostChild, joinCounter := null, null, null, 0;
      prevReady, nextReady := null, null;
    }

    /** Closure_add_callee: the caller gets this closure as its callee. */
    method BecomeCallee(caller: Closure)
      requires this != caller && caller.callee == null && frame != null && frame.callParent == caller.frame
      modifies this`callParent, caller`callee, caller`hasCallee
      ensures callParent == caller && caller.callee == this && caller.hasCallee
    {
      callParent := caller;
      caller.callee := this;
      caller.hasCallee := true;
    }
  }

  function At(s: seq<Closure>, i: int): (c: Closure?)
    ensures 0 <= i < |s| ==> c == s[i]
    ensures i < 0 || |s| <= i ==> c == null
  {
    if 0 <= i < |s| then s[i] else null
  }

  ghost predicate Distinct(s: seq<Closure>) {
    forall i, j | 0 <= i < j < |s| :: s[i] != s[j]
  }

  // ---------------------------------------------------------------------------------------------
  // Siblings
  // ---------------------------------------------------------------------------------------------

  /** The list of siblings that ends at right_most_child is kids, from left to right, and
      join_counter counts it. */
  ghost predicate Family(parent: Closure, kids: seq<Closure>)
    reads parent, kids
  {
    && Distinct(kids) && parent !in kids
    && parent.rightMostChild == At(kids, |kids| - 1)
    && parent.joinCounter == |kids|
    && forall i | 0 <= i < |kids| :: Siblings(kids, i)
  }

  ghost predicate Siblings(kids: seq<Closure>, i: nat)
    requires i < |kids|
    reads kids
  {
    kids[i].leftSib == At(kids, i - 1) && kids[i].rightSib == At(kids, i + 1)
  }

  /** double_link_children */
  method DoubleLink(left: Closure?, right: Closure)
    requires left != right
    requires left != null ==> left.rightSib == null
    requires right.leftSib == null
    modifies if left == null then {} else {left}, right
    ensures left != null ==> left.rightSib == right && left.leftSib == old(left.leftSib)
    ensures right.leftSib == left && right.rightSib == old(right.rightSib)
    ensures left != null ==> left.rightMostChild == old(left.rightMostChild)
    ensures left != null ==> left.joinCounter == old(left.joinCounter)
    ensures right.rightMostChild == old(right.rightMostChild) && right.joinCounter == old(right.joinCounter)
  {
    if left != null {
      left.rightSib := right;
      right.leftSib := left;
    }
  }

  /** Closure_add_child, with the join counter that promote_child counts up. */
  method AddChild(parent: Closure, child: Closure, ghost kids: seq<Closure>)
    requires Family(parent, kids) && child !in kids && child != parent
    requires child.leftSib == null && child.rightSib == null
    modifies parent, child, kids
    ensures Family(parent, kids + [child])
    ensures parent.leftSib == old(parent.leftSib) && parent.rightSib == old(parent.rightSib)
    ensures child.rightMostChild == old(child.rightMostChild) && child.joinCounter == old(child.joinCounter)
    ensures forall c | c in kids :: c.rightMostChild == old(c.rightMostChild) && c.joinCounter == old(c.joinCounter)
  {
    assert kids != [] ==> Siblings(kids, |kids| - 1);
    DoubleLink(parent.rightMostChild, child);
    parent.rightMostChild := child;
    parent.joinCounter := parent.joinCounter + 1;
    ghost var all := kids + [child];
    forall i | 0 <= i < |all| ensures Siblings(all, i) {
      if i < |kids| { assert old(Siblings(kids, i)); }
    }
  }

  /** unlink_child */
  method Unlink(cl: Closure, ghost kids: seq<Closure>, ghost i: nat)
    requires i < |kids| && kids[i] == cl && Distinct(kids)
    requires forall j | 0 <= j < |kids| :: Siblings(kids, j)
    modifies kids
    ensures cl.leftSib == null && cl.rightSib == null
    ensures forall c | c in kids ::
              c.rightMostChild == old(c.rightMostChild) && c.joinCounter == old(c.joinCounter)
    ensures var rest := kids[..i] + kids[i + 1..]; forall j | 0 <= j < |rest| :: Siblings(rest, j)
  {
    assert Siblings(kids, i);
    ghost var rest := kids[..i] + kids[i + 1..];
    if cl.leftSib != null {
      assert cl.leftSib == kids[i - 1];
      cl.leftSib.rightSib := cl.rightSib;
    }
    if cl.rightSib != null {
      assert cl.rightSib == kids[i + 1];
      cl.rightSib.leftSib := cl.leftSib;
    }
    cl.leftSib := null;
    cl.rightSib := null;
    forall j | 0 <= j < |rest| ensures Siblings(rest, j) {
      ghost var k := if j < i then j else j + 1;
      assert rest[j] == kids[k] && old(Siblings(kids, k));
    }
  }

  /** Closure_remove_child, with the join counter that Closure_return counts down. */
  method RemoveChild(parent: Closure, child: Closure, ghost kids: seq<Closure>, ghost i: nat)
    requires Family(parent, kids) && i < |kids| && kids[i] == child
    modifies parent, kids
    ensures Family(parent, kids[..i] + kids[i + 1..])
    ensures child.leftSib == null && child.rightSib == null
    ensures parent.leftSib == old(parent.leftSib) && parent.rightSib == old(parent.rightSib)
    ensures forall c | c in kids :: c.rightMostChild == old(c.rightMostChild) && c.joinCounter == old(c.joinCounter)
  {
    assert Siblings(kids, i);
    ghost var rest := kids[..i] + kids[i + 1..];
    if child == parent.rightMostChild {
      parent.rightMostChild := child.leftSib;
    }
    Unlink(child, kids, i);
    parent.joinCounter := parent.joinCounter - 1;
    assert Distinct(rest);
  }

  /** The test of Closure_return whether a returning child is the leftmost one. */
  method IsLeftmost(parent: Closure, child: Closure, ghost kids: seq<Closure>) returns (b: bool)
    requires Family(parent, kids) && child in kids
    ensures b <==> child == kids[0]
  {
    ghost var i :| 0 <= i < |kids| && kids[i] == child;
    assert Siblings(kids, i);
    b := child.leftSib == null;
  }

  // ---------------------------------------------------------------------------------------------
  // Ready deque
  // ---------------------------------------------------------------------------------------------

  class ReadyDeque {
    var top: Closure?
    var bottom: Closure?

    /** The closures from top to bottom. */
    ghost predicate Holds(cs: seq<Closure>)
      reads this, cs
    {
      && Distinct(cs)
      && top == At(cs, 0) && bottom == At(cs, |cs| - 1)
      && forall i | 0 <= i < |cs| :: ReadyAt(cs, i)
    }

    constructor ()
      ensures Holds([])
    {
      top, bottom := null, null;
    }

    method PeekTop(ghost cs: seq<Closure>) returns (cl: Closure?)
      requires Holds(cs)
      ensures cl == At(cs, 0)
      ensures cl == null ==> bottom == null
    {
      cl := top;
    }

    method PeekBottom(ghost cs: seq<Closure>) returns (cl: Closure?)
      requires Holds(cs)
      ensures cl == At(cs, |cs| - 1)
      ensures cl == null ==> top == null
    {
      cl := bottom;
    }

    method XtractTop(ghost cs: seq<Closure>) returns (cl: Closure?)
      requires Holds(cs)
      modifies this, cs
      ensures cl == At(cs, 0)
      ensures Holds(if cs == [] then [] else cs[1..])
    {
      cl := top;
      if cl != null {
        assert ReadyAt(cs, 0);
        ghost var rest := cs[1..];
        top := cl.nextReady;
        if cl == bottom {
          bottom := null;
        } else {
          assert ReadyAt(cs, 1);
          cl.nextReady.prevReady := null;
        }
        forall j | 0 <= j < |rest| ensures ReadyAt(rest, j) {
          assert old(ReadyAt(cs, j + 1));
        }
      }
    }

    method XtractBottom(ghost cs: seq<Closure>) returns (cl: Closure?)
      requires Holds(cs)
      modifies this, cs
      ensures cl == At(cs, |cs| - 1)
      ensures Holds(if cs == [] then [] else cs[..|cs| - 1])
    {
      cl := bottom;
      if cl != null {
        assert ReadyAt(cs, |cs| - 1);
        ghost var rest := cs[..|cs| - 1];
        bottom := cl.prevReady;
        if cl == top {
          top := null;
        } else {
          assert ReadyAt(cs, |cs| - 2);
          cl.prevReady.nextReady := null;
        }
        forall j | 0 <= j < |rest| ensures ReadyAt(rest, j) {
          assert old(ReadyAt(cs, j));
        }
      }
    }

    method AddBottom(cl: Closure, ghost cs: seq<Closure>)
      requires Holds(cs) && cl !in cs
      modifies this, cl, cs
      ensures Holds(cs + [cl])
    {
      ghost var all := cs + [cl];
      assert cs != [] ==> ReadyAt(cs, |cs| - 1);
      cl.prevReady := bottom;
      cl.nextReady := null;
      bottom := cl;
      if top != null {
        cl.prevReady.nextReady := cl;
      } else {
        top := cl;
      }
      forall j | 0 <= j < |all| ensures ReadyAt(all, j) {
        if j < |cs| { assert old(ReadyAt(cs, j)); }
      }
    }
  }

  ghost predicate ReadyAt(cs: seq<Closure>, i: nat)
    requires i < |cs|
    reads cs
  {
    cs[i].prevReady == At(cs, i - 1) && cs[i].nextReady == At(cs, i + 1)
  }
}
