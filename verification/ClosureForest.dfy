/** The linked lists of siblings, over whole runs of the closure tree. */
module ClosureForest {
  // Every closure of the tree is an object here. Each step of the tree is a method that links and unlinks objects as
  // the scheduler does, and keeps the lists and the counters in step with the children that the tree speaks of.

  import opened Commons
  import Closures
  import opened ClosureTree

  type Kids = map<Cid, seq<Cid>>

  ghost function KidsOf(s: State): Kids {
    map t | t in s.cs :: s.cs[t].children
  }

  /** Every child is known and has one parent. */
  ghost predicate IsForest(k: Kids) {
    && (forall p, c | p in k && c in k[p] :: c in k && c != p)
    && (forall p | p in k :: Distinct(k[p]))
    && (forall p, q, c | p in k && q in k && p != q && c in k[p] :: c !in k[q])
  }

  ghost predicate IsChild(k: Kids, c: Cid) {
    exists p :: p in k && c in k[p]
  }

  lemma LoneForest(k: Kids, c: Cid)
    requires IsForest(k) && c !in k
    ensures IsForest(k[c := []])
    ensures forall d :: IsChild(k[c := []], d) <==> IsChild(k, d)
    ensures !IsChild(k, c)
  {
    forall d ensures IsChild(k[c := []], d) <==> IsChild(k, d) {
      if IsChild(k, d) {
        var p :| p in k && d in k[p];
        assert p in k[c := []] && d in k[c := []][p];
      }
    }
  }

  lemma JoinForest(k: Kids, p: Cid, c: Cid)
    requires IsForest(k) && p in k && c in k && c != p && !IsChild(k, c)
    ensures IsForest(k[p := k[p] + [c]])
    ensures forall d :: IsChild(k[p := k[p] + [c]], d) <==> IsChild(k, d) || d == c
    ensures forall q, d | q in k && d in k[q] :: d != c && (q != p ==> d !in k[p])
    ensures Relinked(k, k[p := k[p] + [c]], p, c, k[p] + [c])
  {
    var k' := k[p := k[p] + [c]];
    assert c !in k[p] && forall q | q in k :: c !in k[q];
    forall d ensures IsChild(k', d) <==> IsChild(k, d) || d == c {
      if IsChild(k, d) {
        var q :| q in k && d in k[q];
        assert q in k' && d in k'[q];
      }
      if d == c {
        assert p in k' && d in k'[p];
      }
    }
  }

  lemma CutForest(k: Kids, p: Cid, c: Cid, i: nat)
    requires IsForest(k) && p in k && i < |k[p]| && k[p][i] == c
    ensures c in k && p != c && IsForest(k[p := Remove(k[p], c)])
    ensures forall d :: IsChild(k[p := Remove(k[p], c)], d) <==> IsChild(k, d) && d != c
    ensures forall q, d | q in k && d in k[q] && q != p :: d !in k[p]
    ensures Relinked(k, k[p := Remove(k[p], c)], p, c, k[p])
    ensures Remove(k[p], c) == k[p][..i] + k[p][i + 1..]
  {
    var k' := k[p := Remove(k[p], c)];
    RemoveOne(k[p], c);
    RemoveAt(k[p], c, i);
    forall d ensures IsChild(k', d) <==> IsChild(k, d) && d != c {
      if IsChild(k, d) && d != c {
        var q :| q in k && d in k[q];
        assert q in k' && d in k'[q];
      }
      if IsChild(k', d) {
        var q :| q in k' && d in k'[q];
        assert q in k && d in k[q];
      }
    }
  }

  /** The tree without c, which p loses. */
  ghost function Cut(k: Kids, p: Cid, c: Cid): Kids
    requires p in k
  {
    (k - {c})[p := Remove(k[p], c)]
  }

  lemma CutInTwo(k: Kids, p: Cid, c: Cid)
    requires IsForest(k) && p in k && c in k[p] && k[c] == []
    ensures var k' := k[p := Remove(k[p], c)];
            c in k' && k'[c] == [] && !IsChild(k', c) && k' - {c} == Cut(k, p, c)
  {
    hide Relinked, Remove;
    var i :| 0 <= i < |k[p]| && k[p][i] == c;
    CutForest(k, p, c, i);
  }

  lemma DropForest(k: Kids, c: Cid)
    requires IsForest(k) && c in k && k[c] == [] && !IsChild(k, c)
    ensures IsForest(k - {c})
    ensures forall d :: IsChild(k - {c}, d) <==> IsChild(k, d)
    ensures forall q, d | q in k && d in k[q] :: d != c
  {
    forall d ensures IsChild(k - {c}, d) <==> IsChild(k, d) {
      if IsChild(k, d) {
        var q :| q in k && d in k[q];
        assert q != c && q in k - {c} && d in (k - {c})[q];
      }
    }
  }

  /** Only the list of p has changed; l covers the closures that it held before or holds now, and c is the one that
      it holds only before or only now. */
  ghost predicate Relinked(k: Kids, k': Kids, p: Cid, c: Cid, l: seq<Cid>) {
    && p in k && p in k' && k' == k[p := k'[p]] && IsForest(k')
    && (forall q, d | q in k && q != p && d in k[q] :: d !in l)
    && (forall d | d in k && d != c && !IsChild(k', d) :: !IsChild(k, d) && d !in l)
  }

  lemma {:induction false} RemoveAt(l: seq<Cid>, c: Cid, i: nat)
    requires Distinct(l) && i < |l| && l[i] == c
    ensures Remove(l, c) == l[..i] + l[i + 1..]
  {
    if i > 0 {
      RemoveAt(l[1..], c, i - 1);
      assert l[..i] == [l[0]] + l[1..][..i - 1] && l[i + 1..] == l[1..][i..];
    }
  }

  /** Where the links of a closure point, at one moment. */
  datatype Links = Links(left: Closures.Closure?, right: Closures.Closure?, youngest: Closures.Closure?, count: nat)

  type View = map<Closures.Closure, Links>

  ghost function LinksOf(c: Closures.Closure): Links
    reads c
  {
    Links(c.leftSib, c.rightSib, c.rightMostChild, c.joinCounter)
  }

  ghost predicate IsView(v: View, objects: set<Closures.Closure>)
    reads objects
  {
    v.Keys == objects && forall c | c in objects :: v[c] == LinksOf(c)
  }

  /** A list of siblings as the view shows it. */
  ghost predicate FamilyIn(v: View, parent: Closures.Closure, kids: seq<Closures.Closure>) {
    && Closures.Distinct(kids) && parent !in kids && parent in v && (forall c | c in kids :: c in v)
    && v[parent].youngest == Closures.At(kids, |kids| - 1) && v[parent].count == |kids|
    && forall i | 0 <= i < |kids| ::
         v[kids[i]].left == Closures.At(kids, i - 1) && v[kids[i]].right == Closures.At(kids, i + 1)
  }

  lemma FamilyShown(v: View, objects: set<Closures.Closure>, parent: Closures.Closure, kids: seq<Closures.Closure>)
    requires IsView(v, objects) && parent in objects && forall c | c in kids :: c in objects
    ensures Closures.Family(parent, kids) <==> FamilyIn(v, parent, kids)
  {
    if FamilyIn(v, parent, kids) {
      forall i | 0 <= i < |kids| ensures Closures.Siblings(kids, i) {
        assert kids[i] in kids;
      }
    } else if Closures.Family(parent, kids) {
      assert forall i | 0 <= i < |kids| :: Closures.Siblings(kids, i) && kids[i] in kids;
    }
  }

  /** A list stays as it is if its parent keeps its children and the children keep their places. */
  lemma FamilyKept(v: View, v': View, parent: Closures.Closure, kids: seq<Closures.Closure>)
    requires FamilyIn(v, parent, kids) && v'.Keys == v.Keys
    requires v'[parent].youngest == v[parent].youngest && v'[parent].count == v[parent].count
    requires forall c | c in kids :: v'[c].left == v[c].left && v'[c].right == v[c].right
    ensures FamilyIn(v', parent, kids)
  {
    forall i | 0 <= i < |kids| ensures v'[kids[i]].left == v[kids[i]].left && v'[kids[i]].right == v[kids[i]].right {
      assert kids[i] in kids;
    }
  }

  lemma EmptyFamily(x: Closures.Closure)
    requires x.rightMostChild == null && x.joinCounter == 0
    ensures Closures.Family(x, [])
  {
  }

  // ---------------------------------------------------------------------------------------------
  // What the steps do to the children
  // ---------------------------------------------------------------------------------------------

  lemma NewNames(s: State)
    requires Inv(s)
    ensures s.nextC !in s.cs && s.nextC + 1 !in s.cs
    ensures forall p, c | p in s.cs && c in s.cs[p].children :: c < s.nextC
  {
    hide Accounted, Staffed, Placed;
    forall t | t in s.cs ensures t < s.nextC {
      assert Sees(s, t);
    }
    forall p, c | p in s.cs && c in s.cs[p].children ensures c < s.nextC {
      assert Sees(s, p) && Sees(s, c);
    }
  }

  lemma StealOnKids(s: State, thief: nat, victim: nat)
    requires Inv(s) && Enabled(s, StealSame(thief, victim))
    ensures var k, t, c := KidsOf(s), s.ws[victim].mode.t, s.nextC;
            && c !in k && t in k && t != c && !IsChild(k[c := []], c)
            && KidsOf(Apply(s, StealSame(thief, victim))) == k[c := []][t := k[t] + [c]]
  {
    NewNames(s);
    hide Inv;
  }

  lemma PromoteOnKids(s: State, thief: nat, victim: nat)
    requires Inv(s) && Enabled(s, StealNew(thief, victim))
    ensures var k, y, c := KidsOf(s), s.nextC, s.nextC + 1;
            && y !in k && c !in k[y := []] && !IsChild(k[y := []][c := []], c)
            && KidsOf(Apply(s, StealNew(thief, victim))) == k[y := []][c := []][y := [c]]
  {
    NewNames(s);
    hide Inv;
  }

  lemma LinkOnKids(s: State, w: nat)
    requires Inv(s) && Enabled(s, ClosureTree.Link(w))
    ensures s.nextC !in KidsOf(s) && KidsOf(Apply(s, ClosureTree.Link(w))) == KidsOf(s)[s.nextC := []]
  {
    NewNames(s);
    hide Inv;
  }

  /** A returning child has no children of its own left. */
  lemma ReturnOnKids(s: State, w: nat)
    requires Inv(s) && Enabled(s, ChildReturn(w))
    ensures var k, c, p := KidsOf(s), s.ws[w].mode.t, s.cs[s.ws[w].mode.t].spawnParent.value;
            && p in k && c in k && c in k[p] && k[c] == []
            && KidsOf(Apply(s, ChildReturn(w))) == Cut(k, p, c)
  {
    assert Sees(s, s.ws[w].mode.t);
    hide Inv, Linked, Held;
  }

  /** A called closure that returns has no children left and is nobody's child. */
  lemma SetReturnOnKids(s: State, w: nat)
    requires Inv(s) && Enabled(s, ClosureTree.SetReturn(w))
    ensures var k, t := KidsOf(s), s.ws[w].mode.t;
            t in k && k[t] == [] && !IsChild(k, t) && KidsOf(Apply(s, ClosureTree.SetReturn(w))) == k - {t}
  {
    var t := s.ws[w].mode.t;
    assert Sees(s, t);
    forall p | p in s.cs ensures t !in s.cs[p].children {
      assert Sees(s, p);
    }
    hide Inv, Linked, Held;
  }

  lemma OthersOnKids(s: State, a: Action)
    requires Enabled(s, a) && (a.Finish? || a.Execute? || a.Sync? || a.Return? || a.Leave?)
    ensures KidsOf(Apply(s, a)) == KidsOf(s)
  {
  }

  class Forest {
    var nodes: map<Cid, Closures.Closure>

    ghost function Objects(l: seq<Cid>): (r: seq<Closures.Closure>)
      requires forall c | c in l :: c in nodes
      reads this
      ensures |r| == |l| && forall i | 0 <= i < |l| :: r[i] == nodes[l[i]]
    {
      seq(|l|, i requires 0 <= i < |l| reads this requires l[i] in nodes => nodes[l[i]])
    }

    ghost predicate Known(k: Kids)
      reads this
    {
      && nodes.Keys == k.Keys
      && (forall c, d | c in nodes && d in nodes && c != d :: nodes[c] != nodes[d])
      && (forall p, c | p in k && c in k[p] :: c in nodes)
    }

    /** The list at right_most_child of p is its children, and join_counter counts them. */
    ghost predicate FamilyOf(k: Kids, p: Cid)
      requires Known(k) && p in k
      reads this, nodes.Values
    {
      Closures.Family(nodes[p], Objects(k[p]))
    }

    ghost predicate Loose(c: Cid)
      requires c in nodes
      reads this, nodes.Values
    {
      nodes[c].leftSib == null && nodes[c].rightSib == null
    }

    /** The objects hold exactly the children that k speaks of. */
    ghost predicate Mirrors(k: Kids)
      reads this, nodes.Values
    {
      && IsForest(k) && Known(k)
      && (forall p | p in k :: FamilyOf(k, p))
      && (forall c | c in k && !IsChild(k, c) :: Loose(c))
    }

    lemma NotAmong(l: seq<Cid>, c: Cid)
      requires c in nodes && c !in l && (forall d | d in l :: d in nodes)
      requires forall d, e | d in nodes && e in nodes && d != e :: nodes[d] != nodes[e]
      ensures nodes[c] !in Objects(l)
    {
    }

    /** A closure without children and in no list. */
    method AddLone(c: Cid, ghost k: Kids)
      requires Mirrors(k) && c !in k
      modifies this`nodes
      ensures Mirrors(k[c := []])
      ensures c in nodes && fresh(nodes[c]) && nodes == old(nodes)[c := nodes[c]]
    {
      hide IsForest, IsChild, Closures.Family;
      var x := new Closures.Closure();
      ghost var k' := k[c := []];
      LoneForest(k, c);
      nodes := nodes[c := x];
      EmptyFamily(x);
      forall p | p in k' ensures FamilyOf(k', p) {
        if p != c {
          assert old(FamilyOf(k, p));
          assert Objects(k'[p]) == old(Objects(k[p]));
        } else {
          assert Objects(k'[c]) == [];
        }
      }
      forall d | d in k' && !IsChild(k', d) ensures Loose(d) {
        if d != c {
          assert old(Loose(d));
        }
      }
    }

    /** Since the view v only the list of p and the places of the closures in l have changed. */
    ghost predicate RestKept(v: View, p: Cid, l: seq<Cid>)
      requires nodes.Values <= v.Keys
      reads this, nodes.Values
    {
      && (forall q | q in nodes && q != p ::
            nodes[q].rightMostChild == v[nodes[q]].youngest && nodes[q].joinCounter == v[nodes[q]].count)
      && (forall d | d in nodes && d !in l ::
            nodes[d].leftSib == v[nodes[d]].left && nodes[d].rightSib == v[nodes[d]].right)
    }

    ghost predicate Shown(v: View, k: Kids)
      requires Known(k)
      reads this
    {
      forall q | q in k :: FamilyIn(v, nodes[q], Objects(k[q]))
    }

    lemma AllShown(v: View, k: Kids)
      requires Mirrors(k) && IsView(v, nodes.Values)
      ensures Shown(v, k)
    {
      hide IsForest, IsChild, FamilyIn, Closures.Family;
      forall q | q in k ensures FamilyIn(v, nodes[q], Objects(k[q])) {
        assert FamilyOf(k, q);
        FamilyShown(v, nodes.Values, nodes[q], Objects(k[q]));
      }
    }

    lemma FamilyStays(v: View, k: Kids, p: Cid, l: seq<Cid>, q: Cid)
      requires Known(k) && v.Keys == nodes.Values && Shown(v, k)
      requires RestKept(v, p, l) && q in k && q != p && forall d | d in k[q] :: d !in l
      ensures FamilyOf(k, q)
    {
      hide FamilyIn, Closures.Family;
      var kids := Objects(k[q]);
      var v' := map x | x in nodes.Values :: LinksOf(x);
      forall c | c in kids ensures v'[c].left == v[c].left && v'[c].right == v[c].right {
        var i :| 0 <= i < |kids| && kids[i] == c;
        assert k[q][i] in k[q];
      }
      FamilyKept(v, v', nodes[q], kids);
      FamilyShown(v', nodes.Values, nodes[q], kids);
    }

    ghost predicate LooseIn(v: View, k: Kids)
      requires nodes.Values <= v.Keys && Known(k)
      reads this
    {
      forall d | d in k && !IsChild(k, d) :: v[nodes[d]].left == null && v[nodes[d]].right == null
    }

    lemma AllLoose(v: View, k: Kids)
      requires Mirrors(k) && IsView(v, nodes.Values)
      ensures LooseIn(v, k)
    {
      hide IsForest, IsChild, FamilyIn, Closures.Family;
      forall d | d in k && !IsChild(k, d) ensures v[nodes[d]].left == null && v[nodes[d]].right == null {
        assert Loose(d) && nodes[d] in nodes.Values;
      }
    }

    /** With one list changed and all others as they were, the lists mirror the changed tree. */
    lemma MirrorsAgain(v: View, k: Kids, k': Kids, p: Cid, c: Cid, l: seq<Cid>)
      requires Known(k) && v.Keys == nodes.Values && Shown(v, k) && LooseIn(v, k) && RestKept(v, p, l)
      requires Relinked(k, k', p, c, l) && c in k && Known(k') && FamilyOf(k', p) && (IsChild(k', c) || Loose(c))
      ensures Mirrors(k')
    {
      hide IsForest, IsChild, FamilyIn, Closures.Family;
      forall q | q in k' ensures FamilyOf(k', q) {
        if q != p {
          FamilyStays(v, k, p, l, q);
        }
      }
      forall d | d in k' && !IsChild(k', d) ensures Loose(d) {
        assert nodes[d] in nodes.Values;
      }
    }

    lemma MirrorsParts(k: Kids, p: Cid, v: View)
      requires Mirrors(k) && p in k && IsView(v, nodes.Values)
      ensures IsForest(k) && Known(k) && FamilyOf(k, p) && Shown(v, k) && LooseIn(v, k)
    {
      hide IsForest, IsChild, Shown, LooseIn, FamilyOf;
      AllShown(v, k);
      AllLoose(v, k);
    }

    /** A closure in no list becomes the youngest child of p. */
    method AddTo(p: Cid, c: Cid, ghost k: Kids)
      requires Mirrors(k) && p in k && c in k && c != p && !IsChild(k, c)
      modifies nodes.Values
      ensures Mirrors(k[p := k[p] + [c]])
    {
      hide Mirrors, IsForest, IsChild, Relinked, RestKept, Shown, LooseIn, FamilyOf, FamilyIn, Closures.Family;
      ghost var v, k' := map x | x in nodes.Values :: LinksOf(x), k[p := k[p] + [c]];
      MirrorsParts(k, p, v);
      LooseOf(k, c, v);
      JoinForest(k, p, c);
      LinkIn(p, c, k, v);
      MirrorsAgain(v, k, k', p, c, k[p] + [c]);
    }

    lemma LooseOf(k: Kids, c: Cid, v: View)
      requires Known(k) && c in k && !IsChild(k, c) && IsView(v, nodes.Values) && LooseIn(v, k)
      ensures Loose(c)
    {
      assert nodes[c] in nodes.Values;
    }

    /** The objects outside of one list keep their places, and all but its parent their children. */
    ghost predicate ObjectsKept(v: View, parent: Closures.Closure, kids: seq<Closures.Closure>)
      requires nodes.Values <= v.Keys
      reads this, nodes.Values
    {
      && (forall x | x in nodes.Values && x != parent ::
            x.rightMostChild == v[x].youngest && x.joinCounter == v[x].count)
      && (forall x | x in nodes.Values && x !in kids :: x.leftSib == v[x].left && x.rightSib == v[x].right)
    }

    lemma RestIsKept(v: View, k: Kids, p: Cid, l: seq<Cid>)
      requires Known(k) && p in k && nodes.Values <= v.Keys && forall c | c in l :: c in nodes
      requires ObjectsKept(v, nodes[p], Objects(l))
      ensures RestKept(v, p, l)
    {
      forall d | d in nodes && d !in l ensures nodes[d] !in Objects(l) {
        NotAmong(l, d);
      }
      assert forall q | q in nodes :: nodes[q] in nodes.Values;
    }

    lemma KnownWith(k: Kids, p: Cid, l: seq<Cid>)
      requires Known(k) && p in k && forall c | c in l :: c in nodes
      ensures Known(k[p := l])
    {
    }

    lemma ObjectsWithout(l: seq<Cid>, i: nat)
      requires i < |l| && forall c | c in l :: c in nodes
      ensures Objects(l[..i] + l[i + 1..]) == Objects(l)[..i] + Objects(l)[i + 1..]
    {
    }

    method LinkIn(p: Cid, c: Cid, ghost k: Kids, ghost v: View)
      requires Known(k) && p in k && c in k && c != p && c !in k[p] && FamilyOf(k, p) && Loose(c)
      requires IsView(v, nodes.Values)
      modifies nodes.Values
      ensures RestKept(v, p, k[p] + [c])
      ensures Known(k[p := k[p] + [c]]) && FamilyOf(k[p := k[p] + [c]], p)
    {
      hide Closures.Family, Objects, RestKept;
      ghost var kids := Objects(k[p]);
      NotAmong(k[p], c);
      Closures.AddChild(nodes[p], nodes[c], kids);
      assert Objects(k[p] + [c]) == kids + [nodes[c]];
      KnownWith(k, p, k[p] + [c]);
      RestIsKept(v, k, p, k[p] + [c]);
    }

    /** A child without children of its own leaves the list of p and is gone. */
    method RemoveFrom(p: Cid, c: Cid, ghost k: Kids)
      requires Mirrors(k) && p in k && c in k[p] && c in k && k[c] == []
      modifies this`nodes, nodes.Values
      ensures Mirrors(Cut(k, p, c))
      ensures nodes.Values <= old(nodes.Values)
    {
      ghost var k' := k[p := Remove(k[p], c)];
      Unlink(p, c, k);
      CutInTwo(k, p, c);
      DropLone(c, k');
    }

    method Unlink(p: Cid, c: Cid, ghost k: Kids)
      requires Mirrors(k) && p in k && c in k[p]
      modifies nodes.Values
      ensures Mirrors(k[p := Remove(k[p], c)])
    {
      hide Mirrors, IsForest, IsChild, Relinked, RestKept, Shown, LooseIn, FamilyOf, FamilyIn, Closures.Family;
      ghost var v, k' := map x | x in nodes.Values :: LinksOf(x), k[p := Remove(k[p], c)];
      MirrorsParts(k, p, v);
      ghost var i :| 0 <= i < |k[p]| && k[p][i] == c;
      CutForest(k, p, c, i);
      LinkOut(p, c, k, v, i);
      MirrorsAgain(v, k, k', p, c, k[p]);
    }

    method LinkOut(p: Cid, c: Cid, ghost k: Kids, ghost v: View, ghost i: nat)
      requires Known(k) && p in k && i < |k[p]| && k[p][i] == c && FamilyOf(k, p) && IsView(v, nodes.Values)
      requires Remove(k[p], c) == k[p][..i] + k[p][i + 1..]
      modifies nodes.Values
      ensures RestKept(v, p, k[p]) && Loose(c)
      ensures Known(k[p := Remove(k[p], c)]) && FamilyOf(k[p := Remove(k[p], c)], p)
    {
      hide Closures.Family, Remove, Objects, RestKept;
      ghost var kids := Objects(k[p]);
      Closures.RemoveChild(nodes[p], nodes[c], kids, i);
      ObjectsWithout(k[p], i);
      KnownWith(k, p, k[p][..i] + k[p][i + 1..]);
      RestIsKept(v, k, p, k[p]);
    }

    /** A closure without children that is in no list is gone. */
    method DropLone(c: Cid, ghost k: Kids)
      requires Mirrors(k) && c in k && k[c] == [] && !IsChild(k, c)
      modifies this`nodes
      ensures Mirrors(k - {c})
      ensures nodes.Values <= old(nodes.Values)
    {
      hide IsForest, IsChild, Closures.Family;
      ghost var k' := k - {c};
      DropForest(k, c);
      nodes := nodes - {c};
      forall q | q in k' ensures FamilyOf(k', q) {
        assert old(FamilyOf(k, q));
        assert Objects(k'[q]) == old(Objects(k[q]));
      }
      forall d | d in k' && !IsChild(k', d) ensures Loose(d) {
        assert old(Loose(d));
      }
    }

    /** One worker is about to run the root closure. */
    constructor (n: nat)
      requires n > 0
      ensures Mirrors(KidsOf(ClosureTree.Init(n))) && fresh(nodes.Values)
    {
      var root := new Closures.Closure();
      nodes := map[0 := root];
      new;
      EmptyFamily(root);
      assert Objects([]) == [];
    }

    /** The counter in the object is that of the tree: the number of children that have not returned. */
    lemma CountersAgree(s: State, p: Cid)
      requires Inv(s) && Mirrors(KidsOf(s)) && p in s.cs
      ensures nodes[p].joinCounter == s.cs[p].joinCounter == |s.cs[p].children|
    {
      assert Sees(s, p) && FamilyOf(KidsOf(s), p);
      hide Inv, Linked, Held;
    }

    /** The test of Closure_return for a left sibling finds the child that the tree calls the leftmost. */
    method IsLeftmost(p: Cid, c: Cid, ghost s: State) returns (b: bool)
      requires Mirrors(KidsOf(s)) && p in s.cs && c in s.cs[p].children
      ensures c in nodes && (b <==> c == s.cs[p].children[0])
    {
      ghost var k := KidsOf(s);
      assert FamilyOf(k, p);
      hide Closures.Family;
      ghost var i :| 0 <= i < |k[p]| && k[p][i] == c;
      assert Objects(k[p])[i] == nodes[c];
      b := Closures.IsLeftmost(nodes[p], nodes[c], Objects(k[p]));
    }

    /** Closure_return: the child leaves the list of its parent. */
    method Return(w: nat, s: State)
      requires Inv(s) && Enabled(s, ChildReturn(w)) && Mirrors(KidsOf(s))
      modifies this`nodes, nodes.Values
      ensures Mirrors(KidsOf(Apply(s, ChildReturn(w))))
      ensures fresh(nodes.Values - old(nodes.Values))
    {
      hide Inv, Mirrors, Apply;
      ReturnOnKids(s, w);
      var c := s.ws[w].mode.t;
      RemoveFrom(s.cs[c].spawnParent.value, c, KidsOf(s));
    }

    /** promote_child for the victim's own closure: it gets a child. */
    method StealOwn(thief: nat, victim: nat, s: State)
      requires Inv(s) && Enabled(s, StealSame(thief, victim)) && Mirrors(KidsOf(s))
      modifies this`nodes, nodes.Values
      ensures Mirrors(KidsOf(Apply(s, StealSame(thief, victim))))
      ensures fresh(nodes.Values - old(nodes.Values))
    {
      hide Inv, Mirrors, Apply;
      StealOnKids(s, thief, victim);
      var t, c := s.ws[victim].mode.t, s.nextC;
      AddLone(c, KidsOf(s));
      AddTo(t, c, KidsOf(s)[c := []]);
    }

    /** promote_child for a younger stacklet: a closure of its own gets a child. */
    method StealYounger(thief: nat, victim: nat, s: State)
      requires Inv(s) && Enabled(s, StealNew(thief, victim)) && Mirrors(KidsOf(s))
      modifies this`nodes, nodes.Values
      ensures Mirrors(KidsOf(Apply(s, StealNew(thief, victim))))
      ensures fresh(nodes.Values - old(nodes.Values))
    {
      hide Inv, Mirrors, Apply;
      PromoteOnKids(s, thief, victim);
      var y, c := s.nextC, s.nextC + 1;
      AddLone(y, KidsOf(s));
      AddLone(c, KidsOf(s)[y := []]);
      AddTo(y, c, KidsOf(s)[y := []][c := []]);
      assert [] + [c] == [c];
    }

    /** The objects take a step of the tree. */
    method Step(a: Action, s: State)
      requires Inv(s) && Enabled(s, a) && Mirrors(KidsOf(s))
      modifies this`nodes, nodes.Values
      ensures Mirrors(KidsOf(Apply(s, a)))
      ensures fresh(nodes.Values - old(nodes.Values))
    {
      hide Inv, Mirrors, Apply;
      if a.StealSame? {
        StealOwn(a.thief, a.victim, s);
      } else if a.StealNew? {
        StealYounger(a.thief, a.victim, s);
      } else if a.ChildReturn? {
        Return(a.w, s);
      } else if a.Link? {
        LinkOnKids(s, a.thief);
        AddLone(s.nextC, KidsOf(s));
      } else if a.SetReturn? {
        SetReturnOnKids(s, a.w);
        DropLone(s.ws[a.w].mode.t, KidsOf(s));
      } else {
        OthersOnKids(s, a);
      }
    }
  }

  /** Over any run, from the root on, the lists of siblings hold exactly the children that have not returned, and the
      counters count them. */
  method Play(n: nat, r: Trace) returns (f: Forest)
    requires IsRun(n, r)
    ensures f.Mirrors(KidsOf(r.states[|r.acts|]))
  {
    f := new Forest(n);
    for k := 0 to |r.acts|
      invariant fresh(f) && fresh(f.nodes.Values) && f.Mirrors(KidsOf(r.states[k]))
    {
      RunKeepsInv(n, r, k);
      assert StepOf(r.states[k], r.acts[k], r.states[k + 1]);
      f.Step(r.acts[k], r.states[k]);
    }
  }
}
