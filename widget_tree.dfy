// The parent/child hierarchy between widgets: the `children` and `parents`
// id sets of every widget, the reachability walk behind isAncestorOf and
// getDescendants, and linking and unlinking.

module WidgetTree {
  import opened Wrappers

  /** The ids the widget manager knows, and every widget's children and parents. */
  datatype Tree = Tree(widgets: set<string>, children: map<string, set<string>>, parents: map<string, set<string>>)

  function ChildrenOf(t: Tree, w: string): set<string>
  {
    if w in t.children then t.children[w] else {}
  }

  function ParentsOf(t: Tree, w: string): set<string>
  {
    if w in t.parents then t.parents[w] else {}
  }

  /** The children a walk can continue from: those the widget manager can look up. */
  function Kids(t: Tree, w: string): set<string>
  {
    ChildrenOf(t, w) * t.widgets
  }

  /** b is reached from a in exactly n steps through known children. */
  ghost predicate Reaches(t: Tree, a: string, b: string, n: nat)
    decreases n
  {
    if n == 0 then a == b
    else exists p :: Reaches(t, a, p, n - 1) && b in Kids(t, p)
  }

  ghost predicate Reachable(t: Tree, a: string, b: string)
  {
    exists n :: Reaches(t, a, b, n)
  }

  /** No widget reaches itself in one step or more. */
  ghost predicate Acyclic(t: Tree)
  {
    forall w, n :: n >= 1 ==> !Reaches(t, w, w, n)
  }

  /** children and parents mirror each other. */
  ghost predicate Mirrored(t: Tree)
  {
    forall p, c :: c in ChildrenOf(t, p) <==> p in ParentsOf(t, c)
  }

  lemma ReachStep(t: Tree, a: string, p: string, n: nat, c: string)
    requires Reaches(t, a, p, n) && c in Kids(t, p)
    ensures Reaches(t, a, c, n + 1)
  {
    assert Reaches(t, a, p, (n + 1) - 1);
  }

  lemma {:induction false} ReachesTrans(t: Tree, a: string, b: string, c: string, m: nat, n: nat)
    requires Reaches(t, a, b, m) && Reaches(t, b, c, n)
    ensures Reaches(t, a, c, m + n)
    decreases n
  {
    if n > 0 {
      var q :| Reaches(t, b, q, n - 1) && c in Kids(t, q);
      ReachesTrans(t, a, b, q, m, n - 1);
      ReachStep(t, a, q, m + n - 1, c);
    }
  }

  /** Reachability is transitive. */
  lemma ReachableTrans(t: Tree, a: string, b: string, c: string)
    ensures Reachable(t, a, b) && Reachable(t, b, c) ==> Reachable(t, a, c)
  {
    if Reachable(t, a, b) && Reachable(t, b, c) {
      var m :| Reaches(t, a, b, m);
      var n :| Reaches(t, b, c, n);
      ReachesTrans(t, a, b, c, m, n);
    }
  }

  /** A set that holds a and every known child of its members holds everything a reaches. */
  lemma {:induction false} ClosedHoldsReached(t: Tree, s: set<string>, a: string, b: string, n: nat)
    requires a in s
    requires forall v, c :: v in s && c in Kids(t, v) ==> c in s
    requires Reaches(t, a, b, n)
    ensures b in s
    decreases n
  {
    if n > 0 {
      var p :| Reaches(t, a, p, n - 1) && b in Kids(t, p);
      ClosedHoldsReached(t, s, a, p, n - 1);
    }
  }

  // ------------------------------------------------------------- link/unlink

  /** children.add(child) on the parent and parents.add(parent) on the child. */
  function Link(t: Tree, p: string, c: string): Tree
  {
    t.(children := t.children[p := ChildrenOf(t, p) + {c}],
       parents := t.parents[c := ParentsOf(t, c) + {p}])
  }

  /** children.delete(child) on the parent and parents.delete(parent) on the child. */
  function Unlink(t: Tree, p: string, c: string): Tree
  {
    t.(children := t.children[p := ChildrenOf(t, p) - {c}],
       parents := t.parents[c := ParentsOf(t, c) - {p}])
  }

  /**
   * Linking and unlinking keep children and parents mirrored; afterwards the
   * link is present (resp. absent) in both directions and every other
   * widget's sets are unchanged.
   */
  lemma LinkSpec(t: Tree, p: string, c: string)
    requires Mirrored(t)
    ensures var r := Link(t, p, c);
      && Mirrored(r) && c in ChildrenOf(r, p) && p in ParentsOf(r, c)
      && (forall w :: w != p ==> ChildrenOf(r, w) == ChildrenOf(t, w))
      && (forall w :: w != c ==> ParentsOf(r, w) == ParentsOf(t, w))
      && ChildrenOf(r, p) == ChildrenOf(t, p) + {c} && r.widgets == t.widgets
  {
    var r := Link(t, p, c);
    forall x, y
      ensures y in ChildrenOf(r, x) <==> x in ParentsOf(r, y)
    {
      assert y in ChildrenOf(t, x) <==> x in ParentsOf(t, y);
    }
  }

  lemma UnlinkSpec(t: Tree, p: string, c: string)
    requires Mirrored(t)
    ensures var r := Unlink(t, p, c);
      && Mirrored(r) && c !in ChildrenOf(r, p) && p !in ParentsOf(r, c)
      && (forall w :: w != p ==> ChildrenOf(r, w) == ChildrenOf(t, w))
      && (forall w :: w != c ==> ParentsOf(r, w) == ParentsOf(t, w))
      && ChildrenOf(r, p) == ChildrenOf(t, p) - {c} && r.widgets == t.widgets
  {
    var r := Unlink(t, p, c);
    forall x, y
      ensures y in ChildrenOf(r, x) <==> x in ParentsOf(r, y)
    {
      assert y in ChildrenOf(t, x) <==> x in ParentsOf(t, y);
    }
  }

  /** Linking then unlinking a link that was not there gives back the same sets. */
  lemma LinkUnlink(t: Tree, p: string, c: string)
    requires Mirrored(t) && c !in ChildrenOf(t, p)
    ensures forall w :: ChildrenOf(Unlink(Link(t, p, c), p, c), w) == ChildrenOf(t, w)
    ensures forall w :: ParentsOf(Unlink(Link(t, p, c), p, c), w) == ParentsOf(t, w)
  {
  }

  /** Every path after linking p to c is an old path, or runs from an old path to p, then on from c. */
  lemma {:induction false} LinkPaths(t: Tree, p: string, c: string, x: string, y: string, n: nat)
    ensures Reaches(Link(t, p, c), x, y, n) ==> Reaches(t, x, y, n) || (Reachable(t, x, p) && Reachable(t, c, y))
    decreases n
  {
    var r := Link(t, p, c);
    if n > 0 && Reaches(r, x, y, n) {
      var q :| Reaches(r, x, q, n - 1) && y in Kids(r, q);
      LinkPaths(t, p, c, x, q, n - 1);
      if y in Kids(t, q) {
        if Reaches(t, x, q, n - 1) {
          ReachStep(t, x, q, n - 1, y);
        } else {
          var m :| Reaches(t, c, q, m);
          ReachStep(t, c, q, m, y);
        }
      } else {
        assert q == p && y == c;
        assert Reaches(t, c, y, 0);
      }
    }
  }

  /** Linking p to c, when c does not reach p, keeps an acyclic tree acyclic. */
  lemma LinkKeepsAcyclic(t: Tree, p: string, c: string)
    requires Acyclic(t) && !Reachable(t, c, p)
    ensures Acyclic(Link(t, p, c))
  {
    var r := Link(t, p, c);
    forall w, n: nat | n >= 1
      ensures !Reaches(r, w, w, n)
    {
      LinkPaths(t, p, c, w, w, n);
      ReachableTrans(t, c, w, p);
    }
  }

  // --------------------------------------------------------------- addChild

  /**
   * addChild as written: refused for no widget, for itself, and when the
   * child is already reachable from the parent; the parent being reachable
   * from the child is not checked.
   */
  ghost function WithChildAsWritten(t: Tree, p: string, c: Option<string>): (Tree, bool)
  {
    if c.None? || c.value == p || Reachable(t, p, c.value) then (t, false)
    else (Link(t, p, c.value), true)
  }

  /** addChild with the cycle check the comment asks for: refused when the child reaches the parent. */
  ghost function WithChild(t: Tree, p: string, c: Option<string>): (Tree, bool)
  {
    if c.None? || c.value == p || Reachable(t, c.value, p) then (t, false)
    else (Link(t, p, c.value), true)
  }

  const TwoWidgets := Tree({"a", "b"}, map["a" := {"b"}, "b" := {}], map["a" := {}, "b" := {"a"}])

  lemma TwoWidgetsFromB(y: string, n: nat)
    ensures Reaches(TwoWidgets, "b", y, n) ==> y == "b" && n == 0
  {
    if n >= 1 {
      // only a has a child, and nothing leads back to a
      TwoWidgetsInto("b", "a", n - 1);
      assert forall p :: "b" in Kids(TwoWidgets, p) ==> p == "a";
    }
  }

  lemma TwoWidgetsAcyclic()
    ensures Acyclic(TwoWidgets)
  {
    forall w, n: nat | n >= 1
      ensures !Reaches(TwoWidgets, w, w, n)
    {
      TwoWidgetsFromB(w, n);
      TwoWidgetsInto(w, w, n);
    }
  }

  /** Every step in the two-widget tree ends at b. */
  lemma TwoWidgetsInto(x: string, y: string, n: nat)
    ensures Reaches(TwoWidgets, x, y, n) && n >= 1 ==> y == "b"
  {
    if Reaches(TwoWidgets, x, y, n) && n >= 1 {
      var q :| Reaches(TwoWidgets, x, q, n - 1) && y in Kids(TwoWidgets, q);
    }
  }

  /**
   * The as-written check lets widget b, the child of a, take a as its child:
   * the call succeeds on an acyclic tree and leaves a reaching itself.
   */
  lemma AddChildAsWrittenCycle()
    ensures Acyclic(TwoWidgets)
    ensures var (r, added) := WithChildAsWritten(TwoWidgets, "b", Some("a"));
      added && !Acyclic(r)
  {
    TwoWidgetsAcyclic();
    TwoWidgetsFromB("a", 0);
    forall n: nat ensures !Reaches(TwoWidgets, "b", "a", n) {
      TwoWidgetsFromB("a", n);
    }
    var r := Link(TwoWidgets, "b", "a");
    assert Reaches(r, "a", "a", 0);
    ReachStep(r, "a", "a", 0, "b");
    ReachStep(r, "a", "b", 1, "a");
  }

  /**
   * addChild (with the cycle check) refuses no widget and itself, refuses
   * exactly when the child reaches the parent, otherwise links both ways,
   * and keeps the tree acyclic and mirrored.
   */
  lemma AddChildSpec(t: Tree, p: string, c: Option<string>)
    requires Acyclic(t) && Mirrored(t)
    ensures var (r, added) := WithChild(t, p, c);
      && Acyclic(r) && Mirrored(r)
      && (added <==> c.Some? && c.value != p && !Reachable(t, c.value, p))
      && (!added ==> r == t)
      && (added ==> c.value in ChildrenOf(r, p) && p in ParentsOf(r, c.value))
  {
    if c.Some? && c.value != p && !Reachable(t, c.value, p) {
      LinkKeepsAcyclic(t, p, c.value);
      LinkSpec(t, p, c.value);
    }
  }

  /** removeChild: no widget changes nothing; otherwise the link is gone in both directions. */
  function WithoutChild(t: Tree, p: string, c: Option<string>): Tree
  {
    if c.None? then t else Unlink(t, p, c.value)
  }

  /** Removing links never creates a path, so removeChild keeps the tree acyclic. */
  lemma {:induction false} UnlinkPaths(t: Tree, p: string, c: string, x: string, y: string, n: nat)
    ensures Reaches(Unlink(t, p, c), x, y, n) ==> Reaches(t, x, y, n)
    decreases n
  {
    var r := Unlink(t, p, c);
    if n > 0 && Reaches(r, x, y, n) {
      var q :| Reaches(r, x, q, n - 1) && y in Kids(r, q);
      UnlinkPaths(t, p, c, x, q, n - 1);
      ReachStep(t, x, q, n - 1, y);
    }
  }

  lemma RemoveChildSpec(t: Tree, p: string, c: Option<string>)
    requires Acyclic(t) && Mirrored(t)
    ensures var r := WithoutChild(t, p, c);
      && Acyclic(r) && Mirrored(r)
      && (c.None? ==> r == t)
      && (c.Some? ==> c.value !in ChildrenOf(r, p) && p !in ParentsOf(r, c.value))
  {
    if c.Some? {
      UnlinkSpec(t, p, c.value);
      forall w, n: nat | n >= 1
        ensures !Reaches(WithoutChild(t, p, c), w, w, n)
      {
        UnlinkPaths(t, p, c.value, w, w, n);
      }
    }
  }

  // ---------------------------------------------------------- getDescendants

  /** Every child id of every widget. */
  function AllChildIds(t: Tree): set<string>
  {
    set p, c | p in t.children && c in t.children[p] :: c
  }

  /** The child ids of every widget reached from w (w itself included). */
  ghost function ReachedChildIds(t: Tree, w: string): set<string>
  {
    set p, c | p in t.children && c in t.children[p] && Reachable(t, w, p) :: c
  }

  /** getDescendants: the child ids of every widget reached from w, without w itself. */
  ghost function Descendants(t: Tree, w: string): set<string>
  {
    ReachedChildIds(t, w) - {w}
  }

  class Hierarchy {
    var widgets: set<string>
    var children: map<string, set<string>>
    var parents: map<string, set<string>>

    function State(): Tree
      reads this
    {
      Tree(widgets, children, parents)
    }

    constructor ()
      ensures State() == Tree({}, map[], map[])
    {
      widgets, children, parents := {}, map[], map[];
    }

    /** A new widget with empty children and parents. */
    method Register(w: string)
      modifies this
      requires w !in widgets
      ensures widgets == old(widgets) + {w}
      ensures children == old(children)[w := {}] && parents == old(parents)[w := {}]
    {
      widgets := widgets + {w};
      children := children[w := {}];
      parents := parents[w := {}];
    }

    /**
     * addChild, with the cycle check the source intends: the link is refused
     * when the parent is reachable from the child (the source asks whether
     * the child is reachable from the parent instead).
     */
    method AddChild(parent: string, child: Option<string>) returns (added: bool)
      modifies this
      ensures (State(), added) == WithChild(old(State()), parent, child)
    {
      if child.None? || child.value == parent {
        return false;
      }
      var cycle := IsAncestorOf(child.value, parent);
      if cycle {
        return false;
      }
      children := children[parent := ChildrenOf(State(), parent) + {child.value}];
      parents := parents[child.value := ParentsOf(State(), child.value) + {parent}];
      return true;
    }

    /** removeChild. */
    method RemoveChild(parent: string, child: Option<string>)
      modifies this
      ensures State() == WithoutChild(old(State()), parent, child)
    {
      if child.None? {
        return;
      }
      children := children[parent := ChildrenOf(State(), parent) - {child.value}];
      parents := parents[child.value := ParentsOf(State(), child.value) - {parent}];
    }

    /** isAncestorOf: whether b is reachable from a (a itself included), by a depth-first walk. */
    method IsAncestorOf(a: string, b: string) returns (r: bool)
      ensures r <==> Reachable(State(), a, b)
    {
      var t := State();
      var visited: set<string> := {};
      var stack: set<string> := {a};
      AncestorWalkStart(t, a, b);
      while stack != {}
        invariant AncestorWalk(t, a, b, visited, stack)
        decreases |t.widgets + {a} - visited|, |stack|
      {
        var current :| current in stack;
        stack := stack - {current};
        if current == b {
          return true;
        }
        if current in visited {
          continue;
        }
        AncestorWalkStep(t, a, b, visited, stack + {current}, current);
        visited := visited + {current};
        stack := stack + Kids(t, current);
      }
      AncestorWalkEnd(t, a, b, visited);
      return false;
    }

    /** getDescendants, as a set of ids (the order of Array.from is not modelled). */
    method GetDescendants(w: string) returns (r: set<string>)
      ensures r == Descendants(State(), w)
      ensures w !in r && r <= AllChildIds(State())
    {
      var t := State();
      var result: set<string> := {};
      var stack: set<string> := {w};
      DescendantWalkStart(t, w);
      while stack != {}
        invariant DescendantWalk(t, w, result, stack)
        decreases |AllChildIds(t) - result|, |stack|
      {
        var current :| current in stack;
        DescendantWalkStep(t, w, result, stack, current);
        stack := stack - {current};
        var added := ChildrenOf(t, current) - result;
        result := result + added;
        stack := stack + added * t.widgets;
      }
      DescendantsClosed(t, w, result);
      r := result - {w};
    }
  }

  /** The isAncestorOf walk: what is visited or pending is reachable, b is not visited, and visiting is closed. */
  ghost predicate AncestorWalk(t: Tree, a: string, b: string, visited: set<string>, stack: set<string>)
  {
    && visited <= t.widgets + {a} && stack <= t.widgets + {a}
    && (forall x :: x in stack ==> Reachable(t, a, x))
    && (forall x :: x in visited ==> Reachable(t, a, x))
    && b !in visited
    && (a in visited || a in stack)
    && (forall v, c :: v in visited && c in Kids(t, v) ==> c in visited || c in stack)
  }

  lemma AncestorWalkStart(t: Tree, a: string, b: string)
    ensures AncestorWalk(t, a, b, {}, {a})
  {
    assert Reaches(t, a, a, 0);
  }

  lemma AncestorWalkStep(t: Tree, a: string, b: string, visited: set<string>, stack: set<string>, current: string)
    requires AncestorWalk(t, a, b, visited, stack)
    requires current in stack && current != b && current !in visited
    ensures AncestorWalk(t, a, b, visited + {current}, (stack - {current}) + Kids(t, current))
    ensures |t.widgets + {a} - (visited + {current})| < |t.widgets + {a} - visited|
  {
    forall c | c in Kids(t, current)
      ensures Reachable(t, a, c)
    {
      var n :| Reaches(t, a, current, n);
      ReachStep(t, a, current, n, c);
    }
    var all := t.widgets + {a};
    assert all - visited == (all - (visited + {current})) + {current};
  }

  lemma AncestorWalkEnd(t: Tree, a: string, b: string, visited: set<string>)
    requires AncestorWalk(t, a, b, visited, {})
    ensures !Reachable(t, a, b)
  {
    forall n: nat
      ensures !Reaches(t, a, b, n)
    {
      if Reaches(t, a, b, n) {
        ClosedHoldsReached(t, visited, a, b, n);
      }
    }
  }

  lemma ChildrenInAll(t: Tree, p: string)
    ensures ChildrenOf(t, p) <= AllChildIds(t)
  {
    forall c | c in ChildrenOf(t, p)
      ensures c in AllChildIds(t)
    {
      assert p in t.children && c in t.children[p];
    }
  }

  /** The getDescendants walk: results are child ids of reached widgets, and every finished widget's children are in. */
  ghost predicate DescendantWalk(t: Tree, w: string, result: set<string>, stack: set<string>)
  {
    && result <= AllChildIds(t)
    && PendingReached(t, w, stack)
    && (forall x :: x in result ==> x in ReachedChildIds(t, w))
    && WalkClosed(t, w, result, stack)
  }

  ghost predicate PendingReached(t: Tree, w: string, stack: set<string>)
  {
    forall x :: x in stack ==> Reachable(t, w, x) && (x == w || x in t.widgets)
  }

  /** Every known widget met so far (and w) is still pending or has all its children in the result. */
  ghost predicate WalkClosed(t: Tree, w: string, result: set<string>, stack: set<string>)
  {
    forall x :: (x == w || (x in result && x in t.widgets)) ==> x in stack || ChildrenOf(t, x) <= result
  }

  lemma DescendantWalkStart(t: Tree, w: string)
    ensures DescendantWalk(t, w, {}, {w})
  {
    assert Reaches(t, w, w, 0);
  }

  lemma DescendantWalkStep(t: Tree, w: string, result: set<string>, stack: set<string>, current: string)
    requires DescendantWalk(t, w, result, stack) && current in stack
    ensures var added := ChildrenOf(t, current) - result;
      && DescendantWalk(t, w, result + added, (stack - {current}) + added * t.widgets)
      && (added == {} ==> |(stack - {current}) + added * t.widgets| < |stack|)
      && (added != {} ==> |AllChildIds(t) - (result + added)| < |AllChildIds(t) - result|)
  {
    var added := ChildrenOf(t, current) - result;
    DescendantWalkAdded(t, w, result, stack, current);
    WalkClosedStep(t, w, result, stack, current);
    var stack' := (stack - {current}) + added * t.widgets;
    assert PendingReached(t, w, stack');
    if added != {} {
      var all := AllChildIds(t);
      assert all - result == (all - (result + added)) + added;
    } else {
      assert stack' == stack - {current};
    }
  }

  lemma WalkClosedStep(t: Tree, w: string, result: set<string>, stack: set<string>, current: string)
    requires WalkClosed(t, w, result, stack) && current in stack
    ensures var added := ChildrenOf(t, current) - result;
      WalkClosed(t, w, result + added, (stack - {current}) + added * t.widgets)
  {
    var added := ChildrenOf(t, current) - result;
    var result', stack' := result + added, (stack - {current}) + added * t.widgets;
    forall x | x == w || (x in result' && x in t.widgets)
      ensures x in stack' || ChildrenOf(t, x) <= result'
    {
      if x != current && x !in added {
        assert x in stack || ChildrenOf(t, x) <= result;
      }
    }
  }

  /** The ids a step adds are child ids of a reached widget, and those it pushes are reached. */
  lemma DescendantWalkAdded(t: Tree, w: string, result: set<string>, stack: set<string>, current: string)
    requires DescendantWalk(t, w, result, stack) && current in stack
    ensures forall c :: c in ChildrenOf(t, current) ==> c in ReachedChildIds(t, w) && c in AllChildIds(t)
    ensures forall c :: c in Kids(t, current) ==> Reachable(t, w, c)
  {
    ChildrenInAll(t, current);
    var n :| Reaches(t, w, current, n);
    forall c | c in ChildrenOf(t, current)
      ensures c in ReachedChildIds(t, w)
    {
      assert current in t.children && c in t.children[current];
    }
    forall c | c in Kids(t, current)
      ensures Reachable(t, w, c)
    {
      ReachStep(t, w, current, n, c);
    }
  }

  /** The end of the walk: a result closed under children of the widgets reached is exactly the descendants. */
  lemma DescendantsClosed(t: Tree, w: string, result: set<string>)
    requires DescendantWalk(t, w, result, {})
    ensures result - {w} == Descendants(t, w)
  {
    forall p, n: nat | Reaches(t, w, p, n)
      ensures ChildrenOf(t, p) <= result
    {
      ReachedExpanded(t, w, result, p, n);
    }
  }

  lemma {:induction false} ReachedExpanded(t: Tree, w: string, result: set<string>, p: string, n: nat)
    requires forall x :: (x == w || (x in result && x in t.widgets)) ==> ChildrenOf(t, x) <= result
    requires Reaches(t, w, p, n)
    ensures ChildrenOf(t, p) <= result
    decreases n
  {
    if n > 0 {
      var q :| Reaches(t, w, q, n - 1) && p in Kids(t, q);
      ReachedExpanded(t, w, result, q, n - 1);
    }
  }
}
