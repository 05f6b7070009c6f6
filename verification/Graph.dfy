// The derivation graph between memory versions: reachability, the work-list form of
// the recursive queries that compute it, and what keeps the graph acyclic.
module Graph {
  import opened Ids

  datatype Edge = Edge(parent: Id, child: Id)

  /** A walk of length + 1 edges from one node to another. */
  ghost predicate Walk(edges: set<Edge>, from: Id, to: Id, length: nat)
    decreases length
  {
    if length == 0 then
      Edge(from, to) in edges
    else
      exists next :: Edge(from, next) in edges && Walk(edges, next, to, length - 1)
  }

  /** to is a strict descendant of from. */
  ghost predicate Reaches(edges: set<Edge>, from: Id, to: Id) {
    exists length: nat :: Walk(edges, from, to, length)
  }

  ghost predicate Acyclic(edges: set<Edge>) {
    forall v :: !Reaches(edges, v, v)
  }

  ghost predicate ReachedFrom(edges: set<Edge>, seeds: set<Id>, v: Id) {
    v in seeds || exists s :: s in seeds && Reaches(edges, s, v)
  }

  ghost predicate ClosedUnder(edges: set<Edge>, nodes: set<Id>) {
    forall e :: e in edges && e.parent in nodes ==> e.child in nodes
  }

  lemma EdgeReaches(edges: set<Edge>, from: Id, to: Id)
    requires Edge(from, to) in edges
    ensures Reaches(edges, from, to)
  {
    assert Walk(edges, from, to, 0);
  }

  lemma {:induction false} WalkJoins(edges: set<Edge>, a: Id, b: Id, c: Id, i: nat, j: nat)
    requires Walk(edges, a, b, i) && Walk(edges, b, c, j)
    ensures Walk(edges, a, c, i + j + 1)
    decreases i
  {
    if i > 0 {
      var next :| Edge(a, next) in edges && Walk(edges, next, b, i - 1);
      WalkJoins(edges, next, b, c, i - 1, j);
    }
  }

  lemma ReachesTransitive(edges: set<Edge>, a: Id, b: Id, c: Id)
    requires Reaches(edges, a, b) && Reaches(edges, b, c)
    ensures Reaches(edges, a, c)
  {
    var i: nat :| Walk(edges, a, b, i);
    var j: nat :| Walk(edges, b, c, j);
    WalkJoins(edges, a, b, c, i, j);
  }

  lemma {:induction false} WalkWithin(edges: set<Edge>, nodes: set<Id>, a: Id, b: Id, length: nat)
    requires Walk(edges, a, b, length) && ClosedUnder(edges, nodes)
    requires a in nodes || (forall e :: e in edges && e.parent == a ==> e.child in nodes)
    ensures b in nodes
    decreases length
  {
    if length > 0 {
      var next :| Edge(a, next) in edges && Walk(edges, next, b, length - 1);
      WalkWithin(edges, nodes, next, b, length - 1);
    }
  }

  /** A set closed under children holds every descendant of a node whose children it holds. */
  lemma ReachesWithin(edges: set<Edge>, nodes: set<Id>, a: Id, b: Id)
    requires Reaches(edges, a, b) && ClosedUnder(edges, nodes)
    requires a in nodes || (forall e :: e in edges && e.parent == a ==> e.child in nodes)
    ensures b in nodes
  {
    var length: nat :| Walk(edges, a, b, length);
    WalkWithin(edges, nodes, a, b, length);
  }

  lemma {:induction false} WalkMonotone(small: set<Edge>, large: set<Edge>, a: Id, b: Id, length: nat)
    requires small <= large && Walk(small, a, b, length)
    ensures Walk(large, a, b, length)
    decreases length
  {
    if length > 0 {
      var next :| Edge(a, next) in small && Walk(small, next, b, length - 1);
      WalkMonotone(small, large, next, b, length - 1);
    }
  }

  lemma ReachesMonotone(small: set<Edge>, large: set<Edge>, a: Id, b: Id)
    requires small <= large && Reaches(small, a, b)
    ensures Reaches(large, a, b)
  {
    var length: nat :| Walk(small, a, b, length);
    WalkMonotone(small, large, a, b, length);
  }

  /** Removing edges, as a purge does, keeps a graph acyclic. */
  lemma AcyclicSubset(small: set<Edge>, large: set<Edge>)
    requires small <= large && Acyclic(large)
    ensures Acyclic(small)
  {
    forall v ensures !Reaches(small, v, v) {
      if Reaches(small, v, v) {
        ReachesMonotone(small, large, v, v);
      }
    }
  }

  lemma {:induction false} WalkEndpoints(edges: set<Edge>, a: Id, b: Id, length: nat)
    requires Walk(edges, a, b, length)
    ensures exists e :: e in edges && e.parent == a
    ensures exists e :: e in edges && e.child == b
    decreases length
  {
    if length == 0 {
      assert Edge(a, b).parent == a && Edge(a, b).child == b;
    } else {
      var next :| Edge(a, next) in edges && Walk(edges, next, b, length - 1);
      assert Edge(a, next).parent == a;
      WalkEndpoints(edges, next, b, length - 1);
    }
  }

  // ----- A fresh version with edges from existing versions -----

  ghost function EdgesInto(parents: set<Id>, child: Id): set<Edge> {
    set p | p in parents :: Edge(p, child)
  }

  ghost predicate Fresh(edges: set<Edge>, node: Id) {
    forall e :: e in edges ==> e.parent != node && e.child != node
  }

  lemma {:induction false} WalkAvoidsFresh(edges: set<Edge>, parents: set<Id>, node: Id, a: Id, b: Id, length: nat)
    requires Fresh(edges, node) && node !in parents
    requires Walk(edges + EdgesInto(parents, node), a, b, length)
    ensures a != node
    ensures b != node ==> Walk(edges, a, b, length)
    ensures b == node ==> a in parents || exists p :: p in parents && Reaches(edges, a, p)
    decreases length
  {
    var all := edges + EdgesInto(parents, node);
    if length > 0 {
      var next :| Edge(a, next) in all && Walk(all, next, b, length - 1);
      WalkAvoidsFresh(edges, parents, node, next, b, length - 1);
      assert Edge(a, next) in edges;
      if b == node {
        EdgeReaches(edges, a, next);
        if next !in parents {
          var p :| p in parents && Reaches(edges, next, p);
          ReachesTransitive(edges, a, next, p);
        }
      }
    }
  }

  /** New edges that all end at a fresh node add no path between old nodes and no cycle. */
  lemma FreshSink(edges: set<Edge>, parents: set<Id>, node: Id)
    requires Fresh(edges, node) && node !in parents
    ensures forall b :: !Reaches(edges + EdgesInto(parents, node), node, b)
    ensures forall a, b :: b != node ==>
      (Reaches(edges + EdgesInto(parents, node), a, b) <==> Reaches(edges, a, b))
    ensures forall a :: Reaches(edges + EdgesInto(parents, node), a, node) ==>
      a in parents || exists p :: p in parents && Reaches(edges, a, p)
    ensures Acyclic(edges) ==> Acyclic(edges + EdgesInto(parents, node))
  {
    var all := edges + EdgesInto(parents, node);
    forall b ensures !Reaches(all, node, b) {
      if Reaches(all, node, b) {
        var length: nat :| Walk(all, node, b, length);
        WalkAvoidsFresh(edges, parents, node, node, b, length);
      }
    }
    forall a, b | b != node ensures Reaches(all, a, b) <==> Reaches(edges, a, b) {
      if Reaches(all, a, b) {
        var length: nat :| Walk(all, a, b, length);
        WalkAvoidsFresh(edges, parents, node, a, b, length);
      } else if Reaches(edges, a, b) {
        ReachesMonotone(edges, all, a, b);
      }
    }
    forall a | Reaches(all, a, node)
      ensures a in parents || exists p :: p in parents && Reaches(edges, a, p)
    {
      var length: nat :| Walk(all, a, node, length);
      WalkAvoidsFresh(edges, parents, node, a, node, length);
    }
    if Acyclic(edges) {
      forall v ensures !Reaches(all, v, v) {
        assert v != node ==> (Reaches(all, v, v) <==> Reaches(edges, v, v));
      }
    }
  }

  // ----- Two graphs over separate nodes -----

  ghost predicate Within(edges: set<Edge>, nodes: set<Id>) {
    forall e :: e in edges ==> e.parent in nodes && e.child in nodes
  }

  lemma {:induction false} WalkStaysSeparate(left: set<Edge>, right: set<Edge>, nodes: set<Id>, a: Id, b: Id, length: nat)
    requires Within(right, nodes)
    requires forall e :: e in left ==> e.parent !in nodes && e.child !in nodes
    requires Walk(left + right, a, b, length)
    ensures if a in nodes then Walk(right, a, b, length) else Walk(left, a, b, length)
    decreases length
  {
    if length == 0 {
      assert Edge(a, b) in left + right;
      assert Edge(a, b).parent == a;
    } else {
      var next :| Edge(a, next) in left + right && Walk(left + right, next, b, length - 1);
      assert Edge(a, next).parent == a && Edge(a, next).child == next;
      WalkStaysSeparate(left, right, nodes, next, b, length - 1);
    }
  }

  lemma ReachesStaysSeparate(left: set<Edge>, right: set<Edge>, nodes: set<Id>, a: Id, b: Id)
    requires Within(right, nodes)
    requires forall e :: e in left ==> e.parent !in nodes && e.child !in nodes
    requires Reaches(left + right, a, b)
    ensures if a in nodes then Reaches(right, a, b) else Reaches(left, a, b)
  {
    var length: nat :| Walk(left + right, a, b, length);
    WalkStaysSeparate(left, right, nodes, a, b, length);
  }

  /** Joining acyclic graphs over separate nodes, as an import does, gives an acyclic graph. */
  lemma AcyclicUnion(left: set<Edge>, right: set<Edge>, nodes: set<Id>)
    requires Acyclic(left) && Acyclic(right) && Within(right, nodes)
    requires forall e :: e in left ==> e.parent !in nodes && e.child !in nodes
    ensures Acyclic(left + right)
  {
    forall v ensures !Reaches(left + right, v, v) {
      if Reaches(left + right, v, v) {
        ReachesStaysSeparate(left, right, nodes, v, v);
      }
    }
  }

  // ----- WITH RECURSIVE ... UNION, row by row -----

  /** The rows a recursive query collects: the seeds and everything reachable from them. */
  method Closure(edges: set<Edge>, seeds: set<Id>) returns (rows: set<Id>)
    ensures forall v :: v in rows <==> ReachedFrom(edges, seeds, v)
  {
    rows := seeds;
    var queue := seeds;
    ghost var all := seeds + set e | e in edges :: e.child;
    while queue != {}
      invariant seeds <= rows && queue <= rows <= all
      invariant forall v :: v in rows ==> ReachedFrom(edges, seeds, v)
      invariant forall e :: e in edges && e.parent in rows && e.parent !in queue ==> e.child in rows
      decreases all - rows, queue
    {
      var x :| x in queue;
      var unseen := set e | e in edges && e.parent == x && e.child !in rows :: e.child;
      forall v | v in unseen ensures ReachedFrom(edges, seeds, v) {
        EdgeReaches(edges, x, v);
        if x !in seeds {
          var s :| s in seeds && Reaches(edges, s, x);
          ReachesTransitive(edges, s, x, v);
        }
      }
      forall e | e in edges && e.parent == x ensures e.child in rows + unseen {
      }
      queue := queue - {x} + unseen;
      rows := rows + unseen;
    }
    forall v | ReachedFrom(edges, seeds, v) ensures v in rows {
      if v !in seeds {
        var s :| s in seeds && Reaches(edges, s, v);
        ReachesWithin(edges, rows, s, v);
      }
    }
  }

  /** The recursive query seeded with the children of one version: its strict descendants. */
  method Descendants(edges: set<Edge>, parent: Id) returns (rows: set<Id>)
    ensures forall v :: v in rows <==> Reaches(edges, parent, v)
  {
    var children := set e | e in edges && e.parent == parent :: e.child;
    rows := Closure(edges, children);
    forall v ensures v in rows <==> Reaches(edges, parent, v) {
      if v in children {
        EdgeReaches(edges, parent, v);
      } else if v in rows {
        var s :| s in children && Reaches(edges, s, v);
        EdgeReaches(edges, parent, s);
        ReachesTransitive(edges, parent, s, v);
      }
      if Reaches(edges, parent, v) {
        FirstChild(edges, parent, v);
      }
    }
  }

  lemma FirstChild(edges: set<Edge>, a: Id, b: Id)
    requires Reaches(edges, a, b)
    ensures Edge(a, b) in edges || exists s :: Edge(a, s) in edges && Reaches(edges, s, b)
  {
    var length: nat :| Walk(edges, a, b, length);
    if length > 0 {
      var next :| Edge(a, next) in edges && Walk(edges, next, b, length - 1);
      assert Reaches(edges, next, b);
    }
  }
}
