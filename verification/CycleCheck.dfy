// The three-colour depth-first check that a dependency map has no cycle.
module CycleCheck {
  import opened Ids
  import opened Graph

  datatype Colour = Visiting | Visited

  /** The edges a map from versions to their parents stands for. */
  ghost function DependencyEdges(deps: map<Id, seq<Id>>): set<Edge> {
    set c, i | c in deps && 0 <= i < |deps[c]| :: Edge(deps[c][i], c)
  }

  lemma {:induction false} WalkBackWithin(edges: set<Edge>, nodes: set<Id>, a: Id, b: Id, length: nat)
    requires Walk(edges, a, b, length)
    requires forall e :: e in edges && (e.child in nodes || e.child == b) ==> e.parent in nodes
    ensures a in nodes
    decreases length
  {
    if length == 0 {
      assert Edge(a, b) in edges;
    } else {
      var next :| Edge(a, next) in edges && Walk(edges, next, b, length - 1);
      WalkBackWithin(edges, nodes, next, b, length - 1);
    }
  }

  /** A set closed under parents that holds b's parents holds all of b's ancestors. */
  lemma AncestorsWithin(edges: set<Edge>, nodes: set<Id>, a: Id, b: Id)
    requires Reaches(edges, a, b)
    requires forall e :: e in edges && (e.child in nodes || e.child == b) ==> e.parent in nodes
    ensures a in nodes
  {
    var length: nat :| Walk(edges, a, b, length);
    WalkBackWithin(edges, nodes, a, b, length);
  }

  class Checker {
    const deps: map<Id, seq<Id>>
    var states: map<Id, Colour>

    constructor (deps: map<Id, seq<Id>>)
      ensures this.deps == deps && states == map[]
    {
      this.deps := deps;
      states := map[];
    }

    ghost function Edges(): set<Edge> {
      DependencyEdges(deps)
    }

    ghost function Nodes(): set<Id> {
      deps.Keys + set e | e in Edges() :: e.parent
    }

    ghost function Coloured(colour: Colour): set<Id>
      reads this
    {
      set v | v in states && states[v] == colour
    }

    /** Visited versions have only visited parents and lie on no cycle. */
    ghost predicate Settled()
      reads this
    {
      && states.Keys <= Nodes()
      && (forall e :: e in Edges() && e.child in Coloured(Visited) ==> e.parent in Coloured(Visited))
      && (forall v :: v in Coloured(Visited) ==> !Reaches(Edges(), v, v))
    }

    method Visit(id: Id) returns (cyclic: bool)
      requires Settled() && id in Nodes()
      requires forall g :: g in Coloured(Visiting) ==> Reaches(Edges(), id, g)
      modifies this`states
      ensures cyclic ==> !Acyclic(Edges())
      ensures !cyclic ==> Settled() && id in Coloured(Visited)
      ensures !cyclic ==> Coloured(Visiting) == old(Coloured(Visiting)) && old(Coloured(Visited)) <= Coloured(Visited)
      ensures old(states.Keys) <= states.Keys
      decreases Nodes() - states.Keys
    {
      if id in states {
        assert id in Coloured(states[id]);
        return states[id] == Visiting;
      }
      states := states[id := Visiting];
      ghost var path := Coloured(Visiting);
      assert path == old(Coloured(Visiting)) + {id};
      assert Coloured(Visited) == old(Coloured(Visited));
      if id in deps {
        var parents := deps[id];
        for i := 0 to |parents|
          invariant Settled() && Coloured(Visiting) == path
          invariant old(Coloured(Visited)) <= Coloured(Visited)
          invariant old(states.Keys) + {id} <= states.Keys
          invariant forall k :: 0 <= k < i ==> parents[k] in Coloured(Visited)
        {
          assert Edge(parents[i], id) in Edges();
          assert id in Coloured(Visiting);
          EdgeReaches(Edges(), parents[i], id);
          forall g | g in Coloured(Visiting) ensures Reaches(Edges(), parents[i], g) {
            if g != id {
              ReachesTransitive(Edges(), parents[i], id, g);
            }
          }
          var found := Visit(parents[i]);
          if found {
            return true;
          }
        }
      }
      ghost var done := Coloured(Visited);
      assert id in Coloured(Visiting);
      assert id !in done;
      forall e | e in Edges() && e.child == id ensures e.parent in done {
      }
      if Reaches(Edges(), id, id) {
        AncestorsWithin(Edges(), done, id, id);
      }
      states := states[id := Visited];
      assert Coloured(Visited) == done + {id};
      assert Coloured(Visiting) == path - {id};
      return false;
    }
  }

  lemma OnlyKeysReached(deps: map<Id, seq<Id>>, a: Id, b: Id)
    requires Reaches(DependencyEdges(deps), a, b)
    ensures b in deps
  {
    var length: nat :| Walk(DependencyEdges(deps), a, b, length);
    WalkEndpoints(DependencyEdges(deps), a, b, length);
  }

  /** Reports a cycle exactly when there is one, whatever order the map is visited in. */
  method ValidateDependencyGraph(deps: map<Id, seq<Id>>) returns (cyclic: bool)
    ensures cyclic <==> !Acyclic(DependencyEdges(deps))
  {
    var checker := new Checker(deps);
    var pending := deps.Keys;
    while pending != {}
      invariant pending <= deps.Keys && checker.deps == deps
      invariant fresh(checker) && checker.Settled()
      invariant checker.Coloured(Visiting) == {}
      invariant deps.Keys - pending <= checker.Coloured(Visited)
      decreases pending
    {
      var id :| id in pending;
      pending := pending - {id};
      var found := checker.Visit(id);
      if found {
        return true;
      }
    }
    forall v ensures !Reaches(DependencyEdges(deps), v, v) {
      if Reaches(DependencyEdges(deps), v, v) {
        OnlyKeysReached(deps, v, v);
      }
    }
    return false;
  }
}
