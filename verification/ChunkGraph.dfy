/** The bundler's module graph, and what can be reached in it along static imports. */
module ChunkGraph {
  import opened Options

  type Id = string

  // isIncluded is None when the bundler has not decided yet; isProgram says that the parsed module is whole.
  datatype Info = Info(importedIds: seq<Id>, isIncluded: Option<bool>, isProgram: bool)

  // All module ids in the bundler's order; some of them, and some imported ids, may have no information.
  datatype Graph = Graph(ids: seq<Id>, info: map<Id, Info>)

  function Universe(g: Graph): set<Id> {
    g.info.Keys + set m, i | m in g.info && 0 <= i < |g.info[m].importedIds| :: g.info[m].importedIds[i]
  }

  predicate Imports(g: Graph, a: Id, b: Id) {
    a in g.info && b in g.info[a].importedIds
  }

  predicate IsPath(g: Graph, path: seq<Id>) {
    path != [] && forall i | 0 <= i < |path| - 1 :: Imports(g, path[i], path[i + 1])
  }

  ghost predicate Reaches(g: Graph, a: Id, b: Id) {
    exists path :: IsPath(g, path) && path[0] == a && path[|path| - 1] == b
  }

  // The modules with information that can be reached from a.
  ghost function Reachable(g: Graph, a: Id): set<Id> {
    set b | b in g.info && Reaches(g, a, b)
  }

  lemma ReachesItself(g: Graph, a: Id)
    ensures Reaches(g, a, a)
  {
    assert IsPath(g, [a]) && [a][|[a]| - 1] == a;
  }

  lemma ReachesThrough(g: Graph, a: Id, b: Id, c: Id)
    requires Imports(g, a, b) && Reaches(g, b, c)
    ensures Reaches(g, a, c)
  {
    var path :| IsPath(g, path) && path[0] == b && path[|path| - 1] == c;
    assert IsPath(g, [a] + path) && ([a] + path)[|path|] == c;
  }

  // A set with all the imports of its members holds whatever they reach.
  lemma {:induction false} ClosedHoldsReachable(g: Graph, closed: set<Id>, path: seq<Id>)
    requires IsPath(g, path) && path[0] in closed
    requires forall a, b | a in closed && Imports(g, a, b) :: b in closed
    ensures path[|path| - 1] in closed
    decreases |path|
  {
    if |path| > 1 {
      assert Imports(g, path[0], path[1]);
      ClosedHoldsReachable(g, closed, path[1..]);
    }
  }

  // What one visit adds: the module itself and everything behind it that was not seen before.
  ghost predicate Visited(g: Graph, start: Id, before: set<Id>, after: set<Id>) {
    && before <= after && start in after
    && (forall a, b | a in after - before && Imports(g, a, b) :: b in after)
    && (forall a | a in after - before :: Reaches(g, start, a))
  }

  class Search {
    var seen: set<Id>
    var target: set<Id>

    constructor (target: set<Id>)
      ensures seen == {} && this.target == target
    {
      seen, this.target := {}, target;
    }

    method Visit(g: Graph, moduleId: Id)
      modifies this
      ensures Visited(g, moduleId, old(seen), seen)
      ensures target == old(target) + set m | m in seen - old(seen) && m in g.info
      decreases Universe(g) - seen, moduleId !in seen, 0
    {
      if moduleId in seen {
        return;
      }
      seen := seen + {moduleId};
      ReachesItself(g, moduleId);
      if moduleId !in g.info {
        return;
      }
      target := target + {moduleId};
      var dependencies := g.info[moduleId].importedIds;
      for i := 0 to |dependencies|
        invariant old(seen) + {moduleId} <= seen
        invariant forall k | 0 <= k < i :: dependencies[k] in seen
        invariant forall a, b | a in seen - old(seen) - {moduleId} && Imports(g, a, b) :: b in seen
        invariant forall a | a in seen - old(seen) :: Reaches(g, moduleId, a)
        invariant target == old(target) + set m | m in seen - old(seen) && m in g.info
      {
        ghost var before := seen;
        assert dependencies[i] in Universe(g);
        Visit(g, dependencies[i]);
        assert Imports(g, moduleId, dependencies[i]);
        forall a | a in seen - before ensures Reaches(g, moduleId, a) {
          ReachesThrough(g, moduleId, dependencies[i], a);
        }
      }
    }
  }

  // Main result: the search from one root collects exactly the modules that can be reached from it.
  method VisitRoot(g: Graph, root: Id, target: set<Id>) returns (result: set<Id>)
    ensures result == target + Reachable(g, root)
  {
    var search := new Search(target);
    search.Visit(g, root);
    result := search.target;
    forall m | m in g.info && Reaches(g, root, m) ensures m in search.seen {
      var path :| IsPath(g, path) && path[0] == root && path[|path| - 1] == m;
      ClosedHoldsReachable(g, search.seen, path);
    }
  }
}
