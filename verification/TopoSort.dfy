/** topoSortPaths (nix/libstore/misc.cc): a depth-first topological sort of a set of store
    paths under the references between them. */
module TopoSort {
  import opened ByteStrings
  import opened Graphs
  import opened StoreDb

  /** The references among `paths`; an invalid path has none. */
  ghost function Restricted(db: Db, paths: set<Path>): Graph<Path> {
    map p | p in paths :: if p in db then db[p].references * paths else {}
  }

  /** Whatever an element refers to comes after it. */
  ghost predicate Ordered(g: Graph<Path>, s: seq<Path>) {
    forall i, y :: 0 <= i < |s| && Edge(g, s[i], y) ==> y in s[i + 1..]
  }

  lemma {:induction false} OrderedWalk(g: Graph<Path>, s: seq<Path>, w: seq<Path>, i: nat, b: Path)
    requires Ordered(g, s) && i < |s| && WalkFromTo(g, w, s[i], b) && |w| > 1
    ensures b in s[i + 1..]
    decreases |w|
  {
    WalkTail(g, w, s[i], b);
    var j :| i < j < |s| && s[j] == w[1];
    if |w| > 2 { OrderedWalk(g, s, w[1..], j, b); }
  }

  /** An order of all nodes that every edge respects shows that there is no cycle. */
  lemma OrderedIsAcyclic(g: Graph<Path>, s: seq<Path>)
    requires Ordered(g, s) && Distinct(s) && forall p :: p in g ==> p in s
    ensures Acyclic(g)
  {
    AcyclicMeansNoCycle(g);
    if w :| Cycle(g, w) {
      assert Edge(g, w[0], w[1]);
      var i :| 0 <= i < |s| && s[i] == w[0];
      OrderedWalk(g, s, w, i, w[0]);
      assert false;
    }
  }

  class Sorter {
    const db: Db
    const paths: set<Path>
    var visited: set<Path>
    var parents: set<Path>
    var sorted: seq<Path>

    constructor (db: Db, paths: set<Path>)
      ensures this.db == db && this.paths == paths && visited == {} && parents == {} && sorted == []
    {
      this.db, this.paths := db, paths;
      visited, parents, sorted := {}, {}, [];
    }

    ghost function G(): Graph<Path> {
      Restricted(db, paths)
    }

    /** What is visited and left again is sorted, in a good order. */
    ghost predicate Valid()
      reads this
    {
      parents <= visited <= paths
      && (forall p :: p in sorted <==> p in visited && p !in parents)
      && Distinct(sorted) && Ordered(G(), sorted)
    }

    /** Visits `path`, coming from `from` unless this is a fresh start. */
    method DfsVisit(path: Path, ghost from: Path) returns (ok: bool)
      requires Valid() && path in paths
      requires parents != {} ==> from in parents && Edge(G(), from, path)
      requires forall q :: q in parents ==> Reach(G(), q, from)
      modifies this
      ensures !ok ==> !Acyclic(G())
      ensures ok ==> Valid() && parents == old(parents) && old(visited) <= visited && path in visited && path !in parents
      decreases paths - visited
    {
      if path in parents { return false; }
      if path in visited { return true; }
      visited := visited + {path};
      parents := parents + {path};
      forall q | q in parents ensures Reach(G(), q, path) {
        ReachSelf(G(), path);
        if q != path {
          ReachEdge(G(), from, path);
          ReachTrans(G(), q, from, path);
        }
      }
      var references := if path in db then db[path].references else {};
      var todo := references;
      while todo != {}
        invariant Valid() && parents == old(parents) + {path} && old(visited) + {path} <= visited
        invariant todo <= references
        invariant forall y :: y in references && y !in todo && y != path && y in paths ==> y in sorted
        decreases todo
      {
        var i :| i in todo;
        todo := todo - {i};
        if i != path && i in paths {
          ok := DfsVisit(i, path);
          if !ok { return; }
        }
      }
      Prepend(path);
      return true;
    }

    /** The path goes to the front once everything it refers to is behind it. */
    method Prepend(path: Path)
      requires Valid() && path in parents
      requires forall y :: Edge(G(), path, y) ==> y in sorted
      modifies this`sorted, this`parents
      ensures Valid() && parents == old(parents) - {path} && visited == old(visited)
    {
      ghost var was := sorted;
      sorted := [path] + sorted;
      parents := parents - {path};
      forall i, y | 0 <= i < |sorted| && Edge(G(), sorted[i], y) ensures y in sorted[i + 1..] {
        if i > 0 { assert sorted[i] == was[i - 1] && sorted[i + 1..] == was[i..]; }
        else { assert sorted[1..] == was; }
      }
      assert forall i :: 0 < i < |sorted| ==> sorted[i] == was[i - 1];
    }
  }

  /** Sorts exactly when the references among `paths` have no cycle of two or more paths;
      the result is the set in an order in which a path comes before what it refers to. */
  method TopoSortPaths(db: Db, paths: set<Path>) returns (ok: bool, sorted: seq<Path>)
    ensures ok <==> Acyclic(Restricted(db, paths))
    ensures ok ==> Distinct(sorted) && (forall p :: p in sorted <==> p in paths) && Ordered(Restricted(db, paths), sorted)
  {
    var s := new Sorter(db, paths);
    var todo := paths;
    while todo != {}
      invariant s.Valid() && s.parents == {} && todo <= paths
      invariant forall p :: p in paths && p !in todo ==> p in s.visited
      decreases todo
    {
      var i :| i in todo;
      todo := todo - {i};
      ok := s.DfsVisit(i, i);
      if !ok { return false, []; }
    }
    OrderedIsAcyclic(Restricted(db, paths), s.sorted);
    return true, s.sorted;
  }
}
