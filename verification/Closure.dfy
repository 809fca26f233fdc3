/** computeFSClosure (nix/libstore/misc.cc): transitive closure under references or
    referrers, with outputs and derivers on request. */
module Closure {
  import opened Graphs
  import opened StoreDb
  import opened Wrappers

  datatype Flags = Flags(flipDirection: bool, includeOutputs: bool, includeDerivers: bool)

  /** The edges out of `path`; None when one of the queries throws because `path` is invalid. */
  function Edges(db: Db, f: Flags, path: Path): Option<set<Path>> {
    if f.flipDirection then
      if f.includeDerivers && IsDerivation(path) && path !in db then None
      else Some(
        QueryReferrers(db, path)
        + (if f.includeOutputs then QueryValidDerivers(db, path) else {})
        + (if f.includeDerivers && IsDerivation(path)
           then set o | o in db[path].outputs.Values && o in db && db[o].deriver == path
           else {}))
    else
      if path !in db then None
      else Some(
        db[path].references
        + (if f.includeOutputs && IsDerivation(path) then set o | o in db[path].outputs.Values && o in db else {})
        + (if f.includeDerivers && db[path].deriver in db then {db[path].deriver} else {}))
  }

  function AllOutputs(db: Db): set<Path> {
    set d, o | d in db && o in db[d].outputs.Values :: o
  }

  /** Every path that has an edge is a node here. */
  ghost function EdgeGraph(db: Db, f: Flags): Graph<Path> {
    map p | p in db.Keys + AllOutputs(db) && Edges(db, f, p).Some? :: Edges(db, f, p).value
  }

  lemma EdgeInGraph(db: Db, f: Flags, p: Path, q: Path)
    requires Edges(db, f, p).Some? && q in Edges(db, f, p).value
    ensures p in db.Keys + AllOutputs(db)
    ensures p != q ==> Edge(EdgeGraph(db, f), p, q)
  {
    if p !in db {
      assert q in QueryValidDerivers(db, p);
      assert p in db[q].outputs.Values;
    }
  }

  ghost predicate ClosedUnder(db: Db, f: Flags, s: set<Path>) {
    forall q :: q in s ==> Edges(db, f, q).Some? && Edges(db, f, q).value <= s
  }

  /** Adds to `paths` what is reached from `path` without passing through it; fails when
      a query fails on the way. */
  method ComputeFSClosure(db: Db, path: Path, paths: set<Path>, f: Flags) returns (ok: bool, paths': set<Path>)
    ensures paths <= paths'
    ensures forall q :: q in paths' - paths ==> Reach(EdgeGraph(db, f), path, q)
    ensures ok ==> path in paths'
    ensures ok ==> forall q :: q in paths' - paths ==> Edges(db, f, q).Some? && Edges(db, f, q).value <= paths'
    ensures !ok ==> exists q :: q !in paths && Reach(EdgeGraph(db, f), path, q) && Edges(db, f, q).None?
    decreases db.Keys + AllOutputs(db) - paths
  {
    paths' := paths;
    if path in paths { return true, paths'; }
    paths' := paths' + {path};
    ReachSelf(EdgeGraph(db, f), path);
    var edges := Edges(db, f, path);
    if edges.None? { return false, paths'; }
    var todo := edges.value;
    while todo != {}
      invariant todo <= edges.value
      invariant paths + {path} <= paths'
      invariant forall e :: e in edges.value && e !in todo ==> e in paths'
      invariant forall q :: q in paths' - paths ==> Reach(EdgeGraph(db, f), path, q)
      invariant forall q :: q in paths' - paths - {path} ==> Edges(db, f, q).Some? && Edges(db, f, q).value <= paths'
      decreases todo
    {
      var i :| i in todo;
      todo := todo - {i};
      EdgeInGraph(db, f, path, i);
      ghost var before := paths';
      ok, paths' := ComputeFSClosure(db, i, paths', f);
      if i != path {
        forall q | Reach(EdgeGraph(db, f), i, q) ensures Reach(EdgeGraph(db, f), path, q) {
          ReachStep(EdgeGraph(db, f), path, i, q);
        }
      }
      if !ok { return; }
      forall q | q in paths' - paths - {path} ensures Edges(db, f, q).Some? && Edges(db, f, q).value <= paths' {
        if q in before { assert Edges(db, f, q).value <= before; }
      }
    }
    ok := true;
  }

  /** Started from a closed set, the result is that set and exactly what is reachable. */
  lemma ClosureIsExact(db: Db, f: Flags, path: Path, paths: set<Path>, paths': set<Path>)
    requires ClosedUnder(db, f, paths) && paths <= paths' && path in paths'
    requires forall q :: q in paths' - paths ==> Reach(EdgeGraph(db, f), path, q)
    requires forall q :: q in paths' - paths ==> Edges(db, f, q).Some? && Edges(db, f, q).value <= paths'
    ensures ClosedUnder(db, f, paths')
    ensures forall q :: q in paths' <==> q in paths || Reach(EdgeGraph(db, f), path, q)
  {
    forall q | Reach(EdgeGraph(db, f), path, q) ensures q in paths' {
      ReachInside(EdgeGraph(db, f), (iset p | p in paths'), path, q);
    }
  }

  /** The closures of several starting points gathered in one set, as for the inputs of a
      build: precisely the union of the single closures. */
  method ComputeClosures(db: Db, starts: seq<Path>, f: Flags) returns (ok: bool, paths: set<Path>)
    ensures ok ==> ClosedUnder(db, f, paths)
    ensures ok ==> forall q :: q in paths <==> exists k :: 0 <= k < |starts| && Reach(EdgeGraph(db, f), starts[k], q)
    ensures !ok ==> exists k, q :: 0 <= k < |starts| && Reach(EdgeGraph(db, f), starts[k], q) && Edges(db, f, q).None?
  {
    paths := {};
    for n := 0 to |starts|
      invariant ClosedUnder(db, f, paths)
      invariant forall q :: q in paths <==> exists k :: 0 <= k < n && Reach(EdgeGraph(db, f), starts[k], q)
    {
      ghost var before := paths;
      ok, paths := ComputeFSClosure(db, starts[n], paths, f);
      if !ok { return; }
      ClosureIsExact(db, f, starts[n], before, paths);
    }
    ok := true;
  }

  /** Following references from a valid path of a closed store, no query fails. */
  lemma ForwardClosureSucceeds(db: Db, f: Flags, path: Path, q: Path)
    requires Closed(db) && !f.flipDirection && path in db && Reach(EdgeGraph(db, f), path, q)
    ensures Edges(db, f, q).Some?
  {
    ReachInside(EdgeGraph(db, f), (iset p | p in db), path, q);
  }
}
