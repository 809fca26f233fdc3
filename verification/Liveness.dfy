/** Two views of what the collector keeps: the search over incoming edges
    (nix/libstore/gc.cc) and the closure of the roots (nix/libstore/misc.cc). */
module Liveness {
  import opened Graphs
  import opened StoreDb
  import opened Wrappers
  import Closure
  import GarbageCollector

  /** The rows agree with each other: references are valid, only derivations have outputs, and
      the deriver of a path, if valid, is a derivation that has it as an output. */
  ghost predicate Consistent(db: Db) {
    Closed(db)
    && (forall d :: d in db && db[d].outputs != map[] ==> IsDerivation(d))
    && (forall p :: p in db && db[p].deriver in db ==> p in db[db[p].deriver].outputs.Values)
  }

  /** Closure of `flip` direction with outputs and derivers as the collector keeps them. */
  function KeepFlags(flip: bool, keepOutputs: bool, keepDerivations: bool): Closure.Flags {
    Closure.Flags(flip, keepOutputs, keepDerivations)
  }

  /** The collector follows the edges of a closure in flipped direction. */
  lemma IncomingIsFlipped(db: Db, ko: bool, kd: bool, p: Path)
    requires p in db
    ensures Closure.Edges(db, KeepFlags(true, ko, kd), p) == Some(GarbageCollector.Incoming(db, ko, kd, p))
  {
    assert Closure.Edges(db, KeepFlags(true, ko, kd), p).value == GarbageCollector.Incoming(db, ko, kd, p);
  }

  /** Between valid paths, flipping the direction gives the converse edges. */
  lemma FlippedIsConverse(db: Db, ko: bool, kd: bool, p: Path, q: Path)
    requires Consistent(db) && p in db && q in db
    ensures q in Closure.Edges(db, KeepFlags(false, ko, kd), p).value <==> p in Closure.Edges(db, KeepFlags(true, ko, kd), q).value
  {
  }

  ghost function Forward(db: Db, ko: bool, kd: bool): Graph<Path> {
    Closure.EdgeGraph(db, KeepFlags(false, ko, kd))
  }

  lemma ForwardEdge(db: Db, ko: bool, kd: bool, p: Path, q: Path)
    requires Consistent(db) && p in db && q in db
    ensures Edge(Forward(db, ko, kd), p, q) <==> Edge(GarbageCollector.IncomingGraph(db, ko, kd), q, p)
  {
    FlippedIsConverse(db, ko, kd, p, q);
    IncomingIsFlipped(db, ko, kd, q);
  }

  /** The edges of either kind that leave or enter a valid path stay among valid paths. */
  lemma EdgesAmongValid(db: Db, ko: bool, kd: bool, p: Path, q: Path)
    requires Consistent(db)
    ensures p in db && Edge(Forward(db, ko, kd), p, q) ==> q in db
    ensures Edge(GarbageCollector.IncomingGraph(db, ko, kd), p, q) ==> p in db && q in db
  {
  }

  lemma {:induction false} BackAlong(db: Db, ko: bool, kd: bool, w: seq<Path>, r: Path, p: Path)
    requires Consistent(db) && r in db && WalkFromTo(Forward(db, ko, kd), w, r, p)
    ensures p in db && Reach(GarbageCollector.IncomingGraph(db, ko, kd), p, r)
    decreases |w|
  {
    var g := GarbageCollector.IncomingGraph(db, ko, kd);
    if |w| == 1 {
      ReachSelf(g, r);
    } else {
      WalkTail(Forward(db, ko, kd), w, r, p);
      assert Edge(Forward(db, ko, kd), r, w[1]);
      EdgesAmongValid(db, ko, kd, r, w[1]);
      BackAlong(db, ko, kd, w[1..], w[1], p);
      ForwardEdge(db, ko, kd, r, w[1]);
      ReachEdge(g, w[1], r);
      ReachTrans(g, p, w[1], r);
    }
  }

  lemma {:induction false} ForthAlong(db: Db, ko: bool, kd: bool, w: seq<Path>, p: Path, r: Path)
    requires Consistent(db) && p in db && WalkFromTo(GarbageCollector.IncomingGraph(db, ko, kd), w, p, r)
    ensures r in db && Reach(Forward(db, ko, kd), r, p)
    decreases |w|
  {
    var f, g := Forward(db, ko, kd), GarbageCollector.IncomingGraph(db, ko, kd);
    if |w| == 1 {
      ReachSelf(f, p);
    } else {
      WalkTail(g, w, p, r);
      assert Edge(g, p, w[1]);
      EdgesAmongValid(db, ko, kd, p, w[1]);
      ForthAlong(db, ko, kd, w[1..], w[1], r);
      ForwardEdge(db, ko, kd, w[1], p);
      ReachEdge(f, w[1], p);
      ReachTrans(f, r, w[1], p);
    }
  }

  /** A valid path is live for the collector if and only if it lies in the closure of a valid
      root: under references, from derivations to their outputs if outputs are kept, and from
      outputs to their derivers if derivations are kept. */
  lemma LiveIsClosureOfRoots(db: Db, ko: bool, kd: bool, roots: set<Path>, p: Path)
    requires Consistent(db) && p in db
    ensures GarbageCollector.Live(db, ko, kd, roots, p) <==> exists r :: r in roots && r in db && Reach(Forward(db, ko, kd), r, p)
  {
    var g := GarbageCollector.IncomingGraph(db, ko, kd);
    if r :| r in roots && Reach(g, p, r) {
      var w :| WalkFromTo(g, w, p, r);
      ForthAlong(db, ko, kd, w, p, r);
    }
    if r :| r in roots && r in db && Reach(Forward(db, ko, kd), r, p) {
      var w :| WalkFromTo(Forward(db, ko, kd), w, r, p);
      BackAlong(db, ko, kd, w, r, p);
    }
  }
}
