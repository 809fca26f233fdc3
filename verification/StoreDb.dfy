/** The store database as the rest of the daemon queries it: the valid paths with
    their references, deriver, recorded outputs and archive size. */
module StoreDb {
  import opened Graphs

  type Path = string

  /** One row of ValidPaths with its rows of Refs and, for a derivation, of
      DerivationOutputs.  An absent deriver is the empty path. */
  datatype PathInfo = PathInfo(references: set<Path>, deriver: Path, outputs: map<string, Path>, narSize: nat)

  type Db = map<Path, PathInfo>

  const DRV_EXTENSION := ".drv"

  predicate HasSuffix(s: string, suffix: string) {
    |s| >= |suffix| && s[|s| - |suffix|..] == suffix
  }

  predicate IsDerivation(path: Path) {
    HasSuffix(path, DRV_EXTENSION)
  }

  function QueryReferrers(db: Db, path: Path): set<Path> {
    if path in db then set q | q in db && path in db[q].references else {}
  }

  function QueryValidDerivers(db: Db, path: Path): set<Path> {
    set d | d in db && path in db[d].outputs.Values
  }

  function RefGraph(db: Db): Graph<Path> {
    map p | p in db :: db[p].references
  }

  /** Every reference of a valid path is valid. */
  ghost predicate Closed(db: Db) {
    forall p, q :: p in db && q in db[p].references ==> q in db
  }

  /** `small` has some of the rows of `big`, unchanged. */
  ghost predicate SubDb(small: Db, big: Db) {
    forall p :: p in small ==> p in big && small[p] == big[p]
  }

  lemma SubDbGraph(small: Db, big: Db)
    requires SubDb(small, big)
    ensures Subgraph(RefGraph(small), RefGraph(big))
  {
  }

  /** The valid paths that lead to `path` by references, `path` included if valid. */
  ghost function Dependents(db: Db, path: Path): set<Path> {
    set q | q in db && Reach(RefGraph(db), q, path)
  }

  lemma DependentsShrink(small: Db, big: Db, path: Path)
    requires SubDb(small, big)
    ensures Dependents(small, path) <= Dependents(big, path)
    ensures |Dependents(small, path)| <= |Dependents(big, path)|
  {
    SubDbGraph(small, big);
    forall q | q in Dependents(small, path) ensures q in Dependents(big, path) {
      ReachMono(RefGraph(small), RefGraph(big), q, path);
    }
    SubsetCard(Dependents(small, path), Dependents(big, path));
  }

  /** A referrer has strictly fewer dependents than what it refers to. */
  lemma ReferrerHasFewerDependents(db: Db, path: Path, referrer: Path)
    requires Acyclic(RefGraph(db))
    requires referrer in QueryReferrers(db, path) && referrer != path
    ensures |Dependents(db, referrer)| < |Dependents(db, path)|
    ensures path !in Dependents(db, referrer)
  {
    var g := RefGraph(db);
    assert Edge(g, referrer, path);
    forall q | q in Dependents(db, referrer) ensures q in Dependents(db, path) {
      ReachEdge(g, referrer, path);
      ReachTrans(g, q, referrer, path);
    }
    ReachSelf(g, path);
    SmallerSet(Dependents(db, referrer), Dependents(db, path), path);
  }
}
