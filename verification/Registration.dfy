/** registerValidPaths (nix/libstore/local-store.cc): a transaction that adds paths with
    their references and rolls back on an invalid reference, a wrong derivation output or
    a cycle among the registered paths. */
module Registration {
  import opened Graphs
  import opened StoreDb
  import TopoSort

  datatype ValidPathInfo = ValidPathInfo(path: Path, references: set<Path>, deriver: Path, narSize: nat)

  function Paths(infos: seq<ValidPathInfo>): set<Path> {
    set i | 0 <= i < |infos| :: infos[i].path
  }

  /** The references that `infos` lists for `path`. */
  function Listed(infos: seq<ValidPathInfo>, path: Path): set<Path> {
    if infos == [] then {}
    else
      var last := infos[|infos| - 1];
      Listed(infos[..|infos| - 1], path) + (if last.path == path then last.references else {})
  }

  function OldReferences(db: Db, path: Path): set<Path> {
    if path in db then db[path].references else {}
  }

  /** The row of `path` when `infos` is through with it, references aside: the first info
      for a new path makes the row, the last one has the size. */
  function RowAfter(db: Db, infos: seq<ValidPathInfo>, readOutputs: Path -> map<string, Path>, path: Path): PathInfo {
    if infos == [] then (if path in db then db[path] else PathInfo({}, "", map[], 0))
    else
      var last, init := infos[|infos| - 1], infos[..|infos| - 1];
      var row := RowAfter(db, init, readOutputs, path);
      if last.path != path then row
      else if path in db || path in Paths(init) then row.(narSize := last.narSize)
      else PathInfo({}, last.deriver, if IsDerivation(path) then readOutputs(path) else map[], last.narSize)
  }

  ghost predicate RowsAdded(db: Db, infos: seq<ValidPathInfo>, readOutputs: Path -> map<string, Path>, after: Db) {
    after.Keys == db.Keys + Paths(infos) && forall p :: p in after ==> after[p] == RowAfter(db, infos, readOutputs, p)
  }

  /** `after` is `db` with the paths of `infos` added and their references joined in. */
  ghost predicate Registered(db: Db, infos: seq<ValidPathInfo>, readOutputs: Path -> map<string, Path>, after: Db) {
    after.Keys == db.Keys + Paths(infos)
    && forall p :: p in after ==>
      after[p] == RowAfter(db, infos, readOutputs, p).(references := OldReferences(db, p) + Listed(infos, p))
  }

  lemma {:induction false} RowAfterReferences(db: Db, infos: seq<ValidPathInfo>, readOutputs: Path -> map<string, Path>, path: Path)
    ensures RowAfter(db, infos, readOutputs, path).references == OldReferences(db, path)
  {
    if infos != [] { RowAfterReferences(db, infos[..|infos| - 1], readOutputs, path); }
  }

  lemma RowStep(db: Db, infos: seq<ValidPathInfo>, readOutputs: Path -> map<string, Path>, n: nat, mid: Db, after: Db)
    requires n < |infos| && RowsAdded(db, infos[..n], readOutputs, mid)
    requires var info := infos[n];
      after == mid[info.path := if info.path in mid then mid[info.path].(narSize := info.narSize)
                                else PathInfo({}, info.deriver, if IsDerivation(info.path) then readOutputs(info.path) else map[], info.narSize)]
    ensures RowsAdded(db, infos[..n + 1], readOutputs, after)
  {
    PathsStep(infos, n);
    assert infos[..n + 1][..n] == infos[..n];
    forall p | p in after ensures after[p] == RowAfter(db, infos[..n + 1], readOutputs, p) {
      assert p != infos[n].path ==> p in mid;
    }
  }

  /** `after` is `db` with the references that `infos` lists. */
  ghost predicate Joined(db: Db, infos: seq<ValidPathInfo>, after: Db) {
    after.Keys == db.Keys
    && forall p :: p in db ==> after[p] == db[p].(references := db[p].references + Listed(infos, p))
  }

  lemma JoinStep(db: Db, infos: seq<ValidPathInfo>, n: nat, mid: Db)
    requires n < |infos| && infos[n].path in db && Joined(db, infos[..n], mid)
    ensures var q := infos[n].path; Joined(db, infos[..n + 1], mid[q := mid[q].(references := mid[q].references + infos[n].references)])
  {
    forall p { ListedStep(infos, n, p); }
    var q := infos[n].path;
    assert (db[q].references + Listed(infos[..n], q)) + infos[n].references == db[q].references + Listed(infos[..n + 1], q);
  }

  ghost predicate ReferencesKnown(db: Db, infos: seq<ValidPathInfo>) {
    forall i :: 0 <= i < |infos| ==> infos[i].references <= db.Keys + Paths(infos)
  }

  class LocalStore {
    var db: Db

    constructor (db: Db)
      ensures this.db == db
    {
      this.db := db;
    }

    /** A row without references for a new path, the new size for an old one. */
    method AddRows(infos: seq<ValidPathInfo>, readOutputs: Path -> map<string, Path>)
      modifies this
      ensures RowsAdded(old(db), infos, readOutputs, db)
    {
      for n := 0 to |infos|
        invariant RowsAdded(old(db), infos[..n], readOutputs, db)
      {
        var info := infos[n];
        ghost var mid := db;
        if info.path in db {
          db := db[info.path := db[info.path].(narSize := info.narSize)];
        } else {
          db := db[info.path := PathInfo({}, info.deriver, if IsDerivation(info.path) then readOutputs(info.path) else map[], info.narSize)];
        }
        RowStep(old(db), infos, readOutputs, n, mid, db);
      }
      assert infos[..|infos|] == infos;
    }

    /** Joins in the references; false when one of them is not a valid path. */
    method AddReferences(infos: seq<ValidPathInfo>) returns (ok: bool)
      requires Paths(infos) <= db.Keys
      modifies this
      ensures ok <==> forall i :: 0 <= i < |infos| ==> infos[i].references <= old(db.Keys)
      ensures ok ==> Joined(old(db), infos, db)
    {
      assert Joined(db, [], db);
      for n := 0 to |infos|
        invariant Joined(old(db), infos[..n], db)
        invariant forall i :: 0 <= i < n ==> infos[i].references <= old(db.Keys)
      {
        var info := infos[n];
        assert info.path in Paths(infos);
        if !(info.references <= db.Keys) { return false; }
        JoinStep(old(db), infos, n, db);
        db := db[info.path := db[info.path].(references := db[info.path].references + info.references)];
      }
      assert infos[..|infos|] == infos;
      ok := true;
    }

    /** All or nothing.  Succeeds exactly when every reference is valid in the end, every
        derivation has the right outputs, and the registered paths form no cycle. */
    method RegisterValidPaths(infos: seq<ValidPathInfo>, readOutputs: Path -> map<string, Path>, outputsCorrect: Path -> bool)
      returns (ok: bool)
      modifies this
      ensures !ok ==> db == old(db)
      ensures ok ==> Registered(old(db), infos, readOutputs, db)
      ensures ok ==> Acyclic(TopoSort.Restricted(db, Paths(infos)))
      ensures ok ==> ReferencesKnown(old(db), infos)
                     && forall i :: 0 <= i < |infos| && IsDerivation(infos[i].path) ==> outputsCorrect(infos[i].path)
      ensures !ok ==> !ReferencesKnown(old(db), infos)
                      || (exists i :: 0 <= i < |infos| && IsDerivation(infos[i].path) && !outputsCorrect(infos[i].path))
                      || exists after :: Registered(old(db), infos, readOutputs, after) && !Acyclic(TopoSort.Restricted(after, Paths(infos)))
      ensures old(Closed(db)) ==> Closed(db)
      ensures ok && old(Closed(db) && Acyclic(RefGraph(db)) && Paths(infos) !! db.Keys) ==> Acyclic(RefGraph(db))
    {
      var before := db;
      AddRows(infos, readOutputs);
      ok := AddReferences(infos);
      forall p { RowAfterReferences(before, infos, readOutputs, p); }
      if !ok {
        db := before;
        return;
      }
      for n := 0 to |infos|
        invariant forall i :: 0 <= i < n && IsDerivation(infos[i].path) ==> outputsCorrect(infos[i].path)
        invariant Registered(old(db), infos, readOutputs, db) && before == old(db)
      {
        if IsDerivation(infos[n].path) && !outputsCorrect(infos[n].path) {
          db := before;
          return false;
        }
      }
      var sorted;
      ok, sorted := TopoSort.TopoSortPaths(db, Paths(infos));
      if !ok {
        db := before;
        return;
      }
      if old(Closed(db)) { RegistrationKeepsClosed(old(db), infos, db); }
      if old(Closed(db) && Acyclic(RefGraph(db)) && Paths(infos) !! db.Keys) { FreshKeepsAcyclic(old(db), infos, db); }
    }
  }

  lemma PathsStep(infos: seq<ValidPathInfo>, n: nat)
    requires n < |infos|
    ensures Paths(infos[..n + 1]) == Paths(infos[..n]) + {infos[n].path}
  {
    forall p | p in Paths(infos[..n]) + {infos[n].path} ensures p in Paths(infos[..n + 1]) {
      if p == infos[n].path {
        assert infos[..n + 1][n].path == p;
      } else {
        var i :| 0 <= i < n && infos[..n][i].path == p;
        assert infos[..n + 1][i].path == p;
      }
    }
    forall p | p in Paths(infos[..n + 1]) ensures p in Paths(infos[..n]) + {infos[n].path} {
      var i :| 0 <= i < n + 1 && infos[..n + 1][i].path == p;
      if i < n { assert infos[..n][i].path == p; }
    }
  }

  lemma ListedStep(infos: seq<ValidPathInfo>, n: nat, p: Path)
    requires n < |infos|
    ensures Listed(infos[..n + 1], p) == Listed(infos[..n], p) + (if p == infos[n].path then infos[n].references else {})
  {
    assert infos[..n + 1][..n] == infos[..n];
  }

  lemma {:induction false} ListedFrom(infos: seq<ValidPathInfo>, p: Path, r: Path)
    requires r in Listed(infos, p)
    ensures exists i :: 0 <= i < |infos| && infos[i].path == p && r in infos[i].references
  {
    var n := |infos| - 1;
    if infos[n].path != p || r !in infos[n].references {
      ListedFrom(infos[..n], p, r);
      var i :| 0 <= i < n && infos[..n][i].path == p && r in infos[..n][i].references;
      assert infos[i].path == p;
    }
  }

  /** Exactly the references are joined in that some info lists for the path. */
  lemma {:induction false} ListedExactly(infos: seq<ValidPathInfo>, p: Path, r: Path)
    ensures r in Listed(infos, p) <==> exists i :: 0 <= i < |infos| && infos[i].path == p && r in infos[i].references
  {
    if r in Listed(infos, p) { ListedFrom(infos, p, r); }
    if i :| 0 <= i < |infos| && infos[i].path == p && r in infos[i].references {
      var n := |infos| - 1;
      if i < n {
        assert infos[..n][i] == infos[i];
        ListedExactly(infos[..n], p, r);
      }
    }
  }

  /** The last info about a path has its size. */
  lemma {:induction false} LastSizeCounts(db: Db, infos: seq<ValidPathInfo>, readOutputs: Path -> map<string, Path>, n: nat)
    requires n < |infos| && forall j :: n < j < |infos| ==> infos[j].path != infos[n].path
    ensures RowAfter(db, infos, readOutputs, infos[n].path).narSize == infos[n].narSize
    decreases |infos|
  {
    var init := infos[..|infos| - 1];
    if n < |init| {
      assert init[n] == infos[n];
      LastSizeCounts(db, init, readOutputs, n);
    }
  }

  /** What a new path derives from and what its outputs are is settled by the first info. */
  lemma {:induction false} FirstInfoCounts(db: Db, infos: seq<ValidPathInfo>, readOutputs: Path -> map<string, Path>, n: nat)
    requires n < |infos| && infos[n].path !in db && forall j :: 0 <= j < n ==> infos[j].path != infos[n].path
    ensures var row := RowAfter(db, infos, readOutputs, infos[n].path);
      row.deriver == infos[n].deriver && row.outputs == if IsDerivation(infos[n].path) then readOutputs(infos[n].path) else map[]
    decreases |infos|
  {
    var init := infos[..|infos| - 1];
    if n < |init| {
      assert init[n] == infos[n];
      FirstInfoCounts(db, init, readOutputs, n);
      assert init[n].path in Paths(init);
    }
  }

  /** A valid path keeps everything but its size, and a path that is not registered that too. */
  lemma {:induction false} OldRowsStay(db: Db, infos: seq<ValidPathInfo>, readOutputs: Path -> map<string, Path>, p: Path)
    requires p in db
    ensures var row := RowAfter(db, infos, readOutputs, p);
      row == db[p].(narSize := row.narSize) && (p !in Paths(infos) ==> row == db[p])
  {
    if infos != [] {
      var n := |infos| - 1;
      OldRowsStay(db, infos[..n], readOutputs, p);
      assert infos[n].path in Paths(infos);
      assert p in Paths(infos[..n]) ==> p in Paths(infos) by {
        if p in Paths(infos[..n]) { var i :| 0 <= i < n && infos[..n][i].path == p; assert infos[i].path == p; }
      }
    }
  }

  /** All that matters of a registration for the reference graph. */
  ghost predicate Grown(db: Db, infos: seq<ValidPathInfo>, after: Db) {
    after.Keys == db.Keys + Paths(infos)
    && forall p :: p in after ==> after[p].references == OldReferences(db, p) + Listed(infos, p)
  }

  lemma RegistrationKeepsClosed(db: Db, infos: seq<ValidPathInfo>, after: Db)
    requires Closed(db) && Grown(db, infos, after) && ReferencesKnown(db, infos)
    ensures Closed(after)
  {
    forall p, q | p in after && q in after[p].references ensures q in after {
      if q in Listed(infos, p) { ListedFrom(infos, p, q); }
    }
  }

  /** The new references without those that an already valid path has gained. */
  ghost function WithoutGained(db: Db, after: Db): Graph<Path> {
    map p | p in after :: if p in db then db[p].references else after[p].references
  }

  lemma {:induction false} OldWalk(db: Db, after: Db, w: seq<Path>, a: Path, b: Path)
    requires Closed(db) && a in db && WalkFromTo(WithoutGained(db, after), w, a, b)
    ensures Reach(RefGraph(db), a, b) && b in db
    decreases |w|
  {
    if |w| == 1 {
      ReachSelf(RefGraph(db), a);
    } else {
      WalkTail(WithoutGained(db, after), w, a, b);
      OldWalk(db, after, w[1..], w[1], b);
      assert Edge(RefGraph(db), a, w[1]);
      ReachStep(RefGraph(db), a, w[1], b);
    }
  }

  lemma {:induction false} NewWalk(db: Db, infos: seq<ValidPathInfo>, after: Db, w: seq<Path>, a: Path, b: Path)
    requires Closed(db) && Closed(after) && Grown(db, infos, after)
    requires a in after && b !in db && WalkFromTo(WithoutGained(db, after), w, a, b)
    ensures Reach(TopoSort.Restricted(after, Paths(infos)), a, b) && a !in db
    decreases |w|
  {
    var g := TopoSort.Restricted(after, Paths(infos));
    if a in db { OldWalk(db, after, w, a, b); }
    if |w| == 1 {
      ReachSelf(g, a);
    } else {
      WalkTail(WithoutGained(db, after), w, a, b);
      NewWalk(db, infos, after, w[1..], w[1], b);
      assert Edge(g, a, w[1]);
      ReachStep(g, a, w[1], b);
    }
  }

  /** New paths cannot lie on a cycle with old ones, so sorting the new ones is enough as
      far as old paths gain no references. */
  lemma WithoutGainedIsAcyclic(db: Db, infos: seq<ValidPathInfo>, after: Db)
    requires Closed(db) && Acyclic(RefGraph(db)) && Grown(db, infos, after) && ReferencesKnown(db, infos)
    requires Acyclic(TopoSort.Restricted(after, Paths(infos)))
    ensures Acyclic(WithoutGained(db, after))
  {
    RegistrationKeepsClosed(db, infos, after);
    var g := WithoutGained(db, after);
    forall a, b | Edge(g, a, b) ensures !Reach(g, b, a) {
      if w :| WalkFromTo(g, w, b, a) {
        if a in db {
          OldWalk(db, after, w, b, a);
          assert Edge(RefGraph(db), a, b);
        } else {
          NewWalk(db, infos, after, w, b, a);
          assert Edge(TopoSort.Restricted(after, Paths(infos)), a, b);
        }
      }
    }
  }

  lemma FreshKeepsAcyclic(db: Db, infos: seq<ValidPathInfo>, after: Db)
    requires Closed(db) && Acyclic(RefGraph(db)) && Grown(db, infos, after) && ReferencesKnown(db, infos)
    requires Acyclic(TopoSort.Restricted(after, Paths(infos))) && Paths(infos) !! db.Keys
    ensures Acyclic(RefGraph(after))
  {
    WithoutGainedIsAcyclic(db, infos, after);
    forall a, b | Edge(RefGraph(after), a, b) ensures Edge(WithoutGained(db, after), a, b) {
      if b in Listed(infos, a) { ListedFrom(infos, a, b); }
    }
    AcyclicMono(RefGraph(after), WithoutGained(db, after));
  }

  /** The references that there will be. */
  ghost function NewReferences(db: Db, infos: seq<ValidPathInfo>): Graph<Path> {
    map p | p in db.Keys + Paths(infos) :: OldReferences(db, p) + Listed(infos, p)
  }

  /** A path that is valid already is to be given a reference from which it can be reached. */
  ghost predicate BackReference(db: Db, infos: seq<ValidPathInfo>) {
    exists p, r :: p in db && r in Listed(infos, p) && r != p && Reach(NewReferences(db, infos), r, p)
  }

  lemma {:induction false} CycleWalk(db: Db, infos: seq<ValidPathInfo>, after: Db, w: seq<Path>, a: Path, b: Path)
    requires Grown(db, infos, after) && !BackReference(db, infos)
    requires WalkFromTo(RefGraph(after), w, a, b) && Reach(RefGraph(after), b, a)
    ensures Reach(WithoutGained(db, after), a, b)
    decreases |w|
  {
    var n, g := RefGraph(after), WithoutGained(db, after);
    assert NewReferences(db, infos) == n;
    if |w| == 1 {
      ReachSelf(g, a);
    } else {
      WalkTail(n, w, a, b);
      ReachEdge(n, a, w[1]);
      ReachTrans(n, b, a, w[1]);
      CycleWalk(db, infos, after, w[1..], w[1], b);
      ReachTrans(n, w[1], b, a);
      assert Edge(g, a, w[1]);
      ReachStep(g, a, w[1], b);
    }
  }

  /** For every registration that the sort of the registered paths lets through, whether or
      not some of them were valid before: the store stays acyclic if and only if no path that
      is valid already is to be given a reference from which it can be reached. */
  lemma AcyclicUnlessBackReference(db: Db, infos: seq<ValidPathInfo>, after: Db)
    requires Closed(db) && Acyclic(RefGraph(db)) && Grown(db, infos, after) && ReferencesKnown(db, infos)
    requires Acyclic(TopoSort.Restricted(after, Paths(infos)))
    ensures Acyclic(RefGraph(after)) <==> !BackReference(db, infos)
  {
    var n := RefGraph(after);
    assert NewReferences(db, infos) == n;
    if p, r :| p in db && r in Listed(infos, p) && r != p && Reach(n, r, p) {
      assert Edge(n, p, r);
    }
    if !BackReference(db, infos) {
      WithoutGainedIsAcyclic(db, infos, after);
      forall a, b | Edge(n, a, b) ensures !Reach(n, b, a) {
        if w :| WalkFromTo(n, w, b, a) {
          ReachEdge(n, a, b);
          assert Edge(WithoutGained(db, after), a, b);
          CycleWalk(db, infos, after, w, b, a);
        }
      }
    }
  }

  /** Registering an old path again with a reference to one that refers to it: the sort sees
      one path only and the store becomes cyclic. */
  lemma ReRegistrationCanMakeCycle()
    ensures
      var db: Db := map["/a" := PathInfo({}, "", map[], 0), "/b" := PathInfo({"/a"}, "", map[], 0)];
      var infos := [ValidPathInfo("/a", {"/b"}, "", 0)];
      var after: Db := db["/a" := PathInfo({"/b"}, "", map[], 0)];
      Closed(db) && Acyclic(RefGraph(db)) && Grown(db, infos, after) && ReferencesKnown(db, infos)
      && Acyclic(TopoSort.Restricted(after, Paths(infos))) && !Acyclic(RefGraph(after))
  {
    var db: Db := map["/a" := PathInfo({}, "", map[], 0), "/b" := PathInfo({"/a"}, "", map[], 0)];
    var infos := [ValidPathInfo("/a", {"/b"}, "", 0)];
    var after: Db := db["/a" := PathInfo({"/b"}, "", map[], 0)];
    TopoSort.OrderedIsAcyclic(RefGraph(db), ["/b", "/a"]);
    assert infos[..0] == [] && Paths(infos) == {infos[0].path};
    TopoSort.OrderedIsAcyclic(TopoSort.Restricted(after, Paths(infos)), ["/a"]);
    ReachEdge(RefGraph(after), "/b", "/a");
    assert Edge(RefGraph(after), "/a", "/b");
  }
}
