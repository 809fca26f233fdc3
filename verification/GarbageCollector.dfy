/** Mark and sweep (nix/libstore/gc.cc).  Liveness is reachability of a root over
    "incoming" edges: referrers, kept outputs and kept derivers. */
module GarbageCollector {
  import opened Graphs
  import opened StoreDb

  datatype GCAction = ReturnLive | ReturnDead | DeleteDead | DeleteSpecific

  datatype GCOptions = GCOptions(action: GCAction, ignoreLiveness: bool, pathsToDelete: set<Path>, maxFreed: nat)

  /** How a call ended: normally, or with one of the exceptions of the collector. */
  datatype Outcome = Done | LimitReached | PathInUse | StillAlive(path: Path)

  /** What an entry of the store directory is, as lstat() tells. */
  datatype FileType = DirectoryEntry | OtherEntry

  datatype RenameResult = Renamed | NoSpaceOrCrossDevice | OtherFailure

  /** The edges the mark phase follows from `path`; nothing leads out of an invalid path. */
  function Incoming(db: Db, keepOutputs: bool, keepDerivations: bool, path: Path): set<Path> {
    if path !in db then {}
    else
      QueryReferrers(db, path)
      + (if keepDerivations && IsDerivation(path)
         then set o | o in db[path].outputs.Values && o in db && db[o].deriver == path
         else {})
      + (if keepOutputs then QueryValidDerivers(db, path) else {})
  }

  ghost function IncomingGraph(db: Db, keepOutputs: bool, keepDerivations: bool): Graph<Path> {
    map p | p in db :: Incoming(db, keepOutputs, keepDerivations, p)
  }

  /** A chain of incoming edges leads from `path` to a root. */
  ghost predicate Live(db: Db, keepOutputs: bool, keepDerivations: bool, roots: set<Path>, path: Path) {
    exists r :: r in roots && Reach(IncomingGraph(db, keepOutputs, keepDerivations), path, r)
  }

  lemma LiveStep(db: Db, ko: bool, kd: bool, roots: set<Path>, path: Path, next: Path)
    requires next in Incoming(db, ko, kd, path) && Live(db, ko, kd, roots, next)
    ensures Live(db, ko, kd, roots, path)
  {
    var g := IncomingGraph(db, ko, kd);
    var r :| r in roots && Reach(g, next, r);
    if next != path { ReachStep(g, path, next, r); }
  }

  /** With keepDerivations a valid derivation lives while an output lives that it has made. */
  lemma DerivationsAreKept(db: Db, ko: bool, roots: set<Path>, d: Path, name: string)
    requires d in db && IsDerivation(d) && name in db[d].outputs
    requires var o := db[d].outputs[name]; o in db && db[o].deriver == d && Live(db, ko, true, roots, o)
    ensures Live(db, ko, true, roots, d)
  {
    assert db[d].outputs[name] in db[d].outputs.Values;
    LiveStep(db, ko, true, roots, d, db[d].outputs[name]);
  }

  /** With keepOutputs a valid output lives while a derivation lives that can make it. */
  lemma OutputsAreKept(db: Db, kd: bool, roots: set<Path>, d: Path, name: string)
    requires d in db && name in db[d].outputs && db[d].outputs[name] in db && Live(db, true, kd, roots, d)
    ensures Live(db, true, kd, roots, db[d].outputs[name])
  {
    assert db[d].outputs[name] in db[d].outputs.Values;
    LiveStep(db, true, kd, roots, db[d].outputs[name], d);
  }

  /** A search that met no root and only ran into what it visited or into dead paths
      has visited only dead paths. */
  lemma SearchWithoutRoot(db: Db, ko: bool, kd: bool, roots: set<Path>, visited: set<Path>, dead: set<Path>, path: Path)
    requires path in visited
    requires forall d :: d in dead ==> !Live(db, ko, kd, roots, d)
    requires forall q :: q in visited ==> q !in roots
    requires forall q, e :: q in visited && e in Incoming(db, ko, kd, q) ==> e in visited + dead
    ensures !Live(db, ko, kd, roots, path)
  {
    var g := IncomingGraph(db, ko, kd);
    if r :| r in roots && Reach(g, path, r) {
      var s := iset q | q in visited || !Live(db, ko, kd, roots, q);
      forall x, y | x in s && Edge(g, x, y) ensures y in s {
        if x in visited { assert y in visited + dead; }
        if x !in visited && Live(db, ko, kd, roots, y) { LiveStep(db, ko, kd, roots, x, y); }
      }
      ReachInside(g, s, path, r);
      ReachSelf(g, r);
    }
  }

  /** What leads to `path` by references is reached from it over incoming edges. */
  lemma {:induction false} DependentIsIncoming(db: Db, ko: bool, kd: bool, w: seq<Path>, q: Path, path: Path)
    requires Closed(db) && WalkFromTo(RefGraph(db), w, q, path)
    ensures Reach(IncomingGraph(db, ko, kd), path, q)
    decreases |w|
  {
    var g := IncomingGraph(db, ko, kd);
    if |w| == 1 {
      ReachSelf(g, q);
    } else {
      WalkTail(RefGraph(db), w, q, path);
      DependentIsIncoming(db, ko, kd, w[1..], w[1], path);
      assert q in QueryReferrers(db, w[1]);
      ReachEdge(g, w[1], q);
      ReachTrans(g, path, w[1], q);
    }
  }

  /** A path that refers, directly or not, to a dead path is dead. */
  lemma DependentsOfDeadAreDead(db: Db, ko: bool, kd: bool, roots: set<Path>, path: Path, q: Path)
    requires Closed(db) && Reach(RefGraph(db), q, path) && Live(db, ko, kd, roots, q)
    ensures Live(db, ko, kd, roots, path)
  {
    var g := IncomingGraph(db, ko, kd);
    var w :| WalkFromTo(RefGraph(db), w, q, path);
    DependentIsIncoming(db, ko, kd, w, q, path);
    var r :| r in roots && Reach(g, q, r);
    ReachTrans(g, path, q, r);
  }

  /** Whatever a live path refers to, directly or not, is live. */
  lemma ClosureOfLiveIsLive(db: Db, ko: bool, kd: bool, roots: set<Path>, p: Path, q: Path)
    requires Closed(db) && Live(db, ko, kd, roots, p) && Reach(RefGraph(db), p, q)
    ensures Live(db, ko, kd, roots, q)
  {
    DependentsOfDeadAreDead(db, ko, kd, roots, q, p);
  }

  /** Removing dead paths changes the liveness of no path. */
  lemma RemovingDeadKeepsLiveness(small: Db, big: Db, ko: bool, kd: bool, roots: set<Path>, p: Path)
    requires SubDb(small, big)
    requires forall q :: q in big && q !in small ==> !Live(big, ko, kd, roots, q)
    ensures Live(small, ko, kd, roots, p) <==> Live(big, ko, kd, roots, p)
  {
    var g, h := IncomingGraph(small, ko, kd), IncomingGraph(big, ko, kd);
    if r :| r in roots && Reach(g, p, r) {
      assert Subgraph(g, h);
      ReachMono(g, h, p, r);
    }
    if r :| r in roots && Reach(h, p, r) {
      var w :| WalkFromTo(h, w, p, r);
      LiveWalkStays(small, big, ko, kd, roots, w, p, r);
    }
  }

  lemma {:induction false} LiveWalkStays(small: Db, big: Db, ko: bool, kd: bool, roots: set<Path>, w: seq<Path>, p: Path, r: Path)
    requires SubDb(small, big)
    requires forall q :: q in big && q !in small ==> !Live(big, ko, kd, roots, q)
    requires r in roots && WalkFromTo(IncomingGraph(big, ko, kd), w, p, r)
    ensures Reach(IncomingGraph(small, ko, kd), p, r)
    decreases |w|
  {
    var g, h := IncomingGraph(small, ko, kd), IncomingGraph(big, ko, kd);
    if |w| == 1 {
      ReachSelf(g, p);
    } else {
      WalkTail(h, w, p, r);
      LiveWalkStays(small, big, ko, kd, roots, w[1..], w[1], r);
      assert Live(big, ko, kd, roots, p) && Live(big, ko, kd, roots, w[1]) by {
        assert Reach(h, p, r) && Reach(h, w[1], r);
      }
      assert Edge(g, p, w[1]);
      ReachStep(g, p, w[1], r);
    }
  }

  /** From one database and store directory to a later one, nothing live is gone and
      liveness is what it was. */
  ghost predicate NothingLiveLost(first: Db, firstFiles: map<Path, FileType>, db: Db, files: map<Path, FileType>,
                                  ko: bool, kd: bool, roots: set<Path>)
  {
    SubDb(db, first)
    && (forall q :: Live(db, ko, kd, roots, q) <==> Live(first, ko, kd, roots, q))
    && (forall q :: q in first && Live(first, ko, kd, roots, q) ==> q in db)
    && (forall f :: f in files ==> f in firstFiles)
    && (forall f :: f in firstFiles && Live(first, ko, kd, roots, f) ==> f in files)
  }

  lemma LostTrans(db0: Db, f0: map<Path, FileType>, db1: Db, f1: map<Path, FileType>, db2: Db, f2: map<Path, FileType>,
                  ko: bool, kd: bool, roots: set<Path>)
    requires NothingLiveLost(db0, f0, db1, f1, ko, kd, roots) && NothingLiveLost(db1, f1, db2, f2, ko, kd, roots)
    ensures NothingLiveLost(db0, f0, db2, f2, ko, kd, roots)
  {
  }

  /** What a collection has done so far: the database and the store directory, the entries that
      could not be moved into the trash, those reported as deleted, and those in the trash with
      the sizes they have been counted for. */
  datatype Progress = Progress(db: Db, files: map<Path, FileType>, stuck: set<Path>, results: set<Path>, moved: seq<(Path, nat)>)
  {
    /** Not in the store directory any more, unless it could not be moved. */
    ghost predicate OffDisk(path: Path) {
      path in files ==> path in stuck
    }

    /** Neither valid nor in the store directory. */
    ghost predicate Gone(path: Path) {
      path !in db && OffDisk(path)
    }

    /** An entry without a row leaves the store directory.  A directory is renamed into the
        trash; a failed rename other than a full disk leaves the entry where it was. */
    ghost function Removed(path: Path, size: nat, moveToTrash: bool, renamed: RenameResult): Progress {
      if path !in files then this
      else if !(moveToTrash && files[path].DirectoryEntry?) || renamed.NoSpaceOrCrossDevice? then
        this.(files := files - {path}, results := results + {path})
      else if renamed.Renamed? then
        this.(files := files - {path}, results := results + {path}, moved := moved + [(path, size)])
      else
        this.(stuck := stuck + {path}, results := results + {path})
    }

    /** A row that is gone has left the disk, and what has left it is reported, unless it
        could not be moved; nothing else is reported, and only directories can be stuck. */
    ghost predicate Settled(first: Progress, moveToTrash: bool, f: Path) {
      (f in first.db && f !in db ==> OffDisk(f))
      && (f in files ==> f in first.files && files[f] == first.files[f])
      && (f in first.files && f !in files ==> f in results)
      && (f in results && f !in first.results ==> f in first.files && OffDisk(f))
      && (f in stuck && f !in first.stuck ==> moveToTrash && f in first.files && first.files[f].DirectoryEntry? && f !in db)
    }

    /** From an earlier state, only dependents of `path` have been deleted, from the database
        and from the disk. */
    ghost predicate WithDependents(first: Progress, path: Path) {
      SubDb(db, first.db) && first.stuck <= stuck
      && (forall q :: q in first.db && q !in db ==> q in Dependents(first.db, path) && OffDisk(q))
      && (forall f :: f in first.files && f !in files ==> f == path || f in Dependents(first.db, path))
      && (forall f :: f in files ==> f in first.files)
    }

    /** The entry was counted for the size in its row; without a row it is counted for nothing,
        and so it is if an earlier attempt has taken away the row but not the entry. */
    ghost predicate Counted(first: Progress, m: (Path, nat)) {
      m.0 in first.files && m.0 !in files && m.1 == if m.0 in first.db && m.0 !in stuck then first.db[m.0].narSize else 0
    }

    ghost predicate Since(first: Progress, moveToTrash: bool) {
      SubDb(db, first.db) && first.moved <= moved
      && (forall f :: Settled(first, moveToTrash, f))
      && (forall i {:trigger moved[i]} :: |first.moved| <= i < |moved| ==> Counted(first, moved[i]))
    }
  }

  lemma RemovedIsSettled(first: Progress, p: Progress, path: Path, size: nat, moveToTrash: bool, renamed: RenameResult, f: Path)
    requires p.Settled(first, moveToTrash, f) && first.stuck == {}
    ensures p.(db := p.db - {path}).Removed(path, size, moveToTrash, renamed).Settled(first, moveToTrash, f)
  {
  }

  lemma RemovedIsCounted(first: Progress, p: Progress, path: Path, size: nat, moveToTrash: bool, renamed: RenameResult)
    requires p.Since(first, moveToTrash) && first.stuck == {} && size == if path in p.db then p.db[path].narSize else 0
    ensures var q := p.(db := p.db - {path}).Removed(path, size, moveToTrash, renamed);
      forall i :: |first.moved| <= i < |q.moved| ==> q.Counted(first, q.moved[i])
  {
    var q := p.(db := p.db - {path}).Removed(path, size, moveToTrash, renamed);
    assert p.Settled(first, moveToTrash, path);
    forall i | |first.moved| <= i < |q.moved| ensures q.Counted(first, q.moved[i]) {
      if i < |p.moved| { assert p.Counted(first, p.moved[i]); }
    }
  }

  /** Deleting a path together with its row keeps the accounts. */
  lemma RemovedSince(first: Progress, p: Progress, path: Path, size: nat, moveToTrash: bool, renamed: RenameResult)
    requires p.Since(first, moveToTrash) && first.stuck == {} && size == if path in p.db then p.db[path].narSize else 0
    ensures p.(db := p.db - {path}).Removed(path, size, moveToTrash, renamed).Since(first, moveToTrash)
  {
    RemovedIsCounted(first, p, path, size, moveToTrash, renamed);
    var q := p.(db := p.db - {path}).Removed(path, size, moveToTrash, renamed);
    forall f ensures q.Settled(first, moveToTrash, f) {
      assert p.Settled(first, moveToTrash, f);
      RemovedIsSettled(first, p, path, size, moveToTrash, renamed, f);
    }
  }

  lemma AlsoDependents(first: Progress, middle: Progress, last: Progress, path: Path, i: Path)
    requires middle.WithDependents(first, path) && last.WithDependents(middle, i)
    requires i == path || (i in Dependents(first.db, path) && Dependents(first.db, i) <= Dependents(first.db, path))
    ensures last.WithDependents(first, path)
  {
    DependentsShrink(middle.db, first.db, i);
  }

  /** What the collector goes by: which paths are live and which are passed over. */
  datatype Policy = Policy(keepOutputs: bool, keepDerivations: bool, roots: set<Path>, tempRoots: set<Path>, linksDir: Path, trashDir: Path)
  {
    ghost predicate IsLive(db: Db, path: Path) {
      Live(db, keepOutputs, keepDerivations, roots, path)
    }

    predicate IsActiveTempFile(path: Path, suffix: string) {
      HasSuffix(path, suffix) && path[..|path| - |suffix|] in tempRoots
    }

    /** tryToDelete() passes over these: the links and trash directories, and lock files
        and chroots of what is being built. */
    predicate Skipped(db: Db, path: Path) {
      path == linksDir || path == trashDir
      || (path !in db && (IsActiveTempFile(path, ".lock") || IsActiveTempFile(path, ".chroot")))
    }

    /** Nothing live is lost, and the rows that are gone have left the disk too. */
    ghost predicate Kept(first: Progress, last: Progress) {
      NothingLiveLost(first.db, first.files, last.db, last.files, keepOutputs, keepDerivations, roots)
      && first.stuck <= last.stuck && forall q :: q in first.db && q !in last.db ==> last.OffDisk(q)
    }

    /** Gone, unless it was live or passed over. */
    ghost predicate Disposed(first: Progress, last: Progress, e: Path) {
      last.Gone(e) || Skipped(first.db, e) || IsLive(first.db, e)
    }

    lemma KeptTrans(first: Progress, middle: Progress, last: Progress)
      requires Kept(first, middle) && Kept(middle, last)
      ensures Kept(first, last)
    {
      LostTrans(first.db, first.files, middle.db, middle.files, last.db, last.files, keepOutputs, keepDerivations, roots);
    }

    lemma StaysDisposed(first: Progress, middle: Progress, last: Progress, e: Path)
      requires Kept(first, middle) && Kept(middle, last) && (Disposed(first, middle, e) || Disposed(middle, last, e))
      ensures Disposed(first, last, e)
    {
    }
  }

  /** A name with the suffix is active exactly when what comes before it is a temporary root. */
  lemma ActiveTempFile(policy: Policy, base: Path, suffix: string)
    ensures policy.IsActiveTempFile(base + suffix, suffix) <==> base in policy.tempRoots
  {
    assert (base + suffix)[..|base + suffix| - |suffix|] == base;
    assert (base + suffix)[|base + suffix| - |suffix|..] == suffix;
  }

  /** The sizes of what is in the trash. */
  function Total(moved: seq<(Path, nat)>): nat {
    if moved == [] then 0 else Total(moved[..|moved| - 1]) + moved[|moved| - 1].1
  }

  /** A collection leaves a valid root its whole closure, rows unchanged. */
  lemma RootKeepsClosure(first: Db, firstFiles: map<Path, FileType>, db: Db, files: map<Path, FileType>,
                         ko: bool, kd: bool, roots: set<Path>, root: Path, q: Path)
    requires Closed(first) && NothingLiveLost(first, firstFiles, db, files, ko, kd, roots)
    requires root in roots && root in first && Reach(RefGraph(first), root, q)
    ensures q in db && db[q] == first[q]
  {
    ReachSelf(IncomingGraph(first, ko, kd), root);
    ClosureOfLiveIsLive(first, ko, kd, roots, root, q);
    ReachInside(RefGraph(first), (iset p | p in first), root, q);
  }

  /** Taking a path without referrers out of the database keeps it closed. */
  lemma InvalidateKeepsClosed(db: Db, path: Path)
    requires Closed(db) && QueryReferrers(db, path) <= {path}
    ensures Closed(db - {path})
  {
    forall p, q | p in db - {path} && q in db[p].references ensures q in db - {path} {
      assert q == path ==> p in QueryReferrers(db, path);
    }
  }

  /** LocalStore::collectGarbage with its GCState: the database, the entries of the
      store directory, the roots, and the memo sets of the mark phase. */
  class GCState {
    var db: Db
    var files: map<Path, FileType>
    var roots: set<Path>
    var tempRoots: set<Path>
    var dead: set<Path>
    var alive: set<Path>
    var bytesFreed: nat
    var bytesInvalidated: nat
    var resultPaths: set<Path>
    ghost var stuck: set<Path>         // entries that could not be moved into the trash
    ghost var moved: seq<(Path, nat)>  // entries in the trash, with the sizes they count for
    ghost const start: Progress        // how it all began
    const options: GCOptions
    const gcKeepOutputs: bool
    const gcKeepDerivations: bool
    const moveToTrash: bool
    const linksDir: Path
    const trashDir: Path

    /** Builds the state and gathers the roots: permanent and running-program roots
        unless liveness is ignored, temporary roots always. */
    constructor (db: Db, files: map<Path, FileType>, options: GCOptions,
                 keepOutputs: bool, keepDerivations: bool, moveToTrash: bool, linksDir: Path, trashDir: Path,
                 permanentRoots: set<Path>, additionalRoots: set<Path>, tempRoots: set<Path>)
      ensures this.db == db && this.files == files && this.options == options
      ensures roots == tempRoots + (if options.ignoreLiveness then {} else permanentRoots + additionalRoots)
      ensures this.tempRoots == tempRoots && dead == {} && alive == {} && resultPaths == {} && stuck == {} && moved == []
      ensures bytesFreed == 0 && bytesInvalidated == 0 && start == Now()
      ensures gcKeepOutputs == (keepOutputs && !(options.action.DeleteSpecific? && options.ignoreLiveness))
      ensures gcKeepDerivations == (keepDerivations && !(options.action.DeleteSpecific? && options.ignoreLiveness))
      ensures this.moveToTrash == moveToTrash && this.linksDir == linksDir && this.trashDir == trashDir
    {
      this.db, this.files, this.options := db, files, options;
      this.moveToTrash, this.linksDir, this.trashDir := moveToTrash, linksDir, trashDir;
      var drop := options.action.DeleteSpecific? && options.ignoreLiveness;
      gcKeepOutputs := if drop then false else keepOutputs;
      gcKeepDerivations := if drop then false else keepDerivations;
      roots := (if options.ignoreLiveness then {} else permanentRoots + additionalRoots) + tempRoots;
      this.tempRoots := tempRoots;
      dead, alive, resultPaths, stuck, moved := {}, {}, {}, {}, [];
      bytesFreed, bytesInvalidated := 0, 0;
      start := Progress(db, files, {}, {}, []);
    }

    function Rules(): Policy
      reads this
    {
      Policy(gcKeepOutputs, gcKeepDerivations, roots, tempRoots, linksDir, trashDir)
    }

    ghost predicate IsLive(path: Path)
      reads this
    {
      Live(db, gcKeepOutputs, gcKeepDerivations, roots, path)
    }

    ghost function Now(): Progress
      reads this
    {
      Progress(db, files, stuck, resultPaths, moved)
    }

    /** The deletions since the start and the trash are accounted for. */
    ghost predicate Accounted()
      reads this
    {
      start.stuck == {} && Now().Since(start, moveToTrash) && bytesInvalidated == Total(moved)
    }

    ghost predicate OverLimit()
      reads this
    {
      bytesFreed + bytesInvalidated > options.maxFreed
    }

    /** An operation is cut short exactly when it goes over the limit. */
    ghost predicate StoppedByLimit(outcome: Outcome, before: bool)
      reads this
    {
      (outcome.LimitReached? ==> OverLimit()) && (!before && OverLimit() ==> outcome.LimitReached?)
    }

    /** The store invariant, and the memo sets tell the truth. */
    ghost predicate Valid()
      reads this
    {
      Closed(db) && Acyclic(RefGraph(db))
      && (forall p :: p in alive ==> IsLive(p))
      && (forall p :: p in dead ==> !IsLive(p))
    }

    predicate ShouldDelete() {
      options.action.DeleteDead? || options.action.DeleteSpecific?
    }

    predicate Skipped(path: Path)
      reads this
    {
      Rules().Skipped(db, path)
    }

    ghost predicate LeadsInto(path: Path, s: set<Path>)
      reads this
    {
      Incoming(db, gcKeepOutputs, gcKeepDerivations, path) <= s
    }

    /** A search has gone from `visited` to `visited'` without meeting a root: what it added
        leads only to visited or dead paths, apart from the paths still being expanded. */
    ghost predicate Searched(visited: set<Path>, visited': set<Path>, expanding: set<Path>)
      reads this
    {
      visited <= visited'
      && forall q :: q in visited' - visited ==> q !in roots && (q !in expanding ==> LeadsInto(q, visited' + dead))
    }

    lemma SearchGoesOn(visited: set<Path>, middle: set<Path>, visited': set<Path>, expanding: set<Path>)
      requires Searched(visited, middle, expanding) && Searched(middle, visited', {})
      ensures Searched(visited, visited', expanding)
    {
      forall q | q in visited' - visited && q !in expanding ensures LeadsInto(q, visited' + dead) {
        if q in middle { assert LeadsInto(q, middle + dead); }
      }
    }

    /** The memoised search.  Started with nothing visited it decides liveness, and a failed
        search has met dead paths only. */
    method CanReachRoot(visited: set<Path>, path: Path) returns (reachable: bool, visited': set<Path>)
      requires Valid()
      modifies this`alive
      ensures Valid() && old(alive) <= alive && visited <= visited'
      ensures reachable ==> IsLive(path) && path in alive
      ensures !reachable ==> path in visited' + dead && Searched(visited, visited', {})
      ensures visited == {} ==> (reachable <==> IsLive(path))
      ensures visited == {} && !reachable ==> forall q :: q in visited' ==> !IsLive(q)
      decreases db.Keys - visited, 1
    {
      visited' := visited;
      if path in visited { return false, visited'; }
      if path in alive { return true, visited'; }
      if path in dead { return false, visited'; }
      if path in roots {
        ReachSelf(IncomingGraph(db, gcKeepOutputs, gcKeepDerivations), path);
        alive := alive + {path};
        return true, visited';
      }
      visited' := visited' + {path};
      if path !in db {
        SearchFailed(visited, visited', path);
        return false, visited';
      }
      reachable, visited' := SearchIncoming(visited, visited', path);
      if !reachable { SearchFailed(visited, visited', path); }
    }

    method MarkAlive(path: Path, next: Path)
      requires Valid() && next in Incoming(db, gcKeepOutputs, gcKeepDerivations, path) && IsLive(next)
      modifies this`alive
      ensures Valid() && alive == old(alive) + {path} && IsLive(path)
    {
      LiveStep(db, gcKeepOutputs, gcKeepDerivations, roots, path, next);
      alive := alive + {path};
      forall p | p in alive ensures IsLive(p) { if p != path { assert p in old(alive); } }
    }

    /** The loop over the incoming edges of a valid path that has just been visited. */
    method SearchIncoming(visited: set<Path>, visited1: set<Path>, path: Path) returns (found: bool, visited': set<Path>)
      requires Valid() && path in db && path !in visited && path !in roots && visited1 == visited + {path}
      modifies this`alive
      ensures Valid() && old(alive) <= alive && visited1 <= visited'
      ensures found ==> IsLive(path) && path in alive
      ensures !found ==> Searched(visited, visited', {path}) && LeadsInto(path, visited' + dead)
      decreases db.Keys - visited, 0
    {
      visited' := visited1;
      var incoming := Incoming(db, gcKeepOutputs, gcKeepDerivations, path);
      var todo := incoming;
      while todo != {}
        invariant Valid() && old(alive) <= alive
        invariant todo <= incoming <= todo + visited' + dead
        invariant visited1 <= visited' && Searched(visited, visited', {path})
        decreases todo
      {
        var i :| i in todo;
        todo := todo - {i};
        if i != path {
          ghost var before := visited';
          found, visited' := CanReachRoot(visited', i);
          if found {
            MarkAlive(path, i);
            return;
          }
          SearchGoesOn(visited, before, visited', {path});
        }
      }
      found := false;
    }

    lemma SearchFailed(visited: set<Path>, visited': set<Path>, path: Path)
      requires Valid() && path in visited' && path !in visited
      requires Searched(visited, visited', {path}) && LeadsInto(path, visited' + dead)
      ensures Searched(visited, visited', {})
      ensures visited == {} ==> forall q :: q in visited' ==> !IsLive(q)
    {
      if visited == {} {
        forall q | q in visited' ensures !IsLive(q) {
          assert forall x :: x in visited' ==> LeadsInto(x, visited' + dead);
          SearchWithoutRoot(db, gcKeepOutputs, gcKeepDerivations, roots, visited', dead, q);
        }
      }
    }

    /** Invalidation in its own transaction; refuses a path that others refer to. */
    method InvalidatePathChecked(path: Path) returns (outcome: Outcome)
      requires Closed(db)
      modifies this`db
      ensures Closed(db)
      ensures outcome == (if QueryReferrers(old(db), path) <= {path} then Done else PathInUse)
      ensures db == if outcome.Done? then old(db) - {path} else old(db)
    {
      outcome := Done;
      if path in db {
        var referrers := QueryReferrers(db, path) - {path};
        if referrers != {} { return PathInUse; }
        InvalidateKeepsClosed(db, path);
        db := db - {path};
      }
    }

    /** Takes a path without a row out of the store directory.  Returns also how the rename
        went and how much was freed on the disk otherwise. */
    method RemoveFromDisk(path: Path, size: nat) returns (outcome: Outcome, renamed: RenameResult, onDisk: nat)
      modifies this`files, this`bytesFreed, this`bytesInvalidated, this`resultPaths, this`stuck, this`moved
      ensures outcome.Done? || outcome.LimitReached?
      ensures Now() == old(Now()).Removed(path, size, moveToTrash, renamed)
      ensures old(bytesInvalidated) == Total(old(moved)) ==> bytesInvalidated == Total(moved)
      ensures bytesFreed == old(bytesFreed) + if path in old(files) && path !in files && moved == old(moved) then onDisk else 0
      ensures outcome.LimitReached? <==> path in old(files) && OverLimit()
      ensures path !in old(files) ==> bytesInvalidated == old(bytesInvalidated)
    {
      renamed :| true;
      onDisk :| true;
      if path !in files { return Done, renamed, onDisk; }
      resultPaths := resultPaths + {path};
      if moveToTrash && files[path].DirectoryEntry? {
        match renamed {
          case Renamed =>
            files := files - {path};
            bytesInvalidated := bytesInvalidated + size;
            moved := moved + [(path, size)];
          case NoSpaceOrCrossDevice =>
            files := files - {path};
            bytesFreed := bytesFreed + onDisk;
          case OtherFailure => stuck := stuck + {path};
        }
      } else {
        files := files - {path};
        bytesFreed := bytesFreed + onDisk;
      }
      outcome := if bytesFreed + bytesInvalidated > options.maxFreed then LimitReached else Done;
    }

    /** What the recursive deletion keeps at every exit. */
    ghost predicate Sane()
      reads this
    {
      Closed(db) && Acyclic(RefGraph(db)) && Accounted()
    }

    /** Deletes a path that nobody else refers to any more, with its row. */
    method DeleteEntry(path: Path) returns (outcome: Outcome)
      requires Sane() && (path in db ==> QueryReferrers(db, path) <= {path})
      modifies this`db, this`files, this`bytesFreed, this`bytesInvalidated, this`resultPaths, this`stuck, this`moved
      ensures Sane() && Now().Gone(path)
      ensures Now().WithDependents(old(Now()), path)
      ensures outcome.Done? || outcome.LimitReached?
      ensures StoppedByLimit(outcome, old(OverLimit()))
    {
      var size := 0;
      if path in db {
        size := db[path].narSize;
        outcome := InvalidatePathChecked(path);
        SubDbGraph(db, old(db));
        AcyclicMono(RefGraph(db), RefGraph(old(db)));
        ReachSelf(RefGraph(old(db)), path);
      }
      assert Now() == old(Now()).(db := old(db) - {path});
      var renamed, onDisk;
      outcome, renamed, onDisk := RemoveFromDisk(path, size);
      RemovedSince(start, old(Now()), path, size, moveToTrash, renamed);
    }

    /** Deletes a path after everything that refers to it.  At every exit, the limit
        included, the database is closed and only dependents of `path` are gone. */
    method DeletePathRecursive(path: Path) returns (outcome: Outcome)
      requires Sane()
      modifies this`db, this`files, this`bytesFreed, this`bytesInvalidated, this`resultPaths, this`stuck, this`moved
      ensures Sane() && Now().WithDependents(old(Now()), path)
      ensures outcome.Done? || outcome.LimitReached?
      ensures StoppedByLimit(outcome, old(OverLimit()))
      ensures outcome.Done? ==> Now().Gone(path)
      decreases |Dependents(db, path)|, 1
    {
      ghost var before := Now();
      if path in db {
        outcome := DeleteReferrers(path);
        if !outcome.Done? { return; }
        before := Now();
      }
      outcome := DeleteEntry(path);
      AlsoDependents(old(Now()), before, Now(), path, path);
    }

    method DeleteReferrers(path: Path) returns (outcome: Outcome)
      requires Sane() && path in db
      modifies this`db, this`files, this`bytesFreed, this`bytesInvalidated, this`resultPaths, this`stuck, this`moved
      ensures Sane() && Now().WithDependents(old(Now()), path) && path in db
      ensures outcome.Done? || outcome.LimitReached?
      ensures StoppedByLimit(outcome, old(OverLimit()))
      ensures outcome.Done? ==> QueryReferrers(db, path) <= {path}
      decreases |Dependents(db, path)|, 0
    {
      outcome := Done;
      var referrers := QueryReferrers(db, path);
      var todo := referrers;
      while todo != {}
        invariant Sane() && Now().WithDependents(old(Now()), path) && path in db
        invariant OverLimit() ==> old(OverLimit())
        invariant todo <= referrers && outcome.Done?
        invariant forall q :: q in referrers - todo && q != path ==> q !in db
        decreases todo
      {
        var i :| i in todo;
        todo := todo - {i};
        if i != path {
          ReferrerStep(old(db), db, path, i);
          ghost var before := Now();
          outcome := DeletePathRecursive(i);
          AlsoDependents(old(Now()), before, Now(), path, i);
          if !outcome.Done? { return; }
        }
      }
      assert QueryReferrers(db, path) <= referrers;
    }

    /** Deletes a dead path with its referrers, which are dead too. */
    method DeleteDeadPath(path: Path) returns (outcome: Outcome)
      requires Valid() && Accounted() && !IsLive(path)
      modifies this`db, this`files, this`bytesFreed, this`bytesInvalidated, this`resultPaths, this`stuck, this`moved
      ensures Valid() && Accounted() && Kept(old(Now()))
      ensures outcome.Done? || outcome.LimitReached?
      ensures StoppedByLimit(outcome, old(OverLimit()))
      ensures outcome.Done? ==> Now().Gone(path)
      ensures forall q :: IsLive(q) <==> old(IsLive(q))
      ensures path !in old(db) ==> db == old(db)
    {
      outcome := DeletePathRecursive(path);
      DeletionSound(path, old(db), db);
    }

    /** Marks `path`, then deletes it with its referrers if it is dead and deletion is on. */
    method TryToDelete(path: Path) returns (outcome: Outcome)
      requires Valid() && Accounted()
      modifies this`db, this`files, this`alive, this`dead, this`bytesFreed, this`bytesInvalidated, this`resultPaths, this`stuck, this`moved
      ensures Valid() && Kept(old(Now()))
      ensures old(alive) <= alive && old(dead) <= dead
      ensures outcome.Done? || outcome.LimitReached?
      ensures StoppedByLimit(outcome, old(OverLimit()))
      ensures !old(Skipped(path)) ==> Marked(path)
      ensures forall q :: old(Marked(q)) ==> Marked(q)
      ensures outcome.Done? && ShouldDelete() ==> Disposed(old(Now()), path)
      ensures Accounted()
      ensures !ShouldDelete() ==> outcome.Done? && db == old(db) && files == old(files)
      ensures path !in old(db) ==> db == old(db)
    {
      outcome := Done;
      if path == linksDir || path == trashDir { return; }
      if path !in db {
        if Rules().IsActiveTempFile(path, ".lock") { return; }
        if Rules().IsActiveTempFile(path, ".chroot") { return; }
      }
      var reachable, visited := CanReachRoot({}, path);
      if !reachable {
        dead := dead + visited;
        if ShouldDelete() { outcome := DeleteDeadPath(path); }
      }
    }

    ghost predicate Kept(first: Progress)
      reads this
    {
      Rules().Kept(first, Now())
    }

    ghost predicate Disposed(first: Progress, e: Path)
      reads this
    {
      Rules().Disposed(first, Now(), e)
    }

    lemma DisposedOn(first: Progress, middle: Progress, e: Path)
      requires Rules().Kept(first, middle) && Kept(middle) && Disposed(middle, e)
      ensures Disposed(first, e)
      ensures forall x :: Rules().Disposed(first, middle, x) ==> Disposed(first, x)
    {
      Rules().StaysDisposed(first, middle, Now(), e);
      forall x | Rules().Disposed(first, middle, x) ensures Disposed(first, x) {
        Rules().StaysDisposed(first, middle, Now(), x);
      }
    }

    lemma DisposedTwice(first: Progress, middle: Progress, e: Path)
      requires Rules().Kept(first, middle) && Kept(middle)
      requires if e in middle.db then Disposed(middle, e) else Rules().Disposed(first, middle, e)
      ensures Disposed(first, e)
    {
      Rules().StaysDisposed(first, middle, Now(), e);
    }

    /** First pass over the store directory: invalid entries are tried at once, valid
        ones are put off. */
    method SweepInvalid(entries: seq<Path>) returns (outcome: Outcome, later: seq<Path>)
      requires Valid() && Accounted()
      modifies this`db, this`files, this`alive, this`dead, this`bytesFreed, this`bytesInvalidated, this`resultPaths, this`stuck, this`moved
      ensures Valid() && Kept(old(Now())) && db == old(db)
      ensures outcome.Done? || outcome.LimitReached?
      ensures StoppedByLimit(outcome, old(OverLimit()))
      ensures !ShouldDelete() ==> outcome.Done? && files == old(files)
      ensures outcome.Done? ==> forall e :: e in entries && e in db ==> e in later
      ensures outcome.Done? ==> forall e :: e in entries && e !in db && !Skipped(e) ==> Marked(e)
      ensures outcome.Done? && ShouldDelete() ==> forall e :: e in entries && e !in db ==> Disposed(old(Now()), e)
      ensures Accounted()
      ensures old(alive) <= alive && old(dead) <= dead
    {
      outcome, later := Done, [];
      for n := 0 to |entries|
        invariant Valid() && Kept(old(Now())) && db == old(db)
        invariant !ShouldDelete() ==> files == old(files)
        invariant outcome.Done? && (OverLimit() ==> old(OverLimit()))
        invariant forall e :: e in entries[..n] && e in db ==> e in later
        invariant forall e :: e in entries[..n] && e !in db && !Skipped(e) ==> Marked(e)
        invariant ShouldDelete() ==> forall e :: e in entries[..n] && e !in db ==> Disposed(old(Now()), e)
        invariant Accounted()
        invariant old(alive) <= alive && old(dead) <= dead
      {
        if entries[n] in db {
          later := later + [entries[n]];
        } else {
          ghost var before := Now();
          outcome := TryToDelete(entries[n]);
          Rules().KeptTrans(old(Now()), before, Now());
          if outcome.LimitReached? { return; }
          if ShouldDelete() { DisposedOn(old(Now()), before, entries[n]); }
        }
      }
    }

    /** Second pass: the valid entries, in whatever order the shuffle left them. */
    method SweepValid(entries: seq<Path>) returns (outcome: Outcome)
      requires Valid() && Accounted()
      modifies this`db, this`files, this`alive, this`dead, this`bytesFreed, this`bytesInvalidated, this`resultPaths, this`stuck, this`moved
      ensures Valid() && Kept(old(Now()))
      ensures outcome.Done? || outcome.LimitReached?
      ensures StoppedByLimit(outcome, old(OverLimit()))
      ensures !ShouldDelete() ==> outcome.Done? && db == old(db) && files == old(files)
      ensures !ShouldDelete() ==> forall e :: e in entries && !Skipped(e) ==> Marked(e)
      ensures outcome.Done? && ShouldDelete() ==>
        forall e :: e in entries ==> Disposed(old(Now()), e)
      ensures Accounted()
      ensures old(alive) <= alive && old(dead) <= dead
    {
      outcome := Done;
      for n := 0 to |entries|
        invariant Valid() && Kept(old(Now()))
        invariant outcome.Done? && (OverLimit() ==> old(OverLimit()))
        invariant !ShouldDelete() ==> db == old(db) && files == old(files)
        invariant !ShouldDelete() ==> forall e :: e in entries[..n] && !Skipped(e) ==> Marked(e)
        invariant ShouldDelete() ==>
          forall e :: e in entries[..n] ==> Disposed(old(Now()), e)
        invariant Accounted()
        invariant old(alive) <= alive && old(dead) <= dead
      {
        ghost var before := Now();
        outcome := TryToDelete(entries[n]);
        Rules().KeptTrans(old(Now()), before, Now());
        if outcome.LimitReached? { return; }
        if ShouldDelete() { DisposedOn(old(Now()), before, entries[n]); }
        assert entries[..n + 1] == entries[..n] + [entries[n]];
      }
    }

    /** The sweep over the store directory: invalid entries while reading it, then the
        valid ones in random order, unless the limit cuts it short. */
    method Sweep(entries: seq<Path>) returns (outcome: Outcome)
      requires Valid() && Accounted()
      modifies this`db, this`files, this`alive, this`dead, this`bytesFreed, this`bytesInvalidated, this`resultPaths, this`stuck, this`moved
      ensures Valid() && Kept(old(Now()))
      ensures outcome.Done? || outcome.LimitReached?
      ensures StoppedByLimit(outcome, old(OverLimit())) && Accounted()
      ensures !ShouldDelete() ==> outcome.Done? && db == old(db) && files == old(files)
      ensures !ShouldDelete() ==> forall e :: e in entries && !Skipped(e) ==> Marked(e)
      ensures outcome.Done? && ShouldDelete() ==>
        forall e :: e in entries ==> Disposed(old(Now()), e)
    {
      var later;
      outcome, later := SweepInvalid(entries);
      if outcome.LimitReached? { return; }
      ghost var before := Now();
      var shuffled: seq<Path> :| multiset(shuffled) == multiset(later);
      assert forall e :: e in later ==> e in multiset(shuffled);
      outcome := SweepValid(shuffled);
      Rules().KeptTrans(old(Now()), before, Now());
      if outcome.Done? && ShouldDelete() {
        forall e | e in entries ensures Disposed(old(Now()), e) { DisposedTwice(old(Now()), before, e); }
      }
    }

    /** The paths named on the command line, one after the other; a path that is not
        dead afterwards is an error, and here the limit is not caught. */
    method DeleteNamed(paths: set<Path>) returns (outcome: Outcome)
      requires Valid() && Accounted() && ShouldDelete()
      modifies this`db, this`files, this`alive, this`dead, this`bytesFreed, this`bytesInvalidated, this`resultPaths, this`stuck, this`moved
      ensures Valid() && Kept(old(Now()))
      ensures StoppedByLimit(outcome, old(OverLimit())) && Accounted()
      ensures !outcome.PathInUse?
      ensures outcome.Done? ==> forall p :: p in paths ==> (Now().Gone(p) || old(Skipped(p))) && !old(IsLive(p))
      ensures outcome.StillAlive? ==> outcome.path in paths && (Skipped(outcome.path) || old(IsLive(outcome.path)))
    {
      outcome := Done;
      var todo := paths;
      while todo != {}
        invariant Valid() && Kept(old(Now()))
        invariant outcome.Done? && todo <= paths && (OverLimit() ==> old(OverLimit()))
        invariant forall p :: p in paths && p !in todo ==> Disposed(old(Now()), p) && !old(IsLive(p))
        invariant Accounted()
        decreases todo
      {
        var i :| i in todo;
        todo := todo - {i};
        ghost var before := Now();
        outcome := TryToDelete(i);
        Rules().KeptTrans(old(Now()), before, Now());
        if outcome.LimitReached? { return; }
        if i !in dead { return StillAlive(i); }
        DisposedOn(old(Now()), before, i);
        assert !IsLive(i);
      }
    }

    /** A whole collection.  `complete` is false when the sweep was cut short, which only the
        limit does, or skipped, because the limit is 0 or paths were named.
        Nothing live is lost in any mode and at any exit, deletion never runs into a path
        in use, and the two listing modes return the true split of what they examined. */
    method CollectGarbage(entries: seq<Path>) returns (outcome: Outcome, complete: bool)
      requires Valid() && Accounted()
      modifies this`db, this`files, this`alive, this`dead, this`bytesFreed, this`bytesInvalidated, this`resultPaths, this`stuck, this`moved
      ensures Valid() && Kept(old(Now()))
      ensures !outcome.PathInUse?
      ensures options.action.DeleteSpecific? ==> StoppedByLimit(outcome, old(OverLimit()))
      ensures !options.action.DeleteSpecific? ==> outcome.Done? && (!complete ==> options.maxFreed == 0 || (ShouldDelete() && OverLimit()))
      ensures complete && !old(OverLimit()) ==> !OverLimit()
      ensures ShouldDelete() ==> Accounted()
      ensures !ShouldDelete() ==> db == old(db) && files == old(files)
      ensures forall p :: p in resultPaths ==> (options.action.ReturnLive? ==> IsLive(p)) && (options.action.ReturnDead? ==> !IsLive(p))
      ensures options.action.ReturnLive? && complete ==>
        forall e :: e in entries && !Skipped(e) ==> (e in resultPaths <==> IsLive(e))
      ensures options.action.ReturnDead? && complete ==>
        forall e :: e in entries && !Skipped(e) ==> (e in resultPaths <==> !IsLive(e))
      ensures options.action.DeleteDead? && complete ==>
        forall e :: e in entries ==> Disposed(old(Now()), e)
      ensures options.action.DeleteSpecific? && outcome.Done? ==>
        forall p :: p in options.pathsToDelete ==> (Now().Gone(p) || old(Skipped(p))) && !old(IsLive(p))
      ensures outcome.StillAlive? ==>
        outcome.path in options.pathsToDelete && (Skipped(outcome.path) || old(IsLive(outcome.path)))
    {
      outcome, complete := Done, false;
      if options.action.DeleteSpecific? {
        outcome := DeleteNamed(options.pathsToDelete);
        if !outcome.Done? { return; }
      } else if options.maxFreed > 0 {
        var swept := Sweep(entries);
        complete := swept.Done?;
      }
      if options.action.ReturnLive? {
        resultPaths := alive;
      } else if options.action.ReturnDead? {
        resultPaths := dead;
      }
    }

    ghost predicate Marked(path: Path)
      reads this
    {
      (path in alive <==> IsLive(path)) && (path in dead <==> !IsLive(path))
    }

    lemma DeletionSound(path: Path, big: Db, small: Db)
      requires Closed(big) && SubDb(small, big) && !Live(big, gcKeepOutputs, gcKeepDerivations, roots, path)
      requires forall q :: q in big && q !in small ==> q in Dependents(big, path)
      ensures forall q :: q in Dependents(big, path) ==> !Live(big, gcKeepOutputs, gcKeepDerivations, roots, q)
      ensures forall q :: Live(small, gcKeepOutputs, gcKeepDerivations, roots, q)
                          <==> Live(big, gcKeepOutputs, gcKeepDerivations, roots, q)
      ensures path !in big ==> Dependents(big, path) == {} && small == big
    {
      forall q | q in Dependents(big, path) ensures !Live(big, gcKeepOutputs, gcKeepDerivations, roots, q) {
        if Live(big, gcKeepOutputs, gcKeepDerivations, roots, q) {
          DependentsOfDeadAreDead(big, gcKeepOutputs, gcKeepDerivations, roots, path, q);
        }
      }
      forall q ensures Live(small, gcKeepOutputs, gcKeepDerivations, roots, q)
                       <==> Live(big, gcKeepOutputs, gcKeepDerivations, roots, q) {
        RemovingDeadKeepsLiveness(small, big, gcKeepOutputs, gcKeepDerivations, roots, q);
      }
      if path !in big {
        forall q | q in Dependents(big, path) ensures false {
          ReachInside(RefGraph(big), (iset p | p in big), q, path);
        }
      }
    }
  }

  /** Deleting what depends on a referrer of `path` deletes only dependents of `path`,
      and never `path` itself. */
  lemma ReferrerStep(first: Db, db: Db, path: Path, referrer: Path)
    requires SubDb(db, first) && Acyclic(RefGraph(first)) && path in first
    requires referrer in QueryReferrers(first, path) && referrer != path
    ensures Dependents(first, referrer) <= Dependents(first, path) - {path}
    ensures referrer in Dependents(first, path)
    ensures |Dependents(db, referrer)| < |Dependents(first, path)|
    ensures Dependents(db, referrer) <= Dependents(first, referrer)
  {
    ReferrerHasFewerDependents(first, path, referrer);
    DependentsShrink(db, first, referrer);
    ReachEdge(RefGraph(first), referrer, path);
    forall q | q in Dependents(first, referrer) ensures q in Dependents(first, path) {
      ReachTrans(RefGraph(first), q, referrer, path);
    }
  }
}
