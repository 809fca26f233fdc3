/** Two runs in which a client that collects garbage itself loses a temporary root to another
    collector (addTempRoot, readTempRoots and collectGarbage of nix/libstore/gc.cc). */
module LostRoots {
  import opened Graphs
  import opened StoreDb
  import opened TempRoots
  import opened Wrappers

  // Runs from one state to another

  ghost predicate Play(states: seq<State>, actions: seq<Action>, s: State, t: State) {
    |states| == |actions| + 1 && states[0] == s && states[|actions|] == t
    && forall i {:trigger actions[i]} :: 0 <= i < |actions| ==> Enabled(states[i], actions[i]) && states[i + 1] == Apply(states[i], actions[i])
  }

  ghost predicate Leads(s: State, t: State) {
    exists states, actions :: Play(states, actions, s, t)
  }

  lemma LeadsOn(s: State, t: State, a: Action)
    requires Leads(s, t) && Enabled(t, a)
    ensures Leads(s, Apply(t, a))
  {
    var states, actions :| Play(states, actions, s, t);
    var longer, more := states + [Apply(t, a)], actions + [a];
    forall i | 0 <= i < |more| ensures Enabled(longer[i], more[i]) && longer[i + 1] == Apply(longer[i], more[i]) {
      assert i < |actions| ==> more[i] == actions[i];
    }
    assert Play(longer, more, s, Apply(t, a));
  }

  // What the others see

  /** Nobody but `p` holds the GC lock. */
  ghost predicate Alone(s: State, p: Pid) {
    forall r :: r in s.gcLock ==> r == p
  }

  ghost predicate Quiet(s: State) {
    forall r :: r !in s.gcLock
  }

  /** The file `i` of process `n` is the only one in the directory. */
  ghost predicate OnlyFile(s: State, n: Pid, i: Inode) {
    i in s.files && i in s.locks && n in s.dir && s.dir[n] == i && forall m :: m in s.dir ==> m == n
  }

  ghost predicate OthersStay(s: State, t: State, p: Pid) {
    forall r :: r != p ==> (r in t.procs <==> r in s.procs) && (r in s.procs ==> t.procs[r] == s.procs[r])
  }

  /** Process `p` advances. */
  lemma Go(o: State, s: State, p: Pid, inode: Inode, name: Pid) returns (t: State)
    requires Leads(o, s) && Enabled(s, Advance(p, inode, name))
    ensures Leads(o, t) && t == Step(s, p, inode, name)
  {
    t := Apply(s, Advance(p, inode, name));
    LeadsOn(o, s, Advance(p, inode, name));
  }

  // addTempRoot() for the first time, undisturbed

  lemma Prepares(o: State, s: State, p: Pid, path: Path) returns (t: State)
    requires Leads(o, s) && p in s.procs && s.procs[p] == Proc(Idle, None, {}, {}, {}) && Quiet(s)
    requires forall m :: m !in s.dir
    ensures Leads(o, t) && OthersStay(s, t, p) && Alone(t, p) && (forall m :: m !in t.dir)
    ensures t.files == s.files && t.unlocked == s.unlocked
    ensures p in t.procs && t.procs[p] == Proc(Opening(path), None, {}, {}, {})
  {
    LeadsOn(o, s, AddTempRoot(p, path));
    t := Apply(s, AddTempRoot(p, path));
    t := Go(o, t, p, 0, 0);
    t := Go(o, t, p, 0, 0);
  }

  lemma Opens(o: State, s: State, p: Pid, i: Inode, path: Path) returns (t: State)
    requires Leads(o, s) && p in s.procs && s.procs[p] == Proc(Opening(path), None, {}, {}, {}) && Alone(s, p) && i !in s.files
    requires forall m :: m !in s.dir
    ensures Leads(o, t) && OthersStay(s, t, p) && Quiet(t) && OnlyFile(t, p, i)
    ensures p in t.procs && t.procs[p] == Proc(WantRead(path), Some(i), {}, {}, {})
    ensures t.files[i] == File(p, {}, false) && t.locks[i] == map[] && t.unlocked == s.unlocked
  {
    t := Go(o, s, p, i, 0);
    t := Go(o, t, p, 0, 0);
  }

  lemma Checks(o: State, s: State, p: Pid, i: Inode, path: Path) returns (t: State)
    requires Leads(o, s) && p in s.procs && s.procs[p] == Proc(WantRead(path), Some(i), {}, {}, {})
    requires i in s.files && s.files[i] == File(p, {}, false) && i in s.locks && s.locks[i] == map[]
    ensures Leads(o, t) && OthersStay(s, t, p) && Unmoved(s, t) && t.files == s.files
    ensures p in t.procs && t.procs[p] == Proc(WantWrite(path), Some(i), {}, {}, {})
    ensures i in t.locks && t.locks[i] == map[p := Read]
  {
    t := Go(o, s, p, 0, 0);
    t := Go(o, t, p, 0, 0);
  }

  /** Nothing but processes, files and the locks on them may have changed. */
  predicate Unmoved(s: State, t: State) {
    t.gcLock == s.gcLock && t.dir == s.dir && t.unlocked == s.unlocked
  }

  /** Process `p` and nobody else has a lock on `i`, and it is a read lock. */
  ghost predicate ReadsAlone(s: State, p: Pid, i: Inode) {
    i in s.locks && p in s.locks[i] && s.locks[i][p].Read? && forall r :: r in s.locks[i] ==> r == p
  }

  lemma Appends(o: State, s: State, p: Pid, i: Inode, path: Path) returns (t: State)
    requires Leads(o, s) && p in s.procs && s.procs[p] == Proc(WantWrite(path), Some(i), {}, {}, {})
    requires i in s.files && s.files[i] == File(p, {}, false) && i in s.locks && s.locks[i] == map[p := Read]
    ensures Leads(o, t) && OthersStay(s, t, p) && Unmoved(s, t)
    ensures p in t.procs && t.procs[p] == Proc(Downgrading(path), Some(i), {}, {}, {})
    ensures i in t.files && t.files[i] == File(p, {path}, false) && i in t.locks && forall r :: r in t.locks[i] ==> r == p
  {
    t := Go(o, s, p, 0, 0);
    t := Go(o, t, p, 0, 0);
  }

  lemma Downgrades(o: State, s: State, p: Pid, i: Inode, path: Path) returns (t: State)
    requires Leads(o, s) && p in s.procs && s.procs[p] == Proc(Downgrading(path), Some(i), {}, {}, {})
    requires i in s.files && i in s.locks && forall r :: r in s.locks[i] ==> r == p
    ensures Leads(o, t) && OthersStay(s, t, p) && Unmoved(s, t) && t.files == s.files
    ensures p in t.procs && t.procs[p] == Proc(Idle, Some(i), {path}, {}, {}) && ReadsAlone(t, p, i)
  {
    t := Go(o, s, p, 0, 0);
  }

  lemma AddsRoot(o: State, s: State, p: Pid, i: Inode, path: Path) returns (t: State)
    requires Leads(o, s) && p in s.procs && s.procs[p] == Proc(Idle, None, {}, {}, {}) && Quiet(s) && i !in s.files
    requires forall m :: m !in s.dir
    ensures Leads(o, t) && OthersStay(s, t, p) && Quiet(t) && OnlyFile(t, p, i)
    ensures p in t.procs && t.procs[p] == Proc(Idle, Some(i), {path}, {}, {})
    ensures t.files[i] == File(p, {path}, false) && ReadsAlone(t, p, i) && t.unlocked == s.unlocked
  {
    t := Prepares(o, s, p, path);
    t := Opens(o, t, p, i, path);
    t := Checks(o, t, p, i, path);
    t := Appends(o, t, p, i, path);
    t := Downgrades(o, t, p, i, path);
  }

  // collectGarbage()

  lemma Lists(o: State, s: State, p: Pid) returns (t: State)
    requires Leads(o, s) && p in s.procs && s.procs[p].pc.Idle? && Quiet(s)
    ensures Leads(o, t) && OthersStay(s, t, p) && Alone(t, p)
    ensures t == s.(procs := t.procs, gcLock := t.gcLock)
    ensures p in t.procs && t.procs[p] == s.procs[p].(pc := NextFile(s.dir.Keys), tempRoots := {}, frozen := {})
  {
    LeadsOn(o, s, Collect(p));
    t := Apply(s, Collect(p));
    t := Go(o, t, p, 0, 0);
    t := Go(o, t, p, 0, 0);
  }

  lemma Sweeps(o: State, s: State, p: Pid) returns (t: State)
    requires Leads(o, s) && p in s.procs && s.procs[p].pc.NextFile? && forall m :: m !in s.procs[p].pc.todo
    ensures Leads(o, t) && t == WithPc(s, p, Sweeping)
  {
    forall m ensures m !in s.procs[p].pc.todo {}
    NoMembers(s.procs[p].pc.todo);
    t := Go(o, s, p, 0, 0);
  }

  /** Looks at the only file of the directory. */
  lemma Picks(o: State, s: State, p: Pid, n: Pid, i: Inode) returns (t: State)
    requires Leads(o, s) && p in s.procs && OnlyFile(s, n, i) && s.procs[p].pc == NextFile(s.dir.Keys)
    ensures Leads(o, t) && t == WithPc(s, p, TryLocking(s.dir.Keys - {n}, n, i))
  {
    assert n in s.procs[p].pc.todo;
    t := Go(o, s, p, 0, n);
  }

  /** The file has other users: it is frozen and read. */
  lemma Freezes(o: State, s: State, p: Pid, i: Inode) returns (t: State)
    requires Leads(o, s) && p in s.procs && s.procs[p].pc.TryLocking? && s.procs[p].pc.inode == i
    requires i in s.locks && i in s.files && CanRead(s.locks[i], p) && !CanWrite(s.locks[i], p)
    ensures Leads(o, t) && OthersStay(s, t, p) && t == SetLock(s, i, p, Read).(procs := t.procs)
    ensures p in t.procs
    ensures var q := s.procs[p];
      t.procs[p] == q.(pc := NextFile(q.pc.todo), tempRoots := q.tempRoots + s.files[i].roots, frozen := q.frozen + {i})
  {
    t := Go(o, s, p, 0, 0);
    assert t == TryWriteLock(s, p) && t.procs[p].pc.WantFreeze?;
    t := ReadsFile(o, t, p, i);
  }

  lemma ReadsFile(o: State, s: State, p: Pid, i: Inode) returns (t: State)
    requires Leads(o, s) && p in s.procs && s.procs[p].pc.WantFreeze? && s.procs[p].pc.inode == i
    requires i in s.locks && i in s.files && CanRead(s.locks[i], p)
    ensures Leads(o, t) && OthersStay(s, t, p) && t == SetLock(s, i, p, Read).(procs := t.procs)
    ensures p in t.procs
    ensures var q := s.procs[p];
      t.procs[p] == q.(pc := NextFile(q.pc.todo), tempRoots := q.tempRoots + s.files[i].roots, frozen := q.frozen + {i})
  {
    t := Go(o, s, p, 0, 0);
    t := Go(o, t, p, 0, 0);
  }

  /** The file has no other users: it is removed as stale. */
  lemma Removes(o: State, s: State, p: Pid, i: Inode) returns (t: State)
    requires Leads(o, s) && p in s.procs && s.procs[p].pc.TryLocking? && s.procs[p].pc.inode == i
    requires i in s.locks && i in s.files && CanWrite(s.locks[i], p)
    ensures Leads(o, t) && OthersStay(s, t, p) && t.dir == s.dir - {s.procs[p].pc.name} && t.gcLock == s.gcLock
    ensures p in t.procs && t.procs[p] == s.procs[p].(pc := NextFile(s.procs[p].pc.todo))
  {
    t := Go(o, s, p, 0, 0);
    assert t == TryWriteLock(s, p) && t.procs[p].pc.UnlinkStale?;
    t := Go(o, t, p, 0, 0);
    t := ClosesStale(o, t, p, i);
  }

  lemma ClosesStale(o: State, s: State, p: Pid, i: Inode) returns (t: State)
    requires Leads(o, s) && p in s.procs && s.procs[p].pc.MarkStale? && s.procs[p].pc.inode == i && i in s.locks && i in s.files
    ensures Leads(o, t) && OthersStay(s, t, p) && t.dir == s.dir && t.gcLock == s.gcLock
    ensures p in t.procs && t.procs[p] == s.procs[p].(pc := NextFile(s.procs[p].pc.todo))
  {
    t := Go(o, s, p, 0, 0);
    t := Go(o, t, p, 0, 0);
  }

  lemma ReleasesGc(o: State, s: State, p: Pid) returns (t: State)
    requires Leads(o, s) && p in s.procs && s.procs[p].pc.Sweeping? && Alone(s, p)
    ensures Leads(o, t) && OthersStay(s, t, p) && Quiet(t) && t == s.(procs := t.procs, gcLock := t.gcLock)
    ensures p in t.procs && t.procs[p] == s.procs[p].(pc := Unfreezing)
  {
    t := Go(o, s, p, 0, 0);
  }

  lemma Unfreezes(o: State, s: State, p: Pid) returns (t: State)
    requires Leads(o, s) && p in s.procs && s.procs[p].pc.Unfreezing?
    ensures Leads(o, t) && OthersStay(s, t, p) && t.gcLock == s.gcLock && t.dir == s.dir && t.files == s.files
    ensures p in t.procs && t.procs[p] == s.procs[p].(pc := Idle, tempRoots := {}, frozen := {})
    ensures t.locks.Keys == s.locks.Keys
    ensures forall i :: i in s.locks ==> t.locks[i] == if i in s.procs[p].frozen then s.locks[i] - {p} else s.locks[i]
  {
    t := Go(o, s, p, 0, 0);
  }

  /** A sweep while the only file has other users. */
  lemma SweepReads(o: State, s: State, p: Pid, n: Pid, i: Inode) returns (t: State)
    requires Leads(o, s) && p in s.procs && s.procs[p].pc.Idle? && Quiet(s) && OnlyFile(s, n, i)
    requires CanRead(s.locks[i], p) && !CanWrite(s.locks[i], p)
    ensures Leads(o, t) && OthersStay(s, t, p) && Quiet(t) && OnlyFile(t, n, i) && t.locks[i] == s.locks[i][p := Read]
    ensures p in t.procs && t.procs[p].pc.Unfreezing? && i in t.procs[p].frozen
    ensures t.procs[p].fd == s.procs[p].fd && t.procs[p].returned == s.procs[p].returned
  {
    t := Lists(o, s, p);
    t := Picks(o, t, p, n, i);
    t := Freezes(o, t, p, i);
    t := Sweeps(o, t, p);
    t := ReleasesGc(o, t, p);
  }

  /** A sweep while the only file has no other users. */
  lemma SweepRemoves(o: State, s: State, p: Pid, n: Pid, i: Inode) returns (t: State)
    requires Leads(o, s) && p in s.procs && s.procs[p].pc.Idle? && Quiet(s) && OnlyFile(s, n, i) && CanWrite(s.locks[i], p)
    ensures Leads(o, t) && OthersStay(s, t, p) && Alone(t, p) && (forall m :: m !in t.dir)
    ensures p in t.procs && t.procs[p] == s.procs[p].(pc := Sweeping, tempRoots := {}, frozen := {})
  {
    t := Lists(o, s, p);
    t := Picks(o, t, p, n, i);
    t := Removes(o, t, p, i);
    t := Sweeps(o, t, p);
  }

  // The two runs

  /** Process `k` sweeps without a root for which addTempRoot() has returned in `c`. */
  predicate Lost(s: State, c: Pid, k: Pid, path: Path) {
    c in s.procs && k in s.procs && c != k && path in s.procs[c].returned
    && s.procs[k].pc.Sweeping? && path !in s.procs[k].tempRoots
  }

  lemma Begin(path: Path) returns (t: State)
    ensures Leads(INITIAL, t) && Quiet(t) && OnlyFile(t, 1, 0) && ReadsAlone(t, 1, 0)
    ensures 1 in t.procs && t.procs[1] == Proc(Idle, Some(0), {path}, {}, {})
    ensures 2 in t.procs && t.procs[2] == Proc(Idle, None, {}, {}, {})
  {
    assert Play([INITIAL], [], INITIAL, INITIAL);
    t := Apply(INITIAL, Spawn(1));
    LeadsOn(INITIAL, INITIAL, Spawn(1));
    LeadsOn(INITIAL, t, Spawn(2));
    t := Apply(t, Spawn(2));
    t := AddsRoot(INITIAL, t, 1, 0, path);
  }

  /** The own collection of process 1 takes its file for a stale one and removes it; process 2
      does not find the file. */
  lemma LostByRemoval(path: Path) returns (states: seq<State>, actions: seq<Action>)
    ensures Run(states, actions) && Lost(states[|actions|], 1, 2, path)
  {
    var t := Begin(path);
    t := SweepRemoves(INITIAL, t, 1, 1, 0);
    t := ReleasesGc(INITIAL, t, 1);
    t := Unfreezes(INITIAL, t, 1);
    t := Lists(INITIAL, t, 2);
    t := Sweeps(INITIAL, t, 2);
    states, actions :| Play(states, actions, INITIAL, t);
  }

  /** Process 1 is idle and its file is in the directory, but it has no lock on it. */
  predicate Unprotected(s: State) {
    1 in s.procs && s.procs[1].pc.Idle? && Linked(s, 1, 0) && 0 in s.locks && 1 !in s.locks[0]
  }

  lemma Closes(path: Path) returns (t: State)
    ensures Leads(INITIAL, t) && Unprotected(t) && Quiet(t) && OnlyFile(t, 1, 0) && CanWrite(t.locks[0], 2)
    ensures path in t.procs[1].returned && 2 in t.procs && t.procs[2].pc.Unfreezing?
  {
    t := Begin(path);
    assert 1 in t.locks[0];
    t := SweepReads(INITIAL, t, 2, 1, 0);
    assert 2 in t.locks[0];
    t := SweepReads(INITIAL, t, 1, 1, 0);
    t := Unfreezes(INITIAL, t, 1);
  }

  /** Process 2 has the file of process 1 open still when process 1 collects: process 1 leaves
      its file in place, but closes it and so drops its own lock; the next collection of
      process 2 takes the file for a stale one and removes it. */
  lemma LostByClosing(path: Path) returns (states: seq<State>, actions: seq<Action>, m: nat)
    ensures Run(states, actions) && m < |states| && Unprotected(states[m]) && Lost(states[|actions|], 1, 2, path)
  {
    var u := Closes(path);
    assert Play([u], [], u, u);
    var t := Unfreezes(u, u, 2);
    t := SweepRemoves(u, t, 2, 1, 0);
    var first, before :| Play(first, before, INITIAL, u);
    var last, after :| Play(last, after, u, t);
    states, actions := Joined(first, before, last, after, INITIAL, u, t);
    m := |before|;
  }

  lemma Joined(first: seq<State>, before: seq<Action>, last: seq<State>, after: seq<Action>, s: State, t: State, u: State)
    returns (states: seq<State>, actions: seq<Action>)
    requires Play(first, before, s, t) && Play(last, after, t, u)
    ensures Play(states, actions, s, u) && |before| < |states| && states[|before|] == t
  {
    states, actions := first + last[1..], before + after;
    forall i | 0 <= i < |actions| ensures Enabled(states[i], actions[i]) && states[i + 1] == Apply(states[i], actions[i]) {
      if i < |before| {
        assert actions[i] == before[i];
      } else {
        assert actions[i] == after[i - |before|];
        assert states[i] == last[i - |before|];
      }
    }
  }
}
