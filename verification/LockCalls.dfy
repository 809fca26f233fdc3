/** Whole calls of lockPaths() and unlock() (nix/libstore/pathlocks.cc), from the step that
    begins one to the step that returns, among the steps of other processes. */
module LockCalls {
  import opened ByteStrings
  import opened LockFiles

  /** The paths that an object of the process has locked. */
  function PathsOf(q: Proc, obj: Obj): set<Path> {
    set fd | fd in q.held && fd.obj == obj :: fd.path
  }

  lemma PathHeld(q: Proc, obj: Obj, fd: FD)
    ensures HeldBy(q.held, obj, fd) ==> fd.path in PathsOf(q, obj)
  {
  }

  /** Process `p` begins another call, or ends. */
  predicate Interrupts(a: Action, p: Pid) {
    (a.LockPaths? || a.Unlock? || a.Exit?) && a.p == p
  }

  /** From step `m` to step `n` process `p` is in the call that step `m` begins, or has returned
      from it. */
  ghost predicate InCall(actions: seq<Action>, m: nat, n: nat, p: Pid)
    requires n <= |actions|
  {
    m < n && forall i {:trigger actions[i]} :: m < i < n ==> !Interrupts(actions[i], p)
  }

  ghost predicate OthersKept(first: Proc, q: Proc, obj: Obj) {
    forall fd: FD :: fd.obj != obj ==> (fd in q.held <==> fd in first.held)
  }

  // lockPaths()

  /** The state of a process that has called lockPaths() in state `first`: what the object has
      locked and what is left are the paths asked for. */
  ghost predicate Locking(first: Proc, q: Proc, obj: Obj, paths: set<Path>, wait: bool) {
    OthersKept(first, q, obj)
    && match q.pc
       case Idle(NoReply) => false
       case Idle(Locked) => PathsOf(q, obj) == paths
       case Idle(SelfHeld) => exists path :: path in paths && path in first.lockedPaths
       case Idle(Released) => !wait && PathsOf(q, obj) == {}
       case Unlocking(o, _) => o == obj && !wait
       case Token(o, _) => o == obj && !wait
       case Closing(o, _, _) => o == obj && !wait
       case _ => q.pc.obj == obj && q.pc.wait == wait && paths == PathsOf(q, obj) + (set x | x in q.pc.todo)
  }

  lemma BeginsLocking(s: State, p: Pid, obj: Obj, paths: set<Path>, wait: bool)
    requires Enabled(s, LockPaths(p, obj, paths, wait))
    ensures Locking(s.procs[p], Apply(s, LockPaths(p, obj, paths, wait)).procs[p], obj, paths, wait)
  {
    forall x ensures x in Sorted(paths) <==> x in paths { }
    assert forall fd :: fd in s.procs[p].held ==> fd.obj != obj by {
      forall fd | fd in s.procs[p].held ensures fd.obj != obj { assert !HeldBy(s.procs[p].held, obj, fd); }
    }
  }

  /** A process has a lock of its own on every path that it knows as locked. */
  ghost predicate Recorded(q: Proc) {
    forall x :: x in q.lockedPaths ==> exists fd :: fd in q.held && fd.path == x
  }

  lemma FindsSelfHeld(s: State, p: Pid, first: Proc, obj: Obj, paths: set<Path>, wait: bool)
    requires p in s.procs && s.procs[p].pc.Next? && Recorded(s.procs[p]) && PcInv(s, p) && Locking(first, s.procs[p], obj, paths, wait)
    requires forall fd :: fd in first.held ==> fd.path in first.lockedPaths
    requires |s.procs[p].pc.todo| > 0 && s.procs[p].pc.todo[0] in s.procs[p].lockedPaths
    ensures s.procs[p].pc.todo[0] in paths && s.procs[p].pc.todo[0] in first.lockedPaths
  {
    var q := s.procs[p];
    var path := q.pc.todo[0];
    var fd :| fd in q.held && fd.path == path;
    if fd.obj == obj {
      assert HeldBy(q.held, obj, fd);
      LtIrreflexive(path);
    }
  }

  lemma TakesOne(q: Proc, r: Proc, first: Proc, obj: Obj, paths: set<Path>, wait: bool, fd: FD)
    requires q.pc.Statting? && |q.pc.todo| > 0 && Locking(first, q, obj, paths, wait) && fd.obj == obj && fd.path == q.pc.todo[0]
    requires r.pc == Next(obj, q.pc.todo[1..], wait) && r.held == q.held + {fd}
    ensures Locking(first, r, obj, paths, wait)
  {
    var todo := q.pc.todo;
    assert todo == [todo[0]] + todo[1..];
    assert PathsOf(r, obj) == PathsOf(q, obj) + {todo[0]} by {
      forall x | x in PathsOf(r, obj) ensures x in PathsOf(q, obj) + {todo[0]} { }
      assert fd in r.held;
    }
  }

  lemma Releases(q: Proc, obj: Obj, fd: FD)
    requires (HeldBy(q.held, obj, fd) || forall x :: !HeldBy(q.held, obj, x)) && !HeldBy(q.held, obj, fd)
    ensures PathsOf(q, obj) == {}
  {
    forall x | x in PathsOf(q, obj) ensures false {
      var y :| y in q.held && y.obj == obj && y.path == x;
      assert HeldBy(q.held, obj, y);
    }
  }

  lemma SearchingLocks(s: State, p: Pid, inode: Inode, fd: FD, delete: bool, first: Proc, obj: Obj, paths: set<Path>, wait: bool)
    requires Enabled(s, Advance(p, inode, fd, delete)) && Locking(first, s.procs[p], obj, paths, wait)
    requires s.procs[p].pc.Opening? || s.procs[p].pc.TryLock? || s.procs[p].pc.Blocked?
    ensures Locking(first, Step(s, p, inode, fd, delete).procs[p], obj, paths, wait)
  {
    var q, r := s.procs[p], Step(s, p, inode, fd, delete).procs[p];
    assert r.held == q.held;
    assert PathsOf(r, obj) == PathsOf(q, obj);
  }

  lemma ReleasingLocks(s: State, p: Pid, inode: Inode, fd: FD, delete: bool, first: Proc, obj: Obj, paths: set<Path>, wait: bool)
    requires Enabled(s, Advance(p, inode, fd, delete)) && Locking(first, s.procs[p], obj, paths, wait) && PcInv(s, p)
    requires s.procs[p].pc.Unlocking? || s.procs[p].pc.Token? || s.procs[p].pc.Closing?
    ensures Locking(first, Step(s, p, inode, fd, delete).procs[p], obj, paths, wait)
  {
    var q, r := s.procs[p], Step(s, p, inode, fd, delete).procs[p];
    if q.pc.Unlocking? {
      assert r.held == q.held;
      if !HeldBy(q.held, obj, fd) { Releases(r, obj, fd); }
    }
  }

  lemma StepLocks(s: State, p: Pid, inode: Inode, fd: FD, delete: bool, first: Proc, obj: Obj, paths: set<Path>, wait: bool)
    requires Enabled(s, Advance(p, inode, fd, delete)) && Locking(first, s.procs[p], obj, paths, wait)
    requires PcInv(s, p) && Recorded(s.procs[p]) && forall x :: x in first.held ==> x.path in first.lockedPaths
    ensures Locking(first, Step(s, p, inode, fd, delete).procs[p], obj, paths, wait)
  {
    var q, r := s.procs[p], Step(s, p, inode, fd, delete).procs[p];
    if q.pc.Next? {
      assert r.held == q.held;
      assert PathsOf(r, obj) == PathsOf(q, obj);
      if |q.pc.todo| > 0 && q.pc.todo[0] in q.lockedPaths { FindsSelfHeld(s, p, first, obj, paths, wait); }
    } else if q.pc.Statting? {
      if !s.files[q.pc.inode].stale { TakesOne(q, r, first, obj, paths, wait, FD(obj, q.pc.inode, q.pc.todo[0])); }
    } else if q.pc.Unlocking? || q.pc.Token? || q.pc.Closing? {
      ReleasingLocks(s, p, inode, fd, delete, first, obj, paths, wait);
    } else {
      SearchingLocks(s, p, inode, fd, delete, first, obj, paths, wait);
    }
  }

  // Runs

  lemma TakingRecords(q: Proc, r: Proc, fd: FD)
    requires Recorded(q) && r.held == q.held + {fd} && r.lockedPaths == q.lockedPaths + {fd.path}
    ensures Recorded(r)
  {
    forall x | x in r.lockedPaths ensures exists y :: y in r.held && y.path == x {
      if x in q.lockedPaths { var y :| y in q.held && y.path == x; assert y in r.held; } else { assert fd in r.held; }
    }
  }

  lemma ClosingRecords(q: Proc, r: Proc, fd: FD)
    requires Recorded(q) && r.held == q.held - {fd} && r.lockedPaths == q.lockedPaths - {fd.path}
    ensures Recorded(r)
  {
    forall x | x in r.lockedPaths ensures exists y :: y in r.held && y.path == x {
      var y :| y in q.held && y.path == x;
      assert y in r.held;
    }
  }

  lemma AdvanceRecords(s: State, p: Pid, inode: Inode, fd: FD, delete: bool)
    requires Enabled(s, Advance(p, inode, fd, delete)) && Recorded(s.procs[p])
    ensures Recorded(Step(s, p, inode, fd, delete).procs[p])
  {
    var q, r := s.procs[p], Step(s, p, inode, fd, delete).procs[p];
    if q.pc.Statting? && !s.files[q.pc.inode].stale {
      TakingRecords(q, r, FD(q.pc.obj, q.pc.inode, q.pc.todo[0]));
    } else if q.pc.Closing? {
      ClosingRecords(q, r, q.pc.fd);
    } else {
      assert r.held == q.held && r.lockedPaths == q.lockedPaths;
    }
  }

  lemma StepRecords(s: State, a: Action, p: Pid)
    requires Enabled(s, a) && (p in s.procs ==> Recorded(s.procs[p])) && p in Apply(s, a).procs
    ensures Recorded(Apply(s, a).procs[p])
  {
    var r := Apply(s, a).procs[p];
    if a.Advance? && a.p == p {
      AdvanceRecords(s, p, a.inode, a.fd, a.delete);
    } else if p in s.procs && Interrupts(a, p) {
      assert r.held == s.procs[p].held && r.lockedPaths == s.procs[p].lockedPaths;
    } else if p in s.procs {
      OthersLeaveAlone(s, a, p);
    }
  }

  lemma {:induction false} RecordedInRun(states: seq<State>, actions: seq<Action>, n: nat, p: Pid)
    requires Run(states, actions) && n < |states| && p in states[n].procs
    ensures Recorded(states[n].procs[p])
  {
    if n > 0 {
      var a := actions[n - 1];
      if p in states[n - 1].procs { RecordedInRun(states, actions, n - 1, p); }
      StepRecords(states[n - 1], a, p);
    }
  }

  /** The steps of others leave a process alone. */
  lemma OthersLeaveAlone(s: State, a: Action, p: Pid)
    requires Enabled(s, a) && p in s.procs && !Interrupts(a, p) && !(a.Advance? && a.p == p)
    ensures p in Apply(s, a).procs && Apply(s, a).procs[p] == s.procs[p]
  {
  }

  lemma {:induction false} LockingInRun(states: seq<State>, actions: seq<Action>, m: nat, n: nat, p: Pid, obj: Obj, paths: set<Path>, wait: bool)
    requires Run(states, actions) && n < |states| && InCall(actions, m, n, p) && actions[m] == LockPaths(p, obj, paths, wait)
    ensures p in states[m].procs && p in states[n].procs && Locking(states[m].procs[p], states[n].procs[p], obj, paths, wait)
  {
    if n == m + 1 {
      BeginsLocking(states[m], p, obj, paths, wait);
    } else {
      LockingInRun(states, actions, m, n - 1, p, obj, paths, wait);
      var s, a := states[n - 1], actions[n - 1];
      if a.Advance? && a.p == p {
        RunKeepsInv(states, actions, m);
        RunKeepsInv(states, actions, n - 1);
        RecordedInRun(states, actions, n - 1, p);
        assert HeldInv(states[m], p) && PcInv(s, p);
        if !s.procs[p].pc.Idle? {
          StepLocks(s, p, a.inode, a.fd, a.delete, states[m].procs[p], obj, paths, wait);
        }
      } else {
        OthersLeaveAlone(s, a, p);
      }
    }
  }

  /** A call of lockPaths() has come back with `reply`. */
  ghost predicate LockPathsReturned(states: seq<State>, actions: seq<Action>, m: nat, n: nat, p: Pid, reply: Reply)
    requires n < |states| == |actions| + 1
  {
    InCall(actions, m, n, p) && actions[m].LockPaths? && actions[m].p == p && p in states[n].procs && states[n].procs[p].pc == Idle(reply)
  }

  /** Over every run: lockPaths() comes back in one of three ways, and leaves the locks of other
      objects alone. */
  lemma LockPathsReturns(states: seq<State>, actions: seq<Action>, m: nat, n: nat, p: Pid, reply: Reply)
    requires Run(states, actions) && n < |states| && LockPathsReturned(states, actions, m, n, p, reply)
    ensures !reply.NoReply? && p in states[m].procs && OthersKept(states[m].procs[p], states[n].procs[p], actions[m].obj)
  {
    var LockPaths(_, obj, paths, wait) := actions[m];
    LockingInRun(states, actions, m, n, p, obj, paths, wait);
  }

  /** Over every run: when lockPaths() has returned true, the object is inside for every path that
      it was asked for, for no other path, and the process had none of these locks before. */
  lemma TrueHoldsAll(states: seq<State>, actions: seq<Action>, m: nat, n: nat, p: Pid, path: Path)
    requires Run(states, actions) && n < |states| && LockPathsReturned(states, actions, m, n, p, Locked)
    ensures path in actions[m].paths <==> exists fd :: Inside(states[n], p, fd) && fd.obj == actions[m].obj && fd.path == path
    ensures path in actions[m].paths ==> p in states[m].procs && path !in states[m].procs[p].lockedPaths
  {
    var LockPaths(_, obj, paths, wait) := actions[m];
    LockingInRun(states, actions, m, n, p, obj, paths, wait);
    var first, q := states[m].procs[p], states[n].procs[p];
    if path in paths {
      var fd :| fd in q.held && fd.obj == obj && fd.path == path;
      assert Inside(states[n], p, fd);
      if path in first.lockedPaths {
        RecordedInRun(states, actions, m, p);
        var other :| other in first.held && other.path == path;
        assert !HeldBy(first.held, obj, other);
        assert other in q.held && other != fd;
        RunKeepsInv(states, actions, n);
      }
    }
  }

  /** Over every run: when lockPaths() has returned false, it was told not to wait, and the object
      holds nothing. */
  lemma FalseHoldsNone(states: seq<State>, actions: seq<Action>, m: nat, n: nat, p: Pid, fd: FD)
    requires Run(states, actions) && n < |states| && LockPathsReturned(states, actions, m, n, p, Released)
    ensures !actions[m].wait && !HeldBy(states[n].procs[p].held, actions[m].obj, fd)
  {
    var LockPaths(_, obj, paths, wait) := actions[m];
    LockingInRun(states, actions, m, n, p, obj, paths, wait);
    PathHeld(states[n].procs[p], obj, fd);
  }

  /** Over every run: lockPaths() fails with "self-held lock" only if the process has one of the
      locks already when it calls. */
  lemma SelfHeldBefore(states: seq<State>, actions: seq<Action>, m: nat, n: nat, p: Pid)
    requires Run(states, actions) && n < |states| && LockPathsReturned(states, actions, m, n, p, SelfHeld)
    ensures exists path :: path in actions[m].paths && p in states[m].procs && path in states[m].procs[p].lockedPaths
  {
    var LockPaths(_, obj, paths, wait) := actions[m];
    LockingInRun(states, actions, m, n, p, obj, paths, wait);
  }

  /** The process tries a lock for one of the paths, and another process has it. */
  predicate FindsTaken(s: State, p: Pid, paths: set<Path>) {
    p in s.procs && s.procs[p].pc.TryLock? && |s.procs[p].pc.todo| > 0 && s.procs[p].pc.todo[0] in paths && !Free(s, s.procs[p].pc.inode, p)
  }

  predicate GivesUp(pc: Pc) {
    pc.Unlocking? || pc.Token? || pc.Closing? || pc == Idle(Released)
  }

  lemma GivesUpWhenTaken(s: State, p: Pid, inode: Inode, fd: FD, delete: bool)
    requires Enabled(s, Advance(p, inode, fd, delete)) && GivesUp(Step(s, p, inode, fd, delete).procs[p].pc)
    ensures GivesUp(s.procs[p].pc) || (s.procs[p].pc.TryLock? && !Free(s, s.procs[p].pc.inode, p))
  {
  }

  /** Over every run: lockPaths() gives up only after it has found one of its locks taken by another
      process. */
  lemma {:induction false} FalseFoundTaken(states: seq<State>, actions: seq<Action>, m: nat, n: nat, p: Pid)
    requires Run(states, actions) && n < |states| && InCall(actions, m, n, p) && actions[m].LockPaths? && actions[m].p == p
    requires p in states[n].procs && GivesUp(states[n].procs[p].pc)
    ensures exists k :: m < k < n && FindsTaken(states[k], p, actions[m].paths)
  {
    var LockPaths(_, obj, paths, wait) := actions[m];
    if n > m + 1 {
      LockingInRun(states, actions, m, n - 1, p, obj, paths, wait);
      var s, a := states[n - 1], actions[n - 1];
      if a.Advance? && a.p == p {
        GivesUpWhenTaken(s, p, a.inode, a.fd, a.delete);
      } else {
        OthersLeaveAlone(s, a, p);
      }
      if GivesUp(s.procs[p].pc) { FalseFoundTaken(states, actions, m, n - 1, p); } else { assert FindsTaken(s, p, paths); }
    }
  }

  /** A process inside a call can go on, unless it waits for a lock that another process has. */
  lemma OnlyTheBlockedWait(s: State, p: Pid, inode: Inode, delete: bool)
    requires Inv(s) && p in s.procs && !s.procs[p].pc.Idle? && inode !in s.files
    ensures (exists fd :: Enabled(s, Advance(p, inode, fd, delete))) <==> !exists q :: WaitsFor(s, p, q)
  {
    var pc := s.procs[p].pc;
    assert PcInv(s, p) && HeldInv(s, p);
    if pc.Blocked? && !Free(s, pc.inode, p) {
      assert WaitsFor(s, p, s.locks[pc.inode]);
    } else if pc.Unlocking? && exists x :: HeldBy(s.procs[p].held, pc.obj, x) {
      var x :| HeldBy(s.procs[p].held, pc.obj, x);
      assert Enabled(s, Advance(p, inode, x, delete));
    } else {
      assert Enabled(s, Advance(p, inode, FD(0, 0, ""), delete));
    }
  }

  // unlock()

  /** The state of a process that has called unlock(): what it has released is marked as deleted
      if it was to be. */
  ghost predicate Releasing(first: Proc, s: State, q: Proc, obj: Obj, delete: bool) {
    OthersKept(first, q, obj) && q.held <= first.held
    && (q.pc.Idle? ==> q.pc.reply.Released? && PathsOf(q, obj) == {})
    && (!q.pc.Idle? ==> (q.pc.Unlocking? || q.pc.Token? || q.pc.Closing?) && q.pc.obj == obj)
    && (q.pc.Unlocking? || q.pc.Closing? ==> q.pc.delete == delete)
    && (q.pc.Token? ==> delete)
    && (delete ==> forall fd :: fd in first.held && fd !in q.held ==> fd.inode in s.files && s.files[fd.inode].stale)
  }

  lemma StaleStays(s: State, a: Action, i: Inode)
    requires Enabled(s, a) && i in s.files && s.files[i].stale
    ensures i in Apply(s, a).files && Apply(s, a).files[i].stale
  {
  }

  lemma StepReleases(s: State, p: Pid, inode: Inode, fd: FD, delete: bool, first: Proc, obj: Obj, deletePaths: bool)
    requires Enabled(s, Advance(p, inode, fd, delete)) && PcInv(s, p) && Releasing(first, s, s.procs[p], obj, deletePaths)
    ensures var t := Step(s, p, inode, fd, delete); Releasing(first, t, t.procs[p], obj, deletePaths)
  {
    var q, t := s.procs[p], Step(s, p, inode, fd, delete);
    var r := t.procs[p];
    if q.pc.Unlocking? {
      assert r.held == q.held;
      if !HeldBy(q.held, obj, fd) { Releases(r, obj, fd); }
    }
  }

  lemma {:induction false} ReleasingInRun(states: seq<State>, actions: seq<Action>, m: nat, n: nat, p: Pid, obj: Obj, delete: bool)
    requires Run(states, actions) && n < |states| && InCall(actions, m, n, p) && actions[m] == Unlock(p, obj, delete)
    ensures p in states[m].procs && p in states[n].procs && Releasing(states[m].procs[p], states[n], states[n].procs[p], obj, delete)
  {
    if n > m + 1 {
      ReleasingInRun(states, actions, m, n - 1, p, obj, delete);
      var s, a := states[n - 1], actions[n - 1];
      if a.Advance? && a.p == p {
        RunKeepsInv(states, actions, n - 1);
        assert PcInv(s, p);
        StepReleases(s, p, a.inode, a.fd, a.delete, states[m].procs[p], obj, delete);
      } else {
        OthersLeaveAlone(s, a, p);
        forall i | i in s.files && s.files[i].stale ensures i in states[n].files && states[n].files[i].stale { StaleStays(s, a, i); }
      }
    } else {
      var a := actions[m];
    }
  }

  /** Over every run: when unlock() has returned, the object holds nothing and other objects hold
      what they did; if the files were to be deleted, all of them are marked as stale. */
  lemma UnlockReleases(states: seq<State>, actions: seq<Action>, m: nat, n: nat, p: Pid, obj: Obj, delete: bool, fd: FD)
    requires Run(states, actions) && n < |states| && InCall(actions, m, n, p) && actions[m] == Unlock(p, obj, delete)
    requires p in states[n].procs && states[n].procs[p].pc.Idle?
    ensures p in states[m].procs && (fd in states[n].procs[p].held <==> fd in states[m].procs[p].held && fd.obj != obj)
    ensures delete && HeldBy(states[m].procs[p].held, obj, fd) ==> fd.inode in states[n].files && states[n].files[fd.inode].stale
  {
    ReleasingInRun(states, actions, m, n, p, obj, delete);
    PathHeld(states[n].procs[p], obj, fd);
  }
}
