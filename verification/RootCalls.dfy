/** Whole calls of addTempRoot() (nix/libstore/gc.cc), from the step that begins one to the step
    that returns, among the steps of other processes; and where the roots come from that a
    collector reads. */
module RootCalls {
  import opened StoreDb
  import opened TempRoots
  import opened Wrappers

  /** Process `p` begins another call, or ends. */
  predicate Interrupts(a: Action, p: Pid) {
    (a.AddTempRoot? || a.Collect? || a.Leave? || a.Exit?) && a.p == p
  }

  /** From step `m` to step `n` process `p` is in the call that step `m` begins, or has returned
      from it. */
  ghost predicate InCall(actions: seq<Action>, m: nat, n: nat, p: Pid)
    requires n <= |actions|
  {
    m < n && forall i {:trigger actions[i]} :: m < i < n ==> !Interrupts(actions[i], p)
  }

  predicate HasPath(pc: Pc) {
    Preparing(pc) || pc.WantWrite? || pc.Writing? || pc.Downgrading?
  }

  /** Inside addTempRoot(path), or back from it. */
  predicate Adding(q: Proc, path: Path) {
    if q.pc.Idle? then path in q.returned else HasPath(q.pc) && q.pc.path == path
  }

  lemma PreparingAdds(s: State, p: Pid, inode: Inode, name: Pid, path: Path)
    requires Enabled(s, Advance(p, inode, name)) && Adding(s.procs[p], path) && Preparing(s.procs[p].pc)
    ensures p in Step(s, p, inode, name).procs && Adding(Step(s, p, inode, name).procs[p], path) && !Step(s, p, inode, name).procs[p].pc.Idle?
  {
    var t := Step(s, p, inode, name);
    if s.procs[p].pc.Opening? { assert t.procs[p].pc == ClosingGc(path); }
  }

  lemma StepAdds(s: State, p: Pid, inode: Inode, name: Pid, path: Path)
    requires Enabled(s, Advance(p, inode, name)) && Adding(s.procs[p], path)
    ensures p in Step(s, p, inode, name).procs && Adding(Step(s, p, inode, name).procs[p], path)
    ensures Step(s, p, inode, name).procs[p].pc.Idle? ==> s.procs[p].pc == Downgrading(path)
  {
    if Preparing(s.procs[p].pc) {
      PreparingAdds(s, p, inode, name, path);
    } else if s.procs[p].pc.WantWrite? {
      assert Step(s, p, inode, name) == AcquireWrite(s, p);
    } else if s.procs[p].pc.Writing? {
      assert Step(s, p, inode, name) == AppendRoot(s, p);
    } else {
      assert Step(s, p, inode, name) == Downgrade(s, p);
    }
  }

  /** The steps of others leave a process alone. */
  lemma OthersLeaveAlone(s: State, a: Action, p: Pid)
    requires Enabled(s, a) && p in s.procs && !Interrupts(a, p) && !(a.Advance? && a.p == p)
    ensures p in Apply(s, a).procs && Apply(s, a).procs[p] == s.procs[p]
  {
    if a.Advance? { AdvanceIsOne(s, a.p, a.inode, a.name); }
  }

  /** From `s` to `t` no process has changed but `p`. */
  ghost predicate OnlyOne(s: State, t: State, p: Pid) {
    p in t.procs && p in s.procs && t.procs == s.procs[p := t.procs[p]]
  }

  lemma ClientStepIsOne(s: State, p: Pid, inode: Inode, name: Pid)
    requires Enabled(s, Advance(p, inode, name)) && HasPath(s.procs[p].pc)
    ensures OnlyOne(s, Step(s, p, inode, name), p)
  {
    if s.procs[p].pc.Opening? {
      assert OnlyOne(s, OpenFile(s, p, inode), p);
    }
  }

  lemma FileStepIsOne(s: State, p: Pid, inode: Inode, name: Pid)
    requires Enabled(s, Advance(p, inode, name)) && AtFile(s.procs[p].pc)
    ensures OnlyOne(s, Step(s, p, inode, name), p)
  {
  }

  lemma OtherStepIsOne(s: State, p: Pid, inode: Inode, name: Pid)
    requires Enabled(s, Advance(p, inode, name)) && !HasPath(s.procs[p].pc) && !AtFile(s.procs[p].pc)
    ensures OnlyOne(s, Step(s, p, inode, name), p)
  {
  }

  lemma AdvanceIsOne(s: State, p: Pid, inode: Inode, name: Pid)
    requires Enabled(s, Advance(p, inode, name))
    ensures OnlyOne(s, Step(s, p, inode, name), p)
  {
    if HasPath(s.procs[p].pc) {
      ClientStepIsOne(s, p, inode, name);
    } else if AtFile(s.procs[p].pc) {
      FileStepIsOne(s, p, inode, name);
    } else {
      OtherStepIsOne(s, p, inode, name);
    }
  }

  /** Over every run: addTempRoot(path) comes back only by the step that returns for this path. */
  lemma {:induction false} CallReturns(states: seq<State>, actions: seq<Action>, m: nat, n: nat, c: Pid, path: Path)
    requires Run(states, actions) && n < |states| && InCall(actions, m, n, c) && actions[m] == AddTempRoot(c, path)
    ensures c in states[n].procs && Adding(states[n].procs[c], path)
    ensures states[n].procs[c].pc.Idle? ==> exists j :: m < j < n && Returns(states[j], actions[j], c, path)
  {
    if n > m + 1 {
      CallReturns(states, actions, m, n - 1, c, path);
      var s, a := states[n - 1], actions[n - 1];
      if a.Advance? && a.p == c {
        StepAdds(s, c, a.inode, a.name, path);
        assert states[n].procs[c].pc.Idle? ==> Returns(s, a, c, path);
      } else {
        OthersLeaveAlone(s, a, c);
      }
    } else {
      var a := actions[m];
    }
  }

  /** Over every run: once a call of addTempRoot(path) has returned in a process that has not begun
      to exit, every sweep of another process reads its file exactly if it is in the directory, and
      then has the path among its roots; it is there unless the process has collected itself. */
  lemma AddedRootSurvives(states: seq<State>, actions: seq<Action>, m: nat, back: nat, n: nat, c: Pid, path: Path, k: Pid)
    requires Run(states, actions) && back <= n < |states| && InCall(actions, m, back, c) && actions[m] == AddTempRoot(c, path)
    requires c in states[back].procs && states[back].procs[c].pc.Idle? && StillRuns(actions, back, n, c)
    requires k in states[n].procs && states[n].procs[k].pc.Sweeping? && k != c
    ensures c in states[n].procs && states[n].procs[c].fd.Some?
    ensures var s := states[n]; var i := s.procs[c].fd.value;
      (i in s.procs[k].frozen <==> Linked(s, c, i))
      && (Linked(s, c, i) ==> path in s.procs[k].tempRoots)
      && (!Linked(s, c, i) ==> HasCollected(states, actions, n, c))
  {
    CallReturns(states, actions, m, back, c, path);
    var j :| m < j < back && Returns(states[j], actions[j], c, path);
    assert StillRuns(actions, j, n, c) by {
      forall i | j <= i < n ensures actions[i] != Exit(c) && actions[i] != Leave(c) {
        if i < back { assert !Interrupts(actions[i], c); }
      }
    }
    RootsSurviveEverySweep(states, actions, j, n, c, path, k);
  }

  // Where roots come from

  /** Some process has called addTempRoot(path) before step `n`. */
  ghost predicate AskedFor(actions: seq<Action>, n: nat, path: Path)
    requires n <= |actions|
  {
    exists i {:trigger actions[i]} :: 0 <= i < n && actions[i].AddTempRoot? && actions[i].path == path
  }

  ghost function Asked(actions: seq<Action>, n: nat): iset<Path>
    requires n <= |actions|
  {
    iset x | AskedFor(actions, n, x)
  }

  /** All roots in a state are in `asked`: those in files, those read, and those being added. */
  ghost predicate FromAsked(s: State, asked: iset<Path>) {
    (forall i, x :: i in s.files && x in s.files[i].roots ==> x in asked)
    && (forall p, x :: p in s.procs && x in s.procs[p].tempRoots ==> x in asked)
    && (forall p :: p in s.procs && HasPath(s.procs[p].pc) ==> s.procs[p].pc.path in asked)
  }

  /** What a step adds to the files comes from the call it is part of, and what it adds to the
      roots that were read comes from the files. */
  ghost predicate InventsNothing(s: State, t: State, p: Pid)
    requires p in s.procs && p in t.procs
  {
    (forall i, x :: i in t.files && x in t.files[i].roots ==>
       (i in s.files && x in s.files[i].roots) || (HasPath(s.procs[p].pc) && x == s.procs[p].pc.path))
    && (forall x :: x in t.procs[p].tempRoots ==> x in s.procs[p].tempRoots || exists i :: i in s.files && x in s.files[i].roots)
    && (HasPath(t.procs[p].pc) ==> HasPath(s.procs[p].pc) && t.procs[p].pc.path == s.procs[p].pc.path)
  }

  lemma ClientInventsNothing(s: State, p: Pid, inode: Inode, name: Pid)
    requires Enabled(s, Advance(p, inode, name)) && HasPath(s.procs[p].pc)
    ensures p in Step(s, p, inode, name).procs && InventsNothing(s, Step(s, p, inode, name), p)
  {
    ClientStepIsOne(s, p, inode, name);
    StepAdds(s, p, inode, name, s.procs[p].pc.path);
    var t := Step(s, p, inode, name);
    assert t.procs[p].tempRoots == s.procs[p].tempRoots;
  }

  lemma ReadingInventsNothing(s: State, p: Pid)
    requires p in s.procs && s.procs[p].pc.ReadFile? && s.procs[p].pc.inode in s.files
    ensures InventsNothing(s, ReadRoots(s, p), p)
  {
    var i := s.procs[p].pc.inode;
    forall x | x in ReadRoots(s, p).procs[p].tempRoots ensures x in s.procs[p].tempRoots || exists i :: i in s.files && x in s.files[i].roots {
      if x !in s.procs[p].tempRoots { assert i in s.files && x in s.files[i].roots; }
    }
  }

  lemma MarkingInventsNothing(s: State, p: Pid)
    requires p in s.procs && s.procs[p].pc.MarkStale? && s.procs[p].pc.inode in s.files
    ensures InventsNothing(s, WriteToken(s, p), p)
  {
  }

  lemma SameFilesInventNothing(s: State, t: State, p: Pid)
    requires p in s.procs && p in t.procs && t.files == s.files && !HasPath(t.procs[p].pc)
    requires t.procs[p].tempRoots == s.procs[p].tempRoots || t.procs[p].tempRoots == {}
    ensures InventsNothing(s, t, p)
  {
  }

  lemma CollectorInventsNothing(s: State, p: Pid, inode: Inode, name: Pid)
    requires Enabled(s, Advance(p, inode, name)) && !HasPath(s.procs[p].pc)
    ensures p in Step(s, p, inode, name).procs && InventsNothing(s, Step(s, p, inode, name), p)
  {
    var t := Step(s, p, inode, name);
    AdvanceIsOne(s, p, inode, name);
    if s.procs[p].pc.ReadFile? {
      ReadingInventsNothing(s, p);
    } else if s.procs[p].pc.MarkStale? {
      MarkingInventsNothing(s, p);
    } else {
      SameFilesInventNothing(s, t, p);
    }
  }

  lemma AdvanceInventsNothing(s: State, p: Pid, inode: Inode, name: Pid, asked: iset<Path>)
    requires Enabled(s, Advance(p, inode, name)) && FromAsked(s, asked)
    ensures FromAsked(Step(s, p, inode, name), asked)
  {
    var t := Step(s, p, inode, name);
    AdvanceIsOne(s, p, inode, name);
    if HasPath(s.procs[p].pc) {
      ClientInventsNothing(s, p, inode, name);
    } else {
      CollectorInventsNothing(s, p, inode, name);
    }
    StaysFromAsked(s, t, p, asked);
  }

  lemma StaysFromAsked(s: State, t: State, p: Pid, asked: iset<Path>)
    requires OnlyOne(s, t, p) && InventsNothing(s, t, p) && FromAsked(s, asked)
    ensures FromAsked(t, asked)
  {
  }

  lemma StepInventsNothing(s: State, a: Action, asked: iset<Path>)
    requires Enabled(s, a) && FromAsked(s, asked)
    ensures FromAsked(Apply(s, a), asked + if a.AddTempRoot? then iset{a.path} else iset{})
  {
    if a.Advance? { AdvanceInventsNothing(s, a.p, a.inode, a.name, asked); }
  }

  lemma {:induction false} RunInventsNothing(states: seq<State>, actions: seq<Action>, n: nat)
    requires Run(states, actions) && n < |states|
    ensures FromAsked(states[n], Asked(actions, n))
  {
    if n > 0 {
      RunInventsNothing(states, actions, n - 1);
      var a, before := actions[n - 1], Asked(actions, n - 1);
      StepInventsNothing(states[n - 1], a, before);
      var after := before + if a.AddTempRoot? then iset{a.path} else iset{};
      forall x | x in after ensures x in Asked(actions, n) {
        if x !in before { assert actions[n - 1].AddTempRoot?; }
      }
    }
  }

  /** Over every run: a collector has read only roots that some process has asked for. */
  lemma NoInventedRoots(states: seq<State>, actions: seq<Action>, n: nat, k: Pid, path: Path)
    requires Run(states, actions) && n < |states| && k in states[n].procs && path in states[n].procs[k].tempRoots
    ensures AskedFor(actions, n, path)
  {
    RunInventsNothing(states, actions, n);
    assert path in Asked(actions, n);
  }

  // Nobody hangs but for a lock

  /** The process waits for a lock that another process has. */
  predicate Waits(s: State, p: Pid)
    requires p in s.procs
  {
    var q := s.procs[p];
    match q.pc
    case WantGcRead(_) => !CanRead(s.gcLock, p)
    case WantGcWrite => !CanWrite(s.gcLock, p)
    case WantRead(_) => q.fd.Some? && q.fd.value in s.locks && !CanRead(s.locks[q.fd.value], p)
    case WantWrite(_) => q.fd.Some? && q.fd.value in s.locks && !CanWrite(s.locks[q.fd.value], p)
    case WantFreeze(_, _, i) => i in s.locks && !CanRead(s.locks[i], p)
    case _ => false
  }

  /** A process inside a call can go on, unless it waits for a lock. */
  lemma OnlyLocksStop(s: State, p: Pid, inode: Inode)
    requires Inv(s) && p in s.procs && !s.procs[p].pc.Idle? && !s.procs[p].pc.Left? && inode !in s.files
    ensures (exists name :: Enabled(s, Advance(p, inode, name))) <==> !Waits(s, p)
  {
    assert ClientInv(s, p) && CollectorInv(s, p);
    var pc := s.procs[p].pc;
    if pc.NextFile? && exists n :: n in pc.todo {
      var n :| n in pc.todo;
      assert Enabled(s, Advance(p, inode, n));
    } else if !Waits(s, p) {
      assert Enabled(s, Advance(p, inode, 0));
    }
  }
}
