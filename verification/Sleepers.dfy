/** Goals that sleep until another goal ends (Worker::waitForAnyGoal and Worker::removeGoal of
    nix/libstore/build.cc): they do not leave the loop of the worker without anything to wait
    for. */
module Sleepers {
  import opened Graphs
  import opened Scheduler
  import opened Wrappers
  import EndOfRun

  /** Goal `g` has started a child before step `n`. */
  ghost predicate HadChild(actions: seq<Action>, n: nat, g: GoalId)
    requires n <= |actions|
  {
    exists i: nat {:trigger actions[i]} :: i < n && actions[i].Work? && actions[i].g == g && actions[i].cmd.StartChild?
  }

  /** What derivation and substitution goals keep to: one sleeps until another goal ends only
      while another goal, the one that has the locks, has a child; and none that has started a
      child waits for goals again. */
  ghost predicate Mannered(w: World, actions: seq<Action>, n: nat)
    requires n < |actions|
  {
    var a := actions[n];
    a.Work? ==>
      (a.cmd.SleepForAnyGoal? ==> exists h :: h != a.g && HasChild(w, h))
      && (a.cmd.WaitFor? ==> !HadChild(actions, n, a.g))
  }

  ghost predicate AllMannered(states: seq<World>, actions: seq<Action>, n: nat)
    requires n <= |actions| < |states|
  {
    forall i: nat {:trigger actions[i]} :: i < n ==> Mannered(states[i], actions, i)
  }

  /** `late` are goals that have started a child: they wait for no goals, and one of them is up
      to something else while anybody sleeps until another goal ends. */
  ghost predicate Attended(w: World, late: iset<GoalId>) {
    (forall h :: h in late && h in w.goals ==> w.goals[h].waitees == {})
    && (forall h :: h in late ==> h < w.nextId)
    && (forall pid :: pid in w.children ==> w.children[pid].goal in late)
    && (w.waitingForAnyGoal != [] ==> exists h :: h in late && IsBusy(w.goals, h) && h !in w.waitingForAnyGoal)
  }

  /** A step that changes the waitees of no goal of `late`, ends none and puts none to sleep
      that way. */
  lemma StaysAttended(w: World, t: World, late: iset<GoalId>)
    requires Attended(w, late) && w.nextId <= t.nextId
    requires forall h :: h in late && h in t.goals ==> h in w.goals && t.goals[h].waitees <= w.goals[h].waitees
    requires forall h :: h in late && IsBusy(w.goals, h) ==> IsBusy(t.goals, h)
    requires forall pid :: pid in t.children ==> pid in w.children && t.children[pid] == w.children[pid]
    requires t.waitingForAnyGoal == w.waitingForAnyGoal || t.waitingForAnyGoal == []
    ensures Attended(t, late)
  {
  }

  // Steps

  lemma {:induction false} NotifyShrinks(w: World, s: Settings, rest: seq<GoalId>, e: GoalId, result: ExitCode)
    requires Notify(w, s, rest, e, result).Some?
    ensures var t := Notify(w, s, rest, e, result).value;
      t == w.(goals := t.goals, awake := t.awake) && t.goals.Keys == w.goals.Keys
      && forall h :: h in w.goals ==> t.goals[h].waitees <= w.goals[h].waitees
    decreases |rest|
  {
    if rest != [] {
      if rest[0] in w.goals {
        WaiteeDoneEffect(w, s, rest[0], e, result);
        NotifyShrinks(WaiteeDone(w, s, rest[0], e, result).value, s, rest[1..], e, result);
      } else {
        NotifyShrinks(w, s, rest[1..], e, result);
      }
    }
  }

  /** When a goal ends, whoever sleeps that way is woken up. */
  lemma AmDoneAttended(w: World, s: Settings, e: GoalId, result: ExitCode, late: iset<GoalId>)
    requires Attended(w, late) && e in w.goals && AmDone(w, s, e, result).Some?
    ensures Attended(AmDone(w, s, e, result).value, late)
  {
    var w1 := w.(goals := w.goals[e := w.goals[e].(exitCode := result)]);
    NotifyShrinks(w1, s, w.goals[e].waiters, e, result);
  }

  lemma WaitForAttended(w: World, w1: World, g: GoalId, e: GoalId, late: iset<GoalId>)
    requires Attended(w, late) && g !in late && g in w.goals && e in w1.goals && g != e
    requires w1 == w.(goals := w1.goals, awake := w1.awake, nextId := w1.nextId, index := w1.index) && w.nextId <= w1.nextId
    requires (forall h :: h in w.goals ==> h in w1.goals && w1.goals[h] == w.goals[h]) && (forall h :: h in w1.goals && h < w.nextId ==> h in w.goals)
    ensures Attended(AddWaitee(w1, g, e), late)
  {
    StaysAttended(w, AddWaitee(w1, g, e), late);
  }

  lemma {:induction false} RequestAttended(w: World, s: Settings, g: GoalId, keys: seq<Key>, late: iset<GoalId>)
    requires InvP(w, s, Nothing, {g}) && IsBusy(w.goals, g) && Nowhere(w, g) && w.goals[g].key !in keys
    requires Attended(w, late) && g !in late
    ensures Attended(Request(w, g, keys), late)
    decreases |keys|
  {
    if keys != [] {
      MakeGoalKeepsInv(w, s, keys[0], {g});
      var (w1, e) := MakeGoal(w, keys[0]);
      assert HasChild(w1, g) <==> HasChild(w, g);
      AddWaiteeKeepsInv(w1, s, g, e);
      WaitForAttended(w, w1, g, e, late);
      RequestAttended(AddWaitee(w1, g, e), s, g, keys[1..], late);
    }
  }

  /** The goals of `late` after a call that may have started a child. */
  ghost function After(late: iset<GoalId>, g: GoalId, cmd: Command): iset<GoalId> {
    if cmd.StartChild? then late + iset{g} else late
  }

  lemma PerformAttended(w: World, s: Settings, g: GoalId, cmd: Command, late: iset<GoalId>)
    requires InvP(w, s, Nothing, {g}) && AtWork(w, g) && LegalCommand(w, s, g, cmd) && Perform(w, s, g, cmd).Some?
    requires Attended(w, late) && (cmd.WaitFor? ==> g !in late)
    requires cmd.SleepForAnyGoal? ==> exists h :: h != g && HasChild(w, h)
    ensures Attended(Perform(w, s, g, cmd).value, After(late, g, cmd))
  {
    match cmd {
      case Done(result) => AmDoneAttended(w, s, g, result, late);
      case WaitFor(keys) => RequestAttended(w, s, g, keys, late);
      case SleepForAnyGoal => SleepAttended(w, s, g, late);
      case StartChild(pid, slot) => StartAttended(w, s, g, pid, slot, late);
      case _ => StaysAttended(w, Perform(w, s, g, cmd).value, late);
    }
  }

  lemma SleepAttended(w: World, s: Settings, g: GoalId, late: iset<GoalId>)
    requires InvP(w, s, Nothing, {g}) && Attended(w, late) && exists h :: h != g && HasChild(w, h)
    ensures Attended(w.(waitingForAnyGoal := AddToWeakGoals(w.waitingForAnyGoal, g)), late)
  {
    var h :| h != g && HasChild(w, h);
    var pid :| pid in w.children && w.children[pid].goal == h;
    assert IsBusy(w.goals, h) && Located(w, h);
    assert !Asleep(w, h);
  }

  lemma StartAttended(w: World, s: Settings, g: GoalId, pid: Pid, slot: bool, late: iset<GoalId>)
    requires InvP(w, s, Nothing, {g}) && AtWork(w, g) && Attended(w, late)
    ensures Attended(ChildStarted(w, g, pid, slot), late + iset{g})
  {
    assert IndexedGoal(w, g);
    var t := ChildStarted(w, g, pid, slot);
    if w.waitingForAnyGoal != [] {
      var h :| h in late && IsBusy(w.goals, h) && h !in w.waitingForAnyGoal;
      assert h in late + iset{g} && IsBusy(t.goals, h) && h !in t.waitingForAnyGoal;
    }
  }

  lemma AfterChildAttended(w: World, pid: Option<Pid>, late: iset<GoalId>)
    requires Attended(w, late) && AfterChild(w, pid).Some?
    ensures Attended(AfterChild(w, pid).value, late)
  {
    StaysAttended(w, AfterChild(w, pid).value, late);
  }

  lemma BeginWorkAttended(w: World, g: GoalId, pid: Option<Pid>, reset: bool, late: iset<GoalId>)
    requires Attended(w, late) && BeginWork(w, g, pid, reset).Some?
    ensures Attended(BeginWork(w, g, pid, reset).value, late)
  {
    AfterChildAttended(w, pid, late);
    StaysAttended(AfterChild(w, pid).value, BeginWork(w, g, pid, reset).value, late);
  }

  /** The child of another goal is there still when a goal has been called. */
  lemma OtherChildStays(w: World, g: GoalId, pid: Option<Pid>, reset: bool)
    requires ChildIs(w, g, pid) && BeginWork(w, g, pid, reset).Some? && exists h :: h != g && HasChild(w, h)
    ensures exists h :: h != g && HasChild(BeginWork(w, g, pid, reset).value, h)
  {
    var h :| h != g && HasChild(w, h);
    var p :| p in w.children && w.children[p].goal == h;
    var t := BeginWork(w, g, pid, reset).value;
    assert p in t.children && t.children[p].goal == h;
    assert HasChild(t, h);
  }

  lemma WorkAttended(w: World, s: Settings, g: GoalId, pid: Option<Pid>, reset: bool, cmd: Command, late: iset<GoalId>)
    requires Inv(w, s) && Enabled(w, s, Work(g, pid, reset, cmd)) && Apply(w, s, Work(g, pid, reset, cmd)).Some?
    requires Attended(w, late) && (cmd.WaitFor? ==> g !in late) && (cmd.SleepForAnyGoal? ==> exists h :: h != g && HasChild(w, h))
    ensures Attended(Apply(w, s, Work(g, pid, reset, cmd)).value, After(late, g, cmd))
  {
    BeginWorkKeepsInv(w, s, g, pid, reset);
    BeginWorkAttended(w, g, pid, reset, late);
    if cmd.SleepForAnyGoal? { OtherChildStays(w, g, pid, reset); }
    PerformAttended(BeginWork(w, g, pid, reset).value, s, g, cmd, late);
  }

  lemma DestroyAttended(w: World, s: Settings, g: GoalId, pid: Option<Pid>, late: iset<GoalId>)
    requires Inv(w, s) && Enabled(w, s, Destroy(g, pid)) && Apply(w, s, Destroy(g, pid)).Some?
    requires Attended(w, late) && EndOfRun.Orderly(w)
    ensures Attended(Apply(w, s, Destroy(g, pid)).value, late)
  {
    AfterChildAttended(w, pid, late);
    EndOfRun.AfterChildOrderly(w, pid);
    var w1, t := AfterChild(w, pid).value, Apply(w, s, Destroy(g, pid)).value;
    EndOfRun.GoneWanted(w1, t, g);
    StaysAttended(w1, t, late);
  }

  lemma AddTopAttended(w: World, s: Settings, key: Key, late: iset<GoalId>)
    requires Inv(w, s) && Attended(w, late)
    ensures Attended(Apply(w, s, AddTop(key)).value, late)
  {
    MakeGoalKeepsInv(w, s, key, {});
    StaysAttended(w, Apply(w, s, AddTop(key)).value, late);
  }

  /** What a step adds to `late`. */
  ghost function Later(late: iset<GoalId>, a: Action): iset<GoalId> {
    if a.Work? then After(late, a.g, a.cmd) else late
  }

  lemma StepAttended(w: World, s: Settings, a: Action, late: iset<GoalId>)
    requires Inv(w, s) && Enabled(w, s, a) && Apply(w, s, a).Some? && EndOfRun.Orderly(w) && Attended(w, late)
    requires a.Work? ==> (a.cmd.WaitFor? ==> a.g !in late) && (a.cmd.SleepForAnyGoal? ==> exists h :: h != a.g && HasChild(w, h))
    ensures Attended(Apply(w, s, a).value, Later(late, a))
  {
    match a {
      case AddTop(key) => AddTopAttended(w, s, key, late);
      case Work(g, pid, reset, cmd) => WorkAttended(w, s, g, pid, reset, cmd, late);
      case Timeout(pid) =>
        AfterChildAttended(w, Some(pid), late);
        AmDoneAttended(ChildTerminated(w, pid).value, s, w.children[pid].goal, Failed, late);
      case Destroy(g, pid) => DestroyAttended(w, s, g, pid, late);
      case _ => StaysAttended(w, Apply(w, s, a).value, late);
    }
  }

  // Runs

  ghost function Late(actions: seq<Action>, n: nat): iset<GoalId>
    requires n <= |actions|
  {
    iset g | HadChild(actions, n, g)
  }

  lemma LateGrows(actions: seq<Action>, n: nat)
    requires 0 < n <= |actions|
    ensures Late(actions, n) == Later(Late(actions, n - 1), actions[n - 1])
  {
    var a := actions[n - 1];
    forall g ensures g in Late(actions, n) <==> g in Later(Late(actions, n - 1), a) {
      if HadChild(actions, n, g) {
        var i: nat :| i < n && actions[i].Work? && actions[i].g == g && actions[i].cmd.StartChild?;
      }
    }
  }

  lemma MannersBefore(states: seq<World>, actions: seq<Action>, n: nat)
    requires 0 < n <= |actions| < |states| && AllMannered(states, actions, n)
    ensures AllMannered(states, actions, n - 1) && Mannered(states[n - 1], actions, n - 1)
  {
    var last := actions[n - 1];
    forall i: nat | i < n - 1 ensures Mannered(states[i], actions, i) { var a := actions[i]; }
  }

  lemma StaysAttendedInRun(states: seq<World>, s: Settings, actions: seq<Action>, n: nat)
    requires Run(states, s, actions) && 0 < n < |states| && s.keepGoing && Mannered(states[n - 1], actions, n - 1)
    requires Attended(states[n - 1], Late(actions, n - 1))
    ensures Attended(states[n], Late(actions, n))
  {
    RunKeepsInv(states, s, actions, n - 1);
    EndOfRun.OrderlyInRun(states, s, actions, n - 1);
    StepAttended(states[n - 1], s, actions[n - 1], Late(actions, n - 1));
    LateGrows(actions, n);
  }

  lemma {:induction false} AttendedInRun(states: seq<World>, s: Settings, actions: seq<Action>, n: nat)
    requires Run(states, s, actions) && n < |states| && s.keepGoing && AllMannered(states, actions, n)
    ensures Attended(states[n], Late(actions, n))
  {
    if n > 0 {
      MannersBefore(states, actions, n);
      AttendedInRun(states, s, actions, n - 1);
      StaysAttendedInRun(states, s, actions, n);
    }
  }

  lemma OnlyASlotIsMissing(w: World, s: Settings, h: GoalId)
    requires Inv(w, s) && NothingToWaitFor(w) && IsBusy(w.goals, h) && w.goals[h].waitees == {} && h !in w.waitingForAnyGoal
    ensures s.maxBuildJobs == 0
  {
    assert Located(w, h);
    assert h in w.wantingToBuild;
    assert SlotPids(w) == {};
  }

  /** Over every run with keepGoing on whose goals keep to the above: the loop finds nothing to
      wait for only when no builds are allowed. */
  lemma NeverStuckAsleep(states: seq<World>, s: Settings, actions: seq<Action>, n: nat)
    requires Run(states, s, actions) && n < |states| && s.keepGoing && AllMannered(states, actions, n)
    requires NothingToWaitFor(states[n]) && Acyclic(WaitGraph(states[n]))
    ensures s.maxBuildJobs == 0
  {
    var w := states[n];
    AttendedInRun(states, s, actions, n);
    if w.waitingForAnyGoal != [] {
      var h :| h in Late(actions, n) && IsBusy(w.goals, h) && h !in w.waitingForAnyGoal;
      RunKeepsInv(states, s, actions, n);
      OnlyASlotIsMissing(w, s, h);
    } else {
      StuckOnlyWithoutJobs(states, s, actions, n, g => g);
    }
  }
}
