/** A goal that keeps the locks on its outputs when its child times out
    (DerivationGoal::timedOut of nix/libstore/build.cc): another goal that wants the same output
    sleeps for ever, and the loop of the worker has nothing to wait for. */
module KeptLocks {
  import opened Graphs
  import opened Scheduler
  import opened Wrappers
  import opened LateTimeouts

  lemma FallsAsleep(w: World, g: GoalId)
    requires Free(w, g) && g in w.batch && forall x :: x in w.children ==> w.children[x].goal != g
    ensures var a := Work(g, None, false, SleepForAnyGoal);
      Enabled(w, ON, a)
      && Apply(w, ON, a) == Some(w.(batch := w.batch - {g}, waitingForAnyGoal := AddToWeakGoals(w.waitingForAnyGoal, g)))
  {
    assert !HasChild(w, g);
    assert w.topGoals != {};
  }

  /** The first goal has a child, the second sleeps until it ends. */
  ghost predicate OneSleeps(w: World) {
    Free(w, 0) && Free(w, 1) && (forall x :: x !in w.batch) && w.goals[0].waiters == [] && w.awake == w.wantingToBuild == w.waitingForAWhile == []
    && (forall x :: x in w.waitingForAnyGoal <==> x == 1) && (forall x :: x in w.children ==> x == 7)
    && 7 in w.children && w.children[7] == Child(0, true) && w.nrLocalBuilds == 1
    && forall h :: h in w.goals ==> w.goals[h].waitees == {}
  }

  lemma FirstBuilds() returns (states: seq<World>, actions: seq<Action>)
    ensures Run(states, ON, actions) && OneSleeps(states[|actions|])
  {
    states, actions := TwoTopGoals();
    var w := states[|actions|];
    Starts(w, 0, 7);
    states, actions := PlayOn(states, actions, Work(0, None, false, StartChild(7, true)));
    var w1 := states[|actions|];
    FallsAsleep(w1, 1);
    states, actions := PlayOn(states, actions, Work(1, None, false, SleepForAnyGoal));
  }

  /** The first goal has ended, the second is awake. */
  ghost predicate OneIsAwake(w: World) {
    Free(w, 1) && (forall x :: x !in w.batch) && w.waitingForAWhile == [] && (forall x :: x in w.awake <==> x == 1)
    && (forall x :: x !in w.children) && forall h :: h in w.goals ==> w.goals[h].waitees == {}
  }

  lemma TimesOut(w: World)
    requires OneSleeps(w)
    ensures Enabled(w, ON, Timeout(7)) && Apply(w, ON, Timeout(7)).Some? && OneIsAwake(Apply(w, ON, Timeout(7)).value)
  {
    forall x ensures x !in w.batch {}
    NoMembers(w.batch);
    var w1 := ChildTerminated(w, 7).value;
    var w2 := w1.(goals := w1.goals[0 := w1.goals[0].(exitCode := Failed)]);
    assert Notify(w2, ON, [], 0, Failed) == Some(w2);
  }

  lemma Stuck(w: World)
    requires OneIsAwake(w)
    ensures Enabled(w, ON, StartBatch) && Apply(w, ON, StartBatch).Some?
    ensures var u, a := Apply(w, ON, StartBatch).value, Work(1, None, false, SleepForAnyGoal);
      Enabled(u, ON, a) && Apply(u, ON, a).Some? && NothingToWaitFor(Apply(u, ON, a).value) && Acyclic(WaitGraph(Apply(u, ON, a).value))
  {
    forall x ensures x !in w.batch {}
    NoMembers(w.batch);
    assert 1 in w.awake;
    var u := Apply(w, ON, StartBatch).value;
    FallsAsleep(u, 1);
    var t := Apply(u, ON, Work(1, None, false, SleepForAnyGoal)).value;
    forall x ensures x !in t.batch {}
    NoMembers(t.batch);
    forall x ensures x !in t.children {}
    NoKeys(t.children);
    assert 1 in t.topGoals;
    forall a, b ensures !Edge(WaitGraph(t), a, b) {}
  }

  /** Two goals for the same output, with builds allowed: the first times out but keeps its
      locks; the second, woken up, goes to sleep again until another goal ends. */
  lemma SleepsForEver() returns (states: seq<World>, actions: seq<Action>)
    ensures Run(states, ON, actions) && ON.maxBuildJobs > 0
    ensures NothingToWaitFor(states[|actions|]) && Acyclic(WaitGraph(states[|actions|]))
  {
    states, actions := FirstBuilds();
    TimesOut(states[|actions|]);
    states, actions := PlayOn(states, actions, Timeout(7));
    Stuck(states[|actions|]);
    states, actions := PlayOn(states, actions, StartBatch);
    states, actions := PlayOn(states, actions, Work(1, None, false, SleepForAnyGoal));
  }
}
