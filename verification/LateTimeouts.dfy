/** Children that time out while their goals are awake (Worker::waitForInput of
    nix/libstore/build.cc): what becomes of the loop of the worker. */
module LateTimeouts {
  import opened Graphs
  import opened Scheduler
  import opened Wrappers
  import FinishedGoals
  import TopGoals

  /** With keepGoing on and another top goal left, the loop goes on to call the goal that has
      ended, and an assertion fails. */
  lemma LateTimeoutFails(w: World, s: Settings, pid: Pid)
    requires Inv(w, s) && Enabled(w, s, Timeout(pid)) && !FinishedGoals.InTime(w, Timeout(pid)) && s.keepGoing
    requires w.children[pid].goal in w.topGoals && w.topGoals != {w.children[pid].goal}
    ensures Apply(w, s, Timeout(pid)).Some? && Enabled(Apply(w, s, Timeout(pid)).value, s, StartBatch)
    ensures var u, a := Apply(Apply(w, s, Timeout(pid)).value, s, StartBatch), Work(w.children[pid].goal, None, false, WakeSelf);
      u.Some? && Enabled(u.value, s, a) && Apply(u.value, s, a).None?
  {
    var g := w.children[pid].goal;
    assert HasChild(w, g) && Located(w, g);
    ChildTerminatedKeepsInv(w, s, pid);
    var w1 := ChildTerminated(w, pid).value;
    FinishedGoals.StaysAwake(w1, s, g);
    FinishedGoals.EndedIsUnused(w1, s, g);
    TopGoals.EndOfTop(w1, s, g, Failed);
    var t := Apply(w, s, Timeout(pid)).value;
    OthersLeft(w.topGoals, g);
    var u := Apply(t, s, StartBatch).value;
    assert u.children == t.children;
    assert !HasChild(u, g);
  }

  lemma OthersLeft<T>(s: set<T>, x: T)
    requires x in s && s != {x}
    ensures s - {x} != {}
  {
    if s - {x} == {} {
      forall y | y in s ensures y == x { assert y == x || y in s - {x}; }
    }
  }

  const ON := Settings(true, 2)
  const FIRST := DerivationKey("first")
  const SECOND := DerivationKey("second")

  /** A top goal that waits for nothing. */
  predicate Free(w: World, g: GoalId) {
    IsBusy(w.goals, g) && w.goals[g].waitees == {} && g in w.topGoals
  }

  lemma PlayOn(states: seq<World>, actions: seq<Action>, a: Action) returns (longer: seq<World>, more: seq<Action>)
    requires Run(states, ON, actions) && Enabled(states[|actions|], ON, a) && Apply(states[|actions|], ON, a).Some?
    ensures Run(longer, ON, more) && |more| == |actions| + 1 && Apply(states[|actions|], ON, a) == Some(longer[|more|])
  {
    longer, more := states + [Apply(states[|actions|], ON, a).value], actions + [a];
    forall i | 0 <= i < |more|
      ensures Enabled(longer[i], ON, more[i]) && Apply(longer[i], ON, more[i]) == Some(longer[i + 1])
    {
      assert i < |actions| ==> more[i] == actions[i];
    }
  }

  lemma OneTopGoal() returns (states: seq<World>, actions: seq<Action>)
    ensures Run(states, ON, actions)
    ensures var w := states[|actions|]; Free(w, 0) && w.topGoals == {0} && w.batch == {0} && NoChild(w)
  {
    var w1 := Apply(INITIAL, ON, AddTop(FIRST)).value;
    assert w1.awake == [0];
    var w2 := Apply(w1, ON, StartBatch).value;
    states, actions := [INITIAL, w1, w2], [AddTop(FIRST), StartBatch];
    SamePair(w2.batch, 0, 0);
    SamePair(w2.topGoals, 0, 0);
  }

  predicate NoChild(w: World) {
    w.awake == [] && w.children == map[] && w.nrLocalBuilds == 0
  }

  lemma TwoTopGoals() returns (states: seq<World>, actions: seq<Action>)
    ensures Run(states, ON, actions)
    ensures var w := states[|actions|]; Free(w, 0) && Free(w, 1) && w.batch == {0, 1} && NoChild(w) && w.goals[0].waiters == []
    ensures var w := states[|actions|]; w.wantingToBuild == w.waitingForAnyGoal == w.waitingForAWhile == []
    ensures forall h :: h in states[|actions|].goals ==> states[|actions|].goals[h].waitees == {}
  {
    var w1 := Apply(INITIAL, ON, AddTop(FIRST)).value;
    assert w1.awake == [0] && w1.nextId == 1 && FIRST in w1.index && SECOND !in w1.index;
    var w2 := Apply(w1, ON, AddTop(SECOND)).value;
    assert w2.awake == [0, 1];
    var w3 := Apply(w2, ON, StartBatch).value;
    states, actions := [INITIAL, w1, w2, w3], [AddTop(FIRST), AddTop(SECOND), StartBatch];
    SamePair(w3.batch, 0, 1);
  }

  lemma SamePair<T>(s: set<T>, a: T, b: T)
    requires forall x :: x in s <==> x == a || x == b
    ensures s == {a, b}
  {
  }

  /** A goal starts its child. */
  lemma Starts(w: World, g: GoalId, pid: Pid)
    requires Free(w, g) && g in w.batch && pid !in w.children && w.nrLocalBuilds < 2
    requires forall x :: x in w.children ==> w.children[x].goal != g
    ensures var a := Work(g, None, false, StartChild(pid, true));
      Enabled(w, ON, a) && Apply(w, ON, a) == Some(w.(batch := w.batch - {g}, children := w.children[pid := Child(g, true)], nrLocalBuilds := w.nrLocalBuilds + 1))
  {
    assert !HasChild(w, g);
    assert w.topGoals != {};
  }

  /** Two goals build; the child of the first closes its output and times out in the same
      round of waiting; the loop calls its goal once more, and an assertion fails. */
  lemma EndedGoalIsCalled() returns (states: seq<World>, actions: seq<Action>, a: Action)
    ensures Run(states, ON, actions) && Enabled(states[|actions|], ON, a) && Apply(states[|actions|], ON, a).None?
  {
    states, actions := TwoTopGoals();
    var w := states[|actions|];
    Starts(w, 0, 7);
    states, actions := PlayOn(states, actions, Work(0, None, false, StartChild(7, true)));
    var w1 := states[|actions|];
    Starts(w1, 1, 8);
    states, actions := PlayOn(states, actions, Work(1, None, false, StartChild(8, true)));
    var w2 := states[|actions|];
    NoMembers(w2.batch);
    states, actions := PlayOn(states, actions, ChildEvent(7));
    var w3 := states[|actions|];
    assert w3.children[7].goal == 0 && 0 in w3.awake && 1 in w3.topGoals;
    RunKeepsInv(states, ON, actions, |actions|);
    LateTimeoutFails(w3, ON, 7);
    states, actions := PlayOn(states, actions, Timeout(7));
    states, actions := PlayOn(states, actions, StartBatch);
    a := Work(0, None, false, WakeSelf);
  }

  /** One goal builds; its child closes its output and times out in the same round of waiting:
      the loop ends with a goal awake. */
  lemma AwakeAtTheEnd() returns (states: seq<World>, actions: seq<Action>)
    ensures Run(states, ON, actions) && states[|actions|].topGoals == {} && states[|actions|].awake != []
  {
    states, actions := OneTopGoal();
    var w := states[|actions|];
    Starts(w, 0, 7);
    states, actions := PlayOn(states, actions, Work(0, None, false, StartChild(7, true)));
    var w1 := states[|actions|];
    NoMembers(w1.batch);
    states, actions := PlayOn(states, actions, ChildEvent(7));
    var w2 := states[|actions|];
    assert w2.children[7].goal == 0 && 0 in w2.awake && w2.topGoals == {0};
    RunKeepsInv(states, ON, actions, |actions|);
    FinishedGoals.HarmlessTimeout(w2, ON, 7);
    FinishedGoals.TimeoutStaysAwake(w2, ON, 7);
    states, actions := PlayOn(states, actions, Timeout(7));
  }
}
