/** How the loop of the worker ends (the assertions at the end of Worker::run of
    nix/libstore/build.cc): with keepGoing on, all goals are finished then. */
module EndOfRun {
  import opened Graphs
  import opened Scheduler
  import opened Wrappers
  import FinishedGoals

  /** Some top goal waits for `g`, directly or not, or `g` is one. */
  ghost predicate Wanted(w: World, g: GoalId) {
    exists t :: t in w.topGoals && Reach(WaitGraph(w), t, g)
  }

  ghost function BusyGoals(w: World): iset<GoalId> {
    iset g | IsBusy(w.goals, g)
  }

  ghost function WantedGoals(w: World): iset<GoalId> {
    iset g | Wanted(w, g)
  }

  ghost predicate AllWanted(w: World) {
    BusyGoals(w) <= WantedGoals(w)
  }

  // Walks that survive the removal of a node

  lemma WalkPastSink<T(!new)>(g: Graph<T>, h: Graph<T>, e: T, w: seq<T>, a: T, b: T)
    requires WalkFromTo(g, w, a, b) && b != e && (forall y :: !Edge(g, e, y))
    requires forall x, y :: Edge(g, x, y) && y != e ==> Edge(h, x, y)
    ensures Reach(h, a, b) && a != e
  {
    forall i | 0 <= i < |w| ensures w[i] != e {
      if i < |w| - 1 { assert Edge(g, w[i], w[i + 1]); }
    }
    forall i | 0 <= i < |w| - 1 ensures Edge(h, w[i], w[i + 1]) { assert Edge(g, w[i], w[i + 1]); }
    assert WalkFromTo(h, w, a, b);
  }

  lemma WalkPastSource<T(!new)>(g: Graph<T>, h: Graph<T>, e: T, w: seq<T>, a: T, b: T)
    requires WalkFromTo(g, w, a, b) && a != e && (forall x :: !Edge(g, x, e))
    requires forall x, y :: Edge(g, x, y) && x != e ==> Edge(h, x, y)
    ensures Reach(h, a, b) && b != e
  {
    forall i | 0 <= i < |w| ensures w[i] != e {
      if i > 0 { assert Edge(g, w[i - 1], w[i - 1 + 1]); }
    }
    forall i | 0 <= i < |w| - 1 ensures Edge(h, w[i], w[i + 1]) { assert Edge(g, w[i], w[i + 1]); }
    assert WalkFromTo(h, w, a, b);
  }

  // The three ways in which the graph changes

  lemma GrowWanted(w: World, t: World)
    requires AllWanted(w) && w.topGoals <= t.topGoals
    requires forall a :: a in w.goals ==> a in t.goals && w.goals[a].waitees <= t.goals[a].waitees
    requires forall g :: IsBusy(t.goals, g) ==> IsBusy(w.goals, g) || Wanted(t, g)
    ensures AllWanted(t)
  {
    forall g | g in BusyGoals(t) ensures g in WantedGoals(t) {
      if g in BusyGoals(w) {
        var top :| top in w.topGoals && Reach(WaitGraph(w), top, g);
        forall x, y | Edge(WaitGraph(w), x, y) ensures Edge(WaitGraph(t), x, y) { assert x in w.goals; }
        ReachMono(WaitGraph(w), WaitGraph(t), top, g);
      }
    }
  }

  lemma EndWanted(w: World, t: World, e: GoalId)
    requires AllWanted(w) && e in w.goals && w.goals[e].waitees == {} && w.topGoals - {e} <= t.topGoals
    requires t.goals.Keys == w.goals.Keys && forall a :: a in w.goals ==> w.goals[a].waitees - {e} <= t.goals[a].waitees
    requires forall g :: IsBusy(t.goals, g) ==> IsBusy(w.goals, g) && g != e
    ensures AllWanted(t)
  {
    forall g | g in BusyGoals(t) ensures g in WantedGoals(t) {
      assert g in BusyGoals(w) && g in WantedGoals(w);
      var top :| top in w.topGoals && Reach(WaitGraph(w), top, g);
      var walk :| WalkFromTo(WaitGraph(w), walk, top, g);
      forall y ensures !Edge(WaitGraph(w), e, y) {}
      forall x, y | Edge(WaitGraph(w), x, y) && y != e ensures Edge(WaitGraph(t), x, y) { assert x in w.goals; }
      WalkPastSink(WaitGraph(w), WaitGraph(t), e, walk, top, g);
    }
  }

  lemma GoneWanted(w: World, t: World, e: GoalId)
    requires AllWanted(w) && e !in w.topGoals && (forall h :: h in w.goals ==> e !in w.goals[h].waitees)
    requires t.goals == w.goals - {e} && t.topGoals == w.topGoals
    ensures AllWanted(t) && !IsBusy(w.goals, e)
  {
    forall g | g in BusyGoals(w) ensures g in WantedGoals(t) && g != e {
      assert g in BusyGoals(w) && g in WantedGoals(w);
      var top :| top in w.topGoals && Reach(WaitGraph(w), top, g);
      var walk :| WalkFromTo(WaitGraph(w), walk, top, g);
      forall x ensures !Edge(WaitGraph(w), x, e) {}
      forall x, y | Edge(WaitGraph(w), x, y) && x != e ensures Edge(WaitGraph(t), x, y) { assert x in w.goals; }
      WalkPastSource(WaitGraph(w), WaitGraph(t), e, walk, top, g);
    }
    assert IsBusy(w.goals, e) <==> e in BusyGoals(w);
  }

  // Telling the waiters

  /** From `w` to `t`, while goal `e` ends: nobody loses a waitee but `e`, and only goals that
      exist are woken up. */
  ghost predicate Told(w: World, t: World, e: GoalId) {
    t == w.(goals := t.goals, awake := t.awake) && SameGoals(w.goals, t.goals)
    && (forall a :: a in w.goals ==> w.goals[a].waitees - {e} <= t.goals[a].waitees)
    && (forall x :: x in t.awake ==> x in w.awake || x in w.goals)
  }

  lemma {:induction false} NotifyTells(w: World, s: Settings, rest: seq<GoalId>, e: GoalId, result: ExitCode)
    requires s.keepGoing && Notify(w, s, rest, e, result).Some?
    ensures Told(w, Notify(w, s, rest, e, result).value, e)
    decreases |rest|
  {
    if rest != [] {
      if rest[0] in w.goals {
        WaiteeDoneEffect(w, s, rest[0], e, result);
        var u := WaiteeDone(w, s, rest[0], e, result).value;
        NotifyTells(u, s, rest[1..], e, result);
        assert Told(w, u, e);
      } else {
        NotifyTells(w, s, rest[1..], e, result);
      }
    }
  }

  // Steps

  ghost predicate SleepersBusy(w: World) {
    forall x :: Asleep(w, x) ==> IsBusy(w.goals, x)
  }

  /** The weak pointers to awake goals are all good. */
  ghost predicate AwakeExist(w: World) {
    forall x :: x in w.awake ==> x in w.goals
  }

  ghost predicate Orderly(w: World) {
    AllWanted(w) && SleepersBusy(w)
  }

  /** From `w` to `t`, when goal `e` has ended. */
  ghost predicate Ended(w: World, t: World, e: GoalId) {
    t.goals.Keys == w.goals.Keys && w.topGoals - {e} <= t.topGoals
    && (forall g :: IsBusy(t.goals, g) <==> IsBusy(w.goals, g) && g != e)
    && (forall a :: a in w.goals ==> w.goals[a].waitees - {e} <= t.goals[a].waitees)
    && (forall x :: x in t.awake ==> x in w.awake || x in w.goals) && (forall x :: Asleep(t, x) ==> Asleep(w, x))
  }

  lemma EndTold(w: World, w1: World, w2: World, e: GoalId, result: ExitCode)
    requires e in w.goals && w1 == w.(goals := w.goals[e := w.goals[e].(exitCode := result)]) && !result.Busy? && Told(w1, w2, e)
    ensures var w3 := w2.(goals := w2.goals[e := w2.goals[e].(waiters := [])]);
      Ended(w, w3, e) && w3.waitingForAnyGoal == w.waitingForAnyGoal
  {
    forall a | a in w.goals ensures w.goals[a].waitees == w1.goals[a].waitees {}
  }

  lemma RemoveGoalEnds(w: World, w3: World, s: Settings, e: GoalId, result: ExitCode)
    requires Ended(w, w3, e) && s.keepGoing
    ensures Ended(w, RemoveGoal(w3, s, e, result), e)
  {
  }

  lemma AmDoneTells(w: World, s: Settings, e: GoalId, result: ExitCode)
    requires InvP(w, s, Nothing, {e}) && IsBusy(w.goals, e) && w.goals[e].waitees == {} && !HasChild(w, e) && !result.Busy? && s.keepGoing
    ensures AmDone(w, s, e, result).Some? && Ended(w, AmDone(w, s, e, result).value, e)
  {
    AmDoneKeepsInv(w, s, e, result);
    var w1 := w.(goals := w.goals[e := w.goals[e].(exitCode := result)]);
    NotifyTells(w1, s, w.goals[e].waiters, e, result);
    var w2 := Notify(w1, s, w.goals[e].waiters, e, result).value;
    EndTold(w, w1, w2, e, result);
    RemoveGoalEnds(w, w2.(goals := w2.goals[e := w2.goals[e].(waiters := [])]), s, e, result);
  }

  lemma AmDoneOrderly(w: World, s: Settings, e: GoalId, result: ExitCode)
    requires InvP(w, s, Nothing, {e}) && IsBusy(w.goals, e) && w.goals[e].waitees == {} && !HasChild(w, e) && !result.Busy?
    requires s.keepGoing && Orderly(w) && !Asleep(w, e)
    ensures AmDone(w, s, e, result).Some?
    ensures var t := AmDone(w, s, e, result).value; Orderly(t) && (AwakeExist(w) ==> AwakeExist(t))
  {
    AmDoneTells(w, s, e, result);
    EndWanted(w, AmDone(w, s, e, result).value, e);
  }

  lemma MakeGoalOrderly(w: World, s: Settings, key: Key, x: set<GoalId>)
    requires InvP(w, s, Nothing, x) && x <= w.goals.Keys && Orderly(w)
    ensures var (t, e) := MakeGoal(w, key);
      SleepersBusy(t) && (AwakeExist(w) ==> AwakeExist(t)) && forall g :: IsBusy(t.goals, g) ==> IsBusy(w.goals, g) || g == e
  {
    MakeGoalKeepsInv(w, s, key, x);
  }

  lemma AddTopOrderly(w: World, s: Settings, key: Key)
    requires Inv(w, s) && Orderly(w)
    ensures var t := Apply(w, s, AddTop(key)).value; Orderly(t) && (AwakeExist(w) ==> AwakeExist(t))
  {
    MakeGoalKeepsInv(w, s, key, {});
    MakeGoalOrderly(w, s, key, {});
    var t, e := Apply(w, s, AddTop(key)).value, MakeGoal(w, key).1;
    ReachSelf(WaitGraph(t), e);
    GrowWanted(w, t);
  }

  /** One goal more to wait for: it is wanted because the goal that waits is. */
  lemma JoinWanted(w: World, t: World, g: GoalId, e: GoalId)
    requires AllWanted(w) && IsBusy(w.goals, g) && t.topGoals == w.topGoals && g != e
    requires forall a :: a in w.goals ==> a in t.goals && w.goals[a].waitees <= t.goals[a].waitees
    requires g in t.goals && e in t.goals[g].waitees && forall h :: IsBusy(t.goals, h) ==> IsBusy(w.goals, h) || h == e
    ensures AllWanted(t)
  {
    assert g in BusyGoals(w) && g in WantedGoals(w);
    var top :| top in w.topGoals && Reach(WaitGraph(w), top, g);
    forall x, y | Edge(WaitGraph(w), x, y) ensures Edge(WaitGraph(t), x, y) { assert x in w.goals; }
    ReachMono(WaitGraph(w), WaitGraph(t), top, g);
    ReachEdge(WaitGraph(t), g, e);
    ReachTrans(WaitGraph(t), top, g, e);
    GrowWanted(w, t);
  }

  lemma AddWaiteeJoins(w: World, g: GoalId, e: GoalId)
    requires g in w.goals && e in w.goals && g != e
    ensures var t := AddWaitee(w, g, e);
      t == w.(goals := t.goals) && SameGoals(w.goals, t.goals) && e in t.goals[g].waitees
      && forall a :: a in w.goals ==> w.goals[a].waitees <= t.goals[a].waitees
  {
  }

  lemma JoinOrderly(w: World, w1: World, g: GoalId, e: GoalId)
    requires AllWanted(w) && IsBusy(w.goals, g) && w1.topGoals == w.topGoals && g != e && e in w1.goals && SleepersBusy(w1)
    requires forall a :: a in w.goals ==> a in w1.goals && w1.goals[a] == w.goals[a]
    requires forall h :: IsBusy(w1.goals, h) ==> IsBusy(w.goals, h) || h == e
    ensures Orderly(AddWaitee(w1, g, e)) && (AwakeExist(w1) ==> AwakeExist(AddWaitee(w1, g, e)))
  {
    AddWaiteeJoins(w1, g, e);
    var t := AddWaitee(w1, g, e);
    JoinWanted(w, t, g, e);
    forall x | Asleep(t, x) ensures IsBusy(t.goals, x) { assert Asleep(w1, x); }
  }

  lemma WaitForOrderly(w: World, s: Settings, g: GoalId, key: Key)
    requires InvP(w, s, Nothing, {g}) && IsBusy(w.goals, g) && w.goals[g].key != key && Orderly(w)
    ensures var (w1, e) := MakeGoal(w, key);
      IsBusy(w1.goals, g) && IsBusy(w1.goals, e) && g != e
      && Orderly(AddWaitee(w1, g, e)) && (AwakeExist(w) ==> AwakeExist(AddWaitee(w1, g, e)))
  {
    MakeGoalKeepsInv(w, s, key, {g});
    MakeGoalOrderly(w, s, key, {g});
    var (w1, e) := MakeGoal(w, key);
    JoinOrderly(w, w1, g, e);
  }

  lemma {:induction false} RequestOrderly(w: World, s: Settings, g: GoalId, keys: seq<Key>)
    requires InvP(w, s, Nothing, {g}) && IsBusy(w.goals, g) && Nowhere(w, g) && w.goals[g].key !in keys && Orderly(w)
    ensures Orderly(Request(w, g, keys)) && (AwakeExist(w) ==> AwakeExist(Request(w, g, keys)))
    decreases |keys|
  {
    if keys != [] {
      WaitForOrderly(w, s, g, keys[0]);
      MakeGoalKeepsInv(w, s, keys[0], {g});
      var (w1, e) := MakeGoal(w, keys[0]);
      assert HasChild(w1, g) <==> HasChild(w, g);
      AddWaiteeKeepsInv(w1, s, g, e);
      RequestOrderly(AddWaitee(w1, g, e), s, g, keys[1..]);
    }
  }

  lemma PerformOrderly(w: World, s: Settings, g: GoalId, cmd: Command)
    requires InvP(w, s, Nothing, {g}) && AtWork(w, g) && LegalCommand(w, s, g, cmd) && s.keepGoing && Orderly(w)
    ensures Perform(w, s, g, cmd).Some?
    ensures var t := Perform(w, s, g, cmd).value; Orderly(t) && (AwakeExist(w) ==> AwakeExist(t))
  {
    match cmd {
      case Done(result) => AmDoneOrderly(w, s, g, result);
      case WaitFor(keys) => RequestOrderly(w, s, g, keys);
      case _ => GrowWanted(w, Perform(w, s, g, cmd).value);
    }
  }

  lemma AfterChildOrderly(w: World, pid: Option<Pid>)
    requires Orderly(w) && AfterChild(w, pid).Some?
    ensures var t := AfterChild(w, pid).value; Orderly(t) && t.goals == w.goals && (AwakeExist(w) ==> AwakeExist(t))
  {
    GrowWanted(w, AfterChild(w, pid).value);
  }

  lemma BeginWorkOrderly(w: World, g: GoalId, pid: Option<Pid>, reset: bool)
    requires Orderly(w) && BeginWork(w, g, pid, reset).Some?
    ensures var t := BeginWork(w, g, pid, reset).value; Orderly(t) && (AwakeExist(w) ==> AwakeExist(t))
  {
    AfterChildOrderly(w, pid);
    var t := BeginWork(w, g, pid, reset).value;
    GrowWanted(w, t);
    forall x | Asleep(t, x) ensures IsBusy(t.goals, x) { assert Asleep(AfterChild(w, pid).value, x); }
  }

  lemma WorkOrderly(w: World, s: Settings, g: GoalId, pid: Option<Pid>, reset: bool, cmd: Command)
    requires Inv(w, s) && Enabled(w, s, Work(g, pid, reset, cmd)) && IsBusy(w.goals, g) && s.keepGoing && Orderly(w)
    ensures Apply(w, s, Work(g, pid, reset, cmd)).Some?
    ensures var t := Apply(w, s, Work(g, pid, reset, cmd)).value; Orderly(t) && (AwakeExist(w) ==> AwakeExist(t))
  {
    BeginWorkKeepsInv(w, s, g, pid, reset);
    BeginWorkOrderly(w, g, pid, reset);
    PerformOrderly(BeginWork(w, g, pid, reset).value, s, g, cmd);
  }

  lemma TimeoutOrderly(w: World, s: Settings, pid: Pid)
    requires Inv(w, s) && Enabled(w, s, Timeout(pid)) && s.keepGoing && Orderly(w)
    ensures Apply(w, s, Timeout(pid)).Some?
    ensures var t := Apply(w, s, Timeout(pid)).value; Orderly(t) && (AwakeExist(w) ==> AwakeExist(t))
  {
    ChildTerminatedKeepsInv(w, s, pid);
    AfterChildOrderly(w, Some(pid));
    AmDoneOrderly(ChildTerminated(w, pid).value, s, w.children[pid].goal, Failed);
  }

  lemma DestroyOrderly(w: World, s: Settings, g: GoalId, pid: Option<Pid>)
    requires Inv(w, s) && Enabled(w, s, Destroy(g, pid)) && Orderly(w) && Apply(w, s, Destroy(g, pid)).Some?
    ensures var t := Apply(w, s, Destroy(g, pid)).value;
      Orderly(t) && (AwakeExist(w) && FinishedGoals.Lively(w) ==> AwakeExist(t))
  {
    AfterChildOrderly(w, pid);
    var w1, t := AfterChild(w, pid).value, Apply(w, s, Destroy(g, pid)).value;
    if FinishedGoals.Lively(w) {
      if pid.Some? { FinishedGoals.ChildTerminatedLively(w, pid.value); }
      assert FinishedGoals.Lively(w1);
    }
    GoneWanted(w1, t, g);
  }

  lemma StepOrderly(w: World, s: Settings, a: Action)
    requires Inv(w, s) && Enabled(w, s, a) && Apply(w, s, a).Some? && s.keepGoing && Orderly(w)
    ensures var t := Apply(w, s, a).value; Orderly(t) && (AwakeExist(w) && FinishedGoals.Lively(w) ==> AwakeExist(t))
  {
    match a {
      case AddTop(key) => AddTopOrderly(w, s, key);
      case Work(g, pid, reset, cmd) => WorkOrderly(w, s, g, pid, reset, cmd);
      case Timeout(pid) => TimeoutOrderly(w, s, pid);
      case Destroy(g, pid) => DestroyOrderly(w, s, g, pid);
      case _ => SmallStepOrderly(w, s, a);
    }
  }

  lemma SmallStepOrderly(w: World, s: Settings, a: Action)
    requires Inv(w, s) && Enabled(w, s, a) && Apply(w, s, a).Some? && Orderly(w)
    requires a.StartBatch? || a.ChildEvent? || a.Poll?
    ensures var t := Apply(w, s, a).value; Orderly(t) && (AwakeExist(w) ==> AwakeExist(t))
  {
    GrowWanted(w, Apply(w, s, a).value);
  }

  // Runs

  lemma InitialIsOrderly()
    ensures Orderly(INITIAL) && AwakeExist(INITIAL)
  {
    assert forall g :: g !in BusyGoals(INITIAL);
  }

  /** Over every run with keepGoing on: every busy goal is wanted, and whoever sleeps is busy. */
  lemma {:induction false} OrderlyInRun(states: seq<World>, s: Settings, actions: seq<Action>, n: nat)
    requires Run(states, s, actions) && s.keepGoing && n < |states|
    ensures Orderly(states[n])
  {
    if n == 0 {
      InitialIsOrderly();
    } else {
      OrderlyInRun(states, s, actions, n - 1);
      RunKeepsInv(states, s, actions, n - 1);
      NextOrderly(states[n - 1], s, actions[n - 1], states[n]);
    }
  }

  lemma NextOrderly(w: World, s: Settings, a: Action, t: World)
    requires Inv(w, s) && Enabled(w, s, a) && Apply(w, s, a) == Some(t) && s.keepGoing && Orderly(w)
    ensures Orderly(t) && (AwakeExist(w) && FinishedGoals.Lively(w) ==> AwakeExist(t))
  {
    StepOrderly(w, s, a);
  }

  lemma {:induction false} AwakeExistInRun(states: seq<World>, s: Settings, actions: seq<Action>, n: nat)
    requires Run(states, s, actions) && s.keepGoing && n < |states| && FinishedGoals.AllInTime(states, actions, n)
    ensures AwakeExist(states[n])
  {
    if n > 0 {
      AwakeExistInRun(states, s, actions, n - 1);
      OrderlyInRun(states, s, actions, n - 1);
      RunKeepsInv(states, s, actions, n - 1);
      FinishedGoals.OnlyBusyGoalsWork(states, s, actions, n - 1);
      NextOrderly(states[n - 1], s, actions[n - 1], states[n]);
    }
  }

  /** Over every run with keepGoing on, once no top goal is left: no goal is busy, none waits
      for a slot, no child runs; and nobody is awake, unless a child has timed out while its
      goal was awake. */
  lemma AllFinishedAtTheEnd(states: seq<World>, s: Settings, actions: seq<Action>, n: nat)
    requires Run(states, s, actions) && s.keepGoing && n < |states| && states[n].topGoals == {}
    ensures var w := states[n];
      (forall g :: !IsBusy(w.goals, g)) && w.wantingToBuild == [] && w.children == map[]
      && (FinishedGoals.AllInTime(states, actions, n) ==> w.awake == [] && w.batch == {})
  {
    OrderlyInRun(states, s, actions, n);
    RunKeepsInv(states, s, actions, n);
    var w := states[n];
    assert forall g :: !IsBusy(w.goals, g) by {
      forall g ensures !IsBusy(w.goals, g) { assert g in BusyGoals(w) ==> g in WantedGoals(w); }
    }
    if w.wantingToBuild != [] { assert Asleep(w, w.wantingToBuild[0]); }
    forall pid ensures pid !in w.children {}
    NoKeys(w.children);
    if FinishedGoals.AllInTime(states, actions, n) {
      FinishedGoals.OnlyBusyGoalsWork(states, s, actions, n);
      AwakeExistInRun(states, s, actions, n);
      if w.awake != [] { assert Up(w, w.awake[0]); }
      forall x ensures x !in w.batch {}
      NoMembers(w.batch);
    }
  }
}
