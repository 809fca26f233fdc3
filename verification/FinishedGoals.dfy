/** Which goals the loop of the worker calls (Worker::run and Worker::waitForInput of
    nix/libstore/build.cc): goals that are awake or asleep are busy, with one exception. */
module FinishedGoals {
  import opened Scheduler
  import opened Wrappers
  import TopGoals

  /** No goal that has ended is awake or asleep. */
  ghost predicate Lively(w: World) {
    forall g :: g in w.goals && (Up(w, g) || Asleep(w, g)) ==> IsBusy(w.goals, g)
  }

  lemma EndLively(w: World, e: GoalId, result: ExitCode)
    requires Lively(w) && e in w.goals && !Up(w, e) && !Asleep(w, e)
    ensures Lively(w.(goals := w.goals[e := w.goals[e].(exitCode := result)]))
  {
  }

  lemma WaiteeDoneLively(w: World, s: Settings, g: GoalId, e: GoalId, rest: seq<GoalId>, result: ExitCode)
    requires InvP(w, s, Ending(e, [g] + rest), {}) && g in w.goals && e in w.goals && Lively(w)
    ensures WaiteeDone(w, s, g, e, result).Some? && Lively(WaiteeDone(w, s, g, e, result).value)
  {
    WaiteeDoneLinks(w, s, g, e, rest, result);
    WaiteeDoneEffect(w, s, g, e, result);
    assert Solid(w.goals, Ending(e, [g] + rest), g);
    var t := WaiteeDone(w, s, g, e, result).value;
    forall h | h in t.goals && (Up(t, h) || Asleep(t, h)) ensures IsBusy(t.goals, h) {
      assert h == g || Up(w, h) || Asleep(w, h);
    }
  }

  lemma {:induction false} NotifyLively(w: World, s: Settings, rest: seq<GoalId>, e: GoalId, result: ExitCode)
    requires InvP(w, s, Ending(e, rest), {}) && e in w.goals && Lively(w)
    ensures Notify(w, s, rest, e, result).Some? && Lively(Notify(w, s, rest, e, result).value)
    decreases |rest|
  {
    if rest != [] {
      assert rest == [rest[0]] + rest[1..];
      if rest[0] in w.goals {
        WaiteeDoneKeepsInv(w, s, rest[0], e, rest[1..], result);
        WaiteeDoneLively(w, s, rest[0], e, rest[1..], result);
        NotifyLively(WaiteeDone(w, s, rest[0], e, result).value, s, rest[1..], e, result);
      } else {
        SkipGone(w, s, rest, e);
        NotifyLively(w, s, rest[1..], e, result);
      }
    }
  }

  /** Goals that are woken up where they sleep are busy. */
  lemma WakeAllLively(w: World, t: World, l: seq<GoalId>)
    requires Lively(w) && t.goals == w.goals && t.batch == w.batch
    requires forall x :: x in t.awake ==> x in w.awake || (x in l && x in w.goals)
    requires forall x :: x in l ==> Asleep(w, x)
    requires forall x :: Asleep(t, x) ==> Asleep(w, x)
    ensures Lively(t)
  {
    forall h | h in t.goals && (Up(t, h) || Asleep(t, h)) ensures IsBusy(t.goals, h) {
      assert Up(w, h) || Asleep(w, h);
    }
  }

  lemma RemoveGoalLively(w: World, s: Settings, e: GoalId, result: ExitCode)
    requires Lively(w)
    ensures Lively(RemoveGoal(w, s, e, result))
  {
    WakeAllLively(w, RemoveGoal(w, s, e, result), w.waitingForAnyGoal);
  }

  lemma AmDoneLively(w: World, s: Settings, e: GoalId, result: ExitCode)
    requires InvP(w, s, Nothing, {e}) && IsBusy(w.goals, e) && w.goals[e].waitees == {} && !HasChild(w, e) && !result.Busy?
    requires Lively(w) && !Up(w, e) && !Asleep(w, e)
    ensures AmDone(w, s, e, result).Some? && Lively(AmDone(w, s, e, result).value)
  {
    AmDoneKeepsInv(w, s, e, result);
    EndKeepsInv(w, s, e, result);
    EndLively(w, e, result);
    var w1 := w.(goals := w.goals[e := w.goals[e].(exitCode := result)]);
    NotifyKeepsInv(w1, s, w.goals[e].waiters, e, result);
    NotifyLively(w1, s, w.goals[e].waiters, e, result);
    var w2 := Notify(w1, s, w.goals[e].waiters, e, result).value;
    var w3 := w2.(goals := w2.goals[e := w2.goals[e].(waiters := [])]);
    assert Lively(w3) by {
      forall h | h in w3.goals && (Up(w3, h) || Asleep(w3, h)) ensures IsBusy(w3.goals, h) {
        assert Up(w2, h) || Asleep(w2, h);
      }
    }
    RemoveGoalLively(w3, s, e, result);
  }

  lemma ChildTerminatedLively(w: World, pid: Pid)
    requires Lively(w) && ChildTerminated(w, pid).Some?
    ensures Lively(ChildTerminated(w, pid).value)
  {
    WakeAllLively(w, ChildTerminated(w, pid).value, w.wantingToBuild);
  }

  lemma MakeGoalLively(w: World, s: Settings, key: Key, x: set<GoalId>)
    requires InvP(w, s, Nothing, x) && x <= w.goals.Keys && Lively(w)
    ensures Lively(MakeGoal(w, key).0)
  {
    MakeGoalKeepsInv(w, s, key, x);
    var (t, e) := MakeGoal(w, key);
    forall h | h in t.goals && (Up(t, h) || Asleep(t, h)) ensures IsBusy(t.goals, h) {
      if h in w.goals { assert Up(w, h) || Asleep(w, h); }
    }
  }

  lemma {:induction false} RequestLively(w: World, s: Settings, g: GoalId, keys: seq<Key>)
    requires InvP(w, s, Nothing, {g}) && IsBusy(w.goals, g) && Nowhere(w, g) && w.goals[g].key !in keys && Lively(w)
    ensures Lively(Request(w, g, keys))
    decreases |keys|
  {
    if keys != [] {
      MakeGoalKeepsInv(w, s, keys[0], {g});
      MakeGoalLively(w, s, keys[0], {g});
      var (w1, e) := MakeGoal(w, keys[0]);
      assert HasChild(w1, g) <==> HasChild(w, g);
      AddWaiteeKeepsInv(w1, s, g, e);
      var w2 := AddWaitee(w1, g, e);
      assert Lively(w2) by {
        forall h | h in w2.goals && (Up(w2, h) || Asleep(w2, h)) ensures IsBusy(w2.goals, h) { assert Up(w1, h) || Asleep(w1, h); }
      }
      RequestLively(w2, s, g, keys[1..]);
    }
  }

  lemma PerformLively(w: World, s: Settings, g: GoalId, cmd: Command)
    requires InvP(w, s, Nothing, {g}) && AtWork(w, g) && LegalCommand(w, s, g, cmd) && Lively(w)
    ensures Perform(w, s, g, cmd).Some? && Lively(Perform(w, s, g, cmd).value)
  {
    match cmd {
      case Done(result) => AmDoneLively(w, s, g, result);
      case WaitFor(keys) => RequestLively(w, s, g, keys);
      case _ =>
    }
  }

  lemma WorkLively(w: World, s: Settings, g: GoalId, pid: Option<Pid>, reset: bool, cmd: Command)
    requires Inv(w, s) && Enabled(w, s, Work(g, pid, reset, cmd)) && IsBusy(w.goals, g) && Lively(w)
    ensures var r := Apply(w, s, Work(g, pid, reset, cmd)); r.Some? && Lively(r.value)
  {
    BeginWorkKeepsInv(w, s, g, pid, reset);
    BeginWorkLively(w, g, pid, reset);
    PerformLively(BeginWork(w, g, pid, reset).value, s, g, cmd);
  }

  lemma BeginWorkLively(w: World, g: GoalId, pid: Option<Pid>, reset: bool)
    requires Lively(w) && BeginWork(w, g, pid, reset).Some?
    ensures Lively(BeginWork(w, g, pid, reset).value)
  {
    if pid.Some? { ChildTerminatedLively(w, pid.value); }
  }

  /** The exception: when a child times out whose goal is awake already, because the same
      round of waiting has found output or the end of a file, the goal ends but stays awake;
      otherwise no goal that has ended is awake or asleep. */
  lemma TimeoutLively(w: World, s: Settings, pid: Pid)
    requires Inv(w, s) && Enabled(w, s, Timeout(pid)) && Lively(w)
    ensures var r := Apply(w, s, Timeout(pid)); r.Some? && (Lively(r.value) <==> w.children[pid].goal !in w.awake)
  {
    var g := w.children[pid].goal;
    if g in w.awake {
      TimeoutStaysAwake(w, s, pid);
    } else {
      assert HasChild(w, g) && Located(w, g);
      ChildTerminatedKeepsInv(w, s, pid);
      ChildTerminatedLively(w, pid);
      AmDoneLively(ChildTerminated(w, pid).value, s, g, Failed);
    }
  }

  lemma TimeoutStaysAwake(w: World, s: Settings, pid: Pid)
    requires Inv(w, s) && Enabled(w, s, Timeout(pid)) && w.children[pid].goal in w.awake
    ensures var r, g := Apply(w, s, Timeout(pid)), w.children[pid].goal;
      r.Some? && g in r.value.goals && g in r.value.awake && !IsBusy(r.value.goals, g)
  {
    var g := w.children[pid].goal;
    assert HasChild(w, g) && Located(w, g);
    ChildTerminatedKeepsInv(w, s, pid);
    StaysAwake(ChildTerminated(w, pid).value, s, g);
  }

  lemma StaysAwake(w: World, s: Settings, e: GoalId)
    requires InvP(w, s, Nothing, {e}) && IsBusy(w.goals, e) && w.goals[e].waitees == {} && !HasChild(w, e) && e in w.awake
    ensures AmDone(w, s, e, Failed).Some?
    ensures var t := AmDone(w, s, e, Failed).value; e in t.goals && e in t.awake && !IsBusy(t.goals, e)
  {
    AmDoneKeepsInv(w, s, e, Failed);
    EndKeepsInv(w, s, e, Failed);
    var w1 := w.(goals := w.goals[e := w.goals[e].(exitCode := Failed)]);
    NotifyKeepsInv(w1, s, w.goals[e].waiters, e, Failed);
    NotifyKeepsAwake(w1, s, w.goals[e].waiters, e, Failed, e);
  }

  lemma {:induction false} NotifyKeepsAwake(w: World, s: Settings, rest: seq<GoalId>, e: GoalId, result: ExitCode, g: GoalId)
    requires Notify(w, s, rest, e, result).Some? && g in w.awake
    ensures g in Notify(w, s, rest, e, result).value.awake
    decreases |rest|
  {
    if rest != [] {
      if rest[0] in w.goals {
        NotifyKeepsAwake(WaiteeDone(w, s, rest[0], e, result).value, s, rest[1..], e, result, g);
      } else {
        NotifyKeepsAwake(w, s, rest[1..], e, result, g);
      }
    }
  }

  /** No awake goal has its child time out. */
  predicate InTime(w: World, a: Action) {
    a.Timeout? && a.pid in w.children ==> w.children[a.pid].goal !in w.awake
  }

  lemma SmallStepLively(w: World, s: Settings, a: Action)
    requires Inv(w, s) && Enabled(w, s, a) && Lively(w) && Apply(w, s, a).Some?
    requires a.StartBatch? || a.ChildEvent? || a.Poll? || a.Destroy?
    ensures Lively(Apply(w, s, a).value)
  {
    match a {
      case Poll => WakeAllLively(w, Apply(w, s, a).value, w.waitingForAWhile);
      case Destroy(g, pid) => if pid.Some? { ChildTerminatedLively(w, pid.value); }
      case _ =>
    }
  }

  lemma StepLively(w: World, s: Settings, a: Action)
    requires Inv(w, s) && Enabled(w, s, a) && Lively(w)
    ensures Apply(w, s, a).Some? && (Lively(Apply(w, s, a).value) <==> InTime(w, a))
  {
    StepKeepsInv(w, s, a);
    match a {
      case AddTop(key) => MakeGoalLively(w, s, key, {});
      case Work(g, pid, reset, cmd) => WorkLively(w, s, g, pid, reset, cmd);
      case Timeout(pid) => TimeoutLively(w, s, pid);
      case _ => SmallStepLively(w, s, a);
    }
  }

  ghost predicate AllInTime(states: seq<World>, actions: seq<Action>, n: nat)
    requires n <= |actions| < |states|
  {
    forall i {:trigger actions[i]} :: 0 <= i < n ==> InTime(states[i], actions[i])
  }

  /** Over every run in which no child times out while its goal is awake: every goal that the
      loop is about to call is busy. */
  lemma {:induction false} OnlyBusyGoalsWork(states: seq<World>, s: Settings, actions: seq<Action>, n: nat)
    requires Run(states, s, actions) && n < |states| && AllInTime(states, actions, n)
    ensures Lively(states[n]) && forall g :: g in states[n].batch ==> IsBusy(states[n].goals, g)
  {
    RunKeepsInv(states, s, actions, n);
    if n > 0 {
      OnlyBusyGoalsWork(states, s, actions, n - 1);
      RunKeepsInv(states, s, actions, n - 1);
      StepLively(states[n - 1], s, actions[n - 1]);
    }
  }

  /** Over every run whose steps before `m` were all in time: step `m` leaves a goal that has
      ended awake or asleep if and only if it is not in time itself. */
  lemma LivelyExactlyInTime(states: seq<World>, s: Settings, actions: seq<Action>, m: nat)
    requires Run(states, s, actions) && m < |actions| && AllInTime(states, actions, m)
    ensures Lively(states[m + 1]) <==> InTime(states[m], actions[m])
  {
    OnlyBusyGoalsWork(states, s, actions, m);
    RunKeepsInv(states, s, actions, m);
    StepLively(states[m], s, actions[m]);
  }

  /** Over every run whose steps were all in time: no step that the loop can take next fails an
      assertion. */
  lemma NoAssertionFails(states: seq<World>, s: Settings, actions: seq<Action>, a: Action)
    requires Run(states, s, actions) && AllInTime(states, actions, |actions|) && Enabled(states[|actions|], s, a)
    ensures Apply(states[|actions|], s, a).Some?
  {
    OnlyBusyGoalsWork(states, s, actions, |actions|);
    OnlyEndedGoalsFail(states, s, actions, a);
  }

  /** When a timeout in the exceptional case is harmless: the loop stops, because the goal was
      the last top goal or keepGoing is off, or nobody keeps the goal, so that it goes away. */
  lemma HarmlessTimeout(w: World, s: Settings, pid: Pid)
    requires Inv(w, s) && Enabled(w, s, Timeout(pid))
    ensures Apply(w, s, Timeout(pid)).Some?
    ensures var g, t := w.children[pid].goal, Apply(w, s, Timeout(pid)).value;
      (g in w.topGoals && (!s.keepGoing || w.topGoals == {g}) ==> t.topGoals == {})
      && (t.topGoals == {} ==> !Enabled(t, s, StartBatch) && forall a: Action :: a.Work? ==> !Enabled(t, s, a))
      && (g !in w.held ==> Enabled(t, s, Destroy(g, None)))
  {
    var g := w.children[pid].goal;
    assert HasChild(w, g) && Located(w, g);
    StepKeepsInv(w, s, Timeout(pid));
    ChildTerminatedKeepsInv(w, s, pid);
    var w1 := ChildTerminated(w, pid).value;
    TopGoals.EndOfTop(w1, s, g, Failed);
    var t := Apply(w, s, Timeout(pid)).value;
    EndedIsUnused(w1, s, g);
  }

  /** A goal that has ended is nobody's waitee and has no child. */
  lemma EndedIsUnused(w: World, s: Settings, e: GoalId)
    requires InvP(w, s, Nothing, {e}) && IsBusy(w.goals, e) && w.goals[e].waitees == {} && !HasChild(w, e)
    ensures AmDone(w, s, e, Failed).Some?
    ensures var t := AmDone(w, s, e, Failed).value;
      e in t.goals && t.held == w.held && t.batch == w.batch && !HasChild(t, e) && forall h :: h in t.goals ==> e !in t.goals[h].waitees
  {
    AmDoneKeepsInv(w, s, e, Failed);
    EndKeepsInv(w, s, e, Failed);
    var w1 := w.(goals := w.goals[e := w.goals[e].(exitCode := Failed)]);
    NotifyKeepsInv(w1, s, w.goals[e].waiters, e, Failed);
    NotifyFrame(w1, s, w.goals[e].waiters, e, Failed);
    var t := AmDone(w, s, e, Failed).value;
    assert t.children == w.children;
    forall h | h in t.goals ensures e !in t.goals[h].waitees { assert Pair(t.goals, Nothing, h, e); }
  }

  lemma {:induction false} NotifyFrame(w: World, s: Settings, rest: seq<GoalId>, e: GoalId, result: ExitCode)
    requires Notify(w, s, rest, e, result).Some?
    ensures var t := Notify(w, s, rest, e, result).value; t.held == w.held && t.batch == w.batch && t.children == w.children
    decreases |rest|
  {
    if rest != [] {
      if rest[0] in w.goals {
        NotifyFrame(WaiteeDone(w, s, rest[0], e, result).value, s, rest[1..], e, result);
      } else {
        NotifyFrame(w, s, rest[1..], e, result);
      }
    }
  }
}
