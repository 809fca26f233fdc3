/** Where the goals are after a step of the loop (class Worker of nix/libstore/build.cc): what a
    goal asks for happens to it, and every event wakes up those that wait for it. */
module WakeUps {
  import opened Scheduler
  import opened Wrappers
  import Endings
  import Waiting

  /** A goal that has been at work is awake, asleep in the list that it asked for, has the child
      that it has started, or waits; and it is nowhere else. */
  lemma PerformPlaces(w: World, s: Settings, g: GoalId, cmd: Command)
    requires InvP(w, s, Nothing, {g}) && AtWork(w, g) && LegalCommand(w, s, g, cmd) && Perform(w, s, g, cmd).Some?
    ensures var t := Perform(w, s, g, cmd).value;
      (g in t.awake <==> cmd.WakeSelf? || (cmd.SleepForSlot? && w.nrLocalBuilds < s.maxBuildJobs))
      && (g in t.wantingToBuild <==> cmd.SleepForSlot? && w.nrLocalBuilds >= s.maxBuildJobs)
      && (g in t.waitingForAnyGoal <==> cmd.SleepForAnyGoal?)
      && (g in t.waitingForAWhile <==> cmd.SleepForAWhile?)
      && (HasChild(t, g) <==> cmd.StartChild?)
      && g in t.goals && (t.goals[g].waitees != {} <==> cmd.WaitFor?)
  {
    var t := Perform(w, s, g, cmd).value;
    PerformKeepsInv(w, s, g, cmd);
    match cmd {
      case Done(result) =>
        Endings.AmDoneEndsWith(w, s, g, result);
        EndedIsNowhere(w, t, s, g, result);
      case WaitFor(keys) => WaitsOnly(w, s, g, keys);
      case StartChild(pid, _) => assert t.children[pid].goal == g;
      case _ => assert HasChild(t, g) <==> HasChild(w, g);
    }
  }

  lemma EndedIsNowhere(w: World, t: World, s: Settings, g: GoalId, result: ExitCode)
    requires InvP(w, s, Nothing, {g}) && AtWork(w, g) && Endings.EndsWith(w, t, s, g, result) && Inv(t, s) && !result.Busy?
    ensures Nowhere(t, g) && t.goals[g].waitees == {}
  {
    assert Solid(t.goals, Nothing, g);
    assert Solid(w.goals, Nothing, g);
    assert HasChild(t, g) <==> HasChild(w, g);
  }

  lemma WaitsOnly(w: World, s: Settings, g: GoalId, keys: seq<Key>)
    requires InvP(w, s, Nothing, {g}) && AtWork(w, g) && keys != [] && w.goals[g].key !in keys
    ensures var t := Request(w, g, keys); IsBusy(t.goals, g) && t.goals[g].waitees != {} && Nowhere(t, g)
  {
    var t := Request(w, g, keys);
    RequestKeepsInv(w, s, g, keys);
    Waiting.RequestAwaits(w, s, g, keys);
    assert Waiting.Awaits(t, g, keys[0]);
    forall h | h in w.goals ensures h < w.nextId { assert IndexedGoal(w, h); }
    Endings.RequestKeepsCodes(w, g, keys);
    assert Located(t, g);
  }

  /** What wakes up whom. */
  lemma EventsWake(w: World, s: Settings, a: Action)
    requires Inv(w, s) && Enabled(w, s, a) && Apply(w, s, a).Some?
    ensures var t := Apply(w, s, a).value;
      (a.ChildEvent? ==> w.children[a.pid].goal in t.awake)
      && (a.Poll? ==> t.waitingForAWhile == [] && forall g :: g in w.waitingForAWhile && g in w.goals ==> g in t.awake)
      && (a.StartBatch? ==> t.awake == [] && forall g :: g in w.awake && g in w.goals ==> g in t.batch)
  {
  }
}
