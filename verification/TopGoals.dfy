/** What becomes of the goals that the worker was asked to reach (Worker::run and
    Worker::removeGoal of nix/libstore/build.cc). */
module TopGoals {
  import opened Scheduler
  import opened Wrappers

  /** From `w` to `t` no goal becomes busy again, and with keepGoing on no busy goal is given up. */
  ghost predicate Pursued(w: World, t: World, s: Settings) {
    w.nextId <= t.nextId
    && (forall g :: g < w.nextId && IsBusy(t.goals, g) ==> IsBusy(w.goals, g))
    && (s.keepGoing ==> forall g :: g in w.topGoals ==> g in t.topGoals || !IsBusy(t.goals, g))
  }

  lemma PursuedOn(w: World, u: World, t: World, s: Settings)
    requires Pursued(w, u, s) && Pursued(u, t, s) && forall g :: g in w.topGoals ==> g < w.nextId
    ensures Pursued(w, t, s)
  {
  }

  lemma {:induction false} NotifyLeavesTop(w: World, s: Settings, rest: seq<GoalId>, e: GoalId, result: ExitCode)
    requires Notify(w, s, rest, e, result).Some?
    ensures var t := Notify(w, s, rest, e, result).value; t.topGoals == w.topGoals && t.nextId == w.nextId && SameGoals(w.goals, t.goals)
    decreases |rest|
  {
    if rest != [] {
      if rest[0] in w.goals {
        WaiteeDoneFrame(w, s, rest[0], e, result);
        NotifyLeavesTop(WaiteeDone(w, s, rest[0], e, result).value, s, rest[1..], e, result);
      } else {
        NotifyLeavesTop(w, s, rest[1..], e, result);
      }
    }
  }

  lemma AmDoneLeavesTop(w: World, s: Settings, e: GoalId, result: ExitCode)
    requires e in w.goals && !result.Busy? && AmDone(w, s, e, result).Some?
    ensures var t := AmDone(w, s, e, result).value;
      Pursued(w, t, s) && !IsBusy(t.goals, e)
      && t.topGoals == if e in w.topGoals && result.Failed? && !s.keepGoing then {} else w.topGoals - {e}
  {
    var w1 := w.(goals := w.goals[e := w.goals[e].(exitCode := result)]);
    NotifyLeavesTop(w1, s, w.goals[e].waiters, e, result);
  }

  /** A goal that ends leaves the top goals; so do all others if it was one of them and
      failed while keepGoing is off. */
  lemma EndOfTop(w: World, s: Settings, e: GoalId, result: ExitCode)
    requires InvP(w, s, Nothing, {e}) && IsBusy(w.goals, e) && w.goals[e].waitees == {} && !HasChild(w, e) && !result.Busy?
    ensures AmDone(w, s, e, result).Some?
    ensures var t := AmDone(w, s, e, result).value;
      Pursued(w, t, s) && !IsBusy(t.goals, e)
      && t.topGoals == if e in w.topGoals && result.Failed? && !s.keepGoing then {} else w.topGoals - {e}
  {
    AmDoneKeepsInv(w, s, e, result);
    AmDoneLeavesTop(w, s, e, result);
  }

  lemma MakeGoalPursued(w: World, s: Settings, key: Key, x: set<GoalId>)
    requires InvP(w, s, Nothing, x) && x <= w.goals.Keys
    ensures Pursued(w, MakeGoal(w, key).0, s) && MakeGoal(w, key).0.topGoals == w.topGoals
  {
    MakeGoalKeepsInv(w, s, key, x);
  }

  lemma TopIsKnown(w: World, s: Settings, x: set<GoalId>)
    requires InvP(w, s, Nothing, x)
    ensures forall g :: g in w.topGoals ==> g < w.nextId
  {
    forall g | g in w.topGoals ensures g < w.nextId { assert IndexedGoal(w, g); }
  }

  lemma {:induction false} RequestPursued(w: World, s: Settings, g: GoalId, keys: seq<Key>)
    requires InvP(w, s, Nothing, {g}) && IsBusy(w.goals, g) && Nowhere(w, g) && w.goals[g].key !in keys
    ensures Pursued(w, Request(w, g, keys), s)
    decreases |keys|
  {
    if keys != [] {
      MakeGoalKeepsInv(w, s, keys[0], {g});
      MakeGoalPursued(w, s, keys[0], {g});
      var (w1, e) := MakeGoal(w, keys[0]);
      assert HasChild(w1, g) <==> HasChild(w, g);
      AddWaiteeKeepsInv(w1, s, g, e);
      var w2 := AddWaitee(w1, g, e);
      RequestPursued(w2, s, g, keys[1..]);
      TopIsKnown(w, s, {g});
      PursuedOn(w, w2, Request(w2, g, keys[1..]), s);
    }
  }

  lemma PerformPursued(w: World, s: Settings, g: GoalId, cmd: Command)
    requires InvP(w, s, Nothing, {g}) && AtWork(w, g) && LegalCommand(w, s, g, cmd)
    ensures Perform(w, s, g, cmd).Some? && Pursued(w, Perform(w, s, g, cmd).value, s)
  {
    match cmd {
      case Done(result) => EndOfTop(w, s, g, result);
      case WaitFor(keys) => RequestPursued(w, s, g, keys);
      case _ =>
    }
  }

  lemma WorkPursued(w: World, s: Settings, g: GoalId, pid: Option<Pid>, reset: bool, cmd: Command)
    requires Inv(w, s) && Enabled(w, s, Work(g, pid, reset, cmd)) && IsBusy(w.goals, g)
    ensures var r := Apply(w, s, Work(g, pid, reset, cmd)); r.Some? && Pursued(w, r.value, s)
  {
    BeginWorkKeepsInv(w, s, g, pid, reset);
    PerformPursued(BeginWork(w, g, pid, reset).value, s, g, cmd);
  }

  lemma StepPursued(w: World, s: Settings, a: Action)
    requires Inv(w, s) && Enabled(w, s, a) && CallsBusyGoal(w, a)
    ensures Apply(w, s, a).Some? && Pursued(w, Apply(w, s, a).value, s)
  {
    StepKeepsInv(w, s, a);
    match a {
      case AddTop(key) => MakeGoalPursued(w, s, key, {});
      case Work(g, pid, reset, cmd) => WorkPursued(w, s, g, pid, reset, cmd);
      case Timeout(pid) =>
        ChildTerminatedKeepsInv(w, s, pid);
        EndOfTop(ChildTerminated(w, pid).value, s, w.children[pid].goal, Failed);
      case Destroy(g, pid) =>
      case Poll =>
      case ChildEvent(pid) =>
      case StartBatch =>
    }
  }

  /** The goal that a request for a key names. */
  function GoalOf(w: World, key: Key): GoalId {
    MakeGoal(w, key).1
  }

  lemma StaysTop(w: World, t: World, s: Settings, g: GoalId)
    requires Pursued(w, t, s) && s.keepGoing && g < w.nextId && (g in w.topGoals || !IsBusy(w.goals, g))
    ensures g < t.nextId && (g in t.topGoals || !IsBusy(t.goals, g))
  {
  }

  lemma TopIsAdded(w: World, s: Settings, key: Key)
    requires Inv(w, s)
    ensures var t, g := Apply(w, s, AddTop(key)).value, GoalOf(w, key); g in t.topGoals && g < t.nextId && IsBusy(t.goals, g)
  {
    MakeGoalKeepsInv(w, s, key, {});
    AddTopKeepsInv(w, s, key);
    TopIsKnown(Apply(w, s, AddTop(key)).value, s, {});
  }

  lemma TopIsAddedInRun(states: seq<World>, s: Settings, actions: seq<Action>, m: nat, key: Key)
    requires Run(states, s, actions) && m < |actions| && actions[m] == AddTop(key)
    ensures var t, g := states[m + 1], GoalOf(states[m], key); g in t.topGoals && g < t.nextId
  {
    RunKeepsInv(states, s, actions, m);
    TopIsAdded(states[m], s, key);
  }

  lemma PursuedInRun(states: seq<World>, s: Settings, actions: seq<Action>, n: nat)
    requires Run(states, s, actions) && n < |actions|
    ensures Pursued(states[n], states[n + 1], s)
  {
    RunKeepsInv(states, s, actions, n);
    StepKeepsInv(states[n], s, actions[n]);
    StepPursued(states[n], s, actions[n]);
  }

  /** Over every run with keepGoing on: a goal that the worker was asked to reach stays one of
      its top goals until it has ended, whatever else fails. */
  lemma {:induction false} TopGoalStays(states: seq<World>, s: Settings, actions: seq<Action>, m: nat, n: nat, key: Key)
    requires Run(states, s, actions) && s.keepGoing && m < n < |states| && actions[m] == AddTop(key)
    ensures var g := GoalOf(states[m], key);
      g < states[n].nextId && (g in states[n].topGoals || !IsBusy(states[n].goals, g))
    decreases n
  {
    if m == n - 1 {
      TopIsAddedInRun(states, s, actions, m, key);
    } else {
      TopGoalStays(states, s, actions, m, n - 1, key);
      PursuedInRun(states, s, actions, n - 1);
      StaysTop(states[n - 1], states[n], s, GoalOf(states[m], key));
    }
  }
}
