/** How goals end (class Goal and class Worker of nix/libstore/build.cc): what amDone() records
    and tells the waiters, and the exit codes that the callers of run() find. */
module Endings {
  import opened Scheduler
  import opened Wrappers

  // What the waiters are told

  /** What goal `g` waits for after `e` has ended with `result`. */
  function WaiteesAfter(q: Goal, s: Settings, e: GoalId, result: ExitCode): set<GoalId> {
    if e !in q.waitees then q.waitees else if result.Failed? && !s.keepGoing then {} else q.waitees - {e}
  }

  /** Goal `g` has heard of the end of `e` if it was waiting for it, and has not changed otherwise. */
  ghost predicate Hears(q: Goal, t: Goal, s: Settings, e: GoalId, result: ExitCode) {
    t.key == q.key && t.exitCode == q.exitCode && t.waitees == WaiteesAfter(q, s, e, result)
    && t.results == q.results + (if e in q.waitees then multiset{result} else multiset{})
  }

  /** After the goals of `told` have been told. */
  ghost predicate SomeHear(w: World, t: World, s: Settings, told: set<GoalId>, e: GoalId, result: ExitCode) {
    t == w.(goals := t.goals, awake := t.awake) && t.goals.Keys == w.goals.Keys
    && (forall g :: g in w.goals ==>
          if g in told then Hears(w.goals[g], t.goals[g], s, e, result)
          else SameCount(w.goals[g], t.goals[g]))
    && forall g :: g in t.awake <==> g in w.awake || (g in told && g in w.goals && e in w.goals[g].waitees && t.goals[g].waitees == {})
  }

  predicate SameCount(q: Goal, t: Goal) {
    t.key == q.key && t.exitCode == q.exitCode && t.waitees == q.waitees && t.results == q.results
  }

  lemma TellOneMore(w: World, u: World, s: Settings, told: set<GoalId>, g: GoalId, e: GoalId, result: ExitCode)
    requires SomeHear(w, u, s, told, e, result) && g in w.goals && g !in told && WaiteeDone(u, s, g, e, result).Some?
    ensures SomeHear(w, WaiteeDone(u, s, g, e, result).value, s, told + {g}, e, result)
  {
    WaiteeDoneEffect(u, s, g, e, result);
    var t := WaiteeDone(u, s, g, e, result).value;
    forall h | h in w.goals ensures if h in told + {g} then Hears(w.goals[h], t.goals[h], s, e, result) else SameCount(w.goals[h], t.goals[h]) {
      assert h in u.goals;
    }
    forall h ensures h in t.awake <==> h in w.awake || (h in told + {g} && h in w.goals && e in w.goals[h].waitees && t.goals[h].waitees == {}) {
      if h != g && h in w.goals { assert t.goals[h].waitees == u.goals[h].waitees; }
    }
  }

  lemma {:induction false} NotifyTellsAll(w: World, u: World, s: Settings, told: set<GoalId>, rest: seq<GoalId>, e: GoalId, result: ExitCode)
    requires SomeHear(w, u, s, told, e, result) && NoDup(rest) && (forall g :: g in rest ==> g !in told) && Notify(u, s, rest, e, result).Some?
    ensures SomeHear(w, Notify(u, s, rest, e, result).value, s, told + (set g | g in rest), e, result)
    decreases |rest|
  {
    if rest != [] {
      var g := rest[0];
      assert rest == [g] + rest[1..];
      assert g !in rest[1..];
      assert told + (set x | x in rest) == told + {g} + (set x | x in rest[1..]);
      if g in u.goals {
        TellOneMore(w, u, s, told, g, e, result);
        NotifyTellsAll(w, WaiteeDone(u, s, g, e, result).value, s, told + {g}, rest[1..], e, result);
      } else {
        assert SomeHear(w, u, s, told + {g}, e, result);
        NotifyTellsAll(w, u, s, told + {g}, rest[1..], e, result);
      }
    }
  }

  /** What the end of goal `e` does: its exit code is recorded, exactly its waiters count it, and
      the goals that have nothing left to wait for, or wait for the end of any goal, are awake. */
  ghost predicate EndsWith(w: World, t: World, s: Settings, e: GoalId, result: ExitCode)
    requires e in w.goals
  {
    t.goals.Keys == w.goals.Keys && t.goals[e].key == w.goals[e].key && t.goals[e].exitCode == result
    && (forall g :: g in w.goals && g != e ==> Hears(w.goals[g], t.goals[g], s, e, result))
    && (forall g :: g in w.goals ==>
          (g in t.awake <==> g in w.awake || g in w.waitingForAnyGoal || (e in w.goals[g].waitees && t.goals[g].waitees == {})))
    && t == w.(goals := t.goals, awake := t.awake, index := t.index, topGoals := t.topGoals, waitingForAnyGoal := [])
  }

  lemma WaitersAreTold(w: World, s: Settings, e: GoalId, g: GoalId)
    requires InvP(w, s, Nothing, {e}) && e in w.goals && g in w.goals
    ensures e in w.goals[g].waitees <==> g in w.goals[e].waiters
  {
    assert Pair(w.goals, Nothing, g, e);
  }

  lemma AmDoneEndsWith(w: World, s: Settings, e: GoalId, result: ExitCode)
    requires InvP(w, s, Nothing, {e}) && IsBusy(w.goals, e) && AmDone(w, s, e, result).Some?
    ensures EndsWith(w, AmDone(w, s, e, result).value, s, e, result)
  {
    var waiters := w.goals[e].waiters;
    var w1 := w.(goals := w.goals[e := w.goals[e].(exitCode := result)]);
    var told := set g | g in waiters;
    assert Solid(w.goals, Nothing, e);
    NotifyTellsAll(w1, w1, s, {}, waiters, e, result);
    assert {} + told == told;
    var w2, t := Notify(w1, s, waiters, e, result).value, AmDone(w, s, e, result).value;
    forall g | g in w.goals ensures e in w.goals[g].waitees <==> g in told { WaitersAreTold(w, s, e, g); }
    ToldEnds(w, w1, w2, t, s, e, told, result);
  }

  lemma ToldEnds(w: World, w1: World, w2: World, t: World, s: Settings, e: GoalId, told: set<GoalId>, result: ExitCode)
    requires e in w.goals && w1 == w.(goals := w.goals[e := w.goals[e].(exitCode := result)]) && SomeHear(w1, w2, s, told, e, result)
    requires forall g :: g in w.goals ==> (e in w.goals[g].waitees <==> g in told)
    requires t == RemoveGoal(w2.(goals := w2.goals[e := w2.goals[e].(waiters := [])]), s, e, result)
    ensures EndsWith(w, t, s, e, result)
  {
    forall g | g in w.goals && g != e ensures Hears(w.goals[g], t.goals[g], s, e, result) {
      assert g in w1.goals && t.goals[g] == w2.goals[g];
    }
    forall g | g in w.goals
      ensures g in t.awake <==> g in w.awake || g in w.waitingForAnyGoal || (e in w.goals[g].waitees && t.goals[g].waitees == {})
    {
      assert t.goals[g].waitees == w2.goals[g].waitees;
    }
  }

  // Exit codes over runs

  /** Step `a` ends goal `g` with exit code `r`: by itself, or by a timeout of its child. */
  predicate EndsGoal(w: World, a: Action, g: GoalId, r: ExitCode) {
    (a.Work? && a.g == g && a.cmd == Done(r)) || (a.Timeout? && a.pid in w.children && w.children[a.pid].goal == g && r.Failed?)
  }

  predicate Ends(w: World, a: Action, g: GoalId) {
    (a.Work? && a.g == g && a.cmd.Done?) || (a.Timeout? && a.pid in w.children && w.children[a.pid].goal == g)
  }

  /** Goals are made with new names and without an exit code, and nobody's exit code changes
      but that of the goals in `except`. */
  ghost predicate KeepsCodes(w: World, t: World, except: set<GoalId>) {
    w.nextId <= t.nextId
    && (forall g :: g in w.goals && g in t.goals && g !in except ==> t.goals[g].exitCode == w.goals[g].exitCode)
    && (forall g :: g in t.goals && g !in w.goals ==> w.nextId <= g && t.goals[g].exitCode.Busy?)
  }

  lemma MakeGoalKeepsCodes(w: World, key: Key)
    requires forall h :: h in w.goals ==> h < w.nextId
    ensures var t := MakeGoal(w, key).0;
      w.goals.Keys <= t.goals.Keys && KeepsCodes(w, t, {}) && forall h :: h in t.goals ==> h < t.nextId
  {
  }

  lemma AddWaiteeKeepsCodes(w: World, g: GoalId, e: GoalId)
    requires g in w.goals && e in w.goals && g != e
    ensures var t := AddWaitee(w, g, e); t.goals.Keys == w.goals.Keys && t.nextId == w.nextId && KeepsCodes(w, t, {})
  {
  }

  lemma KeepsCodesTrans(w: World, u: World, t: World)
    requires KeepsCodes(w, u, {}) && KeepsCodes(u, t, {}) && w.goals.Keys <= u.goals.Keys <= t.goals.Keys
    ensures KeepsCodes(w, t, {})
  {
    forall g | g in t.goals && g !in w.goals ensures w.nextId <= g && t.goals[g].exitCode.Busy? {
      if g in u.goals { assert u.goals[g].exitCode.Busy?; }
    }
  }

  lemma {:induction false} RequestKeepsCodes(w: World, g: GoalId, keys: seq<Key>)
    requires forall h :: h in w.goals ==> h < w.nextId
    ensures w.goals.Keys <= Request(w, g, keys).goals.Keys && KeepsCodes(w, Request(w, g, keys), {})
    decreases |keys|
  {
    if keys != [] {
      var (w1, e) := MakeGoal(w, keys[0]);
      MakeGoalKeepsCodes(w, keys[0]);
      if g in w1.goals && e in w1.goals && g != e {
        var w2 := AddWaitee(w1, g, e);
        AddWaiteeKeepsCodes(w1, g, e);
        RequestKeepsCodes(w2, g, keys[1..]);
        KeepsCodesTrans(w, w1, w2);
        KeepsCodesTrans(w, w2, Request(w2, g, keys[1..]));
      }
    }
  }

  lemma BeginWorkKeepsCodes(w: World, g: GoalId, pid: Option<Pid>, reset: bool)
    requires BeginWork(w, g, pid, reset).Some?
    ensures var t := BeginWork(w, g, pid, reset).value;
      t.goals.Keys == w.goals.Keys && t.nextId == w.nextId && KeepsCodes(w, t, {})
  {
  }

  /** What a goal does by itself. */
  lemma PerformCodes(w: World, s: Settings, g: GoalId, cmd: Command)
    requires InvP(w, s, Nothing, {g}) && IsBusy(w.goals, g) && Perform(w, s, g, cmd).Some?
    ensures var t := Perform(w, s, g, cmd).value;
      w.goals.Keys <= t.goals.Keys && KeepsCodes(w, t, if cmd.Done? then {g} else {}) && (cmd.Done? ==> t.goals[g].exitCode == cmd.result)
  {
    match cmd {
      case Done(result) => AmDoneEndsWith(w, s, g, result);
      case WaitFor(keys) =>
        forall h | h in w.goals ensures h < w.nextId { assert IndexedGoal(w, h); }
        RequestKeepsCodes(w, g, keys);
      case _ =>
    }
  }

  lemma WorkCodes(w: World, s: Settings, g: GoalId, pid: Option<Pid>, reset: bool, cmd: Command)
    requires Inv(w, s) && Enabled(w, s, Work(g, pid, reset, cmd)) && Apply(w, s, Work(g, pid, reset, cmd)).Some?
    ensures var t := Apply(w, s, Work(g, pid, reset, cmd)).value;
      IsBusy(w.goals, g) && w.goals.Keys <= t.goals.Keys && KeepsCodes(w, t, if cmd.Done? then {g} else {})
      && (cmd.Done? ==> t.goals[g].exitCode == cmd.result)
  {
    BeginWorkKeepsCodes(w, g, pid, reset);
    BeginWorkKeepsInv(w, s, g, pid, reset);
    PerformCodes(BeginWork(w, g, pid, reset).value, s, g, cmd);
  }

  lemma TimeoutCodes(w: World, s: Settings, pid: Pid)
    requires Inv(w, s) && pid in w.children && Apply(w, s, Timeout(pid)).Some?
    ensures var t, g := Apply(w, s, Timeout(pid)).value, w.children[pid].goal;
      IsBusy(w.goals, g) && t.goals.Keys == w.goals.Keys && KeepsCodes(w, t, {g}) && t.goals[g].exitCode == Failed
  {
    ChildTerminatedKeepsInv(w, s, pid);
    var u, g := ChildTerminated(w, pid).value, w.children[pid].goal;
    AmDoneEndsWith(u, s, g, Failed);
  }

  lemma OtherCodes(w: World, s: Settings, a: Action)
    requires Inv(w, s) && Enabled(w, s, a) && Apply(w, s, a).Some? && !a.Work? && !a.Timeout?
    ensures KeepsCodes(w, Apply(w, s, a).value, {})
  {
    if a.AddTop? {
      forall h | h in w.goals ensures h < w.nextId { assert IndexedGoal(w, h); }
      MakeGoalKeepsCodes(w, a.key);
    }
  }

  /** A step records exactly the exit code of the goal that it ends. */
  lemma StepCodes(w: World, s: Settings, a: Action, g: GoalId)
    requires Inv(w, s) && Enabled(w, s, a) && Apply(w, s, a).Some? && g in Apply(w, s, a).value.goals
    ensures var t := Apply(w, s, a).value;
      w.nextId <= t.nextId
      && (g !in w.goals ==> t.goals[g].exitCode.Busy? && !Ends(w, a, g) && w.nextId <= g)
      && (g in w.goals && !Ends(w, a, g) ==> t.goals[g].exitCode == w.goals[g].exitCode)
      && forall r :: EndsGoal(w, a, g, r) ==> t.goals[g].exitCode == r && IsBusy(w.goals, g)
  {
    match a {
      case Work(h, pid, reset, cmd) => WorkCodes(w, s, h, pid, reset, cmd);
      case Timeout(pid) => TimeoutCodes(w, s, pid);
      case _ => OtherCodes(w, s, a);
    }
  }

  lemma StepGrows(w: World, s: Settings, a: Action)
    requires Inv(w, s) && Enabled(w, s, a) && Apply(w, s, a).Some?
    ensures w.nextId <= Apply(w, s, a).value.nextId
  {
    match a {
      case Work(h, pid, reset, cmd) => WorkCodes(w, s, h, pid, reset, cmd);
      case Timeout(pid) => TimeoutCodes(w, s, pid);
      case _ => OtherCodes(w, s, a);
    }
  }

  lemma EndedExisted(w: World, s: Settings, a: Action, g: GoalId)
    requires Inv(w, s) && Enabled(w, s, a) && Apply(w, s, a).Some? && Ends(w, a, g)
    ensures g < w.nextId
  {
    if a.Work? { WorkCodes(w, s, g, a.child, a.reset, a.cmd); } else { TimeoutCodes(w, s, a.pid); }
    assert IndexedGoal(w, g);
  }

  /** A name that has ended is not given again. */
  lemma {:induction false} EndedIsOld(states: seq<World>, s: Settings, actions: seq<Action>, i: nat, n: nat, g: GoalId)
    requires Run(states, s, actions) && i < n < |states| && Ends(states[i], actions[i], g)
    ensures g < states[n].nextId
    decreases n
  {
    var a := actions[n - 1];
    RunKeepsInv(states, s, actions, n - 1);
    StepGrows(states[n - 1], s, a);
    if i < n - 1 { EndedIsOld(states, s, actions, i, n - 1, g); } else { EndedExisted(states[i], s, a, g); }
  }

  /** A step before `n` has ended goal `g` with `r`. */
  ghost predicate HasEndedWith(states: seq<World>, actions: seq<Action>, n: nat, g: GoalId, r: ExitCode)
    requires n <= |actions| < |states|
  {
    exists i: nat :: i < n && EndsGoal(states[i], actions[i], g, r)
  }

  lemma NewHasNotEnded(states: seq<World>, s: Settings, actions: seq<Action>, n: nat, g: GoalId, r: ExitCode)
    requires Run(states, s, actions) && n < |states| && states[n].nextId <= g
    ensures !HasEndedWith(states, actions, n, g, r)
  {
    if i: nat :| i < n && EndsGoal(states[i], actions[i], g, r) { EndedIsOld(states, s, actions, i, n, g); }
  }

  lemma EndedMore(states: seq<World>, actions: seq<Action>, n: nat, g: GoalId, r: ExitCode)
    requires n < |actions| < |states|
    ensures HasEndedWith(states, actions, n + 1, g, r) <==> HasEndedWith(states, actions, n, g, r) || EndsGoal(states[n], actions[n], g, r)
  {
  }

  lemma StepCode(w: World, s: Settings, a: Action, g: GoalId, r: ExitCode)
    requires Inv(w, s) && Enabled(w, s, a) && Apply(w, s, a).Some? && g in Apply(w, s, a).value.goals && !r.Busy?
    ensures EndsGoal(w, a, g, r) ==> IsBusy(w.goals, g)
    ensures Apply(w, s, a).value.goals[g].exitCode == r <==> EndsGoal(w, a, g, r) || (g in w.goals && w.goals[g].exitCode == r)
    ensures g !in w.goals ==> w.nextId <= g
  {
    StepCodes(w, s, a, g);
    if Ends(w, a, g) { assert EndsGoal(w, a, g, if a.Work? then a.cmd.result else Failed); }
  }

  lemma CodeBefore(states: seq<World>, s: Settings, actions: seq<Action>, n: nat, g: GoalId, r: ExitCode)
    requires Run(states, s, actions) && 0 < n < |states| && g in states[n].goals && !r.Busy?
    ensures states[n].goals[g].exitCode == r
       <==> EndsGoal(states[n - 1], actions[n - 1], g, r) || (g in states[n - 1].goals && states[n - 1].goals[g].exitCode == r)
    ensures g !in states[n - 1].goals ==> states[n - 1].nextId <= g
  {
    RunKeepsInv(states, s, actions, n - 1);
    StepCode(states[n - 1], s, actions[n - 1], g, r);
  }

  /** Over every run: a goal has an exit code if and only if an earlier step has ended it with
      this very code. */
  lemma {:induction false} ExitCodeIsResult(states: seq<World>, s: Settings, actions: seq<Action>, n: nat, g: GoalId, r: ExitCode)
    requires Run(states, s, actions) && n < |states| && g in states[n].goals && !r.Busy?
    ensures states[n].goals[g].exitCode == r <==> HasEndedWith(states, actions, n, g, r)
  {
    if n > 0 {
      CodeBefore(states, s, actions, n, g, r);
      EndedMore(states, actions, n - 1, g, r);
      if g in states[n - 1].goals {
        ExitCodeIsResult(states, s, actions, n - 1, g, r);
      } else {
        NewHasNotEnded(states, s, actions, n - 1, g, r);
      }
    }
  }
}
