/** class Worker and the part of class Goal that every goal shares (nix/libstore/build.cc),
    with their loops.  Each method does to the fields what its function does to the value. */
module WorkerClass {
  import opened Scheduler
  import opened Wrappers

  /** Some element of a set, as a loop over the set would take it next. */
  method Pick<T(==)>(s: set<T>) returns (x: T)
    requires s != {}
    ensures x in s
  {
    x :| x in s;
  }

  lemma EqualMaps<K, V>(a: map<K, V>, b: map<K, V>)
    requires (forall k :: k in a <==> k in b) && (forall k :: k in a ==> a[k] == b[k])
    ensures a == b
  {
  }

  class Worker {
    var goals: Goals
    var nextId: GoalId
    var index: map<Key, GoalId>
    var held: set<GoalId>
    var topGoals: set<GoalId>
    var batch: set<GoalId>
    var awake: seq<GoalId>
    var wantingToBuild: seq<GoalId>
    var waitingForAnyGoal: seq<GoalId>
    var waitingForAWhile: seq<GoalId>
    var children: map<Pid, Child>
    var nrLocalBuilds: nat
    const settings: Settings

    constructor (settings: Settings)
      ensures View() == INITIAL && this.settings == settings
    {
      this.settings := settings;
      goals, nextId, index, held, topGoals, batch := map[], 0, map[], {}, {}, {};
      awake, wantingToBuild, waitingForAnyGoal, waitingForAWhile := [], [], [], [];
      children, nrLocalBuilds := map[], 0;
    }

    function View(): World
      reads this
    {
      World(goals, nextId, index, held, topGoals, batch, awake, wantingToBuild, waitingForAnyGoal, waitingForAWhile, children, nrLocalBuilds)
    }

    /** Appends a goal to a list of weak pointers unless it is there. */
    static method AppendWeakly(list: seq<GoalId>, g: GoalId) returns (r: seq<GoalId>)
      ensures r == AddToWeakGoals(list, g)
    {
      for n := 0 to |list|
        invariant g !in list[..n]
      {
        if list[n] == g { return list; }
      }
      assert list[..|list|] == list;
      r := list + [g];
    }

    method Wake(g: GoalId)
      modifies this`awake
      ensures View() == WakeUp(old(View()), g)
    {
      awake := AppendWeakly(awake, g);
    }

    /** Wakes up the goals of a list that still exist. */
    method WakeList(list: seq<GoalId>)
      modifies this`awake
      ensures View() == WakeAll(old(View()), list)
    {
      for n := 0 to |list|
        invariant View() == WakeAll(old(View()), list[..n])
      {
        assert list[..n + 1][..n] == list[..n];
        if list[n] in goals { Wake(list[n]); }
      }
      assert list[..|list|] == list;
    }

    /** The invariant is kept, whichever goals are at work. */
    method MakeOrFind(key: Key, ghost working: set<GoalId>) returns (g: GoalId)
      modifies this`goals, this`nextId, this`index, this`awake
      ensures (View(), g) == MakeGoal(old(View()), key)
      ensures old(InvP(View(), settings, Nothing, working)) && working <= old(goals.Keys) ==>
        InvP(View(), settings, Nothing, working) && IsBusy(goals, g) && goals[g].key == key
    {
      if InvP(View(), settings, Nothing, working) && working <= goals.Keys { MakeGoalKeepsInv(View(), settings, key, working); }
      if key in index && index[key] in goals { return index[key]; }
      g := nextId;
      goals, nextId, index := goals[g := Goal(key, {}, [], 0, 0, 0, multiset{}, Busy)], nextId + 1, index[key := g];
      Wake(g);
    }

    method LinkWaitee(g: GoalId, e: GoalId)
      requires g in goals && e in goals && g != e
      modifies this`goals
      ensures View() == AddWaitee(old(View()), g, e)
      ensures old(InvP(View(), settings, Nothing, {g}) && IsBusy(goals, g) && IsBusy(goals, e) && Nowhere(View(), g)) ==>
        InvP(View(), settings, Nothing, {g}) && Nowhere(View(), g) && goals[g].waitees != {}
    {
      if InvP(View(), settings, Nothing, {g}) && IsBusy(goals, g) && IsBusy(goals, e) && Nowhere(View(), g) {
        AddWaiteeKeepsInv(View(), settings, g, e);
      }
      goals := goals[g := goals[g].(waitees := goals[g].waitees + {e})];
      var waiters := AppendWeakly(goals[e].waiters, g);
      goals := goals[e := goals[e].(waiters := waiters)];
    }

    /** The copy of a list of weak pointers that leaves out one goal. */
    static method Filter(list: seq<GoalId>, g: GoalId) returns (r: seq<GoalId>)
      ensures r == Without(list, g)
    {
      r := [];
      for n := 0 to |list|
        invariant r == Without(list[..n], g)
      {
        assert list[..n + 1][..n] == list[..n];
        if list[n] != g { r := r + [list[n]]; }
      }
      assert list[..|list|] == list;
    }

    /** Removes a goal from the waiters of everything it waits for. */
    method DropWaitees(g: GoalId)
      requires g in goals && goals[g].waitees <= goals.Keys
      modifies this`goals
      ensures goals == Cancel(old(goals), g)
    {
      var todo := goals[g].waitees;
      while todo != {}
        invariant goals.Keys == old(goals.Keys) && todo <= old(goals[g].waitees)
        invariant forall r :: r in goals ==>
          goals[r] == if r in old(goals[g].waitees) && r !in todo
                      then old(goals)[r].(waiters := Without(old(goals)[r].waiters, g)) else old(goals)[r]
        decreases todo
      {
        var i := Pick(todo);
        todo := todo - {i};
        var waiters2 := Filter(goals[i].waiters, g);
        goals := goals[i := goals[i].(waiters := waiters2)];
      }
      goals := goals[g := goals[g].(waitees := {})];
      ghost var spec := Cancel(old(goals), g);
      forall r | r in goals ensures goals[r] == spec[r] {
        assert r !in todo;
      }
      EqualMaps(goals, spec);
    }

    /** False is the failed assertion. */
    method TellWaitee(g: GoalId, e: GoalId, result: ExitCode) returns (ok: bool)
      requires g in goals && goals[g].waitees <= goals.Keys
      modifies this`goals, this`awake
      ensures if ok then WaiteeDone(old(View()), settings, g, e, result) == Some(View())
              else WaiteeDone(old(View()), settings, g, e, result).None?
    {
      if e !in goals[g].waitees { return false; }
      var q := goals[g].(waitees := goals[g].waitees - {e});
      if result.Failed? || result.NoSubstituters? || result.IncompleteClosure? { q := q.(nrFailed := q.nrFailed + 1); }
      if result.NoSubstituters? { q := q.(nrNoSubstituters := q.nrNoSubstituters + 1); }
      if result.IncompleteClosure? { q := q.(nrIncompleteClosure := q.nrIncompleteClosure + 1); }
      q := q.(results := q.results + multiset{result});
      goals := goals[g := q];
      if q.waitees == {} || (result.Failed? && !settings.keepGoing) {
        DropWaitees(g);
        Wake(g);
      }
      ok := true;
    }

    method Remove(e: GoalId, result: ExitCode)
      modifies this`index, this`topGoals, this`awake, this`waitingForAnyGoal
      ensures View() == RemoveGoal(old(View()), settings, e, result)
    {
      index := map k | k in index && index[k] != e :: index[k];
      if e in topGoals {
        topGoals := topGoals - {e};
        if result.Failed? && !settings.keepGoing { topGoals := {}; }
      }
      WakeList(waitingForAnyGoal);
      waitingForAnyGoal := [];
    }

    /** The loop over the waiters of a goal that ends. */
    method TellWaiters(waiters: seq<GoalId>, e: GoalId, result: ExitCode) returns (ok: bool)
      requires InvP(View(), settings, Ending(e, waiters), {}) && e in goals
      modifies this`goals, this`awake
      ensures ok && Notify(old(View()), settings, waiters, e, result) == Some(View()) && e in goals
    {
      ghost var w1 := View();
      for n := 0 to |waiters|
        invariant e in goals && InvP(View(), settings, Ending(e, waiters[n..]), {})
        invariant Notify(View(), settings, waiters[n..], e, result) == Notify(w1, settings, waiters, e, result)
      {
        assert waiters[n..][0] == waiters[n] && waiters[n..][1..] == waiters[n + 1..];
        assert waiters[n..] == [waiters[n]] + waiters[n + 1..];
        if waiters[n] in goals {
          assert Solid(goals, Ending(e, waiters[n..]), waiters[n]);
          WaiteeDoneKeepsInv(View(), settings, waiters[n], e, waiters[n + 1..], result);
          ok := TellWaitee(waiters[n], e, result);
          assert ok;
        } else {
          SkipGone(View(), settings, waiters[n..], e);
        }
      }
      ok := true;
    }

    /** A goal ends: its waiters are told one after the other, then it is forgotten.  In a
        worker that keeps the invariant this never fails an assertion. */
    method End(e: GoalId, result: ExitCode) returns (ok: bool)
      requires InvP(View(), settings, Nothing, {e}) && IsBusy(goals, e) && goals[e].waitees == {} && !HasChild(View(), e)
      requires !result.Busy?
      modifies this`goals, this`index, this`topGoals, this`awake, this`waitingForAnyGoal
      ensures ok && AmDone(old(View()), settings, e, result) == Some(View()) && Inv(View(), settings)
    {
      AmDoneKeepsInv(View(), settings, e, result);
      EndKeepsInv(View(), settings, e, result);
      var waiters := goals[e].waiters;
      goals := goals[e := goals[e].(exitCode := result)];
      ok := TellWaiters(waiters, e, result);
      goals := goals[e := goals[e].(waiters := [])];
      Remove(e, result);
    }

    method StartChildProcess(g: GoalId, pid: Pid, inBuildSlot: bool)
      modifies this`children, this`nrLocalBuilds
      ensures View() == ChildStarted(old(View()), g, pid, inBuildSlot)
      ensures old(InvP(View(), settings, Nothing, {g}) && AtWork(View(), g) && LegalCommand(View(), settings, g, StartChild(pid, inBuildSlot))) ==>
        Inv(View(), settings)
    {
      if InvP(View(), settings, Nothing, {g}) && AtWork(View(), g) && LegalCommand(View(), settings, g, StartChild(pid, inBuildSlot)) {
        ChildStartedKeepsInv(View(), settings, g, pid, inBuildSlot);
      }
      children := children[pid := Child(g, inBuildSlot)];
      if inBuildSlot { nrLocalBuilds := nrLocalBuilds + 1; }
    }

    /** False is one of the failed assertions. */
    method ReapChild(pid: Pid) returns (ok: bool)
      modifies this`children, this`nrLocalBuilds, this`awake, this`wantingToBuild
      ensures if ok then ChildTerminated(old(View()), pid) == Some(View()) else ChildTerminated(old(View()), pid).None?
      ensures old(Inv(View(), settings) && pid in children) ==>
        ok && InvP(View(), settings, Nothing, {old(children[pid].goal)}) && !HasChild(View(), old(children[pid].goal))
    {
      if Inv(View(), settings) && pid in children { ChildTerminatedKeepsInv(View(), settings, pid); }
      if pid !in children { return false; }
      if children[pid].inBuildSlot {
        if nrLocalBuilds == 0 { return false; }
        nrLocalBuilds := nrLocalBuilds - 1;
      }
      children := children - {pid};
      WakeList(wantingToBuild);
      wantingToBuild := [];
      ok := true;
    }

    method SleepUntilSlot(g: GoalId)
      modifies this`awake, this`wantingToBuild
      ensures View() == WaitForBuildSlot(old(View()), settings, g)
      ensures old(InvP(View(), settings, Nothing, {g}) && AtWork(View(), g)) ==> Inv(View(), settings)
    {
      if InvP(View(), settings, Nothing, {g}) && AtWork(View(), g) { SleepKeepsInv(View(), settings, g, SleepForSlot); }
      if nrLocalBuilds < settings.maxBuildJobs {
        Wake(g);
      } else {
        wantingToBuild := AppendWeakly(wantingToBuild, g);
      }
    }
  }
}
