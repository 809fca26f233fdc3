/** The goal scheduler (class Goal and class Worker of nix/libstore/build.cc): goals that
    wait for goals, the lists of those that are awake or asleep, the running children and
    the build slots. */
module Scheduler {
  import opened Graphs
  import opened Wrappers

  type Path = string
  type GoalId = int
  type Pid = int

  datatype ExitCode = Busy | Success | Failed | NoSubstituters | IncompleteClosure

  datatype Settings = Settings(keepGoing: bool, maxBuildJobs: nat)

  datatype Key = DerivationKey(path: Path) | SubstitutionKey(path: Path)

  /** A goal object.  `waiters` are weak pointers and may name goals that are gone;
      `results` is a history variable: how the waitees ended that it counts. */
  datatype Goal = Goal(key: Key, waitees: set<GoalId>, waiters: seq<GoalId>, nrFailed: nat, nrNoSubstituters: nat,
                       nrIncompleteClosure: nat, results: multiset<ExitCode>, exitCode: ExitCode)

  datatype Child = Child(goal: GoalId, inBuildSlot: bool)

  /** The worker.  `goals` holds the objects that exist; `index` is derivationGoals and
      substitutionGoals together; `held` are the goals whose makers keep a pointer; `batch`
      is what is left of the awake goals the loop is just working through. */
  datatype World = World(goals: map<GoalId, Goal>, nextId: GoalId, index: map<Key, GoalId>,
                         held: set<GoalId>, topGoals: set<GoalId>, batch: set<GoalId>, awake: seq<GoalId>,
                         wantingToBuild: seq<GoalId>, waitingForAnyGoal: seq<GoalId>, waitingForAWhile: seq<GoalId>,
                         children: map<Pid, Child>, nrLocalBuilds: nat)

  const INITIAL := World(map[], 0, map[], {}, {}, {}, [], [], [], [], map[], 0)

  /** How a call of work() ends, unless by an exception. */
  datatype Command =
    | Done(result: ExitCode)
    | WaitFor(keys: seq<Key>)
    | WakeSelf
    | SleepForAnyGoal
    | SleepForAWhile
    | SleepForSlot
    | StartChild(pid: Pid, inBuildSlot: bool)

  // Operations

  function AddToWeakGoals(goals: seq<GoalId>, g: GoalId): (r: seq<GoalId>)
    ensures forall x :: x in r <==> x in goals || x == g
    ensures NoDup(goals) ==> NoDup(r)
  {
    if g in goals then goals else goals + [g]
  }

  predicate NoDup(l: seq<GoalId>) {
    forall i, j :: 0 <= i < j < |l| ==> l[i] != l[j]
  }

  function Without(l: seq<GoalId>, g: GoalId): (r: seq<GoalId>)
    ensures forall x :: x in r <==> x in l && x != g
    ensures NoDup(l) ==> NoDup(r)
  {
    if l == [] then []
    else
      var init, last := l[..|l| - 1], l[|l| - 1];
      assert NoDup(l) ==> last !in init;
      if last == g then Without(init, g) else Without(init, g) + [last]
  }

  function WakeUp(w: World, g: GoalId): World {
    w.(awake := AddToWeakGoals(w.awake, g))
  }

  /** Wakes up those of the list that still exist. */
  function WakeAll(w: World, l: seq<GoalId>): (r: World)
    ensures forall x :: x in r.awake <==> x in w.awake || (x in l && x in w.goals)
    ensures r == w.(awake := r.awake)
    decreases |l|
  {
    if l == [] then w
    else
      var r := WakeAll(w, l[..|l| - 1]);
      if l[|l| - 1] in w.goals then WakeUp(r, l[|l| - 1]) else r
  }

  function MakeGoal(w: World, key: Key): (World, GoalId) {
    if key in w.index && w.index[key] in w.goals then (w, w.index[key])
    else
      var g := w.nextId;
      (WakeUp(w.(goals := w.goals[g := Goal(key, {}, [], 0, 0, 0, multiset{}, Busy)], nextId := g + 1, index := w.index[key := g]), g), g)
  }

  function AddWaitee(w: World, g: GoalId, e: GoalId): World
    requires g in w.goals && e in w.goals && g != e
  {
    w.(goals := w.goals[g := w.goals[g].(waitees := w.goals[g].waitees + {e})]
                       [e := w.goals[e].(waiters := AddToWeakGoals(w.goals[e].waiters, g))])
  }

  /** The counters of a goal after one of its waitees has ended. */
  function Count(q: Goal, e: GoalId, result: ExitCode): Goal {
    q.(waitees := q.waitees - {e},
       nrFailed := if result.Failed? || result.NoSubstituters? || result.IncompleteClosure? then q.nrFailed + 1 else q.nrFailed,
       nrNoSubstituters := if result.NoSubstituters? then q.nrNoSubstituters + 1 else q.nrNoSubstituters,
       nrIncompleteClosure := if result.IncompleteClosure? then q.nrIncompleteClosure + 1 else q.nrIncompleteClosure,
       results := q.results + multiset{result})
  }

  /** Goal `g` gives up all it waits for. */
  function Cancel(goals: map<GoalId, Goal>, g: GoalId): map<GoalId, Goal>
    requires g in goals
  {
    var dropped := map r | r in goals ::
      if r in goals[g].waitees then goals[r].(waiters := Without(goals[r].waiters, g)) else goals[r];
    dropped[g := dropped[g].(waitees := {})]
  }

  /** None is the failed assertion that `e` is among the waitees of `g`. */
  function WaiteeDone(w: World, s: Settings, g: GoalId, e: GoalId, result: ExitCode): Option<World>
    requires g in w.goals
  {
    if e !in w.goals[g].waitees then None
    else
      var q := Count(w.goals[g], e, result);
      var w1 := w.(goals := w.goals[g := q]);
      if q.waitees == {} || (result.Failed? && !s.keepGoing)
      then Some(WakeUp(w1.(goals := Cancel(w1.goals, g)), g))
      else Some(w1)
  }

  /** Tells the waiters that still exist, in order, that `e` has ended. */
  function Notify(w: World, s: Settings, waiters: seq<GoalId>, e: GoalId, result: ExitCode): Option<World>
    decreases |waiters|
  {
    if waiters == [] then Some(w)
    else if waiters[0] !in w.goals then Notify(w, s, waiters[1..], e, result)
    else
      var r := WaiteeDone(w, s, waiters[0], e, result);
      if r.None? then None else Notify(r.value, s, waiters[1..], e, result)
  }

  function RemoveGoal(w: World, s: Settings, e: GoalId, result: ExitCode): World {
    var w1 := w.(index := map k | k in w.index && w.index[k] != e :: w.index[k]);
    var w2 := if e !in w1.topGoals then w1
              else w1.(topGoals := if result.Failed? && !s.keepGoing then {} else w1.topGoals - {e});
    WakeAll(w2, w2.waitingForAnyGoal).(waitingForAnyGoal := [])
  }

  function AmDone(w: World, s: Settings, e: GoalId, result: ExitCode): Option<World>
    requires e in w.goals
  {
    if !w.goals[e].exitCode.Busy? then None
    else
      var waiters := w.goals[e].waiters;
      var w1 := w.(goals := w.goals[e := w.goals[e].(exitCode := result)]);
      var r := Notify(w1, s, waiters, e, result);
      if r.None? || e !in r.value.goals then None
      else
        var w2 := r.value.(goals := r.value.goals[e := r.value.goals[e].(waiters := [])]);
        Some(RemoveGoal(w2, s, e, result))
  }

  function ChildStarted(w: World, g: GoalId, pid: Pid, inBuildSlot: bool): World {
    w.(children := w.children[pid := Child(g, inBuildSlot)], nrLocalBuilds := if inBuildSlot then w.nrLocalBuilds + 1 else w.nrLocalBuilds)
  }

  /** None is a failed assertion: the child is unknown or no slot is in use. */
  function ChildTerminated(w: World, pid: Pid): Option<World> {
    if pid !in w.children || (w.children[pid].inBuildSlot && w.nrLocalBuilds == 0) then None
    else
      var w1 := w.(nrLocalBuilds := if w.children[pid].inBuildSlot then w.nrLocalBuilds - 1 else w.nrLocalBuilds,
                   children := w.children - {pid});
      Some(WakeAll(w1, w1.wantingToBuild).(wantingToBuild := []))
  }

  function WaitForBuildSlot(w: World, s: Settings, g: GoalId): World {
    if w.nrLocalBuilds < s.maxBuildJobs then WakeUp(w, g)
    else w.(wantingToBuild := AddToWeakGoals(w.wantingToBuild, g))
  }

  // The invariant

  type Goals = map<GoalId, Goal>

  predicate IsBusy(goals: Goals, g: GoalId) {
    g in goals && goals[g].exitCode.Busy?
  }

  /** Inside amDone() of goal `e`: `rest` are the waiters it has not told yet. */
  datatype Pending = Nothing | Ending(e: GoalId, rest: seq<GoalId>)

  predicate IsEnding(p: Pending, g: GoalId) {
    p.Ending? && p.e == g
  }

  function WaitersOf(goals: Goals, p: Pending, g: GoalId): seq<GoalId>
    requires g in goals
  {
    if IsEnding(p, g) then p.rest else goals[g].waiters
  }

  /** Waiters and waitees agree, and a waitee is another goal that is busy. */
  predicate Pair(goals: Goals, p: Pending, g: GoalId, e: GoalId)
    requires g in goals && e in goals
  {
    (e in goals[g].waitees <==> g in WaitersOf(goals, p, e))
    && (e in goals[g].waitees ==> e != g && (IsBusy(goals, e) || IsEnding(p, e)))
  }

  /** The counters are right. */
  predicate Counted(q: Goal) {
    q.nrNoSubstituters == q.results[NoSubstituters] && q.nrIncompleteClosure == q.results[IncompleteClosure]
    && q.nrFailed == q.results[Failed] + q.results[NoSubstituters] + q.results[IncompleteClosure]
  }

  predicate Solid(goals: Goals, p: Pending, g: GoalId)
    requires g in goals
  {
    goals[g].waitees <= goals.Keys && NoDup(WaitersOf(goals, p, g))
    && (!IsBusy(goals, g) ==> goals[g].waitees == {} && (!IsEnding(p, g) ==> goals[g].waiters == []))
    && Counted(goals[g])
  }

  ghost predicate Links(goals: Goals, p: Pending) {
    (forall g, e :: g in goals && e in goals ==> Pair(goals, p, g, e))
    && (forall g :: g in goals ==> Solid(goals, p, g))
  }

  /** The index knows the goal if it is busy, and only then. */
  predicate IndexedGoal(w: World, g: GoalId)
    requires g in w.goals
  {
    g < w.nextId && (IsBusy(w.goals, g) ==> w.goals[g].key in w.index && w.index[w.goals[g].key] == g)
  }

  predicate IndexedKey(w: World, p: Pending, k: Key)
    requires k in w.index
  {
    w.index[k] < w.nextId
    && (w.index[k] in w.goals ==> w.goals[w.index[k]].key == k && (IsBusy(w.goals, w.index[k]) || IsEnding(p, w.index[k])))
  }

  ghost predicate Indexed(w: World, p: Pending) {
    (forall g :: g in w.goals ==> IndexedGoal(w, g)) && (forall k :: k in w.index ==> IndexedKey(w, p, k))
  }

  ghost predicate Pointed(w: World, p: Pending) {
    w.topGoals <= w.held <= w.goals.Keys && w.batch <= w.goals.Keys
    && forall g :: g in w.topGoals ==> IsBusy(w.goals, g) || IsEnding(p, g)
  }

  predicate Up(w: World, g: GoalId) {
    g in w.awake || g in w.batch
  }

  predicate Asleep(w: World, g: GoalId) {
    g in w.wantingToBuild || g in w.waitingForAnyGoal || g in w.waitingForAWhile
  }

  ghost predicate HasChild(w: World, g: GoalId) {
    exists pid :: pid in w.children && w.children[pid].goal == g
  }

  /** Where a busy goal is: it waits for goals, or it is awake, asleep in one of the lists,
      or has a running child. */
  ghost predicate Located(w: World, g: GoalId)
    requires g in w.goals
  {
    (w.goals[g].waitees == {} <==> Up(w, g) || Asleep(w, g) || HasChild(w, g))
    && !(g in w.awake && g in w.batch)
    && (Asleep(w, g) ==> !Up(w, g) && !HasChild(w, g))
    && !(g in w.wantingToBuild && g in w.waitingForAnyGoal)
    && !(g in w.wantingToBuild && g in w.waitingForAWhile)
    && !(g in w.waitingForAnyGoal && g in w.waitingForAWhile)
  }

  /** All busy goals but those of `x` are where they should be. */
  ghost predicate AllLocated(w: World, x: set<GoalId>) {
    forall g :: IsBusy(w.goals, g) && g !in x ==> Located(w, g)
  }

  ghost function SlotPids(w: World): set<Pid> {
    set pid | pid in w.children && w.children[pid].inBuildSlot
  }

  ghost predicate Slots(w: World, s: Settings) {
    (forall pid :: pid in w.children ==> IsBusy(w.goals, w.children[pid].goal))
    && (forall a, b :: a in w.children && b in w.children && w.children[a].goal == w.children[b].goal ==> a == b)
    && w.nrLocalBuilds == |SlotPids(w)|
    && w.nrLocalBuilds <= (if s.maxBuildJobs == 0 then 1 else s.maxBuildJobs)
    && (w.wantingToBuild != [] ==> w.nrLocalBuilds >= s.maxBuildJobs)
  }

  predicate Below(l: seq<GoalId>, n: GoalId) {
    forall x :: x in l ==> x < n
  }

  /** Every pointer, weak ones included, is to a goal that has been made. */
  ghost predicate Known(w: World) {
    Below(w.awake, w.nextId) && Below(w.wantingToBuild, w.nextId) && Below(w.waitingForAnyGoal, w.nextId)
    && Below(w.waitingForAWhile, w.nextId) && forall g :: g in w.goals ==> Below(w.goals[g].waiters, w.nextId)
  }

  ghost predicate InvP(w: World, s: Settings, p: Pending, x: set<GoalId>) {
    Links(w.goals, p) && Indexed(w, p) && Known(w) && Pointed(w, p) && AllLocated(w, x) && Slots(w, s)
  }

  ghost predicate Inv(w: World, s: Settings) {
    InvP(w, s, Nothing, {})
  }

  // amDone()

  lemma CancelLinks(goals: Goals, p: Pending, g: GoalId)
    requires Links(goals, p) && g in goals && !IsEnding(p, g) && (p.Ending? ==> p.e !in goals[g].waitees)
    ensures Links(Cancel(goals, g), p)
  {
    var t := Cancel(goals, g);
    forall a, b | a in t && b in t ensures Pair(t, p, a, b) {
      assert Pair(goals, p, a, b);
      assert Pair(goals, p, g, b);
    }
    forall a | a in t ensures Solid(t, p, a) {
      assert Solid(goals, p, a);
    }
  }

  lemma TellOneLinks(goals: Goals, g: GoalId, e: GoalId, rest: seq<GoalId>, result: ExitCode)
    requires Links(goals, Ending(e, [g] + rest)) && g in goals && e in goals
    ensures e in goals[g].waitees && g != e
    ensures Links(goals[g := Count(goals[g], e, result)], Ending(e, rest))
  {
    var l := [g] + rest;
    var p, p', t := Ending(e, l), Ending(e, rest), goals[g := Count(goals[g], e, result)];
    assert l[0] == g && forall i :: 0 <= i < |rest| ==> rest[i] == l[i + 1];
    assert Solid(goals, p, e) && Pair(goals, p, g, e);
    assert g !in rest && NoDup(rest);
    forall a, b | a in t && b in t ensures Pair(t, p', a, b) {
      assert Pair(goals, p, a, b);
    }
    forall a | a in t ensures Solid(t, p', a) {
      assert Solid(goals, p, a);
    }
  }

  /** Same goals with the same keys and exit codes. */
  ghost predicate SameGoals(a: Goals, b: Goals) {
    a.Keys == b.Keys && forall g :: g in a ==> a[g].key == b[g].key && a[g].exitCode == b[g].exitCode
  }

  /** What depends on keys, exit codes, pointers and children only. */
  lemma FrameRest(w: World, w': World, s: Settings, p: Pending, p': Pending)
    requires Indexed(w, p) && Pointed(w, p) && Slots(w, s)
    requires SameGoals(w.goals, w'.goals) && (forall g :: g in w.goals ==> (IsEnding(p, g) <==> IsEnding(p', g)))
    requires w'.index == w.index && w'.nextId == w.nextId && w'.held == w.held && w'.topGoals == w.topGoals
    requires w'.batch == w.batch && w'.children == w.children && w'.nrLocalBuilds == w.nrLocalBuilds
    requires w'.wantingToBuild == w.wantingToBuild || w'.wantingToBuild == []
    ensures Indexed(w', p') && Pointed(w', p') && Slots(w', s)
  {
    forall g | g in w'.goals ensures IndexedGoal(w', g) { assert IndexedGoal(w, g); }
    forall k | k in w'.index ensures IndexedKey(w', p', k) { assert IndexedKey(w, p, k); }
    assert SlotPids(w') == SlotPids(w);
  }

  /** A goal stays where it is if nothing moves it. */
  lemma FrameLocated(w: World, w': World, g: GoalId)
    requires g in w.goals && g in w'.goals && Located(w, g) && w'.goals[g].waitees == w.goals[g].waitees
    requires (g in w.awake <==> g in w'.awake) && (g in w.batch <==> g in w'.batch)
    requires (g in w.wantingToBuild <==> g in w'.wantingToBuild) && (g in w.waitingForAnyGoal <==> g in w'.waitingForAnyGoal)
    requires (g in w.waitingForAWhile <==> g in w'.waitingForAWhile) && (HasChild(w, g) <==> HasChild(w', g))
    ensures Located(w', g)
  {
  }

  lemma WaiteeDoneLinks(w: World, s: Settings, g: GoalId, e: GoalId, rest: seq<GoalId>, result: ExitCode)
    requires Links(w.goals, Ending(e, [g] + rest)) && g in w.goals && e in w.goals
    ensures e in w.goals[g].waitees && WaiteeDone(w, s, g, e, result).Some?
    ensures Links(WaiteeDone(w, s, g, e, result).value.goals, Ending(e, rest))
  {
    TellOneLinks(w.goals, g, e, rest, result);
    var goals1 := w.goals[g := Count(w.goals[g], e, result)];
    if goals1[g].waitees == {} || (result.Failed? && !s.keepGoing) { CancelLinks(goals1, Ending(e, rest), g); }
  }

  lemma WaiteeDoneFrame(w: World, s: Settings, g: GoalId, e: GoalId, result: ExitCode)
    requires g in w.goals && WaiteeDone(w, s, g, e, result).Some?
    ensures var t := WaiteeDone(w, s, g, e, result).value;
      t == w.(goals := t.goals, awake := t.awake) && SameGoals(w.goals, t.goals)
      && t.awake == (if t.goals[g].waitees == {} then AddToWeakGoals(w.awake, g) else w.awake)
  {
  }

  lemma WaiteeDoneWaiters(w: World, s: Settings, g: GoalId, e: GoalId, result: ExitCode)
    requires g in w.goals && WaiteeDone(w, s, g, e, result).Some?
    ensures var t := WaiteeDone(w, s, g, e, result).value;
      t.goals.Keys == w.goals.Keys && forall h, x :: h in w.goals && x in t.goals[h].waiters ==> x in w.goals[h].waiters
  {
  }

  /** What telling one waiter changes, and what not. */
  lemma WaiteeDoneEffect(w: World, s: Settings, g: GoalId, e: GoalId, result: ExitCode)
    requires g in w.goals && WaiteeDone(w, s, g, e, result).Some?
    ensures var t := WaiteeDone(w, s, g, e, result).value;
      t == w.(goals := t.goals, awake := t.awake) && SameGoals(w.goals, t.goals)
      && t.goals[g].waitees == (if result.Failed? && !s.keepGoing then {} else w.goals[g].waitees - {e})
      && t.goals[g].results == w.goals[g].results + multiset{result}
      && (forall h :: h in w.goals && h != g ==> t.goals[h].waitees == w.goals[h].waitees && t.goals[h].results == w.goals[h].results)
      && t.awake == (if t.goals[g].waitees == {} then AddToWeakGoals(w.awake, g) else w.awake)
  {
    WaiteeDoneFrame(w, s, g, e, result);
  }

  lemma WaiteeDoneKeepsInv(w: World, s: Settings, g: GoalId, e: GoalId, rest: seq<GoalId>, result: ExitCode)
    requires InvP(w, s, Ending(e, [g] + rest), {}) && g in w.goals && e in w.goals
    ensures var r := WaiteeDone(w, s, g, e, result);
      r.Some? && SameGoals(w.goals, r.value.goals) && InvP(r.value, s, Ending(e, rest), {})
  {
    var p, p' := Ending(e, [g] + rest), Ending(e, rest);
    WaiteeDoneLinks(w, s, g, e, rest, result);
    WaiteeDoneFrame(w, s, g, e, result);
    FrameRest(w, WaiteeDone(w, s, g, e, result).value, s, p, p');
    assert IsBusy(w.goals, g) by { assert Solid(w.goals, p, g); }
    assert g < w.nextId by { assert IndexedGoal(w, g); }
    WaiteeDoneKnown(w, s, g, e, result);
    WaiteeDoneLocated(w, s, g, e, result);
  }

  lemma WaiteeDoneKnown(w: World, s: Settings, g: GoalId, e: GoalId, result: ExitCode)
    requires Known(w) && g in w.goals && g < w.nextId && WaiteeDone(w, s, g, e, result).Some?
    ensures Known(WaiteeDone(w, s, g, e, result).value)
  {
    WaiteeDoneFrame(w, s, g, e, result);
    WaiteeDoneWaiters(w, s, g, e, result);
    var t := WaiteeDone(w, s, g, e, result).value;
    forall h | h in t.goals ensures Below(t.goals[h].waiters, t.nextId) { assert Below(w.goals[h].waiters, w.nextId); }
  }

  lemma WaiteeDoneLocated(w: World, s: Settings, g: GoalId, e: GoalId, result: ExitCode)
    requires AllLocated(w, {}) && IsBusy(w.goals, g) && e in w.goals[g].waitees
    ensures WaiteeDone(w, s, g, e, result).Some? && AllLocated(WaiteeDone(w, s, g, e, result).value, {})
  {
    WaiteeDoneEffect(w, s, g, e, result);
    var t := WaiteeDone(w, s, g, e, result).value;
    assert Located(w, g);
    forall h | IsBusy(t.goals, h) ensures Located(t, h) {
      assert IsBusy(w.goals, h);
      assert HasChild(w, h) <==> HasChild(t, h);
      if h != g { FrameLocated(w, t, h); }
    }
  }

  lemma {:induction false} NotifyKeepsInv(w: World, s: Settings, rest: seq<GoalId>, e: GoalId, result: ExitCode)
    requires InvP(w, s, Ending(e, rest), {}) && e in w.goals
    ensures var r := Notify(w, s, rest, e, result);
      r.Some? && SameGoals(w.goals, r.value.goals) && InvP(r.value, s, Ending(e, []), {})
    decreases |rest|
  {
    if rest != [] {
      assert rest == [rest[0]] + rest[1..];
      if rest[0] in w.goals {
        WaiteeDoneKeepsInv(w, s, rest[0], e, rest[1..], result);
        NotifyKeepsInv(WaiteeDone(w, s, rest[0], e, result).value, s, rest[1..], e, result);
      } else {
        SkipGone(w, s, rest, e);
        NotifyKeepsInv(w, s, rest[1..], e, result);
      }
    }
  }

  /** A weak pointer to a goal that is gone changes nothing. */
  lemma SkipGone(w: World, s: Settings, rest: seq<GoalId>, e: GoalId)
    requires InvP(w, s, Ending(e, rest), {}) && rest != [] && rest[0] !in w.goals && e in w.goals
    ensures InvP(w, s, Ending(e, rest[1..]), {})
  {
    var p, p' := Ending(e, rest), Ending(e, rest[1..]);
    assert rest == [rest[0]] + rest[1..];
    forall a, b | a in w.goals && b in w.goals ensures Pair(w.goals, p', a, b) { assert Pair(w.goals, p, a, b); }
    forall a | a in w.goals ensures Solid(w.goals, p', a) { assert Solid(w.goals, p, a); }
    FrameRest(w, w, s, p, p');
  }

  /** Emptying a sleep list into the list of awake goals. */
  lemma WokenLocated(w: World, w': World, l: seq<GoalId>, x: set<GoalId>)
    requires AllLocated(w, x) && w'.goals == w.goals && w'.batch == w.batch && w'.children == w.children
    requires forall g :: g in w'.awake <==> g in w.awake || (g in l && g in w.goals)
    requires || (l == w.wantingToBuild && w'.wantingToBuild == [] && w'.waitingForAnyGoal == w.waitingForAnyGoal && w'.waitingForAWhile == w.waitingForAWhile)
             || (l == w.waitingForAnyGoal && w'.waitingForAnyGoal == [] && w'.wantingToBuild == w.wantingToBuild && w'.waitingForAWhile == w.waitingForAWhile)
             || (l == w.waitingForAWhile && w'.waitingForAWhile == [] && w'.wantingToBuild == w.wantingToBuild && w'.waitingForAnyGoal == w.waitingForAnyGoal)
    ensures AllLocated(w', x)
  {
    forall g | IsBusy(w'.goals, g) && g !in x ensures Located(w', g) {
      assert Located(w, g);
      assert HasChild(w, g) <==> HasChild(w', g);
    }
  }

  lemma EndKeepsInv(w: World, s: Settings, e: GoalId, result: ExitCode)
    requires InvP(w, s, Nothing, {e}) && IsBusy(w.goals, e) && w.goals[e].waitees == {} && !HasChild(w, e) && !result.Busy?
    ensures InvP(w.(goals := w.goals[e := w.goals[e].(exitCode := result)]), s, Ending(e, w.goals[e].waiters), {})
  {
    var p := Ending(e, w.goals[e].waiters);
    var t := w.(goals := w.goals[e := w.goals[e].(exitCode := result)]);
    forall a, b | a in t.goals && b in t.goals ensures Pair(t.goals, p, a, b) { assert Pair(w.goals, Nothing, a, b); }
    forall a | a in t.goals ensures Solid(t.goals, p, a) { assert Solid(w.goals, Nothing, a); }
    forall g | g in t.goals ensures IndexedGoal(t, g) { assert IndexedGoal(w, g); }
    forall k | k in t.index ensures IndexedKey(t, p, k) { assert IndexedKey(w, Nothing, k); }
    forall g | IsBusy(t.goals, g) ensures Located(t, g) {
      assert Located(w, g);
      assert HasChild(w, g) <==> HasChild(t, g);
      FrameLocated(w, t, g);
    }
    assert SlotPids(t) == SlotPids(w);
  }

  lemma ToldLinks(goals: Goals, e: GoalId)
    requires Links(goals, Ending(e, [])) && e in goals && !IsBusy(goals, e)
    ensures Links(goals[e := goals[e].(waiters := [])], Nothing)
  {
    var p, t := Ending(e, []), goals[e := goals[e].(waiters := [])];
    forall a, b | a in t && b in t ensures Pair(t, Nothing, a, b) {
      assert Pair(goals, p, a, b);
    }
    forall a | a in t ensures Solid(t, Nothing, a) { assert Solid(goals, p, a); }
  }

  /** The waiters are told; the goal leaves the index and the top goals. */
  lemma RemoveGoalKeepsInv(w: World, s: Settings, e: GoalId, result: ExitCode)
    requires Links(w.goals, Nothing) && Indexed(w, Ending(e, [])) && Pointed(w, Ending(e, [])) && AllLocated(w, {}) && Slots(w, s) && Known(w)
    requires e in w.goals && !IsBusy(w.goals, e)
    ensures Inv(RemoveGoal(w, s, e, result), s)
  {
    var t := RemoveGoal(w, s, e, result);
    assert t.goals == w.goals && t.children == w.children;
    forall g | g in t.goals ensures IndexedGoal(t, g) { assert IndexedGoal(w, g); }
    forall k | k in t.index ensures IndexedKey(t, Nothing, k) { assert IndexedKey(w, Ending(e, []), k); }
    WokenLocated(w, t, w.waitingForAnyGoal, {});
    assert SlotPids(t) == SlotPids(w);
  }

  lemma ToldKeepsInv(w: World, s: Settings, e: GoalId)
    requires InvP(w, s, Ending(e, []), {}) && e in w.goals && !IsBusy(w.goals, e)
    ensures var t := w.(goals := w.goals[e := w.goals[e].(waiters := [])]);
      Links(t.goals, Nothing) && Indexed(t, Ending(e, [])) && Pointed(t, Ending(e, [])) && AllLocated(t, {}) && Slots(t, s) && Known(t)
  {
    var t := w.(goals := w.goals[e := w.goals[e].(waiters := [])]);
    ToldLinks(w.goals, e);
    FrameRest(w, t, s, Ending(e, []), Ending(e, []));
    forall g | IsBusy(t.goals, g) ensures Located(t, g) {
      assert IsBusy(w.goals, g) && Located(w, g);
      assert HasChild(w, g) <==> HasChild(t, g);
      FrameLocated(w, t, g);
    }
  }

  /** Ending a goal that waits for nothing and has no child: no assertion fails, and the
      invariant holds again when all waiters have been told. */
  lemma AmDoneKeepsInv(w: World, s: Settings, e: GoalId, result: ExitCode)
    requires InvP(w, s, Nothing, {e}) && IsBusy(w.goals, e) && w.goals[e].waitees == {} && !HasChild(w, e) && !result.Busy?
    ensures AmDone(w, s, e, result).Some? && Inv(AmDone(w, s, e, result).value, s)
  {
    EndKeepsInv(w, s, e, result);
    var w1 := w.(goals := w.goals[e := w.goals[e].(exitCode := result)]);
    NotifyKeepsInv(w1, s, w.goals[e].waiters, e, result);
    var w2 := Notify(w1, s, w.goals[e].waiters, e, result).value;
    ToldKeepsInv(w2, s, e);
    RemoveGoalKeepsInv(w2.(goals := w2.goals[e := w2.goals[e].(waiters := [])]), s, e, result);
  }

  // Children

  lemma ChildTerminatedKeepsInv(w: World, s: Settings, pid: Pid)
    requires Inv(w, s) && pid in w.children
    ensures var g := w.children[pid].goal; var r := ChildTerminated(w, pid);
      IsBusy(w.goals, g) && w.goals[g].waitees == {}
      && r.Some? && r.value.goals == w.goals && InvP(r.value, s, Nothing, {g}) && !HasChild(r.value, g) && !Asleep(r.value, g)
      && r.value.batch == w.batch && r.value.held == w.held && (g in r.value.awake <==> g in w.awake)
  {
    var g := w.children[pid].goal;
    assert HasChild(w, g) && Located(w, g);
    SlotFreed(w, pid);
    var w1 := w.(children := w.children - {pid});
    forall h | IsBusy(w1.goals, h) && h != g ensures Located(w1, h) {
      assert Located(w, h);
      ChildOfOther(w, pid, h);
      FrameLocated(w, w1, h);
    }
    var t := ChildTerminated(w, pid).value;
    WokenLocated(w1, t, w.wantingToBuild, {g});
    forall h | h in t.goals ensures IndexedGoal(t, h) { assert IndexedGoal(w, h); }
    forall k | k in t.index ensures IndexedKey(t, Nothing, k) { assert IndexedKey(w, Nothing, k); }
  }

  lemma SlotFreed(w: World, pid: Pid)
    requires pid in w.children
    ensures var freed := w.(children := w.children - {pid});
      |SlotPids(freed)| == if w.children[pid].inBuildSlot then |SlotPids(w)| - 1 else |SlotPids(w)|
  {
    var freed := w.(children := w.children - {pid});
    if w.children[pid].inBuildSlot {
      assert SlotPids(w) == SlotPids(freed) + {pid};
    } else {
      assert SlotPids(w) == SlotPids(freed);
    }
  }

  lemma ChildOfOther(w: World, pid: Pid, h: GoalId)
    requires pid in w.children && w.children[pid].goal != h
    ensures HasChild(w, h) <==> HasChild(w.(children := w.children - {pid}), h)
  {
    var v := w.(children := w.children - {pid});
    if q :| q in w.children && w.children[q].goal == h { assert q in v.children && v.children[q].goal == h; }
  }

  /** A goal that is in no list, has no child and waits for nothing: the one at work. */
  ghost predicate AtWork(w: World, g: GoalId) {
    IsBusy(w.goals, g) && w.goals[g].waitees == {} && !Up(w, g) && !Asleep(w, g) && !HasChild(w, g)
  }

  lemma ChildStartedKeepsInv(w: World, s: Settings, g: GoalId, pid: Pid, slot: bool)
    requires InvP(w, s, Nothing, {g}) && AtWork(w, g) && pid !in w.children
    requires slot ==> w.nrLocalBuilds < s.maxBuildJobs || w.nrLocalBuilds == 0
    ensures Inv(ChildStarted(w, g, pid, slot), s)
  {
    var t := ChildStarted(w, g, pid, slot);
    assert t.children - {pid} == w.children;
    SlotFreed(t, pid);
    assert SlotPids(t.(children := w.children)) == SlotPids(w);
    assert t.children[pid].goal == g;
    forall h | IsBusy(t.goals, h) ensures Located(t, h) {
      if h != g {
        assert Located(w, h);
        ChildOfOther(t, pid, h);
        assert HasChild(t.(children := w.children), h) <==> HasChild(w, h);
        FrameLocated(w, t, h);
      }
    }
    forall a, b | a in t.children && b in t.children && t.children[a].goal == t.children[b].goal ensures a == b {
      assert forall q :: q in w.children ==> w.children[q].goal != g;
    }
    forall h | h in t.goals ensures IndexedGoal(t, h) { assert IndexedGoal(w, h); }
    forall k | k in t.index ensures IndexedKey(t, Nothing, k) { assert IndexedKey(w, Nothing, k); }
  }

  // Waiting for goals

  /** Nowhere in the lists and without a child. */
  ghost predicate Nowhere(w: World, g: GoalId) {
    !Up(w, g) && !Asleep(w, g) && !HasChild(w, g)
  }

  lemma MakeGoalKeepsInv(w: World, s: Settings, key: Key, x: set<GoalId>)
    requires InvP(w, s, Nothing, x) && x <= w.goals.Keys
    ensures var (t, e) := MakeGoal(w, key);
      InvP(t, s, Nothing, x) && IsBusy(t.goals, e) && t.goals[e].key == key
      && t == w.(goals := t.goals, awake := t.awake, nextId := t.nextId, index := t.index)
      && (forall g :: g in w.goals ==> g in t.goals && t.goals[g] == w.goals[g] && (g in t.awake <==> g in w.awake))
  {
    var (t, e) := MakeGoal(w, key);
    if key in w.index { assert IndexedKey(w, Nothing, key); }
    if t != w {
      forall h | h in w.goals ensures h < w.nextId { assert IndexedGoal(w, h); }
      forall h | h in w.goals ensures e !in w.goals[h].waiters { assert Below(w.goals[h].waiters, w.nextId); }
      NewGoalLinks(w.goals, e, t.goals[e]);
      NewGoalIndexed(w, key);
      NewGoalRest(w, s, key);
      NewGoalLocated(w, s, key, x);
    }
  }

  lemma NewGoalRest(w: World, s: Settings, key: Key)
    requires Known(w) && Pointed(w, Nothing) && Slots(w, s) && w.nextId !in w.goals && (key in w.index ==> w.index[key] !in w.goals)
    ensures var t := MakeGoal(w, key).0; Known(t) && Pointed(t, Nothing) && Slots(t, s)
  {
    assert SlotPids(MakeGoal(w, key).0) == SlotPids(w);
  }

  lemma NewGoalLocated(w: World, s: Settings, key: Key, x: set<GoalId>)
    requires AllLocated(w, x) && Known(w) && Slots(w, s) && w.nextId !in w.goals && w.batch <= w.goals.Keys
    requires key in w.index ==> w.index[key] !in w.goals
    ensures AllLocated(MakeGoal(w, key).0, x)
  {
    var (t, e) := MakeGoal(w, key);
    forall h | IsBusy(t.goals, h) && h !in x ensures Located(t, h) {
      assert HasChild(t, h) <==> HasChild(w, h);
      if h != e {
        assert IsBusy(w.goals, h) && Located(w, h);
        FrameLocated(w, t, h);
      }
    }
  }

  lemma NewGoalIndexed(w: World, key: Key)
    requires Indexed(w, Nothing) && (key in w.index ==> w.index[key] !in w.goals)
    ensures Indexed(MakeGoal(w, key).0, Nothing)
  {
    var (t, e) := MakeGoal(w, key);
    forall h | h in t.goals ensures IndexedGoal(t, h) { if h != e { assert IndexedGoal(w, h); } }
    forall k | k in t.index ensures IndexedKey(t, Nothing, k) { if k != key { assert IndexedKey(w, Nothing, k); } }
  }

  lemma NewGoalLinks(goals: Goals, e: GoalId, q: Goal)
    requires Links(goals, Nothing) && e !in goals && q == Goal(q.key, {}, [], 0, 0, 0, multiset{}, Busy)
    requires forall h :: h in goals ==> e !in goals[h].waiters
    ensures Links(goals[e := q], Nothing)
  {
    var t := goals[e := q];
    forall a | a in goals ensures Solid(t, Nothing, a) { assert Solid(goals, Nothing, a); }
    forall a, b | a in t && b in t ensures Pair(t, Nothing, a, b) {
      if a in goals && b in goals { assert Pair(goals, Nothing, a, b); }
      if a in goals { assert Solid(goals, Nothing, a); }
    }
  }

  lemma AddWaiteeKeepsInv(w: World, s: Settings, g: GoalId, e: GoalId)
    requires InvP(w, s, Nothing, {g}) && IsBusy(w.goals, g) && IsBusy(w.goals, e) && g != e && Nowhere(w, g)
    ensures var t := AddWaitee(w, g, e);
      InvP(t, s, Nothing, {g}) && SameGoals(w.goals, t.goals) && e in t.goals[g].waitees && Nowhere(t, g)
  {
    var t := AddWaitee(w, g, e);
    AddWaiteeLinks(w, g, e);
    FrameRest(w, t, s, Nothing, Nothing);
    assert g < w.nextId by { assert IndexedGoal(w, g); }
    AddWaiteeKnown(w, g, e);
    AddWaiteeLocated(w, g, e);
    assert HasChild(t, g) <==> HasChild(w, g);
  }

  lemma AddWaiteeKnown(w: World, g: GoalId, e: GoalId)
    requires Known(w) && g in w.goals && e in w.goals && g != e && g < w.nextId
    ensures Known(AddWaitee(w, g, e))
  {
  }

  lemma AddWaiteeLocated(w: World, g: GoalId, e: GoalId)
    requires AllLocated(w, {g}) && g in w.goals && e in w.goals && g != e
    ensures AllLocated(AddWaitee(w, g, e), {g})
  {
    var t := AddWaitee(w, g, e);
    forall h | IsBusy(t.goals, h) && h != g ensures Located(t, h) {
      assert IsBusy(w.goals, h) && Located(w, h);
      assert HasChild(t, h) <==> HasChild(w, h);
      FrameLocated(w, t, h);
    }
  }

  lemma AddWaiteeLinks(w: World, g: GoalId, e: GoalId)
    requires Links(w.goals, Nothing) && IsBusy(w.goals, g) && IsBusy(w.goals, e) && g != e
    ensures Links(AddWaitee(w, g, e).goals, Nothing)
  {
    var t := AddWaitee(w, g, e);
    forall a, b | a in t.goals && b in t.goals ensures Pair(t.goals, Nothing, a, b) { assert Pair(w.goals, Nothing, a, b); }
    forall a | a in t.goals ensures Solid(t.goals, Nothing, a) { assert Solid(w.goals, Nothing, a); }
  }

  /** Makes or finds a goal for each key and waits for it. */
  function Request(w: World, g: GoalId, keys: seq<Key>): World
    decreases |keys|
  {
    if keys == [] then w
    else
      var (w1, e) := MakeGoal(w, keys[0]);
      if g in w1.goals && e in w1.goals && g != e then Request(AddWaitee(w1, g, e), g, keys[1..]) else w1
  }

  lemma {:induction false} RequestKeepsInv(w: World, s: Settings, g: GoalId, keys: seq<Key>)
    requires InvP(w, s, Nothing, {g}) && IsBusy(w.goals, g) && Nowhere(w, g) && w.goals[g].key !in keys
    requires w.goals[g].waitees != {} || keys != []
    ensures Inv(Request(w, g, keys), s)
    decreases |keys|
  {
    if keys != [] {
      MakeGoalKeepsInv(w, s, keys[0], {g});
      var (w1, e) := MakeGoal(w, keys[0]);
      assert HasChild(w1, g) <==> HasChild(w, g);
      AddWaiteeKeepsInv(w1, s, g, e);
      RequestKeepsInv(AddWaitee(w1, g, e), s, g, keys[1..]);
    }
  }

  // The loop

  predicate LegalCommand(w: World, s: Settings, g: GoalId, cmd: Command)
    requires g in w.goals
  {
    match cmd
    case Done(result) => !result.Busy?
    case WaitFor(keys) => keys != [] && w.goals[g].key !in keys
    case StartChild(pid, slot) => pid !in w.children && (slot ==> w.nrLocalBuilds < s.maxBuildJobs || w.nrLocalBuilds == 0)
    case _ => true
  }

  function Perform(w: World, s: Settings, g: GoalId, cmd: Command): Option<World>
    requires g in w.goals
  {
    match cmd
    case Done(result) => AmDone(w, s, g, result)
    case WaitFor(keys) => Some(Request(w, g, keys))
    case WakeSelf => Some(WakeUp(w, g))
    case SleepForAnyGoal => Some(w.(waitingForAnyGoal := AddToWeakGoals(w.waitingForAnyGoal, g)))
    case SleepForAWhile => Some(w.(waitingForAWhile := AddToWeakGoals(w.waitingForAWhile, g)))
    case SleepForSlot => Some(WaitForBuildSlot(w, s, g))
    case StartChild(pid, slot) => Some(ChildStarted(w, g, pid, slot))
  }

  /** Whatever a goal at work decides to do, it is somewhere afterwards. */
  lemma PerformKeepsInv(w: World, s: Settings, g: GoalId, cmd: Command)
    requires InvP(w, s, Nothing, {g}) && AtWork(w, g) && LegalCommand(w, s, g, cmd)
    ensures Perform(w, s, g, cmd).Some? && Inv(Perform(w, s, g, cmd).value, s)
  {
    match cmd {
      case Done(result) => AmDoneKeepsInv(w, s, g, result);
      case WaitFor(keys) => RequestKeepsInv(w, s, g, keys);
      case StartChild(pid, slot) => ChildStartedKeepsInv(w, s, g, pid, slot);
      case _ => SleepKeepsInv(w, s, g, cmd);
    }
  }

  lemma SleepKeepsInv(w: World, s: Settings, g: GoalId, cmd: Command)
    requires InvP(w, s, Nothing, {g}) && AtWork(w, g)
    requires cmd.WakeSelf? || cmd.SleepForAnyGoal? || cmd.SleepForAWhile? || cmd.SleepForSlot?
    ensures Perform(w, s, g, cmd).Some? && Inv(Perform(w, s, g, cmd).value, s)
  {
    var t := Perform(w, s, g, cmd).value;
    assert t.goals == w.goals && t.children == w.children;
    assert SlotPids(t) == SlotPids(w) && IndexedGoal(w, g);
    forall h | h in t.goals ensures IndexedGoal(t, h) { assert IndexedGoal(w, h); }
    forall k | k in t.index ensures IndexedKey(t, Nothing, k) { assert IndexedKey(w, Nothing, k); }
    forall h | IsBusy(t.goals, h) ensures Located(t, h) {
      assert HasChild(t, h) <==> HasChild(w, h);
      if h != g {
        assert Located(w, h);
        FrameLocated(w, t, h);
      }
    }
  }

  datatype Action =
    | AddTop(key: Key)                                      // a goal for run() to reach
    | StartBatch                                            // the awake goals become the batch to work through
    | Work(g: GoalId, child: Option<Pid>, reset: bool, cmd: Command)   // work() of a goal; its child, if any, is gone
    | ChildEvent(pid: Pid)                                  // output or end of file from a child
    | Timeout(pid: Pid)
    | Poll                                                  // the goals polling a lock are woken up
    | Destroy(g: GoalId, child: Option<Pid>)                // the last pointer to a goal goes away

  ghost predicate ChildIs(w: World, g: GoalId, pid: Option<Pid>) {
    if pid.None? then !HasChild(w, g) else pid.value in w.children && w.children[pid.value].goal == g
  }

  function AfterChild(w: World, pid: Option<Pid>): Option<World> {
    if pid.None? then Some(w) else ChildTerminated(w, pid.value)
  }

  /** A derivation goal starts counting failures anew. */
  function Reset(w: World, g: GoalId): World
    requires g in w.goals
  {
    w.(goals := w.goals[g := w.goals[g].(nrFailed := 0, nrNoSubstituters := 0, nrIncompleteClosure := 0, results := multiset{})])
  }

  lemma ResetKeepsInv(w: World, s: Settings, g: GoalId)
    requires InvP(w, s, Nothing, {g}) && AtWork(w, g)
    ensures InvP(Reset(w, g), s, Nothing, {g}) && AtWork(Reset(w, g), g)
  {
    var t := Reset(w, g);
    forall a, b | a in t.goals && b in t.goals ensures Pair(t.goals, Nothing, a, b) { assert Pair(w.goals, Nothing, a, b); }
    forall a | a in t.goals ensures Solid(t.goals, Nothing, a) { assert Solid(w.goals, Nothing, a); }
    FrameRest(w, t, s, Nothing, Nothing);
    assert HasChild(t, g) <==> HasChild(w, g);
    forall h | IsBusy(t.goals, h) && h != g ensures Located(t, h) {
      assert Located(w, h);
      assert HasChild(t, h) <==> HasChild(w, h);
      FrameLocated(w, t, h);
    }
  }

  /** A goal is called: its child, if any, is gone, and it may start counting anew.  None is a
      failure: the child is unknown, or the goal has ended and the child it goes on to wait for
      has been taken from it, which fails an assertion in Pid::wait or dereferences null. */
  function BeginWork(w: World, g: GoalId, pid: Option<Pid>, reset: bool): (r: Option<World>)
    ensures r.Some? ==> g in r.value.goals
  {
    var r := AfterChild(w, pid);
    if !IsBusy(w.goals, g) || r.None? || g !in r.value.goals then None
    else
      var w1 := r.value.(batch := r.value.batch - {g});
      Some(if reset then Reset(w1, g) else w1)
  }

  ghost predicate Enabled(w: World, s: Settings, a: Action) {
    match a
    case AddTop(_) => w.batch == {}
    case StartBatch => w.batch == {} && w.awake != [] && w.topGoals != {}
    case Work(g, pid, reset, cmd) =>
      w.topGoals != {} && g in w.batch && ChildIs(w, g, pid)
      && (BeginWork(w, g, pid, reset).Some? ==> LegalCommand(BeginWork(w, g, pid, reset).value, s, g, cmd))
    case ChildEvent(pid) => w.batch == {} && pid in w.children
    case Timeout(pid) => w.batch == {} && pid in w.children
    case Poll => w.batch == {}
    case Destroy(g, pid) =>
      g in w.goals && g !in w.held && g !in w.batch && ChildIs(w, g, pid)
      && forall h :: h in w.goals ==> g !in w.goals[h].waitees
  }

  /** None is a failed assertion. */
  function Apply(w: World, s: Settings, a: Action): Option<World> {
    match a
    case AddTop(key) =>
      var (t, g) := MakeGoal(w, key);
      Some(t.(held := t.held + {g}, topGoals := t.topGoals + {g}))
    case StartBatch => Some(w.(batch := (set g | g in w.awake && g in w.goals), awake := []))
    case Work(g, pid, reset, cmd) =>
      var r := BeginWork(w, g, pid, reset);
      if r.None? then None else Perform(r.value, s, g, cmd)
    case ChildEvent(pid) => if pid in w.children then Some(WakeUp(w, w.children[pid].goal)) else None
    case Timeout(pid) =>
      var r := ChildTerminated(w, pid);
      if r.None? || w.children[pid].goal !in r.value.goals then None else AmDone(r.value, s, w.children[pid].goal, Failed)
    case Poll => Some(WakeAll(w, w.waitingForAWhile).(waitingForAWhile := []))
    case Destroy(g, pid) =>
      var r := AfterChild(w, pid);
      if r.None? then None else Some(r.value.(goals := r.value.goals - {g}))
  }

  lemma BeginWorkKeepsInv(w: World, s: Settings, g: GoalId, pid: Option<Pid>, reset: bool)
    requires Inv(w, s) && g in w.batch && IsBusy(w.goals, g) && ChildIs(w, g, pid)
    ensures var r := BeginWork(w, g, pid, reset); r.Some? && InvP(r.value, s, Nothing, {g}) && AtWork(r.value, g)
  {
    assert Located(w, g);
    if pid.Some? { ChildTerminatedKeepsInv(w, s, pid.value); }
    var w1 := AfterChild(w, pid).value;
    LeaveBatch(w1, s, g);
    var w2 := w1.(batch := w1.batch - {g});
    assert HasChild(w1, g) <==> HasChild(w2, g);
    ResetKeepsInv(w2, s, g);
  }

  lemma WorkKeepsInv(w: World, s: Settings, g: GoalId, pid: Option<Pid>, reset: bool, cmd: Command)
    requires Inv(w, s) && Enabled(w, s, Work(g, pid, reset, cmd)) && IsBusy(w.goals, g)
    ensures var r := Apply(w, s, Work(g, pid, reset, cmd)); r.Some? && Inv(r.value, s)
  {
    BeginWorkKeepsInv(w, s, g, pid, reset);
    PerformKeepsInv(BeginWork(w, g, pid, reset).value, s, g, cmd);
  }

  lemma LeaveBatch(w: World, s: Settings, g: GoalId)
    requires InvP(w, s, Nothing, {g})
    ensures InvP(w.(batch := w.batch - {g}), s, Nothing, {g})
  {
    var t := w.(batch := w.batch - {g});
    assert SlotPids(t) == SlotPids(w);
    forall h | h in t.goals ensures IndexedGoal(t, h) { assert IndexedGoal(w, h); }
    forall k | k in t.index ensures IndexedKey(t, Nothing, k) { assert IndexedKey(w, Nothing, k); }
    forall h | IsBusy(t.goals, h) && h != g ensures Located(t, h) {
      assert Located(w, h);
      assert HasChild(t, h) <==> HasChild(w, h);
      FrameLocated(w, t, h);
    }
  }

  lemma DestroyKeepsInv(w: World, s: Settings, g: GoalId, pid: Option<Pid>)
    requires Inv(w, s) && Enabled(w, s, Destroy(g, pid))
    ensures var r := Apply(w, s, Destroy(g, pid)); r.Some? && Inv(r.value, s)
  {
    if pid.Some? { ChildTerminatedKeepsInv(w, s, pid.value); }
    var w1 := AfterChild(w, pid).value;
    var t := w1.(goals := w1.goals - {g});
    forall a, b | a in t.goals && b in t.goals ensures Pair(t.goals, Nothing, a, b) { assert Pair(w1.goals, Nothing, a, b); }
    forall a | a in t.goals ensures Solid(t.goals, Nothing, a) { assert Solid(w1.goals, Nothing, a); }
    forall h | h in t.goals ensures IndexedGoal(t, h) { assert IndexedGoal(w1, h); }
    forall k | k in t.index ensures IndexedKey(t, Nothing, k) { assert IndexedKey(w1, Nothing, k); }
    assert SlotPids(t) == SlotPids(w1);
    forall h | IsBusy(t.goals, h) ensures Located(t, h) {
      assert Located(w1, h);
      assert HasChild(t, h) <==> HasChild(w1, h);
      FrameLocated(w1, t, h);
    }
  }

  lemma LoopKeepsInv(w: World, s: Settings, a: Action)
    requires Inv(w, s) && Enabled(w, s, a) && (a.StartBatch? || a.ChildEvent? || a.Poll?)
    ensures Apply(w, s, a).Some? && Inv(Apply(w, s, a).value, s)
  {
    var t := Apply(w, s, a).value;
    assert t.goals == w.goals && t.children == w.children;
    assert SlotPids(t) == SlotPids(w);
    forall h | h in t.goals ensures IndexedGoal(t, h) { assert IndexedGoal(w, h); }
    forall k | k in t.index ensures IndexedKey(t, Nothing, k) { assert IndexedKey(w, Nothing, k); }
    if a.Poll? {
      WokenLocated(w, t, w.waitingForAWhile, {});
    } else {
      forall h | IsBusy(t.goals, h) ensures Located(t, h) {
        assert Located(w, h);
        assert HasChild(t, h) <==> HasChild(w, h);
      }
    }
  }

  lemma AddTopKeepsInv(w: World, s: Settings, key: Key)
    requires Inv(w, s)
    ensures Inv(Apply(w, s, AddTop(key)).value, s)
  {
    MakeGoalKeepsInv(w, s, key, {});
    var (w1, g) := MakeGoal(w, key);
    var t := w1.(held := w1.held + {g}, topGoals := w1.topGoals + {g});
    assert SlotPids(t) == SlotPids(w1);
    forall h | h in t.goals ensures IndexedGoal(t, h) { assert IndexedGoal(w1, h); }
    forall k | k in t.index ensures IndexedKey(t, Nothing, k) { assert IndexedKey(w1, Nothing, k); }
    forall h | IsBusy(t.goals, h) ensures Located(t, h) {
      assert Located(w1, h);
      assert HasChild(t, h) <==> HasChild(w1, h);
      FrameLocated(w1, t, h);
    }
  }

  /** The loop calls every goal of the batch; this one has not ended. */
  predicate CallsBusyGoal(w: World, a: Action) {
    a.Work? ==> IsBusy(w.goals, a.g)
  }

  /** A step of the worker fails an assertion exactly when it calls a goal that has ended;
      otherwise it keeps the invariant. */
  lemma StepKeepsInv(w: World, s: Settings, a: Action)
    requires Inv(w, s) && Enabled(w, s, a)
    ensures Apply(w, s, a).Some? <==> CallsBusyGoal(w, a)
    ensures Apply(w, s, a).Some? ==> Inv(Apply(w, s, a).value, s)
  {
    match a {
      case AddTop(key) => AddTopKeepsInv(w, s, key);
      case Work(g, pid, reset, cmd) => if IsBusy(w.goals, g) { WorkKeepsInv(w, s, g, pid, reset, cmd); }
      case Destroy(g, pid) => DestroyKeepsInv(w, s, g, pid);
      case Timeout(pid) =>
        ChildTerminatedKeepsInv(w, s, pid);
        AmDoneKeepsInv(ChildTerminated(w, pid).value, s, w.children[pid].goal, Failed);
      case _ => LoopKeepsInv(w, s, a);
    }
  }

  // Runs

  ghost predicate Run(states: seq<World>, s: Settings, actions: seq<Action>) {
    |states| == |actions| + 1 && states[0] == INITIAL
    && forall i {:trigger actions[i]} :: 0 <= i < |actions| ==> Enabled(states[i], s, actions[i]) && Apply(states[i], s, actions[i]) == Some(states[i + 1])
  }

  lemma {:induction false} RunKeepsInv(states: seq<World>, s: Settings, actions: seq<Action>, n: nat)
    requires Run(states, s, actions) && n < |states|
    ensures Inv(states[n], s)
  {
    if n > 0 {
      RunKeepsInv(states, s, actions, n - 1);
      StepKeepsInv(states[n - 1], s, actions[n - 1]);
    } else {
      assert SlotPids(INITIAL) == {};
    }
  }

  /** Over every run: the next step runs into a failed assertion exactly when it calls a goal
      that has ended. */
  lemma OnlyEndedGoalsFail(states: seq<World>, s: Settings, actions: seq<Action>, a: Action)
    requires Run(states, s, actions) && Enabled(states[|actions|], s, a)
    ensures Apply(states[|actions|], s, a).None? <==> !CallsBusyGoal(states[|actions|], a)
  {
    RunKeepsInv(states, s, actions, |actions|);
    StepKeepsInv(states[|actions|], s, a);
  }

  /** Over every run, for goals that exist: waiters and waitees are the same relation, every
      waitee is busy, and the failures counted add up. */
  lemma WaitersMatchWaitees(states: seq<World>, s: Settings, actions: seq<Action>, n: nat, g: GoalId, e: GoalId)
    requires Run(states, s, actions) && n < |states| && g in states[n].goals && e in states[n].goals
    ensures e in states[n].goals[g].waitees <==> g in states[n].goals[e].waiters
    ensures e in states[n].goals[g].waitees ==> IsBusy(states[n].goals, e)
    ensures var q := states[n].goals[g];
      q.waitees <= states[n].goals.Keys && Counted(q) && q.nrFailed == q.nrNoSubstituters + q.nrIncompleteClosure + q.results[Failed]
  {
    RunKeepsInv(states, s, actions, n);
    assert Pair(states[n].goals, Nothing, g, e) && Solid(states[n].goals, Nothing, g);
  }

  /** Over every run: a busy goal waits for nothing exactly when it is awake, asleep in one of
      the three lists, or has a child; no wake-up is lost. */
  lemma NoLostWakeUp(states: seq<World>, s: Settings, actions: seq<Action>, n: nat, g: GoalId)
    requires Run(states, s, actions) && n < |states| && IsBusy(states[n].goals, g)
    ensures states[n].goals[g].waitees == {} <==> Up(states[n], g) || Asleep(states[n], g) || HasChild(states[n], g)
  {
    RunKeepsInv(states, s, actions, n);
    assert Located(states[n], g);
  }

  /** Over every run: the slots in use are counted right, never too many, and a goal only
      wants to build while they are all in use. */
  lemma SlotsAreCounted(states: seq<World>, s: Settings, actions: seq<Action>, n: nat)
    requires Run(states, s, actions) && n < |states|
    ensures states[n].nrLocalBuilds == |SlotPids(states[n])| <= (if s.maxBuildJobs == 0 then 1 else s.maxBuildJobs)
    ensures states[n].wantingToBuild != [] ==> states[n].nrLocalBuilds >= s.maxBuildJobs
  {
    RunKeepsInv(states, s, actions, n);
  }

  ghost function WaitGraph(w: World): Graph<GoalId> {
    map g | g in w.goals :: w.goals[g].waitees
  }

  /** The loop is about to wait: top goals are left, but nobody is awake, no child runs and
      nobody polls. */
  ghost predicate NothingToWaitFor(w: World) {
    w.topGoals != {} && w.batch == {} && w.awake == [] && w.children == map[] && w.waitingForAWhile == []
  }

  /** Every goal that sleeps until another one ends waits for a lock whose holder, given by
      `holder`, has a running child. */
  ghost predicate LockHoldersRun(w: World, holder: GoalId -> GoalId) {
    forall g :: IsBusy(w.goals, g) && g in w.waitingForAnyGoal ==> HasChild(w, holder(g))
  }

  ghost function AnyOf<T>(s: set<T>): (x: T)
    requires s != {}
    ensures x in s
  {
    var x :| x in s;
    x
  }

  lemma {:induction false} SomebodyWantsToBuild(w: World, s: Settings, g: GoalId, holder: GoalId -> GoalId)
    requires Inv(w, s) && NothingToWaitFor(w) && Acyclic(WaitGraph(w)) && LockHoldersRun(w, holder) && IsBusy(w.goals, g)
    ensures w.wantingToBuild != []
    decreases Height(WaitGraph(w), g)
  {
    assert Located(w, g);
    if w.goals[g].waitees != {} {
      var e := AnyOf(w.goals[g].waitees);
      assert Solid(w.goals, Nothing, g) && Pair(w.goals, Nothing, g, e);
      HeightFalls(WaitGraph(w), g, e);
      SomebodyWantsToBuild(w, s, e, holder);
    }
  }

  /** Over every run: the loop finds nothing to wait for only when no builds are allowed. */
  lemma StuckOnlyWithoutJobs(states: seq<World>, s: Settings, actions: seq<Action>, n: nat, holder: GoalId -> GoalId)
    requires Run(states, s, actions) && n < |states| && NothingToWaitFor(states[n])
    requires Acyclic(WaitGraph(states[n])) && LockHoldersRun(states[n], holder)
    ensures s.maxBuildJobs == 0
  {
    var w := states[n];
    RunKeepsInv(states, s, actions, n);
    var g := AnyOf(w.topGoals);
    SomebodyWantsToBuild(w, s, g, holder);
    assert SlotPids(w) == {};
  }
}
