/** What a goal knows when nothing is left that it waits for (class Goal of
    nix/libstore/build.cc): each goal it has asked for has ended in success, or a failure has
    been counted. */
module Waiting {
  import opened Scheduler
  import opened Wrappers

  /** Goal `g` waits for a goal with key `k`. */
  ghost predicate Awaits(w: World, g: GoalId, k: Key)
    requires g in w.goals
  {
    exists e :: e in w.goals[g].waitees && e in w.goals && w.goals[e].key == k
  }

  /** From `w` to `t`, goal `g` has lost no waitee without counting a failure, except those that
      have ended in success: they have the keys of `done`. */
  ghost predicate NothingMissed(w: World, t: World, g: GoalId, done: iset<Key>)
    requires g in w.goals && g in t.goals
  {
    w.goals[g].nrFailed <= t.goals[g].nrFailed
    && forall k :: Awaits(w, g, k) ==> Awaits(t, g, k) || t.goals[g].nrFailed > 0 || k in done
  }

  // Ending a goal

  /** From `w` to `t`, while the waiters of `e` are told of its end. */
  ghost predicate Told(w: World, t: World, e: GoalId, result: ExitCode) {
    SameGoals(w.goals, t.goals)
    && forall g :: g in w.goals ==>
      w.goals[g].nrFailed <= t.goals[g].nrFailed
      && (t.goals[g].nrFailed > 0 || w.goals[g].waitees - {e} <= t.goals[g].waitees)
      && (e in w.goals[g].waitees && e !in t.goals[g].waitees ==> result.Success? || t.goals[g].nrFailed > 0)
  }

  lemma CountOne(w: World, s: Settings, g: GoalId, e: GoalId, result: ExitCode)
    requires g in w.goals && WaiteeDone(w, s, g, e, result).Some? && !result.Busy?
    ensures var t := WaiteeDone(w, s, g, e, result).value;
      t.goals.Keys == w.goals.Keys
      && t.goals[g].nrFailed == (if result.Success? then w.goals[g].nrFailed else w.goals[g].nrFailed + 1)
      && forall h :: h in w.goals && h != g ==> t.goals[h].nrFailed == w.goals[h].nrFailed
  {
  }

  lemma TellOne(w: World, s: Settings, g: GoalId, e: GoalId, result: ExitCode)
    requires g in w.goals && WaiteeDone(w, s, g, e, result).Some? && !result.Busy?
    ensures Told(w, WaiteeDone(w, s, g, e, result).value, e, result)
  {
    WaiteeDoneEffect(w, s, g, e, result);
    CountOne(w, s, g, e, result);
  }

  lemma ToldOn(w: World, u: World, t: World, e: GoalId, result: ExitCode)
    requires Told(w, u, e, result) && Told(u, t, e, result)
    ensures Told(w, t, e, result)
  {
    forall g | g in w.goals
      ensures t.goals[g].nrFailed > 0 || w.goals[g].waitees - {e} <= t.goals[g].waitees
      ensures e in w.goals[g].waitees && e !in t.goals[g].waitees ==> result.Success? || t.goals[g].nrFailed > 0
    {
      assert g in u.goals;
    }
  }

  lemma {:induction false} NotifyTells(w: World, s: Settings, rest: seq<GoalId>, e: GoalId, result: ExitCode)
    requires Notify(w, s, rest, e, result).Some? && !result.Busy?
    ensures Told(w, Notify(w, s, rest, e, result).value, e, result)
    decreases |rest|
  {
    if rest != [] {
      if rest[0] in w.goals {
        var u := WaiteeDone(w, s, rest[0], e, result).value;
        TellOne(w, s, rest[0], e, result);
        NotifyTells(u, s, rest[1..], e, result);
        ToldOn(w, u, Notify(u, s, rest[1..], e, result).value, e, result);
      } else {
        NotifyTells(w, s, rest[1..], e, result);
      }
    }
  }

  lemma ToldMissesNothing(w: World, t: World, e: GoalId, result: ExitCode, g: GoalId)
    requires Told(w, t, e, result) && g in w.goals && e in w.goals
    ensures NothingMissed(w, t, g, if result.Success? then iset{w.goals[e].key} else iset{})
  {
    forall k | Awaits(w, g, k)
      ensures Awaits(t, g, k) || t.goals[g].nrFailed > 0 || (result.Success? && k == w.goals[e].key)
    {
      var x :| x in w.goals[g].waitees && x in w.goals && w.goals[x].key == k;
      if x in t.goals[g].waitees { assert x in t.goals && t.goals[x].key == k; }
    }
  }

  /** What the end of goal `e` means for the others. */
  ghost predicate HasEnded(w: World, t: World, e: GoalId, result: ExitCode)
    requires e in w.goals
  {
    t.goals.Keys == w.goals.Keys
    && (forall g :: g in w.goals ==> t.goals[g].key == w.goals[g].key && (IsBusy(t.goals, g) <==> IsBusy(w.goals, g) && g != e))
    && forall g :: g in w.goals && g != e ==> NothingMissed(w, t, g, if result.Success? then iset{w.goals[e].key} else iset{})
  }

  lemma AmDoneEnds(w: World, s: Settings, e: GoalId, result: ExitCode)
    requires e in w.goals && !result.Busy? && AmDone(w, s, e, result).Some?
    ensures HasEnded(w, AmDone(w, s, e, result).value, e, result)
  {
    var w1 := w.(goals := w.goals[e := w.goals[e].(exitCode := result)]);
    var w2 := Notify(w1, s, w.goals[e].waiters, e, result).value;
    NotifyTells(w1, s, w.goals[e].waiters, e, result);
    TellingEnds(w, w1, w2, AmDone(w, s, e, result).value, e, result);
  }

  lemma TellingEnds(w: World, w1: World, w2: World, t: World, e: GoalId, result: ExitCode)
    requires e in w.goals && !result.Busy? && w1 == w.(goals := w.goals[e := w.goals[e].(exitCode := result)])
    requires Told(w1, w2, e, result) && t.goals == w2.goals[e := w2.goals[e].(waiters := [])]
    ensures HasEnded(w, t, e, result)
  {
    forall g | g in w.goals && g != e ensures NothingMissed(w, t, g, if result.Success? then iset{w.goals[e].key} else iset{}) {
      ToldMissesNothing(w1, w2, e, result, g);
      SameAwaits(w, w1, g);
      SameAwaits(w2, t, g);
    }
  }

  lemma SameAwaits(w: World, t: World, g: GoalId)
    requires g in w.goals && g in t.goals && t.goals[g].waitees == w.goals[g].waitees
    requires forall e :: e in w.goals <==> e in t.goals
    requires forall e :: e in w.goals ==> t.goals[e].key == w.goals[e].key
    ensures forall k :: Awaits(w, g, k) <==> Awaits(t, g, k)
  {
    forall k ensures Awaits(w, g, k) <==> Awaits(t, g, k) {
      if Awaits(w, g, k) {
        var e :| e in w.goals[g].waitees && e in w.goals && w.goals[e].key == k;
        assert e in t.goals && t.goals[e].key == k;
      }
      if Awaits(t, g, k) {
        var e :| e in t.goals[g].waitees && e in t.goals && t.goals[e].key == k;
        assert e in w.goals && w.goals[e].key == k;
      }
    }
  }

  // Asking for goals

  /** From `w` to `t`, goals have been made and waited for. */
  ghost predicate HasGrown(w: World, t: World) {
    w.goals.Keys <= t.goals.Keys
    && forall g :: g in w.goals ==>
      t.goals[g].key == w.goals[g].key && t.goals[g].exitCode == w.goals[g].exitCode && t.goals[g].nrFailed == w.goals[g].nrFailed
      && w.goals[g].waitees <= t.goals[g].waitees
  }

  lemma GrownMissesNothing(w: World, t: World, g: GoalId)
    requires HasGrown(w, t) && g in w.goals
    ensures NothingMissed(w, t, g, iset{})
  {
    forall k | Awaits(w, g, k) ensures Awaits(t, g, k) {
      var e :| e in w.goals[g].waitees && e in w.goals && w.goals[e].key == k;
      assert e in t.goals[g].waitees && e in t.goals && t.goals[e].key == k;
    }
  }

  lemma GrownOn(w: World, u: World, t: World)
    requires HasGrown(w, u) && HasGrown(u, t)
    ensures HasGrown(w, t)
  {
    forall g | g in w.goals ensures w.goals[g].waitees <= t.goals[g].waitees { assert g in u.goals; }
  }

  lemma OneMore(w: World, w1: World, g: GoalId, e: GoalId)
    requires g in w.goals && e in w1.goals && g != e && w1.goals.Keys >= w.goals.Keys && forall h :: h in w.goals ==> w1.goals[h] == w.goals[h]
    ensures HasGrown(w, AddWaitee(w1, g, e)) && Awaits(AddWaitee(w1, g, e), g, w1.goals[e].key)
  {
    var t := AddWaitee(w1, g, e);
    assert e in t.goals[g].waitees && t.goals[e].key == w1.goals[e].key;
  }

  lemma {:induction false} RequestAwaits(w: World, s: Settings, g: GoalId, keys: seq<Key>)
    requires InvP(w, s, Nothing, {g}) && IsBusy(w.goals, g) && Nowhere(w, g) && w.goals[g].key !in keys
    ensures var t := Request(w, g, keys); HasGrown(w, t) && forall k :: k in keys ==> Awaits(t, g, k)
    decreases |keys|
  {
    if keys != [] {
      MakeGoalKeepsInv(w, s, keys[0], {g});
      var (w1, e) := MakeGoal(w, keys[0]);
      assert HasChild(w1, g) <==> HasChild(w, g);
      AddWaiteeKeepsInv(w1, s, g, e);
      OneMore(w, w1, g, e);
      var w2 := AddWaitee(w1, g, e);
      RequestAwaits(w2, s, g, keys[1..]);
      GrownOn(w, w2, Request(w2, g, keys[1..]));
      KeepsAwaiting(w2, Request(w2, g, keys[1..]), g, keys[0]);
    }
  }

  lemma KeepsAwaiting(w: World, t: World, g: GoalId, k: Key)
    requires HasGrown(w, t) && g in w.goals && Awaits(w, g, k)
    ensures Awaits(t, g, k)
  {
    var e :| e in w.goals[g].waitees && e in w.goals && w.goals[e].key == k;
    assert e in t.goals[g].waitees && e in t.goals && t.goals[e].key == k;
  }

  // Calling a goal

  lemma MissedOn(w: World, u: World, t: World, g: GoalId, done: iset<Key>)
    requires g in w.goals && g in u.goals && g in t.goals && NothingMissed(w, u, g, iset{}) && NothingMissed(u, t, g, done)
    ensures NothingMissed(w, t, g, done)
  {
  }

  ghost function DoneKeys(w: World, g: GoalId, cmd: Command): iset<Key>
    requires g in w.goals
  {
    if cmd == Done(Success) then iset{w.goals[g].key} else iset{}
  }

  /** What a call of goal `g` means for the others and for itself. */
  ghost predicate HasWorked(w: World, t: World, g: GoalId, cmd: Command)
    requires g in w.goals
  {
    w.goals.Keys <= t.goals.Keys && t.goals[g].key == w.goals[g].key
    && (forall h :: h in w.goals ==> t.goals[h].key == w.goals[h].key && (IsBusy(t.goals, h) ==> IsBusy(w.goals, h)))
    && (forall h :: h in w.goals && h != g ==> NothingMissed(w, t, h, DoneKeys(w, g, cmd)))
    && (cmd.Done? ==> !IsBusy(t.goals, g))
    && (cmd.WaitFor? ==> forall k :: k in cmd.keys ==> Awaits(t, g, k))
  }

  lemma RequestWorks(w: World, s: Settings, g: GoalId, keys: seq<Key>)
    requires InvP(w, s, Nothing, {g}) && IsBusy(w.goals, g) && Nowhere(w, g) && w.goals[g].key !in keys
    ensures HasWorked(w, Request(w, g, keys), g, WaitFor(keys))
  {
    var t := Request(w, g, keys);
    RequestAwaits(w, s, g, keys);
    forall h | h in w.goals ensures NothingMissed(w, t, h, iset{}) { GrownMissesNothing(w, t, h); }
  }

  lemma SameGoalsWork(w: World, t: World, g: GoalId, cmd: Command)
    requires g in w.goals && t.goals == w.goals && !cmd.Done? && !cmd.WaitFor?
    ensures HasWorked(w, t, g, cmd)
  {
    forall h | h in w.goals ensures NothingMissed(w, t, h, iset{}) { SameAwaits(w, t, h); }
  }

  lemma PerformWorks(w: World, s: Settings, g: GoalId, cmd: Command)
    requires InvP(w, s, Nothing, {g}) && AtWork(w, g) && LegalCommand(w, s, g, cmd) && Perform(w, s, g, cmd).Some?
    ensures HasWorked(w, Perform(w, s, g, cmd).value, g, cmd)
  {
    match cmd {
      case Done(result) => AmDoneEnds(w, s, g, result);
      case WaitFor(keys) => RequestWorks(w, s, g, keys);
      case _ => SameGoalsWork(w, Perform(w, s, g, cmd).value, g, cmd);
    }
  }

  lemma BeginWorkMissesNothing(w: World, g: GoalId, pid: Option<Pid>, reset: bool, h: GoalId)
    requires BeginWork(w, g, pid, reset).Some? && h in w.goals && h != g
    ensures var t := BeginWork(w, g, pid, reset).value; h in t.goals && NothingMissed(w, t, h, iset{})
  {
    SameAwaits(w, BeginWork(w, g, pid, reset).value, h);
  }

  lemma WorkedOn(w: World, u: World, t: World, g: GoalId, cmd: Command)
    requires g in w.goals && u.goals.Keys == w.goals.Keys && HasWorked(u, t, g, cmd)
    requires forall h :: h in w.goals ==> u.goals[h].key == w.goals[h].key && (IsBusy(u.goals, h) ==> IsBusy(w.goals, h))
    requires forall h :: h in w.goals && h != g ==> NothingMissed(w, u, h, iset{})
    ensures HasWorked(w, t, g, cmd)
  {
    forall h | h in w.goals && h != g ensures NothingMissed(w, t, h, DoneKeys(w, g, cmd)) {
      MissedOn(w, u, t, h, DoneKeys(w, g, cmd));
    }
  }

  lemma WorkWorks(w: World, s: Settings, g: GoalId, pid: Option<Pid>, reset: bool, cmd: Command)
    requires Inv(w, s) && Enabled(w, s, Work(g, pid, reset, cmd)) && Apply(w, s, Work(g, pid, reset, cmd)).Some? && g in w.goals
    ensures HasWorked(w, Apply(w, s, Work(g, pid, reset, cmd)).value, g, cmd)
  {
    BeginWorkKeepsInv(w, s, g, pid, reset);
    var u := BeginWork(w, g, pid, reset).value;
    PerformWorks(u, s, g, cmd);
    assert u.goals.Keys == w.goals.Keys;
    forall h | h in w.goals && h != g ensures NothingMissed(w, u, h, iset{}) {
      BeginWorkMissesNothing(w, g, pid, reset, h);
    }
    WorkedOn(w, u, Perform(u, s, g, cmd).value, g, cmd);
  }
}
