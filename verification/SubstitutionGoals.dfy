/** The states of a substitution goal outside repair mode (class SubstitutionGoal of
    nix/libstore/build.cc). */
module SubstitutionGoals {
  import ByteStrings
  import opened DerivationGoals
  import DerivationText
  import Scheduler
  import opened Wrappers

  type Path = string

  datatype SubstState = Start | ReferencesValid | TryToRun | Finished

  /** What a call of work() gets to know: the failures counted among its waitees, the
      references a substituter reports (None: there is no substituter), the lock, the child. */
  datatype SubstAnswers = SubstAnswers(nrFailed: nat, nrNoSubstituters: nat, nrIncompleteClosure: nat, readOnly: bool,
                                       substitutable: Option<set<Path>>, curBuilds: nat, maxBuildJobs: nat, lockedByMe: bool,
                                       lockTaken: bool, pid: Scheduler.Pid, fetchEnd: BuildEnd)

  /** What the scheduler expects of a command; the goal has a child exactly in state Finished. */
  ghost predicate ProperCommand(storePath: Path, a: SubstAnswers, state: SubstState, cmd: Scheduler.Command) {
    match cmd
    case Done(result) => !result.Busy?
    case WaitFor(keys) => keys != [] && Scheduler.SubstitutionKey(storePath) !in keys && !state.Finished?
    case StartChild(pid, slot) => pid == a.pid && (slot ==> a.curBuilds < a.maxBuildJobs || a.curBuilds == 0) && state.Finished?
    case _ => !state.Finished?
  }

  /** The scheduler can carry out such a command. */
  lemma ProperIsLegal(storePath: Path, a: SubstAnswers, state: SubstState, cmd: Scheduler.Command,
                      w: Scheduler.World, s: Scheduler.Settings, id: Scheduler.GoalId)
    requires ProperCommand(storePath, a, state, cmd) && id in w.goals && w.goals[id].key == Scheduler.SubstitutionKey(storePath)
    requires a.curBuilds == w.nrLocalBuilds && a.pid !in w.children && a.maxBuildJobs == s.maxBuildJobs
    ensures Scheduler.LegalCommand(w, s, id, cmd)
  {
  }

  /** The goal object. */
  datatype SubstGoal = SubstGoal(storePath: Path, state: SubstState, references: set<Path>)

  datatype SubstResult = SubstResult(goal: SubstGoal, valid: set<Path>, outcome: Outcome)

  const NO_SUBSTITUTERS := Ends(Scheduler.Done(Scheduler.NoSubstituters))
  const INCOMPLETE := Ends(Scheduler.Done(Scheduler.IncompleteClosure))

  // The states

  ghost function Begin(g: SubstGoal, valid: set<Path>, a: SubstAnswers): SubstResult {
    if g.storePath in valid then SubstResult(g, valid, SUCCESS)
    else if a.readOnly then SubstResult(g, valid, Throws)
    else if a.substitutable.None? then SubstResult(g, valid, NO_SUBSTITUTERS)
    else
      var g1 := g.(references := a.substitutable.value);
      if g1.references - {g.storePath} == {} then CheckReferences(g1, valid, 0, 0, 0)
      else SubstResult(g1.(state := ReferencesValid), valid, Ends(Scheduler.WaitFor(SubstitutionKeys(g1.references - {g.storePath}))))
  }

  function CheckReferences(g: SubstGoal, valid: set<Path>, nrFailed: nat, nrNoSubstituters: nat, nrIncompleteClosure: nat): SubstResult {
    if nrFailed > 0 then SubstResult(g, valid, if nrNoSubstituters > 0 || nrIncompleteClosure > 0 then INCOMPLETE else FAILURE)
    else if g.references - {g.storePath} <= valid then SubstResult(g.(state := TryToRun), valid, Ends(Scheduler.WakeSelf))
    else SubstResult(g, valid, AssertionFails)
  }

  function TakeSlot(g: SubstGoal, valid: set<Path>, a: SubstAnswers): SubstResult {
    if a.curBuilds >= (if a.maxBuildJobs == 0 then 1 else a.maxBuildJobs) then SubstResult(g, valid, Ends(Scheduler.SleepForSlot))
    else if a.lockedByMe then SubstResult(g, valid, Ends(Scheduler.SleepForAnyGoal))
    else if !a.lockTaken then SubstResult(g, valid, Ends(Scheduler.SleepForAWhile))
    else if g.storePath in valid then SubstResult(g, valid, SUCCESS)
    else SubstResult(g.(state := Finished), valid, Ends(Scheduler.StartChild(a.pid, true)))
  }

  function Finish(g: SubstGoal, valid: set<Path>, a: SubstAnswers): SubstResult {
    match a.fetchEnd
    case Aborted => SubstResult(g, valid, Throws)
    case Broken => SubstResult(g, valid, FAILURE)
    case Good => SubstResult(g, valid + {g.storePath}, SUCCESS)
  }

  ghost function SubstWork(g: SubstGoal, valid: set<Path>, a: SubstAnswers): SubstResult {
    match g.state
    case Start => Begin(g, valid, a)
    case ReferencesValid => CheckReferences(g, valid, a.nrFailed, a.nrNoSubstituters, a.nrIncompleteClosure)
    case TryToRun => TakeSlot(g, valid, a)
    case Finished => Finish(g, valid, a)
  }

  // What every step keeps

  /** The references, itself apart, are valid once the goal tries to run. */
  ghost predicate SubstInv(g: SubstGoal, valid: set<Path>) {
    g.state.TryToRun? || g.state.Finished? ==> g.references - {g.storePath} <= valid
  }

  /** The counters of the scheduler: every failure without substituters is a failure. */
  predicate Counts(a: SubstAnswers) {
    a.nrNoSubstituters + a.nrIncompleteClosure <= a.nrFailed
  }

  /** What a finished step satisfies: success means that the path is valid, the store only
      ever gains this path, and only when all its references are valid. */
  ghost predicate SubstSound(g: SubstGoal, valid: set<Path>, a: SubstAnswers, r: SubstResult) {
    r.goal.storePath == g.storePath
    && (r.outcome == SUCCESS ==> g.storePath in r.valid)
    && (r.valid == valid || (r.valid == valid + {g.storePath} && r.goal.references <= r.valid))
    && (r.outcome.Ends? ==> ProperCommand(g.storePath, a, r.goal.state, r.outcome.cmd))
    && (r.outcome.Ends? && !r.outcome.cmd.Done? ==> SubstInv(r.goal, r.valid))
  }

  lemma KeysOfOthers(storePath: Path, references: set<Path>)
    ensures var keys := SubstitutionKeys(references - {storePath});
      forall p :: Scheduler.SubstitutionKey(p) in keys <==> p in references && p != storePath
  {
    var l := ByteStrings.Sorted(references - {storePath});
    var keys := SubstitutionKeys(references - {storePath});
    forall p ensures Scheduler.SubstitutionKey(p) in keys <==> p in references && p != storePath {
      if p in references && p != storePath {
        assert p in l;
        var i :| 0 <= i < |l| && l[i] == p;
        assert keys[i] == Scheduler.SubstitutionKey(p);
      }
      if Scheduler.SubstitutionKey(p) in keys {
        var i :| 0 <= i < |keys| && keys[i] == Scheduler.SubstitutionKey(p);
        assert keys[i] == Scheduler.SubstitutionKey(l[i]) && l[i] in l;
      }
    }
  }

  lemma BeginIsSound(g: SubstGoal, valid: set<Path>, a: SubstAnswers)
    requires g.state.Start?
    ensures SubstSound(g, valid, a, Begin(g, valid, a))
  {
    if a.substitutable.Some? { KeysOfOthers(g.storePath, a.substitutable.value); }
  }

  /** Every call of work() keeps the invariant. */
  lemma SubstWorkIsSound(g: SubstGoal, valid: set<Path>, a: SubstAnswers)
    requires SubstInv(g, valid)
    ensures SubstSound(g, valid, a, SubstWork(g, valid, a))
  {
    if g.state.Start? { BeginIsSound(g, valid, a); }
  }

  // Runs

  datatype SubstEvent =
    | SubstChange(valid: set<Path>)   // the store changes behind the goal's back
    | SubstStep(a: SubstAnswers)      // work()

  datatype SubstConfig = Going(goal: SubstGoal, valid: set<Path>) | Gone(goal: SubstGoal, valid: set<Path>, outcome: Outcome)

  /** The references are the temporary roots of their own goals: while the goal tries to run,
      none of them becomes invalid. */
  ghost predicate SubstHappens(c: SubstConfig, e: SubstEvent, c': SubstConfig) {
    c.Going?
    && match e
       case SubstChange(valid) =>
         c' == Going(c.goal, valid) && (c.goal.state.TryToRun? || c.goal.state.Finished? ==> c.goal.references * c.valid <= valid)
       case SubstStep(a) =>
         var r := SubstWork(c.goal, c.valid, a);
         c' == if r.outcome.IsLast() then Gone(r.goal, r.valid, r.outcome) else Going(r.goal, r.valid)
  }

  ghost predicate SubstRun(configs: seq<SubstConfig>, events: seq<SubstEvent>, storePath: Path) {
    |configs| == |events| + 1 && configs[0].Going? && configs[0].goal == SubstGoal(storePath, Start, {})
    && forall i {:trigger events[i]} :: 0 <= i < |events| ==> SubstHappens(configs[i], events[i], configs[i + 1])
  }

  lemma {:induction false} SubstRunIsFine(configs: seq<SubstConfig>, events: seq<SubstEvent>, storePath: Path, n: nat)
    requires SubstRun(configs, events, storePath) && n < |configs|
    ensures configs[n].goal.storePath == storePath && (configs[n].Going? ==> SubstInv(configs[n].goal, configs[n].valid))
    ensures configs[n].Gone? && configs[n].outcome == SUCCESS ==> storePath in configs[n].valid
  {
    if n > 0 {
      SubstRunIsFine(configs, events, storePath, n - 1);
      assert SubstHappens(configs[n - 1], events[n - 1], configs[n]);
      if events[n - 1].SubstStep? { SubstWorkIsSound(configs[n - 1].goal, configs[n - 1].valid, events[n - 1].a); }
    }
  }

  /** Over every run: a goal that ends in success leaves its path valid; a step makes nothing
      valid but this path, and only when all its references are valid. */
  lemma SubstitutedIsComplete(configs: seq<SubstConfig>, events: seq<SubstEvent>, storePath: Path, n: nat)
    requires SubstRun(configs, events, storePath) && n < |events|
    ensures configs[n + 1].Gone? && configs[n + 1].outcome == SUCCESS ==> storePath in configs[n + 1].valid
    ensures events[n].SubstStep? && configs[n + 1].valid != configs[n].valid ==>
      configs[n + 1].valid == configs[n].valid + {storePath} && configs[n + 1].goal.references <= configs[n + 1].valid
  {
    SubstRunIsFine(configs, events, storePath, n);
    assert SubstHappens(configs[n], events[n], configs[n + 1]);
    if events[n].SubstStep? { SubstWorkIsSound(configs[n].goal, configs[n].valid, events[n].a); }
  }

  class SubstitutionGoal {
    const storePath: Path
    var state: SubstState
    var references: set<Path>

    constructor (storePath: Path)
      ensures View() == SubstGoal(storePath, Start, {})
    {
      this.storePath := storePath;
      state := Start;
      references := {};
    }

    function View(): SubstGoal
      reads this
    {
      SubstGoal(storePath, state, references)
    }

    method DoInit(valid: set<Path>, a: SubstAnswers) returns (outcome: Outcome)
      requires state.Start?
      modifies this
      ensures SubstResult(View(), valid, outcome) == Begin(old(View()), valid, a)
      ensures (storePath in valid <==> outcome == SUCCESS) && (storePath !in valid && a.readOnly ==> outcome == Throws)
    {
      if storePath in valid { return SUCCESS; }
      if a.readOnly { return Throws; }
      outcome := TryNext(valid, a);
    }

    /** A goal for each reference but itself. */
    method ReferenceKeys() returns (keys: seq<Scheduler.Key>)
      ensures keys == SubstitutionKeys(references - {storePath})
    {
      var l := DerivationText.InOrder(references - {storePath});
      keys := [];
      for i := 0 to |l|
        invariant |keys| == i && forall k :: 0 <= k < i ==> keys[k] == Scheduler.SubstitutionKey(l[k])
      {
        keys := keys + [Scheduler.SubstitutionKey(l[i])];
      }
    }

    method TryNext(valid: set<Path>, a: SubstAnswers) returns (outcome: Outcome)
      requires state.Start? && storePath !in valid && !a.readOnly
      modifies this
      ensures SubstResult(View(), valid, outcome) == Begin(old(View()), valid, a)
      ensures a.substitutable.None? <==> outcome == NO_SUBSTITUTERS
      ensures a.substitutable.Some? ==> references == a.substitutable.value && outcome != SUCCESS && outcome != FAILURE
      ensures a.substitutable.Some? && outcome.Ends? && outcome.cmd.WaitFor? ==>
        forall p :: Scheduler.SubstitutionKey(p) in outcome.cmd.keys <==> p in references && p != storePath
    {
      if a.substitutable.None? { return NO_SUBSTITUTERS; }
      references := a.substitutable.value;
      KeysOfOthers(storePath, references);
      var keys := ReferenceKeys();
      if keys == [] {
        outcome := DoReferencesValid(valid, 0, 0, 0);
      } else {
        state := ReferencesValid;
        outcome := Ends(Scheduler.WaitFor(keys));
      }
    }

    method DoReferencesValid(valid: set<Path>, nrFailed: nat, nrNoSubstituters: nat, nrIncompleteClosure: nat) returns (outcome: Outcome)
      requires (state.Start? || state.ReferencesValid?) && nrNoSubstituters + nrIncompleteClosure <= nrFailed
      modifies this`state
      ensures SubstResult(View(), valid, outcome) == CheckReferences(old(View()), valid, nrFailed, nrNoSubstituters, nrIncompleteClosure)
      ensures outcome == INCOMPLETE <==> nrNoSubstituters + nrIncompleteClosure > 0
      ensures outcome == FAILURE <==> nrFailed > 0 && nrNoSubstituters + nrIncompleteClosure == 0
      ensures outcome == Ends(Scheduler.WakeSelf) <==> nrFailed == 0 && references - {storePath} <= valid
      ensures outcome == Ends(Scheduler.WakeSelf) || outcome == AssertionFails || outcome == INCOMPLETE || outcome == FAILURE
    {
      if nrFailed > 0 { return if nrNoSubstituters > 0 || nrIncompleteClosure > 0 then INCOMPLETE else FAILURE; }
      var todo := references;
      while todo != {}
        invariant todo <= references && references - todo - {storePath} <= valid
        decreases todo
      {
        var i :| i in todo;
        if i != storePath && i !in valid { return AssertionFails; }
        todo := todo - {i};
      }
      state := TryToRun;
      return Ends(Scheduler.WakeSelf);
    }

    method DoTryToRun(valid: set<Path>, a: SubstAnswers) returns (outcome: Outcome)
      modifies this`state
      ensures SubstResult(View(), valid, outcome) == TakeSlot(old(View()), valid, a)
      ensures outcome == Ends(Scheduler.SleepForSlot) <==> a.curBuilds > 0 && a.curBuilds >= a.maxBuildJobs
      ensures outcome == Ends(Scheduler.SleepForAnyGoal) <==> (a.curBuilds == 0 || a.curBuilds < a.maxBuildJobs) && a.lockedByMe
      ensures outcome == Ends(Scheduler.SleepForAWhile) <==>
        (a.curBuilds == 0 || a.curBuilds < a.maxBuildJobs) && !a.lockedByMe && !a.lockTaken
      ensures outcome == SUCCESS <==>
        (a.curBuilds == 0 || a.curBuilds < a.maxBuildJobs) && !a.lockedByMe && a.lockTaken && storePath in valid
      ensures outcome == Ends(Scheduler.StartChild(a.pid, true)) <==>
        (a.curBuilds == 0 || a.curBuilds < a.maxBuildJobs) && !a.lockedByMe && a.lockTaken && storePath !in valid
      ensures state == if outcome == Ends(Scheduler.StartChild(a.pid, true)) then Finished else old(state)
    {
      if a.curBuilds >= (if a.maxBuildJobs == 0 then 1 else a.maxBuildJobs) { return Ends(Scheduler.SleepForSlot); }
      if a.lockedByMe { return Ends(Scheduler.SleepForAnyGoal); }
      if !a.lockTaken { return Ends(Scheduler.SleepForAWhile); }
      if storePath in valid { return SUCCESS; }
      state := Finished;
      return Ends(Scheduler.StartChild(a.pid, true));
    }

    method DoFinished(valid: set<Path>, a: SubstAnswers) returns (outcome: Outcome, valid': set<Path>)
      ensures SubstResult(View(), valid', outcome) == Finish(View(), valid, a)
      ensures (a.fetchEnd.Good? <==> outcome == SUCCESS) && (a.fetchEnd.Broken? <==> outcome == FAILURE)
      ensures (a.fetchEnd.Aborted? <==> outcome == Throws) && valid' == if a.fetchEnd.Good? then valid + {storePath} else valid
    {
      if a.fetchEnd.Aborted? { return Throws, valid; }
      if a.fetchEnd.Broken? { return FAILURE, valid; }
      return SUCCESS, valid + {storePath};
    }

    /** Every call of work(). */
    method Work(valid: set<Path>, a: SubstAnswers) returns (outcome: Outcome, valid': set<Path>)
      requires SubstInv(View(), valid) && Counts(a)
      modifies this
      ensures SubstResult(View(), valid', outcome) == SubstWork(old(View()), valid, a)
      ensures SubstSound(old(View()), valid, a, SubstResult(View(), valid', outcome))
    {
      SubstWorkIsSound(View(), valid, a);
      valid' := valid;
      match state {
        case Start => outcome := DoInit(valid, a);
        case ReferencesValid => outcome := DoReferencesValid(valid, a.nrFailed, a.nrNoSubstituters, a.nrIncompleteClosure);
        case TryToRun => outcome := DoTryToRun(valid, a);
        case Finished => outcome, valid' := DoFinished(valid, a);
      }
    }
  }
}
