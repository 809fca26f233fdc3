/** The derivation goal as an object whose methods update its fields (class DerivationGoal of
    nix/libstore/build.cc).  `View` is its value; every method does to it what the function of
    the same state does. */
module DerivationGoalClass {
  import ByteStrings
  import opened Derivations
  import opened DerivationGoals
  import DerivationText
  import OutputChecks
  import Scheduler

  class DerivationGoal {
    const drvPath: Path
    const drv: Derivation
    const options: Options
    var state: State
    var wantedOutputs: set<string>
    var needRestart: bool
    var retrySubstitution: bool
    var validPaths: set<Path>
    var missingPaths: set<Path>
    var curRound: nat
    var nrRounds: nat
    var prevInfos: seq<OutputChecks.Info>
    var viaHook: bool
    var local: bool
    ghost var requested: set<set<string>>

    ghost function View(): DrvGoal
      reads this
    {
      DrvGoal(drvPath, drv, state, wantedOutputs, needRestart, retrySubstitution, validPaths, missingPaths,
              curRound, nrRounds, prevInfos, viaHook, local, requested)
    }

    constructor (drvPath: Path, drv: Derivation, outputs: set<string>, options: Options)
      ensures View() == New(drvPath, drv, outputs) && this.options == options
    {
      this.drvPath, this.drv, this.options := drvPath, drv, options;
      state, wantedOutputs, needRestart, retrySubstitution := Init, outputs, false, false;
      validPaths, missingPaths, curRound, nrRounds, prevInfos := {}, {}, 1, 1, [];
      viaHook, local := false, false;
      requested := {outputs};
    }

    method AddWantedOutputs(outputs: set<string>)
      modifies this
      ensures View() == DerivationGoals.AddWantedOutputs(old(View()), outputs)
    {
      requested := requested + {outputs};
      if wantedOutputs == {} { return; }
      if outputs == {} {
        wantedOutputs := {};
        needRestart := true;
      } else {
        var todo := outputs;
        while todo != {}
          invariant todo <= outputs
          invariant View() == old(View()).(requested := old(requested) + {outputs}, wanted := wantedOutputs, needRestart := needRestart)
          invariant wantedOutputs == old(wantedOutputs) + (outputs - todo)
          invariant needRestart == (old(needRestart) || !(outputs - todo <= old(wantedOutputs)))
          decreases todo
        {
          var i :| i in todo;
          todo := todo - {i};
          if i !in wantedOutputs {
            wantedOutputs := wantedOutputs + {i};
            needRestart := true;
          }
        }
      }
    }

    method CheckValidity(valid: set<Path>, returnValid: bool) returns (r: set<Path>)
      ensures r == CheckPathValidity(View(), valid, returnValid)
    {
      r := {};
      ghost var done: set<string> := {};
      var todo := drv.outputs.Keys;
      while todo != {}
        invariant done + todo == drv.outputs.Keys && r == CheckedAmong(View(), valid, returnValid, done)
        decreases todo
      {
        var i :| i in todo;
        AlsoChecked(View(), valid, returnValid, done, i);
        if WantOutput(i, wantedOutputs) && (drv.outputs[i].path in valid) == returnValid { r := r + {drv.outputs[i].path}; }
        todo, done := todo - {i}, done + {i};
      }
      AllChecked(View(), valid, returnValid);
    }

    /** Whether one of the paths is known to fail. */
    method AnyFailed(paths: set<Path>, failedPaths: set<Path>) returns (b: bool)
      ensures b <==> options.cacheFailure && paths * failedPaths != {}
    {
      var todo := paths;
      while todo != {}
        invariant todo <= paths && (options.cacheFailure ==> (paths - todo) * failedPaths == {})
        decreases todo
      {
        var i :| i in todo;
        if options.cacheFailure && i in failedPaths {
          assert i in paths * failedPaths;
          return true;
        }
        todo := todo - {i};
      }
      assert paths - todo == paths;
      return false;
    }

    /** Whether every output has a hash given in advance. */
    method IsFixedOutput() returns (b: bool)
      ensures b <==> IsFixed(drv)
    {
      b := true;
      var todo := drv.outputs.Keys;
      while todo != {}
        invariant todo <= drv.outputs.Keys && (b <==> forall n :: n in drv.outputs && n !in todo ==> drv.outputs[n].hash != "")
        decreases todo
      {
        var i :| i in todo;
        todo := todo - {i};
        if drv.outputs[i].hash == "" { b := false; }
      }
    }

    method Missing() returns (r: set<Path>)
      ensures r == OutputPaths(drv) - validPaths
    {
      r := OutputPaths(drv);
      var todo := validPaths;
      while todo != {}
        invariant todo <= validPaths && r == OutputPaths(drv) - (validPaths - todo)
        decreases todo
      {
        var i :| i in todo;
        r, todo := r - {i}, todo - {i};
      }
    }

    method SubstitutionKeysFor(paths: set<Path>) returns (keys: seq<Scheduler.Key>)
      ensures keys == SubstitutionKeys(paths)
    {
      var l := DerivationText.InOrder(paths);
      keys := [];
      for i := 0 to |l|
        invariant |l| == |SubstitutionKeys(paths)| && keys == SubstitutionKeys(paths)[..i]
      {
        keys := keys + [Scheduler.SubstitutionKey(l[i])];
      }
    }

    method DerivationKeysFor(paths: set<Path>) returns (keys: seq<Scheduler.Key>)
      ensures keys == DerivationKeys(paths)
    {
      var l := DerivationText.InOrder(paths);
      keys := [];
      for i := 0 to |l|
        invariant |l| == |DerivationKeys(paths)| && keys == DerivationKeys(paths)[..i]
      {
        keys := keys + [Scheduler.DerivationKey(l[i])];
      }
    }

    method DoInit(valid: set<Path>, a: Answers) returns (outcome: Outcome)
      requires RetryAllowed(View(), options)
      modifies this
      ensures Result(View(), valid, outcome) == DerivationGoals.DoInit(old(View()), options, valid, a)
    {
      if options.readOnly { return Throws; }
      if drvPath in valid {
        outcome := DoHaveDerivation(valid, a, a.nrFailed);
        return;
      }
      state := HaveDerivation;
      return Ends(Scheduler.WaitFor([Scheduler.SubstitutionKey(drvPath)]));
    }

    method DoHaveDerivation(valid: set<Path>, a: Answers, nrFailed: nat) returns (outcome: Outcome)
      requires RetryAllowed(View(), options)
      modifies this
      ensures Result(View(), valid, outcome) == DerivationGoals.DoHaveDerivation(old(View()), options, valid, a, nrFailed)
      decreases Level(View()), if retrySubstitution then 0 else 3
    {
      if nrFailed != 0 { return FAILURE; }
      if drvPath !in valid { return AssertionFails; }
      if !a.readable { return Throws; }
      var invalidOutputs := CheckValidity(valid, false);
      if |invalidOutputs| == 0 { return SUCCESS; }
      var failed := AnyFailed(invalidOutputs, a.failedPaths);
      if failed { return FAILURE; }
      if options.useSubstitutes && SubstitutesAllowed(drv) {
        var keys := SubstitutionKeysFor(invalidOutputs);
        state := OutputsSubstituted;
        return Ends(Scheduler.WaitFor(keys));
      }
      outcome := DoOutputsSubstituted(valid, a, 0, 0, 0);
    }

    method DoOutputsSubstituted(valid: set<Path>, a: Answers, nrFailed: nat, nrNoSubstituters: nat, nrIncompleteClosure: nat)
      returns (outcome: Outcome)
      requires RetryAllowed(View(), options) && (nrIncompleteClosure > 0 ==> MaySubstitute(View(), options))
      modifies this
      ensures Result(View(), valid, outcome)
           == DerivationGoals.DoOutputsSubstituted(old(View()), options, valid, a, nrFailed, nrNoSubstituters, nrIncompleteClosure)
      decreases Level(View()), 2, 1
    {
      if nrFailed > 0 && nrFailed > nrNoSubstituters + nrIncompleteClosure && !options.tryFallback { return Throws; }
      if nrIncompleteClosure > 0 && !retrySubstitution { retrySubstitution := true; }
      outcome := DoAfterSubstitution(valid, a);
    }

    method DoAfterSubstitution(valid: set<Path>, a: Answers) returns (outcome: Outcome)
      requires RetryAllowed(View(), options)
      modifies this
      ensures Result(View(), valid, outcome) == AfterSubstitution(old(View()), options, valid, a)
      decreases Level(View()), 2, 0
    {
      if needRestart {
        needRestart := false;
        outcome := DoHaveDerivation(valid, a, 0);
        return;
      }
      var invalid := CheckValidity(valid, false);
      if |invalid| == 0 { return SUCCESS; }
      wantedOutputs := {};
      var drvKeys := DerivationKeysFor(drv.inputDrvs.Keys);
      var srcKeys := SubstitutionKeysFor(drv.inputSrcs);
      if drvKeys + srcKeys == [] {
        outcome := DoInputsRealised(valid, a, 0);
      } else {
        state := InputsRealised;
        outcome := Ends(Scheduler.WaitFor(drvKeys + srcKeys));
      }
    }

    method InputsChecked(valid: set<Path>, faulty: set<Path>) returns (check: InputCheck)
      ensures check == CheckInputs(ByteStrings.Sorted(drv.inputDrvs.Keys), valid, faulty)
    {
      var l := DerivationText.InOrder(drv.inputDrvs.Keys);
      for i := 0 to |l|
        invariant CheckInputs(l[i..], valid, faulty) == CheckInputs(l, valid, faulty)
      {
        assert l[i..][0] == l[i] && l[i..][1..] == l[i + 1..];
        if l[i] !in valid { return InputInvalid; }
        if l[i] in faulty { return InputFaulty; }
      }
      check := InputsFine;
    }

    method DoInputsRealised(valid: set<Path>, a: Answers, nrFailed: nat) returns (outcome: Outcome)
      requires RetryAllowed(View(), options)
      modifies this
      ensures Result(View(), valid, outcome) == DerivationGoals.DoInputsRealised(old(View()), options, valid, a, nrFailed)
      decreases Level(View()), 1, 0
    {
      if nrFailed != 0 { return FAILURE; }
      if retrySubstitution {
        outcome := DoHaveDerivation(valid, a, nrFailed);
        return;
      }
      var check := InputsChecked(valid, a.faultyInputs);
      outcome := DoPrepareBuild(valid, a, check);
    }

    method DoPrepareBuild(ghost valid: set<Path>, a: Answers, check: InputCheck) returns (outcome: Outcome)
      modifies this
      ensures Result(View(), valid, outcome) == PrepareBuild(old(View()), options, valid, a, check)
    {
      if check.InputInvalid? { return AssertionFails; }
      if check.InputFaulty? || !a.sourcesOk { return Throws; }
      var fixedOutput := IsFixedOutput();
      nrRounds := if fixedOutput then 1 else options.buildRepeat + 1;
      state := TryToBuild;
      return Ends(Scheduler.WakeSelf);
    }

    method DoTryToBuild(valid: set<Path>, a: Answers) returns (outcome: Outcome)
      modifies this
      ensures Result(View(), valid, outcome) == DerivationGoals.DoTryToBuild(old(View()), options, valid, a)
    {
      if a.lockedByMe { return Ends(Scheduler.SleepForAnyGoal); }
      if !a.lockTaken { return Ends(Scheduler.SleepForAWhile); }
      validPaths := CheckValidity(valid, true);
      if |validPaths| == |drv.outputs| { return SUCCESS; }
      missingPaths := Missing();
      var failed := AnyFailed(OutputPaths(drv), a.failedPaths);
      if failed { return FAILURE; }
      outcome := DoStartBuild(valid, a);
    }

    method DoStartBuild(ghost valid: set<Path>, a: Answers) returns (outcome: Outcome)
      modifies this
      ensures Result(View(), valid, outcome) == StartBuild(old(View()), options, valid, a)
    {
      if !a.preferLocal {
        if a.hookReply.Accept? {
          viaHook, local := true, false;
          state := BuildDone;
          return Ends(Scheduler.StartChild(a.pid, false));
        }
        if a.hookReply.Postpone? { return Ends(Scheduler.SleepForAWhile); }
      }
      if a.curBuilds >= options.maxBuildJobs && !(a.preferLocal && a.curBuilds == 0) { return Ends(Scheduler.SleepForSlot); }
      if !a.builderStarted { return FAILURE; }
      local := true;
      state := BuildDone;
      return Ends(Scheduler.StartChild(a.pid, true));
    }

    method AllOutputsValid(valid: set<Path>) returns (b: bool)
      ensures b <==> OutputPaths(drv) <= valid
    {
      b := true;
      var todo := drv.outputs.Keys;
      while todo != {}
        invariant todo <= drv.outputs.Keys && (b <==> forall n :: n in drv.outputs && n !in todo ==> drv.outputs[n].path in valid)
        decreases todo
      {
        var i :| i in todo;
        todo := todo - {i};
        if drv.outputs[i].path !in valid { b := false; }
      }
      forall n | n in drv.outputs ensures drv.outputs[n].path in OutputPaths(drv) {}
    }

    method CompareRounds(valid: set<Path>, registration: OutputChecks.Verdict, infos: seq<OutputChecks.Info>) returns (reg: Registered)
      modifies this`prevInfos
      ensures reg == CompareAndRegister(old(View()), valid, registration, infos)
      ensures prevInfos == if reg.Registered? then reg.prevInfos else old(prevInfos)
    {
      if curRound > 1 && prevInfos != infos { return if |prevInfos| != |infos| then Miscounted else Refused(OutputChecks.Rejected); }
      if curRound < nrRounds {
        prevInfos := infos;
        return Registered(prevInfos, valid);
      }
      if !registration.Accepted? { return Refused(registration); }
      return Registered(prevInfos, valid + OutputChecks.InfoPaths(infos));
    }

    method DoRegisterOutputs(valid: set<Path>, a: Answers) returns (reg: Registered)
      modifies this`prevInfos
      ensures reg == RegisterOutputs(old(View()), valid, a.registration, Examined(old(View()), a))
      ensures prevInfos == if reg.Registered? then reg.prevInfos else old(prevInfos)
    {
      if viaHook {
        var allValid := AllOutputsValid(valid);
        if allValid { return Registered(prevInfos, valid); }
      }
      var examined := OutputChecks.ExamineOutputs(drv, missingPaths, a.products, a.limits);
      if examined.Stopped? { return Refused(examined.verdict); }
      reg := CompareRounds(valid, a.registration, examined.infos);
    }

    method DoBuildDone(valid: set<Path>, a: Answers) returns (outcome: Outcome, valid': set<Path>)
      modifies this
      ensures Result(View(), valid', outcome) == DerivationGoals.DoBuildDone(old(View()), valid, a)
    {
      if viaHook && local { return AssertionFails, valid; }
      if a.buildEnd.Aborted? { return Throws, valid; }
      if a.buildEnd.Broken? { return FAILURE, valid; }
      var reg := DoRegisterOutputs(valid, a);
      if reg.Refused? { return if reg.verdict.Rejected? then FAILURE else Throws, valid; }
      if reg.Miscounted? { return AssertionFails, valid; }
      assert View() == old(View()).(prevInfos := prevInfos);
      valid' := reg.valid;
      outcome := RepeatIfNecessary(valid');
    }

    method RepeatIfNecessary(ghost valid: set<Path>) returns (outcome: Outcome)
      modifies this
      ensures Result(View(), valid, outcome) == NextRound(old(View()), valid)
    {
      curRound := curRound + 1;
      if curRound - 1 < nrRounds {
        state := TryToBuild;
        return Ends(Scheduler.WakeSelf);
      }
      return SUCCESS;
    }

    /** A goal that keeps the invariant: what it was asked for is there when it succeeds. */
    method Work(valid: set<Path>, a: Answers) returns (outcome: Outcome, valid': set<Path>)
      requires Inv(View(), options, valid)
      modifies this
      ensures Result(View(), valid', outcome) == DerivationGoals.Work(old(View()), options, valid, a)
      ensures outcome == SUCCESS ==> Delivered(View(), valid')
      ensures outcome.Ends? && !outcome.cmd.Done? ==> Inv(View(), options, valid')
    {
      WorkIsSound(View(), options, valid, a);
      valid' := valid;
      match state {
        case Init => outcome := DoInit(valid, a);
        case HaveDerivation => outcome := DoHaveDerivation(valid, a, a.nrFailed);
        case OutputsSubstituted => outcome := DoOutputsSubstituted(valid, a, a.nrFailed, a.nrNoSubstituters, a.nrIncompleteClosure);
        case InputsRealised => outcome := DoInputsRealised(valid, a, a.nrFailed);
        case TryToBuild => outcome := DoTryToBuild(valid, a);
        case BuildDone => outcome, valid' := DoBuildDone(valid, a);
      }
    }
  }

  /** The check on some of the outputs only. */
  ghost function CheckedAmong(g: DrvGoal, valid: set<Path>, returnValid: bool, names: set<string>): set<Path> {
    set n | n in names && n in g.drv.outputs && WantOutput(n, g.wanted) && (g.drv.outputs[n].path in valid) == returnValid :: g.drv.outputs[n].path
  }

  lemma AlsoChecked(g: DrvGoal, valid: set<Path>, returnValid: bool, names: set<string>, n: string)
    requires n in g.drv.outputs
    ensures CheckedAmong(g, valid, returnValid, names + {n}) == CheckedAmong(g, valid, returnValid, names)
      + if WantOutput(n, g.wanted) && (g.drv.outputs[n].path in valid) == returnValid then {g.drv.outputs[n].path} else {}
  {
    var all, more := CheckedAmong(g, valid, returnValid, names + {n}), CheckedAmong(g, valid, returnValid, names);
    forall p | p in more ensures p in all {
      var m :| m in names && m in g.drv.outputs && WantOutput(m, g.wanted) && (g.drv.outputs[m].path in valid) == returnValid && g.drv.outputs[m].path == p;
      assert m in names + {n};
    }
  }

  lemma AllChecked(g: DrvGoal, valid: set<Path>, returnValid: bool)
    ensures CheckedAmong(g, valid, returnValid, g.drv.outputs.Keys) == CheckPathValidity(g, valid, returnValid)
  {
  }
}
