/** When a derivation goal succeeds, fails, throws or goes on (class DerivationGoal of
    nix/libstore/build.cc): the calls of its states from one another written out as conditions on
    the goal, the store and the answers. */
module GoalOutcomes {
  import opened ByteStrings
  import opened Derivations
  import opened DerivationGoals
  import opened Wrappers
  import BuildRounds
  import OutputChecks
  import Scheduler

  /** Every output that is wanted is valid. */
  ghost predicate AllThere(d: Derivation, wanted: set<string>, valid: set<Path>) {
    forall n :: n in d.outputs && WantOutput(n, wanted) ==> d.outputs[n].path in valid
  }

  /** A wanted output that is not valid is known to fail. */
  ghost predicate KnownToFail(d: Derivation, wanted: set<string>, o: Options, valid: set<Path>, a: Answers) {
    o.cacheFailure
    && exists n :: n in d.outputs && WantOutput(n, wanted) && d.outputs[n].path !in valid && d.outputs[n].path in a.failedPaths
  }

  predicate NoInputs(d: Derivation) {
    d.inputDrvs.Keys == {} && d.inputSrcs == {}
  }

  /** More substitutes have failed than for want of a substituter or of a closure, and the user
      does not want to build instead. */
  predicate SubstitutesFailed(o: Options, a: Answers) {
    a.nrFailed > a.nrNoSubstituters + a.nrIncompleteClosure && !o.tryFallback
  }

  lemma NoneInvalid(g: DrvGoal, valid: set<Path>)
    ensures CheckPathValidity(g, valid, false) == {} <==> AllThere(g.drv, g.wanted, valid)
  {
    if CheckPathValidity(g, valid, false) == {} {
      forall n | n in g.drv.outputs && WantOutput(n, g.wanted) ensures g.drv.outputs[n].path in valid {
        assert g.drv.outputs[n].path !in CheckPathValidity(g, valid, false);
      }
    }
  }

  lemma SomeKnown(g: DrvGoal, o: Options, valid: set<Path>, a: Answers)
    ensures (o.cacheFailure && CheckPathValidity(g, valid, false) * a.failedPaths != {}) <==> KnownToFail(g.drv, g.wanted, o, valid, a)
  {
    var invalid := CheckPathValidity(g, valid, false);
    if invalid * a.failedPaths != {} {
      var p :| p in invalid * a.failedPaths;
      var n :| n in g.drv.outputs && WantOutput(n, g.wanted) && g.drv.outputs[n].path == p;
    }
    if KnownToFail(g.drv, g.wanted, o, valid, a) {
      var n :| n in g.drv.outputs && WantOutput(n, g.wanted) && g.drv.outputs[n].path !in valid && g.drv.outputs[n].path in a.failedPaths;
      assert g.drv.outputs[n].path in invalid * a.failedPaths;
    }
  }

  /** Asking for outputs: what was wanted before and what is asked for now is wanted, and the goal
      starts again if that is more than before. */
  lemma AskedIsWanted(g: DrvGoal, outputs: set<string>, n: string)
    ensures var g' := AddWantedOutputs(g, outputs);
      (WantOutput(n, g'.wanted) <==> WantOutput(n, g.wanted) || WantOutput(n, outputs))
      && (g'.needRestart <==> g.needRestart || g'.wanted != g.wanted)
      && g' == g.(wanted := g'.wanted, needRestart := g'.needRestart, requested := g.requested + {outputs})
  {
  }

  // What a goal waits for

  ghost predicate AsksFor(keys: seq<Scheduler.Key>, drvs: set<Path>, substitutes: set<Path>) {
    forall k :: k in keys <==> if k.DerivationKey? then k.path in drvs else k.path in substitutes
  }

  lemma SubstitutionKeysAsk(paths: set<Path>)
    ensures AsksFor(SubstitutionKeys(paths), {}, paths)
  {
    var l, keys := Sorted(paths), SubstitutionKeys(paths);
    forall k ensures k in keys <==> k.SubstitutionKey? && k.path in paths {
      if k.SubstitutionKey? && k.path in paths {
        var i :| 0 <= i < |l| && l[i] == k.path;
        assert keys[i] == k;
      }
      if k in keys {
        var i :| 0 <= i < |keys| && keys[i] == k;
        assert l[i] in l;
      }
    }
  }

  lemma InputKeysAsk(d: Derivation)
    ensures AsksFor(DerivationKeys(d.inputDrvs.Keys) + SubstitutionKeys(d.inputSrcs), d.inputDrvs.Keys, d.inputSrcs)
  {
    SubstitutionKeysAsk(d.inputSrcs);
    forall p | p in d.inputDrvs.Keys ensures Scheduler.DerivationKey(p) in DerivationKeys(d.inputDrvs.Keys) { KeyForEach(d.inputDrvs.Keys, p); }
  }

  // The inputs

  /** An input derivation is missing or faulty, or the closure of a source cannot be computed. */
  ghost predicate InputsAreBad(d: Derivation, valid: set<Path>, a: Answers) {
    !(d.inputDrvs.Keys <= valid) || d.inputDrvs.Keys * a.faultyInputs != {} || !a.sourcesOk
  }

  lemma {:induction false} CheckedExactly(inputs: seq<Path>, valid: set<Path>, faulty: set<Path>)
    ensures var c := CheckInputs(inputs, valid, faulty);
      (c.InputsFine? <==> forall p :: p in inputs ==> p in valid && p !in faulty)
      && (c.InputInvalid? ==> exists p :: p in inputs && p !in valid)
      && (c.InputFaulty? ==> exists p :: p in inputs && p in faulty)
  {
    if inputs != [] {
      assert inputs == [inputs[0]] + inputs[1..];
      CheckedExactly(inputs[1..], valid, faulty);
    }
  }

  /** The build is prepared if the inputs are fine; otherwise the goal throws or, only if an input
      derivation is missing, fails an assertion. */
  ghost predicate Prepares(g: DrvGoal, o: Options, valid: set<Path>, a: Answers, r: Result) {
    if InputsAreBad(g.drv, valid, a) then
      (r.outcome == Throws || r.outcome == AssertionFails)
      && (r.outcome == Throws ==> g.drv.inputDrvs.Keys * a.faultyInputs != {} || !a.sourcesOk)
      && (r.outcome == AssertionFails ==> !(g.drv.inputDrvs.Keys <= valid))
    else r.outcome == Ends(Scheduler.WakeSelf) && r.goal.state.TryToBuild? && r.goal.nrRounds == if IsFixed(g.drv) then 1 else o.buildRepeat + 1
  }

  lemma PreparesExactly(g: DrvGoal, o: Options, valid: set<Path>, a: Answers)
    ensures Prepares(g, o, valid, a, PrepareBuild(g, o, valid, a, CheckInputs(Sorted(g.drv.inputDrvs.Keys), valid, a.faultyInputs)))
  {
    CheckedExactly(Sorted(g.drv.inputDrvs.Keys), valid, a.faultyInputs);
  }

  // The states before the build

  ghost predicate WaitsFor(r: Result, state: State, drvs: set<Path>, substitutes: set<Path>) {
    r.outcome.Ends? && r.outcome.cmd.WaitFor? && AsksFor(r.outcome.cmd.keys, drvs, substitutes) && r.goal.state == state
  }

  /** A goal looks at its derivation for the outputs `wanted`. */
  ghost predicate Looks(g: DrvGoal, wanted: set<string>, o: Options, valid: set<Path>, a: Answers, r: Result) {
    if g.drvPath !in valid then r.outcome == AssertionFails
    else if !a.readable then r.outcome == Throws
    else if AllThere(g.drv, wanted, valid) then r.outcome == SUCCESS
    else if KnownToFail(g.drv, wanted, o, valid, a) then r.outcome == FAILURE
    else if MaySubstitute(g, o) then
      WaitsFor(r, OutputsSubstituted, {}, set n | n in g.drv.outputs && WantOutput(n, wanted) && g.drv.outputs[n].path !in valid :: g.drv.outputs[n].path)
    else GoesOnToInputs(g, o, valid, a, r)
  }

  ghost predicate GoesOnToInputs(g: DrvGoal, o: Options, valid: set<Path>, a: Answers, r: Result) {
    if NoInputs(g.drv) then Prepares(g, o, valid, a, r) else WaitsFor(r, InputsRealised, g.drv.inputDrvs.Keys, g.drv.inputSrcs)
  }

  lemma WaitForInputsExactly(g: DrvGoal, o: Options, valid: set<Path>, a: Answers)
    requires RetryAllowed(g, o) && (NoInputs(g.drv) ==> !g.retrySubstitution)
    ensures GoesOnToInputs(g, o, valid, a, WaitForInputs(g, o, valid, a))
  {
    if NoInputs(g.drv) { PreparesExactly(g, o, valid, a); } else { InputKeysAsk(g.drv); }
  }

  lemma LooksWithSubstitutes(g: DrvGoal, o: Options, valid: set<Path>, a: Answers)
    requires RetryAllowed(g, o) && MaySubstitute(g, o)
    ensures Looks(g, g.wanted, o, valid, a, DoHaveDerivation(g, o, valid, a, 0))
  {
    NoneInvalid(g, valid);
    SomeKnown(g, o, valid, a);
    var invalid := CheckPathValidity(g, valid, false);
    assert invalid == set n | n in g.drv.outputs && WantOutput(n, g.wanted) && g.drv.outputs[n].path !in valid :: g.drv.outputs[n].path;
    SubstitutionKeysAsk(invalid);
  }

  /** A restart changes nothing where no substitutes are used. */
  lemma LooksWithout(g: DrvGoal, o: Options, valid: set<Path>, a: Answers)
    requires RetryAllowed(g, o) && !MaySubstitute(g, o)
    ensures Looks(g, g.wanted, o, valid, a, DoHaveDerivation(g, o, valid, a, 0))
    decreases Level(g)
  {
    NoneInvalid(g, valid);
    SomeKnown(g, o, valid, a);
    if g.drvPath in valid && a.readable && !AllThere(g.drv, g.wanted, valid) && !KnownToFail(g.drv, g.wanted, o, valid, a) {
      assert DoHaveDerivation(g, o, valid, a, 0) == DoOutputsSubstituted(g, o, valid, a, 0, 0, 0);
      assert DoOutputsSubstituted(g, o, valid, a, 0, 0, 0) == AfterSubstitution(g, o, valid, a);
      if g.needRestart {
        assert AfterSubstitution(g, o, valid, a) == DoHaveDerivation(g.(needRestart := false), o, valid, a, 0);
        LooksWithout(g.(needRestart := false), o, valid, a);
      } else {
        assert AfterSubstitution(g, o, valid, a) == WaitForInputs(g.(wanted := {}), o, valid, a);
        WaitForInputsExactly(g.(wanted := {}), o, valid, a);
      }
    }
  }

  lemma LooksExactly(g: DrvGoal, o: Options, valid: set<Path>, a: Answers)
    requires RetryAllowed(g, o)
    ensures Looks(g, g.wanted, o, valid, a, DoHaveDerivation(g, o, valid, a, 0))
  {
    if MaySubstitute(g, o) { LooksWithSubstitutes(g, o, valid, a); } else { LooksWithout(g, o, valid, a); }
  }

  ghost predicate InitEnds(g: DrvGoal, o: Options, valid: set<Path>, a: Answers, r: Result) {
    if o.readOnly then r.outcome == Throws
    else if g.drvPath !in valid then WaitsFor(r, HaveDerivation, {}, {g.drvPath})
    else if a.nrFailed > 0 then r.outcome == FAILURE
    else Looks(g, g.wanted, o, valid, a, r)
  }

  ghost predicate HaveDerivationEnds(g: DrvGoal, o: Options, valid: set<Path>, a: Answers, r: Result) {
    if a.nrFailed > 0 then r.outcome == FAILURE else Looks(g, g.wanted, o, valid, a, r)
  }

  ghost predicate OutputsSubstitutedEnds(g: DrvGoal, o: Options, valid: set<Path>, a: Answers, r: Result) {
    if SubstitutesFailed(o, a) then r.outcome == Throws
    else if g.needRestart then Looks(g, g.wanted, o, valid, a, r)
    else if AllThere(g.drv, g.wanted, valid) then r.outcome == SUCCESS
    else if NoInputs(g.drv) && (g.retrySubstitution || a.nrIncompleteClosure > 0) then Looks(g, {}, o, valid, a, r)
    else GoesOnToInputs(g, o, valid, a, r)
  }

  ghost predicate InputsRealisedEnds(g: DrvGoal, o: Options, valid: set<Path>, a: Answers, r: Result) {
    if a.nrFailed > 0 then r.outcome == FAILURE
    else if g.retrySubstitution then Looks(g, g.wanted, o, valid, a, r)
    else Prepares(g, o, valid, a, r)
  }

  lemma AfterSubstitutionExactly(g: DrvGoal, o: Options, valid: set<Path>, a: Answers)
    requires RetryAllowed(g, o)
    ensures var r := AfterSubstitution(g, o, valid, a);
      if g.needRestart then Looks(g, g.wanted, o, valid, a, r)
      else if AllThere(g.drv, g.wanted, valid) then r.outcome == SUCCESS
      else if NoInputs(g.drv) && g.retrySubstitution then Looks(g, {}, o, valid, a, r)
      else GoesOnToInputs(g, o, valid, a, r)
  {
    NoneInvalid(g, valid);
    if g.needRestart {
      assert AfterSubstitution(g, o, valid, a) == DoHaveDerivation(g.(needRestart := false), o, valid, a, 0);
      LooksExactly(g.(needRestart := false), o, valid, a);
    } else if !AllThere(g.drv, g.wanted, valid) {
      var g1 := g.(wanted := {});
      assert AfterSubstitution(g, o, valid, a) == WaitForInputs(g1, o, valid, a);
      if NoInputs(g.drv) && g.retrySubstitution {
        assert WaitForInputs(g1, o, valid, a) == DoInputsRealised(g1, o, valid, a, 0);
        assert DoInputsRealised(g1, o, valid, a, 0) == DoHaveDerivation(g1, o, valid, a, 0);
        LooksExactly(g1, o, valid, a);
      } else {
        WaitForInputsExactly(g1, o, valid, a);
      }
    }
  }

  lemma OutputsSubstitutedExactly(g: DrvGoal, o: Options, valid: set<Path>, a: Answers)
    requires Ready(g, o) && g.state.OutputsSubstituted?
    ensures OutputsSubstitutedEnds(g, o, valid, a, Work(g, o, valid, a))
  {
    if !SubstitutesFailed(o, a) {
      AfterSubstitutionExactly(if a.nrIncompleteClosure > 0 then g.(retrySubstitution := true) else g, o, valid, a);
    }
  }

  lemma InitExactly(g: DrvGoal, o: Options, valid: set<Path>, a: Answers)
    requires Ready(g, o) && g.state.Init?
    ensures InitEnds(g, o, valid, a, Work(g, o, valid, a))
  {
    if a.nrFailed == 0 { LooksExactly(g, o, valid, a); }
  }

  lemma HaveDerivationExactly(g: DrvGoal, o: Options, valid: set<Path>, a: Answers)
    requires Ready(g, o) && g.state.HaveDerivation?
    ensures HaveDerivationEnds(g, o, valid, a, Work(g, o, valid, a))
  {
    if a.nrFailed == 0 { LooksExactly(g, o, valid, a); }
  }

  lemma InputsRealisedExactly(g: DrvGoal, o: Options, valid: set<Path>, a: Answers)
    requires Ready(g, o) && g.state.InputsRealised?
    ensures InputsRealisedEnds(g, o, valid, a, Work(g, o, valid, a))
  {
    if a.nrFailed == 0 {
      if g.retrySubstitution { LooksExactly(g, o, valid, a); } else { PreparesExactly(g, o, valid, a); }
    }
  }

  // Starting the build

  /** No two outputs have the same path. */
  predicate PathsDiffer(d: Derivation) {
    forall m, n :: m in d.outputs && n in d.outputs && d.outputs[m].path == d.outputs[n].path ==> m == n
  }

  lemma {:induction false} AsManyPaths(d: Derivation, names: set<string>)
    requires names <= d.outputs.Keys && PathsDiffer(d)
    ensures |set n | n in names :: d.outputs[n].path| == |names|
    decreases |names|
  {
    if names != {} {
      var m :| m in names;
      var rest := names - {m};
      AsManyPaths(d, rest);
      assert (set n | n in names :: d.outputs[n].path) == (set n | n in rest :: d.outputs[n].path) + {d.outputs[m].path};
      assert d.outputs[m].path !in set n | n in rest :: d.outputs[n].path;
    }
  }

  lemma SharedPathCountsOnce(g: DrvGoal, valid: set<Path>, m: string, n: string)
    requires m in g.drv.outputs && n in g.drv.outputs && m != n && g.drv.outputs[m].path == g.drv.outputs[n].path
    ensures |CheckPathValidity(g, valid, true)| < |g.drv.outputs|
  {
    var paths, names := CheckPathValidity(g, valid, true), g.drv.outputs.Keys - {m};
    forall p | p in paths ensures exists x :: x in names && g.drv.outputs[x].path == p {
      var x :| x in g.drv.outputs && g.drv.outputs[x].path == p;
      if x == m { assert n in names; }
    }
    FewerPaths(g.drv, names, paths);
  }

  /** As many valid output paths as outputs: all are valid, and no two are the same. */
  lemma CountsAll(g: DrvGoal, valid: set<Path>)
    requires g.wanted == {}
    ensures |CheckPathValidity(g, valid, true)| == |g.drv.outputs| <==> AllThere(g.drv, {}, valid) && PathsDiffer(g.drv)
    ensures CheckPathValidity(g, valid, true) == OutputPaths(g.drv) * valid
  {
    var paths := CheckPathValidity(g, valid, true);
    if |paths| == |g.drv.outputs| {
      AllValid(g, valid);
      forall n | n in g.drv.outputs ensures g.drv.outputs[n].path in OutputPaths(g.drv) {}
      if m, n :| m in g.drv.outputs && n in g.drv.outputs && m != n && g.drv.outputs[m].path == g.drv.outputs[n].path {
        SharedPathCountsOnce(g, valid, m, n);
      }
    }
    if AllThere(g.drv, {}, valid) && PathsDiffer(g.drv) {
      AsManyPaths(g.drv, g.drv.outputs.Keys);
      assert paths == set n | n in g.drv.outputs.Keys :: g.drv.outputs[n].path;
    }
  }

  /** With the locks on its outputs, and outputs missing that are not known to fail: the hook is
      asked first unless the build is to be local, and a local build takes a slot. */
  ghost predicate Starts(g: DrvGoal, o: Options, a: Answers, r: Result) {
    var asksHook := !a.preferLocal && !a.hookReply.Decline?;
    var hasSlot := a.curBuilds < o.maxBuildJobs || (a.preferLocal && a.curBuilds == 0);
    (r.outcome == Ends(Scheduler.StartChild(a.pid, false)) <==> asksHook && a.hookReply.Accept?)
    && (r.outcome == Ends(Scheduler.SleepForAWhile) <==> asksHook && a.hookReply.Postpone?)
    && (r.outcome == Ends(Scheduler.SleepForSlot) <==> !asksHook && !hasSlot)
    && (r.outcome == FAILURE <==> !asksHook && hasSlot && !a.builderStarted)
    && (r.outcome == Ends(Scheduler.StartChild(a.pid, true)) <==> !asksHook && hasSlot && a.builderStarted)
    && r.outcome.Ends? && (r.outcome.cmd.StartChild? ==> r.goal.state.BuildDone? && r.goal.missingPaths == g.missingPaths)
  }

  ghost predicate TryToBuildEnds(g: DrvGoal, o: Options, valid: set<Path>, a: Answers, r: Result) {
    if a.lockedByMe then r.outcome == Ends(Scheduler.SleepForAnyGoal)
    else if !a.lockTaken then r.outcome == Ends(Scheduler.SleepForAWhile)
    else if AllThere(g.drv, {}, valid) && PathsDiffer(g.drv) then r.outcome == SUCCESS
    else if o.cacheFailure && exists n :: n in g.drv.outputs && g.drv.outputs[n].path in a.failedPaths then r.outcome == FAILURE
    else Starts(g.(missingPaths := OutputPaths(g.drv) - valid), o, a, r)
  }

  lemma StartBuildExactly(g: DrvGoal, o: Options, valid: set<Path>, a: Answers)
    ensures Starts(g, o, a, StartBuild(g, o, valid, a))
  {
  }

  lemma KnownFailing(d: Derivation, failed: set<Path>)
    ensures OutputPaths(d) * failed != {} <==> exists n :: n in d.outputs && d.outputs[n].path in failed
  {
    if p :| p in OutputPaths(d) * failed {
      assert exists n :: n in d.outputs && d.outputs[n].path == p;
    }
    if n :| n in d.outputs && d.outputs[n].path in failed {
      assert d.outputs[n].path in OutputPaths(d) * failed;
    }
  }

  lemma TryToBuildExactly(g: DrvGoal, o: Options, valid: set<Path>, a: Answers)
    requires g.wanted == {}
    ensures TryToBuildEnds(g, o, valid, a, DoTryToBuild(g, o, valid, a))
  {
    if !a.lockedByMe && a.lockTaken {
      var validPaths := CheckPathValidity(g, valid, true);
      var g2 := g.(validPaths := validPaths, missingPaths := OutputPaths(g.drv) - validPaths);
      LocksTaken(g, o, valid, a, g2);
      TakenExactly(g, o, valid, a, g2, DoTryToBuild(g, o, valid, a));
    }
  }

  lemma TakenExactly(g: DrvGoal, o: Options, valid: set<Path>, a: Answers, g2: DrvGoal, r: Result)
    requires !a.lockedByMe && a.lockTaken && g.wanted == {} && g2.validPaths == CheckPathValidity(g, valid, true)
    requires g2 == g.(validPaths := g2.validPaths, missingPaths := OutputPaths(g.drv) - g2.validPaths)
    requires if |g2.validPaths| == |g.drv.outputs| then r.outcome == SUCCESS
             else if o.cacheFailure && OutputPaths(g.drv) * a.failedPaths != {} then r.outcome == FAILURE
             else r == StartBuild(g2, o, valid, a)
    ensures TryToBuildEnds(g, o, valid, a, r)
  {
    CountsAll(g, valid);
    KnownFailing(g.drv, a.failedPaths);
    assert g2.missingPaths == OutputPaths(g.drv) - valid;
    StartBuildExactly(g2, o, valid, a);
  }

  lemma LocksTaken(g: DrvGoal, o: Options, valid: set<Path>, a: Answers, g2: DrvGoal)
    requires !a.lockedByMe && a.lockTaken && g2.validPaths == CheckPathValidity(g, valid, true)
    requires g2 == g.(validPaths := g2.validPaths, missingPaths := OutputPaths(g.drv) - g2.validPaths)
    ensures var r := DoTryToBuild(g, o, valid, a);
      if |g2.validPaths| == |g.drv.outputs| then r.outcome == SUCCESS
      else if o.cacheFailure && OutputPaths(g.drv) * a.failedPaths != {} then r.outcome == FAILURE
      else r == StartBuild(g2, o, valid, a)
  {
  }

  // The end of a build

  /** As in the round before, or there was none. */
  predicate SameAsBefore(g: DrvGoal, e: OutputChecks.Examined) {
    e.Infos? && (g.curRound > 1 ==> g.prevInfos == e.infos)
  }

  predicate LastRound(g: DrvGoal) {
    g.curRound >= g.nrRounds
  }

  /** The round is as it should be; the last one is registered. */
  predicate RoundFine(g: DrvGoal, valid: set<Path>, a: Answers, e: OutputChecks.Examined) {
    DoneByHook(g, valid) || (SameAsBefore(g, e) && (LastRound(g) ==> a.registration.Accepted?))
  }

  /** An output is rejected, the round differs from the one before, or the database refuses it. */
  predicate RoundRejected(g: DrvGoal, valid: set<Path>, a: Answers, e: OutputChecks.Examined) {
    !DoneByHook(g, valid)
    && ((e.Stopped? && e.verdict.Rejected?)
        || (e.Infos? && !SameAsBefore(g, e) && |g.prevInfos| == |e.infos|)
        || (SameAsBefore(g, e) && LastRound(g) && a.registration.Rejected?))
  }

  predicate RoundAborted(g: DrvGoal, valid: set<Path>, a: Answers, e: OutputChecks.Examined) {
    !DoneByHook(g, valid) && ((e.Stopped? && !e.verdict.Rejected?) || (SameAsBefore(g, e) && LastRound(g) && a.registration.Aborted?))
  }

  ghost predicate BuildDoneEnds(g: DrvGoal, valid: set<Path>, a: Answers, e: OutputChecks.Examined, r: Result) {
    var waited := !(g.viaHook && g.local);
    (r.outcome == FAILURE <==> waited && (a.buildEnd.Broken? || (a.buildEnd.Good? && RoundRejected(g, valid, a, e))))
    && (r.outcome == Throws <==> waited && (a.buildEnd.Aborted? || (a.buildEnd.Good? && RoundAborted(g, valid, a, e))))
    && (r.outcome == SUCCESS <==> waited && a.buildEnd.Good? && RoundFine(g, valid, a, e) && LastRound(g))
    && (r.outcome == Ends(Scheduler.WakeSelf) <==> waited && a.buildEnd.Good? && RoundFine(g, valid, a, e) && !LastRound(g))
    && (r.outcome.Ends? && r.outcome.cmd.WakeSelf? ==> r.goal.state.TryToBuild? && r.goal.curRound == g.curRound + 1)
  }

  lemma BuildDoneExactly(g: DrvGoal, valid: set<Path>, a: Answers, e: OutputChecks.Examined)
    ensures BuildDoneEnds(g, valid, a, e, EndBuild(g, valid, a, e))
  {
  }

  // Causes

  /** Why a goal may fail: a waitee has failed, an output is known to fail, the builder has not
      started, or the build was broken, its outputs rejected, or different from the last round. */
  ghost predicate HasCauseToFail(g: DrvGoal, o: Options, valid: set<Path>, a: Answers) {
    match g.state
    case TryToBuild => (o.cacheFailure && exists n :: n in g.drv.outputs && g.drv.outputs[n].path in a.failedPaths) || !a.builderStarted
    case BuildDone =>
      a.buildEnd.Broken?
      || (!DoneByHook(g, valid) && (!AllAcceptable(g, a) || (g.curRound > 1 && Examined(g, a) != OutputChecks.Infos(g.prevInfos)) || a.registration.Rejected?))
    case OutputsSubstituted => KnownToFail(g.drv, {}, o, valid, a)
    case _ => a.nrFailed > 0 || KnownToFail(g.drv, {}, o, valid, a)
  }

  /** Why a goal may throw: the store is read-only, the derivation cannot be read, substitutes have
      failed and nobody wants to build instead, inputs are faulty, or a build or its registration
      was aborted. */
  ghost predicate HasCauseToThrow(g: DrvGoal, o: Options, valid: set<Path>, a: Answers) {
    var faulty := g.drv.inputDrvs.Keys * a.faultyInputs != {} || !a.sourcesOk;
    match g.state
    case Init => o.readOnly || !a.readable || faulty
    case OutputsSubstituted => SubstitutesFailed(o, a) || !a.readable || faulty
    case TryToBuild => false
    case BuildDone => a.buildEnd.Aborted? || (!DoneByHook(g, valid) && (!AllAcceptable(g, a) || a.registration.Aborted?))
    case _ => !a.readable || faulty
  }

  lemma LooksForCause(g: DrvGoal, wanted: set<string>, o: Options, valid: set<Path>, a: Answers, r: Result)
    requires Looks(g, wanted, o, valid, a, r)
    ensures r.outcome == FAILURE ==> KnownToFail(g.drv, {}, o, valid, a)
    ensures r.outcome == Throws ==> !a.readable || g.drv.inputDrvs.Keys * a.faultyInputs != {} || !a.sourcesOk
  {
    if KnownToFail(g.drv, wanted, o, valid, a) {
      var n :| n in g.drv.outputs && WantOutput(n, wanted) && g.drv.outputs[n].path !in valid && g.drv.outputs[n].path in a.failedPaths;
      assert WantOutput(n, {});
    }
  }

  lemma WorkHasCause(g: DrvGoal, o: Options, valid: set<Path>, a: Answers)
    requires Inv(g, o, valid)
    ensures Work(g, o, valid, a).outcome == FAILURE ==> HasCauseToFail(g, o, valid, a)
    ensures Work(g, o, valid, a).outcome == Throws ==> HasCauseToThrow(g, o, valid, a)
  {
    var r := Work(g, o, valid, a);
    match g.state {
      case Init =>
        InitExactly(g, o, valid, a);
        if Looks(g, g.wanted, o, valid, a, r) { LooksForCause(g, g.wanted, o, valid, a, r); }
      case HaveDerivation =>
        HaveDerivationExactly(g, o, valid, a);
        if Looks(g, g.wanted, o, valid, a, r) { LooksForCause(g, g.wanted, o, valid, a, r); }
      case OutputsSubstituted =>
        OutputsSubstitutedExactly(g, o, valid, a);
        if Looks(g, g.wanted, o, valid, a, r) { LooksForCause(g, g.wanted, o, valid, a, r); }
        if Looks(g, {}, o, valid, a, r) { LooksForCause(g, {}, o, valid, a, r); }
      case InputsRealised =>
        InputsRealisedExactly(g, o, valid, a);
        if Looks(g, g.wanted, o, valid, a, r) { LooksForCause(g, g.wanted, o, valid, a, r); }
      case TryToBuild => TryToBuildExactly(g, o, valid, a);
      case BuildDone =>
        BuildDoneExactly(g, valid, a, Examined(g, a));
        BuildRounds.ExaminedIffAcceptable(g, a);
    }
  }

  /** Over every run: a goal fails or throws only for a cause that is in the answers. */
  lemma EndsForACause(configs: seq<Config>, o: Options, events: seq<Event>, drvPath: Path, drv: Derivation, outputs: set<string>, j: nat)
    requires Run(configs, o, events, drvPath, drv, outputs) && j < |events| && events[j].Step? && configs[j + 1].Over?
    ensures configs[j + 1].outcome == FAILURE ==> HasCauseToFail(configs[j].goal, o, configs[j].valid, events[j].a)
    ensures configs[j + 1].outcome == Throws ==> HasCauseToThrow(configs[j].goal, o, configs[j].valid, events[j].a)
  {
    assert Happens(configs[j], o, events[j], configs[j + 1]);
    RunIsFine(configs, o, events, drvPath, drv, outputs, j);
    WorkHasCause(configs[j].goal, o, configs[j].valid, events[j].a);
  }
}
