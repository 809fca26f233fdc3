/** The states of a derivation goal in normal mode (class DerivationGoal of
    nix/libstore/build.cc), from the first look at its outputs to the end of the last build
    round, with other goals asking for more outputs in between. */
module DerivationGoals {
  import opened ByteStrings
  import opened Derivations
  import Graphs
  import OutputChecks
  import Scheduler

  datatype State = Init | HaveDerivation | OutputsSubstituted | InputsRealised | TryToBuild | BuildDone

  datatype Options = Options(readOnly: bool, useSubstitutes: bool, tryFallback: bool, cacheFailure: bool,
                             buildRepeat: nat, maxBuildJobs: nat)

  /** The goal object.  `viaHook` says that a build hook has taken the build in some round,
      `local` that this process runs the present one; `prevInfos` is what the last round has
      produced; `requested` is a history variable: the sets of outputs that were asked for, the
      empty set standing for all. */
  datatype DrvGoal = DrvGoal(drvPath: Path, drv: Derivation, state: State, wanted: set<string>, needRestart: bool,
                             retrySubstitution: bool, validPaths: set<Path>, missingPaths: set<Path>,
                             curRound: nat, nrRounds: nat, prevInfos: seq<OutputChecks.Info>, viaHook: bool, local: bool,
                             requested: set<set<string>>)

  datatype HookReply = Accept | Postpone | Decline

  /** How a builder ends: in failure, with any other exception, or well. */
  datatype BuildEnd = Broken | Aborted | Good

  /** What a call of work() gets to know: the failures counted among its waitees, whether the
      inputs make sense, which outputs are known to fail, the locks, the hook, the build, what it
      has produced, which references it may have, and whether the database takes it. */
  datatype Answers = Answers(nrFailed: nat, nrNoSubstituters: nat, nrIncompleteClosure: nat, readable: bool,
                             faultyInputs: set<Path>, sourcesOk: bool,
                             failedPaths: set<Path>, lockedByMe: bool, lockTaken: bool, hookReply: HookReply,
                             preferLocal: bool, curBuilds: nat, builderStarted: bool, pid: Scheduler.Pid, buildEnd: BuildEnd,
                             products: map<Path, OutputChecks.Product>, limits: OutputChecks.Limits, registration: OutputChecks.Verdict)

  /** The end of work(): what the worker is asked to do, an exception, or a failed assertion. */
  datatype Outcome = Ends(cmd: Scheduler.Command) | Throws | AssertionFails {
    /** The goal is not called again. */
    predicate IsLast() {
      !Ends? || cmd.Done?
    }
  }

  datatype Result = Result(goal: DrvGoal, valid: set<Path>, outcome: Outcome)

  const SUCCESS := Ends(Scheduler.Done(Scheduler.Success))
  const FAILURE := Ends(Scheduler.Done(Scheduler.Failed))

  predicate WantOutput(name: string, wanted: set<string>) {
    wanted == {} || name in wanted
  }

  function OutputPaths(d: Derivation): set<Path> {
    set n | n in d.outputs :: d.outputs[n].path
  }

  /** The wanted outputs that are valid, or those that are not. */
  function CheckPathValidity(g: DrvGoal, valid: set<Path>, returnValid: bool): set<Path> {
    set n | n in g.drv.outputs && WantOutput(n, g.wanted) && (g.drv.outputs[n].path in valid) == returnValid :: g.drv.outputs[n].path
  }

  predicate SubstitutesAllowed(d: Derivation) {
    "allowSubstitutes" !in d.env || d.env["allowSubstitutes"] == "1"
  }

  predicate MaySubstitute(g: DrvGoal, o: Options) {
    o.useSubstitutes && SubstitutesAllowed(g.drv)
  }

  ghost function SubstitutionKeys(paths: set<Path>): (r: seq<Scheduler.Key>)
    ensures (r == [] <==> paths == {}) && forall k :: k in r ==> k.SubstitutionKey?
  {
    var l := Sorted(paths);
    seq(|l|, i requires 0 <= i < |l| => Scheduler.SubstitutionKey(l[i]))
  }

  ghost function DerivationKeys(paths: set<Path>): (r: seq<Scheduler.Key>)
    ensures (r == [] <==> paths == {}) && forall k :: k in r ==> k.DerivationKey? && k.path in paths
  {
    var l := Sorted(paths);
    seq(|l|, i requires 0 <= i < |l| => Scheduler.DerivationKey(l[i]))
  }

  lemma KeyForEach(paths: set<Path>, p: Path)
    requires p in paths
    ensures Scheduler.DerivationKey(p) in DerivationKeys(paths)
  {
    var l := Sorted(paths);
    var i :| 0 <= i < |l| && l[i] == p;
    assert DerivationKeys(paths)[i] == Scheduler.DerivationKey(p);
  }

  /** Another goal, or the user, asks for outputs. */
  function AddWantedOutputs(g: DrvGoal, outputs: set<string>): DrvGoal {
    var g1 := g.(requested := g.requested + {outputs});
    if g.wanted == {} then g1
    else if outputs == {} then g1.(wanted := {}, needRestart := true)
    else if outputs <= g.wanted then g1
    else g1.(wanted := g.wanted + outputs, needRestart := true)
  }

  // The states

  /** A retry of substitution is only ever wanted where substitution is allowed. */
  predicate RetryAllowed(g: DrvGoal, o: Options) {
    g.retrySubstitution ==> MaySubstitute(g, o)
  }

  function Level(g: DrvGoal): nat {
    if g.needRestart then 1 else 0
  }

  ghost function DoInit(g: DrvGoal, o: Options, valid: set<Path>, a: Answers): Result
    requires RetryAllowed(g, o)
  {
    if o.readOnly then Result(g, valid, Throws)
    else if g.drvPath in valid then DoHaveDerivation(g, o, valid, a, a.nrFailed)
    else Result(g.(state := HaveDerivation), valid, Ends(Scheduler.WaitFor([Scheduler.SubstitutionKey(g.drvPath)])))
  }

  ghost function DoHaveDerivation(g: DrvGoal, o: Options, valid: set<Path>, a: Answers, nrFailed: nat): Result
    requires RetryAllowed(g, o)
    decreases Level(g), if g.retrySubstitution then 0 else 3
  {
    var invalid := CheckPathValidity(g, valid, false);
    if nrFailed != 0 then Result(g, valid, FAILURE)
    else if g.drvPath !in valid then Result(g, valid, AssertionFails)
    else if !a.readable then Result(g, valid, Throws)
    else if invalid == {} then Result(g, valid, SUCCESS)
    else if o.cacheFailure && invalid * a.failedPaths != {} then Result(g, valid, FAILURE)
    else if MaySubstitute(g, o) then Result(g.(state := OutputsSubstituted), valid, Ends(Scheduler.WaitFor(SubstitutionKeys(invalid))))
    else DoOutputsSubstituted(g, o, valid, a, 0, 0, 0)
  }

  ghost function DoOutputsSubstituted(g: DrvGoal, o: Options, valid: set<Path>, a: Answers,
                                      nrFailed: nat, nrNoSubstituters: nat, nrIncompleteClosure: nat): Result
    requires RetryAllowed(g, o) && (nrIncompleteClosure > 0 ==> MaySubstitute(g, o))
    decreases Level(g), 2, 1
  {
    if nrFailed > 0 && nrFailed > nrNoSubstituters + nrIncompleteClosure && !o.tryFallback then Result(g, valid, Throws)
    else AfterSubstitution(if nrIncompleteClosure > 0 then g.(retrySubstitution := true) else g, o, valid, a)
  }

  ghost function AfterSubstitution(g: DrvGoal, o: Options, valid: set<Path>, a: Answers): Result
    requires RetryAllowed(g, o)
    decreases Level(g), 2, 0
  {
    if g.needRestart then DoHaveDerivation(g.(needRestart := false), o, valid, a, 0)
    else if CheckPathValidity(g, valid, false) == {} then Result(g, valid, SUCCESS)
    else WaitForInputs(g.(wanted := {}), o, valid, a)
  }

  ghost function WaitForInputs(g: DrvGoal, o: Options, valid: set<Path>, a: Answers): Result
    requires RetryAllowed(g, o)
    decreases Level(g), 1, 1
  {
    var keys := DerivationKeys(g.drv.inputDrvs.Keys) + SubstitutionKeys(g.drv.inputSrcs);
    if keys == [] then DoInputsRealised(g, o, valid, a, 0)
    else Result(g.(state := InputsRealised), valid, Ends(Scheduler.WaitFor(keys)))
  }

  datatype InputCheck = InputsFine | InputInvalid | InputFaulty

  /** The loop over the input derivations: one that is not valid fails an assertion, one that
      is faulty (it cannot be read, or its closure cannot be computed) is an exception. */
  function CheckInputs(inputs: seq<Path>, valid: set<Path>, faulty: set<Path>): InputCheck {
    if inputs == [] then InputsFine
    else if inputs[0] !in valid then InputInvalid
    else if inputs[0] in faulty then InputFaulty
    else CheckInputs(inputs[1..], valid, faulty)
  }

  predicate IsFixed(d: Derivation) {
    forall n :: n in d.outputs ==> d.outputs[n].hash != ""
  }

  function Rounds(d: Derivation, o: Options): nat {
    if IsFixed(d) then 1 else o.buildRepeat + 1
  }

  function PrepareBuild(g: DrvGoal, o: Options, valid: set<Path>, a: Answers, check: InputCheck): Result {
    if check.InputInvalid? then Result(g, valid, AssertionFails)
    else if check.InputFaulty? || !a.sourcesOk then Result(g, valid, Throws)
    else Result(g.(nrRounds := Rounds(g.drv, o), state := TryToBuild), valid, Ends(Scheduler.WakeSelf))
  }

  ghost function DoInputsRealised(g: DrvGoal, o: Options, valid: set<Path>, a: Answers, nrFailed: nat): Result
    requires RetryAllowed(g, o)
    decreases Level(g), 1, 0
  {
    if nrFailed != 0 then Result(g, valid, FAILURE)
    else if g.retrySubstitution then DoHaveDerivation(g, o, valid, a, nrFailed)
    else PrepareBuild(g, o, valid, a, CheckInputs(Sorted(g.drv.inputDrvs.Keys), valid, a.faultyInputs))
  }

  function DoTryToBuild(g: DrvGoal, o: Options, valid: set<Path>, a: Answers): Result {
    if a.lockedByMe then Result(g, valid, Ends(Scheduler.SleepForAnyGoal))
    else if !a.lockTaken then Result(g, valid, Ends(Scheduler.SleepForAWhile))
    else
      var g1 := g.(validPaths := CheckPathValidity(g, valid, true));
      if |g1.validPaths| == |g.drv.outputs| then Result(g1, valid, SUCCESS)
      else
        var g2 := g1.(missingPaths := OutputPaths(g.drv) - g1.validPaths);
        if o.cacheFailure && OutputPaths(g.drv) * a.failedPaths != {} then Result(g2, valid, FAILURE) else StartBuild(g2, o, valid, a)
  }

  /** With the locks taken: the hook builds, or this process if a slot is free. */
  function StartBuild(g: DrvGoal, o: Options, valid: set<Path>, a: Answers): Result {
    if !a.preferLocal && a.hookReply.Accept? then
      Result(g.(state := BuildDone, viaHook := true, local := false), valid, Ends(Scheduler.StartChild(a.pid, false)))
    else if !a.preferLocal && a.hookReply.Postpone? then Result(g, valid, Ends(Scheduler.SleepForAWhile))
    else if a.curBuilds >= o.maxBuildJobs && !(a.preferLocal && a.curBuilds == 0) then Result(g, valid, Ends(Scheduler.SleepForSlot))
    else if !a.builderStarted then Result(g, valid, FAILURE)
    else Result(g.(state := BuildDone, local := true), valid, Ends(Scheduler.StartChild(a.pid, true)))
  }

  /** What the build has produced. */
  ghost function Examined(g: DrvGoal, a: Answers): OutputChecks.Examined {
    OutputChecks.Examine(g.drv, g.missingPaths, a.products, a.limits, Sorted(g.drv.outputs.Keys))
  }

  /** How registerOutputs() ends: by an exception, by the failed assertion that there are as
      many infos as in the last round, or with the infos to compare the next round with and
      what is valid then. */
  datatype Registered = Refused(verdict: OutputChecks.Verdict) | Miscounted | Registered(prevInfos: seq<OutputChecks.Info>, valid: set<Path>)

  /** The hook has registered the outputs itself. */
  predicate DoneByHook(g: DrvGoal, valid: set<Path>) {
    g.viaHook && OutputPaths(g.drv) <= valid
  }

  /** After all outputs have been accepted.  A round that differs from the one before is an
      error of the build, unless it differs in the number of outputs: that fails an assertion. */
  function CompareAndRegister(g: DrvGoal, valid: set<Path>, registration: OutputChecks.Verdict, infos: seq<OutputChecks.Info>): Registered {
    if g.curRound > 1 && g.prevInfos != infos then
      if |g.prevInfos| == |infos| then Refused(OutputChecks.Rejected) else Miscounted
    else if g.curRound < g.nrRounds then Registered(infos, valid)
    else if !registration.Accepted? then Refused(registration)
    else Registered(g.prevInfos, valid + OutputChecks.InfoPaths(infos))
  }

  function RegisterOutputs(g: DrvGoal, valid: set<Path>, registration: OutputChecks.Verdict, r: OutputChecks.Examined): Registered {
    if DoneByHook(g, valid) then Registered(g.prevInfos, valid)
    else if r.Stopped? then Refused(r.verdict)
    else CompareAndRegister(g, valid, registration, r.infos)
  }

  function NextRound(g: DrvGoal, valid: set<Path>): Result {
    var g1 := g.(curRound := g.curRound + 1);
    if g.curRound < g.nrRounds then Result(g1.(state := TryToBuild), valid, Ends(Scheduler.WakeSelf)) else Result(g1, valid, SUCCESS)
  }

  function AfterRegistering(g: DrvGoal, valid: set<Path>, r: Registered): Result {
    if r.Refused? then Result(g, valid, if r.verdict.Rejected? then FAILURE else Throws)
    else if r.Miscounted? then Result(g, valid, AssertionFails)
    else NextRound(g.(prevInfos := r.prevInfos), r.valid)
  }

  /** A build that has produced `r`.  A local build after one by the hook waits for the hook
      again, and fails an assertion. */
  function EndBuild(g: DrvGoal, valid: set<Path>, a: Answers, r: OutputChecks.Examined): Result {
    if g.viaHook && g.local then Result(g, valid, AssertionFails)
    else if a.buildEnd.Aborted? then Result(g, valid, Throws)
    else if a.buildEnd.Broken? then Result(g, valid, FAILURE)
    else AfterRegistering(g, valid, RegisterOutputs(g, valid, a.registration, r))
  }

  ghost function DoBuildDone(g: DrvGoal, valid: set<Path>, a: Answers): Result {
    EndBuild(g, valid, a, Examined(g, a))
  }

  /** Needed for work() to return at all; it always holds. */
  predicate Ready(g: DrvGoal, o: Options) {
    RetryAllowed(g, o) && (g.state.OutputsSubstituted? ==> MaySubstitute(g, o))
  }

  ghost function Work(g: DrvGoal, o: Options, valid: set<Path>, a: Answers): Result
    requires Ready(g, o)
  {
    match g.state
    case Init => DoInit(g, o, valid, a)
    case HaveDerivation => DoHaveDerivation(g, o, valid, a, a.nrFailed)
    case OutputsSubstituted => DoOutputsSubstituted(g, o, valid, a, a.nrFailed, a.nrNoSubstituters, a.nrIncompleteClosure)
    case InputsRealised => DoInputsRealised(g, o, valid, a, a.nrFailed)
    case TryToBuild => DoTryToBuild(g, o, valid, a)
    case BuildDone => DoBuildDone(g, valid, a)
  }

  // What every step keeps

  /** All that was asked for is wanted. */
  ghost predicate Covered(g: DrvGoal) {
    g.wanted == {} || forall r :: r in g.requested ==> r != {} && r <= g.wanted
  }

  ghost predicate Inv(g: DrvGoal, o: Options, valid: set<Path>) {
    Covered(g) && Ready(g, o) && g.drvPath !in g.drv.inputDrvs && g.curRound >= 1
    && (g.state.InputsRealised? || g.state.TryToBuild? || g.state.BuildDone? ==> g.wanted == {})
    && (g.state.BuildDone? ==> OutputPaths(g.drv) <= valid + g.missingPaths)
  }

  /** Every output that anybody asked for is valid. */
  ghost predicate Delivered(g: DrvGoal, valid: set<Path>) {
    forall r, n :: r in g.requested && n in g.drv.outputs && WantOutput(n, r) ==> g.drv.outputs[n].path in valid
  }

  ghost predicate Unchanged(g: DrvGoal, g': DrvGoal) {
    g'.drvPath == g.drvPath && g'.drv == g.drv && g'.requested == g.requested
  }

  lemma NothingInvalid(g: DrvGoal, valid: set<Path>)
    requires Covered(g) && CheckPathValidity(g, valid, false) == {}
    ensures Delivered(g, valid)
  {
    forall r, n | r in g.requested && n in g.drv.outputs && WantOutput(n, r) ensures g.drv.outputs[n].path in valid {
      assert WantOutput(n, g.wanted);
      assert g.drv.outputs[n].path !in CheckPathValidity(g, valid, false);
    }
  }

  /** What the scheduler expects of a command: a final result, somebody else to wait for, a
      slot that is free.  The goal has a child exactly while it waits for a build to end. */
  ghost predicate Proper(g: DrvGoal, o: Options, a: Answers, g': DrvGoal, cmd: Scheduler.Command) {
    match cmd
    case Done(result) => result.Success? || result.Failed?
    case WaitFor(keys) => keys != [] && Scheduler.DerivationKey(g.drvPath) !in keys && !g'.state.BuildDone?
    case StartChild(pid, slot) => pid == a.pid && (slot ==> a.curBuilds < o.maxBuildJobs || a.curBuilds == 0) && g'.state.BuildDone?
    case _ => !g'.state.BuildDone?
  }

  /** What the build has produced for the outputs that were missing is acceptable. */
  ghost predicate AllAcceptable(g: DrvGoal, a: Answers) {
    forall n :: n in g.drv.outputs && g.drv.outputs[n].path in g.missingPaths ==>
      OutputChecks.Acceptable(g.drv.outputs[n], OutputChecks.Find(a.products, g.drv.outputs[n].path), a.limits)
  }

  /** A build has made the missing outputs valid. */
  ghost predicate Gained(g: DrvGoal, valid: set<Path>, a: Answers, valid': set<Path>) {
    g.state.BuildDone? && valid' == valid + OutputPaths(g.drv) * g.missingPaths && AllAcceptable(g, a)
  }

  /** Before the first build. */
  predicate IsEarly(s: State) {
    !s.TryToBuild? && !s.BuildDone?
  }

  /** The goals that a goal asks for and expects to be there when it goes on: its own file, or
      its inputs. */
  ghost predicate Expects(g: DrvGoal, k: Scheduler.Key) {
    (g.state.HaveDerivation? && k == Scheduler.SubstitutionKey(g.drvPath))
    || (g.state.InputsRealised? && k.DerivationKey? && k.path in g.drv.inputDrvs)
  }

  /** Before the first build nothing is known about rounds, a goal waits for what it expects,
      and only an invalid derivation fails an assertion. */
  ghost predicate EarlySound(g: DrvGoal, o: Options, valid: set<Path>, r: Result) {
    r.goal.curRound == g.curRound && r.goal.prevInfos == g.prevInfos && r.goal.viaHook == g.viaHook && r.goal.local == g.local
    && (r.outcome == AssertionFails ==> g.drvPath !in valid || (g.state.InputsRealised? && !(g.drv.inputDrvs.Keys <= valid)))
    && (!r.outcome.IsLast() ==>
          if r.outcome.cmd.WaitFor? then IsEarly(r.goal.state) && forall k :: Expects(r.goal, k) ==> k in r.outcome.cmd.keys
          else r.goal.state.TryToBuild? && r.goal.nrRounds == Rounds(g.drv, o))
  }

  /** What a finished step has to satisfy. */
  ghost predicate Sound(g: DrvGoal, o: Options, valid: set<Path>, a: Answers, r: Result) {
    Unchanged(g, r.goal) && (IsEarly(g.state) ==> EarlySound(g, o, valid, r)) && (r.valid == valid || Gained(g, valid, a, r.valid))
    && (r.outcome == SUCCESS ==> Delivered(r.goal, r.valid))
    && (r.outcome.Ends? ==> Proper(g, o, a, r.goal, r.outcome.cmd))
    && (r.outcome.Ends? && !r.outcome.cmd.Done? ==> Inv(r.goal, o, r.valid))
  }

  /** The goal ends here. */
  lemma EndingSound(g: DrvGoal, o: Options, valid: set<Path>, a: Answers, outcome: Outcome)
    requires outcome == Throws || outcome == FAILURE || (outcome == AssertionFails && g.drvPath !in valid)
             || (outcome == SUCCESS && Delivered(g, valid))
    ensures Sound(g, o, valid, a, Result(g, valid, outcome))
  {
  }

  lemma SubstitutesSound(g: DrvGoal, o: Options, valid: set<Path>, a: Answers, invalid: set<Path>)
    requires Covered(g) && RetryAllowed(g, o) && g.drvPath !in g.drv.inputDrvs && g.curRound >= 1 && MaySubstitute(g, o) && invalid != {}
    ensures Sound(g, o, valid, a, Result(g.(state := OutputsSubstituted), valid, Ends(Scheduler.WaitFor(SubstitutionKeys(invalid)))))
  {
  }

  lemma {:induction false} HaveDerivationSound(g: DrvGoal, o: Options, valid: set<Path>, a: Answers, nrFailed: nat)
    requires Covered(g) && RetryAllowed(g, o) && g.drvPath !in g.drv.inputDrvs && g.curRound >= 1
    ensures Sound(g, o, valid, a, DoHaveDerivation(g, o, valid, a, nrFailed))
    decreases Level(g), if g.retrySubstitution then 0 else 3
  {
    var invalid := CheckPathValidity(g, valid, false);
    if nrFailed != 0 {
      EndingSound(g, o, valid, a, FAILURE);
    } else if g.drvPath !in valid {
      EndingSound(g, o, valid, a, AssertionFails);
    } else if !a.readable {
      EndingSound(g, o, valid, a, Throws);
    } else if invalid == {} {
      NothingInvalid(g, valid);
      EndingSound(g, o, valid, a, SUCCESS);
    } else if o.cacheFailure && invalid * a.failedPaths != {} {
      EndingSound(g, o, valid, a, FAILURE);
    } else if MaySubstitute(g, o) {
      SubstitutesSound(g, o, valid, a, invalid);
    } else {
      OutputsSubstitutedSound(g, o, valid, a, 0, 0, 0);
    }
  }

  lemma {:induction false} OutputsSubstitutedSound(g: DrvGoal, o: Options, valid: set<Path>, a: Answers,
                                                   nrFailed: nat, nrNoSubstituters: nat, nrIncompleteClosure: nat)
    requires Covered(g) && RetryAllowed(g, o) && g.drvPath !in g.drv.inputDrvs && g.curRound >= 1 && (nrIncompleteClosure > 0 ==> MaySubstitute(g, o))
    ensures Sound(g, o, valid, a, DoOutputsSubstituted(g, o, valid, a, nrFailed, nrNoSubstituters, nrIncompleteClosure))
    decreases Level(g), 2, 1
  {
    AfterSubstitutionSound(if nrIncompleteClosure > 0 then g.(retrySubstitution := true) else g, o, valid, a);
  }

  lemma {:induction false} AfterSubstitutionSound(g: DrvGoal, o: Options, valid: set<Path>, a: Answers)
    requires Covered(g) && RetryAllowed(g, o) && g.drvPath !in g.drv.inputDrvs && g.curRound >= 1
    ensures Sound(g, o, valid, a, AfterSubstitution(g, o, valid, a))
    decreases Level(g), 2, 0
  {
    if g.needRestart {
      HaveDerivationSound(g.(needRestart := false), o, valid, a, 0);
    } else if CheckPathValidity(g, valid, false) == {} {
      NothingInvalid(g, valid);
    } else {
      WaitForInputsSound(g.(wanted := {}), o, valid, a);
    }
  }

  lemma InputsAwaited(g: DrvGoal)
    ensures forall p :: p in g.drv.inputDrvs ==> Scheduler.DerivationKey(p) in DerivationKeys(g.drv.inputDrvs.Keys)
  {
    forall p | p in g.drv.inputDrvs ensures Scheduler.DerivationKey(p) in DerivationKeys(g.drv.inputDrvs.Keys) {
      KeyForEach(g.drv.inputDrvs.Keys, p);
    }
  }

  lemma WaitsForInputsSound(g: DrvGoal, o: Options, valid: set<Path>, a: Answers)
    requires Covered(g) && RetryAllowed(g, o) && g.drvPath !in g.drv.inputDrvs && g.curRound >= 1 && g.wanted == {}
    requires g.drv.inputDrvs.Keys != {} || g.drv.inputSrcs != {}
    ensures Sound(g, o, valid, a, WaitForInputs(g, o, valid, a))
  {
    InputsAwaited(g);
  }

  lemma {:induction false} WaitForInputsSound(g: DrvGoal, o: Options, valid: set<Path>, a: Answers)
    requires Covered(g) && RetryAllowed(g, o) && g.drvPath !in g.drv.inputDrvs && g.curRound >= 1 && g.wanted == {}
    ensures Sound(g, o, valid, a, WaitForInputs(g, o, valid, a))
    decreases Level(g), 1, 1
  {
    if g.drv.inputDrvs.Keys == {} && g.drv.inputSrcs == {} {
      InputsRealisedSound(g, o, valid, a, 0);
    } else {
      WaitsForInputsSound(g, o, valid, a);
    }
  }

  lemma {:induction false} InputsChecked(inputs: seq<Path>, valid: set<Path>, faulty: set<Path>)
    ensures CheckInputs(inputs, valid, faulty).InputInvalid? ==> exists p :: p in inputs && p !in valid
  {
    if inputs != [] { InputsChecked(inputs[1..], valid, faulty); }
  }

  lemma PrepareBuildSound(g: DrvGoal, o: Options, valid: set<Path>, a: Answers, check: InputCheck)
    requires Covered(g) && RetryAllowed(g, o) && g.drvPath !in g.drv.inputDrvs && g.curRound >= 1 && g.wanted == {} && !g.retrySubstitution
    requires check.InputInvalid? ==> g.state.InputsRealised? && !(g.drv.inputDrvs.Keys <= valid)
    ensures Sound(g, o, valid, a, PrepareBuild(g, o, valid, a, check))
  {
  }

  lemma {:induction false} InputsRealisedSound(g: DrvGoal, o: Options, valid: set<Path>, a: Answers, nrFailed: nat)
    requires Covered(g) && RetryAllowed(g, o) && g.drvPath !in g.drv.inputDrvs && g.curRound >= 1 && g.wanted == {}
    requires g.state.InputsRealised? || g.drv.inputDrvs.Keys == {}
    ensures Sound(g, o, valid, a, DoInputsRealised(g, o, valid, a, nrFailed))
    decreases Level(g), 1, 0
  {
    if nrFailed != 0 {
      EndingSound(g, o, valid, a, FAILURE);
    } else if g.retrySubstitution {
      HaveDerivationSound(g, o, valid, a, nrFailed);
    } else {
      var inputs := Sorted(g.drv.inputDrvs.Keys);
      InputsChecked(inputs, valid, a.faultyInputs);
      PrepareBuildSound(g, o, valid, a, CheckInputs(inputs, valid, a.faultyInputs));
    }
  }

  /** As many valid output paths as outputs: all are valid. */
  lemma AllValid(g: DrvGoal, valid: set<Path>)
    requires |CheckPathValidity(g, valid, true)| == |g.drv.outputs|
    ensures OutputPaths(g.drv) <= valid
  {
    var names := set n | n in g.drv.outputs && g.drv.outputs[n].path in valid;
    forall n | n in g.drv.outputs ensures g.drv.outputs[n].path in valid {
      if n !in names {
        FewerPaths(g.drv, names, CheckPathValidity(g, valid, true));
        Graphs.SmallerSet(names, g.drv.outputs.Keys, n);
      }
    }
  }

  lemma {:induction false} FewerPaths(d: Derivation, names: set<string>, paths: set<Path>)
    requires names <= d.outputs.Keys && forall p :: p in paths ==> exists n :: n in names && d.outputs[n].path == p
    ensures |paths| <= |names|
    decreases |paths|
  {
    if paths != {} {
      var p :| p in paths;
      var n :| n in names && d.outputs[n].path == p;
      forall q | q in paths - {p} ensures exists m :: m in names - {n} && d.outputs[m].path == q {
        var m :| m in names && d.outputs[m].path == q;
      }
      FewerPaths(d, names - {n}, paths - {p});
    }
  }

  lemma StartBuildSound(g: DrvGoal, o: Options, valid: set<Path>, a: Answers)
    requires Inv(g, o, valid) && g.state.TryToBuild? && OutputPaths(g.drv) <= valid + g.missingPaths
    ensures Sound(g, o, valid, a, StartBuild(g, o, valid, a))
  {
  }

  lemma TryToBuildSound(g: DrvGoal, o: Options, valid: set<Path>, a: Answers)
    requires Inv(g, o, valid) && g.state.TryToBuild?
    ensures Sound(g, o, valid, a, DoTryToBuild(g, o, valid, a))
  {
    var validPaths := CheckPathValidity(g, valid, true);
    if |validPaths| == |g.drv.outputs| {
      AllValid(g, valid);
      forall n | n in g.drv.outputs ensures g.drv.outputs[n].path in OutputPaths(g.drv) {}
    } else {
      StartBuildSound(g.(validPaths := validPaths, missingPaths := OutputPaths(g.drv) - validPaths), o, valid, a);
    }
  }

  /** If looking at the outputs has ended well, they are acceptable and all are recorded. */
  ghost predicate Judged(g: DrvGoal, a: Answers, r: OutputChecks.Examined) {
    r.Infos? ==> AllAcceptable(g, a) && OutputChecks.InfoPaths(r.infos) == OutputPaths(g.drv) * g.missingPaths
  }

  lemma ExaminedIsJudged(g: DrvGoal, a: Answers)
    ensures Judged(g, a, Examined(g, a))
  {
    if Examined(g, a).Infos? {
      var names := Sorted(g.drv.outputs.Keys);
      OutputChecks.ExamineRecords(g.drv, g.missingPaths, a.products, a.limits, names);
      OutputChecks.RecordedPaths(g.drv, g.missingPaths, a.products, a.limits, names);
      MissingOutputs(g, names);
    }
  }

  /** A build that is not refused makes every output valid that was missing, once the last
      round is over, and nothing else; each of them is acceptable. */
  lemma RegisteredIsAcceptable(g: DrvGoal, valid: set<Path>, a: Answers)
    requires RegisterOutputs(g, valid, a.registration, Examined(g, a)).Registered? && !DoneByHook(g, valid)
    ensures RegisterOutputs(g, valid, a.registration, Examined(g, a)).valid
         == if g.curRound < g.nrRounds then valid else valid + OutputPaths(g.drv) * g.missingPaths
    ensures AllAcceptable(g, a)
  {
    ExaminedIsJudged(g, a);
  }

  lemma MissingOutputs(g: DrvGoal, names: seq<string>)
    requires forall n :: n in names <==> n in g.drv.outputs
    ensures (set n | n in names && g.drv.outputs[n].path in g.missingPaths :: g.drv.outputs[n].path) == OutputPaths(g.drv) * g.missingPaths
  {
    forall p | p in OutputPaths(g.drv) * g.missingPaths
      ensures p in set n | n in names && g.drv.outputs[n].path in g.missingPaths :: g.drv.outputs[n].path
    {
      var n :| n in g.drv.outputs && g.drv.outputs[n].path == p;
      assert n in names;
    }
  }

  lemma AllDelivered(g: DrvGoal, valid: set<Path>)
    requires OutputPaths(g.drv) <= valid
    ensures Delivered(g, valid)
  {
    forall n | n in g.drv.outputs ensures g.drv.outputs[n].path in OutputPaths(g.drv) {}
  }

  /** What a round leaves valid, seen from how its outputs were registered. */
  ghost predicate Gains(g: DrvGoal, valid: set<Path>, a: Answers, valid': set<Path>, done: bool) {
    (valid' == valid || Gained(g, valid, a, valid')) && (done ==> OutputPaths(g.drv) <= valid')
  }

  lemma RegisteringGains(g: DrvGoal, valid: set<Path>, a: Answers, r: OutputChecks.Examined)
    requires g.state.BuildDone? && Judged(g, a, r) && OutputPaths(g.drv) <= valid + g.missingPaths
    ensures var reg := RegisterOutputs(g, valid, a.registration, r);
      reg.Registered? ==> Gains(g, valid, a, reg.valid, g.curRound >= g.nrRounds)
  {
  }

  lemma EndBuildGains(g: DrvGoal, valid: set<Path>, a: Answers, r: OutputChecks.Examined)
    requires g.state.BuildDone? && Judged(g, a, r) && OutputPaths(g.drv) <= valid + g.missingPaths
    ensures var e := EndBuild(g, valid, a, r); Gains(g, valid, a, e.valid, e.outcome == SUCCESS) && e.goal.drv == g.drv
  {
    RegisteringGains(g, valid, a, r);
  }

  /** How a round can end, apart from what becomes valid. */
  lemma EndBuildEnds(g: DrvGoal, o: Options, valid: set<Path>, a: Answers, r: OutputChecks.Examined)
    requires Inv(g, o, valid) && g.state.BuildDone?
    ensures var e := EndBuild(g, valid, a, r);
      Unchanged(g, e.goal)
      && (e.outcome == Throws || e.outcome == AssertionFails || e.outcome == FAILURE || e.outcome == SUCCESS
          || (e.outcome == Ends(Scheduler.WakeSelf) && e.goal.state.TryToBuild? && Inv(e.goal, o, e.valid)))
  {
  }

  lemma EndBuildSound(g: DrvGoal, o: Options, valid: set<Path>, a: Answers, r: OutputChecks.Examined)
    requires Inv(g, o, valid) && g.state.BuildDone? && Judged(g, a, r)
    ensures Sound(g, o, valid, a, EndBuild(g, valid, a, r))
  {
    EndBuildEnds(g, o, valid, a, r);
    EndBuildGains(g, valid, a, r);
    var e := EndBuild(g, valid, a, r);
    if e.outcome == SUCCESS { AllDelivered(e.goal, e.valid); }
  }

  lemma BuildDoneSound(g: DrvGoal, o: Options, valid: set<Path>, a: Answers)
    requires Inv(g, o, valid) && g.state.BuildDone?
    ensures Sound(g, o, valid, a, DoBuildDone(g, valid, a))
  {
    ExaminedIsJudged(g, a);
    EndBuildSound(g, o, valid, a, Examined(g, a));
  }

  /** Every call of work() keeps the invariant, makes nothing valid but acceptable outputs that
      were missing, and ends in success only when all that was asked for is there. */
  lemma WorkIsSound(g: DrvGoal, o: Options, valid: set<Path>, a: Answers)
    requires Inv(g, o, valid)
    ensures Sound(g, o, valid, a, Work(g, o, valid, a))
  {
    match g.state {
      case Init => HaveDerivationSound(g, o, valid, a, a.nrFailed);
      case HaveDerivation => HaveDerivationSound(g, o, valid, a, a.nrFailed);
      case OutputsSubstituted => OutputsSubstitutedSound(g, o, valid, a, a.nrFailed, a.nrNoSubstituters, a.nrIncompleteClosure);
      case InputsRealised => InputsRealisedSound(g, o, valid, a, a.nrFailed);
      case TryToBuild => TryToBuildSound(g, o, valid, a);
      case BuildDone => BuildDoneSound(g, o, valid, a);
    }
  }

  /** The scheduler can carry out whatever work() asks for. */
  lemma WorkIsLegal(g: DrvGoal, o: Options, valid: set<Path>, a: Answers, w: Scheduler.World, s: Scheduler.Settings, id: Scheduler.GoalId)
    requires Inv(g, o, valid) && id in w.goals && w.goals[id].key == Scheduler.DerivationKey(g.drvPath)
    requires a.curBuilds == w.nrLocalBuilds && a.pid !in w.children && o.maxBuildJobs == s.maxBuildJobs
    ensures var r := Work(g, o, valid, a); r.outcome.Ends? ==> Scheduler.LegalCommand(w, s, id, r.outcome.cmd)
  {
    WorkIsSound(g, o, valid, a);
  }

  // Runs

  datatype Event =
    | Ask(outputs: set<string>)      // addWantedOutputs()
    | Change(valid: set<Path>)       // the store changes behind the goal's back
    | Step(a: Answers)               // work()

  datatype Config = Running(goal: DrvGoal, valid: set<Path>) | Over(goal: DrvGoal, valid: set<Path>, outcome: Outcome)

  function New(drvPath: Path, drv: Derivation, outputs: set<string>): DrvGoal {
    DrvGoal(drvPath, drv, Init, outputs, false, false, {}, {}, 1, 1, [], false, false, {outputs})
  }

  /** The outputs are temporary roots while the goal builds: none of them becomes invalid. */
  ghost predicate Happens(c: Config, o: Options, e: Event, c': Config) {
    c.Running?
    && match e
       case Ask(outputs) => c' == Running(AddWantedOutputs(c.goal, outputs), c.valid)
       case Change(valid) => c' == Running(c.goal, valid) && (c.goal.state.BuildDone? ==> OutputPaths(c.goal.drv) * c.valid <= valid)
       case Step(a) =>
         Ready(c.goal, o)
         && var r := Work(c.goal, o, c.valid, a);
            c' == if r.outcome.IsLast() then Over(r.goal, r.valid, r.outcome) else Running(r.goal, r.valid)
  }

  ghost predicate Run(configs: seq<Config>, o: Options, events: seq<Event>, drvPath: Path, drv: Derivation, outputs: set<string>) {
    |configs| == |events| + 1 && drvPath !in drv.inputDrvs
    && configs[0].Running? && configs[0].goal == New(drvPath, drv, outputs)
    && forall i {:trigger events[i]} :: 0 <= i < |events| ==> Happens(configs[i], o, events[i], configs[i + 1])
  }

  /** At every moment of a run. */
  ghost predicate Fine(c: Config, o: Options, drv: Derivation) {
    c.goal.drv == drv && (if c.Running? then Inv(c.goal, o, c.valid) else c.outcome == SUCCESS ==> Delivered(c.goal, c.valid))
  }

  lemma EventIsFine(c: Config, o: Options, e: Event, c': Config, drv: Derivation)
    requires c.Running? && Fine(c, o, drv) && Happens(c, o, e, c')
    ensures Fine(c', o, drv) && c.goal.requested <= c'.goal.requested && (e.Ask? ==> e.outputs in c'.goal.requested)
  {
    match e {
      case Ask(outputs) =>
      case Change(valid) =>
      case Step(a) => WorkIsSound(c.goal, o, c.valid, a);
    }
  }

  lemma NewIsFine(valid: set<Path>, o: Options, drvPath: Path, drv: Derivation, outputs: set<string>)
    requires drvPath !in drv.inputDrvs
    ensures Fine(Running(New(drvPath, drv, outputs), valid), o, drv) && outputs in New(drvPath, drv, outputs).requested
  {
  }

  lemma NextIsFine(configs: seq<Config>, o: Options, events: seq<Event>, drvPath: Path, drv: Derivation, outputs: set<string>, n: nat)
    requires Run(configs, o, events, drvPath, drv, outputs) && 0 < n < |configs| && Fine(configs[n - 1], o, drv)
    ensures Fine(configs[n], o, drv) && configs[n - 1].goal.requested <= configs[n].goal.requested
    ensures events[n - 1].Ask? ==> events[n - 1].outputs in configs[n].goal.requested
  {
    assert Happens(configs[n - 1], o, events[n - 1], configs[n]);
    EventIsFine(configs[n - 1], o, events[n - 1], configs[n], drv);
  }

  lemma {:induction false} RunIsFine(configs: seq<Config>, o: Options, events: seq<Event>, drvPath: Path, drv: Derivation, outputs: set<string>, n: nat)
    requires Run(configs, o, events, drvPath, drv, outputs) && n < |configs|
    ensures Fine(configs[n], o, drv) && outputs in configs[n].goal.requested
    ensures forall i :: 0 <= i < n && events[i].Ask? ==> events[i].outputs in configs[n].goal.requested
  {
    if n == 0 {
      NewIsFine(configs[0].valid, o, drvPath, drv, outputs);
    } else {
      RunIsFine(configs, o, events, drvPath, drv, outputs, n - 1);
      NextIsFine(configs, o, events, drvPath, drv, outputs, n);
    }
  }

  /** Over every run: when the goal ends in success, every output that it was made for, or
      that was asked for at any time since, is valid. */
  lemma RequestedIsDelivered(configs: seq<Config>, o: Options, events: seq<Event>, drvPath: Path, drv: Derivation, outputs: set<string>,
                             asked: set<string>, name: string)
    requires Run(configs, o, events, drvPath, drv, outputs)
    requires configs[|events|].Over? && configs[|events|].outcome == SUCCESS
    requires asked == outputs || exists i :: 0 <= i < |events| && events[i] == Ask(asked)
    requires name in drv.outputs && WantOutput(name, asked)
    ensures drv.outputs[name].path in configs[|events|].valid
  {
    RunIsFine(configs, o, events, drvPath, drv, outputs, |events|);
  }
}
