/** The rounds of a build (DerivationGoal::tryToBuild, buildDone and registerOutputs of
    nix/libstore/build.cc): all produce the same, and when the assertions fail that buildDone
    runs into. */
module BuildRounds {
  import opened ByteStrings
  import opened Derivations
  import opened DerivationGoals
  import OutputChecks
  import Scheduler

  /** The hook takes the build. */
  predicate ByHook(a: Answers) {
    !a.preferLocal && a.hookReply.Accept?
  }

  /** From `g` to `g'` nothing has happened to the rounds, or a build has been started. */
  predicate Tried(g: DrvGoal, a: Answers, g': DrvGoal) {
    g'.curRound == g.curRound && g'.prevInfos == g.prevInfos && g'.nrRounds == g.nrRounds && g'.drv == g.drv
    && (if g'.state.BuildDone? then (if ByHook(a) then g'.viaHook && !g'.local else g'.viaHook == g.viaHook && g'.local)
        else g'.state == g.state && g'.viaHook == g.viaHook && g'.local == g.local)
  }

  lemma StartBuildTried(g: DrvGoal, o: Options, valid: set<Path>, a: Answers)
    requires g.state.TryToBuild?
    ensures Tried(g, a, StartBuild(g, o, valid, a).goal)
  {
  }

  lemma TryToBuildTried(g: DrvGoal, o: Options, valid: set<Path>, a: Answers)
    requires g.state.TryToBuild?
    ensures Tried(g, a, DoTryToBuild(g, o, valid, a).goal)
  {
    var validPaths := CheckPathValidity(g, valid, true);
    StartBuildTried(g.(validPaths := validPaths, missingPaths := OutputPaths(g.drv) - validPaths), o, valid, a);
  }

  // What the rounds produce

  predicate EndsWell(g: DrvGoal, valid: set<Path>, a: Answers, r: OutputChecks.Examined) {
    EndBuild(g, valid, a, r).outcome.Ends? && EndBuild(g, valid, a, r).outcome != FAILURE
  }

  /** Step `i` ends a round that this goal has looked at, and ends it well. */
  ghost predicate EndsRound(configs: seq<Config>, o: Options, events: seq<Event>, i: nat)
    requires i < |events| < |configs|
  {
    events[i].Step? && configs[i].Running? && configs[i].goal.state.BuildDone? && !DoneByHook(configs[i].goal, configs[i].valid)
    && EndsWell(configs[i].goal, configs[i].valid, events[i].a, Examined(configs[i].goal, events[i].a))
  }

  /** What the build that step `i` looks at has produced. */
  ghost function RoundInfos(configs: seq<Config>, events: seq<Event>, i: nat): (r: seq<OutputChecks.Info>)
    requires i < |events| < |configs| && events[i].Step?
  {
    var r := Examined(configs[i].goal, events[i].a);
    if r.Infos? then r.infos else []
  }

  /** Between rounds the infos of the first are remembered. */
  predicate Between(g: DrvGoal, infos: seq<OutputChecks.Info>) {
    (g.state.TryToBuild? || g.state.BuildDone?) && g.curRound > 1 && g.prevInfos == infos
  }

  predicate Remembers(c: Config, infos: seq<OutputChecks.Info>) {
    c.Running? ==> Between(c.goal, infos)
  }

  lemma EndBuildRemembers(g: DrvGoal, valid: set<Path>, a: Answers, r: OutputChecks.Examined, infos: seq<OutputChecks.Info>)
    requires g.state.BuildDone? && Between(g, infos)
    ensures Between(EndBuild(g, valid, a, r).goal, infos)
  {
  }

  lemma FirstRoundRemembers(g: DrvGoal, valid: set<Path>, a: Answers, r: OutputChecks.Examined)
    requires g.state.BuildDone? && g.curRound >= 1 && !DoneByHook(g, valid) && EndsWell(g, valid, a, r)
    ensures r.Infos? && (EndBuild(g, valid, a, r).outcome == SUCCESS || Between(EndBuild(g, valid, a, r).goal, r.infos))
  {
  }

  lemma WorkRemembers(g: DrvGoal, o: Options, valid: set<Path>, a: Answers, infos: seq<OutputChecks.Info>)
    requires Ready(g, o) && Between(g, infos)
    ensures var r := Work(g, o, valid, a); r.outcome.IsLast() || Between(r.goal, infos)
  {
    if g.state.TryToBuild? {
      TryToBuildTried(g, o, valid, a);
    } else {
      EndBuildRemembers(g, valid, a, Examined(g, a), infos);
    }
  }

  lemma EventRemembers(c: Config, o: Options, e: Event, c': Config, infos: seq<OutputChecks.Info>)
    requires Happens(c, o, e, c') && Remembers(c, infos)
    ensures Remembers(c', infos)
  {
    if e.Step? { WorkRemembers(c.goal, o, c.valid, e.a, infos); }
  }

  lemma RememberedFirst(configs: seq<Config>, o: Options, events: seq<Event>, drvPath: Path, drv: Derivation, outputs: set<string>, i: nat)
    requires Run(configs, o, events, drvPath, drv, outputs) && i + 1 < |configs| && EndsRound(configs, o, events, i)
    ensures Remembers(configs[i + 1], RoundInfos(configs, events, i))
  {
    assert Happens(configs[i], o, events[i], configs[i + 1]);
    RunIsFine(configs, o, events, drvPath, drv, outputs, i);
    FirstRoundRemembers(configs[i].goal, configs[i].valid, events[i].a, Examined(configs[i].goal, events[i].a));
  }

  lemma {:induction false} RememberedOn(configs: seq<Config>, o: Options, events: seq<Event>, drvPath: Path, drv: Derivation, outputs: set<string>,
                                        i: nat, n: nat)
    requires Run(configs, o, events, drvPath, drv, outputs) && i < n < |configs| && EndsRound(configs, o, events, i)
    ensures Remembers(configs[n], RoundInfos(configs, events, i))
    decreases n
  {
    if i < n - 1 {
      assert Happens(configs[n - 1], o, events[n - 1], configs[n]);
      RememberedOn(configs, o, events, drvPath, drv, outputs, i, n - 1);
      EventRemembers(configs[n - 1], o, events[n - 1], configs[n], RoundInfos(configs, events, i));
    } else {
      RememberedFirst(configs, o, events, drvPath, drv, outputs, i);
    }
  }

  lemma GoodRoundRepeats(g: DrvGoal, valid: set<Path>, a: Answers, r: OutputChecks.Examined, infos: seq<OutputChecks.Info>)
    requires g.state.BuildDone? && Between(g, infos) && !DoneByHook(g, valid) && EndsWell(g, valid, a, r)
    ensures r.Infos? && r.infos == infos
  {
  }

  /** Over every run: all rounds that end well have produced the same, so that what is
      registered at the end is what every round has produced. */
  lemma RoundsAgree(configs: seq<Config>, o: Options, events: seq<Event>, drvPath: Path, drv: Derivation, outputs: set<string>, i: nat, j: nat)
    requires Run(configs, o, events, drvPath, drv, outputs) && i < j < |events|
    requires EndsRound(configs, o, events, i) && EndsRound(configs, o, events, j)
    ensures RoundInfos(configs, events, i) == RoundInfos(configs, events, j)
  {
    RememberedOn(configs, o, events, drvPath, drv, outputs, i, j);
    GoodRoundRepeats(configs[j].goal, configs[j].valid, events[j].a, Examined(configs[j].goal, events[j].a), RoundInfos(configs, events, i));
  }

  ghost function MissingCount(g: DrvGoal): nat {
    |set n | n in g.drv.outputs && g.drv.outputs[n].path in g.missingPaths|
  }

  lemma InfosCountMissing(g: DrvGoal, a: Answers)
    requires Examined(g, a).Infos?
    ensures |Examined(g, a).infos| == MissingCount(g)
  {
    var names := Sorted(g.drv.outputs.Keys);
    SortedIsDistinct(g.drv.outputs.Keys);
    OutputChecks.RecordedCount(g.drv, g.missingPaths, a.products, a.limits, names);
    assert OutputChecks.MissingNames(g.drv, g.missingPaths, names) == set n | n in g.drv.outputs && g.drv.outputs[n].path in g.missingPaths;
  }

  // How far the rounds have come

  ghost predicate RoundInv(g: DrvGoal, o: Options) {
    (IsEarly(g.state) ==> g.curRound == 1 && g.prevInfos == [] && !g.viaHook)
    && (!IsEarly(g.state) ==> g.nrRounds == Rounds(g.drv, o) && 1 <= g.curRound <= g.nrRounds && (g.curRound == 1 ==> g.prevInfos == []))
    && (g.state.TryToBuild? && g.curRound == 1 ==> !g.viaHook)
    && (g.state.BuildDone? && g.curRound == 1 ==> !(g.viaHook && g.local))
  }

  lemma EndBuildRounds(g: DrvGoal, o: Options, valid: set<Path>, a: Answers, r: OutputChecks.Examined)
    requires g.state.BuildDone? && RoundInv(g, o)
    ensures var e := EndBuild(g, valid, a, r); !e.outcome.IsLast() ==> RoundInv(e.goal, o)
  {
  }

  lemma TriedRounds(g: DrvGoal, o: Options, a: Answers, g': DrvGoal)
    requires g.state.TryToBuild? && RoundInv(g, o) && Tried(g, a, g')
    ensures RoundInv(g', o)
  {
  }

  lemma EarlyRounds(g: DrvGoal, o: Options, valid: set<Path>, a: Answers)
    requires IsEarly(g.state) && Inv(g, o, valid) && RoundInv(g, o)
    ensures var r := Work(g, o, valid, a); !r.outcome.IsLast() ==> RoundInv(r.goal, o)
  {
    WorkIsSound(g, o, valid, a);
  }

  lemma EventRounds(c: Config, o: Options, e: Event, c': Config)
    requires Happens(c, o, e, c') && Inv(c.goal, o, c.valid) && RoundInv(c.goal, o)
    ensures c'.Running? ==> RoundInv(c'.goal, o)
  {
    if e.Step? {
      if c.goal.state.TryToBuild? {
        TryToBuildTried(c.goal, o, c.valid, e.a);
        TriedRounds(c.goal, o, e.a, DoTryToBuild(c.goal, o, c.valid, e.a).goal);
      } else if c.goal.state.BuildDone? {
        EndBuildRounds(c.goal, o, c.valid, e.a, Examined(c.goal, e.a));
      } else {
        EarlyRounds(c.goal, o, c.valid, e.a);
      }
    }
  }

  lemma {:induction false} RunRounds(configs: seq<Config>, o: Options, events: seq<Event>, drvPath: Path, drv: Derivation, outputs: set<string>, n: nat)
    requires Run(configs, o, events, drvPath, drv, outputs) && n < |configs|
    ensures configs[n].Running? ==> RoundInv(configs[n].goal, o)
  {
    if n > 0 {
      assert Happens(configs[n - 1], o, events[n - 1], configs[n]);
      RunRounds(configs, o, events, drvPath, drv, outputs, n - 1);
      RunIsFine(configs, o, events, drvPath, drv, outputs, n - 1);
      EventRounds(configs[n - 1], o, events[n - 1], configs[n]);
    }
  }

  // Who builds, told from the events

  /** Step `i` starts a build. */
  ghost predicate StartsBuild(configs: seq<Config>, events: seq<Event>, i: nat)
    requires i < |events| < |configs|
  {
    events[i].Step? && configs[i].Running? && configs[i].goal.state.TryToBuild? && configs[i + 1].Running? && configs[i + 1].goal.state.BuildDone?
  }

  /** The hook has taken a build before step `n`. */
  ghost predicate HookUsed(configs: seq<Config>, events: seq<Event>, n: nat)
    requires n <= |events| < |configs|
  {
    exists i: nat :: i < n && StartsBuild(configs, events, i) && ByHook(events[i].a)
  }

  ghost predicate NoStart(configs: seq<Config>, events: seq<Event>, m: nat, n: nat)
    requires n <= |events| < |configs|
  {
    forall i: nat :: m <= i < n ==> !StartsBuild(configs, events, i)
  }

  /** The last build that was started before step `n` was started by this process. */
  ghost predicate BuildsLocally(configs: seq<Config>, events: seq<Event>, n: nat)
    requires n <= |events| < |configs|
  {
    exists i: nat :: i < n && StartsBuild(configs, events, i) && !ByHook(events[i].a) && NoStart(configs, events, i + 1, n)
  }

  /** What one event does to the two flags. */
  predicate Flags(c: Config, e: Event, c': Config) {
    if c.Running? && c'.Running? && e.Step? && c.goal.state.TryToBuild? && c'.goal.state.BuildDone?
    then c'.goal.viaHook == (c.goal.viaHook || ByHook(e.a)) && c'.goal.local == !ByHook(e.a)
    else c'.Running? ==> c.Running? && c'.goal.viaHook == c.goal.viaHook
                         && (c'.goal.state.BuildDone? ==> c.goal.state.BuildDone? && c'.goal.local == c.goal.local)
  }

  lemma EndBuildFlags(g: DrvGoal, valid: set<Path>, a: Answers, r: OutputChecks.Examined)
    requires g.state.BuildDone?
    ensures var e := EndBuild(g, valid, a, r); !e.outcome.IsLast() ==> e.goal.state.TryToBuild? && e.goal.viaHook == g.viaHook
  {
  }

  lemma EventFlags(c: Config, o: Options, e: Event, c': Config)
    requires Happens(c, o, e, c') && Inv(c.goal, o, c.valid)
    ensures Flags(c, e, c')
  {
    if e.Step? {
      if c.goal.state.TryToBuild? {
        TryToBuildTried(c.goal, o, c.valid, e.a);
      } else if c.goal.state.BuildDone? {
        EndBuildFlags(c.goal, c.valid, e.a, Examined(c.goal, e.a));
      } else {
        WorkIsSound(c.goal, o, c.valid, e.a);
      }
    }
  }

  lemma {:induction false} FlagsInRun(configs: seq<Config>, o: Options, events: seq<Event>, drvPath: Path, drv: Derivation, outputs: set<string>, n: nat)
    requires Run(configs, o, events, drvPath, drv, outputs) && n < |configs| && configs[n].Running?
    ensures configs[n].goal.viaHook <==> HookUsed(configs, events, n)
    ensures configs[n].goal.state.BuildDone? ==> (configs[n].goal.local <==> BuildsLocally(configs, events, n))
  {
    if n > 0 {
      assert Happens(configs[n - 1], o, events[n - 1], configs[n]);
      FlagsInRun(configs, o, events, drvPath, drv, outputs, n - 1);
      RunIsFine(configs, o, events, drvPath, drv, outputs, n - 1);
      EventFlags(configs[n - 1], o, events[n - 1], configs[n]);
      HistoryGrows(configs, events, n);
    }
  }

  lemma HistoryGrows(configs: seq<Config>, events: seq<Event>, n: nat)
    requires 0 < n <= |events| < |configs|
    ensures HookUsed(configs, events, n) <==>
      HookUsed(configs, events, n - 1) || (StartsBuild(configs, events, n - 1) && ByHook(events[n - 1].a))
    ensures BuildsLocally(configs, events, n) <==>
      if StartsBuild(configs, events, n - 1) then !ByHook(events[n - 1].a) else BuildsLocally(configs, events, n - 1)
  {
    if StartsBuild(configs, events, n - 1) {
      assert NoStart(configs, events, n, n);
    } else if BuildsLocally(configs, events, n - 1) {
      var i: nat :| i < n - 1 && StartsBuild(configs, events, i) && !ByHook(events[i].a) && NoStart(configs, events, i + 1, n - 1);
      assert NoStart(configs, events, i + 1, n);
    }
  }

  // How many outputs are compared

  /** Step `i` ends a round that is not the last. */
  ghost predicate RoundOver(configs: seq<Config>, events: seq<Event>, i: nat)
    requires i < |events| < |configs|
  {
    events[i].Step? && configs[i].Running? && configs[i].goal.state.BuildDone? && configs[i + 1].Running?
  }

  ghost predicate Repeated(configs: seq<Config>, events: seq<Event>, n: nat)
    requires n <= |events| < |configs|
  {
    exists i: nat :: i < n && RoundOver(configs, events, i)
  }

  ghost predicate NoneLookedAt(configs: seq<Config>, o: Options, events: seq<Event>, n: nat)
    requires n <= |events| < |configs|
  {
    forall i: nat :: i < n ==> !EndsRound(configs, o, events, i)
  }

  /** How many outputs were missing in the rounds before `n` that this goal has looked at; none
      if the hook has registered the outputs of all of them itself. */
  ghost function LookedAt(configs: seq<Config>, o: Options, events: seq<Event>, n: nat): nat
    requires n <= |events| < |configs|
  {
    if i: nat :| i < n && EndsRound(configs, o, events, i) then MissingCount(configs[i].goal) else 0
  }

  lemma EndBuildCounts(g: DrvGoal, valid: set<Path>, a: Answers, r: OutputChecks.Examined)
    requires g.state.BuildDone? && g.curRound >= 1
    ensures var e := EndBuild(g, valid, a, r);
      !e.outcome.IsLast() ==> e.goal.curRound > 1 && (DoneByHook(g, valid) ==> e.goal.prevInfos == g.prevInfos)
                              && (!DoneByHook(g, valid) ==> EndsWell(g, valid, a, r))
  {
  }

  lemma EventCounts(c: Config, o: Options, e: Event, c': Config)
    requires Happens(c, o, e, c') && Inv(c.goal, o, c.valid) && c'.Running?
    ensures if e.Step? && c.goal.state.BuildDone?
      then c'.goal.curRound > 1 && (DoneByHook(c.goal, c.valid) ==> c'.goal.prevInfos == c.goal.prevInfos)
           && (!DoneByHook(c.goal, c.valid) ==> EndsWell(c.goal, c.valid, e.a, Examined(c.goal, e.a)))
      else c'.goal.curRound == c.goal.curRound && c'.goal.prevInfos == c.goal.prevInfos
  {
    if e.Step? {
      if c.goal.state.TryToBuild? {
        TryToBuildTried(c.goal, o, c.valid, e.a);
      } else if c.goal.state.BuildDone? {
        EndBuildCounts(c.goal, c.valid, e.a, Examined(c.goal, e.a));
      } else {
        WorkIsSound(c.goal, o, c.valid, e.a);
      }
    }
  }

  lemma {:induction false} RepeatedInRun(configs: seq<Config>, o: Options, events: seq<Event>, drvPath: Path, drv: Derivation, outputs: set<string>, n: nat)
    requires Run(configs, o, events, drvPath, drv, outputs) && n < |configs| && configs[n].Running?
    ensures configs[n].goal.curRound > 1 <==> Repeated(configs, events, n)
  {
    if n > 0 {
      assert Happens(configs[n - 1], o, events[n - 1], configs[n]);
      RepeatedInRun(configs, o, events, drvPath, drv, outputs, n - 1);
      RunIsFine(configs, o, events, drvPath, drv, outputs, n - 1);
      EventCounts(configs[n - 1], o, events[n - 1], configs[n]);
      RepeatedGrows(configs, events, n);
    }
  }

  lemma RepeatedGrows(configs: seq<Config>, events: seq<Event>, n: nat)
    requires 0 < n <= |events| < |configs|
    ensures Repeated(configs, events, n) <==> Repeated(configs, events, n - 1) || RoundOver(configs, events, n - 1)
  {
  }

  lemma {:induction false} NothingToCompare(configs: seq<Config>, o: Options, events: seq<Event>, drvPath: Path, drv: Derivation, outputs: set<string>, n: nat)
    requires Run(configs, o, events, drvPath, drv, outputs) && n < |configs| && configs[n].Running? && NoneLookedAt(configs, o, events, n)
    ensures configs[n].goal.prevInfos == []
  {
    if n > 0 {
      assert Happens(configs[n - 1], o, events[n - 1], configs[n]);
      NothingToCompare(configs, o, events, drvPath, drv, outputs, n - 1);
      RunIsFine(configs, o, events, drvPath, drv, outputs, n - 1);
      EventCounts(configs[n - 1], o, events[n - 1], configs[n]);
      assert !EndsRound(configs, o, events, n - 1);
    }
  }

  lemma PreviousCount(configs: seq<Config>, o: Options, events: seq<Event>, drvPath: Path, drv: Derivation, outputs: set<string>, n: nat)
    requires Run(configs, o, events, drvPath, drv, outputs) && n < |configs| && configs[n].Running?
    ensures |configs[n].goal.prevInfos| == LookedAt(configs, o, events, n)
  {
    if i: nat :| i < n && EndsRound(configs, o, events, i) {
      forall k: nat | k < n && EndsRound(configs, o, events, k) ensures |configs[n].goal.prevInfos| == MissingCount(configs[k].goal) {
        RememberedOn(configs, o, events, drvPath, drv, outputs, k, n);
        RunIsFine(configs, o, events, drvPath, drv, outputs, k);
        FirstRoundRemembers(configs[k].goal, configs[k].valid, events[k].a, Examined(configs[k].goal, events[k].a));
        InfosCountMissing(configs[k].goal, events[k].a);
      }
    } else {
      NothingToCompare(configs, o, events, drvPath, drv, outputs, n);
    }
  }

  // The assertions

  /** The hook has taken a build, but this process has started the present one: buildDone
      waits for the hook again. */
  ghost predicate HookIsGone(configs: seq<Config>, events: seq<Event>, j: nat)
    requires j <= |events| < |configs|
  {
    HookUsed(configs, events, j) && BuildsLocally(configs, events, j)
  }

  /** A build after another round has gone well and all that was missing is acceptable, but
      not as many outputs were missing as in the rounds before. */
  ghost predicate Miscounts(configs: seq<Config>, o: Options, events: seq<Event>, j: nat)
    requires j < |events| < |configs| && events[j].Step?
  {
    var g, a := configs[j].goal, events[j].a;
    Repeated(configs, events, j) && a.buildEnd.Good? && !DoneByHook(g, configs[j].valid) && AllAcceptable(g, a)
    && MissingCount(g) != LookedAt(configs, o, events, j)
  }

  lemma EndBuildFails(g: DrvGoal, valid: set<Path>, a: Answers, r: OutputChecks.Examined)
    requires r.Stopped? ==> !r.verdict.Accepted?
    ensures EndBuild(g, valid, a, r).outcome == AssertionFails <==>
      (g.viaHook && g.local)
      || (a.buildEnd.Good? && !DoneByHook(g, valid) && r.Infos? && g.curRound > 1 && |g.prevInfos| != |r.infos|)
  {
  }

  lemma ExaminedIffAcceptable(g: DrvGoal, a: Answers)
    ensures Examined(g, a).Infos? <==> AllAcceptable(g, a)
    ensures Examined(g, a).Stopped? ==> !Examined(g, a).verdict.Accepted?
  {
    OutputChecks.ExamineRecords(g.drv, g.missingPaths, a.products, a.limits, Sorted(g.drv.outputs.Keys));
  }

  /** The step from a build to its end. */
  lemma StepFails(c: Config, o: Options, a: Answers, c': Config)
    requires Happens(c, o, Step(a), c') && c.goal.state.BuildDone?
    ensures c'.Over? && c'.outcome == AssertionFails <==>
      (c.goal.viaHook && c.goal.local)
      || (a.buildEnd.Good? && !DoneByHook(c.goal, c.valid) && AllAcceptable(c.goal, a) && c.goal.curRound > 1
          && |c.goal.prevInfos| != MissingCount(c.goal))
  {
    ExaminedIffAcceptable(c.goal, a);
    if Examined(c.goal, a).Infos? { InfosCountMissing(c.goal, a); }
    EndBuildFails(c.goal, c.valid, a, Examined(c.goal, a));
  }

  /** Over every run: buildDone fails an assertion if and only if an earlier build was taken by
      the hook and the present one was started by this process, or the outputs that it looks at
      are not as many as in the rounds before. */
  lemma BuildDoneFails(configs: seq<Config>, o: Options, events: seq<Event>, drvPath: Path, drv: Derivation, outputs: set<string>, j: nat)
    requires Run(configs, o, events, drvPath, drv, outputs) && j < |events|
    requires events[j].Step? && configs[j].goal.state.BuildDone?
    ensures configs[j + 1].Over? && configs[j + 1].outcome == AssertionFails <==>
      HookIsGone(configs, events, j) || Miscounts(configs, o, events, j)
  {
    assert Happens(configs[j], o, events[j], configs[j + 1]);
    FlagsInRun(configs, o, events, drvPath, drv, outputs, j);
    RepeatedInRun(configs, o, events, drvPath, drv, outputs, j);
    PreviousCount(configs, o, events, drvPath, drv, outputs, j);
    StepFails(configs[j], o, events[j].a, configs[j + 1]);
  }

  /** Over every run of a goal that is not to repeat its build: buildDone fails no assertion. */
  lemma SingleBuildNeverFails(configs: seq<Config>, o: Options, events: seq<Event>, drvPath: Path, drv: Derivation, outputs: set<string>, j: nat)
    requires Run(configs, o, events, drvPath, drv, outputs) && j < |events| && (o.buildRepeat == 0 || IsFixed(drv))
    requires events[j].Step? && configs[j].goal.state.BuildDone?
    ensures !(configs[j + 1].Over? && configs[j + 1].outcome == AssertionFails)
  {
    assert Happens(configs[j], o, events[j], configs[j + 1]);
    RunIsFine(configs, o, events, drvPath, drv, outputs, j);
    RunRounds(configs, o, events, drvPath, drv, outputs, j);
    StepFails(configs[j], o, events[j].a, configs[j + 1]);
  }
}
