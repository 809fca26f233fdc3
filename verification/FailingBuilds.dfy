/** Runs of a derivation goal in which buildDone fails an assertion (DerivationGoal::buildDone
    and registerOutputs of nix/libstore/build.cc). */
module FailingBuilds {
  import opened ByteStrings
  import opened Derivations
  import opened DerivationGoals
  import opened Wrappers
  import BuildRounds
  import OutputChecks
  import Scheduler

  /** A derivation without inputs that is to be built twice. */
  function Simple(outputs: map<string, DerivationOutput>): Derivation {
    Derivation(outputs, map[], {}, "", "", [], map[])
  }

  const TWICE := Options(false, false, false, false, 1, 1)
  const NO_LIMITS := OutputChecks.Limits(OutputChecks.Unlimited, OutputChecks.Unlimited, OutputChecks.Unlimited, OutputChecks.Unlimited)

  /** Everything goes well, and the hook replies `hook`. */
  function Good(hook: HookReply, products: map<Path, OutputChecks.Product>): Answers {
    Answers(0, 0, 0, true, {}, true, {}, false, true, hook, false, 0, true, 7, BuildEnd.Good, products, NO_LIMITS, OutputChecks.Accepted)
  }

  /** From a new goal to the first attempt at a build. */
  lemma GetsReady(d: Derivation, valid: set<Path>, a: Answers)
    requires d == Simple(d.outputs) && "/drv" in valid && !IsFixed(d) && !(OutputPaths(d) <= valid) && a == Good(a.hookReply, a.products)
    ensures var g := New("/drv", d, {});
      Happens(Running(g, valid), TWICE, Step(a), Running(g.(state := TryToBuild, nrRounds := 2), valid))
  {
    var g := New("/drv", d, {});
    var p :| p in OutputPaths(d) && p !in valid;
    assert p in CheckPathValidity(g, valid, false);
    assert MaySubstitute(g, TWICE) == false;
    assert Sorted(d.inputDrvs.Keys) == [];
    assert DerivationKeys(d.inputDrvs.Keys) + SubstitutionKeys(d.inputSrcs) == [];
    var ready := Result(g.(state := TryToBuild, nrRounds := 2), valid, Ends(Scheduler.WakeSelf));
    assert DoInputsRealised(g, TWICE, valid, a, 0) == ready;
    assert WaitForInputs(g, TWICE, valid, a) == ready;
    assert AfterSubstitution(g, TWICE, valid, a) == ready;
    assert DoOutputsSubstituted(g, TWICE, valid, a, 0, 0, 0) == ready;
    assert DoHaveDerivation(g, TWICE, valid, a, 0) == ready;
  }

  /** A build is started: by the hook if it accepts, else by this process. */
  function Started(g: DrvGoal, valid: set<Path>, hook: HookReply): DrvGoal {
    g.(validPaths := CheckPathValidity(g, valid, true), missingPaths := OutputPaths(g.drv) - CheckPathValidity(g, valid, true),
       state := BuildDone, viaHook := g.viaHook || hook.Accept?, local := !hook.Accept?)
  }

  lemma Starts(g: DrvGoal, valid: set<Path>, a: Answers)
    requires g.state.TryToBuild? && !(OutputPaths(g.drv) <= valid) && a == Good(a.hookReply, a.products) && !a.hookReply.Postpone?
    requires Ready(g, TWICE)
    ensures Happens(Running(g, valid), TWICE, Step(a), Running(Started(g, valid, a.hookReply), valid))
  {
    if |CheckPathValidity(g, valid, true)| == |g.drv.outputs| { AllValid(g, valid); }
  }

  /** The first round ends well: what it has produced is remembered, unless the hook has
      registered it. */
  function AfterRound(g: DrvGoal, infos: seq<OutputChecks.Info>): DrvGoal {
    g.(state := TryToBuild, curRound := 2, prevInfos := infos)
  }

  lemma EndsRound(g: DrvGoal, valid: set<Path>, a: Answers)
    requires g.state.BuildDone? && g.curRound == 1 && g.nrRounds == 2 && !(g.viaHook && g.local) && a == Good(a.hookReply, a.products)
    requires AllAcceptable(g, a) && Ready(g, TWICE)
    ensures DoneByHook(g, valid) ==> Happens(Running(g, valid), TWICE, Step(a), Running(AfterRound(g, g.prevInfos), valid))
    ensures !DoneByHook(g, valid) ==>
      Examined(g, a).Infos? && Happens(Running(g, valid), TWICE, Step(a), Running(AfterRound(g, Examined(g, a).infos), valid))
  {
    BuildRounds.ExaminedIffAcceptable(g, a);
  }

  lemma Fails(g: DrvGoal, valid: set<Path>, a: Answers)
    requires g.state.BuildDone? && a == Good(a.hookReply, a.products) && AllAcceptable(g, a) && Ready(g, TWICE)
    requires (g.viaHook && g.local) || (!DoneByHook(g, valid) && g.curRound > 1 && |g.prevInfos| != BuildRounds.MissingCount(g))
    ensures Happens(Running(g, valid), TWICE, Step(a), Over(g, valid, AssertionFails))
  {
    BuildRounds.ExaminedIffAcceptable(g, a);
    BuildRounds.InfosCountMissing(g, a);
    BuildRounds.EndBuildFails(g, valid, a, Examined(g, a));
  }

  const FILE := OutputChecks.Present(true, true, true, None, "", {}, None)
  const PRODUCTS: map<Path, OutputChecks.Product> := map["/a" := FILE, "/b" := FILE]
  const STORE: set<Path> := {"/drv"}

  function Output(path: Path): DerivationOutput {
    DerivationOutput(path, "", "")
  }

  const ONE := Simple(map["a" := Output("/a")])
  const TWO := Simple(map["a" := Output("/a"), "b" := Output("/b")])

  lemma OnePath()
    ensures OutputPaths(ONE) == {"/a"} && !IsFixed(ONE)
  {
    assert "a" in ONE.outputs && ONE.outputs["a"].path == "/a";
  }

  lemma TwoPaths()
    ensures OutputPaths(TWO) == {"/a", "/b"} && !IsFixed(TWO)
  {
    assert "a" in TWO.outputs && TWO.outputs["a"].path == "/a";
    assert "b" in TWO.outputs && TWO.outputs["b"].path == "/b";
  }

  ghost predicate IsRun(d: Derivation, configs: seq<Config>, events: seq<Event>, c: Config) {
    Run(configs, TWICE, events, "/drv", d, {}) && configs[|events|] == c
  }

  lemma Next(d: Derivation, configs: seq<Config>, events: seq<Event>, c: Config, e: Event, c': Config)
    returns (longer: seq<Config>, more: seq<Event>)
    requires IsRun(d, configs, events, c) && Happens(c, TWICE, e, c')
    ensures IsRun(d, longer, more, c')
  {
    longer, more := configs + [c'], events + [e];
    forall i | 0 <= i < |more| ensures Happens(longer[i], TWICE, more[i], longer[i + 1]) {
      if i < |events| { assert more[i] == events[i]; }
    }
  }

  /** The first build of a derivation, by the hook or by this process, is under way. */
  lemma FirstBuild(d: Derivation, hook: HookReply) returns (configs: seq<Config>, events: seq<Event>, g: DrvGoal)
    requires d == Simple(d.outputs) && !IsFixed(d) && !(OutputPaths(d) <= STORE) && !hook.Postpone?
    ensures IsRun(d, configs, events, Running(g, STORE)) && Ready(g, TWICE)
    ensures g == Started(New("/drv", d, {}).(state := TryToBuild, nrRounds := 2), STORE, hook)
  {
    var a := Good(hook, PRODUCTS);
    var g0 := New("/drv", d, {});
    var g1 := g0.(state := TryToBuild, nrRounds := 2);
    configs, events := [Running(g0, STORE)], [];
    GetsReady(d, STORE, a);
    configs, events := Next(d, configs, events, Running(g0, STORE), Step(a), Running(g1, STORE));
    Starts(g1, STORE, a);
    g := Started(g1, STORE, hook);
    configs, events := Next(d, configs, events, Running(g1, STORE), Step(a), Running(g, STORE));
  }

  /** The second build is started and fails an assertion in the end. */
  lemma SecondBuild(d: Derivation, configs: seq<Config>, events: seq<Event>, g: DrvGoal, valid: set<Path>, hook: HookReply)
    returns (longer: seq<Config>, more: seq<Event>)
    requires IsRun(d, configs, events, Running(g, valid)) && g.state.TryToBuild? && g.curRound == 2 && Ready(g, TWICE)
    requires !(OutputPaths(g.drv) <= valid) && !hook.Postpone? && AllAcceptable(Started(g, valid, hook), Good(hook, PRODUCTS))
    requires var t := Started(g, valid, hook); (t.viaHook && t.local) || |t.prevInfos| != BuildRounds.MissingCount(t)
    ensures IsRun(d, longer, more, Over(Started(g, valid, hook), valid, AssertionFails))
  {
    var a := Good(hook, PRODUCTS);
    var t := Started(g, valid, hook);
    Starts(g, valid, a);
    longer, more := Next(d, configs, events, Running(g, valid), Step(a), Running(t, valid));
    Fails(t, valid, a);
    longer, more := Next(d, longer, more, Running(t, valid), Step(a), Over(t, valid, AssertionFails));
  }

  lemma AllThere(g: DrvGoal, hook: HookReply)
    requires g.drv == ONE || g.drv == TWO
    ensures AllAcceptable(g, Good(hook, PRODUCTS))
  {
  }

  /** The hook takes the first build and declines the second: buildDone waits for the hook,
      which is gone. */
  lemma HookDeclinesAgain() returns (configs: seq<Config>, events: seq<Event>)
    ensures Run(configs, TWICE, events, "/drv", ONE, {}) && configs[|events|].Over? && configs[|events|].outcome == AssertionFails
  {
    OnePath();
    var a, g;
    a := Good(Accept, PRODUCTS);
    configs, events, g := FirstBuild(ONE, Accept);
    AllThere(g, Accept);
    EndsRound(g, STORE, a);
    var t := AfterRound(g, Examined(g, a).infos);
    configs, events := Next(ONE, configs, events, Running(g, STORE), Step(a), Running(t, STORE));
    AllThere(Started(t, STORE, Decline), Decline);
    configs, events := SecondBuild(ONE, configs, events, t, STORE, Decline);
  }

  lemma CountOf(g: DrvGoal, names: set<string>)
    requires forall n :: n in names <==> n in g.drv.outputs && g.drv.outputs[n].path in g.missingPaths
    ensures BuildRounds.MissingCount(g) == |names|
  {
    assert names == set n | n in g.drv.outputs && g.drv.outputs[n].path in g.missingPaths;
  }

  lemma ValidAmong(g: DrvGoal, valid: set<Path>)
    requires g.wanted == {}
    ensures CheckPathValidity(g, valid, true) == OutputPaths(g.drv) * valid
  {
    forall p | p in OutputPaths(g.drv) * valid ensures p in CheckPathValidity(g, valid, true) {
      var n :| n in g.drv.outputs && g.drv.outputs[n].path == p;
      assert WantOutput(n, g.wanted);
    }
  }

  /** One of two outputs becomes valid between the rounds, while no lock is held: one info is
      compared with two. */
  lemma OutputAppears() returns (configs: seq<Config>, events: seq<Event>)
    ensures Run(configs, TWICE, events, "/drv", TWO, {}) && configs[|events|].Over? && configs[|events|].outcome == AssertionFails
  {
    TwoPaths();
    var a, more := Good(Decline, PRODUCTS), STORE + {"/a"};
    var g;
    configs, events, g := FirstBuild(TWO, Decline);
    ValidAmong(New("/drv", TWO, {}), STORE);
    CountOf(g, {"a", "b"});
    AllThere(g, Decline);
    EndsRound(g, STORE, a);
    BuildRounds.InfosCountMissing(g, a);
    var t := AfterRound(g, Examined(g, a).infos);
    configs, events := Next(TWO, configs, events, Running(g, STORE), Step(a), Running(t, STORE));
    configs, events := Next(TWO, configs, events, Running(t, STORE), Change(more), Running(t, more));
    ValidAmong(t, more);
    CountOf(Started(t, more, Decline), {"b"});
    AllThere(Started(t, more, Decline), Decline);
    configs, events := SecondBuild(TWO, configs, events, t, more, Decline);
  }

  /** The hook registers the output, which goes away again, and does not register it a second
      time: one info is compared with none. */
  lemma HookRegistersOnce() returns (configs: seq<Config>, events: seq<Event>)
    ensures Run(configs, TWICE, events, "/drv", ONE, {}) && configs[|events|].Over? && configs[|events|].outcome == AssertionFails
  {
    OnePath();
    var a, more := Good(Accept, PRODUCTS), STORE + {"/a"};
    var g;
    configs, events, g := FirstBuild(ONE, Accept);
    configs, events := Next(ONE, configs, events, Running(g, STORE), Change(more), Running(g, more));
    AllThere(g, Accept);
    EndsRound(g, more, a);
    var t := AfterRound(g, []);
    configs, events := Next(ONE, configs, events, Running(g, more), Step(a), Running(t, more));
    configs, events := Next(ONE, configs, events, Running(t, more), Change(STORE), Running(t, STORE));
    ValidAmong(t, STORE);
    CountOf(Started(t, STORE, Accept), {"a"});
    AllThere(Started(t, STORE, Accept), Accept);
    configs, events := SecondBuild(ONE, configs, events, t, STORE, Accept);
  }
}
