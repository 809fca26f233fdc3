/** The worker together with its goals (class Worker, DerivationGoal and SubstitutionGoal of
    nix/libstore/build.cc): what goals expect of each other is true, so that their assertions
    about valid paths hold. */
module Realisation {
  import opened Scheduler
  import opened Waiting
  import opened Wrappers
  import D = DerivationGoals
  import Derivations
  import Sub = SubstitutionGoals

  /** What the files of derivations say. */
  type Files = Path -> Derivations.Derivation

  /** No derivation is its own input. */
  ghost predicate Sensible(files: Files) {
    forall p :: p !in files(p).inputDrvs
  }

  /** The worker, its goal objects, the valid paths, and the temporary roots of this process. */
  datatype System = System(w: World, drvs: map<GoalId, D.DrvGoal>, subs: map<GoalId, Sub.SubstGoal>, valid: set<Path>, rooted: set<Path>)

  /** Valid, and stays so. */
  predicate Safe(y: System, p: Path) {
    p in y.valid && p in y.rooted
  }

  // The invariant

  /** The derivation has been read; it and its outputs are temporary roots. */
  predicate IsLoaded(q: D.DrvGoal) {
    !q.state.Init? && !q.state.HaveDerivation?
  }

  ghost predicate Met(y: System, g: GoalId, k: Key)
    requires g in y.w.goals
  {
    y.w.goals[g].nrFailed > 0 || Awaits(y.w, g, k) || Safe(y, k.path)
  }

  ghost predicate DrvOK(y: System, o: D.Options, g: GoalId)
    requires g in y.w.goals && g in y.drvs
  {
    var q := y.drvs[g];
    D.Inv(q, o, y.valid)
    && (IsLoaded(q) ==> Safe(y, q.drvPath) && D.OutputPaths(q.drv) <= y.rooted)
    && forall k :: D.Expects(q, k) ==> Met(y, g, k)
  }

  /** The substitution goal asks for a goal for each reference and expects it to be there. */
  ghost predicate SubExpects(q: Sub.SubstGoal, p: Path) {
    p in q.references && p != q.storePath
  }

  ghost predicate SubOK(y: System, g: GoalId)
    requires g in y.w.goals && g in y.subs
  {
    var q := y.subs[g];
    (!q.state.Start? ==> q.storePath in y.rooted)
    && (q.state.ReferencesValid? ==> forall p :: SubExpects(q, p) ==> Met(y, g, SubstitutionKey(p)))
    && (q.state.TryToRun? || q.state.Finished? ==> forall p :: SubExpects(q, p) ==> Safe(y, p))
  }

  ghost predicate GoalOK(files: Files, y: System, o: D.Options, g: GoalId)
    requires g in y.w.goals
  {
    match y.w.goals[g].key
    case DerivationKey(p) =>
      g in y.drvs && y.drvs[g].drvPath == p && y.drvs[g].drv == files(p) && (IsBusy(y.w.goals, g) ==> DrvOK(y, o, g))
    case SubstitutionKey(p) =>
      g in y.subs && y.subs[g].storePath == p && (IsBusy(y.w.goals, g) ==> SubOK(y, g))
  }

  ghost predicate SysInv(files: Files, y: System, s: Settings, o: D.Options) {
    Inv(y.w, s) && forall g :: g in y.w.goals ==> GoalOK(files, y, o, g)
  }

  // Goals that are not called

  /** From `y` to `z` nothing safe is lost. */
  ghost predicate Safer(y: System, z: System) {
    y.rooted <= z.rooted && forall p :: Safe(y, p) ==> Safe(z, p)
  }

  /** Goal `g` has lost no waitee, except by failures it has counted and successes that are true. */
  ghost predicate Served(y: System, z: System, g: GoalId)
    requires g in y.w.goals && g in z.w.goals
  {
    y.w.goals[g].nrFailed <= z.w.goals[g].nrFailed
    && forall k :: Awaits(y.w, g, k) ==> Met(z, g, k)
  }

  lemma StaysMet(y: System, z: System, g: GoalId, k: Key)
    requires g in y.w.goals && g in z.w.goals && Safer(y, z) && Served(y, z, g) && Met(y, g, k)
    ensures Met(z, g, k)
  {
  }

  /** The object of a goal is the same, but for outputs that others may have asked for. */
  ghost predicate Kept(y: System, z: System, g: GoalId) {
    (g in y.drvs ==> g in z.drvs && (z.drvs[g] == y.drvs[g] || exists outs :: z.drvs[g] == D.AddWantedOutputs(y.drvs[g], outs)))
    && (g in y.subs ==> g in z.subs && z.subs[g] == y.subs[g])
  }

  lemma AskedStays(q: D.DrvGoal, o: D.Options, valid: set<Path>, outs: set<string>)
    requires D.Inv(q, o, valid)
    ensures D.Inv(D.AddWantedOutputs(q, outs), o, valid)
  {
  }

  lemma DrvInvStays(q: D.DrvGoal, o: D.Options, valid: set<Path>, q': D.DrvGoal, valid': set<Path>)
    requires D.Inv(q, o, valid) && (q' == q || exists outs :: q' == D.AddWantedOutputs(q, outs))
    requires q.state.BuildDone? ==> D.OutputPaths(q.drv) * valid <= valid'
    ensures D.Inv(q', o, valid')
  {
    if q' != q {
      var outs :| q' == D.AddWantedOutputs(q, outs);
      AskedStays(q, o, valid, outs);
    }
    StoreMayChange(q', o, valid, valid');
  }

  lemma StoreMayChange(q: D.DrvGoal, o: D.Options, valid: set<Path>, valid': set<Path>)
    requires D.Inv(q, o, valid) && (q.state.BuildDone? ==> D.OutputPaths(q.drv) * valid <= valid')
    ensures D.Inv(q, o, valid')
  {
  }

  lemma DrvStays(y: System, z: System, o: D.Options, g: GoalId)
    requires g in y.w.goals && g in y.drvs && DrvOK(y, o, g) && g in z.w.goals && Kept(y, z, g) && Safer(y, z) && Served(y, z, g)
    ensures DrvOK(z, o, g)
  {
    var q, q' := y.drvs[g], z.drvs[g];
    forall p | p in D.OutputPaths(q.drv) * y.valid && q.state.BuildDone? ensures p in z.valid { assert Safe(y, p); }
    DrvInvStays(q, o, y.valid, q', z.valid);
    forall k | D.Expects(q', k) ensures Met(z, g, k) {
      assert D.Expects(q, k);
      StaysMet(y, z, g, k);
    }
  }

  lemma SubStays(y: System, z: System, g: GoalId)
    requires g in y.w.goals && g in y.subs && SubOK(y, g) && g in z.w.goals && Kept(y, z, g) && Safer(y, z) && Served(y, z, g)
    ensures SubOK(z, g)
  {
    var q := y.subs[g];
    if q.state.ReferencesValid? {
      forall p | SubExpects(q, p) ensures Met(z, g, SubstitutionKey(p)) { StaysMet(y, z, g, SubstitutionKey(p)); }
    }
  }

  /** A goal that nothing happens to. */
  lemma GoalStays(files: Files, y: System, z: System, o: D.Options, g: GoalId)
    requires g in y.w.goals && GoalOK(files, y, o, g) && g in z.w.goals && Kept(y, z, g) && Safer(y, z)
    requires z.w.goals[g].key == y.w.goals[g].key && (IsBusy(z.w.goals, g) ==> IsBusy(y.w.goals, g) && Served(y, z, g))
    ensures GoalOK(files, z, o, g)
  {
    if IsBusy(z.w.goals, g) {
      if y.w.goals[g].key.DerivationKey? { DrvStays(y, z, o, g); } else { SubStays(y, z, g); }
    }
  }

  // The moves

  datatype Move =
    | Start(key: Key)                                              // somebody asks for a goal
    | Call(g: GoalId, pid: Option<Pid>, a: D.Answers)              // work() of a derivation goal
    | CallSubst(g: GoalId, pid: Option<Pid>, answers: Sub.SubstAnswers)  // work() of a substitution goal
    | Loop(act: Action)                                            // any other step of the worker
    | Change(valid: set<Path>)                                     // the store changes

  /** The object of a goal that has just been made. */
  ghost predicate IsNew(files: Files, z: System, h: GoalId)
    requires h in z.w.goals
  {
    match z.w.goals[h].key
    case DerivationKey(p) => h in z.drvs && exists outs :: z.drvs[h] == D.New(p, files(p), outs)
    case SubstitutionKey(p) => h in z.subs && z.subs[h] == Sub.SubstGoal(p, Sub.Start, {})
  }

  /** The goal objects after a move, but for the goal that was called. */
  ghost predicate Objects(files: Files, y: System, z: System, called: Option<GoalId>) {
    forall h :: h in z.w.goals ==> if h in y.w.goals then called == Some(h) || Kept(y, z, h) else IsNew(files, z, h)
  }

  /** What haveDerivation() makes temporary roots. */
  function DrvRoots(q: D.DrvGoal, o: D.Options, valid: set<Path>, a: D.Answers): set<Path> {
    if (q.state.Init? && !o.readOnly && q.drvPath in valid) || (q.state.HaveDerivation? && a.nrFailed == 0)
    then {q.drvPath} + D.OutputPaths(q.drv) else {}
  }

  function SubRoots(q: Sub.SubstGoal): set<Path> {
    if q.state.Start? then {q.storePath} else {}
  }

  /** The answers tell the failures that were counted. */
  predicate Counted(q: Goal, nrFailed: nat, nrNoSubstituters: nat, nrIncompleteClosure: nat) {
    nrFailed == q.nrFailed && nrNoSubstituters == q.nrNoSubstituters && nrIncompleteClosure == q.nrIncompleteClosure
  }

  ghost predicate Steps(y: System, s: Settings, act: Action, z: System) {
    Enabled(y.w, s, act) && Apply(y.w, s, act) == Some(z.w)
  }

  /** A derivation goal can be called and gives these answers. */
  ghost predicate CanCall(y: System, o: D.Options, g: GoalId, a: D.Answers) {
    IsBusy(y.w.goals, g) && y.w.goals[g].key.DerivationKey? && g in y.drvs && D.Ready(y.drvs[g], o)
    && Counted(y.w.goals[g], a.nrFailed, a.nrNoSubstituters, a.nrIncompleteClosure)
  }

  ghost predicate CanCallSubst(y: System, g: GoalId, a: Sub.SubstAnswers) {
    IsBusy(y.w.goals, g) && y.w.goals[g].key.SubstitutionKey? && g in y.subs
    && Counted(y.w.goals[g], a.nrFailed, a.nrNoSubstituters, a.nrIncompleteClosure)
  }

  ghost predicate Called(files: Files, y: System, s: Settings, o: D.Options, g: GoalId, pid: Option<Pid>, a: D.Answers, z: System)
    requires CanCall(y, o, g, a)
  {
    var q := y.drvs[g];
    var r := D.Work(q, o, y.valid, a);
    r.outcome.Ends? && Steps(y, s, Work(g, pid, q.state.OutputsSubstituted?, r.outcome.cmd), z)
    && g in z.drvs && z.drvs[g] == r.goal && z.valid == r.valid && z.rooted == y.rooted + DrvRoots(q, o, y.valid, a)
    && Objects(files, y, z, Some(g))
  }

  ghost predicate CalledSubst(files: Files, y: System, s: Settings, g: GoalId, pid: Option<Pid>, a: Sub.SubstAnswers, z: System)
    requires CanCallSubst(y, g, a)
  {
    var q := y.subs[g];
    var r := Sub.SubstWork(q, y.valid, a);
    r.outcome.Ends? && Steps(y, s, Work(g, pid, false, r.outcome.cmd), z)
    && g in z.subs && z.subs[g] == r.goal && z.valid == r.valid && z.rooted == y.rooted + SubRoots(q)
    && Objects(files, y, z, Some(g))
  }

  /** Temporary roots stay valid. */
  ghost predicate Moves(files: Files, y: System, s: Settings, o: D.Options, m: Move, z: System) {
    match m
    case Start(key) => Steps(y, s, AddTop(key), z) && z.valid == y.valid && z.rooted == y.rooted && Objects(files, y, z, None)
    case Call(g, pid, a) => CanCall(y, o, g, a) && Called(files, y, s, o, g, pid, a, z)
    case CallSubst(g, pid, a) => CanCallSubst(y, g, a) && CalledSubst(files, y, s, g, pid, a, z)
    case Loop(act) =>
      !act.Work? && !act.AddTop? && Steps(y, s, act, z) && z.valid == y.valid && z.rooted == y.rooted && Objects(files, y, z, None)
    case Change(valid) => z == y.(valid := valid) && forall p :: Safe(y, p) ==> p in valid
  }

  // What every move keeps

  lemma NewIsOK(files: Files, z: System, o: D.Options, h: GoalId)
    requires Sensible(files) && h in z.w.goals && IsNew(files, z, h)
    ensures GoalOK(files, z, o, h)
  {
  }

  lemma ServedBy(y: System, z: System, g: GoalId, done: iset<Key>)
    requires g in y.w.goals && g in z.w.goals && NothingMissed(y.w, z.w, g, done) && forall k :: k in done ==> Safe(z, k.path)
    ensures Served(y, z, g)
  {
  }

  /** All goals but the one that was called. */
  lemma OthersStay(files: Files, y: System, z: System, s: Settings, o: D.Options, called: Option<GoalId>, done: iset<Key>, h: GoalId)
    requires Sensible(files) && SysInv(files, y, s, o) && Safer(y, z) && Objects(files, y, z, called) && (forall k :: k in done ==> Safe(z, k.path))
    requires h in z.w.goals && called != Some(h)
    requires h in y.w.goals ==>
      z.w.goals[h].key == y.w.goals[h].key && (IsBusy(z.w.goals, h) ==> IsBusy(y.w.goals, h)) && NothingMissed(y.w, z.w, h, done)
    ensures GoalOK(files, z, o, h)
  {
    if h in y.w.goals {
      ServedBy(y, z, h, done);
      GoalStays(files, y, z, o, h);
    } else {
      NewIsOK(files, z, o, h);
    }
  }

  // A derivation goal is called

  /** A goal that goes on or succeeds has read its derivation, which is valid. */
  lemma LoadsFirst(q: D.DrvGoal, o: D.Options, valid: set<Path>, a: D.Answers)
    requires D.Ready(q, o) && !IsLoaded(q)
    ensures var r := D.Work(q, o, valid, a);
      r.outcome == D.SUCCESS || (!r.outcome.IsLast() && IsLoaded(r.goal)) ==>
        q.drvPath in valid && DrvRoots(q, o, valid, a) == {q.drvPath} + D.OutputPaths(q.drv)
  {
  }

  lemma TriesOn(q: D.DrvGoal, o: D.Options, valid: set<Path>, a: D.Answers)
    ensures var r := D.DoTryToBuild(q, o, valid, a);
      q.state.TryToBuild? && !r.outcome.IsLast() ==> !D.IsEarly(r.goal.state) && !r.outcome.cmd.WaitFor?
  {
  }

  /** A goal that has come to its build asks for no goals again. */
  lemma LateStaysLate(q: D.DrvGoal, o: D.Options, valid: set<Path>, a: D.Answers)
    requires D.Inv(q, o, valid) && !D.IsEarly(q.state)
    ensures var r := D.Work(q, o, valid, a); !r.outcome.IsLast() ==> !D.IsEarly(r.goal.state) && !r.outcome.cmd.WaitFor?
  {
    if q.state.BuildDone? {
      D.EndBuildEnds(q, o, valid, a, D.Examined(q, a));
    } else {
      TriesOn(q, o, valid, a);
    }
  }

  /** What the goal expects now is what it has just asked for. */
  lemma ExpectsWhatItAsks(q: D.DrvGoal, o: D.Options, valid: set<Path>, a: D.Answers, k: Key)
    requires D.Inv(q, o, valid)
    ensures var r := D.Work(q, o, valid, a);
      !r.outcome.IsLast() && D.Expects(r.goal, k) ==> r.outcome.cmd.WaitFor? && k in r.outcome.cmd.keys
  {
    D.WorkIsSound(q, o, valid, a);
    if !D.IsEarly(q.state) { LateStaysLate(q, o, valid, a); }
  }

  lemma CallIsSafer(y: System, z: System, o: D.Options, g: GoalId, a: D.Answers)
    requires CanCall(y, o, g, a) && D.Inv(y.drvs[g], o, y.valid)
    requires z.valid == D.Work(y.drvs[g], o, y.valid, a).valid && y.rooted <= z.rooted
    ensures Safer(y, z)
  {
    D.WorkIsSound(y.drvs[g], o, y.valid, a);
  }

  /** The derivation file of a goal that goes on or succeeds is safe. */
  lemma DrvIsSafe(y: System, z: System, o: D.Options, g: GoalId, a: D.Answers)
    requires CanCall(y, o, g, a) && DrvOK(y, o, g) && Safer(y, z) && y.rooted + DrvRoots(y.drvs[g], o, y.valid, a) <= z.rooted
    requires z.valid == D.Work(y.drvs[g], o, y.valid, a).valid
    ensures var r := D.Work(y.drvs[g], o, y.valid, a);
      r.outcome == D.SUCCESS || (!r.outcome.IsLast() && IsLoaded(r.goal)) ==>
        Safe(z, y.drvs[g].drvPath) && D.OutputPaths(y.drvs[g].drv) <= z.rooted
  {
    var q := y.drvs[g];
    D.WorkIsSound(q, o, y.valid, a);
    if !IsLoaded(q) { LoadsFirst(q, o, y.valid, a); }
  }

  lemma CalledIsOK(files: Files, y: System, z: System, s: Settings, o: D.Options, g: GoalId, pid: Option<Pid>, a: D.Answers)
    requires SysInv(files, y, s, o) && CanCall(y, o, g, a) && DrvOK(y, o, g) && Called(files, y, s, o, g, pid, a, z)
    requires HasWorked(y.w, z.w, g, D.Work(y.drvs[g], o, y.valid, a).outcome.cmd) && Safer(y, z)
    ensures GoalOK(files, z, o, g)
  {
    var q := y.drvs[g];
    var r := D.Work(q, o, y.valid, a);
    assert GoalOK(files, y, o, g);
    D.WorkIsSound(q, o, y.valid, a);
    DrvIsSafe(y, z, o, g, a);
    if IsBusy(z.w.goals, g) {
      forall k | D.Expects(r.goal, k) ensures Met(z, g, k) { ExpectsWhatItAsks(q, o, y.valid, a, k); }
    }
  }

  lemma CallKeepsInv(files: Files, y: System, z: System, s: Settings, o: D.Options, g: GoalId, pid: Option<Pid>, a: D.Answers)
    requires Sensible(files) && SysInv(files, y, s, o) && CanCall(y, o, g, a) && Called(files, y, s, o, g, pid, a, z)
    ensures SysInv(files, z, s, o)
  {
    var q := y.drvs[g];
    var r := D.Work(q, o, y.valid, a);
    var act := Work(g, pid, q.state.OutputsSubstituted?, r.outcome.cmd);
    assert GoalOK(files, y, o, g);
    StepKeepsInv(y.w, s, act);
    WorkWorks(y.w, s, g, pid, q.state.OutputsSubstituted?, r.outcome.cmd);
    CallIsSafer(y, z, o, g, a);
    DrvIsSafe(y, z, o, g, a);
    CalledIsOK(files, y, z, s, o, g, pid, a);
    forall h | h in z.w.goals && h != g ensures GoalOK(files, z, o, h) {
      OthersStay(files, y, z, s, o, Some(g), DoneKeys(y.w, g, r.outcome.cmd), h);
    }
  }

  // A substitution goal is called

  /** A goal that is called waits for nothing. */
  lemma CalledWaitsForNothing(w: World, s: Settings, g: GoalId)
    requires Inv(w, s) && IsBusy(w.goals, g) && g in w.batch
    ensures w.goals[g].waitees == {} && forall k :: !Awaits(w, g, k)
  {
    assert Located(w, g);
  }

  lemma SubOKIsInv(y: System, g: GoalId)
    requires g in y.w.goals && g in y.subs && SubOK(y, g)
    ensures Sub.SubstInv(y.subs[g], y.valid)
  {
    var q := y.subs[g];
    if q.state.TryToRun? || q.state.Finished? {
      forall p | p in q.references - {q.storePath} ensures p in y.valid { assert SubExpects(q, p); }
    }
  }

  /** What a substitution goal expects now is what it has just asked for, or is there. */
  lemma SubAsks(q: Sub.SubstGoal, valid: set<Path>, a: Sub.SubstAnswers, p: Path)
    ensures var r := Sub.SubstWork(q, valid, a);
      !r.outcome.IsLast() && SubExpects(r.goal, p) ==>
        (r.goal.state.ReferencesValid? ==> r.outcome.cmd.WaitFor? && SubstitutionKey(p) in r.outcome.cmd.keys)
        && (r.goal.state.TryToRun? || r.goal.state.Finished? ==>
              r.goal.references == q.references && !q.state.Start? && (q.state.ReferencesValid? ==> a.nrFailed == 0))
  {
    if q.state.Start? && a.substitutable.Some? { Sub.KeysOfOthers(q.storePath, a.substitutable.value); }
  }

  lemma CalledSubstIsOK(files: Files, y: System, z: System, s: Settings, o: D.Options, g: GoalId, pid: Option<Pid>, a: Sub.SubstAnswers)
    requires SysInv(files, y, s, o) && CanCallSubst(y, g, a) && SubOK(y, g) && CalledSubst(files, y, s, g, pid, a, z) && g in y.w.batch
    requires HasWorked(y.w, z.w, g, Sub.SubstWork(y.subs[g], y.valid, a).outcome.cmd) && Safer(y, z)
    ensures GoalOK(files, z, o, g)
  {
    var q := y.subs[g];
    var r := Sub.SubstWork(q, y.valid, a);
    assert GoalOK(files, y, o, g);
    SubOKIsInv(y, g);
    Sub.SubstWorkIsSound(q, y.valid, a);
    CalledWaitsForNothing(y.w, s, g);
    if IsBusy(z.w.goals, g) {
      forall p | SubExpects(r.goal, p)
        ensures r.goal.state.ReferencesValid? ==> Met(z, g, SubstitutionKey(p))
        ensures r.goal.state.TryToRun? || r.goal.state.Finished? ==> Safe(z, p)
      {
        SubAsks(q, y.valid, a, p);
        if r.goal.state.TryToRun? || r.goal.state.Finished? {
          assert SubExpects(q, p);
          if q.state.ReferencesValid? { assert Met(y, g, SubstitutionKey(p)); }
        }
      }
    }
  }

  lemma CallSubstKeepsInv(files: Files, y: System, z: System, s: Settings, o: D.Options, g: GoalId, pid: Option<Pid>, a: Sub.SubstAnswers)
    requires Sensible(files) && SysInv(files, y, s, o) && CanCallSubst(y, g, a) && CalledSubst(files, y, s, g, pid, a, z)
    ensures SysInv(files, z, s, o)
  {
    var q := y.subs[g];
    var r := Sub.SubstWork(q, y.valid, a);
    assert GoalOK(files, y, o, g);
    StepKeepsInv(y.w, s, Work(g, pid, false, r.outcome.cmd));
    WorkWorks(y.w, s, g, pid, false, r.outcome.cmd);
    SubOKIsInv(y, g);
    Sub.SubstWorkIsSound(q, y.valid, a);
    assert Safer(y, z);
    CalledSubstIsOK(files, y, z, s, o, g, pid, a);
    forall h | h in z.w.goals && h != g ensures GoalOK(files, z, o, h) {
      OthersStay(files, y, z, s, o, Some(g), DoneKeys(y.w, g, r.outcome.cmd), h);
    }
  }

  // The other moves

  lemma TimeoutServes(w: World, t: World, s: Settings, pid: Pid, h: GoalId)
    requires Inv(w, s) && pid in w.children && Apply(w, s, Timeout(pid)) == Some(t) && h in w.goals && h in t.goals
    ensures t.goals[h].key == w.goals[h].key && (IsBusy(t.goals, h) ==> IsBusy(w.goals, h) && NothingMissed(w, t, h, iset{}))
  {
    ChildTerminatedKeepsInv(w, s, pid);
    var u, g := ChildTerminated(w, pid).value, w.children[pid].goal;
    AmDoneEnds(u, s, g, Failed);
    if h != g {
      SameAwaits(w, u, h);
      MissedOn(w, u, t, h, iset{});
    }
  }

  lemma DestroyServes(w: World, t: World, s: Settings, g: GoalId, pid: Option<Pid>, h: GoalId)
    requires Enabled(w, s, Destroy(g, pid)) && Apply(w, s, Destroy(g, pid)) == Some(t) && h in w.goals && h in t.goals
    ensures t.goals[h] == w.goals[h] && NothingMissed(w, t, h, iset{})
  {
    forall k | Awaits(w, h, k) ensures Awaits(t, h, k) {
      var e :| e in w.goals[h].waitees && e in w.goals && w.goals[e].key == k;
      assert e in t.goals[h].waitees && e in t.goals;
    }
  }

  lemma LoopServes(y: System, z: System, s: Settings, act: Action, h: GoalId)
    requires Inv(y.w, s) && Steps(y, s, act, z) && !act.Work? && h in y.w.goals && h in z.w.goals
    ensures z.w.goals[h].key == y.w.goals[h].key
    ensures IsBusy(z.w.goals, h) ==> IsBusy(y.w.goals, h) && NothingMissed(y.w, z.w, h, iset{})
  {
    match act {
      case AddTop(key) =>
        MakeGoalKeepsInv(y.w, s, key, {});
        GrownMissesNothing(y.w, z.w, h);
      case Timeout(pid) => TimeoutServes(y.w, z.w, s, pid, h);
      case Destroy(g, pid) => DestroyServes(y.w, z.w, s, g, pid, h);
      case _ => SameAwaits(y.w, z.w, h);
    }
  }

  lemma LoopKeepsInv(files: Files, y: System, z: System, s: Settings, o: D.Options, act: Action)
    requires Sensible(files) && SysInv(files, y, s, o) && !act.Work? && Steps(y, s, act, z)
    requires z.valid == y.valid && z.rooted == y.rooted && Objects(files, y, z, None)
    ensures SysInv(files, z, s, o)
  {
    StepKeepsInv(y.w, s, act);
    forall h | h in z.w.goals ensures GoalOK(files, z, o, h) {
      if h in y.w.goals {
        LoopServes(y, z, s, act, h);
        if IsBusy(z.w.goals, h) { ServedBy(y, z, h, iset{}); }
        GoalStays(files, y, z, o, h);
      } else {
        NewIsOK(files, z, o, h);
      }
    }
  }

  lemma ChangeKeepsInv(files: Files, y: System, z: System, s: Settings, o: D.Options)
    requires SysInv(files, y, s, o) && z == y.(valid := z.valid) && forall p :: Safe(y, p) ==> p in z.valid
    ensures SysInv(files, z, s, o)
  {
    forall h | h in z.w.goals ensures GoalOK(files, z, o, h) {
      assert GoalOK(files, y, o, h);
      GoalStays(files, y, z, o, h);
    }
  }

  lemma MoveKeepsInv(files: Files, y: System, z: System, s: Settings, o: D.Options, m: Move)
    requires Sensible(files) && SysInv(files, y, s, o) && Moves(files, y, s, o, m, z)
    ensures SysInv(files, z, s, o)
  {
    match m {
      case Start(key) => LoopKeepsInv(files, y, z, s, o, AddTop(key));
      case Call(g, pid, a) => CallKeepsInv(files, y, z, s, o, g, pid, a);
      case CallSubst(g, pid, a) => CallSubstKeepsInv(files, y, z, s, o, g, pid, a);
      case Loop(act) => LoopKeepsInv(files, y, z, s, o, act);
      case Change(valid) => ChangeKeepsInv(files, y, z, s, o);
    }
  }

  // Runs

  ghost predicate SystemRun(files: Files, systems: seq<System>, s: Settings, o: D.Options, moves: seq<Move>) {
    |systems| == |moves| + 1 && systems[0].w == INITIAL
    && forall i {:trigger moves[i]} :: 0 <= i < |moves| ==> Moves(files, systems[i], s, o, moves[i], systems[i + 1])
  }

  lemma {:induction false} SystemRunKeepsInv(files: Files, systems: seq<System>, s: Settings, o: D.Options, moves: seq<Move>, n: nat)
    requires Sensible(files) && SystemRun(files, systems, s, o, moves) && n < |systems|
    ensures SysInv(files, systems[n], s, o)
  {
    if n > 0 {
      SystemRunKeepsInv(files, systems, s, o, moves, n - 1);
      MoveKeepsInv(files, systems[n - 1], systems[n], s, o, moves[n - 1]);
    } else {
      assert SlotPids(INITIAL) == {};
    }
  }

  lemma EarlyNeverFails(y: System, s: Settings, o: D.Options, g: GoalId, a: D.Answers)
    requires Inv(y.w, s) && CanCall(y, o, g, a) && DrvOK(y, o, g) && g in y.w.batch && D.IsEarly(y.drvs[g].state)
    ensures D.Work(y.drvs[g], o, y.valid, a).outcome != D.AssertionFails
  {
    var q := y.drvs[g];
    CalledWaitsForNothing(y.w, s, g);
    D.WorkIsSound(q, o, y.valid, a);
    if q.state.HaveDerivation? { assert D.Expects(q, SubstitutionKey(q.drvPath)); }
    if q.state.InputsRealised? {
      forall p | p in q.drv.inputDrvs ensures a.nrFailed > 0 || p in y.valid { assert D.Expects(q, DerivationKey(p)); }
    }
  }

  /** Over every run of the worker with its goals: the assertions about valid paths hold.  A
      derivation goal that is called fails one only at the end of a build, and a substitution
      goal none. */
  lemma ExpectedPathsAreValid(files: Files, systems: seq<System>, s: Settings, o: D.Options, moves: seq<Move>, n: nat, g: GoalId)
    requires Sensible(files) && SystemRun(files, systems, s, o, moves) && n < |systems| && g in systems[n].w.batch
    ensures forall a :: CanCall(systems[n], o, g, a) && D.Work(systems[n].drvs[g], o, systems[n].valid, a).outcome == D.AssertionFails ==>
      systems[n].drvs[g].state.BuildDone?
    ensures forall a :: CanCallSubst(systems[n], g, a) ==> Sub.SubstWork(systems[n].subs[g], systems[n].valid, a).outcome != D.AssertionFails
  {
    var y := systems[n];
    SystemRunKeepsInv(files, systems, s, o, moves, n);
    forall a | CanCall(y, o, g, a) && D.Work(y.drvs[g], o, y.valid, a).outcome == D.AssertionFails ensures y.drvs[g].state.BuildDone? {
      assert GoalOK(files, y, o, g);
      if D.IsEarly(y.drvs[g].state) { EarlyNeverFails(y, s, o, g, a); }
    }
    forall a | CanCallSubst(y, g, a) ensures Sub.SubstWork(y.subs[g], y.valid, a).outcome != D.AssertionFails {
      assert GoalOK(files, y, o, g);
      SubstNeverFails(y, s, g, a);
    }
  }

  lemma SubstNeverFails(y: System, s: Settings, g: GoalId, a: Sub.SubstAnswers)
    requires Inv(y.w, s) && CanCallSubst(y, g, a) && SubOK(y, g) && g in y.w.batch
    ensures Sub.SubstWork(y.subs[g], y.valid, a).outcome != D.AssertionFails
  {
    var q := y.subs[g];
    CalledWaitsForNothing(y.w, s, g);
    if q.state.ReferencesValid? && a.nrFailed == 0 {
      forall p | p in q.references - {q.storePath} ensures p in y.valid {
        assert SubExpects(q, p);
        assert Met(y, g, SubstitutionKey(p));
      }
    }
  }
}
