/** What becomes of the outputs of a build (DerivationGoal::registerOutputs of
    nix/libstore/build.cc, in normal mode): which are accepted, and what is recorded. */
module OutputChecks {
  import opened ByteStrings
  import opened Derivations
  import opened Wrappers
  import DerivationText

  /** What is recorded of an output and compared between rounds. */
  datatype Info = Info(path: Path, hash: string, references: set<Path>)

  /** The value of an attribute such as allowedReferences. */
  datatype Limit = Unlimited | Unreadable | Named(paths: set<Path>)

  datatype Limits = Limits(allowedReferences: Limit, allowedRequisites: Limit, disallowedReferences: Limit, disallowedRequisites: Limit)

  /** What is found at an output path: `trusted` are owner and permissions, `plain` is a
      regular file that is not executable, `declared` that the hash given in advance can be
      read, `hashMatches` compares it with the contents if these can be hashed; `requisites` are the closures of the references if
      they can be computed. */
  datatype Product =
    | Absent
    | Inaccessible
    | Present(trusted: bool, plain: bool, declared: bool, hashMatches: Option<bool>, hash: string, references: set<Path>, requisites: Option<set<Path>>)

  /** Rejected by a build error, or cut short by another one. */
  datatype Verdict = Accepted | Rejected | Aborted

  predicate Keeps(l: Limit, allowed: bool, used: set<Path>) {
    l.Unlimited? || (l.Named? && if allowed then used <= l.paths else used !! l.paths)
  }

  function CheckReferences(l: Limit, allowed: bool, used: set<Path>): Verdict {
    if Keeps(l, allowed, used) then Accepted else Rejected
  }

  function CheckRequisites(l: Limit, allowed: bool, used: Option<set<Path>>): Verdict {
    if l.Unlimited? then Accepted
    else if l.Unreadable? then Rejected
    else if used.None? then Aborted
    else CheckReferences(l, allowed, used.value)
  }

  /** The first verdict that does not accept. */
  function AndThen(v: Verdict, next: Verdict): Verdict {
    if v.Accepted? then next else v
  }

  function CheckLimits(limits: Limits, p: Product): Verdict
    requires p.Present?
  {
    AndThen(CheckReferences(limits.allowedReferences, true, p.references),
    AndThen(CheckRequisites(limits.allowedRequisites, true, p.requisites),
    AndThen(CheckReferences(limits.disallowedReferences, false, p.references),
            CheckRequisites(limits.disallowedRequisites, false, p.requisites))))
  }

  predicate IsRecursive(o: DerivationOutput) {
    |o.hashAlgo| >= 2 && o.hashAlgo[..2] == "r:"
  }

  function CheckHash(o: DerivationOutput, p: Product): Verdict
    requires p.Present?
  {
    if o.hash == "" then Accepted
    else if !p.declared then Aborted
    else if !IsRecursive(o) && !p.plain then Rejected
    else if p.hashMatches.None? then Aborted
    else if p.hashMatches.value then Accepted
    else Rejected
  }

  function Judge(o: DerivationOutput, p: Product, limits: Limits): Verdict {
    match p
    case Absent => Rejected
    case Inaccessible => Aborted
    case Present(trusted, _, _, _, _, _, _) =>
      if !trusted then Rejected else AndThen(CheckHash(o, p), CheckLimits(limits, p))
  }

  /** What it takes for an output to be accepted. */
  ghost predicate Acceptable(o: DerivationOutput, p: Product, limits: Limits) {
    p.Present? && p.trusted
    && (o.hash != "" ==> p.declared && p.hashMatches == Some(true) && (IsRecursive(o) || p.plain))
    && Keeps(limits.allowedReferences, true, p.references) && Keeps(limits.disallowedReferences, false, p.references)
    && (limits.allowedRequisites.Unlimited? || (p.requisites.Some? && Keeps(limits.allowedRequisites, true, p.requisites.value)))
    && (limits.disallowedRequisites.Unlimited? || (p.requisites.Some? && Keeps(limits.disallowedRequisites, false, p.requisites.value)))
  }

  lemma AcceptedIsAcceptable(o: DerivationOutput, p: Product, limits: Limits)
    ensures Judge(o, p, limits).Accepted? <==> Acceptable(o, p, limits)
  {
  }

  /** Everything that may have to be read or computed to judge the output could be. */
  predicate Checkable(o: DerivationOutput, p: Product, limits: Limits) {
    !p.Inaccessible?
    && (p.Present? && o.hash != "" ==> p.declared && p.hashMatches.Some?)
    && (p.Present? && (limits.allowedRequisites.Named? || limits.disallowedRequisites.Named?) ==> p.requisites.Some?)
  }

  /** An output that can be checked is accepted or rejected; another exception means that
      something could not be checked. */
  lemma RejectedExactly(o: DerivationOutput, p: Product, limits: Limits)
    ensures Checkable(o, p, limits) ==> (Judge(o, p, limits).Rejected? <==> !Acceptable(o, p, limits))
    ensures Judge(o, p, limits).Aborted? ==> !Checkable(o, p, limits)
  {
  }

  function Find(products: map<Path, Product>, path: Path): Product {
    if path in products then products[path] else Absent
  }

  /** The infos of the outputs looked at, or the verdict that stopped the loop. */
  datatype Examined = Infos(infos: seq<Info>) | Stopped(verdict: Verdict)

  /** One output; those that were valid before the build are skipped. */
  function ExamineOne(o: DerivationOutput, missing: set<Path>, products: map<Path, Product>, limits: Limits, infos: seq<Info>): Examined {
    if o.path !in missing then Infos(infos)
    else
      var p := Find(products, o.path);
      var v := Judge(o, p, limits);
      if v.Accepted? then Infos(infos + [Info(o.path, p.hash, p.references)]) else Stopped(v)
  }

  /** The loop over the outputs. */
  function Examine(d: Derivation, missing: set<Path>, products: map<Path, Product>, limits: Limits, names: seq<string>): Examined
    requires forall n :: n in names ==> n in d.outputs
  {
    if names == [] then Infos([])
    else
      var before := Examine(d, missing, products, limits, names[..|names| - 1]);
      if before.Stopped? then before else ExamineOne(d.outputs[names[|names| - 1]], missing, products, limits, before.infos)
  }

  lemma ExamineStep(d: Derivation, missing: set<Path>, products: map<Path, Product>, limits: Limits, names: seq<string>, i: nat)
    requires i < |names| && (forall n :: n in names ==> n in d.outputs) && Examine(d, missing, products, limits, names[..i]).Infos?
    ensures Examine(d, missing, products, limits, names[..i + 1])
         == ExamineOne(d.outputs[names[i]], missing, products, limits, Examine(d, missing, products, limits, names[..i]).infos)
  {
    assert names[..i + 1][..i] == names[..i];
  }

  method ExamineInOrder(d: Derivation, missing: set<Path>, products: map<Path, Product>, limits: Limits, names: seq<string>) returns (r: Examined)
    requires forall n :: n in names ==> n in d.outputs
    ensures r == Examine(d, missing, products, limits, names)
  {
    r := Infos([]);
    for i := 0 to |names|
      invariant r.Infos? && Examine(d, missing, products, limits, names[..i]) == r
    {
      ExamineStep(d, missing, products, limits, names, i);
      r := ExamineOne(d.outputs[names[i]], missing, products, limits, r.infos);
      if r.Stopped? {
        StoppedForGood(d, missing, products, limits, names, i + 1);
        return;
      }
    }
    assert names[..|names|] == names;
  }

  method ExamineOutputs(d: Derivation, missing: set<Path>, products: map<Path, Product>, limits: Limits) returns (r: Examined)
    ensures r == Examine(d, missing, products, limits, Sorted(d.outputs.Keys))
  {
    var names := DerivationText.InOrder(d.outputs.Keys);
    r := ExamineInOrder(d, missing, products, limits, names);
  }

  lemma {:induction false} StoppedForGood(d: Derivation, missing: set<Path>, products: map<Path, Product>, limits: Limits, names: seq<string>, n: nat)
    requires n <= |names| && (forall x :: x in names ==> x in d.outputs) && Examine(d, missing, products, limits, names[..n]).Stopped?
    ensures Examine(d, missing, products, limits, names) == Examine(d, missing, products, limits, names[..n])
    decreases |names|
  {
    if n < |names| {
      var init := names[..|names| - 1];
      assert init[..n] == names[..n];
      StoppedForGood(d, missing, products, limits, init, n);
    } else {
      assert names[..n] == names;
    }
  }

  /** The loop ends well if and only if every output that was missing is acceptable; it has
      recorded those outputs, in order and as they were found, and no others. */
  lemma {:induction false} ExamineRecords(d: Derivation, missing: set<Path>, products: map<Path, Product>, limits: Limits, names: seq<string>)
    requires forall n :: n in names ==> n in d.outputs
    ensures var r := Examine(d, missing, products, limits, names);
      (r.Infos? <==> forall n :: n in names && d.outputs[n].path in missing ==> Acceptable(d.outputs[n], Find(products, d.outputs[n].path), limits))
      && (r.Stopped? ==> !r.verdict.Accepted?)
      && (r.Infos? ==> r.infos == Recorded(d, missing, products, names))
    decreases |names|
  {
    if names != [] {
      var init, last := names[..|names| - 1], names[|names| - 1];
      ExamineRecords(d, missing, products, limits, init);
      AcceptedIsAcceptable(d.outputs[last], Find(products, d.outputs[last].path), limits);
      assert forall n :: n in names <==> n in init || n == last;
    }
  }

  /** The missing outputs as they were found. */
  function Recorded(d: Derivation, missing: set<Path>, products: map<Path, Product>, names: seq<string>): seq<Info>
    requires forall n :: n in names ==> n in d.outputs
  {
    if names == [] then []
    else
      var o := d.outputs[names[|names| - 1]];
      var p := Find(products, o.path);
      Recorded(d, missing, products, names[..|names| - 1])
      + if o.path in missing && p.Present? then [Info(o.path, p.hash, p.references)] else []
  }

  function InfoPaths(infos: seq<Info>): set<Path> {
    set i | 0 <= i < |infos| :: infos[i].path
  }

  /** All that was missing is recorded. */
  lemma {:induction false} RecordedPaths(d: Derivation, missing: set<Path>, products: map<Path, Product>, limits: Limits, names: seq<string>)
    requires (forall n :: n in names ==> n in d.outputs) && Examine(d, missing, products, limits, names).Infos?
    ensures InfoPaths(Examine(d, missing, products, limits, names).infos)
         == set n | n in names && d.outputs[n].path in missing :: d.outputs[n].path
    decreases |names|
  {
    if names != [] {
      var init, last := names[..|names| - 1], names[|names| - 1];
      RecordedPaths(d, missing, products, limits, init);
      var o := d.outputs[last];
      var before, after := Examine(d, missing, products, limits, init).infos, Examine(d, missing, products, limits, names).infos;
      assert forall n :: n in names <==> n in init || n == last;
      if o.path in missing { InfoPathsStep(before, after[|before|]); }
      PathsStep(d, missing, init, last);
    }
  }

  lemma InfoPathsStep(infos: seq<Info>, i: Info)
    ensures InfoPaths(infos + [i]) == InfoPaths(infos) + {i.path}
  {
    var more := infos + [i];
    assert more[|infos|] == i;
    forall p | p in InfoPaths(infos) ensures p in InfoPaths(more) {
      var k :| 0 <= k < |infos| && infos[k].path == p;
      assert more[k] == infos[k];
    }
  }

  lemma PathsStep(d: Derivation, missing: set<Path>, init: seq<string>, last: string)
    requires (forall n :: n in init ==> n in d.outputs) && last in d.outputs
    ensures (set n | n in init + [last] && d.outputs[n].path in missing :: d.outputs[n].path)
         == (set n | n in init && d.outputs[n].path in missing :: d.outputs[n].path)
            + if d.outputs[last].path in missing then {d.outputs[last].path} else {}
  {
    var names := init + [last];
    assert forall n :: n in names <==> n in init || n == last;
    var all := set n | n in names && d.outputs[n].path in missing :: d.outputs[n].path;
    if d.outputs[last].path in missing { assert last in names && d.outputs[last].path in all; }
    forall p | p in (set n | n in init && d.outputs[n].path in missing :: d.outputs[n].path) ensures p in all {
      var n :| n in init && d.outputs[n].path in missing && d.outputs[n].path == p;
      assert n in names;
    }
  }

  function MissingNames(d: Derivation, missing: set<Path>, names: seq<string>): set<string>
    requires forall n :: n in names ==> n in d.outputs
  {
    set n | n in names && d.outputs[n].path in missing
  }

  /** As many infos as there are missing outputs. */
  lemma {:induction false} RecordedCount(d: Derivation, missing: set<Path>, products: map<Path, Product>, limits: Limits, names: seq<string>)
    requires (forall n :: n in names ==> n in d.outputs) && Distinct(names) && Examine(d, missing, products, limits, names).Infos?
    ensures |Examine(d, missing, products, limits, names).infos| == |MissingNames(d, missing, names)|
    decreases |names|
  {
    if names != [] {
      var init, last := names[..|names| - 1], names[|names| - 1];
      RecordedCount(d, missing, products, limits, init);
      MissingNamesStep(d, missing, names);
    }
  }

  lemma MissingNamesStep(d: Derivation, missing: set<Path>, names: seq<string>)
    requires (forall n :: n in names ==> n in d.outputs) && Distinct(names) && names != []
    ensures var init, last := names[..|names| - 1], names[|names| - 1];
      |MissingNames(d, missing, names)| == |MissingNames(d, missing, init)| + if d.outputs[last].path in missing then 1 else 0
  {
    var init, last := names[..|names| - 1], names[|names| - 1];
    assert forall n :: n in names <==> n in init || n == last;
    assert last !in init;
    if d.outputs[last].path in missing {
      assert MissingNames(d, missing, names) == MissingNames(d, missing, init) + {last};
    } else {
      assert MissingNames(d, missing, names) == MissingNames(d, missing, init);
    }
  }
}
