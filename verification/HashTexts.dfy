/** What a hash modulo fixed-output derivations tells (hashDerivationModulo of
    nix/libstore/derivations.cc): the text that is hashed, with hashes in place of input paths,
    can be read back, so that equal hashes mean equal inputs. */
module HashTexts {
  import opened Graphs
  import opened Wrappers
  import opened ByteStrings
  import opened Derivations
  import opened H = HashModulo

  // Reading a text whose inputs are named by any strings

  ghost function ParseNamed(s: string): (r: Parsed<(string, set<string>)>)
    ensures r.Ok? ==> |r.rest| < |s|
  {
    var (_, s1) :- Expect("(", s);
    var (name, s2) :- ParseString(s1);
    var (_, s3) :- Expect(",[", s2);
    var (names, s4) :- ParseStrings(s3, false);
    var (_, s5) :- Expect(")", s4);
    Ok((name, Elements(names)), s5)
  }

  ghost function ParseMasked(s: string): Parsed<Derivation> {
    var (_, s1) :- Expect("Derive([", s);
    var (outputs, s2) :- ParseList(ParseOutput, s1);
    var (_, s3) :- Expect(",[", s2);
    var (inputs, s4) :- ParseList(ParseNamed, s3);
    var (d, s5) :- ParseSources(s4);
    Ok(d.(outputs := FromEntries(outputs), inputDrvs := FromEntries(inputs)), s5)
  }

  ghost predicate GoodNamed(i: (string, set<string>)) {
    NulFree(i.0) && forall x :: x in i.1 ==> NulFree(x)
  }

  /** Well-formed, but for inputs that need not be paths. */
  ghost predicate Masked(d: Derivation) {
    WellFormed(d.(inputDrvs := map[])) && forall k :: k in d.inputDrvs ==> GoodNamed((k, d.inputDrvs[k]))
  }

  lemma NamedBack(i: (string, set<string>), rest: string)
    requires GoodNamed(i)
    ensures ParseNamed(PrintedInput(i) + rest) == Ok(i, rest)
  {
    var s2 := ",[" + (Listed(PrintedString, Sorted(i.1)) + (")" + rest));
    InputText(i, rest);
    ExpectBack("(", PrintedString(i.0) + s2);
    StringBack(i.0, s2);
    NamesBack(i.1, rest);
  }

  lemma AllNamedBack(inputs: map<string, set<string>>, rest: string)
    requires forall k :: k in inputs ==> GoodNamed((k, inputs[k]))
    ensures ParseList(ParseNamed, Listed(PrintedInput, Entries(inputs)) + rest) == Ok(Entries(inputs), rest)
  {
    EntriesGood(inputs);
    forall x | x in Entries(inputs) ensures ReadsBack(PrintedInput, ParseNamed, x) {
      forall t ensures ParseNamed(PrintedInput(x) + t) == Ok(x, t) { NamedBack(x, t); }
    }
    ListBack(PrintedInput, ParseNamed, Entries(inputs), true, rest);
  }

  lemma MaskedFrom(s: string, s1: string, outputs: seq<(string, DerivationOutput)>, s2: string, s3: string,
                   inputs: seq<(string, set<string>)>, s4: string, d: Derivation, s5: string)
    requires Expect("Derive([", s) == Ok((), s1) && ParseList(ParseOutput, s1) == Ok(outputs, s2)
    requires Expect(",[", s2) == Ok((), s3) && ParseList(ParseNamed, s3) == Ok(inputs, s4) && ParseSources(s4) == Ok(d, s5)
    ensures ParseMasked(s) == Ok(d.(outputs := FromEntries(outputs), inputDrvs := FromEntries(inputs)), s5)
  {
  }

  lemma MaskedBack(d: Derivation, rest: string)
    requires Masked(d)
    ensures ParseMasked(Unparse(d) + rest) == Ok(d, rest)
  {
    var bare := d.(inputDrvs := map[]);
    var outputs, inputs := Listed(PrintedOutput, Entries(d.outputs)), Listed(PrintedInput, Entries(d.inputDrvs));
    assert UnparsedSources(d) == UnparsedSources(bare);
    var s4 := UnparsedSources(d) + rest;
    var s3 := inputs + s4;
    var s2 := ",[" + s3;
    var s1 := outputs + s2;
    Regroup5("Derive([", outputs, ",[", inputs, UnparsedSources(d), rest);
    ExpectBack("Derive([", s1);
    OutputsBack(d.outputs, s2);
    ExpectBack(",[", s3);
    AllNamedBack(d.inputDrvs, s4);
    SourcesBack(bare, rest);
    EntriesBack(d.outputs);
    EntriesBack(d.inputDrvs);
    MaskedFrom("Derive([" + s1, s1, Entries(d.outputs), s2, s3, Entries(d.inputDrvs), s4,
               Derivation(map[], map[], d.inputSrcs, d.platform, d.builder, d.args, d.env), rest);
  }

  lemma MaskedIsInjective(d: Derivation, e: Derivation)
    requires Masked(d) && Masked(e) && Unparse(d) == Unparse(e)
    ensures d == e
  {
    assert Unparse(d) + "" == Unparse(e) + "";
    MaskedBack(d, "");
    MaskedBack(e, "");
  }

  // What equal hashes mean

  /** No two texts have the same hash, and a printed hash holds no NUL. */
  ghost predicate Ideal(hash: string -> Hash) {
    (forall s, t :: hash(s) == hash(t) ==> s == t) && forall s :: NulFree(hash(s))
  }

  lemma HashesAreNulFree(hash: string -> Hash, drvs: Drvs, p: Path)
    requires Ideal(hash) && Grounded(drvs)
    ensures var h := HashOf(HashWith(hash), drvs, p); h.Some? ==> NulFree(h.value)
  {
    if p in drvs {
      HashOfIs(HashWith(hash), drvs, p);
      HashModuloIs(hash, drvs, drvs[p]);
    }
  }

  /** The derivation whose text is hashed. */
  ghost function MaskedInputs(hash: string -> Hash, drvs: Drvs, d: Derivation): Derivation
    requires Grounded(drvs) && Complete(d.inputDrvs, InputHashes(HashWith(hash), drvs, d))
  {
    d.(inputDrvs := Replaced(d.inputDrvs, InputHashes(HashWith(hash), drvs, d)))
  }

  lemma ReplacedIsGood(inputs: map<Path, set<string>>, hashes: map<Path, Option<Hash>>)
    requires Complete(inputs, hashes) && forall i :: i in inputs ==> GoodNamed((hashes[i].value, inputs[i]))
    ensures forall k :: k in Replaced(inputs, hashes) ==> GoodNamed((k, Replaced(inputs, hashes)[k]))
  {
    var l := Entries(inputs);
    var r := ReplacedEntries(inputs, l, hashes);
    FromEntriesGood(r);
    EntriesGood(inputs);
    forall x | x in r ensures GoodNamed(x) {
      var n :| 0 <= n < |r| && r[n] == x;
      assert l[n] in l;
    }
  }

  lemma NamedByHash(hash: string -> Hash, drvs: Drvs, d: Derivation, i: Path)
    requires Ideal(hash) && Grounded(drvs) && WellFormed(d) && i in d.inputDrvs && HashOf(HashWith(hash), drvs, i).Some?
    ensures GoodNamed((HashOf(HashWith(hash), drvs, i).value, d.inputDrvs[i]))
  {
    HashesAreNulFree(hash, drvs, i);
    assert GoodInput((i, d.inputDrvs[i]));
  }

  lemma BareIsWellFormed(d: Derivation)
    requires WellFormed(d)
    ensures WellFormed(d.(inputDrvs := map[]))
  {
  }

  lemma ReplacedIsMasked(hash: string -> Hash, drvs: Drvs, d: Derivation)
    requires Ideal(hash) && Grounded(drvs) && WellFormed(d) && Complete(d.inputDrvs, InputHashes(HashWith(hash), drvs, d))
    ensures Masked(MaskedInputs(hash, drvs, d))
  {
    var hashes := InputHashes(HashWith(hash), drvs, d);
    forall i | i in d.inputDrvs ensures GoodNamed((hashes[i].value, d.inputDrvs[i])) { NamedByHash(hash, drvs, d, i); }
    ReplacedIsGood(d.inputDrvs, hashes);
    BareIsWellFormed(d);
    assert MaskedInputs(hash, drvs, d).(inputDrvs := map[]) == d.(inputDrvs := map[]);
  }

  lemma {:induction false} LastOfKeyCounts<V>(l: seq<(string, V)>, n: nat)
    requires n < |l| && forall j :: n < j < |l| ==> l[j].0 != l[n].0
    ensures l[n].0 in FromEntries(l) && FromEntries(l)[l[n].0] == l[n].1
    decreases |l|
  {
    if n < |l| - 1 {
      var init := l[..|l| - 1];
      assert forall j :: n < j < |init| ==> init[j] == l[j];
      LastOfKeyCounts(init, n);
    }
  }

  lemma LaterEntry(inputs: map<Path, set<string>>, n: nat, m: nat)
    requires n < m < |Entries(inputs)|
    ensures var l := Entries(inputs); l[m].0 in inputs && Lt(l[n].0, l[m].0)
  {
    EntryAt(inputs, n);
    EntryAt(inputs, m);
  }

  lemma EntryAt(inputs: map<Path, set<string>>, n: nat)
    requires n < |Entries(inputs)|
    ensures var keys := Sorted(inputs.Keys); |keys| == |Entries(inputs)| && keys[n] in inputs && Entries(inputs)[n] == (keys[n], inputs[keys[n]])
  {
    assert Sorted(inputs.Keys)[n] in Sorted(inputs.Keys);
  }

  /** The derivation that is hashed has the inputs under their hashes. */
  lemma ReplacedExactly(inputs: map<Path, set<string>>, hashes: map<Path, Option<Hash>>, h: Hash)
    requires Complete(inputs, hashes)
    ensures h in Replaced(inputs, hashes) <==> exists i :: i in inputs && hashes[i].value == h
  {
    var l := Entries(inputs);
    var r := ReplacedEntries(inputs, l, hashes);
    FromEntriesKeys(r);
    if x :| x in r && x.0 == h {
      var n :| 0 <= n < |r| && r[n] == x;
      EntryAt(inputs, n);
      assert l[n].0 in inputs;
    }
    if i :| i in inputs && hashes[i].value == h {
      EntryOf(inputs, i);
      var n :| 0 <= n < |l| && l[n] == (i, inputs[i]);
      assert r[n] in r;
    }
  }

  /** Where two hashes are the same, the input with the greater path counts. */
  lemma LastInputCounts(inputs: map<Path, set<string>>, hashes: map<Path, Option<Hash>>, i: Path)
    requires Complete(inputs, hashes) && i in inputs && forall j :: j in inputs && Lt(i, j) ==> hashes[j].value != hashes[i].value
    ensures hashes[i].value in Replaced(inputs, hashes) && Replaced(inputs, hashes)[hashes[i].value] == inputs[i]
  {
    var l := Entries(inputs);
    var r := ReplacedEntries(inputs, l, hashes);
    EntryOf(inputs, i);
    var n :| 0 <= n < |l| && l[n] == (i, inputs[i]);
    forall m | n < m < |r| ensures r[m].0 != r[n].0 { LaterEntry(inputs, n, m); }
    LastOfKeyCounts(r, n);
  }

  /** Fixed-output means: a single output, called "out", whose hash is not empty. */
  lemma FixedExactly(d: Derivation)
    ensures IsFixedOutput(d) <==> exists o: DerivationOutput :: d.outputs == map["out" := o] && o.hash != ""
  {
    if IsFixedOutput(d) { assert d.outputs == map["out" := d.outputs["out"]]; }
  }

  /** With an ideal hash function, two well-formed derivations that are not fixed-output have
      the same hash if and only if they are the same once hashes stand for their inputs. */
  lemma EqualHashesExactly(hash: string -> Hash, a: Drvs, d: Derivation, b: Drvs, e: Derivation)
    requires Ideal(hash) && Grounded(a) && Grounded(b) && WellFormed(d) && WellFormed(e) && !IsFixedOutput(d) && !IsFixedOutput(e)
    requires H.HashModulo(HashWith(hash), a, d).Some? && H.HashModulo(HashWith(hash), b, e).Some?
    ensures Complete(d.inputDrvs, InputHashes(HashWith(hash), a, d)) && Complete(e.inputDrvs, InputHashes(HashWith(hash), b, e))
    ensures H.HashModulo(HashWith(hash), a, d) == H.HashModulo(HashWith(hash), b, e) <==> MaskedInputs(hash, a, d) == MaskedInputs(hash, b, e)
  {
    HashModuloIs(hash, a, d);
    HashModuloIs(hash, b, e);
    ReplacedIsMasked(hash, a, d);
    ReplacedIsMasked(hash, b, e);
    if H.HashModulo(HashWith(hash), a, d) == H.HashModulo(HashWith(hash), b, e) {
      MaskedIsInjective(MaskedInputs(hash, a, d), MaskedInputs(hash, b, e));
    }
  }

  // Fixed outputs

  /** The hash and the path of a fixed output cannot be mistaken for more fields of the text. */
  predicate ColonFree(o: DerivationOutput) {
    ':' !in o.hash && ':' !in o.path
  }

  lemma ColonInTail(a: string, b: string, c: string, d: string)
    requires a + ":" + b == c + ":" + d && |a| < |c|
    ensures ':' in b
  {
    var s := a + ":" + b;
    assert s[|c|] == ':';
    assert s[|c|] == b[|c| - |a| - 1];
  }

  /** What follows the last colon of a text, and what precedes it. */
  lemma LastColon(a: string, b: string, c: string, d: string)
    requires a + ":" + b == c + ":" + d && ':' !in b && ':' !in d
    ensures a == c && b == d
  {
    var s := a + ":" + b;
    if |a| < |c| { ColonInTail(a, b, c, d); }
    if |c| < |a| { ColonInTail(c, d, a, b); }
    assert a == s[..|a|] && c == s[..|c|] && b == s[|a| + 1..] && d == s[|c| + 1..];
  }

  lemma FixedTextIsInjective(d: Derivation, e: Derivation)
    requires IsFixedOutput(d) && IsFixedOutput(e) && ColonFree(d.outputs["out"]) && ColonFree(e.outputs["out"])
    requires FixedText(d) == FixedText(e)
    ensures d.outputs["out"] == e.outputs["out"]
  {
    var x, y, f := d.outputs["out"], e.outputs["out"], "fixed:out:";
    LastColon(f + x.hashAlgo + ":" + x.hash, x.path, f + y.hashAlgo + ":" + y.hash, y.path);
    LastColon(f + x.hashAlgo, x.hash, f + y.hashAlgo, y.hash);
    assert x.hashAlgo == (f + x.hashAlgo)[|f|..] && y.hashAlgo == (f + y.hashAlgo)[|f|..];
  }

  /** With an ideal hash function, two fixed-output derivations have the same hash if and only if
      they promise the same content at the same path, whatever their inputs are. */
  lemma FixedHashesExactly(hash: string -> Hash, a: Drvs, d: Derivation, b: Drvs, e: Derivation)
    requires Ideal(hash) && Grounded(a) && Grounded(b) && IsFixedOutput(d) && IsFixedOutput(e)
    requires ColonFree(d.outputs["out"]) && ColonFree(e.outputs["out"])
    ensures H.HashModulo(HashWith(hash), a, d).Some? && H.HashModulo(HashWith(hash), b, e).Some?
    ensures H.HashModulo(HashWith(hash), a, d) == H.HashModulo(HashWith(hash), b, e) <==> d.outputs["out"] == e.outputs["out"]
  {
    HashModuloIs(hash, a, d);
    HashModuloIs(hash, b, e);
    if H.HashModulo(HashWith(hash), a, d) == H.HashModulo(HashWith(hash), b, e) { FixedTextIsInjective(d, e); }
  }

  /** A fixed-output derivation never has the hash of one that is not. */
  lemma FixedDiffersFromOthers(hash: string -> Hash, a: Drvs, d: Derivation, b: Drvs, e: Derivation)
    requires Ideal(hash) && Grounded(a) && Grounded(b) && IsFixedOutput(d) && !IsFixedOutput(e)
    ensures H.HashModulo(HashWith(hash), a, d) != H.HashModulo(HashWith(hash), b, e)
  {
    HashModuloIs(hash, a, d);
    HashModuloIs(hash, b, e);
    if Complete(e.inputDrvs, InputHashes(HashWith(hash), b, e)) {
      assert FixedText(d)[0] == 'f' && Unparse(MaskedInputs(hash, b, e))[0] == 'D';
    }
  }

  /** A hash or a path with a colon can be mistaken. */
  lemma ColonsMatter()
    ensures var d, e := Plain(DerivationOutput("/f", "sha256", "0:1"), map[]), Plain(DerivationOutput("/f", "sha256:0", "1"), map[]);
      IsFixedOutput(d) && IsFixedOutput(e) && FixedText(d) == FixedText(e) == "fixed:out:sha256:0:1:/f" && d.outputs["out"] != e.outputs["out"]
  {
    var d, e := Plain(DerivationOutput("/f", "sha256", "0:1"), map[]), Plain(DerivationOutput("/f", "sha256:0", "1"), map[]);
    assert FixedText(d) == "fixed:out:sha256:0:1:/f" == FixedText(e);
  }

  // Why inputs that hash alike have to ask for the same outputs

  function Plain(output: DerivationOutput, inputs: map<Path, set<string>>): Derivation {
    Derivation(map["out" := output], inputs, {}, "", "", [], map[])
  }

  const FIXED := Plain(DerivationOutput("/f", "sha256", "0"), map[])
  const STORE: Drvs := map["/x" := FIXED, "/y" := FIXED]

  /** Asks one of two derivations of the same content for its output and the other for none. */
  function Asks(x: set<string>, y: set<string>): Derivation {
    Plain(DerivationOutput("/o", "", ""), map["/x" := x, "/y" := y])
  }

  lemma StoreIsGrounded()
    ensures Grounded(STORE) && forall p :: p in STORE ==> STORE[p].inputDrvs == map[]
  {
    forall p, q ensures !Edge(InputGraph(STORE), p, q) {}
  }

  lemma TwoInOrder(p: string, q: string)
    requires Lt(p, q)
    ensures p != q && Sorted({p, q}) == [p, q]
  {
    LtIrreflexive(p);
    var l := Sorted({p, q});
    assert |{p, q}| == 2;
    assert p in l && q in l;
    if l[0] != p {
      assert l[0] == q && l[1] == p;
      LtTransitive(p, q, p);
    }
  }

  lemma LastEntryWins<V>(h: string, x: V, y: V)
    ensures FromEntries([(h, x), (h, y)]) == map[h := y]
  {
    var r := [(h, x), (h, y)];
    assert r[..1] == [(h, x)] && r[..1][..0] == [];
    assert FromEntries(r[..1]) == map[h := x];
  }

  lemma TwoEntries(p: Path, x: set<string>, q: Path, y: set<string>)
    requires Lt(p, q)
    ensures Entries(map[p := x, q := y]) == [(p, x), (q, y)]
  {
    var inputs := map[p := x, q := y];
    TwoInOrder(p, q);
    assert inputs.Keys == {p, q};
    var keys := Sorted(inputs.Keys);
    assert keys == [p, q];
  }

  /** Of two inputs with the same hash the last one counts. */
  lemma LastCounts(p: Path, x: set<string>, q: Path, y: set<string>, h: Hash)
    requires Lt(p, q)
    ensures var inputs, hashes := map[p := x, q := y], map[p := Some(h), q := Some(h)];
      Complete(inputs, hashes) && Replaced(inputs, hashes) == map[h := y]
  {
    var inputs, hashes := map[p := x, q := y], map[p := Some(h), q := Some(h)];
    TwoEntries(p, x, q, y);
    assert ReplacedEntries(inputs, [(p, x), (q, y)], hashes) == [(h, x), (h, y)];
    LastEntryWins(h, x, y);
  }

  lemma AsksIsWellFormed(x: set<string>, y: set<string>)
    requires x <= {"out"} && y <= {"out"}
    ensures WellFormed(Asks(x, y)) && !IsFixedOutput(Asks(x, y))
  {
  }

  lemma FixedHash(hash: string -> Hash, p: Path)
    requires Grounded(STORE) && p in STORE
    ensures HashOf(HashWith(hash), STORE, p) == Some(hash(FixedText(FIXED)))
  {
    HashOfIs(HashWith(hash), STORE, p);
    HashModuloIs(hash, STORE, FIXED);
  }

  lemma AsksHashes(hash: string -> Hash, x: set<string>, y: set<string>)
    requires Grounded(STORE)
    ensures var h := hash(FixedText(FIXED));
      InputHashes(HashWith(hash), STORE, Asks(x, y)) == map["/x" := Some(h), "/y" := Some(h)]
  {
    FixedHash(hash, "/x");
    FixedHash(hash, "/y");
  }

  /** What is hashed for either. */
  lemma AsksMasked(hash: string -> Hash, x: set<string>, y: set<string>)
    requires Grounded(STORE)
    ensures Complete(Asks(x, y).inputDrvs, InputHashes(HashWith(hash), STORE, Asks(x, y)))
    ensures MaskedInputs(hash, STORE, Asks(x, y)) == Asks(x, y).(inputDrvs := map[hash(FixedText(FIXED)) := y])
  {
    AsksHashes(hash, x, y);
    assert Lt("/x", "/y");
    LastCounts("/x", x, "/y", y, hash(FixedText(FIXED)));
  }

  lemma StoreAlike()
    ensures PairsAlike(STORE, STORE, {("/x", "/y"), ("/y", "/x")})
  {
    assert SameFixed(FIXED, FIXED);
  }

  lemma AsksAlike()
    ensures Alike(Asks({"out"}, {}), Asks({}, {"out"}), {("/x", "/y"), ("/y", "/x")})
  {
    var pairs := {("/x", "/y"), ("/y", "/x")};
    var swap: map<Path, Path> := map["/x" := "/y", "/y" := "/x"];
    var d, e := Asks({"out"}, {}), Asks({}, {"out"});
    assert "/x" in d.inputDrvs && "/y" in d.inputDrvs;
    assert Correspond(d, e, pairs, swap, swap);
  }

  lemma AsksDiffer(hash: string -> Hash, x: set<string>, y: set<string>)
    requires Ideal(hash) && Grounded(STORE) && x <= {"out"} && y <= {"out"} && x != y
    ensures H.HashModulo(HashWith(hash), STORE, Asks(x, y)) != H.HashModulo(HashWith(hash), STORE, Asks(y, x))
  {
    var d, e, h := Asks(x, y), Asks(y, x), hash(FixedText(FIXED));
    AsksIsWellFormed(x, y);
    AsksIsWellFormed(y, x);
    AsksMasked(hash, x, y);
    AsksMasked(hash, y, x);
    HashModuloIs(hash, STORE, d);
    HashModuloIs(hash, STORE, e);
    EqualHashesExactly(hash, STORE, d, STORE, e);
    assert map[h := y][h] != map[h := x][h];
  }

  /** Exchanging two derivations of the same content does change the hash if one of them is
      asked for its output and the other is not. */
  lemma NamesMatter(hash: string -> Hash) returns (drvs: Drvs, d: Derivation, e: Derivation, pairs: Pairing)
    requires Ideal(hash)
    ensures Grounded(drvs) && PairsAlike(drvs, drvs, pairs) && Alike(d, e, pairs) && AllNamesAgree(HashWith(hash), drvs)
    ensures H.HashModulo(HashWith(hash), drvs, d) != H.HashModulo(HashWith(hash), drvs, e)
  {
    StoreIsGrounded();
    drvs, d, e, pairs := STORE, Asks({"out"}, {}), Asks({}, {"out"}), {("/x", "/y"), ("/y", "/x")};
    StoreAlike();
    AsksAlike();
    AsksDiffer(hash, {"out"}, {});
  }
}
