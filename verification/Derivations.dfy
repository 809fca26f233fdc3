/** Derivations and their textual form: the printer and the parser of
    nix/libstore/derivations.cc, with the stream functions of nix/libutil/util.cc. */
module Derivations {
  import opened ByteStrings
  import opened Wrappers

  type Path = string

  datatype DerivationOutput = DerivationOutput(path: Path, hashAlgo: string, hash: string)

  datatype Derivation = Derivation(outputs: map<string, DerivationOutput>, inputDrvs: map<Path, set<string>>,
                                   inputSrcs: set<Path>, platform: string, builder: Path,
                                   args: seq<string>, env: map<string, string>)

  // Printing

  function EscapedChar(c: char): string {
    if c == '"' || c == '\\' then ['\\', c]
    else if c == '\n' then "\\n"
    else if c == '\r' then "\\r"
    else if c == '\t' then "\\t"
    else [c]
  }

  /** A C string ends at its first NUL. */
  function Escaped(s: string): string {
    if s == "" || s[0] == '\0' then "" else EscapedChar(s[0]) + Escaped(s[1..])
  }

  function PrintedString(s: string): string {
    "\"" + Escaped(s) + "\""
  }

  /** The items with commas between them. */
  function Joined<T>(text: T -> string, l: seq<T>, first: bool): string {
    if l == [] then "" else (if first then "" else ",") + text(l[0]) + Joined(text, l[1..], false)
  }

  function PrintedStrings(l: seq<string>): string {
    "[" + Listed(PrintedString, l)
  }

  /** The entries of a map in the order a std::map visits them. */
  ghost function Entries<V>(m: map<string, V>): (r: seq<(string, V)>) {
    var keys := Sorted(m.Keys);
    seq(|keys|, i requires 0 <= i < |keys| => (keys[i], m[keys[i]]))
  }

  function PrintedOutput(o: (string, DerivationOutput)): string {
    "(" + PrintedString(o.0) + "," + PrintedString(o.1.path) + PrintedHash(o.1)
  }

  function PrintedHash(o: DerivationOutput): string {
    "," + PrintedString(o.hashAlgo) + "," + PrintedString(o.hash) + ")"
  }

  ghost function PrintedInput(i: (Path, set<string>)): string {
    "(" + PrintedString(i.0) + "," + PrintedStrings(Sorted(i.1)) + ")"
  }

  function PrintedVariable(v: (string, string)): string {
    "(" + PrintedString(v.0) + "," + PrintedString(v.1) + ")"
  }

  /** A list without its opening bracket. */
  function Listed<T>(text: T -> string, l: seq<T>): string {
    Joined(text, l, true) + "]"
  }

  ghost function Unparse(d: Derivation): string {
    "Derive([" + Listed(PrintedOutput, Entries(d.outputs)) + ",[" + Listed(PrintedInput, Entries(d.inputDrvs)) + UnparsedSources(d)
  }

  ghost function UnparsedSources(d: Derivation): string {
    ",[" + Listed(PrintedString, Sorted(d.inputSrcs)) + UnparsedBuilder(d)
  }

  ghost function UnparsedBuilder(d: Derivation): string {
    "," + PrintedString(d.platform) + "," + PrintedString(d.builder) + UnparsedArguments(d)
  }

  ghost function UnparsedArguments(d: Derivation): string {
    ",[" + Listed(PrintedString, d.args) + ",[" + Listed(PrintedVariable, Entries(d.env)) + ")"
  }

  // Parsing

  function Expect(t: string, s: string): (r: Parsed<()>)
    ensures r.Ok? <==> exists rest :: s == t + rest
    ensures r.Ok? ==> s == t + r.rest
  {
    if t <= s then
      assert s == t + s[|t|..];
      Ok((), s[|t|..])
    else Bad
  }

  function Unescaped(c: char): char {
    if c == 'n' then '\n' else if c == 'r' then '\r' else if c == 't' then '\t' else c
  }

  /** The rest of a string literal.  At the end of the input the parser fails. */
  function ParseChars(s: string): (r: Parsed<string>)
    ensures r.Ok? ==> |r.rest| < |s|
  {
    if s == "" || s == "\\" then Bad
    else if s[0] == '"' then Ok("", s[1..])
    else if s[0] == '\\' then Prepended([Unescaped(s[1])], ParseChars(s[2..]))
    else Prepended([s[0]], ParseChars(s[1..]))
  }

  function Prepended<T>(p: seq<T>, r: Parsed<seq<T>>): Parsed<seq<T>> {
    if r.Bad? then Bad else Ok(p + r.value, r.rest)
  }

  function ParseString(s: string): (r: Parsed<string>)
    ensures r.Ok? ==> |r.rest| < |s|
  {
    var (_, s1) :- Expect("\"", s);
    ParseChars(s1)
  }

  predicate IsAbsolute(p: Path) {
    p != "" && p[0] == '/'
  }

  function ParsePath(s: string): (r: Parsed<Path>)
    ensures r.Ok? ==> |r.rest| < |s|
  {
    var r := ParseString(s);
    if r.Ok? && IsAbsolute(r.value) then r else Bad
  }

  predicate AtEnd(s: string) {
    s != "" && s[0] == ']'
  }

  function AfterComma(s: string): string {
    if s != "" && s[0] == ',' then s[1..] else s
  }

  ghost predicate Consumes<T(!new)>(item: string -> Parsed<T>) {
    forall s :: item(s).Ok? ==> |item(s).rest| < |s|
  }

  /** The items of a list whose opening bracket has been read. */
  ghost function ParseList<T(!new)>(item: string -> Parsed<T>, s: string): (r: Parsed<seq<T>>)
    requires Consumes(item)
    ensures r.Ok? ==> |r.rest| < |s|
    decreases |s|
  {
    if AtEnd(s) then Ok([], s[1..])
    else
      var (x, s1) :- item(AfterComma(s));
      Prepended([x], ParseList(item, s1))
  }

  ghost function ParseStrings(s: string, arePaths: bool): (r: Parsed<seq<string>>)
    ensures r.Ok? ==> |r.rest| < |s|
  {
    ParseList(if arePaths then ParsePath else ParseString, s)
  }

  function ParseOutput(s: string): (r: Parsed<(string, DerivationOutput)>)
    ensures r.Ok? ==> |r.rest| < |s|
  {
    var (_, s1) :- Expect("(", s);
    var (id, s2) :- ParseString(s1);
    var (_, s3) :- Expect(",", s2);
    var (path, s4) :- ParsePath(s3);
    var (hash, s5) :- ParseHash(s4);
    Ok((id, DerivationOutput(path, hash.0, hash.1)), s5)
  }

  function ParseHash(s: string): (r: Parsed<(string, string)>)
    ensures r.Ok? ==> |r.rest| < |s|
  {
    var (_, s1) :- Expect(",", s);
    var (hashAlgo, s2) :- ParseString(s1);
    var (_, s3) :- Expect(",", s2);
    var (hash, s4) :- ParseString(s3);
    var (_, s5) :- Expect(")", s4);
    Ok((hashAlgo, hash), s5)
  }

  ghost function ParseInput(s: string): (r: Parsed<(Path, set<string>)>)
    ensures r.Ok? ==> |r.rest| < |s|
  {
    var (_, s1) :- Expect("(", s);
    var (path, s2) :- ParsePath(s1);
    var (_, s3) :- Expect(",[", s2);
    var (names, s4) :- ParseStrings(s3, false);
    var (_, s5) :- Expect(")", s4);
    Ok((path, Elements(names)), s5)
  }

  function ParseVariable(s: string): (r: Parsed<(string, string)>)
    ensures r.Ok? ==> |r.rest| < |s|
  {
    var (_, s1) :- Expect("(", s);
    var (name, s2) :- ParseString(s1);
    var (_, s3) :- Expect(",", s2);
    var (value, s4) :- ParseString(s3);
    var (_, s5) :- Expect(")", s4);
    Ok((name, value), s5)
  }

  function Elements(l: seq<string>): set<string> {
    set x | x in l
  }

  /** A later entry replaces an earlier one with the same key. */
  function FromEntries<V>(l: seq<(string, V)>): map<string, V> {
    if l == [] then map[] else FromEntries(l[..|l| - 1])[l[|l| - 1].0 := l[|l| - 1].1]
  }

  ghost function ParseDerivation(s: string): Parsed<Derivation> {
    var (_, s1) :- Expect("Derive([", s);
    var (outputs, s2) :- ParseList(ParseOutput, s1);
    var (_, s3) :- Expect(",[", s2);
    var (inputDrvs, s4) :- ParseList(ParseInput, s3);
    var (d, s5) :- ParseSources(s4);
    Ok(d.(outputs := FromEntries(outputs), inputDrvs := FromEntries(inputDrvs)), s5)
  }

  ghost function ParseSources(s: string): Parsed<Derivation> {
    var (_, s1) :- Expect(",[", s);
    var (inputSrcs, s2) :- ParseStrings(s1, true);
    var (d, s3) :- ParseBuilder(s2);
    Ok(d.(inputSrcs := Elements(inputSrcs)), s3)
  }

  ghost function ParseBuilder(s: string): Parsed<Derivation> {
    var (_, s1) :- Expect(",", s);
    var (platform, s2) :- ParseString(s1);
    var (_, s3) :- Expect(",", s2);
    var (builder, s4) :- ParseString(s3);
    var (d, s5) :- ParseArguments(s4);
    Ok(d.(platform := platform, builder := builder), s5)
  }

  ghost function ParseArguments(s: string): Parsed<Derivation> {
    var (_, s1) :- Expect(",[", s);
    var (args, s2) :- ParseStrings(s1, false);
    var (_, s3) :- Expect(",[", s2);
    var (env, s4) :- ParseList(ParseVariable, s3);
    var (_, s5) :- Expect(")", s4);
    Ok(Derivation(map[], map[], {}, "", "", args, FromEntries(env)), s5)
  }

  // Printing and parsing back

  predicate NulFree(s: string) {
    '\0' !in s
  }

  predicate GoodPath(p: Path) {
    IsAbsolute(p) && NulFree(p)
  }

  predicate GoodOutput(o: (string, DerivationOutput)) {
    NulFree(o.0) && GoodPath(o.1.path) && NulFree(o.1.hashAlgo) && NulFree(o.1.hash)
  }

  ghost predicate GoodInput(i: (Path, set<string>)) {
    GoodPath(i.0) && forall x :: x in i.1 ==> NulFree(x)
  }

  predicate GoodVariable(v: (string, string)) {
    NulFree(v.0) && NulFree(v.1)
  }

  /** No string holds a NUL, and the output, input and source paths are absolute. */
  ghost predicate WellFormed(d: Derivation) {
    (forall k :: k in d.outputs ==> GoodOutput((k, d.outputs[k])))
    && (forall k :: k in d.inputDrvs ==> GoodInput((k, d.inputDrvs[k])))
    && (forall p :: p in d.inputSrcs ==> GoodPath(p))
    && NulFree(d.platform) && NulFree(d.builder)
    && (forall a :: a in d.args ==> NulFree(a))
    && (forall k :: k in d.env ==> GoodVariable((k, d.env[k])))
  }

  lemma CharBack(c: char, t: string)
    requires c != '\0'
    ensures ParseChars(EscapedChar(c) + t) == Prepended([c], ParseChars(t))
  {
    var e := EscapedChar(c);
    assert (e + t)[|e|..] == t;
  }

  lemma {:induction false} CharsBack(s: string, rest: string)
    requires NulFree(s)
    ensures ParseChars(Escaped(s) + ("\"" + rest)) == Ok(s, rest)
  {
    var tail := "\"" + rest;
    if s == "" {
      assert Escaped(s) + tail == tail;
    } else {
      CharsBack(s[1..], rest);
      Regroup(EscapedChar(s[0]), Escaped(s[1..]), tail);
      CharBack(s[0], Escaped(s[1..]) + tail);
      assert s == [s[0]] + s[1..];
    }
  }

  lemma Regroup5(a: string, b: string, c: string, d: string, e: string, rest: string)
    ensures (a + b + c + d + e) + rest == a + (b + (c + (d + (e + rest))))
  {
    Regroup(a + b + c + d, e, rest);
    Regroup(a + b + c, d, e + rest);
    Regroup(a + b, c, d + (e + rest));
    Regroup(a, b, c + (d + (e + rest)));
  }

  lemma StringBack(s: string, rest: string)
    requires NulFree(s)
    ensures ParseString(PrintedString(s) + rest) == Ok(s, rest)
    ensures IsAbsolute(s) ==> ParsePath(PrintedString(s) + rest) == Ok(s, rest)
  {
    CharsBack(s, rest);
    Regroup("\"" + Escaped(s), "\"", rest);
    Regroup("\"", Escaped(s), "\"" + rest);
  }

  /** What is expected is there. */
  lemma ExpectBack(t: string, rest: string)
    ensures Expect(t, t + rest) == Ok((), rest)
  {
  }

  /** Whatever follows, the parser reads back the item that was written. */
  ghost predicate ReadsBack<T(!new)>(text: T -> string, item: string -> Parsed<T>, x: T) {
    text(x) != "" && text(x)[0] != ',' && text(x)[0] != ']' && forall rest :: item(text(x) + rest) == Ok(x, rest)
  }

  lemma {:induction false} ListBack<T(!new)>(text: T -> string, item: string -> Parsed<T>, l: seq<T>, first: bool, rest: string)
    requires Consumes(item) && forall x :: x in l ==> ReadsBack(text, item, x)
    ensures ParseList(item, Joined(text, l, first) + "]" + rest) == Ok(l, rest)
    decreases l
  {
    var s := Joined(text, l, first) + "]" + rest;
    if l == [] {
      assert s == "]" + rest;
    } else {
      ListBack(text, item, l[1..], false, rest);
      var s1 := Joined(text, l[1..], false) + "]" + rest;
      assert ReadsBack(text, item, l[0]);
      assert s == (if first then "" else ",") + (text(l[0]) + s1);
      assert (text(l[0]) + s1)[0] == text(l[0])[0];
      assert AfterComma(s) == text(l[0]) + s1;
      assert l == [l[0]] + l[1..];
    }
  }

  lemma StringsBack(l: seq<string>, arePaths: bool, rest: string)
    requires forall x :: x in l ==> NulFree(x) && (arePaths ==> IsAbsolute(x))
    ensures ParseStrings(Listed(PrintedString, l) + rest, arePaths) == Ok(l, rest)
  {
    var item := if arePaths then ParsePath else ParseString;
    forall x | x in l ensures ReadsBack(PrintedString, item, x) {
      forall t ensures item(PrintedString(x) + t) == Ok(x, t) { StringBack(x, t); }
    }
    ListBack(PrintedString, item, l, true, rest);
  }

  lemma HashBack(o: DerivationOutput, rest: string)
    requires NulFree(o.hashAlgo) && NulFree(o.hash)
    ensures ParseHash(PrintedHash(o) + rest) == Ok((o.hashAlgo, o.hash), rest)
  {
    var s4 := ")" + rest;
    var s2 := "," + (PrintedString(o.hash) + s4);
    StringBack(o.hashAlgo, s2);
    StringBack(o.hash, s4);
    Regroup5(",", PrintedString(o.hashAlgo), ",", PrintedString(o.hash), ")", rest);
  }

  lemma OutputBack(o: (string, DerivationOutput), rest: string)
    requires GoodOutput(o)
    ensures ParseOutput(PrintedOutput(o) + rest) == Ok(o, rest)
  {
    var s4 := PrintedHash(o.1) + rest;
    var s2 := "," + (PrintedString(o.1.path) + s4);
    StringBack(o.0, s2);
    StringBack(o.1.path, s4);
    HashBack(o.1, rest);
    Regroup5("(", PrintedString(o.0), ",", PrintedString(o.1.path), PrintedHash(o.1), rest);
  }

  lemma InputText(i: (Path, set<string>), rest: string)
    ensures PrintedInput(i) + rest
         == "(" + (PrintedString(i.0) + (",[" + (Listed(PrintedString, Sorted(i.1)) + (")" + rest))))
  {
    var l := Sorted(i.1);
    Regroup5("(", PrintedString(i.0), ",", PrintedStrings(l), ")", rest);
    Regroup("[", Listed(PrintedString, l), ")" + rest);
    Regroup(",", "[", Listed(PrintedString, l) + (")" + rest));
  }

  lemma NamesBack(names: set<string>, rest: string)
    requires forall x :: x in names ==> NulFree(x)
    ensures var s3 := Listed(PrintedString, Sorted(names)) + (")" + rest);
      Expect(",[", ",[" + s3) == Ok((), s3) && ParseStrings(s3, false) == Ok(Sorted(names), ")" + rest)
    ensures Elements(Sorted(names)) == names && Expect(")", ")" + rest) == Ok((), rest)
  {
    var l := Sorted(names);
    StringsBack(l, false, ")" + rest);
    ExpectBack(",[", Listed(PrintedString, l) + (")" + rest));
    ExpectBack(")", rest);
  }

  lemma InputBack(i: (Path, set<string>), rest: string)
    requires GoodInput(i)
    ensures ParseInput(PrintedInput(i) + rest) == Ok(i, rest)
  {
    var s2 := ",[" + (Listed(PrintedString, Sorted(i.1)) + (")" + rest));
    InputText(i, rest);
    ExpectBack("(", PrintedString(i.0) + s2);
    StringBack(i.0, s2);
    NamesBack(i.1, rest);
  }

  lemma VariableBack(v: (string, string), rest: string)
    requires GoodVariable(v)
    ensures ParseVariable(PrintedVariable(v) + rest) == Ok(v, rest)
  {
    var s4 := ")" + rest;
    var s2 := "," + (PrintedString(v.1) + s4);
    StringBack(v.0, s2);
    StringBack(v.1, s4);
    Regroup5("(", PrintedString(v.0), ",", PrintedString(v.1), ")", rest);
  }

  /** A map is restored from its entries. */
  lemma EntriesBack<V>(m: map<string, V>)
    ensures FromEntries(Entries(m)) == m
  {
    var l, keys := Entries(m), Sorted(m.Keys);
    FromDistinct(l, keys, m);
  }

  lemma {:induction false} FromDistinct<V>(l: seq<(string, V)>, keys: seq<string>, m: map<string, V>)
    requires |l| == |keys| && forall i :: 0 <= i < |l| ==> keys[i] in m && l[i] == (keys[i], m[keys[i]])
    ensures FromEntries(l) == map k | k in keys :: m[k]
    decreases |l|
  {
    if l != [] {
      var n := |l| - 1;
      FromDistinct(l[..n], keys[..n], m);
      assert keys == keys[..n] + [keys[n]];
    }
  }

  lemma EntriesGood<V>(m: map<string, V>)
    ensures forall x :: x in Entries(m) ==> x.0 in m && m[x.0] == x.1
  {
  }

  lemma VariablesBack(env: map<string, string>, rest: string)
    requires forall k :: k in env ==> GoodVariable((k, env[k]))
    ensures ParseList(ParseVariable, Listed(PrintedVariable, Entries(env)) + rest) == Ok(Entries(env), rest)
  {
    EntriesGood(env);
    forall x | x in Entries(env) ensures ReadsBack(PrintedVariable, ParseVariable, x) {
      forall t ensures ParseVariable(PrintedVariable(x) + t) == Ok(x, t) { VariableBack(x, t); }
    }
    ListBack(PrintedVariable, ParseVariable, Entries(env), true, rest);
  }

  lemma OutputsBack(outputs: map<string, DerivationOutput>, rest: string)
    requires forall k :: k in outputs ==> GoodOutput((k, outputs[k]))
    ensures ParseList(ParseOutput, Listed(PrintedOutput, Entries(outputs)) + rest) == Ok(Entries(outputs), rest)
  {
    EntriesGood(outputs);
    forall x | x in Entries(outputs) ensures ReadsBack(PrintedOutput, ParseOutput, x) {
      forall t ensures ParseOutput(PrintedOutput(x) + t) == Ok(x, t) { OutputBack(x, t); }
    }
    ListBack(PrintedOutput, ParseOutput, Entries(outputs), true, rest);
  }

  lemma InputsBack(inputs: map<Path, set<string>>, rest: string)
    requires forall k :: k in inputs ==> GoodInput((k, inputs[k]))
    ensures ParseList(ParseInput, Listed(PrintedInput, Entries(inputs)) + rest) == Ok(Entries(inputs), rest)
  {
    EntriesGood(inputs);
    forall x | x in Entries(inputs) ensures ReadsBack(PrintedInput, ParseInput, x) {
      forall t ensures ParseInput(PrintedInput(x) + t) == Ok(x, t) { InputBack(x, t); }
    }
    ListBack(PrintedInput, ParseInput, Entries(inputs), true, rest);
  }

  lemma ArgumentsFrom(s: string, s1: string, args: seq<string>, s2: string, s3: string, env: seq<(string, string)>, s4: string, s5: string)
    requires Expect(",[", s) == Ok((), s1) && ParseStrings(s1, false) == Ok(args, s2)
    requires Expect(",[", s2) == Ok((), s3) && ParseList(ParseVariable, s3) == Ok(env, s4) && Expect(")", s4) == Ok((), s5)
    ensures ParseArguments(s) == Ok(Derivation(map[], map[], {}, "", "", args, FromEntries(env)), s5)
  {
  }

  lemma ArgumentsBack(d: Derivation, rest: string)
    requires WellFormed(d)
    ensures ParseArguments(UnparsedArguments(d) + rest) == Ok(Derivation(map[], map[], {}, "", "", d.args, d.env), rest)
  {
    var args, env := Listed(PrintedString, d.args), Listed(PrintedVariable, Entries(d.env));
    var s4 := ")" + rest;
    var s3 := env + s4;
    var s2 := ",[" + s3;
    var s1 := args + s2;
    Regroup5(",[", args, ",[", env, ")", rest);
    ExpectBack(",[", s1);
    StringsBack(d.args, false, s2);
    ExpectBack(",[", s3);
    VariablesBack(d.env, s4);
    ExpectBack(")", rest);
    EntriesBack(d.env);
    ArgumentsFrom(",[" + s1, s1, d.args, s2, s3, Entries(d.env), s4, rest);
  }

  lemma BuilderBack(d: Derivation, rest: string)
    requires WellFormed(d)
    ensures ParseBuilder(UnparsedBuilder(d) + rest) == Ok(Derivation(map[], map[], {}, d.platform, d.builder, d.args, d.env), rest)
  {
    var s4 := UnparsedArguments(d) + rest;
    Regroup5(",", PrintedString(d.platform), ",", PrintedString(d.builder), UnparsedArguments(d), rest);
    StringBack(d.platform, "," + (PrintedString(d.builder) + s4));
    StringBack(d.builder, s4);
    ArgumentsBack(d, rest);
  }

  lemma SourcesBack(d: Derivation, rest: string)
    requires WellFormed(d)
    ensures ParseSources(UnparsedSources(d) + rest)
         == Ok(Derivation(map[], map[], d.inputSrcs, d.platform, d.builder, d.args, d.env), rest)
  {
    var l := Sorted(d.inputSrcs);
    Regroup(",[" + Listed(PrintedString, l), UnparsedBuilder(d), rest);
    Regroup(",[", Listed(PrintedString, l), UnparsedBuilder(d) + rest);
    StringsBack(l, true, UnparsedBuilder(d) + rest);
    BuilderBack(d, rest);
    assert Elements(l) == d.inputSrcs;
  }

  /** A well-formed derivation is read back as it was written, whatever follows. */
  lemma DerivationBack(d: Derivation, rest: string)
    requires WellFormed(d)
    ensures ParseDerivation(Unparse(d) + rest) == Ok(d, rest)
  {
    var outputs, inputs := Listed(PrintedOutput, Entries(d.outputs)), Listed(PrintedInput, Entries(d.inputDrvs));
    var s4 := UnparsedSources(d) + rest;
    Regroup5("Derive([", outputs, ",[", inputs, UnparsedSources(d), rest);
    ExpectBack("Derive([", outputs + (",[" + (inputs + s4)));
    OutputsBack(d.outputs, ",[" + (inputs + s4));
    ExpectBack(",[", inputs + s4);
    InputsBack(d.inputDrvs, s4);
    SourcesBack(d, rest);
    EntriesBack(d.outputs);
    EntriesBack(d.inputDrvs);
  }

  // What the parser can return

  lemma {:induction false} EscapedNulFree(s: string)
    ensures NulFree(Escaped(s))
  {
    if s != "" && s[0] != '\0' { EscapedNulFree(s[1..]); }
  }

  lemma {:induction false} JoinedNulFree<T(!new)>(text: T -> string, l: seq<T>, first: bool)
    requires forall x :: NulFree(text(x))
    ensures NulFree(Joined(text, l, first)) && (first ==> NulFree(Listed(text, l)))
    decreases l
  {
    if l != [] { JoinedNulFree(text, l[1..], false); }
  }

  lemma StringsNulFree()
    ensures forall x :: NulFree(PrintedString(x))
    ensures forall l :: NulFree(Listed(PrintedString, l))
  {
    forall x ensures NulFree(PrintedString(x)) { EscapedNulFree(x); }
    forall l ensures NulFree(Listed(PrintedString, l)) { JoinedNulFree(PrintedString, l, true); }
  }

  /** The text never holds a NUL. */
  lemma UnparseNulFree(d: Derivation)
    ensures NulFree(Unparse(d))
  {
    StringsNulFree();
    JoinedNulFree(PrintedOutput, Entries(d.outputs), true);
    JoinedNulFree(PrintedInput, Entries(d.inputDrvs), true);
    JoinedNulFree(PrintedVariable, Entries(d.env), true);
  }

  lemma {:induction false} CharsGood(s: string)
    requires NulFree(s) && ParseChars(s).Ok?
    ensures NulFree(ParseChars(s).value) && NulFree(ParseChars(s).rest)
  {
    if s[0] == '\\' { CharsGood(s[2..]); } else if s[0] != '"' { CharsGood(s[1..]); }
  }

  lemma StringGood(s: string)
    requires NulFree(s)
    ensures ParseString(s).Ok? ==> NulFree(ParseString(s).value) && NulFree(ParseString(s).rest)
    ensures ParsePath(s).Ok? ==> GoodPath(ParsePath(s).value) && NulFree(ParsePath(s).rest)
  {
    if ParseString(s).Ok? { CharsGood(s[1..]); }
  }

  ghost predicate Gives<T(!new)>(item: string -> Parsed<T>, good: T -> bool) {
    forall s :: NulFree(s) && item(s).Ok? ==> good(item(s).value) && NulFree(item(s).rest)
  }

  lemma {:induction false} ListGood<T(!new)>(item: string -> Parsed<T>, good: T -> bool, s: string)
    requires Consumes(item) && Gives(item, good) && NulFree(s) && ParseList(item, s).Ok?
    ensures NulFree(ParseList(item, s).rest) && forall x :: x in ParseList(item, s).value ==> good(x)
    decreases |s|
  {
    if !AtEnd(s) { ListGood(item, good, item(AfterComma(s)).rest); }
  }

  lemma ExpectGood(t: string, s: string)
    requires NulFree(s) && Expect(t, s).Ok?
    ensures NulFree(Expect(t, s).rest)
  {
  }

  lemma GivesStrings()
    ensures Gives(ParseString, NulFree) && Gives(ParsePath, GoodPath)
  {
    forall s | NulFree(s) && ParseString(s).Ok? ensures NulFree(ParseString(s).value) && NulFree(ParseString(s).rest) { StringGood(s); }
    forall s | NulFree(s) && ParsePath(s).Ok? ensures GoodPath(ParsePath(s).value) && NulFree(ParsePath(s).rest) { StringGood(s); }
  }

  lemma StringsGood(s: string, arePaths: bool)
    requires NulFree(s) && ParseStrings(s, arePaths).Ok?
    ensures NulFree(ParseStrings(s, arePaths).rest)
    ensures forall x :: x in ParseStrings(s, arePaths).value ==> NulFree(x) && (arePaths ==> GoodPath(x))
  {
    GivesStrings();
    if arePaths { ListGood(ParsePath, GoodPath, s); } else { ListGood(ParseString, NulFree, s); }
  }

  lemma VariableGood(s: string)
    requires NulFree(s) && ParseVariable(s).Ok?
    ensures GoodVariable(ParseVariable(s).value) && NulFree(ParseVariable(s).rest)
  {
    ExpectGood("(", s);
    var s1 := Expect("(", s).rest;
    StringGood(s1);
    var s2 := ParseString(s1).rest;
    ExpectGood(",", s2);
    var s3 := Expect(",", s2).rest;
    StringGood(s3);
    ExpectGood(")", ParseString(s3).rest);
  }

  lemma HashGood(s: string)
    requires NulFree(s) && ParseHash(s).Ok?
    ensures NulFree(ParseHash(s).value.0) && NulFree(ParseHash(s).value.1) && NulFree(ParseHash(s).rest)
  {
    ExpectGood(",", s);
    var s1 := Expect(",", s).rest;
    StringGood(s1);
    var s2 := ParseString(s1).rest;
    ExpectGood(",", s2);
    var s3 := Expect(",", s2).rest;
    StringGood(s3);
    ExpectGood(")", ParseString(s3).rest);
  }

  lemma OutputGood(s: string)
    requires NulFree(s) && ParseOutput(s).Ok?
    ensures GoodOutput(ParseOutput(s).value) && NulFree(ParseOutput(s).rest)
  {
    ExpectGood("(", s);
    var s1 := Expect("(", s).rest;
    StringGood(s1);
    var s2 := ParseString(s1).rest;
    ExpectGood(",", s2);
    var s3 := Expect(",", s2).rest;
    StringGood(s3);
    HashGood(ParsePath(s3).rest);
  }

  lemma InputGood(s: string)
    requires NulFree(s) && ParseInput(s).Ok?
    ensures GoodInput(ParseInput(s).value) && NulFree(ParseInput(s).rest)
  {
    ExpectGood("(", s);
    var s1 := Expect("(", s).rest;
    StringGood(s1);
    var s2 := ParsePath(s1).rest;
    ExpectGood(",[", s2);
    var s3 := Expect(",[", s2).rest;
    StringsGood(s3, false);
    ExpectGood(")", ParseStrings(s3, false).rest);
  }

  lemma {:induction false} FromEntriesGood<V>(l: seq<(string, V)>)
    ensures forall k :: k in FromEntries(l) ==> (k, FromEntries(l)[k]) in l
  {
    if l != [] { FromEntriesGood(l[..|l| - 1]); }
  }

  lemma VariablesGood(s: string)
    requires NulFree(s) && ParseList(ParseVariable, s).Ok?
    ensures var r := ParseList(ParseVariable, s);
      NulFree(r.rest) && forall k :: k in FromEntries(r.value) ==> GoodVariable((k, FromEntries(r.value)[k]))
  {
    forall t | NulFree(t) && ParseVariable(t).Ok? ensures GoodVariable(ParseVariable(t).value) && NulFree(ParseVariable(t).rest) {
      VariableGood(t);
    }
    ListGood(ParseVariable, GoodVariable, s);
    FromEntriesGood(ParseList(ParseVariable, s).value);
  }

  lemma OutputsGood(s: string)
    requires NulFree(s) && ParseList(ParseOutput, s).Ok?
    ensures var r := ParseList(ParseOutput, s);
      NulFree(r.rest) && forall k :: k in FromEntries(r.value) ==> GoodOutput((k, FromEntries(r.value)[k]))
  {
    forall t | NulFree(t) && ParseOutput(t).Ok? ensures GoodOutput(ParseOutput(t).value) && NulFree(ParseOutput(t).rest) {
      OutputGood(t);
    }
    ListGood(ParseOutput, GoodOutput, s);
    FromEntriesGood(ParseList(ParseOutput, s).value);
  }

  lemma InputsGood(s: string)
    requires NulFree(s) && ParseList(ParseInput, s).Ok?
    ensures var r := ParseList(ParseInput, s);
      NulFree(r.rest) && forall k :: k in FromEntries(r.value) ==> GoodInput((k, FromEntries(r.value)[k]))
  {
    forall t | NulFree(t) && ParseInput(t).Ok? ensures GoodInput(ParseInput(t).value) && NulFree(ParseInput(t).rest) {
      InputGood(t);
    }
    ListGood(ParseInput, GoodInput, s);
    FromEntriesGood(ParseList(ParseInput, s).value);
  }

  lemma ArgumentsGood(s: string)
    requires NulFree(s) && ParseArguments(s).Ok?
    ensures WellFormed(ParseArguments(s).value)
  {
    ExpectGood(",[", s);
    var s1 := Expect(",[", s).rest;
    StringsGood(s1, false);
    var s2 := ParseStrings(s1, false).rest;
    ExpectGood(",[", s2);
    VariablesGood(Expect(",[", s2).rest);
  }

  lemma BuilderGood(s: string)
    requires NulFree(s) && ParseBuilder(s).Ok?
    ensures WellFormed(ParseBuilder(s).value)
  {
    ExpectGood(",", s);
    var s1 := Expect(",", s).rest;
    StringGood(s1);
    var s2 := ParseString(s1).rest;
    ExpectGood(",", s2);
    var s3 := Expect(",", s2).rest;
    StringGood(s3);
    ArgumentsGood(ParseString(s3).rest);
  }

  lemma SourcesGood(s: string)
    requires NulFree(s) && ParseSources(s).Ok?
    ensures WellFormed(ParseSources(s).value)
  {
    ExpectGood(",[", s);
    var s1 := Expect(",[", s).rest;
    StringsGood(s1, true);
    BuilderGood(ParseStrings(s1, true).rest);
  }

  /** Whatever text without NULs the parser accepts, it yields a well-formed derivation. */
  lemma ParsedIsWellFormed(s: string)
    requires NulFree(s) && ParseDerivation(s).Ok?
    ensures WellFormed(ParseDerivation(s).value)
  {
    ExpectGood("Derive([", s);
    var s1 := Expect("Derive([", s).rest;
    OutputsGood(s1);
    var s2 := ParseList(ParseOutput, s1).rest;
    ExpectGood(",[", s2);
    var s3 := Expect(",[", s2).rest;
    InputsGood(s3);
    SourcesGood(ParseList(ParseInput, s3).rest);
  }

  /** Parsing undoes printing exactly for the well-formed derivations. */
  lemma RoundTrip(d: Derivation)
    ensures ParseDerivation(Unparse(d)) == Ok(d, "") <==> WellFormed(d)
  {
    UnparseNulFree(d);
    if WellFormed(d) {
      DerivationBack(d, "");
      assert Unparse(d) + "" == Unparse(d);
    } else if ParseDerivation(Unparse(d)) == Ok(d, "") {
      ParsedIsWellFormed(Unparse(d));
    }
  }

  /** Different well-formed derivations have different texts, neither a beginning of the other. */
  lemma UnparseIsInjective(d: Derivation, e: Derivation)
    requires WellFormed(d) && WellFormed(e) && Unparse(d) <= Unparse(e)
    ensures d == e
  {
    var rest := Unparse(e)[|Unparse(d)|..];
    assert Unparse(e) == Unparse(d) + rest == Unparse(e) + "";
    DerivationBack(d, rest);
    DerivationBack(e, "");
  }
}
