/** The printer of derivations as it appends to a string, and the parser as it advances a
    stream (nix/libstore/derivations.cc, nix/libutil/util.cc). */
module DerivationText {
  import opened ByteStrings
  import opened Derivations
  import opened Wrappers

  method TakeLeast(s: set<string>) returns (m: string)
    requires s != {}
    ensures IsLeast(s, m)
  {
    LeastExists(s);
    m :| m in s && forall x :: x in s && x != m ==> Lt(m, x);
  }

  lemma SortedStep(s: set<string>, m: string)
    requires IsLeast(s, m)
    ensures Sorted(s) == [m] + Sorted(s - {m})
  {
    if Least(s) != m {
      LtTransitive(Least(s), m, Least(s));
      LtIrreflexive(Least(s));
    }
  }

  lemma MoveOne(l: seq<string>, m: string, rest: seq<string>)
    ensures l + ([m] + rest) == (l + [m]) + rest
  {
  }

  /** The elements of a set, least first. */
  method InOrder(s: set<string>) returns (l: seq<string>)
    ensures l == Sorted(s)
  {
    l := [];
    var todo := s;
    while todo != {}
      invariant l + Sorted(todo) == Sorted(s)
      decreases todo
    {
      var m := TakeLeast(todo);
      SortedStep(todo, m);
      MoveOne(l, m, Sorted(todo - {m}));
      l := l + [m];
      todo := todo - {m};
    }
  }

  method PrintString(res: string, s: string) returns (r: string)
    ensures r == res + PrintedString(s)
  {
    r := res + "\"";
    var i := 0;
    while i < |s| && s[i] != '\0'
      invariant i <= |s| && r + Escaped(s[i..]) == res + "\"" + Escaped(s)
    {
      ghost var before := r;
      if s[i] == '"' || s[i] == '\\' {
        r := r + "\\";
        r := r + [s[i]];
      } else if s[i] == '\n' {
        r := r + "\\n";
      } else if s[i] == '\r' {
        r := r + "\\r";
      } else if s[i] == '\t' {
        r := r + "\\t";
      } else {
        r := r + [s[i]];
      }
      assert r == before + EscapedChar(s[i]) && s[i..][1..] == s[i + 1..];
      Regroup(before, EscapedChar(s[i]), Escaped(s[i + 1..]));
      i := i + 1;
    }
    assert Escaped(s[i..]) == "";
    assert r == res + "\"" + Escaped(s);
    r := r + "\"";
    Regroup(res + "\"", Escaped(s), "\"");
    Regroup(res, "\"", Escaped(s) + "\"");
    Regroup("\"", Escaped(s), "\"");
  }

  lemma JoinedStep<T>(text: T -> string, l: seq<T>, n: nat)
    requires n < |l|
    ensures Joined(text, l[n..], n == 0) == (if n == 0 then "" else ",") + text(l[n]) + Joined(text, l[n + 1..], false)
  {
    assert l[n..][0] == l[n] && l[n..][1..] == l[n + 1..];
  }

  /** What a loop has appended so far, and what it still has to. */
  ghost predicate Writing<T(!new)>(text: T -> string, l: seq<T>, n: nat, res: string, r: string) {
    n <= |l| && r + Joined(text, l[n..], n == 0) == res + Joined(text, l, true)
  }

  lemma WriteOne<T(!new)>(text: T -> string, l: seq<T>, n: nat, res: string, r: string)
    requires Writing(text, l, n, res, r) && n < |l|
    ensures Writing(text, l, n + 1, res, (if n == 0 then r else r + ",") + text(l[n]))
  {
    JoinedStep(text, l, n);
    var comma, tail := if n == 0 then "" else ",", Joined(text, l[n + 1..], false);
    Regroup(r + comma, text(l[n]), tail);
    Regroup(r, comma, text(l[n]) + tail);
    Regroup(comma, text(l[n]), tail);
    assert r + comma == if n == 0 then r else r + ",";
  }

  lemma WriteNone<T(!new)>(text: T -> string, l: seq<T>, res: string)
    ensures Writing(text, l, 0, res, res)
  {
    assert l[0..] == l;
  }

  lemma WriteAll<T(!new)>(text: T -> string, l: seq<T>, res: string, r: string)
    requires Writing(text, l, |l|, res, r)
    ensures r == res + Joined(text, l, true)
  {
    assert l[|l|..] == [] && r + "" == r;
  }

  method PrintStrings(res: string, l: seq<string>) returns (r: string)
    ensures r == res + PrintedStrings(l)
  {
    r := res + "[";
    WriteNone(PrintedString, l, res + "[");
    for n := 0 to |l|
      invariant Writing(PrintedString, l, n, res + "[", r)
    {
      WriteOne(PrintedString, l, n, res + "[", r);
      if n != 0 { r := r + ","; }
      r := PrintString(r, l[n]);
    }
    WriteAll(PrintedString, l, res + "[", r);
    r := r + "]";
    Regroup(res + "[", Joined(PrintedString, l, true), "]");
    Regroup(res, "[", Listed(PrintedString, l));
  }

  method PrintOutput(res: string, id: string, o: DerivationOutput) returns (r: string)
    ensures r == res + PrintedOutput((id, o))
  {
    r := PrintString(res + "(", id);
    r := PrintString(r + ",", o.path);
    Flatten(res, "(", PrintedString(id), ",", PrintedString(o.path));
    ghost var paths := "(" + PrintedString(id) + "," + PrintedString(o.path);
    r := PrintString(r + ",", o.hashAlgo);
    r := PrintString(r + ",", o.hash);
    Flatten(res + paths, ",", PrintedString(o.hashAlgo), ",", PrintedString(o.hash));
    r := r + ")";
    Regroup(res + paths, "," + PrintedString(o.hashAlgo) + "," + PrintedString(o.hash), ")");
    Regroup(res, paths, PrintedHash(o));
  }

  lemma Flatten(res: string, a: string, b: string, c: string, d: string)
    ensures res + a + b + c + d == res + (a + b + c + d)
  {
    Regroup(res, a, b);
    Regroup(res, a + b, c);
    Regroup(res, a + b + c, d);
  }

  method PrintOutputs(res: string, outputs: map<string, DerivationOutput>) returns (r: string)
    ensures r == res + Joined(PrintedOutput, Entries(outputs), true)
  {
    r := res;
    var keys := InOrder(outputs.Keys);
    ghost var l := Entries(outputs);
    WriteNone(PrintedOutput, l, res);
    for n := 0 to |keys|
      invariant Writing(PrintedOutput, l, n, res, r)
    {
      WriteOne(PrintedOutput, l, n, res, r);
      if n != 0 { r := r + ","; }
      r := PrintOutput(r, keys[n], outputs[keys[n]]);
    }
    WriteAll(PrintedOutput, l, res, r);
  }

  method PrintInput(res: string, path: Path, names: set<string>) returns (r: string)
    ensures r == res + PrintedInput((path, names))
  {
    r := PrintString(res + "(", path);
    var l := InOrder(names);
    r := PrintStrings(r + ",", l);
    Flatten(res, "(", PrintedString(path), ",", PrintedStrings(l));
    r := r + ")";
    Regroup(res, "(" + PrintedString(path) + "," + PrintedStrings(l), ")");
  }

  method PrintInputs(res: string, inputs: map<Path, set<string>>) returns (r: string)
    ensures r == res + Joined(PrintedInput, Entries(inputs), true)
  {
    r := res;
    var keys := InOrder(inputs.Keys);
    ghost var l := Entries(inputs);
    WriteNone(PrintedInput, l, res);
    for n := 0 to |keys|
      invariant Writing(PrintedInput, l, n, res, r)
    {
      WriteOne(PrintedInput, l, n, res, r);
      if n != 0 { r := r + ","; }
      r := PrintInput(r, keys[n], inputs[keys[n]]);
    }
    WriteAll(PrintedInput, l, res, r);
  }

  method PrintVariable(res: string, name: string, value: string) returns (r: string)
    ensures r == res + PrintedVariable((name, value))
  {
    r := PrintString(res + "(", name);
    r := PrintString(r + ",", value);
    Flatten(res, "(", PrintedString(name), ",", PrintedString(value));
    r := r + ")";
    Regroup(res, "(" + PrintedString(name) + "," + PrintedString(value), ")");
  }

  method PrintVariables(res: string, env: map<string, string>) returns (r: string)
    ensures r == res + Joined(PrintedVariable, Entries(env), true)
  {
    r := res;
    var keys := InOrder(env.Keys);
    ghost var l := Entries(env);
    WriteNone(PrintedVariable, l, res);
    for n := 0 to |keys|
      invariant Writing(PrintedVariable, l, n, res, r)
    {
      WriteOne(PrintedVariable, l, n, res, r);
      if n != 0 { r := r + ","; }
      r := PrintVariable(r, keys[n], env[keys[n]]);
    }
    WriteAll(PrintedVariable, l, res, r);
  }

  method UnparseDerivation(d: Derivation) returns (s: string)
    ensures s == Unparse(d)
  {
    s := PrintOutputs("Derive([", d.outputs);
    ghost var outputs := Entries(d.outputs);
    NextList("Derive([", Joined(PrintedOutput, outputs, true));
    s := PrintInputs(s + "],[", d.inputDrvs);
    ghost var head := "Derive([" + Listed(PrintedOutput, outputs) + ",[";
    ghost var inputs := head + Listed(PrintedInput, Entries(d.inputDrvs));
    Regroup(head, Joined(PrintedInput, Entries(d.inputDrvs), true), "]");
    assert s + "]" == inputs;
    var srcs := InOrder(d.inputSrcs);
    NextStrings(s, srcs);
    s := PrintStrings(s + "],", srcs);
    ghost var sources := s;
    assert s == inputs + (",[" + Listed(PrintedString, srcs));
    s := PrintString(s + ",", d.platform);
    s := PrintString(s + ",", d.builder);
    Flatten(sources, ",", PrintedString(d.platform), ",", PrintedString(d.builder));
    ghost var builder := "," + PrintedString(d.platform) + "," + PrintedString(d.builder);
    s := PrintArguments(s, d.args, d.env);
    Regroup(sources, builder, UnparsedArguments(d));
    Regroup(inputs, ",[" + Listed(PrintedString, srcs), UnparsedBuilder(d));
  }

  lemma NextList(head: string, l: string)
    ensures head + l + "],[" == head + (l + "]") + ",["
  {
    Regroup(head, l, "]");
    Regroup(head + l, "]", ",[");
  }

  lemma NextStrings(s: string, l: seq<string>)
    ensures s + "]," + PrintedStrings(l) == s + "]" + (",[" + Listed(PrintedString, l))
  {
    var t := Listed(PrintedString, l);
    Regroup(s, "]", ",");
    Regroup(s + "]", ",", "[" + t);
    Regroup(",", "[", t);
  }

  method PrintArguments(res: string, args: seq<string>, env: map<string, string>) returns (r: string)
    ensures r == res + (",[" + Listed(PrintedString, args) + ",[" + Listed(PrintedVariable, Entries(env)) + ")")
  {
    r := PrintStrings(res + ",", args);
    ArgumentPieces(res, Listed(PrintedString, args));
    r := PrintVariables(r + ",[", env);
    VariablePieces(res, ",[" + Listed(PrintedString, args), Joined(PrintedVariable, Entries(env), true));
    r := r + "])";
  }

  lemma ArgumentPieces(res: string, args: string)
    ensures res + "," + ("[" + args) == res + (",[" + args)
  {
    Regroup(res, ",", "[" + args);
    Regroup(",", "[", args);
  }

  lemma VariablePieces(res: string, args: string, v: string)
    ensures res + args + ",[" + v + "])" == res + (args + ",[" + (v + "]") + ")")
  {
    Regroup(res, args, ",[");
    Regroup(res, args + ",[", v);
    Regroup(res, args + ",[" + v, "])");
    Regroup(args + ",[", v, "])");
    Regroup(v, "]", ")");
    Regroup(args + ",[", v + "]", ")");
  }

  // The stream

  /** One more item of a list, and the rest of it. */
  ghost function ParseMore<T(!new)>(item: string -> Parsed<T>, s: string): Parsed<seq<T>>
    requires Consumes(item)
  {
    var (x, s1) :- item(s);
    Prepended([x], ParseList(item, s1))
  }

  /** A loop over a list that began at `start` has read `seen`; `end` tells whether that is all. */
  ghost predicate Reading<T(!new)>(item: string -> Parsed<T>, start: string, seen: seq<T>, end: bool, s: string)
    requires Consumes(item)
  {
    ParseList(item, start) == if end then Ok(seen, s) else Prepended(seen, ParseMore(item, s))
  }

  lemma PrependedNone<T>(r: Parsed<seq<T>>)
    ensures Prepended([], r) == r
  {
    if r.Ok? { assert [] + r.value == r.value; }
  }

  lemma ReadNone<T(!new)>(item: string -> Parsed<T>, start: string)
    requires Consumes(item)
    ensures Reading(item, start, [], AtEnd(start), if AtEnd(start) then start[1..] else AfterComma(start))
  {
    if !AtEnd(start) { PrependedNone(ParseMore(item, AfterComma(start))); }
  }

  lemma ReadOne<T(!new)>(item: string -> Parsed<T>, start: string, seen: seq<T>, s: string)
    requires Consumes(item) && Reading(item, start, seen, false, s)
    ensures item(s).Bad? ==> ParseList(item, start).Bad?
    ensures item(s).Ok? ==> var s1 := item(s).rest;
      Reading(item, start, seen + [item(s).value], AtEnd(s1), if AtEnd(s1) then s1[1..] else AfterComma(s1))
  {
    if item(s).Ok? {
      var l := ParseList(item, item(s).rest);
      if AtEnd(item(s).rest) { assert [item(s).value] + [] == [item(s).value]; }
      if l.Ok? { assert seen + ([item(s).value] + l.value) == seen + [item(s).value] + l.value; }
    }
  }

  /** A failed step says nothing about the rest of the stream. */
  class Reader {
    var rest: string

    constructor (s: string)
      ensures rest == s
    {
      rest := s;
    }

    method Expect(t: string) returns (ok: bool)
      modifies this
      ensures if ok then Derivations.Expect(t, old(rest)) == Ok((), rest) else Derivations.Expect(t, old(rest)).Bad?
    {
      if t <= rest {
        rest := rest[|t|..];
        return true;
      }
      return false;
    }

    method ParseString() returns (ok: bool, res: string)
      modifies this
      ensures if ok then Derivations.ParseString(old(rest)) == Ok(res, rest) else Derivations.ParseString(old(rest)).Bad?
    {
      res := "";
      ok := Expect("\"");
      if !ok { return; }
      ghost var start := rest;
      PrependedNone(ParseChars(start));
      while rest != "" && rest[0] != '"'
        invariant ParseChars(start) == Prepended(res, ParseChars(rest))
        decreases |rest|
      {
        ghost var s := rest;
        var c := rest[0];
        rest := rest[1..];
        if c == '\\' {
          if rest == "" {
            assert s == "\\";
            return false, "";
          }
          c := rest[0];
          rest := rest[1..];
          if c == 'n' { c := '\n'; } else if c == 'r' { c := '\r'; } else if c == 't' { c := '\t'; }
        }
        assert ParseChars(s) == Prepended([c], ParseChars(rest));
        if ParseChars(rest).Ok? { Regroup(res, [c], ParseChars(rest).value); }
        res := res + [c];
      }
      if rest == "" { return false, ""; }
      assert res + "" == res;
      rest := rest[1..];
    }

    method ParsePath() returns (ok: bool, res: Path)
      modifies this
      ensures if ok then Derivations.ParsePath(old(rest)) == Ok(res, rest) else Derivations.ParsePath(old(rest)).Bad?
    {
      ok, res := ParseString();
      if ok && (|res| == 0 || res[0] != '/') { ok := false; }
    }

    method EndOfList() returns (end: bool)
      modifies this
      ensures end == AtEnd(old(rest))
      ensures rest == if end then old(rest)[1..] else AfterComma(old(rest))
    {
      if rest != "" && rest[0] == ',' {
        rest := rest[1..];
        return false;
      }
      if rest != "" && rest[0] == ']' {
        rest := rest[1..];
        return true;
      }
      return false;
    }

    method ParsePathOrString(arePath: bool) returns (ok: bool, res: string)
      modifies this
      ensures var p := (if arePath then Derivations.ParsePath else Derivations.ParseString)(old(rest));
        if ok then p == Ok(res, rest) else p.Bad?
    {
      if arePath { ok, res := ParsePath(); } else { ok, res := ParseString(); }
    }

    method ParseStrings(arePaths: bool) returns (ok: bool, res: set<string>)
      modifies this
      ensures var p := Derivations.ParseStrings(old(rest), arePaths);
        if ok then p.Ok? && res == Elements(p.value) && rest == p.rest else p.Bad?
    {
      ghost var item := if arePaths then Derivations.ParsePath else Derivations.ParseString;
      ghost var l := [];
      res := {};
      ReadNone(item, rest);
      var end := EndOfList();
      while !end
        invariant Reading(item, old(rest), l, end, rest) && res == Elements(l)
        decreases !end, |rest|
      {
        ReadOne(item, old(rest), l, rest);
        var x;
        ok, x := ParsePathOrString(arePaths);
        if !ok { return; }
        AddElement(l, x);
        res, l := res + {x}, l + [x];
        end := EndOfList();
      }
      ok := true;
    }

    method ParseArgs() returns (ok: bool, res: seq<string>)
      modifies this
      ensures var p := Derivations.ParseStrings(old(rest), false); if ok then p == Ok(res, rest) else p.Bad?
    {
      res := [];
      ReadNone(Derivations.ParseString, rest);
      var end := EndOfList();
      while !end
        invariant Reading(Derivations.ParseString, old(rest), res, end, rest)
        decreases !end, |rest|
      {
        ReadOne(Derivations.ParseString, old(rest), res, rest);
        var x;
        ok, x := ParseString();
        if !ok { return; }
        res := res + [x];
        end := EndOfList();
      }
      ok := true;
    }

    method ParseOutput() returns (ok: bool, id: string, out: DerivationOutput)
      modifies this
      ensures var p := Derivations.ParseOutput(old(rest)); if ok then p == Ok((id, out), rest) else p.Bad?
    {
      id, out := "", DerivationOutput("", "", "");
      ok := Expect("(");
      if !ok { return; }
      ok, id := ParseString();
      if !ok { return; }
      ok := Expect(",");
      if !ok { return; }
      var path, hashAlgo, hash;
      ok, path := ParsePath();
      if !ok { return; }
      ok, hashAlgo, hash := ParseHash();
      out := DerivationOutput(path, hashAlgo, hash);
    }

    method ParseHash() returns (ok: bool, hashAlgo: string, hash: string)
      modifies this
      ensures var p := Derivations.ParseHash(old(rest)); if ok then p == Ok((hashAlgo, hash), rest) else p.Bad?
    {
      hashAlgo, hash := "", "";
      ok := Expect(",");
      if !ok { return; }
      ok, hashAlgo := ParseString();
      if !ok { return; }
      ok := Expect(",");
      if !ok { return; }
      ok, hash := ParseString();
      if !ok { return; }
      ok := Expect(")");
    }

    method ParseOutputs() returns (ok: bool, outputs: map<string, DerivationOutput>)
      modifies this
      ensures var p := ParseList(Derivations.ParseOutput, old(rest));
        if ok then p.Ok? && outputs == FromEntries(p.value) && rest == p.rest else p.Bad?
    {
      ghost var l := [];
      outputs := map[];
      ReadNone(Derivations.ParseOutput, rest);
      var end := EndOfList();
      while !end
        invariant Reading(Derivations.ParseOutput, old(rest), l, end, rest) && outputs == FromEntries(l)
        decreases !end, |rest|
      {
        ReadOne(Derivations.ParseOutput, old(rest), l, rest);
        var id, out;
        ok, id, out := ParseOutput();
        if !ok { return; }
        AddEntry(l, id, out);
        outputs, l := outputs[id := out], l + [(id, out)];
        end := EndOfList();
      }
      ok := true;
    }

    method ParseInput() returns (ok: bool, path: Path, names: set<string>)
      modifies this
      ensures var p := Derivations.ParseInput(old(rest)); if ok then p == Ok((path, names), rest) else p.Bad?
    {
      path, names := "", {};
      ok := Expect("(");
      if !ok { return; }
      ok, path := ParsePath();
      if !ok { return; }
      ok := Expect(",[");
      if !ok { return; }
      ok, names := ParseStrings(false);
      if !ok { return; }
      ok := Expect(")");
    }

    method ParseInputs() returns (ok: bool, inputs: map<Path, set<string>>)
      modifies this
      ensures var p := ParseList(Derivations.ParseInput, old(rest));
        if ok then p.Ok? && inputs == FromEntries(p.value) && rest == p.rest else p.Bad?
    {
      ghost var l := [];
      inputs := map[];
      ReadNone(Derivations.ParseInput, rest);
      var end := EndOfList();
      while !end
        invariant Reading(Derivations.ParseInput, old(rest), l, end, rest) && inputs == FromEntries(l)
        decreases !end, |rest|
      {
        ReadOne(Derivations.ParseInput, old(rest), l, rest);
        var path, names;
        ok, path, names := ParseInput();
        if !ok { return; }
        AddEntry(l, path, names);
        inputs, l := inputs[path := names], l + [(path, names)];
        end := EndOfList();
      }
      ok := true;
    }

    method ParseVariable() returns (ok: bool, name: string, value: string)
      modifies this
      ensures var p := Derivations.ParseVariable(old(rest)); if ok then p == Ok((name, value), rest) else p.Bad?
    {
      name, value := "", "";
      ok := Expect("(");
      if !ok { return; }
      ok, name := ParseString();
      if !ok { return; }
      ok := Expect(",");
      if !ok { return; }
      ok, value := ParseString();
      if !ok { return; }
      ok := Expect(")");
    }

    method ParseVariables() returns (ok: bool, env: map<string, string>)
      modifies this
      ensures var p := ParseList(Derivations.ParseVariable, old(rest));
        if ok then p.Ok? && env == FromEntries(p.value) && rest == p.rest else p.Bad?
    {
      ghost var l := [];
      env := map[];
      ReadNone(Derivations.ParseVariable, rest);
      var end := EndOfList();
      while !end
        invariant Reading(Derivations.ParseVariable, old(rest), l, end, rest) && env == FromEntries(l)
        decreases !end, |rest|
      {
        ReadOne(Derivations.ParseVariable, old(rest), l, rest);
        var name, value;
        ok, name, value := ParseVariable();
        if !ok { return; }
        AddEntry(l, name, value);
        env, l := env[name := value], l + [(name, value)];
        end := EndOfList();
      }
      ok := true;
    }

    method ParseArguments() returns (ok: bool, args: seq<string>, env: map<string, string>)
      modifies this
      ensures var p := Derivations.ParseArguments(old(rest));
        if ok then p == Ok(Derivation(map[], map[], {}, "", "", args, env), rest) else p.Bad?
    {
      args, env := [], map[];
      ok := Expect(",[");
      if !ok { return; }
      ok, args := ParseArgs();
      if !ok { return; }
      ok := Expect(",[");
      if !ok { return; }
      ok, env := ParseVariables();
      if !ok { return; }
      ok := Expect(")");
    }

    method ParseBuilder() returns (ok: bool, drv: Derivation)
      modifies this
      ensures var p := Derivations.ParseBuilder(old(rest)); if ok then p == Ok(drv, rest) else p.Bad?
    {
      drv := Derivation(map[], map[], {}, "", "", [], map[]);
      ok := Expect(",");
      if !ok { return; }
      var platform, builder, args, env;
      ok, platform := ParseString();
      if !ok { return; }
      ok := Expect(",");
      if !ok { return; }
      ok, builder := ParseString();
      if !ok { return; }
      ok, args, env := ParseArguments();
      drv := drv.(platform := platform, builder := builder, args := args, env := env);
    }

    /** The whole parser, on the whole of the stream. */
    method ParseDerivation() returns (ok: bool, drv: Derivation)
      modifies this
      ensures var p := Derivations.ParseDerivation(old(rest)); if ok then p == Ok(drv, rest) else p.Bad?
    {
      drv := Derivation(map[], map[], {}, "", "", [], map[]);
      ok := Expect("Derive([");
      if !ok { return; }
      var outputs, inputDrvs, inputSrcs;
      ok, outputs := ParseOutputs();
      if !ok { return; }
      ok := Expect(",[");
      if !ok { return; }
      ok, inputDrvs := ParseInputs();
      if !ok { return; }
      ok := Expect(",[");
      if !ok { return; }
      ok, inputSrcs := ParseStrings(true);
      if !ok { return; }
      ok, drv := ParseBuilder();
      drv := drv.(outputs := outputs, inputDrvs := inputDrvs, inputSrcs := inputSrcs);
    }
  }

  lemma AddElement(l: seq<string>, x: string)
    ensures Elements(l + [x]) == Elements(l) + {x}
  {
  }

  lemma AddEntry<V>(l: seq<(string, V)>, k: string, v: V)
    ensures FromEntries(l + [(k, v)]) == FromEntries(l)[k := v]
  {
    assert (l + [(k, v)])[..|l|] == l;
  }

  /** Writing a derivation and reading it: the methods undo each other on well-formed ones. */
  method WriteAndRead(d: Derivation) returns (ok: bool, e: Derivation)
    requires WellFormed(d)
    ensures ok && e == d
  {
    var s := UnparseDerivation(d);
    RoundTrip(d);
    var str := new Reader(s);
    ok, e := str.ParseDerivation();
  }
}
