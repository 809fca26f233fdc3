/** The file formats field by field: what derivations and archives look like on disk
    (nix/libstore/derivations.cc, nix/libutil/archive.cc, nix/libutil/serialise.cc). */
module Formats {
  import opened ByteStrings
  import opened Serialise
  import Archive
  import Derivations

  // Strings

  lemma SmallInt(n: nat)
    requires n < 256
    ensures var t := WrittenInt(n); |t| == 8 && t[0] as int == n && forall i :: 1 <= i < 8 ==> t[i] == '\0'
  {
    assert Power(1) == 256 * Power(0);
    HighBytesAreZero(n, 1, 8);
    assert LittleEndian(n, 1)[0] as int == n;
    assert WrittenInt(n) == LittleEndian(n, 1) + Zeros(7);
  }

  /** The length in eight bytes, the string, and zeros up to a multiple of eight. */
  lemma StringLayout(s: string)
    requires |s| < 256
    ensures var t := WrittenString(s);
      |t| % 8 == 0 && 8 + |s| <= |t| < 16 + |s| && t[0] as int == |s| && t[8..8 + |s|] == s
      && forall i :: 1 <= i < 8 || 8 + |s| <= i < |t| ==> t[i] == '\0'
  {
    SmallInt(|s|);
  }

  // Archives

  /** A word of the format, a name or target, or the contents of a file. */
  datatype Field = T(tag: Archive.Tag) | S(text: string) | C(contents: string)

  /** The fields of a tree, one after the other. */
  ghost function Flat(t: Archive.Node): seq<Field>
    decreases t, 1, 0
  {
    match t
    case Regular(executable, contents) =>
      [T(Archive.Open), T(Archive.Type), T(Archive.RegularType)] + (if executable then [T(Archive.Executable), S("")] else [])
      + [T(Archive.Contents), C(contents), T(Archive.Close)]
    case Directory(entries) =>
      [T(Archive.Open), T(Archive.Type), T(Archive.DirectoryType)] + FlatEntries(t, Sorted(entries.Keys)) + [T(Archive.Close)]
    case Symlink(target) =>
      [T(Archive.Open), T(Archive.Type), T(Archive.SymlinkType), T(Archive.Target), S(target), T(Archive.Close)]
  }

  ghost function FlatEntries(t: Archive.Node, names: seq<string>): seq<Field>
    requires t.Directory? && forall n :: n in names ==> n in t.entries
    decreases t, 0, |names|
  {
    if names == [] then []
    else
      [T(Archive.Entry), T(Archive.Open), T(Archive.Name), S(names[0]), T(Archive.Inner)] + Flat(t.entries[names[0]]) + [T(Archive.Close)]
      + FlatEntries(t, names[1..])
  }

  function Put(fmt: Archive.Format, x: Field, rest: string): string {
    match x
    case T(tag) => fmt.putTag(tag, rest)
    case S(text) => fmt.putString(text, rest)
    case C(contents) => fmt.putContents(contents, rest)
  }

  function PutAll(fmt: Archive.Format, l: seq<Field>, rest: string): string {
    if l == [] then rest else Put(fmt, l[0], PutAll(fmt, l[1..], rest))
  }

  lemma PutFirst(fmt: Archive.Format, x: Field, l: seq<Field>, rest: string)
    ensures PutAll(fmt, [x] + l, rest) == Put(fmt, x, PutAll(fmt, l, rest))
  {
    assert ([x] + l)[1..] == l;
  }

  lemma {:induction false} PutMore(fmt: Archive.Format, a: seq<Field>, b: seq<Field>, rest: string)
    ensures PutAll(fmt, a + b, rest) == PutAll(fmt, a, PutAll(fmt, b, rest))
  {
    if a == [] {
      assert a + b == b;
    } else {
      assert (a + b)[1..] == a[1..] + b;
      PutMore(fmt, a[1..], b, rest);
    }
  }

  lemma PutThree(fmt: Archive.Format, x: Field, y: Field, z: Field, rest: string)
    ensures PutAll(fmt, [x, y, z], rest) == Put(fmt, x, Put(fmt, y, Put(fmt, z, rest)))
  {
    PutFirst(fmt, z, [], rest);
    PutFirst(fmt, y, [z], rest);
    PutFirst(fmt, x, [y, z], rest);
    assert [x, y, z] == [x] + [y, z] && [y, z] == [y] + [z] && [z] == [z] + [];
  }

  lemma FlatFile(fmt: Archive.Format, executable: bool, contents: string, rest: string)
    ensures Archive.PutNode(fmt, Archive.Regular(executable, contents), rest) == PutAll(fmt, Flat(Archive.Regular(executable, contents)), rest)
  {
    var head, flag := [T(Archive.Open), T(Archive.Type), T(Archive.RegularType)], if executable then [T(Archive.Executable), S("")] else [];
    var end := [T(Archive.Contents), C(contents), T(Archive.Close)];
    PutMore(fmt, head + flag, end, rest);
    PutThree(fmt, T(Archive.Contents), C(contents), T(Archive.Close), rest);
    var s1 := PutAll(fmt, end, rest);
    PutMore(fmt, head, flag, s1);
    assert PutAll(fmt, flag, s1) == Archive.PutExecutable(fmt, executable, s1) by {
      if executable {
        PutFirst(fmt, S(""), [], s1);
        PutFirst(fmt, T(Archive.Executable), [S("")], s1);
        assert flag == [T(Archive.Executable)] + [S("")] && [S("")] == [S("")] + [];
      }
    }
    PutThree(fmt, T(Archive.Open), T(Archive.Type), T(Archive.RegularType), PutAll(fmt, flag, s1));
  }

  lemma FlatLink(fmt: Archive.Format, target: string, rest: string)
    ensures Archive.PutNode(fmt, Archive.Symlink(target), rest) == PutAll(fmt, Flat(Archive.Symlink(target)), rest)
  {
    var head, end := [T(Archive.Open), T(Archive.Type), T(Archive.SymlinkType)], [T(Archive.Target), S(target), T(Archive.Close)];
    PutMore(fmt, head, end, rest);
    PutThree(fmt, T(Archive.Target), S(target), T(Archive.Close), rest);
    PutThree(fmt, T(Archive.Open), T(Archive.Type), T(Archive.SymlinkType), PutAll(fmt, end, rest));
    assert Flat(Archive.Symlink(target)) == head + end;
  }

  lemma FlatEntry(fmt: Archive.Format, n: string, rest: string)
    ensures PutAll(fmt, [T(Archive.Entry), T(Archive.Open), T(Archive.Name), S(n), T(Archive.Inner)], rest) == Archive.PutEntry(fmt, n, rest)
  {
    var l := [T(Archive.Name), S(n), T(Archive.Inner)];
    PutThree(fmt, T(Archive.Name), S(n), T(Archive.Inner), rest);
    PutFirst(fmt, T(Archive.Open), l, rest);
    PutFirst(fmt, T(Archive.Entry), [T(Archive.Open)] + l, rest);
    assert [T(Archive.Entry), T(Archive.Open), T(Archive.Name), S(n), T(Archive.Inner)] == [T(Archive.Entry)] + ([T(Archive.Open)] + l);
  }

  lemma {:induction false} FlatEntriesText(fmt: Archive.Format, t: Archive.Node, names: seq<string>, rest: string)
    requires t.Directory? && forall n :: n in names ==> n in t.entries
    ensures Archive.PutEntries(fmt, t, names, rest) == PutAll(fmt, FlatEntries(t, names), rest)
    decreases t, 0, |names|
  {
    if names != [] {
      var n, child, others := names[0], t.entries[names[0]], FlatEntries(t, names[1..]);
      var head := [T(Archive.Entry), T(Archive.Open), T(Archive.Name), S(n), T(Archive.Inner)];
      PutMore(fmt, head + Flat(child) + [T(Archive.Close)], others, rest);
      FlatEntriesText(fmt, t, names[1..], rest);
      var s1 := PutAll(fmt, others, rest);
      PutMore(fmt, head + Flat(child), [T(Archive.Close)], s1);
      PutFirst(fmt, T(Archive.Close), [], s1);
      assert [T(Archive.Close)] == [T(Archive.Close)] + [];
      var s2 := fmt.putTag(Archive.Close, s1);
      PutMore(fmt, head, Flat(child), s2);
      FlatText(fmt, child, s2);
      FlatEntry(fmt, n, PutAll(fmt, Flat(child), s2));
    }
  }

  lemma {:induction false} FlatText(fmt: Archive.Format, t: Archive.Node, rest: string)
    ensures Archive.PutNode(fmt, t, rest) == PutAll(fmt, Flat(t), rest)
    decreases t, 1, 0
  {
    match t {
      case Regular(executable, contents) => FlatFile(fmt, executable, contents, rest);
      case Symlink(target) => FlatLink(fmt, target, rest);
      case Directory(entries) =>
        var head, names := [T(Archive.Open), T(Archive.Type), T(Archive.DirectoryType)], Sorted(entries.Keys);
        PutMore(fmt, head + FlatEntries(t, names), [T(Archive.Close)], rest);
        PutFirst(fmt, T(Archive.Close), [], rest);
        assert [T(Archive.Close)] == [T(Archive.Close)] + [];
        var s1 := fmt.putTag(Archive.Close, rest);
        PutMore(fmt, head, FlatEntries(t, names), s1);
        FlatEntriesText(fmt, t, names, s1);
        PutThree(fmt, T(Archive.Open), T(Archive.Type), T(Archive.DirectoryType), PutAll(fmt, FlatEntries(t, names), s1));
    }
  }

  /** The bytes of a field: a string, or contents with a 64-bit length. */
  function Bytes(x: Field): string {
    match x
    case T(tag) => WrittenString(Archive.Word(tag))
    case S(text) => WrittenString(text)
    case C(contents) => WrittenLongLong(|contents|) + contents + Padding(|contents|)
  }

  function AllBytes(l: seq<Field>): string {
    if l == [] then "" else Bytes(l[0]) + AllBytes(l[1..])
  }

  lemma PutBytes(x: Field, rest: string)
    ensures Put(Archive.NAR, x, rest) == Bytes(x) + rest
  {
    if x.C? {
      var a, b, c := WrittenLongLong(|x.contents|), x.contents, Padding(|x.contents|);
      assert a + (b + (c + rest)) == a + b + c + rest;
    }
  }

  lemma {:induction false} PutAllBytes(l: seq<Field>)
    ensures PutAll(Archive.NAR, l, "") == AllBytes(l)
  {
    if l != [] {
      PutAllBytes(l[1..]);
      PutBytes(l[0], AllBytes(l[1..]));
    }
  }

  /** An archive is the version and the fields of its tree, in this order. */
  lemma ArchiveIsFlat(t: Archive.Node)
    ensures Archive.Dump(t) == WrittenString("nix-archive-1") + AllBytes(Flat(t))
  {
    FlatText(Archive.NAR, t, "");
    PutAllBytes(Flat(t));
  }

  // Derivations

  function Quoted(s: string): string {
    Derivations.PrintedString(s)
  }

  function Concat(l: seq<string>): string {
    if l == [] then "" else l[0] + Concat(l[1..])
  }

  lemma {:induction false} ConcatMore(a: seq<string>, b: seq<string>)
    ensures Concat(a + b) == Concat(a) + Concat(b)
  {
    if a == [] {
      assert a + b == b;
    } else {
      assert (a + b)[1..] == a[1..] + b;
      ConcatMore(a[1..], b);
      var x, y, z := a[0], Concat(a[1..]), Concat(b);
      assert x + (y + z) == (x + y) + z;
    }
  }

  lemma ConcatOne(a: string)
    ensures Concat([a]) == a
  {
    assert Concat([a]) == a + Concat([]);
  }

  /** A text that ends with pieces. */
  lemma ConcatLast(l: seq<string>, last: string, pieces: seq<string>)
    requires last == Concat(pieces)
    ensures Concat(l) + last == Concat(l + pieces)
  {
    ConcatMore(l, pieces);
  }

  lemma ConcatThree(a: string, b: string, c: string)
    ensures a + b + c == Concat([a, b, c])
  {
    ConcatOne(c);
    ConcatLast([b], c, [c]);
    ConcatOne(b);
    ConcatLast([a], b + c, [b] + [c]);
    ConcatOne(a);
    assert a + (b + c) == a + b + c;
    assert [a] + ([b] + [c]) == [a, b, c];
  }

  lemma ConcatFive(a: string, b: string, c: string, d: string, e: string)
    ensures a + b + c + d + e == Concat([a, b, c, d, e])
  {
    ConcatThree(a, b, c);
    ConcatThree(a + b + c, d, e);
    ConcatMore([a, b, c], [d, e]);
    ConcatOne(e);
    ConcatLast([d], e, [e]);
    ConcatOne(d);
    assert [d] + [e] == [d, e];
    var x := a + b + c;
    assert x + d + e == x + (d + e);
    assert [a, b, c] + [d, e] == [a, b, c, d, e];
  }

  /** The fields of an output, an input and a variable, in order. */
  lemma ItemLayout(o: (string, Derivations.DerivationOutput), i: (Derivations.Path, set<string>), v: (string, string))
    ensures Derivations.PrintedOutput(o)
         == Concat(["(", Quoted(o.0), ",", Quoted(o.1.path), ",", Quoted(o.1.hashAlgo), ",", Quoted(o.1.hash), ")"])
    ensures Derivations.PrintedInput(i) == Concat(["(", Quoted(i.0), ",", "[" + Derivations.Listed(Derivations.PrintedString, Sorted(i.1)), ")"])
    ensures Derivations.PrintedVariable(v) == Concat(["(", Quoted(v.0), ",", Quoted(v.1), ")"])
  {
    ConcatFive(",", Quoted(o.1.hashAlgo), ",", Quoted(o.1.hash), ")");
    ConcatFive("(", Quoted(o.0), ",", Quoted(o.1.path), Derivations.PrintedHash(o.1));
    ConcatMore(["(", Quoted(o.0), ",", Quoted(o.1.path)], [Derivations.PrintedHash(o.1)]);
    ConcatOne(Derivations.PrintedHash(o.1));
    var front, back := ["(", Quoted(o.0), ",", Quoted(o.1.path)], [",", Quoted(o.1.hashAlgo), ",", Quoted(o.1.hash), ")"];
    ConcatMore(front, back);
    assert front + [Derivations.PrintedHash(o.1)] == ["(", Quoted(o.0), ",", Quoted(o.1.path), Derivations.PrintedHash(o.1)];
    assert front + back == ["(", Quoted(o.0), ",", Quoted(o.1.path), ",", Quoted(o.1.hashAlgo), ",", Quoted(o.1.hash), ")"];
    ConcatFive("(", Quoted(i.0), ",", "[" + Derivations.Listed(Derivations.PrintedString, Sorted(i.1)), ")");
    ConcatFive("(", Quoted(v.0), ",", Quoted(v.1), ")");
  }

  ghost function ArgumentPieces(d: Derivations.Derivation): seq<string> {
    [",[", Derivations.Listed(Derivations.PrintedString, d.args), ",[", Derivations.Listed(Derivations.PrintedVariable, Derivations.Entries(d.env)), ")"]
  }

  ghost function BuilderPieces(d: Derivations.Derivation): seq<string> {
    [",", Quoted(d.platform), ",", Quoted(d.builder)] + ArgumentPieces(d)
  }

  ghost function SourcePieces(d: Derivations.Derivation): seq<string> {
    [",[", Derivations.Listed(Derivations.PrintedString, Sorted(d.inputSrcs))] + BuilderPieces(d)
  }

  lemma BuilderLayout(d: Derivations.Derivation)
    ensures Derivations.UnparsedBuilder(d) == Concat(BuilderPieces(d))
  {
    var last := Derivations.UnparsedArguments(d);
    ConcatFive(",[", Derivations.Listed(Derivations.PrintedString, d.args), ",[", Derivations.Listed(Derivations.PrintedVariable, Derivations.Entries(d.env)), ")");
    ConcatFive(",", Quoted(d.platform), ",", Quoted(d.builder), last);
    ConcatReplaced([",", Quoted(d.platform), ",", Quoted(d.builder)], last, ArgumentPieces(d));
    assert [",", Quoted(d.platform), ",", Quoted(d.builder)] + [last] == [",", Quoted(d.platform), ",", Quoted(d.builder), last];
  }

  lemma ConcatReplaced(front: seq<string>, last: string, pieces: seq<string>)
    requires last == Concat(pieces)
    ensures Concat(front + [last]) == Concat(front + pieces)
  {
    ConcatMore(front, [last]);
    ConcatMore(front, pieces);
    ConcatOne(last);
  }

  lemma SourceLayout(d: Derivations.Derivation)
    ensures Derivations.UnparsedSources(d) == Concat(SourcePieces(d))
  {
    var sources, last := Derivations.Listed(Derivations.PrintedString, Sorted(d.inputSrcs)), Derivations.UnparsedBuilder(d);
    BuilderLayout(d);
    ConcatThree(",[", sources, last);
    ConcatReplaced([",[", sources], last, BuilderPieces(d));
    assert [",[", sources] + [last] == [",[", sources, last];
  }

  /** A derivation is printed field by field: outputs, input derivations, input sources, platform,
      builder, arguments, environment. */
  lemma DerivationLayout(d: Derivations.Derivation)
    ensures Derivations.Unparse(d)
         == Concat(["Derive([", Derivations.Listed(Derivations.PrintedOutput, Derivations.Entries(d.outputs)),
                    ",[", Derivations.Listed(Derivations.PrintedInput, Derivations.Entries(d.inputDrvs))] + SourcePieces(d))
  {
    var outputs := Derivations.Listed(Derivations.PrintedOutput, Derivations.Entries(d.outputs));
    var inputs := Derivations.Listed(Derivations.PrintedInput, Derivations.Entries(d.inputDrvs));
    var last := Derivations.UnparsedSources(d);
    SourceLayout(d);
    ConcatFive("Derive([", outputs, ",[", inputs, last);
    ConcatReplaced(["Derive([", outputs, ",[", inputs], last, SourcePieces(d));
    assert ["Derive([", outputs, ",[", inputs] + [last] == ["Derive([", outputs, ",[", inputs, last];
  }
}
