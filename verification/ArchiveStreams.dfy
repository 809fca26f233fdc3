/** Archives as they are written to a sink and read from a source
    (nix/libutil/serialise.cc, nix/libutil/archive.cc). */
module ArchiveStreams {
  import opened Archive
  import opened ByteStrings
  import opened Serialise
  import opened Wrappers
  import DerivationText

  const BUFFER_SIZE: nat := 65536

  /** Four bytes by shifting and masking. */
  function FourBytes(n: nat): string {
    [(n % 256) as char, (n / 0x100 % 256) as char, (n / 0x1_0000 % 256) as char, (n / 0x100_0000 % 256) as char]
  }

  lemma LowBytes(n: nat, k: nat)
    ensures LittleEndian(n, 4 + k) == FourBytes(n) + LittleEndian(n / TWO_TO_32, k)
  {
    var n1, n2, n3, n4 := n / 256, n / 0x1_0000, n / 0x100_0000, n / TWO_TO_32;
    assert n1 / 256 == n2 && n2 / 256 == n3 && n3 / 256 == n4;
    var l4 := LittleEndian(n4, k);
    var l3 := LittleEndian(n3, 1 + k);
    assert l3 == [(n3 % 256) as char] + l4;
    var l2 := LittleEndian(n2, 2 + k);
    assert l2 == [(n2 % 256) as char] + l3;
    var l1 := LittleEndian(n1, 3 + k);
    assert l1 == [(n1 % 256) as char] + l2;
    assert LittleEndian(n, 4 + k) == [(n % 256) as char] + l1;
  }

  /** A number below 2^32 in eight bytes. */
  lemma IntBytes(n: nat)
    requires n < TWO_TO_32
    ensures LittleEndian(n, 8) == FourBytes(n) + Zeros(4)
  {
    assert n / TWO_TO_32 == 0;
    LowBytes(n, 4);
    ZeroBytes(4);
  }

  lemma LongLongBytes(n: nat)
    ensures LittleEndian(n, 8) == FourBytes(n) + FourBytes(n / TWO_TO_32)
  {
    LowBytes(n, 4);
    LowBytes(n / TWO_TO_32, 0);
  }

  class Sink {
    var s: string

    constructor ()
      ensures s == ""
    {
      s := "";
    }

    method Append(data: string)
      modifies this
      ensures s == old(s) + data
    {
      s := s + data;
    }

    method WritePadding(len: nat)
      modifies this
      ensures s == old(s) + Padding(len)
    {
      if len % 8 != 0 { Append(Zeros(8)[..8 - len % 8]); }
    }

    /** The argument is converted to 32 bits. */
    method WriteInt(len: nat)
      modifies this
      ensures s == old(s) + WrittenInt(len)
    {
      var n := len % TWO_TO_32;
      var buf := new char[8](_ => '\0');
      buf[0] := (n % 256) as char;
      buf[1] := (n / 0x100 % 256) as char;
      buf[2] := (n / 0x1_0000 % 256) as char;
      buf[3] := (n / 0x100_0000 % 256) as char;
      IntBytes(n);
      assert buf[..] == FourBytes(n) + Zeros(4);
      Append(buf[..]);
    }

    /** The argument is converted to 64 bits. */
    method WriteLongLong(len: nat)
      modifies this
      ensures s == old(s) + WrittenLongLong(len)
    {
      var n := len % TWO_TO_64;
      var high := n / TWO_TO_32;
      var buf := new char[8];
      buf[0] := (n % 256) as char;
      buf[1] := (n / 0x100 % 256) as char;
      buf[2] := (n / 0x1_0000 % 256) as char;
      buf[3] := (n / 0x100_0000 % 256) as char;
      buf[4] := (high % 256) as char;
      buf[5] := (high / 0x100 % 256) as char;
      buf[6] := (high / 0x1_0000 % 256) as char;
      buf[7] := (high / 0x100_0000 % 256) as char;
      LongLongBytes(n);
      assert buf[..] == FourBytes(n) + FourBytes(high);
      Append(buf[..]);
    }

    method WriteString(x: string, ghost rest: string)
      modifies this
      ensures s + rest == old(s) + PutString(x, rest)
    {
      WriteInt(|x|);
      Append(x);
      WritePadding(|x|);
      assert s == old(s) + WrittenString(x);
      Regroup(old(s), WrittenString(x), rest);
    }

    method WriteTag(tag: Tag, ghost rest: string)
      modifies this
      ensures s + rest == old(s) + PutTag(tag, rest)
    {
      WriteString(Word(tag), rest);
    }

    /** The contents are copied one buffer after the other. */
    method Copy(contents: string)
      modifies this
      ensures s == old(s) + contents
    {
      var left := |contents|;
      while left > 0
        invariant 0 <= left <= |contents| && s == old(s) + contents[..|contents| - left]
      {
        var n := if left > BUFFER_SIZE then BUFFER_SIZE else left;
        var pos := |contents| - left;
        Append(contents[pos..pos + n]);
        assert contents[..pos + n] == contents[..pos] + contents[pos..pos + n];
        Regroup(old(s), contents[..pos], contents[pos..pos + n]);
        left := left - n;
      }
      assert contents[..|contents|] == contents;
    }

    method DumpContents(contents: string, ghost rest: string)
      modifies this
      ensures s + rest == old(s) + PutTag(Contents, PutContents(contents, rest))
    {
      WriteTag(Contents, PutContents(contents, rest));
      ghost var s1 := s;
      WriteLongLong(|contents|);
      Copy(contents);
      WritePadding(|contents|);
      ghost var n, p := WrittenLongLong(|contents|), Padding(|contents|);
      Regroup(s1 + n + contents, p, rest);
      Regroup(s1 + n, contents, p + rest);
      Regroup(s1, n, contents + (p + rest));
    }

    method DumpRegular(executable: bool, contents: string, ghost rest: string)
      modifies this
      ensures s + rest == old(s) + PutTag(RegularType, PutExecutable(NAR, executable, PutTag(Contents, PutContents(contents, rest))))
    {
      ghost var body := PutTag(Contents, PutContents(contents, rest));
      WriteTag(RegularType, PutExecutable(NAR, executable, body));
      if executable {
        WriteTag(Executable, PutString("", body));
        WriteString("", body);
      }
      DumpContents(contents, rest);
    }

    method DumpEntries(t: Node, ghost rest: string)
      requires t.Directory?
      modifies this
      ensures s + rest == old(s) + PutEntries(NAR, t, Sorted(t.entries.Keys), rest)
      decreases t, 0
    {
      var names := DerivationText.InOrder(t.entries.Keys);
      for i := 0 to |names|
        invariant s + PutEntries(NAR, t, names[i..], rest) == old(s) + PutEntries(NAR, t, names, rest)
      {
        ghost var more := PutEntries(NAR, t, names[i + 1..], rest);
        assert names[i] in names && names[i..][0] == names[i] && names[i..][1..] == names[i + 1..];
        DumpEntry(names[i], t.entries[names[i]], more);
      }
      assert names[|names|..] == [];
    }

    method DumpEntry(name: string, node: Node, ghost rest: string)
      modifies this
      ensures s + rest == old(s) + PutEntry(NAR, name, PutNode(NAR, node, PutTag(Close, rest)))
      decreases node, 3
    {
      OpenEntry(name, PutNode(NAR, node, PutTag(Close, rest)));
      DumpNode(node, PutTag(Close, rest));
      WriteTag(Close, rest);
    }

    method OpenEntry(name: string, ghost text: string)
      modifies this
      ensures s + text == old(s) + PutEntry(NAR, name, text)
    {
      ghost var node := PutTag(Inner, text);
      ghost var named := PutTag(Name, PutString(name, node));
      WriteTag(Entry, PutTag(Open, named));
      WriteTag(Open, named);
      WriteTag(Name, PutString(name, node));
      WriteString(name, node);
      WriteTag(Inner, text);
    }

    method DumpType(t: Node, ghost rest: string)
      modifies this
      ensures s + rest == old(s) + PutType(NAR, t, rest)
      decreases t, 1
    {
      match t {
        case Regular(executable, contents) =>
          DumpRegular(executable, contents, rest);
        case Directory(entries) =>
          WriteTag(DirectoryType, PutEntries(NAR, t, Sorted(entries.Keys), rest));
          DumpEntries(t, rest);
        case Symlink(target) =>
          WriteTag(SymlinkType, PutTag(Target, PutString(target, rest)));
          WriteTag(Target, PutString(target, rest));
          WriteString(target, rest);
      }
    }

    method DumpNode(t: Node, ghost rest: string)
      modifies this
      ensures s + rest == old(s) + PutNode(NAR, t, rest)
      decreases t, 2
    {
      ghost var text := PutType(NAR, t, PutTag(Close, rest));
      WriteTag(Open, PutTag(Type, text));
      WriteTag(Type, text);
      DumpType(t, PutTag(Close, rest));
      WriteTag(Close, rest);
    }

    method DumpPath(t: Node)
      modifies this
      ensures s == old(s) + Dump(t)
    {
      WriteString(ARCHIVE_VERSION, PutNode(NAR, t, ""));
      DumpNode(t, "");
      assert s + "" == s;
    }
  }

  lemma FromFour(b: string)
    requires |b| == 4
    ensures FromLittleEndian(b) == b[0] as int + 0x100 * b[1] as int + 0x1_0000 * b[2] as int + 0x100_0000 * b[3] as int
  {
    assert b[1..][1..] == b[2..] && b[2..][1..] == b[3..] && b[3..][1..] == "";
    assert FromLittleEndian(b[3..]) == b[3] as int;
    assert FromLittleEndian(b[2..]) == b[2] as int + 256 * FromLittleEndian(b[3..]);
    assert FromLittleEndian(b[1..]) == b[1] as int + 256 * FromLittleEndian(b[2..]);
  }

  lemma FromEight(b: string)
    requires |b| == 8
    ensures FromLittleEndian(b) == FromLittleEndian(b[..4]) + TWO_TO_32 * FromLittleEndian(b[4..])
  {
    FromFour(b[..4]);
    assert b[1..][1..] == b[2..] && b[2..][1..] == b[3..] && b[3..][1..] == b[4..];
    assert FromLittleEndian(b[3..]) == b[3] as int + 256 * FromLittleEndian(b[4..]);
    assert FromLittleEndian(b[2..]) == b[2] as int + 256 * FromLittleEndian(b[3..]);
    assert FromLittleEndian(b[1..]) == b[1] as int + 256 * FromLittleEndian(b[2..]);
  }

  /** A failed step says nothing about the rest of the source. */
  class Source {
    var rest: string

    constructor (s: string)
      ensures rest == s
    {
      rest := s;
    }

    method Read(n: nat) returns (ok: bool, data: string)
      modifies this
      ensures if ok then Take(old(rest), n) == Ok(data, rest) else Take(old(rest), n).Bad?
    {
      if n <= |rest| {
        data := rest[..n];
        rest := rest[n..];
        return true, data;
      }
      return false, "";
    }

    method SkipPadding(len: nat) returns (ok: bool)
      modifies this
      ensures if ok then ReadPadding(old(rest), len) == Ok((), rest) else ReadPadding(old(rest), len).Bad?
    {
      if len % 8 == 0 { return true; }
      var zero;
      ok, zero := Read(8 - len % 8);
      if !ok { return; }
      for i := 0 to |zero|
        invariant forall k :: 0 <= k < i ==> zero[k] == '\0'
      {
        if zero[i] != '\0' { return false; }
      }
      assert zero == Zeros(8 - len % 8);
    }

    method NextInt() returns (ok: bool, n: nat)
      modifies this
      ensures if ok then ReadInt(old(rest)) == Ok(n, rest) else ReadInt(old(rest)).Bad?
    {
      var buf;
      ok, buf := Read(8);
      if !ok { return false, 0; }
      if buf[4] != '\0' || buf[5] != '\0' || buf[6] != '\0' || buf[7] != '\0' {
        assert buf[4..] != Zeros(4) by { assert buf[4..][0] == buf[4] && buf[4..][1] == buf[5] && buf[4..][2] == buf[6] && buf[4..][3] == buf[7]; }
        return false, 0;
      }
      assert buf[4..] == Zeros(4);
      FromFour(buf[..4]);
      n := buf[0] as int + 0x100 * buf[1] as int + 0x1_0000 * buf[2] as int + 0x100_0000 * buf[3] as int;
    }

    method NextLongLong() returns (ok: bool, n: nat)
      modifies this
      ensures if ok then ReadLongLong(old(rest)) == Ok(n, rest) else ReadLongLong(old(rest)).Bad?
    {
      var buf;
      ok, buf := Read(8);
      if !ok { return false, 0; }
      FromEight(buf);
      FromFour(buf[..4]);
      FromFour(buf[4..]);
      var low: nat := buf[0] as int + 0x100 * buf[1] as int + 0x1_0000 * buf[2] as int + 0x100_0000 * buf[3] as int;
      var high: nat := buf[4] as int + 0x100 * buf[5] as int + 0x1_0000 * buf[6] as int + 0x100_0000 * buf[7] as int;
      n := low + TWO_TO_32 * high;
    }

    method NextString() returns (ok: bool, x: string)
      modifies this
      ensures if ok then ReadString(old(rest)) == Ok(x, rest) else ReadString(old(rest)).Bad?
    {
      x := "";
      var len;
      ok, len := NextInt();
      if !ok { return; }
      ok, x := Read(len);
      if !ok { return; }
      ok := SkipPadding(len);
    }

    method NextTag() returns (ok: bool, tag: Tag)
      modifies this
      ensures if ok then ReadTag(old(rest)) == Ok(tag, rest) else ReadTag(old(rest)).Bad?
    {
      var word;
      ok, word := NextString();
      tag := TagOf(word);
    }

    /** The contents are read one buffer after the other. */
    method NextContents() returns (ok: bool, contents: string)
      modifies this
      ensures if ok then ReadContents(old(rest)) == Ok(contents, rest) else ReadContents(old(rest)).Bad?
    {
      contents := "";
      var size;
      ok, size := NextLongLong();
      if !ok { return; }
      ghost var start := rest;
      var left := size;
      while left > 0
        invariant 0 <= left <= size && |contents| == size - left && start == contents + rest
      {
        var n := if BUFFER_SIZE > left then left else BUFFER_SIZE;
        var data;
        ghost var before := rest;
        ok, data := Read(n);
        if !ok {
          assert |start| < size;
          return;
        }
        assert before == data + rest;
        Regroup(contents, data, rest);
        contents := contents + data;
        left := left - n;
      }
      assert start[..size] == contents && start[size..] == rest;
      ok := SkipPadding(size);
    }

    method ParseTree() returns (ok: bool, node: Option<Node>)
      modifies this
      ensures Consumes(NAR) && if ok then ParseNode(NAR, old(rest)) == Ok(node, rest) else ParseNode(NAR, old(rest)).Bad?
      decreases |rest|, 0
    {
      NarConsumes();
      node := None;
      var tag;
      ok, tag := NextTag();
      if !ok { return; }
      if !tag.Open? { return false, None; }
      ok, node := ParseNodeFields();
    }

    method ParseNodeFields() returns (ok: bool, node: Option<Node>)
      modifies this
      ensures Consumes(NAR)
      ensures if ok then ParseFields(NAR, old(rest), Unknown) == Ok(node, rest) else ParseFields(NAR, old(rest), Unknown).Bad?
      decreases |rest|, 1
    {
      NarConsumes();
      var f := Unknown;
      node := None;
      while true
        invariant |rest| <= |old(rest)|
        invariant ParseFields(NAR, old(rest), Unknown) == ParseFields(NAR, rest, f)
        decreases |rest|
      {
        var field;
        ok, field := NextTag();
        if !ok { return; }
        if field.Close? { return true, Created(f); }
        ok, f := ParseOneField(field, f);
        if !ok { return; }
      }
    }

    method ParseType(f: Fields) returns (ok: bool, f': Fields)
      modifies this
      ensures Consumes(NAR)
      ensures if ok then ParseField(NAR, Type, f, old(rest)) == Ok(f', rest) else ParseField(NAR, Type, f, old(rest)).Bad?
    {
      NarConsumes();
      f' := f;
      var kind;
      ok, kind := NextTag();
      if !ok { return; }
      if !f.Unknown? || StartType(kind).None? { return false, f; }
      f' := StartType(kind).value;
    }

    method ParseDirectoryEntry(f: Fields) returns (ok: bool, f': Fields)
      requires f.Dir?
      modifies this
      ensures Consumes(NAR)
      ensures if ok then ParseField(NAR, Entry, f, old(rest)) == Ok(f', rest) else ParseField(NAR, Entry, f, old(rest)).Bad?
      decreases |rest|, 3
    {
      NarConsumes();
      f' := f;
      var tag;
      ok, tag := NextTag();
      if !ok { return; }
      if !tag.Open? { return false, f; }
      var entries;
      ok, entries := ParseEntryFields(f.entries);
      f' := Dir(entries);
    }

    method ParseTarget(f: Fields) returns (ok: bool, f': Fields)
      requires f.Link?
      modifies this
      ensures Consumes(NAR)
      ensures if ok then ParseField(NAR, Target, f, old(rest)) == Ok(f', rest) else ParseField(NAR, Target, f, old(rest)).Bad?
    {
      NarConsumes();
      f' := f;
      var target;
      ok, target := NextString();
      if !ok { return; }
      if f.target.Some? || UpToNul(target) == "" { return false, f; }
      f' := Link(Some(UpToNul(target)));
    }

    /** The contents of a regular file, or that it is executable. */
    method ParseRegular(field: Tag, f: Fields) returns (ok: bool, f': Fields)
      requires f.File? && (field.Contents? || field.Executable?)
      modifies this
      ensures Consumes(NAR)
      ensures if ok then ParseField(NAR, field, f, old(rest)) == Ok(f', rest) else ParseField(NAR, field, f, old(rest)).Bad?
    {
      NarConsumes();
      if field.Contents? {
        var contents;
        ok, contents := NextContents();
        f' := f.(contents := f.contents + contents);
      } else {
        var ignored;
        ok, ignored := NextString();
        f' := f.(executable := true);
      }
    }

    method ParseOneField(field: Tag, f: Fields) returns (ok: bool, f': Fields)
      modifies this
      ensures Consumes(NAR)
      ensures if ok then ParseField(NAR, field, f, old(rest)) == Ok(f', rest) else ParseField(NAR, field, f, old(rest)).Bad?
      decreases |rest|, 4
    {
      if field.Type? {
        ok, f' := ParseType(f);
      } else if (field.Contents? || field.Executable?) && f.File? {
        ok, f' := ParseRegular(field, f);
      } else if field.Entry? && f.Dir? {
        ok, f' := ParseDirectoryEntry(f);
      } else if field.Target? && f.Link? {
        ok, f' := ParseTarget(f);
      } else {
        NarConsumes();
        ok, f' := false, f;
      }
    }

    /** The node of an entry. */
    method ParseNamedNode(entries: map<string, Node>, name: string) returns (ok: bool, entries': map<string, Node>)
      modifies this
      ensures Consumes(NAR) && (ok ==> |rest| < |old(rest)|)
      ensures match ParseNode(NAR, old(rest))
              case Bad => !ok
              case Ok(node, s2) =>
                if node.Some? && (name == "" || name in entries) then !ok
                else ok && rest == s2 && entries' == if node.None? then entries else entries[name := node.value]
      decreases |rest|, 1
    {
      NarConsumes();
      entries' := entries;
      var node;
      ok, node := ParseTree();
      if !ok { return; }
      if node.Some? {
        if name == "" || name in entries { return false, entries; }
        entries' := entries[name := node.value];
      }
    }

    method ParseEntryFields(entries: map<string, Node>) returns (ok: bool, entries': map<string, Node>)
      modifies this
      ensures Consumes(NAR)
      ensures if ok then ParseEntry(NAR, old(rest), entries, "") == Ok(entries', rest) else ParseEntry(NAR, old(rest), entries, "").Bad?
      decreases |rest|, 2
    {
      NarConsumes();
      entries' := entries;
      var name := "";
      while true
        invariant |rest| <= |old(rest)|
        invariant ParseEntry(NAR, old(rest), entries, "") == ParseEntry(NAR, rest, entries', name)
        decreases |rest|
      {
        var field;
        ok, field := NextTag();
        if !ok { return; }
        if field.Close? {
          return true, entries';
        } else if field.Name? {
          var prevName := name;
          ok, name := NextString();
          if !ok { return; }
          if !ValidName(name) || !Lt(prevName, name) { return false, entries'; }
        } else if field.Inner? {
          ok, entries' := ParseNamedNode(entries', name);
          if !ok { return; }
        } else {
          return false, entries';
        }
      }
    }

    method RestorePath() returns (ok: bool, node: Option<Node>)
      modifies this
      ensures if ok then ParseDump(old(rest)) == Ok(node, rest) else ParseDump(old(rest)).Bad?
    {
      node := None;
      var version;
      ok, version := NextString();
      if !ok { return; }
      if version != ARCHIVE_VERSION { return false, None; }
      ok, node := ParseTree();
    }
  }

  /** Dumping a tree and restoring it: the methods undo each other. */
  method DumpAndRestore(t: Node) returns (ok: bool, u: Option<Node>)
    requires Legal(t)
    ensures ok && u == Some(t)
  {
    var sink := new Sink();
    sink.DumpPath(t);
    RoundTrip(t, "");
    assert Dump(t) + "" == Dump(t) == sink.s;
    var source := new Source(sink.s);
    ok, u := source.RestorePath();
  }
}
