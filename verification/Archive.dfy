/** Archives of file trees (nix/libutil/archive.cc): dumping a tree and restoring it. */
module Archive {
  import opened ByteStrings
  import opened Serialise
  import opened Wrappers

  datatype Node =
    | Regular(executable: bool, contents: string)
    | Directory(entries: map<string, Node>)
    | Symlink(target: string)

  const ARCHIVE_VERSION := "nix-archive-1"

  /** The words of the format. */
  datatype Tag =
    | Open | Close | Type | RegularType | DirectoryType | SymlinkType | Contents | Executable | Entry | Name | Inner | Target | Other

  function Word(tag: Tag): string {
    match tag
    case Open => "("
    case Close => ")"
    case Type => "type"
    case RegularType => "regular"
    case DirectoryType => "directory"
    case SymlinkType => "symlink"
    case Contents => "contents"
    case Executable => "executable"
    case Entry => "entry"
    case Name => "name"
    case Inner => "node"
    case Target => "target"
    case Other => ""
  }

  function TagOf(s: string): Tag {
    if s == "(" then Open
    else if s == ")" then Close
    else if s == "type" then Type
    else if s == "regular" then RegularType
    else if s == "directory" then DirectoryType
    else if s == "symlink" then SymlinkType
    else if s == "contents" then Contents
    else if s == "executable" then Executable
    else if s == "entry" then Entry
    else if s == "name" then Name
    else if s == "node" then Inner
    else if s == "target" then Target
    else Other
  }

  /** How words, strings and the contents of files are put before the rest of a stream, and
      read from it. */
  datatype Format = Format(putTag: (Tag, string) -> string, putString: (string, string) -> string, putContents: (string, string) -> string,
                           readTag: string -> Parsed<Tag>, readString: string -> Parsed<string>, readContents: string -> Parsed<string>)

  /** Reading takes something. */
  ghost predicate Consumes(fmt: Format) {
    (forall s :: fmt.readTag(s).Ok? ==> |fmt.readTag(s).rest| < |s|)
    && (forall s :: fmt.readString(s).Ok? ==> |fmt.readString(s).rest| < |s|)
    && (forall s :: fmt.readContents(s).Ok? ==> |fmt.readContents(s).rest| < |s|)
  }

  // The format

  function PutTag(tag: Tag, rest: string): string {
    PutString(Word(tag), rest)
  }

  function PutString(s: string, rest: string): string {
    WrittenString(s) + rest
  }

  function PutContents(contents: string, rest: string): string {
    WrittenLongLong(|contents|) + (contents + (Padding(|contents|) + rest))
  }

  function ReadTag(s: string): (r: Parsed<Tag>)
    ensures r.Ok? ==> |r.rest| < |s|
  {
    var (word, s1) :- ReadString(s);
    Ok(TagOf(word), s1)
  }

  function ReadContents(s: string): (r: Parsed<string>)
    ensures r.Ok? ==> |r.rest| < |s|
  {
    var (size, s1) :- ReadLongLong(s);
    ReadBytes(s1, size)
  }

  const NAR := Format(PutTag, PutString, PutContents, ReadTag, ReadString, ReadContents)

  // Dumping

  /** The text of a node, then the rest. */
  ghost function PutNode(fmt: Format, t: Node, rest: string): string
    decreases t
  {
    fmt.putTag(Open, fmt.putTag(Type, PutType(fmt, t, fmt.putTag(Close, rest))))
  }

  ghost function PutType(fmt: Format, t: Node, rest: string): string
    decreases t, 1, 0
  {
    match t
    case Regular(executable, contents) =>
      fmt.putTag(RegularType, PutExecutable(fmt, executable, fmt.putTag(Contents, fmt.putContents(contents, rest))))
    case Directory(entries) => fmt.putTag(DirectoryType, PutEntries(fmt, t, Sorted(entries.Keys), rest))
    case Symlink(target) => fmt.putTag(SymlinkType, fmt.putTag(Target, fmt.putString(target, rest)))
  }

  function PutExecutable(fmt: Format, executable: bool, rest: string): string {
    if executable then fmt.putTag(Executable, fmt.putString("", rest)) else rest
  }

  /** The entries of a directory, in order, then the rest. */
  ghost function PutEntries(fmt: Format, t: Node, names: seq<string>, rest: string): string
    requires t.Directory? && forall n :: n in names ==> n in t.entries
    decreases t, 0, |names|
  {
    if names == [] then rest
    else PutEntry(fmt, names[0], PutNode(fmt, t.entries[names[0]], fmt.putTag(Close, PutEntries(fmt, t, names[1..], rest))))
  }

  function PutEntry(fmt: Format, name: string, rest: string): string {
    fmt.putTag(Entry, fmt.putTag(Open, fmt.putTag(Name, fmt.putString(name, fmt.putTag(Inner, rest)))))
  }

  ghost function Dump(t: Node): string {
    PutString(ARCHIVE_VERSION, PutNode(NAR, t, ""))
  }

  // Restoring

  /** What is known of a node while its fields are read. */
  datatype Fields =
    | Unknown
    | File(executable: bool, contents: string)
    | Dir(entries: map<string, Node>)
    | Link(target: Option<string>)

  /** The node that the fields have created; without a type, or without a target, none. */
  function Created(f: Fields): Option<Node> {
    match f
    case Unknown => None
    case File(executable, contents) => Some(Regular(executable, contents))
    case Dir(entries) => Some(Directory(entries))
    case Link(target) => if target.None? then None else Some(Symlink(target.value))
  }

  predicate ValidName(name: string) {
    name != "" && name != "." && name != ".." && '/' !in name && '\0' !in name
  }

  /** A C string ends at its first NUL. */
  function UpToNul(s: string): string {
    if s == "" || s[0] == '\0' then "" else [s[0]] + UpToNul(s[1..])
  }

  function StartType(kind: Tag): Option<Fields> {
    match kind
    case RegularType => Some(File(false, ""))
    case DirectoryType => Some(Dir(map[]))
    case SymlinkType => Some(Link(None))
    case _ => None
  }

  function ParseNode(fmt: Format, s: string): (r: Parsed<Option<Node>>)
    requires Consumes(fmt)
    ensures r.Ok? ==> |r.rest| < |s|
    decreases |s|
  {
    var (tag, s1) :- fmt.readTag(s);
    if tag.Open? then ParseFields(fmt, s1, Unknown) else Bad
  }

  function ParseFields(fmt: Format, s: string, f: Fields): (r: Parsed<Option<Node>>)
    requires Consumes(fmt)
    ensures r.Ok? ==> |r.rest| < |s|
    decreases |s|
  {
    var (field, s1) :- fmt.readTag(s);
    if field.Close? then Ok(Created(f), s1)
    else
      var (f2, s2) :- ParseField(fmt, field, f, s1);
      ParseFields(fmt, s2, f2)
  }

  /** One field whose name has been read. */
  function ParseField(fmt: Format, field: Tag, f: Fields, s: string): (r: Parsed<Fields>)
    requires Consumes(fmt)
    ensures r.Ok? ==> |r.rest| < |s|
    decreases |s|, 0
  {
    match field
    case Type =>
      var (kind, s1) :- fmt.readTag(s);
      if f.Unknown? && StartType(kind).Some? then Ok(StartType(kind).value, s1) else Bad
    case Contents =>
      if !f.File? then Bad
      else
        var (contents, s1) :- fmt.readContents(s);
        Ok(f.(contents := f.contents + contents), s1)
    case Executable =>
      if !f.File? then Bad
      else
        var (_, s1) :- fmt.readString(s);
        Ok(f.(executable := true), s1)
    case Entry =>
      if !f.Dir? then Bad
      else
        var (tag, s1) :- fmt.readTag(s);
        if !tag.Open? then Bad
        else
          var (entries, s2) :- ParseEntry(fmt, s1, f.entries, "");
          Ok(Dir(entries), s2)
    case Target =>
      if !f.Link? then Bad
      else
        var (target, s1) :- fmt.readString(s);
        if f.target.Some? || UpToNul(target) == "" then Bad else Ok(Link(Some(UpToNul(target))), s1)
    case _ => Bad
  }

  /** One entry.  Only names within the entry have to ascend; creating what exists fails, and
      so does creating anything under no name. */
  function ParseEntry(fmt: Format, s: string, entries: map<string, Node>, name: string): (r: Parsed<map<string, Node>>)
    requires Consumes(fmt)
    ensures r.Ok? ==> |r.rest| < |s|
    decreases |s|
  {
    var (field, s1) :- fmt.readTag(s);
    match field
    case Close => Ok(entries, s1)
    case Name =>
      var (name2, s2) :- fmt.readString(s1);
      if ValidName(name2) && Lt(name, name2) then ParseEntry(fmt, s2, entries, name2) else Bad
    case Inner =>
      var (node, s2) :- ParseNode(fmt, s1);
      if node.None? then ParseEntry(fmt, s2, entries, name)
      else if name == "" || name in entries then Bad
      else ParseEntry(fmt, s2, entries[name := node.value], name)
    case _ => Bad
  }

  function ParseDump(s: string): Parsed<Option<Node>> {
    var (version, s1) :- ReadString(s);
    if version == ARCHIVE_VERSION then ParseNode(NAR, s1) else Bad
  }

  // Restoring what was dumped

  /** What is put is what is read, up to the sizes that fit. */
  ghost predicate ReadsBack(fmt: Format) {
    (forall tag, rest :: fmt.readTag(fmt.putTag(tag, rest)) == Ok(tag, rest))
    && (forall s, rest :: |s| < TWO_TO_32 ==> fmt.readString(fmt.putString(s, rest)) == Ok(s, rest))
    && (forall s, rest :: |s| < TWO_TO_64 ==> fmt.readContents(fmt.putContents(s, rest)) == Ok(s, rest))
  }

  /** A tree as a file system can hold it, with sizes the format can express. */
  ghost predicate Legal(t: Node) {
    match t
    case Regular(_, contents) => |contents| < TWO_TO_64
    case Directory(entries) => forall n :: n in entries ==> ValidName(n) && |n| < TWO_TO_32 && Legal(entries[n])
    case Symlink(target) => target != "" && '\0' !in target && |target| < TWO_TO_32
  }

  lemma {:induction false} NothingCut(s: string)
    requires '\0' !in s
    ensures UpToNul(s) == s
  {
    if s != "" { NothingCut(s[1..]); }
  }

  lemma TypeBack(fmt: Format, kind: Tag, rest: string)
    requires Consumes(fmt) && ReadsBack(fmt) && StartType(kind).Some?
    ensures ParseNode(fmt, fmt.putTag(Open, fmt.putTag(Type, fmt.putTag(kind, rest)))) == ParseFields(fmt, rest, StartType(kind).value)
  {
    var s1 := fmt.putTag(kind, rest);
    assert ParseField(fmt, Type, Unknown, s1) == Ok(StartType(kind).value, rest);
    assert ParseFields(fmt, fmt.putTag(Type, s1), Unknown) == ParseFields(fmt, rest, StartType(kind).value);
  }

  lemma RegularBack(fmt: Format, executable: bool, contents: string, rest: string)
    requires Consumes(fmt) && ReadsBack(fmt) && |contents| < TWO_TO_64
    ensures ParseFields(fmt, PutExecutable(fmt, executable, fmt.putTag(Contents, fmt.putContents(contents, fmt.putTag(Close, rest)))), File(false, ""))
         == Ok(Some(Regular(executable, contents)), rest)
  {
    var s := fmt.putTag(Contents, fmt.putContents(contents, fmt.putTag(Close, rest)));
    assert ParseFields(fmt, PutExecutable(fmt, executable, s), File(false, "")) == ParseFields(fmt, s, File(executable, ""));
    var close := fmt.putTag(Close, rest);
    assert "" + contents == contents;
    assert ParseField(fmt, Contents, File(executable, ""), fmt.putContents(contents, close)) == Ok(File(executable, contents), close);
    assert ParseFields(fmt, close, File(executable, contents)) == Ok(Some(Regular(executable, contents)), rest);
  }

  lemma SymlinkBack(fmt: Format, target: string, rest: string)
    requires Consumes(fmt) && ReadsBack(fmt) && target != "" && '\0' !in target && |target| < TWO_TO_32
    ensures ParseFields(fmt, fmt.putTag(Target, fmt.putString(target, fmt.putTag(Close, rest))), Link(None)) == Ok(Some(Symlink(target)), rest)
  {
    NothingCut(target);
    var close := fmt.putTag(Close, rest);
    assert ParseField(fmt, Target, Link(None), fmt.putString(target, close)) == Ok(Link(Some(target)), close);
    assert ParseFields(fmt, close, Link(Some(target))) == Ok(Some(Symlink(target)), rest);
  }

  /** An entry and what follows it. */
  lemma EntryBack(fmt: Format, entries: map<string, Node>, name: string, node: Node, text: string, rest: string)
    requires Consumes(fmt) && ReadsBack(fmt) && ValidName(name) && |name| < TWO_TO_32 && name !in entries
    requires ParseNode(fmt, text) == Ok(Some(node), fmt.putTag(Close, rest))
    ensures ParseFields(fmt, PutEntry(fmt, name, text), Dir(entries)) == ParseFields(fmt, rest, Dir(entries[name := node]))
  {
    var s2 := fmt.putTag(Inner, text);
    assert ParseEntry(fmt, s2, entries, name) == Ok(entries[name := node], rest) by {
      assert ParseEntry(fmt, fmt.putTag(Close, rest), entries[name := node], name) == Ok(entries[name := node], rest);
    }
    var s1 := fmt.putTag(Name, fmt.putString(name, s2));
    assert ParseEntry(fmt, s1, entries, "") == ParseEntry(fmt, s2, entries, name);
  }

  lemma {:induction false} NodeBack(fmt: Format, t: Node, rest: string)
    requires Consumes(fmt) && ReadsBack(fmt) && Legal(t)
    ensures ParseNode(fmt, PutNode(fmt, t, rest)) == Ok(Some(t), rest)
    decreases t
  {
    var close := fmt.putTag(Close, rest);
    match t {
      case Regular(executable, contents) =>
        TypeBack(fmt, RegularType, PutExecutable(fmt, executable, fmt.putTag(Contents, fmt.putContents(contents, close))));
        RegularBack(fmt, executable, contents, rest);
      case Directory(entries) =>
        DirectoryBack(fmt, t, rest);
      case Symlink(target) =>
        TypeBack(fmt, SymlinkType, fmt.putTag(Target, fmt.putString(target, close)));
        SymlinkBack(fmt, target, rest);
    }
  }

  lemma {:induction false} DirectoryBack(fmt: Format, t: Node, rest: string)
    requires Consumes(fmt) && ReadsBack(fmt) && Legal(t) && t.Directory?
    ensures ParseNode(fmt, PutNode(fmt, t, rest)) == Ok(Some(t), rest)
    decreases t, |t.entries| + 1
  {
    var names := Sorted(t.entries.Keys);
    TypeBack(fmt, DirectoryType, PutEntries(fmt, t, names, fmt.putTag(Close, rest)));
    SortedIsDistinct(t.entries.Keys);
    NoOthers(t.entries);
    EntriesBack(fmt, t, names, rest);
  }

  /** The entries that are there while those of `names` are still to come. */
  ghost function Others(entries: map<string, Node>, names: seq<string>): map<string, Node> {
    map n | n in entries && n !in names :: entries[n]
  }

  lemma NoOthers(entries: map<string, Node>)
    ensures Others(entries, Sorted(entries.Keys)) == map[]
  {
  }

  lemma OneMore(entries: map<string, Node>, names: seq<string>)
    requires names != [] && Distinct(names) && names[0] in entries
    ensures Others(entries, names)[names[0] := entries[names[0]]] == Others(entries, names[1..])
    ensures names[0] !in Others(entries, names) && Distinct(names[1..])
  {
    assert names == [names[0]] + names[1..] && names[0] !in names[1..];
  }

  lemma {:induction false} EntriesBack(fmt: Format, t: Node, names: seq<string>, rest: string)
    requires Consumes(fmt) && ReadsBack(fmt) && Legal(t) && t.Directory? && (forall n :: n in names ==> n in t.entries) && Distinct(names)
    ensures ParseFields(fmt, PutEntries(fmt, t, names, fmt.putTag(Close, rest)), Dir(Others(t.entries, names))) == Ok(Some(t), rest)
    decreases t, |names|
  {
    if names == [] {
      assert Others(t.entries, names) == t.entries;
    } else {
      var n, s := names[0], PutEntries(fmt, t, names[1..], fmt.putTag(Close, rest));
      NodeBack(fmt, t.entries[n], fmt.putTag(Close, s));
      OneMore(t.entries, names);
      EntryBack(fmt, Others(t.entries, names), n, t.entries[n], PutNode(fmt, t.entries[n], fmt.putTag(Close, s)), s);
      EntriesBack(fmt, t, names[1..], rest);
    }
  }

  // The format reads back what it writes

  lemma TagBack(tag: Tag, rest: string)
    ensures ReadTag(PutTag(tag, rest)) == Ok(tag, rest)
  {
    StringBack(Word(tag), rest);
    WordBack(tag);
  }

  lemma WordBack(tag: Tag)
    ensures TagOf(Word(tag)) == tag
  {
  }

  lemma NarConsumes()
    ensures Consumes(NAR)
  {
  }

  lemma NarReadsBack()
    ensures ReadsBack(NAR)
  {
    forall tag, rest ensures ReadTag(PutTag(tag, rest)) == Ok(tag, rest) { TagBack(tag, rest); }
    forall s, rest | |s| < TWO_TO_32 ensures ReadString(PutString(s, rest)) == Ok(s, rest) { StringBack(s, rest); }
    forall s, rest | |s| < TWO_TO_64 ensures ReadContents(PutContents(s, rest)) == Ok(s, rest) { NarContentsBack(s, rest); }
  }

  lemma NarContentsBack(s: string, rest: string)
    requires |s| < TWO_TO_64
    ensures ReadContents(PutContents(s, rest)) == Ok(s, rest)
  {
    LongLongBack(|s|, s + (Padding(|s|) + rest));
    BytesBack(s, rest);
  }

  // Nothing is said about what follows

  /** Every piece of the format puts its text in front of the rest. */
  ghost predicate Prepends(fmt: Format) {
    (forall tag, a, b :: fmt.putTag(tag, a + b) == fmt.putTag(tag, a) + b)
    && (forall s, a, b :: fmt.putString(s, a + b) == fmt.putString(s, a) + b)
    && (forall s, a, b :: fmt.putContents(s, a + b) == fmt.putContents(s, a) + b)
  }

  lemma NarPrepends()
    ensures Prepends(NAR)
  {
    forall s, a, b ensures PutString(s, a + b) == PutString(s, a) + b { assert WrittenString(s) + (a + b) == (WrittenString(s) + a) + b; }
    forall s, a, b ensures PutContents(s, a + b) == PutContents(s, a) + b {
      var p := Padding(|s|);
      assert p + (a + b) == (p + a) + b;
      assert s + ((p + a) + b) == (s + (p + a)) + b;
      assert WrittenLongLong(|s|) + ((s + (p + a)) + b) == (WrittenLongLong(|s|) + (s + (p + a))) + b;
    }
  }

  lemma {:induction false} NodePrepends(fmt: Format, t: Node, a: string, b: string)
    requires Prepends(fmt)
    ensures PutNode(fmt, t, a + b) == PutNode(fmt, t, a) + b
    decreases t
  {
    var close := fmt.putTag(Close, a);
    assert PutType(fmt, t, close + b) == PutType(fmt, t, close) + b by {
      if t.Directory? { EntriesPrepend(fmt, t, Sorted(t.entries.Keys), close, b); }
    }
  }

  lemma {:induction false} EntriesPrepend(fmt: Format, t: Node, names: seq<string>, a: string, b: string)
    requires Prepends(fmt) && t.Directory? && forall n :: n in names ==> n in t.entries
    ensures PutEntries(fmt, t, names, a + b) == PutEntries(fmt, t, names, a) + b
    decreases t, |names|
  {
    if names != [] {
      EntriesPrepend(fmt, t, names[1..], a, b);
      NodePrepends(fmt, t.entries[names[0]], fmt.putTag(Close, PutEntries(fmt, t, names[1..], a)), b);
    }
  }

  lemma DumpThenRest(t: Node, rest: string)
    ensures Dump(t) + rest == PutString(ARCHIVE_VERSION, PutNode(NAR, t, rest))
  {
    NarPrepends();
    NodePrepends(NAR, t, "", rest);
    assert "" + rest == rest;
    PrependString(ARCHIVE_VERSION, PutNode(NAR, t, ""), rest);
  }

  lemma PrependString(s: string, a: string, b: string)
    ensures PutString(s, a) + b == PutString(s, a + b)
  {
    assert (WrittenString(s) + a) + b == WrittenString(s) + (a + b);
  }

  lemma VersionBack(text: string)
    ensures ParseDump(PutString(ARCHIVE_VERSION, text)) == ParseNode(NAR, text)
  {
    StringBack(ARCHIVE_VERSION, text);
  }

  /** Every tree is restored from its dump, and what follows is left alone. */
  lemma RoundTrip(t: Node, rest: string)
    requires Legal(t)
    ensures ParseDump(Dump(t) + rest) == Ok(Some(t), rest)
  {
    DumpThenRest(t, rest);
    VersionBack(PutNode(NAR, t, rest));
    NarConsumes();
    NarReadsBack();
    NodeBack(NAR, t, rest);
  }

  /** Different trees have different dumps, and no dump is the beginning of another. */
  lemma DumpIsPrefixFree(t: Node, u: Node)
    requires Legal(t) && Legal(u)
    ensures Dump(t) <= Dump(u) ==> t == u
  {
    if Dump(t) <= Dump(u) { DumpDecides(t, u, Dump(u)[|Dump(t)|..]); }
  }

  lemma DumpDecides(t: Node, u: Node, rest: string)
    requires Legal(t) && Legal(u) && Dump(t) + rest == Dump(u) + ""
    ensures t == u
  {
    RoundTrip(t, rest);
    RoundTrip(u, "");
  }
}
