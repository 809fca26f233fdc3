/** The reference scanner (nix/libstore/references.cc): which of the wanted hash parts
    occur in a byte stream that arrives in fragments. */
module References {
  import opened Wrappers
  import Base32

  type Path = string

  const REF_LENGTH := 32

  predicate AllBase32(h: string) {
    forall i :: 0 <= i < |h| ==> h[i] in Base32.BASE32_CHARS
  }

  /** `h` is the window of `s` that starts at `p`. */
  predicate At(h: string, s: string, p: int) {
    0 <= p <= |s| - REF_LENGTH && s[p..p + REF_LENGTH] == h
  }

  /** What the scanner can find: a word of 32 base-32 characters that occurs in the text. */
  ghost predicate Found(h: string, s: string) {
    AllBase32(h) && exists p :: At(h, s, p)
  }

  ghost predicate FoundBefore(h: string, s: string, i: int) {
    AllBase32(h) && exists p :: p < i && At(h, s, p)
  }

  /** No window that holds a character outside base 32 matters. */
  lemma SkipIsSafe(h: string, s: string, i: int, j: int)
    requires 0 <= i && 0 <= j < REF_LENGTH && i + REF_LENGTH <= |s| && s[i + j] !in Base32.BASE32_CHARS
    ensures FoundBefore(h, s, i + j + 1) <==> FoundBefore(h, s, i)
  {
    forall p | i <= p <= i + j && At(h, s, p) ensures !AllBase32(h) {
      assert h[i + j - p] == s[i + j];
    }
  }

  lemma NextWindow(h: string, s: string, i: int)
    requires 0 <= i && i + REF_LENGTH <= |s| && AllBase32(s[i..i + REF_LENGTH])
    ensures FoundBefore(h, s, i + 1) <==> FoundBefore(h, s, i) || h == s[i..i + REF_LENGTH]
  {
    if h == s[i..i + REF_LENGTH] { assert At(h, s, i); }
  }

  ghost function FoundSet(hashes: set<string>, s: string): set<string> {
    set h | h in hashes && Found(h, s)
  }

  ghost function FoundSetBefore(hashes: set<string>, s: string, i: int): set<string> {
    set h | h in hashes && FoundBefore(h, s, i)
  }

  /** How many places to skip: one more than the place, within the window at `i`, of the last
      character outside base 32; none if there is no such character. */
  method Skip(s: string, i: nat) returns (skip: nat)
    requires i + REF_LENGTH <= |s|
    ensures skip == 0 ==> AllBase32(s[i..i + REF_LENGTH])
    ensures skip > 0 ==> skip <= REF_LENGTH && s[i + skip - 1] !in Base32.BASE32_CHARS
  {
    var j := REF_LENGTH - 1;
    while j >= 0
      invariant -1 <= j < REF_LENGTH
      invariant forall k :: i + j < k < i + REF_LENGTH ==> s[k] in Base32.BASE32_CHARS
    {
      if s[i + j] !in Base32.BASE32_CHARS { return j + 1; }
      j := j - 1;
    }
    return 0;
  }

  /** Moves the wanted words that occur in `s` from `hashes` to `seen`. */
  method Search(s: string, hashes: set<string>, seen: set<string>) returns (hashes': set<string>, seen': set<string>)
    ensures seen' == seen + FoundSet(hashes, s)
    ensures hashes' == hashes - FoundSet(hashes, s)
  {
    hashes', seen' := hashes, seen;
    var i := 0;
    while i + REF_LENGTH <= |s|
      invariant 0 <= i
      invariant seen' == seen + FoundSetBefore(hashes, s, i)
      invariant hashes' == hashes - FoundSetBefore(hashes, s, i)
    {
      var skip := Skip(s, i);
      if skip > 0 {
        NothingSkipped(hashes, s, i, skip - 1);
        i := i + skip;
      } else {
        var ref := s[i..i + REF_LENGTH];
        OneWindow(hashes, s, i);
        if ref in hashes' {
          seen' := seen' + {ref};
          hashes' := hashes' - {ref};
        }
        i := i + 1;
      }
    }
    assert FoundSetBefore(hashes, s, i) == FoundSet(hashes, s);
  }

  lemma NothingSkipped(hashes: set<string>, s: string, i: int, j: int)
    requires 0 <= i && 0 <= j < REF_LENGTH && i + REF_LENGTH <= |s| && s[i + j] !in Base32.BASE32_CHARS
    ensures FoundSetBefore(hashes, s, i + j + 1) == FoundSetBefore(hashes, s, i)
  {
    forall h | h in hashes ensures FoundBefore(h, s, i + j + 1) <==> FoundBefore(h, s, i) { SkipIsSafe(h, s, i, j); }
  }

  lemma OneWindow(hashes: set<string>, s: string, i: int)
    requires 0 <= i && i + REF_LENGTH <= |s| && AllBase32(s[i..i + REF_LENGTH])
    ensures FoundSetBefore(hashes, s, i + 1) == FoundSetBefore(hashes, s, i) + (hashes * {s[i..i + REF_LENGTH]})
  {
    forall h | h in hashes ensures FoundBefore(h, s, i + 1) <==> FoundBefore(h, s, i) || h == s[i..i + REF_LENGTH] { NextWindow(h, s, i); }
  }

  function Min(a: int, b: int): int {
    if a <= b then a else b
  }

  function Suffix(s: string, n: int): string
    requires 0 <= n <= |s|
  {
    s[|s| - n..]
  }

  lemma FoundInPart(h: string, a: string, s: string, b: string)
    requires Found(h, s)
    ensures Found(h, a + s + b)
  {
    var p :| At(h, s, p);
    assert At(h, a + s + b, |a| + p);
  }

  /** The last characters of the stream and the first ones of the next fragment, 32 of each. */
  function Seam(stream: string, data: string): string {
    Suffix(stream, Min(REF_LENGTH, |stream|)) + data[..Min(REF_LENGTH, |data|)]
  }

  lemma SeamInStream(stream: string, data: string)
    ensures var n, m := |stream| - Min(REF_LENGTH, |stream|), Min(REF_LENGTH, |data|);
      stream[..n] + Seam(stream, data) + data[m..] == stream + data
  {
  }

  lemma AtAcross(h: string, stream: string, data: string, p: int)
    requires At(h, stream + data, p) && |stream| - REF_LENGTH < p < |stream|
    ensures At(h, Seam(stream, data), p - (|stream| - Min(REF_LENGTH, |stream|)))
  {
    var n := |stream| - Min(REF_LENGTH, |stream|);
    SeamInStream(stream, data);
    var seam := Seam(stream, data);
    assert |seam| >= p - n + REF_LENGTH;
    assert seam == (stream + data)[n..n + |seam|];
  }

  lemma PartsInWhole(h: string, stream: string, data: string)
    requires Found(h, stream) || Found(h, Seam(stream, data)) || Found(h, data)
    ensures Found(h, stream + data)
  {
    if Found(h, stream) {
      FoundInPart(h, "", stream, data);
      assert "" + stream + data == stream + data;
    } else if Found(h, data) {
      FoundInPart(h, stream, data, "");
      assert stream + data + "" == stream + data;
    } else {
      SeamInStream(stream, data);
      FoundInPart(h, stream[..|stream| - Min(REF_LENGTH, |stream|)], Seam(stream, data), data[Min(REF_LENGTH, |data|)..]);
    }
  }

  lemma AtInside(h: string, stream: string, data: string, p: int)
    requires At(h, stream + data, p)
    ensures p + REF_LENGTH <= |stream| ==> At(h, stream, p)
    ensures p >= |stream| ==> At(h, data, p - |stream|)
  {
    if p + REF_LENGTH <= |stream| {
      assert (stream + data)[p..p + REF_LENGTH] == stream[p..p + REF_LENGTH];
    } else if p >= |stream| {
      assert (stream + data)[p..p + REF_LENGTH] == data[p - |stream|..p - |stream| + REF_LENGTH];
    }
  }

  /** Whatever occurs in the stream so far and the new fragment together occurs in the
      stream so far, in the fragment, or in their seam. */
  lemma FoundAcross(h: string, stream: string, data: string)
    ensures Found(h, stream + data) <==> Found(h, stream) || Found(h, Seam(stream, data)) || Found(h, data)
  {
    if Found(h, stream + data) {
      var p :| At(h, stream + data, p);
      if |stream| - REF_LENGTH < p < |stream| {
        AtAcross(h, stream, data, p);
      } else {
        AtInside(h, stream, data, p);
      }
    } else if Found(h, stream) || Found(h, Seam(stream, data)) || Found(h, data) {
      PartsInWhole(h, stream, data);
    }
  }

  /** The sink the archive of a path is dumped into.  `stream` is everything written. */
  class RefScanSink {
    var hashes: set<string>
    var seen: set<string>
    var tail: string
    ghost const wanted: set<string>
    ghost var stream: string

    constructor (wanted: set<string>)
      ensures Valid() && this.wanted == wanted && stream == ""
    {
      this.wanted := wanted;
      hashes, seen, tail, stream := wanted, {}, "", "";
    }

    /** `seen` is exactly what of the wanted words occurs in the whole stream, `hashes` the
        rest, and `tail` the end of the stream. */
    ghost predicate Valid()
      reads this
    {
      seen == FoundSet(wanted, stream) && hashes == wanted - seen
      && tail == Suffix(stream, Min(REF_LENGTH, |stream|))
    }

    method Write(data: string)
      requires Valid()
      modifies this
      ensures Valid() && stream == old(stream) + data
    {
      var s := tail + data[..if |data| > REF_LENGTH then REF_LENGTH else |data|];
      hashes, seen := Search(s, hashes, seen);
      hashes, seen := Search(data, hashes, seen);
      var tailLen := if |data| <= REF_LENGTH then |data| else REF_LENGTH;
      tail := tail[if |tail| < REF_LENGTH - tailLen then 0 else |tail| - (REF_LENGTH - tailLen)..] + data[|data| - tailLen..];
      forall h { FoundAcross(h, stream, data); }
      stream := stream + data;
    }
  }

  function Concat(fragments: seq<string>): string {
    if fragments == [] then "" else Concat(fragments[..|fragments| - 1]) + fragments[|fragments| - 1]
  }

  /** Where and whether the text is cut makes no difference. */
  method Scan(fragments: seq<string>, wanted: set<string>) returns (seen: set<string>)
    ensures seen == FoundSet(wanted, Concat(fragments))
  {
    var sink := new RefScanSink(wanted);
    for n := 0 to |fragments|
      invariant sink.Valid() && sink.wanted == wanted && sink.stream == Concat(fragments[..n])
    {
      sink.Write(fragments[n]);
      assert fragments[..n + 1][..n] == fragments[..n];
    }
    assert fragments[..|fragments|] == fragments;
    seen := sink.seen;
  }

  /** What follows the last slash, if there is a slash. */
  function BaseNameOf(path: Path): Option<string> {
    if path == "" then None
    else if path[|path| - 1] == '/' then Some("")
    else
      var b := BaseNameOf(path[..|path| - 1]);
      if b.None? then None else Some(b.value + [path[|path| - 1]])
  }

  /** What precedes the first dash, if there is a dash. */
  function BeforeDash(s: string): Option<string> {
    if s == "" then None
    else if s[0] == '-' then Some("")
    else
      var b := BeforeDash(s[1..]);
      if b.None? then None else Some([s[0]] + b.value)
  }

  function HashPart(ref: Path): Option<string> {
    var b := BaseNameOf(ref);
    if b.None? then None else BeforeDash(b.value)
  }

  /** A bad reference is an error; a hash part of the wrong length, or one that two
      references share, fails an assertion. */
  datatype ScanResult = BadReference | AssertionFailed | Scanned(found: set<Path>)

  predicate GoodReference(ref: Path) {
    HashPart(ref).Some? && |HashPart(ref).value| == REF_LENGTH
  }

  ghost predicate GoodReferences(refs: set<Path>) {
    (forall r :: r in refs ==> GoodReference(r))
    && forall q, r :: q in refs && r in refs && HashPart(q) == HashPart(r) ==> q == r
  }

  /** Which of the store paths `refs` a path refers to, by its archive: those whose hash
      part is a word of base-32 characters that occurs in it. */
  method ScanForReferences(fragments: seq<string>, refs: set<Path>) returns (r: ScanResult)
    ensures r.Scanned? <==> GoodReferences(refs)
    ensures r.Scanned? ==> forall q :: q in r.found <==> q in refs && Found(HashPart(q).value, Concat(fragments))
    ensures r.BadReference? ==> exists q :: q in refs && HashPart(q).None?
  {
    var backMap: map<string, Path> := map[];
    var todo := refs;
    while todo != {}
      invariant todo <= refs && backMap.Values == refs - todo && GoodReferences(refs - todo)
      invariant forall h :: h in backMap ==> HashPart(backMap[h]) == Some(h)
      decreases todo
    {
      var i :| i in todo;
      var h := HashPart(i);
      if h.None? { return BadReference; }
      if |h.value| != REF_LENGTH { return AssertionFailed; }
      if h.value in backMap {
        assert backMap[h.value] in refs - todo;
        return AssertionFailed;
      }
      assert refs - (todo - {i}) == (refs - todo) + {i};
      forall q | q in refs - todo ensures HashPart(q) != h {
        assert q in backMap.Values;
      }
      BackMapGrows(backMap, h.value, i);
      todo := todo - {i};
      backMap := backMap[h.value := i];
    }
    assert refs - todo == refs;
    var seen := Scan(fragments, backMap.Keys);
    var found := set h | h in seen :: backMap[h];
    forall q | q in refs && Found(HashPart(q).value, Concat(fragments)) ensures q in found {
      assert q in backMap.Values;
      assert HashPart(q).value in seen;
    }
    r := Scanned(found);
  }

  lemma BackMapGrows(m: map<string, Path>, h: string, q: Path)
    requires h !in m
    ensures m[h := q].Values == m.Values + {q}
  {
    var n := m[h := q];
    forall v | v in m.Values + {q} ensures v in n.Values {
      if v in m.Values {
        var k :| k in m && m[k] == v;
        assert n[k] == v;
      } else {
        assert n[h] == v;
      }
    }
  }
}
