/** The hash of a derivation modulo fixed-output derivations, and the cache that speeds it
    up (nix/libstore/derivations.cc, nix/libstore/local-store.cc).  The hash function and its
    printed form are one parameter, `hash`. */
module HashModulo {
  import opened Graphs
  import opened Wrappers
  import opened Derivations
  import ByteStrings
  import DerivationText

  type Hash = string

  /** The valid derivations and what their files say. */
  type Drvs = map<Path, Derivation>

  /** One output, called "out", whose hash is given in advance. */
  predicate IsFixedOutput(d: Derivation) {
    d.outputs.Keys == {"out"} && d.outputs["out"].hash != ""
  }

  function FixedText(d: Derivation): string
    requires IsFixedOutput(d)
  {
    var o := d.outputs["out"];
    "fixed:out:" + o.hashAlgo + ":" + o.hash + ":" + o.path
  }

  ghost function InputGraph(drvs: Drvs): Graph<Path> {
    map p | p in drvs :: drvs[p].inputDrvs.Keys
  }

  /** No derivation is its own input, directly or not. */
  ghost predicate Grounded(drvs: Drvs) {
    Acyclic(InputGraph(drvs)) && forall p :: p in drvs ==> p !in drvs[p].inputDrvs
  }

  ghost function Depth(drvs: Drvs, p: Path): nat {
    Height(InputGraph(drvs), p)
  }

  lemma InputIsDeeper(drvs: Drvs, p: Path, q: Path)
    requires Grounded(drvs) && p in drvs && q in drvs[p].inputDrvs
    ensures Depth(drvs, q) < Depth(drvs, p)
  {
    assert Edge(InputGraph(drvs), p, q);
    HeightFalls(InputGraph(drvs), p, q);
  }

  /** The inputs under the hashes that replace their paths; a later one of equal hash wins. */
  ghost function Replaced(inputs: map<Path, set<string>>, hashes: map<Path, Option<Hash>>): map<Hash, set<string>>
    requires Complete(inputs, hashes)
  {
    FromEntries(ReplacedEntries(inputs, Entries(inputs), hashes))
  }

  ghost function ReplacedEntries(inputs: map<Path, set<string>>, l: seq<(Path, set<string>)>, hashes: map<Path, Option<Hash>>):
    (r: seq<(Hash, set<string>)>)
    requires Complete(inputs, hashes)
    requires forall x :: x in l ==> x.0 in inputs
    ensures |r| == |l| && forall i :: 0 <= i < |l| ==> r[i] == (hashes[l[i].0].value, l[i].1)
  {
    seq(|l|, i requires 0 <= i < |l| =>
      assert l[i] in l;
      (hashes[l[i].0].value, l[i].1))
  }

  /** Every input has a hash. */
  ghost predicate Complete(inputs: map<Path, set<string>>, hashes: map<Path, Option<Hash>>) {
    forall i :: i in inputs ==> i in hashes && hashes[i].Some?
  }

  /** How the hash of a derivation comes from those of its inputs; None if one of them has none. */
  type Combine = (Derivation, map<Path, Option<Hash>>) -> Option<Hash>

  ghost function HashWith(hash: string -> Hash): Combine {
    (d, hashes) => HashedDerivation(hash, d, hashes)
  }

  ghost function HashedDerivation(hash: string -> Hash, d: Derivation, hashes: map<Path, Option<Hash>>): Option<Hash> {
    if IsFixedOutput(d) then Some(hash(FixedText(d)))
    else if !Complete(d.inputDrvs, hashes) then None
    else Some(hash(Unparse(d.(inputDrvs := Replaced(d.inputDrvs, hashes)))))
  }

  /** The hash of a valid derivation without any cache; None if an input it needs is missing. */
  ghost function HashOf(combine: Combine, drvs: Drvs, p: Path): Option<Hash>
    requires Grounded(drvs)
    decreases Depth(drvs, p)
  {
    if p !in drvs then None
    else combine(drvs[p], map q | q in drvs[p].inputDrvs :: InputIsDeeper(drvs, p, q); HashOf(combine, drvs, q))
  }

  ghost function InputHashes(combine: Combine, drvs: Drvs, d: Derivation): (r: map<Path, Option<Hash>>)
    requires Grounded(drvs)
    ensures r.Keys == d.inputDrvs.Keys
  {
    map q | q in d.inputDrvs :: HashOf(combine, drvs, q)
  }

  ghost function HashModulo(combine: Combine, drvs: Drvs, d: Derivation): Option<Hash>
    requires Grounded(drvs)
  {
    combine(d, InputHashes(combine, drvs, d))
  }

  lemma HashOfIs(combine: Combine, drvs: Drvs, p: Path)
    requires Grounded(drvs) && p in drvs
    ensures HashOf(combine, drvs, p) == HashModulo(combine, drvs, drvs[p])
  {
    assert InputHashes(combine, drvs, drvs[p]) == map q | q in drvs[p].inputDrvs :: HashOf(combine, drvs, q);
  }

  /** Inputs of valid derivations are valid. */
  ghost predicate InputsClosed(drvs: Drvs) {
    forall p, q :: p in drvs && q in drvs[p].inputDrvs ==> q in drvs
  }

  ghost predicate SubDrvs(small: Drvs, big: Drvs) {
    forall p :: p in small ==> p in big && small[p] == big[p]
  }

  lemma {:induction false} HashOfSub(combine: Combine, small: Drvs, big: Drvs, p: Path)
    requires Grounded(small) && Grounded(big) && SubDrvs(small, big) && InputsClosed(small) && p in small
    ensures HashOf(combine, small, p) == HashOf(combine, big, p)
    decreases Depth(small, p)
  {
    forall q | q in small[p].inputDrvs ensures HashOf(combine, small, q) == HashOf(combine, big, q) {
      InputIsDeeper(small, p, q);
      HashOfSub(combine, small, big, q);
    }
    HashOfIs(combine, small, p);
    HashOfIs(combine, big, p);
    assert InputHashes(combine, small, small[p]) == InputHashes(combine, big, big[p]);
  }

  // Fixed-output derivations do not matter

  /** Both fixed, with the same algorithm, hash and path. */
  predicate SameFixed(d: Derivation, e: Derivation) {
    IsFixedOutput(d) && IsFixedOutput(e) && d.outputs["out"] == e.outputs["out"]
  }

  /** Every input of `d` lies less deep than `n`. */
  ghost predicate Bounds(drvs: Drvs, d: Derivation, n: nat) {
    forall i :: i in d.inputDrvs ==> Depth(drvs, i) < n
  }

  /** Pairs of derivation paths. */
  type Pairing = set<(Path, Path)>

  /** Each input has one on the other side that asks for the same outputs and is paired with
      it: `to` and `from` name it. */
  ghost predicate Correspond(d: Derivation, e: Derivation, pairs: Pairing, to: map<Path, Path>, from: map<Path, Path>) {
    to.Keys == d.inputDrvs.Keys && from.Keys == e.inputDrvs.Keys
    && (forall i {:trigger to[i]} :: i in to ==> PairedInput(d, e, pairs, i, to[i]))
    && (forall j {:trigger from[j]} :: j in from ==> PairedInput(d, e, pairs, from[j], j))
  }

  ghost predicate PairedInput(d: Derivation, e: Derivation, pairs: Pairing, i: Path, j: Path) {
    (i, j) in pairs && i in d.inputDrvs && j in e.inputDrvs && d.inputDrvs[i] == e.inputDrvs[j]
  }

  /** Two derivations that promise the same content, or are the same but for the paths of
      inputs that are paired. */
  ghost predicate Alike(d: Derivation, e: Derivation, pairs: Pairing) {
    SameFixed(d, e)
    || (!IsFixedOutput(d) && !IsFixedOutput(e) && d.(inputDrvs := map[]) == e.(inputDrvs := map[])
        && exists to, from :: Correspond(d, e, pairs, to, from))
  }

  /** Paired derivations of the two stores are alike, and so are their inputs in turn: they
      differ only in fixed-output derivations somewhere below them and in the paths these
      cause to change. */
  ghost predicate PairsAlike(a: Drvs, b: Drvs, pairs: Pairing) {
    forall x {:trigger PairAlike(a, b, pairs, x)} :: x in pairs ==> PairAlike(a, b, pairs, x)
  }

  ghost predicate PairAlike(a: Drvs, b: Drvs, pairs: Pairing, x: (Path, Path)) {
    x.0 in a && x.1 in b && Alike(a[x.0], b[x.1], pairs)
  }

  lemma InputsBounded(drvs: Drvs, p: Path)
    requires Grounded(drvs) && p in drvs
    ensures Bounds(drvs, drvs[p], Depth(drvs, p))
  {
    forall q | q in drvs[p].inputDrvs ensures Depth(drvs, q) < Depth(drvs, p) { InputIsDeeper(drvs, p, q); }
  }

  /** Inputs that hash alike ask for the same outputs. */
  ghost predicate NamesAgree(inputs: map<Path, set<string>>, hashes: map<Path, Option<Hash>>)
    requires inputs.Keys <= hashes.Keys
  {
    forall i, j :: i in inputs && j in inputs && hashes[i] == hashes[j] ==> inputs[i] == inputs[j]
  }

  ghost predicate AllNamesAgree(combine: Combine, drvs: Drvs)
    requires Grounded(drvs)
  {
    forall p {:trigger NamesAgreeAt(combine, drvs, p)} :: p in drvs ==> NamesAgreeAt(combine, drvs, p)
  }

  ghost predicate NamesAgreeAt(combine: Combine, drvs: Drvs, p: Path)
    requires Grounded(drvs) && p in drvs
  {
    NamesAgree(drvs[p].inputDrvs, InputHashes(combine, drvs, drvs[p]))
  }

  lemma {:induction false} FromEntriesKeys<V>(l: seq<(string, V)>)
    ensures forall k :: k in FromEntries(l) <==> exists x :: x in l && x.0 == k
  {
    if l != [] {
      var n := |l| - 1;
      FromEntriesKeys(l[..n]);
      assert l == l[..n] + [l[n]];
    }
  }

  /** The map holds the pairs of hash and names of the inputs, and no others. */
  ghost predicate HoldsPairs(r: map<Hash, set<string>>, inputs: map<Path, set<string>>, hashes: map<Path, Option<Hash>>) {
    (forall k :: k in r ==> exists i :: i in inputs && i in hashes && hashes[i] == Some(k) && r[k] == inputs[i])
    && (forall i :: i in inputs && i in hashes && hashes[i].Some? ==> hashes[i].value in r && r[hashes[i].value] == inputs[i])
  }

  /** When names agree, the replaced inputs hold exactly the pairs of hash and names. */
  lemma ReplacedIs(inputs: map<Path, set<string>>, hashes: map<Path, Option<Hash>>)
    requires Complete(inputs, hashes)
    requires NamesAgree(inputs, hashes)
    ensures HoldsPairs(Replaced(inputs, hashes), inputs, hashes)
  {
    var l := Entries(inputs);
    var r := ReplacedEntries(inputs, l, hashes);
    FromEntriesKeys(r);
    FromEntriesGood(r);
    forall x | x in r ensures exists i :: i in inputs && x == (hashes[i].value, inputs[i]) {
      var n :| 0 <= n < |r| && r[n] == x;
      EntriesGood(inputs);
      assert l[n] in l;
    }
    forall i | i in inputs ensures hashes[i].value in FromEntries(r) && FromEntries(r)[hashes[i].value] == inputs[i] {
      EntryOf(inputs, i);
      var n :| 0 <= n < |l| && l[n] == (i, inputs[i]);
      assert r[n] in r && r[n].0 == hashes[i].value;
    }
  }

  lemma EntryOf<V>(m: map<string, V>, k: string)
    requires k in m
    ensures exists n :: 0 <= n < |Entries(m)| && Entries(m)[n] == (k, m[k])
  {
    var keys := ByteStrings.Sorted(m.Keys);
    var n :| 0 <= n < |keys| && keys[n] == k;
    assert Entries(m)[n] == (k, m[k]);
  }

  /** Inputs `i` and `j` have the same hash and ask for the same outputs. */
  ghost predicate Match(inputs: map<Path, set<string>>, hashes: map<Path, Option<Hash>>,
                        inputs2: map<Path, set<string>>, hashes2: map<Path, Option<Hash>>, i: Path, j: Path)
  {
    i in inputs && i in hashes && j in inputs2 && j in hashes2 && inputs[i] == inputs2[j] && hashes[i] == hashes2[j]
  }

  /** Each input on either side has a match on the other. */
  ghost predicate AllMatch(inputs: map<Path, set<string>>, hashes: map<Path, Option<Hash>>,
                           inputs2: map<Path, set<string>>, hashes2: map<Path, Option<Hash>>, to: map<Path, Path>, from: map<Path, Path>)
  {
    to.Keys == inputs.Keys && from.Keys == inputs2.Keys
    && (forall i {:trigger to[i]} :: i in to ==> Match(inputs, hashes, inputs2, hashes2, i, to[i]))
    && (forall j {:trigger from[j]} :: j in from ==> Match(inputs, hashes, inputs2, hashes2, from[j], j))
  }

  /** Equal pairs of hash and names make equal replaced inputs. */
  lemma EqualPairs(r: map<Hash, set<string>>, inputs: map<Path, set<string>>, hashes: map<Path, Option<Hash>>,
                   r2: map<Hash, set<string>>, inputs2: map<Path, set<string>>, hashes2: map<Path, Option<Hash>>,
                   to: map<Path, Path>, from: map<Path, Path>)
    requires HoldsPairs(r, inputs, hashes) && HoldsPairs(r2, inputs2, hashes2)
    requires AllMatch(inputs, hashes, inputs2, hashes2, to, from)
    ensures r == r2
  {
    forall k | k in r ensures k in r2 && r[k] == r2[k] {
      var i :| i in inputs && i in hashes && hashes[i] == Some(k) && r[k] == inputs[i];
      assert Match(inputs, hashes, inputs2, hashes2, i, to[i]);
    }
    forall k | k in r2 ensures k in r {
      var j :| j in inputs2 && j in hashes2 && hashes2[j] == Some(k) && r2[k] == inputs2[j];
      assert Match(inputs, hashes, inputs2, hashes2, from[j], j);
    }
  }

  lemma CompleteAlike(inputs: map<Path, set<string>>, hashes: map<Path, Option<Hash>>,
                      inputs2: map<Path, set<string>>, hashes2: map<Path, Option<Hash>>, to: map<Path, Path>, from: map<Path, Path>)
    requires inputs.Keys == hashes.Keys && inputs2.Keys == hashes2.Keys && AllMatch(inputs, hashes, inputs2, hashes2, to, from)
    ensures Complete(inputs, hashes) <==> Complete(inputs2, hashes2)
  {
    if Complete(inputs, hashes) {
      forall j | j in inputs2 ensures hashes2[j].Some? { assert hashes[from[j]].Some?; }
    }
    if Complete(inputs2, hashes2) {
      forall i | i in inputs ensures hashes[i].Some? { assert hashes2[to[i]].Some?; }
    }
  }

  lemma ReplacedEqual(inputs: map<Path, set<string>>, hashes: map<Path, Option<Hash>>,
                      inputs2: map<Path, set<string>>, hashes2: map<Path, Option<Hash>>, to: map<Path, Path>, from: map<Path, Path>)
    requires Complete(inputs, hashes) && Complete(inputs2, hashes2)
    requires NamesAgree(inputs, hashes) && NamesAgree(inputs2, hashes2)
    requires AllMatch(inputs, hashes, inputs2, hashes2, to, from)
    ensures Replaced(inputs, hashes) == Replaced(inputs2, hashes2)
  {
    ReplacedIs(inputs, hashes);
    ReplacedIs(inputs2, hashes2);
    EqualPairs(Replaced(inputs, hashes), inputs, hashes, Replaced(inputs2, hashes2), inputs2, hashes2, to, from);
  }

  /** The same but for the paths of inputs that match. */
  ghost predicate SameButPaths(d: Derivation, hashes: map<Path, Option<Hash>>, e: Derivation, hashes2: map<Path, Option<Hash>>,
                               to: map<Path, Path>, from: map<Path, Path>)
  {
    d.inputDrvs.Keys == hashes.Keys && e.inputDrvs.Keys == hashes2.Keys
    && !IsFixedOutput(d) && !IsFixedOutput(e) && d.(inputDrvs := map[]) == e.(inputDrvs := map[])
    && NamesAgree(d.inputDrvs, hashes) && NamesAgree(e.inputDrvs, hashes2)
    && AllMatch(d.inputDrvs, hashes, e.inputDrvs, hashes2, to, from)
  }

  lemma SameHash(hash: string -> Hash, d: Derivation, hashes: map<Path, Option<Hash>>, e: Derivation, hashes2: map<Path, Option<Hash>>,
                 to: map<Path, Path>, from: map<Path, Path>)
    requires SameButPaths(d, hashes, e, hashes2, to, from)
    ensures HashedDerivation(hash, d, hashes) == HashedDerivation(hash, e, hashes2)
  {
    CompleteAlike(d.inputDrvs, hashes, e.inputDrvs, hashes2, to, from);
    if Complete(d.inputDrvs, hashes) {
      ReplacedEqual(d.inputDrvs, hashes, e.inputDrvs, hashes2, to, from);
      SameButInputs(d, e, Replaced(d.inputDrvs, hashes));
    }
  }

  lemma SameButInputs(d: Derivation, e: Derivation, r: map<Path, set<string>>)
    requires d.(inputDrvs := map[]) == e.(inputDrvs := map[])
    ensures d.(inputDrvs := r) == e.(inputDrvs := r)
  {
    assert d.(inputDrvs := r) == d.(inputDrvs := map[]).(inputDrvs := r);
  }

  /** A fixed-output derivation counts for what it promises, an input for its hash. */
  ghost predicate SeesPromises(combine: Combine) {
    (forall d, hashes, e, hashes2 {:trigger SameFixed(d, e), combine(d, hashes), combine(e, hashes2)} ::
       SameFixed(d, e) ==> combine(d, hashes) == combine(e, hashes2))
    && (forall d, hashes, e, hashes2, to, from {:trigger SameButPaths(d, hashes, e, hashes2, to, from)} ::
          SameButPaths(d, hashes, e, hashes2, to, from) ==> combine(d, hashes) == combine(e, hashes2))
  }

  lemma HashWithSeesPromises(hash: string -> Hash)
    ensures SeesPromises(HashWith(hash))
  {
    forall d, hashes, e, hashes2 | SameFixed(d, e) ensures HashWith(hash)(d, hashes) == HashWith(hash)(e, hashes2) {
      assert FixedText(d) == FixedText(e);
    }
    forall d, hashes, e, hashes2, to, from | SameButPaths(d, hashes, e, hashes2, to, from)
      ensures HashWith(hash)(d, hashes) == HashWith(hash)(e, hashes2)
    {
      SameHash(hash, d, hashes, e, hashes2, to, from);
    }
  }

  /** A number for every path that is smaller for the inputs than for the derivation. */
  type Rank = Path -> nat

  ghost predicate Ranked(drvs: Drvs, rank: Rank) {
    forall p, q :: p in drvs && q in drvs[p].inputDrvs ==> rank(q) < rank(p)
  }

  lemma {:induction false} AlikeHashAlike(combine: Combine, a: Drvs, d: Derivation, b: Drvs, e: Derivation, pairs: Pairing, rank: Rank, n: nat)
    requires SeesPromises(combine) && Grounded(a) && Grounded(b) && PairsAlike(a, b, pairs) && Alike(d, e, pairs)
    requires AllNamesAgree(combine, a) && NamesAgree(d.inputDrvs, InputHashes(combine, a, d))
    requires AllNamesAgree(combine, b) && NamesAgree(e.inputDrvs, InputHashes(combine, b, e))
    requires Ranked(a, rank) && forall i :: i in d.inputDrvs ==> rank(i) < n
    ensures HashModulo(combine, a, d) == HashModulo(combine, b, e)
    decreases n, 1
  {
    if !SameFixed(d, e) {
      var to, from :| Correspond(d, e, pairs, to, from);
      MatchAll(combine, a, d, b, e, pairs, rank, n, to, from);
      assert SameButPaths(d, InputHashes(combine, a, d), e, InputHashes(combine, b, e), to, from);
    }
  }

  lemma {:induction false} MatchAll(combine: Combine, a: Drvs, d: Derivation, b: Drvs, e: Derivation, pairs: Pairing, rank: Rank, n: nat,
                                    to: map<Path, Path>, from: map<Path, Path>)
    requires SeesPromises(combine) && Grounded(a) && Grounded(b) && PairsAlike(a, b, pairs)
    requires AllNamesAgree(combine, a) && AllNamesAgree(combine, b) && Correspond(d, e, pairs, to, from)
    requires Ranked(a, rank) && forall i :: i in d.inputDrvs ==> rank(i) < n
    ensures AllMatch(d.inputDrvs, InputHashes(combine, a, d), e.inputDrvs, InputHashes(combine, b, e), to, from)
    decreases n, 0, 1
  {
    forall i | i in to ensures Match(d.inputDrvs, InputHashes(combine, a, d), e.inputDrvs, InputHashes(combine, b, e), i, to[i]) {
      PairsMatch(combine, a, d, b, e, pairs, rank, n, i, to[i]);
    }
    forall j | j in from ensures Match(d.inputDrvs, InputHashes(combine, a, d), e.inputDrvs, InputHashes(combine, b, e), from[j], j) {
      PairsMatch(combine, a, d, b, e, pairs, rank, n, from[j], j);
    }
  }

  lemma {:induction false} PairsMatch(combine: Combine, a: Drvs, d: Derivation, b: Drvs, e: Derivation, pairs: Pairing, rank: Rank, n: nat,
                                      i: Path, j: Path)
    requires SeesPromises(combine) && Grounded(a) && Grounded(b) && PairsAlike(a, b, pairs)
    requires AllNamesAgree(combine, a) && AllNamesAgree(combine, b) && PairedInput(d, e, pairs, i, j)
    requires Ranked(a, rank) && rank(i) < n
    ensures Match(d.inputDrvs, InputHashes(combine, a, d), e.inputDrvs, InputHashes(combine, b, e), i, j)
    decreases n, 0, 0
  {
    PairHashesAlike(combine, a, b, pairs, rank, i, j);
  }

  lemma {:induction false} PairHashesAlike(combine: Combine, a: Drvs, b: Drvs, pairs: Pairing, rank: Rank, i: Path, j: Path)
    requires SeesPromises(combine) && Grounded(a) && Grounded(b) && PairsAlike(a, b, pairs) && Ranked(a, rank)
    requires AllNamesAgree(combine, a) && AllNamesAgree(combine, b) && (i, j) in pairs
    ensures HashOf(combine, a, i) == HashOf(combine, b, j)
    decreases rank(i), 2
  {
    assert PairAlike(a, b, pairs, (i, j));
    assert NamesAgreeAt(combine, a, i) && NamesAgreeAt(combine, b, j);
    AlikeHashAlike(combine, a, a[i], b, b[j], pairs, rank, rank(i));
    HashOfIs(combine, a, i);
    HashOfIs(combine, b, j);
  }

  /** Exchanging fixed-output derivations that promise the same content, under the same
      algorithm and at the same path, changes no hash above them, as long as inputs that hash
      alike ask for the same outputs. */
  lemma FixedOutputsDoNotMatter(hash: string -> Hash, a: Drvs, d: Derivation, b: Drvs, e: Derivation, pairs: Pairing)
    requires Grounded(a) && Grounded(b) && PairsAlike(a, b, pairs) && Alike(d, e, pairs)
    requires AllNamesAgree(HashWith(hash), a) && NamesAgree(d.inputDrvs, InputHashes(HashWith(hash), a, d))
    requires AllNamesAgree(HashWith(hash), b) && NamesAgree(e.inputDrvs, InputHashes(HashWith(hash), b, e))
    ensures HashModulo(HashWith(hash), a, d) == HashModulo(HashWith(hash), b, e)
  {
    HashWithSeesPromises(hash);
    var n := SomeBound(a, d.inputDrvs.Keys);
    forall p, q | p in a && q in a[p].inputDrvs ensures Depth(a, q) < Depth(a, p) { InputIsDeeper(a, p, q); }
    AlikeHashAlike(HashWith(hash), a, d, b, e, pairs, p => Depth(a, p), n);
  }

  lemma {:induction false} SomeBound(drvs: Drvs, inputs: set<Path>) returns (n: nat)
    ensures forall i :: i in inputs ==> Depth(drvs, i) < n
    decreases inputs
  {
    if inputs == {} {
      n := 0;
    } else {
      var i :| i in inputs;
      n := SomeBound(drvs, inputs - {i});
      if n <= Depth(drvs, i) { n := Depth(drvs, i) + 1; }
    }
  }

  lemma HashModuloIs(hash: string -> Hash, drvs: Drvs, d: Derivation)
    requires Grounded(drvs)
    ensures var hashes := InputHashes(HashWith(hash), drvs, d);
      HashModulo(HashWith(hash), drvs, d)
      == if IsFixedOutput(d) then Some(hash(FixedText(d)))
         else if Complete(d.inputDrvs, hashes) then Some(hash(Unparse(d.(inputDrvs := Replaced(d.inputDrvs, hashes)))))
         else None
  {
    assert HashWith(hash)(d, InputHashes(HashWith(hash), drvs, d)) == HashedDerivation(hash, d, InputHashes(HashWith(hash), drvs, d));
  }

  // The cache

  /** What the cache holds is right. */
  ghost predicate Coherent(combine: Combine, drvs: Drvs, drvHashes: map<Path, Hash>)
    requires Grounded(drvs)
  {
    forall p :: p in drvHashes ==> p in drvs && HashOf(combine, drvs, p) == Some(drvHashes[p])
  }

  ghost predicate ReplacedSoFar(inputs: map<Path, set<string>>, keys: seq<Path>, hashes: map<Path, Option<Hash>>,
                                done: seq<(Hash, set<string>)>, n: nat)
  {
    |done| == n <= |keys|
    && forall k :: 0 <= k < n ==> keys[k] in inputs && keys[k] in hashes
                                  && hashes[keys[k]] == Some(done[k].0) && done[k].1 == inputs[keys[k]]
  }

  lemma ReplaceOne(inputs: map<Path, set<string>>, keys: seq<Path>, hashes: map<Path, Option<Hash>>,
                   done: seq<(Hash, set<string>)>, n: nat, h: Hash)
    requires ReplacedSoFar(inputs, keys, hashes, done, n) && n < |keys|
    requires keys[n] in inputs && keys[n] in hashes && hashes[keys[n]] == Some(h)
    ensures ReplacedSoFar(inputs, keys, hashes, done + [(h, inputs[keys[n]])], n + 1)
  {
  }

  lemma AllReplaced(inputs: map<Path, set<string>>, keys: seq<Path>, hashes: map<Path, Option<Hash>>, done: seq<(Hash, set<string>)>)
    requires keys == ByteStrings.Sorted(inputs.Keys) && ReplacedSoFar(inputs, keys, hashes, done, |keys|)
    ensures Complete(inputs, hashes) && Replaced(inputs, hashes) == FromEntries(done)
  {
    forall q | q in inputs ensures q in hashes && hashes[q].Some? {
      var k :| 0 <= k < |keys| && keys[k] == q;
    }
    assert done == ReplacedEntries(inputs, Entries(inputs), hashes);
  }

  /** The store as hashing sees it: its valid derivations and the cache. */
  class HashingStore {
    const hash: string -> Hash
    var drvs: Drvs
    var drvHashes: map<Path, Hash>

    constructor (hash: string -> Hash)
      ensures this.hash == hash && drvs == map[] && drvHashes == map[] && Valid()
    {
      this.hash := hash;
      drvs := map[];
      drvHashes := map[];
    }

    ghost predicate Valid()
      reads this
    {
      Grounded(drvs) && InputsClosed(drvs) && Coherent(HashWith(hash), drvs, drvHashes)
    }

    /** The hash of an input, from the cache if it is there. */
    method InputHash(p: Path, ghost n: nat) returns (h: Option<Hash>)
      requires Valid() && Depth(drvs, p) < n
      modifies this`drvHashes
      ensures Valid() && h == HashOf(HashWith(hash), drvs, p)
      ensures old(drvHashes).Keys <= drvHashes.Keys
      decreases n, 0
    {
      if p in drvHashes { return Some(drvHashes[p]); }
      if p !in drvs { return None; }
      InputsBounded(drvs, p);
      h := HashDerivationModulo(drvs[p], Depth(drvs, p));
      HashOfIs(HashWith(hash), drvs, p);
      if h.Some? { drvHashes := drvHashes[p := h.value]; }
    }

    /** The inputs under their hashes; None is a failed assertion or an unreadable input. */
    method ReplaceInputs(drv: Derivation, ghost n: nat) returns (r: Option<map<Hash, set<string>>>)
      requires Valid() && Bounds(drvs, drv, n)
      modifies this`drvHashes
      ensures Valid() && old(drvHashes).Keys <= drvHashes.Keys
      ensures var hashes := InputHashes(HashWith(hash), drvs, drv);
        if Complete(drv.inputDrvs, hashes) then r == Some(Replaced(drv.inputDrvs, hashes)) else r == None
      decreases n, 1
    {
      ghost var hashes := InputHashes(HashWith(hash), drvs, drv);
      var keys := DerivationText.InOrder(drv.inputDrvs.Keys);
      var inputs2: map<Hash, set<string>> := map[];
      ghost var done := [];
      for i := 0 to |keys|
        invariant Valid() && old(drvHashes).Keys <= drvHashes.Keys
        invariant inputs2 == FromEntries(done) && ReplacedSoFar(drv.inputDrvs, keys, hashes, done, i)
      {
        assert keys[i] in keys;
        var h := InputHash(keys[i], n);
        assert h == hashes[keys[i]];
        if h.None? { return None; }
        ReplaceOne(drv.inputDrvs, keys, hashes, done, i, h.value);
        DerivationText.AddEntry(done, h.value, drv.inputDrvs[keys[i]]);
        inputs2 := inputs2[h.value := drv.inputDrvs[keys[i]]];
        done := done + [(h.value, drv.inputDrvs[keys[i]])];
      }
      AllReplaced(drv.inputDrvs, keys, hashes, done);
      r := Some(inputs2);
    }

    method HashDerivationModulo(drv: Derivation, ghost n: nat) returns (r: Option<Hash>)
      requires Valid() && Bounds(drvs, drv, n)
      modifies this`drvHashes
      ensures Valid() && r == HashModulo(HashWith(hash), drvs, drv)
      ensures old(drvHashes).Keys <= drvHashes.Keys
      decreases n, 2
    {
      HashModuloIs(hash, drvs, drv);
      if IsFixedOutput(drv) {
        var o := drv.outputs["out"];
        return Some(hash("fixed:out:" + o.hashAlgo + ":" + o.hash + ":" + o.path));
      }
      var inputs2 := ReplaceInputs(drv, n);
      if inputs2.None? { return None; }
      var text := DerivationText.UnparseDerivation(drv.(inputDrvs := inputs2.value));
      r := Some(hash(text));
    }

    /** A derivation nobody uses becomes invalid. */
    method InvalidatePath(path: Path)
      requires Valid() && forall p :: p in drvs && p != path ==> path !in drvs[p].inputDrvs
      modifies this
      ensures Valid() && drvs == old(drvs) - {path} && drvHashes == old(drvHashes) - {path}
    {
      drvHashes := drvHashes - {path};
      drvs := drvs - {path};
      assert Grounded(drvs) by {
        AcyclicMono(InputGraph(drvs), InputGraph(old(drvs)));
      }
      forall p | p in drvHashes ensures HashOf(HashWith(hash), drvs, p) == Some(drvHashes[p]) {
        HashOfSub(HashWith(hash), drvs, old(drvs), p);
      }
    }

    /** A derivation whose inputs are valid becomes valid. */
    method RegisterDerivation(path: Path, drv: Derivation)
      requires Valid() && path !in drvs && drv.inputDrvs.Keys <= drvs.Keys
      modifies this`drvs
      ensures Valid() && drvs == old(drvs)[path := drv]
    {
      drvs := drvs[path := drv];
      NewIsGrounded(old(drvs), path, drv);
      forall p | p in drvHashes ensures HashOf(HashWith(hash), drvs, p) == Some(drvHashes[p]) {
        HashOfSub(HashWith(hash), old(drvs), drvs, p);
      }
    }
  }

  lemma NewIsGrounded(drvs: Drvs, path: Path, drv: Derivation)
    requires Grounded(drvs) && InputsClosed(drvs) && path !in drvs && drv.inputDrvs.Keys <= drvs.Keys
    ensures Grounded(drvs[path := drv])
  {
    var g, g2 := InputGraph(drvs), InputGraph(drvs[path := drv]);
    forall x, y | Edge(g2, x, y) ensures !Reach(g2, y, x) {
      assert y in drvs;
      if x != path { assert Edge(g, x, y); }
      if Reach(g2, y, x) { NewIsNotReached(drvs, path, drv, y, x); }
    }
  }

  lemma NewIsNotReached(drvs: Drvs, path: Path, drv: Derivation, y: Path, x: Path)
    requires InputsClosed(drvs) && path !in drvs && drv.inputDrvs.Keys <= drvs.Keys
    requires y in drvs && Reach(InputGraph(drvs[path := drv]), y, x)
    ensures x in drvs && Reach(InputGraph(drvs), y, x)
  {
    var g, g2 := InputGraph(drvs), InputGraph(drvs[path := drv]);
    var w :| WalkFromTo(g2, w, y, x);
    WalkStaysOld(drvs, path, drv, w, |w| - 1);
    assert WalkFromTo(g, w, y, x);
  }

  lemma {:induction false} WalkStaysOld(drvs: Drvs, path: Path, drv: Derivation, w: seq<Path>, n: nat)
    requires InputsClosed(drvs) && path !in drvs
    requires Walk(InputGraph(drvs[path := drv]), w) && w[0] in drvs && n < |w|
    ensures w[n] in drvs && forall i {:trigger w[i]} :: 0 <= i < n ==> Edge(InputGraph(drvs), w[i], w[i + 1])
  {
    if n > 0 {
      WalkStaysOld(drvs, path, drv, w, n - 1);
      assert Edge(InputGraph(drvs[path := drv]), w[n - 1], w[n]);
    }
  }
}
