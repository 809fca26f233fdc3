/** Finite directed graphs: walks, reachability, acyclicity and a height function.

    Every graph in the daemon (references, incoming edges of the collector, goals
    waiting for goals, input derivations) is a finite map from a node to its
    successors.  A node that points to itself is not a cycle anywhere in the daemon,
    so self-loops are not edges here. */
module Graphs {

  type Graph<T(!new)> = map<T, set<T>>

  ghost predicate Edge<T(!new)>(g: Graph<T>, a: T, b: T) {
    a in g && b in g[a] && a != b
  }

  ghost predicate Walk<T(!new)>(g: Graph<T>, w: seq<T>) {
    |w| > 0 && forall i {:trigger w[i]} :: 0 <= i < |w| - 1 ==> Edge(g, w[i], w[i + 1])
  }

  ghost predicate WalkFromTo<T(!new)>(g: Graph<T>, w: seq<T>, a: T, b: T) {
    Walk(g, w) && w[0] == a && w[|w| - 1] == b
  }

  ghost predicate Reach<T(!new)>(g: Graph<T>, a: T, b: T) {
    exists w :: WalkFromTo(g, w, a, b)
  }

  /** No edge can be followed back to where it started. */
  ghost predicate Acyclic<T(!new)>(g: Graph<T>) {
    forall a, b :: Edge(g, a, b) ==> !Reach(g, b, a)
  }

  /** A walk of at least one edge that ends where it began: two or more nodes. */
  ghost predicate Cycle<T(!new)>(g: Graph<T>, w: seq<T>) {
    Walk(g, w) && |w| >= 2 && w[0] == w[|w| - 1]
  }

  ghost predicate Subgraph<T(!new)>(g: Graph<T>, h: Graph<T>) {
    forall a, b :: Edge(g, a, b) ==> Edge(h, a, b)
  }

  lemma ReachSelf<T(!new)>(g: Graph<T>, a: T)
    ensures Reach(g, a, a)
  {
    assert WalkFromTo(g, [a], a, a);
  }

  lemma ReachStep<T(!new)>(g: Graph<T>, a: T, b: T, c: T)
    requires Edge(g, a, b) && Reach(g, b, c)
    ensures Reach(g, a, c)
  {
    var w :| WalkFromTo(g, w, b, c);
    var v := [a] + w;
    forall i | 0 <= i < |v| - 1 ensures Edge(g, v[i], v[i + 1]) {
      if i > 0 { assert v[i] == w[i - 1] && v[i + 1] == w[i]; }
    }
    assert WalkFromTo(g, v, a, c);
  }

  lemma ReachEdge<T(!new)>(g: Graph<T>, a: T, b: T)
    requires Edge(g, a, b)
    ensures Reach(g, a, b)
  {
    ReachSelf(g, b);
    ReachStep(g, a, b, b);
  }

  lemma {:induction false} WalkTrans<T(!new)>(g: Graph<T>, w: seq<T>, a: T, b: T, c: T)
    requires WalkFromTo(g, w, a, b) && Reach(g, b, c)
    ensures Reach(g, a, c)
    decreases |w|
  {
    if |w| > 1 {
      WalkTail(g, w, a, b);
      WalkTrans(g, w[1..], w[1], b, c);
      ReachStep(g, a, w[1], c);
    }
  }

  lemma WalkTail<T(!new)>(g: Graph<T>, w: seq<T>, a: T, b: T)
    requires WalkFromTo(g, w, a, b) && |w| > 1
    ensures Edge(g, a, w[1]) && WalkFromTo(g, w[1..], w[1], b)
  {
    assert Edge(g, w[0], w[1]);
    var v := w[1..];
    forall i | 0 <= i < |v| - 1 ensures Edge(g, v[i], v[i + 1]) {
      assert v[i] == w[i + 1] && v[i + 1] == w[i + 2];
      assert Edge(g, w[i + 1], w[i + 1 + 1]);
    }
  }

  lemma ReachTrans<T(!new)>(g: Graph<T>, a: T, b: T, c: T)
    requires Reach(g, a, b) && Reach(g, b, c)
    ensures Reach(g, a, c)
  {
    var w :| WalkFromTo(g, w, a, b);
    WalkTrans(g, w, a, b, c);
  }

  /** A set that every edge stays inside holds whatever its members reach. */
  lemma {:induction false} WalkInside<T(!new)>(g: Graph<T>, s: iset<T>, w: seq<T>, a: T, b: T)
    requires a in s && forall x, y :: x in s && Edge(g, x, y) ==> y in s
    requires WalkFromTo(g, w, a, b)
    ensures b in s
    decreases |w|
  {
    if |w| > 1 {
      WalkTail(g, w, a, b);
      WalkInside(g, s, w[1..], w[1], b);
    }
  }

  lemma ReachInside<T(!new)>(g: Graph<T>, s: iset<T>, a: T, b: T)
    requires a in s && forall x, y :: x in s && Edge(g, x, y) ==> y in s
    requires Reach(g, a, b)
    ensures b in s
  {
    var w :| WalkFromTo(g, w, a, b);
    WalkInside(g, s, w, a, b);
  }

  lemma ReachMono<T(!new)>(g: Graph<T>, h: Graph<T>, a: T, b: T)
    requires Subgraph(g, h) && Reach(g, a, b)
    ensures Reach(h, a, b)
  {
    var w :| WalkFromTo(g, w, a, b);
    assert WalkFromTo(h, w, a, b) by {
      forall i | 0 <= i < |w| - 1 ensures Edge(h, w[i], w[i + 1]) {
        assert Edge(g, w[i], w[i + 1]);
      }
    }
  }

  lemma AcyclicMono<T(!new)>(g: Graph<T>, h: Graph<T>)
    requires Subgraph(g, h) && Acyclic(h)
    ensures Acyclic(g)
  {
    forall a, b | Edge(g, a, b) ensures !Reach(g, b, a) {
      if Reach(g, b, a) { ReachMono(g, h, b, a); }
    }
  }

  /** The two ways of saying that a graph has no cycle. */
  lemma AcyclicMeansNoCycle<T(!new)>(g: Graph<T>)
    ensures Acyclic(g) <==> !exists w :: Cycle(g, w)
  {
    if w :| Cycle(g, w) {
      WalkTail(g, w, w[0], w[0]);
      assert Reach(g, w[1], w[0]);
    }
    if a, b :| Edge(g, a, b) && Reach(g, b, a) {
      var w :| WalkFromTo(g, w, b, a);
      var v := [a] + w;
      forall i | 0 <= i < |v| - 1 ensures Edge(g, v[i], v[i + 1]) {
        if i > 0 { assert v[i] == w[i - 1] && v[i + 1] == w[i]; }
      }
      assert Cycle(g, v);
    }
  }

  ghost function Nodes<T(!new)>(g: Graph<T>): set<T> {
    g.Keys + set a, b | a in g && b in g[a] :: b
  }

  ghost function ReachSet<T(!new)>(g: Graph<T>, a: T): set<T> {
    set b | b in Nodes(g) + {a} && Reach(g, a, b)
  }

  /** How many nodes a node reaches, itself included. */
  ghost function Height<T(!new)>(g: Graph<T>, a: T): nat {
    |ReachSet(g, a)|
  }

  lemma NoMembers<T>(s: set<T>)
    requires forall x :: x !in s
    ensures s == {}
  {
  }

  lemma NoKeys<K, V>(m: map<K, V>)
    requires forall k :: k !in m
    ensures m == map[]
  {
  }

  lemma SmallerSet<T>(s: set<T>, t: set<T>, x: T)
    requires s <= t && x in t && x !in s
    ensures |s| < |t|
  {
    SubsetCard(s, t - {x});
  }

  lemma SubsetCard<T>(s: set<T>, t: set<T>)
    requires s <= t
    ensures |s| <= |t|
  {
    assert t == s + (t - s);
  }

  /** In an acyclic graph every edge goes strictly down. */
  lemma HeightFalls<T(!new)>(g: Graph<T>, a: T, b: T)
    requires Acyclic(g) && Edge(g, a, b)
    ensures Height(g, b) < Height(g, a)
  {
    forall c | c in ReachSet(g, b) ensures c in ReachSet(g, a) {
      ReachStep(g, a, b, c);
    }
    ReachSelf(g, a);
    SmallerSet(ReachSet(g, b), ReachSet(g, a), a);
  }
}
