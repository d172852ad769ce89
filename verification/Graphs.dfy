/** Cycles in finite dependency graphs. */
module Graphs {
  import opened Names
  import opened Api

  type Key = NamespacedName
  type Graph = map<Key, set<Key>>

  /** The dependencies of the components. */
  function GraphOf(cs: Components): Graph {
    map k | k in cs :: cs[k].DependencyKeys()
  }

  predicate Edge(g: Graph, a: Key, b: Key) {
    a in g && b in g[a]
  }

  ghost predicate IsWalk(g: Graph, w: seq<Key>) {
    forall i | 0 <= i < |w| - 1 :: Edge(g, w[i], w[i + 1])
  }

  /** A non-empty closed walk. */
  ghost predicate IsCycle(g: Graph, w: seq<Key>) {
    |w| > 0 && IsWalk(g, w) && Edge(g, w[|w| - 1], w[0])
  }

  ghost predicate Acyclic(g: Graph) {
    forall w :: !IsCycle(g, w)
  }

  /** The next member of a cycle. */
  function Next(w: seq<Key>, i: nat): Key
    requires i < |w|
  {
    if i + 1 < |w| then w[i + 1] else w[0]
  }

  lemma CycleEdges(g: Graph, w: seq<Key>, i: nat)
    requires IsCycle(g, w) && i < |w|
    ensures Edge(g, w[i], Next(w, i)) && Next(w, i) in w
  {
  }

  lemma {:induction false} SeqInSet(w: seq<Key>, s: set<Key>)
    requires forall i | 0 <= i < |w| :: w[i] in s
    requires forall i, j | 0 <= i < j < |w| :: w[i] != w[j]
    ensures |w| <= |s|
    decreases |w|
  {
    if w != [] {
      SeqInSet(w[..|w| - 1], s - {w[|w| - 1]});
    }
  }

  /** `next` picks, for every node it knows, a successor it knows. */
  ghost predicate PicksSuccessors(g: Graph, next: map<Key, Key>) {
    forall k {:trigger next[k]} | k in next :: next[k] in next && Edge(g, k, next[k])
  }

  /** Follows `next` until some node repeats. */
  lemma {:induction false} FindCycle(g: Graph, next: map<Key, Key>, w: seq<Key>) returns (c: seq<Key>)
    requires PicksSuccessors(g, next)
    requires |w| > 0 && IsWalk(g, w) && forall i | 0 <= i < |w| :: w[i] in next
    requires forall i, j | 0 <= i < j < |w| :: w[i] != w[j]
    ensures IsCycle(g, c) && forall i | 0 <= i < |c| :: c[i] in next
    decreases |next.Keys| - |w|
  {
    SeqInSet(w, next.Keys);
    var d := next[w[|w| - 1]];
    if i :| 0 <= i < |w| && w[i] == d {
      c := w[i..];
    } else {
      SeqInSet(w + [d], next.Keys);
      c := FindCycle(g, next, w + [d]);
    }
  }

  lemma CycleAlong(g: Graph, next: map<Key, Key>) returns (c: seq<Key>)
    requires PicksSuccessors(g, next) && next != map[]
    ensures IsCycle(g, c) && forall i | 0 <= i < |c| :: c[i] in next
  {
    var k :| k in next;
    c := FindCycle(g, next, [k]);
  }

  ghost predicate HasSuccessorIn(g: Graph, s: set<Key>, k: Key) {
    exists d :: d in s && Edge(g, k, d)
  }

  ghost predicate HasPredecessorIn(g: Graph, s: set<Key>, k: Key) {
    exists d :: d in s && Edge(g, d, k)
  }

  ghost function SuccessorIn(g: Graph, s: set<Key>, k: Key): (d: Key)
    requires HasSuccessorIn(g, s, k)
    ensures d in s && Edge(g, k, d)
  {
    var d :| d in s && Edge(g, k, d); d
  }

  /** If every node of a non-empty finite set has a successor in the set, the set contains a cycle. */
  lemma CycleFromSuccessors(g: Graph, s: set<Key>) returns (c: seq<Key>)
    requires s != {} && forall k {:trigger HasSuccessorIn(g, s, k)} | k in s :: HasSuccessorIn(g, s, k)
    ensures IsCycle(g, c) && forall i | 0 <= i < |c| :: c[i] in s
  {
    var next := map k | k in s :: SuccessorIn(g, s, k);
    assert next.Keys == s;
    c := CycleAlong(g, next);
  }

  ghost function Reverse(w: seq<Key>): (r: seq<Key>)
    ensures |r| == |w| && forall i | 0 <= i < |w| :: r[i] == w[|w| - 1 - i]
  {
    if w == [] then [] else Reverse(w[1..]) + [w[0]]
  }

  ghost function Transpose(g: Graph, s: set<Key>): Graph {
    map k | k in s :: set d | d in s && Edge(g, d, k)
  }

  lemma ReverseCycle(g: Graph, s: set<Key>, r: seq<Key>)
    requires IsCycle(Transpose(g, s), r) && forall i | 0 <= i < |r| :: r[i] in s
    ensures IsCycle(g, Reverse(r)) && forall i | 0 <= i < |r| :: Reverse(r)[i] in s
  {
    var c, n := Reverse(r), |r|;
    forall i | 0 <= i < n - 1
      ensures Edge(g, c[i], c[i + 1])
    {
      assert Edge(Transpose(g, s), r[n - 2 - i], r[n - 2 - i + 1]);
    }
    assert Edge(Transpose(g, s), r[n - 1], r[0]);
  }

  /** The same for predecessors. */
  lemma CycleFromPredecessors(g: Graph, s: set<Key>) returns (c: seq<Key>)
    requires s != {} && forall k {:trigger HasPredecessorIn(g, s, k)} | k in s :: HasPredecessorIn(g, s, k)
    ensures IsCycle(g, c) && forall i | 0 <= i < |c| :: c[i] in s
  {
    var t := Transpose(g, s);
    forall k | k in s
      ensures HasSuccessorIn(t, s, k)
    {
      assert HasPredecessorIn(g, s, k);
      var d :| d in s && Edge(g, d, k);
      assert Edge(t, k, d);
    }
    var r := CycleFromSuccessors(t, s);
    ReverseCycle(g, s, r);
    c := Reverse(r);
  }
}
