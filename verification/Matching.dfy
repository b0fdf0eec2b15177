/** Bipartite graphs, matchings, and why a failed search certifies that nothing better exists.

    A matching is kept the way the algorithm keeps it: left[l] is the right node fed by l and
    right[r] the left node feeding r, UNUSED when there is none. */
module Matching {
  // std::size_t on a 64-bit target; kUnused is its largest value, so no index can equal it.
  const SIZE_MAX: int := 0xFFFF_FFFF_FFFF_FFFF
  const UNUSED: int := SIZE_MAX

  type Edge = (nat, nat)

  datatype Graph = Graph(lhs: nat, rhs: nat, edges: set<Edge>)

  ghost predicate ValidGraph(g: Graph) {
    && g.lhs <= SIZE_MAX
    && g.rhs <= SIZE_MAX
    && forall e :: e in g.edges ==> e.0 < g.lhs && e.1 < g.rhs
  }

  ghost predicate IsMatching(g: Graph, m: set<Edge>) {
    && m <= g.edges
    && forall e, f :: e in m && f in m && (e.0 == f.0 || e.1 == f.1) ==> e == f
  }

  /** Both arrays describe the same flow: whatever one of them says about a node, the other says about
      its partner, and the two are joined by an edge. */
  ghost predicate Mutual(g: Graph, left: seq<int>, right: seq<int>) {
    && |left| == g.lhs
    && |right| == g.rhs
    && (forall l :: 0 <= l < |left| && left[l] != UNUSED ==>
          0 <= left[l] < |right| && right[left[l]] == l && (l, left[l]) in g.edges)
    && (forall r :: 0 <= r < |right| && right[r] != UNUSED ==>
          0 <= right[r] < |left| && left[right[r]] == r)
  }

  /** The left nodes that carry flow. */
  ghost function UsedLeft(left: seq<int>): set<nat> {
    set l: nat | l < |left| && left[l] != UNUSED
  }

  /** (a, b) is closed when every neighbour of a is in b and every node of b is fed by a node of a:
      flow entering a has nowhere left to go. */
  ghost predicate Closed(g: Graph, right: seq<int>, a: set<nat>, b: set<nat>) {
    && (forall e :: e in g.edges && e.0 in a ==> e.1 in b)
    && (forall r :: r in b ==> r < |right| && right[r] != UNUSED && right[r] in a)
  }

  // ---------------------------------------------------------------------------
  // Augmenting paths

  /** path lists the right nodes visited by an alternating walk from l to a free right node: each
      is reached over an edge, and the walk goes on from the left node feeding it. */
  ghost predicate IsAugmentingPath(g: Graph, right: seq<int>, l: int, path: seq<nat>)
    decreases |path|
  {
    && |path| > 0
    && 0 <= l
    && path[0] < |right|
    && (l, path[0]) in g.edges
    && if |path| == 1 then right[path[0]] == UNUSED
       else right[path[0]] != UNUSED && IsAugmentingPath(g, right, right[path[0]], path[1..])
  }

  /** A node inside a closed pair has no augmenting path. */
  lemma {:induction false} ClosedBlocksPaths(g: Graph, right: seq<int>, a: set<nat>, b: set<nat>,
                                             l: nat, path: seq<nat>)
    requires Closed(g, right, a, b) && l in a
    ensures !IsAugmentingPath(g, right, l, path)
    decreases |path|
  {
    if IsAugmentingPath(g, right, l, path) {
      var e := (l, path[0]);
      assert e in g.edges && e.1 in b;
      if |path| > 1 {
        ClosedBlocksPaths(g, right, a, b, right[path[0]], path[1..]);
      }
    }
  }

  ghost predicate HasAugmentingPath(g: Graph, right: seq<int>, l: int) {
    exists path :: IsAugmentingPath(g, right, l, path)
  }

  lemma ClosedHasNoPath(g: Graph, right: seq<int>, a: set<nat>, b: set<nat>, l: nat)
    requires Closed(g, right, a, b) && l in a
    ensures !HasAugmentingPath(g, right, l)
  {
    forall path
      ensures !IsAugmentingPath(g, right, l, path)
    {
      ClosedBlocksPaths(g, right, a, b, l, path);
    }
  }

  // ---------------------------------------------------------------------------
  // Optimality

  /** Where an edge of any matching is charged: to its left end when that is outside a, and to the
      left node feeding its right end otherwise. */
  ghost function Charge(right: seq<int>, a: set<nat>, e: Edge): int
    requires e.1 < |right|
  {
    if e.0 in a then right[e.1] else e.0
  }

  /** If every node without flow is in a, for some closed (a, b), no matching has more edges than
      there are nodes with flow. */
  lemma {:induction false} ClosedBoundsMatchings(g: Graph, left: seq<int>, right: seq<int>,
                                                 a: set<nat>, b: set<nat>, m: set<Edge>)
    requires ValidGraph(g) && Mutual(g, left, right) && Closed(g, right, a, b)
    requires forall l :: 0 <= l < |left| && left[l] == UNUSED ==> l in a
    requires IsMatching(g, m)
    ensures |m| <= |UsedLeft(left)|
  {
    ChargesAreDistinct(g, left, right, a, b, m);
    var charges := set e | e in m :: Charge(right, a, e);
    assert forall e :: e in m ==> Charge(right, a, e) in charges;
    InjectiveImageCardinality(m, charges, e requires e in m => Charge(right, a, e));
    assert charges <= UsedLeft(left);
    SubsetCardinality(charges, UsedLeft(left));
  }

  lemma ChargesAreDistinct(g: Graph, left: seq<int>, right: seq<int>, a: set<nat>, b: set<nat>, m: set<Edge>)
    requires ValidGraph(g) && Mutual(g, left, right) && Closed(g, right, a, b)
    requires forall l :: 0 <= l < |left| && left[l] == UNUSED ==> l in a
    requires IsMatching(g, m)
    ensures forall e :: e in m ==> e.1 < |right| && Charge(right, a, e) in UsedLeft(left)
    ensures forall e, f :: e in m && f in m && Charge(right, a, e) == Charge(right, a, f) ==> e == f
  {
  }

  // ---------------------------------------------------------------------------
  // Finite sets

  lemma {:induction false} SubsetCardinality<T>(s: set<T>, t: set<T>)
    requires s <= t
    ensures |s| <= |t|
  {
    assert t == s + (t - s);
  }

  lemma {:induction false} EqualCardinalitySubset<T>(s: set<T>, t: set<T>)
    requires s <= t && |s| == |t|
    ensures s == t
  {
    assert t == s + (t - s);
    assert |t - s| == 0;
  }

  lemma {:induction false} InjectiveImageCardinality<T, U>(s: set<T>, image: set<U>, f: T --> U)
    requires forall x :: x in s ==> f.requires(x) && f(x) in image
    requires forall y :: y in image ==> exists x :: x in s && f(x) == y
    requires forall x, y :: x in s && y in s && f(x) == f(y) ==> x == y
    ensures |image| == |s|
    decreases s
  {
    if s != {} {
      var x :| x in s;
      InjectiveImageCardinality(s - {x}, image - {f(x)}, f);
    }
  }

  /** The node indices below n. */
  ghost function Below(n: nat): (s: set<nat>)
    ensures |s| == n
    ensures forall i: nat :: i in s <==> i < n
  {
    if n == 0 then {} else Below(n - 1) + {n - 1}
  }
}
