/** The verdict of UnorderedElementsAre: a quick look for isolated nodes, then a maximum matching. */
module UnorderedElements {
  import opened Matching
  import opened MatchMatrices
  import opened BipartiteMatching

  /** assign gives every matcher its own element, one it matches. */
  ghost predicate IsAssignment(g: Graph, assign: seq<nat>) {
    && |assign| == g.rhs
    && (forall r: nat :: r < |assign| ==> (assign[r], r) in g.edges)
    && (forall r, s :: 0 <= r < |assign| && 0 <= s < |assign| && assign[r] == assign[s] ==> r == s)
  }

  ghost predicate HasAssignment(g: Graph) {
    exists assign :: IsAssignment(g, assign)
  }

  ghost predicate TouchesElement(edges: set<Edge>, l: nat) {
    exists e :: e in edges && e.0 == l
  }

  ghost predicate TouchesMatcher(edges: set<Edge>, r: nat) {
    exists e :: e in edges && e.1 == r
  }

  ghost predicate NoIsolatedNode(g: Graph) {
    && (forall l: nat :: l < g.lhs ==> TouchesElement(g.edges, l))
    && (forall r: nat :: r < g.rhs ==> TouchesMatcher(g.edges, r))
  }

  ghost function AssignedEdges(assign: seq<nat>): set<Edge> {
    set r | 0 <= r < |assign| :: (assign[r], r)
  }

  /** An assignment is a matching with one edge per matcher. */
  lemma AssignmentIsMatching(g: Graph, assign: seq<nat>)
    requires ValidGraph(g) && IsAssignment(g, assign)
    ensures IsMatching(g, AssignedEdges(assign)) && |AssignedEdges(assign)| == g.rhs
  {
    var m := AssignedEdges(assign);
    var f := (r: nat) requires r in Below(g.rhs) => (assign[r], r);
    forall e | e in m
      ensures exists r :: r in Below(g.rhs) && f(r) == e
    {
      assert f(e.1) == e;
    }
    InjectiveImageCardinality(Below(g.rhs), m, f);
  }

  ghost function LeftEnds(m: set<Edge>): set<nat> {
    set e | e in m :: e.0
  }

  ghost function RightEnds(m: set<Edge>): set<nat> {
    set e | e in m :: e.1
  }

  /** A matching with one edge per matcher is an assignment. */
  lemma MatchingIsAssignment(g: Graph, m: set<Edge>)
    requires ValidGraph(g) && IsMatching(g, m) && |m| == g.rhs
    ensures HasAssignment(g)
  {
    InjectiveImageCardinality(m, RightEnds(m), (e: Edge) => e.1);
    EqualCardinalitySubset(RightEnds(m), Below(g.rhs));
    var assign := seq(g.rhs, r requires 0 <= r < g.rhs => LeftEnd(g, m, r));
    assert IsAssignment(g, assign);
  }

  ghost function LeftEnd(g: Graph, m: set<Edge>, r: nat): (l: nat)
    requires r in RightEnds(m)
    ensures (l, r) in m
  {
    var e :| e in m && e.1 == r;
    e.0
  }

  /** An assignment with no more elements than matchers takes every element. */
  lemma AssignmentCovers(g: Graph, assign: seq<nat>, l: nat)
    requires ValidGraph(g) && g.lhs <= g.rhs && IsAssignment(g, assign) && l < g.lhs
    ensures TouchesElement(g.edges, l)
  {
    var m := AssignedEdges(assign);
    AssignmentIsMatching(g, assign);
    InjectiveImageCardinality(m, LeftEnds(m), (e: Edge) => e.0);
    SubsetCardinality(LeftEnds(m), Below(g.lhs));
    EqualCardinalitySubset(LeftEnds(m), Below(g.lhs));
    assert l in LeftEnds(m);
  }

  /** With no more elements than matchers the quick check only rejects what has no assignment anyway. */
  lemma QuickCheckIsSound(g: Graph)
    requires ValidGraph(g) && g.lhs <= g.rhs && HasAssignment(g)
    ensures NoIsolatedNode(g)
  {
    var assign :| IsAssignment(g, assign);
    forall r: nat | r < g.rhs
      ensures TouchesMatcher(g.edges, r)
    {
      assert (assign[r], r) in g.edges;
    }
    forall l: nat | l < g.lhs
      ensures TouchesElement(g.edges, l)
    {
      AssignmentCovers(g, assign, l);
    }
  }

  /** Every matcher r is matched by element r alone, and any further element by none. */
  ghost function Diagonal(lhs: nat, rhs: nat): Graph {
    Graph(lhs, rhs, set r | 0 <= r < rhs :: (r, r))
  }

  /** The diagonal has an assignment, but an element beyond it matches nothing. */
  lemma DiagonalIsRejected(lhs: nat, rhs: nat)
    requires rhs < lhs <= SIZE_MAX
    ensures var g := Diagonal(lhs, rhs);
            ValidGraph(g) && HasAssignment(g) && !NoIsolatedNode(g)
  {
    var g := Diagonal(lhs, rhs);
    var assign := seq(rhs, r => r);
    assert IsAssignment(g, assign);
    assert !TouchesElement(g.edges, rhs);
  }

  /** The quick check before the matching never changes the verdict exactly for those matrices that
      have no more elements than matchers. */
  lemma QuickCheckSoundIff(lhs: nat, rhs: nat)
    requires lhs <= SIZE_MAX && rhs <= SIZE_MAX
    ensures (forall g :: ValidGraph(g) && g.lhs == lhs && g.rhs == rhs && HasAssignment(g) ==> NoIsolatedNode(g))
            <==> lhs <= rhs
  {
    if lhs <= rhs {
      forall g | ValidGraph(g) && g.lhs == lhs && g.rhs == rhs && HasAssignment(g)
        ensures NoIsolatedNode(g)
      {
        QuickCheckIsSound(g);
      }
    } else {
      DiagonalIsRejected(lhs, rhs);
    }
  }

  /** True exactly when every matcher can be given its own matching element. */
  method FindPairing(matrix: MatchMatrix) returns (result: bool)
    requires matrix.Valid()
    ensures result <==> HasAssignment(matrix.GraphOf())
  {
    ghost var g := matrix.GraphOf();
    var matches := FindMaxBipartiteMatching(matrix);
    if |matches| == matrix.numMatchers {
      MatchingIsAssignment(g, EdgeSet(matches));
    } else if HasAssignment(g) {
      var assign :| IsAssignment(g, assign);
      AssignmentIsMatching(g, assign);
      InjectiveImageCardinality(EdgeSet(matches), RightEnds(EdgeSet(matches)), (e: Edge) => e.1);
      SubsetCardinality(RightEnds(EdgeSet(matches)), Below(g.rhs));
      assert false;
    }
    result := |matches| == matrix.numMatchers;
  }

  /** The edges in the cells before (i, j), in element-major order. */
  ghost function Scanned(g: Graph, i: nat, j: nat): set<Edge> {
    set e | e in g.edges && (e.0 < i || (e.0 == i && e.1 < j))
  }

  ghost predicate Marked(edges: set<Edge>, elements: seq<bool>, matchers: seq<bool>) {
    && (forall l: nat :: l < |elements| ==> (elements[l] <==> TouchesElement(edges, l)))
    && (forall r: nat :: r < |matchers| ==> (matchers[r] <==> TouchesMatcher(edges, r)))
  }

  lemma NothingMarked(lhs: nat, rhs: nat)
    ensures Marked({}, seq(lhs, _ => false), seq(rhs, _ => false))
  {
  }

  lemma ScanOne(g: Graph, i: nat, j: nat, elements: seq<bool>, matchers: seq<bool>)
    requires i < |elements| && j < |matchers|
    requires Marked(Scanned(g, i, j), elements, matchers)
    ensures Marked(Scanned(g, i, j + 1), elements[i := elements[i] || (i, j) in g.edges],
                   matchers[j := matchers[j] || (i, j) in g.edges])
  {
  }

  /** True exactly when no element and no matcher is isolated. */
  method VerifyAllElementsAndMatchersAreMatched(matrix: MatchMatrix) returns (result: bool)
    requires matrix.Valid()
    ensures result <==> NoIsolatedNode(matrix.GraphOf())
  {
    hide TouchesElement, TouchesMatcher;
    var lhs, rhs := matrix.numElements, matrix.numMatchers;
    var elementMatched := new bool[lhs](_ => false);
    var matcherMatched := new bool[rhs](_ => false);
    ghost var g := matrix.GraphOf();
    NothingMarked(lhs, rhs);
    assert Scanned(g, 0, 0) == {};
    for ilhs := 0 to lhs
      invariant Marked(Scanned(g, ilhs, 0), elementMatched[..], matcherMatched[..])
    {
      for irhs := 0 to rhs
        invariant Marked(Scanned(g, ilhs, irhs), elementMatched[..], matcherMatched[..])
      {
        ghost var elements, matchers := elementMatched[..], matcherMatched[..];
        var matched := matrix.HasEdge(ilhs, irhs);
        elementMatched[ilhs] := elementMatched[ilhs] || matched;
        matcherMatched[irhs] := matcherMatched[irhs] || matched;
        ScanOne(g, ilhs, irhs, elements, matchers);
        assert elementMatched[..] == elements[ilhs := elements[ilhs] || matched];
        assert matcherMatched[..] == matchers[irhs := matchers[irhs] || matched];
      }
      assert Scanned(g, ilhs, rhs) == Scanned(g, ilhs + 1, 0);
    }
    assert Scanned(g, lhs, 0) == g.edges;
    result := true;
    for mi := 0 to rhs
      invariant result <==> forall r: nat :: r < mi ==> matcherMatched[r]
    {
      if matcherMatched[mi] {
        continue;
      }
      result := false;
    }
    for ei := 0 to lhs
      invariant result <==> (forall r: nat :: r < rhs ==> matcherMatched[r]) && forall l: nat :: l < ei ==> elementMatched[l]
    {
      if elementMatched[ei] {
        continue;
      }
      result := false;
    }
  }

  /** The matcher accepts exactly when some permutation of the elements satisfies all matchers. */
  method MatchAndExplain(matrix: MatchMatrix) returns (result: bool)
    requires matrix.Valid()
    ensures result <==> matrix.numElements == matrix.numMatchers && HasAssignment(matrix.GraphOf())
  {
    var actualCount := matrix.numElements;
    if actualCount == 0 && matrix.numMatchers == 0 {
      assert IsAssignment(matrix.GraphOf(), []);
      return true;
    }
    if actualCount != matrix.numMatchers {
      return false;
    }
    result := VerifyAllElementsAndMatchersAreMatched(matrix);
    if result {
      result := FindPairing(matrix);
    } else if HasAssignment(matrix.GraphOf()) {
      QuickCheckIsSound(matrix.GraphOf());
      assert false;
    }
  }
}
