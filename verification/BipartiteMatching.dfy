/** Google Mock's maximum bipartite matching: depth-first augmentation over two arrays that are
    allowed to disagree while the recursion unwinds. */
module BipartiteMatching {
  import opened Matching
  import opened MatchMatrices

  /** right without the entry r, the one a re-routed left node leaves behind. */
  ghost function Unlink(right: seq<int>, r: int): (s: seq<int>)
    requires r != UNUSED ==> 0 <= r < |right|
    ensures |s| == |right|
  {
    if r == UNUSED then right else right[r := UNUSED]
  }

  /** The right nodes not yet reached by the current search. */
  ghost function Unseen(seen: seq<bool>): set<nat> {
    set r: nat | r < |seen| && !seen[r]
  }

  ghost function Seen(seen: seq<bool>): set<nat> {
    set r: nat | r < |seen| && seen[r]
  }

  /** Every right node joined to l has been reached. */
  ghost predicate NeighboursSeen(g: Graph, seen: seq<bool>, l: int) {
    forall e :: e in g.edges && e.0 == l ==> e.1 < |seen| && seen[e.1]
  }

  /** The search has only marked nodes since seen0, and each node it marked was a dead end: it is
      fed by a left node all of whose neighbours have been reached too. */
  ghost predicate DeadEnds(g: Graph, right: seq<int>, seen0: seq<bool>, seen: seq<bool>) {
    && |seen0| == |seen| == |right|
    && (forall r :: 0 <= r < |seen| && seen0[r] ==> seen[r])
    && (forall r :: 0 <= r < |seen| && seen[r] && !seen0[r] ==>
          right[r] != UNUSED && NeighboursSeen(g, seen, right[r]))
  }

  /** What a successful search from l may have done to the two arrays. */
  ghost predicate Augmented(g: Graph, left0: seq<int>, right0: seq<int>, seen0: seq<bool>,
                            left: seq<int>, right: seq<int>, l: int)
  {
    && 0 <= l < |left0| == |left| == g.lhs
    && |right0| == |right| == |seen0| == g.rhs
    // l now carries flow; every other left node does exactly if it did before
    && left[l] != UNUSED
    && (forall k :: 0 <= k < |left| && k != l ==> (left[k] == UNUSED <==> left0[k] == UNUSED))
    // no right node loses its flow
    && (forall r :: 0 <= r < |right| && right0[r] != UNUSED ==> right[r] != UNUSED)
    // nodes reached before the search started, and the left nodes they feed from, are not touched
    && (forall r :: 0 <= r < |right| && seen0[r] ==> right[r] == right0[r])
    && (forall k :: 0 <= k < |left| && k != l && 0 <= left0[k] < |seen0| && seen0[left0[k]] ==> left[k] == left0[k])
    // the arrays agree, except that the node l was linked to before still names l
    && (left0[l] == UNUSED || 0 <= left0[l] < |right|)
    && (left0[l] != UNUSED ==> right[left0[l]] == l)
    && Mutual(g, left, Unlink(right, left0[l]))
  }

  /** Closed pairs stop every augmentation and survive the others. */
  ghost predicate KeepsClosedPairs(g: Graph, right0: seq<int>, right: seq<int>, l: int) {
    forall a: set<nat>, b: set<nat> :: Closed(g, right0, a, b) ==> l !in a && Closed(g, right, a, b)
  }

  /** Linking l straight to a free right node. */
  lemma LinkToFree(g: Graph, left0: seq<int>, right0: seq<int>, seen0: seq<bool>, l: nat, r: nat)
    requires ValidGraph(g) && Mutual(g, left0, right0) && |seen0| == |right0|
    requires l < g.lhs && r < g.rhs && (l, r) in g.edges
    requires right0[r] == UNUSED && !seen0[r]
    requires left0[l] != UNUSED ==> seen0[left0[l]]
    ensures Augmented(g, left0, right0, seen0, left0[l := r], right0[r := l], l)
    ensures KeepsClosedPairs(g, right0, right0[r := l], l)
    ensures HasAugmentingPath(g, right0, l)
  {
    var e := (l, r);
    assert e in g.edges;
    assert IsAugmentingPath(g, right0, l, [r]);
  }

  /** Taking r over from the left node that fed it, once the search has re-routed that node: this
      repairs the one entry the re-routing left stale. */
  lemma LinkToRerouted(g: Graph, left0: seq<int>, right0: seq<int>, seen0: seq<bool>, seen1: seq<bool>,
                       left1: seq<int>, right1: seq<int>, l: nat, r: nat)
    requires ValidGraph(g) && Mutual(g, left0, right0) && |seen0| == |right0|
    requires l < g.lhs && r < g.rhs && (l, r) in g.edges
    requires right0[r] != UNUSED && !seen0[r]
    requires left0[l] != UNUSED ==> seen0[left0[l]]
    requires |seen1| == |seen0| && seen1[r] && forall k :: 0 <= k < |seen0| && seen0[k] ==> seen1[k]
    requires Augmented(g, left0, right0, seen1, left1, right1, right0[r])
    requires KeepsClosedPairs(g, right0, right1, right0[r])
    requires HasAugmentingPath(g, right0, right0[r])
    ensures Augmented(g, left0, right0, seen0, left1[l := r], right1[r := l], l)
    ensures KeepsClosedPairs(g, right0, right1[r := l], l)
    ensures HasAugmentingPath(g, right0, l)
  {
    hide KeepsClosedPairs, HasAugmentingPath;
    assert |right0| == |right1| == g.rhs;
    hide Augmented, Mutual;
    RerouteAugments(g, left0, right0, seen0, seen1, left1, right1, l, r);
    RerouteKeepsClosed(g, right0, right1, l, r);
    ExtendPath(g, right0, l, r);
  }

  lemma RerouteAugments(g: Graph, left0: seq<int>, right0: seq<int>, seen0: seq<bool>, seen1: seq<bool>,
                        left1: seq<int>, right1: seq<int>, l: nat, r: nat)
    requires ValidGraph(g) && Mutual(g, left0, right0) && |seen0| == |right0|
    requires l < g.lhs && r < g.rhs && (l, r) in g.edges
    requires right0[r] != UNUSED && !seen0[r]
    requires left0[l] != UNUSED ==> seen0[left0[l]]
    requires |seen1| == |seen0| && seen1[r] && forall k :: 0 <= k < |seen0| && seen0[k] ==> seen1[k]
    requires Augmented(g, left0, right0, seen1, left1, right1, right0[r])
    ensures Augmented(g, left0, right0, seen0, left1[l := r], right1[r := l], l)
  {
    var right' := right1[r := UNUSED];
    assert left0[right0[r]] == r && right1[r] == right0[r];
    assert l != right0[r] && left1[l] == left0[l];
    assert Mutual(g, left1, right');
    assert Mutual(g, left1[l := r], Unlink(right1[r := l], left0[l])) by {
      assert right'[r := l] == right1[r := l];
      LinkKeepsMutual(g, left1, right', l, r);
    }
  }

  lemma ExtendPath(g: Graph, right: seq<int>, l: nat, r: nat)
    requires r < |right| && (l, r) in g.edges && right[r] != UNUSED
    requires HasAugmentingPath(g, right, right[r])
    ensures HasAugmentingPath(g, right, l)
  {
    var path :| IsAugmentingPath(g, right, right[r], path);
    assert ([r] + path)[1..] == path;
    assert IsAugmentingPath(g, right, l, [r] + path);
  }

  lemma RerouteKeepsClosed(g: Graph, right0: seq<int>, right1: seq<int>, l: nat, r: nat)
    requires r < |right0| == |right1| && (l, r) in g.edges
    requires KeepsClosedPairs(g, right0, right1, right0[r])
    ensures KeepsClosedPairs(g, right0, right1[r := l], l)
  {
    forall a: set<nat>, b: set<nat> | Closed(g, right0, a, b)
      ensures l !in a && Closed(g, right1[r := l], a, b)
    {
      assert Closed(g, right1, a, b) && right0[r] !in a;
      var e := (l, r);
      assert e in g.edges;
    }
  }

  /** Re-pointing l at a free r leaves mutual references, but for the node l named before. */
  lemma LinkKeepsMutual(g: Graph, left: seq<int>, right: seq<int>, l: nat, r: nat)
    requires ValidGraph(g) && Mutual(g, left, right)
    requires l < g.lhs && r < g.rhs && (l, r) in g.edges && right[r] == UNUSED
    ensures Mutual(g, left[l := r], Unlink(right[r := l], left[l]))
  {
  }

  lemma DeadEndsGrow(g: Graph, right: seq<int>, seen0: seq<bool>, seen1: seq<bool>, seen2: seq<bool>, r: nat)
    requires DeadEnds(g, right, seen0, seen1)
    requires r < |seen1| && !seen1[r]
    requires DeadEnds(g, right, seen1[r := true], seen2)
    requires right[r] != UNUSED && NeighboursSeen(g, seen2, right[r])
    ensures DeadEnds(g, right, seen0, seen2)
  {
  }

  /** Once a search from l has failed, the nodes it reached are a closed pair around l. */
  lemma FailureIsClosed(g: Graph, right: seq<int>, seen0: seq<bool>, seen: seq<bool>, l: nat)
    requires ValidGraph(g) && |right| == g.rhs
    requires forall r :: 0 <= r < |seen0| ==> !seen0[r]
    requires DeadEnds(g, right, seen0, seen) && NeighboursSeen(g, seen, l)
    requires forall r :: 0 <= r < |right| && right[r] != UNUSED ==> 0 <= right[r]
    ensures l in Reached(right, seen, l)
    ensures Closed(g, right, Reached(right, seen, l), Seen(seen))
    ensures !HasAugmentingPath(g, right, l)
  {
    var a, b := Reached(right, seen, l), Seen(seen);
    forall e | e in g.edges && e.0 in a
      ensures e.1 in b
    {
      if e.0 != l {
        var r: nat :| r < |seen| && r < |right| && seen[r] && 0 <= right[r] && right[r] == e.0;
        assert NeighboursSeen(g, seen, right[r]);
      }
    }
    forall path | IsAugmentingPath(g, right, l, path)
      ensures false
    {
      ClosedBlocksPaths(g, right, a, b, l, path);
    }
  }

  /** The left nodes a search from l has been through. */
  ghost function Reached(right: seq<int>, seen: seq<bool>, l: nat): set<nat> {
    {l} + set r: nat | r < |seen| && r < |right| && seen[r] && 0 <= right[r] :: right[r]
  }

  /** Trying each left node once is enough: after a failed search from l, no run of augmentations,
      from whatever nodes, ever opens an augmenting path for l. rights[i + 1] is what the i-th
      augmentation, from starts[i], makes of rights[i]. */
  lemma {:induction false} OnceIsEnough(g: Graph, seen0: seq<bool>, seen: seq<bool>, l: nat,
                                        rights: seq<seq<int>>, starts: seq<int>)
    requires ValidGraph(g) && |rights| == |starts| + 1 && |rights[0]| == g.rhs
    requires forall r :: 0 <= r < |seen0| ==> !seen0[r]
    requires DeadEnds(g, rights[0], seen0, seen) && NeighboursSeen(g, seen, l)
    requires forall r :: 0 <= r < |rights[0]| && rights[0][r] != UNUSED ==> 0 <= rights[0][r]
    requires forall i :: 0 <= i < |starts| ==> KeepsClosedPairs(g, rights[i], rights[i + 1], starts[i])
    ensures forall i :: 0 <= i < |rights| ==> !HasAugmentingPath(g, rights[i], l)
    ensures l !in starts
  {
    FailureIsClosed(g, rights[0], seen0, seen, l);
    var a, b := Reached(rights[0], seen, l), Seen(seen);
    for i := 0 to |starts|
      invariant Closed(g, rights[i], a, b)
      invariant l !in starts[..i]
      invariant forall k :: 0 <= k < i ==> !HasAugmentingPath(g, rights[k], l)
    {
      assert KeepsClosedPairs(g, rights[i], rights[i + 1], starts[i]);
      ClosedHasNoPath(g, rights[i], a, b, l);
    }
    ClosedHasNoPath(g, rights[|starts|], a, b, l);
  }

  // ---------------------------------------------------------------------------
  // The resulting pairs

  /** The pairs of the first n left nodes, in order. */
  ghost function Pairs(left: seq<int>, n: nat): seq<Edge>
    requires n <= |left|
    requires forall l :: 0 <= l < |left| ==> 0 <= left[l]
  {
    if n == 0 then []
    else if left[n - 1] == UNUSED then Pairs(left, n - 1)
    else Pairs(left, n - 1) + [(n - 1, left[n - 1])]
  }

  ghost function EdgeSet(pairs: seq<Edge>): set<Edge> {
    set e | e in pairs
  }

  /** pairs is a matching of g, without repetition, and no matching of g has more edges. */
  ghost predicate IsMaximum(g: Graph, pairs: seq<Edge>) {
    && |EdgeSet(pairs)| == |pairs|
    && IsMatching(g, EdgeSet(pairs))
    && forall m :: IsMatching(g, m) ==> |m| <= |pairs|
  }

  lemma PairsOfFirst(left: seq<int>, n: nat)
    requires n <= |left|
    requires forall l :: 0 <= l < |left| ==> 0 <= left[l]
    ensures forall e :: e in EdgeSet(Pairs(left, n)) <==> e.0 < n && left[e.0] != UNUSED && left[e.0] == e.1
    ensures |EdgeSet(Pairs(left, n))| == |Pairs(left, n)| == |UsedLeft(left[..n])|
  {
    hide UsedLeft, EdgeSet, Pairs;
    PairsAre(left, n);
    PairsCount(left, n);
  }

  lemma {:induction false} PairsAre(left: seq<int>, n: nat)
    requires n <= |left|
    requires forall l :: 0 <= l < |left| ==> 0 <= left[l]
    ensures forall e :: e in EdgeSet(Pairs(left, n)) <==> e.0 < n && left[e.0] != UNUSED && left[e.0] == e.1
  {
    hide EdgeSet;
    if n == 0 {
      NothingUsed();
    } else {
      PairsAre(left, n - 1);
      if left[n - 1] != UNUSED {
        EdgeSetGrows(Pairs(left, n - 1), (n - 1, left[n - 1]));
      }
    }
  }

  lemma {:induction false} PairsCount(left: seq<int>, n: nat)
    requires n <= |left|
    requires forall l :: 0 <= l < |left| ==> 0 <= left[l]
    ensures |EdgeSet(Pairs(left, n))| == |Pairs(left, n)| == |UsedLeft(left[..n])|
  {
    hide UsedLeft, EdgeSet;
    if n == 0 {
      NothingUsed();
    } else {
      PairsCount(left, n - 1);
      UsedOfOneMore(left, n - 1);
      if left[n - 1] != UNUSED {
        PairsAre(left, n - 1);
        EdgeSetGrows(Pairs(left, n - 1), (n - 1, left[n - 1]));
      }
    }
  }

  lemma NothingUsed()
    ensures UsedLeft([]) == {} && EdgeSet([]) == {}
  {
  }

  lemma UsedOfOneMore(left: seq<int>, n: nat)
    requires n < |left|
    ensures |UsedLeft(left[..n + 1])| == |UsedLeft(left[..n])| + (if left[n] == UNUSED then 0 else 1)
  {
    var used, used' := UsedLeft(left[..n]), UsedLeft(left[..n + 1]);
    if left[n] == UNUSED {
      assert used' == used;
    } else {
      assert used' == used + {n};
      assert n !in used;
    }
  }

  lemma EdgeSetGrows(pairs: seq<Edge>, e: Edge)
    ensures EdgeSet(pairs + [e]) == EdgeSet(pairs) + {e}
    ensures |EdgeSet(pairs + [e])| == |EdgeSet(pairs)| + (if e in EdgeSet(pairs) then 0 else 1)
  {
  }

  /** The main loop after its first n searches: nodes not tried yet carry no flow, and those tried
      in vain lie in a, for some closed (a, b). */
  ghost predicate Progress(g: Graph, left: seq<int>, right: seq<int>, a: set<nat>, b: set<nat>, n: int) {
    && ValidGraph(g)
    && Mutual(g, left, right)
    && Closed(g, right, a, b)
    && (forall l :: n <= l < |left| ==> 0 <= l && left[l] == UNUSED)
    && (forall l :: 0 <= l < n && l < |left| && left[l] == UNUSED ==> l in a)
  }

  lemma ProgressAtStart(g: Graph, left: seq<int>, right: seq<int>)
    requires ValidGraph(g) && Mutual(g, left, right) && UsedLeft(left) == {}
    ensures Progress(g, left, right, {}, {}, 0)
  {
    assert forall l: nat :: l < |left| && left[l] != UNUSED ==> l in UsedLeft(left);
  }

  lemma ProgressAfterSuccess(g: Graph, left0: seq<int>, right0: seq<int>, seen0: seq<bool>,
                             left: seq<int>, right: seq<int>, a: set<nat>, b: set<nat>, n: nat)
    requires n < |left0| && Progress(g, left0, right0, a, b, n)
    requires Augmented(g, left0, right0, seen0, left, right, n)
    requires KeepsClosedPairs(g, right0, right, n)
    ensures Progress(g, left, right, a, b, n + 1)
  {
  }

  lemma ProgressAfterFailure(g: Graph, left: seq<int>, right: seq<int>, seen0: seq<bool>, seen: seq<bool>,
                             a: set<nat>, b: set<nat>, n: nat)
    requires n < |left| && Progress(g, left, right, a, b, n)
    requires forall r :: 0 <= r < |seen0| ==> !seen0[r]
    requires DeadEnds(g, right, seen0, seen) && NeighboursSeen(g, seen, n)
    ensures Progress(g, left, right, a + Reached(right, seen, n), b + Seen(seen), n + 1)
  {
  }

  /** When every node has been tried, the nodes without flow have no augmenting path left, and the
      pairs are a maximum matching. */
  lemma ProgressAtEnd(g: Graph, left: seq<int>, right: seq<int>, a: set<nat>, b: set<nat>)
    requires Progress(g, left, right, a, b, |left|)
    ensures forall l :: 0 <= l < |left| ==> 0 <= left[l]
    ensures IsMaximum(g, Pairs(left, |left|))
    ensures forall l: nat :: l < |left| && left[l] == UNUSED ==> !HasAugmentingPath(g, right, l)
  {
    forall l: nat | l < |left| && left[l] == UNUSED
      ensures !HasAugmentingPath(g, right, l)
    {
      ClosedHasNoPath(g, right, a, b, l);
    }
    PairsOfFirst(left, |left|);
    assert left[..|left|] == left;
    forall m | IsMatching(g, m)
      ensures |m| <= |Pairs(left, |left|)|
    {
      ClosedBoundsMatchings(g, left, right, a, b, m);
    }
  }

  lemma {:induction false} PairsAscend(left: seq<int>, n: nat)
    requires n <= |left|
    requires forall l :: 0 <= l < |left| ==> 0 <= left[l]
    ensures forall i :: 0 <= i < |Pairs(left, n)| ==> Pairs(left, n)[i].0 < n
    ensures forall i, j :: 0 <= i < j < |Pairs(left, n)| ==> Pairs(left, n)[i].0 < Pairs(left, n)[j].0
  {
    if n > 0 {
      PairsAscend(left, n - 1);
    }
  }

  class MaxBipartiteMatchState {
    const graph: MatchMatrix
    const left: array<int>
    const right: array<int>

    ghost predicate Valid()
      reads graph, graph.matched
    {
      && graph.Valid()
      && left.Length == graph.numElements
      && right.Length == graph.numMatchers
      && left != right
      && graph.matched != left
      && graph.matched != right
    }

    constructor (graph: MatchMatrix)
      requires graph.Valid()
      ensures Valid() && this.graph == graph && fresh(left) && fresh(right)
      ensures Mutual(graph.GraphOf(), left[..], right[..])
      ensures UsedLeft(left[..]) == {}
    {
      this.graph := graph;
      left := new int[graph.numElements](_ => UNUSED);
      right := new int[graph.numMatchers](_ => UNUSED);
    }

    method TryAugment(ilhs: nat, seen: array<bool>, ghost g: Graph) returns (found: bool)
      requires Valid() && g == graph.GraphOf()
      requires ilhs < left.Length && seen.Length == right.Length
      requires Mutual(g, left[..], right[..])
      // the right node ilhs feeds is the one the search came from
      requires left[ilhs] != UNUSED ==> seen[left[ilhs]]
      modifies left, right, seen
      ensures !found ==> left[..] == old(left[..]) && right[..] == old(right[..])
      ensures !found ==> DeadEnds(g, right[..], old(seen[..]), seen[..])
      ensures !found ==> NeighboursSeen(g, seen[..], ilhs)
      ensures found ==> Augmented(g, old(left[..]), old(right[..]), old(seen[..]), left[..], right[..], ilhs)
      ensures found ==> KeepsClosedPairs(g, old(right[..]), right[..], ilhs)
      ensures found ==> HasAugmentingPath(g, old(right[..]), ilhs)
      decreases Unseen(seen[..])
    {
      hide Augmented, KeepsClosedPairs, HasAugmentingPath;
      ghost var left0, right0, seen0 := left[..], right[..], seen[..];
      for irhs := 0 to graph.numMatchers
        invariant left[..] == left0 && right[..] == right0
        invariant DeadEnds(g, right0, seen0, seen[..])
        invariant forall e :: e in g.edges && e.0 == ilhs && e.1 < irhs ==> seen[e.1]
      {
        if seen[irhs] {
          continue;
        }
        if !graph.HasEdge(ilhs, irhs) {
          continue;
        }
        ghost var seen1 := seen[..];
        seen[irhs] := true;
        assert irhs in Unseen(seen0) && irhs !in Unseen(seen[..]);
        assert seen[..] == seen1[irhs := true];
        var flows := right[irhs] == UNUSED;
        if flows {
          LinkToFree(g, left0, right0, seen0, ilhs, irhs);
        } else {
          flows := TryAugment(right[irhs], seen, g);
          if flows {
            LinkToRerouted(g, left0, right0, seen0, seen1[irhs := true], left[..], right[..], ilhs, irhs);
          } else {
            DeadEndsGrow(g, right0, seen0, seen1, seen[..], irhs);
          }
        }
        if flows {
          ghost var left1, right1 := left[..], right[..];
          left[ilhs] := irhs;
          right[irhs] := ilhs;
          assert left[..] == left1[ilhs := irhs] && right[..] == right1[irhs := ilhs];
          return true;
        }
      }
      return false;
    }

    /** Searches once from every left node. */
    method Compute(ghost g: Graph) returns (result: seq<Edge>)
      requires Valid() && g == graph.GraphOf()
      requires Mutual(g, left[..], right[..]) && UsedLeft(left[..]) == {}
      modifies left, right
      ensures Mutual(g, left[..], right[..])
      ensures IsMaximum(g, result)
      ensures (forall l :: 0 <= l < left.Length ==> 0 <= left[l]) && result == Pairs(left[..], left.Length)
      ensures forall l: nat :: l < left.Length && left[l] == UNUSED ==> !HasAugmentingPath(g, right[..], l)
    {
      hide Augmented, KeepsClosedPairs, Closed, HasAugmentingPath, DeadEnds, NeighboursSeen, IsMaximum, Reached, Seen;
      ProgressAtStart(g, left[..], right[..]);
      ghost var a: set<nat>, b: set<nat> := {}, {};
      for ilhs := 0 to left.Length
        invariant Progress(g, left[..], right[..], a, b, ilhs)
      {
        assert left[ilhs] == UNUSED;
        var seen := new bool[right.Length](_ => false);
        ghost var left0, right0, seen0 := left[..], right[..], seen[..];
        var found := TryAugment(ilhs, seen, g);
        if found {
          ProgressAfterSuccess(g, left0, right0, seen0, left[..], right[..], a, b, ilhs);
        } else {
          ProgressAfterFailure(g, left0, right0, seen0, seen[..], a, b, ilhs);
          a, b := a + Reached(right0, seen[..], ilhs), b + Seen(seen[..]);
        }
      }
      ProgressAtEnd(g, left[..], right[..], a, b);
      result := [];
      for ilhs := 0 to left.Length
        invariant result == Pairs(left[..], ilhs)
      {
        var irhs := left[ilhs];
        if irhs == UNUSED {
          continue;
        }
        result := result + [(ilhs, irhs)];
      }
    }
  }

  method FindMaxBipartiteMatching(graph: MatchMatrix) returns (result: seq<Edge>)
    requires graph.Valid()
    ensures IsMaximum(graph.GraphOf(), result)
    ensures forall i, j :: 0 <= i < j < |result| ==> result[i].0 < result[j].0
  {
    var state := new MaxBipartiteMatchState(graph);
    result := state.Compute(graph.GraphOf());
    PairsAscend(state.left[..], state.left.Length);
  }
}
