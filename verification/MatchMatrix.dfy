/** The connectivity matrix of elements and matchers, one cell per pair in element-major order,
    and its reading as a binary number that NextGraph increments. */
module MatchMatrices {
  import opened Bits
  import opened Matching

  /** A cell is a char that only ever holds 0 or 1. */
  ghost predicate IsBits(cells: seq<int>) {
    forall k :: 0 <= k < |cells| ==> cells[k] == 0 || cells[k] == 1
  }

  lemma SpaceIndexInBounds(lhs: nat, rhs: nat, l: nat, r: nat)
    requires l < lhs && r < rhs
    ensures 0 <= l * rhs + r < lhs * rhs
  {
    assert l * rhs + rhs == (l + 1) * rhs <= lhs * rhs;
  }

  class MatchMatrix {
    const numElements: nat
    const numMatchers: nat
    const matched: array<int>

    ghost predicate Valid()
      reads this, matched
    {
      && numElements <= SIZE_MAX
      && numMatchers <= SIZE_MAX
      && matched.Length == numElements * numMatchers
      && IsBits(matched[..])
    }

    constructor (numElements: nat, numMatchers: nat)
      requires numElements <= SIZE_MAX && numMatchers <= SIZE_MAX
      ensures Valid() && fresh(matched)
      ensures this.numElements == numElements && this.numMatchers == numMatchers
      ensures Value(matched[..]) == 0
      ensures GraphOf().edges == {}
    {
      this.numElements := numElements;
      this.numMatchers := numMatchers;
      matched := new int[numElements * numMatchers](_ => 0);
      new;
      ZeroValue(matched[..]);
      ZeroIsEmpty();
    }

    lemma ZeroIsEmpty()
      requires Valid() && forall k :: 0 <= k < matched.Length ==> matched[k] == 0
      ensures GraphOf().edges == {}
    {
      hide SpaceIndex;
      assert forall l: nat, r: nat :: l < numElements && r < numMatchers ==> !HasEdge(l, r);
    }

    function SpaceIndex(ilhs: nat, irhs: nat): (k: nat)
      requires ilhs < numElements && irhs < numMatchers
      ensures k < numElements * numMatchers
    {
      SpaceIndexInBounds(numElements, numMatchers, ilhs, irhs);
      ilhs * numMatchers + irhs
    }

    predicate HasEdge(ilhs: nat, irhs: nat)
      requires matched.Length == numElements * numMatchers
      requires ilhs < numElements && irhs < numMatchers
      reads this, matched
    {
      matched[SpaceIndex(ilhs, irhs)] == 1
    }

    /** The graph the matrix stands for. */
    ghost function GraphOf(): (g: Graph)
      requires Valid()
      reads this, matched
      ensures ValidGraph(g)
    {
      Graph(numElements, numMatchers,
            set l, r | 0 <= l < numElements && 0 <= r < numMatchers && HasEdge(l, r) :: (l, r))
    }

    method SetEdge(ilhs: nat, irhs: nat, b: bool)
      requires Valid()
      requires ilhs < numElements && irhs < numMatchers
      modifies matched
      ensures Valid()
      ensures GraphOf().edges == if b then old(GraphOf().edges) + {(ilhs, irhs)}
                                 else old(GraphOf().edges) - {(ilhs, irhs)}
    {
      ghost var before := GraphOf();
      ghost var cells := matched[..];
      var k := SpaceIndex(ilhs, irhs);
      matched[k] := if b then 1 else 0;
      assert matched[..] == cells[k := matched[k]];
      forall l: nat, r: nat | l < numElements && r < numMatchers
        ensures (l, r) in GraphOf().edges <==> if (l, r) == (ilhs, irhs) then b else (l, r) in before.edges
      {
        if SpaceIndex(l, r) == k {
          SpaceIndexInjective(numMatchers, l, r, ilhs, irhs);
        } else {
          assert matched[SpaceIndex(l, r)] == cells[SpaceIndex(l, r)];
        }
      }
    }

    /** Adds 1 to the matrix read as a binary number; false exactly when it wrapped round to zero. */
    method NextGraph() returns (more: bool)
      requires Valid()
      modifies matched
      ensures Valid()
      ensures IsSuccessor(old(matched[..]), matched[..])
      ensures more <==> old(Value(matched[..])) + 1 < Pow2(matched.Length)
    {
      hide Value;
      ghost var before, base := matched[..], 0;
      for ilhs := 0 to numElements
        invariant base == ilhs * numMatchers
        invariant Carried(before, matched[..], base)
      {
        RowFits(numElements, numMatchers, ilhs);
        for irhs := 0 to numMatchers
          invariant Carried(before, matched[..], base + irhs)
        {
          var k := SpaceIndex(ilhs, irhs);
          ghost var cells := matched[..];
          if matched[k] == 0 {
            matched[k] := 1;
            assert matched[..] == cells[k := 1];
            CarryStops(before, matched[..], k);
            return true;
          }
          matched[k] := 0;
          assert matched[..] == cells[k := 0];
        }
        base := base + numMatchers;
      }
      CarryRunsOut(before, matched[..]);
      return false;
    }
  }

  /** A row of cells ends where the next begins, within the matrix. */
  lemma RowFits(lhs: nat, rhs: nat, l: nat)
    requires l < lhs
    ensures l * rhs + rhs == (l + 1) * rhs <= lhs * rhs
  {
  }

  /** Distinct pairs have distinct cells. */
  lemma SpaceIndexInjective(rhs: nat, l: nat, r: nat, l': nat, r': nat)
    requires r < rhs && r' < rhs
    requires l * rhs + r == l' * rhs + r'
    ensures l == l' && r == r'
  {
    if l < l' {
      MulLower(rhs, l, l');
    } else if l' < l {
      MulLower(rhs, l', l);
    }
  }

  lemma MulLower(n: nat, l: nat, l': nat)
    requires l < l'
    ensures l * n + n <= l' * n
  {
    calc {
      l' * n - l * n - n;
      (l' - l - 1) * n;
      >= 0;
    }
  }

  // ---------------------------------------------------------------------------
  // The matrix as a number

  /** The cells read as a binary number, the first cell being the least significant bit. */
  ghost function Value(cells: seq<int>): int {
    if cells == [] then 0 else cells[0] + 2 * Value(cells[1..])
  }

  lemma {:induction false} ZeroValue(cells: seq<int>)
    requires forall k :: 0 <= k < |cells| ==> cells[k] == 0
    ensures Value(cells) == 0
  {
    if cells != [] {
      ZeroValue(cells[1..]);
    }
  }

  lemma {:induction false} ValueInRange(cells: seq<int>)
    requires IsBits(cells)
    ensures 0 <= Value(cells) < Pow2(|cells|)
  {
    if cells != [] {
      ValueInRange(cells[1..]);
    }
  }

  lemma {:induction false} ValueInjective(c: seq<int>, d: seq<int>)
    requires IsBits(c) && IsBits(d) && |c| == |d|
    requires Value(c) == Value(d)
    ensures c == d
  {
    if c != [] {
      ValueInjective(c[1..], d[1..]);
      assert c == [c[0]] + c[1..] && d == [d[0]] + d[1..];
    }
  }

  /** The carry has gone through the first n cells: all were 1 and are 0 now, the rest untouched. */
  ghost predicate Carried(before: seq<int>, after: seq<int>, n: int) {
    && |after| == |before|
    && 0 <= n <= |before|
    && (forall k :: 0 <= k < n ==> before[k] == 1 && after[k] == 0)
    && (forall k :: n <= k < |before| ==> after[k] == before[k])
    && IsBits(before)
    && IsBits(after)
  }

  lemma {:induction false} CarryStops(before: seq<int>, after: seq<int>, n: nat)
    requires IsBits(before) && IsBits(after)
    requires n < |before| == |after| && before[n] == 0 && after[n] == 1
    requires Carried(before, after[n := 0], n)
    ensures Value(after) == Value(before) + 1
    ensures Value(before) + 1 < Pow2(|before|)
  {
    ValueInRange(after);
    if n == 0 {
      assert after[1..] == before[1..];
    } else {
      assert after[n := 0][1..] == after[1..][n - 1 := 0];
      forall k | 0 <= k < |before| - 1
        ensures before[1..][k] == before[k + 1] && after[1..][n - 1 := 0][k] == after[n := 0][k + 1]
      {
      }
      CarryStops(before[1..], after[1..], n - 1);
    }
  }

  lemma {:induction false} CarryRunsOut(before: seq<int>, after: seq<int>)
    requires Carried(before, after, |before|)
    ensures Value(before) + 1 == Pow2(|before|)
    ensures Value(after) == 0
  {
    if before != [] {
      CarryRunsOut(before[1..], after[1..]);
    }
  }

  // ---------------------------------------------------------------------------
  // Enumeration of all graphs

  /** The cells left by one NextGraph. */
  ghost predicate IsSuccessor(c: seq<int>, d: seq<int>) {
    && IsBits(c) && IsBits(d) && |c| == |d|
    && Value(d) == if Value(c) + 1 < Pow2(|c|) then Value(c) + 1 else 0
  }

  /** A do-while over NextGraph that starts from the empty graph: trace[0] is empty, each entry is
      followed by its successor, and the loop ends where NextGraph reports the wrap. */
  ghost predicate IsEnumeration(trace: seq<seq<int>>, n: nat) {
    && |trace| > 0
    && (forall i :: 0 <= i < |trace| ==> |trace[i]| == n && IsBits(trace[i]))
    && Value(trace[0]) == 0
    && (forall i :: 0 <= i < |trace| - 1 ==>
          Value(trace[i]) + 1 < Pow2(n) && IsSuccessor(trace[i], trace[i + 1]))
    && Value(trace[|trace| - 1]) + 1 == Pow2(n)
  }

  /** The first passes of such a loop: pass i sees the matrix that stands for the number i. */
  ghost predicate IsPartialEnumeration(trace: seq<seq<int>>, n: nat) {
    forall i :: 0 <= i < |trace| ==> |trace[i]| == n && IsBits(trace[i]) && Value(trace[i]) == i
  }

  lemma PartialBecomesWhole(trace: seq<seq<int>>, n: nat)
    requires IsPartialEnumeration(trace, n) && |trace| == Pow2(n) > 0
    ensures IsEnumeration(trace, n)
  {
    hide Value, Pow2, IsBits;
  }

  lemma {:induction false} EnumerationValue(trace: seq<seq<int>>, n: nat, i: nat)
    requires IsEnumeration(trace, n) && i < |trace|
    ensures Value(trace[i]) == i
  {
    if i > 0 {
      EnumerationValue(trace, n, i - 1);
      assert IsSuccessor(trace[i - 1], trace[i - 1 + 1]);
    }
  }

  /** The loop NextGraph is made for: a pass for the new, empty matrix and one after every NextGraph
      that reports more. trace holds the cells each pass saw. */
  method ForAllGraphs(numElements: nat, numMatchers: nat) returns (passes: nat, ghost trace: seq<seq<int>>)
    requires numElements <= SIZE_MAX && numMatchers <= SIZE_MAX
    ensures passes == Pow2(numElements * numMatchers)
    ensures |trace| == passes && IsEnumeration(trace, numElements * numMatchers)
  {
    hide Value, Pow2, IsBits;
    var graph := new MatchMatrix(numElements, numMatchers);
    ghost var n := graph.matched.Length;
    ValueInRange(graph.matched[..]);
    passes, trace := 0, [];
    var more := true;
    while more
      invariant graph.Valid() && graph.matched.Length == n
      invariant IsPartialEnumeration(trace, n) && passes == |trace|
      invariant if more then Value(graph.matched[..]) == |trace| < Pow2(n) else |trace| == Pow2(n)
      decreases Pow2(n) - |trace|, more
    {
      trace := trace + [graph.matched[..]];
      passes := passes + 1;
      more := graph.NextGraph();
    }
    PartialBecomesWhole(trace, n);
  }

  /** The loop visits each of the 2^n graphs exactly once. */
  lemma EnumerationIsExhaustive(trace: seq<seq<int>>, n: nat, cells: seq<int>)
    requires IsEnumeration(trace, n)
    requires IsBits(cells) && |cells| == n
    ensures |trace| == Pow2(n)
    ensures exists i :: 0 <= i < |trace| && trace[i] == cells
    ensures forall i, j :: 0 <= i < |trace| && 0 <= j < |trace| && trace[i] == cells && trace[j] == cells ==> i == j
  {
    EnumerationValue(trace, n, |trace| - 1);
    ValueInRange(cells);
    var i := Value(cells);
    EnumerationValue(trace, n, i);
    ValueInjective(trace[i], cells);
    forall j | 0 <= j < |trace| && trace[j] == cells
      ensures j == i
    {
      EnumerationValue(trace, n, j);
    }
  }
}
