/** Google Mock's ordered expectations: the prerequisite graph, and what calls do to it. */
module Expectations {

  class ExpectationBase {
    // When the expectation was created; an expectation is only ever linked to older ones.
    ghost const order: nat
    // Between(minCalls, maxCalls)
    const minCalls: nat
    const maxCalls: nat
    const retiresOnSaturation: bool
    var callCount: nat
    var retired: bool
    var prerequisites: set<ExpectationBase>

    constructor (ghost order: nat, minCalls: nat, maxCalls: nat, retiresOnSaturation: bool)
      requires minCalls <= maxCalls
      ensures this.order == order && this.minCalls == minCalls && this.maxCalls == maxCalls
      ensures this.retiresOnSaturation == retiresOnSaturation
      ensures callCount == 0 && !retired && prerequisites == {}
    {
      this.order, this.minCalls, this.maxCalls := order, minCalls, maxCalls;
      this.retiresOnSaturation := retiresOnSaturation;
      callCount, retired, prerequisites := 0, false, {};
    }

    predicate IsSatisfied()
      reads this`callCount
    {
      minCalls <= callCount <= maxCalls
    }

    predicate IsSaturated()
      reads this`callCount
    {
      callCount >= maxCalls
    }

    method Retire()
      modifies this`retired
      ensures retired
    {
      retired := true;
    }

    /** Retires exactly the transitive prerequisites. If this expectation is retired itself there is
        nothing left to do, which is what makes leaving early right. */
    method RetireAllPreRequisites(ghost all: set<ExpectationBase>)
      requires this in all && Dag(all) && Closed(all)
      modifies all`retired
      ensures Closed(all)
      ensures forall x :: x in all ==> (x.retired <==> old(x.retired) || Requires(this, x, all))
      decreases order
    {
      if retired {
        RetiredReach(this, all);
        return;
      }
      var rest := prerequisites;
      while rest != {}
        invariant rest <= prerequisites
        invariant Closed(all)
        invariant forall x :: x in all ==> (x.retired <==> old(x.retired) || Reached(prerequisites - rest, x, all))
      {
        var p :| p in rest;
        ghost var done := prerequisites - rest;
        rest := rest - {p};
        assert prerequisites - rest == done + {p};
        if p.retired {
          RetiredReach(p, all);
        } else {
          p.RetireAllPreRequisites(all);
          p.Retire();
        }
        ReachedMore(done, p, all);
      }
      assert prerequisites - rest == prerequisites;
    }

    /** True exactly when every transitive prerequisite has been called a number of times within its
        bounds. */
    method AllPrerequisitesAreSatisfied(ghost all: set<ExpectationBase>) returns (b: bool)
      requires this in all && Dag(all)
      ensures b <==> forall x :: x in all && Requires(this, x, all) ==> x.minCalls <= x.callCount <= x.maxCalls
      decreases order
    {
      var rest := prerequisites;
      while rest != {}
        invariant rest <= prerequisites
        invariant forall q :: q in prerequisites - rest ==> q.minCalls <= q.callCount <= q.maxCalls && PrerequisitesSatisfied(q, all)
      {
        var p :| p in rest;
        rest := rest - {p};
        assert Requires(this, p, all);
        if !p.IsSatisfied() {
          return false;
        }
        var satisfied := p.AllPrerequisitesAreSatisfied(all);
        if !satisfied {
          ghost var x :| x in all && Requires(p, x, all) && !(x.minCalls <= x.callCount <= x.maxCalls);
          assert Requires(this, x, all);
          return false;
        }
      }
      assert prerequisites - rest == prerequisites;
      SatisfiedThroughout(this, all);
      return true;
    }

    /** Adds exactly the unmet prerequisites to result: unsatisfied ones, and at least one if there is
        any, although it does not look behind a satisfied prerequisite that has been called. */
    method FindUnsatisfiedPrerequisites(result: set<ExpectationBase>, ghost all: set<ExpectationBase>)
      returns (found: set<ExpectationBase>)
      requires this in all && Dag(all)
      ensures result <= found <= result + all
      ensures forall x :: x in all ==> (x in found <==> x in result || Unmet(this, x, all))
      ensures forall x :: x in found - result ==> Requires(this, x, all) && !(x.minCalls <= x.callCount <= x.maxCalls)
      ensures Orderly(all) && !PrerequisitesSatisfied(this, all) ==>
                exists x :: x in found && x in all && Requires(this, x, all) && !(x.minCalls <= x.callCount <= x.maxCalls)
      decreases order
    {
      found := result;
      var rest := prerequisites;
      while rest != {}
        invariant rest <= prerequisites
        invariant result <= found <= result + all
        invariant forall x :: x in all ==> (x in found <==> x in result || UnmetAmong(prerequisites - rest, x, all))
      {
        var p :| p in rest;
        ghost var done := prerequisites - rest;
        rest := rest - {p};
        assert prerequisites - rest == done + {p};
        UnmetMore(done, p, all);
        if p.IsSatisfied() {
          if p.callCount == 0 {
            found := p.FindUnsatisfiedPrerequisites(found, all);
          }
        } else {
          found := found + {p};
        }
      }
      assert prerequisites - rest == prerequisites;
      forall x | x in all && Unmet(this, x, all)
        ensures Requires(this, x, all) && !(x.minCalls <= x.callCount <= x.maxCalls)
      {
        UnmetIsRequired(this, x, all);
      }
      if Orderly(all) {
        UnmetIff(this, all);
      }
    }

    /** Whether a call with matching arguments goes to this expectation. */
    method ShouldHandleArguments(ghost all: set<ExpectationBase>) returns (b: bool)
      requires this in all && Dag(all)
      ensures b <==> !retired && forall x :: x in all && Requires(this, x, all) ==> x.minCalls <= x.callCount <= x.maxCalls
    {
      b := !retired;
      if b {
        b := AllPrerequisitesAreSatisfied(all);
      }
    }

    /** A call this expectation has agreed to handle; excessive is true if it was one too many. */
    method GetActionForArguments(ghost all: set<ExpectationBase>) returns (excessive: bool)
      requires this in all && Orderly(all)
      requires !retired && PrerequisitesSatisfied(this, all)
      modifies this`callCount, all`retired
      ensures Orderly(all)
      ensures excessive <==> old(callCount) >= maxCalls
      ensures callCount == old(callCount) + 1
      ensures forall x :: x in all ==>
                (x.retired <==> old(x.retired)
                                || (!excessive && (Requires(this, x, all) || (x == this && retiresOnSaturation && callCount >= maxCalls))))
    {
      if IsSaturated() {
        callCount := callCount + 1;
        return true;
      }
      callCount := callCount + 1;
      RetireAllPreRequisites(all);
      NotOwnPrerequisite(this, this, all);
      if retiresOnSaturation && IsSaturated() {
        Retire();
      }
      return false;
    }
  }

  /** The expectations of a test and the links between them: newer ones depend on older ones. */
  ghost predicate Dag(all: set<ExpectationBase>)
    reads all`prerequisites
  {
    forall e, p :: e in all && p in e.prerequisites ==> p in all && p.order < e.order
  }

  /** x is a prerequisite of e, or of one of its prerequisites, and so on. */
  ghost predicate Requires(e: ExpectationBase, x: ExpectationBase, all: set<ExpectationBase>)
    requires e in all && Dag(all)
    reads all`prerequisites
    decreases e.order
  {
    exists p :: p in e.prerequisites && (p == x || Requires(p, x, all))
  }

  /** x is in es or required by one of them. */
  ghost predicate Reached(es: set<ExpectationBase>, x: ExpectationBase, all: set<ExpectationBase>)
    requires es <= all && Dag(all)
    reads all`prerequisites
  {
    exists p :: p in es && (p == x || Requires(p, x, all))
  }

  lemma ReachedMore(es: set<ExpectationBase>, p: ExpectationBase, all: set<ExpectationBase>)
    requires es <= all && p in all && Dag(all)
    ensures forall x :: x in all ==> (Reached(es + {p}, x, all) <==> Reached(es, x, all) || p == x || Requires(p, x, all))
  {
  }

  /** An expectation is never retired before all its prerequisites. */
  ghost predicate Closed(all: set<ExpectationBase>)
    reads all`prerequisites, all`retired
  {
    forall e, p :: e in all && e.retired && p in e.prerequisites && p in all ==> p.retired
  }

  ghost predicate PrerequisitesSatisfied(e: ExpectationBase, all: set<ExpectationBase>)
    requires e in all && Dag(all)
    reads all`prerequisites, all`callCount
  {
    forall x :: x in all && Requires(e, x, all) ==> x.minCalls <= x.callCount <= x.maxCalls
  }

  lemma SatisfiedThroughout(e: ExpectationBase, all: set<ExpectationBase>)
    requires e in all && Dag(all)
    ensures (forall q :: q in e.prerequisites ==> q.minCalls <= q.callCount <= q.maxCalls && PrerequisitesSatisfied(q, all))
            <==> PrerequisitesSatisfied(e, all)
  {
  }

  /** x stands unsatisfied in the way of e: e requires it directly, or through satisfied prerequisites
      that have not been called. */
  ghost predicate Unmet(e: ExpectationBase, x: ExpectationBase, all: set<ExpectationBase>)
    requires e in all && Dag(all)
    reads all`prerequisites, all`callCount
    decreases e.order, 0
  {
    exists p :: p in e.prerequisites && UnmetThrough(p, x, all)
  }

  ghost predicate UnmetThrough(p: ExpectationBase, x: ExpectationBase, all: set<ExpectationBase>)
    requires p in all && Dag(all)
    reads all`prerequisites, all`callCount
    decreases p.order, 1
  {
    if p.minCalls <= p.callCount <= p.maxCalls then p.callCount == 0 && Unmet(p, x, all) else p == x
  }

  ghost predicate UnmetAmong(es: set<ExpectationBase>, x: ExpectationBase, all: set<ExpectationBase>)
    requires es <= all && Dag(all)
    reads all`prerequisites, all`callCount
  {
    exists p :: p in es && UnmetThrough(p, x, all)
  }

  lemma UnmetMore(es: set<ExpectationBase>, p: ExpectationBase, all: set<ExpectationBase>)
    requires es <= all && p in all && Dag(all)
    ensures forall x :: x in all ==> (UnmetAmong(es + {p}, x, all) <==> UnmetAmong(es, x, all) || UnmetThrough(p, x, all))
  {
  }

  lemma {:induction false} UnmetIsRequired(e: ExpectationBase, x: ExpectationBase, all: set<ExpectationBase>)
    requires e in all && Dag(all) && Unmet(e, x, all)
    ensures x in all && Requires(e, x, all) && !(x.minCalls <= x.callCount <= x.maxCalls)
    decreases e.order
  {
    var p :| p in e.prerequisites && UnmetThrough(p, x, all);
    if p.minCalls <= p.callCount <= p.maxCalls {
      UnmetIsRequired(p, x, all);
    }
  }

  /** Everything a retired expectation requires is retired. */
  lemma {:induction false} RetiredReach(e: ExpectationBase, all: set<ExpectationBase>)
    requires e in all && Dag(all) && Closed(all) && e.retired
    ensures forall x :: x in all && Requires(e, x, all) ==> x.retired
    decreases e.order
  {
    forall x | x in all && Requires(e, x, all)
      ensures x.retired
    {
      var p :| p in e.prerequisites && (p == x || Requires(p, x, all));
      RetiredReach(p, all);
    }
  }

  lemma {:induction false} NotOwnPrerequisite(e: ExpectationBase, x: ExpectationBase, all: set<ExpectationBase>)
    requires e in all && Dag(all)
    ensures Requires(e, x, all) ==> x in all && x.order < e.order
    decreases e.order
  {
    if Requires(e, x, all) {
      var p :| p in e.prerequisites && (p == x || Requires(p, x, all));
      NotOwnPrerequisite(p, x, all);
    }
  }

  /** What holds between calls: retired expectations are satisfied, and so is everything they, or any
      expectation that may be called and has been, require; and all of that is retired. */
  ghost predicate Orderly(all: set<ExpectationBase>)
    reads all`prerequisites, all`retired, all`callCount
  {
    && Dag(all)
    && Closed(all)
    && (forall e :: e in all ==> e.minCalls <= e.maxCalls)
    && (forall e :: e in all && e.retired ==> e.minCalls <= e.callCount <= e.maxCalls)
    && (forall e, p :: e in all && 0 < e.callCount && 0 < e.maxCalls && p in e.prerequisites ==> p.retired)
  }

  /** Once an expectation has been called within its bounds, all it requires is retired and satisfied,
      for good: a retired expectation takes no more calls. */
  lemma CalledIsSettled(e: ExpectationBase, all: set<ExpectationBase>)
    requires e in all && Orderly(all) && 0 < e.callCount && e.minCalls <= e.callCount <= e.maxCalls
    ensures PrerequisitesSatisfied(e, all)
    ensures forall x :: x in all && Requires(e, x, all) ==> x.retired && x.minCalls <= x.callCount <= x.maxCalls
  {
    forall x | x in all && Requires(e, x, all)
      ensures x.retired && x.minCalls <= x.callCount <= x.maxCalls
    {
      var p :| p in e.prerequisites && (p == x || Requires(p, x, all));
      RetiredReach(p, all);
    }
  }

  /** Between calls nothing is overlooked: something is unmet exactly if not all is satisfied. */
  lemma {:induction false} UnmetIff(e: ExpectationBase, all: set<ExpectationBase>)
    requires e in all && Orderly(all)
    ensures (exists x :: x in all && Unmet(e, x, all)) <==> !PrerequisitesSatisfied(e, all)
    decreases e.order
  {
    if y :| y in all && Requires(e, y, all) && !(y.minCalls <= y.callCount <= y.maxCalls) {
      var p :| p in e.prerequisites && (p == y || Requires(p, y, all));
      if !(p.minCalls <= p.callCount <= p.maxCalls) {
        assert Unmet(e, p, all);
      } else if p.callCount == 0 {
        UnmetIff(p, all);
        var x :| x in all && Unmet(p, x, all);
        assert UnmetThrough(p, x, all) && Unmet(e, x, all);
      } else {
        CalledIsSettled(p, all);
        assert false;
      }
    }
    forall x | x in all && Unmet(e, x, all)
      ensures !PrerequisitesSatisfied(e, all)
    {
      UnmetIsRequired(e, x, all);
    }
  }

  // ---------------------------------------------------------------------------
  // Sequences

  class Sequence {
    var last: ExpectationBase?
    // the expectations added, in order
    ghost var members: seq<ExpectationBase>

    constructor ()
      ensures last == null && members == []
    {
      last, members := null, [];
    }

    ghost predicate Valid(all: set<ExpectationBase>)
      reads this, all`prerequisites
    {
      && (last == null <==> members == [])
      && (last != null ==> last == members[|members| - 1])
      && (forall i :: 0 <= i < |members| ==> members[i] in all)
      && (forall i :: 0 < i < |members| ==> members[i - 1] in members[i].prerequisites)
    }

    /** Links e behind the expectation added last. Adding the same one again changes nothing. */
    method AddExpectation(e: ExpectationBase, ghost all: set<ExpectationBase>)
      requires e in all && Dag(all) && Valid(all)
      requires last != null && last != e ==> last.order < e.order
      modifies this, e`prerequisites
      ensures Dag(all) && Valid(all)
      ensures last == e
      ensures members == if old(last) == e then old(members) else old(members) + [e]
      ensures e.prerequisites == if old(last) == e || old(last) == null then old(e.prerequisites)
                                 else old(e.prerequisites) + {old(last)}
      // an expectation that is still being set up keeps the order of calls intact
      ensures old(Orderly(all)) && !e.retired && e.callCount == 0 ==> Orderly(all)
      // in general the new link must not lead from a retired expectation to one that is not
      ensures old(Closed(all)) ==>
                (Closed(all) <==> !(e.retired && old(last) != null && old(last) != e && !old(last).retired))
    {
      if last != e {
        if last != null {
          e.prerequisites := e.prerequisites + {last};
        }
        last := e;
        members := members + [e];
      }
    }
  }

  /** Within a sequence, every expectation requires all those before it. */
  lemma {:induction false} SequenceIsTotal(s: Sequence, all: set<ExpectationBase>, i: nat, j: nat)
    requires Dag(all) && s.Valid(all) && i < j < |s.members|
    ensures Requires(s.members[j], s.members[i], all)
    decreases j
  {
    var p := s.members[j - 1];
    assert p in s.members[j].prerequisites;
    if i < j - 1 {
      SequenceIsTotal(s, all, i, j - 1);
    }
  }

  /** So when a later member of a sequence has been called within its bounds, every earlier one is
      satisfied and can be called no more. */
  lemma SequenceOrder(s: Sequence, all: set<ExpectationBase>, i: nat, j: nat)
    requires Orderly(all) && s.Valid(all) && i < j < |s.members|
    requires 0 < s.members[j].callCount && s.members[j].minCalls <= s.members[j].callCount <= s.members[j].maxCalls
    ensures s.members[i].retired && s.members[i].minCalls <= s.members[i].callCount <= s.members[i].maxCalls
  {
    SequenceIsTotal(s, all, i, j);
    CalledIsSettled(s.members[j], all);
  }
}
