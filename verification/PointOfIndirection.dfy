/** PointOfIndirection: joins the base allocations and the flow allocations that
    arrive at a field access, in any order and while others are being joined. */
module PointsOfIndirection {
  import opened Reactions

  datatype Call<B, F> = AddBase(b: B) | AddFlow(f: F)

  /** What has been called is what is there. */
  ghost predicate Recorded<B(!new), F(!new)>(called: set<Call<B, F>>, bases: set<B>, flows: set<F>) {
    (forall b :: b in bases <==> AddBase(b) in called) && (forall f :: f in flows <==> AddFlow(f) in called)
  }

  /** All pairs up to now have been executed once or are still to be executed. */
  ghost predicate Joined<B(!new), F(!new)>(bases: set<B>, flows: set<F>, executed: seq<(B, F)>, pending: set<(B, F)>) {
    && (forall i, j :: 0 <= i < j < |executed| ==> executed[i] != executed[j])
    && (forall i :: 0 <= i < |executed| ==> executed[i] !in pending)
    && (forall b, f :: b in bases && f in flows <==> (b, f) in executed || (b, f) in pending)
  }

  lemma BaseArrives<B(!new), F(!new)>(bases: set<B>, flows: set<F>, executed: seq<(B, F)>, pending: set<(B, F)>, b: B)
    requires Joined(bases, flows, executed, pending) && b !in bases
    ensures Joined(bases + {b}, flows, executed, pending + set f <- flows :: (b, f))
    ensures forall f :: (b, f) !in pending
  {
    forall i | 0 <= i < |executed| ensures executed[i].0 in bases {
      assert (executed[i].0, executed[i].1) == executed[i];
    }
  }

  lemma FlowArrives<B(!new), F(!new)>(bases: set<B>, flows: set<F>, executed: seq<(B, F)>, pending: set<(B, F)>, f: F)
    requires Joined(bases, flows, executed, pending) && f !in flows
    ensures Joined(bases, flows + {f}, executed, pending + set b <- bases :: (b, f))
    ensures forall b :: (b, f) !in pending
  {
    forall i | 0 <= i < |executed| ensures executed[i].1 in flows {
      assert (executed[i].0, executed[i].1) == executed[i];
    }
  }

  lemma PairExecuted<B(!new), F(!new)>(
    bases: set<B>, flows: set<F>, executed: seq<(B, F)>, pending: set<(B, F)>, b: B, f: F)
    requires Joined(bases, flows, executed, pending) && (b, f) in pending
    ensures Joined(bases, flows, executed + [(b, f)], pending - {(b, f)})
  {
    var executed' := executed + [(b, f)];
    forall b', f' ensures b' in bases && f' in flows <==> (b', f') in executed' || (b', f') in pending - {(b, f)} {
      assert (b', f') in executed' <==> (b', f') in executed || (b', f') == (b, f);
    }
  }

  /** With nothing pending, each pair has been executed exactly once. */
  lemma {:induction false} ExactlyOnce<B(!new), F(!new)>(
    bases: set<B>, flows: set<F>, executed: seq<(B, F)>, b: B, f: F)
    requires Joined(bases, flows, executed, {})
    ensures multiset(executed)[(b, f)] == if b in bases && f in flows then 1 else 0
  {
    AtMostOnce(executed, (b, f));
    assert (b, f) in multiset(executed) <==> (b, f) in executed;
  }

  class PointOfIndirection<B(==, !new), F(==, !new)> {
    var actualBaseAllocations: set<B>
    var flowAllocations: set<F>
    /** What execute does: the allocations it adds in turn, which may depend on all
        that was executed before. */
    const effect: (seq<(B, F)>, (B, F)) -> seq<Call<B, F>>
    ghost const allBases: set<B>
    ghost const allFlows: set<F>
    /** The calls of execute so far. */
    var executed: seq<(B, F)>
    ghost var pending: set<(B, F)>
    /** The allocations that were added so far, and those from outside. */
    ghost var called: set<Call<B, F>>
    ghost var given: set<Call<B, F>>
    /** The calls of execute that are under way. */
    ghost var busy: set<nat>

    ghost function History(): Journal<(B, F), Call<B, F>>
      reads this
    {
      Journal(executed, called, given, busy)
    }

    ghost predicate Valid()
      reads this
    {
      && Joined(actualBaseAllocations, flowAllocations, executed, pending)
      && actualBaseAllocations <= allBases && flowAllocations <= allFlows
      && Recorded(called, actualBaseAllocations, flowAllocations) && Justified(effect, History())
      && EffectKnown()
    }

    ghost predicate EffectKnown() {
      forall done, p :: forall call <- effect(done, p) :: Known(call)
    }

    ghost predicate Known(call: Call<B, F>)
    {
      match call
      case AddBase(b) => b in allBases
      case AddFlow(f) => f in allFlows
    }

    ghost predicate Arrived(call: Call<B, F>)
      reads this
    {
      match call
      case AddBase(b) => b in actualBaseAllocations
      case AddFlow(f) => f in flowAllocations
    }

    /** No call is under way. */
    ghost predicate Quiet()
      reads this
    {
      Valid() && pending == {} && busy == {}
    }

    ghost function Missing(): nat
      reads this
    {
      |allBases - actualBaseAllocations| + |allFlows - flowAllocations|
    }

    twostate predicate Grows()
      reads this
    {
      && Valid() && old(executed) <= executed && busy == old(busy)
      && old(actualBaseAllocations) <= actualBaseAllocations && old(flowAllocations) <= flowAllocations
    }

    constructor (effect: (seq<(B, F)>, (B, F)) -> seq<Call<B, F>>, ghost allBases: set<B>, ghost allFlows: set<F>)
      requires forall done, p :: forall call <- effect(done, p) ::
        match call case AddBase(b) => b in allBases case AddFlow(f) => f in allFlows
      ensures Quiet() && actualBaseAllocations == {} && flowAllocations == {} && executed == [] && given == {}
      ensures this.effect == effect && this.allBases == allBases && this.allFlows == allFlows
    {
      this.effect, this.allBases, this.allFlows := effect, allBases, allFlows;
      actualBaseAllocations, flowAllocations, executed, pending := {}, {}, [], {};
      called, given, busy := {}, {}, {};
    }

    lemma MissingShrinks(bases: set<B>, flows: set<F>)
      requires actualBaseAllocations <= allBases && flowAllocations <= allFlows
      requires bases <= actualBaseAllocations && flows <= flowAllocations
      ensures Missing() <= |allBases - bases| + |allFlows - flows|
      ensures bases != actualBaseAllocations || flows != flowAllocations ==>
        Missing() < |allBases - bases| + |allFlows - flows|
    {
      SetShrinks(allBases, bases, actualBaseAllocations);
      SetShrinks(allFlows, flows, flowAllocations);
    }

    // -------------------------------------------------------------- single updates

    method PutBase(b: B, ghost outside: bool)
      requires Valid() && b in allBases && (outside || CalledBack(effect, executed, AddBase(b)))
      modifies this`actualBaseAllocations, this`pending, this`called, this`given
      ensures Grows() && actualBaseAllocations == old(actualBaseAllocations) + {b}
      ensures given == old(given) + From(AddBase(b), outside)
      ensures pending == old(pending) +
        if b in old(actualBaseAllocations) then {} else set f <- flowAllocations :: (b, f)
      ensures b !in old(actualBaseAllocations) ==> forall f :: (b, f) !in old(pending)
    {
      hide Joined, Justified, EffectKnown;
      Receives(effect, History(), AddBase(b), outside);
      called, given := called + {AddBase(b)}, given + From(AddBase(b), outside);
      if b in actualBaseAllocations {
        assert actualBaseAllocations + {b} == actualBaseAllocations;
      } else {
        BaseArrives(actualBaseAllocations, flowAllocations, executed, pending, b);
        pending := pending + set f <- flowAllocations :: (b, f);
      }
      actualBaseAllocations := actualBaseAllocations + {b};
    }

    method PutFlow(f: F, ghost outside: bool)
      requires Valid() && f in allFlows && (outside || CalledBack(effect, executed, AddFlow(f)))
      modifies this`flowAllocations, this`pending, this`called, this`given
      ensures Grows() && flowAllocations == old(flowAllocations) + {f}
      ensures given == old(given) + From(AddFlow(f), outside)
      ensures pending == old(pending) +
        if f in old(flowAllocations) then {} else set b <- actualBaseAllocations :: (b, f)
      ensures f !in old(flowAllocations) ==> forall b :: (b, f) !in old(pending)
    {
      hide Joined, Justified, EffectKnown;
      Receives(effect, History(), AddFlow(f), outside);
      called, given := called + {AddFlow(f)}, given + From(AddFlow(f), outside);
      if f in flowAllocations {
        assert flowAllocations + {f} == flowAllocations;
      } else {
        FlowArrives(actualBaseAllocations, flowAllocations, executed, pending, f);
        pending := pending + set b <- actualBaseAllocations :: (b, f);
      }
      flowAllocations := flowAllocations + {f};
    }

    method PutPair(b: B, f: F)
      requires Valid() && (b, f) in pending
      modifies this`executed, this`pending, this`busy
      ensures Valid() && executed == old(executed) + [(b, f)] && pending == old(pending) - {(b, f)}
      ensures busy == old(busy) + {|old(executed)|} && |old(executed)| !in old(busy)
    {
      hide Joined, Justified, EffectKnown, Recorded;
      PairExecuted(actualBaseAllocations, flowAllocations, executed, pending, b, f);
      Begins(effect, History(), (b, f));
      busy := busy + {|executed|};
      executed := executed + [(b, f)];
      pending := pending - {(b, f)};
    }

    ghost method Finish(log: seq<(B, F)>, before: set<nat>)
      requires Valid() && log != [] && log <= executed && busy == before + {|log| - 1}
      requires forall call <- effect(log[..|log| - 1], log[|log| - 1]) :: Arrived(call)
      modifies this`busy
      ensures Valid() && busy == before
    {
      hide Joined, Justified, EffectKnown;
      forall call | Arrived(call) ensures call in called { }
      Finishes(effect, History(), log, before);
      busy := before;
    }

    // -------------------------------------------------------------- allocations

    method AddBaseAllocation(baseAllocation: B, ghost outside: bool := true)
      requires Valid() && baseAllocation in allBases
      requires outside || CalledBack(effect, executed, AddBase(baseAllocation))
      modifies this
      ensures Grows() && pending == old(pending) && baseAllocation in actualBaseAllocations
      ensures given == old(given) + From(AddBase(baseAllocation), outside)
      decreases Missing(), 0
    {
      hide Joined, Justified, EffectKnown, Recorded;
      var isNew := baseAllocation !in actualBaseAllocations;
      PutBase(baseAllocation, outside);
      if isNew {
        var todo := flowAllocations;
        while todo != {}
          invariant Grows() && todo <= old(flowAllocations) && baseAllocation in actualBaseAllocations
          invariant given == old(given) + From(AddBase(baseAllocation), outside)
          invariant pending == old(pending) + set f <- todo :: (baseAllocation, f)
          invariant forall f <- todo :: (baseAllocation, f) !in old(pending)
          decreases todo
        {
          var flowAllocation :| flowAllocation in todo;
          MissingShrinks(old(actualBaseAllocations), old(flowAllocations));
          Execute(baseAllocation, flowAllocation);
          todo := todo - {flowAllocation};
        }
      }
    }

    method AddFlowAllocation(flowAllocation: F, ghost outside: bool := true)
      requires Valid() && flowAllocation in allFlows
      requires outside || CalledBack(effect, executed, AddFlow(flowAllocation))
      modifies this
      ensures Grows() && pending == old(pending) && flowAllocation in flowAllocations
      ensures given == old(given) + From(AddFlow(flowAllocation), outside)
      decreases Missing(), 0
    {
      hide Joined, Justified, EffectKnown, Recorded;
      var isNew := flowAllocation !in flowAllocations;
      PutFlow(flowAllocation, outside);
      if isNew {
        var todo := actualBaseAllocations;
        while todo != {}
          invariant Grows() && todo <= old(actualBaseAllocations) && flowAllocation in flowAllocations
          invariant given == old(given) + From(AddFlow(flowAllocation), outside)
          invariant pending == old(pending) + set b <- todo :: (b, flowAllocation)
          invariant forall b <- todo :: (b, flowAllocation) !in old(pending)
          decreases todo
        {
          var baseAllocation :| baseAllocation in todo;
          MissingShrinks(old(actualBaseAllocations), old(flowAllocations));
          Execute(baseAllocation, flowAllocation);
          todo := todo - {baseAllocation};
        }
      }
    }

    /** execute: records the pair and makes the calls it leads to. */
    method Execute(b: B, f: F)
      requires Valid() && (b, f) in pending
      modifies this
      ensures Grows() && pending == old(pending) - {(b, f)} && old(executed) + [(b, f)] <= executed
      ensures given == old(given) && forall call <- effect(old(executed), (b, f)) :: Arrived(call)
      decreases Missing(), 2
    {
      hide Joined, Justified, Recorded, CalledBack, Known;
      assert forall call <- effect(executed, (b, f)) :: Known(call);
      hide EffectKnown;
      var calls := effect(executed, (b, f));
      ghost var k, log := |executed|, executed + [(b, f)];
      PutPair(b, f);
      for i := 0 to |calls|
        invariant Valid() && pending == old(pending) - {(b, f)} && log <= executed
        invariant given == old(given) && busy == old(busy) + {k}
        invariant old(actualBaseAllocations) <= actualBaseAllocations && old(flowAllocations) <= flowAllocations
        invariant forall call <- calls[..i] :: Arrived(call)
      {
        MissingShrinks(old(actualBaseAllocations), old(flowAllocations));
        assert Known(calls[i]) && calls[..i + 1] == calls[..i] + [calls[i]];
        assert log[..|log| - 1] == old(executed);
        CalledBackBy(effect, log, executed, calls[i]);
        Perform(calls[i]);
      }
      assert calls[..|calls|] == calls && log[..|log| - 1] == old(executed);
      Finish(log, old(busy));
    }

    method Perform(call: Call<B, F>)
      requires Valid() && Known(call) && CalledBack(effect, executed, call)
      modifies this
      ensures Grows() && pending == old(pending) && given == old(given) && Arrived(call)
      decreases Missing(), 1
    {
      hide Joined, Justified, Recorded, EffectKnown, CalledBack;
      match call
      case AddBase(b) => AddBaseAllocation(b, false);
      case AddFlow(f) => AddFlowAllocation(f, false);
    }

    /** Whenever no call is under way, execute has been called exactly once for
        each pair of a base and a flow allocation that arrived, and for no other. */
    lemma ExecutedExactlyOnce(b: B, f: F)
      requires Quiet()
      ensures multiset(executed)[(b, f)] == if b in actualBaseAllocations && f in flowAllocations then 1 else 0
    {
      ExactlyOnce(actualBaseAllocations, flowAllocations, executed, b, f);
    }

    /** And those arrived that came from outside or that some execute added. */
    lemma ArrivedExactly(call: Call<B, F>)
      requires Quiet()
      ensures Arrived(call) <==> call in given || CalledBack(effect, executed, call)
    {
      hide Justified;
      CalledExactly(effect, History(), call);
    }
  }
}
