/** The rule store. Rules may arrive before or after poststar, and transitions
    may be added to the automaton at any time in between. */
module WeightedPushdownSystems {
  import opened Semirings
  import opened Pushdown
  import opened PAutomata
  import opened UnbalancedPops
  import opened Justification
  import opened Exactness
  import opened LeastSolution
  import opened Termination
  import opened SolverState
  import opened PostStar

  class WeightedPushdownSystem<D(==, !new), N(==, !new), W(==, !new)> {
    var pushRules: set<Rule<D, N, W>>
    var popRules: set<Rule<D, N, W>>
    var normalRules: set<Rule<D, N, W>>
    /** The automata whose PostStarUpdateListener is registered. */
    var listeners: set<WeightedPAutomaton<D, N, W>>

    function GetAllRules(): set<Rule<D, N, W>>
      reads this`normalRules, this`popRules, this`pushRules
    {
      normalRules + popRules + pushRules
    }

    ghost predicate Sorted()
      reads this`normalRules, this`popRules, this`pushRules
    {
      && (forall r <- normalRules :: r.Normal?)
      && (forall r <- pushRules :: r.Push?)
      && (forall r <- popRules :: r.Pop?)
    }

    /** Every registered automaton has been told all the rules; it has others only
        if its own update listeners add some. */
    ghost predicate Valid()
      reads this, listeners
    {
      Sorted() && forall a <- listeners ::
        a.Ok() && GetAllRules() <= a.rules && (a.Passive() ==> a.rules == GetAllRules())
    }

    /** Every registered automaton is saturated. */
    ghost predicate Settled()
      reads this, listeners
    {
      Valid() && forall a <- listeners :: a.Quiet()
    }

    ghost predicate Acceptable(r: Rule<D, N, W>)
      reads this, listeners
    {
      forall a <- listeners :: WellFormedRule(a.empties, r) && RuleIn(a.names, r)
    }

    constructor ()
      ensures Settled() && GetAllRules() == {} && listeners == {}
    {
      pushRules, popRules, normalRules, listeners := {}, {}, {}, {};
    }

    /** False if the rule is already there. It may be added from outside or while an
        automaton is being saturated, which then goes on with what it owed. */
    method AddRule(rule: Rule<D, N, W>) returns (added: bool)
      requires Valid() && Acceptable(rule)
      modifies this`pushRules, this`popRules, this`normalRules, listeners
      ensures Valid() && GetAllRules() == old(GetAllRules()) + {rule} && (old(Settled()) ==> Settled())
      ensures added <==> rule !in old(GetAllRules())
      ensures forall a <- listeners :: a.Proceeds() && (a.Passive() ==> a.inits == old(a.inits))
    {
      hide WeightedPAutomaton.Ok, WeightedPAutomaton.Passive, WeightedPAutomaton.Quiet;
      hide RuleIn, WellFormedRule, Grows, Sorted;
      added := AddRuleInternal(rule);
      NothingYet();
      if added {
        TellListeners(rule);
      }
    }

    /** The loop over the registered automata. */
    method TellListeners(rule: Rule<D, N, W>)
      requires Acceptable(rule) && forall a <- listeners :: a.Ok()
      modifies listeners
      ensures forall a <- listeners ::
        a.Proceeds() && (old(a.Quiet()) ==> a.Quiet()) && old(a.rules) + {rule} <= a.rules
      ensures forall a <- listeners :: a.Passive() ==> a.rules == old(a.rules) + {rule} && a.inits == old(a.inits)
    {
      hide WeightedPAutomaton.Ok, WeightedPAutomaton.Passive, WeightedPAutomaton.Quiet;
      hide RuleIn, WellFormedRule, Grows, Sorted;
      var rest := listeners;
      while rest != {}
        invariant rest <= listeners
        invariant forall a <- listeners - rest :: a.Proceeds() && (old(a.Quiet()) ==> a.Quiet())
        invariant forall a <- rest :: unchanged(a)
        invariant forall a <- listeners - rest :: old(a.rules) + {rule} <= a.rules
        invariant forall a <- listeners - rest ::
          a.Passive() ==> a.rules == old(a.rules) + {rule} && a.inits == old(a.inits)
        decreases rest
      {
        var l :| l in rest;
        rest := rest - {l};
        l.OnRuleAdded(rule);
      }
    }

    twostate lemma NothingYet()
      requires forall a <- old(listeners) :: old(a.Ok()) && unchanged(a)
      ensures forall a <- old(listeners) :: a.Proceeds()
    {
      forall a <- old(listeners) ensures a.Proceeds() {
        a.OkParts();
        GrowsReflexive(a.sr, a.Snapshot());
      }
    }

    method AddRuleInternal(rule: Rule<D, N, W>) returns (added: bool)
      requires Sorted()
      modifies this`pushRules, this`popRules, this`normalRules
      ensures Sorted() && GetAllRules() == old(GetAllRules()) + {rule}
      ensures added <==> rule !in old(GetAllRules())
      ensures !added ==> GetAllRules() == old(GetAllRules())
    {
      match rule
      case Push(_, _, _, _, _, _) =>
        added := rule !in pushRules;
        pushRules := pushRules + {rule};
      case Pop(_, _, _, _) =>
        added := rule !in popRules;
        popRules := popRules + {rule};
      case Normal(_, _, _, _, _) =>
        added := rule !in normalRules;
        normalRules := normalRules + {rule};
    }

    /** poststar: registers the automaton and replays the rules to it. */
    method Poststar(aut: WeightedPAutomaton<D, N, W>)
      requires Valid() && aut.Quiet() && (aut.Passive() && aut !in listeners ==> aut.rules == {})
      requires forall r <- GetAllRules() :: WellFormedRule(aut.empties, r)
      modifies this`listeners, aut
      ensures Valid() && aut.Quiet() && GetAllRules() == old(GetAllRules())
      ensures listeners == old(listeners) + {aut} && (aut.Passive() ==> aut.inits == old(aut.inits))
    {
      hide WeightedPAutomaton.Passive, WellFormedRule, Sorted, RuleIn;
      hide WeightedPAutomaton.Ok;
      if aut in listeners {
        assert listeners == old(listeners) + {aut};
        return;
      }
      Replay(aut);
      listeners := listeners + {aut};
    }

    /** registerUpdateListener tells a new listener about the rules it missed. */
    method Replay(aut: WeightedPAutomaton<D, N, W>)
      requires Sorted() && aut.Quiet() && (aut.Passive() ==> aut.rules == {}) && aut !in listeners
      requires forall r <- GetAllRules() :: WellFormedRule(aut.empties, r)
      modifies aut
      ensures aut.Quiet() && GetAllRules() <= aut.rules
      ensures aut.Passive() ==> aut.rules == GetAllRules() && aut.inits == old(aut.inits)
    {
      hide WeightedPAutomaton.Passive, WeightedPAutomaton.Ok, WeightedPAutomaton.Proceeds, WellFormedRule, RuleIn,
        Sorted;
      var rest := GetAllRules();
      while rest != {}
        invariant rest <= GetAllRules()
        invariant aut.Quiet() && GetAllRules() - rest <= aut.rules
        invariant aut.Passive() ==> aut.rules == GetAllRules() - rest && aut.inits == old(aut.inits)
        decreases rest
      {
        var r :| r in rest;
        rest := rest - {r};
        aut.ReserveRule(r);
        aut.OnRuleAdded(r);
      }
    }
  }

  /** Order independence, and nested refines flat: whatever the order in which
      rules, transitions and registrations came, and whether the transitions are
      kept in one automaton or spread over nested summary automata, the result is
      determined by the rules and the initial transitions. */
  lemma SameResult<D(!new), N(!new), W(!new)>(a: WeightedPAutomaton<D, N, W>, b: WeightedPAutomaton<D, N, W>)
    requires a.Quiet() && b.Quiet()
    requires a.sr == b.sr && a.empties == b.empties && a.rules == b.rules && a.inits == b.inits
    ensures a.transitions == b.transitions
    ensures a.transitionToWeights == b.transitionToWeights
    ensures a.unbalancedPops == b.unbalancedPops
  {
    a.QuietIsSolution();
    b.QuietIsSolution();
    a.OkParts();
    SolutionUnique(a.Sys(), a.transitionToWeights, b.transitionToWeights);
    TableUnique(a.Sys(), a.transitionToWeights, a.unbalancedPops, b.unbalancedPops);
  }

  /** What the automaton accepts once nothing is owed: exactly the reachable
      configurations, with weights that have the same upper bounds as those of the
      runs if epsilon is not an Empty or one lies below every weight. */
  lemma PoststarExact<D(!new), N(!new), W(!new)>(a: WeightedPAutomaton<D, N, W>, c: Config<D, N>, u: W)
    requires a.Quiet() && c.stack != []
    ensures Accepted(a.transitionToWeights, c) <==> Reachable(a.Sys(), c)
    ensures (Eps in a.empties ==> a.sr.OneIsLeast()) ==>
      (BoundsPaths(a.sr, a.transitionToWeights, c, u) <==> BoundsRuns(a.Sys(), c, u))
  {
    hide WeightedPAutomaton.Ok;
    a.OkParts();
    a.QuietIsSolution();
    AcceptedIffReachable(a.Sys(), a.transitionToWeights, c);
    if WeightsExact(a.Sys()) {
      SameUpperBounds(a.Sys(), a.transitionToWeights, c, u);
    }
  }

  /** The same for the empty stack and the recorded unbalanced pops, entry by
      entry and for all entries of a state. */
  lemma PoststarEmptyStackExact<D(!new), N(!new), W(!new)>(a: WeightedPAutomaton<D, N, W>, p: D, u: W)
    requires a.Quiet()
    ensures (exists k <- a.unbalancedPops :: k.0 == p) <==> Reachable(a.Sys(), Config(p, []))
    ensures (Eps in a.empties ==> a.sr.OneIsLeast()) ==>
      (BoundsEntries(a.sr, a.unbalancedPops, p, u) <==> BoundsEmptyingRuns(a.Sys(), p, u))
    ensures (Eps in a.empties ==> a.sr.OneIsLeast()) ==>
      forall k <- a.unbalancedPops :: k.0 == p ==> EntryBoundExact(a.Sys(), a.unbalancedPops, k, u)
  {
    hide WeightedPAutomaton.Ok;
    a.OkParts();
    a.QuietIsSolution();
    EmptyStackExact(a.Sys(), a.transitionToWeights, a.unbalancedPops, p, u);
  }
}
