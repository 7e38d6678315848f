/** The incremental post* saturation: an automaton whose listeners react to new
    weight by adding more weight and more listeners, re-entrantly. */
module PostStar {
  import opened Semirings
  import opened Pushdown
  import opened PAutomata
  import opened UnbalancedPops
  import opened SolverState
  import opened SolverSteps
  import opened Quiescence
  import opened LeastSolution
  import opened Termination

  /** A pop listener gives way only to lower ones, and so does every other. */
  ghost function Level<D, N, W>(l: Listener<D, N, W>): nat {
    match l
    case HandleNormal(_) => 4
    case HandlePush(_) => 4
    case HandlePop(at, _, _, _) => if at.Control? then 4 else if at.Gen? then 3 else 2
    case TransitivePop(_, _) => 1
    case Observer(_, _) => 1
  }

  /** What an update listener of the automaton may add in turn. */
  datatype Input<D, N, W> = NewRule(r: Rule<D, N, W>) | NewTransition(t: Trans<D, N>, w: W)

  ghost predicate InputIn<D(!new), N(!new), W(!new)>(empties: set<Label<N>>, names: Names<D, N>, i: Input<D, N, W>) {
    match i
    case NewRule(r) => WellFormedRule(empties, r) && RuleIn(names, r)
    case NewTransition(t, _) => InitialTransition(t) && TransIn(names, t)
  }

  /** The input has been added. */
  ghost predicate Taken<D(!new), N(!new), W(!new)>(
    rules: set<Rule<D, N, W>>, inits: set<(Trans<D, N>, W)>, i: Input<D, N, W>)
  {
    match i
    case NewRule(r) => r in rules
    case NewTransition(t, w) => (t, w) in inits
  }

  /** Some rule calls the callee child from a transition that parent holds. */
  ghost predicate Calls<D(!new), N(!new), W(!new)>(
    rules: set<Rule<D, N, W>>, ts: set<Trans<D, N>>, parent: State<D, N>, child: State<D, N>)
  {
    exists r <- rules, t <- ts :: PushFires(r, t) && parent == t.target && child == Gen(r.s2, r.l2)
  }

  ghost predicate AllCalled<D(!new), N(!new), W(!new)>(
    rules: set<Rule<D, N, W>>, ts: set<Trans<D, N>>, nestedIn: set<(State<D, N>, State<D, N>)>)
  {
    forall ed <- nestedIn :: Calls(rules, ts, ed.0, ed.1)
  }

  lemma CalledStill<D(!new), N(!new), W(!new)>(
    rules: set<Rule<D, N, W>>, ts: set<Trans<D, N>>, nestedIn: set<(State<D, N>, State<D, N>)>,
    rules': set<Rule<D, N, W>>, ts': set<Trans<D, N>>)
    requires AllCalled(rules, ts, nestedIn) && rules <= rules' && ts <= ts'
    ensures AllCalled(rules', ts', nestedIn)
  {
  }

  lemma OneMoreCalled<D(!new), N(!new), W(!new)>(
    rules: set<Rule<D, N, W>>, ts: set<Trans<D, N>>, nestedIn: set<(State<D, N>, State<D, N>)>,
    parent: State<D, N>, child: State<D, N>)
    requires AllCalled(rules, ts, nestedIn) && Calls(rules, ts, parent, child)
    ensures AllCalled(rules, ts, nestedIn + {(parent, child)})
  {
  }

  /** A root automaton with the automata nested in it, and PostStar's listeners. */
  class WeightedPAutomaton<D(==, !new), N(==, !new), W(==, !new)> {
    const sr: Semiring<W>
    const empties: set<Label<N>>
    const nested: bool
    /** What the update listeners do when a transition gets a new weight, which may
        depend on all that they were told before. */
    const effect: (seq<(Trans<D, N>, W)>, Trans<D, N>, W) -> seq<Input<D, N, W>>
    ghost const rank: W -> nat

    var transitions: set<Trans<D, N>>
    var transitionToWeights: map<Trans<D, N>, W>
    var transitionsOutOf: set<(State<D, N>, Trans<D, N>)>
    var transitionsInto: set<(State<D, N>, Trans<D, N>)>
    var states: set<State<D, N>>
    var automata: set<State<D, N>>
    var nestedAutomatons: set<(State<D, N>, State<D, N>)>
    var stateListeners: set<(State<D, N>, Listener<D, N, W>)>
    var summaryListeners: set<Trans<D, N>>
    var unbalancedPops: PopTable<D, N, W>
    /** What the update listeners have been told, in order. */
    var notifications: seq<(Trans<D, N>, W)>
    /** What the observers have been told. */
    var seen: set<Event<D, N, W>>

    ghost var rules: set<Rule<D, N, W>>
    ghost var inits: set<(Trans<D, N>, W)>
    /** What was added by others than the update listeners. */
    ghost var given: set<Input<D, N, W>>
    ghost var names: Names<D, N>
    ghost var pending: set<Task<D, N, W>>
    ghost var age: map<State<D, N>, nat>

    ghost function Sys(): System<D, N, W>
      reads this
    {
      System(sr, empties, rules, inits)
    }

    ghost function Snapshot(): Core<D, N, W>
      reads this
    {
      Core(transitionToWeights, automata, nestedAutomatons, stateListeners, unbalancedPops, seen, rules, inits,
        notifications)
    }

    ghost predicate Ok()
      reads this
    {
      && Consistent(Sys(), nested, rank, names, summaryListeners, Snapshot(), pending, age)
      && Filed() && Heard(notifications, rules, inits, pending)
      && AllCalled(rules, transitionToWeights.Keys, nestedAutomatons)
    }

    /** The collections agree with the weights, and the input with what came in. */
    ghost predicate Filed()
      reads this`transitionToWeights, this`transitions, this`transitionsOutOf, this`transitionsInto, this`states,
        this`notifications, this`names, this`rules, this`inits, this`given
    {
      && Bookkept(sr, transitionToWeights, transitions, transitionsOutOf, transitionsInto, states, notifications)
      && EffectIn() && Sourced(notifications, rules, inits, given)
    }

    /** The update listeners add i for some notification. */
    ghost predicate ByListener(log: seq<(Trans<D, N>, W)>, i: Input<D, N, W>) {
      exists k: nat :: k < |log| && i in effect(log[..k + 1], log[k].0, log[k].1)
    }

    /** Whatever was given has been added, and nothing else but by the update listeners. */
    ghost predicate Sourced(
      log: seq<(Trans<D, N>, W)>, rules: set<Rule<D, N, W>>, inits: set<(Trans<D, N>, W)>, given: set<Input<D, N, W>>)
    {
      && (forall i <- given :: Taken(rules, inits, i))
      && (forall i :: Taken(rules, inits, i) ==> i in given || ByListener(log, i))
    }

    lemma SourcedLater(more: seq<(Trans<D, N>, W)>)
      requires Sourced(notifications, rules, inits, given)
      ensures Sourced(notifications + more, rules, inits, given)
    {
      var log := notifications;
      forall i | Taken(rules, inits, i) && i !in given ensures ByListener(log + more, i) {
        assert ByListener(log, i);
        var k: nat :| k < |log| && i in effect(log[..k + 1], log[k].0, log[k].1);
        assert (log + more)[..k + 1] == log[..k + 1] && (log + more)[k] == log[k];
      }
    }

    /** One more rule or initial transition, from a listener or from outside. */
    lemma SourcedAnew(i: Input<D, N, W>, outside: bool)
      requires Sourced(notifications, rules, inits, given) && (outside || ByListener(notifications, i))
      ensures Sourced(notifications, if i.NewRule? then rules + {i.r} else rules,
                      if i.NewRule? then inits else inits + {(i.t, i.w)}, if outside then given + {i} else given)
    {
      var rules' := if i.NewRule? then rules + {i.r} else rules;
      var inits' := if i.NewRule? then inits else inits + {(i.t, i.w)};
      forall j | Taken(rules', inits', j) ensures j == i || Taken(rules, inits, j) {
      }
    }

    /** What the update listeners add for the notification k has been added. */
    ghost predicate Answered(
      log: seq<(Trans<D, N>, W)>, rules: set<Rule<D, N, W>>, inits: set<(Trans<D, N>, W)>, k: nat)
      requires k < |log|
    {
      forall i <- effect(log[..k + 1], log[k].0, log[k].1) :: Taken(rules, inits, i)
    }

    /** All notifications have been answered, or are still to be heard. */
    ghost predicate Heard(
      log: seq<(Trans<D, N>, W)>, rules: set<Rule<D, N, W>>, inits: set<(Trans<D, N>, W)>, pending: set<Task<D, N, W>>)
    {
      forall k: nat :: k < |log| ==> Hear(k) in pending || Answered(log, rules, inits, k)
    }

    lemma HeardLater(
      log: seq<(Trans<D, N>, W)>, rules0: set<Rule<D, N, W>>, inits0: set<(Trans<D, N>, W)>,
      more: seq<(Trans<D, N>, W)>, rules1: set<Rule<D, N, W>>, inits1: set<(Trans<D, N>, W)>,
      pending0: set<Task<D, N, W>>, pending1: set<Task<D, N, W>>)
      requires Heard(log, rules0, inits0, pending0) && rules0 <= rules1 && inits0 <= inits1
      requires forall k: nat :: Hear(k) in pending0 && k < |log| ==>
        Hear(k) in pending1 || Answered(log, rules1, inits1, k)
      requires forall k: nat :: |log| <= k < |log + more| ==> Hear(k) in pending1
      ensures Heard(log + more, rules1, inits1, pending1)
    {
      forall k: nat | k < |log + more| && Hear(k) !in pending1 ensures Answered(log + more, rules1, inits1, k) {
        assert (log + more)[..k + 1] == log[..k + 1] && (log + more)[k] == log[k];
        assert Answered(log, rules0, inits0, k) || Answered(log, rules1, inits1, k);
        forall i <- effect(log[..k + 1], log[k].0, log[k].1) ensures Taken(rules1, inits1, i) {
          assert Taken(rules0, inits0, i) || Taken(rules1, inits1, i);
        }
      }
    }

    /** More work that is owed, more rules and more initial transitions. */
    lemma HeardStill(more: set<Task<D, N, W>>, rules1: set<Rule<D, N, W>>, inits1: set<(Trans<D, N>, W)>)
      requires Heard(notifications, rules, inits, pending) && rules <= rules1 && inits <= inits1
      ensures Heard(notifications, rules1, inits1, pending + more)
    {
      HeardLater(notifications, rules, inits, [], rules1, inits1, pending, pending + more);
      assert notifications + [] == notifications;
    }

    /** The update listeners stay within finitely many names. */
    ghost predicate EffectIn()
      reads this`names
    {
      forall log, t, w :: forall i <- effect(log, t, w) :: InputIn(empties, names, i)
    }

    /** The update listeners add nothing. */
    ghost predicate Passive() {
      forall log, t, w :: effect(log, t, w) == []
    }

    /** Nothing was lost, no work was taken on that is still owed, and all rules and
        initial transitions that came in meanwhile are taken care of. */
    twostate predicate Continues()
      reads this
    {
      Proceeds() && given == old(given) && (Passive() ==> Sys() == old(Sys()))
    }

    twostate predicate Proceeds()
      reads this
    {
      && Ok() && names == old(names)
      && Grows(sr, old(Snapshot()), Snapshot())
      && pending <= old(pending)
      && old(summaryListeners) <= summaryListeners
    }

    ghost function Lacking(l: Listener<D, N, W>): set<State<D, N>>
      reads this
    {
      set a <- AllStates(names) | (a, l) !in stateListeners
    }

    twostate lemma StillGoing()
      requires old(Ok()) && Ok() && names == old(names) && Grows(sr, old(Snapshot()), Snapshot())
      ensures Missing(names, transitionToWeights) <= old(Missing(names, transitionToWeights))
      ensures Missing(names, transitionToWeights) == old(Missing(names, transitionToWeights))
              ==> Raises(rank, transitionToWeights) <= old(Raises(rank, transitionToWeights))
      ensures MissingNestings(names, Snapshot()) <= old(MissingNestings(names, Snapshot()))
    {
      Progress(sr, rank, names, old(transitionToWeights), transitionToWeights);
    }

    constructor (sr: Semiring<W>, empties: set<Label<N>>, nested: bool,
                 effect: (seq<(Trans<D, N>, W)>, Trans<D, N>, W) -> seq<Input<D, N, W>>, ghost names: Names<D, N>,
                 ghost rank: W -> nat)
      requires sr.Laws() && Descends(sr, rank)
      requires forall log, t, w :: forall i <- effect(log, t, w) :: InputIn(empties, names, i)
      ensures Quiet() && this.sr == sr && this.empties == empties && this.nested == nested && this.effect == effect
      ensures transitionToWeights == map[] && stateListeners == {} && notifications == []
      ensures rules == {} && inits == {} && given == {} && pending == {}
    {
      this.sr, this.empties, this.nested, this.effect, this.rank := sr, empties, nested, effect, rank;
      transitions, transitionToWeights := {}, map[];
      transitionsOutOf, transitionsInto, states := {}, {}, {};
      automata, nestedAutomatons := {Sink}, {};
      stateListeners, summaryListeners, unbalancedPops := {}, {}, map[];
      notifications, seen := [], {};
      rules, inits, given, this.names := {}, {}, {}, names;
      pending, age := {}, map[Sink := 0];
      new;
      hide Consistent;
      InitialConsistent<D, N, W>(sr, empties, nested, rank, names);
    }

    ghost function Nowhere(): set<State<D, N>> { {} }
    ghost function Somewhere(): set<State<D, N>> { {Sink} }

    /** What an invocation needs to know of the invariant. */
    lemma OkParts()
      requires Ok()
      ensures sr.Laws() && Descends(sr, rank) && WellFormed(Sys())
      ensures Inv(Sys(), nested, Snapshot(), pending, age)
      ensures SystemIn(names, Sys()) && WeightsIn(names, transitionToWeights)
    {
    }

    /** What was derivable, or a listener in order, stays so. */
    lemma Later(c: Core<D, N, W>, t: Trans<D, N>, w: W)
      requires Grows(sr, c, Snapshot()) && Derivable(System(sr, empties, c.rules, c.inits), t, w)
      ensures Derivable(Sys(), t, w)
    {
      DerivableLater(sr, empties, c, Snapshot(), t, w);
    }

    lemma ListenerLater(c: Core<D, N, W>, l: Listener<D, N, W>)
      requires Grows(sr, c, Snapshot()) && ListenerOk(System(sr, empties, c.rules, c.inits), c.weights, l)
      ensures ListenerOk(Sys(), transitionToWeights, l)
    {
      ListenerOkGrows(System(sr, empties, c.rules, c.inits), c, Snapshot(), l);
      ListenerExtends(System(sr, empties, c.rules, c.inits), Sys(), transitionToWeights, l);
    }

    /** Forgetting a piece of work that is done. */
    ghost method Forget(task: Task<D, N, W>)
      requires Ok()
      requires task.Deliver? ==>
        Done(sr, empties, nested, Snapshot(), task.e)
        || (task.e.t in transitionToWeights && transitionToWeights[task.e.t] != task.e.w)
      requires task.Register? ==> (task.aut, task.l) in stateListeners
      requires task.Hear? ==> task.k < |notifications| && Answered(notifications, rules, inits, task.k)
      modifies this`pending
      ensures Ok() && pending == old(pending) - {task}
    {
      hide Consistent, Bookkept, Done, Heard, Answered;
      DropConsistent(Sys(), nested, rank, names, summaryListeners, Snapshot(), pending, age, task);
      HeardLater(notifications, rules, inits, [], rules, inits, pending, pending - {task});
      assert notifications + [] == notifications;
      pending := pending - {task};
    }

    // -------------------------------------------------------------- adding weight

    /** Adds w to the weight of t in its automaton, and tells every listener of
        that automaton if the weight changed. */
    method AddWeightForTransition(t: Trans<D, N>, w: W) returns (changed: bool)
      requires Ok() && Derivable(Sys(), t, w) && Home(nested, t) in automata
      modifies this
      ensures Continues() && AtLeast(sr, transitionToWeights, t, w)
      ensures changed <==> transitionToWeights != old(transitionToWeights)
      decreases Missing(names, transitionToWeights), Raises(rank, transitionToWeights),
        MissingNestings(names, Snapshot()), 0, Nowhere()
    {
      hide Ok, Inv, Grows, WellFormed, SystemIn, WeightsIn, Derivable, Missing, Raises, MissingNestings, Descends;
      hide sr.Laws;
      OkParts();
      GrowsReflexive(sr, Snapshot());
      sr.LeReflexive(w);
      var newWeight := w;
      if t in transitionToWeights {
        newWeight := sr.combine(transitionToWeights[t], w);
        InvTransition(Sys(), nested, Snapshot(), pending, age, t);
        DerivableJoin(Sys(), t, transitionToWeights[t], w);
        sr.CombineIsJoin(transitionToWeights[t], w);
        if newWeight == transitionToWeights[t] {
          return false;
        }
      }
      RaiseProgress(sr, rank, names, Sys(), transitionToWeights, t, newWeight);
      RaiseGrows(sr, Snapshot(), t, newWeight);
      Raise(t, newWeight);
      sr.LeReflexive(newWeight);
      label raised:
      Tell(t, newWeight);
      GrowsTransitive(sr, old(Snapshot()), old@raised(Snapshot()), Snapshot());
      sr.LeTransitive(w, newWeight, transitionToWeights[t]);
      StrictlyRaised(old(transitionToWeights), t, newWeight);
      return true;
    }

    /** All listeners are told of the new weight. */
    method Tell(t: Trans<D, N>, w: W)
      requires Ok() && Derivable(Sys(), t, w) && AtLeast(sr, transitionToWeights, t, w)
      requires notifications != [] && notifications[|notifications| - 1] == (t, w)
      modifies this
      ensures Continues() && AtLeast(sr, transitionToWeights, t, w)
      ensures pending <= old(pending) - RaiseTasks(nested, old(Snapshot()), t, w) - {Hear(|old(notifications)| - 1)}
      decreases Missing(names, transitionToWeights), Raises(rank, transitionToWeights),
        MissingNestings(names, Snapshot()), 50, Nowhere()
    {
      hide Ok, Inv, Grows, WellFormed, SystemIn, WeightsIn, Derivable, Missing, Raises, MissingNestings, Descends;
      hide sr.Laws, Passive, RaiseTasks;
      OkParts();
      Notify(t, w);
      StillGoing();
      AtLeastGrows(sr, old(Snapshot()), Snapshot(), t, w);
      Later(old(Snapshot()), t, w);
      label notified:
      TellSummaries(t, w);
      StillGoing@notified();
      GrowsTransitive(sr, old(Snapshot()), old@notified(Snapshot()), Snapshot());
      MoreToTell(old(Snapshot()), Snapshot(), t, w);
      Later(old(Snapshot()), t, w);
      label summarised:
      TellEnds(t, w);
      GrowsTransitive(sr, old(Snapshot()), old@summarised(Snapshot()), Snapshot());
      AtLeastGrows(sr, old@summarised(Snapshot()), Snapshot(), t, w);
    }

    lemma MoreToTell(c: Core<D, N, W>, c': Core<D, N, W>, t: Trans<D, N>, w: W)
      requires Grows(sr, c, c')
      ensures RaiseTasks(nested, c, t, w) <= RaiseTasks(nested, c', t, w)
    {
    }

    /** The state listeners at the start of t and at its target are told. */
    method TellEnds(t: Trans<D, N>, w: W)
      requires Ok() && Derivable(Sys(), t, w) && AtLeast(sr, transitionToWeights, t, w)
      modifies this
      ensures Continues() && pending <= old(pending) - RaiseTasks(nested, old(Snapshot()), t, w)
      decreases Missing(names, transitionToWeights), Raises(rank, transitionToWeights),
        MissingNestings(names, Snapshot()), 30, Somewhere()
    {
      hide Ok, Inv, Grows, WellFormed, SystemIn, WeightsIn, Derivable, Missing, Raises, MissingNestings, Descends;
      hide sr.Laws, Passive;
      OkParts();
      TellListeners(t, w, true);
      StillGoing();
      GrowsParts(sr, old(Snapshot()), Snapshot());
      AtLeastGrows(sr, old(Snapshot()), Snapshot(), t, w);
      Later(old(Snapshot()), t, w);
      label told:
      TellListeners(t, w, false);
      GrowsTransitive(sr, old(Snapshot()), old@told(Snapshot()), Snapshot());
    }

    /** The update listeners are told of the last notification, and all that they
        add is added at once. */
    method Notify(t: Trans<D, N>, w: W)
      requires Ok() && notifications != [] && notifications[|notifications| - 1] == (t, w)
      modifies this
      ensures Continues() && pending <= old(pending) - {Hear(|old(notifications)| - 1)}
      ensures forall i <- effect(old(notifications), t, w) :: Taken(rules, inits, i)
      decreases Missing(names, transitionToWeights), Raises(rank, transitionToWeights),
        MissingNestings(names, Snapshot()), 40, Nowhere()
    {
      hide Ok, Inv, Grows, WellFormed, SystemIn, WeightsIn, Derivable, Missing, Raises, MissingNestings, Descends,
        Passive;
      hide sr.Laws, InputIn, Taken, Answered, Heard, ByListener;
      OkParts();
      GrowsReflexive(sr, Snapshot());
      EffectOf(notifications, t, w);
      ghost var k := |notifications| - 1;
      var inputs := effect(notifications, t, w);
      for n := 0 to |inputs|
        invariant Continues()
        invariant forall i <- inputs[..n] :: Taken(rules, inits, i)
      {
        StillGoing();
        assert inputs[n] in inputs && inputs[..n + 1] == inputs[..n] + [inputs[n]];
        assert ByListener(notifications, inputs[n]) by {
          assert old(notifications) <= notifications by { LogGrows(old(Snapshot())); }
          FromListener(old(notifications), inputs[n]);
        }
        label before:
        AddInput(inputs[n]);
        TakenLater(old@before(Snapshot()), Snapshot());
        GrowsTransitive(sr, old(Snapshot()), old@before(Snapshot()), Snapshot());
      }
      assert inputs[..|inputs|] == inputs;
      assert old(notifications) <= notifications by { LogGrows(old(Snapshot())); }
      AllTaken(old(notifications), k);
      Forget(Hear(k));
    }

    lemma FromListener(log: seq<(Trans<D, N>, W)>, i: Input<D, N, W>)
      requires log <= notifications && log != []
      requires i in effect(log, log[|log| - 1].0, log[|log| - 1].1)
      ensures ByListener(notifications, i)
    {
      var k := |log| - 1;
      assert notifications[..k + 1] == log && notifications[k] == log[k];
    }

    lemma EffectOf(log: seq<(Trans<D, N>, W)>, t: Trans<D, N>, w: W)
      requires Ok()
      ensures forall i <- effect(log, t, w) :: InputIn(empties, names, i)
      ensures Passive() ==> effect(log, t, w) == []
    {
    }

    lemma TakenLater(c: Core<D, N, W>, c': Core<D, N, W>)
      requires Grows(sr, c, c')
      ensures forall i :: Taken(c.rules, c.inits, i) ==> Taken(c'.rules, c'.inits, i)
    {
    }

    lemma LogGrows(c: Core<D, N, W>)
      requires Grows(sr, c, Snapshot())
      ensures c.log <= notifications
    {
    }

    lemma AllTaken(log: seq<(Trans<D, N>, W)>, k: nat)
      requires k == |log| - 1 && log <= notifications
      requires forall i <- effect(log, log[k].0, log[k].1) :: Taken(rules, inits, i)
      ensures k < |notifications| && Answered(notifications, rules, inits, k)
    {
      assert notifications[..k + 1] == log;
    }

    method AddInput(i: Input<D, N, W>)
      requires Ok() && InputIn(empties, names, i) && ByListener(notifications, i)
      modifies this
      ensures Proceeds() && Taken(rules, inits, i) && given == old(given)
      decreases Missing(names, transitionToWeights), Raises(rank, transitionToWeights),
        MissingNestings(names, Snapshot()), 36, Nowhere()
    {
      hide Ok, Inv, Grows, WellFormed, SystemIn, WeightsIn, Derivable, Missing, Raises, MissingNestings, Descends,
        Passive, ByListener;
      match i
      case NewRule(r) => OnRuleAdded(r, false);
      case NewTransition(t, w) =>
        var _ := AddInitialTransition(t, w, false);
    }

    /** A raised weight never falls back. */
    lemma StrictlyRaised(before: map<Trans<D, N>, W>, t: Trans<D, N>, newWeight: W)
      requires sr.Laws() && AtLeast(sr, transitionToWeights, t, newWeight)
      requires t in before ==> sr.Le(before[t], newWeight) && before[t] != newWeight
      ensures transitionToWeights != before
    {
      if t in before && transitionToWeights[t] == before[t] {
        sr.LeAntisymmetric(before[t], newWeight);
      }
    }

    twostate predicate Raised(t: Trans<D, N>, newWeight: W)
      reads this
    {
      && Ok() && Sys() == old(Sys()) && names == old(names) && given == old(given)
      && Snapshot() == old(Snapshot()).(
           weights := old(transitionToWeights)[t := newWeight], log := old(notifications) + [(t, newWeight)])
      && pending == old(pending + RaiseTasks(nested, Snapshot(), t, newWeight) + {Hear(|notifications|)})
      && summaryListeners == old(summaryListeners)
    }

    /** The stores of addWeightForTransition, before anyone is told. */
    method Raise(t: Trans<D, N>, newWeight: W)
      requires Ok() && Derivable(Sys(), t, newWeight) && Home(nested, t) in automata
      requires t in transitionToWeights ==>
        sr.Le(transitionToWeights[t], newWeight) && transitionToWeights[t] != newWeight
      modifies this
      ensures Raised(t, newWeight)
    {
      hide Consistent, Bookkept, RaiseTasks, Derivable, Home, Heard, Answered, Sourced, AllCalled, EffectIn;
      hide sr.Laws, sr.Le;
      CalledStill(rules, transitionToWeights.Keys, nestedAutomatons, rules, transitionToWeights[t := newWeight].Keys);
      assert sr.Laws() by { OkParts(); }
      RaiseConsistent(Sys(), nested, rank, names, summaryListeners, Snapshot(), pending, age, t, newWeight);
      RaiseBookkept(sr, transitionToWeights, transitions, transitionsOutOf, transitionsInto, states, notifications, t,
        newWeight);
      ghost var pending' := pending + RaiseTasks(nested, Snapshot(), t, newWeight) + {Hear(|notifications|)};
      HeardLater(notifications, rules, inits, [(t, newWeight)], rules, inits, pending, pending');
      SourcedLater([(t, newWeight)]);
      pending := pending';
      StoreTransition(t, newWeight);
    }

    method StoreTransition(t: Trans<D, N>, newWeight: W)
      modifies this`transitionsOutOf, this`transitionsInto, this`states, this`transitions, this`transitionToWeights,
        this`notifications
      ensures transitionToWeights == old(transitionToWeights)[t := newWeight]
      ensures notifications == old(notifications) + [(t, newWeight)]
      ensures transitionsOutOf == old(transitionsOutOf) + {(t.start, t)}
      ensures transitionsInto == old(transitionsInto) + {(t.target, t)}
      ensures states == old(states) + {t.target, t.start}
      ensures transitions == old(transitions) + {t}
    {
      transitionsOutOf := transitionsOutOf + {(t.start, t)};
      transitionsInto := transitionsInto + {(t.target, t)};
      states := states + {t.target, t.start};
      transitions := transitions + {t};
      transitionToWeights := transitionToWeights[t := newWeight];
      notifications := notifications + [(t, newWeight)];
    }

    lemma OneDelivered(ls: set<Listener<D, N, W>>, e: Event<D, N, W>)
      ensures DeliverAll(ls + {e.l}, e.out, e.t, e.w) == DeliverAll(ls, e.out, e.t, e.w) + {Deliver(e)}
    {
    }

    lemma NoneDelivered(out: bool, t: Trans<D, N>, w: W)
      ensures DeliverAll<D, N, W>({}, out, t, w) == {}
    {
    }

    /** The snapshot loop over the state listeners at one end of t. */
    method TellListeners(t: Trans<D, N>, w: W, out: bool)
      requires Ok() && Derivable(Sys(), t, w) && AtLeast(sr, transitionToWeights, t, w)
      modifies this
      ensures Continues()
      ensures pending <= old(pending)
        - DeliverAll(ListenersAt(old(stateListeners), Home(nested, t), if out then t.start else t.target), out, t, w)
      decreases Missing(names, transitionToWeights), Raises(rank, transitionToWeights),
        MissingNestings(names, Snapshot()), 30, Nowhere()
    {
      hide Ok, Inv, Grows, WellFormed, SystemIn, WeightsIn, Derivable, ListenerOk, Done, Missing, Raises,
        MissingNestings, Descends, Passive, DeliverAll;
      hide sr.Laws;
      OkParts();
      var s := if out then t.start else t.target;
      var ls := set p <- stateListeners | p.0 == Home(nested, t) && StateOf(p.1) == s :: p.1;
      assert ls == ListenersAt(stateListeners, Home(nested, t), s);
      var rest := ls;
      ghost var told := {};
      NoneDelivered(out, t, w);
      GrowsReflexive(sr, Snapshot());
      while rest != {}
        invariant told + rest == ls
        invariant Continues()
        invariant pending <= old(pending) - DeliverAll(told, out, t, w)
        invariant AtLeast(sr, transitionToWeights, t, w)
        decreases rest
      {
        var l :| l in rest;
        rest := rest - {l};
        StillGoing();
        Later(old(Snapshot()), t, w);
        GrowsParts(sr, old(Snapshot()), Snapshot());
        label before:
        TellListener(l, t, w, out);
        GrowsTransitive(sr, old(Snapshot()), old@before(Snapshot()), Snapshot());
        OneDelivered(told, Event(l, out, t, w));
        told := told + {l};
      }
    }

    /** One turn of the loop. */
    method TellListener(l: Listener<D, N, W>, t: Trans<D, N>, w: W, out: bool)
      requires Ok() && Derivable(Sys(), t, w) && AtLeast(sr, transitionToWeights, t, w)
      requires (Home(nested, t), l) in stateListeners && StateOf(l) == if out then t.start else t.target
      modifies this
      ensures Continues() && AtLeast(sr, transitionToWeights, t, w)
      ensures pending <= old(pending) - {Deliver(Event(l, out, t, w))}
      decreases Missing(names, transitionToWeights), Raises(rank, transitionToWeights),
        MissingNestings(names, Snapshot()), 29, Nowhere()
    {
      hide Ok, Inv, Grows, WellFormed, SystemIn, WeightsIn, Derivable, ListenerOk, Done, Missing, Raises,
        MissingNestings, Descends, Passive;
      hide sr.Laws;
      OkParts();
      InvListener(Sys(), nested, Snapshot(), pending, age, (Home(nested, t), l));
      var e := Event(l, out, t, w);
      OnTransitionAdded(e);
      AtLeastGrows(sr, old(Snapshot()), Snapshot(), t, w);
      Forget(Deliver(e));
    }

    /** The anonymous listeners of summary automata, which in nested mode connect
        a return to its call sites. */
    method TellSummaries(t: Trans<D, N>, w: W)
      requires Ok() && Derivable(Sys(), t, w) && AtLeast(sr, transitionToWeights, t, w)
      modifies this
      ensures Continues() && AtLeast(sr, transitionToWeights, t, w)
      ensures t.lbl == Eps ==>
        forall c <- old(summaryListeners) :: ReturnsAs(transitionToWeights, t, w, c, old(transitionToWeights))
      decreases Missing(names, transitionToWeights), Raises(rank, transitionToWeights),
        MissingNestings(names, Snapshot()), 30, Nowhere()
    {
      hide Ok, Inv, Grows, WellFormed, SystemIn, WeightsIn, Derivable, Missing, Raises, MissingNestings, Descends,
        Returns;
      hide sr.Laws;
      OkParts();
      GrowsReflexive(sr, Snapshot());
      if t.lbl == Eps {
        var rest := set call <- summaryListeners | call.start == t.target;
        var all := rest;
        while rest != {}
          invariant rest <= all <= summaryListeners
          invariant Continues() && AtLeast(sr, transitionToWeights, t, w)
          invariant forall c <- all - rest :: ReturnsAs(transitionToWeights, t, w, c, old(transitionToWeights))
          decreases rest
        {
          var call :| call in rest;
          rest := rest - {call};
          StillGoing();
          Later(old(Snapshot()), t, w);
          label before:
          WeightKept(old(Snapshot()), Snapshot(), call);
          ConnectReturn(t, w, call);
          OkParts();
          GrowsTransitive(sr, old(Snapshot()), old@before(Snapshot()), Snapshot());
          AtLeastGrows(sr, old@before(Snapshot()), Snapshot(), t, w);
          ReturnsKept(old@before(Snapshot()), Snapshot());
        }
      }
    }

    /** t carries w on to the return site of call, if it returns there, with at
        least the weight that call has in m0. */
    ghost predicate ReturnsAs(
      m: map<Trans<D, N>, W>, t: Trans<D, N>, w: W, call: Trans<D, N>, m0: map<Trans<D, N>, W>)
    {
      call in m0 && call.start == t.target ==> Returns(m, t, w, call, m0[call])
    }

    lemma WeightKept(c: Core<D, N, W>, c': Core<D, N, W>, t: Trans<D, N>)
      requires Grows(sr, c, c')
      ensures t in c.weights ==> AtLeast(sr, c'.weights, t, c.weights[t])
    {
    }

    /** t carries at least weight w to the return site of call, which weighs wc. */
    ghost predicate Returns(m: map<Trans<D, N>, W>, t: Trans<D, N>, w: W, call: Trans<D, N>, wc: W) {
      AtLeast(sr, m, ReturnResult(t, call), sr.extend(wc, w))
    }

    /** A return over t to the call site of call. */
    method ConnectReturn(t: Trans<D, N>, w: W, call: Trans<D, N>)
      requires Ok() && Derivable(Sys(), t, w) && AtLeast(sr, transitionToWeights, t, w)
      requires t.lbl == Eps && call in summaryListeners && call.start == t.target
      modifies this
      ensures Continues()
      ensures forall wc :: AtLeast(sr, old(transitionToWeights), call, wc) ==>
        Returns(transitionToWeights, t, w, call, wc)
      decreases Missing(names, transitionToWeights), Raises(rank, transitionToWeights),
        MissingNestings(names, Snapshot()), 1, Nowhere()
    {
      hide Ok, Inv, Grows, WellFormed, SystemIn, WeightsIn, Derivable, Missing, Raises, MissingNestings, Descends,
        Returns;
      hide sr.Laws;
      OkParts();
      InvTransition(Sys(), nested, Snapshot(), pending, age, t);
      var _ := AddWeightForTransition(t, w);
      StillGoing();
      OkParts();
      Later(old(Snapshot()), t, w);
      assert call in transitionToWeights by { SummaryCalls(); }
      InvTransition(Sys(), nested, Snapshot(), pending, age, call);
      DerivableIsShaped(Sys(), t, w);
      DerivableReturn(Sys(), t, w, call, transitionToWeights[call]);
      ghost var wc0 := transitionToWeights[call];
      label added:
      var _ := AddWeightForTransition(ReturnResult(t, call), sr.extend(transitionToWeights[call], w));
      GrowsTransitive(sr, old(Snapshot()), old@added(Snapshot()), Snapshot());
      sr.LeReflexive(w);
      forall wc | AtLeast(sr, old(transitionToWeights), call, wc) ensures Returns(transitionToWeights, t, w, call, wc) {
        AtLeastGrows(sr, old(Snapshot()), old@added(Snapshot()), call, wc);
        ReturnsLess(t, w, call, wc0, w, wc);
      }
    }

    lemma ReturnsLess(t: Trans<D, N>, w: W, call: Trans<D, N>, wc: W, w': W, wc': W)
      requires sr.Laws() && AtLeast(sr, transitionToWeights, ReturnResult(t, call), sr.extend(wc, w))
      requires sr.Le(w', w) && sr.Le(wc', wc)
      ensures Returns(transitionToWeights, t, w', call, wc')
    {
      sr.ExtendMonotone(wc', wc, w', w);
      sr.LeTransitive(sr.extend(wc', w'), sr.extend(wc, w), transitionToWeights[ReturnResult(t, call)]);
    }

    lemma ReturnsKept(c: Core<D, N, W>, c': Core<D, N, W>)
      requires sr.Laws() && Grows(sr, c, c')
      ensures forall t, w, call, wc :: Returns(c.weights, t, w, call, wc) ==> Returns(c'.weights, t, w, call, wc)
      ensures forall t, w, call, m0 :: ReturnsAs(c.weights, t, w, call, m0) ==> ReturnsAs(c'.weights, t, w, call, m0)
    {
      forall t, w, call, wc | Returns(c.weights, t, w, call, wc) ensures Returns(c'.weights, t, w, call, wc) {
        AtLeastGrows(sr, c, c', ReturnResult(t, call), sr.extend(wc, w));
      }
    }

    lemma SummaryCalls()
      requires Ok()
      ensures forall call <- summaryListeners :: call in transitionToWeights && call.start.Gen?
    {
    }

    // -------------------------------------------------------------- registering listeners

    /** Registers l with an automaton and all automata nested in it, and tells it
        what is already there. */
    method RegisterListener(aut: State<D, N>, l: Listener<D, N, W>)
      requires Ok() && ListenerOk(Sys(), transitionToWeights, l) && aut in automata
      modifies this
      ensures Continues() && (aut, l) in stateListeners
      decreases Missing(names, transitionToWeights), Raises(rank, transitionToWeights),
        MissingNestings(names, Snapshot()), 6 * Level(l) + 4, Lacking(l), 0
    {
      hide Ok, Inv, Grows, WellFormed, SystemIn, WeightsIn, Derivable, ListenerOk, Missing, Raises, MissingNestings,
        Descends;
      hide sr.Laws;
      OkParts();
      GrowsReflexive(sr, Snapshot());
      if (aut, l) in stateListeners {
        return;
      }
      ghost var m0, nested0 := transitionToWeights, nestedAutomatons;
      RegisterGrows(sr, Snapshot(), aut, l);
      assert aut in AllStates(names) by { AutomataNamed(); }
      AddListener(aut, l);
      assert aut in old(Lacking(l)) && aut !in Lacking(l);
      OldWeights(m0);
      StillGoing();
      label added:
      TellAllExisting(aut, l, m0);
      GrowsTransitive(sr, old(Snapshot()), old@added(Snapshot()), Snapshot());
      GrowsParts(sr, old@added(Snapshot()), Snapshot());
      StillGoing();
      label told:
      RegisterWithNested(aut, l, nested0);
      GrowsTransitive(sr, old(Snapshot()), old@told(Snapshot()), Snapshot());
      GrowsParts(sr, old@told(Snapshot()), Snapshot());
    }

    /** Both loops over the transitions that are there, out of the state and into it. */
    method TellAllExisting(aut: State<D, N>, l: Listener<D, N, W>, ghost m0: map<Trans<D, N>, W>)
      requires Ok() && (aut, l) in stateListeners
      requires forall t <- m0 :: AtLeast(sr, transitionToWeights, t, m0[t])
      modifies this
      ensures Continues() && (aut, l) in stateListeners
      ensures pending <= old(pending) - TellAll(l, true, m0, TransAt(nested, m0, aut, true, StateOf(l)))
        - TellAll(l, false, m0, TransAt(nested, m0, aut, false, StateOf(l)))
      decreases Missing(names, transitionToWeights), Raises(rank, transitionToWeights),
        MissingNestings(names, Snapshot()), 6 * Level(l) + 4, Lacking(l), 0
    {
      hide Ok, Inv, Grows, WellFormed, SystemIn, WeightsIn, Derivable, ListenerOk, Missing, Raises, MissingNestings,
        Descends, TellAll, TransAt;
      hide sr.Laws;
      OkParts();
      TellExisting(aut, l, true, m0);
      StillGoing();
      GrowsParts(sr, old(Snapshot()), Snapshot());
      label out:
      TellExisting(aut, l, false, m0);
      GrowsTransitive(sr, old(Snapshot()), old@out(Snapshot()), Snapshot());
      GrowsParts(sr, old@out(Snapshot()), Snapshot());
    }

    lemma OldWeights(m0: map<Trans<D, N>, W>)
      requires Ok() && m0 == transitionToWeights
      ensures forall t <- m0 :: AtLeast(sr, transitionToWeights, t, m0[t])
    {
      forall t <- m0 ensures AtLeast(sr, m0, t, m0[t]) { sr.LeReflexive(m0[t]); }
    }

    lemma AutomataNamed()
      requires Ok()
      ensures automata <= AllStates(names)
    {
    }

    /** The replay of the transitions that were there before l. */
    method TellExisting(aut: State<D, N>, l: Listener<D, N, W>, out: bool, ghost m0: map<Trans<D, N>, W>)
      requires Ok() && (aut, l) in stateListeners
      requires forall t <- m0 :: AtLeast(sr, transitionToWeights, t, m0[t])
      modifies this
      ensures Continues()
      ensures forall t <- m0 :: AtLeast(sr, transitionToWeights, t, m0[t])
      ensures pending <= old(pending) - TellAll(l, out, m0, TransAt(nested, m0, aut, out, StateOf(l)))
      decreases Missing(names, transitionToWeights), Raises(rank, transitionToWeights),
        MissingNestings(names, Snapshot()), 6 * Level(l) + 3, AllStates(names)
    {
      hide Ok, Inv, Grows, WellFormed, SystemIn, WeightsIn, Derivable, ListenerOk, Missing, Raises, MissingNestings,
        Descends, Done;
      hide sr.Laws;
      hide Home, StateOf, Done, RaiseTasks;
      OkParts();
      GrowsReflexive(sr, Snapshot());
      var ts := TransitionsAt(aut, out, StateOf(l));
      var rest := ts;
      ghost var owed := TransAt(nested, m0, aut, out, StateOf(l));
      while rest != {}
        invariant rest <= ts
        invariant Continues() && (aut, l) in stateListeners && ts <= transitionToWeights.Keys
        invariant forall t <- m0 :: AtLeast(sr, transitionToWeights, t, m0[t])
        invariant pending <= old(pending) - TellAll(l, out, m0, owed - rest)
        decreases rest
      {
        var t :| t in rest;
        assert StateOf(l) == if out then t.start else t.target;
        rest := rest - {t};
        StillGoing();
        label before:
        TellOne(aut, l, out, t, m0);
        GrowsTransitive(sr, old(Snapshot()), old@before(Snapshot()), Snapshot());
        GrowsParts(sr, old@before(Snapshot()), Snapshot());
      }
      assert owed - rest == owed;
    }

    /** transitionsOutOf or transitionsInto of one automaton. */
    function TransitionsAt(aut: State<D, N>, out: bool, s: State<D, N>): (ts: set<Trans<D, N>>)
      requires Ok()
      reads this
      ensures ts == TransAt(nested, transitionToWeights, aut, out, s)
    {
      IndexesAt(aut, out, s);
      set p <- (if out then transitionsOutOf else transitionsInto) | p.0 == s && Home(nested, p.1) == aut :: p.1
    }

    /** A nested automaton holds the transitions whose target it is named by, the root
        those into the initial state, and no transition is lost. */
    lemma Partitioned(out: bool, s: State<D, N>)
      requires Ok() && nested
      ensures TransitionsAt(Sink, out, s) ==
        set t <- transitions | (if out then t.start else t.target) == s && t.target == Sink
      ensures forall q: State<D, N> | q.Gen? ::
        TransitionsAt(q, out, s) == set t <- transitions | (if out then t.start else t.target) == s && t.target == q
      ensures forall t <- transitions :: t.target == Sink || t.target.Gen?
    {
      hide Consistent, Notifies, Shaped;
      assert transitions == transitionToWeights.Keys;
      forall t <- transitions ensures t.target == Sink || t.target.Gen? { TargetHolds(t); }
    }

    lemma TargetHolds(t: Trans<D, N>)
      requires Ok() && t in transitionToWeights
      ensures t.target == Sink || t.target.Gen?
    {
      AllShaped();
      assert Shaped(empties, t);
    }

    /** Without nesting one automaton holds them all. */
    lemma HeldByRoot(out: bool, s: State<D, N>)
      requires Ok() && !nested
      ensures TransitionsAt(Sink, out, s) == set t <- transitions | (if out then t.start else t.target) == s
    {
      hide Consistent, Notifies;
      assert transitions == transitionToWeights.Keys;
    }

    lemma IndexesAt(aut: State<D, N>, out: bool, s: State<D, N>)
      requires Ok()
      ensures (set p <- (if out then transitionsOutOf else transitionsInto)
                 | p.0 == s && Home(nested, p.1) == aut :: p.1)
           == TransAt(nested, transitionToWeights, aut, out, s)
    {
      hide Consistent, Notifies;
      var index := if out then transitionsOutOf else transitionsInto;
      forall t <- transitionToWeights
        ensures ((if out then t.start else t.target), t) in index
      {
      }
      forall t | t in TransAt(nested, transitionToWeights, aut, out, s)
        ensures t in set p <- index | p.0 == s && Home(nested, p.1) == aut :: p.1
      {
        assert (s, t) in index && (s, t).1 == t;
      }
    }

    lemma SameOrStale(w0: W, w: W, w1: W)
      requires sr.Laws() && sr.Le(w0, w) && sr.Le(w, w1)
      ensures w0 == w || w0 != w1
    {
      if w0 == w1 {
        sr.LeAntisymmetric(w0, w);
      }
    }

    /** Tells l about t with the weight that t has now, which settles what was
        owed for the weight that t had before. */
    method TellOne(aut: State<D, N>, l: Listener<D, N, W>, out: bool, t: Trans<D, N>, ghost m0: map<Trans<D, N>, W>)
      requires Ok() && (aut, l) in stateListeners && t in transitionToWeights
      requires forall u <- m0 :: AtLeast(sr, transitionToWeights, u, m0[u])
      requires StateOf(l) == if out then t.start else t.target
      modifies this
      ensures Continues()
      ensures forall u <- m0 :: AtLeast(sr, transitionToWeights, u, m0[u])
      ensures t in m0 ==> Deliver(Event(l, out, t, m0[t])) !in pending
      decreases Missing(names, transitionToWeights), Raises(rank, transitionToWeights),
        MissingNestings(names, Snapshot()), 6 * Level(l) + 3, Nowhere()
    {
      hide Ok, Inv, Grows, WellFormed, SystemIn, WeightsIn, Derivable, ListenerOk, Missing, Raises, MissingNestings,
        Descends, Done;
      hide sr.Laws;
      OkParts();
      var w := transitionToWeights[t];
      sr.LeReflexive(w);
      InvTransition(Sys(), nested, Snapshot(), pending, age, t);
      InvListener(Sys(), nested, Snapshot(), pending, age, (aut, l));
      label before:
      OnTransitionAdded(Event(l, out, t, w));
      AtLeastGrows(sr, old@before(Snapshot()), Snapshot(), t, w);
      forall u <- m0 ensures AtLeast(sr, transitionToWeights, u, m0[u]) {
        AtLeastGrows(sr, old@before(Snapshot()), Snapshot(), u, m0[u]);
      }
      if t in m0 {
        SameOrStale(m0[t], w, transitionToWeights[t]);
        Forget(Deliver(Event(l, out, t, m0[t])));
      }
    }

    method RegisterWithNested(aut: State<D, N>, l: Listener<D, N, W>, ghost nested0: set<(State<D, N>, State<D, N>)>)
      requires Ok() && (aut, l) in stateListeners && nested0 <= nestedAutomatons
      modifies this
      ensures Continues()
      ensures pending <= old(pending) - RegisterIn(ChildrenOf(nested0, aut), l)
      decreases Missing(names, transitionToWeights), Raises(rank, transitionToWeights),
        MissingNestings(names, Snapshot()), 6 * Level(l) + 4, Lacking(l), 1
    {
      hide Ok, Inv, Grows, WellFormed, SystemIn, WeightsIn, Derivable, ListenerOk, Missing, Raises, MissingNestings,
        Descends, Done;
      hide sr.Laws;
      OkParts();
      GrowsReflexive(sr, Snapshot());
      var children := set ed <- nestedAutomatons | ed.0 == aut :: ed.1;
      var rest := children;
      ghost var owed := ChildrenOf(nested0, aut);
      InvAutomata(Sys(), nested, Snapshot(), pending, age);
      while rest != {}
        invariant rest <= children <= automata
        invariant Continues() && (aut, l) in stateListeners
        invariant pending <= old(pending) - RegisterIn(owed - rest, l)
        decreases rest
      {
        var child :| child in rest;
        rest := rest - {child};
        StillGoing();
        OkParts();
        GrowsParts(sr, old(Snapshot()), Snapshot());
        InvListener(Sys(), nested, Snapshot(), pending, age, (aut, l));
        assert Lacking(l) <= old(Lacking(l));
        label before:
        RegisterListener(child, l);
        GrowsTransitive(sr, old(Snapshot()), old@before(Snapshot()), Snapshot());
        GrowsParts(sr, old@before(Snapshot()), Snapshot());
        Forget(Register(child, l));
      }
      assert owed - rest == owed;
    }

    twostate predicate Added(aut: State<D, N>, l: Listener<D, N, W>)
      reads this
    {
      && Ok() && Sys() == old(Sys()) && names == old(names) && given == old(given)
      && Snapshot() == old(Snapshot()).(registered := old(stateListeners) + {(aut, l)})
      && pending == old(pending + RegisterTasks(nested, Snapshot(), aut, l))
      && summaryListeners == old(summaryListeners)
    }

    method AddListener(aut: State<D, N>, l: Listener<D, N, W>)
      requires Ok() && ListenerOk(Sys(), transitionToWeights, l) && aut in automata
      modifies this`stateListeners, this`pending
      ensures Added(aut, l)
    {
      hide Consistent, Bookkept, RegisterTasks, ListenerOk, Heard;
      HeardStill(RegisterTasks(nested, Snapshot(), aut, l), rules, inits);
      RegisterConsistent(Sys(), nested, rank, names, summaryListeners, Snapshot(), pending, age, aut, l);
      pending := pending + RegisterTasks(nested, Snapshot(), aut, l);
      stateListeners := stateListeners + {(aut, l)};
    }

    // -------------------------------------------------------------- reactions of the listeners

    method OnTransitionAdded(e: Event<D, N, W>)
      requires Ok() && ListenerOk(Sys(), transitionToWeights, e.l)
      requires Derivable(Sys(), e.t, e.w) && AtLeast(sr, transitionToWeights, e.t, e.w)
      requires StateOf(e.l) == if e.out then e.t.start else e.t.target
      modifies this
      ensures Continues() && Done(sr, empties, nested, Snapshot(), e)
      decreases Missing(names, transitionToWeights), Raises(rank, transitionToWeights),
        MissingNestings(names, Snapshot()), 6 * Level(e.l) + 2, Nowhere()
    {
      hide Ok, Inv, Grows, WellFormed, SystemIn, WeightsIn, Derivable, Missing, Raises, MissingNestings, Descends;
      hide sr.Laws, ListenerOk;
      OkParts();
      GrowsReflexive(sr, Snapshot());
      match e.l
      case HandleNormal(_) => if e.out { OnNormal(e); }
      case HandlePush(_) => if e.out { OnPush(e); }
      case HandlePop(_, _, _, _) => if e.out { OnPop(e); }
      case TransitivePop(_, _) => if e.out { OnTransitivePop(e); }
      case Observer(_, _) => OnObserved(e);
    }

    /** HandleNormalListener.onOutTransitionAdded */
    method OnNormal(e: Event<D, N, W>)
      requires Ok() && ListenerOk(Sys(), transitionToWeights, e.l)
      requires Derivable(Sys(), e.t, e.w) && AtLeast(sr, transitionToWeights, e.t, e.w)
      requires e.l.HandleNormal? && e.out && StateOf(e.l) == e.t.start
      modifies this
      ensures Continues() && Done(sr, empties, nested, Snapshot(), e)
      decreases Missing(names, transitionToWeights), Raises(rank, transitionToWeights),
        MissingNestings(names, Snapshot()), 6 * Level(e.l) + 1, Nowhere()
    {
      hide Ok, Inv, Grows, WellFormed, SystemIn, WeightsIn, Derivable, Missing, Raises, MissingNestings, Descends,
        Shaped;
      hide sr.Laws;
      OkParts();
      GrowsReflexive(sr, Snapshot());
      var r := e.l.r;
      if NormalFires(r, e.t) {
        InvTransition(Sys(), nested, Snapshot(), pending, age, e.t);
        DerivableNormal(Sys(), e.t, e.w, r);
        var _ := AddWeightForTransition(NormalResult(r, e.t), sr.extend(e.w, r.w));
      }
    }

    /** HandlePushListener.onOutTransitionAdded */
    method OnPush(e: Event<D, N, W>)
      requires Ok() && ListenerOk(Sys(), transitionToWeights, e.l)
      requires Derivable(Sys(), e.t, e.w) && AtLeast(sr, transitionToWeights, e.t, e.w)
      requires e.l.HandlePush? && e.out && StateOf(e.l) == e.t.start
      modifies this
      ensures Continues() && Done(sr, empties, nested, Snapshot(), e)
      decreases Missing(names, transitionToWeights), Raises(rank, transitionToWeights),
        MissingNestings(names, Snapshot()), 6 * Level(e.l) + 1, Nowhere()
    {
      hide Ok, Inv, Grows, WellFormed, SystemIn, WeightsIn, Derivable, Missing, Raises, MissingNestings, Descends,
        Shaped;
      hide sr.Laws;
      OkParts();
      GrowsReflexive(sr, Snapshot());
      var r := e.l.r;
      if PushFires(r, e.t) {
        var call, entry := CallResult(r, e.t), EntryResult(r);
        InvTransition(Sys(), nested, Snapshot(), pending, age, e.t);
        DerivablePush(Sys(), e.t, e.w, r);
        var _ := AddWeightForTransition(call, sr.extend(e.w, r.w));
        StillGoing();
        GrowsParts(sr, old(Snapshot()), Snapshot());
        Later(old(Snapshot()), entry, sr.one);
        assert r in rules by { RulesGrow(old(Snapshot())); }
        label called:
        if nested {
          HeldByTarget(e.t);
        }
        EnterCallee(Home(nested, e.t), entry, call, r, e.t);
        GrowsTransitive(sr, old(Snapshot()), old@called(Snapshot()), Snapshot());
        OkParts();
        AtLeastGrows(sr, old@called(Snapshot()), Snapshot(), call, sr.extend(e.w, r.w));
      }
    }

    lemma HeldByTarget(t: Trans<D, N>)
      requires Ok() && t in transitionToWeights && nested
      ensures Home(nested, t) == t.target
    {
      AllShaped();
      assert Shaped(empties, t);
    }

    /** The callee's entry goes to the flat automaton, or to a summary automaton
        nested in the automaton of the caller. */
    method EnterCallee(
      context: State<D, N>, entry: Trans<D, N>, call: Trans<D, N>, ghost r: Rule<D, N, W>, ghost t: Trans<D, N>)
      requires Ok() && context in automata && call in transitionToWeights
      requires r in rules && r.Push? && entry == EntryResult(r) && Derivable(Sys(), entry, sr.one)
      requires call.start == entry.target && t in transitionToWeights && PushFires(r, t)
      requires nested ==> context == t.target
      modifies this
      ensures Continues() && AtLeast(sr, transitionToWeights, entry, sr.one)
      ensures nested ==> (context, entry.target) in nestedAutomatons && call in summaryListeners
      decreases Missing(names, transitionToWeights), Raises(rank, transitionToWeights),
        MissingNestings(names, Snapshot()), 3, Nowhere()
    {
      hide Ok, Inv, Grows, WellFormed, SystemIn, WeightsIn, Derivable, Missing, Raises, MissingNestings, Descends,
        Shaped;
      hide sr.Laws;
      OkParts();
      GrowsReflexive(sr, Snapshot());
      InvAutomata(Sys(), nested, Snapshot(), pending, age);
      if !nested {
        var _ := AddWeightForTransition(entry, sr.one);
      } else {
        assert entry.target in AllStates(names) by { EntryNamed(r); }
        AddNestedAutomaton(context, entry.target);
        StillGoing();
        GrowsParts(sr, old(Snapshot()), Snapshot());
        Later(old(Snapshot()), entry, sr.one);
        label nestedNow:
        var _ := AddWeightForTransition(entry, sr.one);
        GrowsParts(sr, old@nestedNow(Snapshot()), Snapshot());
        GrowsTransitive(sr, old(Snapshot()), old@nestedNow(Snapshot()), Snapshot());
        GrowsParts(sr, old(Snapshot()), Snapshot());
        StillGoing();
        label entered:
        RegisterSummaryListener(call);
        GrowsTransitive(sr, old(Snapshot()), old@entered(Snapshot()), Snapshot());
        GrowsParts(sr, old@entered(Snapshot()), Snapshot());
        AtLeastGrows(sr, old@entered(Snapshot()), Snapshot(), entry, sr.one);
      }
    }

    lemma InputGrows(c: Core<D, N, W>, more: set<Rule<D, N, W>>, inputs: set<(Trans<D, N>, W)>)
      requires Grows(sr, c.(rules := c.rules + more, inits := c.inits + inputs), Snapshot())
      ensures c.rules + more <= rules && c.inits + inputs <= inits
    {
    }

    lemma RulesGrow(c: Core<D, N, W>)
      requires Grows(sr, c, Snapshot())
      ensures c.rules <= rules
    {
    }

    lemma EntryNamed(r: Rule<D, N, W>)
      requires Ok() && r in rules && r.Push?
      ensures EntryResult(r).target in AllStates(names)
    {
      assert RuleIn(names, r);
    }

    /** createNestedAutomaton for a new child, addNestedAutomaton for a known one. */
    method AddNestedAutomaton(parent: State<D, N>, child: State<D, N>)
      requires Ok() && parent in automata && child in AllStates(names)
      requires Calls(rules, transitionToWeights.Keys, parent, child)
      modifies this
      ensures Continues() && child in automata && (parent, child) in nestedAutomatons
      decreases Missing(names, transitionToWeights), Raises(rank, transitionToWeights),
        MissingNestings(names, Snapshot()), 1, Nowhere()
    {
      hide Ok, Inv, Grows, WellFormed, SystemIn, WeightsIn, Derivable, ListenerOk, Missing, Raises, Descends, Done,
        Passive;
      hide sr.Laws;
      OkParts();
      GrowsReflexive(sr, Snapshot());
      if (parent, child) in nestedAutomatons {
        InvAutomata(Sys(), nested, Snapshot(), pending, age);
        return;
      }
      var ls := set p <- stateListeners | p.0 == parent :: p.1;
      assert parent in AllStates(names) by { AutomataNamed(); }
      StoreNested(parent, child);
      assert (parent, child) in old(MissingNestings(names, Snapshot())) &&
        (parent, child) !in MissingNestings(names, Snapshot());
      StillGoing();
      label nestedNow:
      HandOn(parent, child, ls);
      GrowsTransitive(sr, old(Snapshot()), old@nestedNow(Snapshot()), Snapshot());
      GrowsParts(sr, old@nestedNow(Snapshot()), Snapshot());
    }

    /** The listeners of the parent are registered with the child. */
    method HandOn(parent: State<D, N>, child: State<D, N>, ls: set<Listener<D, N, W>>)
      requires Ok() && parent in automata && child in automata
      requires forall l <- ls :: (parent, l) in stateListeners
      modifies this
      ensures Continues()
      ensures pending <= old(pending) - RegisterAll(child, ls)
      decreases Missing(names, transitionToWeights), Raises(rank, transitionToWeights),
        MissingNestings(names, Snapshot()), 60, Nowhere()
    {
      hide Ok, Inv, Grows, WellFormed, SystemIn, WeightsIn, Derivable, ListenerOk, Missing, Raises, MissingNestings,
        Descends, Done, Passive;
      hide sr.Laws;
      OkParts();
      GrowsReflexive(sr, Snapshot());
      var rest := ls;
      while rest != {}
        invariant rest <= ls
        invariant Continues()
        invariant pending <= old(pending) - RegisterAll(child, ls - rest)
        decreases rest
      {
        var l :| l in rest;
        rest := rest - {l};
        OkParts();
        StillGoing();
        GrowsParts(sr, old(Snapshot()), Snapshot());
        InvListener(Sys(), nested, Snapshot(), pending, age, (parent, l));
        label before:
        RegisterListener(child, l);
        GrowsTransitive(sr, old(Snapshot()), old@before(Snapshot()), Snapshot());
        GrowsParts(sr, old@before(Snapshot()), Snapshot());
        Forget(Register(child, l));
      }
      assert ls - rest == ls;
    }

    ghost function RegisterAll(child: State<D, N>, ls: set<Listener<D, N, W>>): set<Task<D, N, W>> {
      set l <- ls :: Register(child, l)
    }

    twostate predicate NowNested(parent: State<D, N>, child: State<D, N>)
      reads this
    {
      && Ok() && Sys() == old(Sys()) && names == old(names) && given == old(given)
      && Snapshot() == Nested(old(Snapshot()), parent, child) && Grows(sr, old(Snapshot()), Snapshot())
      && pending == old(pending + NestTasks(Snapshot(), parent, child))
      && summaryListeners == old(summaryListeners)
    }

    method StoreNested(parent: State<D, N>, child: State<D, N>)
      requires Ok() && parent in automata && child in AllStates(names)
      requires Calls(rules, transitionToWeights.Keys, parent, child)
      modifies this`automata, this`nestedAutomatons, this`pending, this`age
      ensures NowNested(parent, child)
    {
      hide Consistent, Filed, NestTasks, NestedAge, Grows, AllStates, Heard, AllCalled;
      hide sr.Laws;
      OneMoreCalled(rules, transitionToWeights.Keys, nestedAutomatons, parent, child);
      HeardStill(NestTasks(Snapshot(), parent, child), rules, inits);
      NestConsistent(Sys(), nested, rank, names, summaryListeners, Snapshot(), pending, age, parent, child);
      pending, age := pending + NestTasks(Snapshot(), parent, child), NestedAge(age, parent, child);
      automata, nestedAutomatons := automata + {child}, nestedAutomatons + {(parent, child)};
    }

    /** The listener that connects returns to the call site of call. */
    method RegisterSummaryListener(call: Trans<D, N>)
      requires Ok() && call in transitionToWeights && call.start.Gen?
      modifies this
      ensures Continues() && call in summaryListeners
      ensures forall t <- old(transitionToWeights) :: t.lbl == Eps && t.target == call.start ==>
        Returns(transitionToWeights, t, old(transitionToWeights)[t], call, old(transitionToWeights)[call])
      decreases Missing(names, transitionToWeights), Raises(rank, transitionToWeights),
        MissingNestings(names, Snapshot()), 2, Somewhere()
    {
      hide Ok, Inv, Grows, WellFormed, SystemIn, WeightsIn, Derivable, ListenerOk, Missing, Raises, MissingNestings,
        Descends, Done, Returns, Passive;
      hide sr.Laws;
      StoreSummaryListener(call);
      IntoKnown();
      var exits := set p <- transitionsInto | p.0 == call.start && p.1.lbl == Eps :: p.1;
      assert forall t <- transitionToWeights :: t.lbl == Eps && t.target == call.start ==> t in exits;
      ConnectExits(exits, call);
    }

    /** The transitions that were there when the listener was registered. */
    method ConnectExits(exits: set<Trans<D, N>>, call: Trans<D, N>)
      requires Ok() && call in transitionToWeights && call in summaryListeners
      requires exits <= transitionToWeights.Keys && forall t <- exits :: t.target == call.start && t.lbl == Eps
      modifies this
      ensures Continues() && call in summaryListeners
      ensures forall t <- exits ::
        Returns(transitionToWeights, t, old(transitionToWeights)[t], call, old(transitionToWeights)[call])
      decreases Missing(names, transitionToWeights), Raises(rank, transitionToWeights),
        MissingNestings(names, Snapshot()), 2, Nowhere()
    {
      hide Ok, Inv, Grows, WellFormed, SystemIn, WeightsIn, Derivable, ListenerOk, Missing, Raises, MissingNestings,
        Descends, Done, Returns, Passive;
      hide sr.Laws;
      OkParts();
      GrowsReflexive(sr, Snapshot());
      ghost var m0 := transitionToWeights;
      var rest := exits;
      while rest != {}
        invariant rest <= exits && Continues() && call in summaryListeners
        invariant forall t <- exits - rest :: Returns(transitionToWeights, t, m0[t], call, m0[call])
        decreases rest
      {
        var t :| t in rest;
        rest := rest - {t};
        StillGoing();
        WeightKept(old(Snapshot()), Snapshot(), t);
        WeightKept(old(Snapshot()), Snapshot(), call);
        label before:
        ConnectExit(t, call, m0);
        GrowsTransitive(sr, old(Snapshot()), old@before(Snapshot()), Snapshot());
        GrowsParts(sr, old@before(Snapshot()), Snapshot());
        ReturnsKept(old@before(Snapshot()), Snapshot());
      }
    }

    /** One transition that was there when the listener was registered. */
    method ConnectExit(t: Trans<D, N>, call: Trans<D, N>, ghost m0: map<Trans<D, N>, W>)
      requires Ok() && t.lbl == Eps && call in summaryListeners && call.start == t.target
      requires t in m0 && AtLeast(sr, transitionToWeights, t, m0[t])
      requires call in m0 && AtLeast(sr, transitionToWeights, call, m0[call])
      modifies this
      ensures Continues() && Returns(transitionToWeights, t, m0[t], call, m0[call])
      decreases Missing(names, transitionToWeights), Raises(rank, transitionToWeights),
        MissingNestings(names, Snapshot()), 1, Somewhere()
    {
      hide Ok, Inv, Grows, WellFormed, SystemIn, WeightsIn, Derivable, Missing, Raises, MissingNestings, Descends,
        Returns;
      hide sr.Laws;
      OkParts();
      InvTransition(Sys(), nested, Snapshot(), pending, age, t);
      sr.LeReflexive(transitionToWeights[t]);
      ghost var m1 := transitionToWeights;
      ConnectReturn(t, transitionToWeights[t], call);
      ReturnsSince(m0, m1, t, call);
    }

    /** What was connected with later weights covers the earlier ones. */
    lemma ReturnsSince(m0: map<Trans<D, N>, W>, m1: map<Trans<D, N>, W>, t: Trans<D, N>, call: Trans<D, N>)
      requires sr.Laws() && t in m0 && call in m0
      requires AtLeast(sr, m1, t, m0[t]) && AtLeast(sr, m1, call, m0[call])
      requires Returns(transitionToWeights, t, m1[t], call, m0[call])
      ensures Returns(transitionToWeights, t, m0[t], call, m0[call])
    {
      sr.LeReflexive(m0[call]);
      ReturnsLess(t, m1[t], call, m0[call], m0[t], m0[call]);
    }

    lemma IntoKnown()
      requires Ok()
      ensures forall p <- transitionsInto :: p.1 in transitionToWeights && p.1.target == p.0
      ensures forall t <- transitionToWeights :: (t.target, t) in transitionsInto
    {
      hide Consistent, Notifies;
    }

    method StoreSummaryListener(call: Trans<D, N>)
      requires Ok() && call in transitionToWeights && call.start.Gen?
      modifies this`summaryListeners
      ensures Ok() && summaryListeners == old(summaryListeners) + {call}
    {
      hide Consistent, Bookkept;
      SummaryConsistent(Sys(), nested, rank, names, summaryListeners, Snapshot(), pending, age, call);
      summaryListeners := summaryListeners + {call};
    }

    /** HandlePopListener.onOutTransitionAdded */
    method OnPop(e: Event<D, N, W>)
      requires Ok() && ListenerOk(Sys(), transitionToWeights, e.l)
      requires Derivable(Sys(), e.t, e.w) && AtLeast(sr, transitionToWeights, e.t, e.w)
      requires e.l.HandlePop? && e.out && StateOf(e.l) == e.t.start
      modifies this
      ensures Continues() && Done(sr, empties, nested, Snapshot(), e)
      decreases Missing(names, transitionToWeights), Raises(rank, transitionToWeights),
        MissingNestings(names, Snapshot()), 6 * Level(e.l) + 1, Nowhere()
    {
      hide Ok, Inv, Grows, WellFormed, SystemIn, WeightsIn, Derivable, Missing, Raises, MissingNestings, Descends,
        Shaped;
      hide sr.Laws;
      OkParts();
      GrowsReflexive(sr, Snapshot());
      assert Shaped(empties, e.t) by { DerivableIsShaped(Sys(), e.t, e.w); }
      if e.t.lbl == Sym(e.l.l1) {
        if e.t.target.Gen? {
          PopGenerated(e);
        } else {
          UnbalancedPop(e);
        }
      }
      StillGoing();
      label popped:
      if e.t.lbl in empties {
        OkParts();
        ListenerLater(old(Snapshot()), e.l);
        Later(old(Snapshot()), e.t, e.w);
        AtLeastGrows(sr, old(Snapshot()), Snapshot(), e.t, e.w);
        MoveOn(e);
        OkParts();
        GrowsTransitive(sr, old(Snapshot()), old@popped(Snapshot()), Snapshot());
        PoppedGrows(e, old@popped(Snapshot()), Snapshot());
      }
    }

    /** The two effects of a pop, apart from moving on. */
    ghost predicate Popped(e: Event<D, N, W>, c: Core<D, N, W>)
      requires e.l.HandlePop?
    {
      && (e.t.lbl == Sym(e.l.l1) && e.t.target.Gen? ==>
            var eps := Trans(Control(e.l.s2), Eps, e.t.target);
            && AtLeast(sr, c.weights, eps, sr.extend(e.w, e.l.w))
            && (Sink, TransitivePop(eps, sr.extend(e.w, e.l.w))) in c.registered)
      && (e.t.lbl == Sym(e.l.l1) && !e.t.target.Gen? ==>
            (e.l.s2, e.t) in c.table && sr.Le(e.w, c.table[(e.l.s2, e.t)]))
    }

    lemma PoppedGrows(e: Event<D, N, W>, c: Core<D, N, W>, c': Core<D, N, W>)
      requires sr.Laws() && Grows(sr, c, c') && e.l.HandlePop? && Popped(e, c)
      ensures Popped(e, c')
    {
      if e.t.lbl == Sym(e.l.l1) {
        if e.t.target.Gen? {
          AtLeastGrows(sr, c, c', Trans(Control(e.l.s2), Eps, e.t.target), sr.extend(e.w, e.l.w));
        } else {
          sr.LeTransitive(e.w, c.table[(e.l.s2, e.t)], c'.table[(e.l.s2, e.t)]);
        }
      }
    }

    /** A pop inside the callee of a generated state: the source throws if the
        popped label is an Empty, which the assertion rules out. */
    method PopGenerated(e: Event<D, N, W>)
      requires Ok() && ListenerOk(Sys(), transitionToWeights, e.l)
      requires Derivable(Sys(), e.t, e.w) && AtLeast(sr, transitionToWeights, e.t, e.w)
      requires e.l.HandlePop? && e.out && StateOf(e.l) == e.t.start
      requires e.t.lbl == Sym(e.l.l1) && e.t.target.Gen? && Shaped(empties, e.t)
      modifies this
      ensures Continues() && Popped(e, Snapshot())
      decreases Missing(names, transitionToWeights), Raises(rank, transitionToWeights),
        MissingNestings(names, Snapshot()), 6 * Level(e.l), Nowhere()
    {
      hide Ok, Inv, Grows, WellFormed, SystemIn, WeightsIn, Derivable, Missing, Raises, MissingNestings, Descends,
        ListenerOk;
      hide sr.Laws;
      OkParts();
      assert e.t.lbl !in empties;
      var eps, newWeight := Trans(Control(e.l.s2), Eps, e.t.target), sr.extend(e.w, e.l.w);
      InvTransition(Sys(), nested, Snapshot(), pending, age, e.t);
      assert AllDerivable(Sys(), transitionToWeights) by { InvDerivable(); }
      DerivablePop(Sys(), transitionToWeights, e.l, e.t, e.w);
      var _ := AddWeightForTransition(eps, newWeight);
      StillGoing();
      OkParts();
      InvAutomata(Sys(), nested, Snapshot(), pending, age);
      Later(old(Snapshot()), eps, newWeight);
      assert ListenerOk(Sys(), transitionToWeights, TransitivePop(eps, newWeight)) by {
        TransitivePopOk(eps, newWeight);
      }
      label added:
      RegisterListener(Sink, TransitivePop(eps, newWeight));
      GrowsTransitive(sr, old(Snapshot()), old@added(Snapshot()), Snapshot());
      AtLeastGrows(sr, old@added(Snapshot()), Snapshot(), eps, newWeight);
    }

    lemma InvDerivable()
      requires Ok()
      ensures AllDerivable(Sys(), transitionToWeights)
    {
    }

    lemma TransitivePopOk(eps: Trans<D, N>, w: W)
      requires eps.start.Control? && eps.lbl == Eps && eps.target.Gen? && eps in transitionToWeights &&
        Derivable(Sys(), eps, w)
      ensures ListenerOk(Sys(), transitionToWeights, TransitivePop(eps, w))
    {
    }

    /** unbalancedPop: nothing is left below the popped symbol. */
    method UnbalancedPop(e: Event<D, N, W>)
      requires Ok() && ListenerOk(Sys(), transitionToWeights, e.l)
      requires Derivable(Sys(), e.t, e.w) && AtLeast(sr, transitionToWeights, e.t, e.w)
      requires e.l.HandlePop? && e.out && StateOf(e.l) == e.t.start
      requires e.t.lbl == Sym(e.l.l1) && !e.t.target.Gen? && Shaped(empties, e.t)
      modifies this`unbalancedPops
      ensures Continues() && Popped(e, Snapshot())
    {
      hide Consistent, Bookkept, Grows, ListenerOk, Derivable;
      hide sr.Laws;
      assert sr.Laws() by { OkParts(); }
      GrowsReflexive(sr, Snapshot());
      var k := (e.l.s2, e.t);
      var newVal := e.w;
      sr.LeReflexive(e.w);
      if k in unbalancedPops {
        newVal := sr.combine(unbalancedPops[k], e.w);
        sr.CombineIsJoin(unbalancedPops[k], e.w);
        assert sr.Le(unbalancedPops[k], transitionToWeights[e.t]) by { TableBelow(); }
        if newVal == unbalancedPops[k] {
          return;
        }
      }
      TableConsistent(Sys(), nested, rank, names, summaryListeners, Snapshot(), pending, age, e.l, e.t, newVal);
      unbalancedPops := unbalancedPops[k := newVal];
    }

    lemma TableBelow()
      requires Ok()
      ensures forall k <- unbalancedPops ::
        k.1 in transitionToWeights && sr.Le(unbalancedPops[k], transitionToWeights[k.1])
    {
    }

    /** An Empty label lets the pop listener move on to the target. */
    method MoveOn(e: Event<D, N, W>)
      requires Ok() && ListenerOk(Sys(), transitionToWeights, e.l)
      requires Derivable(Sys(), e.t, e.w) && AtLeast(sr, transitionToWeights, e.t, e.w)
      requires e.l.HandlePop? && e.out && StateOf(e.l) == e.t.start && e.t.lbl in empties && Shaped(empties, e.t)
      modifies this
      ensures Continues() && (Sink, HandlePop(e.t.target, e.l.l1, e.l.s2, e.l.w)) in stateListeners
      decreases Missing(names, transitionToWeights), Raises(rank, transitionToWeights),
        MissingNestings(names, Snapshot()), 6 * Level(e.l), Nowhere()
    {
      hide Ok, Inv, Grows, WellFormed, SystemIn, WeightsIn, Derivable, Missing, Raises, MissingNestings, Descends,
        ListenerOk;
      hide sr.Laws;
      OkParts();
      InvAutomata(Sys(), nested, Snapshot(), pending, age);
      assert forall t <- transitionToWeights :: Shaped(empties, t) by { AllShaped(); }
      MovedPopListener(Sys(), transitionToWeights, e.l, e.t);
      RegisterListener(Sink, HandlePop(e.t.target, e.l.l1, e.l.s2, e.l.w));
    }

    lemma AllShaped()
      requires Ok()
      ensures forall t <- transitionToWeights :: Shaped(empties, t)
    {
      DerivableShaped(Sys(), transitionToWeights);
    }

    /** UpdateTransitivePopListener.onOutTransitionAdded */
    method OnTransitivePop(e: Event<D, N, W>)
      requires Ok() && ListenerOk(Sys(), transitionToWeights, e.l)
      requires Derivable(Sys(), e.t, e.w) && AtLeast(sr, transitionToWeights, e.t, e.w)
      requires e.l.TransitivePop? && e.out && StateOf(e.l) == e.t.start
      modifies this
      ensures Continues() && Done(sr, empties, nested, Snapshot(), e)
      decreases Missing(names, transitionToWeights), Raises(rank, transitionToWeights),
        MissingNestings(names, Snapshot()), 6 * Level(e.l) + 1, Nowhere()
    {
      hide Ok, Inv, Grows, WellFormed, SystemIn, WeightsIn, Derivable, Missing, Raises, MissingNestings, Descends,
        Shaped;
      hide sr.Laws;
      OkParts();
      InvTransition(Sys(), nested, Snapshot(), pending, age, e.t);
      DerivableReturn(Sys(), e.l.e, e.l.newWeight, e.t, e.w);
      var _ := AddWeightForTransition(ReturnResult(e.l.e, e.t), sr.extend(e.w, e.l.newWeight));
    }

    /** Any other listener only takes note. */
    method OnObserved(e: Event<D, N, W>)
      requires Ok() && ListenerOk(Sys(), transitionToWeights, e.l)
      requires Derivable(Sys(), e.t, e.w) && AtLeast(sr, transitionToWeights, e.t, e.w)
      requires e.l.Observer? && StateOf(e.l) == if e.out then e.t.start else e.t.target
      modifies this
      ensures Continues() && Done(sr, empties, nested, Snapshot(), e)
      decreases Missing(names, transitionToWeights), Raises(rank, transitionToWeights),
        MissingNestings(names, Snapshot()), 6 * Level(e.l) + 1, Nowhere()
    {
      hide Consistent, Bookkept, Grows;
      SeenConsistent(Sys(), nested, rank, names, summaryListeners, Snapshot(), pending, age, e);
      seen := seen + {e};
    }

    // -------------------------------------------------------------- entry points

    /** Between calls from outside nothing is owed, and all input is handled. */
    ghost predicate Quiet()
      reads this
    {
      Ok() && pending == {} && InputHandled(Sys(), Snapshot())
    }

    /** An initial transition, from outside or while calls are under way. */
    method AddInitialTransition(t: Trans<D, N>, w: W, ghost outside: bool := true) returns (changed: bool)
      requires Ok() && InitialTransition(t) && TransIn(names, t)
      requires outside || ByListener(notifications, NewTransition(t, w))
      modifies this
      ensures Proceeds() && (old(Quiet()) ==> Quiet())
      ensures old(rules) <= rules && old(inits) + {(t, w)} <= inits
      ensures given == old(given) + if outside then {NewTransition(t, w)} else {}
      ensures Passive() ==> rules == old(rules) && inits == old(inits) + {(t, w)}
      ensures changed <==> transitionToWeights != old(transitionToWeights)
      decreases Missing(names, transitionToWeights), Raises(rank, transitionToWeights),
        MissingNestings(names, Snapshot()), 35, Nowhere()
    {
      hide Consistent, Bookkept, Grows, InputHandled, Derivable, EffectIn, TransIn, Missing, Raises,
        Passive, Heard, Sourced, ByListener, AllCalled;
      AddInitConsistent(Sys(), nested, rank, names, summaryListeners, Snapshot(), pending, age, t, w);
      HeardStill({}, rules, inits + {(t, w)});
      SourcedAnew(NewTransition(t, w), outside);
      assert pending + {} == pending;
      if outside {
        given := given + {NewTransition(t, w)};
      }
      inits := inits + {(t, w)};
      label added:
      assert Snapshot() == old(Snapshot()).(rules := rules + {}, inits := inits);
      changed := AddWeightForTransition(t, w);
      GrowsByInput(sr, old(Snapshot()), Snapshot(), {}, {(t, w)});
      InputGrows(old(Snapshot()), {}, {(t, w)});
      StillHandled(old(Sys()), old(Snapshot()));
    }

    /** PostStarUpdateListener.onRuleAdded, from outside or while calls are under way */
    method OnRuleAdded(r: Rule<D, N, W>, ghost outside: bool := true)
      requires Ok() && WellFormedRule(empties, r) && RuleIn(names, r)
      requires outside || ByListener(notifications, NewRule(r))
      modifies this
      ensures Proceeds() && (old(Quiet()) ==> Quiet())
      ensures old(rules) + {r} <= rules && old(inits) <= inits
      ensures given == old(given) + if outside then {NewRule(r)} else {}
      ensures Passive() ==> rules == old(rules) + {r} && inits == old(inits)
      decreases Missing(names, transitionToWeights), Raises(rank, transitionToWeights),
        MissingNestings(names, Snapshot()), 35, Nowhere()
    {
      hide Consistent, Bookkept, Grows, InputHandled, ListenerOk, WellFormedRule, EffectIn, RuleIn, Missing, Raises,
        Passive, Heard, Sourced, ByListener, AllCalled;
      CalledStill(rules, transitionToWeights.Keys, nestedAutomatons, rules + {r}, transitionToWeights.Keys);
      AddRuleConsistent(Sys(), nested, rank, names, summaryListeners, Snapshot(), pending, age, r);
      HeardStill({}, rules + {r}, inits);
      SourcedAnew(NewRule(r), outside);
      assert pending + {} == pending;
      if outside {
        given := given + {NewRule(r)};
      }
      rules := rules + {r};
      assert Snapshot() == old(Snapshot()).(rules := rules, inits := inits + {});
      RegisterListener(Sink, ListenerFor(r));
      GrowsByInput(sr, old(Snapshot()), Snapshot(), {r}, {});
      InputGrows(old(Snapshot()), {r}, {});
      StillHandled(old(Sys()), old(Snapshot()));
    }

    /** From outside, rules and transitions may mention new names. */
    ghost method ReserveRule(r: Rule<D, N, W>)
      requires Quiet()
      modifies this`names
      ensures Quiet() && RuleIn(names, r)
    {
      Reserve(RuleNames(names, r));
    }

    ghost method ReserveTransition(t: Trans<D, N>)
      requires Quiet() && InitialTransition(t)
      modifies this`names
      ensures Quiet() && TransIn(names, t)
    {
      Reserve(TransNames(names, t));
    }

    ghost method Reserve(more: Names<D, N>)
      requires Quiet()
      modifies this`names
      ensures Quiet() && NamesExtend(old(names), names) && NamesExtend(more, names)
    {
      hide Consistent, Bookkept;
      var names' := Names(names.states + more.states, names.symbols + more.symbols);
      ReserveConsistent(Sys(), nested, rank, names, names', summaryListeners, Snapshot(), pending, age);
      names := names';
    }

    /** Input stays handled while the automaton grows. */
    lemma StillHandled(sys: System<D, N, W>, c: Core<D, N, W>)
      requires Ok() && sys == System(sr, empties, c.rules, c.inits) && Grows(sr, c, Snapshot())
      ensures InputHandled(sys, c) ==> InputHandled(Sys(), Snapshot())
    {
      OkParts();
      GrowsParts(sr, c, Snapshot());
      if InputHandled(sys, c) {
        forall i <- inits ensures AtLeast(sr, transitionToWeights, i.0, i.1) {
          if i in sys.inits {
            AtLeastGrows(sr, c, Snapshot(), i.0, i.1);
          }
        }
      }
    }

    /** A listener that only looks. */
    method RegisterObserver(on: State<D, N>, id: nat)
      requires Ok()
      modifies this
      ensures Continues() && (old(Quiet()) ==> Quiet())
      ensures (Sink, Observer(on, id)) in stateListeners
    {
      hide Consistent, Bookkept, Grows, InputHandled, Ok;
      OkParts();
      InvAutomata(Sys(), nested, Snapshot(), pending, age);
      RegisterListener(Sink, Observer(on, id));
      StillHandled(old(Sys()), old(Snapshot()));
    }

    /** An observer has been told the current weight of every transition into and
        out of its state, in whatever nested automaton, and nothing untrue. */
    lemma ObserverTold(on: State<D, N>, id: nat, t: Trans<D, N>)
      requires Quiet() && (Sink, Observer(on, id)) in stateListeners && t in transitionToWeights
      ensures t.start == on ==> Event(Observer(on, id), true, t, transitionToWeights[t]) in seen
      ensures t.target == on ==> Event(Observer(on, id), false, t, transitionToWeights[t]) in seen
      ensures forall e <- seen :: AtLeast(sr, transitionToWeights, e.t, e.w)
    {
      RootListenerTold(Sys(), nested, Snapshot(), age, Observer(on, id), t);
    }

    /** Once it is quiet, the rules and initial transitions are exactly those given
        and those that the update listeners add for the notifications. */
    lemma InputExact(i: Input<D, N, W>)
      requires Quiet()
      ensures Taken(rules, inits, i) <==> i in given || ByListener(notifications, i)
    {
      if k: nat :| k < |notifications| && i in effect(notifications[..k + 1], notifications[k].0, notifications[k].1) {
        assert Answered(notifications, rules, inits, k);
      }
    }

    /** A callee is nested in the automaton of exactly those transitions from which
        some rule calls it. */
    lemma NestedExactly(parent: State<D, N>, child: State<D, N>)
      requires Quiet() && nested
      ensures (parent, child) in nestedAutomatons <==>
        exists r <- rules, t <- transitions :: PushFires(r, t) && parent == t.target && child == Gen(r.s2, r.l2)
    {
      hide Consistent, Notifies;
      assert transitions == transitionToWeights.Keys;
      if (parent, child) in nestedAutomatons {
        assert Calls(rules, transitionToWeights.Keys, parent, child);
      }
      if r, t :| r in rules && t in transitions && PushFires(r, t) && parent == t.target && child == Gen(r.s2, r.l2) {
        CallNested(r, t);
      }
    }

    /** If a callee has returned over e and was called over t, then its automaton holds e,
        and the one that holds t has it nested. */
    lemma ReturnNested(e: Trans<D, N>, t: Trans<D, N>)
      requires Quiet() && nested && e in transitionToWeights && t in transitionToWeights
      requires e.lbl == Eps && t.start == e.target
      ensures (t.target, e.target) in nestedAutomatons
      ensures e in TransitionsAt(e.target, false, e.target) && t in TransitionsAt(t.target, true, e.target)
    {
      hide Ok, Saturated;
      QuietIsSolution();
      DerivableShaped(Sys(), transitionToWeights);
      assert Shaped(empties, e) && Shaped(empties, t);
      var d := DerivationOf(Sys(), transitionToWeights, t);
      assert sr.Laws() by { OkParts(); }
      GeneratedByCall(Sys(), transitionToWeights, d);
      var r, t0 :| r in rules && t0 in transitionToWeights && PushFires(r, t0) && CallResult(r, t0) == t;
      CallNested(r, t0);
      Partitioned(false, e.target);
      Partitioned(true, e.target);
      assert transitions == transitionToWeights.Keys by { Known(); }
    }

    lemma Known()
      requires Ok()
      ensures transitions == transitionToWeights.Keys
    {
      hide Consistent, Notifies;
    }

    lemma CallNested(r: Rule<D, N, W>, t: Trans<D, N>)
      requires Quiet() && nested && r in rules && t in transitionToWeights && PushFires(r, t)
      ensures (t.target, Gen(r.s2, r.l2)) in nestedAutomatons
    {
      hide Delivered, Propagated, Housed;
      assert (Sink, ListenerFor(r)) in stateListeners;
      RootListenerTold(Sys(), nested, Snapshot(), age, ListenerFor(r), t);
    }

    /** What the saturation has computed once it is quiet. */
    lemma QuietIsSolution()
      requires Quiet()
      ensures WellFormed(Sys()) && Solution(Sys(), transitionToWeights)
      ensures TableSaturated(Sys(), transitionToWeights, unbalancedPops)
      ensures TableJustified(Sys(), transitionToWeights, unbalancedPops)
    {
      SettledIsSolution(Sys(), nested, Snapshot(), age);
    }
  }
}
