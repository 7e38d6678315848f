/** The synchronized solver: it expands a node once both automata report it, and
    each expansion adds rules to both pushdown systems. */
module SyncPDSSolvers {
  import opened Semirings
  import opened Pushdown
  import opened PAutomata
  import opened Exactness
  import opened LeastSolution
  import opened Termination
  import opened PostStar
  import opened WeightedPushdownSystems
  import opened SyncMachine
  import opened Synchronization
  import opened StackMachines
  import SyncInterleavings

  /** A pushdown system without rules, saturating aut. */
  method NewSystem<D(==, !new), N(==, !new), W(==, !new)>(
    aut: WeightedPAutomaton<D, N, W>) returns (pds: WeightedPushdownSystem<D, N, W>)
    requires aut.Quiet() && aut.Passive() && aut.rules == {}
    modifies aut
    ensures fresh(pds) && pds.Settled() && pds.listeners == {aut} && pds.GetAllRules() == {}
    ensures aut.Quiet() && aut.rules == {} && aut.inits == old(aut.inits)
  {
    hide WeightedPAutomaton.Quiet;
    pds := new WeightedPushdownSystem<D, N, W>();
    pds.Poststar(aut);
  }

  /** What notifications change. */
  datatype View<!S(==), !F(==), !L(==), W> = View(
    reached: set<Node<S, F>>,
    callContext: set<Node<S, F>>,
    fieldContext: set<Node<S, F>>,
    callWeights: map<Trans<F, S>, W>,
    fieldWeights: map<Trans<Node<S, F>, FieldLabel<L>>, W>)


  class SyncPDSSolver<S(==, !new), F(==, !new), L(==, !new), W(==, !new)> {
    const an: Analysis<S, F, L, W>
    const callingPDS: WeightedPushdownSystem<F, S, W>
    const fieldPDS: WeightedPushdownSystem<Node<S, F>, FieldLabel<L>, W>
    const callAutomaton: WeightedPAutomaton<F, S, W>
    const fieldAutomaton: WeightedPAutomaton<Node<S, F>, FieldLabel<L>, W>

    var reachedStates: set<Node<S, F>>
    var callingContextReachable: set<Node<S, F>>
    var fieldContextReachable: set<Node<S, F>>
    /** The nodes handed to computeSuccessor, in order. */
    var expansions: seq<Node<S, F>>

    ghost var starts: set<(Node<S, F>, W)>
    /** A finite set of nodes that the analysis stays within. */
    ghost var nodes: set<Node<S, F>>

    ghost function Repr(): set<object>
      reads this
    {
      {this, callingPDS, fieldPDS, callAutomaton, fieldAutomaton}
    }

    ghost predicate Apart() {
      && (callAutomaton as object) != fieldAutomaton
      && (callingPDS as object) != fieldPDS
      && (callAutomaton as object) !in {callingPDS as object, fieldPDS}
      && (fieldAutomaton as object) !in {callingPDS as object, fieldPDS}
    }

    /** The call automaton is saturated for the expanded nodes ns. */
    ghost predicate CallsFor(ns: set<Node<S, F>>)
      reads callingPDS, callAutomaton, callingPDS.listeners
    {
      && callingPDS.Settled() && callingPDS.listeners == {callAutomaton}
      && callAutomaton.Quiet() && callAutomaton.Passive()
      && callAutomaton.sr == an.sr && callAutomaton.empties == an.callEmpties
      && callingPDS.GetAllRules() == callAutomaton.rules == CallRules(an, ns)
    }

    ghost predicate FieldsFor(ns: set<Node<S, F>>)
      reads fieldPDS, fieldAutomaton, fieldPDS.listeners
    {
      && fieldPDS.Settled() && fieldPDS.listeners == {fieldAutomaton}
      && fieldAutomaton.Quiet() && fieldAutomaton.Passive()
      && fieldAutomaton.sr == an.sr && fieldAutomaton.empties == an.fieldEmpties
      && fieldPDS.GetAllRules() == fieldAutomaton.rules == FieldRules(an, ns)
    }

    ghost predicate Inputs()
      reads this, callAutomaton, fieldAutomaton
    {
      && callAutomaton.inits == (set st <- starts :: InitialCall(st))
      && fieldAutomaton.inits == (set st <- starts :: InitialField(an.sr.one, st))
    }

    /** Each node in reached has been expanded, and none of them twice. */
    static ghost predicate Expanded(expansions: seq<Node<S, F>>, reached: set<Node<S, F>>) {
      && (forall n :: n in expansions <==> n in reached)
      && (forall i, j :: 0 <= i < j < |expansions| ==> expansions[i] != expansions[j])
    }

    /** Reported nodes come from transitions, and the nodes in both context sets
        have been expanded, no more than necessary; those in more may still have
        to be. */
    ghost predicate ContextsBut(more: set<Node<S, F>>)
      reads this, callAutomaton, fieldAutomaton
    {
      && callingContextReachable <= CallNodes(callAutomaton.transitionToWeights.Keys)
      && fieldContextReachable <= FieldNodes(fieldAutomaton.transitionToWeights.Keys)
      && reachedStates + more == callingContextReachable * fieldContextReachable
      && Minimal(an, starts, reachedStates)
      && Expanded(expansions, reachedStates)
    }

    ghost predicate ValidBut(more: set<Node<S, F>>)
      reads this, callingPDS, fieldPDS, callAutomaton, fieldAutomaton, callingPDS.listeners, fieldPDS.listeners
    {
      && ValidAnalysis(an) && Apart() && Closed(an, starts, nodes)
      && CallsFor(reachedStates) && FieldsFor(reachedStates) && Inputs() && ContextsBut(more)
      && reachedStates <= nodes
    }

    ghost predicate Valid()
      reads this, callingPDS, fieldPDS, callAutomaton, fieldAutomaton, callingPDS.listeners, fieldPDS.listeners
    {
      ValidBut({})
    }

    /** No transition is left to report. */
    ghost predicate Quiescent()
      reads this, callingPDS, fieldPDS, callAutomaton, fieldAutomaton, callingPDS.listeners, fieldPDS.listeners
    {
      && Valid()
      && callingContextReachable == CallNodes(callAutomaton.transitionToWeights.Keys)
      && fieldContextReachable == FieldNodes(fieldAutomaton.transitionToWeights.Keys)
    }

    constructor (
      an: Analysis<S, F, L, W>, nestedCalls: bool, nestedFields: bool, ghost rank: W -> nat,
      ghost nodes: set<Node<S, F>>)
      requires ValidAnalysis(an) && Descends(an.sr, rank) && Closed(an, {}, nodes)
      ensures Valid() && fresh(Repr()) && this.an == an && this.nodes == nodes && starts == {}
    {
      hide WeightedPAutomaton.Quiet, WeightedPushdownSystem.Settled, Valid, Closed;
      hide an.sr.Laws;
      var calls := new WeightedPAutomaton<F, S, W>(an.sr, an.callEmpties, nestedCalls, (log, t, w) => [],
        Names({}, {}), rank);
      var fields := new WeightedPAutomaton<Node<S, F>, FieldLabel<L>, W>(
        an.sr, an.fieldEmpties, nestedFields, (log, t, w) => [], Names({}, {}), rank);
      var callPDS := NewSystem(calls);
      var fldPDS := NewSystem(fields);
      this.an := an;
      callAutomaton, fieldAutomaton, callingPDS, fieldPDS := calls, fields, callPDS, fldPDS;
      reachedStates, callingContextReachable, fieldContextReachable, expansions := {}, {}, {}, [];
      starts, this.nodes := {}, nodes;
      new;
      InitiallyValid();
    }

    lemma InitiallyValid()
      requires ValidAnalysis(an) && Apart() && Closed(an, {}, nodes) && starts == {}
      requires reachedStates == {} && callingContextReachable == {} && fieldContextReachable == {} && expansions == []
      requires callingPDS.Settled() && callingPDS.listeners == {callAutomaton} && callingPDS.GetAllRules() == {}
      requires fieldPDS.Settled() && fieldPDS.listeners == {fieldAutomaton} && fieldPDS.GetAllRules() == {}
      requires callAutomaton.Passive() && fieldAutomaton.Passive()
      requires callAutomaton.sr == an.sr && callAutomaton.empties == an.callEmpties && callAutomaton.inits == {}
      requires fieldAutomaton.sr == an.sr && fieldAutomaton.empties == an.fieldEmpties && fieldAutomaton.inits == {}
      ensures Valid()
    {
      hide WeightedPAutomaton.Ok, WeightedPAutomaton.Passive, ValidAnalysis, Closed;
      assert CallsFor({}) && FieldsFor({}) && Inputs() && ContextsBut({});
    }

    // -------------------------------------------------------------- what quiescence means

    lemma AutomataSolved(ns: set<Node<S, F>>)
      requires CallsFor(ns) && FieldsFor(ns) && Inputs()
      ensures Solution(CallSystem(an, starts, ns), callAutomaton.transitionToWeights)
      ensures Solution(FieldSystem(an, starts, ns), fieldAutomaton.transitionToWeights)
    {
      callAutomaton.QuietIsSolution();
      fieldAutomaton.QuietIsSolution();
      assert callAutomaton.Sys() == CallSystem(an, starts, ns);
      assert fieldAutomaton.Sys() == FieldSystem(an, starts, ns);
    }

    /** A node is reached exactly if both pushdown systems reach it. */
    lemma ReachedExactly(n: Node<S, F>)
      requires Quiescent()
      ensures n in reachedStates <==>
        CallReachable(an, starts, reachedStates, n) && FieldReachable(an, starts, reachedStates, n)
    {
      hide WeightedPAutomaton.Quiet, WeightedPushdownSystem.Settled;
      AutomataSolved(reachedStates);
      CallNodesExact(an, starts, reachedStates, callAutomaton.transitionToWeights, n);
      FieldNodesExact(an, starts, reachedStates, fieldAutomaton.transitionToWeights, n);
    }

    /** The reached nodes are the least set that is closed under synchronized
        expansion, whatever the order of events. */
    lemma ReachedLeast()
      requires Quiescent()
      ensures Synchronized(an, starts, reachedStates)
      ensures forall others :: Synchronized(an, starts, others) ==> reachedStates <= others
    {
      hide WeightedPAutomaton.Quiet, WeightedPushdownSystem.Settled;
      forall n | CallReachable(an, starts, reachedStates, n) && FieldReachable(an, starts, reachedStates, n)
        ensures n in reachedStates
      {
        ReachedExactly(n);
      }
    }

    /** Soundness: every node of the two-stack machine is reached. */
    lemma Sound(start: (Node<S, F>, W), ss: seq<Successor<S, F, L>>, c: TwoStack<S, F, L>)
      requires Quiescent() && start in starts && Runs(an, Initial(start.0), ss, c) && c.fields != []
      ensures c.node in reachedStates
    {
      hide WeightedPAutomaton.Quiet, WeightedPushdownSystem.Settled;
      ReachedLeast();
      SynchronizedSound(an, starts, reachedStates, start, ss, c);
    }

    /** A node is reached exactly if both halves of the machine come there over
        reached nodes, each with its own successors. */
    lemma ReachedByHalves(n: Node<S, F>)
      requires Quiescent()
      ensures n in reachedStates <==>
        CallHalfReaches(an, starts, reachedStates, n) && FieldHalfReaches(an, starts, reachedStates, n)
    {
      hide WeightedPAutomaton.Quiet, WeightedPushdownSystem.Settled;
      ReachedExactly(n);
      HalvesReach(an, starts, reachedStates, n);
    }

    /** The two-stack machine comes to n with something on its field stack. */
    ghost predicate MachineReaches(n: Node<S, F>)
      reads this
    {
      exists start, ss, c :: start in starts && Runs(an, Initial(start.0), ss, c) && c.node == n && c.fields != []
    }

    /** For an analysis without calls the reached nodes are exactly those of the machine, */
    lemma FieldsOnlyExact(n: Node<S, F>)
      requires Quiescent() && FieldsOnly(an)
      ensures n in reachedStates <==> MachineReaches(n)
    {
      hide WeightedPAutomaton.Quiet, WeightedPushdownSystem.Settled;
      ReachedByHalves(n);
      if n in reachedStates {
        var start, ss, fields, w :| start in starts && fields != [] &&
          FieldRuns(an, reachedStates, start, ss, Half(n, fields), w);
        FieldsOnlyRuns(an, reachedStates, start, ss, Half(n, fields), w);
      }
      if start, ss, c :| start in starts && Runs(an, Initial(start.0), ss, c) && c.node == n && c.fields != [] {
        Sound(start, ss, c);
      }
    }

    /** and so they are without fields, if a return names all call sites. */
    lemma CallsOnlyExact(n: Node<S, F>)
      requires Quiescent() && CallsOnly(an) && ReturnsToAll(an)
      ensures n in reachedStates <==> MachineReaches(n)
    {
      hide WeightedPAutomaton.Quiet, WeightedPushdownSystem.Settled;
      ReachedByHalves(n);
      if n in reachedStates {
        var start, ss, calls, w :| start in starts && CallRuns(an, reachedStates, start, ss, Half(n, calls), w);
        var ss' := CallsOnlyRuns(an, reachedStates, start, ss, Half(n, calls), w);
      }
      if start, ss, c :| start in starts && Runs(an, Initial(start.0), ss, c) && c.node == n && c.fields != [] {
        Sound(start, ss, c);
      }
    }

    // -------------------------------------------------------------- nested automata

    /** What the listeners of CallSummaryListener see: an epsilon transition that a
        nested automaton has into its own state, and a transition that the automaton
        it is nested in has out of that state. */
    ghost function ReturnsSeen(): set<Node<S, F>>
      reads callAutomaton
      requires callAutomaton.Ok()
    {
      set ed <- callAutomaton.nestedAutomatons, e <- callAutomaton.TransitionsAt(ed.1, false, ed.1),
        t <- callAutomaton.TransitionsAt(ed.0, true, ed.1) | e.lbl == Eps && e.start.Control? && t.lbl.Sym? ::
        Node(t.lbl.n, e.start.d)
    }

    /** So the nodes that they report are exactly the returns. */
    lemma ReturnsSeenExactly()
      requires Valid() && callAutomaton.nested
      ensures ReturnsSeen() == ReturnNodes(callAutomaton.transitionToWeights.Keys)
    {
      hide WeightedPAutomaton.Ok, WeightedPushdownSystem.Settled, ContextsBut, Closed, ValidAnalysis;
      var m := callAutomaton.transitionToWeights;
      forall n | n in ReturnNodes(m.Keys) ensures n in ReturnsSeen() {
        var e, t :| e in m.Keys && t in m.Keys && e.lbl == Eps && e.start.Control? && t.start == e.target &&
          t.lbl.Sym? && n == Node(t.lbl.n, e.start.d);
        callAutomaton.ReturnNested(e, t);
        assert (t.target, e.target) in callAutomaton.nestedAutomatons;
      }
      forall n | n in ReturnsSeen() ensures n in ReturnNodes(m.Keys) {
        var ed, e, t :| ed in callAutomaton.nestedAutomatons && e in callAutomaton.TransitionsAt(ed.1, false, ed.1) &&
          t in callAutomaton.TransitionsAt(ed.0, true, ed.1) && e.lbl == Eps && e.start.Control? && t.lbl.Sym? &&
          n == Node(t.lbl.n, e.start.d);
      }
    }

    // -------------------------------------------------------------- what the weights mean

    /** The paths of the call automaton and the runs of the call half have the same
        upper bounds, */
    lemma CallWeightsExact(h: Half<S, F, S>, u: W)
      requires Quiescent() && (Eps in an.callEmpties ==> an.sr.OneIsLeast())
      ensures BoundsPaths(an.sr, callAutomaton.transitionToWeights, CallPart(h), u) <==>
        BoundsCalls(an, starts, reachedStates, h, u)
    {
      hide WeightedPAutomaton.Quiet, WeightedPushdownSystem.Settled, BoundsPaths, BoundsRuns, BoundsCalls, Solution,
        WellFormed;
      hide an.sr.Laws;
      AutomataSolved(reachedStates);
      RulesWellFormed(an, starts, reachedStates);
      SameUpperBounds(CallSystem(an, starts, reachedStates), callAutomaton.transitionToWeights, CallPart(h), u);
      CallBoundExact(an, starts, reachedStates, h, u);
    }

    /** and those of the field automaton and the field half. */
    lemma FieldWeightsExact(h: Half<S, F, FieldLabel<L>>, u: W)
      requires Quiescent() && h.stack != [] && (Eps in an.fieldEmpties ==> an.sr.OneIsLeast())
      ensures BoundsPaths(an.sr, fieldAutomaton.transitionToWeights, FieldPart(h), u) <==>
        BoundsFields(an, starts, reachedStates, h, u)
    {
      hide WeightedPAutomaton.Quiet, WeightedPushdownSystem.Settled, BoundsPaths, BoundsRuns, BoundsFields, Solution,
        WellFormed;
      hide an.sr.Laws;
      AutomataSolved(reachedStates);
      RulesWellFormed(an, starts, reachedStates);
      SameUpperBounds(FieldSystem(an, starts, reachedStates), fieldAutomaton.transitionToWeights, FieldPart(h), u);
      FieldBoundExact(an, starts, reachedStates, h, u);
    }

    /** Whatever epsilon is, each run of the two-stack machine weighs no more than the
        paths of the automata for where it ends: the start's weight extended with the
        call weights of the successors it takes, and their field weights. */
    lemma WeightsSound(start: (Node<S, F>, W), ss: seq<Successor<S, F, L>>, c: TwoStack<S, F, L>, u: W)
      requires Quiescent() && start in starts && Runs(an, Initial(start.0), ss, c)
      ensures BoundsPaths(an.sr, callAutomaton.transitionToWeights, CallConfig(c), u) ==>
        an.sr.Le(an.sr.extend(start.1, WeightAlong(an.sr, an.callWeight, start.0, ss)), u)
      ensures c.fields != [] && BoundsPaths(an.sr, fieldAutomaton.transitionToWeights, FieldConfig(c), u) ==>
        an.sr.Le(WeightAlong(an.sr, an.fieldWeight, start.0, ss), u)
    {
      hide WeightedPAutomaton.Quiet, WeightedPushdownSystem.Settled, BoundsPaths, BoundsRuns, Solution, WellFormed,
        CallRuns, FieldRuns, Runs;
      hide an.sr.Laws;
      AutomataSolved(reachedStates);
      RulesWellFormed(an, starts, reachedStates);
      ReachedLeast();
      RunsSplit(an, starts, reachedStates, start, ss, c);
      if BoundsPaths(an.sr, callAutomaton.transitionToWeights, CallConfig(c), u) {
        PathBoundCoversRuns(CallSystem(an, starts, reachedStates), callAutomaton.transitionToWeights, CallConfig(c), u);
        CallBoundExact(an, starts, reachedStates, Half(c.node, c.calls), u);
      }
      if c.fields != [] && BoundsPaths(an.sr, fieldAutomaton.transitionToWeights, FieldConfig(c), u) {
        PathBoundCoversRuns(FieldSystem(an, starts, reachedStates), fieldAutomaton.transitionToWeights, FieldConfig(c),
          u);
        FieldBoundExact(an, starts, reachedStates, Half(c.node, c.fields), u);
      }
    }

    /** Delivering the reports between saturations reaches the same nodes as any
        run in which they interrupt them. */
    lemma SameAsInterrupted(evs: seq<SyncInterleavings.Event<S, F, L, W>>, s: SyncInterleavings.Moment<S, F, L, W>)
      requires Quiescent() && s.starts == starts
      requires SyncInterleavings.Comes(an, evs, s) && SyncInterleavings.Finished(an, s)
      ensures s.reached == reachedStates
    {
      hide WeightedPAutomaton.Quiet, WeightedPushdownSystem.Settled;
      ReachedLeast();
      SyncInterleavings.AnyOrderReachesLeast(an, evs, s);
    }

    // -------------------------------------------------------------- expanding nodes

    method AddCallRule(rule: Rule<F, S, W>)
      requires Apart() && callingPDS.Settled() && callingPDS.listeners == {callAutomaton}
      requires WellFormedRule(callAutomaton.empties, rule) && callAutomaton.Quiet() && callAutomaton.Passive()
      modifies callingPDS, callAutomaton
      ensures callingPDS.Settled() && callingPDS.listeners == {callAutomaton}
      ensures callingPDS.GetAllRules() == old(callingPDS.GetAllRules()) + {rule}
      ensures callAutomaton.Quiet() && callAutomaton.rules == callingPDS.GetAllRules()
      ensures callAutomaton.inits == old(callAutomaton.inits)
    {
      hide WeightedPAutomaton.Ok, WellFormedRule, RuleIn, WeightedPAutomaton.Passive, WeightedPAutomaton.Proceeds;
      callAutomaton.ReserveRule(rule);
      var _ := callingPDS.AddRule(rule);
    }

    method AddFieldRule(rule: Rule<Node<S, F>, FieldLabel<L>, W>)
      requires Apart() && fieldPDS.Settled() && fieldPDS.listeners == {fieldAutomaton}
      requires WellFormedRule(fieldAutomaton.empties, rule) && fieldAutomaton.Quiet() && fieldAutomaton.Passive()
      modifies fieldPDS, fieldAutomaton
      ensures fieldPDS.Settled() && fieldPDS.listeners == {fieldAutomaton}
      ensures fieldPDS.GetAllRules() == old(fieldPDS.GetAllRules()) + {rule}
      ensures fieldAutomaton.Quiet() && fieldAutomaton.rules == fieldPDS.GetAllRules()
      ensures fieldAutomaton.inits == old(fieldAutomaton.inits)
    {
      hide WeightedPAutomaton.Ok, WellFormedRule, RuleIn, WeightedPAutomaton.Passive, WeightedPAutomaton.Proceeds;
      fieldAutomaton.ReserveRule(rule);
      var _ := fieldPDS.AddRule(rule);
    }

    /** The loop over computeSuccessor's result. */
    method ExpandSuccessors(n: Node<S, F>, ghost ns: set<Node<S, F>>)
      requires ValidAnalysis(an) && Apart() && CallsFor(ns) && FieldsFor(ns)
      modifies callingPDS, callAutomaton, fieldPDS, fieldAutomaton
      ensures CallsFor(ns + {n}) && FieldsFor(ns + {n})
      ensures callAutomaton.inits == old(callAutomaton.inits) && fieldAutomaton.inits == old(fieldAutomaton.inits)
    {
      hide WeightedPAutomaton.Quiet, WeightedPushdownSystem.Settled, CallRules, FieldRules, CallRule, FieldRule,
        WellFormedRule, ValidAnalysis;
      var rest := an.successors(n);
      RulesOfOneMore(an, ns, n);
      while rest != {}
        invariant rest <= an.successors(n)
        invariant callingPDS.Settled() && callingPDS.listeners == {callAutomaton}
        invariant callAutomaton.Quiet() && callAutomaton.Passive() && callAutomaton.rules == callingPDS.GetAllRules()
        invariant fieldPDS.Settled() && fieldPDS.listeners == {fieldAutomaton}
        invariant fieldAutomaton.Quiet() && fieldAutomaton.Passive() && fieldAutomaton.rules == fieldPDS.GetAllRules()
        invariant callingPDS.GetAllRules() ==
          CallRules(an, ns) + (set s <- an.successors(n) - rest :: CallRule(an, n, s))
        invariant fieldPDS.GetAllRules() ==
          FieldRules(an, ns) + (set s <- an.successors(n) - rest :: FieldRule(an, n, s))
        invariant callAutomaton.inits == old(callAutomaton.inits) && fieldAutomaton.inits == old(fieldAutomaton.inits)
        decreases rest
      {
        var s :| s in rest;
        rest := rest - {s};
        RuleWellFormed(an, n, s);
        AddFieldRule(FieldRule(an, n, s));
        AddCallRule(CallRule(an, n, s));
      }
      assert an.successors(n) - rest == an.successors(n);
    }

    /** processNode: a node is expanded unless it has been before. */
    method ProcessNode(n: Node<S, F>)
      requires ValidBut({n})
      modifies this`reachedStates, this`expansions, callingPDS, callAutomaton, fieldPDS, fieldAutomaton
      ensures Valid() && reachedStates == old(reachedStates) + {n}
      ensures n in old(reachedStates) ==>
        && unchanged(this) && unchanged(callingPDS) && unchanged(callAutomaton)
        && unchanged(fieldPDS) && unchanged(fieldAutomaton)
    {
      hide WeightedPAutomaton.Quiet, WeightedPushdownSystem.Settled, CallRules, FieldRules, ValidAnalysis, Closed,
        Minimal, Solution, CallNodes, FieldNodes;
      if n in reachedStates {
        assert reachedStates + {n} == reachedStates + {} == reachedStates;
        return;
      }
      ghost var ns, cm, fm := reachedStates, callAutomaton.transitionToWeights, fieldAutomaton.transitionToWeights;
      AutomataSolved(ns);
      CallNodesExact(an, starts, ns, cm, n);
      FieldNodesExact(an, starts, ns, fm, n);
      MinimalStep(an, starts, ns, n);
      StaysWithin();
      reachedStates := reachedStates + {n};
      expansions := expansions + [n];
      ExpandSuccessors(n, ns);
      assert Inputs();
      AutomataSolved(reachedStates);
      ReportsKept(an, starts, starts, ns, reachedStates, cm, callAutomaton.transitionToWeights, fm,
        fieldAutomaton.transitionToWeights);
      assert reachedStates + {} == reachedStates;
    }

    /** What is reported lies within the finite set of nodes. */
    lemma StaysWithin()
      requires FieldsFor(reachedStates) && CallsFor(reachedStates) && Inputs() && Closed(an, starts, nodes) &&
        reachedStates <= nodes
      ensures FieldNodes(fieldAutomaton.transitionToWeights.Keys) <= nodes
    {
      hide WeightedPAutomaton.Ok, FieldRules, Closed, FieldNodes, SystemIn;
      AutomataSolved(reachedStates);
      fieldAutomaton.OkParts();
      assert fieldAutomaton.Sys() == FieldSystem(an, starts, reachedStates);
      FieldNodesClosed(an, starts, reachedStates, nodes, fieldAutomaton.transitionToWeights, fieldAutomaton.names);
    }

    /** A notification changed nothing but one context set, or made progress. */
    ghost predicate Noted(before: View<S, F, L, W>, calls: set<Node<S, F>>, fields: set<Node<S, F>>)
      reads this, callAutomaton, fieldAutomaton
    {
      && before.reached <= reachedStates
      && (reachedStates == before.reached ==>
            && callAutomaton.transitionToWeights == before.callWeights
            && fieldAutomaton.transitionToWeights == before.fieldWeights
            && callingContextReachable == before.callContext + calls
            && fieldContextReachable == before.fieldContext + fields)
    }

    ghost function Now(): View<S, F, L, W>
      reads this, callAutomaton, fieldAutomaton
    {
      View(reachedStates, callingContextReachable, fieldContextReachable, callAutomaton.transitionToWeights,
        fieldAutomaton.transitionToWeights)
    }

    /** A transition of the call automaton reports n or, in nested mode, two do. */
    ghost predicate Reports(n: Node<S, F>)
      reads callAutomaton
    {
      var ts := callAutomaton.transitionToWeights.Keys;
      n in CallNodes(ts) || n in ReturnNodes(ts)
    }

    method SetCallingContextReachable(n: Node<S, F>)
      requires Reports(n)
      requires Valid()
      modifies this`reachedStates, this`expansions, this`callingContextReachable, callingPDS, callAutomaton, fieldPDS,
        fieldAutomaton
      ensures Valid() && Noted(old(Now()), {n}, {})
    {
      hide WeightedPAutomaton.Quiet, WeightedPushdownSystem.Settled, CallRules, FieldRules, ValidAnalysis, Closed,
        Minimal, CallNodes, FieldNodes, ReturnNodes, Solution;
      AutomataSolved(reachedStates);
      ReturnsReported(an, starts, reachedStates, callAutomaton.transitionToWeights);
      if n in callingContextReachable {
        return;
      }
      callingContextReachable := callingContextReachable + {n};
      if n in fieldContextReachable {
        assert ContextsBut({n});
        ProcessNode(n);
      } else {
        assert ContextsBut({});
      }
    }

    method SetFieldContextReachable(n: Node<S, F>)
      requires n in FieldNodes(fieldAutomaton.transitionToWeights.Keys) && Valid()
      modifies this`reachedStates, this`expansions, this`fieldContextReachable, callingPDS, callAutomaton, fieldPDS,
        fieldAutomaton
      ensures Valid() && Noted(old(Now()), {}, {n})
    {
      hide WeightedPAutomaton.Quiet, WeightedPushdownSystem.Settled, CallRules, FieldRules, ValidAnalysis, Closed,
        Minimal, CallNodes, FieldNodes;
      if n in fieldContextReachable {
        return;
      }
      fieldContextReachable := fieldContextReachable + {n};
      if n in callingContextReachable {
        assert ContextsBut({n});
        ProcessNode(n);
      } else {
        assert ContextsBut({});
      }
    }

    /** Delivers the reports of CallAutomatonListener and FieldUpdateListener, in
        any order, until none is left. */
    method DeliverReports()
      requires Valid()
      modifies this`reachedStates, this`expansions, this`callingContextReachable, this`fieldContextReachable,
        callingPDS, callAutomaton, fieldPDS, fieldAutomaton
      ensures Quiescent()
    {
      hide WeightedPAutomaton.Quiet, WeightedPushdownSystem.Settled, CallRules, FieldRules, ValidAnalysis, Closed,
        Minimal, CallNodes, FieldNodes;
      var calls := CallNodes(callAutomaton.transitionToWeights.Keys) - callingContextReachable;
      var fields := FieldNodes(fieldAutomaton.transitionToWeights.Keys) - fieldContextReachable;
      while calls != {} || fields != {}
        invariant Valid()
        invariant calls == CallNodes(callAutomaton.transitionToWeights.Keys) - callingContextReachable
        invariant fields == FieldNodes(fieldAutomaton.transitionToWeights.Keys) - fieldContextReachable
        decreases nodes - reachedStates, calls, fields
      {
        ghost var reached := reachedStates;
        if calls != {} {
          var n :| n in calls;
          SetCallingContextReachable(n);
        } else {
          var n :| n in fields;
          SetFieldContextReachable(n);
        }
        calls := CallNodes(callAutomaton.transitionToWeights.Keys) - callingContextReachable;
        fields := FieldNodes(fieldAutomaton.transitionToWeights.Keys) - fieldContextReachable;
        assert reached != reachedStates ==> nodes - reachedStates < nodes - reached;
      }
      AllDelivered(callingContextReachable, CallNodes(callAutomaton.transitionToWeights.Keys));
      AllDelivered(fieldContextReachable, FieldNodes(fieldAutomaton.transitionToWeights.Keys));
    }

    static lemma AllDelivered(told: set<Node<S, F>>, reported: set<Node<S, F>>)
      requires told <= reported && reported - told == {}
      ensures told == reported
    {
      forall n <- reported ensures n in told {
        assert n !in reported - told;
      }
    }

    /** solve: start the analysis at curr with the given call weight. */
    method Solve(curr: Node<S, F>, weight: W)
      requires Valid() && curr in nodes
      modifies Repr()
      ensures Quiescent() && starts == old(starts) + {(curr, weight)} && curr in reachedStates
    {
      hide Valid, ValidBut, Quiescent;
      AddStart(curr, weight);
      DeliverReports();
      StartReached((curr, weight));
      label settled:
      ProcessNode(curr);
      StillQuiescent@settled(curr);
    }

    twostate lemma StillQuiescent(n: Node<S, F>)
      requires old(Quiescent()) && Valid() && n in old(reachedStates)
      requires unchanged(this) && unchanged(callAutomaton) && unchanged(fieldAutomaton)
      ensures Quiescent() && n in reachedStates
    {
      hide ValidBut;
    }

    /** The start node has been reached by its own transitions. */
    lemma StartReached(start: (Node<S, F>, W))
      requires Quiescent() && start in starts
      ensures start.0 in reachedStates && ValidBut({start.0})
    {
      hide WeightedPAutomaton.Quiet, WeightedPushdownSystem.Settled, CallRules, FieldRules, ValidAnalysis, Closed,
        Minimal;
      assert Runs(an, Initial<S, F, L>(start.0), [], Initial(start.0));
      Sound(start, [], Initial(start.0));
      assert reachedStates + {} == reachedStates + {start.0} == reachedStates;
    }

    method AddInitials(curr: Node<S, F>, weight: W)
      requires Apart() && CallsFor(reachedStates) && FieldsFor(reachedStates)
      modifies callAutomaton, fieldAutomaton
      ensures CallsFor(reachedStates) && FieldsFor(reachedStates)
      ensures callAutomaton.inits == old(callAutomaton.inits) + {InitialCall((curr, weight))}
      ensures fieldAutomaton.inits == old(fieldAutomaton.inits) + {InitialField(an.sr.one, (curr, weight))}
    {
      hide WeightedPAutomaton.Quiet, WeightedPushdownSystem.Settled, WeightedPAutomaton.Passive, CallRules, FieldRules;
      AddFieldInitial(curr, weight);
      AddCallInitial(curr, weight);
    }

    method AddFieldInitial(curr: Node<S, F>, weight: W)
      requires Apart() && FieldsFor(reachedStates)
      modifies fieldAutomaton
      ensures FieldsFor(reachedStates)
      ensures fieldAutomaton.inits == old(fieldAutomaton.inits) + {InitialField(an.sr.one, (curr, weight))}
    {
      hide WeightedPAutomaton.Ok, WeightedPAutomaton.Proceeds, WeightedPAutomaton.Passive, FieldRules, TransIn;
      var fieldStart := InitialField<S, F, L, W>(an.sr.one, (curr, weight));
      fieldAutomaton.ReserveTransition(fieldStart.0);
      var _ := fieldAutomaton.AddInitialTransition(fieldStart.0, fieldStart.1);
    }

    method AddCallInitial(curr: Node<S, F>, weight: W)
      requires Apart() && CallsFor(reachedStates)
      modifies callAutomaton
      ensures CallsFor(reachedStates)
      ensures callAutomaton.inits == old(callAutomaton.inits) + {InitialCall((curr, weight))}
    {
      hide WeightedPAutomaton.Ok, WeightedPAutomaton.Proceeds, WeightedPAutomaton.Passive, CallRules, TransIn;
      var callStart := InitialCall((curr, weight));
      callAutomaton.ReserveTransition(callStart.0);
      var _ := callAutomaton.AddInitialTransition(callStart.0, callStart.1);
    }

    /** The two initial transitions. */
    method AddStart(curr: Node<S, F>, weight: W)
      requires Valid() && curr in nodes
      modifies this`starts, callAutomaton, fieldAutomaton
      ensures Valid() && starts == old(starts) + {(curr, weight)}
    {
      hide WeightedPAutomaton.Quiet, WeightedPushdownSystem.Settled, CallRules, FieldRules, ValidAnalysis, Minimal,
        CallNodes, FieldNodes, Solution, CallsFor, FieldsFor;
      ghost var starts0, cm, fm := starts, callAutomaton.transitionToWeights, fieldAutomaton.transitionToWeights;
      AutomataSolved(reachedStates);
      AddInitials(curr, weight);
      starts := starts + {(curr, weight)};
      assert Inputs();
      AutomataSolved(reachedStates);
      ReportsKept(an, starts0, starts, reachedStates, reachedStates, cm, callAutomaton.transitionToWeights, fm,
        fieldAutomaton.transitionToWeights);
      MinimalMoreStarts(an, starts0, starts, reachedStates);
    }
  }
}
