/** The synchronized solver as a state machine whose steps are the single updates of
    its collections, so that callbacks may interrupt a saturation at any point and in
    any order. */
module SyncInterleavings {
  import opened Semirings
  import opened Pushdown
  import opened PAutomata
  import opened Justification
  import opened Exactness
  import opened SyncMachine
  import opened Synchronization

  datatype Moment<!S(==), !F(==), !L(==), !W(==, !new)> = Moment(
    starts: set<(Node<S, F>, W)>,
    reached: set<Node<S, F>>,
    callContext: set<Node<S, F>>,
    fieldContext: set<Node<S, F>>,
    callRules: set<Rule<F, S, W>>,
    fieldRules: set<Rule<Node<S, F>, FieldLabel<L>, W>>,
    callWeights: map<Trans<F, S>, W>,
    fieldWeights: map<Trans<Node<S, F>, FieldLabel<L>>, W>)

  ghost function Calls<S(!new), F(!new), L(!new), W(!new)>(
    an: Analysis<S, F, L, W>, s: Moment<S, F, L, W>): System<F, S, W>
  {
    System(an.sr, an.callEmpties, s.callRules, set st <- s.starts :: InitialCall(st))
  }

  ghost function Fields<S(!new), F(!new), L(!new), W(!new)>(
    an: Analysis<S, F, L, W>, s: Moment<S, F, L, W>): System<Node<S, F>, FieldLabel<L>, W>
  {
    System(an.sr, an.fieldEmpties, s.fieldRules, set st <- s.starts :: InitialField(an.sr.one, st))
  }

  /** What happens next. */
  datatype Event<S, F, L, W> =
    | Start(start: (Node<S, F>, W))
    | CallWeight(ct: Trans<F, S>, cw: W)
    | FieldWeight(ft: Trans<Node<S, F>, FieldLabel<L>>, fw: W)
    | ReportCall(n: Node<S, F>)
    | ReportField(n: Node<S, F>)
    | Expand(n: Node<S, F>)
    | AddCallRule(n: Node<S, F>, succ: Successor<S, F, L>)
    | AddFieldRule(n: Node<S, F>, succ: Successor<S, F, L>)

  /** An automaton may store any weight that it can derive; a transition may be
      reported once it is there, and a return once the two transitions that make it
      up are; a node may be expanded if it has been reported on both sides; the rules
      of an expanded node may be added. */
  ghost predicate Enabled<S(!new), F(!new), L(!new), W(!new)>(
    an: Analysis<S, F, L, W>, s: Moment<S, F, L, W>, ev: Event<S, F, L, W>)
  {
    match ev
    case Start(_) => true
    case CallWeight(t, w) => Derivable(Calls(an, s), t, w)
    case FieldWeight(t, w) => Derivable(Fields(an, s), t, w)
    case ReportCall(n) => n in CallNodes(s.callWeights.Keys) || n in ReturnNodes(s.callWeights.Keys)
    case ReportField(n) => n in FieldNodes(s.fieldWeights.Keys)
    case Expand(n) => n in s.callContext && n in s.fieldContext
    case AddCallRule(n, succ) => n in s.reached && succ in an.successors(n)
    case AddFieldRule(n, succ) => n in s.reached && succ in an.successors(n)
  }

  function After<S(==, !new), F(==, !new), L(==, !new), W(==, !new)>(
    an: Analysis<S, F, L, W>, s: Moment<S, F, L, W>, ev: Event<S, F, L, W>): Moment<S, F, L, W>
  {
    match ev
    case Start(start) => s.(starts := s.starts + {start})
    case CallWeight(t, w) => s.(callWeights := s.callWeights[t := w])
    case FieldWeight(t, w) => s.(fieldWeights := s.fieldWeights[t := w])
    case ReportCall(n) => s.(callContext := s.callContext + {n})
    case ReportField(n) => s.(fieldContext := s.fieldContext + {n})
    case Expand(n) => s.(reached := s.reached + {n})
    case AddCallRule(n, succ) => s.(callRules := s.callRules + {CallRule(an, n, succ)})
    case AddFieldRule(n, succ) => s.(fieldRules := s.fieldRules + {FieldRule(an, n, succ)})
  }

  function Nothing<S, F, L, W(!new)>(): Moment<S, F, L, W> {
    Moment({}, {}, {}, {}, {}, {}, map[], map[])
  }

  /** s is the state after the events. */
  ghost predicate Comes<S(!new), F(!new), L(!new), W(!new)>(
    an: Analysis<S, F, L, W>, evs: seq<Event<S, F, L, W>>, s: Moment<S, F, L, W>)
    decreases |evs|
  {
    if evs == [] then s == Nothing()
    else
      var k := |evs| - 1;
      exists before :: Comes(an, evs[..k], before) && Enabled(an, before, evs[k]) && s == After(an, before, evs[k])
  }

  /** Whatever is there is justified by the start nodes and the nodes expanded so far. */
  ghost predicate Justifiable<S(!new), F(!new), L(!new), W(!new)>(an: Analysis<S, F, L, W>, s: Moment<S, F, L, W>) {
    && s.callRules <= CallRules(an, s.reached) && s.fieldRules <= FieldRules(an, s.reached)
    && AllDerivable(CallSystem(an, s.starts, s.reached), s.callWeights)
    && AllDerivable(FieldSystem(an, s.starts, s.reached), s.fieldWeights)
    && (forall n <- s.callContext :: CallReachable(an, s.starts, s.reached, n))
    && (forall n <- s.fieldContext :: FieldReachable(an, s.starts, s.reached, n))
    && Minimal(an, s.starts, s.reached)
  }

  lemma DerivableMonotone<D(!new), N(!new), W(!new)>(sys: System<D, N, W>, sys': System<D, N, W>, t: Trans<D, N>, w: W)
    requires sys.sr == sys'.sr && sys.empties == sys'.empties && sys.rules <= sys'.rules && sys.inits <= sys'.inits
    requires Derivable(sys, t, w)
    ensures Derivable(sys', t, w)
  {
    var d :| Valid(sys, d) && Concl(d) == t && Value(sys.sr, d) == w;
    ValidMonotone(sys, sys', d);
  }

  lemma AllDerivableMonotone<D(!new), N(!new), W(!new)>(
    sys: System<D, N, W>, sys': System<D, N, W>, m: map<Trans<D, N>, W>)
    requires sys.sr == sys'.sr && sys.empties == sys'.empties && sys.rules <= sys'.rules && sys.inits <= sys'.inits
    requires AllDerivable(sys, m)
    ensures AllDerivable(sys', m)
  {
    forall t <- m ensures Derivable(sys', t, m[t]) { DerivableMonotone(sys, sys', t, m[t]); }
  }

  /** More starts and more expanded nodes justify as much. */
  lemma MoreJustifies<S(!new), F(!new), L(!new), W(!new)>(
    an: Analysis<S, F, L, W>, s: Moment<S, F, L, W>, s': Moment<S, F, L, W>)
    requires s' == s.(starts := s'.starts, reached := s'.reached) && s.starts <= s'.starts && s.reached <= s'.reached
    requires Justifiable(an, s) && Minimal(an, s'.starts, s'.reached)
    ensures Justifiable(an, s')
  {
    hide Minimal, Derivable, CallReachable, FieldReachable;
    forall n
      ensures CallReachable(an, s.starts, s.reached, n) ==> CallReachable(an, s'.starts, s'.reached, n)
      ensures FieldReachable(an, s.starts, s.reached, n) ==> FieldReachable(an, s'.starts, s'.reached, n)
    {
      SystemsMonotone(an, s.starts, s'.starts, s.reached, s'.reached, n);
    }
    AllDerivableMonotone(CallSystem(an, s.starts, s.reached), CallSystem(an, s'.starts, s'.reached), s.callWeights);
    AllDerivableMonotone(FieldSystem(an, s.starts, s.reached), FieldSystem(an, s'.starts, s'.reached), s.fieldWeights);
  }

  /** Every event keeps the invariant. */
  lemma EventKeeps<S(!new), F(!new), L(!new), W(!new)>(
    an: Analysis<S, F, L, W>, s: Moment<S, F, L, W>, ev: Event<S, F, L, W>)
    requires ValidAnalysis(an) && Justifiable(an, s) && Enabled(an, s, ev)
    ensures Justifiable(an, After(an, s, ev))
  {
    hide Minimal, ValidAnalysis, Derivable, CallReachable, FieldReachable;
    match ev
    case Start(start) =>
      MinimalMoreStarts(an, s.starts, s.starts + {start}, s.reached);
      MoreJustifies(an, s, After(an, s, ev));
    case Expand(n) =>
      MinimalStep(an, s.starts, s.reached, n);
      MoreJustifies(an, s, After(an, s, ev));
    case CallWeight(t, w) => DerivableMonotone(Calls(an, s), CallSystem(an, s.starts, s.reached), t, w);
    case FieldWeight(t, w) => DerivableMonotone(Fields(an, s), FieldSystem(an, s.starts, s.reached), t, w);
    case ReportCall(n) => ReportsReachable(an, s.starts, s.reached, s.callWeights, s.fieldWeights, n);
    case ReportField(n) => ReportsReachable(an, s.starts, s.reached, s.callWeights, s.fieldWeights, n);
    case AddCallRule(_, _) =>
    case AddFieldRule(_, _) =>
  }

  /** So it holds throughout every run. */
  lemma {:induction false} RunsJustifiable<S(!new), F(!new), L(!new), W(!new)>(
    an: Analysis<S, F, L, W>, evs: seq<Event<S, F, L, W>>, s: Moment<S, F, L, W>)
    requires ValidAnalysis(an) && Comes(an, evs, s)
    ensures Justifiable(an, s)
    decreases |evs|
  {
    if evs != [] {
      var k := |evs| - 1;
      var before :| Comes(an, evs[..k], before) && Enabled(an, before, evs[k]) && s == After(an, before, evs[k]);
      RunsJustifiable(an, evs[..k], before);
      EventKeeps(an, before, evs[k]);
    }
  }

  /** Nothing is left to do: both automata are saturated, every transition has been
      reported, every node reported on both sides has been expanded, and all rules of
      the expanded nodes have been added. */
  ghost predicate Finished<S(!new), F(!new), L(!new), W(!new)>(an: Analysis<S, F, L, W>, s: Moment<S, F, L, W>) {
    && s.callRules == CallRules(an, s.reached) && s.fieldRules == FieldRules(an, s.reached)
    && Saturated(Calls(an, s), s.callWeights) && Saturated(Fields(an, s), s.fieldWeights)
    && CallNodes(s.callWeights.Keys) <= s.callContext && FieldNodes(s.fieldWeights.Keys) <= s.fieldContext
    && s.callContext * s.fieldContext <= s.reached
  }

  /** However the events were interleaved, a finished run has reached exactly the
      least synchronized set, */
  lemma AnyOrderReachesLeast<S(!new), F(!new), L(!new), W(!new)>(
    an: Analysis<S, F, L, W>, evs: seq<Event<S, F, L, W>>, s: Moment<S, F, L, W>)
    requires ValidAnalysis(an) && Comes(an, evs, s) && Finished(an, s)
    ensures Synchronized(an, s.starts, s.reached) && Minimal(an, s.starts, s.reached)
  {
    RunsJustifiable(an, evs, s);
    assert Calls(an, s) == CallSystem(an, s.starts, s.reached) && Fields(an, s) == FieldSystem(an, s.starts, s.reached);
    forall n | CallReachable(an, s.starts, s.reached, n) && FieldReachable(an, s.starts, s.reached, n)
      ensures n in s.reached
    {
      CallNodesExact(an, s.starts, s.reached, s.callWeights, n);
      FieldNodesExact(an, s.starts, s.reached, s.fieldWeights, n);
    }
  }

  /** so that the order does not matter, */
  lemma AnyOrderSame<S(!new), F(!new), L(!new), W(!new)>(
    an: Analysis<S, F, L, W>, evs: seq<Event<S, F, L, W>>, s: Moment<S, F, L, W>, evs': seq<Event<S, F, L, W>>,
    s': Moment<S, F, L, W>)
    requires ValidAnalysis(an) && Comes(an, evs, s) && Finished(an, s) && Comes(an, evs', s') && Finished(an, s')
    requires s.starts == s'.starts
    ensures s.reached == s'.reached && s.callRules == s'.callRules && s.fieldRules == s'.fieldRules
  {
    AnyOrderReachesLeast(an, evs, s);
    AnyOrderReachesLeast(an, evs', s');
  }

  /** and every node of the two-stack machine has been reached. */
  lemma AnyOrderSound<S(!new), F(!new), L(!new), W(!new)>(
    an: Analysis<S, F, L, W>, evs: seq<Event<S, F, L, W>>, s: Moment<S, F, L, W>,
    start: (Node<S, F>, W), ss: seq<Successor<S, F, L>>, c: TwoStack<S, F, L>)
    requires ValidAnalysis(an) && Comes(an, evs, s) && Finished(an, s)
    requires start in s.starts && Runs(an, Initial(start.0), ss, c) && c.fields != []
    ensures c.node in s.reached
  {
    AnyOrderReachesLeast(an, evs, s);
    SynchronizedSound(an, s.starts, s.reached, start, ss, c);
  }
}
