/** How the automata of the two pushdown systems tell which nodes to expand. */
module Synchronization {
  import opened Semirings
  import opened Pushdown
  import opened PAutomata
  import opened Justification
  import opened Exactness
  import opened Termination
  import opened SyncMachine

  // ---------------------------------------------------------------- every transition is used

  /** Some run comes to the callee entry that q stands for, with something below it. */
  ghost predicate Entered<D(!new), N(!new), W(!new)>(sys: System<D, N, W>, q: State<D, N>) {
    match q
    case Gen(p, n) => exists below, e :: below != [] && Supports(sys, Sink, Config(p, [n] + below), e)
    case Sink => true
    case Control(_) => false
  }

  /** A transition into an entered state is part of a configuration some run comes to. */
  lemma UsedIfEntered<D(!new), N(!new), W(!new)>(sys: System<D, N, W>, d: Deriv<D, N, W>)
    returns (below: seq<N>, e: Evidence<D, N, W>)
    requires sys.sr.Laws() && WellFormed(sys) && Valid(sys, d) && Entered(sys, Concl(d).target)
    ensures Shaped(sys.empties, Concl(d)) && (Concl(d).target.Gen? ==> below != [])
    ensures Supports(sys, Sink, Config(ConfigOf(Concl(d)).state, ConfigOf(Concl(d)).stack + below), e)
  {
    var t := Concl(d);
    DerivationsJustified(sys, d);
    var inner :| Supports(sys, t.target, ConfigOf(t), inner);
    if t.target.Sink? {
      below, e := [], inner;
      assert ConfigOf(t).stack + [] == ConfigOf(t).stack;
    } else {
      var outer;
      below, outer :| below != [] && Supports(sys, Sink, Config(t.target.d, [t.target.n] + below), outer);
      ComposeSupports(sys, Sink, t.target, below, ConfigOf(t), outer, inner);
      e := Compose(outer, inner);
    }
  }

  lemma {:induction false} TargetEntered<D(!new), N(!new), W(!new)>(sys: System<D, N, W>, d: Deriv<D, N, W>)
    requires sys.sr.Laws() && WellFormed(sys) && Valid(sys, d)
    ensures Entered(sys, Concl(d).target)
  {
    match d
    case Init(t, w) => assert InitialTransition((t, w).0);
    case Join(a, _) => TargetEntered(sys, a);
    case NormalStep(_, d1) => TargetEntered(sys, d1);
    case CallStep(_, d1) => TargetEntered(sys, d1);
    case EntryStep(r, d1) =>
      TargetEntered(sys, d1);
      var below, e := UsedIfEntered(sys, d1);
      EnteredByCall(sys, r, Concl(d1), below, e);
    case PopStep(_, d1) => TargetEntered(sys, d1);
    case SkipPopStep(_, _, d1) => TargetEntered(sys, d1);
    case ReturnStep(_, d1) => TargetEntered(sys, d1);
  }

  lemma EnteredByCall<D(!new), N(!new), W(!new)>(
    sys: System<D, N, W>, r: Rule<D, N, W>, t: Trans<D, N>, below: seq<N>, e: Evidence<D, N, W>)
    requires sys.sr.Laws() && WellFormed(sys) && r in sys.rules && PushFires(r, t)
    requires Supports(sys, Sink, Config(ConfigOf(t).state, ConfigOf(t).stack + below), e)
    ensures Entered(sys, EntryResult(r).target)
  {
    var c, call := ConfigOf(t), CallResult(r, t);
    RuleStep(sys.empties, r, t);
    ApplyFrame(r, c, below);
    ThenSupports(sys, Sink, Config(c.state, c.stack + below), e, r);
    assert ConfigOf(call).stack + below == [r.l2] + (Letters(call.lbl) + below);
    assert call.lbl.Sym?;
    assert Supports(sys, Sink, Config(r.s2, [r.l2] + (Letters(call.lbl) + below)), Then(e, r));
  }

  /** Each derivable transition out of a control state is part of a reachable
      configuration, also while the automaton is not saturated yet. */
  lemma TransitionUsed<D(!new), N(!new), W(!new)>(
    sys: System<D, N, W>, m: map<Trans<D, N>, W>, t: Trans<D, N>) returns (c: Config<D, N>)
    requires sys.sr.Laws() && WellFormed(sys) && AllDerivable(sys, m) && t in m && t.start.Control?
    ensures Reachable(sys, c) && c.state == t.start.d && c.stack != []
    ensures t.lbl.Sym? ==> c.stack[0] == t.lbl.n
  {
    assert Derivable(sys, t, m[t]);
    var d :| Valid(sys, d) && Concl(d) == t && Value(sys.sr, d) == m[t];
    TargetEntered(sys, d);
    var below, e := UsedIfEntered(sys, d);
    c := Config(t.start.d, ConfigOf(t).stack + below);
    SupportHasRun(sys, c, e);
  }

  /** And each reachable configuration starts with a transition. */
  lemma ReachableHasTransition<D(!new), N(!new), W(!new)>(
    sys: System<D, N, W>, m: map<Trans<D, N>, W>, c: Config<D, N>) returns (t: Trans<D, N>)
    requires sys.sr.Laws() && WellFormed(sys) && Solution(sys, m) && Reachable(sys, c) && c.stack != []
    ensures t in m && t.start == Control(c.state) && t.lbl == Sym(c.stack[0])
  {
    DerivableShaped(sys, m);
    var from, w0, rs :| IsRun(sys, Sink, c, from, w0, rs);
    var path := RunsCovered(sys, m, Sink, c, from, w0, rs);
    CoverParts(sys.sr, m, c, Sink, path, WeightOfRun(sys.sr, w0, rs));
    t := path[0];
  }

  lemma ReachableMonotone<D(!new), N(!new), W(!new)>(sys: System<D, N, W>, sys': System<D, N, W>, c: Config<D, N>)
    requires sys.sr == sys'.sr && sys.rules <= sys'.rules && sys.inits <= sys'.inits && Reachable(sys, c)
    ensures Reachable(sys', c)
  {
    var from, w0, rs :| IsRun(sys, Sink, c, from, w0, rs);
    assert IsRun(sys', Sink, c, from, w0, rs);
  }

  // ---------------------------------------------------------------- nodes and transitions

  /** The node CallAutomatonListener reports for t. For epsilon it reports a
      node that no field transition can match. */
  predicate ReportsCall<S, F>(t: Trans<F, S>) {
    t.start.Control? && t.lbl.Sym?
  }

  function CallNode<S, F>(t: Trans<F, S>): Node<S, F>
    requires ReportsCall(t)
  {
    Node(t.lbl.n, t.start.d)
  }

  /** The nodes that the transitions of the call automaton report. */
  function CallNodes<S(==), F(==)>(ts: set<Trans<F, S>>): set<Node<S, F>> {
    set t <- ts | ReportsCall(t) :: CallNode(t)
  }

  /** The nodes that CallSummaryListener reports in nested mode: a return to the
      call site of a call into the state where it ends. */
  function ReturnNodes<S(==), F(==)>(ts: set<Trans<F, S>>): set<Node<S, F>> {
    set e <- ts, t <- ts | e.lbl == Eps && e.start.Control? && t.start == e.target && t.lbl.Sym? ::
      Node(t.lbl.n, e.start.d)
  }

  /** The nodes that FieldUpdateListener reports. */
  function FieldNodes<S(==), F(==), L(==)>(ts: set<Trans<Node<S, F>, FieldLabel<L>>>): set<Node<S, F>> {
    set t <- ts | t.start.Control? :: t.start.d
  }

  /** Only nodes that the systems reach are reported, at any time. */
  lemma ReportsReachable<S(!new), F(!new), L(!new), W(!new)>(
    an: Analysis<S, F, L, W>, starts: set<(Node<S, F>, W)>, ns: set<Node<S, F>>,
    cm: map<Trans<F, S>, W>, fm: map<Trans<Node<S, F>, FieldLabel<L>>, W>, n: Node<S, F>)
    requires ValidAnalysis(an)
    requires AllDerivable(CallSystem(an, starts, ns), cm) && AllDerivable(FieldSystem(an, starts, ns), fm)
    ensures n in CallNodes(cm.Keys) ==> CallReachable(an, starts, ns, n)
    ensures n in ReturnNodes(cm.Keys) ==> CallReachable(an, starts, ns, n)
    ensures n in FieldNodes(fm.Keys) ==> FieldReachable(an, starts, ns, n)
  {
    RulesWellFormed(an, starts, ns);
    if n in CallNodes(cm.Keys) {
      var t :| t in cm.Keys && ReportsCall(t) && CallNode(t) == n;
      var c := TransitionUsed(CallSystem(an, starts, ns), cm, t);
      assert c == Config(n.fact, [n.stmt] + c.stack[1..]);
    }
    if n in ReturnNodes(cm.Keys) {
      ReturnsReachable(an, starts, ns, cm, n);
    }
    if n in FieldNodes(fm.Keys) {
      var t :| t in fm.Keys && t.start.Control? && t.start.d == n;
      var c := TransitionUsed(FieldSystem(an, starts, ns), fm, t);
      assert c == Config(n, c.stack);
    }
  }

  /** A return is reported when its own transition can be derived already. */
  lemma ReturnsReachable<S(!new), F(!new), L(!new), W(!new)>(
    an: Analysis<S, F, L, W>, starts: set<(Node<S, F>, W)>, ns: set<Node<S, F>>, cm: map<Trans<F, S>, W>, n: Node<S, F>)
    requires ValidAnalysis(an) && AllDerivable(CallSystem(an, starts, ns), cm) && n in ReturnNodes(cm.Keys)
    ensures CallReachable(an, starts, ns, n)
  {
    var sys := CallSystem(an, starts, ns);
    RulesWellFormed(an, starts, ns);
    DerivableShaped(sys, cm);
    var e, t :| e in cm.Keys && t in cm.Keys && e.lbl == Eps && e.start.Control? && t.start == e.target && t.lbl.Sym? &&
      n == Node(t.lbl.n, e.start.d);
    assert Shaped(sys.empties, e) && Derivable(sys, e, cm[e]) && Derivable(sys, t, cm[t]);
    var de :| Valid(sys, de) && Concl(de) == e && Value(sys.sr, de) == cm[e];
    var dt :| Valid(sys, dt) && Concl(dt) == t && Value(sys.sr, dt) == cm[t];
    var d, ret := ReturnStep(de, dt), ReturnResult(e, t);
    assert Valid(sys, d) && Concl(d) == ret;
    var c := TransitionUsed(sys, map[ret := Value(sys.sr, d)], ret);
    assert c == Config(n.fact, [n.stmt] + c.stack[1..]);
  }

  /** Once the automaton is saturated the transition is there. */
  lemma ReturnsReported<S(!new), F(!new), L(!new), W(!new)>(
    an: Analysis<S, F, L, W>, starts: set<(Node<S, F>, W)>, ns: set<Node<S, F>>, cm: map<Trans<F, S>, W>)
    requires ValidAnalysis(an) && Solution(CallSystem(an, starts, ns), cm)
    ensures ReturnNodes(cm.Keys) <= CallNodes(cm.Keys)
  {
    forall n | n in ReturnNodes(cm.Keys) ensures n in CallNodes(cm.Keys) {
      ReturnsReachable(an, starts, ns, cm, n);
      CallNodesExact(an, starts, ns, cm, n);
    }
  }

  lemma CallNodesExact<S(!new), F(!new), L(!new), W(!new)>(
    an: Analysis<S, F, L, W>, starts: set<(Node<S, F>, W)>, ns: set<Node<S, F>>, m: map<Trans<F, S>, W>, n: Node<S, F>)
    requires ValidAnalysis(an) && Solution(CallSystem(an, starts, ns), m)
    ensures n in CallNodes(m.Keys) <==> CallReachable(an, starts, ns, n)
  {
    hide Reachable, Saturated, Derivable, CallRules, WellFormed, ValidAnalysis;
    var sys := CallSystem(an, starts, ns);
    assert an.sr.Laws() by { LawsOf(an); }
    RulesWellFormed(an, starts, ns);
    if n in CallNodes(m.Keys) {
      var t :| t in m.Keys && ReportsCall(t) && CallNode(t) == n;
      var c := TransitionUsed(sys, m, t);
      assert c == Config(n.fact, [n.stmt] + c.stack[1..]);
    }
    if calls :| Reachable(sys, Config(n.fact, [n.stmt] + calls)) {
      var t := ReachableHasTransition(sys, m, Config(n.fact, [n.stmt] + calls));
      assert ReportsCall(t) && CallNode(t) == n;
    }
  }

  lemma LawsOf<S(!new), F(!new), L(!new), W(!new)>(an: Analysis<S, F, L, W>)
    requires ValidAnalysis(an)
    ensures an.sr.Laws()
  {
  }

  lemma FieldNodesExact<S(!new), F(!new), L(!new), W(!new)>(
    an: Analysis<S, F, L, W>, starts: set<(Node<S, F>, W)>, ns: set<Node<S, F>>,
    m: map<Trans<Node<S, F>, FieldLabel<L>>, W>, n: Node<S, F>)
    requires ValidAnalysis(an) && Solution(FieldSystem(an, starts, ns), m)
    ensures n in FieldNodes(m.Keys) <==> FieldReachable(an, starts, ns, n)
  {
    var sys := FieldSystem(an, starts, ns);
    RulesWellFormed(an, starts, ns);
    if n in FieldNodes(m.Keys) {
      var t :| t in m.Keys && t.start.Control? && t.start.d == n;
      var c := TransitionUsed(sys, m, t);
      assert c == Config(n, c.stack);
    }
    if fields :| fields != [] && Reachable(sys, Config(n, fields)) {
      var t := ReachableHasTransition(sys, m, Config(n, fields));
      assert t.start == Control(n);
    }
  }

  lemma SystemsMonotone<S(!new), F(!new), L(!new), W(!new)>(
    an: Analysis<S, F, L, W>, starts: set<(Node<S, F>, W)>, starts': set<(Node<S, F>, W)>,
    ns: set<Node<S, F>>, ns': set<Node<S, F>>, n: Node<S, F>)
    requires starts <= starts' && ns <= ns'
    ensures CallReachable(an, starts, ns, n) ==> CallReachable(an, starts', ns', n)
    ensures FieldReachable(an, starts, ns, n) ==> FieldReachable(an, starts', ns', n)
  {
    if calls :| Reachable(CallSystem(an, starts, ns), Config(n.fact, [n.stmt] + calls)) {
      ReachableMonotone(CallSystem(an, starts, ns), CallSystem(an, starts', ns'), Config(n.fact, [n.stmt] + calls));
    }
    if fields :| fields != [] && Reachable(FieldSystem(an, starts, ns), Config(n, fields)) {
      ReachableMonotone(FieldSystem(an, starts, ns), FieldSystem(an, starts', ns'), Config(n, fields));
    }
  }

  // ---------------------------------------------------------------- the least synchronized set

  /** ns is contained in every synchronized set. */
  ghost predicate Minimal<S(!new), F(!new), L(!new), W(!new)>(
    an: Analysis<S, F, L, W>, starts: set<(Node<S, F>, W)>, ns: set<Node<S, F>>)
  {
    forall others :: Synchronized(an, starts, others) ==> ns <= others
  }

  lemma MinimalStep<S(!new), F(!new), L(!new), W(!new)>(
    an: Analysis<S, F, L, W>, starts: set<(Node<S, F>, W)>, ns: set<Node<S, F>>, n: Node<S, F>)
    requires Minimal(an, starts, ns) && CallReachable(an, starts, ns, n) && FieldReachable(an, starts, ns, n)
    ensures Minimal(an, starts, ns + {n})
  {
    forall others | Synchronized(an, starts, others)
      ensures ns + {n} <= others
    {
      SystemsMonotone(an, starts, starts, ns, others, n);
    }
  }

  lemma MinimalMoreStarts<S(!new), F(!new), L(!new), W(!new)>(
    an: Analysis<S, F, L, W>, starts: set<(Node<S, F>, W)>, starts': set<(Node<S, F>, W)>, ns: set<Node<S, F>>)
    requires Minimal(an, starts, ns) && starts <= starts'
    ensures Minimal(an, starts', ns)
  {
    forall others | Synchronized(an, starts', others)
      ensures ns <= others
    {
      forall n | CallReachable(an, starts, others, n) && FieldReachable(an, starts, others, n)
        ensures n in others
      {
        SystemsMonotone(an, starts, starts', others, others, n);
      }
      assert Synchronized(an, starts, others);
    }
  }

  // ---------------------------------------------------------------- finitely many nodes

  /** nodes contains the start nodes and is closed under successors. */
  ghost predicate Closed<S(!new), F(!new), L(!new), W(!new)>(
    an: Analysis<S, F, L, W>, starts: set<(Node<S, F>, W)>, nodes: set<Node<S, F>>)
  {
    && (forall st <- starts :: st.0 in nodes)
    && (forall n <- nodes, s <- an.successors(n) :: Target(s) in nodes)
  }

  lemma FieldNodesClosed<S(!new), F(!new), L(!new), W(!new)>(
    an: Analysis<S, F, L, W>, starts: set<(Node<S, F>, W)>, ns: set<Node<S, F>>, nodes: set<Node<S, F>>,
    m: map<Trans<Node<S, F>, FieldLabel<L>>, W>, names: Names<Node<S, F>, FieldLabel<L>>)
    requires Closed(an, starts, nodes) && ns <= nodes
    requires AllDerivable(FieldSystem(an, starts, ns), m) && SystemIn(names, FieldSystem(an, starts, ns))
    ensures FieldNodes(m.Keys) <= nodes
  {
    var sys, names' := FieldSystem(an, starts, ns), Names(nodes, names.symbols);
    assert SystemIn(names', sys) by {
      forall r <- sys.rules ensures RuleIn(names', r) {
        assert RuleIn(names, r);
        var n, s :| n in ns && s in an.successors(n) && r == FieldRule(an, n, s);
        assert Target(s) in nodes;
      }
      forall i <- sys.inits ensures TransIn(names', i.0) { assert TransIn(names, i.0); }
    }
    forall t <- m | t.start.Control? ensures t.start.d in nodes {
      assert Derivable(sys, t, m[t]);
      var d :| Valid(sys, d) && Concl(d) == t && Value(sys.sr, d) == m[t];
      DerivationIn(names', sys, d);
    }
  }

  // ---------------------------------------------------------------- more rules, more starts

  /** Once reported, a node stays reported. */
  lemma ReportsKept<S(!new), F(!new), L(!new), W(!new)>(
    an: Analysis<S, F, L, W>, starts: set<(Node<S, F>, W)>, starts': set<(Node<S, F>, W)>,
    ns: set<Node<S, F>>, ns': set<Node<S, F>>,
    cm: map<Trans<F, S>, W>, cm': map<Trans<F, S>, W>,
    fm: map<Trans<Node<S, F>, FieldLabel<L>>, W>, fm': map<Trans<Node<S, F>, FieldLabel<L>>, W>)
    requires ValidAnalysis(an) && starts <= starts' && ns <= ns'
    requires Solution(CallSystem(an, starts, ns), cm) && Solution(CallSystem(an, starts', ns'), cm')
    requires Solution(FieldSystem(an, starts, ns), fm) && Solution(FieldSystem(an, starts', ns'), fm')
    ensures CallNodes(cm.Keys) <= CallNodes(cm'.Keys)
    ensures FieldNodes(fm.Keys) <= FieldNodes(fm'.Keys)
  {
    forall n <- CallNodes(cm.Keys) ensures n in CallNodes(cm'.Keys) {
      CallNodesExact(an, starts, ns, cm, n);
      CallNodesExact(an, starts', ns', cm', n);
      SystemsMonotone(an, starts, starts', ns, ns', n);
    }
    forall n <- FieldNodes(fm.Keys) ensures n in FieldNodes(fm'.Keys) {
      FieldNodesExact(an, starts, ns, fm, n);
      FieldNodesExact(an, starts', ns', fm', n);
      SystemsMonotone(an, starts, starts', ns, ns', n);
    }
  }

  lemma RulesOfOneMore<S(!new), F(!new), L(!new), W(!new)>(an: Analysis<S, F, L, W>, ns: set<Node<S, F>>, n: Node<S, F>)
    ensures CallRules(an, ns + {n}) == CallRules(an, ns) + (set s <- an.successors(n) :: CallRule(an, n, s))
    ensures FieldRules(an, ns + {n}) == FieldRules(an, ns) + (set s <- an.successors(n) :: FieldRule(an, n, s))
  {
  }

  lemma RuleWellFormed<S(!new), F(!new), L(!new), W(!new)>(
    an: Analysis<S, F, L, W>, n: Node<S, F>, s: Successor<S, F, L>)
    requires ValidAnalysis(an)
    ensures WellFormedRule(an.callEmpties, CallRule(an, n, s)) && WellFormedRule(an.fieldEmpties, FieldRule(an, n, s))
  {
  }
}
