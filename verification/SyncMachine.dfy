/** Synchronized pushdown systems: one pushdown system for calls, one for fields,
    and the two-stack machine that they over-approximate. */
module SyncMachine {
  import opened Semirings
  import opened Pushdown
  import opened PAutomata
  import opened Justification
  import opened Exactness

  datatype Node<S, F> = Node(stmt: S, fact: F)

  /** The field stack symbols; EmptyField is emptyField(), the stack bottom. */
  datatype FieldLabel<L> = EmptyField | Field(f: L)

  /** What computeSuccessor may return for a node. A CastNode is a Flow. */
  datatype Successor<S, F, L> =
    | Flow(succ: Node<S, F>)
    | Exclude(succ: Node<S, F>, excluded: L)
    | PushField(succ: Node<S, F>, field: L)
    | PushCall(succ: Node<S, F>, callSite: S)
    | PopField(succ: Node<S, F>, field: L)
    | PopCall(fact: F, returnSite: S)

  /** The node a successor leads to. */
  function Target<S, F, L>(s: Successor<S, F, L>): Node<S, F> {
    if s.PopCall? then Node(s.returnSite, s.fact) else s.succ
  }

  /** An analysis: its successor function, its weights, and its start nodes. */
  datatype Analysis<!S(==, !new), !F(==, !new), !L(==, !new), !W(==, !new)> = Analysis(
    sr: Semiring<W>,
    callEmpties: set<Label<S>>,
    fieldEmpties: set<Label<FieldLabel<L>>>,
    successors: Node<S, F> -> set<Successor<S, F, L>>,
    callWeight: (Node<S, F>, Successor<S, F, L>) -> W,
    fieldWeight: (Node<S, F>, Successor<S, F, L>) -> W)

  /** Statements are no Empty; of the fields at most the stack bottom is. */
  ghost predicate ValidAnalysis<S(!new), F(!new), L(!new), W(!new)>(an: Analysis<S, F, L, W>) {
    an.sr.Laws() && an.callEmpties <= {Eps} && an.fieldEmpties <= {Eps, Sym(EmptyField)}
  }

  // ---------------------------------------------------------------- the two rule systems

  /** The rule that processNormal, processPush or processPop adds to callingPDS. */
  function CallRule<S(==, !new), F(==, !new), L(==, !new), W(==, !new)>(
    an: Analysis<S, F, L, W>, n: Node<S, F>, s: Successor<S, F, L>): Rule<F, S, W>
  {
    var w := an.callWeight(n, s);
    match s
    case PushCall(succ, callSite) => Push(n.fact, Lit(n.stmt), succ.fact, succ.stmt, Lit(callSite), w)
    case PopCall(fact, _) => Pop(n.fact, n.stmt, fact, w)
    case _ => Normal(n.fact, Lit(n.stmt), s.succ.fact, Lit(s.succ.stmt), w)
  }

  /** The rule that goes to fieldPDS. A PushNode never equals a plain Node, so
      the test in processPush never suppresses a field push. */
  function FieldRule<S(==, !new), F(==, !new), L(==, !new), W(==, !new)>(
    an: Analysis<S, F, L, W>, n: Node<S, F>, s: Successor<S, F, L>): Rule<Node<S, F>, FieldLabel<L>, W>
  {
    var w := an.fieldWeight(n, s);
    match s
    case Exclude(succ, f) => Normal(n, Any, succ, AnyBut(Field(f)), w)
    case PushField(succ, f) => Push(n, Any, succ, Field(f), Any, w)
    case PopField(succ, f) => Pop(n, Field(f), succ, w)
    case _ => Normal(n, Any, Target(s), Any, w)
  }

  ghost function CallRules<S(!new), F(!new), L(!new), W(!new)>(
    an: Analysis<S, F, L, W>, ns: set<Node<S, F>>): set<Rule<F, S, W>>
  {
    set n <- ns, s <- an.successors(n) :: CallRule(an, n, s)
  }

  ghost function FieldRules<S(!new), F(!new), L(!new), W(!new)>(
    an: Analysis<S, F, L, W>, ns: set<Node<S, F>>): set<Rule<Node<S, F>, FieldLabel<L>, W>>
  {
    set n <- ns, s <- an.successors(n) :: FieldRule(an, n, s)
  }

  function InitialCall<S, F, W>(start: (Node<S, F>, W)): (Trans<F, S>, W) {
    (Trans(Control(start.0.fact), Sym(start.0.stmt), Sink), start.1)
  }

  function InitialField<S, F, L, W>(one: W, start: (Node<S, F>, W)): (Trans<Node<S, F>, FieldLabel<L>>, W) {
    (Trans(Control(start.0), Sym(EmptyField), Sink), one)
  }

  /** callingPDS and fieldPDS once exactly the nodes ns have been expanded. */
  ghost function CallSystem<S(!new), F(!new), L(!new), W(!new)>(
    an: Analysis<S, F, L, W>, starts: set<(Node<S, F>, W)>, ns: set<Node<S, F>>): System<F, S, W>
  {
    System(an.sr, an.callEmpties, CallRules(an, ns), set st <- starts :: InitialCall(st))
  }

  ghost function FieldSystem<S(!new), F(!new), L(!new), W(!new)>(
    an: Analysis<S, F, L, W>, starts: set<(Node<S, F>, W)>, ns: set<Node<S, F>>): System<Node<S, F>, FieldLabel<L>, W>
  {
    System(an.sr, an.fieldEmpties, FieldRules(an, ns), set st <- starts :: InitialField(an.sr.one, st))
  }

  lemma RulesWellFormed<S(!new), F(!new), L(!new), W(!new)>(
    an: Analysis<S, F, L, W>, starts: set<(Node<S, F>, W)>, ns: set<Node<S, F>>)
    requires ValidAnalysis(an)
    ensures WellFormed(CallSystem(an, starts, ns)) && WellFormed(FieldSystem(an, starts, ns))
  {
  }

  // ---------------------------------------------------------------- the two-stack machine

  datatype TwoStack<S, F, L> = TwoStack(node: Node<S, F>, calls: seq<S>, fields: seq<FieldLabel<L>>)

  /** One step. A field stack that has lost its bottom is stuck; a return goes
      to the return site only if that is what the call stack holds. */
  function Step<S(==), F, L(==)>(c: TwoStack<S, F, L>, s: Successor<S, F, L>): Option<TwoStack<S, F, L>> {
    if c.fields == [] then None
    else match s
      case Flow(succ) => Some(TwoStack(succ, c.calls, c.fields))
      case Exclude(succ, f) => if c.fields[0] == Field(f) then None else Some(TwoStack(succ, c.calls, c.fields))
      case PushField(succ, f) => Some(TwoStack(succ, c.calls, [Field(f)] + c.fields))
      case PushCall(succ, callSite) => Some(TwoStack(succ, [callSite] + c.calls, c.fields))
      case PopField(succ, f) => if c.fields[0] == Field(f) then Some(TwoStack(succ, c.calls, c.fields[1..])) else None
      case PopCall(fact, returnSite) =>
        if c.calls != [] && c.calls[0] == returnSite then
          Some(TwoStack(Node(returnSite, fact), c.calls[1..], c.fields))
        else None
  }

  /** c' is reached from c by taking the given successors in turn. */
  ghost predicate Runs<S(!new), F(!new), L(!new), W(!new)>(
    an: Analysis<S, F, L, W>, c: TwoStack<S, F, L>, ss: seq<Successor<S, F, L>>, c': TwoStack<S, F, L>)
    decreases |ss|
  {
    if ss == [] then c == c'
    else
      var k := |ss| - 1;
      exists mid :: Runs(an, c, ss[..k], mid) && ss[k] in an.successors(mid.node) && Step(mid, ss[k]) == Some(c')
  }

  function Initial<S, F, L>(n: Node<S, F>): TwoStack<S, F, L> {
    TwoStack(n, [], [EmptyField])
  }

  function CallConfig<S, F, L>(c: TwoStack<S, F, L>): Config<F, S> {
    Config(c.node.fact, [c.node.stmt] + c.calls)
  }

  function FieldConfig<S, F, L>(c: TwoStack<S, F, L>): Config<Node<S, F>, FieldLabel<L>> {
    Config(c.node, c.fields)
  }

  /** Either half of a step is a step of the respective pushdown system. */
  lemma StepProjects<S(!new), F(!new), L(!new), W(!new)>(
    an: Analysis<S, F, L, W>, c: TwoStack<S, F, L>, s: Successor<S, F, L>)
    requires Step(c, s).Some?
    ensures Apply(CallRule(an, c.node, s), CallConfig(c)) == Some(CallConfig(Step(c, s).value))
    ensures Apply(FieldRule(an, c.node, s), FieldConfig(c)) == Some(FieldConfig(Step(c, s).value))
    ensures Step(c, s).value.node == Target(s)
  {
    var c' := Step(c, s).value;
    assert CallConfig(c).stack[0] == c.node.stmt && CallConfig(c).stack[1..] == c.calls;
    assert [c.fields[0]] + c.fields[1..] == c.fields;
    match s
    case PushField(_, f) => assert [Field(f), c.fields[0]] + c.fields[1..] == [Field(f)] + c.fields;
    case PushCall(succ, callSite) => assert [succ.stmt, callSite] + c.calls == [succ.stmt] + ([callSite] + c.calls);
    case PopCall(_, returnSite) => assert [returnSite] + c.calls[1..] == c.calls;
    case _ =>
  }

  // ---------------------------------------------------------------- synchronization

  ghost predicate CallReachable<S(!new), F(!new), L(!new), W(!new)>(
    an: Analysis<S, F, L, W>, starts: set<(Node<S, F>, W)>, ns: set<Node<S, F>>, n: Node<S, F>)
  {
    exists calls :: Reachable(CallSystem(an, starts, ns), Config(n.fact, [n.stmt] + calls))
  }

  ghost predicate FieldReachable<S(!new), F(!new), L(!new), W(!new)>(
    an: Analysis<S, F, L, W>, starts: set<(Node<S, F>, W)>, ns: set<Node<S, F>>, n: Node<S, F>)
  {
    exists fields :: fields != [] && Reachable(FieldSystem(an, starts, ns), Config(n, fields))
  }

  /** ns is closed under expanding the nodes that both systems reach. */
  ghost predicate Synchronized<S(!new), F(!new), L(!new), W(!new)>(
    an: Analysis<S, F, L, W>, starts: set<(Node<S, F>, W)>, ns: set<Node<S, F>>)
  {
    forall n :: CallReachable(an, starts, ns, n) && FieldReachable(an, starts, ns, n) ==> n in ns
  }

  /** Appending a step to a run. */
  lemma ReachableStep<D(!new), N(!new), W(!new)>(sys: System<D, N, W>, c: Config<D, N>, r: Rule<D, N, W>)
    requires sys.sr.Laws() && Reachable(sys, c) && r in sys.rules && Apply(r, c).Some?
    ensures Reachable(sys, Apply(r, c).value)
  {
    var from, w0, rs :| IsRun(sys, Sink, c, from, w0, rs);
    var e := Run(from, w0, rs);
    ThenSupports(sys, Sink, c, e, r);
    SupportHasRun(sys, Apply(r, c).value, Then(e, r));
  }

  lemma StartReachable<S(!new), F(!new), L(!new), W(!new)>(
    an: Analysis<S, F, L, W>, starts: set<(Node<S, F>, W)>, ns: set<Node<S, F>>, start: (Node<S, F>, W))
    requires start in starts
    ensures Reachable(CallSystem(an, starts, ns), CallConfig(Initial<S, F, L>(start.0)))
    ensures Reachable(FieldSystem(an, starts, ns), FieldConfig(Initial<S, F, L>(start.0)))
  {
    var n := start.0;
    assert InitialCall(start) in CallSystem(an, starts, ns).inits;
    assert InitialField(an.sr.one, start) in FieldSystem(an, starts, ns).inits;
    assert [n.stmt] + [] == [n.stmt];
    assert IsRun(CallSystem(an, starts, ns), Sink, Config(n.fact, [n.stmt]), Config(n.fact, [n.stmt]), start.1, []);
    assert IsRun(FieldSystem(an, starts, ns), Sink, Config(n, [EmptyField]), Config(n, [EmptyField]), an.sr.one, []);
  }

  /** Soundness: a synchronized set contains every node that the two-stack
      machine reaches with something left on its field stack. */
  lemma {:induction false} SynchronizedSound<S(!new), F(!new), L(!new), W(!new)>(
    an: Analysis<S, F, L, W>, starts: set<(Node<S, F>, W)>, ns: set<Node<S, F>>,
    start: (Node<S, F>, W), ss: seq<Successor<S, F, L>>, c: TwoStack<S, F, L>)
    requires ValidAnalysis(an) && Synchronized(an, starts, ns) && start in starts
    requires Runs(an, Initial(start.0), ss, c)
    ensures Reachable(CallSystem(an, starts, ns), CallConfig(c))
    ensures Reachable(FieldSystem(an, starts, ns), FieldConfig(c))
    ensures c.fields != [] ==> c.node in ns
    decreases |ss|
  {
    if ss == [] {
      StartReachable(an, starts, ns, start);
    } else {
      var k := |ss| - 1;
      var mid :| Runs(an, Initial(start.0), ss[..k], mid) && ss[k] in an.successors(mid.node) &&
        Step(mid, ss[k]) == Some(c);
      SynchronizedSound(an, starts, ns, start, ss[..k], mid);
      StepProjects(an, mid, ss[k]);
      assert CallRule(an, mid.node, ss[k]) in CallRules(an, ns);
      assert FieldRule(an, mid.node, ss[k]) in FieldRules(an, ns);
      ReachableStep(CallSystem(an, starts, ns), CallConfig(mid), CallRule(an, mid.node, ss[k]));
      ReachableStep(FieldSystem(an, starts, ns), FieldConfig(mid), FieldRule(an, mid.node, ss[k]));
    }
    if c.fields != [] {
      assert CallReachable(an, starts, ns, c.node);
      assert FieldReachable(an, starts, ns, c.node);
    }
  }
}
