/** The two stacks taken apart: what the call system and the field system say about
    an analysis, in terms of its successors and weights and of no rule. */
module StackMachines {
  import opened Semirings
  import opened Pushdown
  import opened PAutomata
  import opened Justification
  import opened Exactness
  import opened SyncMachine

  /** A node with one of the two stacks. */
  datatype Half<S, F, X> = Half(node: Node<S, F>, stack: seq<X>)

  /** A step as the call stack sees it: a return goes to whatever return site is on top. */
  function CallStep<S, F, L>(h: Half<S, F, S>, s: Successor<S, F, L>): Option<Half<S, F, S>> {
    match s
    case PushCall(succ, callSite) => Some(Half(succ, [callSite] + h.stack))
    case PopCall(fact, _) => if h.stack == [] then None else Some(Half(Node(h.stack[0], fact), h.stack[1..]))
    case _ => Some(Half(s.succ, h.stack))
  }

  /** A step as the field stack sees it. */
  function FieldStep<S, F, L(==)>(
    h: Half<S, F, FieldLabel<L>>, s: Successor<S, F, L>): Option<Half<S, F, FieldLabel<L>>>
  {
    if h.stack == [] then None
    else match s
      case Exclude(succ, f) => if h.stack[0] == Field(f) then None else Some(Half(succ, h.stack))
      case PushField(succ, f) => Some(Half(succ, [Field(f)] + h.stack))
      case PopField(succ, f) => if h.stack[0] == Field(f) then Some(Half(succ, h.stack[1..])) else None
      case _ => Some(Half(Target(s), h.stack))
  }

  /** A step of the two-stack machine is one that both halves can take to the same node. */
  lemma StepIsBoth<S(!new), F(!new), L(!new)>(c: TwoStack<S, F, L>, s: Successor<S, F, L>, c': TwoStack<S, F, L>)
    ensures Step(c, s) == Some(c') <==>
      && CallStep(Half(c.node, c.calls), s) == Some(Half(c'.node, c'.calls))
      && FieldStep(Half(c.node, c.fields), s) == Some(Half(c'.node, c'.fields))
  {
  }

  function CallPart<S, F>(h: Half<S, F, S>): Config<F, S> {
    Config(h.node.fact, [h.node.stmt] + h.stack)
  }

  function FieldPart<S, F, L>(h: Half<S, F, FieldLabel<L>>): Config<Node<S, F>, FieldLabel<L>> {
    Config(h.node, h.stack)
  }

  /** The call rule for s at n can be applied at n only, does what s does to the call
      stack, and weighs what s weighs. A return from the start leaves no stack. */
  lemma CallRuleIsStep<S(!new), F(!new), L(!new), W(!new)>(
    an: Analysis<S, F, L, W>, n: Node<S, F>, s: Successor<S, F, L>, h: Half<S, F, S>)
    ensures CallRule(an, n, s).w == an.callWeight(n, s)
    ensures Apply(CallRule(an, n, s), CallPart(h)).Some? <==> n == h.node
    ensures n == h.node && CallStep(h, s).Some? ==>
      Apply(CallRule(an, n, s), CallPart(h)) == Some(CallPart(CallStep(h, s).value))
    ensures n == h.node && CallStep(h, s).None? ==>
      s.PopCall? && h.stack == [] && Apply(CallRule(an, n, s), CallPart(h)) == Some(Config(s.fact, []))
  {
    assert CallPart(h).stack[0] == h.node.stmt && CallPart(h).stack[1..] == h.stack;
    match s
    case PushCall(succ, callSite) => assert [succ.stmt, callSite] + h.stack == [succ.stmt] + ([callSite] + h.stack);
    case PopCall(_, _) => assert h.stack != [] ==> [h.stack[0]] + h.stack[1..] == h.stack;
    case _ =>
  }

  /** The same for the field rule. */
  lemma FieldRuleIsStep<S(!new), F(!new), L(!new), W(!new)>(
    an: Analysis<S, F, L, W>, n: Node<S, F>, s: Successor<S, F, L>, h: Half<S, F, FieldLabel<L>>)
    ensures FieldRule(an, n, s).w == an.fieldWeight(n, s)
    ensures Apply(FieldRule(an, n, s), FieldPart(h)) ==
      if n == h.node && FieldStep(h, s).Some? then Some(FieldPart(FieldStep(h, s).value)) else None
  {
    if h.stack != [] {
      assert [h.stack[0]] + h.stack[1..] == h.stack;
      match s
      case PushField(_, f) => assert [Field(f), h.stack[0]] + h.stack[1..] == [Field(f)] + h.stack;
      case _ =>
    }
  }

  /** The two rules for s at n, applied together, do what s does at n and nothing else. */
  lemma RulesAreStep<S(!new), F(!new), L(!new), W(!new)>(
    an: Analysis<S, F, L, W>, n: Node<S, F>, s: Successor<S, F, L>, c: TwoStack<S, F, L>, c': TwoStack<S, F, L>)
    ensures n == c.node && Step(c, s) == Some(c') <==>
      && Apply(CallRule(an, n, s), CallConfig(c)) == Some(CallConfig(c'))
      && Apply(FieldRule(an, n, s), FieldConfig(c)) == Some(FieldConfig(c'))
  {
    CallRuleIsStep(an, n, s, Half(c.node, c.calls));
    FieldRuleIsStep(an, n, s, Half(c.node, c.fields));
    StepIsBoth(c, s, c');
    if CallStep(Half(c.node, c.calls), s).Some? {
      hide CallStep, FieldStep, CallRule, FieldRule, Step;
      var h := CallStep(Half(c.node, c.calls), s).value;
      assert CallPart(h) == CallConfig(c') ==> h == Half(c'.node, c'.calls) by {
        if CallPart(h) == CallPart(Half(c'.node, c'.calls)) { SameHalf(h, Half(c'.node, c'.calls)); }
      }
    }
  }

  // ---------------------------------------------------------------- runs of one half

  /** The call half takes ss in turn, from the start to h, at nodes of ns; w is the
      weight of the start extended with those of the successors. */
  ghost predicate CallRuns<S(!new), F(!new), L(!new), W(!new)>(
    an: Analysis<S, F, L, W>, ns: set<Node<S, F>>, start: (Node<S, F>, W), ss: seq<Successor<S, F, L>>,
    h: Half<S, F, S>, w: W)
    decreases |ss|
  {
    if ss == [] then h == Half(start.0, []) && w == start.1
    else
      var k := |ss| - 1;
      exists mid: Half<S, F, S>, v ::
        && CallRuns(an, ns, start, ss[..k], mid, v) && mid.node in ns && ss[k] in an.successors(mid.node)
        && CallStep(mid, ss[k]) == Some(h) && w == an.sr.extend(v, an.callWeight(mid.node, ss[k]))
  }

  /** The field half does; every start weighs one there. */
  ghost predicate FieldRuns<S(!new), F(!new), L(!new), W(!new)>(
    an: Analysis<S, F, L, W>, ns: set<Node<S, F>>, start: (Node<S, F>, W), ss: seq<Successor<S, F, L>>,
    h: Half<S, F, FieldLabel<L>>, w: W)
    decreases |ss|
  {
    if ss == [] then h == Half(start.0, [EmptyField]) && w == an.sr.one
    else
      var k := |ss| - 1;
      exists mid: Half<S, F, FieldLabel<L>>, v ::
        && FieldRuns(an, ns, start, ss[..k], mid, v) && mid.node in ns && ss[k] in an.successors(mid.node)
        && FieldStep(mid, ss[k]) == Some(h) && w == an.sr.extend(v, an.fieldWeight(mid.node, ss[k]))
  }

  lemma RunWeightOne<D, N, W(!new)>(sr: Semiring<W>, w0: W, rs: seq<Rule<D, N, W>>, r: Rule<D, N, W>)
    requires sr.Laws()
    ensures WeightOfRun(sr, w0, rs + [r]) == sr.extend(WeightOfRun(sr, w0, rs), r.w)
  {
    RunWeightConcat(sr, rs, [r]);
    assert [r][1..] == [];
    sr.ExtendAssociative(w0, RunWeight(sr, rs), r.w);
  }

  lemma CallSeed<S(!new), F(!new), L(!new), W(!new)>(
    an: Analysis<S, F, L, W>, starts: set<(Node<S, F>, W)>, ns: set<Node<S, F>>, from: Config<F, S>, w0: W)
    requires Seed(CallSystem(an, starts, ns), Sink, from, w0)
    ensures exists start :: start in starts && from == CallPart(Half(start.0, [])) && w0 == start.1
  {
    var i :| i in CallSystem(an, starts, ns).inits && i == (Trans(Control(from.state), Sym(from.stack[0]), Sink), w0);
    var start :| start in starts && i == InitialCall(start);
    assert from.stack == [start.0.stmt] + [];
  }

  /** Each run of the call half is one of the call system, with the same weight. */
  lemma {:induction false} CallRunIsRun<S(!new), F(!new), L(!new), W(!new)>(
    an: Analysis<S, F, L, W>, starts: set<(Node<S, F>, W)>, ns: set<Node<S, F>>, start: (Node<S, F>, W),
    ss: seq<Successor<S, F, L>>, h: Half<S, F, S>, w: W)
    returns (rs: seq<Rule<F, S, W>>)
    requires an.sr.Laws() && start in starts && CallRuns(an, ns, start, ss, h, w)
    ensures IsRun(CallSystem(an, starts, ns), Sink, CallPart(h), CallPart(Half(start.0, [])), start.1, rs)
    ensures WeightOfRun(an.sr, start.1, rs) == w
    decreases |ss|
  {
    var sys, from := CallSystem(an, starts, ns), CallPart(Half(start.0, []));
    if ss == [] {
      rs := [];
      assert InitialCall(start) in sys.inits;
      assert [start.0.stmt] + [] == [start.0.stmt];
    } else {
      var k := |ss| - 1;
      var mid: Half<S, F, S>, v :| CallRuns(an, ns, start, ss[..k], mid, v) && mid.node in ns &&
        ss[k] in an.successors(mid.node) && CallStep(mid, ss[k]) == Some(h) &&
        w == an.sr.extend(v, an.callWeight(mid.node, ss[k]));
      var rs0 := CallRunIsRun(an, starts, ns, start, ss[..k], mid, v);
      var r := CallRule(an, mid.node, ss[k]);
      CallRuleIsStep(an, mid.node, ss[k], mid);
      RunOneMore(sys, from, start.1, rs0, CallPart(mid), r);
      rs := rs0 + [r];
    }
  }

  lemma HasStack<D, N, W>(r: Rule<D, N, W>, c: Config<D, N>)
    requires Apply(r, c).Some?
    ensures c.stack != []
  {
  }

  lemma RunOneMore<D(!new), N(!new), W(!new)>(
    sys: System<D, N, W>, from: Config<D, N>, w0: W, rs: seq<Rule<D, N, W>>, mid: Config<D, N>, r: Rule<D, N, W>)
    requires sys.sr.Laws() && IsRun(sys, Sink, mid, from, w0, rs) && r in sys.rules && Apply(r, mid).Some?
    ensures IsRun(sys, Sink, Apply(r, mid).value, from, w0, rs + [r])
    ensures WeightOfRun(sys.sr, w0, rs + [r]) == sys.sr.extend(WeightOfRun(sys.sr, w0, rs), r.w)
  {
    ExecConcat(from, rs, [r]);
    assert [r][1..] == [];
    RunWeightOne(sys.sr, w0, rs, r);
  }

  lemma CallRunsMore<S(!new), F(!new), L(!new), W(!new)>(
    an: Analysis<S, F, L, W>, ns: set<Node<S, F>>, start: (Node<S, F>, W), ss: seq<Successor<S, F, L>>,
    mid: Half<S, F, S>, v: W, s: Successor<S, F, L>)
    requires CallRuns(an, ns, start, ss, mid, v) && mid.node in ns && s in an.successors(mid.node)
    requires CallStep(mid, s).Some?
    ensures CallRuns(an, ns, start, ss + [s], CallStep(mid, s).value, an.sr.extend(v, an.callWeight(mid.node, s)))
  {
    assert (ss + [s])[..|ss|] == ss;
  }

  /** And each run of the call system to a configuration with a stack is one of the call half. */
  lemma {:induction false} CallRunOfRun<S(!new), F(!new), L(!new), W(!new)>(
    an: Analysis<S, F, L, W>, starts: set<(Node<S, F>, W)>, ns: set<Node<S, F>>, from: Config<F, S>, w0: W,
    rs: seq<Rule<F, S, W>>, h: Half<S, F, S>)
    returns (start: (Node<S, F>, W), ss: seq<Successor<S, F, L>>)
    requires an.sr.Laws() && IsRun(CallSystem(an, starts, ns), Sink, CallPart(h), from, w0, rs)
    ensures start in starts && CallRuns(an, ns, start, ss, h, WeightOfRun(an.sr, w0, rs))
    decreases |rs|
  {
    var sys := CallSystem(an, starts, ns);
    if rs == [] {
      CallSeed(an, starts, ns, from, w0);
      start :| start in starts && from == CallPart(Half(start.0, [])) && w0 == start.1;
      ss := [];
      SameHalf(h, Half(start.0, []));
    } else {
      hide CallRuns, CallRule, CallStep, Apply;
      var before, r := rs[..|rs| - 1], rs[|rs| - 1];
      assert rs == before + [r] && r in rs;
      var c := RunPrefix(from, before, r);
      assert c.stack != [] by { HasStack(r, c); }
      var mid := Half(Node(c.stack[0], c.state), c.stack[1..]);
      assert c == CallPart(mid);
      assert IsRun(sys, Sink, c, from, w0, before);
      var n, s :| n in ns && s in an.successors(n) && r == CallRule(an, n, s);
      CallRuleIsStep(an, n, s, mid);
      var ss0;
      start, ss0 := CallRunOfRun(an, starts, ns, from, w0, before, mid);
      RunWeightOne(an.sr, w0, before, r);
      SameHalf(h, CallStep(mid, s).value);
      CallRunsMore(an, ns, start, ss0, mid, WeightOfRun(an.sr, w0, before), s);
      ss := ss0 + [s];
    }
  }

  lemma SameHalf<S(!new), F(!new)>(a: Half<S, F, S>, b: Half<S, F, S>)
    requires CallPart(a) == CallPart(b)
    ensures a == b
  {
    assert CallPart(a).stack[1..] == a.stack && CallPart(b).stack[1..] == b.stack;
    assert CallPart(a).stack[0] == a.node.stmt && CallPart(b).stack[0] == b.node.stmt;
  }

  lemma FieldSeed<S(!new), F(!new), L(!new), W(!new)>(
    an: Analysis<S, F, L, W>, starts: set<(Node<S, F>, W)>, ns: set<Node<S, F>>,
    from: Config<Node<S, F>, FieldLabel<L>>, w0: W)
    requires Seed(FieldSystem(an, starts, ns), Sink, from, w0)
    ensures exists start :: start in starts && from == FieldPart(Half(start.0, [EmptyField])) && w0 == an.sr.one
  {
    var i :| i in FieldSystem(an, starts, ns).inits && i == (Trans(Control(from.state), Sym(from.stack[0]), Sink), w0);
    var start :| start in starts && i == InitialField(an.sr.one, start);
  }

  /** Each run of the field half is one of the field system, with the same weight. */
  lemma {:induction false} FieldRunIsRun<S(!new), F(!new), L(!new), W(!new)>(
    an: Analysis<S, F, L, W>, starts: set<(Node<S, F>, W)>, ns: set<Node<S, F>>, start: (Node<S, F>, W),
    ss: seq<Successor<S, F, L>>, h: Half<S, F, FieldLabel<L>>, w: W)
    returns (rs: seq<Rule<Node<S, F>, FieldLabel<L>, W>>)
    requires an.sr.Laws() && start in starts && FieldRuns(an, ns, start, ss, h, w)
    ensures IsRun(FieldSystem(an, starts, ns), Sink, FieldPart(h), FieldPart(Half(start.0, [EmptyField])), an.sr.one,
      rs)
    ensures WeightOfRun(an.sr, an.sr.one, rs) == w
    decreases |ss|
  {
    var sys, from := FieldSystem(an, starts, ns), FieldPart(Half(start.0, [EmptyField]));
    if ss == [] {
      rs := [];
      assert InitialField(an.sr.one, start) in sys.inits;
    } else {
      var k := |ss| - 1;
      var mid: Half<S, F, FieldLabel<L>>, v :| FieldRuns(an, ns, start, ss[..k], mid, v) && mid.node in ns &&
        ss[k] in an.successors(mid.node) && FieldStep(mid, ss[k]) == Some(h) &&
        w == an.sr.extend(v, an.fieldWeight(mid.node, ss[k]));
      var rs0 := FieldRunIsRun(an, starts, ns, start, ss[..k], mid, v);
      var r := FieldRule(an, mid.node, ss[k]);
      FieldRuleIsStep(an, mid.node, ss[k], mid);
      RunOneMore(sys, from, an.sr.one, rs0, FieldPart(mid), r);
      rs := rs0 + [r];
    }
  }

  lemma FieldRunsMore<S(!new), F(!new), L(!new), W(!new)>(
    an: Analysis<S, F, L, W>, ns: set<Node<S, F>>, start: (Node<S, F>, W), ss: seq<Successor<S, F, L>>,
    mid: Half<S, F, FieldLabel<L>>, v: W, s: Successor<S, F, L>)
    requires FieldRuns(an, ns, start, ss, mid, v) && mid.node in ns && s in an.successors(mid.node)
    requires FieldStep(mid, s).Some?
    ensures FieldRuns(an, ns, start, ss + [s], FieldStep(mid, s).value, an.sr.extend(v, an.fieldWeight(mid.node, s)))
  {
    assert (ss + [s])[..|ss|] == ss;
  }

  /** And each run of the field system is one of the field half. */
  lemma {:induction false} FieldRunOfRun<S(!new), F(!new), L(!new), W(!new)>(
    an: Analysis<S, F, L, W>, starts: set<(Node<S, F>, W)>, ns: set<Node<S, F>>,
    from: Config<Node<S, F>, FieldLabel<L>>, w0: W, rs: seq<Rule<Node<S, F>, FieldLabel<L>, W>>,
    h: Half<S, F, FieldLabel<L>>)
    returns (start: (Node<S, F>, W), ss: seq<Successor<S, F, L>>)
    requires an.sr.Laws() && IsRun(FieldSystem(an, starts, ns), Sink, FieldPart(h), from, w0, rs)
    ensures start in starts && FieldRuns(an, ns, start, ss, h, WeightOfRun(an.sr, w0, rs))
    decreases |rs|
  {
    var sys := FieldSystem(an, starts, ns);
    if rs == [] {
      FieldSeed(an, starts, ns, from, w0);
      start :| start in starts && from == FieldPart(Half(start.0, [EmptyField])) && w0 == an.sr.one;
      ss := [];
    } else {
      hide FieldRuns, FieldRule, FieldStep, Apply;
      var before, r := rs[..|rs| - 1], rs[|rs| - 1];
      assert rs == before + [r] && r in rs;
      var c := RunPrefix(from, before, r);
      assert c.stack != [] by { HasStack(r, c); }
      var mid := Half(c.state, c.stack);
      assert c == FieldPart(mid);
      assert IsRun(sys, Sink, c, from, w0, before);
      var n, s :| n in ns && s in an.successors(n) && r == FieldRule(an, n, s);
      FieldRuleIsStep(an, n, s, mid);
      var ss0;
      start, ss0 := FieldRunOfRun(an, starts, ns, from, w0, before, mid);
      RunWeightOne(an.sr, w0, before, r);
      FieldRunsMore(an, ns, start, ss0, mid, WeightOfRun(an.sr, w0, before), s);
      ss := ss0 + [s];
    }
  }

  // ---------------------------------------------------------------- both directions

  /** The call system reaches h exactly if the call half does, */
  lemma CallReachExact<S(!new), F(!new), L(!new), W(!new)>(
    an: Analysis<S, F, L, W>, starts: set<(Node<S, F>, W)>, ns: set<Node<S, F>>, h: Half<S, F, S>)
    requires an.sr.Laws()
    ensures Reachable(CallSystem(an, starts, ns), CallPart(h)) <==>
      exists start, ss, w :: start in starts && CallRuns(an, ns, start, ss, h, w)
  {
    if from, w0, rs :| IsRun(CallSystem(an, starts, ns), Sink, CallPart(h), from, w0, rs) {
      var start, ss := CallRunOfRun(an, starts, ns, from, w0, rs, h);
      assert start in starts && CallRuns(an, ns, start, ss, h, WeightOfRun(an.sr, w0, rs));
    }
    if start, ss, w :| start in starts && CallRuns(an, ns, start, ss, h, w) {
      var rs := CallRunIsRun(an, starts, ns, start, ss, h, w);
      assert IsRun(CallSystem(an, starts, ns), Sink, CallPart(h), CallPart(Half(start.0, [])), start.1, rs);
    }
  }

  lemma FieldReachExact<S(!new), F(!new), L(!new), W(!new)>(
    an: Analysis<S, F, L, W>, starts: set<(Node<S, F>, W)>, ns: set<Node<S, F>>, h: Half<S, F, FieldLabel<L>>)
    requires an.sr.Laws()
    ensures Reachable(FieldSystem(an, starts, ns), FieldPart(h)) <==>
      exists start, ss, w :: start in starts && FieldRuns(an, ns, start, ss, h, w)
  {
    if from, w0, rs :| IsRun(FieldSystem(an, starts, ns), Sink, FieldPart(h), from, w0, rs) {
      var start, ss := FieldRunOfRun(an, starts, ns, from, w0, rs, h);
      assert start in starts && FieldRuns(an, ns, start, ss, h, WeightOfRun(an.sr, w0, rs));
    }
    if start, ss, w :| start in starts && FieldRuns(an, ns, start, ss, h, w) {
      var rs := FieldRunIsRun(an, starts, ns, start, ss, h, w);
      assert IsRun(FieldSystem(an, starts, ns), Sink, FieldPart(h), FieldPart(Half(start.0, [EmptyField])), an.sr.one,
        rs);
    }
  }

  /** u is above what every run of the call half to h weighs. */
  ghost predicate BoundsCalls<S(!new), F(!new), L(!new), W(!new)>(
    an: Analysis<S, F, L, W>, starts: set<(Node<S, F>, W)>, ns: set<Node<S, F>>, h: Half<S, F, S>, u: W)
  {
    forall start, ss, w :: start in starts && CallRuns(an, ns, start, ss, h, w) ==> an.sr.Le(w, u)
  }

  ghost predicate BoundsFields<S(!new), F(!new), L(!new), W(!new)>(
    an: Analysis<S, F, L, W>, starts: set<(Node<S, F>, W)>, ns: set<Node<S, F>>, h: Half<S, F, FieldLabel<L>>, u: W)
  {
    forall start, ss, w :: start in starts && FieldRuns(an, ns, start, ss, h, w) ==> an.sr.Le(w, u)
  }

  /** and its runs weigh the same. */
  lemma CallBoundExact<S(!new), F(!new), L(!new), W(!new)>(
    an: Analysis<S, F, L, W>, starts: set<(Node<S, F>, W)>, ns: set<Node<S, F>>, h: Half<S, F, S>, u: W)
    requires an.sr.Laws()
    ensures BoundsRuns(CallSystem(an, starts, ns), CallPart(h), u) <==> BoundsCalls(an, starts, ns, h, u)
  {
    var sys := CallSystem(an, starts, ns);
    if BoundsRuns(sys, CallPart(h), u) {
      forall start, ss, w | start in starts && CallRuns(an, ns, start, ss, h, w) ensures an.sr.Le(w, u) {
        var rs := CallRunIsRun(an, starts, ns, start, ss, h, w);
      }
    }
    if BoundsCalls(an, starts, ns, h, u) {
      forall from, w0, rs | IsRun(sys, Sink, CallPart(h), from, w0, rs)
        ensures an.sr.Le(WeightOfRun(an.sr, w0, rs), u)
      {
        var start, ss := CallRunOfRun(an, starts, ns, from, w0, rs, h);
      }
    }
  }

  lemma FieldBoundExact<S(!new), F(!new), L(!new), W(!new)>(
    an: Analysis<S, F, L, W>, starts: set<(Node<S, F>, W)>, ns: set<Node<S, F>>, h: Half<S, F, FieldLabel<L>>, u: W)
    requires an.sr.Laws()
    ensures BoundsRuns(FieldSystem(an, starts, ns), FieldPart(h), u) <==> BoundsFields(an, starts, ns, h, u)
  {
    var sys := FieldSystem(an, starts, ns);
    if BoundsRuns(sys, FieldPart(h), u) {
      forall start, ss, w | start in starts && FieldRuns(an, ns, start, ss, h, w) ensures an.sr.Le(w, u) {
        var rs := FieldRunIsRun(an, starts, ns, start, ss, h, w);
      }
    }
    if BoundsFields(an, starts, ns, h, u) {
      forall from, w0, rs | IsRun(sys, Sink, FieldPart(h), from, w0, rs)
        ensures an.sr.Le(WeightOfRun(an.sr, w0, rs), u)
      {
        var start, ss := FieldRunOfRun(an, starts, ns, from, w0, rs, h);
      }
    }
  }

  // ---------------------------------------------------------------- runs of the two-stack machine

  /** The weights of the successors ss, taken in turn from n. */
  function WeightAlong<S, F, L, W(!new)>(
    sr: Semiring<W>, weight: (Node<S, F>, Successor<S, F, L>) -> W, n: Node<S, F>, ss: seq<Successor<S, F, L>>): W
    decreases |ss|
  {
    if ss == [] then sr.one
    else
      var k := |ss| - 1;
      sr.extend(WeightAlong(sr, weight, n, ss[..k]), weight(if k == 0 then n else Target(ss[k - 1]), ss[k]))
  }

  lemma EndsAtTarget<S(!new), F(!new), L(!new), W(!new)>(
    an: Analysis<S, F, L, W>, n: Node<S, F>, ss: seq<Successor<S, F, L>>, c: TwoStack<S, F, L>)
    requires Runs(an, Initial(n), ss, c)
    ensures c.node == if ss == [] then n else Target(ss[|ss| - 1])
  {
  }

  /** A run of the two-stack machine at nodes of ns is a run of both halves. */
  lemma {:induction false} RunsSplit<S(!new), F(!new), L(!new), W(!new)>(
    an: Analysis<S, F, L, W>, starts: set<(Node<S, F>, W)>, ns: set<Node<S, F>>, start: (Node<S, F>, W),
    ss: seq<Successor<S, F, L>>, c: TwoStack<S, F, L>)
    requires ValidAnalysis(an) && Synchronized(an, starts, ns) && start in starts
    requires Runs(an, Initial(start.0), ss, c)
    ensures CallRuns(an, ns, start, ss, Half(c.node, c.calls),
      an.sr.extend(start.1, WeightAlong(an.sr, an.callWeight, start.0, ss)))
    ensures FieldRuns(an, ns, start, ss, Half(c.node, c.fields), WeightAlong(an.sr, an.fieldWeight, start.0, ss))
    decreases |ss|
  {
    if ss != [] {
      var k := |ss| - 1;
      var mid :| Runs(an, Initial(start.0), ss[..k], mid) && ss[k] in an.successors(mid.node) &&
        Step(mid, ss[k]) == Some(c);
      RunsSplit(an, starts, ns, start, ss[..k], mid);
      SynchronizedSound(an, starts, ns, start, ss[..k], mid);
      EndsAtTarget(an, start.0, ss[..k], mid);
      StepIsBoth(mid, ss[k], c);
      assert k > 0 ==> ss[..k][k - 1] == ss[k - 1];
      an.sr.ExtendAssociative(start.1, WeightAlong(an.sr, an.callWeight, start.0, ss[..k]),
        an.callWeight(mid.node, ss[k]));
      assert CallRuns(an, ns, start, ss[..k], Half(mid.node, mid.calls),
        an.sr.extend(start.1, WeightAlong(an.sr, an.callWeight, start.0, ss[..k])));
      assert FieldRuns(an, ns, start, ss[..k], Half(mid.node, mid.fields),
        WeightAlong(an.sr, an.fieldWeight, start.0, ss[..k]));
    }
  }

  // ---------------------------------------------------------------- nodes

  /** Both halves come to n at nodes of ns, the field half with a stack. */
  ghost predicate CallHalfReaches<S(!new), F(!new), L(!new), W(!new)>(
    an: Analysis<S, F, L, W>, starts: set<(Node<S, F>, W)>, ns: set<Node<S, F>>, n: Node<S, F>)
  {
    exists start, ss, calls, w :: start in starts && CallRuns(an, ns, start, ss, Half(n, calls), w)
  }

  ghost predicate FieldHalfReaches<S(!new), F(!new), L(!new), W(!new)>(
    an: Analysis<S, F, L, W>, starts: set<(Node<S, F>, W)>, ns: set<Node<S, F>>, n: Node<S, F>)
  {
    exists start, ss, fields, w :: start in starts && fields != [] && FieldRuns(an, ns, start, ss, Half(n, fields), w)
  }

  lemma HalvesReach<S(!new), F(!new), L(!new), W(!new)>(
    an: Analysis<S, F, L, W>, starts: set<(Node<S, F>, W)>, ns: set<Node<S, F>>, n: Node<S, F>)
    requires an.sr.Laws()
    ensures CallReachable(an, starts, ns, n) <==> CallHalfReaches(an, starts, ns, n)
    ensures FieldReachable(an, starts, ns, n) <==> FieldHalfReaches(an, starts, ns, n)
  {
    hide CallRuns, FieldRuns, Reachable;
    hide an.sr.Laws;
    forall calls
      ensures Reachable(CallSystem(an, starts, ns), Config(n.fact, [n.stmt] + calls)) <==>
        exists start, ss, w :: start in starts && CallRuns(an, ns, start, ss, Half(n, calls), w)
    {
      CallReachExact(an, starts, ns, Half(n, calls));
    }
    forall fields
      ensures Reachable(FieldSystem(an, starts, ns), Config(n, fields)) <==>
        exists start, ss, w :: start in starts && FieldRuns(an, ns, start, ss, Half(n, fields), w)
    {
      FieldReachExact(an, starts, ns, Half(n, fields));
    }
  }

  // ---------------------------------------------------------------- analyses with one stack

  ghost predicate FieldsOnly<S(!new), F(!new), L(!new), W(!new)>(an: Analysis<S, F, L, W>) {
    forall n, s :: s in an.successors(n) ==> !s.PushCall? && !s.PopCall?
  }

  /** Without calls and returns the field half is the whole machine. */
  lemma {:induction false} FieldsOnlyRuns<S(!new), F(!new), L(!new), W(!new)>(
    an: Analysis<S, F, L, W>, ns: set<Node<S, F>>, start: (Node<S, F>, W), ss: seq<Successor<S, F, L>>,
    h: Half<S, F, FieldLabel<L>>, w: W)
    requires FieldsOnly(an) && FieldRuns(an, ns, start, ss, h, w)
    ensures Runs(an, Initial(start.0), ss, TwoStack(h.node, [], h.stack))
    decreases |ss|
  {
    if ss != [] {
      var k := |ss| - 1;
      var mid: Half<S, F, FieldLabel<L>>, v :| FieldRuns(an, ns, start, ss[..k], mid, v) && mid.node in ns &&
        ss[k] in an.successors(mid.node) && FieldStep(mid, ss[k]) == Some(h) &&
        w == an.sr.extend(v, an.fieldWeight(mid.node, ss[k]));
      FieldsOnlyRuns(an, ns, start, ss[..k], mid, v);
      StepIsBoth(TwoStack(mid.node, [], mid.stack), ss[k], TwoStack(h.node, [], h.stack));
    }
  }

  ghost predicate CallsOnly<S(!new), F(!new), L(!new), W(!new)>(an: Analysis<S, F, L, W>) {
    forall n, s :: s in an.successors(n) ==> s.Flow? || s.PushCall? || s.PopCall?
  }

  ghost predicate CallSite<S(!new), F(!new), L(!new), W(!new)>(an: Analysis<S, F, L, W>, callSite: S) {
    exists n, succ :: PushCall(succ, callSite) in an.successors(n)
  }

  /** A node that returns, returns to every call site. */
  ghost predicate ReturnsToAll<S(!new), F(!new), L(!new), W(!new)>(an: Analysis<S, F, L, W>) {
    forall n, fact, returnSite, callSite :: PopCall(fact, returnSite) in an.successors(n) && CallSite(an, callSite) ==>
      PopCall(fact, callSite) in an.successors(n)
  }

  /** If moreover only the call stack is used, the call half is the whole machine. */
  lemma {:induction false} CallsOnlyRuns<S(!new), F(!new), L(!new), W(!new)>(
    an: Analysis<S, F, L, W>, ns: set<Node<S, F>>, start: (Node<S, F>, W), ss: seq<Successor<S, F, L>>,
    h: Half<S, F, S>, w: W)
    returns (ss': seq<Successor<S, F, L>>)
    requires CallsOnly(an) && ReturnsToAll(an) && CallRuns(an, ns, start, ss, h, w)
    ensures Runs(an, Initial(start.0), ss', TwoStack(h.node, h.stack, [EmptyField]))
    ensures forall c <- h.stack :: CallSite(an, c)
    decreases |ss|
  {
    if ss == [] {
      ss' := [];
    } else {
      var k := |ss| - 1;
      var mid: Half<S, F, S>, v :| CallRuns(an, ns, start, ss[..k], mid, v) && mid.node in ns &&
        ss[k] in an.successors(mid.node) && CallStep(mid, ss[k]) == Some(h) &&
        w == an.sr.extend(v, an.callWeight(mid.node, ss[k]));
      var before := CallsOnlyRuns(an, ns, start, ss[..k], mid, v);
      var s := ss[k];
      if s.PopCall? {
        assert PopCall(s.fact, s.returnSite) == s && CallSite(an, mid.stack[0]);
        s := PopCall(s.fact, mid.stack[0]);
      }
      StepIsBoth(TwoStack(mid.node, mid.stack, [EmptyField]), s, TwoStack(h.node, h.stack, [EmptyField]));
      ss' := before + [s];
      assert ss'[..|ss'| - 1] == before;
    }
  }

  // ---------------------------------------------------------------- returns that cross

  // Node 0 calls 10, to return to 3; node 1 calls 11, to return to 4. But 10 returns
  // to 4 only, and 11 to 3 only.

  function CrossingSuccessors(n: Node<int, int>): set<Successor<int, int, int>> {
    if n == Node(0, 0) then {PushCall(Node(10, 0), 3)}
    else if n == Node(1, 0) then {PushCall(Node(11, 0), 4)}
    else if n == Node(10, 0) then {PopCall(0, 4)}
    else if n == Node(11, 0) then {PopCall(0, 3)}
    else {}
  }

  function Crossing<W(!new)>(sr: Semiring<W>): Analysis<int, int, int, W> {
    Analysis(sr, {}, {}, CrossingSuccessors, (n, s) => sr.one, (n, s) => sr.one)
  }

  lemma {:induction false} CrossingRuns<W(!new)>(
    sr: Semiring<W>, n: Node<int, int>, ss: seq<Successor<int, int, int>>, c: TwoStack<int, int, int>)
    requires n in {Node(0, 0), Node(1, 0)} && Runs(Crossing(sr), Initial(n), ss, c)
    ensures (c.node, c.calls) in {(Node(0, 0), []), (Node(1, 0), []), (Node(10, 0), [3]), (Node(11, 0), [4])}
    decreases |ss|
  {
    if ss != [] {
      var k := |ss| - 1;
      var an := Crossing(sr);
      var mid :| Runs(an, Initial(n), ss[..k], mid) && ss[k] in an.successors(mid.node) && Step(mid, ss[k]) == Some(c);
      CrossingRuns(sr, n, ss[..k], mid);
      assert [3] + [] == [3] && [4] + [] == [4];
    }
  }

  /** Then 3 is reached: the call stack gets there from 10, and the field stack from 11.
      The two-stack machine does not get there. */
  lemma CrossedReturns<W(!new)>(sr: Semiring<W>, ns: set<Node<int, int>>)
    requires sr.Laws() && Synchronized(Crossing(sr), {(Node(0, 0), sr.one), (Node(1, 0), sr.one)}, ns)
    ensures CallsOnly(Crossing(sr)) && Node(3, 0) in ns
    ensures forall n, ss, c ::
      n in {Node(0, 0), Node(1, 0)} && Runs(Crossing(sr), Initial(n), ss, c) ==> c.node != Node(3, 0)
  {
    var an := Crossing(sr);
    var starts := {(Node(0, 0), sr.one), (Node(1, 0), sr.one)};
    CrossingHalves(sr, ns, starts, Node(0, 0), 10, 3, 4);
    CrossingHalves(sr, ns, starts, Node(1, 0), 11, 4, 3);
    HalvesReach(an, starts, ns, Node(3, 0));
    forall n, ss, c | n in {Node(0, 0), Node(1, 0)} && Runs(an, Initial(n), ss, c) ensures c.node != Node(3, 0) {
      CrossingRuns(sr, n, ss, c);
    }
  }

  lemma CrossingHalves<W(!new)>(
    sr: Semiring<W>, ns: set<Node<int, int>>, starts: set<(Node<int, int>, W)>, n: Node<int, int>, callee: int,
    callSite: int, returnSite: int)
    requires sr.Laws() && Synchronized(Crossing(sr), starts, ns) && (n, sr.one) in starts
    requires CrossingSuccessors(n) == {PushCall(Node(callee, 0), callSite)}
    requires CrossingSuccessors(Node(callee, 0)) == {PopCall(0, returnSite)}
    ensures CallHalfReaches(Crossing(sr), starts, ns, Node(callSite, 0))
    ensures FieldHalfReaches(Crossing(sr), starts, ns, Node(returnSite, 0))
  {
    var an, start, callee' := Crossing(sr), (n, sr.one), Node(callee, 0);
    var push: Successor<int, int, int>, pop: Successor<int, int, int> := PushCall(callee', callSite),
      PopCall(0, returnSite);
    assert push in an.successors(n) && pop in an.successors(callee');
    var inside := TwoStack(callee', [callSite], [EmptyField]);
    assert [callSite] + [] == [callSite];
    assert Runs(an, Initial(n), [], Initial(n)) && Step(Initial(n), push) == Some(inside);
    assert [push][..0] == [];
    assert Runs(an, Initial(n), [push], inside);
    SynchronizedSound(an, starts, ns, start, [push], inside);
    RunsSplit(an, starts, ns, start, [push], inside);
    var c, f := Half(callee', [callSite]), Half(callee', [EmptyField]);
    var w := sr.extend(start.1, WeightAlong(sr, an.callWeight, n, [push]));
    var v := WeightAlong(sr, an.fieldWeight, n, [push]);
    assert CallStep(c, pop) == Some(Half(Node(callSite, 0), []));
    CallRunsMore(an, ns, start, [push], c, w, pop);
    assert FieldStep(f, pop) == Some(Half(Node(returnSite, 0), [EmptyField]));
    FieldRunsMore(an, ns, start, [push], f, v, pop);
  }
}
