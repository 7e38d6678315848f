/** Everything a saturation derives is witnessed by runs of the pushdown system. */
module Justification {
  import opened Semirings
  import opened Pushdown
  import opened PAutomata

  /** Runs whose combined weight stands behind one weight of the automaton. */
  datatype Evidence<D, N, W> =
    | Run(from: Config<D, N>, w0: W, rs: seq<Rule<D, N, W>>)
    | Both(a: Evidence<D, N, W>, b: Evidence<D, N, W>)

  /** What runs into q start from: the callee entry of a generated state with
      weight one, or an initial transition with its own weight. */
  ghost predicate Seed<D(!new), N(!new), W(!new)>(sys: System<D, N, W>, q: State<D, N>, from: Config<D, N>, w0: W) {
    match q
    case Gen(p, n) => from == Config(p, [n]) && w0 == sys.sr.one
    case Sink => |from.stack| == 1 && (Trans(Control(from.state), Sym(from.stack[0]), Sink), w0) in sys.inits
    case Control(_) => false
  }

  /** A run of sys from a seed of q to c. */
  ghost predicate IsRun<D(!new), N(!new), W(!new)>(
    sys: System<D, N, W>, q: State<D, N>, c: Config<D, N>, from: Config<D, N>, w0: W, rs: seq<Rule<D, N, W>>)
  {
    Seed(sys, q, from, w0) && (forall r <- rs :: r in sys.rules) && Exec(from, rs) == Some(c)
  }

  function WeightOfRun<D, N, W(!new)>(sr: Semiring<W>, w0: W, rs: seq<Rule<D, N, W>>): W {
    sr.extend(w0, RunWeight(sr, rs))
  }

  ghost predicate Supports<D(!new), N(!new), W(!new)>(
    sys: System<D, N, W>, q: State<D, N>, c: Config<D, N>, e: Evidence<D, N, W>)
  {
    match e
    case Run(from, w0, rs) => IsRun(sys, q, c, from, w0, rs)
    case Both(a, b) => Supports(sys, q, c, a) && Supports(sys, q, c, b)
  }

  /** The combined weight of the runs. */
  function Total<D, N, W(!new)>(sr: Semiring<W>, e: Evidence<D, N, W>): W {
    match e
    case Run(_, w0, rs) => WeightOfRun(sr, w0, rs)
    case Both(a, b) => sr.combine(Total(sr, a), Total(sr, b))
  }

  /** The evidence followed by one more step. */
  function Then<D, N, W>(e: Evidence<D, N, W>, r: Rule<D, N, W>): Evidence<D, N, W> {
    match e
    case Run(from, w0, rs) => Run(from, w0, rs + [r])
    case Both(a, b) => Both(Then(a, r), Then(b, r))
  }

  lemma {:induction false} ThenSupports<D(!new), N(!new), W(!new)>(
    sys: System<D, N, W>, q: State<D, N>, c: Config<D, N>, e: Evidence<D, N, W>, r: Rule<D, N, W>)
    requires sys.sr.Laws() && Supports(sys, q, c, e) && r in sys.rules && Apply(r, c).Some?
    ensures Supports(sys, q, Apply(r, c).value, Then(e, r))
    ensures Total(sys.sr, Then(e, r)) == sys.sr.extend(Total(sys.sr, e), r.w)
  {
    match e
    case Run(from, w0, rs) =>
      ExecConcat(from, rs, [r]);
      RunWeightConcat(sys.sr, rs, [r]);
      assert [r][1..] == [] && Exec(c, [r]) == Some(Apply(r, c).value);
      assert RunWeight(sys.sr, [r]) == r.w;
      sys.sr.ExtendAssociative(w0, RunWeight(sys.sr, rs), r.w);
    case Both(a, b) =>
      ThenSupports(sys, q, c, a, r);
      ThenSupports(sys, q, c, b, r);
      sys.sr.ExtendDistributes(Total(sys.sr, a), Total(sys.sr, b), r.w);
  }

  /** Evidence for reaching the entry of a generated state, continued by
      evidence for what happens from that entry on. */
  function Compose<D, N, W>(outer: Evidence<D, N, W>, inner: Evidence<D, N, W>): Evidence<D, N, W> {
    match outer
    case Both(a, b) => Both(Compose(a, inner), Compose(b, inner))
    case Run(from, w0, rs) =>
      match inner
      case Both(a, b) => Both(Compose(outer, a), Compose(outer, b))
      case Run(_, _, rs') => Run(from, w0, rs + rs')
  }

  lemma {:induction false} ComposeSupports<D(!new), N(!new), W(!new)>(
    sys: System<D, N, W>, q: State<D, N>, x: State<D, N>, below: seq<N>, c: Config<D, N>,
    outer: Evidence<D, N, W>, inner: Evidence<D, N, W>)
    requires sys.sr.Laws() && x.Gen?
    requires Supports(sys, q, Config(x.d, [x.n] + below), outer)
    requires Supports(sys, x, c, inner)
    ensures Supports(sys, q, Config(c.state, c.stack + below), Compose(outer, inner))
    ensures Total(sys.sr, Compose(outer, inner)) == sys.sr.extend(Total(sys.sr, outer), Total(sys.sr, inner))
    decreases outer, inner
  {
    var sr := sys.sr;
    match outer
    case Both(a, b) =>
      ComposeSupports(sys, q, x, below, c, a, inner);
      ComposeSupports(sys, q, x, below, c, b, inner);
      sr.ExtendDistributes(Total(sr, a), Total(sr, b), Total(sr, inner));
    case Run(from, w0, rs) =>
      match inner
      case Both(a, b) =>
        ComposeSupports(sys, q, x, below, c, outer, a);
        ComposeSupports(sys, q, x, below, c, outer, b);
        sr.ExtendDistributes(Total(sr, a), Total(sr, b), Total(sr, outer));
      case Run(_, _, rs') =>
        ExecFrame(Config(x.d, [x.n]), rs', below);
        ExecConcat(from, rs, rs');
        RunWeightConcat(sr, rs, rs');
        sr.ExtendAssociative(w0, RunWeight(sr, rs), RunWeight(sr, rs'));
  }

  /** There is evidence; where weights are exact it also accounts for w. */
  ghost predicate Justified<D(!new), N(!new), W(!new)>(
    sys: System<D, N, W>, q: State<D, N>, c: Config<D, N>, w: W, weighted: bool)
  {
    exists e :: Supports(sys, q, c, e) && (weighted ==> sys.sr.Le(w, Total(sys.sr, e)))
  }

  /** Weights carry meaning unless epsilon is an Empty; then one must lie below
      every weight. */
  ghost predicate WeightsExact<D(!new), N(!new), W(!new)>(sys: System<D, N, W>) {
    Eps in sys.empties ==> sys.sr.OneIsLeast()
  }

  // ---------------------------------------------------------------- transitions

  function Base<D, N>(s: State<D, N>): D
    requires !s.Sink?
  {
    s.d
  }

  function Prefix<D, N>(s: State<D, N>): seq<N> {
    if s.Gen? then [s.n] else []
  }

  function Letters<N>(l: Label<N>): seq<N> {
    if l.Sym? then [l.n] else []
  }

  /** The configuration a transition stands for, relative to its target. */
  function ConfigOf<D, N>(t: Trans<D, N>): Config<D, N>
    requires !t.start.Sink?
  {
    Config(Base(t.start), Prefix(t.start) + Letters(t.lbl))
  }

  /** A rule that acts on a transition is enabled in the transition's
      configuration, and leads to the configuration of the result. */
  lemma RuleStep<D(!new), N(!new), W(!new)>(empties: set<Label<N>>, r: Rule<D, N, W>, t: Trans<D, N>)
    requires WellFormedRule(empties, r)
    ensures NormalFires(r, t) ==> Apply(r, ConfigOf(t)) == Some(ConfigOf(NormalResult(r, t)))
    ensures PushFires(r, t) ==> Apply(r, ConfigOf(t)) == Some(ConfigOf(CallResult(r, t)))
    ensures r.Pop? && t.start == Control(r.s1) && t.lbl == Sym(r.l1)
            ==> Apply(r, ConfigOf(t)) == Some(ConfigOf(PopResult(r, t.target)))
  {
    if t.start == Control(r.s1) && t.lbl.Sym? {
      var c := ConfigOf(t);
      assert c == Config(r.s1, [t.lbl.n]) && c.stack[1..] == [];
      match r
      case Normal(_, _, s2, p2, _) =>
        assert ConfigOf(NormalResult(r, t)) == Config(s2, [Resolve(p2, t.lbl.n)] + []);
      case Push(_, _, s2, l2, callSite, _) =>
        assert ConfigOf(CallResult(r, t)) == Config(s2, [l2, Resolve(callSite, t.lbl.n)] + []);
      case Pop(_, _, s2, _) =>
        assert ConfigOf(PopResult(r, t.target)) == Config(s2, []);
    }
  }

  lemma StepJustified<D(!new), N(!new), W(!new)>(
    sys: System<D, N, W>, q: State<D, N>, c: Config<D, N>, w: W, r: Rule<D, N, W>)
    requires sys.sr.Laws() && Justified(sys, q, c, w, WeightsExact(sys)) && r in sys.rules && Apply(r, c).Some?
    ensures Justified(sys, q, Apply(r, c).value, sys.sr.extend(w, r.w), WeightsExact(sys))
  {
    var e :| Supports(sys, q, c, e) && (WeightsExact(sys) ==> sys.sr.Le(w, Total(sys.sr, e)));
    ThenSupports(sys, q, c, e, r);
    if WeightsExact(sys) {
      sys.sr.LeReflexive(r.w);
      sys.sr.ExtendMonotone(w, Total(sys.sr, e), r.w, r.w);
    }
  }

  lemma ComposeJustified<D(!new), N(!new), W(!new)>(
    sys: System<D, N, W>, q: State<D, N>, x: State<D, N>, below: seq<N>, w: W, c: Config<D, N>, w': W)
    requires sys.sr.Laws() && x.Gen?
    requires Justified(sys, q, Config(x.d, [x.n] + below), w, WeightsExact(sys))
    requires Justified(sys, x, c, w', WeightsExact(sys))
    ensures Justified(sys, q, Config(c.state, c.stack + below), sys.sr.extend(w, w'), WeightsExact(sys))
  {
    var weighted := WeightsExact(sys);
    var outer :| Supports(sys, q, Config(x.d, [x.n] + below), outer) &&
      (weighted ==> sys.sr.Le(w, Total(sys.sr, outer)));
    var inner :| Supports(sys, x, c, inner) && (weighted ==> sys.sr.Le(w', Total(sys.sr, inner)));
    ComposeSupports(sys, q, x, below, c, outer, inner);
    if weighted {
      sys.sr.ExtendMonotone(w, Total(sys.sr, outer), w', Total(sys.sr, inner));
    }
  }

  /** A derived weight is accounted for by runs. */
  lemma {:induction false} DerivationsJustified<D(!new), N(!new), W(!new)>(sys: System<D, N, W>, d: Deriv<D, N, W>)
    requires sys.sr.Laws() && WellFormed(sys) && Valid(sys, d)
    ensures Shaped(sys.empties, Concl(d))
    ensures Justified(sys, Concl(d).target, ConfigOf(Concl(d)), Value(sys.sr, d), WeightsExact(sys))
  {
    DerivationsShaped(sys, d);
    var t := Concl(d);
    match d
    case Init(t, w) => InitJustified(sys, t, w);
    case Join(a, b) =>
      DerivationsJustified(sys, a);
      DerivationsJustified(sys, b);
      JoinJustified(sys, t.target, ConfigOf(t), Value(sys.sr, a), Value(sys.sr, b));
    case NormalStep(r, d1) =>
      DerivationsJustified(sys, d1);
      RuleStep(sys.empties, r, Concl(d1));
      StepJustified(sys, t.target, ConfigOf(Concl(d1)), Value(sys.sr, d1), r);
    case CallStep(r, d1) =>
      DerivationsJustified(sys, d1);
      RuleStep(sys.empties, r, Concl(d1));
      StepJustified(sys, t.target, ConfigOf(Concl(d1)), Value(sys.sr, d1), r);
    case EntryStep(r, _) => EntryJustified(sys, r);
    case PopStep(r, d1) =>
      DerivationsJustified(sys, d1);
      RuleStep(sys.empties, r, Concl(d1));
      StepJustified(sys, t.target, ConfigOf(Concl(d1)), Value(sys.sr, d1), r);
    case SkipPopStep(r, e, d1) =>
      DerivationsJustified(sys, e);
      DerivationsJustified(sys, d1);
      SkipPopJustified(sys, r, Concl(e), Value(sys.sr, e), Concl(d1), Value(sys.sr, d1));
    case ReturnStep(e, d1) =>
      DerivationsJustified(sys, e);
      DerivationsJustified(sys, d1);
      var x := Concl(e).target;
      assert ConfigOf(Concl(d1)) == Config(x.d, [x.n] + Letters(Concl(d1).lbl));
      ComposeJustified(sys, t.target, x, Letters(Concl(d1).lbl), Value(sys.sr, d1), ConfigOf(Concl(e)),
        Value(sys.sr, e));
      assert ConfigOf(t).stack == ConfigOf(Concl(e)).stack + Letters(Concl(d1).lbl);
  }

  lemma InitJustified<D(!new), N(!new), W(!new)>(sys: System<D, N, W>, t: Trans<D, N>, w: W)
    requires sys.sr.Laws() && WellFormed(sys) && (t, w) in sys.inits
    ensures InitialTransition(t) && Justified(sys, t.target, ConfigOf(t), w, WeightsExact(sys))
  {
    assert InitialTransition((t, w).0);
    var e := Run(ConfigOf(t), w, []);
    assert Supports(sys, t.target, ConfigOf(t), e);
    sys.sr.LeReflexive(w);
  }

  lemma EntryJustified<D(!new), N(!new), W(!new)>(sys: System<D, N, W>, r: Rule<D, N, W>)
    requires sys.sr.Laws() && r.Push?
    ensures Justified(sys, EntryResult(r).target, ConfigOf(EntryResult(r)), sys.sr.one, WeightsExact(sys))
  {
    var t := EntryResult(r);
    var e := Run(ConfigOf(t), sys.sr.one, []);
    assert Supports(sys, t.target, ConfigOf(t), e);
    sys.sr.LeReflexive(sys.sr.one);
  }

  lemma JoinJustified<D(!new), N(!new), W(!new)>(sys: System<D, N, W>, q: State<D, N>, c: Config<D, N>, w: W, w': W)
    requires sys.sr.Laws()
    requires Justified(sys, q, c, w, WeightsExact(sys)) && Justified(sys, q, c, w', WeightsExact(sys))
    ensures Justified(sys, q, c, sys.sr.combine(w, w'), WeightsExact(sys))
  {
    var sr, weighted := sys.sr, WeightsExact(sys);
    var e :| Supports(sys, q, c, e) && (weighted ==> sr.Le(w, Total(sr, e)));
    var e' :| Supports(sys, q, c, e') && (weighted ==> sr.Le(w', Total(sr, e')));
    var both := Both(e, e');
    assert Supports(sys, q, c, both);
    if weighted {
      sr.CombineIsJoin(Total(sr, e), Total(sr, e'));
      sr.LeTransitive(w, Total(sr, e), Total(sr, both));
      sr.LeTransitive(w', Total(sr, e'), Total(sr, both));
      sr.CombineIsJoin(w, w');
    }
  }

  /** The pop that skips over an epsilon transition leaves out that transition's
      weight, which is harmless where one is the least weight. */
  lemma SkipPopJustified<D(!new), N(!new), W(!new)>(
    sys: System<D, N, W>, r: Rule<D, N, W>, e: Trans<D, N>, we: W, t: Trans<D, N>, wt: W)
    requires sys.sr.Laws() && r in sys.rules && r.Pop?
    requires e.start == Control(r.s1) && e.lbl in sys.empties && e.target == t.start && Shaped(sys.empties, e)
    requires t.lbl == Sym(r.l1) && t.target.Gen? && Shaped(sys.empties, t)
    requires Justified(sys, e.target, ConfigOf(e), we, WeightsExact(sys))
    requires Justified(sys, t.target, ConfigOf(t), wt, WeightsExact(sys))
    ensures Justified(sys, t.target, ConfigOf(PopResult(r, t.target)), sys.sr.extend(wt, r.w), WeightsExact(sys))
  {
    var sr, x := sys.sr, e.target;
    assert e.lbl == Eps;
    ComposeJustified(sys, t.target, x, [r.l1], wt, ConfigOf(e), we);
    assert ConfigOf(e).stack + [r.l1] == [r.l1];
    var c := Config(r.s1, [r.l1]);
    assert Justified(sys, t.target, c, sr.extend(wt, we), WeightsExact(sys));
    StepJustified(sys, t.target, c, sr.extend(wt, we), r);
    var c' := ConfigOf(PopResult(r, t.target));
    assert c.stack[1..] == [] && Apply(r, c) == Some(c');
    var ev :| Supports(sys, t.target, c', ev)
      && (WeightsExact(sys) ==> sr.Le(sr.extend(sr.extend(wt, we), r.w), Total(sr, ev)));
    if WeightsExact(sys) {
      sr.LeReflexive(wt);
      sr.LeReflexive(r.w);
      assert sr.Le(sr.one, we);
      sr.ExtendMonotone(wt, wt, sr.one, we);
      sr.ExtendMonotone(wt, sr.extend(wt, we), r.w, r.w);
      sr.LeTransitive(sr.extend(wt, r.w), sr.extend(sr.extend(wt, we), r.w), Total(sr, ev));
    }
  }
}
