/** Weighted P-automata, the constraints that post* saturation solves, and the
    derivations by which it adds weight. */
module PAutomata {
  import opened Semirings
  import opened Pushdown

  /** Transition labels. Eps is the automaton's epsilon(). */
  datatype Label<N> = Eps | Sym(n: N)

  /** Gen(p, l) is createState(p, l); Sink is where initial transitions lead. */
  datatype State<D, N> = Control(d: D) | Sink | Gen(d: D, n: N)

  datatype Trans<D, N> = Trans(start: State<D, N>, lbl: Label<N>, target: State<D, N>)

  /** The rules and directly added transitions that a saturation works from.
      `empties` are the labels that are instances of Empty. */
  datatype System<!D(==, !new), !N(==, !new), !W(==, !new)> = System(
    sr: Semiring<W>,
    empties: set<Label<N>>,
    rules: set<Rule<D, N, W>>,
    inits: set<(Trans<D, N>, W)>)

  // ---------------------------------------------------------------- rules on transitions

  predicate MatchesLabel<N(==)>(p: Pattern<N>, l: Label<N>) {
    p.Lit? ==> l == Sym(p.n)
  }

  function ResolveLabel<N>(p: Pattern<N>, l: Label<N>): Label<N> {
    if p.Lit? then Sym(p.n) else l
  }

  /** HandleNormalListener acts on t. */
  predicate NormalFires<D(==), N(==), W>(r: Rule<D, N, W>, t: Trans<D, N>) {
    && r.Normal?
    && t.start == Control(r.s1)
    && MatchesLabel(r.p1, t.lbl)
    && !(r.p2.AnyBut? && t.lbl == Sym(r.p2.excluded))
    && (r.p2.Lit? || t.lbl != Eps)
  }

  function NormalResult<D, N, W>(r: Rule<D, N, W>, t: Trans<D, N>): Trans<D, N>
    requires r.Normal?
  {
    Trans(Control(r.s2), ResolveLabel(r.p2, t.lbl), t.target)
  }

  /** HandlePushListener acts on t. */
  predicate PushFires<D(==), N(==), W>(r: Rule<D, N, W>, t: Trans<D, N>) {
    && r.Push?
    && t.start == Control(r.s1)
    && MatchesLabel(r.p1, t.lbl)
    && (r.callSite.Lit? || t.lbl != Eps)
  }

  function CallResult<D, N, W>(r: Rule<D, N, W>, t: Trans<D, N>): Trans<D, N>
    requires r.Push?
  {
    Trans(Gen(r.s2, r.l2), ResolveLabel(r.callSite, t.lbl), t.target)
  }

  function EntryResult<D, N, W>(r: Rule<D, N, W>): Trans<D, N>
    requires r.Push?
  {
    Trans(Control(r.s2), Sym(r.l2), Gen(r.s2, r.l2))
  }

  function PopResult<D, N, W>(r: Rule<D, N, W>, q: State<D, N>): Trans<D, N>
    requires r.Pop?
  {
    Trans(Control(r.s2), Eps, q)
  }

  function ReturnResult<D, N>(e: Trans<D, N>, t: Trans<D, N>): Trans<D, N> {
    Trans(e.start, t.lbl, t.target)
  }

  // ---------------------------------------------------------------- assumptions on the input

  predicate WellFormedRule<D, N(==), W>(empties: set<Label<N>>, r: Rule<D, N, W>) {
    match r
    case Normal(_, p1, _, p2, _) => (p1.Lit? || !p2.Lit?) && (p2.Lit? ==> Sym(p2.n) !in empties)
    case Push(_, p1, _, l2, callSite, _) =>
      && (p1.Lit? || !callSite.Lit?)
      && Sym(l2) !in empties
      && (callSite.Lit? ==> Sym(callSite.n) !in empties)
    case Pop(_, _, _, _) => true
  }

  predicate InitialTransition<D, N>(t: Trans<D, N>) {
    t.start.Control? && t.lbl.Sym? && t.target.Sink?
  }

  ghost predicate WellFormed<D(!new), N(!new), W(!new)>(sys: System<D, N, W>) {
    && (forall r <- sys.rules :: WellFormedRule(sys.empties, r))
    && (forall i <- sys.inits :: InitialTransition(i.0))
  }

  // ---------------------------------------------------------------- saturation

  predicate AtLeast<D(==), N(==), W(==, !new)>(sr: Semiring<W>, m: map<Trans<D, N>, W>, t: Trans<D, N>, w: W) {
    t in m && sr.Le(w, m[t])
  }

  /** Where a pop listener of r sits: at its start state or, since a label that
      is an Empty moves it on, at the target of such a transition. */
  ghost predicate PopPosition<D(!new), N(!new), W(!new)>(
    sys: System<D, N, W>, m: map<Trans<D, N>, W>, r: Rule<D, N, W>, x: State<D, N>)
  {
    || x == Control(r.s1)
    || exists e <- m :: e.start == Control(r.s1) && e.lbl in sys.empties && e.target == x
  }

  ghost predicate PopsAt<D(!new), N(!new), W(!new)>(
    sys: System<D, N, W>, m: map<Trans<D, N>, W>, r: Rule<D, N, W>, t: Trans<D, N>)
  {
    r.Pop? && t.lbl == Sym(r.l1) && PopPosition(sys, m, r, t.start)
  }

  /** No rule can add anything to m. */
  ghost predicate Saturated<D(!new), N(!new), W(!new)>(sys: System<D, N, W>, m: map<Trans<D, N>, W>) {
    && (forall i <- sys.inits :: AtLeast(sys.sr, m, i.0, i.1))
    && (forall r <- sys.rules, t <- m :: NormalFires(r, t) ==>
          AtLeast(sys.sr, m, NormalResult(r, t), sys.sr.extend(m[t], r.w)))
    && (forall r <- sys.rules, t <- m :: PushFires(r, t) ==>
          && AtLeast(sys.sr, m, CallResult(r, t), sys.sr.extend(m[t], r.w))
          && AtLeast(sys.sr, m, EntryResult(r), sys.sr.one))
    && (forall r <- sys.rules, t <- m :: PopsAt(sys, m, r, t) && t.target.Gen? ==>
          && AtLeast(sys.sr, m, PopResult(r, t.target), sys.sr.extend(m[t], r.w))
          && forall t2 <- m :: t2.start == t.target ==>
               AtLeast(sys.sr, m, ReturnResult(PopResult(r, t.target), t2),
                 sys.sr.extend(m[t2], sys.sr.extend(m[t], r.w))))
  }

  // ---------------------------------------------------------------- derivations

  /** How one weight on one transition comes about. */
  datatype Deriv<D, N, W> =
    | Init(t: Trans<D, N>, w: W)
    | Join(a: Deriv<D, N, W>, b: Deriv<D, N, W>)
    | NormalStep(r: Rule<D, N, W>, d: Deriv<D, N, W>)
    | CallStep(r: Rule<D, N, W>, d: Deriv<D, N, W>)
    | EntryStep(r: Rule<D, N, W>, d: Deriv<D, N, W>)
    | PopStep(r: Rule<D, N, W>, d: Deriv<D, N, W>)
    | SkipPopStep(r: Rule<D, N, W>, e: Deriv<D, N, W>, d: Deriv<D, N, W>)
    | ReturnStep(e: Deriv<D, N, W>, d: Deriv<D, N, W>)

  /** The transition a derivation is about. */
  function Concl<D(==), N(==), W>(d: Deriv<D, N, W>): Trans<D, N> {
    match d
    case Init(t, _) => t
    case Join(a, _) => Concl(a)
    case NormalStep(r, d) => if r.Normal? then NormalResult(r, Concl(d)) else Concl(d)
    case CallStep(r, d) => if r.Push? then CallResult(r, Concl(d)) else Concl(d)
    case EntryStep(r, d) => if r.Push? then EntryResult(r) else Concl(d)
    case PopStep(r, d) => if r.Pop? then PopResult(r, Concl(d).target) else Concl(d)
    case SkipPopStep(r, _, d) => if r.Pop? then PopResult(r, Concl(d).target) else Concl(d)
    case ReturnStep(e, d) => ReturnResult(Concl(e), Concl(d))
  }

  function Value<D, N, W(!new)>(sr: Semiring<W>, d: Deriv<D, N, W>): W {
    match d
    case Init(_, w) => w
    case Join(a, b) => sr.combine(Value(sr, a), Value(sr, b))
    case NormalStep(r, d) => sr.extend(Value(sr, d), r.w)
    case CallStep(r, d) => sr.extend(Value(sr, d), r.w)
    case EntryStep(_, _) => sr.one
    case PopStep(r, d) => sr.extend(Value(sr, d), r.w)
    case SkipPopStep(r, _, d) => sr.extend(Value(sr, d), r.w)
    case ReturnStep(e, d) => sr.extend(Value(sr, d), Value(sr, e))
  }

  ghost predicate Valid<D(!new), N(!new), W(!new)>(sys: System<D, N, W>, d: Deriv<D, N, W>) {
    match d
    case Init(t, w) => (t, w) in sys.inits
    case Join(a, b) => Valid(sys, a) && Valid(sys, b) && Concl(a) == Concl(b)
    case NormalStep(r, d) => Valid(sys, d) && r in sys.rules && NormalFires(r, Concl(d))
    case CallStep(r, d) => Valid(sys, d) && r in sys.rules && PushFires(r, Concl(d))
    case EntryStep(r, d) => Valid(sys, d) && r in sys.rules && PushFires(r, Concl(d))
    case PopStep(r, d) =>
      && Valid(sys, d) && r in sys.rules && r.Pop?
      && Concl(d).start == Control(r.s1) && Concl(d).lbl == Sym(r.l1) && Concl(d).target.Gen?
    case SkipPopStep(r, e, d) =>
      && Valid(sys, e) && Valid(sys, d) && r in sys.rules && r.Pop?
      && Concl(e).start == Control(r.s1) && Concl(e).lbl in sys.empties && Concl(e).target == Concl(d).start
      && Concl(d).lbl == Sym(r.l1) && Concl(d).target.Gen?
    case ReturnStep(e, d) =>
      && Valid(sys, e) && Valid(sys, d)
      && Concl(e).start.Control? && Concl(e).lbl == Eps && Concl(e).target.Gen? && Concl(e).target == Concl(d).start
  }

  ghost predicate Derivable<D(!new), N(!new), W(!new)>(sys: System<D, N, W>, t: Trans<D, N>, w: W) {
    exists d :: Valid(sys, d) && Concl(d) == t && Value(sys.sr, d) == w
  }

  ghost predicate AllDerivable<D(!new), N(!new), W(!new)>(sys: System<D, N, W>, m: map<Trans<D, N>, W>) {
    forall t <- m :: Derivable(sys, t, m[t])
  }

  /** What a saturation leaves behind when it is done. */
  ghost predicate Solution<D(!new), N(!new), W(!new)>(sys: System<D, N, W>, m: map<Trans<D, N>, W>) {
    Saturated(sys, m) && AllDerivable(sys, m)
  }

  /** Derivability survives more rules and more initial transitions. */
  lemma {:induction false} ValidMonotone<D(!new), N(!new), W(!new)>(
    sys: System<D, N, W>, sys': System<D, N, W>, d: Deriv<D, N, W>)
    requires sys.sr == sys'.sr && sys.empties == sys'.empties
    requires sys.rules <= sys'.rules && sys.inits <= sys'.inits
    requires Valid(sys, d)
    ensures Valid(sys', d)
  {
    match d
    case Init(_, _) =>
    case Join(a, b) => ValidMonotone(sys, sys', a); ValidMonotone(sys, sys', b);
    case NormalStep(_, d) => ValidMonotone(sys, sys', d);
    case CallStep(_, d) => ValidMonotone(sys, sys', d);
    case EntryStep(_, d) => ValidMonotone(sys, sys', d);
    case PopStep(_, d) => ValidMonotone(sys, sys', d);
    case SkipPopStep(_, e, d) => ValidMonotone(sys, sys', e); ValidMonotone(sys, sys', d);
    case ReturnStep(e, d) => ValidMonotone(sys, sys', e); ValidMonotone(sys, sys', d);
  }

  // ---------------------------------------------------------------- shape

  /** The shape of every transition that saturation produces. In particular an
      Empty label leads to a generated state only if it is epsilon. */
  predicate Shaped<D, N(==)>(empties: set<Label<N>>, t: Trans<D, N>) {
    && !t.start.Sink?
    && !t.target.Control?
    && (t.lbl == Eps ==> t.start.Control? && t.target.Gen?)
    && (t.lbl != Eps && t.target.Gen? ==> t.lbl !in empties)
  }

  lemma {:induction false} DerivationsShaped<D(!new), N(!new), W(!new)>(sys: System<D, N, W>, d: Deriv<D, N, W>)
    requires WellFormed(sys) && Valid(sys, d)
    ensures Shaped(sys.empties, Concl(d))
  {
    match d
    case Init(_, _) =>
    case Join(a, b) => DerivationsShaped(sys, a);
    case NormalStep(r, d) => DerivationsShaped(sys, d); assert WellFormedRule(sys.empties, r);
    case CallStep(r, d) => DerivationsShaped(sys, d); assert WellFormedRule(sys.empties, r);
    case EntryStep(r, d) => assert WellFormedRule(sys.empties, r);
    case PopStep(_, d) =>
    case SkipPopStep(_, e, d) =>
    case ReturnStep(e, d) => DerivationsShaped(sys, d);
  }

  lemma DerivableShaped<D(!new), N(!new), W(!new)>(sys: System<D, N, W>, m: map<Trans<D, N>, W>)
    requires WellFormed(sys) && AllDerivable(sys, m)
    ensures forall t <- m :: Shaped(sys.empties, t)
  {
    forall t <- m ensures Shaped(sys.empties, t) {
      var d :| Valid(sys, d) && Concl(d) == t && Value(sys.sr, d) == m[t];
      DerivationsShaped(sys, d);
    }
  }
}
