/** When the automaton's epsilon is an Empty, a pop listener also moves past
    epsilon transitions and forgets their weight. This is exactly why weights
    are exact for every pushdown system only under a condition on the weights. */
module EmptyEpsilon {
  import opened Semirings
  import opened Pushdown
  import opened PAutomata
  import opened Justification
  import opened Exactness

  /** Whatever the rules and initial transitions, the accepting paths of every
      configuration combine to the weights of its runs. */
  ghost predicate AlwaysExact<W(!new)>(sr: Semiring<W>, epsilonIsEmpty: bool) {
    forall sys: System<int, int, W>, m, c: Config<int, int>, u ::
      sys.sr == sr && (Eps in sys.empties <==> epsilonIsEmpty) && WellFormed(sys) && Solution(sys, m) && c.stack != []
      ==> (BoundsPaths(sr, m, c, u) <==> BoundsRuns(sys, c, u))
  }

  lemma ExactIffEpsilonNeutral<W(!new)>(sr: Semiring<W>, epsilonIsEmpty: bool)
    requires sr.Laws()
    ensures AlwaysExact(sr, epsilonIsEmpty) <==> (epsilonIsEmpty ==> sr.OneIsLeast())
  {
    if epsilonIsEmpty ==> sr.OneIsLeast() {
      forall sys: System<int, int, W>, m, c: Config<int, int>, u
        | sys.sr == sr && (Eps in sys.empties <==> epsilonIsEmpty) && WellFormed(sys) && Solution(sys, m) &&
          c.stack != []
        ensures BoundsPaths(sr, m, c, u) <==> BoundsRuns(sys, c, u)
      {
        SameUpperBounds(sys, m, c, u);
      }
    } else {
      var a :| !sr.Le(sr.one, a);
      ExampleInexact(sr, a);
    }
  }

  // ---------------------------------------------------------------- the example

  // (0, 0) calls (0, 1) which calls (1, 3); the inner callee returns with weight
  // a to (2, 4), which returns with weight one to (3, 2).

  function Outer<W(!new)>(sr: Semiring<W>): Rule<int, int, W> { Push(0, Lit(0), 0, 1, Lit(2), sr.one) }
  function Inner<W(!new)>(sr: Semiring<W>): Rule<int, int, W> { Push(0, Lit(1), 1, 3, Lit(4), sr.one) }
  function Return1<W(!new)>(a: W): Rule<int, int, W> { Pop(1, 3, 2, a) }
  function Return2<W(!new)>(sr: Semiring<W>): Rule<int, int, W> { Pop(2, 4, 3, sr.one) }

  const T0 : Trans<int, int> := Trans(Control(0), Sym(0), Sink)
  const Call1 : Trans<int, int> := Trans(Gen(0, 1), Sym(2), Sink)
  const Entry1 : Trans<int, int> := Trans(Control(0), Sym(1), Gen(0, 1))
  const Call2 : Trans<int, int> := Trans(Gen(1, 3), Sym(4), Gen(0, 1))
  const Entry2 : Trans<int, int> := Trans(Control(1), Sym(3), Gen(1, 3))
  const Eps2 : Trans<int, int> := Trans(Control(2), Eps, Gen(1, 3))
  const Ret2 : Trans<int, int> := Trans(Control(2), Sym(4), Gen(0, 1))
  const Eps1 : Trans<int, int> := Trans(Control(3), Eps, Gen(0, 1))
  const Ret1 : Trans<int, int> := Trans(Control(3), Sym(2), Sink)

  ghost function Example<W(!new)>(sr: Semiring<W>, a: W): System<int, int, W> {
    System(sr, {Eps}, {Outer(sr), Inner(sr), Return1(a), Return2(sr)}, {(T0, sr.one)})
  }

  /** What the saturation computes. The two last weights should be a. */
  ghost function ExampleAutomaton<W(!new)>(sr: Semiring<W>, a: W): map<Trans<int, int>, W> {
    map[T0 := sr.one, Call1 := sr.one, Entry1 := sr.one, Call2 := sr.one, Entry2 := sr.one,
        Eps2 := a, Ret2 := a, Eps1 := sr.combine(a, sr.one), Ret1 := sr.combine(a, sr.one)]
  }

  lemma ExampleWellFormed<W(!new)>(sr: Semiring<W>, a: W)
    requires sr.Laws()
    ensures WellFormed(Example(sr, a))
  {
  }

  lemma ExampleSaturated<W(!new)>(sr: Semiring<W>, a: W)
    requires sr.Laws()
    ensures WellFormed(Example(sr, a)) && Saturated(Example(sr, a), ExampleAutomaton(sr, a))
  {
    hide WellFormed;
    ExampleWellFormed(sr, a);
    sr.LeReflexive(sr.one);
    sr.LeReflexive(a);
    sr.CombineIsJoin(a, sr.one);
  }

  ghost predicate Yields<W(!new)>(sys: System<int, int, W>, d: Deriv<int, int, W>, t: Trans<int, int>, w: W) {
    Valid(sys, d) && Concl(d) == t && Value(sys.sr, d) == w
  }

  lemma ExampleCalls<W(!new)>(sr: Semiring<W>, a: W)
    returns (d0: Deriv<int, int, W>, c1: Deriv<int, int, W>, e1: Deriv<int, int, W>, c2: Deriv<int, int, W>,
      e2: Deriv<int, int, W>)
    requires sr.Laws()
    ensures Yields(Example(sr, a), d0, T0, sr.one)
    ensures Yields(Example(sr, a), c1, Call1, sr.one) && Yields(Example(sr, a), e1, Entry1, sr.one)
    ensures Yields(Example(sr, a), c2, Call2, sr.one) && Yields(Example(sr, a), e2, Entry2, sr.one)
  {
    d0 := Init(T0, sr.one);
    c1, e1 := CallStep(Outer(sr), d0), EntryStep(Outer(sr), d0);
    c2, e2 := CallStep(Inner(sr), e1), EntryStep(Inner(sr), e1);
  }

  lemma ExampleReturns<W(!new)>(
    sr: Semiring<W>, a: W, c1: Deriv<int, int, W>, c2: Deriv<int, int, W>, e2: Deriv<int, int, W>)
    returns (p2: Deriv<int, int, W>, r2: Deriv<int, int, W>, p1: Deriv<int, int, W>, r1: Deriv<int, int, W>)
    requires sr.Laws() && Yields(Example(sr, a), c1, Call1, sr.one)
    requires Yields(Example(sr, a), c2, Call2, sr.one) && Yields(Example(sr, a), e2, Entry2, sr.one)
    ensures Yields(Example(sr, a), p2, Eps2, a) && Yields(Example(sr, a), r2, Ret2, a)
    ensures Yields(Example(sr, a), p1, Eps1, sr.combine(a, sr.one)) &&
      Yields(Example(sr, a), r1, Ret1, sr.combine(a, sr.one))
  {
    var sys := Example(sr, a);
    p2 := PopStep(Return1(a), e2);
    assert Yields(sys, p2, Eps2, a);
    r2 := ReturnStep(p2, c2);
    assert Yields(sys, r2, Ret2, a);
    var p, skip := PopStep(Return2(sr), r2), SkipPopStep(Return2(sr), p2, c2);
    assert Yields(sys, p, Eps1, a) && Yields(sys, skip, Eps1, sr.one);
    p1 := Join(p, skip);
    r1 := ReturnStep(p1, c1);
  }

  lemma ExampleDerivable<W(!new)>(sr: Semiring<W>, a: W)
    requires sr.Laws()
    ensures AllDerivable(Example(sr, a), ExampleAutomaton(sr, a))
  {
    hide Valid, Concl, Value, Example;
    var d0, c1, e1, c2, e2 := ExampleCalls(sr, a);
    var p2, r2, p1, r1 := ExampleReturns(sr, a, c1, c2, e2);
  }

  // The five configurations of the only run, and the rule enabled in each.

  function Stage(k: nat): Config<int, int>
    requires k <= 4
  {
    [Config(0, [0]), Config(0, [1, 2]), Config(1, [3, 4, 2]), Config(2, [4, 2]), Config(3, [2])][k]
  }

  function StageRule<W(!new)>(sr: Semiring<W>, a: W, k: nat): Rule<int, int, W>
    requires k < 4
  {
    [Outer(sr), Inner(sr), Return1(a), Return2(sr)][k]
  }

  lemma StageStep<W(!new)>(sr: Semiring<W>, a: W, k: nat, r: Rule<int, int, W>)
    requires k <= 4 && r in Example(sr, a).rules && Apply(r, Stage(k)).Some?
    ensures k < 4 && r == StageRule(sr, a, k) && Apply(r, Stage(k)) == Some(Stage(k + 1))
  {
    assert Stage(k).stack[1..] == [[], [2], [4, 2], [2], []][k];
    assert [1, 2] + [] == [1, 2] && [3, 4] + [2] == [3, 4, 2];
  }

  lemma {:induction false} ExampleRun<W(!new)>(sr: Semiring<W>, a: W, k: nat, rs: seq<Rule<int, int, W>>)
    requires sr.Laws() && k <= 4
    requires (forall r <- rs :: r in Example(sr, a).rules) && Exec(Stage(k), rs) == Some(Stage(4))
    ensures RunWeight(sr, rs) == if k <= 2 then a else sr.one
    decreases |rs|
  {
    hide Example;
    if rs != [] {
      assert rs[0] in rs && forall r <- rs[1..] :: r in rs;
      StageStep(sr, a, k, rs[0]);
      ExampleRun(sr, a, k + 1, rs[1..]);
    }
  }

  /** The path through the outer call site weighs a combined with one, so a
      bounds the only run but not the path. */
  lemma ExampleInexact<W(!new)>(sr: Semiring<W>, a: W)
    requires sr.Laws() && !sr.Le(sr.one, a)
    ensures !AlwaysExact(sr, true)
  {
    ExampleSaturated(sr, a);
    ExampleDerivable(sr, a);
    ExampleRunBounded(sr, a);
    ExamplePathNotBounded(sr, a);
    assert Eps in Example(sr, a).empties && Solution(Example(sr, a), ExampleAutomaton(sr, a));
  }

  lemma ExampleRunBounded<W(!new)>(sr: Semiring<W>, a: W)
    requires sr.Laws()
    ensures BoundsRuns(Example(sr, a), Config(3, [2]), a)
  {
    var sys, c := Example(sr, a), Config(3, [2]);
    forall from, w0, rs | IsRun(sys, Sink, c, from, w0, rs)
      ensures sr.Le(WeightOfRun(sr, w0, rs), a)
    {
      assert (Trans(Control(from.state), Sym(from.stack[0]), Sink), w0) == (T0, sr.one);
      assert from == Stage(0);
      ExampleRun(sr, a, 0, rs);
      sr.LeReflexive(a);
    }
  }

  lemma ExamplePathNotBounded<W(!new)>(sr: Semiring<W>, a: W)
    requires sr.Laws() && !sr.Le(sr.one, a)
    ensures !BoundsPaths(sr, ExampleAutomaton(sr, a), Config(3, [2]), a)
  {
    var m, c, path := ExampleAutomaton(sr, a), Config(3, [2]), [Ret1];
    assert path[1..] == [] && Chain(m, Sink, path[1..], Sink) && Word(path) == [2];
    assert Accepts(m, c, path);
    assert PathWeight(sr, m, Sink, path[1..], Sink) == sr.one;
    assert AcceptWeight(sr, m, c, path) == sr.combine(a, sr.one);
    sr.CombineIsJoin(a, sr.one);
    if sr.Le(sr.combine(a, sr.one), a) {
      sr.LeTransitive(sr.one, sr.combine(a, sr.one), a);
    }
  }
}
