/** Why a saturation comes to an end: over finitely many names there are finitely
    many transitions, and each weight can be raised only finitely often. */
module Termination {
  import opened Semirings
  import opened Pushdown
  import opened PAutomata
  import opened SolverState

  /** The control states and stack symbols that rules and transitions mention. */
  datatype Names<!D(==), !N(==)> = Names(states: set<D>, symbols: set<N>)

  ghost predicate StateIn<D(!new), N(!new)>(names: Names<D, N>, s: State<D, N>) {
    && (s.Control? ==> s.d in names.states)
    && (s.Gen? ==> s.d in names.states && s.n in names.symbols)
  }

  ghost predicate TransIn<D(!new), N(!new)>(names: Names<D, N>, t: Trans<D, N>) {
    StateIn(names, t.start) && StateIn(names, t.target) && (t.lbl.Sym? ==> t.lbl.n in names.symbols)
  }

  ghost predicate PatternIn<D(!new), N(!new)>(names: Names<D, N>, p: Pattern<N>) {
    p.Lit? ==> p.n in names.symbols
  }

  ghost predicate RuleIn<D(!new), N(!new), W(!new)>(names: Names<D, N>, r: Rule<D, N, W>) {
    && r.s2 in names.states
    && (r.Normal? ==> PatternIn(names, r.p2))
    && (r.Push? ==> r.l2 in names.symbols && PatternIn(names, r.callSite))
  }

  ghost predicate SystemIn<D(!new), N(!new), W(!new)>(names: Names<D, N>, sys: System<D, N, W>) {
    && (forall r <- sys.rules :: RuleIn(names, r))
    && (forall i <- sys.inits :: TransIn(names, i.0))
  }

  ghost function AllStates<D(!new), N(!new)>(names: Names<D, N>): set<State<D, N>> {
    (set d <- names.states :: Control(d)) + {Sink} + (set d <- names.states, n <- names.symbols :: Gen(d, n))
  }

  ghost function AllLabels<D(!new), N(!new)>(names: Names<D, N>): set<Label<N>> {
    (set n <- names.symbols :: Sym(n)) + {Eps}
  }

  ghost function Universe<D(!new), N(!new)>(names: Names<D, N>): set<Trans<D, N>> {
    set s <- AllStates(names), l <- AllLabels(names), q <- AllStates(names) :: Trans(s, l, q)
  }

  lemma InUniverse<D(!new), N(!new)>(names: Names<D, N>, t: Trans<D, N>)
    requires TransIn(names, t)
    ensures t in Universe(names)
  {
    assert t == Trans(t.start, t.lbl, t.target);
    assert t.start in AllStates(names) && t.target in AllStates(names);
    assert t.lbl in AllLabels(names) by {
      if t.lbl.Sym? {
        assert t.lbl == Sym(t.lbl.n);
      }
    }
  }

  lemma {:induction false} DerivationIn<D(!new), N(!new), W(!new)>(
    names: Names<D, N>, sys: System<D, N, W>, d: Deriv<D, N, W>)
    requires SystemIn(names, sys) && Valid(sys, d)
    ensures TransIn(names, Concl(d))
  {
    match d
    case Init(t, w) => assert TransIn(names, (t, w).0);
    case Join(a, _) => DerivationIn(names, sys, a);
    case NormalStep(r, d1) => DerivationIn(names, sys, d1); assert RuleIn(names, r);
    case CallStep(r, d1) => DerivationIn(names, sys, d1); assert RuleIn(names, r);
    case EntryStep(r, _) => assert RuleIn(names, r);
    case PopStep(r, d1) => DerivationIn(names, sys, d1); assert RuleIn(names, r);
    case SkipPopStep(r, _, d1) => DerivationIn(names, sys, d1); assert RuleIn(names, r);
    case ReturnStep(e, d1) => DerivationIn(names, sys, e); DerivationIn(names, sys, d1);
  }

  // ---------------------------------------------------------------- ranks

  /** rank bounds how often a weight can still be raised. */
  ghost predicate Descends<W(!new)>(sr: Semiring<W>, rank: W -> nat) {
    forall x, y :: sr.Le(x, y) && x != y ==> rank(y) < rank(x)
  }

  ghost function RankSum<T(!new), W(!new)>(rank: W -> nat, m: map<T, W>, ts: set<T>): nat
    requires ts <= m.Keys
  {
    if ts == {} then 0
    else
      var t :| t in ts;
      rank(m[t]) + RankSum(rank, m, ts - {t})
  }

  lemma {:induction false} RankSumSplit<T(!new), W(!new)>(rank: W -> nat, m: map<T, W>, ts: set<T>, t: T)
    requires ts <= m.Keys && t in ts
    ensures RankSum(rank, m, ts) == rank(m[t]) + RankSum(rank, m, ts - {t})
    decreases ts
  {
    var u :| u in ts && RankSum(rank, m, ts) == rank(m[u]) + RankSum(rank, m, ts - {u});
    if u != t {
      RankSumSplit(rank, m, ts - {u}, t);
      RankSumSplit(rank, m, ts - {t}, u);
      assert ts - {u} - {t} == ts - {t} - {u};
    }
  }

  lemma {:induction false} RankSumFalls<T(!new), W(!new)>(
    sr: Semiring<W>, rank: W -> nat, m: map<T, W>, m': map<T, W>, ts: set<T>)
    requires Descends(sr, rank) && ts <= m.Keys && ts <= m'.Keys
    requires forall t <- ts :: sr.Le(m[t], m'[t])
    ensures RankSum(rank, m', ts) <= RankSum(rank, m, ts)
    ensures (exists t <- ts :: m[t] != m'[t]) ==> RankSum(rank, m', ts) < RankSum(rank, m, ts)
    decreases ts
  {
    if ts != {} {
      var t :| t in ts;
      RankSumSplit(rank, m, ts, t);
      RankSumSplit(rank, m', ts, t);
      RankSumFalls(sr, rank, m, m', ts - {t});
    }
  }

  ghost function Missing<D(!new), N(!new), W(!new)>(names: Names<D, N>, m: map<Trans<D, N>, W>): set<Trans<D, N>> {
    Universe(names) - m.Keys
  }

  ghost function Raises<D(!new), N(!new), W(!new)>(rank: W -> nat, m: map<Trans<D, N>, W>): nat {
    RankSum(rank, m, m.Keys)
  }

  ghost function MissingNestings<D(!new), N(!new), W(!new)>(
    names: Names<D, N>, c: Core<D, N, W>): set<(State<D, N>, State<D, N>)>
  {
    (set a <- AllStates(names), b <- AllStates(names) :: (a, b)) - c.nestedIn
  }

  ghost predicate WeightsIn<D(!new), N(!new), W(!new)>(names: Names<D, N>, m: map<Trans<D, N>, W>) {
    forall t <- m :: TransIn(names, t)
  }

  lemma WeightsInUniverse<D(!new), N(!new), W(!new)>(names: Names<D, N>, m: map<Trans<D, N>, W>)
    requires WeightsIn(names, m)
    ensures m.Keys <= Universe(names)
  {
    forall t <- m.Keys ensures t in Universe(names) { InUniverse(names, t); }
  }

  /** Growth never moves the measure up, and any new or raised weight moves it down. */
  lemma Progress<D(!new), N(!new), W(!new)>(
    sr: Semiring<W>, rank: W -> nat, names: Names<D, N>, m: map<Trans<D, N>, W>, m': map<Trans<D, N>, W>)
    requires Descends(sr, rank) && WeightsIn(names, m) && WeightsIn(names, m')
    requires forall t <- m :: AtLeast(sr, m', t, m[t])
    ensures Missing(names, m') <= Missing(names, m)
    ensures Missing(names, m') == Missing(names, m) ==> m'.Keys == m.Keys && Raises(rank, m') <= Raises(rank, m)
    ensures Missing(names, m') == Missing(names, m) && m != m' ==> Raises(rank, m') < Raises(rank, m)
  {
    WeightsInUniverse(names, m);
    WeightsInUniverse(names, m');
    if Missing(names, m') == Missing(names, m) {
      assert m'.Keys == m.Keys by {
        forall t <- m'.Keys ensures t in m.Keys {
          assert t in Universe(names) && t !in Missing(names, m');
        }
      }
      RankSumFalls(sr, rank, m, m', m.Keys);
    }
  }

  lemma RaiseProgress<D(!new), N(!new), W(!new)>(
    sr: Semiring<W>, rank: W -> nat, names: Names<D, N>, sys: System<D, N, W>, m: map<Trans<D, N>, W>, t: Trans<D, N>,
    w: W)
    requires sr.Laws() && Descends(sr, rank) && WeightsIn(names, m) && SystemIn(names, sys) && Derivable(sys, t, w)
    requires t in m ==> sr.Le(m[t], w) && m[t] != w
    ensures WeightsIn(names, m[t := w])
    ensures Missing(names, m[t := w]) < Missing(names, m)
         || (Missing(names, m[t := w]) == Missing(names, m) && Raises(rank, m[t := w]) < Raises(rank, m))
  {
    var d :| Valid(sys, d) && Concl(d) == t && Value(sys.sr, d) == w;
    DerivationIn(names, sys, d);
    forall u <- m ensures AtLeast(sr, m[t := w], u, m[u]) { sr.LeReflexive(m[u]); }
    Progress(sr, rank, names, m, m[t := w]);
  }
}
