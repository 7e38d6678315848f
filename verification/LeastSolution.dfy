/** A solution is the least saturated automaton, so it depends only on the rules
    and initial transitions, never on the order in which they were processed. */
module LeastSolution {
  import opened Semirings
  import opened Pushdown
  import opened PAutomata
  import opened UnbalancedPops

  lemma AtLeastBelow<D(!new), N(!new), W(!new)>(sr: Semiring<W>, m: map<Trans<D, N>, W>, t: Trans<D, N>, w: W, w': W)
    requires sr.Laws() && AtLeast(sr, m, t, w) && sr.Le(w', w)
    ensures AtLeast(sr, m, t, w')
  {
    sr.LeTransitive(w', w, m[t]);
  }

  lemma ExtendBelow<W(!new)>(sr: Semiring<W>, x: W, x': W, w: W)
    requires sr.Laws() && sr.Le(x, x')
    ensures sr.Le(sr.extend(x, w), sr.extend(x', w)) && sr.Le(sr.extend(w, x), sr.extend(w, x'))
  {
    sr.LeReflexive(w);
    sr.ExtendMonotone(x, x', w, w);
    sr.ExtendMonotone(w, w, x, x');
  }

  /** Whatever is derivable is already in every saturated automaton. */
  lemma {:induction false} DerivationsBelow<D(!new), N(!new), W(!new)>(
    sys: System<D, N, W>, m: map<Trans<D, N>, W>, d: Deriv<D, N, W>)
    requires sys.sr.Laws() && WellFormed(sys) && Saturated(sys, m) && Valid(sys, d)
    ensures AtLeast(sys.sr, m, Concl(d), Value(sys.sr, d))
    decreases d, 1
  {
    var sr, t := sys.sr, Concl(d);
    match d
    case Init(t, w) => assert AtLeast(sr, m, (t, w).0, (t, w).1);
    case Join(a, b) =>
      DerivationsBelow(sys, m, a);
      DerivationsBelow(sys, m, b);
      sr.CombineIsJoin(Value(sr, a), Value(sr, b));
    case NormalStep(r, d1) =>
      DerivationsBelow(sys, m, d1);
      ExtendBelow(sr, Value(sr, d1), m[Concl(d1)], r.w);
      AtLeastBelow(sr, m, t, sr.extend(m[Concl(d1)], r.w), Value(sr, d));
    case CallStep(r, d1) =>
      DerivationsBelow(sys, m, d1);
      ExtendBelow(sr, Value(sr, d1), m[Concl(d1)], r.w);
      AtLeastBelow(sr, m, t, sr.extend(m[Concl(d1)], r.w), Value(sr, d));
    case EntryStep(r, d1) =>
      DerivationsBelow(sys, m, d1);
    case PopStep(r, d1) => PopsBelow(sys, m, d);
    case SkipPopStep(r, e, d1) => PopsBelow(sys, m, d);
    case ReturnStep(e, d1) =>
      DerivationsBelow(sys, m, d1);
      var t2 := Concl(d1);
      ReturnsBelow(sys, m, e, t2);
      ExtendBelow(sr, Value(sr, d1), m[t2], Value(sr, e));
      AtLeastBelow(sr, m, t, sr.extend(m[t2], Value(sr, e)), Value(sr, d));
  }

  /** Both ways of deriving a pop. */
  lemma {:induction false} PopsBelow<D(!new), N(!new), W(!new)>(
    sys: System<D, N, W>, m: map<Trans<D, N>, W>, d: Deriv<D, N, W>)
    requires sys.sr.Laws() && WellFormed(sys) && Saturated(sys, m) && Valid(sys, d) && (d.PopStep? || d.SkipPopStep?)
    ensures AtLeast(sys.sr, m, Concl(d), Value(sys.sr, d))
    ensures forall t2 <- m :: t2.start == Concl(d).target ==>
              AtLeast(sys.sr, m, ReturnResult(Concl(d), t2), sys.sr.extend(m[t2], Value(sys.sr, d)))
    decreases d, 0
  {
    var sr, r, t := sys.sr, d.r, Concl(d.d);
    DerivationsBelow(sys, m, d.d);
    if d.SkipPopStep? {
      DerivationsBelow(sys, m, d.e);
      assert Concl(d.e) in m;
    }
    assert PopsAt(sys, m, r, t) && t.target.Gen?;
    var w := sr.extend(m[t], r.w);
    ExtendBelow(sr, Value(sr, d.d), m[t], r.w);
    AtLeastBelow(sr, m, Concl(d), w, Value(sr, d));
    forall t2 <- m | t2.start == Concl(d).target
      ensures AtLeast(sr, m, ReturnResult(Concl(d), t2), sr.extend(m[t2], Value(sr, d)))
    {
      ExtendBelow(sr, Value(sr, d), w, m[t2]);
      AtLeastBelow(sr, m, ReturnResult(Concl(d), t2), sr.extend(m[t2], w), sr.extend(m[t2], Value(sr, d)));
    }
  }

  /** A saturated automaton is closed under returning over a derived epsilon. */
  lemma {:induction false} ReturnsBelow<D(!new), N(!new), W(!new)>(
    sys: System<D, N, W>, m: map<Trans<D, N>, W>, e: Deriv<D, N, W>, t2: Trans<D, N>)
    requires sys.sr.Laws() && WellFormed(sys) && Saturated(sys, m) && Valid(sys, e)
    requires Concl(e).lbl == Eps && t2 in m && t2.start == Concl(e).target
    ensures AtLeast(sys.sr, m, ReturnResult(Concl(e), t2), sys.sr.extend(m[t2], Value(sys.sr, e)))
    decreases e, 2
  {
    var sr := sys.sr;
    DerivationsShaped(sys, e);
    match e
    case Init(_, _) =>
    case Join(a, b) =>
      ReturnsBelow(sys, m, a, t2);
      ReturnsBelow(sys, m, b, t2);
      var x, y := sr.extend(m[t2], Value(sr, a)), sr.extend(m[t2], Value(sr, b));
      sr.CombineIsJoin(x, y);
      sr.ExtendDistributes(Value(sr, a), Value(sr, b), m[t2]);
    case PopStep(_, _) => PopsBelow(sys, m, e);
    case SkipPopStep(_, _, _) => PopsBelow(sys, m, e);
    case NormalStep(_, _) =>
    case CallStep(_, _) =>
    case EntryStep(_, _) =>
    case ReturnStep(_, d) => DerivationsShaped(sys, d);
  }

  ghost predicate Covers<D(!new), N(!new), W(!new)>(
    sys: System<D, N, W>, m: map<Trans<D, N>, W>, d: Deriv<D, N, W>)
  {
    AtLeast(sys.sr, m, Concl(d), Value(sys.sr, d))
  }

  /** An automaton of derivable transitions is saturated exactly if nothing derivable
      is missing from it. */
  lemma SaturatedIffCovering<D(!new), N(!new), W(!new)>(sys: System<D, N, W>, m: map<Trans<D, N>, W>)
    requires sys.sr.Laws() && WellFormed(sys) && AllDerivable(sys, m)
    ensures Saturated(sys, m) <==> forall d :: Valid(sys, d) ==> Covers(sys, m, d)
  {
    if Saturated(sys, m) {
      forall d | Valid(sys, d) ensures Covers(sys, m, d) { DerivationsBelow(sys, m, d); }
    }
    if forall d :: Valid(sys, d) ==> Covers(sys, m, d) {
      CoveringIsSaturated(sys, m);
    }
  }

  lemma CoveringIsSaturated<D(!new), N(!new), W(!new)>(sys: System<D, N, W>, m: map<Trans<D, N>, W>)
    requires AllDerivable(sys, m) && forall d :: Valid(sys, d) ==> Covers(sys, m, d)
    ensures Saturated(sys, m)
  {
    forall i <- sys.inits ensures AtLeast(sys.sr, m, i.0, i.1) {
      assert Covers(sys, m, Init(i.0, i.1));
    }
    forall r <- sys.rules, t <- m | NormalFires(r, t)
      ensures AtLeast(sys.sr, m, NormalResult(r, t), sys.sr.extend(m[t], r.w))
    {
      var d := DerivationOf(sys, m, t);
      assert Covers(sys, m, NormalStep(r, d));
    }
    forall r <- sys.rules, t <- m | PushFires(r, t)
      ensures AtLeast(sys.sr, m, CallResult(r, t), sys.sr.extend(m[t], r.w))
      ensures AtLeast(sys.sr, m, EntryResult(r), sys.sr.one)
    {
      var d := DerivationOf(sys, m, t);
      assert Covers(sys, m, CallStep(r, d)) && Covers(sys, m, EntryStep(r, d));
    }
    forall r <- sys.rules, t <- m | PopsAt(sys, m, r, t) && t.target.Gen?
      ensures AtLeast(sys.sr, m, PopResult(r, t.target), sys.sr.extend(m[t], r.w))
      ensures forall t2 <- m :: t2.start == t.target ==>
        AtLeast(sys.sr, m, ReturnResult(PopResult(r, t.target), t2), sys.sr.extend(m[t2], sys.sr.extend(m[t], r.w)))
    {
      var d := PopDerivation(sys, m, r, t);
      assert Covers(sys, m, d);
      forall t2 <- m | t2.start == t.target
        ensures AtLeast(
            sys.sr, m, ReturnResult(PopResult(r, t.target), t2), sys.sr.extend(m[t2], sys.sr.extend(m[t], r.w)))
      {
        var d2 := DerivationOf(sys, m, t2);
        assert Covers(sys, m, ReturnStep(d, d2));
      }
    }
  }

  lemma DerivationOf<D(!new), N(!new), W(!new)>(sys: System<D, N, W>, m: map<Trans<D, N>, W>, t: Trans<D, N>)
    returns (d: Deriv<D, N, W>)
    requires AllDerivable(sys, m) && t in m
    ensures Valid(sys, d) && Concl(d) == t && Value(sys.sr, d) == m[t]
  {
    assert Derivable(sys, t, m[t]);
    d :| Valid(sys, d) && Concl(d) == t && Value(sys.sr, d) == m[t];
  }

  lemma PopDerivation<D(!new), N(!new), W(!new)>(
    sys: System<D, N, W>, m: map<Trans<D, N>, W>, r: Rule<D, N, W>, t: Trans<D, N>) returns (d: Deriv<D, N, W>)
    requires AllDerivable(sys, m) && r in sys.rules && t in m && PopsAt(sys, m, r, t) && t.target.Gen?
    ensures Valid(sys, d) && Concl(d) == PopResult(r, t.target) && Value(sys.sr, d) == sys.sr.extend(m[t], r.w)
  {
    var d1 := DerivationOf(sys, m, t);
    d := PopStep(r, d1);
    if t.start != Control(r.s1) {
      var e :| e in m && e.start == Control(r.s1) && e.lbl in sys.empties && e.target == t.start;
      var d0 := DerivationOf(sys, m, e);
      d := SkipPopStep(r, d0, d1);
    }
  }

  /** A transition out of a generated state is the call transition of some rule. */
  lemma {:induction false} GeneratedByCall<D(!new), N(!new), W(!new)>(
    sys: System<D, N, W>, m: map<Trans<D, N>, W>, d: Deriv<D, N, W>)
    requires sys.sr.Laws() && WellFormed(sys) && Saturated(sys, m) && Valid(sys, d) && Concl(d).start.Gen?
    ensures exists r <- sys.rules, t <- m :: PushFires(r, t) && CallResult(r, t) == Concl(d)
    decreases d
  {
    match d
    case Join(a, _) => GeneratedByCall(sys, m, a);
    case CallStep(r, d1) => DerivationsBelow(sys, m, d1);
    case _ =>
  }

  /** A solution lies below every saturated automaton. */
  lemma SolutionIsLeast<D(!new), N(!new), W(!new)>(
    sys: System<D, N, W>, m: map<Trans<D, N>, W>, m': map<Trans<D, N>, W>)
    requires sys.sr.Laws() && WellFormed(sys) && Solution(sys, m) && Saturated(sys, m')
    ensures forall t <- m :: AtLeast(sys.sr, m', t, m[t])
  {
    forall t <- m ensures AtLeast(sys.sr, m', t, m[t]) {
      assert Derivable(sys, t, m[t]);
      var d :| Valid(sys, d) && Concl(d) == t && Value(sys.sr, d) == m[t];
      DerivationsBelow(sys, m', d);
    }
  }

  /** Order independence: the same rules and the same initial transitions have
      only one solution, transitions and weights alike. */
  lemma SolutionUnique<D(!new), N(!new), W(!new)>(sys: System<D, N, W>, m: map<Trans<D, N>, W>, m': map<Trans<D, N>, W>)
    requires sys.sr.Laws() && WellFormed(sys) && Solution(sys, m) && Solution(sys, m')
    ensures m == m'
  {
    SolutionIsLeast(sys, m, m');
    SolutionIsLeast(sys, m', m);
    assert m.Keys == m'.Keys;
    forall t <- m ensures m[t] == m'[t] {
      assert AtLeast(sys.sr, m', t, m[t]) && AtLeast(sys.sr, m, t, m'[t]);
      sys.sr.LeAntisymmetric(m[t], m'[t]);
    }
  }

  /** The same goes for the table of unbalanced pops. */
  lemma TableUnique<D(!new), N(!new), W(!new)>(
    sys: System<D, N, W>, m: map<Trans<D, N>, W>, table: PopTable<D, N, W>, table': PopTable<D, N, W>)
    requires sys.sr.Laws()
    requires TableSaturated(sys, m, table) && TableJustified(sys, m, table)
    requires TableSaturated(sys, m, table') && TableJustified(sys, m, table')
    ensures table == table'
  {
    TableDetermined(sys, m, table);
    TableDetermined(sys, m, table');
    assert table.Keys == table'.Keys;
  }
}
