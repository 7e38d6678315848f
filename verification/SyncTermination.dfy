/** No interleaving of the synchronized solver goes on for ever. */
module SyncTermination {
  import opened Semirings
  import opened Pushdown
  import opened PAutomata
  import opened LeastSolution
  import opened Termination
  import opened SyncMachine
  import opened Synchronization
  import opened SyncInterleavings

  /** Finitely many starts, nodes, and names of both automata. */
  datatype Bounds<!S(==), !F(==), !L(==), W(==)> = Bounds(
    starts: set<(Node<S, F>, W)>,
    nodes: set<Node<S, F>>,
    callNames: Names<F, S>,
    fieldNames: Names<Node<S, F>, FieldLabel<L>>)

  /** The nodes are closed under successors, and the names suffice for their rules. */
  ghost predicate Suffices<S(!new), F(!new), L(!new), W(!new)>(an: Analysis<S, F, L, W>, b: Bounds<S, F, L, W>) {
    && Closed(an, b.starts, b.nodes)
    && SystemIn(b.callNames, CallSystem(an, b.starts, b.nodes))
    && SystemIn(b.fieldNames, FieldSystem(an, b.starts, b.nodes))
  }

  /** What the call automaton can report. */
  ghost function CallUniverse<S(!new), F(!new), L(!new), W(!new)>(b: Bounds<S, F, L, W>): set<Node<S, F>> {
    set n <- b.callNames.symbols, d <- b.callNames.states :: Node(n, d)
  }

  ghost predicate Within<S(!new), F(!new), L(!new), W(!new)>(
    an: Analysis<S, F, L, W>, b: Bounds<S, F, L, W>, s: Moment<S, F, L, W>)
  {
    && s.starts <= b.starts && s.reached <= b.nodes
    && s.callContext <= CallUniverse(b) && s.fieldContext <= b.nodes
    && s.callRules <= CallRules(an, b.nodes) && s.fieldRules <= FieldRules(an, b.nodes)
    && WeightsIn(b.callNames, s.callWeights) && WeightsIn(b.fieldNames, s.fieldWeights)
  }

  /** The event changes something, and a weight only upwards. */
  ghost predicate Productive<S(!new), F(!new), L(!new), W(!new)>(
    an: Analysis<S, F, L, W>, b: Bounds<S, F, L, W>, s: Moment<S, F, L, W>, ev: Event<S, F, L, W>)
  {
    && Enabled(an, s, ev) && After(an, s, ev) != s
    && match ev
       case Start(start) => start in b.starts
       case CallWeight(t, w) => t in s.callWeights ==> an.sr.Le(s.callWeights[t], w)
       case FieldWeight(t, w) => t in s.fieldWeights ==> an.sr.Le(s.fieldWeights[t], w)
       case _ => true
  }

  // ---------------------------------------------------------------- staying within the bounds

  lemma DerivedWithin<D(!new), N(!new), W(!new)>(
    names: Names<D, N>, sys: System<D, N, W>, all: System<D, N, W>, t: Trans<D, N>, w: W)
    requires sys.sr == all.sr && sys.empties == all.empties && sys.rules <= all.rules && sys.inits <= all.inits
    requires SystemIn(names, all) && Derivable(sys, t, w)
    ensures TransIn(names, t)
  {
    var d :| Valid(sys, d) && Concl(d) == t && Value(sys.sr, d) == w;
    assert SystemIn(names, sys) by {
      forall r <- sys.rules ensures RuleIn(names, r) { assert r in all.rules; }
      forall i <- sys.inits ensures TransIn(names, i.0) { assert i in all.inits; }
    }
    DerivationIn(names, sys, d);
  }

  lemma ReportsWithin<S(!new), F(!new), L(!new), W(!new)>(b: Bounds<S, F, L, W>, m: map<Trans<F, S>, W>)
    requires WeightsIn(b.callNames, m)
    ensures CallNodes(m.Keys) <= CallUniverse(b) && ReturnNodes(m.Keys) <= CallUniverse(b)
  {
    forall n | n in CallNodes(m.Keys) ensures n in CallUniverse(b) {
      var t :| t in m.Keys && ReportsCall(t) && n == CallNode(t);
      assert TransIn(b.callNames, t);
    }
    forall n | n in ReturnNodes(m.Keys) ensures n in CallUniverse(b) {
      var e, t :| e in m.Keys && t in m.Keys && e.lbl == Eps && e.start.Control? && t.start == e.target && t.lbl.Sym? &&
        n == Node(t.lbl.n, e.start.d);
      assert TransIn(b.callNames, e) && TransIn(b.callNames, t);
    }
  }

  lemma FieldReportsWithin<S(!new), F(!new), L(!new), W(!new)>(
    an: Analysis<S, F, L, W>, b: Bounds<S, F, L, W>, s: Moment<S, F, L, W>)
    requires Suffices(an, b) && Within(an, b, s) && Justifiable(an, s)
    ensures FieldNodes(s.fieldWeights.Keys) <= b.nodes
  {
    hide Justifiable;
    var sys, all := FieldSystem(an, s.starts, s.reached), FieldSystem(an, b.starts, b.nodes);
    assert SystemIn(b.fieldNames, sys) by {
      forall r <- sys.rules ensures RuleIn(b.fieldNames, r) { assert r in all.rules; }
      forall i <- sys.inits ensures TransIn(b.fieldNames, i.0) { assert i in all.inits; }
    }
    assert AllDerivable(sys, s.fieldWeights) by { FieldsJustified(an, s); }
    FieldNodesClosed(an, s.starts, s.reached, b.nodes, s.fieldWeights, b.fieldNames);
  }

  lemma FieldsJustified<S(!new), F(!new), L(!new), W(!new)>(an: Analysis<S, F, L, W>, s: Moment<S, F, L, W>)
    requires Justifiable(an, s)
    ensures AllDerivable(FieldSystem(an, s.starts, s.reached), s.fieldWeights)
  {
  }

  lemma EventWithin<S(!new), F(!new), L(!new), W(!new)>(
    an: Analysis<S, F, L, W>, b: Bounds<S, F, L, W>, s: Moment<S, F, L, W>, ev: Event<S, F, L, W>)
    requires Suffices(an, b) && Within(an, b, s) && Justifiable(an, s) && Productive(an, b, s, ev)
    ensures Within(an, b, After(an, s, ev))
  {
    hide Justifiable, Closed, Derivable, CallNodes, ReturnNodes, FieldNodes, CallUniverse;
    match ev
    case CallWeight(t, w) => DerivedWithin(b.callNames, Calls(an, s), CallSystem(an, b.starts, b.nodes), t, w);
    case FieldWeight(t, w) => DerivedWithin(b.fieldNames, Fields(an, s), FieldSystem(an, b.starts, b.nodes), t, w);
    case ReportCall(_) => ReportsWithin(b, s.callWeights);
    case ReportField(_) => FieldReportsWithin(an, b, s);
    case Start(_) =>
    case Expand(_) =>
    case AddCallRule(_, _) =>
    case AddFieldRule(_, _) =>
  }

  // ---------------------------------------------------------------- the measure

  /** How many starts, nodes, reports, rules and transitions are still to come. */
  ghost function Left<S(!new), F(!new), L(!new), W(!new)>(
    an: Analysis<S, F, L, W>, b: Bounds<S, F, L, W>, s: Moment<S, F, L, W>): nat
  {
    |b.starts - s.starts| + |b.nodes - s.reached| + |CallUniverse(b) - s.callContext| + |b.nodes - s.fieldContext|
    + |CallRules(an, b.nodes) - s.callRules| + |FieldRules(an, b.nodes) - s.fieldRules|
    + |Missing(b.callNames, s.callWeights)| + |Missing(b.fieldNames, s.fieldWeights)|
  }

  /** How often the weights that are there can still be raised. */
  ghost function RaisesLeft<S(!new), F(!new), L(!new), W(!new)>(rank: W -> nat, s: Moment<S, F, L, W>): nat {
    Raises(rank, s.callWeights) + Raises(rank, s.fieldWeights)
  }

  lemma OneMore<T>(all: set<T>, some: set<T>, x: T)
    requires some <= all && x in all && x !in some
    ensures |all - (some + {x})| == |all - some| - 1
  {
    assert all - some == (all - (some + {x})) + {x};
  }

  lemma NewWeight<D(!new), N(!new), W(!new)>(
    sr: Semiring<W>, rank: W -> nat, names: Names<D, N>, m: map<Trans<D, N>, W>, t: Trans<D, N>, w: W)
    requires sr.Laws() && Descends(sr, rank) && WeightsIn(names, m) && WeightsIn(names, m[t := w]) && t !in m
    ensures |Missing(names, m[t := w])| == |Missing(names, m)| - 1
    ensures Raises(rank, m[t := w]) <= Raises(rank, m) + rank(w)
  {
    hide WeightsIn, Descends;
    hide sr.Laws;
    var m' := m[t := w];
    WeightsInUniverse(names, m);
    WeightsInUniverse(names, m');
    assert m'.Keys == m.Keys + {t} && m'.Keys - {t} == m.Keys;
    OneMore(Universe(names), m.Keys, t);
    RankSumSplit(rank, m', m'.Keys, t);
    forall u <- m.Keys ensures sr.Le(m[u], m'[u]) { sr.LeReflexive(m[u]); }
    RankSumFalls(sr, rank, m, m', m.Keys);
  }

  lemma RaisedWeight<D(!new), N(!new), W(!new)>(
    sr: Semiring<W>, rank: W -> nat, names: Names<D, N>, m: map<Trans<D, N>, W>, t: Trans<D, N>, w: W)
    requires sr.Laws() && Descends(sr, rank) && t in m && sr.Le(m[t], w) && m[t] != w
    ensures Missing(names, m[t := w]) == Missing(names, m) && Raises(rank, m[t := w]) < Raises(rank, m)
  {
    hide Descends;
    hide sr.Laws;
    var m' := m[t := w];
    assert m'.Keys == m.Keys;
    forall u <- m.Keys ensures sr.Le(m[u], m'[u]) { sr.LeReflexive(m[u]); }
    RankSumFalls(sr, rank, m, m', m.Keys);
  }

  /** A productive event takes one from what is left or, if nothing new came, lowers
      the raises. */
  ghost predicate Lowers<S(!new), F(!new), L(!new), W(!new)>(
    an: Analysis<S, F, L, W>, b: Bounds<S, F, L, W>, rank: W -> nat, s: Moment<S, F, L, W>, s': Moment<S, F, L, W>)
  {
    || (Left(an, b, s') + 1 == Left(an, b, s) && exists w :: RaisesLeft(rank, s') <= RaisesLeft(rank, s) + rank(w))
    || (Left(an, b, s') == Left(an, b, s) && RaisesLeft(rank, s') < RaisesLeft(rank, s))
  }

  lemma CallWeightLowers<S(!new), F(!new), L(!new), W(!new)>(
    an: Analysis<S, F, L, W>, b: Bounds<S, F, L, W>, rank: W -> nat, s: Moment<S, F, L, W>, t: Trans<F, S>, w: W)
    requires an.sr.Laws() && Descends(an.sr, rank) && Within(an, b, s) && Within(an, b, After(an, s, CallWeight(t, w)))
    requires Productive(an, b, s, CallWeight(t, w))
    ensures Lowers(an, b, rank, s, After(an, s, CallWeight(t, w)))
  {
    hide Enabled, CallUniverse, CallRules, FieldRules, WeightsIn, Missing, Raises, Descends;
    hide an.sr.Laws;
    if t in s.callWeights {
      RaisedWeight(an.sr, rank, b.callNames, s.callWeights, t, w);
    } else {
      NewWeight(an.sr, rank, b.callNames, s.callWeights, t, w);
    }
  }

  lemma FieldWeightLowers<S(!new), F(!new), L(!new), W(!new)>(
    an: Analysis<S, F, L, W>, b: Bounds<S, F, L, W>, rank: W -> nat, s: Moment<S, F, L, W>,
    t: Trans<Node<S, F>, FieldLabel<L>>, w: W)
    requires an.sr.Laws() && Descends(an.sr, rank) && Within(an, b, s) && Within(an, b, After(an, s, FieldWeight(t, w)))
    requires Productive(an, b, s, FieldWeight(t, w))
    ensures Lowers(an, b, rank, s, After(an, s, FieldWeight(t, w)))
  {
    hide Enabled, CallUniverse, CallRules, FieldRules, WeightsIn, Missing, Raises, Descends;
    hide an.sr.Laws;
    if t in s.fieldWeights {
      RaisedWeight(an.sr, rank, b.fieldNames, s.fieldWeights, t, w);
    } else {
      NewWeight(an.sr, rank, b.fieldNames, s.fieldWeights, t, w);
    }
  }

  /** A set that gains what it had not. */
  lemma SetLowers<T>(all: set<T>, before: set<T>, after: set<T>, x: T)
    requires after == before + {x} && after <= all && after != before
    ensures |all - after| == |all - before| - 1
  {
    assert x in before ==> before + {x} == before;
    OneMore(all, before, x);
  }

  /** An event that adds to one of the other sets. */
  lemma SetEventLowers<S(!new), F(!new), L(!new), W(!new)>(
    an: Analysis<S, F, L, W>, b: Bounds<S, F, L, W>, rank: W -> nat, s: Moment<S, F, L, W>, ev: Event<S, F, L, W>)
    requires Within(an, b, After(an, s, ev)) && After(an, s, ev) != s
    requires !ev.CallWeight? && !ev.FieldWeight?
    ensures Left(an, b, After(an, s, ev)) == Left(an, b, s) - 1
    ensures RaisesLeft(rank, After(an, s, ev)) == RaisesLeft(rank, s)
  {
    hide CallUniverse, CallRules, FieldRules, CallRule, FieldRule, WeightsIn, Missing, Raises;
    var s' := After(an, s, ev);
    match ev
    case Start(start) => SetLowers(b.starts, s.starts, s'.starts, start);
    case Expand(n) => SetLowers(b.nodes, s.reached, s'.reached, n);
    case ReportCall(n) => SetLowers(CallUniverse(b), s.callContext, s'.callContext, n);
    case ReportField(n) => SetLowers(b.nodes, s.fieldContext, s'.fieldContext, n);
    case AddCallRule(n, succ) => SetLowers(CallRules(an, b.nodes), s.callRules, s'.callRules, CallRule(an, n, succ));
    case AddFieldRule(n, succ) =>
      SetLowers(FieldRules(an, b.nodes), s.fieldRules, s'.fieldRules, FieldRule(an, n, succ));
  }

  lemma EventLowers<S(!new), F(!new), L(!new), W(!new)>(
    an: Analysis<S, F, L, W>, b: Bounds<S, F, L, W>, rank: W -> nat, s: Moment<S, F, L, W>, ev: Event<S, F, L, W>)
    requires an.sr.Laws() && Descends(an.sr, rank) && Within(an, b, s) && Within(an, b, After(an, s, ev))
    requires Productive(an, b, s, ev)
    ensures Lowers(an, b, rank, s, After(an, s, ev))
  {
    hide Enabled, Within, Left, RaisesLeft, Descends;
    hide an.sr.Laws;
    match ev
    case CallWeight(t, w) => CallWeightLowers(an, b, rank, s, t, w);
    case FieldWeight(t, w) => FieldWeightLowers(an, b, rank, s, t, w);
    case _ =>
      SetEventLowers(an, b, rank, s, ev);
      assert RaisesLeft(rank, After(an, s, ev)) <= RaisesLeft(rank, s) + rank(an.sr.one);
  }

  // ---------------------------------------------------------------- runs

  /** s is the state after the events, each of which was productive. */
  ghost predicate Progresses<S(!new), F(!new), L(!new), W(!new)>(
    an: Analysis<S, F, L, W>, b: Bounds<S, F, L, W>, evs: seq<Event<S, F, L, W>>, s: Moment<S, F, L, W>)
    decreases |evs|
  {
    if evs == [] then s == Nothing()
    else
      var k := |evs| - 1;
      exists before ::
        Progresses(an, b, evs[..k], before) && Productive(an, b, before, evs[k]) && s == After(an, before, evs[k])
  }

  lemma NothingWithin<S(!new), F(!new), L(!new), W(!new)>(an: Analysis<S, F, L, W>, b: Bounds<S, F, L, W>)
    ensures Within(an, b, Nothing()) && Justifiable(an, Nothing())
  {
  }

  /** No run has more events than (height + 1) for each start, node, report, rule and
      transition there can be. */
  lemma {:induction false} RunsAreBounded<S(!new), F(!new), L(!new), W(!new)>(
    an: Analysis<S, F, L, W>, b: Bounds<S, F, L, W>, rank: W -> nat, height: nat, evs: seq<Event<S, F, L, W>>,
    s: Moment<S, F, L, W>)
    requires ValidAnalysis(an) && Descends(an.sr, rank) && (forall w :: rank(w) <= height) && Suffices(an, b)
    requires Progresses(an, b, evs, s)
    ensures Within(an, b, s) && Justifiable(an, s)
    ensures |evs| + (height + 1) * Left(an, b, s) + RaisesLeft(rank, s) <= (height + 1) * Left(an, b, Nothing())
    decreases |evs|
  {
    hide Within, Justifiable, Suffices, Productive, Left, RaisesLeft, Descends;
    NothingWithin(an, b);
    if evs == [] {
      assert RaisesLeft(rank, s) == 0 by { NoRaisesLeft<S, F, L, W>(rank); }
    } else {
      var k := |evs| - 1;
      var before :| Progresses(an, b, evs[..k], before) && Productive(an, b, before, evs[k]) &&
        s == After(an, before, evs[k]);
      RunsAreBounded(an, b, rank, height, evs[..k], before);
      assert Enabled(an, before, evs[k]) by { ProductiveEnabled(an, b, before, evs[k]); }
      EventKeeps(an, before, evs[k]);
      EventWithin(an, b, before, evs[k]);
      EventLowers(an, b, rank, before, evs[k]);
      if Left(an, b, before) == Left(an, b, s) + 1 {
        OneLess(height + 1, Left(an, b, s), Left(an, b, before));
      }
    }
  }

  lemma OneLess(c: nat, less: nat, more: nat)
    requires more == less + 1
    ensures c * more == c * less + c
  {
  }

  lemma NoRaisesLeft<S(!new), F(!new), L(!new), W(!new)>(rank: W -> nat)
    ensures RaisesLeft(rank, Nothing<S, F, L, W>()) == 0
  {
  }

  lemma ProductiveEnabled<S(!new), F(!new), L(!new), W(!new)>(
    an: Analysis<S, F, L, W>, b: Bounds<S, F, L, W>, s: Moment<S, F, L, W>, ev: Event<S, F, L, W>)
    requires Productive(an, b, s, ev)
    ensures Enabled(an, s, ev)
  {
  }

  /** Without a common height, a run still ends. */
  lemma {:induction false} NoEndlessRun<S(!new), F(!new), L(!new), W(!new)>(
    an: Analysis<S, F, L, W>, b: Bounds<S, F, L, W>, rank: W -> nat,
    states: nat -> Moment<S, F, L, W>, events: nat -> Event<S, F, L, W>, k: nat)
    requires ValidAnalysis(an) && Descends(an.sr, rank) && Suffices(an, b)
    requires Within(an, b, states(k)) && Justifiable(an, states(k))
    requires forall i :: i >= k ==>
      Productive(an, b, states(i), events(i)) && states(i + 1) == After(an, states(i), events(i))
    ensures false
    decreases Left(an, b, states(k)), RaisesLeft(rank, states(k))
  {
    hide Within, Justifiable, Suffices, Productive, Left, RaisesLeft, Descends;
    ProductiveEnabled(an, b, states(k), events(k));
    EventKeeps(an, states(k), events(k));
    EventWithin(an, b, states(k), events(k));
    EventLowers(an, b, rank, states(k), events(k));
    NoEndlessRun(an, b, rank, states, events, k + 1);
  }

  // ---------------------------------------------------------------- where runs end

  /** A weight that no productive event can raise is above everything derivable. */
  lemma NothingToRaise<D(!new), N(!new), W(!new)>(sys: System<D, N, W>, m: map<Trans<D, N>, W>)
    requires sys.sr.Laws() && AllDerivable(sys, m)
    requires forall t, w :: Derivable(sys, t, w) && (t in m ==> sys.sr.Le(m[t], w)) ==> m[t := w] == m
    ensures Saturated(sys, m)
  {
    hide sys.sr.Laws;
    forall d | Valid(sys, d) ensures Covers(sys, m, d) {
      var t, w := Concl(d), Value(sys.sr, d);
      assert Derivable(sys, t, w);
      assert m[t := w].Keys == m.Keys + {t};
      if t in m {
        var d' := DerivationOf(sys, m, t);
        sys.sr.CombineIsJoin(m[t], w);
        assert Valid(sys, Join(d', d)) && Value(sys.sr, Join(d', d)) == sys.sr.combine(m[t], w);
        assert Derivable(sys, t, sys.sr.combine(m[t], w));
        assert m[t := sys.sr.combine(m[t], w)][t] == m[t];
      }
    }
    CoveringIsSaturated(sys, m);
  }

  ghost predicate Stuck<S(!new), F(!new), L(!new), W(!new)>(
    an: Analysis<S, F, L, W>, b: Bounds<S, F, L, W>, s: Moment<S, F, L, W>)
  {
    forall ev :: !Productive(an, b, s, ev)
  }

  lemma StuckRules<S(!new), F(!new), L(!new), W(!new)>(
    an: Analysis<S, F, L, W>, b: Bounds<S, F, L, W>, s: Moment<S, F, L, W>)
    requires Justifiable(an, s) && Stuck(an, b, s)
    ensures s.callRules == CallRules(an, s.reached) && s.fieldRules == FieldRules(an, s.reached)
  {
    forall r | r in CallRules(an, s.reached) ensures r in s.callRules {
      var n, succ :| n in s.reached && succ in an.successors(n) && r == CallRule(an, n, succ);
      assert !Productive(an, b, s, AddCallRule(n, succ));
    }
    forall r | r in FieldRules(an, s.reached) ensures r in s.fieldRules {
      var n, succ :| n in s.reached && succ in an.successors(n) && r == FieldRule(an, n, succ);
      assert !Productive(an, b, s, AddFieldRule(n, succ));
    }
  }

  lemma StuckReports<S(!new), F(!new), L(!new), W(!new)>(
    an: Analysis<S, F, L, W>, b: Bounds<S, F, L, W>, s: Moment<S, F, L, W>)
    requires Stuck(an, b, s)
    ensures b.starts <= s.starts && s.callContext * s.fieldContext <= s.reached
    ensures CallNodes(s.callWeights.Keys) <= s.callContext && FieldNodes(s.fieldWeights.Keys) <= s.fieldContext
  {
    hide CallNodes, FieldNodes;
    forall start <- b.starts ensures start in s.starts { assert !Productive(an, b, s, Start(start)); }
    forall n | n in s.callContext * s.fieldContext ensures n in s.reached { assert !Productive(an, b, s, Expand(n)); }
    forall n <- CallNodes(s.callWeights.Keys) ensures n in s.callContext {
      assert !Productive(an, b, s, ReportCall(n));
    }
    forall n <- FieldNodes(s.fieldWeights.Keys) ensures n in s.fieldContext {
      assert !Productive(an, b, s, ReportField(n));
    }
  }

  lemma StuckWeights<S(!new), F(!new), L(!new), W(!new)>(
    an: Analysis<S, F, L, W>, b: Bounds<S, F, L, W>, s: Moment<S, F, L, W>)
    requires an.sr.Laws() && Justifiable(an, s) && Stuck(an, b, s)
    ensures Saturated(Calls(an, s), s.callWeights) && Saturated(Fields(an, s), s.fieldWeights)
  {
    hide Derivable, Saturated, CallReachable, FieldReachable, Minimal;
    hide an.sr.Laws;
    StuckRules(an, b, s);
    assert Calls(an, s) == CallSystem(an, s.starts, s.reached) && Fields(an, s) == FieldSystem(an, s.starts, s.reached);
    forall t, w | Derivable(Calls(an, s), t, w) && (t in s.callWeights ==> an.sr.Le(s.callWeights[t], w))
      ensures s.callWeights[t := w] == s.callWeights
    {
      assert !Productive(an, b, s, CallWeight(t, w));
    }
    NothingToRaise(Calls(an, s), s.callWeights);
    forall t, w | Derivable(Fields(an, s), t, w) && (t in s.fieldWeights ==> an.sr.Le(s.fieldWeights[t], w))
      ensures s.fieldWeights[t := w] == s.fieldWeights
    {
      assert !Productive(an, b, s, FieldWeight(t, w));
    }
    NothingToRaise(Fields(an, s), s.fieldWeights);
  }

  lemma StartsAfter<S(!new), F(!new), L(!new), W(!new)>(
    an: Analysis<S, F, L, W>, b: Bounds<S, F, L, W>, s: Moment<S, F, L, W>, ev: Event<S, F, L, W>)
    requires Productive(an, b, s, ev) && s.starts <= b.starts
    ensures After(an, s, ev).starts <= b.starts
  {
    hide Enabled;
  }

  lemma {:induction false} ProgressComes<S(!new), F(!new), L(!new), W(!new)>(
    an: Analysis<S, F, L, W>, b: Bounds<S, F, L, W>, evs: seq<Event<S, F, L, W>>, s: Moment<S, F, L, W>)
    requires Progresses(an, b, evs, s)
    ensures Comes(an, evs, s) && s.starts <= b.starts
    decreases |evs|
  {
    hide Enabled, Productive, After;
    if evs != [] {
      var k := |evs| - 1;
      var before :| Progresses(an, b, evs[..k], before) && Productive(an, b, before, evs[k]) &&
        s == After(an, before, evs[k]);
      ProgressComes(an, b, evs[..k], before);
      ProductiveEnabled(an, b, before, evs[k]);
      StartsAfter(an, b, before, evs[k]);
    }
  }

  /** A run that no productive event continues is finished: it has taken every start
      and reached exactly the least synchronized set. */
  lemma StuckIsFinished<S(!new), F(!new), L(!new), W(!new)>(
    an: Analysis<S, F, L, W>, b: Bounds<S, F, L, W>, evs: seq<Event<S, F, L, W>>, s: Moment<S, F, L, W>)
    requires ValidAnalysis(an) && Progresses(an, b, evs, s) && Stuck(an, b, s)
    ensures Finished(an, s) && s.starts == b.starts
    ensures Synchronized(an, b.starts, s.reached) && Minimal(an, b.starts, s.reached)
  {
    hide Comes, Progresses, Stuck, Justifiable, Saturated, Minimal, Synchronized;
    ProgressComes(an, b, evs, s);
    RunsJustifiable(an, evs, s);
    StuckRules(an, b, s);
    StuckReports(an, b, s);
    StuckWeights(an, b, s);
    AnyOrderReachesLeast(an, evs, s);
  }
}
