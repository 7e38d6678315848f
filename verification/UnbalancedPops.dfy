/** Pops that empty the stack: the unbalancedPops table. */
module UnbalancedPops {
  import opened Semirings
  import opened Pushdown
  import opened PAutomata
  import opened Justification
  import opened Exactness

  type PopTable<!D(==), !N(==), W> = map<(D, Trans<D, N>), W>

  /** r pops t, and nothing is left below it. */
  ghost predicate PopsLast<D(!new), N(!new), W(!new)>(
    sys: System<D, N, W>, m: map<Trans<D, N>, W>, r: Rule<D, N, W>, t: Trans<D, N>)
  {
    PopsAt(sys, m, r, t) && !t.target.Gen?
  }

  /** Every pop out of a final transition has an entry with at least the
      transition's weight, before the rule's own weight is applied. */
  ghost predicate TableSaturated<D(!new), N(!new), W(!new)>(
    sys: System<D, N, W>, m: map<Trans<D, N>, W>, table: PopTable<D, N, W>)
  {
    forall r <- sys.rules, t <- m :: PopsLast(sys, m, r, t) ==>
      (r.s2, t) in table && sys.sr.Le(m[t], table[(r.s2, t)])
  }

  ghost predicate TableJustified<D(!new), N(!new), W(!new)>(
    sys: System<D, N, W>, m: map<Trans<D, N>, W>, table: PopTable<D, N, W>)
  {
    forall k <- table ::
      && k.1 in m && sys.sr.Le(table[k], m[k.1])
      && exists r <- sys.rules :: PopsLast(sys, m, r, k.1) && r.s2 == k.0
  }

  /** The run that ends with rule r, which pops the last symbol into state p. */
  ghost predicate EmptyingRun<D(!new), N(!new), W(!new)>(
    sys: System<D, N, W>, p: D, from: Config<D, N>, w0: W, before: seq<Rule<D, N, W>>, r: Rule<D, N, W>)
  {
    && r in sys.rules && r.Pop? && r.s2 == p
    && IsRun(sys, Sink, Config(r.s1, [r.l1]), from, w0, before)
  }

  ghost predicate BoundsEmptyingRuns<D(!new), N(!new), W(!new)>(sys: System<D, N, W>, p: D, u: W) {
    forall from, w0, before, r ::
      EmptyingRun(sys, p, from, w0, before, r) ==> sys.sr.Le(WeightOfRun(sys.sr, w0, before), u)
  }

  ghost predicate BoundsEntries<D(!new), N(!new), W(!new)>(sr: Semiring<W>, table: PopTable<D, N, W>, p: D, u: W) {
    forall k <- table :: k.0 == p ==> sr.Le(table[k], u)
  }

  /** An entry is backed by runs to a configuration whose only symbol is popped. */
  lemma EntryJustified<D(!new), N(!new), W(!new)>(
    sys: System<D, N, W>, m: map<Trans<D, N>, W>, r: Rule<D, N, W>, t: Trans<D, N>)
    requires sys.sr.Laws() && WellFormed(sys) && AllDerivable(sys, m)
    requires t in m && PopsLast(sys, m, r, t)
    ensures Justified(sys, Sink, Config(r.s1, [r.l1]), m[t], WeightsExact(sys))
  {
    var sr := sys.sr;
    TransitionJustified(sys, m, t);
    if t.start == Control(r.s1) {
      assert ConfigOf(t).stack == [r.l1];
    } else {
      var e :| e in m && e.start == Control(r.s1) && e.lbl in sys.empties && e.target == t.start;
      TransitionJustified(sys, m, e);
      assert e.lbl == Eps;
      ComposeJustified(sys, Sink, e.target, [r.l1], m[t], ConfigOf(e), m[e]);
      assert ConfigOf(e).stack + [r.l1] == [r.l1];
      var ev :| Supports(sys, Sink, Config(r.s1, [r.l1]), ev)
        && (WeightsExact(sys) ==> sr.Le(sr.extend(m[t], m[e]), Total(sr, ev)));
      if WeightsExact(sys) {
        assert sr.Le(sr.one, m[e]);
        sr.LeReflexive(m[t]);
        sr.ExtendMonotone(m[t], m[t], sr.one, m[e]);
        sr.LeTransitive(m[t], sr.extend(m[t], m[e]), Total(sr, ev));
      }
    }
  }

  lemma {:induction false} EpsFreeLength<D(!new), N(!new)>(path: seq<Trans<D, N>>)
    requires EpsFree(path)
    ensures |Word(path)| == |path|
    decreases |path|
  {
    if path != [] {
      assert path[0] in path && (forall t <- path[1..] :: t in path);
      EpsFreeLength(path[1..]);
    }
  }

  /** A run to a one-symbol configuration is covered by a single transition. */
  lemma LastSymbolCovered<D(!new), N(!new), W(!new)>(
    sys: System<D, N, W>, m: map<Trans<D, N>, W>, c: Config<D, N>, from: Config<D, N>, w0: W, rs: seq<Rule<D, N, W>>)
    requires sys.sr.Laws() && WellFormed(sys) && Solution(sys, m)
    requires IsRun(sys, Sink, c, from, w0, rs) && |c.stack| == 1
    ensures AtLeast(sys.sr, m, Trans(Control(c.state), Sym(c.stack[0]), Sink), WeightOfRun(sys.sr, w0, rs))
  {
    DerivableShaped(sys, m);
    var path := RunsCovered(sys, m, Sink, c, from, w0, rs);
    var x := WeightOfRun(sys.sr, w0, rs);
    CoverParts(sys.sr, m, c, Sink, path, x);
    var rest := path[1..];
    EpsFreeLength(rest);
    assert path == [path[0]] && Chain(m, path[0].target, rest, Sink);
    assert PathWeight(sys.sr, m, Control(c.state), path, Sink) == m[path[0]];
  }

  // ---------------------------------------------------------------- single entries

  lemma TableDetermined<D(!new), N(!new), W(!new)>(
    sys: System<D, N, W>, m: map<Trans<D, N>, W>, table: PopTable<D, N, W>)
    requires sys.sr.Laws() && TableSaturated(sys, m, table) && TableJustified(sys, m, table)
    ensures forall k :: k in table <==> k.1 in m && exists r <- sys.rules :: PopsLast(sys, m, r, k.1) && r.s2 == k.0
    ensures forall k <- table :: table[k] == m[k.1]
  {
    forall k <- table ensures table[k] == m[k.1] {
      var r :| r in sys.rules && PopsLast(sys, m, r, k.1) && r.s2 == k.0;
      assert k == (r.s2, k.1);
      sys.sr.LeAntisymmetric(table[k], m[k.1]);
    }
  }

  /** u bounds the entry k exactly if it bounds the runs to the pop: to the
      configuration popped or, when the pop passed over a return, to the call. */
  ghost predicate EntryBoundExact<D(!new), N(!new), W(!new)>(
    sys: System<D, N, W>, table: PopTable<D, N, W>, k: (D, Trans<D, N>), u: W)
    requires k in table
  {
    && k.1.lbl.Sym? && k.1.target == Sink
    && match k.1.start
       case Control(d) => sys.sr.Le(table[k], u) <==> BoundsRuns(sys, Config(d, [k.1.lbl.n]), u)
       case Gen(d, n) =>
         Eps in sys.empties && (sys.sr.Le(table[k], u) <==> BoundsCallingRuns(sys, d, n, k.1.lbl.n, u))
       case Sink => false
  }

  /** The entry k of a transition out of a control state weighs what the runs
      weigh to the configuration whose only symbol is popped. */
  lemma EntryExact<D(!new), N(!new), W(!new)>(
    sys: System<D, N, W>, m: map<Trans<D, N>, W>, table: PopTable<D, N, W>, k: (D, Trans<D, N>), u: W)
    requires sys.sr.Laws() && WellFormed(sys) && Solution(sys, m) && WeightsExact(sys)
    requires TableSaturated(sys, m, table) && TableJustified(sys, m, table)
    requires k in table && k.1.start.Control?
    ensures k.1.lbl.Sym? && k.1.target == Sink
    ensures sys.sr.Le(table[k], u) <==> BoundsRuns(sys, Config(k.1.start.d, [k.1.lbl.n]), u)
  {
    var sr, t := sys.sr, k.1;
    TableDetermined(sys, m, table);
    TransitionJustified(sys, m, t);
    var c := Config(t.start.d, [t.lbl.n]);
    assert ConfigOf(t) == c;
    var e :| Supports(sys, Sink, c, e) && sr.Le(m[t], Total(sr, e));
    if BoundsRuns(sys, c, u) {
      TotalBounded(sys, c, e, u);
      sr.LeTransitive(m[t], Total(sr, e), u);
    }
    if sr.Le(m[t], u) {
      forall from, w0, rs | IsRun(sys, Sink, c, from, w0, rs)
        ensures sr.Le(WeightOfRun(sr, w0, rs), u)
      {
        LastSymbolCovered(sys, m, c, from, w0, rs);
        sr.LeTransitive(WeightOfRun(sr, w0, rs), m[t], u);
      }
    }
  }

  /** The run that ends with rule r, which pushes the last symbol away and comes
      to the callee entry (p, n) with l below it. */
  ghost predicate CallingRun<D(!new), N(!new), W(!new)>(
    sys: System<D, N, W>, p: D, n: N, l: N,
    c: Config<D, N>, from: Config<D, N>, w0: W, before: seq<Rule<D, N, W>>, r: Rule<D, N, W>)
  {
    && r in sys.rules && r.Push? && IsRun(sys, Sink, c, from, w0, before)
    && Apply(r, c) == Some(Config(p, [n, l]))
  }

  ghost predicate BoundsCallingRuns<D(!new), N(!new), W(!new)>(sys: System<D, N, W>, p: D, n: N, l: N, u: W) {
    forall c, from, w0, before, r ::
      CallingRun(sys, p, n, l, c, from, w0, before, r) ==> sys.sr.Le(WeightOfRun(sys.sr, w0, before + [r]), u)
  }

  lemma {:induction false} ThenBounded<D(!new), N(!new), W(!new)>(
    sys: System<D, N, W>, p: D, n: N, l: N, c: Config<D, N>, e: Evidence<D, N, W>, r: Rule<D, N, W>, u: W)
    requires sys.sr.Laws() && Supports(sys, Sink, c, e) && BoundsCallingRuns(sys, p, n, l, u)
    requires r in sys.rules && r.Push? && Apply(r, c) == Some(Config(p, [n, l]))
    ensures sys.sr.Le(sys.sr.extend(Total(sys.sr, e), r.w), u)
  {
    ThenSupports(sys, Sink, c, e, r);
    match e
    case Run(from, w0, rs) => assert CallingRun(sys, p, n, l, c, from, w0, rs, r);
    case Both(a, b) =>
      ThenBounded(sys, p, n, l, c, a, r, u);
      ThenBounded(sys, p, n, l, c, b, r, u);
      ThenSupports(sys, Sink, c, a, r);
      ThenSupports(sys, Sink, c, b, r);
      sys.sr.CombineIsJoin(Total(sys.sr, Then(a, r)), Total(sys.sr, Then(b, r)));
  }

  /** What is derived for a call transition is accounted for by the runs that end
      with the call. */
  lemma {:induction false} CallsBounded<D(!new), N(!new), W(!new)>(
    sys: System<D, N, W>, d: Deriv<D, N, W>, p: D, n: N, l: N, u: W)
    requires sys.sr.Laws() && WellFormed(sys) && WeightsExact(sys) && BoundsCallingRuns(sys, p, n, l, u)
    requires Valid(sys, d) && Concl(d) == Trans(Gen(p, n), Sym(l), Sink)
    ensures sys.sr.Le(Value(sys.sr, d), u)
  {
    var sr := sys.sr;
    match d
    case Join(a, b) =>
      CallsBounded(sys, a, p, n, l, u);
      CallsBounded(sys, b, p, n, l, u);
      sr.CombineIsJoin(Value(sr, a), Value(sr, b));
    case CallStep(r, d1) =>
      DerivationsJustified(sys, d1);
      RuleStep(sys.empties, r, Concl(d1));
      var c := ConfigOf(Concl(d1));
      var e :| Supports(sys, Sink, c, e) && sr.Le(Value(sr, d1), Total(sr, e));
      assert ConfigOf(Concl(d)) == Config(p, [n, l]);
      ThenBounded(sys, p, n, l, c, e, r, u);
      sr.LeReflexive(r.w);
      sr.ExtendMonotone(Value(sr, d1), Total(sr, e), r.w, r.w);
      sr.LeTransitive(Value(sr, d), sr.extend(Total(sr, e), r.w), u);
    case Init(_, _) =>
    case NormalStep(_, _) =>
    case EntryStep(_, _) =>
    case PopStep(_, _) =>
    case SkipPopStep(_, _, _) =>
    case ReturnStep(_, _) =>
  }

  lemma CallShape<D, N, W>(r: Rule<D, N, W>, c: Config<D, N>, p: D, n: N, l: N)
    requires r.Push? && Apply(r, c) == Some(Config(p, [n, l]))
    ensures |c.stack| == 1 && Matches(r.p1, c.stack[0])
    ensures c.state == r.s1 && p == r.s2 && n == r.l2 && l == Resolve(r.callSite, c.stack[0])
  {
    var pushed := [r.l2, Resolve(r.callSite, c.stack[0])] + c.stack[1..];
    assert pushed[0] == r.l2 && pushed[1] == Resolve(r.callSite, c.stack[0]) && |pushed| == 1 + |c.stack|;
    assert pushed == [n, l];
  }

  lemma CallingRunCovered<D(!new), N(!new), W(!new)>(
    sys: System<D, N, W>, m: map<Trans<D, N>, W>, p: D, n: N, l: N,
    c: Config<D, N>, from: Config<D, N>, w0: W, before: seq<Rule<D, N, W>>, r: Rule<D, N, W>)
    requires sys.sr.Laws() && WellFormed(sys) && Solution(sys, m)
    requires CallingRun(sys, p, n, l, c, from, w0, before, r)
    ensures AtLeast(sys.sr, m, Trans(Gen(p, n), Sym(l), Sink), WeightOfRun(sys.sr, w0, before + [r]))
  {
    hide sys.sr.Laws, Apply;
    var sr, x := sys.sr, WeightOfRun(sys.sr, w0, before);
    CallShape(r, c, p, n, l);
    LastSymbolCovered(sys, m, c, from, w0, before);
    var t := Trans(Control(c.state), Sym(c.stack[0]), Sink);
    ThenSupports(sys, Sink, c, Run(from, w0, before), r);
    assert PushFires(r, t) && CallResult(r, t) == Trans(Gen(p, n), Sym(l), Sink);
    sr.LeReflexive(r.w);
    sr.ExtendMonotone(x, m[t], r.w, r.w);
    sr.LeTransitive(sr.extend(x, r.w), sr.extend(m[t], r.w), m[CallResult(r, t)]);
  }

  /** An entry of a transition out of a generated state arises only if epsilon is
      an Empty: its pop passes over the epsilon transition of a return. It weighs
      what the runs weigh that end with a call to the callee returned from. */
  lemma SkippedEntryExact<D(!new), N(!new), W(!new)>(
    sys: System<D, N, W>, m: map<Trans<D, N>, W>, table: PopTable<D, N, W>, k: (D, Trans<D, N>), u: W)
    requires sys.sr.Laws() && WellFormed(sys) && Solution(sys, m)
    requires TableSaturated(sys, m, table) && TableJustified(sys, m, table)
    requires k in table && !k.1.start.Control?
    ensures Eps in sys.empties && k.1.start.Gen? && k.1.lbl.Sym? && k.1.target == Sink
    ensures WeightsExact(sys) ==>
      (sys.sr.Le(table[k], u) <==> BoundsCallingRuns(sys, k.1.start.d, k.1.start.n, k.1.lbl.n, u))
  {
    var sr, t := sys.sr, k.1;
    TableDetermined(sys, m, table);
    DerivableShaped(sys, m);
    var r :| r in sys.rules && PopsLast(sys, m, r, t) && r.s2 == k.0;
    var e :| e in m && e.start == Control(r.s1) && e.lbl in sys.empties && e.target == t.start;
    assert Shaped(sys.empties, e) && Shaped(sys.empties, t);
    var p, n, l := t.start.d, t.start.n, t.lbl.n;
    if WeightsExact(sys) && BoundsCallingRuns(sys, p, n, l, u) {
      assert Derivable(sys, t, m[t]);
      var d :| Valid(sys, d) && Concl(d) == t && Value(sr, d) == m[t];
      CallsBounded(sys, d, p, n, l, u);
    }
    if sr.Le(m[t], u) {
      forall c, from, w0, before, r' | CallingRun(sys, p, n, l, c, from, w0, before, r')
        ensures sr.Le(WeightOfRun(sr, w0, before + [r']), u)
      {
        CallingRunCovered(sys, m, p, n, l, c, from, w0, before, r');
        sr.LeTransitive(WeightOfRun(sr, w0, before + [r']), m[t], u);
      }
    }
  }

  // ---------------------------------------------------------------- all entries of a state

  /** The empty stack is reachable in state p exactly if the table has an entry
      for p, each of these entries weighs what the runs weigh up to just before its
      pop, and so do all of them together. */
  lemma EmptyStackExact<D(!new), N(!new), W(!new)>(
    sys: System<D, N, W>, m: map<Trans<D, N>, W>, table: PopTable<D, N, W>, p: D, u: W)
    requires sys.sr.Laws() && WellFormed(sys) && Solution(sys, m)
    requires TableSaturated(sys, m, table) && TableJustified(sys, m, table)
    ensures (exists k <- table :: k.0 == p) <==> Reachable(sys, Config(p, []))
    ensures WeightsExact(sys) ==> (BoundsEntries(sys.sr, table, p, u) <==> BoundsEmptyingRuns(sys, p, u))
    ensures WeightsExact(sys) ==> forall k <- table :: k.0 == p ==> EntryBoundExact(sys, table, k, u)
  {
    forall k <- table | k.0 == p && WeightsExact(sys) ensures EntryBoundExact(sys, table, k, u) {
      if k.1.start.Control? {
        EntryExact(sys, m, table, k, u);
      } else {
        SkippedEntryExact(sys, m, table, k, u);
      }
    }
    EntriesReachable(sys, m, table, p);
    EmptyReachableHasEntry(sys, m, table, p);
    if WeightsExact(sys) {
      if BoundsEmptyingRuns(sys, p, u) {
        EntriesBounded(sys, m, table, p, u);
      }
      if BoundsEntries(sys.sr, table, p, u) {
        EmptyingRunsBounded(sys, m, table, p, u);
      }
    }
  }

  lemma EntriesReachable<D(!new), N(!new), W(!new)>(
    sys: System<D, N, W>, m: map<Trans<D, N>, W>, table: PopTable<D, N, W>, p: D)
    requires sys.sr.Laws() && WellFormed(sys) && Solution(sys, m) && TableJustified(sys, m, table)
    ensures (exists k <- table :: k.0 == p) ==> Reachable(sys, Config(p, []))
  {
    if k :| k in table && k.0 == p {
      var r :| r in sys.rules && PopsLast(sys, m, r, k.1) && r.s2 == p;
      EntryReachable(sys, m, r, k.1);
    }
  }

  lemma EntryReachable<D(!new), N(!new), W(!new)>(
    sys: System<D, N, W>, m: map<Trans<D, N>, W>, r: Rule<D, N, W>, t: Trans<D, N>)
    requires sys.sr.Laws() && WellFormed(sys) && AllDerivable(sys, m)
    requires r in sys.rules && t in m && PopsLast(sys, m, r, t)
    ensures Reachable(sys, Config(r.s2, []))
  {
    EntryJustified(sys, m, r, t);
    var c := Config(r.s1, [r.l1]);
    var e :| Supports(sys, Sink, c, e);
    assert c.stack[1..] == [] && Apply(r, c) == Some(Config(r.s2, []));
    ThenSupports(sys, Sink, c, e, r);
    SupportHasRun(sys, Config(r.s2, []), Then(e, r));
  }

  lemma EmptyReachableHasEntry<D(!new), N(!new), W(!new)>(
    sys: System<D, N, W>, m: map<Trans<D, N>, W>, table: PopTable<D, N, W>, p: D)
    requires sys.sr.Laws() && WellFormed(sys) && Solution(sys, m) && TableSaturated(sys, m, table)
    ensures Reachable(sys, Config(p, [])) ==> exists k <- table :: k.0 == p
  {
    if from, w0, rs :| IsRun(sys, Sink, Config(p, []), from, w0, rs) {
      assert rs != [];
      var k := |rs| - 1;
      var before, r := rs[..k], rs[k];
      assert rs == before + [r];
      var mid := RunPrefix(from, before, r);
      assert r.Pop? && r.s2 == p && mid == Config(r.s1, [r.l1]);
      LastSymbolCovered(sys, m, mid, from, w0, before);
      var t := Trans(Control(r.s1), Sym(r.l1), Sink);
      assert PopsLast(sys, m, r, t);
      assert (p, t) in table;
    }
  }

  lemma EntriesBounded<D(!new), N(!new), W(!new)>(
    sys: System<D, N, W>, m: map<Trans<D, N>, W>, table: PopTable<D, N, W>, p: D, u: W)
    requires sys.sr.Laws() && WellFormed(sys) && Solution(sys, m) && TableJustified(sys, m, table)
    requires WeightsExact(sys) && BoundsEmptyingRuns(sys, p, u)
    ensures BoundsEntries(sys.sr, table, p, u)
  {
    forall k <- table | k.0 == p
      ensures sys.sr.Le(table[k], u)
    {
      var r :| r in sys.rules && PopsLast(sys, m, r, k.1) && r.s2 == p;
      EntryJustified(sys, m, r, k.1);
      var c := Config(r.s1, [r.l1]);
      var e :| Supports(sys, Sink, c, e) && sys.sr.Le(m[k.1], Total(sys.sr, e));
      assert BoundsRuns(sys, c, u) by {
        forall from, w0, rs | IsRun(sys, Sink, c, from, w0, rs)
          ensures sys.sr.Le(WeightOfRun(sys.sr, w0, rs), u)
        {
          assert EmptyingRun(sys, p, from, w0, rs, r);
        }
      }
      TotalBounded(sys, c, e, u);
      sys.sr.LeTransitive(table[k], m[k.1], Total(sys.sr, e));
      sys.sr.LeTransitive(table[k], Total(sys.sr, e), u);
    }
  }

  lemma EmptyingRunsBounded<D(!new), N(!new), W(!new)>(
    sys: System<D, N, W>, m: map<Trans<D, N>, W>, table: PopTable<D, N, W>, p: D, u: W)
    requires sys.sr.Laws() && WellFormed(sys) && Solution(sys, m) && TableSaturated(sys, m, table)
    requires BoundsEntries(sys.sr, table, p, u)
    ensures BoundsEmptyingRuns(sys, p, u)
  {
    forall from, w0, before, r | EmptyingRun(sys, p, from, w0, before, r)
      ensures sys.sr.Le(WeightOfRun(sys.sr, w0, before), u)
    {
      var c := Config(r.s1, [r.l1]);
      LastSymbolCovered(sys, m, c, from, w0, before);
      var t := Trans(Control(r.s1), Sym(r.l1), Sink);
      assert PopsLast(sys, m, r, t);
      var x := WeightOfRun(sys.sr, w0, before);
      sys.sr.LeTransitive(x, m[t], table[(p, t)]);
      sys.sr.LeTransitive(x, table[(p, t)], u);
    }
  }
}
