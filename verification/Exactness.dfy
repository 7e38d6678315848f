/** A solution of the saturation constraints accepts exactly the reachable
    configurations, with the meet-over-all-valid-paths weights. */
module Exactness {
  import opened Semirings
  import opened Pushdown
  import opened PAutomata
  import opened Justification

  // ---------------------------------------------------------------- paths of the automaton

  ghost predicate Chain<D(!new), N(!new), W(!new)>(
    m: map<Trans<D, N>, W>, s: State<D, N>, path: seq<Trans<D, N>>, q: State<D, N>)
    decreases |path|
  {
    if path == [] then s == q
    else path[0] in m && path[0].start == s && Chain(m, path[0].target, path[1..], q)
  }

  function Word<D, N>(path: seq<Trans<D, N>>): seq<N>
    decreases |path|
  {
    if path == [] then [] else Letters(path[0].lbl) + Word(path[1..])
  }

  /** The weight of a path t1 .. tn is w(tn) extended by .. extended by w(t1). */
  ghost function PathWeight<D(!new), N(!new), W(!new)>(
    sr: Semiring<W>, m: map<Trans<D, N>, W>, s: State<D, N>, path: seq<Trans<D, N>>, q: State<D, N>): W
    requires Chain(m, s, path, q)
    decreases |path|
  {
    if path == [] then sr.one
    else sr.extend(PathWeight(sr, m, path[0].target, path[1..], q), m[path[0]])
  }

  ghost predicate Accepts<D(!new), N(!new), W(!new)>(m: map<Trans<D, N>, W>, c: Config<D, N>, path: seq<Trans<D, N>>) {
    Chain(m, Control(c.state), path, Sink) && Word(path) == c.stack
  }

  ghost function AcceptWeight<D(!new), N(!new), W(!new)>(
    sr: Semiring<W>, m: map<Trans<D, N>, W>, c: Config<D, N>, path: seq<Trans<D, N>>): W
    requires Accepts(m, c, path)
  {
    PathWeight(sr, m, Control(c.state), path, Sink)
  }

  /** u is above the weight of every run to c. */
  ghost predicate BoundsRuns<D(!new), N(!new), W(!new)>(sys: System<D, N, W>, c: Config<D, N>, u: W) {
    forall from, w0, rs :: IsRun(sys, Sink, c, from, w0, rs) ==> sys.sr.Le(WeightOfRun(sys.sr, w0, rs), u)
  }

  /** u is above the weight of every accepting path of c. */
  ghost predicate BoundsPaths<D(!new), N(!new), W(!new)>(
    sr: Semiring<W>, m: map<Trans<D, N>, W>, c: Config<D, N>, u: W)
  {
    forall path :: Accepts(m, c, path) ==> sr.Le(AcceptWeight(sr, m, c, path), u)
  }

  ghost predicate Reachable<D(!new), N(!new), W(!new)>(sys: System<D, N, W>, c: Config<D, N>) {
    exists from, w0, rs :: IsRun(sys, Sink, c, from, w0, rs)
  }

  ghost predicate Accepted<D(!new), N(!new), W(!new)>(m: map<Trans<D, N>, W>, c: Config<D, N>) {
    exists path :: Accepts(m, c, path)
  }

  // ---------------------------------------------------------------- accepted implies reachable

  /** Any path into q witnesses runs into q: from a generated state's entry, the
      automaton reads only what the callee can leave on the stack. */
  lemma {:induction false} PathsJustified<D(!new), N(!new), W(!new)>(
    sys: System<D, N, W>, m: map<Trans<D, N>, W>, s: State<D, N>, path: seq<Trans<D, N>>, q: State<D, N>)
    requires sys.sr.Laws() && WellFormed(sys) && AllDerivable(sys, m)
    requires Chain(m, s, path, q) && path != []
    ensures !s.Sink?
    ensures Justified(sys, q, Config(Base(s), Prefix(s) + Word(path)), PathWeight(sys.sr, m, s, path, q),
      WeightsExact(sys))
    decreases |path|
  {
    var t, x, rest := path[0], path[0].target, path[1..];
    TransitionJustified(sys, m, t);
    if rest == [] {
      assert Chain(m, x, rest, q) && x == q;
      assert PathWeight(sys.sr, m, s, path, q) == m[t];
      assert Prefix(s) + Word(path) == ConfigOf(t).stack;
    } else {
      PathsJustified(sys, m, x, rest, q);
      TransitionJustified(sys, m, rest[0]);
      PrefixedPathJustified(sys, q, t, m[t], Word(rest), PathWeight(sys.sr, m, x, rest, q));
    }
  }

  lemma PrefixedPathJustified<D(!new), N(!new), W(!new)>(
    sys: System<D, N, W>, q: State<D, N>, t: Trans<D, N>, w: W, below: seq<N>, w': W)
    requires sys.sr.Laws() && !t.start.Sink? && t.target.Gen?
    requires Justified(sys, t.target, ConfigOf(t), w, WeightsExact(sys))
    requires Justified(sys, q, Config(Base(t.target), Prefix(t.target) + below), w', WeightsExact(sys))
    ensures Justified(sys, q, Config(Base(t.start), Prefix(t.start) + (Letters(t.lbl) + below)), sys.sr.extend(w', w),
      WeightsExact(sys))
  {
    ComposeJustified(sys, q, t.target, below, w', ConfigOf(t), w);
    assert Prefix(t.start) + (Letters(t.lbl) + below) == ConfigOf(t).stack + below;
  }

  lemma TransitionJustified<D(!new), N(!new), W(!new)>(sys: System<D, N, W>, m: map<Trans<D, N>, W>, t: Trans<D, N>)
    requires sys.sr.Laws() && WellFormed(sys) && AllDerivable(sys, m) && t in m
    ensures Shaped(sys.empties, t)
    ensures Justified(sys, t.target, ConfigOf(t), m[t], WeightsExact(sys))
  {
    assert Derivable(sys, t, m[t]);
    var d :| Valid(sys, d) && Concl(d) == t && Value(sys.sr, d) == m[t];
    DerivationsJustified(sys, d);
  }

  lemma {:induction false} TotalBounded<D(!new), N(!new), W(!new)>(
    sys: System<D, N, W>, c: Config<D, N>, e: Evidence<D, N, W>, u: W)
    requires sys.sr.Laws() && Supports(sys, Sink, c, e) && BoundsRuns(sys, c, u)
    ensures sys.sr.Le(Total(sys.sr, e), u)
  {
    match e
    case Run(_, _, _) =>
    case Both(a, b) =>
      TotalBounded(sys, c, a, u);
      TotalBounded(sys, c, b, u);
      sys.sr.CombineIsJoin(Total(sys.sr, a), Total(sys.sr, b));
  }

  lemma {:induction false} SupportHasRun<D(!new), N(!new), W(!new)>(
    sys: System<D, N, W>, c: Config<D, N>, e: Evidence<D, N, W>)
    requires Supports(sys, Sink, c, e)
    ensures Reachable(sys, c)
  {
    match e
    case Run(from, w0, rs) => assert IsRun(sys, Sink, c, from, w0, rs);
    case Both(a, _) => SupportHasRun(sys, c, a);
  }

  // ---------------------------------------------------------------- reachable implies accepted

  ghost predicate EpsFree<D(!new), N(!new)>(path: seq<Trans<D, N>>) {
    forall t <- path :: t.lbl.Sym?
  }

  /** path leads from c to q without epsilon and weighs at least w. */
  ghost predicate Covers<D(!new), N(!new), W(!new)>(
    sr: Semiring<W>, m: map<Trans<D, N>, W>, c: Config<D, N>, q: State<D, N>, path: seq<Trans<D, N>>, w: W)
  {
    && EpsFree(path) && Word(path) == c.stack
    && Chain(m, Control(c.state), path, q)
    && sr.Le(w, PathWeight(sr, m, Control(c.state), path, q))
  }

  /** Replacing the first transition of a path by one that weighs more than the
      old one extended by w. */
  lemma ReplaceHead<D(!new), N(!new), W(!new)>(
    sr: Semiring<W>, m: map<Trans<D, N>, W>, s: State<D, N>, path: seq<Trans<D, N>>, q: State<D, N>, x: W, w: W,
    t: Trans<D, N>)
    requires sr.Laws() && path != [] && Chain(m, s, path, q) && sr.Le(x, PathWeight(sr, m, s, path, q))
    requires AtLeast(sr, m, t, sr.extend(m[path[0]], w)) && t.target == path[0].target
    ensures Chain(m, t.start, [t] + path[1..], q)
    ensures Word([t] + path[1..]) == Letters(t.lbl) + Word(path[1..])
    ensures sr.Le(sr.extend(x, w), PathWeight(sr, m, t.start, [t] + path[1..], q))
  {
    var rest := path[1..];
    var path' := [t] + rest;
    assert path'[0] == t && path'[1..] == rest;
    var pw := PathWeight(sr, m, t.target, rest, q);
    sr.LeReflexive(w);
    sr.ExtendMonotone(x, sr.extend(pw, m[path[0]]), w, w);
    sr.ExtendAssociative(pw, m[path[0]], w);
    sr.LeReflexive(pw);
    sr.ExtendMonotone(pw, pw, sr.extend(m[path[0]], w), m[t]);
    sr.LeTransitive(sr.extend(x, w), sr.extend(pw, sr.extend(m[path[0]], w)), sr.extend(pw, m[t]));
  }

  /** A callee entry in front of a path costs nothing. */
  lemma PrependEntry<D(!new), N(!new), W(!new)>(
    sr: Semiring<W>, m: map<Trans<D, N>, W>, entry: Trans<D, N>, below: seq<Trans<D, N>>, q: State<D, N>, x: W)
    requires sr.Laws() && Chain(m, entry.target, below, q) && sr.Le(x, PathWeight(sr, m, entry.target, below, q))
    requires AtLeast(sr, m, entry, sr.one)
    ensures Chain(m, entry.start, [entry] + below, q)
    ensures Word([entry] + below) == Letters(entry.lbl) + Word(below)
    ensures sr.Le(x, PathWeight(sr, m, entry.start, [entry] + below, q))
  {
    var path := [entry] + below;
    assert path[0] == entry && path[1..] == below;
    var pw := PathWeight(sr, m, entry.target, below, q);
    sr.LeReflexive(pw);
    sr.ExtendMonotone(pw, pw, sr.one, m[entry]);
    sr.LeTransitive(x, pw, sr.extend(pw, m[entry]));
  }

  /** Two transitions at the front of a path, the first of them about to be
      popped, give way to the transition that summarises the return. */
  lemma ReplaceReturn<D(!new), N(!new), W(!new)>(
    sr: Semiring<W>, m: map<Trans<D, N>, W>, s: State<D, N>, path: seq<Trans<D, N>>, q: State<D, N>, x: W, w: W,
    ret: Trans<D, N>)
    requires sr.Laws() && |path| >= 2 && Chain(m, s, path, q) && sr.Le(x, PathWeight(sr, m, s, path, q))
    requires path[1] in m && ret.target == path[1].target
    requires AtLeast(sr, m, ret, sr.extend(m[path[1]], sr.extend(m[path[0]], w)))
    ensures Chain(m, ret.start, [ret] + path[2..], q)
    ensures Word([ret] + path[2..]) == Letters(ret.lbl) + Word(path[2..])
    ensures sr.Le(sr.extend(x, w), PathWeight(sr, m, ret.start, [ret] + path[2..], q))
  {
    var t, t2, tail := path[0], path[1], path[1..];
    assert tail[0] == t2 && tail[1..] == path[2..];
    var pw := PathWeight(sr, m, t.target, tail, q);
    sr.LeReflexive(pw);
    ReplaceHead(sr, m, t.target, tail, q, pw, sr.extend(m[t], w), ret);
    sr.ExtendAssociative(pw, m[t], w);
    sr.LeReflexive(w);
    sr.ExtendMonotone(x, sr.extend(pw, m[t]), w, w);
    sr.LeTransitive(sr.extend(x, w), sr.extend(pw, sr.extend(m[t], w)),
      PathWeight(sr, m, ret.start, [ret] + path[2..], q));
  }

  lemma CoverNormal<D(!new), N(!new), W(!new)>(
    sys: System<D, N, W>, m: map<Trans<D, N>, W>, q: State<D, N>, c: Config<D, N>, path: seq<Trans<D, N>>, x: W,
    r: Rule<D, N, W>)
    requires sys.sr.Laws() && Saturated(sys, m)
    requires Covers(sys.sr, m, c, q, path, x) && r in sys.rules && r.Normal? && Apply(r, c).Some?
    ensures Covers(sys.sr, m, Apply(r, c).value, q, [NormalResult(r, path[0])] + path[1..], sys.sr.extend(x, r.w))
  {
    CoverParts(sys.sr, m, c, q, path, x);
    assert NormalFires(r, path[0]);
    ReplaceHead(sys.sr, m, Control(c.state), path, q, x, r.w, NormalResult(r, path[0]));
  }

  lemma CoverPush<D(!new), N(!new), W(!new)>(
    sys: System<D, N, W>, m: map<Trans<D, N>, W>, q: State<D, N>, c: Config<D, N>, path: seq<Trans<D, N>>, x: W,
    r: Rule<D, N, W>)
    requires sys.sr.Laws() && Saturated(sys, m)
    requires Covers(sys.sr, m, c, q, path, x) && r in sys.rules && r.Push? && Apply(r, c).Some?
    ensures Covers(sys.sr, m, Apply(r, c).value, q, [EntryResult(r)] + ([CallResult(r, path[0])] + path[1..]),
      sys.sr.extend(x, r.w))
  {
    CoverParts(sys.sr, m, c, q, path, x);
    assert PushFires(r, path[0]);
    var call, entry := CallResult(r, path[0]), EntryResult(r);
    assert AtLeast(sys.sr, m, call, sys.sr.extend(m[path[0]], r.w)) && AtLeast(sys.sr, m, entry, sys.sr.one);
    assert Apply(r, c).value.stack == [entry.lbl.n] + ([call.lbl.n] + c.stack[1..]);
    hide Saturated, Chain, PathWeight, Apply, Word;
    hide sys.sr.Laws;
    PushCovered(sys.sr, m, q, Control(c.state), path, x, r.w, call, entry);
  }

  lemma PushCovered<D(!new), N(!new), W(!new)>(
    sr: Semiring<W>, m: map<Trans<D, N>, W>, q: State<D, N>, s: State<D, N>, path: seq<Trans<D, N>>, x: W, w: W,
    call: Trans<D, N>, entry: Trans<D, N>)
    requires sr.Laws() && path != [] && Chain(m, s, path, q) && sr.Le(x, PathWeight(sr, m, s, path, q))
    requires AtLeast(sr, m, call, sr.extend(m[path[0]], w)) && call.target == path[0].target
    requires AtLeast(sr, m, entry, sr.one) && entry.target == call.start
    ensures Chain(m, entry.start, [entry] + ([call] + path[1..]), q)
    ensures Word([entry] + ([call] + path[1..])) == Letters(entry.lbl) + (Letters(call.lbl) + Word(path[1..]))
    ensures sr.Le(sr.extend(x, w), PathWeight(sr, m, entry.start, [entry] + ([call] + path[1..]), q))
  {
    ReplaceHead(sr, m, s, path, q, x, w, call);
    PrependEntry(sr, m, entry, [call] + path[1..], q, sr.extend(x, w));
  }

  lemma CoverPop<D(!new), N(!new), W(!new)>(
    sys: System<D, N, W>, m: map<Trans<D, N>, W>, q: State<D, N>, c: Config<D, N>, path: seq<Trans<D, N>>, x: W,
    r: Rule<D, N, W>)
    requires sys.sr.Laws() && Saturated(sys, m) && (forall t <- m :: Shaped(sys.empties, t))
    requires Covers(sys.sr, m, c, q, path, x) && r in sys.rules && r.Pop? && Apply(r, c).Some?
    requires Apply(r, c).value.stack != []
    ensures |path| >= 2
    ensures Covers(sys.sr, m, Apply(r, c).value, q, [ReturnResult(PopResult(r, path[0].target), path[1])] + path[2..],
      sys.sr.extend(x, r.w))
  {
    CoverParts(sys.sr, m, c, q, path, x);
    var t, rest, t2 := path[0], path[1..], path[1];
    assert rest[0] == t2 && rest[1..] == path[2..] && t2 in rest;
    assert PopsAt(sys, m, r, t) && t.target.Gen?;
    ReplaceReturn(sys.sr, m, Control(c.state), path, q, x, r.w, ReturnResult(PopResult(r, t.target), t2));
  }

  lemma CoverParts<D(!new), N(!new), W(!new)>(
    sr: Semiring<W>, m: map<Trans<D, N>, W>, c: Config<D, N>, q: State<D, N>, path: seq<Trans<D, N>>, x: W)
    requires Covers(sr, m, c, q, path, x) && c.stack != []
    ensures path != [] && path[0] in m && path[0].start == Control(c.state) && path[0].lbl == Sym(c.stack[0])
    ensures Word(path[1..]) == c.stack[1..]
    ensures EpsFree(path[1..])
    ensures |path| >= 2 ==> path[1] in m && path[1].start == path[0].target
    ensures |path| == 1 ==> c.stack[1..] == []
  {
    assert path[0] in path && (forall t <- path[1..] :: t in path);
    assert |path| >= 2 ==> path[1..][0] == path[1] && Chain(m, path[0].target, path[1..], q);
  }

  /** Saturation carries a covering path along one step of the pushdown system. */
  lemma CoverStep<D(!new), N(!new), W(!new)>(
    sys: System<D, N, W>, m: map<Trans<D, N>, W>, q: State<D, N>, c: Config<D, N>, path: seq<Trans<D, N>>, x: W,
    r: Rule<D, N, W>)
    returns (path': seq<Trans<D, N>>)
    requires sys.sr.Laws() && Saturated(sys, m) && (forall t <- m :: Shaped(sys.empties, t))
    requires Covers(sys.sr, m, c, q, path, x) && r in sys.rules && Apply(r, c).Some?
    requires Apply(r, c).value.stack != []
    ensures Covers(sys.sr, m, Apply(r, c).value, q, path', sys.sr.extend(x, r.w))
  {
    match r
    case Normal(_, _, _, _, _) =>
      CoverNormal(sys, m, q, c, path, x, r);
      path' := [NormalResult(r, path[0])] + path[1..];
    case Push(_, _, _, _, _, _) =>
      CoverPush(sys, m, q, c, path, x, r);
      path' := [EntryResult(r)] + ([CallResult(r, path[0])] + path[1..]);
    case Pop(_, _, _, _) =>
      CoverPop(sys, m, q, c, path, x, r);
      path' := [ReturnResult(PopResult(r, path[0].target), path[1])] + path[2..];
  }

  /** Every run from a seed of q to a non-empty stack is covered by a path to q. */
  lemma {:induction false} RunsCovered<D(!new), N(!new), W(!new)>(
    sys: System<D, N, W>, m: map<Trans<D, N>, W>, q: State<D, N>, c: Config<D, N>, from: Config<D, N>, w0: W,
    rs: seq<Rule<D, N, W>>)
    returns (path: seq<Trans<D, N>>)
    requires sys.sr.Laws() && Saturated(sys, m) && (forall t <- m :: Shaped(sys.empties, t))
    requires q.Gen? ==> AtLeast(sys.sr, m, Trans(Control(q.d), Sym(q.n), q), sys.sr.one)
    requires IsRun(sys, q, c, from, w0, rs) && c.stack != []
    ensures Covers(sys.sr, m, c, q, path, WeightOfRun(sys.sr, w0, rs))
    decreases |rs|
  {
    var sr := sys.sr;
    if rs == [] {
      var t := Trans(Control(from.state), Sym(from.stack[0]), q);
      if q.Sink? {
        assert (t, w0) in sys.inits && AtLeast(sr, m, (t, w0).0, (t, w0).1);
      }
      path := [t];
      assert path[1..] == [] && Chain(m, q, [], q);
      assert Word(path) == [from.stack[0]] + Word(path[1..]) == from.stack;
    } else {
      var k := |rs| - 1;
      var before, r := rs[..k], rs[k];
      assert rs == before + [r];
      var mid := RunPrefix(from, before, r);
      var path0 := RunsCovered(sys, m, q, mid, from, w0, before);
      path := CoverStep(sys, m, q, mid, path0, WeightOfRun(sr, w0, before), r);
      RunWeightConcat(sr, before, [r]);
      assert RunWeight(sr, [r]) == r.w;
      sr.ExtendAssociative(w0, RunWeight(sr, before), r.w);
    }
  }

  /** A run followed by a step: the configuration in between. */
  lemma RunPrefix<D, N, W>(from: Config<D, N>, before: seq<Rule<D, N, W>>, r: Rule<D, N, W>) returns (mid: Config<D, N>)
    requires Exec(from, before + [r]).Some?
    ensures Exec(from, before) == Some(mid)
    ensures Apply(r, mid) == Exec(from, before + [r])
  {
    PrefixRuns(from, before, [r]);
    mid := Exec(from, before).value;
    ExecConcat(from, before, [r]);
    assert [r][1..] == [];
  }

  lemma {:induction false} PrefixRuns<D, N, W>(from: Config<D, N>, a: seq<Rule<D, N, W>>, b: seq<Rule<D, N, W>>)
    requires Exec(from, a + b).Some?
    ensures Exec(from, a).Some?
    decreases |a|
  {
    if a != [] {
      assert (a + b)[0] == a[0] && (a + b)[1..] == a[1..] + b;
      PrefixRuns(Apply(a[0], from).value, a[1..], b);
    }
  }

  // ---------------------------------------------------------------- main results

  /** Accepted exactly if reachable, for every stack but the empty one. */
  lemma AcceptedIffReachable<D(!new), N(!new), W(!new)>(sys: System<D, N, W>, m: map<Trans<D, N>, W>, c: Config<D, N>)
    requires sys.sr.Laws() && WellFormed(sys) && Solution(sys, m) && c.stack != []
    ensures Accepted(m, c) <==> Reachable(sys, c)
  {
    DerivableShaped(sys, m);
    if Accepted(m, c) {
      var path :| Accepts(m, c, path);
      PathsJustified(sys, m, Control(c.state), path, Sink);
      assert Config(c.state, [] + Word(path)) == c;
      var e :| Supports(sys, Sink, c, e);
      SupportHasRun(sys, c, e);
    }
    if Reachable(sys, c) {
      var from, w0, rs :| IsRun(sys, Sink, c, from, w0, rs);
      var path := RunsCovered(sys, m, Sink, c, from, w0, rs);
      assert Accepts(m, c, path);
    }
  }

  /** The weights of the accepting paths of c and the weights of the runs to c
      have the same upper bounds, hence the same least upper bound. */
  lemma SameUpperBounds<D(!new), N(!new), W(!new)>(sys: System<D, N, W>, m: map<Trans<D, N>, W>, c: Config<D, N>, u: W)
    requires sys.sr.Laws() && WellFormed(sys) && WeightsExact(sys) && Solution(sys, m) && c.stack != []
    ensures BoundsPaths(sys.sr, m, c, u) <==> BoundsRuns(sys, c, u)
  {
    DerivableShaped(sys, m);
    if BoundsRuns(sys, c, u) {
      forall path | Accepts(m, c, path)
        ensures sys.sr.Le(AcceptWeight(sys.sr, m, c, path), u)
      {
        PathsJustified(sys, m, Control(c.state), path, Sink);
        assert Config(c.state, [] + Word(path)) == c;
        var w := AcceptWeight(sys.sr, m, c, path);
        var e :| Supports(sys, Sink, c, e) && sys.sr.Le(w, Total(sys.sr, e));
        TotalBounded(sys, c, e, u);
        sys.sr.LeTransitive(w, Total(sys.sr, e), u);
      }
    }
    if BoundsPaths(sys.sr, m, c, u) {
      PathBoundCoversRuns(sys, m, c, u);
    }
  }

  /** This half needs no assumption on epsilon. */
  lemma PathBoundCoversRuns<D(!new), N(!new), W(!new)>(
    sys: System<D, N, W>, m: map<Trans<D, N>, W>, c: Config<D, N>, u: W)
    requires sys.sr.Laws() && WellFormed(sys) && Solution(sys, m) && c.stack != []
    requires BoundsPaths(sys.sr, m, c, u)
    ensures BoundsRuns(sys, c, u)
  {
    DerivableShaped(sys, m);
    forall from, w0, rs | IsRun(sys, Sink, c, from, w0, rs)
      ensures sys.sr.Le(WeightOfRun(sys.sr, w0, rs), u)
    {
      var path := RunsCovered(sys, m, Sink, c, from, w0, rs);
      assert Accepts(m, c, path);
      sys.sr.LeTransitive(WeightOfRun(sys.sr, w0, rs), AcceptWeight(sys.sr, m, c, path), u);
    }
  }
}
