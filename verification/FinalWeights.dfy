/** getTransitionsToFinalWeights: for each transition the combined weight of all
    paths that begin with it and run through generated states to the initial
    state, kept up to date while the automaton grows. */
module FinalWeights {
  import opened Semirings
  import opened PAutomata
  import opened Exactness
  import opened Termination

  // ---------------------------------------------------------------- families of paths

  /** The empty path at the initial state, or the paths that begin with t. */
  datatype Family<D, N> = Initial | From(t: Trans<D, N>)

  function StartOf<D, N>(f: Family<D, N>): State<D, N> {
    if f.Initial? then Sink else f.t.start
  }

  ghost predicate ThroughGenerated<D(!new), N(!new)>(path: seq<Trans<D, N>>) {
    forall i :: 1 <= i < |path| ==> path[i].start.Gen?
  }

  ghost predicate InFamily<D(!new), N(!new), W(!new)>(m: map<Trans<D, N>, W>, f: Family<D, N>, path: seq<Trans<D, N>>) {
    && Chain(m, StartOf(f), path, Sink) && ThroughGenerated(path)
    && if f.Initial? then path == [] else path != [] && path[0] == f.t
  }

  ghost function FamilyWeight<D(!new), N(!new), W(!new)>(
    sr: Semiring<W>, m: map<Trans<D, N>, W>, f: Family<D, N>, path: seq<Trans<D, N>>): W
    requires InFamily(m, f, path)
  {
    PathWeight(sr, m, StartOf(f), path, Sink)
  }

  ghost predicate BoundsFamily<D(!new), N(!new), W(!new)>(
    sr: Semiring<W>, m: map<Trans<D, N>, W>, f: Family<D, N>, u: W)
  {
    forall path :: InFamily(m, f, path) ==> sr.Le(FamilyWeight(sr, m, f, path), u)
  }

  /** Finitely many paths of a family. */
  datatype Paths<D, N> = OnePath(path: seq<Trans<D, N>>) | MorePaths(a: Paths<D, N>, b: Paths<D, N>)

  ghost predicate Of<D(!new), N(!new), W(!new)>(m: map<Trans<D, N>, W>, f: Family<D, N>, ps: Paths<D, N>) {
    match ps
    case OnePath(path) => InFamily(m, f, path)
    case MorePaths(a, b) => Of(m, f, a) && Of(m, f, b)
  }

  ghost function Total<D(!new), N(!new), W(!new)>(
    sr: Semiring<W>, m: map<Trans<D, N>, W>, f: Family<D, N>, ps: Paths<D, N>): W
    requires Of(m, f, ps)
  {
    match ps
    case OnePath(path) => FamilyWeight(sr, m, f, path)
    case MorePaths(a, b) => sr.combine(Total(sr, m, f, a), Total(sr, m, f, b))
  }

  /** v is no more than finitely many paths of the family account for. */
  ghost predicate Backed<D(!new), N(!new), W(!new)>(sr: Semiring<W>, m: map<Trans<D, N>, W>, f: Family<D, N>, v: W) {
    exists ps :: Of(m, f, ps) && sr.Le(v, Total(sr, m, f, ps))
  }

  lemma BackedInitial<D(!new), N(!new), W(!new)>(sr: Semiring<W>, m: map<Trans<D, N>, W>)
    requires sr.Laws()
    ensures Backed(sr, m, Initial, sr.one)
  {
    assert Of(m, Initial, OnePath([]));
    sr.LeReflexive(sr.one);
  }

  lemma BackedJoin<D(!new), N(!new), W(!new)>(sr: Semiring<W>, m: map<Trans<D, N>, W>, f: Family<D, N>, v: W, v': W)
    requires sr.Laws() && Backed(sr, m, f, v) && Backed(sr, m, f, v')
    ensures Backed(sr, m, f, sr.combine(v, v'))
  {
    var ps :| Of(m, f, ps) && sr.Le(v, Total(sr, m, f, ps));
    var ps' :| Of(m, f, ps') && sr.Le(v', Total(sr, m, f, ps'));
    var both := MorePaths(ps, ps');
    assert Of(m, f, both);
    var x, y := Total(sr, m, f, ps), Total(sr, m, f, ps');
    sr.CombineIsJoin(x, y);
    sr.LeTransitive(v, x, sr.combine(x, y));
    sr.LeTransitive(v', y, sr.combine(x, y));
    sr.CombineIsJoin(v, v');
  }

  function Prefixed<D, N>(t: Trans<D, N>, ps: Paths<D, N>): Paths<D, N> {
    match ps
    case OnePath(path) => OnePath([t] + path)
    case MorePaths(a, b) => MorePaths(Prefixed(t, a), Prefixed(t, b))
  }

  lemma {:induction false} PrefixedOf<D(!new), N(!new), W(!new)>(
    sr: Semiring<W>, m: map<Trans<D, N>, W>, f: Family<D, N>, t: Trans<D, N>, ps: Paths<D, N>)
    requires sr.Laws() && Of(m, f, ps) && t in m && t.target == StartOf(f) && (f.From? ==> f.t.start.Gen?)
    ensures Of(m, From(t), Prefixed(t, ps))
    ensures Total(sr, m, From(t), Prefixed(t, ps)) == sr.extend(Total(sr, m, f, ps), m[t])
  {
    match ps
    case OnePath(path) =>
      var path' := [t] + path;
      assert path'[1..] == path;
      assert ThroughGenerated(path') by {
        forall i | 1 <= i < |path'| ensures path'[i].start.Gen? {
          assert path'[i] == path[i - 1];
        }
      }
    case MorePaths(a, b) =>
      PrefixedOf(sr, m, f, t, a);
      PrefixedOf(sr, m, f, t, b);
      sr.ExtendDistributes(Total(sr, m, f, a), Total(sr, m, f, b), m[t]);
  }

  lemma BackedExtend<D(!new), N(!new), W(!new)>(
    sr: Semiring<W>, m: map<Trans<D, N>, W>, f: Family<D, N>, v: W, t: Trans<D, N>, w: W)
    requires t.target == StartOf(f) && (f.From? ==> f.t.start.Gen?)
    requires sr.Laws() && AtLeast(sr, m, t, w) && Backed(sr, m, f, v)
    ensures Backed(sr, m, From(t), sr.extend(v, w))
  {
    var ps :| Of(m, f, ps) && sr.Le(v, Total(sr, m, f, ps));
    PrefixedOf(sr, m, f, t, ps);
    sr.ExtendMonotone(v, Total(sr, m, f, ps), w, m[t]);
  }

  ghost predicate Raised<D(!new), N(!new), W(!new)>(sr: Semiring<W>, m: map<Trans<D, N>, W>, m': map<Trans<D, N>, W>) {
    forall t <- m :: AtLeast(sr, m', t, m[t])
  }

  lemma {:induction false} PathRaised<D(!new), N(!new), W(!new)>(
    sr: Semiring<W>, m: map<Trans<D, N>, W>, m': map<Trans<D, N>, W>, s: State<D, N>, path: seq<Trans<D, N>>,
    q: State<D, N>)
    requires Chain(m, s, path, q) && sr.Laws() && Raised(sr, m, m')
    ensures Chain(m', s, path, q) && sr.Le(PathWeight(sr, m, s, path, q), PathWeight(sr, m', s, path, q))
    decreases |path|
  {
    if path == [] {
      sr.LeReflexive(sr.one);
    } else {
      var t, rest := path[0], path[1..];
      assert AtLeast(sr, m', t, m[t]);
      PathRaised(sr, m, m', t.target, rest, q);
      sr.ExtendMonotone(PathWeight(sr, m, t.target, rest, q), PathWeight(sr, m', t.target, rest, q), m[t], m'[t]);
    }
  }

  lemma {:induction false} TotalRaised<D(!new), N(!new), W(!new)>(
    sr: Semiring<W>, m: map<Trans<D, N>, W>, m': map<Trans<D, N>, W>, f: Family<D, N>, ps: Paths<D, N>)
    requires sr.Laws() && Raised(sr, m, m') && Of(m, f, ps)
    ensures Of(m', f, ps) && sr.Le(Total(sr, m, f, ps), Total(sr, m', f, ps))
  {
    match ps
    case OnePath(path) => PathRaised(sr, m, m', StartOf(f), path, Sink);
    case MorePaths(a, b) =>
      TotalRaised(sr, m, m', f, a);
      TotalRaised(sr, m, m', f, b);
      var x, y, x', y' := Total(sr, m, f, a), Total(sr, m, f, b), Total(sr, m', f, a), Total(sr, m', f, b);
      sr.CombineIsJoin(x', y');
      sr.LeTransitive(x, x', sr.combine(x', y'));
      sr.LeTransitive(y, y', sr.combine(x', y'));
      sr.CombineIsJoin(x, y);
  }

  lemma BackedRaised<D(!new), N(!new), W(!new)>(
    sr: Semiring<W>, m: map<Trans<D, N>, W>, m': map<Trans<D, N>, W>, f: Family<D, N>, v: W)
    requires sr.Laws() && Raised(sr, m, m') && Backed(sr, m, f, v)
    ensures Backed(sr, m', f, v)
  {
    var ps :| Of(m, f, ps) && sr.Le(v, Total(sr, m, f, ps));
    TotalRaised(sr, m, m', f, ps);
    sr.LeTransitive(v, Total(sr, m, f, ps), Total(sr, m', f, ps));
  }

  lemma {:induction false} TotalBounded<D(!new), N(!new), W(!new)>(
    sr: Semiring<W>, m: map<Trans<D, N>, W>, f: Family<D, N>, ps: Paths<D, N>, u: W)
    requires sr.Laws() && Of(m, f, ps) && BoundsFamily(sr, m, f, u)
    ensures sr.Le(Total(sr, m, f, ps), u)
    ensures exists path :: InFamily(m, f, path)
  {
    match ps
    case OnePath(path) =>
    case MorePaths(a, b) =>
      TotalBounded(sr, m, f, a, u);
      TotalBounded(sr, m, f, b, u);
      sr.CombineIsJoin(Total(sr, m, f, a), Total(sr, m, f, b));
  }

  lemma {:induction false} HasPath<D(!new), N(!new), W(!new)>(m: map<Trans<D, N>, W>, f: Family<D, N>, ps: Paths<D, N>)
    requires Of(m, f, ps)
    ensures exists path :: InFamily(m, f, path)
  {
    match ps
    case OnePath(path) =>
    case MorePaths(a, _) => HasPath(m, f, a);
  }

  // ---------------------------------------------------------------- the computation's state

  /** ValueComputationListener(state, weight) as a pair. */
  type Listener<D, N, W> = (State<D, N>, W)

  /** l has been told of t with weight w. */
  ghost predicate Counted<D(!new), N(!new), W(!new)>(
    sr: Semiring<W>, finals: map<Trans<D, N>, W>, l: Listener<D, N, W>, t: Trans<D, N>, w: W)
  {
    AtLeast(sr, finals, t, sr.extend(l.1, w))
  }

  /** Every listener has counted the current weight of every transition into its
      state, or that is still owed. */
  ghost predicate AllCounted<D(!new), N(!new), W(!new)>(
    sr: Semiring<W>, m: map<Trans<D, N>, W>, finals: map<Trans<D, N>, W>,
    listeners: set<Listener<D, N, W>>, owed: set<(Listener<D, N, W>, Trans<D, N>)>)
  {
    forall l <- listeners, t <- m :: t.target == l.0 ==> Counted(sr, finals, l, t, m[t]) || (l, t) in owed
  }

  /** The value of a transition out of a generated state is passed on from there. */
  ghost predicate PassedOn<D(!new), N(!new), W(!new)>(
    finals: map<Trans<D, N>, W>, listeners: set<Listener<D, N, W>>, except: set<Listener<D, N, W>>)
  {
    forall t <- finals :: t.start.Gen? ==> (t.start, finals[t]) in listeners || (t.start, finals[t]) in except
  }

  ghost predicate ListenerBacked<D(!new), N(!new), W(!new)>(
    sr: Semiring<W>, m: map<Trans<D, N>, W>, l: Listener<D, N, W>)
  {
    exists f :: StartOf(f) == l.0 && (f.From? ==> f.t.start.Gen?) && Backed(sr, m, f, l.1)
  }

  ghost predicate AllBacked<D(!new), N(!new), W(!new)>(
    sr: Semiring<W>, m: map<Trans<D, N>, W>, finals: map<Trans<D, N>, W>, listeners: set<Listener<D, N, W>>)
  {
    && (forall t <- finals :: t in m && Backed(sr, m, From(t), finals[t]))
    && (forall l <- listeners :: ListenerBacked(sr, m, l))
  }

  /** A path's weight is counted in the value of its first transition. */
  lemma {:induction false} PathsCounted<D(!new), N(!new), W(!new)>(
    sr: Semiring<W>, m: map<Trans<D, N>, W>, finals: map<Trans<D, N>, W>, listeners: set<Listener<D, N, W>>,
    path: seq<Trans<D, N>>)
    requires sr.Laws() && AllCounted(sr, m, finals, listeners, {}) && PassedOn(finals, listeners, {}) &&
      (Sink, sr.one) in listeners
    requires path != [] && InFamily(m, From(path[0]), path)
    ensures AtLeast(sr, finals, path[0], FamilyWeight(sr, m, From(path[0]), path))
    decreases |path|
  {
    var t, rest := path[0], path[1..];
    assert Chain(m, t.target, rest, Sink);
    if rest == [] {
      var l := (Sink, sr.one);
      assert t.target == l.0;
      assert Counted(sr, finals, l, t, m[t]);
      assert PathWeight(sr, m, t.target, rest, Sink) == sr.one;
      assert FamilyWeight(sr, m, From(t), path) == m[t];
    } else {
      var t2 := rest[0];
      assert t2 == path[1] && t2.start.Gen? && t2.start == t.target;
      assert ThroughGenerated(rest) by {
        forall i | 1 <= i < |rest| ensures rest[i].start.Gen? { assert rest[i] == path[i + 1]; }
      }
      assert InFamily(m, From(t2), rest);
      PathsCounted(sr, m, finals, listeners, rest);
      var l, pw := (t2.start, finals[t2]), FamilyWeight(sr, m, From(t2), rest);
      assert Counted(sr, finals, l, t, m[t]);
      sr.LeReflexive(m[t]);
      sr.ExtendMonotone(pw, finals[t2], m[t], m[t]);
      sr.LeTransitive(sr.extend(pw, m[t]), sr.extend(finals[t2], m[t]), finals[t]);
    }
  }

  /** The computed values: there is one for t exactly if a path begins with t, and
      it is the least upper bound of the weights of those paths. */
  lemma FinalsExact<D(!new), N(!new), W(!new)>(
    sr: Semiring<W>, m: map<Trans<D, N>, W>, finals: map<Trans<D, N>, W>, listeners: set<Listener<D, N, W>>,
    t: Trans<D, N>)
    requires sr.Laws() && AllBacked(sr, m, finals, listeners)
    requires AllCounted(sr, m, finals, listeners, {}) && PassedOn(finals, listeners, {}) && (Sink, sr.one) in listeners
    ensures t in finals <==> exists path :: InFamily(m, From(t), path)
    ensures t in finals ==> BoundsFamily(sr, m, From(t), finals[t])
    ensures t in finals ==> forall u :: BoundsFamily(sr, m, From(t), u) ==> sr.Le(finals[t], u)
  {
    if path :| InFamily(m, From(t), path) {
      PathsCounted(sr, m, finals, listeners, path);
    }
    if t in finals {
      var ps :| Of(m, From(t), ps) && sr.Le(finals[t], Total(sr, m, From(t), ps));
      HasPath(m, From(t), ps);
      forall path | InFamily(m, From(t), path)
        ensures sr.Le(FamilyWeight(sr, m, From(t), path), finals[t])
      {
        PathsCounted(sr, m, finals, listeners, path);
      }
      forall u | BoundsFamily(sr, m, From(t), u)
        ensures sr.Le(finals[t], u)
      {
        TotalBounded(sr, m, From(t), ps, u);
        sr.LeTransitive(finals[t], Total(sr, m, From(t), ps), u);
      }
    }
  }

  // ---------------------------------------------------------------- the computation

  /** Nothing was lost, and nothing more is owed than before. */
  ghost predicate Settles<D(!new), N(!new), W(!new)>(
    sr: Semiring<W>, finals: map<Trans<D, N>, W>, finals': map<Trans<D, N>, W>,
    listeners: set<Listener<D, N, W>>, listeners': set<Listener<D, N, W>>)
  {
    Raised(sr, finals, finals') && listeners <= listeners'
  }

  ghost predicate Consistent<D(!new), N(!new), W(!new)>(
    sr: Semiring<W>, rank: W -> nat, m: map<Trans<D, N>, W>, finals: map<Trans<D, N>, W>,
    listeners: set<Listener<D, N, W>>, owed: set<(Listener<D, N, W>, Trans<D, N>)>, except: set<Listener<D, N, W>>)
  {
    && sr.Laws() && Descends(sr, rank)
    && AllBacked(sr, m, finals, listeners)
    && AllCounted(sr, m, finals, listeners, owed)
    && PassedOn(finals, listeners, except)
  }

  lemma RaisedReflexive<D(!new), N(!new), W(!new)>(sr: Semiring<W>, m: map<Trans<D, N>, W>)
    requires sr.Laws()
    ensures Raised(sr, m, m)
  {
    forall t <- m ensures AtLeast(sr, m, t, m[t]) { sr.LeReflexive(m[t]); }
  }

  lemma RaisedTransitive<D(!new), N(!new), W(!new)>(
    sr: Semiring<W>, m: map<Trans<D, N>, W>, m': map<Trans<D, N>, W>, m'': map<Trans<D, N>, W>)
    requires sr.Laws() && Raised(sr, m, m') && Raised(sr, m', m'')
    ensures Raised(sr, m, m'')
  {
    forall t <- m ensures AtLeast(sr, m'', t, m[t]) {
      assert AtLeast(sr, m', t, m[t]) && AtLeast(sr, m'', t, m'[t]);
      sr.LeTransitive(m[t], m'[t], m''[t]);
    }
  }

  lemma AtLeastRaised<D(!new), N(!new), W(!new)>(
    sr: Semiring<W>, m: map<Trans<D, N>, W>, m': map<Trans<D, N>, W>, t: Trans<D, N>, w: W)
    requires sr.Laws() && Raised(sr, m, m') && AtLeast(sr, m, t, w)
    ensures AtLeast(sr, m', t, w)
  {
    sr.LeTransitive(w, m[t], m'[t]);
  }

  lemma StillCounted<D(!new), N(!new), W(!new)>(
    sr: Semiring<W>, m: map<Trans<D, N>, W>, m': map<Trans<D, N>, W>, listeners: set<Listener<D, N, W>>,
    t: Trans<D, N>, w: W)
    requires sr.Laws() && Raised(sr, m, m') && forall l <- listeners :: Counted(sr, m, l, t, w)
    ensures forall l <- listeners :: Counted(sr, m', l, t, w)
  {
    forall l <- listeners ensures Counted(sr, m', l, t, w) { AtLeastRaised(sr, m, m', t, sr.extend(l.1, w)); }
  }

  /** Storing a larger value for t, to be passed on next. */
  lemma StoreConsistent<D(!new), N(!new), W(!new)>(
    sr: Semiring<W>, rank: W -> nat, m: map<Trans<D, N>, W>, finals: map<Trans<D, N>, W>,
    listeners: set<Listener<D, N, W>>, owed: set<(Listener<D, N, W>, Trans<D, N>)>, t: Trans<D, N>, v: W)
    requires Consistent(sr, rank, m, finals, listeners, owed, {}) && t in m && Backed(sr, m, From(t), v)
    requires t in finals ==> sr.Le(finals[t], v)
    ensures Consistent(sr, rank, m, finals[t := v], listeners, owed, if t.start.Gen? then {(t.start, v)} else {})
    ensures Raised(sr, finals, finals[t := v])
  {
    var finals' := finals[t := v];
    forall u <- finals ensures AtLeast(sr, finals', u, finals[u]) { sr.LeReflexive(finals[u]); }
    forall l <- listeners, u <- m | u.target == l.0
      ensures Counted(sr, finals', l, u, m[u]) || (l, u) in owed
    {
      if Counted(sr, finals, l, u, m[u]) {
        AtLeastRaised(sr, finals, finals', u, sr.extend(l.1, m[u]));
      }
    }
  }

  /** Adding a listener, which now is owed all transitions into its state. */
  lemma ListenConsistent<D(!new), N(!new), W(!new)>(
    sr: Semiring<W>, rank: W -> nat, m: map<Trans<D, N>, W>, finals: map<Trans<D, N>, W>,
    listeners: set<Listener<D, N, W>>, owed: set<(Listener<D, N, W>, Trans<D, N>)>, l: Listener<D, N, W>)
    requires Consistent(sr, rank, m, finals, listeners, owed, {l}) && ListenerBacked(sr, m, l)
    ensures Consistent(sr, rank, m, finals, listeners + {l}, owed + set t <- m | t.target == l.0 :: (l, t), {})
  {
  }

  lemma PayConsistent<D(!new), N(!new), W(!new)>(
    sr: Semiring<W>, rank: W -> nat, m: map<Trans<D, N>, W>, finals: map<Trans<D, N>, W>,
    listeners: set<Listener<D, N, W>>, owed: set<(Listener<D, N, W>, Trans<D, N>)>, l: Listener<D, N, W>,
    t: Trans<D, N>)
    requires Consistent(sr, rank, m, finals, listeners, owed, {}) && t in m && Counted(sr, finals, l, t, m[t])
    ensures Consistent(sr, rank, m, finals, listeners, owed - {(l, t)}, {})
  {
  }

  /** A new or raised transition, which is owed to all listeners at its target. */
  lemma RaiseConsistent<D(!new), N(!new), W(!new)>(
    sr: Semiring<W>, rank: W -> nat, m: map<Trans<D, N>, W>, finals: map<Trans<D, N>, W>,
    listeners: set<Listener<D, N, W>>, owed: set<(Listener<D, N, W>, Trans<D, N>)>, t: Trans<D, N>, w: W)
    requires Consistent(sr, rank, m, finals, listeners, owed, {}) && (t in m ==> sr.Le(m[t], w))
    ensures Consistent(sr, rank, m[t := w], finals, listeners,
      owed + set l <- listeners | l.0 == t.target :: (l, t), {})
  {
    var m' := m[t := w];
    forall u <- m ensures AtLeast(sr, m', u, m[u]) { sr.LeReflexive(m[u]); }
    forall u <- finals ensures Backed(sr, m', From(u), finals[u]) { BackedRaised(sr, m, m', From(u), finals[u]); }
    forall l <- listeners ensures ListenerBacked(sr, m', l) {
      var f :| StartOf(f) == l.0 && (f.From? ==> f.t.start.Gen?) && Backed(sr, m, f, l.1);
      BackedRaised(sr, m, m', f, l.1);
    }
  }

  ghost function Uncomputed<D(!new), N(!new), W(!new)>(
    m: map<Trans<D, N>, W>, finals: map<Trans<D, N>, W>): set<Trans<D, N>>
  {
    m.Keys - finals.Keys
  }

  lemma ComputedProgress<D(!new), N(!new), W(!new)>(
    sr: Semiring<W>, rank: W -> nat, m: map<Trans<D, N>, W>, finals: map<Trans<D, N>, W>, finals': map<Trans<D, N>, W>)
    requires Descends(sr, rank) && finals.Keys <= m.Keys && finals'.Keys <= m.Keys && Raised(sr, finals, finals')
    ensures Uncomputed(m, finals') <= Uncomputed(m, finals)
    ensures Uncomputed(m, finals') == Uncomputed(m, finals) ==> Raises(rank, finals') <= Raises(rank, finals)
    ensures finals != finals' && Uncomputed(m, finals') == Uncomputed(m, finals) ==>
      Raises(rank, finals') < Raises(rank, finals)
  {
    forall t <- finals.Keys ensures t in finals'.Keys { assert AtLeast(sr, finals', t, finals[t]); }
    if Uncomputed(m, finals') == Uncomputed(m, finals) {
      forall t <- finals'.Keys ensures t in finals.Keys { assert t in m.Keys && t !in Uncomputed(m, finals'); }
      assert finals.Keys == finals'.Keys;
      RankSumFalls(sr, rank, finals, finals', finals.Keys);
    }
  }

  /** The part of the automaton that computes transitionsToFinalWeights. */
  class ValueComputation<D(==, !new), N(==, !new), W(==, !new)> {
    const sr: Semiring<W>
    ghost const rank: W -> nat
    var transitionToWeights: map<Trans<D, N>, W>
    var transitionsToFinalWeights: map<Trans<D, N>, W>
    /** The registered ValueComputationListeners. */
    var listeners: set<Listener<D, N, W>>
    ghost var owed: set<(Listener<D, N, W>, Trans<D, N>)>

    ghost predicate OkBut(except: set<Listener<D, N, W>>)
      reads this
    {
      Consistent(sr, rank, transitionToWeights, transitionsToFinalWeights, listeners, owed, except)
    }

    ghost predicate Ok()
      reads this
    {
      OkBut({})
    }

    /** Nothing is owed, whether or not the computation was started. */
    ghost predicate Quiet()
      reads this
    {
      Ok() && owed == {}
    }

    twostate predicate Continues()
      reads this
    {
      && Ok() && transitionToWeights == old(transitionToWeights) && owed <= old(owed)
      && Settles(sr, old(transitionsToFinalWeights), transitionsToFinalWeights, old(listeners), listeners)
    }

    constructor (sr: Semiring<W>, ghost rank: W -> nat)
      requires sr.Laws() && Descends(sr, rank)
      ensures Quiet() && this.sr == sr && transitionToWeights == map[] && transitionsToFinalWeights == map[]
    {
      this.sr, this.rank := sr, rank;
      transitionToWeights, transitionsToFinalWeights, listeners, owed := map[], map[], {}, {};
    }

    lemma Parts(except: set<Listener<D, N, W>>)
      requires OkBut(except)
      ensures sr.Laws() && Descends(sr, rank)
      ensures transitionsToFinalWeights.Keys <= transitionToWeights.Keys
      ensures forall l <- listeners :: ListenerBacked(sr, transitionToWeights, l)
      ensures forall t <- transitionsToFinalWeights ::
        Backed(sr, transitionToWeights, From(t), transitionsToFinalWeights[t])
      ensures forall t <- transitionsToFinalWeights :: t.start.Gen? ==>
        (t.start, transitionsToFinalWeights[t]) in listeners || (t.start, transitionsToFinalWeights[t]) in except
    {
    }

    ghost function Order(l: Listener<D, N, W>): nat
      reads this
    {
      if l in listeners then 0 else 2
    }

    method RegisterListener(l: Listener<D, N, W>)
      requires OkBut({l}) && ListenerBacked(sr, transitionToWeights, l)
      modifies this
      ensures Continues() && l in listeners
      decreases Uncomputed(transitionToWeights, transitionsToFinalWeights), Raises(rank, transitionsToFinalWeights),
        Order(l)
    {
      hide Consistent, Raised, Backed, ListenerBacked, Descends, Uncomputed, Raises;
      hide sr.Laws;
      Parts({l});
      RaisedReflexive(sr, transitionsToFinalWeights);
      if l in listeners {
        Registered(l);
        return;
      }
      ListenConsistent(sr, rank, transitionToWeights, transitionsToFinalWeights, listeners, owed, l);
      var todo := set t <- transitionToWeights | t.target == l.0;
      owed := owed + set t <- transitionToWeights | t.target == l.0 :: (l, t);
      listeners := listeners + {l};
      while todo != {}
        invariant Ok() && transitionToWeights == old(transitionToWeights)
        invariant Raised(sr, old(transitionsToFinalWeights), transitionsToFinalWeights)
        invariant old(listeners) + {l} <= listeners
        invariant todo <= set t <- transitionToWeights | t.target == l.0
        invariant owed <= old(owed) + set t <- todo :: (l, t)
        decreases todo
      {
        var t :| t in todo;
        assert ListenerBacked(sr, transitionToWeights, l) &&
          AtLeast(sr, transitionToWeights, t, transitionToWeights[t]) by {
          Parts({});
          sr.LeReflexive(transitionToWeights[t]);
        }
        Parts({});
        ComputedProgress(sr, rank, transitionToWeights, old(transitionsToFinalWeights), transitionsToFinalWeights);
        label before:
        OnInTransitionAdded(l, t, transitionToWeights[t]);
        RaisedTransitive(sr, old(transitionsToFinalWeights), old@before(transitionsToFinalWeights),
          transitionsToFinalWeights);
        PayConsistent(sr, rank, transitionToWeights, transitionsToFinalWeights, listeners, owed, l, t);
        owed := owed - {(l, t)};
        todo := todo - {t};
      }
    }

    /** A listener that is registered already is owed nothing by registering it again. */
    lemma Registered(l: Listener<D, N, W>)
      requires OkBut({l}) && l in listeners
      ensures Ok()
    {
    }

    /** onInTransitionAdded of the listener l */
    method OnInTransitionAdded(l: Listener<D, N, W>, t: Trans<D, N>, w: W)
      requires Ok() && ListenerBacked(sr, transitionToWeights, l) && t.target == l.0 &&
        AtLeast(sr, transitionToWeights, t, w)
      modifies this
      ensures Continues() && Counted(sr, transitionsToFinalWeights, l, t, w)
      decreases Uncomputed(transitionToWeights, transitionsToFinalWeights), Raises(rank, transitionsToFinalWeights), 1
    {
      hide Consistent, Raised, Backed, ListenerBacked, Descends, Uncomputed, Raises;
      hide sr.Laws;
      Parts({});
      ghost var finals := transitionsToFinalWeights;
      var newWeight := sr.extend(l.1, w);
      var newVal := newWeight;
      assert Backed(sr, transitionToWeights, From(t), newWeight) by { NewWeightBacked(l, t, w); }
      sr.LeReflexive(newWeight);
      if t in transitionsToFinalWeights {
        newVal := sr.combine(transitionsToFinalWeights[t], newWeight);
        BackedJoin(sr, transitionToWeights, From(t), transitionsToFinalWeights[t], newWeight);
        sr.CombineIsJoin(transitionsToFinalWeights[t], newWeight);
      }
      StoreConsistent(sr, rank, transitionToWeights, finals, listeners, owed, t, newVal);
      assert finals != finals[t := newVal] || (t.start.Gen? ==> (t.start, newVal) in listeners);
      transitionsToFinalWeights := transitionsToFinalWeights[t := newVal];
      if t.start.Gen? {
        var next := (t.start, newVal);
        Parts({next});
        ComputedProgress(sr, rank, transitionToWeights, finals, transitionsToFinalWeights);
        assert ListenerBacked(sr, transitionToWeights, next) by { ValueBacked(t, newVal); }
        label stored:
        RegisterListener(next);
        RaisedTransitive(sr, finals, old@stored(transitionsToFinalWeights), transitionsToFinalWeights);
        AtLeastRaised(sr, old@stored(transitionsToFinalWeights), transitionsToFinalWeights, t, newWeight);
      }
    }

    /** A transition was added, or its weight raised, by the saturation: all
        listeners at its target are told. The saturation may do so while some listeners
        are still owed an earlier transition. */
    method OnWeightAdded(t: Trans<D, N>, w: W)
      requires Ok() && (t in transitionToWeights ==> sr.Le(transitionToWeights[t], w))
      modifies this
      ensures Ok() && owed <= old(owed) && (old(Quiet()) ==> Quiet())
      ensures transitionToWeights == old(transitionToWeights)[t := w]
      ensures forall l <- old(listeners) | l.0 == t.target :: Counted(sr, transitionsToFinalWeights, l, t, w)
      ensures Settles(sr, old(transitionsToFinalWeights), transitionsToFinalWeights, old(listeners), listeners)
    {
      hide Consistent, Counted, Raised, Backed, ListenerBacked, Descends, Uncomputed, Raises;
      hide sr.Laws;
      Parts({});
      RaisedReflexive(sr, transitionsToFinalWeights);
      RaiseConsistent(sr, rank, transitionToWeights, transitionsToFinalWeights, listeners, owed, t, w);
      var todo := set l <- listeners | l.0 == t.target;
      transitionToWeights := transitionToWeights[t := w];
      owed := owed + set l <- listeners | l.0 == t.target :: (l, t);
      ghost var told := {};
      while todo != {}
        invariant Ok() && transitionToWeights == old(transitionToWeights)[t := w]
        invariant Settles(sr, old(transitionsToFinalWeights), transitionsToFinalWeights, old(listeners), listeners)
        invariant owed <= old(owed) + set l <- todo :: (l, t)
        invariant forall l <- told :: Counted(sr, transitionsToFinalWeights, l, t, w)
        invariant told + todo == set l <- old(listeners) | l.0 == t.target
        decreases todo
      {
        var l :| l in todo;
        Parts({});
        sr.LeReflexive(w);
        label before:
        OnInTransitionAdded(l, t, w);
        RaisedTransitive(sr, old(transitionsToFinalWeights), old@before(transitionsToFinalWeights),
          transitionsToFinalWeights);
        StillCounted(sr, old@before(transitionsToFinalWeights), transitionsToFinalWeights, told, t, w);
        PayConsistent(sr, rank, transitionToWeights, transitionsToFinalWeights, listeners, owed, l, t);
        owed := owed - {(l, t)};
        todo, told := todo - {l}, told + {l};
      }
    }

    /** Starts the computation, and returns the values computed so far. */
    method GetTransitionsToFinalWeights() returns (finals: map<Trans<D, N>, W>)
      requires Quiet()
      modifies this
      ensures Quiet() && (Sink, sr.one) in listeners && transitionToWeights == old(transitionToWeights)
      ensures finals == transitionsToFinalWeights
      ensures forall t :: t in finals <==> exists path :: InFamily(transitionToWeights, From(t), path)
      ensures forall t <- finals ::
        && BoundsFamily(sr, transitionToWeights, From(t), finals[t])
        && (forall u :: BoundsFamily(sr, transitionToWeights, From(t), u) ==> sr.Le(finals[t], u))
    {
      hide Consistent, Raised, Backed, Descends, Uncomputed, Raises;
      hide sr.Laws;
      Parts({});
      assert OkBut({(Sink, sr.one)}) by { Unstarted({(Sink, sr.one)}); }
      assert ListenerBacked(sr, transitionToWeights, (Sink, sr.one)) by {
        BackedInitial(sr, transitionToWeights);
        assert StartOf<D, N>(Initial) == Sink;
      }
      RegisterListener((Sink, sr.one));
      finals := transitionsToFinalWeights;
      forall t
        ensures t in finals <==> exists path :: InFamily(transitionToWeights, From(t), path)
        ensures t in finals ==> BoundsFamily(sr, transitionToWeights, From(t), finals[t])
        ensures t in finals ==> forall u :: BoundsFamily(sr, transitionToWeights, From(t), u) ==> sr.Le(finals[t], u)
      {
        KeptExact(t);
      }
    }

    lemma Unstarted(except: set<Listener<D, N, W>>)
      requires Ok()
      ensures OkBut(except)
    {
    }

    /** Once started, the values stay exact as transitions are added and raised. */
    lemma KeptExact(t: Trans<D, N>)
      requires Quiet() && (Sink, sr.one) in listeners
      ensures t in transitionsToFinalWeights <==> exists path :: InFamily(transitionToWeights, From(t), path)
      ensures t in transitionsToFinalWeights ==>
        BoundsFamily(sr, transitionToWeights, From(t), transitionsToFinalWeights[t])
      ensures t in transitionsToFinalWeights ==>
        forall u :: BoundsFamily(sr, transitionToWeights, From(t), u) ==> sr.Le(transitionsToFinalWeights[t], u)
    {
      FinalsExact(sr, transitionToWeights, transitionsToFinalWeights, listeners, t);
    }

    lemma NewWeightBacked(l: Listener<D, N, W>, t: Trans<D, N>, w: W)
      requires sr.Laws() && ListenerBacked(sr, transitionToWeights, l) && t.target == l.0 &&
        AtLeast(sr, transitionToWeights, t, w)
      ensures Backed(sr, transitionToWeights, From(t), sr.extend(l.1, w))
    {
      var f :| StartOf(f) == l.0 && (f.From? ==> f.t.start.Gen?) && Backed(sr, transitionToWeights, f, l.1);
      BackedExtend(sr, transitionToWeights, f, l.1, t, w);
    }

    lemma ValueBacked(t: Trans<D, N>, v: W)
      requires t.start.Gen? && Backed(sr, transitionToWeights, From(t), v)
      ensures ListenerBacked(sr, transitionToWeights, (t.start, v))
    {
      assert StartOf(From(t)) == t.start;
    }
  }
}
