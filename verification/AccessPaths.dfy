/** getAllAliases on one field automaton: the access paths read off it by
    listeners that follow its transitions while they collect the fields. */
module AccessPaths {

  datatype FieldLabel<F> = EmptyField | Epsilon | Named(f: F)

  datatype FieldState<S, V, G> = Fact(stmt: S, val: V) | Alloc(stmt: S, val: V) | Generated(g: G)

  datatype FieldTransition<S, V, G, F> =
    FieldTransition(start: FieldState<S, V, G>, lbl: FieldLabel<F>, target: FieldState<S, V, G>)

  /** The collection that a listener carries: a list, or a set once a field came twice. */
  datatype Fields<F> = AsList(list: seq<F>) | AsSet(elems: set<F>)

  datatype AccessPath<V, F> = AccessPath(base: V, fields: Fields<F>)

  datatype Listener<S, V, G, F> = Listener(state: FieldState<S, V, G>, base: V, fields: Fields<F>)

  function Elements<F>(s: seq<F>): set<F> {
    set f <- s
  }

  function Extended<F(==)>(fields: Fields<F>, lbl: FieldLabel<F>): Fields<F> {
    if !lbl.Named? then fields
    else match fields
      case AsList(list) => if lbl.f in list then AsSet(Elements(list) + {lbl.f}) else AsList(list + [lbl.f])
      case AsSet(elems) => AsSet(elems + {lbl.f})
  }

  ghost predicate AllDistinct<F(!new)>(s: seq<F>) {
    forall i, j :: 0 <= i < j < |s| ==> s[i] != s[j]
  }

  /** The fields in order if they are distinct, and otherwise the set of them. */
  ghost function Collected<F(!new)>(names: seq<F>): Fields<F> {
    if AllDistinct(names) then AsList(names) else AsSet(Elements(names))
  }

  function Name<F>(lbl: FieldLabel<F>): seq<F> {
    if lbl.Named? then [lbl.f] else []
  }

  lemma CollectedExtends<F(!new)>(names: seq<F>, lbl: FieldLabel<F>)
    ensures Extended(Collected(names), lbl) == Collected(names + Name(lbl))
  {
    var more := names + Name(lbl);
    if !lbl.Named? {
      assert more == names;
    } else {
      assert forall i :: 0 <= i < |names| ==> more[i] == names[i];
      assert more[|names|] == lbl.f;
      assert AllDistinct(more) <==> AllDistinct(names) && lbl.f !in names;
      assert Elements(more) == Elements(names) + {lbl.f};
    }
  }

  lemma OneCollected<F(!new)>(lbl: FieldLabel<F>)
    ensures Collected(Name(lbl)) == AsList(Name(lbl))
  {
  }

  // ---------------------------------------------------------------- paths

  function Names<S, V, G, F>(path: seq<FieldTransition<S, V, G, F>>): seq<F> {
    if path == [] then [] else Names(path[..|path| - 1]) + Name(path[|path| - 1].lbl)
  }

  /** A walk from stmt may begin with t. */
  ghost predicate Begins<S(!new), V(!new), G(!new), F(!new)>(t: FieldTransition<S, V, G, F>, stmt: S) {
    !t.start.Generated? && t.start.stmt == stmt && !t.lbl.EmptyField?
  }

  /** A path from a fact at stmt that reads no epsilon after its first transition and
      does not come to the allocation after it. */
  ghost predicate Walk<S(!new), V(!new), G(!new), F(!new)>(
    ts: set<FieldTransition<S, V, G, F>>, alloc: FieldState<S, V, G>, stmt: S, path: seq<FieldTransition<S, V, G, F>>)
  {
    && path != [] && Begins(path[0], stmt)
    && (forall t <- path :: t in ts)
    && forall i :: 1 <= i < |path| ==> GoesOn(alloc, path, i)
  }

  ghost predicate GoesOn<S(!new), V(!new), G(!new), F(!new)>(
    alloc: FieldState<S, V, G>, path: seq<FieldTransition<S, V, G, F>>, i: nat)
    requires 1 <= i < |path|
  {
    path[i].start == path[i - 1].target && !path[i].lbl.Epsilon? && path[i].target != alloc
  }

  ghost predicate At<S(!new), V(!new), G(!new), F(!new)>(
    path: seq<FieldTransition<S, V, G, F>>, l: Listener<S, V, G, F>)
    requires path != [] && !path[0].start.Generated?
  {
    l == Listener(path[|path| - 1].target, path[0].start.val, Collected(Names(path)))
  }

  /** The path leads from a fact at stmt to the allocation, which it reaches at its
      end only, and reads the fields of ap. */
  ghost predicate Yields<S(!new), V(!new), G(!new), F(!new)>(
    ts: set<FieldTransition<S, V, G, F>>, alloc: FieldState<S, V, G>, stmt: S,
    path: seq<FieldTransition<S, V, G, F>>, ap: AccessPath<V, F>)
  {
    var n := |path| - 1;
    && n >= 0 && path[n] in ts && path[n].target == alloc
    && (path[0].start == Fact(stmt, ap.base) || path[0].start == Alloc(stmt, ap.base))
    && ap.fields == Collected(Names(path))
    && if n == 0 then path[0].lbl.EmptyField?
       else Walk(ts, alloc, stmt, path[..n]) && path[n].start == path[n - 1].target && !path[n].lbl.Epsilon?
  }

  // ---------------------------------------------------------------- all listeners there can be

  ghost function Lists<F(!new)>(fs: set<F>, k: nat): set<seq<F>> {
    if k == 0 then {[]} else Lists(fs, k - 1) + set l <- Lists(fs, k - 1), f <- fs :: l + [f]
  }

  lemma {:induction false} InLists<F(!new)>(fs: set<F>, k: nat, l: seq<F>)
    requires Elements(l) <= fs && |l| <= k
    ensures l in Lists(fs, k)
  {
    if l != [] {
      var init := l[..|l| - 1];
      assert Elements(init) <= fs by { forall f | f in init ensures f in fs { assert f in Elements(l); } }
      InLists(fs, k - 1, init);
      assert l[|l| - 1] in Elements(l);
      assert l == init + [l[|l| - 1]];
    } else if k > 0 {
      InLists(fs, k - 1, l);
    }
  }

  lemma {:induction false} DistinctSize<F(!new)>(l: seq<F>)
    requires AllDistinct(l)
    ensures |Elements(l)| == |l|
  {
    if l != [] {
      var init, f := l[..|l| - 1], l[|l| - 1];
      DistinctSize(init);
      assert forall i :: 0 <= i < |init| ==> init[i] == l[i] && l[i] != f;
      assert l == init + [f];
      assert Elements(l) == Elements(init) + {f};
    }
  }

  lemma SubsetSize<T>(a: set<T>, b: set<T>)
    requires a <= b
    ensures |a| <= |b|
  {
    assert b == a + (b - a);
  }

  ghost predicate FieldsFrom<F(!new)>(fields: Fields<F>, fs: set<F>) {
    match fields
    case AsList(list) => AllDistinct(list) && Elements(list) <= fs
    case AsSet(elems) => elems <= fs
  }

  ghost function AllFields<F(!new)>(fs: set<F>): set<Fields<F>> {
    (set l <- Lists(fs, |fs|) :: AsList(l)) + (set s | s <= fs :: AsSet(s))
  }

  lemma AreAllFields<F(!new)>(fields: Fields<F>, fs: set<F>)
    requires FieldsFrom(fields, fs)
    ensures fields in AllFields(fs)
  {
    match fields
    case AsList(list) =>
      DistinctSize(list);
      SubsetSize(Elements(list), fs);
      InLists(fs, |fs|, list);
    case AsSet(elems) =>
  }

  ghost function FieldsOf<S(!new), V(!new), G(!new), F(!new)>(ts: set<FieldTransition<S, V, G, F>>): set<F> {
    set t <- ts | t.lbl.Named? :: t.lbl.f
  }

  ghost predicate Possible<S(!new), V(!new), G(!new), F(!new)>(
    ts: set<FieldTransition<S, V, G, F>>, l: Listener<S, V, G, F>)
  {
    && (exists t <- ts :: t.target == l.state)
    && (exists t <- ts :: !t.start.Generated? && t.start.val == l.base)
    && FieldsFrom(l.fields, FieldsOf(ts))
  }

  ghost function AllListeners<S(!new), V(!new), G(!new), F(!new)>(
    ts: set<FieldTransition<S, V, G, F>>): set<Listener<S, V, G, F>>
  {
    var bases := set t <- ts | !t.start.Generated? :: t.start.val;
    var targets := set t <- ts :: t.target;
    set state <- targets, base <- bases, fields <- AllFields(FieldsOf(ts)) :: Listener(state, base, fields)
  }

  lemma AreAllListeners<S(!new), V(!new), G(!new), F(!new)>(
    ts: set<FieldTransition<S, V, G, F>>, l: Listener<S, V, G, F>)
    requires Possible(ts, l)
    ensures l in AllListeners(ts)
  {
    AreAllFields(l.fields, FieldsOf(ts));
  }

  lemma {:induction false} NamesFrom<S(!new), V(!new), G(!new), F(!new)>(
    ts: set<FieldTransition<S, V, G, F>>, path: seq<FieldTransition<S, V, G, F>>)
    requires forall t <- path :: t in ts
    ensures Elements(Names(path)) <= FieldsOf(ts)
    decreases |path|
  {
    if path != [] {
      var init, t := path[..|path| - 1], path[|path| - 1];
      NamesFrom(ts, init);
      assert t in ts;
      forall f | f in Names(path) ensures f in FieldsOf(ts) {
        if f in Names(init) {
          assert f in Elements(Names(init));
        }
      }
    }
  }

  /** A listener at the end of a walk is one of finitely many. */
  lemma WalkIsPossible<S(!new), V(!new), G(!new), F(!new)>(
    ts: set<FieldTransition<S, V, G, F>>, alloc: FieldState<S, V, G>, stmt: S, path: seq<FieldTransition<S, V, G, F>>,
    l: Listener<S, V, G, F>)
    requires Walk(ts, alloc, stmt, path) && At(path, l)
    ensures Possible(ts, l)
  {
    NamesFrom(ts, path);
    assert path[|path| - 1] in ts && path[0] in ts;
  }

  // ---------------------------------------------------------------- the extraction's state

  type Owners<S(==), V(==), G(==), F(==)> = map<Listener<S, V, G, F>, nat>

  function StartListener<S, V, G, F>(t: FieldTransition<S, V, G, F>): Listener<S, V, G, F>
    requires !t.start.Generated?
  {
    Listener(t.target, t.start.val, AsList(Name(t.lbl)))
  }

  function NextListener<S, V, G, F(==)>(l: Listener<S, V, G, F>, t: FieldTransition<S, V, G, F>): Listener<S, V, G, F> {
    Listener(t.target, l.base, Extended(l.fields, t.lbl))
  }

  function Found<S, V, G, F(==)>(l: Listener<S, V, G, F>, t: FieldTransition<S, V, G, F>): AccessPath<V, F> {
    AccessPath(l.base, Extended(l.fields, t.lbl))
  }

  ghost predicate Followed<S(!new), V(!new), G(!new), F(!new)>(
    alloc: FieldState<S, V, G>, owner: Owners<S, V, G, F>, results: seq<set<AccessPath<V, F>>>,
    l: Listener<S, V, G, F>, t: FieldTransition<S, V, G, F>)
  {
    || t.lbl.Epsilon?
    || (t.target != alloc && NextListener(l, t) in owner)
    || (t.target == alloc && l in owner && owner[l] < |results| && Found(l, t) in results[owner[l]])
  }

  ghost predicate Asked<S(!new), V(!new), G(!new), F(!new)>(
    alloc: FieldState<S, V, G>, owner: Owners<S, V, G, F>, results: seq<set<AccessPath<V, F>>>,
    q: nat, stmt: S, t: FieldTransition<S, V, G, F>)
  {
    || t.start.Generated? || t.start.stmt != stmt
    || (!t.lbl.EmptyField? && StartListener(t) in owner)
    || (t.lbl.EmptyField? && (t.target == alloc ==> q < |results| && AccessPath(t.start.val, AsList([])) in results[q]))
  }

  /** All listeners know all transitions, except for those still to be told. */
  ghost predicate Complete<S(!new), V(!new), G(!new), F(!new)>(
    alloc: FieldState<S, V, G>, ts: set<FieldTransition<S, V, G, F>>, queries: seq<S>, owner: Owners<S, V, G, F>,
    results: seq<set<AccessPath<V, F>>>, owed: set<(Listener<S, V, G, F>, FieldTransition<S, V, G, F>)>,
    open: set<(nat, FieldTransition<S, V, G, F>)>)
  {
    && (forall l, t {:trigger Followed(alloc, owner, results, l, t)} :: l in owner && t in ts && t.start == l.state ==>
          Followed(alloc, owner, results, l, t) || (l, t) in owed)
    && (forall q: nat, t {:trigger Asked(alloc, owner, results, q, queries[q], t)} :: q < |queries| && t in ts ==>
          Asked(alloc, owner, results, q, queries[q], t) || (q, t) in open)
  }

  ghost predicate OnWalk<S(!new), V(!new), G(!new), F(!new)>(
    ts: set<FieldTransition<S, V, G, F>>, alloc: FieldState<S, V, G>, stmt: S, l: Listener<S, V, G, F>)
  {
    exists path :: Walk(ts, alloc, stmt, path) && At(path, l)
  }

  ghost predicate Yielded<S(!new), V(!new), G(!new), F(!new)>(
    ts: set<FieldTransition<S, V, G, F>>, alloc: FieldState<S, V, G>, stmt: S, ap: AccessPath<V, F>)
  {
    exists path :: Yields(ts, alloc, stmt, path, ap)
  }

  /** t is a direct access path of a fact at stmt. */
  ghost predicate Direct<S(!new), V(!new), G(!new), F(!new)>(
    alloc: FieldState<S, V, G>, stmt: S, t: FieldTransition<S, V, G, F>)
  {
    !t.start.Generated? && t.start.stmt == stmt && t.lbl.EmptyField? && t.target == alloc
  }

  /** The access paths without fields. */
  ghost function DirectPaths<S(!new), V(!new), G(!new), F(!new)>(
    alloc: FieldState<S, V, G>, stmt: S, ts: set<FieldTransition<S, V, G, F>>): set<AccessPath<V, F>>
  {
    set t <- ts | Direct(alloc, stmt, t) :: AccessPath(t.start.val, AsList([]))
  }

  /** The listener l reports ap. */
  ghost predicate Reports<S(!new), V(!new), G(!new), F(!new)>(
    alloc: FieldState<S, V, G>, ts: set<FieldTransition<S, V, G, F>>, l: Listener<S, V, G, F>, ap: AccessPath<V, F>)
  {
    exists t <- ts :: t.start == l.state && !t.lbl.Epsilon? && t.target == alloc && ap == Found(l, t)
  }

  /** ap comes from a direct transition, or from a listener that reports to q. */
  ghost predicate Attributed<S(!new), V(!new), G(!new), F(!new)>(
    alloc: FieldState<S, V, G>, ts: set<FieldTransition<S, V, G, F>>, owner: Owners<S, V, G, F>,
    q: nat, stmt: S, ap: AccessPath<V, F>)
  {
    ap in DirectPaths(alloc, stmt, ts) || exists l <- owner :: owner[l] == q && Reports(alloc, ts, l, ap)
  }

  /** Only what is on a path is followed, and only what a query's own listeners
      found is reported to it. */
  ghost predicate Sound<S(!new), V(!new), G(!new), F(!new)>(
    alloc: FieldState<S, V, G>, ts: set<FieldTransition<S, V, G, F>>, queries: seq<S>, owner: Owners<S, V, G, F>,
    results: seq<set<AccessPath<V, F>>>)
  {
    && |results| == |queries|
    && (forall l <- owner :: owner[l] < |queries| && OnWalk(ts, alloc, queries[owner[l]], l))
    && (forall q: nat, ap :: q < |results| && ap in results[q] ==> Attributed(alloc, ts, owner, q, queries[q], ap))
  }

  lemma StartOnWalk<S(!new), V(!new), G(!new), F(!new)>(
    ts: set<FieldTransition<S, V, G, F>>, alloc: FieldState<S, V, G>, stmt: S, t: FieldTransition<S, V, G, F>)
    requires t in ts && Begins(t, stmt)
    ensures OnWalk(ts, alloc, stmt, StartListener(t))
  {
    var path := [t];
    assert path[..0] == [] && Names(path) == Name(t.lbl);
    assert Walk(ts, alloc, stmt, path) && At(path, StartListener(t));
  }

  lemma NamesExtend<S, V, G, F>(path: seq<FieldTransition<S, V, G, F>>, t: FieldTransition<S, V, G, F>)
    ensures Names(path + [t]) == Names(path) + Name(t.lbl)
  {
    assert (path + [t])[..|path|] == path;
  }

  lemma NextOnWalk<S(!new), V(!new), G(!new), F(!new)>(
    ts: set<FieldTransition<S, V, G, F>>, alloc: FieldState<S, V, G>, stmt: S, l: Listener<S, V, G, F>,
    t: FieldTransition<S, V, G, F>)
    requires OnWalk(ts, alloc, stmt, l) && t in ts && t.start == l.state && !t.lbl.Epsilon?
    ensures t.target != alloc ==> OnWalk(ts, alloc, stmt, NextListener(l, t))
    ensures t.target == alloc ==> Yielded(ts, alloc, stmt, Found(l, t))
  {
    var path :| Walk(ts, alloc, stmt, path) && At(path, l);
    assert path != [] && Begins(path[0], stmt);
    hide Walk, Collected, Extended, Names;
    NamesExtend(path, t);
    CollectedExtends(Names(path), t.lbl);
    var path' := path + [t];
    assert path'[..|path|] == path && path'[0] == path[0];
    if t.target != alloc {
      WalkExtends(ts, alloc, stmt, path, t);
      assert At(path', NextListener(l, t));
    } else {
      assert Yields(ts, alloc, stmt, path', Found(l, t));
    }
  }

  lemma WalkExtends<S(!new), V(!new), G(!new), F(!new)>(
    ts: set<FieldTransition<S, V, G, F>>, alloc: FieldState<S, V, G>, stmt: S, path: seq<FieldTransition<S, V, G, F>>,
    t: FieldTransition<S, V, G, F>)
    requires Walk(ts, alloc, stmt, path)
    requires t in ts && t.start == path[|path| - 1].target && !t.lbl.Epsilon? && t.target != alloc
    ensures Walk(ts, alloc, stmt, path + [t])
  {
    var path' := path + [t];
    forall i | 1 <= i < |path'| ensures GoesOn(alloc, path', i) {
      assert i < |path| ==> GoesOn(alloc, path, i);
    }
  }

  lemma DirectYields<S(!new), V(!new), G(!new), F(!new)>(
    ts: set<FieldTransition<S, V, G, F>>, alloc: FieldState<S, V, G>, stmt: S, t: FieldTransition<S, V, G, F>)
    requires t in ts && Direct(alloc, stmt, t)
    ensures Yielded(ts, alloc, stmt, AccessPath(t.start.val, AsList([])))
  {
    var path := [t];
    assert path[..0] == [] && Names(path) == [];
    assert Yields(ts, alloc, stmt, path, AccessPath(t.start.val, AsList([])));
  }

  /** What is attributed to a query is yielded by a path. */
  lemma AttributedYields<S(!new), V(!new), G(!new), F(!new)>(
    alloc: FieldState<S, V, G>, ts: set<FieldTransition<S, V, G, F>>, queries: seq<S>, owner: Owners<S, V, G, F>,
    results: seq<set<AccessPath<V, F>>>, q: nat, ap: AccessPath<V, F>)
    requires Sound(alloc, ts, queries, owner, results) && q < |queries|
    requires Attributed(alloc, ts, owner, q, queries[q], ap)
    ensures Yielded(ts, alloc, queries[q], ap)
  {
    if ap in DirectPaths(alloc, queries[q], ts) {
      var t :| t in ts && Direct(alloc, queries[q], t) && ap == AccessPath(t.start.val, AsList([]));
      DirectYields(ts, alloc, queries[q], t);
    } else {
      var l :| l in owner && owner[l] == q && Reports(alloc, ts, l, ap);
      var t :| t in ts && t.start == l.state && !t.lbl.Epsilon? && t.target == alloc && ap == Found(l, t);
      NextOnWalk(ts, alloc, queries[q], l, t);
    }
  }

  /** A longer walk to l ends with a step to l from the end of a shorter one. */
  lemma LastStep<S(!new), V(!new), G(!new), F(!new)>(
    ts: set<FieldTransition<S, V, G, F>>, alloc: FieldState<S, V, G>, stmt: S, path: seq<FieldTransition<S, V, G, F>>,
    l: Listener<S, V, G, F>) returns (l': Listener<S, V, G, F>)
    requires Walk(ts, alloc, stmt, path) && At(path, l) && |path| > 1
    ensures Walk(ts, alloc, stmt, path[..|path| - 1]) && At(path[..|path| - 1], l')
    ensures path[|path| - 1].start == l'.state && l == NextListener(l', path[|path| - 1])
  {
    hide Collected, Extended;
    var n := |path| - 1;
    var init := path[..n];
    forall i | 1 <= i < |init| ensures GoesOn(alloc, init, i) {
      assert GoesOn(alloc, path, i);
    }
    assert GoesOn(alloc, path, n) && path == init + [path[n]];
    NamesExtend(init, path[n]);
    CollectedExtends(Names(init), path[n].lbl);
    l' := Listener(init[n - 1].target, init[0].start.val, Collected(Names(init)));
  }

  /** Every walk has been followed to its end. */
  lemma {:induction false} WalkFollowed<S(!new), V(!new), G(!new), F(!new)>(
    alloc: FieldState<S, V, G>, ts: set<FieldTransition<S, V, G, F>>, queries: seq<S>, owner: Owners<S, V, G, F>,
    results: seq<set<AccessPath<V, F>>>, q: nat, path: seq<FieldTransition<S, V, G, F>>, l: Listener<S, V, G, F>)
    requires Complete(alloc, ts, queries, owner, results, {}, {}) && q < |queries|
    requires Walk(ts, alloc, queries[q], path) && At(path, l)
    ensures l in owner
    decreases |path|
  {
    hide Collected, Extended;
    var n := |path| - 1;
    var t := path[n];
    assert t in path;
    if n == 0 {
      assert path[..0] == [] && Names(path) == Name(t.lbl);
      OneCollected(t.lbl);
      assert Asked(alloc, owner, results, q, queries[q], t);
    } else {
      var l' := LastStep(ts, alloc, queries[q], path, l);
      WalkFollowed(alloc, ts, queries, owner, results, q, path[..n], l');
      assert GoesOn(alloc, path, n);
      assert Followed(alloc, owner, results, l', t);
    }
  }

  /** Every access path that a query yields is among the results of this query or,
      if an equal listener was there before, among those of another one. */
  lemma YieldsFound<S(!new), V(!new), G(!new), F(!new)>(
    alloc: FieldState<S, V, G>, ts: set<FieldTransition<S, V, G, F>>, queries: seq<S>, owner: Owners<S, V, G, F>,
    results: seq<set<AccessPath<V, F>>>, q: nat, ap: AccessPath<V, F>)
    requires Complete(alloc, ts, queries, owner, results, {}, {}) && q < |queries| && |results| == |queries|
    requires Yielded(ts, alloc, queries[q], ap)
    ensures exists r: nat :: r < |results| && ap in results[r]
  {
    hide Yields, Complete, Names, Collected, Extended;
    var path: seq<FieldTransition<S, V, G, F>> :| Yields(ts, alloc, queries[q], path, ap);
    YieldEnds(ts, alloc, queries[q], path, ap);
    if |path| == 1 {
      DirectFound(alloc, ts, queries, owner, results, q, path[0]);
    } else {
      var l :| At(path[..|path| - 1], l) && path[|path| - 1].start == l.state && Found(l, path[|path| - 1]) == ap;
      LongerYieldFound(alloc, ts, queries, owner, results, q, path[..|path| - 1], l, path[|path| - 1]);
    }
  }

  /** A yielding path is one direct transition, or a walk and a transition that reports. */
  lemma YieldEnds<S(!new), V(!new), G(!new), F(!new)>(
    ts: set<FieldTransition<S, V, G, F>>, alloc: FieldState<S, V, G>, stmt: S, path: seq<FieldTransition<S, V, G, F>>,
    ap: AccessPath<V, F>)
    requires Yields(ts, alloc, stmt, path, ap)
    ensures path != [] && path[|path| - 1] in ts
    ensures |path| == 1 ==> Direct(alloc, stmt, path[0]) && ap == AccessPath(path[0].start.val, AsList([]))
    ensures |path| > 1 ==> Walk(ts, alloc, stmt, path[..|path| - 1])
    ensures |path| > 1 ==> path[|path| - 1].target == alloc && !path[|path| - 1].lbl.Epsilon?
    ensures |path| > 1 ==> exists l :: At(path[..|path| - 1], l) && path[|path| - 1].start == l.state &&
                                       Found(l, path[|path| - 1]) == ap
  {
    hide Walk, Collected, Extended;
    var n := |path| - 1;
    var t, init := path[n], path[..n];
    if n == 0 {
      assert init == [] && Names(init) == [] && Names(path) == Name(t.lbl);
      OneCollected(t.lbl);
    } else {
      hide Names;
      assert path == init + [t] && init[0] == path[0] && init[n - 1] == path[n - 1];
      NamesExtend(init, t);
      CollectedExtends(Names(init), t.lbl);
      var l := Listener(init[n - 1].target, init[0].start.val, Collected(Names(init)));
      assert At(init, l) && t.start == l.state && Found(l, t) == ap;
    }
  }

  lemma DirectFound<S(!new), V(!new), G(!new), F(!new)>(
    alloc: FieldState<S, V, G>, ts: set<FieldTransition<S, V, G, F>>, queries: seq<S>, owner: Owners<S, V, G, F>,
    results: seq<set<AccessPath<V, F>>>, q: nat, t: FieldTransition<S, V, G, F>)
    requires Complete(alloc, ts, queries, owner, results, {}, {}) && q < |queries| && |results| == |queries|
    requires t in ts && Direct(alloc, queries[q], t)
    ensures AccessPath(t.start.val, AsList([])) in results[q]
  {
    assert Asked(alloc, owner, results, q, queries[q], t);
  }

  lemma LongerYieldFound<S(!new), V(!new), G(!new), F(!new)>(
    alloc: FieldState<S, V, G>, ts: set<FieldTransition<S, V, G, F>>, queries: seq<S>, owner: Owners<S, V, G, F>,
    results: seq<set<AccessPath<V, F>>>, q: nat, init: seq<FieldTransition<S, V, G, F>>, l: Listener<S, V, G, F>,
    t: FieldTransition<S, V, G, F>)
    requires Complete(alloc, ts, queries, owner, results, {}, {}) && q < |queries| && |results| == |queries|
    requires Walk(ts, alloc, queries[q], init) && At(init, l)
    requires t in ts && t.start == l.state && !t.lbl.Epsilon? && t.target == alloc
    ensures exists r: nat :: r < |results| && Found(l, t) in results[r]
  {
    hide Walk, Collected, Extended, Asked, Names;
    WalkFollowed(alloc, ts, queries, owner, results, q, init, l);
    assert Followed(alloc, owner, results, l, t);
  }

  /** Some listener on a walk from stmt, and on no walk of an earlier query,
      reports ap. */
  ghost predicate Fresh<S(!new), V(!new), G(!new), F(!new)>(
    alloc: FieldState<S, V, G>, ts: set<FieldTransition<S, V, G, F>>, earlier: seq<S>, stmt: S, ap: AccessPath<V, F>)
  {
    exists l :: OnWalk(ts, alloc, stmt, l) && !WalkedBefore(alloc, ts, earlier, l) && Reports(alloc, ts, l, ap)
  }

  ghost predicate WalkedBefore<S(!new), V(!new), G(!new), F(!new)>(
    alloc: FieldState<S, V, G>, ts: set<FieldTransition<S, V, G, F>>, earlier: seq<S>, l: Listener<S, V, G, F>)
  {
    exists i :: 0 <= i < |earlier| && OnWalk(ts, alloc, earlier[i], l)
  }

  /** What a query at stmt finds after the earlier ones. */
  ghost predicate FoundAnew<S(!new), V(!new), G(!new), F(!new)>(
    alloc: FieldState<S, V, G>, ts: set<FieldTransition<S, V, G, F>>, earlier: seq<S>, stmt: S, ap: AccessPath<V, F>)
  {
    ap in DirectPaths(alloc, stmt, ts) || Fresh(alloc, ts, earlier, stmt, ap)
  }

  /** When nothing is to be told any more, the registered listeners are those on
      the walks of the queries. */
  lemma RegisteredIffWalked<S(!new), V(!new), G(!new), F(!new)>(
    alloc: FieldState<S, V, G>, ts: set<FieldTransition<S, V, G, F>>, queries: seq<S>, owner: Owners<S, V, G, F>,
    results: seq<set<AccessPath<V, F>>>, l: Listener<S, V, G, F>)
    requires Complete(alloc, ts, queries, owner, results, {}, {}) && Sound(alloc, ts, queries, owner, results)
    ensures l in owner <==> WalkedBefore(alloc, ts, queries, l)
  {
    if WalkedBefore(alloc, ts, queries, l) {
      var q :| 0 <= q < |queries| && OnWalk(ts, alloc, queries[q], l);
      var path :| Walk(ts, alloc, queries[q], path) && At(path, l);
      WalkFollowed(alloc, ts, queries, owner, results, q, path, l);
    }
  }

  /** The results of a query are exactly the direct access paths and those that
      its own listeners report. */
  lemma FoundIsAttributed<S(!new), V(!new), G(!new), F(!new)>(
    alloc: FieldState<S, V, G>, ts: set<FieldTransition<S, V, G, F>>, queries: seq<S>, owner: Owners<S, V, G, F>,
    results: seq<set<AccessPath<V, F>>>, q: nat, ap: AccessPath<V, F>)
    requires Complete(alloc, ts, queries, owner, results, {}, {}) && Sound(alloc, ts, queries, owner, results)
    requires q < |queries|
    ensures ap in results[q] <==> Attributed(alloc, ts, owner, q, queries[q], ap)
    ensures ap in results[q] ==> Yielded(ts, alloc, queries[q], ap)
  {
    hide OnWalk, Yielded, Extended;
    if Attributed(alloc, ts, owner, q, queries[q], ap) {
      AttributedYields(alloc, ts, queries, owner, results, q, ap);
      if ap in DirectPaths(alloc, queries[q], ts) {
        var t :| t in ts && Direct(alloc, queries[q], t) && ap == AccessPath(t.start.val, AsList([]));
        assert Asked(alloc, owner, results, q, queries[q], t);
      } else {
        var l :| l in owner && owner[l] == q && Reports(alloc, ts, l, ap);
        var t :| t in ts && t.start == l.state && !t.lbl.Epsilon? && t.target == alloc && ap == Found(l, t);
        assert Followed(alloc, owner, results, l, t);
      }
    }
  }

  /** If query q is the last one and owns all listeners that are not on earlier
      walks, it has found exactly what no earlier query's listeners stand for. */
  lemma LastQueryFinds<S(!new), V(!new), G(!new), F(!new)>(
    alloc: FieldState<S, V, G>, ts: set<FieldTransition<S, V, G, F>>, queries: seq<S>, owner: Owners<S, V, G, F>,
    results: seq<set<AccessPath<V, F>>>, q: nat, ap: AccessPath<V, F>)
    requires Complete(alloc, ts, queries, owner, results, {}, {}) && Sound(alloc, ts, queries, owner, results)
    requires q == |queries| - 1
    requires forall l <- owner :: owner[l] == q <==> !WalkedBefore(alloc, ts, queries[..q], l)
    ensures ap in results[q] <==> FoundAnew(alloc, ts, queries[..q], queries[q], ap)
  {
    hide OnWalk, Reports, DirectPaths, Complete, WalkedBefore;
    FoundIsAttributed(alloc, ts, queries, owner, results, q, ap);
    if Fresh(alloc, ts, queries[..q], queries[q], ap) {
      var l :| OnWalk(ts, alloc, queries[q], l) && !WalkedBefore(alloc, ts, queries[..q], l) &&
        Reports(alloc, ts, l, ap);
      assert WalkedBefore(alloc, ts, queries, l) by { Walked(alloc, ts, queries, q, l); }
      RegisteredIffWalked(alloc, ts, queries, owner, results, l);
    }
  }

  lemma Walked<S(!new), V(!new), G(!new), F(!new)>(
    alloc: FieldState<S, V, G>, ts: set<FieldTransition<S, V, G, F>>, queries: seq<S>, q: nat, l: Listener<S, V, G, F>)
    requires q < |queries| && OnWalk(ts, alloc, queries[q], l)
    ensures WalkedBefore(alloc, ts, queries, l)
  {
  }

  // ---------------------------------------------------------------- steps

  ghost predicate Grown<S(!new), V(!new), G(!new), F(!new)>(
    owner: Owners<S, V, G, F>, results: seq<set<AccessPath<V, F>>>, owner': Owners<S, V, G, F>,
    results': seq<set<AccessPath<V, F>>>)
  {
    && (forall l <- owner :: l in owner' && owner'[l] == owner[l])
    && |results| == |results'|
    && forall q: nat :: q < |results| ==> results[q] <= results'[q]
  }

  lemma ListenStep<S(!new), V(!new), G(!new), F(!new)>(
    alloc: FieldState<S, V, G>, ts: set<FieldTransition<S, V, G, F>>, queries: seq<S>, owner: Owners<S, V, G, F>,
    results: seq<set<AccessPath<V, F>>>, owed: set<(Listener<S, V, G, F>, FieldTransition<S, V, G, F>)>,
    open: set<(nat, FieldTransition<S, V, G, F>)>, l: Listener<S, V, G, F>, r: nat)
    requires Complete(alloc, ts, queries, owner, results, owed, open) && Sound(alloc, ts, queries, owner, results)
    requires l !in owner && r < |queries| && OnWalk(ts, alloc, queries[r], l)
    ensures Complete(
        alloc, ts, queries, owner[l := r], results, owed + set t <- ts | t.start == l.state :: (l, t), open)
    ensures Sound(alloc, ts, queries, owner[l := r], results)
    ensures Grown(owner, results, owner[l := r], results)
  {
    hide OnWalk, Reports, DirectPaths;
    var owner' := owner[l := r];
    forall l', t ensures Followed(alloc, owner, results, l', t) ==> Followed(alloc, owner', results, l', t) { }
    forall q: nat, t | q < |queries|
      ensures Asked(alloc, owner, results, q, queries[q], t) ==> Asked(alloc, owner', results, q, queries[q], t)
    {
    }
    forall q: nat, ap | q < |results| && ap in results[q] ensures Attributed(alloc, ts, owner', q, queries[q], ap) {
      assert Attributed(alloc, ts, owner, q, queries[q], ap);
    }
  }

  lemma ReportStep<S(!new), V(!new), G(!new), F(!new)>(
    alloc: FieldState<S, V, G>, ts: set<FieldTransition<S, V, G, F>>, queries: seq<S>, owner: Owners<S, V, G, F>,
    results: seq<set<AccessPath<V, F>>>, owed: set<(Listener<S, V, G, F>, FieldTransition<S, V, G, F>)>,
    open: set<(nat, FieldTransition<S, V, G, F>)>, r: nat, ap: AccessPath<V, F>)
    requires Complete(alloc, ts, queries, owner, results, owed, open) && Sound(alloc, ts, queries, owner, results)
    requires r < |queries| && Attributed(alloc, ts, owner, r, queries[r], ap)
    ensures Complete(alloc, ts, queries, owner, results[r := results[r] + {ap}], owed, open)
    ensures Sound(alloc, ts, queries, owner, results[r := results[r] + {ap}])
    ensures Grown(owner, results, owner, results[r := results[r] + {ap}])
  {
    hide OnWalk, Attributed;
    var results' := results[r := results[r] + {ap}];
    forall l <- owner, t <- ts | t.start == l.state
      ensures Followed(alloc, owner, results', l, t) || (l, t) in owed
    {
      assert Followed(alloc, owner, results, l, t) ==> Followed(alloc, owner, results', l, t);
    }
    forall q: nat, t <- ts | q < |queries|
      ensures Asked(alloc, owner, results', q, queries[q], t) || (q, t) in open
    {
      assert Asked(alloc, owner, results, q, queries[q], t) ==> Asked(alloc, owner, results', q, queries[q], t);
    }
  }

  lemma PayStep<S(!new), V(!new), G(!new), F(!new)>(
    alloc: FieldState<S, V, G>, ts: set<FieldTransition<S, V, G, F>>, queries: seq<S>, owner: Owners<S, V, G, F>,
    results: seq<set<AccessPath<V, F>>>, owed: set<(Listener<S, V, G, F>, FieldTransition<S, V, G, F>)>,
    open: set<(nat, FieldTransition<S, V, G, F>)>, l: Listener<S, V, G, F>, t: FieldTransition<S, V, G, F>)
    requires Complete(alloc, ts, queries, owner, results, owed, open) && Followed(alloc, owner, results, l, t)
    ensures Complete(alloc, ts, queries, owner, results, owed - {(l, t)}, open)
  {
  }

  lemma AnswerStep<S(!new), V(!new), G(!new), F(!new)>(
    alloc: FieldState<S, V, G>, ts: set<FieldTransition<S, V, G, F>>, queries: seq<S>, owner: Owners<S, V, G, F>,
    results: seq<set<AccessPath<V, F>>>, owed: set<(Listener<S, V, G, F>, FieldTransition<S, V, G, F>)>,
    open: set<(nat, FieldTransition<S, V, G, F>)>, q: nat, t: FieldTransition<S, V, G, F>)
    requires Complete(alloc, ts, queries, owner, results, owed, open)
    requires q < |queries| && Asked(alloc, owner, results, q, queries[q], t)
    ensures Complete(alloc, ts, queries, owner, results, owed, open - {(q, t)})
  {
  }

  lemma AttributedOnMore<S(!new), V(!new), G(!new), F(!new)>(
    alloc: FieldState<S, V, G>, ts: set<FieldTransition<S, V, G, F>>, ts': set<FieldTransition<S, V, G, F>>,
    owner: Owners<S, V, G, F>, q: nat, stmt: S, ap: AccessPath<V, F>)
    requires ts <= ts' && Attributed(alloc, ts, owner, q, stmt, ap)
    ensures Attributed(alloc, ts', owner, q, stmt, ap)
  {
    if ap !in DirectPaths(alloc, stmt, ts) {
      var l :| l in owner && owner[l] == q && Reports(alloc, ts, l, ap);
      assert Reports(alloc, ts', l, ap);
    }
  }

  lemma OnMoreTransitions<S(!new), V(!new), G(!new), F(!new)>(
    ts: set<FieldTransition<S, V, G, F>>, ts': set<FieldTransition<S, V, G, F>>, alloc: FieldState<S, V, G>, stmt: S)
    requires ts <= ts'
    ensures forall l :: OnWalk(ts, alloc, stmt, l) ==> OnWalk(ts', alloc, stmt, l)
  {
    forall l | OnWalk(ts, alloc, stmt, l) ensures OnWalk(ts', alloc, stmt, l) {
      var path :| Walk(ts, alloc, stmt, path) && At(path, l);
      assert Walk(ts', alloc, stmt, path);
    }
  }

  /** Each registered listener at the start of t, to be told t. */
  ghost function Due<S(!new), V(!new), G(!new), F(!new)>(
    owner: Owners<S, V, G, F>, t: FieldTransition<S, V, G, F>): set<(Listener<S, V, G, F>, FieldTransition<S, V, G, F>)>
  {
    set l <- owner | l.state == t.start :: (l, t)
  }

  /** A new transition, which the listeners and the queries are still to be told. */
  lemma TransitionStep<S(!new), V(!new), G(!new), F(!new)>(
    alloc: FieldState<S, V, G>, ts: set<FieldTransition<S, V, G, F>>, queries: seq<S>, owner: Owners<S, V, G, F>,
    results: seq<set<AccessPath<V, F>>>, owed: set<(Listener<S, V, G, F>, FieldTransition<S, V, G, F>)>,
    open: set<(nat, FieldTransition<S, V, G, F>)>, t: FieldTransition<S, V, G, F>)
    requires Complete(alloc, ts, queries, owner, results, owed, open) && Sound(alloc, ts, queries, owner, results)
    ensures Complete(alloc, ts + {t}, queries, owner, results,
              owed + Due(owner, t), open + set q: nat | q < |queries| :: (q, t))
    ensures Sound(alloc, ts + {t}, queries, owner, results)
  {
    hide Asked, Followed, OnWalk, Attributed;
    var ts' := ts + {t};
    forall l <- owner ensures OnWalk(ts', alloc, queries[owner[l]], l) {
      OnMoreTransitions(ts, ts', alloc, queries[owner[l]]);
    }
    forall q: nat, ap | q < |results| && ap in results[q] ensures Attributed(alloc, ts', owner, q, queries[q], ap) {
      AttributedOnMore(alloc, ts, ts', owner, q, queries[q], ap);
    }
  }

  lemma QueryStep<S(!new), V(!new), G(!new), F(!new)>(
    alloc: FieldState<S, V, G>, ts: set<FieldTransition<S, V, G, F>>, queries: seq<S>, owner: Owners<S, V, G, F>,
    results: seq<set<AccessPath<V, F>>>, stmt: S)
    requires Complete(alloc, ts, queries, owner, results, {}, {}) && Sound(alloc, ts, queries, owner, results)
    ensures Complete(alloc, ts, queries + [stmt], owner, results + [{}], {}, set t <- ts :: (|queries|, t))
    ensures Sound(alloc, ts, queries + [stmt], owner, results + [{}])
  {
    hide OnWalk, Attributed;
    var queries', results' := queries + [stmt], results + [{}];
    forall l <- owner, t <- ts | t.start == l.state ensures Followed(alloc, owner, results', l, t) {
      assert Followed(alloc, owner, results, l, t);
    }
    forall q: nat, t <- ts | q < |queries'|
      ensures Asked(alloc, owner, results', q, queries'[q], t) || (q, t) in (set t <- ts :: (|queries|, t))
    {
      assert q < |queries| ==> Asked(alloc, owner, results, q, queries[q], t);
    }
  }

  lemma GrownTransitive<S(!new), V(!new), G(!new), F(!new)>(
    o0: Owners<S, V, G, F>, r0: seq<set<AccessPath<V, F>>>, o1: Owners<S, V, G, F>, r1: seq<set<AccessPath<V, F>>>,
    o2: Owners<S, V, G, F>, r2: seq<set<AccessPath<V, F>>>)
    requires Grown(o0, r0, o1, r1) && Grown(o1, r1, o2, r2)
    ensures Grown(o0, r0, o2, r2)
  {
  }

  lemma ListenersPossible<S(!new), V(!new), G(!new), F(!new)>(
    alloc: FieldState<S, V, G>, ts: set<FieldTransition<S, V, G, F>>, stmt: S, l: Listener<S, V, G, F>)
    requires OnWalk(ts, alloc, stmt, l)
    ensures l in AllListeners(ts)
  {
    var path :| Walk(ts, alloc, stmt, path) && At(path, l);
    WalkIsPossible(ts, alloc, stmt, path, l);
    AreAllListeners(ts, l);
  }

  // ---------------------------------------------------------------- the extraction

  predicate Starts<S(==), V, G, F>(t: FieldTransition<S, V, G, F>, stmt: S) {
    !t.start.Generated? && t.start.stmt == stmt
  }

  lemma DirectPathsAdd<S(!new), V(!new), G(!new), F(!new)>(
    alloc: FieldState<S, V, G>, stmt: S, ts: set<FieldTransition<S, V, G, F>>, t: FieldTransition<S, V, G, F>)
    ensures DirectPaths(alloc, stmt, ts + {t}) == DirectPaths(alloc, stmt, ts) + DirectPaths(alloc, stmt, {t})
  {
  }

  /** A field automaton with the listeners that getAllAliases registers on it. */
  class AliasExtraction<S(==, !new), V(==, !new), G(==, !new), F(==, !new)> {
    const allocNode: FieldState<S, V, G>
    var transitions: set<FieldTransition<S, V, G, F>>
    /** The statements of the queries so far; results[q] is what query q found. */
    var queries: seq<S>
    var results: seq<set<AccessPath<V, F>>>
    /** The registered state listeners and the query each of them reports to; equal
        listeners are registered once. */
    var owner: Owners<S, V, G, F>
    ghost var owed: set<(Listener<S, V, G, F>, FieldTransition<S, V, G, F>)>
    ghost var open: set<(nat, FieldTransition<S, V, G, F>)>

    ghost predicate Ok()
      reads this
    {
      && Complete(allocNode, transitions, queries, owner, results, owed, open)
      && Sound(allocNode, transitions, queries, owner, results)
    }

    ghost predicate Quiet()
      reads this
    {
      Ok() && owed == {} && open == {}
    }

    twostate predicate Continues()
      reads this
    {
      && Ok() && transitions == old(transitions) && queries == old(queries)
      && owed <= old(owed) && open == old(open)
      && Grown(old(owner), old(results), owner, results)
    }

    ghost function Unregistered(): set<Listener<S, V, G, F>>
      reads this
    {
      AllListeners(transitions) - owner.Keys
    }

    constructor (allocNode: FieldState<S, V, G>)
      ensures Quiet() && this.allocNode == allocNode && transitions == {} && queries == [] && owner == map[]
    {
      this.allocNode := allocNode;
      transitions, queries, results, owner, owed, open := {}, [], [], map[], {}, {};
    }

    method RegisterListener(l: Listener<S, V, G, F>, q: nat)
      requires Ok() && q < |queries| && OnWalk(transitions, allocNode, queries[q], l)
      modifies this
      ensures Continues() && l in owner
      ensures l in old(owner) ==> owner == old(owner) && results == old(results) && owed == old(owed)
      ensures forall l' <- owner :: l' in old(owner) || owner[l'] == q
      decreases Unregistered(), 0
    {
      hide Complete, Sound, Followed, OnWalk, Yielded, AllListeners;
      if l in owner {
        return;
      }
      ListenersPossible(allocNode, transitions, queries[q], l);
      ListenStep(allocNode, transitions, queries, owner, results, owed, open, l, q);
      owner := owner[l := q];
      owed := owed + set t <- transitions | t.start == l.state :: (l, t);
      var todo := set t <- transitions | t.start == l.state;
      while todo != {}
        invariant Ok() && transitions == old(transitions) && queries == old(queries) && open == old(open)
        invariant Grown(old(owner), old(results), owner, results) && l in owner && owner[l] == q
        invariant forall l' <- owner :: l' in old(owner) || owner[l'] == q
        invariant todo <= set t <- transitions | t.start == l.state
        invariant owed <= old(owed) + set t <- todo :: (l, t)
        decreases todo
      {
        var t :| t in todo;
        label before:
        OnOutTransitionAdded(l, q, t);
        GrownTransitive(old(owner), old(results), old@before(owner), old@before(results), owner, results);
        PayStep(allocNode, transitions, queries, owner, results, owed, open, l, t);
        owed := owed - {(l, t)};
        todo := todo - {t};
      }
    }

    /** onOutTransitionAdded of the listener l, which reports to query q */
    method OnOutTransitionAdded(l: Listener<S, V, G, F>, q: nat, t: FieldTransition<S, V, G, F>)
      requires Ok() && l in owner && owner[l] == q && q < |queries| && t in transitions && t.start == l.state
      modifies this
      ensures Continues() && Followed(allocNode, owner, results, l, t)
      ensures forall l' <- owner :: l' in old(owner) || owner[l'] == q
      decreases Unregistered(), 1
    {
      hide Complete, OnWalk, AllListeners;
      if t.lbl.Epsilon? {
        return;
      }
      NextOnWalk(transitions, allocNode, queries[q], l, t);
      if t.target == allocNode {
        assert Reports(allocNode, transitions, l, Found(l, t));
        ReportStep(allocNode, transitions, queries, owner, results, owed, open, q, Found(l, t));
        results := results[q := results[q] + {Found(l, t)}];
      } else {
        RegisterListener(NextListener(l, t), q);
      }
    }

    /** onWeightAdded of the update listener of query q */
    method OnWeightAdded(q: nat, t: FieldTransition<S, V, G, F>)
      requires Ok() && q < |queries| && t in transitions
      modifies this
      ensures Continues() && Asked(allocNode, owner, results, q, queries[q], t)
      ensures forall l' <- owner :: l' in old(owner) || owner[l'] == q
      ensures (Begins(t, queries[q]) ==> StartListener(t) in old(owner)) ==>
        owner == old(owner) && owed == old(owed) &&
        results[q] == old(results)[q] + DirectPaths(allocNode, queries[q], {t})
    {
      hide Complete, OnWalk, Yielded, AllListeners;
      if Starts(t, queries[q]) {
        var base := t.start.val;
        if t.lbl.EmptyField? {
          if t.target == allocNode {
            assert Direct(allocNode, queries[q], t);
            assert AccessPath(base, AsList([])) in DirectPaths(allocNode, queries[q], transitions);
            ReportStep(allocNode, transitions, queries, owner, results, owed, open, q, AccessPath(base, AsList([])));
            results := results[q := results[q] + {AccessPath(base, AsList([]))}];
          }
        } else {
          StartOnWalk(transitions, allocNode, queries[q], t);
          RegisterListener(StartListener(t), q);
        }
      }
    }

    /** Asks for the access paths at stmt. It finds the direct ones and those at
        the end of a walk whose last listener is on no walk of an earlier query, and
        so finds all of them exactly if each is such a one. The first query finds
        all; a query whose listeners all are registered already finds only those
        without fields. */
    method GetAllAliases(stmt: S) returns (q: nat)
      requires Quiet()
      modifies this
      ensures Quiet() && transitions == old(transitions)
      ensures q == |old(queries)| && queries == old(queries) + [stmt] && |results| == q + 1
      ensures Grown(old(owner), old(results) + [{}], owner, results)
      ensures forall ap :: ap in results[q] ==> Yielded(transitions, allocNode, stmt, ap)
      ensures forall ap :: ap in results[q] <==> FoundAnew(allocNode, transitions, old(queries), stmt, ap)
      ensures (forall ap :: ap in results[q] <==> Yielded(transitions, allocNode, stmt, ap)) <==>
              forall ap :: Yielded(transitions, allocNode, stmt, ap) ==>
                FoundAnew(allocNode, transitions, old(queries), stmt, ap)
      ensures q == 0 ==> forall ap :: ap in results[q] <==> Yielded(transitions, allocNode, stmt, ap)
      ensures (forall t <- transitions :: Begins(t, stmt) ==> StartListener(t) in old(owner)) ==>
        results[q] == DirectPaths(allocNode, stmt, transitions)
    {
      hide Complete, OnWalk, Yielded, Asked, DirectPaths, FoundAnew;
      q := |queries|;
      QueryStep(allocNode, transitions, queries, owner, results, stmt);
      queries, results := queries + [stmt], results + [{}];
      open := set t <- transitions :: (q, t);
      label asked:
      TellQuery(q, stmt);
      GrownTransitive(old(owner), old(results) + [{}], old@asked(owner), old@asked(results), owner, results);
      if q == 0 {
        Exact();
      }
      LastExact(old(queries), old(owner), old(results), q);
    }

    /** registerListener of the update listener of query q, which is told all transitions */
    method TellQuery(q: nat, stmt: S)
      requires Ok() && owed == {} && q < |queries| == |results| && queries[q] == stmt && results[q] == {}
      requires open == set t <- transitions :: (q, t)
      modifies this
      ensures Quiet() && transitions == old(transitions) && queries == old(queries)
      ensures Grown(old(owner), old(results), owner, results)
      ensures forall l' <- owner :: l' in old(owner) || owner[l'] == q
      ensures (forall t <- transitions :: Begins(t, stmt) ==> StartListener(t) in old(owner)) ==>
        results[q] == DirectPaths(allocNode, stmt, transitions)
    {
      hide Complete, Sound, OnWalk, Yielded, Asked, DirectPaths, FoundAnew;
      assert DirectPaths<S, V, G, F>(allocNode, stmt, {}) == {} by { NoDirectPaths(stmt); }
      var todo := transitions;
      ghost var done := {};
      ghost var known := forall t <- transitions ::
        Begins(t, stmt) ==> StartListener(t) in old(owner);
      while todo != {}
        invariant Ok() && owed == {} && transitions == old(transitions) && queries == old(queries)
        invariant Grown(old(owner), old(results), owner, results)
        invariant forall l' <- owner :: l' in old(owner) || owner[l'] == q
        invariant todo + done == transitions && open == set t <- todo :: (q, t)
        invariant q < |results| && (known ==> owner == old(owner) && results[q] == DirectPaths(allocNode, stmt, done))
        decreases todo
      {
        var t :| t in todo;
        label before:
        OnWeightAdded(q, t);
        GrownTransitive(old(owner), old(results), old@before(owner), old@before(results), owner, results);
        AnswerStep(allocNode, transitions, queries, owner, results, owed, open, q, t);
        DirectPathsAdd(allocNode, stmt, done, t);
        open := open - {(q, t)};
        todo, done := todo - {t}, done + {t};
      }
      assert open == {};
    }

    lemma LastExact(queries0: seq<S>, owner0: Owners<S, V, G, F>, results0: seq<set<AccessPath<V, F>>>, q: nat)
      requires Quiet() && q == |queries0| && |queries| == q + 1 && queries[..q] == queries0
      requires Complete(allocNode, transitions, queries0, owner0, results0, {}, {})
      requires Sound(allocNode, transitions, queries0, owner0, results0)
      requires forall l <- owner0 :: l in owner && owner[l] == owner0[l]
      requires forall l <- owner :: l in owner0 || owner[l] == q
      ensures |results| == |queries|
      ensures forall ap :: ap in results[q] <==> FoundAnew(allocNode, transitions, queries0, queries[q], ap)
      ensures forall ap :: ap in results[q] ==> Yielded(transitions, allocNode, queries[q], ap)
    {
      hide Complete, FoundAnew, Yielded, OnWalk, WalkedBefore;
      OldOwners(queries0, owner0, results0, q);
      forall ap
        ensures ap in results[q] <==> FoundAnew(allocNode, transitions, queries0, queries[q], ap)
        ensures ap in results[q] ==> Yielded(transitions, allocNode, queries[q], ap)
      {
        LastQueryFinds(allocNode, transitions, queries, owner, results, q, ap);
        FoundIsAttributed(allocNode, transitions, queries, owner, results, q, ap);
      }
    }

    /** The listeners that belong to query q are those on no earlier walk. */
    lemma OldOwners(queries0: seq<S>, owner0: Owners<S, V, G, F>, results0: seq<set<AccessPath<V, F>>>, q: nat)
      requires Complete(allocNode, transitions, queries0, owner0, results0, {}, {})
      requires Sound(allocNode, transitions, queries0, owner0, results0)
      requires q == |queries0| && (forall l <- owner0 :: l in owner && owner[l] == owner0[l])
      requires forall l <- owner :: l in owner0 || owner[l] == q
      ensures forall l <- owner :: owner[l] == q <==> !WalkedBefore(allocNode, transitions, queries0, l)
    {
      forall l <- owner ensures owner[l] == q <==> !WalkedBefore(allocNode, transitions, queries0, l) {
        RegisteredIffWalked(allocNode, transitions, queries0, owner0, results0, l);
      }
    }

    lemma NoDirectPaths(stmt: S)
      ensures DirectPaths<S, V, G, F>(allocNode, stmt, {}) == {}
    {
    }

    /** A transition is added, or the weight of an old one raised. The saturation may
        do so while earlier ones are still to be told. */
    method AddTransition(t: FieldTransition<S, V, G, F>)
      requires Ok()
      modifies this
      ensures Ok() && transitions == old(transitions) + {t} && queries == old(queries)
      ensures owed <= old(owed) && open <= old(open)
      ensures Grown(old(owner), old(results), owner, results)
      ensures forall q: nat | q < |queries| :: Asked(allocNode, owner, results, q, queries[q], t)
      ensures forall l <- old(owner) | l.state == t.start :: Followed(allocNode, owner, results, l, t)
    {
      hide Complete, Sound, Asked, Followed, Due;
      TransitionStep(allocNode, transitions, queries, owner, results, owed, open, t);
      transitions := transitions + {t};
      ghost var before := owner;
      owed := owed + Due(owner, t);
      open := open + set q: nat | q < |queries| :: (q, t);
      AskAll(t);
      label asked:
      FollowAll(t, before);
      GrownTransitive(old(owner), old(results), old@asked(owner), old@asked(results), owner, results);
      StillAsked(old@asked(owner), old@asked(results), t);
    }

    /** The update listener of each query is told t. */
    method AskAll(t: FieldTransition<S, V, G, F>)
      requires Ok() && t in transitions
      modifies this
      ensures Ok() && transitions == old(transitions) && queries == old(queries)
      ensures owed <= old(owed) && open == old(open) - set q: nat | q < |queries| :: (q, t)
      ensures Grown(old(owner), old(results), owner, results)
      ensures forall q: nat | q < |queries| :: Asked(allocNode, owner, results, q, queries[q], t)
    {
      hide Complete, Sound, Asked, Starts, DirectPaths;
      for q := 0 to |queries|
        invariant Ok() && transitions == old(transitions) && queries == old(queries)
        invariant Grown(old(owner), old(results), owner, results)
        invariant owed <= old(owed) && open == old(open) - set i: nat | i < q :: (i, t)
        invariant forall i: nat | i < q :: Asked(allocNode, owner, results, i, queries[i], t)
      {
        label before:
        OnWeightAdded(q, t);
        GrownTransitive(old(owner), old(results), old@before(owner), old@before(results), owner, results);
        StillAsked(old@before(owner), old@before(results), t);
        AnswerStep(allocNode, transitions, queries, owner, results, owed, open, q, t);
        open := open - {(q, t)};
      }
    }

    lemma StillAsked(owner0: Owners<S, V, G, F>, results0: seq<set<AccessPath<V, F>>>, t: FieldTransition<S, V, G, F>)
      requires Grown(owner0, results0, owner, results)
      ensures forall q: nat :: q < |queries| && Asked(allocNode, owner0, results0, q, queries[q], t) ==>
        Asked(allocNode, owner, results, q, queries[q], t)
    {
    }

    /** Each listener at the start of t is told t. */
    method FollowAll(t: FieldTransition<S, V, G, F>, ghost before: Owners<S, V, G, F>)
      requires Ok() && t in transitions && forall l <- before :: l in owner
      modifies this
      ensures Ok() && transitions == old(transitions) && queries == old(queries)
      ensures owed <= old(owed) - Due(before, t) && open == old(open)
      ensures Grown(old(owner), old(results), owner, results)
      ensures forall l <- before | l.state == t.start :: Followed(allocNode, owner, results, l, t)
    {
      hide Complete, Sound, Followed;
      var todo := set l <- owner | l.state == t.start;
      ghost var told := {};
      while todo != {}
        invariant Ok() && transitions == old(transitions) && queries == old(queries) && open == old(open)
        invariant Grown(old(owner), old(results), owner, results)
        invariant forall l <- todo :: l in owner && l.state == t.start
        invariant owed <= old(owed) - set l <- told :: (l, t)
        invariant todo + told == set l <- old(owner) | l.state == t.start
        invariant forall l <- told :: Followed(allocNode, owner, results, l, t)
        decreases todo
      {
        var l :| l in todo;
        label before:
        assert owner[l] < |queries| by { Owned(); }
        OnOutTransitionAdded(l, owner[l], t);
        GrownTransitive(old(owner), old(results), old@before(owner), old@before(results), owner, results);
        StillFollowed(old@before(owner), old@before(results), told, t);
        PayStep(allocNode, transitions, queries, owner, results, owed, open, l, t);
        owed := owed - {(l, t)};
        todo, told := todo - {l}, told + {l};
      }
      assert forall l <- before | l.state == t.start :: l in told;
    }

    lemma StillFollowed(
      owner0: Owners<S, V, G, F>, results0: seq<set<AccessPath<V, F>>>, told: set<Listener<S, V, G, F>>,
      t: FieldTransition<S, V, G, F>)
      requires Grown(owner0, results0, owner, results)
      requires forall l <- told :: Followed(allocNode, owner0, results0, l, t)
      ensures forall l <- told :: Followed(allocNode, owner, results, l, t)
    {
    }

    lemma Owned()
      requires Ok()
      ensures forall l <- owner :: owner[l] < |queries|
    {
    }

    /** What a query finds, it finds from a fact or an allocation at its statement; */
    lemma StartsAtStatement(q: nat, ap: AccessPath<V, F>)
      requires Quiet() && q < |queries| && ap in results[q]
      ensures exists path: seq<FieldTransition<S, V, G, F>> ::
        && Yields(transitions, allocNode, queries[q], path, ap) && path[0] in transitions
        && path[0].start in {Fact(queries[q], ap.base), Alloc(queries[q], ap.base)}
    {
      FoundIsAttributed(allocNode, transitions, queries, owner, results, q, ap);
      var path: seq<FieldTransition<S, V, G, F>> :| Yields(transitions, allocNode, queries[q], path, ap);
      assert |path| > 1 ==> path[..|path| - 1][0] == path[0];
      assert |path| > 1 ==> path[..|path| - 1][0] in path[..|path| - 1];
    }

    /** so it finds nothing if no transition leaves one. */
    lemma FindsNothing(q: nat)
      requires Quiet() && q < |queries|
      requires forall t <- transitions, v :: t.start != Fact(queries[q], v) && t.start != Alloc(queries[q], v)
      ensures results[q] == {}
    {
      if ap :| ap in results[q] {
        StartsAtStatement(q, ap);
      }
    }

    /** With one query its results stay exact, also when transitions are added later. */
    lemma Exact()
      requires Quiet() && |queries| == 1
      ensures |results| == 1
      ensures forall ap :: ap in results[0] <==> Yielded(transitions, allocNode, queries[0], ap)
    {
      forall ap ensures ap in results[0] <==> Yielded(transitions, allocNode, queries[0], ap) {
        FoundIsAttributed(allocNode, transitions, queries, owner, results, 0, ap);
        if Yielded(transitions, allocNode, queries[0], ap) {
          YieldsFound(allocNode, transitions, queries, owner, results, 0, ap);
        }
      }
    }

    lemma AskedOn(q: nat, t: FieldTransition<S, V, G, F>)
      requires Quiet() && q < |queries| && t in transitions && Begins(t, queries[q])
      ensures StartListener(t) in owner
    {
      assert Asked(allocNode, owner, results, q, queries[q], t);
    }

    /** At any time a query's results are exact if and only if each access path
        that it yields is direct or reported by a listener of its own. */
    lemma ExactIffOwned(q: nat)
      requires Quiet() && q < |queries|
      ensures |results| == |queries|
      ensures (forall ap :: ap in results[q] <==> Yielded(transitions, allocNode, queries[q], ap)) <==>
              forall ap :: Yielded(transitions, allocNode, queries[q], ap) ==>
                Attributed(allocNode, transitions, owner, q, queries[q], ap)
    {
      hide Yielded, Attributed, Complete;
      forall ap
        ensures ap in results[q] <==> Attributed(allocNode, transitions, owner, q, queries[q], ap)
        ensures ap in results[q] ==> Yielded(transitions, allocNode, queries[q], ap)
      {
        FoundIsAttributed(allocNode, transitions, queries, owner, results, q, ap);
      }
    }

    /** Asking for a statement again registers no listener: the listeners are equal
        to those of the first query, and report to that one. So a repeated query
        finds the direct access paths and nothing else. */
    lemma AskedBefore(q: nat)
      requires Quiet() && q < |queries|
      ensures forall l :: OnWalk(transitions, allocNode, queries[q], l) ==> l in owner
      ensures forall ap :: FoundAnew(allocNode, transitions, queries, queries[q], ap) <==>
        ap in DirectPaths(allocNode, queries[q], transitions)
    {
      hide OnWalk, DirectPaths;
      forall l | OnWalk(transitions, allocNode, queries[q], l) ensures l in owner {
        RegisteredIffWalked(allocNode, transitions, queries, owner, results, l);
      }
    }
  }

  /** Two statements, one variable, one field: the second query finds nothing,
      although the access path with the field is yielded at its statement too. */
  method SharedBaseMisses() returns (first: set<AccessPath<int, int>>, second: set<AccessPath<int, int>>,
                                     ghost ts: set<FieldTransition<int, int, int, int>>)
    ensures ts == {
      FieldTransition(Fact(1, 5), Named(9), Generated(0)),
      FieldTransition(Fact(2, 5), Named(9), Generated(0)),
      FieldTransition(Generated(0), EmptyField, Alloc(0, 0))}
    ensures AccessPath(5, AsList([9])) in first && second == {}
    ensures Yielded(ts, Alloc(0, 0), 2, AccessPath(5, AsList([9])))
  {
    hide AliasExtraction.Ok, Yielded, FoundAnew, DirectPaths, Grown;
    var alloc: FieldState<int, int, int> := Alloc(0, 0);
    var a := FieldTransition(Fact(1, 5), Named(9), Generated(0));
    var b := FieldTransition(Fact(2, 5), Named(9), Generated(0));
    var c := FieldTransition(Generated(0), EmptyField, alloc);
    var aut := new AliasExtraction<int, int, int, int>(alloc);
    aut.AddTransition(a);
    aut.AddTransition(b);
    aut.AddTransition(c);
    ts := aut.transitions;
    assert ts == {a, b, c};
    var q1 := aut.GetAllAliases(1);
    first := aut.results[q1];
    ExampleYields(ts, alloc, 1, a, c);
    aut.AskedOn(q1, a);
    assert StartListener(b) == StartListener(a);
    var q2 := aut.GetAllAliases(2);
    second := aut.results[q2];
    ExampleYields(ts, alloc, 2, b, c);
    NoDirectExample(ts, alloc, 2);
  }

  lemma NoDirectExample(ts: set<FieldTransition<int, int, int, int>>, alloc: FieldState<int, int, int>, stmt: int)
    requires forall t <- ts :: t.lbl.EmptyField? ==> t.start.Generated?
    ensures DirectPaths(alloc, stmt, ts) == {}
  {
  }

  lemma ExampleYields(ts: set<FieldTransition<int, int, int, int>>, alloc: FieldState<int, int, int>, stmt: int,
                      t: FieldTransition<int, int, int, int>, c: FieldTransition<int, int, int, int>)
    requires t in ts && c in ts && t == FieldTransition(Fact(stmt, 5), Named(9), Generated(0))
    requires c == FieldTransition(Generated(0), EmptyField, alloc)
    ensures Yielded(ts, alloc, stmt, AccessPath(5, AsList([9])))
  {
    StartOnWalk(ts, alloc, stmt, t);
    NextOnWalk(ts, alloc, stmt, StartListener(t), c);
  }
}
