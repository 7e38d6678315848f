/** TransitionFunction, the weight domain of the typestate analysis. */
module TypestateWeights {
  import opened Semirings
  import opened PAutomata
  import opened Termination
  import opened EmptyEpsilon

  /** Identity is Transition.identity(). */
  datatype ITransition<S> = Identity | Move(from: S, to: S)

  /** One and Zero differ from every set of transitions by their rep. */
  datatype TransitionFunction<!S(==)> = One | Zero | Func(value: set<ITransition<S>>)

  /** What the loops of extendWith add for first and second: nothing or one element. */
  function Product<S(==)>(first: ITransition<S>, second: ITransition<S>): set<ITransition<S>> {
    if second == Identity then {first}
    else if first == Identity then {second}
    else if first.to == second.from then {Move(first.from, second.to)}
    else {}
  }

  function Products<S(==, !new)>(a: set<ITransition<S>>, b: set<ITransition<S>>): set<ITransition<S>> {
    set x <- a, y <- b, z <- Product(x, y) :: z
  }

  function ExtendWith<S(==, !new)>(x: TransitionFunction<S>, other: TransitionFunction<S>): TransitionFunction<S> {
    if other == One then x
    else if x == One then other
    else if other == Zero || x == Zero then Zero
    else
      var ress := Products(x.value, other.value);
      if ress == {} then Zero else Func(ress)
  }

  function CombineWith<S(==)>(x: TransitionFunction<S>, other: TransitionFunction<S>): TransitionFunction<S> {
    if x == Zero then other
    else if other == Zero then x
    else if other == One && x == One then One
    else if other == One then Func(x.value + {Identity})
    else if x == One then Func(other.value + {Identity})
    else Func(other.value + x.value)
  }

  // ---------------------------------------------------------------- the values that occur

  /** A set of transitions that occurs contains one besides the identity. */
  predicate Generated<S(==)>(x: TransitionFunction<S>) {
    x.Func? ==> exists t <- x.value :: t.Move?
  }

  type TypestateWeight<!S(==)> = x: TransitionFunction<S> | Generated(x) witness One

  lemma ExtendGenerated<S(!new)>(x: TransitionFunction<S>, y: TransitionFunction<S>)
    requires Generated(x) && Generated(y)
    ensures Generated(ExtendWith(x, y))
  {
    if x.Func? && y.Func? && Products(x.value, y.value) != {} {
      var ress := Products(x.value, y.value);
      if Identity in x.value && Identity in y.value {
        var t :| t in x.value && t.Move?;
        assert t in Product(t, Identity);
        assert t in ress;
      } else {
        var z :| z in ress;
        var a, b :| a in x.value && b in y.value && z in Product(a, b);
        assert z.Move?;
      }
    }
  }

  lemma CombineGenerated<S(!new)>(x: TransitionFunction<S>, y: TransitionFunction<S>)
    requires Generated(x) && Generated(y)
    ensures Generated(CombineWith(x, y))
  {
    if x.Func? {
      var t :| t in x.value && t.Move?;
      assert CombineWith(x, y).Func? ==> t in CombineWith(x, y).value;
    }
    if y.Func? {
      var t :| t in y.value && t.Move?;
      assert CombineWith(x, y).Func? ==> t in CombineWith(x, y).value;
    }
  }

  function Extend<S(==, !new)>(x: TypestateWeight<S>, y: TypestateWeight<S>): TypestateWeight<S> {
    ExtendGenerated(x, y);
    ExtendWith(x, y)
  }

  function Combine<S(==, !new)>(x: TypestateWeight<S>, y: TypestateWeight<S>): TypestateWeight<S> {
    CombineGenerated(x, y);
    CombineWith(x, y)
  }

  function TypestateSemiring<S(==, !new)>(): Semiring<TypestateWeight<S>> {
    Semiring<TypestateWeight<S>>.Semiring(One, Combine, Extend)
  }

  // ---------------------------------------------------------------- weights as relations

  /** The transitions a weight stands for. */
  function Relation<S>(x: TransitionFunction<S>): set<ITransition<S>> {
    match x
    case One => {Identity}
    case Zero => {}
    case Func(value) => value
  }

  lemma RelationInjective<S>(x: TypestateWeight<S>, y: TypestateWeight<S>)
    requires Relation(x) == Relation(y)
    ensures x == y
  {
  }

  lemma CombineIsUnion<S(!new)>(x: TypestateWeight<S>, y: TypestateWeight<S>)
    ensures Relation(Combine(x, y)) == Relation(x) + Relation(y)
  {
  }

  lemma ExtendIsComposition<S(!new)>(x: TypestateWeight<S>, y: TypestateWeight<S>)
    ensures Relation(Extend(x, y)) == Products(Relation(x), Relation(y))
  {
    if y == One {
      IdentityNeutral(Relation(x));
    } else if x == One {
      IdentityNeutral(Relation(y));
    } else if x == Zero || y == Zero {
      assert Products(Relation(x), Relation(y)) == {};
    }
  }

  lemma IdentityNeutral<S(!new)>(a: set<ITransition<S>>)
    ensures Products({Identity}, a) == a && Products(a, {Identity}) == a
  {
    assert Products({Identity}, a) == a by { IdentityLeft(a); }
    assert Products(a, {Identity}) == a by { IdentityRight(a); }
  }

  lemma IdentityLeft<S(!new)>(a: set<ITransition<S>>)
    ensures Products({Identity}, a) == a
  {
    forall x <- a ensures x in Products({Identity}, a) {
      assert x in Product(Identity, x);
    }
    forall z <- Products({Identity}, a) ensures z in a {
      var x, y :| x in {Identity} && y in a && z in Product(x, y);
    }
  }

  lemma IdentityRight<S(!new)>(a: set<ITransition<S>>)
    ensures Products(a, {Identity}) == a
  {
    forall x <- a ensures x in Products(a, {Identity}) {
      assert x in Product(x, Identity);
    }
    forall z <- Products(a, {Identity}) ensures z in a {
      var x, y :| x in a && y in {Identity} && z in Product(x, y);
    }
  }

  lemma ProductsAssociative<S(!new)>(a: set<ITransition<S>>, b: set<ITransition<S>>, c: set<ITransition<S>>)
    ensures Products(Products(a, b), c) == Products(a, Products(b, c))
  {
    forall z | z in Products(Products(a, b), c) ensures z in Products(a, Products(b, c)) {
      var xy, w :| xy in Products(a, b) && w in c && z in Product(xy, w);
      var x, y :| x in a && y in b && xy in Product(x, y);
      var yw :| yw in Product(y, w) && z in Product(x, yw);
      assert yw in Products(b, c);
    }
    forall z | z in Products(a, Products(b, c)) ensures z in Products(Products(a, b), c) {
      var x, yw :| x in a && yw in Products(b, c) && z in Product(x, yw);
      var y, w :| y in b && w in c && yw in Product(y, w);
      var xy :| xy in Product(x, y) && z in Product(xy, w);
      assert xy in Products(a, b);
    }
  }

  lemma ProductsDistribute<S(!new)>(a: set<ITransition<S>>, b: set<ITransition<S>>, c: set<ITransition<S>>)
    ensures Products(a + b, c) == Products(a, c) + Products(b, c)
    ensures Products(c, a + b) == Products(c, a) + Products(c, b)
  {
  }

  lemma LawsAtRelations<S(!new)>(x: TypestateWeight<S>, y: TypestateWeight<S>, z: TypestateWeight<S>)
    ensures TypestateSemiring<S>().LawsAt(x, y, z)
  {
    CombineIsUnion(Combine(x, y), z);
    CombineIsUnion(x, y);
    CombineIsUnion(y, x);
    CombineIsUnion(y, z);
    CombineIsUnion(x, Combine(y, z));
    CombineIsUnion(x, x);
    RelationInjective(Combine(Combine(x, y), z), Combine(x, Combine(y, z)));
    RelationInjective(Combine(x, y), Combine(y, x));
    RelationInjective(Combine(x, x), x);
    ExtendAssociates(x, y, z);
    ExtendDistributes(x, y, z);
  }

  lemma ExtendAssociates<S(!new)>(x: TypestateWeight<S>, y: TypestateWeight<S>, z: TypestateWeight<S>)
    ensures Extend(Extend(x, y), z) == Extend(x, Extend(y, z))
  {
    ExtendIsComposition(x, y);
    ExtendIsComposition(y, z);
    ExtendIsComposition(Extend(x, y), z);
    ExtendIsComposition(x, Extend(y, z));
    ProductsAssociative(Relation(x), Relation(y), Relation(z));
    RelationInjective(Extend(Extend(x, y), z), Extend(x, Extend(y, z)));
  }

  lemma ExtendDistributes<S(!new)>(x: TypestateWeight<S>, y: TypestateWeight<S>, z: TypestateWeight<S>)
    ensures Extend(Combine(x, y), z) == Combine(Extend(x, z), Extend(y, z))
    ensures Extend(z, Combine(x, y)) == Combine(Extend(z, x), Extend(z, y))
  {
    CombineIsUnion(x, y);
    ExtendIsComposition(Combine(x, y), z);
    ExtendIsComposition(z, Combine(x, y));
    ExtendIsComposition(x, z);
    ExtendIsComposition(y, z);
    ExtendIsComposition(z, x);
    ExtendIsComposition(z, y);
    CombineIsUnion(Extend(x, z), Extend(y, z));
    CombineIsUnion(Extend(z, x), Extend(z, y));
    ProductsDistribute(Relation(x), Relation(y), Relation(z));
    RelationInjective(Extend(Combine(x, y), z), Combine(Extend(x, z), Extend(y, z)));
    RelationInjective(Extend(z, Combine(x, y)), Combine(Extend(z, x), Extend(z, y)));
  }

  /** The typestate weights form an idempotent semiring with zero. */
  lemma TypestateLaws<S(!new)>()
    ensures TypestateSemiring<S>().Laws()
    ensures forall x: TypestateWeight<S> :: Combine(x, Zero) == x && Extend(x, Zero) == Zero && Extend(Zero, x) == Zero
  {
    var sr := TypestateSemiring<S>();
    forall x: TypestateWeight<S>, y: TypestateWeight<S>, z: TypestateWeight<S>
      ensures sr.LawsAt(x, y, z)
    {
      LawsAtRelations(x, y, z);
    }
  }

  // ---------------------------------------------------------------- instances of the saturation's needs

  function AllTransitions<S(==)>(states: set<S>): set<ITransition<S>> {
    (set s <- states, s' <- states :: Move(s, s')) + {Identity}
  }

  ghost function TypestateRank<S(!new)>(states: set<S>): TypestateWeight<S> -> nat {
    (x: TypestateWeight<S>) =>
      if Relation(x) <= AllTransitions(states) then |AllTransitions(states) - Relation(x)| else 0
  }

  lemma SmallerComplement<T>(all: set<T>, a: set<T>, b: set<T>)
    requires a < b <= all
    ensures |all - b| < |all - a|
  {
    var t :| t in b && t !in a;
    assert |(all - a) - (all - b)| == |all - a| - |all - b| by {
      assert all - b <= all - a;
      assert (all - a) == (all - b) + ((all - a) - (all - b));
    }
    assert t in (all - a) - (all - b);
  }

  /** A typestate automaton with finitely many states gives weights that can be
      raised only finitely often, so that saturation terminates. */
  lemma TypestateDescends<S(!new)>(states: set<S>)
    requires forall s: S :: s in states
    ensures Descends(TypestateSemiring<S>(), TypestateRank(states))
  {
    var sr, rank := TypestateSemiring<S>(), TypestateRank(states);
    forall x: TypestateWeight<S>, y: TypestateWeight<S> | sr.Le(x, y) && x != y
      ensures rank(y) < rank(x)
    {
      CombineIsUnion(x, y);
      if Relation(x) == Relation(y) {
        RelationInjective(x, y);
      }
      var all := AllTransitions(states);
      assert forall t: ITransition<S> :: t in all by {
        forall t: ITransition<S> ensures t in all {
          if t.Move? { assert t == Move(t.from, t.to); }
        }
      }
      SmallerComplement(all, Relation(x), Relation(y));
    }
  }

  /** Boomerang's epsilons are instances of Empty, and under that choice typestate
      weights are not always exact: one does not lie below a move. */
  lemma TypestateInexactUnderEmptyEpsilon<S(!new)>(s: S)
    ensures !AlwaysExact(TypestateSemiring<S>(), true)
    ensures AlwaysExact(TypestateSemiring<S>(), false)
  {
    var sr := TypestateSemiring<S>();
    TypestateLaws<S>();
    var move: TypestateWeight<S> := Func({Move(s, s)});
    assert Identity in Relation(Combine(One, move)) && Identity !in Relation(move);
    assert !sr.Le(sr.one, move);
    ExactIffEpsilonNeutral(sr, true);
    ExactIffEpsilonNeutral(sr, false);
  }

  // ---------------------------------------------------------------- running the typestate automaton

  /** What the weight functions return: one, or some moves of the automaton. */
  predicate IsEvent<S>(e: TypestateWeight<S>) {
    e.One? || (e.Func? && forall t <- e.value :: t.Move?)
  }

  /** The weight of an object after the given events, starting in state init. */
  function Fold<S(==, !new)>(init: S, events: seq<TypestateWeight<S>>): TypestateWeight<S>
    decreases |events|
  {
    if events == [] then Func({Move(init, init)})
    else
      var k := |events| - 1;
      Extend(Fold(init, events[..k]), events[k])
  }

  /** state is where the automaton can be after the given events. */
  ghost predicate CanBeIn<S(!new)>(init: S, events: seq<TypestateWeight<S>>, state: S)
    decreases |events|
  {
    if events == [] then state == init
    else
      var k := |events| - 1;
      if events[k].One? then CanBeIn(init, events[..k], state)
      else events[k].Func? && exists s :: CanBeIn(init, events[..k], s) && Move(s, state) in events[k].value
  }

  ghost predicate Stuck<S(!new)>(init: S, events: seq<TypestateWeight<S>>) {
    forall s :: !CanBeIn(init, events, s)
  }

  /** Folding yields the pairs of init and the states the automaton can be in, and
      zero exactly if the automaton is stuck. */
  lemma {:induction false} FoldIsReachability<S(!new)>(init: S, events: seq<TypestateWeight<S>>)
    requires forall e <- events :: IsEvent(e)
    ensures forall t :: t in Relation(Fold(init, events)) <==> t.Move? && t.from == init && CanBeIn(init, events, t.to)
    ensures Fold(init, events) == Zero <==> Stuck(init, events)
    ensures Fold(init, events) != One
    decreases |events|
  {
    if events != [] {
      var k := |events| - 1;
      var before, e := events[..k], events[k];
      assert forall e' <- before :: e' in events;
      FoldIsReachability(init, before);
      ExtendIsComposition(Fold(init, before), e);
      FoldStep(init, events);
    }
    ZeroIffStuck(init, events);
  }

  lemma FoldStep<S(!new)>(init: S, events: seq<TypestateWeight<S>>)
    requires events != [] && IsEvent(events[|events| - 1])
    requires var before := events[..|events| - 1];
      forall t :: t in Relation(Fold(init, before)) <==> t.Move? && t.from == init && CanBeIn(init, before, t.to)
    requires Relation(Fold(init, events)) ==
      Products(Relation(Fold(init, events[..|events| - 1])), Relation(events[|events| - 1]))
    ensures forall t :: t in Relation(Fold(init, events)) <==> t.Move? && t.from == init && CanBeIn(init, events, t.to)
  {
    var k := |events| - 1;
    var before, e := events[..k], events[k];
    var r := Relation(Fold(init, before));
    if e.One? {
      IdentityNeutral(r);
    } else {
      forall t | t in Products(r, e.value)
        ensures t.Move? && t.from == init && CanBeIn(init, events, t.to)
      {
        var x, y :| x in r && y in e.value && t in Product(x, y);
        assert CanBeIn(init, before, x.to) && Move(x.to, t.to) in e.value;
      }
      forall t: ITransition<S> | t.Move? && t.from == init && CanBeIn(init, events, t.to)
        ensures t in Products(r, e.value)
      {
        var s :| CanBeIn(init, before, s) && Move(s, t.to) in e.value;
        assert Move(init, s) in r && t in Product(Move(init, s), Move(s, t.to));
      }
    }
  }

  lemma ZeroIffStuck<S(!new)>(init: S, events: seq<TypestateWeight<S>>)
    requires forall t :: t in Relation(Fold(init, events)) <==> t.Move? && t.from == init && CanBeIn(init, events, t.to)
    ensures Fold(init, events) == Zero <==> Stuck(init, events)
    ensures Fold(init, events) != One
  {
    var r := Relation(Fold(init, events));
    assert Identity !in r;
    if !Stuck(init, events) {
      var s :| CanBeIn(init, events, s);
      assert Move(init, s).Move? && Move(init, s) in r && r != {};
    } else {
      assert r == {};
    }
  }
}
