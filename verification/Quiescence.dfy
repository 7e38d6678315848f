/** When no work is owed any more, the automaton is saturated. */
module Quiescence {
  import opened Semirings
  import opened Pushdown
  import opened PAutomata
  import opened UnbalancedPops
  import opened SolverState

  /** Every rule has its listener on the root automaton, and every transition
      that was added directly is there with at least its weight. */
  ghost predicate InputHandled<D(!new), N(!new), W(!new)>(sys: System<D, N, W>, c: Core<D, N, W>) {
    && (forall r <- sys.rules :: (Sink, ListenerFor(r)) in c.registered)
    && (forall i <- sys.inits :: AtLeast(sys.sr, c.weights, i.0, i.1))
  }

  /** A listener of the root automaton is a listener of every nested one. */
  lemma {:induction false} RootListenersEverywhere<D(!new), N(!new), W(!new)>(
    nested: bool, c: Core<D, N, W>, age: map<State<D, N>, nat>, a: State<D, N>, l: Listener<D, N, W>)
    requires Propagated(c, {}) && Housed(nested, c, age) && a in c.automata && (Sink, l) in c.registered
    ensures (a, l) in c.registered
    decreases age[a]
  {
    if a != Sink {
      assert HasElder(c.nestedIn, age, a);
      var b :| b in c.automata && (b, a) in c.nestedIn && age[b] < age[a];
      RootListenersEverywhere(nested, c, age, b, l);
      assert (b, l) in c.registered && (b, a) in c.nestedIn;
    }
  }

  /** So it has been told the current weight of every transition at its state. */
  lemma RootListenerTold<D(!new), N(!new), W(!new)>(
    sys: System<D, N, W>, nested: bool, c: Core<D, N, W>, age: map<State<D, N>, nat>, l: Listener<D, N, W>,
    t: Trans<D, N>)
    requires Delivered(sys, nested, c, {}) && Propagated(c, {}) && Housed(nested, c, age)
    requires (Sink, l) in c.registered && t in c.weights
    ensures t.start == StateOf(l) ==> Done(sys.sr, sys.empties, nested, c, Event(l, true, t, c.weights[t]))
    ensures t.target == StateOf(l) ==> Done(sys.sr, sys.empties, nested, c, Event(l, false, t, c.weights[t]))
  {
    var a := Home(nested, t);
    RootListenersEverywhere(nested, c, age, a, l);
    assert (a, l) in c.registered;
    assert DeliveredAt(sys, nested, c, {}, l, t);
  }

  ghost predicate Settled<D(!new), N(!new), W(!new)>(
    sys: System<D, N, W>, nested: bool, c: Core<D, N, W>, age: map<State<D, N>, nat>)
  {
    Inv(sys, nested, c, {}, age) && InputHandled(sys, c)
  }

  /** The pop listener of r has followed r's Empty labels to wherever r pops. */
  lemma PopListenerRegistered<D(!new), N(!new), W(!new)>(
    sys: System<D, N, W>, nested: bool, c: Core<D, N, W>, age: map<State<D, N>, nat>, r: Rule<D, N, W>, x: State<D, N>)
    requires Settled(sys, nested, c, age) && r in sys.rules && r.Pop? && PopPosition(sys, c.weights, r, x)
    ensures (Sink, HandlePop(x, r.l1, r.s2, r.w)) in c.registered
  {
    var l := ListenerFor(r);
    assert (Sink, l) in c.registered;
    if x != Control(r.s1) {
      var e :| e in c.weights && e.start == Control(r.s1) && e.lbl in sys.empties && e.target == x;
      RootListenerTold(sys, nested, c, age, l, e);
    }
  }

  lemma PopsSettled<D(!new), N(!new), W(!new)>(
    sys: System<D, N, W>, nested: bool, c: Core<D, N, W>, age: map<State<D, N>, nat>, r: Rule<D, N, W>, t: Trans<D, N>)
    requires Settled(sys, nested, c, age) && r in sys.rules && t in c.weights && PopsAt(sys, c.weights, r, t)
    ensures t.target.Gen? ==>
      && AtLeast(sys.sr, c.weights, PopResult(r, t.target), sys.sr.extend(c.weights[t], r.w))
      && (Sink, TransitivePop(PopResult(r, t.target), sys.sr.extend(c.weights[t], r.w))) in c.registered
    ensures !t.target.Gen? ==> (r.s2, t) in c.table && sys.sr.Le(c.weights[t], c.table[(r.s2, t)])
  {
    PopListenerRegistered(sys, nested, c, age, r, t.start);
    RootListenerTold(sys, nested, c, age, HandlePop(t.start, r.l1, r.s2, r.w), t);
  }

  lemma ReturnsSettled<D(!new), N(!new), W(!new)>(
    sys: System<D, N, W>, nested: bool, c: Core<D, N, W>, age: map<State<D, N>, nat>, eps: Trans<D, N>, w: W)
    requires Settled(sys, nested, c, age) && (Sink, TransitivePop(eps, w)) in c.registered
    ensures forall t2 <- c.weights :: t2.start == eps.target ==>
              AtLeast(sys.sr, c.weights, ReturnResult(eps, t2), sys.sr.extend(c.weights[t2], w))
  {
    forall t2 <- c.weights | t2.start == eps.target
      ensures AtLeast(sys.sr, c.weights, ReturnResult(eps, t2), sys.sr.extend(c.weights[t2], w))
    {
      RootListenerTold(sys, nested, c, age, TransitivePop(eps, w), t2);
    }
  }

  lemma SettledIsSolution<D(!new), N(!new), W(!new)>(
    sys: System<D, N, W>, nested: bool, c: Core<D, N, W>, age: map<State<D, N>, nat>)
    requires Settled(sys, nested, c, age)
    ensures Solution(sys, c.weights)
    ensures TableSaturated(sys, c.weights, c.table) && TableJustified(sys, c.weights, c.table)
  {
    forall r <- sys.rules, t <- c.weights
      ensures NormalFires(r, t) ==> AtLeast(sys.sr, c.weights, NormalResult(r, t), sys.sr.extend(c.weights[t], r.w))
      ensures PushFires(r, t) ==>
        && AtLeast(sys.sr, c.weights, CallResult(r, t), sys.sr.extend(c.weights[t], r.w))
        && AtLeast(sys.sr, c.weights, EntryResult(r), sys.sr.one)
    {
      assert (Sink, ListenerFor(r)) in c.registered;
      RootListenerTold(sys, nested, c, age, ListenerFor(r), t);
    }
    forall r <- sys.rules, t <- c.weights | PopsAt(sys, c.weights, r, t)
      ensures t.target.Gen? ==>
        && AtLeast(sys.sr, c.weights, PopResult(r, t.target), sys.sr.extend(c.weights[t], r.w))
        && forall t2 <- c.weights :: t2.start == t.target ==>
             AtLeast(sys.sr, c.weights, ReturnResult(PopResult(r, t.target), t2),
                     sys.sr.extend(c.weights[t2], sys.sr.extend(c.weights[t], r.w)))
      ensures !t.target.Gen? ==> (r.s2, t) in c.table && sys.sr.Le(c.weights[t], c.table[(r.s2, t)])
    {
      PopsSettled(sys, nested, c, age, r, t);
      if t.target.Gen? {
        ReturnsSettled(sys, nested, c, age, PopResult(r, t.target), sys.sr.extend(c.weights[t], r.w));
      }
    }
  }
}
