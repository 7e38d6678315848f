/** The state of a running saturation as a value: what is registered, what has
    been delivered, what is still owed, and the invariant that relates them. */
module SolverState {
  import opened Semirings
  import opened Pushdown
  import opened PAutomata
  import opened UnbalancedPops

  /** The state listeners of PostStar, and any other one that only looks. */
  datatype Listener<D, N, W> =
    | HandleNormal(r: Rule<D, N, W>)
    | HandlePush(r: Rule<D, N, W>)
    | HandlePop(at: State<D, N>, l1: N, s2: D, w: W)
    | TransitivePop(e: Trans<D, N>, newWeight: W)
    | Observer(on: State<D, N>, id: nat)

  /** getState() of a listener. */
  function StateOf<D, N, W>(l: Listener<D, N, W>): State<D, N> {
    match l
    case HandleNormal(r) => Control(r.s1)
    case HandlePush(r) => Control(r.s1)
    case HandlePop(at, _, _, _) => at
    case TransitivePop(e, _) => e.target
    case Observer(on, _) => on
  }

  /** The listener that PostStarUpdateListener creates for a rule. */
  function ListenerFor<D, N, W>(r: Rule<D, N, W>): Listener<D, N, W> {
    match r
    case Normal(_, _, _, _, _) => HandleNormal(r)
    case Push(_, _, _, _, _, _) => HandlePush(r)
    case Pop(s1, l1, s2, w) => HandlePop(Control(s1), l1, s2, w)
  }

  /** onOutTransitionAdded (out) or onInTransitionAdded of l with t and w. */
  datatype Event<D, N, W> = Event(l: Listener<D, N, W>, out: bool, t: Trans<D, N>, w: W)

  /** Work that some caller up the stack is still going to do. */
  datatype Task<D, N, W> =
    | Deliver(e: Event<D, N, W>)
    | Register(aut: State<D, N>, l: Listener<D, N, W>)
    | Hear(k: nat)

  /** The automata are named by the target state of the transitions they hold;
      the root automaton is named Sink. */
  datatype Core<!D(==), !N(==), !W(==, !new)> = Core(
    weights: map<Trans<D, N>, W>,
    automata: set<State<D, N>>,
    nestedIn: set<(State<D, N>, State<D, N>)>,
    registered: set<(State<D, N>, Listener<D, N, W>)>,
    table: PopTable<D, N, W>,
    seen: set<Event<D, N, W>>,
    rules: set<Rule<D, N, W>>,
    inits: set<(Trans<D, N>, W)>,
    log: seq<(Trans<D, N>, W)>)

  /** The automaton that holds t. */
  function Home<D, N>(nested: bool, t: Trans<D, N>): State<D, N> {
    if nested && t.target.Gen? then t.target else Sink
  }

  // ---------------------------------------------------------------- growth

  /** Nothing is lost, and what came in has been taken care of: a new rule has its
      listener, and a new initial transition its weight. */
  ghost predicate Grows<D(!new), N(!new), W(!new)>(sr: Semiring<W>, c: Core<D, N, W>, c': Core<D, N, W>) {
    && c.rules <= c'.rules && c.inits <= c'.inits && c.log <= c'.log
    && (forall r <- c'.rules :: r in c.rules || (Sink, ListenerFor(r)) in c'.registered)
    && (forall i <- c'.inits :: i in c.inits || AtLeast(sr, c'.weights, i.0, i.1))
    && (forall t <- c.weights :: AtLeast(sr, c'.weights, t, c.weights[t]))
    && c.automata <= c'.automata && c.nestedIn <= c'.nestedIn && c.registered <= c'.registered && c.seen <= c'.seen
    && (forall k <- c.table :: k in c'.table && sr.Le(c.table[k], c'.table[k]))
  }

  lemma GrowsReflexive<D(!new), N(!new), W(!new)>(sr: Semiring<W>, c: Core<D, N, W>)
    requires sr.Laws()
    ensures Grows(sr, c, c)
  {
    forall t <- c.weights ensures AtLeast(sr, c.weights, t, c.weights[t]) { sr.LeReflexive(c.weights[t]); }
    forall k <- c.table ensures sr.Le(c.table[k], c.table[k]) { sr.LeReflexive(c.table[k]); }
  }

  lemma GrowsTransitive<D(!new), N(!new), W(!new)>(
    sr: Semiring<W>, c: Core<D, N, W>, c': Core<D, N, W>, c'': Core<D, N, W>)
    requires sr.Laws() && Grows(sr, c, c') && Grows(sr, c', c'')
    ensures Grows(sr, c, c'')
  {
    forall t <- c.weights ensures AtLeast(sr, c''.weights, t, c.weights[t]) {
      sr.LeTransitive(c.weights[t], c'.weights[t], c''.weights[t]);
    }
    forall k <- c.table ensures k in c''.table && sr.Le(c.table[k], c''.table[k]) {
      sr.LeTransitive(c.table[k], c'.table[k], c''.table[k]);
    }
    forall i <- c''.inits ensures i in c.inits || AtLeast(sr, c''.weights, i.0, i.1) {
      if i in c'.inits && i !in c.inits {
        sr.LeTransitive(i.1, c'.weights[i.0], c''.weights[i.0]);
      }
    }
  }

  /** What a rule or an initial transition comes to once it is taken care of. */
  lemma GrowsByInput<D(!new), N(!new), W(!new)>(
    sr: Semiring<W>, c: Core<D, N, W>, c': Core<D, N, W>, rules: set<Rule<D, N, W>>, inits: set<(Trans<D, N>, W)>)
    requires Grows(sr, c.(rules := c.rules + rules, inits := c.inits + inits), c')
    requires forall r <- rules :: (Sink, ListenerFor(r)) in c'.registered
    requires forall i <- inits :: AtLeast(sr, c'.weights, i.0, i.1)
    ensures Grows(sr, c, c')
  {
  }

  lemma AtLeastGrows<D(!new), N(!new), W(!new)>(
    sr: Semiring<W>, c: Core<D, N, W>, c': Core<D, N, W>, t: Trans<D, N>, w: W)
    requires sr.Laws() && Grows(sr, c, c') && AtLeast(sr, c.weights, t, w)
    ensures AtLeast(sr, c'.weights, t, w)
  {
    sr.LeTransitive(w, c.weights[t], c'.weights[t]);
  }

  // ---------------------------------------------------------------- effects

  /** The effect of delivering e has been achieved. */
  ghost predicate Done<D(!new), N(!new), W(!new)>(
    sr: Semiring<W>, empties: set<Label<N>>, nested: bool, c: Core<D, N, W>, e: Event<D, N, W>)
  {
    match e.l
    case HandleNormal(r) =>
      e.out && NormalFires(r, e.t) ==> AtLeast(sr, c.weights, NormalResult(r, e.t), sr.extend(e.w, r.w))
    case HandlePush(r) =>
      e.out && PushFires(r, e.t) ==>
        && AtLeast(sr, c.weights, CallResult(r, e.t), sr.extend(e.w, r.w))
        && AtLeast(sr, c.weights, EntryResult(r), sr.one)
        && (nested ==> (e.t.target, Gen(r.s2, r.l2)) in c.nestedIn)
    case HandlePop(_, l1, s2, w) =>
      && (e.out && e.t.lbl == Sym(l1) && e.t.target.Gen? ==>
            var eps := Trans(Control(s2), Eps, e.t.target);
            && AtLeast(sr, c.weights, eps, sr.extend(e.w, w))
            && (Sink, TransitivePop(eps, sr.extend(e.w, w))) in c.registered)
      && (e.out && e.t.lbl == Sym(l1) && !e.t.target.Gen? ==>
            (s2, e.t) in c.table && sr.Le(e.w, c.table[(s2, e.t)]))
      && (e.out && e.t.lbl in empties ==> (Sink, HandlePop(e.t.target, l1, s2, w)) in c.registered)
    case TransitivePop(eps, newWeight) =>
      e.out ==> AtLeast(sr, c.weights, ReturnResult(eps, e.t), sr.extend(e.w, newWeight))
    case Observer(_, _) => e in c.seen
  }

  lemma DoneGrows<D(!new), N(!new), W(!new)>(
    sr: Semiring<W>, empties: set<Label<N>>, nested: bool, c: Core<D, N, W>, c': Core<D, N, W>, e: Event<D, N, W>)
    requires sr.Laws() && Grows(sr, c, c') && Done(sr, empties, nested, c, e)
    ensures Done(sr, empties, nested, c', e)
  {
    match e.l
    case HandleNormal(r) =>
      if e.out && NormalFires(r, e.t) {
        AtLeastGrows(sr, c, c', NormalResult(r, e.t), sr.extend(e.w, r.w));
      }
    case HandlePush(r) =>
      if e.out && PushFires(r, e.t) {
        AtLeastGrows(sr, c, c', CallResult(r, e.t), sr.extend(e.w, r.w));
        AtLeastGrows(sr, c, c', EntryResult(r), sr.one);
      }
    case HandlePop(_, l1, s2, w) =>
      if e.out && e.t.lbl == Sym(l1) {
        if e.t.target.Gen? {
          AtLeastGrows(sr, c, c', Trans(Control(s2), Eps, e.t.target), sr.extend(e.w, w));
        } else {
          sr.LeTransitive(e.w, c.table[(s2, e.t)], c'.table[(s2, e.t)]);
        }
      }
    case TransitivePop(eps, newWeight) =>
      if e.out {
        AtLeastGrows(sr, c, c', ReturnResult(eps, e.t), sr.extend(e.w, newWeight));
      }
    case Observer(_, _) =>
  }

  /** Where a pop listener may sit: see PopPosition; nothing leaves Sink. */
  ghost predicate PopListenerOk<D(!new), N(!new), W(!new)>(
    sys: System<D, N, W>, m: map<Trans<D, N>, W>, at: State<D, N>, l1: N, s2: D, w: W)
  {
    exists r <- sys.rules ::
      r.Pop? && r.l1 == l1 && r.s2 == s2 && r.w == w && (at == Sink || PopPosition(sys, m, r, at))
  }

  /** A listener comes from a rule, or carries a derived weight. */
  ghost predicate ListenerOk<D(!new), N(!new), W(!new)>(
    sys: System<D, N, W>, m: map<Trans<D, N>, W>, l: Listener<D, N, W>)
  {
    match l
    case HandleNormal(r) => r in sys.rules && r.Normal?
    case HandlePush(r) => r in sys.rules && r.Push?
    case HandlePop(at, l1, s2, w) => PopListenerOk(sys, m, at, l1, s2, w)
    case TransitivePop(e, newWeight) =>
      e.start.Control? && e.lbl == Eps && e.target.Gen? && e in m && Derivable(sys, e, newWeight)
    case Observer(_, _) => true
  }

  lemma ListenerOkGrows<D(!new), N(!new), W(!new)>(
    sys: System<D, N, W>, c: Core<D, N, W>, c': Core<D, N, W>, l: Listener<D, N, W>)
    requires Grows(sys.sr, c, c') && ListenerOk(sys, c.weights, l)
    ensures ListenerOk(sys, c'.weights, l)
  {
    assert forall t <- c.weights :: AtLeast(sys.sr, c'.weights, t, c.weights[t]) && t in c'.weights;
    if l.HandlePop? {
      var r :| r in sys.rules && r.Pop? && r.l1 == l.l1 && r.s2 == l.s2 && r.w == l.w
        && (l.at == Sink || PopPosition(sys, c.weights, r, l.at));
      assert l.at == Sink || PopPosition(sys, c'.weights, r, l.at);
    }
  }

  // ---------------------------------------------------------------- the invariant

  /** Every listener has been told the current weight of each transition at its
      state in its automaton, or is about to be. */
  ghost predicate Delivered<D(!new), N(!new), W(!new)>(
    sys: System<D, N, W>, nested: bool, c: Core<D, N, W>, pending: set<Task<D, N, W>>)
  {
    forall l, t {:trigger DeliveredAt(sys, nested, c, pending, l, t)} ::
      t in c.weights && (Home(nested, t), l) in c.registered ==> DeliveredAt(sys, nested, c, pending, l, t)
  }

  ghost predicate DeliveredAt<D(!new), N(!new), W(!new)>(
    sys: System<D, N, W>, nested: bool, c: Core<D, N, W>, pending: set<Task<D, N, W>>, l: Listener<D, N, W>,
    t: Trans<D, N>)
    requires t in c.weights
  {
    && (t.start == StateOf(l) ==> DeliveredTo(sys, nested, c, pending, Event(l, true, t, c.weights[t])))
    && (t.target == StateOf(l) ==> DeliveredTo(sys, nested, c, pending, Event(l, false, t, c.weights[t])))
  }

  ghost predicate DeliveredTo<D(!new), N(!new), W(!new)>(
    sys: System<D, N, W>, nested: bool, c: Core<D, N, W>, pending: set<Task<D, N, W>>, e: Event<D, N, W>)
  {
    Done(sys.sr, sys.empties, nested, c, e) || Deliver(e) in pending
  }

  /** A nested automaton gets every listener of the automata it is nested in. */
  ghost predicate Propagated<D(!new), N(!new), W(!new)>(c: Core<D, N, W>, pending: set<Task<D, N, W>>) {
    forall p <- c.registered, ed <- c.nestedIn | ed.0 == p.0 ::
      (ed.1, p.1) in c.registered || Register(ed.1, p.1) in pending
  }

  /** Every transition has an automaton to live in, and every automaton other
      than the root is nested in one that was there before it. */
  ghost predicate Housed<D(!new), N(!new), W(!new)>(nested: bool, c: Core<D, N, W>, age: map<State<D, N>, nat>) {
    && Sink in c.automata
    && (forall t <- c.weights :: Home(nested, t) in c.automata)
    && (forall p <- c.registered :: p.0 in c.automata)
    && (forall ed <- c.nestedIn :: ed.0 in c.automata && ed.1 in c.automata)
    && age.Keys == c.automata
    && (forall a {:trigger HasElder(c.nestedIn, age, a)} :: a in c.automata ==>
          a == Sink || HasElder(c.nestedIn, age, a))
  }

  ghost predicate HasElder<D(!new), N(!new)>(
    nestedIn: set<(State<D, N>, State<D, N>)>, age: map<State<D, N>, nat>, a: State<D, N>)
    requires a in age
  {
    exists b <- age :: (b, a) in nestedIn && age[b] < age[a]
  }

  /** Observers are told nothing that was not so. */
  ghost predicate SeenOk<D(!new), N(!new), W(!new)>(sr: Semiring<W>, c: Core<D, N, W>) {
    forall e <- c.seen ::
      && AtLeast(sr, c.weights, e.t, e.w)
      && StateOf(e.l) == (if e.out then e.t.start else e.t.target)
  }

  ghost predicate Inv<D(!new), N(!new), W(!new)>(
    sys: System<D, N, W>, nested: bool, c: Core<D, N, W>, pending: set<Task<D, N, W>>, age: map<State<D, N>, nat>)
  {
    && AllDerivable(sys, c.weights)
    && (forall p <- c.registered :: ListenerOk(sys, c.weights, p.1))
    && Delivered(sys, nested, c, pending)
    && Propagated(c, pending)
    && Housed(nested, c, age)
    && TableJustified(sys, c.weights, c.table)
    && SeenOk(sys.sr, c)
  }

  // ---------------------------------------------------------------- indexes and notifications

  /** The derived collections of an automaton agree with its weights. */
  ghost predicate Indexes<D(!new), N(!new), W(!new)>(
    m: map<Trans<D, N>, W>, transitions: set<Trans<D, N>>,
    outOf: set<(State<D, N>, Trans<D, N>)>, into: set<(State<D, N>, Trans<D, N>)>, states: set<State<D, N>>)
  {
    && transitions == m.Keys
    && outOf == (set t <- m.Keys :: (t.start, t))
    && into == (set t <- m.Keys :: (t.target, t))
    && (forall s {:trigger Touched(m, s)} :: s in states <==> Touched(m, s))
  }

  ghost predicate Touched<D(!new), N(!new), W(!new)>(m: map<Trans<D, N>, W>, s: State<D, N>) {
    exists t <- m :: t.start == s || t.target == s
  }

  /** Update listeners have been told every current weight, and only derived ones. */
  ghost predicate Notifies<D(!new), N(!new), W(!new)>(
    sr: Semiring<W>, m: map<Trans<D, N>, W>, log: seq<(Trans<D, N>, W)>)
  {
    && (forall t <- m :: (t, m[t]) in log)
    && (forall i <- log :: AtLeast(sr, m, i.0, i.1))
  }

  ghost predicate Bookkept<D(!new), N(!new), W(!new)>(
    sr: Semiring<W>, m: map<Trans<D, N>, W>, transitions: set<Trans<D, N>>,
    outOf: set<(State<D, N>, Trans<D, N>)>, into: set<(State<D, N>, Trans<D, N>)>, states: set<State<D, N>>,
    log: seq<(Trans<D, N>, W)>)
  {
    Indexes(m, transitions, outOf, into, states) && Notifies(sr, m, log)
  }

  lemma RaiseBookkept<D(!new), N(!new), W(!new)>(
    sr: Semiring<W>, m: map<Trans<D, N>, W>, transitions: set<Trans<D, N>>,
    outOf: set<(State<D, N>, Trans<D, N>)>, into: set<(State<D, N>, Trans<D, N>)>, states: set<State<D, N>>,
    log: seq<(Trans<D, N>, W)>, t: Trans<D, N>, w: W)
    requires sr.Laws() && Bookkept(sr, m, transitions, outOf, into, states, log) && (t in m ==> sr.Le(m[t], w))
    ensures Bookkept(sr, m[t := w], transitions + {t}, outOf + {(t.start, t)}, into + {(t.target, t)},
                     states + {t.target, t.start}, log + [(t, w)])
  {
    assert m[t := w].Keys == m.Keys + {t};
    forall s ensures s in states + {t.target, t.start} <==> Touched(m[t := w], s) {
      assert Touched(m, s) <==> exists u <- m :: u.start == s || u.target == s;
      assert t in m[t := w];
    }
    RaiseNotifies(sr, m, log, t, w);
  }

  lemma RaiseNotifies<D(!new), N(!new), W(!new)>(
    sr: Semiring<W>, m: map<Trans<D, N>, W>, log: seq<(Trans<D, N>, W)>, t: Trans<D, N>, w: W)
    requires sr.Laws() && Notifies(sr, m, log) && (t in m ==> sr.Le(m[t], w))
    ensures Notifies(sr, m[t := w], log + [(t, w)])
  {
    sr.LeReflexive(w);
    forall i <- log ensures AtLeast(sr, m[t := w], i.0, i.1) {
      if i.0 == t { sr.LeTransitive(i.1, m[t], w); }
    }
  }

  // ---------------------------------------------------------------- parts of the invariant

  lemma InvTransition<D(!new), N(!new), W(!new)>(
    sys: System<D, N, W>, nested: bool, c: Core<D, N, W>, pending: set<Task<D, N, W>>, age: map<State<D, N>, nat>,
    t: Trans<D, N>)
    requires Inv(sys, nested, c, pending, age) && t in c.weights
    ensures Derivable(sys, t, c.weights[t]) && Home(nested, t) in c.automata
  {
  }

  lemma InvListener<D(!new), N(!new), W(!new)>(
    sys: System<D, N, W>, nested: bool, c: Core<D, N, W>, pending: set<Task<D, N, W>>, age: map<State<D, N>, nat>,
    p: (State<D, N>, Listener<D, N, W>))
    requires Inv(sys, nested, c, pending, age) && p in c.registered
    ensures ListenerOk(sys, c.weights, p.1) && p.0 in c.automata
  {
  }

  lemma InvAutomata<D(!new), N(!new), W(!new)>(
    sys: System<D, N, W>, nested: bool, c: Core<D, N, W>, pending: set<Task<D, N, W>>, age: map<State<D, N>, nat>)
    requires Inv(sys, nested, c, pending, age)
    ensures Sink in c.automata && age.Keys == c.automata
    ensures forall ed <- c.nestedIn :: ed.0 in c.automata && ed.1 in c.automata
  {
  }

  lemma GrowsParts<D(!new), N(!new), W(!new)>(sr: Semiring<W>, c: Core<D, N, W>, c': Core<D, N, W>)
    requires Grows(sr, c, c')
    ensures c.automata <= c'.automata && c.nestedIn <= c'.nestedIn && c.registered <= c'.registered && c.seen <= c'.seen
    ensures c.weights.Keys <= c'.weights.Keys
  {
    forall t <- c.weights ensures t in c'.weights { assert AtLeast(sr, c'.weights, t, c.weights[t]); }
  }
}
