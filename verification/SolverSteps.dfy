/** What each elementary step of the saturation does to the invariant. */
module SolverSteps {
  import opened Semirings
  import opened Pushdown
  import opened PAutomata
  import opened UnbalancedPops
  import opened SolverState
  import opened Termination

  // ---------------------------------------------------------------- derivability of updates

  lemma DerivableNormal<D(!new), N(!new), W(!new)>(sys: System<D, N, W>, t: Trans<D, N>, w: W, r: Rule<D, N, W>)
    requires Derivable(sys, t, w) && r in sys.rules && NormalFires(r, t)
    ensures Derivable(sys, NormalResult(r, t), sys.sr.extend(w, r.w))
  {
    var d :| Valid(sys, d) && Concl(d) == t && Value(sys.sr, d) == w;
    assert Valid(sys, NormalStep(r, d));
  }

  lemma DerivablePush<D(!new), N(!new), W(!new)>(sys: System<D, N, W>, t: Trans<D, N>, w: W, r: Rule<D, N, W>)
    requires Derivable(sys, t, w) && r in sys.rules && PushFires(r, t)
    ensures Derivable(sys, CallResult(r, t), sys.sr.extend(w, r.w)) && Derivable(sys, EntryResult(r), sys.sr.one)
  {
    var d :| Valid(sys, d) && Concl(d) == t && Value(sys.sr, d) == w;
    assert Valid(sys, CallStep(r, d)) && Valid(sys, EntryStep(r, d));
  }

  lemma DerivableReturn<D(!new), N(!new), W(!new)>(sys: System<D, N, W>, e: Trans<D, N>, we: W, t: Trans<D, N>, w: W)
    requires Derivable(sys, e, we) && Derivable(sys, t, w)
    requires e.start.Control? && e.lbl == Eps && e.target.Gen? && e.target == t.start
    ensures Derivable(sys, ReturnResult(e, t), sys.sr.extend(w, we))
  {
    var de :| Valid(sys, de) && Concl(de) == e && Value(sys.sr, de) == we;
    var d :| Valid(sys, d) && Concl(d) == t && Value(sys.sr, d) == w;
    assert Valid(sys, ReturnStep(de, d));
  }

  lemma DerivableJoin<D(!new), N(!new), W(!new)>(sys: System<D, N, W>, t: Trans<D, N>, w: W, w': W)
    requires Derivable(sys, t, w) && Derivable(sys, t, w')
    ensures Derivable(sys, t, sys.sr.combine(w, w'))
  {
    var d :| Valid(sys, d) && Concl(d) == t && Value(sys.sr, d) == w;
    var d' :| Valid(sys, d') && Concl(d') == t && Value(sys.sr, d') == w';
    assert Valid(sys, Join(d, d'));
  }

  lemma DerivableIsShaped<D(!new), N(!new), W(!new)>(sys: System<D, N, W>, t: Trans<D, N>, w: W)
    requires WellFormed(sys) && Derivable(sys, t, w)
    ensures Shaped(sys.empties, t)
  {
    var d :| Valid(sys, d) && Concl(d) == t && Value(sys.sr, d) == w;
    DerivationsShaped(sys, d);
  }

  /** The rule behind a pop listener that is told of a transition. */
  lemma PopListenerRule<D(!new), N(!new), W(!new)>(
    sys: System<D, N, W>, m: map<Trans<D, N>, W>, l: Listener<D, N, W>, t: Trans<D, N>) returns (r: Rule<D, N, W>)
    requires l.HandlePop? && ListenerOk(sys, m, l) && t.start == l.at && !t.start.Sink?
    ensures r in sys.rules && r.Pop? && r.l1 == l.l1 && r.s2 == l.s2 && r.w == l.w && PopPosition(sys, m, r, t.start)
  {
    r :| r in sys.rules && r.Pop? && r.l1 == l.l1 && r.s2 == l.s2 && r.w == l.w
      && (l.at == Sink || PopPosition(sys, m, r, l.at));
  }

  lemma DerivablePop<D(!new), N(!new), W(!new)>(
    sys: System<D, N, W>, m: map<Trans<D, N>, W>, l: Listener<D, N, W>, t: Trans<D, N>, w: W)
    requires AllDerivable(sys, m) && l.HandlePop? && ListenerOk(sys, m, l) && Derivable(sys, t, w)
    requires t.start == l.at && !t.start.Sink? && t.lbl == Sym(l.l1) && t.target.Gen?
    ensures Derivable(sys, Trans(Control(l.s2), Eps, t.target), sys.sr.extend(w, l.w))
  {
    var r := PopListenerRule(sys, m, l, t);
    var d :| Valid(sys, d) && Concl(d) == t && Value(sys.sr, d) == w;
    if t.start == Control(r.s1) {
      assert Valid(sys, PopStep(r, d));
    } else {
      var e :| e in m && e.start == Control(r.s1) && e.lbl in sys.empties && e.target == t.start;
      assert Derivable(sys, e, m[e]);
      var de :| Valid(sys, de) && Concl(de) == e && Value(sys.sr, de) == m[e];
      assert Valid(sys, SkipPopStep(r, de, d));
    }
  }

  /** A pop listener that is moved on by an Empty label stays a pop listener of
      its rule, and moves from a control state to a generated one to Sink. */
  lemma MovedPopListener<D(!new), N(!new), W(!new)>(
    sys: System<D, N, W>, m: map<Trans<D, N>, W>, l: Listener<D, N, W>, t: Trans<D, N>)
    requires l.HandlePop? && ListenerOk(sys, m, l) && t in m && (forall u <- m :: Shaped(sys.empties, u))
    requires t.start == l.at && t.lbl in sys.empties
    ensures ListenerOk(sys, m, HandlePop(t.target, l.l1, l.s2, l.w))
    ensures l.at.Gen? ==> t.target.Sink?
  {
    var r := PopListenerRule(sys, m, l, t);
    if t.start == Control(r.s1) {
      assert PopPosition(sys, m, r, t.target);
    } else {
      assert !t.start.Control?;
    }
  }

  // ---------------------------------------------------------------- discharging work

  /** Work can be forgotten once it is done, or once it has become stale. */
  lemma DropTask<D(!new), N(!new), W(!new)>(
    sys: System<D, N, W>, nested: bool, c: Core<D, N, W>, pending: set<Task<D, N, W>>, age: map<State<D, N>, nat>,
    task: Task<D, N, W>)
    requires Inv(sys, nested, c, pending, age)
    requires task.Deliver? ==>
      Done(sys.sr, sys.empties, nested, c, task.e) || (task.e.t in c.weights && c.weights[task.e.t] != task.e.w)
    requires task.Register? ==> (task.aut, task.l) in c.registered
    ensures Inv(sys, nested, c, pending - {task}, age)
  {
    hide ListenerOk, AllDerivable, Housed, TableJustified;
    forall l', u | u in c.weights && (Home(nested, u), l') in c.registered
      ensures DeliveredAt(sys, nested, c, pending - {task}, l', u)
    {
      assert DeliveredAt(sys, nested, c, pending, l', u);
    }
  }

  // ---------------------------------------------------------------- raising a weight

  ghost function ListenersAt<D(!new), N(!new), W(!new)>(
    registered: set<(State<D, N>, Listener<D, N, W>)>, aut: State<D, N>, s: State<D, N>): set<Listener<D, N, W>>
  {
    set p <- registered | p.0 == aut && StateOf(p.1) == s :: p.1
  }

  ghost function DeliverAll<D(!new), N(!new), W(!new)>(
    ls: set<Listener<D, N, W>>, out: bool, t: Trans<D, N>, w: W): set<Task<D, N, W>>
  {
    set l <- ls :: Deliver(Event(l, out, t, w))
  }

  ghost function RaiseTasks<D(!new), N(!new), W(!new)>(
    nested: bool, c: Core<D, N, W>, t: Trans<D, N>, w: W): set<Task<D, N, W>>
  {
    DeliverAll(ListenersAt(c.registered, Home(nested, t), t.start), true, t, w)
    + DeliverAll(ListenersAt(c.registered, Home(nested, t), t.target), false, t, w)
  }

  lemma RaiseGrows<D(!new), N(!new), W(!new)>(sr: Semiring<W>, c: Core<D, N, W>, t: Trans<D, N>, w: W)
    requires sr.Laws() && (t in c.weights ==> sr.Le(c.weights[t], w))
    ensures Grows(sr, c, c.(weights := c.weights[t := w]))
    ensures Grows(sr, c, c.(weights := c.weights[t := w], log := c.log + [(t, w)]))
  {
    var c' := c.(weights := c.weights[t := w]);
    forall u <- c.weights ensures AtLeast(sr, c'.weights, u, c.weights[u]) { sr.LeReflexive(c.weights[u]); }
    forall k <- c.table ensures sr.Le(c.table[k], c.table[k]) { sr.LeReflexive(c.table[k]); }
  }

  lemma RaiseInv<D(!new), N(!new), W(!new)>(
    sys: System<D, N, W>, nested: bool, c: Core<D, N, W>, pending: set<Task<D, N, W>>, age: map<State<D, N>, nat>,
    t: Trans<D, N>, w: W)
    requires sys.sr.Laws() && Inv(sys, nested, c, pending, age)
    requires Derivable(sys, t, w) && (t in c.weights ==> sys.sr.Le(c.weights[t], w)) && Home(nested, t) in c.automata
    ensures Inv(sys, nested, c.(weights := c.weights[t := w]), pending + RaiseTasks(nested, c, t, w), age)
  {
    var c', pending' := c.(weights := c.weights[t := w]), pending + RaiseTasks(nested, c, t, w);
    RaiseGrows(sys.sr, c, t, w);
    forall p <- c'.registered ensures ListenerOk(sys, c'.weights, p.1) { ListenerOkGrows(sys, c, c', p.1); }
    RaiseDelivered(sys, nested, c, pending, t, w);
    TableGrows(sys, c, c');
    forall e <- c'.seen ensures AtLeast(sys.sr, c'.weights, e.t, e.w) { AtLeastGrows(sys.sr, c, c', e.t, e.w); }
  }

  lemma RaiseDelivered<D(!new), N(!new), W(!new)>(
    sys: System<D, N, W>, nested: bool, c: Core<D, N, W>, pending: set<Task<D, N, W>>, t: Trans<D, N>, w: W)
    requires sys.sr.Laws() && Delivered(sys, nested, c, pending) && (t in c.weights ==> sys.sr.Le(c.weights[t], w))
    ensures Delivered(sys, nested, c.(weights := c.weights[t := w]), pending + RaiseTasks(nested, c, t, w))
  {
    var c', pending' := c.(weights := c.weights[t := w]), pending + RaiseTasks(nested, c, t, w);
    RaiseGrows(sys.sr, c, t, w);
    forall l', u | u in c'.weights && (Home(nested, u), l') in c'.registered
      ensures DeliveredAt(sys, nested, c', pending', l', u)
    {
      if u == t {
        var p := (Home(nested, t), l');
        assert t.start == StateOf(l') ==> p.1 in ListenersAt(c.registered, Home(nested, t), t.start);
        assert t.target == StateOf(l') ==> p.1 in ListenersAt(c.registered, Home(nested, t), t.target);
      } else {
        assert DeliveredAt(sys, nested, c, pending, l', u);
        DeliveredAtGrows(sys, nested, c, c', pending, pending', l', u);
      }
    }
  }

  lemma DeliveredGrows<D(!new), N(!new), W(!new)>(
    sys: System<D, N, W>, nested: bool, c: Core<D, N, W>, c': Core<D, N, W>,
    pending: set<Task<D, N, W>>, pending': set<Task<D, N, W>>, e: Event<D, N, W>)
    requires sys.sr.Laws() && Grows(sys.sr, c, c') && pending <= pending'
    ensures DeliveredTo(sys, nested, c, pending, e) ==> DeliveredTo(sys, nested, c', pending', e)
  {
    if Done(sys.sr, sys.empties, nested, c, e) {
      DoneGrows(sys.sr, sys.empties, nested, c, c', e);
    }
  }

  lemma DeliveredAtGrows<D(!new), N(!new), W(!new)>(
    sys: System<D, N, W>, nested: bool, c: Core<D, N, W>, c': Core<D, N, W>,
    pending: set<Task<D, N, W>>, pending': set<Task<D, N, W>>, l: Listener<D, N, W>, t: Trans<D, N>)
    requires sys.sr.Laws() && Grows(sys.sr, c, c') && pending <= pending'
    requires t in c.weights && t in c'.weights && c'.weights[t] == c.weights[t]
    ensures DeliveredAt(sys, nested, c, pending, l, t) ==> DeliveredAt(sys, nested, c', pending', l, t)
  {
    DeliveredGrows(sys, nested, c, c', pending, pending', Event(l, true, t, c.weights[t]));
    DeliveredGrows(sys, nested, c, c', pending, pending', Event(l, false, t, c.weights[t]));
  }

  lemma TableGrows<D(!new), N(!new), W(!new)>(sys: System<D, N, W>, c: Core<D, N, W>, c': Core<D, N, W>)
    requires sys.sr.Laws() && Grows(sys.sr, c, c') && TableJustified(sys, c.weights, c.table)
    ensures TableJustified(sys, c'.weights, c.table)
  {
    assert forall t <- c.weights :: AtLeast(sys.sr, c'.weights, t, c.weights[t]) && t in c'.weights;
    forall k <- c.table
      ensures k.1 in c'.weights && sys.sr.Le(c.table[k], c'.weights[k.1])
      ensures exists r <- sys.rules :: PopsLast(sys, c'.weights, r, k.1) && r.s2 == k.0
    {
      sys.sr.LeTransitive(c.table[k], c.weights[k.1], c'.weights[k.1]);
      var r :| r in sys.rules && PopsLast(sys, c.weights, r, k.1) && r.s2 == k.0;
      assert PopsLast(sys, c'.weights, r, k.1);
    }
  }

  // ---------------------------------------------------------------- registering a listener

  ghost function TransAt<D(!new), N(!new), W(!new)>(
    nested: bool, m: map<Trans<D, N>, W>, aut: State<D, N>, out: bool, s: State<D, N>): set<Trans<D, N>>
  {
    set t <- m | Home(nested, t) == aut && (if out then t.start else t.target) == s :: t
  }

  ghost function TellAll<D(!new), N(!new), W(!new)>(
    l: Listener<D, N, W>, out: bool, m: map<Trans<D, N>, W>, ts: set<Trans<D, N>>): set<Task<D, N, W>>
    requires ts <= m.Keys
  {
    set t <- ts :: Deliver(Event(l, out, t, m[t]))
  }

  ghost function ChildrenOf<D(!new), N(!new)>(
    nestedIn: set<(State<D, N>, State<D, N>)>, aut: State<D, N>): set<State<D, N>>
  {
    set ed <- nestedIn | ed.0 == aut :: ed.1
  }

  ghost function RegisterIn<D(!new), N(!new), W(!new)>(
    auts: set<State<D, N>>, l: Listener<D, N, W>): set<Task<D, N, W>>
  {
    set a <- auts :: Register(a, l)
  }

  ghost function RegisterTasks<D(!new), N(!new), W(!new)>(
    nested: bool, c: Core<D, N, W>, aut: State<D, N>, l: Listener<D, N, W>): set<Task<D, N, W>>
  {
    TellAll(l, true, c.weights, TransAt(nested, c.weights, aut, true, StateOf(l)))
    + TellAll(l, false, c.weights, TransAt(nested, c.weights, aut, false, StateOf(l)))
    + RegisterIn(ChildrenOf(c.nestedIn, aut), l)
  }

  lemma RegisterGrows<D(!new), N(!new), W(!new)>(
    sr: Semiring<W>, c: Core<D, N, W>, aut: State<D, N>, l: Listener<D, N, W>)
    requires sr.Laws()
    ensures Grows(sr, c, c.(registered := c.registered + {(aut, l)}))
  {
    GrowsReflexive(sr, c);
  }

  lemma RegisterInv<D(!new), N(!new), W(!new)>(
    sys: System<D, N, W>, nested: bool, c: Core<D, N, W>, pending: set<Task<D, N, W>>, age: map<State<D, N>, nat>,
    aut: State<D, N>, l: Listener<D, N, W>)
    requires sys.sr.Laws() && Inv(sys, nested, c, pending, age)
    requires ListenerOk(sys, c.weights, l) && aut in c.automata
    ensures Inv(sys, nested, c.(registered := c.registered + {(aut, l)}), pending + RegisterTasks(nested, c, aut, l),
      age)
  {
    var c', pending' := c.(registered := c.registered + {(aut, l)}), pending + RegisterTasks(nested, c, aut, l);
    RegisterGrows(sys.sr, c, aut, l);
    RegisterDelivered(sys, nested, c, pending, aut, l);
    RegisterPropagated(nested, c, pending, aut, l);
    assert Housed(nested, c', age);
  }

  lemma RegisterPropagated<D(!new), N(!new), W(!new)>(
    nested: bool, c: Core<D, N, W>, pending: set<Task<D, N, W>>, aut: State<D, N>, l: Listener<D, N, W>)
    requires Propagated(c, pending)
    ensures Propagated(c.(registered := c.registered + {(aut, l)}), pending + RegisterTasks(nested, c, aut, l))
  {
    forall ed <- c.nestedIn | ed.0 == aut
      ensures Register(ed.1, l) in RegisterTasks(nested, c, aut, l)
    {
      assert ed.1 in ChildrenOf(c.nestedIn, aut);
    }
  }

  lemma RegisterDelivered<D(!new), N(!new), W(!new)>(
    sys: System<D, N, W>, nested: bool, c: Core<D, N, W>, pending: set<Task<D, N, W>>, aut: State<D, N>,
    l: Listener<D, N, W>)
    requires sys.sr.Laws() && Delivered(sys, nested, c, pending)
    ensures Delivered(sys, nested, c.(registered := c.registered + {(aut, l)}),
      pending + RegisterTasks(nested, c, aut, l))
  {
    var c', pending' := c.(registered := c.registered + {(aut, l)}), pending + RegisterTasks(nested, c, aut, l);
    RegisterGrows(sys.sr, c, aut, l);
    forall l', u | u in c'.weights && (Home(nested, u), l') in c'.registered
      ensures DeliveredAt(sys, nested, c', pending', l', u)
    {
      if (Home(nested, u), l') == (aut, l) {
        assert u.start == StateOf(l) ==> u in TransAt(nested, c.weights, aut, true, StateOf(l));
        assert u.target == StateOf(l) ==> u in TransAt(nested, c.weights, aut, false, StateOf(l));
      } else {
        assert DeliveredAt(sys, nested, c, pending, l', u);
        DeliveredAtGrows(sys, nested, c, c', pending, pending', l', u);
      }
    }
  }

  // ---------------------------------------------------------------- nesting an automaton

  ghost function NestTasks<D(!new), N(!new), W(!new)>(
    c: Core<D, N, W>, parent: State<D, N>, child: State<D, N>): set<Task<D, N, W>>
  {
    set p <- c.registered | p.0 == parent :: Register(child, p.1)
  }

  ghost function Nested<D(!new), N(!new), W(!new)>(
    c: Core<D, N, W>, parent: State<D, N>, child: State<D, N>): Core<D, N, W>
  {
    c.(automata := c.automata + {child}, nestedIn := c.nestedIn + {(parent, child)})
  }

  ghost function NestedAge<D(!new), N(!new)>(
    age: map<State<D, N>, nat>, parent: State<D, N>, child: State<D, N>): map<State<D, N>, nat>
    requires parent in age
  {
    if child in age then age else age[child := age[parent] + 1]
  }

  lemma NestInv<D(!new), N(!new), W(!new)>(
    sys: System<D, N, W>, nested: bool, c: Core<D, N, W>, pending: set<Task<D, N, W>>, age: map<State<D, N>, nat>,
    parent: State<D, N>, child: State<D, N>)
    requires sys.sr.Laws() && Inv(sys, nested, c, pending, age) && parent in c.automata
    ensures Inv(sys, nested, Nested(c, parent, child), pending + NestTasks(c, parent, child),
      NestedAge(age, parent, child))
    ensures Grows(sys.sr, c, Nested(c, parent, child))
  {
    hide ListenerOk, AllDerivable, TableJustified, Done;
    var c', pending' := Nested(c, parent, child), pending + NestTasks(c, parent, child);
    GrowsReflexive(sys.sr, c);
    assert Grows(sys.sr, c, c');
    forall l', u | u in c'.weights && (Home(nested, u), l') in c'.registered
      ensures DeliveredAt(sys, nested, c', pending', l', u)
    {
      assert DeliveredAt(sys, nested, c, pending, l', u);
      DeliveredAtGrows(sys, nested, c, c', pending, pending', l', u);
    }
    NestHoused(nested, c, age, parent, child);
  }

  lemma NestHoused<D(!new), N(!new), W(!new)>(
    nested: bool, c: Core<D, N, W>, age: map<State<D, N>, nat>, parent: State<D, N>, child: State<D, N>)
    requires Housed(nested, c, age) && parent in c.automata
    ensures Housed(nested, Nested(c, parent, child), NestedAge(age, parent, child))
  {
    var c', age' := Nested(c, parent, child), NestedAge(age, parent, child);
    forall a <- c'.automata | a != Sink
      ensures HasElder(c'.nestedIn, age', a)
    {
      if a in c.automata {
        assert HasElder(c.nestedIn, age, a);
        var b :| b in c.automata && (b, a) in c.nestedIn && age[b] < age[a];
        assert b in c'.automata && (b, a) in c'.nestedIn;
      } else {
        assert parent in c'.automata && (parent, a) in c'.nestedIn;
      }
    }
  }

  // ---------------------------------------------------------------- unbalanced pops, observers

  lemma TableInv<D(!new), N(!new), W(!new)>(
    sys: System<D, N, W>, nested: bool, c: Core<D, N, W>, pending: set<Task<D, N, W>>, age: map<State<D, N>, nat>,
    l: Listener<D, N, W>, t: Trans<D, N>, w: W)
    requires sys.sr.Laws() && Inv(sys, nested, c, pending, age)
    requires l.HandlePop? && ListenerOk(sys, c.weights, l) && t.start == l.at && !t.start.Sink?
    requires t in c.weights && sys.sr.Le(w, c.weights[t]) && t.lbl == Sym(l.l1) && !t.target.Gen?
    requires (l.s2, t) in c.table ==> sys.sr.Le(c.table[(l.s2, t)], w)
    ensures Inv(sys, nested, c.(table := c.table[(l.s2, t) := w]), pending, age)
    ensures Grows(sys.sr, c, c.(table := c.table[(l.s2, t) := w]))
  {
    hide Grows, ListenerOk, AllDerivable, Delivered, Propagated, Housed, TableJustified;
    hide sys.sr.Laws;
    var c' := c.(table := c.table[(l.s2, t) := w]);
    EntryGrows(sys.sr, c, (l.s2, t), w);
    SameDelivered(sys, nested, c, c', pending);
    SameNesting(nested, c, c', pending, age);
    TableEntry(sys, c, l, t, w);
  }

  lemma EntryGrows<D(!new), N(!new), W(!new)>(
    sr: Semiring<W>, c: Core<D, N, W>, entry: (D, Trans<D, N>), w: W)
    requires sr.Laws() && (entry in c.table ==> sr.Le(c.table[entry], w))
    ensures Grows(sr, c, c.(table := c.table[entry := w]))
  {
    hide sr.Laws;
    GrowsReflexive(sr, c);
  }

  lemma TableEntry<D(!new), N(!new), W(!new)>(
    sys: System<D, N, W>, c: Core<D, N, W>, l: Listener<D, N, W>, t: Trans<D, N>, w: W)
    requires TableJustified(sys, c.weights, c.table)
    requires l.HandlePop? && ListenerOk(sys, c.weights, l) && t.start == l.at && !t.start.Sink?
    requires t in c.weights && sys.sr.Le(w, c.weights[t]) && t.lbl == Sym(l.l1) && !t.target.Gen?
    ensures TableJustified(sys, c.weights, c.table[(l.s2, t) := w])
  {
    var r := PopListenerRule(sys, c.weights, l, t);
    assert PopsLast(sys, c.weights, r, t);
  }

  lemma SameNesting<D(!new), N(!new), W(!new)>(
    nested: bool, c: Core<D, N, W>, c': Core<D, N, W>, pending: set<Task<D, N, W>>, age: map<State<D, N>, nat>)
    requires Propagated(c, pending) && Housed(nested, c, age)
    requires c'.weights == c.weights && c'.registered == c.registered && c'.automata == c.automata &&
      c'.nestedIn == c.nestedIn
    ensures Propagated(c', pending) && Housed(nested, c', age)
  {
    forall a <- c'.automata | a != Sink ensures HasElder(c'.nestedIn, age, a) { assert HasElder(c.nestedIn, age, a); }
  }

  lemma SameDelivered<D(!new), N(!new), W(!new)>(
    sys: System<D, N, W>, nested: bool, c: Core<D, N, W>, c': Core<D, N, W>, pending: set<Task<D, N, W>>)
    requires sys.sr.Laws() && Delivered(sys, nested, c, pending) && Grows(sys.sr, c, c')
    requires c'.weights == c.weights && c'.registered == c.registered
    ensures Delivered(sys, nested, c', pending)
  {
    forall l', u | u in c'.weights && (Home(nested, u), l') in c'.registered
      ensures DeliveredAt(sys, nested, c', pending, l', u)
    {
      assert DeliveredAt(sys, nested, c, pending, l', u);
      DeliveredAtGrows(sys, nested, c, c', pending, pending, l', u);
    }
  }

  lemma SeenInv<D(!new), N(!new), W(!new)>(
    sys: System<D, N, W>, nested: bool, c: Core<D, N, W>, pending: set<Task<D, N, W>>, age: map<State<D, N>, nat>,
    e: Event<D, N, W>)
    requires sys.sr.Laws() && Inv(sys, nested, c, pending, age)
    requires AtLeast(sys.sr, c.weights, e.t, e.w) && StateOf(e.l) == (if e.out then e.t.start else e.t.target)
    ensures Inv(sys, nested, c.(seen := c.seen + {e}), pending, age)
    ensures Grows(sys.sr, c, c.(seen := c.seen + {e}))
  {
    hide ListenerOk, AllDerivable, Delivered, Propagated, Housed, TableJustified;
    hide sys.sr.Laws;
    var c' := c.(seen := c.seen + {e});
    GrowsReflexive(sys.sr, c);
    assert Grows(sys.sr, c, c');
    SameDelivered(sys, nested, c, c', pending);
    SameNesting(nested, c, c', pending, age);
  }

  // ---------------------------------------------------------------- the whole of it

  /** The invariant together with what it rests on: lawful weights, well-formed
      input, finitely many names, and call transitions for the summary listeners. */
  ghost predicate Consistent<D(!new), N(!new), W(!new)>(
    sys: System<D, N, W>, nested: bool, rank: W -> nat, names: Names<D, N>, summaries: set<Trans<D, N>>,
    c: Core<D, N, W>, pending: set<Task<D, N, W>>, age: map<State<D, N>, nat>)
  {
    && sys.sr.Laws() && Descends(sys.sr, rank) && WellFormed(sys)
    && Inv(sys, nested, c, pending, age)
    && SystemIn(names, sys) && WeightsIn(names, c.weights) && c.automata <= AllStates(names)
    && (forall call <- summaries :: call in c.weights && call.start.Gen?)
  }

  lemma RaiseConsistent<D(!new), N(!new), W(!new)>(
    sys: System<D, N, W>, nested: bool, rank: W -> nat, names: Names<D, N>, summaries: set<Trans<D, N>>,
    c: Core<D, N, W>, pending: set<Task<D, N, W>>, age: map<State<D, N>, nat>, t: Trans<D, N>, w: W)
    requires Consistent(sys, nested, rank, names, summaries, c, pending, age)
    requires Derivable(sys, t, w) && Home(nested, t) in c.automata
    requires t in c.weights ==> sys.sr.Le(c.weights[t], w) && c.weights[t] != w
    ensures Consistent(sys, nested, rank, names, summaries, c.(weights := c.weights[t := w], log := c.log + [(t, w)]),
                       pending + RaiseTasks(nested, c, t, w) + {Hear(|c.log|)}, age)
  {
    RaiseInv(sys, nested, c, pending, age, t, w);
    var c', pending' := c.(weights := c.weights[t := w]), pending + RaiseTasks(nested, c, t, w);
    SameButInput(sys, nested, c', c'.(log := c.log + [(t, w)]), pending', age);
    HearInv(sys, nested, c'.(log := c.log + [(t, w)]), pending', age, |c.log|);
    RaiseProgress(sys.sr, rank, names, sys, c.weights, t, w);
  }

  /** That a notification is still to be heard does not matter to the invariant. */
  lemma HearInv<D(!new), N(!new), W(!new)>(
    sys: System<D, N, W>, nested: bool, c: Core<D, N, W>, pending: set<Task<D, N, W>>, age: map<State<D, N>, nat>,
    k: nat)
    requires Inv(sys, nested, c, pending, age)
    ensures Inv(sys, nested, c, pending + {Hear(k)}, age)
  {
    var pending' := pending + {Hear(k)};
    forall l', u | u in c.weights && (Home(nested, u), l') in c.registered
      ensures DeliveredAt(sys, nested, c, pending', l', u)
    {
      assert DeliveredAt(sys, nested, c, pending, l', u);
    }
  }

  lemma DropConsistent<D(!new), N(!new), W(!new)>(
    sys: System<D, N, W>, nested: bool, rank: W -> nat, names: Names<D, N>, summaries: set<Trans<D, N>>,
    c: Core<D, N, W>, pending: set<Task<D, N, W>>, age: map<State<D, N>, nat>, task: Task<D, N, W>)
    requires Consistent(sys, nested, rank, names, summaries, c, pending, age)
    requires task.Deliver? ==>
      Done(sys.sr, sys.empties, nested, c, task.e) || (task.e.t in c.weights && c.weights[task.e.t] != task.e.w)
    requires task.Register? ==> (task.aut, task.l) in c.registered
    ensures Consistent(sys, nested, rank, names, summaries, c, pending - {task}, age)
  {
    DropTask(sys, nested, c, pending, age, task);
  }

  lemma InitialConsistent<D(!new), N(!new), W(!new)>(
    sr: Semiring<W>, empties: set<Label<N>>, nested: bool, rank: W -> nat, names: Names<D, N>)
    requires sr.Laws() && Descends(sr, rank)
    ensures Consistent<D, N, W>(System(sr, empties, {}, {}), nested, rank, names, {},
                                Core(map[], {Sink}, {}, {}, map[], {}, {}, {}, []), {}, map[Sink := 0])
  {
  }

  lemma RegisterConsistent<D(!new), N(!new), W(!new)>(
    sys: System<D, N, W>, nested: bool, rank: W -> nat, names: Names<D, N>, summaries: set<Trans<D, N>>,
    c: Core<D, N, W>, pending: set<Task<D, N, W>>, age: map<State<D, N>, nat>, aut: State<D, N>, l: Listener<D, N, W>)
    requires Consistent(sys, nested, rank, names, summaries, c, pending, age)
    requires ListenerOk(sys, c.weights, l) && aut in c.automata
    ensures Consistent(sys, nested, rank, names, summaries,
                       c.(registered := c.registered + {(aut, l)}), pending + RegisterTasks(nested, c, aut, l), age)
  {
    RegisterInv(sys, nested, c, pending, age, aut, l);
  }

  lemma NestConsistent<D(!new), N(!new), W(!new)>(
    sys: System<D, N, W>, nested: bool, rank: W -> nat, names: Names<D, N>, summaries: set<Trans<D, N>>,
    c: Core<D, N, W>, pending: set<Task<D, N, W>>, age: map<State<D, N>, nat>, parent: State<D, N>, child: State<D, N>)
    requires Consistent(sys, nested, rank, names, summaries, c, pending, age)
    requires parent in c.automata && child in AllStates(names)
    ensures age.Keys == c.automata
    ensures Consistent(sys, nested, rank, names, summaries,
                       Nested(c, parent, child), pending + NestTasks(c, parent, child), NestedAge(age, parent, child))
    ensures Grows(sys.sr, c, Nested(c, parent, child))
  {
    NestInv(sys, nested, c, pending, age, parent, child);
  }

  lemma TableConsistent<D(!new), N(!new), W(!new)>(
    sys: System<D, N, W>, nested: bool, rank: W -> nat, names: Names<D, N>, summaries: set<Trans<D, N>>,
    c: Core<D, N, W>, pending: set<Task<D, N, W>>, age: map<State<D, N>, nat>, l: Listener<D, N, W>, t: Trans<D, N>,
    w: W)
    requires Consistent(sys, nested, rank, names, summaries, c, pending, age)
    requires l.HandlePop? && ListenerOk(sys, c.weights, l) && t.start == l.at && !t.start.Sink?
    requires t in c.weights && sys.sr.Le(w, c.weights[t]) && t.lbl == Sym(l.l1) && !t.target.Gen?
    requires (l.s2, t) in c.table ==> sys.sr.Le(c.table[(l.s2, t)], w)
    ensures Consistent(sys, nested, rank, names, summaries, c.(table := c.table[(l.s2, t) := w]), pending, age)
    ensures Grows(sys.sr, c, c.(table := c.table[(l.s2, t) := w]))
  {
    TableInv(sys, nested, c, pending, age, l, t, w);
  }

  lemma SeenConsistent<D(!new), N(!new), W(!new)>(
    sys: System<D, N, W>, nested: bool, rank: W -> nat, names: Names<D, N>, summaries: set<Trans<D, N>>,
    c: Core<D, N, W>, pending: set<Task<D, N, W>>, age: map<State<D, N>, nat>, e: Event<D, N, W>)
    requires Consistent(sys, nested, rank, names, summaries, c, pending, age)
    requires AtLeast(sys.sr, c.weights, e.t, e.w) && StateOf(e.l) == (if e.out then e.t.start else e.t.target)
    ensures Consistent(sys, nested, rank, names, summaries, c.(seen := c.seen + {e}), pending, age)
    ensures Grows(sys.sr, c, c.(seen := c.seen + {e}))
  {
    SeenInv(sys, nested, c, pending, age, e);
  }

  lemma SummaryConsistent<D(!new), N(!new), W(!new)>(
    sys: System<D, N, W>, nested: bool, rank: W -> nat, names: Names<D, N>, summaries: set<Trans<D, N>>,
    c: Core<D, N, W>, pending: set<Task<D, N, W>>, age: map<State<D, N>, nat>, call: Trans<D, N>)
    requires Consistent(sys, nested, rank, names, summaries, c, pending, age)
    requires call in c.weights && call.start.Gen?
    ensures Consistent(sys, nested, rank, names, summaries + {call}, c, pending, age)
  {
  }

  // ---------------------------------------------------------------- more input

  ghost predicate Extends<D(!new), N(!new), W(!new)>(sys: System<D, N, W>, sys': System<D, N, W>) {
    sys.sr == sys'.sr && sys.empties == sys'.empties && sys.rules <= sys'.rules && sys.inits <= sys'.inits
  }

  lemma DerivableExtends<D(!new), N(!new), W(!new)>(sys: System<D, N, W>, sys': System<D, N, W>, t: Trans<D, N>, w: W)
    requires Extends(sys, sys') && Derivable(sys, t, w)
    ensures Derivable(sys', t, w)
  {
    var d :| Valid(sys, d) && Concl(d) == t && Value(sys.sr, d) == w;
    ValidMonotone(sys, sys', d);
  }

  lemma DerivableLater<D(!new), N(!new), W(!new)>(
    sr: Semiring<W>, empties: set<Label<N>>, c: Core<D, N, W>, c': Core<D, N, W>, t: Trans<D, N>, w: W)
    requires Grows(sr, c, c') && Derivable(System(sr, empties, c.rules, c.inits), t, w)
    ensures Derivable(System(sr, empties, c'.rules, c'.inits), t, w)
  {
    DerivableExtends(System(sr, empties, c.rules, c.inits), System(sr, empties, c'.rules, c'.inits), t, w);
  }

  lemma ListenerExtends<D(!new), N(!new), W(!new)>(
    sys: System<D, N, W>, sys': System<D, N, W>, m: map<Trans<D, N>, W>, l: Listener<D, N, W>)
    requires Extends(sys, sys') && ListenerOk(sys, m, l)
    ensures ListenerOk(sys', m, l)
  {
    match l
    case HandleNormal(_) =>
    case HandlePush(_) =>
    case HandlePop(at, l1, s2, w) =>
      var r :| r in sys.rules && r.Pop? && r.l1 == l1 && r.s2 == s2 && r.w == w &&
        (at == Sink || PopPosition(sys, m, r, at));
      assert r in sys'.rules && (at == Sink || PopPosition(sys', m, r, at));
    case TransitivePop(e, newWeight) => DerivableExtends(sys, sys', e, newWeight);
    case Observer(_, _) =>
  }

  lemma InvExtends<D(!new), N(!new), W(!new)>(
    sys: System<D, N, W>, sys': System<D, N, W>, nested: bool, c: Core<D, N, W>, pending: set<Task<D, N, W>>,
    age: map<State<D, N>, nat>)
    requires Extends(sys, sys') && Inv(sys, nested, c, pending, age)
    ensures Inv(sys', nested, c, pending, age)
  {
    forall t <- c.weights ensures Derivable(sys', t, c.weights[t]) { DerivableExtends(sys, sys', t, c.weights[t]); }
    forall p <- c.registered ensures ListenerOk(sys', c.weights, p.1) { ListenerExtends(sys, sys', c.weights, p.1); }
    assert Delivered(sys', nested, c, pending) by { DeliveredExtends(sys, sys', nested, c, pending); }
    TableExtends(sys, sys', c);
  }

  lemma DeliveredExtends<D(!new), N(!new), W(!new)>(
    sys: System<D, N, W>, sys': System<D, N, W>, nested: bool, c: Core<D, N, W>, pending: set<Task<D, N, W>>)
    requires Extends(sys, sys') && Delivered(sys, nested, c, pending)
    ensures Delivered(sys', nested, c, pending)
  {
    forall l', u | u in c.weights && (Home(nested, u), l') in c.registered
      ensures DeliveredAt(sys', nested, c, pending, l', u)
    {
      assert DeliveredAt(sys, nested, c, pending, l', u);
    }
  }

  lemma TableExtends<D(!new), N(!new), W(!new)>(sys: System<D, N, W>, sys': System<D, N, W>, c: Core<D, N, W>)
    requires Extends(sys, sys') && TableJustified(sys, c.weights, c.table)
    ensures TableJustified(sys', c.weights, c.table)
  {
    forall k <- c.table
      ensures exists r <- sys'.rules :: PopsLast(sys', c.weights, r, k.1) && r.s2 == k.0
    {
      var r :| r in sys.rules && PopsLast(sys, c.weights, r, k.1) && r.s2 == k.0;
      assert PopsLast(sys', c.weights, r, k.1);
    }
  }

  ghost function RuleNames<D(!new), N(!new), W(!new)>(names: Names<D, N>, r: Rule<D, N, W>): Names<D, N> {
    match r
    case Normal(_, _, s2, p2, _) => Names(names.states + {s2}, names.symbols + if p2.Lit? then {p2.n} else {})
    case Push(_, _, s2, l2, site, _) =>
      Names(names.states + {s2}, names.symbols + {l2} + if site.Lit? then {site.n} else {})
    case Pop(_, _, s2, _) => Names(names.states + {s2}, names.symbols)
  }

  ghost predicate NamesExtend<D(!new), N(!new)>(names: Names<D, N>, names': Names<D, N>) {
    names.states <= names'.states && names.symbols <= names'.symbols
  }

  lemma ExtendConsistent<D(!new), N(!new), W(!new)>(
    sys: System<D, N, W>, sys': System<D, N, W>, nested: bool, rank: W -> nat, names: Names<D, N>, names': Names<D, N>,
    summaries: set<Trans<D, N>>, c: Core<D, N, W>, pending: set<Task<D, N, W>>, age: map<State<D, N>, nat>)
    requires Consistent(sys, nested, rank, names, summaries, c, pending, age)
    requires Extends(sys, sys') && NamesExtend(names, names') && WellFormed(sys') && SystemIn(names', sys')
    ensures Consistent(sys', nested, rank, names', summaries, c, pending, age)
  {
    InvExtends(sys, sys', nested, c, pending, age);
    assert WeightsIn(names', c.weights);
    assert AllStates(names) <= AllStates(names');
  }

  lemma AddRuleConsistent<D(!new), N(!new), W(!new)>(
    sys: System<D, N, W>, nested: bool, rank: W -> nat, names: Names<D, N>,
    summaries: set<Trans<D, N>>, c: Core<D, N, W>, pending: set<Task<D, N, W>>, age: map<State<D, N>, nat>,
    r: Rule<D, N, W>)
    requires Consistent(sys, nested, rank, names, summaries, c, pending, age)
    requires WellFormedRule(sys.empties, r) && RuleIn(names, r)
    ensures var sys' := sys.(rules := sys.rules + {r});
      && Consistent(sys', nested, rank, names, summaries, c.(rules := c.rules + {r}), pending, age)
      && ListenerOk(sys', c.weights, ListenerFor(r)) && Sink in c.automata
  {
    var sys' := sys.(rules := sys.rules + {r});
    assert SystemIn(names, sys') by {
      forall r' <- sys'.rules ensures RuleIn(names, r') {
        assert r' != r ==> RuleIn(names, r');
      }
      forall i <- sys'.inits ensures TransIn(names, i.0) {
        assert TransIn(names, i.0);
      }
    }
    ExtendConsistent(sys, sys', nested, rank, names, names, summaries, c, pending, age);
    SameButInput(sys', nested, c, c.(rules := c.rules + {r}), pending, age);
    if r.Pop? {
      assert r in sys'.rules && PopPosition(sys', c.weights, r, Control(r.s1));
    }
  }

  /** The invariant does not look at the record of the input and of the notifications. */
  lemma SameButInput<D(!new), N(!new), W(!new)>(
    sys: System<D, N, W>, nested: bool, c: Core<D, N, W>, c': Core<D, N, W>, pending: set<Task<D, N, W>>,
    age: map<State<D, N>, nat>)
    requires Inv(sys, nested, c, pending, age) && c' == c.(rules := c'.rules, inits := c'.inits, log := c'.log)
    ensures Inv(sys, nested, c', pending, age)
  {
    forall l', u | u in c'.weights && (Home(nested, u), l') in c'.registered
      ensures DeliveredAt(sys, nested, c', pending, l', u)
    {
      assert DeliveredAt(sys, nested, c, pending, l', u);
    }
  }

  ghost function TransNames<D(!new), N(!new)>(names: Names<D, N>, t: Trans<D, N>): Names<D, N>
    requires InitialTransition(t)
  {
    Names(names.states + {t.start.d}, names.symbols + {t.lbl.n})
  }

  lemma AddInitConsistent<D(!new), N(!new), W(!new)>(
    sys: System<D, N, W>, nested: bool, rank: W -> nat, names: Names<D, N>,
    summaries: set<Trans<D, N>>, c: Core<D, N, W>, pending: set<Task<D, N, W>>, age: map<State<D, N>, nat>,
    t: Trans<D, N>, w: W)
    requires Consistent(sys, nested, rank, names, summaries, c, pending, age) && InitialTransition(t) &&
      TransIn(names, t)
    ensures var sys' := sys.(inits := sys.inits + {(t, w)});
      && Consistent(sys', nested, rank, names, summaries, c.(inits := c.inits + {(t, w)}), pending, age)
      && Derivable(sys', t, w) && Home(nested, t) in c.automata
  {
    var sys' := sys.(inits := sys.inits + {(t, w)});
    assert SystemIn(names, sys') by {
      forall r' <- sys'.rules ensures RuleIn(names, r') {
        assert RuleIn(names, r');
      }
      forall i <- sys'.inits ensures TransIn(names, i.0) {
        assert i != (t, w) ==> TransIn(names, i.0);
      }
    }
    assert WellFormed(sys');
    ExtendConsistent(sys, sys', nested, rank, names, names, summaries, c, pending, age);
    SameButInput(sys', nested, c, c.(inits := c.inits + {(t, w)}), pending, age);
    var d: Deriv<D, N, W> := Init(t, w);
    assert Valid(sys', d) && Concl(d) == t && Value(sys.sr, d) == w;
  }

  /** More names may be mentioned from now on. */
  lemma ReserveConsistent<D(!new), N(!new), W(!new)>(
    sys: System<D, N, W>, nested: bool, rank: W -> nat, names: Names<D, N>, names': Names<D, N>,
    summaries: set<Trans<D, N>>, c: Core<D, N, W>, pending: set<Task<D, N, W>>, age: map<State<D, N>, nat>)
    requires Consistent(sys, nested, rank, names, summaries, c, pending, age) && NamesExtend(names, names')
    ensures Consistent(sys, nested, rank, names', summaries, c, pending, age)
  {
    assert SystemIn(names', sys) by {
      forall r <- sys.rules ensures RuleIn(names', r) { assert RuleIn(names, r); }
      forall i <- sys.inits ensures TransIn(names', i.0) { assert TransIn(names, i.0); }
    }
    ExtendConsistent(sys, sys, nested, rank, names, names', summaries, c, pending, age);
  }
}
