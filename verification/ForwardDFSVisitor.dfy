/** The incremental forward search: it keeps the transitive closure of the
    automaton's edges and tells reachability listeners about every transition
    that is reachable from their state. What a listener does when it is told may add
    transitions and register listeners in the middle of an insertion. */
module ForwardDFS {
  import opened PAutomata
  import opened TransitiveClosure
  import opened ForwardSteps
  import opened Reactions

  /** A call that reachable leads to: a transition's weight changes, or a listener is
      registered. */
  datatype Call<D, N, W> =
    | Add(t: Trans<D, N>, w: W)
    | Register(s: State<D, N>, id: nat)

  /** reachable(t) of the listener id, which is registered for from */
  type Reach<D, N> = (State<D, N>, nat, Trans<D, N>)

  /** What has been called is what is there. */
  ghost predicate Recorded<D(!new), N(!new), W(!new)>(
    called: set<Call<D, N, W>>, weights: set<(Trans<D, N>, W)>, listeners: set<(State<D, N>, nat)>)
  {
    && (forall t, w :: (t, w) in weights <==> Add(t, w) in called)
    && (forall s, id: nat :: (s, id) in listeners <==> Register(s, id) in called)
  }

  lemma RecordedToo<D(!new), N(!new), W(!new)>(
    called: set<Call<D, N, W>>, weights: set<(Trans<D, N>, W)>, listeners: set<(State<D, N>, nat)>, c: Call<D, N, W>)
    requires Recorded(called, weights, listeners)
    ensures c.Add? ==> Recorded(called + {c}, weights + {(c.t, c.w)}, listeners)
    ensures c.Register? ==> Recorded(called + {c}, weights, listeners + {(c.s, c.id)})
  {
  }

  ghost function Pairs<D(!new), N(!new)>(work: seq<Pair<D, N>>): set<Task<D, N>> {
    set p <- work :: PairOf(p.0, p.1)
  }

  class ForwardDFSVisitor<D(==, !new), N(==, !new), W(==, !new)> {
    /** continueWith: every transition, or only those with an Empty label. */
    const emptyOnly: bool
    const empties: set<Label<N>>
    /** The calls that reachable makes, which may depend on its calls so far. */
    const effect: (seq<Reach<D, N>>, Reach<D, N>) -> seq<Call<D, N, W>>

    var listeners: set<(State<D, N>, nat)>
    var adjacent: set<Pair<D, N>>
    var reaches: set<Pair<D, N>>
    var inverseReaches: set<Pair<D, N>>
    var refCount: map<Pair<D, N>, nat>

    /** The automaton's side: its transitions, the weights that each has had, and the
        TransitiveClosure listeners (at, from, id) that it holds. */
    var transitions: set<Trans<D, N>>
    var weights: set<(Trans<D, N>, W)>
    var closures: set<(State<D, N>, State<D, N>, nat)>
    /** The calls of reachable so far. */
    var told: seq<Reach<D, N>>

    ghost const allWeights: set<(Trans<D, N>, W)>
    ghost const allListeners: set<(State<D, N>, nat)>
    ghost var owed: set<Task<D, N>>
    /** The transitions and listeners that were added so far, and those from outside. */
    ghost var called: set<Call<D, N, W>>
    ghost var given: set<Call<D, N, W>>
    /** The calls of reachable that are under way. */
    ghost var busy: set<nat>

    predicate ContinueWith(t: Trans<D, N>) {
      emptyOnly ==> t.lbl in empties
    }

    ghost function Edges(): set<Pair<D, N>>
      reads this
    {
      set t <- transitions | ContinueWith(t) :: (t.start, t.target)
    }

    ghost function Now(): Search<D, N>
      reads this
    {
      Search(transitions, Edges(), listeners, adjacent, reaches, inverseReaches, refCount.Keys, closures, told)
    }

    ghost predicate Known(c: Call<D, N, W>) {
      match c
      case Add(t, w) => (t, w) in allWeights
      case Register(s, id) => (s, id) in allListeners
    }

    ghost predicate EffectKnown() {
      forall done, e :: forall c <- effect(done, e) :: Known(c)
    }

    ghost predicate Bounded()
      reads this
    {
      && weights <= allWeights && listeners <= allListeners && EffectKnown()
      && transitions == set i <- weights :: i.0
    }

    ghost predicate Ok()
      reads this
    {
      && Consistent(Now(), owed) && Bounded()
      && Recorded(called, weights, listeners) && Justified(effect, History())
    }

    /** No call is under way. */
    ghost predicate Quiet()
      reads this
    {
      Ok() && owed == {} && busy == {}
    }

    ghost function History(): Journal<Reach<D, N>, Call<D, N, W>>
      reads this`told, this`called, this`given, this`busy
    {
      Journal(told, called, given, busy)
    }

    ghost predicate Arrived(c: Call<D, N, W>)
      reads this`weights, this`listeners
    {
      match c
      case Add(t, w) => (t, w) in weights
      case Register(s, id) => (s, id) in listeners
    }

    /** Nothing was lost. */
    twostate predicate Grown()
      reads this
    {
      GrownBy({})
    }

    twostate predicate GrownBy(more: set<Call<D, N, W>>)
      reads this
    {
      && Ok() && Grows(old(Now()), Now()) && old(weights) <= weights
      && given == old(given) + more && busy == old(busy)
    }

    /** Nothing was lost, and nothing more is owed than before. */
    twostate predicate Continues()
      reads this
    {
      Grown() && owed <= old(owed)
    }

    ghost function Missing(): nat
      reads this
    {
      |allWeights - weights| + |allListeners - listeners|
    }

    lemma MissingShrinks(s: Search<D, N>, ws: set<(Trans<D, N>, W)>)
      requires Bounded() && Grows(s, Now()) && ws <= weights
      ensures Missing() <= |allWeights - ws| + |allListeners - s.listeners|
      ensures ws != weights || s.listeners != listeners ==> Missing() < |allWeights - ws| + |allListeners - s.listeners|
    {
      SetShrinks(allWeights, ws, weights);
      SetShrinks(allListeners, s.listeners, listeners);
    }

    /** What a call that came in between has kept. */
    lemma Kept(s0: Search<D, N>, s: Search<D, N>)
      requires Grows(s0, s) && Grows(s, Now())
      ensures Grows(s0, Now()) && s0.counted <= s.counted
      ensures s.transitions <= transitions && s.listeners <= listeners && s.adjacent <= adjacent
      ensures s.reaches <= reaches && s.inverse <= inverseReaches && s.counted <= refCount.Keys
      ensures s.closures <= closures && s.told <= told
    {
    }

    constructor (
      emptyOnly: bool, empties: set<Label<N>>,
      effect: (seq<Reach<D, N>>, Reach<D, N>) -> seq<Call<D, N, W>>,
      ghost allWeights: set<(Trans<D, N>, W)>, ghost allListeners: set<(State<D, N>, nat)>)
      requires forall done, e :: forall c <- effect(done, e) ::
        match c case Add(t, w) => (t, w) in allWeights case Register(s, id) => (s, id) in allListeners
      ensures Quiet() && transitions == {} && listeners == {} && given == {}
      ensures this.emptyOnly == emptyOnly && this.empties == empties && this.effect == effect
      ensures this.allWeights == allWeights && this.allListeners == allListeners
    {
      this.emptyOnly, this.empties, this.effect := emptyOnly, empties, effect;
      this.allWeights, this.allListeners := allWeights, allListeners;
      listeners, adjacent, reaches, inverseReaches, refCount := {}, {}, {}, {}, map[];
      transitions, weights, closures, told, owed := {}, {}, {}, [], {};
      called, given, busy := {}, {}, {};
    }

    /** Whenever no call is under way, refCount is the transitive closure of the
        transitions, or of those with an Empty label. */
    lemma ClosureExact(x: State<D, N>, y: State<D, N>)
      requires Quiet()
      ensures var follow := set t <- transitions | !emptyOnly || t.lbl in empties :: (t.start, t.target);
        (x, y) in refCount <==> Connects(follow, x, y)
    {
      CountedExact(Now(), x, y);
      assert Edges() == set t <- transitions | !emptyOnly || t.lbl in empties :: (t.start, t.target);
    }

    /** What a listener registered for s is told: the transitions that start in s
        or in a state that s leads to. */
    lemma ToldExactly(s: State<D, N>, id: nat, t: Trans<D, N>)
      requires Quiet() && (s, id) in listeners
      ensures var follow := set u <- transitions | !emptyOnly || u.lbl in empties :: (u.start, u.target);
        (s, id, t) in told <==> t in transitions && (t.start == s || Connects(follow, s, t.start))
    {
      ToldIffReached(Now(), s, id, t);
      assert Edges() == set u <- transitions | !emptyOnly || u.lbl in empties :: (u.start, u.target);
    }

    /** Whatever is there came from outside or from a call of reachable, and whatever
        these lead to is there. */
    lemma ArrivedExactly(c: Call<D, N, W>)
      requires Quiet()
      ensures Arrived(c) <==> c in given || CalledBack(effect, told, c)
    {
      hide Justified;
      CalledExactly(effect, History(), c);
    }

    // -------------------------------------------------------------- single updates

    /** The call of reachable is under way from now on. */
    method PutTold(from: State<D, N>, id: nat, t: Trans<D, N>)
      requires Ok() && t in transitions && (t.start, from, id) in closures
      modifies this`told, this`busy
      ensures Ok() && Grows(old(Now()), Now()) && told == old(told) + [(from, id, t)]
      ensures busy == old(busy) + {|old(told)|} && |old(told)| !in old(busy)
    {
      hide Consistent, EffectKnown, Recorded, Justified;
      TellStep(Now(), owed, from, id, t);
      Begins(effect, History(), (from, id, t));
      busy := busy + {|told|};
      told := told + [(from, id, t)];
    }

    method PutClosure(at: State<D, N>, from: State<D, N>, id: nat)
      requires Ok() && (from, at) in inverseReaches && (from, id) in listeners
      modifies this`closures, this`owed
      ensures Grown() && closures == old(closures) + {(at, from, id)}
      ensures owed == old(owed) + TellsAt(old(Now()), at, from, id)
    {
      hide Consistent, EffectKnown, Recorded, Justified;
      ClosureStep(Now(), owed, at, from, id);
      owed := owed + TellsAt(Now(), at, from, id);
      closures := closures + {(at, from, id)};
    }

    method PutListener(s: State<D, N>, id: nat, ghost outside: bool)
      requires Ok() && (s, id) in allListeners && (outside || CalledBack(effect, told, Register(s, id)))
      modifies this`listeners, this`owed, this`called, this`given
      ensures GrownBy(From(Register(s, id), outside)) && listeners == old(listeners) + {(s, id)}
      ensures owed == old(owed) + Closures(old(Now()), s, id)
    {
      hide Consistent, EffectKnown, Recorded, Justified;
      RecordedToo(called, weights, listeners, Register(s, id));
      ListenerStep(Now(), owed, s, id);
      owed := owed + Closures(Now(), s, id);
      Receives(effect, History(), Register(s, id), outside);
      called, given := called + {Register(s, id)}, given + From(Register(s, id), outside);
      listeners := listeners + {(s, id)};
    }

    method PutInverse(x: State<D, N>, y: State<D, N>)
      requires Ok() && ((y, x) in reaches || (x == y && exists t <- transitions :: t.start == x))
      modifies this`inverseReaches, this`owed
      ensures Grown() && inverseReaches == old(inverseReaches) + {(x, y)}
      ensures owed == old(owed) + Registrations(old(Now()), x, y)
    {
      hide Consistent, EffectKnown, Recorded, Justified;
      InverseStep(Now(), owed, x, y);
      owed := owed + Registrations(Now(), x, y);
      inverseReaches := inverseReaches + {(x, y)};
    }

    method PutReach(x: State<D, N>, y: State<D, N>)
      requires Ok() && Connects(Edges(), x, y)
      modifies this`reaches, this`owed
      ensures Grown() && reaches == old(reaches) + {(y, x)} && owed == old(owed) + {InverseOf(x, y), CountOf(x, y)}
    {
      hide Consistent, EffectKnown, Connects, Recorded, Justified;
      ReachStep(Now(), owed, x, y);
      owed := owed + {InverseOf(x, y), CountOf(x, y)};
      reaches := reaches + {(y, x)};
    }

    method PutCount(x: State<D, N>, y: State<D, N>)
      requires Ok() && (y, x) in reaches
      modifies this`refCount, this`owed
      ensures Grown() && refCount.Keys == old(refCount).Keys + {(x, y)} && owed == old(owed) + {PairOf(x, y)}
    {
      hide Consistent, EffectKnown, Recorded, Justified;
      CountStep(Now(), owed, x, y);
      owed := owed + {PairOf(x, y)};
      refCount := refCount[(x, y) := 1];
      assert refCount.Keys == old(refCount).Keys + {(x, y)};
    }

    /** makeEdge */
    method PutEdge(a: State<D, N>, b: State<D, N>)
      requires Ok() && (a, b) in Edges() && (a, b) in refCount
      modifies this`adjacent, this`owed
      ensures Grown() && adjacent == old(adjacent) + {(a, b)} && owed == old(owed) + StepsTo(old(Now()), a, b)
    {
      hide Consistent, EffectKnown, Recorded, Justified;
      EdgeStep(Now(), owed, a, b);
      owed := owed + StepsTo(Now(), a, b);
      adjacent := adjacent + {(a, b)};
    }

    method PutWeight(t: Trans<D, N>, w: W, ghost outside: bool)
      requires Ok() && (t, w) in allWeights && (outside || CalledBack(effect, told, Add(t, w)))
      modifies this`transitions, this`weights, this`owed, this`called, this`given
      ensures GrownBy(From(Add(t, w), outside)) && transitions == old(transitions) + {t}
      ensures weights == old(weights) + {(t, w)}
      ensures owed == old(owed) + Tells(old(Now()), t) + Inserts(t, ContinueWith(t))
    {
      hide Consistent, EffectKnown, Recorded, Justified, Tells, Inserts, Grows, ContinueWith;
      RecordedToo(called, weights, listeners, Add(t, w));
      TransitionStep(Now(), owed, t, ContinueWith(t));
      owed := owed + Tells(Now(), t) + Inserts(t, ContinueWith(t));
      Receives(effect, History(), Add(t, w), outside);
      called, given := called + {Add(t, w)}, given + From(Add(t, w), outside);
      EdgesPlus(t);
      StoredPlus(t, w);
      transitions := transitions + {t};
      weights := weights + {(t, w)};
      GrowsByTransition(old(Now()), Now());
    }

    lemma GrowsByTransition(s: Search<D, N>, s': Search<D, N>)
      requires s.transitions <= s'.transitions && s.edges <= s'.edges
      requires s' == s.(transitions := s'.transitions, edges := s'.edges)
      ensures Grows(s, s')
    {
    }

    lemma StoredPlus(t: Trans<D, N>, w: W)
      requires Bounded()
      ensures (set i <- weights + {(t, w)} :: i.0) == transitions + {t}
    {
    }

    lemma EdgesPlus(t: Trans<D, N>)
      ensures (set u <- transitions + {t} | ContinueWith(u) :: (u.start, u.target)) ==
        Edges() + if ContinueWith(t) then {(t.start, t.target)} else {}
    {
    }

    /** One more call came from outside that changes nothing. */
    ghost method PutGiven(c: Call<D, N, W>, outside: bool)
      requires Ok() && Arrived(c) && (outside || CalledBack(effect, told, c))
      modifies this`given
      ensures GrownBy(From(c, outside)) && owed == old(owed)
    {
      hide Consistent, EffectKnown, Justified;
      Receives(effect, History(), c, outside);
      assert called + {c} == called;
      given := given + From(c, outside);
    }

    ghost method Pay(done: set<Task<D, N>>)
      requires Ok() && forall task <- done :: Done(Now(), task)
      modifies this`owed
      ensures Ok() && owed == old(owed) - done
    {
      DropDone(Now(), owed, done);
      owed := owed - done;
    }

    // -------------------------------------------------------------- telling

    /** reachable(t) of listener id, which is registered for from */
    method Tell(from: State<D, N>, id: nat, t: Trans<D, N>)
      requires Ok() && t in transitions && (t.start, from, id) in closures
      modifies this
      ensures Continues() && (from, id, t) in told
      ensures forall c <- effect(old(told), (from, id, t)) :: Arrived(c)
      decreases Missing(), 1
    {
      hide Consistent, EffectKnown, Grows, Bounded, Recorded, Justified, LeadsTo;
      var calls := effect(told, (from, id, t));
      EffectOf((from, id, t));
      ghost var k, log := |told|, told + [(from, id, t)];
      PutTold(from, id, t);
      for i := 0 to |calls|
        invariant Ok() && Grows(old(Now()), Now()) && old(weights) <= weights && owed <= old(owed)
        invariant given == old(given) && busy == old(busy) + {k} && log <= told
        invariant forall c <- calls[..i] :: Arrived(c)
      {
        MissingShrinks(old(Now()), old(weights));
        assert calls[i] in calls && calls[..i + 1] == calls[..i] + [calls[i]];
        assert log[..|log| - 1] == old(told);
        CalledBackBy(effect, log, told, calls[i]);
        label before:
        match calls[i] {
          case Add(u, w) => AddWeightForTransition(u, w, false);
          case Register(s, j) => RegisterListener(s, j, false);
        }
        Kept(old(Now()), old@before(Now()));
      }
      assert calls[..|calls|] == calls && told[k] == log[k];
      Finish(log, old(busy));
    }

    lemma CalledIfArrived(c: Call<D, N, W>)
      requires Recorded(called, weights, listeners) && Arrived(c)
      ensures c in called
    {
    }

    /** The last call of reachable in log has done all that it leads to. */
    ghost method Finish(log: seq<Reach<D, N>>, before: set<nat>)
      requires Ok() && log != [] && log <= told && busy == before + {|log| - 1}
      requires forall c <- effect(log[..|log| - 1], log[|log| - 1]) :: Arrived(c)
      modifies this`busy
      ensures Ok() && busy == before
    {
      hide Consistent, EffectKnown, Justified;
      forall c | Arrived(c) ensures c in called { CalledIfArrived(c); }
      Finishes(effect, History(), log, before);
      busy := before;
    }

    lemma EffectOf(e: Reach<D, N>)
      requires Bounded()
      ensures forall c <- effect(told, e) :: Known(c)
    {
    }

    /** registerListener of a TransitiveClosure, which is told all transitions at its state */
    method RegisterClosure(at: State<D, N>, from: State<D, N>, id: nat)
      requires Ok() && (from, at) in inverseReaches && (from, id) in listeners
      modifies this
      ensures Continues() && (at, from, id) in closures
      decreases Missing(), 2
    {
      hide Consistent, EffectKnown, Grows, Bounded, Recorded, Justified;
      Reflexive();
      if (at, from, id) in closures {
        return;
      }
      ghost var tells := TellsAt(Now(), at, from, id);
      PutClosure(at, from, id);
      var all := set t <- transitions | t.start == at;
      var rest := all;
      while rest != {}
        invariant Grown() && owed <= old(owed) + tells
        invariant rest <= all <= transitions && (at, from, id) in closures
        invariant forall t <- all - rest :: (from, id, t) in told
        decreases rest
      {
        var t :| t in rest;
        rest := rest - {t};
        MissingShrinks(old(Now()), old(weights));
        label before:
        Tell(from, id, t);
        Kept(old(Now()), old@before(Now()));
      }
      Pay(tells);
    }

    lemma Reflexive()
      ensures Grows(Now(), Now())
    {
    }

    method RegisterListener(s: State<D, N>, id: nat, ghost outside: bool := true)
      requires Ok() && (s, id) in allListeners && (outside || CalledBack(effect, told, Register(s, id)))
      modifies this
      ensures GrownBy(From(Register(s, id), outside)) && owed <= old(owed) && (s, id) in listeners
      decreases Missing(), 0
    {
      hide Consistent, EffectKnown, Grows, Bounded, Recorded, Justified;
      Reflexive();
      if (s, id) in listeners {
        PutGiven(Register(s, id), outside);
        return;
      }
      ghost var registrations := Closures(Now(), s, id);
      PutListener(s, id, outside);
      var all := set p <- inverseReaches | p.0 == s :: p.1;
      var rest := all;
      while rest != {}
        invariant GrownBy(From(Register(s, id), outside)) && owed <= old(owed) + registrations
        invariant rest <= all && (s, id) in listeners
        invariant forall at <- all :: (s, at) in inverseReaches
        invariant forall at <- all - rest :: (at, s, id) in closures
        decreases rest
      {
        var at :| at in rest;
        rest := rest - {at};
        MissingShrinks(old(Now()), old(weights));
        label before:
        RegisterClosure(at, s, id);
        Kept(old(Now()), old@before(Now()));
      }
      Pay(registrations);
    }

    // -------------------------------------------------------------- new edges

    /** inverseReaches(from, to) */
    method AddInverse(from: State<D, N>, to: State<D, N>)
      requires Ok() && ((to, from) in reaches || (from == to && exists t <- transitions :: t.start == from))
      modifies this
      ensures Continues() && (from, to) in inverseReaches
      decreases Missing(), 3
    {
      hide Consistent, EffectKnown, Grows, Bounded, Recorded, Justified;
      Reflexive();
      if (from, to) in inverseReaches {
        return;
      }
      ghost var registrations := Registrations(Now(), from, to);
      PutInverse(from, to);
      var all := set p <- listeners | p.0 == from :: p.1;
      var rest := all;
      while rest != {}
        invariant Grown() && owed <= old(owed) + registrations
        invariant rest <= all && (from, to) in inverseReaches
        invariant forall id <- all :: (from, id) in listeners
        invariant forall id <- all - rest :: (to, from, id) in closures
        decreases rest
      {
        var id :| id in rest;
        rest := rest - {id};
        MissingShrinks(old(Now()), old(weights));
        label before:
        RegisterClosure(to, from, id);
        Kept(old(Now()), old@before(Now()));
      }
      Pay(registrations);
    }

    /** makeClosure(from, to) followed by the store to refCount; the pair goes to the
        worklist of the caller. */
    method Connect(from: State<D, N>, to: State<D, N>)
      requires Ok() && Connects(Edges(), from, to)
      modifies this
      ensures Grown() && owed <= old(owed) + {PairOf(from, to)} && (from, to) in refCount
      decreases Missing(), 4
    {
      hide Consistent, EffectKnown, Grows, Bounded, Recorded, Justified, Connects;
      Reflexive();
      if (to, from) in reaches {
        PutCount(from, to);
        return;
      }
      PutReach(from, to);
      MissingShrinks(old(Now()), old(weights));
      label put:
      AddInverse(from, to);
      Kept(old(Now()), old@put(Now()));
      label inverse:
      PutCount(from, to);
      Kept(old(Now()), old@inverse(Now()));
      assert Done(Now(), InverseOf(from, to)) && Done(Now(), CountOf(from, to));
      Pay({InverseOf(from, to), CountOf(from, to)});
    }

    method InsertEdge(a: State<D, N>, b: State<D, N>)
      requires Ok() && (a, b) in Edges()
      modifies this
      ensures Continues() && (a, b) in adjacent
      decreases Missing(), 7
    {
      hide Consistent, EffectKnown, Grows, Bounded, Recorded, Justified, Connects, StepsTo;
      var worklist := EnsureCounted(a, b);
      label counted:
      ghost var steps := StepsTo(Now(), a, b);
      PutEdge(a, b);
      Kept(old(Now()), old@counted(Now()));
      Counted(a, b);
      MissingShrinks(old(Now()), old(weights));
      label put:
      AddInverse(a, b);
      Kept(old(Now()), old@put(Now()));
      MissingShrinks(old(Now()), old(weights));
      MoreSteps(old@counted(Now()), a, b);
      label entered:
      worklist := AddPredecessors(a, b, worklist, steps, old(owed));
      Kept(old(Now()), old@entered(Now()));
      MissingShrinks(old(Now()), old(weights));
      label open:
      Close(worklist, old(owed));
      Kept(old(Now()), old@open(Now()));
    }

    lemma MoreSteps(s: Search<D, N>, a: State<D, N>, b: State<D, N>)
      requires s.reaches <= reaches
      ensures StepsTo(s, a, b) <= StepsTo(Now(), a, b)
    {
    }

    /** The first part of insertEdge. */
    method EnsureCounted(a: State<D, N>, b: State<D, N>) returns (worklist: seq<Pair<D, N>>)
      requires Ok() && (a, b) in Edges()
      modifies this
      ensures Grown() && owed <= old(owed) + Pairs(worklist) && (a, b) in refCount && (a, b) in Edges()
      ensures forall p <- worklist :: p in refCount
      decreases Missing(), 5
    {
      hide Consistent, EffectKnown, Bounded, Connects;
      worklist := [];
      if (a, b) !in refCount {
        EdgeConnects(Edges(), a, b);
        Connect(a, b);
        worklist := [(a, b)];
      }
    }

    lemma Continuing(x: State<D, N>, y: State<D, N>, z: State<D, N>)
      requires Ok() && (y, x) in reaches && (y, z) in adjacent
      ensures Connects(Edges(), x, z)
    {
      EdgeConnects(Edges(), y, z);
      ConnectsTransitive(Edges(), x, y, z);
    }

    lemma Counted(x: State<D, N>, y: State<D, N>)
      requires Ok() && (x, y) in refCount
      ensures (y, x) in reaches
    {
    }

    /** The loop over reaches.get(a): whatever leads to a now leads to b. */
    method AddPredecessors(
      a: State<D, N>, b: State<D, N>, worklist: seq<Pair<D, N>>, ghost steps: set<Task<D, N>>,
      ghost due: set<Task<D, N>>)
      returns (worklist': seq<Pair<D, N>>)
      requires Ok() && (a, b) in adjacent && steps <= StepsTo(Now(), a, b)
      requires owed <= due + Pairs(worklist) + steps && forall p <- worklist :: p in refCount
      modifies this
      ensures Grown() && owed <= due + Pairs(worklist') && forall p <- worklist' :: p in refCount
      ensures forall x :: (a, x) in old(reaches) ==> (x, b) in refCount
      decreases Missing(), 5
    {
      hide Consistent, EffectKnown, Grows, Bounded, Recorded, Justified, Connects, Pairs;
      Reflexive();
      worklist' := worklist;
      var all := set p <- reaches | p.0 == a :: p.1;
      var rest := all;
      while rest != {}
        invariant Grown() && owed <= due + Pairs(worklist') + steps && rest <= all && (a, b) in adjacent
        invariant forall p <- worklist' :: p in refCount
        invariant forall x <- all :: (a, x) in reaches
        invariant forall x <- all - rest :: (x, b) in refCount
        decreases rest
      {
        var x :| x in rest;
        rest := rest - {x};
        if (x, b) !in refCount {
          Continuing(x, a, b);
          MissingShrinks(old(Now()), old(weights));
          label before:
          Connect(x, b);
          Kept(old(Now()), old@before(Now()));
          PairsMore(worklist', (x, b));
          worklist' := worklist' + [(x, b)];
        }
      }
      assert forall x :: (a, x) in old(reaches) ==> (a, x).1 in all;
      Pay(steps);
    }

    ghost function Candidates(): set<Pair<D, N>>
      reads this
    {
      set x <- Ends(Edges()), y <- Ends(Edges()) :: (x, y)
    }

    lemma CandidatesBound()
      requires Ok()
      ensures refCount.Keys <= Candidates()
    {
      forall p <- refCount.Keys ensures p in Candidates() {
        assert p == (p.0, p.1);
        ConnectsWithin(Edges(), p.0, p.1);
      }
    }

    twostate lemma SameCandidates()
      requires old(Bounded()) && Bounded()
      ensures weights == old(weights) ==> Candidates() == old(Candidates())
    {
    }

    /** The worklist loop. */
    method Close(worklist: seq<Pair<D, N>>, ghost due: set<Task<D, N>>)
      requires Ok() && owed <= due + Pairs(worklist) && forall p <- worklist :: p in refCount
      modifies this
      ensures Grown() && owed <= due
      decreases Missing(), 6
    {
      hide Consistent, EffectKnown, Grows, Bounded, Recorded, Justified, Connects, Candidates;
      Reflexive();
      var work := worklist;
      while work != []
        invariant Grown() && owed <= due + Pairs(work) && forall p <- work :: p in refCount
        decreases Missing(), Candidates() - refCount.Keys, |work|
      {
        var e := work[0];
        assert work == [e] + work[1..];
        MissingShrinks(old(Now()), old(weights));
        label before:
        work := AddSuccessors(e.0, e.1, work[1..], due);
        Kept(old(Now()), old@before(Now()));
        MissingShrinks(old@before(Now()), old@before(weights));
        SameCandidates@before();
        CandidatesBound();
      }
    }

    /** The loop over adjacent.get(y). */
    method AddSuccessors(x: State<D, N>, y: State<D, N>, work: seq<Pair<D, N>>, ghost due: set<Task<D, N>>)
      returns (work': seq<Pair<D, N>>)
      requires Ok() && (x, y) in refCount && forall p <- work :: p in refCount
      requires owed <= due + Pairs([(x, y)] + work)
      modifies this
      ensures Grown() && owed <= due + Pairs(work') && forall p <- work' :: p in refCount
      ensures refCount.Keys == old(refCount).Keys ==> work' == work
      decreases Missing(), 5
    {
      hide Consistent, EffectKnown, Grows, Bounded, Recorded, Justified, Connects, Pairs;
      Counted(x, y);
      ghost var steps := Poll(x, y, work, due);
      work' := work;
      var all := set p <- adjacent | p.0 == y :: p.1;
      var rest := all;
      while rest != {}
        invariant Grown() && owed <= due + Pairs(work') + steps && rest <= all && (y, x) in reaches
        invariant forall p <- work' :: p in refCount
        invariant refCount.Keys == old(refCount).Keys ==> work' == work
        invariant forall z <- all :: (y, z) in adjacent
        invariant forall z <- all - rest :: (x, z) in refCount
        decreases rest
      {
        var z :| z in rest;
        rest := rest - {z};
        if (x, z) !in refCount {
          Continuing(x, y, z);
          MissingShrinks(old(Now()), old(weights));
          label before:
          Connect(x, z);
          Kept(old(Now()), old@before(Now()));
          assert (x, z) !in old(refCount);
          PairsMore(work', (x, z));
          work' := work' + [(x, z)];
        }
      }
      Pay(steps);
    }

    lemma PairsMore(work: seq<Pair<D, N>>, p: Pair<D, N>)
      ensures Pairs(work + [p]) == Pairs(work) + {PairOf(p.0, p.1)}
    {
    }

    ghost method Poll(x: State<D, N>, y: State<D, N>, work: seq<Pair<D, N>>, due: set<Task<D, N>>)
      returns (steps: set<Task<D, N>>)
      requires Ok() && owed <= due + Pairs([(x, y)] + work)
      modifies this`owed
      ensures Grown() && steps == StepsFrom(Now(), x, y) && owed <= due + Pairs(work) + steps
    {
      hide Consistent, EffectKnown;
      steps := StepsFrom(Now(), x, y);
      PollStep(Now(), owed, x, y);
      owed := owed - {PairOf(x, y)} + steps;
    }

    // -------------------------------------------------------------- notifications

    /** onWeightAdded of the visitor */
    method OnWeightAdded(t: Trans<D, N>)
      requires Ok() && t in transitions
      modifies this
      ensures Continues() && (t.start, t.start) in inverseReaches
      ensures ContinueWith(t) ==> (t.start, t.target) in adjacent
      decreases Missing(), 8
    {
      hide Consistent, EffectKnown, Grows, Bounded, Recorded, Justified;
      AddInverse(t.start, t.start);
      if ContinueWith(t) {
        MissingShrinks(old(Now()), old(weights));
        label before:
        Followed(old(Now()), t);
        InsertEdge(t.start, t.target);
        Kept(old(Now()), old@before(Now()));
      }
    }

    lemma Followed(s: Search<D, N>, t: Trans<D, N>)
      requires Grows(s, Now()) && t in s.transitions && ContinueWith(t)
      ensures (t.start, t.target) in Edges()
    {
    }

    /** The weight of t changes to w: the automaton stores it and tells the visitor,
        then the closures at the start of t. */
    method AddWeightForTransition(t: Trans<D, N>, w: W, ghost outside: bool := true)
      requires Ok() && (t, w) in allWeights && (outside || CalledBack(effect, told, Add(t, w)))
      modifies this
      ensures GrownBy(From(Add(t, w), outside)) && owed <= old(owed) && (t, w) in weights
      decreases Missing(), 0
    {
      hide Consistent, EffectKnown, Grows, Bounded, Recorded, Justified, Inserts, ContinueWith;
      Reflexive();
      if (t, w) in weights {
        PutGiven(Add(t, w), outside);
        return;
      }
      ghost var tells, inserts := Tells(Now(), t), Inserts(t, ContinueWith(t));
      PutWeight(t, w, outside);
      MissingShrinks(old(Now()), old(weights));
      label put:
      OnWeightAdded(t);
      Kept(old(Now()), old@put(Now()));
      Inserted(t);
      Pay(inserts);
      MissingShrinks(old(Now()), old(weights));
      label inserted:
      TellAt(t);
      Kept(old(Now()), old@inserted(Now()));
      Pay(tells);
    }

    lemma Inserted(t: Trans<D, N>)
      requires (t.start, t.start) in inverseReaches && (ContinueWith(t) ==> (t.start, t.target) in adjacent)
      ensures forall task <- Inserts(t, ContinueWith(t)) :: Done(Now(), task)
    {
    }

    /** The closures at the start of t are told t. */
    method TellAt(t: Trans<D, N>)
      requires Ok() && t in transitions
      modifies this
      ensures Continues()
      ensures forall from, id :: (t.start, from, id) in old(closures) ==> (from, id, t) in told
      decreases Missing(), 2
    {
      hide Consistent, EffectKnown, Grows, Bounded, Recorded, Justified;
      Reflexive();
      var all := set c <- closures | c.0 == t.start;
      var rest := all;
      while rest != {}
        invariant Continues() && rest <= all <= closures && t in transitions
        invariant forall c <- all - rest :: (c.1, c.2, t) in told
        decreases rest
      {
        var c :| c in rest;
        rest := rest - {c};
        MissingShrinks(old(Now()), old(weights));
        assert c == (t.start, c.1, c.2);
        label before:
        Tell(c.1, c.2, t);
        Kept(old(Now()), old@before(Now()));
      }
      forall from, id | (t.start, from, id) in old(closures) ensures (from, id, t) in told {
        assert (t.start, from, id) in all;
      }
    }
  }
}
