/** The state of the incremental forward search as values: what holds of it between
    any two of its updates, and what each update adds to the work still owed. */
module ForwardSteps {
  import opened PAutomata
  import opened TransitiveClosure

  type Pair<D, N> = (State<D, N>, State<D, N>)

  /** Work that a call under way has still to do. */
  datatype Task<D, N> =
    | TellOf(from: State<D, N>, id: nat, t: Trans<D, N>)
    | RegisterOf(at: State<D, N>, from: State<D, N>, id: nat)
    | InverseOf(x: State<D, N>, y: State<D, N>)
    | CountOf(x: State<D, N>, y: State<D, N>)
    | InsertOf(x: State<D, N>, y: State<D, N>)
    | PairOf(x: State<D, N>, y: State<D, N>)
    | StepOf(x: State<D, N>, y: State<D, N>, z: State<D, N>)

  /** edges are the transitions to follow, counted the keys of refCount; closures
      are the listeners (at, from, id) that the automaton holds, and told their calls
      of reachable so far. */
  datatype Search<!D(==), !N(==)> = Search(
    transitions: set<Trans<D, N>>,
    edges: set<Pair<D, N>>,
    listeners: set<(State<D, N>, nat)>,
    adjacent: set<Pair<D, N>>,
    reaches: set<Pair<D, N>>,
    inverse: set<Pair<D, N>>,
    counted: set<Pair<D, N>>,
    closures: set<(State<D, N>, State<D, N>, nat)>,
    told: seq<(State<D, N>, nat, Trans<D, N>)>)

  // ---------------------------------------------------------------- the invariant

  /** The relations follow one another, and hold connected pairs only. */
  ghost predicate Linked<D(!new), N(!new)>(s: Search<D, N>, owed: set<Task<D, N>>) {
    && (forall x, y :: (y, x) in s.reaches ==> Connects(s.edges, x, y))
    && (forall x, y :: (y, x) in s.reaches ==> (x, y) in s.inverse || InverseOf(x, y) in owed)
    && (forall x, y :: (y, x) in s.reaches ==> (x, y) in s.counted || CountOf(x, y) in owed)
    && (forall x, y :: (x, y) in s.counted ==> (y, x) in s.reaches)
    && (forall x, y :: (x, y) in s.inverse ==>
          (y, x) in s.reaches || (x == y && exists t <- s.transitions :: t.start == x))
  }

  /** Every transition has been entered. */
  ghost predicate Entered<D(!new), N(!new)>(s: Search<D, N>, owed: set<Task<D, N>>) {
    && (forall t <- s.transitions :: (t.start, t.start) in s.inverse || InverseOf(t.start, t.start) in owed)
    && (forall x, y :: (x, y) in s.edges ==> (x, y) in s.adjacent || InsertOf(x, y) in owed)
    && (forall x, y :: (x, y) in s.adjacent ==> (x, y) in s.edges && (x, y) in s.counted)
  }

  /** Every pair has been continued by every edge. */
  ghost predicate Continued<D(!new), N(!new)>(s: Search<D, N>, owed: set<Task<D, N>>) {
    forall x, y, z :: (x, y) in s.counted && (y, z) in s.adjacent ==>
      (x, z) in s.counted || PairOf(x, y) in owed || StepOf(x, y, z) in owed
  }

  /** Every listener has its closures. */
  ghost predicate Registered<D(!new), N(!new)>(s: Search<D, N>, owed: set<Task<D, N>>) {
    && (forall from, at, id :: (from, at) in s.inverse && (from, id) in s.listeners ==>
          (at, from, id) in s.closures || RegisterOf(at, from, id) in owed)
    && (forall from, at, id :: (at, from, id) in s.closures ==> (from, at) in s.inverse && (from, id) in s.listeners)
  }

  /** Every closure has been told the transitions at its state. */
  ghost predicate Told<D(!new), N(!new)>(s: Search<D, N>, owed: set<Task<D, N>>) {
    && (forall from, id, t :: t in s.transitions && (t.start, from, id) in s.closures ==>
          (from, id, t) in s.told || TellOf(from, id, t) in owed)
    && (forall from, id, t :: (from, id, t) in s.told ==> t in s.transitions && (t.start, from, id) in s.closures)
  }

  ghost predicate Consistent<D(!new), N(!new)>(s: Search<D, N>, owed: set<Task<D, N>>) {
    Linked(s, owed) && Entered(s, owed) && Continued(s, owed) && Registered(s, owed) && Told(s, owed)
  }

  ghost predicate Grows<D(!new), N(!new)>(s: Search<D, N>, s': Search<D, N>) {
    && s.transitions <= s'.transitions && s.edges <= s'.edges && s.listeners <= s'.listeners
    && s.adjacent <= s'.adjacent && s.reaches <= s'.reaches && s.inverse <= s'.inverse && s.counted <= s'.counted
    && s.closures <= s'.closures && s.told <= s'.told
  }

  lemma GrowsTransitive<D(!new), N(!new)>(s0: Search<D, N>, s1: Search<D, N>, s2: Search<D, N>)
    requires Grows(s0, s1) && Grows(s1, s2)
    ensures Grows(s0, s2)
  {
  }

  // ---------------------------------------------------------------- the updates

  ghost function Tells<D(!new), N(!new)>(s: Search<D, N>, t: Trans<D, N>): set<Task<D, N>> {
    set c <- s.closures | c.0 == t.start :: TellOf(c.1, c.2, t)
  }

  ghost function Inserts<D(!new), N(!new)>(t: Trans<D, N>, follow: bool): set<Task<D, N>> {
    {InverseOf(t.start, t.start)} + if follow then {InsertOf(t.start, t.target)} else {}
  }

  /** A transition is stored. */
  lemma TransitionStep<D(!new), N(!new)>(s: Search<D, N>, owed: set<Task<D, N>>, t: Trans<D, N>, follow: bool)
    requires Consistent(s, owed)
    ensures Consistent(
        s.(transitions := s.transitions + {t}, edges := s.edges + if follow then {(t.start, t.target)} else {}),
        owed + Tells(s, t) + Inserts(t, follow))
  {
    var s' := s.(transitions := s.transitions + {t}, edges := s.edges + if follow then {(t.start, t.target)} else {});
    var owed' := owed + Tells(s, t) + Inserts(t, follow);
    assert Linked(s', owed') by {
      forall x, y | (y, x) in s.reaches ensures Connects(s'.edges, x, y) {
        ConnectsMonotone(s.edges, s'.edges, x, y);
      }
    }
    assert Told(s', owed') by {
      forall from, id, u | u in s'.transitions && (u.start, from, id) in s'.closures
        ensures (from, id, u) in s'.told || TellOf(from, id, u) in owed'
      {
        assert u == t ==> (t.start, from, id) in s.closures && TellOf(from, id, t) in Tells(s, t);
      }
    }
    hide Linked, Told, Connects;
  }

  /** reaches gains a pair. */
  lemma ReachStep<D(!new), N(!new)>(s: Search<D, N>, owed: set<Task<D, N>>, x: State<D, N>, y: State<D, N>)
    requires Consistent(s, owed) && Connects(s.edges, x, y)
    ensures Consistent(s.(reaches := s.reaches + {(y, x)}), owed + {InverseOf(x, y), CountOf(x, y)})
  {
    hide Connects;
  }

  ghost function Registrations<D(!new), N(!new)>(s: Search<D, N>, x: State<D, N>, y: State<D, N>): set<Task<D, N>> {
    set l <- s.listeners | l.0 == x :: RegisterOf(y, x, l.1)
  }

  /** inverseReaches gains a pair. */
  lemma InverseStep<D(!new), N(!new)>(s: Search<D, N>, owed: set<Task<D, N>>, x: State<D, N>, y: State<D, N>)
    requires Consistent(s, owed) && ((y, x) in s.reaches || (x == y && exists t <- s.transitions :: t.start == x))
    ensures Consistent(s.(inverse := s.inverse + {(x, y)}), owed + Registrations(s, x, y))
  {
    hide Connects;
    var s', owed' := s.(inverse := s.inverse + {(x, y)}), owed + Registrations(s, x, y);
    assert Registered(s', owed') by {
      forall from, at, id | (from, at) in s'.inverse && (from, id) in s'.listeners
        ensures (at, from, id) in s'.closures || RegisterOf(at, from, id) in owed'
      {
        assert (from, id) in s.listeners && ((from, at) == (x, y) ==> RegisterOf(at, from, id) in owed');
      }
    }
    hide Registered;
  }

  ghost function Closures<D(!new), N(!new)>(s: Search<D, N>, from: State<D, N>, id: nat): set<Task<D, N>> {
    set p <- s.inverse | p.0 == from :: RegisterOf(p.1, from, id)
  }

  /** A listener is registered. */
  lemma ListenerStep<D(!new), N(!new)>(s: Search<D, N>, owed: set<Task<D, N>>, from: State<D, N>, id: nat)
    requires Consistent(s, owed)
    ensures Consistent(s.(listeners := s.listeners + {(from, id)}), owed + Closures(s, from, id))
  {
    hide Linked, Entered, Continued, Told;
    LinkedOnly(s, s.(listeners := s.listeners + {(from, id)}), owed, owed + Closures(s, from, id));
    var s', owed' := s.(listeners := s.listeners + {(from, id)}), owed + Closures(s, from, id);
    forall f, at, i | (f, at) in s'.inverse && (f, i) in s'.listeners
      ensures (at, f, i) in s'.closures || RegisterOf(at, f, i) in owed'
    {
      assert (f, at) in s.inverse && ((f, i) == (from, id) ==> RegisterOf(at, f, i) in Closures(s, from, id));
    }
  }

  /** What does not depend on listeners, closures and calls. */
  lemma LinkedOnly<D(!new), N(!new)>(
    s: Search<D, N>, s': Search<D, N>, owed: set<Task<D, N>>, owed': set<Task<D, N>>)
    requires Consistent(s, owed) && owed <= owed'
    requires s' == s.(listeners := s'.listeners, closures := s'.closures, told := s'.told)
    ensures Linked(s', owed') && Entered(s', owed') && Continued(s', owed')
    ensures s'.closures == s.closures && s'.told == s.told ==> Told(s', owed')
  {
    hide Connects;
  }

  ghost function TellsAt<D(!new), N(!new)>(
    s: Search<D, N>, at: State<D, N>, from: State<D, N>, id: nat): set<Task<D, N>>
  {
    set t <- s.transitions | t.start == at :: TellOf(from, id, t)
  }

  /** A closure is registered with the automaton. */
  lemma ClosureStep<D(!new), N(!new)>(
    s: Search<D, N>, owed: set<Task<D, N>>, at: State<D, N>, from: State<D, N>, id: nat)
    requires Consistent(s, owed) && (from, at) in s.inverse && (from, id) in s.listeners
    ensures Consistent(s.(closures := s.closures + {(at, from, id)}), owed + TellsAt(s, at, from, id))
  {
    hide Linked, Entered, Continued;
    var s', owed' := s.(closures := s.closures + {(at, from, id)}), owed + TellsAt(s, at, from, id);
    LinkedOnly(s, s', owed, owed');
    forall f, i, t | t in s'.transitions && (t.start, f, i) in s'.closures
      ensures (f, i, t) in s'.told || TellOf(f, i, t) in owed'
    {
      assert t in s.transitions && ((t.start, f, i) == (at, from, id) ==> TellOf(f, i, t) in TellsAt(s, at, from, id));
    }
  }

  /** reachable(t) is called. */
  lemma TellStep<D(!new), N(!new)>(s: Search<D, N>, owed: set<Task<D, N>>, from: State<D, N>, id: nat, t: Trans<D, N>)
    requires Consistent(s, owed) && t in s.transitions && (t.start, from, id) in s.closures
    ensures Consistent(s.(told := s.told + [(from, id, t)]), owed)
  {
    hide Linked, Entered, Continued;
    LinkedOnly(s, s.(told := s.told + [(from, id, t)]), owed, owed);
  }

  /** refCount gains a pair, which goes to the worklist. */
  lemma CountStep<D(!new), N(!new)>(s: Search<D, N>, owed: set<Task<D, N>>, x: State<D, N>, y: State<D, N>)
    requires Consistent(s, owed) && (y, x) in s.reaches
    ensures Consistent(s.(counted := s.counted + {(x, y)}), owed + {PairOf(x, y)})
  {
    hide Connects;
  }

  ghost function StepsTo<D(!new), N(!new)>(s: Search<D, N>, a: State<D, N>, b: State<D, N>): set<Task<D, N>> {
    set p <- s.reaches | p.0 == a :: StepOf(p.1, a, b)
  }

  /** makeEdge: whatever leads to a is to be continued by the edge. */
  lemma EdgeStep<D(!new), N(!new)>(s: Search<D, N>, owed: set<Task<D, N>>, a: State<D, N>, b: State<D, N>)
    requires Consistent(s, owed) && (a, b) in s.edges && (a, b) in s.counted
    ensures Consistent(s.(adjacent := s.adjacent + {(a, b)}), owed + StepsTo(s, a, b))
  {
    hide Connects;
    var s', owed' := s.(adjacent := s.adjacent + {(a, b)}), owed + StepsTo(s, a, b);
    assert Continued(s', owed') by {
      forall x, y, z | (x, y) in s'.counted && (y, z) in s'.adjacent
        ensures (x, z) in s'.counted || PairOf(x, y) in owed' || StepOf(x, y, z) in owed'
      {
        assert (x, y) in s.counted && (y, x) in s.reaches;
        assert (y, z) == (a, b) ==> (y, x).0 == a && StepOf((y, x).1, a, b) in StepsTo(s, a, b);
      }
    }
    hide Continued;
  }

  ghost function StepsFrom<D(!new), N(!new)>(s: Search<D, N>, x: State<D, N>, y: State<D, N>): set<Task<D, N>> {
    set e <- s.adjacent | e.0 == y :: StepOf(x, y, e.1)
  }

  /** A pair is taken from a worklist, to be continued by the edges there are. */
  lemma PollStep<D(!new), N(!new)>(s: Search<D, N>, owed: set<Task<D, N>>, x: State<D, N>, y: State<D, N>)
    requires Consistent(s, owed)
    ensures Consistent(s, owed - {PairOf(x, y)} + StepsFrom(s, x, y))
  {
    hide Connects;
    var owed' := owed - {PairOf(x, y)} + StepsFrom(s, x, y);
    assert Continued(s, owed') by {
      forall u, v, z | (u, v) in s.counted && (v, z) in s.adjacent
        ensures (u, z) in s.counted || PairOf(u, v) in owed' || StepOf(u, v, z) in owed'
      {
        assert (u, v) == (x, y) ==> StepOf(x, y, (v, z).1) in StepsFrom(s, x, y);
      }
    }
    hide Continued;
  }

  ghost predicate Done<D(!new), N(!new)>(s: Search<D, N>, task: Task<D, N>) {
    match task
    case TellOf(from, id, t) => (from, id, t) in s.told
    case RegisterOf(at, from, id) => (at, from, id) in s.closures
    case InverseOf(x, y) => (x, y) in s.inverse
    case CountOf(x, y) => (x, y) in s.counted
    case InsertOf(x, y) => (x, y) in s.adjacent
    case PairOf(_, _) => false
    case StepOf(x, _, z) => (x, z) in s.counted
  }

  /** Work that is done is owed no more. */
  lemma DropDone<D(!new), N(!new)>(s: Search<D, N>, owed: set<Task<D, N>>, done: set<Task<D, N>>)
    requires Consistent(s, owed) && forall task <- done :: Done(s, task)
    ensures Consistent(s, owed - done)
  {
    hide Connects;
  }

  // ---------------------------------------------------------------- at the end

  /** When nothing is owed, the counted pairs are exactly the connected ones. */
  lemma CountedExact<D(!new), N(!new)>(s: Search<D, N>, x: State<D, N>, y: State<D, N>)
    requires Consistent(s, {})
    ensures s.adjacent == s.edges
    ensures (x, y) in s.counted <==> Connects(s.edges, x, y)
  {
    forall p <- s.edges ensures p in s.adjacent && p in s.counted { assert p == (p.0, p.1); }
    forall p <- s.adjacent ensures p in s.edges { assert p == (p.0, p.1); }
    if Connects(s.edges, x, y) {
      var p :| PathBetween(s.edges, p, x, y);
      ClosedContainsPaths(s.edges, s.counted, p, x, y);
    }
  }

  /** What a listener registered for s is told: the transitions that start in s
      or in a state that s leads to. */
  lemma ToldIffReached<D(!new), N(!new)>(s: Search<D, N>, from: State<D, N>, id: nat, t: Trans<D, N>)
    requires Consistent(s, {}) && (from, id) in s.listeners
    ensures (from, id, t) in s.told <==> t in s.transitions && (t.start == from || Connects(s.edges, from, t.start))
  {
    CountedExact(s, from, t.start);
    hide Connects;
  }
}
