/** synchedEmptyStackReachable: reports the nodes at which a reached source node has
    an empty field stack and an empty call stack in the same fact, while the listener
    it reports to may add further candidates. */
module EmptyStackWitnesses {
  import opened PAutomata
  import opened SyncMachine
  import opened Reactions

  /** A transition out of the source node, with the node or fact at its target. */
  datatype Witness<S, F, L> =
    | FieldSide(ft: Trans<Node<S, F>, FieldLabel<L>>, node: Node<S, F>)
    | CallSide(ct: Trans<F, S>, fact: F)

  /** The candidates are those of the calls so far that are not filtered out. */
  ghost predicate CandidatesOf<S(!new), F(!new), L(!new)>(
    called: set<Witness<S, F, L>>, fields: set<Node<S, F>>, calls: set<F>)
  {
    && (forall n :: n in fields <==>
          exists t: Trans<Node<S, F>, FieldLabel<L>> ::
            !t.target.Gen? && t.lbl == Sym(EmptyField) && FieldSide(t, n) in called)
    && (forall f :: f in calls <==> exists t: Trans<F, S> :: !t.target.Gen? && CallSide(t, f) in called)
  }

  lemma OneMoreCall<S(!new), F(!new), L(!new)>(
    called: set<Witness<S, F, L>>, fields: set<Node<S, F>>, calls: set<F>, w: Witness<S, F, L>)
    requires CandidatesOf(called, fields, calls)
    ensures w.FieldSide? && !w.ft.target.Gen? && w.ft.lbl == Sym(EmptyField) ==>
      CandidatesOf(called + {w}, fields + {w.node}, calls)
    ensures w.FieldSide? && (w.ft.target.Gen? || w.ft.lbl != Sym(EmptyField)) ==>
      CandidatesOf(called + {w}, fields, calls)
    ensures w.CallSide? && !w.ct.target.Gen? ==> CandidatesOf(called + {w}, fields, calls + {w.fact})
    ensures w.CallSide? && w.ct.target.Gen? ==> CandidatesOf(called + {w}, fields, calls)
  {
    forall n | n in fields
      ensures exists t: Trans<Node<S, F>, FieldLabel<L>> ::
        !t.target.Gen? && t.lbl == Sym(EmptyField) && FieldSide(t, n) in called + {w}
    {
      var t: Trans<Node<S, F>, FieldLabel<L>> :|
        !t.target.Gen? && t.lbl == Sym(EmptyField) && FieldSide(t, n) in called;
      assert FieldSide(t, n) in called + {w};
    }
    forall f | f in calls ensures exists t: Trans<F, S> :: !t.target.Gen? && CallSide(t, f) in called + {w} {
      var t: Trans<F, S> :| !t.target.Gen? && CallSide(t, f) in called;
      assert CallSide(t, f) in called + {w};
    }
  }

  /** The nodes that are candidates on both sides have been reported, each once, or
      are still to be reported. */
  ghost predicate Matched<S(!new), F(!new)>(
    fields: set<Node<S, F>>, calls: set<F>, found: seq<Node<S, F>>, pending: set<Node<S, F>>)
  {
    && (forall i, j :: 0 <= i < j < |found| ==> found[i] != found[j])
    && (forall n :: n in found ==> n !in pending)
    && (forall n :: n in found || n in pending <==> n in fields && n.fact in calls)
  }

  function OfFact<S(==), F(==)>(fields: set<Node<S, F>>, fact: F): set<Node<S, F>> {
    set n <- fields | n.fact == fact
  }

  lemma FieldArrives<S(!new), F(!new)>(
    fields: set<Node<S, F>>, calls: set<F>, found: seq<Node<S, F>>, pending: set<Node<S, F>>, n: Node<S, F>)
    requires Matched(fields, calls, found, pending) && n !in fields
    ensures Matched(fields + {n}, calls, found, pending + if n.fact in calls then {n} else {})
  {
  }

  lemma CallArrives<S(!new), F(!new)>(
    fields: set<Node<S, F>>, calls: set<F>, found: seq<Node<S, F>>, pending: set<Node<S, F>>, fact: F)
    requires Matched(fields, calls, found, pending) && fact !in calls
    ensures Matched(fields, calls + {fact}, found, pending + OfFact(fields, fact))
    ensures pending * OfFact(fields, fact) == {}
  {
  }

  lemma NodeReported<S(!new), F(!new)>(
    fields: set<Node<S, F>>, calls: set<F>, found: seq<Node<S, F>>, pending: set<Node<S, F>>, n: Node<S, F>)
    requires Matched(fields, calls, found, pending) && n in pending
    ensures Matched(fields, calls, found + [n], pending - {n})
  {
  }

  /** Just the nodes in due are left to report or, after an interruption, more. */
  ghost predicate Left<S(!new), F(!new)>(due: set<Node<S, F>>, pending: set<Node<S, F>>, interrupted: bool) {
    if interrupted then due < pending else due == pending
  }

  lemma OneOf<S(!new), F(!new)>(fields: set<Node<S, F>>, fact: F, rest: set<Node<S, F>>, w: Node<S, F>)
    requires w in rest
    ensures |rest| >= 2 ==> rest - {w} != {}
    ensures rest == OfFact(fields, fact) ==> w.fact == fact
  {
    assert |rest - {w}| == |rest| - 1;
  }

  lemma TakeOne<T>(due: set<T>, rest: set<T>, w: T)
    requires w in rest && due * rest == {}
    ensures due + rest == due + (rest - {w}) + {w} && w !in due && due * (rest - {w}) == {}
  {
    if w in due {
      assert w in due * rest;
    }
  }

  lemma AllLeft<S(!new), F(!new)>(due: set<Node<S, F>>)
    ensures Left(due, due, false)
  {
  }

  /** A loop with rest still to come, after a call for one more node. */
  lemma LoopLeft<S(!new), F(!new)>(
    due: set<Node<S, F>>, rest: set<Node<S, F>>, w: Node<S, F>, pending: set<Node<S, F>>, interrupted: bool)
    requires w !in due && w !in rest && due * rest == {}
    requires Left(due + rest + {w} - {w}, pending, interrupted)
    ensures interrupted || rest != {} ==> Left(due, pending, true)
    ensures !interrupted ==> pending == due + rest
  {
    assert due + rest + {w} - {w} == due + rest;
    if x :| x in rest {
      assert x !in due;
    }
  }

  datatype Snapshot<!S(==), !F(==), !L(==)> = Snapshot(
    fields: set<Node<S, F>>, calls: set<F>, found: seq<Node<S, F>>, clashed: set<F>, called: set<Witness<S, F, L>>)

  /** Nothing is lost, and clashed grows by those facts of looping whose field
      candidates changed. */
  ghost predicate Grew<S(!new), F(!new), L(!new)>(a: Snapshot<S, F, L>, b: Snapshot<S, F, L>, looping: set<F>) {
    && a.fields <= b.fields && a.calls <= b.calls && a.found <= b.found && a.clashed <= b.clashed
    && a.called <= b.called
    && (forall f <- looping :: f in b.clashed <==> f in a.clashed || OfFact(a.fields, f) != OfFact(b.fields, f))
  }

  lemma GrewNot<S(!new), F(!new), L(!new)>(a: Snapshot<S, F, L>, looping: set<F>)
    ensures Grew(a, a, looping)
  {
  }

  lemma GrewMore<S(!new), F(!new), L(!new)>(a: Snapshot<S, F, L>, more: set<Witness<S, F, L>>, looping: set<F>)
    ensures Grew(a, a.(called := a.called + more), looping)
  {
  }

  lemma GrewBy<S(!new), F(!new), L(!new)>(
    a: Snapshot<S, F, L>, n: Node<S, F>, looping: set<F>, more: set<Witness<S, F, L>>)
    requires n !in a.fields
    ensures Grew(a, a.(fields := a.fields + {n}, clashed := a.clashed + (if n.fact in looping then {n.fact} else {}),
      called := a.called + more), looping)
  {
    assert n in OfFact(a.fields + {n}, n.fact) && n !in OfFact(a.fields, n.fact);
    forall f | f != n.fact ensures OfFact(a.fields + {n}, f) == OfFact(a.fields, f) { }
  }

  lemma GrewOn<S(!new), F(!new), L(!new)>(
    a: Snapshot<S, F, L>, b: Snapshot<S, F, L>, c: Snapshot<S, F, L>, looping: set<F>, looping': set<F>)
    requires Grew(a, b, looping) && looping <= looping' && Grew(b, c, looping')
    ensures Grew(a, c, looping)
  {
    forall f <- looping ensures f in c.clashed <==> f in a.clashed || OfFact(a.fields, f) != OfFact(c.fields, f) {
      assert OfFact(a.fields, f) <= OfFact(b.fields, f) <= OfFact(c.fields, f);
    }
  }

  class EmptyStackWitnesses<S(==, !new), F(==, !new), L(==, !new)> {
    var potentialFieldCandidate: set<Node<S, F>>
    var potentialCallCandidate: set<F>
    /** The calls of the listener's witnessFound so far. */
    var found: seq<Node<S, F>>
    /** The exception of an iterator whose collection was changed has been thrown. */
    var interrupted: bool
    /** What witnessFound leads to, which may depend on all that was reported before. */
    const effect: (seq<Node<S, F>>, Node<S, F>) -> seq<Witness<S, F, L>>
    ghost const allNodes: set<Node<S, F>>
    ghost const allFacts: set<F>
    ghost var pending: set<Node<S, F>>
    /** The facts whose loop in callWitness has candidates left to report. */
    ghost var looping: set<F>
    /** Those of them for which a new field candidate was put meanwhile. */
    ghost var clashed: set<F>
    /** The calls so far, and those from outside. */
    ghost var called: set<Witness<S, F, L>>
    ghost var given: set<Witness<S, F, L>>
    /** The calls of witnessFound that are under way, or were interrupted. */
    ghost var busy: set<nat>

    ghost function History(): Journal<Node<S, F>, Witness<S, F, L>>
      reads this
    {
      Journal(found, called, given, busy)
    }

    ghost predicate Known(w: Witness<S, F, L>) {
      match w
      case FieldSide(_, node) => node in allNodes
      case CallSide(_, fact) => fact in allFacts
    }

    ghost predicate Valid()
      reads this
    {
      && Matched(potentialFieldCandidate, potentialCallCandidate, found, pending)
      && potentialFieldCandidate <= allNodes && potentialCallCandidate <= allFacts
      && looping <= potentialCallCandidate && clashed <= potentialCallCandidate
      && EffectKnown()
      && CandidatesOf(called, potentialFieldCandidate, potentialCallCandidate) && Justified(effect, History())
    }

    ghost predicate EffectKnown() {
      forall done, n :: forall w <- effect(done, n) :: Known(w)
    }

    ghost predicate Arrived(w: Witness<S, F, L>)
      reads this
    {
      match w
      case FieldSide(t, node) => !t.target.Gen? && t.lbl == Sym(EmptyField) ==> node in potentialFieldCandidate
      case CallSide(t, fact) => !t.target.Gen? ==> fact in potentialCallCandidate
    }

    /** The listener adds call transitions only. */
    ghost predicate AddsCallsOnly() {
      forall done, n :: forall w <- effect(done, n) :: w.CallSide?
    }

    /** Whatever is reported for the fact, the listener puts a field candidate of the
        same fact that is not in fields. */
    ghost predicate Disturbs(fact: F, fields: set<Node<S, F>>) {
      forall done, n: Node<S, F> :: n.fact == fact ==> DisturbsBy(done, n, fact, fields)
    }

    ghost predicate DisturbsBy(done: seq<Node<S, F>>, n: Node<S, F>, fact: F, fields: set<Node<S, F>>) {
      exists w <- effect(done, n) :: NewFieldCandidate(w, fact, fields)
    }

    /** The loop over the candidates of the fact is disturbed at its first turn. */
    ghost predicate Unsafe(fact: F)
      reads this
    {
      Disturbs(fact, potentialFieldCandidate) && fact !in potentialCallCandidate &&
        |OfFact(potentialFieldCandidate, fact)| >= 2
    }

    lemma UnsafeParts(fact: F)
      ensures Unsafe(fact) ==> Disturbs(fact, potentialFieldCandidate) && |OfFact(potentialFieldCandidate, fact)| >= 2
      ensures Unsafe(fact) ==> fact !in potentialCallCandidate
    {
    }

    static ghost predicate NewFieldCandidate(w: Witness<S, F, L>, fact: F, fields: set<Node<S, F>>) {
      w.FieldSide? && !w.ft.target.Gen? && w.ft.lbl == Sym(EmptyField) && w.node.fact == fact && w.node !in fields
    }

    /** No call is under way, and none was interrupted. */
    ghost predicate Quiet()
      reads this
    {
      Valid() && pending == {} && looping == {} && clashed == {} && busy == {} && !interrupted
    }

    /** No call is under way. One that was interrupted may have left nodes. */
    ghost predicate Outside()
      reads this
    {
      Valid() && looping == {} && !interrupted
    }

    /** The nodes that are candidates on both sides and for which witnessFound has not
        been called. */
    ghost function Unreported(): set<Node<S, F>>
      reads this
    {
      set n <- potentialFieldCandidate | n.fact in potentialCallCandidate && n !in found
    }

    ghost function Missing(): nat
      reads this
    {
      |allNodes - potentialFieldCandidate| + |allFacts - potentialCallCandidate|
    }

    ghost function Now(): Snapshot<S, F, L>
      reads this
    {
      Snapshot(potentialFieldCandidate, potentialCallCandidate, found, clashed, called)
    }

    /** A call has done its work and leaves the nodes in due to report, or it was
        interrupted and leaves more. A loop outside it clashes if its candidates
        changed. */
    twostate predicate Returned(due: set<Node<S, F>>)
      reads this
    {
      && Valid() && looping == old(looping) && Grew(old(Now()), Now(), looping)
      && Left(due, pending, interrupted)
      && (if interrupted then clashed != old(clashed) else clashed <= old(clashed) + old(looping))
      && if interrupted then old(busy) <= busy else busy == old(busy)
    }

    constructor (
      effect: (seq<Node<S, F>>, Node<S, F>) -> seq<Witness<S, F, L>>, ghost allNodes: set<Node<S, F>>,
      ghost allFacts: set<F>)
      requires forall done, n :: forall w <- effect(done, n) ::
        match w case FieldSide(_, node) => node in allNodes case CallSide(_, fact) => fact in allFacts
      ensures Quiet() && potentialFieldCandidate == {} && potentialCallCandidate == {} && found == [] && given == {}
      ensures this.effect == effect && this.allNodes == allNodes && this.allFacts == allFacts
    {
      this.effect, this.allNodes, this.allFacts := effect, allNodes, allFacts;
      potentialFieldCandidate, potentialCallCandidate, found, interrupted := {}, {}, [], false;
      pending, looping, clashed := {}, {}, {};
      called, given, busy := {}, {}, {};
    }

    /** The caller outside catches the exception. */
    method Catch()
      requires Valid() && looping == {} && interrupted
      modifies this`interrupted
      ensures Outside() && Unreported() == old(Unreported()) && Now() == old(Now())
    {
      interrupted := false;
    }

    lemma MissingShrinks(a: Snapshot<S, F, L>)
      requires Valid() && Grew(a, Now(), looping)
      ensures Missing() <= |allNodes - a.fields| + |allFacts - a.calls|
      ensures a.fields != potentialFieldCandidate || a.calls != potentialCallCandidate ==>
        Missing() < |allNodes - a.fields| + |allFacts - a.calls|
    {
      SetShrinks(allNodes, a.fields, potentialFieldCandidate);
      SetShrinks(allFacts, a.calls, potentialCallCandidate);
    }

    /** A call that adds no candidate. */
    ghost method Receive(w: Witness<S, F, L>, outside: bool)
      requires Valid() && !interrupted && (outside || CalledBack(effect, found, w)) && AddsNone(w)
      modifies this`called, this`given
      ensures Returned(old(pending)) && Now() == old(Now()).(called := called) && w in called
      ensures given == old(given) + From(w, outside) && !interrupted
    {
      hide Matched, EffectKnown, Justified, CandidatesOf;
      Receives(effect, History(), w, outside);
      OneMoreCall(called, potentialFieldCandidate, potentialCallCandidate, w);
      assert w.FieldSide? && w.node in potentialFieldCandidate ==>
        potentialFieldCandidate + {w.node} == potentialFieldCandidate;
      assert w.CallSide? && w.fact in potentialCallCandidate ==>
        potentialCallCandidate + {w.fact} == potentialCallCandidate;
      GrewMore(Now(), {w}, looping);
      called, given := called + {w}, given + From(w, outside);
    }

    ghost predicate AddsNone(w: Witness<S, F, L>)
      reads this`potentialFieldCandidate, this`potentialCallCandidate
    {
      match w
      case FieldSide(t, node) => t.target.Gen? || t.lbl != Sym(EmptyField) || node in potentialFieldCandidate
      case CallSide(t, fact) => t.target.Gen? || fact in potentialCallCandidate
    }

    /** A field transition out of the source node. */
    method FieldWitness(t: Trans<Node<S, F>, FieldLabel<L>>, targetFact: Node<S, F>, ghost outside: bool := true)
      requires Valid() && !interrupted && targetFact in allNodes
      requires outside || CalledBack(effect, found, FieldSide(t, targetFact))
      modifies this
      ensures Returned(old(pending)) && Arrived(FieldSide(t, targetFact)) && FieldSide(t, targetFact) in called
      ensures given == old(given) + From(FieldSide(t, targetFact), outside)
      ensures AddsCallsOnly() && targetFact.fact !in looping ==> clashed == old(clashed)
      ensures t.target.Gen? || t.lbl != Sym(EmptyField) ==> Now() == old(Now()).(called := called)
      ensures targetFact.fact !in old(potentialCallCandidate) ==>
        && old(potentialFieldCandidate) <= potentialFieldCandidate <= old(potentialFieldCandidate) + {targetFact}
        && potentialCallCandidate == old(potentialCallCandidate) && found == old(found) && !interrupted
      decreases Missing(), 0
    {
      hide Matched, Grew, OfFact, EffectKnown, Left, AddsCallsOnly, CandidatesOf, Justified;
      if t.target.Gen? || t.lbl != Sym(EmptyField) || targetFact in potentialFieldCandidate {
        Receive(FieldSide(t, targetFact), outside);
        return;
      }
      PutField(t, targetFact, outside);
      if targetFact.fact in potentialCallCandidate {
        MissingShrinks(old(Now()));
        label put:
        WitnessFound(targetFact);
        GrewOn(old(Now()), old@put(Now()), Now(), looping, looping);
        StillClashed(old(Now()), old@put(Now()), Now());
        assert old@put(pending) - {targetFact} == old(pending);
      }
    }

    /** The put of fieldWitness, before anyone is told. */
    method PutField(t: Trans<Node<S, F>, FieldLabel<L>>, n: Node<S, F>, ghost outside: bool)
      requires Valid() && !interrupted && n in allNodes && n !in potentialFieldCandidate
      requires !t.target.Gen? && t.lbl == Sym(EmptyField)
      requires outside || CalledBack(effect, found, FieldSide(t, n))
      modifies this`potentialFieldCandidate, this`clashed, this`pending, this`called, this`given
      ensures Valid() && potentialFieldCandidate == old(potentialFieldCandidate) + {n}
      ensures pending == old(pending) + (if n.fact in potentialCallCandidate then {n} else {}) && n !in old(pending)
      ensures clashed == old(clashed) + if n.fact in looping then {n.fact} else {}
      ensures Grew(old(Now()), Now(), looping)
      ensures n.fact !in potentialCallCandidate ==> Left(old(pending), pending, false)
      ensures given == old(given) + From(FieldSide(t, n), outside) && FieldSide(t, n) in called
    {
      hide Grew, EffectKnown, CandidatesOf, Justified;
      FieldArrives(potentialFieldCandidate, potentialCallCandidate, found, pending, n);
      GrewBy(Now(), n, looping, {FieldSide(t, n)});
      Receives(effect, History(), FieldSide(t, n), outside);
      OneMoreCall(called, potentialFieldCandidate, potentialCallCandidate, FieldSide(t, n));
      called, given := called + {FieldSide(t, n)}, given + From(FieldSide(t, n), outside);
      potentialFieldCandidate := potentialFieldCandidate + {n};
      clashed := clashed + if n.fact in looping then {n.fact} else {};
      pending := pending + if n.fact in potentialCallCandidate then {n} else {};
    }

    /** A call transition out of the source node. The loop is not over a snapshot. */
    method CallWitness(t: Trans<F, S>, targetFact: F, ghost outside: bool := true)
      requires Valid() && !interrupted && targetFact in allFacts
      requires outside || CalledBack(effect, found, CallSide(t, targetFact))
      modifies this
      ensures Returned(old(pending)) && Arrived(CallSide(t, targetFact)) && CallSide(t, targetFact) in called
      ensures given == old(given) + From(CallSide(t, targetFact), outside)
      ensures AddsCallsOnly() ==> clashed == old(clashed)
      ensures t.target.Gen? ==> Now() == old(Now()).(called := called)
      ensures !t.target.Gen? && old(Unsafe(targetFact)) ==> interrupted
      decreases Missing(), 0
    {
      hide Matched, Grew, OfFact, EffectKnown, Left, AddsCallsOnly, Disturbs, Unsafe, CandidatesOf, Justified;
      UnsafeParts(targetFact);
      if t.target.Gen? || targetFact in potentialCallCandidate {
        Receive(CallSide(t, targetFact), outside);
        return;
      }
      var candidates := OfFact(potentialFieldCandidate, targetFact);
      PutCall(t, targetFact, outside);
      MissingShrinks(old(Now()));
      label put:
      ReportAll(targetFact, candidates, old(pending));
      GrewOn(old(Now()), old@put(Now()), Now(), looping, looping);
      StillClashed(old(Now()), old@put(Now()), Now());
    }

    /** The loop of callWitness. */
    method ReportAll(fact: F, candidates: set<Node<S, F>>, ghost due: set<Node<S, F>>)
      requires Valid() && !interrupted && fact in potentialCallCandidate && fact !in looping && fact !in clashed
      requires candidates == OfFact(potentialFieldCandidate, fact)
      requires pending == due + candidates && due * candidates == {}
      modifies this
      ensures Returned(due) && given == old(given)
      ensures AddsCallsOnly() ==> clashed == old(clashed)
      ensures Disturbs(fact, old(potentialFieldCandidate)) && |candidates| >= 2 ==> interrupted
      decreases Missing(), 4
    {
      hide Matched, Grew, OfFact, EffectKnown, Left, AddsCallsOnly, Disturbs, CandidatesOf, Justified;
      GrewNot(Now(), looping);
      var rest := candidates;
      while rest != {}
        invariant Valid() && !interrupted && looping == old(looping) && Grew(old(Now()), Now(), looping)
        invariant busy == old(busy) && given == old(given) && fact in potentialCallCandidate
        invariant rest != {} ==> OfFact(potentialFieldCandidate, fact) == candidates
        invariant pending == due + rest && due * rest == {}
        invariant fact !in looping && fact !in clashed && clashed <= old(clashed) + looping
        invariant AddsCallsOnly() ==> clashed == old(clashed)
        invariant Disturbs(fact, old(potentialFieldCandidate)) && |candidates| >= 2 ==>
          rest == candidates && potentialFieldCandidate == old(potentialFieldCandidate)
        decreases rest
      {
        var w :| w in rest;
        OneOf(potentialFieldCandidate, fact, rest, w);
        TakeOne(due, rest, w);
        rest := rest - {w};
        MissingShrinks(old(Now()));
        label before:
        ReportOne(w, fact, candidates, rest, due);
        GrewOn(old(Now()), old@before(Now()), Now(), looping, looping);
        StillClashed(old(Now()), old@before(Now()), Now());
        if interrupted {
          return;
        }
      }
      AllLeft(pending);
      assert pending == due;
    }

    lemma StillClashed(a: Snapshot<S, F, L>, b: Snapshot<S, F, L>, c: Snapshot<S, F, L>)
      requires Grew(a, b, looping) && Grew(b, c, looping)
      ensures b.fields <= c.fields && b.calls <= c.calls && b.clashed <= c.clashed && b.called <= c.called
      ensures b.clashed != c.clashed ==> a.clashed != c.clashed
    {
    }

    lemma Kept(a: Snapshot<S, F, L>, b: Snapshot<S, F, L>)
      requires Grew(a, b, looping)
      ensures a.fields <= b.fields && a.calls <= b.calls && a.clashed <= b.clashed
    {
    }

    /** The add of callWitness, before anyone is told. */
    method PutCall(t: Trans<F, S>, fact: F, ghost outside: bool)
      requires Valid() && !interrupted && fact in allFacts && fact !in potentialCallCandidate && !t.target.Gen?
      requires outside || CalledBack(effect, found, CallSide(t, fact))
      modifies this`potentialCallCandidate, this`pending, this`called, this`given
      ensures Valid() && potentialCallCandidate == old(potentialCallCandidate) + {fact}
      ensures pending == old(pending) + OfFact(potentialFieldCandidate, fact)
      ensures old(pending) * OfFact(potentialFieldCandidate, fact) == {}
      ensures fact !in looping && fact !in clashed && Grew(old(Now()), Now(), looping)
      ensures given == old(given) + From(CallSide(t, fact), outside) && CallSide(t, fact) in called
    {
      hide OfFact, EffectKnown, CandidatesOf, Justified;
      CallArrives(potentialFieldCandidate, potentialCallCandidate, found, pending, fact);
      Receives(effect, History(), CallSide(t, fact), outside);
      OneMoreCall(called, potentialFieldCandidate, potentialCallCandidate, CallSide(t, fact));
      called, given := called + {CallSide(t, fact)}, given + From(CallSide(t, fact), outside);
      potentialCallCandidate := potentialCallCandidate + {fact};
      pending := pending + OfFact(potentialFieldCandidate, fact);
    }

    /** One turn of the loop in callWitness, with rest still to come. The iterator is
        asked for the next candidate, if any, and throws if the candidates changed. */
    method ReportOne(
      w: Node<S, F>, fact: F, candidates: set<Node<S, F>>, rest: set<Node<S, F>>, ghost due: set<Node<S, F>>)
      requires Valid() && !interrupted && fact in potentialCallCandidate && fact !in looping && fact !in clashed
      requires pending == due + rest + {w} && w !in due && w !in rest && due * rest == {}
      requires candidates == OfFact(potentialFieldCandidate, fact)
      modifies this
      ensures Valid() && looping == old(looping) && Grew(old(Now()), Now(), looping)
      ensures if interrupted then Left(due, pending, true) && clashed != old(clashed)
              else pending == due + rest && fact !in clashed && clashed <= old(clashed) + looping
      ensures given == old(given) && if interrupted then old(busy) <= busy else busy == old(busy)
      ensures !interrupted && rest != {} ==> candidates == OfFact(potentialFieldCandidate, fact)
      ensures AddsCallsOnly() ==> clashed == old(clashed)
      ensures w.fact == fact && rest != {} && Disturbs(fact, old(potentialFieldCandidate)) ==> interrupted
      decreases Missing(), 3
    {
      hide Matched, Grew, OfFact, EffectKnown, Left, Disturbs, CandidatesOf, Justified;
      looping := looping + if rest != {} then {fact} else {};
      WitnessFound(w);
      LoopLeft(due, rest, w, pending, interrupted);
      GrewNot(old(Now()), old(looping));
      GrewOn(old(Now()), old(Now()), Now(), old(looping), looping);
      ClashedIfChanged(old(Now()), fact);
      if !interrupted && w.fact == fact && Disturbs(fact, old(potentialFieldCandidate)) {
        Disturbed(fact, old(potentialFieldCandidate), old(found), w);
      }
      Kept(old(Now()), Now());
      looping := old(looping);
      if !interrupted && rest != {} && OfFact(potentialFieldCandidate, fact) != candidates {
        interrupted := true;
      }
    }

    lemma Disturbed(fact: F, fields: set<Node<S, F>>, done: seq<Node<S, F>>, n: Node<S, F>)
      requires Disturbs(fact, fields) && n.fact == fact && (forall w <- effect(done, n) :: Arrived(w))
      ensures OfFact(potentialFieldCandidate, fact) != OfFact(fields, fact)
    {
      assert DisturbsBy(done, n, fact, fields);
      var w :| w in effect(done, n) && NewFieldCandidate(w, fact, fields);
      assert Arrived(w);
      assert w.node in OfFact(potentialFieldCandidate, fact) && w.node !in OfFact(fields, fact);
    }

    lemma ClashedIfChanged(a: Snapshot<S, F, L>, fact: F)
      requires Grew(a, Now(), looping) && fact !in a.clashed
      ensures fact in looping ==> (fact in clashed <==> OfFact(a.fields, fact) != OfFact(potentialFieldCandidate, fact))
    {
    }

    /** witnessFound: records the node and makes the calls it leads to. */
    method WitnessFound(n: Node<S, F>)
      requires Valid() && !interrupted && n in pending
      modifies this
      ensures Returned(old(pending) - {n}) && old(found) + [n] <= found && given == old(given)
      ensures !interrupted ==> forall w <- effect(old(found), n) :: Arrived(w)
      ensures AddsCallsOnly() ==> clashed == old(clashed)
      decreases Missing(), 2
    {
      hide Matched, Grew, OfFact, Left, AddsCallsOnly, EffectKnown, CandidatesOf, Justified, CalledBack;
      EffectOf(n);
      var calls := effect(found, n);
      ghost var k, log := |found|, found + [n];
      Record(n);
      for i := 0 to |calls|
        invariant Valid() && looping == old(looping) && Grew(old(Now()), Now(), looping) && !interrupted
        invariant Left(old(pending) - {n}, pending, false) && clashed <= old(clashed) + looping
        invariant log <= found && given == old(given) && busy == old(busy) + {k}
        invariant forall w <- calls[..i] :: Arrived(w) && w in called
        invariant AddsCallsOnly() ==> clashed == old(clashed)
      {
        MissingShrinks(old(Now()));
        assert calls[i] in calls && calls[..i + 1] == calls[..i] + [calls[i]];
        assert log[..|log| - 1] == old(found);
        CalledBackBy(effect, log, found, calls[i]);
        label before:
        Perform(calls[i]);
        assert old@before(pending) == old(pending) - {n} by { NoneLeft(old(pending) - {n}, old@before(pending)); }
        Prefixed(log, old@before(Now()), Now());
        GrewOn(old(Now()), old@before(Now()), Now(), looping, looping);
        StillClashed(old(Now()), old@before(Now()), Now());
        if interrupted {
          return;
        }
      }
      assert calls[..|calls|] == calls && log[..|log| - 1] == old(found);
      Finish(log, old(busy));
    }

    method Perform(w: Witness<S, F, L>)
      requires Valid() && !interrupted && Known(w) && CalledBack(effect, found, w)
      modifies this
      ensures Returned(old(pending)) && Arrived(w) && w in called && given == old(given)
      ensures AddsCallsOnly() && w.CallSide? ==> clashed == old(clashed)
      decreases Missing(), 1
    {
      hide Matched, Grew, OfFact, Left, AddsCallsOnly, EffectKnown, CandidatesOf, Justified, CalledBack;
      match w {
        case FieldSide(t, node) => FieldWitness(t, node, false);
        case CallSide(t, fact) => CallWitness(t, fact, false);
      }
    }

    /** The call of witnessFound at the end of log has done all that it leads to. */
    ghost method Finish(log: seq<Node<S, F>>, before: set<nat>)
      requires Valid() && log != [] && log <= found && busy == before + {|log| - 1}
      requires forall w <- effect(log[..|log| - 1], log[|log| - 1]) :: w in called
      modifies this`busy
      ensures Valid() && busy == before && Now() == old(Now())
    {
      hide Matched, EffectKnown, CandidatesOf, Justified;
      Finishes(effect, History(), log, before);
      busy := before;
    }

    lemma EffectOf(n: Node<S, F>)
      requires EffectKnown()
      ensures forall w <- effect(found, n) :: Known(w)
      ensures AddsCallsOnly() ==> forall w <- effect(found, n) :: w.CallSide?
    {
    }

    lemma NoneLeft(due: set<Node<S, F>>, nodes: set<Node<S, F>>)
      requires Left(due, nodes, false)
      ensures nodes == due
    {
    }

    lemma Prefixed(before: seq<Node<S, F>>, a: Snapshot<S, F, L>, b: Snapshot<S, F, L>)
      requires before <= a.found && Grew(a, b, looping)
      ensures before <= b.found
    {
    }

    method Record(n: Node<S, F>)
      requires Valid() && !interrupted && n in pending
      modifies this`found, this`pending, this`busy
      ensures Valid() && found == old(found) + [n] && pending == old(pending) - {n}
      ensures Grew(old(Now()), Now(), looping) && Left(old(pending) - {n}, pending, false)
      ensures busy == old(busy) + {|old(found)|} && |old(found)| !in old(busy)
    {
      hide Matched, EffectKnown, CandidatesOf, Justified;
      NodeReported(potentialFieldCandidate, potentialCallCandidate, found, pending, n);
      Begins(effect, History(), n);
      busy := busy + {|found|};
      found := found + [n];
      pending := pending - {n};
    }

    /** Whenever no call is under way and none was interrupted, the candidates are those
        of the transitions that came from outside or from witnessFound, in so far as
        they are not filtered out. */
    lemma CandidatesExactly(n: Node<S, F>, fact: F)
      requires Quiet()
      ensures n in potentialFieldCandidate <==>
        exists t: Trans<Node<S, F>, FieldLabel<L>> :: !t.target.Gen? && t.lbl == Sym(EmptyField) &&
          (FieldSide(t, n) in given || CalledBack(effect, found, FieldSide(t, n)))
      ensures fact in potentialCallCandidate <==>
        exists t: Trans<F, S> ::
          !t.target.Gen? && (CallSide(t, fact) in given || CalledBack(effect, found, CallSide(t, fact)))
    {
      hide Justified, CalledBack;
      forall w ensures w in called <==> w in given || CalledBack(effect, found, w) {
        CalledExactly(effect, History(), w);
      }
    }

    /** Whenever no call is under way and none was interrupted, witnessFound has been
        called exactly once for each node that is a candidate on both sides, and for
        no other. */
    lemma ReportedExactlyOnce(n: Node<S, F>)
      requires Quiet()
      ensures multiset(found)[n] == if n in potentialFieldCandidate && n.fact in potentialCallCandidate then 1 else 0
    {
      AtMostOnce(found, n);
      assert n in multiset(found) <==> n in found;
    }

    /** A call from outside is interrupted exactly if some callback puts a new field
        candidate for a fact while candidates of that fact are left to report in
        callWitness. One more node is then a candidate on both sides and left
        unreported. Otherwise the call reports all it has to. */
    twostate lemma ExactUnlessClashed()
      requires old(Outside()) && Returned(old(pending))
      ensures interrupted <==> clashed != old(clashed)
      ensures interrupted ==> exists n <- Unreported() :: n !in old(Unreported())
      ensures !interrupted ==> Unreported() == old(Unreported())
      ensures old(Quiet()) ==> (Quiet() <==> !interrupted)
    {
      PendingUnreported();
      if interrupted {
        var n :| n in pending && n !in old(pending);
        assert n in Unreported() && n !in old(Unreported());
      }
    }

    twostate lemma PendingUnreported()
      requires old(Valid()) && Valid()
      ensures old(Unreported()) == old(pending) && Unreported() == pending
    {
    }

    /** What a call leaves unreported, no later call from outside reports. */
    twostate lemma NeverReported()
      requires old(Outside()) && Returned(old(pending))
      ensures old(Unreported()) <= Unreported()
    {
      PendingUnreported();
    }
  }

  /** Two field candidates of fact 0, a listener that puts a third one whenever it is
      told of a node, and then the call candidate: the loop is interrupted at its
      first turn, and a node that is a candidate on both sides is not reported, also
      when the call is made again. */
  method ThirdCandidateInterrupts() returns (fields: set<Node<int, int>>, calls: set<int>, found: seq<Node<int, int>>)
    ensures exists n :: n in fields && n.fact in calls && n !in found
  {
    hide EmptyStackWitnesses.Valid, EmptyStackWitnesses.Disturbs, Grew, Left;
    var t: Trans<Node<int, int>, FieldLabel<int>> := Trans(Control(Node(0, 0)), Sym(EmptyField), Control(Node(0, 0)));
    var third := FieldSide(t, Node(3, 0));
    var effect: (seq<Node<int, int>>, Node<int, int>) -> seq<Witness<int, int, int>> := (done, n) => [third];
    ghost var nodes := {Node(1, 0), Node(2, 0), Node(3, 0)};
    var x := new EmptyStackWitnesses(effect, nodes, {0});
    TwoFields(x, t, Node(1, 0), Node(2, 0));
    ghost var two := OfFact(x.potentialFieldCandidate, 0);
    assert two == {Node(1, 0), Node(2, 0)} && |two| == 2;
    assert x.Disturbs(0, x.potentialFieldCandidate) by { AlwaysDisturbs(x, third, 0); }
    assert x.Unsafe(0);
    CallTwice(x, Trans(Control(0), Sym(0), Control(0)), 0);
    fields, calls, found := x.potentialFieldCandidate, x.potentialCallCandidate, x.found;
  }

  lemma AlwaysDisturbs<S(!new), F(!new), L(!new)>(
    x: EmptyStackWitnesses<S, F, L>, w: Witness<S, F, L>, fact: F)
    requires forall done, n :: w in x.effect(done, n)
    requires EmptyStackWitnesses<S, F, L>.NewFieldCandidate(w, fact, x.potentialFieldCandidate)
    ensures x.Disturbs(fact, x.potentialFieldCandidate)
  {
    forall done, n: Node<S, F> | n.fact == fact ensures x.DisturbsBy(done, n, fact, x.potentialFieldCandidate) {
      assert w in x.effect(done, n);
    }
  }

  /** Two field candidates, and no call candidate yet. */
  method TwoFields<S(==, !new), F(==, !new), L(==, !new)>(
    x: EmptyStackWitnesses<S, F, L>, t: Trans<Node<S, F>, FieldLabel<L>>, a: Node<S, F>, b: Node<S, F>)
    requires x.Quiet() && x.potentialFieldCandidate == {} && x.potentialCallCandidate == {}
    requires a in x.allNodes && b in x.allNodes && !t.target.Gen? && t.lbl == Sym(EmptyField)
    modifies x
    ensures x.Quiet() && x.potentialFieldCandidate == {a, b} && x.potentialCallCandidate == {}
  {
    hide EmptyStackWitnesses.Valid, Grew;
    x.FieldWitness(t, a);
    x.FieldWitness(t, b);
  }

  /** A call that is interrupted, and made again after that was caught. */
  method CallTwice<S(==, !new), F(==, !new), L(==, !new)>(x: EmptyStackWitnesses<S, F, L>, t: Trans<F, S>, fact: F)
    requires x.Outside() && x.Unsafe(fact) && fact in x.allFacts && !t.target.Gen?
    modifies x
    ensures exists n :: n in x.potentialFieldCandidate && n.fact in x.potentialCallCandidate && n !in x.found
  {
    hide EmptyStackWitnesses.Valid, EmptyStackWitnesses.Unsafe, Grew;
    x.CallWitness(t, fact);
    x.ExactUnlessClashed();
    x.Catch();
    label caught:
    x.CallWitness(t, fact);
    x.NeverReported@caught();
  }
}
