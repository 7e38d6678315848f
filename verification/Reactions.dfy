/** Callbacks that lead to further calls: a journal of what a callback was told and
    of the calls that were made, from outside or because of a callback. */
module Reactions {

  /** log is what the callback was told, in order; busy are those of its calls that are
      under way. called are the calls made so far, given those that came from outside. */
  datatype Journal<!E, !C(==)> = Journal(log: seq<E>, called: set<C>, given: set<C>, busy: set<nat>)

  /** The callback has c called when it is told log[k]. */
  ghost predicate LeadsTo<E, C>(effect: (seq<E>, E) -> seq<C>, log: seq<E>, k: nat, c: C)
    requires k < |log|
  {
    c in effect(log[..k], log[k])
  }

  ghost predicate CalledBack<E, C>(effect: (seq<E>, E) -> seq<C>, log: seq<E>, c: C) {
    exists k: nat :: k < |log| && LeadsTo(effect, log, k, c)
  }

  /** Every call came from outside or from the callback, and what the callback returned
      has been called, unless that is under way. */
  ghost predicate Justified<E(!new), C(!new)>(effect: (seq<E>, E) -> seq<C>, j: Journal<E, C>) {
    && j.given <= j.called
    && (forall c <- j.called :: c in j.given || CalledBack(effect, j.log, c))
    && (forall k: nat, c :: k < |j.log| && k !in j.busy && LeadsTo(effect, j.log, k, c) ==> c in j.called)
    && (forall k <- j.busy :: k < |j.log|)
  }

  ghost function From<C>(c: C, outside: bool): set<C> {
    if outside then {c} else {}
  }

  /** The callback is told e, and begins to react. */
  lemma Begins<E(!new), C(!new)>(effect: (seq<E>, E) -> seq<C>, j: Journal<E, C>, e: E)
    requires Justified(effect, j)
    ensures Justified(effect, j.(log := j.log + [e], busy := j.busy + {|j.log|})) && |j.log| !in j.busy
  {
    var log := j.log + [e];
    forall k: nat, c | k < |j.log| ensures LeadsTo(effect, log, k, c) <==> LeadsTo(effect, j.log, k, c) {
      assert log[..k] == j.log[..k];
    }
    forall c <- j.called | c !in j.given ensures CalledBack(effect, log, c) {
      var k: nat :| k < |j.log| && LeadsTo(effect, j.log, k, c);
      assert LeadsTo(effect, log, k, c);
    }
  }

  /** c is called. */
  lemma Receives<E(!new), C(!new)>(effect: (seq<E>, E) -> seq<C>, j: Journal<E, C>, c: C, outside: bool)
    requires Justified(effect, j) && (outside || CalledBack(effect, j.log, c))
    ensures Justified(effect, j.(called := j.called + {c}, given := j.given + From(c, outside)))
  {
    hide LeadsTo, CalledBack;
  }

  lemma CalledBackBy<E, C>(effect: (seq<E>, E) -> seq<C>, log: seq<E>, more: seq<E>, c: C)
    requires log != [] && log <= more && c in effect(log[..|log| - 1], log[|log| - 1])
    ensures CalledBack(effect, more, c)
  {
    assert more[..|log| - 1] == log[..|log| - 1];
    assert LeadsTo(effect, more, |log| - 1, c);
  }

  /** What the last entry of log leads to has all been called. */
  lemma Finishes<E(!new), C(!new)>(effect: (seq<E>, E) -> seq<C>, j: Journal<E, C>, log: seq<E>, before: set<nat>)
    requires Justified(effect, j) && log != [] && log <= j.log && j.busy == before + {|log| - 1}
    requires forall c <- effect(log[..|log| - 1], log[|log| - 1]) :: c in j.called
    ensures Justified(effect, j.(busy := before))
  {
    var last := |log| - 1;
    assert j.log[..last] == log[..last] && j.log[last] == log[last];
    forall k: nat, c | k < |j.log| && k !in before && LeadsTo(effect, j.log, k, c) ensures c in j.called {
      assert k in j.busy ==> k == last;
    }
  }

  /** With nothing under way, exactly what came from outside and what the callback
      returned has been called. */
  lemma CalledExactly<E(!new), C(!new)>(effect: (seq<E>, E) -> seq<C>, j: Journal<E, C>, c: C)
    requires Justified(effect, j) && j.busy == {}
    ensures c in j.called <==> c in j.given || CalledBack(effect, j.log, c)
  {
    hide LeadsTo;
  }

  // ---------------------------------------------------------------- counting

  lemma {:induction false} AtMostOnce<T>(s: seq<T>, x: T)
    requires forall i, j :: 0 <= i < j < |s| ==> s[i] != s[j]
    ensures multiset(s)[x] <= 1
  {
    if s != [] {
      var n := |s| - 1;
      assert s == s[..n] + [s[n]];
      AtMostOnce(s[..n], x);
      if s[n] == x {
        assert x !in s[..n];
        assert x !in multiset(s[..n]);
      }
    }
  }

  lemma SetShrinks<T>(all: set<T>, less: set<T>, more: set<T>)
    requires less <= more <= all
    ensures |all - more| == |all - less| - |more - less| && (less != more ==> |more - less| > 0)
  {
    assert all - less == (all - more) + (more - less);
    if less != more {
      var x :| x in more - less;
    }
  }
}
