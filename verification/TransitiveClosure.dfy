/** Transitive closure of a finite relation, by paths. */
module TransitiveClosure {

  ghost predicate IsPath<X>(adj: set<(X, X)>, p: seq<X>) {
    forall i :: 0 <= i < |p| - 1 ==> (p[i], p[i + 1]) in adj
  }

  /** p leads from a to b over at least one edge. */
  ghost predicate PathBetween<X>(adj: set<(X, X)>, p: seq<X>, a: X, b: X) {
    |p| >= 2 && p[0] == a && p[|p| - 1] == b && IsPath(adj, p)
  }

  ghost predicate Connects<X(!new)>(adj: set<(X, X)>, a: X, b: X) {
    exists p :: PathBetween(adj, p, a, b)
  }

  lemma EdgeConnects<X(!new)>(adj: set<(X, X)>, a: X, b: X)
    requires (a, b) in adj
    ensures Connects(adj, a, b)
  {
    assert PathBetween(adj, [a, b], a, b);
  }

  lemma ConnectsTransitive<X(!new)>(adj: set<(X, X)>, a: X, b: X, c: X)
    requires Connects(adj, a, b) && Connects(adj, b, c)
    ensures Connects(adj, a, c)
  {
    var p :| PathBetween(adj, p, a, b);
    var q :| PathBetween(adj, q, b, c);
    var r := p + q[1..];
    forall i | 0 <= i < |r| - 1 ensures (r[i], r[i + 1]) in adj {
      if i < |p| - 1 {
        assert (p[i], p[i + 1]) in adj;
      } else {
        assert r[i] == q[i - |p| + 1] && r[i + 1] == q[i - |p| + 2];
      }
    }
    assert PathBetween(adj, r, a, c);
  }

  lemma ConnectsMonotone<X(!new)>(adj: set<(X, X)>, adj': set<(X, X)>, a: X, b: X)
    requires adj <= adj' && Connects(adj, a, b)
    ensures Connects(adj', a, b)
  {
    var p :| PathBetween(adj, p, a, b);
    assert PathBetween(adj', p, a, b);
  }

  /** A relation that contains the edges and is closed under appending one
      contains every connected pair. */
  lemma {:induction false} ClosedContainsPaths<X(!new)>(adj: set<(X, X)>, r: set<(X, X)>, p: seq<X>, a: X, b: X)
    requires adj <= r
    requires forall x, y, z :: (x, y) in r && (y, z) in adj ==> (x, z) in r
    requires PathBetween(adj, p, a, b)
    ensures (a, b) in r
    decreases |p|
  {
    var k := |p| - 1;
    if k == 1 {
      assert (p[0], p[1]) in adj;
    } else {
      var q := p[..k];
      assert PathBetween(adj, q, a, p[k - 1]);
      ClosedContainsPaths(adj, r, q, a, p[k - 1]);
      assert (p[k - 1], p[k]) in adj;
    }
  }

  /** The nodes that edges touch. */
  ghost function Ends<X>(adj: set<(X, X)>): set<X> {
    (set e <- adj :: e.0) + (set e <- adj :: e.1)
  }

  lemma ConnectsWithin<X(!new)>(adj: set<(X, X)>, a: X, b: X)
    requires Connects(adj, a, b)
    ensures a in Ends(adj) && b in Ends(adj)
  {
    var p :| PathBetween(adj, p, a, b);
    assert (p[0], p[1]) in adj && (p[|p| - 2], p[|p| - 1]) in adj;
  }
}
