/** Labelled graphs on the nodes 1 to n, their paths, and the languages that the
    elimination works with. */
module LabeledGraphs {
  import opened RegularExpressions

  datatype Edge<N, V> = Edge(start: N, lbl: V, target: N)

  datatype Graph<V(==)> = Graph(edges: set<Edge<nat, V>>, eps: V, n: nat) {
    ghost predicate Valid() {
      forall e <- edges :: 1 <= e.start <= n && 1 <= e.target <= n
    }

    predicate Node(v: nat) {
      1 <= v <= n
    }
  }

  ghost predicate IsPath<N(!new), V(!new)>(g: set<Edge<N, V>>, a: N, p: seq<Edge<N, V>>, b: N) {
    if p == [] then a == b else p[0] in g && p[0].start == a && IsPath(g, p[0].target, p[1..], b)
  }

  /** The labels of a path; the epsilon label reads nothing. */
  function Word<N, V(==)>(p: seq<Edge<N, V>>, eps: V): seq<V> {
    if p == [] then [] else (if p[0].lbl == eps then [] else [p[0].lbl]) + Word(p[1..], eps)
  }

  lemma {:induction false} PathSplit<N(!new), V(!new)>(g: set<Edge<N, V>>, a: N, p: seq<Edge<N, V>>, b: N, i: nat)
    requires IsPath(g, a, p, b) && i <= |p|
    ensures IsPath(g, a, p[..i], if i < |p| then p[i].start else b)
    ensures IsPath(g, if i < |p| then p[i].start else b, p[i..], b)
    decreases i
  {
    if i == 0 {
      assert p[0..] == p && p[..0] == [];
    } else {
      PathSplit(g, p[0].target, p[1..], b, i - 1);
      assert p[..i][1..] == p[1..][..i - 1] && p[1..][i - 1..] == p[i..];
    }
  }

  lemma {:induction false} PathJoin<N(!new), V(!new)>(
    g: set<Edge<N, V>>, a: N, p: seq<Edge<N, V>>, c: N, q: seq<Edge<N, V>>, b: N)
    requires IsPath(g, a, p, c) && IsPath(g, c, q, b)
    ensures IsPath(g, a, p + q, b)
    decreases |p|
  {
    if p == [] {
      assert p + q == q;
    } else {
      PathJoin(g, p[0].target, p[1..], c, q, b);
      assert (p + q)[1..] == p[1..] + q;
    }
  }

  lemma {:induction false} WordJoin<N, V>(p: seq<Edge<N, V>>, q: seq<Edge<N, V>>, eps: V)
    ensures Word(p + q, eps) == Word(p, eps) + Word(q, eps)
    decreases |p|
  {
    if p == [] {
      assert p + q == q;
    } else {
      var pq, rest := p + q, p[1..];
      assert pq[0] == p[0] && pq[1..] == rest + q;
      WordJoin(rest, q, eps);
      var head := if p[0].lbl == eps then [] else [p[0].lbl];
      assert Word(pq, eps) == head + (Word(rest, eps) + Word(q, eps));
      assert Word(p, eps) == head + Word(rest, eps);
    }
  }

  lemma WordSplit<N, V>(p: seq<Edge<N, V>>, i: nat, eps: V)
    requires i <= |p|
    ensures Word(p, eps) == Word(p[..i], eps) + Word(p[i..], eps)
  {
    hide Word;
    var q, r := p[..i], p[i..];
    assert q + r == p;
    WordJoin(q, r, eps);
  }

  lemma {:induction false} EdgesOf<N(!new), V(!new)>(g: set<Edge<N, V>>, a: N, p: seq<Edge<N, V>>, b: N, i: nat)
    requires IsPath(g, a, p, b) && i < |p|
    ensures p[i] in g && (i == 0 ==> p[i].start == a) && (i == |p| - 1 ==> p[i].target == b)
  {
    if i > 0 {
      EdgesOf(g, p[0].target, p[1..], b, i - 1);
    }
  }

  // ---------------------------------------------------------------- kinds of paths

  ghost predicate Inner<V(!new)>(p: seq<Edge<nat, V>>, k: nat) {
    forall i :: 1 <= i < |p| ==> p[i].start <= k
  }

  ghost predicate Below<V(!new)>(p: seq<Edge<nat, V>>, c: nat) {
    forall i :: 0 <= i < |p| ==> p[i].start < c
  }

  /** After its last start above x, which is at least c, the path stays at or below x. */
  ghost predicate DescendsTo<V(!new)>(p: seq<Edge<nat, V>>, x: nat, c: nat) {
    Below(p, x + 1) || exists i :: 0 <= i < |p| && p[i].start > x && p[i].start >= c && Below(p[i + 1..], x + 1)
  }

  ghost predicate InnerPath<V(!new)>(g: Graph<V>, u: nat, p: seq<Edge<nat, V>>, w: nat, k: nat) {
    p != [] && IsPath(g.edges, u, p, w) && Inner(p, k)
  }

  /** There is a non-empty path from u to w whose inner nodes are at most k. */
  ghost predicate Connected<V(!new)>(g: Graph<V>, u: nat, w: nat, k: nat) {
    exists p :: InnerPath(g, u, p, w, k)
  }

  ghost predicate ViaWord<V(!new)>(g: Graph<V>, u: nat, w: nat, k: nat, z: seq<V>) {
    exists p :: InnerPath(g, u, p, w, k) && Word(p, g.eps) == z
  }

  ghost function Via<V(!new)>(g: Graph<V>, u: nat, w: nat, k: nat): iset<seq<V>> {
    iset z | ViaWord(g, u, w, k, z)
  }

  ghost predicate UpWord<V(!new)>(g: Graph<V>, a: nat, x: nat, c: nat, z: seq<V>) {
    exists p :: IsPath(g.edges, a, p, x) && Below(p, c) && Word(p, g.eps) == z
  }

  ghost function Up<V(!new)>(g: Graph<V>, a: nat, x: nat, c: nat): iset<seq<V>> {
    iset z | UpWord(g, a, x, c, z)
  }

  ghost predicate DownWord<V(!new)>(g: Graph<V>, a: nat, x: nat, c: nat, z: seq<V>) {
    exists p :: IsPath(g.edges, a, p, x) && DescendsTo(p, x, c) && Word(p, g.eps) == z
  }

  ghost function Down<V(!new)>(g: Graph<V>, a: nat, x: nat, c: nat): iset<seq<V>> {
    iset z | DownWord(g, a, x, c, z)
  }

  ghost predicate PathWord<N(!new), V(!new)>(edges: set<Edge<N, V>>, eps: V, a: N, b: N, z: seq<V>) {
    exists p :: IsPath(edges, a, p, b) && Word(p, eps) == z
  }

  /** The words along all paths from a to b. */
  ghost function PathWords<N(!new), V(!new)>(edges: set<Edge<N, V>>, eps: V, a: N, b: N): iset<seq<V>> {
    iset z | PathWord(edges, eps, a, b, z)
  }

  // ---------------------------------------------------------------- last visits

  lemma {:induction false} LastVisit<V(!new)>(p: seq<Edge<nat, V>>, v: nat, lo: nat, hi: nat) returns (i: nat)
    requires lo <= hi <= |p| && exists j :: lo <= j < hi && p[j].start == v
    ensures lo <= i < hi && p[i].start == v && forall j :: i < j < hi ==> p[j].start != v
    decreases hi
  {
    if p[hi - 1].start == v {
      i := hi - 1;
    } else {
      i := LastVisit(p, v, lo, hi - 1);
    }
  }

  lemma {:induction false} LastAbove<V(!new)>(p: seq<Edge<nat, V>>, x: nat, hi: nat) returns (i: nat)
    requires hi <= |p| && exists j :: 0 <= j < hi && p[j].start > x
    ensures i < hi && p[i].start > x && forall j :: i < j < hi ==> p[j].start <= x
    decreases hi
  {
    if p[hi - 1].start > x {
      i := hi - 1;
    } else {
      i := LastAbove(p, x, hi - 1);
    }
  }

  /** A path with inner nodes at most v either avoids v inside or splits at its
      last inner visit of v. */
  lemma InnerSplit<V(!new)>(g: Graph<V>, u: nat, p: seq<Edge<nat, V>>, w: nat, v: nat) returns (i: nat)
    requires v >= 1 && InnerPath(g, u, p, w, v) && !Inner(p, v - 1)
    ensures 1 <= i < |p| && p[i].start == v
    ensures InnerPath(g, u, p[..i], v, v) && InnerPath(g, v, p[i..], w, v - 1)
  {
    i := LastVisit(p, v, 1, |p|);
    PathSplit(g.edges, u, p, w, i);
    assert Inner(p[i..], v - 1) by {
      forall j | 1 <= j < |p[i..]| ensures p[i..][j].start <= v - 1 { assert p[i..][j] == p[i + j]; }
    }
  }

  lemma InnerJoin<V(!new)>(g: Graph<V>, u: nat, p: seq<Edge<nat, V>>, v: nat, q: seq<Edge<nat, V>>, w: nat, k: nat)
    requires InnerPath(g, u, p, v, k) && InnerPath(g, v, q, w, k) && v <= k
    ensures InnerPath(g, u, p + q, w, k)
    ensures Word(p + q, g.eps) == Word(p, g.eps) + Word(q, g.eps)
  {
    PathJoin(g.edges, u, p, v, q, w);
    WordJoin(p, q, g.eps);
    EdgesOf(g.edges, v, q, w, 0);
    forall i | 1 <= i < |p + q| ensures (p + q)[i].start <= k {
      if i >= |p| { assert (p + q)[i] == q[i - |p|]; }
    }
  }

  /** If v is visited inside, then it is reached and left without visiting it inside. */
  lemma {:induction false} InnerVisit<V(!new)>(g: Graph<V>, u: nat, p: seq<Edge<nat, V>>, w: nat, v: nat)
    requires v >= 1 && InnerPath(g, u, p, w, v) && (!Inner(p, v - 1) || w == v)
    ensures Connected(g, u, v, v - 1)
    ensures !Inner(p, v - 1) ==> Connected(g, v, w, v - 1)
    decreases |p|
  {
    if !Inner(p, v - 1) {
      var i := InnerSplit(g, u, p, w, v);
      InnerVisit(g, u, p[..i], v, v);
    } else {
      assert InnerPath(g, u, p, w, v - 1);
    }
  }

  // ---------------------------------------------------------------- equations

  lemma ViaInhabited<V(!new)>(g: Graph<V>, u: nat, w: nat, k: nat)
    ensures (exists z :: z in Via(g, u, w, k)) <==> Connected(g, u, w, k)
    ensures !Connected(g, u, w, k) ==> Via(g, u, w, k) == iset{}
  {
    if p :| InnerPath(g, u, p, w, k) {
      assert ViaWord(g, u, w, k, Word(p, g.eps));
      assert Word(p, g.eps) in Via(g, u, w, k);
    }
  }

  lemma ViaGrows<V(!new)>(g: Graph<V>, u: nat, w: nat, k: nat, k': nat)
    requires k <= k'
    ensures Via(g, u, w, k) <= Via(g, u, w, k')
  {
    forall z | z in Via(g, u, w, k) ensures z in Via(g, u, w, k') {
      var p :| InnerPath(g, u, p, w, k) && Word(p, g.eps) == z;
      assert InnerPath(g, u, p, w, k');
    }
  }

  lemma ViaJoins<V(!new)>(g: Graph<V>, u: nat, v: nat, w: nat)
    requires v >= 1
    ensures Cat(Via(g, u, v, v), Via(g, v, w, v)) <= Via(g, u, w, v)
  {
    forall z | z in Cat(Via(g, u, v, v), Via(g, v, w, v)) ensures z in Via(g, u, w, v) {
      var i :| 0 <= i <= |z| && z[..i] in Via(g, u, v, v) && z[i..] in Via(g, v, w, v);
      var p :| InnerPath(g, u, p, v, v) && Word(p, g.eps) == z[..i];
      var q :| InnerPath(g, v, q, w, v) && Word(q, g.eps) == z[i..];
      InnerJoin(g, u, p, v, q, w, v);
      assert z == z[..i] + z[i..];
      assert ViaWord(g, u, w, v, z);
    }
  }

  /** Allowing v as an inner node, when no cycle through smaller nodes is at v. */
  lemma ViaThrough<V(!new)>(g: Graph<V>, u: nat, w: nat, v: nat)
    requires v >= 1 && !Connected(g, v, v, v - 1)
    ensures Via(g, u, w, v) == Via(g, u, w, v - 1) + Cat(Via(g, u, v, v - 1), Via(g, v, w, v - 1))
    ensures Via(g, u, v, v) == Via(g, u, v, v - 1)
  {
    ViaGrows(g, u, w, v - 1, v);
    ViaGrows(g, u, v, v - 1, v);
    ViaGrows(g, v, w, v - 1, v);
    ViaJoins(g, u, v, w);
    CatMonotone(Via(g, u, v, v - 1), Via(g, u, v, v), Via(g, v, w, v - 1), Via(g, v, w, v));
    forall z | z in Via(g, u, v, v) ensures z in Via(g, u, v, v - 1) {
      var p :| InnerPath(g, u, p, v, v) && Word(p, g.eps) == z;
      if !Inner(p, v - 1) {
        InnerVisit(g, u, p, v, v);
        assert false;
      }
      assert InnerPath(g, u, p, v, v - 1);
    }
    forall z | z in Via(g, u, w, v)
      ensures z in Via(g, u, w, v - 1) + Cat(Via(g, u, v, v - 1), Via(g, v, w, v - 1))
    {
      var p :| InnerPath(g, u, p, w, v) && Word(p, g.eps) == z;
      if Inner(p, v - 1) {
        assert InnerPath(g, u, p, w, v - 1);
      } else {
        var i := InnerSplit(g, u, p, w, v);
        WordSplit(p, i, g.eps);
        var x, y := Word(p[..i], g.eps), Word(p[i..], g.eps);
        assert ViaWord(g, u, v, v, x) && ViaWord(g, v, w, v - 1, y);
        assert x in Via(g, u, v, v) && x in Via(g, u, v, v - 1);
        CatHas(Via(g, u, v, v - 1), Via(g, v, w, v - 1), x, y);
      }
    }
  }

  /** Allowing v adds nothing if v cannot be reached, or cannot be left. */
  lemma ViaUseless<V(!new)>(g: Graph<V>, u: nat, w: nat, v: nat)
    requires v >= 1 && (!Connected(g, u, v, v - 1) || (w != v && !Connected(g, v, w, v - 1)))
    ensures Via(g, u, w, v) == Via(g, u, w, v - 1)
  {
    ViaGrows(g, u, w, v - 1, v);
    forall z | z in Via(g, u, w, v) ensures z in Via(g, u, w, v - 1) {
      var p :| InnerPath(g, u, p, w, v) && Word(p, g.eps) == z;
      if !Inner(p, v - 1) {
        InnerVisit(g, u, p, w, v);
      }
      assert InnerPath(g, u, p, w, v - 1);
    }
  }

  lemma CatMonotone<V(!new)>(A: iset<seq<V>>, A': iset<seq<V>>, B: iset<seq<V>>, B': iset<seq<V>>)
    requires A <= A' && B <= B'
    ensures Cat(A, B) <= Cat(A', B')
  {
  }

  lemma {:induction false} PowerMonotone<V(!new)>(A: iset<seq<V>>, A': iset<seq<V>>, k: nat)
    requires A <= A'
    ensures Power(A, k) <= Power(A', k)
  {
    if k > 0 {
      PowerMonotone(A, A', k - 1);
      CatMonotone(Power(A, k - 1), Power(A', k - 1), A, A');
    }
  }

  lemma KleeneMonotone<V(!new)>(A: iset<seq<V>>, A': iset<seq<V>>)
    requires A <= A'
    ensures Kleene(A) <= Kleene(A')
  {
    forall z | z in Kleene(A) ensures z in Kleene(A') {
      var k: nat :| z in Power(A, k);
      PowerMonotone(A, A', k);
    }
  }

  // ---------------------------------------------------------------- ascending and descending paths

  lemma BelowPrefix<V(!new)>(p: seq<Edge<nat, V>>, i: nat, c: nat)
    requires i <= |p| && Below(p, c)
    ensures Below(p[..i], c) && Below(p[i..], c)
  {
    forall j | 0 <= j < |p[i..]| ensures p[i..][j].start < c { assert p[i..][j] == p[i + j]; }
  }

  lemma BelowJoin<V(!new)>(p: seq<Edge<nat, V>>, q: seq<Edge<nat, V>>, c: nat)
    requires Below(p, c) && Below(q, c)
    ensures Below(p + q, c)
  {
    forall j | 0 <= j < |p + q| ensures (p + q)[j].start < c {
      if j >= |p| { assert (p + q)[j] == q[j - |p|]; }
    }
  }

  lemma UpGrows<V(!new)>(g: Graph<V>, a: nat, x: nat, c: nat, c': nat)
    requires c <= c'
    ensures Up(g, a, x, c) <= Up(g, a, x, c')
  {
    forall z | z in Up(g, a, x, c) ensures z in Up(g, a, x, c') {
      var p :| IsPath(g.edges, a, p, x) && Below(p, c) && Word(p, g.eps) == z;
      assert Below(p, c');
    }
  }

  /** The last visit of u splits a path whose starts are at most u. */
  lemma UpSplit<V(!new)>(g: Graph<V>, a: nat, p: seq<Edge<nat, V>>, w: nat, u: nat) returns (i: nat)
    requires u >= 1 && IsPath(g.edges, a, p, w) && Below(p, u + 1) && !Below(p, u)
    ensures i < |p| && IsPath(g.edges, a, p[..i], u) && Below(p[..i], u + 1) && InnerPath(g, u, p[i..], w, u - 1)
  {
    i := LastVisit(p, u, 0, |p|);
    PathSplit(g.edges, a, p, w, i);
    BelowPrefix(p, i, u + 1);
    forall j | 1 <= j < |p[i..]| ensures p[i..][j].start <= u - 1 { assert p[i..][j] == p[i + j]; }
  }

  lemma UpJoin<V(!new)>(g: Graph<V>, a: nat, p: seq<Edge<nat, V>>, u: nat, q: seq<Edge<nat, V>>, w: nat)
    requires u >= 1 && IsPath(g.edges, a, p, u) && Below(p, u + 1) && InnerPath(g, u, q, w, u - 1)
    ensures Word(p, g.eps) + Word(q, g.eps) in Up(g, a, w, u + 1)
  {
    PathJoin(g.edges, a, p, u, q, w);
    WordJoin(p, q, g.eps);
    assert Below(q, u + 1);
    BelowJoin(p, q, u + 1);
    assert UpWord(g, a, w, u + 1, Word(p + q, g.eps));
  }

  lemma UpThrough<V(!new)>(g: Graph<V>, a: nat, u: nat, w: nat)
    requires u >= 1
    ensures Up(g, a, w, u + 1) == Up(g, a, w, u) + Cat(Up(g, a, u, u + 1), Via(g, u, w, u - 1))
  {
    var to, last, all := Up(g, a, u, u + 1), Via(g, u, w, u - 1), Up(g, a, w, u + 1);
    UpGrows(g, a, w, u, u + 1);
    forall z | z in Cat(to, last) ensures z in all {
      var i :| 0 <= i <= |z| && z[..i] in to && z[i..] in last;
      var p :| IsPath(g.edges, a, p, u) && Below(p, u + 1) && Word(p, g.eps) == z[..i];
      var q :| InnerPath(g, u, q, w, u - 1) && Word(q, g.eps) == z[i..];
      UpJoin(g, a, p, u, q, w);
      assert z == z[..i] + z[i..];
    }
    forall z | z in all
      ensures z in Up(g, a, w, u) + Cat(to, last)
    {
      var p :| IsPath(g.edges, a, p, w) && Below(p, u + 1) && Word(p, g.eps) == z;
      if !Below(p, u) {
        var i := UpSplit(g, a, p, w, u);
        WordSplit(p, i, g.eps);
        var x, y := Word(p[..i], g.eps), Word(p[i..], g.eps);
        assert UpWord(g, a, u, u + 1, x) && ViaWord(g, u, w, u - 1, y);
        CatHas(to, last, x, y);
      } else {
        assert UpWord(g, a, w, u, z);
      }
    }
  }

  lemma {:induction false} UpRepeated<V(!new)>(g: Graph<V>, a: nat, u: nat, k: nat)
    requires u >= 1
    ensures Cat(Up(g, a, u, u), Power(Via(g, u, u, u - 1), k)) <= Up(g, a, u, u + 1)
  {
    var A, L := Up(g, a, u, u), Via(g, u, u, u - 1);
    if k == 0 {
      CatEmptyWord(A, Power(L, 0));
      UpGrows(g, a, u, u, u + 1);
    } else {
      UpRepeated(g, a, u, k - 1);
      UpThrough(g, a, u, u);
      CatAssociative(A, Power(L, k - 1), L);
      CatMonotone(Cat(A, Power(L, k - 1)), Up(g, a, u, u + 1), L, L);
    }
  }

  lemma CatAssociative<V(!new)>(A: iset<seq<V>>, B: iset<seq<V>>, C: iset<seq<V>>)
    ensures Cat(A, Cat(B, C)) == Cat(Cat(A, B), C)
  {
    forall z | z in Cat(A, Cat(B, C)) ensures z in Cat(Cat(A, B), C) {
      var i :| 0 <= i <= |z| && z[..i] in A && z[i..] in Cat(B, C);
      var y := z[i..];
      var j :| 0 <= j <= |y| && y[..j] in B && y[j..] in C;
      CatHas(A, B, z[..i], y[..j]);
      CatHas(Cat(A, B), C, z[..i] + y[..j], y[j..]);
      assert z == z[..i] + y[..j] + y[j..];
    }
    forall z | z in Cat(Cat(A, B), C) ensures z in Cat(A, Cat(B, C)) {
      var i :| 0 <= i <= |z| && z[..i] in Cat(A, B) && z[i..] in C;
      var x := z[..i];
      var j :| 0 <= j <= |x| && x[..j] in A && x[j..] in B;
      CatHas(B, C, x[j..], z[i..]);
      CatHas(A, Cat(B, C), x[..j], x[j..] + z[i..]);
      assert z == x[..j] + (x[j..] + z[i..]);
    }
  }

  lemma {:induction false} UpUnrolls<V(!new)>(g: Graph<V>, a: nat, p: seq<Edge<nat, V>>, u: nat)
    requires u >= 1 && IsPath(g.edges, a, p, u) && Below(p, u + 1)
    ensures Word(p, g.eps) in Cat(Up(g, a, u, u), Kleene(Via(g, u, u, u - 1)))
    decreases |p|
  {
    hide Cat, Kleene, Word;
    var A, L := Up(g, a, u, u), Via(g, u, u, u - 1);
    if Below(p, u) {
      assert UpWord(g, a, u, u, Word(p, g.eps));
      KleeneBase(L);
      CatHas(A, Kleene(L), Word(p, g.eps), []);
      assert Word(p, g.eps) + [] == Word(p, g.eps);
    } else {
      var i := UpSplit(g, a, p, u, u);
      UpUnrolls(g, a, p[..i], u);
      WordSplit(p, i, g.eps);
      var z, y := Word(p[..i], g.eps), Word(p[i..], g.eps);
      assert ViaWord(g, u, u, u - 1, y);
      assert z + y in Cat(A, Kleene(L)) by { OneMore(A, L, z, y); }
    }
  }

  lemma OneMore<V(!new)>(A: iset<seq<V>>, L: iset<seq<V>>, z: seq<V>, y: seq<V>)
    requires z in Cat(A, Kleene(L)) && y in L
    ensures z + y in Cat(A, Kleene(L))
  {
    var j :| 0 <= j <= |z| && z[..j] in A && z[j..] in Kleene(L);
    KleeneStep(L, z[j..], y);
    CatHas(A, Kleene(L), z[..j], z[j..] + y);
    assert z + y == z[..j] + (z[j..] + y);
  }

  lemma UpLoops<V(!new)>(g: Graph<V>, a: nat, u: nat)
    requires u >= 1
    ensures Up(g, a, u, u + 1) == Cat(Up(g, a, u, u), Kleene(Via(g, u, u, u - 1)))
  {
    var A, L := Up(g, a, u, u), Via(g, u, u, u - 1);
    forall z | z in Up(g, a, u, u + 1) ensures z in Cat(A, Kleene(L)) {
      var p :| IsPath(g.edges, a, p, u) && Below(p, u + 1) && Word(p, g.eps) == z;
      UpUnrolls(g, a, p, u);
    }
    forall z | z in Cat(A, Kleene(L)) ensures z in Up(g, a, u, u + 1) {
      var i :| 0 <= i <= |z| && z[..i] in A && z[i..] in Kleene(L);
      var k: nat :| z[i..] in Power(L, k);
      UpRepeated(g, a, u, k);
      CatHas(A, Power(L, k), z[..i], z[i..]);
      assert z == z[..i] + z[i..];
    }
  }

  lemma InPathWords<V(!new)>(g: Graph<V>, a: nat, x: nat, p: seq<Edge<nat, V>>)
    requires IsPath(g.edges, a, p, x)
    ensures Word(p, g.eps) in PathWords(g.edges, g.eps, a, x)
  {
    assert PathWord(g.edges, g.eps, a, x, Word(p, g.eps));
  }

  lemma Descends<V(!new)>(p: seq<Edge<nat, V>>, x: nat, c: nat)
    requires c <= x + 1
    ensures DescendsTo(p, x, c)
  {
    if !Below(p, x + 1) {
      var i := LastAbove(p, x, |p|);
      var rest := p[i + 1..];
      assert Below(rest, x + 1) by {
        forall j | 0 <= j < |rest| ensures rest[j].start < x + 1 { assert rest[j] == p[i + 1 + j]; }
      }
    }
  }

  /** Above the bound every path counts. */
  lemma DownAll<V(!new)>(g: Graph<V>, a: nat, x: nat, c: nat)
    requires c <= x + 1
    ensures Down(g, a, x, c) == PathWords(g.edges, g.eps, a, x)
  {
    hide IsPath, Word, DescendsTo;
    forall z | z in PathWords(g.edges, g.eps, a, x) ensures z in Down(g, a, x, c) {
      var p: seq<Edge<nat, V>> :| IsPath(g.edges, a, p, x) && Word(p, g.eps) == z;
      Descends(p, x, c);
      assert DownWord(g, a, x, c, z);
    }
  }

  /** Beyond the nodes only ascending paths count. */
  lemma DownNone<V(!new)>(g: Graph<V>, a: nat, x: nat)
    requires g.Valid()
    ensures Down(g, a, x, g.n + 1) == Up(g, a, x, x + 1)
  {
    var down, up := Down(g, a, x, g.n + 1), Up(g, a, x, x + 1);
    forall z | z in down ensures z in up {
      var p: seq<Edge<nat, V>> :| IsPath(g.edges, a, p, x) && DescendsTo(p, x, g.n + 1) && Word(p, g.eps) == z;
      forall i | 0 <= i < |p| ensures p[i].start <= g.n { EdgesOf(g.edges, a, p, x, i); }
      assert UpWord(g, a, x, x + 1, z);
    }
    forall z | z in up ensures z in down {
      var p: seq<Edge<nat, V>> :| IsPath(g.edges, a, p, x) && Below(p, x + 1) && Word(p, g.eps) == z;
      assert DownWord(g, a, x, g.n + 1, z);
    }
  }

  lemma DownThrough<V(!new)>(g: Graph<V>, a: nat, u: nat, w: nat)
    requires w < u
    ensures Down(g, a, w, u) == Down(g, a, w, u + 1) + Cat(PathWords(g.edges, g.eps, a, u), Via(g, u, w, w))
  {
    hide IsPath, Word;
    forall z | z in Down(g, a, w, u + 1) ensures z in Down(g, a, w, u) {
      var p: seq<Edge<nat, V>> :| IsPath(g.edges, a, p, w) && DescendsTo(p, w, u + 1) && Word(p, g.eps) == z;
      assert DescendsTo(p, w, u);
      assert DownWord(g, a, w, u, z);
    }
    forall z | z in Cat(PathWords(g.edges, g.eps, a, u), Via(g, u, w, w)) ensures z in Down(g, a, w, u) {
      var i :| 0 <= i <= |z| && z[..i] in PathWords(g.edges, g.eps, a, u) && z[i..] in Via(g, u, w, w);
      var p: seq<Edge<nat, V>> :| IsPath(g.edges, a, p, u) && Word(p, g.eps) == z[..i];
      var q :| InnerPath(g, u, q, w, w) && Word(q, g.eps) == z[i..];
      DownJoin(g, a, p, u, q, w);
      assert z == z[..i] + z[i..];
    }
    forall z | z in Down(g, a, w, u)
      ensures z in Down(g, a, w, u + 1) + Cat(PathWords(g.edges, g.eps, a, u), Via(g, u, w, w))
    {
      var p: seq<Edge<nat, V>> :| IsPath(g.edges, a, p, w) && DescendsTo(p, w, u) && Word(p, g.eps) == z;
      if DescendsTo(p, w, u + 1) {
        assert DownWord(g, a, w, u + 1, z);
      } else {
        DownSplit(g, a, p, u, w);
      }
    }
  }

  lemma DownJoin<V(!new)>(g: Graph<V>, a: nat, p: seq<Edge<nat, V>>, u: nat, q: seq<Edge<nat, V>>, w: nat)
    requires w < u && IsPath(g.edges, a, p, u) && InnerPath(g, u, q, w, w)
    ensures Word(p, g.eps) + Word(q, g.eps) in Down(g, a, w, u)
  {
    var pq := p + q;
    PathJoin(g.edges, a, p, u, q, w);
    WordJoin(p, q, g.eps);
    EdgesOf(g.edges, u, q, w, 0);
    assert pq[|p|] == q[0];
    var rest := pq[|p| + 1..];
    assert Below(rest, w + 1) by {
      forall j | 0 <= j < |rest| ensures rest[j].start < w + 1 { assert rest[j] == q[j + 1]; }
    }
    assert DescendsTo(pq, w, u);
    assert DownWord(g, a, w, u, Word(pq, g.eps));
  }

  lemma DownSplit<V(!new)>(g: Graph<V>, a: nat, p: seq<Edge<nat, V>>, u: nat, w: nat)
    requires w < u && IsPath(g.edges, a, p, w) && DescendsTo(p, w, u) && !DescendsTo(p, w, u + 1)
    ensures Word(p, g.eps) in Cat(PathWords(g.edges, g.eps, a, u), Via(g, u, w, w))
  {
    hide Cat, Word;
    var i :| 0 <= i < |p| && p[i].start > w && p[i].start >= u && Below(p[i + 1..], w + 1);
    assert p[i].start == u;
    PathSplit(g.edges, a, p, w, i);
    WordSplit(p, i, g.eps);
    assert InnerPath(g, u, p[i..], w, w) by {
      forall j | 1 <= j < |p[i..]| ensures p[i..][j].start <= w { assert p[i..][j] == p[i + 1..][j - 1]; }
    }
    InPathWords(g, a, u, p[..i]);
    assert ViaWord(g, u, w, w, Word(p[i..], g.eps));
    CatHas(PathWords(g.edges, g.eps, a, u), Via(g, u, w, w), Word(p[..i], g.eps), Word(p[i..], g.eps));
  }
}
