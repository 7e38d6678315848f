/** What the expressions read off the eliminated table denote: always words of
    paths, and all of them exactly on the tame graphs. */
module PathExpressions {
  import opened RegularExpressions
  import opened LabeledGraphs
  import opened PathElimination
  import opened PathExtraction

  /** The expressions from a to all nodes, from the table of the edges. */
  function Expressions<V(==)>(T: Table<V>, n: nat, a: nat, eps: V): (R: Row<V>)
    requires Full(T, n) && 1 <= a <= n
    ensures |R| == n
  {
    Folded(Start(n, a, eps), PathSequence(Eliminated(T, n, 1), n))
  }

  lemma ExpressionsAreRows<V(!new)>(g: Graph<V>, T: Table<V>, a: nat)
    requires g.Node(a) && g.Valid() && ExactTable(g, T, 1)
    ensures var T', R := Eliminated(T, g.n, 1), Folded(Start(g.n, a, g.eps), UpRows(Eliminated(T, g.n, 1), g.n, 1));
      && Expressions(T, g.n, a, g.eps) == Folded(R, DownRows(T', g.n, g.n))
      && SoundTable(g, T', g.n + 1) && SoundUp(g, a, R, g.n + 1, g.n + 1) && SoundDown(g, a, R, g.n, 1)
      && (Tame(g) ==> ExactTable(g, T', g.n + 1) && ExactDown(g, a, R, g.n, 1))
  {
    hide Folded, Lang, Tidy, UpMeaning, DownMeaning, TameAt, Meaning;
    EliminatedMeans(g, T, 1);
    StartMeans(g, a);
    var T', R0 := Eliminated(T, g.n, 1), Start(g.n, a, g.eps);
    UpRowsMean(g, a, T', R0, 1);
    FoldedJoin(R0, UpRows(T', g.n, 1), DownRows(T', g.n, g.n));
    HalvesMeet(g, a, Folded(R0, UpRows(T', g.n, 1)));
  }

  /** On every graph each word of the expression from a to b labels a path from a
      to b; on a tame graph the words of all paths are there. */
  lemma ExpressionsDenote<V(!new)>(g: Graph<V>, T: Table<V>, a: nat, b: nat)
    requires g.Node(a) && g.Node(b) && g.Valid() && ExactTable(g, T, 1)
    ensures Lang(Expressions(T, g.n, a, g.eps)[b - 1]) <= PathWords(g.edges, g.eps, a, b)
    ensures Tame(g) ==> Lang(Expressions(T, g.n, a, g.eps)[b - 1]) == PathWords(g.edges, g.eps, a, b)
  {
    hide Folded, Lang, Tidy, Down, Up, TameAt;
    ExpressionsAreRows(g, T, a);
    var T', R := Eliminated(T, g.n, 1), Folded(Start(g.n, a, g.eps), UpRows(Eliminated(T, g.n, 1), g.n, 1));
    DownRowsMean(g, a, T', R, g.n);
    assert DownMeaning(g, a, b, 0, 1) == PathWords(g.edges, g.eps, a, b) by {
      DownAll(g, a, b, 1);
      DownAll(g, a, b, 0);
    }
  }

  // ---------------------------------------------------------------- forward graphs

  ghost predicate Forward<V(!new)>(g: Graph<V>) {
    forall e <- g.edges :: e.start <= e.target
  }

  lemma {:induction false} ForwardPath<V(!new)>(g: Graph<V>, u: nat, p: seq<Edge<nat, V>>, w: nat)
    requires Forward(g) && IsPath(g.edges, u, p, w)
    ensures u <= w
    decreases |p|
  {
    if p != [] {
      ForwardPath(g, p[0].target, p[1..], w);
    }
  }

  /** If every edge leads to the same or a larger number, the graph is tame. */
  lemma ForwardIsTame<V(!new)>(g: Graph<V>)
    requires Forward(g)
    ensures Tame(g)
  {
    forall v: nat, u: nat | g.Node(v) && v < u <= g.n ensures !LeadsTo(g, u, v, v) {
      var k := v - 1;
      if p :| InnerPath(g, u, p, v, k) {
        ForwardPath(g, u, p, v);
      }
    }
  }

  // ---------------------------------------------------------------- other graphs

  /** No two edges have the same label, and no edge has the epsilon label. */
  ghost predicate Distinct<V(!new)>(g: Graph<V>) {
    && (forall e <- g.edges :: e.lbl != g.eps)
    && (forall e <- g.edges, e' <- g.edges :: e.lbl == e'.lbl ==> e == e')
  }

  lemma {:induction false} WordDetermines<V(!new)>(
    g: Graph<V>, a: nat, p: seq<Edge<nat, V>>, b: nat, a': nat, q: seq<Edge<nat, V>>, b': nat)
    requires Distinct(g) && IsPath(g.edges, a, p, b) && IsPath(g.edges, a', q, b') && Word(p, g.eps) == Word(q, g.eps)
    ensures p == q
    decreases |p|
  {
    if p != [] && q != [] {
      assert Word(p, g.eps)[0] == p[0].lbl && Word(q, g.eps)[0] == q[0].lbl;
      assert Word(p, g.eps)[1..] == Word(p[1..], g.eps) && Word(q, g.eps)[1..] == Word(q[1..], g.eps);
      WordDetermines(g, p[0].target, p[1..], b, q[0].target, q[1..], b');
      assert p == [p[0]] + p[1..] && q == [q[0]] + q[1..];
    }
  }

  ghost predicate Avoids<V(!new)>(p: seq<Edge<nat, V>>, k: nat) {
    forall i :: 1 <= i < |p| ==> p[i].start != k
  }

  /** A path word put together from two paths is put together at a visit. */
  lemma Meeting<V(!new)>(
    g: Graph<V>, i: nat, p: seq<Edge<nat, V>>, j: nat, q: seq<Edge<nat, V>>, v: nat, q': seq<Edge<nat, V>>)
    requires Distinct(g) && IsPath(g.edges, i, p, j) && IsPath(g.edges, i, q, v) && IsPath(g.edges, v, q', j)
    requires Word(p, g.eps) == Word(q, g.eps) + Word(q', g.eps)
    ensures p == q + q'
    ensures q != [] && q' != [] ==> !Avoids(p, v)
  {
    PathJoin(g.edges, i, q, v, q', j);
    WordJoin(q, q', g.eps);
    WordDetermines(g, i, p, j, i, q + q', j);
    if q != [] && q' != [] {
      assert p[|q|] == q'[0];
    }
  }

  lemma CatVisits<V(!new)>(
    g: Graph<V>, i: nat, p: seq<Edge<nat, V>>, j: nat, v: nat, k: nat, k': nat, A: iset<seq<V>>, B: iset<seq<V>>)
    requires Distinct(g) && IsPath(g.edges, i, p, j) && A <= Via(g, i, v, k) && B <= Via(g, v, j, k')
    requires Word(p, g.eps) in Cat(A, B)
    ensures !Avoids(p, v)
  {
    var z := Word(p, g.eps);
    var m :| 0 <= m <= |z| && z[..m] in A && z[m..] in B;
    var q :| InnerPath(g, i, q, v, k) && Word(q, g.eps) == z[..m];
    var q' :| InnerPath(g, v, q', j, k') && Word(q', g.eps) == z[m..];
    assert z == z[..m] + z[m..];
    Meeting(g, i, p, j, q, v, q');
  }

  lemma {:induction false} PowerPath<V(!new)>(
    g: Graph<V>, i: nat, c: nat, L: iset<seq<V>>, k: nat, z: seq<V>) returns (q: seq<Edge<nat, V>>)
    requires L <= Via(g, i, i, c) && z in Power(L, k)
    ensures IsPath(g.edges, i, q, i) && Word(q, g.eps) == z && (k > 0 ==> q != [])
    decreases k
  {
    if k == 0 {
      q := [];
    } else {
      var m :| 0 <= m <= |z| && z[..m] in Power(L, k - 1) && z[m..] in L;
      var q0 := PowerPath(g, i, c, L, k - 1, z[..m]);
      var q1 :| InnerPath(g, i, q1, i, c) && Word(q1, g.eps) == z[m..];
      PathJoin(g.edges, i, q0, i, q1, i);
      WordJoin(q0, q1, g.eps);
      assert z == z[..m] + z[m..];
      q := q0 + q1;
    }
  }

  /** A cycle that comes back only at its end is repeated once. */
  lemma StarVisits<V(!new)>(g: Graph<V>, i: nat, p: seq<Edge<nat, V>>, c: nat, L: iset<seq<V>>)
    requires Distinct(g) && p != [] && IsPath(g.edges, i, p, i) && L <= Via(g, i, i, c) && Avoids(p, i)
    requires Word(p, g.eps) in Kleene(L)
    ensures Word(p, g.eps) in L
  {
    var z := Word(p, g.eps);
    var k: nat :| z in Power(L, k);
    assert k > 0;
    var m :| 0 <= m <= |z| && z[..m] in Power(L, k - 1) && z[m..] in L;
    var q := PowerPath(g, i, c, L, k - 1, z[..m]);
    var q' :| InnerPath(g, i, q', i, c) && Word(q', g.eps) == z[m..];
    assert z == z[..m] + z[m..];
    Meeting(g, i, p, i, q, i, q');
    assert q == [];
    assert z[m..] == z;
  }

  /** A non-empty path from i to j with all inner nodes less than both. */
  ghost predicate Low<V(!new)>(g: Graph<V>, i: nat, p: seq<Edge<nat, V>>, j: nat) {
    g.Node(i) && g.Node(j) && InnerPath(g, i, p, j, (if i < j then i else j) - 1)
  }

  ghost predicate Lost<V(!new)>(g: Graph<V>, T: Table<V>, i: nat, p: seq<Edge<nat, V>>, j: nat)
    requires Full(T, g.n)
  {
    Low(g, i, p, j) && Word(p, g.eps) !in Lang(T[(i, j)])
  }

  /** Once lost, a path is not found again by the rounds for nodes it avoids. */
  lemma StaysLost<V(!new)>(g: Graph<V>, T: Table<V>, v: nat, i: nat, p: seq<Edge<nat, V>>, j: nat)
    requires g.Node(v) && SoundTable(g, T, v) && Distinct(g) && Lost(g, T, i, p, j) && Avoids(p, v)
    ensures Lost(g, Round(T, g.n, v), i, p, j)
  {
    hide Lang, Cat, Kleene, Via, Avoids, Word, IsPath;
    var z := Word(p, g.eps);
    LimitAdvances(i, j, v);
    if i == v && j == v {
      MakeStarLanguage(T[(v, v)]);
      if z in Kleene(Lang(T[(v, v)])) {
        StarVisits(g, v, p, v - 1, Lang(T[(v, v)]));
      }
    } else if i > v && j == v {
      if !T[(v, v)].EmptySet? && z in Lang(Entering(T, g.n, v, i)) {
        LimitAdvances(i, v, v);
        MakeConcatenationLanguage(T[(i, v)], T[(v, v)]);
        CatVisits(g, i, p, v, v, v - 1, v - 1, Lang(T[(i, v)]), Lang(T[(v, v)]));
      }
    } else if i > v && j > v && i == FirstInto(T, g.n, v, v + 1) && !T[(v, j)].EmptySet? {
      LimitAdvances(v, j, v);
      EnteringSound(g, T, v, i);
      MakeConcatenationLanguage(Entering(T, g.n, v, i), T[(v, j)]);
      MakeUnionLanguage(T[(i, j)], MakeConcatenation(Entering(T, g.n, v, i), T[(v, j)]));
      if z in Cat(Lang(Entering(T, g.n, v, i)), Lang(T[(v, j)])) {
        CatVisits(g, i, p, j, v, v, v - 1, Lang(Entering(T, g.n, v, i)), Lang(T[(v, j)]));
      }
    }
  }

  lemma {:induction false} LostToTheEnd<V(!new)>(g: Graph<V>, T: Table<V>, v: nat, i: nat, p: seq<Edge<nat, V>>, j: nat)
    requires 1 <= v <= g.n + 1 && SoundTable(g, T, v) && Distinct(g) && Lost(g, T, i, p, j) && Inner(p, v - 1)
    ensures Lost(g, Eliminated(T, g.n, v), i, p, j)
    decreases g.n + 1 - v
  {
    hide Lang, Low, Tidy, Updated;
    if v <= g.n {
      StaysLost(g, T, v, i, p, j);
      RoundSound(g, T, v);
      LostToTheEnd(g, Round(T, g.n, v), v + 1, i, p, j);
    }
  }

  /** Round v concatenates the cycles at v once instead of repeating them. */
  lemma CycleLoses<V(!new)>(g: Graph<V>, T: Table<V>, v: nat, u: nat) returns (p: seq<Edge<nat, V>>)
    requires 1 <= v < u <= g.n && ExactTable(g, T, v) && Distinct(g) && LeadsTo(g, u, v, v) && LeadsTo(g, v, v, v)
    ensures Lost(g, Round(T, g.n, v), u, p, v) && Inner(p, v)
  {
    hide Lang, Cat, Kleene, Via, Word, IsPath;
    p :| InnerPath(g, u, p, v, v - 1);
    ExactEmpty(g, T, v, u, v);
    ExactEmpty(g, T, v, v, v);
    MakeConcatenationLanguage(T[(u, v)], T[(v, v)]);
    if Word(p, g.eps) in Cat(Lang(T[(u, v)]), Lang(T[(v, v)])) {
      CatVisits(g, u, p, v, v, v - 1, v - 1, Lang(T[(u, v)]), Lang(T[(v, v)]));
    }
  }

  /** Round v takes only the first of two nodes on through v. */
  lemma SecondLoses<V(!new)>(g: Graph<V>, T: Table<V>, v: nat, u: nat, w: nat) returns (p: seq<Edge<nat, V>>)
    requires 1 <= v < u <= g.n && v < w <= g.n && ExactTable(g, T, v) && Distinct(g)
    requires u != FirstInto(T, g.n, v, v + 1) && LeadsTo(g, u, v, v) && LeadsTo(g, v, w, v)
    ensures Lost(g, Round(T, g.n, v), u, p, w) && Inner(p, v)
  {
    hide Lang, Cat, Kleene, Word, IsPath;
    var q :| InnerPath(g, u, q, v, v - 1);
    var q' :| InnerPath(g, v, q', w, v - 1);
    assert InnerPath(g, u, q, v, v) && InnerPath(g, v, q', w, v);
    p := q + q';
    InnerJoin(g, u, q, v, q', w, v);
    Meeting(g, u, p, w, q, v, q');
    var z := Word(p, g.eps);
    if z in Via(g, u, w, v - 1) {
      var r :| InnerPath(g, u, r, w, v - 1) && Word(r, g.eps) == z;
      WordDetermines(g, u, p, w, u, r, w);
    }
  }

  /** From the first round that is not tame, some path is lost. */
  lemma {:induction false} SomethingLost<V(!new)>(g: Graph<V>, T: Table<V>, v: nat)
    returns (i: nat, p: seq<Edge<nat, V>>, j: nat)
    requires 1 <= v <= g.n && ExactTable(g, T, v) && Distinct(g) && exists k :: v <= k <= g.n && !TameAt(g, k)
    ensures Lost(g, Eliminated(T, g.n, v), i, p, j)
    decreases g.n - v
  {
    hide ExactTable, SoundTable, TameAt, Lost, Round, Inner;
    ExactIsFull(g, T, v);
    if TameAt(g, v) {
      RoundExact(g, T, v);
      i, p, j := SomethingLost(g, Round(T, g.n, v), v + 1);
    } else {
      i, p, j := RoundLoses(g, T, v);
      RoundSound(g, T, v);
      LostToTheEnd(g, Round(T, g.n, v), v + 1, i, p, j);
    }
  }

  lemma RoundLoses<V(!new)>(g: Graph<V>, T: Table<V>, v: nat) returns (i: nat, p: seq<Edge<nat, V>>, j: nat)
    requires g.Node(v) && ExactTable(g, T, v) && Distinct(g) && !TameAt(g, v)
    ensures Lost(g, Round(T, g.n, v), i, p, j) && Inner(p, v)
  {
    hide LeadsTo, ExactTable, SoundTable, Lost;
    var u :| v < u <= g.n && LeadsTo(g, u, v, v) &&
      !(!LeadsTo(g, v, v, v) && (forall u', w ::
        v < u' <= g.n && v < w <= g.n && u' != u && LeadsTo(g, u', v, v) ==> !LeadsTo(g, v, w, v)));
    i := u;
    if LeadsTo(g, v, v, v) {
      j := v;
      p := CycleLoses(g, T, v, u);
    } else {
      var u', w :| v < u' <= g.n && v < w <= g.n && u' != u && LeadsTo(g, u', v, v) && LeadsTo(g, v, w, v);
      assert Full(T, g.n) by { ExactIsFull(g, T, v); }
      if u == FirstInto(T, g.n, v, v + 1) {
        i := u';
      }
      j := w;
      p := SecondLoses(g, T, v, i, w);
    }
  }

  lemma ExactIsFull<V(!new)>(g: Graph<V>, T: Table<V>, v: nat)
    requires v >= 1 && ExactTable(g, T, v)
    ensures Full(T, g.n) && SoundTable(g, T, v)
  {
  }

  // ---------------------------------------------------------------- lost for good

  lemma TablePath<V(!new)>(g: Graph<V>, T: Table<V>, i: nat, j: nat, z: seq<V>) returns (q: seq<Edge<nat, V>>)
    requires g.Node(i) && g.Node(j) && SoundTable(g, T, g.n + 1) && z in Lang(T[(i, j)])
    ensures IsPath(g.edges, i, q, j) && Word(q, g.eps) == z && (i != j ==> q != [])
  {
    assert z in Meaning(g, i, j, g.n + 1);
    if i == j {
      var k: nat :| z in Power(Via(g, i, i, i - 1), k);
      q := PowerPath(g, i, i - 1, Via(g, i, i, i - 1), k, z);
    } else {
      q :| InnerPath(g, i, q, j, Limit(i, j, g.n + 1)) && Word(q, g.eps) == z;
    }
  }

  /** A lost path does not come back by an entry on the way. */
  lemma EntryKeepsLost<V(!new)>(
    g: Graph<V>, T: Table<V>, R: Row<V>, a: nat, p: seq<Edge<nat, V>>, b: nat, u: nat, w: nat)
    requires SoundTable(g, T, g.n + 1) && Distinct(g) && Lost(g, T, a, p, b) && g.Node(u) && g.Node(w) && |R| == g.n
    requires forall x :: g.Node(x) ==> Tidy(R[x - 1])
    requires Word(p, g.eps) !in Lang(R[b - 1])
    requires if u <= w then SoundUp(g, a, R, u, w) else SoundDown(g, a, R, u, w)
    ensures Word(p, g.eps) !in Lang(Folded(R, Entry(T, g.n, u, w))[b - 1])
  {
    hide Lang, Cat, Kleene, Folded, Tidy, Meaning, SoundTable;
    var z := Word(p, g.eps);
    assert Full(T, |R|) && Tidy(T[(u, w)]) by { TidyEntry(g, T, u, w); }
    EntryLanguage(R, T, u, w, b);
    if w == b {
      NotTogether(g, T, R, a, p, b, u);
    }
  }

  lemma TidyEntry<V(!new)>(g: Graph<V>, T: Table<V>, u: nat, w: nat)
    requires SoundTable(g, T, g.n + 1) && g.Node(u) && g.Node(w)
    ensures Full(T, g.n) && Tidy(T[(u, w)])
  {
  }

  lemma UpPath<V(!new)>(g: Graph<V>, R: Row<V>, a: nat, u: nat, w: nat, z: seq<V>) returns (q: seq<Edge<nat, V>>)
    requires g.Node(u) && |R| == g.n && (if u <= w then SoundUp(g, a, R, u, w) else SoundDown(g, a, R, u, w))
    requires z in Lang(R[u - 1])
    ensures IsPath(g.edges, a, q, u) && Word(q, g.eps) == z && (u <= w && q != [] ==> a <= u)
  {
    if u <= w {
      assert z in UpMeaning(g, a, u, u, w);
      q :| IsPath(g.edges, a, q, u) && Below(q, u + 1) && Word(q, g.eps) == z;
      if q != [] {
        EdgesOf(g.edges, a, q, u, 0);
      }
    } else {
      assert z in DownMeaning(g, a, u, u, w);
      q :| IsPath(g.edges, a, q, u) && DescendsTo(q, u, u + 1) && Word(q, g.eps) == z;
    }
  }

  lemma NotTogether<V(!new)>(g: Graph<V>, T: Table<V>, R: Row<V>, a: nat, p: seq<Edge<nat, V>>, b: nat, u: nat)
    requires SoundTable(g, T, g.n + 1) && Distinct(g) && Lost(g, T, a, p, b) && g.Node(u) && |R| == g.n
    requires Word(p, g.eps) !in Lang(R[b - 1])
    requires if u <= b then SoundUp(g, a, R, u, b) else SoundDown(g, a, R, u, b)
    ensures Full(T, g.n) && Word(p, g.eps) !in Cat(Lang(R[u - 1]), Lang(T[(u, b)]))
  {
    hide Lang, Kleene, Tidy, Meaning, SoundTable, SoundUp, SoundDown;
    TidyEntry(g, T, u, b);
    var z := Word(p, g.eps);
    if z in Cat(Lang(R[u - 1]), Lang(T[(u, b)])) {
      var m :| 0 <= m <= |z| && z[..m] in Lang(R[u - 1]) && z[m..] in Lang(T[(u, b)]);
      WholeWord(z, m);
      var q := UpPath(g, R, a, u, b, z[..m]);
      var q' := TablePath(g, T, u, b, z[m..]);
      Meeting(g, a, p, b, q, u, q');
    }
  }

  lemma WholeWord<V>(z: seq<V>, m: nat)
    requires m <= |z|
    ensures z == z[..m] + z[m..] && (m == 0 ==> z[m..] == z) && (m == |z| ==> z[..m] == z)
  {
  }

  lemma {:induction false} UpRowKeepsLost<V(!new)>(
    g: Graph<V>, T: Table<V>, R: Row<V>, a: nat, p: seq<Edge<nat, V>>, b: nat, u: nat, w: nat)
    requires SoundTable(g, T, g.n + 1) && Distinct(g) && Lost(g, T, a, p, b) && g.Node(u) && u <= w <= g.n + 1
    requires SoundUp(g, a, R, u, w) && Word(p, g.eps) !in Lang(R[b - 1])
    ensures Word(p, g.eps) !in Lang(Folded(R, UpRow(T, g.n, u, w))[b - 1])
    decreases g.n + 1 - w
  {
    hide Lang, Folded, Tidy, UpMeaning, Low, Meaning;
    if w <= g.n {
      var R' := Folded(R, Entry(T, g.n, u, w));
      EntryKeepsLost(g, T, R, a, p, b, u, w);
      UpEntry(g, a, T, R, u, w);
      FoldedJoin(R, Entry(T, g.n, u, w), UpRow(T, g.n, u, w + 1));
      UpRowKeepsLost(g, T, R', a, p, b, u, w + 1);
    } else {
      FoldedNone(R);
    }
  }

  lemma {:induction false} UpRowsKeepLost<V(!new)>(
    g: Graph<V>, T: Table<V>, R: Row<V>, a: nat, p: seq<Edge<nat, V>>, b: nat, u: nat)
    requires SoundTable(g, T, g.n + 1) && Distinct(g) && Lost(g, T, a, p, b) && 1 <= u <= g.n + 1
    requires SoundUp(g, a, R, u, u) && Word(p, g.eps) !in Lang(R[b - 1])
    ensures Word(p, g.eps) !in Lang(Folded(R, UpRows(T, g.n, u))[b - 1])
    decreases g.n + 1 - u
  {
    hide Lang, Folded, Tidy, Low, UpMeaning, Meaning;
    if u <= g.n {
      UpRowKeepsLost(g, T, R, a, p, b, u, u);
      UpRowMeans(g, a, T, R, u, u);
      var R' := Folded(R, UpRow(T, g.n, u, u));
      UpRowsMeet(g, a, R', u);
      FoldedJoin(R, UpRow(T, g.n, u, u), UpRows(T, g.n, u + 1));
      UpRowsKeepLost(g, T, R', a, p, b, u + 1);
    } else {
      FoldedNone(R);
    }
  }

  lemma {:induction false} DownRowKeepsLost<V(!new)>(
    g: Graph<V>, T: Table<V>, R: Row<V>, a: nat, p: seq<Edge<nat, V>>, b: nat, u: nat, w: nat)
    requires SoundTable(g, T, g.n + 1) && Distinct(g) && Lost(g, T, a, p, b) && g.Node(u) && 1 <= w <= u
    requires SoundDown(g, a, R, u, w) && Word(p, g.eps) !in Lang(R[b - 1])
    ensures Word(p, g.eps) !in Lang(Folded(R, DownRow(T, g.n, u, w))[b - 1])
    decreases u - w
  {
    hide Lang, Folded, Tidy, DownMeaning, Low, Meaning;
    if w < u {
      var R' := Folded(R, Entry(T, g.n, u, w));
      EntryKeepsLost(g, T, R, a, p, b, u, w);
      DownEntry(g, a, T, R, u, w);
      FoldedJoin(R, Entry(T, g.n, u, w), DownRow(T, g.n, u, w + 1));
      DownRowKeepsLost(g, T, R', a, p, b, u, w + 1);
    } else {
      FoldedNone(R);
    }
  }

  lemma {:induction false} DownRowsKeepLost<V(!new)>(
    g: Graph<V>, T: Table<V>, R: Row<V>, a: nat, p: seq<Edge<nat, V>>, b: nat, u: nat)
    requires SoundTable(g, T, g.n + 1) && Distinct(g) && Lost(g, T, a, p, b) && u <= g.n
    requires SoundDown(g, a, R, u, 1) && Word(p, g.eps) !in Lang(R[b - 1])
    ensures Word(p, g.eps) !in Lang(Folded(R, DownRows(T, g.n, u))[b - 1])
    decreases u
  {
    hide Lang, Folded, Tidy, Low, DownMeaning, Meaning;
    if u > 0 {
      DownRowKeepsLost(g, T, R, a, p, b, u, 1);
      DownRowMeans(g, a, T, R, u, 1);
      var R' := Folded(R, DownRow(T, g.n, u, 1));
      RowsMeet(g, a, R', u);
      FoldedJoin(R, DownRow(T, g.n, u, 1), DownRows(T, g.n, u - 1));
      DownRowsKeepLost(g, T, R', a, p, b, u - 1);
    } else {
      FoldedNone(R);
    }
  }

  /** A path lost by the elimination is missing in the expression. */
  lemma LostIsMissing<V(!new)>(g: Graph<V>, T: Table<V>, a: nat, p: seq<Edge<nat, V>>, b: nat)
    requires g.Valid() && Distinct(g) && ExactTable(g, T, 1) && Lost(g, Eliminated(T, g.n, 1), a, p, b)
    ensures Word(p, g.eps) in PathWords(g.edges, g.eps, a, b)
    ensures Word(p, g.eps) !in Lang(Expressions(T, g.n, a, g.eps)[b - 1])
  {
    hide Folded, Lang, Tidy, Up, Down, SoundTable, ExactTable, Eliminated;
    ExactIsFull(g, T, 1);
    InPathWords(g, a, b, p);
    ExpressionsAreRows(g, T, a);
    StartMeans(g, a);
    var T', R0 := Eliminated(T, g.n, 1), Start(g.n, a, g.eps);
    assert Word(p, g.eps) !in Lang(R0[b - 1]) by {
      EdgesOf(g.edges, a, p, b, 0);
      StartWords(g, a, b);
    }
    UpRowsKeepLost(g, T', R0, a, p, b, 1);
    DownRowsKeepLost(g, T', Folded(R0, UpRows(T', g.n, 1)), a, p, b, g.n);
  }

  lemma StartWords<V(!new)>(g: Graph<V>, a: nat, b: nat)
    requires g.Node(a) && g.Node(b)
    ensures Lang(Start(g.n, a, g.eps)[b - 1]) <= iset{[]}
  {
  }

  /** On the graphs whose labels tell the edges apart the expressions are exact
      exactly if the graph is tame; otherwise a path is missing. */
  lemma ExactIffTame<V(!new)>(g: Graph<V>, T: Table<V>)
    requires g.Valid() && Distinct(g) && ExactTable(g, T, 1)
    ensures (forall a, b :: g.Node(a) && g.Node(b) ==>
        Lang(Expressions(T, g.n, a, g.eps)[b - 1]) == PathWords(g.edges, g.eps, a, b))
      <==> Tame(g)
  {
    hide Lang, ExactTable, TameAt, Expressions;
    ExactIsFull(g, T, 1);
    if Tame(g) {
      forall a, b | g.Node(a) && g.Node(b)
        ensures Lang(Expressions(T, g.n, a, g.eps)[b - 1]) == PathWords(g.edges, g.eps, a, b)
      {
        ExpressionsDenote(g, T, a, b);
      }
    } else {
      var i, p, j := SomethingLost(g, T, 1);
      LostIsMissing(g, T, i, p, j);
    }
  }

  /** A loop b at node 1 and an edge a back from node 2 to it: not all of the
      expressions of this graph are exact. */
  lemma LoopBehindBackEdge(T: Table<char>)
    returns (a: nat, b: nat)
    requires ExactTable(Graph({Edge(1, 'b', 1), Edge(2, 'a', 1)}, 'e', 2), T, 1)
    ensures 1 <= a <= 2 && 1 <= b <= 2 && Full(T, 2)
    ensures Lang(Expressions(T, 2, a, 'e')[b - 1]) != PathWords({Edge(1, 'b', 1), Edge(2, 'a', 1)}, 'e', a, b)
  {
    hide Lang, ExactTable, Expressions, PathWords;
    var g := Graph({Edge(1, 'b', 1), Edge(2, 'a', 1)}, 'e', 2);
    ExactIsFull(g, T, 1);
    assert !Tame(g) by {
      OneStep(g.edges, 1, [Edge(1, 'b', 1)], 1);
      OneStep(g.edges, 2, [Edge(2, 'a', 1)], 1);
      assert InnerPath(g, 1, [Edge(1, 'b', 1)], 1, 0) && InnerPath(g, 2, [Edge(2, 'a', 1)], 1, 0);
      assert LeadsTo(g, 2, 1, 1) && LeadsTo(g, 1, 1, 1);
      assert !TameAt(g, 1);
    }
    ExactIffTame(g, T);
    a, b :| g.Node(a) && g.Node(b) && Lang(Expressions(T, g.n, a, g.eps)[b - 1]) != PathWords(g.edges, g.eps, a, b);
  }
}
