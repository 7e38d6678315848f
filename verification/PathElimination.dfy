/** Elimination: what one round of it does to the table, and what the entries of
    the table denote before and after. */
module PathElimination {
  import opened RegularExpressions
  import opened LabeledGraphs

  type Table<V> = map<(nat, nat), RegEx<V>>

  ghost predicate Full<V>(T: Table<V>, n: nat) {
    forall i: nat, j: nat :: (i, j) in T <==> 1 <= i <= n && 1 <= j <= n
  }

  /** The first u' from u on with a non-empty entry into v. */
  function FirstInto<V>(T: Table<V>, n: nat, v: nat, u: nat): (r: nat)
    requires Full(T, n) && 1 <= u <= n + 1 && 1 <= v <= n
    ensures u <= r <= n + 1
    ensures r <= n ==> !T[(r, v)].EmptySet?
    ensures forall u' :: u <= u' < r ==> T[(u', v)].EmptySet?
    decreases n + 1 - u
  {
    if u == n + 1 then u else if !T[(u, v)].EmptySet? then u else FirstInto(T, n, v, u + 1)
  }

  /** The entry (u, v), u > v, after round v. */
  function Entering<V(==)>(T: Table<V>, n: nat, v: nat, u: nat): RegEx<V>
    requires Full(T, n) && 1 <= v < u <= n
  {
    if T[(u, v)].EmptySet? then T[(u, v)] else MakeConcatenation(T[(u, v)], T[(v, v)])
  }

  /** The entry (i, j) after round v: only the first row that reaches v is
      combined with the entries out of v. */
  function Updated<V(==)>(T: Table<V>, n: nat, v: nat, i: nat, j: nat): RegEx<V>
    requires Full(T, n) && 1 <= v <= n && 1 <= i <= n && 1 <= j <= n
  {
    if i == v && j == v then MakeStar(T[(v, v)])
    else if i > v && j == v then Entering(T, n, v, i)
    else if i > v && j > v && i == FirstInto(T, n, v, v + 1) && !T[(v, j)].EmptySet? then
      MakeUnion(T[(i, j)], MakeConcatenation(Entering(T, n, v, i), T[(v, j)]))
    else T[(i, j)]
  }

  function Round<V(==)>(T: Table<V>, n: nat, v: nat): (T': Table<V>)
    requires Full(T, n) && 1 <= v <= n
    ensures Full(T', n)
  {
    map ij | ij in T :: Updated(T, n, v, ij.0, ij.1)
  }

  function Eliminated<V(==)>(T: Table<V>, n: nat, v: nat): (T': Table<V>)
    requires Full(T, n) && 1 <= v <= n + 1
    ensures Full(T', n)
    decreases n + 1 - v
  {
    if v == n + 1 then T else Eliminated(Round(T, n, v), n, v + 1)
  }

  /** Round v on the table B, up to column w of row u. */
  ghost predicate RoundUpTo<V(!new)>(T: Table<V>, B: Table<V>, n: nat, v: nat, u: nat, w: nat)
    requires Full(B, n) && 1 <= v <= n
  {
    && Full(T, n)
    && forall i, j :: 1 <= i <= n && 1 <= j <= n ==>
      T[(i, j)] == if i > v && j >= v && (i > u || (i == u && j >= w)) then B[(i, j)] else Updated(B, n, v, i, j)
  }

  lemma RoundReached<V(!new)>(T: Table<V>, B: Table<V>, n: nat, v: nat)
    requires Full(B, n) && 1 <= v <= n && RoundUpTo(T, B, n, v, n + 1, v)
    ensures T == Round(B, n, v)
  {
    hide Updated;
    var T' := Round(B, n, v);
    forall ij: (nat, nat) ensures ij in T <==> ij in T' {
      assert ij == (ij.0, ij.1);
    }
    forall ij | ij in T ensures T[ij] == T'[ij] {
      assert ij == (ij.0, ij.1);
    }
  }

  // ---------------------------------------------------------------- meaning

  /** The largest inner node on the paths that the entry (i, j), i != j, stands for
      before round v. */
  function Limit(i: nat, j: nat, v: nat): nat
    requires v >= 1
  {
    if i < v && i < j then if i == 0 then 0 else i - 1 else if j < v && j < i then j else v - 1
  }

  /** The language the entry (i, j) stands for before round v. */
  ghost function Meaning<V(!new)>(g: Graph<V>, i: nat, j: nat, v: nat): iset<seq<V>>
    requires v >= 1 && i >= 1
  {
    if i == j && i < v then
      if Connected(g, i, i, i - 1) then Kleene(Via(g, i, i, i - 1)) else iset{}
    else Via(g, i, j, Limit(i, j, v))
  }

  ghost predicate SoundTable<V(!new)>(g: Graph<V>, T: Table<V>, v: nat)
    requires v >= 1
  {
    Full(T, g.n) && forall i, j :: g.Node(i) && g.Node(j) ==> Tidy(T[(i, j)]) && Lang(T[(i, j)]) <= Meaning(g, i, j, v)
  }

  ghost predicate ExactTable<V(!new)>(g: Graph<V>, T: Table<V>, v: nat)
    requires v >= 1
  {
    SoundTable(g, T, v) && forall i, j :: g.Node(i) && g.Node(j) ==> Lang(T[(i, j)]) == Meaning(g, i, j, v)
  }

  /** There is a non-empty path from u to w whose inner nodes are less than v. */
  ghost predicate LeadsTo<V(!new)>(g: Graph<V>, u: nat, w: nat, v: nat)
    requires v >= 1
  {
    Connected(g, u, w, v - 1)
  }

  /** Round v treats v right: if v is reached from a larger node through smaller
      ones, then no cycle through smaller ones is at v, and it is reached so from
      one larger node only or does not lead on to a larger one. */
  ghost predicate TameAt<V(!new)>(g: Graph<V>, v: nat)
    requires v >= 1
  {
    forall u :: v < u <= g.n && LeadsTo(g, u, v, v) ==>
      && !LeadsTo(g, v, v, v)
      && (forall u', w :: v < u' <= g.n && v < w <= g.n && u' != u && LeadsTo(g, u', v, v) ==> !LeadsTo(g, v, w, v))
  }

  ghost predicate Tame<V(!new)>(g: Graph<V>) {
    forall v :: g.Node(v) ==> TameAt(g, v)
  }

  // ---------------------------------------------------------------- rounds

  lemma LimitAdvances(i: nat, j: nat, v: nat)
    requires v >= 1 && i >= 1 && j >= 1
    ensures Limit(i, j, v) <= Limit(i, j, v + 1) <= v
    ensures i <= v && i < j ==> Limit(i, j, v + 1) == Limit(i, j, v) && (i == v ==> Limit(i, j, v) == v - 1)
    ensures j < v && j < i ==> Limit(i, j, v + 1) == Limit(i, j, v)
    ensures i > v && j >= v ==> Limit(i, j, v + 1) == v && Limit(i, j, v) == v - 1
    ensures i == v && j == v ==> Limit(i, j, v) == v - 1
  {
  }

  lemma RoundSoundAt<V(!new)>(g: Graph<V>, T: Table<V>, v: nat, i: nat, j: nat)
    requires g.Node(v) && SoundTable(g, T, v) && g.Node(i) && g.Node(j)
    ensures Tidy(Updated(T, g.n, v, i, j)) && Lang(Updated(T, g.n, v, i, j)) <= Meaning(g, i, j, v + 1)
  {
    hide Cat, Kleene, Via, Connected, Lang;
    LimitAdvances(i, j, v);
    if i == v && j == v {
      MakeStarLanguage(T[(v, v)]);
      KleeneMonotone(Lang(T[(v, v)]), Via(g, v, v, v - 1));
      ViaInhabited(g, v, v, v - 1);
      if T[(v, v)].EmptySet? {
        NoWords<V>();
      }
    } else if i > v && j == v {
      EnteringSound(g, T, v, i);
    } else if i > v && j > v && i == FirstInto(T, g.n, v, v + 1) && !T[(v, j)].EmptySet? {
      EnteringSound(g, T, v, i);
      LimitAdvances(v, j, v);
      var r := MakeConcatenation(Entering(T, g.n, v, i), T[(v, j)]);
      MakeConcatenationLanguage(Entering(T, g.n, v, i), T[(v, j)]);
      MakeUnionLanguage(T[(i, j)], r);
      ViaGrows(g, i, j, v - 1, v);
      ViaGrows(g, v, j, v - 1, v);
      CatMonotone(Lang(Entering(T, g.n, v, i)), Via(g, i, v, v), Lang(T[(v, j)]), Via(g, v, j, v));
      ViaJoins(g, i, v, j);
    } else {
      assert Updated(T, g.n, v, i, j) == T[(i, j)];
      ViaGrows(g, i, j, Limit(i, j, v), Limit(i, j, v + 1));
    }
  }

  lemma NoWords<V(!new)>()
    ensures Lang(RegEx<V>.EmptySet) == iset{}
  {
  }

  lemma EnteringSound<V(!new)>(g: Graph<V>, T: Table<V>, v: nat, u: nat)
    requires 1 <= v < u <= g.n && SoundTable(g, T, v)
    ensures Tidy(Entering(T, g.n, v, u)) && Lang(Entering(T, g.n, v, u)) <= Via(g, u, v, v)
  {
    hide Cat, Kleene, Via, Connected, Lang;
    LimitAdvances(u, v, v);
    LimitAdvances(v, v, v);
    ViaGrows(g, u, v, v - 1, v);
    ViaGrows(g, v, v, v - 1, v);
    MakeConcatenationLanguage(T[(u, v)], T[(v, v)]);
    CatMonotone(Lang(T[(u, v)]), Via(g, u, v, v), Lang(T[(v, v)]), Via(g, v, v, v));
    ViaJoins(g, u, v, v);
  }

  lemma RoundSound<V(!new)>(g: Graph<V>, T: Table<V>, v: nat)
    requires g.Node(v) && SoundTable(g, T, v)
    ensures SoundTable(g, Round(T, g.n, v), v + 1)
  {
    hide Meaning, Lang, Tidy, Updated;
    forall i, j | g.Node(i) && g.Node(j)
      ensures Tidy(Round(T, g.n, v)[(i, j)]) && Lang(Round(T, g.n, v)[(i, j)]) <= Meaning(g, i, j, v + 1)
    {
      RoundSoundAt(g, T, v, i, j);
    }
  }

  /** In an exact table an entry is EmptySet exactly if no path is behind it. */
  lemma ExactEmpty<V(!new)>(g: Graph<V>, T: Table<V>, v: nat, i: nat, j: nat)
    requires g.Node(v) && ExactTable(g, T, v) && g.Node(i) && g.Node(j) && (i >= v || i < j) &&
      (i == v || j >= v || i < j)
    ensures T[(i, j)].EmptySet? <==> !Connected(g, i, j, Limit(i, j, v))
  {
    ViaInhabited(g, i, j, Limit(i, j, v));
  }

  lemma RoundExactAt<V(!new)>(g: Graph<V>, T: Table<V>, v: nat, i: nat, j: nat)
    requires g.Node(v) && ExactTable(g, T, v) && g.Node(i) && g.Node(j) && TameAt(g, v)
    ensures Lang(Updated(T, g.n, v, i, j)) == Meaning(g, i, j, v + 1)
  {
    hide Cat, Kleene, Via, Connected, Lang, TameAt;
    LimitAdvances(i, j, v);
    LimitAdvances(v, v, v);
    ExactEmpty(g, T, v, v, v);
    if i == v && j == v {
      MakeStarLanguage(T[(v, v)]);
      NoWords<V>();
    } else if i > v && j == v {
      EnteringExact(g, T, v, i);
    } else if i > v && j > v {
      EnteringExact(g, T, v, i);
      LimitAdvances(i, v, v);
      LimitAdvances(v, j, v);
      ExactEmpty(g, T, v, i, v);
      ExactEmpty(g, T, v, v, j);
      if T[(i, v)].EmptySet? || T[(v, j)].EmptySet? {
        ViaUseless(g, i, j, v);
      } else {
        FirstIsOnly(g, T, v, i, j);
        MakeConcatenationLanguage(Entering(T, g.n, v, i), T[(v, j)]);
        MakeUnionLanguage(T[(i, j)], MakeConcatenation(Entering(T, g.n, v, i), T[(v, j)]));
        assert !Connected(g, v, v, v - 1) by { TameLoop(g, v, i); }
        ViaThrough(g, i, j, v);
      }
    } else {
      assert Updated(T, g.n, v, i, j) == T[(i, j)];
    }
  }

  lemma TameLoop<V(!new)>(g: Graph<V>, v: nat, u: nat)
    requires 1 <= v < u <= g.n && TameAt(g, v) && Connected(g, u, v, v - 1)
    ensures !Connected(g, v, v, v - 1)
  {
    assert LeadsTo(g, u, v, v);
  }

  lemma FirstIsOnly<V(!new)>(g: Graph<V>, T: Table<V>, v: nat, u: nat, w: nat)
    requires 1 <= v < u <= g.n && ExactTable(g, T, v) && v < w <= g.n && TameAt(g, v)
    requires Connected(g, u, v, v - 1) && Connected(g, v, w, v - 1)
    ensures u == FirstInto(T, g.n, v, v + 1)
  {
    hide Connected, Lang, Meaning;
    ExactEmpty(g, T, v, u, v);
    var f := FirstInto(T, g.n, v, v + 1);
    assert v < f <= u;
    ExactEmpty(g, T, v, f, v);
    assert LeadsTo(g, u, v, v) && LeadsTo(g, f, v, v) && LeadsTo(g, v, w, v);
  }

  lemma EnteringExact<V(!new)>(g: Graph<V>, T: Table<V>, v: nat, u: nat)
    requires 1 <= v < u <= g.n && ExactTable(g, T, v) && TameAt(g, v)
    ensures Lang(Entering(T, g.n, v, u)) == Via(g, u, v, v)
    ensures Connected(g, u, v, v - 1) ==> Via(g, u, v, v) == Via(g, u, v, v - 1)
  {
    hide Cat, Kleene, Via, Connected, Lang, TameAt;
    LimitAdvances(u, v, v);
    ExactEmpty(g, T, v, u, v);
    ExactEmpty(g, T, v, v, v);
    if T[(u, v)].EmptySet? {
      ViaUseless(g, u, v, v);
    } else {
      TameLoop(g, v, u);
      ViaThrough(g, u, v, v);
      MakeConcatenationLanguage(T[(u, v)], T[(v, v)]);
    }
  }

  lemma RoundExact<V(!new)>(g: Graph<V>, T: Table<V>, v: nat)
    requires g.Node(v) && ExactTable(g, T, v) && TameAt(g, v)
    ensures ExactTable(g, Round(T, g.n, v), v + 1)
  {
    hide Meaning, Lang, Tidy, Updated, TameAt;
    RoundSound(g, T, v);
    forall i, j | g.Node(i) && g.Node(j)
      ensures Lang(Round(T, g.n, v)[(i, j)]) == Meaning(g, i, j, v + 1)
    {
      RoundExactAt(g, T, v, i, j);
    }
  }

  /** On every graph the entries stay sound; if the remaining rounds are tame, they
      stay exact. */
  lemma {:induction false} EliminatedMeans<V(!new)>(g: Graph<V>, T: Table<V>, v: nat)
    requires 1 <= v <= g.n + 1 && SoundTable(g, T, v)
    ensures SoundTable(g, Eliminated(T, g.n, v), g.n + 1)
    ensures ExactTable(g, T, v) && Tame(g) ==> ExactTable(g, Eliminated(T, g.n, v), g.n + 1)
    decreases g.n + 1 - v
  {
    hide SoundTable, ExactTable, TameAt;
    if v <= g.n {
      assert Full(T, g.n) by { SoundIsFull(g, T, v); }
      RoundSound(g, T, v);
      if ExactTable(g, T, v) && Tame(g) {
        RoundExact(g, T, v);
      }
      EliminatedMeans(g, Round(T, g.n, v), v + 1);
    }
  }

  lemma SoundIsFull<V(!new)>(g: Graph<V>, T: Table<V>, v: nat)
    requires v >= 1 && SoundTable(g, T, v)
    ensures Full(T, g.n)
  {
  }

  // ---------------------------------------------------------------- what a round gives, tame or not

  lemma CatOfNothing<V(!new)>(A: iset<seq<V>>)
    ensures Cat(A, iset{}) == iset{} && Cat(iset{}, A) == iset{}
  {
  }

  /** u is the first node after v that leads to v, as far as the table says. */
  ghost predicate FirstRow<V(!new)>(T: Table<V>, n: nat, v: nat, u: nat)
    requires Full(T, n) && 1 <= v <= n && u <= n
  {
    v < u && !T[(u, v)].EmptySet? && forall u' :: v < u' < u ==> T[(u', v)].EmptySet?
  }

  lemma FirstRowIsFirst<V(!new)>(T: Table<V>, n: nat, v: nat, u: nat)
    requires Full(T, n) && 1 <= v < u <= n
    ensures u == FirstInto(T, n, v, v + 1) <==> FirstRow(T, n, v, u)
  {
  }

  /** What round v makes of any table: the cycle at v is repeated in its own entry,
      taken once by the entries into v, and by the entries past v in the first row only. */
  lemma RoundLanguages<V(!new)>(T: Table<V>, n: nat, v: nat, u: nat, w: nat)
    requires Full(T, n) && 1 <= v < u <= n && v < w <= n
    ensures var T' := Round(T, n, v);
      && Lang(T'[(v, v)]) == (if T[(v, v)].EmptySet? then iset{} else Kleene(Lang(T[(v, v)])))
      && Lang(T'[(u, v)]) ==
         (if T[(v, v)].EmptySet? then Lang(T[(u, v)]) else Cat(Lang(T[(u, v)]), Lang(T[(v, v)])))
      && Lang(T'[(v, w)]) == Lang(T[(v, w)])
      && Lang(T'[(u, w)]) == Lang(T[(u, w)]) +
         if FirstRow(T, n, v, u) then Cat(Lang(T'[(u, v)]), Lang(T[(v, w)])) else iset{}
  {
    hide Cat, Kleene, Lang;
    NoWords<V>();
    CatOfNothing(Lang(T[(v, v)]));
    MakeStarLanguage(T[(v, v)]);
    MakeConcatenationLanguage(T[(u, v)], T[(v, v)]);
    FirstRowIsFirst(T, n, v, u);
    var r := Entering(T, n, v, u);
    CatOfNothing(Lang(r));
    MakeConcatenationLanguage(r, T[(v, w)]);
    MakeUnionLanguage(T[(u, w)], MakeConcatenation(r, T[(v, w)]));
  }

  /** So from an exact table the entries have, besides what they had, exactly the paths
      that take the cycle at v once, and those past v from the first node that leads
      to v. This is what is left of the paths when the round is not tame. */
  lemma RoundOnExact<V(!new)>(g: Graph<V>, T: Table<V>, v: nat, u: nat, w: nat)
    requires 1 <= v < u <= g.n && v < w <= g.n && ExactTable(g, T, v)
    ensures var T' := Round(T, g.n, v);
      && Lang(T'[(v, v)]) == (if LeadsTo(g, v, v, v) then Kleene(Via(g, v, v, v - 1)) else iset{})
      && Lang(T'[(u, v)]) ==
         (if LeadsTo(g, v, v, v) then Cat(Via(g, u, v, v - 1), Via(g, v, v, v - 1)) else Via(g, u, v, v - 1))
      && Lang(T'[(u, w)]) == Via(g, u, w, v - 1) +
         if LeadsTo(g, u, v, v) && forall u' :: v < u' < u ==> !LeadsTo(g, u', v, v)
         then Cat(Lang(T'[(u, v)]), Via(g, v, w, v - 1)) else iset{}
  {
    hide Cat, Kleene, Lang, Via, Connected;
    LimitAdvances(u, v, v);
    LimitAdvances(v, v, v);
    LimitAdvances(v, w, v);
    LimitAdvances(u, w, v);
    ExactEmpty(g, T, v, v, v);
    ExactEmpty(g, T, v, u, v);
    RoundLanguages(T, g.n, v, u, w);
    forall u' | v < u' < u ensures T[(u', v)].EmptySet? <==> !LeadsTo(g, u', v, v) {
      LimitAdvances(u', v, v);
      ExactEmpty(g, T, v, u', v);
    }
  }

  // ---------------------------------------------------------------- the first table

  lemma OneStep<V(!new)>(g: set<Edge<nat, V>>, i: nat, p: seq<Edge<nat, V>>, j: nat)
    requires |p| == 1
    ensures IsPath(g, i, p, j) <==> p[0] in g && p[0].start == i && p[0].target == j
  {
    assert p[1..] == [];
  }

  /** An edge is a path without inner nodes. */
  lemma OneEdge<V(!new)>(g: Graph<V>, g': Graph<V>, e: Edge<nat, V>, i: nat, j: nat)
    requires g.Valid() && g' == g.(edges := g.edges + {e}) && g'.Valid()
    ensures Via(g', i, j, 0) ==
      if e.start == i && e.target == j then Via(g, i, j, 0) + iset{Word([e], g.eps)} else Via(g, i, j, 0)
  {
    hide Word, IsPath;
    var more, less, matches := Via(g', i, j, 0), Via(g, i, j, 0), e.start == i && e.target == j;
    forall z | z in more
      ensures z in less || (matches && z == Word([e], g.eps))
    {
      var p :| InnerPath(g', i, p, j, 0) && Word(p, g.eps) == z;
      if |p| > 1 {
        EdgesOf(g'.edges, i, p, j, 1);
        assert false;
      }
      OneStep(g'.edges, i, p, j);
      OneStep(g.edges, i, p, j);
      assert p == [p[0]];
      assert p[0] != e ==> InnerPath(g, i, p, j, 0);
    }
    forall z | z in less ensures z in more {
      var p :| InnerPath(g, i, p, j, 0) && Word(p, g.eps) == z;
      EdgesSubset(g.edges, g'.edges, i, p, j);
      assert InnerPath(g', i, p, j, 0);
    }
    if matches {
      OneStep(g'.edges, i, [e], j);
      assert InnerPath(g', i, [e], j, 0);
      assert ViaWord(g', i, j, 0, Word([e], g.eps));
    }
  }

  lemma {:induction false} EdgesSubset<N(!new), V(!new)>(
    g: set<Edge<N, V>>, g': set<Edge<N, V>>, a: N, p: seq<Edge<N, V>>, b: N)
    requires g <= g' && IsPath(g, a, p, b)
    ensures IsPath(g', a, p, b)
    decreases |p|
  {
    if p != [] {
      EdgesSubset(g, g', p[0].target, p[1..], b);
    }
  }

  function EdgeExpression<V(==)>(l: V, eps: V): RegEx<V> {
    if l == eps then Epsilon(l) else Plain(l)
  }

  /** Entering one more edge into the table of the edges seen so far. */
  lemma EdgeEntered<V(!new)>(g: Graph<V>, g': Graph<V>, e: Edge<nat, V>, T: Table<V>)
    requires ExactTable(g, T, 1) && g.Valid() && g' == g.(edges := g.edges + {e}) && g'.Valid()
    ensures ExactTable(g', T[(e.start, e.target) := MakeUnion(EdgeExpression(e.lbl, g.eps), T[(e.start, e.target)])], 1)
  {
    hide Via, Connected;
    var r := EdgeExpression(e.lbl, g.eps);
    var T' := T[(e.start, e.target) := MakeUnion(r, T[(e.start, e.target)])];
    assert e in g'.edges && g.Node(e.start) && g.Node(e.target);
    assert Lang(r) == iset{Word([e], g.eps)} && Tidy(r) by { EdgeLanguage(e, g.eps); }
    MakeUnionLanguage(r, T[(e.start, e.target)]);
    forall i, j | g'.Node(i) && g'.Node(j)
      ensures Tidy(T'[(i, j)]) && Lang(T'[(i, j)]) == Meaning(g', i, j, 1)
    {
      assert g.Node(i) && g.Node(j);
      OneEdge(g, g', e, i, j);
    }
  }

  lemma EdgeLanguage<V(!new)>(e: Edge<nat, V>, eps: V)
    ensures Lang(EdgeExpression(e.lbl, eps)) == iset{Word([e], eps)} && Tidy(EdgeExpression(e.lbl, eps))
  {
    var z := Word([e], eps);
    assert [e][1..] == [];
    assert Word<nat, V>([], eps) == [];
    assert z == if e.lbl == eps then [] else [e.lbl];
    assert z in Lang(EdgeExpression(e.lbl, eps));
  }

  lemma NoEdges<V(!new)>(g: Graph<V>, T: Table<V>)
    requires g.edges == {} && Full(T, g.n) && forall i, j :: g.Node(i) && g.Node(j) ==> T[(i, j)].EmptySet?
    ensures ExactTable(g, T, 1)
  {
    forall i, j | g.Node(i) && g.Node(j)
      ensures Tidy(T[(i, j)]) && Lang(T[(i, j)]) == Meaning(g, i, j, 1)
    {
      ViaInhabited(g, i, j, 0);
    }
  }
}
