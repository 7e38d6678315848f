/** Reading the expressions from one node to all others off the eliminated table. */
module PathExtraction {
  import opened RegularExpressions
  import opened LabeledGraphs
  import opened PathElimination

  /** An entry (u, w) of the table that is not EmptySet. */
  datatype PathExpression<V> = PathExpression(ex: RegEx<V>, u: nat, w: nat)

  predicate Fits<V>(e: PathExpression<V>, n: nat) {
    1 <= e.u <= n && 1 <= e.w <= n
  }

  function Entry<V>(T: Table<V>, n: nat, u: nat, w: nat): (list: seq<PathExpression<V>>)
    requires Full(T, n) && 1 <= u <= n && 1 <= w <= n
    ensures forall e <- list :: Fits(e, n)
  {
    if T[(u, w)].EmptySet? then [] else [PathExpression(T[(u, w)], u, w)]
  }

  /** The entries (u, w) to (u, n). */
  function UpRow<V>(T: Table<V>, n: nat, u: nat, w: nat): (list: seq<PathExpression<V>>)
    requires Full(T, n) && 1 <= u <= n && 1 <= w <= n + 1
    ensures forall e <- list :: Fits(e, n)
    decreases n + 1 - w
  {
    if w == n + 1 then [] else Entry(T, n, u, w) + UpRow(T, n, u, w + 1)
  }

  /** The rows u to n, each from its diagonal on. */
  function UpRows<V>(T: Table<V>, n: nat, u: nat): (list: seq<PathExpression<V>>)
    requires Full(T, n) && 1 <= u <= n + 1
    ensures forall e <- list :: Fits(e, n)
    decreases n + 1 - u
  {
    if u == n + 1 then [] else UpRow(T, n, u, u) + UpRows(T, n, u + 1)
  }

  /** The entries (u, w) to (u, u - 1). */
  function DownRow<V>(T: Table<V>, n: nat, u: nat, w: nat): (list: seq<PathExpression<V>>)
    requires Full(T, n) && 1 <= w <= u <= n
    ensures forall e <- list :: Fits(e, n)
    decreases u - w
  {
    if w == u then [] else Entry(T, n, u, w) + DownRow(T, n, u, w + 1)
  }

  /** The rows u down to 1, each before its diagonal. */
  function DownRows<V>(T: Table<V>, n: nat, u: nat): (list: seq<PathExpression<V>>)
    requires Full(T, n) && u <= n
    ensures forall e <- list :: Fits(e, n)
    decreases u
  {
    if u == 0 then [] else DownRow(T, n, u, 1) + DownRows(T, n, u - 1)
  }

  function PathSequence<V>(T: Table<V>, n: nat): (list: seq<PathExpression<V>>)
    requires Full(T, n)
    ensures forall e <- list :: Fits(e, n)
  {
    UpRows(T, n, 1) + DownRows(T, n, n)
  }

  lemma SequenceUnfolds<V>(T: Table<V>, n: nat)
    requires Full(T, n)
    ensures PathSequence(T, n) == UpRows(T, n, n + 1) + UpRows(T, n, 1) + DownRows(T, n, n)
    ensures UpRows(T, n, n + 1) == [] && DownRows(T, n, 0) == []
  {
  }

  lemma UpRowsUnfold<V>(T: Table<V>, n: nat, u: nat, list: seq<PathExpression<V>>)
    requires Full(T, n) && 1 <= u <= n
    ensures list + UpRows(T, n, u) == list + UpRow(T, n, u, u) + UpRows(T, n, u + 1)
  {
  }

  lemma DownRowsUnfold<V>(T: Table<V>, n: nat, u: nat, list: seq<PathExpression<V>>)
    requires Full(T, n) && 1 <= u <= n
    ensures list + DownRows(T, n, u) == list + DownRow(T, n, u, 1) + DownRows(T, n, u - 1)
  {
  }

  /** R[x - 1] is the expression from the source to x collected so far. */
  type Row<V> = seq<RegEx<V>>

  function Advanced<V(==)>(R: Row<V>, e: PathExpression<V>): (R': Row<V>)
    requires Fits(e, |R|)
    ensures |R'| == |R|
  {
    var step := MakeConcatenation(R[e.u - 1], e.ex);
    if e.u == e.w then R[e.u - 1 := step] else R[e.w - 1 := MakeUnion(R[e.w - 1], step)]
  }

  function Folded<V(==)>(R: Row<V>, list: seq<PathExpression<V>>): (R': Row<V>)
    requires forall e <- list :: Fits(e, |R|)
    ensures |R'| == |R|
    decreases |list|
  {
    if list == [] then R else Folded(Advanced(R, list[0]), list[1..])
  }

  lemma {:induction false} FoldedJoin<V>(R: Row<V>, l: seq<PathExpression<V>>, l': seq<PathExpression<V>>)
    requires forall e <- l + l' :: Fits(e, |R|)
    ensures (forall e <- l :: Fits(e, |R|)) && (forall e <- l' :: Fits(e, |R|))
    ensures Folded(R, l + l') == Folded(Folded(R, l), l')
    decreases |l|
  {
    assert forall e <- l :: e in l + l';
    assert forall e <- l' :: e in l + l';
    if l == [] {
      assert l + l' == l';
    } else {
      assert (l + l')[1..] == l[1..] + l';
      FoldedJoin(Advanced(R, l[0]), l[1..], l');
    }
  }

  function Start<V>(n: nat, a: nat, eps: V): (R: Row<V>)
    requires 1 <= a <= n
    ensures |R| == n
  {
    seq(n, i => if i == a - 1 then Epsilon(eps) else EmptySet)
  }

  // ---------------------------------------------------------------- one entry

  /** What R[x - 1] stands for in the ascending half, before the entry (u, w). */
  ghost function UpMeaning<V(!new)>(g: Graph<V>, a: nat, x: nat, u: nat, w: nat): iset<seq<V>> {
    Up(g, a, x, if x < u then x + 1 else if x < w then u + 1 else u)
  }

  /** What it stands for in the descending half, before the entry (u, w). */
  ghost function DownMeaning<V(!new)>(g: Graph<V>, a: nat, x: nat, u: nat, w: nat): iset<seq<V>> {
    Down(g, a, x, if x < w then u else u + 1)
  }

  ghost predicate SoundUp<V(!new)>(g: Graph<V>, a: nat, R: Row<V>, u: nat, w: nat) {
    |R| == g.n && forall x :: g.Node(x) ==> Tidy(R[x - 1]) && Lang(R[x - 1]) <= UpMeaning(g, a, x, u, w)
  }

  ghost predicate ExactUp<V(!new)>(g: Graph<V>, a: nat, R: Row<V>, u: nat, w: nat) {
    SoundUp(g, a, R, u, w) && forall x :: g.Node(x) ==> Lang(R[x - 1]) == UpMeaning(g, a, x, u, w)
  }

  ghost predicate SoundDown<V(!new)>(g: Graph<V>, a: nat, R: Row<V>, u: nat, w: nat) {
    |R| == g.n && forall x :: g.Node(x) ==> Tidy(R[x - 1]) && Lang(R[x - 1]) <= DownMeaning(g, a, x, u, w)
  }

  ghost predicate ExactDown<V(!new)>(g: Graph<V>, a: nat, R: Row<V>, u: nat, w: nat) {
    SoundDown(g, a, R, u, w) && forall x :: g.Node(x) ==> Lang(R[x - 1]) == DownMeaning(g, a, x, u, w)
  }

  /** The language a row's entry gets from the entry r of the table. */
  lemma AdvancedLanguage<V(!new)>(R: Row<V>, e: PathExpression<V>, x: nat)
    requires Fits(e, |R|) && Fits(e.(w := x), |R|) && !e.ex.EmptySet?
    ensures Lang(Advanced(R, e)[x - 1]) ==
      if x != e.w then Lang(R[x - 1])
      else if e.u == e.w then Cat(Lang(R[x - 1]), Lang(e.ex))
      else Lang(R[x - 1]) + Cat(Lang(R[e.u - 1]), Lang(e.ex))
    ensures Tidy(R[x - 1]) && Tidy(R[e.u - 1]) && Tidy(e.ex) ==> Tidy(Advanced(R, e)[x - 1])
  {
    hide Lang, Cat;
    MakeConcatenationLanguage(R[e.u - 1], e.ex);
    MakeUnionLanguage(R[x - 1], MakeConcatenation(R[e.u - 1], e.ex));
  }

  /** The same for an entry that may be EmptySet and is then left out. */
  lemma EntryLanguage<V(!new)>(R: Row<V>, T: Table<V>, u: nat, w: nat, x: nat)
    requires Full(T, |R|) && 1 <= u <= |R| && 1 <= w <= |R| && 1 <= x <= |R|
    requires Tidy(R[x - 1]) && Tidy(R[u - 1]) && Tidy(T[(u, w)])
    ensures var R' := Folded(R, Entry(T, |R|, u, w));
      && |R'| == |R| && Tidy(R'[x - 1])
      && Lang(R'[x - 1]) ==
        if x != w then Lang(R[x - 1])
        else if u == w then if T[(u, w)].EmptySet? then Lang(R[x - 1]) else Cat(Lang(R[x - 1]), Lang(T[(u, w)]))
        else Lang(R[x - 1]) + Cat(Lang(R[u - 1]), Lang(T[(u, w)]))
  {
    hide Cat;
    if T[(u, w)].EmptySet? {
      CatNothing(Lang(R[u - 1]), Lang(T[(u, w)]));
    } else {
      var e := PathExpression(T[(u, w)], u, w);
      AdvancedLanguage(R, e, x);
      assert Entry(T, |R|, u, w)[1..] == [];
      assert Folded(R, Entry(T, |R|, u, w)) == Advanced(R, e);
    }
  }

  /** The equations behind the ascending half. */
  lemma UpAdvances<V(!new)>(g: Graph<V>, a: nat, u: nat, w: nat, x: nat)
    requires 1 <= u <= w && 1 <= x
    ensures x != w ==> UpMeaning(g, a, x, u, w + 1) == UpMeaning(g, a, x, u, w)
    ensures x == w && u < w ==>
      UpMeaning(g, a, x, u, w + 1) == UpMeaning(g, a, x, u, w) + Cat(UpMeaning(g, a, u, u, w), Via(g, u, w, u - 1))
    ensures x == w && u == w ==>
      UpMeaning(g, a, x, u, w + 1) == Cat(UpMeaning(g, a, x, u, w), Kleene(Via(g, u, w, u - 1)))
  {
    if x == w && u < w {
      UpThrough(g, a, u, w);
    }
    if x == w && u == w {
      UpLoops(g, a, u);
    }
  }

  lemma PowerOfNothing<V(!new)>(N: iset<seq<V>>, k: nat)
    requires N == iset{}
    ensures Power(N, k) == if k == 0 then iset{[]} else iset{}
  {
    if k > 0 {
      CatNothing(Power(N, k - 1), N);
    }
  }

  lemma KleeneOfNothing<V(!new)>(A: iset<seq<V>>, N: iset<seq<V>>)
    requires N == iset{}
    ensures Cat(A, Kleene(N)) == A
  {
    var K := Kleene(N);
    assert K == iset{[]} by {
      KleeneBase(N);
      forall z | z in K ensures z == [] {
        var k: nat :| z in Power(N, k);
        PowerOfNothing(N, k);
      }
    }
    CatEmptyWord(A, K);
  }

  lemma UpEntryAt<V(!new)>(g: Graph<V>, a: nat, T: Table<V>, R: Row<V>, u: nat, w: nat, x: nat)
    requires g.Node(u) && g.Node(w) && g.Node(x) && u <= w && SoundTable(g, T, g.n + 1) && SoundUp(g, a, R, u, w)
    ensures Full(T, |R|)
    ensures var R' := Folded(R, Entry(T, |R|, u, w));
      && |R'| == |R| && Tidy(R'[x - 1]) && Lang(R'[x - 1]) <= UpMeaning(g, a, x, u, w + 1)
      && (ExactTable(g, T, g.n + 1) && ExactUp(g, a, R, u, w) ==> Lang(R'[x - 1]) == UpMeaning(g, a, x, u, w + 1))
  {
    hide Lang, Cat, Kleene, Via, Up, UpMeaning, Connected;
    EntryLanguage(R, T, u, w, x);
    UpAdvances(g, a, u, w, x);
    if x == w && u < w {
      CatMonotone(Lang(R[u - 1]), UpMeaning(g, a, u, u, w), Lang(T[(u, w)]), Via(g, u, w, u - 1));
    }
    if x == w && u == w {
      var L, Ru, Tu := Via(g, u, u, u - 1), UpMeaning(g, a, u, u, w), T[(u, u)];
      ViaInhabited(g, u, u, u - 1);
      NoWords<V>();
      if Connected(g, u, u, u - 1) {
        CatMonotone(Lang(R[u - 1]), Ru, Lang(Tu), Kleene(L));
        KleeneBase(L);
        CatEmptyWord(Ru, iset{[]});
        CatMonotone(Ru, Ru, iset{[]}, Kleene(L));
        assert ExactTable(g, T, g.n + 1) ==> !Tu.EmptySet?;
      } else {
        KleeneOfNothing(Ru, L);
        assert Tu.EmptySet?;
      }
    }
  }

  // ---------------------------------------------------------------- rows

  /** One entry (u, w) of the ascending half. */
  lemma UpEntry<V(!new)>(g: Graph<V>, a: nat, T: Table<V>, R: Row<V>, u: nat, w: nat)
    requires g.Node(u) && g.Node(w) && u <= w && SoundTable(g, T, g.n + 1) && SoundUp(g, a, R, u, w)
    ensures SoundUp(g, a, Folded(R, Entry(T, g.n, u, w)), u, w + 1)
    ensures ExactTable(g, T, g.n + 1) && ExactUp(g, a, R, u, w) ==>
      ExactUp(g, a, Folded(R, Entry(T, g.n, u, w)), u, w + 1)
  {
    hide UpMeaning, Folded, Lang, Tidy;
    var R' := Folded(R, Entry(T, g.n, u, w));
    forall x | g.Node(x)
      ensures Tidy(R'[x - 1]) && Lang(R'[x - 1]) <= UpMeaning(g, a, x, u, w + 1)
      ensures ExactTable(g, T, g.n + 1) && ExactUp(g, a, R, u, w) ==> Lang(R'[x - 1]) == UpMeaning(g, a, x, u, w + 1)
    {
      UpEntryAt(g, a, T, R, u, w, x);
    }
  }

  lemma {:induction false} UpRowMeans<V(!new)>(g: Graph<V>, a: nat, T: Table<V>, R: Row<V>, u: nat, w: nat)
    requires g.Node(u) && u <= w <= g.n + 1 && SoundTable(g, T, g.n + 1) && SoundUp(g, a, R, u, w)
    ensures SoundUp(g, a, Folded(R, UpRow(T, g.n, u, w)), u, g.n + 1)
    ensures ExactTable(g, T, g.n + 1) && ExactUp(g, a, R, u, w) ==>
      ExactUp(g, a, Folded(R, UpRow(T, g.n, u, w)), u, g.n + 1)
    decreases g.n + 1 - w
  {
    hide UpMeaning, Folded, Lang, Tidy;
    if w <= g.n {
      UpEntry(g, a, T, R, u, w);
      FoldedJoin(R, Entry(T, g.n, u, w), UpRow(T, g.n, u, w + 1));
      UpRowMeans(g, a, T, Folded(R, Entry(T, g.n, u, w)), u, w + 1);
    } else {
      FoldedNone(R);
    }
  }

  lemma FoldedNone<V>(R: Row<V>)
    ensures Folded(R, []) == R
  {
  }

  /** The end of row u is the beginning of row u + 1. */
  lemma UpRowsMeet<V(!new)>(g: Graph<V>, a: nat, R: Row<V>, u: nat)
    requires g.Node(u)
    ensures SoundUp(g, a, R, u, g.n + 1) ==> SoundUp(g, a, R, u + 1, u + 1)
    ensures ExactUp(g, a, R, u, g.n + 1) ==> ExactUp(g, a, R, u + 1, u + 1)
  {
    hide Up, Lang, Tidy;
    assert forall x :: g.Node(x) ==> UpMeaning(g, a, x, u, g.n + 1) == UpMeaning(g, a, x, u + 1, u + 1);
  }

  lemma {:induction false} UpRowsMean<V(!new)>(g: Graph<V>, a: nat, T: Table<V>, R: Row<V>, u: nat)
    requires 1 <= u <= g.n + 1 && SoundTable(g, T, g.n + 1) && SoundUp(g, a, R, u, u)
    ensures SoundUp(g, a, Folded(R, UpRows(T, g.n, u)), g.n + 1, g.n + 1)
    ensures ExactTable(g, T, g.n + 1) && ExactUp(g, a, R, u, u) ==>
      ExactUp(g, a, Folded(R, UpRows(T, g.n, u)), g.n + 1, g.n + 1)
    decreases g.n + 1 - u
  {
    hide Folded, Lang, Tidy, UpMeaning, Meaning, ExactUp, ExactTable;
    if u <= g.n {
      UpRowMeans(g, a, T, R, u, u);
      var R' := Folded(R, UpRow(T, g.n, u, u));
      UpRowsMeet(g, a, R', u);
      FoldedJoin(R, UpRow(T, g.n, u, u), UpRows(T, g.n, u + 1));
      UpRowsMean(g, a, T, R', u + 1);
    } else {
      FoldedNone(R);
    }
  }

  lemma DownAdvances<V(!new)>(g: Graph<V>, a: nat, u: nat, w: nat, x: nat)
    requires 1 <= w < u && 1 <= x
    ensures x != w ==> DownMeaning(g, a, x, u, w + 1) == DownMeaning(g, a, x, u, w)
    ensures x == w ==>
      DownMeaning(g, a, x, u, w + 1) == DownMeaning(g, a, x, u, w) + Cat(DownMeaning(g, a, u, u, w), Via(g, u, w, w))
  {
    if x == w {
      DownAll(g, a, u, u + 1);
      DownThrough(g, a, u, w);
    }
  }

  lemma DownEntryAt<V(!new)>(g: Graph<V>, a: nat, T: Table<V>, R: Row<V>, u: nat, w: nat, x: nat)
    requires g.Node(u) && g.Node(w) && g.Node(x) && w < u && SoundTable(g, T, g.n + 1) && SoundDown(g, a, R, u, w)
    ensures Full(T, |R|)
    ensures var R' := Folded(R, Entry(T, |R|, u, w));
      && |R'| == |R| && Tidy(R'[x - 1]) && Lang(R'[x - 1]) <= DownMeaning(g, a, x, u, w + 1)
      && (ExactTable(g, T, g.n + 1) && ExactDown(g, a, R, u, w) ==> Lang(R'[x - 1]) == DownMeaning(g, a, x, u, w + 1))
  {
    hide Lang, Cat, Kleene, Via, Down, DownMeaning, Connected;
    EntryLanguage(R, T, u, w, x);
    DownAdvances(g, a, u, w, x);
    if x == w {
      CatMonotone(Lang(R[u - 1]), DownMeaning(g, a, u, u, w), Lang(T[(u, w)]), Via(g, u, w, w));
    }
  }

  /** One entry (u, w) of the descending half. */
  lemma DownEntry<V(!new)>(g: Graph<V>, a: nat, T: Table<V>, R: Row<V>, u: nat, w: nat)
    requires g.Node(u) && g.Node(w) && w < u && SoundTable(g, T, g.n + 1) && SoundDown(g, a, R, u, w)
    ensures SoundDown(g, a, Folded(R, Entry(T, g.n, u, w)), u, w + 1)
    ensures ExactTable(g, T, g.n + 1) && ExactDown(g, a, R, u, w) ==>
      ExactDown(g, a, Folded(R, Entry(T, g.n, u, w)), u, w + 1)
  {
    hide DownMeaning, Folded, Lang, Tidy;
    var R' := Folded(R, Entry(T, g.n, u, w));
    forall x | g.Node(x)
      ensures Tidy(R'[x - 1]) && Lang(R'[x - 1]) <= DownMeaning(g, a, x, u, w + 1)
      ensures ExactTable(g, T, g.n + 1) && ExactDown(g, a, R, u, w) ==>
        Lang(R'[x - 1]) == DownMeaning(g, a, x, u, w + 1)
    {
      DownEntryAt(g, a, T, R, u, w, x);
    }
  }

  lemma {:induction false} DownRowMeans<V(!new)>(g: Graph<V>, a: nat, T: Table<V>, R: Row<V>, u: nat, w: nat)
    requires g.Node(u) && 1 <= w <= u && SoundTable(g, T, g.n + 1) && SoundDown(g, a, R, u, w)
    ensures SoundDown(g, a, Folded(R, DownRow(T, g.n, u, w)), u, u)
    ensures ExactTable(g, T, g.n + 1) && ExactDown(g, a, R, u, w) ==>
      ExactDown(g, a, Folded(R, DownRow(T, g.n, u, w)), u, u)
    decreases u - w
  {
    hide DownMeaning, Folded, Lang, Tidy;
    if w < u {
      DownEntry(g, a, T, R, u, w);
      FoldedJoin(R, Entry(T, g.n, u, w), DownRow(T, g.n, u, w + 1));
      DownRowMeans(g, a, T, Folded(R, Entry(T, g.n, u, w)), u, w + 1);
    } else {
      FoldedNone(R);
    }
  }

  /** The end of row u is the beginning of row u - 1. */
  lemma RowsMeet<V(!new)>(g: Graph<V>, a: nat, R: Row<V>, u: nat)
    requires u >= 1
    ensures SoundDown(g, a, R, u, u) ==> SoundDown(g, a, R, u - 1, 1)
    ensures ExactDown(g, a, R, u, u) ==> ExactDown(g, a, R, u - 1, 1)
  {
    hide Down, Lang, Tidy;
    forall x: nat | g.Node(x) ensures DownMeaning(g, a, x, u, u) == DownMeaning(g, a, x, u - 1, 1) {
      if x >= u {
        DownAll(g, a, x, u);
        DownAll(g, a, x, u + 1);
      }
    }
  }

  lemma {:induction false} DownRowsMean<V(!new)>(g: Graph<V>, a: nat, T: Table<V>, R: Row<V>, u: nat)
    requires u <= g.n && SoundTable(g, T, g.n + 1) && SoundDown(g, a, R, u, 1)
    ensures SoundDown(g, a, Folded(R, DownRows(T, g.n, u)), 0, 1)
    ensures ExactTable(g, T, g.n + 1) && ExactDown(g, a, R, u, 1) ==>
      ExactDown(g, a, Folded(R, DownRows(T, g.n, u)), 0, 1)
    decreases u
  {
    hide Folded, Lang, Tidy, Down;
    if u > 0 {
      DownRowMeans(g, a, T, R, u, 1);
      var R' := Folded(R, DownRow(T, g.n, u, 1));
      RowsMeet(g, a, R', u);
      FoldedJoin(R, DownRow(T, g.n, u, 1), DownRows(T, g.n, u - 1));
      DownRowsMean(g, a, T, R', u - 1);
    } else {
      FoldedNone(R);
    }
  }

  /** The descending half begins where the ascending half ends. */
  lemma HalvesMeet<V(!new)>(g: Graph<V>, a: nat, R: Row<V>)
    requires g.Valid()
    ensures SoundUp(g, a, R, g.n + 1, g.n + 1) ==> SoundDown(g, a, R, g.n, 1)
    ensures ExactUp(g, a, R, g.n + 1, g.n + 1) ==> ExactDown(g, a, R, g.n, 1)
  {
    hide Up, Down, Lang, Tidy;
    forall x: nat | g.Node(x) ensures UpMeaning(g, a, x, g.n + 1, g.n + 1) == DownMeaning(g, a, x, g.n, 1) {
      DownNone(g, a, x);
    }
  }

  lemma StartMeans<V(!new)>(g: Graph<V>, a: nat)
    requires g.Node(a)
    ensures ExactUp(g, a, Start(g.n, a, g.eps), 1, 1)
  {
    forall x | g.Node(x)
      ensures Tidy(Start(g.n, a, g.eps)[x - 1]) && Lang(Start(g.n, a, g.eps)[x - 1]) == UpMeaning(g, a, x, 1, 1)
    {
      var up := Up(g, a, x, 1);
      if x == a {
        assert IsPath(g.edges, a, [], x) && Below<V>([], 1) && Word<nat, V>([], g.eps) == [];
        assert UpWord(g, a, x, 1, []);
        assert [] in Lang(Start(g.n, a, g.eps)[x - 1]);
      }
      forall z | z in up ensures z == [] && x == a {
        var p: seq<Edge<nat, V>> :| IsPath(g.edges, a, p, x) && Below(p, 1) && Word(p, g.eps) == z;
      }
    }
  }
}
