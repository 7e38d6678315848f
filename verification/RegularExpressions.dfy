/** Regular expressions as the path expression computer builds them: the four
    smart constructors, the equality they simplify with, and the language an
    expression denotes. */
module RegularExpressions {

  datatype RegEx<V> =
    | Union(a: RegEx<V>, b: RegEx<V>)
    | Concatenate(a: RegEx<V>, b: RegEx<V>)
    | Star(a: RegEx<V>)
    | Plain(v: V)
    | Epsilon(v: V)
    | EmptySet

  // ---------------------------------------------------------------- languages

  ghost predicate Splits<V(!new)>(A: iset<seq<V>>, B: iset<seq<V>>, z: seq<V>) {
    exists i :: 0 <= i <= |z| && z[..i] in A && z[i..] in B
  }

  ghost function Cat<V(!new)>(A: iset<seq<V>>, B: iset<seq<V>>): iset<seq<V>> {
    iset z | Splits(A, B, z)
  }

  ghost function Power<V(!new)>(A: iset<seq<V>>, k: nat): iset<seq<V>> {
    if k == 0 then iset{[]} else Cat(Power(A, k - 1), A)
  }

  ghost predicate Repeats<V(!new)>(A: iset<seq<V>>, z: seq<V>) {
    exists k: nat :: z in Power(A, k)
  }

  ghost function Kleene<V(!new)>(A: iset<seq<V>>): iset<seq<V>> {
    iset z | Repeats(A, z)
  }

  ghost function Lang<V(!new)>(r: RegEx<V>): iset<seq<V>> {
    match r
    case Union(a, b) => Lang(a) + Lang(b)
    case Concatenate(a, b) => Cat(Lang(a), Lang(b))
    case Star(a) => Kleene(Lang(a))
    case Plain(v) => iset{[v]}
    case Epsilon(_) => iset{[]}
    case EmptySet => iset{}
  }

  /** An expression that denotes nothing is the constant EmptySet. */
  ghost predicate Tidy<V(!new)>(r: RegEx<V>) {
    r.EmptySet? || exists z :: z in Lang(r)
  }

  lemma CatHas<V(!new)>(A: iset<seq<V>>, B: iset<seq<V>>, x: seq<V>, y: seq<V>)
    requires x in A && y in B
    ensures x + y in Cat(A, B)
  {
    var z := x + y;
    assert z[..|x|] == x && z[|x|..] == y;
  }

  lemma InCat<V(!new)>(A: iset<seq<V>>, B: iset<seq<V>>, z: seq<V>)
    ensures z in Cat(A, B) <==> Splits(A, B, z)
  {
  }

  lemma CatEmptyWord<V(!new)>(A: iset<seq<V>>, E: iset<seq<V>>)
    requires E == iset{[]}
    ensures Cat(A, E) == A && Cat(E, A) == A
  {
    hide Splits, Cat;
    forall z ensures z in Cat(A, E) <==> z in A {
      InCat(A, E, z);
      SplitsEmptyWord(A, E, z);
    }
    forall z ensures z in Cat(E, A) <==> z in A {
      InCat(E, A, z);
      SplitsEmptyWord(A, E, z);
    }
  }

  lemma SplitsEmptyWord<V(!new)>(A: iset<seq<V>>, E: iset<seq<V>>, z: seq<V>)
    requires E == iset{[]}
    ensures Splits(A, E, z) <==> z in A
    ensures Splits(E, A, z) <==> z in A
  {
    assert z[..|z|] == z && z[|z|..] == [] && z[..0] == [] && z[0..] == z;
    if Splits(A, E, z) {
      var i :| 0 <= i <= |z| && z[..i] in A && z[i..] in E;
      assert |z[i..]| == 0;
    }
    if Splits(E, A, z) {
      var i :| 0 <= i <= |z| && z[..i] in E && z[i..] in A;
      assert |z[..i]| == 0;
    }
  }

  lemma CatNothing<V(!new)>(A: iset<seq<V>>, N: iset<seq<V>>)
    requires N == iset{}
    ensures Cat(A, N) == N && Cat(N, A) == N
  {
  }

  lemma {:induction false} PowerOfEmptyWord<V(!new)>(E: iset<seq<V>>, k: nat)
    requires E == iset{[]}
    ensures Power(E, k) == E
  {
    hide Cat;
    if k > 0 {
      PowerOfEmptyWord(E, k - 1);
      CatEmptyWord(E, E);
    }
  }

  lemma KleeneOfEmptyWord<V(!new)>(E: iset<seq<V>>)
    requires E == iset{[]}
    ensures Kleene(E) == E
  {
    hide Power;
    KleeneBase(E);
    forall z | z in Kleene(E) ensures z in E {
      var k: nat :| z in Power(E, k);
      PowerOfEmptyWord(E, k);
    }
  }

  lemma KleeneStep<V(!new)>(A: iset<seq<V>>, x: seq<V>, y: seq<V>)
    requires x in Kleene(A) && y in A
    ensures x + y in Kleene(A)
  {
    var k: nat :| x in Power(A, k);
    CatHas(Power(A, k), A, x, y);
    assert Power(A, k + 1) == Cat(Power(A, k), A);
  }

  lemma KleeneBase<V(!new)>(A: iset<seq<V>>)
    ensures [] in Kleene(A)
    ensures A <= Kleene(A)
  {
    assert [] in Power(A, 0);
    forall y | y in A ensures y in Kleene(A) {
      KleeneStep(A, [], y);
      assert [] + y == y;
    }
  }

  // ---------------------------------------------------------------- equals

  /** equals on expressions; that of unions does not look at the order. */
  predicate Same<V(==)>(r: RegEx<V>, s: RegEx<V>) {
    match r
    case Union(a, b) =>
      s.Union? && if Same(a, s.a) then Same(b, s.b) else Same(a, s.b) && Same(b, s.a)
    case Concatenate(a, b) => s.Concatenate? && Same(a, s.a) && Same(b, s.b)
    case Star(a) => s.Star? && Same(a, s.a)
    case Plain(v) => s.Plain? && v == s.v
    case Epsilon(v) => s.Epsilon? && v == s.v
    case EmptySet => s.EmptySet?
  }

  /** Equality up to the order of unions. */
  ghost predicate Matches<V>(r: RegEx<V>, s: RegEx<V>) {
    match r
    case Union(a, b) =>
      s.Union? && ((Matches(a, s.a) && Matches(b, s.b)) || (Matches(a, s.b) && Matches(b, s.a)))
    case Concatenate(a, b) => s.Concatenate? && Matches(a, s.a) && Matches(b, s.b)
    case Star(a) => s.Star? && Matches(a, s.a)
    case Plain(v) => s.Plain? && v == s.v
    case Epsilon(v) => s.Epsilon? && v == s.v
    case EmptySet => s.EmptySet?
  }

  lemma MatchesReflexive<V(!new)>(r: RegEx<V>)
    ensures Matches(r, r)
  {
  }

  lemma MatchesSymmetric<V(!new)>(r: RegEx<V>, s: RegEx<V>)
    requires Matches(r, s)
    ensures Matches(s, r)
  {
  }

  lemma {:induction r} MatchesTransitive<V(!new)>(r: RegEx<V>, s: RegEx<V>, t: RegEx<V>)
    requires Matches(r, s) && Matches(s, t)
    ensures Matches(r, t)
  {
    if r.Union? || r.Concatenate? || r.Star? {
      forall x, y | Matches(r.a, x) && Matches(x, y) ensures Matches(r.a, y) { MatchesTransitive(r.a, x, y); }
    }
    if r.Union? || r.Concatenate? {
      forall x, y | Matches(r.b, x) && Matches(x, y) ensures Matches(r.b, y) { MatchesTransitive(r.b, x, y); }
    }
  }

  /** equals tries the second pairing of two unions only if their first parts
      differ, and decides equality up to the order of unions all the same. */
  lemma {:induction false} SameIsMatching<V(!new)>(r: RegEx<V>, s: RegEx<V>)
    ensures Same(r, s) <==> Matches(r, s)
  {
    match r
    case Union(a, b) =>
      if s.Union? {
        SameIsMatching(a, s.a);
        SameIsMatching(b, s.b);
        SameIsMatching(a, s.b);
        SameIsMatching(b, s.a);
        if Matches(a, s.a) && Matches(a, s.b) && Matches(b, s.a) {
          MatchesSymmetric(a, s.a);
          MatchesTransitive(b, s.a, a);
          MatchesTransitive(b, a, s.b);
        }
      }
    case Concatenate(a, b) =>
      if s.Concatenate? {
        SameIsMatching(a, s.a);
        SameIsMatching(b, s.b);
      }
    case Star(a) =>
      if s.Star? {
        SameIsMatching(a, s.a);
      }
    case Plain(_) =>
    case Epsilon(_) =>
    case EmptySet =>
  }

  /** equals is an equivalence relation. */
  lemma SameEquivalence<V(!new)>(r: RegEx<V>, s: RegEx<V>, t: RegEx<V>)
    ensures Same(r, r)
    ensures Same(r, s) ==> Same(s, r)
    ensures Same(r, s) && Same(s, t) ==> Same(r, t)
  {
    SameIsMatching(r, r);
    SameIsMatching(r, s);
    SameIsMatching(s, r);
    SameIsMatching(s, t);
    SameIsMatching(r, t);
    MatchesReflexive(r);
    if Same(r, s) {
      MatchesSymmetric(r, s);
      if Same(s, t) {
        MatchesTransitive(r, s, t);
      }
    }
  }

  /** Equal expressions denote the same language, so dropping one half of a union
      of equal halves loses nothing. */
  lemma {:induction false} SameLanguage<V(!new)>(r: RegEx<V>, s: RegEx<V>)
    requires Same(r, s)
    ensures Lang(r) == Lang(s)
  {
    match r
    case Union(a, b) =>
      if Same(a, s.a) {
        SameLanguage(a, s.a);
        SameLanguage(b, s.b);
      } else {
        SameLanguage(a, s.b);
        SameLanguage(b, s.a);
      }
    case Concatenate(a, b) =>
      SameLanguage(a, s.a);
      SameLanguage(b, s.b);
    case Star(a) => SameLanguage(a, s.a);
    case Plain(_) =>
    case Epsilon(_) =>
    case EmptySet =>
  }

  // ---------------------------------------------------------------- constructors

  function Simplify<V(==)>(r: RegEx<V>): (s: RegEx<V>) {
    if r.Union? && r.a.EmptySet? then r.b
    else if r.Union? && r.b.EmptySet? then r.a
    else if r.Union? && Same(r.a, r.b) then r.a
    else if r.Concatenate? && r.a.Epsilon? then r.b
    else if r.Concatenate? && (r.b.Epsilon? || r.b.EmptySet?) then r.a
    else if r.Star? && (r.a.EmptySet? || r.a.Epsilon?) then r.a
    else r
  }

  function MakeUnion<V(==)>(a: RegEx<V>, b: RegEx<V>): RegEx<V> {
    if a.EmptySet? then b else if b.EmptySet? then a else Simplify(Union(a, b))
  }

  function MakeConcatenation<V(==)>(a: RegEx<V>, b: RegEx<V>): RegEx<V> {
    if b.EmptySet? then a
    else if a.EmptySet? then a
    else if b.Epsilon? then a
    else if a.Epsilon? then b
    else Simplify(Concatenate(a, b))
  }

  function MakeStar<V(==)>(r: RegEx<V>): RegEx<V> {
    if r.EmptySet? || r.Epsilon? then r else Simplify(Star(r))
  }

  lemma MakeUnionLanguage<V(!new)>(a: RegEx<V>, b: RegEx<V>)
    ensures Lang(MakeUnion(a, b)) == Lang(a) + Lang(b)
    ensures Tidy(a) && Tidy(b) ==> Tidy(MakeUnion(a, b))
  {
    if Same(a, b) {
      SameLanguage(a, b);
    }
    if z :| z in Lang(a) {
      assert z in Lang(MakeUnion(a, b));
    }
  }

  /** Concatenation denotes the concatenations exactly if the second operand is not
      EmptySet or the first denotes nothing anyway: with EmptySet on the right the
      left operand is returned. */
  lemma MakeConcatenationLanguage<V(!new)>(a: RegEx<V>, b: RegEx<V>)
    ensures Lang(MakeConcatenation(a, b)) == Cat(Lang(a), Lang(b)) <==> (!b.EmptySet? || Lang(a) == iset{})
    ensures b.EmptySet? ==> MakeConcatenation(a, b) == a
    ensures Tidy(a) && Tidy(b) ==> Tidy(MakeConcatenation(a, b))
  {
    hide Cat, Splits;
    if b.EmptySet? {
      CatNothing(Lang(a), Lang(b));
    } else if a.EmptySet? {
      CatNothing(Lang(b), Lang(a));
    } else if b.Epsilon? {
      CatEmptyWord(Lang(a), Lang(b));
    } else if a.Epsilon? {
      CatEmptyWord(Lang(b), Lang(a));
    } else if Tidy(a) && Tidy(b) {
      var x, y :| x in Lang(a) && y in Lang(b);
      CatHas(Lang(a), Lang(b), x, y);
    }
  }

  /** Star denotes the repetitions exactly if its operand is not EmptySet: that one
      stays EmptySet and does not become the empty word. */
  lemma MakeStarLanguage<V(!new)>(r: RegEx<V>)
    ensures Lang(MakeStar(r)) == Kleene(Lang(r)) <==> !r.EmptySet?
    ensures MakeStar(r).EmptySet? <==> r.EmptySet?
    ensures Tidy(MakeStar(r))
  {
    hide Kleene;
    KleeneBase(Lang(r));
    KleeneOfEmptyWord<V>(iset{[]});
  }
}
