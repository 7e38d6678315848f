/** The weight domain of a weighted pushdown system: an idempotent semiring. */
module Semirings {

  /** The operations of a Weight class: getOne(), combineWith and extendWith. */
  datatype Semiring<!W(==, !new)> = Semiring(one: W, combine: (W, W) -> W, extend: (W, W) -> W) {

    /** x is below y when combining x into y changes nothing. */
    predicate Le(x: W, y: W) {
      combine(x, y) == y
    }

    /** The laws about three particular weights. */
    ghost predicate LawsAt(x: W, y: W, z: W) {
      && combine(combine(x, y), z) == combine(x, combine(y, z))
      && combine(x, y) == combine(y, x)
      && combine(x, x) == x
      && extend(extend(x, y), z) == extend(x, extend(y, z))
      && extend(combine(x, y), z) == combine(extend(x, z), extend(y, z))
      && extend(z, combine(x, y)) == combine(extend(z, x), extend(z, y))
    }

    ghost predicate Laws() {
      && (forall x, y, z :: LawsAt(x, y, z))
      && (forall x :: extend(one, x) == x)
      && (forall x :: extend(x, one) == x)
    }

    /** Every weight is above one. */
    ghost predicate OneIsLeast() {
      forall x :: Le(one, x)
    }

    lemma LeTransitive(x: W, y: W, z: W)
      requires Laws() && Le(x, y) && Le(y, z)
      ensures Le(x, z)
    {
      assert LawsAt(x, y, z);
    }

    lemma LeAntisymmetric(x: W, y: W)
      requires Laws() && Le(x, y) && Le(y, x)
      ensures x == y
    {
      assert LawsAt(x, y, x);
    }

    lemma LeReflexive(x: W)
      requires Laws()
      ensures Le(x, x)
    {
      assert LawsAt(x, x, x);
    }

    /** combine is the least upper bound of its arguments. */
    lemma CombineIsJoin(x: W, y: W)
      requires Laws()
      ensures Le(x, combine(x, y)) && Le(y, combine(x, y))
      ensures forall u :: Le(x, u) && Le(y, u) ==> Le(combine(x, y), u)
    {
      assert LawsAt(x, x, y) && LawsAt(y, y, x) && LawsAt(x, y, y);
      forall u | Le(x, u) && Le(y, u)
        ensures Le(combine(x, y), u)
      {
        assert LawsAt(x, y, u);
      }
    }

    lemma ExtendMonotone(x: W, x': W, y: W, y': W)
      requires Laws() && Le(x, x') && Le(y, y')
      ensures Le(extend(x, y), extend(x', y'))
    {
      assert LawsAt(x, x', y) && LawsAt(y, y', x');
      LeTransitive(extend(x, y), extend(x', y), extend(x', y'));
    }

    lemma ExtendDistributes(x: W, y: W, z: W)
      requires Laws()
      ensures extend(combine(x, y), z) == combine(extend(x, z), extend(y, z))
      ensures extend(z, combine(x, y)) == combine(extend(z, x), extend(z, y))
    {
      assert LawsAt(x, y, z);
    }

    lemma ExtendAssociative(x: W, y: W, z: W)
      requires Laws()
      ensures extend(extend(x, y), z) == extend(x, extend(y, z))
    {
      assert LawsAt(x, y, z);
    }
  }
}
