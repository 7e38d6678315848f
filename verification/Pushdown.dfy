/** Weighted pushdown systems: rules, configurations and runs. */
module Pushdown {
  import opened Semirings

  datatype Option<+T> = None | Some(value: T)

  /** What a rule may mention in place of a stack symbol: a symbol, a Wildcard,
      or an ExclusionWildcard. */
  datatype Pattern<N> = Lit(n: N) | Any | AnyBut(excluded: N)

  datatype Rule<D, N, W> =
    | Normal(s1: D, p1: Pattern<N>, s2: D, p2: Pattern<N>, w: W)
    | Push(s1: D, p1: Pattern<N>, s2: D, l2: N, callSite: Pattern<N>, w: W)
    | Pop(s1: D, l1: N, s2: D, w: W)

  datatype Config<D, N> = Config(state: D, stack: seq<N>)

  /** A left-hand side with any kind of wildcard matches every symbol. */
  predicate Matches<N(==)>(p: Pattern<N>, n: N) {
    p.Lit? ==> p.n == n
  }

  /** A wildcard on the right stands for the symbol that was read. */
  function Resolve<N>(p: Pattern<N>, n: N): N {
    if p.Lit? then p.n else n
  }

  predicate Excludes<N(==)>(p: Pattern<N>, n: N) {
    p.AnyBut? && p.excluded == n
  }

  /** One step of the pushdown system with the given rule, if it is enabled. */
  function Apply<D(==), N(==), W>(r: Rule<D, N, W>, c: Config<D, N>): Option<Config<D, N>> {
    if c.stack == [] || c.state != r.s1 then None
    else
      var n, rest := c.stack[0], c.stack[1..];
      match r
      case Normal(_, p1, s2, p2, _) =>
        if Matches(p1, n) && !Excludes(p2, n) then Some(Config(s2, [Resolve(p2, n)] + rest)) else None
      case Push(_, p1, s2, l2, callSite, _) =>
        if Matches(p1, n) then Some(Config(s2, [l2, Resolve(callSite, n)] + rest)) else None
      case Pop(_, l1, s2, _) =>
        if l1 == n then Some(Config(s2, rest)) else None
  }

  /** The configuration after a run, if every rule of it is enabled in turn. */
  function Exec<D(==), N(==), W>(c: Config<D, N>, rs: seq<Rule<D, N, W>>): Option<Config<D, N>>
    decreases |rs|
  {
    if rs == [] then Some(c)
    else match Apply(rs[0], c)
      case None => None
      case Some(c') => Exec(c', rs[1..])
  }

  /** The weight of a run: its rule weights in order of execution. */
  function RunWeight<D, N, W(!new)>(sr: Semiring<W>, rs: seq<Rule<D, N, W>>): W
    decreases |rs|
  {
    if rs == [] then sr.one else sr.extend(rs[0].w, RunWeight(sr, rs[1..]))
  }

  lemma {:induction false} ExecConcat<D, N, W>(c: Config<D, N>, a: seq<Rule<D, N, W>>, b: seq<Rule<D, N, W>>)
    requires Exec(c, a).Some?
    ensures Exec(c, a + b) == Exec(Exec(c, a).value, b)
    decreases |a|
  {
    if a == [] {
      assert a + b == b;
    } else {
      assert (a + b)[0] == a[0] && (a + b)[1..] == a[1..] + b;
      ExecConcat(Apply(a[0], c).value, a[1..], b);
    }
  }

  lemma {:induction false} RunWeightConcat<D, N, W(!new)>(sr: Semiring<W>, a: seq<Rule<D, N, W>>, b: seq<Rule<D, N, W>>)
    requires sr.Laws()
    ensures RunWeight(sr, a + b) == sr.extend(RunWeight(sr, a), RunWeight(sr, b))
    decreases |a|
  {
    if a == [] {
      assert a + b == b;
    } else {
      assert (a + b)[0] == a[0] && (a + b)[1..] == a[1..] + b;
      RunWeightConcat(sr, a[1..], b);
      sr.ExtendAssociative(a[0].w, RunWeight(sr, a[1..]), RunWeight(sr, b));
    }
  }

  /** A run never looks below the part of the stack it uses. */
  lemma {:induction false} ExecFrame<D, N, W>(c: Config<D, N>, rs: seq<Rule<D, N, W>>, below: seq<N>)
    requires Exec(c, rs).Some?
    ensures Exec(Config(c.state, c.stack + below), rs)
         == Some(Config(Exec(c, rs).value.state, Exec(c, rs).value.stack + below))
    decreases |rs|
  {
    if rs != [] {
      var deep := Config(c.state, c.stack + below);
      var c' := Apply(rs[0], c).value;
      assert deep.stack[0] == c.stack[0] && deep.stack[1..] == c.stack[1..] + below;
      assert Apply(rs[0], deep) == Some(Config(c'.state, c'.stack + below)) by {
        ApplyFrame(rs[0], c, below);
      }
      ExecFrame(c', rs[1..], below);
    }
  }

  lemma ApplyFrame<D, N, W>(r: Rule<D, N, W>, c: Config<D, N>, below: seq<N>)
    requires Apply(r, c).Some?
    ensures Apply(r, Config(c.state, c.stack + below))
         == Some(Config(Apply(r, c).value.state, Apply(r, c).value.stack + below))
  {
    var n, rest := c.stack[0], c.stack[1..];
    assert (c.stack + below)[0] == n && (c.stack + below)[1..] == rest + below;
    match r
    case Normal(_, _, _, p2, _) =>
      assert [Resolve(p2, n)] + (rest + below) == ([Resolve(p2, n)] + rest) + below;
    case Push(_, _, _, l2, callSite, _) =>
      assert [l2, Resolve(callSite, n)] + (rest + below) == ([l2, Resolve(callSite, n)] + rest) + below;
    case Pop(_, _, _, _) =>
  }
}
