/** PathExpressionComputer: regular expressions for the paths of a labelled graph. */
module PathExpressionComputing {
  import opened RegularExpressions
  import opened LabeledGraphs
  import opened PathElimination
  import opened PathExtraction
  import opened PathExpressions

  ghost predicate Numbering<N(!new)>(nodes: set<N>, num: map<N, nat>) {
    && num.Keys == nodes
    && (forall a <- nodes :: 1 <= num[a] <= |nodes|)
    && (forall a <- nodes, b <- nodes :: num[a] == num[b] ==> a == b)
  }

  lemma NumberNone<N(!new)>()
    ensures Numbering<N>({}, map[])
  {
  }

  lemma NumberOneMore<N(!new)>(nodes: set<N>, num: map<N, nat>, node: N)
    requires Numbering(nodes, num) && node !in nodes
    ensures Numbering(nodes + {node}, num[node := |num| + 1])
  {
    assert |num| == |num.Keys|;
  }

  ghost predicate Between<N(!new), V(!new)>(nodes: set<N>, edges: set<Edge<N, V>>) {
    forall e <- edges :: e.start in nodes && e.target in nodes
  }

  ghost function NumberedEdge<N(!new), V(!new)>(num: map<N, nat>, e: Edge<N, V>): Edge<nat, V> {
    Edge(if e.start in num then num[e.start] else 0, e.lbl, if e.target in num then num[e.target] else 0)
  }

  ghost function NumberedGraph<N(!new), V(!new)>(
    nodes: set<N>, edges: set<Edge<N, V>>, eps: V, num: map<N, nat>): Graph<V>
  {
    Graph(set e <- edges :: NumberedEdge(num, e), eps, |nodes|)
  }

  ghost function NumberedPath<N(!new), V(!new)>(num: map<N, nat>, p: seq<Edge<N, V>>): seq<Edge<nat, V>> {
    if p == [] then [] else [NumberedEdge(num, p[0])] + NumberedPath(num, p[1..])
  }

  lemma {:induction false} NumberPath<N(!new), V(!new)>(
    nodes: set<N>, edges: set<Edge<N, V>>, eps: V, num: map<N, nat>, a: N, p: seq<Edge<N, V>>, b: N)
    requires Numbering(nodes, num) && Between(nodes, edges) && a in nodes && IsPath(edges, a, p, b)
    ensures b in nodes && IsPath(NumberedGraph(nodes, edges, eps, num).edges, num[a], NumberedPath(num, p), num[b])
    ensures Word(NumberedPath(num, p), eps) == Word(p, eps)
    decreases |p|
  {
    if p != [] {
      NumberPath(nodes, edges, eps, num, p[0].target, p[1..], b);
      assert NumberedPath(num, p)[1..] == NumberedPath(num, p[1..]);
    }
  }

  lemma {:induction false} NamePath<N(!new), V(!new)>(
    nodes: set<N>, edges: set<Edge<N, V>>, eps: V, num: map<N, nat>, a: N, q: seq<Edge<nat, V>>, b: N)
    returns (p: seq<Edge<N, V>>)
    requires Numbering(nodes, num) && Between(nodes, edges) && a in nodes && b in nodes
    requires IsPath(NumberedGraph(nodes, edges, eps, num).edges, num[a], q, num[b])
    ensures IsPath(edges, a, p, b) && Word(p, eps) == Word(q, eps)
    decreases |q|
  {
    if q == [] {
      p := [];
    } else {
      var e :| e in edges && NumberedEdge(num, e) == q[0];
      var rest := NamePath(nodes, edges, eps, num, e.target, q[1..], b);
      p := [e] + rest;
      assert p[1..] == rest;
    }
  }

  /** Numbering the nodes does not change the words of the paths. */
  lemma SameWords<N(!new), V(!new)>(nodes: set<N>, edges: set<Edge<N, V>>, eps: V, num: map<N, nat>, a: N, b: N)
    requires Numbering(nodes, num) && Between(nodes, edges) && a in nodes && b in nodes
    ensures PathWords(edges, eps, a, b) == PathWords(NumberedGraph(nodes, edges, eps, num).edges, eps, num[a], num[b])
  {
    var g := NumberedGraph(nodes, edges, eps, num);
    var named, numbered := PathWords(edges, eps, a, b), PathWords(g.edges, eps, num[a], num[b]);
    forall z | z in named ensures z in numbered {
      var p :| IsPath(edges, a, p, b) && Word(p, eps) == z;
      NumberPath(nodes, edges, eps, num, a, p, b);
      assert PathWord(g.edges, eps, num[a], num[b], z);
    }
    forall z | z in numbered ensures z in named {
      var q :| IsPath(g.edges, num[a], q, num[b]) && Word(q, eps) == z;
      var p := NamePath(nodes, edges, eps, num, a, q, b);
      assert PathWord(edges, eps, a, b, z);
    }
  }

  lemma NumberedValid<N(!new), V(!new)>(nodes: set<N>, edges: set<Edge<N, V>>, eps: V, num: map<N, nat>)
    requires Numbering(nodes, num) && Between(nodes, edges)
    ensures NumberedGraph(nodes, edges, eps, num).Valid()
  {
  }

  class PathExpressionComputer<N(==, !new), V(==, !new)> {
    const nodes: set<N>
    const edges: set<Edge<N, V>>
    const eps: V
    var nodeToIntMap: map<N, nat>
    var table: Table<V>

    ghost predicate Valid()
      reads this
    {
      && Numbering(nodes, nodeToIntMap) && Between(nodes, edges)
      && forall ij <- table.Keys :: 1 <= ij.0 <= |nodes| && 1 <= ij.1 <= |nodes|
    }

    ghost function Numbered(): Graph<V>
      reads this
    {
      NumberedGraph(nodes, edges, eps, nodeToIntMap)
    }

    constructor (nodes: set<N>, edges: set<Edge<N, V>>, eps: V)
      requires Between(nodes, edges)
      ensures Valid() && this.nodes == nodes && this.edges == edges && this.eps == eps
    {
      this.nodes, this.edges, this.eps := nodes, edges, eps;
      this.table := map[];
      var num := InitNodesToIntMap(nodes);
      this.nodeToIntMap := num;
    }

    static method InitNodesToIntMap(nodes: set<N>) returns (num: map<N, nat>)
      ensures Numbering(nodes, num)
    {
      hide Numbering;
      NumberNone<N>();
      num := map[];
      var todo := nodes;
      assert nodes - todo == {};
      while todo != {}
        invariant todo <= nodes && Numbering(nodes - todo, num)
        decreases todo
      {
        var node :| node in todo;
        NumberOneMore(nodes - todo, num, node);
        assert nodes - (todo - {node}) == nodes - todo + {node};
        num := num[node := |num| + 1];
        todo := todo - {node};
      }
      assert nodes - todo == nodes;
    }

    method EliminateNode(v: nat)
      requires Full(table, |nodes|) && 1 <= v <= |nodes|
      modifies this`table
      ensures table == Round(old(table), |nodes|, v)
    {
      ghost var B := table;
      var n := |nodes|;
      var pvv := table[(v, v)];
      table := table[(v, v) := MakeStar(pvv)];
      var u := v + 1;
      var w := v + 1;
      ghost var first := FirstInto(B, n, v, v + 1);
      while u <= n
        invariant v < u <= n + 1 && w == if first < u then n + 1 else v + 1
        invariant RoundUpTo(table, B, n, v, u, v)
      {
        var puv := table[(u, v)];
        if !puv.EmptySet? {
          puv := MakeConcatenation(puv, pvv);
          table := table[(u, v) := puv];
          assert first <= u;
          assert first == u ==> RoundUpTo(table, B, n, v, u, v + 1);
          while w <= n
            invariant v < w <= n + 1 && (first < u ==> w == n + 1)
            invariant first == u ==> RoundUpTo(table, B, n, v, u, w)
            invariant first < u ==> RoundUpTo(table, B, n, v, u, n + 1)
          {
            var pvw := table[(v, w)];
            if !pvw.EmptySet? {
              var old_puw := table[(u, w)];
              var a := MakeConcatenation(puv, pvw);
              var puw := MakeUnion(old_puw, a);
              table := table[(u, w) := puw];
            }
            w := w + 1;
          }
        } else {
          assert first != u;
        }
        assert RoundUpTo(table, B, n, v, u, n + 1);
        u := u + 1;
      }
      RoundReached(table, B, n, v);
    }

    /** Every entry is made EmptySet, and then the edges are entered. */
    method EnterEdges()
      requires Valid()
      modifies this`table
      ensures Valid() && Full(table, |nodes|) && ExactTable(Numbered(), table, 1)
    {
      hide ExactTable;
      ghost var g := Numbered();
      NumberedValid(nodes, edges, eps, nodeToIntMap);
      InitTable();
      var todo := edges;
      ghost var done := g.(edges := {});
      NoEdges(done, table);
      while todo != {}
        invariant todo <= edges && done == NumberedGraph(nodes, edges - todo, eps, nodeToIntMap)
        invariant Valid() && ExactTable(done, table, 1)
        decreases todo
      {
        var e :| e in todo;
        var head, tail := nodeToIntMap[e.start], nodeToIntMap[e.target];
        EdgeAdded(todo, e);
        ghost var next := NumberedGraph(nodes, edges - (todo - {e}), eps, nodeToIntMap);
        EdgeEntered(done, next, NumberedEdge(nodeToIntMap, e), table);
        ExactIsFull(done, table, 1);
        table := table[(head, tail) := MakeUnion(EdgeExpression(e.lbl, eps), table[(head, tail)])];
        todo := todo - {e};
        done := next;
      }
      assert edges - todo == edges;
      ExactIsFull(g, table, 1);
    }

    method Eliminate() returns (ghost T0: Table<V>)
      requires Valid()
      modifies this`table
      ensures Valid() && Full(table, |nodes|)
      ensures ExactTable(Numbered(), T0, 1) && table == Eliminated(T0, |nodes|, 1)
    {
      hide ExactTable, Round;
      var n := |nodes|;
      EnterEdges();
      T0 := table;
      var v := 1;
      while v <= n
        invariant 1 <= v <= n + 1 && Valid() && Full(table, n)
        invariant Eliminated(table, n, v) == Eliminated(T0, n, 1)
      {
        EliminateNode(v);
        v := v + 1;
      }
    }

    lemma EdgeAdded(todo: set<Edge<N, V>>, e: Edge<N, V>)
      requires Valid() && e in todo && todo <= edges
      ensures var done := NumberedGraph(nodes, edges - todo, eps, nodeToIntMap);
        var next := NumberedGraph(nodes, edges - (todo - {e}), eps, nodeToIntMap);
        done.Valid() && next.Valid() && next == done.(edges := done.edges + {NumberedEdge(nodeToIntMap, e)})
    {
      assert edges - (todo - {e}) == (edges - todo) + {e};
      NumberedValid(nodes, edges - todo, eps, nodeToIntMap);
      NumberedValid(nodes, edges - (todo - {e}), eps, nodeToIntMap);
    }

    method InitTable()
      requires Valid()
      modifies this`table
      ensures Valid() && Full(table, |nodes|)
      ensures forall i, j :: 1 <= i <= |nodes| && 1 <= j <= |nodes| ==> table[(i, j)].EmptySet?
    {
      var n := |nodes|;
      var i := 1;
      while i <= n
        invariant 1 <= i <= n + 1 && Valid()
        invariant forall i', j :: 1 <= i' < i && 1 <= j <= n ==> (i', j) in table && table[(i', j)].EmptySet?
      {
        var j := 1;
        while j <= n
          invariant 1 <= j <= n + 1 && Valid()
          invariant forall i', j' :: 1 <= i' < i && 1 <= j' <= n ==> (i', j') in table && table[(i', j')].EmptySet?
          invariant forall j' :: 1 <= j' < j ==> (i, j') in table && table[(i, j')].EmptySet?
        {
          table := table[(i, j) := EmptySet];
          j := j + 1;
        }
        i := i + 1;
      }
    }

    method AddRow(before: seq<PathExpression<V>>, u: nat, lo: nat, hi: nat) returns (list: seq<PathExpression<V>>)
      requires Full(table, |nodes|) && 1 <= u <= |nodes| && 1 <= lo <= hi <= |nodes| + 1
      ensures hi == |nodes| + 1 ==> list == before + UpRow(table, |nodes|, u, lo)
      ensures hi == u ==> list == before + DownRow(table, |nodes|, u, lo)
    {
      var n := |nodes|;
      list := before;
      var w := lo;
      while w < hi
        invariant lo <= w <= hi
        invariant hi == n + 1 ==> list + UpRow(table, n, u, w) == before + UpRow(table, n, u, lo)
        invariant hi == u ==> list + DownRow(table, n, u, w) == before + DownRow(table, n, u, lo)
      {
        var reg := table[(u, w)];
        if !reg.EmptySet? {
          list := list + [PathExpression(reg, u, w)];
        }
        w := w + 1;
      }
    }

    method ExtractPathSequence() returns (list: seq<PathExpression<V>>)
      requires Full(table, |nodes|)
      ensures list == PathSequence(table, |nodes|)
    {
      hide UpRow, UpRows, DownRow, DownRows, Full;
      var n := |nodes|;
      list := [];
      SequenceUnfolds(table, n);
      var u := 1;
      while u <= n
        invariant 1 <= u <= n + 1 && list + UpRows(table, n, u) == UpRows(table, n, 1)
      {
        UpRowsUnfold(table, n, u, list);
        list := AddRow(list, u, u, n + 1);
        u := u + 1;
      }
      u := n;
      while u > 0
        invariant 0 <= u <= n && list + DownRows(table, n, u) == PathSequence(table, n)
      {
        DownRowsUnfold(table, n, u, list);
        list := AddRow(list, u, 1, u);
        u := u - 1;
      }
    }

    method ComputeAllPathFrom(a: N) returns (regEx: Row<V>, ghost T0: Table<V>)
      requires Valid() && a in nodes
      modifies this`table
      ensures Valid() && ExactTable(Numbered(), T0, 1) && Full(T0, |nodes|)
      ensures regEx == Expressions(T0, |nodes|, nodeToIntMap[a], eps)
    {
      hide Eliminated, ExactTable, UpRows, DownRows;
      T0 := Eliminate();
      ExactIsFull(Numbered(), T0, 1);
      var list := ExtractPathSequence();
      regEx := seq(|nodes|, i => EmptySet);
      regEx := regEx[nodeToIntMap[a] - 1 := Epsilon(eps)];
      assert regEx == Start(|nodes|, nodeToIntMap[a], eps);
      var i := 0;
      while i < |list|
        invariant 0 <= i <= |list| && |regEx| == |nodes|
        invariant Folded(regEx, list[i..]) == Expressions(T0, |nodes|, nodeToIntMap[a], eps)
      {
        var tri := list[i];
        assert list[i..][0] == tri && list[i..][1..] == list[i + 1..];
        assert Fits(tri, |nodes|);
        var inter := MakeConcatenation(regEx[tri.u - 1], tri.ex);
        if tri.u == tri.w {
          regEx := regEx[tri.u - 1 := inter];
        } else {
          regEx := regEx[tri.w - 1 := MakeUnion(regEx[tri.w - 1], inter)];
        }
        i := i + 1;
      }
    }

    /** r is the expression from i to j for some order of entering the edges. */
    ghost predicate ReadOff(r: RegEx<V>, i: nat, j: nat)
      reads this
    {
      && 1 <= i <= |nodes| && 1 <= j <= |nodes|
      && exists T0 :: ExactTable(Numbered(), T0, 1) && Full(T0, |nodes|) && r == Expressions(T0, |nodes|, i, eps)[j - 1]
    }

    /** Every word of the result labels a path from a to b; on a tame graph, and in
        particular if all edges lead to the same or a larger number, the words of
        all paths are in it. */
    method GetExpressionBetween(a: N, b: N) returns (r: RegEx<V>)
      requires Valid() && (a in nodes ==> b in nodes)
      modifies this`table
      ensures Valid()
      ensures a !in nodes ==> r.EmptySet?
      ensures Lang(r) <= PathWords(edges, eps, a, b)
      ensures a in nodes && Tame(Numbered()) ==> Lang(r) == PathWords(edges, eps, a, b)
      ensures a in nodes && (forall e <- edges :: nodeToIntMap[e.start] <= nodeToIntMap[e.target]) ==>
        Lang(r) == PathWords(edges, eps, a, b)
      ensures a in nodes ==> ReadOff(r, nodeToIntMap[a], nodeToIntMap[b])
    {
      hide Lang, ExactTable, Expressions, PathWords, Tame, Full;
      if a !in nodes {
        NoWords<V>();
        return EmptySet;
      }
      var allExpr, T0 := ComputeAllPathFrom(a);
      r := allExpr[nodeToIntMap[b] - 1];
      NumberedDenotes(T0, a, b);
    }

    lemma NumberedDenotes(T0: Table<V>, a: N, b: N)
      requires Valid() && a in nodes && b in nodes && ExactTable(Numbered(), T0, 1) && Full(T0, |nodes|)
      ensures var r := Expressions(T0, |nodes|, nodeToIntMap[a], eps)[nodeToIntMap[b] - 1];
        && Lang(r) <= PathWords(edges, eps, a, b)
        && (Tame(Numbered()) ==> Lang(r) == PathWords(edges, eps, a, b))
        && ((forall e <- edges :: nodeToIntMap[e.start] <= nodeToIntMap[e.target]) ==> Tame(Numbered()))
    {
      hide Lang, ExactTable, Expressions, PathWords, Tame;
      NumberedValid(nodes, edges, eps, nodeToIntMap);
      ExpressionsDenote(Numbered(), T0, nodeToIntMap[a], nodeToIntMap[b]);
      SameWords(nodes, edges, eps, nodeToIntMap, a, b);
      if forall e <- edges :: nodeToIntMap[e.start] <= nodeToIntMap[e.target] {
        ForwardIsTame(Numbered());
      }
    }
  }
}
