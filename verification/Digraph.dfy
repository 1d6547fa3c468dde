/**
 Finite walks and cycles of a directed graph given by its edge relation.
 */
module Digraph {

  ghost predicate Step<N(!new)>(edge: (N, N) -> bool, p: seq<N>, i: nat) {
    i + 1 < |p| && edge(p[i], p[i + 1])
  }

  ghost predicate Chain<N(!new)>(edge: (N, N) -> bool, p: seq<N>) {
    forall i | 0 <= i < |p| - 1 :: Step(edge, p, i)
  }

  lemma ChainSlice<N(!new)>(edge: (N, N) -> bool, p: seq<N>, lo: nat, hi: nat)
    requires Chain(edge, p) && lo <= hi <= |p|
    ensures Chain(edge, p[lo..hi])
  {
    forall i | 0 <= i < hi - lo - 1 ensures Step(edge, p[lo..hi], i) {
      assert Step(edge, p, lo + i);
    }
  }

  lemma ChainCons<N(!new)>(edge: (N, N) -> bool, x: N, p: seq<N>)
    requires Chain(edge, p) && (p != [] ==> edge(x, p[0]))
    ensures Chain(edge, [x] + p)
  {
    forall i | 0 <= i < |p| ensures Step(edge, [x] + p, i) {
      assert i > 0 ==> Step(edge, p, i - 1);
    }
  }

  ghost predicate Cycle<N(!new)>(edge: (N, N) -> bool, p: seq<N>) {
    |p| >= 2 && Chain(edge, p) && p[0] == p[|p| - 1]
  }

  ghost predicate Cyclic<N(!new)>(edge: (N, N) -> bool) {
    exists p :: Cycle(edge, p)
  }

  /** Pigeonhole: more entries than values means a repeated value. */
  lemma {:induction false} Repeats<N>(p: seq<N>, nodes: set<N>) returns (i: nat, j: nat)
    requires forall x | x in p :: x in nodes
    requires |p| > |nodes|
    ensures i < j < |p| && p[i] == p[j]
  {
    var n := |p| - 1;
    if k :| 0 <= k < n && p[k] == p[n] {
      i, j := k, n;
    } else {
      i, j := Repeats(p[..n], nodes - {p[n]});
    }
  }

  /** A walk longer than the number of nodes runs through a cycle. */
  lemma LongChainCycles<N(!new)>(edge: (N, N) -> bool, p: seq<N>, nodes: set<N>)
    requires Chain(edge, p) && |p| > |nodes|
    requires forall x | x in p :: x in nodes
    ensures Cyclic(edge)
  {
    var i, j := Repeats(p, nodes);
    ChainSlice(edge, p, i, j + 1);
    assert Cycle(edge, p[i..j + 1]);
  }

  /** From a node of a cycle there are walks of every length. */
  lemma {:induction false} CycleUnrolls<N(!new)>(edge: (N, N) -> bool, c: seq<N>, k: nat, n: nat) returns (p: seq<N>)
    requires Cycle(edge, c) && k < |c| - 1 && n > 0
    ensures Chain(edge, p) && |p| == n && p[0] == c[k]
    decreases n
  {
    if n == 1 {
      p := [c[k]];
    } else {
      var q := CycleUnrolls(edge, c, if k + 1 == |c| - 1 then 0 else k + 1, n - 1);
      assert Step(edge, c, k);
      ChainCons(edge, c[k], q);
      p := [c[k]] + q;
    }
  }

  /** A rank that falls along every edge rules out cycles. */
  lemma RankedAcyclic<N(!new)>(edge: (N, N) -> bool, rank: N -> int)
    requires forall a, b | edge(a, b) :: rank(b) < rank(a)
    ensures !Cyclic(edge)
  {
    forall p | Cycle(edge, p) ensures false {
      RankFalls(edge, rank, p, |p| - 1);
    }
  }

  lemma {:induction false} RankFalls<N(!new)>(edge: (N, N) -> bool, rank: N -> int, p: seq<N>, k: nat)
    requires forall a, b | edge(a, b) :: rank(b) < rank(a)
    requires Chain(edge, p) && 0 < k < |p|
    ensures rank(p[k]) < rank(p[0])
  {
    assert Step(edge, p, k - 1);
    if k > 1 {
      RankFalls(edge, rank, p, k - 1);
    }
  }

  ghost predicate Walk<N(!new)>(edge: (N, N) -> bool, a: N, b: N, p: seq<N>) {
    p != [] && Chain(edge, p) && p[0] == a && p[|p| - 1] == b
  }

  ghost predicate Reaches<N(!new)>(edge: (N, N) -> bool, a: N, b: N) {
    exists p :: Walk(edge, a, b, p)
  }

  lemma ReachesExtend<N(!new)>(edge: (N, N) -> bool, a: N, b: N, c: N)
    requires Reaches(edge, a, b) && edge(b, c)
    ensures Reaches(edge, a, c)
    ensures a == c ==> Cyclic(edge)
  {
    var p :| Walk(edge, a, b, p);
    var q := p + [c];
    forall i | 0 <= i < |q| - 1 ensures Step(edge, q, i) {
      assert i < |p| - 1 ==> Step(edge, p, i);
    }
    assert Walk(edge, a, c, q);
    assert a == c ==> Cycle(edge, q);
  }

  lemma ReachesItself<N(!new)>(edge: (N, N) -> bool, a: N)
    ensures Reaches(edge, a, a)
  {
    assert Walk(edge, a, a, [a]);
  }
}
