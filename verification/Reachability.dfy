/** Nonempty-path reachability in a finite graph given by adjacency lists. */
module Reachability {

  type Edges = map<string, seq<string>>

  /** `edges.get(id) ?? []` */
  function Next(g: Edges, id: string): seq<string> {
    if id in g then g[id] else []
  }

  predicate Edge(g: Edges, a: string, b: string) {
    b in Next(g, a)
  }

  predicate Link(g: Edges, p: seq<string>, i: nat)
    requires i < |p| - 1
  {
    Edge(g, p[i], p[i + 1])
  }

  ghost predicate IsPath(g: Edges, p: seq<string>) {
    forall i :: 0 <= i < |p| - 1 ==> Link(g, p, i)
  }

  ghost predicate PathFromTo(g: Edges, p: seq<string>, a: string, b: string) {
    |p| >= 2 && IsPath(g, p) && p[0] == a && p[|p| - 1] == b
  }

  /** Some path with at least one edge leads from a to b. */
  ghost predicate Reaches(g: Edges, a: string, b: string) {
    exists p :: PathFromTo(g, p, a, b)
  }

  ghost predicate Cyclic(g: Edges) {
    exists a :: Reaches(g, a, a)
  }

  /** Every dependency of a node has a strictly smaller rank. */
  ghost predicate Ranked(g: Edges, rank: map<string, nat>) {
    forall a, b :: Edge(g, a, b) ==> a in rank && b in rank && rank[b] < rank[a]
  }

  /** Nodes that can be named by the graph at all. */
  ghost function Nodes(g: Edges): set<string> {
    g.Keys + (set a, b | a in g && b in g[a] :: b)
  }

  lemma EdgeReaches(g: Edges, a: string, b: string)
    requires Edge(g, a, b)
    ensures Reaches(g, a, b)
  {
    assert PathFromTo(g, [a, b], a, b);
  }

  lemma SubPath(g: Edges, p: seq<string>, from: nat, to: nat)
    requires IsPath(g, p) && from <= to <= |p|
    ensures IsPath(g, p[from..to])
  {
    var q := p[from..to];
    forall i | 0 <= i < |q| - 1 ensures Link(g, q, i) {
      assert Link(g, p, from + i);
    }
  }

  lemma ReachesTransitive(g: Edges, a: string, b: string, c: string)
    requires Reaches(g, a, b) && Reaches(g, b, c)
    ensures Reaches(g, a, c)
  {
    var p :| PathFromTo(g, p, a, b);
    var q :| PathFromTo(g, q, b, c);
    var r := p + q[1..];
    forall i | 0 <= i < |r| - 1 ensures Link(g, r, i) {
      if i >= |p| - 1 {
        assert Link(g, q, i - |p| + 1);
      } else {
        assert Link(g, p, i);
      }
    }
    assert PathFromTo(g, r, a, c);
  }

  /** A set closed under edges that holds the successors of a holds all a reaches. */
  lemma ClosedUnderReach(g: Edges, S: set<string>, p: seq<string>, a: string, b: string)
    requires forall x <- Next(g, a) :: x in S
    requires forall x, y :: x in S && Edge(g, x, y) ==> y in S
    requires PathFromTo(g, p, a, b)
    ensures b in S
    decreases |p|
  {
    assert Link(g, p, 0);
    if |p| > 2 {
      SubPath(g, p, 1, |p|);
      assert p[1..|p|] == p[1..];
      ClosedUnderReach(g, S, p[1..], p[1], b);
    }
  }

  lemma PathDescends(g: Edges, rank: map<string, nat>, p: seq<string>, a: string, b: string)
    requires Ranked(g, rank) && PathFromTo(g, p, a, b)
    ensures a in rank && b in rank && rank[b] < rank[a]
    decreases |p|
  {
    assert Link(g, p, 0);
    if |p| > 2 {
      SubPath(g, p, 1, |p|);
      assert p[1..|p|] == p[1..];
      PathDescends(g, rank, p[1..], p[1], b);
    }
  }

  lemma RankedIsAcyclic(g: Edges, rank: map<string, nat>)
    requires Ranked(g, rank)
    ensures !Cyclic(g)
  {
    if Cyclic(g) {
      var a :| Reaches(g, a, a);
      var p :| PathFromTo(g, p, a, a);
      PathDescends(g, rank, p, a, a);
    }
  }

  // The converse: an acyclic graph has a rank function.

  lemma Pigeonhole(p: seq<string>, S: set<string>)
    requires |p| > |S| && forall x <- p :: x in S
    ensures exists i, j :: 0 <= i < j < |p| && p[i] == p[j]
    decreases |p|
  {
    if p[0] in p[1..] {
      var j :| 0 <= j < |p[1..]| && p[1..][j] == p[0];
      assert p[0] == p[j + 1];
    } else {
      Pigeonhole(p[1..], S - {p[0]});
      var i, j :| 0 <= i < j < |p[1..]| && p[1..][i] == p[1..][j];
      assert p[i + 1] == p[j + 1];
    }
  }

  ghost predicate ContinuesIn(g: Edges, S: set<string>, a: string) {
    exists b :: b in S && Edge(g, a, b)
  }

  /** If every node of S has a successor in S, paths inside S are unboundedly long. */
  lemma {:induction false} LongWalk(g: Edges, S: set<string>, start: string, n: nat) returns (p: seq<string>)
    requires start in S && forall a {:trigger ContinuesIn(g, S, a)} :: a in S ==> ContinuesIn(g, S, a)
    ensures |p| == n + 1 && p[0] == start && IsPath(g, p) && forall i :: 0 <= i <= n ==> p[i] in S
    decreases n
  {
    p := [start];
    if n > 0 {
      assert ContinuesIn(g, S, start);
      var b :| b in S && Edge(g, start, b);
      var q := LongWalk(g, S, b, n - 1);
      p := p + q;
      forall i | 0 <= i < |p| - 1 ensures Link(g, p, i) {
        if i > 0 { assert Link(g, q, i - 1); }
      }
    }
  }

  lemma SinkExists(g: Edges, S: set<string>) returns (sink: string)
    requires S != {} && !Cyclic(g)
    ensures sink in S && !ContinuesIn(g, S, sink)
  {
    if forall a {:trigger ContinuesIn(g, S, a)} :: a in S ==> ContinuesIn(g, S, a) {
      var start :| start in S;
      var p := LongWalk(g, S, start, |S|);
      Pigeonhole(p, S);
      var i, j :| 0 <= i < j < |p| && p[i] == p[j];
      SubPath(g, p, i, j + 1);
      assert PathFromTo(g, p[i..j + 1], p[i], p[i]);
      assert Reaches(g, p[i], p[i]);
    }
    sink :| sink in S && !ContinuesIn(g, S, sink);
  }

  lemma RankWithin(g: Edges, S: set<string>) returns (rank: map<string, nat>)
    requires !Cyclic(g)
    ensures rank.Keys == S
    ensures forall a, b :: a in S && b in S && Edge(g, a, b) ==> rank[b] < rank[a]
    decreases |S|
  {
    if S == {} {
      rank := map[];
    } else {
      var a := SinkExists(g, S);
      var above := RankWithin(g, S - {a});
      rank := map x | x in S :: if x == a then 0 else above[x] + 1;
    }
  }

  lemma AcyclicIsRanked(g: Edges)
    requires !Cyclic(g)
    ensures exists rank :: Ranked(g, rank)
  {
    var rank := RankWithin(g, Nodes(g));
    assert Ranked(g, rank);
  }

  /** Turning every edge around turns reachability around. */
  lemma ReverseReaches(g: Edges, r: Edges, a: string, b: string)
    requires forall x, y :: Edge(g, x, y) <==> Edge(r, y, x)
    ensures Reaches(g, a, b) <==> Reaches(r, b, a)
  {
    if Reaches(g, a, b) {
      ReversePath(g, r, a, b);
    }
    if Reaches(r, b, a) {
      ReversePath(r, g, b, a);
    }
  }

  lemma ReversePath(g: Edges, r: Edges, a: string, b: string)
    requires forall x, y :: Edge(g, x, y) ==> Edge(r, y, x)
    requires Reaches(g, a, b)
    ensures Reaches(r, b, a)
  {
    var p :| PathFromTo(g, p, a, b);
    var q := seq(|p|, i requires 0 <= i < |p| => p[|p| - 1 - i]);
    forall i | 0 <= i < |q| - 1 ensures Link(r, q, i) {
      assert Link(g, p, |p| - 2 - i);
    }
    assert PathFromTo(r, q, b, a);
  }
}
