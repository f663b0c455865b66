/**
 Walks, reachability and acyclicity over a finite set of directed edges. Shared by
 the container's wait graph, the migration graph and the publication order: how
 walks compose, when an edge closes a cycle, that an acyclic graph has a sink, and
 that a rank which falls along every edge, or reversing every edge, keeps a graph
 free of cycles.
 */
module Paths {

  type Node = nat
  type Edge = (Node, Node)

  predicate IsWalk(edges: set<Edge>, p: seq<Node>) {
    && |p| > 0
    && forall i :: 0 <= i < |p| - 1 ==> (p[i], p[i + 1]) in edges
  }

  predicate WalkFromTo(edges: set<Edge>, p: seq<Node>, a: Node, b: Node) {
    IsWalk(edges, p) && p[0] == a && p[|p| - 1] == b
  }

  /** b is a or lies downstream of a. */
  ghost predicate Reaches(edges: set<Edge>, a: Node, b: Node) {
    exists p :: WalkFromTo(edges, p, a, b)
  }

  /** A closed walk that takes at least one edge. */
  predicate IsCycle(edges: set<Edge>, p: seq<Node>) {
    IsWalk(edges, p) && |p| >= 2 && p[0] == p[|p| - 1]
  }

  ghost predicate Acyclic(edges: set<Edge>) {
    forall p :: !IsCycle(edges, p)
  }

  function Smallest(s: set<Node>): (least: Node)
    requires s != {}
    ensures least in s && forall x :: x in s ==> least <= x
  {
    LeastExists(s);
    var least :| least in s && forall x :: x in s ==> least <= x;
    least
  }

  lemma LeastExists(s: set<Node>)
    requires s != {}
    ensures exists least :: least in s && forall x :: x in s ==> least <= x
  {
    var x :| x in s;
    if s != {x} {
      LeastExists(s - {x});
      var y :| y in s - {x} && forall z :: z in s - {x} ==> y <= z;
      LesserIsLeast(s, x, y);
    }
  }

  lemma LesserIsLeast(s: set<Node>, x: Node, y: Node)
    requires x in s && y in s - {x} && forall z :: z in s - {x} ==> y <= z
    ensures exists least :: least in s && forall z :: z in s ==> least <= z
  {
    var least := if x < y then x else y;
    forall z | z in s ensures least <= z {
      assert z == x || z in s - {x};
    }
  }

  /** The members of a set in ascending order. */
  function Ascending(s: set<Node>): (r: seq<Node>)
    ensures forall x :: x in r <==> x in s
    ensures forall i, j :: 0 <= i < j < |r| ==> r[i] < r[j]
    ensures |r| == |s|
  {
    if s == {} then [] else
      var least := Smallest(s);
      [least] + Ascending(s - {least})
  }

  lemma WalkConcat(edges: set<Edge>, p: seq<Node>, q: seq<Node>)
    requires IsWalk(edges, p) && IsWalk(edges, q) && p[|p| - 1] == q[0]
    ensures WalkFromTo(edges, p + q[1..], p[0], q[|q| - 1])
  {
    var r := p + q[1..];
    forall i | 0 <= i < |r| - 1 ensures (r[i], r[i + 1]) in edges {
      if i >= |p| - 1 {
        var j := i - (|p| - 1);
        assert (q[j], q[j + 1]) in edges;
      }
    }
  }

  lemma WalkPrepend(edges: set<Edge>, a: Node, p: seq<Node>)
    requires IsWalk(edges, p) && (a, p[0]) in edges
    ensures WalkFromTo(edges, [a] + p, a, p[|p| - 1])
  {
    WalkConcat(edges, [a, p[0]], p);
    assert [a, p[0]] + p[1..] == [a] + p;
  }

  lemma WalkAppend(edges: set<Edge>, p: seq<Node>, b: Node)
    requires IsWalk(edges, p) && (p[|p| - 1], b) in edges
    ensures WalkFromTo(edges, p + [b], p[0], b)
  {
    WalkConcat(edges, p, [p[|p| - 1], b]);
    assert [p[|p| - 1], b][1..] == [b];
  }

  lemma ReachesTransitive(edges: set<Edge>, a: Node, b: Node, c: Node)
    requires Reaches(edges, a, b) && Reaches(edges, b, c)
    ensures Reaches(edges, a, c)
  {
    var p :| WalkFromTo(edges, p, a, b);
    var q :| WalkFromTo(edges, q, b, c);
    WalkConcat(edges, p, q);
  }

  lemma EdgeReaches(edges: set<Edge>, a: Node, b: Node)
    requires (a, b) in edges
    ensures Reaches(edges, a, b)
  {
    assert WalkFromTo(edges, [a, b], a, b);
  }

  lemma SelfReaches(edges: set<Edge>, a: Node)
    ensures Reaches(edges, a, a)
  {
    assert WalkFromTo(edges, [a], a, a);
  }

  lemma WalkMonotone(small: set<Edge>, big: set<Edge>, p: seq<Node>)
    requires small <= big && IsWalk(small, p)
    ensures IsWalk(big, p)
  {
  }

  lemma ReachesMonotone(small: set<Edge>, big: set<Edge>, a: Node, b: Node)
    requires small <= big
    ensures Reaches(small, a, b) ==> Reaches(big, a, b)
  {
    if p :| WalkFromTo(small, p, a, b) {
      WalkMonotone(small, big, p);
      assert WalkFromTo(big, p, a, b);
    }
  }

  lemma CycleMonotone(small: set<Edge>, big: set<Edge>, p: seq<Node>)
    requires small <= big && IsCycle(small, p)
    ensures IsCycle(big, p)
  {
    WalkMonotone(small, big, p);
  }

  lemma NoEdgesIsAcyclic()
    ensures Acyclic({})
  {
    FallingRankIsAcyclic({}, map[]);
  }

  lemma AcyclicMonotone(small: set<Edge>, big: set<Edge>)
    requires small <= big && Acyclic(big)
    ensures Acyclic(small)
  {
    forall p ensures !IsCycle(small, p) {
      if IsCycle(small, p) {
        WalkMonotone(small, big, p);
        assert IsCycle(big, p);
      }
    }
  }

  /** A set closed under edges that holds a keeps everything a reaches. */
  lemma ClosedSetKeepsWalks(edges: set<Edge>, closed: set<Node>, p: seq<Node>)
    requires IsWalk(edges, p) && p[0] in closed
    requires forall e :: e in edges && e.0 in closed ==> e.1 in closed
    ensures forall i :: 0 <= i < |p| ==> p[i] in closed
  {
    if |p| > 1 {
      assert (p[0], p[1]) in edges;
      ClosedSetKeepsWalks(edges, closed, p[1..]);
    }
  }

  /** An edge leaving s never helps anything reach s. */
  lemma WalkAvoidsEdge(edges: set<Edge>, s: Node, t: Node, p: seq<Node>)
    requires IsWalk(edges + {(s, t)}, p) && p[|p| - 1] == s
    ensures Reaches(edges, p[0], s)
  {
    if p[0] == s {
      SelfReaches(edges, s);
    } else {
      assert (p[0], p[1]) in edges;
      WalkAvoidsEdge(edges, s, t, p[1..]);
      EdgeReaches(edges, p[0], p[1]);
      ReachesTransitive(edges, p[0], p[1], s);
    }
  }

  lemma CycleThroughEdge(edges: set<Edge>, s: Node, t: Node, p: seq<Node>, i: nat)
    requires IsCycle(edges + {(s, t)}, p)
    requires i + 1 < |p| && p[i] == s && p[i + 1] == t
    ensures Reaches(edges, t, s)
  {
    var all := edges + {(s, t)};
    var after, before := p[i + 1..], p[..i + 1];
    WalkConcat(all, after, before);
    WalkAvoidsEdge(edges, s, t, after + before[1..]);
  }

  lemma CycleUsesEdgeOrNot(edges: set<Edge>, s: Node, t: Node, p: seq<Node>)
    requires IsCycle(edges + {(s, t)}, p)
    ensures IsCycle(edges, p) || Reaches(edges, t, s)
  {
    if i: nat :| i + 1 < |p| && (p[i], p[i + 1]) == (s, t) {
      CycleThroughEdge(edges, s, t, p, i);
    }
  }

  lemma EdgeClosesCycle(edges: set<Edge>, s: Node, t: Node)
    requires Reaches(edges, t, s)
    ensures !Acyclic(edges + {(s, t)})
  {
    var p :| WalkFromTo(edges, p, t, s);
    WalkMonotone(edges, edges + {(s, t)}, p);
    WalkPrepend(edges + {(s, t)}, s, p);
    assert IsCycle(edges + {(s, t)}, [s] + p);
  }

  /** Adding one edge keeps a graph acyclic exactly when its head did not already reach its tail. */
  lemma AcyclicWithEdge(edges: set<Edge>, s: Node, t: Node)
    ensures Acyclic(edges + {(s, t)}) <==> Acyclic(edges) && !Reaches(edges, t, s)
  {
    var all := edges + {(s, t)};
    if Acyclic(all) {
      AcyclicMonotone(edges, all);
    } else {
      var p :| IsCycle(all, p);
      CycleUsesEdgeOrNot(edges, s, t, p);
    }
    if Reaches(edges, t, s) {
      EdgeClosesCycle(edges, s, t);
    }
  }

  /** In an acyclic graph every nonempty finite set holds a node that reaches no other member. */
  lemma {:induction false} SinkExists(edges: set<Edge>, members: set<Node>) returns (sink: Node)
    requires Acyclic(edges) && members != {}
    ensures sink in members
    ensures forall m :: m in members && m != sink ==> !Reaches(edges, sink, m)
  {
    var x :| x in members;
    var rest := members - {x};
    assert forall m :: m in members ==> m == x || m in rest;
    if rest == {} {
      return x;
    }
    sink := SinkExists(edges, rest);
    if Reaches(edges, sink, x) {
      var k := sink;
      sink := x;
      forall m | m in members && m != x ensures !Reaches(edges, x, m) {
        if Reaches(edges, x, m) {
          ReachesTransitive(edges, k, x, m);
          assert m == k;
          MutualReachIsCyclic(edges, k, x);
        }
      }
    }
  }

  lemma MutualReachIsCyclic(edges: set<Edge>, a: Node, b: Node)
    requires a != b && Reaches(edges, a, b) && Reaches(edges, b, a)
    ensures !Acyclic(edges)
  {
    var p :| WalkFromTo(edges, p, a, b);
    var q :| WalkFromTo(edges, q, b, a);
    WalkConcat(edges, p, q);
    assert IsCycle(edges, p + q[1..]);
  }

  /** A numbering that falls along every edge rules out cycles. */
  lemma FallingRankIsAcyclic(edges: set<Edge>, rank: map<Node, nat>)
    requires forall e :: e in edges ==> e.0 in rank && e.1 in rank && rank[e.1] < rank[e.0]
    ensures Acyclic(edges)
  {
    forall p ensures !IsCycle(edges, p) {
      if IsCycle(edges, p) {
        RankFallsAlong(edges, rank, p);
      }
    }
  }

  lemma RankFallsAlong(edges: set<Edge>, rank: map<Node, nat>, p: seq<Node>)
    requires forall e :: e in edges ==> e.0 in rank && e.1 in rank && rank[e.1] < rank[e.0]
    requires IsWalk(edges, p) && |p| >= 2
    ensures p[0] in rank && p[|p| - 1] in rank && rank[p[|p| - 1]] < rank[p[0]]
  {
    assert (p[0], p[1]) in edges;
    if |p| > 2 {
      RankFallsAlong(edges, rank, p[1..]);
    }
  }

  function Converse(edges: set<Edge>): (r: set<Edge>)
    ensures forall a, b :: (a, b) in r <==> (b, a) in edges
  {
    set e | e in edges :: (e.1, e.0)
  }

  lemma ConverseWalk(edges: set<Edge>, p: seq<Node>) returns (q: seq<Node>)
    requires IsWalk(edges, p)
    ensures WalkFromTo(Converse(edges), q, p[|p| - 1], p[0]) && |q| == |p|
  {
    q := seq(|p|, i requires 0 <= i < |p| => p[|p| - 1 - i]);
    forall i | 0 <= i < |q| - 1 ensures (q[i], q[i + 1]) in Converse(edges) {
      var j := |p| - 2 - i;
      assert (p[j], p[j + 1]) in edges;
    }
  }

  lemma ConverseAcyclic(edges: set<Edge>)
    requires Acyclic(edges)
    ensures Acyclic(Converse(edges))
  {
    assert Converse(Converse(edges)) == edges by {
      forall e ensures e in Converse(Converse(edges)) <==> e in edges {
        assert e == (e.0, e.1);
      }
    }
    forall p ensures !IsCycle(Converse(edges), p) {
      if IsCycle(Converse(edges), p) {
        var q := ConverseWalk(Converse(edges), p);
        assert IsCycle(edges, q);
      }
    }
  }
}
