/**
 The dependency container's counted wait-for graph: who waits for whom while
 singletons initialise. Keys are numbered in the order of their names.
 */
module WaitGraph {
  import opened Wrappers
  import opened Collections
  import opened Paths

  type Key = Node
  type Graph = map<Key, map<Key, nat>>

  // ---- The graph as the counts it stores ----

  function Count(g: Graph, s: Key, t: Key): nat {
    if s in g && t in g[s] then g[s][t] else 0
  }

  /** No empty inner dictionary and no zero count is ever left behind. */
  predicate WellFormed(g: Graph) {
    forall s :: s in g ==> g[s] != map[] && forall t :: t in g[s] ==> g[s][t] > 0
  }

  function EdgesOf(g: Graph): (edges: set<Edge>)
    ensures forall s, t :: (s, t) in edges <==> s in g && t in g[s]
  {
    set s, t | s in g && t in g[s] :: (s, t)
  }

  function Successors(g: Graph, s: Key): (r: set<Key>)
    ensures forall t :: t in r <==> s in g && t in g[s]
  {
    if s in g then g[s].Keys else {}
  }

  /** The graph g holds exactly the edges of m, with their multiplicities. */
  ghost predicate Represents(g: Graph, m: multiset<Edge>) {
    WellFormed(g) && forall s, t {:trigger Count(g, s, t)} :: Count(g, s, t) == m[(s, t)]
  }

  /** Counts determine a well-formed graph. */
  lemma RepresentationIsUnique(g: Graph, h: Graph, m: multiset<Edge>)
    requires Represents(g, m) && Represents(h, m)
    ensures g == h
  {
    SameKeys(g, h, m);
    SameKeys(h, g, m);
    forall s | s in g ensures g[s] == h[s] {
      forall t | t in g[s] || t in h[s] ensures t in g[s] && t in h[s] && g[s][t] == h[s][t] {
        assert Count(g, s, t) == Count(h, s, t);
      }
      assert g[s].Keys == h[s].Keys;
    }
  }

  lemma SameKeys(g: Graph, h: Graph, m: multiset<Edge>)
    requires Represents(g, m) && Represents(h, m)
    ensures g.Keys <= h.Keys
  {
    forall s | s in g ensures s in h {
      var t :| t in g[s];
      assert Count(g, s, t) == Count(h, s, t);
    }
  }

  lemma EdgesAreCounted(g: Graph, m: multiset<Edge>)
    requires Represents(g, m)
    ensures forall e :: e in EdgesOf(g) <==> e in m
  {
    forall e: Edge ensures e in EdgesOf(g) <==> e in m {
      assert Count(g, e.0, e.1) == m[(e.0, e.1)];
      assert e == (e.0, e.1);
    }
  }

  // ---- Searching for a path ----

  /** Every edge leaving a node of found ends in seen. */
  ghost predicate Explored(edges: set<Edge>, found: set<Key>, seen: set<Key>) {
    forall s, t :: (s, t) in edges && s in found ==> t in seen
  }

  lemma ExploreMore(edges: set<Edge>, current: Key, visited: set<Key>, before: set<Key>, after: set<Key>)
    requires visited + {current} <= before <= after
    requires Explored(edges, before - visited - {current}, before)
    requires Explored(edges, after - before, after)
    ensures Explored(edges, after - visited - {current}, after)
  {
    forall s, t | (s, t) in edges && s in after - visited - {current} ensures t in after {
      assert s in after - before || s in before - visited - {current};
    }
  }

  /**
   Depth-first search with one visited set shared by the whole search. A failed
   search leaves every node it newly visited closed under successors and free of
   the target; a successful one returns a walk.
   */
  method WaitPath(g: Graph, current: Key, target: Key, visited: set<Key>, ghost universe: set<Key>)
    returns (path: Option<seq<Key>>, seen: set<Key>)
    requires current in universe && forall s, t :: (s, t) in EdgesOf(g) ==> t in universe
    ensures path.Some? ==> WalkFromTo(EdgesOf(g), path.value, current, target)
    ensures path.None? ==> current in seen && visited <= seen <= visited + universe
    ensures path.None? ==> target !in seen - visited
    ensures path.None? ==> Explored(EdgesOf(g), seen - visited, seen)
    decreases |universe - visited|
  {
    hide Explored, IsWalk, EdgesOf, Successors, Ascending;
    SelfWalk(EdgesOf(g), current);
    NothingNewIsExplored(EdgesOf(g), current, visited);
    if current == target {
      return Some([current]), visited;
    }
    if current in visited {
      return None, visited;
    }
    seen := visited + {current};
    var dependencies := Ascending(Successors(g, current));
    assert forall t :: t in dependencies <==> (current, t) in EdgesOf(g);
    var i := 0;
    while i < |dependencies|
      invariant 0 <= i <= |dependencies|
      invariant visited + {current} <= seen <= visited + universe
      invariant target !in seen - visited
      invariant forall j :: 0 <= j < i ==> dependencies[j] in seen
      invariant Explored(EdgesOf(g), seen - visited - {current}, seen)
    {
      assert dependencies[i] in dependencies;
      FewerLeft(universe, visited, seen, current);
      ghost var before := seen;
      path, seen := WaitPath(g, dependencies[i], target, seen, universe);
      if path.Some? {
        WalkPrepend(EdgesOf(g), current, path.value);
        return Some([current] + path.value), seen;
      }
      ExploreMore(EdgesOf(g), current, visited, before, seen);
      i := i + 1;
    }
    path := None;
    CurrentIsExplored(EdgesOf(g), current, visited, seen, dependencies);
  }

  lemma SelfWalk(edges: set<Edge>, a: Key)
    ensures IsWalk(edges, [a]) && WalkFromTo(edges, [a], a, a)
  {
  }

  lemma NothingNewIsExplored(edges: set<Edge>, current: Key, visited: set<Key>)
    ensures Explored(edges, visited - visited, visited)
    ensures Explored(edges, visited + {current} - visited - {current}, visited + {current})
  {
  }

  lemma CurrentIsExplored(edges: set<Edge>, current: Key, visited: set<Key>, seen: set<Key>, dependencies: seq<Key>)
    requires Explored(edges, seen - visited - {current}, seen)
    requires forall t :: (current, t) in edges ==> t in dependencies
    requires forall j :: 0 <= j < |dependencies| ==> dependencies[j] in seen
    ensures Explored(edges, seen - visited, seen)
  {
    forall s, t | (s, t) in edges && s in seen - visited ensures t in seen {
      assert s == current || s in seen - visited - {current};
    }
  }

  lemma FewerLeft(universe: set<Key>, visited: set<Key>, seen: set<Key>, current: Key)
    requires current in universe && current !in visited && visited + {current} <= seen
    ensures |universe - seen| < |universe - visited|
  {
    var more, fewer := universe - visited, universe - seen;
    assert fewer <= more - {current};
    SubsetIsSmaller(fewer, more - {current});
  }

  function Universe(g: Graph, extra: Key): (u: set<Key>)
    ensures extra in u && forall s, t :: (s, t) in EdgesOf(g) ==> t in u
  {
    {extra} + set e | e in EdgesOf(g) :: e.1
  }

  /** A search with nothing visited finds a path exactly when one exists. */
  method FindWaitPath(g: Graph, from: Key, target: Key) returns (path: Option<seq<Key>>)
    ensures path.Some? <==> Reaches(EdgesOf(g), from, target)
    ensures path.Some? ==> WalkFromTo(EdgesOf(g), path.value, from, target)
  {
    var seen;
    path, seen := WaitPath(g, from, target, {}, Universe(g, from));
    if path.None? {
      assert seen - {} == seen;
      assert forall e :: e in EdgesOf(g) && e.0 in seen ==> (e.0, e.1) in EdgesOf(g) && e.1 in seen;
      if Reaches(EdgesOf(g), from, target) {
        ghost var p :| WalkFromTo(EdgesOf(g), p, from, target);
        ClosedSetKeepsWalks(EdgesOf(g), seen, p);
      }
    }
  }

  // ---- One edge more, one edge less ----

  function Waits(g: Graph, s: Key): map<Key, nat> {
    if s in g then g[s] else map[]
  }

  function Increment(g: Graph, s: Key, t: Key): Graph {
    g[s := Waits(g, s)[t := Count(g, s, t) + 1]]
  }

  function Decrement(g: Graph, s: Key, t: Key): Graph {
    var waits: map<Key, nat> :=
      if Count(g, s, t) > 1 then Waits(g, s)[t := Count(g, s, t) - 1] else Waits(g, s) - {t};
    if waits == map[] then g - {s} else g[s := waits]
  }

  predicate Positive(waits: map<Key, nat>) {
    forall t :: t in waits ==> waits[t] > 0
  }

  lemma StoringKeepsWellFormed(g: Graph, s: Key, waits: map<Key, nat>)
    requires WellFormed(g) && Positive(waits)
    ensures WellFormed(g - {s})
    ensures waits != map[] ==> WellFormed(g[s := waits])
  {
    if waits != map[] {
      var h := g[s := waits];
      forall x | x in h ensures h[x] != map[] && forall t :: t in h[x] ==> h[x][t] > 0 {
        if x != s { assert x in g; }
      }
    }
  }

  lemma IncrementCounts(g: Graph, s: Key, t: Key, a: Key, b: Key)
    ensures Count(Increment(g, s, t), a, b) == Count(g, a, b) + if (a, b) == (s, t) then 1 else 0
  {
  }

  lemma DecrementCounts(g: Graph, s: Key, t: Key, a: Key, b: Key)
    requires Count(g, s, t) > 0
    ensures Count(Decrement(g, s, t), a, b) == Count(g, a, b) - if (a, b) == (s, t) then 1 else 0
  {
    var waits: map<Key, nat> :=
      if Count(g, s, t) > 1 then Waits(g, s)[t := Count(g, s, t) - 1] else Waits(g, s) - {t};
    var h := Decrement(g, s, t);
    assert a != s ==> Count(h, a, b) == Count(g, a, b);
    assert Count(h, s, b) == if b in waits then waits[b] else 0;
    assert b != t ==> (b in waits <==> b in Waits(g, s));
    assert b != t && b in waits ==> waits[b] == Waits(g, s)[b];
  }

  lemma IncrementAddsItsEdge(g: Graph, s: Key, t: Key)
    ensures EdgesOf(Increment(g, s, t)) == EdgesOf(g) + {(s, t)}
  {
    var before, after := EdgesOf(g), EdgesOf(Increment(g, s, t));
    forall a: Key, b: Key ensures (a, b) in after <==> (a, b) in before || (a, b) == (s, t) {
    }
    assert forall e :: e in after ==> e == (e.0, e.1);
    assert forall e :: e in before + {(s, t)} ==> e == (e.0, e.1);
  }

  lemma IncrementAdds(g: Graph, s: Key, t: Key, m: multiset<Edge>)
    requires Represents(g, m)
    ensures Represents(Increment(g, s, t), m + multiset{(s, t)})
  {
    var waits := Waits(g, s)[t := Count(g, s, t) + 1];
    assert t in waits && Positive(waits);
    StoringKeepsWellFormed(g, s, waits);
    forall a: Key, b: Key ensures Count(Increment(g, s, t), a, b) == (m + multiset{(s, t)})[(a, b)] {
      IncrementCounts(g, s, t, a, b);
      assert Count(g, a, b) == m[(a, b)];
    }
  }

  lemma DecrementRemoves(g: Graph, s: Key, t: Key, m: multiset<Edge>)
    requires Represents(g, m + multiset{(s, t)})
    ensures Represents(Decrement(g, s, t), m)
    ensures EdgesOf(Decrement(g, s, t)) <= EdgesOf(g)
  {
    assert Count(g, s, t) == (m + multiset{(s, t)})[(s, t)];
    var waits: map<Key, nat> := if Count(g, s, t) > 1 then g[s][t := g[s][t] - 1] else g[s] - {t};
    assert Positive(waits);
    StoringKeepsWellFormed(g, s, waits);
    forall a: Key, b: Key ensures Count(Decrement(g, s, t), a, b) == m[(a, b)] {
      DecrementCounts(g, s, t, a, b);
      assert Count(g, a, b) == (m + multiset{(s, t)})[(a, b)];
    }
  }

  /** The edges of a chain of keys, each waiting for the next. */
  function Pairwise(chain: seq<Key>): (edges: seq<Edge>)
    requires |chain| > 0
    ensures |edges| == |chain| - 1
    ensures forall i :: 0 <= i < |edges| ==> edges[i] == (chain[i], chain[i + 1])
  {
    seq(|chain| - 1, i requires 0 <= i < |chain| - 1 => (chain[i], chain[i + 1]))
  }

  function EdgeSet(edges: seq<Edge>): set<Edge> {
    set e | e in edges
  }

  /** Add one wait, or restore the graph and report the cycle it would close. */
  method AddWait(g: Graph, s: Key, t: Key, ghost m: multiset<Edge>) returns (h: Graph, cycle: Option<seq<Key>>)
    requires Represents(g, m) && Acyclic(EdgesOf(g))
    ensures cycle.None? <==> Acyclic(EdgesOf(g) + {(s, t)})
    ensures cycle.None? ==> Represents(h, m + multiset{(s, t)}) && EdgesOf(h) == EdgesOf(g) + {(s, t)}
    ensures cycle.Some? ==> h == g && IsCycle(EdgesOf(g) + {(s, t)}, cycle.value)
  {
    h := Increment(g, s, t);
    IncrementAdds(g, s, t, m);
    IncrementAddsItsEdge(g, s, t);
    AcyclicWithEdge(EdgesOf(g), s, t);
    var path := FindWaitPath(h, t, s);
    ReachesMonotone(EdgesOf(g), EdgesOf(h), t, s);
    if path.None? {
      return h, None;
    }
    WalkPrepend(EdgesOf(h), s, path.value);
    WalkAvoidsEdge(EdgesOf(g), s, t, path.value);
    DecrementRemoves(h, s, t, m);
    h := Decrement(h, s, t);
    RepresentationIsUnique(g, h, m);
    cycle := Some([s] + path.value);
  }

  /** Take back the given edges in reverse order. */
  method RemoveWaits(g: Graph, edges: seq<Edge>, ghost m: multiset<Edge>) returns (h: Graph)
    requires Represents(g, m + multiset(edges))
    ensures Represents(h, m) && EdgesOf(h) <= EdgesOf(g)
  {
    h := g;
    var i := |edges|;
    PrefixEnds(m, edges);
    while i > 0
      invariant 0 <= i <= |edges|
      invariant Represents(h, m + multiset(edges[..i])) && EdgesOf(h) <= EdgesOf(g)
    {
      i := i - 1;
      PrefixGrows(m, edges, i);
      DecrementRemoves(h, edges[i].0, edges[i].1, m + multiset(edges[..i]));
      h := Decrement(h, edges[i].0, edges[i].1);
    }
    PrefixEnds(m, edges);
  }

  /**
   Add the whole chain of a resolution path waiting for target. The chain is
   accepted exactly when the graph stays acyclic with all of it; a rejected chain
   leaves the graph as it was, multiplicities included.
   */
  method AddWaitChain(g: Graph, ancestry: seq<Key>, target: Key, ghost m: multiset<Edge>)
    returns (h: Graph, added: Result<seq<Edge>, seq<Key>>)
    requires Represents(g, m) && Acyclic(EdgesOf(g))
    ensures added.Ok? <==> Acyclic(EdgesOf(g) + EdgeSet(Pairwise(ancestry + [target])))
    ensures added.Ok? ==>
      && added.value == Pairwise(ancestry + [target])
      && Represents(h, m + multiset(added.value))
      && EdgesOf(h) == EdgesOf(g) + EdgeSet(added.value)
    ensures added.Err? ==>
      h == g && IsCycle(EdgesOf(g) + EdgeSet(Pairwise(ancestry + [target])), added.error)
  {
    hide Represents, EdgesOf, EdgeSet, Acyclic, IsCycle, Pairwise;
    var edges := Pairwise(ancestry + [target]);
    ghost var whole := EdgesOf(g) + EdgeSet(edges);
    h := g;
    var i := 0;
    PrefixEnds(m, edges);
    while i < |edges|
      invariant 0 <= i <= |edges|
      invariant Represents(h, m + multiset(edges[..i]))
      invariant EdgesOf(h) == EdgesOf(g) + EdgeSet(edges[..i]) && Acyclic(EdgesOf(h))
    {
      PrefixGrows(m, edges, i);
      ghost var grown := EdgesOf(h) + {(edges[i].0, edges[i].1)};
      assert grown == EdgesOf(g) + EdgeSet(edges[..i + 1]) <= whole;
      var cycle;
      h, cycle := AddWait(h, edges[i].0, edges[i].1, m + multiset(edges[..i]));
      if cycle.Some? {
        CycleMonotone(grown, whole, cycle.value);
        CycleRefutes(whole, cycle.value);
        h := RemoveWaits(h, edges[..i], m);
        RepresentationIsUnique(g, h, m);
        return h, Err(cycle.value);
      }
      i := i + 1;
    }
    added := Ok(edges);
  }

  lemma CycleRefutes(edges: set<Edge>, cycle: seq<Key>)
    requires IsCycle(edges, cycle)
    ensures !Acyclic(edges)
  {
  }

  lemma PrefixGrows(m: multiset<Edge>, edges: seq<Edge>, i: nat)
    requires i < |edges|
    ensures EdgeSet(edges[..i + 1]) == EdgeSet(edges[..i]) + {(edges[i].0, edges[i].1)} <= EdgeSet(edges)
    ensures m + multiset(edges[..i + 1]) == m + multiset(edges[..i]) + multiset{(edges[i].0, edges[i].1)}
  {
    assert edges[..i + 1] == edges[..i] + [edges[i]];
  }

  lemma PrefixEnds(m: multiset<Edge>, edges: seq<Edge>)
    ensures edges[..|edges|] == edges && edges[..0] == []
    ensures m + multiset(edges[..0]) == m && EdgeSet([]) == {}
  {
  }

  // ---- All live waiters ----

  /** The multiset sum of the chains of every live waiter. */
  ghost function Total(live: map<nat, seq<Edge>>): multiset<Edge> {
    if live == map[] then multiset{} else
      var w :| w in live;
      multiset(live[w]) + Total(live - {w})
  }

  lemma {:induction false} TotalSplits(live: map<nat, seq<Edge>>, w: nat)
    requires w in live
    ensures Total(live) == multiset(live[w]) + Total(live - {w})
  {
    var x :| x in live && Total(live) == multiset(live[x]) + Total(live - {x});
    if x != w {
      TotalSplits(live - {x}, w);
      TotalSplits(live - {w}, x);
      assert live - {x} - {w} == live - {w} - {x};
    }
  }

  /** The container's waits, shared by every singleton resolution in flight. */
  class SingletonWaits {
    var graph: Graph
    ghost var live: map<nat, seq<Edge>>

    ghost predicate Valid()
      reads this
    {
      Represents(graph, Total(live)) && Acyclic(EdgesOf(graph))
    }

    constructor ()
      ensures Valid() && live == map[] && graph == map[]
    {
      graph := map[];
      live := map[];
      new;
      assert EdgesOf(graph) == {};
      NoEdgesIsAcyclic();
    }

    /** A waiter for target joins, or is refused with the cycle it would have closed. */
    method Enter(waiter: nat, ancestry: seq<Key>, target: Key) returns (added: Result<seq<Edge>, seq<Key>>)
      requires Valid() && waiter !in live
      modifies this
      ensures Valid()
      ensures added.Ok? <==> Acyclic(EdgesOf(old(graph)) + EdgeSet(Pairwise(ancestry + [target])))
      ensures added.Ok? ==> live == old(live)[waiter := Pairwise(ancestry + [target])]
      ensures added.Ok? ==> added.value == Pairwise(ancestry + [target])
      ensures added.Err? ==> graph == old(graph) && live == old(live)
      ensures added.Err? ==>
        IsCycle(EdgesOf(graph) + EdgeSet(Pairwise(ancestry + [target])), added.error)
    {
      var h;
      h, added := AddWaitChain(graph, ancestry, target, Total(live));
      graph := h;
      if added.Ok? {
        live := live[waiter := added.value];
        TotalSplits(live, waiter);
        assert live - {waiter} == old(live);
      }
    }

    /** A waiter leaves, however it ended, taking exactly its own edges with it. */
    method Leave(waiter: nat, edges: seq<Edge>)
      requires Valid() && waiter in live && live[waiter] == edges
      modifies this
      ensures Valid() && live == old(live) - {waiter}
    {
      TotalSplits(live, waiter);
      ghost var before := EdgesOf(graph);
      graph := RemoveWaits(graph, edges, Total(live - {waiter}));
      live := live - {waiter};
      AcyclicMonotone(EdgesOf(graph), before);
    }
  }

  /** The keys a waiter's own resolution path makes wait on each other. */
  ghost predicate BlockedOn(live: map<nat, seq<Edge>>, initializer: Key, other: Key) {
    exists w :: w in live && (initializer, other) in live[w]
  }

  lemma BlockingIsAnEdge(g: Graph, live: map<nat, seq<Edge>>, a: Key, b: Key)
    requires Represents(g, Total(live)) && BlockedOn(live, a, b)
    ensures (a, b) in EdgesOf(g)
  {
    var w :| w in live && (a, b) in live[w];
    TotalSplits(live, w);
    EdgesAreCounted(g, Total(live));
  }

  /** Whatever is pending, some pending initializer waits for no other pending one, not even indirectly. */
  lemma SomePendingInitializerIsFree(g: Graph, live: map<nat, seq<Edge>>, pending: set<Key>) returns (runner: Key)
    requires Represents(g, Total(live)) && Acyclic(EdgesOf(g)) && pending != {}
    ensures runner in pending
    ensures forall k :: k in pending ==> !BlockedOn(live, runner, k)
    ensures forall k :: k in pending && k != runner ==> !Reaches(EdgesOf(g), runner, k)
  {
    runner := SinkExists(EdgesOf(g), pending);
    forall k | k in pending ensures !BlockedOn(live, runner, k) {
      if BlockedOn(live, runner, k) {
        BlockingIsAnEdge(g, live, runner, k);
        EdgeReaches(EdgesOf(g), runner, k);
        assert k == runner;
        assert IsCycle(EdgesOf(g), [runner, runner]);
      }
    }
  }
}
