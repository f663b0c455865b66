/**
 The migration revision graph: reference checks, the three-colour cycle search
 and the computed heads. Revision ids and owners are numbered in lexical order.
 */
module MigrationGraph {
  import opened Wrappers
  import opened Paths
  import opened Sorting

  type RevisionId = Node
  type Owner = nat

  datatype Revision = Revision(
    id: RevisionId,
    owner: Owner,
    downRevisions: seq<RevisionId>,
    dependencies: seq<RevisionId>)

  type Revisions = map<RevisionId, Revision>

  function Prerequisites(r: Revision): set<RevisionId> {
    (set p | p in r.downRevisions) + (set p | p in r.dependencies)
  }

  function PrerequisiteEdges(revs: Revisions): (edges: set<Edge>)
    ensures forall r, p :: (r, p) in edges <==> r in revs && p in Prerequisites(revs[r])
  {
    set r, p | r in revs && p in Prerequisites(revs[r]) :: (r, p)
  }

  function ParentEdges(revs: Revisions): (edges: set<Edge>)
    ensures forall r, p :: (r, p) in edges <==> r in revs && p in revs[r].downRevisions
  {
    set r, p | r in revs && p in revs[r].downRevisions :: (r, p)
  }

  /** Every referenced revision is known. */
  predicate Closed(revs: Revisions) {
    forall r :: r in revs ==> Prerequisites(revs[r]) <= revs.Keys
  }

  // ---- The three-colour search ----

  datatype Mark = Visiting | Visited

  /** The grey revisions are exactly those on the stack. */
  ghost predicate StackIsGrey(states: map<RevisionId, Mark>, stack: seq<RevisionId>) {
    && (forall r {:trigger states[r]} :: r in states && states[r].Visiting? ==> r in stack)
    && (forall i {:trigger stack[i]} :: 0 <= i < |stack| ==> stack[i] in states && states[stack[i]].Visiting?)
  }

  /** rank numbers the black revisions in the order they were finished. */
  ghost predicate RankIsBlack(states: map<RevisionId, Mark>, rank: map<Node, nat>) {
    && (forall r {:trigger rank[r]} {:trigger states[r]} :: r in rank <==> r in states && states[r].Visited?)
    && (forall r {:trigger rank[r]} :: r in rank ==> rank[r] < |rank|)
  }

  /** Every edge out of a numbered revision leads to a lower number. */
  ghost predicate RankFalls(edges: set<Edge>, rank: map<Node, nat>) {
    forall r, p :: (r, p) in edges && r in rank ==> p in rank && rank[p] < rank[r]
  }

  ghost predicate SearchState(
    edges: set<Edge>, states: map<RevisionId, Mark>, stack: seq<RevisionId>, rank: map<Node, nat>)
  {
    && StackIsGrey(states, stack)
    && (|stack| > 0 ==> IsWalk(edges, stack))
    && RankIsBlack(states, rank)
    && RankFalls(edges, rank)
  }

  function IndexOf(s: seq<RevisionId>, x: RevisionId): (i: nat)
    requires x in s
    ensures i < |s| && s[i] == x && x !in s[..i]
  {
    if s[0] == x then 0 else 1 + IndexOf(s[1..], x)
  }

  /** What visiting a revision below the given stack promises. */
  ghost predicate Visiting(
    edges: set<Edge>, stack: seq<RevisionId>, states: map<RevisionId, Mark>, rank: map<Node, nat>,
    after: map<RevisionId, Mark>, finished: map<Node, nat>, cycle: Option<seq<RevisionId>>)
  {
    match cycle
    case Some(c) => IsCycle(edges, c)
    case None =>
      && SearchState(edges, after, stack, finished)
      && rank.Keys <= finished.Keys && states.Keys <= after.Keys
  }

  method Visit(
    revs: Revisions, id: RevisionId, states: map<RevisionId, Mark>, stack: seq<RevisionId>, ghost rank: map<Node, nat>,
    ghost edges: set<Edge>)
    returns (after: map<RevisionId, Mark>, cycle: Option<seq<RevisionId>>, ghost finished: map<Node, nat>)
    requires Closed(revs) && id in revs && edges == PrerequisiteEdges(revs)
    requires SearchState(edges, states, stack, rank)
    requires |stack| > 0 ==> (stack[|stack| - 1], id) in edges
    ensures Visiting(edges, stack, states, rank, after, finished, cycle)
    ensures cycle.Some? ==> IsCycle(edges, cycle.value)
    ensures cycle.None? ==> id in finished && id in after && after[id].Visited?
    decreases |revs.Keys - states.Keys|, 1
  {
    hide SearchState, IsCycle, IsWalk, Closed, PrerequisiteEdges, Prerequisites, Done;
    after, cycle, finished := states, None, rank;
    StateFacts(edges, states, stack, rank, id);
    if id in states {
      if states[id].Visiting? {
        cycle := Some(stack[IndexOf(stack, id)..] + [id]);
        GreyClosesCycle(edges, stack, id);
      }
      return;
    }
    after := states[id := Mark.Visiting];
    Push(edges, states, stack, rank, id);
    FewerUnmarked(revs.Keys, states.Keys, after.Keys, id);
    after, cycle, finished := VisitAll(revs, id, Ascending(Prerequisites(revs[id])), after, stack + [id], rank, edges);
    if cycle.None? {
      DoneCoversEdges(revs, id, finished);
      Pop(edges, after, stack, finished, id);
      after := after[id := Visited];
      finished := finished[id := |finished|];
    }
  }

  /** A marked revision is on the stack or finished; an unmarked one is neither. */
  lemma StateFacts(
    edges: set<Edge>, states: map<RevisionId, Mark>, stack: seq<RevisionId>, rank: map<Node, nat>, id: RevisionId)
    requires SearchState(edges, states, stack, rank)
    ensures id in states ==> if states[id].Visiting? then id in stack else id in rank
    ensures id !in states ==> id !in stack && id !in rank
    ensures |stack| > 0 ==> IsWalk(edges, stack)
  {
    hide IsWalk, RankFalls;
  }

  /** The inner loop of a visit, over the revision's prerequisites in order. */
  method VisitAll(
    revs: Revisions, id: RevisionId, prerequisites: seq<RevisionId>, states: map<RevisionId, Mark>,
    stack: seq<RevisionId>, ghost rank: map<Node, nat>, ghost edges: set<Edge>)
    returns (after: map<RevisionId, Mark>, cycle: Option<seq<RevisionId>>, ghost finished: map<Node, nat>)
    requires Closed(revs) && id in revs && edges == PrerequisiteEdges(revs)
    requires prerequisites == Ascending(Prerequisites(revs[id]))
    requires SearchState(edges, states, stack, rank) && |stack| > 0 && stack[|stack| - 1] == id
    ensures Visiting(edges, stack, states, rank, after, finished, cycle)
    ensures cycle.Some? ==> IsCycle(edges, cycle.value)
    ensures cycle.None? ==> Done(prerequisites, finished)
    decreases |revs.Keys - states.Keys|, 2
  {
    after, cycle, finished := states, None, rank;
    var i := 0;
    while i < |prerequisites|
      invariant 0 <= i <= |prerequisites| && cycle.None?
      invariant Visiting(edges, stack, states, rank, after, finished, None)
      invariant Done(prerequisites[..i], finished)
    {
      PrerequisiteFacts(revs, id, prerequisites, i);
      NoMoreUnmarked(revs.Keys, states.Keys, after.Keys);
      ghost var before := finished;
      after, cycle, finished := Visit(revs, prerequisites[i], after, stack, finished, edges);
      if cycle.Some? {
        return;
      }
      DoneGrows(prerequisites, i, before, finished);
      i := i + 1;
    }
    TakeAll(prerequisites);
  }

  lemma TakeAll(rs: seq<RevisionId>)
    ensures rs[..|rs|] == rs
  {
  }

  ghost predicate Done(rs: seq<RevisionId>, rank: map<Node, nat>) {
    forall r :: r in rs ==> r in rank
  }

  lemma DoneCoversEdges(revs: Revisions, id: RevisionId, rank: map<Node, nat>)
    requires id in revs && Done(Ascending(Prerequisites(revs[id])), rank)
    ensures forall p :: (id, p) in PrerequisiteEdges(revs) ==> p in rank
  {
    forall p | (id, p) in PrerequisiteEdges(revs) ensures p in rank {
      assert p in Ascending(Prerequisites(revs[id]));
    }
  }

  lemma DoneGrows(rs: seq<RevisionId>, i: nat, before: map<Node, nat>, after: map<Node, nat>)
    requires i < |rs| && Done(rs[..i], before) && before.Keys <= after.Keys && rs[i] in after
    ensures Done(rs[..i + 1], after)
  {
    assert rs[..i + 1] == rs[..i] + [rs[i]];
  }

  lemma GreyClosesCycle(edges: set<Edge>, stack: seq<RevisionId>, id: RevisionId)
    requires IsWalk(edges, stack) && id in stack && (stack[|stack| - 1], id) in edges
    ensures IsCycle(edges, stack[IndexOf(stack, id)..] + [id])
  {
    WalkAppend(edges, stack[IndexOf(stack, id)..], id);
  }

  lemma PrerequisiteFacts(revs: Revisions, id: RevisionId, prerequisites: seq<RevisionId>, i: nat)
    requires Closed(revs) && id in revs && i < |prerequisites|
    requires prerequisites == Ascending(Prerequisites(revs[id]))
    ensures prerequisites[i] in revs && (id, prerequisites[i]) in PrerequisiteEdges(revs)
  {
    assert prerequisites[i] in prerequisites;
  }

  lemma FewerUnmarked(all: set<Node>, before: set<Node>, after: set<Node>, id: Node)
    requires id in all && id !in before && before + {id} <= after
    ensures |all - after| < |all - before|
  {
    var rest := all - before - {id};
    assert rest == (all - after) + (rest - (all - after));
  }

  lemma NoMoreUnmarked(all: set<Node>, before: set<Node>, after: set<Node>)
    requires before <= after
    ensures |all - after| <= |all - before|
  {
    assert all - before == (all - after) + ((all - before) - (all - after));
  }

  lemma Push(
    edges: set<Edge>, states: map<RevisionId, Mark>, stack: seq<RevisionId>, rank: map<Node, nat>, id: RevisionId)
    requires SearchState(edges, states, stack, rank) && id !in states
    requires |stack| > 0 ==> (stack[|stack| - 1], id) in edges
    ensures SearchState(edges, states[id := Mark.Visiting], stack + [id], rank)
  {
    if |stack| > 0 {
      WalkAppend(edges, stack, id);
    }
  }

  /** Popping a revision whose prerequisites are all finished keeps the search state. */
  lemma Pop(
    edges: set<Edge>, states: map<RevisionId, Mark>, stack: seq<RevisionId>, rank: map<Node, nat>, id: RevisionId)
    requires SearchState(edges, states, stack + [id], rank)
    requires id !in stack && forall p :: (id, p) in edges ==> p in rank
    ensures SearchState(edges, states[id := Visited], stack, rank[id := |rank|])
  {
    var deeper, marked, numbered := stack + [id], states[id := Visited], rank[id := |rank|];
    assert deeper[|stack|] == id;
    assert id !in rank;
    forall r | r in marked && marked[r].Visiting? ensures r in stack {
      assert states[r].Visiting?;
    }
    forall i | 0 <= i < |stack| ensures stack[i] in marked && marked[stack[i]].Visiting? {
      assert deeper[i] == stack[i];
    }
    if |stack| > 0 {
      assert stack == deeper[..|stack|];
      forall i | 0 <= i < |stack| - 1 ensures (stack[i], stack[i + 1]) in edges {
        assert (deeper[i], deeper[i + 1]) in edges;
      }
    }
  }

  /** The search ends, and rejects exactly the cyclic graphs, naming a real cycle. */
  method RejectCycles(revs: Revisions) returns (cycle: Option<seq<RevisionId>>)
    requires Closed(revs)
    ensures cycle.None? <==> Acyclic(PrerequisiteEdges(revs))
    ensures cycle.Some? ==> IsCycle(PrerequisiteEdges(revs), cycle.value)
  {
    hide SearchState, Acyclic, IsCycle, PrerequisiteEdges, Closed, Done;
    var states: map<RevisionId, Mark> := map[];
    ghost var rank: map<Node, nat> := map[];
    var ids := Ascending(revs.Keys);
    SearchBegins(revs, ids);
    var i := 0;
    while i < |ids|
      invariant 0 <= i <= |ids|
      invariant SearchState(PrerequisiteEdges(revs), states, [], rank)
      invariant Done(ids[..i], rank)
    {
      assert ids[i] in ids;
      ghost var before := rank;
      states, cycle, rank := Visit(revs, ids[i], states, [], rank, PrerequisiteEdges(revs));
      if cycle.Some? {
        CycleIsNotAcyclic(PrerequisiteEdges(revs), cycle.value);
        return;
      }
      DoneGrows(ids, i, before, rank);
      i := i + 1;
    }
    cycle := None;
    TakeAll(ids);
    FinishedIsAcyclic(revs, states, rank);
  }

  lemma SearchBegins(revs: Revisions, ids: seq<RevisionId>)
    ensures SearchState(PrerequisiteEdges(revs), map[], [], map[]) && Done(ids[..0], map[])
  {
  }

  lemma CycleIsNotAcyclic(edges: set<Edge>, cycle: seq<RevisionId>)
    requires IsCycle(edges, cycle)
    ensures !Acyclic(edges)
  {
  }

  lemma FinishedIsAcyclic(revs: Revisions, states: map<RevisionId, Mark>, rank: map<Node, nat>)
    requires Closed(revs) && SearchState(PrerequisiteEdges(revs), states, [], rank) && Done(Ascending(revs.Keys), rank)
    ensures Acyclic(PrerequisiteEdges(revs))
  {
    forall e | e in PrerequisiteEdges(revs) ensures e.0 in rank && e.1 in rank && rank[e.1] < rank[e.0] {
      assert (e.0, e.1) in PrerequisiteEdges(revs);
      assert e.0 in Ascending(revs.Keys);
    }
    FallingRankIsAcyclic(PrerequisiteEdges(revs), rank);
  }

  // ---- Reference checks, heads and the accepted plan ----

  datatype PlanError =
    | MissingRevision(from: RevisionId, to: RevisionId)
    | UndeclaredModule(from: RevisionId, owner: Owner)
    | DependencyCycle(cycle: seq<RevisionId>)

  datatype Plan = Plan(ordered: seq<Revision>, heads: seq<RevisionId>)

  /** A reference that resolves, and either stays with its owner or enters a declared dependency. */
  predicate ReferenceAllowed(revs: Revisions, allowed: map<Owner, set<Owner>>, from: Revision, to: RevisionId) {
    && to in revs
    && (revs[to].owner == from.owner
        || (from.owner in allowed && revs[to].owner in allowed[from.owner]))
  }

  ghost predicate ReferencesAllowed(revs: Revisions, allowed: map<Owner, set<Owner>>) {
    forall r, p :: r in revs && p in Prerequisites(revs[r]) ==> ReferenceAllowed(revs, allowed, revs[r], p)
  }

  function References(r: Revision): (refs: seq<RevisionId>)
    ensures forall p :: p in refs <==> p in Prerequisites(r)
  {
    r.downRevisions + r.dependencies
  }

  ghost predicate IsParent(revs: Revisions, p: RevisionId) {
    exists r :: r in revs && p in revs[r].downRevisions
  }

  predicate RevisionOrder(a: Revision, b: Revision) {
    a.owner < b.owner || (a.owner == b.owner && a.id <= b.id)
  }

  /** The revisions found, keyed by id; discovery has already refused duplicate ids. */
  ghost predicate Keyed(found: seq<Revision>, revs: Revisions) {
    && (forall r :: r in found <==> r.id in revs && revs[r.id] == r)
    && (forall r :: r in revs ==> revs[r].id == r)
  }

  /** An error names a reference of this revision that is missing or not allowed. */
  ghost predicate Explains(revs: Revisions, allowed: map<Owner, set<Owner>>, from: Revision, error: PlanError) {
    exists p :: (
      && p in Prerequisites(from)
      && !ReferenceAllowed(revs, allowed, from, p)
      && error == if p !in revs then MissingRevision(from.id, p) else UndeclaredModule(from.id, revs[p].owner))
  }

  /** The first forbidden reference of one revision, in the order the code meets them. */
  method CheckReferences(
    revs: Revisions, allowed: map<Owner, set<Owner>>, from: Revision)
    returns (error: Option<PlanError>)
    ensures error.None? <==> forall p :: p in Prerequisites(from) ==> ReferenceAllowed(revs, allowed, from, p)
    ensures error.Some? ==> Explains(revs, allowed, from, error.value)
  {
    var refs := References(from);
    for i := 0 to |refs|
      invariant forall j :: 0 <= j < i ==> ReferenceAllowed(revs, allowed, from, refs[j])
    {
      var to := refs[i];
      assert to in refs;
      if to !in revs {
        return Some(MissingRevision(from.id, to));
      }
      if !ReferenceAllowed(revs, allowed, from, to) {
        return Some(UndeclaredModule(from.id, revs[to].owner));
      }
    }
    error := None;
  }

  /** What an error names is really wrong with the graph. */
  ghost predicate Justified(revs: Revisions, allowed: map<Owner, set<Owner>>, error: PlanError) {
    match error
    case MissingRevision(from, to) => from in revs && to in Prerequisites(revs[from]) && to !in revs
    case UndeclaredModule(from, owner) =>
      && from in revs && owner != revs[from].owner
      && (from in revs && revs[from].owner in allowed ==> owner !in allowed[revs[from].owner])
      && exists p :: p in Prerequisites(revs[from]) && p in revs && revs[p].owner == owner
    case DependencyCycle(cycle) => IsCycle(PrerequisiteEdges(revs), cycle)
  }

  method BuildPlan(found: seq<Revision>, revs: Revisions, allowed: map<Owner, set<Owner>>)
    returns (r: Result<Plan, PlanError>)
    requires Keyed(found, revs)
    ensures r.Ok? <==> ReferencesAllowed(revs, allowed) && Acyclic(PrerequisiteEdges(revs))
    ensures r.Err? ==> Justified(revs, allowed, r.error)
    ensures r.Ok? ==> multiset(r.value.ordered) == multiset(found) && SortedBy(r.value.ordered, RevisionOrder)
    ensures r.Ok? ==> forall h :: h in r.value.heads <==> h in revs && !IsParent(revs, h)
    ensures r.Ok? ==> forall i, j :: 0 <= i < j < |r.value.heads| ==> r.value.heads[i] < r.value.heads[j]
  {
    hide Prerequisites, ReferenceAllowed, ReferencesAllowed, Acyclic, Closed, Keyed;
    hide IsParent, Checked, Collected, Justified, SortedBy;
    var parents: set<RevisionId> := {};
    NothingChecked(found, revs, allowed);
    for i := 0 to |found|
      invariant Checked(found, revs, allowed, i) && Collected(found, parents, i)
    {
      var error := CheckReferences(revs, allowed, found[i]);
      OneMoreRevision(found, revs, allowed, parents, i, error);
      if error.Some? {
        return Err(error.value);
      }
      parents := parents + set p | p in found[i].downRevisions;
    }
    AllReferencesChecked(found, revs, allowed);
    var cycle := RejectCycles(revs);
    if cycle.Some? {
      CycleJustifies(revs, allowed, cycle.value);
      return Err(DependencyCycle(cycle.value));
    }
    ParentsCollected(found, revs, parents);
    RevisionOrderIsTotal();
    SortSorts(found, RevisionOrder);
    r := Ok(Plan(Sort(found, RevisionOrder), Ascending(revs.Keys - parents)));
  }

  /** The references of the first n revisions found are allowed. */
  ghost predicate Checked(found: seq<Revision>, revs: Revisions, allowed: map<Owner, set<Owner>>, n: nat) {
    && n <= |found|
    && forall j, p :: 0 <= j < n && p in Prerequisites(found[j]) ==> ReferenceAllowed(revs, allowed, found[j], p)
  }

  /** The set holds the parents named by the first n revisions found. */
  ghost predicate Collected(found: seq<Revision>, parents: set<RevisionId>, n: nat) {
    n <= |found| && forall p :: p in parents <==> exists j :: 0 <= j < n && p in found[j].downRevisions
  }

  lemma NothingChecked(found: seq<Revision>, revs: Revisions, allowed: map<Owner, set<Owner>>)
    ensures Checked(found, revs, allowed, 0) && Collected(found, {}, 0)
  {
  }

  lemma RevisionOrderIsTotal()
    ensures TotalPreorder(RevisionOrder)
  {
  }

  /** One revision's references either join the checked ones or justify the error. */
  lemma OneMoreRevision(
    found: seq<Revision>, revs: Revisions, allowed: map<Owner, set<Owner>>, parents: set<RevisionId>, i: nat,
    error: Option<PlanError>)
    requires Keyed(found, revs) && i < |found| && Checked(found, revs, allowed, i) && Collected(found, parents, i)
    requires error.None? <==> forall p :: p in Prerequisites(found[i]) ==> ReferenceAllowed(revs, allowed, found[i], p)
    requires error.Some? ==> Explains(revs, allowed, found[i], error.value)
    ensures error.None? ==> Checked(found, revs, allowed, i + 1)
    ensures error.None? ==> Collected(found, parents + (set p | p in found[i].downRevisions), i + 1)
    ensures error.Some? ==> Justified(revs, allowed, error.value) && !ReferencesAllowed(revs, allowed)
  {
    assert found[i] in found;
    if error.Some? {
      ErrorJustifies(revs, allowed, found[i], error.value);
    }
    hide Prerequisites, ReferenceAllowed, Justified, ReferencesAllowed, Explains;
  }

  lemma ErrorJustifies(revs: Revisions, allowed: map<Owner, set<Owner>>, from: Revision, error: PlanError)
    requires from.id in revs && revs[from.id] == from && Explains(revs, allowed, from, error)
    ensures Justified(revs, allowed, error) && !ReferencesAllowed(revs, allowed)
  {
    var p :| p in Prerequisites(from) && !ReferenceAllowed(revs, allowed, from, p)
      && error == if p !in revs then MissingRevision(from.id, p) else UndeclaredModule(from.id, revs[p].owner);
    assert p in Prerequisites(revs[from.id]);
    hide Prerequisites;
  }

  lemma CycleJustifies(revs: Revisions, allowed: map<Owner, set<Owner>>, cycle: seq<RevisionId>)
    requires IsCycle(PrerequisiteEdges(revs), cycle)
    ensures Justified(revs, allowed, DependencyCycle(cycle))
  {
  }

  lemma AllReferencesChecked(found: seq<Revision>, revs: Revisions, allowed: map<Owner, set<Owner>>)
    requires Keyed(found, revs) && Checked(found, revs, allowed, |found|)
    ensures ReferencesAllowed(revs, allowed) && Closed(revs)
  {
    forall r, p | r in revs && p in Prerequisites(revs[r]) ensures ReferenceAllowed(revs, allowed, revs[r], p) {
      assert revs[r] in found;
    }
  }

  lemma ParentsCollected(found: seq<Revision>, revs: Revisions, parents: set<RevisionId>)
    requires Keyed(found, revs) && Collected(found, parents, |found|)
    ensures forall p :: p in parents <==> IsParent(revs, p)
  {
    forall p ensures p in parents <==> IsParent(revs, p) {
      if IsParent(revs, p) {
        var r :| r in revs && p in revs[r].downRevisions;
        assert revs[r] in found;
      }
      if j :| 0 <= j < |found| && p in found[j].downRevisions {
        assert found[j] in found;
      }
    }
  }

  lemma ParentEdgesArePrerequisites(revs: Revisions)
    ensures ParentEdges(revs) <= PrerequisiteEdges(revs)
  {
    forall e | e in ParentEdges(revs) ensures e in PrerequisiteEdges(revs) {
      assert (e.0, e.1) in ParentEdges(revs);
    }
  }

  /** A parent has a child one step further from its ancestors. */
  lemma ChildIsDescendant(revs: Revisions, p: RevisionId, r: RevisionId) returns (child: RevisionId)
    requires IsParent(revs, p) && Reaches(ParentEdges(revs), p, r)
    ensures child in revs && (child, p) in ParentEdges(revs)
    ensures Reaches(ParentEdges(revs), child, r) && Reaches(Converse(ParentEdges(revs)), p, child)
  {
    child :| child in revs && p in revs[child].downRevisions;
    EdgeReaches(ParentEdges(revs), child, p);
    ReachesTransitive(ParentEdges(revs), child, p, r);
    EdgeReaches(Converse(ParentEdges(revs)), p, child);
  }

  /** In an accepted graph every revision is an ancestor-or-self of some head. */
  lemma EveryRevisionReachesAHead(revs: Revisions, r: RevisionId) returns (head: RevisionId)
    requires Acyclic(PrerequisiteEdges(revs)) && r in revs
    ensures head in revs && !IsParent(revs, head)
    ensures Reaches(ParentEdges(revs), head, r)
  {
    ParentEdgesArePrerequisites(revs);
    AcyclicMonotone(ParentEdges(revs), PrerequisiteEdges(revs));
    ConverseAcyclic(ParentEdges(revs));
    var descendants := set d | d in revs && Reaches(ParentEdges(revs), d, r);
    SelfReaches(ParentEdges(revs), r);
    assert r in descendants;
    head := SinkExists(Converse(ParentEdges(revs)), descendants);
    if IsParent(revs, head) {
      var child := ChildIsDescendant(revs, head, r);
      assert child in descendants;
      SelfEdgeIsCyclic(ParentEdges(revs), child);
    }
  }

  lemma SelfEdgeIsCyclic(edges: set<Edge>, a: Node)
    ensures (a, a) in edges ==> !Acyclic(edges)
  {
    if (a, a) in edges {
      assert IsCycle(edges, [a, a]);
    }
  }

  /** No head is a proper ancestor of another revision. */
  lemma OnlyParentsHaveDescendants(revs: Revisions, p: RevisionId, d: RevisionId)
    requires Reaches(ParentEdges(revs), d, p)
    ensures d == p || IsParent(revs, p)
  {
    var walk :| WalkFromTo(ParentEdges(revs), walk, d, p);
    if |walk| > 1 {
      assert (walk[|walk| - 2], walk[|walk| - 1]) in ParentEdges(revs);
    }
  }
}
