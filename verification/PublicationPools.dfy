/** The private publication database authority and its engine pools. */
module PublicationPools {
  import opened Wrappers

  type Pool = nat
  type Task = nat

  // ---- The authority's fields and its critical sections ----

  /**
   The authority's own fields: reference-counted pools under concurrent admission,
   validation failure, rotation, release and close. Every step is one critical
   section of its lock.
   */
  datatype Core = Core(
    active: Option<Pool>,
    leases: map<Pool, nat>,
    disposals: set<Pool>,         // pools with an owned disposal task
    closeCalls: multiset<Pool>,   // every disposal task ever created
    closed: bool)

  function LeaseCount(c: Core, p: Pool): nat {
    if p in c.leases then c.leases[p] else 0
  }

  function DisposeUnleased(c: Core, p: Pool): Core {
    if LeaseCount(c, p) > 0 || p in c.disposals then c
    else c.(disposals := c.disposals + {p}, closeCalls := c.closeCalls + multiset{p})
  }

  /** Reserve the active pool before its validation starts. */
  function Reserve(c: Core): Option<(Core, Pool)> {
    match c.active
    case None => None
    case Some(p) =>
      if c.closed then None else Some((c.(leases := c.leases[p := LeaseCount(c, p) + 1]), p))
  }

  predicate StillAdmits(c: Core, p: Pool) {
    !c.closed && c.active == Some(p)
  }

  function DropLease(c: Core, p: Pool): Core
    requires LeaseCount(c, p) > 0
  {
    if LeaseCount(c, p) > 1 then c.(leases := c.leases[p := LeaseCount(c, p) - 1]) else c.(leases := c.leases - {p})
  }

  function Release(c: Core, p: Pool, revoke: bool): Core
    requires LeaseCount(c, p) > 0
  {
    var revoked := if revoke && c.active == Some(p) then c.(active := None) else c;
    var dropped := DropLease(revoked, p);
    if dropped.active == Some(p) then dropped else DisposeUnleased(dropped, p)
  }

  function Cutover(c: Core, replacement: Option<Pool>, expected: Option<Pool>): Core {
    var switched :=
      if expected.Some? && c.active != expected then c
      else if c.closed && replacement.Some? then c
      else
        var next := c.(active := replacement);
        if c.active.Some? then DisposeUnleased(next, c.active.value) else next;
    if replacement.Some? && switched.active != replacement
    then DisposeUnleased(switched, replacement.value) else switched
  }

  // ---- The tasks around them ----

  datatype AdmissionStage = Validating | Using | Leaving(revoke: bool)

  /** One unreleased lease. */
  datatype Admission = Admission(pool: Pool, stage: AdmissionStage)

  datatype RotationStage = Preparing | CuttingOver | Discarding | Revoking

  /** epoch counts the pools installed when the rotation looked at the active pool. */
  datatype Rotation = Rotation(selected: Option<Pool>, replacement: Option<Pool>, stage: RotationStage, epoch: nat)

  datatype State = State(
    core: Core,
    admissions: map<Task, Admission>,
    rotations: map<Task, Rotation>,
    closers: set<Task>,
    installed: seq<Pool>,
    created: nat,          // pools are numbered as they are constructed
    closeFinished: bool)

  datatype Step =
    | Admit(t: Task)
    | Validated(t: Task)                  // second critical section of an admission
    | Abandon(t: Task, revoke: bool)      // validation failed, timed out, or was cancelled
    | Finish(t: Task)
    | ReleaseLease(t: Task)
    | RotateBegin(t: Task)
    | RotateCreate(t: Task)
    | RotateValidated(t: Task)
    | RotateFail(t: Task)
    | RotateCutover(t: Task)
    | RotateDiscard(t: Task)
    | RotateRevoke(t: Task)
    | CloseBegin(t: Task)
    | CloseCutover(t: Task)

  function Init(initial: bool): State {
    State(Core(if initial then Some(0) else None, map[], {}, multiset{}, false),
          map[], map[], {}, if initial then [0] else [], if initial then 1 else 0, false)
  }

  predicate RotationAt(s: State, t: Task, stage: RotationStage) {
    t in s.rotations && s.rotations[t].stage == stage
  }

  function SetStage(s: State, t: Task, stage: AdmissionStage): State
    requires t in s.admissions
  {
    s.(admissions := s.admissions[t := s.admissions[t].(stage := stage)])
  }

  function SetRotation(s: State, t: Task, r: Rotation): State {
    s.(rotations := s.rotations[t := r])
  }

  function AfterAdmit(s: State, t: Task): State {
    match Reserve(s.core)
    case None => s
    case Some((core, pool)) => s.(core := core, admissions := s.admissions[t := Admission(pool, Validating)])
  }

  function AfterCutover(s: State, t: Task): State
    requires t in s.rotations && s.rotations[t].replacement.Some?
  {
    var core := Cutover(s.core, s.rotations[t].replacement, None);
    s.(core := core, rotations := s.rotations - {t},
       installed := if core.active == s.rotations[t].replacement
                    then s.installed + [s.rotations[t].replacement.value] else s.installed)
  }

  function AfterDiscard(s: State, t: Task): State
    requires t in s.rotations
  {
    var r := s.rotations[t];
    SetRotation(
      s.(core := if r.replacement.Some? then DisposeUnleased(s.core, r.replacement.value) else s.core),
      t, r.(replacement := None, stage := Revoking))
  }

  function AfterRevoke(s: State, t: Task): State
    requires t in s.rotations
  {
    s.(core := if s.rotations[t].selected.Some? then Cutover(s.core, None, s.rotations[t].selected) else s.core,
       rotations := s.rotations - {t})
  }

  function NextAdmission(s: State, step: Step): State
    requires step.Admit? || step.Validated? || step.Abandon? || step.Finish? || step.ReleaseLease?
  {
    match step
    case Admit(t) => if t in s.admissions then s else AfterAdmit(s, t)
    case Validated(t) =>
      if t in s.admissions && s.admissions[t].stage.Validating?
      then SetStage(s, t, if StillAdmits(s.core, s.admissions[t].pool) then Using else Leaving(false)) else s
    case Abandon(t, revoke) =>
      if t in s.admissions && s.admissions[t].stage.Validating? then SetStage(s, t, Leaving(revoke)) else s
    case Finish(t) =>
      if t in s.admissions && s.admissions[t].stage.Using? then SetStage(s, t, Leaving(false)) else s
    case ReleaseLease(t) =>
      if t in s.admissions && s.admissions[t].stage.Leaving? && LeaseCount(s.core, s.admissions[t].pool) > 0
      then s.(core := Release(s.core, s.admissions[t].pool, s.admissions[t].stage.revoke),
              admissions := s.admissions - {t})
      else s
  }

  function Next(s: State, step: Step): State {
    match step
    case RotateBegin(t) =>
      if t in s.rotations then s else SetRotation(s, t, Rotation(s.core.active, None, Preparing, |s.installed|))
    case RotateCreate(t) =>
      if RotationAt(s, t, Preparing) && s.rotations[t].replacement.None?
      then AfterCreate(s, t) else s
    case RotateValidated(t) =>
      if RotationAt(s, t, Preparing) && s.rotations[t].replacement.Some?
      then SetRotation(s, t, s.rotations[t].(stage := CuttingOver)) else s
    case RotateFail(t) =>
      if RotationAt(s, t, Preparing) then SetRotation(s, t, s.rotations[t].(stage := Discarding)) else s
    case RotateCutover(t) =>
      if RotationAt(s, t, CuttingOver) && s.rotations[t].replacement.Some? then AfterCutover(s, t) else s
    case RotateDiscard(t) => if RotationAt(s, t, Discarding) then AfterDiscard(s, t) else s
    case RotateRevoke(t) => if RotationAt(s, t, Revoking) then AfterRevoke(s, t) else s
    case CloseBegin(t) => s.(core := s.core.(closed := true), closers := s.closers + {t})
    case CloseCutover(t) =>
      if t in s.closers
      then s.(core := Cutover(s.core, None, None), closers := s.closers - {t}, closeFinished := true) else s
    case _ => NextAdmission(s, step)
  }

  function Run(s: State, steps: seq<Step>): State
    decreases |steps|
  {
    if steps == [] then s else Run(Next(s, steps[0]), steps[1..])
  }

  // ---- What every reachable state keeps ----

  function Holders(admissions: map<Task, Admission>, p: Pool): (r: set<Task>)
    ensures forall t :: t in r <==> t in admissions && admissions[t].pool == p
  {
    set t | t in admissions && admissions[t].pool == p
  }

  /** A pool's count is the number of its unreleased leases. */
  ghost predicate CountsHolders(s: State) {
    forall p {:trigger LeaseCount(s.core, p)} :: LeaseCount(s.core, p) == |Holders(s.admissions, p)|
  }

  /** Nothing active or leased is disposed, no pool is disposed twice, and no zero count is stored. */
  ghost predicate DisposalsAreSafe(c: Core) {
    && (forall p :: p in c.leases ==> c.leases[p] > 0)
    && (c.active.Some? ==> c.active.value !in c.disposals)
    && (forall p :: p in c.leases ==> p !in c.disposals)
    && (forall p :: c.closeCalls[p] == if p in c.disposals then 1 else 0)
  }

  ghost predicate Installs(s: State) {
    && (forall i, j :: 0 <= i < j < |s.installed| ==> s.installed[i] != s.installed[j])
    && (forall p :: p in s.installed ==> p < s.created)
    && (forall p :: p in s.core.disposals ==> p < s.created)
    && (s.core.active.Some? ==> |s.installed| > 0 && s.core.active.value == s.installed[|s.installed| - 1])
    && (forall p :: p in s.core.leases ==> p in s.installed)
  }

  /** A pool that has gone out of use has its disposal scheduled. */
  ghost predicate NothingLeaks(s: State) {
    && (forall p :: p in s.installed && s.core.active != Some(p) && p !in s.core.leases ==> p in s.core.disposals)
    && (forall p: Pool :: p < s.created ==>
          p in s.installed || p in s.core.disposals || exists t :: Holds(s, t, p))
  }

  ghost predicate Holds(s: State, t: Task, p: Pool) {
    t in s.rotations && s.rotations[t].replacement == Some(p)
  }

  /** A replacement is still private to its one rotation, and a selection remembers its epoch. */
  ghost predicate RotationsArePrivate(s: State) {
    && (forall t, p: Pool :: Holds(s, t, p) ==> p < s.created && p !in s.installed && p !in s.core.disposals)
    && (forall t, u, p: Pool :: Holds(s, t, p) && Holds(s, u, p) ==> t == u)
    && (forall t :: t in s.rotations && s.rotations[t].selected.Some? ==>
          0 < s.rotations[t].epoch <= |s.installed|
          && s.installed[s.rotations[t].epoch - 1] == s.rotations[t].selected.value)
    && (forall t :: t in s.rotations ==> s.rotations[t].epoch <= |s.installed|)
  }

  ghost predicate CloseIsFinal(s: State) {
    && (s.closeFinished ==> s.core.closed && s.core.active.None?)
    && (s.closers != {} ==> s.core.closed)
  }

  ghost predicate Inv(s: State) {
    CountsHolders(s) && DisposalsAreSafe(s.core) && Installs(s) && NothingLeaks(s) && RotationsArePrivate(s)
      && CloseIsFinal(s)
  }

  // ---- The critical sections keep the authority safe ----

  lemma DisposeFacts(c: Core, p: Pool)
    requires DisposalsAreSafe(c) && c.active != Some(p)
    ensures
      var d := DisposeUnleased(c, p);
      && DisposalsAreSafe(d) && d.active == c.active && d.leases == c.leases && d.closed == c.closed
      && c.disposals <= d.disposals <= c.disposals + {p}
      && (p in d.disposals || p in c.leases)
  {
  }

  lemma DropFacts(c: Core, p: Pool)
    requires DisposalsAreSafe(c) && LeaseCount(c, p) > 0
    ensures
      var d := DropLease(c, p);
      && DisposalsAreSafe(d) && d.active == c.active && d.closed == c.closed && d.disposals == c.disposals
      && d.leases.Keys <= c.leases.Keys && c.leases.Keys - {p} <= d.leases.Keys
      && forall q :: LeaseCount(d, q) == LeaseCount(c, q) - if q == p then 1 else 0
  {
  }

  lemma ReleaseFacts(c: Core, p: Pool, revoke: bool)
    requires DisposalsAreSafe(c) && LeaseCount(c, p) > 0
    ensures
      var d := Release(c, p, revoke);
      && DisposalsAreSafe(d) && d.closed == c.closed
      && d.active == (if revoke && c.active == Some(p) then None else c.active)
      && d.leases.Keys <= c.leases.Keys && c.leases.Keys - {p} <= d.leases.Keys
      && c.disposals <= d.disposals <= c.disposals + {p}
      && (p in d.leases || d.active == Some(p) || p in d.disposals)
      && forall q :: LeaseCount(d, q) == LeaseCount(c, q) - if q == p then 1 else 0
  {
    hide DisposeUnleased, DropLease;
    var revoked := if revoke && c.active == Some(p) then c.(active := None) else c;
    DropFacts(revoked, p);
    if DropLease(revoked, p).active != Some(p) {
      DisposeFacts(DropLease(revoked, p), p);
    }
    assert forall q {:trigger LeaseCount(Release(c, p, revoke), q)} ::
      LeaseCount(Release(c, p, revoke), q) == LeaseCount(DropLease(revoked, p), q);
  }

  /** What a cutover leaves active. */
  function ActiveAfter(c: Core, replacement: Option<Pool>, expected: Option<Pool>): Option<Pool> {
    if expected.Some? && c.active != expected then c.active
    else if c.closed && replacement.Some? then c.active
    else replacement
  }

  lemma CutoverFacts(c: Core, replacement: Option<Pool>, expected: Option<Pool>)
    requires DisposalsAreSafe(c)
    requires replacement.Some? ==>
      replacement.value !in c.disposals && replacement.value !in c.leases && c.active != replacement
    ensures
      var d := Cutover(c, replacement, expected);
      && DisposalsAreSafe(d) && d.closed == c.closed && d.leases == c.leases
      && d.active == ActiveAfter(c, replacement, expected)
      && c.disposals <= d.disposals
      && (forall q :: q in d.disposals ==> q in c.disposals || c.active == Some(q) || replacement == Some(q))
      && (c.active.Some? && d.active != c.active ==> c.active.value in d.disposals || c.active.value in d.leases)
      && (replacement.Some? && d.active != replacement ==> replacement.value in d.disposals)
  {
    hide DisposeUnleased;
    var next := c.(active := replacement);
    if c.active.Some? && c.active != replacement {
      DisposeFacts(next, c.active.value);
    }
    if replacement.Some? {
      if c.active != replacement {
        DisposeFacts(c, replacement.value);
      }
    }
  }

  // ---- Every step keeps the invariant ----

  lemma ReserveFacts(c: Core)
    requires DisposalsAreSafe(c) && Reserve(c).Some?
    ensures
      var (d, p) := Reserve(c).value;
      && DisposalsAreSafe(d) && c.active == d.active == Some(p) && !c.closed && !d.closed
      && d.disposals == c.disposals && d.leases.Keys == c.leases.Keys + {p}
      && forall q :: LeaseCount(d, q) == LeaseCount(c, q) + if q == p then 1 else 0
  {
  }

  lemma HolderJoins(admissions: map<Task, Admission>, t: Task, a: Admission, p: Pool)
    requires t !in admissions
    ensures |Holders(admissions[t := a], p)| == |Holders(admissions, p)| + if a.pool == p then 1 else 0
  {
    assert Holders(admissions[t := a], p) == Holders(admissions, p) + if a.pool == p then {t} else {};
  }

  lemma HolderLeaves(admissions: map<Task, Admission>, t: Task, p: Pool)
    requires t in admissions
    ensures |Holders(admissions - {t}, p)| == |Holders(admissions, p)| - if admissions[t].pool == p then 1 else 0
  {
    assert Holders(admissions, p) == Holders(admissions - {t}, p) + if admissions[t].pool == p then {t} else {};
  }

  lemma HoldersIgnoreStage(s: State, t: Task, stage: AdmissionStage, p: Pool)
    requires t in s.admissions
    ensures Holders(SetStage(s, t, stage).admissions, p) == Holders(s.admissions, p)
  {
  }

  lemma StageKeepsInv(s: State, t: Task, stage: AdmissionStage)
    requires Inv(s) && t in s.admissions
    ensures Inv(SetStage(s, t, stage))
  {
    var n := SetStage(s, t, stage);
    forall p ensures LeaseCount(n.core, p) == |Holders(n.admissions, p)| {
      HoldersIgnoreStage(s, t, stage, p);
      assert LeaseCount(s.core, p) == |Holders(s.admissions, p)|;
    }
    assert forall u, p: Pool :: Holds(n, u, p) <==> Holds(s, u, p);
  }

  lemma AdmitKeepsInv(s: State, t: Task)
    requires Inv(s) && t !in s.admissions
    ensures Inv(AfterAdmit(s, t))
  {
    var n := AfterAdmit(s, t);
    if Reserve(s.core).Some? {
      ReserveFacts(s.core);
      hide Reserve;
      var pool := Reserve(s.core).value.1;
      forall p ensures LeaseCount(n.core, p) == |Holders(n.admissions, p)| {
        HolderJoins(s.admissions, t, Admission(pool, Validating), p);
        assert LeaseCount(s.core, p) == |Holders(s.admissions, p)|;
      }
      assert forall u, p: Pool :: Holds(n, u, p) <==> Holds(s, u, p);
    }
  }

  /** What a release does to the fields, seen from the pools' side. */
  ghost predicate Released(c: Core, d: Core, p: Pool) {
    && DisposalsAreSafe(d) && d.closed == c.closed
    && (d.active == c.active || (c.active == Some(p) && d.active.None?))
    && d.leases.Keys <= c.leases.Keys && c.leases.Keys - {p} <= d.leases.Keys
    && c.disposals <= d.disposals <= c.disposals + {p}
    && (p in d.leases || d.active == Some(p) || p in d.disposals)
  }

  lemma ReleasedKeepsPools(s: State, n: State, p: Pool)
    requires Installs(s) && NothingLeaks(s) && RotationsArePrivate(s) && CloseIsFinal(s) && p in s.installed
    requires n == s.(core := n.core, admissions := n.admissions) && Released(s.core, n.core, p)
    ensures Installs(n) && NothingLeaks(n) && RotationsArePrivate(n) && CloseIsFinal(n)
  {
    assert forall u, q: Pool :: Holds(n, u, q) <==> Holds(s, u, q);
    hide Holds;
  }

  lemma ReleaseKeepsInv(s: State, t: Task)
    requires Inv(s) && t in s.admissions && s.admissions[t].stage.Leaving?
    ensures LeaseCount(s.core, s.admissions[t].pool) > 0
    ensures Inv(Next(s, ReleaseLease(t)))
  {
    hide Installs, NothingLeaks, RotationsArePrivate, CloseIsFinal, Release;
    var pool, n := s.admissions[t].pool, Next(s, ReleaseLease(t));
    assert t in Holders(s.admissions, pool);
    assert LeaseCount(s.core, pool) == |Holders(s.admissions, pool)|;
    ReleaseFacts(s.core, pool, s.admissions[t].stage.revoke);
    assert pool in s.installed by { LeasedIsInstalled(s, pool); }
    ReleasedKeepsPools(s, n, pool);
    forall p ensures LeaseCount(n.core, p) == |Holders(n.admissions, p)| {
      HolderLeaves(s.admissions, t, p);
      assert LeaseCount(s.core, p) == |Holders(s.admissions, p)|;
    }
  }

  lemma LeasedIsInstalled(s: State, p: Pool)
    requires Installs(s) && LeaseCount(s.core, p) > 0
    ensures p in s.installed
  {
  }

  lemma SameCounts(s: State, n: State)
    requires CountsHolders(s) && n.core.leases == s.core.leases && n.admissions == s.admissions
    ensures CountsHolders(n)
  {
    forall p ensures LeaseCount(n.core, p) == |Holders(n.admissions, p)| {
      assert LeaseCount(s.core, p) == |Holders(s.admissions, p)|;
    }
  }

  lemma RotationKeepsInv(s: State, t: Task, r: Rotation)
    requires Inv(s)
    requires if t in s.rotations then
        r.replacement == s.rotations[t].replacement && r.selected == s.rotations[t].selected
          && r.epoch == s.rotations[t].epoch
      else r.replacement.None? && r.selected == s.core.active && r.epoch == |s.installed|
    ensures Inv(SetRotation(s, t, r))
  {
    var n := SetRotation(s, t, r);
    assert forall u, p: Pool :: Holds(n, u, p) <==> Holds(s, u, p);
    SameCounts(s, n);
  }

  function AfterCreate(s: State, t: Task): State
    requires t in s.rotations
  {
    SetRotation(s.(created := s.created + 1), t, s.rotations[t].(replacement := Some(s.created)))
  }

  lemma CreateKeepsInv(s: State, t: Task)
    requires Inv(s) && t in s.rotations && s.rotations[t].replacement.None?
    ensures Inv(AfterCreate(s, t))
  {
    hide RotationsArePrivate;
    var n := AfterCreate(s, t);
    CreateKeepsPrivate(s, t);
    SameCounts(s, n);
    assert Holds(n, t, s.created);
    forall u, p: Pool | Holds(s, u, p) ensures Holds(n, u, p) {
    }
  }

  lemma CreateKeepsPrivate(s: State, t: Task)
    requires Installs(s) && RotationsArePrivate(s) && t in s.rotations && s.rotations[t].replacement.None?
    ensures RotationsArePrivate(AfterCreate(s, t))
  {
    var n := AfterCreate(s, t);
    forall u, p: Pool | Holds(n, u, p) ensures Holds(s, u, p) || (u == t && p == s.created) {
    }
    forall u | u in n.rotations
      ensures n.rotations[u].epoch == s.rotations[u].epoch && n.rotations[u].selected == s.rotations[u].selected
    {
    }
    assert forall u :: u in n.rotations ==> u in s.rotations;
  }

  /** A rotation gives up its replacement, which is disposed, and turns to revocation. */
  lemma DiscardKeepsInv(s: State, t: Task)
    requires Inv(s) && t in s.rotations
    ensures Inv(AfterDiscard(s, t))
  {
    hide AfterDiscard, Installs, NothingLeaks, RotationsArePrivate, CloseIsFinal;
    DiscardFields(s, t);
    SameCounts(s, AfterDiscard(s, t));
    DiscardKeepsPools(s, AfterDiscard(s, t), t);
  }

  lemma DiscardFields(s: State, t: Task)
    requires Inv(s) && t in s.rotations
    ensures
      var n, r := AfterDiscard(s, t), s.rotations[t].replacement;
      && n == s.(core := n.core, rotations := n.rotations) && DisposalsAreSafe(n.core)
      && n.rotations == s.rotations[t := s.rotations[t].(replacement := None, stage := Revoking)]
      && n.core.active == s.core.active && n.core.leases == s.core.leases && n.core.closed == s.core.closed
      && s.core.disposals <= n.core.disposals
      && (forall q :: q in n.core.disposals ==> q in s.core.disposals || r == Some(q))
      && (r.Some? ==> r.value in n.core.disposals)
  {
    var r := s.rotations[t].replacement;
    if r.Some? {
      assert Holds(s, t, r.value);
      PrivateIsUnused(s, t, r.value);
      DisposeFacts(s.core, r.value);
    }
    hide DisposeUnleased;
  }

  lemma DiscardKeepsPools(s: State, n: State, t: Task)
    requires Installs(s) && NothingLeaks(s) && RotationsArePrivate(s) && CloseIsFinal(s) && t in s.rotations
    requires n == s.(core := n.core,
                     rotations := s.rotations[t := s.rotations[t].(replacement := None, stage := Revoking)])
    requires n.core.active == s.core.active && n.core.leases == s.core.leases && n.core.closed == s.core.closed
    requires s.core.disposals <= n.core.disposals
    requires forall q :: q in n.core.disposals ==> q in s.core.disposals || s.rotations[t].replacement == Some(q)
    requires s.rotations[t].replacement.Some? ==> s.rotations[t].replacement.value in n.core.disposals
    ensures Installs(n) && NothingLeaks(n) && RotationsArePrivate(n) && CloseIsFinal(n)
  {
    assert forall u, p: Pool :: Holds(n, u, p) <==> Holds(s, u, p) && u != t;
    assert forall p: Pool :: s.rotations[t].replacement == Some(p) ==> Holds(s, t, p);
    forall p: Pool | p < n.created ensures p in n.installed || p in n.core.disposals || exists u :: Holds(n, u, p) {
      if u :| Holds(s, u, p) && u != t {
        assert Holds(n, u, p);
      }
    }
    if s.rotations[t].replacement.Some? {
      PrivateIsUnused(s, t, s.rotations[t].replacement.value);
    }
    hide Holds;
  }

  lemma PrivateIsUnused(s: State, t: Task, p: Pool)
    requires Installs(s) && RotationsArePrivate(s) && Holds(s, t, p)
    ensures s.core.active != Some(p) && p !in s.core.leases
  {
  }

  /** Installing a validated replacement, or disposing it when the authority has closed. */
  lemma CutoverKeepsInv(s: State, t: Task)
    requires Inv(s) && t in s.rotations && s.rotations[t].replacement.Some?
    ensures Inv(AfterCutover(s, t))
  {
    hide Cutover;
    var n, p := AfterCutover(s, t), s.rotations[t].replacement.value;
    assert Holds(s, t, p);
    PrivateIsUnused(s, t, p);
    CutoverFacts(s.core, Some(p), None);
    SameCounts(s, n);
    CutoverKeepsPools(s, n, t, p);
    hide *;
  }

  /** What a cutover of rotation t to pool p does to the pools: it installs p, or disposes of it once closed. */
  ghost predicate CutsOver(s: State, n: State, t: Task, p: Pool) {
    && Holds(s, t, p)
    && n == s.(core := n.core, rotations := s.rotations - {t}, installed := n.installed)
    && n.core.closed == s.core.closed && n.core.leases == s.core.leases
    && s.core.disposals <= n.core.disposals
    && (forall q :: q in n.core.disposals ==> q in s.core.disposals || s.core.active == Some(q) || q == p)
    && (s.core.active.Some? && n.core.active != s.core.active ==>
          s.core.active.value in n.core.disposals || s.core.active.value in n.core.leases)
    && if s.core.closed then n.core.active == s.core.active && n.installed == s.installed && p in n.core.disposals
       else n.core.active == Some(p) && n.installed == s.installed + [p]
  }

  lemma CutoverKeepsPools(s: State, n: State, t: Task, p: Pool)
    requires Installs(s) && NothingLeaks(s) && RotationsArePrivate(s) && CloseIsFinal(s) && CutsOver(s, n, t, p)
    ensures Installs(n) && NothingLeaks(n) && RotationsArePrivate(n) && CloseIsFinal(n)
  {
    CutoverInstalls(s, n, t, p);
    CutoverLeaksNothing(s, n, t, p);
    CutoverKeepsPrivate(s, n, t, p);
    hide NothingLeaks, Installs, RotationsArePrivate;
  }

  lemma CutoverInstalls(s: State, n: State, t: Task, p: Pool)
    requires Installs(s) && RotationsArePrivate(s) && CutsOver(s, n, t, p)
    ensures Installs(n)
  {
    if s.core.active.Some? { ActiveIsInstalled(s); }
  }

  lemma CutoverLeaksNothing(s: State, n: State, t: Task, p: Pool)
    requires NothingLeaks(s) && CutsOver(s, n, t, p)
    ensures NothingLeaks(n)
  {
    forall q: Pool | q < n.created ensures q in n.installed || q in n.core.disposals || exists u :: Holds(n, u, q) {
      if u :| Holds(s, u, q) && u != t {
        assert Holds(n, u, q);
      }
    }
  }

  lemma CutoverKeepsPrivate(s: State, n: State, t: Task, p: Pool)
    requires Installs(s) && RotationsArePrivate(s) && CutsOver(s, n, t, p)
    ensures RotationsArePrivate(n)
  {
    if s.core.active.Some? { ActiveIsInstalled(s); }
    assert forall u, q: Pool :: Holds(n, u, q) ==> Holds(s, u, q) && u != t;
  }

  ghost predicate DropsEmptyRotation(s: State, n: State) {
    exists t :: t in s.rotations && s.rotations[t].replacement.None? && n.rotations == s.rotations - {t}
  }

  lemma ActiveIsInstalled(s: State)
    requires Installs(s) && s.core.active.Some?
    ensures s.core.active.value in s.installed && s.core.active.value < s.created
  {
  }

  /** Clearing the active pool, for a failed rotation or for close. */
  lemma ClearingKeepsPools(s: State, n: State)
    requires Installs(s) && NothingLeaks(s) && RotationsArePrivate(s) && CloseIsFinal(s)
    requires n.installed == s.installed && n.created == s.created && n.admissions == s.admissions
    requires n.rotations == s.rotations || DropsEmptyRotation(s, n)
    requires n.closers <= s.closers && (n.closeFinished ==> s.closeFinished || (s.core.closed && n.core.active.None?))
    requires n.core.closed == s.core.closed && n.core.leases == s.core.leases
    requires s.core.disposals <= n.core.disposals
    requires forall q :: q in n.core.disposals ==> q in s.core.disposals || s.core.active == Some(q)
    requires n.core.active == s.core.active || (n.core.active.None?
      && (s.core.active.Some? ==> s.core.active.value in n.core.disposals || s.core.active.value in n.core.leases))
    ensures Installs(n) && NothingLeaks(n) && RotationsArePrivate(n) && CloseIsFinal(n)
  {
    assert forall u, q: Pool :: Holds(n, u, q) <==> Holds(s, u, q);
    ActiveIsNotPrivate(s);
    if s.core.active.Some? { ActiveIsInstalled(s); }
  }

  lemma ActiveIsNotPrivate(s: State)
    requires Installs(s) && RotationsArePrivate(s)
    ensures forall u, q: Pool :: Holds(s, u, q) ==> s.core.active != Some(q)
  {
  }

  /** Once its replacement is dealt with, a revoking rotation holds none. */
  ghost predicate RevokersHoldNothing(s: State) {
    forall t :: RotationAt(s, t, Revoking) ==> s.rotations[t].replacement.None?
  }

  lemma RevokeKeepsInv(s: State, t: Task)
    requires Inv(s) && RevokersHoldNothing(s) && RotationAt(s, t, Revoking)
    ensures Inv(AfterRevoke(s, t))
  {
    hide Cutover;
    var n := AfterRevoke(s, t);
    if s.rotations[t].selected.Some? {
      CutoverFacts(s.core, None, s.rotations[t].selected);
    }
    SameCounts(s, n);
    ClearingKeepsPools(s, n);
    hide *;
  }

  lemma CloseKeepsInv(s: State, t: Task)
    requires Inv(s) && t in s.closers
    ensures Inv(Next(s, CloseCutover(t)))
  {
    hide Cutover;
    var n := Next(s, CloseCutover(t));
    CutoverFacts(s.core, None, None);
    SameCounts(s, n);
    ClearingKeepsPools(s, n);
    hide *;
  }

  lemma CloseBeginKeepsInv(s: State, t: Task)
    requires Inv(s)
    ensures Inv(Next(s, CloseBegin(t)))
  {
    var n := Next(s, CloseBegin(t));
    SameCounts(s, n);
    assert forall u, q: Pool :: Holds(n, u, q) <==> Holds(s, u, q);
  }

  lemma NextKeepsRevokers(s: State, step: Step)
    requires RevokersHoldNothing(s)
    ensures RevokersHoldNothing(Next(s, step))
  {
    hide Cutover, Release, DisposeUnleased, Reserve;
    var n := Next(s, step);
    forall t | RotationAt(n, t, Revoking) ensures n.rotations[t].replacement.None? {
      assert t in s.rotations && n.rotations[t] == s.rotations[t] ==> RotationAt(s, t, Revoking);
    }
  }

  ghost predicate Good(s: State) {
    Inv(s) && RevokersHoldNothing(s)
  }

  lemma NextAdmissionKeepsInv(s: State, step: Step)
    requires Inv(s) && (step.Admit? || step.Validated? || step.Abandon? || step.Finish? || step.ReleaseLease?)
    ensures Inv(NextAdmission(s, step))
  {
    hide Inv, SetStage, AfterAdmit, Release, StillAdmits;
    if !step.Admit? && step.t !in s.admissions {
      return;
    }
    match step
    case Admit(t) => if t !in s.admissions { AdmitKeepsInv(s, t); }
    case Validated(t) =>
      StageKeepsInv(s, t, if StillAdmits(s.core, s.admissions[t].pool) then Using else Leaving(false));
    case Abandon(t, revoke) => StageKeepsInv(s, t, Leaving(revoke));
    case Finish(t) => StageKeepsInv(s, t, Leaving(false));
    case ReleaseLease(t) =>
      if s.admissions[t].stage.Leaving? {
        ReleaseKeepsInv(s, t);
        assert NextAdmission(s, step) == Next(s, step);
      }
  }

  lemma NextKeepsGood(s: State, step: Step)
    requires Good(s)
    ensures Good(Next(s, step))
  {
    hide Inv, RevokersHoldNothing, AfterCutover, AfterDiscard, AfterRevoke;
    hide AfterCreate, SetRotation, NextAdmission, Cutover;
    NextKeepsRevokers(s, step);
    match step
    case RotateBegin(t) =>
      if t !in s.rotations { RotationKeepsInv(s, t, Rotation(s.core.active, None, Preparing, |s.installed|)); }
    case RotateCreate(t) =>
      if RotationAt(s, t, Preparing) && s.rotations[t].replacement.None? { CreateKeepsInv(s, t); }
    case RotateValidated(t) =>
      if RotationAt(s, t, Preparing) { RotationKeepsInv(s, t, s.rotations[t].(stage := CuttingOver)); }
    case RotateFail(t) =>
      if RotationAt(s, t, Preparing) { RotationKeepsInv(s, t, s.rotations[t].(stage := Discarding)); }
    case RotateCutover(t) =>
      if RotationAt(s, t, CuttingOver) && s.rotations[t].replacement.Some? { CutoverKeepsInv(s, t); }
    case RotateDiscard(t) => if RotationAt(s, t, Discarding) { DiscardKeepsInv(s, t); }
    case RotateRevoke(t) => if RotationAt(s, t, Revoking) { RevokeKeepsInv(s, t); }
    case CloseBegin(t) => CloseBeginKeepsInv(s, t);
    case CloseCutover(t) => if t in s.closers { CloseKeepsInv(s, t); }
    case _ => NextAdmissionKeepsInv(s, step);
  }

  lemma InitIsGood(initial: bool)
    ensures Good(Init(initial))
  {
    var s := Init(initial);
    forall p ensures LeaseCount(s.core, p) == |Holders(s.admissions, p)| {
      assert Holders(s.admissions, p) == {};
    }
  }

  lemma {:induction false} RunKeepsGood(s: State, steps: seq<Step>)
    requires Good(s)
    ensures Good(Run(s, steps))
    decreases |steps|
  {
    hide Good, Next;
    if steps != [] {
      NextKeepsGood(s, steps[0]);
      RunKeepsGood(Next(s, steps[0]), steps[1..]);
    }
  }

  // ---- Results over every run ----

  /**
   Under any interleaving: counts match leases, nothing in use is disposed, disposals
   happen once, nothing idle is kept.
   */
  lemma PoolsAreAccountedFor(initial: bool, steps: seq<Step>, p: Pool)
    ensures
      var s := Run(Init(initial), steps);
      && LeaseCount(s.core, p) == |Holders(s.admissions, p)|
      && (s.core.active == Some(p) || LeaseCount(s.core, p) > 0 ==> p !in s.core.disposals)
      && s.core.closeCalls[p] <= 1
      && (p in s.installed && s.core.active != Some(p) && LeaseCount(s.core, p) == 0 ==> s.core.closeCalls[p] == 1)
  {
    InitIsGood(initial);
    RunKeepsGood(Init(initial), steps);
    hide Next;
  }

  /**
   When every admission and rotation has ended, each pool ever built is the active one or
   was disposed exactly once.
   */
  lemma QuiescenceLeaksNothing(initial: bool, steps: seq<Step>, p: Pool)
    ensures
      var s := Run(Init(initial), steps);
      s.admissions == map[] && s.rotations == map[] && p < s.created ==>
        s.core.leases == map[] && (s.core.active == Some(p) || s.core.closeCalls[p] == 1)
  {
    InitIsGood(initial);
    RunKeepsGood(Init(initial), steps);
    hide Next;
    var s := Run(Init(initial), steps);
    if s.admissions == map[] && s.rotations == map[] {
      NoAdmissionsNoLeases(s);
      assert forall t, q: Pool :: !Holds(s, t, q);
    }
  }

  lemma NoAdmissionsNoLeases(s: State)
    requires CountsHolders(s) && DisposalsAreSafe(s.core) && s.admissions == map[]
    ensures s.core.leases == map[]
  {
    forall q ensures q !in s.core.leases {
      assert LeaseCount(s.core, q) == |Holders(s.admissions, q)|;
      assert Holders(s.admissions, q) == {};
    }
  }

  /**
   A failed rotation clears the active pool only if nothing was installed since it
   looked; otherwise it clears nothing.
   */
  lemma FailedRotationSparesNewerPools(initial: bool, steps: seq<Step>, t: Task)
    ensures
      var s := Run(Init(initial), steps);
      var n := Next(s, RotateRevoke(t));
      n.core.active != s.core.active ==>
        && t in s.rotations && s.core.active == s.rotations[t].selected && |s.installed| == s.rotations[t].epoch
        && n.core.active.None?
  {
    InitIsGood(initial);
    RunKeepsGood(Init(initial), steps);
    var s := Run(Init(initial), steps);
    if RotationAt(s, t, Revoking) && s.rotations[t].selected.Some? {
      CutoverFacts(s.core, None, s.rotations[t].selected);
      SelectedIsNewest(s, t);
    }
    hide Cutover;
  }

  lemma SelectedIsNewest(s: State, t: Task)
    requires Installs(s) && RotationsArePrivate(s) && t in s.rotations && s.rotations[t].selected.Some?
    ensures s.core.active == s.rotations[t].selected ==> |s.installed| == s.rotations[t].epoch
  {
  }

  /** A validation failure revokes only the pool it validated. */
  lemma ReleaseRevokesOnlyItsPool(initial: bool, steps: seq<Step>, t: Task)
    ensures
      var s := Run(Init(initial), steps);
      var n := Next(s, ReleaseLease(t));
      n.core.active != s.core.active ==>
        t in s.admissions && s.admissions[t].stage == Leaving(true)
        && s.core.active == Some(s.admissions[t].pool) && n.core.active.None?
  {
    InitIsGood(initial);
    RunKeepsGood(Init(initial), steps);
    var s := Run(Init(initial), steps);
    if t in s.admissions && s.admissions[t].stage.Leaving? {
      ReleaseKeepsInv(s, t);
      ReleaseFacts(s.core, s.admissions[t].pool, s.admissions[t].stage.revoke);
    }
    hide Release;
  }

  /** What may change the active pool: its own cutover, its own failure, or close. */
  ghost predicate ByRight(s: State, step: Step, n: State) {
    match step
    case ReleaseLease(t) =>
      && t in s.admissions && s.admissions[t].stage == Leaving(true)
      && s.core.active == Some(s.admissions[t].pool) && n.core.active.None?
    case RotateRevoke(t) =>
      && t in s.rotations && s.core.active == s.rotations[t].selected && |s.installed| == s.rotations[t].epoch
      && n.core.active.None?
    case RotateCutover(t) =>
      && RotationAt(s, t, CuttingOver) && !s.core.closed
      && s.rotations[t].replacement.Some? && n.core.active == s.rotations[t].replacement
    case CloseCutover(t) => t in s.closers && s.core.closed && n.core.active.None?
    case _ => false
  }

  /**
   In every reachable state, and whatever the step: the active pool changes only by
   the failed validation of that very pool, the failed rotation that looked at it with
   nothing installed since, a rotation's own cutover while open, or close.
   */
  lemma ActiveChangesOnlyByRight(initial: bool, steps: seq<Step>, step: Step)
    ensures
      var s := Run(Init(initial), steps);
      Next(s, step).core.active != s.core.active ==> ByRight(s, step, Next(s, step))
  {
    hide Run, Next, Good;
    var s := Run(Init(initial), steps);
    if step.ReleaseLease? {
      ReleaseRevokesOnlyItsPool(initial, steps, step.t);
    } else if step.RotateRevoke? {
      FailedRotationSparesNewerPools(initial, steps, step.t);
    } else {
      InitIsGood(initial);
      RunKeepsGood(Init(initial), steps);
      if s.closers != {} { ClosersHaveClosed(s); }
      CutoversChangeActive(s, step);
    }
  }

  lemma CutoversChangeActive(s: State, step: Step)
    requires !step.ReleaseLease? && !step.RotateRevoke? && (s.closers != {} ==> s.core.closed)
    ensures Next(s, step).core.active != s.core.active ==> ByRight(s, step, Next(s, step))
  {
  }

  lemma ClosersHaveClosed(s: State)
    requires Good(s) && s.closers != {}
    ensures s.core.closed
  {
  }

  /** After close has finished nothing is active and, from the moment it began, nothing new is admitted. */
  lemma {:induction false} ClosedStaysClosed(s: State, steps: seq<Step>)
    requires Good(s) && s.core.closed
    ensures
      var n := Run(s, steps);
      && n.core.closed
      && (s.closeFinished ==> n.closeFinished && n.core.active.None?)
      && (forall t :: t in n.admissions ==> t in s.admissions)
      && (forall t :: t in n.admissions && n.admissions[t].stage.Using? ==> s.admissions[t].stage.Using?)
    decreases |steps|
  {
    if steps == [] {
      hide Next;
    } else {
      NextKeepsGood(s, steps[0]);
      ClosedStep(s, steps[0]);
      hide Next, Good;
      ClosedStaysClosed(Next(s, steps[0]), steps[1..]);
    }
  }

  lemma ClosedStep(s: State, step: Step)
    requires Good(s) && s.core.closed
    ensures
      var n := Next(s, step);
      && n.core.closed
      && (s.closeFinished ==> n.closeFinished)
      && (forall t :: t in n.admissions ==> t in s.admissions)
      && (forall t :: t in n.admissions && n.admissions[t].stage.Using? ==> s.admissions[t].stage.Using?)
  {
    hide Inv, RevokersHoldNothing;
  }

  // ---- The object itself ----

  class Lease {
    const pool: Pool
    var released: bool

    constructor (pool: Pool)
      ensures this.pool == pool && !released
    {
      this.pool := pool;
      released := false;
    }
  }

  ghost function LeasesOf(unreleased: set<Lease>, p: Pool): set<Lease> {
    set l | l in unreleased && l.pool == p
  }

  /** A pool's count is the number of its unreleased leases. */
  ghost predicate CountsLeases(c: Core, unreleased: set<Lease>) {
    forall p {:trigger LeaseCount(c, p)} :: LeaseCount(c, p) == |LeasesOf(unreleased, p)|
  }

  lemma CountsOneMore(c: Core, d: Core, unreleased: set<Lease>, lease: Lease)
    requires CountsLeases(c, unreleased) && lease !in unreleased
    requires forall q {:trigger LeaseCount(d, q)} ::
      LeaseCount(d, q) == LeaseCount(c, q) + if q == lease.pool then 1 else 0
    ensures CountsLeases(d, unreleased + {lease})
  {
    forall q ensures LeaseCount(d, q) == |LeasesOf(unreleased + {lease}, q)| {
      LeaseJoins(unreleased, lease, q);
      assert LeaseCount(c, q) == |LeasesOf(unreleased, q)|;
    }
  }

  lemma LeaseJoins(unreleased: set<Lease>, lease: Lease, q: Pool)
    requires lease !in unreleased
    ensures |LeasesOf(unreleased + {lease}, q)| == |LeasesOf(unreleased, q)| + if q == lease.pool then 1 else 0
  {
    var more, less := LeasesOf(unreleased + {lease}, q), LeasesOf(unreleased, q);
    if q == lease.pool {
      assert more == less + {lease};
    } else {
      assert more == less;
    }
  }

  lemma CountsOneLess(c: Core, d: Core, unreleased: set<Lease>, lease: Lease)
    requires CountsLeases(c, unreleased) && lease in unreleased
    requires forall q {:trigger LeaseCount(d, q)} ::
      LeaseCount(d, q) == LeaseCount(c, q) - if q == lease.pool then 1 else 0
    ensures CountsLeases(d, unreleased - {lease})
  {
    forall q ensures LeaseCount(d, q) == |LeasesOf(unreleased - {lease}, q)| {
      assert LeasesOf(unreleased - {lease}, q) == LeasesOf(unreleased, q) - if q == lease.pool then {lease} else {};
      assert q == lease.pool ==> lease in LeasesOf(unreleased, q);
    }
  }

  lemma CountsUnchanged(c: Core, d: Core, unreleased: set<Lease>)
    requires CountsLeases(c, unreleased) && d.leases == c.leases
    ensures CountsLeases(d, unreleased)
  {
    assert forall q :: LeaseCount(d, q) == LeaseCount(c, q);
  }

  lemma UnreleasedIsCounted(c: Core, unreleased: set<Lease>, lease: Lease)
    requires CountsLeases(c, unreleased) && lease in unreleased
    ensures LeaseCount(c, lease.pool) > 0 && lease.pool in c.leases && c.leases[lease.pool] == LeaseCount(c, lease.pool)
  {
    assert lease in LeasesOf(unreleased, lease.pool);
  }

  /** What validating a pool comes to; only an unsound profile revokes the pool. */
  datatype Verdict = Sound | Busy | Unsound

  class Authority {
    var active: Option<Pool>
    var leases: map<Pool, nat>
    var disposals: set<Pool>
    var closed: bool
    ghost var closeCalls: multiset<Pool>
    ghost var issued: set<Lease>       // every lease ever handed out
    ghost var unreleased: set<Lease>

    ghost function Fields(): Core
      reads this
    {
      Core(active, leases, disposals, closeCalls, closed)
    }

    ghost predicate Valid()
      reads this, issued
    {
      && DisposalsAreSafe(Fields()) && CountsLeases(Fields(), unreleased)
      && unreleased <= issued && forall l :: l in issued ==> (l.released <==> l !in unreleased)
    }

    constructor (initial: Option<Pool>)
      ensures Valid() && issued == {} && Fields() == Core(initial, map[], {}, multiset{}, false)
    {
      active, leases, disposals, closed, closeCalls := initial, map[], {}, false, multiset{};
      issued, unreleased := {}, {};
      new;
      assert forall p :: LeasesOf({}, p) == {};
    }

    /** Start a pool's disposal unless it is leased or already being disposed. */
    method Dispose(p: Pool)
      modifies this`disposals, this`closeCalls
      ensures Fields() == DisposeUnleased(old(Fields()), p)
    {
      var count := if p in leases then leases[p] else 0;
      if count > 0 {
        return;
      }
      if p !in disposals {
        disposals := disposals + {p};
        closeCalls := closeCalls + multiset{p};
      }
    }

    /** First critical section of an admission: reserve the active pool, or refuse. */
    method Admit() returns (r: Option<Lease>)
      requires Valid()
      modifies this
      ensures Valid()
      ensures match r
        case None => Reserve(old(Fields())).None? && Fields() == old(Fields()) && issued == old(issued)
        case Some(lease) =>
          && fresh(lease) && !lease.released && issued == old(issued) + {lease}
          && Reserve(old(Fields())) == Some((Fields(), lease.pool))
    {
      hide DisposalsAreSafe, CountsLeases;
      if active.None? || closed {
        return None;
      }
      var p := active.value;
      var lease := new Lease(p);
      ReserveFacts(Fields());
      leases := leases[p := (if p in leases then leases[p] else 0) + 1];
      issued := issued + {lease};
      CountsOneMore(old(Fields()), Fields(), unreleased, lease);
      unreleased := unreleased + {lease};
      r := Some(lease);
    }

    method Uncount(p: Pool)
      requires LeaseCount(Fields(), p) > 0
      modifies this`leases
      ensures Fields() == DropLease(old(Fields()), p)
    {
      var count := leases[p] - 1;
      leases := if count > 0 then leases[p := count] else leases - {p};
    }

    /** Give a lease back once; giving it back again changes nothing. */
    method GiveBack(lease: Lease, revoke: bool)
      requires Valid() && lease in issued
      modifies this, lease
      ensures Valid() && lease.released && issued == old(issued)
      ensures !old(lease.released) ==> LeaseCount(old(Fields()), lease.pool) > 0
      ensures Fields() == if old(lease.released) then old(Fields()) else Release(old(Fields()), lease.pool, revoke)
    {
      hide DisposalsAreSafe, CountsLeases, DisposeUnleased, DropLease;
      if lease.released {
        return;
      }
      var p := lease.pool;
      UnreleasedIsCounted(Fields(), unreleased, lease);
      ReleaseFacts(Fields(), p, revoke);
      lease.released := true;
      if revoke && active == Some(p) {
        active := None;
      }
      Uncount(p);
      if active != Some(p) {
        Dispose(p);
      }
      CountsOneLess(old(Fields()), Fields(), unreleased, lease);
      unreleased := unreleased - {lease};
    }

    /**
     The rest of an admission, after validation: the lease is kept, on a pool that
     is in use and will not be disposed of, or it is given back.
     */
    method Conclude(lease: Lease, verdict: Verdict) returns (admitted: bool)
      requires Valid() && lease in issued && !lease.released
      modifies this, lease
      ensures Valid() && issued == old(issued) && LeaseCount(old(Fields()), lease.pool) > 0
      ensures admitted <==> !lease.released
      ensures admitted ==>
        && verdict.Sound? && !closed && active == Some(lease.pool) && Fields() == old(Fields())
        && LeaseCount(Fields(), lease.pool) > 0 && lease.pool !in disposals
      ensures !admitted ==>
        && (verdict.Sound? ==> closed || active != Some(lease.pool))
        && Fields() == Release(old(Fields()), lease.pool, verdict.Unsound?)
        && LeaseCount(Fields(), lease.pool) == LeaseCount(old(Fields()), lease.pool) - 1
        && (verdict.Unsound? ==> active != Some(lease.pool))
    {
      UnreleasedIsCounted(Fields(), unreleased, lease);
      hide CountsLeases, Release;
      admitted := verdict.Sound? && !closed && active == Some(lease.pool);
      if !admitted {
        ReleaseFacts(Fields(), lease.pool, verdict.Unsound?);
        GiveBack(lease, verdict.Unsound?);
      }
    }

    /** Install a replacement, or none; a failed rotation clears only the pool it expected. */
    method Switch(replacement: Option<Pool>, expected: Option<Pool>) returns (refused: bool)
      requires Valid()
      requires replacement.Some? ==>
        replacement.value !in disposals && replacement.value !in leases && active != replacement
      modifies this
      ensures Valid() && issued == old(issued)
      ensures Fields() == Cutover(old(Fields()), replacement, expected)
      ensures refused <==> old(closed) && replacement.Some? && (expected.Some? ==> old(active) == expected)
    {
      hide DisposalsAreSafe, CountsLeases, DisposeUnleased;
      CutoverFacts(Fields(), replacement, expected);
      refused := false;
      if expected.Some? && active != expected {
      } else if closed && replacement.Some? {
        refused := true;
      } else {
        var previous := active;
        active := replacement;
        if previous.Some? {
          Dispose(previous.value);
        }
      }
      if replacement.Some? && replacement != active {
        Dispose(replacement.value);
      }
      CountsUnchanged(old(Fields()), Fields(), unreleased);
    }

    /** Dispose a replacement that never came into use. */
    method Discard(replacement: Pool)
      requires Valid() && active != Some(replacement)
      modifies this
      ensures Valid() && issued == old(issued) && Fields() == DisposeUnleased(old(Fields()), replacement)
    {
      hide DisposalsAreSafe, CountsLeases;
      DisposeFacts(Fields(), replacement);
      Dispose(replacement);
      CountsUnchanged(old(Fields()), Fields(), unreleased);
    }

    /** Refuse further admissions and replacements, then take the active pool out of use. */
    method Close()
      requires Valid()
      modifies this
      ensures Valid() && issued == old(issued) && closed && active.None?
      ensures Fields() == Cutover(old(Fields()).(closed := true), None, None)
    {
      hide CountsLeases, Cutover;
      CutoverFacts(Fields().(closed := true), None, None);
      closed := true;
      CountsUnchanged(old(Fields()), Fields(), unreleased);
      var refused := Switch(None, None);
    }
  }
}
