/**
 The resource ownership registry: which module generation owns a resource
 namespace at a contract version, under which aliases, with which providers; and
 the validations an owner operation must consume within one transaction.
 */
module ResourceOwnership {
  import opened Wrappers
  import opened Collections
  import opened Sorting
  import ContributionGate

  type Name = nat
  type ContractVersion = nat
  type Token = nat
  type Generation = ContributionGate.Generation
  type States = ContributionGate.States

  /** A claimed name at a contract version. */
  datatype Key = Key(name: Name, version: ContractVersion)

  datatype Ownership = Ownership(owner: nat, namespace: Name, aliases: seq<Name>, version: ContractVersion)

  datatype Binding = Binding(ownership: Ownership, generation: Generation)

  datatype Kind = Facts | Operation

  datatype Entry = Entry(binding: Binding, kind: Kind, provider: nat, actions: set<nat>)

  datatype Registry = Registry(
    bindings: map<Key, Binding>,
    aliases: map<Key, Key>,
    providers: map<(Key, Kind), Entry>,
    coordinators: map<Generation, Token>)

  datatype Refusal =
    NotStaged | WrongOwner | NotCanonical | AlreadyClaimed | NotDeclared | AlreadyRegistered | AlreadyApproved

  /** Whether a namespace lies under an owner's own prefix. */
  type Prefixes = (nat, Name) -> bool

  function Canonical(o: Ownership): Key {
    Key(o.namespace, o.version)
  }

  /** The names one declaration claims, its namespace first. */
  function NamesOf(o: Ownership): (keys: seq<Key>)
    ensures |keys| == 1 + |o.aliases| && keys[0] == Canonical(o)
    ensures forall i :: 0 <= i < |o.aliases| ==> keys[i + 1] == Key(o.aliases[i], o.version)
  {
    [Canonical(o)] + seq(|o.aliases|, i requires 0 <= i < |o.aliases| => Key(o.aliases[i], o.version))
  }

  predicate Claimed(r: Registry, key: Key) {
    key in r.bindings || key in r.aliases
  }

  predicate Belongs(under: Prefixes, g: Generation, o: Ownership) {
    o.owner == g.owner && under(g.owner, o.namespace)
  }

  // ---- Staging ----

  /** Claim names one after the other; None at the first that is taken. */
  function ClaimNames(r: Registry, taken: set<Key>, keys: seq<Key>): Option<set<Key>>
    decreases |keys|
  {
    if keys == [] then Some(taken)
    else if keys[0] in taken || Claimed(r, keys[0]) then None
    else ClaimNames(r, taken + {keys[0]}, keys[1..])
  }

  function CheckClaims(
    under: Prefixes, r: Registry, g: Generation, taken: set<Key>, declared: seq<Ownership>): Result<set<Key>, Refusal>
    decreases |declared|
  {
    if declared == [] then Ok(taken)
    else if !Belongs(under, g, declared[0]) then Err(NotCanonical)
    else
      match ClaimNames(r, taken, NamesOf(declared[0]))
      case None => Err(AlreadyClaimed)
      case Some(more) => CheckClaims(under, r, g, more, declared[1..])
  }

  function InstallAliases(aliases: map<Key, Key>, o: Ownership, n: nat): map<Key, Key>
    requires n <= |o.aliases|
  {
    if n == 0 then aliases else InstallAliases(aliases, o, n - 1)[Key(o.aliases[n - 1], o.version) := Canonical(o)]
  }

  function Install(r: Registry, g: Generation, declared: seq<Ownership>): Registry
    decreases |declared|
  {
    if declared == [] then r
    else
      var n := |declared| - 1;
      InstallOne(Install(r, g, declared[..n]), g, declared[n])
  }

  function InstallOne(r: Registry, g: Generation, o: Ownership): Registry {
    r.(bindings := r.bindings[Canonical(o) := Binding(o, g)], aliases := InstallAliases(r.aliases, o, |o.aliases|))
  }

  function Stage(
    under: Prefixes, states: States, r: Registry, module_: nat, declared: seq<Ownership>, g: Generation)
    : Result<Registry, Refusal>
  {
    if !IsStaged(states, g) then Err(NotStaged)
    else if g.owner != module_ then Err(WrongOwner)
    else
      match CheckClaims(under, r, g, {}, declared)
      case Err(refusal) => Err(refusal)
      case Ok(_) => Ok(Install(r, g, declared))
  }

  predicate IsStaged(states: States, g: Generation) {
    g in states && states[g].lifecycle.Staged?
  }

  // ---- Providers, coordinators, removal and lookup ----

  /** The first declaration of a name and version. */
  function Declared(declared: seq<Ownership>, key: Key): Option<Ownership> {
    if declared == [] then None
    else if Canonical(declared[0]) == key then Some(declared[0])
    else Declared(declared[1..], key)
  }

  function RegisterProvider(
    under: Prefixes, states: States, r: Registry, module_: nat, declared: seq<Ownership>, g: Generation,
    key: Key, kind: Kind, provider: nat, actions: set<nat>): Result<Registry, Refusal>
  {
    var o := Declared(declared, key);
    if !IsStaged(states, g) then Err(NotStaged)
    else if o.None? || g.owner != module_ || o.value.owner != g.owner || !under(g.owner, key.name) then Err(NotDeclared)
    else if (key, kind) in r.providers then Err(AlreadyRegistered)
    else Ok(r.(providers := r.providers[(key, kind) := Entry(Binding(o.value, g), kind, provider, actions)]))
  }

  function Authorize(
    states: States, approved: set<nat>, r: Registry, g: Generation, token: Token): Result<Registry, Refusal>
  {
    if g.owner !in approved then Err(WrongOwner)
    else if !IsStaged(states, g) then Err(NotStaged)
    else if g in r.coordinators then Err(AlreadyApproved)
    else Ok(r.(coordinators := r.coordinators[g := token]))
  }

  function RemoveGeneration(r: Registry, g: Generation): Registry {
    var removed := set k | k in r.bindings && r.bindings[k].generation == g;
    Registry(
      map k | k in r.bindings && k !in removed :: r.bindings[k],
      map a | a in r.aliases && r.aliases[a] !in removed :: r.aliases[a],
      map k | k in r.providers && r.providers[k].binding.generation != g :: r.providers[k],
      r.coordinators - {g})
  }

  function Resolve(r: Registry, key: Key): Option<Binding> {
    var canonical := if key in r.aliases then r.aliases[key] else key;
    if canonical in r.bindings then Some(r.bindings[canonical]) else None
  }

  /** The owner of a name, while its generation is active. */
  function ResolveOwner(states: States, r: Registry, key: Key): Option<Binding> {
    var binding := Resolve(r, key);
    if binding.Some? && ContributionGate.IsActive(states, binding.value.generation) then binding else None
  }

  // ---- What the registry keeps ----

  /** No name is both a namespace and an alias, and an alias leads in one hop to a live binding that lists it. */
  ghost predicate Inv(r: Registry) {
    && (forall k :: k in r.bindings ==> k !in r.aliases && Canonical(r.bindings[k].ownership) == k)
    && (forall a :: a in r.aliases ==>
          && r.aliases[a] in r.bindings
          && a.name in r.bindings[r.aliases[a]].ownership.aliases && a.version == r.aliases[a].version)
  }

  /** All the names some declarations claim, in order. */
  function AllNames(declared: seq<Ownership>): seq<Key> {
    if declared == [] then [] else NamesOf(declared[0]) + AllNames(declared[1..])
  }

  /** Fresh, pairwise distinct names that nothing in the registry claims. */
  ghost predicate Free(r: Registry, taken: set<Key>, keys: seq<Key>) {
    Distinct(keys) && forall k :: k in keys ==> k !in taken && !Claimed(r, k)
  }

  lemma {:induction false} ClaimNamesDecides(r: Registry, taken: set<Key>, keys: seq<Key>)
    ensures ClaimNames(r, taken, keys).Some? <==> Free(r, taken, keys)
    ensures ClaimNames(r, taken, keys).Some? ==> ClaimNames(r, taken, keys).value == taken + Members(keys)
    decreases |keys|
  {
    if keys != [] {
      ClaimNamesDecides(r, taken + {keys[0]}, keys[1..]);
      FreeCons(r, taken, keys);
      assert Members(keys) == {keys[0]} + Members(keys[1..]);
    }
  }

  lemma FreeCons(r: Registry, taken: set<Key>, keys: seq<Key>)
    requires keys != []
    ensures Free(r, taken, keys) <==> keys[0] !in taken && !Claimed(r, keys[0]) && Free(r, taken + {keys[0]}, keys[1..])
  {
    if keys[0] !in taken && !Claimed(r, keys[0]) && Free(r, taken + {keys[0]}, keys[1..]) {
      forall i, j | 0 <= i < j < |keys| ensures keys[i] != keys[j] {
        assert keys[j] == keys[1..][j - 1] && keys[j] in keys[1..];
        assert i > 0 ==> keys[i] == keys[1..][i - 1];
      }
    }
    if Free(r, taken, keys) {
      forall k | k in keys[1..] ensures k in keys && k != keys[0] {
        var i :| 0 <= i < |keys[1..]| && keys[1..][i] == k;
        assert keys[i + 1] == k;
      }
      assert forall i :: 0 <= i < |keys[1..]| ==> keys[1..][i] == keys[i + 1];
    }
  }

  lemma {:induction false} FreeConcat(r: Registry, taken: set<Key>, a: seq<Key>, b: seq<Key>)
    ensures Free(r, taken, a + b) <==> Free(r, taken, a) && Free(r, taken + Members(a), b)
    decreases |a|
  {
    hide Free;
    if a == [] {
      assert a + b == b && taken + Members(a) == taken;
      NothingIsFree(r, taken);
    } else {
      FreeCons(r, taken, a);
      FreeCons(r, taken, a + b);
      assert (a + b)[1..] == a[1..] + b;
      FreeConcat(r, taken + {a[0]}, a[1..], b);
      assert taken + {a[0]} + Members(a[1..]) == taken + Members(a);
    }
  }

  lemma NothingIsFree(r: Registry, taken: set<Key>)
    ensures Free(r, taken, [])
  {
  }

  /** Declarations are accepted exactly when they are all canonical and claim fresh, distinct names. */
  lemma {:induction false} CheckClaimsDecides(
    under: Prefixes, r: Registry, g: Generation, taken: set<Key>, declared: seq<Ownership>)
    ensures CheckClaims(under, r, g, taken, declared).Ok? <==>
      (forall i :: 0 <= i < |declared| ==> Belongs(under, g, declared[i])) && Free(r, taken, AllNames(declared))
    decreases |declared|
  {
    hide Free, Belongs;
    if declared == [] {
      NothingIsFree(r, taken);
    } else {
      var names := NamesOf(declared[0]);
      ClaimNamesDecides(r, taken, names);
      FreeConcat(r, taken, names, AllNames(declared[1..]));
      CheckClaimsDecides(under, r, g, taken + Members(names), declared[1..]);
      assert (forall i :: 0 <= i < |declared| ==> Belongs(under, g, declared[i])) <==>
        Belongs(under, g, declared[0]) && forall i :: 0 <= i < |declared[1..]| ==> Belongs(under, g, declared[1..][i]);
    }
  }

  lemma {:induction false} InstallAliasesFacts(aliases: map<Key, Key>, o: Ownership, n: nat)
    requires n <= |o.aliases| && forall i :: 0 <= i < n ==> Key(o.aliases[i], o.version) !in aliases
    ensures
      var r := InstallAliases(aliases, o, n);
      && (forall a :: a in r <==> a in aliases || (a.version == o.version && a.name in o.aliases[..n]))
      && (forall a :: a in aliases ==> r[a] == aliases[a])
      && (forall a :: a in r && a !in aliases ==> r[a] == Canonical(o))
    decreases n
  {
    if n > 0 {
      InstallAliasesFacts(aliases, o, n - 1);
      OneMoreAlias(o.aliases, n);
    }
  }

  lemma OneMoreAlias(aliases: seq<Name>, n: nat)
    requires 0 < n <= |aliases|
    ensures forall a :: a in aliases[..n] <==> a in aliases[..n - 1] || a == aliases[n - 1]
  {
    assert aliases[..n] == aliases[..n - 1] + [aliases[n - 1]];
  }

  /** What one installation adds: exactly the declared names, in one hop, for this generation. */
  ghost predicate Adds(r: Registry, n: Registry, g: Generation, keys: seq<Key>) {
    && Inv(n) && n.providers == r.providers && n.coordinators == r.coordinators
    && (forall k :: Claimed(n, k) <==> Claimed(r, k) || k in keys)
    && (forall k :: k in r.bindings ==> k in n.bindings && n.bindings[k] == r.bindings[k])
    && (forall a :: a in r.aliases ==> a in n.aliases && n.aliases[a] == r.aliases[a])
    && (forall k :: k in n.bindings && k !in r.bindings ==> k !in r.aliases && n.bindings[k].generation == g)
    && (forall a :: a in n.aliases && a !in r.aliases ==> a !in r.bindings && n.aliases[a] !in r.bindings)
  }

  /** The names are fresh where they are installed, and no alias repeats the namespace. */
  lemma FreeNames(r: Registry, o: Ownership)
    requires Free(r, {}, NamesOf(o))
    ensures !Claimed(r, Canonical(o)) && !NamesItself(o)
    ensures forall i :: 0 <= i < |o.aliases| ==> !Claimed(r, Key(o.aliases[i], o.version))
  {
    var names := NamesOf(o);
    assert names[0] in names;
    forall i | 0 <= i < |o.aliases| ensures !Claimed(r, Key(o.aliases[i], o.version)) && o.aliases[i] != o.namespace {
      assert names[i + 1] in names && names[0] != names[i + 1];
    }
  }

  predicate NamesItself(o: Ownership) {
    o.namespace in o.aliases
  }

  lemma InstallOneFields(r: Registry, g: Generation, o: Ownership)
    requires forall i :: 0 <= i < |o.aliases| ==> !Claimed(r, Key(o.aliases[i], o.version))
    ensures
      var n := InstallOne(r, g, o);
      && n.bindings == r.bindings[Canonical(o) := Binding(o, g)] && n.providers == r.providers
      && n.coordinators == r.coordinators
      && (forall a :: a in n.aliases <==> a in r.aliases || (a.version == o.version && a.name in o.aliases))
      && (forall a :: a in r.aliases ==> n.aliases[a] == r.aliases[a])
      && (forall a :: a in n.aliases && a !in r.aliases ==> n.aliases[a] == Canonical(o))
  {
    InstallAliasesFacts(r.aliases, o, |o.aliases|);
    assert o.aliases[..|o.aliases|] == o.aliases;
  }

  lemma AliasesAreFree(r: Registry, o: Ownership)
    requires Free(r, {}, NamesOf(o))
    ensures forall a: Key :: a.version == o.version && a.name in o.aliases ==> !Claimed(r, a) && a != Canonical(o)
  {
    FreeNames(r, o);
    forall a: Key | a.version == o.version && a.name in o.aliases ensures !Claimed(r, a) && a != Canonical(o) {
      var i :| 0 <= i < |o.aliases| && o.aliases[i] == a.name;
      assert a == Key(o.aliases[i], o.version);
    }
  }

  lemma InstallOneAdds(r: Registry, g: Generation, o: Ownership)
    requires Inv(r) && Free(r, {}, NamesOf(o))
    ensures Adds(r, InstallOne(r, g, o), g, NamesOf(o))
  {
    hide Free, InstallOne, NamesOf, NamesItself;
    FreeNames(r, o);
    AliasesAreFree(r, o);
    InstallOneFields(r, g, o);
    AliasNames(o);
    InstallOneKeepsInv(r, InstallOne(r, g, o), g, o);
    hide Inv;
  }

  lemma InstallOneKeepsInv(r: Registry, n: Registry, g: Generation, o: Ownership)
    requires Inv(r) && !Claimed(r, Canonical(o))
    requires forall a: Key :: a.version == o.version && a.name in o.aliases ==> !Claimed(r, a) && a != Canonical(o)
    requires n.bindings == r.bindings[Canonical(o) := Binding(o, g)]
    requires forall a :: a in n.aliases <==> a in r.aliases || (a.version == o.version && a.name in o.aliases)
    requires forall a :: a in r.aliases ==> n.aliases[a] == r.aliases[a]
    requires forall a :: a in n.aliases && a !in r.aliases ==> n.aliases[a] == Canonical(o)
    ensures Inv(n)
  {
  }

  lemma AliasNames(o: Ownership)
    ensures forall k :: k in NamesOf(o) <==> k == Canonical(o) || (k.version == o.version && k.name in o.aliases)
  {
    var names := NamesOf(o);
    forall k: Key | k.version == o.version && k.name in o.aliases ensures k in names {
      var i :| 0 <= i < |o.aliases| && o.aliases[i] == k.name;
      assert names[i + 1] == k;
    }
    assert names[0] in names;
  }

  lemma Regroup(a: seq<Key>, b: seq<Key>, c: seq<Key>)
    ensures a + (b + c) == a + b + c
  {
  }

  lemma {:induction false} AllNamesSnoc(declared: seq<Ownership>)
    requires declared != []
    ensures AllNames(declared) == AllNames(declared[..|declared| - 1]) + NamesOf(declared[|declared| - 1])
    decreases |declared|
  {
    if |declared| == 1 {
      assert declared[1..] == [];
    } else {
      AllNamesSnoc(declared[1..]);
      hide NamesOf;
      var rest := declared[..|declared| - 1][1..];
      assert declared[1..][..|declared| - 2] == rest;
      Regroup(NamesOf(declared[0]), AllNames(rest), NamesOf(declared[|declared| - 1]));
    }
  }

  lemma AddsTransitive(r: Registry, m: Registry, n: Registry, g: Generation, a: seq<Key>, b: seq<Key>)
    requires Adds(r, m, g, a) && Adds(m, n, g, b)
    ensures Adds(r, n, g, a + b)
  {
    hide Inv;
  }

  lemma FreeAfterAdding(r: Registry, m: Registry, g: Generation, a: seq<Key>, b: seq<Key>)
    requires Adds(r, m, g, a) && Free(r, Members(a), b)
    ensures Free(m, {}, b)
  {
    hide Inv;
  }

  lemma {:induction false} InstallAdds(r: Registry, g: Generation, declared: seq<Ownership>)
    requires Inv(r) && Free(r, {}, AllNames(declared))
    ensures Adds(r, Install(r, g, declared), g, AllNames(declared))
    decreases |declared|
  {
    if declared != [] {
      hide Free, Inv, NamesOf, InstallOne, AllNames;
      var n := |declared| - 1;
      AllNamesSnoc(declared);
      FreeConcat(r, {}, AllNames(declared[..n]), NamesOf(declared[n]));
      assert {} + Members(AllNames(declared[..n])) == Members(AllNames(declared[..n]));
      hide Adds;
      InstallAdds(r, g, declared[..n]);
      var before := Install(r, g, declared[..n]);
      FreeAfterAdding(r, before, g, AllNames(declared[..n]), NamesOf(declared[n]));
      AddsKeepsInv(r, before, g, AllNames(declared[..n]));
      InstallOneAdds(before, g, declared[n]);
      AddsTransitive(r, before, Install(r, g, declared), g, AllNames(declared[..n]), NamesOf(declared[n]));
    }
  }

  lemma AddsKeepsInv(r: Registry, n: Registry, g: Generation, keys: seq<Key>)
    requires Adds(r, n, g, keys)
    ensures Inv(n)
  {
  }

  /**
   Staging takes all the declared names or none: it succeeds exactly for a staged owner's
   canonical, fresh, distinct names.
   */
  lemma {:induction false} StageIsAllOrNothing(
    under: Prefixes, states: States, r: Registry, module_: nat, declared: seq<Ownership>, g: Generation)
    requires Inv(r)
    ensures
      var s := Stage(under, states, r, module_, declared, g);
      && (s.Ok? <==>
            && IsStaged(states, g) && g.owner == module_
            && (forall i :: 0 <= i < |declared| ==> Belongs(under, g, declared[i]))
            && Free(r, {}, AllNames(declared)))
      && (s.Ok? ==> Adds(r, s.value, g, AllNames(declared)))
  {
    CheckClaimsDecides(under, r, g, {}, declared);
    if Free(r, {}, AllNames(declared)) { InstallAdds(r, g, declared); }
    hide Free, Adds, Install, CheckClaims, Belongs;
  }

  // ---- Every sequence of operations ----

  datatype Step =
    | StageStep(states: States, module_: nat, declared: seq<Ownership>, g: Generation)
    | ProviderStep(states: States, module_: nat, declared: seq<Ownership>, g: Generation, key: Key, kind: Kind,
      provider: nat, actions: set<nat>)
    | AuthorizeStep(states: States, g: Generation, token: Token)
    | RemoveStep(g: Generation)

  function OrElse(s: Result<Registry, Refusal>, r: Registry): Registry {
    match s
    case Ok(n) => n
    case Err(_) => r
  }

  function Next(under: Prefixes, approved: set<nat>, r: Registry, step: Step): Registry {
    match step
    case StageStep(states, module_, declared, g) => OrElse(Stage(under, states, r, module_, declared, g), r)
    case ProviderStep(states, module_, declared, g, key, kind, provider, actions) =>
      OrElse(RegisterProvider(under, states, r, module_, declared, g, key, kind, provider, actions), r)
    case AuthorizeStep(states, g, token) => OrElse(Authorize(states, approved, r, g, token), r)
    case RemoveStep(g) => RemoveGeneration(r, g)
  }

  function Run(under: Prefixes, approved: set<nat>, r: Registry, steps: seq<Step>): Registry
    decreases |steps|
  {
    if steps == [] then r else Next(under, approved, Run(under, approved, r, steps[..|steps| - 1]), steps[|steps| - 1])
  }

  lemma RemoveKeepsInv(r: Registry, g: Generation)
    requires Inv(r)
    ensures Inv(RemoveGeneration(r, g))
  {
  }

  lemma NextKeepsInv(under: Prefixes, approved: set<nat>, r: Registry, step: Step)
    requires Inv(r)
    ensures Inv(Next(under, approved, r, step))
  {
    match step
    case StageStep(states, module_, declared, g) =>
      StageIsAllOrNothing(under, states, r, module_, declared, g);
      if Stage(under, states, r, module_, declared, g).Ok? {
        AddsKeepsInv(r, Stage(under, states, r, module_, declared, g).value, g, AllNames(declared));
      }
      hide Stage, Adds, Free, Inv;
    case RemoveStep(g) => RemoveKeepsInv(r, g); hide Inv, RemoveGeneration;
    case _ =>
  }

  lemma {:induction false} RunKeepsInv(under: Prefixes, approved: set<nat>, r: Registry, steps: seq<Step>)
    requires Inv(r)
    ensures Inv(Run(under, approved, r, steps))
    decreases |steps|
  {
    if steps != [] {
      RunKeepsInv(under, approved, r, steps[..|steps| - 1]);
      NextKeepsInv(under, approved, Run(under, approved, r, steps[..|steps| - 1]), steps[|steps| - 1]);
      hide Next, Inv;
    }
  }

  function Empty(): Registry {
    Registry(map[], map[], map[], map[])
  }

  /**
   In every reachable registry no name is both a namespace and an alias, and every
   alias leads in one hop to a live binding that lists it.
   */
  lemma ClaimsStayDisjoint(under: Prefixes, approved: set<nat>, steps: seq<Step>)
    ensures
      var r := Run(under, approved, Empty(), steps);
      && (forall k :: k in r.bindings ==> k !in r.aliases && Canonical(r.bindings[k].ownership) == k)
      && (forall a :: a in r.aliases ==>
            && r.aliases[a] in r.bindings && r.aliases[a] !in r.aliases
            && a.name in r.bindings[r.aliases[a]].ownership.aliases && a.version == r.aliases[a].version)
  {
    RunKeepsInv(under, approved, Empty(), steps);
    hide Run;
  }

  /** A generation that has left no trace in the registry. */
  ghost predicate Untouched(r: Registry, g: Generation) {
    && (forall k :: k in r.bindings ==> r.bindings[k].generation != g)
    && (forall k :: k in r.providers ==> r.providers[k].binding.generation != g)
    && g !in r.coordinators
  }

  /** The registry is what it was before, plus entries of one generation. */
  ghost predicate OnlyAdds(r: Registry, n: Registry, g: Generation) {
    && Inv(n)
    && (forall k :: k in r.bindings ==> k in n.bindings && n.bindings[k] == r.bindings[k])
    && (forall k :: k in n.bindings && k !in r.bindings ==> n.bindings[k].generation == g)
    && (forall a :: a in r.aliases ==> a in n.aliases && n.aliases[a] == r.aliases[a])
    && (forall a :: a in n.aliases && a !in r.aliases ==> n.aliases[a] !in r.bindings)
    && (forall k :: k in r.providers ==> k in n.providers && n.providers[k] == r.providers[k])
    && (forall k :: k in n.providers && k !in r.providers ==> n.providers[k].binding.generation == g)
    && (forall h :: h in r.coordinators ==> h in n.coordinators && n.coordinators[h] == r.coordinators[h])
    && (forall h :: h in n.coordinators && h !in r.coordinators ==> h == g)
  }

  predicate Builds(step: Step, g: Generation) {
    !step.RemoveStep? && step.g == g
  }

  lemma AddsOnlyAdds(r: Registry, m: Registry, n: Registry, g: Generation, keys: seq<Key>)
    requires OnlyAdds(r, m, g) && Adds(m, n, g, keys)
    ensures OnlyAdds(r, n, g)
  {
    hide Inv, Claimed;
  }

  lemma ProviderOnlyAdds(r: Registry, m: Registry, g: Generation, k: (Key, Kind), entry: Entry)
    requires OnlyAdds(r, m, g) && k !in m.providers && entry.binding.generation == g
    ensures OnlyAdds(r, m.(providers := m.providers[k := entry]), g)
  {
  }

  lemma CoordinatorOnlyAdds(r: Registry, m: Registry, g: Generation, token: Token)
    requires OnlyAdds(r, m, g) && g !in m.coordinators
    ensures OnlyAdds(r, m.(coordinators := m.coordinators[g := token]), g)
  {
  }

  lemma StepOnlyAdds(under: Prefixes, approved: set<nat>, r: Registry, m: Registry, step: Step, g: Generation)
    requires OnlyAdds(r, m, g) && Builds(step, g)
    ensures OnlyAdds(r, Next(under, approved, m, step), g)
  {
    hide OnlyAdds, Stage, Free, Inv, Adds;
    assert Inv(m) by { OnlyAddsKeepsInv(r, m, g); }
    match step
    case StageStep(states, module_, declared, h) =>
      StageIsAllOrNothing(under, states, m, module_, declared, h);
      if Stage(under, states, m, module_, declared, h).Ok? {
        AddsOnlyAdds(r, m, Stage(under, states, m, module_, declared, h).value, g, AllNames(declared));
      }
    case ProviderStep(states, module_, declared, h, key, kind, provider, actions) =>
      if RegisterProvider(under, states, m, module_, declared, h, key, kind, provider, actions).Ok? {
        ProviderOnlyAdds(r, m, g, (key, kind),
          Entry(Binding(Declared(declared, key).value, h), kind, provider, actions));
      }
    case AuthorizeStep(states, h, token) =>
      if Authorize(states, approved, m, h, token).Ok? { CoordinatorOnlyAdds(r, m, g, token); }
  }

  lemma OnlyAddsKeepsInv(r: Registry, n: Registry, g: Generation)
    requires OnlyAdds(r, n, g)
    ensures Inv(n)
  {
  }

  lemma {:induction false} BuildingOnlyAdds(
    under: Prefixes, approved: set<nat>, r: Registry, steps: seq<Step>, g: Generation)
    requires Inv(r) && forall i :: 0 <= i < |steps| ==> Builds(steps[i], g)
    ensures OnlyAdds(r, Run(under, approved, r, steps), g)
    decreases |steps|
  {
    if steps != [] {
      BuildingOnlyAdds(under, approved, r, steps[..|steps| - 1], g);
      StepOnlyAdds(under, approved, r, Run(under, approved, r, steps[..|steps| - 1]), steps[|steps| - 1], g);
      hide Next, Inv, OnlyAdds;
    }
  }

  /**
   Whatever one fresh generation staged and registered, taking the generation out
   again puts the registry back exactly.
   */
  lemma RemovalUndoesAGeneration(under: Prefixes, approved: set<nat>, r: Registry, steps: seq<Step>, g: Generation)
    requires Inv(r) && Untouched(r, g) && forall i :: 0 <= i < |steps| ==> Builds(steps[i], g)
    ensures RemoveGeneration(Run(under, approved, r, steps), g) == r
  {
    BuildingOnlyAdds(under, approved, r, steps, g);
    hide Run;
    RemovalSubtracts(r, Run(under, approved, r, steps), g);
  }

  lemma RemovalSubtracts(r: Registry, n: Registry, g: Generation)
    requires Inv(r) && Untouched(r, g) && OnlyAdds(r, n, g)
    ensures RemoveGeneration(n, g) == r
  {
    hide RemoveGeneration, Inv, Untouched, OnlyAdds;
    RemovalSubtractsClaims(r, n, g);
    RemovalSubtractsProviders(r, n, g);
  }

  lemma RemovalSubtractsClaims(r: Registry, n: Registry, g: Generation)
    requires Inv(r) && Untouched(r, g) && OnlyAdds(r, n, g)
    ensures RemoveGeneration(n, g).bindings == r.bindings && RemoveGeneration(n, g).aliases == r.aliases
  {
  }

  lemma RemovalSubtractsProviders(r: Registry, n: Registry, g: Generation)
    requires Untouched(r, g) && OnlyAdds(r, n, g)
    ensures RemoveGeneration(n, g).providers == r.providers && RemoveGeneration(n, g).coordinators == r.coordinators
  {
    hide Inv;
  }

  /**
   In every reachable registry a namespace and each of its aliases resolve to the same
   live owner, which lists them.
   */
  lemma AliasesResolveAlike(under: Prefixes, approved: set<nat>, steps: seq<Step>, states: States, key: Key)
    ensures
      var r := Run(under, approved, Empty(), steps);
      var b := ResolveOwner(states, r, key);
      b.Some? ==>
        && ContributionGate.IsActive(states, b.value.generation)
        && (key == Canonical(b.value.ownership)
              || (key.version == b.value.ownership.version && key.name in b.value.ownership.aliases))
        && ResolveOwner(states, r, Canonical(b.value.ownership)) == b
  {
    RunKeepsInv(under, approved, Empty(), steps);
    hide Run;
  }

  // ---- Validation before an owner operation ----

  type ScopeId = nat

  /** A provider entry, a record and an action, as validated in one transaction scope. */
  datatype Validation = Validation(entry: nat, record: nat, action: nat)

  type Scopes = map<ScopeId, set<Validation>>

  datatype Call =
    | OpenScope(scope: ScopeId)
    | CloseScope(scope: ScopeId)
    | Validate(scope: ScopeId, v: Validation)
    | Apply(scope: ScopeId, v: Validation)

  /** An owner operation goes ahead only on a validation recorded in its own open scope. */
  predicate Applies(scopes: Scopes, scope: ScopeId, v: Validation) {
    scope in scopes && v in scopes[scope]
  }

  function AfterCall(scopes: Scopes, call: Call): Scopes {
    match call
    case OpenScope(scope) => if scope in scopes then scopes else scopes[scope := {}]
    case CloseScope(scope) => scopes - {scope}
    case Validate(scope, v) => if scope in scopes then scopes[scope := scopes[scope] + {v}] else scopes
    case Apply(scope, v) => if Applies(scopes, scope, v) then scopes[scope := scopes[scope] - {v}] else scopes
  }

  function Calls(scopes: Scopes, calls: seq<Call>): Scopes
    decreases |calls|
  {
    if calls == [] then scopes else AfterCall(Calls(scopes, calls[..|calls| - 1]), calls[|calls| - 1])
  }

  /** Call i validated v in this scope, and up to call n it was neither applied again nor the scope closed. */
  ghost predicate ValidatedSince(calls: seq<Call>, i: nat, n: nat, scope: ScopeId, v: Validation) {
    && i < n <= |calls| && calls[i] == Validate(scope, v)
    && forall m :: i < m < n ==> calls[m] != Apply(scope, v) && calls[m] != CloseScope(scope)
  }

  lemma NothingCalled(calls: seq<Call>)
    ensures Calls(map[], calls[..0]) == map[]
  {
  }

  /**
   Every operation that goes ahead consumes its own validation: one made earlier in the
   same scope and not used since.
   */
  lemma {:induction false} ApplyConsumesItsOwnValidation(
    calls: seq<Call>, n: nat, scope: ScopeId, v: Validation)
    returns (i: nat)
    requires n <= |calls| && Applies(Calls(map[], calls[..n]), scope, v)
    ensures ValidatedSince(calls, i, n, scope, v)
    decreases n
  {
    NothingCalled(calls);
    var before := Calls(map[], calls[..n - 1]);
    assert calls[..n][..n - 1] == calls[..n - 1];
    assert calls[..n][n - 1] == calls[n - 1];
    if calls[n - 1] == Validate(scope, v) {
      i := n - 1;
    } else {
      assert Applies(before, scope, v);
      i := ApplyConsumesItsOwnValidation(calls, n - 1, scope, v);
    }
  }

  /** Applying again without validating again is refused, whatever happens in between. */
  lemma {:induction false} AppliedIsSpent(scopes: Scopes, calls: seq<Call>, scope: ScopeId, v: Validation)
    requires !Applies(scopes, scope, v) && Validate(scope, v) !in calls
    ensures !Applies(Calls(scopes, calls), scope, v)
    decreases |calls|
  {
    if calls != [] {
      AppliedIsSpent(scopes, calls[..|calls| - 1], scope, v);
      assert calls[|calls| - 1] in calls;
    }
  }

  // ---- The registry itself ----

  class ResourceRegistry {
    const under: Prefixes
    var bindings: map<Key, Binding>
    var aliases: map<Key, Key>
    var providers: map<(Key, Kind), Entry>
    var coordinators: map<Generation, Token>

    function Contents(): Registry
      reads this
    {
      Registry(bindings, aliases, providers, coordinators)
    }

    constructor (under: Prefixes)
      ensures this.under == under && Contents() == Empty() && Inv(Contents())
    {
      this.under := under;
      bindings, aliases, providers, coordinators := map[], map[], map[], map[];
    }

    /** Check every declared name before claiming any. */
    method CheckNames(declared: seq<Ownership>, g: Generation) returns (r: Result<set<Key>, Refusal>)
      ensures r == CheckClaims(under, Contents(), g, {}, declared)
    {
      var taken: set<Key> := {};
      var i := 0;
      assert declared[0..] == declared;
      while i < |declared|
        invariant 0 <= i <= |declared|
        invariant CheckClaims(under, Contents(), g, {}, declared) ==
          CheckClaims(under, Contents(), g, taken, declared[i..])
      {
        var o := declared[i];
        assert declared[i..][0] == o && declared[i..][1..] == declared[i + 1..];
        if !(o.owner == g.owner && under(g.owner, o.namespace)) {
          return Err(NotCanonical);
        }
        var names := NamesOf(o);
        ghost var start := taken;
        var k := 0;
        assert names[0..] == names;
        while k < |names|
          invariant 0 <= k <= |names|
          invariant ClaimNames(Contents(), start, names) == ClaimNames(Contents(), taken, names[k..])
        {
          assert names[k..][0] == names[k] && names[k..][1..] == names[k + 1..];
          if names[k] in taken || names[k] in bindings || names[k] in aliases {
            return Err(AlreadyClaimed);
          }
          taken := taken + {names[k]};
          k := k + 1;
        }
        i := i + 1;
      }
      r := Ok(taken);
    }

    /** Claim all the names a staged generation declares, or none. */
    method StageClaims(
      states: States, module_: nat, declared: seq<Ownership>, g: Generation)
      returns (r: Result<(), Refusal>)
      requires Inv(Contents())
      modifies this
      ensures Contents() == OrElse(Stage(under, states, old(Contents()), module_, declared, g), old(Contents()))
      ensures Inv(Contents())
      ensures r == match Stage(under, states, old(Contents()), module_, declared, g)
                   case Ok(_) => Ok(())
                   case Err(refusal) => Err(refusal)
    {
      hide Inv, CheckClaims;
      StageKeepsInv(under, states, Contents(), module_, declared, g);
      if !IsStaged(states, g) {
        return Err(NotStaged);
      }
      if g.owner != module_ {
        return Err(WrongOwner);
      }
      var claims := CheckNames(declared, g);
      if claims.Err? {
        return Err(claims.error);
      }
      ghost var before := Contents();
      for i := 0 to |declared|
        invariant Contents() == Install(before, g, declared[..i])
      {
        assert declared[..i + 1][..i] == declared[..i];
        InstallDeclaration(declared[i], g);
      }
      assert declared[..|declared|] == declared;
      r := Ok(());
    }

    method InstallDeclaration(o: Ownership, g: Generation)
      modifies this`bindings, this`aliases
      ensures Contents() == InstallOne(old(Contents()), g, o)
    {
      var canonical := Canonical(o);
      ghost var before := aliases;
      bindings := bindings[canonical := Binding(o, g)];
      for i := 0 to |o.aliases|
        modifies this`aliases
        invariant aliases == InstallAliases(before, o, i)
      {
        aliases := aliases[Key(o.aliases[i], o.version) := canonical];
      }
    }

    method RemoveOwnerGeneration(g: Generation)
      requires Inv(Contents())
      modifies this
      ensures Contents() == RemoveGeneration(old(Contents()), g) && Inv(Contents())
    {
      RemoveKeepsInv(Contents(), g);
      var removed := set k | k in bindings && bindings[k].generation == g;
      coordinators := coordinators - {g};
      providers := map k | k in providers && providers[k].binding.generation != g :: providers[k];
      bindings := map k | k in bindings && k !in removed :: bindings[k];
      aliases := map a | a in aliases && aliases[a] !in removed :: aliases[a];
    }
  }

  lemma StageKeepsInv(
    under: Prefixes, states: States, r: Registry, module_: nat, declared: seq<Ownership>, g: Generation)
    requires Inv(r)
    ensures Inv(OrElse(Stage(under, states, r, module_, declared, g), r))
  {
    NextKeepsInv(under, {}, r, StageStep(states, module_, declared, g));
  }
}
