/** The role rules of the fabric pool check, and its supernet capacity check. */
module PoolRoles {
  import opened Prefixes
  import opened Options
  import opened FabricPool
  import opened Carve
  import opened CarveExact

  datatype Role = Management | Loopback | LoopbackVtep | FabricPointToPoint | Dci | FabricSupernet | Mlag | MlagPeering

  datatype Scope = FabricScope | PodScope

  datatype RoleError = NoRole | MixedRoles | OutOfScope | DuplicateRoles | NoFabricPool(role: Role) | NotContained(prefix: Prefix)

  datatype Resolved = Resolved(role: Role) | Refused(error: RoleError)

  datatype Pool = Pool(name: string, resourceRoles: seq<Option<string>>, prefixes: seq<Prefix>)

  const POOL_ROLE_BY_PREFIX_ROLE: map<string, Role> := map[
    "management" := Management,
    "loopback" := Loopback,
    "loopback-vtep" := LoopbackVtep,
    "fabric_point_to_point" := FabricPointToPoint,
    "dci" := Dci,
    "fabric_supernet" := FabricSupernet,
    "mlag" := Mlag,
    "mlag_peering" := MlagPeering,
    "supernet" := FabricSupernet,
    "pod_leaf_spine" := FabricPointToPoint,
    "pod_super_spine_spine" := FabricPointToPoint]

  const ALLOCATION_ORDER: seq<Role> := [Loopback, LoopbackVtep, FabricPointToPoint, Dci]

  function ScopeRoles(scope: Scope): set<Role> {
    match scope
    case FabricScope => {Management, Loopback, LoopbackVtep, FabricPointToPoint, Dci, FabricSupernet}
    case PodScope => {Loopback, LoopbackVtep, FabricPointToPoint, Mlag, MlagPeering}
  }

  function MapPrefixRole(prefixRole: Option<string>): Option<Role> {
    if prefixRole.Some? && prefixRole.value in POOL_ROLE_BY_PREFIX_ROLE
    then Some(POOL_ROLE_BY_PREFIX_ROLE[prefixRole.value])
    else None
  }

  /** The roles a pool's resources map to; resources with no known role are skipped. */
  function MappedRoles(prefixRoles: seq<Option<string>>): (r: set<Role>)
    ensures forall role :: role in r <==> exists p :: p in prefixRoles && MapPrefixRole(p) == Some(role)
  {
    if prefixRoles == [] then {}
    else
      var rest := MappedRoles(prefixRoles[1..]);
      var head := MapPrefixRole(prefixRoles[0]);
      assert forall p :: p in prefixRoles <==> p == prefixRoles[0] || p in prefixRoles[1..];
      if head.Some? then {head.value} + rest else rest
  }

  /** The roles a resource can stand for, and the texts that do. */
  lemma PrefixRolesAre(text: Option<string>)
    ensures MapPrefixRole(text) == Some(Management) <==> text == Some("management")
    ensures MapPrefixRole(text) == Some(Loopback) <==> text == Some("loopback")
    ensures MapPrefixRole(text) == Some(LoopbackVtep) <==> text == Some("loopback-vtep")
    ensures MapPrefixRole(text) == Some(FabricPointToPoint) <==>
            text in {Some("fabric_point_to_point"), Some("pod_leaf_spine"), Some("pod_super_spine_spine")}
    ensures MapPrefixRole(text) == Some(Dci) <==> text == Some("dci")
    ensures MapPrefixRole(text) == Some(FabricSupernet) <==> text in {Some("fabric_supernet"), Some("supernet")}
    ensures MapPrefixRole(text) == Some(Mlag) <==> text == Some("mlag")
    ensures MapPrefixRole(text) == Some(MlagPeering) <==> text == Some("mlag_peering")
  {
  }

  /** Only a pod has MLAG pools; only a fabric has management, DCI and supernet pools. */
  lemma ScopesAre(role: Role)
    ensures role in ScopeRoles(FabricScope) <==> role != Mlag && role != MlagPeering
    ensures role in ScopeRoles(PodScope) <==> role != Management && role != Dci && role != FabricSupernet
  {
  }

  /** Two resources of one pool map to different roles. */
  predicate Disagree(prefixRoles: seq<Option<string>>, p: Option<string>, q: Option<string>) {
    && p in prefixRoles && q in prefixRoles && MapPrefixRole(p).Some? && MapPrefixRole(q).Some?
    && MapPrefixRole(p) != MapPrefixRole(q)
  }

  /** A pool resolves exactly when its known resources agree on one role of the scope. */
  method ResolveResourceRole(prefixRoles: seq<Option<string>>, scope: Scope) returns (r: Resolved)
    ensures forall role :: r == Resolved(role) <==>
              && role in ScopeRoles(scope)
              && (exists p :: p in prefixRoles && MapPrefixRole(p) == Some(role))
              && (forall p :: p in prefixRoles && MapPrefixRole(p).Some? ==> MapPrefixRole(p).value == role)
    ensures r == Refused(NoRole) <==> forall p :: p in prefixRoles ==> MapPrefixRole(p).None?
    ensures r == Refused(MixedRoles) <==> exists p, q :: Disagree(prefixRoles, p, q)
    ensures forall p, q :: Disagree(prefixRoles, p, q) <==>
              && p in prefixRoles && q in prefixRoles && MapPrefixRole(p).Some? && MapPrefixRole(q).Some?
              && MapPrefixRole(p) != MapPrefixRole(q)
    ensures r.Refused? ==> r.error in {NoRole, MixedRoles, OutOfScope}
  {
    var mapped := MappedRoles(prefixRoles);
    if mapped == {} {
      assert forall p :: p in prefixRoles && MapPrefixRole(p).Some? ==> MapPrefixRole(p).value in mapped;
      return Refused(NoRole);
    }
    var role :| role in mapped;
    assert forall p :: p in prefixRoles && MapPrefixRole(p).Some? ==> MapPrefixRole(p).value in mapped;
    if mapped != {role} {
      var other :| other in mapped && other != role;
      var p :| p in prefixRoles && MapPrefixRole(p) == Some(role);
      var q :| q in prefixRoles && MapPrefixRole(q) == Some(other);
      assert Disagree(prefixRoles, p, q);
      return Refused(MixedRoles);
    }
    if role !in ScopeRoles(scope) {
      return Refused(OutOfScope);
    }
    return Resolved(role);
  }

  ghost predicate Distinct(roles: seq<Role>) {
    forall i, j :: 0 <= i < j < |roles| ==> roles[i] != roles[j]
  }

  lemma {:induction false} DistinctIffSingle(roles: seq<Role>)
    ensures Distinct(roles) <==> forall role :: multiset(roles)[role] <= 1
  {
    if roles != [] {
      var n := |roles| - 1;
      DistinctIffSingle(roles[..n]);
      assert roles == roles[..n] + [roles[n]];
      assert roles[n] in multiset(roles[..n]) <==> roles[n] in roles[..n];
      if roles[n] in roles[..n] {
        assert multiset(roles)[roles[n]] > 1;
      } else {
        assert forall role :: multiset(roles)[role] <= 1 <==> multiset(roles[..n])[role] <= 1;
      }
    }
  }

  /** Passes exactly when every pool's role is in scope and no two pools share one. The
      roles come in the pools' order; the pools' names only reach the message. */
  method ValidateUniqueRoles(poolRoles: seq<Role>, scope: Scope) returns (error: Option<RoleError>)
    ensures error.None? <==> Distinct(poolRoles) && forall role :: role in poolRoles ==> role in ScopeRoles(scope)
    ensures error == Some(OutOfScope) <==> exists role :: role in poolRoles && role !in ScopeRoles(scope)
    ensures error.Some? ==> error.value in {OutOfScope, DuplicateRoles}
  {
    var poolsByRole: multiset<Role> := multiset{};
    for k := 0 to |poolRoles|
      invariant forall i :: 0 <= i < k ==> poolRoles[i] in ScopeRoles(scope)
      invariant poolsByRole == multiset(poolRoles[..k])
    {
      if poolRoles[k] !in ScopeRoles(scope) {
        return Some(OutOfScope);
      }
      assert poolRoles[..k + 1] == poolRoles[..k] + [poolRoles[k]];
      poolsByRole := poolsByRole + multiset{poolRoles[k]};
    }
    assert poolRoles[..|poolRoles|] == poolRoles;
    DistinctIffSingle(poolRoles);
    if exists role :: role in poolsByRole && poolsByRole[role] > 1 {
      return Some(DuplicateRoles);
    }
    return None;
  }

  // --- Pod pools lie inside their fabric's ------------------------------------------

  function Under(prefixes: map<Role, seq<Prefix>>, role: Role): seq<Prefix> {
    if role in prefixes then prefixes[role] else []
  }

  ghost predicate Inside(p: Prefix, fabric: seq<Prefix>) {
    exists f :: f in fabric && SubnetOf(p, f)
  }

  const CONTAINED_ROLES: seq<Role> := [Loopback, LoopbackVtep, FabricPointToPoint]

  /** What the containment rule asks of one role. */
  ghost predicate RoleContained(pod: seq<Prefix>, fabric: seq<Prefix>, unconstrained: bool) {
    if fabric == [] then pod == [] || unconstrained
    else forall p :: p in pod ==> Inside(p, fabric)
  }

  method ValidatePodPoolContainment(pod: map<Role, seq<Prefix>>, fabric: map<Role, seq<Prefix>>, unconstrained: set<Role>)
    returns (error: Option<RoleError>)
    ensures error.None? <==> forall k :: 0 <= k < |CONTAINED_ROLES| ==>
              var role := CONTAINED_ROLES[k];
              RoleContained(Under(pod, role), Under(fabric, role), role in unconstrained)
    ensures match error
            case Some(NoFabricPool(role)) => Under(pod, role) != [] && Under(fabric, role) == [] && role !in unconstrained
            case Some(NotContained(p)) => exists role :: p in Under(pod, role) && Under(fabric, role) != [] && !Inside(p, Under(fabric, role))
            case Some(_) => false
            case None => true
  {
    for k := 0 to |CONTAINED_ROLES|
      invariant forall i :: 0 <= i < k ==>
                  var role := CONTAINED_ROLES[i];
                  RoleContained(Under(pod, role), Under(fabric, role), role in unconstrained)
    {
      var role := CONTAINED_ROLES[k];
      var podPrefixes, fabricPrefixes := Under(pod, role), Under(fabric, role);
      if podPrefixes == [] {
        continue;
      }
      if fabricPrefixes == [] {
        if role in unconstrained {
          continue;
        }
        return Some(NoFabricPool(role));
      }
      for i := 0 to |podPrefixes|
        invariant forall j :: 0 <= j < i ==> Inside(podPrefixes[j], fabricPrefixes)
      {
        var contained := InsideAny(podPrefixes[i], fabricPrefixes);
        if !contained {
          assert podPrefixes[i] in podPrefixes;
          return Some(NotContained(podPrefixes[i]));
        }
      }
    }
    return None;
  }

  /** The same in addresses: for loopbacks, VTEPs and point-to-point links either the pod
      has no prefixes, or the fabric has none and leaves the role to its supernet, or every
      address of the pod's is one of the fabric's within one prefix. */
  lemma ContainmentByAddress(pod: map<Role, seq<Prefix>>, fabric: map<Role, seq<Prefix>>, unconstrained: set<Role>, error: Option<RoleError>)
    requires error.None? <==> forall k :: 0 <= k < |CONTAINED_ROLES| ==>
               var role := CONTAINED_ROLES[k];
               RoleContained(Under(pod, role), Under(fabric, role), role in unconstrained)
    ensures error.None? <==> forall role :: role in {Loopback, LoopbackVtep, FabricPointToPoint} && role in pod && pod[role] != [] ==>
              if role in fabric && fabric[role] != [] then
                forall p :: p in pod[role] ==> exists f :: f in fabric[role] && forall a :: Holds(p, a) ==> Holds(f, a)
              else role in unconstrained
  {
    assert CONTAINED_ROLES[0] == Loopback && CONTAINED_ROLES[1] == LoopbackVtep && CONTAINED_ROLES[2] == FabricPointToPoint;
    forall p: Prefix, f: Prefix ensures SubnetOf(p, f) <==> forall a :: Holds(p, a) ==> Holds(f, a) {
      SubnetIffSubset(p, f);
    }
  }

  method InsideAny(p: Prefix, fabric: seq<Prefix>) returns (r: bool)
    ensures r <==> Inside(p, fabric)
  {
    for j := 0 to |fabric|
      invariant forall i :: 0 <= i < j ==> !SubnetOf(p, fabric[i])
    {
      if p.version == fabric[j].version && SubnetOf(p, fabric[j]) {
        return true;
      }
    }
    return false;
  }

  /** Containment at address level: nothing the pod can hand out lies outside the
      fabric's prefixes for that role. */
  lemma ContainedAddresses(pod: seq<Prefix>, fabric: seq<Prefix>, a: Address)
    requires fabric != [] && RoleContained(pod, fabric, false)
    requires exists p :: p in pod && Holds(p, a)
    ensures exists f :: f in fabric && Holds(f, a)
  {
    var p :| p in pod && Holds(p, a);
    var f :| f in fabric && SubnetOf(p, f);
    SubnetIffSubset(p, f);
  }

  // --- Capacity of the Fabric Supernet -----------------------------------------------

  function PrefixLength(role: Role): nat {
    match role
    case FabricPointToPoint => 24
    case Dci => 24
    case _ => 27
  }

  /** The missing roles in allocation order. */
  function RolesToCarve(missing: set<Role>, order: seq<Role>): seq<Role> {
    if order == [] then []
    else if order[0] in missing then [order[0]] + RolesToCarve(missing, order[1..])
    else RolesToCarve(missing, order[1..])
  }

  function Lengths(roles: seq<Role>): (lens: seq<nat>)
    ensures |lens| == |roles|
    ensures forall i :: 0 <= i < |roles| ==> lens[i] == PrefixLength(roles[i])
  {
    seq(|roles|, i requires 0 <= i < |roles| => PrefixLength(roles[i]))
  }

  /** `_pool_for_role`: the first attached pool that resolved to the supernet role. */
  function SupernetPool(pools: seq<Pool>, poolsByRole: map<string, Role>): Option<Pool> {
    if pools == [] then None
    else if pools[0].name in poolsByRole && poolsByRole[pools[0].name] == FabricSupernet then Some(pools[0])
    else SupernetPool(pools[1..], poolsByRole)
  }

  /** Prefixes already spoken for: every attached pool without a supernet resource,
      then every pool of a relationship that predates the collection. */
  function UsedPrefixes(pools: seq<Pool>, legacy: seq<Pool>): seq<Prefix> {
    if pools != [] then
      (if FabricSupernet in MappedRoles(pools[0].resourceRoles) then [] else pools[0].prefixes)
      + UsedPrefixes(pools[1..], legacy)
    else if legacy != [] then legacy[0].prefixes + UsedPrefixes([], legacy[1..])
    else []
  }

  /** A prefix is spoken for exactly when it belongs to an attached pool none of whose
      resources is a supernet, or to a pool of an older relationship. */
  lemma {:induction false} UsedPrefixesAre(pools: seq<Pool>, legacy: seq<Pool>, p: Prefix)
    ensures p in UsedPrefixes(pools, legacy) <==>
            || (exists i :: 0 <= i < |pools| && p in pools[i].prefixes
                  && Some("fabric_supernet") !in pools[i].resourceRoles && Some("supernet") !in pools[i].resourceRoles)
            || (exists i :: 0 <= i < |legacy| && p in legacy[i].prefixes)
    decreases |pools| + |legacy|
  {
    if pools != [] {
      UsedPrefixesAre(pools[1..], legacy, p);
      forall text ensures MapPrefixRole(text) == Some(FabricSupernet) <==> text in {Some("fabric_supernet"), Some("supernet")} {
        PrefixRolesAre(text);
      }
      assert forall i :: 0 < i < |pools| ==> pools[i] == pools[1..][i - 1];
    } else if legacy != [] {
      UsedPrefixesAre([], legacy[1..], p);
      assert forall i :: 0 < i < |legacy| ==> legacy[i] == legacy[1..][i - 1];
    }
  }

  /** The supernet is the first attached pool that resolved to that role. */
  lemma {:induction false} SupernetPoolIs(pools: seq<Pool>, poolsByRole: map<string, Role>)
    ensures match SupernetPool(pools, poolsByRole)
            case None => forall i :: 0 <= i < |pools| && pools[i].name in poolsByRole ==> poolsByRole[pools[i].name] != FabricSupernet
            case Some(supernet) =>
              exists i :: 0 <= i < |pools| && pools[i] == supernet && supernet.name in poolsByRole
                && poolsByRole[supernet.name] == FabricSupernet
                && forall j :: 0 <= j < i && pools[j].name in poolsByRole ==> poolsByRole[pools[j].name] != FabricSupernet
  {
    if pools != [] && !(pools[0].name in poolsByRole && poolsByRole[pools[0].name] == FabricSupernet) {
      SupernetPoolIs(pools[1..], poolsByRole);
      assert forall i :: 0 < i < |pools| ==> pools[i] == pools[1..][i - 1];
      if SupernetPool(pools, poolsByRole).Some? {
        var i :| 0 <= i < |pools[1..]| && pools[1..][i] == SupernetPool(pools, poolsByRole).value
              && forall j :: 0 <= j < i && pools[1..][j].name in poolsByRole ==> poolsByRole[pools[1..][j].name] != FabricSupernet;
        assert pools[i + 1] == pools[1..][i];
      }
    }
  }

  /** What is carved, in order: loopbacks, VTEPs, point-to-point links, DCI links. */
  lemma RolesInOrder(missing: set<Role>)
    ensures RolesToCarve(missing, ALLOCATION_ORDER)
            == (if Loopback in missing then [Loopback] else []) + (if LoopbackVtep in missing then [LoopbackVtep] else [])
               + (if FabricPointToPoint in missing then [FabricPointToPoint] else []) + (if Dci in missing then [Dci] else [])
  {
    assert ALLOCATION_ORDER == [Loopback] + [LoopbackVtep] + [FabricPointToPoint] + [Dci];
    CarveOneMore(missing, [], Loopback);
    CarveOneMore(missing, [Loopback], LoopbackVtep);
    CarveOneMore(missing, [Loopback] + [LoopbackVtep], FabricPointToPoint);
    CarveOneMore(missing, [Loopback] + [LoopbackVtep] + [FabricPointToPoint], Dci);
    assert [] + [Loopback] == [Loopback];
  }

  lemma CarveOneMore(missing: set<Role>, order: seq<Role>, role: Role)
    ensures RolesToCarve(missing, order + [role]) == RolesToCarve(missing, order) + if role in missing then [role] else []
  {
    CarveConcat(missing, order, [role]);
    assert [role][1..] == [];
  }

  /** `out` is such a carve, and the role reported is the first one it does not serve. */
  ghost predicate CarvedAs(supernets: seq<Prefix>, used: seq<Prefix>, roles: seq<Role>, out: seq<Prefix>, finding: Option<Role>) {
    Finished(supernets, used, Lengths(roles), out) && finding == if |out| == |roles| then None else Some(roles[|out|])
  }

  /** The role reported is the first one a greedy carve of the missing roles cannot place. */
  ghost predicate CapacityFinding(supernets: seq<Prefix>, used: seq<Prefix>, roles: seq<Role>, finding: Option<Role>) {
    exists out :: CarvedAs(supernets, used, roles, out, finding)
  }

  method ValidateSupernetCapacity(missing: set<Role>, poolsByRole: map<string, Role>, pools: seq<Pool>, legacy: seq<Pool>)
    returns (finding: Option<Role>)
    ensures var roles := RolesToCarve(missing, ALLOCATION_ORDER);
            match SupernetPool(pools, poolsByRole)
            case None => finding == None
            case Some(supernet) => CapacityFinding(supernet.prefixes, UsedPrefixes(pools, legacy), roles, finding)
  {
    var roles := RolesToCarve(missing, ALLOCATION_ORDER);
    var supernet := SupernetPool(pools, poolsByRole);
    if supernet.None? {
      return None;
    }
    var supernets, used := supernet.value.prefixes, UsedPrefixes(pools, legacy);
    var blocks := [];
    for i := 0 to |roles|
      invariant |blocks| == i && Greedy(supernets, used, Lengths(roles), blocks)
    {
      var next := NextAvailablePrefix(supernets, used + blocks, PrefixLength(roles[i]));
      if next.None? {
        assert CarvedAs(supernets, used, roles, blocks, Some(roles[i]));
        return Some(roles[i]);
      }
      GreedyExtend(supernets, used, Lengths(roles), blocks, next.value);
      blocks := blocks + [next.value];
    }
    assert CarvedAs(supernets, used, roles, blocks, None);
    return None;
  }

  lemma {:induction false} CarvedRolesShrink(missing: set<Role>)
    ensures SmallestFirst(Lengths(RolesToCarve(missing, ALLOCATION_ORDER)))
  {
    var tail := RolesToCarve(missing, [FabricPointToPoint, Dci]);
    assert tail == RolesToCarve(missing, [Dci]) || tail == [FabricPointToPoint] + RolesToCarve(missing, [Dci]) by {
      assert [FabricPointToPoint, Dci][1..] == [Dci];
    }
    assert RolesToCarve(missing, [Dci]) == (if Dci in missing then [Dci] else []) by {
      assert [Dci][1..] == [];
    }
    var mid := RolesToCarve(missing, [LoopbackVtep, FabricPointToPoint, Dci]);
    assert [LoopbackVtep, FabricPointToPoint, Dci][1..] == [FabricPointToPoint, Dci];
    assert mid == tail || mid == [LoopbackVtep] + tail;
    assert ALLOCATION_ORDER[1..] == [LoopbackVtep, FabricPointToPoint, Dci];
  }

  /** A clean capacity check means the missing roles really fit: there are pairwise
      disjoint blocks for all of them inside the supernets, clear of every used prefix. */
  lemma CleanCapacityIsRoom(supernets: seq<Prefix>, used: seq<Prefix>, roles: seq<Role>, out: seq<Prefix>)
    requires CarvedAs(supernets, used, roles, out, None)
    ensures exists other :: Placement(supernets, used, Lengths(roles), other)
  {
    GreedyIsPlacement(supernets, used, Lengths(roles), out);
    assert Lengths(roles)[..|out|] == Lengths(roles);
  }

  /** On one empty supernet the check is exact: it reports a role only when no disjoint
      placement of the missing roles exists at all. */
  lemma CapacityIsExactWhenEmpty(s: Prefix, missing: set<Role>, roles: seq<Role>, out: seq<Prefix>, finding: Option<Role>)
    requires roles == RolesToCarve(missing, ALLOCATION_ORDER)
    requires CarvedAs([s], [], roles, out, finding)
    ensures finding.None? <==> exists other :: Placement([s], [], Lengths(roles), other)
  {
    CarvedRolesShrink(missing);
    CapacityExactForRoles(s, roles, out, finding);
  }

  lemma CapacityExactForRoles(s: Prefix, roles: seq<Role>, out: seq<Prefix>, finding: Option<Role>)
    requires CarvedAs([s], [], roles, out, finding) && SmallestFirst(Lengths(roles))
    ensures finding.None? <==> exists other :: Placement([s], [], Lengths(roles), other)
  {
    CarveIsComplete(s, Lengths(roles), out);
  }

  function MissingOf(missing: set<Role>, x: Role, y: Role): nat {
    (if x in missing then 1 else 0) + (if y in missing then 1 else 0)
  }

  /** The missing roles are some loopback blocks and then some link blocks. */
  lemma CarvedRolesInTwo(missing: set<Role>)
    ensures TwoSizes(Lengths(RolesToCarve(missing, ALLOCATION_ORDER)),
                     27, MissingOf(missing, Loopback, LoopbackVtep), 24, MissingOf(missing, FabricPointToPoint, Dci))
  {
    var blocks, links := RolesToCarve(missing, [Loopback, LoopbackVtep]), RolesToCarve(missing, [FabricPointToPoint, Dci]);
    assert ALLOCATION_ORDER == [Loopback, LoopbackVtep] + [FabricPointToPoint, Dci];
    CarveConcat(missing, [Loopback, LoopbackVtep], [FabricPointToPoint, Dci]);
    CarvePair(missing, Loopback, LoopbackVtep);
    CarvePair(missing, FabricPointToPoint, Dci);
    LengthsInTwo(blocks, links, 27, 24);
  }

  lemma LengthsInTwo(blocks: seq<Role>, links: seq<Role>, len: nat, len': nat)
    requires forall i :: 0 <= i < |blocks| ==> PrefixLength(blocks[i]) == len
    requires forall i :: 0 <= i < |links| ==> PrefixLength(links[i]) == len'
    ensures TwoSizes(Lengths(blocks + links), len, |blocks|, len', |links|)
  {
  }

  lemma {:induction false} CarveConcat(missing: set<Role>, xs: seq<Role>, ys: seq<Role>)
    ensures RolesToCarve(missing, xs + ys) == RolesToCarve(missing, xs) + RolesToCarve(missing, ys)
  {
    if xs == [] {
      assert xs + ys == ys;
    } else {
      assert (xs + ys)[1..] == xs[1..] + ys;
      CarveConcat(missing, xs[1..], ys);
    }
  }

  lemma CarvePair(missing: set<Role>, x: Role, y: Role)
    ensures |RolesToCarve(missing, [x, y])| == MissingOf(missing, x, y)
    ensures forall r :: r in RolesToCarve(missing, [x, y]) ==> r == x || r == y
  {
    assert [x, y][1..] == [y] && [y][1..] == [];
    assert RolesToCarve(missing, [y]) == if y in missing then [y] else [];
  }

  /** On any supernets and beside any used prefixes: the check is clean exactly when there
      are places for the missing loopback blocks, and the lowest of those leave enough for
      the missing link blocks. */
  lemma CapacityIsExact(supernets: seq<Prefix>, used: seq<Prefix>, missing: set<Role>, roles: seq<Role>, out: seq<Prefix>, finding: Option<Role>)
    requires roles == RolesToCarve(missing, ALLOCATION_ORDER)
    requires CarvedAs(supernets, used, roles, out, finding)
    ensures finding.None? <==>
            LeavesRoom(supernets, used, 27, MissingOf(missing, Loopback, LoopbackVtep), 24, MissingOf(missing, FabricPointToPoint, Dci))
  {
    CarvedRolesInTwo(missing);
    CapacityExactInTwo(supernets, used, roles, out, finding, 27, MissingOf(missing, Loopback, LoopbackVtep),
                       24, MissingOf(missing, FabricPointToPoint, Dci));
  }

  lemma CapacityExactInTwo(supernets: seq<Prefix>, used: seq<Prefix>, roles: seq<Role>, out: seq<Prefix>, finding: Option<Role>,
                           len: nat, a: nat, len': nat, b: nat)
    requires CarvedAs(supernets, used, roles, out, finding) && TwoSizes(Lengths(roles), len, a, len', b)
    ensures finding.None? <==> LeavesRoom(supernets, used, len, a, len', b)
  {
    TwoSizesServedExactly(supernets, used, Lengths(roles), len, a, len', b, out);
  }

  /** When only loopback blocks or only link blocks are missing, it is clean exactly when
      any disjoint placement exists, on fragmented space too. */
  lemma CapacityOfOneSizeIsExact(supernets: seq<Prefix>, used: seq<Prefix>, missing: set<Role>, roles: seq<Role>, out: seq<Prefix>, finding: Option<Role>)
    requires roles == RolesToCarve(missing, ALLOCATION_ORDER)
    requires CarvedAs(supernets, used, roles, out, finding)
    requires MissingOf(missing, Loopback, LoopbackVtep) == 0 || MissingOf(missing, FabricPointToPoint, Dci) == 0
    ensures finding.None? <==> exists other :: Placement(supernets, used, Lengths(roles), other)
  {
    CarvedRolesInTwo(missing);
    CapacityExactInOne(supernets, used, roles, out, finding, if MissingOf(missing, Loopback, LoopbackVtep) == 0 then 24 else 27);
  }

  lemma CapacityExactInOne(supernets: seq<Prefix>, used: seq<Prefix>, roles: seq<Role>, out: seq<Prefix>, finding: Option<Role>, len: nat)
    requires CarvedAs(supernets, used, roles, out, finding)
    requires forall i :: 0 <= i < |roles| ==> Lengths(roles)[i] == len
    ensures finding.None? <==> exists other :: Placement(supernets, used, Lengths(roles), other)
  {
    EqualCarveIsComplete(supernets, used, len, Lengths(roles), out);
  }

  // --- What the check means over the pools themselves -----------------------------------------

  ghost predicate SpokenFor(pools: seq<Pool>, legacy: seq<Pool>, p: Prefix) {
    || (exists i :: 0 <= i < |pools| && p in pools[i].prefixes
          && Some("fabric_supernet") !in pools[i].resourceRoles && Some("supernet") !in pools[i].resourceRoles)
    || (exists i :: 0 <= i < |legacy| && p in legacy[i].prefixes)
  }

  /** A block of the role's length, inside a prefix of the supernet, and sharing no address
      with an attached pool that is no supernet, or with a pool of an older relationship. */
  ghost predicate WellPlaced(r: Role, b: Prefix, supernets: seq<Prefix>, pools: seq<Pool>, legacy: seq<Pool>) {
    && b.len == (if r == Loopback || r == LoopbackVtep then 27 else 24)
    && (exists s :: s in supernets && forall a :: Holds(b, a) ==> Holds(s, a))
    && (forall p, a :: SpokenFor(pools, legacy, p) && Holds(b, a) ==> !Holds(p, a))
  }

  /** A block for each missing role, none sharing an address with another. */
  ghost predicate Places(place: map<Role, Prefix>, missing: set<Role>, supernets: seq<Prefix>, pools: seq<Pool>, legacy: seq<Pool>) {
    && place.Keys == missing * {Loopback, LoopbackVtep, FabricPointToPoint, Dci}
    && (forall r :: r in place ==> WellPlaced(r, place[r], supernets, pools, legacy))
    && (forall r, t, a :: r in place && t in place && r != t && Holds(place[r], a) ==> !Holds(place[t], a))
  }

  ghost predicate RoomFor(missing: set<Role>, supernets: seq<Prefix>, pools: seq<Pool>, legacy: seq<Pool>) {
    exists place :: Places(place, missing, supernets, pools, legacy)
  }

  lemma CarvedRoles(missing: set<Role>, roles: seq<Role>)
    requires roles == RolesToCarve(missing, ALLOCATION_ORDER)
    ensures forall r :: r in roles <==> r in missing * {Loopback, LoopbackVtep, FabricPointToPoint, Dci}
    ensures Distinct(roles)
  {
    RolesInOrder(missing);
  }

  ghost function PlaceOf(roles: seq<Role>, r: Role): (k: nat)
    requires r in roles
    ensures k < |roles| && roles[k] == r
  {
    var k: nat :| k < |roles| && roles[k] == r;
    k
  }

  /** Used prefixes are avoided address by address. */
  lemma ClearOfPools(pools: seq<Pool>, legacy: seq<Pool>, b: Prefix)
    ensures Free(UsedPrefixes(pools, legacy), b)
            <==> forall p, a :: SpokenFor(pools, legacy, p) && Holds(b, a) ==> !Holds(p, a)
  {
    forall p ensures p in UsedPrefixes(pools, legacy) <==> SpokenFor(pools, legacy, p) {
      UsedPrefixesAre(pools, legacy, p);
    }
    ClearByAddress(UsedPrefixes(pools, legacy), b);
  }

  lemma ClearByAddress(used: seq<Prefix>, b: Prefix)
    ensures Free(used, b) <==> forall p, a :: p in used && Holds(b, a) ==> !Holds(p, a)
  {
    forall p ensures Overlaps(b, p) <==> exists a :: Holds(b, a) && Holds(p, a) { OverlapsIffShare(b, p); }
  }

  lemma InsideByAddress(supernets: seq<Prefix>, b: Prefix)
    ensures (exists s :: s in supernets && SubnetOf(b, s))
            <==> exists s :: s in supernets && forall a :: Holds(b, a) ==> Holds(s, a)
  {
    forall s ensures SubnetOf(b, s) <==> forall a :: Holds(b, a) ==> Holds(s, a) { SubnetIffSubset(b, s); }
  }

  lemma PlacementMakesRoom(missing: set<Role>, supernets: seq<Prefix>, pools: seq<Pool>, legacy: seq<Pool>, roles: seq<Role>, out: seq<Prefix>)
    requires roles == RolesToCarve(missing, ALLOCATION_ORDER)
    requires Placement(supernets, UsedPrefixes(pools, legacy), Lengths(roles), out)
    ensures RoomFor(missing, supernets, pools, legacy)
  {
    CarvedRoles(missing, roles);
    forall k | 0 <= k < |roles| ensures WellPlaced(roles[k], out[k], supernets, pools, legacy) {
      assert roles[k] in roles;
      BlockIsWellPlaced(supernets, pools, legacy, roles, out, k);
    }
    var place := map r | r in roles :: out[PlaceOf(roles, r)];
    assert place.Keys == missing * {Loopback, LoopbackVtep, FabricPointToPoint, Dci};
    PlacedByRole(missing, supernets, pools, legacy, roles, out, place);
  }

  lemma PlacedByRole(missing: set<Role>, supernets: seq<Prefix>, pools: seq<Pool>, legacy: seq<Pool>, roles: seq<Role>,
                     out: seq<Prefix>, place: map<Role, Prefix>)
    requires |out| == |roles| && PairwiseDisjoint(out)
    requires forall k :: 0 <= k < |roles| ==> WellPlaced(roles[k], out[k], supernets, pools, legacy)
    requires place.Keys == missing * {Loopback, LoopbackVtep, FabricPointToPoint, Dci}
    requires forall r :: r in place ==> r in roles && place[r] == out[PlaceOf(roles, r)]
    ensures Places(place, missing, supernets, pools, legacy)
  {
    forall r, t, a | r in place && t in place && r != t && Holds(place[r], a) ensures !Holds(place[t], a) {
      BlocksApart(out, PlaceOf(roles, r), PlaceOf(roles, t), a);
    }
    forall r | r in place ensures WellPlaced(r, place[r], supernets, pools, legacy) {
      assert roles[PlaceOf(roles, r)] == r;
    }
  }

  lemma BlockIsWellPlaced(supernets: seq<Prefix>, pools: seq<Pool>, legacy: seq<Pool>, roles: seq<Role>, out: seq<Prefix>, k: nat)
    requires Placement(supernets, UsedPrefixes(pools, legacy), Lengths(roles), out) && k < |roles|
    requires roles[k] in {Loopback, LoopbackVtep, FabricPointToPoint, Dci}
    ensures WellPlaced(roles[k], out[k], supernets, pools, legacy)
  {
    assert Candidate(supernets, Lengths(roles)[k], out[k]) && Free(UsedPrefixes(pools, legacy), out[k]);
    ClearOfPools(pools, legacy, out[k]);
    InsideByAddress(supernets, out[k]);
  }

  lemma BlocksApart(out: seq<Prefix>, i: nat, j: nat, a: Address)
    requires PairwiseDisjoint(out) && i < |out| && j < |out| && i != j && Holds(out[i], a)
    ensures !Holds(out[j], a)
  {
    OverlapsIffShare(out[i], out[j]);
    OverlapsIsRange(out[i], out[j]);
  }

  lemma RoomMakesPlacement(missing: set<Role>, supernets: seq<Prefix>, pools: seq<Pool>, legacy: seq<Pool>, roles: seq<Role>, place: map<Role, Prefix>)
    requires roles == RolesToCarve(missing, ALLOCATION_ORDER)
    requires Places(place, missing, supernets, pools, legacy)
    ensures exists out :: Placement(supernets, UsedPrefixes(pools, legacy), Lengths(roles), out)
  {
    CarvedRoles(missing, roles);
    assert forall k :: 0 <= k < |roles| ==> roles[k] in roles;
    var out := seq(|roles|, k requires 0 <= k < |roles| => place[roles[k]]);
    forall k | 0 <= k < |out| ensures Candidate(supernets, Lengths(roles)[k], out[k]) && Free(UsedPrefixes(pools, legacy), out[k]) {
      WellPlacedIsFree(supernets, pools, legacy, roles[k], out[k]);
    }
    forall i, j | 0 <= i < j < |out| ensures !Overlaps(out[i], out[j]) {
      OverlapsIffShare(out[i], out[j]);
    }
    assert Placement(supernets, UsedPrefixes(pools, legacy), Lengths(roles), out);
  }

  lemma WellPlacedIsFree(supernets: seq<Prefix>, pools: seq<Pool>, legacy: seq<Pool>, r: Role, b: Prefix)
    requires WellPlaced(r, b, supernets, pools, legacy) && r in {Loopback, LoopbackVtep, FabricPointToPoint, Dci}
    ensures Candidate(supernets, PrefixLength(r), b) && Free(UsedPrefixes(pools, legacy), b)
  {
    ClearOfPools(pools, legacy, b);
    InsideByAddress(supernets, b);
  }

  /** A finding names a missing role. A clean check means there is room, beside all that the
      pools hold, for a block of every missing role; and where only loopbacks or only links
      are missing it is clean exactly when there is. */
  lemma CleanCapacityOverPools(missing: set<Role>, supernets: seq<Prefix>, pools: seq<Pool>, legacy: seq<Pool>, finding: Option<Role>)
    requires CapacityFinding(supernets, UsedPrefixes(pools, legacy), RolesToCarve(missing, ALLOCATION_ORDER), finding)
    ensures finding.Some? ==> finding.value in missing * {Loopback, LoopbackVtep, FabricPointToPoint, Dci}
    ensures finding.None? ==> RoomFor(missing, supernets, pools, legacy)
    ensures missing !! {Loopback, LoopbackVtep} || missing !! {FabricPointToPoint, Dci} ==>
              (finding.None? <==> RoomFor(missing, supernets, pools, legacy))
  {
    var roles, used := RolesToCarve(missing, ALLOCATION_ORDER), UsedPrefixes(pools, legacy);
    var out :| CarvedAs(supernets, used, roles, out, finding);
    CarvedRoles(missing, roles);
    if finding.None? {
      CleanCapacityIsRoom(supernets, used, roles, out);
      var other :| Placement(supernets, used, Lengths(roles), other);
      PlacementMakesRoom(missing, supernets, pools, legacy, roles, other);
    } else if (missing !! {Loopback, LoopbackVtep} || missing !! {FabricPointToPoint, Dci}) && RoomFor(missing, supernets, pools, legacy) {
      var place :| Places(place, missing, supernets, pools, legacy);
      RoomMakesPlacement(missing, supernets, pools, legacy, roles, place);
      CapacityOfOneSizeIsExact(supernets, used, missing, roles, out, finding);
    }
  }

  /** With every role missing, an empty IPv4 supernet passes exactly from /22 up. */
  lemma AllRolesNeedSlash22(s: Prefix, roles: seq<Role>, out: seq<Prefix>, finding: Option<Role>)
    requires s.version == V4 && roles == ALLOCATION_ORDER && CarvedAs([s], [], roles, out, finding)
    ensures finding.None? <==> s.len <= 22
  {
    AllFourLengths(roles);
    FindingOfFour(s, roles, out, finding);
  }

  lemma FindingOfFour(s: Prefix, roles: seq<Role>, out: seq<Prefix>, finding: Option<Role>)
    requires s.version == V4 && CarvedAs([s], [], roles, out, finding) && AllFour(Lengths(roles))
    ensures finding.None? <==> s.len <= 22
  {
    FourFit(s, Lengths(roles), out);
  }

  lemma FourFit(s: Prefix, lens: seq<nat>, out: seq<Prefix>)
    requires s.version == V4 && Finished([s], [], lens, out) && AllFour(lens)
    ensures |out| == |lens| <==> s.len <= 22
  {
    if s.len <= 24 {
      TotalDecides(s, lens, out);
    } else if |out| == |lens| {
      ServedFitInside(s, lens, out, 3);
    }
  }

  ghost predicate AllFour(lens: seq<nat>) {
    && |lens| == 4 && lens[3] == 24 && Total(V4, lens) == 576 && SmallestFirst(lens)
    && forall i :: 0 <= i < |lens| ==> 24 <= lens[i] <= 32
  }

  lemma AllFourLengths(roles: seq<Role>)
    requires roles == ALLOCATION_ORDER
    ensures AllFour(Lengths(roles))
  {
    AllRolesTotal(Lengths(roles));
  }

  lemma ServedFitInside(s: Prefix, lens: seq<nat>, out: seq<Prefix>, i: nat)
    requires Finished([s], [], lens, out) && |out| == |lens| && i < |lens|
    ensures s.len <= lens[i]
  {
    GreedyIsPlacement([s], [], lens, out);
    assert Candidate([s], lens[..|out|][i], out[i]);
    LongerThanParent(out[i], s);
  }

  /** The lengths of the four roles in allocation order. */
  ghost predicate OneOfEach(lens: seq<nat>) {
    |lens| == 4 && lens[0] == lens[1] == 27 && lens[2] == lens[3] == 24
  }

  lemma TotalDecides(s: Prefix, lens: seq<nat>, out: seq<Prefix>)
    requires s.version == V4 && SmallestFirst(lens) && Total(V4, lens) == 576
    requires forall i :: 0 <= i < |lens| ==> s.len <= lens[i] <= 32
    requires Finished([s], [], lens, out)
    ensures |out| == |lens| <==> s.len <= 22
  {
    SupernetSizes(s);
    CarveServesIffFits(s, lens, out);
  }

  lemma SupernetSizes(s: Prefix)
    requires s.version == V4
    ensures 576 <= Size(s) <==> s.len <= 22
  {
    assert Pow2(9) == 512 && Pow2(10) == 1024;
    if s.len <= 22 { PowMultiple(10, 32 - s.len); } else { PowMultiple(32 - s.len, 9); }
  }

  lemma AllRolesTotal(lens: seq<nat>)
    requires OneOfEach(lens)
    ensures Total(V4, lens) == 576 && SmallestFirst(lens)
    ensures forall i :: 0 <= i < |lens| ==> 24 <= lens[i] <= 32
  {
    assert BlockSize(V4, 27) == 32 && BlockSize(V4, 24) == 256 by {
      assert Pow2(5) == 32 && Pow2(8) == 256;
    }
    TotalOfFour(V4, 27, 27, 24, 24);
    assert lens == [27, 27, 24, 24];
  }

  lemma TotalOfFour(version: Version, a: nat, b: nat, c: nat, d: nat)
    ensures Total(version, [a, b, c, d])
            == BlockSize(version, a) + BlockSize(version, b) + BlockSize(version, c) + BlockSize(version, d)
  {
    TotalSnoc(version, [], a);
    TotalSnoc(version, [a], b);
    TotalSnoc(version, [a, b], c);
    TotalSnoc(version, [a, b, c], d);
    assert [] + [a] == [a] && [a] + [b] == [a, b] && [a, b] + [c] == [a, b, c] && [a, b, c] + [d] == [a, b, c, d];
  }

  lemma TotalSnoc(version: Version, lens: seq<nat>, len: nat)
    ensures Total(version, lens + [len]) == Total(version, lens) + BlockSize(version, len)
  {
    assert (lens + [len])[..|lens|] == lens;
  }

  /** Smallest first is not complete on fragmented space: the loopback block lands in the
      only /24 although the /27 beside it would have held it. */
  lemma CarveMissesFragmentedRoom(wide: Prefix, narrow: Prefix, out: seq<Prefix>)
    requires wide == Cidr(V4, 0, 24) && narrow == Cidr(V4, 512, 27)
    requires Finished([wide, narrow], [], [27, 24], out)
    ensures |out| == 1
    ensures Placement([wide, narrow], [], [27, 24], [narrow, wide])
  {
    var low: Prefix := LowHalf(wide);
    assert [] + out[..0] == [];
    LowestIsFirst(wide, narrow, low, if out == [] then None else Some(out[0]));
    if |out| == 2 {
      SecondServed([wide, narrow], [27, 24], out);
    }
    NoWideBlockBeside(wide, narrow, low, [] + out[..1]);
    assert SubnetOf(narrow, narrow) && SubnetOf(wide, wide);
    assert Pow2(8) == 256;
    ApartAndPlaced(wide, narrow);
  }

  lemma SecondServed(supernets: seq<Prefix>, lens: seq<nat>, out: seq<Prefix>)
    requires Greedy(supernets, [], lens, out) && |out| == 2
    ensures Candidate(supernets, lens[1], out[1]) && Free([] + out[..1], out[1])
  {
    assert FirstFit(supernets, [] + out[..1], lens[1], Some(out[1]));
  }

  ghost function LowHalf(wide: Prefix): (low: Prefix)
    requires wide == Cidr(V4, 0, 24)
    ensures low == Cidr(V4, 0, 27) && SubnetOf(low, wide)
  {
    assert Pow2(8) == 256 && Pow2(5) == 32;
    Cidr(V4, 0, 27)
  }

  lemma LowestIsFirst(wide: Prefix, narrow: Prefix, low: Prefix, r: Option<Prefix>)
    requires low.addr == 0 && low.version == V4 && low.len == 27 && SubnetOf(low, wide)
    requires FirstFit([wide, narrow], [], 27, r)
    ensures r == Some(low)
  {
    assert Candidate([wide, narrow], 27, low) && Free([], low);
    if r.Some? { assert AtOrBefore(r.value, low); }
  }

  lemma ApartAndPlaced(wide: Prefix, narrow: Prefix)
    requires wide.addr + Size(wide) <= narrow.addr
    ensures Placement([wide, narrow], [], [narrow.len, wide.len], [narrow, wide])
  {
    assert SubnetOf(narrow, narrow) && SubnetOf(wide, wide);
    OverlapsIsRange(narrow, wide);
  }

  lemma NoWideBlockBeside(wide: Prefix, narrow: Prefix, low: Prefix, used: seq<Prefix>)
    requires wide.len < narrow.len && low in used && low.version == wide.version && low.addr == wide.addr
    ensures forall c :: Candidate([wide, narrow], wide.len, c) ==> !Free(used, c)
  {
    forall c | Candidate([wide, narrow], wide.len, c) ensures Overlaps(c, low) {
      var s :| s in [wide, narrow] && SubnetOf(c, s);
      LongerThanParent(c, s);
      assert s == wide;
      SameStart(c, wide);
      OverlapsIsRange(c, low);
    }
  }

  lemma SameStart(c: Prefix, s: Prefix)
    requires SubnetOf(c, s) && c.len == s.len
    ensures c.addr == s.addr
  {
  }
}
