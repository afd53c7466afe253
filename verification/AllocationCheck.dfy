/** The allocation consistency gate: VLAN ids and VNIs per fabric, tenant subnets per VRF,
    and applications' VIP blocks. What an empty findings list means for switches and
    addresses. */
module AllocationCheck {
  import opened Options
  import opened Prefixes
  import opened SortKeys
  import Sorting

  /** A violation, attributed to the later object of the pair. */
  datatype Finding = Finding(objectId: string, objectType: string)

  // --- VLAN ids and VNIs --------------------------------------------------------------------

  datatype L2Vlan = L2Vlan(id: string, name: string, vlanId: Option<int>, vniOverride: Option<int>, tags: set<string>)

  datatype Svi = Svi(id: string, name: string, vrf: Option<string>, sviId: Option<int>, tags: set<string>)

  datatype Tenant = Tenant(vniBase: Option<int>, fabrics: seq<string>, vrfs: seq<string>, l2Vlans: seq<L2Vlan>)

  /** One VLAN as it is rendered: on every fabric of its tenant, to every switch that
      carries one of its tags. */
  datatype ServiceVlan = ServiceVlan(
    objectId: string, kind: string, name: string, vlanId: Option<int>, vni: Option<int>, tags: set<string>, fabrics: seq<string>)

  function Vni(base: Option<int>, vlanId: Option<int>, override: Option<int>): Option<int> {
    if override.Some? then override
    else if base.None? || vlanId.None? then None
    else Some(base.value + vlanId.value)
  }

  function L2VlansOf(t: Tenant, l2Vlans: seq<L2Vlan>): seq<ServiceVlan> {
    if l2Vlans == [] then []
    else
      var v := l2Vlans[0];
      [ServiceVlan(v.id, "EvpnL2Vlan", v.name, v.vlanId, Vni(t.vniBase, v.vlanId, v.vniOverride), v.tags, t.fabrics)]
      + L2VlansOf(t, l2Vlans[1..])
  }

  /** The tenant a VRF belongs to; the last one that lists it wins. */
  function TenantOf(tenants: seq<Tenant>, vrf: string): Option<Tenant> {
    if tenants == [] then None
    else if vrf in tenants[|tenants| - 1].vrfs then Some(tenants[|tenants| - 1])
    else TenantOf(tenants[..|tenants| - 1], vrf)
  }

  function AllL2Vlans(tenants: seq<Tenant>): seq<ServiceVlan> {
    if tenants == [] then [] else L2VlansOf(tenants[0], tenants[0].l2Vlans) + AllL2Vlans(tenants[1..])
  }

  function SviVlan(tenants: seq<Tenant>, svi: Svi): ServiceVlan {
    var owner := if svi.vrf.Some? then TenantOf(tenants, svi.vrf.value) else None;
    var base := if owner.Some? then owner.value.vniBase else None;
    ServiceVlan(svi.id, "EvpnSvi", svi.name, svi.sviId, Vni(base, svi.sviId, None), svi.tags,
                if owner.Some? then owner.value.fabrics else [])
  }

  function UnsortedVlans(tenants: seq<Tenant>, svis: seq<Svi>): seq<ServiceVlan> {
    AllL2Vlans(tenants) + seq(|svis|, i requires 0 <= i < |svis| => SviVlan(tenants, svis[i]))
  }

  function VlanKey(v: ServiceVlan): Key {
    [Text(v.kind), Text(v.name), Text(v.objectId)]
  }

  predicate VlanBefore(x: ServiceVlan, y: ServiceVlan) {
    KeyBefore(VlanKey(x), VlanKey(y))
  }

  /** `service_vlans`: by kind, name and id. */
  function ServiceVlans(tenants: seq<Tenant>, svis: seq<Svi>): seq<ServiceVlan> {
    Sorting.Sort(UnsortedVlans(tenants, svis), VlanBefore)
  }

  lemma {:induction false} MembersInOrder(vlans: seq<ServiceVlan>, fabric: string)
    requires Sorting.Sorted(vlans, VlanBefore)
    ensures Sorting.Sorted(Members(vlans, fabric), VlanBefore)
    ensures forall v :: v in Members(vlans, fabric) ==> v in vlans
  {
    if vlans != [] {
      var front, last := vlans[..|vlans| - 1], vlans[|vlans| - 1];
      MembersInOrder(front, fabric);
      CopiesAre(last, last.fabrics, fabric);
      KeysOrder(VlanBefore, VlanKey);
      forall v | v in front ensures !VlanBefore(last, v) {
        var k :| 0 <= k < |front| && front[k] == v;
        assert vlans[k] == v;
      }
      OrderedConcat(Members(front, fabric), Copies(last, last.fabrics, fabric), last);
    }
  }

  lemma OrderedConcat(some: seq<ServiceVlan>, more: seq<ServiceVlan>, last: ServiceVlan)
    requires Sorting.Sorted(some, VlanBefore) && !VlanBefore(last, last)
    requires forall v :: v in some ==> !VlanBefore(last, v)
    requires forall v :: v in more ==> v == last
    ensures Sorting.Sorted(some + more, VlanBefore)
  {
    forall i, j | 0 <= i < j < |some + more| ensures !VlanBefore((some + more)[j], (some + more)[i]) {
      if j >= |some| {
        assert more[j - |some|] in more;
        assert if i < |some| then some[i] in some else more[i - |some|] in more;
      }
    }
  }

  lemma {:induction false} CopiesAre(vlan: ServiceVlan, fabrics: seq<string>, fabric: string)
    ensures forall v :: v in Copies(vlan, fabrics, fabric) ==> v == vlan
  {
    if fabrics != [] { CopiesAre(vlan, fabrics[..|fabrics| - 1], fabric); }
  }

  /** Which of two clashing VLANs is blamed: never the one that comes first by kind, name
      and id. All the VLANs are judged, each as often as it is there. */
  lemma LaterVlanIsBlamed(tenants: seq<Tenant>, svis: seq<Svi>, fabric: string, i: nat, j: nat)
    requires Clash(Members(ServiceVlans(tenants, svis), fabric), i, j)
    ensures var members := Members(ServiceVlans(tenants, svis), fabric); !VlanBefore(members[j], members[i])
    ensures multiset(ServiceVlans(tenants, svis)) == multiset(UnsortedVlans(tenants, svis))
  {
    KeysOrder(VlanBefore, VlanKey);
    Sorting.SortSorted(UnsortedVlans(tenants, svis), VlanBefore);
    Sorting.SortPermutes(UnsortedVlans(tenants, svis), VlanBefore);
    MembersInOrder(ServiceVlans(tenants, svis), fabric);
  }

  /** The VLANs rendered on a fabric, once per time their tenant names it. */
  function Members(vlans: seq<ServiceVlan>, fabric: string): seq<ServiceVlan> {
    if vlans == [] then []
    else Members(vlans[..|vlans| - 1], fabric)
         + Copies(vlans[|vlans| - 1], vlans[|vlans| - 1].fabrics, fabric)
  }

  function Copies(vlan: ServiceVlan, fabrics: seq<string>, fabric: string): seq<ServiceVlan> {
    if fabrics == [] then []
    else Copies(vlan, fabrics[..|fabrics| - 1], fabric) + (if fabrics[|fabrics| - 1] == fabric then [vlan] else [])
  }

  predicate SameIdOnASwitch(left: ServiceVlan, right: ServiceVlan) {
    left.vlanId.Some? && left.vlanId == right.vlanId && left.tags * right.tags != {}
  }

  predicate SameVni(left: ServiceVlan, right: ServiceVlan) {
    left.vni.Some? && left.vni == right.vni
  }

  predicate Clash(members: seq<ServiceVlan>, i: int, j: int) {
    0 <= i < j < |members| && (SameIdOnASwitch(members[i], members[j]) || SameVni(members[i], members[j]))
  }

  /** The finding a clash makes: the later of the two is blamed. */
  ghost predicate Blames(members: seq<ServiceVlan>, i: int, j: int, f: Finding) {
    Clash(members, i, j) && f == Finding(members[j].objectId, members[j].kind)
  }

  /** Some clash on some fabric makes this finding. */
  ghost predicate Blamed(vlans: seq<ServiceVlan>, f: Finding) {
    exists fabric, i, j :: Blames(Members(vlans, fabric), i, j, f)
  }

  ghost predicate CleanFabric(members: seq<ServiceVlan>) {
    forall i, j :: !Clash(members, i, j)
  }

  ghost predicate EveryFabricClean(vlans: seq<ServiceVlan>) {
    forall fabric :: CleanFabric(Members(vlans, fabric))
  }

  function Get(byFabric: map<string, seq<ServiceVlan>>, fabric: string): seq<ServiceVlan> {
    if fabric in byFabric then byFabric[fabric] else []
  }

  /** `by_fabric`: the members of each fabric, in VLAN order. */
  method GroupByFabric(vlans: seq<ServiceVlan>) returns (byFabric: map<string, seq<ServiceVlan>>)
    ensures forall f :: Get(byFabric, f) == Members(vlans, f)
  {
    byFabric := map[];
    for i := 0 to |vlans|
      invariant forall f :: Get(byFabric, f) == Members(vlans[..i], f)
    {
      assert vlans[..i + 1][..i] == vlans[..i];
      byFabric := AppendToFabrics(byFabric, vlans[i]);
    }
    assert vlans[..|vlans|] == vlans;
  }

  method AppendToFabrics(byFabric: map<string, seq<ServiceVlan>>, vlan: ServiceVlan)
    returns (r: map<string, seq<ServiceVlan>>)
    ensures forall f :: Get(r, f) == Get(byFabric, f) + Copies(vlan, vlan.fabrics, f)
  {
    r := byFabric;
    for k := 0 to |vlan.fabrics|
      invariant forall f :: Get(r, f) == Get(byFabric, f) + Copies(vlan, vlan.fabrics[..k], f)
    {
      ghost var before := r;
      r := r[vlan.fabrics[k] := Get(r, vlan.fabrics[k]) + [vlan]];
      forall f ensures Get(r, f) == Get(byFabric, f) + Copies(vlan, vlan.fabrics[..k + 1], f) {
        CopiesStep(Get(byFabric, f), vlan, k, f);
        assert Get(r, f) == if f == vlan.fabrics[k] then Get(before, f) + [vlan] else Get(before, f);
      }
    }
    assert vlan.fabrics[..|vlan.fabrics|] == vlan.fabrics;
  }

  lemma CopiesStep(base: seq<ServiceVlan>, vlan: ServiceVlan, k: nat, f: string)
    requires k < |vlan.fabrics|
    ensures base + Copies(vlan, vlan.fabrics[..k + 1], f)
            == base + Copies(vlan, vlan.fabrics[..k], f) + (if vlan.fabrics[k] == f then [vlan] else [])
  {
    assert vlan.fabrics[..k + 1][..k] == vlan.fabrics[..k];
  }

  // --- Pairs in combination order -------------------------------------------------------------------

  /** One finding for each pair that is a hit, naming the later: those of the first `i` of `n`
      with a later one, and of the next with one before `j`. */
  ghost function PairFindings(n: nat, hit: (int, int) -> bool, later: int -> Finding, i: nat, j: nat): seq<Finding>
    requires i <= n && j <= n
    decreases i, j
  {
    if j > i + 1 then PairFindings(n, hit, later, i, j - 1) + (if hit(i, j - 1) then [later(j - 1)] else [])
    else if i > 0 then PairFindings(n, hit, later, i - 1, n)
    else []
  }

  lemma {:induction false} FindingOfPair(n: nat, hit: (int, int) -> bool, later: int -> Finding, i: nat, j: nat, f: Finding)
    returns (k: int, l: int)
    requires i <= n && j <= n && f in PairFindings(n, hit, later, i, j)
    ensures 0 <= k < l < n && hit(k, l) && f == later(l)
    decreases i, j
  {
    if j > i + 1 {
      if f in PairFindings(n, hit, later, i, j - 1) {
        k, l := FindingOfPair(n, hit, later, i, j - 1, f);
      } else {
        k, l := i, j - 1;
      }
    } else {
      k, l := FindingOfPair(n, hit, later, i - 1, n, f);
    }
  }

  lemma {:induction false} PairHasFinding(n: nat, hit: (int, int) -> bool, later: int -> Finding, i: nat, j: nat, k: int, l: int)
    requires i <= n && j <= n && 0 <= k < l < n && hit(k, l) && (k < i || (k == i && l < j))
    ensures later(l) in PairFindings(n, hit, later, i, j)
    decreases i, j
  {
    if j > i + 1 {
      if k != i || l != j - 1 { PairHasFinding(n, hit, later, i, j - 1, k, l); }
    } else {
      PairHasFinding(n, hit, later, i - 1, n, k, l);
    }
  }

  /** So they are exactly the findings of the pairs. */
  lemma PairFindingsAre(n: nat, hit: (int, int) -> bool, later: int -> Finding, f: Finding)
    ensures f in PairFindings(n, hit, later, n, 0) <==> exists k, l :: 0 <= k < l < n && hit(k, l) && f == later(l)
  {
    if f in PairFindings(n, hit, later, n, 0) {
      var k, l := FindingOfPair(n, hit, later, n, 0, f);
    }
    if k, l :| 0 <= k < l < n && hit(k, l) && f == later(l) {
      PairHasFinding(n, hit, later, n, 0, k, l);
    }
  }

  ghost function ClashAt(members: seq<ServiceVlan>): (int, int) -> bool {
    (k, l) => Clash(members, k, l)
  }

  lemma LaterVlanBlamed(members: seq<ServiceVlan>, f: Finding)
    ensures (exists k, l :: 0 <= k < l < |members| && ClashAt(members)(k, l) && f == LaterVlan(members)(l)) <==> exists k, l :: Blames(members, k, l, f)
  {
    if k, l :| 0 <= k < l < |members| && ClashAt(members)(k, l) && f == LaterVlan(members)(l) {
      assert Blames(members, k, l, f);
    }
    if k, l :| Blames(members, k, l, f) {
      assert ClashAt(members)(k, l) && f == LaterVlan(members)(l);
    }
  }

  ghost function LaterVlan(members: seq<ServiceVlan>): int -> Finding {
    l => if 0 <= l < |members| then Finding(members[l].objectId, members[l].kind) else Finding("", "")
  }

  /** All pairs of one fabric, in combination order: one finding for each that clashes. */
  method CheckMembers(members: seq<ServiceVlan>) returns (findings: seq<Finding>)
    ensures forall f :: f in findings <==> exists i, j :: Blames(members, i, j, f)
    ensures findings == PairFindings(|members|, ClashAt(members), LaterVlan(members), |members|, 0)
  {
    findings := [];
    for i := 0 to |members|
      invariant findings == PairFindings(|members|, ClashAt(members), LaterVlan(members), i, 0)
    {
      for j := i + 1 to |members|
        invariant findings == PairFindings(|members|, ClashAt(members), LaterVlan(members), i, j)
      {
        var left, right := members[i], members[j];
        var found := Finding(right.objectId, right.kind);
        if SameIdOnASwitch(left, right) {
          findings := findings + [found];
        } else if SameVni(left, right) {
          findings := findings + [found];
        }
      }
    }
    forall f ensures f in findings <==> exists k, l :: Blames(members, k, l, f) {
      PairFindingsAre(|members|, ClashAt(members), LaterVlan(members), f);
      LaterVlanBlamed(members, f);
    }
  }

  method CheckFabricVlanIds(tenants: seq<Tenant>, svis: seq<Svi>) returns (findings: seq<Finding>)
    ensures forall f :: f in findings <==> Blamed(ServiceVlans(tenants, svis), f)
    ensures findings == [] <==> EveryFabricClean(ServiceVlans(tenants, svis))
  {
    ghost var vlans := ServiceVlans(tenants, svis);
    var byFabric := GroupByFabric(ServiceVlans(tenants, svis));
    findings := [];
    var left := byFabric.Keys;
    while left != {}
      invariant left <= byFabric.Keys
      invariant forall f :: f in findings <==>
                  exists fabric, i, j :: fabric in byFabric && fabric !in left && Blames(byFabric[fabric], i, j, f)
      decreases left
    {
      var fabric :| fabric in left;
      var more := CheckMembers(byFabric[fabric]);
      findings := findings + more;
      left := left - {fabric};
    }
    forall fabric ensures Get(byFabric, fabric) == Members(vlans, fabric) {
    }
    forall f ensures f in findings <==> Blamed(vlans, f) {
      if fabric, i, j :| Blames(Members(vlans, fabric), i, j, f) {
        assert Get(byFabric, fabric) == Members(vlans, fabric);
        assert fabric in byFabric && Blames(byFabric[fabric], i, j, f);
      }
      if f in findings {
        var fabric, i, j :| fabric in byFabric && Blames(byFabric[fabric], i, j, f);
        assert Get(byFabric, fabric) == Members(vlans, fabric);
        assert Blames(Members(vlans, fabric), i, j, f);
      }
    }
    NothingBlamed(vlans, findings);
  }

  lemma NothingBlamed(vlans: seq<ServiceVlan>, findings: seq<Finding>)
    requires forall f :: f in findings <==> Blamed(vlans, f)
    ensures findings == [] <==> EveryFabricClean(vlans)
  {
    if findings != [] {
      assert findings[0] in findings;
      var fabric, i, j :| Blames(Members(vlans, fabric), i, j, findings[0]);
      assert Clash(Members(vlans, fabric), i, j);
      assert !CleanFabric(Members(vlans, fabric));
    } else {
      forall fabric ensures CleanFabric(Members(vlans, fabric)) {
        forall i, j ensures !Clash(Members(vlans, fabric), i, j) {
          ClashIsBlamed(vlans, fabric, i, j);
        }
      }
    }
  }

  lemma ClashIsBlamed(vlans: seq<ServiceVlan>, fabric: string, i: int, j: int)
    ensures Clash(Members(vlans, fabric), i, j) ==> exists f :: Blamed(vlans, f)
  {
    var members := Members(vlans, fabric);
    if Clash(members, i, j) {
      var f := Finding(members[j].objectId, members[j].kind);
      assert Blames(members, i, j, f);
      assert Blamed(vlans, f);
    }
  }

  /** No two members of the fabric render one id to one switch, and none share a VNI. */
  ghost predicate UniqueOnFabric(members: seq<ServiceVlan>) {
    && (forall tag, id, i, j :: Renders(members, i, tag, id) && Renders(members, j, tag, id) ==> i == j)
    && (forall vni, i, j :: Bridges(members, i, vni) && Bridges(members, j, vni) ==> i == j)
  }

  ghost predicate Renders(members: seq<ServiceVlan>, i: int, tag: string, id: int) {
    0 <= i < |members| && tag in members[i].tags && members[i].vlanId == Some(id)
  }

  ghost predicate Bridges(members: seq<ServiceVlan>, i: int, vni: int) {
    0 <= i < |members| && members[i].vni == Some(vni)
  }

  /** The VLAN rule is clean exactly when, on every fabric, each tag carries each VLAN id
      at most once and each VNI appears at most once. */
  lemma CleanFabricIsUnique(members: seq<ServiceVlan>)
    ensures CleanFabric(members) <==> UniqueOnFabric(members)
  {
    if CleanFabric(members) {
      forall vni, i, j | Bridges(members, i, vni) && Bridges(members, j, vni) ensures i == j {
        assert !Clash(members, i, j) && !Clash(members, j, i);
      }
      forall tag, id, i, j | Renders(members, i, tag, id) && Renders(members, j, tag, id) ensures i == j {
        var left, right := members[i], members[j];
        assert tag in left.tags * right.tags && tag in right.tags * left.tags;
        assert !Clash(members, i, j) && !Clash(members, j, i);
      }
    }
    if UniqueOnFabric(members) {
      forall i, j | 0 <= i < j < |members| ensures !Clash(members, i, j) {
        if SameIdOnASwitch(members[i], members[j]) {
          var tag :| tag in members[i].tags * members[j].tags;
          assert Renders(members, i, tag, members[i].vlanId.value) && Renders(members, j, tag, members[i].vlanId.value);
        }
        if SameVni(members[i], members[j]) {
          assert Bridges(members, i, members[i].vni.value) && Bridges(members, j, members[i].vni.value);
        }
      }
    }
  }

  // --- Which VLANs are judged ---------------------------------------------------------------------

  function L2Count(tenants: seq<Tenant>): nat {
    if tenants == [] then 0 else L2Count(tenants[..|tenants| - 1]) + |tenants[|tenants| - 1].l2Vlans|
  }

  lemma {:induction false} L2VlansAt(t: Tenant, l2Vlans: seq<L2Vlan>, k: nat)
    ensures |L2VlansOf(t, l2Vlans)| == |l2Vlans|
    ensures k < |l2Vlans| ==>
              var v, judged := l2Vlans[k], L2VlansOf(t, l2Vlans)[k];
              && (judged.objectId, judged.kind, judged.name, judged.vlanId) == (v.id, "EvpnL2Vlan", v.name, v.vlanId)
              && judged.tags == v.tags && judged.fabrics == t.fabrics
              && judged.vni == if v.vniOverride.Some? then v.vniOverride
                               else if t.vniBase.Some? && v.vlanId.Some? then Some(t.vniBase.value + v.vlanId.value) else None
  {
    if l2Vlans != [] { L2VlansAt(t, l2Vlans[1..], if k > 0 then k - 1 else 0); }
  }

  lemma {:induction false} AllL2VlansConcat(ts: seq<Tenant>, us: seq<Tenant>)
    ensures AllL2Vlans(ts + us) == AllL2Vlans(ts) + AllL2Vlans(us)
  {
    if ts == [] {
      assert ts + us == us;
    } else {
      assert (ts + us)[1..] == ts[1..] + us;
      AllL2VlansConcat(ts[1..], us);
    }
  }

  lemma {:induction false} L2CountIs(tenants: seq<Tenant>)
    ensures |AllL2Vlans(tenants)| == L2Count(tenants)
  {
    if tenants != [] {
      var front, t := tenants[..|tenants| - 1], tenants[|tenants| - 1];
      L2CountIs(front);
      assert tenants == front + [t] && [t][1..] == [];
      AllL2VlansConcat(front, [t]);
      L2VlansAt(t, t.l2Vlans, 0);
    }
  }

  /** Every L2 VLAN of every tenant is judged, in its own place: with its own id and tags, on
      its tenant's fabrics, and with its override for a VNI, else the tenant's base and its
      id added up when both are there, else none. */
  lemma L2VlanIsJudged(tenants: seq<Tenant>, svis: seq<Svi>, t: nat, k: nat)
    requires t < |tenants| && k < |tenants[t].l2Vlans|
    ensures var all, i, v, base := UnsortedVlans(tenants, svis), L2Count(tenants[..t]) + k, tenants[t].l2Vlans[k], tenants[t].vniBase;
            && i < L2Count(tenants) <= |all|
            && (all[i].objectId, all[i].kind, all[i].name, all[i].vlanId) == (v.id, "EvpnL2Vlan", v.name, v.vlanId)
            && all[i].tags == v.tags && all[i].fabrics == tenants[t].fabrics
            && all[i].vni == if v.vniOverride.Some? then v.vniOverride
                             else if base.Some? && v.vlanId.Some? then Some(base.value + v.vlanId.value) else None
  {
    L2VlanAt(tenants, t, k);
    L2CountIs(tenants);
    L2VlansAt(tenants[t], tenants[t].l2Vlans, k);
  }

  lemma L2VlanAt(tenants: seq<Tenant>, t: nat, k: nat)
    requires t < |tenants| && k < |tenants[t].l2Vlans|
    ensures L2Count(tenants[..t]) + k < |AllL2Vlans(tenants)| && k < |L2VlansOf(tenants[t], tenants[t].l2Vlans)|
    ensures AllL2Vlans(tenants)[L2Count(tenants[..t]) + k] == L2VlansOf(tenants[t], tenants[t].l2Vlans)[k]
  {
    var before, here, behind := tenants[..t], tenants[t], tenants[t + 1..];
    assert tenants == before + ([here] + behind) && ([here] + behind)[1..] == behind;
    AllL2VlansConcat(before, [here] + behind);
    L2CountIs(before);
    L2VlansAt(here, here.l2Vlans, k);
    Middle(AllL2Vlans(before), L2VlansOf(here, here.l2Vlans), AllL2Vlans(behind), k);
  }

  lemma Middle(before: seq<ServiceVlan>, here: seq<ServiceVlan>, behind: seq<ServiceVlan>, k: nat)
    requires k < |here|
    ensures |before| + k < |before + (here + behind)| && (before + (here + behind))[|before| + k] == here[k]
  {
  }

  predicate LastLister(tenants: seq<Tenant>, vrf: string, t: int) {
    0 <= t < |tenants| && vrf in tenants[t].vrfs && forall u :: t < u < |tenants| ==> vrf !in tenants[u].vrfs
  }

  lemma {:induction false} TenantOfIs(tenants: seq<Tenant>, vrf: string)
    ensures match TenantOf(tenants, vrf)
            case None => forall t :: 0 <= t < |tenants| ==> vrf !in tenants[t].vrfs
            case Some(owner) => exists t :: LastLister(tenants, vrf, t) && tenants[t] == owner
  {
    if tenants != [] {
      var front, n := tenants[..|tenants| - 1], |tenants| - 1;
      assert forall t :: 0 <= t < n ==> front[t] == tenants[t];
      if vrf in tenants[n].vrfs {
        assert LastLister(tenants, vrf, n);
      } else {
        TenantOfIs(front, vrf);
        forall t ensures LastLister(front, vrf, t) <==> LastLister(tenants, vrf, t) { }
      }
    }
  }

  /** The last tenant that lists the SVI's VRF. */
  predicate Owns(tenants: seq<Tenant>, svi: Svi, t: int) {
    svi.vrf.Some? && LastLister(tenants, svi.vrf.value, t)
  }

  /** And every SVI, behind them: base and fabrics come from the tenant that lists its VRF;
      without such a tenant it has no VNI and is on no fabric. */
  lemma SviIsJudged(tenants: seq<Tenant>, svis: seq<Svi>, k: nat)
    requires k < |svis|
    ensures var all, i, svi := UnsortedVlans(tenants, svis), L2Count(tenants) + k, svis[k];
            && |all| == L2Count(tenants) + |svis|
            && (all[i].objectId, all[i].kind, all[i].name, all[i].vlanId) == (svi.id, "EvpnSvi", svi.name, svi.sviId)
            && all[i].tags == svi.tags
            && (forall t :: Owns(tenants, svi, t) ==>
                  && all[i].fabrics == tenants[t].fabrics
                  && all[i].vni == if tenants[t].vniBase.Some? && svi.sviId.Some?
                                   then Some(tenants[t].vniBase.value + svi.sviId.value) else None)
            && ((forall t :: !Owns(tenants, svi, t)) ==> all[i].fabrics == [] && all[i].vni == None)
  {
    L2CountIs(tenants);
    assert UnsortedVlans(tenants, svis)[L2Count(tenants) + k] == SviVlan(tenants, svis[k]);
    forall t | Owns(tenants, svis[k], t) ensures TenantOf(tenants, svis[k].vrf.value) == Some(tenants[t]) {
      OwnerFound(tenants, svis[k], t);
    }
    if forall t :: !Owns(tenants, svis[k], t) { NoOwner(tenants, svis[k]); }
  }

  lemma OwnerFound(tenants: seq<Tenant>, svi: Svi, t: int)
    requires Owns(tenants, svi, t)
    ensures TenantOf(tenants, svi.vrf.value) == Some(tenants[t])
  {
    TenantOfIs(tenants, svi.vrf.value);
  }

  lemma NoOwner(tenants: seq<Tenant>, svi: Svi)
    requires forall t :: !Owns(tenants, svi, t)
    ensures svi.vrf.Some? ==> TenantOf(tenants, svi.vrf.value) == None
  {
    if svi.vrf.Some? {
      TenantOfIs(tenants, svi.vrf.value);
      forall t ensures !LastLister(tenants, svi.vrf.value, t) {
        assert !Owns(tenants, svi, t);
      }
    }
  }

  /** Nothing else is judged, and nothing twice. */
  lemma OnlyThoseAreJudged(tenants: seq<Tenant>, svis: seq<Svi>)
    ensures multiset(ServiceVlans(tenants, svis)) == multiset(UnsortedVlans(tenants, svis))
    ensures |ServiceVlans(tenants, svis)| == |UnsortedVlans(tenants, svis)| == L2Count(tenants) + |svis|
  {
    Sorting.SortPermutes(UnsortedVlans(tenants, svis), VlanBefore);
    L2CountIs(tenants);
    assert |multiset(ServiceVlans(tenants, svis))| == |multiset(UnsortedVlans(tenants, svis))|;
  }

  /** The order of blame: by kind, then name, then id. */
  lemma VlanOrder(x: ServiceVlan, y: ServiceVlan)
    ensures VlanBefore(x, y) <==>
            || Before(Text(x.kind), Text(y.kind))
            || (x.kind == y.kind && (|| Before(Text(x.name), Text(y.name))
                                     || (x.name == y.name && Before(Text(x.objectId), Text(y.objectId)))))
  {
    TextBefore(x.kind, y.kind);
    TextBefore(x.name, y.name);
    var xs, ys := [Text(x.objectId)], [Text(y.objectId)];
    KeyBeforeMeans(Text(x.objectId), Text(y.objectId), [], []);
    KeyBeforeMeans(Text(x.name), Text(y.name), xs, ys);
    KeyBeforeMeans(Text(x.kind), Text(y.kind), [Text(x.name)] + xs, [Text(y.name)] + ys);
    assert [] + xs == xs && [] + ys == ys;
    assert VlanKey(x) == [Text(x.kind)] + ([Text(x.name)] + xs) && VlanKey(y) == [Text(y.kind)] + ([Text(y.name)] + ys);
  }

  // --- Clean over tenants and SVIs ----------------------------------------------------------------

  /** No tag in common under one id, and no VNI in common. */
  ghost predicate Apart(x: ServiceVlan, y: ServiceVlan) {
    && !(x.vlanId.Some? && x.vlanId == y.vlanId && exists tag :: tag in x.tags && tag in y.tags)
    && !(x.vni.Some? && x.vni == y.vni)
  }

  lemma ApartIsNoClash(members: seq<ServiceVlan>, i: int, j: int)
    requires 0 <= i < j < |members|
    ensures Apart(members[i], members[j]) <==> !Clash(members, i, j)
  {
    var x, y := members[i], members[j];
    forall tag ensures tag in x.tags * y.tags <==> tag in x.tags && tag in y.tags { }
    if x.tags * y.tags != {} { var tag :| tag in x.tags * y.tags; }
  }

  lemma CleanIsApart(members: seq<ServiceVlan>)
    ensures CleanFabric(members) <==> forall i, j :: 0 <= i < j < |members| ==> Apart(members[i], members[j])
  {
    forall i, j | 0 <= i < j < |members| ensures Apart(members[i], members[j]) <==> !Clash(members, i, j) {
      ApartIsNoClash(members, i, j);
    }
  }

  lemma CleanConcat(some: seq<ServiceVlan>, more: seq<ServiceVlan>)
    ensures CleanFabric(some + more) <==>
            CleanFabric(some) && CleanFabric(more) && forall x, y :: x in some && y in more ==> Apart(x, y)
  {
    CleanIsApart(some + more);
    CleanIsApart(some);
    CleanIsApart(more);
    if CleanFabric(some + more) {
      PartsAreApart(some, more, some + more);
    } else if CleanFabric(some) && CleanFabric(more) {
      var i, j :| 0 <= i < j < |some + more| && !Apart((some + more)[i], (some + more)[j]);
      ApartAcross(some, more, some + more, i, j);
    }
  }

  lemma PartsAreApart(some: seq<ServiceVlan>, more: seq<ServiceVlan>, all: seq<ServiceVlan>)
    requires all == some + more && forall i, j :: 0 <= i < j < |all| ==> Apart(all[i], all[j])
    ensures forall i, j :: 0 <= i < j < |some| ==> Apart(some[i], some[j])
    ensures forall i, j :: 0 <= i < j < |more| ==> Apart(more[i], more[j])
    ensures forall x, y :: x in some && y in more ==> Apart(x, y)
  {
    assert forall i :: 0 <= i < |some| ==> all[i] == some[i];
    forall i, j | 0 <= i < j < |more| ensures Apart(more[i], more[j]) {
      assert all[|some| + i] == more[i] && all[|some| + j] == more[j];
    }
    forall x, y | x in some && y in more ensures Apart(x, y) {
      var i, j :| 0 <= i < |some| && some[i] == x && 0 <= j < |more| && more[j] == y;
      assert all[i] == x && all[|some| + j] == y;
    }
  }

  lemma ApartAcross(some: seq<ServiceVlan>, more: seq<ServiceVlan>, all: seq<ServiceVlan>, i: int, j: int)
    requires all == some + more && 0 <= i < j < |all| && !Apart(all[i], all[j])
    requires forall k, l :: 0 <= k < l < |some| ==> Apart(some[k], some[l])
    requires forall k, l :: 0 <= k < l < |more| ==> Apart(more[k], more[l])
    ensures exists x, y :: x in some && y in more && !Apart(x, y)
  {
    assert forall k :: 0 <= k < |some| ==> all[k] == some[k] && some[k] in some;
    assert forall k :: 0 <= k < |more| ==> all[|some| + k] == more[k] && more[k] in more;
    if i < |some| <= j {
      assert all[i] in some && all[j] == more[j - |some|];
    }
  }

  lemma {:induction false} CopiesCount(x: ServiceVlan, fabrics: seq<string>, fabric: string)
    ensures |Copies(x, fabrics, fabric)| > 0 <==> fabric in fabrics
    ensures |Copies(x, fabrics, fabric)| > 1 <==> exists a, b :: 0 <= a < b < |fabrics| && fabrics[a] == fabric && fabrics[b] == fabric
  {
    if fabrics != [] {
      var front, last := fabrics[..|fabrics| - 1], fabrics[|fabrics| - 1];
      CopiesCount(x, front, fabric);
      assert fabrics == front + [last];
      if last == fabric && fabric in front {
        var a :| 0 <= a < |front| && front[a] == fabric;
        assert fabrics[a] == fabric && fabrics[|front|] == fabric;
      }
      if a, b :| 0 <= a < b < |front| && front[a] == fabric && front[b] == fabric {
        assert fabrics[a] == fabric && fabrics[b] == fabric;
      }
      if a, b :| 0 <= a < b < |fabrics| && fabrics[a] == fabric && fabrics[b] == fabric {
        assert front[a] == fabric && (b < |front| ==> front[b] == fabric);
      }
    }
  }

  lemma {:induction false} MembersAre(vlans: seq<ServiceVlan>, fabric: string, v: ServiceVlan)
    ensures v in Members(vlans, fabric) <==> v in vlans && fabric in v.fabrics
  {
    if vlans != [] {
      var front, last := vlans[..|vlans| - 1], vlans[|vlans| - 1];
      MembersAre(front, fabric, v);
      CopiesAre(last, last.fabrics, fabric);
      CopiesCount(last, last.fabrics, fabric);
      assert vlans == front + [last];
      var copies := Copies(last, last.fabrics, fabric);
      assert fabric in last.fabrics ==> copies[0] in copies;
    }
  }

  lemma MembersSnoc(vlans: seq<ServiceVlan>, last: ServiceVlan, fabric: string)
    ensures Members(vlans + [last], fabric) == Members(vlans, fabric) + Copies(last, last.fabrics, fabric)
  {
    assert (vlans + [last])[..|vlans|] == vlans;
  }

  /** How often a VLAN is among the members: as often as in the one list and in the other. */
  function MemberCount(vlans: seq<ServiceVlan>, fabric: string, v: ServiceVlan): nat {
    multiset(Members(vlans, fabric))[v]
  }

  lemma CountSnoc(vlans: seq<ServiceVlan>, last: ServiceVlan, fabric: string, v: ServiceVlan)
    ensures MemberCount(vlans + [last], fabric, v) == MemberCount(vlans, fabric, v) + multiset(Copies(last, last.fabrics, fabric))[v]
  {
    MembersSnoc(vlans, last, fabric);
  }

  /** A count that grows element by element adds up over lists. */
  lemma {:induction false} SumConcat(count: seq<ServiceVlan> -> nat, weight: ServiceVlan -> nat, xs: seq<ServiceVlan>, ys: seq<ServiceVlan>)
    requires count([]) == 0 && forall vs, x :: count(vs + [x]) == count(vs) + weight(x)
    ensures count(xs + ys) == count(xs) + count(ys)
    decreases |ys|
  {
    if ys == [] {
      assert xs + ys == xs;
    } else {
      var front, last := ys[..|ys| - 1], ys[|ys| - 1];
      SumConcat(count, weight, xs, front);
      assert ys == front + [last];
      assert xs + ys == (xs + front) + [last];
    }
  }

  /** And then inserting anywhere adds the weight of what is inserted. */
  lemma {:induction false} SumInsert(count: seq<ServiceVlan> -> nat, weight: ServiceVlan -> nat, xs: seq<ServiceVlan>, x: ServiceVlan)
    requires count([]) == 0 && forall vs, v :: count(vs + [v]) == count(vs) + weight(v)
    ensures count(Sorting.Insert(xs, x, VlanBefore)) == count(xs) + weight(x)
  {
    SumConcat(count, weight, [x], xs);
    assert [] + [x] == [x];
    if xs != [] && !VlanBefore(x, xs[0]) {
      SumInsert(count, weight, xs[1..], x);
      SumConcat(count, weight, [xs[0]], Sorting.Insert(xs[1..], x, VlanBefore));
      SumConcat(count, weight, [xs[0]], xs[1..]);
      assert xs == [xs[0]] + xs[1..];
    }
  }

  lemma {:induction false} SumSort(count: seq<ServiceVlan> -> nat, weight: ServiceVlan -> nat, xs: seq<ServiceVlan>)
    requires count([]) == 0 && forall vs, v :: count(vs + [v]) == count(vs) + weight(v)
    ensures count(Sorting.Sort(xs, VlanBefore)) == count(xs)
  {
    if xs != [] {
      var front, x := xs[..|xs| - 1], xs[|xs| - 1];
      SumSort(count, weight, front);
      SumInsert(count, weight, Sorting.Sort(front, VlanBefore), x);
      assert xs == front + [x];
    }
  }

  lemma SortedCount(vlans: seq<ServiceVlan>, fabric: string, v: ServiceVlan)
    ensures MemberCount(Sorting.Sort(vlans, VlanBefore), fabric, v) == MemberCount(vlans, fabric, v)
  {
    var count := vs => MemberCount(vs, fabric, v);
    var weight := (x: ServiceVlan) => multiset(Copies(x, x.fabrics, fabric))[v];
    forall vs, x: ServiceVlan ensures count(vs + [x]) == count(vs) + weight(x) { CountSnoc(vs, x, fabric, v); }
    SumSort(count, weight, vlans);
  }

  lemma SortedMembers(vlans: seq<ServiceVlan>, sorted: seq<ServiceVlan>, fabric: string)
    requires sorted == Sorting.Sort(vlans, VlanBefore)
    ensures multiset(Members(sorted, fabric)) == multiset(Members(vlans, fabric))
  {
    forall v ensures MemberCount(sorted, fabric, v) == MemberCount(vlans, fabric, v) { SortedCount(vlans, fabric, v); }
    assert forall v :: multiset(Members(sorted, fabric))[v] == MemberCount(sorted, fabric, v);
    assert forall v :: multiset(Members(vlans, fabric))[v] == MemberCount(vlans, fabric, v);
  }

  lemma {:induction false} CountTwice(members: seq<ServiceVlan>, x: ServiceVlan)
    ensures multiset(members)[x] > 0 <==> x in members
    ensures multiset(members)[x] > 1 <==> exists i, j :: 0 <= i < j < |members| && members[i] == x && members[j] == x
  {
    if members != [] {
      var front, last := members[..|members| - 1], members[|members| - 1];
      CountTwice(front, x);
      assert members == front + [last];
      if last == x && x in front {
        var i :| 0 <= i < |front| && front[i] == x;
        assert members[i] == x && members[|front|] == x;
      }
      if i, j :| 0 <= i < j < |front| && front[i] == x && front[j] == x {
        assert members[i] == x && members[j] == x;
      }
      if i, j :| 0 <= i < j < |members| && members[i] == x && members[j] == x {
        assert front[i] == x && (j < |front| ==> front[j] == x);
      }
    }
  }

  ghost predicate CleanCounts(counts: multiset<ServiceVlan>) {
    forall x, y :: x in counts && y in counts && (x != y || counts[x] > 1) ==> Apart(x, y)
  }

  /** Clean or not does not depend on the order. */
  lemma CleanByCount(members: seq<ServiceVlan>)
    ensures CleanFabric(members) <==> CleanCounts(multiset(members))
  {
    CleanIsApart(members);
    if CleanFabric(members) {
      forall x, y | x in members && y in members && (x != y || multiset(members)[x] > 1) ensures Apart(x, y) {
        TwoMembers(members, x, y);
      }
    }
    if CleanCounts(multiset(members)) {
      forall i, j | 0 <= i < j < |members| ensures Apart(members[i], members[j]) {
        CountTwice(members, members[i]);
        assert members[i] in members && members[j] in members;
      }
    }
  }

  lemma TwoMembers(members: seq<ServiceVlan>, x: ServiceVlan, y: ServiceVlan)
    requires forall i, j :: 0 <= i < j < |members| ==> Apart(members[i], members[j])
    requires x in members && y in members && (x != y || multiset(members)[x] > 1)
    ensures Apart(x, y)
  {
    if x != y {
      var i, j :| 0 <= i < |members| && members[i] == x && 0 <= j < |members| && members[j] == y;
      assert Apart(members[if i < j then i else j], members[if i < j then j else i]);
    } else {
      CountTwice(members, x);
    }
  }

  /** A VLAN that its tenant puts on one fabric twice. */
  predicate ListedTwice(v: ServiceVlan, fabric: string) {
    exists a, b :: 0 <= a < b < |v.fabrics| && v.fabrics[a] == fabric && v.fabrics[b] == fabric
  }

  /** Any two VLANs on the fabric are apart, and one listed on it twice clashes with itself. */
  ghost predicate PairsApart(vlans: seq<ServiceVlan>, fabric: string) {
    && (forall i, j :: 0 <= i < j < |vlans| && fabric in vlans[i].fabrics && fabric in vlans[j].fabrics ==> Apart(vlans[i], vlans[j]))
    && (forall i :: 0 <= i < |vlans| && ListedTwice(vlans[i], fabric) ==> Apart(vlans[i], vlans[i]))
  }

  lemma {:induction false} CleanIsPairsApart(vlans: seq<ServiceVlan>, fabric: string)
    ensures CleanFabric(Members(vlans, fabric)) <==> PairsApart(vlans, fabric)
  {
    if vlans != [] {
      var front, x := vlans[..|vlans| - 1], vlans[|vlans| - 1];
      CleanIsPairsApart(front, fabric);
      CleanWithOneMore(front, x, fabric);
      PairsWithOneMore(vlans, front, x, fabric);
    }
  }

  lemma CleanWithOneMore(front: seq<ServiceVlan>, x: ServiceVlan, fabric: string)
    ensures CleanFabric(Members(front, fabric) + Copies(x, x.fabrics, fabric)) <==>
            && CleanFabric(Members(front, fabric))
            && (fabric in x.fabrics ==> forall v :: v in front && fabric in v.fabrics ==> Apart(v, x))
            && (ListedTwice(x, fabric) ==> Apart(x, x))
  {
    var copies := Copies(x, x.fabrics, fabric);
    CopiesAre(x, x.fabrics, fabric);
    CopiesCount(x, x.fabrics, fabric);
    CleanWithCopies(Members(front, fabric), x, copies);
    forall v ensures v in Members(front, fabric) <==> v in front && fabric in v.fabrics { MembersAre(front, fabric, v); }
  }

  lemma CleanWithCopies(some: seq<ServiceVlan>, x: ServiceVlan, copies: seq<ServiceVlan>)
    requires forall v :: v in copies ==> v == x
    ensures CleanFabric(some + copies) <==>
            && CleanFabric(some)
            && (|copies| > 0 ==> forall v :: v in some ==> Apart(v, x))
            && (|copies| > 1 ==> Apart(x, x))
  {
    CleanConcat(some, copies);
    CleanIsApart(copies);
    assert forall k :: 0 <= k < |copies| ==> copies[k] in copies;
    if |copies| > 1 && CleanFabric(copies) { assert Apart(copies[0], copies[1]); }
  }

  lemma PairsWithOneMore(vlans: seq<ServiceVlan>, front: seq<ServiceVlan>, x: ServiceVlan, fabric: string)
    requires vlans == front + [x]
    ensures PairsApart(vlans, fabric) <==>
            && PairsApart(front, fabric)
            && (fabric in x.fabrics ==> forall v :: v in front && fabric in v.fabrics ==> Apart(v, x))
            && (ListedTwice(x, fabric) ==> Apart(x, x))
  {
    assert vlans[|front|] == x && forall i :: 0 <= i < |front| ==> vlans[i] == front[i];
    if PairsApart(vlans, fabric) {
      forall v | v in front && fabric in v.fabrics && fabric in x.fabrics ensures Apart(v, x) {
        var i :| 0 <= i < |front| && front[i] == v;
        assert vlans[i] == v;
      }
      forall i, j | 0 <= i < j < |front| && fabric in front[i].fabrics && fabric in front[j].fabrics ensures Apart(front[i], front[j]) {
        assert Apart(vlans[i], vlans[j]);
      }
    }
  }

  /** The VLAN rule finds nothing exactly when, over the L2 VLANs and SVIs themselves, any two
      on one fabric are apart, and none that does not clash with itself is listed twice. */
  lemma CleanOverVlans(tenants: seq<Tenant>, svis: seq<Svi>)
    ensures EveryFabricClean(ServiceVlans(tenants, svis)) <==> forall fabric :: PairsApart(UnsortedVlans(tenants, svis), fabric)
  {
    CleanAllSorted(UnsortedVlans(tenants, svis), ServiceVlans(tenants, svis));
  }

  lemma CleanAllSorted(all: seq<ServiceVlan>, sorted: seq<ServiceVlan>)
    requires sorted == Sorting.Sort(all, VlanBefore)
    ensures EveryFabricClean(sorted) <==> forall fabric :: PairsApart(all, fabric)
  {
    forall fabric ensures CleanFabric(Members(sorted, fabric)) <==> PairsApart(all, fabric) {
      CleanWhenSorted(all, sorted, fabric);
    }
  }

  lemma CleanWhenSorted(all: seq<ServiceVlan>, sorted: seq<ServiceVlan>, fabric: string)
    requires sorted == Sorting.Sort(all, VlanBefore)
    ensures CleanFabric(Members(sorted, fabric)) <==> PairsApart(all, fabric)
  {
    SortedMembers(all, sorted, fabric);
    CleanByCount(Members(sorted, fabric));
    CleanByCount(Members(all, fabric));
    CleanIsPairsApart(all, fabric);
  }

  /** A finding names one of two clashing VLANs on a fabric, and never the one that sorts first. */
  lemma FindingNamesTheLater(tenants: seq<Tenant>, svis: seq<Svi>, f: Finding)
    requires Blamed(ServiceVlans(tenants, svis), f)
    ensures exists x, y, fabric ::
              && x in UnsortedVlans(tenants, svis) && y in UnsortedVlans(tenants, svis)
              && fabric in x.fabrics && fabric in y.fabrics && !Apart(x, y)
              && f == Finding(y.objectId, y.kind) && !VlanBefore(y, x)
  {
    var fabric, i, j :| Blames(Members(ServiceVlans(tenants, svis), fabric), i, j, f);
    var members := Members(ServiceVlans(tenants, svis), fabric);
    LaterVlanIsBlamed(tenants, svis, fabric, i, j);
    ApartIsNoClash(members, i, j);
    assert members[i] in members && members[j] in members;
    MembersAre(ServiceVlans(tenants, svis), fabric, members[i]);
    MembersAre(ServiceVlans(tenants, svis), fabric, members[j]);
    assert forall v :: v in ServiceVlans(tenants, svis) <==> v in multiset(ServiceVlans(tenants, svis));
    assert forall v :: v in UnsortedVlans(tenants, svis) <==> v in multiset(UnsortedVlans(tenants, svis));
  }

  // --- Tenant subnets ----------------------------------------------------------------------------

  type VrfId = nat

  datatype IpamPrefix = IpamPrefix(id: string, role: Option<string>, network: Option<Prefix>, vrf: Option<VrfId>)

  datatype Segment = Segment(name: string, subnet: Option<string>, vrf: Option<VrfId>)

  datatype Gateway = Gateway(address: Address, vrf: VrfId)

  /** A subnet a tenant gateway serves, its VRF where one could be resolved, and the
      segments that record it. */
  datatype TenantSubnet = TenantSubnet(prefixId: string, network: Prefix, vrf: Option<VrfId>, segments: seq<string>)

  function SegmentNames(segments: seq<Segment>, prefixId: string): seq<string> {
    if segments == [] then []
    else
      var last := segments[|segments| - 1];
      SegmentNames(segments[..|segments| - 1], prefixId) + (if last.subnet == Some(prefixId) then [last.name] else [])
  }

  ghost predicate SegmentVrf(segments: seq<Segment>, prefixId: string, v: VrfId) {
    exists s :: s in segments && s.subnet == Some(prefixId) && s.vrf == Some(v)
  }

  ghost predicate Serves(gateways: seq<Gateway>, network: Prefix, v: VrfId) {
    exists g :: g in gateways && Holds(network, g.address) && g.vrf == v
  }

  /** The VRF of a prefix: the least its segments name, else its own, else the one VRF
      all gateways inside it belong to. */
  ghost predicate ResolvesTo(segments: seq<Segment>, gateways: seq<Gateway>, p: IpamPrefix, network: Prefix, r: Option<VrfId>) {
    if exists v :: SegmentVrf(segments, p.id, v) then
      r.Some? && SegmentVrf(segments, p.id, r.value) && forall v :: SegmentVrf(segments, p.id, v) ==> r.value <= v
    else if p.vrf.Some? then r == p.vrf
    else
      match r
      case Some(v) => Serves(gateways, network, v) && forall other :: Serves(gateways, network, other) ==> other == v
      case None => forall v :: Serves(gateways, network, v) ==> exists other :: other != v && Serves(gateways, network, other)
  }

  method LeastSegmentVrf(segments: seq<Segment>, prefixId: string) returns (r: Option<VrfId>)
    ensures r.None? <==> forall v :: !SegmentVrf(segments, prefixId, v)
    ensures r.Some? ==> SegmentVrf(segments, prefixId, r.value) && forall v :: SegmentVrf(segments, prefixId, v) ==> r.value <= v
  {
    r := None;
    for i := 0 to |segments|
      invariant r.None? <==> forall v :: !SegmentVrf(segments[..i], prefixId, v)
      invariant r.Some? ==> SegmentVrf(segments[..i], prefixId, r.value)
                            && forall v :: SegmentVrf(segments[..i], prefixId, v) ==> r.value <= v
    {
      var s := segments[i];
      assert segments[..i + 1] == segments[..i] + [s];
      SegmentVrfSnoc(segments[..i], s, prefixId);
      if s.subnet == Some(prefixId) && s.vrf.Some? && (r.None? || s.vrf.value < r.value) {
        r := s.vrf;
      }
    }
    assert segments[..|segments|] == segments;
  }

  lemma SegmentVrfSnoc(segments: seq<Segment>, s: Segment, prefixId: string)
    ensures forall v: VrfId :: SegmentVrf(segments + [s], prefixId, v)
                        <==> SegmentVrf(segments, prefixId, v) || (s.subnet == Some(prefixId) && s.vrf == Some(v))
  {
    forall v: VrfId | SegmentVrf(segments, prefixId, v) ensures SegmentVrf(segments + [s], prefixId, v) {
      var x :| x in segments && x.subnet == Some(prefixId) && x.vrf == Some(v);
      assert x in segments + [s];
    }
    assert s in segments + [s];
  }

  /** The VRFs whose gateways lie inside the network. */
  method ServedBy(gateways: seq<Gateway>, network: Prefix) returns (served: set<VrfId>)
    ensures forall v :: v in served <==> Serves(gateways, network, v)
  {
    served := {};
    for i := 0 to |gateways|
      invariant forall v :: v in served <==> exists k :: 0 <= k < i && Holds(network, gateways[k].address) && gateways[k].vrf == v
    {
      if gateways[i].address.version == network.version && Holds(network, gateways[i].address) {
        served := served + {gateways[i].vrf};
      }
    }
    forall v ensures v in served <==> Serves(gateways, network, v) {
      if Serves(gateways, network, v) {
        var g :| g in gateways && Holds(network, g.address) && g.vrf == v;
        var k :| 0 <= k < |gateways| && gateways[k] == g;
        assert Holds(network, gateways[k].address);
      }
    }
  }

  method ResolveVrf(segments: seq<Segment>, gateways: seq<Gateway>, p: IpamPrefix, network: Prefix) returns (r: Option<VrfId>)
    ensures ResolvesTo(segments, gateways, p, network, r)
  {
    r := LeastSegmentVrf(segments, p.id);
    if r.Some? {
      return;
    }
    if p.vrf.Some? {
      return p.vrf;
    }
    var served := ServedBy(gateways, network);
    if served == {} {
      return None;
    }
    var v :| v in served;
    if served == {v} {
      return Some(v);
    }
    var other :| other in served && other != v;
    assert Serves(gateways, network, v) && Serves(gateways, network, other);
    r := None;
  }

  /** Said out: the least VRF that a segment recording the prefix names; without one the
      prefix's own; without that the VRF of the gateways inside it, when they agree on one. */
  lemma ResolvedVrfIs(segments: seq<Segment>, gateways: seq<Gateway>, p: IpamPrefix, network: Prefix, r: Option<VrfId>)
    requires ResolvesTo(segments, gateways, p, network, r)
    ensures (exists s :: s in segments && s.subnet == Some(p.id) && s.vrf.Some?) ==>
              && (exists s :: s in segments && s.subnet == Some(p.id) && s.vrf.Some? && r == s.vrf)
              && forall s :: s in segments && s.subnet == Some(p.id) && s.vrf.Some? ==> r.value <= s.vrf.value
    ensures (forall s :: s in segments && s.subnet == Some(p.id) ==> s.vrf.None?) && p.vrf.Some? ==> r == p.vrf
    ensures (forall s :: s in segments && s.subnet == Some(p.id) ==> s.vrf.None?) && p.vrf.None? ==>
              if r.Some? then
                && (exists g :: g in gateways && Holds(network, g.address))
                && forall g :: g in gateways && Holds(network, g.address) ==> g.vrf == r.value
              else
                forall g :: g in gateways && Holds(network, g.address) ==>
                  exists other :: other in gateways && Holds(network, other.address) && other.vrf != g.vrf
  {
    if s :| s in segments && s.subnet == Some(p.id) && s.vrf.Some? {
      assert SegmentVrf(segments, p.id, s.vrf.value);
    }
    forall s | s in segments && s.subnet == Some(p.id) && s.vrf.Some? ensures SegmentVrf(segments, p.id, s.vrf.value) { }
    forall g | g in gateways && Holds(network, g.address) ensures Serves(gateways, network, g.vrf) { }
  }

  /** Which prefixes are tenant subnets: those a segment records, and tenant-role ones
      that are not a pool's own resource. */
  predicate IsTenantSubnet(segments: seq<Segment>, poolResources: set<string>, p: IpamPrefix) {
    && p.network.Some?
    && (SegmentNames(segments, p.id) != []
        || (p.role in {Some("tenant_host"), Some("tenant_cloud")} && p.id !in poolResources))
  }

  ghost predicate ResolvedFrom(segments: seq<Segment>, gateways: seq<Gateway>, p: IpamPrefix, s: TenantSubnet) {
    && p.network == Some(s.network) && s.prefixId == p.id && s.segments == SegmentNames(segments, p.id)
    && ResolvesTo(segments, gateways, p, s.network, s.vrf)
  }

  function TenantPrefixes(prefixes: seq<IpamPrefix>, segments: seq<Segment>, poolResources: set<string>): seq<IpamPrefix> {
    if prefixes == [] then []
    else
      var last := prefixes[|prefixes| - 1];
      TenantPrefixes(prefixes[..|prefixes| - 1], segments, poolResources)
      + (if IsTenantSubnet(segments, poolResources, last) then [last] else [])
  }

  /** Its names are those of the segments that record the prefix. */
  lemma {:induction false} SegmentNamesAre(segments: seq<Segment>, prefixId: string, name: string)
    ensures name in SegmentNames(segments, prefixId) <==>
            exists i :: 0 <= i < |segments| && segments[i].subnet == Some(prefixId) && segments[i].name == name
  {
    if segments != [] {
      var front, n := segments[..|segments| - 1], |segments| - 1;
      SegmentNamesAre(front, prefixId, name);
      assert forall i :: 0 <= i < n ==> front[i] == segments[i];
    }
  }

  lemma {:induction false} SomeSegmentNames(segments: seq<Segment>, prefixId: string)
    ensures SegmentNames(segments, prefixId) != [] <==> exists i :: 0 <= i < |segments| && segments[i].subnet == Some(prefixId)
  {
    if segments != [] {
      var front, n := segments[..|segments| - 1], |segments| - 1;
      SomeSegmentNames(front, prefixId);
      assert forall i :: 0 <= i < n ==> front[i] == segments[i];
    }
  }

  predicate TwoRecord(segments: seq<Segment>, prefixId: string, i: int, j: int) {
    0 <= i < j < |segments| && segments[i].subnet == Some(prefixId) && segments[j].subnet == Some(prefixId)
  }

  /** It has more than one name, and is blamed for it, when two segments record it. */
  lemma {:induction false} TwoSegmentNames(segments: seq<Segment>, prefixId: string)
    ensures |SegmentNames(segments, prefixId)| > 1 <==> exists i, j :: TwoRecord(segments, prefixId, i, j)
  {
    if segments != [] {
      var front, n := segments[..|segments| - 1], |segments| - 1;
      TwoSegmentNames(front, prefixId);
      SomeSegmentNames(front, prefixId);
      assert forall i :: 0 <= i < n ==> front[i] == segments[i];
      if i, j :| TwoRecord(front, prefixId, i, j) { assert TwoRecord(segments, prefixId, i, j); }
      if segments[n].subnet == Some(prefixId) && SegmentNames(front, prefixId) != [] {
        var i :| 0 <= i < n && front[i].subnet == Some(prefixId);
        assert TwoRecord(segments, prefixId, i, n);
      }
      if i, j :| TwoRecord(segments, prefixId, i, j) {
        assert j < n ==> TwoRecord(front, prefixId, i, j);
        assert front[i].subnet == Some(prefixId);
      }
    }
  }

  /** A prefix is kept as a tenant subnet, as often as it is there, exactly when it parses and
      a segment records it, or it has a tenant role and is no resource of a pool. */
  lemma {:induction false} TenantPrefixesAre(prefixes: seq<IpamPrefix>, segments: seq<Segment>, poolResources: set<string>, p: IpamPrefix)
    ensures multiset(TenantPrefixes(prefixes, segments, poolResources))[p] ==
            if p.network.Some? && (|| (exists i :: 0 <= i < |segments| && segments[i].subnet == Some(p.id))
                                   || ((p.role == Some("tenant_host") || p.role == Some("tenant_cloud")) && p.id !in poolResources))
            then multiset(prefixes)[p] else 0
  {
    if prefixes != [] {
      var front, last := prefixes[..|prefixes| - 1], prefixes[|prefixes| - 1];
      TenantPrefixesAre(front, segments, poolResources, p);
      SomeSegmentNames(segments, last.id);
      assert prefixes == front + [last];
    }
  }

  /** The order of the subnets: IPv4 first, then by address, shorter prefixes first, then id. */
  lemma SubnetOrder(x: TenantSubnet, y: TenantSubnet)
    ensures SubnetBefore(x, y) <==>
            || (x.network.version == V4 && y.network.version == V6)
            || (x.network.version == y.network.version &&
                (|| x.network.addr < y.network.addr
                 || (x.network.addr == y.network.addr &&
                     (|| x.network.len < y.network.len
                      || (x.network.len == y.network.len && Before(Text(x.prefixId), Text(y.prefixId)))))))
  {
    var v, w := if x.network.version == V4 then 4 else 6, if y.network.version == V4 then 4 else 6;
    var id, id' := [Text(x.prefixId)], [Text(y.prefixId)];
    var len, len' := [[x.network.len]] + id, [[y.network.len]] + id';
    var addr, addr' := [[x.network.addr]] + len, [[y.network.addr]] + len';
    NumberBefore(v, w);
    NumberBefore(x.network.addr, y.network.addr);
    NumberBefore(x.network.len, y.network.len);
    KeyBeforeMeans(Text(x.prefixId), Text(y.prefixId), [], []);
    KeyBeforeMeans([x.network.len], [y.network.len], id, id');
    KeyBeforeMeans([x.network.addr], [y.network.addr], len, len');
    KeyBeforeMeans([v], [w], addr, addr');
    assert id + [] == id && id' + [] == id';
    assert SubnetKey(x) == [[v]] + addr && SubnetKey(y) == [[w]] + addr';
  }

  ghost predicate AllResolved(segments: seq<Segment>, gateways: seq<Gateway>, kept: seq<IpamPrefix>, found: seq<TenantSubnet>) {
    |found| == |kept| && forall i :: 0 <= i < |kept| ==> ResolvedFrom(segments, gateways, kept[i], found[i])
  }

  function SubnetKey(s: TenantSubnet): Key {
    [[if s.network.version == V4 then 4 else 6], [s.network.addr], [s.network.len], Text(s.prefixId)]
  }

  predicate SubnetBefore(x: TenantSubnet, y: TenantSubnet) {
    KeyBefore(SubnetKey(x), SubnetKey(y))
  }

  /** One tenant subnet for each such prefix, with its VRF resolved: by family, network and id. */
  method TenantSubnets(prefixes: seq<IpamPrefix>, segments: seq<Segment>, gateways: seq<Gateway>, poolResources: set<string>)
    returns (subnets: seq<TenantSubnet>)
    ensures exists found :: AllResolved(segments, gateways, TenantPrefixes(prefixes, segments, poolResources), found)
              && multiset(subnets) == multiset(found)
    ensures forall s :: s in subnets ==>
              exists p :: p in prefixes && p.id == s.prefixId && p.network == Some(s.network)
                && s.segments == SegmentNames(segments, p.id) && ResolvesTo(segments, gateways, p, s.network, s.vrf)
    ensures Sorting.Sorted(subnets, SubnetBefore)
  {
    var found := [];
    for i := 0 to |prefixes|
      invariant AllResolved(segments, gateways, TenantPrefixes(prefixes[..i], segments, poolResources), found)
    {
      var p := prefixes[i];
      assert prefixes[..i + 1][..i] == prefixes[..i];
      if !IsTenantSubnet(segments, poolResources, p) {
        continue;
      }
      var vrf := ResolveVrf(segments, gateways, p, p.network.value);
      found := found + [TenantSubnet(p.id, p.network.value, vrf, SegmentNames(segments, p.id))];
    }
    assert prefixes[..|prefixes|] == prefixes;
    subnets := Sorting.Sort(found, SubnetBefore);
    KeysOrder(SubnetBefore, SubnetKey);
    Sorting.SortSorted(found, SubnetBefore);
    Sorting.SortPermutes(found, SubnetBefore);
    forall s | s in subnets
      ensures exists p :: p in prefixes && p.id == s.prefixId && p.network == Some(s.network)
                && s.segments == SegmentNames(segments, p.id) && ResolvesTo(segments, gateways, p, s.network, s.vrf)
    {
      assert s in multiset(subnets) && s in found;
      var i :| 0 <= i < |found| && found[i] == s;
      var p := TenantPrefixes(prefixes, segments, poolResources)[i];
      assert ResolvedFrom(segments, gateways, p, s);
      TenantPrefixIsPrefix(prefixes, segments, poolResources, p);
    }
  }

  lemma {:induction false} TenantPrefixIsPrefix(prefixes: seq<IpamPrefix>, segments: seq<Segment>, poolResources: set<string>, p: IpamPrefix)
    requires p in TenantPrefixes(prefixes, segments, poolResources)
    ensures p in prefixes
  {
    if p !in TenantPrefixes(prefixes[..|prefixes| - 1], segments, poolResources) {
      assert p == prefixes[|prefixes| - 1];
    } else {
      TenantPrefixIsPrefix(prefixes[..|prefixes| - 1], segments, poolResources, p);
    }
  }

  /** Whether an overlap of the two is reported. */
  predicate Judged(left: TenantSubnet, right: TenantSubnet) {
    && !(left.vrf.Some? && right.vrf.Some? && left.vrf != right.vrf)
    && !(left.segments == [] && right.segments == [] && left.vrf.None? && right.vrf.None?)
  }

  predicate Crowded(subnets: seq<TenantSubnet>, i: int) {
    0 <= i < |subnets| && |subnets[i].segments| > 1
  }

  predicate Collides(subnets: seq<TenantSubnet>, i: int, j: int) {
    0 <= i < j < |subnets| && Overlaps(subnets[i].network, subnets[j].network) && Judged(subnets[i], subnets[j])
  }

  ghost predicate CleanSubnets(subnets: seq<TenantSubnet>) {
    (forall i :: !Crowded(subnets, i)) && (forall i, j :: !Collides(subnets, i, j))
  }

  ghost predicate SubnetBlamed(subnets: seq<TenantSubnet>, i: int, j: int, f: Finding) {
    Collides(subnets, i, j) && f == Finding(subnets[j].prefixId, "IpamPrefix")
  }

  ghost predicate SubnetCrowded(subnets: seq<TenantSubnet>, i: int, f: Finding) {
    Crowded(subnets, i) && f == Finding(subnets[i].prefixId, "IpamPrefix")
  }

  /** A crowded subnet is blamed itself, and the later one of a pair. */
  method CheckSegmentSubnets(subnets: seq<TenantSubnet>) returns (findings: seq<Finding>)
    ensures forall f :: f in findings <==>
              (exists i :: SubnetCrowded(subnets, i, f)) || (exists i, j :: SubnetBlamed(subnets, i, j, f))
    ensures findings == [] <==> CleanSubnets(subnets)
  {
    var crowded := [];
    for i := 0 to |subnets|
      invariant forall f :: f in crowded <==> exists k :: SubnetCrowded(subnets, k, f) && k < i
    {
      if |subnets[i].segments| > 1 {
        assert SubnetCrowded(subnets, i, Finding(subnets[i].prefixId, "IpamPrefix"));
        crowded := crowded + [Finding(subnets[i].prefixId, "IpamPrefix")];
      }
    }
    var pairs := CheckSubnetPairs(subnets);
    findings := crowded + pairs;
    NoSubnetBlamed(subnets, findings);
  }

  ghost function CollidesAt(subnets: seq<TenantSubnet>): (int, int) -> bool {
    (k, l) => Collides(subnets, k, l)
  }

  lemma LaterSubnetBlamed(subnets: seq<TenantSubnet>, f: Finding)
    ensures (exists k, l :: 0 <= k < l < |subnets| && CollidesAt(subnets)(k, l) && f == LaterSubnet(subnets)(l)) <==> exists k, l :: SubnetBlamed(subnets, k, l, f)
  {
    if k, l :| 0 <= k < l < |subnets| && CollidesAt(subnets)(k, l) && f == LaterSubnet(subnets)(l) {
      assert SubnetBlamed(subnets, k, l, f);
    }
    if k, l :| SubnetBlamed(subnets, k, l, f) {
      assert CollidesAt(subnets)(k, l) && f == LaterSubnet(subnets)(l);
    }
  }

  ghost function LaterSubnet(subnets: seq<TenantSubnet>): int -> Finding {
    l => if 0 <= l < |subnets| then Finding(subnets[l].prefixId, "IpamPrefix") else Finding("", "")
  }

  /** One finding for each pair that collides. */
  method CheckSubnetPairs(subnets: seq<TenantSubnet>) returns (findings: seq<Finding>)
    ensures forall f :: f in findings <==> exists i, j :: SubnetBlamed(subnets, i, j, f)
    ensures findings == PairFindings(|subnets|, CollidesAt(subnets), LaterSubnet(subnets), |subnets|, 0)
  {
    findings := [];
    for i := 0 to |subnets|
      invariant findings == PairFindings(|subnets|, CollidesAt(subnets), LaterSubnet(subnets), i, 0)
    {
      for j := i + 1 to |subnets|
        invariant findings == PairFindings(|subnets|, CollidesAt(subnets), LaterSubnet(subnets), i, j)
      {
        var left, right := subnets[i], subnets[j];
        if !Overlaps(left.network, right.network) {
          continue;
        }
        if left.vrf.Some? && right.vrf.Some? && left.vrf.value != right.vrf.value {
          continue;
        }
        if left.segments == [] && right.segments == [] && left.vrf.None? && right.vrf.None? {
          continue;
        }
        findings := findings + [Finding(right.prefixId, "IpamPrefix")];
      }
    }
    forall f ensures f in findings <==> exists k, l :: SubnetBlamed(subnets, k, l, f) {
      PairFindingsAre(|subnets|, CollidesAt(subnets), LaterSubnet(subnets), f);
      LaterSubnetBlamed(subnets, f);
    }
  }

  lemma NoSubnetBlamed(subnets: seq<TenantSubnet>, findings: seq<Finding>)
    requires forall f :: f in findings <==>
               (exists i :: SubnetCrowded(subnets, i, f)) || (exists i, j :: SubnetBlamed(subnets, i, j, f))
    ensures findings == [] <==> CleanSubnets(subnets)
  {
    if findings != [] {
      assert findings[0] in findings;
    }
    forall i | Crowded(subnets, i) ensures findings != [] {
      var f := Finding(subnets[i].prefixId, "IpamPrefix");
      assert SubnetCrowded(subnets, i, f);
      assert f in findings;
    }
    forall i, j | Collides(subnets, i, j) ensures findings != [] {
      var f := Finding(subnets[j].prefixId, "IpamPrefix");
      assert SubnetBlamed(subnets, i, j, f);
      assert f in findings;
    }
  }

  /** Two subnets may share an address only in different resolved VRFs, or when neither
      can be placed and neither belongs to a segment. */
  predicate MayShare(left: TenantSubnet, right: TenantSubnet) {
    || (left.vrf.Some? && right.vrf.Some? && left.vrf != right.vrf)
    || (left.vrf.None? && right.vrf.None? && left.segments == [] && right.segments == [])
  }

  /** What a clean subnet rule means, address by address: no subnet has two segments, and two
      share an address only where they may. */
  lemma CleanSubnetsByAddress(subnets: seq<TenantSubnet>)
    ensures CleanSubnets(subnets) <==>
            && (forall i :: 0 <= i < |subnets| ==> |subnets[i].segments| <= 1)
            && (forall i, j, a :: 0 <= i < j < |subnets| && Holds(subnets[i].network, a) && Holds(subnets[j].network, a) ==>
                  var x, y := subnets[i], subnets[j];
                  || (x.vrf.Some? && y.vrf.Some? && x.vrf.value != y.vrf.value)
                  || (x.vrf.None? && y.vrf.None? && x.segments == [] && y.segments == []))
  {
    forall i, j | 0 <= i < j < |subnets|
      ensures Overlaps(subnets[i].network, subnets[j].network)
              <==> exists a :: Holds(subnets[i].network, a) && Holds(subnets[j].network, a)
    {
      OverlapsIffShare(subnets[i].network, subnets[j].network);
    }
    CleanSubnetsPairwise(subnets);
  }

  lemma CleanSubnetsPairwise(subnets: seq<TenantSubnet>)
    ensures CleanSubnets(subnets) <==>
            && (forall i :: 0 <= i < |subnets| ==> |subnets[i].segments| <= 1)
            && (forall i, j :: 0 <= i < j < |subnets| && Overlaps(subnets[i].network, subnets[j].network) ==> MayShare(subnets[i], subnets[j]))
  {
    assert forall i :: 0 <= i < |subnets| ==> (Crowded(subnets, i) <==> |subnets[i].segments| > 1);
    forall i, j | 0 <= i < j < |subnets|
      ensures Collides(subnets, i, j) <==> Overlaps(subnets[i].network, subnets[j].network) && !MayShare(subnets[i], subnets[j])
    {
    }
  }

  /** In particular: inside one VRF an address lies in at most one subnet, and a segment's
      subnet whose VRF is unknown shares no address with any other tenant subnet. */
  lemma CleanSubnetsSeparate(subnets: seq<TenantSubnet>, i: nat, j: nat, a: Address)
    requires CleanSubnets(subnets) && i < |subnets| && j < |subnets|
    requires Holds(subnets[i].network, a) && Holds(subnets[j].network, a)
    ensures subnets[i].vrf.Some? && subnets[i].vrf == subnets[j].vrf ==> i == j
    ensures subnets[i].vrf.None? && subnets[i].segments != [] ==> i == j
  {
    forall k | 0 <= k < |subnets| ensures |subnets[k].segments| <= 1 {
      assert !Crowded(subnets, k);
    }
    CleanSubnetsByAddress(subnets);
    if i < j { assert MayShare(subnets[i], subnets[j]); }
    if j < i { assert MayShare(subnets[j], subnets[i]); }
  }

  // --- VIP blocks --------------------------------------------------------------------------------

  datatype VipBlock = VipBlock(appId: string, appName: string, network: Prefix, pools: seq<Prefix>)

  ghost predicate InAPool(b: VipBlock) {
    exists pool :: pool in b.pools && SubnetOf(b.network, pool)
  }

  ghost predicate Misplaced(blocks: seq<VipBlock>, i: int) {
    0 <= i < |blocks| && !InAPool(blocks[i])
  }

  ghost predicate Doubled(blocks: seq<VipBlock>, i: int, j: int) {
    0 <= i < j < |blocks| && Overlaps(blocks[i].network, blocks[j].network)
  }

  ghost predicate CleanVips(blocks: seq<VipBlock>) {
    && (forall i :: 0 <= i < |blocks| ==> InAPool(blocks[i]))
    && (forall i, j :: 0 <= i < j < |blocks| ==> !Overlaps(blocks[i].network, blocks[j].network))
  }

  ghost predicate AppMisplaced(blocks: seq<VipBlock>, i: int, f: Finding) {
    Misplaced(blocks, i) && f == Finding(blocks[i].appId, "ServiceFabricApp")
  }

  ghost predicate AppDoubled(blocks: seq<VipBlock>, i: int, j: int, f: Finding) {
    Doubled(blocks, i, j) && f == Finding(blocks[j].appId, "ServiceFabricApp")
  }

  method InsidePools(b: VipBlock) returns (inside: bool)
    ensures inside <==> InAPool(b)
  {
    for i := 0 to |b.pools|
      invariant forall k :: 0 <= k < i ==> !SubnetOf(b.network, b.pools[k])
    {
      if b.network.version == b.pools[i].version && SubnetOf(b.network, b.pools[i]) {
        return true;
      }
    }
    return false;
  }

  function VipKey(b: VipBlock): Key {
    [Text(b.appName), Text(b.appId)]
  }

  predicate VipBefore(x: VipBlock, y: VipBlock) {
    KeyBefore(VipKey(x), VipKey(y))
  }

  /** `vip_blocks`: by application name and id. */
  function VipBlocks(given: seq<VipBlock>): seq<VipBlock> {
    Sorting.Sort(given, VipBefore)
  }

  /** Of two overlapping blocks the one blamed never comes first by name and id, and the
      rule judges every block there is. */
  lemma LaterVipIsBlamed(given: seq<VipBlock>, i: nat, j: nat)
    requires Doubled(VipBlocks(given), i, j)
    ensures !VipBefore(VipBlocks(given)[j], VipBlocks(given)[i])
    ensures multiset(VipBlocks(given)) == multiset(given)
  {
    KeysOrder(VipBefore, VipKey);
    Sorting.SortSorted(given, VipBefore);
    Sorting.SortPermutes(given, VipBefore);
  }

  /** The order of the blocks: by application name, then id. */
  lemma VipOrder(x: VipBlock, y: VipBlock)
    ensures VipBefore(x, y) <==>
            || Before(Text(x.appName), Text(y.appName))
            || (x.appName == y.appName && Before(Text(x.appId), Text(y.appId)))
  {
    var id, id' := [Text(x.appId)], [Text(y.appId)];
    TextBefore(x.appName, y.appName);
    KeyBeforeMeans(Text(x.appId), Text(y.appId), [], []);
    KeyBeforeMeans(Text(x.appName), Text(y.appName), id, id');
    assert id + [] == id && id' + [] == id';
    assert VipKey(x) == [Text(x.appName)] + id && VipKey(y) == [Text(y.appName)] + id';
  }

  method CheckApplications(given: seq<VipBlock>) returns (findings: seq<Finding>)
    ensures var blocks := VipBlocks(given);
            && (forall f :: f in findings <==>
                  (exists i :: AppMisplaced(blocks, i, f)) || (exists i, j :: AppDoubled(blocks, i, j, f)))
            && (findings == [] <==> CleanVips(blocks))
  {
    var blocks := VipBlocks(given);
    findings := CheckVipBlocks(blocks);
  }

  method CheckVipBlocks(blocks: seq<VipBlock>) returns (findings: seq<Finding>)
    ensures forall f :: f in findings <==>
              (exists i :: AppMisplaced(blocks, i, f)) || (exists i, j :: AppDoubled(blocks, i, j, f))
    ensures findings == [] <==> CleanVips(blocks)
  {
    var outside := [];
    for i := 0 to |blocks|
      invariant forall f :: f in outside <==> exists k :: AppMisplaced(blocks, k, f) && k < i
    {
      var inside := InsidePools(blocks[i]);
      if !inside {
        assert AppMisplaced(blocks, i, Finding(blocks[i].appId, "ServiceFabricApp"));
        outside := outside + [Finding(blocks[i].appId, "ServiceFabricApp")];
      }
    }
    var pairs := CheckVipPairs(blocks);
    findings := outside + pairs;
    NoAppBlamed(blocks, findings);
  }

  ghost function DoubledAt(blocks: seq<VipBlock>): (int, int) -> bool {
    (k, l) => Doubled(blocks, k, l)
  }

  lemma LaterBlockBlamed(blocks: seq<VipBlock>, f: Finding)
    ensures (exists k, l :: 0 <= k < l < |blocks| && DoubledAt(blocks)(k, l) && f == LaterBlock(blocks)(l)) <==> exists k, l :: AppDoubled(blocks, k, l, f)
  {
    if k, l :| 0 <= k < l < |blocks| && DoubledAt(blocks)(k, l) && f == LaterBlock(blocks)(l) {
      assert AppDoubled(blocks, k, l, f);
    }
    if k, l :| AppDoubled(blocks, k, l, f) {
      assert DoubledAt(blocks)(k, l) && f == LaterBlock(blocks)(l);
    }
  }

  ghost function LaterBlock(blocks: seq<VipBlock>): int -> Finding {
    l => if 0 <= l < |blocks| then Finding(blocks[l].appId, "ServiceFabricApp") else Finding("", "")
  }

  /** One finding for each pair that overlaps. */
  method CheckVipPairs(blocks: seq<VipBlock>) returns (findings: seq<Finding>)
    ensures forall f :: f in findings <==> exists i, j :: AppDoubled(blocks, i, j, f)
    ensures findings == PairFindings(|blocks|, DoubledAt(blocks), LaterBlock(blocks), |blocks|, 0)
  {
    findings := [];
    for i := 0 to |blocks|
      invariant findings == PairFindings(|blocks|, DoubledAt(blocks), LaterBlock(blocks), i, 0)
    {
      for j := i + 1 to |blocks|
        invariant findings == PairFindings(|blocks|, DoubledAt(blocks), LaterBlock(blocks), i, j)
      {
        if Overlaps(blocks[i].network, blocks[j].network) {
          findings := findings + [Finding(blocks[j].appId, "ServiceFabricApp")];
        }
      }
    }
    forall f ensures f in findings <==> exists k, l :: AppDoubled(blocks, k, l, f) {
      PairFindingsAre(|blocks|, DoubledAt(blocks), LaterBlock(blocks), f);
      LaterBlockBlamed(blocks, f);
    }
  }

  lemma NoAppBlamed(blocks: seq<VipBlock>, findings: seq<Finding>)
    requires forall f :: f in findings <==>
               (exists i :: AppMisplaced(blocks, i, f)) || (exists i, j :: AppDoubled(blocks, i, j, f))
    ensures findings == [] <==> CleanVips(blocks)
  {
    if findings != [] {
      assert findings[0] in findings;
    }
    forall i | Misplaced(blocks, i) ensures findings != [] {
      var f := Finding(blocks[i].appId, "ServiceFabricApp");
      assert AppMisplaced(blocks, i, f);
      assert f in findings;
    }
    forall i, j | Doubled(blocks, i, j) ensures findings != [] {
      var f := Finding(blocks[j].appId, "ServiceFabricApp");
      assert AppDoubled(blocks, i, j, f);
      assert f in findings;
    }
    if findings == [] {
      forall i | 0 <= i < |blocks| ensures InAPool(blocks[i]) {
        assert !Misplaced(blocks, i);
      }
      forall i, j | 0 <= i < j < |blocks| ensures !Overlaps(blocks[i].network, blocks[j].network) {
        assert !Doubled(blocks, i, j);
      }
    }
  }

  /** No two blocks overlap exactly when no address lies in two of them. */
  lemma DisjointByAddress(blocks: seq<VipBlock>)
    ensures (forall i, j :: 0 <= i < j < |blocks| ==> !Overlaps(blocks[i].network, blocks[j].network))
            <==> forall i, j, a :: 0 <= i < j < |blocks| && Holds(blocks[i].network, a) ==> !Holds(blocks[j].network, a)
  {
    forall i, j | 0 <= i < j < |blocks|
      ensures Overlaps(blocks[i].network, blocks[j].network)
              <==> exists a :: Holds(blocks[i].network, a) && Holds(blocks[j].network, a)
    {
      OverlapsIffShare(blocks[i].network, blocks[j].network);
    }
  }

  /** A block in a pool exactly when every one of its addresses is in that pool. */
  lemma PoolByAddress(b: VipBlock)
    ensures InAPool(b) <==> exists pool :: pool in b.pools && forall a :: Holds(b.network, a) ==> Holds(pool, a)
  {
    forall pool | pool in b.pools ensures SubnetOf(b.network, pool) <==> forall a :: Holds(b.network, a) ==> Holds(pool, a) {
      SubnetIffSubset(b.network, pool);
    }
  }

  ghost predicate InAPoolByAddress(b: VipBlock) {
    exists pool :: pool in b.pools && forall a :: Holds(b.network, a) ==> Holds(pool, a)
  }

  /** A clean VIP rule means exactly this: the fabric accepts every address of every block,
      because the block lies in a pool of its cluster, and no address belongs to two. */
  lemma CleanVipsByAddress(blocks: seq<VipBlock>)
    ensures CleanVips(blocks) <==>
            && (forall i :: 0 <= i < |blocks| ==> InAPoolByAddress(blocks[i]))
            && (forall i, j, a :: 0 <= i < j < |blocks| && Holds(blocks[i].network, a) ==> !Holds(blocks[j].network, a))
  {
    forall i | 0 <= i < |blocks| ensures InAPool(blocks[i]) <==> InAPoolByAddress(blocks[i]) {
      PoolByAddress(blocks[i]);
    }
    DisjointByAddress(blocks);
  }
}
