/** The rules that keep tenants of the wide-area network apart: who may be on an L3VPN, and
    who may hold a VRF or a firewall zone. */
module WanIsolation {
  import opened Options

  type Id = string

  /** `circuits` is the member list; a circuit's own tenant is kept in the `owners` of the model. */
  datatype Vpn = Vpn(id: Id, tenant: Option<Id>, circuits: seq<Id>, vrf: Option<Id>)
  datatype Zone = Zone(id: Id, vrf: Option<Id>)
  datatype Cloud = Cloud(id: Id, vrf: Option<Id>, zone: Option<Zone>)

  /** `service` is wrong about `subject`: a circuit, a VRF or a zone. */
  datatype Finding = Finding(service: Id, subject: Id)

  // --- Rule 1: circuits belong to the tenant of their L3VPN -------------------------------

  predicate Misplaced(vpns: seq<Vpn>, owners: map<Id, Id>, i: int, k: int) {
    && 0 <= i < |vpns| && 0 <= k < |vpns[i].circuits| && vpns[i].tenant.Some?
    && vpns[i].circuits[k] in owners && owners[vpns[i].circuits[k]] != vpns[i].tenant.value
  }

  method CheckCircuitMembership(vpns: seq<Vpn>, owners: map<Id, Id>) returns (findings: seq<Finding>)
    ensures forall f :: f in findings <==>
              exists i, k :: Misplaced(vpns, owners, i, k) && f == Finding(vpns[i].id, vpns[i].circuits[k])
    ensures forall i, k :: Misplaced(vpns, owners, i, k) <==>
              && 0 <= i < |vpns| && 0 <= k < |vpns[i].circuits| && vpns[i].tenant.Some?
              && vpns[i].circuits[k] in owners && vpns[i].tenant != Some(owners[vpns[i].circuits[k]])
  {
    findings := [];
    for n := 0 to |vpns|
      invariant forall f :: f in findings <==>
                  exists i, k :: i < n && Misplaced(vpns, owners, i, k) && f == Finding(vpns[i].id, vpns[i].circuits[k])
    {
      var vpn := vpns[n];
      if vpn.tenant.Some? {
        for m := 0 to |vpn.circuits|
          invariant forall f :: f in findings <==>
                      || (exists i, k :: i < n && Misplaced(vpns, owners, i, k) && f == Finding(vpns[i].id, vpns[i].circuits[k]))
                      || (exists k :: k < m && Misplaced(vpns, owners, n, k) && f == Finding(vpn.id, vpn.circuits[k]))
        {
          var circuit := vpn.circuits[m];
          if circuit in owners && owners[circuit] != vpn.tenant.value {
            assert Misplaced(vpns, owners, n, m);
            findings := findings + [Finding(vpn.id, circuit)];
          }
        }
      }
    }
  }

  // --- Who shares a peer --------------------------------------------------------------------

  /** A service and the VRF or zone it names, if any. */
  datatype Claim = Claim(peer: Option<Id>, service: Id)

  /** The services that name `peer`, in order. */
  function Holders(claims: seq<Claim>, peer: Id): (r: seq<Id>) {
    if claims == [] then []
    else
      var n := |claims| - 1;
      Holders(claims[..n], peer) + if claims[n].peer == Some(peer) then [claims[n].service] else []
  }

  lemma {:induction false} HoldersAre(claims: seq<Claim>, peer: Id)
    ensures forall s :: s in Holders(claims, peer) <==>
              exists i :: 0 <= i < |claims| && claims[i].peer == Some(peer) && claims[i].service == s
    ensures |Holders(claims, peer)| > 0 <==> exists i :: 0 <= i < |claims| && claims[i].peer == Some(peer)
    ensures |Holders(claims, peer)| > 1 <==> Contested(claims, peer)
  {
    if claims != [] {
      var n := |claims| - 1;
      HoldersAre(claims[..n], peer);
      if i, j :| Both(claims[..n], peer, i, j) {
        assert Both(claims, peer, i, j);
      }
      if claims[n].peer == Some(peer) && |Holders(claims[..n], peer)| > 0 {
        var i :| 0 <= i < n && claims[i].peer == Some(peer);
        assert Both(claims, peer, i, n);
      }
      if Contested(claims, peer) {
        var i, j :| Both(claims, peer, i, j);
        assert j < n ==> Both(claims[..n], peer, i, j);
        assert i < n && claims[..n][i].peer == Some(peer);
      }
    }
  }

  predicate Both(claims: seq<Claim>, peer: Id, i: int, j: int) {
    0 <= i < j < |claims| && claims[i].peer == Some(peer) && claims[j].peer == Some(peer)
  }

  ghost predicate Contested(claims: seq<Claim>, peer: Id) {
    exists i, j :: Both(claims, peer, i, j)
  }

  /** `_shared`: group by peer, and keep the groups of two or more. */
  method Shared(claims: seq<Claim>) returns (groups: map<Id, seq<Id>>)
    ensures forall p :: p in groups <==> Contested(claims, p)
    ensures forall p :: p in groups ==> groups[p] == Holders(claims, p)
  {
    var grouped: map<Id, seq<Id>> := map[];
    for n := 0 to |claims|
      invariant forall p :: p in grouped <==> Holders(claims[..n], p) != []
      invariant forall p :: p in grouped ==> grouped[p] == Holders(claims[..n], p)
    {
      assert claims[..n + 1][..n] == claims[..n];
      var claim := claims[n];
      if claim.peer.Some? {
        var peer := claim.peer.value;
        grouped := grouped[peer := (if peer in grouped then grouped[peer] else []) + [claim.service]];
      }
    }
    assert claims[..|claims|] == claims;
    groups := map p | p in grouped && |grouped[p]| > 1 :: grouped[p];
    forall p ensures p in groups <==> Contested(claims, p) {
      HoldersAre(claims, p);
    }
  }

  /** The finding blames the service at `i` for a peer that the one at `j` names too. */
  predicate Rivals(claims: seq<Claim>, f: Finding, i: int, j: int) {
    && 0 <= i < |claims| && 0 <= j < |claims| && i != j
    && claims[i] == Claim(Some(f.subject), f.service) && claims[j].peer == Some(f.subject)
  }

  lemma RivalsContest(claims: seq<Claim>, f: Finding)
    ensures (exists i, j :: Rivals(claims, f, i, j))
            <==> Contested(claims, f.subject) && f.service in Holders(claims, f.subject)
  {
    HoldersAre(claims, f.subject);
    if i, j :| Rivals(claims, f, i, j) {
      assert Both(claims, f.subject, if i < j then i else j, if i < j then j else i);
    }
    if Contested(claims, f.subject) && f.service in Holders(claims, f.subject) {
      var i, j :| Both(claims, f.subject, i, j);
      var k :| 0 <= k < |claims| && claims[k].peer == Some(f.subject) && claims[k].service == f.service;
      assert Rivals(claims, f, k, if k == i then j else i);
    }
  }

  /** One finding for each service of each contested peer. */
  method CheckExclusive(claims: seq<Claim>) returns (findings: seq<Finding>)
    ensures forall f :: f in findings <==> exists i, j :: Rivals(claims, f, i, j)
    ensures findings == [] <==> forall p :: !Contested(claims, p)
  {
    findings := [];
    var shared := Shared(claims);
    var todo := shared.Keys;
    while todo != {}
      invariant todo <= shared.Keys
      invariant forall f :: f in findings <==>
                  f.subject in shared && f.subject !in todo && f.service in shared[f.subject]
    {
      var peer :| peer in todo;
      var entries := shared[peer];
      var added := seq(|entries|, k requires 0 <= k < |entries| => Finding(entries[k], peer));
      forall f ensures f in added <==> f.subject == peer && f.service in entries {
        if f.subject == peer && f.service in entries {
          var k :| 0 <= k < |entries| && entries[k] == f.service;
          assert added[k] == f;
        }
      }
      findings := findings + added;
      todo := todo - {peer};
    }
    forall f ensures f in findings <==> exists i, j :: Rivals(claims, f, i, j) {
      RivalsContest(claims, f);
    }
    if p :| Contested(claims, p) {
      HoldersAre(claims, p);
      RivalsContest(claims, Finding(Holders(claims, p)[0], p));
      assert Finding(Holders(claims, p)[0], p) in findings;
    }
    if findings != [] {
      assert findings[0] in findings;
    }
  }

  // --- Rules 2 and 4: one holder each ---------------------------------------------------------

  function VrfClaims(vpns: seq<Vpn>): (r: seq<Claim>)
    ensures |r| == |vpns|
    ensures forall i :: 0 <= i < |r| ==> r[i] == Claim(vpns[i].vrf, vpns[i].id)
  {
    seq(|vpns|, i requires 0 <= i < |vpns| => Claim(vpns[i].vrf, vpns[i].id))
  }

  function CloudVrfClaims(clouds: seq<Cloud>): (r: seq<Claim>)
    ensures |r| == |clouds|
    ensures forall i :: 0 <= i < |r| ==> r[i] == Claim(clouds[i].vrf, clouds[i].id)
  {
    seq(|clouds|, i requires 0 <= i < |clouds| => Claim(clouds[i].vrf, clouds[i].id))
  }

  function ZoneIdOf(cloud: Cloud): Option<Id> {
    match cloud.zone
    case None => None
    case Some(zone) => Some(zone.id)
  }

  function CloudZoneClaims(clouds: seq<Cloud>): (r: seq<Claim>)
    ensures |r| == |clouds|
    ensures forall i :: 0 <= i < |r| ==> r[i] == Claim(ZoneIdOf(clouds[i]), clouds[i].id)
  {
    seq(|clouds|, i requires 0 <= i < |clouds| => Claim(ZoneIdOf(clouds[i]), clouds[i].id))
  }

  method CheckExclusiveVrfs(vpns: seq<Vpn>) returns (findings: seq<Finding>)
    ensures forall f :: f in findings <==> exists i, j :: Rivals(VrfClaims(vpns), f, i, j)
    ensures forall f, i, j :: Rivals(VrfClaims(vpns), f, i, j) <==>
              && 0 <= i < |vpns| && 0 <= j < |vpns| && i != j
              && vpns[i].id == f.service && vpns[i].vrf == Some(f.subject) && vpns[j].vrf == Some(f.subject)
    ensures findings == [] <==>
            forall i, j :: 0 <= i < j < |vpns| && vpns[i].vrf.Some? ==> vpns[i].vrf != vpns[j].vrf
  {
    var claims := VrfClaims(vpns);
    findings := CheckExclusive(claims);
    UncontestedIsDistinct(claims);
  }

  method CheckExclusiveClouds(clouds: seq<Cloud>) returns (findings: seq<Finding>)
    ensures forall f :: f in findings <==>
              || (exists i, j :: Rivals(CloudVrfClaims(clouds), f, i, j))
              || (exists i, j :: Rivals(CloudZoneClaims(clouds), f, i, j))
    ensures forall f, i, j :: Rivals(CloudVrfClaims(clouds), f, i, j) <==>
              && 0 <= i < |clouds| && 0 <= j < |clouds| && i != j
              && clouds[i].id == f.service && clouds[i].vrf == Some(f.subject) && clouds[j].vrf == Some(f.subject)
    ensures forall f, i, j :: Rivals(CloudZoneClaims(clouds), f, i, j) <==>
              && 0 <= i < |clouds| && 0 <= j < |clouds| && i != j && clouds[i].id == f.service
              && clouds[i].zone.Some? && clouds[i].zone.value.id == f.subject
              && clouds[j].zone.Some? && clouds[j].zone.value.id == f.subject
    ensures findings == [] <==>
            && (forall i, j :: 0 <= i < j < |clouds| && clouds[i].vrf.Some? ==> clouds[i].vrf != clouds[j].vrf)
            && (forall i, j :: 0 <= i < j < |clouds| && ZoneIdOf(clouds[i]).Some? ==> ZoneIdOf(clouds[i]) != ZoneIdOf(clouds[j]))
  {
    var vrfs, zones := CloudVrfClaims(clouds), CloudZoneClaims(clouds);
    findings := CheckExclusive(vrfs);
    var more := CheckExclusive(zones);
    findings := findings + more;
    UncontestedIsDistinct(vrfs);
    UncontestedIsDistinct(zones);
  }

  lemma UncontestedIsDistinct(claims: seq<Claim>)
    ensures (forall p :: !Contested(claims, p)) <==>
            forall i, j :: 0 <= i < j < |claims| && claims[i].peer.Some? ==> claims[i].peer != claims[j].peer
  {
    if i, j :| 0 <= i < j < |claims| && claims[i].peer.Some? && claims[i].peer == claims[j].peer {
      assert Both(claims, claims[i].peer.value, i, j);
      assert Contested(claims, claims[i].peer.value);
    }
    forall p | Contested(claims, p)
      ensures exists i, j :: 0 <= i < j < |claims| && claims[i].peer.Some? && claims[i].peer == claims[j].peer
    {
      var i, j :| Both(claims, p, i, j);
    }
  }

  // --- Rule 3: a zone governs the VRF its cloud lives in ---------------------------------------

  predicate ZoneAstray(cloud: Cloud) {
    cloud.vrf.Some? && cloud.zone.Some? && cloud.zone.value.vrf.Some? && cloud.zone.value.vrf != cloud.vrf
  }

  method CheckCloudZoneMatchesVrf(clouds: seq<Cloud>) returns (findings: seq<Finding>)
    ensures forall f :: f in findings <==>
              exists i :: 0 <= i < |clouds| && ZoneAstray(clouds[i]) && f == Finding(clouds[i].id, clouds[i].zone.value.id)
    ensures forall i :: 0 <= i < |clouds| ==>
              var vrf, zone := clouds[i].vrf, clouds[i].zone;
              ZoneAstray(clouds[i]) <==> vrf.Some? && zone.Some? && zone.value.vrf.Some? && zone.value.vrf.value != vrf.value
  {
    findings := [];
    for n := 0 to |clouds|
      invariant forall f :: f in findings <==>
                  exists i :: 0 <= i < n && ZoneAstray(clouds[i]) && f == Finding(clouds[i].id, clouds[i].zone.value.id)
    {
      if ZoneAstray(clouds[n]) {
        findings := findings + [Finding(clouds[n].id, clouds[n].zone.value.id)];
      }
    }
  }

  // --- What no findings mean --------------------------------------------------------------------

  /** No findings from rules 1 and 2. */
  ghost predicate VpnsClean(vpns: seq<Vpn>, owners: map<Id, Id>) {
    && (forall i, k :: !Misplaced(vpns, owners, i, k))
    && (forall i, j :: 0 <= i < j < |vpns| && vpns[i].vrf.Some? ==> vpns[i].vrf != vpns[j].vrf)
  }

  method CheckVpns(vpns: seq<Vpn>, owners: map<Id, Id>) returns (findings: seq<Finding>)
    ensures forall f :: f in findings <==>
              || (exists i, k :: Misplaced(vpns, owners, i, k) && f == Finding(vpns[i].id, vpns[i].circuits[k]))
              || (exists i, j :: Rivals(VrfClaims(vpns), f, i, j))
    ensures findings == [] <==> VpnsClean(vpns, owners)
  {
    var members := CheckCircuitMembership(vpns, owners);
    var vrfs := CheckExclusiveVrfs(vpns);
    if i, k :| Misplaced(vpns, owners, i, k) {
      assert Finding(vpns[i].id, vpns[i].circuits[k]) in members;
    }
    if members != [] {
      assert members[0] in members;
    }
    findings := members + vrfs;
  }

  /** Traffic passes between two L3VPNs when they are one, or share a VRF. */
  predicate OneTable(vpns: seq<Vpn>, i: nat, j: nat)
    requires i < |vpns| && j < |vpns|
  {
    i == j || (vpns[i].vrf.Some? && vpns[i].vrf == vpns[j].vrf)
  }

  ghost predicate Adjacent(vpns: seq<Vpn>, c: Id, d: Id) {
    exists i: nat, j: nat :: i < |vpns| && j < |vpns|
      && c in vpns[i].circuits && d in vpns[j].circuits && OneTable(vpns, i, j)
  }

  /** A chain of circuits, each reaching the next over a shared L3VPN or a shared VRF. */
  ghost predicate Chain(vpns: seq<Vpn>, chain: seq<Id>) {
    forall k :: 0 <= k < |chain| - 1 ==> Adjacent(vpns, chain[k], chain[k + 1])
  }

  predicate AllHaveTenants(vpns: seq<Vpn>, owners: map<Id, Id>) {
    forall i :: 0 <= i < |vpns| ==> vpns[i].tenant.Some? && forall c :: c in vpns[i].circuits ==> c in owners
  }

  lemma CleanNeighboursShareATenant(vpns: seq<Vpn>, owners: map<Id, Id>, c: Id, d: Id)
    requires VpnsClean(vpns, owners) && AllHaveTenants(vpns, owners) && Adjacent(vpns, c, d)
    ensures c in owners && d in owners && owners[c] == owners[d]
  {
    var i: nat, j: nat :| i < |vpns| && j < |vpns|
      && c in vpns[i].circuits && d in vpns[j].circuits && OneTable(vpns, i, j);
    var k :| 0 <= k < |vpns[i].circuits| && vpns[i].circuits[k] == c;
    var l :| 0 <= l < |vpns[j].circuits| && vpns[j].circuits[l] == d;
    assert !Misplaced(vpns, owners, i, k) && !Misplaced(vpns, owners, j, l);
    assert i == j;
  }

  /** With no findings, and a tenant on every L3VPN and member circuit, whatever a circuit
      reaches over a chain of any length is its own tenant's. */
  lemma {:induction false} CleanChainsStayInOneTenant(vpns: seq<Vpn>, owners: map<Id, Id>, chain: seq<Id>)
    requires VpnsClean(vpns, owners) && AllHaveTenants(vpns, owners) && Chain(vpns, chain) && |chain| >= 2
    ensures forall c, d :: c in chain && d in chain ==> c in owners && d in owners && owners[c] == owners[d]
  {
    CleanNeighboursShareATenant(vpns, owners, chain[0], chain[1]);
    if |chain| > 2 {
      ChainTail(vpns, chain, chain[1..]);
      CleanChainsStayInOneTenant(vpns, owners, chain[1..]);
    }
  }

  lemma ChainTail(vpns: seq<Vpn>, chain: seq<Id>, rest: seq<Id>)
    requires Chain(vpns, chain) && |chain| >= 2 && rest == chain[1..]
    ensures Chain(vpns, rest) && rest[0] == chain[1] && forall c :: c in chain <==> c == chain[0] || c in rest
  {
    assert chain == [chain[0]] + rest;
    forall k | 0 <= k < |rest| - 1 ensures Adjacent(vpns, rest[k], rest[k + 1]) {
      assert Adjacent(vpns, chain[k + 1], chain[k + 2]);
    }
  }

  /** The hypothesis on tenants is needed: rule 1 passes over an L3VPN that names none. */
  lemma TenantlessVpnJoinsTenants()
    ensures exists vpns, owners :: exists c, d ::
              VpnsClean(vpns, owners) && Adjacent(vpns, c, d) && c in owners && d in owners && owners[c] != owners[d]
  {
    var vpns := [Vpn("v", None, ["c", "d"], None)];
    var owners := map["c" := "red", "d" := "blue"];
    assert "c" in vpns[0].circuits && "d" in vpns[0].circuits && OneTable(vpns, 0, 0);
    assert VpnsClean(vpns, owners) && Adjacent(vpns, "c", "d") && owners["c"] != owners["d"];
  }

  /** No findings from rules 3 and 4: the zone of one cloud governs no other cloud's VRF. */
  lemma CleanZonesGovernOneCloud(clouds: seq<Cloud>, i: nat, j: nat)
    requires forall k :: 0 <= k < |clouds| ==> !ZoneAstray(clouds[k])
    requires forall k, l :: 0 <= k < l < |clouds| && clouds[k].vrf.Some? ==> clouds[k].vrf != clouds[l].vrf
    requires i < |clouds| && j < |clouds|
    requires clouds[i].vrf.Some? && clouds[i].zone.Some? && clouds[i].zone.value.vrf.Some?
    ensures clouds[i].zone.value.vrf == clouds[j].vrf <==> i == j
  {
    assert !ZoneAstray(clouds[i]);
  }
}
