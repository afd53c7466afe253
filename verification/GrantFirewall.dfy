/** The firewall objects of one access grant, among objects it did not write. A build run
    may be cut off between any two writes; only a run that finishes prunes what an earlier
    finished run wrote and this one did not. */
module GrantFirewall {
  import opened Options
  import opened GrantNames

  /** A declared object, known by its kind and name: an address-book entry wrapping a
      host or a block, or a TCP service. */
  datatype Object = HostEntry(name: string) | BlockEntry(name: string) | Service(name: string)

  /** What it declares. */
  datatype Content = Wraps(address: string) | Port(port: nat)

  /** What the grant's permit rule points at. */
  datatype Rule = Rule(destination: Object, services: seq<Object>)

  /** `group` is the tracking group: the grant's objects as its last finished run left
      them. `linked` is whether the grant lists its rule. */
  datatype Firewall = Firewall(declared: map<Object, Content>, rule: Option<Rule>, linked: bool, group: set<Object>)

  predicate Mine(grant: string, o: Object) {
    match o
    case HostEntry(name) => name == VipEntryName(grant)
    case BlockEntry(name) => name == VipEntryName(grant)
    case Service(name) => ServicePrefix(grant) <= name && IsDecimal(name[|ServicePrefix(grant)|..])
  }

  predicate IsDecimal(s: string) {
    Parsed(s) >= 0 && s == Decimal(Parsed(s))
  }

  lemma ServiceIsMine(grant: string, port: nat)
    ensures Mine(grant, Service(ServiceName(grant, port)))
  {
    DecimalParses(port);
    assert ServiceName(grant, port)[|ServicePrefix(grant)|..] == Decimal(port);
  }

  predicate Refers(rule: Rule, o: Object) {
    o == rule.destination || o in rule.services
  }

  /** The configuration loads: the rule points at nothing undeclared. */
  predicate Closed(fw: Firewall) {
    fw.rule.Some? ==> fw.rule.value.destination in fw.declared
                      && forall o :: o in fw.rule.value.services ==> o in fw.declared
  }

  // --- A build run -----------------------------------------------------------------------

  /** A validated request and what the query found beside it: an entry that already wraps
      the address, and a service for each port that has one. */
  datatype Request = Request(
    grant: string, ports: seq<nat>, address: string, isBlock: bool,
    entry: Option<Object>, serviceOf: map<nat, Object>)

  /** What `index_address_book` and `index_tcp_services` guarantee. */
  ghost predicate Indexed(fw: Firewall, r: Request) {
    && (r.entry.Some? ==> r.entry.value in fw.declared && fw.declared[r.entry.value] == Wraps(r.address))
    && (forall p :: p in r.serviceOf ==> r.serviceOf[p] in fw.declared && fw.declared[r.serviceOf[p]] == Port(p))
    && (forall o :: o in fw.declared && fw.declared[o].Port? ==> fw.declared[o].port in r.serviceOf)
  }

  /** The service index in query order: the last service of a port wins. */
  method IndexTcpServices(nodes: seq<(Object, Content)>) returns (byPort: map<nat, Object>)
    ensures forall p :: p in byPort ==> (byPort[p], Port(p)) in nodes
    ensures forall p :: p in byPort ==> LastOfPort(nodes, p, byPort[p])
    ensures forall k :: 0 <= k < |nodes| && nodes[k].1.Port? ==> nodes[k].1.port in byPort
  {
    byPort := map[];
    for i := 0 to |nodes|
      invariant forall p :: p in byPort ==> LastOfPort(nodes[..i], p, byPort[p])
      invariant forall k :: 0 <= k < i && nodes[k].1.Port? ==> nodes[k].1.port in byPort
    {
      var (node, content) := nodes[i];
      forall p | p in byPort && content != Port(p) ensures LastOfPort(nodes[..i + 1], p, byPort[p]) {
        var k :| 0 <= k < i && LastAt(nodes[..i], p, byPort[p], k);
        assert LastAt(nodes[..i + 1], p, byPort[p], k);
      }
      if content.Port? {
        byPort := byPort[content.port := node];
        assert LastAt(nodes[..i + 1], content.port, node, i);
      }
    }
    assert nodes[..|nodes|] == nodes;
    forall p | p in byPort ensures (byPort[p], Port(p)) in nodes {
      var k :| 0 <= k < |nodes| && LastAt(nodes, p, byPort[p], k);
      assert nodes[k] in nodes;
    }
    forall o, p | (o, Port(p)) in nodes ensures p in byPort {
      var k :| 0 <= k < |nodes| && nodes[k] == (o, Port(p));
    }
  }

  ghost predicate LastOfPort(nodes: seq<(Object, Content)>, p: nat, o: Object) {
    exists k :: 0 <= k < |nodes| && LastAt(nodes, p, o, k)
  }

  ghost predicate LastAt(nodes: seq<(Object, Content)>, p: nat, o: Object, k: nat)
    requires k < |nodes|
  {
    nodes[k] == (o, Port(p)) && forall j :: k < j < |nodes| ==> nodes[j].1 != Port(p)
  }

  datatype Write = Declare(target: Object, content: Content) | WriteRule(rule: Rule) | LinkRule

  function OwnEntry(r: Request): Object {
    if r.isBlock then BlockEntry(VipEntryName(r.grant)) else HostEntry(VipEntryName(r.grant))
  }

  function OwnService(r: Request, port: nat): Object {
    Service(ServiceName(r.grant, port))
  }

  /** `Existing.is_ours`, negated: an object found under another name is only referenced. */
  predicate EntryIsForeign(r: Request) {
    r.entry.Some? && r.entry.value.name != VipEntryName(r.grant)
  }

  predicate ServiceIsForeign(r: Request, port: nat) {
    port in r.serviceOf && r.serviceOf[port].name != ServiceName(r.grant, port)
  }

  function Destination(r: Request): Object {
    if EntryIsForeign(r) then r.entry.value else OwnEntry(r)
  }

  function ServiceFor(r: Request, port: nat): Object {
    if ServiceIsForeign(r, port) then r.serviceOf[port] else OwnService(r, port)
  }

  function ServicesFor(r: Request, ports: seq<nat>): seq<Object> {
    if ports == [] then [] else ServicesFor(r, ports[..|ports| - 1]) + [ServiceFor(r, ports[|ports| - 1])]
  }

  function EntryWrites(r: Request): seq<Write> {
    if EntryIsForeign(r) then [] else [Declare(OwnEntry(r), Wraps(r.address))]
  }

  function ServiceWrites(r: Request, ports: seq<nat>): seq<Write> {
    if ports == [] then []
    else
      var port := ports[|ports| - 1];
      ServiceWrites(r, ports[..|ports| - 1])
      + (if ServiceIsForeign(r, port) then [] else [Declare(OwnService(r, port), Port(port))])
  }

  /** The writes of a build run: what the rule references comes before the rule. */
  function Plan(r: Request): seq<Write> {
    EntryWrites(r) + ServiceWrites(r, r.ports) + RuleWrites(r)
  }

  function RuleWrites(r: Request): seq<Write> {
    [WriteRule(Rule(Destination(r), ServicesFor(r, r.ports))), LinkRule]
  }

  function Apply(fw: Firewall, w: Write): Firewall {
    match w
    case Declare(o, content) => fw.(declared := fw.declared[o := content])
    case WriteRule(rule) => fw.(rule := Some(rule))
    case LinkRule => fw.(linked := true)
  }

  function ApplyAll(fw: Firewall, ws: seq<Write>): Firewall {
    if ws == [] then fw else Apply(ApplyAll(fw, ws[..|ws| - 1]), ws[|ws| - 1])
  }

  /** The objects this run saved through the tracking client. */
  function Members(ws: seq<Write>): set<Object> {
    set w | w in ws && w.Declare? :: w.target
  }

  /** The end of a run that finished: the group becomes this run's members, and what the
      group held beside them is deleted. */
  function Prune(fw: Firewall, members: set<Object>): Firewall {
    fw.(declared := fw.declared - (fw.group - members), group := members)
  }

  /** As far as these writes get when the remote accepts `budget` of them. */
  function Progress(fw: Firewall, ws: seq<Write>, budget: nat): Firewall {
    ApplyAll(fw, if budget < |ws| then ws[..budget] else ws)
  }

  /** A run whose remote accepts `budget` more writes to the firewall. `rest` is whether
      what follows them gets through: the status, the source, the advertisement and the
      request to render. Only then has the run finished, and prunes. */
  function Build(fw: Firewall, r: Request, budget: nat, rest: bool): Firewall {
    var after := Progress(fw, Plan(r), budget);
    if GetsThrough(r, budget, rest) then Prune(after, Members(Plan(r))) else after
  }

  predicate GetsThrough(r: Request, budget: nat, rest: bool) {
    budget >= |Plan(r)| && rest
  }

  lemma {:induction false} ApplyConcat(fw: Firewall, ws: seq<Write>, ws': seq<Write>)
    ensures ApplyAll(fw, ws + ws') == ApplyAll(ApplyAll(fw, ws), ws')
    decreases |ws'|
  {
    if ws' == [] {
      assert ws + ws' == ws;
    } else {
      var n := |ws'| - 1;
      ApplyConcat(fw, ws, ws'[..n]);
      assert (ws + ws')[..|ws + ws'| - 1] == ws + ws'[..n];
    }
  }

  lemma ApplySnoc(fw: Firewall, ws: seq<Write>, w: Write)
    ensures ApplyAll(fw, ws + [w]) == Apply(ApplyAll(fw, ws), w)
    ensures ApplyAll(fw, [w]) == Apply(fw, w)
  {
    assert (ws + [w])[..|ws|] == ws && [w][..0] == [];
  }

  lemma ProgressConcat(fw: Firewall, ws: seq<Write>, ws': seq<Write>, budget: nat)
    ensures Progress(fw, ws + ws', budget)
            == if budget < |ws| then Progress(fw, ws, budget) else Progress(ApplyAll(fw, ws), ws', budget - |ws|)
  {
    if budget < |ws| {
      assert (ws + ws')[..budget] == ws[..budget];
    } else if budget < |ws + ws'| {
      assert (ws + ws')[..budget] == ws + ws'[..budget - |ws|];
      ApplyConcat(fw, ws, ws'[..budget - |ws|]);
    } else {
      ApplyConcat(fw, ws, ws');
    }
  }

  class Store {
    var declared: map<Object, Content>
    var rule: Option<Rule>
    var linked: bool
    var group: set<Object>
    /** How many more writes the remote accepts before it fails. */
    var budget: nat

    function State(): Firewall
      reads this
    {
      Firewall(declared, rule, linked, group)
    }

    constructor (fw: Firewall, budget: nat)
      ensures State() == fw && this.budget == budget
    {
      declared, rule, linked, group := fw.declared, fw.rule, fw.linked, fw.group;
      this.budget := budget;
    }

    method Save(w: Write) returns (ok: bool)
      modifies this
      ensures ok <==> old(budget) > 0
      ensures State() == if ok then Apply(old(State()), w) else old(State())
      ensures budget == if ok then old(budget) - 1 else 0
    {
      if budget == 0 {
        return false;
      }
      budget := budget - 1;
      match w {
        case Declare(o, content) => declared := declared[o := content];
        case WriteRule(r) => rule := Some(r);
        case LinkRule => linked := true;
      }
      return true;
    }

    /** `_upsert_vip_entry`: a foreign entry is referenced, an own one is written again. */
    method UpsertVipEntry(r: Request) returns (ok: bool, members: set<Object>)
      modifies this
      ensures ok <==> old(budget) >= |EntryWrites(r)|
      ensures State() == Progress(old(State()), EntryWrites(r), old(budget))
      ensures ok ==> budget == old(budget) - |EntryWrites(r)| && members == Members(EntryWrites(r))
    {
      members := {};
      if EntryIsForeign(r) {
        return true, members;
      }
      var w := Declare(OwnEntry(r), Wraps(r.address));
      assert EntryWrites(r)[..0] == [];
      ApplySnoc(State(), [], w);
      ok := Save(w);
      members := {OwnEntry(r)};
    }

    /** `_upsert_services`: the same split, one port at a time. */
    method UpsertServices(r: Request) returns (ok: bool, members: set<Object>)
      modifies this
      ensures ok <==> old(budget) >= |ServiceWrites(r, r.ports)|
      ensures State() == Progress(old(State()), ServiceWrites(r, r.ports), old(budget))
      ensures ok ==> budget == old(budget) - |ServiceWrites(r, r.ports)| && members == Members(ServiceWrites(r, r.ports))
    {
      members := {};
      ghost var fw := State();
      PartwayEnds(fw, r, budget, State(), budget, members);
      for i := 0 to |r.ports|
        invariant Partway(fw, r, i, old(budget), State(), budget, members)
      {
        var port := r.ports[i];
        PartwayStep(fw, r, i, old(budget), State(), budget, members);
        if ServiceIsForeign(r, port) {
          continue;
        }
        ok := Save(Declare(OwnService(r, port), Port(port)));
        if !ok {
          return;
        }
        members := members + {OwnService(r, port)};
      }
      PartwayEnds(fw, r, old(budget), State(), budget, members);
      ok := true;
    }

    /** `_upsert_rule` and `_link_granted_rules`. */
    method UpsertRule(r: Request) returns (ok: bool)
      modifies this
      ensures ok <==> old(budget) >= 2
      ensures State() == Progress(old(State()), RuleWrites(r), old(budget))
    {
      var w := WriteRule(Rule(Destination(r), ServicesFor(r, r.ports)));
      assert RuleWrites(r)[..0] == [] && RuleWrites(r)[..1] == [w] && RuleWrites(r) == [w] + [LinkRule];
      ApplySnoc(State(), [], w);
      ApplySnoc(State(), [w], LinkRule);
      ok := Save(w);
      if ok {
        ok := Save(LinkRule);
      }
    }

    /** `_delete_if_present`: an object a concurrent run already deleted counts as done. */
    method DeleteIfPresent(o: Object) returns (removed: nat)
      modifies this
      ensures State() == ApplyDelete(old(State()), Drop(o))
      ensures removed == (if o in old(declared) then 1 else 0) && budget == old(budget)
    {
      removed := if o in declared then 1 else 0;
      declared, group := declared - {o}, group - {o};
    }

    /** `_withdraw`, its first half: the firewall objects. */
    method Withdraw(grant: string, nodes: seq<Object>) returns (removed: nat)
      modifies this
      ensures State() == ApplyDeletes(old(State()), WithdrawPlan(old(State()), grant, nodes))
      ensures removed == RuleCount(old(State())) + |DoomedThere(old(State()), grant, nodes)|
      ensures budget == old(budget)
      ensures removed == (if old(rule).Some? && old(linked) then 1 else 0) + |old(declared).Keys - declared.Keys|
    {
      removed := 0;
      ghost var fw := State();
      ghost var start: seq<Delete> := if rule.Some? && linked then [DropRule] else [];
      if rule.Some? && linked {
        rule, linked, removed := None, false, 1;
        assert [DropRule][..0] == [];
      }
      assert DoomedThere(fw, grant, nodes[..0]) == {};
      for i := 0 to |nodes|
        invariant budget == old(budget) && State() == ApplyDeletes(fw, start + DoomedOf(grant, nodes[..i]))
        invariant removed == RuleCount(fw) + |DoomedThere(fw, grant, nodes[..i])|
      {
        DeletesStep(fw, start, grant, nodes, i);
        DoomedThereStep(fw, start, grant, nodes, i);
        if Doomed(grant, nodes[i]) {
          var n := DeleteIfPresent(nodes[i]);
          removed := removed + n;
        }
      }
      assert nodes[..|nodes|] == nodes;
      DeletedAre(fw, grant, nodes);
    }

    /** Whatever raises, in the writes here or in what follows them: nothing is pruned. */
    method RunBuild(r: Request, rest: bool) returns (ok: bool)
      modifies this
      ensures ok <==> GetsThrough(r, old(budget), rest)
      ensures State() == Build(old(State()), r, old(budget), rest)
    {
      ghost var fw := State();
      ghost var entry, services := EntryWrites(r), ServiceWrites(r, r.ports);
      PlanSplits(fw, r, entry, services, budget);
      var ok1, members := UpsertVipEntry(r);
      if !ok1 {
        return false;
      }
      var ok2, more := UpsertServices(r);
      if !ok2 {
        return false;
      }
      var ok3 := UpsertRule(r);
      ok := ok3 && rest;
      if ok {
        PlanMembers(r);
        declared, group := declared - (group - (members + more)), members + more;
      }
    }
  }

  lemma Regroup(a: seq<Write>, b: seq<Write>, c: seq<Write>)
    ensures a + b + c == a + (b + c)
  {
  }

  lemma PlanSplits(fw: Firewall, r: Request, entry: seq<Write>, services: seq<Write>, budget: nat)
    requires entry == EntryWrites(r) && services == ServiceWrites(r, r.ports)
    ensures Progress(fw, Plan(r), budget)
            == if budget < |entry| then Progress(fw, entry, budget)
               else var mid, b := Progress(fw, entry, budget), budget - |entry|;
                    if b < |services| then Progress(mid, services, b)
                    else Progress(Progress(mid, services, b), RuleWrites(r), b - |services|)
  {
    Regroup(entry, services, RuleWrites(r));
    ProgressConcat(fw, entry, services + RuleWrites(r), budget);
    if budget >= |entry| {
      ProgressConcat(ApplyAll(fw, entry), services, RuleWrites(r), budget - |entry|);
    }
  }

  lemma MembersSnoc(ws: seq<Write>, w: Write)
    requires w.Declare?
    ensures Members(ws + [w]) == Members(ws) + {w.target}
  {
  }

  lemma PlanMembers(r: Request)
    ensures Members(Plan(r)) == Members(EntryWrites(r)) + Members(ServiceWrites(r, r.ports))
  {
  }

  lemma {:induction false} ServiceWritesGrow(r: Request, n: nat)
    requires n <= |r.ports|
    ensures ServiceWrites(r, r.ports[..n]) <= ServiceWrites(r, r.ports)
    decreases |r.ports| - n
  {
    if n < |r.ports| {
      ServiceWritesGrow(r, n + 1);
      assert r.ports[..n + 1][..n] == r.ports[..n];
    } else {
      assert r.ports[..n] == r.ports;
    }
  }

  /** Where the loop over the ports stands after the first `i` of them. */
  ghost predicate Partway(fw: Firewall, r: Request, i: nat, budget0: nat, st: Firewall, budget: nat, members: set<Object>) {
    && i <= |r.ports|
    && var done := ServiceWrites(r, r.ports[..i]);
    && |done| <= budget0 && budget == budget0 - |done| && st == ApplyAll(fw, done) && members == Members(done)
  }

  lemma PartwayEnds(fw: Firewall, r: Request, budget0: nat, st: Firewall, budget: nat, members: set<Object>)
    ensures st == fw && budget == budget0 && members == {} ==> Partway(fw, r, 0, budget0, st, budget, members)
    ensures Partway(fw, r, |r.ports|, budget0, st, budget, members) ==>
              && budget0 >= |ServiceWrites(r, r.ports)| && budget == budget0 - |ServiceWrites(r, r.ports)|
              && st == Progress(fw, ServiceWrites(r, r.ports), budget0)
              && members == Members(ServiceWrites(r, r.ports))
  {
    assert r.ports[..|r.ports|] == r.ports;
  }

  /** One more port: nothing when it is foreign; else one more write, which either goes
      through or leaves the run cut off there. */
  lemma PartwayStep(fw: Firewall, r: Request, i: nat, budget0: nat, st: Firewall, budget: nat, members: set<Object>)
    requires i < |r.ports| && Partway(fw, r, i, budget0, st, budget, members)
    ensures var w := Declare(OwnService(r, r.ports[i]), Port(r.ports[i]));
            if ServiceIsForeign(r, r.ports[i]) then Partway(fw, r, i + 1, budget0, st, budget, members)
            else if budget > 0 then Partway(fw, r, i + 1, budget0, Apply(st, w), budget - 1, members + {w.target})
            else budget0 < |ServiceWrites(r, r.ports)| && st == Progress(fw, ServiceWrites(r, r.ports), budget0)
  {
    var all := ServiceWrites(r, r.ports);
    var done, w := ServiceWrites(r, r.ports[..i]), Declare(OwnService(r, r.ports[i]), Port(r.ports[i]));
    OnePortMore(r, i);
    if ServiceIsForeign(r, r.ports[i]) {
    } else if budget > 0 {
      ApplySnoc(fw, done, w);
      MembersSnoc(done, w);
    } else {
      assert all[..budget0] == done;
    }
  }

  lemma OnePortMore(r: Request, i: nat)
    requires i < |r.ports|
    ensures var done, w := ServiceWrites(r, r.ports[..i]), Declare(OwnService(r, r.ports[i]), Port(r.ports[i]));
            && done <= ServiceWrites(r, r.ports)
            && ServiceWrites(r, r.ports[..i + 1]) == (if ServiceIsForeign(r, r.ports[i]) then done else done + [w])
            && |ServiceWrites(r, r.ports[..i + 1])| <= |ServiceWrites(r, r.ports)|
  {
    ServiceWritesGrow(r, i);
    ServiceWritesGrow(r, i + 1);
    assert r.ports[..i + 1][..i] == r.ports[..i];
  }

  // --- What every build keeps --------------------------------------------------------------

  ghost predicate ForeignPort(foreign: map<Object, Content>, port: nat) {
    exists o :: o in foreign && foreign[o] == Port(port)
  }

  /** What a declared object of this grant has to look like: its name says its port, and
      no foreign service answers on that port. */
  ghost predicate WellDeclared(grant: string, foreign: map<Object, Content>, o: Object, content: Content) {
    && (o.Service? <==> content.Port?)
    && (o.Service? ==> o.name == ServiceName(grant, content.port) && !ForeignPort(foreign, content.port))
  }

  /** What holds between any two writes: everything that is not this grant's is exactly as
      it was given, the tracking group holds only this grant's declared objects, and the
      rule points at nothing undeclared. */
  ghost predicate Invariant(grant: string, foreign: map<Object, Content>, fw: Firewall) {
    && (forall o :: o in foreign ==> !Mine(grant, o) && (o.Service? <==> foreign[o].Port?))
    && (forall o :: o in fw.declared && !Mine(grant, o) ==> o in foreign)
    && (forall o :: o in foreign ==> o in fw.declared && fw.declared[o] == foreign[o])
    && (forall o :: o in fw.declared && Mine(grant, o) ==> WellDeclared(grant, foreign, o, fw.declared[o]))
    && (forall o :: o in fw.group ==> o in fw.declared && Mine(grant, o))
    && Closed(fw)
  }

  lemma ForeignServiceByPort(grant: string, foreign: map<Object, Content>, fw: Firewall, r: Request, port: nat)
    requires Invariant(grant, foreign, fw) && Indexed(fw, r) && r.grant == grant
    ensures ServiceIsForeign(r, port) <==> ForeignPort(foreign, port)
    ensures ServiceIsForeign(r, port) ==> r.serviceOf[port] in foreign
  {
    if port in r.serviceOf {
      var o := r.serviceOf[port];
      if Mine(grant, o) { assert WellDeclared(grant, foreign, o, fw.declared[o]); }
      if o.name == ServiceName(grant, port) {
        ServiceIsMine(grant, port);
      }
    }
    if ForeignPort(foreign, port) {
      var o :| o in foreign && foreign[o] == Port(port);
      assert o in fw.declared && fw.declared[o] == Port(port);
    }
  }

  ghost function WantedServices(foreign: map<Object, Content>, r: Request, ports: seq<nat>): set<Object> {
    if ports == [] then {}
    else
      var port := ports[|ports| - 1];
      WantedServices(foreign, r, ports[..|ports| - 1])
      + (if ForeignPort(foreign, port) then {} else {OwnService(r, port)})
  }

  /** One own service for each port asked for that no foreign service answers on. */
  lemma {:induction false} WantedServicesAre(foreign: map<Object, Content>, r: Request, ports: seq<nat>, o: Object)
    ensures o in WantedServices(foreign, r, ports)
            <==> exists p :: p in ports && !ForeignPort(foreign, p) && o == OwnService(r, p)
  {
    if ports != [] {
      var n := |ports| - 1;
      WantedServicesAre(foreign, r, ports[..n], o);
      assert ports == ports[..n] + [ports[n]];
    }
  }

  ghost predicate GoodWrite(grant: string, foreign: map<Object, Content>, w: Write) {
    w.Declare? && Mine(grant, w.target) && WellDeclared(grant, foreign, w.target, w.content)
  }

  lemma {:induction false} ServiceWritesGood(grant: string, foreign: map<Object, Content>, fw: Firewall, r: Request, ports: seq<nat>)
    requires Invariant(grant, foreign, fw) && Indexed(fw, r) && r.grant == grant
    ensures forall w :: w in ServiceWrites(r, ports) ==> GoodWrite(grant, foreign, w)
  {
    if ports != [] {
      var n := |ports| - 1;
      ServiceWritesGood(grant, foreign, fw, r, ports[..n]);
      ForeignServiceByPort(grant, foreign, fw, r, ports[n]);
      ServiceIsMine(grant, ports[n]);
    }
  }

  lemma {:induction false} ServiceMembersWanted(grant: string, foreign: map<Object, Content>, fw: Firewall, r: Request, ports: seq<nat>)
    requires Invariant(grant, foreign, fw) && Indexed(fw, r) && r.grant == grant
    ensures Members(ServiceWrites(r, ports)) == WantedServices(foreign, r, ports)
  {
    if ports != [] {
      var n := |ports| - 1;
      ServiceMembersWanted(grant, foreign, fw, r, ports[..n]);
      ForeignServiceByPort(grant, foreign, fw, r, ports[n]);
      MembersSnoc(ServiceWrites(r, ports[..n]), Declare(OwnService(r, ports[n]), Port(ports[n])));
    }
  }

  lemma DeclareKeepsInvariant(grant: string, foreign: map<Object, Content>, fw: Firewall, w: Write)
    requires Invariant(grant, foreign, fw) && GoodWrite(grant, foreign, w)
    ensures var fw' := Apply(fw, w);
            && Invariant(grant, foreign, fw')
            && fw'.declared.Keys == fw.declared.Keys + {w.target}
            && fw'.rule == fw.rule && fw'.linked == fw.linked && fw'.group == fw.group
  {
  }

  lemma {:induction false} DeclaresKeepInvariant(grant: string, foreign: map<Object, Content>, fw: Firewall, ws: seq<Write>)
    requires Invariant(grant, foreign, fw) && forall w :: w in ws ==> GoodWrite(grant, foreign, w)
    ensures var fw' := ApplyAll(fw, ws);
            && Invariant(grant, foreign, fw')
            && fw'.declared.Keys == fw.declared.Keys + Members(ws)
            && fw'.rule == fw.rule && fw'.linked == fw.linked && fw'.group == fw.group
  {
    if ws != [] {
      var n := |ws| - 1;
      assert ws[n] in ws && GoodWrite(grant, foreign, ws[n]);
      assert ws == ws[..n] + [ws[n]];
      DeclaresKeepInvariant(grant, foreign, fw, ws[..n]);
      MembersSnoc(ws[..n], ws[n]);
      DeclareKeepsInvariant(grant, foreign, ApplyAll(fw, ws[..n]), ws[n]);
    }
  }

  lemma {:induction false} ReferencesDeclared(grant: string, foreign: map<Object, Content>, fw: Firewall, r: Request, ports: seq<nat>)
    requires Invariant(grant, foreign, fw) && Indexed(fw, r) && r.grant == grant
    ensures forall o :: o in ServicesFor(r, ports) ==> o in foreign || o in WantedServices(foreign, r, ports)
  {
    if ports != [] {
      ReferencesDeclared(grant, foreign, fw, r, ports[..|ports| - 1]);
      ForeignServiceByPort(grant, foreign, fw, r, ports[|ports| - 1]);
    }
  }

  /** The rule lists one service per port, in port order. */
  lemma {:induction false} OneServicePerPort(r: Request, ports: seq<nat>)
    ensures |ServicesFor(r, ports)| == |ports|
    ensures forall i :: 0 <= i < |ports| ==> ServicesFor(r, ports)[i] == ServiceFor(r, ports[i])
  {
    if ports != [] {
      OneServicePerPort(r, ports[..|ports| - 1]);
    }
  }

  /** The objects a request needs of its own: one entry unless a foreign one wraps the
      address, and a service for each port no foreign service answers on. */
  ghost function Wanted(foreign: map<Object, Content>, r: Request): set<Object> {
    (if EntryIsForeign(r) then {} else {OwnEntry(r)})
    + WantedServices(foreign, r, r.ports)
  }

  /** The rule points at foreign objects and at the grant's own wanted ones. */
  ghost predicate References(foreign: map<Object, Content>, r: Request) {
    && (Destination(r) in foreign || Destination(r) in Wanted(foreign, r))
    && forall o :: o in ServicesFor(r, r.ports) ==> o in foreign || o in Wanted(foreign, r)
  }

  lemma EntryWritesGood(grant: string, foreign: map<Object, Content>, fw: Firewall, r: Request)
    requires Invariant(grant, foreign, fw) && Indexed(fw, r) && r.grant == grant
    ensures forall w :: w in EntryWrites(r) ==> GoodWrite(grant, foreign, w)
    ensures Members(EntryWrites(r)) == if EntryIsForeign(r) then {} else {OwnEntry(r)}
    ensures EntryIsForeign(r) ==> Destination(r) in foreign
  {
    if EntryIsForeign(r) {
      assert fw.declared[r.entry.value].Wraps?;
    }
  }

  lemma PlanIsWanted(grant: string, foreign: map<Object, Content>, fw: Firewall, r: Request)
    requires Invariant(grant, foreign, fw) && Indexed(fw, r) && r.grant == grant
    ensures forall w :: w in EntryWrites(r) + ServiceWrites(r, r.ports) ==> GoodWrite(grant, foreign, w)
    ensures Members(EntryWrites(r) + ServiceWrites(r, r.ports)) == Wanted(foreign, r) == Members(Plan(r))
    ensures References(foreign, r)
    ensures forall o :: o in Wanted(foreign, r) ==> Mine(grant, o)
  {
    EntryWritesGood(grant, foreign, fw, r);
    ServiceWritesGood(grant, foreign, fw, r, r.ports);
    ServiceMembersWanted(grant, foreign, fw, r, r.ports);
    ReferencesDeclared(grant, foreign, fw, r, r.ports);
    PlanMembers(r);
    MembersConcat(EntryWrites(r), ServiceWrites(r, r.ports));
    forall o | o in Wanted(foreign, r) ensures Mine(grant, o) {
      var w :| w in EntryWrites(r) + ServiceWrites(r, r.ports) && w.Declare? && w.target == o;
      assert GoodWrite(grant, foreign, w);
    }
  }

  lemma MembersConcat(ws: seq<Write>, ws': seq<Write>)
    ensures Members(ws + ws') == Members(ws) + Members(ws')
  {
  }

  /** Wherever a build run fails, before the link or after it, and also when it finishes
      and prunes, the rule points only at declared objects and no foreign object was
      written or deleted. */
  lemma BuildKeepsInvariant(grant: string, foreign: map<Object, Content>, fw: Firewall, r: Request, budget: nat, rest: bool)
    requires Invariant(grant, foreign, fw) && Indexed(fw, r) && r.grant == grant
    ensures Invariant(grant, foreign, Build(fw, r, budget, rest))
  {
    var ws := EntryWrites(r) + ServiceWrites(r, r.ports);
    PlanIsWanted(grant, foreign, fw, r);
    assert Plan(r) == ws + RuleWrites(r);
    ProgressConcat(fw, ws, RuleWrites(r), budget);
    if budget < |ws| {
      DeclaresKeepInvariant(grant, foreign, fw, ws[..budget]);
    } else {
      BuildBeyondDeclares(grant, foreign, fw, r, ws, budget);
    }
  }

  lemma BuildBeyondDeclares(grant: string, foreign: map<Object, Content>, fw: Firewall, r: Request, ws: seq<Write>, budget: nat)
    requires Invariant(grant, foreign, fw) && References(foreign, r) && budget >= |ws|
    requires forall w :: w in ws ==> GoodWrite(grant, foreign, w)
    requires Members(ws) == Wanted(foreign, r) && forall o :: o in Wanted(foreign, r) ==> Mine(grant, o)
    ensures var fw' := Progress(ApplyAll(fw, ws), RuleWrites(r), budget - |ws|);
            && Invariant(grant, foreign, fw')
            && fw'.declared.Keys == fw.declared.Keys + Wanted(foreign, r) && fw'.group == fw.group
            && (budget >= |ws| + 2 ==>
                  && fw'.linked && fw'.rule == Some(Rule(Destination(r), ServicesFor(r, r.ports)))
                  && Invariant(grant, foreign, Prune(fw', Wanted(foreign, r))))
  {
    DeclaresKeepInvariant(grant, foreign, fw, ws);
    RuleKeepsInvariant(grant, foreign, ApplyAll(fw, ws), r, budget - |ws|);
    if budget >= |ws| + 2 {
      PruneKeepsInvariant(grant, foreign, Progress(ApplyAll(fw, ws), RuleWrites(r), budget - |ws|), r);
    }
  }

  lemma RuleKeepsInvariant(grant: string, foreign: map<Object, Content>, fw: Firewall, r: Request, budget: nat)
    requires Invariant(grant, foreign, fw) && Wanted(foreign, r) <= fw.declared.Keys
    requires References(foreign, r)
    ensures var fw' := Progress(fw, RuleWrites(r), budget);
            && Invariant(grant, foreign, fw') && fw'.declared == fw.declared && fw'.group == fw.group
            && (budget >= 2 ==> fw'.linked && fw'.rule == Some(Rule(Destination(r), ServicesFor(r, r.ports))))
  {
    var w := RuleWrites(r)[0];
    ApplySnoc(fw, [w], LinkRule);
    ApplySnoc(fw, [], w);
    assert RuleWrites(r) == [w] + [LinkRule];
    assert budget == 0 ==> RuleWrites(r)[..budget] == [];
    assert budget == 1 ==> RuleWrites(r)[..budget] == [w];
  }

  lemma PruneKeepsInvariant(grant: string, foreign: map<Object, Content>, fw: Firewall, r: Request)
    requires Invariant(grant, foreign, fw) && Wanted(foreign, r) <= fw.declared.Keys
    requires fw.rule == Some(Rule(Destination(r), ServicesFor(r, r.ports)))
    requires References(foreign, r)
    requires forall o :: o in Wanted(foreign, r) ==> Mine(grant, o)
    ensures Invariant(grant, foreign, Prune(fw, Wanted(foreign, r)))
  {
  }

  // --- What a finished build leaves ----------------------------------------------------------

  ghost function Owned(grant: string, fw: Firewall): set<Object> {
    set o | o in fw.declared && Mine(grant, o)
  }

  /** Own objects no finished run has claimed: what failed runs left behind. */
  ghost function Orphans(grant: string, fw: Firewall): set<Object> {
    Owned(grant, fw) - fw.group
  }

  lemma {:induction false} ServiceMembersAre(r: Request, ports: seq<nat>, o: Object)
    ensures o in Members(ServiceWrites(r, ports)) <==> exists p :: p in ports && !ServiceIsForeign(r, p) && o == OwnService(r, p)
  {
    if ports != [] {
      var front, port := ports[..|ports| - 1], ports[|ports| - 1];
      ServiceMembersAre(r, front, o);
      assert ports == front + [port];
      if !ServiceIsForeign(r, port) { MembersSnoc(ServiceWrites(r, front), Declare(OwnService(r, port), Port(port))); }
    }
  }

  /** The own services get their ports, and nothing else changes. */
  lemma {:induction false} ServicesApplied(fw: Firewall, r: Request, ports: seq<nat>, o: Object)
    ensures var fw' := ApplyAll(fw, ServiceWrites(r, ports));
            && (forall p :: p in ports && !ServiceIsForeign(r, p) && o == OwnService(r, p) ==>
                  o in fw'.declared && fw'.declared[o] == Port(p))
            && (o !in Members(ServiceWrites(r, ports)) ==>
                  (o in fw'.declared <==> o in fw.declared) && (o in fw.declared ==> fw'.declared[o] == fw.declared[o]))
            && fw'.group == fw.group
  {
    if ports != [] {
      var front, port := ports[..|ports| - 1], ports[|ports| - 1];
      ServicesApplied(fw, r, front, o);
      assert ports == front + [port];
      var ws, w := ServiceWrites(r, front), Declare(OwnService(r, port), Port(port));
      if ServiceIsForeign(r, port) {
        assert ServiceWrites(r, ports) == ws;
      } else {
        assert ServiceWrites(r, ports) == ws + [w];
        ApplySnoc(fw, ws, w);
        MembersSnoc(ws, w);
        forall p | OwnService(r, p) == OwnService(r, port) ensures p == port { ServiceNameInjective(r.grant, p, port); }
      }
    }
  }

  lemma PlanApplied(fw: Firewall, r: Request, entry: seq<Write>, services: seq<Write>)
    requires entry == EntryWrites(r) && services == ServiceWrites(r, r.ports)
    ensures var mid := ApplyAll(ApplyAll(fw, entry), services);
            ApplyAll(fw, Plan(r)) == mid.(rule := Some(Rule(Destination(r), ServicesFor(r, r.ports))), linked := true)
  {
    ApplyConcat(fw, entry + services, RuleWrites(r));
    ApplyConcat(fw, entry, services);
    var mid, w := ApplyAll(ApplyAll(fw, entry), services), RuleWrites(r)[0];
    assert RuleWrites(r) == [w] + [LinkRule];
    ApplySnoc(mid, [w], LinkRule);
    ApplySnoc(mid, [], w);
  }

  lemma FinishedBuildIs(fw: Firewall, r: Request, budget: nat)
    requires budget >= |Plan(r)|
    ensures var mid, fw' := ApplyAll(ApplyAll(fw, EntryWrites(r)), ServiceWrites(r, r.ports)), Build(fw, r, budget, true);
            && fw'.linked && fw'.rule == Some(Rule(Destination(r), ServicesFor(r, r.ports)))
            && fw'.group == Members(EntryWrites(r)) + Members(ServiceWrites(r, r.ports))
            && fw'.declared == mid.declared - (mid.group - fw'.group)
  {
    PlanApplied(fw, r, EntryWrites(r), ServiceWrites(r, r.ports));
    PlanMembers(r);
  }

  /** The names written out: an entry that wraps the address under another name is pointed
      at, and so is a service that answers on a port under another name; else the grant's
      own entry, of the kind the address has, and its own service of the port. */
  lemma FinishedRuleByName(fw: Firewall, r: Request, budget: nat)
    requires budget >= |Plan(r)|
    ensures var fw', entry := Build(fw, r, budget, true), "svc-" + r.grant + "-vip";
            && fw'.linked && fw'.rule.Some?
            && fw'.rule.value.destination ==
               (if r.entry.Some? && r.entry.value.name != entry then r.entry.value
                else if r.isBlock then BlockEntry(entry) else HostEntry(entry))
            && |fw'.rule.value.services| == |r.ports|
            && forall i :: 0 <= i < |r.ports| ==>
                 var p, service := r.ports[i], "svc-" + r.grant + "-tcp-" + Decimal(r.ports[i]);
                 fw'.rule.value.services[i] ==
                 if p in r.serviceOf && r.serviceOf[p].name != service then r.serviceOf[p] else Service(service)
  {
    FinishedBuildIs(fw, r, budget);
    OneServicePerPort(r, r.ports);
    NamesAre(r.grant, 0);
    forall i | 0 <= i < |r.ports|
      ensures var p, service := r.ports[i], "svc-" + r.grant + "-tcp-" + Decimal(r.ports[i]);
              ServiceFor(r, p) == if p in r.serviceOf && r.serviceOf[p].name != service then r.serviceOf[p] else Service(service)
    {
      NamesAre(r.grant, r.ports[i]);
    }
  }

  /** What is declared then: the own entry, wrapping the address, and own services, answering
      on their ports; and of what there was before, all that the last finished run did not
      write. The group is exactly the own objects. */
  lemma FinishedObjectsByName(fw: Firewall, r: Request, budget: nat, p: nat)
    requires budget >= |Plan(r)|
    ensures var fw', entry, service := Build(fw, r, budget, true), "svc-" + r.grant + "-vip", "svc-" + r.grant + "-tcp-" + Decimal(p);
            var own := if r.isBlock then BlockEntry(entry) else HostEntry(entry);
            && (!(r.entry.Some? && r.entry.value.name != entry) ==>
                  own in fw'.group && own in fw'.declared && fw'.declared[own] == Wraps(r.address))
            && (p in r.ports && !(p in r.serviceOf && r.serviceOf[p].name != service) ==>
                  Service(service) in fw'.group && Service(service) in fw'.declared && fw'.declared[Service(service)] == Port(p))
  {
    var entry, services := EntryWrites(r), ServiceWrites(r, r.ports);
    FinishedBuildIs(fw, r, budget);
    EntryApplied(fw, r);
    NamesAre(r.grant, p);
    ServicesApplied(ApplyAll(fw, entry), r, r.ports, OwnService(r, p));
    ServicesApplied(ApplyAll(fw, entry), r, r.ports, OwnEntry(r));
    ServiceMembersAre(r, r.ports, OwnService(r, p));
    ServiceMembersAre(r, r.ports, OwnEntry(r));
  }

  lemma FinishedGroupByName(fw: Firewall, r: Request, budget: nat, o: Object)
    requires budget >= |Plan(r)|
    ensures var fw', entry := Build(fw, r, budget, true), "svc-" + r.grant + "-vip";
            && (o in fw'.group <==>
                  || (o == (if r.isBlock then BlockEntry(entry) else HostEntry(entry))
                      && !(r.entry.Some? && r.entry.value.name != entry))
                  || (exists p :: p in r.ports && o == Service("svc-" + r.grant + "-tcp-" + Decimal(p))
                        && !(p in r.serviceOf && r.serviceOf[p].name != o.name)))
            && (o in fw'.declared <==> o in fw'.group || (o in fw.declared && o !in fw.group))
            && (o in fw.declared && o !in fw.group && o !in fw'.group ==> fw'.declared[o] == fw.declared[o])
  {
    var entry, services := EntryWrites(r), ServiceWrites(r, r.ports);
    FinishedBuildIs(fw, r, budget);
    EntryApplied(fw, r);
    NamesAre(r.grant, 0);
    forall p ensures ServiceName(r.grant, p) == "svc-" + r.grant + "-tcp-" + Decimal(p) { NamesAre(r.grant, p); }
    ServicesApplied(ApplyAll(fw, entry), r, r.ports, o);
    ServiceMembersAre(r, r.ports, o);
  }

  lemma EntryApplied(fw: Firewall, r: Request)
    ensures ApplyAll(fw, EntryWrites(r))
            == if EntryIsForeign(r) then fw else fw.(declared := fw.declared[OwnEntry(r) := Wraps(r.address)])
    ensures Members(EntryWrites(r)) == if EntryIsForeign(r) then {} else {OwnEntry(r)}
  {
    ApplySnoc(fw, [], Declare(OwnEntry(r), Wraps(r.address)));
  }

  /** After a finished build the rule is the request's, and the grant owns exactly what
      the request wants, beside the orphans: pruning never sees those. */
  lemma FinishedBuild(grant: string, foreign: map<Object, Content>, fw: Firewall, r: Request, budget: nat)
    requires Invariant(grant, foreign, fw) && Indexed(fw, r) && r.grant == grant && budget >= |Plan(r)|
    ensures var fw' := Build(fw, r, budget, true);
            && fw'.linked
            && fw'.rule == Some(Rule(Destination(r), ServicesFor(r, r.ports)))
            && fw'.group == Wanted(foreign, r)
            && Owned(grant, fw') == Wanted(foreign, r) + Orphans(grant, fw)
            && Orphans(grant, fw') == Orphans(grant, fw) - Wanted(foreign, r)
  {
    var ws := EntryWrites(r) + ServiceWrites(r, r.ports);
    PlanIsWanted(grant, foreign, fw, r);
    assert Plan(r) == ws + RuleWrites(r);
    ProgressConcat(fw, ws, RuleWrites(r), budget);
    BuildBeyondDeclares(grant, foreign, fw, r, ws, budget);
  }

  /** So its own objects are exactly the wanted ones if and only if no failed run had
      left another: a caller can tell by looking for generated names outside the group. */
  lemma FinishedBuildIsExactly(grant: string, foreign: map<Object, Content>, fw: Firewall, r: Request, budget: nat)
    requires Invariant(grant, foreign, fw) && Indexed(fw, r) && r.grant == grant && budget >= |Plan(r)|
    ensures Owned(grant, Build(fw, r, budget, true)) == Wanted(foreign, r) <==> Orphans(grant, fw) <= Wanted(foreign, r)
  {
    FinishedBuild(grant, foreign, fw, r, budget);
  }

  /** A run that fails after the link has the rule in place, and has taken nothing away: a
      service that the request no longer wants is still there, and still in the group. */
  lemma LateFailureKeepsAll(grant: string, foreign: map<Object, Content>, fw: Firewall, r: Request, budget: nat)
    requires Invariant(grant, foreign, fw) && Indexed(fw, r) && r.grant == grant && budget >= |Plan(r)|
    ensures var fw' := Build(fw, r, budget, false);
            && fw'.linked
            && fw'.rule == Some(Rule(Destination(r), ServicesFor(r, r.ports)))
            && fw'.group == fw.group
            && Owned(grant, fw') == Owned(grant, fw) + Wanted(foreign, r)
  {
    var ws := EntryWrites(r) + ServiceWrites(r, r.ports);
    PlanIsWanted(grant, foreign, fw, r);
    assert Plan(r) == ws + RuleWrites(r);
    ProgressConcat(fw, ws, RuleWrites(r), budget);
    BuildBeyondDeclares(grant, foreign, fw, r, ws, budget);
  }

  /** A build that does not get through adds to the orphans at most what it was to want. */
  lemma UnfinishedBuild(grant: string, foreign: map<Object, Content>, fw: Firewall, r: Request, budget: nat, rest: bool)
    requires Invariant(grant, foreign, fw) && Indexed(fw, r) && r.grant == grant && !GetsThrough(r, budget, rest)
    ensures Build(fw, r, budget, rest).group == fw.group
    ensures Orphans(grant, Build(fw, r, budget, rest)) <= Orphans(grant, fw) + Wanted(foreign, r)
  {
    var ws := EntryWrites(r) + ServiceWrites(r, r.ports);
    PlanIsWanted(grant, foreign, fw, r);
    assert Plan(r) == ws + RuleWrites(r);
    ProgressConcat(fw, ws, RuleWrites(r), budget);
    if budget < |ws| {
      DeclaresKeepInvariant(grant, foreign, fw, ws[..budget]);
      assert Members(ws[..budget]) <= Members(ws);
    } else {
      BuildBeyondDeclares(grant, foreign, fw, r, ws, budget);
    }
  }

  // --- Over any sequence of build runs ----------------------------------------------------------

  datatype Attempt = Attempt(request: Request, budget: nat, rest: bool)

  predicate Finishes(a: Attempt) {
    GetsThrough(a.request, a.budget, a.rest)
  }

  /** Runs one after another, each reading the firewall as the one before left it. */
  ghost predicate Reaches(grant: string, fw: Firewall, runs: seq<Attempt>, fw': Firewall)
    decreases |runs|
  {
    if runs == [] then fw == fw'
    else
      && runs[0].request.grant == grant && Indexed(fw, runs[0].request)
      && Reaches(grant, Build(fw, runs[0].request, runs[0].budget, runs[0].rest), runs[1..], fw')
  }

  /** What the runs among these that did not get through wanted. */
  ghost function UnfinishedWants(foreign: map<Object, Content>, runs: seq<Attempt>): set<Object>
    decreases |runs|
  {
    if runs == [] then {}
    else (if Finishes(runs[0]) then {} else Wanted(foreign, runs[0].request)) + UnfinishedWants(foreign, runs[1..])
  }

  /** Over any runs, with any ports, each failing anywhere or not at all: the rule stays
      closed, foreign objects stay as they were, and only failed runs make orphans. */
  lemma {:induction false} RunsKeepInvariant(grant: string, foreign: map<Object, Content>, fw: Firewall, runs: seq<Attempt>, fw': Firewall)
    requires Invariant(grant, foreign, fw) && Reaches(grant, fw, runs, fw')
    ensures Invariant(grant, foreign, fw')
    ensures Orphans(grant, fw') <= Orphans(grant, fw) + UnfinishedWants(foreign, runs)
    decreases |runs|
  {
    if runs != [] {
      var r, budget, rest := runs[0].request, runs[0].budget, runs[0].rest;
      BuildKeepsInvariant(grant, foreign, fw, r, budget, rest);
      if Finishes(runs[0]) { FinishedBuild(grant, foreign, fw, r, budget); } else { UnfinishedBuild(grant, foreign, fw, r, budget, rest); }
      RunsKeepInvariant(grant, foreign, Build(fw, r, budget, rest), runs[1..], fw');
    }
  }

  /** A grant nothing was built for, beside any foreign objects. */
  ghost function Fresh(foreign: map<Object, Content>): Firewall {
    Firewall(foreign, None, false, {})
  }

  /** From a grant's creation, through any runs that all finished, the last one leaves
      exactly the services for its current ports that no foreign service answers on. */
  lemma FinishedRunsLeaveExactlyWanted(
    grant: string, foreign: map<Object, Content>, runs: seq<Attempt>, fw: Firewall, last: Attempt)
    requires Invariant(grant, foreign, Fresh(foreign)) && Reaches(grant, Fresh(foreign), runs, fw)
    requires UnfinishedWants(foreign, runs) == {}
    requires last.request.grant == grant && Indexed(fw, last.request) && Finishes(last)
    ensures var fw' := Build(fw, last.request, last.budget, last.rest);
            && Owned(grant, fw') == Wanted(foreign, last.request)
            && Closed(fw')
            && forall o :: o in foreign ==> o in fw'.declared && fw'.declared[o] == foreign[o]
  {
    RunsKeepInvariant(grant, foreign, Fresh(foreign), runs, fw);
    assert Orphans(grant, Fresh(foreign)) == {};
    FinishedBuildIsExactly(grant, foreign, fw, last.request, last.budget);
    BuildKeepsInvariant(grant, foreign, fw, last.request, last.budget, last.rest);
  }

  /** One cut-off run is enough to break that: a run for ports 80 and 81 that fails just
      before its rule, then a finished run for port 80, leave the service of port 81. */
  lemma CutOffRunLeaksAService(grant: string, wide: Request, narrow: Request)
    requires wide == Request(grant, [80, 81], "vip", false, None, map[])
    requires narrow == Request(grant, [80], "vip", false, Some(OwnEntry(wide)),
                               map[80 := OwnService(wide, 80), 81 := OwnService(wide, 81)])
    ensures Indexed(Fresh(map[]), wide) && Indexed(Build(Fresh(map[]), wide, 3, true), narrow)
    ensures OwnService(wide, 81) in Build(Build(Fresh(map[]), wide, 3, true), narrow, |Plan(narrow)|, true).declared
    ensures OwnService(wide, 81) !in Wanted(map[], narrow)
  {
    var entry, s80, s81 := Declare(OwnEntry(wide), Wraps("vip")), Declare(OwnService(wide, 80), Port(80)), Declare(OwnService(wide, 81), Port(81));
    WidePlan(wide, entry, s80, s81);
    ThreeDeclares(Fresh(map[]), entry, s80, s81);
    if ServiceName(grant, 80) == ServiceName(grant, 81) { ServiceNameInjective(grant, 80, 81); }
    CutOffStays(Build(Fresh(map[]), wide, 3, true), narrow, s81.target);
    if s81.target in Wanted(map[], narrow) {
      WantedServicesAre(map[], narrow, [80], s81.target);
    }
  }

  /** And so does a failure after the link, until a later run gets through: a finished run
      for ports 80 and 81, then one for port 80 alone that fails while advertising. */
  lemma LateFailureLeavesAService(grant: string, wide: Request, narrow: Request)
    requires wide == Request(grant, [80, 81], "vip", false, None, map[])
    requires narrow.grant == grant && narrow.ports == [80] && Indexed(Build(Fresh(map[]), wide, |Plan(wide)|, true), narrow)
    ensures var fw := Build(Build(Fresh(map[]), wide, |Plan(wide)|, true), narrow, |Plan(narrow)|, false);
            OwnService(wide, 81) in fw.declared && fw.rule == Some(Rule(Destination(narrow), ServicesFor(narrow, [80])))
    ensures OwnService(wide, 81) !in Wanted(map[], narrow)
  {
    var o, fw := OwnService(wide, 81), Build(Fresh(map[]), wide, |Plan(wide)|, true);
    BuildKeepsInvariant(grant, map[], Fresh(map[]), wide, |Plan(wide)|, true);
    FinishedBuild(grant, map[], Fresh(map[]), wide, |Plan(wide)|);
    WantedServicesAre(map[], wide, wide.ports, o);
    assert 81 in wide.ports && o in Owned(grant, fw);
    LateFailureKeepsAll(grant, map[], fw, narrow, |Plan(narrow)|);
    if ServiceName(grant, 80) == ServiceName(grant, 81) { ServiceNameInjective(grant, 80, 81); }
    WantedServicesAre(map[], narrow, [80], o);
  }

  lemma WidePlan(wide: Request, entry: Write, s80: Write, s81: Write)
    requires wide.ports == [80, 81] && wide.entry == None && wide.serviceOf == map[]
    requires entry == Declare(OwnEntry(wide), Wraps(wide.address))
    requires s80 == Declare(OwnService(wide, 80), Port(80)) && s81 == Declare(OwnService(wide, 81), Port(81))
    ensures |Plan(wide)| > 3 && Plan(wide)[..3] == [entry] + [s80] + [s81]
  {
    assert [80, 81][..1] == [80] && [80][..0] == [];
    assert ServiceWrites(wide, [80]) == [s80];
    assert ServiceWrites(wide, [80, 81]) == [s80] + [s81];
    assert Plan(wide) == [entry, s80, s81] + RuleWrites(wide);
  }

  lemma ThreeDeclares(fw: Firewall, a: Write, b: Write, c: Write)
    requires a.Declare? && b.Declare? && c.Declare?
    ensures var fw' := ApplyAll(fw, [a] + [b] + [c]);
            && fw'.declared == fw.declared[a.target := a.content][b.target := b.content][c.target := c.content]
            && fw'.group == fw.group
  {
    ApplySnoc(fw, [], a);
    ApplySnoc(fw, [a], b);
    ApplySnoc(fw, [a] + [b], c);
  }

  /** A finished run deletes nothing outside the group it found. */
  lemma CutOffStays(fw: Firewall, r: Request, o: Object)
    requires o in fw.declared && o !in fw.group
    ensures o in Build(fw, r, |Plan(r)|, true).declared
  {
    AppliedGrows(fw, Plan(r));
  }

  lemma {:induction false} AppliedGrows(fw: Firewall, ws: seq<Write>)
    ensures fw.declared.Keys <= ApplyAll(fw, ws).declared.Keys && ApplyAll(fw, ws).group == fw.group
  {
    if ws != [] { AppliedGrows(fw, ws[..|ws| - 1]); }
  }

  // --- Withdrawal --------------------------------------------------------------------------------

  /** What a withdrawal deletes by name: the generated entry, of either kind, and every
      service whose name starts with the grant's prefix. */
  predicate Doomed(grant: string, o: Object) {
    match o
    case Service(name) => ServicePrefix(grant) <= name
    case _ => o.name == VipEntryName(grant)
  }

  datatype Delete = DropRule | Drop(o: Object)

  function ApplyDelete(fw: Firewall, d: Delete): Firewall {
    match d
    case DropRule => fw.(rule := None, linked := false)
    case Drop(o) => fw.(declared := fw.declared - {o}, group := fw.group - {o})
  }

  function ApplyDeletes(fw: Firewall, ds: seq<Delete>): Firewall {
    if ds == [] then fw else ApplyDelete(ApplyDeletes(fw, ds[..|ds| - 1]), ds[|ds| - 1])
  }

  function DoomedOf(grant: string, nodes: seq<Object>): seq<Delete> {
    if nodes == [] then []
    else
      var last := nodes[|nodes| - 1];
      DoomedOf(grant, nodes[..|nodes| - 1]) + (if Doomed(grant, last) then [Drop(last)] else [])
  }

  /** The deletes of a withdrawal, the rule first. Only a rule the grant is linked to is
      found; `nodes` are the objects in query order, entries before services. */
  function WithdrawPlan(fw: Firewall, grant: string, nodes: seq<Object>): seq<Delete> {
    (if fw.rule.Some? && fw.linked then [DropRule] else []) + DoomedOf(grant, nodes)
  }

  /** The rule counts when the grant has linked it. */
  function RuleCount(fw: Firewall): nat {
    if fw.rule.Some? && fw.linked then 1 else 0
  }

  /** The generated objects of the list that exist. */
  function DoomedThere(fw: Firewall, grant: string, nodes: seq<Object>): set<Object> {
    set o | o in fw.declared && o in nodes && Doomed(grant, o)
  }

  lemma DoomedThereStep(fw: Firewall, start: seq<Delete>, grant: string, nodes: seq<Object>, i: nat)
    requires i < |nodes| && forall o :: Drop(o) !in start
    ensures |DoomedThere(fw, grant, nodes[..i + 1])|
            == |DoomedThere(fw, grant, nodes[..i])|
               + if Doomed(grant, nodes[i]) && nodes[i] in ApplyDeletes(fw, start + DoomedOf(grant, nodes[..i])).declared then 1 else 0
  {
    var done, o := nodes[..i], nodes[i];
    assert nodes[..i + 1] == done + [o];
    var was, now := DoomedThere(fw, grant, done), DoomedThere(fw, grant, nodes[..i + 1]);
    DeletesMean(fw, start + DoomedOf(grant, done));
    DoomedOfAre(grant, done);
    DoomedOfOnly(grant, done, o);
    assert Doomed(grant, o) ==> (Drop(o) in start + DoomedOf(grant, done) <==> o in done);
    if Doomed(grant, o) && o in fw.declared && o !in done {
      assert now == was + {o};
    } else {
      assert now == was;
    }
  }

  lemma DeletesStep(fw: Firewall, start: seq<Delete>, grant: string, nodes: seq<Object>, i: nat)
    requires i < |nodes|
    ensures var done, next := start + DoomedOf(grant, nodes[..i]), start + DoomedOf(grant, nodes[..i + 1]);
            ApplyDeletes(fw, next)
            == if Doomed(grant, nodes[i]) then ApplyDelete(ApplyDeletes(fw, done), Drop(nodes[i])) else ApplyDeletes(fw, done)
  {
    assert nodes[..i + 1][..i] == nodes[..i];
    var done, next := start + DoomedOf(grant, nodes[..i]), start + DoomedOf(grant, nodes[..i + 1]);
    if Doomed(grant, nodes[i]) {
      assert next == done + [Drop(nodes[i])];
      assert next[..|done|] == done;
    } else {
      assert next == done;
    }
  }

  lemma {:induction false} DoomedOfAre(grant: string, nodes: seq<Object>)
    ensures forall d :: d in DoomedOf(grant, nodes) ==> d.Drop? && Doomed(grant, d.o)
    ensures forall o :: o in nodes && Doomed(grant, o) ==> Drop(o) in DoomedOf(grant, nodes)
  {
    if nodes != [] {
      DoomedOfAre(grant, nodes[..|nodes| - 1]);
      assert nodes == nodes[..|nodes| - 1] + [nodes[|nodes| - 1]];
    }
  }

  /** What any run of deletes leaves: an object goes exactly when one of them names it. */
  lemma {:induction false} DeletesMean(fw: Firewall, ds: seq<Delete>)
    ensures var fw' := ApplyDeletes(fw, ds);
            && (forall o :: o in fw'.declared <==> o in fw.declared && Drop(o) !in ds)
            && (forall o :: o in fw'.declared ==> fw'.declared[o] == fw.declared[o])
            && fw'.rule == (if DropRule in ds then None else fw.rule)
            && (fw'.linked <==> fw.linked && DropRule !in ds)
            && (forall o :: o in fw'.group <==> o in fw.group && Drop(o) !in ds)
  {
    if ds != [] {
      DeletesMean(fw, ds[..|ds| - 1]);
      assert ds == ds[..|ds| - 1] + [ds[|ds| - 1]];
    }
  }

  /** The rule's way out of a withdrawal: it is absent, or linked and so deleted first,
      or it points at nothing the withdrawal deletes. */
  predicate Withdrawable(fw: Firewall, grant: string) {
    fw.rule.Some? && !fw.linked ==>
      !Doomed(grant, fw.rule.value.destination) && forall o :: o in fw.rule.value.services ==> !Doomed(grant, o)
  }

  /** Cut off after any delete, a withdrawal of a linked grant leaves no rule pointing at
      something undeclared, because the rule goes first. */
  lemma WithdrawStaysClosed(fw: Firewall, grant: string, nodes: seq<Object>, k: nat)
    requires Closed(fw) && Withdrawable(fw, grant) && k <= |WithdrawPlan(fw, grant, nodes)|
    ensures Closed(ApplyDeletes(fw, WithdrawPlan(fw, grant, nodes)[..k]))
  {
    var plan := WithdrawPlan(fw, grant, nodes);
    DoomedOfAre(grant, nodes);
    DeletesMean(fw, plan[..k]);
    if fw.rule.Some? {
      if fw.linked && k > 0 {
        assert plan[..k][0] == DropRule;
      } else {
        forall o | Refers(fw.rule.value, o) ensures Drop(o) !in plan[..k] {
          assert Drop(o) in plan[..k] ==> Drop(o) in plan;
          if !fw.linked { assert plan == DoomedOf(grant, nodes); }
        }
      }
    }
  }

  /** Finished, it is closed exactly in those cases. A build cut off between saving its
      rule and linking it is the way to miss: the rule stays and its objects go. */
  lemma WithdrawClosedExactly(fw: Firewall, grant: string, nodes: seq<Object>)
    requires Closed(fw) && forall o :: o in fw.declared <==> o in nodes
    ensures var fw' := ApplyDeletes(fw, WithdrawPlan(fw, grant, nodes));
            && (Closed(fw') <==> Withdrawable(fw, grant))
            && (forall o :: o in fw'.declared <==> o in fw.declared && !Doomed(grant, o))
            && (forall o :: o in fw'.declared ==> fw'.declared[o] == fw.declared[o])
  {
    var plan := WithdrawPlan(fw, grant, nodes);
    DoomedOfAre(grant, nodes);
    DeletesMean(fw, plan);
    assert plan[..|plan|] == plan;
    if Withdrawable(fw, grant) { WithdrawStaysClosed(fw, grant, nodes, |plan|); }
    forall o ensures Drop(o) in plan <==> o in nodes && Doomed(grant, o) {
      DoomedOfOnly(grant, nodes, o);
    }
    assert DropRule in plan <==> fw.rule.Some? && fw.linked;
  }

  lemma {:induction false} DoomedOfOnly(grant: string, nodes: seq<Object>, o: Object)
    ensures Drop(o) in DoomedOf(grant, nodes) ==> o in nodes
  {
    if nodes != [] {
      DoomedOfOnly(grant, nodes[..|nodes| - 1], o);
    }
  }

  /** The case that misses, reached from a fresh grant by one run cut off after its rule. */
  lemma UnlinkedRuleDangles(grant: string, r: Request, nodes: seq<Object>)
    requires r == Request(grant, [80], "vip", false, None, map[])
    requires forall o :: o in Build(Fresh(map[]), r, 3, true).declared <==> o in nodes
    ensures var fw := Build(Fresh(map[]), r, 3, true);
            Closed(fw) && !Closed(ApplyDeletes(fw, WithdrawPlan(fw, grant, nodes)))
  {
    var fresh0 := Fresh(map[]);
    assert [80][..0] == [];
    var entry, s80 := Declare(OwnEntry(r), Wraps("vip")), Declare(OwnService(r, 80), Port(80));
    var w := WriteRule(Rule(OwnEntry(r), [OwnService(r, 80)]));
    assert ServiceWrites(r, [80]) == [s80] && ServicesFor(r, [80]) == [OwnService(r, 80)];
    assert Plan(r)[..3] == [entry] + [s80] + [w];
    ApplySnoc(fresh0, [], entry);
    ApplySnoc(fresh0, [entry], s80);
    ApplySnoc(fresh0, [entry] + [s80], w);
    var fw := Build(fresh0, r, 3, true);
    assert fw.rule == Some(w.rule) && !fw.linked && Doomed(grant, OwnEntry(r));
    WithdrawClosedExactly(fw, grant, nodes);
  }

  /** A withdrawal leaves every foreign object alone exactly when none carries a generated
      name; by `ServicePrefixReaches` another grant's services do not, unless its name is
      this one's with `-tcp` behind it. The same objects may be in the rule of a grant that
      found and references them: that rule then dangles. */
  lemma WithdrawSparesForeign(fw: Firewall, grant: string, nodes: seq<Object>, foreign: map<Object, Content>, other: Rule)
    requires Invariant(grant, foreign, fw) && forall o :: o in fw.declared <==> o in nodes
    requires other.destination in fw.declared && forall o :: o in other.services ==> o in fw.declared
    ensures var fw' := ApplyDeletes(fw, WithdrawPlan(fw, grant, nodes));
            && (fw'.declared == foreign <==> forall o :: o in foreign ==> !Doomed(grant, o))
            && (Closed(fw'.(rule := Some(other))) <==> forall o :: Refers(other, o) ==> !Doomed(grant, o))
  {
    WithdrawClosedExactly(fw, grant, nodes);
    var fw' := ApplyDeletes(fw, WithdrawPlan(fw, grant, nodes));
    forall o | Mine(grant, o) ensures Doomed(grant, o) {}
    assert forall o :: o in fw'.declared ==> o in foreign;
  }

  /** The names written out: a withdrawal takes exactly the services whose names begin
      `svc-<grant>-tcp-` and the entries called `svc-<grant>-vip`. */
  lemma WithdrawnByName(fw: Firewall, grant: string, nodes: seq<Object>)
    requires forall o :: o in fw.declared <==> o in nodes
    ensures var fw' := ApplyDeletes(fw, WithdrawPlan(fw, grant, nodes));
            && (forall name :: Service(name) in fw'.declared <==>
                  Service(name) in fw.declared && !("svc-" + grant + "-tcp-" <= name))
            && (forall name :: HostEntry(name) in fw'.declared <==> HostEntry(name) in fw.declared && name != "svc-" + grant + "-vip")
            && (forall name :: BlockEntry(name) in fw'.declared <==> BlockEntry(name) in fw.declared && name != "svc-" + grant + "-vip")
            && (forall o :: o in fw'.declared ==> o in fw.declared && fw'.declared[o] == fw.declared[o])
            && fw'.rule == (if fw.linked then None else fw.rule) && (fw'.linked <==> fw.linked && fw.rule.None?)
            && (forall o :: o in fw'.group <==> o in fw.group && (o in fw'.declared || o !in fw.declared))
  {
    var plan := WithdrawPlan(fw, grant, nodes);
    DoomedOfAre(grant, nodes);
    DeletesMean(fw, plan);
    forall o ensures Drop(o) in plan <==> o in nodes && Doomed(grant, o) {
      DoomedOfOnly(grant, nodes, o);
    }
    assert DropRule in plan <==> fw.rule.Some? && fw.linked;
  }

  /** So another grant's service survives unless that grant's name is this one's with
      `-tcp` behind it, and a service whose name does not begin `svc-` always does. */
  lemma OtherServicesSurvive(fw: Firewall, grant: string, nodes: seq<Object>, other: string, port: nat, hand: string)
    requires forall o :: o in fw.declared <==> o in nodes
    requires Service("svc-" + other + "-tcp-" + Decimal(port)) in fw.declared
    requires Service(hand) in fw.declared && !("svc-" <= hand)
    ensures var fw' := ApplyDeletes(fw, WithdrawPlan(fw, grant, nodes));
            && (Service("svc-" + other + "-tcp-" + Decimal(port)) in fw'.declared <==>
                  other != grant && other != grant + "-tcp" && !(grant + "-tcp-" <= other))
            && Service(hand) in fw'.declared
  {
    WithdrawnByName(fw, grant, nodes);
    ServicePrefixReaches(grant, other, port);
    assert ServicePrefix(grant) == "svc-" + grant + "-tcp-" && ServiceName(other, port) == "svc-" + other + "-tcp-" + Decimal(port);
    BeginsSvc(grant, hand);
  }

  lemma BeginsSvc(grant: string, name: string)
    ensures "svc-" + grant + "-tcp-" <= name ==> "svc-" <= name
  {
    var prefix := "svc-" + grant + "-tcp-";
    assert prefix[..4] == "svc-";
    if prefix <= name { assert name[..4] == prefix[..4]; }
  }

  /** What a withdrawal counts is what it takes away. */
  lemma DeletedAre(fw: Firewall, grant: string, nodes: seq<Object>)
    ensures fw.declared.Keys - ApplyDeletes(fw, WithdrawPlan(fw, grant, nodes)).declared.Keys == DoomedThere(fw, grant, nodes)
  {
    var plan := WithdrawPlan(fw, grant, nodes);
    DoomedOfAre(grant, nodes);
    DeletesMean(fw, plan);
    forall o ensures Drop(o) in plan <==> o in nodes && Doomed(grant, o) {
      DoomedOfOnly(grant, nodes, o);
    }
  }
}
