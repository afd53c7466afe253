/** Which name an application gets, which address it points at, and the zone gate that
    checks the two against each other. */
module DnsZone {
  import opened Options
  import opened Prefixes
  import AllocationCheck

  // --- Labels ---------------------------------------------------------------------------

  predicate LabelChar(c: char) {
    'a' <= c <= 'z' || '0' <= c <= '9' || c == '-'
  }

  /** A host name label: section 2.3.1 of RFC 1035, as relaxed by section 2.1 of RFC 1123,
      in lower case. */
  predicate HostLabel(s: string) {
    && 1 <= |s| <= 63
    && (forall i :: 0 <= i < |s| ==> LabelChar(s[i]))
    && s[0] != '-' && s[|s| - 1] != '-'
  }

  /** The pattern: one first character; then optionally up to 61 middle ones and a last
      one. Its final `$` also matches just before a newline that ends the text. */
  predicate LabelPattern(s: string) {
    Whole(s) || (|s| > 0 && s[|s| - 1] == '\n' && Whole(s[..|s| - 1]))
  }

  predicate Whole(s: string) {
    && |s| >= 1 && EdgeChar(s[0])
    && (|s| == 1
        || (|s| - 2 <= 61 && EdgeChar(s[|s| - 1]) && forall i :: 1 <= i < |s| - 1 ==> LabelChar(s[i])))
  }

  predicate EdgeChar(c: char) {
    'a' <= c <= 'z' || '0' <= c <= '9'
  }

  /** The pattern accepts exactly the host labels, except that it lets one trailing newline
      through: a name is a host label if and only if it is accepted and does not end in one. */
  lemma PatternIsHostLabel(s: string)
    ensures LabelPattern(s) && (s == [] || s[|s| - 1] != '\n') <==> HostLabel(s)
    ensures LabelPattern(s + "\n") <==> HostLabel(s)
    ensures !HostLabel(s + "\n")
  {
    assert (s + "\n")[..|s|] == s;
    assert (s + "\n")[|s|] == '\n';
    if HostLabel(s) && |s| > 1 { assert LabelChar(s[0]) && LabelChar(s[|s| - 1]); }
  }

  /** A host label letter by letter: 1 to 63 of a to z, 0 to 9 and the hyphen, no hyphen first or last. */
  lemma HostLabelMeans(s: string)
    ensures HostLabel(s) <==>
            && 1 <= |s| <= 63 && s[0] != '-' && s[|s| - 1] != '-'
            && forall i :: 0 <= i < |s| ==> 'a' <= s[i] <= 'z' || '0' <= s[i] <= '9' || s[i] == '-'
  {
  }

  // --- Names and their addresses -------------------------------------------------------------

  datatype Status = Provisioning | Active | Error | Decommissioning | Decommissioned

  /** The application's block as it is written: host bits may be set. */
  datatype Block = Block(version: Version, value: nat, len: nat)

  predicate ValidBlock(b: Block) {
    b.len <= Width(b.version) && b.value < Pow2(Width(b.version))
  }

  function Network(b: Block): Prefix
    requires ValidBlock(b)
  {
    NetworkOf(b.version, b.value, b.len)
  }

  /** Live, exposed, with a block and an acceptable label. */
  predicate HasName(status: Status, exposed: bool, block: Option<Block>, name: string) {
    exposed && block.Some? && status != Decommissioning && status != Decommissioned && LabelPattern(name)
  }

  /** The pinned address when there is one and it lies in the block, else the first of the
      block; a pinned address outside the block is refused. */
  function NameAddress(block: Block, pinned: Option<Address>): (r: Option<Address>)
    requires ValidBlock(block)
    ensures r.Some? ==> Holds(Network(block), r.value)
    ensures r.None? <==> pinned.Some? && !Holds(Network(block), pinned.value)
    ensures r.Some? && pinned.Some? ==> r == pinned
    ensures pinned.None? ==> forall a :: Holds(Network(block), a) ==> r.value.value <= a.value
  {
    if pinned.None? then Some(First(Network(block)))
    else if !Holds(Network(block), pinned.value) then None
    else pinned
  }

  function Fqdn(name: string, zone: string): string {
    name + "." + zone
  }

  // --- The zone gate ------------------------------------------------------------------------------

  datatype App = App(id: string, name: string, zone: Option<string>, block: Option<Block>)

  /** An address node: its id, its address, and the name it carries. */
  datatype Record = Record(id: string, address: Address, fqdn: string)

  datatype Finding = TwoResolvers(id: string) | OutsideBlock(id: string)

  /** `value` is truthy: set and not empty. */
  predicate IsResolver(a: App) {
    a.zone.Some? && a.zone.value != ""
  }

  predicate EndsWith(s: string, suffix: string) {
    |suffix| <= |s| && s[|s| - |suffix|..] == suffix
  }

  /** The block of the last application of that name. */
  function BlockOf(apps: seq<App>, name: string): Option<Block> {
    if apps == [] then None
    else
      var last := apps[|apps| - 1];
      if last.name == name && last.block.Some? then last.block else BlockOf(apps[..|apps| - 1], name)
  }

  ghost predicate BlocksValid(apps: seq<App>) {
    forall i :: 0 <= i < |apps| && apps[i].block.Some? ==> ValidBlock(apps[i].block.value)
  }

  lemma {:induction false} BlockOfValid(apps: seq<App>, name: string)
    requires BlocksValid(apps)
    ensures BlockOf(apps, name).Some? ==> ValidBlock(BlockOf(apps, name).value)
  {
    if apps != [] { BlockOfValid(apps[..|apps| - 1], name); }
  }

  /** A record that reads as some application's name in this zone lies in its block. */
  ghost predicate RecordFits(apps: seq<App>, zone: string, r: Record)
    requires BlocksValid(apps)
  {
    EndsWith(r.fqdn, "." + zone) ==>
      var block := BlockOf(apps, r.fqdn[..|r.fqdn| - |zone| - 1]);
      BlockOfValid(apps, r.fqdn[..|r.fqdn| - |zone| - 1]);
      block.Some? ==> Holds(Network(block.value), r.address)
  }

  function Zones(apps: seq<App>): set<string> {
    set a | a in apps && IsResolver(a) :: a.zone.value
  }

  function Resolvers(apps: seq<App>): seq<App> {
    if apps == [] then []
    else Resolvers(apps[..|apps| - 1]) + (if IsResolver(apps[|apps| - 1]) then [apps[|apps| - 1]] else [])
  }

  /** Clean: at most one resolver, and every record of its zone fits. */
  ghost predicate CleanZone(apps: seq<App>, records: seq<Record>)
    requires BlocksValid(apps)
  {
    && |Resolvers(apps)| <= 1
    && forall zone, i :: zone in Zones(apps) && 0 <= i < |records| ==> RecordFits(apps, zone, records[i])
  }

  /** The resolver `a` is blamed for not being the only one. */
  ghost predicate SecondResolver(apps: seq<App>, f: Finding, k: int) {
    0 <= k < |Resolvers(apps)| && |Resolvers(apps)| > 1 && f == TwoResolvers(Resolvers(apps)[k].id)
  }

  ghost predicate Astray(apps: seq<App>, records: seq<Record>, f: Finding, i: int, zone: string)
    requires BlocksValid(apps)
  {
    0 <= i < |records| && zone in Zones(apps) && !RecordFits(apps, zone, records[i]) && f == OutsideBlock(records[i].id)
  }

  method CollectFindings(apps: seq<App>, records: seq<Record>) returns (findings: seq<Finding>)
    requires BlocksValid(apps)
    ensures forall f :: f in findings <==>
              (exists k :: SecondResolver(apps, f, k)) || (exists i, zone :: Astray(apps, records, f, i, zone))
    ensures findings == [] <==> CleanZone(apps, records)
  {
    var resolvers := Resolvers(apps);
    var doubled := [];
    if |resolvers| > 1 {
      doubled := seq(|resolvers|, i requires 0 <= i < |resolvers| => TwoResolvers(resolvers[i].id));
    }
    forall f ensures f in doubled <==> exists k :: SecondResolver(apps, f, k) {
      if k :| SecondResolver(apps, f, k) { assert doubled[k] == f; }
      if k :| 0 <= k < |doubled| && doubled[k] == f { assert SecondResolver(apps, f, k); }
    }
    var astray := [];
    for i := 0 to |records|
      invariant forall f :: f in astray <==> exists k, zone :: Astray(apps, records, f, k, zone) && k < i
    {
      var more := CheckRecord(apps, records[i]);
      forall f ensures f in more <==> exists zone :: Astray(apps, records, f, i, zone) {
        if f in more {
          var zone :| zone in Zones(apps) && !RecordFits(apps, zone, records[i]);
          assert Astray(apps, records, f, i, zone);
        }
      }
      astray := astray + more;
    }
    findings := doubled + astray;
    NothingAstray(apps, records, findings);
  }

  lemma NothingAstray(apps: seq<App>, records: seq<Record>, findings: seq<Finding>)
    requires BlocksValid(apps)
    requires forall f :: f in findings <==>
               (exists k :: SecondResolver(apps, f, k)) || (exists i, zone :: Astray(apps, records, f, i, zone))
    ensures findings == [] <==> CleanZone(apps, records)
  {
    if findings != [] {
      assert findings[0] in findings;
    }
    if |Resolvers(apps)| > 1 {
      var f := TwoResolvers(Resolvers(apps)[0].id);
      assert SecondResolver(apps, f, 0);
      assert f in findings;
    }
    forall zone, i | zone in Zones(apps) && 0 <= i < |records| && !RecordFits(apps, zone, records[i]) ensures findings != [] {
      assert Astray(apps, records, OutsideBlock(records[i].id), i, zone);
      assert OutsideBlock(records[i].id) in findings;
    }
  }

  method CheckRecord(apps: seq<App>, r: Record) returns (findings: seq<Finding>)
    requires BlocksValid(apps)
    ensures forall f :: f in findings <==>
              f == OutsideBlock(r.id) && exists zone :: zone in Zones(apps) && !RecordFits(apps, zone, r)
  {
    findings := [];
    var left := Zones(apps);
    while left != {}
      invariant left <= Zones(apps)
      invariant forall f :: f in findings <==>
                  f == OutsideBlock(r.id) && exists zone :: zone in Zones(apps) - left && !RecordFits(apps, zone, r)
      decreases left
    {
      var zone :| zone in left;
      assert Zones(apps) - (left - {zone}) == Zones(apps) - left + {zone};
      left := left - {zone};
      var suffix := "." + zone;
      if !EndsWith(r.fqdn, suffix) {
        continue;
      }
      var owner := r.fqdn[..|r.fqdn| - |suffix|];
      var block := BlockOf(apps, owner);
      BlockOfValid(apps, owner);
      if block.Some? && !Holds(Network(block.value), r.address) {
        findings := findings + [OutsideBlock(r.id)];
      }
    }
    assert Zones(apps) - {} == Zones(apps);
  }

  // --- What the gate reads, application by application -----------------------------------------

  lemma ZonesAre(apps: seq<App>, zone: string)
    ensures zone in Zones(apps) <==> exists i :: 0 <= i < |apps| && apps[i].zone == Some(zone) && zone != ""
  {
    if zone in Zones(apps) {
      var a :| a in apps && IsResolver(a) && a.zone.value == zone;
      var i :| 0 <= i < |apps| && apps[i] == a;
    }
  }

  /** The resolvers are the applications with a zone that is set and not empty. */
  lemma {:induction false} ResolversAre(apps: seq<App>, a: App)
    ensures a in Resolvers(apps) <==> a in apps && a.zone.Some? && a.zone.value != ""
  {
    if apps != [] {
      ResolversAre(apps[..|apps| - 1], a);
      assert apps == apps[..|apps| - 1] + [apps[|apps| - 1]];
    }
  }

  /** There is more than one exactly when two applications have such a zone. */
  lemma {:induction false} ResolversAreTwo(apps: seq<App>)
    ensures |Resolvers(apps)| > 1 <==> exists i, j :: 0 <= i < j < |apps| && IsResolver(apps[i]) && IsResolver(apps[j])
    ensures forall a :: IsResolver(a) <==> a.zone.Some? && a.zone.value != ""
  {
    if apps != [] {
      var front, n := apps[..|apps| - 1], |apps| - 1;
      ResolversAreTwo(front);
      assert forall i :: 0 <= i < n ==> apps[i] == front[i];
      if Resolvers(front) != [] {
        ResolversAre(front, Resolvers(front)[0]);
        var i :| 0 <= i < n && front[i] == Resolvers(front)[0];
        assert IsResolver(apps[i]);
      } else {
        forall i | 0 <= i < n ensures !IsResolver(front[i]) { ResolversAre(front, front[i]); }
      }
    }
  }

  /** The application whose block a name is held against: the last one so called that has one. */
  predicate NamedBy(apps: seq<App>, name: string, k: int) {
    && 0 <= k < |apps| && apps[k].name == name && apps[k].block.Some?
    && forall l :: k < l < |apps| && apps[l].name == name ==> apps[l].block.None?
  }

  lemma {:induction false} BlockOfIs(apps: seq<App>, name: string)
    ensures match BlockOf(apps, name)
            case None => forall k :: !NamedBy(apps, name, k)
            case Some(block) => exists k :: NamedBy(apps, name, k) && apps[k].block == Some(block)
    ensures forall k, l :: NamedBy(apps, name, k) && NamedBy(apps, name, l) ==> k == l
  {
    if apps != [] {
      var front, n := apps[..|apps| - 1], |apps| - 1;
      BlockOfIs(front, name);
      if apps[n].name == name && apps[n].block.Some? {
        assert NamedBy(apps, name, n);
      } else {
        forall k ensures NamedBy(apps, name, k) <==> NamedBy(front, name, k) { }
      }
    }
  }

  /** A record is astray in a zone exactly when it is some label, a dot and the zone, and the
      application called so has a block that the address is not in. */
  lemma RecordFitsMeans(apps: seq<App>, zone: string, r: Record)
    requires BlocksValid(apps)
    ensures !RecordFits(apps, zone, r) <==>
            exists host: string, k :: r.fqdn == host + "." + zone && NamedBy(apps, host, k)
                                       && !Holds(Network(apps[k].block.value), r.address)
  {
    if EndsWith(r.fqdn, "." + zone) {
      var host := r.fqdn[..|r.fqdn| - |zone| - 1];
      assert r.fqdn == host + ("." + zone);
      assert host + ("." + zone) == host + "." + zone;
      BlockOfIs(apps, host);
      BlockOfValid(apps, host);
    }
    forall host: string | r.fqdn == host + "." + zone
      ensures EndsWith(r.fqdn, "." + zone) && host == r.fqdn[..|r.fqdn| - |zone| - 1]
    {
      SuffixSplits(host, zone);
    }
  }

  /** The suffix splits back to the label it was put on, whatever dots the label holds. */
  lemma SuffixSplits(name: string, zone: string)
    ensures EndsWith(Fqdn(name, zone), "." + zone)
    ensures Fqdn(name, zone)[..|Fqdn(name, zone)| - |zone| - 1] == name
  {
    assert Fqdn(name, zone) == name + ("." + zone);
  }

  /** The record a run of application `a` puts into the zone, if it has a name at all. */
  function GeneratedRecord(a: App, status: Status, exposed: bool, pinned: Option<Address>, zone: string, id: string): Option<Record>
    requires a.block.Some? ==> ValidBlock(a.block.value)
  {
    if !HasName(status, exposed, a.block, a.name) then None
    else
      match NameAddress(a.block.value, pinned)
      case None => None
      case Some(address) => Some(Record(id, address, Fqdn(a.name, zone)))
  }

  /** Every name the generator creates passes the gate, as long as names identify
      applications: the zone splits back to its own label, and its address lies in its own
      block. A withdrawn, unexposed or blockless application creates none. */
  lemma CreatedNameFits(apps: seq<App>, i: nat, status: Status, exposed: bool, pinned: Option<Address>, zone: string, id: string)
    requires BlocksValid(apps) && i < |apps|
    requires forall k, l :: 0 <= k < l < |apps| ==> apps[k].name != apps[l].name
    ensures var r := GeneratedRecord(apps[i], status, exposed, pinned, zone, id);
            && (r.Some? ==> RecordFits(apps, zone, r.value) && Holds(Network(apps[i].block.value), r.value.address)
                            && r.value.fqdn[..|r.value.fqdn| - |zone| - 1] == apps[i].name)
            && (r.Some? <==>
                  && exposed && status != Decommissioning && status != Decommissioned && apps[i].block.Some?
                  && LabelPattern(apps[i].name)
                  && (pinned.None? || Holds(Network(apps[i].block.value), pinned.value)))
            && (r.Some? ==> r.value.fqdn == apps[i].name + "." + zone && (pinned.Some? ==> r.value.address == pinned.value))
  {
    SuffixSplits(apps[i].name, zone);
    if apps[i].block.Some? { BlockOfNamed(apps, i); }
  }

  lemma {:induction false} BlockOfNamed(apps: seq<App>, i: nat)
    requires i < |apps| && apps[i].block.Some?
    requires forall k, l :: 0 <= k < l < |apps| ==> apps[k].name != apps[l].name
    ensures BlockOf(apps, apps[i].name) == apps[i].block
  {
    if i < |apps| - 1 {
      BlockOfNamed(apps[..|apps| - 1], i);
      assert apps[..|apps| - 1][i] == apps[i];
    }
  }

  /** With one resolver the generator's own records never trip the gate. */
  lemma GeneratedZoneIsClean(apps: seq<App>, records: seq<Record>)
    requires BlocksValid(apps) && |Resolvers(apps)| <= 1
    requires forall k, l :: 0 <= k < l < |apps| ==> apps[k].name != apps[l].name
    requires forall zone, i :: zone in Zones(apps) && 0 <= i < |records| ==> Generates(apps, zone, records[i])
    ensures CleanZone(apps, records)
  {
    forall zone, i | zone in Zones(apps) && 0 <= i < |records| ensures RecordFits(apps, zone, records[i]) {
      assert Generates(apps, zone, records[i]);
      var k, status, exposed, pinned :| 0 <= k < |apps| && GeneratesFor(apps[k], status, exposed, pinned, zone, records[i]);
      CreatedNameFits(apps, k, status, exposed, pinned, zone, records[i].id);
    }
  }

  predicate GeneratesFor(a: App, status: Status, exposed: bool, pinned: Option<Address>, zone: string, r: Record) {
    && (a.block.Some? ==> ValidBlock(a.block.value))
    && GeneratedRecord(a, status, exposed, pinned, zone, r.id) == Some(r)
  }

  ghost predicate Generates(apps: seq<App>, zone: string, r: Record) {
    exists k, status, exposed, pinned :: 0 <= k < |apps| && GeneratesFor(apps[k], status, exposed, pinned, zone, r)
  }

  /** Behind a clean VIP rule, names of different applications point at different
      addresses: a block's addresses are its own. */
  lemma NamesGetDistinctAddresses(
    blocks: seq<AllocationCheck.VipBlock>, i: nat, j: nat, b: Block, c: Block, p: Option<Address>, q: Option<Address>)
    requires AllocationCheck.CleanVips(blocks) && i < |blocks| && j < |blocks| && i != j
    requires ValidBlock(b) && ValidBlock(c) && Network(b) == blocks[i].network && Network(c) == blocks[j].network
    requires NameAddress(b, p).Some? && NameAddress(c, q).Some?
    ensures NameAddress(b, p) != NameAddress(c, q)
  {
    AllocationCheck.DisjointByAddress(blocks);
  }
}
