/** The withdrawal of a grant as one run over all it wrote: the firewall's objects, the
    application's source prefixes, its own status and the switch's prefix list. */
module GrantWithdrawal {
  import opened Options
  import Fw = GrantFirewall
  import Policy = SourcePolicy
  import Lists = PrefixLists
  import GrantNames

  /** `grant` is the name, `i` the place of the record, `slot` where it is advertised. */
  datatype Grant = Grant(name: string, i: nat, slot: Lists.Slot)

  datatype Site = Site(fw: Fw.Firewall, world: Policy.World, hostvars: Lists.Hostvars)

  datatype Write = Remove(d: Fw.Delete) | Revoke | RecordStatus | Unlist

  predicate Valid(s: Site, g: Grant) {
    g.i < |s.world.grants|
  }

  /** The grant recorded a source that this run may take off its application. */
  ghost predicate HasSource(s: Site, g: Grant)
    requires Valid(s, g)
  {
    s.world.grants[g.i].application.Some? && Policy.Removable(s.world, g.i) != {}
  }

  function Removes(ds: seq<Fw.Delete>): (r: seq<Write>)
    ensures |r| == |ds| && forall k :: 0 <= k < |r| ==> r[k] == Remove(ds[k])
  {
    seq(|ds|, k requires 0 <= k < |ds| => Remove(ds[k]))
  }

  /** What a run finds to take away. */
  ghost function Takes(s: Site, g: Grant, nodes: seq<Fw.Object>): seq<Write>
    requires Valid(s, g)
  {
    Removes(Fw.WithdrawPlan(s.fw, g.name, nodes)) + if HasSource(s, g) then [Revoke] else []
  }

  ghost function Unlisted(s: Site, g: Grant): Lists.Hostvars {
    Lists.Removed(s.hostvars, g.slot.list, g.slot.sequence)
  }

  /** The writes of `_withdraw`. `nodes` are the objects there are. Only a run that took
      something away goes on to the status and to the advertisement. */
  ghost function Writes(s: Site, g: Grant, nodes: seq<Fw.Object>): seq<Write>
    requires Valid(s, g)
  {
    var takes := Takes(s, g, nodes);
    if takes == [] then []
    else
      takes + (if s.world.grants[g.i].status != Policy.Decommissioned then [RecordStatus] else [])
      + (if Unlisted(s, g) != s.hostvars then [Unlist] else [])
  }

  ghost function Apply(s: Site, g: Grant, w: Write): Site
    requires Valid(s, g) && Policy.Valid(s.world)
  {
    match w
    case Remove(d) => s.(fw := Fw.ApplyDelete(s.fw, d))
    case Revoke => s.(world := Policy.RevokeSource(s.world, g.i))
    case RecordStatus => s.(world := Policy.WithStatus(s.world, g.i, Policy.Decommissioned))
    case Unlist => s.(hostvars := Unlisted(s, g))
  }

  ghost function ApplyAll(s: Site, g: Grant, ws: seq<Write>): (r: Site)
    requires Valid(s, g) && Policy.Valid(s.world)
    ensures Valid(r, g) && Policy.Valid(r.world)
    decreases |ws|
  {
    if ws == [] then s
    else
      var mid := ApplyAll(s, g, ws[..|ws| - 1]);
      StaysValid(mid, g, ws[|ws| - 1]);
      Apply(mid, g, ws[|ws| - 1])
  }

  lemma StaysValid(s: Site, g: Grant, w: Write)
    requires Valid(s, g) && Policy.Valid(s.world)
    ensures Valid(Apply(s, g, w), g) && Policy.Valid(Apply(s, g, w).world)
  {
    assert s.world.grants[g.i] in s.world.grants;
    Policy.Replaced(s.world, g.i, s.world.grants[g.i].(status := Policy.Decommissioned));
  }

  predicate Advertised(s: Site, g: Grant) {
    Lists.Lookup(s.hostvars, g.slot.list, g.slot.sequence).Some?
  }

  /** The query returns exactly the objects there are, each once. */
  ghost predicate Reads(s: Site, nodes: seq<Fw.Object>) {
    && (forall o :: o in s.fw.declared <==> o in nodes)
    && (forall i, j :: 0 <= i < j < |nodes| ==> nodes[i] != nodes[j])
  }

  /** What some writes leave, part by part. */
  lemma {:induction false} Parts(s: Site, g: Grant, ws: seq<Write>)
    requires Valid(s, g) && Policy.Valid(s.world) && Lists.WellFormed(s.hostvars)
    ensures var r := ApplyAll(s, g, ws);
            && Lists.WellFormed(r.hostvars) && (Advertised(r, g) <==> Advertised(s, g) && Unlist !in ws)
            && (forall o :: o in r.fw.declared <==> o in s.fw.declared && Remove(Fw.Drop(o)) !in ws)
            && (RuleLinked(r) <==> RuleLinked(s) && Remove(Fw.DropRule) !in ws)
            && OnlyStatusOf(s, r, g)
    decreases |ws|
  {
    if ws != [] {
      var front, w := ws[..|ws| - 1], ws[|ws| - 1];
      Parts(s, g, front);
      OnePart(ApplyAll(s, g, front), g, w);
      assert ws == front + [w];
    }
  }

  lemma OnePart(s: Site, g: Grant, w: Write)
    requires Valid(s, g) && Policy.Valid(s.world) && Lists.WellFormed(s.hostvars)
    ensures var r := Apply(s, g, w);
            && Lists.WellFormed(r.hostvars) && (Advertised(r, g) <==> Advertised(s, g) && w != Unlist)
            && (forall o :: o in r.fw.declared <==> o in s.fw.declared && w != Remove(Fw.Drop(o)))
            && (RuleLinked(r) <==> RuleLinked(s) && w != Remove(Fw.DropRule))
            && OnlyStatusOf(s, r, g)
  {
    Lists.RemovedMeaning(s.hostvars, g.slot.list, g.slot.sequence);
  }

  predicate RuleLinked(s: Site) {
    s.fw.rule.Some? && s.fw.linked
  }

  /** Of the grants nothing has changed but the status of this one. */
  ghost predicate OnlyStatusOf(s: Site, r: Site, g: Grant) {
    && |r.world.grants| == |s.world.grants|
    && forall k :: 0 <= k < |s.world.grants| ==>
         && r.world.grants[k] == s.world.grants[k].(status := r.world.grants[k].status)
         && (k != g.i ==> r.world.grants[k] == s.world.grants[k])
  }

  lemma RemovableStays(s: Site, r: Site, g: Grant)
    requires Valid(s, g) && OnlyStatusOf(s, r, g)
    ensures Policy.Removable(r.world, g.i) == Policy.Removable(s.world, g.i)
  {
    var mine, mine' := s.world.grants[g.i], r.world.grants[g.i];
    forall p ensures p in Policy.OtherRecords(s.world.grants, mine, mine.application, true)
                     <==> p in Policy.OtherRecords(r.world.grants, mine', mine.application, true)
    {
      if x :| x in s.world.grants && Policy.Sibling(x, mine, mine.application, true) && p in x.recorded {
        var k :| 0 <= k < |s.world.grants| && s.world.grants[k] == x;
        assert r.world.grants[k] == x && x in r.world.grants;
      }
      if x :| x in r.world.grants && Policy.Sibling(x, mine', mine.application, true) && p in x.recorded {
        var k :| 0 <= k < |r.world.grants| && r.world.grants[k] == x;
        assert s.world.grants[k] == x && x in s.world.grants;
      }
    }
  }

  /** A grant's record is not cleared, so its source counts again in every run. */
  lemma SourceStays(s: Site, r: Site, g: Grant)
    requires Valid(s, g) && OnlyStatusOf(s, r, g)
    ensures HasSource(r, g) <==> HasSource(s, g)
  {
    RemovableStays(s, r, g);
  }

  ghost function Finished(s: Site, g: Grant, nodes: seq<Fw.Object>): Site
    requires Valid(s, g) && Policy.Valid(s.world)
  {
    ApplyAll(s, g, Writes(s, g, nodes))
  }

  /** A run that gets through leaves the grant advertised exactly when it was and the run
      found nothing to take away. */
  lemma FinishedLeavesSlotExactly(s: Site, g: Grant, nodes: seq<Fw.Object>)
    requires Valid(s, g) && Policy.Valid(s.world) && Lists.WellFormed(s.hostvars)
    ensures Advertised(Finished(s, g, nodes), g) <==> Advertised(s, g) && Takes(s, g, nodes) == []
  {
    var ws := Writes(s, g, nodes);
    Parts(s, g, ws);
    Lists.RemovedMeaning(s.hostvars, g.slot.list, g.slot.sequence);
    if Advertised(s, g) && Takes(s, g, nodes) != [] {
      assert Unlisted(s, g) != s.hostvars && ws[|ws| - 1] == Unlist;
    }
  }

  /** The site after runs that are cut off, each after some number of its writes. */
  ghost function CutOffs(s: Site, g: Grant, cuts: seq<(nat, seq<Fw.Object>)>): (r: Site)
    requires Valid(s, g) && Policy.Valid(s.world)
    ensures Valid(r, g) && Policy.Valid(r.world)
    decreases |cuts|
  {
    if cuts == [] then s
    else
      var mid := CutOffs(s, g, cuts[..|cuts| - 1]);
      var (k, nodes) := cuts[|cuts| - 1];
      var ws := Writes(mid, g, nodes);
      ApplyAll(mid, g, if k < |ws| then ws[..k] else ws)
  }

  lemma {:induction false} CutOffsKeep(s: Site, g: Grant, cuts: seq<(nat, seq<Fw.Object>)>)
    requires Valid(s, g) && Policy.Valid(s.world) && Lists.WellFormed(s.hostvars)
    ensures var r := CutOffs(s, g, cuts); Lists.WellFormed(r.hostvars) && OnlyStatusOf(s, r, g)
    ensures Advertised(CutOffs(s, g, cuts), g) ==> Advertised(s, g)
    decreases |cuts|
  {
    if cuts != [] {
      CutOffsKeep(s, g, cuts[..|cuts| - 1]);
      var mid := CutOffs(s, g, cuts[..|cuts| - 1]);
      var (k, nodes) := cuts[|cuts| - 1];
      var ws := Writes(mid, g, nodes);
      Parts(mid, g, if k < |ws| then ws[..k] else ws);
    }
  }

  /** When the grant recorded a source of its own, then whatever runs were cut off before,
      a run that gets through clears the slot. */
  lemma SourceClearsSlot(s: Site, g: Grant, cuts: seq<(nat, seq<Fw.Object>)>, nodes: seq<Fw.Object>)
    requires Valid(s, g) && Policy.Valid(s.world) && Lists.WellFormed(s.hostvars) && HasSource(s, g)
    ensures !Advertised(Finished(CutOffs(s, g, cuts), g, nodes), g)
  {
    var mid := CutOffs(s, g, cuts);
    CutOffsKeep(s, g, cuts);
    SourceStays(s, mid, g);
    FinishedLeavesSlotExactly(mid, g, nodes);
    assert Revoke in Takes(mid, g, nodes);
  }

  predicate Once(ds: seq<Fw.Delete>) {
    forall i, j :: 0 <= i < j < |ds| ==> ds[i] != ds[j]
  }

  lemma OnceMore(ds: seq<Fw.Delete>, d: Fw.Delete)
    requires Once(ds) && d !in ds
    ensures Once(ds + [d])
  {
  }

  lemma {:induction false} DoomedOnce(grant: string, nodes: seq<Fw.Object>)
    requires forall i, j :: 0 <= i < j < |nodes| ==> nodes[i] != nodes[j]
    ensures Once(Fw.DoomedOf(grant, nodes))
    decreases |nodes|
  {
    if nodes != [] {
      var front, last := nodes[..|nodes| - 1], nodes[|nodes| - 1];
      DoomedOnce(grant, front);
      Fw.DoomedOfOnly(grant, front, last);
      assert last !in front;
      OnceMore(Fw.DoomedOf(grant, front), Fw.Drop(last));
      assert Fw.DoomedOf(grant, front) + [] == Fw.DoomedOf(grant, front);
    }
  }

  /** After the first `k` deletes of a run the next one finds something exactly when the
      first had more to delete. */
  lemma DeletesLeft(s: Site, r: Site, g: Grant, nodes: seq<Fw.Object>, nodes': seq<Fw.Object>, ws: seq<Write>, k: nat)
    requires Valid(s, g) && Policy.Valid(s.world) && Lists.WellFormed(s.hostvars) && r == ApplyAll(s, g, ws)
    requires Reads(s, nodes) && Reads(r, nodes')
    requires var ds := Fw.WithdrawPlan(s.fw, g.name, nodes);
             && (k <= |ds| ==> forall d :: Remove(d) in ws <==> d in ds[..k])
             && (k > |ds| ==> forall d :: Remove(d) in ws <==> d in ds)
    ensures Fw.WithdrawPlan(r.fw, g.name, nodes') == [] <==> k >= |Fw.WithdrawPlan(s.fw, g.name, nodes)|
  {
    var ds := Fw.WithdrawPlan(s.fw, g.name, nodes);
    Parts(s, g, ws);
    Fw.DoomedOfAre(g.name, nodes);
    Fw.DoomedOfAre(g.name, nodes');
    if k < |ds| {
      NextIsLeft(s, g, nodes, k);
      assert !(Remove(ds[k]) in ws);
      match ds[k]
      case DropRule => assert RuleLinked(r);
      case Drop(o) =>
        Fw.DoomedOfOnly(g.name, nodes, o);
        assert o in nodes' && Fw.Drop(o) in Fw.DoomedOf(g.name, nodes');
    } else {
      assert ds[..|ds|] == ds;
      assert RuleLinked(s) ==> ds[0] == Fw.DropRule && Fw.DropRule in ds;
      forall o | o in nodes' ensures !Fw.Doomed(g.name, o) {
        assert o in nodes && Fw.Doomed(g.name, o) ==> Fw.Drop(o) in ds;
      }
      if Fw.DoomedOf(g.name, nodes') != [] {
        var d := Fw.DoomedOf(g.name, nodes')[0];
        Fw.DoomedOfOnly(g.name, nodes', d.o);
      }
    }
  }

  lemma NextIsLeft(s: Site, g: Grant, nodes: seq<Fw.Object>, k: nat)
    requires Reads(s, nodes) && k < |Fw.WithdrawPlan(s.fw, g.name, nodes)|
    ensures var ds := Fw.WithdrawPlan(s.fw, g.name, nodes); ds[k] !in ds[..k]
    ensures var ds := Fw.WithdrawPlan(s.fw, g.name, nodes); ds[k].Drop? ==> ds[k] in Fw.DoomedOf(g.name, nodes)
    ensures var ds := Fw.WithdrawPlan(s.fw, g.name, nodes); ds[k].DropRule? ==> RuleLinked(s)
  {
    DoomedOnce(g.name, nodes);
    Fw.DoomedOfAre(g.name, nodes);
    var ds, rest := Fw.WithdrawPlan(s.fw, g.name, nodes), Fw.DoomedOf(g.name, nodes);
    var start := if RuleLinked(s) then 1 else 0;
    assert forall j :: start <= j < |ds| ==> ds[j] == rest[j - start] && rest[j - start] in rest;
    forall j | 0 <= j < k ensures ds[j] != ds[k] {
      if j >= start { assert rest[j - start] != rest[k - start]; }
    }
  }

  // --- For good --------------------------------------------------------------------------------

  /** The site after runs that get through, each reading the objects there are by then. */
  ghost function AfterRuns(s: Site, g: Grant, views: seq<seq<Fw.Object>>): (r: Site)
    requires Valid(s, g) && Policy.Valid(s.world)
    ensures Valid(r, g) && Policy.Valid(r.world)
    decreases |views|
  {
    if views == [] then s else AfterRuns(Finished(s, g, views[0]), g, views[1..])
  }

  ghost predicate ReadsEach(s: Site, g: Grant, views: seq<seq<Fw.Object>>)
    requires Valid(s, g) && Policy.Valid(s.world)
    decreases |views|
  {
    views != [] ==> Reads(s, views[0]) && ReadsEach(Finished(s, g, views[0]), g, views[1..])
  }

  /** What a run finds does not depend on the order in which the objects are read. */
  lemma TakesNothingAnyway(s: Site, g: Grant, nodes: seq<Fw.Object>, nodes': seq<Fw.Object>)
    requires Valid(s, g) && Reads(s, nodes) && Reads(s, nodes')
    ensures Takes(s, g, nodes) == [] ==> Takes(s, g, nodes') == []
  {
    Fw.DoomedOfAre(g.name, nodes);
    Fw.DoomedOfAre(g.name, nodes');
    var ds, ds' := Fw.DoomedOf(g.name, nodes), Fw.DoomedOf(g.name, nodes');
    if ds' != [] {
      assert ds'[0] in ds';
      Fw.DoomedOfOnly(g.name, nodes', ds'[0].o);
      assert ds'[0].o in nodes && ds'[0] in ds;
    }
  }

  /** A run that finds nothing leaves everything as it is, and so do all after it. */
  lemma {:induction false} NothingForGood(s: Site, g: Grant, nodes: seq<Fw.Object>, views: seq<seq<Fw.Object>>)
    requires Valid(s, g) && Policy.Valid(s.world) && Reads(s, nodes) && Takes(s, g, nodes) == [] && ReadsEach(s, g, views)
    ensures AfterRuns(s, g, views) == s
    decreases |views|
  {
    if views != [] {
      TakesNothingAnyway(s, g, nodes, views[0]);
      assert Finished(s, g, views[0]) == s;
      NothingForGood(s, g, nodes, views[1..]);
    }
  }

  lemma {:induction false} ClearedForGood(s: Site, g: Grant, views: seq<seq<Fw.Object>>)
    requires Valid(s, g) && Policy.Valid(s.world) && Lists.WellFormed(s.hostvars) && !Advertised(s, g)
    ensures !Advertised(AfterRuns(s, g, views), g)
    decreases |views|
  {
    if views != [] {
      Parts(s, g, Writes(s, g, views[0]));
      ClearedForGood(Finished(s, g, views[0]), g, views[1..]);
    }
  }

  /** Over any number of runs that get through, at least one: the grant is still advertised
      exactly when it was and the first of them found nothing to take away. */
  lemma RunsLeaveSlotExactly(s: Site, g: Grant, views: seq<seq<Fw.Object>>)
    requires Valid(s, g) && Policy.Valid(s.world) && Lists.WellFormed(s.hostvars) && views != [] && ReadsEach(s, g, views)
    ensures Advertised(AfterRuns(s, g, views), g) <==> Advertised(s, g) && Takes(s, g, views[0]) == []
  {
    FinishedLeavesSlotExactly(s, g, views[0]);
    var mid := Finished(s, g, views[0]);
    if Takes(s, g, views[0]) == [] {
      assert mid == s;
      NothingForGood(s, g, views[0], views[1..]);
    } else {
      Parts(s, g, Writes(s, g, views[0]));
      ClearedForGood(mid, g, views[1..]);
    }
  }

  /** The exact case, for a run cut off after `k` writes and any number that get through: the
      grant stays advertised for good exactly when it was advertised, it has no source to
      revoke, and there was nothing to take away from the start or the first run took it
      all away and was cut off before it reached the advertisement. */
  lemma CutOffLeavesSlotExactly(s: Site, g: Grant, nodes: seq<Fw.Object>, k: nat, views: seq<seq<Fw.Object>>)
    requires Valid(s, g) && Policy.Valid(s.world) && Lists.WellFormed(s.hostvars) && k <= |Writes(s, g, nodes)|
    requires Reads(s, nodes) && views != [] && ReadsEach(ApplyAll(s, g, Writes(s, g, nodes)[..k]), g, views)
    ensures Advertised(AfterRuns(ApplyAll(s, g, Writes(s, g, nodes)[..k]), g, views), g) <==>
            && Advertised(s, g) && !HasSource(s, g)
            && (Takes(s, g, nodes) == [] || |Takes(s, g, nodes)| <= k < |Writes(s, g, nodes)|)
  {
    var ws := Writes(s, g, nodes);
    var takes, ds, done := Takes(s, g, nodes), Fw.WithdrawPlan(s.fw, g.name, nodes), ws[..k];
    var mid := ApplyAll(s, g, done);
    Parts(s, g, done);
    SourceStays(s, mid, g);
    RunsLeaveSlotExactly(mid, g, views);
    if !HasSource(s, g) {
      assert takes == Removes(ds);
      RemovesDone(s, g, nodes, k);
      DeletesLeft(s, mid, g, nodes, views[0], done, k);
      if Advertised(s, g) { UnlistDone(s, g, nodes, k); }
    }
  }

  /** So many runs that all find the same objects. */
  function Each(nodes: seq<Fw.Object>, n: nat): seq<seq<Fw.Object>> {
    seq(n, i => nodes)
  }

  function OneEntry(name: string): Fw.Object {
    Fw.HostEntry(GrantNames.VipEntryName(name))
  }

  /** A grant that recorded no source and has one object left, on any switch. */
  function OneObject(name: string, hostvars: Lists.Hostvars): Site {
    Site(Fw.Firewall(map[OneEntry(name) := Fw.Wraps("vip")], None, false, {}),
         Policy.World(map["app" := {}], [Policy.Grant("g", Some("app"), Policy.Decommissioning, {})]),
         hostvars)
  }

  /** It does happen: that grant, where it is advertised, withdrawn by a run cut off after
      its one delete, is advertised after any number of further runs. */
  lemma CutOffLeavesASlot(name: string, slot: Lists.Slot, hostvars: Lists.Hostvars, n: nat)
    requires Lists.WellFormed(hostvars) && Lists.Lookup(hostvars, slot.list, slot.sequence).Some?
    ensures var s, g := OneObject(name, hostvars), Grant(name, 0, slot);
            && Valid(s, g) && Policy.Valid(s.world) && Reads(s, [OneEntry(name)])
            && Takes(s, g, [OneEntry(name)]) == [Remove(Fw.Drop(OneEntry(name)))]
            && var mid := ApplyAll(s, g, Writes(s, g, [OneEntry(name)])[..1]);
               && ReadsEach(mid, g, Each([], n)) && Advertised(AfterRuns(mid, g, Each([], n)), g)
  {
    var s, g, o := OneObject(name, hostvars), Grant(name, 0, slot), OneEntry(name);
    assert [o][..0] == [] && Fw.DoomedOf(name, [o]) == [Fw.Drop(o)];
    assert s.world.grants[0].recorded == {} && Policy.Removable(s.world, 0) == {};
    var ws := Writes(s, g, [o]);
    assert ws[..1] == [Remove(Fw.Drop(o))];
    var mid := ApplyAll(s, g, ws[..1]);
    Parts(s, g, ws[..1]);
    SourceStays(s, mid, g);
    assert Takes(mid, g, []) == [] && Reads(mid, []);
    QuietThroughout(mid, g, [], Each([], n));
    NothingForGood(mid, g, [], Each([], n));
  }

  lemma {:induction false} QuietThroughout(s: Site, g: Grant, nodes: seq<Fw.Object>, views: seq<seq<Fw.Object>>)
    requires Valid(s, g) && Policy.Valid(s.world) && Reads(s, nodes) && Takes(s, g, nodes) == []
    requires forall i :: 0 <= i < |views| ==> views[i] == nodes
    ensures ReadsEach(s, g, views)
    decreases |views|
  {
    if views != [] {
      QuietRun(s, g, views[0]);
      QuietThroughout(s, g, nodes, views[1..]);
    }
  }

  lemma QuietRun(s: Site, g: Grant, nodes: seq<Fw.Object>)
    requires Valid(s, g) && Policy.Valid(s.world) && Takes(s, g, nodes) == []
    ensures Finished(s, g, nodes) == s
  {
  }

  lemma RemovesDone(s: Site, g: Grant, nodes: seq<Fw.Object>, k: nat)
    requires Valid(s, g) && k <= |Writes(s, g, nodes)|
    ensures var ds, done := Fw.WithdrawPlan(s.fw, g.name, nodes), Writes(s, g, nodes)[..k];
            && (k <= |ds| ==> forall d :: Remove(d) in done <==> d in ds[..k])
            && (k > |ds| ==> forall d :: Remove(d) in done <==> d in ds)
  {
    var ds, ws := Fw.WithdrawPlan(s.fw, g.name, nodes), Writes(s, g, nodes);
    assert ds != [] ==> forall j :: 0 <= j < |ds| ==> ws[j] == Remove(ds[j]);
    assert forall j :: |ds| <= j < |ws| ==> !ws[j].Remove?;
    FirstOnes(ds, ws, k, if k <= |ds| then k else |ds|);
    assert ds[..|ds|] == ds;
  }

  lemma FirstOnes(ds: seq<Fw.Delete>, ws: seq<Write>, k: nat, n: nat)
    requires n <= |ds| <= |ws| && k <= |ws| && n == if k <= |ds| then k else |ds|
    requires forall j :: 0 <= j < |ds| ==> ws[j] == Remove(ds[j])
    requires forall j :: |ds| <= j < |ws| ==> !ws[j].Remove?
    ensures forall d :: Remove(d) in ws[..k] <==> d in ds[..n]
  {
    forall d | d in ds[..n] ensures Remove(d) in ws[..k] {
      var j :| 0 <= j < n && ds[j] == d;
      assert ws[..k][j] == Remove(d);
    }
    forall d | Remove(d) in ws[..k] ensures d in ds[..n] {
      var j :| 0 <= j < k && ws[j] == Remove(d);
      assert j < n && ds[..n][j] == d;
    }
  }

  lemma UnlistDone(s: Site, g: Grant, nodes: seq<Fw.Object>, k: nat)
    requires Valid(s, g) && Lists.WellFormed(s.hostvars) && k <= |Writes(s, g, nodes)| && Advertised(s, g)
    ensures var ws := Writes(s, g, nodes); Unlist in ws[..k] <==> k == |ws| && ws != []
  {
    var ws := Writes(s, g, nodes);
    UnlistComesLast(s, g, nodes, ws);
    if k == |ws| != 0 { assert ws[..k][k - 1] == Unlist; }
  }

  lemma UnlistComesLast(s: Site, g: Grant, nodes: seq<Fw.Object>, ws: seq<Write>)
    requires Valid(s, g) && Lists.WellFormed(s.hostvars) && Advertised(s, g) && ws == Writes(s, g, nodes)
    ensures forall j :: 0 <= j < |ws| ==> (ws[j] == Unlist <==> j == |ws| - 1)
  {
    Lists.RemovedMeaning(s.hostvars, g.slot.list, g.slot.sequence);
    assert Unlisted(s, g) != s.hostvars;
    var takes := Takes(s, g, nodes);
    assert forall j :: 0 <= j < |takes| ==> takes[j] != Unlist;
  }

  // --- All of it ----------------------------------------------------------------------------------

  /** The permitted sources after some writes: as they were, or without the grant's own. */
  lemma {:induction false} SourcesPart(s: Site, g: Grant, ws: seq<Write>)
    requires Valid(s, g) && Policy.Valid(s.world) && Lists.WellFormed(s.hostvars)
    ensures ApplyAll(s, g, ws).world.allowed == if Revoke in ws then Policy.RevokeSource(s.world, g.i).allowed else s.world.allowed
    decreases |ws|
  {
    if ws != [] {
      var front, w := ws[..|ws| - 1], ws[|ws| - 1];
      var mid := ApplyAll(s, g, front);
      SourcesPart(s, g, front);
      Parts(s, g, front);
      RemovableStays(s, mid, g);
      assert ws == front + [w];
      if w == Revoke { RevokedTwice(s, mid, g); }
    }
  }

  lemma RevokedTwice(s: Site, r: Site, g: Grant)
    requires Valid(s, g) && Policy.Valid(s.world) && Policy.Valid(r.world) && OnlyStatusOf(s, r, g)
    requires Policy.Removable(r.world, g.i) == Policy.Removable(s.world, g.i)
    requires r.world.allowed == s.world.allowed || r.world.allowed == Policy.RevokeSource(s.world, g.i).allowed
    ensures Policy.RevokeSource(r.world, g.i).allowed == Policy.RevokeSource(s.world, g.i).allowed
  {
    assert s.world.grants[g.i] in s.world.grants;
    var gone := Policy.Removable(s.world, g.i);
    if s.world.grants[g.i].application.Some? {
      var a := s.world.grants[g.i].application.value;
      assert s.world.allowed[a] - gone - gone == s.world.allowed[a] - gone;
    }
  }

  /** What the application of the grant permits, if it has one. */
  function PermittedFor(s: Site, g: Grant): set<Policy.PrefixId>
    requires Valid(s, g)
  {
    match s.world.grants[g.i].application
    case None => {}
    case Some(a) => if a in s.world.allowed then s.world.allowed[a] else {}
  }

  /** A withdrawal that gets through leaves no linked rule, no generated object and none of
      the sources only this grant recorded; it leaves the slot only when it found nothing
      of all that; and everything else is as it was: the other objects, the other sources
      and applications, the other grants and all the other slots. */
  lemma WithdrawalTakesAll(s: Site, g: Grant, nodes: seq<Fw.Object>)
    requires Valid(s, g) && Policy.Valid(s.world) && Lists.WellFormed(s.hostvars) && Reads(s, nodes)
    ensures var r := Finished(s, g, nodes);
            && !RuleLinked(r)
            && (forall o :: o in r.fw.declared <==> o in s.fw.declared && !Fw.Doomed(g.name, o))
            && PermittedFor(r, g) == PermittedFor(s, g) - Policy.Removable(s.world, g.i)
            && (Advertised(r, g) <==> Advertised(s, g) && Takes(s, g, nodes) == [])
            && (forall a :: a in s.world.allowed && s.world.grants[g.i].application != Some(a) ==>
                  a in r.world.allowed && r.world.allowed[a] == s.world.allowed[a])
            && OnlyStatusOf(s, r, g)
            && (forall l, t :: (l, t) != (g.slot.list, g.slot.sequence) ==>
                  Lists.Lookup(r.hostvars, l, t) == Lists.Lookup(s.hostvars, l, t))
  {
    var ws := Writes(s, g, nodes);
    Parts(s, g, ws);
    SourcesPart(s, g, ws);
    FinishedLeavesSlotExactly(s, g, nodes);
    RemovesAll(s, g, nodes);
    RevokesAll(s, g, nodes);
    OtherSlots(s, g, ws);
  }

  lemma RemovesAll(s: Site, g: Grant, nodes: seq<Fw.Object>)
    requires Valid(s, g) && Reads(s, nodes)
    ensures var ws := Writes(s, g, nodes);
            && (RuleLinked(s) ==> Remove(Fw.DropRule) in ws)
            && (forall o :: o in s.fw.declared ==> (Remove(Fw.Drop(o)) in ws <==> Fw.Doomed(g.name, o)))
  {
    var ds, ws := Fw.WithdrawPlan(s.fw, g.name, nodes), Writes(s, g, nodes);
    RemovesDone(s, g, nodes, |ws|);
    assert ws[..|ws|] == ws && ds[..|ds|] == ds;
    assert |ws| >= |ds|;
    Fw.DoomedOfAre(g.name, nodes);
    if RuleLinked(s) { assert ds[0] == Fw.DropRule; }
    forall o | o in s.fw.declared ensures Remove(Fw.Drop(o)) in ws <==> Fw.Doomed(g.name, o) {
      Fw.DoomedOfOnly(g.name, nodes, o);
      assert Remove(Fw.Drop(o)) in ws <==> Fw.Drop(o) in ds;
    }
  }

  lemma RevokesAll(s: Site, g: Grant, nodes: seq<Fw.Object>)
    requires Valid(s, g)
    ensures Revoke in Writes(s, g, nodes) <==> HasSource(s, g)
  {
    if HasSource(s, g) {
      assert Revoke in Takes(s, g, nodes);
    }
  }

  lemma {:induction false} OtherSlots(s: Site, g: Grant, ws: seq<Write>)
    requires Valid(s, g) && Policy.Valid(s.world) && Lists.WellFormed(s.hostvars)
    ensures forall l, t :: (l, t) != (g.slot.list, g.slot.sequence) ==>
              Lists.Lookup(ApplyAll(s, g, ws).hostvars, l, t) == Lists.Lookup(s.hostvars, l, t)
    decreases |ws|
  {
    if ws != [] {
      var front := ws[..|ws| - 1];
      OtherSlots(s, g, front);
      Parts(s, g, front);
      Lists.RemovedMeaning(ApplyAll(s, g, front).hostvars, g.slot.list, g.slot.sequence);
    }
  }

  /** This grant recorded the source, and of the others on its application only withdrawn ones. */
  ghost predicate Sole(s: Site, g: Grant, p: Policy.PrefixId)
    requires Valid(s, g)
  {
    var mine := s.world.grants[g.i];
    && mine.application.Some? && p in mine.recorded
    && forall x :: x in s.world.grants && x.id != mine.id && x.application == mine.application && p in x.recorded ==>
         x.status == Policy.Decommissioning || x.status == Policy.Decommissioned
  }

  /** The names written out: what a run finds is a linked rule, an object with a generated
      name, or a source that this grant recorded and no other live one on its application. */
  lemma FindsExactly(s: Site, g: Grant, nodes: seq<Fw.Object>)
    requires Valid(s, g) && Reads(s, nodes)
    ensures Takes(s, g, nodes) != [] <==>
            || (s.fw.rule.Some? && s.fw.linked)
            || (exists o :: o in s.fw.declared &&
                  if o.Service? then "svc-" + g.name + "-tcp-" <= o.name else o.name == "svc-" + g.name + "-vip")
            || (exists p :: Sole(s, g, p))
  {
    var ds := Fw.WithdrawPlan(s.fw, g.name, nodes);
    Fw.DoomedOfAre(g.name, nodes);
    GrantNames.NamesAre(g.name, 0);
    if !RuleLinked(s) && ds != [] {
      assert ds[0] in ds;
      Fw.DoomedOfOnly(g.name, nodes, ds[0].o);
    }
    if o :| o in s.fw.declared && Fw.Doomed(g.name, o) { assert Fw.Drop(o) in ds; }
    SoleIsRemovable(s, g);
  }

  lemma SoleIsRemovable(s: Site, g: Grant)
    requires Valid(s, g)
    ensures HasSource(s, g) <==> exists p :: Sole(s, g, p)
  {
    var mine := s.world.grants[g.i];
    forall p ensures mine.application.Some? && p in Policy.Removable(s.world, g.i) <==> Sole(s, g, p) {
      if mine.application.Some? && p in Policy.Removable(s.world, g.i) {
        forall x | x in s.world.grants && x.id != mine.id && x.application == mine.application && p in x.recorded
          ensures x.status == Policy.Decommissioning || x.status == Policy.Decommissioned
        {
          assert !Policy.Sibling(x, mine, mine.application, true);
        }
      }
    }
  }

  /** The status goes last of all that was found, and only then. */
  lemma {:induction false} StatusAfter(s: Site, g: Grant, ws: seq<Write>)
    requires Valid(s, g) && Policy.Valid(s.world)
    ensures ApplyAll(s, g, ws).world.grants[g.i].status
            == if RecordStatus in ws then Policy.Decommissioned else s.world.grants[g.i].status
    decreases |ws|
  {
    if ws != [] {
      var front, w := ws[..|ws| - 1], ws[|ws| - 1];
      StatusAfter(s, g, front);
      assert ws == front + [w];
    }
  }

  /** A withdrawal that gets through, with the names written out: of what was declared only
      the generated names go, and the grant ends Decommissioned if there was anything to
      take away, as it was if there was nothing. */
  lemma WithdrawalByName(s: Site, g: Grant, nodes: seq<Fw.Object>, o: Fw.Object)
    requires Valid(s, g) && Policy.Valid(s.world) && Lists.WellFormed(s.hostvars) && Reads(s, nodes)
    ensures var r := Finished(s, g, nodes);
            && (o in r.fw.declared <==>
                  && o in s.fw.declared
                  && !(if o.Service? then "svc-" + g.name + "-tcp-" <= o.name else o.name == "svc-" + g.name + "-vip"))
            && r.world.grants[g.i].status ==
               (if Takes(s, g, nodes) != [] then Policy.Decommissioned else s.world.grants[g.i].status)
  {
    WithdrawalTakesAll(s, g, nodes);
    GrantNames.NamesAre(g.name, 0);
    StatusAfter(s, g, Writes(s, g, nodes));
    StatusIsWritten(s, g, nodes);
  }

  lemma StatusIsWritten(s: Site, g: Grant, nodes: seq<Fw.Object>)
    requires Valid(s, g)
    ensures RecordStatus in Writes(s, g, nodes)
            <==> Takes(s, g, nodes) != [] && s.world.grants[g.i].status != Policy.Decommissioned
  {
    var takes, ws := Takes(s, g, nodes), Writes(s, g, nodes);
    assert forall k :: 0 <= k < |takes| ==> takes[k] != RecordStatus;
    if takes != [] && s.world.grants[g.i].status != Policy.Decommissioned { assert ws[|takes|] == RecordStatus; }
  }
}
