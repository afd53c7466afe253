/** The life of an application: its catalogue pin, its VIP block and its status. A run
    may raise at any remote operation, and may crash between any two writes. */
module FabricApp {
  import opened Options

  type AppId = string
  type PrefixId = string
  type EntryId = string

  datatype Status = Provisioning | Active | Error | Decommissioning | Decommissioned

  datatype Chart = Chart(repository: Option<string>, name: Option<string>, version: Option<string>)

  /** A catalogue entry. An empty or absent text is `None`. */
  datatype Entry = Entry(chart: Chart, values: Option<string>, selector: seq<string>, services: set<string>, egress: bool)

  datatype App = App(
    name: string, status: Status, exposed: bool,
    block: Option<PrefixId>, managed: bool,
    definition: Option<EntryId>, pinned: bool, namespace: string,
    chart: Chart, values: Option<string>, selector: seq<string>, services: set<string>, egress: bool)

  /** `reserved` is the pool's memory of which prefix it gave to which application id. */
  datatype World = World(
    apps: map<AppId, App>, prefixes: set<PrefixId>, reserved: map<AppId, PrefixId>, catalogue: map<EntryId, Entry>)

  /** The remote operations of a run that can raise. */
  datatype Op = FetchEntry | AttachFile | SaveService | Validate | ClearReference | DeletePrefix | PoolAllocate | SaveReference | SaveStatus

  datatype Write =
    | AttachValues(content: string)
    | DefaultNamespace
    | Pin(entry: Entry)
    | ClearBlock
    | Delete(prefix: PrefixId)
    | Allocate(prefix: PrefixId)
    | TakeBlock(prefix: PrefixId)
    | SetStatus(status: Status)

  /** What some stage of a run writes, and whether it then raises. */
  datatype Stage = Stage(writes: seq<Write>, raised: bool)

  predicate IsWithdrawn(app: App) {
    app.status == Decommissioning || app.status == Decommissioned
  }

  predicate WantsABlock(app: App) {
    app.exposed && !IsWithdrawn(app)
  }

  // --- The pool a block comes from --------------------------------------------------------

  datatype PoolNode = PoolNode(id: string, resources: set<PrefixId>)

  predicate DrawsFrom(pool: PoolNode, supernets: set<PrefixId>) {
    pool.resources * supernets != {}
  }

  function Candidates(pools: seq<PoolNode>, supernets: set<PrefixId>): (r: seq<string>) {
    if pools == [] then []
    else (if DrawsFrom(pools[0], supernets) then [pools[0].id] else []) + Candidates(pools[1..], supernets)
  }

  /** `resolve_vip_pool`. `None` stands for a missing cluster, and for an error raised. */
  function ResolveVipPool(pools: seq<PoolNode>, supernets: Option<set<PrefixId>>): (r: Option<string>) {
    if supernets.None? || supernets.value == {} then None
    else
      var candidates := Candidates(pools, supernets.value);
      if |candidates| != 1 then None else Some(candidates[0])
  }

  /** The `i`th pool is the only one of the list that draws from the supernets. */
  predicate OnlyDrawer(pools: seq<PoolNode>, supernets: set<PrefixId>, i: nat) {
    && i < |pools| && DrawsFrom(pools[i], supernets)
    && forall j :: 0 <= j < |pools| && DrawsFrom(pools[j], supernets) ==> j == i
  }

  lemma {:induction false} CandidatesAre(pools: seq<PoolNode>, supernets: set<PrefixId>)
    ensures Candidates(pools, supernets) == [] <==> forall j :: 0 <= j < |pools| ==> !DrawsFrom(pools[j], supernets)
    ensures |Candidates(pools, supernets)| == 1 <==> exists i: nat :: OnlyDrawer(pools, supernets, i)
    ensures forall i: nat :: OnlyDrawer(pools, supernets, i) ==> Candidates(pools, supernets) == [pools[i].id]
  {
    if pools != [] {
      CandidatesAre(pools[1..], supernets);
      if DrawsFrom(pools[0], supernets) {
        assert Candidates(pools[1..], supernets) == [] <==> OnlyDrawer(pools, supernets, 0);
      } else {
        forall i: nat ensures OnlyDrawer(pools, supernets, i) <==> i > 0 && OnlyDrawer(pools[1..], supernets, i - 1) {
        }
        if |Candidates(pools[1..], supernets)| == 1 {
          var i: nat :| OnlyDrawer(pools[1..], supernets, i);
          assert OnlyDrawer(pools, supernets, i + 1);
        }
      }
    }
  }

  /** A pool is named exactly when one pool, and no second, draws from the supernets. */
  lemma PoolIsUnique(pools: seq<PoolNode>, supernets: Option<set<PrefixId>>)
    ensures ResolveVipPool(pools, supernets).Some? <==>
            supernets.Some? && exists i: nat ::
              && i < |pools| && pools[i].resources * supernets.value != {}
              && forall j :: 0 <= j < |pools| && j != i ==> pools[j].resources * supernets.value == {}
    ensures forall i: nat ::
              (&& supernets.Some? && i < |pools| && pools[i].resources * supernets.value != {}
               && forall j :: 0 <= j < |pools| && j != i ==> pools[j].resources * supernets.value == {})
              ==> ResolveVipPool(pools, supernets) == Some(pools[i].id)
  {
    if supernets.Some? {
      CandidatesAre(pools, supernets.value);
      forall i: nat
        ensures OnlyDrawer(pools, supernets.value, i) <==>
                && i < |pools| && pools[i].resources * supernets.value != {}
                && forall j :: 0 <= j < |pools| && j != i ==> pools[j].resources * supernets.value == {}
      {
      }
    }
  }

  // --- One run --------------------------------------------------------------------------

  function SaveIf(needed: bool, w: Write, op: Op, fails: set<Op>): Stage {
    if !needed then Stage([], false)
    else if op in fails then Stage([], true)
    else Stage([w], false)
  }

  function Then(first: Stage, second: Stage): Stage {
    Stage(first.writes + second.writes, second.raised)
  }

  /** `_attach_values`: nothing is saved when the file already holds the entry's values. */
  function AttachStage(app: App, entry: Entry, fails: set<Op>): Stage {
    match entry.values
    case None => Stage([], false)
    case Some(content) => SaveIf(entry.values != app.values, AttachValues(content), AttachFile, fails)
  }

  /** `_pin_definition`. The values file is attached before the save that sets the marker. */
  function PinStage(w: World, a: AppId, fails: set<Op>): Stage
    requires a in w.apps
  {
    var app := w.apps[a];
    var defaulted := app.namespace == "";
    if app.definition.None? then
      if app.chart.name.None? then Stage([], true) else SaveIf(defaulted, DefaultNamespace, SaveService, fails)
    else if app.pinned then SaveIf(defaulted, DefaultNamespace, SaveService, fails)
    else if FetchEntry in fails || app.definition.value !in w.catalogue then Stage([], true)
    else
      var entry := w.catalogue[app.definition.value];
      var attach := AttachStage(app, entry, fails);
      if attach.raised then attach
      else
        var pin := SaveIf(true, Pin(entry), SaveService, fails);
        Stage(attach.writes + pin.writes, pin.raised)
  }

  /** `_withdraw`: only a block the generator took; the reference goes first. */
  function WithdrawStage(block: Option<PrefixId>, managed: bool, fails: set<Op>): Stage {
    if block.None? || !managed then Stage([], false)
    else if ClearReference in fails then Stage([], true)
    else if DeletePrefix in fails then Stage([ClearBlock], true)
    else Stage([ClearBlock, Delete(block.value)], false)
  }

  /** The pool's answer: what it reserved for this id before, else a new prefix. */
  function PoolAnswer(w: World, a: AppId, fresh0: PrefixId): PrefixId {
    if a in w.reserved then w.reserved[a] else fresh0
  }

  /** `validate_model` and `_allocate`. */
  function AllocateStage(w: World, a: AppId, fails: set<Op>, fresh0: PrefixId): Stage {
    var p := PoolAnswer(w, a, fresh0);
    if Validate in fails || PoolAllocate in fails then Stage([], true)
    else if SaveReference in fails then Stage([Allocate(p)], true)
    else Stage([Allocate(p), TakeBlock(p)], false)
  }

  /** `_set_status`: nothing is saved when the status is already there. */
  function StatusStage(now: Status, status: Status, fails: set<Op>): Stage {
    SaveIf(now != status, SetStatus(status), SaveStatus, fails)
  }

  /** What a run that gets through records. */
  function Target(app: App): Status {
    if IsWithdrawn(app) then Decommissioned else Active
  }

  /** A withdrawn application is not pinned. */
  function PinPart(w: World, a: AppId, fails: set<Op>): Stage
    requires a in w.apps
  {
    if IsWithdrawn(w.apps[a]) then Stage([], false) else PinStage(w, a, fails)
  }

  function TakeBackStage(app: App, fails: set<Op>): Stage {
    var withdraw := WithdrawStage(app.block, app.managed, fails);
    var record := StatusStage(app.status, Target(app), fails);
    if withdraw.raised then withdraw else Then(withdraw, record)
  }

  function GiveStage(w: World, a: AppId, app: App, fails: set<Op>, fresh0: PrefixId): Stage {
    var allocate := AllocateStage(w, a, fails, fresh0);
    var record := StatusStage(app.status, if allocate.raised then Error else Active, fails);
    if allocate.raised then Stage(Then(allocate, record).writes, true) else Then(allocate, record)
  }

  function AfterPin(w: World, a: AppId, app: App, fails: set<Op>, fresh0: PrefixId): Stage {
    if !WantsABlock(app) then TakeBackStage(app, fails)
    else if app.block.Some? then StatusStage(app.status, Active, fails)
    else GiveStage(w, a, app, fails, fresh0)
  }

  /** What follows the pin, or its failure. */
  function RestStage(w: World, a: AppId, fails: set<Op>, fresh0: PrefixId): Stage
    requires a in w.apps
  {
    var app := w.apps[a];
    if PinPart(w, a, fails).raised then Stage(StatusStage(app.status, Error, fails).writes, true)
    else AfterPin(w, a, app, fails, fresh0)
  }

  function Rest(w: World, a: AppId, fails: set<Op>, fresh0: PrefixId): seq<Write>
    requires a in w.apps
  {
    RestStage(w, a, fails, fresh0).writes
  }

  /** A whole run that does not crash. */
  function RunStage(w: World, a: AppId, fails: set<Op>, fresh0: PrefixId): Stage
    requires a in w.apps
  {
    Then(PinPart(w, a, fails), RestStage(w, a, fails, fresh0))
  }

  function RunWrites(w: World, a: AppId, fails: set<Op>, fresh0: PrefixId): seq<Write>
    requires a in w.apps
  {
    RunStage(w, a, fails, fresh0).writes
  }

  function Pinned(app: App, entry: Entry): App {
    app.(chart := entry.chart,
         selector := if app.selector == [] then entry.selector else app.selector,
         services := if app.services == {} then entry.services else app.services,
         egress := app.egress || entry.egress,
         namespace := if app.namespace == "" then app.name else app.namespace,
         pinned := true)
  }

  function AppAfter(app: App, wr: Write): App {
    match wr
    case AttachValues(content) => app.(values := Some(content))
    case DefaultNamespace => app.(namespace := app.name)
    case Pin(entry) => Pinned(app, entry)
    case ClearBlock => app.(block := None, managed := false)
    case TakeBlock(p) => app.(block := Some(p), managed := true)
    case SetStatus(status) => app.(status := status)
    case Delete(_) => app
    case Allocate(_) => app
  }

  function PrefixesAfter(prefixes: set<PrefixId>, wr: Write): set<PrefixId> {
    match wr
    case Delete(p) => prefixes - {p}
    case Allocate(p) => prefixes + {p}
    case _ => prefixes
  }

  function ReservedAfter(reserved: map<AppId, PrefixId>, a: AppId, wr: Write): map<AppId, PrefixId> {
    match wr
    case Delete(p) => map b | b in reserved && reserved[b] != p :: reserved[b]
    case Allocate(p) => reserved[a := p]
    case _ => reserved
  }

  function Apply(w: World, a: AppId, wr: Write): World
    requires a in w.apps
  {
    World(w.apps[a := AppAfter(w.apps[a], wr)], PrefixesAfter(w.prefixes, wr), ReservedAfter(w.reserved, a, wr), w.catalogue)
  }

  function ApplyAll(w: World, a: AppId, ws: seq<Write>): (r: World)
    requires a in w.apps
    ensures a in r.apps
  {
    if ws == [] then w else Apply(ApplyAll(w, a, ws[..|ws| - 1]), a, ws[|ws| - 1])
  }

  /** A run that crashes after `budget` writes, or gets to its end. */
  function Run(w: World, a: AppId, fails: set<Op>, fresh0: PrefixId, budget: nat): World
    requires a in w.apps
  {
    Progress(w, a, RunWrites(w, a, fails, fresh0), budget)
  }

  function Progress(w: World, a: AppId, ws: seq<Write>, budget: nat): World
    requires a in w.apps
  {
    ApplyAll(w, a, if budget < |ws| then ws[..budget] else ws)
  }

  lemma {:induction false} ApplyConcat(w: World, a: AppId, ws: seq<Write>, ws': seq<Write>)
    requires a in w.apps
    ensures ApplyAll(w, a, ws + ws') == ApplyAll(ApplyAll(w, a, ws), a, ws')
    decreases |ws'|
  {
    if ws' == [] {
      assert ws + ws' == ws;
    } else {
      var n := |ws'| - 1;
      ApplyConcat(w, a, ws, ws'[..n]);
      assert (ws + ws')[..|ws + ws'| - 1] == ws + ws'[..n];
    }
  }

  lemma ProgressConcat(w: World, a: AppId, ws: seq<Write>, ws': seq<Write>, budget: nat)
    requires a in w.apps
    ensures Progress(w, a, ws + ws', budget)
            == if budget < |ws| then Progress(w, a, ws, budget) else Progress(ApplyAll(w, a, ws), a, ws', budget - |ws|)
  {
    if budget < |ws| {
      assert (ws + ws')[..budget] == ws[..budget];
    } else if budget < |ws + ws'| {
      assert (ws + ws')[..budget] == ws + ws'[..budget - |ws|];
      ApplyConcat(w, a, ws, ws'[..budget - |ws|]);
    } else {
      ApplyConcat(w, a, ws, ws');
    }
  }

  lemma ApplyOne(w: World, a: AppId, wr: Write)
    requires a in w.apps
    ensures ApplyAll(w, a, [wr]) == Apply(w, a, wr) && ApplyAll(w, a, []) == w
  {
    assert [wr][..0] == [];
  }

  // --- What each stage leaves alone -----------------------------------------------------

  predicate PinKind(wr: Write) {
    wr.AttachValues? || wr.DefaultNamespace? || wr.Pin?
  }

  predicate BlockKind(wr: Write) {
    wr.ClearBlock? || wr.Delete? || wr.Allocate? || wr.TakeBlock?
  }

  /** Nothing but application `a`'s own fields, and of those neither status nor block. */
  ghost predicate OnlyPins(w: World, w': World, a: AppId)
    requires a in w.apps
  {
    && a in w'.apps && w'.apps == w.apps[a := w'.apps[a]]
    && (w'.prefixes, w'.reserved, w'.catalogue) == (w.prefixes, w.reserved, w.catalogue)
    && (var x, y := w.apps[a], w'.apps[a];
        (x.name, x.status, x.exposed, x.block, x.managed, x.definition)
        == (y.name, y.status, y.exposed, y.block, y.managed, y.definition))
  }

  lemma PinWriteFrame(w: World, a: AppId, wr: Write)
    requires a in w.apps && PinKind(wr)
    ensures OnlyPins(w, Apply(w, a, wr), a)
  {
  }

  lemma {:induction false} PinWritesFrame(w: World, a: AppId, ws: seq<Write>)
    requires a in w.apps
    requires forall i :: 0 <= i < |ws| ==> PinKind(ws[i])
    ensures OnlyPins(w, ApplyAll(w, a, ws), a)
  {
    if ws == [] {
      assert w.apps[a := w.apps[a]] == w.apps;
    } else {
      var n := |ws| - 1;
      PinWritesFrame(w, a, ws[..n]);
      PinWriteFrame(ApplyAll(w, a, ws[..n]), a, ws[n]);
    }
  }

  lemma PinPartFrame(w: World, a: AppId, fails: set<Op>, budget: nat)
    requires a in w.apps
    ensures OnlyPins(w, Progress(w, a, PinPart(w, a, fails).writes, budget), a)
  {
    var ws := PinPart(w, a, fails).writes;
    assert forall i :: 0 <= i < |ws| ==> PinKind(ws[i]);
    PinWritesFrame(w, a, if budget < |ws| then ws[..budget] else ws);
  }

  lemma RunSplits(w: World, a: AppId, fails: set<Op>, fresh0: PrefixId, budget: nat)
    requires a in w.apps
    ensures var pin, rest := PinPart(w, a, fails).writes, Rest(w, a, fails, fresh0);
            var mid := ApplyAll(w, a, pin);
            && |RunWrites(w, a, fails, fresh0)| == |pin| + |rest|
            && OnlyPins(w, mid, a)
            && Run(w, a, fails, fresh0, budget)
               == if budget < |pin| then Progress(w, a, pin, budget) else Progress(mid, a, rest, budget - |pin|)
  {
    var pin, rest := PinPart(w, a, fails).writes, Rest(w, a, fails, fresh0);
    WritesSplit(w, a, fails, fresh0);
    ProgressSplits(w, a, pin, rest, RunWrites(w, a, fails, fresh0), budget);
    PinPartFrame(w, a, fails, |pin|);
    assert OnlyPins(w, ApplyAll(w, a, pin), a);
  }

  lemma ProgressSplits(w: World, a: AppId, ws: seq<Write>, ws': seq<Write>, all: seq<Write>, budget: nat)
    requires a in w.apps && all == ws + ws'
    ensures Progress(w, a, all, budget)
            == if budget < |ws| then Progress(w, a, ws, budget) else Progress(ApplyAll(w, a, ws), a, ws', budget - |ws|)
    ensures Progress(w, a, ws, |ws|) == ApplyAll(w, a, ws)
  {
    ProgressConcat(w, a, ws, ws', budget);
  }

  lemma WritesSplit(w: World, a: AppId, fails: set<Op>, fresh0: PrefixId)
    requires a in w.apps
    ensures RunWrites(w, a, fails, fresh0) == PinPart(w, a, fails).writes + Rest(w, a, fails, fresh0)
  {
  }

  lemma {:induction false} BlockWritesFrame(w: World, a: AppId, ws: seq<Write>)
    requires a in w.apps
    requires forall i :: 0 <= i < |ws| ==> BlockKind(ws[i])
    ensures var app := ApplyAll(w, a, ws).apps[a];
            app == w.apps[a].(block := app.block, managed := app.managed)
  {
    if ws != [] {
      var n := |ws| - 1;
      BlockWritesFrame(w, a, ws[..n]);
      BlockWriteFrame(ApplyAll(w, a, ws[..n]), a, ws[n]);
    }
  }

  lemma BlockWriteFrame(w: World, a: AppId, wr: Write)
    requires a in w.apps && BlockKind(wr)
    ensures var app := Apply(w, a, wr).apps[a]; app == w.apps[a].(block := app.block, managed := app.managed)
  {
  }

  // --- The generator ------------------------------------------------------------------------

  datatype Outcome = Finished | Raised | Crashed

  /** From `before`, with `had` writes left, the stage got as far as `r` says. */
  ghost predicate Did(a: AppId, before: World, had: nat, stage: Stage, after: World, left: nat, r: Outcome)
    requires a in before.apps
  {
    && after == Progress(before, a, stage.writes, had)
    && (r == Crashed <==> had < |stage.writes|)
    && (r != Crashed ==> left == had - |stage.writes| && (r == Raised <==> stage.raised))
  }

  lemma DidBoth(a: AppId, before: World, had: nat, first: Stage, mid: World, left: nat, r1: Outcome, second: Stage, after: World, left': nat, r: Outcome)
    requires a in before.apps && Did(a, before, had, first, mid, left, r1) && r1 != Crashed
    requires a in mid.apps && Did(a, mid, left, second, after, left', r)
    ensures Did(a, before, had, Then(first, second), after, left', r)
  {
    ProgressConcat(before, a, first.writes, second.writes, had);
  }

  lemma DidHalf(a: AppId, before: World, had: nat, first: Stage, mid: World, left: nat, second: Stage)
    requires a in before.apps && Did(a, before, had, first, mid, left, Crashed)
    ensures Did(a, before, had, Then(first, second), mid, left, Crashed)
  {
    ProgressConcat(before, a, first.writes, second.writes, had);
  }

  lemma AfterPinSame(w: World, w': World, a: AppId, app: App, fails: set<Op>, fresh0: PrefixId)
    requires w.reserved == w'.reserved
    ensures AfterPin(w, a, app, fails, fresh0) == AfterPin(w', a, app, fails, fresh0)
  {
  }

  lemma DidRaised(a: AppId, before: World, had: nat, stage: Stage, after: World, left: nat, r: Outcome)
    requires a in before.apps && Did(a, before, had, stage, after, left, r)
    ensures Did(a, before, had, Stage(stage.writes, true), after, left, if r == Crashed then Crashed else Raised)
  {
  }

  class Infrahub {
    var world: World
    /** How many more writes happen before the process is lost. */
    var budget: nat

    constructor (w: World, budget: nat)
      ensures world == w && this.budget == budget
    {
      world, this.budget := w, budget;
    }

    ghost predicate Wrote(a: AppId, before: World, had: nat, stage: Stage, r: Outcome)
      reads this
      requires a in before.apps
    {
      Did(a, before, had, stage, world, budget, r)
    }

    method Save(a: AppId, wr: Write, op: Op, fails: set<Op>) returns (r: Outcome)
      requires a in world.apps
      modifies this
      ensures Wrote(a, old(world), old(budget), SaveIf(true, wr, op, fails), r)
    {
      ApplyOne(world, a, wr);
      if op in fails {
        return Raised;
      }
      if budget == 0 {
        assert [wr][..0] == [];
        return Crashed;
      }
      budget := budget - 1;
      world := Apply(world, a, wr);
      r := Finished;
    }

    method SetStatus(a: AppId, status: Status, fails: set<Op>) returns (r: Outcome)
      requires a in world.apps
      modifies this
      ensures Wrote(a, old(world), old(budget), StatusStage(old(world).apps[a].status, status, fails), r)
    {
      if world.apps[a].status == status {
        return Finished;
      }
      r := Save(a, Write.SetStatus(status), SaveStatus, fails);
    }

    method PinDefinition(a: AppId, fails: set<Op>) returns (r: Outcome)
      requires a in world.apps
      modifies this
      ensures Wrote(a, old(world), old(budget), PinStage(old(world), a, fails), r)
    {
      var service := world.apps[a];
      var defaulted := service.namespace == "";
      if service.definition.None? {
        if service.chart.name.None? {
          return Raised;
        }
        if defaulted {
          r := Save(a, DefaultNamespace, SaveService, fails);
          return;
        }
        return Finished;
      }
      if service.pinned {
        if defaulted {
          r := Save(a, DefaultNamespace, SaveService, fails);
          return;
        }
        return Finished;
      }
      if FetchEntry in fails || service.definition.value !in world.catalogue {
        return Raised;
      }
      var entry := world.catalogue[service.definition.value];
      ghost var before, attach := world, AttachStage(service, entry, fails);
      if entry.values.Some? && entry.values != service.values {
        r := Save(a, AttachValues(entry.values.value), AttachFile, fails);
        if r != Finished {
          return;
        }
      } else {
        assert ApplyAll(world, a, []) == world;
      }
      ProgressConcat(before, a, attach.writes, [Pin(entry)], old(budget));
      r := Save(a, Pin(entry), SaveService, fails);
    }

    method Withdraw(a: AppId, block: Option<PrefixId>, managed: bool, fails: set<Op>) returns (r: Outcome)
      requires a in world.apps && world.apps[a].block == block && world.apps[a].managed == managed
      modifies this
      ensures Wrote(a, old(world), old(budget), WithdrawStage(block, managed, fails), r)
    {
      if block.None? || !managed {
        return Finished;
      }
      ProgressConcat(world, a, [ClearBlock], [Delete(block.value)], budget);
      assert [ClearBlock] + [Delete(block.value)] == [ClearBlock, Delete(block.value)];
      r := Save(a, ClearBlock, ClearReference, fails);
      if r != Finished {
        return;
      }
      r := Save(a, Delete(block.value), DeletePrefix, fails);
    }

    method Allocate(a: AppId, fails: set<Op>, fresh0: PrefixId) returns (r: Outcome)
      requires a in world.apps
      modifies this
      ensures Wrote(a, old(world), old(budget), AllocateStage(old(world), a, fails, fresh0), r)
    {
      if Validate in fails || PoolAllocate in fails {
        return Raised;
      }
      var prefix := PoolAnswer(world, a, fresh0);
      ProgressConcat(world, a, [Write.Allocate(prefix)], [TakeBlock(prefix)], budget);
      assert [Write.Allocate(prefix)] + [TakeBlock(prefix)] == [Write.Allocate(prefix), TakeBlock(prefix)];
      r := Save(a, Write.Allocate(prefix), PoolAllocate, fails);
      if r != Finished {
        return;
      }
      r := Save(a, TakeBlock(prefix), SaveReference, fails);
    }

    /** The run of an application that should hold no block. */
    method TakeBack(a: AppId, app: App, fails: set<Op>) returns (r: Outcome)
      requires a in world.apps && !WantsABlock(app)
      requires var now := world.apps[a]; (now.block, now.managed, now.status) == (app.block, app.managed, app.status)
      modifies this
      ensures Wrote(a, old(world), old(budget), TakeBackStage(app, fails), r)
    {
      ghost var before, had, taken := world, budget, WithdrawStage(app.block, app.managed, fails);
      BlockWritesFrame(before, a, taken.writes);
      r := Withdraw(a, app.block, app.managed, fails);
      if r == Raised {
        return;
      }
      ghost var record := StatusStage(app.status, Target(app), fails);
      if r == Crashed {
        DidHalf(a, before, had, taken, world, budget, record);
        return;
      }
      ghost var mid, left := world, budget;
      if IsWithdrawn(app) {
        r := SetStatus(a, Decommissioned, fails);
      } else {
        r := SetStatus(a, Active, fails);
      }
      DidBoth(a, before, had, taken, mid, left, Finished, record, world, budget, r);
    }

    /** The run of an exposed application without a block. */
    method Give(a: AppId, app: App, fails: set<Op>, fresh0: PrefixId) returns (r: Outcome)
      requires a in world.apps && world.apps[a].status == app.status
      modifies this
      ensures Wrote(a, old(world), old(budget), GiveStage(old(world), a, app, fails, fresh0), r)
    {
      ghost var before, had, given := world, budget, AllocateStage(world, a, fails, fresh0);
      BlockWritesFrame(before, a, given.writes);
      r := Allocate(a, fails, fresh0);
      ghost var record := StatusStage(app.status, if given.raised then Error else Active, fails);
      ghost var mid, left := world, budget;
      if r == Crashed {
        DidHalf(a, before, had, given, world, budget, record);
        return;
      }
      if r == Raised {
        var s := SetStatus(a, Error, fails);
        DidBoth(a, before, had, given, mid, left, Raised, record, world, budget, s);
        DidRaised(a, before, had, Then(given, record), world, budget, s);
        return if s == Crashed then Crashed else Raised;
      }
      r := SetStatus(a, Active, fails);
      DidBoth(a, before, had, given, mid, left, Finished, record, world, budget, r);
    }

    /** Allocate, adopt or withdraw. */
    method Build(a: AppId, app: App, fails: set<Op>, fresh0: PrefixId) returns (r: Outcome)
      requires a in world.apps
      requires var now := world.apps[a]; (now.block, now.managed, now.status) == (app.block, app.managed, app.status)
      modifies this
      ensures Wrote(a, old(world), old(budget), AfterPin(old(world), a, app, fails, fresh0), r)
    {
      if !WantsABlock(app) {
        r := TakeBack(a, app, fails);
      } else if app.block.Some? {
        r := SetStatus(a, Active, fails);
      } else {
        r := Give(a, app, fails, fresh0);
      }
    }

    /** `generate`. A run cut off anywhere leaves exactly the writes it got to. */
    method Generate(a: AppId, fails: set<Op>, fresh0: PrefixId) returns (r: Outcome)
      requires a in world.apps
      modifies this
      ensures Wrote(a, old(world), old(budget), RunStage(old(world), a, fails, fresh0), r)
    {
      var app := world.apps[a];
      ghost var before, had, pin, rest := world, budget, PinPart(world, a, fails), RestStage(world, a, fails, fresh0);
      r := PinUnlessWithdrawn(a, app, fails);
      if r == Crashed {
        DidHalf(a, before, had, pin, world, budget, rest);
        return;
      }
      ghost var r1, mid, left := r, world, budget;
      r := Finish(a, app, r == Raised, fails, fresh0, before);
      DidBoth(a, before, had, pin, mid, left, r1, rest, world, budget, r);
    }

    method PinUnlessWithdrawn(a: AppId, app: App, fails: set<Op>) returns (r: Outcome)
      requires a in world.apps && world.apps[a] == app
      modifies this
      ensures Wrote(a, old(world), old(budget), PinPart(old(world), a, fails), r)
      ensures r != Crashed ==> OnlyPins(old(world), world, a)
    {
      PinPartFrame(world, a, fails, budget);
      if IsWithdrawn(app) {
        return Finished;
      }
      r := PinDefinition(a, fails);
    }

    /** The rest of `generate`, `start` being the world at its beginning. */
    method Finish(a: AppId, app: App, pinRaised: bool, fails: set<Op>, fresh0: PrefixId, ghost start: World) returns (r: Outcome)
      requires a in start.apps && OnlyPins(start, world, a)
      requires app == start.apps[a] && pinRaised == PinPart(start, a, fails).raised
      modifies this
      ensures Wrote(a, old(world), old(budget), RestStage(start, a, fails, fresh0), r)
    {
      if pinRaised {
        ghost var before, had := world, budget;
        r := SetStatus(a, Error, fails);
        DidRaised(a, before, had, StatusStage(app.status, Error, fails), world, budget, r);
        return if r == Crashed then Crashed else Raised;
      }
      AfterPinSame(start, world, a, app, fails, fresh0);
      r := Build(a, app, fails, fresh0);
    }
  }
}
