/** What one run of an application, or one application run again and again, can do. */
module AppLifecycle {
  import opened Options
  import opened FabricApp

  // --- What a run takes and deletes -----------------------------------------------------------

  /** When a run gets as far as saving a block. */
  predicate GetsABlock(w: World, a: AppId, fails: set<Op>)
    requires a in w.apps
  {
    && WantsABlock(w.apps[a]) && w.apps[a].block.None? && !PinPart(w, a, fails).raised
    && Validate !in fails && PoolAllocate !in fails && SaveReference !in fails
  }

  lemma PinPartIsPlain(w: World, a: AppId, fails: set<Op>, wr: Write)
    requires a in w.apps
    ensures wr in PinPart(w, a, fails).writes ==> PinKind(wr)
  {
  }

  /** A run that has the budget deletes one prefix or none: the managed block of an
      application that should hold none. The managed mark is the whole guard, so a
      block named by hand while the mark is set would go too. */
  predicate Deletes(w: World, a: AppId, fails: set<Op>, p: PrefixId)
    requires a in w.apps
  {
    && w.apps[a].block == Some(p) && w.apps[a].managed && !WantsABlock(w.apps[a])
    && !PinPart(w, a, fails).raised && ClearReference !in fails && DeletePrefix !in fails
  }

  // --- The event loop ---------------------------------------------------------------------

  predicate Watched(wr: Write) {
    wr.SetStatus? || wr.ClearBlock? || wr.TakeBlock?
  }

  predicate NoneWatched(ws: seq<Write>) {
    forall i :: 0 <= i < |ws| ==> !Watched(ws[i])
  }

  /** The run writes neither the status nor the block, whatever the pool would offer. */
  ghost predicate Quiet(w: World, a: AppId, fails: set<Op>)
    requires a in w.apps
  {
    forall fresh0 :: NoneWatched(RunWrites(w, a, fails, fresh0))
  }

  /** The one way to need a second run: the reference went, the delete did not, and the
      status was still to be recorded. */
  predicate StatusIsLate(w: World, a: AppId, fails: set<Op>)
    requires a in w.apps
  {
    var app := w.apps[a];
    && !PinPart(w, a, fails).raised && !WantsABlock(app) && app.block.Some? && app.managed
    && ClearReference !in fails && DeletePrefix in fails
    && SaveStatus !in fails && app.status != Target(app)
  }

  function FullRun(w: World, a: AppId, fails: set<Op>, fresh0: PrefixId): (r: World)
    requires a in w.apps
    ensures a in r.apps
  {
    ApplyAll(w, a, RunWrites(w, a, fails, fresh0))
  }

  /** When a whole run is quiet, read off the state it starts from. */
  predicate Settled(w: World, a: AppId, fails: set<Op>)
    requires a in w.apps
  {
    var app := w.apps[a];
    if PinPart(w, a, fails).raised then app.status == Error || SaveStatus in fails
    else if !WantsABlock(app) then
      if app.block.Some? && app.managed then ClearReference in fails
      else app.status == Target(app) || SaveStatus in fails
    else if app.block.Some? then app.status == Active || SaveStatus in fails
    else
      (Validate in fails || PoolAllocate in fails || SaveReference in fails) && (app.status == Error || SaveStatus in fails)
  }

  lemma RestWatched(w: World, a: AppId, fails: set<Op>, fresh0: PrefixId)
    requires a in w.apps
    ensures NoneWatched(Rest(w, a, fails, fresh0)) <==> Settled(w, a, fails)
  {
    var rest := Rest(w, a, fails, fresh0);
    if !Settled(w, a, fails) {
      assert Watched(rest[if GetsABlock(w, a, fails) then 1 else if rest[0].Allocate? then 1 else 0]);
    }
  }

  lemma NoneWatchedAfter(pin: seq<Write>, rest: seq<Write>)
    requires forall wr :: wr in pin ==> PinKind(wr)
    ensures NoneWatched(pin + rest) <==> NoneWatched(rest)
  {
    assert forall i :: 0 <= i < |pin| ==> pin[i] in pin;
    assert forall i :: 0 <= i < |rest| ==> (pin + rest)[|pin| + i] == rest[i];
  }

  lemma QuietWhenSettled(w: World, a: AppId, fails: set<Op>)
    requires a in w.apps
    ensures Quiet(w, a, fails) <==> Settled(w, a, fails)
  {
    var pin := PinPart(w, a, fails).writes;
    forall wr ensures wr in pin ==> PinKind(wr) { PinPartIsPlain(w, a, fails, wr); }
    forall fresh0 ensures NoneWatched(RunWrites(w, a, fails, fresh0)) <==> Settled(w, a, fails) {
      NoneWatchedAfter(pin, Rest(w, a, fails, fresh0));
      RestWatched(w, a, fails, fresh0);
    }
    assert NoneWatched(RunWrites(w, a, fails, "")) <==> Settled(w, a, fails);
  }

  /** The pin looks at none of status, block and mark. */
  lemma PinLooksElsewhere(w: World, w': World, a: AppId, fails: set<Op>)
    requires a in w.apps && PinsSame(w, w', a)
    ensures PinStage(w', a, fails) == PinStage(w, a, fails)
  {
  }

  lemma ApplyTwo(w: World, a: AppId, x: Write, y: Write)
    requires a in w.apps
    ensures ApplyAll(w, a, [x, y]) == Apply(Apply(w, a, x), a, y)
  {
    ApplyOne(w, a, x);
    ApplyConcat(w, a, [x], [y]);
    ApplyOne(Apply(w, a, x), a, y);
    assert [x] + [y] == [x, y];
  }

  lemma PinRaisesAgain(w: World, a: AppId, fails: set<Op>)
    requires a in w.apps
    ensures PinStage(ApplyAll(w, a, PinStage(w, a, fails).writes), a, fails).raised == PinStage(w, a, fails).raised
  {
    var app := w.apps[a];
    if !Unpinned(app) {
      PinRaisesAgainDefaulted(w, a, fails);
    } else if FetchEntry in fails || app.definition.value !in w.catalogue {
      assert PinStage(w, a, fails) == Stage([], true);
    } else {
      PinRaisesAgainUnpinned(w, a, w.catalogue[app.definition.value], fails);
    }
  }

  lemma PinRaisesAgainDefaulted(w: World, a: AppId, fails: set<Op>)
    requires a in w.apps && !Unpinned(w.apps[a])
    ensures PinStage(ApplyAll(w, a, PinStage(w, a, fails).writes), a, fails).raised == PinStage(w, a, fails).raised
  {
    ApplyOne(w, a, DefaultNamespace);
    assert PinStage(w, a, fails).writes in {[], [DefaultNamespace]};
  }

  predicate Unpinned(app: App) {
    app.definition.Some? && !app.pinned
  }

  lemma PinRaisesAgainUnpinned(w: World, a: AppId, entry: Entry, fails: set<Op>)
    requires a in w.apps && Unpinned(w.apps[a])
    requires w.apps[a].definition.value in w.catalogue && w.catalogue[w.apps[a].definition.value] == entry
    ensures PinStage(ApplyAll(w, a, PinStage(w, a, fails).writes), a, fails).raised == PinStage(w, a, fails).raised
  {
    var attach := AttachStage(w.apps[a], entry, fails);
    if FetchEntry !in fails && !attach.raised {
      var mid := ApplyAll(w, a, attach.writes);
      AttachResult(w, a, entry, fails);
      PinStageOf(w, a, entry, fails);
      if SaveService !in fails {
        ApplyConcat(w, a, attach.writes, [Pin(entry)]);
        ApplyOne(mid, a, Pin(entry));
        PinnedDoesNotRaise(Apply(mid, a, Pin(entry)), a, fails);
      } else {
        PinStageOf(mid, a, entry, fails);
      }
    }
  }

  lemma PinStageOf(w: World, a: AppId, entry: Entry, fails: set<Op>)
    requires a in w.apps && Unpinned(w.apps[a]) && FetchEntry !in fails
    requires w.apps[a].definition.value in w.catalogue && w.catalogue[w.apps[a].definition.value] == entry
    requires !AttachStage(w.apps[a], entry, fails).raised
    ensures var attach := AttachStage(w.apps[a], entry, fails).writes;
            PinStage(w, a, fails) == Stage(if SaveService in fails then attach else attach + [Pin(entry)], SaveService in fails)
  {
  }

  lemma PinnedDoesNotRaise(w: World, a: AppId, fails: set<Op>)
    requires a in w.apps && w.apps[a].definition.Some? && w.apps[a].pinned && SaveService !in fails
    ensures !PinStage(w, a, fails).raised
  {
  }

  /** Once attached, the values are the entry's, unless it has none. */
  lemma AttachResult(w: World, a: AppId, entry: Entry, fails: set<Op>)
    requires a in w.apps && !AttachStage(w.apps[a], entry, fails).raised
    ensures ApplyAll(w, a, AttachStage(w.apps[a], entry, fails).writes)
            == w.(apps := w.apps[a := w.apps[a].(values := if entry.values.Some? then entry.values else w.apps[a].values)])
  {
    assert w.apps[a := w.apps[a]] == w.apps;
    match entry.values
    case None =>
    case Some(content) => ApplyOne(w, a, AttachValues(content));
  }

  lemma OtherWriteFrame(w: World, a: AppId, wr: Write)
    requires a in w.apps && !PinKind(wr)
    ensures PinsSame(w, Apply(w, a, wr), a)
  {
  }

  ghost predicate PinsSame(w: World, w': World, a: AppId)
    requires a in w.apps
  {
    && w'.catalogue == w.catalogue && a in w'.apps
    && w'.apps[a] == w.apps[a].(status := w'.apps[a].status, block := w'.apps[a].block, managed := w'.apps[a].managed)
  }

  lemma {:induction false} RestWritesFrame(w: World, a: AppId, ws: seq<Write>)
    requires a in w.apps
    requires forall i :: 0 <= i < |ws| ==> !PinKind(ws[i])
    ensures PinsSame(w, ApplyAll(w, a, ws), a)
  {
    if ws != [] {
      var n := |ws| - 1;
      RestWritesFrame(w, a, ws[..n]);
      OtherWriteFrame(ApplyAll(w, a, ws[..n]), a, ws[n]);
    }
  }

  /** A run clears the reference to a managed block. */
  predicate Clears(w: World, a: AppId, fails: set<Op>)
    requires a in w.apps
  {
    && !PinPart(w, a, fails).raised && !WantsABlock(w.apps[a]) && ClearReference !in fails
    && w.apps[a].block.Some? && w.apps[a].managed
  }

  /** The status a run goes for. */
  function Verdict(w: World, a: AppId, fails: set<Op>): Status
    requires a in w.apps
  {
    var app := w.apps[a];
    if PinPart(w, a, fails).raised then Error
    else if !WantsABlock(app) then
      if WithdrawStage(app.block, app.managed, fails).raised then app.status else Target(app)
    else if app.block.Some? || GetsABlock(w, a, fails) then Active
    else Error
  }

  lemma {:induction false} StageThenStatus(w: World, a: AppId, ws: seq<Write>, now: Status, status: Status, fails: set<Op>)
    requires a in w.apps && w.apps[a].status == now
    requires forall i :: 0 <= i < |ws| ==> BlockKind(ws[i])
    ensures ApplyAll(w, a, ws + StatusStage(now, status, fails).writes).apps[a]
            == ApplyAll(w, a, ws).apps[a].(status := if SaveStatus in fails then now else status)
  {
    BlockWritesFrame(w, a, ws);
    ApplyConcat(w, a, ws, StatusStage(now, status, fails).writes);
    ApplyOne(ApplyAll(w, a, ws), a, Write.SetStatus(status));
  }

  /** The writes to the block and the pool. */
  function BlockPart(w: World, a: AppId, fails: set<Op>, fresh0: PrefixId): seq<Write>
    requires a in w.apps
  {
    var app := w.apps[a];
    if PinPart(w, a, fails).raised then []
    else if !WantsABlock(app) then WithdrawStage(app.block, app.managed, fails).writes
    else if app.block.Some? then []
    else AllocateStage(w, a, fails, fresh0).writes
  }

  lemma RestInTwo(w: World, a: AppId, fails: set<Op>, fresh0: PrefixId)
    requires a in w.apps
    ensures Rest(w, a, fails, fresh0)
            == BlockPart(w, a, fails, fresh0) + StatusStage(w.apps[a].status, Verdict(w, a, fails), fails).writes
  {
  }

  /** What the writes after the pin leave in the status. */
  lemma RestStatus(w: World, a: AppId, fails: set<Op>, fresh0: PrefixId, mid: World)
    requires a in w.apps && OnlyPins(w, mid, a)
    ensures ApplyAll(mid, a, Rest(w, a, fails, fresh0)).apps[a].status
            == if SaveStatus in fails then w.apps[a].status else Verdict(w, a, fails)
  {
    var ws := BlockPart(w, a, fails, fresh0);
    RestInTwo(w, a, fails, fresh0);
    assert forall i :: 0 <= i < |ws| ==> BlockKind(ws[i]);
    BlockWritesFrame(mid, a, ws);
    StageThenStatus(mid, a, ws, w.apps[a].status, Verdict(w, a, fails), fails);
  }

  function BlockAfter(w: World, a: AppId, fails: set<Op>, fresh0: PrefixId): (Option<PrefixId>, bool)
    requires a in w.apps
  {
    if Clears(w, a, fails) then (None, false)
    else if GetsABlock(w, a, fails) then (Some(PoolAnswer(w, a, fresh0)), true)
    else (w.apps[a].block, w.apps[a].managed)
  }

  lemma FullRunBlock(w: World, a: AppId, fails: set<Op>, fresh0: PrefixId)
    requires a in w.apps
    ensures var app := FullRun(w, a, fails, fresh0).apps[a]; (app.block, app.managed) == BlockAfter(w, a, fails, fresh0)
  {
    var budget := |RunWrites(w, a, fails, fresh0)| + 2;
    RunEffect(w, a, fails, fresh0, budget);
    assert Run(w, a, fails, fresh0, budget) == FullRun(w, a, fails, fresh0);
    EffectWithBudget(w, a, fails, fresh0, Left(w, a, fails, budget));
  }

  lemma EffectWithBudget(w: World, a: AppId, fails: set<Op>, fresh0: PrefixId, left: nat)
    requires a in w.apps && left >= 2
    ensures var e := EffectAfter(w, a, fails, fresh0, left); (e.block, e.managed) == BlockAfter(w, a, fails, fresh0)
  {
  }

  /** What a whole run leaves for the next one to see. */
  lemma FullRunResult(w: World, a: AppId, fails: set<Op>, fresh0: PrefixId)
    requires a in w.apps
    ensures var was := w.apps[a];
            var w' := FullRun(w, a, fails, fresh0);
            var app := w'.apps[a];
            && app.exposed == was.exposed
            && app.status == (if SaveStatus in fails then was.status else Verdict(w, a, fails))
            && IsWithdrawn(app) == IsWithdrawn(was)
            && PinPart(w', a, fails).raised == PinPart(w, a, fails).raised
            && (app.block, app.managed) == BlockAfter(w, a, fails, fresh0)
  {
    var pin, rest := PinPart(w, a, fails).writes, Rest(w, a, fails, fresh0);
    var mid, w' := ApplyAll(w, a, pin), FullRun(w, a, fails, fresh0);
    PinPartFrame(w, a, fails, |pin|);
    RestStatus(w, a, fails, fresh0, mid);
    FullRunBlock(w, a, fails, fresh0);
    ApplyConcat(w, a, pin, rest);
    RestHasNoPins(w, a, fails, fresh0);
    RestWritesFrame(mid, a, rest);
    VerdictKeepsWithdrawn(w, a, fails);
    PinLooksElsewhere(mid, w', a, fails);
    PinRaisesAgain(w, a, fails);
  }

  lemma VerdictKeepsWithdrawn(w: World, a: AppId, fails: set<Op>)
    requires a in w.apps
    ensures var v := Verdict(w, a, fails); (v == Decommissioning || v == Decommissioned) == IsWithdrawn(w.apps[a])
  {
  }

  lemma RestHasNoPins(w: World, a: AppId, fails: set<Op>, fresh0: PrefixId)
    requires a in w.apps
    ensures var rest := Rest(w, a, fails, fresh0); forall i :: 0 <= i < |rest| ==> !PinKind(rest[i])
  {
    var ws := BlockPart(w, a, fails, fresh0);
    RestInTwo(w, a, fails, fresh0);
    assert forall i :: 0 <= i < |ws| ==> BlockKind(ws[i]);
  }

  /** With everything else fixed and a failing step failing again, the run after a whole
      run is quiet, except in the one case of a late status. */
  lemma SecondRunIsQuiet(w: World, a: AppId, fails: set<Op>, fresh0: PrefixId)
    requires a in w.apps
    ensures Quiet(FullRun(w, a, fails, fresh0), a, fails) <==> !StatusIsLate(w, a, fails)
  {
    var w' := FullRun(w, a, fails, fresh0);
    FullRunResult(w, a, fails, fresh0);
    QuietWhenSettled(w', a, fails);
  }

  /** The late status does happen: a decommissioning application whose block can be
      dereferenced but not deleted records its status only in the second run. */
  lemma LateStatus(w: World, a: AppId, fresh0: PrefixId, fresh1: PrefixId)
    requires a in w.apps && w.apps[a].status == Decommissioning && w.apps[a].block.Some? && w.apps[a].managed
    ensures StatusIsLate(w, a, {DeletePrefix})
    ensures var first := FullRun(w, a, {DeletePrefix}, fresh0);
            && first.apps[a].status == Decommissioning && !Quiet(first, a, {DeletePrefix})
            && FullRun(first, a, {DeletePrefix}, fresh1).apps[a].status == Decommissioned
  {
    var first := FullRun(w, a, {DeletePrefix}, fresh0);
    FullRunResult(w, a, {DeletePrefix}, fresh0);
    SecondRunIsQuiet(w, a, {DeletePrefix}, fresh0);
    FullRunResult(first, a, {DeletePrefix}, fresh1);
  }

  /** The world after `n` whole runs, the pool offering `offers(i)` to run `i`. */
  function Repeated(w: World, a: AppId, fails: set<Op>, offers: nat -> PrefixId, n: nat): (r: World)
    requires a in w.apps
    ensures a in r.apps
  {
    if n == 0 then w else FullRun(Repeated(w, a, fails, offers, n - 1), a, fails, offers(n - 1))
  }

  lemma ThirdRunIsQuiet(w: World, a: AppId, fails: set<Op>, fresh0: PrefixId, fresh1: PrefixId)
    requires a in w.apps
    ensures Quiet(FullRun(FullRun(w, a, fails, fresh0), a, fails, fresh1), a, fails)
  {
    var w' := FullRun(w, a, fails, fresh0);
    FullRunResult(w, a, fails, fresh0);
    SecondRunIsQuiet(w', a, fails, fresh1);
  }

  /** The loop ends: from the third run on every run is quiet, and when no status is late
      already from the second. */
  lemma EventLoopEnds(w: World, a: AppId, fails: set<Op>, offers: nat -> PrefixId, n: nat)
    requires a in w.apps && n >= 1 && (n == 1 ==> !StatusIsLate(w, a, fails))
    ensures Quiet(Repeated(w, a, fails, offers, n), a, fails)
    ensures forall fresh0, wr :: wr in RunWrites(Repeated(w, a, fails, offers, n), a, fails, fresh0) ==>
              !wr.SetStatus? && !wr.ClearBlock? && !wr.TakeBlock?
  {
    var before := Repeated(w, a, fails, offers, n - 1);
    if n == 1 {
      SecondRunIsQuiet(before, a, fails, offers(0));
    } else {
      ThirdRunIsQuiet(Repeated(w, a, fails, offers, n - 2), a, fails, offers(n - 2), offers(n - 1));
    }
  }

  // --- The blocks and the pool after a run, wherever it stops ---------------------------------

  /** A run that wants a block and has none gets one from the pool. */
  predicate Gives(w: World, a: AppId, fails: set<Op>)
    requires a in w.apps
  {
    && WantsABlock(w.apps[a]) && w.apps[a].block.None? && !PinPart(w, a, fails).raised
    && Validate !in fails && PoolAllocate !in fails
  }

  /** The prefixes, the reservations, and the application's block and mark. */
  datatype Effect = Effect(prefixes: set<PrefixId>, reserved: map<AppId, PrefixId>, block: Option<PrefixId>, managed: bool)

  function EffectOf(w: World, a: AppId): Effect
    requires a in w.apps
  {
    Effect(w.prefixes, w.reserved, w.apps[a].block, w.apps[a].managed)
  }

  /** What the first `left` writes after the pin do to them. */
  function EffectAfter(w: World, a: AppId, fails: set<Op>, fresh0: PrefixId, left: nat): Effect
    requires a in w.apps
  {
    var was := EffectOf(w, a);
    if Clears(w, a, fails) && left >= 1 then
      var p := w.apps[a].block.value;
      if left == 1 || DeletePrefix in fails then was.(block := None, managed := false)
      else Effect(was.prefixes - {p}, ReservedAfter(was.reserved, a, Delete(p)), None, false)
    else if Gives(w, a, fails) && left >= 1 then
      var q := PoolAnswer(w, a, fresh0);
      var given := was.(prefixes := was.prefixes + {q}, reserved := was.reserved[a := q]);
      if left == 1 || SaveReference in fails then given else given.(block := Some(q), managed := true)
    else was
  }

  lemma {:induction false} OtherWritesSpareBlocks(w: World, a: AppId, ws: seq<Write>)
    requires a in w.apps
    requires forall i :: 0 <= i < |ws| ==> !BlockKind(ws[i])
    ensures EffectOf(ApplyAll(w, a, ws), a) == EffectOf(w, a)
    decreases |ws|
  {
    if ws != [] {
      var n := |ws| - 1;
      OtherWritesSpareBlocks(w, a, ws[..n]);
      assert !BlockKind(ws[n]);
    }
  }

  lemma OtherProgressSparesBlocks(w: World, a: AppId, ws: seq<Write>, budget: nat)
    requires a in w.apps
    requires forall i :: 0 <= i < |ws| ==> !BlockKind(ws[i])
    ensures EffectOf(Progress(w, a, ws, budget), a) == EffectOf(w, a)
  {
    OtherWritesSpareBlocks(w, a, if budget < |ws| then ws[..budget] else ws);
  }

  lemma TwoWritesProgress(w: World, a: AppId, x: Write, y: Write, left: nat)
    requires a in w.apps
    ensures Progress(w, a, [x, y], left)
            == if left == 0 then w else if left == 1 then Apply(w, a, x) else Apply(Apply(w, a, x), a, y)
  {
    ApplyTwo(w, a, x, y);
    ApplyOne(w, a, x);
    assert [x, y][..0] == [] && [x, y][..1] == [x];
  }

  lemma BlockPartEffect(w: World, a: AppId, fails: set<Op>, fresh0: PrefixId, mid: World, left: nat)
    requires a in w.apps && OnlyPins(w, mid, a)
    ensures EffectOf(Progress(mid, a, BlockPart(w, a, fails, fresh0), left), a) == EffectAfter(w, a, fails, fresh0, left)
  {
    var ws := BlockPart(w, a, fails, fresh0);
    if Clears(w, a, fails) {
      var p := w.apps[a].block.value;
      OneWriteProgress(mid, a, ClearBlock, left);
      TwoWritesProgress(mid, a, ClearBlock, Delete(p), left);
      ClearThenDelete(mid, a, p);
    } else if Gives(w, a, fails) {
      var q := PoolAnswer(w, a, fresh0);
      OneWriteProgress(mid, a, Write.Allocate(q), left);
      TwoWritesProgress(mid, a, Write.Allocate(q), TakeBlock(q), left);
      AllocateThenTake(mid, a, q);
    } else {
      assert ws == [];
      OneWriteProgress(mid, a, ClearBlock, left);
    }
  }

  lemma ClearThenDelete(w: World, a: AppId, p: PrefixId)
    requires a in w.apps
    ensures EffectOf(Apply(w, a, ClearBlock), a) == EffectOf(w, a).(block := None, managed := false)
    ensures EffectOf(Apply(Apply(w, a, ClearBlock), a, Delete(p)), a)
            == Effect(w.prefixes - {p}, ReservedAfter(w.reserved, a, Delete(p)), None, false)
  {
  }

  lemma AllocateThenTake(w: World, a: AppId, q: PrefixId)
    requires a in w.apps
    ensures var given := EffectOf(w, a).(prefixes := w.prefixes + {q}, reserved := w.reserved[a := q]);
            && EffectOf(Apply(w, a, Write.Allocate(q)), a) == given
            && EffectOf(Apply(Apply(w, a, Write.Allocate(q)), a, TakeBlock(q)), a) == given.(block := Some(q), managed := true)
  {
  }

  /** The writes a run has left after the pin. */
  function Left(w: World, a: AppId, fails: set<Op>, budget: nat): nat
    requires a in w.apps
  {
    var pin := |PinPart(w, a, fails).writes|;
    if budget < pin then 0 else budget - pin
  }

  /** Wherever a run stops. */
  lemma RunEffect(w: World, a: AppId, fails: set<Op>, fresh0: PrefixId, budget: nat)
    requires a in w.apps
    ensures EffectOf(Run(w, a, fails, fresh0, budget), a) == EffectAfter(w, a, fails, fresh0, Left(w, a, fails, budget))
  {
    var pin, rest := PinPart(w, a, fails).writes, Rest(w, a, fails, fresh0);
    RunSplits(w, a, fails, fresh0, budget);
    if budget < |pin| {
      PinPartFrame(w, a, fails, budget);
    } else {
      RestEffect(w, a, fails, fresh0, ApplyAll(w, a, pin), budget - |pin|);
    }
  }

  lemma RecordSparesBlocks(w: World, a: AppId, ws: seq<Write>, record: seq<Write>, left: nat)
    requires a in w.apps
    requires forall i :: 0 <= i < |record| ==> !BlockKind(record[i])
    ensures EffectOf(Progress(w, a, ws + record, left), a) == EffectOf(Progress(w, a, ws, left), a)
  {
    ProgressConcat(w, a, ws, record, left);
    if left >= |ws| {
      OtherProgressSparesBlocks(ApplyAll(w, a, ws), a, record, left - |ws|);
    }
  }

  lemma RestEffect(w: World, a: AppId, fails: set<Op>, fresh0: PrefixId, mid: World, left: nat)
    requires a in w.apps && OnlyPins(w, mid, a)
    ensures EffectOf(Progress(mid, a, Rest(w, a, fails, fresh0), left), a) == EffectAfter(w, a, fails, fresh0, left)
  {
    RestInTwo(w, a, fails, fresh0);
    BlockPartEffect(w, a, fails, fresh0, mid, left);
    RecordSparesBlocks(mid, a, BlockPart(w, a, fails, fresh0),
                       StatusStage(w.apps[a].status, Verdict(w, a, fails), fails).writes, left);
  }

  /** However a run ends: a prefix is gone after it exactly when the run got as far as
      deleting it, as the managed block of an application that was to hold none. */
  lemma GoneExactly(w: World, a: AppId, fails: set<Op>, fresh0: PrefixId, budget: nat, p: PrefixId)
    requires a in w.apps && p in w.prefixes
    ensures p !in Run(w, a, fails, fresh0, budget).prefixes <==> Deletes(w, a, fails, p) && Left(w, a, fails, budget) >= 2
  {
    RunEffect(w, a, fails, fresh0, budget);
  }

  // --- Runs never revive and never interfere -----------------------------------------------

  /** What one write changes: its own application, the status only to the one it names,
      and the pinned fields only when it is a pin or an attachment. */
  lemma OneWrite(w: World, a: AppId, wr: Write)
    requires a in w.apps
    ensures var w' := Apply(w, a, wr);
            && a in w'.apps && w'.apps == w.apps[a := w'.apps[a]]
            && w'.apps[a].status == (if wr.SetStatus? then wr.status else w.apps[a].status)
            && (w.apps[a].pinned && !wr.AttachValues? && !wr.Pin? ==> PinKept(w.apps[a], w'.apps[a]))
  {
    assert w.apps[a := w.apps[a]] == w.apps;
  }

  lemma {:induction false} OthersUntouched(w: World, a: AppId, ws: seq<Write>)
    requires a in w.apps
    ensures var w' := ApplyAll(w, a, ws); w'.apps == w.apps[a := w'.apps[a]]
    decreases |ws|
  {
    if ws == [] {
      assert w.apps[a := w.apps[a]] == w.apps;
    } else {
      OthersUntouched(w, a, ws[..|ws| - 1]);
      OneWrite(ApplyAll(w, a, ws[..|ws| - 1]), a, ws[|ws| - 1]);
    }
  }

  lemma {:induction false} WithdrawnWrites(w: World, a: AppId, ws: seq<Write>)
    requires a in w.apps && IsWithdrawn(w.apps[a])
    requires forall i :: 0 <= i < |ws| && ws[i].SetStatus? ==> ws[i].status == Decommissioned
    ensures IsWithdrawn(ApplyAll(w, a, ws).apps[a])
    decreases |ws|
  {
    if ws != [] {
      WithdrawnWrites(w, a, ws[..|ws| - 1]);
      OneWrite(ApplyAll(w, a, ws[..|ws| - 1]), a, ws[|ws| - 1]);
    }
  }

  /** However a run ends, a withdrawn application is not live after it, and no other
      application has changed. */
  lemma WithdrawnStaysWithdrawn(w: World, a: AppId, fails: set<Op>, fresh0: PrefixId, budget: nat)
    requires a in w.apps
    ensures var w' := Run(w, a, fails, fresh0, budget);
            && (IsWithdrawn(w.apps[a]) ==> IsWithdrawn(w'.apps[a]))
            && w'.apps == w.apps[a := w'.apps[a]]
  {
    var ws := RunWrites(w, a, fails, fresh0);
    var done := if budget < |ws| then ws[..budget] else ws;
    OthersUntouched(w, a, done);
    if IsWithdrawn(w.apps[a]) {
      WithdrawnRecords(w, a, fails, fresh0);
      WithdrawnWrites(w, a, done);
    }
  }

  /** A run of a withdrawn application is a taking back and nothing else. */
  lemma WithdrawnRecords(w: World, a: AppId, fails: set<Op>, fresh0: PrefixId)
    requires a in w.apps && IsWithdrawn(w.apps[a])
    ensures var ws := RunWrites(w, a, fails, fresh0);
            forall i :: 0 <= i < |ws| && ws[i].SetStatus? ==> ws[i].status == Decommissioned
  {
    TakeBackRecords(w.apps[a], fails);
    assert RunWrites(w, a, fails, fresh0) == TakeBackStage(w.apps[a], fails).writes;
  }

  lemma TakeBackRecords(app: App, fails: set<Op>)
    requires IsWithdrawn(app)
    ensures var ws := TakeBackStage(app, fails).writes;
            forall i :: 0 <= i < |ws| && ws[i].SetStatus? ==> ws[i].status == Decommissioned
  {
  }

  // --- The catalogue pin ---------------------------------------------------------------------

  /** What the entry decided is as it was. */
  predicate PinKept(app: App, app': App) {
    && app'.pinned && (app'.chart, app'.values) == (app.chart, app.values)
    && (app'.selector, app'.services, app'.egress) == (app.selector, app.services, app.egress)
  }

  lemma {:induction false} WritesKeepPin(w: World, a: AppId, ws: seq<Write>)
    requires a in w.apps && w.apps[a].pinned
    requires PinsNothing(ws)
    ensures PinKept(w.apps[a], ApplyAll(w, a, ws).apps[a])
    decreases |ws|
  {
    if ws != [] {
      WritesKeepPin(w, a, ws[..|ws| - 1]);
      OneWrite(ApplyAll(w, a, ws[..|ws| - 1]), a, ws[|ws| - 1]);
    }
  }

  predicate PinsNothing(ws: seq<Write>) {
    forall i :: 0 <= i < |ws| ==> !ws[i].AttachValues? && !ws[i].Pin?
  }

  lemma PinsNothingConcat(ws: seq<Write>, ws': seq<Write>)
    requires PinsNothing(ws) && PinsNothing(ws')
    ensures PinsNothing(ws + ws')
  {
  }

  lemma PinnedPartPinsNothing(w: World, a: AppId, fails: set<Op>)
    requires a in w.apps && w.apps[a].pinned
    ensures PinsNothing(PinPart(w, a, fails).writes)
  {
  }

  lemma RunKeepsPin(w: World, a: AppId, fails: set<Op>, fresh0: PrefixId, budget: nat)
    requires a in w.apps && w.apps[a].pinned
    ensures PinKept(w.apps[a], Run(w, a, fails, fresh0, budget).apps[a])
  {
    var ws := RunWrites(w, a, fails, fresh0);
    PinnedPartPinsNothing(w, a, fails);
    RestHasNoPins(w, a, fails, fresh0);
    assert PinsNothing(Rest(w, a, fails, fresh0));
    PinsNothingConcat(PinPart(w, a, fails).writes, Rest(w, a, fails, fresh0));
    WritesKeepPin(w, a, if budget < |ws| then ws[..budget] else ws);
  }

  /** The application as the entry makes it: the chart is the entry's, its values are the
      entry's unless the entry has none, and only blanks are filled. */
  predicate PinnedTo(app: App, app': App, entry: Entry) {
    && app'.pinned && app'.chart == entry.chart
    && app'.values == (if entry.values.Some? then entry.values else app.values)
    && app'.selector == (if app.selector == [] then entry.selector else app.selector)
    && app'.services == (if app.services == {} then entry.services else app.services)
    && (app'.egress <==> app.egress || entry.egress)
    && (app.namespace != "" ==> app'.namespace == app.namespace)
  }

  predicate Commits(w: World, a: AppId, app': App)
    requires a in w.apps
  {
    var app := w.apps[a];
    if app'.pinned then
      app.definition.Some? && app.definition.value in w.catalogue && PinnedTo(app, app', w.catalogue[app.definition.value])
    else app'.chart == app.chart
  }

  /** The marker is the commit point: wherever a run of an unpinned application stops, if
      the marker is set then everything it stands for is there, the values included, and
      if it is not then the chart is still the requested one. */
  lemma PinIsTheCommitPoint(w: World, a: AppId, fails: set<Op>, fresh0: PrefixId, budget: nat)
    requires a in w.apps && !w.apps[a].pinned
    ensures var app, app' := w.apps[a], Run(w, a, fails, fresh0, budget).apps[a];
            if app'.pinned then
              && app.definition.Some? && app.definition.value in w.catalogue
              && var entry := w.catalogue[app.definition.value];
                 && app'.chart == entry.chart
                 && app'.values == (if entry.values.Some? then entry.values else app.values)
                 && app'.selector == (if app.selector == [] then entry.selector else app.selector)
                 && app'.services == (if app.services == {} then entry.services else app.services)
                 && (app'.egress <==> app.egress || entry.egress)
                 && (app.namespace != "" ==> app'.namespace == app.namespace)
            else app'.chart == app.chart
  {
    RunCommits(w, a, fails, fresh0, budget);
  }

  lemma RunCommits(w: World, a: AppId, fails: set<Op>, fresh0: PrefixId, budget: nat)
    requires a in w.apps && !w.apps[a].pinned
    ensures Commits(w, a, Run(w, a, fails, fresh0, budget).apps[a])
  {
    var pin, rest := PinPart(w, a, fails).writes, Rest(w, a, fails, fresh0);
    RunSplits(w, a, fails, fresh0, budget);
    PinPartCommits(w, a, fails, budget);
    PinPartCommits(w, a, fails, |pin|);
    RestHasNoPins(w, a, fails, fresh0);
    if budget >= |pin| {
      var left := budget - |pin|;
      RestWritesFrame(ApplyAll(w, a, pin), a, if left < |rest| then rest[..left] else rest);
    }
  }

  lemma OneWriteProgress(w: World, a: AppId, wr: Write, budget: nat)
    requires a in w.apps
    ensures Progress(w, a, [], budget) == w
    ensures Progress(w, a, [wr], budget) == if budget == 0 then w else Apply(w, a, wr)
  {
    ApplyOne(w, a, wr);
    assert [wr][..0] == [];
  }

  lemma PinPartCommits(w: World, a: AppId, fails: set<Op>, budget: nat)
    requires a in w.apps && !w.apps[a].pinned
    ensures Commits(w, a, Progress(w, a, PinPart(w, a, fails).writes, budget).apps[a])
  {
    var app := w.apps[a];
    OneWriteProgress(w, a, DefaultNamespace, budget);
    if IsWithdrawn(app) || app.definition.None? || FetchEntry in fails || app.definition.value !in w.catalogue {
      assert PinPart(w, a, fails).writes in {[], [DefaultNamespace]};
    } else {
      var entry := w.catalogue[app.definition.value];
      if AttachStage(app, entry, fails).raised {
        assert PinPart(w, a, fails).writes == [];
      } else {
        PinStageOf(w, a, entry, fails);
        PinCommits(w, a, entry, fails, budget);
      }
    }
  }

  lemma PinCommits(w: World, a: AppId, entry: Entry, fails: set<Op>, budget: nat)
    requires a in w.apps && Unpinned(w.apps[a])
    requires w.apps[a].definition.value in w.catalogue && w.catalogue[w.apps[a].definition.value] == entry
    requires !AttachStage(w.apps[a], entry, fails).raised
    ensures var attach := AttachStage(w.apps[a], entry, fails).writes;
            && Commits(w, a, Progress(w, a, attach, budget).apps[a])
            && Commits(w, a, Progress(w, a, attach + [Pin(entry)], budget).apps[a])
  {
    var app := w.apps[a];
    var attach := AttachStage(app, entry, fails).writes;
    var mid := ApplyAll(w, a, attach);
    AttachResult(w, a, entry, fails);
    ProgressConcat(w, a, attach, [Pin(entry)], budget);
    assert Commits(w, a, app) && Commits(w, a, mid.apps[a]);
    assert Commits(w, a, AppAfter(mid.apps[a], Pin(entry)));
    if budget < |attach| {
      OneWriteProgress(w, a, attach[0], 0);
      assert attach[..budget] == [];
    } else {
      OneWriteProgress(mid, a, Pin(entry), budget - |attach|);
    }
  }
}
