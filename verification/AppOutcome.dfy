/** What one whole run of the application generator comes to, said in the application's own
    fields: when the pin raises and what it fills in, and what happens to the status, the
    block, the mark and the pool for every choice of operations that raise. */
module AppOutcome {
  import opened Options
  import opened FabricApp
  import opened AppLifecycle

  // --- The pin ----------------------------------------------------------------------------------

  /** With neither an entry nor a chart there is nothing to deploy. With a chart alone, or
      once pinned, only the save of a blank namespace can raise. */
  lemma PinRaisesExactly(w: World, a: AppId, fails: set<Op>)
    requires a in w.apps
    ensures var app := w.apps[a];
            PinStage(w, a, fails).raised <==>
              match app.definition
              case None => app.chart.name.None? || (app.namespace == "" && SaveService in fails)
              case Some(d) =>
                if app.pinned then app.namespace == "" && SaveService in fails
                else FetchEntry in fails || d !in w.catalogue || SaveService in fails
                     || (w.catalogue[d].values.Some? && w.catalogue[d].values != app.values && AttachFile in fails)
    ensures PinPart(w, a, fails).raised <==>
            w.apps[a].status != Decommissioning && w.apps[a].status != Decommissioned && PinStage(w, a, fails).raised
  {
  }

  /** What a pin that does not raise leaves: a blank namespace becomes the application's
      name, and an application with an entry is pinned to it, once. */
  lemma PinFills(w: World, a: AppId, fails: set<Op>)
    requires a in w.apps && !PinStage(w, a, fails).raised
    ensures var app, app' := w.apps[a], ApplyAll(w, a, PinStage(w, a, fails).writes).apps[a];
            && app'.namespace == (if app.namespace == "" then app.name else app.namespace)
            && if app.definition.None? || app.pinned then app' == app.(namespace := app'.namespace)
               else
                 && app.definition.value in w.catalogue
                 && var entry := w.catalogue[app.definition.value];
                    app' == app.(namespace := app'.namespace, pinned := true, chart := entry.chart,
                                 values := if entry.values.Some? then entry.values else app.values,
                                 selector := if app.selector == [] then entry.selector else app.selector,
                                 services := if app.services == {} then entry.services else app.services,
                                 egress := app.egress || entry.egress)
  {
    var app := w.apps[a];
    if Unpinned(app) {
      PinFillsFromEntry(w, a, w.catalogue[app.definition.value], fails);
    } else {
      ApplyOne(w, a, DefaultNamespace);
      assert w.apps[a := w.apps[a]] == w.apps;
    }
  }

  lemma PinFillsFromEntry(w: World, a: AppId, entry: Entry, fails: set<Op>)
    requires a in w.apps && Unpinned(w.apps[a]) && !PinStage(w, a, fails).raised
    requires w.apps[a].definition.value in w.catalogue && w.catalogue[w.apps[a].definition.value] == entry
    ensures ApplyAll(w, a, PinStage(w, a, fails).writes).apps[a]
            == Pinned(w.apps[a].(values := if entry.values.Some? then entry.values else w.apps[a].values), entry)
  {
    var attach := AttachStage(w.apps[a], entry, fails).writes;
    PinStageOf(w, a, entry, fails);
    AttachResult(w, a, entry, fails);
    ApplyConcat(w, a, attach, [Pin(entry)]);
    ApplyOne(ApplyAll(w, a, attach), a, Pin(entry));
  }

  // --- The whole run ----------------------------------------------------------------------------

  lemma FullRunEffect(w: World, a: AppId, fails: set<Op>, fresh0: PrefixId)
    requires a in w.apps
    ensures EffectOf(FullRun(w, a, fails, fresh0), a) == EffectAfter(w, a, fails, fresh0, 2)
    ensures FullRun(w, a, fails, fresh0).apps[a].status == if SaveStatus in fails then w.apps[a].status else Verdict(w, a, fails)
  {
    var budget := |RunWrites(w, a, fails, fresh0)| + 2;
    RunEffect(w, a, fails, fresh0, budget);
    assert Run(w, a, fails, fresh0, budget) == FullRun(w, a, fails, fresh0);
    FullRunResult(w, a, fails, fresh0);
  }

  /** A pin that raises ends the run: the status is Error, and block, mark and pool are as
      they were. */
  lemma RunOfRaisedPin(w: World, a: AppId, fails: set<Op>, fresh0: PrefixId)
    requires a in w.apps && PinPart(w, a, fails).raised
    ensures var was, w' := w.apps[a], FullRun(w, a, fails, fresh0);
            && w'.apps[a].status == (if SaveStatus in fails then was.status else Error)
            && w'.apps[a].block == was.block && w'.apps[a].managed == was.managed
            && w'.prefixes == w.prefixes && w'.reserved == w.reserved
    ensures RunStage(w, a, fails, fresh0).raised
  {
    FullRunEffect(w, a, fails, fresh0);
  }

  /** A live, exposed application keeps the block it has, whoever put it there; without one
      it gets the one the pool reserved for it, or else a new one, marked as managed. */
  lemma RunOfExposed(w: World, a: AppId, fails: set<Op>, fresh0: PrefixId)
    requires a in w.apps && w.apps[a].status !in {Decommissioning, Decommissioned} && w.apps[a].exposed
    requires !PinPart(w, a, fails).raised
    ensures var was, w' := w.apps[a], FullRun(w, a, fails, fresh0);
            var app, p := w'.apps[a], if a in w.reserved then w.reserved[a] else fresh0;
            var got := Validate !in fails && PoolAllocate !in fails;
            if was.block.Some? then
              && app.status == (if SaveStatus in fails then was.status else Active)
              && app.block == was.block && app.managed == was.managed
              && w'.prefixes == w.prefixes && w'.reserved == w.reserved
            else
              && app.status == (if SaveStatus in fails then was.status
                                else if got && SaveReference !in fails then Active else Error)
              && app.block == (if got && SaveReference !in fails then Some(p) else None)
              && app.managed == ((got && SaveReference !in fails) || was.managed)
              && w'.prefixes == (if got then w.prefixes + {p} else w.prefixes)
              && w'.reserved == (if got then w.reserved[a := p] else w.reserved)
    ensures RunStage(w, a, fails, fresh0).raised <==>
            || (w.apps[a].block.None? && (Validate in fails || PoolAllocate in fails || SaveReference in fails))
            || (w.apps[a].status != Active && SaveStatus in fails)
  {
    FullRunEffect(w, a, fails, fresh0);
  }

  /** An unexposed application is not withdrawn: it ends Active. A withdrawn one ends
      Decommissioned. Both give back a managed block, the reference first, and keep any
      other; a delete that raises leaves the status as it was. */
  lemma RunOfBlockless(w: World, a: AppId, fails: set<Op>, fresh0: PrefixId)
    requires a in w.apps && (w.apps[a].status in {Decommissioning, Decommissioned} || !w.apps[a].exposed)
    requires !PinPart(w, a, fails).raised
    ensures var was, w' := w.apps[a], FullRun(w, a, fails, fresh0);
            var app, end := w'.apps[a], if was.status in {Decommissioning, Decommissioned} then Decommissioned else Active;
            var gives := was.block.Some? && was.managed;
            && app.status == (if SaveStatus in fails || (gives && (ClearReference in fails || DeletePrefix in fails)) then was.status else end)
            && (if gives && ClearReference !in fails then app.block == None && !app.managed
                else app.block == was.block && app.managed == was.managed)
            && (if gives && ClearReference !in fails && DeletePrefix !in fails
                then w'.prefixes == w.prefixes - {was.block.value}
                     && w'.reserved == map b | b in w.reserved && w.reserved[b] != was.block.value :: w.reserved[b]
                else w'.prefixes == w.prefixes && w'.reserved == w.reserved)
            && (RunStage(w, a, fails, fresh0).raised <==>
                  || (gives && (ClearReference in fails || DeletePrefix in fails))
                  || (was.status != end && SaveStatus in fails))
  {
    BlocklessStatus(w, a, fails, fresh0);
    BlocklessBlock(w, a, fails, fresh0);
    BlocklessRaises(w, a, fails, fresh0);
  }

  lemma BlocklessStatus(w: World, a: AppId, fails: set<Op>, fresh0: PrefixId)
    requires a in w.apps && !WantsABlock(w.apps[a]) && !PinPart(w, a, fails).raised
    ensures var was := w.apps[a];
            FullRun(w, a, fails, fresh0).apps[a].status ==
            if SaveStatus in fails || (was.block.Some? && was.managed && (ClearReference in fails || DeletePrefix in fails))
            then was.status else if IsWithdrawn(was) then Decommissioned else Active
  {
    FullRunResult(w, a, fails, fresh0);
  }

  lemma BlocklessBlock(w: World, a: AppId, fails: set<Op>, fresh0: PrefixId)
    requires a in w.apps && !WantsABlock(w.apps[a]) && !PinPart(w, a, fails).raised
    ensures var was, w' := w.apps[a], FullRun(w, a, fails, fresh0);
            var clears := was.block.Some? && was.managed && ClearReference !in fails;
            && w'.apps[a].block == (if clears then None else was.block)
            && w'.apps[a].managed == (!clears && was.managed)
            && w'.prefixes == (if clears && DeletePrefix !in fails then w.prefixes - {was.block.value} else w.prefixes)
            && w'.reserved == (if clears && DeletePrefix !in fails
                               then map b | b in w.reserved && w.reserved[b] != was.block.value :: w.reserved[b] else w.reserved)
  {
    FullRunEffect(w, a, fails, fresh0);
    assert EffectOf(FullRun(w, a, fails, fresh0), a) == EffectAfter(w, a, fails, fresh0, 2);
  }

  lemma BlocklessRaises(w: World, a: AppId, fails: set<Op>, fresh0: PrefixId)
    requires a in w.apps && !WantsABlock(w.apps[a]) && !PinPart(w, a, fails).raised
    ensures var was := w.apps[a];
            RunStage(w, a, fails, fresh0).raised <==>
              || (was.block.Some? && was.managed && (ClearReference in fails || DeletePrefix in fails))
              || (was.status != (if IsWithdrawn(was) then Decommissioned else Active) && SaveStatus in fails)
  {
  }

  /** The undisturbed run, from start to end. */
  lemma UndisturbedRun(w: World, a: AppId, fresh0: PrefixId)
    requires a in w.apps
    ensures var was, w' := w.apps[a], FullRun(w, a, {}, fresh0);
            var app := w'.apps[a];
            if was.status in {Decommissioning, Decommissioned} then
              app.status == Decommissioned && !(app.block.Some? && app.managed)
            else if (was.definition.None? && was.chart.name.None?)
                    || (was.definition.Some? && !was.pinned && was.definition.value !in w.catalogue) then
              app.status == Error && app.block == was.block
            else if !was.exposed then
              app.status == Active && !(app.block.Some? && app.managed) && w'.reserved.Keys <= w.reserved.Keys
            else
              app.status == Active && app.block.Some? && (was.block.Some? ==> app.block == was.block)
  {
    PinRaisesExactly(w, a, {});
    if PinPart(w, a, {}).raised {
      RunOfRaisedPin(w, a, {}, fresh0);
    } else if w.apps[a].status !in {Decommissioning, Decommissioned} && w.apps[a].exposed {
      RunOfExposed(w, a, {}, fresh0);
    } else {
      RunOfBlockless(w, a, {}, fresh0);
    }
  }
}
