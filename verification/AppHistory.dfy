/** What holds over every sequence of application runs, wherever they stop, and of edits
    made by hand. */
module AppHistory {
  import opened Options
  import opened FabricApp
  import opened AppLifecycle

  /** The world, and the prefixes people ever declared. */
  datatype Site = Site(world: World, hand: set<PrefixId>)

  datatype Event =
    | RunOf(a: AppId, fails: set<Op>, fresh0: PrefixId, budget: nat)
    | Request(a: AppId, app: App)
    | DeclarePrefix(p: PrefixId)
    | NameBlock(a: AppId, block: Option<PrefixId>)
    | Expose(a: AppId, exposed: bool)
    | EditStatus(a: AppId, status: Status)
    | EditCatalogue(e: EntryId, entry: Entry)

  /** An id that nothing carries or refers to. */
  predicate Unused(s: Site, p: PrefixId) {
    p !in s.world.prefixes && p !in s.hand && forall a :: a in s.world.apps ==> s.world.apps[a].block != Some(p)
  }

  /** A new prefix is new, a new request holds no block, and a person can point any
      application at any prefix there is, or at none, whatever its mark says. */
  predicate Allowed(s: Site, e: Event) {
    match e
    case RunOf(a, _, fresh0, _) => a in s.world.apps && Unused(s, fresh0)
    case Request(a, app) => a !in s.world.apps && app.block.None? && !app.managed
    case DeclarePrefix(p) => Unused(s, p)
    case NameBlock(a, block) => a in s.world.apps && (block.Some? ==> block.value in s.world.prefixes)
    case Expose(a, _) => a in s.world.apps
    case EditStatus(a, _) => a in s.world.apps
    case EditCatalogue(_, _) => true
  }

  function Step(s: Site, e: Event): Site
    requires Allowed(s, e)
  {
    var w := s.world;
    match e
    case RunOf(a, fails, fresh0, budget) => s.(world := Run(w, a, fails, fresh0, budget))
    case Request(a, app) => s.(world := w.(apps := w.apps[a := app]))
    case DeclarePrefix(p) => Site(w.(prefixes := w.prefixes + {p}), s.hand + {p})
    case NameBlock(a, block) => s.(world := w.(apps := w.apps[a := w.apps[a].(block := block)]))
    case Expose(a, exposed) => s.(world := w.(apps := w.apps[a := w.apps[a].(exposed := exposed)]))
    case EditStatus(a, status) => s.(world := w.(apps := w.apps[a := w.apps[a].(status := status)]))
    case EditCatalogue(e, entry) => s.(world := w.(catalogue := w.catalogue[e := entry]))
  }

  ghost predicate AllAllowed(s: Site, events: seq<Event>)
    decreases |events|, 0
  {
    events == [] || (AllAllowed(s, events[..|events| - 1])
                     && Allowed(After(s, events[..|events| - 1]), events[|events| - 1]))
  }

  /** The site after a whole history. */
  ghost function After(s: Site, events: seq<Event>): Site
    requires AllAllowed(s, events)
    decreases |events|, 1
  {
    if events == [] then s else Step(After(s, events[..|events| - 1]), events[|events| - 1])
  }

  // --- The pool's account -----------------------------------------------------------------------

  /** Every prefix is hand-declared or reserved for exactly one application, and what is
      reserved exists. */
  ghost predicate Accounted(s: Site) {
    var w := s.world;
    && w.prefixes <= s.hand + w.reserved.Values
    && w.reserved.Values <= w.prefixes
    && s.hand !! w.reserved.Values
    && (forall a, b :: a in w.reserved && b in w.reserved && w.reserved[a] == w.reserved[b] ==> a == b)
    && w.reserved.Keys <= w.apps.Keys
  }

  lemma DropAccounted(s: Site, w': World, a: AppId, p: PrefixId)
    requires Accounted(s) && a in s.world.apps && w'.apps.Keys == s.world.apps.Keys
    requires w'.prefixes == s.world.prefixes - {p} && w'.reserved == ReservedAfter(s.world.reserved, a, Delete(p))
    ensures Accounted(s.(world := w'))
  {
    forall q | q in w'.prefixes ensures q in s.hand + w'.reserved.Values {
      if q in s.world.reserved.Values {
        var b :| b in s.world.reserved && s.world.reserved[b] == q;
        assert b in w'.reserved && w'.reserved[b] == q;
      }
    }
  }

  lemma GiveAccounted(s: Site, w': World, a: AppId, q: PrefixId)
    requires Accounted(s) && a in s.world.apps && w'.apps.Keys == s.world.apps.Keys
    requires if a in s.world.reserved then q == s.world.reserved[a] else q !in s.world.prefixes && q !in s.hand
    requires w'.prefixes == s.world.prefixes + {q} && w'.reserved == s.world.reserved[a := q]
    ensures Accounted(s.(world := w'))
  {
    assert w'.reserved[a] == q && q in w'.reserved.Values;
    forall r | r in s.world.reserved.Values ensures r in w'.reserved.Values {
      var b :| b in s.world.reserved && s.world.reserved[b] == r;
      assert b in w'.reserved && w'.reserved[b] == r;
    }
  }

  lemma RunKeepsAccounted(s: Site, a: AppId, fails: set<Op>, fresh0: PrefixId, budget: nat)
    requires Accounted(s) && Allowed(s, RunOf(a, fails, fresh0, budget))
    ensures Accounted(Step(s, RunOf(a, fails, fresh0, budget)))
  {
    var w, w', left := s.world, Run(s.world, a, fails, fresh0, budget), Left(s.world, a, fails, budget);
    RunEffect(w, a, fails, fresh0, budget);
    WithdrawnStaysWithdrawn(w, a, fails, fresh0, budget);
    if Clears(w, a, fails) && left >= 2 && DeletePrefix !in fails {
      DropAccounted(s, w', a, w.apps[a].block.value);
    } else if Gives(w, a, fails) && left >= 1 {
      GiveAccounted(s, w', a, PoolAnswer(w, a, fresh0));
    }
  }

  lemma StepKeepsAccounted(s: Site, e: Event)
    requires Accounted(s) && Allowed(s, e)
    ensures Accounted(Step(s, e)) && s.hand <= Step(s, e).hand
  {
    if e.RunOf? {
      RunKeepsAccounted(s, e.a, e.fails, e.fresh0, e.budget);
    }
  }

  lemma {:induction false} HistoryKeepsAccounted(s: Site, events: seq<Event>)
    requires Accounted(s) && AllAllowed(s, events)
    ensures Accounted(After(s, events)) && s.hand <= After(s, events).hand
    decreases |events|
  {
    if events != [] {
      HistoryKeepsAccounted(s, events[..|events| - 1]);
      StepKeepsAccounted(After(s, events[..|events| - 1]), events[|events| - 1]);
    }
  }

  /** The application holds the block the pool reserved for it. */
  predicate HoldsOwn(w: World, a: AppId) {
    a in w.apps && w.apps[a].managed && a in w.reserved && w.apps[a].block == Some(w.reserved[a])
  }

  /** A prefix nothing uses: not declared by hand and not the block of any application. */
  ghost predicate Orphan(w: World, hand: set<PrefixId>, p: PrefixId) {
    p in w.prefixes && p !in hand && forall a :: a in w.apps ==> w.apps[a].block != Some(p)
  }

  /** `p` waits for application `a` and for no other. */
  ghost predicate WaitsFor(w: World, p: PrefixId, a: AppId) {
    && a in w.apps
    && (forall b :: b in w.reserved && w.reserved[b] == p <==> b == a)
    && (forall fails: set<Op>, fresh0 :: GetsABlock(w, a, fails) ==>
          FullRun(w, a, fails, fresh0).apps[a].block == Some(p))
  }

  /** After any history, crashes and re-pointed blocks included: the blocks the pool gave
      are there, are not hand-declared and differ between applications; every orphan
      waits for exactly one application, whose next successful allocation takes it back;
      and no application has two. */
  lemma PoolBlocksAreSafe(s: Site, events: seq<Event>)
    requires Accounted(s) && AllAllowed(s, events)
    ensures var w, hand := After(s, events).world, After(s, events).hand;
            && (forall a :: HoldsOwn(w, a) ==> w.apps[a].block.value in w.prefixes && w.apps[a].block.value !in hand)
            && (forall a, b :: HoldsOwn(w, a) && HoldsOwn(w, b) && a != b ==> w.apps[a].block != w.apps[b].block)
            && (forall p :: Orphan(w, hand, p) ==> exists a :: WaitsFor(w, p, a))
            && (forall p, q, a :: WaitsFor(w, p, a) && WaitsFor(w, q, a) ==> p == q)
  {
    HistoryKeepsAccounted(s, events);
    var w, hand := After(s, events).world, After(s, events).hand;
    forall p | Orphan(w, hand, p) ensures exists a :: WaitsFor(w, p, a) {
      var a :| a in w.reserved && w.reserved[a] == p;
      forall fails: set<Op>, fresh0 | GetsABlock(w, a, fails) ensures FullRun(w, a, fails, fresh0).apps[a].block == Some(p) {
        FullRunResult(w, a, fails, fresh0);
      }
      assert WaitsFor(w, p, a);
    }
    forall p, q, a | WaitsFor(w, p, a) && WaitsFor(w, q, a) ensures p == q {
      assert a in w.reserved && w.reserved[a] == p && w.reserved[a] == q;
    }
    forall a | HoldsOwn(w, a) ensures w.reserved[a] in w.reserved.Values {
    }
  }

  // --- What is lost -------------------------------------------------------------------------------

  /** The run gets as far as deleting `p`, the block of its application. */
  predicate Loses(s: Site, e: Event, p: PrefixId) {
    && e.RunOf? && e.a in s.world.apps
    && Deletes(s.world, e.a, e.fails, p) && Left(s.world, e.a, e.fails, e.budget) >= 2
  }

  /** Some run of the history does. */
  ghost predicate LostIn(s: Site, events: seq<Event>, p: PrefixId)
    requires AllAllowed(s, events)
    decreases |events|
  {
    events != [] && (LostIn(s, events[..|events| - 1], p) || Loses(After(s, events[..|events| - 1]), events[|events| - 1], p))
  }

  lemma StepLosesExactly(s: Site, e: Event, p: PrefixId)
    requires Allowed(s, e)
    ensures p in s.world.prefixes ==> (p !in Step(s, e).world.prefixes <==> Loses(s, e, p))
    ensures p in s.hand && p !in s.world.prefixes && Accounted(s) ==> p !in Step(s, e).world.prefixes
  {
    if e.RunOf? {
      RunEffect(s.world, e.a, e.fails, e.fresh0, e.budget);
      if e.a in s.world.reserved { assert s.world.reserved[e.a] in s.world.reserved.Values; }
    }
  }

  /** Over every history a hand-declared prefix is lost exactly when some run withdraws an
      application that is marked as holding a managed block while its block is that prefix. */
  lemma {:induction false} HandLostExactly(s: Site, events: seq<Event>, p: PrefixId)
    requires Accounted(s) && AllAllowed(s, events) && p in s.hand && p in s.world.prefixes
    ensures p !in After(s, events).world.prefixes <==> LostIn(s, events, p)
    decreases |events|
  {
    if events != [] {
      var before := events[..|events| - 1];
      HandLostExactly(s, before, p);
      HistoryKeepsAccounted(s, before);
      StepLosesExactly(After(s, before), events[|events| - 1], p);
      LosesIsPresent(After(s, before), events[|events| - 1], p);
    }
  }

  lemma LosesIsPresent(s: Site, e: Event, p: PrefixId)
    requires Allowed(s, e)
    ensures Loses(s, e, p) ==> p !in Step(s, e).world.prefixes
  {
    if e.RunOf? { RunEffect(s.world, e.a, e.fails, e.fresh0, e.budget); }
  }

  /** Marked as holding a managed block, while the block is a hand-declared one. */
  predicate Repointed(s: Site, a: AppId) {
    && a in s.world.apps && s.world.apps[a].managed
    && s.world.apps[a].block.Some? && s.world.apps[a].block.value in s.hand
  }

  predicate NoneRepointed(s: Site) {
    forall a :: a in s.world.apps ==> !Repointed(s, a)
  }

  /** A person names a hand-declared block on an application that is marked. */
  predicate RepointsMarked(s: Site, e: Event) {
    && e.NameBlock? && e.a in s.world.apps && s.world.apps[e.a].managed
    && e.block.Some? && e.block.value in s.hand
  }

  /** That, and nothing the generator does, is how it comes about. */
  lemma RepointedExactly(s: Site, e: Event)
    requires Accounted(s) && Allowed(s, e) && NoneRepointed(s)
    ensures NoneRepointed(Step(s, e)) <==> !RepointsMarked(s, e)
  {
    var s' := Step(s, e);
    if e.RunOf? {
      RunEffect(s.world, e.a, e.fails, e.fresh0, e.budget);
      WithdrawnStaysWithdrawn(s.world, e.a, e.fails, e.fresh0, e.budget);
      assert e.a in s.world.reserved ==> s.world.reserved[e.a] in s.world.reserved.Values;
      assert !Repointed(s, e.a);
    }
    forall a | a in s'.world.apps && !RepointsMarked(s, e) ensures !Repointed(s', a) {
      assert a in s.world.apps ==> !Repointed(s, a);
    }
    if RepointsMarked(s, e) { assert Repointed(s', e.a); }
  }

  /** So as long as nobody does it nothing declared is lost. */
  lemma {:induction false} HandIsSafe(s: Site, events: seq<Event>)
    requires Accounted(s) && AllAllowed(s, events) && NoneRepointed(s) && s.hand <= s.world.prefixes
    requires NobodyRepoints(s, events)
    ensures NoneRepointed(After(s, events)) && After(s, events).hand <= After(s, events).world.prefixes
    decreases |events|
  {
    if events != [] {
      var before, e := After(s, events[..|events| - 1]), events[|events| - 1];
      HandIsSafe(s, events[..|events| - 1]);
      HistoryKeepsAccounted(s, events[..|events| - 1]);
      RepointedExactly(before, e);
      forall p | p in Step(before, e).hand ensures p in Step(before, e).world.prefixes {
        StepLosesExactly(before, e, p);
        assert e.RunOf? ==> !Repointed(before, e.a);
      }
    }
  }

  ghost predicate NobodyRepoints(s: Site, events: seq<Event>)
    requires AllAllowed(s, events)
    decreases |events|
  {
    events != [] ==> NobodyRepoints(s, events[..|events| - 1])
                     && !RepointsMarked(After(s, events[..|events| - 1]), events[|events| - 1])
  }

  /** It takes one such edit: from any state, point a marked application at any
      hand-declared prefix, ask for its withdrawal, and one undisturbed run deletes it. */
  lemma RepointedBlockIsLost(s: Site, a: AppId, p: PrefixId, fresh0: PrefixId)
    requires a in s.world.apps && s.world.apps[a].managed && p in s.hand && p in s.world.prefixes && Unused(s, fresh0)
    ensures var s1 := Step(s, NameBlock(a, Some(p)));
            var s2 := Step(s1, EditStatus(a, Decommissioning));
            && Allowed(s2, RunOf(a, {}, fresh0, 2))
            && p !in Step(s2, RunOf(a, {}, fresh0, 2)).world.prefixes
  {
    var s2 := Step(Step(s, NameBlock(a, Some(p))), EditStatus(a, Decommissioning));
    assert PinPart(s2.world, a, {}) == Stage([], false);
    assert Deletes(s2.world, a, {}, p) && Left(s2.world, a, {}, 2) == 2;
    RunEffect(s2.world, a, {}, fresh0, 2);
  }

  // --- References -----------------------------------------------------------------------------------

  /** No application refers to a prefix that does not exist. */
  predicate NoDangling(s: Site) {
    forall a :: a in s.world.apps && s.world.apps[a].block.Some? ==> s.world.apps[a].block.value in s.world.prefixes
  }

  /** A reference is left dangling exactly by a run that deletes a block which a person has
      also named on another application. */
  lemma DanglesExactly(s: Site, e: Event)
    requires Accounted(s) && Allowed(s, e) && NoDangling(s)
    ensures NoDangling(Step(s, e)) <==> !exists b, p :: Loses(s, e, p) && NamedElsewhere(s, e.a, b, p)
  {
    var s' := Step(s, e);
    if e.RunOf? {
      RunEffect(s.world, e.a, e.fails, e.fresh0, e.budget);
      WithdrawnStaysWithdrawn(s.world, e.a, e.fails, e.fresh0, e.budget);
      RunLeavesOwnReference(s, e);
      forall b | b in s'.world.apps && s'.world.apps[b].block.Some? && s'.world.apps[b].block.value !in s'.world.prefixes
        ensures exists p :: Loses(s, e, p) && NamedElsewhere(s, e.a, b, p)
      {
        StepLosesExactly(s, e, s.world.apps[b].block.value);
        assert NamedElsewhere(s, e.a, b, s.world.apps[b].block.value);
      }
      forall b, p | Loses(s, e, p) && NamedElsewhere(s, e.a, b, p) ensures !NoDangling(s') {
        LosesIsPresent(s, e, p);
        assert s'.world.apps[b].block == Some(p);
      }
    }
  }

  /** It takes one edit and a withdrawal: name the block of any marked application on any
      other one, withdraw the first, and the second refers to a prefix that is gone. */
  lemma BlockNamedTwiceDangles(s: Site, a: AppId, b: AppId, p: PrefixId, fresh0: PrefixId)
    requires a in s.world.apps && b in s.world.apps && a != b && Unused(s, fresh0)
    requires s.world.apps[a].managed && s.world.apps[a].block == Some(p) && p in s.world.prefixes
    ensures var s1 := Step(s, NameBlock(b, Some(p)));
            var s2 := Step(s1, EditStatus(a, Decommissioning));
            && Allowed(s2, RunOf(a, {}, fresh0, 2))
            && !NoDangling(Step(s2, RunOf(a, {}, fresh0, 2)))
  {
    var s2 := Step(Step(s, NameBlock(b, Some(p))), EditStatus(a, Decommissioning));
    var e := RunOf(a, {}, fresh0, 2);
    assert PinPart(s2.world, a, {}) == Stage([], false);
    assert Loses(s2, e, p);
    LosesIsPresent(s2, e, p);
    WithdrawnStaysWithdrawn(s2.world, a, {}, fresh0, 2);
    assert Step(s2, e).world.apps[b].block == Some(p);
  }

  lemma RunLeavesOwnReference(s: Site, e: Event)
    requires Accounted(s) && Allowed(s, e) && NoDangling(s) && e.RunOf?
    ensures var app := Step(s, e).world.apps[e.a]; app.block.Some? ==> app.block.value in Step(s, e).world.prefixes
  {
    RunEffect(s.world, e.a, e.fails, e.fresh0, e.budget);
  }

  predicate NamedElsewhere(s: Site, a: AppId, b: AppId, p: PrefixId) {
    b != a && b in s.world.apps && s.world.apps[b].block == Some(p)
  }

  // --- When people keep to their own blocks -----------------------------------------------------------

  /** Marked applications hold what the pool reserved for them and all others what was
      declared by hand, all of which exists. */
  ghost predicate Owned(s: Site) {
    && Accounted(s) && s.hand <= s.world.prefixes
    && (forall a :: a in s.world.apps ==> BlockOwned(s, a))
  }

  predicate BlockOwned(s: Site, a: AppId)
    requires a in s.world.apps
  {
    var app := s.world.apps[a];
    if app.managed then HoldsOwn(s.world, a) else app.block.Some? ==> app.block.value in s.hand
  }

  /** A person names hand-declared blocks, on unmarked applications. */
  predicate Tidy(s: Site, e: Event) {
    e.NameBlock? && e.a in s.world.apps ==>
      var app := s.world.apps[e.a];
      if app.managed then e.block == app.block else e.block.Some? ==> e.block.value in s.hand
  }

  /** Ownership survives a step exactly when the step is tidy: every step of a run,
      wherever it stops, and every other edit is. */
  lemma OwnedKeptExactly(s: Site, e: Event)
    requires Owned(s) && Allowed(s, e)
    ensures Owned(Step(s, e)) <==> Tidy(s, e)
  {
    var s' := Step(s, e);
    StepKeepsAccounted(s, e);
    if e.RunOf? {
      RunKeepsOwned(s, e);
    } else if Tidy(s, e) {
      forall b | b in s'.world.apps ensures BlockOwned(s', b) {
        assert b in s.world.apps ==> BlockOwned(s, b);
      }
    } else {
      assert BlockOwned(s, e.a) && !BlockOwned(s', e.a);
    }
  }

  lemma RunKeepsOwned(s: Site, e: Event)
    requires Owned(s) && Allowed(s, e) && e.RunOf?
    ensures Owned(Step(s, e))
  {
    var w, w' := s.world, Step(s, e).world;
    RunKeepsAccounted(s, e.a, e.fails, e.fresh0, e.budget);
    RunEffect(w, e.a, e.fails, e.fresh0, e.budget);
    WithdrawnStaysWithdrawn(w, e.a, e.fails, e.fresh0, e.budget);
    forall p | p in s.hand ensures p in w'.prefixes {
      StepLosesExactly(s, e, p);
      assert BlockOwned(s, e.a);
      assert e.a in w.reserved ==> w.reserved[e.a] in w.reserved.Values;
    }
    forall b | b in w'.apps ensures BlockOwned(Step(s, e), b) {
      assert BlockOwned(s, b) && BlockOwned(s, e.a);
      if b != e.a { OthersKeepReservation(s, e, b); }
    }
  }

  lemma OthersKeepReservation(s: Site, e: Event, b: AppId)
    requires Owned(s) && Allowed(s, e) && e.RunOf? && b != e.a && b in s.world.apps
    ensures HoldsOwn(s.world, b) ==> HoldsOwn(Step(s, e).world, b)
  {
    RunEffect(s.world, e.a, e.fails, e.fresh0, e.budget);
    WithdrawnStaysWithdrawn(s.world, e.a, e.fails, e.fresh0, e.budget);
    assert BlockOwned(s, e.a);
  }

  ghost predicate AllTidy(s: Site, events: seq<Event>)
    requires AllAllowed(s, events)
    decreases |events|
  {
    events != [] ==> AllTidy(s, events[..|events| - 1]) && Tidy(After(s, events[..|events| - 1]), events[|events| - 1])
  }

  /** After any history of crashing runs and tidy edits: no application refers to a deleted
      prefix, everything declared by hand is still there, and no two managed blocks are
      the same or hand-declared. */
  lemma {:induction false} TidyHistoryIsSafe(s: Site, events: seq<Event>)
    requires Owned(s) && AllAllowed(s, events) && AllTidy(s, events)
    ensures Owned(After(s, events)) && NoDangling(After(s, events))
    ensures var w, hand := After(s, events).world, After(s, events).hand;
            && s.hand <= hand <= w.prefixes
            && (forall a :: a in w.apps && w.apps[a].managed ==> w.apps[a].block.Some? && w.apps[a].block.value !in hand)
            && (forall a, b :: a in w.apps && b in w.apps && w.apps[a].managed && a != b ==> w.apps[a].block != w.apps[b].block)
    decreases |events|
  {
    HistoryKeepsAccounted(s, events);
    if events != [] {
      TidyHistoryIsSafe(s, events[..|events| - 1]);
      OwnedKeptExactly(After(s, events[..|events| - 1]), events[|events| - 1]);
    }
    OwnedIsSafe(After(s, events));
  }

  lemma OwnedIsSafe(s: Site)
    requires Owned(s)
    ensures NoDangling(s)
    ensures var w := s.world;
            && (forall a :: a in w.apps && w.apps[a].managed ==> w.apps[a].block.Some? && w.apps[a].block.value !in s.hand)
            && (forall a, b :: a in w.apps && b in w.apps && w.apps[a].managed && a != b ==> w.apps[a].block != w.apps[b].block)
  {
    var w := s.world;
    forall a | a in w.apps
      ensures w.apps[a].block.Some? ==> w.apps[a].block.value in w.prefixes
      ensures w.apps[a].managed ==> w.apps[a].block.Some? && w.apps[a].block.value !in s.hand
    {
      assert BlockOwned(s, a);
      assert a in w.reserved ==> w.reserved[a] in w.reserved.Values;
    }
    forall a, b | a in w.apps && b in w.apps && w.apps[a].managed && a != b ensures w.apps[a].block != w.apps[b].block {
      assert BlockOwned(s, a) && BlockOwned(s, b);
      assert w.reserved[a] in w.reserved.Values;
    }
  }

  // --- The catalogue pin over histories -----------------------------------------------------------------

  /** The pin is one-shot: once taken it stays taken, and whatever runs, catalogue edits
      and other edits follow, what it copied does not change. */
  lemma {:induction false} PinIsOneShot(s: Site, events: seq<Event>, a: AppId)
    requires AllAllowed(s, events) && a in s.world.apps && s.world.apps[a].pinned
    ensures a in After(s, events).world.apps
    ensures PinKept(s.world.apps[a], After(s, events).world.apps[a])
    ensures var app, app' := s.world.apps[a], After(s, events).world.apps[a];
            && app'.pinned && app'.chart == app.chart && app'.values == app.values
            && app'.selector == app.selector && app'.services == app.services && app'.egress == app.egress
    decreases |events|
  {
    if events != [] {
      var before, e := events[..|events| - 1], events[|events| - 1];
      PinIsOneShot(s, before, a);
      StepKeepsPin(After(s, before), e, a);
    }
  }

  lemma StepKeepsPin(s: Site, e: Event, a: AppId)
    requires Allowed(s, e) && a in s.world.apps && s.world.apps[a].pinned
    ensures a in Step(s, e).world.apps && PinKept(s.world.apps[a], Step(s, e).world.apps[a])
  {
    if e.RunOf? {
      WithdrawnStaysWithdrawn(s.world, e.a, e.fails, e.fresh0, e.budget);
      if e.a == a {
        RunKeepsPin(s.world, a, e.fails, e.fresh0, e.budget);
      }
    }
  }
}
