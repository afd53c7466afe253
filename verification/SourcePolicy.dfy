/** The source prefixes an application permits. The list is shared by people and by
    every grant on the application; a grant may take back only what it recorded. */
module SourcePolicy {
  import opened Options

  type AppId = string
  type GrantId = string
  type PrefixId = string

  datatype Status = Provisioning | Active | Error | Decommissioning | Decommissioned

  /** One access grant: its application, and `granted_source_prefixes`. */
  datatype Grant = Grant(id: GrantId, application: Option<AppId>, status: Status, recorded: set<PrefixId>)

  /** `allowed_source_prefixes` of every application, and every grant in query order. */
  datatype World = World(allowed: map<AppId, set<PrefixId>>, grants: seq<Grant>)

  predicate IsWithdrawn(g: Grant) {
    g.status == Decommissioning || g.status == Decommissioned
  }

  ghost predicate Valid(w: World) {
    && (forall i, j :: 0 <= i < j < |w.grants| ==> w.grants[i].id != w.grants[j].id)
    && (forall g :: g in w.grants && g.application.Some? ==> g.application.value in w.allowed)
  }

  /** Whether `sibling` is another grant the question about `g` concerns. */
  predicate Sibling(sibling: Grant, g: Grant, application: Option<AppId>, liveOnly: bool) {
    && sibling.id != g.id
    && !(liveOnly && IsWithdrawn(sibling))
    && (application.None? || sibling.application == application)
  }

  ghost function OtherRecords(grants: seq<Grant>, g: Grant, application: Option<AppId>, liveOnly: bool): set<PrefixId> {
    set s, p | s in grants && Sibling(s, g, application, liveOnly) && p in s.recorded :: p
  }

  method PrefixesOtherGrantsRecord(grants: seq<Grant>, g: Grant, application: Option<AppId>, liveOnly: bool)
    returns (needed: set<PrefixId>)
    ensures needed == OtherRecords(grants, g, application, liveOnly)
  {
    needed := {};
    for i := 0 to |grants|
      invariant needed == OtherRecords(grants[..i], g, application, liveOnly)
    {
      var node := grants[i];
      assert grants[..i + 1] == grants[..i] + [node];
      assert forall s :: s in grants[..i + 1] <==> s in grants[..i] || s == node;
      if node.id == g.id {
        continue;
      }
      if liveOnly && IsWithdrawn(node) {
        continue;
      }
      if application.Some? && (node.application.None? || node.application.value != application.value) {
        continue;
      }
      needed := needed + node.recorded;
    }
    assert grants[..|grants|] == grants;
  }

  // --- What one run does ---------------------------------------------------------------

  /** `_permit_source`: name the source, and record it only when a grant put it there. */
  ghost function PermitSource(w: World, i: nat, source: Option<PrefixId>): World
    requires Valid(w) && i < |w.grants|
  {
    var g := w.grants[i];
    if source.None? || g.application.None? then w
    else
      var a, p := g.application.value, source.value;
      var already := p in w.allowed[a];
      var owned := p in OtherRecords(w.grants, g, g.application, false);
      World(
        w.allowed[a := w.allowed[a] + {p}],
        if already && !owned then w.grants else w.grants[i := g.(recorded := g.recorded + {p})])
  }

  /** What a withdrawal may take off the application. */
  ghost function Removable(w: World, i: nat): set<PrefixId>
    requires i < |w.grants|
  {
    var g := w.grants[i];
    g.recorded - OtherRecords(w.grants, g, g.application, true)
  }

  /** `_revoke_source`. */
  ghost function RevokeSource(w: World, i: nat): World
    requires Valid(w) && i < |w.grants|
  {
    var g := w.grants[i];
    if g.application.None? then w
    else w.(allowed := w.allowed[g.application.value := w.allowed[g.application.value] - Removable(w, i)])
  }

  function WithStatus(w: World, i: nat, status: Status): World
    requires i < |w.grants|
  {
    w.(grants := w.grants[i := w.grants[i].(status := status)])
  }

  /** One run of the generator on one grant. `valid` is whether the request validates,
      `others` how many firewall objects a withdrawal removed. */
  ghost function Run(w: World, i: nat, source: Option<PrefixId>, valid: bool, others: nat): World
    requires Valid(w) && i < |w.grants|
  {
    if IsWithdrawn(w.grants[i]) then
      var revoked := RevokeSource(w, i);
      var removed := others + (if w.grants[i].application.Some? then |Removable(w, i)| else 0);
      if removed > 0 then WithStatus(revoked, i, Decommissioned) else revoked
    else if !valid then WithStatus(w, i, Error)
    else PermitSource(WithStatus(w, i, Active), i, source)
  }

  /** Permitting in the fields alone: the source is added to the application; and the grant
      records it unless it was there already and no other grant on the application, live or
      withdrawn, records it. */
  lemma PermitByField(w: World, i: nat, p: PrefixId, a: AppId)
    requires Valid(w) && i < |w.grants| && w.grants[i].application == Some(a) && a in w.allowed
    ensures var g, w' := w.grants[i], PermitSource(w, i, Some(p));
            && w'.allowed == w.allowed[a := w.allowed[a] + {p}]
            && |w'.grants| == |w.grants| && (forall k :: 0 <= k < |w.grants| && k != i ==> w'.grants[k] == w.grants[k])
            && w'.grants[i] == g.(recorded := w'.grants[i].recorded)
            && w'.grants[i].recorded ==
               if p in w.allowed[a] && (forall s :: s in w.grants && s.id != g.id && s.application == Some(a) ==> p !in s.recorded)
               then g.recorded else g.recorded + {p}
  {
  }

  /** Revoking: what the grant recorded goes, except what another grant on the application
      records that is neither decommissioning nor decommissioned. Its record stays. */
  lemma RevokeByField(w: World, i: nat, p: PrefixId, a: AppId)
    requires Valid(w) && i < |w.grants| && w.grants[i].application == Some(a) && a in w.allowed
    ensures var g, w' := w.grants[i], RevokeSource(w, i);
            && w'.grants == w.grants && w'.allowed.Keys == w.allowed.Keys
            && (forall b :: b in w.allowed && b != a ==> w'.allowed[b] == w.allowed[b])
            && (p in w'.allowed[a] <==>
                  && p in w.allowed[a]
                  && (p in g.recorded ==> exists s :: s in w.grants && s.id != g.id && s.application == Some(a) && p in s.recorded
                                                      && s.status != Decommissioning && s.status != Decommissioned))
  {
  }

  /** The status a run leaves: a withdrawn grant ends Decommissioned once it took anything
      away, and stays as it is when there was nothing; a request that does not validate ends
      in Error with nothing permitted; any other ends Active. */
  lemma RunStatus(w: World, i: nat, source: Option<PrefixId>, valid: bool, others: nat)
    requires Valid(w) && i < |w.grants|
    ensures var g, w' := w.grants[i], Run(w, i, source, valid, others);
            && |w'.grants| == |w.grants|
            && (if g.status == Decommissioning || g.status == Decommissioned then
                  w'.grants[i].status ==
                  if others > 0 || (g.application.Some? && exists p :: p in Removable(w, i)) then Decommissioned else g.status
                else w'.grants[i].status == if valid then Active else Error)
            && (g.status != Decommissioning && g.status != Decommissioned && !valid ==> w'.allowed == w.allowed)
  {
    if exists p :: p in Removable(w, i) {
      var p :| p in Removable(w, i);
      assert |Removable(w, i)| > 0;
    } else {
      assert Removable(w, i) == {};
    }
    var w1 := WithStatus(w, i, Active);
    if !IsWithdrawn(w.grants[i]) && valid {
      Replaced(w, i, w.grants[i].(status := Active));
      assert w1.grants[i].status == Active;
    }
  }

  lemma SameEntry(m: map<AppId, set<PrefixId>>, a: AppId)
    requires a in m
    ensures m[a := m[a]] == m
  {
  }

  lemma NothingRemoved(w: World, i: nat)
    requires Valid(w) && i < |w.grants| && w.grants[i].application.Some? && Removable(w, i) == {}
    ensures RevokeSource(w, i) == w
  {
    var a := w.grants[i].application.value;
    assert w.allowed[a] - {} == w.allowed[a];
    SameEntry(w.allowed, a);
  }

  // --- The store the runs write to --------------------------------------------------------

  class Store {
    var allowed: map<AppId, set<PrefixId>>
    var grants: seq<Grant>

    ghost function State(): World
      reads this
    {
      World(allowed, grants)
    }

    constructor (w: World)
      ensures State() == w
    {
      allowed, grants := w.allowed, w.grants;
    }

    method Permit(i: nat, source: Option<PrefixId>)
      requires Valid(State()) && i < |grants|
      modifies this
      ensures State() == PermitSource(old(State()), i, source)
    {
      var g := grants[i];
      if source.None? || g.application.None? {
        return;
      }
      var prefix, application := source.value, g.application.value;
      assert g in grants;
      var owned := PrefixesOtherGrantsRecord(grants, g, g.application, false);
      var alreadyAllowed := allowed[application];
      if prefix !in alreadyAllowed {
        allowed := allowed[application := allowed[application] + {prefix}];
      }
      assert prefix in alreadyAllowed ==> alreadyAllowed + {prefix} == alreadyAllowed;
      SameEntry(old(allowed), application);
      if prefix in alreadyAllowed && prefix !in owned {
        return;
      }
      if prefix !in g.recorded {
        grants := grants[i := g.(recorded := g.recorded + {prefix})];
      }
      assert prefix in g.recorded ==> g.recorded + {prefix} == g.recorded;
      assert old(grants)[i := g] == old(grants);
    }

    method Revoke(i: nat) returns (removed: nat)
      requires Valid(State()) && i < |grants|
      modifies this
      ensures State() == RevokeSource(old(State()), i)
      ensures removed == if old(grants)[i].application.Some? then |Removable(old(State()), i)| else 0
    {
      var g := grants[i];
      assert g in grants;
      if g.recorded == {} || g.application.None? {
        if g.application.Some? {
          NothingRemoved(State(), i);
        }
        return 0;
      }
      var application := g.application.value;
      var needed := PrefixesOtherGrantsRecord(grants, g, g.application, true);
      var removable := g.recorded - needed;
      removed := |removable|;
      if removable == {} {
        NothingRemoved(State(), i);
        return;
      }
      ghost var before := allowed[application];
      var left := removable * allowed[application];
      assert before - (removable - left) == before;
      SameEntry(allowed, application);
      while left != {}
        invariant grants == old(grants) && application in allowed && left <= removable * before
        invariant allowed == old(allowed)[application := before - (removable - left)]
        decreases left
      {
        var prefix :| prefix in left;
        assert before - (removable - left) - {prefix} == before - (removable - (left - {prefix}));
        allowed := allowed[application := allowed[application] - {prefix}];
        left := left - {prefix};
      }
      assert before - (removable - left) == before - removable;
    }
  }

  // --- Over every interleaving of runs -----------------------------------------------------

  /** A step of the life of the grants: a run of one, a run cut off between permitting its
      source and recording it, a request to withdraw one, a new grant, or a prefix that a
      person declares. A withdrawn status is never set back. */
  datatype Step =
    | RunGenerator(i: nat, source: Option<PrefixId>, valid: bool, others: nat)
    | CutOff(i: nat, permitted: PrefixId)
    | RequestWithdrawal(i: nat)
    | CreateGrant(id: GrantId, application: Option<AppId>)
    | Declare(a: AppId, p: PrefixId)

  /** The world, with what the claims speak of: which withdrawals have been asked for and
      not run, which source each live grant was last built for, and of the permitted
      prefixes those that people declared and those that cut-off runs left. */
  datatype History = History(
    world: World, pending: set<GrantId>, built: map<GrantId, PrefixId>,
    hand: map<AppId, set<PrefixId>>, stray: map<AppId, set<PrefixId>>)

  ghost predicate Possible(h: History, step: Step) {
    match step
    case RunGenerator(i, _, _, _) => i < |h.world.grants|
    case CutOff(i, _) => i < |h.world.grants| && !IsWithdrawn(h.world.grants[i]) && h.world.grants[i].application.Some?
    case RequestWithdrawal(i) => i < |h.world.grants|
    case CreateGrant(id, application) =>
      && (forall g :: g in h.world.grants ==> g.id != id)
      && (application.Some? ==> application.value in h.world.allowed)
      && id !in h.built && id !in h.pending
    case Declare(a, _) => a in h.world.allowed
  }

  /** The first write of `_permit_source` without the second. */
  ghost function CutOffPermit(w: World, i: nat, source: PrefixId): World
    requires Valid(w) && i < |w.grants| && w.grants[i].application.Some?
  {
    var a := w.grants[i].application.value;
    WithStatus(w.(allowed := w.allowed[a := w.allowed[a] + {source}]), i, Active)
  }

  function At(m: map<AppId, set<PrefixId>>, a: AppId): set<PrefixId> {
    if a in m then m[a] else {}
  }

  /** What a run of grant `i` takes off is nobody's any more. */
  ghost function TakenOff(m: map<AppId, set<PrefixId>>, w: World, i: nat): map<AppId, set<PrefixId>>
    requires i < |w.grants|
  {
    var g := w.grants[i];
    if IsWithdrawn(g) && g.application.Some?
    then m[g.application.value := At(m, g.application.value) - Removable(w, i)] else m
  }

  ghost function Next(h: History, step: Step): History
    requires Valid(h.world) && Possible(h, step)
  {
    var w := h.world;
    match step
    case RunGenerator(i, source, valid, others) =>
      var g := w.grants[i];
      History(
        Run(w, i, source, valid, others),
        h.pending - {g.id},
        if !IsWithdrawn(g) && valid && source.Some? && g.application.Some? then h.built[g.id := source.value] else h.built,
        TakenOff(h.hand, w, i),
        TakenOff(h.stray, w, i))
    case CutOff(i, source) =>
      var a := w.grants[i].application.value;
      h.(world := CutOffPermit(w, i, source),
         stray := if Answered(h, a, source) then h.stray else h.stray[a := At(h.stray, a) + {source}])
    case RequestWithdrawal(i) =>
      var g := w.grants[i];
      if IsWithdrawn(g) then h
      else h.(world := WithStatus(w, i, Decommissioning), pending := h.pending + {g.id}, built := h.built - {g.id})
    case CreateGrant(id, application) =>
      h.(world := w.(grants := w.grants + [Grant(id, application, Provisioning, {})]))
    case Declare(a, p) =>
      h.(world := w.(allowed := w.allowed[a := w.allowed[a] + {p}]), hand := h.hand[a := At(h.hand, a) + {p}])
  }

  /** A withdrawal waits from its request until the grant's next run, and nothing else does. */
  lemma WaitsForItsRun(h: History, step: Step, id: GrantId)
    requires Valid(h.world) && Possible(h, step)
    ensures id in Next(h, step).pending <==>
            || (&& step.RequestWithdrawal? && h.world.grants[step.i].id == id
                && h.world.grants[step.i].status != Decommissioning && h.world.grants[step.i].status != Decommissioned)
            || (id in h.pending && !(step.RunGenerator? && h.world.grants[step.i].id == id))
  {
  }

  /** Permitting it once more leaves nothing that somebody does not answer for. */
  ghost predicate Answered(h: History, a: AppId, p: PrefixId) {
    (a in h.world.allowed && p in h.world.allowed[a]) || Claimed(h, a, p)
  }

  ghost predicate Live(h: History, g: Grant) {
    g in h.world.grants && !IsWithdrawn(g)
  }

  /** What holds at every point: all that is permitted was declared, was left by a cut-off
      run, or is recorded by a grant that answers for it. */
  ghost predicate Invariant(h: History) {
    var w := h.world;
    && Valid(w)
    && (forall g :: g in w.grants && g.application.None? ==> g.recorded == {})
    && (forall a :: a in w.allowed ==> At(h.hand, a) + At(h.stray, a) <= w.allowed[a])
    && (forall g :: Live(h, g) && g.application.Some? ==> g.recorded <= w.allowed[g.application.value])
    && (forall a, p :: a in w.allowed && p in w.allowed[a] ==> Explained(h, a, p))
    && (forall g :: Live(h, g) && g.id in h.built && g.application.Some? ==>
          h.built[g.id] in g.recorded || Unrecorded(w, g.application.value, h.built[g.id]))
    && (forall g :: g in w.grants && g.id in h.pending ==> IsWithdrawn(g))
  }

  ghost predicate Explained(h: History, a: AppId, p: PrefixId) {
    p in At(h.hand, a) || p in At(h.stray, a) || Claimed(h, a, p)
  }

  /** A prefix the application permits and no grant on it records. */
  ghost predicate Unrecorded(w: World, a: AppId, p: PrefixId) {
    a in w.allowed && p in w.allowed[a] && forall g :: g in w.grants && g.application == Some(a) ==> p !in g.recorded
  }

  /** Some grant that is live, or whose withdrawal has not run yet, recorded it. */
  ghost predicate Claimed(h: History, a: AppId, p: PrefixId) {
    exists g :: g in h.world.grants && g.application == Some(a) && p in g.recorded
                && (!IsWithdrawn(g) || g.id in h.pending)
  }

  ghost predicate Reaches(h: History, steps: seq<Step>, h': History)
    decreases |steps|
  {
    if steps == [] then h == h'
    else Valid(h.world) && Possible(h, steps[0]) && Reaches(Next(h, steps[0]), steps[1..], h')
  }

  // Replacing one grant leaves every other one, and ids identify grants.
  lemma Replaced(w: World, i: nat, g': Grant)
    requires Valid(w) && i < |w.grants| && g'.id == w.grants[i].id && g'.application == w.grants[i].application
    ensures var grants' := w.grants[i := g'];
            && Valid(w.(grants := grants'))
            && g' in grants' && w.grants[i] in w.grants
            && (forall x :: x in grants' <==> x == g' || (x in w.grants && x.id != g'.id))
            && (forall x :: x in w.grants && x.id == g'.id ==> x == w.grants[i])
  {
    var grants' := w.grants[i := g'];
    assert grants'[i] == g';
    forall x | x in w.grants && x.id != g'.id ensures x in grants' {
      var k :| 0 <= k < |w.grants| && w.grants[k] == x;
      assert grants'[k] == x;
    }
  }

  lemma StatusKeepsInvariant(h: History, i: nat, status: Status)
    requires Invariant(h) && i < |h.world.grants|
    requires IsWithdrawn(h.world.grants[i]) <==> status == Decommissioning || status == Decommissioned
    ensures Invariant(h.(world := WithStatus(h.world, i, status)))
  {
    var g := h.world.grants[i];
    var h' := h.(world := WithStatus(h.world, i, status));
    Replaced(h.world, i, g.(status := status));
    forall a, p | a in h.world.allowed && p in h.world.allowed[a] ensures Explained(h', a, p) {
      assert Explained(h, a, p);
      if Claimed(h, a, p) { ClaimMoves(h, h', i, a, p); }
    }
    BuiltMoves(h, h', i);
  }

  /** What a grant was built for stays recorded or unrecorded when only its own record
      grows, by nothing unrecorded. */
  lemma BuiltMoves(h: History, h': History, i: nat)
    requires Invariant(h) && i < |h.world.grants| && h'.world.allowed.Keys == h.world.allowed.Keys
    requires forall x :: x in h'.world.grants ==> x in h.world.grants || x.id == h.world.grants[i].id
    requires forall x :: x in h'.world.grants && x.id == h.world.grants[i].id ==>
               && x.application == h.world.grants[i].application && h.world.grants[i].recorded <= x.recorded
               && (forall p :: p in x.recorded && p !in h.world.grants[i].recorded && x.application.Some? ==>
                     !Unrecorded(h.world, x.application.value, p))
    requires forall a, p :: Unrecorded(h.world, a, p) && a in h'.world.allowed ==> p in h'.world.allowed[a]
    ensures forall g, p :: g in h.world.grants && g.application.Some? && Unrecorded(h.world, g.application.value, p) ==>
              Unrecorded(h'.world, g.application.value, p)
  {
    forall g, p | g in h.world.grants && g.application.Some? && Unrecorded(h.world, g.application.value, p)
      ensures Unrecorded(h'.world, g.application.value, p)
    {
      assert h.world.grants[i] in h.world.grants;
    }
  }

  /** A claim survives any change to its grant that keeps the record and keeps it
      live or pending. */
  lemma ClaimMoves(h: History, h': History, i: nat, a: AppId, p: PrefixId)
    requires Valid(h.world) && i < |h.world.grants| && Claimed(h, a, p)
    requires forall x :: x in h.world.grants && x.id != h.world.grants[i].id ==> x in h'.world.grants
    requires forall x :: x in h.world.grants && x.id in h.pending && x.id != h.world.grants[i].id ==> x.id in h'.pending
    requires exists g' :: g' in h'.world.grants && g'.application == h.world.grants[i].application
                          && h.world.grants[i].recorded <= g'.recorded && (!IsWithdrawn(g') || g'.id in h'.pending
                             || (IsWithdrawn(h.world.grants[i]) && h.world.grants[i].id !in h.pending))
    ensures Claimed(h', a, p)
  {
    var x :| x in h.world.grants && x.application == Some(a) && p in x.recorded && (!IsWithdrawn(x) || x.id in h.pending);
    if x.id == h.world.grants[i].id {
      Replaced(h.world, i, h.world.grants[i]);
    } else {
      assert x in h'.world.grants;
    }
  }

  lemma RequestKeepsInvariant(h: History, i: nat)
    requires Invariant(h) && i < |h.world.grants| && !IsWithdrawn(h.world.grants[i])
    ensures Invariant(Next(h, RequestWithdrawal(i)))
  {
    var g := h.world.grants[i];
    var h' := Next(h, RequestWithdrawal(i));
    Replaced(h.world, i, g.(status := Decommissioning));
    forall a, p | a in h.world.allowed && p in h.world.allowed[a] ensures Explained(h', a, p) {
      assert Explained(h, a, p);
      if Claimed(h, a, p) { ClaimMoves(h, h', i, a, p); }
    }
    BuiltMoves(h, h', i);
  }

  /** What `Permit` leaves, with its bookkeeping. */
  ghost function Permitted(h: History, i: nat, source: PrefixId): History
    requires Valid(h.world) && i < |h.world.grants|
  {
    h.(world := PermitSource(h.world, i, Some(source)), built := h.built[h.world.grants[i].id := source])
  }

  lemma PermitKeepsInvariant(h: History, i: nat, source: PrefixId)
    requires Invariant(h) && i < |h.world.grants|
    requires !IsWithdrawn(h.world.grants[i]) && h.world.grants[i].application.Some?
    ensures Invariant(Permitted(h, i, source))
  {
    var w, g := h.world, h.world.grants[i];
    var owned := source in OtherRecords(w.grants, g, g.application, false);
    if source in w.allowed[g.application.value] && !owned {
      PermitOfUnowned(h, i, source);
    } else {
      PermitOfOwned(h, i, source);
    }
  }

  /** Nobody else recorded it: it is unrecorded, or this grant recorded it already. */
  lemma PermitOfUnowned(h: History, i: nat, source: PrefixId)
    requires Invariant(h) && i < |h.world.grants|
    requires !IsWithdrawn(h.world.grants[i]) && h.world.grants[i].application.Some?
    requires var w, g := h.world, h.world.grants[i];
             source in w.allowed[g.application.value] && source !in OtherRecords(w.grants, g, g.application, false)
    ensures Invariant(Permitted(h, i, source))
  {
    var w, g, h' := h.world, h.world.grants[i], Permitted(h, i, source);
    var a := g.application.value;
    Replaced(w, i, g);
    assert w.allowed[a] + {source} == w.allowed[a];
    SameEntry(w.allowed, a);
    assert h'.world == w;
    if source !in g.recorded {
      forall x | x in w.grants && x.application == Some(a) ensures source !in x.recorded {
        assert x.id != g.id ==> Sibling(x, g, g.application, false);
      }
      assert Unrecorded(w, a, source);
    }
    forall b, p | b in w.allowed && p in w.allowed[b] ensures Explained(h', b, p) {
      assert Explained(h, b, p);
      if Claimed(h, b, p) { ClaimMoves(h, h', i, b, p); }
    }
  }

  lemma PermitOfOwned(h: History, i: nat, source: PrefixId)
    requires Invariant(h) && i < |h.world.grants|
    requires !IsWithdrawn(h.world.grants[i]) && h.world.grants[i].application.Some?
    requires var w, g := h.world, h.world.grants[i];
             source !in w.allowed[g.application.value] || source in OtherRecords(w.grants, g, g.application, false)
    ensures Invariant(Permitted(h, i, source))
  {
    var w, g, h' := h.world, h.world.grants[i], Permitted(h, i, source);
    var a := g.application.value;
    var g' := g.(recorded := g.recorded + {source});
    Replaced(w, i, g');
    assert g' in h'.world.grants && !IsWithdrawn(g');
    assert !Unrecorded(w, a, source);
    BuiltMoves(h, h', i);
    PermitExplained(h, i, source);
  }

  lemma PermitExplained(h: History, i: nat, source: PrefixId)
    requires Invariant(h) && i < |h.world.grants|
    requires !IsWithdrawn(h.world.grants[i]) && h.world.grants[i].application.Some?
    requires var w, g := h.world, h.world.grants[i];
             source !in w.allowed[g.application.value] || source in OtherRecords(w.grants, g, g.application, false)
    ensures var h' := Permitted(h, i, source);
            forall b, p :: b in h'.world.allowed && p in h'.world.allowed[b] ==> Explained(h', b, p)
  {
    var w, g, h' := h.world, h.world.grants[i], Permitted(h, i, source);
    Replaced(w, i, g.(recorded := g.recorded + {source}));
    forall b, p | b in h'.world.allowed && p in h'.world.allowed[b] ensures Explained(h', b, p) {
      if g.application == Some(b) && p == source {
        assert Claimed(h', b, p);
      } else {
        assert Explained(h, b, p);
        if Claimed(h, b, p) { ClaimMoves(h, h', i, b, p); }
      }
    }
  }

  lemma RevokeKeepsInvariant(h: History, i: nat)
    requires Invariant(h) && i < |h.world.grants| && IsWithdrawn(h.world.grants[i])
    ensures Invariant(Revoked(h, i))
  {
    var w, g, h' := h.world, h.world.grants[i], Revoked(h, i);
    Replaced(w, i, g);
    assert g in w.grants;
    var kept := OtherRecords(w.grants, g, g.application, true);
    forall s | Live(h, s) && s.application == g.application && g.application.Some? ensures s.recorded <= kept {
      assert Sibling(s, g, g.application, true);
    }
    RevokedExplained(h, i);
  }

  lemma RevokedExplained(h: History, i: nat)
    requires Invariant(h) && i < |h.world.grants| && IsWithdrawn(h.world.grants[i])
    ensures var h' := Revoked(h, i);
            forall a, p :: a in h'.world.allowed && p in h'.world.allowed[a] ==> Explained(h', a, p)
  {
    var h' := Revoked(h, i);
    assert h.world.grants[i] in h.world.grants;
    forall a, p | a in h'.world.allowed && p in h'.world.allowed[a] ensures Explained(h', a, p) {
      assert Explained(h, a, p);
      if Claimed(h, a, p) { RevokedClaim(h, i, a, p); }
    }
  }

  /** What a run of a withdrawn grant leaves, but for its status. */
  ghost function Revoked(h: History, i: nat): History
    requires Valid(h.world) && i < |h.world.grants|
  {
    h.(world := RevokeSource(h.world, i), pending := h.pending - {h.world.grants[i].id},
       hand := TakenOff(h.hand, h.world, i), stray := TakenOff(h.stray, h.world, i))
  }

  lemma RevokedClaim(h: History, i: nat, a: AppId, p: PrefixId)
    requires Invariant(h) && i < |h.world.grants| && IsWithdrawn(h.world.grants[i])
    requires Claimed(h, a, p) && a in h.world.allowed && p in Revoked(h, i).world.allowed[a]
    ensures Claimed(Revoked(h, i), a, p)
  {
    var w, g, h' := h.world, h.world.grants[i], Revoked(h, i);
    var x :| x in w.grants && x.application == Some(a) && p in x.recorded && (!IsWithdrawn(x) || x.id in h.pending);
    Replaced(w, i, g);
    if x.id == g.id {
      assert p !in Removable(w, i);
      var s :| s in w.grants && Sibling(s, g, g.application, true) && p in s.recorded;
      assert s in h'.world.grants && !IsWithdrawn(s);
    } else {
      assert x in h'.world.grants;
    }
  }

  lemma CreateKeepsInvariant(h: History, id: GrantId, application: Option<AppId>)
    requires Invariant(h) && Possible(h, CreateGrant(id, application))
    ensures Invariant(Next(h, CreateGrant(id, application)))
  {
    var h' := Next(h, CreateGrant(id, application));
    assert forall g :: g in h'.world.grants <==> g in h.world.grants || g == Grant(id, application, Provisioning, {});
    forall a, p | a in h.world.allowed && p in h.world.allowed[a] ensures Explained(h', a, p) {
      assert Explained(h, a, p);
      if Claimed(h, a, p) { ClaimGrows(h, h', a, p); }
    }
  }

  lemma ClaimGrows(h: History, h': History, a: AppId, p: PrefixId)
    requires Claimed(h, a, p) && h'.pending == h.pending
    requires forall g :: g in h.world.grants ==> g in h'.world.grants
    ensures Claimed(h', a, p)
  {
    var x :| x in h.world.grants && x.application == Some(a) && p in x.recorded && (!IsWithdrawn(x) || x.id in h.pending);
    assert x in h'.world.grants;
  }

  lemma DeclareKeepsInvariant(h: History, a: AppId, p: PrefixId)
    requires Invariant(h) && a in h.world.allowed
    ensures Invariant(Next(h, Declare(a, p)))
  {
    var h' := Next(h, Declare(a, p));
    forall b, q | b in h'.world.allowed && q in h'.world.allowed[b] ensures Explained(h', b, q) {
      if b != a || q != p {
        assert Explained(h, b, q);
        if Claimed(h, b, q) { ClaimGrows(h, h', b, q); }
      }
    }
  }

  /** A cut-off run of grant `i`, before anybody is held to account for it. */
  ghost function CutOffAt(h: History, i: nat, source: PrefixId): History
    requires Valid(h.world) && i < |h.world.grants| && h.world.grants[i].application.Some?
  {
    h.(world := CutOffPermit(h.world, i, source))
  }

  /** A run cut off between permitting its source and recording it keeps the invariant
      exactly when the source was permitted before or is claimed. */
  lemma CutOffKeepsInvariantExactly(h: History, i: nat, source: PrefixId)
    requires Invariant(h) && Possible(h, CutOff(i, source))
    ensures Invariant(CutOffAt(h, i, source)) <==> Answered(h, h.world.grants[i].application.value, source)
  {
    var a, h' := h.world.grants[i].application.value, CutOffAt(h, i, source);
    CutOffFrame(h, i, source);
    if Answered(h, a, source) {
      CutOffExplained(h, i, source, h');
    } else {
      assert h.world.grants[i] in h.world.grants && source in h'.world.allowed[a];
      assert Invariant(h') ==> Explained(h', a, source);
    }
  }

  lemma CutOffFrame(h: History, i: nat, source: PrefixId)
    requires Invariant(h) && Possible(h, CutOff(i, source))
    ensures var w, w' := h.world, CutOffPermit(h.world, i, source);
            && Valid(w') && w'.allowed.Keys == w.allowed.Keys
            && (forall a, p :: Claimed(h, a, p) <==> Claimed(CutOffAt(h, i, source), a, p))
            && (forall a, p :: a in w.allowed ==>
                  (p in w'.allowed[a] <==> p in w.allowed[a] || (w.grants[i].application == Some(a) && p == source)))
  {
    var g, h' := h.world.grants[i], CutOffAt(h, i, source);
    var g' := g.(status := Active);
    assert g in h.world.grants;
    Replaced(h.world, i, g');
    assert h'.world.grants == h.world.grants[i := g'];
    forall a, p ensures Claimed(h, a, p) <==> Claimed(h', a, p) {
      if Claimed(h, a, p) { ClaimMoves(h, h', i, a, p); }
      if Claimed(h', a, p) {
        var x :| x in h'.world.grants && x.application == Some(a) && p in x.recorded && (!IsWithdrawn(x) || x.id in h.pending);
        assert x.id == g.id ==> x == g';
      }
    }
  }

  lemma CutOffExplained(h: History, i: nat, source: PrefixId, h': History)
    requires Invariant(h) && Possible(h, CutOff(i, source))
    requires h' == CutOffAt(h, i, source).(stray := h'.stray)
    requires forall a :: a in h.world.allowed ==> At(h.stray, a) <= At(h'.stray, a)
                                                  && At(h'.stray, a) <= h'.world.allowed[a]
    requires var a := h.world.grants[i].application.value; Answered(h, a, source) || source in At(h'.stray, a)
    ensures Invariant(h')
  {
    CutOffFrame(h, i, source);
    CutOffRecords(h, i, source, h');
    forall b, p | b in h'.world.allowed && p in h'.world.allowed[b] ensures Explained(h', b, p) {
      CutOffExplainedAt(h, i, source, h', b, p);
    }
  }

  lemma CutOffRecords(h: History, i: nat, source: PrefixId, h': History)
    requires Invariant(h) && Possible(h, CutOff(i, source))
    requires h' == CutOffAt(h, i, source).(stray := h'.stray)
    ensures forall g :: g in h'.world.grants && g.application.None? ==> g.recorded == {}
    ensures forall g :: Live(h', g) && g.application.Some? ==> g.recorded <= h'.world.allowed[g.application.value]
    ensures forall g :: Live(h', g) && g.id in h'.built && g.application.Some? ==>
              h'.built[g.id] in g.recorded || Unrecorded(h'.world, g.application.value, h'.built[g.id])
    ensures forall g :: g in h'.world.grants && g.id in h'.pending ==> IsWithdrawn(g)
  {
    CutOffFrame(h, i, source);
    Replaced(h.world, i, h.world.grants[i].(status := Active));
    BuiltMoves(h, h', i);
  }

  lemma CutOffExplainedAt(h: History, i: nat, source: PrefixId, h': History, b: AppId, p: PrefixId)
    requires Invariant(h) && Possible(h, CutOff(i, source))
    requires h' == CutOffAt(h, i, source).(stray := h'.stray)
    requires b in h.world.allowed && At(h.stray, b) <= At(h'.stray, b)
    requires var a := h.world.grants[i].application.value; Answered(h, a, source) || source in At(h'.stray, a)
    requires b in h'.world.allowed && p in h'.world.allowed[b]
    ensures Explained(h', b, p)
  {
    CutOffFrame(h, i, source);
    if Claimed(h, b, p) {
      assert Claimed(CutOffAt(h, i, source), b, p);
      ClaimGrows(CutOffAt(h, i, source), h', b, p);
    } else if p in h.world.allowed[b] {
      assert Explained(h, b, p);
    }
  }

  lemma StepKeepsInvariant(h: History, step: Step)
    requires Invariant(h) && Possible(h, step)
    ensures Invariant(Next(h, step))
  {
    match step
    case RequestWithdrawal(i) =>
      if !IsWithdrawn(h.world.grants[i]) { RequestKeepsInvariant(h, i); }
    case CreateGrant(id, application) =>
      CreateKeepsInvariant(h, id, application);
    case Declare(a, p) =>
      DeclareKeepsInvariant(h, a, p);
    case CutOff(i, source) =>
      assert h.world.grants[i] in h.world.grants;
      CutOffFrame(h, i, source);
      CutOffExplained(h, i, source, Next(h, step));
    case RunGenerator(i, source, valid, others) =>
      RunKeepsInvariant(h, i, source, valid, others);
  }

  lemma RunKeepsInvariant(h: History, i: nat, source: Option<PrefixId>, valid: bool, others: nat)
    requires Invariant(h) && i < |h.world.grants|
    ensures Invariant(Next(h, RunGenerator(i, source, valid, others)))
  {
    var g := h.world.grants[i];
    if IsWithdrawn(g) {
      RevokeKeepsInvariant(h, i);
      StatusKeepsInvariant(Revoked(h, i), i, Decommissioned);
    } else {
      assert g in h.world.grants && h.pending - {g.id} == h.pending;
      var status := if valid then Active else Error;
      StatusKeepsInvariant(h, i, status);
      if valid && source.Some? && g.application.Some? {
        PermitKeepsInvariant(h.(world := WithStatus(h.world, i, status)), i, source.value);
      }
    }
  }

  lemma {:induction false} RunsKeepInvariant(h: History, steps: seq<Step>, h': History)
    requires Invariant(h) && Reaches(h, steps, h')
    ensures Invariant(h')
    decreases |steps|
  {
    if steps != [] {
      StepKeepsInvariant(h, steps[0]);
      RunsKeepInvariant(Next(h, steps[0]), steps[1..], h');
    }
  }

  /** Before any grant exists the applications hold what people declared. */
  ghost function Start(hand: map<AppId, set<PrefixId>>): History {
    History(World(hand, []), {}, map[], hand, map[])
  }

  ghost function LiveRecords(w: World, a: AppId): set<PrefixId> {
    set g, p | g in w.grants && g.application == Some(a) && !IsWithdrawn(g) && p in g.recorded :: p
  }

  /** The third of the three gates, over every interleaving of runs, cut-off runs,
      withdrawal requests, new grants and declarations. The application permits what
      people declared, what cut-off runs left, every live record and the source every
      live grant was last built for; and once no requested withdrawal is waiting for its
      run it permits nothing else. What people declared before the first grant is never
      recorded by any grant and never taken off. */
  lemma AllowedIsHandPlusLive(hand: map<AppId, set<PrefixId>>, steps: seq<Step>, h: History, a: AppId)
    requires Reaches(Start(hand), steps, h) && a in hand
    ensures a in h.world.allowed
    ensures hand[a] <= At(h.hand, a)
    ensures forall g :: g in h.world.grants && g.application == Some(a) ==> g.recorded !! hand[a]
    ensures At(h.hand, a) + At(h.stray, a) + LiveRecords(h.world, a) <= h.world.allowed[a]
    ensures forall g :: Live(h, g) && g.application == Some(a) && g.id in h.built ==> h.built[g.id] in h.world.allowed[a]
    ensures forall p :: p in h.world.allowed[a] ==> Explained(h, a, p)
    ensures h.pending == {} ==> h.world.allowed[a] == At(h.hand, a) + At(h.stray, a) + LiveRecords(h.world, a)
  {
    assert Invariant(Start(hand)) by {
      forall b, p | b in hand && p in hand[b] ensures Explained(Start(hand), b, p) {
      }
    }
    RunsKeepInvariant(Start(hand), steps, h);
    AppsStay(Start(hand), steps, h, a);
    forall p | p in hand[a] ensures p in At(h.hand, a) && Unrecorded(h.world, a, p) {
      DeclaredIsForGood(Start(hand), steps, h, a, p);
      UnrecordedIsForGood(Start(hand), steps, h, a, p);
    }
    forall p | p in LiveRecords(h.world, a) ensures p in h.world.allowed[a] {
      var g :| g in h.world.grants && g.application == Some(a) && !IsWithdrawn(g) && p in g.recorded;
      assert Live(h, g);
    }
  }

  lemma {:induction false} AppsStay(h: History, steps: seq<Step>, h': History, a: AppId)
    requires Reaches(h, steps, h') && a in h.world.allowed
    ensures a in h'.world.allowed
    decreases |steps|
  {
    if steps != [] {
      if steps[0].RunGenerator? { assert h.world.grants[steps[0].i] in h.world.grants; }
      AppsStay(Next(h, steps[0]), steps[1..], h', a);
    }
  }

  // --- What is permitted for good -----------------------------------------------------------

  /** Whatever the state it starts from, an unrecorded prefix stays permitted and unrecorded. */
  lemma UnrecordedStays(h: History, step: Step, a: AppId, p: PrefixId)
    requires Valid(h.world) && Possible(h, step) && Unrecorded(h.world, a, p)
    ensures Unrecorded(Next(h, step).world, a, p)
  {
    match step
    case RunGenerator(i, source, valid, others) =>
      var g := h.world.grants[i];
      assert g in h.world.grants;
      if !IsWithdrawn(g) && valid && source.Some? && g.application.Some? {
        var w' := WithStatus(h.world, i, Active);
        StatusKeepsUnrecorded(h.world, i, Active, a, p);
        PermitKeepsUnrecorded(w', i, source.value, a, p);
      } else if IsWithdrawn(g) {
        assert g.application == Some(a) ==> p !in Removable(h.world, i);
        StatusKeepsUnrecorded(RevokeSource(h.world, i), i, Decommissioned, a, p);
      } else {
        StatusKeepsUnrecorded(h.world, i, if valid then Active else Error, a, p);
      }
    case CutOff(i, permitted) =>
      assert h.world.grants[i] in h.world.grants;
      var b := h.world.grants[i].application.value;
      StatusKeepsUnrecorded(h.world.(allowed := h.world.allowed[b := h.world.allowed[b] + {permitted}]), i, Active, a, p);
    case _ =>
  }

  lemma StatusKeepsUnrecorded(w: World, i: nat, status: Status, a: AppId, p: PrefixId)
    requires Valid(w) && i < |w.grants| && Unrecorded(w, a, p)
    ensures Unrecorded(WithStatus(w, i, status), a, p) && Valid(WithStatus(w, i, status))
  {
    Replaced(w, i, w.grants[i].(status := status));
  }

  lemma PermitKeepsUnrecorded(w: World, i: nat, source: PrefixId, a: AppId, p: PrefixId)
    requires Valid(w) && i < |w.grants| && w.grants[i].application.Some? && Unrecorded(w, a, p)
    ensures Unrecorded(PermitSource(w, i, Some(source)), a, p)
  {
    var g := w.grants[i];
    Replaced(w, i, g.(recorded := g.recorded + {source}));
  }

  lemma {:induction false} UnrecordedIsForGood(h: History, steps: seq<Step>, h': History, a: AppId, p: PrefixId)
    requires Reaches(h, steps, h') && Unrecorded(h.world, a, p)
    ensures Unrecorded(h'.world, a, p)
    decreases |steps|
  {
    if steps != [] {
      UnrecordedStays(h, steps[0], a, p);
      UnrecordedIsForGood(Next(h, steps[0]), steps[1..], h', a, p);
    }
  }

  lemma {:induction false} DeclaredIsForGood(h: History, steps: seq<Step>, h': History, a: AppId, p: PrefixId)
    requires Reaches(h, steps, h') && Unrecorded(h.world, a, p) && p in At(h.hand, a)
    ensures p in At(h'.hand, a)
    decreases |steps|
  {
    if steps != [] {
      UnrecordedStays(h, steps[0], a, p);
      if steps[0].RunGenerator? { assert h.world.grants[steps[0].i] in h.world.grants; }
      DeclaredIsForGood(Next(h, steps[0]), steps[1..], h', a, p);
    }
  }

  /** No future takes it off. */
  ghost predicate ForGood(h: History, a: AppId, p: PrefixId) {
    forall steps, h' :: Reaches(h, steps, h') ==> a in h'.world.allowed && p in h'.world.allowed[a]
  }

  ghost predicate Records(w: World, a: AppId, p: PrefixId, i: int) {
    0 <= i < |w.grants| && w.grants[i].application == Some(a) && p in w.grants[i].recorded
  }

  /** All siblings that still want it are withdrawn in turn, then one that recorded it runs. */
  lemma {:induction false} CanBeTakenOff(h: History, a: AppId, p: PrefixId, i: nat, k: nat) returns (steps: seq<Step>, h': History)
    requires Valid(h.world) && Records(h.world, a, p, i) && k <= |h.world.grants|
    requires forall j :: 0 <= j < k && Records(h.world, a, p, j) ==> IsWithdrawn(h.world.grants[j])
    ensures Reaches(h, steps, h') && a in h'.world.allowed && p !in h'.world.allowed[a]
    decreases |h.world.grants| - k
  {
    var step := if k < |h.world.grants| then RequestWithdrawal(k) else RunGenerator(i, None, false, 0);
    var mid := Next(h, step);
    assert h.world.grants[i] in h.world.grants;
    if k < |h.world.grants| {
      Replaced(h.world, k, h.world.grants[k].(status := Decommissioning));
      steps, h' := CanBeTakenOff(mid, a, p, i, k + 1);
      steps := [step] + steps;
    } else {
      assert p in Removable(h.world, i);
      steps, h' := [step], mid;
      assert Reaches(mid, [], h') && [step][1..] == [];
    }
    assert steps[1..] == if k < |h.world.grants| then steps[1..] else [];
  }

  /** A permitted prefix stays permitted in every future exactly when no grant on the
      application, live or withdrawn, records it. */
  lemma PermittedForGoodExactly(h: History, a: AppId, p: PrefixId)
    requires Valid(h.world) && a in h.world.allowed && p in h.world.allowed[a]
    ensures ForGood(h, a, p) <==> Unrecorded(h.world, a, p)
  {
    if Unrecorded(h.world, a, p) {
      forall steps, h' | Reaches(h, steps, h') ensures a in h'.world.allowed && p in h'.world.allowed[a] {
        UnrecordedIsForGood(h, steps, h', a, p);
      }
    } else {
      var g :| g in h.world.grants && g.application == Some(a) && p in g.recorded;
      var i :| 0 <= i < |h.world.grants| && h.world.grants[i] == g;
      var steps, h' := CanBeTakenOff(h, a, p, i, 0);
    }
  }

  /** So a run cut off between its two writes leaves its source permitted for good exactly
      when no grant on the application had recorded it. */
  lemma CutOffIsForGoodExactly(h: History, i: nat, source: PrefixId)
    requires Valid(h.world) && Possible(h, CutOff(i, source))
    ensures var a := h.world.grants[i].application.value;
            ForGood(Next(h, CutOff(i, source)), a, source)
            <==> forall g :: g in h.world.grants && g.application == Some(a) ==> source !in g.recorded
  {
    var g := h.world.grants[i];
    var a, w' := g.application.value, CutOffPermit(h.world, i, source);
    assert g in h.world.grants;
    Replaced(h.world, i, g.(status := Active));
    PermittedForGoodExactly(Next(h, CutOff(i, source)), a, source);
  }

  /** A first cut-off run is enough for such a source. */
  lemma CutOffLeavesAStray(hand: map<AppId, set<PrefixId>>, a: AppId, id: GrantId, p: PrefixId)
    requires a in hand && p !in hand[a]
    ensures exists h :: Reaches(Start(hand), [CreateGrant(id, Some(a)), CutOff(0, p)], h)
              && p in At(h.stray, a) && Unrecorded(h.world, a, p)
  {
    var steps := [CreateGrant(id, Some(a)), CutOff(0, p)];
    var h1 := Next(Start(hand), steps[0]);
    assert steps[1..][1..] == [] && steps[1..][0] == CutOff(0, p);
    var h2 := Next(h1, CutOff(0, p));
    assert Reaches(h2, [], h2);
    assert Reaches(h1, steps[1..], h2);
  }

  /** Only cut-off runs make strays, of a source nobody answered for. */
  lemma {:induction false} StraysAreCutOff(h: History, steps: seq<Step>, h': History, a: AppId, p: PrefixId)
    requires Reaches(h, steps, h') && p !in At(h.stray, a) && p in At(h'.stray, a)
    ensures exists k, mid :: 0 <= k < |steps| && Reaches(h, steps[..k], mid) && StrayMade(mid, steps[k], a, p)
    decreases |steps|
  {
    var next := Next(h, steps[0]);
    if p in At(next.stray, a) {
      assert Reaches(h, steps[..0], h) && StrayMade(h, steps[0], a, p);
    } else {
      StraysAreCutOff(next, steps[1..], h', a, p);
      var k, mid :| 0 <= k < |steps[1..]| && Reaches(next, steps[1..][..k], mid) && StrayMade(mid, steps[1..][k], a, p);
      assert steps[..k + 1][1..] == steps[1..][..k];
      assert Reaches(h, steps[..k + 1], mid) && steps[1..][k] == steps[k + 1];
    }
  }

  ghost predicate StrayMade(h: History, step: Step, a: AppId, p: PrefixId) {
    && step.CutOff? && step.permitted == p && step.i < |h.world.grants|
    && h.world.grants[step.i].application == Some(a) && !Answered(h, a, p)
  }

  /** A withdrawn grant on the application records it, and no live one does. */
  ghost predicate Exposed(w: World, a: AppId, p: PrefixId) {
    && (exists g :: g in w.grants && g.application == Some(a) && IsWithdrawn(g) && p in g.recorded)
    && (forall g :: g in w.grants && g.application == Some(a) && !IsWithdrawn(g) ==> p !in g.recorded)
  }

  /** Whoever put it there, a permitted prefix can be taken off by the very next step
      exactly when it is exposed: also when a person declares it after the withdrawal,
      because a grant's record is never cleared. */
  lemma NextStepTakesOffExactly(h: History, a: AppId, p: PrefixId)
    requires Valid(h.world) && a in h.world.allowed && p in h.world.allowed[a]
    ensures (exists step :: Possible(h, step) && p !in At(Next(h, step).world.allowed, a)) <==> Exposed(h.world, a, p)
  {
    var w := h.world;
    if Exposed(w, a, p) {
      var g :| g in w.grants && g.application == Some(a) && IsWithdrawn(g) && p in g.recorded;
      var i :| 0 <= i < |w.grants| && w.grants[i] == g;
      assert p in Removable(w, i);
      assert p !in At(Next(h, RunGenerator(i, None, false, 0)).world.allowed, a);
    }
    forall step | Possible(h, step) && p !in At(Next(h, step).world.allowed, a) ensures Exposed(w, a, p) {
      TakenOffWasExposed(h, step, a, p);
    }
  }

  /** It does happen: a grant is built for `p`, withdrawn and run; a person declares `p`; and
      one more run of the withdrawn grant takes it off. */
  lemma DeclaredIsTakenOff(hand: map<AppId, set<PrefixId>>, a: AppId, id: GrantId, p: PrefixId)
    requires a in hand && p !in hand[a]
    ensures exists h :: Reaches(Start(hand), LateDeclaration(a, id, p), h) && OneRunTakesOff(h, a, p)
  {
    var h0 := Start(hand);
    var create, build := CreateGrant(id, Some(a)), RunGenerator(0, Some(p), true, 0);
    var h1 := Next(h0, create);
    var g := Grant(id, Some(a), Provisioning, {});
    assert h1.world.grants == [g];
    BuiltOnce(h1, g, g.(status := Active, recorded := {p}), a, p);
    var h := WithdrawnThenDeclared(Next(h1, build), g.(status := Active, recorded := {p}), a, p);
    TwoStepsMore(h0, create, build, LastSteps(a, p), h);
  }

  lemma TwoStepsMore(h: History, x: Step, y: Step, rest: seq<Step>, h': History)
    requires Valid(h.world) && Possible(h, x) && Valid(Next(h, x).world) && Possible(Next(h, x), y)
    requires Reaches(Next(Next(h, x), y), rest, h')
    ensures Reaches(h, [x, y] + rest, h')
  {
    ReachesCons(Next(h, x), y, rest, h');
    ReachesCons(h, x, [y] + rest, h');
    assert [x] + ([y] + rest) == [x, y] + rest;
  }

  function LateDeclaration(a: AppId, id: GrantId, p: PrefixId): seq<Step> {
    [CreateGrant(id, Some(a)), RunGenerator(0, Some(p), true, 0)] + LastSteps(a, p)
  }

  function LastSteps(a: AppId, p: PrefixId): seq<Step> {
    [RequestWithdrawal(0), RunGenerator(0, None, false, 0), Declare(a, p)]
  }

  /** Declared and permitted, and not after a run of the first grant. */
  ghost predicate OneRunTakesOff(h: History, a: AppId, p: PrefixId) {
    && Valid(h.world) && Possible(h, RunGenerator(0, None, false, 0))
    && p in At(h.hand, a) && p in At(h.world.allowed, a)
    && p !in At(Next(h, RunGenerator(0, None, false, 0)).world.allowed, a)
  }

  lemma ReachesCons(h: History, step: Step, rest: seq<Step>, h': History)
    requires Valid(h.world) && Possible(h, step) && Reaches(Next(h, step), rest, h')
    ensures Reaches(h, [step] + rest, h')
  {
    assert ([step] + rest)[1..] == rest;
  }

  /** A grant alone on its application records what its run adds. */
  lemma BuiltOnce(h: History, g: Grant, g2: Grant, a: AppId, p: PrefixId)
    requires Valid(h.world) && h.world.grants == [g] && a in h.world.allowed && p !in h.world.allowed[a]
    requires g == Grant(g.id, Some(a), Provisioning, {}) && g2 == g.(status := Active, recorded := {p})
    ensures var h2 := Next(h, RunGenerator(0, Some(p), true, 0));
            Valid(h2.world) && h2.world.grants == [g2] && a in h2.world.allowed
  {
    var w' := WithStatus(h.world, 0, Active);
    assert w'.grants == [g.(status := Active)];
    assert {} + {p} == {p};
  }

  lemma WithdrawnThenDeclared(h: History, g: Grant, a: AppId, p: PrefixId) returns (h': History)
    requires Valid(h.world) && h.world.grants == [g] && a in h.world.allowed
    requires g == Grant(g.id, Some(a), Active, {p})
    ensures Reaches(h, LastSteps(a, p), h') && OneRunTakesOff(h', a, p)
  {
    RequestLeaves(h, g);
    DeclaredAfterRun(Next(h, RequestWithdrawal(0)), g.(status := Decommissioning), a, p);
    ThreeSteps(h, RequestWithdrawal(0), RunGenerator(0, None, false, 0), Declare(a, p));
    h' := Next(Next(Next(h, RequestWithdrawal(0)), RunGenerator(0, None, false, 0)), Declare(a, p));
  }

  lemma DeclaredAfterRun(h: History, g: Grant, a: AppId, p: PrefixId)
    requires Valid(h.world) && h.world.grants == [g] && a in h.world.allowed
    requires g.application == Some(a) && g.recorded == {p} && IsWithdrawn(g)
    ensures var h4 := Next(h, RunGenerator(0, None, false, 0));
            Valid(h4.world) && Possible(h4, Declare(a, p)) && OneRunTakesOff(Next(h4, Declare(a, p)), a, p)
  {
    LonelyRevoke(h, g, a, p);
    DeclaredIsExposed(Next(h, RunGenerator(0, None, false, 0)), g.(status := Decommissioned), a, p);
  }

  lemma DeclaredIsExposed(h: History, g: Grant, a: AppId, p: PrefixId)
    requires Valid(h.world) && h.world.grants == [g] && a in h.world.allowed
    requires g.application == Some(a) && g.recorded == {p} && IsWithdrawn(g)
    ensures Possible(h, Declare(a, p)) && OneRunTakesOff(Next(h, Declare(a, p)), a, p)
  {
    DeclareLeaves(h, a, p);
    LonelyTakesOff(Next(h, Declare(a, p)), g, a, p);
  }

  lemma LonelyTakesOff(h: History, g: Grant, a: AppId, p: PrefixId)
    requires Valid(h.world) && h.world.grants == [g] && a in h.world.allowed
    requires g.application == Some(a) && g.recorded == {p} && IsWithdrawn(g)
    requires p in At(h.hand, a) && p in h.world.allowed[a]
    ensures OneRunTakesOff(h, a, p)
  {
    LonelyRevoke(h, g, a, p);
  }

  ghost predicate ThreePossible(h: History, x: Step, y: Step, z: Step) {
    && Valid(h.world) && Possible(h, x)
    && Valid(Next(h, x).world) && Possible(Next(h, x), y)
    && Valid(Next(Next(h, x), y).world) && Possible(Next(Next(h, x), y), z)
  }

  lemma ThreeSteps(h: History, x: Step, y: Step, z: Step)
    requires ThreePossible(h, x, y, z)
    ensures Reaches(h, [x, y, z], Next(Next(Next(h, x), y), z))
  {
    var h1, h2, h3 := Next(h, x), Next(Next(h, x), y), Next(Next(Next(h, x), y), z);
    assert Reaches(h3, [], h3);
    ReachesCons(h2, z, [], h3);
    ReachesCons(h1, y, [z] + [], h3);
    ReachesCons(h, x, [y] + ([z] + []), h3);
    assert [x] + ([y] + ([z] + [])) == [x, y, z];
  }

  lemma RequestLeaves(h: History, g: Grant)
    requires Valid(h.world) && h.world.grants == [g] && !IsWithdrawn(g)
    ensures var h' := Next(h, RequestWithdrawal(0));
            Valid(h'.world) && h'.world.grants == [g.(status := Decommissioning)] && h'.world.allowed == h.world.allowed
  {
  }

  lemma DeclareLeaves(h: History, a: AppId, p: PrefixId)
    requires Valid(h.world) && a in h.world.allowed
    ensures var h' := Next(h, Declare(a, p));
            && Valid(h'.world) && h'.world.grants == h.world.grants && p in At(h'.hand, a)
            && a in h'.world.allowed && p in h'.world.allowed[a]
  {
  }

  /** A withdrawn grant alone takes off what it recorded, run after run. */
  lemma LonelyRevoke(h: History, g: Grant, a: AppId, p: PrefixId)
    requires Valid(h.world) && h.world.grants == [g] && a in h.world.allowed
    requires g.application == Some(a) && g.recorded == {p} && IsWithdrawn(g)
    ensures var h' := Next(h, RunGenerator(0, None, false, 0));
            && Valid(h'.world) && h'.world.grants == [g.(status := Decommissioned)]
            && a in h'.world.allowed && h'.world.allowed[a] == h.world.allowed[a] - {p}
  {
    assert OtherRecords([g], g, Some(a), true) == {};
    assert Removable(h.world, 0) == {p};
    assert RevokeSource(h.world, 0).grants == [g];
  }

  lemma TakenOffWasExposed(h: History, step: Step, a: AppId, p: PrefixId)
    requires Valid(h.world) && a in h.world.allowed && p in h.world.allowed[a]
    requires Possible(h, step) && p !in At(Next(h, step).world.allowed, a)
    ensures Exposed(h.world, a, p)
  {
    var w := h.world;
    assert step.RunGenerator?;
    var g := w.grants[step.i];
    assert g in w.grants && IsWithdrawn(g) && g.application == Some(a) && p in Removable(w, step.i);
    forall s | s in w.grants && s.application == Some(a) && !IsWithdrawn(s) ensures p !in s.recorded {
      assert Sibling(s, g, g.application, true);
    }
  }
}
