/** An application that pins its address, named by racing runs: from which states the name
    can be lost. */
module DnsPinned {
  import opened Options
  import opened DnsRecords

  ghost predicate AllAt(actions: seq<Action>, addr: string) {
    forall a :: a in actions ==> StartFits(a, Some(addr))
  }

  /** Whatever runs at `addr` start, pinned or not, and however they interleave: when all
      have ended some node holds the name. */
  ghost predicate AlwaysNamed(s: State, addr: string) {
    forall actions, s' :: Reaches(s, actions, s') && AllAt(actions, addr) && AllDone(s') && s'.runs != map[] ==> s'.named != {}
  }

  predicate Sits(s: State, addr: string, id: Id) {
    id in s.nodes && s.nodes[id].address == addr
  }

  /** The name is at the address already or nowhere. */
  predicate NothingToMove(s: State, addr: string) {
    forall id :: id in s.named ==> Sits(s, addr, id)
  }

  /** There are nodes at the address, and a person made them all. */
  predicate HandMadeThere(s: State, addr: string) {
    && (exists id :: id in s.nodes && Sits(s, addr, id))
    && (forall id :: id in s.nodes && Sits(s, addr, id) ==> !s.nodes[id].marked)
  }

  // --- Where the name is safe ------------------------------------------------------------------

  predicate Underway(pc: Pc) {
    pc.Withdrawing? || pc.Finding? || pc.Putting?
  }

  predicate Past(pc: Pc) {
    pc.Snapshotting? || pc.Deleting? || pc.Done?
  }

  /** While the name is on `h`, which is elsewhere, it is only there, and whoever will take
      it off has it on his list. */
  ghost predicate StillOn(s: State, h: Id) {
    && (forall x :: x in s.named ==> x == h)
    && (forall run :: run in s.runs ==>
          var pc := s.runs[run].pc;
          && !pc.Finding? && !pc.Putting? && (pc.Deleting? ==> pc.todo == {}) && (pc.Withdrawing? ==> h in pc.todo))
  }

  /** `u` is one of the hand-made nodes at the address. */
  ghost predicate Anchored(s: State, addr: string, u: Id) {
    && Sits(s, addr, u)
    && (forall id :: id in s.nodes && Sits(s, addr, id) ==> !s.nodes[id].marked)
    && s.named <= s.nodes.Keys
    && (forall run :: run in s.runs ==> RunAnchored(s, addr, s.runs[run]))
    && (forall h :: h in s.named && !Sits(s, addr, h) ==> StillOn(s, h))
    && (s.named == {} && (exists run :: run in s.runs && Past(s.runs[run].pc)) ==>
          exists run :: run in s.runs && Underway(s.runs[run].pc))
  }

  ghost predicate RunAnchored(s: State, addr: string, r: Run) {
    && r.address == addr
    && (r.pc.Putting? ==> r.pc.found.Some? && Sits(s, addr, r.pc.found.value))
    && (r.pc.Deleting? ==> forall id :: id in r.pc.todo && id in s.nodes ==> s.nodes[id].marked)
  }

  lemma NodesStayAnchored(s: State, a: Action, addr: string, u: Id)
    requires Anchored(s, addr, u) && Enabled(s, a) && StartFits(a, Some(addr))
    ensures var t := Next(s, a);
            && Sits(t, addr, u) && t.named <= t.nodes.Keys
            && (forall id :: id in t.nodes ==> id in s.nodes && t.nodes[id] == s.nodes[id])
            && (forall id :: Sits(s, addr, id) ==> Sits(t, addr, id))
            && (forall run :: run in t.runs ==> RunAnchored(t, addr, t.runs[run]))
  {
    var t := Next(s, a);
    if !a.Start? {
      assert RunAnchored(s, addr, s.runs[a.run]);
    }
    forall run | run in t.runs ensures RunAnchored(t, addr, t.runs[run]) {
      assert run in s.runs ==> RunAnchored(s, addr, s.runs[run]);
    }
  }

  lemma HolderStaysAnchored(s: State, a: Action, addr: string, u: Id, h: Id)
    requires Anchored(s, addr, u) && Enabled(s, a) && StartFits(a, Some(addr))
    requires h in Next(s, a).named && !Sits(Next(s, a), addr, h)
    ensures StillOn(Next(s, a), h)
  {
    NodesStayAnchored(s, a, addr, u);
    assert !a.Start? ==> RunAnchored(s, addr, s.runs[a.run]);
    assert h in s.named;
    assert StillOn(s, h);
    assert a.Snapshot? ==> Extras(s) == {};
  }

  lemma NameStaysUnderway(s: State, a: Action, addr: string, u: Id)
    requires Anchored(s, addr, u) && Enabled(s, a) && StartFits(a, Some(addr))
    requires Next(s, a).named == {} && exists run :: run in Next(s, a).runs && Past(Next(s, a).runs[run].pc)
    ensures exists run :: run in Next(s, a).runs && Underway(Next(s, a).runs[run].pc)
  {
    var t := Next(s, a);
    assert !a.Start? ==> RunAnchored(s, addr, s.runs[a.run]);
    if s.named == {} {
      if exists run :: run in s.runs && Past(s.runs[run].pc) {
        var run :| run in s.runs && Underway(s.runs[run].pc);
        assert Underway(t.runs[run].pc);
      } else {
        var run :| run in t.runs && Past(t.runs[run].pc);
        assert run in s.runs && !Past(s.runs[run].pc);
      }
    } else {
      var x :| x in s.named;
      assert !Sits(s, addr, x) ==> StillOn(s, x);
      assert a.WithdrawOne?;
      assert Underway(t.runs[a.run].pc);
    }
  }

  lemma AnchoredStep(s: State, a: Action, addr: string, u: Id)
    requires Anchored(s, addr, u) && Enabled(s, a) && StartFits(a, Some(addr))
    ensures Anchored(Next(s, a), addr, u)
  {
    var t := Next(s, a);
    NodesStayAnchored(s, a, addr, u);
    forall h | h in t.named && !Sits(t, addr, h) ensures StillOn(t, h) {
      HolderStaysAnchored(s, a, addr, u, h);
    }
    if t.named == {} && (exists run :: run in t.runs && Past(t.runs[run].pc)) {
      NameStaysUnderway(s, a, addr, u);
    }
  }

  lemma {:induction false} RunsKeepAnchored(s: State, actions: seq<Action>, s': State, addr: string, u: Id)
    requires Anchored(s, addr, u) && Reaches(s, actions, s') && AllAt(actions, addr)
    ensures Anchored(s', addr, u)
    decreases |actions|
  {
    if actions != [] {
      AnchoredStep(s, actions[0], addr, u);
      RunsKeepAnchored(Next(s, actions[0]), actions[1..], s', addr, u);
    }
  }

  lemma InitialAnchored(s: State, addr: string, u: Id)
    requires Initial(s) && HandMadeThere(s, addr) && Sits(s, addr, u)
    ensures Anchored(s, addr, u)
  {
    forall h, x | h in s.named && x in s.named ensures x == h {
      if x != h { CardinalityTwo(s.named, x, h); }
    }
  }

  /** The two ways to be safe. */
  lemma SafeIsNamed(s: State, addr: string)
    requires Initial(s) && (NothingToMove(s, addr) || HandMadeThere(s, addr))
    ensures AlwaysNamed(s, addr)
  {
    forall actions, s' | Reaches(s, actions, s') && AllAt(actions, addr) && AllDone(s') && s'.runs != map[]
      ensures s'.named != {}
    {
      if NothingToMove(s, addr) {
        assert Agreeable(s, actions, Some(addr));
        LowestSurvives(s, actions, s', Some(addr));
      } else {
        var u :| u in s.nodes && Sits(s, addr, u);
        InitialAnchored(s, addr, u);
        RunsKeepAnchored(s, actions, s', addr, u);
        var run :| run in s'.runs;
        assert Past(s'.runs[run].pc);
      }
    }
  }

  // --- When creating merges ----------------------------------------------------------------------

  /** The save of a run that finds a node at its address puts the name there: a second node
      is never created beside it. */
  predicate Merges(s: State, a: Action) {
    a.Put? && a.run in s.runs && (exists id :: id in s.nodes && Sits(s, s.runs[a.run].address, id)) ==>
      Sits(s, s.runs[a.run].address, a.id)
  }

  ghost predicate ReachesMerging(s: State, actions: seq<Action>, s': State)
    decreases |actions|
  {
    if actions == [] then s == s'
    else Enabled(s, actions[0]) && Merges(s, actions[0]) && ReachesMerging(Next(s, actions[0]), actions[1..], s')
  }

  /** One node at the address at most, one holder at most, and so nothing on any list of
      duplicates; a name that is gone is on its way back. */
  ghost predicate Single(s: State, addr: string) {
    && s.named <= s.nodes.Keys
    && (forall x, y :: Sits(s, addr, x) && Sits(s, addr, y) ==> x == y)
    && (forall x, y :: x in s.named && y in s.named ==> x == y)
    && (forall run :: run in s.runs ==> RunSingle(s, addr, s.runs[run]))
    && (forall h :: h in s.named && !Sits(s, addr, h) ==> StillOn(s, h))
    && (s.named == {} && (exists run :: run in s.runs && Past(s.runs[run].pc)) ==>
          exists run :: run in s.runs && Underway(s.runs[run].pc))
  }

  predicate RunSingle(s: State, addr: string, r: Run) {
    && r.address == addr
    && (r.pc.Deleting? ==> r.pc.todo == {})
    && (r.pc.Putting? && r.pc.found.Some? && r.pc.found.value in s.nodes ==> Sits(s, addr, r.pc.found.value))
  }

  lemma NodesStaySingle(s: State, a: Action, addr: string)
    requires Single(s, addr) && Enabled(s, a) && Merges(s, a) && StartFits(a, Some(addr))
    ensures var t := Next(s, a);
            && t.named <= t.nodes.Keys
            && (forall x, y :: Sits(t, addr, x) && Sits(t, addr, y) ==> x == y)
            && (forall x, y :: x in t.named && y in t.named ==> x == y)
  {
    if !a.Start? { assert RunSingle(s, addr, s.runs[a.run]); }
    if a.Put? {
      assert forall h :: h in s.named ==> Sits(s, addr, h);
      assert Sits(Next(s, a), addr, a.id);
      forall x | Sits(Next(s, a), addr, x) ensures x == a.id {
        assert x != a.id ==> x in s.nodes && Sits(s, s.runs[a.run].address, x);
      }
    } else {
      assert forall x :: Sits(Next(s, a), addr, x) ==> Sits(s, addr, x);
    }
  }

  lemma RunsStaySingle(s: State, a: Action, addr: string)
    requires Single(s, addr) && Enabled(s, a) && Merges(s, a) && StartFits(a, Some(addr))
    ensures var t := Next(s, a); forall run :: run in t.runs ==> RunSingle(t, addr, t.runs[run])
  {
    var t := Next(s, a);
    assert a.Snapshot? ==> Extras(s) == {};
    forall run | run in t.runs ensures RunSingle(t, addr, t.runs[run]) {
      assert run in s.runs ==> RunSingle(s, addr, s.runs[run]);
      if !a.Start? { assert RunSingle(s, addr, s.runs[a.run]); }
    }
  }

  lemma HolderStaysSingle(s: State, a: Action, addr: string, h: Id)
    requires Single(s, addr) && Enabled(s, a) && Merges(s, a) && StartFits(a, Some(addr))
    requires h in Next(s, a).named && !Sits(Next(s, a), addr, h)
    ensures StillOn(Next(s, a), h)
  {
    if !a.Start? { assert RunSingle(s, addr, s.runs[a.run]); }
    if a.Put? { assert Sits(Next(s, a), addr, a.id); }
    assert h in s.named && !Sits(s, addr, h);
    assert StillOn(s, h);
    assert a.Snapshot? ==> Extras(s) == {};
  }

  lemma NameStaysSingle(s: State, a: Action, addr: string)
    requires Single(s, addr) && Enabled(s, a) && Merges(s, a) && StartFits(a, Some(addr))
    requires Next(s, a).named == {} && exists run :: run in Next(s, a).runs && Past(Next(s, a).runs[run].pc)
    ensures exists run :: run in Next(s, a).runs && Underway(Next(s, a).runs[run].pc)
  {
    var t := Next(s, a);
    if !a.Start? { assert RunSingle(s, addr, s.runs[a.run]); }
    if s.named == {} {
      if exists run :: run in s.runs && Past(s.runs[run].pc) {
        var run :| run in s.runs && Underway(s.runs[run].pc);
        assert Underway(t.runs[run].pc);
      } else {
        var run :| run in t.runs && Past(t.runs[run].pc);
        assert run in s.runs && !Past(s.runs[run].pc);
      }
    } else {
      assert a.WithdrawOne?;
      assert Underway(t.runs[a.run].pc);
    }
  }

  lemma {:induction false} RunsKeepSingle(s: State, actions: seq<Action>, s': State, addr: string)
    requires Single(s, addr) && ReachesMerging(s, actions, s') && AllAt(actions, addr)
    ensures Single(s', addr)
    decreases |actions|
  {
    if actions != [] {
      SingleStep(s, actions[0], addr);
      RunsKeepSingle(Next(s, actions[0]), actions[1..], s', addr);
    }
  }

  lemma SingleStep(s: State, a: Action, addr: string)
    requires Single(s, addr) && Enabled(s, a) && Merges(s, a) && StartFits(a, Some(addr))
    ensures Single(Next(s, a), addr)
  {
    var t := Next(s, a);
    NodesStaySingle(s, a, addr);
    RunsStaySingle(s, a, addr);
    forall h | h in t.named && !Sits(t, addr, h) ensures StillOn(t, h) {
      HolderStaysSingle(s, a, addr, h);
    }
    if t.named == {} && (exists run :: run in t.runs && Past(t.runs[run].pc)) {
      NameStaysSingle(s, a, addr);
    }
  }

  /** Where creating merges and the address has one node at most, no name is lost, wherever
      it is before the first run: over every interleaving of runs at `addr`, pinned or not,
      when all have ended exactly one node holds the name. */
  lemma MergingKeepsTheName(s: State, actions: seq<Action>, s': State, addr: string)
    requires Initial(s) && forall x, y :: Sits(s, addr, x) && Sits(s, addr, y) ==> x == y
    requires ReachesMerging(s, actions, s') && AllAt(actions, addr) && AllDone(s') && s'.runs != map[]
    ensures exists id: Id :: s'.named == {id} && id in s'.nodes
  {
    forall x, y | x in s.named && y in s.named ensures x == y {
      if x != y { CardinalityTwo(s.named, x, y); }
    }
    RunsKeepSingle(s, actions, s', addr);
    var run :| run in s'.runs;
    assert Past(s'.runs[run].pc) && s'.named != {};
    var id :| id in s'.named;
    assert s'.named == {id};
  }

  // --- Where it can be lost -----------------------------------------------------------------------

  ghost predicate CanReach(s: State, addr: string, s': State) {
    exists actions :: Reaches(s, actions, s') && AllAt(actions, addr)
  }

  lemma {:induction false} ReachesSnoc(s: State, actions: seq<Action>, mid: State, a: Action)
    requires Reaches(s, actions, mid) && Enabled(mid, a)
    ensures Reaches(s, actions + [a], Next(mid, a))
    decreases |actions|
  {
    if actions == [] {
      assert [] + [a] == [a] && [a][1..] == [];
    } else {
      assert (actions + [a])[1..] == actions[1..] + [a];
      ReachesSnoc(Next(s, actions[0]), actions[1..], mid, a);
    }
  }

  lemma CanReachNext(s: State, addr: string, mid: State, a: Action)
    requires CanReach(s, addr, mid) && Enabled(mid, a) && StartFits(a, Some(addr))
    ensures CanReach(s, addr, Next(mid, a))
  {
    var actions :| Reaches(s, actions, mid) && AllAt(actions, addr);
    ReachesSnoc(s, actions, mid, a);
    assert AllAt(actions + [a], addr);
  }

  /** Runs 0, 1, 2, ... of an application that pins `addr`. */
  ghost function Runs(addr: string, pcs: seq<Pc>): map<RunId, Run> {
    map i: RunId | i < |pcs| :: Run(addr, true, pcs[i])
  }

  /** From `s` the race can stand like this. */
  ghost predicate Stands(s: State, addr: string, nodes: map<Id, Node>, named: set<Id>, pcs: seq<Pc>) {
    exists ever :: CanReach(s, addr, State(nodes, named, ever, Runs(addr, pcs)))
  }

  lemma Stood(s: State, addr: string, nodes: map<Id, Node>, named: set<Id>, pcs: seq<Pc>) returns (t: State)
    requires Stands(s, addr, nodes, named, pcs)
    ensures CanReach(s, addr, t) && t.nodes == nodes && t.named == named && t.runs == Runs(addr, pcs)
  {
    var ever :| CanReach(s, addr, State(nodes, named, ever, Runs(addr, pcs)));
    t := State(nodes, named, ever, Runs(addr, pcs));
  }

  lemma RunsMove(addr: string, pcs: seq<Pc>, i: nat, pc: Pc)
    requires i < |pcs|
    ensures Runs(addr, pcs[i := pc]) == Runs(addr, pcs)[i := Run(addr, true, pc)]
  {
  }

  /** One step of run `a.run`, to `pc`. */
  lemma Moves(s: State, addr: string, t: State, pcs: seq<Pc>, a: Action, pc: Pc, pcs': seq<Pc>)
    requires CanReach(s, addr, t) && t.runs == Runs(addr, pcs)
    requires Enabled(t, a) && !a.Start? && a.run < |pcs| && Next(t, a).runs == t.runs[a.run := Run(addr, true, pc)]
    requires pcs' == pcs[a.run := pc]
    ensures Stands(s, addr, Next(t, a).nodes, Next(t, a).named, pcs')
  {
    CanReachNext(s, addr, t, a);
    RunsMove(addr, pcs, a.run, pc);
    StandsAt(s, addr, Next(t, a), pcs');
  }

  lemma StandsAt(s: State, addr: string, t: State, pcs: seq<Pc>)
    requires CanReach(s, addr, t) && t.runs == Runs(addr, pcs)
    ensures Stands(s, addr, t.nodes, t.named, pcs)
  {
    assert t == State(t.nodes, t.named, t.ever, Runs(addr, pcs));
  }

  lemma {:induction false} Started(s: State, addr: string, n: nat)
    requires s.runs == map[]
    ensures Stands(s, addr, s.nodes, s.named, seq(n, i => Looking))
  {
    if n == 0 {
      assert Reaches(s, [], s) && AllAt([], addr);
      assert Runs(addr, seq(0, i => Looking)) == map[];
      assert s == State(s.nodes, s.named, s.ever, Runs(addr, seq(0, i => Looking)));
    } else {
      Started(s, addr, n - 1);
      var t := Stood(s, addr, s.nodes, s.named, seq(n - 1, i => Looking));
      var a := Start(n - 1, addr, true);
      CanReachNext(s, addr, t, a);
      var t' := Next(t, a);
      assert t'.runs == Runs(addr, seq(n, i => Looking));
      assert t' == State(t'.nodes, t'.named, t'.ever, Runs(addr, seq(n, i => Looking)));
    }
  }

  // The steps of one run, read off its place.

  lemma LooksAway(s: State, addr: string, nodes: map<Id, Node>, named: set<Id>, pcs: seq<Pc>, i: nat, pcs': seq<Pc>)
    requires Stands(s, addr, nodes, named, pcs) && i < |pcs| && pcs[i] == Looking
    requires named != {} && forall id :: id in named && id in nodes ==> nodes[id].address != addr
    requires pcs' == pcs[i := AboutToWithdraw]
    ensures Stands(s, addr, nodes, named, pcs')
  {
    var t := Stood(s, addr, nodes, named, pcs);
    Moves(s, addr, t, pcs, Look(i), AboutToWithdraw, pcs');
  }

  lemma LooksAtNothing(s: State, addr: string, nodes: map<Id, Node>, pcs: seq<Pc>, i: nat, pcs': seq<Pc>)
    requires Stands(s, addr, nodes, {}, pcs) && i < |pcs| && pcs[i] == Looking
    requires pcs' == pcs[i := Finding]
    ensures Stands(s, addr, nodes, {}, pcs')
  {
    var t := Stood(s, addr, nodes, {}, pcs);
    Moves(s, addr, t, pcs, Look(i), Finding, pcs');
  }

  lemma Reads(s: State, addr: string, nodes: map<Id, Node>, named: set<Id>, pcs: seq<Pc>, i: nat, pcs': seq<Pc>)
    requires Stands(s, addr, nodes, named, pcs) && i < |pcs| && pcs[i] == AboutToWithdraw
    requires pcs' == pcs[i := Withdrawing(named)]
    ensures Stands(s, addr, nodes, named, pcs')
  {
    var t := Stood(s, addr, nodes, named, pcs);
    Moves(s, addr, t, pcs, ReadHolders(i), Withdrawing(named), pcs');
  }

  /** The only one on the list goes, deleted if it is marked, and the run looks for a node. */
  lemma Withdraws(s: State, addr: string, nodes: map<Id, Node>, named: set<Id>, pcs: seq<Pc>, i: nat, id: Id, pcs': seq<Pc>)
    requires Stands(s, addr, nodes, named, pcs) && i < |pcs| && pcs[i] == Withdrawing({id}) && id in nodes
    requires pcs' == pcs[i := Finding]
    ensures Stands(s, addr, Without(nodes, id), named - {id}, pcs')
  {
    var t := Stood(s, addr, nodes, named, pcs);
    assert {id} - {id} == {};
    var mid := pcs[i := Withdrawing({})];
    Moves(s, addr, t, pcs, WithdrawOne(i, id, nodes[id].marked), Withdrawing({}), mid);
    var t' := Stood(s, addr, Without(nodes, id), named - {id}, mid);
    Moves(s, addr, t', mid, EndWithdraw(i), Finding, pcs');
  }

  ghost function Without(nodes: map<Id, Node>, id: Id): map<Id, Node> {
    if id in nodes && nodes[id].marked then nodes - {id} else nodes
  }

  lemma Finds(s: State, addr: string, nodes: map<Id, Node>, named: set<Id>, pcs: seq<Pc>, i: nat, found: Option<Id>, pcs': seq<Pc>)
    requires Stands(s, addr, nodes, named, pcs) && i < |pcs| && pcs[i] == Finding
    requires match found
             case Some(id) => id in nodes && nodes[id].address == addr
             case None => forall id :: id in nodes ==> nodes[id].address != addr
    requires pcs' == pcs[i := Putting(found)]
    ensures Stands(s, addr, nodes, named, pcs')
  {
    var t := Stood(s, addr, nodes, named, pcs);
    Moves(s, addr, t, pcs, FindAddress(i, found), Putting(found), pcs');
  }

  /** The name goes on a node that is there, or on a new one. */
  lemma Puts(s: State, addr: string, nodes: map<Id, Node>, named: set<Id>, pcs: seq<Pc>, i: nat, id: Id, pcs': seq<Pc>)
    requires Stands(s, addr, nodes, named, pcs) && i < |pcs| && pcs[i].Putting?
    requires if id in nodes then pcs[i].found == Some(id) && nodes[id] == Node(addr, true)
             else pcs[i].found.Some? ==> pcs[i].found.value !in nodes
    requires pcs' == pcs[i := Snapshotting]
    ensures Stands(s, addr, nodes[id := Node(addr, true)], named + {id}, pcs')
  {
    var t := Stood(s, addr, nodes, named, pcs);
    Moves(s, addr, t, pcs, Put(i, id), Snapshotting, pcs');
  }

  lemma Snaps(s: State, addr: string, nodes: map<Id, Node>, named: set<Id>, pcs: seq<Pc>, i: nat, extras: set<Id>, pcs': seq<Pc>)
    requires Stands(s, addr, nodes, named, pcs) && i < |pcs| && pcs[i] == Snapshotting
    requires extras == set id | id in named && !IsLowest(named, id) && id in nodes && nodes[id].marked
    requires pcs' == pcs[i := Deleting(extras)]
    ensures Stands(s, addr, nodes, named, pcs')
  {
    var t := Stood(s, addr, nodes, named, pcs);
    Moves(s, addr, t, pcs, Snapshot(i), Deleting(extras), pcs');
  }

  /** The only one on the list goes, and the run ends. */
  lemma Removes(s: State, addr: string, nodes: map<Id, Node>, named: set<Id>, pcs: seq<Pc>, i: nat, id: Id, pcs': seq<Pc>)
    requires Stands(s, addr, nodes, named, pcs) && i < |pcs| && pcs[i] == Deleting({id})
    requires pcs' == pcs[i := Done]
    ensures Stands(s, addr, nodes - {id}, named - {id}, pcs')
  {
    var t := Stood(s, addr, nodes, named, pcs);
    assert {id} - {id} == {};
    var mid := pcs[i := Deleting({})];
    Moves(s, addr, t, pcs, DeleteOne(i, id), Deleting({}), mid);
    var t' := Stood(s, addr, nodes - {id}, named - {id}, mid);
    Moves(s, addr, t', mid, DnsRecords.Action.Finish(i), Done, pcs');
  }

  lemma Ends(s: State, addr: string, nodes: map<Id, Node>, pcs: seq<Pc>, i: nat)
    requires Stands(s, addr, nodes, {}, pcs) && i < |pcs| && pcs[i] == Snapshotting
    ensures Stands(s, addr, nodes, {}, pcs[i := Done])
  {
    var mid := pcs[i := Deleting({})];
    Snaps(s, addr, nodes, {}, pcs, i, {}, mid);
    var t := Stood(s, addr, nodes, {}, mid);
    Moves(s, addr, t, mid, DnsRecords.Action.Finish(i), Done, pcs[i := Done]);
  }

  /** With no name left every run that has written ends without finding anything to do. */
  lemma {:induction false} RunsEnd(s: State, addr: string, nodes: map<Id, Node>, pcs: seq<Pc>, k: nat)
    requires Stands(s, addr, nodes, {}, pcs) && k <= |pcs|
    requires forall i :: 0 <= i < |pcs| ==> if i < k then pcs[i] == Done else pcs[i] == Done || pcs[i] == Snapshotting
    ensures Stands(s, addr, nodes, {}, seq(|pcs|, i => Done))
    decreases |pcs| - k
  {
    if k == |pcs| {
      assert pcs == seq(|pcs|, i => Done);
    } else if pcs[k] == Done {
      RunsEnd(s, addr, nodes, pcs, k + 1);
    } else {
      Ends(s, addr, nodes, pcs, k);
      RunsEnd(s, addr, nodes, pcs[k := Done], k + 1);
    }
  }

  /** The players: the name is on `h`, elsewhere. `m` is the node the first run will put it
      on, a marked one at the address if there is any. `p` and `q` will be created. */
  ghost predicate Cast(s: State, addr: string, h: Id, m: Id, found: Option<Id>, p: Id, q: Id) {
    && Initial(s) && s.named == {h} && h in s.nodes && s.nodes[h].address != addr
    && (match found
        case Some(id) => id == m && m in s.nodes && s.nodes[m] == Node(addr, true)
        case None => m !in s.nodes && forall id :: id in s.nodes ==> s.nodes[id].address != addr)
    && p !in s.nodes && q !in s.nodes && p < q && p != m && q != m
  }

  ghost function Cleared(s: State, h: Id): map<Id, Node> {
    Without(s.nodes, h)
  }

  ghost function Named(s: State, addr: string, h: Id, m: Id): map<Id, Node> {
    Cleared(s, h)[m := Node(addr, true)]
  }

  ghost function Both(s: State, addr: string, h: Id, m: Id, p: Id, q: Id): map<Id, Node> {
    (Named(s, addr, h, m) - {m})[p := Node(addr, true)][q := Node(addr, true)]
  }

  // Five runs start. 0, 1 and 4 see the name elsewhere, and 0 takes it off.
  lemma RaceLooks(s: State, addr: string, h: Id)
    requires Initial(s) && s.named == {h} && h in s.nodes && s.nodes[h].address != addr
    ensures Stands(s, addr, s.nodes, {h}, [AboutToWithdraw, AboutToWithdraw, Looking, Looking, AboutToWithdraw])
  {
    Started(s, addr, 5);
    var l := [Looking, Looking, Looking, Looking, Looking];
    assert seq(5, i => Looking) == l;
    var l1 := [AboutToWithdraw, Looking, Looking, Looking, Looking];
    var l2 := [AboutToWithdraw, AboutToWithdraw, Looking, Looking, Looking];
    LooksAway(s, addr, s.nodes, {h}, l, 0, l1);
    LooksAway(s, addr, s.nodes, {h}, l1, 1, l2);
    LooksAway(s, addr, s.nodes, {h}, l2, 4, [AboutToWithdraw, AboutToWithdraw, Looking, Looking, AboutToWithdraw]);
  }

  // So 2 and 3 find no name.
  lemma RaceClears(s: State, addr: string, h: Id)
    requires Initial(s) && s.named == {h} && h in s.nodes && s.nodes[h].address != addr
    ensures Stands(s, addr, Cleared(s, h), {}, [Finding, AboutToWithdraw, Finding, Finding, AboutToWithdraw])
  {
    RaceLooks(s, addr, h);
    var l := [AboutToWithdraw, AboutToWithdraw, Looking, Looking, AboutToWithdraw];
    var l1 := [Withdrawing({h}), AboutToWithdraw, Looking, Looking, AboutToWithdraw];
    var l2 := [Finding, AboutToWithdraw, Looking, Looking, AboutToWithdraw];
    var l3 := [Finding, AboutToWithdraw, Finding, Looking, AboutToWithdraw];
    Reads(s, addr, s.nodes, {h}, l, 0, l1);
    Withdraws(s, addr, s.nodes, {h}, l1, 0, h, l2);
    assert {h} - {h} == {};
    LooksAtNothing(s, addr, Cleared(s, h), l2, 2, l3);
    LooksAtNothing(s, addr, Cleared(s, h), l3, 3, [Finding, AboutToWithdraw, Finding, Finding, AboutToWithdraw]);
  }

  // 0, 2 and 3 look for a node at the address, and 0 puts the name on `m`.
  lemma RaceFinds(s: State, addr: string, h: Id, m: Id, found: Option<Id>, p: Id, q: Id)
    requires Cast(s, addr, h, m, found, p, q)
    ensures Stands(s, addr, Named(s, addr, h, m), {m},
                   [Snapshotting, AboutToWithdraw, Putting(found), Putting(found), AboutToWithdraw])
  {
    RaceClears(s, addr, h);
    var nodes := Cleared(s, h);
    var l := [Finding, AboutToWithdraw, Finding, Finding, AboutToWithdraw];
    var l1 := [Putting(found), AboutToWithdraw, Finding, Finding, AboutToWithdraw];
    var l2 := [Putting(found), AboutToWithdraw, Putting(found), Finding, AboutToWithdraw];
    var l3 := [Putting(found), AboutToWithdraw, Putting(found), Putting(found), AboutToWithdraw];
    Finds(s, addr, nodes, {}, l, 0, found, l1);
    Finds(s, addr, nodes, {}, l1, 2, found, l2);
    Finds(s, addr, nodes, {}, l2, 3, found, l3);
    Puts(s, addr, nodes, {}, l3, 0, m, [Snapshotting, AboutToWithdraw, Putting(found), Putting(found), AboutToWithdraw]);
    assert {} + {m} == {m};
  }

  // 1 deletes `m`, so what 2 and 3 found, if anything, is gone. 2 creates `p`, which 4
  // reads as the one holder before 3 creates `q`.
  lemma RaceCreates(s: State, addr: string, h: Id, m: Id, found: Option<Id>, p: Id, q: Id)
    requires Cast(s, addr, h, m, found, p, q)
    ensures Stands(s, addr, Both(s, addr, h, m, p, q), {p, q},
                   [Snapshotting, Finding, Snapshotting, Snapshotting, Withdrawing({p})])
  {
    RaceFinds(s, addr, h, m, found, p, q);
    var nodes := Named(s, addr, h, m);
    var gone := nodes - {m};
    var l := [Snapshotting, AboutToWithdraw, Putting(found), Putting(found), AboutToWithdraw];
    var l1 := [Snapshotting, Withdrawing({m}), Putting(found), Putting(found), AboutToWithdraw];
    var l2 := [Snapshotting, Finding, Putting(found), Putting(found), AboutToWithdraw];
    Reads(s, addr, nodes, {m}, l, 1, l1);
    Withdraws(s, addr, nodes, {m}, l1, 1, m, l2);
    assert {m} - {m} == {} && Without(nodes, m) == gone;
    RacePuts(s, addr, gone, found, p, q);
  }

  lemma RacePuts(s: State, addr: string, nodes: map<Id, Node>, found: Option<Id>, p: Id, q: Id)
    requires Stands(s, addr, nodes, {}, [Snapshotting, Finding, Putting(found), Putting(found), AboutToWithdraw])
    requires p !in nodes && q !in nodes && p != q && (found.Some? ==> found.value !in nodes && found.value != p)
    ensures Stands(s, addr, nodes[p := Node(addr, true)][q := Node(addr, true)], {p, q},
                   [Snapshotting, Finding, Snapshotting, Snapshotting, Withdrawing({p})])
  {
    var nodes' := nodes[p := Node(addr, true)];
    var l2 := [Snapshotting, Finding, Putting(found), Putting(found), AboutToWithdraw];
    var l3 := [Snapshotting, Finding, Snapshotting, Putting(found), AboutToWithdraw];
    var l4 := [Snapshotting, Finding, Snapshotting, Putting(found), Withdrawing({p})];
    Puts(s, addr, nodes, {}, l2, 2, p, l3);
    assert {} + {p} == {p};
    Reads(s, addr, nodes', {p}, l3, 4, l4);
    Puts(s, addr, nodes', {p}, l4, 3, q, [Snapshotting, Finding, Snapshotting, Snapshotting, Withdrawing({p})]);
    assert {p} + {q} == {p, q};
  }

  // 3 puts `q` on its list as the duplicate of `p`, 4 takes `p` off, and 1 and 4 settle on
  // `q`, which 3 then deletes.
  lemma RaceCrosses(s: State, addr: string, nodes: map<Id, Node>, p: Id, q: Id)
    requires Stands(s, addr, nodes, {p, q}, [Snapshotting, Finding, Snapshotting, Snapshotting, Withdrawing({p})])
    requires p < q && p in nodes && q in nodes && nodes[p] == nodes[q] == Node(addr, true)
    ensures Stands(s, addr, nodes - {p}, {q}, [Snapshotting, Finding, Snapshotting, Deleting({q}), Finding])
  {
    var l := [Snapshotting, Finding, Snapshotting, Snapshotting, Withdrawing({p})];
    var l1 := [Snapshotting, Finding, Snapshotting, Deleting({q}), Withdrawing({p})];
    assert IsLowest({p, q}, p) && !IsLowest({p, q}, q);
    Snaps(s, addr, nodes, {p, q}, l, 3, {q}, l1);
    assert {p, q} - {p} == {q};
    Withdraws(s, addr, nodes, {p, q}, l1, 4, p, [Snapshotting, Finding, Snapshotting, Deleting({q}), Finding]);
  }

  lemma Settles(s: State, addr: string, nodes: map<Id, Node>, pcs: seq<Pc>, i: nat, q: Id)
    requires Stands(s, addr, nodes, {q}, pcs) && i < |pcs| && pcs[i] == Finding
    requires q in nodes && nodes[q] == Node(addr, true)
    ensures Stands(s, addr, nodes, {q}, pcs[i := Snapshotting])
  {
    var mid := pcs[i := Putting(Some(q))];
    Finds(s, addr, nodes, {q}, pcs, i, Some(q), mid);
    Puts(s, addr, nodes, {q}, mid, i, q, pcs[i := Snapshotting]);
    assert nodes[q := Node(addr, true)] == nodes && {q} + {q} == {q};
  }

  lemma RaceEnds(s: State, addr: string, nodes: map<Id, Node>, q: Id)
    requires Stands(s, addr, nodes, {q}, [Snapshotting, Finding, Snapshotting, Deleting({q}), Finding])
    requires q in nodes && nodes[q] == Node(addr, true)
    ensures Stands(s, addr, nodes - {q}, {}, seq(5, i => Done))
  {
    var l := [Snapshotting, Finding, Snapshotting, Deleting({q}), Finding];
    var l1 := [Snapshotting, Snapshotting, Snapshotting, Deleting({q}), Finding];
    var l2 := [Snapshotting, Snapshotting, Snapshotting, Deleting({q}), Snapshotting];
    var l3 := [Snapshotting, Snapshotting, Snapshotting, Done, Snapshotting];
    Settles(s, addr, nodes, l, 1, q);
    assert l[1 := Snapshotting] == l1;
    Settles(s, addr, nodes, l1, 4, q);
    assert l1[4 := Snapshotting] == l2;
    Removes(s, addr, nodes, {q}, l2, 3, q, l3);
    assert {q} - {q} == {};
    RunsEnd(s, addr, nodes - {q}, l3, 0);
  }

  lemma RaceLoses(s: State, addr: string, h: Id, m: Id, found: Option<Id>, p: Id, q: Id)
    requires Cast(s, addr, h, m, found, p, q)
    ensures !AlwaysNamed(s, addr)
  {
    RaceCreates(s, addr, h, m, found, p, q);
    var nodes := Both(s, addr, h, m, p, q);
    RaceCrosses(s, addr, nodes, p, q);
    RaceEnds(s, addr, nodes - {p}, q);
    var t := Stood(s, addr, nodes - {p} - {q}, {}, seq(5, i => Done));
    var actions :| Reaches(s, actions, t) && AllAt(actions, addr);
    assert 0 in t.runs && AllDone(t);
  }

  /** A bound above every id there is, for the ids of new nodes. */
  lemma {:induction false} Above(ids: set<Id>) returns (n: Id)
    ensures forall id :: id in ids ==> id < n
  {
    n := 0;
    if ids != {} {
      var x :| x in ids;
      var rest := Above(ids - {x});
      n := if rest > x then rest else x + 1;
      forall id | id in ids ensures id < n {
        assert id == x || id in ids - {x};
      }
    }
  }

  /** Exactly when the name of an application that pins its address cannot be lost: it is
      at the address or nowhere before the first run, or the address has nodes and a
      person made them all. */
  lemma PinnedNameIsSafeExactly(s: State, addr: string)
    requires Initial(s)
    ensures AlwaysNamed(s, addr) <==> NothingToMove(s, addr) || HandMadeThere(s, addr)
  {
    if NothingToMove(s, addr) || HandMadeThere(s, addr) {
      SafeIsNamed(s, addr);
    } else {
      var h :| h in s.named && !Sits(s, addr, h);
      forall x | x in s.named ensures x == h {
        if x != h { CardinalityTwo(s.named, x, h); }
      }
      assert s.named == {h};
      var n := Above(s.nodes.Keys);
      if exists id :: id in s.nodes && Sits(s, addr, id) {
        var m :| m in s.nodes && Sits(s, addr, m) && s.nodes[m].marked;
        RaceLoses(s, addr, h, m, Some(m), n, n + 1);
      } else {
        assert forall id :: id in s.nodes ==> !Sits(s, addr, id);
        RaceLoses(s, addr, h, n + 2, None, n, n + 1);
      }
    }
  }
}
