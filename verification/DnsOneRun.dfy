/** The two models of a DNS record run agree: a run of the protocol that nothing interleaves
    with does what the sequential program does, step by step. */
module DnsOneRun {
  import opened Options
  import opened R = DnsRecords
  import A = DnsAddresses

  /** The nodes with the name written on those that hold it. */
  function View(s: State, fqdn: string): A.Nodes {
    map id | id in s.nodes :: A.Node(s.nodes[id].address, if id in s.named then Some(fqdn) else None, s.nodes[id].marked)
  }

  predicate SameNodes(s0: State, s: State) {
    s.nodes == s0.nodes && s.named == s0.named
  }

  /** The name is somewhere, but not where the application pins it. */
  predicate Moving(s0: State, r: Run) {
    r.moves && s0.named != {} && forall id :: id in s0.named && id in s0.nodes ==> s0.nodes[id].address != r.address
  }

  /** Of the nodes only marked ones that held the name have gone. */
  predicate Taken(s0: State, s: State) {
    && (forall id :: id in s.nodes ==> id in s0.nodes && s.nodes[id] == s0.nodes[id])
    && (forall id :: id in s0.nodes && id !in s.nodes ==> id in s0.named && s0.nodes[id].marked && id !in s.named)
  }

  predicate ReadyToPut(s0: State, s: State, r: Run) {
    s.named == {} && if s0.named == {} then s.nodes == s0.nodes else Moving(s0, r) && Taken(s0, s)
  }

  ghost predicate EnsuredTo(s0: State, r: Run, fqdn: string, mid: A.Nodes) {
    exists refused, newId :: A.Ensured(View(s0, fqdn), fqdn, r.address, r.moves, newId, refused, mid)
                             && refused !! A.Extras(mid, fqdn)
  }

  /** Some of the duplicates of `mid` have gone, and `todo` are the others. */
  ghost predicate Removing(s0: State, r: Run, fqdn: string, todo: set<Id>, nodes: A.Nodes, mid: A.Nodes) {
    EnsuredTo(s0, r, fqdn, mid) && todo <= A.Extras(mid, fqdn) && nodes == mid - (A.Extras(mid, fqdn) - todo)
  }

  /** How far the run has got, in terms of what the sequential program does to the nodes. */
  ghost predicate GotTo(s0: State, s: State, r: Run, fqdn: string) {
    && s.named <= s.nodes.Keys
    && match r.pc
       case Looking => SameNodes(s0, s)
       case AboutToWithdraw => SameNodes(s0, s) && Moving(s0, r)
       case Withdrawing(todo) => Moving(s0, r) && s.named == todo <= s0.named && Taken(s0, s)
       case Finding => ReadyToPut(s0, s, r)
       case Putting(found) =>
         && ReadyToPut(s0, s, r)
         && (match found
             case Some(id) => id in s.nodes && s.nodes[id].address == r.address
             case None => forall id :: id in s.nodes ==> s.nodes[id].address != r.address)
       case Snapshotting => EnsuredTo(s0, r, fqdn, View(s, fqdn))
       case Deleting(todo) => exists mid :: Removing(s0, r, fqdn, todo, View(s, fqdn), mid)
       case Done => exists mid :: Removing(s0, r, fqdn, {}, View(s, fqdn), mid)
  }

  lemma LookStep(s0: State, s: State, run: RunId, fqdn: string)
    requires s0.named <= s0.nodes.Keys && run in s.runs && GotTo(s0, s, s.runs[run], fqdn) && Enabled(s, Look(run))
    ensures var s' := Next(s, Look(run)); GotTo(s0, s', s'.runs[run], fqdn)
  {
    var r, s' := s.runs[run], Next(s, Look(run));
    if s'.runs[run].pc == Snapshotting {
      UnchangedIsEnsured(s0, r, fqdn);
      assert View(s', fqdn) == View(s0, fqdn);
    }
  }

  lemma UnchangedIsEnsured(s0: State, r: Run, fqdn: string)
    requires s0.named <= s0.nodes.Keys && s0.named != {}
    requires r.moves ==> exists id :: id in s0.named && id in s0.nodes && s0.nodes[id].address == r.address
    ensures EnsuredTo(s0, r, fqdn, View(s0, fqdn))
  {
    var nodes := View(s0, fqdn);
    var h :| h in s0.named;
    assert h in A.Holders(nodes, fqdn);
    if r.moves {
      var id :| id in s0.named && id in s0.nodes && s0.nodes[id].address == r.address;
      assert id in A.HoldersAt(nodes, fqdn, r.address);
    }
    assert A.Ensured(nodes, fqdn, r.address, r.moves, 0, {}, nodes);
  }

  lemma WithdrawSteps(s0: State, s: State, a: Action, fqdn: string)
    requires s0.named <= s0.nodes.Keys && a.run in s.runs && GotTo(s0, s, s.runs[a.run], fqdn) && Enabled(s, a)
    requires a.ReadHolders? || a.WithdrawOne? || a.EndWithdraw? || a.FindAddress?
    ensures var s' := Next(s, a); GotTo(s0, s', s'.runs[a.run], fqdn)
  {
  }

  lemma PutStep(s0: State, s: State, run: RunId, id: Id, fqdn: string)
    requires s0.named <= s0.nodes.Keys && run in s.runs && GotTo(s0, s, s.runs[run], fqdn) && Enabled(s, Put(run, id))
    ensures var s' := Next(s, Put(run, id)); GotTo(s0, s', s'.runs[run], fqdn)
  {
    var r, s' := s.runs[run], Next(s, Put(run, id));
    var refused := set x | x in s0.named && x in s.nodes && s0.nodes[x].marked;
    ReadyIsWithdrawn(s0, s, r, fqdn, refused);
    PutIsPlaced(s, run, id, fqdn);
    PlacedIsEnsured(s0, r, fqdn, View(s, fqdn), id, refused, View(s', fqdn));
    assert s'.named <= s'.nodes.Keys;
  }

  lemma PlacedIsEnsured(s0: State, r: Run, fqdn: string, base: A.Nodes, id: Id, refused: set<Id>, mid: A.Nodes)
    requires A.Placed(base, fqdn, r.address, id, mid) && A.Holders(mid, fqdn) == {id}
    requires var nodes := View(s0, fqdn);
             if A.Holders(nodes, fqdn) == {} then base == nodes
             else r.moves && A.HoldersAt(nodes, fqdn, r.address) == {} && base == A.Withdrawn(nodes, fqdn, refused)
    ensures EnsuredTo(s0, r, fqdn, mid)
  {
    assert A.Ensured(View(s0, fqdn), fqdn, r.address, r.moves, id, refused, mid);
    assert forall x :: x in A.Holders(mid, fqdn) ==> x == id;
    assert A.Extras(mid, fqdn) == {};
  }

  lemma ReadyIsWithdrawn(s0: State, s: State, r: Run, fqdn: string, refused: set<Id>)
    requires s0.named <= s0.nodes.Keys && ReadyToPut(s0, s, r)
    requires refused == set x | x in s0.named && x in s.nodes && s0.nodes[x].marked
    ensures var nodes := View(s0, fqdn);
            if A.Holders(nodes, fqdn) == {} then View(s, fqdn) == nodes
            else r.moves && A.HoldersAt(nodes, fqdn, r.address) == {} && View(s, fqdn) == A.Withdrawn(nodes, fqdn, refused)
  {
    var nodes := View(s0, fqdn);
    assert A.Holders(nodes, fqdn) == s0.named;
    if s0.named != {} {
      assert View(s, fqdn).Keys == A.Withdrawn(nodes, fqdn, refused).Keys;
    }
  }

  lemma PutIsPlaced(s: State, run: RunId, id: Id, fqdn: string)
    requires run in s.runs && s.runs[run].pc.Putting? && Enabled(s, Put(run, id)) && s.named == {}
    requires match s.runs[run].pc.found
             case Some(f) => f in s.nodes && s.nodes[f].address == s.runs[run].address
             case None => forall x :: x in s.nodes ==> s.nodes[x].address != s.runs[run].address
    ensures A.Placed(View(s, fqdn), fqdn, s.runs[run].address, id, View(Next(s, Put(run, id)), fqdn))
    ensures A.Holders(View(Next(s, Put(run, id)), fqdn), fqdn) == {id}
  {
    var base, address, mid := View(s, fqdn), s.runs[run].address, View(Next(s, Put(run, id)), fqdn);
    if s.runs[run].pc.found.Some? {
      assert id in A.AtAddress(base, address);
      assert mid == base[id := base[id].(fqdn := Some(fqdn))];
    } else {
      assert A.AtAddress(base, address) == {};
      assert mid == base[id := A.Node(address, Some(fqdn), true)];
    }
  }

  lemma SameExtras(s: State, fqdn: string)
    requires s.named <= s.nodes.Keys
    ensures Extras(s) == A.Extras(View(s, fqdn), fqdn)
  {
    assert A.Holders(View(s, fqdn), fqdn) == s.named;
  }

  lemma SnapshotStep(s0: State, s: State, run: RunId, fqdn: string)
    requires run in s.runs && GotTo(s0, s, s.runs[run], fqdn) && Enabled(s, Snapshot(run))
    ensures var s' := Next(s, Snapshot(run)); GotTo(s0, s', s'.runs[run], fqdn)
  {
    var nodes := View(s, fqdn);
    SameExtras(s, fqdn);
    assert View(Next(s, Snapshot(run)), fqdn) == nodes && nodes - {} == nodes;
    assert A.Extras(nodes, fqdn) - Extras(s) == {};
    var r' := Next(s, Snapshot(run)).runs[run];
    assert EnsuredTo(s0, r', fqdn, nodes);
    assert Removing(s0, r', fqdn, Extras(s), nodes, nodes);
  }

  lemma DeleteStep(s0: State, s: State, run: RunId, id: Id, fqdn: string)
    requires run in s.runs && GotTo(s0, s, s.runs[run], fqdn) && Enabled(s, DeleteOne(run, id))
    ensures var s' := Next(s, DeleteOne(run, id)); GotTo(s0, s', s'.runs[run], fqdn)
  {
    var r, nodes, nodes' := s.runs[run], View(s, fqdn), View(Next(s, DeleteOne(run, id)), fqdn);
    var todo := r.pc.todo;
    var mid :| Removing(s0, r, fqdn, todo, nodes, mid);
    assert nodes' == nodes - {id};
    var r' := Next(s, DeleteOne(run, id)).runs[run];
    assert EnsuredTo(s0, r', fqdn, mid);
    OneLess(s0, r', fqdn, todo, id, nodes, nodes', mid);
  }

  lemma OneLess(s0: State, r: Run, fqdn: string, todo: set<Id>, id: Id, nodes: A.Nodes, nodes': A.Nodes, mid: A.Nodes)
    requires Removing(s0, r, fqdn, todo, nodes, mid) && id in todo && nodes' == nodes - {id}
    ensures Removing(s0, r, fqdn, todo - {id}, nodes', mid)
  {
    var extras := A.Extras(mid, fqdn);
    assert extras - (todo - {id}) == extras - todo + {id};
    assert mid - (extras - todo) - {id} == mid - (extras - todo + {id});
  }

  lemma FinishStep(s0: State, s: State, run: RunId, fqdn: string)
    requires run in s.runs && GotTo(s0, s, s.runs[run], fqdn) && Enabled(s, R.Action.Finish(run))
    ensures var s' := Next(s, R.Action.Finish(run)); GotTo(s0, s', s'.runs[run], fqdn)
  {
    var s' := Next(s, R.Action.Finish(run));
    assert s.runs[run].pc == Deleting({});
    assert View(s', fqdn) == View(s, fqdn);
    var mid :| Removing(s0, s.runs[run], fqdn, {}, View(s, fqdn), mid);
    assert Removing(s0, s'.runs[run], fqdn, {}, View(s', fqdn), mid);
  }

  lemma OneStep(s0: State, s: State, a: Action, fqdn: string)
    requires s0.named <= s0.nodes.Keys && a.run in s.runs && GotTo(s0, s, s.runs[a.run], fqdn) && Enabled(s, a)
    ensures var s' := Next(s, a);
            && a.run in s'.runs && GotTo(s0, s', s'.runs[a.run], fqdn)
            && (s'.runs[a.run].address, s'.runs[a.run].moves) == (s.runs[a.run].address, s.runs[a.run].moves)
  {
    match a
    case Start(_, _, _) =>
    case Look(run) => LookStep(s0, s, run, fqdn);
    case Put(run, id) => PutStep(s0, s, run, id, fqdn);
    case Snapshot(run) => SnapshotStep(s0, s, run, fqdn);
    case DeleteOne(run, id) => DeleteStep(s0, s, run, id, fqdn);
    case Finish(run) => FinishStep(s0, s, run, fqdn);
    case _ => WithdrawSteps(s0, s, a, fqdn);
  }

  lemma {:induction false} GotThrough(s0: State, s: State, actions: seq<Action>, s': State, run: RunId, fqdn: string)
    requires s0.named <= s0.nodes.Keys && run in s.runs && GotTo(s0, s, s.runs[run], fqdn)
    requires Reaches(s, actions, s') && forall a :: a in actions ==> a.run == run
    ensures run in s'.runs && (s'.runs[run].address, s'.runs[run].moves) == (s.runs[run].address, s.runs[run].moves)
    ensures GotTo(s0, s', s'.runs[run], fqdn)
    decreases |actions|
  {
    if actions != [] {
      var a := actions[0];
      OneStep(s0, s, a, fqdn);
      GotThrough(s0, Next(s, a), actions[1..], s', run, fqdn);
    }
  }

  /** From any state, a run that starts, takes its steps alone and ends has done to the nodes
      what the sequential program does, with some of its deletions refused. */
  lemma AloneIsSequential(s: State, actions: seq<Action>, s': State, run: RunId, address: string, moves: bool, fqdn: string)
    requires s.named <= s.nodes.Keys && actions != [] && actions[0] == Start(run, address, moves)
    requires Reaches(s, actions, s') && (forall a :: a in actions ==> a.run == run) && At(s', run) == Some(Done)
    ensures exists refused, newId :: A.RunTo(View(s, fqdn), fqdn, address, moves, newId, refused, View(s', fqdn))
  {
    var s1 := Next(s, actions[0]);
    GotThrough(s, s1, actions[1..], s', run, fqdn);
    var r := s'.runs[run];
    var mid :| Removing(s, r, fqdn, {}, View(s', fqdn), mid);
    var refused, newId :| A.Ensured(View(s, fqdn), fqdn, r.address, r.moves, newId, refused, mid) && refused !! A.Extras(mid, fqdn);
    assert A.Extras(mid, fqdn) - refused == A.Extras(mid, fqdn) - {};
    assert A.RunTo(View(s, fqdn), fqdn, address, moves, newId, refused, View(s', fqdn));
  }
}
