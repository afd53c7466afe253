/** One application's DNS name under racing generator runs. Each run looks the name up,
    perhaps writes it, then removes the duplicates it sees except the lowest id. Reads
    and writes of different runs interleave freely. */
module DnsRecords {
  import opened Options

  type Id = nat
  type RunId = nat

  /** An address node. `marked` is the creation mark in its description. */
  datatype Node = Node(address: string, marked: bool)

  datatype Pc =
    | Looking
    | AboutToWithdraw
    | Withdrawing(todo: set<Id>)
    | Finding
    | Putting(found: Option<Id>)
    | Snapshotting
    | Deleting(todo: set<Id>)
    | Done

  /** One run: the address it would put the name on, whether the application pins that
      address, and where it stands. */
  datatype Run = Run(address: string, moves: bool, pc: Pc)

  /** `named` are the nodes that hold the name now, `ever` those that ever did. */
  datatype State = State(nodes: map<Id, Node>, named: set<Id>, ever: set<Id>, runs: map<RunId, Run>)

  datatype Action =
    | Start(run: RunId, address: string, moves: bool)
    | Look(run: RunId)
    | ReadHolders(run: RunId)
    | WithdrawOne(run: RunId, id: Id, deleted: bool)
    | EndWithdraw(run: RunId)
    | FindAddress(run: RunId, found: Option<Id>)
    | Put(run: RunId, id: Id)
    | Snapshot(run: RunId)
    | DeleteOne(run: RunId, id: Id)
    | Finish(run: RunId)

  function At(s: State, run: RunId): Option<Pc> {
    if run in s.runs then Some(s.runs[run].pc) else None
  }

  predicate Enabled(s: State, a: Action) {
    match a
    case Start(run, _, _) => run !in s.runs
    case Look(run) => At(s, run) == Some(Looking)
    case ReadHolders(run) => At(s, run) == Some(AboutToWithdraw)
    case WithdrawOne(run, id, deleted) =>
      && run in s.runs && s.runs[run].pc.Withdrawing? && id in s.runs[run].pc.todo
      && (deleted ==> id in s.nodes && s.nodes[id].marked)
    case EndWithdraw(run) => At(s, run) == Some(Withdrawing({}))
    case FindAddress(run, found) =>
      && At(s, run) == Some(Finding)
      && (match found
          case Some(id) => id in s.nodes && s.nodes[id].address == s.runs[run].address
          case None => forall id :: id in s.nodes ==> s.nodes[id].address != s.runs[run].address)
    case Put(run, id) =>
      && run in s.runs && s.runs[run].pc.Putting?
      // The node that was found; or a new one; or, when none was found, one that a
      // racing run has created at this address since.
      && (match s.runs[run].pc.found
          case Some(f) => if f in s.nodes then id == f else id !in s.nodes
          case None => id in s.nodes ==> s.nodes[id].address == s.runs[run].address)
    case Snapshot(run) => At(s, run) == Some(Snapshotting)
    case DeleteOne(run, id) => run in s.runs && s.runs[run].pc.Deleting? && id in s.runs[run].pc.todo
    case Finish(run) => At(s, run) == Some(Deleting({}))
  }

  predicate IsLowest(s: set<Id>, id: Id) {
    id in s && forall other :: other in s ==> id <= other
  }

  /** The holders a run that reads them now would remove: marked, and not the lowest. */
  function Extras(s: State): set<Id> {
    set id | id in s.named && !IsLowest(s.named, id) && id in s.nodes && s.nodes[id].marked
  }

  function Goto(s: State, run: RunId, pc: Pc): State
    requires run in s.runs
  {
    s.(runs := s.runs[run := s.runs[run].(pc := pc)])
  }

  function Next(s: State, a: Action): State
    requires Enabled(s, a)
  {
    match a
    case Start(run, address, moves) => s.(runs := s.runs[run := Run(address, moves, Looking)])
    case Look(run) =>
      if s.named == {} then Goto(s, run, Finding)
      else if !s.runs[run].moves then Goto(s, run, Snapshotting)
      else if exists id :: id in s.named && id in s.nodes && s.nodes[id].address == s.runs[run].address
      then Goto(s, run, Snapshotting)
      else Goto(s, run, AboutToWithdraw)
    case ReadHolders(run) => Goto(s, run, Withdrawing(s.named))
    case WithdrawOne(run, id, deleted) =>
      // A marked node is deleted, or, when that is refused, keeps existing without the name.
      var t := s.(named := s.named - {id}, nodes := if deleted then s.nodes - {id} else s.nodes);
      Goto(t, run, Withdrawing(s.runs[run].pc.todo - {id}))
    case EndWithdraw(run) => Goto(s, run, Finding)
    case FindAddress(run, found) => Goto(s, run, Putting(found))
    case Put(run, id) =>
      var kept := s.runs[run].pc.found.Some? && id in s.nodes;
      var node := if kept then s.nodes[id] else Node(s.runs[run].address, true);
      Goto(s.(nodes := s.nodes[id := node], named := s.named + {id}, ever := s.ever + {id}), run, Snapshotting)
    case Snapshot(run) => Goto(s, run, Deleting(Extras(s)))
    case DeleteOne(run, id) =>
      Goto(s.(nodes := s.nodes - {id}, named := s.named - {id}), run, Deleting(s.runs[run].pc.todo - {id}))
    case Finish(run) => Goto(s, run, Done)
  }

  ghost predicate Reaches(s: State, actions: seq<Action>, s': State)
    decreases |actions|
  {
    if actions == [] then s == s'
    else Enabled(s, actions[0]) && Reaches(Next(s, actions[0]), actions[1..], s')
  }

  predicate AllDone(s: State) {
    forall run :: run in s.runs ==> s.runs[run].pc.Done?
  }

  // --- Agreement ------------------------------------------------------------------------

  /** A run that will still remove `y`, or will look again before it ends. */
  predicate WillRemove(r: Run, y: Id) {
    r.pc.Snapshotting? || (r.pc.Deleting? && y in r.pc.todo)
  }

  /** Every duplicate holder is some unfinished run's to remove. */
  ghost predicate Tended(s: State) {
    && s.named <= s.nodes.Keys
    && s.named <= s.ever
    && forall x, y :: x in s.named && y in s.named && x < y && s.nodes[y].marked ==>
         exists run :: run in s.runs && WillRemove(s.runs[run], y)
  }

  lemma TendedStep(s: State, a: Action)
    requires Tended(s) && Enabled(s, a)
    ensures Tended(Next(s, a))
  {
    var t := Next(s, a);
    forall x, y | x in t.named && y in t.named && x < y && t.nodes[y].marked
      ensures exists run :: run in t.runs && WillRemove(t.runs[run], y)
    {
      if a.Put? {
        assert WillRemove(t.runs[a.run], y);
      } else {
        var run :| run in s.runs && WillRemove(s.runs[run], y);
        if a.Snapshot? && run == a.run {
          assert y in Extras(s);
        }
        assert WillRemove(t.runs[run], y);
      }
    }
  }

  lemma {:induction false} RunsKeepTended(s: State, actions: seq<Action>, s': State)
    requires Tended(s) && Reaches(s, actions, s')
    ensures Tended(s')
    decreases |actions|
  {
    if actions != [] {
      TendedStep(s, actions[0]);
      RunsKeepTended(Next(s, actions[0]), actions[1..], s');
    }
  }

  /** Over every interleaving of any number of runs, pinned or not: when all have ended,
      every holder but the lowest is one no run created. So without hand-made holders at
      most one node holds the name, and all runs agree on it. */
  lemma RunsAgree(s: State, actions: seq<Action>, s': State)
    requires Tended(s) && Reaches(s, actions, s') && AllDone(s')
    ensures s'.named <= s'.nodes.Keys
    ensures forall x, y :: x in s'.named && y in s'.named && x < y ==> !s'.nodes[y].marked
    ensures (forall id :: id in s'.named ==> s'.nodes[id].marked) ==> |s'.named| <= 1
  {
    RunsKeepTended(s, actions, s');
    if forall id :: id in s'.named ==> s'.nodes[id].marked {
      AtMostOne(s'.named);
    }
  }

  lemma AtMostOne(ids: set<Id>)
    requires forall x, y :: x in ids && y in ids && x < y ==> false
    ensures |ids| <= 1
  {
    if ids != {} {
      var x :| x in ids;
      forall y | y in ids ensures y == x {
        if y < x { assert false; }
        if x < y { assert false; }
      }
      assert ids == {x};
    }
  }

  /** What keeps hand-made nodes: a run's list holds nothing unmarked, and where a run is
      about to create because it found nothing, all there is by now was created by runs. */
  ghost predicate SparesHandMade(s: State) {
    && (forall run, id :: run in s.runs && id in s.nodes && Lists(s.runs[run], id) ==> s.nodes[id].marked)
    && (forall run, id :: run in s.runs && id in s.nodes && Creates(s.runs[run], s.nodes[id].address) ==> s.nodes[id].marked)
  }

  predicate Lists(r: Run, id: Id) {
    r.pc.Deleting? && id in r.pc.todo
  }

  predicate Creates(r: Run, address: string) {
    r.pc == Putting(None) && r.address == address
  }

  lemma SparesStep(s: State, a: Action)
    requires SparesHandMade(s) && Enabled(s, a)
    ensures SparesHandMade(Next(s, a))
  {
  }

  lemma UnmarkedStays(s: State, a: Action, id: Id)
    requires SparesHandMade(s) && Enabled(s, a) && id in s.nodes && !s.nodes[id].marked
    ensures id in Next(s, a).nodes && Next(s, a).nodes[id] == s.nodes[id]
  {
    if a.DeleteOne? { assert Lists(s.runs[a.run], a.id); }
    if a.Put? && s.runs[a.run].pc.found.None? { assert Creates(s.runs[a.run], s.runs[a.run].address); }
  }

  lemma {:induction false} SparedThroughout(s: State, actions: seq<Action>, s': State, id: Id)
    requires SparesHandMade(s) && Reaches(s, actions, s') && id in s.nodes && !s.nodes[id].marked
    ensures id in s'.nodes && s'.nodes[id] == s.nodes[id]
    decreases |actions|
  {
    if actions != [] {
      SparesStep(s, actions[0]);
      UnmarkedStays(s, actions[0], id);
      SparedThroughout(Next(s, actions[0]), actions[1..], s', id);
    }
  }

  /** Over every interleaving of any runs, pinned or not and at any addresses: a node
      without the creation mark is neither deleted nor given the mark. */
  lemma UnmarkedNeverDeleted(s: State, actions: seq<Action>, s': State, id: Id)
    requires s.runs == map[] && Reaches(s, actions, s') && id in s.nodes && !s.nodes[id].marked
    ensures id in s'.nodes && s'.nodes[id] == s.nodes[id]
  {
    SparedThroughout(s, actions, s', id);
  }

  // --- The lowest node ever named survives ---------------------------------------------------

  /** No run is on its way to withdraw, and none will be: either no run pins its address,
      or all runs name one address and every holder is there. */
  ghost predicate Steady(s: State, addr: Option<string>) {
    && (forall run :: run in s.runs ==>
          && !s.runs[run].pc.AboutToWithdraw? && !s.runs[run].pc.Withdrawing?
          && (if addr.Some? then s.runs[run].address == addr.value else !s.runs[run].moves))
    && (addr.Some? ==>
          && (forall id :: id in s.named && id in s.nodes ==> s.nodes[id].address == addr.value)
          && (forall run, id :: run in s.runs && s.runs[run].pc == Putting(Some(id)) && id in s.nodes ==>
                s.nodes[id].address == addr.value))
  }

  /** Then everything a run is about to delete has a lower rival, and the lowest rival of
      all holds the name. */
  ghost predicate LowestHolds(s: State, addr: Option<string>) {
    && Tended(s)
    && Steady(s, addr)
    && (forall run, y :: run in s.runs && s.runs[run].pc.Deleting? && y in s.runs[run].pc.todo ==>
          exists x :: x in s.ever && x < y)
    && (forall id :: IsLowest(s.ever, id) ==> id in s.named)
    && (forall run :: run in s.runs && (s.runs[run].pc.Snapshotting? || s.runs[run].pc.Deleting? || s.runs[run].pc.Done?)
          ==> s.ever != {})
  }

  predicate StartFits(a: Action, addr: Option<string>) {
    a.Start? ==> if addr.Some? then a.address == addr.value else !a.moves
  }

  lemma {:induction false} LowestExists(ids: set<Id>)
    requires ids != {}
    ensures exists id :: IsLowest(ids, id)
  {
    var x :| x in ids;
    var rest := ids - {x};
    if rest == {} {
      assert ids == {x} && IsLowest(ids, x);
    } else {
      LowestExists(rest);
      var y :| IsLowest(rest, y);
      assert ids == rest + {x};
      assert IsLowest(ids, if x < y then x else y);
    }
  }

  lemma SteadyStep(s: State, a: Action, addr: Option<string>)
    requires Tended(s) && Steady(s, addr) && Enabled(s, a) && StartFits(a, addr)
    ensures Steady(Next(s, a), addr)
  {
    if a.Look? && addr.Some? && s.named != {} {
      var id :| id in s.named;
      assert id in s.nodes && s.nodes[id].address == addr.value;
    }
  }

  lemma LowestHoldsStep(s: State, a: Action, addr: Option<string>)
    requires LowestHolds(s, addr) && Enabled(s, a) && StartFits(a, addr)
    ensures LowestHolds(Next(s, a), addr)
  {
    var t := Next(s, a);
    TendedStep(s, a);
    SteadyStep(s, a, addr);
    forall run, y | run in t.runs && t.runs[run].pc.Deleting? && y in t.runs[run].pc.todo
      ensures exists x :: x in t.ever && x < y
    {
      if a.Snapshot? && run == a.run {
        assert y in s.named && !IsLowest(s.named, y);
        var x :| x in s.named && x < y;
        assert x in s.ever;
      } else {
        assert y in s.runs[run].pc.todo;
        var x :| x in s.ever && x < y;
        assert x in t.ever;
      }
    }
    forall id | IsLowest(t.ever, id) ensures id in t.named {
      if a.Put? {
        if id != a.run && id in s.ever { assert IsLowest(s.ever, id); }
      } else {
        assert IsLowest(s.ever, id);
        assert a.DeleteOne? ==> exists x :: x in s.ever && x < a.id;
      }
    }
  }

  lemma {:induction false} RunsKeepLowest(s: State, actions: seq<Action>, s': State, addr: Option<string>)
    requires LowestHolds(s, addr) && Reaches(s, actions, s')
    requires forall a :: a in actions ==> StartFits(a, addr)
    ensures LowestHolds(s', addr)
    decreases |actions|
  {
    if actions != [] {
      LowestHoldsStep(s, actions[0], addr);
      RunsKeepLowest(Next(s, actions[0]), actions[1..], s', addr);
    }
  }

  /** Before any run: nobody has looked, and some nodes may hold the name already. */
  predicate Initial(s: State) {
    s.runs == map[] && s.named == s.ever && s.named <= s.nodes.Keys && |s.named| <= 1
  }

  /** No hand-made holder, and none to be made by naming an existing address: every node
      that holds the name or sits at an address some run would use carries the mark. */
  ghost predicate NoHandMade(s: State, addresses: set<string>) {
    && (forall run :: run in s.runs ==> s.runs[run].address in addresses)
    && (forall id :: id in s.nodes && (id in s.named || s.nodes[id].address in addresses) ==> s.nodes[id].marked)
    && (forall run, id :: run in s.runs && s.runs[run].pc == Putting(Some(id)) && id in s.nodes
                          ==> s.nodes[id].address in addresses)
  }

  lemma {:induction false} RunsKeepNoHandMade(s: State, actions: seq<Action>, s': State, addresses: set<string>)
    requires NoHandMade(s, addresses) && Reaches(s, actions, s')
    requires forall i :: 0 <= i < |actions| && actions[i].Start? ==> actions[i].address in addresses
    ensures NoHandMade(s', addresses)
    decreases |actions|
  {
    if actions != [] {
      assert NoHandMade(Next(s, actions[0]), addresses);
      RunsKeepNoHandMade(Next(s, actions[0]), actions[1..], s', addresses);
    }
  }

  /** The runs to come do not pin an address (`addr` is `None`), or they all name the one
      address `addr`, pinned or not, and the name is there already or nowhere. */
  ghost predicate Agreeable(s: State, actions: seq<Action>, addr: Option<string>) {
    && (forall a :: a in actions ==> StartFits(a, addr))
    && (addr.Some? ==> forall id :: id in s.named && id in s.nodes ==> s.nodes[id].address == addr.value)
  }

  /** Then over every interleaving and at every moment the lowest node that ever held the
      name exists and holds it. When all runs have ended every other holder is hand-made. */
  lemma LowestSurvives(s: State, actions: seq<Action>, s': State, addr: Option<string>)
    requires Initial(s) && Reaches(s, actions, s') && Agreeable(s, actions, addr)
    ensures s'.named <= s'.nodes.Keys
    ensures forall id :: IsLowest(s'.ever, id) ==> id in s'.named
    ensures AllDone(s') ==> forall id, y :: IsLowest(s'.ever, id) && y in s'.named && y != id ==> !s'.nodes[y].marked
    ensures AllDone(s') && s'.runs != map[] ==> s'.named != {}
  {
    InitialHolds(s, addr);
    RunsKeepLowest(s, actions, s', addr);
    if AllDone(s') {
      RunsAgree(s, actions, s');
      if s'.runs != map[] {
        var run :| run in s'.runs;
        LowestExists(s'.ever);
      }
    }
  }

  /** So without hand-made holders, when every run has ended, exactly one node holds the
      name: the lowest that ever did. All runs agree on it. */
  lemma AllRunsAgreeOnTheLowest(s: State, actions: seq<Action>, s': State, addr: Option<string>, addresses: set<string>)
    requires Initial(s) && NoHandMade(s, addresses) && Reaches(s, actions, s') && Agreeable(s, actions, addr)
    requires forall i :: 0 <= i < |actions| && actions[i].Start? ==> actions[i].address in addresses
    requires AllDone(s') && s'.runs != map[]
    ensures exists id: Id :: IsLowest(s'.ever, id) && s'.named == {id}
  {
    LowestSurvives(s, actions, s', addr);
    RunsKeepNoHandMade(s, actions, s', addresses);
    var run :| run in s'.runs;
    InitialHolds(s, addr);
    RunsKeepLowest(s, actions, s', addr);
    LowestExists(s'.ever);
    var id: Id :| IsLowest(s'.ever, id);
    assert s'.named == {id};
  }

  lemma InitialHolds(s: State, addr: Option<string>)
    requires Initial(s)
    requires addr.Some? ==> forall id :: id in s.named && id in s.nodes ==> s.nodes[id].address == addr.value
    ensures LowestHolds(s, addr)
  {
    forall x, y | x in s.named && y in s.named ensures x == y {
      if x != y { CardinalityTwo(s.named, x, y); }
    }
  }

  lemma CardinalityTwo(ids: set<Id>, x: Id, y: Id)
    requires x in ids && y in ids && x != y
    ensures |ids| >= 2
  {
    assert {x, y} <= ids && ids == {x, y} + (ids - {x, y});
  }
}
