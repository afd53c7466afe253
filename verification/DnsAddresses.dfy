/** One DNS record run from start to end, with nothing running beside it: what the
    generator's three steps do to the address nodes. `DnsRecords` interleaves them. */
module DnsAddresses {
  import opened Options

  type Id = nat

  datatype Node = Node(address: string, fqdn: Option<string>, marked: bool)

  type Nodes = map<Id, Node>

  function Holders(nodes: Nodes, fqdn: string): set<Id> {
    set id | id in nodes && nodes[id].fqdn == Some(fqdn)
  }

  function HoldersAt(nodes: Nodes, fqdn: string, address: string): set<Id> {
    set id | id in Holders(nodes, fqdn) && nodes[id].address == address
  }

  function AtAddress(nodes: Nodes, address: string): set<Id> {
    set id | id in nodes && nodes[id].address == address
  }

  predicate IsLowest(ids: set<Id>, id: Id) {
    id in ids && forall other :: other in ids ==> id <= other
  }

  /** The marked holders beside the lowest one. */
  function Extras(nodes: Nodes, fqdn: string): set<Id> {
    set id | id in Holders(nodes, fqdn) && nodes[id].marked && !IsLowest(Holders(nodes, fqdn), id)
  }

  /** Every holder loses the name; a marked one goes, unless its deletion is refused. */
  function Withdrawn(nodes: Nodes, fqdn: string, refused: set<Id>): Nodes {
    map id | id in nodes && !(nodes[id].fqdn == Some(fqdn) && nodes[id].marked && id !in refused)
           :: if nodes[id].fqdn == Some(fqdn) then nodes[id].(fqdn := None) else nodes[id]
  }

  /** The name goes on an existing node of the address, else on a new marked one. */
  ghost predicate Placed(nodes: Nodes, fqdn: string, address: string, newId: Id, nodes': Nodes) {
    if AtAddress(nodes, address) == {} then nodes' == nodes[newId := Node(address, Some(fqdn), true)]
    else exists id :: id in AtAddress(nodes, address) && nodes' == nodes[id := nodes[id].(fqdn := Some(fqdn))]
  }

  /** `_ensure`: a name that has an address keeps it, unless the application pins another. */
  ghost predicate Ensured(nodes: Nodes, fqdn: string, address: string, moves: bool, newId: Id, refused: set<Id>, nodes': Nodes) {
    if Holders(nodes, fqdn) != {} && (!moves || HoldersAt(nodes, fqdn, address) != {}) then nodes' == nodes
    else if Holders(nodes, fqdn) != {} then Placed(Withdrawn(nodes, fqdn, refused), fqdn, address, newId, nodes')
    else Placed(nodes, fqdn, address, newId, nodes')
  }

  class Ipam {
    var nodes: Nodes

    constructor (nodes: Nodes)
      ensures this.nodes == nodes
    {
      this.nodes := nodes;
    }

    method Lowest(ids: set<Id>) returns (low: Id)
      requires ids != {}
      ensures IsLowest(ids, low)
    {
      low :| low in ids;
      var left := ids - {low};
      while left != {}
        invariant left <= ids && low in ids
        invariant forall other :: other in ids ==> other in left || low <= other
        decreases left
      {
        var id :| id in left;
        left := left - {id};
        if id < low {
          low := id;
        }
      }
    }

    /** `_keep_one`: a duplicate whose deletion is refused stays, name and all. */
    method KeepOne(fqdn: string, refused: set<Id>)
      modifies this
      ensures nodes == old(nodes) - (Extras(old(nodes), fqdn) - refused)
    {
      var holders := Holders(nodes, fqdn);
      if holders == {} {
        assert nodes - {} == nodes;
        return;
      }
      var low := Lowest(holders);
      var left := holders - {low};
      ghost var done: set<Id> := {};
      while left != {}
        invariant left <= holders - {low} && done == holders - {low} - left
        invariant nodes == old(nodes) - (set id | id in done && old(nodes)[id].marked && id !in refused)
        decreases left
      {
        var extra :| extra in left;
        left, done := left - {extra}, done + {extra};
        if nodes[extra].marked && extra !in refused {
          nodes := nodes - {extra};
        }
      }
      assert forall id :: IsLowest(holders, id) ==> id == low;
    }

    /** `_withdraw`; `refused` are the nodes something still references. */
    method Withdraw(fqdn: string, refused: set<Id>)
      modifies this
      ensures nodes == Withdrawn(old(nodes), fqdn, refused)
    {
      var left := Holders(nodes, fqdn);
      ghost var all := left;
      while left != {}
        invariant left <= all
        invariant forall id :: id in nodes <==> id in old(nodes) && !(id in all - left && old(nodes)[id].marked && id !in refused)
        invariant forall id :: id in nodes ==> nodes[id] == if id in all - left then old(nodes)[id].(fqdn := None) else old(nodes)[id]
        decreases left
      {
        var id :| id in left;
        left := left - {id};
        if nodes[id].marked && id !in refused {
          nodes := nodes - {id};
        } else {
          nodes := nodes[id := nodes[id].(fqdn := None)];
        }
      }
    }

    /** `_ensure`. */
    method Ensure(fqdn: string, address: string, moves: bool, newId: Id, refused: set<Id>)
      modifies this
      ensures Ensured(old(nodes), fqdn, address, moves, newId, refused, nodes)
    {
      var holders := Holders(nodes, fqdn);
      if holders != {} && !moves {
        return;
      }
      if holders != {} {
        if HoldersAt(nodes, fqdn, address) != {} {
          return;
        }
        Withdraw(fqdn, refused);
      }
      var existing := AtAddress(nodes, address);
      if existing != {} {
        var id := Lowest(existing);
        nodes := nodes[id := nodes[id].(fqdn := Some(fqdn))];
        return;
      }
      nodes := nodes[newId := Node(address, Some(fqdn), true)];
    }
  }

  // --- What each part does, node by node ---------------------------------------------------------

  /** Withdrawing: a node with the name is deleted when it carries the mark and its deletion is
      not refused, and else only loses the name; every other node is as it was. */
  lemma WithdrawnNode(nodes: Nodes, fqdn: string, refused: set<Id>, id: Id)
    requires id in nodes
    ensures var after := Withdrawn(nodes, fqdn, refused);
            && after.Keys <= nodes.Keys
            && (id !in after <==> nodes[id].fqdn == Some(fqdn) && nodes[id].marked && id !in refused)
            && (id in after ==> after[id] == Node(nodes[id].address, if nodes[id].fqdn == Some(fqdn) then None else nodes[id].fqdn,
                                                  nodes[id].marked))
  {
  }

  /** Removing duplicates: an extra is a marked node with the name while a lower one has it too. */
  lemma ExtraNode(nodes: Nodes, fqdn: string, id: Id)
    ensures id in Extras(nodes, fqdn) <==>
            && id in nodes && nodes[id].fqdn == Some(fqdn) && nodes[id].marked
            && exists other :: other in nodes && nodes[other].fqdn == Some(fqdn) && other < id
  {
    assert forall other :: other in Holders(nodes, fqdn) <==> other in nodes && nodes[other].fqdn == Some(fqdn);
    if id in Extras(nodes, fqdn) {
      var other :| other in Holders(nodes, fqdn) && !(id <= other);
    }
    if other :| other in nodes && nodes[other].fqdn == Some(fqdn) && other < id {
      assert other in Holders(nodes, fqdn);
    }
  }

  /** Ensuring: a name that is there is left alone, unless the application pins an address it
      is not at. Otherwise one node at the address gets it: one that was there before, or
      else a new, marked one. A name that moves is withdrawn first. */
  lemma EnsuredNode(nodes: Nodes, fqdn: string, address: string, moves: bool, newId: Id, refused: set<Id>, mid: Nodes)
    requires Ensured(nodes, fqdn, address, moves, newId, refused, mid) && newId !in nodes
    ensures var named := exists id :: id in nodes && nodes[id].fqdn == Some(fqdn);
            var there := exists id :: id in nodes && nodes[id].fqdn == Some(fqdn) && nodes[id].address == address;
            if named && (!moves || there) then mid == nodes
            else exists got :: PutThere(nodes, fqdn, address, newId, refused, mid, got)
  {
    var there := exists id :: id in nodes && nodes[id].fqdn == Some(fqdn) && nodes[id].address == address;
    var placed := !(Holders(nodes, fqdn) != {} && (!moves || there));
    forall id ensures id in Holders(nodes, fqdn) <==> id in nodes && nodes[id].fqdn == Some(fqdn) { }
    forall id ensures id in HoldersAt(nodes, fqdn, address) <==>
                      id in nodes && nodes[id].fqdn == Some(fqdn) && nodes[id].address == address
    {
    }
    if placed {
      PlacedNode(nodes, fqdn, address, newId, refused, mid);
    }
  }

  /** The node `got` at the address has the name, all others have lost it, and nothing else
      changed. */
  ghost predicate PutThere(nodes: Nodes, fqdn: string, address: string, newId: Id, refused: set<Id>, mid: Nodes, got: Id) {
    && got in mid && mid[got].address == address && mid[got].fqdn == Some(fqdn)
    && (if got in nodes then mid[got].marked == nodes[got].marked
        else && got == newId && mid[got].marked
             && forall id :: id in nodes ==> nodes[id].address != address)
    && (forall id :: id in nodes && id != got ==>
          if nodes[id].fqdn == Some(fqdn) && nodes[id].marked && id !in refused then id !in mid
          else id in mid && mid[id] == Node(nodes[id].address, if nodes[id].fqdn == Some(fqdn) then None else nodes[id].fqdn, nodes[id].marked))
    && forall id :: id in mid ==> id in nodes || id == got
  }

  lemma PlacedNode(nodes: Nodes, fqdn: string, address: string, newId: Id, refused: set<Id>, mid: Nodes)
    requires Ensured(nodes, fqdn, address, true, newId, refused, mid) && newId !in nodes && HoldersAt(nodes, fqdn, address) == {}
    ensures exists got :: PutThere(nodes, fqdn, address, newId, refused, mid, got)
  {
    var base := if Holders(nodes, fqdn) != {} then Withdrawn(nodes, fqdn, refused) else nodes;
    assert Placed(base, fqdn, address, newId, mid);
    forall id | id in nodes ensures nodes[id].address == address ==> id in base && base[id] == nodes[id] {
      assert id !in HoldersAt(nodes, fqdn, address);
    }
    forall id | id in nodes && id !in Holders(nodes, fqdn) ensures id in base && base[id] == nodes[id] { }
    if AtAddress(base, address) == {} {
      forall id | id in nodes ensures nodes[id].address != address {
        assert nodes[id].address == address ==> id in AtAddress(base, address);
      }
      assert PutThere(nodes, fqdn, address, newId, refused, mid, newId);
    } else {
      var got :| got in AtAddress(base, address) && mid == base[got := base[got].(fqdn := Some(fqdn))];
      assert PutThere(nodes, fqdn, address, newId, refused, mid, got);
    }
  }

  // --- What a whole run leaves ---------------------------------------------------------------

  /** A run: `_ensure`, then `_keep_one`, the same deletions being refused in both. */
  ghost predicate RunTo(nodes: Nodes, fqdn: string, address: string, moves: bool, newId: Id, refused: set<Id>, nodes': Nodes) {
    exists mid :: Ensured(nodes, fqdn, address, moves, newId, refused, mid) && nodes' == mid - (Extras(mid, fqdn) - refused)
  }

  lemma {:induction false} LowestExists(ids: set<Id>)
    requires ids != {}
    ensures exists id :: IsLowest(ids, id)
  {
    var x :| x in ids;
    if ids == {x} {
      assert IsLowest(ids, x);
    } else {
      LowestExists(ids - {x});
      var y :| IsLowest(ids - {x}, y);
      assert forall other :: other in ids <==> other == x || other in ids - {x};
      assert IsLowest(ids, if x < y then x else y);
    }
  }

  lemma PlacedHolds(nodes: Nodes, fqdn: string, address: string, newId: Id, nodes': Nodes)
    requires Placed(nodes, fqdn, address, newId, nodes')
    ensures HoldersAt(nodes', fqdn, address) != {}
    ensures forall id :: id in Holders(nodes', fqdn) ==> id in Holders(nodes, fqdn) || nodes'[id].address == address
  {
    if AtAddress(nodes, address) == {} {
      assert newId in HoldersAt(nodes', fqdn, address);
    } else {
      var id :| id in AtAddress(nodes, address) && nodes' == nodes[id := nodes[id].(fqdn := Some(fqdn))];
      assert id in HoldersAt(nodes', fqdn, address);
    }
  }

  /** After a run the name is held, and every holder besides the lowest is hand-made or one
      whose deletion was refused. Nodes with another name, and nodes with no name at
      another address, are as they were. */
  lemma RunLeavesOneHolder(nodes: Nodes, fqdn: string, address: string, moves: bool, newId: Id, refused: set<Id>, nodes': Nodes)
    requires RunTo(nodes, fqdn, address, moves, newId, refused, nodes') && newId !in nodes
    ensures Holders(nodes', fqdn) != {} && Extras(nodes', fqdn) <= refused
    ensures forall id :: id in nodes && nodes[id].fqdn != Some(fqdn) && nodes[id].address != address ==>
              id in nodes' && nodes'[id] == nodes[id]
    ensures forall id :: id in nodes && !nodes[id].marked ==> id in nodes'
  {
    var mid :| Ensured(nodes, fqdn, address, moves, newId, refused, mid) && nodes' == mid - (Extras(mid, fqdn) - refused);
    EnsuredHolds(nodes, fqdn, address, moves, newId, refused, mid);
    LowestExists(Holders(mid, fqdn));
    var low :| IsLowest(Holders(mid, fqdn), low);
    assert low in Holders(nodes', fqdn) && Holders(nodes', fqdn) <= Holders(mid, fqdn);
    assert IsLowest(Holders(nodes', fqdn), low);
  }

  lemma EnsuredHolds(nodes: Nodes, fqdn: string, address: string, moves: bool, newId: Id, refused: set<Id>, mid: Nodes)
    requires Ensured(nodes, fqdn, address, moves, newId, refused, mid) && newId !in nodes
    ensures Holders(mid, fqdn) != {}
    ensures forall id :: id in nodes && nodes[id].fqdn != Some(fqdn) && nodes[id].address != address ==>
              id in mid && mid[id] == nodes[id]
    ensures forall id :: id in nodes && !nodes[id].marked ==> id in mid && !mid[id].marked
  {
    if Holders(nodes, fqdn) != {} && (!moves || HoldersAt(nodes, fqdn, address) != {}) {
    } else {
      var base := if Holders(nodes, fqdn) != {} then Withdrawn(nodes, fqdn, refused) else nodes;
      PlacedHolds(base, fqdn, address, newId, mid);
      assert HoldersAt(mid, fqdn, address) <= Holders(mid, fqdn);
    }
  }

  /** Whether the run ends with the name at the address it asked for: it does when it had to
      place the name, and when it found it there already, unless every holder there is a
      marked duplicate of a lower one elsewhere and can be deleted. */
  predicate EndsAtAddress(nodes: Nodes, fqdn: string, address: string, refused: set<Id>) {
    HoldersAt(nodes, fqdn, address) != {} ==>
      exists id :: id in HoldersAt(nodes, fqdn, address) && (!nodes[id].marked || IsLowest(Holders(nodes, fqdn), id) || id in refused)
  }

  /** A pinned application's name ends at its pinned address exactly in those cases. */
  lemma PinnedNameEndsAtAddress(nodes: Nodes, fqdn: string, address: string, newId: Id, refused: set<Id>, nodes': Nodes)
    requires RunTo(nodes, fqdn, address, true, newId, refused, nodes') && newId !in nodes
    ensures HoldersAt(nodes', fqdn, address) != {} <==> EndsAtAddress(nodes, fqdn, address, refused)
  {
    var mid :| Ensured(nodes, fqdn, address, true, newId, refused, mid) && nodes' == mid - (Extras(mid, fqdn) - refused);
    if HoldersAt(nodes, fqdn, address) != {} {
      assert mid == nodes;
      if EndsAtAddress(nodes, fqdn, address, refused) {
        var id :| id in HoldersAt(nodes, fqdn, address) && (!nodes[id].marked || IsLowest(Holders(nodes, fqdn), id) || id in refused);
        assert id in HoldersAt(nodes', fqdn, address);
      }
    } else {
      PlacedEndsAtAddress(nodes, fqdn, address, newId, refused, mid);
    }
  }

  /** A name that had to be placed at the address ends there. */
  lemma PlacedEndsAtAddress(nodes: Nodes, fqdn: string, address: string, newId: Id, refused: set<Id>, mid: Nodes)
    requires Ensured(nodes, fqdn, address, true, newId, refused, mid) && newId !in nodes
    requires HoldersAt(nodes, fqdn, address) == {}
    ensures HoldersAt(mid - (Extras(mid, fqdn) - refused), fqdn, address) != {}
  {
    var base := if Holders(nodes, fqdn) != {} then Withdrawn(nodes, fqdn, refused) else nodes;
    assert Holders(base, fqdn) == {};
    PlacedHolds(base, fqdn, address, newId, mid);
    LowestExists(Holders(mid, fqdn));
    var low :| IsLowest(Holders(mid, fqdn), low);
    assert low in HoldersAt(mid - (Extras(mid, fqdn) - refused), fqdn, address);
  }

  /** While what was refused is still refused, running again changes nothing: an unpinned
      application's second run always, a pinned one's when its first ended at the address. */
  lemma SecondRunChangesNothing(
    nodes: Nodes, fqdn: string, address: string, moves: bool, newId: Id, refused: set<Id>, nodes': Nodes,
    newId': Id, refused': set<Id>, nodes'': Nodes)
    requires RunTo(nodes, fqdn, address, moves, newId, refused, nodes') && newId !in nodes
    requires RunTo(nodes', fqdn, address, moves, newId', refused', nodes'')
    requires refused <= refused'
    requires moves ==> EndsAtAddress(nodes, fqdn, address, refused)
    ensures nodes'' == nodes'
  {
    RunLeavesOneHolder(nodes, fqdn, address, moves, newId, refused, nodes');
    if moves { PinnedNameEndsAtAddress(nodes, fqdn, address, newId, refused, nodes'); }
    assert nodes' - {} == nodes';
  }
}
