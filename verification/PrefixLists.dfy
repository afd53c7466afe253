/** The prefix lists a grant advertises its VIP through. They live under one key of a
    switch's free-form hostvars, which people and other grants write too. */
module PrefixLists {
  import opened Options
  import Sorting

  /** One `sequence_numbers` item; `None` is an absent field. */
  datatype Item = Item(sequence: Option<int>, action: Option<string>)

  /** One prefix list; `None` is an absent field. */
  datatype Entry = Entry(name: Option<string>, items: Option<seq<Item>>)

  /** A hostvars value: the prefix lists, or anything else the key may hold. */
  datatype Value = Lists(entries: seq<Entry>) | Other(raw: string)

  type Hostvars = map<string, Value>

  const PREFIX_LISTS_KEY := "custom_structured_configuration_prefix_lists"

  // --- What one write means ------------------------------------------------------------

  predicate Earlier(x: Item, y: Item) {
    Key(x) < Key(y)
  }

  function Key(x: Item): int {
    if x.sequence.Some? then x.sequence.value else 0
  }

  function ItemsOf(e: Entry): seq<Item> {
    if e.items.Some? then e.items.value else []
  }

  function Without(items: seq<Item>, sequence: int): seq<Item> {
    if items == [] then []
    else if items[0].sequence == Some(sequence) then Without(items[1..], sequence)
    else [items[0]] + Without(items[1..], sequence)
  }

  /** `sorted` by sequence raises when an item carries none. */
  predicate Sortable(items: seq<Item>) {
    forall i :: 0 <= i < |items| ==> items[i].sequence.Some?
  }

  function AddTo(items: seq<Item>, sequence: int, action: string): seq<Item> {
    Sorting.Sort(Without(items, sequence) + [Item(Some(sequence), Some(action))], Earlier)
  }

  /** The first list of that name gains the sequence; without one, a new list does. */
  function AddEntry(entries: seq<Entry>, name: string, sequence: int, action: string): Option<seq<Entry>> {
    if entries == [] then
      Some([Entry(Some(name), Some(AddTo([], sequence, action)))])
    else if entries[0].name == Some(name) then
      var items := ItemsOf(entries[0]);
      if Sortable(Without(items, sequence))
      then Some([entries[0].(items := Some(AddTo(items, sequence, action)))] + entries[1..])
      else None
    else
      var rest := AddEntry(entries[1..], name, sequence, action);
      if rest.Some? then Some([entries[0]] + rest.value) else None
  }

  /** Every list of that name loses the sequence, and an emptied one goes. */
  function RemoveEntry(entries: seq<Entry>, name: string, sequence: int): seq<Entry> {
    if entries == [] then []
    else
      var rest := RemoveEntry(entries[1..], name, sequence);
      if entries[0].name != Some(name) then [entries[0]] + rest
      else
        var items := Without(ItemsOf(entries[0]), sequence);
        if items == [] then rest else [entries[0].(items := Some(items))] + rest
  }

  function Added(h: Hostvars, name: string, sequence: int, action: string): Option<Hostvars> {
    if PREFIX_LISTS_KEY in h && h[PREFIX_LISTS_KEY].Other? then None
    else
      var entries := AddEntry(EntriesOf(h), name, sequence, action);
      if entries.Some? then Some(h[PREFIX_LISTS_KEY := Lists(entries.value)]) else None
  }

  function Removed(h: Hostvars, name: string, sequence: int): Hostvars {
    if PREFIX_LISTS_KEY !in h || h[PREFIX_LISTS_KEY].Other? then h
    else
      var entries := RemoveEntry(EntriesOf(h), name, sequence);
      if entries == [] then h - {PREFIX_LISTS_KEY} else h[PREFIX_LISTS_KEY := Lists(entries)]
  }

  function EntriesOf(h: Hostvars): seq<Entry> {
    if PREFIX_LISTS_KEY in h && h[PREFIX_LISTS_KEY].Lists? then h[PREFIX_LISTS_KEY].entries else []
  }

  // --- The writes as the generator performs them -----------------------------------------

  method AdvertisementEntry(hostvars: Hostvars, prefixList: string, sequence: int, action: string)
    returns (r: Option<Hostvars>)
    ensures r == Added(hostvars, prefixList, sequence, action)
  {
    var merged := hostvars;
    if PREFIX_LISTS_KEY !in merged {
      merged := merged[PREFIX_LISTS_KEY := Lists([])];
    }
    if merged[PREFIX_LISTS_KEY].Other? {
      return None;
    }
    var lists := merged[PREFIX_LISTS_KEY].entries;
    var at := 0;
    while at < |lists| && lists[at].name != Some(prefixList)
      invariant at <= |lists|
      invariant forall k :: 0 <= k < at ==> lists[k].name != Some(prefixList)
    {
      at := at + 1;
    }
    ghost var before := lists;
    if at == |lists| {
      lists := lists + [Entry(Some(prefixList), Some([]))];
    }
    AddEntryThere(before, prefixList, sequence, action, at, lists);
    var sequences := KeepOthers(ItemsOf(lists[at]), sequence);
    if exists i :: 0 <= i < |sequences| && sequences[i].sequence.None? {
      return None;
    }
    sequences := sequences + [Item(Some(sequence), Some(action))];
    lists := lists[at := lists[at].(items := Some(Sorting.Sort(sequences, Earlier)))];
    assert hostvars[PREFIX_LISTS_KEY := Lists(lists)] == merged[PREFIX_LISTS_KEY := Lists(lists)];
    return Some(merged[PREFIX_LISTS_KEY := Lists(lists)]);
  }

  /** The same on the list as it stands once the entry is there. */
  lemma AddEntryThere(before: seq<Entry>, name: string, sequence: int, action: string, at: nat, lists: seq<Entry>)
    requires at <= |before| && forall k :: 0 <= k < at ==> before[k].name != Some(name)
    requires at < |before| ==> before[at].name == Some(name)
    requires lists == if at == |before| then before + [Entry(Some(name), Some([]))] else before
    ensures AddEntry(before, name, sequence, action)
            == if Sortable(Without(ItemsOf(lists[at]), sequence))
               then Some(lists[at := lists[at].(items := Some(AddTo(ItemsOf(lists[at]), sequence, action)))])
               else None
  {
    AddEntryAt(before, name, sequence, action, at);
    if at == |before| {
      var changed := Entry(Some(name), Some(AddTo([], sequence, action)));
      assert lists[at := changed] == before + [changed];
    }
  }

  method KeepOthers(items: seq<Item>, sequence: int) returns (r: seq<Item>)
    ensures r == Without(items, sequence)
  {
    r := [];
    for i := 0 to |items|
      invariant r == Without(items[..i], sequence)
    {
      WithoutSnoc(items[..i], items[i], sequence);
      assert items[..i + 1] == items[..i] + [items[i]];
      if items[i].sequence != Some(sequence) {
        r := r + [items[i]];
      }
    }
    assert items[..|items|] == items;
  }

  method AdvertisementRemoved(hostvars: Hostvars, prefixList: string, sequence: int) returns (merged: Hostvars)
    ensures merged == Removed(hostvars, prefixList, sequence)
  {
    merged := hostvars;
    if PREFIX_LISTS_KEY !in merged || merged[PREFIX_LISTS_KEY].Other? {
      return;
    }
    var snapshot := merged[PREFIX_LISTS_KEY].entries;
    var lists := snapshot;
    // `at` is where the snapshot's current entry sits in the list being edited.
    var at := 0;
    for i := 0 to |snapshot|
      invariant at <= |lists| && lists[at..] == snapshot[i..]
      invariant lists[..at] == RemoveEntry(snapshot[..i], prefixList, sequence)
    {
      var entry := snapshot[i];
      RemoveSnoc(snapshot[..i], entry, prefixList, sequence);
      ScanStep(snapshot, i, lists, at);
      if entry.name != Some(prefixList) {
        at := at + 1;
        continue;
      }
      var left := KeepOthers(ItemsOf(entry), sequence);
      entry := entry.(items := Some(left));
      ScanChange(lists, at, entry);
      lists := lists[at := entry];
      if left == [] {
        RemovedAreKept(snapshot[..i], prefixList, sequence);
        FirstEqualAt(lists, entry, at);
        lists := RemoveFirst(lists, entry);
      } else {
        at := at + 1;
      }
    }
    assert lists == lists[..at] && snapshot[..|snapshot|] == snapshot;
    if lists == [] {
      merged := merged - {PREFIX_LISTS_KEY};
    } else {
      merged := merged[PREFIX_LISTS_KEY := Lists(lists)];
    }
  }

  lemma ScanStep(snapshot: seq<Entry>, i: nat, lists: seq<Entry>, at: nat)
    requires i < |snapshot| && at <= |lists| && lists[at..] == snapshot[i..]
    ensures at < |lists| && lists[at] == snapshot[i] && lists[at + 1..] == snapshot[i + 1..]
    ensures snapshot[..i + 1] == snapshot[..i] + [snapshot[i]] && lists[..at + 1] == lists[..at] + [snapshot[i]]
  {
    assert |lists[at..]| == |snapshot[i..]| && lists[at..][0] == snapshot[i..][0];
    assert lists[at + 1..] == lists[at..][1..] && snapshot[i + 1..] == snapshot[i..][1..];
  }

  lemma ScanChange(lists: seq<Entry>, at: nat, entry: Entry)
    requires at < |lists|
    ensures var changed := lists[at := entry];
            && changed[..at] == lists[..at] && changed[at + 1..] == lists[at + 1..]
            && changed[..at + 1] == lists[..at] + [entry]
            && (lists[..at] + lists[at + 1..])[..at] == lists[..at]
            && (lists[..at] + lists[at + 1..])[at..] == lists[at + 1..]
  {
  }

  /** `list.remove`: the first element equal to the one asked for. */
  function RemoveFirst(xs: seq<Entry>, x: Entry): seq<Entry> {
    if xs == [] then []
    else if xs[0] == x then xs[1..]
    else [xs[0]] + RemoveFirst(xs[1..], x)
  }

  lemma {:induction false} FirstEqualAt(xs: seq<Entry>, x: Entry, at: nat)
    requires at < |xs| && xs[at] == x && x !in xs[..at]
    ensures RemoveFirst(xs, x) == xs[..at] + xs[at + 1..]
  {
    if at > 0 {
      assert xs[0] in xs[..at] && xs[1..][..at - 1] == xs[..at][1..];
      FirstEqualAt(xs[1..], x, at - 1);
    }
  }

  lemma {:induction false} WithoutSnoc(items: seq<Item>, last: Item, sequence: int)
    ensures Without(items + [last], sequence)
            == Without(items, sequence) + (if last.sequence == Some(sequence) then [] else [last])
  {
    if items != [] {
      assert (items + [last])[1..] == items[1..] + [last];
      WithoutSnoc(items[1..], last, sequence);
    }
  }

  lemma {:induction false} RemoveSnoc(entries: seq<Entry>, last: Entry, name: string, sequence: int)
    ensures RemoveEntry(entries + [last], name, sequence)
            == RemoveEntry(entries, name, sequence) + RemoveEntry([last], name, sequence)
  {
    if entries != [] {
      assert (entries + [last])[1..] == entries[1..] + [last];
      RemoveSnoc(entries[1..], last, name, sequence);
    }
  }

  /** No list of that name is left empty behind the scan. */
  lemma {:induction false} RemovedAreKept(entries: seq<Entry>, name: string, sequence: int)
    ensures forall e :: e in RemoveEntry(entries, name, sequence) && e.name == Some(name) ==> e.items != Some([])
  {
    if entries != [] {
      RemovedAreKept(entries[1..], name, sequence);
    }
  }

  lemma {:induction false} AddEntryAt(entries: seq<Entry>, name: string, sequence: int, action: string, at: nat)
    requires at <= |entries| && forall k :: 0 <= k < at ==> entries[k].name != Some(name)
    requires at < |entries| ==> entries[at].name == Some(name)
    ensures at == |entries| ==>
              AddEntry(entries, name, sequence, action)
              == Some(entries + [Entry(Some(name), Some(AddTo([], sequence, action)))])
    ensures at < |entries| ==>
              AddEntry(entries, name, sequence, action)
              == if Sortable(Without(ItemsOf(entries[at]), sequence))
                 then Some(entries[at := entries[at].(items := Some(AddTo(ItemsOf(entries[at]), sequence, action)))])
                 else None
  {
    var created := Entry(Some(name), Some(AddTo([], sequence, action)));
    if entries == [] {
      assert entries + [created] == [created];
    } else if at == 0 {
      var changed := entries[0].(items := Some(AddTo(ItemsOf(entries[0]), sequence, action)));
      assert entries[0 := changed] == [changed] + entries[1..];
    } else {
      AddEntryAt(entries[1..], name, sequence, action, at - 1);
      if at == |entries| {
        assert entries + [created] == [entries[0]] + (entries[1..] + [created]);
      } else {
        var changed := entries[at].(items := Some(AddTo(ItemsOf(entries[at]), sequence, action)));
        assert entries[at := changed] == [entries[0]] + entries[1..][at - 1 := changed];
      }
    }
  }

  // --- The edit in its own words ------------------------------------------------------------------

  /** Advertising raises exactly when the key holds something other than prefix lists, or an
      item of the first list of that name carries no sequence. */
  lemma AddedFailsExactly(h: Hostvars, name: string, sequence: int, action: string)
    ensures Added(h, name, sequence, action).None? <==>
            var key := "custom_structured_configuration_prefix_lists";
            key in h && (h[key].Other? || exists i :: UnsortableFirst(h[key].entries, name, i))
  {
    AddEntryFails(EntriesOf(h), name, sequence, action);
  }

  predicate UnsortableFirst(entries: seq<Entry>, name: string, i: int) {
    && 0 <= i < |entries| && entries[i].name == Some(name) && (forall k :: 0 <= k < i ==> entries[k].name != Some(name))
    && entries[i].items.Some? && exists j :: 0 <= j < |entries[i].items.value| && entries[i].items.value[j].sequence.None?
  }

  lemma {:induction false} AddEntryFails(entries: seq<Entry>, name: string, sequence: int, action: string)
    ensures AddEntry(entries, name, sequence, action).None? <==> exists i :: UnsortableFirst(entries, name, i)
  {
    if entries != [] {
      if entries[0].name == Some(name) {
        var items := ItemsOf(entries[0]);
        WithoutShorter(items, sequence);
        forall x | x in items && x.sequence.None? ensures x in Without(items, sequence) { }
        SortableMeans(items, sequence);
        assert UnsortableFirst(entries, name, 0) <==> !Sortable(items);
        assert forall i :: UnsortableFirst(entries, name, i) ==> i == 0;
      } else {
        AddEntryFails(entries[1..], name, sequence, action);
        forall i ensures UnsortableFirst(entries, name, i) <==> UnsortableFirst(entries[1..], name, i - 1) {
          assert i > 0 && i < |entries| ==> entries[i] == entries[1..][i - 1];
          assert forall k :: 0 < k < |entries| ==> entries[k] == entries[1..][k - 1];
        }
        if i :| UnsortableFirst(entries[1..], name, i) { assert UnsortableFirst(entries, name, i + 1); }
      }
    }
  }

  lemma SortableMeans(items: seq<Item>, sequence: int)
    ensures Sortable(Without(items, sequence)) <==> Sortable(items)
  {
    var kept := Without(items, sequence);
    WithoutShorter(items, sequence);
    if Sortable(items) {
      forall i | 0 <= i < |kept| ensures kept[i].sequence.Some? {
        assert kept[i] in kept;
        var j :| 0 <= j < |items| && items[j] == kept[i];
      }
    }
    if Sortable(kept) {
      forall i | 0 <= i < |items| ensures items[i].sequence.Some? {
        assert items[i] in items;
        assert forall x :: x in kept ==> x.sequence.Some?;
      }
    }
  }

  /** Both edits touch no other key, and what they leave of a well-formed switch is ascending
      by sequence in every list, without an empty list and without an empty key. */
  lemma EditsLeaveOrder(h: Hostvars, name: string, sequence: int, action: string)
    requires WellFormed(h)
    ensures Added(h, name, sequence, action).Some? && Orderly(h, Added(h, name, sequence, action).value)
    ensures Orderly(h, Removed(h, name, sequence))
  {
    AddedMeaning(h, name, sequence, action);
    RemovedMeaning(h, name, sequence);
  }

  predicate Orderly(h: Hostvars, h': Hostvars) {
    var key := "custom_structured_configuration_prefix_lists";
    && h' - {key} == h - {key}
    && (key in h' ==>
          && h'[key].Lists? && h'[key].entries != []
          && forall i :: 0 <= i < |h'[key].entries| ==> Ascends(h'[key].entries[i]))
  }

  predicate Ascends(e: Entry) {
    && e.name.Some? && e.items.Some? && e.items.value != []
    && (forall i :: 0 <= i < |e.items.value| ==> e.items.value[i].sequence.Some?)
    && forall i, j :: 0 <= i < j < |e.items.value| ==> e.items.value[i].sequence.value < e.items.value[j].sequence.value
  }

  /** Where the key holds something else, or is absent, withdrawing changes nothing. */
  lemma RemovedElsewhere(h: Hostvars, name: string, sequence: int)
    requires var key := "custom_structured_configuration_prefix_lists"; key !in h || h[key].Other?
    ensures Removed(h, name, sequence) == h
  {
  }

  // --- Undoing an advertisement ----------------------------------------------------------

  /** The list has something to keep and nothing of this sequence. */
  predicate Keeps(e: Entry, sequence: int) {
    e.items.Some? && e.items.value != [] && Without(e.items.value, sequence) == e.items.value
  }

  predicate AllKeep(entries: seq<Entry>, name: string, sequence: int) {
    forall i :: 0 <= i < |entries| && entries[i].name == Some(name) ==> Keeps(entries[i], sequence)
  }

  /** Every list of that name keeps what it has, and the first one is already sorted. */
  ghost predicate UndoableIn(entries: seq<Entry>, name: string, sequence: int) {
    && AllKeep(entries, name, sequence)
    && forall i :: 0 <= i < |entries| && entries[i].name == Some(name)
                   && (forall k :: 0 <= k < i ==> entries[k].name != Some(name))
                   ==> Sorting.Sorted(ItemsOf(entries[i]), Earlier)
  }

  /** What a caller can look at before writing to know that withdrawal will restore it. */
  ghost predicate Undoable(h: Hostvars, name: string, sequence: int) {
    PREFIX_LISTS_KEY in h ==> EntriesOf(h) != [] && UndoableIn(EntriesOf(h), name, sequence)
  }

  lemma {:induction false} WithoutShorter(items: seq<Item>, sequence: int)
    ensures |Without(items, sequence)| <= |items|
    ensures forall x :: x in Without(items, sequence) <==> x in items && x.sequence != Some(sequence)
    ensures Without(items, sequence) == items <==> forall x :: x in items ==> x.sequence != Some(sequence)
  {
    if items != [] {
      WithoutShorter(items[1..], sequence);
      assert items[0] in items && forall x :: x in items <==> x == items[0] || x in items[1..];
      assert items == [items[0]] + items[1..];
    }
  }

  lemma {:induction false} RemoveShorter(entries: seq<Entry>, name: string, sequence: int)
    ensures |RemoveEntry(entries, name, sequence)| <= |entries|
    ensures RemoveEntry(entries, name, sequence) == entries <==> AllKeep(entries, name, sequence)
  {
    if entries != [] {
      var rest := RemoveEntry(entries[1..], name, sequence);
      RemoveShorter(entries[1..], name, sequence);
      assert entries == [entries[0]] + entries[1..];
      assert AllKeep(entries, name, sequence)
             <==> (entries[0].name == Some(name) ==> Keeps(entries[0], sequence)) && AllKeep(entries[1..], name, sequence);
    }
  }

  lemma {:induction false} WithoutInsert(items: seq<Item>, x: Item, sequence: int)
    requires x.sequence == Some(sequence)
    ensures Without(Sorting.Insert(items, x, Earlier), sequence) == Without(items, sequence)
  {
    if items == [] || Earlier(x, items[0]) {
      assert ([x] + items)[1..] == items;
    } else {
      WithoutInsert(items[1..], x, sequence);
    }
  }

  /** What removal leaves of a list that was just added to: the others, sorted. */
  lemma WithoutAdded(items: seq<Item>, sequence: int, action: string)
    ensures Without(AddTo(items, sequence, action), sequence) == Sorting.Sort(Without(items, sequence), Earlier)
  {
    var others, x := Without(items, sequence), Item(Some(sequence), Some(action));
    assert (others + [x])[..|others|] == others;
    WithoutInsert(Sorting.Sort(others, Earlier), x, sequence);
    Sorting.SortKeepsElements(others, Earlier);
    WithoutShorter(items, sequence);
    WithoutShorter(Sorting.Sort(others, Earlier), sequence);
  }

  lemma ListRestored(items: seq<Item>, sequence: int)
    ensures Sorting.Sort(Without(items, sequence), Earlier) == items
            <==> Without(items, sequence) == items && Sorting.Sorted(items, Earlier)
  {
    var others := Without(items, sequence);
    Sorting.SortKeepsElements(others, Earlier);
    WithoutShorter(items, sequence);
    Sorting.SortFixesSorted(others, Earlier);
    if Sorting.Sort(others, Earlier) == items {
      assert forall x :: x in items ==> x in others;
    }
  }

  lemma {:induction false} EntriesRestored(entries: seq<Entry>, name: string, sequence: int, action: string)
    requires AddEntry(entries, name, sequence, action).Some?
    ensures RemoveEntry(AddEntry(entries, name, sequence, action).value, name, sequence) == entries
            <==> UndoableIn(entries, name, sequence)
  {
    var added := AddEntry(entries, name, sequence, action).value;
    if entries == [] {
      WithoutAdded([], sequence, action);
    } else if entries[0].name == Some(name) {
      var items := ItemsOf(entries[0]);
      WithoutAdded(items, sequence, action);
      ListRestored(items, sequence);
      RemoveShorter(entries[1..], name, sequence);
      assert added[1..] == entries[1..] && entries == [entries[0]] + entries[1..];
      FirstListDecides(entries, name, sequence);
    } else {
      EntriesRestored(entries[1..], name, sequence, action);
      assert added[1..] == AddEntry(entries[1..], name, sequence, action).value;
      assert entries == [entries[0]] + entries[1..];
      OtherListAside(entries, name, sequence);
    }
  }

  lemma FirstListDecides(entries: seq<Entry>, name: string, sequence: int)
    requires entries != [] && entries[0].name == Some(name)
    ensures UndoableIn(entries, name, sequence)
            <==> Keeps(entries[0], sequence) && Sorting.Sorted(ItemsOf(entries[0]), Earlier) && AllKeep(entries[1..], name, sequence)
  {
    assert AllKeep(entries, name, sequence) <==> Keeps(entries[0], sequence) && AllKeep(entries[1..], name, sequence) by {
      assert forall i :: 1 <= i < |entries| ==> entries[i] == entries[1..][i - 1];
    }
  }

  lemma OtherListAside(entries: seq<Entry>, name: string, sequence: int)
    requires entries != [] && entries[0].name != Some(name)
    ensures UndoableIn(entries, name, sequence) <==> UndoableIn(entries[1..], name, sequence)
  {
    assert forall i :: 1 <= i < |entries| ==> entries[i] == entries[1..][i - 1];
    var rest := entries[1..];
    assert forall i :: 0 <= i < |rest| ==> rest[i] == entries[i + 1];
  }

  /** Withdrawing right after advertising restores the hostvars exactly when they were
      undoable: also when the list, or the whole key, had to be created. */
  lemma RemovalUndoesExactly(h: Hostvars, name: string, sequence: int, action: string)
    requires Added(h, name, sequence, action).Some?
    ensures Removed(Added(h, name, sequence, action).value, name, sequence) == h <==> Undoable(h, name, sequence)
  {
    var added := AddEntry(EntriesOf(h), name, sequence, action).value;
    EntriesRestored(EntriesOf(h), name, sequence, action);
    KeyRestored(h, added, RemoveEntry(added, name, sequence));
  }

  /** What is left of the key once `back` is what is left of the lists. */
  lemma KeyRestored(h: Hostvars, added: seq<Entry>, back: seq<Entry>)
    requires PREFIX_LISTS_KEY in h ==> h[PREFIX_LISTS_KEY].Lists?
    ensures var h' := h[PREFIX_LISTS_KEY := Lists(added)];
            (if back == [] then h' - {PREFIX_LISTS_KEY} else h'[PREFIX_LISTS_KEY := Lists(back)]) == h
            <==> back == EntriesOf(h) && (PREFIX_LISTS_KEY in h <==> back != [])
  {
    var h' := h[PREFIX_LISTS_KEY := Lists(added)];
    if PREFIX_LISTS_KEY !in h {
      assert h' - {PREFIX_LISTS_KEY} == h;
    } else if back == EntriesOf(h) && back != [] {
      assert h'[PREFIX_LISTS_KEY := Lists(back)] == h;
    }
  }

  // --- Runs of advertisements and withdrawals ----------------------------------------------

  predicate Increasing(items: seq<Item>) {
    && Sortable(items)
    && forall i, j :: 0 <= i < j < |items| ==> Key(items[i]) < Key(items[j])
  }

  /** Hostvars as the generator keeps them: named, distinct, non-empty prefix lists,
      each sorted with unique sequences. */
  predicate WellFormed(h: Hostvars) {
    PREFIX_LISTS_KEY in h ==> h[PREFIX_LISTS_KEY].Lists? && EntriesOf(h) != [] && WellFormedEntries(EntriesOf(h))
  }

  predicate WellFormedEntries(entries: seq<Entry>) {
    && (forall i :: 0 <= i < |entries| ==>
          entries[i].name.Some? && ItemsOf(entries[i]) != [] && Increasing(ItemsOf(entries[i])))
    && (forall i, j :: 0 <= i < j < |entries| ==> entries[i].name != entries[j].name)
  }

  /** What the switch does with one sequence of one list. */
  function Lookup(h: Hostvars, name: string, sequence: int): Option<string> {
    LookupEntry(EntriesOf(h), name, sequence)
  }

  function LookupEntry(entries: seq<Entry>, name: string, sequence: int): Option<string> {
    if entries == [] then None
    else if entries[0].name == Some(name) then LookupItem(ItemsOf(entries[0]), sequence)
    else LookupEntry(entries[1..], name, sequence)
  }

  function LookupItem(items: seq<Item>, sequence: int): Option<string> {
    if items == [] then None
    else if items[0].sequence == Some(sequence) then items[0].action
    else LookupItem(items[1..], sequence)
  }

  lemma {:induction false} WithoutIncreasing(items: seq<Item>, sequence: int)
    requires Increasing(items)
    ensures Increasing(Without(items, sequence))
    ensures forall t :: LookupItem(Without(items, sequence), t) == if t == sequence then None else LookupItem(items, t)
  {
    if items != [] {
      WithoutIncreasing(items[1..], sequence);
      WithoutShorter(items[1..], sequence);
      if items[0].sequence == Some(sequence) {
        assert forall x :: x in items[1..] ==> x.sequence != Some(sequence);
      } else {
        IncreasingCons(items[0], Without(items[1..], sequence));
        assert ([items[0]] + Without(items[1..], sequence))[1..] == Without(items[1..], sequence);
      }
    }
  }

  lemma IncreasingCons(head: Item, items: seq<Item>)
    requires Increasing(items) && head.sequence.Some? && forall x :: x in items ==> Key(head) < Key(x)
    ensures Increasing([head] + items)
  {
  }

  lemma {:induction false} InsertIncreasing(items: seq<Item>, x: Item)
    requires Increasing(items) && x.sequence.Some? && forall y :: y in items ==> y.sequence != x.sequence
    ensures Increasing(Sorting.Insert(items, x, Earlier))
    ensures forall y :: y in Sorting.Insert(items, x, Earlier) ==> y == x || y in items
  {
    if items == [] {
    } else if Earlier(x, items[0]) {
      IncreasingCons(x, items);
    } else {
      assert items[0] in items;
      InsertIncreasing(items[1..], x);
      IncreasingCons(items[0], Sorting.Insert(items[1..], x, Earlier));
    }
  }

  lemma {:induction false} LookupInserted(items: seq<Item>, x: Item, t: int)
    requires x.sequence.Some? && forall y :: y in items ==> y.sequence != x.sequence
    ensures LookupItem(Sorting.Insert(items, x, Earlier), t)
            == if Some(t) == x.sequence then x.action else LookupItem(items, t)
  {
    if items == [] || Earlier(x, items[0]) {
      assert ([x] + items)[1..] == items;
    } else {
      assert items[0] in items;
      LookupInserted(items[1..], x, t);
    }
  }

  lemma AddToMeaning(items: seq<Item>, sequence: int, action: string)
    requires Increasing(items)
    ensures Sortable(Without(items, sequence)) && Increasing(AddTo(items, sequence, action))
    ensures AddTo(items, sequence, action) != []
    ensures forall t :: LookupItem(AddTo(items, sequence, action), t)
                        == if t == sequence then Some(action) else LookupItem(items, t)
  {
    var others, x := Without(items, sequence), Item(Some(sequence), Some(action));
    WithoutIncreasing(items, sequence);
    WithoutShorter(items, sequence);
    assert (others + [x])[..|others|] == others;
    Sorting.SortFixesSorted(others, Earlier);
    InsertIncreasing(others, x);
    forall t { LookupInserted(others, x, t); }
  }

  lemma WellFormedTail(entries: seq<Entry>)
    requires WellFormedEntries(entries) && entries != []
    ensures WellFormedEntries(entries[1..])
    ensures forall e :: e in entries[1..] ==> e.name != entries[0].name
  {
  }

  lemma WellFormedCons(head: Entry, entries: seq<Entry>)
    requires WellFormedEntries(entries)
    requires head.name.Some? && ItemsOf(head) != [] && Increasing(ItemsOf(head))
    requires forall e :: e in entries ==> e.name != head.name
    ensures WellFormedEntries([head] + entries)
  {
  }

  lemma {:induction false} AddEntryWellFormed(entries: seq<Entry>, name: string, sequence: int, action: string)
    requires WellFormedEntries(entries)
    ensures var r := AddEntry(entries, name, sequence, action);
            && r.Some? && WellFormedEntries(r.value) && r.value != []
            && (forall e :: e in r.value ==> e.name == Some(name) || e in entries)
  {
    if entries == [] {
      AddToMeaning([], sequence, action);
    } else {
      WellFormedTail(entries);
      if entries[0].name == Some(name) {
        AddToMeaning(ItemsOf(entries[0]), sequence, action);
        WellFormedCons(entries[0].(items := Some(AddTo(ItemsOf(entries[0]), sequence, action))), entries[1..]);
      } else {
        AddEntryWellFormed(entries[1..], name, sequence, action);
        WellFormedCons(entries[0], AddEntry(entries[1..], name, sequence, action).value);
      }
    }
  }

  lemma {:induction false} LookupAddedEntry(entries: seq<Entry>, name: string, sequence: int, action: string, n: string, t: int)
    requires WellFormedEntries(entries) && AddEntry(entries, name, sequence, action).Some?
    ensures LookupEntry(AddEntry(entries, name, sequence, action).value, n, t)
            == if n == name && t == sequence then Some(action) else LookupEntry(entries, n, t)
  {
    if entries == [] {
      AddToMeaning([], sequence, action);
    } else if entries[0].name == Some(name) {
      AddToMeaning(ItemsOf(entries[0]), sequence, action);
      assert AddEntry(entries, name, sequence, action).value[1..] == entries[1..];
    } else {
      LookupAddedEntry(entries[1..], name, sequence, action, n, t);
      assert AddEntry(entries, name, sequence, action).value[1..] == AddEntry(entries[1..], name, sequence, action).value;
    }
  }

  lemma {:induction false} RemoveEntryMeaning(entries: seq<Entry>, name: string, sequence: int)
    requires WellFormedEntries(entries)
    ensures var r := RemoveEntry(entries, name, sequence);
            && WellFormedEntries(r)
            && (forall e :: e in r ==> exists e' :: e' in entries && e'.name == e.name)
            && (forall n, t :: LookupEntry(r, n, t)
                               == if n == name && t == sequence then None else LookupEntry(entries, n, t))
  {
    if entries != [] {
      WellFormedTail(entries);
      RemoveEntryMeaning(entries[1..], name, sequence);
      var rest := RemoveEntry(entries[1..], name, sequence);
      if entries[0].name != Some(name) {
        WellFormedCons(entries[0], rest);
        assert ([entries[0]] + rest)[1..] == rest;
      } else {
        var items := Without(ItemsOf(entries[0]), sequence);
        WithoutIncreasing(ItemsOf(entries[0]), sequence);
        NotListed(rest, name);
        if items != [] {
          var head := entries[0].(items := Some(items));
          WellFormedCons(head, rest);
          assert ([head] + rest)[1..] == rest;
        }
      }
    }
  }

  lemma {:induction false} NotListed(entries: seq<Entry>, name: string)
    requires forall e :: e in entries ==> e.name != Some(name)
    ensures forall t :: LookupEntry(entries, name, t) == None
  {
    if entries != [] {
      assert entries[0] in entries;
      NotListed(entries[1..], name);
    }
  }

  /** One advertisement: one lookup changes, every other key is untouched. */
  lemma AddedMeaning(h: Hostvars, name: string, sequence: int, action: string)
    requires WellFormed(h)
    ensures var r := Added(h, name, sequence, action);
            && r.Some? && WellFormed(r.value) && r.value - {PREFIX_LISTS_KEY} == h - {PREFIX_LISTS_KEY}
            && (forall n, t :: Lookup(r.value, n, t)
                               == if n == name && t == sequence then Some(action) else Lookup(h, n, t))
  {
    AddEntryWellFormed(EntriesOf(h), name, sequence, action);
    forall n, t { LookupAddedEntry(EntriesOf(h), name, sequence, action, n, t); }
  }

  lemma RemovedMeaning(h: Hostvars, name: string, sequence: int)
    requires WellFormed(h)
    ensures var r := Removed(h, name, sequence);
            && WellFormed(r) && r - {PREFIX_LISTS_KEY} == h - {PREFIX_LISTS_KEY}
            && (forall n, t :: Lookup(r, n, t) == if n == name && t == sequence then None else Lookup(h, n, t))
  {
    RemoveEntryMeaning(EntriesOf(h), name, sequence);
  }

  /** A grant's place in a switch's lists. */
  datatype Slot = Slot(list: string, sequence: int)

  datatype Step = Advertise(slot: Slot, action: string) | Withdraw(slot: Slot)

  function StepOn(h: Hostvars, step: Step): Option<Hostvars> {
    match step
    case Advertise(slot, action) => Added(h, slot.list, slot.sequence, action)
    case Withdraw(slot) => Some(Removed(h, slot.list, slot.sequence))
  }

  /** The switch's hostvars after a run of steps, or `None` when a write raised. */
  function After(h: Hostvars, steps: seq<Step>): Option<Hostvars> {
    if steps == [] then Some(h)
    else
      var before := After(h, steps[..|steps| - 1]);
      if before.None? then None else StepOn(before.value, steps[|steps| - 1])
  }

  /** What a grant last asked of its slot. */
  function LastOn(steps: seq<Step>, slot: Slot): Option<Step> {
    if steps == [] then None
    else if steps[|steps| - 1].slot == slot then Some(steps[|steps| - 1])
    else LastOn(steps[..|steps| - 1], slot)
  }

  /** Over any run the switch does with each slot what its own last step asked, and with
      every slot nobody stepped on what the baseline asked. Grants whose slots differ
      therefore never disturb each other, whatever the order of their steps. */
  lemma {:induction false} RunIsBaselinePlusLive(h: Hostvars, steps: seq<Step>)
    requires WellFormed(h)
    ensures var r := After(h, steps);
            && r.Some? && WellFormed(r.value) && r.value - {PREFIX_LISTS_KEY} == h - {PREFIX_LISTS_KEY}
            && (forall n, t :: Lookup(r.value, n, t) ==
                               match LastOn(steps, Slot(n, t))
                               case None => Lookup(h, n, t)
                               case Some(Advertise(_, action)) => Some(action)
                               case Some(Withdraw(_)) => None)
  {
    if steps != [] {
      var n := |steps| - 1;
      RunIsBaselinePlusLive(h, steps[..n]);
      var before := After(h, steps[..n]).value;
      match steps[n]
      case Advertise(slot, action) => AddedMeaning(before, slot.list, slot.sequence, action);
      case Withdraw(slot) => RemovedMeaning(before, slot.list, slot.sequence);
    }
  }

  /** Two runs in which every slot was last asked the same leave the same switch. */
  lemma RunOrderIsIrrelevant(h: Hostvars, steps: seq<Step>, steps': seq<Step>)
    requires WellFormed(h) && forall slot :: LastOn(steps, slot) == LastOn(steps', slot)
    ensures After(h, steps).Some? && After(h, steps').Some?
    ensures forall n, t :: Lookup(After(h, steps).value, n, t) == Lookup(After(h, steps').value, n, t)
  {
    RunIsBaselinePlusLive(h, steps);
    RunIsBaselinePlusLive(h, steps');
  }

  // --- The switch ---------------------------------------------------------------------------

  /** `DcimFabricSwitch.avd_custom_hostvars`: null when there is nothing to carry. */
  class Switch {
    var customHostvars: Option<Hostvars>

    constructor (hostvars: Option<Hostvars>)
      ensures customHostvars == hostvars
    {
      customHostvars := hostvars;
    }

    function Current(): Hostvars
      reads this
    {
      if customHostvars.Some? then customHostvars.value else map[]
    }

    /** `_advertise`: a write that raises leaves the switch alone. */
    method Advertise(slot: Slot, vipAddress: string) returns (ok: bool)
      modifies this
      ensures ok <==> Added(old(Current()), slot.list, slot.sequence, "permit " + vipAddress).Some?
      ensures ok ==> Some(Current()) == StepOn(old(Current()), Step.Advertise(slot, "permit " + vipAddress))
      ensures if ok then customHostvars.Some? && customHostvars != Some(map[]) else customHostvars == old(customHostvars)
    {
      var merged := AdvertisementEntry(Current(), slot.list, slot.sequence, "permit " + vipAddress);
      if merged.None? {
        return false;
      }
      assert PREFIX_LISTS_KEY in merged.value;
      WriteHostvars(merged.value);
      return true;
    }

    /** `_withdraw_advertisement`: nothing is written when nothing changed. */
    method Withdraw(slot: Slot)
      modifies this
      ensures Some(Current()) == StepOn(old(Current()), Step.Withdraw(slot))
      ensures if Current() == old(Current()) then customHostvars == old(customHostvars) else customHostvars != Some(map[])
    {
      var merged := AdvertisementRemoved(Current(), slot.list, slot.sequence);
      if merged == Current() {
        return;
      }
      WriteHostvars(merged);
    }

    /** Empty hostvars go back as null. */
    method WriteHostvars(hostvars: Hostvars)
      modifies this
      ensures Current() == hostvars && customHostvars != Some(map[])
    {
      customHostvars := if hostvars == map[] then None else Some(hostvars);
    }
  }
}
