/** The prefix allocator of the fabric pool check: first fit over aligned blocks,
    and the greedy carve of several roles out of a Fabric Supernet. */
module FabricPool {
  import opened Prefixes
  import Sorting
  import opened Options

  // --- First fit ----------------------------------------------------------------------

  /** A block of the asked length that lies in one of the supernets. */
  ghost predicate Candidate(supernets: seq<Prefix>, len: nat, c: Prefix)
  {
    c.len == len && exists s :: s in supernets && SubnetOf(c, s)
  }

  ghost predicate Free(used: seq<Prefix>, c: Prefix)
  {
    forall u :: u in used ==> !Overlaps(c, u)
  }

  /** IPv4 before IPv6, then by address. */
  predicate AtOrBefore(b: Prefix, c: Prefix) {
    (b.version == V4 && c.version == V6) || (b.version == c.version && b.addr <= c.addr)
  }

  /** Sound, complete and least: the lowest free candidate of the first family that
      has one, and nothing only when every candidate is taken. */
  ghost predicate FirstFit(supernets: seq<Prefix>, used: seq<Prefix>, len: nat, r: Option<Prefix>)
  {
    match r
    case None =>
      forall c :: Candidate(supernets, len, c) ==> !Free(used, c)
    case Some(b) =>
      && Candidate(supernets, len, b)
      && Free(used, b)
      && forall c :: Candidate(supernets, len, c) && Free(used, c) ==> AtOrBefore(b, c)
  }

  /** `ip_network.__lt__` within one family: by address, then by netmask. */
  predicate Before(p: Prefix, q: Prefix) {
    p.addr < q.addr || (p.addr == q.addr && p.len < q.len)
  }

  method OverlapsAny(child: Prefix, used: seq<Prefix>) returns (taken: bool)
    ensures taken <==> !Free(used, child)
  {
    for i := 0 to |used|
      invariant forall k :: 0 <= k < i ==> !Overlaps(child, used[k])
    {
      if used[i].version == child.version && Overlaps(child, used[i]) {
        return true;
      }
    }
    return false;
  }

  lemma ChildWithin(s: Prefix, len: nat, a: nat, step: nat)
    requires s.len <= len <= Width(s.version) && step == BlockSize(s.version, len)
    requires Multiple(s.addr, step) && Multiple(Size(s), step) && Multiple(a, step) && s.addr <= a < s.addr + Size(s)
    ensures Aligned(Cidr(s.version, a, len)) && SubnetOf(Cidr(s.version, a, len), s)
  {
    EndsInFamily(s);
    SumMultiple(s.addr, Size(s), step);
    MultiplesApart(a, s.addr + Size(s), step);
  }

  /** Between one child and the next there is no other candidate. */
  lemma OnlyChildHere(s: Prefix, len: nat, child: Prefix, step: nat)
    requires s.len <= len <= Width(s.version) && step == BlockSize(s.version, len)
    requires child.version == s.version && child.len == len
    ensures forall c :: Candidate([s], len, c) && child.addr <= c.addr < child.addr + step ==> c == child
  {
    forall c | Candidate([s], len, c) && child.addr <= c.addr < child.addr + step ensures c == child {
      if child.addr < c.addr { MultiplesApart(child.addr, c.addr, step); }
    }
  }

  /** Scans the aligned children of one supernet, lowest first. */
  method FirstFreeChild(s: Prefix, used: seq<Prefix>, len: nat) returns (r: Option<Prefix>)
    requires s.len <= len <= Width(s.version)
    ensures FirstFit([s], used, len, r)
  {
    var step := BlockSize(s.version, len);
    PowMultiple(Width(s.version) - len, Width(s.version) - s.len);
    MultipleTransitive(s.addr, Size(s), step);
    EndsInFamily(s);
    var a := s.addr;
    while a < s.addr + Size(s)
      invariant Multiple(a, step) && s.addr <= a
      invariant forall c :: Candidate([s], len, c) && c.addr < a ==> !Free(used, c)
    {
      ChildWithin(s, len, a, step);
      var child := Cidr(s.version, a, len);
      var taken := OverlapsAny(child, used);
      if !taken {
        assert Candidate([s], len, child);
        return Some(child);
      }
      OnlyChildHere(s, len, child, step);
      SumMultiple(a, step, step);
      a := a + step;
    }
    return None;
  }

  method NextAvailablePrefix(supernets: seq<Prefix>, used: seq<Prefix>, len: nat) returns (r: Option<Prefix>)
    requires forall s :: s in supernets ==> len <= Width(s.version)
    ensures FirstFit(supernets, used, len, r)
  {
    var versions := [V4, V6];
    for v := 0 to 2
      invariant v >= 1 ==> NoneIn(supernets, used, len, V4)
      invariant v >= 2 ==> NoneIn(supernets, used, len, V6)
    {
      r := FirstFitInFamily(OfVersion(supernets, versions[v]), used, len, versions[v]);
      if r.Some? {
        FamilyFitIsFit(supernets, used, len, r.value);
        return;
      }
      NoneInFamily(supernets, used, len, versions[v]);
    }
    NoneInEither(supernets, used, len);
    r := None;
  }

  ghost predicate NoneIn(supernets: seq<Prefix>, used: seq<Prefix>, len: nat, version: Version) {
    forall c :: Candidate(supernets, len, c) && c.version == version ==> !Free(used, c)
  }

  lemma OfVersionCandidates(supernets: seq<Prefix>, len: nat, version: Version)
    ensures forall c :: Candidate(OfVersion(supernets, version), len, c)
                        <==> Candidate(supernets, len, c) && c.version == version
  {
    var group := OfVersion(supernets, version);
    forall c | Candidate(supernets, len, c) && c.version == version ensures Candidate(group, len, c) {
      var s :| s in supernets && SubnetOf(c, s);
      assert s in group;
    }
  }

  lemma NoneInFamily(supernets: seq<Prefix>, used: seq<Prefix>, len: nat, version: Version)
    requires FirstFit(OfVersion(supernets, version), used, len, None)
    ensures NoneIn(supernets, used, len, version)
  {
    OfVersionCandidates(supernets, len, version);
  }

  lemma NoneInEither(supernets: seq<Prefix>, used: seq<Prefix>, len: nat)
    requires NoneIn(supernets, used, len, V4) && NoneIn(supernets, used, len, V6)
    ensures FirstFit(supernets, used, len, None)
  {
  }

  lemma FamilyFitIsFit(supernets: seq<Prefix>, used: seq<Prefix>, len: nat, b: Prefix)
    requires FirstFit(OfVersion(supernets, b.version), used, len, Some(b))
    requires b.version == V6 ==> NoneIn(supernets, used, len, V4)
    ensures FirstFit(supernets, used, len, Some(b))
  {
    OfVersionCandidates(supernets, len, b.version);
  }

  /** The supernets of one family in address order, each scanned in turn. */
  method FirstFitInFamily(group: seq<Prefix>, used: seq<Prefix>, len: nat, ghost version: Version)
    returns (r: Option<Prefix>)
    requires forall s :: s in group ==> s.version == version && len <= Width(version)
    ensures FirstFit(group, used, len, r)
    ensures r.Some? ==> r.value.version == version
  {
    var ordered := Sorting.Sort(group, Before);
    Sorting.SortKeepsElements(group, Before);
    Sorting.SortSorted(group, Before);
    for i := 0 to |ordered|
      invariant NoneUpTo(ordered, i, used, len)
    {
      var s := ordered[i];
      assert s in ordered;
      if len < s.len {
        NoneInShort(s, used, len);
        NoneUpToNext(ordered, i, used, len);
        continue;
      }
      r := FirstFreeChild(s, used, len);
      if r.Some? {
        LeastOverall(group, used, len, ordered, i, r.value);
        return;
      }
      NoneUpToNext(ordered, i, used, len);
    }
    NoneAtAll(group, ordered, used, len);
    r := None;
  }

  lemma NoneAtAll(group: seq<Prefix>, ordered: seq<Prefix>, used: seq<Prefix>, len: nat)
    requires forall s :: s in group ==> s in ordered
    requires NoneUpTo(ordered, |ordered|, used, len)
    ensures FirstFit(group, used, len, None)
  {
    forall c | Candidate(group, len, c) ensures !Free(used, c) {
      var s :| s in group && SubnetOf(c, s);
      var k :| 0 <= k < |ordered| && ordered[k] == s;
      assert Candidate([ordered[k]], len, c);
    }
  }

  lemma NoneInShort(s: Prefix, used: seq<Prefix>, len: nat)
    requires len < s.len
    ensures FirstFit([s], used, len, None)
  {
    forall c | SubnetOf(c, s) ensures s.len <= c.len {
      LongerThanParent(c, s);
    }
  }

  lemma NoneUpToNext(ordered: seq<Prefix>, i: nat, used: seq<Prefix>, len: nat)
    requires i < |ordered| && NoneUpTo(ordered, i, used, len) && FirstFit([ordered[i]], used, len, None)
    ensures NoneUpTo(ordered, i + 1, used, len)
  {
  }

  ghost predicate NoneUpTo(ordered: seq<Prefix>, i: nat, used: seq<Prefix>, len: nat)
    requires i <= |ordered|
  {
    forall c, k :: 0 <= k < i && Candidate([ordered[k]], len, c) ==> !Free(used, c)
  }

  /** `by_version`: the supernets of one family, in the order given. */
  function OfVersion(supernets: seq<Prefix>, version: Version): (r: seq<Prefix>)
    ensures forall s :: s in r <==> s in supernets && s.version == version
  {
    if supernets == [] then []
    else
      var rest := OfVersion(supernets[..|supernets| - 1], version);
      var last := supernets[|supernets| - 1];
      assert forall s :: s in supernets <==> s in supernets[..|supernets| - 1] || s == last;
      if last.version == version then rest + [last] else rest
  }

  lemma LongerThanParent(c: Prefix, s: Prefix)
    requires SubnetOf(c, s)
    ensures s.len <= c.len
  {
    if c.len < s.len {
      PowStrict(Width(s.version) - s.len, Width(c.version) - c.len);
    }
  }

  /** The first hit of the scan is least among all supernets, whether or not they
      overlap: aligned supernets nest or are disjoint, and the outer one sorts first. */
  lemma LeastOverall(supernets: seq<Prefix>, used: seq<Prefix>, len: nat, ordered: seq<Prefix>, i: nat, b: Prefix)
    requires i < |ordered| && Sorting.Sorted(ordered, Before)
    requires forall s :: s in ordered <==> s in supernets
    requires forall s :: s in supernets ==> s.version == b.version
    requires NoneUpTo(ordered, i, used, len)
    requires FirstFit([ordered[i]], used, len, Some(b))
    ensures FirstFit(supernets, used, len, Some(b))
  {
    var s := ordered[i];
    assert s in ordered;
    assert SubnetOf(b, s);
    forall c | Candidate(supernets, len, c) && Free(used, c) ensures AtOrBefore(b, c) {
      var t :| t in supernets && SubnetOf(c, t);
      assert t in ordered;
      var j :| 0 <= j < |ordered| && ordered[j] == t;
      assert Candidate([ordered[j]], len, c);
      assert j >= i;
      if j > i {
        assert !Before(t, s);
        if t.len >= s.len { NestOrDisjoint(t, s); } else { NestOrDisjoint(s, t); }
        if SubnetOf(t, s) {
          assert SubnetOf(c, s);
          assert Candidate([s], len, c);
        }
      }
    }
  }

  /** First fit is a function of its inputs: two answers that meet it are equal. */
  lemma FirstFitUnique(supernets: seq<Prefix>, used: seq<Prefix>, len: nat, r: Option<Prefix>, r': Option<Prefix>)
    requires FirstFit(supernets, used, len, r) && FirstFit(supernets, used, len, r')
    ensures r == r'
  {
    if r.Some? && r'.Some? {
      assert AtOrBefore(r.value, r'.value) && AtOrBefore(r'.value, r.value);
    }
  }

  /** First fit over addresses: the block has the asked length, every address of it is in one
      of the supernets and in no used prefix, and no such block comes before it, IPv4 being
      before IPv6 and lower addresses before higher; or there is no such block. */
  lemma FirstFitByAddress(supernets: seq<Prefix>, used: seq<Prefix>, len: nat, r: Option<Prefix>)
    requires FirstFit(supernets, used, len, r)
    ensures r.None? ==> forall c :: !Serves(supernets, used, len, c)
    ensures r.Some? ==>
              && Serves(supernets, used, len, r.value)
              && forall c :: Serves(supernets, used, len, c) ==>
                   || (r.value.version == V4 && c.version == V6)
                   || (r.value.version == c.version && r.value.addr <= c.addr)
  {
    forall c ensures Serves(supernets, used, len, c) <==> Candidate(supernets, len, c) && Free(used, c) {
      ServesMeans(supernets, used, len, c);
    }
  }

  ghost predicate Serves(supernets: seq<Prefix>, used: seq<Prefix>, len: nat, c: Prefix) {
    && c.len == len
    && (exists s :: s in supernets && forall a :: Holds(c, a) ==> Holds(s, a))
    && (forall u, a :: u in used && Holds(c, a) ==> !Holds(u, a))
  }

  lemma ServesMeans(supernets: seq<Prefix>, used: seq<Prefix>, len: nat, c: Prefix)
    ensures Serves(supernets, used, len, c) <==> Candidate(supernets, len, c) && Free(used, c)
  {
    forall s: Prefix ensures SubnetOf(c, s) <==> forall a :: Holds(c, a) ==> Holds(s, a) { SubnetIffSubset(c, s); }
    forall u: Prefix ensures Overlaps(c, u) <==> exists a :: Holds(c, a) && Holds(u, a) { OverlapsIffShare(c, u); }
  }
}
