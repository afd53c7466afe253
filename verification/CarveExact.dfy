/** When the greedy carve serves everything, on any supernets and beside any used prefixes:
    always when it can be done at all for blocks of one size, and for two sizes exactly
    when the lowest places of the first leave enough room for the second. */
module CarveExact {
  import opened Prefixes
  import opened Options
  import opened FabricPool
  import opened Carve

  ghost predicate FreeCandidate(supernets: seq<Prefix>, used: seq<Prefix>, len: nat, c: Prefix) {
    Candidate(supernets, len, c) && Free(used, c)
  }

  ghost predicate Distinct(cs: seq<Prefix>) {
    forall i, j :: 0 <= i < j < |cs| ==> cs[i] != cs[j]
  }

  /** There are at least `n` free places for a block of this length. */
  ghost predicate Enough(supernets: seq<Prefix>, used: seq<Prefix>, len: nat, n: nat) {
    exists cs :: |cs| == n && Distinct(cs) && AllFree(supernets, used, len, cs)
  }

  ghost predicate AllFree(supernets: seq<Prefix>, used: seq<Prefix>, len: nat, cs: seq<Prefix>) {
    forall i :: 0 <= i < |cs| ==> FreeCandidate(supernets, used, len, cs[i])
  }

  /** `first` are the lowest free places, in order. */
  ghost predicate Lowest(supernets: seq<Prefix>, used: seq<Prefix>, len: nat, first: seq<Prefix>) {
    && Distinct(first)
    && AllFree(supernets, used, len, first)
    && (forall i, j :: 0 <= i < j < |first| ==> AtOrBefore(first[i], first[j]))
    && (forall c, i :: FreeCandidate(supernets, used, len, c) && c !in first && 0 <= i < |first| ==> AtOrBefore(first[i], c))
  }

  /** Two aligned blocks of one length overlap only when they are the same. */
  lemma SameSizeOverlap(p: Prefix, q: Prefix)
    requires p.len == q.len
    ensures Overlaps(p, q) <==> p == q
  {
    OverlapsIsRange(p, q);
    if p.version == q.version {
      if p.addr < q.addr { MultiplesApart(p.addr, q.addr, Size(p)); }
      if q.addr < p.addr { MultiplesApart(q.addr, p.addr, Size(p)); }
    }
  }

  lemma FreeBeside(used: seq<Prefix>, more: seq<Prefix>, c: Prefix)
    requires forall i :: 0 <= i < |more| ==> more[i].len == c.len
    ensures Free(used + more, c) <==> Free(used, c) && c !in more
  {
    forall u | u in more ensures Overlaps(c, u) <==> c == u {
      SameSizeOverlap(c, u);
    }
    assert c in more ==> c in used + more && Overlaps(c, c);
    if Free(used + more, c) {
      forall u | u in used ensures !Overlaps(c, u) {
        assert u in used + more;
      }
    }
  }

  // --- One size -------------------------------------------------------------------------------

  lemma OneOfEqualCarve(supernets: seq<Prefix>, used: seq<Prefix>, len: nat, lens: seq<nat>, out: seq<Prefix>, i: nat)
    requires Greedy(supernets, used, lens, out) && i < |out|
    requires forall k :: 0 <= k < |lens| ==> lens[k] == len
    ensures FreeCandidate(supernets, used, len, out[i]) && out[i] !in out[..i]
    ensures forall c :: FreeCandidate(supernets, used, len, c) && c !in out[..i] ==> AtOrBefore(out[i], c)
  {
    forall k | 0 <= k < i ensures out[..i][k].len == len {
      assert FirstFit(supernets, used + out[..k], lens[k], Some(out[k]));
    }
    assert FirstFit(supernets, used + out[..i], lens[i], Some(out[i]));
    forall c | Candidate(supernets, len, c) ensures Free(used + out[..i], c) <==> Free(used, c) && c !in out[..i] {
      FreeBeside(used, out[..i], c);
    }
  }

  /** Blocks of one size go to the lowest free places. */
  lemma EqualCarveIsLowest(supernets: seq<Prefix>, used: seq<Prefix>, len: nat, lens: seq<nat>, out: seq<Prefix>)
    requires Greedy(supernets, used, lens, out)
    requires forall k :: 0 <= k < |lens| ==> lens[k] == len
    ensures Lowest(supernets, used, len, out)
  {
    forall i | 0 <= i < |out|
      ensures FreeCandidate(supernets, used, len, out[i]) && out[i] !in out[..i]
      ensures forall c :: FreeCandidate(supernets, used, len, c) && c !in out[..i] ==> AtOrBefore(out[i], c)
    {
      OneOfEqualCarve(supernets, used, len, lens, out, i);
    }
    forall i, j | 0 <= i < j < |out| ensures out[i] != out[j] && AtOrBefore(out[i], out[j]) {
      assert out[j] !in out[..j] && out[..j][i] == out[i];
      forall k | 0 <= k < i ensures out[j] != out[k] {
        assert out[..j][k] == out[k];
      }
      assert out[j] !in out[..i];
    }
    forall c, i | FreeCandidate(supernets, used, len, c) && c !in out && 0 <= i < |out| ensures AtOrBefore(out[i], c) {
      assert c !in out[..i];
    }
  }

  function Elements(cs: seq<Prefix>): set<Prefix> {
    set c | c in cs
  }

  lemma {:induction false} ElementsCount(cs: seq<Prefix>)
    ensures |Elements(cs)| <= |cs|
    ensures Distinct(cs) ==> |Elements(cs)| == |cs|
  {
    if cs != [] {
      var n := |cs| - 1;
      ElementsCount(cs[..n]);
      assert cs == cs[..n] + [cs[n]];
      assert Elements(cs) == Elements(cs[..n]) + {cs[n]};
      if Distinct(cs) {
        assert cs[n] !in cs[..n];
      }
    }
  }

  lemma {:induction false} SubsetCount(a: set<Prefix>, b: set<Prefix>)
    requires a <= b
    ensures |a| <= |b|
  {
    assert b == a + (b - a);
  }

  /** On any supernets and beside any used prefixes, a carve of one size serves all
      exactly when there are enough free places. */
  lemma EqualCarveServesExactly(supernets: seq<Prefix>, used: seq<Prefix>, len: nat, lens: seq<nat>, out: seq<Prefix>)
    requires Finished(supernets, used, lens, out)
    requires forall k :: 0 <= k < |lens| ==> lens[k] == len
    ensures |out| == |lens| <==> Enough(supernets, used, len, |lens|)
  {
    EqualCarveIsLowest(supernets, used, len, lens, out);
    forall cs | |cs| == |lens| && Distinct(cs) && AllFree(supernets, used, len, cs) ensures |out| == |lens| {
      if |out| < |lens| {
        forall c | c in cs ensures c in out {
          assert FreeCandidate(supernets, used, len, c);
          FreeBeside(used, out, c);
        }
        ElementsCount(cs);
        ElementsCount(out);
        SubsetCount(Elements(cs), Elements(out));
      }
    }
  }

  /** ... and therefore exactly when any disjoint aligned placement exists at all. */
  lemma EqualCarveIsComplete(supernets: seq<Prefix>, used: seq<Prefix>, len: nat, lens: seq<nat>, out: seq<Prefix>)
    requires Finished(supernets, used, lens, out)
    requires forall k :: 0 <= k < |lens| ==> lens[k] == len
    ensures |out| == |lens| <==> exists other :: Placement(supernets, used, lens, other)
  {
    EqualCarveServesExactly(supernets, used, len, lens, out);
    if |out| == |lens| {
      GreedyIsPlacement(supernets, used, lens, out);
      assert lens[..|out|] == lens;
    }
    forall other | Placement(supernets, used, lens, other) ensures |out| == |lens| {
      PlacedIsEnough(supernets, used, len, lens, other);
    }
  }

  lemma PlacedIsEnough(supernets: seq<Prefix>, used: seq<Prefix>, len: nat, lens: seq<nat>, other: seq<Prefix>)
    requires Placement(supernets, used, lens, other)
    requires forall k :: 0 <= k < |lens| ==> lens[k] == len
    ensures Enough(supernets, used, len, |lens|)
  {
    forall i, j | 0 <= i < j < |other| ensures other[i] != other[j] {
      SameSizeOverlap(other[i], other[j]);
    }
    assert AllFree(supernets, used, len, other);
  }

  // --- Two sizes ------------------------------------------------------------------------------

  predicate TwoSizes(lens: seq<nat>, len: nat, a: nat, len': nat, b: nat) {
    && |lens| == a + b
    && (forall k :: 0 <= k < a ==> lens[k] == len)
    && (forall k :: a <= k < a + b ==> lens[k] == len')
  }

  /** The `a` lowest places for the first size leave at least `b` for the second. */
  ghost predicate LeavesRoom(supernets: seq<Prefix>, used: seq<Prefix>, len: nat, a: nat, len': nat, b: nat) {
    exists first :: |first| == a && Lowest(supernets, used, len, first) && Enough(supernets, used + first, len', b)
  }

  lemma {:induction false} LowestAgree(supernets: seq<Prefix>, used: seq<Prefix>, len: nat, first: seq<Prefix>, other: seq<Prefix>, i: nat)
    requires Lowest(supernets, used, len, first) && Lowest(supernets, used, len, other)
    requires |first| == |other| && i < |first|
    ensures first[..i + 1] == other[..i + 1]
  {
    if i > 0 { LowestAgree(supernets, used, len, first, other, i - 1); }
    assert first[..i] == other[..i];
    NotBefore(supernets, used, len, first, other, i);
    NotBefore(supernets, used, len, other, first, i);
    assert first[i] == other[i];
    assert first[..i + 1] == first[..i] + [first[i]] && other[..i + 1] == other[..i] + [other[i]];
  }

  lemma NotBefore(supernets: seq<Prefix>, used: seq<Prefix>, len: nat, first: seq<Prefix>, other: seq<Prefix>, i: nat)
    requires Lowest(supernets, used, len, first) && Lowest(supernets, used, len, other)
    requires |first| == |other| && i < |first| && first[..i] == other[..i]
    ensures AtOrBefore(other[i], first[i]) && first[i].len == len
  {
    var x := first[i];
    assert FreeCandidate(supernets, used, len, x);
    forall j | 0 <= j < i ensures other[j] != x {
      assert first[..i][j] == other[..i][j];
    }
  }

  lemma LowestUnique(supernets: seq<Prefix>, used: seq<Prefix>, len: nat, first: seq<Prefix>, other: seq<Prefix>)
    requires Lowest(supernets, used, len, first) && Lowest(supernets, used, len, other) && |first| == |other|
    ensures first == other
  {
    if first != [] {
      LowestAgree(supernets, used, len, first, other, |first| - 1);
      assert first == first[..|first|] && other == other[..|other|];
    }
  }

  /** The part of a carve after the first `a` blocks is itself a carve. */
  lemma RestFinished(supernets: seq<Prefix>, used: seq<Prefix>, lens: seq<nat>, out: seq<Prefix>, a: nat)
    requires Finished(supernets, used, lens, out) && a <= |out|
    ensures Finished(supernets, used + out[..a], lens[a..], out[a..])
  {
    var rest := out[a..];
    forall i | 0 <= i <= |rest| ensures used + out[..a] + rest[..i] == used + out[..a + i] {
      assert out[..a] + rest[..i] == out[..a + i];
    }
    forall i | 0 <= i < |rest| ensures FirstFit(supernets, used + out[..a] + rest[..i], lens[a..][i], Some(rest[i])) {
      assert FirstFit(supernets, used + out[..a + i], lens[a + i], Some(out[a + i]));
    }
    assert rest[..|rest|] == rest && out[..a + |rest|] == out;
  }

  /** Blocks of two sizes are all served exactly when there are enough places for the
      first, and the lowest of those leave enough for the second. */
  lemma TwoSizesServedExactly(supernets: seq<Prefix>, used: seq<Prefix>, lens: seq<nat>, len: nat, a: nat, len': nat, b: nat, out: seq<Prefix>)
    requires Finished(supernets, used, lens, out) && TwoSizes(lens, len, a, len', b)
    ensures |out| == |lens| <==> LeavesRoom(supernets, used, len, a, len', b)
  {
    RoomIsEnough(supernets, used, len, a, len', b);
    if |out| < a {
      FinishedPrefix(supernets, used, lens, out, a);
      EqualCarveServesExactly(supernets, used, len, lens[..a], out);
    } else {
      SecondSizeServedExactly(supernets, used, lens, len, a, len', b, out);
      if LeavesRoom(supernets, used, len, a, len', b) {
        var first :| |first| == a && Lowest(supernets, used, len, first) && Enough(supernets, used + first, len', b);
        LowestUnique(supernets, used, len, first, out[..a]);
      }
    }
  }

  lemma RoomIsEnough(supernets: seq<Prefix>, used: seq<Prefix>, len: nat, a: nat, len': nat, b: nat)
    ensures LeavesRoom(supernets, used, len, a, len', b) ==> Enough(supernets, used, len, a)
  {
  }

  lemma SecondSizeServedExactly(supernets: seq<Prefix>, used: seq<Prefix>, lens: seq<nat>, len: nat, a: nat, len': nat, b: nat, out: seq<Prefix>)
    requires Finished(supernets, used, lens, out) && TwoSizes(lens, len, a, len', b) && a <= |out|
    ensures Lowest(supernets, used, len, out[..a])
    ensures |out| == |lens| <==> Enough(supernets, used + out[..a], len', b)
  {
    GreedyPrefix(supernets, used, lens, out, a);
    EqualCarveIsLowest(supernets, used, len, lens[..a], out[..a]);
    RestFinished(supernets, used, lens, out, a);
    EqualCarveServesExactly(supernets, used + out[..a], len', lens[a..], out[a..]);
  }

  /** The carve misses a placement exactly when there is one, but the lowest places for
      the first size leave fewer than wanted for the second. */
  lemma PlacementMissedExactly(supernets: seq<Prefix>, used: seq<Prefix>, lens: seq<nat>, len: nat, a: nat, len': nat, b: nat, out: seq<Prefix>)
    requires Finished(supernets, used, lens, out) && TwoSizes(lens, len, a, len', b)
    requires exists other :: Placement(supernets, used, lens, other)
    ensures |out| < |lens| <==>
            exists first :: |first| == a && Lowest(supernets, used, len, first) && !Enough(supernets, used + first, len', b)
  {
    var other :| Placement(supernets, used, lens, other);
    FirstSizeIsServed(supernets, used, lens, len, a, len', b, out, other);
    OnlyLowest(supernets, used, lens, len, a, len', b, out);
  }

  lemma PlacementPrefix(supernets: seq<Prefix>, used: seq<Prefix>, lens: seq<nat>, other: seq<Prefix>, a: nat)
    requires Placement(supernets, used, lens, other) && a <= |lens|
    ensures Placement(supernets, used, lens[..a], other[..a])
  {
  }

  lemma FinishedPrefix(supernets: seq<Prefix>, used: seq<Prefix>, lens: seq<nat>, out: seq<Prefix>, a: nat)
    requires Finished(supernets, used, lens, out) && |out| < a <= |lens|
    ensures Finished(supernets, used, lens[..a], out)
  {
  }

  /** Where a placement exists the carve gets through the first size. */
  lemma FirstSizeIsServed(supernets: seq<Prefix>, used: seq<Prefix>, lens: seq<nat>, len: nat, a: nat, len': nat, b: nat,
                          out: seq<Prefix>, other: seq<Prefix>)
    requires Finished(supernets, used, lens, out) && TwoSizes(lens, len, a, len', b)
    requires Placement(supernets, used, lens, other)
    ensures a <= |out|
  {
    PlacementPrefix(supernets, used, lens, other, a);
    PlacedIsEnough(supernets, used, len, lens[..a], other[..a]);
    if |out| < a {
      FinishedPrefix(supernets, used, lens, out, a);
      EqualCarveServesExactly(supernets, used, len, lens[..a], out);
    }
  }

  lemma OnlyLowest(supernets: seq<Prefix>, used: seq<Prefix>, lens: seq<nat>, len: nat, a: nat, len': nat, b: nat, out: seq<Prefix>)
    requires Finished(supernets, used, lens, out) && TwoSizes(lens, len, a, len', b) && a <= |out|
    ensures |out| < |lens| <==>
            exists first :: |first| == a && Lowest(supernets, used, len, first) && !Enough(supernets, used + first, len', b)
  {
    SecondSizeServedExactly(supernets, used, lens, len, a, len', b, out);
    forall first | |first| == a && Lowest(supernets, used, len, first) ensures first == out[..a] {
      LowestUnique(supernets, used, len, first, out[..a]);
    }
  }
}
