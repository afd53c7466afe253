/** The greedy carve of several roles out of a Fabric Supernet: sound always, and
    complete on one empty supernet when the blocks are asked for smallest first. */
module Carve {
  import opened Prefixes
  import opened Options
  import opened FabricPool

  /** Each block is the first fit beside the used prefixes and the blocks before it. */
  ghost predicate Greedy(supernets: seq<Prefix>, used: seq<Prefix>, lens: seq<nat>, out: seq<Prefix>) {
    && |out| <= |lens|
    && forall i :: 0 <= i < |out| ==> FirstFit(supernets, used + out[..i], lens[i], Some(out[i]))
  }

  /** How a carve ends: every length served, or no room for the next one. */
  ghost predicate Finished(supernets: seq<Prefix>, used: seq<Prefix>, lens: seq<nat>, out: seq<Prefix>) {
    && Greedy(supernets, used, lens, out)
    && (|out| == |lens| || FirstFit(supernets, used + out, lens[|out|], None))
  }

  method CarveLengths(supernets: seq<Prefix>, used: seq<Prefix>, lens: seq<nat>) returns (blocks: seq<Prefix>)
    requires forall s, i :: s in supernets && 0 <= i < |lens| ==> lens[i] <= Width(s.version)
    ensures Finished(supernets, used, lens, blocks)
  {
    blocks := [];
    for i := 0 to |lens|
      invariant |blocks| == i && Greedy(supernets, used, lens, blocks)
    {
      var next := NextAvailablePrefix(supernets, used + blocks, lens[i]);
      if next.None? {
        return;
      }
      GreedyExtend(supernets, used, lens, blocks, next.value);
      blocks := blocks + [next.value];
    }
  }

  lemma GreedyExtend(supernets: seq<Prefix>, used: seq<Prefix>, lens: seq<nat>, out: seq<Prefix>, b: Prefix)
    requires Greedy(supernets, used, lens, out) && |out| < |lens|
    requires FirstFit(supernets, used + out, lens[|out|], Some(b))
    ensures Greedy(supernets, used, lens, out + [b])
  {
    var out' := out + [b];
    forall i | 0 <= i < |out'| ensures FirstFit(supernets, used + out'[..i], lens[i], Some(out'[i])) {
      assert out'[..i] == out[..i];
      assert i == |out| ==> out[..i] == out;
    }
  }

  // --- Soundness --------------------------------------------------------------------

  /** A disjoint, aligned placement of the asked lengths inside the supernets, clear
      of the used prefixes. */
  ghost predicate Placement(supernets: seq<Prefix>, used: seq<Prefix>, lens: seq<nat>, out: seq<Prefix>) {
    && |out| == |lens|
    && (forall i :: 0 <= i < |out| ==> Candidate(supernets, lens[i], out[i]) && Free(used, out[i]))
    && PairwiseDisjoint(out)
  }

  ghost predicate PairwiseDisjoint(out: seq<Prefix>) {
    forall i, j :: 0 <= i < j < |out| ==> !Overlaps(out[i], out[j])
  }

  /** Whatever the supernets and the used prefixes, a carved list is a placement. */
  lemma GreedyIsPlacement(supernets: seq<Prefix>, used: seq<Prefix>, lens: seq<nat>, out: seq<Prefix>)
    requires Greedy(supernets, used, lens, out)
    ensures Placement(supernets, used, lens[..|out|], out)
  {
    forall i | 0 <= i < |out| ensures Free(used, out[i]) {
      assert forall u :: u in used ==> u in used + out[..i];
    }
    forall i, j | 0 <= i < j < |out| ensures !Overlaps(out[i], out[j]) {
      assert FirstFit(supernets, used + out[..j], lens[j], Some(out[j]));
      assert out[..j][i] == out[i];
      assert out[i] in used + out[..j];
      OverlapsIsRange(out[i], out[j]);
    }
  }

  // --- Completeness on one empty supernet ---------------------------------------------

  /** Smallest block first: the lengths never grow. */
  ghost predicate SmallestFirst(lens: seq<nat>) {
    forall i, j :: 0 <= i <= j < |lens| ==> lens[j] <= lens[i]
  }

  ghost function Total(version: Version, lens: seq<nat>): nat
  {
    if lens == [] then 0
    else Total(version, lens[..|lens| - 1]) + BlockSize(version, lens[|lens| - 1])
  }

  /** `x` rounded up to a multiple of `z`. */
  ghost function RoundUp(x: nat, z: nat): (r: nat)
    requires z > 0
    ensures Multiple(r, z) && x <= r < x + z
  {
    if x == 0 then 0 else if x <= z then z else RoundUp(x - z, z) + z
  }

  /** Where the carve stands after these lengths, counted from the supernet's start:
      the next block goes to the next aligned offset. */
  ghost function End(version: Version, lens: seq<nat>): nat
  {
    if lens == [] then 0
    else
      var z := BlockSize(version, lens[|lens| - 1]);
      RoundUp(End(version, lens[..|lens| - 1]), z) + z
  }

  lemma RoundUpLeast(x: nat, z: nat, m: nat)
    requires z > 0 && Multiple(m, z) && m >= x
    ensures m >= RoundUp(x, z)
  {
    if m < RoundUp(x, z) { MultiplesApart(m, RoundUp(x, z), z); }
  }

  /** Rounding to a multiple of a finer grain first changes nothing. */
  lemma RoundUpTwice(x: nat, z: nat, y: nat)
    requires z > 0 && y > 0 && Multiple(y, z)
    ensures RoundUp(RoundUp(x, z), y) == RoundUp(x, y)
  {
    MultipleTransitive(RoundUp(x, y), y, z);
    RoundUpLeast(x, z, RoundUp(x, y));
    RoundUpLeast(RoundUp(x, z), y, RoundUp(x, y));
    RoundUpLeast(x, y, RoundUp(RoundUp(x, z), y));
  }

  lemma SmallestFirstFront(lens: seq<nat>)
    requires lens != [] && SmallestFirst(lens)
    ensures SmallestFirst(lens[..|lens| - 1])
    ensures |lens| > 1 ==> lens[|lens| - 1] <= lens[|lens| - 2] <= lens[0]
  {
  }

  /** What the last length adds, written with its block size. */
  lemma LastLength(version: Version, lens: seq<nat>, y: nat)
    requires lens != [] && y == BlockSize(version, lens[|lens| - 1])
    ensures var front := lens[..|lens| - 1];
            End(version, lens) == RoundUp(End(version, front), y) + y && Total(version, lens) == Total(version, front) + y
  {
  }

  /** The carve wastes nothing but the rounding of its last step. */
  lemma {:induction false} EndIsRoundedTotal(version: Version, lens: seq<nat>)
    requires lens != [] && SmallestFirst(lens) && lens[0] <= Width(version)
    ensures End(version, lens) == RoundUp(Total(version, lens), BlockSize(version, lens[|lens| - 1]))
  {
    var n := |lens| - 1;
    var front, y := lens[..n], BlockSize(version, lens[n]);
    LastLength(version, lens, y);
    SmallestFirstFront(lens);
    if front != [] {
      EndIsRoundedTotal(version, front);
      LastRounds(version, front, lens[n], y);
    } else {
      FirstRounds(y);
    }
  }

  lemma FirstRounds(y: nat)
    requires y > 0
    ensures RoundUp(0, y) + y == RoundUp(y, y)
  {
  }

  lemma LastRounds(version: Version, front: seq<nat>, len: nat, y: nat)
    requires front != [] && len <= front[|front| - 1] <= Width(version) && y == BlockSize(version, len)
    requires End(version, front) == RoundUp(Total(version, front), BlockSize(version, front[|front| - 1]))
    ensures RoundUp(End(version, front), y) + y == RoundUp(Total(version, front) + y, y)
  {
    var prev := front[|front| - 1];
    PowMultiple(Width(version) - prev, Width(version) - len);
    RoundStep(Total(version, front), BlockSize(version, prev), y);
  }

  lemma RoundStep(total: nat, z: nat, y: nat)
    requires z > 0 && y > 0 && Multiple(y, z)
    ensures RoundUp(RoundUp(total, z), y) + y == RoundUp(total + y, y)
  {
    RoundUpTwice(total, z, y);
  }

  lemma RoundFits(total: nat, z: nat, size: nat)
    requires z > 0 && (Multiple(size, z) || (z > size && total >= z))
    ensures RoundUp(total, z) <= size <==> total <= size
  {
    if total <= size && Multiple(size, z) { RoundUpLeast(total, z, size); }
  }

  /** On a power-of-two supernet the carve's end fits exactly when the plain sum does. */
  lemma EndFitsIffTotalFits(s: Prefix, lens: seq<nat>)
    requires SmallestFirst(lens) && (lens != [] ==> lens[0] <= Width(s.version))
    ensures End(s.version, lens) <= Size(s) <==> Total(s.version, lens) <= Size(s)
  {
    if lens != [] {
      var len := lens[|lens| - 1];
      var z := BlockSize(s.version, len);
      LastLength(s.version, lens, z);
      EndIsRoundedTotal(s.version, lens);
      SizesCompare(s, len);
      RoundFits(Total(s.version, lens), z, Size(s));
    }
  }

  /** A block size is a divisor of the supernet's, or larger. */
  lemma SizesCompare(s: Prefix, len: nat)
    requires len <= Width(s.version)
    ensures Multiple(Size(s), BlockSize(s.version, len)) || BlockSize(s.version, len) > Size(s)
  {
    if s.len <= len {
      PowMultiple(Width(s.version) - len, Width(s.version) - s.len);
    } else {
      PowStrict(Width(s.version) - s.len, Width(s.version) - len);
    }
  }

  /** Every aligned block that starts before the carve's end meets a carved block. */
  ghost predicate Covered(s: Prefix, out: seq<Prefix>, len: nat, end: nat) {
    forall c :: Candidate([s], len, c) && c.addr < s.addr + end ==> !Free(out, c)
  }

  /** The lowest block of a finer grain inside `c`. */
  ghost function Head(c: Prefix, len: nat): (head: Prefix)
    requires c.len <= len <= Width(c.version)
    ensures head.addr == c.addr && head.len == len && SubnetOf(head, c)
  {
    PowMultiple(Width(c.version) - len, Width(c.version) - c.len);
    MultipleTransitive(c.addr, Size(c), BlockSize(c.version, len));
    Cidr(c.version, c.addr, len)
  }

  lemma CoveredCoarser(s: Prefix, out: seq<Prefix>, len: nat, len': nat, end: nat)
    requires s.len <= len' <= len <= Width(s.version) && Covered(s, out, len, end)
    ensures Covered(s, out, len', end)
  {
    forall c | Candidate([s], len', c) && c.addr < s.addr + end ensures !Free(out, c) {
      var head := Head(c, len);
      assert Candidate([s], len, head);
      var u :| u in out && Overlaps(head, u);
      OverlapsIsRange(head, u);
      OverlapsIsRange(c, u);
    }
  }

  /** The aligned block at the first offset at or after `end`. */
  ghost predicate Fits(s: Prefix, len: nat, end: nat) {
    RoundUp(end, BlockSize(s.version, len)) + BlockSize(s.version, len) <= Size(s)
  }

  ghost function BlockAt(s: Prefix, len: nat, end: nat): (b: Prefix)
    requires s.len <= len <= Width(s.version) && Fits(s, len, end)
    ensures b.len == len && b.addr == s.addr + RoundUp(end, BlockSize(s.version, len)) && Candidate([s], len, b)
  {
    var z := BlockSize(s.version, len);
    OffsetsAligned(s, len);
    SumMultiple(s.addr, RoundUp(end, z), z);
    EndsInFamily(s);
    var b: Prefix := Cidr(s.version, s.addr + RoundUp(end, z), len);
    assert SubnetOf(b, s);
    b
  }

  lemma OffsetsAligned(s: Prefix, len: nat)
    requires s.len <= len <= Width(s.version)
    ensures Multiple(s.addr, BlockSize(s.version, len)) && Multiple(Size(s), BlockSize(s.version, len))
  {
    PowMultiple(Width(s.version) - len, Width(s.version) - s.len);
    MultipleTransitive(s.addr, Size(s), BlockSize(s.version, len));
  }

  /** A candidate at or after the end starts no earlier than the aligned offset. */
  lemma CandidateOffset(s: Prefix, len: nat, end: nat, c: Prefix)
    requires s.len <= len <= Width(s.version)
    requires Candidate([s], len, c) && c.addr >= s.addr + end
    ensures c.addr >= s.addr + RoundUp(end, BlockSize(s.version, len)) && Fits(s, len, end)
    ensures c == BlockAt(s, len, end) || c.addr >= s.addr + RoundUp(end, BlockSize(s.version, len)) + BlockSize(s.version, len)
  {
    var z := BlockSize(s.version, len);
    OffsetsAligned(s, len);
    DifferenceMultiple(c.addr, s.addr, z);
    RoundUpLeast(end, z, c.addr - s.addr);
    if RoundUp(end, z) < c.addr - s.addr { MultiplesApart(RoundUp(end, z), c.addr - s.addr, z); }
  }

  /** Where the next block goes. */
  lemma NextBlock(s: Prefix, out: seq<Prefix>, len: nat, end: nat, r: Option<Prefix>)
    requires s.len <= len <= Width(s.version) && Covered(s, out, len, end) && EndsBy(out, s.addr + end)
    requires FirstFit([s], out, len, r)
    ensures r == if Fits(s, len, end) then Some(BlockAt(s, len, end)) else None
  {
    if r.Some? {
      CandidateOffset(s, len, end, r.value);
    }
    if Fits(s, len, end) {
      var b := BlockAt(s, len, end);
      assert Free(out, b);
      assert r.Some? && AtOrBefore(r.value, b);
    }
  }

  lemma CoveredStep(s: Prefix, before: seq<Prefix>, len: nat, end: nat)
    requires s.len <= len <= Width(s.version) && Covered(s, before, len, end) && Fits(s, len, end)
    ensures var z := BlockSize(s.version, len);
            Covered(s, before + [BlockAt(s, len, end)], len, RoundUp(end, z) + z)
  {
    var b := BlockAt(s, len, end);
    var z := BlockSize(s.version, len);
    forall c | Candidate([s], len, c) && c.addr < s.addr + RoundUp(end, z) + z ensures !Free(before + [b], c) {
      if c.addr < s.addr + end {
        var u :| u in before && Overlaps(c, u);
        assert u in before + [b];
      } else {
        CandidateOffset(s, len, end, c);
        assert b in before + [b] && Overlaps(c, b);
      }
    }
  }

  /** One more block served: the end moves past it and nothing opens up behind. */
  lemma CarveStep(s: Prefix, before: seq<Prefix>, len: nat, end: nat, b: Prefix)
    requires s.len <= len <= Width(s.version) && Covered(s, before, len, end)
    requires EndsBy(before, s.addr + end)
    requires FirstFit([s], before, len, Some(b))
    ensures var end' := RoundUp(end, BlockSize(s.version, len)) + BlockSize(s.version, len);
            && end' <= Size(s)
            && EndsBy(before + [b], s.addr + end')
            && Covered(s, before + [b], len, end')
  {
    NextBlock(s, before, len, end, Some(b));
    CoveredStep(s, before, len, end);
  }

  ghost predicate EndsBy(out: seq<Prefix>, limit: nat) {
    forall b :: b in out ==> b.addr + Size(b) <= limit
  }

  /** The state of a carve that has served `lens`: it sits at `End`, inside the
      supernet, and has left no aligned room behind it. */
  ghost predicate Packed(s: Prefix, lens: seq<nat>, out: seq<Prefix>) {
    && End(s.version, lens) <= Size(s)
    && EndsBy(out, s.addr + End(s.version, lens))
    && (lens != [] ==> Covered(s, out, lens[|lens| - 1], End(s.version, lens)))
  }

  lemma PackedStep(s: Prefix, lens: seq<nat>, len: nat, before: seq<Prefix>, b: Prefix)
    requires s.len <= len <= Width(s.version) && Packed(s, lens, before)
    requires lens != [] ==> len <= lens[|lens| - 1] <= Width(s.version)
    requires FirstFit([s], before, len, Some(b))
    ensures Packed(s, lens + [len], before + [b])
  {
    PackedReady(s, lens, len, before);
    CarveStep(s, before, len, End(s.version, lens), b);
    assert (lens + [len])[..|lens|] == lens;
  }

  /** The same state, read at the grain of the next block. */
  lemma PackedReady(s: Prefix, lens: seq<nat>, len: nat, before: seq<Prefix>)
    requires s.len <= len <= Width(s.version) && Packed(s, lens, before)
    requires lens != [] ==> len <= lens[|lens| - 1] <= Width(s.version)
    ensures Covered(s, before, len, End(s.version, lens))
  {
    if lens != [] {
      CoveredCoarser(s, before, lens[|lens| - 1], len, End(s.version, lens));
    }
  }

  lemma {:induction false} GreedyIsPacked(s: Prefix, lens: seq<nat>, out: seq<Prefix>)
    requires SmallestFirst(lens) && Greedy([s], [], lens, out) && |out| == |lens|
    requires forall i :: 0 <= i < |lens| ==> s.len <= lens[i] <= Width(s.version)
    ensures Packed(s, lens, out)
  {
    if out != [] {
      var n := |out| - 1;
      GreedyPrefix([s], [], lens, out, n);
      GreedyIsPacked(s, lens[..n], out[..n]);
      GreedyLast(s, lens, out);
      LastPacked(s, lens, out);
    }
  }

  lemma LastPacked(s: Prefix, lens: seq<nat>, out: seq<Prefix>)
    requires out != [] && |out| == |lens|
    requires FirstFit([s], out[..|out| - 1], lens[|out| - 1], Some(out[|out| - 1]))
    requires s.len <= lens[|lens| - 1] <= Width(s.version) && Packed(s, lens[..|lens| - 1], out[..|lens| - 1])
    requires |lens| > 1 ==> lens[|lens| - 1] <= lens[|lens| - 2] <= Width(s.version)
    ensures Packed(s, lens, out)
  {
    var n := |out| - 1;
    PackedStep(s, lens[..n], lens[n], out[..n], out[n]);
    assert out[..n] + [out[n]] == out;
    assert lens[..n] + [lens[n]] == lens;
  }

  lemma GreedyLast(s: Prefix, lens: seq<nat>, out: seq<Prefix>)
    requires Greedy([s], [], lens, out) && out != []
    ensures FirstFit([s], out[..|out| - 1], lens[|out| - 1], Some(out[|out| - 1]))
  {
    assert [] + out[..|out| - 1] == out[..|out| - 1];
  }

  lemma GreedyPrefix(supernets: seq<Prefix>, used: seq<Prefix>, lens: seq<nat>, out: seq<Prefix>, n: nat)
    requires Greedy(supernets, used, lens, out) && n <= |out|
    ensures Greedy(supernets, used, lens[..n], out[..n])
  {
    forall i | 0 <= i < n ensures FirstFit(supernets, used + out[..n][..i], lens[..n][i], Some(out[..n][i])) {
      assert out[..n][..i] == out[..i];
    }
  }

  // --- A placement cannot exceed the supernet's volume --------------------------------

  ghost function Range(lo: nat, hi: nat): (r: set<nat>)
    requires lo <= hi
    ensures forall a :: a in r <==> lo <= a < hi
    ensures |r| == hi - lo
    decreases hi
  {
    if lo == hi then {} else Range(lo, hi - 1) + {hi - 1}
  }

  ghost function Addresses(out: seq<Prefix>): set<nat> {
    if out == [] then {} else Addresses(out[..|out| - 1]) + AddressesIn(out[|out| - 1])
  }

  ghost function AddressesIn(b: Prefix): (r: set<nat>)
    ensures forall a :: a in r <==> Holds(b, Address(b.version, a))
    ensures |r| == Size(b)
  {
    Range(b.addr, b.addr + Size(b))
  }

  lemma {:induction false} AddressesOf(out: seq<Prefix>, a: nat)
    requires a in Addresses(out)
    ensures exists i :: 0 <= i < |out| && a in AddressesIn(out[i])
  {
    var n := |out| - 1;
    if a in Addresses(out[..n]) {
      AddressesOf(out[..n], a);
      var i :| 0 <= i < n && a in AddressesIn(out[..n][i]);
      assert a in AddressesIn(out[i]);
    } else {
      assert a in AddressesIn(out[n]);
    }
  }

  lemma {:induction false} DisjointVolume(version: Version, lens: seq<nat>, out: seq<Prefix>)
    requires |out| == |lens| && PairwiseDisjoint(out)
    requires forall i :: 0 <= i < |out| ==> out[i].version == version && out[i].len == lens[i]
    ensures |Addresses(out)| == Total(version, lens)
  {
    if out != [] {
      var n := |out| - 1;
      DisjointVolume(version, lens[..n], out[..n]);
      LastIsApart(out);
    }
  }

  lemma LastIsApart(out: seq<Prefix>)
    requires out != [] && PairwiseDisjoint(out)
    requires forall i :: 0 <= i < |out| ==> out[i].version == out[0].version
    ensures Addresses(out[..|out| - 1]) !! AddressesIn(out[|out| - 1])
  {
    var n := |out| - 1;
    forall a | a in Addresses(out[..n]) ensures a !in AddressesIn(out[n]) {
      AddressesOf(out[..n], a);
      var i :| 0 <= i < n && a in AddressesIn(out[..n][i]);
      assert !Overlaps(out[i], out[n]);
      OverlapsIsRange(out[i], out[n]);
    }
  }

  lemma PlacementFits(s: Prefix, lens: seq<nat>, out: seq<Prefix>)
    requires Placement([s], [], lens, out)
    ensures Total(s.version, lens) <= Size(s)
  {
    forall i | 0 <= i < |out| ensures out[i].len == lens[i] && SubnetOf(out[i], s) {
      assert Candidate([s], lens[i], out[i]);
    }
    DisjointVolume(s.version, lens, out);
    forall a | a in Addresses(out) ensures a in AddressesIn(s) {
      AddressesOf(out, a);
    }
    SubsetCardinality(Addresses(out), AddressesIn(s));
  }

  lemma SubsetCardinality(a: set<nat>, b: set<nat>)
    requires a <= b
    ensures |a| <= |b|
  {
    assert b == a + (b - a);
  }

  // --- The main result ----------------------------------------------------------------

  lemma {:induction false} EndGrows(version: Version, lens: seq<nat>, n: nat)
    requires n <= |lens|
    ensures End(version, lens[..n]) <= End(version, lens)
  {
    if n < |lens| {
      EndGrows(version, lens[..|lens| - 1], n);
      assert lens[..|lens| - 1][..n] == lens[..n];
    } else {
      assert lens[..n] == lens;
    }
  }

  /** Smallest first on one empty supernet, the greedy carve serves every length exactly
      when the blocks' sizes add up to no more than the supernet. */
  lemma CarveServesIffFits(s: Prefix, lens: seq<nat>, out: seq<Prefix>)
    requires SmallestFirst(lens) && Finished([s], [], lens, out)
    requires forall i :: 0 <= i < |lens| ==> s.len <= lens[i] <= Width(s.version)
    ensures |out| == |lens| <==> Total(s.version, lens) <= Size(s)
  {
    EndFitsIffTotalFits(s, lens);
    FinishedIsPacked(s, lens, out);
    if |out| == |lens| {
      assert lens[..|lens|] == lens;
    } else {
      NoRoomMeansTooMuch(s, lens, out);
    }
  }

  lemma FinishedIsPacked(s: Prefix, lens: seq<nat>, out: seq<Prefix>)
    requires SmallestFirst(lens) && Finished([s], [], lens, out)
    requires forall i :: 0 <= i < |lens| ==> s.len <= lens[i] <= Width(s.version)
    ensures Packed(s, lens[..|out|], out)
  {
    GreedyPrefix([s], [], lens, out, |out|);
    assert out[..|out|] == out;
    GreedyIsPacked(s, lens[..|out|], out);
  }

  lemma NoRoomMeansTooMuch(s: Prefix, lens: seq<nat>, out: seq<Prefix>)
    requires |out| < |lens| && Packed(s, lens[..|out|], out) && FirstFit([s], [] + out, lens[|out|], None)
    requires SmallestFirst(lens)
    requires forall i :: 0 <= i < |lens| ==> s.len <= lens[i] <= Width(s.version)
    ensures End(s.version, lens) > Size(s)
  {
    var n := |out|;
    assert [] + out == out && (n > 0 ==> lens[..n][n - 1] == lens[n - 1]);
    PackedReady(s, lens[..n], lens[n], out);
    NextBlock(s, out, lens[n], End(s.version, lens[..n]), None);
    NextEnd(s.version, lens, n);
    EndGrows(s.version, lens, n + 1);
  }

  lemma NextEnd(version: Version, lens: seq<nat>, n: nat)
    requires n < |lens|
    ensures var z := BlockSize(version, lens[n]); End(version, lens[..n + 1]) == RoundUp(End(version, lens[..n]), z) + z
  {
    assert lens[..n + 1][..n] == lens[..n] && lens[..n + 1][n] == lens[n];
    LastLength(version, lens[..n + 1], BlockSize(version, lens[n]));
  }

  /** ... and therefore exactly when any disjoint aligned placement exists at all. */
  lemma CarveIsComplete(s: Prefix, lens: seq<nat>, out: seq<Prefix>)
    requires SmallestFirst(lens) && Finished([s], [], lens, out)
    requires forall i :: 0 <= i < |lens| ==> lens[i] <= Width(s.version)
    ensures |out| == |lens| <==> exists other :: Placement([s], [], lens, other)
  {
    if |out| == |lens| {
      GreedyIsPlacement([s], [], lens, out);
      assert lens[..|out|] == lens;
    }
    forall other | Placement([s], [], lens, other) ensures |out| == |lens| {
      forall i | 0 <= i < |lens| ensures s.len <= lens[i] {
        assert Candidate([s], lens[i], other[i]);
        LongerThanParent(other[i], s);
      }
      PlacementFits(s, lens, other);
      CarveServesIffFits(s, lens, out);
    }
  }
}
