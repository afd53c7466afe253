/** CIDR blocks, as section 3.1 of RFC 4632 defines them and as Python's
    `ipaddress` compares them: an aligned power-of-two range of one family. */
module Prefixes {

  datatype Version = V4 | V6

  datatype Address = Address(version: Version, value: nat)

  datatype Cidr = Cidr(version: Version, addr: nat, len: nat)

  /** What `ip_network` accepts: no host bits set. */
  type Prefix = c: Cidr | Aligned(c) witness Cidr(V4, 0, 0)

  function Width(version: Version): nat {
    match version
    case V4 => 32
    case V6 => 128
  }

  function Pow2(n: nat): (r: nat)
    ensures r >= 1
  {
    if n == 0 then 1 else 2 * Pow2(n - 1)
  }

  /** How many addresses a block of this length covers. */
  function BlockSize(version: Version, len: nat): (r: nat)
    ensures r >= 1
  {
    if len <= Width(version) then Pow2(Width(version) - len) else 1
  }

  predicate Aligned(c: Cidr) {
    && c.len <= Width(c.version)
    && c.addr < Pow2(Width(c.version))
    && Multiple(c.addr, BlockSize(c.version, c.len))
  }

  function Size(p: Prefix): nat
  {
    BlockSize(p.version, p.len)
  }

  /** `x` is `z` added up some number of times. */
  predicate Multiple(x: nat, z: nat)
    requires z > 0
  {
    x == 0 || (x >= z && Multiple(x - z, z))
  }

  /** The largest multiple of `z` at or below `x`: masking the low bits of `x`. */
  function RoundDown(x: nat, z: nat): (r: nat)
    requires z > 0
    ensures Multiple(r, z) && r <= x < r + z
  {
    if x < z then 0 else RoundDown(x - z, z) + z
  }

  /** `ip_network(value, strict=False)`: the host bits are masked away. */
  function NetworkOf(version: Version, value: nat, len: nat): (p: Prefix)
    requires len <= Width(version) && value < Pow2(Width(version))
    ensures Holds(p, Address(version, value)) && p.len == len
  {
    Cidr(version, RoundDown(value, BlockSize(version, len)), len)
  }

  function First(p: Prefix): Address {
    Address(p.version, p.addr)
  }

  function Last(p: Prefix): Address
  {
    Address(p.version, p.addr + Size(p) - 1)
  }

  /** `address in network`. */
  predicate Holds(p: Prefix, a: Address) {
    a.version == p.version && p.addr <= a.value < p.addr + Size(p)
  }

  /** `_BaseNetwork.overlaps`: one end of either block lies in the other. */
  predicate Overlaps(p: Prefix, q: Prefix)
  {
    Holds(p, First(q)) || Holds(p, Last(q)) || Holds(q, First(p)) || Holds(q, Last(p))
  }

  /** `subnet_of`, guarded on the family as every caller guards it. */
  predicate SubnetOf(p: Prefix, q: Prefix)
  {
    p.version == q.version && q.addr <= p.addr && Last(p).value <= Last(q).value
  }

  /** The containment test of the WAN check: it compares one end and the length. */
  predicate Within(inner: Prefix, outer: Prefix)
  {
    inner.version == outer.version && Holds(outer, First(inner)) && inner.len >= outer.len
  }

  // --- Powers of two and multiples ------------------------------------------------

  lemma {:induction false} PowMultiple(a: nat, b: nat)
    requires a <= b
    ensures Pow2(a) <= Pow2(b) && Multiple(Pow2(b), Pow2(a))
    decreases b
  {
    if a < b {
      PowMultiple(a, b - 1);
      SumMultiple(Pow2(b - 1), Pow2(b - 1), Pow2(a));
    }
  }

  lemma PowStrict(a: nat, b: nat)
    requires a < b
    ensures Pow2(a) < Pow2(b)
  {
    PowMultiple(a, b - 1);
  }

  lemma {:induction false} SumMultiple(x: nat, y: nat, z: nat)
    requires z > 0 && Multiple(x, z) && Multiple(y, z)
    ensures Multiple(x + y, z)
    decreases x
  {
    if x > 0 { SumMultiple(x - z, y, z); }
  }

  lemma {:induction false} DifferenceMultiple(x: nat, y: nat, z: nat)
    requires z > 0 && y <= x && Multiple(x, z) && Multiple(y, z)
    ensures Multiple(x - y, z)
    decreases x
  {
    if y > 0 { DifferenceMultiple(x - z, y - z, z); }
  }

  lemma {:induction false} MultipleTransitive(x: nat, y: nat, z: nat)
    requires z > 0 && y > 0 && Multiple(y, z) && Multiple(x, y)
    ensures Multiple(x, z)
    decreases x
  {
    if x > 0 {
      MultipleTransitive(x - y, y, z);
      SumMultiple(x - y, y, z);
    }
  }

  /** Two different multiples of `z` are at least `z` apart. */
  lemma {:induction false} MultiplesApart(x: nat, y: nat, z: nat)
    requires z > 0 && Multiple(x, z) && Multiple(y, z) && x < y
    ensures x + z <= y
    decreases x
  {
    if x > 0 { MultiplesApart(x - z, y - z, z); }
  }

  lemma SizesNest(p: Prefix, q: Prefix)
    requires p.version == q.version && q.len <= p.len
    ensures Size(p) <= Size(q) && Multiple(Size(q), Size(p))
  {
    PowMultiple(Width(p.version) - p.len, Width(q.version) - q.len);
  }

  // --- What the comparisons mean for addresses --------------------------------------

  lemma EndsInFamily(p: Prefix)
    ensures p.addr + Size(p) <= Pow2(Width(p.version))
  {
    PowMultiple(Width(p.version) - p.len, Width(p.version));
    MultiplesApart(p.addr, Pow2(Width(p.version)), Size(p));
  }

  /** Aligned blocks nest or are disjoint: sharing anything means the longer
      prefix lies wholly inside the shorter one. */
  lemma NestOrDisjoint(p: Prefix, q: Prefix)
    requires p.version == q.version && q.len <= p.len
    ensures SubnetOf(p, q) || p.addr + Size(p) <= q.addr || q.addr + Size(q) <= p.addr
  {
    SizesNest(p, q);
    var z := Size(p);
    MultipleTransitive(q.addr, Size(q), z);
    SumMultiple(q.addr, Size(q), z);
    if p.addr < q.addr { MultiplesApart(p.addr, q.addr, z); }
    if p.addr < q.addr + Size(q) { MultiplesApart(p.addr, q.addr + Size(q), z); }
  }

  lemma OverlapsIsRange(p: Prefix, q: Prefix)
    ensures Overlaps(p, q) <==>
            p.version == q.version && p.addr < q.addr + Size(q) && q.addr < p.addr + Size(p)
    ensures Overlaps(p, q) <==> Overlaps(q, p)
  {
  }

  /** Two blocks overlap exactly when they share an address. */
  lemma OverlapsIffShare(p: Prefix, q: Prefix)
    ensures Overlaps(p, q) <==> exists a :: Holds(p, a) && Holds(q, a)
  {
    OverlapsIsRange(p, q);
    if Overlaps(p, q) {
      var a := Address(p.version, if p.addr >= q.addr then p.addr else q.addr);
    }
    forall a | Holds(p, a) && Holds(q, a) ensures Overlaps(p, q) {
    }
  }

  /** One block is a subnet of another exactly when each of its addresses lies in it. */
  lemma SubnetIffSubset(p: Prefix, q: Prefix)
    ensures SubnetOf(p, q) <==> forall a :: Holds(p, a) ==> Holds(q, a)
  {
    assert Holds(p, First(p)) && Holds(p, Last(p));
  }

  /** How much a block holds: two to the number of bits behind its length, of 32 or 128. */
  lemma {:induction false} HalvesTo(version: Version, len: nat)
    ensures BlockSize(V4, 32) == 1 && BlockSize(V6, 128) == 1
    ensures len < (if version == V4 then 32 else 128) ==> BlockSize(version, len) == 2 * BlockSize(version, len + 1)
  {
  }

  /** Comparing one end and the lengths is enough, because blocks are aligned. */
  lemma WithinIsSubnet(inner: Prefix, outer: Prefix)
    ensures Within(inner, outer) <==> SubnetOf(inner, outer)
  {
    if inner.version == outer.version {
      if inner.len >= outer.len {
        NestOrDisjoint(inner, outer);
      } else {
        PowStrict(Width(inner.version) - outer.len, Width(inner.version) - inner.len);
      }
    }
  }
}
