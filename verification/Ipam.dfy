/** Prefix overlap and address identity inside a routing domain. */
module Ipam {
  import opened Wrappers
  import opened Powers

  datatype Family = V4 | V6

  datatype Address = Address(family: Family, value: nat)

  /** A network prefix as configured: the address may have host bits set. */
  datatype Prefix = Prefix(family: Family, address: nat, length: nat)

  datatype Scope = Scope(organization: nat, site: nat, routingDomain: nat)

  datatype ScopedPrefix = ScopedPrefix(scope: Scope, prefix: Prefix)

  function Width(f: Family): nat {
    if f == V4 then 32 else 128
  }

  predicate ValidPrefix(p: Prefix) {
    p.length <= Width(p.family) && p.address < Pow2(Width(p.family))
  }

  /** Number of addresses of a prefix. */
  function Size(p: Prefix): (r: nat)
    requires ValidPrefix(p)
    ensures r > 0
  {
    Pow2(Width(p.family) - p.length)
  }

  function RoundDown(x: nat, s: nat): (r: nat)
    requires s > 0
    ensures r <= x
  {
    x - x % s
  }

  /** The address with its host bits cleared. */
  function Network(p: Prefix): nat
    requires ValidPrefix(p)
  {
    RoundDown(p.address, Size(p))
  }

  /** Between the network and the broadcast address, in one family. */
  predicate Contains(p: Prefix, a: Address)
    requires ValidPrefix(p)
  {
    p.family == a.family && Network(p) <= a.value <= Network(p) + Size(p) - 1
  }

  predicate PrefixesConflict(left: ScopedPrefix, right: ScopedPrefix)
    requires ValidPrefix(left.prefix) && ValidPrefix(right.prefix)
  {
    && left.scope == right.scope
    && (|| Contains(left.prefix, Address(right.prefix.family, Network(right.prefix)))
        || Contains(right.prefix, Address(left.prefix.family, Network(left.prefix))))
  }

  ghost predicate ShareAddress(p: Prefix, q: Prefix)
    requires ValidPrefix(p) && ValidPrefix(q)
  {
    exists a :: Contains(p, a) && Contains(q, a)
  }

  ghost predicate Inside(p: Prefix, q: Prefix)
    requires ValidPrefix(p) && ValidPrefix(q)
  {
    forall a :: Contains(p, a) ==> Contains(q, a)
  }

  lemma {:induction false} Pow2Divides(a: nat, b: nat) returns (k: nat)
    requires a <= b
    ensures Pow2(b) == k * Pow2(a)
    decreases b - a
  {
    if a == b {
      k := 1;
    } else {
      var j := Pow2Divides(a, b - 1);
      k := 2 * j;
    }
  }

  /** Rounding down to a multiple of `s` stays between the multiples around `x`. */
  lemma Floor(x: nat, s: nat, m: int)
    requires s > 0
    ensures m * s <= x ==> m * s <= RoundDown(x, s)
    ensures m * s > x ==> m * s >= RoundDown(x, s) + s
  {
    var q := x / s;
    assert x == q * s + x % s;
    if m <= q { MulMonotone(m, q, s); } else { MulMonotone(q + 1, m, s); }
    assert (q + 1) * s == q * s + s;
  }

  lemma MulMonotone(a: int, b: int, s: nat)
    requires a <= b
    ensures a * s <= b * s
  {}

  lemma NetworkMultiple(p: Prefix) returns (m: nat)
    requires ValidPrefix(p)
    ensures Network(p) == m * Size(p)
  {
    m := RoundDownMultiple(p.address, Size(p));
  }

  lemma RoundDownMultiple(x: nat, s: nat) returns (m: nat)
    requires s > 0
    ensures RoundDown(x, s) == m * s
  {
    m := x / s;
  }

  /** Blocks are aligned: a block that holds an address starts at that address rounded down. */
  lemma BlockStart(p: Prefix, a: Address)
    requires ValidPrefix(p) && Contains(p, a)
    ensures Network(p) == RoundDown(a.value, Size(p))
  {
    var m := NetworkMultiple(p);
    Floor(a.value, Size(p), m);
    Floor(a.value, Size(p), m + 1);
    assert (m + 1) * Size(p) == m * Size(p) + Size(p);
  }

  /** Of two blocks that share an address, the one with the longer prefix lies inside the other. */
  lemma SharingNests(p: Prefix, q: Prefix, a: Address)
    requires ValidPrefix(p) && ValidPrefix(q) && Contains(p, a) && Contains(q, a) && p.length >= q.length
    ensures Network(q) <= Network(p) && Network(p) + Size(p) <= Network(q) + Size(q)
    ensures Inside(p, q)
  {
    BlockStart(p, a);
    var k := Pow2Divides(Width(p.family) - p.length, Width(q.family) - q.length);
    var m := NetworkMultiple(q);
    MulAssociates(m, k, Size(p));
    Floor(a.value, Size(p), m * k);
    MulAssociates(m + 1, k, Size(p));
    assert (m + 1) * Size(q) == m * Size(q) + Size(q);
    Floor(a.value, Size(p), (m + 1) * k);
  }

  lemma MulAssociates(m: nat, k: nat, s: nat)
    ensures m * (k * s) == m * k * s
  {}

  /**
   In one scope two prefixes conflict exactly when they share an address, and exactly when one is
   nested in the other (section 3.1 of RFC 4632).
   */
  lemma ConflictIff(left: ScopedPrefix, right: ScopedPrefix)
    requires ValidPrefix(left.prefix) && ValidPrefix(right.prefix)
    ensures PrefixesConflict(left, right) <==> left.scope == right.scope && ShareAddress(left.prefix, right.prefix)
    ensures PrefixesConflict(left, right) <==>
      left.scope == right.scope && (Inside(left.prefix, right.prefix) || Inside(right.prefix, left.prefix))
  {
    var p, q := left.prefix, right.prefix;
    var np, nq := Address(p.family, Network(p)), Address(q.family, Network(q));
    assert Contains(p, np) && Contains(q, nq);
    if ShareAddress(p, q) {
      var a :| Contains(p, a) && Contains(q, a);
      if p.length >= q.length { SharingNests(p, q, a); } else { SharingNests(q, p, a); }
    }
  }

  /** Prefixes that do not conflict pairwise assign each address to at most one of them. */
  lemma AtMostOnePrefix(table: seq<ScopedPrefix>, i: nat, j: nat, a: Address)
    requires i < |table| && j < |table| && forall k :: 0 <= k < |table| ==> ValidPrefix(table[k].prefix)
    requires forall k, l :: 0 <= k < l < |table| ==> !PrefixesConflict(table[k], table[l])
    requires table[i].scope == table[j].scope && Contains(table[i].prefix, a) && Contains(table[j].prefix, a)
    ensures i == j
  {
    if i < j {
      ConflictIff(table[i], table[j]);
    } else if j < i {
      ConflictIff(table[j], table[i]);
    }
  }

  /** A prefix contains an address exactly when the two agree in the prefix's leading bits. */
  lemma ContainsIff(p: Prefix, a: Address)
    requires ValidPrefix(p)
    ensures Contains(p, a) <==>
      p.family == a.family && LeadingBits(a.value, p) == LeadingBits(p.address, p)
  {
    SameQuotient(p.address, a.value, Size(p));
  }

  /** A number without the bits that a prefix leaves to hosts. */
  function LeadingBits(value: nat, p: Prefix): nat
    requires ValidPrefix(p)
  {
    value / Pow2((if p.family == V4 then 32 else 128) - p.length)
  }

  lemma SameQuotient(x: nat, y: nat, s: nat)
    requires s > 0
    ensures RoundDown(x, s) <= y <= RoundDown(x, s) + s - 1 <==> x / s == y / s
  {
    Floor(y, s, x / s);
    Floor(y, s, x / s + 1);
    assert x == x / s * s + x % s && y == y / s * s + y % s;
    assert (x / s + 1) * s == x / s * s + s;
    if x / s < y / s { MulMonotone(x / s + 1, y / s, s); }
    if y / s < x / s { MulMonotone(y / s + 1, x / s, s); assert (y / s + 1) * s == y / s * s + s; }
  }

  // -------------------------------------------------------- address identity

  /** An IPv6 address as its first 16-bit segment and the 112 bits below. */
  datatype IpAddress = Ip4(value: nat) | Ip6(firstSegment: bv16, rest: nat)

  datatype Allocation = Allocation(scope: Scope, interface: Option<nat>, address: IpAddress)

  /** 2^112: what one unit of the first segment is worth. */
  const SEGMENT: nat := 0x1_0000_0000_0000_0000_0000_0000_0000

  predicate ValidAddress(a: IpAddress) {
    if a.Ip4? then a.value < 0x1_0000_0000 else a.rest < SEGMENT
  }

  predicate IsIpv6LinkLocal(a: IpAddress) {
    a.Ip6? && a.firstSegment & 0xffc0 == 0xfe80
  }

  predicate SameL3Identity(a: Allocation, b: Allocation) {
    && a.scope == b.scope
    && a.address == b.address
    && (!IsIpv6LinkLocal(a.address) || a.interface == b.interface)
  }

  predicate ValidAllocation(a: Allocation) {
    !(IsIpv6LinkLocal(a.address) && a.interface.None?)
  }

  function Value(a: IpAddress): nat
    requires a.Ip6?
  {
    a.firstSegment as int * SEGMENT + a.rest
  }

  /** The address lies in fe80::/10, as the database tests it. */
  predicate InLinkLocalBlock(a: IpAddress) {
    a.Ip6? && 0xfe80 * SEGMENT <= Value(a) < 0xfec0 * SEGMENT
  }

  /** Two rows collide in one of the two partial unique indexes; null interfaces never collide. */
  predicate IndexCollision(a: Allocation, b: Allocation) {
    && a.scope == b.scope
    && a.address == b.address
    && (|| (!InLinkLocalBlock(a.address) && !InLinkLocalBlock(b.address))
        || (&& InLinkLocalBlock(a.address) && InLinkLocalBlock(b.address)
            && a.interface.Some? && a.interface == b.interface))
  }

  lemma MaskIsRange(s: bv16)
    ensures s & 0xffc0 == 0xfe80 <==> 0xfe80 <= s < 0xfec0
  {}

  lemma SegmentOrder(s: bv16)
    ensures 0xfe80 <= s <==> 0xfe80 <= s as int
    ensures s < 0xfec0 <==> s as int < 0xfec0
  {}

  lemma SegmentBounds(segment: nat, rest: nat, s: nat, low: nat)
    requires rest < s
    ensures low * s <= segment * s + rest <==> low <= segment
  {
    if low <= segment { MulMonotone(low, segment, s); } else { MulMonotone(segment + 1, low, s); }
    assert (segment + 1) * s == segment * s + s;
  }

  lemma SegmentRange(segment: bv16, rest: nat, s: nat)
    requires rest < s
    ensures segment & 0xffc0 == 0xfe80 <==> 0xfe80 * s <= segment as int * s + rest < 0xfec0 * s
  {
    MaskIsRange(segment);
    SegmentOrder(segment);
    SegmentBounds(segment as int, rest, s, 0xfe80);
    SegmentBounds(segment as int, rest, s, 0xfec0);
  }

  /** The mask test on the first segment is membership in fe80::/10 (section 2.5.6 of RFC 4291). */
  lemma LinkLocalIsBlock(a: IpAddress)
    requires ValidAddress(a)
    ensures IsIpv6LinkLocal(a) <==> InLinkLocalBlock(a)
  {
    if a.Ip6? {
      SegmentRange(a.firstSegment, a.rest, SEGMENT);
    }
  }

  /** For valid allocations the identity test is what the unique indexes enforce. */
  lemma IdentityMatchesIndexes(a: Allocation, b: Allocation)
    requires ValidAllocation(a) && ValidAllocation(b) && ValidAddress(a.address) && ValidAddress(b.address)
    ensures SameL3Identity(a, b) <==> IndexCollision(a, b)
  {
    LinkLocalIsBlock(a.address);
    LinkLocalIsBlock(b.address);
  }

  /** Same identity is an equivalence. */
  lemma IdentityIsEquivalence(a: Allocation, b: Allocation, c: Allocation)
    ensures SameL3Identity(a, a)
    ensures SameL3Identity(a, b) ==> SameL3Identity(b, a)
    ensures SameL3Identity(a, b) && SameL3Identity(b, c) ==> SameL3Identity(a, c)
  {}
}
