/**
 * Addresses, CIDR subnets and address ranges, as the network code uses them.
 * An address is a natural number tagged with its family; a subnet is an
 * aligned block of addresses (what `net.ParseCIDR` yields); a range is a
 * closed interval. The parsers of the textual forms are not modelled: they
 * are passed around as a `Parsers` record of functions.
 */
module Net {
  import opened Wrappers
  import Strs

  datatype Family = V4 | V6

  function AddrBits(f: Family): nat
  {
    if f == V4 then 32 else 128
  }

  datatype IP = IP(family: Family, value: nat)

  predicate ValidIP(ip: IP)
  {
    ip.value < Strs.Pow2(AddrBits(ip.family))
  }

  /**
   * A CIDR block: the `prefix` leading bits are fixed and the block is the
   * `index`-th of its size, so its network address is always aligned.
   */
  datatype Subnet = Subnet(family: Family, prefix: nat, index: nat)

  function HostBits(n: Subnet): nat
  {
    if n.prefix <= AddrBits(n.family) then AddrBits(n.family) - n.prefix else 0
  }

  function BlockSize(n: Subnet): (size: nat)
    ensures size >= 1
  {
    Strs.Pow2(HostBits(n))
  }

  /** The network address. */
  function First(n: Subnet): nat
  {
    n.index * BlockSize(n)
  }

  /** The broadcast address (the last address of the block). */
  function Last(n: Subnet): (last: nat)
    ensures First(n) <= last
  {
    First(n) + BlockSize(n) - 1
  }

  predicate ValidSubnet(n: Subnet)
  {
    n.prefix <= AddrBits(n.family) && n.index < Strs.Pow2(n.prefix)
  }

  /** The single-address subnet of an IP: a /32 for IPv4, a /128 for IPv6. */
  function HostSubnet(ip: IP): (n: Subnet)
    ensures n.family == ip.family && First(n) == ip.value && Last(n) == ip.value
    ensures ValidIP(ip) ==> ValidSubnet(n)
  {
    Subnet(ip.family, AddrBits(ip.family), ip.value)
  }

  predicate SubnetHas(n: Subnet, ip: IP)
  {
    ip.family == n.family && First(n) <= ip.value <= Last(n)
  }

  /** Every address of `inner` is in `outer` (network and broadcast both inside). */
  predicate SubnetContains(outer: Subnet, inner: Subnet)
  {
    outer.family == inner.family && First(outer) <= First(inner) && Last(inner) <= Last(outer)
  }

  predicate SubnetsOverlap(a: Subnet, b: Subnet)
  {
    a.family == b.family && First(a) <= Last(b) && First(b) <= Last(a)
  }

  /** A closed interval of addresses of one family. */
  datatype IPRange = IPRange(family: Family, start: nat, end: nat)

  predicate RangeHas(r: IPRange, v: nat)
  {
    r.start <= v <= r.end
  }

  /** Two ranges overlap when they share an address. */
  predicate RangesOverlap(a: IPRange, b: IPRange)
  {
    a.family == b.family && a.start <= b.end && b.start <= a.end
  }

  /**
   * Overlap of well-formed ranges is the same as one range holding an
   * end point of the other.
   */
  lemma RangesOverlapByEndpoints(a: IPRange, b: IPRange)
    requires a.family == b.family && a.start <= a.end && b.start <= b.end
    ensures RangesOverlap(a, b) <==>
      (RangeHas(a, b.start) || RangeHas(a, b.end) || RangeHas(b, a.start) || RangeHas(b, a.end))
  {
  }

  lemma RangesOverlapSymmetric(a: IPRange, b: IPRange)
    ensures RangesOverlap(a, b) <==> RangesOverlap(b, a)
  {
  }

  // ---------------------------------------------------------------------
  // CIDR blocks nest or are disjoint
  // ---------------------------------------------------------------------

  lemma MulMono(a: nat, b: nat, d: nat)
    requires a <= b
    ensures a * d <= b * d
  {
  }

  /** Cancelling a positive factor keeps a strict order. */
  lemma MulLtCancel(x: nat, y: nat, d: nat)
    requires d > 0 && x * d < y * d
    ensures x < y
  {
    if x >= y {
      MulMono(y, x, d);
    }
  }

  /**
   * Blocks of size `d` numbered from `lo` up to `hi` (exclusive) hold block
   * `i` of size `d` as soon as they meet it.
   */
  lemma BlocksNest(lo: nat, hi: nat, i: nat, d: nat)
    requires d > 0
    requires lo * d < i * d + d && i * d < hi * d
    ensures lo * d <= i * d && i * d + d <= hi * d
  {
    assert (i + 1) * d == i * d + d;
    MulLtCancel(lo, i + 1, d);
    MulMono(lo, i, d);
    MulLtCancel(i, hi, d);
    MulMono(i + 1, hi, d);
  }

  lemma Assoc(x: nat, y: nat, z: nat)
    ensures x * (y * z) == (x * y) * z
    ensures x * (y * z) + y * z == (x * y + y) * z
  {
  }

  /** The wider-or-equal block `a` holds every block `b` it meets. */
  lemma NestedWhenWider(a: Subnet, b: Subnet)
    requires ValidSubnet(a) && ValidSubnet(b) && SubnetsOverlap(a, b)
    requires a.prefix <= b.prefix
    ensures SubnetContains(a, b)
  {
    var sb := BlockSize(b);
    var t := Strs.Pow2(HostBits(a) - HostBits(b));
    Strs.Pow2Add(HostBits(a) - HostBits(b), HostBits(b));
    assert BlockSize(a) == t * sb;
    NestArith(a.index, t, b.index, sb);
  }

  /** The arithmetic of `NestedWhenWider`: block `bi` of size `sb` meeting block `ai` of size `t * sb` lies in it. */
  lemma NestArith(ai: nat, t: nat, bi: nat, sb: nat)
    requires sb > 0
    requires ai * (t * sb) < bi * sb + sb && bi * sb < ai * (t * sb) + t * sb
    ensures ai * (t * sb) <= bi * sb && bi * sb + sb <= ai * (t * sb) + t * sb
  {
    Assoc(ai, t, sb);
    BlocksNest(ai * t, ai * t + t, bi, sb);
  }

  /**
   * Two CIDR blocks that share an address are nested: one of them contains
   * the other. So "contains or is contained by" is the same test as overlap.
   */
  lemma CIDRNested(a: Subnet, b: Subnet)
    requires ValidSubnet(a) && ValidSubnet(b)
    ensures SubnetsOverlap(a, b) <==> SubnetContains(a, b) || SubnetContains(b, a)
  {
    if SubnetsOverlap(a, b) {
      if a.prefix <= b.prefix {
        NestedWhenWider(a, b);
      } else {
        NestedWhenWider(b, a);
      }
    }
  }

  // ---------------------------------------------------------------------
  // Parsers of the textual forms (not modelled, passed in)
  // ---------------------------------------------------------------------

  /**
   * - `parseIP`: net.ParseIP, `None` for nil;
   * - `parseCIDR`: net.ParseCIDR, the address written and the block it lies in;
   * - `parseIPToNet`: a listen address to its host subnet (or a CIDR to its block);
   * - `parseIPRanges`: a comma list of "start-end" ranges, each required to lie
   *   inside one of the given subnets when any are given;
   * - `formatSubnet`: the CIDR text of a block (IPNet.String);
   * - `formatRange`: the text of a range.
   */
  datatype Parsers = Parsers(
    parseIP: string -> Option<IP>,
    parseCIDR: string -> Option<(IP, Subnet)>,
    parseIPToNet: string -> Result<Subnet>,
    parseIPRanges: (string, seq<Subnet>) -> Result<seq<IPRange>>,
    formatSubnet: Subnet -> string,
    formatRange: IPRange -> string)
}
