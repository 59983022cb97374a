/**
 * The IPv4 part of Python's `ipaddress` module that `parse_targets` relies on:
 * dotted-quad addresses, `ip_network(text, strict=False)` and `hosts()`.
 * Addresses are numbers below 2^32.
 */
module Ipv4 {
  import opened Wrappers
  import opened Strings

  /** The number of IPv4 addresses, 2^32. */
  const AddressCount: nat := 0x1_0000_0000

  function Pow2(k: nat): (r: nat)
    ensures r >= 1
    ensures k >= 1 ==> r >= 2
    ensures k >= 2 ==> r >= 4
  {
    if k == 0 then 1 else 2 * Pow2(k - 1)
  }

  lemma {:induction false} Pow2Add(a: nat, b: nat)
    ensures Pow2(a + b) == Pow2(a) * Pow2(b)
    decreases a
  {
    if a > 0 {
      Pow2Add(a - 1, b);
      assert Pow2(a + b) == 2 * Pow2(a - 1 + b);
      DoubleProduct(Pow2(a - 1), Pow2(b));
    }
  }

  lemma DoubleProduct(x: int, y: int)
    ensures 2 * (x * y) == (2 * x) * y
  {
  }

  lemma Pow2Of32()
    ensures Pow2(32) == AddressCount
  {
    assert Pow2(4) == 16;
    Pow2Add(4, 4);
    assert Pow2(8) == 256;
    Pow2Add(8, 8);
    assert Pow2(16) == 65536;
    Pow2Add(16, 16);
  }

  lemma MulMonotone(b: nat, x: nat, y: nat)
    requires x <= y
    ensures b * x <= b * y
  {
  }

  lemma DigitsLack(s: string, c: char)
    requires AllDigits(s) && !IsDigit(c)
    ensures c !in s
  {
    forall i | 0 <= i < |s| ensures s[i] != c {
      assert IsDigit(s[i]);
    }
  }

  /** A multiple of `b` strictly between -b and b is zero. */
  lemma SmallMultiple(b: int, k: int)
    requires b > 0 && -b < b * k < b
    ensures k == 0
  {
    if k >= 1 {
      MulMonotone(b, 1, k);
    }
  }

  /** Euclidean division is determined by quotient and remainder. */
  lemma DivUnique(x: int, b: nat, q: int, r: int)
    requires b > 0 && 0 <= r < b && x == b * q + r
    ensures x / b == q && x % b == r
  {
    assert b * (q - x / b) == x % b - r;
    SmallMultiple(b, q - x / b);
  }

  /** Clearing the remainder leaves a multiple of `b` within `b` below `a`. */
  function Floor(a: nat, b: nat): (r: nat)
    requires b > 0
    ensures r % b == 0
    ensures r <= a < r + b
  {
    DivUnique(a - a % b, b, a / b, 0);
    a - a % b
  }

  /** Splitting `a` into 256-ary digits, as `Format` prints it. */
  lemma Recompose(a: nat)
    requires a < AddressCount
    ensures a / 16777216 < 256
    ensures a == (a / 16777216) * 16777216 + (a / 65536 % 256) * 65536 + (a / 256 % 256) * 256 + a % 256
  {
    var q1 := a / 256;
    var q2 := q1 / 256;
    var q3 := q2 / 256;
    assert a == 256 * q1 + a % 256;
    assert q1 == 256 * q2 + q1 % 256;
    assert q2 == 256 * q3 + q2 % 256;
    assert a / 65536 == q2;
    assert a / 16777216 == q3;
    assert a / 65536 % 256 == q2 % 256;
    assert a / 256 % 256 == q1 % 256;
  }

  // ---------------------------------------------------------------------------
  // Addresses
  // ---------------------------------------------------------------------------

  /**
   * One octet of a dotted quad: one to three ASCII digits, no leading zero
   * (except "0" itself), value at most 255.
   */
  function ParseOctet(s: string): (r: Option<nat>)
    ensures r.Some? ==> r.value < 256 && IsDigits(s)
  {
    if IsDigits(s) && |s| <= 3 && (s[0] != '0' || |s| == 1) && DigitsValue(s) <= 255
    then Some(DigitsValue(s))
    else None
  }

  /** `IPv4Address(text)`: exactly four valid octets separated by dots. */
  function ParseAddress(s: string): (r: Option<nat>)
    ensures r.Some? ==> r.value < AddressCount
  {
    var o := Split(s, '.');
    if |o| == 4 && ParseOctet(o[0]).Some? && ParseOctet(o[1]).Some?
       && ParseOctet(o[2]).Some? && ParseOctet(o[3]).Some?
    then Some(ParseOctet(o[0]).value * 16777216 + ParseOctet(o[1]).value * 65536
              + ParseOctet(o[2]).value * 256 + ParseOctet(o[3]).value)
    else None
  }

  /** `str(IPv4Address(a))`: the four octets in decimal, most significant first. */
  function Format(a: nat): string
  {
    NatToString(a / 16777216) + "." + NatToString(a / 65536 % 256) + "."
    + NatToString(a / 256 % 256) + "." + NatToString(a % 256)
  }

  lemma OctetRoundTrip(n: nat)
    requires n < 256
    ensures ParseOctet(NatToString(n)) == Some(n)
  {
    NatToStringShort(n);
    NatToStringValue(n);
  }

  /** An address that parses consists of digits and dots only; in particular it has no '/'. */
  lemma AddressLacks(s: string, c: char)
    requires ParseAddress(s).Some?
    requires c != '.' && !IsDigit(c)
    ensures c !in s
  {
    var o := Split(s, '.');
    forall k | 0 <= k < |o| ensures c !in o[k] {
      DigitsLack(o[k], c);
    }
    SplitLacks(s, '.', c);
  }

  lemma FormatPieces(a: nat)
    ensures Split(Format(a), '.') ==
            [NatToString(a / 16777216), NatToString(a / 65536 % 256),
             NatToString(a / 256 % 256), NatToString(a % 256)]
  {
    var s0, s1, s2, s3 := NatToString(a / 16777216), NatToString(a / 65536 % 256),
                          NatToString(a / 256 % 256), NatToString(a % 256);
    DigitsLack(s0, '.');
    DigitsLack(s1, '.');
    DigitsLack(s2, '.');
    DigitsLack(s3, '.');
    SplitWithout(s0, '.');
    SplitWithout(s1, '.');
    SplitWithout(s2, '.');
    SplitWithout(s3, '.');
    var t2 := s2 + ['.'] + s3;
    var t1 := s1 + ['.'] + t2;
    assert Format(a) == s0 + ['.'] + t1;
    SplitAt(s2, s3, '.');
    SplitAt(s1, t2, '.');
    SplitAt(s0, t1, '.');
  }

  /** Printing an address and parsing the text gives the address back. */
  lemma ParseFormat(a: nat)
    requires a < AddressCount
    ensures ParseAddress(Format(a)) == Some(a)
  {
    Recompose(a);
    FormatPieces(a);
    OctetRoundTrip(a / 16777216);
    OctetRoundTrip(a / 65536 % 256);
    OctetRoundTrip(a / 256 % 256);
    OctetRoundTrip(a % 256);
  }

  /** Distinct addresses print differently. */
  lemma FormatInjective(a: nat, b: nat)
    requires a < AddressCount && b < AddressCount
    requires Format(a) == Format(b)
    ensures a == b
  {
    ParseFormat(a);
    ParseFormat(b);
  }

  // ---------------------------------------------------------------------------
  // Networks
  // ---------------------------------------------------------------------------

  /** An IPv4 network: its network address and its prefix length. */
  datatype Network = Network(address: nat, prefix: nat)

  /** The number of addresses in a network with this prefix length. */
  function BlockSize(prefix: nat): nat
    requires prefix <= 32
  {
    Pow2(32 - prefix)
  }

  /** A well-formed network: host bits clear, the whole block inside the address space. */
  predicate ValidNetwork(n: Network)
  {
    n.prefix <= 32 && n.address % BlockSize(n.prefix) == 0
    && n.address + BlockSize(n.prefix) <= AddressCount
  }

  function Broadcast(n: Network): nat
    requires n.prefix <= 32
  {
    n.address + BlockSize(n.prefix) - 1
  }

  /** `strict=False`: the host bits of the given address are cleared. */
  function MaskHost(a: nat, prefix: nat): (r: nat)
    requires prefix <= 32
    ensures r % BlockSize(prefix) == 0
    ensures r <= a < r + BlockSize(prefix)
  {
    Floor(a, BlockSize(prefix))
  }

  /** A block of `b` addresses starting at a multiple of `b` fits in any multiple of `b` above it. */
  lemma BlockFits(a: nat, b: nat, q: nat)
    requires b > 0 && a < b * q
    ensures a - a % b + b <= b * q
  {
    var m := a / b;
    assert a == b * m + a % b;
    if q <= m {
      MulMonotone(b, q, m);
    }
    MulMonotone(b, m + 1, q);
  }

  lemma MaskFits(a: nat, prefix: nat)
    requires a < AddressCount && prefix <= 32
    ensures MaskHost(a, prefix) + BlockSize(prefix) <= AddressCount
  {
    Pow2Add(32 - prefix, prefix);
    Pow2Of32();
    BlockFits(a, BlockSize(prefix), Pow2(prefix));
  }

  /** The netmask with `prefix` leading one bits. */
  function Netmask(prefix: nat): int
    requires prefix <= 32
  {
    AddressCount - BlockSize(prefix)
  }

  /** The first prefix length from `p` on whose netmask is `m`. */
  function PrefixOfNetmask(m: nat, p: nat): (r: Option<nat>)
    ensures r.Some? ==> p <= r.value <= 32 && m == Netmask(r.value)
    decreases 33 - p
  {
    if p > 32 then None
    else if m == Netmask(p) then Some(p)
    else PrefixOfNetmask(m, p + 1)
  }

  /** A mask written as an address: a netmask, or else a host mask (the netmask inverted). */
  function PrefixOfMask(m: nat): (r: Option<nat>)
    requires m < AddressCount
    ensures r.Some? ==> r.value <= 32
  {
    match PrefixOfNetmask(m, 0)
    case Some(p) => Some(p)
    case None => PrefixOfNetmask(AddressCount - 1 - m, 0)
  }

  /** The part after '/': a decimal prefix length up to 32, or a mask in dotted-quad form. */
  function ParsePrefix(mask: string): (r: Option<nat>)
    ensures r.Some? ==> r.value <= 32
  {
    if IsDigits(mask) then
      if DigitsValue(mask) <= 32 then Some(DigitsValue(mask)) else None
    else
      match ParseAddress(mask)
      case None => None
      case Some(m) => PrefixOfMask(m)
  }

  /**
   * `IPv4Network(text, strict=False)`: at most one '/', a valid address before it,
   * a valid prefix or mask after it (none means /32); host bits are then cleared.
   */
  function ParseNetwork(s: string): (r: Option<Network>)
    ensures r.Some? ==> ValidNetwork(r.value)
  {
    var parts := Split(s, '/');
    if |parts| > 2 then None
    else
      match ParseAddress(parts[0])
      case None => None
      case Some(a) =>
        match (if |parts| == 1 then Some(32) else ParsePrefix(parts[1]))
        case None => None
        case Some(p) =>
          MaskFits(a, p);
          Some(Network(MaskHost(a, p), p))
  }

  /**
   * `network.hosts()`: every address but the network and broadcast addresses;
   * a /31 yields both of its addresses and a /32 its single address.
   */
  function Hosts(n: Network): seq<nat>
    requires n.prefix <= 32
  {
    if n.prefix == 32 then [n.address]
    else if n.prefix == 31 then [n.address, n.address + 1]
    else seq(BlockSize(n.prefix) - 2, k => n.address + 1 + k)
  }

  // ---------------------------------------------------------------------------
  // Properties of networks and their hosts
  // ---------------------------------------------------------------------------

  /** The address with a decimal prefix length parses to the masked network. */
  lemma ParseNetworkWithPrefix(addr: string, a: nat, p: nat)
    requires ParseAddress(addr) == Some(a)
    requires p <= 32
    ensures ParseNetwork(addr + "/" + NatToString(p)) == Some(Network(MaskHost(a, p), p))
  {
    var digits := NatToString(p);
    AddressLacks(addr, '/');
    DigitsLack(digits, '/');
    SplitAt(addr, digits, '/');
    SplitWithout(addr, '/');
    SplitWithout(digits, '/');
    assert Split(addr + "/" + digits, '/') == [addr, digits];
    NatToStringValue(p);
  }

  /** A network with prefix length at most 30 has 2^(32 - prefix) - 2 usable hosts. */
  lemma HostsCount(n: Network)
    requires ValidNetwork(n) && n.prefix <= 30
    ensures |Hosts(n)| == Pow2(32 - n.prefix) - 2
  {
  }

  /**
   * For prefix lengths up to 30 the hosts are exactly the addresses strictly
   * between the network address and the broadcast address, in ascending order.
   */
  lemma HostsAreUsable(n: Network)
    requires ValidNetwork(n) && n.prefix <= 30
    ensures forall h :: h in Hosts(n) <==> n.address < h < Broadcast(n)
    ensures forall i, j :: 0 <= i < j < |Hosts(n)| ==> Hosts(n)[i] < Hosts(n)[j]
    ensures n.address !in Hosts(n) && Broadcast(n) !in Hosts(n)
  {
    var hs := Hosts(n);
    forall h | n.address < h < Broadcast(n) ensures h in hs {
      assert hs[h - n.address - 1] == h;
    }
  }

  /** Every host of a valid network is an IPv4 address. */
  lemma HostsInRange(n: Network)
    requires ValidNetwork(n)
    ensures forall h :: h in Hosts(n) ==> h < AddressCount
  {
  }

  /** The hosts of a network with prefix length at most 30 print to texts other than its network and broadcast addresses. */
  lemma HostTextsExcludeEnds(n: Network)
    requires ValidNetwork(n) && n.prefix <= 30
    ensures forall h :: h in Hosts(n) ==> Format(h) != Format(n.address) && Format(h) != Format(Broadcast(n))
  {
    HostsAreUsable(n);
    forall h | h in Hosts(n)
      ensures Format(h) != Format(n.address) && Format(h) != Format(Broadcast(n))
    {
      if Format(h) == Format(n.address) { FormatInjective(h, n.address); }
      if Format(h) == Format(Broadcast(n)) { FormatInjective(h, Broadcast(n)); }
    }
  }
}
