/** IP addresses and CIDR blocks, as Python's `ipaddress` module compares them. */
module Addresses {

  datatype Version = V4 | V6

  function Width(v: Version): nat { if v == V4 then 32 else 128 }

  function Pow2(n: nat): (p: nat)
    ensures p > 0
  {
    if n == 0 then 1 else 2 * Pow2(n - 1)
  }

  /** An IPv6 zone identifier takes part in address equality but not in membership. */
  datatype RawAddress = Address(version: Version, bits: nat, zone: string)

  type Address = a: RawAddress | a.bits < Pow2(Width(a.version)) witness Address(V4, 0, "")

  /** A block of 2^(width - length) addresses; `strict=False` has cleared the host bits. */
  datatype RawNetwork = Network(version: Version, base: nat, length: nat)
  {
    predicate Valid() {
      && length <= Width(version)
      && base % Pow2(Width(version) - length) == 0
      && base + Pow2(Width(version) - length) <= Pow2(Width(version))
    }

    function Size(): (s: nat)
      requires length <= Width(version)
      ensures s > 0
    {
      Pow2(Width(version) - length)
    }
  }

  type Network = n: RawNetwork | n.Valid() witness Network(V4, 0, 32)

  datatype Entry = Host(address: Address) | Block(network: Network)

  /** Masking: the host bits of `bits` are dropped before the comparison. */
  predicate InNetwork(a: Address, n: Network) {
    a.version == n.version && a.bits - a.bits % n.Size() == n.base
  }

  /** What one scope entry matches. */
  predicate EntryMatches(e: Entry, a: Address) {
    match e
    case Host(h) => a == h
    case Block(n) => InNetwork(a, n)
  }

  function FirstAddress(n: Network): (a: Address) { Address(n.version, n.base, "") }

  function LastAddress(n: Network): (a: Address) { Address(n.version, n.base + n.Size() - 1, "") }

  /** `overlaps`: an end point of one block lies in the other. */
  predicate NetworksOverlap(m: Network, n: Network) {
    || InNetwork(FirstAddress(m), n)
    || InNetwork(LastAddress(m), n)
    || InNetwork(FirstAddress(n), m)
    || InNetwork(LastAddress(n), m)
  }

  predicate EntriesOverlap(d: Entry, e: Entry) {
    match (d, e)
    case (Host(a), Host(b)) => a == b
    case (Block(n), Host(b)) => InNetwork(b, n)
    case (Host(a), Block(n)) => InNetwork(a, n)
    case (Block(m), Block(n)) => NetworksOverlap(m, n)
  }

  /** `subnet_of`, which is false for blocks of different versions. */
  predicate SubnetOf(inner: Network, outer: Network) {
    && inner.version == outer.version
    && outer.base <= inner.base
    && inner.base + inner.Size() <= outer.base + outer.Size()
  }

  predicate Covers(outer: Entry, inner: Entry) {
    match (outer, inner)
    case (Host(o), Host(i)) => o == i
    case (Block(o), Host(i)) => InNetwork(i, o)
    case (Block(o), Block(i)) => SubnetOf(i, o)
    case (Host(_), Block(_)) => false
  }

  lemma DivisionStep(x: nat, s: nat, k: nat)
    requires s > 0
    ensures x - x % s == k * s <==> k * s <= x < k * s + s
  {
    var q := x / s;
    assert x == q * s + x % s;
    assert q < k ==> (q + 1) * s <= k * s;
    assert q > k ==> (k + 1) * s <= q * s;
  }

  lemma MaskedIsInterval(x: nat, base: nat, s: nat)
    requires s > 0 && base % s == 0
    ensures x - x % s == base <==> base <= x < base + s
  {
    var k := base / s;
    assert base == k * s;
    DivisionStep(x, s, k);
  }

  /** Masked comparison is membership in an interval of 2^(width - length) addresses. */
  lemma InNetworkIsInterval(a: Address, n: Network)
    ensures InNetwork(a, n) <==> a.version == n.version && n.base <= a.bits < n.base + n.Size()
  {
    MaskedIsInterval(a.bits, n.base, n.Size());
  }

  /** Two entries overlap exactly when some address matches both. */
  lemma OverlapIsCommonAddress(d: Entry, e: Entry)
    ensures EntriesOverlap(d, e) <==> exists a: Address :: EntryMatches(d, a) && EntryMatches(e, a)
  {
    match (d, e) {
      case (Host(a), Host(b)) => assert EntryMatches(d, a);
      case (Block(n), Host(b)) => assert EntryMatches(e, b);
      case (Host(a), Block(n)) => assert EntryMatches(d, a);
      case (Block(m), Block(n)) =>
        if EntriesOverlap(d, e) {
          var w := CommonAddress(d, e);
        } else if a: Address :| EntryMatches(d, a) && EntryMatches(e, a) {
          EndPointInside(a, m, n);
        }
    }
  }

  lemma EndPointInside(a: Address, m: Network, n: Network)
    requires InNetwork(a, m) && InNetwork(a, n)
    ensures NetworksOverlap(m, n)
  {
    InNetworkIsInterval(a, m);
    InNetworkIsInterval(a, n);
    InNetworkIsInterval(FirstAddress(m), n);
    InNetworkIsInterval(FirstAddress(n), m);
  }

  /** An address that both overlapping entries match. */
  ghost function CommonAddress(d: Entry, e: Entry): (a: Address)
    requires EntriesOverlap(d, e)
    ensures EntryMatches(d, a) && EntryMatches(e, a)
  {
    match (d, e)
    case (Host(x), _) => x
    case (_, Host(y)) => y
    case (Block(m), Block(n)) =>
      InNetworkIsInterval(FirstAddress(m), m);
      InNetworkIsInterval(LastAddress(m), m);
      InNetworkIsInterval(FirstAddress(n), n);
      InNetworkIsInterval(LastAddress(n), n);
      if InNetwork(FirstAddress(m), n) then FirstAddress(m)
      else if InNetwork(LastAddress(m), n) then LastAddress(m)
      else if InNetwork(FirstAddress(n), m) then FirstAddress(n)
      else LastAddress(n)
  }

  /** A covered entry matches nothing that its cover does not match. */
  lemma CoversIsSubset(outer: Entry, inner: Entry, a: Address)
    requires Covers(outer, inner) && EntryMatches(inner, a)
    ensures EntryMatches(outer, a)
  {
    match (outer, inner) {
      case (Block(o), Block(i)) =>
        InNetworkIsInterval(a, i);
        InNetworkIsInterval(a, o);
      case _ =>
    }
  }

  /** Between two blocks the test misses nothing: it is exactly inclusion of their addresses. */
  lemma SubnetIsInclusion(inner: Network, outer: Network)
    ensures SubnetOf(inner, outer) <==> forall a: Address :: InNetwork(a, inner) ==> InNetwork(a, outer)
  {
    if SubnetOf(inner, outer) {
      forall a: Address | InNetwork(a, inner) ensures InNetwork(a, outer) {
        CoversIsSubset(Block(outer), Block(inner), a);
      }
    } else {
      var lo, hi := FirstAddress(inner), LastAddress(inner);
      InNetworkIsInterval(lo, inner);
      InNetworkIsInterval(hi, inner);
      InNetworkIsInterval(lo, outer);
      InNetworkIsInterval(hi, outer);
    }
  }
}
