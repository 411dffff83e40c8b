/** Host enumeration for discovery (internal/modbus/discover.go:150-225): addresses are byte
    arrays counted up in place, subnet by subnet, with a count capped at a limit. */
module Hosts {
  import opened Seqs
  import opened ScanTypes

  // ----- addresses as numbers -----

  /** The big-endian value. */
  function Value(s: seq<Byte>): nat {
    if s == [] then 0 else Value(s[..|s| - 1]) * 256 + s[|s| - 1]
  }

  /** 256^n. */
  function Pow256(n: nat): (p: nat)
    ensures p > 0
  {
    if n == 0 then 1 else Pow256(n - 1) * 256
  }

  /** The address of n bytes with value v. */
  function Bytes(v: nat, n: nat): seq<Byte> {
    if n == 0 then [] else Bytes(v / 256, n - 1) + [v % 256]
  }

  lemma {:induction false} ValueFits(s: seq<Byte>)
    ensures Value(s) < Pow256(|s|)
  {
    if s != [] {
      ValueFits(s[..|s| - 1]);
    }
  }

  lemma {:induction false} ValueOfBytes(v: nat, n: nat)
    requires v < Pow256(n)
    ensures |Bytes(v, n)| == n && Value(Bytes(v, n)) == v
  {
    if n > 0 {
      ValueOfBytes(v / 256, n - 1);
    }
  }

  lemma {:induction false} BytesOfValue(s: seq<Byte>)
    ensures Bytes(Value(s), |s|) == s
  {
    if s != [] {
      BytesOfValue(s[..|s| - 1]);
    }
  }

  // ----- counting up -----

  /** One more, with carry. */
  function Inc(s: seq<Byte>): seq<Byte> {
    if s == [] then []
    else if s[|s| - 1] == 255 then Inc(s[..|s| - 1]) + [0]
    else s[..|s| - 1] + [s[|s| - 1] + 1]
  }

  lemma Succ(v: nat, p: nat)
    requires v < p && p > 0
    ensures (v + 1) % p == if v + 1 == p then 0 else v + 1
  {
  }

  /** Counting up adds one, modulo 256^n. */
  lemma {:induction false} IncAddsOne(s: seq<Byte>)
    ensures |Inc(s)| == |s| && Value(Inc(s)) == (Value(s) + 1) % Pow256(|s|)
  {
    if s != [] {
      var front := s[..|s| - 1];
      IncAddsOne(front);
      ValueFits(front);
      ValueFits(s);
      Succ(Value(s), Pow256(|s|));
      Succ(Value(front), Pow256(|front|));
    }
  }

  function Zeros(n: nat): seq<Byte> {
    seq(n, _ => 0)
  }

  /** A carry out of byte j. */
  lemma Carry(was: seq<Byte>, j: nat)
    requires j < |was| && was[j] == 255
    ensures Inc(was[..j + 1]) + Zeros(|was| - 1 - j) == Inc(was[..j]) + Zeros(|was| - j)
  {
    assert was[..j + 1][..j] == was[..j];
    assert Zeros(|was| - j) == [0] + Zeros(|was| - 1 - j);
  }

  /** No carry out of byte j. */
  lemma NoCarry(was: seq<Byte>, j: nat)
    requires j < |was| && was[j] != 255
    ensures Inc(was[..j + 1]) + Zeros(|was| - 1 - j) == was[..j] + [was[j] + 1] + Zeros(|was| - 1 - j)
  {
    assert was[..j + 1][..j] == was[..j];
  }

  /** Adds one to the address in place. */
  method IncIP(ip: array<Byte>)
    modifies ip
    ensures ip[..] == Inc(old(ip[..]))
  {
    ghost var was := ip[..];
    var n, j := ip.Length, ip.Length - 1;
    assert was[..n] == was && was + Zeros(0) == was && Inc(was) + Zeros(0) == Inc(was);
    while j >= 0
      invariant -1 <= j < n
      invariant forall k :: 0 <= k <= j ==> ip[k] == was[k]
      invariant forall k :: j < k < n ==> ip[k] == 0
      invariant Inc(was) == Inc(was[..j + 1]) + Zeros(n - 1 - j)
    {
      var b: int := ip[j];
      ip[j] := (b + 1) % 256;
      if ip[j] != 0 {
        NoCarry(was, j);
        assert ip[..] == was[..j] + [was[j] + 1] + Zeros(n - 1 - j);
        return;
      }
      Carry(was, j);
      j := j - 1;
    }
    assert ip[..] == Zeros(n);
  }

  // ----- networks -----

  /** A parsed CIDR: addresses of so many bytes, the first bits of which are those of the
      address with value addr. */
  datatype Subnet = Subnet(bytes: nat, bits: nat, addr: nat)
  {
    predicate Valid() {
      (bytes == 4 || bytes == 16) && bits <= 8 * bytes && addr < Pow256(bytes)
    }

    /** The number of addresses. */
    function Size(): (n: nat)
      requires Valid()
      ensures n > 0
    {
      Pow2(8 * bytes - bits)
    }

    /** The first address: addr with its host bits masked. */
    function Base(): nat
      requires Valid()
    {
      addr / Size() * Size()
    }

    /** ip has the network's prefix. An IPv4-mapped address counts as an IPv4 one and is in
        no IPv6 network but one of mapped addresses. */
    predicate Contains(ip: seq<Byte>)
      requires Valid()
    {
      && |ip| == bytes && Value(ip) / Size() == addr / Size()
      && (bytes == 16 && IsMapped(Value(ip)) ==> IsMapped(Base()))
    }

    /** The IPv4-mapped addresses lie in the middle of the network. */
    predicate Straddles()
      requires Valid()
    {
      bytes == 16 && Base() < MAPPED < Base() + Size()
    }

    /** The number of addresses up to the first that the network does not contain. */
    function Span(): (n: nat)
      requires Valid()
      ensures 0 < n <= Size()
    {
      if Straddles() then MAPPED - Base() else Size()
    }

    /** The network is not the whole IPv4 address space. */
    predicate Ends() {
      bits >= 1 || bytes == 16
    }
  }

  /** The first IPv4-mapped IPv6 address, ::ffff:0:0. */
  const MAPPED: nat := 0xFFFF_0000_0000

  predicate IsMapped(v: nat) {
    MAPPED <= v < MAPPED + 0x1_0000_0000
  }

  lemma {:induction false} Pow2Adds(a: nat, b: nat)
    ensures Pow2(a + b) == Pow2(a) * Pow2(b)
  {
    if a > 0 {
      Pow2Adds(a - 1, b);
    }
  }

  lemma {:induction false} Pow256IsPow2(n: nat)
    ensures Pow256(n) == Pow2(8 * n)
  {
    if n > 0 {
      Pow256IsPow2(n - 1);
      Pow2Adds(8 * (n - 1), 8);
      assert Pow2(8) == 256;
    }
  }

  lemma TimesAtLeast(p: int, q: int, y: nat)
    requires p < q
    ensures p * y + y <= q * y
  {
    assert (q - p - 1) * y >= 0;
    assert (q - p - 1) * y == q * y - p * y - y;
  }

  lemma DivBounds(v: nat, y: nat)
    requires y > 0
    ensures v / y * y <= v < v / y * y + y
  {
  }

  /** Two values have the same prefix if one lies in the other's block. */
  lemma SamePrefix(v: nat, addr: nat, size: nat)
    requires size > 0
    ensures v / size == addr / size <==> addr / size * size <= v < addr / size * size + size
  {
    var p, q := v / size, addr / size;
    DivBounds(v, size);
    if p < q {
      TimesAtLeast(p, q, size);
    } else if q < p {
      TimesAtLeast(q, p, size);
    }
  }

  lemma ContainsIs(net: Subnet, ip: seq<Byte>)
    requires net.Valid() && |ip| == net.bytes && Value(ip) <= net.Base() + net.Span()
    ensures net.Contains(ip) <==> net.Base() <= Value(ip) < net.Base() + net.Span()
  {
    SamePrefix(Value(ip), net.addr, net.Size());
  }

  lemma {:induction false} Pow256Grows(m: nat, n: nat)
    requires m <= n
    ensures Pow256(m) <= Pow256(n)
  {
    if m < n {
      Pow256Grows(m, n - 1);
    }
  }

  lemma MappedFits()
    ensures MAPPED < Pow256(16)
  {
    assert Pow256(3) == 0x100_0000 by {
      assert Pow256(1) == 256 && Pow256(2) == 0x1_0000;
    }
    assert Pow256(4) == 0x1_0000_0000;
    assert Pow256(5) == 0x100_0000_0000;
    assert Pow256(6) == 0x1_0000_0000_0000;
    Pow256Grows(6, 16);
  }

  lemma QuotientFits(v: nat, y: nat, n: nat)
    requires y > 0 && v < n * y
    ensures v / y < n && v / y * y + y <= n * y
  {
    var q := v / y;
    DivBounds(v, y);
    if q > n {
      TimesAtLeast(n, q, y);
    }
    TimesAtLeast(q, n, y);
  }

  lemma SpaceIsPrefixesTimesSize(net: Subnet)
    requires net.Valid()
    ensures Pow256(net.bytes) == Pow2(net.bits) * net.Size()
  {
    Pow256IsPow2(net.bytes);
    Pow2Adds(net.bits, 8 * net.bytes - net.bits);
  }

  /** A network lies inside the address space, and is not all of it unless its prefix is empty. */
  lemma NetworkFits(net: Subnet)
    requires net.Valid()
    ensures net.Base() + net.Size() <= Pow256(net.bytes)
    ensures net.bits >= 1 ==> net.Size() < Pow256(net.bytes)
    ensures net.bits == 0 ==> net.Base() == 0 && net.Size() == Pow256(net.bytes)
  {
    SpaceIsPrefixesTimesSize(net);
    Pow2Least(net.bits);
    Fits(net.addr, net.Size(), Pow2(net.bits));
  }

  lemma Pow2Least(k: nat)
    ensures if k == 0 then Pow2(k) == 1 else Pow2(k) >= 2
  {
  }

  lemma Fits(v: nat, y: nat, n: nat)
    requires y > 0 && v < n * y
    ensures v / y * y + y <= n * y
    ensures n >= 2 ==> y < n * y
    ensures n == 1 ==> v / y * y == 0 && y == n * y
  {
    QuotientFits(v, y, n);
    if n >= 2 {
      TimesAtLeast(1, n, y);
    }
  }

  /** Counting up from an address of a network leaves it exactly after its span: except for
      the whole IPv4 address space, which it never leaves. */
  lemma NextIsInside(net: Subnet, ip: seq<Byte>)
    requires net.Valid() && |ip| == net.bytes && net.Base() <= Value(ip) < net.Base() + net.Span()
    ensures net.Contains(ip)
    ensures net.Contains(Inc(ip)) <==> !net.Ends() || Value(ip) + 1 < net.Base() + net.Span()
    ensures net.Ends() && net.Contains(Inc(ip)) ==> Value(Inc(ip)) == Value(ip) + 1
  {
    var next := net.Contains(Inc(ip));
    var v, w, base, span, space := Value(ip), Value(Inc(ip)), net.Base(), net.Span(), Pow256(net.bytes);
    ContainsIs(net, ip);
    IncAddsOne(ip);
    ValueFits(ip);
    Succ(v, space);
    ContainsIs(net, Inc(ip));
    SpanFits(net);
    assert next <==> base <= w < base + span;
  }

  /** Only the span of the whole IPv4 address space is the whole space. */
  lemma SpanFits(net: Subnet)
    requires net.Valid()
    ensures net.Base() + net.Span() <= Pow256(net.bytes)
    ensures net.Span() == Pow256(net.bytes) <==> !net.Ends()
    ensures !net.Ends() ==> net.Base() == 0
  {
    NetworkFits(net);
    MappedFits();
  }

  // ----- the hosts of a network -----

  /** count addresses of n bytes from value lo on. */
  function Run(lo: nat, count: nat, n: nat): seq<seq<Byte>> {
    if count == 0 then [] else Run(lo, count - 1, n) + [Bytes(lo + count - 1, n)]
  }

  /** The value of the first host, and the number of hosts. */
  function FirstHost(net: Subnet): nat
    requires net.Valid()
  {
    if net.Span() <= 2 then net.Base() else net.Base() + 1
  }

  function HostCount(net: Subnet): nat
    requires net.Valid()
  {
    if net.Span() <= 2 then net.Span() else net.Span() - 2
  }

  /** All addresses of a span of one or two; otherwise all but the first and the last. */
  function HostsOf(net: Subnet): seq<seq<Byte>>
    requires net.Valid()
  {
    Run(FirstHost(net), HostCount(net), net.bytes)
  }

  lemma {:induction false} RunIs(lo: nat, count: nat, n: nat)
    ensures |Run(lo, count, n)| == count && forall i :: 0 <= i < count ==> Run(lo, count, n)[i] == Bytes(lo + i, n)
  {
    if count > 0 {
      RunIs(lo, count - 1, n);
    }
  }

  /** A run holds the addresses with the values from lo on, in order. */
  lemma RunAt(lo: nat, count: nat, n: nat, i: nat)
    requires lo + count <= Pow256(n) && i < count
    ensures |Run(lo, count, n)| == count && Run(lo, count, n)[i] == Bytes(lo + i, n)
    ensures |Bytes(lo + i, n)| == n && Value(Bytes(lo + i, n)) == lo + i
  {
    RunIs(lo, count, n);
    ValueOfBytes(lo + i, n);
  }

  lemma RunHolds(lo: nat, count: nat, n: nat, ip: seq<Byte>)
    requires lo + count <= Pow256(n) && |ip| == n
    ensures ip in Run(lo, count, n) <==> lo <= Value(ip) < lo + count
  {
    RunIs(lo, count, n);
    if ip in Run(lo, count, n) {
      var i :| 0 <= i < count && Run(lo, count, n)[i] == ip;
      RunAt(lo, count, n, i);
    }
    if lo <= Value(ip) < lo + count {
      RunAt(lo, count, n, Value(ip) - lo);
      BytesOfValue(ip);
    }
  }

  /** The address with value v of the network, and the one after it. */
  lemma Step(net: Subnet, v: nat)
    requires net.Valid() && net.Ends() && net.Base() <= v < net.Base() + net.Span()
    ensures net.Contains(Bytes(v, net.bytes)) && v < Pow256(net.bytes)
    ensures net.Contains(Inc(Bytes(v, net.bytes))) <==> v + 1 < net.Base() + net.Span()
    ensures v + 1 < net.Base() + net.Span() ==> Inc(Bytes(v, net.bytes)) == Bytes(v + 1, net.bytes)
  {
    var ip := Bytes(v, net.bytes);
    SpanFits(net);
    ValueOfBytes(v, net.bytes);
    NextIsInside(net, ip);
    BytesOfValue(Inc(ip));
    IncAddsOne(ip);
  }

  lemma HostsFit(net: Subnet)
    requires net.Valid()
    ensures net.Base() <= FirstHost(net) && FirstHost(net) + HostCount(net) <= net.Base() + net.Span() <= Pow256(net.bytes)
  {
    SpanFits(net);
  }

  /** The hosts come in increasing order, once each. */
  lemma HostsAscend(net: Subnet, i: nat, j: nat)
    requires net.Valid() && i < j < |HostsOf(net)|
    ensures Value(HostsOf(net)[i]) < Value(HostsOf(net)[j])
  {
    HostsFit(net);
    RunIs(FirstHost(net), HostCount(net), net.bytes);
    RunAt(FirstHost(net), HostCount(net), net.bytes, i);
    RunAt(FirstHost(net), HostCount(net), net.bytes, j);
  }

  /** They are the addresses of the network's span, but for its first and last one if there
      are more than two. */
  lemma HostsAreAssignable(net: Subnet, ip: seq<Byte>)
    requires net.Valid() && |ip| == net.bytes
    ensures ip in HostsOf(net) <==>
            && net.Base() <= Value(ip) < net.Base() + net.Span()
            && (net.Span() > 2 ==> Value(ip) != net.Base() && Value(ip) != net.Base() + net.Span() - 1)
  {
    HostsFit(net);
    RunHolds(FirstHost(net), HostCount(net), net.bytes, ip);
  }

  /** Address v is to be probed: it has the network's prefix, and is not the first or the
      last one of more than two. */
  ghost predicate Assignable(net: Subnet, v: nat)
    requires net.Valid()
  {
    && net.Base() <= v < net.Base() + net.Size()
    && (net.Size() > 2 ==> v != net.Base() && v != net.Base() + net.Size() - 1)
  }

  /** The hosts are exactly the assignable addresses of the network, unless the IPv4-mapped
      addresses lie in its middle: the enumeration stops in front of those. */
  lemma HostsAreExactIff(net: Subnet)
    requires net.Valid()
    ensures (forall ip :: |ip| == net.bytes ==> (ip in HostsOf(net) <==> Assignable(net, Value(ip)))) <==> !net.Straddles()
  {
    if net.Straddles() {
      var ip := Bytes(MAPPED, 16);
      MappedFits();
      ValueOfBytes(MAPPED, 16);
      HostsAreAssignable(net, ip);
      StraddlersAreLarge(net);
      assert Assignable(net, Value(ip));
    } else {
      forall ip | |ip| == net.bytes ensures ip in HostsOf(net) <==> Assignable(net, Value(ip)) {
        HostsAreAssignable(net, ip);
      }
    }
  }

  /** A network is aligned to its size, so one around the first mapped address ends beyond it. */
  lemma StraddlersAreLarge(net: Subnet)
    requires net.Valid() && net.Straddles()
    ensures MAPPED + 1 < net.Base() + net.Size() && net.Size() > 2
  {
    var size, base := net.Size(), net.Base();
    Pow2Halves(128 - net.bits);
    EvenTimes(net.addr / size, size);
    EvenAround(base, size, MAPPED);
  }

  lemma EvenAround(base: nat, size: nat, m: nat)
    requires ((size % 2 == 0 && base % 2 == 0) || size == 1) && m % 2 == 0 && base < m < base + size
    ensures m + 1 < base + size && size > 2
  {
  }

  lemma Pow2Halves(k: nat)
    ensures k >= 1 ==> Pow2(k) % 2 == 0
    ensures k == 0 ==> Pow2(k) == 1
  {
  }

  lemma EvenTimes(q: nat, y: nat)
    ensures y % 2 == 0 ==> q * y % 2 == 0
  {
    if y % 2 == 0 {
      var h := y / 2;
      assert q * y == 2 * (q * h);
    }
  }

  // ----- counting hosts -----

  /** The text of an address names an IPv4-mapped IPv6 address like the IPv4 one. */
  function HostName(ip: seq<Byte>): seq<Byte> {
    if |ip| == 16 && ip[..12] == Zeros(10) + [255, 255] then ip[12..] else ip
  }

  lemma {:induction false} ValueOfPrefix(s: seq<Byte>, k: nat)
    requires k <= |s|
    ensures Value(s) / Pow256(|s| - k) == Value(s[..k])
    decreases |s|
  {
    if k == |s| {
      assert s[..k] == s && Pow256(0) == 1;
    } else {
      var front, p := s[..|s| - 1], Pow256(|s| - 1 - k);
      ValueOfPrefix(front, k);
      assert front[..k] == s[..k];
      DivTwice(Value(front), s[|s| - 1], p);
    }
  }

  lemma DivTwice(v: nat, b: Byte, p: nat)
    requires p > 0
    ensures (v * 256 + b) / (p * 256) == v / p
  {
    var q, x := v / p, v * 256 + b;
    DivBounds(v, p);
    assert q * (p * 256) <= x < q * (p * 256) + p * 256;
    QuotientAt(x, p * 256, q);
  }

  lemma QuotientAt(x: nat, m: nat, q: nat)
    requires m > 0 && q * m <= x < q * m + m
    ensures x / m == q
  {
    ModIs(x, q, m, x - q * m);
    DivBounds(x, m);
    if q < x / m {
      TimesAtLeast(q, x / m, m);
    } else if x / m < q {
      TimesAtLeast(x / m, q, m);
    }
  }

  lemma SizeByBytes(net: Subnet, n: nat)
    requires net.Valid() && net.bits + 8 * n == 8 * net.bytes
    ensures net.Size() == Pow256(n)
  {
    Pow256IsPow2(n);
  }

  /** The same prefix is the same first bytes, if the prefix is k whole bytes. */
  lemma PrefixByBytes(address: seq<Byte>, ip: seq<Byte>, k: nat)
    requires |ip| == |address| && k <= |ip|
    ensures Value(ip) / Pow256(|ip| - k) == Value(address) / Pow256(|ip| - k) <==> ip[..k] == address[..k]
  {
    ValueOfPrefix(ip, k);
    ValueOfPrefix(address, k);
    SameValueSameBytes(ip[..k], address[..k]);
  }

  /** A network whose prefix is k whole bytes holds an address exactly if it begins with them;
      in an IPv6 network that may leave out mapped addresses. */
  lemma ContainsByBytes(net: Subnet, address: seq<Byte>, ip: seq<Byte>, k: nat)
    requires net.Valid() && |ip| == net.bytes == |address| && Value(address) == net.addr && net.bits == 8 * k && k <= net.bytes
    ensures net.Contains(ip) ==> ip[..k] == address[..k]
    ensures ip[..k] == address[..k] && net.bytes == 4 ==> net.Contains(ip)
  {
    SizeByBytes(net, net.bytes - k);
    PrefixByBytes(address, ip, k);
  }

  lemma SameValueSameBytes(s: seq<Byte>, t: seq<Byte>)
    requires |s| == |t|
    ensures Value(s) == Value(t) <==> s == t
  {
    BytesOfValue(s);
    BytesOfValue(t);
  }

  /** An IPv4-mapped address has the name of its last four bytes, any other one of its own. */
  lemma NameOfMapped(ip: seq<Byte>, prefix: seq<Byte>)
    requires |ip| == 16 && prefix == Zeros(10) + [255, 255]
    ensures HostName(ip) == if IsMapped(Value(ip)) then ip[12..] else ip
  {
    MappedByPrefix(ip);
    ValueOfMappedPrefix(prefix);
    SameValueSameBytes(ip[..12], prefix);
  }

  lemma MappedByPrefix(ip: seq<Byte>)
    requires |ip| == 16
    ensures IsMapped(Value(ip)) <==> Value(ip[..12]) == 0xFFFF
  {
    ValueOfPrefix(ip, 12);
    assert Pow256(4) == 0x1_0000_0000 by {
      assert Pow256(2) == 0x1_0000;
    }
  }

  lemma ValueOfMappedPrefix(prefix: seq<Byte>)
    requires prefix == Zeros(10) + [255, 255]
    ensures Value(prefix) == 0xFFFF
  {
    var front := prefix[..|prefix| - 1];
    assert front[..|front| - 1] == Zeros(10);
    ValueOfZeros(10);
    assert Value(front) == Value(front[..|front| - 1]) * 256 + 255;
    assert Value(prefix) == Value(front) * 256 + 255;
  }

  lemma {:induction false} ValueOfZeros(n: nat)
    ensures Value(Zeros(n)) == 0
  {
    if n > 0 {
      assert Zeros(n)[..n - 1] == Zeros(n - 1);
      ValueOfZeros(n - 1);
    }
  }

  ghost function NamesOf(hosts: seq<seq<Byte>>): set<seq<Byte>> {
    set ip | ip in hosts :: HostName(ip)
  }

  /** The counting visitor: hosts seen, up to one more than a limit. */
  class HostCounter {
    const limit: nat
    var seen: set<seq<Byte>>
    var n: nat
    /** Every host visited so far. */
    ghost var visited: seq<seq<Byte>>

    ghost predicate Valid()
      reads this
    {
      seen == NamesOf(visited) && n == |seen| <= limit + 1
    }

    constructor (limit: nat)
      ensures Valid() && this.limit == limit && visited == [] && n == 0
    {
      this.limit, seen, n, visited := limit, {}, 0, [];
    }

    /** Counts a host not seen before; false once there are more than the limit. */
    method Yield(ip: seq<Byte>) returns (more: bool)
      requires Valid() && n <= limit
      modifies this
      ensures Valid() && visited == old(visited) + [ip] && (more <==> n <= limit)
    {
      visited := visited + [ip];
      assert NamesOf(visited) == NamesOf(old(visited)) + {HostName(ip)};
      if HostName(ip) in seen {
        return true;
      }
      seen := seen + {HostName(ip)};
      n := n + 1;
      return n <= limit;
    }
  }

  /** A copy of ip, counted up. */
  method Successor(ip: array<Byte>) returns (next: array<Byte>)
    ensures fresh(next) && next[..] == Inc(ip[..])
  {
    next := new Byte[ip.Length](i requires 0 <= i < ip.Length reads ip => ip[i]);
    assert next[..] == ip[..];
    IncIP(next);
  }

  method NewIP(bytes: seq<Byte>) returns (ip: array<Byte>)
    ensures fresh(ip) && ip[..] == bytes
  {
    ip := new Byte[|bytes|](i requires 0 <= i < |bytes| => bytes[i]);
    assert ip[..] == bytes;
  }

  /** The addresses the enumeration visits: the hosts; in the whole IPv4 address space all
      addresses from 0.0.0.1 around to 0.0.0.0, before it comes to the first one again. */
  function Visits(net: Subnet): seq<seq<Byte>>
    requires net.Valid()
  {
    if net.Ends() then HostsOf(net) else Run(1, Pow256(net.bytes), net.bytes)
  }

  /** The enumeration comes to an end: at the end of the network, or when more than limit hosts
      are seen with those seen before. */
  ghost predicate Stops(net: Subnet, before: set<seq<Byte>>, limit: nat)
    requires net.Valid()
  {
    net.Ends() || |before + NamesOf(Visits(net))| > limit
  }

  /** Counting up is the same on values and on addresses, around the end of the space too. */
  lemma {:induction false} IncIsNext(v: nat, n: nat)
    ensures |Bytes(v, n)| == n && Inc(Bytes(v, n)) == Bytes(v + 1, n)
  {
    if n > 0 {
      IncIsNext(v / 256, n - 1);
      assert Bytes(v, n)[..n - 1] == Bytes(v / 256, n - 1);
      if v % 256 == 255 {
        assert (v + 1) / 256 == v / 256 + 1;
      } else {
        assert (v + 1) / 256 == v / 256;
      }
    }
  }

  /** Every IPv4 address lies in the whole IPv4 space. */
  lemma WholeHolds(net: Subnet, v: nat)
    requires net.Valid() && !net.Ends()
    ensures net.Contains(Bytes(v, net.bytes))
  {
    var ip := Bytes(v, net.bytes);
    IncIsNext(v, net.bytes);
    ValueFits(ip);
    SpanFits(net);
    ContainsIs(net, ip);
  }

  lemma {:induction false} ValueOfWrapped(v: nat, n: nat)
    ensures |Bytes(v, n)| == n && Value(Bytes(v, n)) == v % Pow256(n)
  {
    if n == 0 {
      assert Pow256(0) == 1;
    } else {
      ValueOfWrapped(v / 256, n - 1);
      assert Bytes(v, n)[..n - 1] == Bytes(v / 256, n - 1);
      ModTimes(v, Pow256(n - 1));
    }
  }

  lemma ModTimes(v: nat, p: nat)
    requires p > 0
    ensures v / 256 % p * 256 + v % 256 == v % (p * 256)
  {
    var q, w := v / 256 / p, v / 256 % p * 256 + v % 256;
    assert v / 256 == q * p + v / 256 % p;
    assert v == q * (p * 256) + w;
    assert 0 <= w < p * 256;
    ModIs(v, q, p * 256, w);
  }

  lemma ModIs(v: nat, q: nat, m: nat, w: nat)
    requires m > 0 && v == q * m + w && w < m
    ensures v % m == w
  {
    DivBounds(v, m);
    if q < v / m {
      TimesAtLeast(q, v / m, m);
    } else if v / m < q {
      TimesAtLeast(v / m, q, m);
    }
  }

  lemma WrappedApart(a: nat, b: nat, n: nat)
    requires 0 < a < b <= Pow256(n)
    ensures Bytes(a, n) != Bytes(b, n)
  {
    ValueOfWrapped(a, n);
    ValueOfWrapped(b, n);
    Succ(a - 1, Pow256(n));
    Succ(b - 1, Pow256(n));
  }

  /** Once around the space from the address 1 on, no address comes twice. */
  lemma {:induction false} NotAgain(b: nat, count: nat, n: nat)
    requires count < b <= Pow256(n)
    ensures Bytes(b, n) !in Run(1, count, n)
  {
    if count > 0 {
      NotAgain(b, count - 1, n);
      WrappedApart(count, b, n);
      LastOfRun(count, n);
    }
  }

  lemma LastOfRun(count: nat, n: nat)
    requires count > 0
    ensures Run(1, count, n) == Run(1, count - 1, n) + [Bytes(count, n)]
  {
  }

  ghost function Elements<T>(s: seq<T>): set<T> {
    set x | x in s
  }

  lemma OneElementMore<T>(s: seq<T>, x: T)
    requires x !in s
    ensures |Elements(s + [x])| == |Elements(s)| + 1
  {
    assert Elements(s + [x]) == Elements(s) + {x};
  }

  lemma {:induction false} OnceAround(count: nat, n: nat)
    requires count <= Pow256(n)
    ensures |Elements(Run(1, count, n))| == count
  {
    if count > 0 {
      OnceAround(count - 1, n);
      NotAgain(count, count - 1, n);
      OneElementMore(Run(1, count - 1, n), Bytes(count, n));
    }
  }

  /** IPv4 addresses are their own names. */
  lemma NamesOfIPv4(count: nat)
    ensures NamesOf(Run(1, count, 4)) == Elements(Run(1, count, 4))
  {
    RunIs(1, count, 4);
    forall ip | ip in Run(1, count, 4) ensures HostName(ip) == ip {
      var i :| 0 <= i < count && Run(1, count, 4)[i] == ip;
      IncIsNext(1 + i, 4);
    }
  }

  /** A counter within its limit has not been all around the space. */
  lemma NotAround(net: Subnet, counter: HostCounter, before: seq<seq<Byte>>, k: nat)
    requires net.Valid() && Stops(net, NamesOf(before), counter.limit) && !net.Ends() && k <= |Visits(net)|
    requires counter.Valid() && counter.n <= counter.limit && counter.visited == before + Visits(net)[..k]
    ensures k < |Visits(net)|
  {
    NamesOfTwo(before, Visits(net)[..k]);
    PartOfHosts(Visits(net), k);
  }

  /** With a limit below 2^32 every enumeration comes to an end. */
  lemma StopsBelow(net: Subnet, before: set<seq<Byte>>, limit: nat)
    requires net.Valid() && limit < 0x1_0000_0000
    ensures Stops(net, before, limit)
  {
    if !net.Ends() {
      assert Pow256(4) == 0x1_0000_0000;
      OnceAround(Pow256(4), 4);
      NamesOfIPv4(Pow256(4));
      SmallerSubset(NamesOf(Visits(net)), before + NamesOf(Visits(net)));
    }
  }

  lemma {:induction false} WrapsAround(v: nat, n: nat)
    requires v > 0
    ensures exists u :: 0 < u <= Pow256(n) && Bytes(u, n) == Bytes(v, n)
  {
    var p := Pow256(n);
    var u := if v % p == 0 then p else v % p;
    ValueOfWrapped(v, n);
    ValueOfWrapped(u, n);
    SelfWrapped(v, p);
    BytesOfValue(Bytes(v, n));
    BytesOfValue(Bytes(u, n));
  }

  lemma SelfWrapped(v: nat, p: nat)
    requires p > 0
    ensures p % p == 0 && v % p < p && v % p % p == v % p
  {
  }

  /** However far it counts around the space, the enumeration visits the same addresses. */
  lemma RunsAround(count: nat, n: nat, ip: seq<Byte>)
    requires ip in Run(1, count, n)
    ensures ip in Run(1, Pow256(n), n)
  {
    RunIs(1, count, n);
    var i :| 0 <= i < count && Run(1, count, n)[i] == ip;
    WrapsAround(1 + i, n);
    var u :| 0 < u <= Pow256(n) && Bytes(u, n) == Bytes(1 + i, n);
    RunIs(1, Pow256(n), n);
    assert Run(1, Pow256(n), n)[u - 1] == ip;
  }

  /** However far it counts around the space, it sees no more hosts than once around. */
  lemma AroundSeesNoMore(net: Subnet, before: seq<seq<Byte>>, k: nat)
    requires net.Valid() && !net.Ends()
    ensures |NamesOf(before + Run(1, k, net.bytes))| <= |NamesOf(before) + NamesOf(Visits(net))|
  {
    var run, all := Run(1, k, net.bytes), Visits(net);
    forall ip | ip in run ensures ip in all {
      RunsAround(k, net.bytes, ip);
    }
    NamesOfTwo(before, run);
    SmallerSubset(NamesOf(before + run), NamesOf(before) + NamesOf(all));
  }

  /** An enumeration that does not stop goes on for ever: at each of its addresses the next one
      is inside the network, and the hosts seen are within the limit after any number of visits. */
  lemma NeverStops(net: Subnet, before: seq<seq<Byte>>, limit: nat, k: nat)
    requires net.Valid() && !Stops(net, NamesOf(before), limit)
    ensures net.Contains(Inner(net, k)) && net.Contains(Inc(Inner(net, k))) && Inc(Inner(net, k)) == Inner(net, k + 1)
    ensures |NamesOf(before + Run(1, k, net.bytes))| <= limit
  {
    WholeInner(net, k);
    AroundSeesNoMore(net, before, k);
  }

  /** Yields the hosts of a network in order, until the counter has enough. */
  method ForEachAssignableHost(net: Subnet, counter: HostCounter) returns (ghost k: nat)
    requires net.Valid() && Stops(net, counter.seen, counter.limit) && counter.Valid() && counter.n <= counter.limit
    modifies counter
    ensures counter.Valid() && k <= |Visits(net)| && counter.visited == old(counter.visited) + Visits(net)[..k]
    ensures counter.n <= counter.limit ==> net.Ends() && k == |HostsOf(net)|
  {
    FirstThree(net);
    var first := NewIP(Bytes(net.Base(), net.bytes));
    var second := Successor(first);
    if !net.Contains(second[..]) {
      var more := YieldNext(counter, first[..], counter.visited, Visits(net), 0);
      return 1;
    }
    var third := Successor(second);
    if !net.Contains(third[..]) {
      k := YieldTwo(counter, first[..], second[..], Visits(net));
      return;
    }
    k := YieldInner(net, counter, second);
  }

  /** The first address of a network and the two after it tell whether it has one, two or
      more addresses. */
  lemma FirstThree(net: Subnet)
    requires net.Valid()
    ensures var first := Bytes(net.Base(), net.bytes); var second := Inc(first);
            && (!net.Contains(second) ==> net.Ends() && HostsOf(net) == [first])
            && (net.Contains(second) && !net.Contains(Inc(second)) ==> net.Ends() && HostsOf(net) == [first, second])
            && (net.Contains(second) && net.Contains(Inc(second)) ==> net.Span() > 2 && second == Bytes(net.Base() + 1, net.bytes))
  {
    if !net.Ends() {
      FirstOfWhole(net);
      return;
    }
    FirstOfSome(net);
  }

  lemma FirstOfSome(net: Subnet)
    requires net.Valid() && net.Ends()
    ensures var first := Bytes(net.Base(), net.bytes); var second := Inc(first);
            && (!net.Contains(second) ==> HostsOf(net) == [first])
            && (net.Contains(second) && !net.Contains(Inc(second)) ==> HostsOf(net) == [first, second])
            && (net.Contains(second) && net.Contains(Inc(second)) ==> net.Span() > 2 && second == Bytes(net.Base() + 1, net.bytes))
  {
    Step(net, net.Base());
    RunIs(net.Base(), net.Span(), net.bytes);
    if net.Span() >= 2 {
      Step(net, net.Base() + 1);
    }
    if net.Span() == 1 {
      assert Run(net.Base(), 1, net.bytes) == [Bytes(net.Base(), net.bytes)];
    } else if net.Span() == 2 {
      assert Run(net.Base(), 2, net.bytes) == [Bytes(net.Base(), net.bytes), Bytes(net.Base() + 1, net.bytes)];
    }
  }

  lemma FirstOfWhole(net: Subnet)
    requires net.Valid() && !net.Ends()
    ensures net.Span() > 2
    ensures var second := Inc(Bytes(net.Base(), net.bytes));
            net.Contains(second) && net.Contains(Inc(second)) && second == Bytes(net.Base() + 1, net.bytes)
  {
    SpanFits(net);
    Pow256Grows(1, 4);
    assert Pow256(1) == 256;
    IncIsNext(0, 4);
    IncIsNext(1, 4);
    WholeHolds(net, 1);
    WholeHolds(net, 2);
  }

  /** The hosts of a network of two addresses. */
  method YieldTwo(counter: HostCounter, first: seq<Byte>, second: seq<Byte>, ghost hosts: seq<seq<Byte>>) returns (ghost k: nat)
    requires counter.Valid() && counter.n <= counter.limit && hosts == [first, second]
    modifies counter
    ensures counter.Valid() && k <= 2 && counter.visited == old(counter.visited) + hosts[..k]
    ensures counter.n <= counter.limit ==> k == 2
  {
    var more := YieldNext(counter, first, counter.visited, hosts, 0);
    if !more {
      return 1;
    }
    more := YieldNext(counter, second, old(counter.visited), hosts, 1);
    return 2;
  }

  /** The loop over a network of more than two addresses, from its second one. */
  method YieldInner(net: Subnet, counter: HostCounter, second: array<Byte>) returns (ghost k: nat)
    requires net.Valid() && Stops(net, counter.seen, counter.limit) && counter.Valid() && counter.n <= counter.limit
    requires net.Span() > 2 && second[..] == Bytes(net.Base() + 1, net.bytes)
    modifies counter
    ensures counter.Valid() && k <= |Visits(net)| && counter.visited == old(counter.visited) + Visits(net)[..k]
    ensures counter.n <= counter.limit ==> net.Ends() && k == |HostsOf(net)|
  {
    ghost var hosts := Visits(net);
    var cur := second;
    k := 0;
    if !net.Ends() {
      NotAround(net, counter, counter.visited, 0);
    }
    HostStep(net, 0);
    while net.Contains(cur[..])
      invariant k <= |hosts| && (net.Ends() || k < |hosts|) && cur[..] == Inner(net, k) && net.Contains(cur[..])
      invariant counter.Valid() && counter.n <= counter.limit
      invariant counter.visited == old(counter.visited) + hosts[..k]
      decreases |hosts| - k
    {
      HostStep(net, k);
      var next := Successor(cur);
      if !net.Contains(next[..]) {
        break;
      }
      var more := YieldNext(counter, cur[..], old(counter.visited), hosts, k);
      k := k + 1;
      if !more {
        return;
      }
      if !net.Ends() {
        NotAround(net, counter, old(counter.visited), k);
      }
      cur := next;
    }
  }

  /** The address k places after the second one. */
  ghost function Inner(net: Subnet, k: nat): seq<Byte>
    requires net.Valid()
  {
    Bytes(net.Base() + 1 + k, net.bytes)
  }

  /** From the second address on, the next one is still inside exactly while there are hosts left. */
  lemma HostStep(net: Subnet, k: nat)
    requires net.Valid() && net.Span() > 2 && k <= |Visits(net)| && (net.Ends() || k < |Visits(net)|)
    ensures net.Contains(Inner(net, k)) && (net.Contains(Inc(Inner(net, k))) <==> k < |Visits(net)|)
    ensures k < |Visits(net)| ==> Inner(net, k) == Visits(net)[k] && Inc(Inner(net, k)) == Inner(net, k + 1)
  {
    if net.Ends() {
      SomeStep(net, k);
    } else {
      WholeStep(net, k);
    }
  }

  lemma SomeStep(net: Subnet, k: nat)
    requires net.Valid() && net.Ends() && net.Span() > 2 && k <= |HostsOf(net)|
    ensures net.Contains(Inner(net, k)) && (net.Contains(Inc(Inner(net, k))) <==> k < |HostsOf(net)|)
    ensures k < |HostsOf(net)| ==> Inner(net, k) == HostsOf(net)[k] && Inc(Inner(net, k)) == Inner(net, k + 1)
  {
    HostsAreInner(net);
    Step(net, net.Base() + 1 + k);
  }

  lemma HostsAreInner(net: Subnet)
    requires net.Valid() && net.Span() > 2
    ensures |HostsOf(net)| == net.Span() - 2 && forall k :: 0 <= k < |HostsOf(net)| ==> HostsOf(net)[k] == Inner(net, k)
  {
    RunIs(FirstHost(net), HostCount(net), net.bytes);
  }

  lemma WholeInner(net: Subnet, k: nat)
    requires net.Valid() && !net.Ends()
    ensures net.Contains(Inner(net, k)) && net.Contains(Inc(Inner(net, k)))
    ensures Inc(Inner(net, k)) == Inner(net, k + 1) && Inner(net, k) == Bytes(1 + k, net.bytes)
  {
    SpanFits(net);
    IncIsNext(1 + k, net.bytes);
    WholeHolds(net, 1 + k);
    WholeHolds(net, 2 + k);
  }

  lemma WholeStep(net: Subnet, k: nat)
    requires net.Valid() && !net.Ends() && k < |Visits(net)|
    ensures net.Contains(Inner(net, k)) && net.Contains(Inc(Inner(net, k)))
    ensures Inner(net, k) == Visits(net)[k] && Inc(Inner(net, k)) == Inner(net, k + 1)
  {
    WholeInner(net, k);
    RunIs(1, Pow256(net.bytes), net.bytes);
  }

  /** Yields the host after the first k of hosts. */
  method YieldNext(counter: HostCounter, ip: seq<Byte>, ghost before: seq<seq<Byte>>, ghost hosts: seq<seq<Byte>>, ghost k: nat)
    returns (more: bool)
    requires counter.Valid() && counter.n <= counter.limit
    requires k < |hosts| && ip == hosts[k] && counter.visited == before + hosts[..k]
    modifies counter
    ensures counter.Valid() && counter.visited == before + hosts[..k + 1] && (more <==> counter.n <= counter.limit)
  {
    more := counter.Yield(ip);
    assert hosts[..k + 1] == hosts[..k] + [hosts[k]];
  }

  /** Subnets; None is one that cannot be parsed. */
  ghost predicate Usable(subnets: seq<Option<Subnet>>) {
    forall i :: 0 <= i < |subnets| && subnets[i].Some? ==> subnets[i].value.Valid()
  }

  /** The distinct addresses visited for the first i subnets: their hosts. */
  ghost function DistinctHosts(subnets: seq<Option<Subnet>>, i: nat): set<seq<Byte>>
    requires Usable(subnets) && i <= |subnets|
  {
    if i == 0 then {}
    else
      DistinctHosts(subnets, i - 1) + if subnets[i - 1].Some? then NamesOf(Visits(subnets[i - 1].value)) else {}
  }

  lemma NamesOfTwo(a: seq<seq<Byte>>, b: seq<seq<Byte>>)
    ensures NamesOf(a + b) == NamesOf(a) + NamesOf(b)
  {
  }

  /** How many of the subnets from i on come before one that cannot be parsed. */
  function Parsed(subnets: seq<Option<Subnet>>, i: nat): (f: nat)
    requires i <= |subnets|
    ensures i <= f <= |subnets| && (f < |subnets| ==> subnets[f] == None)
    decreases |subnets| - i
  {
    if i == |subnets| || subnets[i] == None then i else Parsed(subnets, i + 1)
  }

  /** The enumeration of each subnet that is reached comes to an end. */
  ghost predicate AllStop(subnets: seq<Option<Subnet>>, limit: nat)
    requires Usable(subnets)
  {
    forall i :: 0 <= i < Parsed(subnets, 0) && subnets[i].Some? ==> Stops(subnets[i].value, DistinctHosts(subnets, i), limit)
  }

  /** Below 2^32 they all do. */
  lemma AllStopBelow(subnets: seq<Option<Subnet>>, limit: nat)
    requires Usable(subnets) && limit < 0x1_0000_0000
    ensures AllStop(subnets, limit)
  {
    forall i | 0 <= i < Parsed(subnets, 0) && subnets[i].Some? ensures Stops(subnets[i].value, DistinctHosts(subnets, i), limit) {
      StopsBelow(subnets[i].value, DistinctHosts(subnets, i), limit);
    }
  }

  /** The number of distinct hosts up to the limit, and one more than the limit beyond it; a
      subnet that cannot be parsed is an error (None) unless the limit is passed before it. */
  ghost function CappedCount(subnets: seq<Option<Subnet>>, limit: nat): Option<nat>
    requires Usable(subnets)
  {
    var parsed := Parsed(subnets, 0);
    var hosts := |DistinctHosts(subnets, parsed)|;
    if hosts > limit then Some(limit + 1) else if parsed < |subnets| then None else Some(hosts)
  }

  method DiscoverHostCountAtMost(subnets: seq<Option<Subnet>>, limit: nat) returns (count: Option<nat>)
    requires Usable(subnets) && AllStop(subnets, limit)
    ensures count == CappedCount(subnets, limit)
  {
    var counter := new HostCounter(limit);
    for i := 0 to |subnets|
      invariant counter.Valid() && counter.limit == limit && counter.n <= limit
      invariant Counted(subnets, i, counter.seen)
      invariant fresh(counter)
    {
      if subnets[i] == None {
        CountEnds(subnets, i, limit, counter.seen);
        return None;
      }
      CountSubnet(subnets, i, counter);
      if counter.n > limit {
        return Some(counter.n);
      }
    }
    CountEnds(subnets, |subnets|, limit, counter.seen);
    return Some(counter.n);
  }

  /** The first i subnets can be parsed, and their hosts are seen. */
  ghost predicate Counted(subnets: seq<Option<Subnet>>, i: nat, seen: set<seq<Byte>>)
    requires Usable(subnets) && i <= |subnets|
  {
    seen == DistinctHosts(subnets, i) && Parsed(subnets, 0) == Parsed(subnets, i)
  }

  lemma CountEnds(subnets: seq<Option<Subnet>>, i: nat, limit: nat, seen: set<seq<Byte>>)
    requires Usable(subnets) && i <= |subnets| && Counted(subnets, i, seen) && |seen| <= limit
    requires i == |subnets| || subnets[i] == None
    ensures CappedCount(subnets, limit) == if i == |subnets| then Some(|seen|) else None
  {
  }

  lemma PassedLimit(subnets: seq<Option<Subnet>>, i: nat, limit: nat, seen: set<seq<Byte>>)
    requires Usable(subnets) && i < |subnets| && subnets[i].Some? && Parsed(subnets, 0) == Parsed(subnets, i)
    requires seen <= DistinctHosts(subnets, i + 1) && |seen| > limit
    ensures CappedCount(subnets, limit) == Some(limit + 1)
  {
    ParsedOneMore(subnets, i);
    AtLeastSeen(subnets, i + 1, Parsed(subnets, 0), seen);
  }

  lemma ParsedOneMore(subnets: seq<Option<Subnet>>, i: nat)
    requires i < |subnets| && subnets[i].Some?
    ensures Parsed(subnets, i) == Parsed(subnets, i + 1) >= i + 1
  {
  }

  lemma AtLeastSeen(subnets: seq<Option<Subnet>>, i: nat, j: nat, seen: set<seq<Byte>>)
    requires Usable(subnets) && i <= j <= |subnets| && seen <= DistinctHosts(subnets, i)
    ensures |seen| <= |DistinctHosts(subnets, j)|
  {
    MoreSubnetsMoreHosts(subnets, i, j);
    SmallerSubset(seen, DistinctHosts(subnets, j));
  }

  /** Counts the hosts of subnet i. */
  method CountSubnet(subnets: seq<Option<Subnet>>, i: nat, counter: HostCounter)
    requires Usable(subnets) && AllStop(subnets, counter.limit) && i < |subnets| && subnets[i].Some?
    requires counter.Valid() && counter.n <= counter.limit && Counted(subnets, i, counter.seen)
    modifies counter
    ensures counter.Valid()
    ensures if counter.n <= counter.limit then Counted(subnets, i + 1, counter.seen)
            else CappedCount(subnets, counter.limit) == Some(counter.n)
  {
    ghost var before := counter.visited;
    var net := subnets[i].value;
    assert i < Parsed(subnets, i);
    ghost var k := ForEachAssignableHost(net, counter);
    if counter.n <= counter.limit {
      SubnetSeen(subnets, i, before, k);
    } else {
      LimitPassed(subnets, i, before, k, counter.limit);
    }
  }

  /** The first k hosts of subnet i are seen as well. */
  lemma SubnetSeen(subnets: seq<Option<Subnet>>, i: nat, before: seq<seq<Byte>>, k: nat)
    requires Usable(subnets) && i < |subnets| && subnets[i].Some? && Counted(subnets, i, NamesOf(before))
    requires k <= |Visits(subnets[i].value)|
    ensures var seen := NamesOf(before + Visits(subnets[i].value)[..k]);
            && seen <= DistinctHosts(subnets, i + 1)
            && (k == |Visits(subnets[i].value)| ==> Counted(subnets, i + 1, seen))
  {
    NamesOfTwo(before, Visits(subnets[i].value)[..k]);
    PartOfHosts(Visits(subnets[i].value), k);
  }

  lemma LimitPassed(subnets: seq<Option<Subnet>>, i: nat, before: seq<seq<Byte>>, k: nat, limit: nat)
    requires Usable(subnets) && i < |subnets| && subnets[i].Some? && Counted(subnets, i, NamesOf(before))
    requires k <= |Visits(subnets[i].value)| && |NamesOf(before + Visits(subnets[i].value)[..k])| > limit
    ensures CappedCount(subnets, limit) == Some(limit + 1)
  {
    SubnetSeen(subnets, i, before, k);
    PassedLimit(subnets, i, limit, NamesOf(before + Visits(subnets[i].value)[..k]));
  }

  lemma PartOfHosts(hosts: seq<seq<Byte>>, k: nat)
    requires k <= |hosts|
    ensures NamesOf(hosts[..k]) <= NamesOf(hosts) && (k == |hosts| ==> hosts[..k] == hosts)
  {
  }

  lemma {:induction false} MoreSubnetsMoreHosts(subnets: seq<Option<Subnet>>, i: nat, j: nat)
    requires Usable(subnets) && i <= j <= |subnets|
    ensures DistinctHosts(subnets, i) <= DistinctHosts(subnets, j)
    decreases j
  {
    if i < j {
      MoreSubnetsMoreHosts(subnets, i, j - 1);
    }
  }
}
