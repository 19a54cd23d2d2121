/** The network scanner: CIDR expansion in 32-bit arithmetic, and batched probing. */
module Scanner {
  import opened Text
  import opened JsBits

  datatype Expansion = Hosts(ips: seq<string>) | InvalidAddress

  // ---------------------------------------------------------------------------
  // The block of a CIDR, in modular arithmetic
  // ---------------------------------------------------------------------------

  /** A number that failed to parse takes part in bit operations as 0. */
  function OrZero(n: Option<int>): int {
    if n.Some? then n.value else 0
  }

  function ParseOctets(texts: seq<string>): (octets: seq<Option<int>>)
    ensures |octets| == |texts|
    ensures forall i | 0 <= i < |texts| :: octets[i] == ParseInt(texts[i])
  {
    seq(|texts|, i requires 0 <= i < |texts| => ParseInt(texts[i]))
  }

  /** The address modulo 2^32. */
  function Address(octets: seq<Option<int>>): (ip: nat)
    requires |octets| == 4
    ensures ip < TWO_32
  {
    if octets[3].None? then 0
    else
      var upper := 0x100_0000 * OrZero(octets[0]) + 0x1_0000 * OrZero(octets[1]);
      ToUint32(upper + 0x100 * OrZero(octets[2]) + octets[3].value)
  }

  /** How many low bits a prefix leaves to the hosts. */
  function HostBits(prefix: Option<int>): (k: nat)
    ensures k <= 32
  {
    if prefix == Some(0) then 32
    else if prefix.None? then 0
    else (32 - prefix.value) % 32
  }

  /** The four octets of a number, highest first. */
  function Octets(ip: nat): (octets: seq<nat>)
    ensures |octets| == 4
  {
    [ip / 256 / 256 / 256 % 256, ip / 256 / 256 % 256, ip / 256 % 256, ip % 256]
  }

  function Decs(numbers: seq<nat>): (texts: seq<string>)
    ensures |texts| == |numbers|
    ensures forall i | 0 <= i < |numbers| :: texts[i] == Dec(numbers[i])
  {
    if numbers == [] then [] else [Dec(numbers[0])] + Decs(numbers[1..])
  }

  /** `192.168.1.7` */
  function Dotted(ip: nat): string {
    Join(Decs(Octets(ip)), '.')
  }

  /** The texts of `first`, `first + 1`, ... */
  function Listed(first: nat, count: nat): (hosts: seq<string>)
    ensures |hosts| == count
    ensures forall i: nat | i < count :: hosts[i] == Dotted(first + i)
  {
    if count == 0 then [] else Listed(first, count - 1) + [Dotted(first + count - 1)]
  }

  /** At most 256 hosts, none when no address lies strictly inside the block. */
  function HostCount(network: nat, broadcast: nat): nat {
    var inside := broadcast - network - 1;
    if inside <= 0 then 0 else if inside < 256 then inside else 256
  }

  /** The first address of the aligned block of 2^k addresses around `ip` (section 3.1 of RFC 4632). */
  function NetworkOf(ip: nat, k: nat): (network: nat)
    ensures network <= ip
  {
    LowBitsIsMod(ip, k);
    ip - ip % Pow2(k)
  }

  function CidrParts(cidr: string): (string, Option<int>) {
    var parts := Split(cidr, '/');
    (parts[0], ParseInt(if |parts| >= 2 && parts[1] != "" then parts[1] else "32"))
  }

  /** The addresses strictly between network and broadcast, ascending, at most 256 of them. */
  function BlockHosts(ip: nat, k: nat): seq<string> {
    var network := NetworkOf(ip, k);
    Listed(network + 1, HostCount(network, network + Pow2(k) - 1))
  }

  function ExpandBlock(base: string, prefix: Option<int>): Expansion {
    var octets := ParseOctets(Split(base, '.'));
    if prefix == Some(32) then Hosts([base])
    else if |octets| != 4 then InvalidAddress
    else Hosts(BlockHosts(Address(octets), HostBits(prefix)))
  }

  function Expand(cidr: string): Expansion {
    var (base, prefix) := CidrParts(cidr);
    ExpandBlock(base, prefix)
  }

  /** A plain address, or one with prefix 32, is scanned as it is spelled. */
  lemma SingleHost(base: string)
    requires Lacks(base, '/')
    ensures Expand(base) == Expand(base + "/32") == Hosts([base])
  {
    Prefix32();
    SplitWhole(base, '/');
    assert base + "/32" == base + ['/'] + "32";
    SplitPrefix(base, "32", '/');
    SplitWhole("32", '/');
  }

  lemma Prefix32()
    ensures ParseInt("32") == Some(32)
  {
    assert Dec(3) == "3";
    assert Dec(32) == "32";
    ParseIntDec(32);
  }

  /** Any other prefix needs an address of four parts. */
  lemma NotAnAddress(base: string, prefix: nat)
    requires Lacks(base, '/') && |Split(base, '.')| != 4 && prefix != 32
    ensures Expand(base + "/" + Dec(prefix)) == InvalidAddress
  {
    assert base + "/" + Dec(prefix) == base + ['/'] + Dec(prefix);
    SplitPrefix(base, Dec(prefix), '/');
    SplitWhole(Dec(prefix), '/');
    ParseIntDec(prefix);
  }

  // ---------------------------------------------------------------------------
  // The same in signed 32-bit arithmetic
  // ---------------------------------------------------------------------------

  lemma SumModulo(x: int, y: int, z: int, d: int, x': int, y': int, z': int)
    requires ToUint32(x) == ToUint32(x') && ToUint32(y) == ToUint32(y') && ToUint32(z) == ToUint32(z')
    ensures ToUint32(x + y + z + d) == ToUint32(x' + y' + z' + d)
  {
    var a, b, c := x / TWO_32 - x' / TWO_32, y / TWO_32 - y' / TWO_32, z / TWO_32 - z' / TWO_32;
    assert x == x' + TWO_32 * a && y == y' + TWO_32 * b && z == z' + TWO_32 * c;
    Wraps(x' + y' + z' + d, a + b + c);
  }

  /** The signed sum of the octets; not a number when the last one is not. */
  method SignedAddress(octets: seq<Option<int>>) returns (ipNum: int)
    requires |octets| == 4
    ensures ToUint32(ipNum) == Address(octets)
  {
    if octets[3].None? {
      return 0;
    }
    ipNum := Combine(OrZero(octets[0]), OrZero(octets[1]), OrZero(octets[2]), octets[3].value);
  }

  method Combine(a: int, b: int, c: int, d: int) returns (ipNum: int)
    ensures ToUint32(ipNum) == ToUint32(0x100_0000 * a + 0x1_0000 * b + 0x100 * c + d)
  {
    var x, y, z := Shl(a, 24), Shl(b, 16), Shl(c, 8);
    ShiftedBytes(a);
    ShiftedBytes(b);
    ShiftedBytes(c);
    SumModulo(x, y, z, d, 0x100_0000 * a, 0x1_0000 * b, 0x100 * c);
    ipNum := x + y + z + d;
  }

  lemma CountModulo(x: int)
    ensures Count(x) == x % 32
  {
  }

  method MaskOf(prefix: Option<int>) returns (mask: nat)
    ensures Pow2(HostBits(prefix)) <= TWO_32 && mask == TWO_32 - Pow2(HostBits(prefix))
  {
    Pow2Of32();
    Pow2Grows(HostBits(prefix), 32);
    if prefix == Some(0) {
      return 0;
    }
    var shift := if prefix.Some? then 32 - prefix.value else 0;
    mask := Ushr(Shl(Not(0), shift), 0);
    CountModulo(shift);
    HighOnes(shift, HostBits(prefix));
  }

  /** `~0 << shift` has ones above the low bits. */
  lemma HighOnes(shift: int, k: nat)
    requires k < 32 && Count(shift) == k && Pow2(k) <= TWO_32
    ensures Ushr(Shl(Not(0), shift), 0) == TWO_32 - Pow2(k)
  {
    Pow2Of32();
    ShiftOnes(0, k);
    NoShift(Shl(Not(0), shift));
    ShiftsAllOnes(shift, k);
    SignedBack(ShiftLeft(TWO_32 - 1, k));
  }

  lemma ShiftsAllOnes(shift: int, k: nat)
    requires Count(shift) == k
    ensures Shl(Not(0), shift) == ToInt32(ShiftLeft(TWO_32 - 1, k))
  {
    assert ToUint32(Not(0)) == TWO_32 - 1;
  }

  lemma NetworkBits(ip: nat, k: nat)
    requires ip < TWO_32 && k <= 32
    ensures Pow2(k) <= TWO_32 && BitAnd(ip, TWO_32 - Pow2(k)) == NetworkOf(ip, k)
    ensures NetworkOf(ip, k) + Pow2(k) <= TWO_32 && LowBits(NetworkOf(ip, k), k) == 0
  {
    Pow2Of32();
    AndHighOnes(ip, 32, k);
    LowBitsIsMod(ip, k);
    BlockStart(ip, 32, k);
  }

  method NetworkAddress(ipNum: int, mask: nat, ghost k: nat) returns (network: nat)
    requires k <= 32 && Pow2(k) <= TWO_32 && mask == TWO_32 - Pow2(k)
    ensures network == NetworkOf(ToUint32(ipNum), k)
  {
    network := Ushr(And(ipNum, mask), 0);
    NetworkBits(ToUint32(ipNum), k);
    Same(mask);
    NoShift(And(ipNum, mask));
    SignedBack(BitAnd(ToUint32(ipNum), mask));
  }

  method BroadcastAddress(network: nat, mask: nat, ghost k: nat) returns (broadcast: nat)
    requires k <= 32 && network + Pow2(k) <= TWO_32 && mask == TWO_32 - Pow2(k) && LowBits(network, k) == 0
    ensures broadcast == network + Pow2(k) - 1
  {
    var wild := Wildcard(mask, Pow2(k));
    OrLowOnes(network, k);
    OrUnsigned(network, wild);
    broadcast := Ushr(Or(network, wild), 0);
  }

  method Wildcard(mask: nat, ghost block: nat) returns (wild: nat)
    requires 1 <= block <= TWO_32 && mask == TWO_32 - block
    ensures wild == block - 1
  {
    wild := Ushr(Not(mask), 0);
    NoShift(Not(mask));
    Same(mask);
    Same(block - 1);
    Wraps(block - 1, -1);
  }

  lemma ByteBits(u: nat)
    ensures BitAnd(u, 255) == u % 256
  {
    Pow2Of32();
    AndLowOnes(u, 8);
    LowByte(u);
  }

  lemma AndByte(u: nat)
    requires u < TWO_32
    ensures And(u, 255) == u % 256
  {
    ByteBits(u);
    AndUnsigned(u, 255);
  }

  method Octet(hostIp: nat, shift: nat) returns (o: nat)
    requires hostIp < TWO_32 && shift < 32
    ensures o == ShiftRight(hostIp, shift) % 256
  {
    var shifted := Ushr(hostIp, shift);
    UshrSmall(hostIp, shift);
    AndByte(shifted);
    o := And(shifted, 255);
  }

  lemma UshrSmall(u: nat, k: nat)
    requires u < TWO_32 && k < 32
    ensures Ushr(u, k) == ShiftRight(u, k) < TWO_32
  {
    Same(u);
    CountSmall(k);
  }

  lemma CountSmall(k: nat)
    requires k < 32
    ensures Count(k) == k
  {
    Same(k);
  }

  method HostText(hostIp: nat) returns (text: string)
    requires hostIp < TWO_32
    ensures text == Dotted(hostIp)
  {
    var a := Octet(hostIp, 24);
    var b := Octet(hostIp, 16);
    var c := Octet(hostIp, 8);
    var d := Octet(hostIp, 0);
    ShiftedRight(hostIp);
    assert [a, b, c, d] == Octets(hostIp);
    text := Join(Decs([a, b, c, d]), '.');
  }

  lemma ShiftedRight(x: nat)
    ensures ShiftRight(x, 8) == x / 256 && ShiftRight(x, 16) == x / 256 / 256
    ensures ShiftRight(x, 24) == x / 256 / 256 / 256 && ShiftRight(x, 0) == x
  {
    RightByByte(x, 16);
    RightByByte(x, 8);
    RightByByte(x, 0);
    RightByByte(x / 256, 8);
    RightByByte(x / 256, 0);
    RightByByte(x / 256 / 256, 0);
  }

  /** The signed 32-bit computation gives the modular result on every input. */
  method ExpandNetwork(cidr: string) returns (r: Expansion)
    ensures r == Expand(cidr)
  {
    var (base, prefix) := CidrParts(cidr);
    if prefix == Some(32) {
      return Hosts([base]);
    }
    var octets := ParseOctets(Split(base, '.'));
    if |octets| != 4 {
      return InvalidAddress;
    }
    var hosts := HostsInBlock(octets, prefix);
    r := Hosts(hosts);
  }

  method HostsInBlock(octets: seq<Option<int>>, prefix: Option<int>) returns (hosts: seq<string>)
    requires |octets| == 4
    ensures hosts == BlockHosts(Address(octets), HostBits(prefix))
  {
    var ipNum := SignedAddress(octets);
    var mask := MaskOf(prefix);
    var network := NetworkAddress(ipNum, mask, HostBits(prefix));
    NetworkBits(Address(octets), HostBits(prefix));
    var broadcast := BroadcastAddress(network, mask, HostBits(prefix));
    hosts := ListHosts(network, broadcast);
  }

  method ListHosts(network: nat, broadcast: nat) returns (hosts: seq<string>)
    requires broadcast < TWO_32
    ensures hosts == Listed(network + 1, HostCount(network, broadcast))
  {
    var hostCount := HostCount(network, broadcast);
    hosts := [];
    for i := 1 to hostCount + 1
      invariant hosts == Listed(network + 1, i - 1)
    {
      var host := HostText(network + i);
      hosts := hosts + [host];
    }
  }

  // ---------------------------------------------------------------------------
  // Printed networks
  // ---------------------------------------------------------------------------

  lemma DecsSplit(numbers: seq<nat>)
    requires numbers != []
    ensures Split(Join(Decs(numbers), '.'), '.') == Decs(numbers)
  {
    forall i | 0 <= i < |numbers|
      ensures Lacks(Decs(numbers)[i], '.')
    {
      assert Decs(numbers)[i] == Dec(numbers[i]);
    }
    SplitJoin(Decs(numbers), '.');
  }

  lemma DecsParse(numbers: seq<nat>, i: nat)
    requires i < |numbers|
    ensures ParseOctets(Decs(numbers))[i] == Some(numbers[i])
  {
    ParseIntDec(numbers[i]);
  }

  /** A printed address parses to itself. */
  lemma DottedParses(ip: nat)
    requires ip < TWO_32
    ensures |ParseOctets(Split(Dotted(ip), '.'))| == 4
    ensures Address(ParseOctets(Split(Dotted(ip), '.'))) == ip
  {
    var octets := Octets(ip);
    DecsSplit(octets);
    DecsParse(octets, 0);
    DecsParse(octets, 1);
    DecsParse(octets, 2);
    DecsParse(octets, 3);
    AddressMadeUp(ParseOctets(Decs(octets)), ip);
  }

  lemma AddressMadeUp(octets: seq<Option<int>>, ip: nat)
    requires ip < TWO_32 && |octets| == 4 && forall i | 0 <= i < 4 :: octets[i] == Some(Octets(ip)[i])
    ensures Address(octets) == ip
  {
    OctetsMakeUp(ip, octets[0].value, octets[1].value, octets[2].value, octets[3].value);
    Same(ip);
  }

  lemma OctetsMakeUp(ip: nat, a: nat, b: nat, c: nat, d: nat)
    requires ip < TWO_32
    requires a == ip / 256 / 256 / 256 % 256 && b == ip / 256 / 256 % 256 && c == ip / 256 % 256 && d == ip % 256
    ensures 0x100_0000 * a + 0x1_0000 * b + 0x100 * c + d == ip
  {
    var x := ip / 256;
    var y := x / 256;
    assert ip == 256 * x + d && x == 256 * y + c && y == 256 * (y / 256) + b;
    assert y / 256 < 256;
  }

  lemma {:induction false} JoinLacks(parts: seq<string>, sep: char, c: char)
    requires AllLack(parts, c) && sep != c
    ensures Lacks(Join(parts, sep), c)
  {
    if |parts| <= 1 {
    } else {
      JoinLacks(parts[1..], sep, c);
    }
  }

  lemma DottedLacksSlash(ip: nat)
    ensures Lacks(Dotted(ip), '/')
  {
    var texts := Decs(Octets(ip));
    forall i | 0 <= i < |texts|
      ensures Lacks(texts[i], '/')
    {
      assert texts[i] == Dec(Octets(ip)[i]);
    }
    JoinLacks(texts, '.', '/');
  }

  lemma CidrOf(ip: nat, p: nat)
    ensures CidrParts(Dotted(ip) + "/" + Dec(p)) == (Dotted(ip), Some(p))
  {
    DottedLacksSlash(ip);
    SplitPrefix(Dotted(ip), Dec(p), '/');
    SplitWhole(Dec(p), '/');
    ParseIntDec(p);
  }

  /** For every address and prefix from 0 to 31 the hosts are those of the aligned block around the address. */
  lemma ExpandsBlock(ip: nat, p: nat)
    requires ip < TWO_32 && p <= 31
    ensures Expand(Dotted(ip) + "/" + Dec(p)) == Hosts(BlockHosts(ip, 32 - p))
  {
    CidrOf(ip, p);
    ExpandSplits(Dotted(ip) + "/" + Dec(p), Dotted(ip), Some(p));
    BlockPrinted(ip, p);
  }

  lemma ExpandSplits(cidr: string, base: string, prefix: Option<int>)
    requires CidrParts(cidr) == (base, prefix)
    ensures Expand(cidr) == ExpandBlock(base, prefix)
  {
  }

  lemma BlockPrinted(ip: nat, p: nat)
    requires ip < TWO_32 && p <= 31
    ensures ExpandBlock(Dotted(ip), Some(p)) == Hosts(BlockHosts(ip, 32 - p))
  {
    DottedParses(ip);
    PrefixBits(p);
    BlockOf(Dotted(ip), Some(p), ip, 32 - p);
  }

  lemma PrefixBits(p: nat)
    requires p <= 31
    ensures HostBits(Some(p)) == 32 - p
  {
  }

  lemma BlockOf(base: string, prefix: Option<int>, ip: nat, k: nat)
    requires prefix != Some(32) && k == HostBits(prefix)
    requires |ParseOctets(Split(base, '.'))| == 4 && Address(ParseOctets(Split(base, '.'))) == ip
    ensures ExpandBlock(base, prefix) == Hosts(BlockHosts(ip, k))
  {
  }

  /** A prefix beyond 32 counts modulo 32, as shift counts do; where that is 0, there is no host. */
  lemma PrefixWraps(ip: nat, p: nat)
    requires ip < TWO_32 && p > 32
    ensures Expand(Dotted(ip) + "/" + Dec(p)) ==
            if p % 32 == 0 then Hosts([]) else Expand(Dotted(ip) + "/" + Dec(p % 32))
  {
    var q := p % 32;
    BitsWrap(p);
    if q == 0 {
      PrefixBlock(ip, p, 0);
      NoHosts(ip);
    } else {
      PrefixBlock(ip, p, 32 - q);
      ExpandsBlock(ip, q);
    }
  }

  lemma PrefixBlock(ip: nat, p: nat, k: nat)
    requires ip < TWO_32 && p != 32 && k == HostBits(Some(p))
    ensures Expand(Dotted(ip) + "/" + Dec(p)) == Hosts(BlockHosts(ip, k))
  {
    CidrOf(ip, p);
    ExpandSplits(Dotted(ip) + "/" + Dec(p), Dotted(ip), Some(p));
    DottedParses(ip);
    BlockOf(Dotted(ip), Some(p), ip, k);
  }

  lemma NoHosts(ip: nat)
    ensures BlockHosts(ip, 0) == []
  {
    assert Pow2(0) == 1;
  }

  lemma BitsWrap(p: nat)
    requires p > 32
    ensures HostBits(Some(p)) == if p % 32 == 0 then 0 else 32 - p % 32
  {
  }

  /** They are the first min(2^k - 2, 256) addresses after the network address. */
  lemma BlockCount(ip: nat, k: nat)
    requires k >= 1
    ensures Pow2(k) >= 2
    ensures BlockHosts(ip, k) == Listed(NetworkOf(ip, k) + 1, if Pow2(k) - 2 < 256 then Pow2(k) - 2 else 256)
  {
    Pow2Grows(1, k);
  }

  lemma BlockHostAt(ip: nat, k: nat, i: nat)
    requires ip < TWO_32 && k <= 32
    ensures i < |BlockHosts(ip, k)| ==>
              && BlockHosts(ip, k)[i] == Dotted(NetworkOf(ip, k) + 1 + i)
              && NetworkOf(ip, k) + 1 + i < NetworkOf(ip, k) + Pow2(k) - 1 < TWO_32
  {
    NetworkBits(ip, k);
    CountFits(NetworkOf(ip, k), Pow2(k), i);
  }

  lemma CountFits(network: nat, size: nat, i: nat)
    requires size >= 1
    ensures i < HostCount(network, network + size - 1) ==> network + 1 + i < network + size - 1
  {
  }

  /** ... and each of them parses to its own number, strictly inside the block. */
  lemma HostsReparse(ip: nat, p: nat, i: nat)
    requires ip < TWO_32 && p <= 31
    ensures i < |BlockHosts(ip, 32 - p)| ==>
              var network := NetworkOf(ip, 32 - p);
              var octets := ParseOctets(Split(BlockHosts(ip, 32 - p)[i], '.'));
              |octets| == 4 && Address(octets) == network + 1 + i < network + Pow2(32 - p) - 1
  {
    BlockHostAt(ip, 32 - p, i);
    if i < |BlockHosts(ip, 32 - p)| {
      DottedParses(NetworkOf(ip, 32 - p) + 1 + i);
    }
  }

  // ---------------------------------------------------------------------------
  // Probing
  // ---------------------------------------------------------------------------

  datatype Target = Target(host: string, port: int)

  datatype Probe = Probe(target: Target, isMySQL: bool)

  function PortRange(first: int, last: int): seq<int> {
    seq(if last < first then 0 else last - first + 1, i => first + i)
  }

  /** Every port of the range, both ends included, in order. */
  lemma PortsExactly(first: int, last: int, p: int)
    ensures p in PortRange(first, last) <==> first <= p <= last
    ensures |PortRange(first, last)| == if first <= last then last - first + 1 else 0
    ensures forall i | 0 <= i < |PortRange(first, last)| :: PortRange(first, last)[i] == first + i
  {
    if first <= p <= last {
      assert PortRange(first, last)[p - first] == p;
    }
  }

  method ExpandPorts(first: int, last: int) returns (ports: seq<int>)
    ensures ports == PortRange(first, last)
  {
    ports := [];
    var p := first;
    while p <= last
      invariant first <= p && (p <= last + 1 || p == first)
      invariant ports == seq(p - first, i => first + i)
      decreases last - p
    {
      ports := ports + [p];
      p := p + 1;
    }
  }

  function Row(host: string, ports: seq<int>): seq<Target> {
    seq(|ports|, j requires 0 <= j < |ports| => Target(host, ports[j]))
  }

  /** Host by host, port by port. */
  function Product(hosts: seq<string>, ports: seq<int>): seq<Target> {
    if hosts == [] then [] else Row(hosts[0], ports) + Product(hosts[1..], ports)
  }

  lemma {:induction false} RowCount(host: string, ports: seq<int>, t: Target)
    ensures multiset(Row(host, ports))[t] == if t.host == host then multiset(ports)[t.port] else 0
  {
    if ports == [] {
    } else {
      RowCount(host, ports[1..], t);
      assert Row(host, ports) == [Target(host, ports[0])] + Row(host, ports[1..]);
      assert ports == [ports[0]] + ports[1..];
    }
  }

  lemma OneMore(m: nat, n: nat)
    ensures (m + 1) * n == m * n + n
  {
  }

  lemma HeadCount(hosts: seq<string>, host: string)
    requires hosts != []
    ensures multiset(hosts)[host] == multiset(hosts[1..])[host] + if hosts[0] == host then 1 else 0
  {
    assert hosts == [hosts[0]] + hosts[1..];
  }

  /** Every pair is targeted as often as its host and its port are listed. */
  lemma {:induction false} ProductCount(hosts: seq<string>, ports: seq<int>, t: Target)
    ensures multiset(Product(hosts, ports))[t] == multiset(hosts)[t.host] * multiset(ports)[t.port]
  {
    if hosts == [] {
    } else {
      RowCount(hosts[0], ports, t);
      ProductCount(hosts[1..], ports, t);
      HeadCount(hosts, t.host);
      assert multiset(Product(hosts, ports)) == multiset(Row(hosts[0], ports)) + multiset(Product(hosts[1..], ports));
      OneMore(multiset(hosts[1..])[t.host], multiset(ports)[t.port]);
    }
  }

  lemma {:induction false} ProductSnoc(hosts: seq<string>, host: string, ports: seq<int>)
    ensures Product(hosts + [host], ports) == Product(hosts, ports) + Row(host, ports)
  {
    if hosts == [] {
      assert hosts + [host] == [host];
    } else {
      assert (hosts + [host])[1..] == hosts[1..] + [host];
      ProductSnoc(hosts[1..], host, ports);
    }
  }

  method Targets(hosts: seq<string>, ports: seq<int>) returns (targets: seq<Target>)
    ensures targets == Product(hosts, ports)
  {
    targets := [];
    for i := 0 to |hosts|
      invariant targets == Product(hosts[..i], ports)
    {
      ghost var before := targets;
      for j := 0 to |ports|
        invariant targets == before + Row(hosts[i], ports)[..j]
      {
        targets := targets + [Target(hosts[i], ports[j])];
      }
      TakeSnoc(hosts, i);
      ProductSnoc(hosts[..i], hosts[i], ports);
    }
    assert hosts[..|hosts|] == hosts;
  }

  function Found(probes: seq<Probe>): (found: seq<Probe>)
    ensures |found| <= |probes|
  {
    if probes == [] then []
    else
      var head := Found(probes[..|probes| - 1]);
      if probes[|probes| - 1].isMySQL then head + [probes[|probes| - 1]] else head
  }

  /** The results are the probes that met MySQL, in the order they were made. */
  lemma {:induction false} FoundExactly(probes: seq<Probe>, more: seq<Probe>)
    ensures Found(probes + more) == Found(probes) + Found(more)
    ensures forall p :: p in Found(probes) <==> p in probes && p.isMySQL
    decreases |probes| + |more|
  {
    if more != [] {
      var all, last := probes + more, |more| - 1;
      assert all[..|all| - 1] == probes + more[..last];
      FoundExactly(probes, more[..last]);
    } else if probes != [] {
      assert probes + more == probes;
      var last := |probes| - 1;
      FoundExactly(probes[..last], []);
      assert probes == probes[..last] + [probes[last]];
    } else {
      assert probes + more == [];
    }
  }

  lemma FoundSnoc(log: seq<Target>, t: Target, probe: Target -> Probe)
    ensures Found(ProbeAll(log + [t], probe)) ==
            Found(ProbeAll(log, probe)) + if probe(t).isMySQL then [probe(t)] else []
  {
    var all := ProbeAll(log + [t], probe);
    assert all == ProbeAll(log, probe) + [probe(t)];
    assert all[..|all| - 1] == ProbeAll(log, probe);
  }

  function ProbeAll(targets: seq<Target>, probe: Target -> Probe): seq<Probe> {
    seq(|targets|, i requires 0 <= i < |targets| => probe(targets[i]))
  }

  lemma {:induction false} NoPortsNoTargets(hosts: seq<string>, ports: seq<int>)
    ensures hosts == [] || ports == [] ==> Product(hosts, ports) == []
  {
    if hosts == [] {
    } else {
      NoPortsNoTargets(hosts[1..], ports);
    }
  }

  /** Starts every probe of a batch, then counts the results. */
  method RunBatch(batch: seq<Target>, probe: Target -> Probe, log: seq<Target>, results: seq<Probe>)
    returns (log': seq<Target>, results': seq<Probe>, scanned: nat, found: nat)
    requires results == Found(ProbeAll(log, probe))
    ensures log' == log + batch && results' == Found(ProbeAll(log', probe))
    ensures scanned == |batch| && found == |results'| - |results|
  {
    var batchResults := ProbeAll(batch, probe);
    log', results', scanned, found := log, results, 0, 0;
    for k := 0 to |batchResults|
      invariant log' == log + batch[..k]
      invariant results' == Found(ProbeAll(log', probe))
      invariant scanned == k && found == |results'| - |results|
    {
      FoundSnoc(log', batch[k], probe);
      TakeSnoc(batch, k);
      log' := log' + [batch[k]];
      if batchResults[k].isMySQL {
        results' := results' + [batchResults[k]];
        found := found + 1;
      }
      scanned := scanned + 1;
    }
    assert batch[..|batch|] == batch;
  }

  /**
   Batches of `maxConcurrent` targets. `log` is every probe in the order it was started: each target
   once, in order, whatever the batch size.
   */
  method Scan(hosts: seq<string>, ports: seq<int>, probe: Target -> Probe, maxConcurrent: int)
    returns (results: seq<Probe>, scanned: nat, found: nat, log: seq<Target>)
    requires maxConcurrent > 0 || hosts == [] || ports == []
    ensures log == Product(hosts, ports)
    ensures results == Found(ProbeAll(log, probe))
    ensures scanned == |log| && found == |results|
  {
    var targets := Targets(hosts, ports);
    NoPortsNoTargets(hosts, ports);
    results, scanned, found, log := [], 0, 0, [];
    var i := 0;
    while i < |targets|
      invariant log == targets[..if i < |targets| then i else |targets|]
      invariant results == Found(ProbeAll(log, probe))
      invariant scanned == |log| && found == |results|
      decreases |targets| - i
    {
      var end := if i + maxConcurrent < |targets| then i + maxConcurrent else |targets|;
      assert targets[..i] + targets[i..end] == targets[..end];
      var s, f;
      log, results, s, f := RunBatch(targets[i..end], probe, log, results);
      scanned, found := scanned + s, found + f;
      i := i + maxConcurrent;
    }
    assert targets[..|targets|] == targets;
  }
}
