/** The routing table from networks to peers (device/allowed_ips.rs).  The trie
    library underneath is taken as what it promises: a map from networks, found by
    longest match. */
module AllowedIps {
  import opened Common

  /** A network: the leading bits of an address, host bits dropped. */
  datatype Network = Network(v6: bool, prefix: seq<bool>)

  function OctetBits(b: byte): (s: seq<bool>)
    ensures |s| == 8
  {
    [b / 128 % 2 == 1, b / 64 % 2 == 1, b / 32 % 2 == 1, b / 16 % 2 == 1,
     b / 8 % 2 == 1, b / 4 % 2 == 1, b / 2 % 2 == 1, b % 2 == 1]
  }

  function OctetsBits(o: Bytes): (s: seq<bool>)
    ensures |s| == 8 * |o|
  {
    if o == [] then [] else OctetBits(o[0]) + OctetsBits(o[1..])
  }

  function Bits(addr: IpAddr): seq<bool> {
    match addr
    case V4(o) => OctetsBits(o)
    case V6(o) => OctetsBits(o)
  }

  /** A configured address and prefix length, within the bounds its parser
      enforces. */
  datatype AllowedIP = AllowedIP(addr: IpAddr, cidr: nat) {
    predicate Valid() {
      cidr <= if addr.V4? then 32 else 128
    }
  }

  /** `IpNetwork::new_truncate`. */
  function Truncate(ip: AllowedIP): Network
    requires ip.Valid()
  {
    Network(ip.addr.V6?, Bits(ip.addr)[..ip.cidr])
  }

  predicate Contains(net: Network, addr: IpAddr) {
    net.v6 == addr.V6? && net.prefix <= Bits(addr)
  }

  type Table<D> = map<Network, D>

  /** The entry for the longest prefix of `addr` no longer than `len`. */
  function MatchUpTo<D>(t: Table<D>, addr: IpAddr, len: nat): Option<D>
    requires len <= |Bits(addr)|
  {
    var net := Network(addr.V6?, Bits(addr)[..len]);
    if net in t then Some(t[net])
    else if len == 0 then None
    else MatchUpTo(t, addr, len - 1)
  }

  function Find<D>(t: Table<D>, addr: IpAddr): Option<D> {
    MatchUpTo(t, addr, |Bits(addr)|)
  }

  /** `net` holds `addr`, and no entry with a longer prefix does. */
  ghost predicate IsLongest<D>(t: Table<D>, addr: IpAddr, net: Network) {
    && net in t && Contains(net, addr)
    && forall n :: n in t && Contains(n, addr) ==> |n.prefix| <= |net.prefix|
  }

  lemma {:induction false} MatchUpToLongest<D>(t: Table<D>, addr: IpAddr, len: nat) returns (net: Network)
    requires len <= |Bits(addr)|
    requires forall n :: n in t && Contains(n, addr) ==> |n.prefix| <= len
    ensures MatchUpTo(t, addr, len).Some? ==> IsLongest(t, addr, net) && t[net] == MatchUpTo(t, addr, len).value
    ensures MatchUpTo(t, addr, len).None? ==> forall n :: n in t ==> !Contains(n, addr)
  {
    net := Network(addr.V6?, Bits(addr)[..len]);
    if net !in t {
      forall n | n in t && Contains(n, addr) ensures |n.prefix| < len {
        assert |n.prefix| == len ==> n == net;
      }
      if len > 0 {
        net := MatchUpToLongest(t, addr, len - 1);
      }
    }
  }

  /** `find` is the longest match: it answers exactly when some network holds the
      address, with the entry of the longest one. */
  lemma FindIsLongestMatch<D>(t: Table<D>, addr: IpAddr)
    ensures Find(t, addr).Some? <==> exists n :: n in t && Contains(n, addr)
    ensures Find(t, addr).Some? ==> exists n :: IsLongest(t, addr, n) && t[n] == Find(t, addr).value
  {
    forall n | n in t && Contains(n, addr) ensures |n.prefix| <= |Bits(addr)| {
    }
    var net := MatchUpToLongest(t, addr, |Bits(addr)|);
  }

  /** Two longest matches are the same network. */
  lemma LongestUnique<D>(t: Table<D>, addr: IpAddr, m: Network, n: Network)
    requires IsLongest(t, addr, m) && IsLongest(t, addr, n)
    ensures m == n
  {
    assert |m.prefix| == |n.prefix|;
    assert m.prefix == Bits(addr)[..|m.prefix|] == n.prefix;
  }

  predicate AllValid(ips: seq<AllowedIP>) {
    forall i :: 0 <= i < |ips| ==> ips[i].Valid()
  }

  /** The networks of a list of allowed addresses. */
  function Networks(ips: seq<AllowedIP>): set<Network>
    requires AllValid(ips)
  {
    set i | 0 <= i < |ips| :: Truncate(ips[i])
  }

  lemma NetworksGrow(ips: seq<AllowedIP>, i: nat)
    requires AllValid(ips) && i < |ips|
    ensures Networks(ips[..i + 1]) == Networks(ips[..i]) + {Truncate(ips[i])}
  {
    assert ips[..i + 1] == ips[..i] + [ips[i]];
    assert Truncate(ips[..i + 1][i]) in Networks(ips[..i + 1]);
    forall j | 0 <= j < i ensures Truncate(ips[j]) in Networks(ips[..i + 1]) {
      assert Truncate(ips[..i + 1][j]) in Networks(ips[..i + 1]);
    }
  }

  /** The entries that send a set of networks to one place. */
  function Routes<D>(nets: set<Network>, data: D): Table<D> {
    map n | n in nets :: data
  }

  lemma RoutesGrow<D>(t: Table<D>, nets: set<Network>, net: Network, data: D)
    ensures (t + Routes(nets, data))[net := data] == t + Routes(nets + {net}, data)
  {
  }

  /** The table object. */
  class AllowedIpTable<D> {
    var ips: Table<D>

    constructor ()
      ensures ips == map[]
    {
      ips := map[];
    }

    method Clear()
      modifies this
      ensures ips == map[]
    {
      ips := map[];
    }

    /** The address must come with a prefix length that fits it. */
    method Insert(ip: AllowedIP, data: D) returns (replaced: Option<D>)
      requires ip.Valid()
      modifies this
      ensures ips == old(ips)[Truncate(ip) := data]
      ensures replaced == if Truncate(ip) in old(ips) then Some(old(ips)[Truncate(ip)]) else None
    {
      var net := Truncate(ip);
      replaced := if net in ips then Some(ips[net]) else None;
      ips := ips[net := data];
    }

    method Remove(drop: D -> bool)
      modifies this
      ensures ips == map n | n in old(ips) && !drop(old(ips)[n]) :: old(ips)[n]
    {
      ips := map n | n in ips && !drop(ips[n]) :: ips[n];
    }

    method Lookup(addr: IpAddr) returns (r: Option<D>)
      ensures r.Some? ==> exists n :: IsLongest(ips, addr, n) && ips[n] == r.value
      ensures r.None? ==> forall n :: n in ips ==> !Contains(n, addr)
    {
      FindIsLongestMatch(ips, addr);
      r := Find(ips, addr);
    }
  }
}
