/** The routing table in terms of addresses as numbers: which addresses a network
    holds, and what a lookup finds among the entries that were made
    (device/allowed_ips.rs). */
module IpRanges {
  import opened Common
  import opened AllowedIps

  function Pow2(n: nat): (p: nat)
    ensures p > 0
  {
    if n == 0 then 1 else 2 * Pow2(n - 1)
  }

  /** The number a row of bits spells, the most significant first. */
  function Value(bits: seq<bool>): (v: nat)
    ensures v < Pow2(|bits|)
  {
    if bits == [] then 0 else 2 * Value(bits[..|bits| - 1]) + if bits[|bits| - 1] then 1 else 0
  }

  lemma {:induction false} ValueAppend(x: seq<bool>, y: seq<bool>)
    ensures Value(x + y) == Value(x) * Pow2(|y|) + Value(y)
  {
    if y == [] {
      assert x + y == x;
    } else {
      var n := |y| - 1;
      ValueAppend(x, y[..n]);
      assert (x + y)[..|x + y| - 1] == x + y[..n];
      Doubled(Value(x), Pow2(n), Value(y[..n]));
    }
  }

  lemma Doubled(a: nat, p: nat, b: nat)
    ensures 2 * (a * p + b) == a * (2 * p) + 2 * b
  {
  }

  lemma {:induction false} ValueInjective(x: seq<bool>, y: seq<bool>)
    requires |x| == |y| && Value(x) == Value(y)
    ensures x == y
  {
    if x != [] {
      ValueInjective(x[..|x| - 1], y[..|y| - 1]);
      assert x == x[..|x| - 1] + [x[|x| - 1]] && y == y[..|y| - 1] + [y[|y| - 1]];
    }
  }

  lemma Apart(a: nat, d: nat, p: nat)
    ensures (a + 1 + d) * p >= a * p + p
  {
    assert (a + 1 + d) * p == a * p + p + d * p;
  }

  lemma OneQuotient(a: nat, q: nat, p: nat, r: nat, s: nat)
    requires a * p + r == q * p + s && r < p && s < p
    ensures a == q
  {
    if a < q {
      Apart(a, q - a - 1, p);
    } else if q < a {
      Apart(q, a - q - 1, p);
    }
  }

  lemma QuotientOf(a: nat, p: nat, r: nat)
    requires r < p
    ensures (a * p + r) / p == a
  {
    var x := a * p + r;
    OneQuotient(a, x / p, p, r, x % p);
  }

  lemma ValuePrefix(bits: seq<bool>, n: nat)
    requires n <= |bits|
    ensures Value(bits[..n]) == Value(bits) / Pow2(|bits| - n)
  {
    assert bits == bits[..n] + bits[n..];
    ValueAppend(bits[..n], bits[n..]);
    QuotientOf(Value(bits[..n]), Pow2(|bits| - n), Value(bits[n..]));
  }

  // ---------------------------------------------------------------- octets

  lemma ValueStep(s: seq<bool>, k: nat)
    requires k < |s|
    ensures Value(s[..k + 1]) == 2 * Value(s[..k]) + if s[k] then 1 else 0
  {
    assert s[..k + 1][..k] == s[..k];
  }

  lemma Halved(n: nat, s: seq<bool>, k: nat)
    requires k < |s| && Value(s[..k]) == n / 2 && s[k] == (n % 2 == 1)
    ensures Value(s[..k + 1]) == n
  {
    ValueStep(s, k);
  }

  lemma HighBits(n: nat, s: seq<bool>)
    requires n < 256 && |s| == 8
    requires s[0] == (n / 128 % 2 == 1) && s[1] == (n / 64 % 2 == 1)
    requires s[2] == (n / 32 % 2 == 1) && s[3] == (n / 16 % 2 == 1)
    ensures Value(s[..4]) == n / 16
  {
    assert s[..0] == [];
    Halved(n / 128, s, 0);
    Halved(n / 64, s, 1);
    Halved(n / 32, s, 2);
    Halved(n / 16, s, 3);
  }

  lemma LowBits(n: nat, s: seq<bool>)
    requires n < 256 && |s| == 8 && Value(s[..4]) == n / 16
    requires s[4] == (n / 8 % 2 == 1) && s[5] == (n / 4 % 2 == 1)
    requires s[6] == (n / 2 % 2 == 1) && s[7] == (n % 2 == 1)
    ensures Value(s) == n
  {
    Halved(n / 8, s, 4);
    Halved(n / 4, s, 5);
    Halved(n / 2, s, 6);
    Halved(n, s, 7);
    assert s[..8] == s;
  }

  lemma OctetValue(b: byte)
    ensures Value(OctetBits(b)) == b
  {
    HighBits(b, OctetBits(b));
    LowBits(b, OctetBits(b));
  }

  lemma Regroup(x: seq<bool>, y: seq<bool>, z: seq<bool>)
    ensures x + (y + z) == (x + y) + z
  {
  }

  lemma {:induction false} OctetsAppend(o: Bytes, b: byte)
    ensures OctetsBits(o + [b]) == OctetsBits(o) + OctetBits(b)
  {
    if o == [] {
      assert o + [b] == [b] && [b][1..] == [];
      Regroup([], OctetBits(b), []);
    } else {
      OctetsAppend(o[1..], b);
      assert (o + [b])[1..] == o[1..] + [b];
      Regroup(OctetBits(o[0]), OctetsBits(o[1..]), OctetBits(b));
    }
  }

  /** The bits of an address spell its octets as a big-endian number. */
  lemma {:induction false} OctetsValue(o: Bytes)
    ensures Value(OctetsBits(o)) == FromBe(o)
  {
    if o != [] {
      var n := |o| - 1;
      OctetsValue(o[..n]);
      OctetsAppend(o[..n], o[n]);
      assert o[..n] + [o[n]] == o;
      ValueAppend(OctetsBits(o[..n]), OctetBits(o[n]));
      OctetValue(o[n]);
      EightBits();
    }
  }

  lemma EightBits()
    ensures Pow2(8) == 256
  {
    assert Pow2(4) == 16;
  }

  // ---------------------------------------------------------------- networks

  function Octets(addr: IpAddr): Bytes {
    match addr
    case V4(o) => o
    case V6(o) => o
  }

  function Width(addr: IpAddr): nat {
    if addr.V4? then 32 else 128
  }

  /** `addr` has the family of the configured address and agrees with it above the
      host part. */
  predicate Matches(ip: AllowedIP, addr: IpAddr)
    requires ip.Valid()
  {
    && ip.addr.V4? == addr.V4?
    && var host := Pow2(Width(addr) - ip.cidr);
       FromBe(Octets(ip.addr)) / host == FromBe(Octets(addr)) / host
  }

  lemma BitsValue(addr: IpAddr)
    ensures |Bits(addr)| == Width(addr) && Value(Bits(addr)) == FromBe(Octets(addr))
  {
    OctetsValue(Octets(addr));
  }

  lemma PrefixesAgreeIff(x: seq<bool>, y: seq<bool>, n: nat)
    requires |x| == |y| && n <= |x|
    ensures x[..n] <= y <==> Value(x) / Pow2(|x| - n) == Value(y) / Pow2(|x| - n)
  {
    ValuePrefix(x, n);
    ValuePrefix(y, n);
    assert x[..n] <= y <==> x[..n] == y[..n];
    if Value(x[..n]) == Value(y[..n]) {
      ValueInjective(x[..n], y[..n]);
    }
  }

  /** A network holds exactly the addresses that match it as numbers. */
  lemma HoldsIff(ip: AllowedIP, addr: IpAddr)
    requires ip.Valid()
    ensures Contains(Truncate(ip), addr) <==> Matches(ip, addr)
  {
    if ip.addr.V4? == addr.V4? {
      BitsValue(ip.addr);
      BitsValue(addr);
      PrefixesAgreeIff(Bits(ip.addr), Bits(addr), ip.cidr);
    }
  }

  lemma {:induction false} NumberInjective(a: Bytes, b: Bytes)
    requires |a| == |b| && FromBe(a) == FromBe(b)
    ensures a == b
  {
    if a != [] {
      NumberInjective(a[..|a| - 1], b[..|b| - 1]);
      assert a == a[..|a| - 1] + [a[|a| - 1]] && b == b[..|b| - 1] + [b[|b| - 1]];
    }
  }

  /** A /32 or /128 holds one address, a /0 a whole family. */
  lemma EndsOfTheRange(a: IpAddr, b: IpAddr)
    ensures Contains(Truncate(AllowedIP(a, Width(a))), b) <==> a == b
    ensures Contains(Truncate(AllowedIP(a, 0)), b) <==> a.V4? == b.V4?
  {
    HoldsIff(AllowedIP(a, Width(a)), b);
    if a.V4? == b.V4? && FromBe(Octets(a)) == FromBe(Octets(b)) {
      NumberInjective(Octets(a), Octets(b));
    }
  }

  // ---------------------------------------------------------------- lookups

  ghost predicate AllFit<D>(es: seq<(AllowedIP, D)>) {
    forall i :: 0 <= i < |es| ==> es[i].0.Valid()
  }

  /** The table after the entries were made in order. */
  function Entered<D>(es: seq<(AllowedIP, D)>): Table<D>
    requires AllFit(es)
  {
    if es == [] then map[]
    else Entered(es[..|es| - 1])[Truncate(es[|es| - 1].0) := es[|es| - 1].1]
  }

  /** Entry `i` is the last one made for its network. */
  ghost predicate LastFor<D>(es: seq<(AllowedIP, D)>, i: nat, net: Network)
    requires AllFit(es) && i < |es|
  {
    Truncate(es[i].0) == net && forall j :: i < j < |es| ==> Truncate(es[j].0) != net
  }

  lemma {:induction false} EnteredHolds<D>(es: seq<(AllowedIP, D)>, i: nat)
    requires AllFit(es) && i < |es|
    ensures Truncate(es[i].0) in Entered(es)
  {
    if i < |es| - 1 {
      EnteredHolds(es[..|es| - 1], i);
    }
  }

  lemma {:induction false} EnteredComesFrom<D>(es: seq<(AllowedIP, D)>, net: Network) returns (i: nat)
    requires AllFit(es) && net in Entered(es)
    ensures i < |es| && LastFor(es, i, net) && Entered(es)[net] == es[i].1
  {
    var last := |es| - 1;
    if net == Truncate(es[last].0) {
      i := last;
    } else {
      i := EnteredComesFrom(es[..last], net);
      StillLast(es, i, net);
    }
  }

  lemma StillLast<D>(es: seq<(AllowedIP, D)>, i: nat, net: Network)
    requires AllFit(es) && i < |es| - 1 && Truncate(es[|es| - 1].0) != net
    requires LastFor(es[..|es| - 1], i, net)
    ensures LastFor(es, i, net)
  {
    forall j | i < j < |es| ensures Truncate(es[j].0) != net {
      if j < |es| - 1 {
        assert es[..|es| - 1][j] == es[j];
      }
    }
  }

  /** Entry `i` answers for `addr`: it matches, and every other match is shorter or
      was overwritten by it. */
  ghost predicate Best<D>(es: seq<(AllowedIP, D)>, addr: IpAddr, i: nat)
    requires AllFit(es)
  {
    && i < |es| && Matches(es[i].0, addr)
    && forall j :: 0 <= j < |es| && Matches(es[j].0, addr) ==>
         es[j].0.cidr < es[i].0.cidr || (es[j].0.cidr == es[i].0.cidr && j <= i)
  }

  /** A lookup finds nothing exactly when no entry matches, and otherwise the longest
      match, the last one made among equals. */
  lemma LookupFinds<D>(es: seq<(AllowedIP, D)>, addr: IpAddr)
    requires AllFit(es)
    ensures var r := Find(Entered(es), addr);
            if r.None? then forall i :: 0 <= i < |es| ==> !Matches(es[i].0, addr)
            else exists i: nat :: Best(es, addr, i) && es[i].1 == r.value
  {
    var t := Entered(es);
    FindIsLongestMatch(t, addr);
    if Find(t, addr).None? {
      forall i | 0 <= i < |es| ensures !Matches(es[i].0, addr) {
        EnteredHolds(es, i);
        HoldsIff(es[i].0, addr);
      }
    } else {
      var net :| IsLongest(t, addr, net) && t[net] == Find(t, addr).value;
      var i := EnteredComesFrom(es, net);
      LongestIsBest(es, addr, i);
    }
  }

  lemma LongestIsBest<D>(es: seq<(AllowedIP, D)>, addr: IpAddr, i: nat)
    requires AllFit(es) && i < |es| && LastFor(es, i, Truncate(es[i].0))
    requires IsLongest(Entered(es), addr, Truncate(es[i].0))
    ensures Best(es, addr, i)
  {
    HoldsIff(es[i].0, addr);
    forall j | 0 <= j < |es| && Matches(es[j].0, addr)
      ensures es[j].0.cidr < es[i].0.cidr || (es[j].0.cidr == es[i].0.cidr && j <= i)
    {
      EnteredHolds(es, j);
      HoldsIff(es[j].0, addr);
      PrefixLength(es[j].0);
      PrefixLength(es[i].0);
      if es[j].0.cidr == es[i].0.cidr {
        SameLengthSameNetwork(es[i].0, es[j].0, addr);
      }
    }
  }

  lemma PrefixLength(ip: AllowedIP)
    requires ip.Valid()
    ensures |Truncate(ip).prefix| == ip.cidr
  {
  }

  lemma SameLengthSameNetwork(a: AllowedIP, b: AllowedIP, addr: IpAddr)
    requires a.Valid() && b.Valid() && a.cidr == b.cidr
    requires Contains(Truncate(a), addr) && Contains(Truncate(b), addr)
    ensures Truncate(a) == Truncate(b)
  {
    PrefixLength(a);
    PrefixLength(b);
    assert Truncate(a).prefix == Bits(addr)[..a.cidr] == Truncate(b).prefix;
  }
}
