/** What the tables of a device hold, told by its configuration history
    (device/mod.rs, `update_peer`, `remove_peer`, `clear_peers`, `set_key`). */
module Configuration {
  import opened Common
  import opened Crypto
  import opened AllowedIps
  import opened IpRanges
  import opened PeerIndex
  import Device

  /** The key in use, the allowed addresses of each configured peer, the number of
      indices drawn, and whether the program has stopped. */
  datatype Setup = Setup(key: Option<Key>, peers: map<Key, seq<AllowedIP>>, drawn: nat, stopped: bool)

  function Configured(seed: bv32, es: seq<Device.Step>): Setup {
    if es == [] then Setup(None, map[], 0, false)
    else Next(seed, Configured(seed, es[..|es| - 1]), es[|es| - 1])
  }

  function Next(seed: bv32, s: Setup, e: Device.Step): Setup {
    if s.stopped then s
    else
      match e
      case NewKey(key) => s.(key := Some(key))
      case Add(pub, ips) =>
        if pub in s.peers || Register(seed, s.drawn + 1) == seed then s.(stopped := true)
        else if s.key.None? then s.(drawn := s.drawn + 1)
        else s.(drawn := s.drawn + 1, peers := s.peers[pub := ips])
      case Remove(pub) => s.(peers := s.peers - {pub})
      case Clear => s.(peers := map[])
  }

  /** The peer with this key is there, with the networks of these addresses. */
  ghost predicate HoldsPeer(d: Device.Tables, pub: Key, ips: seq<AllowedIP>) {
    && AllValid(ips) && pub in d.peers && d.peers[pub] < |d.store|
    && d.store[d.peers[pub]].publicKey == pub
    && d.store[d.peers[pub]].allowed.Keys == Networks(ips)
  }

  ghost predicate Holds(d: Device.Tables, s: Setup) {
    && d.key == s.key && |d.draws| == s.drawn && d.stopped == s.stopped
    && d.peers.Keys == s.peers.Keys
    && forall pub :: pub in s.peers ==> HoldsPeer(d, pub, s.peers[pub])
  }

  lemma RemoveHolds(d: Device.Tables, s: Setup, pub: Key)
    requires Device.KeyInv(d) && Holds(d, s)
    ensures Holds(Device.RemovePeer(d, pub), s.(peers := s.peers - {pub}))
  {
    var d' := Device.RemovePeer(d, pub);
    var peers := s.peers - {pub};
    forall k | k in peers ensures HoldsPeer(d', k, peers[k]) {
      assert HoldsPeer(d, k, s.peers[k]);
    }
  }

  lemma KeyHolds(d: Device.Tables, s: Setup, key: Key)
    requires Device.KeyInv(d) && Holds(d, s)
    ensures Holds(Device.SetKey(d, key), s.(key := Some(key)))
  {
    Device.RekeyedAlike(d, key);
    forall k | k in s.peers ensures HoldsPeer(Device.SetKey(d, key), k, s.peers[k]) {
      assert HoldsPeer(d, k, s.peers[k]);
    }
  }

  lemma InsertHolds(d: Device.Tables, s: Setup, pub: Key, ips: seq<AllowedIP>, index: nat, key: Key)
    requires Holds(d, s) && AllValid(ips)
    ensures Holds(Device.Insert(d, Device.NewPeer(pub, index, ips, key)), s.(peers := s.peers[pub := ips]))
  {
    var p := Device.NewPeer(pub, index, ips, key);
    var d' := Device.Insert(d, p);
    assert d'.store[|d.store|] == p;
    assert Routes(Networks(ips), ()).Keys == Networks(ips);
    var peers := s.peers[pub := ips];
    forall k | k in peers ensures HoldsPeer(d', k, peers[k]) {
      if k != pub {
        assert HoldsPeer(d, k, s.peers[k]);
        assert d'.store[d.peers[k]] == d.store[d.peers[k]];
      }
    }
  }

  lemma AddHolds(seed: bv32, mask: bv32, d: Device.Tables, s: Setup, pub: Key, ips: seq<AllowedIP>)
    requires Holds(d, s) && AllValid(ips) && !s.stopped
    ensures Holds(Device.AddPeer(d, pub, ips, Device.NextDraw(seed, mask, |d.draws|)),
                  Next(seed, s, Device.Add(pub, ips)))
  {
    var draw := Device.NextDraw(seed, mask, |d.draws|);
    if pub !in d.peers && draw.Some? {
      var d1 := d.(draws := d.draws + [draw.value]);
      assert Holds(d1, s.(drawn := s.drawn + 1)) by {
        forall k | k in s.peers ensures HoldsPeer(d1, k, s.peers[k]) {
          assert HoldsPeer(d, k, s.peers[k]);
        }
      }
      if d.key.Some? {
        InsertHolds(d1, s.(drawn := s.drawn + 1), pub, ips, draw.value, d.key.value);
      }
    } else {
      forall k | k in s.peers ensures HoldsPeer(d.(stopped := true), k, s.peers[k]) {
        assert HoldsPeer(d, k, s.peers[k]);
      }
    }
  }

  /** After every history the tables hold exactly the peers that were added and not
      removed since, each with the networks it was given, and the program has stopped
      exactly when a known peer was added or the indices had run out. */
  lemma {:induction false} TablesHoldSetup(seed: bv32, mask: bv32, es: seq<Device.Step>)
    requires InRange(seed) && InRange(mask)
    ensures Holds(Device.Run(seed, mask, es), Configured(seed, es))
  {
    if es != [] {
      var before, e := es[..|es| - 1], es[|es| - 1];
      var d, s := Device.Run(seed, mask, before), Configured(seed, before);
      TablesHoldSetup(seed, mask, before);
      if !s.stopped {
        match e
        case NewKey(key) => KeyHolds(d, s, key);
        case Add(pub, ips) => AddHolds(seed, mask, d, s, pub, ips);
        case Remove(pub) => RemoveHolds(d, s, pub);
        case Clear =>
      }
    }
  }

  /** A peer accepts exactly the source addresses that match one of the addresses it
      was configured with. */
  lemma AllowedIff(d: Device.Tables, pub: Key, ips: seq<AllowedIP>, addr: IpAddr)
    requires HoldsPeer(d, pub, ips)
    ensures Device.IsAllowedIp(d.store[d.peers[pub]], addr) <==>
            exists i :: 0 <= i < |ips| && Matches(ips[i], addr)
  {
    var t := d.store[d.peers[pub]].allowed;
    FindIsLongestMatch(t, addr);
    if i :| 0 <= i < |ips| && Matches(ips[i], addr) {
      HoldsIff(ips[i], addr);
      assert Truncate(ips[i]) in t;
    }
    if n :| n in t && Contains(n, addr) {
      var i :| 0 <= i < |ips| && Truncate(ips[i]) == n;
      HoldsIff(ips[i], addr);
    }
  }
}
