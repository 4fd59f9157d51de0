/** The device object: its tables are updated in place. */
module Devices {
  import opened Common
  import opened Crypto
  import opened AllowedIps
  import opened PeerIndex
  import opened Device

  class LiveDevice {
    var peers: map<Key, nat>
    var peersByIdx: map<nat, nat>
    const peersByIp: AllowedIpTable<nat>
    const nextIndex: IndexLfsr
    var key: Option<Key>
    var limiter: Option<Key>
    var store: seq<Peer>
    ghost var stopped: bool

    ghost function Model(): Tables
      reads this, peersByIp, nextIndex
    {
      Tables(peers, peersByIdx, peersByIp.ips, key, limiter, store, nextIndex.issued, stopped)
    }

    /** The indices issued are 24 bits, so the tables stay sound. */
    ghost predicate Valid()
      reads this, peersByIp, nextIndex
    {
      nextIndex.Valid() && Inv(Model())
    }

    constructor (seed: bv32, mask: bv32)
      requires InRange(seed) && InRange(mask)
      ensures Valid() && fresh(peersByIp) && fresh(nextIndex)
      ensures Model() == NewTables
    {
      peers, peersByIdx, store := map[], map[], [];
      key, limiter := None, None;
      stopped := false;
      peersByIp := new AllowedIpTable();
      nextIndex := new IndexLfsr(seed, mask);
    }

    /** The loop over the peers. */
    method Rekey(newKey: Key)
      modifies this`store
      ensures store == Rekeyed(peers, old(store), newKey)
    {
      ghost var before := store;
      for i := 0 to |store|
        invariant |store| == |before|
        invariant forall j :: 0 <= j < i ==> store[j] == Rekeyed(peers, before, newKey)[j]
        invariant forall j :: i <= j < |store| ==> store[j] == before[j]
      {
        if IsEntered(peers, store[i], i) {
          store := store[i := store[i].WithKey(newKey)];
        }
      }
    }

    /** A new key and a limiter made for it go to the tunnel of every configured peer. */
    method SetKey(newKey: Key)
      requires Valid()
      modifies this
      ensures Valid() && Model() == Device.SetKey(old(Model()), newKey)
    {
      SetKeyKeepsInv(Model(), newKey);
      if key != Some(newKey) {
        Rekey(newKey);
        key := Some(newKey);
        limiter := Some(newKey);
      }
    }

    /** Purge every reference to a peer. */
    method Purge(pub: Key)
      requires pub in peers ==> peers[pub] < |store|
      modifies this, peersByIp
      ensures Model() == RemovePeer(old(Model()), pub)
    {
      if pub in peers {
        var id := peers[pub];
        peers := peers - {pub};
        peersByIdx := peersByIdx - {store[id].index};
        peersByIp.Remove(x => x == id);
      }
    }

    method Remove(pub: Key)
      requires Valid()
      modifies this, peersByIp
      ensures Valid() && Model() == RemovePeer(old(Model()), pub)
    {
      RemoveKeepsInv(Model(), pub);
      Purge(pub);
    }

    /** Route each of the peer's networks to it. */
    method EnterRoutes(id: nat, ips: seq<AllowedIP>)
      requires AllValid(ips)
      modifies peersByIp
      ensures peersByIp.ips == old(peersByIp.ips) + Routes(Networks(ips), id)
    {
      for i := 0 to |ips|
        invariant peersByIp.ips == old(peersByIp.ips) + Routes(Networks(ips[..i]), id)
      {
        NetworksGrow(ips, i);
        RoutesGrow(old(peersByIp.ips), Networks(ips[..i]), Truncate(ips[i]), id);
        var _ := peersByIp.Insert(ips[i], id);
      }
      assert ips[..|ips|] == ips;
    }

    method EnterByKeys(peer: Peer)
      modifies this`peers, this`peersByIdx, this`store
      ensures store == old(store) + [peer]
      ensures peers == old(peers)[peer.publicKey := |old(store)|]
              && peersByIdx == old(peersByIdx)[peer.index := |old(store)|]
    {
      var id := |store|;
      store := store + [peer];
      peers := peers[peer.publicKey := id];
      peersByIdx := peersByIdx[peer.index := id];
    }

    /** Enter a new peer into all three tables. */
    method Enter(peer: Peer, ips: seq<AllowedIP>)
      requires AllValid(ips) && peer.allowed.Keys == Networks(ips)
      modifies this, peersByIp
      ensures Model() == Insert(old(Model()), peer)
    {
      var id := |store|;
      ghost var d := Model();
      EnterByKeys(peer);
      EnterRoutes(id, ips);
      InsertedTables(d, peer, Model());
    }

    /** `update_peer`.  Returns false where the program stops on an assertion: the
        peer is known already, or the generator has run out of indices. */
    method Update(pub: Key, remove: bool, ips: seq<AllowedIP>) returns (ok: bool)
      requires Valid() && AllValid(ips)
      modifies this, peersByIp, nextIndex
      ensures remove ==> ok && Model() == RemovePeer(old(Model()), pub)
      ensures !remove && pub in old(peers) ==> !ok
      ensures !remove && pub !in old(peers) ==>
                (!ok <==> Register(nextIndex.initial, |old(nextIndex.issued)| + 1) == nextIndex.initial)
      ensures ok && !remove ==>
                && |nextIndex.issued| == |old(nextIndex.issued)| + 1
                && Model() == AddPeer(old(Model()), pub, ips, Some(nextIndex.issued[|old(nextIndex.issued)|]))
      ensures ok ==> Valid()
    {
      if remove {
        Remove(pub);
        return true;
      }
      if pub in peers {
        return false;
      }
      var index := nextIndex.Next();
      if index.None? {
        return false;
      }
      AddKeepsInv(old(Model()), pub, ips, index);
      if key.Some? {
        Enter(NewPeer(pub, index.value, ips, key.value), ips);
      }
      return true;
    }

    method ClearAll()
      requires Valid()
      modifies this, peersByIp
      ensures Valid() && Model() == ClearPeers(old(Model()))
    {
      peers, peersByIdx := map[], map[];
      peersByIp.Clear();
      ClearKeepsInv(old(Model()));
    }

    /** The peer an incoming packet belongs to. */
    method PeerFor(receiverIdx: u32) returns (id: Option<nat>)
      requires Valid()
      ensures id == Dispatch(Model(), receiverIdx)
    {
      var key := receiverIdx / 256;
      id := if key in peersByIdx then Some(peersByIdx[key]) else None;
    }
  }
}
