/** The peer tables of a device (device/mod.rs, `update_peer`, `remove_peer`,
    `clear_peers`, and the dispatch of incoming packets). */
module Device {
  import opened Common
  import opened Crypto
  import opened AllowedIps
  import opened PeerIndex
  import opened Tunnel
  import TI = TunnelInvariants
  import TR = TunnelRuns
  import HR = HandshakeRuns

  /** A peer as the tables see it.  `ownKey` is the public key of the private key
      its tunnel and its rate limiter use; `shared` says whether that limiter is the
      device's.  The tunnel runs by itself, see `Demultiplexing`. */
  datatype Peer = Peer(publicKey: Key, index: nat, allowed: Table<()>, ownKey: Key, shared: bool) {
    /** A new key comes with the device's new limiter. */
    function WithKey(key: Key): Peer {
      this.(ownKey := key, shared := true)
    }
  }

  function NewPeer(pub: Key, index: nat, ips: seq<AllowedIP>, ownKey: Key): Peer
    requires AllValid(ips)
  {
    Peer(pub, index, Routes(Networks(ips), ()), ownKey, false)
  }

  predicate IsAllowedIp(p: Peer, addr: IpAddr) {
    Find(p.allowed, addr).Some?
  }

  /** A peer object is identified by its place in `store`, the list of all peers
      ever created.  `limiter` is the key the device's rate limiter was made for.
      `draws` is the history of peer indices drawn.  `stopped` marks a
      failed assertion. */
  datatype Tables = Tables(
    peers: map<Key, nat>, peersByIdx: map<nat, nat>, peersByIp: Table<nat>, key: Option<Key>, limiter: Option<Key>,
    store: seq<Peer>, draws: seq<nat>, stopped: bool)

  const NewTables := Tables(map[], map[], map[], None, None, [], [], false)

  /** `set_key`: nothing happens for the key already in use; any other goes, with a
      new shared limiter, to the tunnel of every configured peer. */
  function SetKey(d: Tables, key: Key): Tables {
    if d.key == Some(key) then d
    else d.(key := Some(key), limiter := Some(key), store := Rekeyed(d.peers, d.store, key))
  }

  function Rekeyed(peers: map<Key, nat>, store: seq<Peer>, key: Key): seq<Peer> {
    seq(|store|, id requires 0 <= id < |store| =>
      if IsEntered(peers, store[id], id) then store[id].WithKey(key) else store[id])
  }

  /** The peer with this number is in the table of peers. */
  predicate IsEntered(peers: map<Key, nat>, p: Peer, id: nat) {
    p.publicKey in peers && peers[p.publicKey] == id
  }

  function RemovePeer(d: Tables, pub: Key): Tables
    requires pub in d.peers ==> d.peers[pub] < |d.store|
  {
    if pub !in d.peers then d
    else
      var id := d.peers[pub];
      d.(peers := d.peers - {pub},
         peersByIdx := d.peersByIdx - {d.store[id].index},
         peersByIp := map n | n in d.peersByIp && d.peersByIp[n] != id :: d.peersByIp[n])
  }

  /** The tables with a new peer in them; its networks now lead to it. */
  function Insert(d: Tables, p: Peer): Tables {
    var id := |d.store|;
    d.(peers := d.peers[p.publicKey := id],
       peersByIdx := d.peersByIdx[p.index := id],
       peersByIp := d.peersByIp + Routes(p.allowed.Keys, id),
       store := d.store + [p])
  }

  lemma InsertedTables(d: Tables, p: Peer, d': Tables)
    requires d'.peers == d.peers[p.publicKey := |d.store|] && d'.peersByIdx == d.peersByIdx[p.index := |d.store|]
    requires d'.peersByIp == d.peersByIp + Routes(p.allowed.Keys, |d.store|) && d'.store == d.store + [p]
    requires d'.key == d.key && d'.limiter == d.limiter && d'.draws == d.draws && d'.stopped == d.stopped
    ensures d' == Insert(d, p)
  {
  }

  /** Adding a peer: stops if the key is known or the indices have run out (`draw`
      is then `None`); draws an index even when no private key is set yet. */
  function AddPeer(d: Tables, pub: Key, ips: seq<AllowedIP>, draw: Option<nat>): Tables
    requires AllValid(ips)
  {
    if pub in d.peers || draw.None? then d.(stopped := true)
    else
      var d1 := d.(draws := d.draws + [draw.value]);
      if d.key.None? then d1 else Insert(d1, NewPeer(pub, draw.value, ips, d.key.value))
  }

  function ClearPeers(d: Tables): Tables {
    d.(peers := map[], peersByIdx := map[], peersByIp := map[])
  }

  /** The peer a data packet, response or cookie reply is dispatched to. */
  function Dispatch(d: Tables, receiverIdx: u32): Option<nat> {
    if receiverIdx / 256 in d.peersByIdx then Some(d.peersByIdx[receiverIdx / 256]) else None
  }

  // ---------------------------------------------------------------- the invariant

  /** The peer is in the table of peers. */
  predicate Live(d: Tables, id: nat) {
    id < |d.store| && IsEntered(d.peers, d.store[id], id)
  }

  /** `id` was the last peer ever given `net`. */
  ghost predicate LastGiven(d: Tables, net: Network, id: nat) {
    && id < |d.store| && net in d.store[id].allowed
    && forall j :: id < j < |d.store| ==> net !in d.store[j].allowed
  }

  ghost predicate KeyInv(d: Tables) {
    forall k :: k in d.peers ==> d.peers[k] < |d.store| && d.store[d.peers[k]].publicKey == k
  }

  ghost predicate StoreInv(d: Tables) {
    && NoDuplicates(d.draws)
    && (forall id :: 0 <= id < |d.store| ==> d.store[id].index in d.draws)
    && (forall i, j :: 0 <= i < j < |d.store| ==> d.store[i].index != d.store[j].index)
    && (forall id :: 0 <= id < |d.store| ==> d.store[id].index < 0x100_0000)
  }

  /** The device's limiter and every configured peer's tunnel use the key of the
      device. */
  ghost predicate OwnKeyInv(d: Tables) {
    d.limiter == d.key && forall id: nat :: Live(d, id) ==> d.key == Some(d.store[id].ownKey)
  }

  ghost predicate IdxInv(d: Tables) {
    && (forall x :: x in d.peersByIdx ==> Live(d, d.peersByIdx[x]) && d.store[d.peersByIdx[x]].index == x)
    && (forall id: nat :: Live(d, id) ==> d.store[id].index in d.peersByIdx && d.peersByIdx[d.store[id].index] == id)
  }

  /** A network leads to a peer exactly when that peer is configured and was the
      last one ever given the network. */
  ghost predicate IpInv(d: Tables) {
    forall n, id :: n in d.peersByIp && d.peersByIp[n] == id <==> Live(d, id) && LastGiven(d, n, id)
  }

  ghost predicate Inv(d: Tables) {
    KeyInv(d) && StoreInv(d) && OwnKeyInv(d) && IdxInv(d) && IpInv(d)
  }

  lemma RemoveLive(d: Tables, pub: Key, id: nat)
    requires KeyInv(d) && pub in d.peers
    ensures Live(RemovePeer(d, pub), id) <==> Live(d, id) && id != d.peers[pub]
  {
  }

  lemma RemoveKeepsIdx(d: Tables, pub: Key)
    requires KeyInv(d) && StoreInv(d) && IdxInv(d) && pub in d.peers
    ensures IdxInv(RemovePeer(d, pub))
  {
    var d', gone := RemovePeer(d, pub), d.peers[pub];
    forall id: nat ensures Live(d', id) <==> Live(d, id) && id != gone {
      RemoveLive(d, pub, id);
    }
    assert Live(d, gone);
    forall x | x in d'.peersByIdx ensures Live(d', d'.peersByIdx[x]) && d'.store[d'.peersByIdx[x]].index == x {
    }
    forall id: nat | Live(d', id)
      ensures d'.store[id].index in d'.peersByIdx && d'.peersByIdx[d'.store[id].index] == id
    {
    }
  }

  lemma RemoveKeepsIp(d: Tables, pub: Key)
    requires KeyInv(d) && IpInv(d) && pub in d.peers
    ensures IpInv(RemovePeer(d, pub))
  {
    var d' := RemovePeer(d, pub);
    forall n, id ensures n in d'.peersByIp && d'.peersByIp[n] == id <==> Live(d', id) && LastGiven(d', n, id) {
      RemoveLive(d, pub, id);
      assert LastGiven(d', n, id) <==> LastGiven(d, n, id);
    }
  }

  lemma RemoveKeepsOwnKey(d: Tables, pub: Key)
    requires KeyInv(d) && OwnKeyInv(d) && pub in d.peers
    ensures OwnKeyInv(RemovePeer(d, pub))
  {
    var d' := RemovePeer(d, pub);
    forall id: nat | Live(d', id) ensures d'.key == Some(d'.store[id].ownKey) {
      RemoveLive(d, pub, id);
    }
  }

  lemma RemoveKeepsInv(d: Tables, pub: Key)
    requires Inv(d)
    ensures Inv(RemovePeer(d, pub))
  {
    if pub in d.peers {
      RemoveKeepsIdx(d, pub);
      RemoveKeepsIp(d, pub);
      RemoveKeepsOwnKey(d, pub);
    }
  }

  lemma ClearKeepsInv(d: Tables)
    requires Inv(d)
    ensures Inv(ClearPeers(d))
  {
  }

  /** A peer that may be inserted: a new key and an index no other peer has. */
  ghost predicate Insertable(d: Tables, p: Peer) {
    && p.publicKey !in d.peers
    && p.index in d.draws && p.index < 0x100_0000 && d.key == Some(p.ownKey)
    && forall id :: 0 <= id < |d.store| ==> d.store[id].index != p.index
  }

  lemma InsertLive(d: Tables, p: Peer, id: nat)
    requires KeyInv(d) && p.publicKey !in d.peers
    ensures Live(Insert(d, p), id) <==> Live(d, id) || id == |d.store|
  {
  }

  lemma InsertKeepsStore(d: Tables, p: Peer)
    requires KeyInv(d) && StoreInv(d) && Insertable(d, p)
    ensures KeyInv(Insert(d, p)) && StoreInv(Insert(d, p))
  {
  }

  lemma InsertKeepsIdx(d: Tables, p: Peer)
    requires KeyInv(d) && StoreInv(d) && IdxInv(d) && Insertable(d, p)
    ensures IdxInv(Insert(d, p))
  {
    var d' := Insert(d, p);
    forall id: nat ensures Live(d', id) <==> Live(d, id) || id == |d.store| {
      InsertLive(d, p, id);
    }
    forall x | x in d'.peersByIdx ensures Live(d', d'.peersByIdx[x]) && d'.store[d'.peersByIdx[x]].index == x {
    }
    forall id: nat | Live(d', id)
      ensures d'.store[id].index in d'.peersByIdx && d'.peersByIdx[d'.store[id].index] == id
    {
    }
  }

  lemma InsertLastGiven(d: Tables, p: Peer, n: Network, id: nat)
    ensures LastGiven(Insert(d, p), n, id) <==> if n in p.allowed then id == |d.store| else LastGiven(d, n, id)
  {
    var d' := Insert(d, p);
    assert d'.store[|d.store|] == p;
    assert id < |d.store| ==> d'.store[id] == d.store[id];
    if id < |d.store| && n !in p.allowed {
      assert forall j :: id < j < |d.store| ==> d'.store[j] == d.store[j];
    }
  }

  lemma InsertKeepsIp(d: Tables, p: Peer)
    requires KeyInv(d) && IpInv(d) && Insertable(d, p)
    ensures IpInv(Insert(d, p))
  {
    var d' := Insert(d, p);
    forall n, id ensures n in d'.peersByIp && d'.peersByIp[n] == id <==> Live(d', id) && LastGiven(d', n, id) {
      InsertLastGiven(d, p, n, id);
      InsertLive(d, p, id);
    }
  }

  lemma InsertKeepsOwnKey(d: Tables, p: Peer)
    requires KeyInv(d) && OwnKeyInv(d) && Insertable(d, p)
    ensures OwnKeyInv(Insert(d, p))
  {
    forall id: nat | Live(Insert(d, p), id) ensures Insert(d, p).key == Some(Insert(d, p).store[id].ownKey) {
      InsertLive(d, p, id);
    }
  }

  lemma InsertKeepsInv(d: Tables, p: Peer)
    requires Inv(d) && Insertable(d, p)
    ensures Inv(Insert(d, p))
  {
    InsertKeepsStore(d, p);
    InsertKeepsIdx(d, p);
    InsertKeepsIp(d, p);
    InsertKeepsOwnKey(d, p);
  }

  /** The same peers in the same tables, apart from the keys of their tunnels. */
  predicate Alike(d: Tables, d': Tables) {
    && d'.peers == d.peers && d'.peersByIdx == d.peersByIdx && d'.peersByIp == d.peersByIp
    && |d'.store| == |d.store|
    && forall id :: 0 <= id < |d.store| ==>
         d'.store[id] == d.store[id].(ownKey := d'.store[id].ownKey, shared := d'.store[id].shared)
  }

  lemma AlikePeer(d: Tables, d': Tables, n: Network, id: nat)
    requires Alike(d, d')
    ensures Live(d', id) <==> Live(d, id)
    ensures LastGiven(d', n, id) <==> LastGiven(d, n, id)
  {
    assert forall j :: 0 <= j < |d.store| ==> d'.store[j].allowed == d.store[j].allowed;
  }

  lemma AlikeKeepsTables(d: Tables, d': Tables)
    requires Alike(d, d') && KeyInv(d) && IdxInv(d) && IpInv(d)
    ensures KeyInv(d') && IdxInv(d') && IpInv(d')
  {
    AlikeKeepsIdx(d, d');
    forall n, id ensures n in d'.peersByIp && d'.peersByIp[n] == id <==> Live(d', id) && LastGiven(d', n, id) {
      AlikePeer(d, d', n, id);
    }
  }

  lemma AlikeKeepsIdx(d: Tables, d': Tables)
    requires Alike(d, d') && KeyInv(d) && IdxInv(d)
    ensures KeyInv(d') && IdxInv(d')
  {
    assert forall id: nat :: Live(d', id) <==> Live(d, id);
    forall x | x in d'.peersByIdx ensures Live(d', d'.peersByIdx[x]) && d'.store[d'.peersByIdx[x]].index == x {
      assert Live(d, d.peersByIdx[x]);
    }
    forall id: nat | Live(d', id)
      ensures d'.store[id].index in d'.peersByIdx && d'.peersByIdx[d'.store[id].index] == id
    {
      assert Live(d, id);
    }
  }

  lemma RecordDraw(d: Tables, index: nat)
    requires Inv(d) && index !in d.draws
    ensures Inv(d.(draws := d.draws + [index]))
    ensures forall id :: 0 <= id < |d.store| ==> d.store[id].index != index
  {
    AlikeKeepsTables(d, d.(draws := d.draws + [index]));
  }

  lemma NewPeerInsertable(d: Tables, pub: Key, ips: seq<AllowedIP>, index: nat)
    requires AllValid(ips) && pub !in d.peers && index < 0x100_0000 && index in d.draws && d.key.Some?
    requires forall id :: 0 <= id < |d.store| ==> d.store[id].index != index
    ensures Insertable(d, NewPeer(pub, index, ips, d.key.value))
  {
  }

  lemma StopKeepsInv(d: Tables)
    requires Inv(d)
    ensures Inv(d.(stopped := true))
  {
    AlikeKeepsTables(d, d.(stopped := true));
  }

  lemma AddKeepsInv(d: Tables, pub: Key, ips: seq<AllowedIP>, draw: Option<nat>)
    requires Inv(d)
    requires AllValid(ips)
    requires draw.Some? ==> draw.value < 0x100_0000 && draw.value !in d.draws
    ensures Inv(AddPeer(d, pub, ips, draw))
  {
    if pub in d.peers || draw.None? {
      StopKeepsInv(d);
    } else {
      var d1 := d.(draws := d.draws + [draw.value]);
      RecordDraw(d, draw.value);
      if d.key.Some? {
        NewPeerInsertable(d1, pub, ips, draw.value);
        InsertKeepsInv(d1, NewPeer(pub, draw.value, ips, d.key.value));
      }
    }
  }

  // ---------------------------------------------------------------- runs

  datatype Event =
    | NewKey(key: Key)
    | Add(pub: Key, ips: seq<AllowedIP>)
    | Remove(pub: Key)
    | Clear
  {
    predicate Valid() {
      Add? ==> AllValid(ips)
    }
  }

  type Step = e: Event | e.Valid() witness Clear

  /** What the generator answers to its `k`-th call. */
  function NextDraw(seed: bv32, mask: bv32, k: nat): Option<nat> {
    if Register(seed, k + 1) == seed then None else Some(Scramble(Register(seed, k), mask) as nat)
  }

  function Apply(seed: bv32, mask: bv32, d: Tables, e: Step): Tables
    requires KeyInv(d)
  {
    if d.stopped then d
    else
      match e
      case NewKey(key) => SetKey(d, key)
      case Add(pub, ips) => AddPeer(d, pub, ips, NextDraw(seed, mask, |d.draws|))
      case Remove(pub) => RemovePeer(d, pub)
      case Clear => ClearPeers(d)
  }

  /** The draws so far came from the generator, which has not come round. */
  ghost predicate Generated(seed: bv32, mask: bv32, d: Tables) {
    && InRange(seed) && InRange(mask)
    && (forall i :: 0 <= i < |d.draws| ==> d.draws[i] == Scramble(Register(seed, i), mask) as nat)
    && (forall i :: 0 < i <= |d.draws| ==> Register(seed, i) != seed)
  }

  lemma FreshDraw(seed: bv32, mask: bv32, d: Tables)
    requires Generated(seed, mask, d) && NextDraw(seed, mask, |d.draws|).Some?
    ensures var i := NextDraw(seed, mask, |d.draws|).value;
            i < 0x100_0000 && i !in d.draws && Generated(seed, mask, d.(draws := d.draws + [i]))
  {
    IssuedDistinct(seed, mask, |d.draws| + 1);
  }

  lemma RekeyedAlike(d: Tables, key: Key)
    ensures Alike(d, SetKey(d, key))
  {
  }

  lemma AlikeKeepsStore(d: Tables, d': Tables)
    requires Alike(d, d') && d'.draws == d.draws && StoreInv(d)
    ensures StoreInv(d')
  {
    assert forall id :: 0 <= id < |d.store| ==> d'.store[id].index == d.store[id].index;
  }

  lemma RekeyedOwnKey(d: Tables, key: Key)
    requires OwnKeyInv(d)
    ensures OwnKeyInv(SetKey(d, key))
  {
    var d' := SetKey(d, key);
    forall id: nat | Live(d', id) ensures d'.key == Some(d'.store[id].ownKey) {
      assert Live(d, id);
    }
  }

  lemma SetKeyKeepsInv(d: Tables, key: Key)
    requires Inv(d)
    ensures Inv(SetKey(d, key))
  {
    RekeyedAlike(d, key);
    AlikeKeepsTables(d, SetKey(d, key));
    AlikeKeepsStore(d, SetKey(d, key));
    RekeyedOwnKey(d, key);
  }

  lemma SameDraws(seed: bv32, mask: bv32, d: Tables, d': Tables)
    requires Generated(seed, mask, d) && d'.draws == d.draws
    ensures Generated(seed, mask, d')
  {
  }

  /** What adding a peer draws. */
  lemma AddDraws(d: Tables, pub: Key, ips: seq<AllowedIP>, draw: Option<nat>)
    requires AllValid(ips)
    ensures AddPeer(d, pub, ips, draw).draws ==
            if pub in d.peers || draw.None? then d.draws else d.draws + [draw.value]
  {
  }

  lemma AddAppliedKeepsInv(seed: bv32, mask: bv32, d: Tables, pub: Key, ips: seq<AllowedIP>)
    requires Inv(d) && Generated(seed, mask, d) && AllValid(ips)
    ensures var d' := AddPeer(d, pub, ips, NextDraw(seed, mask, |d.draws|)); Inv(d') && Generated(seed, mask, d')
  {
    var draw := NextDraw(seed, mask, |d.draws|);
    var d' := AddPeer(d, pub, ips, draw);
    assert draw.Some? ==> draw.value < 0x100_0000 && draw.value !in d.draws by {
      if draw.Some? {
        FreshDraw(seed, mask, d);
      }
    }
    AddKeepsInv(d, pub, ips, draw);
    AddDraws(d, pub, ips, draw);
    if pub in d.peers || draw.None? {
      SameDraws(seed, mask, d, d');
    } else {
      FreshDraw(seed, mask, d);
      SameDraws(seed, mask, d.(draws := d.draws + [draw.value]), d');
    }
  }

  lemma ApplyKeepsInv(seed: bv32, mask: bv32, d: Tables, e: Step)
    requires Inv(d) && Generated(seed, mask, d)
    ensures Inv(Apply(seed, mask, d, e)) && Generated(seed, mask, Apply(seed, mask, d, e))
  {
    if !d.stopped {
      match e
      case NewKey(key) => SetKeyKeepsInv(d, key);
      case Add(pub, ips) => AddAppliedKeepsInv(seed, mask, d, pub, ips);
      case Remove(pub) => RemoveKeepsInv(d, pub);
      case Clear => ClearKeepsInv(d);
    }
  }

  /** The tables after any sequence of configuration calls, for a
      generator with the given seed and mask. */
  ghost function Run(seed: bv32, mask: bv32, es: seq<Step>): (d: Tables)
    requires InRange(seed) && InRange(mask)
    ensures Inv(d) && Generated(seed, mask, d)
  {
    if es == [] then NewTables
    else
      var before := Run(seed, mask, es[..|es| - 1]);
      ApplyKeepsInv(seed, mask, before, es[|es| - 1]);
      Apply(seed, mask, before, es[|es| - 1])
  }

  lemma DispatchFinds(d: Tables, id: nat, index: u32)
    requires Inv(d) && id < |d.store| && index / 256 == d.store[id].index
    ensures Dispatch(d, index) == if Live(d, id) then Some(id) else None
  {
    if index / 256 in d.peersByIdx {
      var other := d.peersByIdx[index / 256];
      assert Live(d, other) && d.store[other].index == d.store[id].index;
      assert other == id;
    }
  }

  /** The tunnel a peer was created with. */
  ghost predicate TunnelOf(c: Suite, p: Peer, t: Tunn)
    requires p.index < 0x100_0000
  {
    exists priv, psk, keepalive, own :: t == NewTunn(c, priv, p.publicKey, psk, keepalive, p.index, own)
  }

  /** A packet for the tunnel may carry `index`: a session of the ring, an initiation
      in flight or a cookie reply goes by it. */
  predicate Awaits(t: Tunn, index: u32) {
    || (exists i :: 0 <= i < N_SESSIONS && t.sessions[i].Some? && t.sessions[i].value.receivingIndex == index)
    || (t.handshake.state.InitSent? && t.handshake.state.sent.localIndex == index)
    || (t.handshake.previous.InitSent? && t.handshake.previous.sent.localIndex == index)
    || (t.handshake.cookies.lastMac1.Some? && t.handshake.cookies.index == index)
  }

  /** The tunnel issued `index` at some point of the run. */
  ghost predicate Issued(c: Suite, t0: Tunn, ms: seq<TR.Moment>, index: u32) {
    exists i :: 0 <= i <= |ms| && TR.Run(c, t0, ms[..i]).handshake.nextIndex == index
  }

  lemma AwaitedPrefix(t: Tunn, clock: nat, index: u32)
    requires TI.Inv(t, clock) && Awaits(t, index)
    requires t.handshake.cookies.lastMac1.Some? ==> t.handshake.cookies.index / 256 == t.handshake.nextIndex / 256
    ensures index / 256 == t.handshake.nextIndex / 256
  {
    HR.IncIndexCycles(index);
  }

  lemma StartPrefix(c: Suite, p: Peer, t0: Tunn)
    requires p.index < 0x100_0000 && TunnelOf(c, p, t0)
    ensures TR.New(c, t0) && TI.Inv(t0, 0) && t0.handshake.nextIndex / 256 == p.index
    ensures t0.handshake.cookies.lastMac1.None?
  {
    assert p.index * 256 < U32;
  }

  lemma TunnelPrefix(c: Suite, p: Peer, t0: Tunn, ms: seq<TR.Moment>)
    requires p.index < 0x100_0000 && TunnelOf(c, p, t0) && TR.Orderly(ms)
    ensures TR.Run(c, t0, ms).handshake.nextIndex / 256 == p.index
    ensures TI.Inv(TR.Run(c, t0, ms), TR.Clock(ms))
    ensures var h := TR.Run(c, t0, ms).handshake; h.cookies.lastMac1.Some? ==> h.cookies.index / 256 == p.index
  {
    StartPrefix(c, p, t0);
    TR.PrefixKept(c, t0, ms);
    TR.CookiePrefixKept(c, t0, ms);
    TR.RunKeepsInv(c, t0, ms);
  }

  lemma TunnelIndexPrefix(c: Suite, p: Peer, t0: Tunn, ms: seq<TR.Moment>, index: u32)
    requires p.index < 0x100_0000 && TunnelOf(c, p, t0) && TR.Orderly(ms)
    requires Awaits(TR.Run(c, t0, ms), index) || Issued(c, t0, ms, index)
    ensures index / 256 == p.index
  {
    if Awaits(TR.Run(c, t0, ms), index) {
      TunnelPrefix(c, p, t0, ms);
      AwaitedPrefix(TR.Run(c, t0, ms), TR.Clock(ms), index);
    } else {
      var i :| 0 <= i <= |ms| && TR.Run(c, t0, ms[..i]).handshake.nextIndex == index;
      TunnelPrefix(c, p, t0, ms[..i]);
    }
  }

  /** Demultiplexing: after any configuration history and any run of a peer's tunnel,
      every index it ever issued, and every index it now awaits packets for (in its
      ring, in flight or in a cookie reply), leads to that peer for as long as it is
      configured, and to no peer afterwards. */
  lemma Demultiplexing(seed: bv32, mask: bv32, es: seq<Step>, id: nat,
                       c: Suite, t0: Tunn, ms: seq<TR.Moment>, index: u32)
    requires InRange(seed) && InRange(mask) && id < |Run(seed, mask, es).store|
    requires TunnelOf(c, Run(seed, mask, es).store[id], t0) && TR.Orderly(ms)
    requires Awaits(TR.Run(c, t0, ms), index) || Issued(c, t0, ms, index)
    ensures var d := Run(seed, mask, es);
            Dispatch(d, index) == if Live(d, id) then Some(id) else None
  {
    var d := Run(seed, mask, es);
    TunnelIndexPrefix(c, d.store[id], t0, ms, index);
    DispatchFinds(d, id, index);
  }

  /** A longest-match hit is a configured peer whose own table accepts the
      address. */
  ghost predicate HitsAgree(d: Tables, addr: IpAddr) {
    Find(d.peersByIp, addr).Some? ==>
      var id := Find(d.peersByIp, addr).value; Live(d, id) && IsAllowedIp(d.store[id], addr)
  }

  /** The tables of keys and of indices hold the same peers. */
  ghost predicate SamePeers(d: Tables) {
    && (forall id: nat :: Live(d, id) <==> exists x :: x in d.peersByIdx && d.peersByIdx[x] == id)
    && (forall id: nat :: Live(d, id) <==> exists k :: k in d.peers && d.peers[k] == id)
  }

  lemma HitsAgreeFrom(d: Tables, addr: IpAddr)
    requires Inv(d)
    ensures HitsAgree(d, addr)
  {
    FindIsLongestMatch(d.peersByIp, addr);
    if Find(d.peersByIp, addr).Some? {
      var n :| IsLongest(d.peersByIp, addr, n) && d.peersByIp[n] == Find(d.peersByIp, addr).value;
      var id := d.peersByIp[n];
      assert Live(d, id) && LastGiven(d, n, id);
      FindIsLongestMatch(d.store[id].allowed, addr);
    }
  }

  lemma SamePeersFrom(d: Tables)
    requires Inv(d)
    ensures SamePeers(d)
  {
    forall id: nat | Live(d, id)
      ensures exists x :: x in d.peersByIdx && d.peersByIdx[x] == id
      ensures exists k :: k in d.peers && d.peers[k] == id
    {
      assert d.peersByIdx[d.store[id].index] == id;
      assert d.peers[d.store[id].publicKey] == id;
    }
  }

  /** Routing agreement: longest-match hits agree with the peers' own tables; each
      network leads to the last peer ever given it, if that peer is still
      configured, and nowhere otherwise; the tables hold the same peers. */
  lemma RoutingAgreement(seed: bv32, mask: bv32, es: seq<Step>, addr: IpAddr)
    requires InRange(seed) && InRange(mask)
    ensures var d := Run(seed, mask, es);
            && HitsAgree(d, addr)
            && IpInv(d)
            && SamePeers(d)
  {
    var d := Run(seed, mask, es);
    HitsAgreeFrom(d, addr);
    SamePeersFrom(d);
  }
}
