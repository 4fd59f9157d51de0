/** The Noise IK handshake as the program computes it (noise/handshake.rs;
    sections 5.4.2 to 5.4.5 and 5.4.7 of the WireGuard paper).  First the
    cryptographic content of each message, then the state of one `Handshake` and
    what every call does to it.  Random ephemeral keys, timestamps and clock
    readings are parameters. */
module Noise {
  import opened Common
  import opened Crypto
  import opened Sessions
  import opened Timestamps
  import opened Wire

  const LABEL_MAC1: Bytes := [109, 97, 99, 49, 45, 45, 45, 45]       // "mac1----"
  const LABEL_COOKIE: Bytes := [99, 111, 111, 107, 105, 101, 45, 45] // "cookie--"

  const INITIAL_CHAIN_KEY: Key := [
    96, 226, 109, 174, 243, 39, 239, 192, 46, 195, 53, 226, 160, 37, 210, 208] + [22, 235, 66, 6, 248,
    114, 119, 245, 45, 56, 209, 152, 139, 120, 205, 54]

  const INITIAL_CHAIN_HASH: Key := [
    34, 17, 179, 97, 8, 26, 197, 102, 105, 18, 67, 219, 69, 138, 213, 50] + [45, 156, 108, 102, 34,
    147, 232, 183, 14, 225, 156, 101, 186, 7, 158, 243]

  const ZERO_KEY: Key := Zeros(32)
  const ZERO_MAC: Mac := Zeros(16)

  // ---------------------------------------------------------------- parameters

  datatype Params = Params(
    staticPublic: Key,
    staticPrivate: Key,
    peerStaticPublic: Key,
    staticShared: Key,
    sendingMac1Key: Key,
    cookieKey: Key,
    presharedKey: Option<Key>
  ) {
    /** The pre-computed fields hold what they stand for. */
    predicate Coherent(c: Suite) {
      && staticPublic == c.pub(staticPrivate)
      && staticShared == c.dh(staticPrivate, peerStaticPublic)
      && sendingMac1Key == c.Hash2(LABEL_MAC1, peerStaticPublic)
      && cookieKey == c.Hash2(LABEL_COOKIE, peerStaticPublic)
    }

    /** `preshared_key.unwrap_or_default()`. */
    function Psk(): Key {
      if presharedKey.Some? then presharedKey.value else ZERO_KEY
    }
  }

  function NewParams(c: Suite, priv: Key, pub: Key, peer: Key, psk: Option<Key>): Params {
    Params(pub, priv, peer, c.dh(priv, peer), c.Hash2(LABEL_MAC1, peer), c.Hash2(LABEL_COOKIE, peer), psk)
  }

  // ---------------------------------------------------------------- messages

  function Seal0(c: Suite, key: Key, data: Bytes, aad: Bytes): Bytes {
    c.seal(key, CounterNonce(0), aad, data)
  }

  /** `aead_chacha20_open` into a buffer of `n` bytes. */
  function Open0(c: Suite, key: Key, data: Bytes, aad: Bytes, n: nat): (r: Result<Bytes>)
    ensures r.Ok? ==> |r.value| == n
  {
    match c.open(key, CounterNonce(0), aad, data)
    case Some(p) => if |p| == n then Ok(p) else Err(InvalidAeadTag)
    case None => Err(InvalidAeadTag)
  }

  datatype InitSentState = InitSentState(
    localIndex: u32, hash: Key, chainingKey: Key, ephemeralPrivate: Key, timeSent: nat)

  /** What the responder knows after reading an initiation. */
  datatype Received = Received(hash: Key, chainingKey: Key, peerEphemeral: Key, peerIndex: u32)

  /** Initiator: build the first message and the state that awaits its answer. */
  function MakeInitiation(c: Suite, p: Params, localIndex: u32, eph: Key, stamp: Stamp, now: nat)
    : (InitSentState, Packet)
  {
    var ephPub := c.pub(eph);
    var h1 := c.Hash2(c.Hash2(INITIAL_CHAIN_HASH, p.peerStaticPublic), ephPub);
    var ck1 := c.Kdf1(INITIAL_CHAIN_KEY, ephPub);
    var (ck2, k2) := c.Kdf2(ck1, c.dh(eph, p.peerStaticPublic));
    var encStatic := Seal0(c, k2, p.staticPublic, h1);
    var h2 := c.Hash2(h1, encStatic);
    var (ck3, k3) := c.Kdf2(ck2, p.staticShared);
    var encStamp := Seal0(c, k3, stamp, h2);
    var h3 := c.Hash2(h2, encStamp);
    (InitSentState(localIndex, h3, ck3, eph, now), HandshakeInit(localIndex, ephPub, encStatic, encStamp))
  }

  /** Both readers of an initiation begin alike: decrypt the sender's static key. */
  function OpenStatic(c: Suite, priv: Key, pub: Key, m: Packet): (Key, Key, Result<Bytes>)
    requires m.HandshakeInit?
  {
    var h1 := c.Hash2(c.Hash2(INITIAL_CHAIN_HASH, pub), m.ephemeral);
    var ck1 := c.Kdf1(INITIAL_CHAIN_KEY, m.ephemeral);
    var (ck2, k2) := c.Kdf2(ck1, c.dh(priv, m.ephemeral));
    (h1, ck2, Open0(c, k2, m.encryptedStatic, h1, 32))
  }

  datatype HalfHandshake = HalfHandshake(peerIndex: u32, peerStaticPublic: Key)

  /** `parse_handshake_anon`: which peer does an initiation claim to be from? */
  function ParseHandshakeAnon(c: Suite, priv: Key, pub: Key, m: Packet): Result<HalfHandshake>
    requires m.HandshakeInit?
  {
    var (_, _, r) := OpenStatic(c, priv, pub, m);
    if r.Err? then Err(r.error) else Ok(HalfHandshake(m.senderIdx, r.value))
  }

  /** Responder: read the first message up to its timestamp. */
  function OpenInitiation(c: Suite, p: Params, m: Packet): Result<(Received, Tai64N)>
    requires m.HandshakeInit?
  {
    var (h1, ck2, peerStatic) := OpenStatic(c, p.staticPrivate, p.staticPublic, m);
    if peerStatic.Err? then Err(peerStatic.error)
    else if peerStatic.value != p.peerStaticPublic then Err(WrongKey)
    else
      var h2 := c.Hash2(h1, m.encryptedStatic);
      var (ck3, k3) := c.Kdf2(ck2, p.staticShared);
      var stamp := Open0(c, k3, m.encryptedTimestamp, h2, 12);
      if stamp.Err? then Err(stamp.error)
      else
        var h3 := c.Hash2(h2, m.encryptedTimestamp);
        Ok((Received(h3, ck3, m.ephemeral, m.senderIdx), Parse(stamp.value)))
  }

  /** Responder: build the second message and the session. */
  function MakeResponse(c: Suite, p: Params, r: Received, localIndex: u32, eph: Key): (Packet, Session) {
    var ephPub := c.pub(eph);
    var h4 := c.Hash2(r.hash, ephPub);
    var ck4 := c.Kdf1(r.chainingKey, ephPub);
    var ck5 := c.Kdf1(ck4, c.dh(eph, r.peerEphemeral));
    var ck6 := c.Kdf1(ck5, c.dh(eph, p.peerStaticPublic));
    var (ck7, temp2, k7) := c.Kdf3(ck6, p.Psk());
    var h5 := c.Hash2(h4, temp2);
    var encNothing := Seal0(c, k7, [], h5);
    var (t2, t3) := c.Kdf2(ck7, []);
    (HandshakeResponse(localIndex, r.peerIndex, ephPub, encNothing), NewSession(localIndex, r.peerIndex, t2, t3))
  }

  /** Initiator: read the second message against the state that awaited it. */
  function OpenResponse(c: Suite, p: Params, s: InitSentState, m: Packet): Result<Session>
    requires m.HandshakeResponse?
  {
    var h4 := c.Hash2(s.hash, m.ephemeral);
    var (ck4, _) := c.Kdf2(s.chainingKey, m.ephemeral);
    var ck5 := c.Kdf1(ck4, c.dh(s.ephemeralPrivate, m.ephemeral));
    var ck6 := c.Kdf1(ck5, c.dh(p.staticPrivate, m.ephemeral));
    var (ck7, temp2, k7) := c.Kdf3(ck6, p.Psk());
    var h5 := c.Hash2(h4, temp2);
    var nothing := Open0(c, k7, m.encryptedNothing, h5, 0);
    if nothing.Err? then Err(nothing.error)
    else
      var (t2, t3) := c.Kdf2(ck7, []);
      Ok(NewSession(s.localIndex, m.senderIdx, t3, t2))
  }

  // ---------------------------------------------------------------- the state

  datatype State =
    | NoHandshake
    | InitSent(sent: InitSentState)
    | InitReceived(received: Received)
    | Expired

  datatype Cookies = Cookies(lastMac1: Option<Mac>, index: u32, writeCookie: Option<Mac>)

  datatype Handshake = Handshake(
    params: Params,
    nextIndex: u32,
    previous: State,
    state: State,
    cookies: Cookies,
    lastTimestamp: Tai64N,
    lastRtt: Option<nat>
  ) {
    predicate IsInProgress() {
      !state.NoHandshake? && !state.Expired?
    }

    predicate IsExpired() {
      state.Expired?
    }

    /** When the initiation in flight was sent. */
    function Timer(): Option<nat> {
      if state.InitSent? then Some(state.sent.timeSent) else None
    }
  }

  function NewHandshake(c: Suite, priv: Key, pub: Key, peer: Key, globalIdx: u32, psk: Option<Key>): Handshake {
    Handshake(NewParams(c, priv, pub, peer, psk), globalIdx, NoHandshake, NoHandshake, Cookies(None, 0, None),
              ZeroStamp, None)
  }

  function SetExpired(h: Handshake): Handshake {
    h.(previous := Expired, state := Expired)
  }

  function ClearCookie(h: Handshake): Handshake {
    h.(cookies := h.cookies.(writeCookie := None))
  }

  /** The next session index: the low byte counts, the other three stay. */
  function IncIndex(index: u32): u32 {
    index - index % 256 + (index % 256 + 1) % 256
  }

  /** `NoiseParams::set_static_private`; the caller passes a matching key pair. */
  function SetStaticPrivate(c: Suite, h: Handshake, priv: Key, pub: Key): Handshake
    requires pub == c.pub(priv)
  {
    h.(params := h.params.(staticPrivate := priv, staticPublic := pub,
                           staticShared := c.dh(priv, h.params.peerStaticPublic)))
  }

  /** Compute both MACs over an encoded handshake message and remember the first. */
  function AppendMacs(c: Suite, h: Handshake, localIndex: u32, body: Bytes): (Handshake, Bytes) {
    var mac1 := c.mac16(h.params.sendingMac1Key, body);
    var mac2 := if h.cookies.writeCookie.Some? then c.mac16(h.cookies.writeCookie.value, body + mac1) else ZERO_MAC;
    (h.(cookies := Cookies(Some(mac1), localIndex, h.cookies.writeCookie)), body + (mac1 + mac2))
  }

  function FormatHandshakeInitiation(c: Suite, h: Handshake, eph: Key, stamp: Stamp, now: nat, dstLen: nat)
    : (Handshake, Result<Bytes>)
  {
    if dstLen < HANDSHAKE_INIT_SZ then (h, Err(DestinationBufferTooSmall))
    else
      var index := IncIndex(h.nextIndex);
      var (sent, m) := MakeInitiation(c, h.params, index, eph, stamp, now);
      var h1 := h.(nextIndex := index, previous := h.state, state := InitSent(sent));
      var (h2, datagram) := AppendMacs(c, h1, index, Encode(m));
      (h2, Ok(datagram))
  }

  /** Only called with `InitReceived` in place. */
  function FormatHandshakeResponse(c: Suite, h: Handshake, eph: Key, dstLen: nat): (Handshake, Result<(Bytes, Session)>)
    requires h.state.InitReceived?
  {
    if dstLen < HANDSHAKE_RESP_SZ then (h, Err(DestinationBufferTooSmall))
    else
      var index := IncIndex(h.nextIndex);
      var (m, session) := MakeResponse(c, h.params, h.state.received, index, eph);
      var (h2, datagram) := AppendMacs(c, h.(nextIndex := index, state := NoHandshake), index, Encode(m));
      (h2, Ok((datagram, session)))
  }

  function ReceiveHandshakeInitialization(c: Suite, h: Handshake, m: Packet, eph: Key, dstLen: nat)
    : (Handshake, Result<(Bytes, Session)>)
    requires m.HandshakeInit?
  {
    var reading := OpenInitiation(c, h.params, m);
    if reading.Err? then (h, Err(reading.error))
    else
      var (received, stamp) := reading.value;
      if !stamp.After(h.lastTimestamp) then (h, Err(WrongTai64nTimestamp))
      else
        var h1 := h.(lastTimestamp := stamp, previous := h.state, state := InitReceived(received));
        FormatHandshakeResponse(c, h1, eph, dstLen)
  }

  /** Does a response with this receiver index answer the given slot? */
  predicate Answers(m: Packet, slot: State)
    requires m.HandshakeResponse?
  {
    slot.InitSent? && slot.sent.localIndex == m.receiverIdx
  }

  function ReceiveHandshakeResponse(c: Suite, h: Handshake, m: Packet, now: nat): (Handshake, Result<Session>)
    requires m.HandshakeResponse?
  {
    if !Answers(m, h.state) && !Answers(m, h.previous) then (h, Err(UnexpectedPacket))
    else
      var isPrevious := !Answers(m, h.state);
      var s := if isPrevious then h.previous.sent else h.state.sent;
      var session := OpenResponse(c, h.params, s, m);
      if session.Err? then (h, session)
      else
        var h1 := h.(lastRtt := Some(RttMillis(s.timeSent, now)));
        (if isPrevious then h1.(previous := NoHandshake) else h1.(state := NoHandshake), session)
  }

  /** `as_millis() as u32` of the time since the initiation; an earlier reading
      counts as no time. */
  function RttMillis(sent: nat, now: nat): nat {
    if now < sent then 0 else (now - sent) / 1_000_000 % U32
  }

  function ReceiveCookieReply(c: Suite, h: Handshake, m: Packet): (Handshake, Result<()>)
    requires m.PacketCookieReply?
  {
    if h.cookies.lastMac1.None? then (h, Err(UnexpectedPacket))
    else if m.receiverIdx != h.cookies.index then (h, Err(WrongIndex))
    else
      match c.xopen(h.params.cookieKey, m.nonce, h.cookies.lastMac1.value, m.encryptedCookie)
      case None => (h, Err(InvalidAeadTag))
      case Some(cookie) =>
        if |cookie| != 16 then (h, Err(InvalidAeadTag))
        else (h.(cookies := h.cookies.(writeCookie := Some(cookie))), Ok(()))
  }
}
