/** The `Handshake` object: the same calls as `Noise` describes on values, with
    chaining key and hash updated step by step and the state replaced in place. */
module Handshakes {
  import opened Common
  import opened Crypto
  import opened Noise
  import opened Sessions
  import opened Timestamps
  import opened Wire

  class LiveHandshake {
    var params: Params
    var nextIndex: u32
    var previous: State
    var state: State
    var cookies: Cookies
    var lastTimestamp: Tai64N
    var lastRtt: Option<nat>

    function Model(): Handshake
      reads this
    {
      Handshake(params, nextIndex, previous, state, cookies, lastTimestamp, lastRtt)
    }

    constructor (c: Suite, priv: Key, pub: Key, peer: Key, globalIdx: u32, psk: Option<Key>)
      ensures Model() == NewHandshake(c, priv, pub, peer, globalIdx, psk)
    {
      params := NewParams(c, priv, pub, peer, psk);
      nextIndex := globalIdx;
      previous, state := NoHandshake, NoHandshake;
      cookies := Cookies(None, 0, None);
      lastTimestamp := ZeroStamp;
      lastRtt := None;
    }

    method SetExpired()
      modifies this
      ensures Model() == Noise.SetExpired(old(Model()))
    {
      previous := Expired;
      state := Expired;
    }

    method ClearCookie()
      modifies this
      ensures Model() == Noise.ClearCookie(old(Model()))
    {
      cookies := cookies.(writeCookie := None);
    }

    method IncIndex() returns (index: u32)
      modifies this`nextIndex
      ensures index == nextIndex == Noise.IncIndex(old(nextIndex))
    {
      var idx8 := nextIndex % 256;
      nextIndex := nextIndex - idx8 + (idx8 + 1) % 256;
      index := nextIndex;
    }

    method SetStaticPrivate(c: Suite, priv: Key, pub: Key)
      requires pub == c.pub(priv)
      modifies this
      ensures Model() == Noise.SetStaticPrivate(c, old(Model()), priv, pub)
    {
      params := params.(staticPrivate := priv, staticPublic := pub);
      params := params.(staticShared := c.dh(params.staticPrivate, params.peerStaticPublic));
    }

    method AppendMac1AndMac2(c: Suite, localIndex: u32, body: Bytes) returns (dst: Bytes)
      modifies this`cookies
      ensures (Model(), dst) == AppendMacs(c, old(Model()), localIndex, body)
    {
      var mac1: Bytes := c.mac16(params.sendingMac1Key, body);
      dst := body + mac1;
      var mac2 := ZERO_MAC;
      if cookies.writeCookie.Some? {
        mac2 := c.mac16(cookies.writeCookie.value, dst);
      }
      assert dst + mac2 == body + (mac1 + mac2);
      dst := dst + mac2;
      cookies := cookies.(index := localIndex, lastMac1 := Some(mac1));
    }

    method FormatInitiation(c: Suite, eph: Key, stamp: Stamp, now: nat, dstLen: nat) returns (r: Result<Bytes>)
      modifies this
      ensures (Model(), r) == FormatHandshakeInitiation(c, old(Model()), eph, stamp, now, dstLen)
    {
      if dstLen < HANDSHAKE_INIT_SZ {
        return Err(DestinationBufferTooSmall);
      }
      var localIndex := IncIndex();
      var chainingKey := INITIAL_CHAIN_KEY;
      var hash := c.Hash2(INITIAL_CHAIN_HASH, params.peerStaticPublic);
      var ephPub := c.pub(eph);
      hash := c.Hash2(hash, ephPub);
      chainingKey := c.Kdf1(chainingKey, ephPub);
      var kdf := c.Kdf2(chainingKey, c.dh(eph, params.peerStaticPublic));
      chainingKey := kdf.0;
      var encStatic := Seal0(c, kdf.1, params.staticPublic, hash);
      hash := c.Hash2(hash, encStatic);
      kdf := c.Kdf2(chainingKey, params.staticShared);
      chainingKey := kdf.0;
      var encStamp := Seal0(c, kdf.1, stamp, hash);
      hash := c.Hash2(hash, encStamp);
      previous := state;
      state := InitSent(InitSentState(localIndex, hash, chainingKey, eph, now));
      var dst := AppendMac1AndMac2(c, localIndex, Encode(HandshakeInit(localIndex, ephPub, encStatic, encStamp)));
      r := Ok(dst);
    }

    method FormatResponse(c: Suite, eph: Key, dstLen: nat) returns (r: Result<(Bytes, Session)>)
      requires state.InitReceived?
      modifies this
      ensures (Model(), r) == FormatHandshakeResponse(c, old(Model()), eph, dstLen)
    {
      if dstLen < HANDSHAKE_RESP_SZ {
        return Err(DestinationBufferTooSmall);
      }
      var received := state.received;
      state := NoHandshake;
      var localIndex := IncIndex();
      var ephPub := c.pub(eph);
      var hash := c.Hash2(received.hash, ephPub);
      var chainingKey := c.Kdf1(received.chainingKey, ephPub);
      chainingKey := c.Kdf1(chainingKey, c.dh(eph, received.peerEphemeral));
      chainingKey := c.Kdf1(chainingKey, c.dh(eph, params.peerStaticPublic));
      var kdf := c.Kdf3(chainingKey, params.Psk());
      chainingKey := kdf.0;
      hash := c.Hash2(hash, kdf.1);
      var encNothing := Seal0(c, kdf.2, [], hash);
      var keys := c.Kdf2(chainingKey, []);
      var dst := AppendMac1AndMac2(c, localIndex,
                                   Encode(HandshakeResponse(localIndex, received.peerIndex, ephPub, encNothing)));
      r := Ok((dst, NewSession(localIndex, received.peerIndex, keys.0, keys.1)));
    }

    method ReceiveInitialization(c: Suite, m: Packet, eph: Key, dstLen: nat) returns (r: Result<(Bytes, Session)>)
      requires m.HandshakeInit?
      modifies this
      ensures (Model(), r) == ReceiveHandshakeInitialization(c, old(Model()), m, eph, dstLen)
    {
      var hash := c.Hash2(INITIAL_CHAIN_HASH, params.staticPublic);
      hash := c.Hash2(hash, m.ephemeral);
      var chainingKey := c.Kdf1(INITIAL_CHAIN_KEY, m.ephemeral);
      var kdf := c.Kdf2(chainingKey, c.dh(params.staticPrivate, m.ephemeral));
      chainingKey := kdf.0;
      var peerStatic := Open0(c, kdf.1, m.encryptedStatic, hash, 32);
      if peerStatic.Err? {
        return Err(peerStatic.error);
      }
      if params.peerStaticPublic != peerStatic.value {
        return Err(WrongKey);
      }
      hash := c.Hash2(hash, m.encryptedStatic);
      kdf := c.Kdf2(chainingKey, params.staticShared);
      chainingKey := kdf.0;
      var stamp := Open0(c, kdf.1, m.encryptedTimestamp, hash, 12);
      if stamp.Err? {
        return Err(stamp.error);
      }
      var timestamp := Parse(stamp.value);
      if !timestamp.After(lastTimestamp) {
        return Err(WrongTai64nTimestamp);
      }
      lastTimestamp := timestamp;
      hash := c.Hash2(hash, m.encryptedTimestamp);
      previous := state;
      state := InitReceived(Received(hash, chainingKey, m.ephemeral, m.senderIdx));
      r := FormatResponse(c, eph, dstLen);
    }

    method ReceiveResponse(c: Suite, m: Packet, now: nat) returns (r: Result<Session>)
      requires m.HandshakeResponse?
      modifies this
      ensures (Model(), r) == ReceiveHandshakeResponse(c, old(Model()), m, now)
    {
      var slot, isPrevious := state, false;
      if !(state.InitSent? && state.sent.localIndex == m.receiverIdx) {
        if !(previous.InitSent? && previous.sent.localIndex == m.receiverIdx) {
          return Err(UnexpectedPacket);
        }
        slot, isPrevious := previous, true;
      }
      var s := slot.sent;
      var hash := c.Hash2(s.hash, m.ephemeral);
      var chainingKey := c.Kdf2(s.chainingKey, m.ephemeral).0;
      chainingKey := c.Kdf1(chainingKey, c.dh(s.ephemeralPrivate, m.ephemeral));
      chainingKey := c.Kdf1(chainingKey, c.dh(params.staticPrivate, m.ephemeral));
      var kdf := c.Kdf3(chainingKey, params.Psk());
      chainingKey := kdf.0;
      hash := c.Hash2(hash, kdf.1);
      var nothing := Open0(c, kdf.2, m.encryptedNothing, hash, 0);
      if nothing.Err? {
        return Err(nothing.error);
      }
      var keys := c.Kdf2(chainingKey, []);
      lastRtt := Some(RttMillis(s.timeSent, now));
      if isPrevious {
        previous := NoHandshake;
      } else {
        state := NoHandshake;
      }
      r := Ok(NewSession(s.localIndex, m.senderIdx, keys.1, keys.0));
    }

    method ReceiveCookie(c: Suite, m: Packet) returns (r: Result<()>)
      requires m.PacketCookieReply?
      modifies this`cookies
      ensures (Model(), r) == ReceiveCookieReply(c, old(Model()), m)
    {
      if cookies.lastMac1.None? {
        return Err(UnexpectedPacket);
      }
      if m.receiverIdx != cookies.index {
        return Err(WrongIndex);
      }
      var cookie := c.xopen(params.cookieKey, m.nonce, cookies.lastMac1.value, m.encryptedCookie);
      if cookie.None? || |cookie.value| != 16 {
        return Err(InvalidAeadTag);
      }
      cookies := cookies.(writeCookie := Some(cookie.value));
      r := Ok(());
    }
  }
}
