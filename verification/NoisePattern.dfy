/** The handshake against its specification: the Noise pattern IKpsk2 as lists of
    tokens, folded over one symmetric state (sections 5.4.2 and 5.4.3 of the
    WireGuard paper).  Nothing here refers to how the program computes a message;
    the lemmas at the end say that it computes this. */
module NoisePattern {
  import opened Common
  import opened Crypto
  import opened Noise
  import opened Replay
  import opened Sessions
  import opened Timestamps
  import opened Wire

  datatype Token = E | S | EE | ES | SE | SS | Psk

  const INITIATION: seq<Token> := [E, ES, S, SS]
  const RESPONSE: seq<Token> := [E, EE, SE, Psk]

  /** One side of the exchange: its own private keys, the other's public ones. */
  datatype View = View(initiator: bool, s: Key, e: Key, rs: Key, re: Key, psk: Key) {
    /** The secret of a Diffie-Hellman token; its first letter is the initiator's
        key. */
    function Secret(c: Suite, t: Token): Key {
      match t
      case EE => c.dh(e, re)
      case ES => if initiator then c.dh(e, rs) else c.dh(s, re)
      case SE => if initiator then c.dh(s, re) else c.dh(e, rs)
      case _ => c.dh(s, rs)
    }
  }

  /** Output number `i` of the key derivation, counted from one. */
  function Hkdf(c: Suite, ck: Bytes, input: Bytes, i: nat): Bytes
    requires i < 256
  {
    if i == 0 then [] else c.hmac(c.hmac(ck, input), Hkdf(c, ck, input, i - 1) + [i])
  }

  function Output(c: Suite, ck: Bytes, input: Bytes, i: nat): Key
    requires 0 < i < 256
  {
    c.hmac(c.hmac(ck, input), Hkdf(c, ck, input, i - 1) + [i])
  }

  /** Chaining key, message key and transcript hash. */
  datatype Symmetric = Symmetric(ck: Key, k: Key, h: Key) {
    function MixHash(c: Suite, data: Bytes): Symmetric {
      this.(h := c.hash(h + data))
    }

    function MixKey(c: Suite, input: Bytes): Symmetric {
      this.(ck := Output(c, ck, input, 1), k := Output(c, ck, input, 2))
    }

    function MixKeyAndHash(c: Suite, input: Bytes): Symmetric {
      Symmetric(Output(c, ck, input, 1), Output(c, ck, input, 3), c.hash(h + Output(c, ck, input, 2)))
    }

    function Seal(c: Suite, data: Bytes): Bytes {
      c.seal(k, Zeros(12), h, data)
    }

    function Open(c: Suite, data: Bytes): Option<Bytes> {
      c.open(k, Zeros(12), h, data)
    }
  }

  function Start(c: Suite, responder: Key): Symmetric {
    Symmetric(INITIAL_CHAIN_KEY, Zeros(32), INITIAL_CHAIN_HASH).MixHash(c, responder)
  }

  /** Writing a token: the new state and the bytes it puts into the message. */
  function WriteToken(c: Suite, v: View, st: Symmetric, t: Token): (Symmetric, seq<Bytes>) {
    match t
    case E => (st.MixHash(c, c.pub(v.e)).MixKey(c, c.pub(v.e)), [c.pub(v.e)])
    case S => var sealed := st.Seal(c, c.pub(v.s)); (st.MixHash(c, sealed), [sealed])
    case Psk => (st.MixKeyAndHash(c, v.psk), [])
    case _ => (st.MixKey(c, v.Secret(c, t)), [])
  }

  function Write(c: Suite, v: View, st: Symmetric, ts: seq<Token>): (Symmetric, seq<Bytes>) {
    if ts == [] then (st, [])
    else
      var (st1, out1) := Write(c, v, st, ts[..|ts| - 1]);
      var (st2, out2) := WriteToken(c, v, st1, ts[|ts| - 1]);
      (st2, out1 + out2)
  }

  /** The bytes a token takes from a message. */
  function Width(t: Token): nat {
    if t.E? || t.S? then 1 else 0
  }

  /** Reading a token: a sealed static key must be the one expected. */
  function ReadToken(c: Suite, v: View, st: Symmetric, t: Token, input: seq<Bytes>): Option<Symmetric>
    requires |input| == Width(t)
  {
    match t
    case E => Some(st.MixHash(c, input[0]).MixKey(c, input[0]))
    case S => if st.Open(c, input[0]) == Some(v.rs) then Some(st.MixHash(c, input[0])) else None
    case Psk => Some(st.MixKeyAndHash(c, v.psk))
    case _ => Some(st.MixKey(c, v.Secret(c, t)))
  }

  function Read(c: Suite, v: View, st: Symmetric, ts: seq<Token>, input: seq<Bytes>): Option<Symmetric> {
    if ts == [] then if input == [] then Some(st) else None
    else
      var t := ts[|ts| - 1];
      if |input| < Width(t) then None
      else
        var n := |input| - Width(t);
        match Read(c, v, st, ts[..|ts| - 1], input[..n])
        case None => None
        case Some(st1) => ReadToken(c, v, st1, t, input[n..])
  }

  // ---------------------------------------------------------------- unfolding

  lemma WriteOneMore(c: Suite, v: View, st: Symmetric, ts: seq<Token>, t: Token)
    ensures var (st1, out1) := Write(c, v, st, ts);
            var (st2, out2) := WriteToken(c, v, st1, t);
            Write(c, v, st, ts + [t]) == (st2, out1 + out2)
  {
    assert (ts + [t])[..|ts|] == ts;
  }

  lemma ReadOneMore(c: Suite, v: View, st: Symmetric, ts: seq<Token>, t: Token, input: seq<Bytes>, more: seq<Bytes>)
    requires |more| == Width(t)
    ensures Read(c, v, st, ts + [t], input + more) ==
            match Read(c, v, st, ts, input)
            case None => None
            case Some(st1) => ReadToken(c, v, st1, t, more)
  {
    assert (ts + [t])[..|ts|] == ts;
    assert (input + more)[..|input|] == input && (input + more)[|input|..] == more;
  }

  lemma ThreeOutputs(c: Suite, key: Bytes, input: Bytes)
    ensures c.Kdf1(key, input) == Output(c, key, input, 1)
    ensures c.Kdf2(key, input) == (Output(c, key, input, 1), Output(c, key, input, 2))
    ensures c.Kdf3(key, input) == (Output(c, key, input, 1), Output(c, key, input, 2), Output(c, key, input, 3))
  {
    assert Hkdf(c, key, input, 0) + [1] == [1];
  }

  // ---------------------------------------------------------------- initiation

  /** How the initiator sees the first message. */
  function Initiating(p: Params, eph: Key): View {
    View(true, p.staticPrivate, eph, p.peerStaticPublic, Zeros(32), p.Psk())
  }

  /** `ts` leads from `st` to `st1` and writes `out`. */
  ghost predicate Writes(c: Suite, v: View, st: Symmetric, ts: seq<Token>, st1: Symmetric, out: seq<Bytes>) {
    Write(c, v, st, ts) == (st1, out)
  }

  lemma WritesMore(c: Suite, v: View, st: Symmetric, ts: seq<Token>, st1: Symmetric, out: seq<Bytes>, t: Token)
    requires Writes(c, v, st, ts, st1, out)
    ensures Writes(c, v, st, ts + [t], WriteToken(c, v, st1, t).0, out + WriteToken(c, v, st1, t).1)
  {
    WriteOneMore(c, v, st, ts, t);
  }

  lemma WrittenInitiation(c: Suite, v: View, st: Symmetric)
    ensures var st1 := st.MixHash(c, c.pub(v.e)).MixKey(c, c.pub(v.e));
            var st2 := st1.MixKey(c, v.Secret(c, ES));
            var sealed := st2.Seal(c, c.pub(v.s));
            Writes(c, v, st, INITIATION, st2.MixHash(c, sealed).MixKey(c, v.Secret(c, SS)), [c.pub(v.e), sealed])
  {
    var st1 := st.MixHash(c, c.pub(v.e)).MixKey(c, c.pub(v.e));
    var st2 := st1.MixKey(c, v.Secret(c, ES));
    var sealed := st2.Seal(c, c.pub(v.s));
    var out := [c.pub(v.e)];
    WritesMore(c, v, st, [], st, [], E);
    assert [] + [E] == [E] && [] + out == out;
    WritesMore(c, v, st, [E], st1, out, ES);
    assert [E] + [ES] == [E, ES] && out + [] == out;
    WritesMore(c, v, st, [E, ES], st2, out, S);
    assert [E, ES] + [S] == [E, ES, S] && out + [sealed] == [c.pub(v.e), sealed];
    WritesMore(c, v, st, [E, ES, S], st2.MixHash(c, sealed), [c.pub(v.e), sealed], SS);
    assert [E, ES, S] + [SS] == INITIATION && [c.pub(v.e), sealed] + [] == [c.pub(v.e), sealed];
  }

  /** The initiation is the pattern's first message, with the timestamp as payload. */
  lemma InitiationFollowsPattern(c: Suite, p: Params, localIndex: u32, eph: Key, stamp: Stamp, now: nat)
    requires p.Coherent(c)
    ensures var (st, out) := Write(c, Initiating(p, eph), Start(c, p.peerStaticPublic), INITIATION);
            var (s, m) := MakeInitiation(c, p, localIndex, eph, stamp, now);
            && m == HandshakeInit(localIndex, c.pub(eph), m.encryptedStatic, m.encryptedTimestamp)
            && out == [m.ephemeral, m.encryptedStatic]
            && m.encryptedTimestamp == st.Seal(c, stamp)
            && s.chainingKey == st.ck && s.hash == st.MixHash(c, m.encryptedTimestamp).h
            && s.ephemeralPrivate == eph && s.localIndex == localIndex && s.timeSent == now
  {
    var v, st := Initiating(p, eph), Start(c, p.peerStaticPublic);
    WrittenInitiation(c, v, st);
    ThreeOutputs(c, INITIAL_CHAIN_KEY, c.pub(eph));
    var ck1 := c.Kdf1(INITIAL_CHAIN_KEY, c.pub(eph));
    ThreeOutputs(c, ck1, c.dh(eph, p.peerStaticPublic));
    ThreeOutputs(c, c.Kdf2(ck1, c.dh(eph, p.peerStaticPublic)).0, p.staticShared);
    ZeroNonce();
  }

  lemma ZeroNonce()
    ensures CounterNonce(0) == Zeros(12)
  {
    assert Le(0, 8) == Zeros(8);
  }

  ghost predicate Reads(c: Suite, v: View, st: Symmetric, ts: seq<Token>, input: seq<Bytes>, st1: Option<Symmetric>) {
    Read(c, v, st, ts, input) == st1
  }

  lemma ReadsMore(c: Suite, v: View, st: Symmetric, ts: seq<Token>, input: seq<Bytes>, st1: Symmetric,
                  t: Token, more: seq<Bytes>)
    requires Reads(c, v, st, ts, input, Some(st1)) && |more| == Width(t)
    ensures Reads(c, v, st, ts + [t], input + more, ReadToken(c, v, st1, t, more))
  {
    ReadOneMore(c, v, st, ts, t, input, more);
  }

  /** A message refused at one token stays refused. */
  lemma RefusedMore(c: Suite, v: View, st: Symmetric, ts: seq<Token>, input: seq<Bytes>, t: Token)
    requires Reads(c, v, st, ts, input, None) && Width(t) == 0
    ensures Reads(c, v, st, ts + [t], input, None)
  {
    ReadOneMore(c, v, st, ts, t, input, []);
    assert input + [] == input;
  }

  lemma ReadThree(c: Suite, v: View, st: Symmetric, e: Key, sealed: Bytes)
    ensures var st1 := st.MixHash(c, e).MixKey(c, e);
            Reads(c, v, st, [E, ES, S], [e, sealed],
                  ReadToken(c, v, st1.MixKey(c, v.Secret(c, ES)), S, [sealed]))
  {
    var st1 := st.MixHash(c, e).MixKey(c, e);
    ReadsMore(c, v, st, [], [], st, E, [e]);
    assert [] + [E] == [E] && [] + [e] == [e];
    ReadsMore(c, v, st, [E], [e], st1, ES, []);
    assert [E] + [ES] == [E, ES] && [e] + [] == [e];
    ReadsMore(c, v, st, [E, ES], [e], st1.MixKey(c, v.Secret(c, ES)), S, [sealed]);
    assert [E, ES] + [S] == [E, ES, S] && [e] + [sealed] == [e, sealed];
  }

  lemma ReadInitiation(c: Suite, v: View, st: Symmetric, e: Key, sealed: Bytes)
    ensures var st1 := st.MixHash(c, e).MixKey(c, e);
            var st3 := ReadToken(c, v, st1.MixKey(c, v.Secret(c, ES)), S, [sealed]);
            Reads(c, v, st, INITIATION, [e, sealed],
                  if st3.None? then None else Some(st3.value.MixKey(c, v.Secret(c, SS))))
  {
    var st3 := ReadToken(c, v, st.MixHash(c, e).MixKey(c, e).MixKey(c, v.Secret(c, ES)), S, [sealed]);
    ReadThree(c, v, st, e, sealed);
    LastToken(c, v, st, [E, ES, S], [e, sealed], st3);
    assert [E, ES, S] + [SS] == INITIATION;
  }

  lemma LastToken(c: Suite, v: View, st: Symmetric, ts: seq<Token>, input: seq<Bytes>, st3: Option<Symmetric>)
    requires Reads(c, v, st, ts, input, st3)
    ensures Reads(c, v, st, ts + [SS], input,
                  if st3.None? then None else Some(st3.value.MixKey(c, v.Secret(c, SS))))
  {
    if st3.Some? {
      ReadsMore(c, v, st, ts, input, st3.value, SS, []);
      assert input + [] == input;
    } else {
      RefusedMore(c, v, st, ts, input, SS);
    }
  }

  /** How the responder sees the first message. */
  function Answering(p: Params, eph: Key, peerEphemeral: Key): View {
    View(false, p.staticPrivate, eph, p.peerStaticPublic, peerEphemeral, p.Psk())
  }

  /** Reading an initiation is reading the pattern's first message: it is accepted
      exactly when the sealed static key opens to the configured peer's and the
      timestamp opens, and what is kept is the resulting state. */
  lemma ReadingFollowsPattern(c: Suite, p: Params, m: Packet)
    requires p.Coherent(c) && m.HandshakeInit?
    ensures var st := Read(c, Answering(p, Zeros(32), m.ephemeral), Start(c, p.staticPublic), INITIATION,
                           [m.ephemeral, m.encryptedStatic]);
            var r := OpenInitiation(c, p, m);
            if st.None? then r.Err?
            else
              match st.value.Open(c, m.encryptedTimestamp)
              case None => r.Err?
              case Some(stamp) =>
                if |stamp| != 12 then r.Err?
                else
                  r == Ok((Received(st.value.MixHash(c, m.encryptedTimestamp).h, st.value.ck, m.ephemeral, m.senderIdx),
                           Parse(stamp)))
  {
    var v, st := Answering(p, Zeros(32), m.ephemeral), Start(c, p.staticPublic);
    ReadInitiation(c, v, st, m.ephemeral, m.encryptedStatic);
    ThreeOutputs(c, INITIAL_CHAIN_KEY, m.ephemeral);
    var ck1 := c.Kdf1(INITIAL_CHAIN_KEY, m.ephemeral);
    ThreeOutputs(c, ck1, c.dh(p.staticPrivate, m.ephemeral));
    ThreeOutputs(c, c.Kdf2(ck1, c.dh(p.staticPrivate, m.ephemeral)).0, p.staticShared);
    ZeroNonce();
  }

  lemma ReadTwo(c: Suite, v: View, st: Symmetric, e: Key)
    ensures Reads(c, v, st, [E, ES], [e], Some(st.MixHash(c, e).MixKey(c, e).MixKey(c, v.Secret(c, ES))))
  {
    ReadsMore(c, v, st, [], [], st, E, [e]);
    assert [] + [E] == [E] && [] + [e] == [e];
    ReadsMore(c, v, st, [E], [e], st.MixHash(c, e).MixKey(c, e), ES, []);
    assert [E] + [ES] == [E, ES] && [e] + [] == [e];
  }

  /** The anonymous reader stops after the sealed static key, which it opens with the
      state after two tokens; a key that is not the configured peer's is refused as
      such. */
  lemma AnonymousFollowsPattern(c: Suite, p: Params, m: Packet)
    requires p.Coherent(c) && m.HandshakeInit?
    ensures var st := Read(c, Answering(p, Zeros(32), m.ephemeral), Start(c, p.staticPublic), [E, ES], [m.ephemeral]);
            var r := ParseHandshakeAnon(c, p.staticPrivate, p.staticPublic, m);
            && st.Some?
            && var key := st.value.Open(c, m.encryptedStatic);
               if key.Some? && |key.value| == 32 then
                 && r == Ok(HalfHandshake(m.senderIdx, key.value))
                 && (OpenInitiation(c, p, m) == Err(WrongKey) <==> key.value != p.peerStaticPublic)
               else r == Err(InvalidAeadTag) && OpenInitiation(c, p, m) == Err(InvalidAeadTag)
  {
    ReadTwo(c, Answering(p, Zeros(32), m.ephemeral), Start(c, p.staticPublic), m.ephemeral);
    ThreeOutputs(c, INITIAL_CHAIN_KEY, m.ephemeral);
    ThreeOutputs(c, c.Kdf1(INITIAL_CHAIN_KEY, m.ephemeral), c.dh(p.staticPrivate, m.ephemeral));
    ZeroNonce();
  }

  // ---------------------------------------------------------------- response

  lemma WrittenResponse(c: Suite, v: View, st: Symmetric)
    ensures var st1 := st.MixHash(c, c.pub(v.e)).MixKey(c, c.pub(v.e));
            var st3 := st1.MixKey(c, v.Secret(c, EE)).MixKey(c, v.Secret(c, SE));
            Writes(c, v, st, RESPONSE, st3.MixKeyAndHash(c, v.psk), [c.pub(v.e)])
  {
    var st1 := st.MixHash(c, c.pub(v.e)).MixKey(c, c.pub(v.e));
    var st2 := st1.MixKey(c, v.Secret(c, EE));
    var out := [c.pub(v.e)];
    WritesMore(c, v, st, [], st, [], E);
    assert [] + [E] == [E] && [] + out == out && out + [] == out;
    WritesMore(c, v, st, [E], st1, out, EE);
    assert [E] + [EE] == [E, EE];
    WritesMore(c, v, st, [E, EE], st2, out, SE);
    assert [E, EE] + [SE] == [E, EE, SE];
    WritesMore(c, v, st, [E, EE, SE], st2.MixKey(c, v.Secret(c, SE)), out, Psk);
    assert [E, EE, SE] + [Psk] == RESPONSE;
  }

  lemma ReadResponse(c: Suite, v: View, st: Symmetric, e: Key)
    ensures var st1 := st.MixHash(c, e).MixKey(c, e);
            var st3 := st1.MixKey(c, v.Secret(c, EE)).MixKey(c, v.Secret(c, SE));
            Reads(c, v, st, RESPONSE, [e], Some(st3.MixKeyAndHash(c, v.psk)))
  {
    var st1 := st.MixHash(c, e).MixKey(c, e);
    var st2 := st1.MixKey(c, v.Secret(c, EE));
    ReadsMore(c, v, st, [], [], st, E, [e]);
    assert [] + [E] == [E] && [e] + [] == [e];
    ReadsMore(c, v, st, [E], [e], st1, EE, []);
    assert [E] + [EE] == [E, EE];
    ReadsMore(c, v, st, [E, EE], [e], st2, SE, []);
    assert [E, EE] + [SE] == [E, EE, SE];
    ReadsMore(c, v, st, [E, EE, SE], [e], st2.MixKey(c, v.Secret(c, SE)), Psk, []);
    assert [E, EE, SE] + [Psk] == RESPONSE;
  }

  /** The transport keys at the end: the initiator sends with the first and the
      responder with the second. */
  function Split(c: Suite, st: Symmetric): (Key, Key) {
    (Output(c, st.ck, [], 1), Output(c, st.ck, [], 2))
  }

  lemma ResponseOutputs(c: Suite, ck: Key, e: Key, ee: Key, se: Key, psk: Key)
    ensures var ck1 := Output(c, ck, e, 1);
            var ck3 := Output(c, Output(c, ck1, ee, 1), se, 1);
            && c.Kdf1(c.Kdf1(c.Kdf1(ck, e), ee), se) == ck3
            && c.Kdf1(c.Kdf1(c.Kdf2(ck, e).0, ee), se) == ck3
            && c.Kdf3(ck3, psk) == (Output(c, ck3, psk, 1), Output(c, ck3, psk, 2), Output(c, ck3, psk, 3))
            && c.Kdf2(Output(c, ck3, psk, 1), []) ==
               (Output(c, Output(c, ck3, psk, 1), [], 1), Output(c, Output(c, ck3, psk, 1), [], 2))
  {
    ThreeOutputs(c, ck, e);
    ThreeOutputs(c, Output(c, ck, e, 1), ee);
    var ck2 := Output(c, Output(c, ck, e, 1), ee, 1);
    ThreeOutputs(c, ck2, se);
    ThreeOutputs(c, Output(c, ck2, se, 1), psk);
    ThreeOutputs(c, Output(c, Output(c, ck2, se, 1), psk, 1), []);
  }

  /** The response is the pattern's second message with an empty payload, and the
      responder's session holds the keys of its final state. */
  lemma ResponseFollowsPattern(c: Suite, p: Params, r: Received, localIndex: u32, eph: Key)
    ensures var st0 := Symmetric(r.chainingKey, Zeros(32), r.hash);
            var (st, out) := Write(c, Answering(p, eph, r.peerEphemeral), st0, RESPONSE);
            var (m, session) := MakeResponse(c, p, r, localIndex, eph);
            && m == HandshakeResponse(localIndex, r.peerIndex, c.pub(eph), st.Seal(c, []))
            && out == [m.ephemeral]
            && session == Session(localIndex, r.peerIndex, Split(c, st).0, Split(c, st).1, 0, Window(0, {}), 0)
  {
    var v, st := Answering(p, eph, r.peerEphemeral), Symmetric(r.chainingKey, Zeros(32), r.hash);
    WrittenResponse(c, v, st);
    ResponseOutputs(c, r.chainingKey, c.pub(eph), v.Secret(c, EE), v.Secret(c, SE), p.Psk());
    ZeroNonce();
  }

  /** Reading a response is reading that message from the initiator's side: accepted
      exactly when its empty payload opens, with the keys the other way round. */
  lemma OpeningFollowsPattern(c: Suite, p: Params, s: InitSentState, m: Packet)
    requires m.HandshakeResponse?
    ensures var v := View(true, p.staticPrivate, s.ephemeralPrivate, p.peerStaticPublic, m.ephemeral, p.Psk());
            var st := Read(c, v, Symmetric(s.chainingKey, Zeros(32), s.hash), RESPONSE, [m.ephemeral]);
            && st.Some?
            && if st.value.Open(c, m.encryptedNothing) == Some([]) then
                 OpenResponse(c, p, s, m) ==
                 Ok(Session(s.localIndex, m.senderIdx, Split(c, st.value).1, Split(c, st.value).0, 0, Window(0, {}), 0))
               else OpenResponse(c, p, s, m) == Err(InvalidAeadTag)
  {
    var v := View(true, p.staticPrivate, s.ephemeralPrivate, p.peerStaticPublic, m.ephemeral, p.Psk());
    var st := Symmetric(s.chainingKey, Zeros(32), s.hash);
    ReadResponse(c, v, st, m.ephemeral);
    ResponseOutputs(c, s.chainingKey, m.ephemeral, v.Secret(c, EE), v.Secret(c, SE), p.Psk());
    ZeroNonce();
  }

  // ---------------------------------------------------------------- keys of the MACs

  function Ascii(s: string): Bytes
    requires forall i :: 0 <= i < |s| ==> s[i] < 128 as char
  {
    seq(|s|, i requires 0 <= i < |s| => s[i] as int)
  }

  lemma LabelBytes()
    ensures LABEL_MAC1 == Ascii("mac1----") && LABEL_COOKIE == Ascii("cookie--")
  {
  }

  /** The precomputed keys are those of section 5.4.4, for new parameters and after a
      change of the private key. */
  lemma PrecomputedKeys(c: Suite, priv: Key, peer: Key, psk: Option<Key>, priv2: Key)
    ensures LABEL_MAC1 == Ascii("mac1----") && LABEL_COOKIE == Ascii("cookie--")
    ensures var p := NewParams(c, priv, c.pub(priv), peer, psk);
            && p.Coherent(c) && p.staticPrivate == priv && p.peerStaticPublic == peer && p.presharedKey == psk
            && p.Psk() == (if psk.Some? then psk.value else Zeros(32))
            && p.sendingMac1Key == c.hash(Ascii("mac1----") + peer)
            && p.cookieKey == c.hash(Ascii("cookie--") + peer)
    ensures forall h: Handshake :: h.params.Coherent(c) ==>
              SetStaticPrivate(c, h, priv2, c.pub(priv2)).params.Coherent(c)
  {
  }
}
