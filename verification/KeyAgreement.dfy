/** Initiator and responder derive the same keys, though they compute them by
    different code: first message by message, then over every run of two parties
    whose network may deliver any bytes at all, in any order, any number of
    times. */
module KeyAgreement {
  import opened Common
  import opened Crypto
  import opened Noise
  import opened Sessions
  import opened Timestamps
  import opened Wire
  import HR = HandshakeRuns

  /** Two parties configured for each other; an absent preshared key counts as
      the all-zero key. */
  predicate Paired(c: Suite, i: Params, r: Params) {
    && i.Coherent(c) && r.Coherent(c)
    && i.peerStaticPublic == r.staticPublic
    && r.peerStaticPublic == i.staticPublic
    && i.Psk() == r.Psk()
  }

  /** The responder reads an initiation to exactly the transcript its sender
      keeps; the anonymous reader finds the sender's public key in it. */
  lemma ResponderReadsInitiation(c: Suite, i: Params, r: Params, localIndex: u32, eph: Key, stamp: Stamp, now: nat)
    requires c.Lawful() && Paired(c, i, r)
    ensures var (s, m) := MakeInitiation(c, i, localIndex, eph, stamp, now);
            && WellSized(m)
            && OpenInitiation(c, r, m) == Ok((Received(s.hash, s.chainingKey, c.pub(eph), localIndex), Parse(stamp)))
            && ParseHandshakeAnon(c, r.staticPrivate, r.staticPublic, m) ==
               Ok(HalfHandshake(localIndex, i.staticPublic))
  {
  }

  /** The initiator reads the response built on that transcript, and the two
      sessions cross. */
  lemma InitiatorReadsResponse(c: Suite, i: Params, r: Params, s: InitSentState, localIndex: u32, eph: Key)
    requires c.Lawful() && Paired(c, i, r)
    ensures var (m, sr) := MakeResponse(c, r,
                                        Received(s.hash, s.chainingKey, c.pub(s.ephemeralPrivate), s.localIndex),
                                        localIndex, eph);
            && WellSized(m)
            && OpenResponse(c, i, s, m).Ok?
            && Crossed(OpenResponse(c, i, s, m).value, sr)
  {
  }

  // ---------------------------------------------------------------- two parties

  datatype Party = Alice | Bob

  function Other(p: Party): Party {
    if p.Alice? then Bob else Alice
  }

  /** The history of the exchange.  Datagrams are the bytes on the wire. */
  datatype Event =
    | Initiated(who: Party, stamp: Stamp, sent: InitSentState, datagram: Bytes)
    | Responded(who: Party, eph: Key, init: Bytes, resp: Bytes, session: Session)
    | Completed(who: Party, sent: InitSentState, resp: Bytes, session: Session)

  datatype Pair<T> = Pair(alice: T, bob: T) {
    function Of(p: Party): T {
      if p.Alice? then alice else bob
    }

    function With(p: Party, x: T): Pair<T> {
      if p.Alice? then this.(alice := x) else this.(bob := x)
    }
  }

  datatype World = World(hs: Pair<Handshake>, log: seq<Event>)

  datatype Act =
    | Initiate(who: Party, eph: Key, stamp: Stamp, now: nat)
    | Deliver(who: Party, datagram: Bytes, eph: Key, now: nat)  // any bytes, at any time
    | Expire(who: Party)
    | DropCookie(who: Party)

  /** One party reads a datagram; buffers obey the documented contract. */
  function DeliverTo(c: Suite, w: World, p: Party, datagram: Bytes, eph: Key, now: nat): World
  {
    var h := w.hs.Of(p);
    match ParseIncomingPacket(datagram)
    case Err(_) => w
    case Ok(m) =>
      match m
      case HandshakeInit(_, _, _, _) =>
        var (h', r) := ReceiveHandshakeInitialization(c, h, m, eph, HANDSHAKE_INIT_SZ);
        World(w.hs.With(p, h'), if r.Ok? then w.log + [Responded(p, eph, datagram, r.value.0, r.value.1)] else w.log)
      case HandshakeResponse(_, _, _, _) =>
        var (h', r) := ReceiveHandshakeResponse(c, h, m, now);
        var s := if Answers(m, h.state) then h.state else h.previous;
        World(w.hs.With(p, h'), if r.Ok? then w.log + [Completed(p, s.sent, datagram, r.value)] else w.log)
      case PacketCookieReply(_, _, _) => w.(hs := w.hs.With(p, ReceiveCookieReply(c, h, m).0))
      case PacketData(_, _, _) => w
  }

  function Step(c: Suite, w: World, a: Act): World
  {
    match a
    case Initiate(p, eph, stamp, now) =>
      var (h', r) := FormatHandshakeInitiation(c, w.hs.Of(p), eph, stamp, now, HANDSHAKE_INIT_SZ);
      World(w.hs.With(p, h'), w.log + [Initiated(p, stamp, h'.state.sent, r.value)])
    case Deliver(p, d, eph, now) => DeliverTo(c, w, p, d, eph, now)
    case Expire(p) => w.(hs := w.hs.With(p, SetExpired(w.hs.Of(p))))
    case DropCookie(p) => w.(hs := w.hs.With(p, ClearCookie(w.hs.Of(p))))
  }

  function Run(c: Suite, alice: Handshake, bob: Handshake, acts: seq<Act>): World
  {
    if acts == [] then World(Pair(alice, bob), [])
    else Step(c, Run(c, alice, bob, acts[..|acts| - 1]), acts[|acts| - 1])
  }

  /** What each entry of the history stands for. */
  ghost predicate Justified(c: Suite, params: Pair<Params>, e: Event)
  {
    match e
    case Initiated(p, stamp, s, d) =>
      var (s', m) := MakeInitiation(c, params.Of(p), s.localIndex, s.ephemeralPrivate, stamp, s.timeSent);
      s == s' && ParseIncomingPacket(d) == Ok(m)
    case Responded(p, eph, d1, d2, session) =>
      && ParseIncomingPacket(d1).Ok?
      && ParseIncomingPacket(d1).value.HandshakeInit?
      && OpenInitiation(c, params.Of(p), ParseIncomingPacket(d1).value).Ok?
      && var rec := OpenInitiation(c, params.Of(p), ParseIncomingPacket(d1).value).value.0;
         var (m, s) := MakeResponse(c, params.Of(p), rec, session.receivingIndex, eph);
         s == session && ParseIncomingPacket(d2) == Ok(m)
    case Completed(p, s, d2, session) =>
      && ParseIncomingPacket(d2).Ok?
      && ParseIncomingPacket(d2).value.HandshakeResponse?
      && OpenResponse(c, params.Of(p), s, ParseIncomingPacket(d2).value) == Ok(session)
  }

  ghost predicate LogInv(c: Suite, params: Pair<Params>, w: World) {
    && (forall p: Party :: w.hs.Of(p).params == params.Of(p) && HR.Inv(w.hs.Of(p)))
    && (forall e :: e in w.log ==> Justified(c, params, e))
  }

  /** The datagram of an initiation parses back to the message made. */
  lemma InitiationOnTheWire(c: Suite, h: Handshake, eph: Key, stamp: Stamp, now: nat, dstLen: nat)
    requires c.Lawful() && dstLen >= HANDSHAKE_INIT_SZ
    ensures var (h', r) := FormatHandshakeInitiation(c, h, eph, stamp, now, dstLen);
            var (s, m) := MakeInitiation(c, h.params, IncIndex(h.nextIndex), eph, stamp, now);
            && r.Ok? && h'.params == h.params && h'.state == InitSent(s)
            && s.localIndex == IncIndex(h.nextIndex) && s.ephemeralPrivate == eph && s.timeSent == now
            && ParseIncomingPacket(r.value) == Ok(m)
  {
    var index := IncIndex(h.nextIndex);
    var (s, m) := MakeInitiation(c, h.params, index, eph, stamp, now);
    var h1 := h.(nextIndex := index, previous := h.state, state := InitSent(s));
    MacsParse(c, h1, index, m);
  }

  lemma MacsParse(c: Suite, h: Handshake, index: u32, m: Packet)
    requires WellSized(m) && (m.HandshakeInit? || m.HandshakeResponse?)
    ensures ParseIncomingPacket(AppendMacs(c, h, index, Encode(m)).1) == Ok(m)
    ensures AppendMacs(c, h, index, Encode(m)).0 == h.(cookies := AppendMacs(c, h, index, Encode(m)).0.cookies)
  {
    var mac1 := c.mac16(h.params.sendingMac1Key, Encode(m));
    var mac2 :=
      if h.cookies.writeCookie.Some? then c.mac16(h.cookies.writeCookie.value, Encode(m) + mac1) else ZERO_MAC;
    ParseEncode(m, mac1 + mac2);
  }

  /** So does the datagram of a response. */
  lemma ResponseOnTheWire(c: Suite, h: Handshake, m: Packet, eph: Key, dstLen: nat)
    requires c.Lawful() && m.HandshakeInit? && dstLen >= HANDSHAKE_INIT_SZ
    ensures var (h', r) := ReceiveHandshakeInitialization(c, h, m, eph, dstLen);
            && h'.params == h.params
            && (r.Ok? ==> OpenInitiation(c, h.params, m).Ok?)
            && (r.Ok? ==> var rec := OpenInitiation(c, h.params, m).value.0;
                          var (m2, s) := MakeResponse(c, h.params, rec, r.value.1.receivingIndex, eph);
                          s == r.value.1 && ParseIncomingPacket(r.value.0) == Ok(m2))
  {
    var (h', r) := ReceiveHandshakeInitialization(c, h, m, eph, dstLen);
    if r.Ok? {
      var (rec, stamp) := OpenInitiation(c, h.params, m).value;
      var index := IncIndex(h.nextIndex);
      var (m2, s) := MakeResponse(c, h.params, rec, index, eph);
      var h1 := h.(lastTimestamp := stamp, previous := h.state, state := NoHandshake, nextIndex := index);
      MacsParse(c, h1, index, m2);
    }
  }

  lemma EntryKeepsInv(c: Suite, params: Pair<Params>, w: World, p: Party, h': Handshake, e: Event)
    requires LogInv(c, params, w) && h'.params == params.Of(p) && HR.Inv(h') && Justified(c, params, e)
    ensures LogInv(c, params, World(w.hs.With(p, h'), w.log + [e]))
  {
  }

  lemma QuietKeepsInv(c: Suite, params: Pair<Params>, w: World, p: Party, h': Handshake)
    requires LogInv(c, params, w) && h'.params == params.Of(p) && HR.Inv(h')
    ensures LogInv(c, params, World(w.hs.With(p, h'), w.log))
  {
  }

  lemma InitiateKeepsInv(c: Suite, params: Pair<Params>, w: World, p: Party, eph: Key, stamp: Stamp, now: nat)
    requires c.Lawful() && LogInv(c, params, w)
    ensures LogInv(c, params, Step(c, w, Initiate(p, eph, stamp, now)))
  {
    var h := w.hs.Of(p);
    var (h', r) := FormatHandshakeInitiation(c, h, eph, stamp, now, HANDSHAKE_INIT_SZ);
    HR.ApplyKeepsInv(c, h, HR.Initiate(eph, stamp, now, HANDSHAKE_INIT_SZ));
    InitiationOnTheWire(c, h, eph, stamp, now, HANDSHAKE_INIT_SZ);
    EntryKeepsInv(c, params, w, p, h', Initiated(p, stamp, h'.state.sent, r.value));
  }

  lemma ReadInitiationKeepsInv(c: Suite, params: Pair<Params>, w: World, p: Party, d: Bytes, eph: Key, now: nat)
    requires c.Lawful() && LogInv(c, params, w)
    requires ParseIncomingPacket(d).Ok? && ParseIncomingPacket(d).value.HandshakeInit?
    ensures LogInv(c, params, DeliverTo(c, w, p, d, eph, now))
  {
    var h, m := w.hs.Of(p), ParseIncomingPacket(d).value;
    var (h', r) := ReceiveHandshakeInitialization(c, h, m, eph, HANDSHAKE_INIT_SZ);
    HR.ApplyKeepsInv(c, h, HR.OnInitiation(m, eph, HANDSHAKE_INIT_SZ));
    ResponseOnTheWire(c, h, m, eph, HANDSHAKE_INIT_SZ);
    if r.Ok? {
      EntryKeepsInv(c, params, w, p, h', Responded(p, eph, d, r.value.0, r.value.1));
    } else {
      QuietKeepsInv(c, params, w, p, h');
    }
  }

  lemma ReadResponseKeepsInv(c: Suite, params: Pair<Params>, w: World, p: Party, d: Bytes, eph: Key, now: nat)
    requires c.Lawful() && LogInv(c, params, w)
    requires ParseIncomingPacket(d).Ok? && ParseIncomingPacket(d).value.HandshakeResponse?
    ensures LogInv(c, params, DeliverTo(c, w, p, d, eph, now))
  {
    var h, m := w.hs.Of(p), ParseIncomingPacket(d).value;
    var (h', r) := ReceiveHandshakeResponse(c, h, m, now);
    HR.ApplyKeepsInv(c, h, HR.OnResponse(m, now));
    if r.Ok? {
      var s := if Answers(m, h.state) then h.state else h.previous;
      assert Justified(c, params, Completed(p, s.sent, d, r.value));
      EntryKeepsInv(c, params, w, p, h', Completed(p, s.sent, d, r.value));
    } else {
      QuietKeepsInv(c, params, w, p, h');
    }
  }

  lemma ReadCookieKeepsInv(c: Suite, params: Pair<Params>, w: World, p: Party, d: Bytes, eph: Key, now: nat)
    requires c.Lawful() && LogInv(c, params, w)
    requires ParseIncomingPacket(d).Ok? && ParseIncomingPacket(d).value.PacketCookieReply?
    ensures LogInv(c, params, DeliverTo(c, w, p, d, eph, now))
  {
    var h, m := w.hs.Of(p), ParseIncomingPacket(d).value;
    HR.ApplyKeepsInv(c, h, HR.OnCookieReply(m));
    QuietKeepsInv(c, params, w, p, ReceiveCookieReply(c, h, m).0);
  }

  lemma DeliverKeepsInv(c: Suite, params: Pair<Params>, w: World, p: Party, d: Bytes, eph: Key, now: nat)
    requires c.Lawful() && LogInv(c, params, w)
    ensures LogInv(c, params, DeliverTo(c, w, p, d, eph, now))
  {
    if ParseIncomingPacket(d).Ok? {
      match ParseIncomingPacket(d).value
      case HandshakeInit(_, _, _, _) => ReadInitiationKeepsInv(c, params, w, p, d, eph, now);
      case HandshakeResponse(_, _, _, _) => ReadResponseKeepsInv(c, params, w, p, d, eph, now);
      case PacketCookieReply(_, _, _) => ReadCookieKeepsInv(c, params, w, p, d, eph, now);
      case PacketData(_, _, _) =>
    }
  }

  lemma StepKeepsInv(c: Suite, params: Pair<Params>, w: World, a: Act)
    requires c.Lawful() && LogInv(c, params, w)
    ensures LogInv(c, params, Step(c, w, a))
  {
    match a
    case Initiate(p, eph, stamp, now) => InitiateKeepsInv(c, params, w, p, eph, stamp, now);
    case Deliver(p, d, eph, now) => DeliverKeepsInv(c, params, w, p, d, eph, now);
    case Expire(p) => QuietKeepsInv(c, params, w, p, SetExpired(w.hs.Of(p)));
    case DropCookie(p) => QuietKeepsInv(c, params, w, p, ClearCookie(w.hs.Of(p)));
  }

  predicate Start(c: Suite, alice: Handshake, bob: Handshake) {
    Paired(c, alice.params, bob.params) && HR.Inv(alice) && HR.Inv(bob)
  }

  lemma {:induction false} RunKeepsInv(c: Suite, alice: Handshake, bob: Handshake, acts: seq<Act>)
    requires c.Lawful() && Start(c, alice, bob)
    ensures LogInv(c, Pair(alice.params, bob.params), Run(c, alice, bob, acts))
  {
    if acts != [] {
      RunKeepsInv(c, alice, bob, acts[..|acts| - 1]);
      StepKeepsInv(c, Pair(alice.params, bob.params), Run(c, alice, bob, acts[..|acts| - 1]), acts[|acts| - 1]);
    }
  }

  /** An initiation, an answer to its very bytes, and the state that awaits it:
      reading the answer gives a session that crosses the responder's. */
  lemma ExchangeAgrees(c: Suite, params: Pair<Params>, p: Party, e1: Event, e2: Event)
    requires c.Lawful() && Paired(c, params.alice, params.bob)
    requires e1.Initiated? && e1.who == p && Justified(c, params, e1)
    requires e2.Responded? && e2.who == Other(p) && e2.init == e1.datagram && Justified(c, params, e2)
    ensures ParseIncomingPacket(e2.resp).value.HandshakeResponse?
    ensures ParseIncomingPacket(e2.resp).value.receiverIdx == e1.sent.localIndex
    ensures var r := OpenResponse(c, params.Of(p), e1.sent, ParseIncomingPacket(e2.resp).value);
            r.Ok? && Crossed(r.value, e2.session)
  {
    var q := Other(p);
    var s := e1.sent;
    assert Paired(c, params.Of(p), params.Of(q));
    ResponderReadsInitiation(c, params.Of(p), params.Of(q), s.localIndex, s.ephemeralPrivate, e1.stamp, s.timeSent);
    InitiatorReadsResponse(c, params.Of(p), params.Of(q), s, e2.session.receivingIndex, e2.eph);
  }

  /** Key agreement: in every run, whenever a party completes one of its
      initiations with the answer its peer gave to that initiation, each side's
      sending key is the other's receiving key and the indices cross. */
  lemma KeyAgreementOverRuns(c: Suite, alice: Handshake, bob: Handshake, acts: seq<Act>, e1: Event, e2: Event,
                             e3: Event)
    requires c.Lawful() && Start(c, alice, bob)
    requires var log := Run(c, alice, bob, acts).log; e1 in log && e2 in log && e3 in log
    requires e1.Initiated? && e2.Responded? && e3.Completed?
    requires e3.who == e1.who && e3.sent == e1.sent
    requires e2.who == Other(e1.who) && e2.init == e1.datagram && e3.resp == e2.resp
    ensures Crossed(e3.session, e2.session)
  {
    var params := Pair(alice.params, bob.params);
    RunKeepsInv(c, alice, bob, acts);
    assert Justified(c, params, e1) && Justified(c, params, e2) && Justified(c, params, e3);
    ExchangeAgrees(c, params, e1.who, e1, e2);
  }

  /** And it does complete: while the initiation is in either slot, current or
      previous, delivering the answer makes the crossing session. */
  lemma AnswerCompletes(c: Suite, alice: Handshake, bob: Handshake, acts: seq<Act>, e1: Event, e2: Event, eph: Key,
                        now: nat)
    requires c.Lawful() && Start(c, alice, bob)
    requires var w := Run(c, alice, bob, acts);
             && e1 in w.log && e2 in w.log && e1.Initiated? && e2.Responded?
             && e2.who == Other(e1.who) && e2.init == e1.datagram
             && (w.hs.Of(e1.who).state == InitSent(e1.sent) || w.hs.Of(e1.who).previous == InitSent(e1.sent))
    ensures var w := Run(c, alice, bob, acts);
            var log := DeliverTo(c, w, e1.who, e2.resp, eph, now).log;
            && |log| == |w.log| + 1
            && log[|w.log|].Completed?
            && log[|w.log|].sent == e1.sent
            && Crossed(log[|w.log|].session, e2.session)
  {
    var w := Run(c, alice, bob, acts);
    var params := Pair(alice.params, bob.params);
    RunKeepsInv(c, alice, bob, acts);
    ExchangeAgrees(c, params, e1.who, e1, e2);
    HR.ResponseMatchesOnce(c, w.hs.Of(e1.who), ParseIncomingPacket(e2.resp).value, now);
  }
}
