/** The data packets a tunnel puts on the wire: which call emits what, under which
    session and counter. */
module Emissions {
  import opened Common
  import opened Crypto
  import opened Noise
  import opened Sessions
  import opened Tunnel
  import opened TunnelRuns
  import opened Keepalives
  import opened Conservation
  import opened Wire
  import KA = KeyAgreement

  /** A data packet a tunnel formatted: under which key and counter, for whom, and
      what is in it. */
  datatype Sealing = Sealing(index: u32, key: Key, counter: u64, plain: Bytes) {
    function OnTheWire(c: Suite): Packet {
      PacketData(index, counter, c.seal(key, CounterNonce(counter), [], plain))
    }
  }

  function SealWith(s: Session, plain: Bytes): Sealing {
    Sealing(s.sendingIndex, s.sender, s.sendingKeyCounter, plain)
  }

  function OnCurrent(t: Tunn, plain: Bytes): Option<Sealing> {
    if t.CurrentSession().Some? then Some(SealWith(t.CurrentSession().value, plain)) else None
  }

  /** The data packet a call formats, if it does. */
  function SealedBy(c: Suite, t: Tunn, m: Moment): Option<Sealing> {
    match m.op
    case Send(src) => OnCurrent(t, src)
    case Flush => if t.queue == [] then None else OnCurrent(t, t.queue[0])
    case Update => if DecidesKeepalive(t, m.env.now) then OnCurrent(Sending(t, m.env.now), []) else None
    case Handle(p) =>
      if p.HandshakeResponse? && ReceiveHandshakeResponse(c, t.handshake, p, m.env.now).1.Ok? then
        Some(SealWith(ReceiveHandshakeResponse(c, t.handshake, p, m.env.now).1.value, []))
      else None
    case _ => None
  }

  // ---------------------------------------------------------------- what is emitted

  /** The data packet a result puts on the wire, as its reader sees it. */
  function DataOf(r: TunnResult): Option<Packet> {
    if r.WriteToNetwork? && ParseIncomingPacket(r.datagram).Ok? && ParseIncomingPacket(r.datagram).value.PacketData?
    then Some(ParseIncomingPacket(r.datagram).value)
    else None
  }

  function OnTheWire(c: Suite, x: Option<Sealing>): Option<Packet> {
    if x.Some? then Some(x.value.OnTheWire(c)) else None
  }

  lemma DataReadsBack(c: Suite, s: Session, src: Bytes)
    requires c.Lawful()
    ensures ParseIncomingPacket(FormatPacketData(c, s, src).1) == Ok(SealWith(s, src).OnTheWire(c))
  {
    ParseData(DataPacket(c, s, s.sendingKeyCounter, src));
  }

  lemma InitiationIsNoData(c: Suite, t: Tunn, e: Env, force: bool)
    requires c.Lawful() && e.dstLen >= HANDSHAKE_INIT_SZ
    ensures DataOf(FormatInitiation(c, t, e, force).1) == None && !FormatInitiation(c, t, e, force).1.Error?
  {
    KA.InitiationOnTheWire(c, t.handshake, e.eph, e.stamp, e.now, e.dstLen);
  }

  lemma EncapsulateEmits(c: Suite, t: Tunn, src: Bytes, e: Env)
    requires c.Lawful() && e.dstLen >= HANDSHAKE_INIT_SZ
    ensures DataOf(Encapsulate(c, t, src, e).1) == OnTheWire(c, OnCurrent(t, src))
            && !Encapsulate(c, t, src, e).1.Error?
  {
    if t.CurrentSession().Some? {
      DataReadsBack(c, t.CurrentSession().value, src);
    } else {
      InitiationIsNoData(c, t.(queue := Enqueue(t.queue, src)), e, false);
    }
  }

  lemma FlushEmits(c: Suite, t: Tunn, e: Env)
    requires c.Lawful() && e.dstLen >= HANDSHAKE_INIT_SZ && t.queue != []
    ensures DataOf(SendQueuedPacket(c, t, e).1) == OnTheWire(c, OnCurrent(t, t.queue[0]))
  {
    EncapsulateEmits(c, t.(queue := t.queue[1..]), t.queue[0], e);
  }

  lemma UpdateEmits(c: Suite, t: Tunn, e: Env)
    requires c.Lawful() && e.dstLen >= HANDSHAKE_INIT_SZ
    ensures DataOf(UpdateTimers(c, t, e).1) == OnTheWire(c, SealedBy(c, t, Moment(Update, e)))
  {
    if DecidesKeepalive(t, e.now) {
      KeepaliveIsEmptySend(c, t, e);
      EncapsulateEmits(c, Sending(t, e.now), [], e);
    } else {
      QuietUpdateEmits(c, t, e);
    }
  }

  lemma InFlightEmits(c: Suite, t: Tunn, e: Env, sent: nat)
    requires c.Lawful() && e.dstLen >= HANDSHAKE_INIT_SZ
    ensures DataOf(UpdateInFlight(c, t, e, sent).1) == None
  {
    InitiationIsNoData(c, t, e, true);
  }

  lemma StartEmits(c: Suite, t: Tunn, e: Env)
    requires c.Lawful() && e.dstLen >= HANDSHAKE_INIT_SZ
    requires StartDue(t.timers, e.now) || !KeepaliveDue(t.timers, e.now)
    ensures DataOf(UpdateWhenIdle(c, t, e).1) == None
  {
    InitiationIsNoData(c, t.(timers := HeardTimers(t.timers, e.now)), e, true);
  }

  lemma QuietUpdateEmits(c: Suite, t: Tunn, e: Env)
    requires c.Lawful() && e.dstLen >= HANDSHAKE_INIT_SZ && !DecidesKeepalive(t, e.now)
    ensures DataOf(UpdateTimers(c, t, e).1) == None
  {
    var t2 := Deciding(t, e.now);
    if t2.handshake.Timer().Some? {
      InFlightEmits(c, t2, e, t2.handshake.Timer().value);
    } else if DecidesIdle(t, e.now) {
      StartEmits(c, t2, e);
    }
  }

  lemma AnswerEmits(c: Suite, t: Tunn, p: Packet, e: Env)
    requires c.Lawful() && e.dstLen >= HANDSHAKE_INIT_SZ && p.HandshakeInit?
    ensures DataOf(HandleHandshakeInit(c, t, p, e).1) == None
  {
    KA.ResponseOnTheWire(c, t.handshake, p, e.eph, e.dstLen);
  }

  lemma ResponseEmits(c: Suite, t: Tunn, p: Packet, e: Env)
    requires c.Lawful() && p.HandshakeResponse?
    ensures DataOf(HandleHandshakeResponse(c, t, p, e).1) == OnTheWire(c, SealedBy(c, t, Moment(Handle(p), e)))
  {
    var (h, r) := ReceiveHandshakeResponse(c, t.handshake, p, e.now);
    if r.Ok? {
      DataReadsBack(c, r.value, []);
    }
  }

  lemma HandleEmits(c: Suite, t: Tunn, p: Packet, e: Env)
    requires c.Lawful() && e.dstLen >= HANDSHAKE_INIT_SZ
    ensures DataOf(HandleVerifiedPacket(c, t, p, e).1) == OnTheWire(c, SealedBy(c, t, Moment(Handle(p), e)))
  {
    match p
    case HandshakeInit(_, _, _, _) => AnswerEmits(c, t, p, e);
    case HandshakeResponse(_, _, _, _) => ResponseEmits(c, t, p, e);
    case PacketCookieReply(_, _, _) =>
    case PacketData(_, _, _) =>
  }

  /** A call puts a datagram that reads as data on the wire exactly when it seals a
      packet, and then that packet. */
  lemma CallEmits(c: Suite, t: Tunn, m: Moment)
    requires c.Lawful() && m.env.dstLen >= HANDSHAKE_INIT_SZ
    ensures DataOf(Call(c, t, m.op, m.env).1) == OnTheWire(c, SealedBy(c, t, m))
  {
    match m.op
    case Send(src) => EncapsulateEmits(c, t, src, m.env);
    case Flush => if t.queue != [] { FlushEmits(c, t, m.env); }
    case Update => UpdateEmits(c, t, m.env);
    case StartHandshake(force) => InitiationIsNoData(c, t, m.env, force);
    case NewKey(_, _) =>
    case Handle(p) => HandleEmits(c, t, p, m.env);
  }

  // ---------------------------------------------------------------- the ledger

  /** What the data datagram of a result opens to under the key `t` sends with. */
  function Opened(c: Suite, t: Tunn, r: TunnResult): Option<Bytes> {
    var d := DataOf(r);
    if d.Some? && t.CurrentSession().Some? then
      c.open(t.CurrentSession().value.sender, CounterNonce(d.value.counter), [], d.value.encrypted)
    else None
  }

  /** What the data datagrams that `encapsulate`, flushing and keepalives put on the
      wire open to, in order. */
  function Emitted(c: Suite, t0: Tunn, ms: seq<Moment>): seq<Bytes> {
    if ms == [] then []
    else
      var t, m := Run(c, t0, ms[..|ms| - 1]), ms[|ms| - 1];
      var before := Emitted(c, t0, ms[..|ms| - 1]);
      var plain := Opened(c, t, Call(c, t, m.op, m.env).1);
      if plain.Some? && !m.op.Handle? then before + [plain.value] else before
  }

  lemma SendingKeepsCurrent(t: Tunn, now: nat)
    ensures Sending(t, now).CurrentSession().Some? ==> Sending(t, now).CurrentSession() == t.CurrentSession()
  {
    SweepByAge(t, now, t.current % N_SESSIONS);
  }

  lemma SealedOnCurrent(c: Suite, t: Tunn, m: Moment)
    requires !m.op.Handle?
    ensures var x := SealedBy(c, t, m);
            x.Some? ==> t.CurrentSession().Some? && x.value == SealWith(t.CurrentSession().value, x.value.plain)
  {
    SendingKeepsCurrent(t, m.env.now);
  }

  /** The datagram of a call opens to the plaintext the call sealed. */
  lemma OpensToSealed(c: Suite, t: Tunn, m: Moment)
    requires c.Lawful() && m.env.dstLen >= HANDSHAKE_INIT_SZ && !m.op.Handle?
    ensures var x := SealedBy(c, t, m);
            Opened(c, t, Call(c, t, m.op, m.env).1) == if x.Some? then Some(x.value.plain) else None
  {
    CallEmits(c, t, m);
    SealedOnCurrent(c, t, m);
  }

  lemma BookedIsSealed(c: Suite, l: Ledger, t: Tunn, m: Moment)
    ensures var x := SealedBy(c, t, m);
            Book(c, l, t, m).sent == if x.Some? && !m.op.Handle? then l.sent + [x.value.plain] else l.sent
  {
  }

  /** What the ledger books as sent is what went out on the wire. */
  lemma {:induction false} SentIsEmitted(c: Suite, t0: Tunn, ms: seq<Moment>)
    requires c.Lawful() && Orderly(ms)
    ensures Books(c, t0, ms).sent == Emitted(c, t0, ms)
  {
    if ms != [] {
      var before, m := ms[..|ms| - 1], ms[|ms| - 1];
      SentIsEmitted(c, t0, before);
      if !m.op.Handle? {
        OpensToSealed(c, Run(c, t0, before), m);
      }
      BookedIsSealed(c, Books(c, t0, before), Run(c, t0, before), m);
    }
  }
}
