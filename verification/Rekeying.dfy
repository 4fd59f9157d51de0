/** When `update_timers` acts, in seconds: new keys, retransmissions, keepalives,
    giving up (noise/timers.rs; section 6 of the WireGuard paper). */
module Rekeying {
  import opened Common
  import opened Crypto
  import opened Noise
  import opened Sessions
  import opened Tunnel
  import opened TunnelInvariants
  import opened TunnelRuns
  import opened Keepalives
  import opened Nonces
  import opened Wire
  import HR = HandshakeRuns

  function Secs(n: nat): nat {
    n * 1_000_000_000
  }

  /** The initiator's keys are worn: 120 seconds old and used to send, or 165 seconds
      old and used to receive. */
  predicate KeysWorn(tm: Timers, now: nat) {
    var born := tm.At(TimeSessionEstablished);
    && tm.isInitiator
    && (|| (tm.At(TimeLastDataPacketSent) > born && now >= born + Secs(120))
        || (tm.At(TimeLastDataPacketReceived) > born && now >= born + Secs(165)))
  }

  /** Data sent stayed without any answer for 15 seconds. */
  predicate Unanswered(tm: Timers, now: nat) {
    var heard := tm.At(TimeLastPacketReceived);
    tm.wantHandshake && tm.At(TimeLastDataPacketSent) > heard && now >= heard + Secs(15)
  }

  /** Data received stayed without any answer from here for 10 seconds. */
  predicate OwesAnswer(tm: Timers, now: nat) {
    var said := tm.At(TimeLastPacketSent);
    tm.wantKeepalive && tm.At(TimeLastDataPacketReceived) > said && now >= said + Secs(10)
  }

  predicate HeartbeatDue(tm: Timers, now: nat) {
    tm.persistentKeepalive > 0 && now >= tm.At(TimePersistentKeepalive) + Secs(tm.persistentKeepalive)
  }

  /** The session to send on is there and at most 180 seconds old. */
  predicate HasSession(t: Tunn, now: nat) {
    t.CurrentSession().Some? && now <= t.timers.sessionTimers[t.current % 8] + Secs(180)
  }

  datatype Decision = StaysExpired | GivesUp | Initiates | SendsKeepalive | KeepsQuiet

  /** What an update decides, from the tunnel as it finds it. */
  function Decide(t: Tunn, now: nat): Decision {
    var tm := t.timers;
    if t.handshake.state.Expired? then StaysExpired
    else if now >= tm.At(TimeSessionEstablished) + Secs(540) then GivesUp
    else if t.handshake.state.InitSent? then
      if now >= tm.At(TimeLastHandshakeStarted) + Secs(90) then GivesUp
      else if now >= t.handshake.state.sent.timeSent + Secs(5) then Initiates
      else KeepsQuiet
    else if KeysWorn(tm, now) || Unanswered(tm, now) then Initiates
    else if OwesAnswer(tm, now) || HeartbeatDue(tm, now) then if HasSession(t, now) then SendsKeepalive else Initiates
    else KeepsQuiet
  }

  /** A first handshake message went out and its answer is awaited. */
  predicate Initiation(t: Tunn, now: nat, t': Tunn, r: TunnResult) {
    && r.WriteToNetwork? && |r.datagram| >= 4 && r.datagram[..4] == [1, 0, 0, 0]
    && t'.handshake.state.InitSent? && t'.handshake.state.sent.timeSent == now
    && t'.handshake.nextIndex == t'.handshake.state.sent.localIndex == IncIndex(t.handshake.nextIndex)
    && t'.handshake.previous == t.handshake.state
  }

  /** An empty packet went out on the session `s`. */
  predicate Keepalive(c: Suite, s: Session, r: TunnResult) {
    && r.WriteToNetwork? && |r.datagram| >= 16 && r.datagram[..4] == [4, 0, 0, 0]
    && r.datagram[16..] == c.seal(s.sender, WireNonce(r.datagram), [], [])
  }

  predicate GaveUp(t': Tunn, r: TunnResult) {
    && r == Error(ConnectionExpired)
    && t'.handshake.state.Expired? && t'.handshake.previous.Expired? && t'.sessions == EmptyRing && t'.queue == []
  }

  ghost predicate Carried(c: Suite, t: Tunn, now: nat, t': Tunn, r: TunnResult) {
    match Decide(t, now)
    case StaysExpired => r == Error(ConnectionExpired) && t'.handshake == t.handshake
    case GivesUp => GaveUp(t', r)
    case Initiates => Initiation(t, now, t', r)
    case SendsKeepalive =>
      t.CurrentSession().Some? && Keepalive(c, t.CurrentSession().value, r) && t'.handshake.state == t.handshake.state
    case KeepsQuiet => r == Done && t'.handshake.state == t.handshake.state && t'.queue == t.queue
  }

  // ---------------------------------------------------------------- proofs

  lemma InitiationStarts(c: Suite, t: Tunn, e: Env, force: bool)
    requires e.dstLen >= HANDSHAKE_INIT_SZ && (force || !t.handshake.IsInProgress())
    ensures var (t', r) := FormatInitiation(c, t, e, force); Initiation(t, e.now, t', r)
  {
    InitiationShape(c, t.handshake, e);
    InitiationKind(c, t.handshake, e);
  }

  lemma InitiationKind(c: Suite, h: Handshake, e: Env)
    requires e.dstLen >= HANDSHAKE_INIT_SZ
    ensures var r := FormatHandshakeInitiation(c, h, e.eph, e.stamp, e.now, e.dstLen).1;
            r.Ok? && |r.value| >= 4 && r.value[..4] == [1, 0, 0, 0]
  {
    SmallLe(1);
  }

  lemma SentOnSession(c: Suite, t: Tunn, e: Env)
    requires t.CurrentSession().Some?
    ensures var (t', r) := Encapsulate(c, t, [], e);
            Keepalive(c, t.CurrentSession().value, r) && t'.handshake == t.handshake
  {
    SealedUnderCounter(c, t.CurrentSession().value, []);
  }

  /** The tunnel the decisions are made on, against the one the update found. */
  predicate SameButSwept(t: Tunn, now: nat, t2: Tunn) {
    && t2.handshake == t.handshake.(cookies := t2.handshake.cookies)
    && t2.queue == t.queue && t2.current == t.current
    && t2.timers.timers == t.timers.timers[0 := now]
    && t2.timers.isInitiator == t.timers.isInitiator && t2.timers.persistentKeepalive == t.timers.persistentKeepalive
    && t2.timers.wantHandshake == t.timers.wantHandshake && t2.timers.wantKeepalive == t.timers.wantKeepalive
    && t2.CurrentSession() == if HasSession(t, now) then t.CurrentSession() else None
  }

  lemma DecidingSwept(t: Tunn, now: nat)
    ensures SameButSwept(t, now, Deciding(t, now))
  {
    SweepByAge(t, now, t.current % N_SESSIONS);
  }

  /** The conditions in the program's terms. */
  lemma SameConditions(t: Tunn, now: nat, t2: Tunn)
    requires SameButSwept(t, now, t2)
    ensures StartDue(t2.timers, now) <==> KeysWorn(t.timers, now) || Unanswered(t.timers, now)
    ensures KeepaliveDue(t2.timers, now) <==> OwesAnswer(t.timers, now) || HeartbeatDue(t.timers, now)
  {
  }

  lemma IdleDecides(c: Suite, t: Tunn, e: Env, t2: Tunn)
    requires SameButSwept(t, e.now, t2) && t.handshake.state.NoHandshake? && e.dstLen >= HANDSHAKE_INIT_SZ
    requires e.now < t.timers.At(TimeSessionEstablished) + Secs(540)
    ensures var (t', r) := UpdateWhenIdle(c, t2, e); Carried(c, t, e.now, t', r)
  {
    SameConditions(t, e.now, t2);
    var t3 := t2.(timers := IdleTimers(t2.timers, e.now));
    if StartDue(t2.timers, e.now) {
      InitiationStarts(c, t2.(timers := HeardTimers(t2.timers, e.now)), e, true);
    } else if KeepaliveDue(t2.timers, e.now) {
      if HasSession(t, e.now) {
        SentOnSession(c, t3, e);
      } else {
        InitiationStarts(c, t3.(queue := Enqueue(t3.queue, [])), e, false);
      }
    }
  }

  lemma InFlightDecides(c: Suite, t: Tunn, e: Env, t2: Tunn)
    requires SameButSwept(t, e.now, t2) && t.handshake.state.InitSent? && e.dstLen >= HANDSHAKE_INIT_SZ
    requires e.now < t.timers.At(TimeSessionEstablished) + Secs(540)
    ensures var (t', r) := UpdateInFlight(c, t2, e, t.handshake.state.sent.timeSent); Carried(c, t, e.now, t', r)
  {
    InitiationStarts(c, t2, e, true);
  }

  /** An update does what `Decide` says, and so emits an initiation or a keepalive
      exactly when it says so. */
  lemma UpdateDecides(c: Suite, t: Tunn, e: Env)
    requires HR.Inv(t.handshake) && e.dstLen >= HANDSHAKE_INIT_SZ
    ensures var (t', r) := UpdateTimers(c, t, e); Carried(c, t, e.now, t', r)
  {
    DecidingSwept(t, e.now);
    var t2 := Deciding(t, e.now);
    if !t.handshake.state.Expired? && e.now < t.timers.At(TimeSessionEstablished) + Secs(540) {
      if t.handshake.state.InitSent? {
        InFlightDecides(c, t, e, t2);
      } else {
        IdleDecides(c, t, e, t2);
      }
    }
  }

  /** What sending does: with a session the packet goes out sealed; without one it is
      queued, and starts a handshake unless one is in flight already, an expired
      tunnel's included. */
  lemma SendDecides(c: Suite, t: Tunn, src: Bytes, e: Env)
    requires HR.Inv(t.handshake) && e.dstLen >= HANDSHAKE_INIT_SZ
    ensures var (t', r) := Encapsulate(c, t, src, e);
            if t.CurrentSession().Some? then
              && r == WriteToNetwork(FormatPacketData(c, t.CurrentSession().value, src).1)
              && t'.queue == t.queue && t'.handshake == t.handshake
            else
              && t'.queue == (if |t.queue| < 256 then t.queue + [src] else t.queue) && t'.sessions == t.sessions
              && if t.handshake.state.InitSent? then r == Done && t'.handshake == t.handshake
                 else Initiation(t, e.now, t', r)
  {
    if t.CurrentSession().None? && !t.handshake.state.InitSent? {
      InitiationStarts(c, t.(queue := Enqueue(t.queue, src)), e, false);
    }
  }

  /** So does asking for a handshake, which may be forced on one in flight. */
  lemma StartDecides(c: Suite, t: Tunn, e: Env, force: bool)
    requires HR.Inv(t.handshake) && e.dstLen >= HANDSHAKE_INIT_SZ
    ensures var (t', r) := FormatInitiation(c, t, e, force);
            if t.handshake.state.InitSent? && !force then (t', r) == (t, Done) else Initiation(t, e.now, t', r)
  {
    if force || !t.handshake.state.InitSent? {
      InitiationStarts(c, t, e, force);
    }
  }

  /** An update drops a cookie once it is 120 seconds old, and no sooner. */
  lemma CookieExpiry(c: Suite, t: Tunn, now: nat)
    ensures Deciding(t, now).handshake.cookies.writeCookie ==
            if now >= t.timers.At(TimeCookieReceived) + Secs(120) then None else t.handshake.cookies.writeCookie
  {
  }
}
