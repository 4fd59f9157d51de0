/** The tunnel object, over objects of its own: the handshake, the timers, the ring
    of sessions with their bitmaps, and the rate limiter. */
module Tunnels {
  import opened Common
  import opened Crypto
  import opened Noise
  import opened Handshakes
  import opened RateLimiters
  import opened Sessions
  import opened Timestamps
  import opened Tunnel
  import opened Wire
  import opened SessionRings
  import Loss

  const PEER_HANDSHAKE_RATE_LIMIT: u64 := 10

  /** What a new limiter takes from outside. */
  datatype Randomness = Randomness(nonceKey: Key, secretKey: Mac, clock: nat)

  /** The limiter of a tunnel that shares none. */
  function OwnLimiter(c: Suite, pub: Key, random: Randomness): Limiter {
    NewLimiter(c, pub, PEER_HANDSHAKE_RATE_LIMIT, random.nonceKey, random.secretKey, random.clock)
  }

  /** The timers of a tunnel, updated in place. */
  class LiveTimers {
    const timers: array<nat>
    const sessionTimers: array<nat>
    var isInitiator: bool
    var wantKeepalive: bool
    var wantHandshake: bool
    const persistentKeepalive: nat
    var shouldResetRr: bool

    ghost predicate Valid() {
      timers.Length == N_TIMERS && sessionTimers.Length == N_SESSIONS && timers != sessionTimers
    }

    function Model(): Timers
      requires Valid()
      reads this, timers, sessionTimers
    {
      Timers(isInitiator, timers[..], sessionTimers[..], wantKeepalive, wantHandshake, persistentKeepalive,
             shouldResetRr)
    }

    constructor (persistentKeepalive: nat, resetRr: bool)
      ensures Valid() && fresh(timers) && fresh(sessionTimers)
      ensures Model() == NewTimers(persistentKeepalive, resetRr)
    {
      isInitiator, wantKeepalive, wantHandshake := false, false, false;
      this.persistentKeepalive, shouldResetRr := persistentKeepalive, resetRr;
      timers := new nat[N_TIMERS](_ => 0);
      sessionTimers := new nat[N_SESSIONS](_ => 0);
    }

    method Tick(n: TimerName)
      requires Valid()
      modifies this`wantKeepalive, this`wantHandshake, timers
      ensures Model() == old(Model()).Tick(n)
    {
      match n {
        case TimeLastPacketReceived =>
          wantKeepalive, wantHandshake := true, false;
        case TimeLastPacketSent =>
          wantHandshake, wantKeepalive := true, false;
        case _ =>
      }
      timers[Slot(n)] := timers[Slot(TimeCurrent)];
    }

    method Established(initiator: bool, sessionIdx: nat)
      requires Valid()
      modifies this, timers, sessionTimers
      ensures Model() == old(Model()).Established(initiator, sessionIdx)
    {
      Tick(TimeSessionEstablished);
      sessionTimers[sessionIdx % N_SESSIONS] := timers[Slot(TimeCurrent)];
      isInitiator := initiator;
    }

    /** An initiation went out, the first of an attempt or another. */
    method InitiationSent(starting: bool)
      requires Valid()
      modifies this`wantKeepalive, this`wantHandshake, timers
      ensures var tm := if starting then old(Model()).Tick(TimeLastHandshakeStarted) else old(Model());
              Model() == tm.Tick(TimeLastPacketSent)
    {
      if starting {
        Tick(TimeLastHandshakeStarted);
      }
      Tick(TimeLastPacketSent);
    }

    /** A data packet went out; an empty one is only a keepalive. */
    method DataSent(src: Bytes)
      requires Valid()
      modifies this`wantKeepalive, this`wantHandshake, timers
      ensures var tm := old(Model()).Tick(TimeLastPacketSent);
              Model() == if src != [] then tm.Tick(TimeLastDataPacketSent) else tm
    {
      Tick(TimeLastPacketSent);
      if src != [] {
        Tick(TimeLastDataPacketSent);
      }
    }

    method Clear(now: nat)
      requires Valid()
      modifies this`wantKeepalive, this`wantHandshake, timers
      ensures Model() == old(Model()).Cleared(now)
    {
      for i := 0 to N_TIMERS
        invariant forall j :: 0 <= j < i ==> timers[j] == now
      {
        timers[i] := now;
      }
      wantHandshake, wantKeepalive := false, false;
    }
  }

  /** `decapsulate`: an empty datagram asks for the next queued packet; any other
      passes the limiter first. */
  function Decapsulate(c: Suite, t: Tunn, l: Limiter, addr: Option<IpAddr>, datagram: Bytes, e: Env, clock: nat)
    : (Tunn, Limiter, TunnResult)
  {
    if datagram == [] then
      var (t', r) := SendQueuedPacket(c, t, e);
      (t', l, r)
    else
      match VerifyPacket(c, l, addr, datagram, clock, COOKIE_REPLY_SZ) {
        case (l', Pass(m)) =>
          var (t', r) := HandleVerifiedPacket(c, t, m, e);
          (t', l', r)
        case (l', Reply(d)) => (t, l', WriteToNetwork(d))
        case (l', Refuse(error)) => (t, l', Error(error))
      }
  }

  /** The second half of `IdleTimers`. */
  function SaidTimers(tm: Timers, now: nat): Timers {
    var tm1 := if NothingSaid(tm, now) then tm.(wantKeepalive := false) else tm;
    if PersistentDue(tm, now) then tm1.Tick(TimePersistentKeepalive) else tm1
  }

  lemma IdleIsBoth(tm: Timers, now: nat)
    ensures IdleTimers(tm, now) == SaidTimers(HeardTimers(tm, now), now)
    ensures KeepaliveDue(HeardTimers(tm, now), now) == KeepaliveDue(tm, now)
  {
  }

  /** A session as `Session::new` makes it. */
  predicate IsNew(s: Session) {
    s == NewSession(s.receivingIndex, s.sendingIndex, s.receiver, s.sender)
  }

  lemma AnswerIsNew(c: Suite, h: Handshake, m: Packet, eph: Key, dstLen: nat)
    requires m.HandshakeInit?
    ensures var r := ReceiveHandshakeInitialization(c, h, m, eph, dstLen).1; r.Ok? ==> IsNew(r.value.1)
  {
  }

  lemma ResponseIsNew(c: Suite, h: Handshake, m: Packet, now: nat)
    requires m.HandshakeResponse?
    ensures var r := ReceiveHandshakeResponse(c, h, m, now).1; r.Ok? ==> IsNew(r.value)
  {
  }

  class LiveTunn {
    const handshake: LiveHandshake
    const timers: LiveTimers
    const ring: SessionRing
    var current: nat
    var queue: seq<Bytes>
    var txBytes: nat
    var rxBytes: nat
    var rateLimiter: RateLimiter

    ghost predicate Valid()
      reads this, ring, ring.slots, ring.home.Keys
    {
      && timers.Valid() && ring.Valid()
      && {this, handshake, timers, timers.timers, timers.sessionTimers, rateLimiter} !! ring.home.Keys
    }

    ghost function Model(): Tunn
      requires Valid()
      reads this, handshake, timers, timers.timers, timers.sessionTimers, ring, ring.slots, ring.home.Keys
    {
      Tunn(handshake.Model(), ring.model, current, queue, timers.Model(), txBytes, rxBytes)
    }

    /** Without a shared limiter the tunnel makes its own, with fresh random keys. */
    constructor (c: Suite, priv: Key, peer: Key, psk: Option<Key>, persistentKeepalive: nat, index: u32,
                 shared: RateLimiter?, random: Randomness)
      ensures Valid() && fresh(handshake) && fresh(timers) && fresh(timers.timers) && fresh(timers.sessionTimers)
      ensures fresh(ring) && fresh(ring.slots) && fresh(ring.home.Keys)
      ensures Model() == NewTunn(c, priv, peer, psk, persistentKeepalive, index, shared == null)
      ensures if shared == null then fresh(rateLimiter) && rateLimiter.Model() == OwnLimiter(c, c.pub(priv), random)
              else rateLimiter == shared
    {
      handshake := new LiveHandshake(c, priv, c.pub(priv), peer, index * 256 % U32, psk);
      timers := new LiveTimers(persistentKeepalive, shared == null);
      ring := new SessionRing();
      current, queue := 0, [];
      txBytes, rxBytes := 0, 0;
      if shared == null {
        rateLimiter := new RateLimiter(c, c.pub(priv), PEER_HANDSHAKE_RATE_LIMIT, random.nonceKey, random.secretKey,
                                       random.clock);
      } else {
        rateLimiter := shared;
      }
    }

    // -------------------------------------------------------------- the queue

    method QueuePacket(p: Bytes)
      modifies this`queue
      ensures queue == Enqueue(old(queue), p)
    {
      if |queue| < MAX_QUEUE_DEPTH {
        queue := queue + [p];
      }
    }

    method RequeuePacket(p: Bytes)
      modifies this`queue
      ensures queue == Requeue(old(queue), p)
    {
      if |queue| < MAX_QUEUE_DEPTH {
        queue := [p] + queue;
      }
    }

    method DequeuePacket() returns (p: Option<Bytes>)
      modifies this`queue
      ensures if old(queue) == [] then p == None && queue == []
              else p == Some(old(queue)[0]) && queue == old(queue)[1..]
    {
      if queue == [] {
        return None;
      }
      p, queue := Some(queue[0]), queue[1..];
    }

    // -------------------------------------------------------------- sending

    method FormatHandshakeInitiation(c: Suite, e: Env, force: bool) returns (r: TunnResult)
      requires Valid()
      modifies handshake, timers, timers.timers
      ensures Valid() && (Model(), r) == FormatInitiation(c, old(Model()), e, force)
    {
      var inProgress := handshake.Model().IsInProgress();
      if inProgress && !force {
        return Done;
      }
      if handshake.Model().IsExpired() {
        timers.Clear(e.now);
      }
      var packet := handshake.FormatInitiation(c, e.eph, e.stamp, e.now, e.dstLen);
      if packet.Err? {
        return Error(packet.error);
      }
      timers.InitiationSent(!inProgress);
      return WriteToNetwork(packet.value);
    }

    /** Given a buffer too small for the packet the program stops. */
    method EncapsulatePacket(c: Suite, src: Bytes, e: Env) returns (r: TunnResult)
      requires Valid() && e.dstLen >= |src| + DATA_OVERHEAD_SZ
      modifies this`queue, this`txBytes, ring`model, ring.home.Keys, handshake, timers, timers.timers
      ensures Valid() && (Model(), r) == Encapsulate(c, old(Model()), src, e)
    {
      var slot := current % N_SESSIONS;
      if ring.Live(slot) {
        var packet := ring.Format(slot, c, src, e.dstLen);
        timers.DataSent(src);
        txBytes := txBytes + |src|;
        return WriteToNetwork(packet);
      }
      QueuePacket(src);
      r := FormatHandshakeInitiation(c, e, false);
    }

    method SendQueued(c: Suite, e: Env) returns (r: TunnResult)
      requires Valid() && (queue != [] ==> e.dstLen >= |queue[0]| + DATA_OVERHEAD_SZ)
      modifies this`queue, this`txBytes, ring`model, ring.home.Keys, handshake, timers, timers.timers
      ensures Valid() && (Model(), r) == SendQueuedPacket(c, old(Model()), e)
    {
      var packet := DequeuePacket();
      if packet.Some? {
        r := EncapsulatePacket(c, packet.value, e);
        if !r.Error? {
          return;
        }
        RequeuePacket(packet.value);
      }
      return Done;
    }

    // -------------------------------------------------------------- receiving

    method UseSession(newIdx: nat)
      requires Valid()
      modifies this`current
      ensures Valid() && Model() == SetCurrentSession(old(Model()), newIdx)
    {
      if current == newIdx {
        return;
      }
      if !ring.Live(current % N_SESSIONS)
         || timers.sessionTimers[newIdx % N_SESSIONS] >= timers.sessionTimers[current % N_SESSIONS]
      {
        current := newIdx;
      }
    }

    /** A session just agreed on becomes an object in its slot. */
    method EnterSession(session: Session)
      requires Valid() && IsNew(session)
      modifies ring, ring.slots
      ensures Valid() && fresh(ring.home.Keys - old(ring.home.Keys))
      ensures var i := session.receivingIndex % N_SESSIONS;
              && Model() == old(Model()).(sessions := old(Model().sessions)[i := Some(session)])
              && ring.slots[i] != null && fresh(ring.slots[i])
    {
      ring.Create(session.receivingIndex % N_SESSIONS, session.receivingIndex, session.sendingIndex,
                  session.receiver, session.sender);
    }

    /** What follows an answered initiation. */
    method Answered(packet: Bytes, session: Session) returns (r: TunnResult)
      requires Valid() && IsNew(session)
      modifies ring, ring.slots, timers, timers.timers, timers.sessionTimers
      ensures Valid() && fresh(ring.home.Keys - old(ring.home.Keys))
      ensures (Model(), r) == AfterAnswer(old(Model()), handshake.Model(), Ok((packet, session)))
    {
      EnterSession(session);
      timers.Tick(TimeLastPacketReceived);
      timers.Tick(TimeLastPacketSent);
      timers.Established(false, session.receivingIndex);
      return WriteToNetwork(packet);
    }

    method HandleInit(c: Suite, m: Packet, e: Env) returns (r: TunnResult)
      requires Valid() && m.HandshakeInit?
      modifies ring, ring.slots, handshake, timers, timers.timers, timers.sessionTimers
      ensures Valid() && fresh(ring.home.Keys - old(ring.home.Keys))
      ensures (Model(), r) == HandleHandshakeInit(c, old(Model()), m, e)
    {
      AnswerIsNew(c, handshake.Model(), m, e.eph, e.dstLen);
      var answer := handshake.ReceiveInitialization(c, m, e.eph, e.dstLen);
      if answer.Err? {
        return Error(answer.error);
      }
      r := Answered(answer.value.0, answer.value.1);
    }

    /** What follows a completed handshake: a keepalive on the new session. */
    method Completed(c: Suite, session: Session, e: Env) returns (r: TunnResult)
      requires Valid() && IsNew(session) && e.dstLen >= DATA_OVERHEAD_SZ
      modifies this`current, ring, ring.slots, timers, timers.timers, timers.sessionTimers
      ensures Valid() && fresh(ring.home.Keys - old(ring.home.Keys))
      ensures (Model(), r) == AfterResponse(c, old(Model()), handshake.Model(), Ok(session))
    {
      var localIdx := session.receivingIndex;
      var index := localIdx % N_SESSIONS;
      var keepalive := EnterAndFormat(c, session, e);
      timers.Tick(TimeLastPacketReceived);
      timers.Established(true, index);
      UseSession(localIdx);
      return WriteToNetwork(keepalive);
    }

    method EnterAndFormat(c: Suite, session: Session, e: Env) returns (keepalive: Bytes)
      requires Valid() && IsNew(session) && e.dstLen >= DATA_OVERHEAD_SZ
      modifies ring, ring.slots
      ensures Valid() && fresh(ring.home.Keys - old(ring.home.Keys))
      ensures keepalive == FormatPacketData(c, session, []).1
      ensures var i := session.receivingIndex % N_SESSIONS;
              Model() == old(Model()).(sessions := old(Model().sessions)[i := Some(FormatPacketData(c, session, []).0)])
    {
      var index := session.receivingIndex % N_SESSIONS;
      EnterSession(session);
      keepalive := ring.Format(index, c, [], e.dstLen);
    }

    method HandleResponse(c: Suite, m: Packet, e: Env) returns (r: TunnResult)
      requires Valid() && m.HandshakeResponse? && e.dstLen >= DATA_OVERHEAD_SZ
      modifies this`current, ring, ring.slots, handshake, timers, timers.timers, timers.sessionTimers
      ensures Valid() && fresh(ring.home.Keys - old(ring.home.Keys))
      ensures (Model(), r) == HandleHandshakeResponse(c, old(Model()), m, e)
    {
      ResponseIsNew(c, handshake.Model(), m, e.now);
      var read := handshake.ReceiveResponse(c, m, e.now);
      if read.Err? {
        return Error(read.error);
      }
      r := Completed(c, read.value, e);
    }

    method HandleCookie(c: Suite, m: Packet) returns (r: TunnResult)
      requires Valid() && m.PacketCookieReply?
      modifies handshake, timers, timers.timers
      ensures Valid() && (Model(), r) == HandleCookieReply(c, old(Model()), m)
    {
      var read := handshake.ReceiveCookie(c, m);
      if read.Err? {
        return Error(read.error);
      }
      timers.Tick(TimeLastPacketReceived);
      timers.Tick(TimeCookieReceived);
      return Done;
    }

    method ValidateDecapsulated(p: Bytes) returns (r: TunnResult)
      requires Valid()
      modifies this`rxBytes, timers, timers.timers
      ensures Valid() && (Model(), r) == ValidateDecapsulatedPacket(old(Model()), p)
    {
      if |p| == 0 {
        return Done;
      }
      var computedLen: nat;
      var src: IpAddr;
      if p[0] / 16 == 4 && |p| >= 20 {
        computedLen, src := FromBe(p[2..4]), V4(p[12..16]);
      } else if p[0] / 16 == 6 && |p| >= 40 {
        computedLen, src := FromBe(p[4..6]) + 40, V6(p[8..24]);
      } else {
        return Error(InvalidPacket);
      }
      if computedLen > |p| {
        return Error(InvalidPacket);
      }
      timers.Tick(TimeLastDataPacketReceived);
      rxBytes := rxBytes + computedLen;
      return WriteToTunnel(p[..computedLen], src);
    }

    /** Given a buffer shorter than the ciphertext the program stops. */
    method HandleDataPacket(c: Suite, m: Packet, e: Env) returns (r: TunnResult)
      requires Valid() && m.PacketData? && e.dstLen >= |m.encrypted|
      modifies this`current, this`rxBytes, ring`model, ring.home.Keys, timers, timers.timers
      ensures Valid() && (Model(), r) == HandleData(c, old(Model()), m)
    {
      var idx := m.receiverIdx % N_SESSIONS;
      if !ring.Live(idx) {
        return Error(NoCurrentSession);
      }
      var plain := ring.Receive(idx, c, m, e.dstLen);
      if plain.Err? {
        return Error(plain.error);
      }
      UseSession(m.receiverIdx);
      timers.Tick(TimeLastPacketReceived);
      r := ValidateDecapsulated(plain.value);
    }

    /** The buffers a packet needs. */
    predicate Fits(m: Packet, e: Env) {
      && (m.HandshakeResponse? ==> e.dstLen >= DATA_OVERHEAD_SZ)
      && (m.PacketData? ==> e.dstLen >= |m.encrypted|)
    }

    method HandleVerified(c: Suite, m: Packet, e: Env) returns (r: TunnResult)
      requires Valid() && Fits(m, e)
      modifies this, ring, ring.slots, ring.home.Keys, handshake, timers, timers.timers, timers.sessionTimers
      ensures Valid() && fresh(ring.home.Keys - old(ring.home.Keys))
      ensures (Model(), r) == HandleVerifiedPacket(c, old(Model()), m, e)
      ensures rateLimiter == old(rateLimiter)
    {
      match m
      case HandshakeInit(_, _, _, _) => r := HandleInit(c, m, e);
      case HandshakeResponse(_, _, _, _) => r := HandleResponse(c, m, e);
      case PacketCookieReply(_, _, _) => r := HandleCookie(c, m);
      case PacketData(_, _, _) => r := HandleDataPacket(c, m, e);
    }

    method DecapsulateDatagram(c: Suite, addr: Option<IpAddr>, datagram: Bytes, e: Env, clock: nat)
      returns (r: TunnResult)
      requires Valid() && e.dstLen >= COOKIE_REPLY_SZ && e.dstLen >= |datagram|
      requires datagram == [] && queue != [] ==> e.dstLen >= |queue[0]| + DATA_OVERHEAD_SZ
      modifies this, ring, ring.slots, ring.home.Keys, handshake, rateLimiter
      modifies timers, timers.timers, timers.sessionTimers
      ensures Valid() && fresh(ring.home.Keys - old(ring.home.Keys))
      ensures (Model(), rateLimiter.Model(), r) ==
              Decapsulate(c, old(Model()), old(rateLimiter.Model()), addr, datagram, e, clock)
      ensures rateLimiter == old(rateLimiter)
    {
      if datagram == [] {
        r := SendQueued(c, e);
        return;
      }
      var v := rateLimiter.Verify(c, addr, datagram, clock, COOKIE_REPLY_SZ);
      match v
      case Pass(m) =>
        ParsedFits(datagram, m);
        r := HandleVerified(c, m, e);
      case Reply(d) => r := WriteToNetwork(d);
      case Refuse(error) => r := Error(error);
    }

    // -------------------------------------------------------------- time

    method SetStaticPrivate(c: Suite, priv: Key, shared: RateLimiter?, random: Randomness)
      requires Valid() && (shared != null ==> shared !in ring.home)
      modifies this`rateLimiter, ring`model, ring.slots, handshake, timers`shouldResetRr
      ensures Valid() && Model() == SetKey(c, old(Model()), priv, shared == null)
      ensures if shared == null then fresh(rateLimiter) && rateLimiter.Model() == OwnLimiter(c, c.pub(priv), random)
              else rateLimiter == shared
    {
      timers.shouldResetRr := shared == null;
      if shared == null {
        rateLimiter := new RateLimiter(c, c.pub(priv), PEER_HANDSHAKE_RATE_LIMIT, random.nonceKey, random.secretKey,
                                       random.clock);
      } else {
        rateLimiter := shared;
      }
      handshake.SetStaticPrivate(c, priv, c.pub(priv));
      ring.Clear();
    }

    method GiveUpConnection(now: nat) returns (r: TunnResult)
      requires Valid()
      modifies this`queue, ring`model, ring.slots, handshake, timers, timers.timers
      ensures Valid() && (Model(), r) == GiveUp(old(Model()), now)
    {
      handshake.SetExpired();
      ring.Clear();
      queue := [];
      timers.Clear(now);
      return Error(ConnectionExpired);
    }

    method SweepSessions(now: nat)
      requires Valid()
      modifies ring`model, ring.slots, timers.sessionTimers
      ensures Valid() && Model() == UpdateSessionTimers(old(Model()), now)
    {
      ghost var times, sessions := timers.sessionTimers[..], ring.model;
      for i := 0 to N_SESSIONS
        invariant Valid()
        invariant forall j :: 0 <= j < i ==>
                    && ring.model[j] == (if TooOld(now, times[j]) then None else sessions[j])
                    && timers.sessionTimers[j] == (if TooOld(now, times[j]) then now else times[j])
        invariant forall j :: i <= j < N_SESSIONS ==>
                    ring.model[j] == sessions[j] && timers.sessionTimers[j] == times[j]
      {
        if now - timers.sessionTimers[i] > REJECT_AFTER_TIME {
          ring.Drop(i);
          timers.sessionTimers[i] := now;
        }
      }
    }

    method InFlight(c: Suite, e: Env, sent: nat) returns (r: TunnResult)
      requires Valid()
      modifies this`queue, ring`model, ring.slots, handshake, timers, timers.timers
      ensures Valid() && (Model(), r) == UpdateInFlight(c, old(Model()), e, sent)
    {
      if e.now - timers.timers[Slot(TimeLastHandshakeStarted)] >= REKEY_ATTEMPT_TIME {
        r := GiveUpConnection(e.now);
        return;
      }
      if e.now - sent >= REKEY_TIMEOUT {
        r := FormatHandshakeInitiation(c, e, true);
        return;
      }
      return Done;
    }

    /** Is a new handshake due?  The wish for one is used up if it was asked for. */
    method InitiationIsDue(now: nat) returns (due: bool)
      requires Valid()
      modifies timers`wantHandshake
      ensures Valid() && due == StartDue(old(timers.Model()), now)
      ensures timers.Model() == HeardTimers(old(timers.Model()), now)
    {
      due := false;
      var established := timers.timers[Slot(TimeSessionEstablished)];
      var received := timers.timers[Slot(TimeLastPacketReceived)];
      var dataReceived := timers.timers[Slot(TimeLastDataPacketReceived)];
      var dataSent := timers.timers[Slot(TimeLastDataPacketSent)];
      if timers.isInitiator {
        if established < dataSent && now - established >= REKEY_AFTER_TIME {
          due := true;
        }
        if established < dataReceived && now - established >= REJECT_AFTER_TIME - KEEPALIVE_TIMEOUT - REKEY_TIMEOUT {
          due := true;
        }
      }
      if dataSent > received && now - received >= KEEPALIVE_TIMEOUT + REKEY_TIMEOUT {
        if timers.wantHandshake {
          due := true;
        }
        timers.wantHandshake := false;
      }
    }

    /** Is a keepalive due?  A persistent one restarts its timer. */
    method KeepaliveIsDue(now: nat) returns (due: bool)
      requires Valid()
      modifies timers`wantHandshake, timers`wantKeepalive, timers.timers
      ensures Valid() && due == KeepaliveDue(old(timers.Model()), now)
      ensures timers.Model() == SaidTimers(old(timers.Model()), now)
    {
      due := false;
      var sent := timers.timers[Slot(TimeLastPacketSent)];
      var dataReceived := timers.timers[Slot(TimeLastDataPacketReceived)];
      if dataReceived > sent && now - sent >= KEEPALIVE_TIMEOUT {
        if timers.wantKeepalive {
          due := true;
        }
        timers.wantKeepalive := false;
      }
      if timers.persistentKeepalive > 0
         && now - timers.timers[Slot(TimePersistentKeepalive)] >= timers.persistentKeepalive * NANOS
      {
        timers.Tick(TimePersistentKeepalive);
        due := true;
      }
    }

    method WhenIdle(c: Suite, e: Env) returns (r: TunnResult)
      requires Valid() && e.dstLen >= DATA_OVERHEAD_SZ
      modifies this`queue, this`txBytes, ring`model, ring.home.Keys, handshake, timers, timers.timers
      ensures Valid() && (Model(), r) == UpdateWhenIdle(c, old(Model()), e)
    {
      IdleIsBoth(timers.Model(), e.now);
      var initiation := InitiationIsDue(e.now);
      if initiation {
        r := FormatHandshakeInitiation(c, e, true);
        return;
      }
      var keepalive := KeepaliveIsDue(e.now);
      if keepalive {
        r := EncapsulatePacket(c, [], e);
        return;
      }
      return Done;
    }

    method AfterAdvance(c: Suite, e: Env) returns (r: TunnResult)
      requires Valid() && e.dstLen >= DATA_OVERHEAD_SZ
      modifies this`queue, this`txBytes, ring`model, ring.slots, ring.home.Keys, handshake, timers, timers.timers
      ensures Valid() && (Model(), r) == UpdateAdvanced(c, old(Model()), e)
    {
      if handshake.Model().IsExpired() {
        return Error(ConnectionExpired);
      }
      if handshake.cookies.writeCookie.Some?
         && e.now - timers.timers[Slot(TimeCookieReceived)] >= COOKIE_EXPIRATION_TIME
      {
        handshake.ClearCookie();
      }
      if e.now - timers.timers[Slot(TimeSessionEstablished)] >= REJECT_AFTER_TIME * 3 {
        r := GiveUpConnection(e.now);
        return;
      }
      var timer := handshake.Model().Timer();
      if timer.Some? {
        r := InFlight(c, e, timer.value);
      } else {
        r := WhenIdle(c, e);
      }
    }

    method Update(c: Suite, e: Env, clock: nat) returns (r: TunnResult)
      requires Valid() && e.dstLen >= DATA_OVERHEAD_SZ
      modifies this`queue, this`txBytes, ring`model, ring.slots, ring.home.Keys, handshake
      modifies timers, timers.timers, timers.sessionTimers
      modifies rateLimiter`count, rateLimiter`lastReset
      ensures Valid() && (Model(), r) == UpdateTimers(c, old(Model()), e)
      ensures var l := old(rateLimiter.Model());
              rateLimiter.Model() == if old(timers.shouldResetRr) then ResetCount(l, clock) else l
    {
      if timers.shouldResetRr {
        rateLimiter.Reset(clock);
      }
      timers.timers[Slot(TimeCurrent)] := e.now;
      SweepSessions(e.now);
      r := AfterAdvance(c, e);
    }

    method EstimateLoss() returns (loss: real)
      requires Valid()
      ensures loss == Loss.EstimatedLoss(Model().sessions, current)
    {
      loss := ring.EstimateLoss(current);
    }
  }

  /** A parsed data packet fits where its datagram does. */
  lemma ParsedFits(datagram: Bytes, m: Packet)
    requires ParseIncomingPacket(datagram) == Ok(m)
    ensures m.PacketData? ==> |m.encrypted| <= |datagram|
  {
  }
}
