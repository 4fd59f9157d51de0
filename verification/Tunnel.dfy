/** One tunnel: its handshake, its ring of eight sessions, its packet queue and
    its timers (noise/mod.rs, `Tunn`, and noise/timers.rs).  Every call is given
    as what it does to the whole state.  Times are nanoseconds since the tunnel
    was created; `Env` supplies what a call takes from outside. */
module Tunnel {
  import opened Common
  import opened Crypto
  import opened Noise
  import opened Sessions
  import opened Timestamps
  import opened Wire

  const N_SESSIONS: nat := 8
  const MAX_QUEUE_DEPTH: nat := 256

  const REKEY_AFTER_TIME: nat := 120 * NANOS
  const REJECT_AFTER_TIME: nat := 180 * NANOS
  const REKEY_ATTEMPT_TIME: nat := 90 * NANOS
  const REKEY_TIMEOUT: nat := 5 * NANOS
  const KEEPALIVE_TIMEOUT: nat := 10 * NANOS
  const COOKIE_EXPIRATION_TIME: nat := 120 * NANOS

  // ---------------------------------------------------------------- timers

  datatype TimerName =
    | TimeCurrent
    | TimeSessionEstablished
    | TimeLastHandshakeStarted
    | TimeLastPacketReceived
    | TimeLastPacketSent
    | TimeLastDataPacketReceived
    | TimeLastDataPacketSent
    | TimeCookieReceived
    | TimePersistentKeepalive

  const N_TIMERS: nat := 9

  function Slot(n: TimerName): (i: nat)
    ensures i < N_TIMERS
  {
    match n
    case TimeCurrent => 0
    case TimeSessionEstablished => 1
    case TimeLastHandshakeStarted => 2
    case TimeLastPacketReceived => 3
    case TimeLastPacketSent => 4
    case TimeLastDataPacketReceived => 5
    case TimeLastDataPacketSent => 6
    case TimeCookieReceived => 7
    case TimePersistentKeepalive => 8
  }

  type TimerArray = s: seq<nat> | |s| == 9 witness [0, 0, 0, 0, 0, 0, 0, 0, 0]
  type SlotTimes = s: seq<nat> | |s| == 8 witness [0, 0, 0, 0, 0, 0, 0, 0]

  datatype Timers = Timers(
    isInitiator: bool,
    timers: TimerArray,
    sessionTimers: SlotTimes,
    wantKeepalive: bool,
    wantHandshake: bool,
    persistentKeepalive: nat,
    shouldResetRr: bool
  ) {
    function At(n: TimerName): nat {
      timers[Slot(n)]
    }

    /** `timer_tick`. */
    function Tick(n: TimerName): Timers {
      var t := this.(timers := timers[Slot(n) := timers[Slot(TimeCurrent)]]);
      if n.TimeLastPacketReceived? then t.(wantKeepalive := true, wantHandshake := false)
      else if n.TimeLastPacketSent? then t.(wantHandshake := true, wantKeepalive := false)
      else t
    }

    /** `timer_tick_session_established`. */
    function Established(initiator: bool, sessionIdx: nat): Timers {
      Tick(TimeSessionEstablished).(
        sessionTimers := sessionTimers[sessionIdx % N_SESSIONS := At(TimeCurrent)],
        isInitiator := initiator)
    }

    /** `Timers::clear`: all timers jump to the present. */
    function Cleared(now: nat): Timers {
      this.(timers := seq(N_TIMERS, _ => now), wantHandshake := false, wantKeepalive := false)
    }
  }

  function NewTimers(persistentKeepalive: nat, resetRr: bool): Timers {
    Timers(false, seq(N_TIMERS, _ => 0), seq(N_SESSIONS, _ => 0), false, false, persistentKeepalive, resetRr)
  }

  // ---------------------------------------------------------------- the tunnel

  type Ring = s: seq<Option<Session>> | |s| == 8 witness [None, None, None, None, None, None, None, None]

  const EmptyRing: Ring := [None, None, None, None, None, None, None, None]

  datatype Tunn = Tunn(
    handshake: Handshake,
    sessions: Ring,
    current: nat,
    queue: seq<Bytes>,
    timers: Timers,
    txBytes: nat,
    rxBytes: nat
  ) {
    /** The session packets are sent on, if there is one. */
    function CurrentSession(): Option<Session> {
      sessions[current % N_SESSIONS]
    }

    function Ticked(n: TimerName): Tunn {
      this.(timers := timers.Tick(n))
    }
  }

  datatype TunnResult =
    | Done
    | Error(error: WireGuardError)
    | WriteToNetwork(datagram: Bytes)
    | WriteToTunnel(packet: Bytes, src: IpAddr)

  /** Clock reading, fresh ephemeral key, timestamp and buffer size of one call. */
  datatype Env = Env(now: nat, eph: Key, stamp: Stamp, dstLen: nat)

  function NewTunn(c: Suite, priv: Key, peer: Key, psk: Option<Key>, persistentKeepalive: nat, index: u32,
                   ownLimiter: bool): Tunn
  {
    Tunn(NewHandshake(c, priv, c.pub(priv), peer, index * 256 % U32, psk), EmptyRing, 0, [],
         NewTimers(persistentKeepalive, ownLimiter), 0, 0)
  }

  function Enqueue(q: seq<Bytes>, p: Bytes): seq<Bytes> {
    if |q| < MAX_QUEUE_DEPTH then q + [p] else q
  }

  function Requeue(q: seq<Bytes>, p: Bytes): seq<Bytes> {
    if |q| < MAX_QUEUE_DEPTH then [p] + q else q
  }

  /** What the tunnel does once its handshake has formatted an initiation. */
  function AfterInitiation(t: Tunn, h: Handshake, r: Result<Bytes>, now: nat): (Tunn, TunnResult) {
    var starting := !t.handshake.IsInProgress();
    var timers := if t.handshake.IsExpired() then t.timers.Cleared(now) else t.timers;
    if r.Err? then (t.(handshake := h, timers := timers), Error(r.error))
    else
      var timers1 := if starting then timers.Tick(TimeLastHandshakeStarted) else timers;
      (t.(handshake := h, timers := timers1.Tick(TimeLastPacketSent)), WriteToNetwork(r.value))
  }

  /** `Tunn::format_handshake_initiation`. */
  function FormatInitiation(c: Suite, t: Tunn, e: Env, force: bool): (Tunn, TunnResult) {
    if t.handshake.IsInProgress() && !force then (t, Done)
    else
      var (h, r) := FormatHandshakeInitiation(c, t.handshake, e.eph, e.stamp, e.now, e.dstLen);
      AfterInitiation(t, h, r, e.now)
  }

  function Encapsulate(c: Suite, t: Tunn, src: Bytes, e: Env): (Tunn, TunnResult) {
    match t.CurrentSession()
    case Some(s) =>
      var (s', d) := FormatPacketData(c, s, src);
      var timers := t.timers.Tick(TimeLastPacketSent);
      (t.(sessions := t.sessions[t.current % N_SESSIONS := Some(s')],
          timers := if src != [] then timers.Tick(TimeLastDataPacketSent) else timers,
          txBytes := t.txBytes + |src|),
       WriteToNetwork(d))
    case None =>
      FormatInitiation(c, t.(queue := Enqueue(t.queue, src)), e, false)
  }

  function SendQueuedPacket(c: Suite, t: Tunn, e: Env): (Tunn, TunnResult) {
    if t.queue == [] then (t, Done)
    else
      var (t', r) := Encapsulate(c, t.(queue := t.queue[1..]), t.queue[0], e);
      if r.Error? then (t'.(queue := Requeue(t'.queue, t.queue[0])), Done) else (t', r)
  }

  /** Use the session of `newIdx` from now on, if it is at least as recent as the
      current one or that one is gone. */
  function SetCurrentSession(t: Tunn, newIdx: nat): Tunn {
    if t.current == newIdx then t
    else if t.CurrentSession().None?
         || t.timers.sessionTimers[newIdx % N_SESSIONS] >= t.timers.sessionTimers[t.current % N_SESSIONS]
    then t.(current := newIdx)
    else t
  }

  /** What the tunnel does once its handshake has answered an initiation. */
  function AfterAnswer(t: Tunn, h: Handshake, r: Result<(Bytes, Session)>): (Tunn, TunnResult) {
    if r.Err? then (t.(handshake := h), Error(r.error))
    else
      var (datagram, session) := r.value;
      var index := session.receivingIndex;
      (t.(handshake := h,
          sessions := t.sessions[index % N_SESSIONS := Some(session)],
          timers := t.timers.Tick(TimeLastPacketReceived).Tick(TimeLastPacketSent).Established(false, index)),
       WriteToNetwork(datagram))
  }

  function HandleHandshakeInit(c: Suite, t: Tunn, m: Packet, e: Env): (Tunn, TunnResult)
    requires m.HandshakeInit?
  {
    var (h, r) := ReceiveHandshakeInitialization(c, t.handshake, m, e.eph, e.dstLen);
    AfterAnswer(t, h, r)
  }

  /** What the tunnel does once its handshake has read a response: send a
      keepalive on the new session and switch to it. */
  function AfterResponse(c: Suite, t: Tunn, h: Handshake, r: Result<Session>): (Tunn, TunnResult) {
    if r.Err? then (t.(handshake := h), Error(r.error))
    else
      var (session, keepalive) := FormatPacketData(c, r.value, []);
      var index := session.receivingIndex;
      var t1 := t.(handshake := h,
                   sessions := t.sessions[index % N_SESSIONS := Some(session)],
                   timers := t.timers.Tick(TimeLastPacketReceived).Established(true, index % N_SESSIONS));
      (SetCurrentSession(t1, index), WriteToNetwork(keepalive))
  }

  function HandleHandshakeResponse(c: Suite, t: Tunn, m: Packet, e: Env): (Tunn, TunnResult)
    requires m.HandshakeResponse?
  {
    var (h, r) := ReceiveHandshakeResponse(c, t.handshake, m, e.now);
    AfterResponse(c, t, h, r)
  }

  function HandleCookieReply(c: Suite, t: Tunn, m: Packet): (Tunn, TunnResult)
    requires m.PacketCookieReply?
  {
    var (h, r) := ReceiveCookieReply(c, t.handshake, m);
    if r.Err? then (t.(handshake := h), Error(r.error))
    else (t.(handshake := h, timers := t.timers.Tick(TimeLastPacketReceived).Tick(TimeCookieReceived)), Done)
  }

  /** The length an IP packet claims for itself and its source address. */
  function IpHeader(p: Bytes): Option<(nat, IpAddr)> {
    if p == [] then None
    else if p[0] / 16 == 4 && |p| >= 20 then Some((FromBe(p[2..4]), V4(p[12..16])))
    else if p[0] / 16 == 6 && |p| >= 40 then Some((FromBe(p[4..6]) + 40, V6(p[8..24])))
    else None
  }

  /** A plaintext that `validate_decapsulated_packet` lets through. */
  predicate ValidIp(p: Bytes) {
    IpHeader(p).Some? && IpHeader(p).value.0 <= |p|
  }

  /** `validate_decapsulated_packet`: an empty packet is a keepalive; an IP packet
      is cut to the length it claims; anything else is refused. */
  function ValidateDecapsulatedPacket(t: Tunn, p: Bytes): (Tunn, TunnResult) {
    if p == [] then (t, Done)
    else if !ValidIp(p) then (t, Error(InvalidPacket))
    else
      var (len, src) := IpHeader(p).value;
      (t.(timers := t.timers.Tick(TimeLastDataPacketReceived), rxBytes := t.rxBytes + len),
       WriteToTunnel(p[..len], src))
  }

  function HandleData(c: Suite, t: Tunn, m: Packet): (Tunn, TunnResult)
    requires m.PacketData?
  {
    var idx := m.receiverIdx % N_SESSIONS;
    match t.sessions[idx]
    case None => (t, Error(NoCurrentSession))
    case Some(s) =>
      var (s', r) := ReceivePacketData(c, s, m);
      if r.Err? then (t, Error(r.error))
      else
        var t1 := SetCurrentSession(t.(sessions := t.sessions[idx := Some(s')]), m.receiverIdx);
        ValidateDecapsulatedPacket(t1.Ticked(TimeLastPacketReceived), r.value)
  }

  function HandleVerifiedPacket(c: Suite, t: Tunn, m: Packet, e: Env): (Tunn, TunnResult) {
    match m
    case HandshakeInit(_, _, _, _) => HandleHandshakeInit(c, t, m, e)
    case HandshakeResponse(_, _, _, _) => HandleHandshakeResponse(c, t, m, e)
    case PacketCookieReply(_, _, _) => HandleCookieReply(c, t, m)
    case PacketData(_, _, _) => HandleData(c, t, m)
  }

  /** `set_static_private`: a new key pair drops every session. */
  function SetKey(c: Suite, t: Tunn, priv: Key, ownLimiter: bool): Tunn {
    t.(handshake := SetStaticPrivate(c, t.handshake, priv, c.pub(priv)), sessions := EmptyRing,
       timers := t.timers.(shouldResetRr := ownLimiter))
  }

  // ---------------------------------------------------------------- update_timers

  /** A slot's timer ran out. */
  predicate TooOld(now: nat, time: nat) {
    now - time > REJECT_AFTER_TIME
  }

  function UpdateSessionTimers(t: Tunn, now: nat): Tunn {
    var times := t.timers.sessionTimers;
    t.(sessions := seq(N_SESSIONS, i requires 0 <= i < N_SESSIONS =>
                     if TooOld(now, times[i]) then None else t.sessions[i]),
       timers := t.timers.(sessionTimers := seq(N_SESSIONS, i requires 0 <= i < N_SESSIONS =>
                                              if TooOld(now, times[i]) then now else times[i])))
  }

  /** `set_expired` and `clear_all`: give up, drop sessions and queue. */
  function GiveUp(t: Tunn, now: nat): (Tunn, TunnResult) {
    (t.(handshake := SetExpired(t.handshake), sessions := EmptyRing, queue := [], timers := t.timers.Cleared(now)),
     Error(ConnectionExpired))
  }

  function DropOldCookie(t: Tunn, now: nat): Tunn {
    if t.handshake.cookies.writeCookie.Some? && now - t.timers.At(TimeCookieReceived) >= COOKIE_EXPIRATION_TIME
    then t.(handshake := ClearCookie(t.handshake))
    else t
  }

  /** The session of an initiator is due for new keys. */
  predicate RekeyDue(tm: Timers, now: nat) {
    var established := tm.At(TimeSessionEstablished);
    tm.isInitiator &&
    (|| (established < tm.At(TimeLastDataPacketSent) && now - established >= REKEY_AFTER_TIME)
     || (established < tm.At(TimeLastDataPacketReceived)
         && now - established >= REJECT_AFTER_TIME - KEEPALIVE_TIMEOUT - REKEY_TIMEOUT))
  }

  /** Data was sent and nothing came back for too long. */
  predicate NothingHeard(tm: Timers, now: nat) {
    var received := tm.At(TimeLastPacketReceived);
    tm.At(TimeLastDataPacketSent) > received && now - received >= KEEPALIVE_TIMEOUT + REKEY_TIMEOUT
  }

  /** Data was received and nothing sent back for too long. */
  predicate NothingSaid(tm: Timers, now: nat) {
    var sent := tm.At(TimeLastPacketSent);
    tm.At(TimeLastDataPacketReceived) > sent && now - sent >= KEEPALIVE_TIMEOUT
  }

  predicate PersistentDue(tm: Timers, now: nat) {
    tm.persistentKeepalive > 0 && now - tm.At(TimePersistentKeepalive) >= tm.persistentKeepalive * NANOS
  }

  /** A new handshake is due. */
  predicate StartDue(tm: Timers, now: nat) {
    RekeyDue(tm, now) || (NothingHeard(tm, now) && tm.wantHandshake)
  }

  /** Asking whether nothing was heard uses the wish up. */
  function HeardTimers(tm: Timers, now: nat): Timers {
    if NothingHeard(tm, now) then tm.(wantHandshake := false) else tm
  }

  /** So does asking whether nothing was said; a persistent keepalive is ticked. */
  function IdleTimers(tm: Timers, now: nat): Timers {
    var tm1 := HeardTimers(tm, now);
    var tm2 := if NothingSaid(tm, now) then tm1.(wantKeepalive := false) else tm1;
    if PersistentDue(tm, now) then tm2.Tick(TimePersistentKeepalive) else tm2
  }

  /** A passive or a persistent keepalive is due. */
  predicate KeepaliveDue(tm: Timers, now: nat) {
    (NothingSaid(tm, now) && tm.wantKeepalive) || PersistentDue(tm, now)
  }

  /** No initiation is in flight: perhaps start one, perhaps send a keepalive. */
  function UpdateWhenIdle(c: Suite, t: Tunn, e: Env): (Tunn, TunnResult) {
    if StartDue(t.timers, e.now) then
      FormatInitiation(c, t.(timers := HeardTimers(t.timers, e.now)), e, true)
    else
      var t1 := t.(timers := IdleTimers(t.timers, e.now));
      if KeepaliveDue(t.timers, e.now) then Encapsulate(c, t1, [], e) else (t1, Done)
  }

  /** An initiation sent at `sent` is in flight: give up, resend or wait. */
  function UpdateInFlight(c: Suite, t: Tunn, e: Env, sent: nat): (Tunn, TunnResult) {
    if e.now - t.timers.At(TimeLastHandshakeStarted) >= REKEY_ATTEMPT_TIME then GiveUp(t, e.now)
    else if e.now - sent >= REKEY_TIMEOUT then FormatInitiation(c, t, e, true)
    else (t, Done)
  }

  /** The clock is read and over-age sessions are dropped before anything else. */
  function Advance(t: Tunn, now: nat): Tunn {
    UpdateSessionTimers(t.(timers := t.timers.(timers := t.timers.timers[Slot(TimeCurrent) := now])), now)
  }

  /** What `update_timers` does from there on. */
  function UpdateAdvanced(c: Suite, t: Tunn, e: Env): (Tunn, TunnResult) {
    if t.handshake.IsExpired() then (t, Error(ConnectionExpired))
    else
      var t2 := DropOldCookie(t, e.now);
      if e.now - t2.timers.At(TimeSessionEstablished) >= REJECT_AFTER_TIME * 3 then GiveUp(t2, e.now)
      else
        match t2.handshake.Timer()
        case Some(sent) => UpdateInFlight(c, t2, e, sent)
        case None => UpdateWhenIdle(c, t2, e)
  }

  function UpdateTimers(c: Suite, t: Tunn, e: Env): (Tunn, TunnResult) {
    UpdateAdvanced(c, Advance(t, e.now), e)
  }

  // ---------------------------------------------------------------- calls

  /** The calls a tunnel's owner makes.  A datagram that fails the rate limiter
      never reaches the tunnel; one that passes arrives as `Handle`. */
  datatype Op =
    | Send(src: Bytes)
    | Handle(packet: Packet)
    | Flush
    | Update
    | StartHandshake(force: bool)
    | NewKey(priv: Key, ownLimiter: bool)

  function Call(c: Suite, t: Tunn, op: Op, e: Env): (Tunn, TunnResult) {
    match op
    case Send(src) => Encapsulate(c, t, src, e)
    case Handle(m) => HandleVerifiedPacket(c, t, m, e)
    case Flush => SendQueuedPacket(c, t, e)
    case Update => UpdateTimers(c, t, e)
    case StartHandshake(force) => FormatInitiation(c, t, e, force)
    case NewKey(priv, own) => (SetKey(c, t, priv, own), Done)
  }
}
