/** Runs of a tunnel: any calls, with any packets, under a clock that never goes
    back. */
module TunnelRuns {
  import opened Common
  import opened Crypto
  import opened Noise
  import opened Sessions
  import opened Tunnel
  import opened TunnelInvariants
  import opened Wire
  import HR = HandshakeRuns

  datatype Moment = Moment(op: Op, env: Env)

  /** The last clock reading. */
  function Clock(ms: seq<Moment>): nat {
    if ms == [] then 0 else ms[|ms| - 1].env.now
  }

  predicate Orderly(ms: seq<Moment>) {
    && (forall i :: 0 <= i < |ms| ==> ms[i].env.dstLen >= HANDSHAKE_INIT_SZ)
    && (forall i, j :: 0 <= i < j < |ms| ==> ms[i].env.now <= ms[j].env.now)
  }

  function Run(c: Suite, t0: Tunn, ms: seq<Moment>): Tunn {
    if ms == [] then t0
    else Call(c, Run(c, t0, ms[..|ms| - 1]), ms[|ms| - 1].op, ms[|ms| - 1].env).0
  }

  /** A tunnel as it is created. */
  ghost predicate New(c: Suite, t: Tunn) {
    exists priv, peer, psk, keepalive, index, own :: t == NewTunn(c, priv, peer, psk, keepalive, index, own)
  }

  lemma {:induction false} RunKeepsInv(c: Suite, t0: Tunn, ms: seq<Moment>)
    requires Inv(t0, 0) && Orderly(ms)
    ensures Inv(Run(c, t0, ms), Clock(ms))
    ensures ms != [] ==>
              Timely(ms[|ms| - 1].env, Clock(ms[..|ms| - 1])) && Inv(Run(c, t0, ms[..|ms| - 1]), Clock(ms[..|ms| - 1]))
  {
    if ms != [] {
      var before, m := ms[..|ms| - 1], ms[|ms| - 1];
      RunKeepsInv(c, t0, before);
      CallKeeps(c, Run(c, t0, before), m.op, m.env, Clock(before));
    }
  }

  /** What the last call of a run finds. */
  lemma LastCallFinds(c: Suite, t0: Tunn, ms: seq<Moment>)
    requires New(c, t0) && Orderly(ms) && ms != []
    ensures Orderly(ms[..|ms| - 1]) && ms[|ms| - 1].env.dstLen >= HANDSHAKE_INIT_SZ
    ensures HR.Inv(Run(c, t0, ms[..|ms| - 1]).handshake)
  {
    RunKeepsInv(c, t0, ms[..|ms| - 1]);
  }

  /** Over every run of a new tunnel: the in-flight slots are well formed, a
      tunnel that gave up holds nothing, ring slots hold only their own residues
      with the tunnel's prefix, and no timer is ahead of the clock. */
  lemma TunnelSafety(c: Suite, t0: Tunn, ms: seq<Moment>)
    requires New(c, t0) && Orderly(ms)
    ensures var t := Run(c, t0, ms);
            && HR.Inv(t.handshake)
            && RingInv(t)
            && ExpiredInv(t)
            && |t.queue| <= 256
            && t.handshake.nextIndex / 256 == t0.handshake.nextIndex / 256
  {
    RunKeepsInv(c, t0, ms);
    PrefixKept(c, t0, ms);
  }

  /** A new private key reaches the handshake with everything derived from it; every
      session goes, the handshakes in flight, the queue and the peer's keys stay. */
  lemma KeyChange(c: Suite, t: Tunn, priv: Key, own: bool)
    requires t.handshake.params.Coherent(c)
    ensures var t' := Call(c, t, NewKey(priv, own), Env(0, priv, Zeros(12), 0)).0;
            var p, p' := t.handshake.params, t'.handshake.params;
            && p'.Coherent(c) && p'.staticPrivate == priv && p'.staticPublic == c.pub(priv)
            && p' == p.(staticPrivate := priv, staticPublic := c.pub(priv),
                        staticShared := c.dh(priv, p.peerStaticPublic))
            && (forall i :: 0 <= i < 8 ==> t'.sessions[i] == None)
            && t'.handshake == t.handshake.(params := p') && t'.queue == t.queue
            && t'.timers == t.timers.(shouldResetRr := own)
  {
  }

  /** Every index a tunnel hands out carries the 24 bits it was created with. */
  lemma {:induction false} PrefixKept(c: Suite, t0: Tunn, ms: seq<Moment>)
    requires Inv(t0, 0) && Orderly(ms)
    ensures Run(c, t0, ms).handshake.nextIndex / 256 == t0.handshake.nextIndex / 256
  {
    if ms != [] {
      var before, m := ms[..|ms| - 1], ms[|ms| - 1];
      RunKeepsInv(c, t0, ms);
      PrefixKept(c, t0, before);
      IndexMoves(c, Run(c, t0, before), m.op, m.env);
    }
  }

  lemma IndexMoves(c: Suite, t: Tunn, op: Op, e: Env)
    requires HR.Inv(t.handshake) && e.dstLen >= HANDSHAKE_INIT_SZ
    ensures var i := Call(c, t, op, e).0.handshake.nextIndex;
            i == t.handshake.nextIndex || i == IncIndex(t.handshake.nextIndex)
    ensures Call(c, t, op, e).0.handshake.nextIndex / 256 == t.handshake.nextIndex / 256
  {
    HR.IncIndexCycles(t.handshake.nextIndex);
    InitiationShape(c, t.handshake, e);
    match op
    case Update => UpdateIndex(c, t, e);
    case Handle(m) =>
      if m.HandshakeInit? {
        AnswerShape(c, t.handshake, m, e);
      } else if m.HandshakeResponse? {
        ResponseShape(c, t.handshake, m, e.now);
      }
    case _ =>
  }

  lemma UpdateIndex(c: Suite, t: Tunn, e: Env)
    requires e.dstLen >= HANDSHAKE_INIT_SZ
    ensures var i := UpdateTimers(c, t, e).0.handshake.nextIndex;
            i == t.handshake.nextIndex || i == IncIndex(t.handshake.nextIndex)
  {
    InitiationShape(c, DropOldCookie(Advance(t, e.now), e.now).handshake, e);
  }

  /** The index a cookie reply must carry is that of the last message sent. */
  predicate CookieMoves(h: Handshake, h': Handshake) {
    || h'.cookies.index == h'.nextIndex
    || (h'.cookies.index == h.cookies.index && (h'.cookies.lastMac1.Some? ==> h.cookies.lastMac1.Some?))
  }

  lemma UpdateCookie(c: Suite, t: Tunn, e: Env)
    requires e.dstLen >= HANDSHAKE_INIT_SZ
    ensures CookieMoves(t.handshake, UpdateTimers(c, t, e).0.handshake)
  {
    InitiationShape(c, DropOldCookie(Advance(t, e.now), e.now).handshake, e);
  }

  lemma HandleCookieIndex(c: Suite, t: Tunn, m: Packet, e: Env)
    requires HR.Inv(t.handshake) && e.dstLen >= HANDSHAKE_INIT_SZ
    ensures CookieMoves(t.handshake, HandleVerifiedPacket(c, t, m, e).0.handshake)
  {
    match m
    case HandshakeInit(_, _, _, _) => AnswerShape(c, t.handshake, m, e);
    case HandshakeResponse(_, _, _, _) => ResponseShape(c, t.handshake, m, e.now);
    case PacketCookieReply(_, _, _) =>
    case PacketData(_, _, _) =>
  }

  lemma CallCookie(c: Suite, t: Tunn, op: Op, e: Env)
    requires HR.Inv(t.handshake) && e.dstLen >= HANDSHAKE_INIT_SZ
    ensures CookieMoves(t.handshake, Call(c, t, op, e).0.handshake)
  {
    match op
    case Update => UpdateCookie(c, t, e);
    case Handle(m) => HandleCookieIndex(c, t, m, e);
    case _ => InitiationShape(c, t.handshake, e);
  }

  /** So it carries the tunnel's prefix as well. */
  lemma {:induction false} CookiePrefixKept(c: Suite, t0: Tunn, ms: seq<Moment>)
    requires Inv(t0, 0) && t0.handshake.cookies.lastMac1.None? && Orderly(ms)
    ensures var h := Run(c, t0, ms).handshake;
            h.cookies.lastMac1.Some? ==> h.cookies.index / 256 == t0.handshake.nextIndex / 256
  {
    if ms != [] {
      var before, m := ms[..|ms| - 1], ms[|ms| - 1];
      RunKeepsInv(c, t0, ms);
      CookiePrefixKept(c, t0, before);
      PrefixKept(c, t0, ms);
      CallCookie(c, Run(c, t0, before), m.op, m.env);
    }
  }

  /** No `checked_sub(..).unwrap()` in the timer code can fail: at any reading not
      before the last, every timer lies in the past. */
  lemma SubtractionsSucceed(c: Suite, t0: Tunn, ms: seq<Moment>, now: nat, i: nat)
    requires New(c, t0) && Orderly(ms) && Clock(ms) <= now
    ensures i < N_TIMERS ==> Run(c, t0, ms).timers.timers[i] <= now
    ensures i < N_SESSIONS ==> Run(c, t0, ms).timers.sessionTimers[i] <= now
    ensures i < N_TIMERS ==> Advance(Run(c, t0, ms), now).timers.timers[i] <= now
  {
    RunKeepsInv(c, t0, ms);
    AdvanceKeeps(Run(c, t0, ms), now, Clock(ms));
  }

  /** Along a run no timer ever goes back. */
  lemma {:induction false} TimersNeverDecrease(c: Suite, t0: Tunn, ms: seq<Moment>, i: nat)
    requires New(c, t0) && Orderly(ms) && i <= |ms|
    ensures Grows(Run(c, t0, ms[..i]).timers, Run(c, t0, ms).timers)
  {
    if i == |ms| {
      assert ms[..i] == ms;
    } else {
      var before, m := ms[..|ms| - 1], ms[|ms| - 1];
      RunKeepsInv(c, t0, ms);
      TimersNeverDecrease(c, t0, before, i);
      assert before[..i] == ms[..i];
      CallKeeps(c, Run(c, t0, before), m.op, m.env, Clock(before));
    }
  }

  // ---------------------------------------------------------------- session lifetime

  /** What over-age sessions meet: the sweep removes exactly the sessions older
      than 180 seconds. */
  lemma SweepByAge(t: Tunn, now: nat, i: nat)
    requires i < N_SESSIONS
    ensures Advance(t, now).sessions[i] == if TooOld(now, t.timers.sessionTimers[i]) then None else t.sessions[i]
    ensures Advance(t, now).sessions[i].Some? ==> Advance(t, now).timers.sessionTimers[i] == t.timers.sessionTimers[i]
  {
  }

  /** The calls `update_timers` ends in leave the ring populated as it is. */
  predicate SamePopulation(t: Tunn, t': Tunn) {
    && t'.timers.sessionTimers == t.timers.sessionTimers
    && forall i :: 0 <= i < N_SESSIONS ==> (t'.sessions[i].Some? <==> t.sessions[i].Some?)
  }

  lemma FormatInitiationPopulation(c: Suite, t: Tunn, e: Env, force: bool)
    ensures SamePopulation(t, FormatInitiation(c, t, e, force).0)
  {
  }

  lemma EncapsulatePopulation(c: Suite, t: Tunn, src: Bytes, e: Env)
    ensures SamePopulation(t, Encapsulate(c, t, src, e).0)
  {
    FormatInitiationPopulation(c, t.(queue := Enqueue(t.queue, src)), e, false);
  }

  lemma IdlePopulation(c: Suite, t: Tunn, e: Env)
    ensures SamePopulation(t, UpdateWhenIdle(c, t, e).0)
  {
    FormatInitiationPopulation(c, t.(timers := HeardTimers(t.timers, e.now)), e, true);
    EncapsulatePopulation(c, t.(timers := IdleTimers(t.timers, e.now)), [], e);
  }

  /** Session lifetime: unless `update_timers` gives the connection up, it keeps
      precisely the sessions at most 180 seconds old, with their timers. */
  lemma SessionLifetime(c: Suite, t: Tunn, e: Env, i: nat)
    requires i < N_SESSIONS && UpdateTimers(c, t, e).1 != Error(ConnectionExpired)
    ensures var t' := UpdateTimers(c, t, e).0;
            && (t'.sessions[i].Some? <==> t.sessions[i].Some? && e.now - t.timers.sessionTimers[i] <= REJECT_AFTER_TIME)
            && (t'.sessions[i].Some? ==> t'.timers.sessionTimers[i] == t.timers.sessionTimers[i])
    ensures YoungEnough(UpdateTimers(c, t, e).0, e.now, i)
  {
    SweepByAge(t, e.now, i);
    var t2 := DropOldCookie(Advance(t, e.now), e.now);
    FormatInitiationPopulation(c, t2, e, true);
    IdlePopulation(c, t2, e);
  }

  lemma IdleNoError(c: Suite, t: Tunn, e: Env)
    requires e.dstLen >= HANDSHAKE_INIT_SZ
    ensures !UpdateWhenIdle(c, t, e).1.Error?
  {
    InitiationShape(c, t.handshake, e);
  }

  /** An update that reports expiry leaves no session. */
  lemma ExpiryEmptiesRing(c: Suite, t: Tunn, e: Env)
    requires e.dstLen >= HANDSHAKE_INIT_SZ && ExpiredInv(t) && UpdateTimers(c, t, e).1.Error?
    ensures UpdateTimers(c, t, e).0.sessions == EmptyRing
    ensures forall i :: 0 <= i < N_SESSIONS ==> YoungEnough(UpdateTimers(c, t, e).0, e.now, i)
  {
    var t2 := DropOldCookie(Advance(t, e.now), e.now);
    if t.handshake.IsExpired() {
      forall i | 0 <= i < N_SESSIONS ensures Advance(t, e.now).sessions[i] == None {
        SweepByAge(t, e.now, i);
      }
    } else {
      InitiationShape(c, t2.handshake, e);
      IdleNoError(c, t2, e);
    }
  }

  /** In every case nothing older than 180 seconds survives an update. */
  lemma NothingOldSurvives(c: Suite, t: Tunn, e: Env, i: nat)
    requires e.dstLen >= HANDSHAKE_INIT_SZ && ExpiredInv(t) && i < N_SESSIONS
    ensures YoungEnough(UpdateTimers(c, t, e).0, e.now, i)
  {
    if UpdateTimers(c, t, e).1.Error? {
      ExpiryEmptiesRing(c, t, e);
    } else {
      SessionLifetime(c, t, e, i);
    }
  }

  predicate YoungEnough(t: Tunn, now: nat, i: nat)
    requires i < N_SESSIONS
  {
    t.sessions[i].Some? ==> now - t.timers.sessionTimers[i] <= REJECT_AFTER_TIME
  }

  /** After an accepted data packet or handshake response, the session packets are
      sent on exists. */
  lemma AcceptedMakesCurrentLive(c: Suite, t: Tunn, m: Packet, e: Env)
    requires || (m.HandshakeResponse? && ReceiveHandshakeResponse(c, t.handshake, m, e.now).1.Ok?)
             || (m.PacketData? && t.sessions[m.receiverIdx % N_SESSIONS].Some?
                 && ReceivePacketData(c, t.sessions[m.receiverIdx % N_SESSIONS].value, m).1.Ok?)
    ensures HandleVerifiedPacket(c, t, m, e).0.CurrentSession().Some?
  {
  }

  // ---------------------------------------------------------------- acceptance

  /** The session that accepts a data packet, if one does. */
  function Accepting(c: Suite, t: Tunn, op: Op): Option<Session> {
    if op.Handle? && op.packet.PacketData? then
      match t.sessions[op.packet.receiverIdx % N_SESSIONS]
      case None => None
      case Some(s) => if ReceivePacketData(c, s, op.packet).1.Ok? then Some(s) else None
    else None
  }

  /** The call does not accept the last counter, 2^64 - 1; handling a packet that
      carries it and is refused is harmless. */
  predicate AcceptsBelowLast(c: Suite, t: Tunn, op: Op) {
    Accepting(c, t, op).Some? ==> op.packet.counter + 1 < U64
  }

  /** No session of the run accepts the last counter. */
  ghost predicate LastNeverAccepted(c: Suite, t0: Tunn, ms: seq<Moment>) {
    forall i :: 0 <= i < |ms| ==> AcceptsBelowLast(c, Run(c, t0, ms[..i]), ms[i].op)
  }

  lemma NeverAcceptedBefore(c: Suite, t0: Tunn, ms: seq<Moment>)
    requires ms != [] && LastNeverAccepted(c, t0, ms)
    ensures LastNeverAccepted(c, t0, ms[..|ms| - 1])
    ensures AcceptsBelowLast(c, Run(c, t0, ms[..|ms| - 1]), ms[|ms| - 1].op)
  {
    var before := ms[..|ms| - 1];
    forall i | 0 <= i < |before| ensures AcceptsBelowLast(c, Run(c, t0, before[..i]), before[i].op) {
      assert before[..i] == ms[..i];
    }
  }

  // ---------------------------------------------------------------- establishment

  /** The slot a call fills with a new session, if it does. */
  function Filled(c: Suite, t: Tunn, op: Op, e: Env): Option<nat> {
    match op
    case Handle(m) =>
      if m.HandshakeInit? && HandleHandshakeInit(c, t, m, e).1.WriteToNetwork? then
        Some(HandleHandshakeInit(c, t, m, e).0.handshake.nextIndex % N_SESSIONS)
      else if m.HandshakeResponse? && HandleHandshakeResponse(c, t, m, e).1.WriteToNetwork? then
        Some(m.receiverIdx % N_SESSIONS)
      else None
    case _ => None
  }

  /** The tick at which each slot was last filled. */
  function Born(c: Suite, t0: Tunn, ms: seq<Moment>): SlotTimes {
    if ms == [] then [0, 0, 0, 0, 0, 0, 0, 0]
    else
      var t, m := Run(c, t0, ms[..|ms| - 1]), ms[|ms| - 1];
      var born := Born(c, t0, ms[..|ms| - 1]);
      var slot := Filled(c, t, m.op, m.env);
      if slot.Some? then born[slot.value := t.timers.At(TimeCurrent)] else born
  }

  /** How a call may change slot `i`: fill it at the current tick, keep it with its
      timer, or empty it. */
  predicate SlotChange(c: Suite, t: Tunn, op: Op, e: Env, t': Tunn, i: nat)
    requires i < N_SESSIONS
  {
    if Filled(c, t, op, e) == Some(i) then t'.timers.sessionTimers[i] == t.timers.At(TimeCurrent)
    else t'.sessions[i].Some? ==> t.sessions[i].Some? && t'.timers.sessionTimers[i] == t.timers.sessionTimers[i]
  }

  lemma AnswerFills(c: Suite, t: Tunn, m: Packet, e: Env, i: nat)
    requires e.dstLen >= HANDSHAKE_INIT_SZ && i < N_SESSIONS && m.HandshakeInit?
    ensures SlotChange(c, t, Handle(m), e, HandleHandshakeInit(c, t, m, e).0, i)
  {
    AnswerShape(c, t.handshake, m, e);
  }

  lemma ResponseIndex(c: Suite, h: Handshake, m: Packet, now: nat)
    requires m.HandshakeResponse? && ReceiveHandshakeResponse(c, h, m, now).1.Ok?
    ensures ReceiveHandshakeResponse(c, h, m, now).1.value.receivingIndex == m.receiverIdx
  {
  }

  lemma ResponseSlots(c: Suite, t: Tunn, h: Handshake, r: Result<Session>, i: nat)
    requires i < N_SESSIONS && r.Ok?
    ensures var t' := AfterResponse(c, t, h, r).0;
            if i == r.value.receivingIndex % N_SESSIONS then t'.timers.sessionTimers[i] == t.timers.At(TimeCurrent)
            else t'.sessions[i] == t.sessions[i] && t'.timers.sessionTimers[i] == t.timers.sessionTimers[i]
  {
  }

  lemma ResponseFills(c: Suite, t: Tunn, m: Packet, e: Env, i: nat)
    requires i < N_SESSIONS && m.HandshakeResponse?
    ensures SlotChange(c, t, Handle(m), e, HandleHandshakeResponse(c, t, m, e).0, i)
  {
    var (h, r) := ReceiveHandshakeResponse(c, t.handshake, m, e.now);
    if r.Ok? {
      ResponseIndex(c, t.handshake, m, e.now);
      ResponseSlots(c, t, h, r, i);
    }
  }

  lemma UpdateSlots(c: Suite, t: Tunn, e: Env, i: nat)
    requires e.dstLen >= HANDSHAKE_INIT_SZ && ExpiredInv(t) && i < N_SESSIONS
    ensures SlotChange(c, t, Update, e, UpdateTimers(c, t, e).0, i)
  {
    if UpdateTimers(c, t, e).1.Error? {
      ExpiryEmptiesRing(c, t, e);
    } else {
      SessionLifetime(c, t, e, i);
    }
  }

  lemma HandleSlots(c: Suite, t: Tunn, m: Packet, e: Env, i: nat)
    requires e.dstLen >= HANDSHAKE_INIT_SZ && i < N_SESSIONS
    ensures SlotChange(c, t, Handle(m), e, HandleVerifiedPacket(c, t, m, e).0, i)
  {
    match m
    case HandshakeInit(_, _, _, _) => AnswerFills(c, t, m, e, i);
    case HandshakeResponse(_, _, _, _) => ResponseFills(c, t, m, e, i);
    case PacketCookieReply(_, _, _) =>
    case PacketData(_, _, _) =>
  }

  lemma CallSlots(c: Suite, t: Tunn, op: Op, e: Env, clock: nat, i: nat)
    requires Inv(t, clock) && Timely(e, clock) && i < N_SESSIONS
    ensures SlotChange(c, t, op, e, Call(c, t, op, e).0, i)
  {
    match op
    case Send(src) => EncapsulatePopulation(c, t, src, e);
    case Flush => if t.queue != [] { EncapsulatePopulation(c, t.(queue := t.queue[1..]), t.queue[0], e); }
    case Update => UpdateSlots(c, t, e, i);
    case StartHandshake(force) => FormatInitiationPopulation(c, t, e, force);
    case NewKey(_, _) =>
    case Handle(m) => HandleSlots(c, t, m, e, i);
  }

  /** A live slot's timer is the tick at which its session was established. */
  lemma {:induction false} SlotTimerIsEstablishment(c: Suite, t0: Tunn, ms: seq<Moment>, i: nat)
    requires New(c, t0) && Orderly(ms) && i < N_SESSIONS
    ensures Run(c, t0, ms).sessions[i].Some? ==> Run(c, t0, ms).timers.sessionTimers[i] == Born(c, t0, ms)[i]
  {
    if ms != [] {
      var before, m := ms[..|ms| - 1], ms[|ms| - 1];
      RunKeepsInv(c, t0, ms);
      SlotTimerIsEstablishment(c, t0, before, i);
      CallSlots(c, Run(c, t0, before), m.op, m.env, Clock(before), i);
    }
  }
}
