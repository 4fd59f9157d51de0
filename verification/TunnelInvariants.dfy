/** What every call of a tunnel keeps. */
module TunnelInvariants {
  import opened Common
  import opened Crypto
  import opened Noise
  import opened Sessions
  import opened Tunnel
  import opened Wire
  import HR = HandshakeRuns

  // ---------------------------------------------------------------- the invariant

  /** No timer is ahead of the last clock reading. */
  ghost predicate TimersInv(tm: Timers, clock: nat) {
    && tm.At(TimeCurrent) <= clock
    && (forall i :: 0 <= i < N_TIMERS ==> tm.timers[i] <= tm.At(TimeCurrent))
    && (forall i :: 0 <= i < N_SESSIONS ==> tm.sessionTimers[i] <= tm.At(TimeCurrent))
  }

  /** Slot `i` holds only sessions whose index is `i` modulo eight, with the
      tunnel's own 24-bit prefix. */
  ghost predicate RingInv(t: Tunn) {
    forall i :: 0 <= i < N_SESSIONS && t.sessions[i].Some? ==>
      && t.sessions[i].value.receivingIndex % N_SESSIONS == i
      && t.sessions[i].value.receivingIndex / 256 == t.handshake.nextIndex / 256
  }

  /** After giving up, nothing is left behind. */
  predicate ExpiredInv(t: Tunn) {
    t.handshake.IsExpired() ==> t.sessions == EmptyRing && t.queue == []
  }

  /** An initiation in flight was sent no earlier than its attempt began. */
  predicate FlightInv(t: Tunn, clock: nat) {
    t.handshake.state.InitSent? ==>
      t.timers.At(TimeLastHandshakeStarted) <= t.handshake.state.sent.timeSent <= clock
  }

  ghost predicate Inv(t: Tunn, clock: nat) {
    && HR.Inv(t.handshake)
    && TimersInv(t.timers, clock)
    && RingInv(t)
    && ExpiredInv(t)
    && FlightInv(t, clock)
    && |t.queue| <= MAX_QUEUE_DEPTH
  }

  /** No timer goes back. */
  ghost predicate Grows(tm: Timers, tm': Timers) {
    && (forall i :: 0 <= i < N_TIMERS ==> tm.timers[i] <= tm'.timers[i])
    && (forall i :: 0 <= i < N_SESSIONS ==> tm.sessionTimers[i] <= tm'.sessionTimers[i])
  }

  /** The buffer contract and the monotone clock. */
  predicate Timely(e: Env, clock: nat) {
    clock <= e.now && e.dstLen >= HANDSHAKE_INIT_SZ
  }

  // ---------------------------------------------------------------- timers

  lemma TickKeeps(tm: Timers, clock: nat, n: TimerName)
    requires TimersInv(tm, clock)
    ensures TimersInv(tm.Tick(n), clock) && Grows(tm, tm.Tick(n))
    ensures tm.Tick(n).At(TimeCurrent) == tm.At(TimeCurrent)
  {
  }

  lemma EstablishedKeeps(tm: Timers, clock: nat, initiator: bool, idx: nat)
    requires TimersInv(tm, clock)
    ensures TimersInv(tm.Established(initiator, idx), clock) && Grows(tm, tm.Established(initiator, idx))
  {
    TickKeeps(tm, clock, TimeSessionEstablished);
  }

  lemma ClearedKeeps(tm: Timers, clock: nat, now: nat)
    requires TimersInv(tm, clock) && clock <= now
    ensures TimersInv(tm.Cleared(now), now) && Grows(tm, tm.Cleared(now))
  {
  }

  // ---------------------------------------------------------------- handshake calls

  /** What the handshake calls do, cryptography aside. */
  lemma InitiationShape(c: Suite, h: Handshake, e: Env)
    requires e.dstLen >= HANDSHAKE_INIT_SZ
    ensures var (h', r) := FormatHandshakeInitiation(c, h, e.eph, e.stamp, e.now, e.dstLen);
            && r.Ok?
            && h'.state.InitSent? && h'.state.sent.timeSent == e.now && h'.state.sent.localIndex == h'.nextIndex
            && h'.previous == h.state
            && h'.nextIndex == IncIndex(h.nextIndex) && h'.cookies.index == h'.nextIndex
            && h'.params == h.params
  {
  }

  lemma AnswerShape(c: Suite, h: Handshake, m: Packet, e: Env)
    requires m.HandshakeInit? && e.dstLen >= HANDSHAKE_INIT_SZ
    ensures var (h', r) := ReceiveHandshakeInitialization(c, h, m, e.eph, e.dstLen);
            && (r.Err? ==> h' == h)
            && (r.Ok? ==> h'.state.NoHandshake? && h'.previous == h.state)
            && (r.Ok? ==> h'.nextIndex == IncIndex(h.nextIndex) && h'.cookies.index == h'.nextIndex)
            && (r.Ok? ==>
                  var s := r.value.1; s == NewSession(h'.nextIndex, s.sendingIndex, s.receiver, s.sender))
  {
  }

  lemma ResponseShape(c: Suite, h: Handshake, m: Packet, now: nat)
    requires m.HandshakeResponse? && HR.Inv(h)
    ensures var (h', r) := ReceiveHandshakeResponse(c, h, m, now);
            && (r.Err? ==> h' == h)
            && h'.nextIndex == h.nextIndex && h'.cookies == h.cookies
            && (h'.state == h.state || h'.state.NoHandshake?)
            && (r.Ok? ==>
                  var s := r.value; s == NewSession(s.receivingIndex, s.sendingIndex, s.receiver, s.sender))
            && (r.Ok? ==> r.value.receivingIndex / 256 == h.nextIndex / 256)
            && (r.Ok? ==> !h'.IsExpired())
  {
    if h.previous.InitSent? {
      HR.IncIndexCycles(h.previous.sent.localIndex);
    }
  }

  // ---------------------------------------------------------------- tunnel calls

  lemma FormatInitiationKeeps(c: Suite, t: Tunn, e: Env, force: bool, clock: nat)
    requires HR.Inv(t.handshake) && TimersInv(t.timers, clock) && RingInv(t) && FlightInv(t, clock)
    requires |t.queue| <= MAX_QUEUE_DEPTH && Timely(e, clock)
    requires t.handshake.IsExpired() ==> t.sessions == EmptyRing
    ensures Inv(FormatInitiation(c, t, e, force).0, e.now)
    ensures Grows(t.timers, FormatInitiation(c, t, e, force).0.timers)
    ensures !FormatInitiation(c, t, e, force).1.Error?
  {
    if !t.handshake.IsInProgress() || force {
      InitiationShape(c, t.handshake, e);
      HR.ApplyKeepsInv(c, t.handshake, HR.Initiate(e.eph, e.stamp, e.now, e.dstLen));
      HR.IncIndexCycles(t.handshake.nextIndex);
      var tm := if t.handshake.IsExpired() then t.timers.Cleared(e.now) else t.timers;
      ClearedKeeps(t.timers, clock, e.now);
      TickKeeps(tm, e.now, TimeLastHandshakeStarted);
      var tm1 := if !t.handshake.IsInProgress() then tm.Tick(TimeLastHandshakeStarted) else tm;
      TickKeeps(tm1, e.now, TimeLastPacketSent);
    }
  }

  /** Replacing a session by one with the same index. */
  lemma SameIndexKeepsRing(t: Tunn, t': Tunn, i: nat, s: Session)
    requires RingInv(t) && i < N_SESSIONS && t'.sessions == t.sessions[i := Some(s)]
    requires t'.handshake.nextIndex / 256 == t.handshake.nextIndex / 256
    requires s.receivingIndex % N_SESSIONS == i && s.receivingIndex / 256 == t.handshake.nextIndex / 256
    ensures RingInv(t')
  {
  }

  lemma EncapsulateKeeps(c: Suite, t: Tunn, src: Bytes, e: Env, clock: nat)
    requires Inv(t, clock) && Timely(e, clock)
    ensures Inv(Encapsulate(c, t, src, e).0, e.now)
    ensures Grows(t.timers, Encapsulate(c, t, src, e).0.timers)
    ensures !Encapsulate(c, t, src, e).1.Error?
  {
    match t.CurrentSession()
    case Some(s) =>
      var t' := Encapsulate(c, t, src, e).0;
      SameIndexKeepsRing(t, t', t.current % N_SESSIONS, FormatPacketData(c, s, src).0);
      TickKeeps(t.timers, clock, TimeLastPacketSent);
      TickKeeps(t.timers.Tick(TimeLastPacketSent), clock, TimeLastDataPacketSent);
      assert !t.handshake.IsExpired();
    case None =>
      FormatInitiationKeeps(c, t.(queue := Enqueue(t.queue, src)), e, false, clock);
  }

  lemma SendQueuedKeeps(c: Suite, t: Tunn, e: Env, clock: nat)
    requires Inv(t, clock) && Timely(e, clock)
    ensures Inv(SendQueuedPacket(c, t, e).0, e.now)
    ensures Grows(t.timers, SendQueuedPacket(c, t, e).0.timers)
  {
    if t.queue != [] {
      EncapsulateKeeps(c, t.(queue := t.queue[1..]), t.queue[0], e, clock);
    }
  }

  lemma SetCurrentKeeps(t: Tunn, newIdx: nat)
    ensures SetCurrentSession(t, newIdx) == t.(current := SetCurrentSession(t, newIdx).current)
    ensures t.sessions[newIdx % N_SESSIONS].Some? ==> SetCurrentSession(t, newIdx).CurrentSession().Some?
  {
  }

  lemma HandleInitKeeps(c: Suite, t: Tunn, m: Packet, e: Env, clock: nat)
    requires Inv(t, clock) && Timely(e, clock) && m.HandshakeInit?
    ensures Inv(HandleHandshakeInit(c, t, m, e).0, e.now)
    ensures Grows(t.timers, HandleHandshakeInit(c, t, m, e).0.timers)
  {
    var (h, r) := ReceiveHandshakeInitialization(c, t.handshake, m, e.eph, e.dstLen);
    AnswerShape(c, t.handshake, m, e);
    if r.Ok? {
      HR.ApplyKeepsInv(c, t.handshake, HR.OnInitiation(m, e.eph, e.dstLen));
      HR.IncIndexCycles(t.handshake.nextIndex);
      var session := r.value.1;
      var index := session.receivingIndex;
      SameIndexKeepsRing(t, HandleHandshakeInit(c, t, m, e).0, index % N_SESSIONS, session);
      TickKeeps(t.timers, clock, TimeLastPacketReceived);
      var tm := t.timers.Tick(TimeLastPacketReceived);
      TickKeeps(tm, clock, TimeLastPacketSent);
      EstablishedKeeps(tm.Tick(TimeLastPacketSent), clock, false, index);
    }
  }

  lemma HandleResponseKeeps(c: Suite, t: Tunn, m: Packet, e: Env, clock: nat)
    requires Inv(t, clock) && Timely(e, clock) && m.HandshakeResponse?
    ensures Inv(HandleHandshakeResponse(c, t, m, e).0, e.now)
    ensures Grows(t.timers, HandleHandshakeResponse(c, t, m, e).0.timers)
  {
    var (h, r) := ReceiveHandshakeResponse(c, t.handshake, m, e.now);
    ResponseShape(c, t.handshake, m, e.now);
    if r.Ok? {
      HR.ApplyKeepsInv(c, t.handshake, HR.OnResponse(m, e.now));
      var session := FormatPacketData(c, r.value, []).0;
      var index := session.receivingIndex;
      TickKeeps(t.timers, clock, TimeLastPacketReceived);
      var tm := t.timers.Tick(TimeLastPacketReceived);
      EstablishedKeeps(tm, clock, true, index % N_SESSIONS);
      var t1 := t.(handshake := h,
                   sessions := t.sessions[index % N_SESSIONS := Some(session)],
                   timers := tm.Established(true, index % N_SESSIONS));
      SameIndexKeepsRing(t, t1, index % N_SESSIONS, session);
      SetCurrentKeeps(t1, index);
    }
  }

  lemma HandleCookieKeeps(c: Suite, t: Tunn, m: Packet, e: Env, clock: nat)
    requires Inv(t, clock) && Timely(e, clock) && m.PacketCookieReply?
    ensures Inv(HandleCookieReply(c, t, m).0, e.now)
    ensures Grows(t.timers, HandleCookieReply(c, t, m).0.timers)
  {
    TickKeeps(t.timers, clock, TimeLastPacketReceived);
    TickKeeps(t.timers.Tick(TimeLastPacketReceived), clock, TimeCookieReceived);
  }

  lemma ValidateKeeps(t: Tunn, p: Bytes, clock: nat)
    requires Inv(t, clock)
    ensures Inv(ValidateDecapsulatedPacket(t, p).0, clock)
    ensures Grows(t.timers, ValidateDecapsulatedPacket(t, p).0.timers)
  {
    TickKeeps(t.timers, clock, TimeLastDataPacketReceived);
  }

  lemma HandleDataKeeps(c: Suite, t: Tunn, m: Packet, e: Env, clock: nat)
    requires Inv(t, clock) && Timely(e, clock) && m.PacketData?
    ensures Inv(HandleData(c, t, m).0, e.now)
    ensures Grows(t.timers, HandleData(c, t, m).0.timers)
  {
    var idx := m.receiverIdx % N_SESSIONS;
    if t.sessions[idx].Some? {
      var s := t.sessions[idx].value;
      var (s', r) := ReceivePacketData(c, s, m);
      if r.Ok? {
        var t0 := t.(sessions := t.sessions[idx := Some(s')]);
        SameIndexKeepsRing(t, t0, idx, s');
        SetCurrentKeeps(t0, m.receiverIdx);
        TickKeeps(t.timers, clock, TimeLastPacketReceived);
        assert !t.handshake.IsExpired();
        ValidateKeeps(SetCurrentSession(t0, m.receiverIdx).Ticked(TimeLastPacketReceived), r.value, clock);
      }
    }
  }

  lemma SetKeyKeeps(c: Suite, t: Tunn, priv: Key, own: bool, clock: nat)
    requires Inv(t, clock)
    ensures Inv(SetKey(c, t, priv, own), clock)
  {
  }

  lemma GiveUpKeeps(t: Tunn, now: nat, clock: nat)
    requires Inv(t, clock) && clock <= now
    ensures Inv(GiveUp(t, now).0, now)
    ensures Grows(t.timers, GiveUp(t, now).0.timers)
  {
    ClearedKeeps(t.timers, clock, now);
  }

  lemma AdvanceKeeps(t: Tunn, now: nat, clock: nat)
    requires Inv(t, clock) && clock <= now
    ensures Inv(Advance(t, now), now) && Grows(t.timers, Advance(t, now).timers)
    ensures Advance(t, now).timers.At(TimeCurrent) == now
    ensures Advance(t, now).handshake == t.handshake
  {
  }

  lemma IdleTimersKeep(tm: Timers, now: nat, clock: nat)
    requires TimersInv(tm, clock)
    ensures TimersInv(HeardTimers(tm, now), clock) && Grows(tm, HeardTimers(tm, now))
    ensures TimersInv(IdleTimers(tm, now), clock) && Grows(tm, IdleTimers(tm, now))
    ensures HeardTimers(tm, now).sessionTimers == IdleTimers(tm, now).sessionTimers == tm.sessionTimers
    ensures HeardTimers(tm, now).At(TimeLastHandshakeStarted) == IdleTimers(tm, now).At(TimeLastHandshakeStarted)
            == tm.At(TimeLastHandshakeStarted)
  {
    var tm1 := HeardTimers(tm, now);
    var tm2 := if NothingSaid(tm, now) then tm1.(wantKeepalive := false) else tm1;
    assert tm2.timers == tm.timers && tm2.sessionTimers == tm.sessionTimers;
    TickKeeps(tm2, clock, TimePersistentKeepalive);
  }

  lemma IdleKeeps(c: Suite, t: Tunn, e: Env)
    requires Inv(t, e.now) && Timely(e, e.now)
    ensures Inv(UpdateWhenIdle(c, t, e).0, e.now) && Grows(t.timers, UpdateWhenIdle(c, t, e).0.timers)
  {
    IdleTimersKeep(t.timers, e.now, e.now);
    if StartDue(t.timers, e.now) {
      FormatInitiationKeeps(c, t.(timers := HeardTimers(t.timers, e.now)), e, true, e.now);
    } else if KeepaliveDue(t.timers, e.now) {
      EncapsulateKeeps(c, t.(timers := IdleTimers(t.timers, e.now)), [], e, e.now);
    }
  }

  lemma DropCookieKeeps(t: Tunn, now: nat, clock: nat)
    requires Inv(t, clock)
    ensures Inv(DropOldCookie(t, now), clock) && DropOldCookie(t, now).timers == t.timers
  {
  }

  lemma AdvancedKeeps(c: Suite, t: Tunn, e: Env)
    requires Inv(t, e.now) && e.dstLen >= HANDSHAKE_INIT_SZ
    ensures Inv(UpdateAdvanced(c, t, e).0, e.now) && Grows(t.timers, UpdateAdvanced(c, t, e).0.timers)
  {
    if !t.handshake.IsExpired() {
      DropCookieKeeps(t, e.now, e.now);
      var t2 := DropOldCookie(t, e.now);
      GiveUpKeeps(t2, e.now, e.now);
      if t2.handshake.Timer().Some? {
        FormatInitiationKeeps(c, t2, e, true, e.now);
      } else {
        IdleKeeps(c, t2, e);
      }
    }
  }

  lemma UpdateKeeps(c: Suite, t: Tunn, e: Env, clock: nat)
    requires Inv(t, clock) && Timely(e, clock)
    ensures Inv(UpdateTimers(c, t, e).0, e.now) && Grows(t.timers, UpdateTimers(c, t, e).0.timers)
  {
    AdvanceKeeps(t, e.now, clock);
    AdvancedKeeps(c, Advance(t, e.now), e);
  }

  /** Every call keeps the invariant and moves no timer back. */
  lemma CallKeeps(c: Suite, t: Tunn, op: Op, e: Env, clock: nat)
    requires Inv(t, clock) && Timely(e, clock)
    ensures Inv(Call(c, t, op, e).0, e.now) && Grows(t.timers, Call(c, t, op, e).0.timers)
  {
    match op
    case Send(src) => EncapsulateKeeps(c, t, src, e, clock);
    case Flush => SendQueuedKeeps(c, t, e, clock);
    case Update => UpdateKeeps(c, t, e, clock);
    case StartHandshake(force) => FormatInitiationKeeps(c, t, e, force, clock);
    case NewKey(priv, own) => SetKeyKeeps(c, t, priv, own, clock);
    case Handle(m) =>
      match m
      case HandshakeInit(_, _, _, _) => HandleInitKeeps(c, t, m, e, clock);
      case HandshakeResponse(_, _, _, _) => HandleResponseKeeps(c, t, m, e, clock);
      case PacketCookieReply(_, _, _) => HandleCookieKeeps(c, t, m, e, clock);
      case PacketData(_, _, _) => HandleDataKeeps(c, t, m, e, clock);
  }
}
