/** One initiation attempt: from the first initiation to its answer or its end
    (noise/timers.rs; sections 6.1 and 6.4 of the WireGuard paper). */
module Retransmission {
  import opened Common
  import opened Crypto
  import opened Noise
  import opened Sessions
  import opened Tunnel
  import opened TunnelInvariants
  import opened TunnelRuns
  import opened Wire
  import HR = HandshakeRuns

  const MAX_RETRANSMISSIONS: nat := 17

  /** An attempt is open while an initiation is in flight. */
  predicate Open(t: Tunn) {
    t.handshake.state.InitSent?
  }

  /** `update_timers` sends the initiation of the open attempt again. */
  predicate Resends(c: Suite, t: Tunn, m: Moment) {
    m.op.Update? && Open(t) && UpdateTimers(c, t, m.env).1.WriteToNetwork?
  }

  /** How often `update_timers` has resent the initiation of the attempt that is
      open now. */
  function Resent(c: Suite, t0: Tunn, ms: seq<Moment>): nat {
    if ms == [] then 0
    else
      CountOn(c, Run(c, t0, ms[..|ms| - 1]), ms[|ms| - 1], Resent(c, t0, ms[..|ms| - 1]))
  }

  function CountOn(c: Suite, t: Tunn, m: Moment, n: nat): nat {
    if Resends(c, t, m) then n + 1 else if Open(t) then n else 0
  }

  /** Resent `n` times, each at least five seconds after the last, within ninety
      seconds of the recorded start. */
  predicate Paced(t: Tunn, n: nat) {
    Open(t) ==>
      && t.timers.At(TimeLastHandshakeStarted) + n * REKEY_TIMEOUT <= t.handshake.state.sent.timeSent
      && n <= MAX_RETRANSMISSIONS
  }

  /** What an update does to an open attempt. */
  lemma UpdateOpen(c: Suite, t: Tunn, e: Env, clock: nat)
    requires Inv(t, clock) && Timely(e, clock) && Open(t)
    ensures var (t', r) := UpdateTimers(c, t, e);
            var started, sent := t.timers.At(TimeLastHandshakeStarted), t.handshake.state.sent.timeSent;
            && (r.WriteToNetwork? <==> e.now - t.timers.At(TimeSessionEstablished) < REJECT_AFTER_TIME * 3
                                       && e.now - started < REKEY_ATTEMPT_TIME && e.now - sent >= REKEY_TIMEOUT)
            && (r.WriteToNetwork? ==> Open(t') && t'.handshake.state.sent.timeSent == e.now
                                      && t'.timers.At(TimeLastHandshakeStarted) == started)
            && (e.now - started >= REKEY_ATTEMPT_TIME ==> r == Error(ConnectionExpired) && t'.handshake.IsExpired())
            && (!r.WriteToNetwork? && Open(t') ==> t'.handshake.state == t.handshake.state
                                                   && t'.timers.At(TimeLastHandshakeStarted) == started)
  {
    InitiationShape(c, DropOldCookie(Advance(t, e.now), e.now).handshake, e);
  }

  lemma ResendStaysPaced(t: Tunn, t': Tunn, e: Env, n: nat)
    requires Open(t) && Paced(t, n) && Open(t') && t'.handshake.state.sent.timeSent == e.now
    requires t'.timers.At(TimeLastHandshakeStarted) == t.timers.At(TimeLastHandshakeStarted)
    requires e.now - t.timers.At(TimeLastHandshakeStarted) < REKEY_ATTEMPT_TIME
    requires e.now - t.handshake.state.sent.timeSent >= REKEY_TIMEOUT
    ensures Paced(t', n + 1)
  {
  }

  /** Every other call leaves an open attempt as it is, restarts its clock later,
      or ends it; a new attempt starts at or before its first initiation. */
  predicate Undisturbed(t: Tunn, t': Tunn) {
    Open(t') ==>
      if Open(t) then
        && t'.timers.At(TimeLastHandshakeStarted) == t.timers.At(TimeLastHandshakeStarted)
        && t'.handshake.state.sent.timeSent >= t.handshake.state.sent.timeSent
      else t'.timers.At(TimeLastHandshakeStarted) <= t'.handshake.state.sent.timeSent
  }

  lemma FormatUndisturbed(c: Suite, t: Tunn, e: Env, force: bool, clock: nat)
    requires HR.Inv(t.handshake) && TimersInv(t.timers, clock) && FlightInv(t, clock) && Timely(e, clock)
    ensures Undisturbed(t, FormatInitiation(c, t, e, force).0)
  {
    InitiationShape(c, t.handshake, e);
  }

  lemma SendUndisturbed(c: Suite, t: Tunn, src: Bytes, e: Env, clock: nat)
    requires HR.Inv(t.handshake) && TimersInv(t.timers, clock) && FlightInv(t, clock) && Timely(e, clock)
    ensures Undisturbed(t, Encapsulate(c, t, src, e).0)
  {
    FormatUndisturbed(c, t.(queue := Enqueue(t.queue, src)), e, false, clock);
  }

  lemma HandleUndisturbed(c: Suite, t: Tunn, m: Packet, e: Env, clock: nat)
    requires Inv(t, clock) && Timely(e, clock)
    ensures Undisturbed(t, HandleVerifiedPacket(c, t, m, e).0)
  {
    var h := HandleVerifiedPacket(c, t, m, e).0.handshake;
    if m.HandshakeInit? {
      AnswerShape(c, t.handshake, m, e);
    } else if m.HandshakeResponse? {
      ResponseShape(c, t.handshake, m, e.now);
    }
    assert h.state == t.handshake.state || !h.state.InitSent?;
    HandleKeepsStart(c, t, m, e);
  }

  /** Handling a packet ticks no `TimeLastHandshakeStarted`. */
  lemma HandleKeepsStart(c: Suite, t: Tunn, m: Packet, e: Env)
    ensures HandleVerifiedPacket(c, t, m, e).0.timers.At(TimeLastHandshakeStarted) ==
            t.timers.At(TimeLastHandshakeStarted)
  {
    match m
    case HandshakeInit(_, _, _, _) =>
      var (h, r) := ReceiveHandshakeInitialization(c, t.handshake, m, e.eph, e.dstLen);
      AnswerKeepsStart(t, h, r);
    case HandshakeResponse(_, _, _, _) =>
      var (h, r) := ReceiveHandshakeResponse(c, t.handshake, m, e.now);
      ResponseKeepsStart(c, t, h, r);
    case PacketCookieReply(_, _, _) => CookieKeepsStart(c, t, m);
    case PacketData(_, _, _) => DataKeepsStart(c, t, m);
  }

  lemma AnswerKeepsStart(t: Tunn, h: Handshake, r: Result<(Bytes, Session)>)
    ensures AfterAnswer(t, h, r).0.timers.At(TimeLastHandshakeStarted) == t.timers.At(TimeLastHandshakeStarted)
  {
  }

  lemma ResponseKeepsStart(c: Suite, t: Tunn, h: Handshake, r: Result<Session>)
    ensures AfterResponse(c, t, h, r).0.timers.At(TimeLastHandshakeStarted) == t.timers.At(TimeLastHandshakeStarted)
  {
  }

  lemma CookieKeepsStart(c: Suite, t: Tunn, m: Packet)
    requires m.PacketCookieReply?
    ensures HandleCookieReply(c, t, m).0.timers.At(TimeLastHandshakeStarted) == t.timers.At(TimeLastHandshakeStarted)
  {
  }

  lemma DataKeepsStart(c: Suite, t: Tunn, m: Packet)
    requires m.PacketData?
    ensures HandleData(c, t, m).0.timers.At(TimeLastHandshakeStarted) == t.timers.At(TimeLastHandshakeStarted)
  {
  }

  lemma UndisturbedStaysPaced(t: Tunn, t': Tunn, n: nat)
    requires Paced(t, n) && Undisturbed(t, t')
    ensures Paced(t', if Open(t) then n else 0)
  {
  }

  lemma UpdateStaysPaced(c: Suite, t: Tunn, e: Env, clock: nat, n: nat)
    requires Inv(t, clock) && Timely(e, clock) && Paced(t, n)
    ensures Paced(UpdateTimers(c, t, e).0, CountOn(c, t, Moment(Update, e), n))
  {
    UpdateKeeps(c, t, e, clock);
    if Open(t) {
      UpdateOpen(c, t, e, clock);
      if Resends(c, t, Moment(Update, e)) {
        ResendStaysPaced(t, UpdateTimers(c, t, e).0, e, n);
      }
    }
  }

  lemma CallUndisturbed(c: Suite, t: Tunn, op: Op, e: Env, clock: nat)
    requires Inv(t, clock) && Timely(e, clock) && !op.Update?
    ensures Undisturbed(t, Call(c, t, op, e).0)
  {
    match op
    case Send(src) => SendUndisturbed(c, t, src, e, clock);
    case Flush => if t.queue != [] { SendUndisturbed(c, t.(queue := t.queue[1..]), t.queue[0], e, clock); }
    case StartHandshake(force) => FormatUndisturbed(c, t, e, force, clock);
    case Handle(p) => HandleUndisturbed(c, t, p, e, clock);
    case NewKey(_, _) =>
  }

  lemma CallStaysPaced(c: Suite, t: Tunn, m: Moment, clock: nat, n: nat)
    requires Inv(t, clock) && Timely(m.env, clock) && Paced(t, n)
    ensures Paced(Call(c, t, m.op, m.env).0, CountOn(c, t, m, n))
  {
    var e := m.env;
    if m.op.Update? {
      UpdateStaysPaced(c, t, e, clock, n);
    } else {
      CallUndisturbed(c, t, m.op, e, clock);
      UndisturbedStaysPaced(t, Call(c, t, m.op, e).0, n);
    }
  }

  lemma {:induction false} RunStaysPaced(c: Suite, t0: Tunn, ms: seq<Moment>)
    requires Inv(t0, 0) && !Open(t0) && Orderly(ms)
    ensures Paced(Run(c, t0, ms), Resent(c, t0, ms))
  {
    if ms != [] {
      var before, m := ms[..|ms| - 1], ms[|ms| - 1];
      RunKeepsInv(c, t0, ms);
      RunStaysPaced(c, t0, before);
      CallStaysPaced(c, Run(c, t0, before), m, Clock(before), Resent(c, t0, before));
    }
  }

  /** Retransmission bound: within one attempt `update_timers` resends at most
      seventeen times; resending never moves the attempt's recorded start; and an
      update at least ninety seconds after that start, with the attempt still
      open, ends it. */
  lemma RetransmissionBound(c: Suite, t0: Tunn, ms: seq<Moment>, e: Env)
    requires New(c, t0) && Orderly(ms) && Timely(e, Clock(ms))
    ensures Open(Run(c, t0, ms)) ==>
              && Resent(c, t0, ms) <= MAX_RETRANSMISSIONS
              && EndsOnTime(c, Run(c, t0, ms), e)
  {
    RunStaysPaced(c, t0, ms);
    RunKeepsInv(c, t0, ms);
    if Open(Run(c, t0, ms)) {
      UpdateOpen(c, Run(c, t0, ms), e, Clock(ms));
    }
  }

  /** An update at `e` resends without moving the start, or ends an attempt that
      is ninety seconds old. */
  predicate EndsOnTime(c: Suite, t: Tunn, e: Env) {
    var started := t.timers.At(TimeLastHandshakeStarted);
    var (t', r) := UpdateTimers(c, t, e);
    && (r.WriteToNetwork? ==> t'.timers.At(TimeLastHandshakeStarted) == started)
    && (e.now - started >= REKEY_ATTEMPT_TIME ==> t'.handshake.IsExpired() && r == Error(ConnectionExpired))
  }
}
