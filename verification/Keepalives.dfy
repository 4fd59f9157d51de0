/** Passive keepalives answer data and never each other (noise/timers.rs; section
    6.5 of the WireGuard paper). */
module Keepalives {
  import opened Common
  import opened Crypto
  import opened Noise
  import opened Sessions
  import opened Tunnel
  import opened TunnelInvariants
  import opened TunnelRuns
  import opened Wire
  import HR = HandshakeRuns

  /** The state in which `update_timers` reaches its decisions. */
  function Deciding(t: Tunn, now: nat): Tunn {
    DropOldCookie(Advance(t, now), now)
  }

  /** An update that neither reports expiry nor finds an initiation in flight. */
  predicate DecidesIdle(t: Tunn, now: nat) {
    && !t.handshake.IsExpired()
    && now - t.timers.At(TimeSessionEstablished) < REJECT_AFTER_TIME * 3
    && t.handshake.Timer().None?
  }

  /** `update_timers` decides on a passive keepalive. */
  predicate DecidesPassive(t: Tunn, m: Moment) {
    var tm, now := Deciding(t, m.env.now).timers, m.env.now;
    m.op.Update? && DecidesIdle(t, now) && !StartDue(tm, now) && NothingSaid(tm, now) && tm.wantKeepalive
  }

  /** `update_timers` decides to send a keepalive, passive or persistent. */
  predicate DecidesKeepalive(t: Tunn, now: nat) {
    var tm := Deciding(t, now).timers;
    DecidesIdle(t, now) && !StartDue(tm, now) && KeepaliveDue(tm, now)
  }

  /** The state a keepalive is sent from. */
  function Sending(t: Tunn, now: nat): Tunn {
    var t2 := Deciding(t, now);
    t2.(timers := IdleTimers(t2.timers, now))
  }

  /** Exactly then does an update encapsulate an empty packet. */
  lemma KeepaliveIsEmptySend(c: Suite, t: Tunn, e: Env)
    requires DecidesKeepalive(t, e.now)
    ensures UpdateTimers(c, t, e) == Encapsulate(c, Sending(t, e.now), [], e)
  {
  }

  /** Otherwise it leaves queue and byte counts alone, unless it gives the
      connection up, which empties the queue. */
  lemma OtherUpdates(c: Suite, t: Tunn, e: Env)
    requires HR.Inv(t.handshake) && e.dstLen >= HANDSHAKE_INIT_SZ && !DecidesKeepalive(t, e.now)
    requires t.handshake.IsExpired() ==> t.queue == []
    ensures var (t', r) := UpdateTimers(c, t, e);
            && t'.txBytes == t.txBytes && t'.rxBytes == t.rxBytes
            && t'.queue == if r == Error(ConnectionExpired) then [] else t.queue
  {
    var t2 := Deciding(t, e.now);
    FormatKeepsQueue(c, t2, e, true);
    FormatKeepsQueue(c, t2.(timers := HeardTimers(t2.timers, e.now)), e, true);
  }

  lemma FormatKeepsQueue(c: Suite, t: Tunn, e: Env, force: bool)
    requires e.dstLen >= HANDSHAKE_INIT_SZ
    ensures var (t', r) := FormatInitiation(c, t, e, force);
            t'.queue == t.queue && t'.txBytes == t.txBytes && t'.rxBytes == t.rxBytes && !r.Error?
  {
    InitiationShape(c, t.handshake, e);
  }

  /** A valid IP packet was accepted from the peer. */
  predicate Delivers(c: Suite, t: Tunn, m: Moment) {
    m.op.Handle? && HandleVerifiedPacket(c, t, m.op.packet, m.env).1.WriteToTunnel?
  }

  /** Was a valid IP packet accepted since the last passive keepalive, or since
      the start? */
  function Heard(c: Suite, t0: Tunn, ms: seq<Moment>): bool {
    if ms == [] then false
    else
      var t, m := Run(c, t0, ms[..|ms| - 1]), ms[|ms| - 1];
      if DecidesPassive(t, m) then false
      else Delivers(c, t, m) || Heard(c, t0, ms[..|ms| - 1])
  }

  /** All data received has been answered by something sent since. */
  predicate Answered(tm: Timers) {
    tm.At(TimeLastDataPacketReceived) <= tm.At(TimeLastPacketSent)
  }

  // ---------------------------------------------------------------- what calls keep

  lemma InitiationAnswers(t: Tunn, h: Handshake, r: Result<Bytes>, now: nat, clock: nat)
    requires TimersInv(t.timers, clock) && r.Ok?
    ensures Answered(AfterInitiation(t, h, r, now).0.timers)
  {
  }

  lemma FormatKeeps(c: Suite, t: Tunn, e: Env, force: bool, clock: nat)
    requires TimersInv(t.timers, clock) && e.dstLen >= HANDSHAKE_INIT_SZ
    requires Answered(t.timers) || !t.handshake.IsInProgress() || force
    ensures Answered(FormatInitiation(c, t, e, force).0.timers)
  {
    InitiationShape(c, t.handshake, e);
    var (h, r) := FormatHandshakeInitiation(c, t.handshake, e.eph, e.stamp, e.now, e.dstLen);
    InitiationAnswers(t, h, r, e.now, clock);
  }

  lemma SendKeeps(c: Suite, t: Tunn, src: Bytes, e: Env, clock: nat)
    requires TimersInv(t.timers, clock) && e.dstLen >= HANDSHAKE_INIT_SZ
    requires Answered(t.timers) || !t.handshake.IsInProgress()
    ensures Answered(Encapsulate(c, t, src, e).0.timers)
  {
    if t.CurrentSession().None? {
      FormatKeeps(c, t.(queue := Enqueue(t.queue, src)), e, false, clock);
    }
  }

  lemma AnswerKeeps(t: Tunn, h: Handshake, r: Result<(Bytes, Session)>, clock: nat)
    requires TimersInv(t.timers, clock) && Answered(t.timers)
    ensures Answered(AfterAnswer(t, h, r).0.timers)
  {
  }

  lemma ResponseKeeps(c: Suite, t: Tunn, h: Handshake, r: Result<Session>)
    requires Answered(t.timers)
    ensures Answered(AfterResponse(c, t, h, r).0.timers)
  {
  }

  lemma CookieKeeps(c: Suite, t: Tunn, m: Packet)
    requires m.PacketCookieReply? && Answered(t.timers)
    ensures Answered(HandleCookieReply(c, t, m).0.timers)
  {
  }

  lemma DataKeeps(c: Suite, t: Tunn, m: Packet)
    requires m.PacketData? && Answered(t.timers) && !HandleData(c, t, m).1.WriteToTunnel?
    ensures Answered(HandleData(c, t, m).0.timers)
  {
  }

  lemma HandleKeeps(c: Suite, t: Tunn, m: Packet, e: Env, clock: nat)
    requires TimersInv(t.timers, clock) && Answered(t.timers)
    requires !HandleVerifiedPacket(c, t, m, e).1.WriteToTunnel?
    ensures Answered(HandleVerifiedPacket(c, t, m, e).0.timers)
  {
    match m
    case HandshakeInit(_, _, _, _) =>
      var (h, r) := ReceiveHandshakeInitialization(c, t.handshake, m, e.eph, e.dstLen);
      AnswerKeeps(t, h, r, clock);
    case HandshakeResponse(_, _, _, _) =>
      var (h, r) := ReceiveHandshakeResponse(c, t.handshake, m, e.now);
      ResponseKeeps(c, t, h, r);
    case PacketCookieReply(_, _, _) => CookieKeeps(c, t, m);
    case PacketData(_, _, _) => DataKeeps(c, t, m);
  }

  /** With everything answered, or with a passive keepalive decided, an idle update
      ends with everything answered. */
  lemma IdleKeepsAnswered(c: Suite, t: Tunn, e: Env)
    requires TimersInv(t.timers, e.now) && e.dstLen >= HANDSHAKE_INIT_SZ && !t.handshake.IsInProgress()
    requires || Answered(t.timers)
             || StartDue(t.timers, e.now)
             || (NothingSaid(t.timers, e.now) && t.timers.wantKeepalive)
    ensures Answered(UpdateWhenIdle(c, t, e).0.timers)
  {
    IdleTimersKeep(t.timers, e.now, e.now);
    FormatKeeps(c, t.(timers := HeardTimers(t.timers, e.now)), e, true, e.now);
    SendKeeps(c, t.(timers := IdleTimers(t.timers, e.now)), [], e, e.now);
  }

  lemma ClearedAnswers(tm: Timers, now: nat)
    ensures Answered(tm.Cleared(now))
  {
  }

  lemma UpdateKeepsAnswered(c: Suite, t: Tunn, e: Env, clock: nat)
    requires Inv(t, clock) && Timely(e, clock)
    requires Answered(t.timers) || DecidesPassive(t, Moment(Update, e))
    ensures Answered(UpdateTimers(c, t, e).0.timers)
  {
    AdvanceKeeps(t, e.now, clock);
    var t1 := Advance(t, e.now);
    var t2 := Deciding(t, e.now);
    assert t1.timers.At(TimeLastDataPacketReceived) == t.timers.At(TimeLastDataPacketReceived);
    assert t1.timers.At(TimeLastPacketSent) == t.timers.At(TimeLastPacketSent);
    if !t.handshake.IsExpired() {
      DropCookieKeeps(t1, e.now, e.now);
      ClearedAnswers(t2.timers, e.now);
      match t2.handshake.Timer()
      case Some(sent) =>
        if Answered(t2.timers) {
          FormatKeeps(c, t2, e, true, e.now);
        }
      case None =>
        if e.now - t2.timers.At(TimeSessionEstablished) < REJECT_AFTER_TIME * 3 {
          IdleKeepsAnswered(c, t2, e);
        }
    }
  }

  /** Any call but an accepted packet keeps everything answered. */
  lemma CallKeepsAnswered(c: Suite, t: Tunn, m: Moment, clock: nat)
    requires Inv(t, clock) && Timely(m.env, clock)
    requires (Answered(t.timers) && !Delivers(c, t, m)) || DecidesPassive(t, m)
    ensures Answered(Call(c, t, m.op, m.env).0.timers)
  {
    match m.op
    case Send(src) => SendKeeps(c, t, src, m.env, clock);
    case Flush => if t.queue != [] { SendKeeps(c, t.(queue := t.queue[1..]), t.queue[0], m.env, clock); }
    case StartHandshake(force) => FormatKeeps(c, t, m.env, force, clock);
    case Handle(p) => HandleKeeps(c, t, p, m.env, clock);
    case NewKey(_, _) =>
    case Update => UpdateKeepsAnswered(c, t, m.env, clock);
  }

  lemma {:induction false} UnheardIsAnswered(c: Suite, t0: Tunn, ms: seq<Moment>)
    requires Inv(t0, 0) && Answered(t0.timers) && Orderly(ms)
    ensures Heard(c, t0, ms) || Answered(Run(c, t0, ms).timers)
  {
    if ms != [] {
      var before, m := ms[..|ms| - 1], ms[|ms| - 1];
      RunKeepsInv(c, t0, ms);
      UnheardIsAnswered(c, t0, before);
      if !Heard(c, t0, ms) {
        CallKeepsAnswered(c, Run(c, t0, before), m, Clock(before));
      }
    }
  }

  /** Passive keepalives do not feed on each other: whenever `update_timers`
      decides on one, a valid IP packet was accepted from the peer since the last
      one, or since the tunnel began. */
  lemma PassiveNeedsData(c: Suite, t0: Tunn, ms: seq<Moment>, m: Moment)
    requires New(c, t0) && Orderly(ms + [m]) && DecidesPassive(Run(c, t0, ms), m)
    ensures Heard(c, t0, ms)
  {
    PrefixOrderly(ms, m);
    UnheardIsAnswered(c, t0, ms);
    if !Heard(c, t0, ms) {
      AnsweredStaysQuiet(Run(c, t0, ms), m);
    }
  }

  lemma PrefixOrderly(ms: seq<Moment>, m: Moment)
    requires Orderly(ms + [m])
    ensures Orderly(ms)
  {
    assert forall i :: 0 <= i < |ms| ==> ms[i] == (ms + [m])[i];
  }

  lemma AnsweredStaysQuiet(t: Tunn, m: Moment)
    requires Answered(t.timers)
    ensures !DecidesPassive(t, m)
  {
  }
}
