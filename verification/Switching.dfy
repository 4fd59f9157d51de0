/** Which session a tunnel sends on: the newest of those known to work
    (noise/mod.rs, `set_current_session` and its callers). */
module Switching {
  import opened Common
  import opened Crypto
  import opened Noise
  import opened Sessions
  import opened Tunnel
  import opened TunnelInvariants
  import opened TunnelRuns
  import opened Wire
  import HR = HandshakeRuns

  /** The slots known to work: the peer answered the handshake, or a packet arrived
      on the session, since the slot was filled. */
  function Confirmed(c: Suite, t0: Tunn, ms: seq<Moment>): set<nat> {
    if ms == [] then {}
    else
      var t, m := Run(c, t0, ms[..|ms| - 1]), ms[|ms| - 1];
      ConfirmedNext(Confirmed(c, t0, ms[..|ms| - 1]), m.op, Filled(c, t, m.op, m.env), Accepting(c, t, m.op).Some?)
  }

  function ConfirmedNext(before: set<nat>, op: Op, fill: Option<nat>, accepted: bool): set<nat> {
    if op.Handle? && fill.Some? then
      if op.packet.HandshakeResponse? then before + {fill.value} else before - {fill.value}
    else if op.Handle? && op.packet.PacketData? && accepted then before + {op.packet.receiverIdx % N_SESSIONS}
    else before
  }

  /** The session packets are sent on is there and at least as new as slot `i`. */
  predicate CurrentIsNewer(t: Tunn, i: nat)
    requires i < N_SESSIONS
  {
    t.CurrentSession().Some? && t.timers.sessionTimers[t.current % N_SESSIONS] >= t.timers.sessionTimers[i]
  }

  ghost predicate NewestUsed(t: Tunn, confirmed: set<nat>) {
    forall i :: 0 <= i < N_SESSIONS && i in confirmed && t.sessions[i].Some? ==> CurrentIsNewer(t, i)
  }

  // ---------------------------------------------------------------- one switch

  /** Of two live sessions the newer one is used, the asked-for one on a tie. */
  lemma SwitchTakesNewer(t: Tunn, newIdx: nat)
    requires t.sessions[newIdx % N_SESSIONS].Some?
    ensures var t' := SetCurrentSession(t, newIdx);
            && t' == t.(current := t'.current) && t'.current in {t.current, newIdx}
            && CurrentIsNewer(t', newIdx % N_SESSIONS)
            && (t.CurrentSession().Some? ==> CurrentIsNewer(t', t.current % N_SESSIONS))
            && (t'.current != newIdx ==>
                  t.timers.sessionTimers[t.current % N_SESSIONS] > t.timers.sessionTimers[newIdx % N_SESSIONS])
  {
  }

  /** Only an accepted packet or response changes the session in use. */
  lemma OthersKeepCurrent(c: Suite, t: Tunn, op: Op, e: Env)
    requires !(op.Handle? && (op.packet.HandshakeResponse? || op.packet.PacketData?))
    ensures Call(c, t, op, e).0.current == t.current
  {
    if op.Handle? {
      if op.packet.HandshakeInit? {
        AnswerKeepsCurrent(c, t, op.packet, e);
      }
    } else if op.Update? {
      UpdateKeepsCurrent(c, t, e);
    }
  }

  lemma UpdateKeepsCurrent(c: Suite, t: Tunn, e: Env)
    ensures UpdateTimers(c, t, e).0.current == t.current
  {
  }

  lemma AnswerKeepsCurrent(c: Suite, t: Tunn, m: Packet, e: Env)
    requires m.HandshakeInit?
    ensures HandleHandshakeInit(c, t, m, e).0.current == t.current
  {
    var (h, r) := ReceiveHandshakeInitialization(c, t.handshake, m, e.eph, e.dstLen);
    assert AfterAnswer(t, h, r).0.current == t.current;
  }

  /** The session of an accepted response is used from then on. */
  lemma ResponseIsUsed(c: Suite, t: Tunn, m: Packet, e: Env, clock: nat)
    requires m.HandshakeResponse? && TimersInv(t.timers, clock)
    ensures var t' := HandleHandshakeResponse(c, t, m, e).0;
            if Filled(c, t, Handle(m), e).Some? then
              t'.current == m.receiverIdx && t'.CurrentSession().Some?
            else t'.current == t.current && t'.sessions == t.sessions && t'.timers == t.timers
  {
    var (h, r) := ReceiveHandshakeResponse(c, t.handshake, m, e.now);
    if r.Ok? {
      ResponseIndex(c, t.handshake, m, e.now);
      CompletedIsUsed(c, t, h, r, clock);
    }
  }

  lemma CompletedIsUsed(c: Suite, t: Tunn, h: Handshake, r: Result<Session>, clock: nat)
    requires r.Ok? && TimersInv(t.timers, clock)
    ensures var (t', result) := AfterResponse(c, t, h, r);
            result.WriteToNetwork? && t'.current == r.value.receivingIndex && t'.CurrentSession().Some?
  {
  }

  /** What an accepted packet does to the session in use. */
  lemma DataSwitches(c: Suite, t: Tunn, m: Packet)
    requires m.PacketData?
    ensures var t' := HandleData(c, t, m).0;
            && t'.timers.sessionTimers == t.timers.sessionTimers
            && (forall i :: 0 <= i < N_SESSIONS ==> (t'.sessions[i].Some? <==> t.sessions[i].Some?))
            && if Accepting(c, t, Handle(m)).Some? then
                 && CurrentIsNewer(t', m.receiverIdx % N_SESSIONS)
                 && (t.CurrentSession().Some? ==> CurrentIsNewer(t', t.current % N_SESSIONS))
               else t' == t
  {
  }

  // ---------------------------------------------------------------- what goes

  /** A session goes only together with every older one. */
  predicate OlderGoFirst(t: Tunn, t': Tunn, fill: Option<nat>, i: nat, j: nat)
    requires i < N_SESSIONS && j < N_SESSIONS
  {
    (t'.sessions[i].Some? && fill != Some(i) && t.sessions[j].Some?
     && t.timers.sessionTimers[j] >= t.timers.sessionTimers[i]) ==> t'.sessions[j].Some?
  }

  lemma UpdateGoes(c: Suite, t: Tunn, e: Env, i: nat, j: nat)
    requires e.dstLen >= HANDSHAKE_INIT_SZ && ExpiredInv(t) && i < N_SESSIONS && j < N_SESSIONS
    ensures OlderGoFirst(t, UpdateTimers(c, t, e).0, None, i, j)
  {
    if UpdateTimers(c, t, e).1.Error? {
      ExpiryEmptiesRing(c, t, e);
    } else {
      SessionLifetime(c, t, e, i);
      SessionLifetime(c, t, e, j);
    }
  }

  lemma AnswerGoes(c: Suite, t: Tunn, m: Packet, e: Env, i: nat, j: nat)
    requires m.HandshakeInit? && i < N_SESSIONS && j < N_SESSIONS
    ensures OlderGoFirst(t, HandleHandshakeInit(c, t, m, e).0, Filled(c, t, Handle(m), e), i, j)
  {
    var (h, r) := ReceiveHandshakeInitialization(c, t.handshake, m, e.eph, e.dstLen);
    assert t.sessions[j].Some? ==> AfterAnswer(t, h, r).0.sessions[j].Some?;
  }

  lemma ResponseGoes(c: Suite, t: Tunn, m: Packet, e: Env, i: nat, j: nat)
    requires m.HandshakeResponse? && i < N_SESSIONS && j < N_SESSIONS
    ensures OlderGoFirst(t, HandleHandshakeResponse(c, t, m, e).0, Filled(c, t, Handle(m), e), i, j)
  {
    var (h, r) := ReceiveHandshakeResponse(c, t.handshake, m, e.now);
    assert t.sessions[j].Some? ==> AfterResponse(c, t, h, r).0.sessions[j].Some?;
  }

  lemma CallGoes(c: Suite, t: Tunn, op: Op, e: Env, i: nat, j: nat)
    requires e.dstLen >= HANDSHAKE_INIT_SZ && ExpiredInv(t) && i < N_SESSIONS && j < N_SESSIONS
    ensures OlderGoFirst(t, Call(c, t, op, e).0, Filled(c, t, op, e), i, j)
  {
    match op
    case Send(src) => EncapsulatePopulation(c, t, src, e);
    case Flush => if t.queue != [] { EncapsulatePopulation(c, t.(queue := t.queue[1..]), t.queue[0], e); }
    case Update => UpdateGoes(c, t, e, i, j);
    case StartHandshake(force) => FormatInitiationPopulation(c, t, e, force);
    case NewKey(_, _) =>
    case Handle(m) =>
      match m
      case HandshakeInit(_, _, _, _) => AnswerGoes(c, t, m, e, i, j);
      case HandshakeResponse(_, _, _, _) => ResponseGoes(c, t, m, e, i, j);
      case PacketCookieReply(_, _, _) =>
      case PacketData(_, _, _) => DataSwitches(c, t, m);
  }

  // ---------------------------------------------------------------- runs

  /** Without a switch the newest confirmed session stays the one in use. */
  lemma StaysNewest(t: Tunn, t': Tunn, fill: Option<nat>, clock: nat, i: nat)
    requires i < N_SESSIONS && TimersInv(t.timers, clock) && t'.current == t.current
    requires t.sessions[i].Some? ==> CurrentIsNewer(t, i)
    requires OlderGoFirst(t, t', fill, i, t.current % N_SESSIONS)
    requires Moved(t, t', fill, i) && Moved(t, t', fill, t.current % N_SESSIONS)
    requires fill != Some(i) && t'.sessions[i].Some?
    ensures CurrentIsNewer(t', i)
  {
  }

  /** A slot is filled at the current tick, or keeps its timer while it lives. */
  predicate Moved(t: Tunn, t': Tunn, fill: Option<nat>, i: nat)
    requires i < N_SESSIONS
  {
    if fill == Some(i) then t'.timers.sessionTimers[i] == t.timers.At(TimeCurrent)
    else t'.sessions[i].Some? ==> t.sessions[i].Some? && t'.timers.sessionTimers[i] == t.timers.sessionTimers[i]
  }

  lemma CallMoves(c: Suite, t: Tunn, m: Moment, clock: nat, i: nat)
    requires Inv(t, clock) && Timely(m.env, clock) && i < N_SESSIONS
    ensures Moved(t, Call(c, t, m.op, m.env).0, Filled(c, t, m.op, m.env), i)
  {
    CallSlots(c, t, m.op, m.env, clock, i);
  }

  lemma OthersKeepNewest(c: Suite, t: Tunn, m: Moment, clock: nat, i: nat)
    requires Inv(t, clock) && Timely(m.env, clock) && i < N_SESSIONS
    requires !(m.op.Handle? && (m.op.packet.HandshakeResponse? || m.op.packet.PacketData?))
    requires t.sessions[i].Some? ==> CurrentIsNewer(t, i)
    requires Filled(c, t, m.op, m.env) != Some(i)
    ensures var t' := Call(c, t, m.op, m.env).0; t'.sessions[i].Some? ==> CurrentIsNewer(t', i)
  {
    var t', fill := Call(c, t, m.op, m.env).0, Filled(c, t, m.op, m.env);
    if t'.sessions[i].Some? {
      CallMoves(c, t, m, clock, i);
      CallMoves(c, t, m, clock, t.current % N_SESSIONS);
      CallGoes(c, t, m.op, m.env, i, t.current % N_SESSIONS);
      OthersKeepCurrent(c, t, m.op, m.env);
      StaysNewest(t, t', fill, clock, i);
    }
  }

  lemma ResponseKeepsNewest(c: Suite, t: Tunn, m: Moment, clock: nat, i: nat)
    requires Inv(t, clock) && Timely(m.env, clock) && i < N_SESSIONS
    requires m.op.Handle? && m.op.packet.HandshakeResponse?
    requires Filled(c, t, m.op, m.env).None? && t.sessions[i].Some? ==> CurrentIsNewer(t, i)
    ensures var t' := Call(c, t, m.op, m.env).0; t'.sessions[i].Some? ==> CurrentIsNewer(t', i)
  {
    var p := m.op.packet;
    ResponseIsUsed(c, t, p, m.env, clock);
    CallMoves(c, t, m, clock, i);
    CallMoves(c, t, m, clock, p.receiverIdx % N_SESSIONS);
    FilledSlot(c, t, p, m.env);
  }

  lemma FilledSlot(c: Suite, t: Tunn, p: Packet, e: Env)
    requires p.HandshakeResponse?
    ensures var fill := Filled(c, t, Handle(p), e); fill.Some? ==> fill.value == p.receiverIdx % N_SESSIONS
  {
  }

  lemma DataKeepsNewest(c: Suite, t: Tunn, p: Packet, i: nat)
    requires p.PacketData? && i < N_SESSIONS
    requires (t.sessions[i].Some? ==> CurrentIsNewer(t, i))
             || (Accepting(c, t, Handle(p)).Some? && i == p.receiverIdx % N_SESSIONS)
    ensures var t' := HandleData(c, t, p).0; t'.sessions[i].Some? ==> CurrentIsNewer(t', i)
  {
    DataSwitches(c, t, p);
  }

  lemma CallKeepsNewest(c: Suite, t: Tunn, m: Moment, clock: nat, confirmed: set<nat>)
    requires Inv(t, clock) && Timely(m.env, clock) && NewestUsed(t, confirmed)
    ensures NewestUsed(Call(c, t, m.op, m.env).0,
                       ConfirmedNext(confirmed, m.op, Filled(c, t, m.op, m.env), Accepting(c, t, m.op).Some?))
  {
    var fill, accepted := Filled(c, t, m.op, m.env), Accepting(c, t, m.op).Some?;
    var t' := Call(c, t, m.op, m.env).0;
    forall i | 0 <= i < N_SESSIONS && i in ConfirmedNext(confirmed, m.op, fill, accepted) && t'.sessions[i].Some?
      ensures CurrentIsNewer(t', i)
    {
      if m.op.Handle? && m.op.packet.PacketData? {
        DataKeepsNewest(c, t, m.op.packet, i);
      } else if m.op.Handle? && m.op.packet.HandshakeResponse? {
        ResponseKeepsNewest(c, t, m, clock, i);
      } else {
        OthersKeepNewest(c, t, m, clock, i);
      }
    }
  }

  /** Over every run: whenever some session is known to work, packets are sent on one
      at least as new as all of those. */
  lemma {:induction false} NewestConfirmedIsUsed(c: Suite, t0: Tunn, ms: seq<Moment>)
    requires New(c, t0) && Orderly(ms)
    ensures NewestUsed(Run(c, t0, ms), Confirmed(c, t0, ms))
  {
    if ms != [] {
      var before, m := ms[..|ms| - 1], ms[|ms| - 1];
      RunKeepsInv(c, t0, ms);
      NewestConfirmedIsUsed(c, t0, before);
      CallKeepsNewest(c, Run(c, t0, before), m, Clock(before), Confirmed(c, t0, before));
    }
  }
}
