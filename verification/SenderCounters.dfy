/** Sending counters of a whole tunnel: however the ring replaces its sessions, no
    session ever seals two packets under one counter. */
module SenderCounters {
  import opened Common
  import opened Crypto
  import opened Noise
  import opened Sessions
  import opened Tunnel
  import opened TunnelInvariants
  import opened TunnelRuns
  import opened Keepalives
  import opened Emissions
  import opened TunnelReplay
  import opened Wire
  import HR = HandshakeRuns

  /** A sealed packet: its slot, which of the sessions ever held there, and its
      counter. */
  datatype Seal = Seal(slot: nat, epoch: nat, counter: u64)

  /** The slot whose session a call seals with. */
  function SealSlot(t: Tunn, op: Op): nat {
    if op.Handle? && op.packet.HandshakeResponse? then op.packet.receiverIdx % N_SESSIONS else t.current % N_SESSIONS
  }

  /** Everything sealed in a run. */
  function Seals(c: Suite, t0: Tunn, ms: seq<Moment>): seq<Seal> {
    if ms == [] then []
    else
      var t, m := Run(c, t0, ms[..|ms| - 1]), ms[|ms| - 1];
      Sealed(Seals(c, t0, ms[..|ms| - 1]), Records(c, t0, ms).epochs, SealSlot(t, m.op), SealedBy(c, t, m))
  }

  function Sealed(log: seq<Seal>, epochs: SlotTimes, slot: nat, x: Option<Sealing>): seq<Seal> {
    if x.Some? && slot < N_SESSIONS then log + [Seal(slot, epochs[slot], x.value.counter)] else log
  }

  ghost predicate SlotBelow(log: seq<Seal>, epochs: SlotTimes, t: Tunn, i: nat)
    requires i < N_SESSIONS
  {
    t.sessions[i].Some? ==>
      forall a :: a in log && a.slot == i && a.epoch == epochs[i] ==> a.counter < t.sessions[i].value.sendingKeyCounter
  }

  /** `n` calls were made. */
  ghost predicate SealInv(log: seq<Seal>, epochs: SlotTimes, t: Tunn, n: nat) {
    && NoDuplicates(log)
    && (forall a :: a in log ==> a.slot < N_SESSIONS && a.epoch <= epochs[a.slot])
    && (forall i :: 0 <= i < N_SESSIONS ==> SlotBelow(log, epochs, t, i))
    && (forall i :: 0 <= i < N_SESSIONS && t.sessions[i].Some? ==> t.sessions[i].value.sendingKeyCounter <= n)
  }

  /** What a call that seals `x` with `slot` and fills `fill` does to the counter of
      slot `i`. */
  ghost predicate CounterStep(t: Tunn, t': Tunn, slot: nat, x: Option<Sealing>, fill: Option<nat>, i: nat)
    requires i < N_SESSIONS
  {
    t'.sessions[i].Some? ==>
      var sealing := x.Some? && slot == i;
      if fill == Some(i) then
        t'.sessions[i].value.sendingKeyCounter == if sealing then 1 else 0
      else
        && t.sessions[i].Some?
        && t'.sessions[i].value.sendingKeyCounter ==
           if sealing then (t.sessions[i].value.sendingKeyCounter + 1) % U64 else t.sessions[i].value.sendingKeyCounter
  }

  ghost predicate SenderStep(t: Tunn, t': Tunn, slot: nat, x: Option<Sealing>, fill: Option<nat>) {
    && slot < N_SESSIONS
    && (fill.Some? ==> fill.value < N_SESSIONS)
    && (x.Some? ==>
          if fill == Some(slot) then x.value.counter == 0
          else t.sessions[slot].Some? && x.value.counter == t.sessions[slot].value.sendingKeyCounter)
    && forall i :: 0 <= i < N_SESSIONS ==> CounterStep(t, t', slot, x, fill, i)
  }

  lemma StepKeepsSlot(log: seq<Seal>, epochs: SlotTimes, t: Tunn, t': Tunn, n: nat, slot: nat, x: Option<Sealing>,
                      fill: Option<nat>, i: nat)
    requires SealInv(log, epochs, t, n) && SenderStep(t, t', slot, x, fill) && n + 1 < U64 && i < N_SESSIONS
    ensures var epochs' := Refilled(Record(epochs, []), fill).epochs;
            && SlotBelow(Sealed(log, epochs', slot, x), epochs', t', i)
            && (t'.sessions[i].Some? ==> t'.sessions[i].value.sendingKeyCounter <= n + 1)
  {
    assert CounterStep(t, t', slot, x, fill, i) && SlotBelow(log, epochs, t, i);
  }

  lemma StepKeepsInv(log: seq<Seal>, epochs: SlotTimes, t: Tunn, t': Tunn, n: nat, slot: nat, x: Option<Sealing>,
                     fill: Option<nat>)
    requires SealInv(log, epochs, t, n) && SenderStep(t, t', slot, x, fill) && n + 1 < U64
    ensures var epochs' := Refilled(Record(epochs, []), fill).epochs;
            SealInv(Sealed(log, epochs', slot, x), epochs', t', n + 1)
    ensures x.Some? ==> x.value.counter <= n
  {
    var epochs' := Refilled(Record(epochs, []), fill).epochs;
    forall i | 0 <= i < N_SESSIONS
      ensures SlotBelow(Sealed(log, epochs', slot, x), epochs', t', i)
      ensures t'.sessions[i].Some? ==> t'.sessions[i].value.sendingKeyCounter <= n + 1
    {
      StepKeepsSlot(log, epochs, t, t', n, slot, x, fill, i);
    }
    if x.Some? {
      assert SlotBelow(log, epochs, t, slot);
      assert Seal(slot, epochs'[slot], x.value.counter) !in log;
    }
  }

  // ---------------------------------------------------------------- each call

  /** The sessions left have the counters they had. */
  predicate SameSenders(t: Tunn, t': Tunn) {
    forall i :: 0 <= i < N_SESSIONS && t'.sessions[i].Some? ==>
      t.sessions[i].Some? && t'.sessions[i].value.sendingKeyCounter == t.sessions[i].value.sendingKeyCounter
  }

  lemma QuietStep(t: Tunn, t': Tunn, slot: nat)
    requires SameSenders(t, t') && slot < N_SESSIONS
    ensures SenderStep(t, t', slot, None, None)
  {
    forall i | 0 <= i < N_SESSIONS ensures CounterStep(t, t', slot, None, None, i) {
    }
  }

  lemma FormatInitiationSenders(c: Suite, t: Tunn, e: Env, force: bool)
    ensures FormatInitiation(c, t, e, force).0.sessions == t.sessions
            && FormatInitiation(c, t, e, force).0.current == t.current
  {
  }

  lemma EncapsulateSenders(c: Suite, t: Tunn, src: Bytes, e: Env)
    ensures SenderStep(t, Encapsulate(c, t, src, e).0, t.current % N_SESSIONS, OnCurrent(t, src), None)
  {
    var t' := Encapsulate(c, t, src, e).0;
    FormatInitiationSenders(c, t.(queue := Enqueue(t.queue, src)), e, false);
    forall i | 0 <= i < N_SESSIONS ensures CounterStep(t, t', t.current % N_SESSIONS, OnCurrent(t, src), None, i) {
    }
  }

  /** Dropping sessions first changes nothing for the rest. */
  lemma AfterDropping(t: Tunn, t1: Tunn, t': Tunn, slot: nat, x: Option<Sealing>)
    requires SenderStep(t1, t', slot, x, None)
    requires forall i :: 0 <= i < N_SESSIONS && t1.sessions[i].Some? ==> t1.sessions[i] == t.sessions[i]
    ensures SenderStep(t, t', slot, x, None)
  {
    forall i | 0 <= i < N_SESSIONS ensures CounterStep(t, t', slot, x, None, i) {
      assert CounterStep(t1, t', slot, x, None, i);
    }
  }

  lemma DecidingKeepsSessions(t: Tunn, now: nat, i: nat)
    requires i < N_SESSIONS
    ensures var t1 := Deciding(t, now);
            t1.current == t.current && (t1.sessions[i].Some? ==> t1.sessions[i] == t.sessions[i])
  {
    SweepByAge(t, now, i);
  }

  lemma UpdateSenders(c: Suite, t: Tunn, e: Env)
    ensures SenderStep(t, UpdateTimers(c, t, e).0, t.current % N_SESSIONS, SealedBy(c, t, Moment(Update, e)), None)
  {
    forall i | 0 <= i < N_SESSIONS
      ensures Deciding(t, e.now).sessions[i].Some? ==> Deciding(t, e.now).sessions[i] == t.sessions[i]
    {
      DecidingKeepsSessions(t, e.now, i);
    }
    DecidingKeepsSessions(t, e.now, 0);
    if DecidesKeepalive(t, e.now) {
      KeepaliveIsEmptySend(c, t, e);
      EncapsulateSenders(c, Sending(t, e.now), [], e);
      AfterDropping(t, Sending(t, e.now), UpdateTimers(c, t, e).0, t.current % N_SESSIONS,
                    OnCurrent(Sending(t, e.now), []));
    } else {
      QuietUpdateSenders(c, t, e);
      QuietStep(t, UpdateTimers(c, t, e).0, t.current % N_SESSIONS);
    }
  }

  lemma InFlightSenders(c: Suite, t: Tunn, e: Env, sent: nat)
    ensures SameSenders(t, UpdateInFlight(c, t, e, sent).0)
  {
    FormatInitiationSenders(c, t, e, true);
  }

  lemma StartSenders(c: Suite, t: Tunn, e: Env)
    requires StartDue(t.timers, e.now) || !KeepaliveDue(t.timers, e.now)
    ensures SameSenders(t, UpdateWhenIdle(c, t, e).0)
  {
    FormatInitiationSenders(c, t.(timers := HeardTimers(t.timers, e.now)), e, true);
  }

  lemma QuietUpdateSenders(c: Suite, t: Tunn, e: Env)
    requires !DecidesKeepalive(t, e.now)
    requires forall i :: 0 <= i < N_SESSIONS && Deciding(t, e.now).sessions[i].Some? ==>
               Deciding(t, e.now).sessions[i] == t.sessions[i]
    ensures SameSenders(t, UpdateTimers(c, t, e).0)
  {
    var t2 := Deciding(t, e.now);
    if t2.handshake.Timer().Some? {
      InFlightSenders(c, t2, e, t2.handshake.Timer().value);
    } else if DecidesIdle(t, e.now) {
      StartSenders(c, t2, e);
    }
  }

  lemma AnswerSenders(c: Suite, t: Tunn, m: Packet, e: Env)
    requires m.HandshakeInit? && e.dstLen >= HANDSHAKE_INIT_SZ
    ensures SenderStep(t, HandleHandshakeInit(c, t, m, e).0, t.current % N_SESSIONS, None, Filled(c, t, Handle(m), e))
  {
    AnswerShape(c, t.handshake, m, e);
    var (h, r) := ReceiveHandshakeInitialization(c, t.handshake, m, e.eph, e.dstLen);
    AnsweredSenders(t, h, r);
  }

  lemma AnsweredSenders(t: Tunn, h: Handshake, r: Result<(Bytes, Session)>)
    requires r.Ok? ==> r.value.1.receivingIndex == h.nextIndex && r.value.1.sendingKeyCounter == 0
    ensures var (t', result) := AfterAnswer(t, h, r);
            && (result.WriteToNetwork? <==> r.Ok?) && t'.handshake == h
            && SenderStep(t, t', t.current % N_SESSIONS, None, if r.Ok? then Some(h.nextIndex % N_SESSIONS) else None)
  {
    var fill: Option<nat> := if r.Ok? then Some(h.nextIndex % N_SESSIONS) else None;
    forall i | 0 <= i < N_SESSIONS
      ensures CounterStep(t, AfterAnswer(t, h, r).0, t.current % N_SESSIONS, None, fill, i)
    {
    }
  }

  lemma ResponseSenders(c: Suite, t: Tunn, m: Packet, e: Env)
    requires m.HandshakeResponse? && HR.Inv(t.handshake)
    ensures SenderStep(t, HandleHandshakeResponse(c, t, m, e).0, m.receiverIdx % N_SESSIONS,
                       SealedBy(c, t, Moment(Handle(m), e)), Filled(c, t, Handle(m), e))
  {
    ResponseShape(c, t.handshake, m, e.now);
    var (h, r) := ReceiveHandshakeResponse(c, t.handshake, m, e.now);
    if r.Ok? {
      ResponseIndex(c, t.handshake, m, e.now);
      CompletedSenders(c, t, h, r);
    } else {
      QuietStep(t, AfterResponse(c, t, h, r).0, m.receiverIdx % N_SESSIONS);
    }
  }

  lemma CompletedSenders(c: Suite, t: Tunn, h: Handshake, r: Result<Session>)
    requires r.Ok? && r.value.sendingKeyCounter == 0
    ensures var slot := r.value.receivingIndex % N_SESSIONS;
            var (t', result) := AfterResponse(c, t, h, r);
            result.WriteToNetwork? && SenderStep(t, t', slot, Some(SealWith(r.value, [])), Some(slot))
  {
    var slot := r.value.receivingIndex % N_SESSIONS;
    ResponseRing(c, t, h, r);
    forall i | 0 <= i < N_SESSIONS
      ensures CounterStep(t, AfterResponse(c, t, h, r).0, slot, Some(SealWith(r.value, [])), Some(slot), i)
    {
    }
  }

  lemma DataSenders(c: Suite, t: Tunn, m: Packet)
    requires m.PacketData?
    ensures SameSenders(t, HandleData(c, t, m).0)
  {
  }

  lemma HandleSenders(c: Suite, t: Tunn, m: Packet, e: Env)
    requires HR.Inv(t.handshake) && e.dstLen >= HANDSHAKE_INIT_SZ
    ensures SenderStep(t, HandleVerifiedPacket(c, t, m, e).0, SealSlot(t, Handle(m)),
                       SealedBy(c, t, Moment(Handle(m), e)), Filled(c, t, Handle(m), e))
  {
    match m
    case HandshakeInit(_, _, _, _) => AnswerSenders(c, t, m, e);
    case HandshakeResponse(_, _, _, _) => ResponseSenders(c, t, m, e);
    case PacketCookieReply(_, _, _) => QuietStep(t, HandleCookieReply(c, t, m).0, t.current % N_SESSIONS);
    case PacketData(_, _, _) =>
      DataSenders(c, t, m);
      QuietStep(t, HandleData(c, t, m).0, t.current % N_SESSIONS);
  }

  lemma CallSenders(c: Suite, t: Tunn, m: Moment)
    requires HR.Inv(t.handshake) && m.env.dstLen >= HANDSHAKE_INIT_SZ
    ensures SenderStep(t, Call(c, t, m.op, m.env).0, SealSlot(t, m.op), SealedBy(c, t, m), Filled(c, t, m.op, m.env))
  {
    var slot := t.current % N_SESSIONS;
    match m.op
    case Send(src) => EncapsulateSenders(c, t, src, m.env);
    case Flush =>
      if t.queue != [] {
        EncapsulateSenders(c, t.(queue := t.queue[1..]), t.queue[0], m.env);
        AfterDropping(t, t.(queue := t.queue[1..]), SendQueuedPacket(c, t, m.env).0, slot, OnCurrent(t, t.queue[0]));
      } else {
        QuietStep(t, t, slot);
      }
    case Update => UpdateSenders(c, t, m.env);
    case StartHandshake(force) =>
      FormatInitiationSenders(c, t, m.env, force);
      QuietStep(t, FormatInitiation(c, t, m.env, force).0, slot);
    case NewKey(priv, own) => QuietStep(t, SetKey(c, t, priv, own), slot);
    case Handle(p) => HandleSenders(c, t, p, m.env);
  }

  // ---------------------------------------------------------------- runs

  lemma DataFillsNothing(c: Suite, t: Tunn, op: Op, e: Env)
    requires op.Handle? && op.packet.PacketData?
    ensures Filled(c, t, op, e) == None
  {
  }

  lemma NoteEpochs(c: Suite, r: Record, t: Tunn, m: Moment)
    ensures Note(c, r, t, m).epochs == Refilled(Record(r.epochs, []), Filled(c, t, m.op, m.env)).epochs
  {
    var fill := Filled(c, t, m.op, m.env);
    if Accepting(c, t, m.op).Some? {
      DataFillsNothing(c, t, m.op, m.env);
    } else {
      RefilledEpochs(r, fill);
    }
  }

  lemma RefilledEpochs(r: Record, fill: Option<nat>)
    requires fill.Some? ==> fill.value < N_SESSIONS
    ensures Refilled(r, fill).epochs == Refilled(Record(r.epochs, []), fill).epochs
  {
  }

  lemma {:induction false} RunKeepsSeals(c: Suite, t0: Tunn, ms: seq<Moment>)
    requires New(c, t0) && Orderly(ms) && |ms| < U64
    ensures SealInv(Seals(c, t0, ms), Records(c, t0, ms).epochs, Run(c, t0, ms), |ms|)
    ensures ms != [] ==> SealedLow(c, Run(c, t0, ms[..|ms| - 1]), ms[|ms| - 1], |ms| - 1)
  {
    if ms != [] {
      var before, m := ms[..|ms| - 1], ms[|ms| - 1];
      var t := Run(c, t0, before);
      LastCallFinds(c, t0, ms);
      RunKeepsSeals(c, t0, before);
      CallSenders(c, t, m);
      NoteEpochs(c, Records(c, t0, before), t, m);
      StepKeepsInv(Seals(c, t0, before), Records(c, t0, before).epochs, t, Run(c, t0, ms), |before|,
                   SealSlot(t, m.op), SealedBy(c, t, m), Filled(c, t, m.op, m.env));
    }
  }

  /** After `n` calls a call seals under a counter of at most `n`. */
  predicate SealedLow(c: Suite, t: Tunn, m: Moment, n: nat) {
    SealedBy(c, t, m).Some? ==> SealedBy(c, t, m).value.counter <= n
  }

  /** Over every run of fewer than 2^64 calls no session that the ring ever held
      seals two packets under one counter, the keepalive that answers a handshake
      response included. */
  lemma SendingCountersDistinct(c: Suite, t0: Tunn, ms: seq<Moment>)
    requires New(c, t0) && Orderly(ms) && |ms| < U64
    ensures NoDuplicates(Seals(c, t0, ms))
  {
    RunKeepsSeals(c, t0, ms);
  }
}
