/** Replay safety of a whole tunnel: the ring replaces its sessions while packets
    for old and new ones arrive in any order, and still no counter of a session
    is accepted twice. */
module TunnelReplay {
  import opened Common
  import opened Crypto
  import opened Noise
  import opened Sessions
  import opened Tunnel
  import opened TunnelInvariants
  import opened TunnelRuns
  import opened Loss
  import opened Wire
  import HR = HandshakeRuns

  /** An accepted data packet: its slot, which of the sessions ever held there,
      and its counter. */
  datatype Acceptance = Acceptance(slot: nat, epoch: nat, counter: u64)

  datatype Record = Record(epochs: SlotTimes, log: seq<Acceptance>)

  /** A slot that is filled begins a new epoch. */
  function Refilled(r: Record, fill: Option<nat>): Record
    requires fill.Some? ==> fill.value < N_SESSIONS
  {
    if fill.Some? then r.(epochs := r.epochs[fill.value := r.epochs[fill.value] + 1]) else r
  }

  function Note(c: Suite, r: Record, t: Tunn, m: Moment): Record {
    if Accepting(c, t, m.op).Some? then
      var i := m.op.packet.receiverIdx % N_SESSIONS;
      r.(log := r.log + [Acceptance(i, r.epochs[i], m.op.packet.counter)])
    else Refilled(r, Filled(c, t, m.op, m.env))
  }

  function Records(c: Suite, t0: Tunn, ms: seq<Moment>): Record {
    if ms == [] then Record([0, 0, 0, 0, 0, 0, 0, 0], [])
    else Note(c, Records(c, t0, ms[..|ms| - 1]), Run(c, t0, ms[..|ms| - 1]), ms[|ms| - 1])
  }

  /** What the record says of the session in slot `i`. */
  ghost predicate SlotRecorded(r: Record, t: Tunn, i: nat)
    requires i < N_SESSIONS
  {
    t.sessions[i].Some? ==>
      forall k: u64 :: k in t.sessions[i].value.window.accepted <==> Acceptance(i, r.epochs[i], k) in r.log
  }

  ghost predicate LogSound(r: Record) {
    && NoDuplicates(r.log)
    && forall a :: a in r.log ==> a.slot < N_SESSIONS && a.epoch <= r.epochs[a.slot]
  }

  ghost predicate Recorded(r: Record, t: Tunn) {
    LogSound(r) && forall i :: 0 <= i < N_SESSIONS ==> SlotRecorded(r, t, i)
  }

  /** A new session starts a new epoch with nothing accepted. */
  lemma FillKeeps(r: Record, t: Tunn, t': Tunn, i: nat)
    requires Recorded(r, t) && i < N_SESSIONS
    requires t'.sessions[i].Some? ==> t'.sessions[i].value.window.accepted == {}
    requires forall j :: 0 <= j < N_SESSIONS && j != i ==> t'.sessions[j] == t.sessions[j]
    ensures Recorded(r.(epochs := r.epochs[i := r.epochs[i] + 1]), t')
  {
    var r' := r.(epochs := r.epochs[i := r.epochs[i] + 1]);
    forall j | 0 <= j < N_SESSIONS ensures SlotRecorded(r', t', j) {
      assert SlotRecorded(r, t, j);
    }
  }

  /** Accepting adds the one counter to the session and to the record. */
  lemma AcceptKeeps(r: Record, t: Tunn, t': Tunn, i: nat, counter: u64)
    requires Recorded(r, t) && i < N_SESSIONS && t.sessions[i].Some? && t'.sessions[i].Some?
    requires counter !in t.sessions[i].value.window.accepted
    requires t'.sessions[i].value.window.accepted == t.sessions[i].value.window.accepted + {counter}
    requires forall j :: 0 <= j < N_SESSIONS && j != i ==> t'.sessions[j] == t.sessions[j]
    ensures Recorded(r.(log := r.log + [Acceptance(i, r.epochs[i], counter)]), t')
  {
    var a := Acceptance(i, r.epochs[i], counter);
    var r' := r.(log := r.log + [a]);
    assert SlotRecorded(r, t, i);
    assert a !in r.log;
    forall j | 0 <= j < N_SESSIONS ensures SlotRecorded(r', t', j) {
      assert SlotRecorded(r, t, j);
    }
  }

  lemma SameCountsKeep(r: Record, t: Tunn, t': Tunn)
    requires Recorded(r, t) && SameCounts(t, t')
    ensures Recorded(r, t')
  {
    forall j | 0 <= j < N_SESSIONS ensures SlotRecorded(r, t', j) {
      assert SlotRecorded(r, t, j);
    }
  }

  // ---------------------------------------------------------------- each call

  /** The ring either stays or gets a new session in one slot. */
  ghost predicate RingChange(t: Tunn, t': Tunn, fill: Option<nat>) {
    match fill
    case None => t'.sessions == t.sessions
    case Some(i) =>
      && i < N_SESSIONS && t'.sessions[i].Some? && t'.sessions[i].value.window.accepted == {}
      && forall j :: 0 <= j < N_SESSIONS && j != i ==> t'.sessions[j] == t.sessions[j]
  }

  lemma RingChangeKeeps(r: Record, t: Tunn, t': Tunn, fill: Option<nat>)
    requires Recorded(r, t) && RingChange(t, t', fill)
    ensures Recorded(Refilled(r, fill), t')
  {
    if fill.Some? {
      FillKeeps(r, t, t', fill.value);
    } else {
      SameCountsKeep(r, t, t');
    }
  }

  lemma AnswerChange(c: Suite, t: Tunn, m: Packet, e: Env)
    requires m.HandshakeInit? && e.dstLen >= HANDSHAKE_INIT_SZ
    ensures RingChange(t, HandleHandshakeInit(c, t, m, e).0, Filled(c, t, Handle(m), e))
  {
    AnswerShape(c, t.handshake, m, e);
    var (h, r) := ReceiveHandshakeInitialization(c, t.handshake, m, e.eph, e.dstLen);
    AnswerRing(t, h, r);
  }

  lemma AnswerRing(t: Tunn, h: Handshake, r: Result<(Bytes, Session)>)
    requires r.Ok? ==> r.value.1.receivingIndex == h.nextIndex && r.value.1.window.accepted == {}
    ensures var (t', result) := AfterAnswer(t, h, r);
            && (result.WriteToNetwork? <==> r.Ok?) && t'.handshake == h
            && RingChange(t, t', if r.Ok? then Some(h.nextIndex % N_SESSIONS) else None)
  {
  }

  lemma ResponseChange(c: Suite, t: Tunn, m: Packet, e: Env)
    requires m.HandshakeResponse? && HR.Inv(t.handshake)
    ensures RingChange(t, HandleHandshakeResponse(c, t, m, e).0, Filled(c, t, Handle(m), e))
  {
    ResponseShape(c, t.handshake, m, e.now);
    var (h, r) := ReceiveHandshakeResponse(c, t.handshake, m, e.now);
    if r.Ok? {
      ResponseIndex(c, t.handshake, m, e.now);
      ResponseRing(c, t, h, r);
    }
  }

  lemma ResponseRing(c: Suite, t: Tunn, h: Handshake, r: Result<Session>)
    requires r.Ok?
    ensures var t' := AfterResponse(c, t, h, r).0;
            t'.sessions == t.sessions[r.value.receivingIndex % N_SESSIONS := Some(FormatPacketData(c, r.value, []).0)]
  {
  }

  lemma DataChange(c: Suite, t: Tunn, m: Packet)
    requires m.PacketData? && AcceptsBelowLast(c, t, Handle(m)) && AllCounted(t)
    ensures var t' := HandleData(c, t, m).0;
            var i := m.receiverIdx % N_SESSIONS;
            if Accepting(c, t, Handle(m)).Some? then
              && t.sessions[i].Some? && t'.sessions[i].Some?
              && m.counter !in t.sessions[i].value.window.accepted
              && t'.sessions[i].value.window.accepted == t.sessions[i].value.window.accepted + {m.counter}
              && forall j :: 0 <= j < N_SESSIONS && j != i ==> t'.sessions[j] == t.sessions[j]
            else t'.sessions == t.sessions
  {
  }

  lemma AnswerKeeps(c: Suite, r: Record, t: Tunn, m: Packet, e: Env)
    requires Recorded(r, t) && m.HandshakeInit? && e.dstLen >= HANDSHAKE_INIT_SZ
    ensures Recorded(Note(c, r, t, Moment(Handle(m), e)), HandleHandshakeInit(c, t, m, e).0)
  {
    AnswerChange(c, t, m, e);
    RingChangeKeeps(r, t, HandleHandshakeInit(c, t, m, e).0, Filled(c, t, Handle(m), e));
  }

  lemma ResponseKeeps(c: Suite, r: Record, t: Tunn, m: Packet, e: Env)
    requires Recorded(r, t) && m.HandshakeResponse? && HR.Inv(t.handshake)
    ensures Recorded(Note(c, r, t, Moment(Handle(m), e)), HandleHandshakeResponse(c, t, m, e).0)
  {
    ResponseChange(c, t, m, e);
    RingChangeKeeps(r, t, HandleHandshakeResponse(c, t, m, e).0, Filled(c, t, Handle(m), e));
  }

  lemma DataKeeps(c: Suite, r: Record, t: Tunn, m: Packet, e: Env)
    requires Recorded(r, t) && AllCounted(t) && m.PacketData? && AcceptsBelowLast(c, t, Handle(m))
    ensures Recorded(Note(c, r, t, Moment(Handle(m), e)), HandleData(c, t, m).0)
  {
    DataChange(c, t, m);
    var t' := HandleData(c, t, m).0;
    if Accepting(c, t, Handle(m)).Some? {
      AcceptKeeps(r, t, t', m.receiverIdx % N_SESSIONS, m.counter);
    } else {
      SameCountsKeep(r, t, t');
    }
  }

  lemma HandleKeeps(c: Suite, r: Record, t: Tunn, m: Packet, e: Env)
    requires Recorded(r, t) && AllCounted(t) && HR.Inv(t.handshake) && e.dstLen >= HANDSHAKE_INIT_SZ
    requires AcceptsBelowLast(c, t, Handle(m))
    ensures Recorded(Note(c, r, t, Moment(Handle(m), e)), HandleVerifiedPacket(c, t, m, e).0)
  {
    match m
    case HandshakeInit(_, _, _, _) => AnswerKeeps(c, r, t, m, e);
    case HandshakeResponse(_, _, _, _) => ResponseKeeps(c, r, t, m, e);
    case PacketCookieReply(_, _, _) => SameCountsKeep(r, t, HandleCookieReply(c, t, m).0);
    case PacketData(_, _, _) => DataKeeps(c, r, t, m, e);
  }

  lemma CallKeepsRecord(c: Suite, r: Record, t: Tunn, m: Moment)
    requires Recorded(r, t) && AllCounted(t) && HR.Inv(t.handshake) && m.env.dstLen >= HANDSHAKE_INIT_SZ
    requires AcceptsBelowLast(c, t, m.op)
    ensures Recorded(Note(c, r, t, m), Call(c, t, m.op, m.env).0)
  {
    if m.op.Handle? {
      HandleKeeps(c, r, t, m.op.packet, m.env);
    } else {
      OtherCallsCount(c, t, m.op, m.env);
      SameCountsKeep(r, t, Call(c, t, m.op, m.env).0);
    }
  }

  lemma OtherCallsCount(c: Suite, t: Tunn, op: Op, e: Env)
    requires !op.Handle?
    ensures SameCounts(t, Call(c, t, op, e).0)
  {
    match op
    case Send(src) => EncapsulateCounts(c, t, src, e);
    case Flush => if t.queue != [] { EncapsulateCounts(c, t.(queue := t.queue[1..]), t.queue[0], e); }
    case Update => UpdateCounts(c, t, e);
    case StartHandshake(force) => FormatInitiationCounts(c, t, e, force);
    case NewKey(_, _) =>
  }

  lemma {:induction false} RunKeepsRecord(c: Suite, t0: Tunn, ms: seq<Moment>)
    requires New(c, t0) && Orderly(ms) && LastNeverAccepted(c, t0, ms)
    ensures Recorded(Records(c, t0, ms), Run(c, t0, ms))
  {
    if ms != [] {
      var before, m := ms[..|ms| - 1], ms[|ms| - 1];
      LastCallFinds(c, t0, ms);
      NeverAcceptedBefore(c, t0, ms);
      RunCounts(c, t0, before);
      RunKeepsRecord(c, t0, before);
      CallKeepsRecord(c, Records(c, t0, before), Run(c, t0, before), m);
    }
  }

  /** Replay safety of the tunnel: over every run, no session that the ring ever
      held accepts a counter twice, unless one accepts the last counter. */
  lemma TunnelReplaySafety(c: Suite, t0: Tunn, ms: seq<Moment>)
    requires New(c, t0) && Orderly(ms) && LastNeverAccepted(c, t0, ms)
    ensures NoDuplicates(Records(c, t0, ms).log)
  {
    RunKeepsRecord(c, t0, ms);
  }

  /** Every packet handed to the interface is one of the accepted ones. */
  lemma DeliveryIsAccepted(c: Suite, t: Tunn, m: Packet, e: Env)
    ensures HandleVerifiedPacket(c, t, m, e).1.WriteToTunnel? ==> Accepting(c, t, Handle(m)).Some?
  {
    match m
    case HandshakeInit(_, _, _, _) =>
      var (h, r) := ReceiveHandshakeInitialization(c, t.handshake, m, e.eph, e.dstLen);
      assert !AfterAnswer(t, h, r).1.WriteToTunnel?;
    case HandshakeResponse(_, _, _, _) =>
      var (h, r) := ReceiveHandshakeResponse(c, t.handshake, m, e.now);
      assert !AfterResponse(c, t, h, r).1.WriteToTunnel?;
    case PacketCookieReply(_, _, _) =>
    case PacketData(_, _, _) =>
  }
}
