/** From a queued packet to its delivery: two tunnels configured for each other, a
    handshake started by the first packet, the queue flushed, the packets read on
    the other side. */
module Delivery {
  import opened Common
  import opened Crypto
  import opened Noise
  import opened Replay
  import opened Sessions
  import opened Timestamps
  import opened IpPackets
  import opened Tunnel
  import opened Emissions
  import opened Wire
  import Flush
  import KA = KeyAgreement

  /** A packet for which there is no session is queued and starts a handshake. */
  lemma SendStarts(c: Suite, a: Tunn, p: Bytes, e: Env)
    requires c.Lawful() && e.dstLen >= HANDSHAKE_INIT_SZ
    requires a.CurrentSession().None? && !a.handshake.IsInProgress()
    ensures var (a1, r) := Encapsulate(c, a, p, e);
            var (s, m) := MakeInitiation(c, a.handshake.params, IncIndex(a.handshake.nextIndex), e.eph, e.stamp, e.now);
            && r.WriteToNetwork? && ParseIncomingPacket(r.datagram) == Ok(m)
            && a1.handshake.state == InitSent(s) && a1.handshake.params == a.handshake.params
            && a1.CurrentSession().None? && a1.queue == Enqueue(a.queue, p)
  {
    KA.InitiationOnTheWire(c, a.handshake, e.eph, e.stamp, e.now, e.dstLen);
    var (h, r) := FormatHandshakeInitiation(c, a.handshake, e.eph, e.stamp, e.now, e.dstLen);
    StartedTunnel(a.(queue := Enqueue(a.queue, p)), h, r, e.now);
  }

  lemma StartedTunnel(t: Tunn, h: Handshake, r: Result<Bytes>, now: nat)
    requires r.Ok?
    ensures var (t1, result) := AfterInitiation(t, h, r, now);
            && result == WriteToNetwork(r.value) && t1.handshake == h && t1.queue == t.queue
            && t1.sessions == t.sessions && t1.current == t.current
  {
  }

  /** The other side answers an initiation newer than any it accepted, and holds
      the session. */
  lemma InitiationIsAnswered(c: Suite, i: Params, b: Tunn, localIndex: u32, eph: Key, stamp: Stamp, now: nat, e: Env)
    requires c.Lawful() && KA.Paired(c, i, b.handshake.params) && e.dstLen >= HANDSHAKE_INIT_SZ
    requires Parse(stamp).After(b.handshake.lastTimestamp)
    ensures var (s, m) := MakeInitiation(c, i, localIndex, eph, stamp, now);
            var (b1, r) := HandleHandshakeInit(c, b, m, e);
            var index := IncIndex(b.handshake.nextIndex);
            var (m2, sr) := MakeResponse(c, b.handshake.params,
                                         Received(s.hash, s.chainingKey, c.pub(eph), localIndex), index, e.eph);
            && r.WriteToNetwork? && ParseIncomingPacket(r.datagram) == Ok(m2)
            && b1.sessions[index % N_SESSIONS] == Some(sr)
  {
    var (s, m) := MakeInitiation(c, i, localIndex, eph, stamp, now);
    KA.ResponderReadsInitiation(c, i, b.handshake.params, localIndex, eph, stamp, now);
    AcceptedIsAnswered(c, b.handshake, m, e);
    var (h, r) := ReceiveHandshakeInitialization(c, b.handshake, m, e.eph, e.dstLen);
    KA.ResponseOnTheWire(c, b.handshake, m, e.eph, e.dstLen);
    AnsweredTunnel(b, h, r);
  }

  lemma AcceptedIsAnswered(c: Suite, h: Handshake, m: Packet, e: Env)
    requires m.HandshakeInit? && e.dstLen >= HANDSHAKE_INIT_SZ
    requires OpenInitiation(c, h.params, m).Ok? && OpenInitiation(c, h.params, m).value.1.After(h.lastTimestamp)
    ensures var r := ReceiveHandshakeInitialization(c, h, m, e.eph, e.dstLen).1;
            r.Ok? && r.value.1.receivingIndex == IncIndex(h.nextIndex)
  {
  }

  lemma AnsweredTunnel(t: Tunn, h: Handshake, r: Result<(Bytes, Session)>)
    requires r.Ok?
    ensures var (t1, result) := AfterAnswer(t, h, r);
            && result == WriteToNetwork(r.value.0)
            && t1.sessions[r.value.1.receivingIndex % N_SESSIONS] == Some(r.value.1)
  {
  }

  /** Reading the answer makes the crossing session the one to send on; its first
      counter goes to a keepalive. */
  lemma AnswerMakesCurrent(c: Suite, a: Tunn, r: Params, s: InitSentState, index: u32, eph: Key, e: Env)
    requires c.Lawful() && KA.Paired(c, a.handshake.params, r)
    requires a.handshake.state == InitSent(s) && a.CurrentSession().None?
    ensures var (m, sr) := MakeResponse(c, r,
                                        Received(s.hash, s.chainingKey, c.pub(s.ephemeralPrivate), s.localIndex),
                                        index, eph);
            var (a1, keepalive) := HandleHandshakeResponse(c, a, m, e);
            && a1.queue == a.queue
            && a1.CurrentSession().Some? && a1.CurrentSession().value.sendingKeyCounter == 1
            && Crossed(a1.CurrentSession().value, sr)
            && Carries(c, keepalive, a1.CurrentSession().value, 0, [])
  {
    var (m, sr) := MakeResponse(c, r, Received(s.hash, s.chainingKey, c.pub(s.ephemeralPrivate), s.localIndex),
                                index, eph);
    KA.InitiatorReadsResponse(c, a.handshake.params, r, s, index, eph);
    OpenedIsRead(c, a.handshake, s, m, e.now);
    var (h, session) := ReceiveHandshakeResponse(c, a.handshake, m, e.now);
    CompletedTunnel(c, a, h, session);
    DataReadsBack(c, session.value, []);
  }

  /** The datagram reads as packet number `k` of the session, holding `p`. */
  predicate Carries(c: Suite, r: TunnResult, tx: Session, k: u64, p: Bytes) {
    DataOf(r) == Some(DataPacket(c, tx, k, p))
  }

  lemma OpenedIsRead(c: Suite, h: Handshake, s: InitSentState, m: Packet, now: nat)
    requires m.HandshakeResponse? && h.state == InitSent(s) && m.receiverIdx == s.localIndex
    requires OpenResponse(c, h.params, s, m).Ok?
    ensures var session := ReceiveHandshakeResponse(c, h, m, now).1;
            session == OpenResponse(c, h.params, s, m) && session.value.sendingKeyCounter == 0
  {
  }

  lemma CompletedTunnel(c: Suite, t: Tunn, h: Handshake, r: Result<Session>)
    requires r.Ok? && r.value.sendingKeyCounter == 0 && t.CurrentSession().None?
    ensures var t1 := AfterResponse(c, t, h, r).0;
            && t1.queue == t.queue
            && t1.CurrentSession() == Some(r.value.(sendingKeyCounter := 1))
            && AfterResponse(c, t, h, r).1 == WriteToNetwork(FormatPacketData(c, r.value, []).1)
  {
  }

  // ---------------------------------------------------------------- arrivals

  /** `b` holds the counterpart of `tx` and has accepted the packets `seen` on it,
      all numbered below `limit`. */
  ghost predicate Expecting(b: Tunn, tx: Session, seen: set<nat>, limit: nat) {
    && var slot := b.sessions[tx.sendingIndex % N_SESSIONS];
    && slot.Some? && slot.value.receiver == tx.sender && slot.value.receivingIndex == tx.sendingIndex
    && slot.value.window.Valid() && slot.value.window.accepted == seen && slot.value.window.next <= limit
  }

  /** A packet not seen before is accepted, however many others came first. */
  lemma NewNumberOpens(c: Suite, s: Session, tx: Session, k: u64, p: Bytes, limit: nat)
    requires c.Lawful() && s.receiver == tx.sender && s.receivingIndex == tx.sendingIndex
    requires s.window.Valid() && s.window.next <= limit && k !in s.window.accepted && k < limit <= N_BITS
    ensures var (s', r) := ReceivePacketData(c, s, DataPacket(c, tx, k, p));
            && r == Ok(p) && s'.receiver == s.receiver && s'.receivingIndex == s.receivingIndex
            && s'.window.Valid() && s'.window.accepted == s.window.accepted + {k} && s'.window.next <= limit
  {
    assert (k + N_BITS) % U64 == k + N_BITS;
    assert s.window.Kept() == s.window.accepted;
  }

  lemma NewNumberArrives(c: Suite, b: Tunn, tx: Session, k: u64, p: Bytes, e: Env, seen: set<nat>, limit: nat)
    requires c.Lawful() && Expecting(b, tx, seen, limit) && k !in seen && k < limit <= N_BITS
    ensures var (b', r) := HandleVerifiedPacket(c, b, DataPacket(c, tx, k, p), e);
            r == Unwrapped(p) && Expecting(b', tx, seen + {k}, limit)
  {
    NewNumberOpens(c, b.sessions[tx.sendingIndex % N_SESSIONS].value, tx, k, p, limit);
    ReadUnwraps(c, b, DataPacket(c, tx, k, p));
  }

  predicate Within(order: seq<nat>, n: nat) {
    forall j :: 0 <= j < |order| ==> order[j] < n
  }

  /** The numbers that came. */
  function Seen(order: seq<nat>): set<nat> {
    set k | k in order
  }

  /** The receiver after some of the datagrams came through, in some order. */
  function Arrived(c: Suite, b: Tunn, datagrams: seq<TunnResult>, order: seq<nat>, es: seq<Env>): Tunn
    requires |es| == |order| && Within(order, |datagrams|)
  {
    if order == [] then b
    else
      var n := |order| - 1;
      Receive(c, Arrived(c, b, datagrams, order[..n], es[..n]), datagrams[order[n]], es[n]).0
  }

  /** What the last of them led to. */
  function LastArrival(c: Suite, b: Tunn, datagrams: seq<TunnResult>, order: seq<nat>, es: seq<Env>): TunnResult
    requires |es| == |order| > 0 && Within(order, |datagrams|)
  {
    var n := |order| - 1;
    Receive(c, Arrived(c, b, datagrams, order[..n], es[..n]), datagrams[order[n]], es[n]).1
  }

  /** The datagrams are the first packets of the session, holding `texts`. */
  ghost predicate Numbered(c: Suite, tx: Session, datagrams: seq<TunnResult>, texts: seq<Bytes>) {
    |datagrams| == |texts| <= N_BITS && forall k :: 0 <= k < |texts| ==> Carries(c, datagrams[k], tx, k, texts[k])
  }

  lemma ArrivalStep(c: Suite, b: Tunn, tx: Session, r: TunnResult, k: u64, p: Bytes, e: Env, seen: set<nat>, limit: nat)
    requires c.Lawful() && Expecting(b, tx, seen, limit) && k !in seen && k < limit <= N_BITS && Carries(c, r, tx, k, p)
    ensures Receive(c, b, r, e).1 == Unwrapped(p) && Expecting(Receive(c, b, r, e).0, tx, seen + {k}, limit)
  {
    NewNumberArrives(c, b, tx, k, p, e, seen, limit);
  }

  lemma LastSeen(order: seq<nat>)
    requires order != [] && NoDuplicates(order)
    ensures var n := |order| - 1;
            order[n] !in Seen(order[..n]) && Seen(order) == Seen(order[..n]) + {order[n]} && NoDuplicates(order[..n])
  {
    assert order == order[..|order| - 1] + [order[|order| - 1]];
  }

  /** Whatever subset of the datagrams arrives, in whatever order, each is read as
      the packet it holds. */
  lemma {:induction false} AnyOrderArrives(c: Suite, b: Tunn, tx: Session, datagrams: seq<TunnResult>,
                                           texts: seq<Bytes>, order: seq<nat>, es: seq<Env>)
    requires c.Lawful() && Numbered(c, tx, datagrams, texts) && Expecting(b, tx, {}, |texts|)
    requires |es| == |order| && NoDuplicates(order) && Within(order, |datagrams|)
    ensures Expecting(Arrived(c, b, datagrams, order, es), tx, Seen(order), |texts|)
    ensures order != [] ==> LastArrival(c, b, datagrams, order, es) == Unwrapped(texts[order[|order| - 1]])
  {
    if order != [] {
      var n := |order| - 1;
      var k := order[n];
      AnyOrderArrives(c, b, tx, datagrams, texts, order[..n], es[..n]);
      LastSeen(order);
      ArrivalStep(c, Arrived(c, b, datagrams, order[..n], es[..n]), tx, datagrams[k], k, texts[k],
                  es[n], Seen(order[..n]), |texts|);
    }
  }

  // ---------------------------------------------------------------- the exchange

  /** A tunnel reads what another call put on the wire. */
  function Receive(c: Suite, t: Tunn, sent: TunnResult, e: Env): (Tunn, TunnResult) {
    if sent.WriteToNetwork? && ParseIncomingPacket(sent.datagram).Ok? then
      HandleVerifiedPacket(c, t, ParseIncomingPacket(sent.datagram).value, e)
    else (t, Done)
  }

  /** `a` may send on a session one packet old; `b` holds its new counterpart. */
  predicate Connected(a: Tunn, b: Tunn) {
    && a.CurrentSession().Some?
    && var tx := a.CurrentSession().value;
    && var slot := b.sessions[tx.sendingIndex % N_SESSIONS];
    && tx.sendingKeyCounter == 1
    && slot.Some? && Crossed(tx, slot.value) && slot.value.window == EmptyWindow
  }

  /** The second and third message. */
  lemma AnswerConnects(c: Suite, a: Tunn, b: Tunn, s: InitSentState, m: Packet, stamp: Stamp, e2: Env, e3: Env)
    requires c.Lawful() && KA.Paired(c, a.handshake.params, b.handshake.params)
    requires (s, m) == MakeInitiation(c, a.handshake.params, s.localIndex, s.ephemeralPrivate, stamp, s.timeSent)
    requires a.handshake.state == InitSent(s) && a.CurrentSession().None?
    requires Parse(stamp).After(b.handshake.lastTimestamp) && e2.dstLen >= HANDSHAKE_INIT_SZ
    ensures var (b1, r2) := HandleVerifiedPacket(c, b, m, e2);
            var (a1, r3) := Receive(c, a, r2, e3);
            Connected(a1, b1) && a1.queue == a.queue && Carries(c, r3, a1.CurrentSession().value, 0, [])
  {
    var i, r := a.handshake.params, b.handshake.params;
    InitiationIsAnswered(c, i, b, s.localIndex, s.ephemeralPrivate, stamp, s.timeSent, e2);
    var (m2, rx) := MakeResponse(c, r, Received(s.hash, s.chainingKey, c.pub(s.ephemeralPrivate), s.localIndex),
                                 IncIndex(b.handshake.nextIndex), e2.eph);
    AnswerMakesCurrent(c, a, r, s, rx.receivingIndex, e2.eph, e3);
  }

  /** A packet for a peer without a session: three messages later both sides hold
      the session, and the packet waits at the end of the queue. */
  lemma SendConnects(c: Suite, a: Tunn, b: Tunn, p: Bytes, e1: Env, e2: Env, e3: Env)
    requires c.Lawful() && KA.Paired(c, a.handshake.params, b.handshake.params)
    requires a.CurrentSession().None? && !a.handshake.IsInProgress()
    requires Parse(e1.stamp).After(b.handshake.lastTimestamp)
    requires e1.dstLen >= HANDSHAKE_INIT_SZ && e2.dstLen >= HANDSHAKE_INIT_SZ
    ensures var (a1, r1) := Encapsulate(c, a, p, e1);
            var (b1, r2) := Receive(c, b, r1, e2);
            var (a2, r3) := Receive(c, a1, r2, e3);
            Connected(a2, b1) && a2.queue == Enqueue(a.queue, p) && Carries(c, r3, a2.CurrentSession().value, 0, [])
  {
    SendStarts(c, a, p, e1);
    var (s, m) := MakeInitiation(c, a.handshake.params, IncIndex(a.handshake.nextIndex), e1.eph, e1.stamp, e1.now);
    AnswerConnects(c, Encapsulate(c, a, p, e1).0, b, s, m, e1.stamp, e2, e3);
  }

  /** The keepalive and the datagrams of the flushed queue. */
  function Flushed(c: Suite, a: Tunn, keepalive: TunnResult, es: seq<Env>): seq<TunnResult> {
    [keepalive] + seq(|es|, k requires 0 <= k < |es| => Flush.Outcome(c, a, es[..k + 1]))
  }

  lemma FlushedNumbered(c: Suite, a: Tunn, keepalive: TunnResult, es: seq<Env>)
    requires c.Lawful() && a.CurrentSession().Some? && a.CurrentSession().value.sendingKeyCounter == 1
    requires Carries(c, keepalive, a.CurrentSession().value, 0, []) && |es| == |a.queue| <= MAX_QUEUE_DEPTH
    ensures Numbered(c, a.CurrentSession().value, Flushed(c, a, keepalive, es), [[]] + a.queue)
  {
    var tx, ds, texts := a.CurrentSession().value, Flushed(c, a, keepalive, es), [[]] + a.queue;
    forall k | 0 <= k < |texts| ensures Carries(c, ds[k], tx, k, texts[k]) {
      if k > 0 {
        FlushedCarries(c, a, es, k - 1);
      }
    }
  }

  lemma SealedCarries(c: Suite, tx: Session, k: nat, p: Bytes)
    requires c.Lawful() && tx.sendingKeyCounter == 1 && k + 1 < U64
    ensures Carries(c, Flush.Sealed(c, Flush.At(tx, k), p), tx, k + 1, p)
  {
    DataReadsBack(c, Flush.At(tx, k), p);
    SamePacket(c, tx, k, p);
  }

  lemma SamePacket(c: Suite, tx: Session, k: nat, p: Bytes)
    requires tx.sendingKeyCounter == 1 && k + 1 < U64
    ensures SealWith(Flush.At(tx, k), p).OnTheWire(c) == DataPacket(c, tx, k + 1, p)
  {
    assert (1 + k) % U64 == k + 1;
  }

  lemma FlushedCarries(c: Suite, a: Tunn, es: seq<Env>, k: nat)
    requires c.Lawful() && a.CurrentSession().Some? && a.CurrentSession().value.sendingKeyCounter == 1
    requires k < |es| == |a.queue| <= MAX_QUEUE_DEPTH
    ensures Carries(c, Flush.Outcome(c, a, es[..k + 1]), a.CurrentSession().value, k + 1, a.queue[k])
  {
    Flush.FlushIsFifo(c, a, es[..k + 1]);
    SealedCarries(c, a.CurrentSession().value, k, a.queue[k]);
  }

  /** A packet given to a tunnel without a session arrives on the other side: it is
      queued and starts a handshake, the handshake completes, the queue is flushed,
      the datagrams are read.  Any of them may be lost and they may come in any
      order, the keepalive among them: each one that comes is read as the packet it
      holds. */
  lemma QueuedPacketsArrive(c: Suite, a: Tunn, b: Tunn, p: Bytes, e1: Env, e2: Env, e3: Env, flushes: seq<Env>,
                            order: seq<nat>, es: seq<Env>)
    requires c.Lawful() && KA.Paired(c, a.handshake.params, b.handshake.params)
    requires a.CurrentSession().None? && !a.handshake.IsInProgress() && |a.queue| < MAX_QUEUE_DEPTH
    requires Parse(e1.stamp).After(b.handshake.lastTimestamp)
    requires e1.dstLen >= HANDSHAKE_INIT_SZ && e2.dstLen >= HANDSHAKE_INIT_SZ
    requires |flushes| == |a.queue| + 1
    requires |es| == |order| > 0 && NoDuplicates(order) && Within(order, |flushes| + 1)
    ensures var (a1, r1) := Encapsulate(c, a, p, e1);
            var (b1, r2) := Receive(c, b, r1, e2);
            var (a2, r3) := Receive(c, a1, r2, e3);
            var texts := [[]] + a.queue + [p];
            LastArrival(c, b1, Flushed(c, a2, r3, flushes), order, es) == Unwrapped(texts[order[|order| - 1]])
  {
    var (a1, r1) := Encapsulate(c, a, p, e1);
    var (b1, r2) := Receive(c, b, r1, e2);
    var (a2, r3) := Receive(c, a1, r2, e3);
    SendConnects(c, a, b, p, e1, e2, e3);
    FlushedArrive(c, a2, b1, r3, flushes, order, es);
    assert [[]] + a2.queue == [[]] + a.queue + [p];
  }

  /** The part of it that follows the handshake. */
  lemma FlushedArrive(c: Suite, a: Tunn, b: Tunn, keepalive: TunnResult, flushes: seq<Env>, order: seq<nat>,
                      es: seq<Env>)
    requires c.Lawful() && Connected(a, b) && Carries(c, keepalive, a.CurrentSession().value, 0, [])
    requires |flushes| == |a.queue| <= MAX_QUEUE_DEPTH
    requires |es| == |order| > 0 && NoDuplicates(order) && Within(order, |flushes| + 1)
    ensures LastArrival(c, b, Flushed(c, a, keepalive, flushes), order, es) ==
            Unwrapped(([[]] + a.queue)[order[|order| - 1]])
  {
    FlushedNumbered(c, a, keepalive, flushes);
    AnyOrderArrives(c, b, a.CurrentSession().value, Flushed(c, a, keepalive, flushes), [[]] + a.queue, order, es);
  }
}
