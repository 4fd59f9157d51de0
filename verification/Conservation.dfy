/** Every packet given to a tunnel is accounted for, and so is every byte. */
module Conservation {
  import opened Common
  import opened Crypto
  import opened Noise
  import opened Sessions
  import opened Tunnel
  import opened TunnelInvariants
  import opened TunnelRuns
  import opened Keepalives
  import opened Wire
  import HR = HandshakeRuns

  /** The fate of packets: what was given to `encapsulate` (keepalives included),
      what went out sealed in order, what the full queue refused, what an expiry
      dropped; and what was delivered to the interface. */
  datatype Ledger = Ledger(
    given: multiset<Bytes>, sent: seq<Bytes>, refused: multiset<Bytes>, dropped: multiset<Bytes>, delivered: seq<Bytes>)

  const EmptyLedger := Ledger(multiset{}, [], multiset{}, multiset{}, [])

  /** `encapsulate` was given `src` in state `t`. */
  function BookGiven(l: Ledger, t: Tunn, src: Bytes): Ledger {
    var l1 := l.(given := l.given + multiset{src});
    if t.CurrentSession().Some? then l1.(sent := l1.sent + [src])
    else if |t.queue| >= 256 then l1.(refused := l1.refused + multiset{src})
    else l1
  }

  function Book(c: Suite, l: Ledger, t: Tunn, m: Moment): Ledger {
    match m.op
    case Send(src) => BookGiven(l, t, src)
    case Flush =>
      if t.queue != [] && t.CurrentSession().Some? then l.(sent := l.sent + [t.queue[0]]) else l
    case Update =>
      if DecidesKeepalive(t, m.env.now) then BookGiven(l, Sending(t, m.env.now), [])
      else if UpdateTimers(c, t, m.env).1 == Error(ConnectionExpired) then l.(dropped := l.dropped + multiset(t.queue))
      else l
    case Handle(p) =>
      var r := HandleVerifiedPacket(c, t, p, m.env).1;
      if r.WriteToTunnel? then l.(delivered := l.delivered + [r.packet]) else l
    case _ => l
  }

  function Books(c: Suite, t0: Tunn, ms: seq<Moment>): Ledger {
    if ms == [] then EmptyLedger
    else Book(c, Books(c, t0, ms[..|ms| - 1]), Run(c, t0, ms[..|ms| - 1]), ms[|ms| - 1])
  }

  function Total(s: seq<Bytes>): nat {
    if s == [] then 0 else Total(s[..|s| - 1]) + |s[|s| - 1]|
  }

  lemma TotalAppend(s: seq<Bytes>, p: Bytes)
    ensures Total(s + [p]) == Total(s) + |p|
  {
    assert (s + [p])[..|s|] == s;
  }

  ghost predicate Balanced(l: Ledger, t: Tunn) {
    && l.given == multiset(l.sent) + multiset(t.queue) + l.refused + l.dropped
    && t.txBytes == Total(l.sent)
    && t.rxBytes == Total(l.delivered)
  }

  // ---------------------------------------------------------------- each call

  /** What `encapsulate` does to queue and counters, and what it puts on the wire. */
  lemma EncapsulateBooks(c: Suite, t: Tunn, src: Bytes, e: Env)
    ensures var (t', r) := Encapsulate(c, t, src, e);
            && t'.rxBytes == t.rxBytes
            && match t.CurrentSession()
               case Some(s) =>
                 && t'.queue == t.queue && t'.txBytes == t.txBytes + |src|
                 && r == WriteToNetwork(Encode(DataPacket(c, s, s.sendingKeyCounter, src)))
               case None => t'.queue == Enqueue(t.queue, src) && t'.txBytes == t.txBytes
  {
  }

  lemma GivenBalances(c: Suite, l: Ledger, t: Tunn, src: Bytes, e: Env)
    requires Balanced(l, t)
    ensures Balanced(BookGiven(l, t, src), Encapsulate(c, t, src, e).0)
  {
    EncapsulateBooks(c, t, src, e);
    TotalAppend(l.sent, src);
  }

  /** A flush sends the head of the queue, or moves it to the back. */
  lemma FlushBooks(c: Suite, t: Tunn, e: Env)
    requires t.queue != [] && |t.queue| <= MAX_QUEUE_DEPTH && e.dstLen >= HANDSHAKE_INIT_SZ
    ensures var (t', r) := SendQueuedPacket(c, t, e);
            && t'.rxBytes == t.rxBytes
            && match t.CurrentSession()
               case Some(s) =>
                 && t'.queue == t.queue[1..] && t'.txBytes == t.txBytes + |t.queue[0]|
                 && r == WriteToNetwork(Encode(DataPacket(c, s, s.sendingKeyCounter, t.queue[0])))
               case None => t'.queue == t.queue[1..] + [t.queue[0]] && t'.txBytes == t.txBytes
  {
    var t1 := t.(queue := t.queue[1..]);
    EncapsulateBooks(c, t1, t.queue[0], e);
    FormatKeepsQueue(c, t1.(queue := Enqueue(t1.queue, t.queue[0])), e, false);
  }

  /** The part of it that concerns the books. */
  lemma FlushMoves(c: Suite, t: Tunn, e: Env)
    requires t.queue != [] && |t.queue| <= MAX_QUEUE_DEPTH && e.dstLen >= HANDSHAKE_INIT_SZ
    ensures var t' := SendQueuedPacket(c, t, e).0;
            && t'.rxBytes == t.rxBytes
            && t'.queue == t.queue[1..] + (if t.CurrentSession().Some? then [] else [t.queue[0]])
            && t'.txBytes == t.txBytes + if t.CurrentSession().Some? then |t.queue[0]| else 0
  {
    FlushBooks(c, t, e);
  }

  lemma MovedBalances(l: Ledger, t: Tunn, t': Tunn, sent: bool)
    requires Balanced(l, t) && t.queue != [] && t'.rxBytes == t.rxBytes
    requires t'.queue == t.queue[1..] + (if sent then [] else [t.queue[0]])
    requires t'.txBytes == t.txBytes + if sent then |t.queue[0]| else 0
    ensures Balanced(if sent then l.(sent := l.sent + [t.queue[0]]) else l, t')
  {
    TotalAppend(l.sent, t.queue[0]);
    assert t.queue == [t.queue[0]] + t.queue[1..];
  }

  lemma FlushBalances(c: Suite, l: Ledger, t: Tunn, e: Env)
    requires Balanced(l, t) && |t.queue| <= MAX_QUEUE_DEPTH && e.dstLen >= HANDSHAKE_INIT_SZ
    ensures Balanced(Book(c, l, t, Moment(Flush, e)), SendQueuedPacket(c, t, e).0)
  {
    if t.queue != [] {
      FlushMoves(c, t, e);
      MovedBalances(l, t, SendQueuedPacket(c, t, e).0, t.CurrentSession().Some?);
    }
  }

  lemma UpdateBalances(c: Suite, l: Ledger, t: Tunn, e: Env)
    requires Balanced(l, t) && HR.Inv(t.handshake) && ExpiredInv(t) && e.dstLen >= HANDSHAKE_INIT_SZ
    ensures Balanced(Book(c, l, t, Moment(Update, e)), UpdateTimers(c, t, e).0)
  {
    if DecidesKeepalive(t, e.now) {
      KeepaliveIsEmptySend(c, t, e);
      GivenBalances(c, l, Sending(t, e.now), [], e);
    } else {
      OtherUpdates(c, t, e);
    }
  }

  /** Handling packets touches neither queue nor sent bytes, and counts exactly
      what it delivers. */
  lemma HandleBooks(c: Suite, t: Tunn, m: Packet, e: Env)
    ensures var (t', r) := HandleVerifiedPacket(c, t, m, e);
            && t'.queue == t.queue && t'.txBytes == t.txBytes
            && t'.rxBytes == t.rxBytes + if r.WriteToTunnel? then |r.packet| else 0
  {
    match m
    case HandshakeInit(_, _, _, _) =>
      var (h, r) := ReceiveHandshakeInitialization(c, t.handshake, m, e.eph, e.dstLen);
      assert AfterAnswer(t, h, r).0.queue == t.queue;
    case HandshakeResponse(_, _, _, _) =>
      var (h, r) := ReceiveHandshakeResponse(c, t.handshake, m, e.now);
      assert AfterResponse(c, t, h, r).0.queue == t.queue;
    case PacketCookieReply(_, _, _) =>
    case PacketData(_, _, _) =>
  }

  lemma HandleBalances(c: Suite, l: Ledger, t: Tunn, m: Packet, e: Env)
    requires Balanced(l, t)
    ensures Balanced(Book(c, l, t, Moment(Handle(m), e)), HandleVerifiedPacket(c, t, m, e).0)
  {
    HandleBooks(c, t, m, e);
    var r := HandleVerifiedPacket(c, t, m, e).1;
    if r.WriteToTunnel? {
      TotalAppend(l.delivered, r.packet);
    }
  }

  lemma CallBalances(c: Suite, l: Ledger, t: Tunn, m: Moment, clock: nat)
    requires Balanced(l, t) && Inv(t, clock) && Timely(m.env, clock)
    ensures Balanced(Book(c, l, t, m), Call(c, t, m.op, m.env).0)
  {
    match m.op
    case Send(src) => GivenBalances(c, l, t, src, m.env);
    case Flush => FlushBalances(c, l, t, m.env);
    case Update => UpdateBalances(c, l, t, m.env);
    case Handle(p) => HandleBalances(c, l, t, p, m.env);
    case StartHandshake(force) => FormatKeepsQueue(c, t, m.env, force);
    case NewKey(_, _) =>
  }

  /** Conservation: over any run, every packet given to `encapsulate` is exactly
      one of sent, still queued, refused by the full queue, or dropped by an
      expiry; and the byte counters are the payload totals. */
  lemma {:induction false} ConservationOverRuns(c: Suite, t0: Tunn, ms: seq<Moment>)
    requires New(c, t0) && Orderly(ms)
    ensures Balanced(Books(c, t0, ms), Run(c, t0, ms))
  {
    if ms != [] {
      var before, m := ms[..|ms| - 1], ms[|ms| - 1];
      RunKeepsInv(c, t0, ms);
      ConservationOverRuns(c, t0, before);
      CallBalances(c, Books(c, t0, before), Run(c, t0, before), m, Clock(before));
    }
  }
}
