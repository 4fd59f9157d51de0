/** Flushing the queue: the owner repeats an empty datagram until `Done`
    (noise/mod.rs, `decapsulate` and `send_queued_packet`). */
module Flush {
  import opened Common
  import opened Crypto
  import opened Sessions
  import opened Tunnel
  import opened TunnelInvariants
  import opened Wire

  /** The tunnel after repeated calls. */
  function After(c: Suite, t: Tunn, es: seq<Env>): Tunn {
    if es == [] then t else SendQueuedPacket(c, After(c, t, es[..|es| - 1]), es[|es| - 1]).0
  }

  /** What the last of them returned. */
  function Outcome(c: Suite, t: Tunn, es: seq<Env>): TunnResult
    requires es != []
  {
    SendQueuedPacket(c, After(c, t, es[..|es| - 1]), es[|es| - 1]).1
  }

  predicate Roomy(es: seq<Env>) {
    forall i :: 0 <= i < |es| ==> es[i].dstLen >= HANDSHAKE_INIT_SZ
  }

  /** `p` sealed under the session's next counter. */
  function Sealed(c: Suite, s: Session, p: Bytes): TunnResult {
    WriteToNetwork(Encode(DataPacket(c, s, s.sendingKeyCounter, p)))
  }

  /** What one call does with a live session: the head of the queue goes out sealed
      under the next counter. */
  lemma FlushOne(c: Suite, t: Tunn, e: Env)
    requires t.CurrentSession().Some?
    ensures var s := t.CurrentSession().value;
            var (t1, r) := SendQueuedPacket(c, t, e);
            if t.queue == [] then t1 == t && r == Done
            else
              && r == Sealed(c, s, t.queue[0])
              && t1.queue == t.queue[1..]
              && t1.CurrentSession() == Some(At(s, 1))
  {
  }

  /** The session `n` packets on. */
  function At(s: Session, n: nat): Session {
    s.(sendingKeyCounter := (s.sendingKeyCounter + n) % U64)
  }

  lemma OneOn(s: Session, n: nat)
    ensures At(At(s, n), 1) == At(s, n + 1)
  {
  }

  lemma {:induction false} AfterFlushes(c: Suite, t: Tunn, es: seq<Env>)
    requires t.CurrentSession().Some? && |es| <= |t.queue|
    ensures After(c, t, es).queue == t.queue[|es|..]
    ensures After(c, t, es).CurrentSession() == Some(At(t.CurrentSession().value, |es|))
  {
    if es != [] {
      var before := es[..|es| - 1];
      AfterFlushes(c, t, before);
      FlushOne(c, After(c, t, before), es[|es| - 1]);
      OneOn(t.CurrentSession().value, |before|);
    }
  }

  /** With a live session the whole queue goes out in order, under consecutive
      counters, and the call after that is done. */
  lemma FlushIsFifo(c: Suite, t: Tunn, es: seq<Env>)
    requires t.CurrentSession().Some? && 0 < |es| <= |t.queue| + 1
    ensures var s := t.CurrentSession().value;
            var k := |es| - 1;
            Outcome(c, t, es) ==
            if k == |t.queue| then Done
            else Sealed(c, At(s, k), t.queue[k])
    ensures |es| == |t.queue| + 1 ==> After(c, t, es).queue == []
  {
    AfterFlushes(c, t, es[..|es| - 1]);
    FlushOne(c, After(c, t, es[..|es| - 1]), es[|es| - 1]);
  }

  /** Without one, a call turns the queue and starts a handshake unless one is in
      progress. */
  lemma FlushWithoutSession(c: Suite, t: Tunn, e: Env)
    requires t.CurrentSession().None? && |t.queue| <= MAX_QUEUE_DEPTH && e.dstLen >= HANDSHAKE_INIT_SZ
    ensures var (t1, r) := SendQueuedPacket(c, t, e);
            && t1.CurrentSession().None?
            && t1.queue == (if t.queue == [] then [] else t.queue[1..] + [t.queue[0]])
            && (if t.queue == [] || t.handshake.IsInProgress() then r == Done else r.WriteToNetwork?)
            && (t1.handshake.IsInProgress() <==> t.handshake.IsInProgress() || t.queue != [])
  {
    if t.queue != [] {
      InitiationShape(c, t.handshake, e);
    }
  }

  /** The queue turned `n` times: each time the head moves to the back. */
  function Turned(q: seq<Bytes>, n: nat): (r: seq<Bytes>)
    ensures multiset(r) == multiset(q) && |r| == |q|
  {
    if n == 0 || q == [] then q
    else
      var p := Turned(q, n - 1);
      assert p == [p[0]] + p[1..];
      p[1..] + [p[0]]
  }

  /** However often it is repeated, flushing without a session only turns the
      queue, so it keeps every packet, and only the first call can emit an initiation. */
  lemma {:induction false} FlushTurnsQueue(c: Suite, t: Tunn, es: seq<Env>)
    requires t.CurrentSession().None? && |t.queue| <= MAX_QUEUE_DEPTH && Roomy(es)
    ensures After(c, t, es).queue == Turned(t.queue, |es|)
    ensures After(c, t, es).CurrentSession().None?
    ensures After(c, t, es).handshake.IsInProgress() <==> t.handshake.IsInProgress() || (t.queue != [] && es != [])
    ensures es != [] ==>
              if |es| == 1 && t.queue != [] && !t.handshake.IsInProgress() then Outcome(c, t, es).WriteToNetwork?
              else Outcome(c, t, es) == Done
  {
    if es != [] {
      var before := es[..|es| - 1];
      FlushTurnsQueue(c, t, before);
      FlushWithoutSession(c, After(c, t, before), es[|es| - 1]);
    }
  }

  /** Flushing ends: `Done` comes back at the latest when the call was made once
      more than there were packets. */
  lemma FlushTerminates(c: Suite, t: Tunn, es: seq<Env>)
    requires |t.queue| <= MAX_QUEUE_DEPTH && Roomy(es) && |es| == |t.queue| + 1
    ensures Outcome(c, t, es) == Done
  {
    if t.CurrentSession().Some? {
      FlushIsFifo(c, t, es);
    } else {
      FlushTurnsQueue(c, t, es);
    }
  }

  /** Without a session a flush turns the queue, or, with no handshake in progress, a
      buffer too short for an initiation and room in the queue, puts the head at both
      ends. */
  lemma FlushQueue(c: Suite, t: Tunn, e: Env)
    requires t.CurrentSession().None? && t.queue != [] && |t.queue| <= MAX_QUEUE_DEPTH
    ensures var q := t.queue;
            SendQueuedPacket(c, t, e).0.queue ==
            if t.handshake.IsInProgress() || e.dstLen >= 148 || |q| == 256 then q[1..] + [q[0]]
            else [q[0]] + (q[1..] + [q[0]])
  {
    if e.dstLen >= HANDSHAKE_INIT_SZ {
      FlushWithoutSession(c, t, e);
    }
  }

  /** So the buffer contract matters: a flush keeps the queue's packets exactly when a
      handshake is in progress, the buffer holds an initiation, or the queue is
      full. */
  lemma FlushConservesIff(c: Suite, t: Tunn, e: Env)
    requires t.CurrentSession().None? && t.queue != [] && |t.queue| <= MAX_QUEUE_DEPTH
    ensures multiset(SendQueuedPacket(c, t, e).0.queue) == multiset(t.queue) <==>
              t.handshake.IsInProgress() || e.dstLen >= HANDSHAKE_INIT_SZ || |t.queue| == MAX_QUEUE_DEPTH
  {
    FlushQueue(c, t, e);
    TurnedOrLonger(t.queue);
  }

  lemma TurnedOrLonger(q: seq<Bytes>)
    requires q != []
    ensures multiset(q[1..] + [q[0]]) == multiset(q)
    ensures multiset([q[0]] + (q[1..] + [q[0]])) != multiset(q)
  {
    assert q == [q[0]] + q[1..];
    assert |multiset([q[0]] + (q[1..] + [q[0]]))| == |q| + 1;
  }
}
