/** End to end: two paired sessions, any number of receiving threads, and a
    network that drops, duplicates, reorders and tampers. */
module Link {
  import opened Common
  import opened Crypto
  import opened Replay
  import opened Sessions
  import opened Wire
  import KA = KeyAgreement
  import Noise
  import RR = ReplayRuns

  /** One direction.  `sent` is everything the sender formatted, in order;
      `pending` what each receiving thread has decrypted but not yet marked;
      `delivered` what was accepted, with its counter. */
  datatype Link = Link(
    tx: Session, rx: Session, sent: seq<Bytes>, pending: map<nat, (u64, Bytes)>, delivered: seq<(u64, Bytes)>)

  datatype Event =
    | Send(src: Bytes)
    | Arrive(thread: nat, datagram: Bytes)
    | Finish(thread: nat)

  function Step(c: Suite, l: Link, e: Event): Link {
    match e
    case Send(src) => l.(tx := FormatPacketData(c, l.tx, src).0, sent := l.sent + [src])
    case Arrive(t, d) =>
      var parsed := ParseIncomingPacket(d);
      if t in l.pending || parsed.Err? || !parsed.value.PacketData? then l
      else
        var plain := DecryptPacketData(c, l.rx, parsed.value);
        if plain.Err? then l else l.(pending := l.pending[t := (parsed.value.counter, plain.value)])
    case Finish(t) =>
      if t !in l.pending then l
      else
        var (rx', r) := MarkReceived(l.rx, l.pending[t].0);
        l.(rx := rx',
           pending := l.pending - {t},
           delivered := if r.Ok? then l.delivered + [l.pending[t]] else l.delivered)
  }

  /** Unforgeability, the one thing asked of the network: a datagram whose
      ciphertext opens under the session's key carries a ciphertext the sender
      made for that counter.  Everything else about a datagram may be altered. */
  ghost predicate Authentic(c: Suite, l: Link, d: Bytes) {
    var parsed := ParseIncomingPacket(d);
    parsed.Ok? && parsed.value.PacketData? ==>
      var p := parsed.value;
      c.open(l.rx.receiver, CounterNonce(p.counter), [], p.encrypted).Some? ==>
        p.counter < |l.sent| && p.encrypted == DataPacket(c, l.tx, p.counter, l.sent[p.counter]).encrypted
  }

  function Run(c: Suite, tx: Session, rx: Session, es: seq<Event>): Link {
    if es == [] then Link(tx, rx, [], map[], []) else Step(c, Run(c, tx, rx, es[..|es| - 1]), es[|es| - 1])
  }

  /** Every arrival was authentic when it happened. */
  ghost predicate NoForgery(c: Suite, tx: Session, rx: Session, es: seq<Event>) {
    es != [] ==>
      var before := es[..|es| - 1];
      && NoForgery(c, tx, rx, before)
      && (es[|es| - 1].Arrive? ==> Authentic(c, Run(c, tx, rx, before), es[|es| - 1].datagram))
  }

  /** Two new sessions whose keys and indices cross, as a handshake leaves them. */
  predicate NewPair(tx: Session, rx: Session) {
    && Crossed(tx, rx)
    && tx == NewSession(tx.receivingIndex, tx.sendingIndex, tx.receiver, tx.sender)
    && rx == NewSession(rx.receivingIndex, rx.sendingIndex, rx.receiver, rx.sender)
  }

  /** A decrypted packet is what was sent under its counter. */
  predicate Genuine(l: Link, d: (u64, Bytes)) {
    d.0 < |l.sent| && d.1 == l.sent[d.0]
  }

  function Counters(s: seq<(u64, Bytes)>): seq<u64> {
    seq(|s|, i requires 0 <= i < |s| => s[i].0)
  }

  ghost predicate Inv(l: Link) {
    && l.tx.sender == l.rx.receiver && l.tx.sendingIndex == l.rx.receivingIndex
    && l.tx.sendingKeyCounter == |l.sent| % U64
    && (forall t :: t in l.pending ==> Genuine(l, l.pending[t]))
    && (forall i :: 0 <= i < |l.delivered| ==> Genuine(l, l.delivered[i]))
    && RR.Inv(RR.Receiver(l.rx.window, l.rx.receiveCnt, map[], Counters(l.delivered)))
  }

  lemma ModSucc(n: nat)
    ensures (n % U64 + 1) % U64 == (n + 1) % U64
  {
  }

  lemma ModApart(i: nat, j: nat)
    requires i <= j
    ensures i % U64 == j % U64 <==> (j - i) % U64 == 0
  {
  }

  lemma SendKeepsInv(c: Suite, l: Link, src: Bytes)
    requires Inv(l)
    ensures Inv(Step(c, l, Send(src)))
  {
    ModSucc(|l.sent|);
  }

  lemma ArriveKeepsInv(c: Suite, l: Link, t: nat, d: Bytes)
    requires c.Lawful() && Inv(l) && Authentic(c, l, d)
    ensures Inv(Step(c, l, Arrive(t, d)))
  {
  }

  lemma CountBelowLast(m: RR.Receiver)
    requires RR.Inv(m)
    ensures m.receiveCnt < U64
  {
    RR.BelowCount(m.window.accepted, m.window.next);
  }

  /** Marking in a session is marking in the replay model of its window. */
  lemma MarkReceivedRefines(s: Session, log: seq<u64>, counter: u64)
    requires RR.Inv(RR.Receiver(s.window, s.receiveCnt, map[], log)) && counter + 1 < U64
    ensures var (s', r) := MarkReceived(s, counter);
            && s' == s.(window := s'.window, receiveCnt := s'.receiveCnt)
            && RR.Inv(RR.Receiver(s'.window, s'.receiveCnt, map[], if r.Ok? then log + [counter] else log))
  {
    var m := RR.Receiver(s.window, s.receiveCnt, map[], log);
    var m' := RR.MarkLocked(m, counter);
    RR.MarkKeepsInv(m, counter);
    CountBelowLast(m');
  }

  lemma FinishKeepsInv(c: Suite, l: Link, t: nat)
    requires Inv(l) && |l.sent| < U64
    ensures Inv(Step(c, l, Finish(t)))
  {
    if t in l.pending {
      var d := l.pending[t];
      MarkReceivedRefines(l.rx, Counters(l.delivered), d.0);
      assert Counters(l.delivered + [d]) == Counters(l.delivered) + [d.0];
      var l' := Step(c, l, Finish(t));
      assert forall t' :: t' in l'.pending ==> t' in l.pending && l'.pending[t'] == l.pending[t'];
    }
  }

  lemma {:induction false} RunKeepsInv(c: Suite, tx: Session, rx: Session, es: seq<Event>)
    requires c.Lawful() && NewPair(tx, rx) && NoForgery(c, tx, rx, es)
    requires |Run(c, tx, rx, es).sent| < U64
    ensures Inv(Run(c, tx, rx, es))
  {
    if es != [] {
      var before, e := es[..|es| - 1], es[|es| - 1];
      var l := Run(c, tx, rx, before);
      assert |l.sent| <= |Run(c, tx, rx, es).sent|;
      RunKeepsInv(c, tx, rx, before);
      match e
      case Send(src) => SendKeepsInv(c, l, src);
      case Arrive(t, d) => ArriveKeepsInv(c, l, t, d);
      case Finish(t) => FinishKeepsInv(c, l, t);
    }
  }

  /** End-to-end safety: every plaintext a session delivers is the one its peer
      formatted under that counter, and no counter is delivered twice. */
  lemma EndToEndSafety(c: Suite, tx: Session, rx: Session, es: seq<Event>)
    requires c.Lawful() && NewPair(tx, rx) && NoForgery(c, tx, rx, es)
    requires |Run(c, tx, rx, es).sent| < U64
    ensures var l := Run(c, tx, rx, es);
            && (forall i :: 0 <= i < |l.delivered| ==> Genuine(l, l.delivered[i]))
            && (forall i, j :: 0 <= i < j < |l.delivered| ==> l.delivered[i].0 != l.delivered[j].0)
  {
    RunKeepsInv(c, tx, rx, es);
    var l := Run(c, tx, rx, es);
    forall i, j | 0 <= i < j < |l.delivered| ensures l.delivered[i].0 != l.delivered[j].0 {
      assert Counters(l.delivered)[i] != Counters(l.delivered)[j];
    }
  }

  /** The receiver decrypts the sender's own datagram exactly when the quick check
      lets it. */
  lemma OwnDatagramDecrypts(c: Suite, l: Link, k: u64)
    requires c.Lawful() && Inv(l) && k < |l.sent|
    ensures var p := DataPacket(c, l.tx, k, l.sent[k]);
            var quick := WillAccept(l.rx.window, k);
            && ParseIncomingPacket(Encode(p)) == Ok(p)
            && DecryptPacketData(c, l.rx, p) == if quick.Ok? then Ok(l.sent[k]) else Err(quick.error)
  {
    ParseData(DataPacket(c, l.tx, k, l.sent[k]));
  }

  /** And the reverse, for every packet the sender has sent: its datagram, however
      late it comes, is delivered if and only if its counter was not delivered before
      and the window still reaches it. */
  lemma InWindowIsDelivered(c: Suite, tx: Session, rx: Session, es: seq<Event>, k: u64, t: nat)
    requires c.Lawful() && NewPair(tx, rx) && NoForgery(c, tx, rx, es)
    requires var l := Run(c, tx, rx, es);
             |l.sent| < U64 && k < |l.sent| && t !in l.pending
    ensures var l := Run(c, tx, rx, es);
            var d := Encode(DataPacket(c, l.tx, k, l.sent[k]));
            Step(c, Step(c, l, Arrive(t, d)), Finish(t)).delivered ==
            if k !in Counters(l.delivered) && RR.InReach(l.rx.window, k) then l.delivered + [(k, l.sent[k])]
            else l.delivered
  {
    var l := Run(c, tx, rx, es);
    RunKeepsInv(c, tx, rx, es);
    OwnDatagramDecrypts(c, l, k);
    RR.AcceptedCounters(l.rx.window, k);
  }

  /** The sessions an agreed handshake leaves behind are such a pair, in both
      directions. */
  lemma HandshakeGivesPair(c: Suite, alice: Noise.Handshake, bob: Noise.Handshake, acts: seq<KA.Act>,
                           e1: KA.Event, e2: KA.Event, e3: KA.Event)
    requires c.Lawful() && KA.Start(c, alice, bob)
    requires var log := KA.Run(c, alice, bob, acts).log; e1 in log && e2 in log && e3 in log
    requires e1.Initiated? && e2.Responded? && e3.Completed?
    requires e3.who == e1.who && e3.sent == e1.sent
    requires e2.who == KA.Other(e1.who) && e2.init == e1.datagram && e3.resp == e2.resp
    ensures NewPair(e3.session, e2.session) && NewPair(e2.session, e3.session)
  {
    KA.KeyAgreementOverRuns(c, alice, bob, acts, e1, e2, e3);
    KA.RunKeepsInv(c, alice, bob, acts);
    var params := KA.Pair(alice.params, bob.params);
    assert KA.Justified(c, params, e2) && KA.Justified(c, params, e3);
  }

  /** The session after `n` packets, and the counter the next one gets. */
  function AfterSending(c: Suite, s: Session, srcs: seq<Bytes>): Session {
    if srcs == [] then s else FormatPacketData(c, AfterSending(c, s, srcs[..|srcs| - 1]), srcs[|srcs| - 1]).0
  }

  lemma {:induction false} NthCounter(c: Suite, s: Session, srcs: seq<Bytes>)
    requires s.sendingKeyCounter == 0
    ensures AfterSending(c, s, srcs) == s.(sendingKeyCounter := |srcs| % U64)
  {
    if srcs != [] {
      var n := |srcs| - 1;
      NthCounter(c, s, srcs[..n]);
      ModSucc(n);
    }
  }

  /** Nothing limits how many packets a session formats, so its counters are
      distinct exactly up to 2^64 of them: packets `i` and `j` share a counter,
      hence a nonce, precisely when they are a multiple of 2^64 apart. */
  lemma SendingCountersRepeatIff(c: Suite, s: Session, srcs: seq<Bytes>, i: nat, j: nat)
    requires s.sendingKeyCounter == 0 && i <= j <= |srcs|
    ensures AfterSending(c, s, srcs[..i]).sendingKeyCounter == AfterSending(c, s, srcs[..j]).sendingKeyCounter
            <==> (j - i) % U64 == 0
  {
    NthCounter(c, s, srcs[..i]);
    NthCounter(c, s, srcs[..j]);
    ModApart(i, j);
  }
}
