/** What one `Handshake` keeps over every run, whatever packets arrive. */
module HandshakeRuns {
  import opened Common
  import opened Crypto
  import opened Noise
  import opened Timestamps
  import opened Wire

  /** The calls the tunnel makes, with the fresh key, timestamp, clock reading
      and buffer size each one uses. */
  datatype Call =
    | Initiate(eph: Key, stamp: Stamp, now: nat, dstLen: nat)
    | OnInitiation(init: Packet, eph: Key, dstLen: nat)
    | OnResponse(resp: Packet, now: nat)
    | OnCookieReply(reply: Packet)
    | Expire
    | DropCookie
    | NewKey(priv: Key)
  {
    /** The packet is of the kind the call is for. */
    predicate Valid() {
      match this
      case OnInitiation(m, _, _) => m.HandshakeInit?
      case OnResponse(m, _) => m.HandshakeResponse?
      case OnCookieReply(m) => m.PacketCookieReply?
      case _ => true
    }

    /** The buffer contract: room for a response whenever one may be written. */
    predicate Roomy() {
      OnInitiation? ==> dstLen >= HANDSHAKE_RESP_SZ
    }
  }

  type Step = x: Call | x.Valid() witness Expire

  function Apply(c: Suite, h: Handshake, x: Step): Handshake {
    match x
    case Initiate(eph, stamp, now, n) => FormatHandshakeInitiation(c, h, eph, stamp, now, n).0
    case OnInitiation(m, eph, n) => ReceiveHandshakeInitialization(c, h, m, eph, n).0
    case OnResponse(m, now) => ReceiveHandshakeResponse(c, h, m, now).0
    case OnCookieReply(m) => ReceiveCookieReply(c, h, m).0
    case Expire => SetExpired(h)
    case DropCookie => ClearCookie(h)
    case NewKey(priv) => SetStaticPrivate(c, h, priv, c.pub(priv))
  }

  /** The invariant of the two in-flight slots. */
  predicate Inv(h: Handshake) {
    && !h.state.InitReceived?
    && !h.previous.InitReceived?
    && (h.state.InitSent? ==> h.nextIndex == h.state.sent.localIndex)
    && (h.previous.InitSent? ==> h.nextIndex == IncIndex(h.previous.sent.localIndex))
    && (h.state.Expired? ==> h.previous.Expired?)
  }

  /** The index moves on by one in its low byte and keeps its upper 24 bits. */
  lemma IncIndexCycles(i: u32)
    ensures IncIndex(i) / 256 == i / 256
    ensures IncIndex(i) % 256 == (i % 256 + 1) % 256
    ensures IncIndex(i) != i
  {
  }

  lemma ApplyKeepsInv(c: Suite, h: Handshake, x: Step)
    requires Inv(h) && x.Roomy()
    ensures Inv(Apply(c, h, x))
    ensures Apply(c, h, x).nextIndex / 256 == h.nextIndex / 256
  {
    IncIndexCycles(h.nextIndex);
  }

  /** `InitReceived` is left visible exactly by an accepted initiation that finds
      no room for its response. */
  lemma InitReceivedVisibleIff(c: Suite, h: Handshake, x: Step)
    requires Inv(h)
    ensures Apply(c, h, x).state.InitReceived? <==>
              && x.OnInitiation?
              && x.dstLen < HANDSHAKE_RESP_SZ
              && OpenInitiation(c, h.params, x.init).Ok?
              && OpenInitiation(c, h.params, x.init).value.1.After(h.lastTimestamp)
  {
  }

  /** A response can match at most one slot, and once it has made a session it
      matches none. */
  lemma ResponseMatchesOnce(c: Suite, h: Handshake, m: Packet, now: nat)
    requires Inv(h) && m.HandshakeResponse?
    ensures !(Answers(m, h.state) && Answers(m, h.previous))
    ensures ReceiveHandshakeResponse(c, h, m, now).1.Ok? ==>
              var h' := ReceiveHandshakeResponse(c, h, m, now).0;
              !Answers(m, h'.state) && !Answers(m, h'.previous)
  {
    if h.previous.InitSent? {
      IncIndexCycles(h.previous.sent.localIndex);
    }
  }

  /** The initiation in flight a response answers: the newer one first. */
  function Awaited(h: Handshake, index: u32): Option<InitSentState> {
    if h.state.InitSent? && h.state.sent.localIndex == index then Some(h.state.sent)
    else if h.previous.InitSent? && h.previous.sent.localIndex == index then Some(h.previous.sent)
    else None
  }

  /** A response makes a session exactly when it names an initiation in flight and
      opens against it; that one slot is freed and the round trip measured in
      milliseconds. */
  lemma ResponseTakenIff(c: Suite, h: Handshake, m: Packet, now: nat)
    requires m.HandshakeResponse?
    ensures var (h', r) := ReceiveHandshakeResponse(c, h, m, now);
            var s := Awaited(h, m.receiverIdx);
            && (r.Ok? <==> s.Some? && OpenResponse(c, h.params, s.value, m).Ok?)
            && (s.None? ==> r == Err(UnexpectedPacket))
            && (r.Err? ==> h' == h)
            && (r.Ok? ==>
                  && r == OpenResponse(c, h.params, s.value, m)
                  && h'.lastRtt.Some?
                  && (s.value.timeSent <= now < s.value.timeSent + 0x1_0000_0000 * 1_000_000 ==>
                        h'.lastRtt.value * 1_000_000 <= now - s.value.timeSent < (h'.lastRtt.value + 1) * 1_000_000)
                  && h' == if h.state == InitSent(s.value) then h.(state := NoHandshake, lastRtt := h'.lastRtt)
                           else h.(previous := NoHandshake, lastRtt := h'.lastRtt))
  {
  }

  /** An initiation is answered exactly when it opens, its timestamp is later than
      every one accepted before, and there is room for the answer. */
  lemma InitiationTakenIff(c: Suite, h: Handshake, m: Packet, eph: Key, dstLen: nat)
    requires m.HandshakeInit?
    ensures var (h', r) := ReceiveHandshakeInitialization(c, h, m, eph, dstLen);
            var reading := OpenInitiation(c, h.params, m);
            var newer := reading.Ok? && reading.value.1.After(h.lastTimestamp);
            && (r.Ok? <==> newer && dstLen >= 92)
            && (!newer ==> h' == h)
            && (newer ==> h'.lastTimestamp == reading.value.1 && h'.previous == h.state)
            && (reading.Ok? && !newer ==> r == Err(WrongTai64nTimestamp))
            && (r.Ok? ==> h'.state.NoHandshake?
                          && r.value.1 == MakeResponse(c, h.params, reading.value.0, IncIndex(h.nextIndex), eph).1)
  {
  }

  /** A new handshake answers any initiation it can read whose timestamp is not all
      zero. */
  lemma FirstInitiationTaken(c: Suite, priv: Key, peer: Key, index: u32, psk: Option<Key>, m: Packet, eph: Key,
                             dstLen: nat)
    requires m.HandshakeInit?
    ensures var h := NewHandshake(c, priv, c.pub(priv), peer, index, psk);
            var reading := OpenInitiation(c, h.params, m);
            && h.state.NoHandshake? && h.previous.NoHandshake?
            && h.cookies.lastMac1.None? && h.cookies.writeCookie.None?
            && (ReceiveHandshakeInitialization(c, h, m, eph, dstLen).1.Ok? <==>
                reading.Ok? && reading.value.1 != Tai64N(0, 0) && dstLen >= 92)
  {
    InitiationTakenIff(c, NewHandshake(c, priv, c.pub(priv), peer, index, psk), m, eph, dstLen);
  }

  // ---------------------------------------------------------------- histories

  /** A run with its history: initiations are numbered as they are made, each
      slot remembers the number of the one it holds, `completed` lists the
      numbers that became sessions, `stamps` the accepted timestamps. */
  datatype History = History(
    h: Handshake, made: nat, stateId: nat, previousId: nat, completed: seq<nat>, stamps: seq<Tai64N>)

  function Record(c: Suite, r: History, x: Step): History {
    var h' := Apply(c, r.h, x);
    match x
    case Initiate(_, _, _, n) =>
      if n < HANDSHAKE_INIT_SZ then r.(h := h')
      else r.(h := h', made := r.made + 1, stateId := r.made, previousId := r.stateId)
    case OnInitiation(m, _, _) =>
      if h' == r.h then r.(h := h')
      else r.(h := h', previousId := r.stateId, stamps := r.stamps + [h'.lastTimestamp])
    case OnResponse(m, now) =>
      if ReceiveHandshakeResponse(c, r.h, m, now).1.Err? then r.(h := h')
      else r.(h := h', completed := r.completed + [if Answers(m, r.h.state) then r.stateId else r.previousId])
    case _ => r.(h := h')
  }

  function Run(c: Suite, h0: Handshake, xs: seq<Step>): History {
    if xs == [] then History(h0, 0, 0, 0, [], []) else Record(c, Run(c, h0, xs[..|xs| - 1]), xs[|xs| - 1])
  }

  ghost predicate Increasing(s: seq<Tai64N>) {
    forall i, j :: 0 <= i < j < |s| ==> s[j].After(s[i])
  }

  ghost predicate HistoryInv(r: History) {
    && Inv(r.h)
    && NoDuplicates(r.completed)
    && (forall i :: i in r.completed ==> i < r.made)
    && (r.h.state.InitSent? ==> r.stateId < r.made && r.stateId !in r.completed)
    && (r.h.previous.InitSent? ==> r.previousId < r.made && r.previousId !in r.completed)
    && (r.h.state.InitSent? && r.h.previous.InitSent? ==> r.stateId != r.previousId)
    && (forall i :: 0 <= i < |r.stamps| ==> r.stamps[i] == r.h.lastTimestamp || r.h.lastTimestamp.After(r.stamps[i]))
    && Increasing(r.stamps)
  }

  lemma RecordResponse(c: Suite, r: History, m: Packet, now: nat)
    requires HistoryInv(r) && m.HandshakeResponse?
    ensures HistoryInv(Record(c, r, OnResponse(m, now)))
  {
    ApplyKeepsInv(c, r.h, OnResponse(m, now));
    ResponseMatchesOnce(c, r.h, m, now);
    assert Apply(c, r.h, OnResponse(m, now)).lastTimestamp == r.h.lastTimestamp;
  }

  /** What an accepted initiation does to the slots. */
  predicate AnsweredInitiation(h: Handshake, h': Handshake) {
    && h'.state.NoHandshake?
    && h'.previous == h.state
    && h'.nextIndex == IncIndex(h.nextIndex)
    && h'.lastTimestamp.After(h.lastTimestamp)
  }

  lemma InitiationShape(c: Suite, h: Handshake, m: Packet, eph: Key, n: nat)
    requires m.HandshakeInit? && n >= HANDSHAKE_RESP_SZ
    ensures var h' := ReceiveHandshakeInitialization(c, h, m, eph, n).0; h' == h || AnsweredInitiation(h, h')
  {
  }

  lemma AnsweredKeepsInv(r: History, h': Handshake)
    requires HistoryInv(r) && AnsweredInitiation(r.h, h')
    ensures HistoryInv(r.(h := h', previousId := r.stateId, stamps := r.stamps + [h'.lastTimestamp]))
  {
    IncIndexCycles(r.h.nextIndex);
  }

  lemma RecordKeepsInv(c: Suite, r: History, x: Step)
    requires HistoryInv(r) && x.Roomy()
    ensures HistoryInv(Record(c, r, x))
  {
    match x
    case OnInitiation(m, eph, n) =>
      var h' := Apply(c, r.h, x);
      InitiationShape(c, r.h, m, eph, n);
      if h' != r.h {
        AnsweredKeepsInv(r, h');
      }
    case OnResponse(m, now) => RecordResponse(c, r, m, now);
    case Initiate(_, _, _, _) => ApplyKeepsInv(c, r.h, x);
    case _ => ApplyKeepsInv(c, r.h, x);
  }

  lemma {:induction false} RunKeepsInv(c: Suite, h0: Handshake, xs: seq<Step>)
    requires Inv(h0) && h0.state.NoHandshake? && h0.previous.NoHandshake?
    requires forall x :: x in xs ==> x.Roomy()
    ensures HistoryInv(Run(c, h0, xs))
    ensures Run(c, h0, xs).h.nextIndex / 256 == h0.nextIndex / 256
  {
    if xs != [] {
      var r := Run(c, h0, xs[..|xs| - 1]);
      RunKeepsInv(c, h0, xs[..|xs| - 1]);
      RecordKeepsInv(c, r, xs[|xs| - 1]);
      ApplyKeepsInv(c, r.h, xs[|xs| - 1]);
    }
  }

  /** Over every run from a new handshake: no initiation makes two sessions,
      accepted timestamps strictly increase, every index keeps the peer's 24-bit
      prefix, and the slot invariant holds. */
  lemma HandshakeRunSafety(c: Suite, priv: Key, peer: Key, globalIdx: u32, psk: Option<Key>, xs: seq<Step>)
    requires forall x :: x in xs ==> x.Roomy()
    ensures var r := Run(c, NewHandshake(c, priv, c.pub(priv), peer, globalIdx, psk), xs);
            && NoDuplicates(r.completed)
            && Increasing(r.stamps)
            && r.h.nextIndex / 256 == globalIdx / 256
            && Inv(r.h)
  {
    RunKeepsInv(c, NewHandshake(c, priv, c.pub(priv), peer, globalIdx, psk), xs);
  }
}
