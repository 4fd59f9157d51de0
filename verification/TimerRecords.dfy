/** What the timers of a tunnel mean: over every run each holds the tick of the last
    event it is named after, and the role is that of the last handshake completed
    (noise/timers.rs, `timer_tick` and its callers in noise/mod.rs). */
module TimerRecords {
  import opened Common
  import opened Crypto
  import opened Noise
  import opened Sessions
  import opened Tunnel
  import opened TunnelInvariants
  import opened TunnelRuns
  import opened Keepalives
  import opened Emissions
  import opened Rekeying
  import opened Wire
  import HR = HandshakeRuns

  /** What can be seen of a call from outside: its result, the packet it sealed,
      whether it filled a ring slot and whether a session accepted its packet. */
  datatype Seen = Seen(result: TunnResult, sealed: Option<Sealing>, filled: bool, accepted: bool)

  function Observe(c: Suite, t: Tunn, m: Moment): Seen {
    Seen(Call(c, t, m.op, m.env).1, SealedBy(c, t, m), Filled(c, t, m.op, m.env).Some?, Accepting(c, t, m.op).Some?)
  }

  /** The call puts a first handshake message on the wire. */
  predicate Opens(op: Op, seen: Seen) {
    !op.Handle? && seen.result.WriteToNetwork? && seen.sealed.None?
  }

  /** The event a timer is named after happens in the call. */
  predicate Happens(t: Tunn, m: Moment, seen: Seen, n: TimerName) {
    match n
    case TimeCurrent => m.op.Update?
    case TimeSessionEstablished => seen.filled
    case TimeLastHandshakeStarted => Opens(m.op, seen) && !t.handshake.IsInProgress()
    case TimeLastPacketReceived =>
      m.op.Handle? && if m.op.packet.PacketData? then seen.accepted else !seen.result.Error?
    case TimeLastPacketSent =>
      // the keepalive that answers a handshake response is not counted
      seen.result.WriteToNetwork? && !(m.op.Handle? && m.op.packet.HandshakeResponse?)
    case TimeLastDataPacketReceived => seen.result.WriteToTunnel?
    case TimeLastDataPacketSent => seen.sealed.Some? && seen.sealed.value.plain != []
    case TimeCookieReceived => m.op.Handle? && m.op.packet.PacketCookieReply? && !seen.result.Error?
    case TimePersistentKeepalive => m.op.Update? && Beats(t, m.env.now)
  }

  /** A persistent keepalive is due and nothing goes before it. */
  predicate Beats(t: Tunn, now: nat) {
    && HeartbeatDue(t.timers, now) && t.handshake.state.NoHandshake? && Decide(t, now) != GivesUp
    && !KeysWorn(t.timers, now) && !Unanswered(t.timers, now)
  }

  /** Everything starts over: the connection is given up, or tried again after that. */
  predicate StartsOver(t: Tunn, m: Moment, seen: Seen) {
    if t.handshake.IsExpired() then Opens(m.op, seen) else m.op.Update? && seen.result.Error?
  }

  /** Ticks are taken from the last clock reading of an update. */
  function TickOf(t: Tunn, m: Moment): nat {
    if m.op.Update? then m.env.now else t.timers.At(TimeCurrent)
  }

  function Recorded(t: Tunn, m: Moment, seen: Seen, n: TimerName): nat {
    if StartsOver(t, m, seen) then m.env.now
    else if Happens(t, m, seen, n) then TickOf(t, m)
    else t.timers.At(n)
  }

  /** The same with the events as given: `over`, or those in `happened` at `tick`. */
  predicate Stamps(tm: Timers, tm': Timers, over: bool, now: nat, tick: nat, happened: set<TimerName>, n: TimerName) {
    tm'.At(n) == if over then now else if n in happened then tick else tm.At(n)
  }

  /** The events of a call are those given. */
  predicate Events(t: Tunn, m: Moment, seen: Seen, over: bool, happened: set<TimerName>, n: TimerName) {
    StartsOver(t, m, seen) == over && (!over ==> (Happens(t, m, seen, n) <==> n in happened))
  }

  lemma StampsRecord(t: Tunn, m: Moment, seen: Seen, tm': Timers, over: bool, happened: set<TimerName>, n: TimerName)
    requires Stamps(t.timers, tm', over, m.env.now, TickOf(t, m), happened, n) && Events(t, m, seen, over, happened, n)
    ensures tm'.At(n) == Recorded(t, m, seen, n)
  {
  }

  lemma SlotsDistinct(a: TimerName, b: TimerName)
    ensures Slot(a) == Slot(b) <==> a == b
  {
  }

  // ---------------------------------------------------------------- an initiation

  function OpeningEvents(h: Handshake): set<TimerName> {
    {TimeLastPacketSent} + if h.IsInProgress() then {} else {TimeLastHandshakeStarted}
  }

  lemma InitiationStamps(t: Tunn, h: Handshake, r: Result<Bytes>, now: nat, n: TimerName)
    requires r.Ok?
    ensures var tm := AfterInitiation(t, h, r, now).0.timers;
            && Stamps(t.timers, tm, t.handshake.IsExpired(), now, t.timers.At(TimeCurrent),
                      OpeningEvents(t.handshake), n)
            && tm.wantHandshake && !tm.wantKeepalive
  {
  }

  lemma FormatStamps(c: Suite, t: Tunn, e: Env, force: bool, n: TimerName)
    requires e.dstLen >= HANDSHAKE_INIT_SZ && (force || !t.handshake.IsInProgress())
    ensures var (t', r) := FormatInitiation(c, t, e, force);
            && r.WriteToNetwork?
            && Stamps(t.timers, t'.timers, t.handshake.IsExpired(), e.now, t.timers.At(TimeCurrent),
                      OpeningEvents(t.handshake), n)
            && t'.timers.wantHandshake && !t'.timers.wantKeepalive
  {
    var (h, r) := FormatHandshakeInitiation(c, t.handshake, e.eph, e.stamp, e.now, e.dstLen);
    InitiationShape(c, t.handshake, e);
    InitiationStamps(t, h, r, e.now, n);
  }

  /** A call that does nothing but open a handshake. */
  lemma OpeningHappens(t: Tunn, m: Moment, seen: Seen, n: TimerName)
    requires !m.op.Handle? && !m.op.Update? && seen.result.WriteToNetwork? && seen.sealed.None? && !seen.filled
    ensures Events(t, m, seen, t.handshake.IsExpired(), OpeningEvents(t.handshake), n)
  {
  }

  /** A call outside updates and arrivals that sends nothing. */
  lemma NothingHappens(t: Tunn, m: Moment, seen: Seen, n: TimerName)
    requires !m.op.Handle? && !m.op.Update? && seen.result.Done? && seen.sealed.None? && !seen.filled
    ensures Events(t, m, seen, false, {}, n)
  {
  }

  function SealingEvents(src: Bytes): set<TimerName> {
    {TimeLastPacketSent} + if src == [] then {} else {TimeLastDataPacketSent}
  }

  lemma EncapsulateStamps(c: Suite, t: Tunn, src: Bytes, e: Env, n: TimerName)
    requires t.CurrentSession().Some?
    ensures var (t', r) := Encapsulate(c, t, src, e);
            && r.WriteToNetwork?
            && Stamps(t.timers, t'.timers, false, e.now, t.timers.At(TimeCurrent), SealingEvents(src), n)
            && t'.timers.wantHandshake && !t'.timers.wantKeepalive
  {
  }

  lemma SealingHappens(t: Tunn, m: Moment, seen: Seen, n: TimerName)
    requires !m.op.Handle? && !m.op.Update? && seen.result.WriteToNetwork? && !t.handshake.IsExpired()
    requires seen.sealed.Some? && !seen.filled
    ensures Events(t, m, seen, false, SealingEvents(seen.sealed.value.plain), n)
  {
  }

  lemma OnlyArrivalsFill(c: Suite, t: Tunn, m: Moment)
    requires !m.op.Handle?
    ensures !Observe(c, t, m).filled
  {
  }

  // ---------------------------------------------------------------- sending

  /** An expired tunnel has no session. */
  lemma SessionMeansLive(t: Tunn)
    requires ExpiredInv(t) && t.CurrentSession().Some?
    ensures !t.handshake.IsExpired()
  {
  }

  lemma SendStamps(c: Suite, t: Tunn, src: Bytes, e: Env, n: TimerName)
    requires ExpiredInv(t) && e.dstLen >= HANDSHAKE_INIT_SZ
    ensures var m := Moment(Send(src), e);
            Encapsulate(c, t, src, e).0.timers.At(n) == Recorded(t, m, Observe(c, t, m), n)
  {
    var m := Moment(Send(src), e);
    OnlyArrivalsFill(c, t, m);
    if t.CurrentSession().Some? {
      SessionMeansLive(t);
      EncapsulateStamps(c, t, src, e, n);
      SealingHappens(t, m, Observe(c, t, m), n);
      StampsRecord(t, m, Observe(c, t, m), Encapsulate(c, t, src, e).0.timers, false, SealingEvents(src), n);
    } else {
      OpeningStamps(c, t, t.(queue := Enqueue(t.queue, src)), m, Observe(c, t, m), false, n);
    }
  }

  /** The call comes down to asking `t1`, which is `t` up to the queue, for an
      initiation. */
  lemma OpeningStamps(c: Suite, t: Tunn, t1: Tunn, m: Moment, seen: Seen, force: bool, n: TimerName)
    requires m.env.dstLen >= HANDSHAKE_INIT_SZ && !m.op.Handle? && !m.op.Update?
    requires t1 == t.(queue := t1.queue) && seen.sealed.None? && !seen.filled
    requires seen.result == FormatInitiation(c, t1, m.env, force).1
    ensures FormatInitiation(c, t1, m.env, force).0.timers.At(n) == Recorded(t, m, seen, n)
  {
    var tm' := FormatInitiation(c, t1, m.env, force).0.timers;
    if force || !t.handshake.IsInProgress() {
      FormatStamps(c, t1, m.env, force, n);
      OpeningHappens(t, m, seen, n);
      StampsRecord(t, m, seen, tm', t.handshake.IsExpired(), OpeningEvents(t.handshake), n);
    } else {
      NothingHappens(t, m, seen, n);
      StampsRecord(t, m, seen, tm', false, {}, n);
    }
  }

  lemma FlushStamps(c: Suite, t: Tunn, e: Env, n: TimerName)
    requires ExpiredInv(t) && e.dstLen >= HANDSHAKE_INIT_SZ
    ensures var m := Moment(Flush, e);
            SendQueuedPacket(c, t, e).0.timers.At(n) == Recorded(t, m, Observe(c, t, m), n)
  {
    var m := Moment(Flush, e);
    OnlyArrivalsFill(c, t, m);
    if t.queue == [] {
      NothingHappens(t, m, Observe(c, t, m), n);
    } else if t.CurrentSession().Some? {
      var t1 := t.(queue := t.queue[1..]);
      SessionMeansLive(t);
      EncapsulateStamps(c, t1, t.queue[0], e, n);
      SealingHappens(t, m, Observe(c, t, m), n);
      StampsRecord(t, m, Observe(c, t, m), Encapsulate(c, t1, t.queue[0], e).0.timers, false,
                   SealingEvents(t.queue[0]), n);
    } else {
      var t1 := t.(queue := t.queue[1..]);
      var t2 := t1.(queue := Enqueue(t1.queue, t.queue[0]));
      FormatKeepsQueue(c, t2, e, false);
      OpeningStamps(c, t, t2, m, Observe(c, t, m), false, n);
    }
  }

  // ---------------------------------------------------------------- arrivals

  /** What is seen of an answered or refused initiation. */
  predicate AnswerSeen(seen: Seen) {
    && (seen.result.WriteToNetwork? || seen.result.Error?) && seen.filled == seen.result.WriteToNetwork?
    && seen.sealed.None? && !seen.accepted
  }

  const AnswerEvents: set<TimerName> := {TimeLastPacketReceived, TimeLastPacketSent, TimeSessionEstablished}

  lemma AnswerStamps(t: Tunn, h: Handshake, r: Result<(Bytes, Session)>, now: nat, n: TimerName)
    ensures var (t', result) := AfterAnswer(t, h, r);
            && (if r.Ok? then result.WriteToNetwork? else result.Error? && t'.timers == t.timers)
            && Stamps(t.timers, t'.timers, false, now, t.timers.At(TimeCurrent), if r.Ok? then AnswerEvents else {}, n)
  {
  }

  lemma AnswerHappens(t: Tunn, m: Moment, seen: Seen, n: TimerName)
    requires m.op.Handle? && m.op.packet.HandshakeInit? && AnswerSeen(seen)
    ensures Events(t, m, seen, false, if seen.filled then AnswerEvents else {}, n)
  {
  }

  lemma AnswerObserved(c: Suite, t: Tunn, p: Packet, e: Env)
    requires p.HandshakeInit?
    ensures var seen := Observe(c, t, Moment(Handle(p), e));
            && AnswerSeen(seen)
            && seen.filled == ReceiveHandshakeInitialization(c, t.handshake, p, e.eph, e.dstLen).1.Ok?
  {
    var (h, r) := ReceiveHandshakeInitialization(c, t.handshake, p, e.eph, e.dstLen);
    AnswerStamps(t, h, r, 0, TimeCurrent);
  }

  lemma AnswerRecorded(c: Suite, t: Tunn, p: Packet, e: Env, n: TimerName)
    requires p.HandshakeInit?
    ensures var m := Moment(Handle(p), e);
            HandleHandshakeInit(c, t, p, e).0.timers.At(n) == Recorded(t, m, Observe(c, t, m), n)
  {
    var m := Moment(Handle(p), e);
    var (h, r) := ReceiveHandshakeInitialization(c, t.handshake, p, e.eph, e.dstLen);
    AnswerStamps(t, h, r, e.now, n);
    AnswerObserved(c, t, p, e);
    AnswerHappens(t, m, Observe(c, t, m), n);
    StampsRecord(t, m, Observe(c, t, m), AfterAnswer(t, h, r).0.timers, false, if r.Ok? then AnswerEvents else {}, n);
  }

  /** What is seen of an accepted or refused response. */
  predicate CompletionSeen(seen: Seen) {
    && (seen.result.WriteToNetwork? || seen.result.Error?) && seen.filled == seen.result.WriteToNetwork?
    && (seen.sealed.Some? ==> seen.sealed.value.plain == []) && !seen.accepted
  }

  const CompletionEvents: set<TimerName> := {TimeLastPacketReceived, TimeSessionEstablished}

  lemma ResponseStamps(c: Suite, t: Tunn, h: Handshake, r: Result<Session>, now: nat, n: TimerName)
    ensures var (t', result) := AfterResponse(c, t, h, r);
            && (if r.Ok? then result.WriteToNetwork? else result.Error? && t'.timers == t.timers)
            && Stamps(t.timers, t'.timers, false, now, t.timers.At(TimeCurrent),
                      if r.Ok? then CompletionEvents else {}, n)
  {
  }

  lemma ResponseHappens(t: Tunn, m: Moment, seen: Seen, n: TimerName)
    requires m.op.Handle? && m.op.packet.HandshakeResponse? && CompletionSeen(seen)
    ensures Events(t, m, seen, false, if seen.filled then CompletionEvents else {}, n)
  {
  }

  lemma ResponseObserved(c: Suite, t: Tunn, p: Packet, e: Env)
    requires p.HandshakeResponse?
    ensures var seen := Observe(c, t, Moment(Handle(p), e));
            CompletionSeen(seen) && seen.filled == ReceiveHandshakeResponse(c, t.handshake, p, e.now).1.Ok?
  {
    var (h, r) := ReceiveHandshakeResponse(c, t.handshake, p, e.now);
    ResponseStamps(c, t, h, r, 0, TimeCurrent);
  }

  lemma ResponseRecorded(c: Suite, t: Tunn, p: Packet, e: Env, n: TimerName)
    requires p.HandshakeResponse?
    ensures var m := Moment(Handle(p), e);
            HandleHandshakeResponse(c, t, p, e).0.timers.At(n) == Recorded(t, m, Observe(c, t, m), n)
  {
    var m := Moment(Handle(p), e);
    var (h, r) := ReceiveHandshakeResponse(c, t.handshake, p, e.now);
    ResponseStamps(c, t, h, r, e.now, n);
    ResponseObserved(c, t, p, e);
    ResponseHappens(t, m, Observe(c, t, m), n);
    StampsRecord(t, m, Observe(c, t, m), AfterResponse(c, t, h, r).0.timers, false,
                 if r.Ok? then CompletionEvents else {}, n);
  }

  const CookieEvents: set<TimerName> := {TimeLastPacketReceived, TimeCookieReceived}

  lemma CookieStamps(c: Suite, t: Tunn, p: Packet, now: nat, n: TimerName)
    requires p.PacketCookieReply?
    ensures var (t', r) := HandleCookieReply(c, t, p);
            && (r.Done? || r.Error?)
            && Stamps(t.timers, t'.timers, false, now, t.timers.At(TimeCurrent),
                      if r.Done? then CookieEvents else {}, n)
  {
  }

  lemma CookieHappens(t: Tunn, m: Moment, seen: Seen, n: TimerName)
    requires m.op.Handle? && m.op.packet.PacketCookieReply? && (seen.result.Done? || seen.result.Error?)
    requires seen.sealed.None? && !seen.filled
    ensures Events(t, m, seen, false, if seen.result.Done? then CookieEvents else {}, n)
  {
  }

  lemma CookieRecorded(c: Suite, t: Tunn, p: Packet, e: Env, n: TimerName)
    requires p.PacketCookieReply?
    ensures var m := Moment(Handle(p), e);
            HandleCookieReply(c, t, p).0.timers.At(n) == Recorded(t, m, Observe(c, t, m), n)
  {
    var m := Moment(Handle(p), e);
    var (t', r) := HandleCookieReply(c, t, p);
    CookieStamps(c, t, p, e.now, n);
    CookieHappens(t, m, Observe(c, t, m), n);
    StampsRecord(t, m, Observe(c, t, m), t'.timers, false, if r.Done? then CookieEvents else {}, n);
  }

  function DataEvents(delivered: bool): set<TimerName> {
    {TimeLastPacketReceived} + if delivered then {TimeLastDataPacketReceived} else {}
  }

  lemma DataStamps(c: Suite, t: Tunn, p: Packet, now: nat, n: TimerName)
    requires p.PacketData?
    ensures var (t', r) := HandleData(c, t, p);
            var accepted := Accepting(c, t, Handle(p)).Some?;
            && !r.WriteToNetwork? && (r.WriteToTunnel? ==> accepted)
            && Stamps(t.timers, t'.timers, false, now, t.timers.At(TimeCurrent),
                      if accepted then DataEvents(r.WriteToTunnel?) else {}, n)
  {
  }

  lemma DataHappens(t: Tunn, m: Moment, seen: Seen, n: TimerName)
    requires m.op.Handle? && m.op.packet.PacketData? && !seen.result.WriteToNetwork?
    requires seen.result.WriteToTunnel? ==> seen.accepted
    requires seen.sealed.None? && !seen.filled
    ensures Events(t, m, seen, false, if seen.accepted then DataEvents(seen.result.WriteToTunnel?) else {}, n)
  {
  }

  lemma DataRecorded(c: Suite, t: Tunn, p: Packet, e: Env, n: TimerName)
    requires p.PacketData?
    ensures var m := Moment(Handle(p), e);
            HandleData(c, t, p).0.timers.At(n) == Recorded(t, m, Observe(c, t, m), n)
  {
    var m := Moment(Handle(p), e);
    var (t', r) := HandleData(c, t, p);
    DataStamps(c, t, p, e.now, n);
    DataHappens(t, m, Observe(c, t, m), n);
    StampsRecord(t, m, Observe(c, t, m), t'.timers, false,
                 if Accepting(c, t, Handle(p)).Some? then DataEvents(r.WriteToTunnel?) else {}, n);
  }

  lemma HandleRecorded(c: Suite, t: Tunn, p: Packet, e: Env, n: TimerName)
    ensures var m := Moment(Handle(p), e);
            HandleVerifiedPacket(c, t, p, e).0.timers.At(n) == Recorded(t, m, Observe(c, t, m), n)
  {
    match p
    case HandshakeInit(_, _, _, _) => AnswerRecorded(c, t, p, e, n);
    case HandshakeResponse(_, _, _, _) => ResponseRecorded(c, t, p, e, n);
    case PacketCookieReply(_, _, _) => CookieRecorded(c, t, p, e, n);
    case PacketData(_, _, _) => DataRecorded(c, t, p, e, n);
  }

  // ---------------------------------------------------------------- updates

  /** The events of an update, by what it decides. */
  function UpdateEvents(t: Tunn, now: nat): set<TimerName> {
    var beat: set<TimerName> := if Beats(t, now) then {TimePersistentKeepalive} else {};
    match Decide(t, now)
    case Initiates => {TimeCurrent} + OpeningEvents(t.handshake) + beat
    case SendsKeepalive => {TimeCurrent, TimeLastPacketSent} + beat
    case _ => {TimeCurrent}
  }

  /** What is seen of an update, by what it decides. */
  predicate UpdateSeen(t: Tunn, now: nat, seen: Seen) {
    && !seen.filled
    && match Decide(t, now)
       case StaysExpired => seen.result.Error? && seen.sealed.None?
       case GivesUp => seen.result.Error? && seen.sealed.None?
       case Initiates => seen.result.WriteToNetwork? && seen.sealed.None?
       case SendsKeepalive => seen.result.WriteToNetwork? && seen.sealed.Some? && seen.sealed.value.plain == []
       case KeepsQuiet => seen.result.Done? && seen.sealed.None?
  }

  lemma UpdateHappens(t: Tunn, m: Moment, seen: Seen, n: TimerName)
    requires m.op.Update? && HR.Inv(t.handshake) && UpdateSeen(t, m.env.now, seen)
    ensures Events(t, m, seen, Decide(t, m.env.now) == GivesUp, UpdateEvents(t, m.env.now), n)
  {
  }

  lemma UpdateSeals(c: Suite, t: Tunn, e: Env)
    requires HR.Inv(t.handshake)
    ensures var x := SealedBy(c, t, Moment(Update, e));
            if Decide(t, e.now) == SendsKeepalive then x.Some? && x.value.plain == [] else x.None?
  {
    DecidingSwept(t, e.now);
    SameConditions(t, e.now, Deciding(t, e.now));
  }

  lemma UpdateObserved(c: Suite, t: Tunn, e: Env)
    requires HR.Inv(t.handshake) && e.dstLen >= HANDSHAKE_INIT_SZ
    ensures UpdateSeen(t, e.now, Observe(c, t, Moment(Update, e)))
  {
    OnlyArrivalsFill(c, t, Moment(Update, e));
    UpdateSeals(c, t, e);
    UpdateDecides(c, t, e);
  }

  /** Stamping from the tunnel the decisions are made on. */
  lemma SweptStamps(t: Tunn, now: nat, t2: Tunn, tm': Timers, happened: set<TimerName>, n: TimerName)
    requires SameButSwept(t, now, t2) && Stamps(t2.timers, tm', false, now, now, happened, n)
    ensures Stamps(t.timers, tm', false, now, now, {TimeCurrent} + happened, n)
  {
    SlotsDistinct(n, TimeCurrent);
  }

  lemma BusyStamps(c: Suite, t: Tunn, t2: Tunn, e: Env, n: TimerName)
    requires HR.Inv(t.handshake) && e.dstLen >= HANDSHAKE_INIT_SZ && SameButSwept(t, e.now, t2)
    requires t.handshake.state.InitSent? && Decide(t, e.now) != GivesUp
    ensures Stamps(t.timers, UpdateInFlight(c, t2, e, t.handshake.state.sent.timeSent).0.timers, false, e.now, e.now,
                   UpdateEvents(t, e.now), n)
  {
    var tm' := UpdateInFlight(c, t2, e, t.handshake.state.sent.timeSent).0.timers;
    if Decide(t, e.now) == Initiates {
      FormatStamps(c, t2, e, true, n);
      SweptStamps(t, e.now, t2, tm', OpeningEvents(t.handshake), n);
    } else {
      SweptStamps(t, e.now, t2, tm', {}, n);
    }
  }

  lemma HeardStamps(tm: Timers, now: nat, n: TimerName)
    ensures HeardTimers(tm, now).At(n) == tm.At(n)
    ensures Stamps(tm, IdleTimers(tm, now), false, now, tm.At(TimeCurrent),
                   if PersistentDue(tm, now) then {TimePersistentKeepalive} else {}, n)
  {
    SlotsDistinct(n, TimePersistentKeepalive);
  }

  lemma StampsTwice(tm: Timers, tm1: Timers, tm': Timers, now: nat, tick: nat, first: set<TimerName>,
                    second: set<TimerName>, n: TimerName)
    requires Stamps(tm, tm1, false, now, tick, first, n) && Stamps(tm1, tm', false, now, tick, second, n)
    ensures Stamps(tm, tm', false, now, tick, first + second, n)
  {
  }

  lemma StartingStamps(c: Suite, t: Tunn, t2: Tunn, e: Env, n: TimerName)
    requires e.dstLen >= HANDSHAKE_INIT_SZ && SameButSwept(t, e.now, t2)
    requires t.handshake.state.NoHandshake? && Decide(t, e.now) != GivesUp && StartDue(t2.timers, e.now)
    ensures Stamps(t.timers, UpdateWhenIdle(c, t2, e).0.timers, false, e.now, e.now, UpdateEvents(t, e.now), n)
  {
    SameConditions(t, e.now, t2);
    HeardStamps(t2.timers, e.now, n);
    FormatStamps(c, t2.(timers := HeardTimers(t2.timers, e.now)), e, true, n);
    SweptStamps(t, e.now, t2, UpdateWhenIdle(c, t2, e).0.timers, OpeningEvents(t.handshake), n);
  }

  lemma KeepaliveStamps(c: Suite, t: Tunn, t2: Tunn, e: Env, n: TimerName)
    requires e.dstLen >= HANDSHAKE_INIT_SZ && SameButSwept(t, e.now, t2) && t.handshake.state.NoHandshake?
    requires KeepaliveDue(t2.timers, e.now)
    ensures Stamps(t2.timers, Encapsulate(c, t2.(timers := IdleTimers(t2.timers, e.now)), [], e).0.timers, false,
                   e.now, e.now, IdleEvents(t, t2.timers, e.now), n)
  {
    var t3 := t2.(timers := IdleTimers(t2.timers, e.now));
    var tm' := Encapsulate(c, t3, [], e).0.timers;
    var first: set<TimerName> := if PersistentDue(t2.timers, e.now) then {TimePersistentKeepalive} else {};
    HeardStamps(t2.timers, e.now, n);
    if HasSession(t, e.now) {
      EncapsulateStamps(c, t3, [], e, n);
      StampsTwice(t2.timers, t3.timers, tm', e.now, e.now, first, {TimeLastPacketSent}, n);
    } else {
      FormatStamps(c, t3.(queue := Enqueue(t3.queue, [])), e, false, n);
      StampsTwice(t2.timers, t3.timers, tm', e.now, e.now, first, OpeningEvents(t.handshake), n);
    }
  }

  /** The events of an update without a handshake to start or to await. */
  function IdleEvents(t: Tunn, tm: Timers, now: nat): set<TimerName> {
    (if PersistentDue(tm, now) then {TimePersistentKeepalive} else {}) +
    (if !KeepaliveDue(tm, now) then {}
     else if HasSession(t, now) then {TimeLastPacketSent}
     else OpeningEvents(t.handshake))
  }

  lemma IdleEventsAre(t: Tunn, now: nat, t2: Tunn)
    requires SameButSwept(t, now, t2) && !StartDue(t2.timers, now)
    requires t.handshake.state.NoHandshake? && Decide(t, now) != GivesUp
    ensures UpdateEvents(t, now) == {TimeCurrent} + IdleEvents(t, t2.timers, now)
  {
    SameConditions(t, now, t2);
    assert PersistentDue(t2.timers, now) <==> Beats(t, now);
  }

  lemma IdleStamps(c: Suite, t: Tunn, t2: Tunn, e: Env, n: TimerName)
    requires e.dstLen >= HANDSHAKE_INIT_SZ && SameButSwept(t, e.now, t2)
    requires t.handshake.state.NoHandshake? && Decide(t, e.now) != GivesUp
    ensures Stamps(t.timers, UpdateWhenIdle(c, t2, e).0.timers, false, e.now, e.now, UpdateEvents(t, e.now), n)
  {
    if StartDue(t2.timers, e.now) {
      StartingStamps(c, t, t2, e, n);
    } else {
      if KeepaliveDue(t2.timers, e.now) {
        KeepaliveStamps(c, t, t2, e, n);
      } else {
        HeardStamps(t2.timers, e.now, n);
      }
      SweptStamps(t, e.now, t2, UpdateWhenIdle(c, t2, e).0.timers, IdleEvents(t, t2.timers, e.now), n);
      IdleEventsAre(t, e.now, t2);
    }
  }

  lemma UpdateStamps(c: Suite, t: Tunn, e: Env, n: TimerName)
    requires HR.Inv(t.handshake) && e.dstLen >= HANDSHAKE_INIT_SZ
    ensures Stamps(t.timers, UpdateTimers(c, t, e).0.timers, Decide(t, e.now) == GivesUp, e.now, e.now,
                   UpdateEvents(t, e.now), n)
  {
    var t2 := Deciding(t, e.now);
    DecidingSwept(t, e.now);
    if Decide(t, e.now) == StaysExpired {
      SlotsDistinct(n, TimeCurrent);
    } else if Decide(t, e.now) != GivesUp {
      if t.handshake.state.InitSent? {
        BusyStamps(c, t, t2, e, n);
      } else {
        IdleStamps(c, t, t2, e, n);
      }
    }
  }

  lemma UpdateRecorded(c: Suite, t: Tunn, e: Env, n: TimerName)
    requires HR.Inv(t.handshake) && e.dstLen >= HANDSHAKE_INIT_SZ
    ensures var m := Moment(Update, e);
            UpdateTimers(c, t, e).0.timers.At(n) == Recorded(t, m, Observe(c, t, m), n)
  {
    var m := Moment(Update, e);
    UpdateObserved(c, t, e);
    UpdateStamps(c, t, e, n);
    UpdateHappens(t, m, Observe(c, t, m), n);
    StampsRecord(t, m, Observe(c, t, m), UpdateTimers(c, t, e).0.timers, Decide(t, e.now) == GivesUp,
                 UpdateEvents(t, e.now), n);
  }

  // ---------------------------------------------------------------- each call

  lemma NewKeyRecorded(c: Suite, t: Tunn, m: Moment, n: TimerName)
    requires m.op.NewKey?
    ensures SetKey(c, t, m.op.priv, m.op.ownLimiter).timers.At(n) == Recorded(t, m, Observe(c, t, m), n)
  {
    OnlyArrivalsFill(c, t, m);
    NothingHappens(t, m, Observe(c, t, m), n);
  }

  lemma StartRecorded(c: Suite, t: Tunn, m: Moment, n: TimerName)
    requires m.op.StartHandshake? && m.env.dstLen >= HANDSHAKE_INIT_SZ
    ensures FormatInitiation(c, t, m.env, m.op.force).0.timers.At(n) == Recorded(t, m, Observe(c, t, m), n)
  {
    OnlyArrivalsFill(c, t, m);
    OpeningStamps(c, t, t, m, Observe(c, t, m), m.op.force, n);
  }

  /** Each call records exactly the events that happen in it. */
  lemma CallRecords(c: Suite, t: Tunn, m: Moment, clock: nat, n: TimerName)
    requires Inv(t, clock) && Timely(m.env, clock)
    ensures Call(c, t, m.op, m.env).0.timers.At(n) == Recorded(t, m, Observe(c, t, m), n)
  {
    match m.op
    case Send(src) => SendStamps(c, t, src, m.env, n);
    case Flush => FlushStamps(c, t, m.env, n);
    case Update => UpdateRecorded(c, t, m.env, n);
    case StartHandshake(_) => StartRecorded(c, t, m, n);
    case NewKey(_, _) => NewKeyRecorded(c, t, m, n);
    case Handle(p) => HandleRecorded(c, t, p, m.env, n);
  }

  // ---------------------------------------------------------------- wishes and role

  /** What becomes of the wishes and the role, for a call that sent or received a
      packet, started over, or completed a handshake as initiator or responder. */
  predicate Flags(tm: Timers, tm': Timers, sent: bool, received: bool, over: bool, role: Option<bool>) {
    && tm'.wantHandshake == (sent || (tm.wantHandshake && !received && !over))
    && tm'.wantKeepalive == (!sent && !over && (received || tm.wantKeepalive))
    && tm'.isInitiator == (if role.Some? then role.value else tm.isInitiator)
    && tm'.persistentKeepalive == tm.persistentKeepalive
  }

  predicate FlagsRecorded(t: Tunn, m: Moment, seen: Seen, tm': Timers) {
    Flags(t.timers, tm', Happens(t, m, seen, TimeLastPacketSent), Happens(t, m, seen, TimeLastPacketReceived),
          StartsOver(t, m, seen),
          if seen.filled && m.op.Handle? then Some(m.op.packet.HandshakeResponse?) else None)
  }

  lemma FormatFlags(c: Suite, t: Tunn, e: Env, force: bool)
    requires e.dstLen >= HANDSHAKE_INIT_SZ
    ensures var (t', r) := FormatInitiation(c, t, e, force);
            && (r.WriteToNetwork? || r.Done?)
            && Flags(t.timers, t'.timers, r.WriteToNetwork?, false, r.WriteToNetwork? && t.handshake.IsExpired(), None)
  {
    InitiationShape(c, t.handshake, e);
  }

  lemma EncapsulateFlags(c: Suite, t: Tunn, src: Bytes, e: Env)
    requires e.dstLen >= HANDSHAKE_INIT_SZ && ExpiredInv(t)
    ensures var (t', r) := Encapsulate(c, t, src, e);
            && (r.WriteToNetwork? || r.Done?)
            && Flags(t.timers, t'.timers, r.WriteToNetwork?, false, r.WriteToNetwork? && t.handshake.IsExpired(), None)
            && (t.CurrentSession().Some? ==> !t.handshake.IsExpired())
  {
    if t.CurrentSession().None? {
      FormatFlags(c, t.(queue := Enqueue(t.queue, src)), e, false);
    }
  }

  /** A call outside updates and arrivals that sends as `r` says. */
  lemma SenderFlags(t: Tunn, m: Moment, seen: Seen, tm': Timers)
    requires !m.op.Handle? && !m.op.Update? && (seen.result.WriteToNetwork? || seen.result.Done?)
    requires seen.sealed.Some? ==> !t.handshake.IsExpired()
    requires var sent := seen.result.WriteToNetwork?;
             Flags(t.timers, tm', sent, false, sent && t.handshake.IsExpired(), None)
    ensures FlagsRecorded(t, m, seen, tm')
  {
  }

  lemma SendFlags(c: Suite, t: Tunn, m: Moment)
    requires (m.op.Send? || m.op.Flush?) && m.env.dstLen >= HANDSHAKE_INIT_SZ && ExpiredInv(t)
    ensures FlagsRecorded(t, m, Observe(c, t, m), Call(c, t, m.op, m.env).0.timers)
  {
    OnlyArrivalsFill(c, t, m);
    if m.op.Send? {
      EncapsulateFlags(c, t, m.op.src, m.env);
    } else if t.queue != [] {
      EncapsulateFlags(c, t.(queue := t.queue[1..]), t.queue[0], m.env);
    }
    SenderFlags(t, m, Observe(c, t, m), Call(c, t, m.op, m.env).0.timers);
  }

  lemma AnswerFlags(t: Tunn, h: Handshake, r: Result<(Bytes, Session)>)
    ensures Flags(t.timers, AfterAnswer(t, h, r).0.timers, r.Ok?, r.Ok?, false, if r.Ok? then Some(false) else None)
  {
  }

  lemma ResponseFlags(c: Suite, t: Tunn, h: Handshake, r: Result<Session>)
    ensures Flags(t.timers, AfterResponse(c, t, h, r).0.timers, false, r.Ok?, false, if r.Ok? then Some(true) else None)
  {
  }

  lemma CookieFlags(c: Suite, t: Tunn, p: Packet)
    requires p.PacketCookieReply?
    ensures var (t', r) := HandleCookieReply(c, t, p);
            (r.Done? || r.Error?) && Flags(t.timers, t'.timers, false, r.Done?, false, None)
  {
  }

  lemma DataFlags(c: Suite, t: Tunn, p: Packet)
    requires p.PacketData?
    ensures var (t', r) := HandleData(c, t, p);
            && !r.WriteToNetwork?
            && Flags(t.timers, t'.timers, false, Accepting(c, t, Handle(p)).Some?, false, None)
  {
  }

  lemma HandleFlags(c: Suite, t: Tunn, p: Packet, e: Env)
    ensures var m := Moment(Handle(p), e);
            FlagsRecorded(t, m, Observe(c, t, m), HandleVerifiedPacket(c, t, p, e).0.timers)
  {
    match p
    case HandshakeInit(_, _, _, _) =>
      var (h, r) := ReceiveHandshakeInitialization(c, t.handshake, p, e.eph, e.dstLen);
      AnswerObserved(c, t, p, e);
      AnswerFlags(t, h, r);
    case HandshakeResponse(_, _, _, _) =>
      var (h, r) := ReceiveHandshakeResponse(c, t.handshake, p, e.now);
      ResponseObserved(c, t, p, e);
      ResponseFlags(c, t, h, r);
    case PacketCookieReply(_, _, _) => CookieFlags(c, t, p);
    case PacketData(_, _, _) => DataFlags(c, t, p);
  }

  /** A wish is used up only by what it asks for. */
  lemma QuietFlags(tm: Timers, now: nat)
    requires !StartDue(tm, now) && !KeepaliveDue(tm, now)
    ensures Flags(tm, IdleTimers(tm, now), false, false, false, None)
  {
  }

  lemma SendingFlags(tm: Timers, tm1: Timers, tm': Timers)
    requires tm1.isInitiator == tm.isInitiator && tm1.persistentKeepalive == tm.persistentKeepalive
    requires Flags(tm1, tm', true, false, false, None)
    ensures Flags(tm, tm', true, false, false, None)
  {
  }

  lemma StartingFlags(c: Suite, t2: Tunn, e: Env)
    requires e.dstLen >= HANDSHAKE_INIT_SZ && t2.handshake.state.NoHandshake? && StartDue(t2.timers, e.now)
    ensures var (t', r) := UpdateWhenIdle(c, t2, e);
            r.WriteToNetwork? && Flags(t2.timers, t'.timers, true, false, false, None)
  {
    var t1 := t2.(timers := HeardTimers(t2.timers, e.now));
    FormatFlags(c, t1, e, true);
    InitiationStarts(c, t1, e, true);
    SendingFlags(t2.timers, t1.timers, FormatInitiation(c, t1, e, true).0.timers);
  }

  lemma KeepaliveFlags(c: Suite, t2: Tunn, e: Env)
    requires e.dstLen >= HANDSHAKE_INIT_SZ && t2.handshake.state.NoHandshake?
    ensures var (t', r) := Encapsulate(c, t2.(timers := IdleTimers(t2.timers, e.now)), [], e);
            r.WriteToNetwork? && Flags(t2.timers, t'.timers, true, false, false, None)
  {
    var t3 := t2.(timers := IdleTimers(t2.timers, e.now));
    EncapsulateFlags(c, t3, [], e);
    if t3.CurrentSession().None? {
      InitiationStarts(c, t3.(queue := Enqueue(t3.queue, [])), e, false);
    }
    SendingFlags(t2.timers, t3.timers, Encapsulate(c, t3, [], e).0.timers);
  }

  lemma IdleFlags(c: Suite, t2: Tunn, e: Env)
    requires e.dstLen >= HANDSHAKE_INIT_SZ && t2.handshake.state.NoHandshake?
    ensures var (t', r) := UpdateWhenIdle(c, t2, e);
            Flags(t2.timers, t'.timers, r.WriteToNetwork?, false, r.Error?, None)
  {
    if StartDue(t2.timers, e.now) {
      StartingFlags(c, t2, e);
    } else if KeepaliveDue(t2.timers, e.now) {
      KeepaliveFlags(c, t2, e);
    } else {
      QuietFlags(t2.timers, e.now);
    }
  }

  lemma InFlightFlags(c: Suite, t2: Tunn, e: Env, sent: nat)
    requires e.dstLen >= HANDSHAKE_INIT_SZ && t2.handshake.state.InitSent?
    ensures var (t', r) := UpdateInFlight(c, t2, e, sent);
            Flags(t2.timers, t'.timers, r.WriteToNetwork?, false, r.Error?, None)
  {
    FormatFlags(c, t2, e, true);
  }

  lemma SweptFlags(t: Tunn, now: nat, t2: Tunn, tm': Timers, sent: bool, over: bool)
    requires SameButSwept(t, now, t2) && Flags(t2.timers, tm', sent, false, over, None)
    ensures Flags(t.timers, tm', sent, false, over, None)
  {
  }

  lemma UpdateFlags(c: Suite, t: Tunn, e: Env)
    requires HR.Inv(t.handshake) && e.dstLen >= HANDSHAKE_INIT_SZ
    ensures var (t', r) := UpdateTimers(c, t, e);
            Flags(t.timers, t'.timers, r.WriteToNetwork?, false, r.Error? && !t.handshake.IsExpired(), None)
  {
    var t2 := Deciding(t, e.now);
    DecidingSwept(t, e.now);
    if !t.handshake.IsExpired() {
      if Decide(t, e.now) == GivesUp {
      } else if t.handshake.state.InitSent? {
        InFlightFlags(c, t2, e, t.handshake.state.sent.timeSent);
      } else {
        IdleFlags(c, t2, e);
      }
      var (t', r) := UpdateTimers(c, t, e);
      SweptFlags(t, e.now, t2, t'.timers, r.WriteToNetwork?, r.Error?);
    }
  }

  /** Each call changes wishes and role exactly by what happens in it. */
  lemma CallFlags(c: Suite, t: Tunn, m: Moment, clock: nat)
    requires Inv(t, clock) && Timely(m.env, clock)
    ensures FlagsRecorded(t, m, Observe(c, t, m), Call(c, t, m.op, m.env).0.timers)
  {
    match m.op
    case Handle(p) => HandleFlags(c, t, p, m.env);
    case Update =>
      OnlyArrivalsFill(c, t, m);
      UpdateFlags(c, t, m.env);
    case StartHandshake(force) =>
      OnlyArrivalsFill(c, t, m);
      FormatFlags(c, t, m.env, force);
      SenderFlags(t, m, Observe(c, t, m), Call(c, t, m.op, m.env).0.timers);
    case NewKey(_, _) => OnlyArrivalsFill(c, t, m);
    case _ => SendFlags(c, t, m);
  }

  // ---------------------------------------------------------------- runs

  /** When the event of timer `n` last happened in a run, or everything started
      over. */
  function LastTime(c: Suite, t0: Tunn, ms: seq<Moment>, n: TimerName): nat {
    if ms == [] then 0
    else
      var t, m := Run(c, t0, ms[..|ms| - 1]), ms[|ms| - 1];
      var seen := Observe(c, t, m);
      if StartsOver(t, m, seen) then m.env.now
      else if !Happens(t, m, seen, n) then LastTime(c, t0, ms[..|ms| - 1], n)
      else if m.op.Update? then m.env.now
      else LastTime(c, t0, ms[..|ms| - 1], TimeCurrent)
  }

  /** Did the last handshake completed end with a response read here? */
  function LastRole(c: Suite, t0: Tunn, ms: seq<Moment>): bool {
    if ms == [] then false
    else
      var t, m := Run(c, t0, ms[..|ms| - 1]), ms[|ms| - 1];
      if Filled(c, t, m.op, m.env).Some? && m.op.Handle? then m.op.packet.HandshakeResponse?
      else LastRole(c, t0, ms[..|ms| - 1])
  }

  datatype Traffic = Neither | Outgoing | Incoming

  /** Which way the last packet since the start, or since starting over, went. */
  function LastTraffic(c: Suite, t0: Tunn, ms: seq<Moment>): Traffic {
    if ms == [] then Neither
    else
      var t, m := Run(c, t0, ms[..|ms| - 1]), ms[|ms| - 1];
      var seen := Observe(c, t, m);
      if Happens(t, m, seen, TimeLastPacketSent) then Outgoing
      else if StartsOver(t, m, seen) then Neither
      else if Happens(t, m, seen, TimeLastPacketReceived) then Incoming
      else LastTraffic(c, t0, ms[..|ms| - 1])
  }

  /** Over every run the timers, the role and the wishes are what happened. */
  lemma {:induction false} TimersTellTheRun(c: Suite, t0: Tunn, ms: seq<Moment>, n: TimerName)
    requires New(c, t0) && Orderly(ms)
    ensures Run(c, t0, ms).timers.At(n) == LastTime(c, t0, ms, n)
  {
    if ms != [] {
      var before, m := ms[..|ms| - 1], ms[|ms| - 1];
      RunKeepsInv(c, t0, ms);
      TimersTellTheRun(c, t0, before, n);
      TimersTellTheRun(c, t0, before, TimeCurrent);
      CallRecords(c, Run(c, t0, before), m, Clock(before), n);
    }
  }

  lemma {:induction false} FlagsTellTheRun(c: Suite, t0: Tunn, ms: seq<Moment>)
    requires New(c, t0) && Orderly(ms)
    ensures var tm := Run(c, t0, ms).timers;
            && tm.isInitiator == LastRole(c, t0, ms)
            && (tm.wantHandshake <==> LastTraffic(c, t0, ms) == Outgoing)
            && (tm.wantKeepalive <==> LastTraffic(c, t0, ms) == Incoming)
            && tm.persistentKeepalive == t0.timers.persistentKeepalive
  {
    if ms != [] {
      var before, m := ms[..|ms| - 1], ms[|ms| - 1];
      RunKeepsInv(c, t0, ms);
      FlagsTellTheRun(c, t0, before);
      CallFlags(c, Run(c, t0, before), m, Clock(before));
    }
  }

  /** A handshake is due, told by what happened: the last handshake was completed
      here as initiator and its keys are worn, or data sent stayed unanswered. */
  predicate HandshakeDue(c: Suite, t0: Tunn, ms: seq<Moment>, now: nat) {
    var born, heard := LastTime(c, t0, ms, TimeSessionEstablished), LastTime(c, t0, ms, TimeLastPacketReceived);
    var sent, received := LastTime(c, t0, ms, TimeLastDataPacketSent), LastTime(c, t0, ms, TimeLastDataPacketReceived);
    || (LastRole(c, t0, ms) && sent > born && now >= born + Secs(120))
    || (LastRole(c, t0, ms) && received > born && now >= born + Secs(165))
    || (LastTraffic(c, t0, ms) == Outgoing && sent > heard && now >= heard + Secs(15))
  }

  /** A keepalive is due, told by what happened. */
  predicate AnswerDue(c: Suite, t0: Tunn, ms: seq<Moment>, now: nat) {
    var said, received := LastTime(c, t0, ms, TimeLastPacketSent), LastTime(c, t0, ms, TimeLastDataPacketReceived);
    || (LastTraffic(c, t0, ms) == Incoming && received > said && now >= said + Secs(10))
    || (t0.timers.persistentKeepalive > 0
        && now >= LastTime(c, t0, ms, TimePersistentKeepalive) + Secs(t0.timers.persistentKeepalive))
  }

  lemma DueByHistory(c: Suite, t0: Tunn, ms: seq<Moment>, now: nat)
    requires New(c, t0) && Orderly(ms)
    ensures var tm := Run(c, t0, ms).timers;
            && (KeysWorn(tm, now) || Unanswered(tm, now) <==> HandshakeDue(c, t0, ms, now))
            && (OwesAnswer(tm, now) || HeartbeatDue(tm, now) <==> AnswerDue(c, t0, ms, now))
            && tm.At(TimeSessionEstablished) == LastTime(c, t0, ms, TimeSessionEstablished)
  {
    FlagsTellTheRun(c, t0, ms);
    TimersTellTheRun(c, t0, ms, TimeSessionEstablished);
    TimersTellTheRun(c, t0, ms, TimeLastPacketReceived);
    TimersTellTheRun(c, t0, ms, TimeLastPacketSent);
    TimersTellTheRun(c, t0, ms, TimeLastDataPacketReceived);
    TimersTellTheRun(c, t0, ms, TimeLastDataPacketSent);
    TimersTellTheRun(c, t0, ms, TimePersistentKeepalive);
  }

  /** An update started a handshake exactly when one was due, or when a keepalive was
      and there was no session for it; it sent a keepalive exactly when one was due,
      no handshake was, and there was a session; otherwise it did nothing. */
  predicate IdleOutcome(c: Suite, t: Tunn, now: nat, t': Tunn, r: TunnResult, due: bool, owed: bool) {
    && (Initiation(t, now, t', r) <==> due || (owed && !HasSession(t, now)))
    && (t.CurrentSession().Some? && Keepalive(c, t.CurrentSession().value, r) <==> !due && owed && HasSession(t, now))
    && (r == Done <==> !due && !owed)
  }

  lemma CarriedOutcome(c: Suite, t: Tunn, now: nat, t': Tunn, r: TunnResult, due: bool, owed: bool)
    requires Carried(c, t, now, t', r) && t.handshake.state.NoHandshake?
    requires now < t.timers.At(TimeSessionEstablished) + Secs(540)
    requires due == (KeysWorn(t.timers, now) || Unanswered(t.timers, now))
    requires owed == (OwesAnswer(t.timers, now) || HeartbeatDue(t.timers, now))
    ensures IdleOutcome(c, t, now, t', r, due, owed)
  {
    OneOutcome(c, t, now, t', r);
  }

  lemma OneOutcome(c: Suite, t: Tunn, now: nat, t': Tunn, r: TunnResult)
    ensures Initiation(t, now, t', r) ==> r != Done && forall s :: !Keepalive(c, s, r)
  {
    if Initiation(t, now, t', r) {
      assert r.datagram[..4][0] == 1;
    }
  }

  lemma IdleUpdate(c: Suite, t: Tunn, e: Env, due: bool, owed: bool)
    requires HR.Inv(t.handshake) && e.dstLen >= HANDSHAKE_INIT_SZ && t.handshake.state.NoHandshake?
    requires e.now < t.timers.At(TimeSessionEstablished) + Secs(540)
    requires due == (KeysWorn(t.timers, e.now) || Unanswered(t.timers, e.now))
    requires owed == (OwesAnswer(t.timers, e.now) || HeartbeatDue(t.timers, e.now))
    ensures Decided(c, t, e, due, owed)
  {
    UpdateDecides(c, t, e);
    var (t', r) := UpdateTimers(c, t, e);
    CarriedOutcome(c, t, e.now, t', r, due, owed);
  }

  predicate Decided(c: Suite, t: Tunn, e: Env, due: bool, owed: bool) {
    var (t', r) := UpdateTimers(c, t, e);
    IdleOutcome(c, t, e.now, t', r, due, owed)
  }

  lemma RunReady(c: Suite, t0: Tunn, ms: seq<Moment>)
    requires New(c, t0) && Orderly(ms)
    ensures HR.Inv(Run(c, t0, ms).handshake)
  {
    RunKeepsInv(c, t0, ms);
  }

  /** After any run, what an update does that finds no handshake in flight, less than
      540 seconds after the last one was completed. */
  lemma IdleUpdateIff(c: Suite, t0: Tunn, ms: seq<Moment>, e: Env)
    requires New(c, t0) && Orderly(ms) && Timely(e, Clock(ms)) && Run(c, t0, ms).handshake.state.NoHandshake?
    requires e.now < LastTime(c, t0, ms, TimeSessionEstablished) + Secs(540)
    ensures Decided(c, Run(c, t0, ms), e, HandshakeDue(c, t0, ms, e.now), AnswerDue(c, t0, ms, e.now))
  {
    RunReady(c, t0, ms);
    DueByHistory(c, t0, ms, e.now);
    IdleUpdate(c, Run(c, t0, ms), e, HandshakeDue(c, t0, ms, e.now), AnswerDue(c, t0, ms, e.now));
  }
}
