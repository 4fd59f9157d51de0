/** The packet-loss estimate a tunnel reports: a weighted mean over the ring,
    newest session first, each next one weighing a third (noise/mod.rs,
    `estimate_loss`).  Over the reals: rounding is not modelled. */
module Loss {
  import opened Common
  import opened Crypto
  import opened Sessions
  import opened Tunnel
  import opened TunnelInvariants
  import opened TunnelRuns
  import opened Wire
  import RR = ReplayRuns
  import opened Replay
  import HR = HandshakeRuns

  /** The share of a session's expected packets that did not arrive. */
  function LossOf(s: Session): real {
    if s.window.next == 0 then 0.0 else 1.0 - s.receiveCnt as real / s.window.next as real
  }

  /** The slot visited in round `i`; the subtraction wraps. */
  function Visited(current: nat, i: nat): (slot: nat)
    ensures slot < N_SESSIONS
  {
    (current - i) % U64 % N_SESSIONS
  }

  /** The losses of the sessions met in the first `n` rounds. */
  function Losses(sessions: Ring, current: nat, n: nat): seq<real> {
    if n == 0 then []
    else
      var slot := sessions[Visited(current, n - 1)];
      var before := Losses(sessions, current, n - 1);
      if slot.Some? then before + [LossOf(slot.value)] else before
  }

  function Weight(k: nat): (w: real)
    ensures w > 0.0
  {
    if k == 0 then 9.0 else Weight(k - 1) / 3.0
  }

  function TotalWeight(n: nat): (w: real)
    ensures w >= 0.0 && (n > 0 ==> w > 0.0)
  {
    if n == 0 then 0.0 else TotalWeight(n - 1) + Weight(n - 1)
  }

  function Weighted(l: real, w: real): real {
    l * w
  }

  function WeightedSum(ls: seq<real>): real {
    if ls == [] then 0.0 else WeightedSum(ls[..|ls| - 1]) + Weighted(ls[|ls| - 1], Weight(|ls| - 1))
  }

  function WeightedMean(ls: seq<real>): real {
    if ls == [] then 0.0 else WeightedSum(ls) / TotalWeight(|ls|)
  }

  function EstimatedLoss(sessions: Ring, current: nat): real {
    WeightedMean(Losses(sessions, current, N_SESSIONS))
  }

  lemma SumAppend(ls: seq<real>, l: real)
    ensures WeightedSum(ls + [l]) == WeightedSum(ls) + Weighted(l, Weight(|ls|))
  {
    var xs := ls + [l];
    assert xs[..|xs| - 1] == ls && xs[|xs| - 1] == l;
  }

  // ---------------------------------------------------------------- a mean

  lemma {:induction false} SumAtLeast(ls: seq<real>, lo: real)
    requires forall i :: 0 <= i < |ls| ==> lo <= ls[i]
    ensures lo * TotalWeight(|ls|) <= WeightedSum(ls)
  {
    if ls != [] {
      var k := |ls| - 1;
      SumAtLeast(ls[..k], lo);
      OneMoreLow(lo, ls[k], TotalWeight(k), WeightedSum(ls[..k]), Weight(k));
    }
  }

  lemma {:induction false} SumAtMost(ls: seq<real>, hi: real)
    requires forall i :: 0 <= i < |ls| ==> ls[i] <= hi
    ensures WeightedSum(ls) <= hi * TotalWeight(|ls|)
  {
    if ls != [] {
      var k := |ls| - 1;
      SumAtMost(ls[..k], hi);
      OneMoreHigh(hi, ls[k], TotalWeight(k), WeightedSum(ls[..k]), Weight(k));
    }
  }

  lemma OneMoreLow(lo: real, l: real, total: real, sum: real, w: real)
    requires lo <= l && w > 0.0 && lo * total <= sum
    ensures lo * (total + w) <= sum + Weighted(l, w)
  {
    assert lo * w <= l * w;
    assert lo * (total + w) == lo * total + lo * w;
  }

  lemma OneMoreHigh(hi: real, l: real, total: real, sum: real, w: real)
    requires l <= hi && w > 0.0 && sum <= hi * total
    ensures sum + Weighted(l, w) <= hi * (total + w)
  {
    assert l * w <= hi * w;
    assert hi * (total + w) == hi * total + hi * w;
  }

  lemma AtMostQuotient(a: real, b: real, w: real)
    requires w > 0.0
    ensures a * w <= b <==> a <= b / w
  {
    var q := b / w;
    assert q * w == b;
    assert (a - q) * w == a * w - b;
    assert a > q ==> (a - q) * w > 0.0;
    assert a <= q ==> (q - a) * w >= 0.0;
  }

  lemma AtLeastQuotient(a: real, b: real, w: real)
    requires w > 0.0
    ensures b <= a * w <==> b / w <= a
  {
    var q := b / w;
    assert q * w == b;
    assert (a - q) * w == a * w - b;
    assert a >= q ==> (a - q) * w >= 0.0;
    assert a < q ==> (q - a) * w > 0.0;
  }

  /** The estimate is a mean: it lies between any bounds of the losses. */
  lemma MeanBetween(ls: seq<real>, lo: real, hi: real)
    requires ls != [] && forall i :: 0 <= i < |ls| ==> lo <= ls[i] <= hi
    ensures lo <= WeightedMean(ls) <= hi
  {
    SumAtLeast(ls, lo);
    SumAtMost(ls, hi);
    AtMostQuotient(lo, WeightedSum(ls), TotalWeight(|ls|));
    AtLeastQuotient(hi, WeightedSum(ls), TotalWeight(|ls|));
  }

  /** One session's loss is a share exactly when it did not count more packets than
      it expects. */
  lemma LossIsShareIff(s: Session)
    ensures 0.0 <= LossOf(s) <= 1.0 <==> s.window.next == 0 || s.receiveCnt <= s.window.next
  {
    if s.window.next != 0 {
      var n, k := s.window.next as real, s.receiveCnt as real;
      AtLeastQuotient(1.0, k, n);
      AtMostQuotient(0.0, k, n);
    }
  }

  /** It is the packets that did not come, over those expected. */
  lemma LossCounts(s: Session)
    ensures s.window.next > 0 ==> LossOf(s) * s.window.next as real == (s.window.next - s.receiveCnt) as real
    ensures s.window.next == 0 ==> LossOf(s) == 0.0
  {
    if s.window.next > 0 {
      var n, k := s.window.next as real, s.receiveCnt as real;
      assert k / n * n == k;
      assert (1.0 - k / n) * n == n - k / n * n;
    }
  }

  predicate IsShare(l: real) {
    0.0 <= l <= 1.0
  }

  /** One session counts alone; a second weighs a third of the first and a third a
      ninth. */
  lemma FirstWeights(a: real, b: real, c: real)
    ensures WeightedMean([a]) == a
    ensures WeightedMean([a, b]) == (3.0 * a + b) / 4.0
    ensures WeightedMean([a, b, c]) == (9.0 * a + 3.0 * b + c) / 13.0
  {
    assert [a, b][..1] == [a] && [a, b, c][..2] == [a, b] && [a][..0] == [];
    assert Weight(0) == 9.0 && Weight(1) == 3.0 && Weight(2) == 1.0;
    assert TotalWeight(1) == 9.0 && TotalWeight(2) == 12.0 && TotalWeight(3) == 13.0;
    assert WeightedSum([a]) == a * 9.0;
    assert WeightedSum([a, b]) == a * 9.0 + b * 3.0;
    assert WeightedSum([a, b, c]) == a * 9.0 + b * 3.0 + c * 1.0;
  }

  /** Each weight is a third of the one before. */
  lemma {:induction false} WeightsFall(k: nat)
    ensures Weight(k + 1) * 3.0 == Weight(k) && Weight(0) == 9.0
  {
  }

  /** The slots are visited backwards from the current one, each of them once. */
  lemma VisitedBackwards(current: u64, i: nat)
    requires i < 8
    ensures Visited(current, i) == (current + 8 - i) % 8
  {
    if current >= i {
      assert (current - i) % U64 == current - i;
    } else {
      assert (current - i) % U64 == current - i + U64;
    }
  }

  // ---------------------------------------------------------------- over runs

  /** The packet count is the number of distinct accepted counters. */
  ghost predicate Counted(s: Session) {
    s.window.Valid() && s.receiveCnt == |s.window.accepted|
  }

  ghost predicate AllCounted(t: Tunn) {
    forall i :: 0 <= i < N_SESSIONS && t.sessions[i].Some? ==> Counted(t.sessions[i].value)
  }

  /** Each session left has the counts it had. */
  predicate SameCounts(t: Tunn, t': Tunn) {
    forall i :: 0 <= i < N_SESSIONS && t'.sessions[i].Some? ==>
      && t.sessions[i].Some?
      && t'.sessions[i].value.window == t.sessions[i].value.window
      && t'.sessions[i].value.receiveCnt == t.sessions[i].value.receiveCnt
  }

  lemma FormatInitiationCounts(c: Suite, t: Tunn, e: Env, force: bool)
    ensures FormatInitiation(c, t, e, force).0.sessions == t.sessions
  {
  }

  lemma EncapsulateCounts(c: Suite, t: Tunn, src: Bytes, e: Env)
    ensures SameCounts(t, Encapsulate(c, t, src, e).0)
  {
    FormatInitiationCounts(c, t.(queue := Enqueue(t.queue, src)), e, false);
  }

  lemma IdleCounts(c: Suite, t: Tunn, e: Env)
    ensures SameCounts(t, UpdateWhenIdle(c, t, e).0)
  {
    FormatInitiationCounts(c, t.(timers := HeardTimers(t.timers, e.now)), e, true);
    EncapsulateCounts(c, t.(timers := IdleTimers(t.timers, e.now)), [], e);
  }

  lemma InFlightCounts(c: Suite, t: Tunn, e: Env, sent: nat)
    ensures SameCounts(t, UpdateInFlight(c, t, e, sent).0)
  {
    FormatInitiationCounts(c, t, e, true);
  }

  lemma AdvanceCounts(t: Tunn, now: nat)
    ensures SameCounts(t, Advance(t, now))
  {
    forall i | 0 <= i < N_SESSIONS ensures Advance(t, now).sessions[i] in {None, t.sessions[i]} {
      SweepByAge(t, now, i);
    }
  }

  lemma AdvancedCounts(c: Suite, t: Tunn, e: Env)
    ensures SameCounts(t, UpdateAdvanced(c, t, e).0)
  {
    var t2 := DropOldCookie(t, e.now);
    if t2.handshake.Timer().Some? {
      InFlightCounts(c, t2, e, t2.handshake.Timer().value);
    } else {
      IdleCounts(c, t2, e);
    }
  }

  lemma UpdateCounts(c: Suite, t: Tunn, e: Env)
    ensures SameCounts(t, UpdateTimers(c, t, e).0)
  {
    AdvanceCounts(t, e.now);
    AdvancedCounts(c, Advance(t, e.now), e);
  }

  lemma ReceiveCounts(c: Suite, s: Session, m: Packet)
    requires Counted(s) && m.PacketData? && (ReceivePacketData(c, s, m).1.Ok? ==> m.counter + 1 < U64)
    ensures Counted(ReceivePacketData(c, s, m).0)
  {
    if ReceivePacketData(c, s, m).1.Ok? {
      MarkCounts(s, m.counter);
    }
  }

  lemma MarkCounts(s: Session, counter: u64)
    requires Counted(s) && MarkReceived(s, counter).1.Ok? && counter + 1 < U64
    ensures Counted(MarkReceived(s, counter).0)
  {
    var w' := MarkReceived(s, counter).0.window;
    assert counter !in s.window.accepted && s.window.Kept() == s.window.accepted;
    assert w'.accepted == s.window.accepted + {counter};
    RR.BelowCount(w'.accepted, w'.next);
  }

  lemma AnswerCounts(c: Suite, t: Tunn, m: Packet, e: Env)
    requires AllCounted(t) && e.dstLen >= HANDSHAKE_INIT_SZ && m.HandshakeInit?
    ensures AllCounted(HandleHandshakeInit(c, t, m, e).0)
  {
    AnswerShape(c, t.handshake, m, e);
  }

  lemma ResponseCounts(c: Suite, t: Tunn, m: Packet, e: Env)
    requires AllCounted(t) && HR.Inv(t.handshake) && m.HandshakeResponse?
    ensures AllCounted(HandleHandshakeResponse(c, t, m, e).0)
  {
    ResponseShape(c, t.handshake, m, e.now);
  }

  lemma DataCounts(c: Suite, t: Tunn, m: Packet)
    requires AllCounted(t) && m.PacketData? && AcceptsBelowLast(c, t, Handle(m))
    ensures AllCounted(HandleData(c, t, m).0)
  {
    var slot := t.sessions[m.receiverIdx % N_SESSIONS];
    if slot.Some? {
      ReceiveCounts(c, slot.value, m);
    }
  }

  lemma HandleCounts(c: Suite, t: Tunn, m: Packet, e: Env)
    requires AllCounted(t) && HR.Inv(t.handshake) && e.dstLen >= HANDSHAKE_INIT_SZ
    requires AcceptsBelowLast(c, t, Handle(m))
    ensures AllCounted(HandleVerifiedPacket(c, t, m, e).0)
  {
    match m
    case HandshakeInit(_, _, _, _) => AnswerCounts(c, t, m, e);
    case HandshakeResponse(_, _, _, _) => ResponseCounts(c, t, m, e);
    case PacketCookieReply(_, _, _) =>
    case PacketData(_, _, _) => DataCounts(c, t, m);
  }

  lemma CallCounts(c: Suite, t: Tunn, op: Op, e: Env)
    requires AllCounted(t) && HR.Inv(t.handshake) && e.dstLen >= HANDSHAKE_INIT_SZ
    requires AcceptsBelowLast(c, t, op)
    ensures AllCounted(Call(c, t, op, e).0)
  {
    match op
    case Send(src) => EncapsulateCounts(c, t, src, e);
    case Flush => if t.queue != [] { EncapsulateCounts(c, t.(queue := t.queue[1..]), t.queue[0], e); }
    case Update => UpdateCounts(c, t, e);
    case StartHandshake(force) => FormatInitiationCounts(c, t, e, force);
    case NewKey(_, _) =>
    case Handle(m) => HandleCounts(c, t, m, e);
  }

  lemma {:induction false} RunCounts(c: Suite, t0: Tunn, ms: seq<Moment>)
    requires New(c, t0) && Orderly(ms) && LastNeverAccepted(c, t0, ms)
    ensures AllCounted(Run(c, t0, ms))
  {
    if ms != [] {
      var before, m := ms[..|ms| - 1], ms[|ms| - 1];
      LastCallFinds(c, t0, ms);
      NeverAcceptedBefore(c, t0, ms);
      RunCounts(c, t0, before);
      CallCounts(c, Run(c, t0, before), m.op, m.env);
    }
  }

  lemma {:induction false} LossesAreShares(t: Tunn, n: nat)
    requires AllCounted(t)
    ensures forall i :: 0 <= i < |Losses(t.sessions, t.current, n)| ==>
              0.0 <= Losses(t.sessions, t.current, n)[i] <= 1.0
  {
    if n > 0 {
      LossesAreShares(t, n - 1);
      var slot := t.sessions[Visited(t.current, n - 1)];
      if slot.Some? {
        RR.BelowCount(slot.value.window.accepted, slot.value.window.next);
        LossIsShareIff(slot.value);
      }
    }
  }

  /** Over every run of a tunnel the reported loss is a share between 0 and 1, as
      long as no session accepts the last counter. */
  lemma LossIsShare(c: Suite, t0: Tunn, ms: seq<Moment>)
    requires New(c, t0) && Orderly(ms) && LastNeverAccepted(c, t0, ms)
    ensures 0.0 <= EstimatedLoss(Run(c, t0, ms).sessions, Run(c, t0, ms).current) <= 1.0
  {
    var t := Run(c, t0, ms);
    RunCounts(c, t0, ms);
    LossesAreShares(t, N_SESSIONS);
    if Losses(t.sessions, t.current, N_SESSIONS) != [] {
      MeanBetween(Losses(t.sessions, t.current, N_SESSIONS), 0.0, 1.0);
    }
  }

  /** Two more packets on a session: the loss stays a share whatever the second one
      is, exactly when the first is not the last counter. */
  lemma LossStaysShareIff(s: Session, counter: u64)
    requires Counted(s) && MarkReceived(s, counter).1.Ok?
    ensures (forall next: u64 :: IsShare(LossOf(MarkReceived(MarkReceived(s, counter).0, next).0))) <==>
              counter + 1 < U64
  {
    var s1 := MarkReceived(s, counter).0;
    if counter + 1 < U64 {
      MarkCounts(s, counter);
      forall next: u64 ensures IsShare(LossOf(MarkReceived(s1, next).0)) {
        OneMoreShare(s1, next);
      }
    } else {
      ZeroAfterLast(s);
      LossIsShareIff(MarkReceived(s1, 0).0);
      assert !IsShare(LossOf(MarkReceived(s1, 0).0));
    }
  }

  lemma OneMoreShare(s: Session, counter: u64)
    requires Counted(s)
    ensures IsShare(LossOf(MarkReceived(s, counter).0))
  {
    var s' := MarkReceived(s, counter).0;
    if MarkReceived(s, counter).1.Ok? && counter + 1 < U64 {
      MarkCounts(s, counter);
    }
    LossIsShareIff(s');
    if Counted(s') {
      RR.BelowCount(s'.window.accepted, s'.window.next);
    }
  }

  /** Accepting the last counter takes `next` back to zero; with the count left
      alone, the next packet makes more received than expected. */
  lemma ZeroAfterLast(s: Session)
    requires Counted(s) && MarkReceived(s, U64 - 1).1.Ok?
    ensures var s2 := MarkReceived(MarkReceived(s, U64 - 1).0, 0).0;
            s2.window.next == 1 && s2.receiveCnt == s.receiveCnt + 2
  {
    RR.BelowCount(s.window.accepted, s.window.next);
    assert (U64 - 1 + N_BITS) % U64 == N_BITS - 1;
  }

  /** A failing run: on a new session the last counter and then counter zero make
      the loss negative. */
  lemma NegativeLoss(i: u32, j: u32, rk: Key, sk: Key)
    ensures var s := MarkReceived(MarkReceived(NewSession(i, j, rk, sk), U64 - 1).0, 0).0;
            LossOf(s) == -1.0
  {
    var s0 := NewSession(i, j, rk, sk);
    assert (U64 - 1 + N_BITS) % U64 == N_BITS - 1;
    assert MarkReceived(s0, U64 - 1).1.Ok?;
    ZeroAfterLast(s0);
  }
}
