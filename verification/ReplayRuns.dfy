/** What the anti-replay checks promise over whole runs.  A session may be driven
    by any number of threads: each takes the lock for the quick check, decrypts
    without it, then takes it again to mark (noise/session.rs,
    `receive_packet_data`). */
module ReplayRuns {
  import opened Common
  import opened Replay

  /** `pending` holds the counter each thread is decrypting; `log` is the history
      of accepted counters. */
  datatype Receiver = Receiver(window: Window, receiveCnt: nat, pending: map<nat, u64>, log: seq<u64>)

  datatype Event =
    | QuickCheck(thread: nat, counter: u64)  // under the lock, before decryption
    | Decrypted(thread: nat)                 // decryption succeeded: mark under the lock
    | Undecryptable(thread: nat)             // decryption failed

  const InitialReceiver := Receiver(EmptyWindow, 0, map[], [])

  /** `receiving_counter_mark`. */
  function MarkLocked(r: Receiver, counter: u64): Receiver {
    var (w, res) := Mark(r.window, counter);
    if res.Ok? then r.(window := w, receiveCnt := r.receiveCnt + 1, log := r.log + [counter]) else r
  }

  function Step(r: Receiver, e: Event): Receiver {
    match e
    case QuickCheck(t, c) =>
      if t !in r.pending && WillAccept(r.window, c).Ok? then r.(pending := r.pending[t := c]) else r
    case Decrypted(t) =>
      if t in r.pending then MarkLocked(r, r.pending[t]).(pending := r.pending - {t}) else r
    case Undecryptable(t) =>
      r.(pending := r.pending - {t})
  }

  function Run(es: seq<Event>): Receiver {
    if es == [] then InitialReceiver else Step(Run(es[..|es| - 1]), es[|es| - 1])
  }

  const LAST_COUNTER: u64 := U64 - 1

  ghost predicate Inv(r: Receiver) {
    && r.window.Valid()
    && (forall c :: c in r.window.accepted <==> c in r.log)
    && NoDuplicates(r.log)
    && r.receiveCnt == |r.log| == |r.window.accepted|
  }

  lemma MarkKeepsInv(r: Receiver, counter: u64)
    requires Inv(r) && (Mark(r.window, counter).1.Ok? ==> counter != LAST_COUNTER)
    ensures Inv(MarkLocked(r, counter))
  {
    var r' := MarkLocked(r, counter);
    if r' != r {
      assert counter !in r.window.accepted && r.window.Kept() == r.window.accepted;
      assert |r.window.accepted + {counter}| == |r.window.accepted| + 1;
    }
  }

  /** As long as the last counter, 2^64 - 1, has not been accepted; arriving is
      harmless. */
  lemma {:induction false} RunKeepsInv(es: seq<Event>)
    requires LAST_COUNTER !in Run(es).log
    ensures Inv(Run(es))
  {
    if es != [] {
      var r, e := Run(es[..|es| - 1]), es[|es| - 1];
      assert forall c :: c in r.log ==> c in Run(es).log;
      RunKeepsInv(es[..|es| - 1]);
      if e.Decrypted? && e.thread in r.pending {
        var c := r.pending[e.thread];
        assert Mark(r.window, c).1.Ok? ==> c in Run(es).log;
        MarkKeepsInv(r, c);
      }
    }
  }

  lemma {:induction false} BelowCount(s: set<nat>, n: nat)
    requires forall x :: x in s ==> x < n
    ensures |s| <= n
  {
    if n > 0 {
      BelowCount(s - {n - 1}, n - 1);
    } else {
      assert s == {};
    }
  }

  /** Replay safety: however the threads interleave, no counter is accepted
      twice; the packet count is the number of distinct accepted counters and
      never exceeds the number of packets expected.  All this until the last
      counter is accepted. */
  lemma ReplaySafety(es: seq<Event>)
    requires LAST_COUNTER !in Run(es).log
    ensures NoDuplicates(Run(es).log)
    ensures Run(es).window.accepted == set c | c in Run(es).log
    ensures Run(es).receiveCnt == |Run(es).window.accepted| <= Run(es).window.next
  {
    RunKeepsInv(es);
    BelowCount(Run(es).window.accepted, Run(es).window.next);
  }

  /** The guard of the mark lets the counter through.  Within 1024 of the end of the
      counter space its sum wraps. */
  predicate InReach(w: Window, c: u64) {
    if c + N_BITS < U64 then w.next <= c + N_BITS else w.next <= c + N_BITS - U64
  }

  /** Exactly which counters the two checks let through.  Away from the end of the
      counter space both accept precisely the unseen counters at most 1024 behind
      `next`.  Within 1024 of it the quick check refuses every counter behind `next`,
      seen or not, and the mark also those whose wrapped sum is behind `next`. */
  lemma AcceptedCounters(w: Window, c: u64)
    requires w.Valid()
    ensures WillAccept(w, c).Ok? <==>
              c !in w.accepted && w.next <= if c + N_BITS < U64 then c + N_BITS else c
    ensures Mark(w, c).1.Ok? <==> c !in w.accepted && InReach(w, c)
    ensures WillAccept(w, c).Ok? && Mark(w, c).1.Ok? <==> c !in w.accepted && InReach(w, c)
  {
    if c + N_BITS >= U64 {
      assert (c + N_BITS) % U64 == c + N_BITS - U64;
    }
  }

  /** Accepting a counter keeps every accepted counter below `next`, hence
      refused, exactly when it is not the last one. */
  lemma MarkKeepsValidIff(w: Window, c: u64)
    requires w.Valid() && Mark(w, c).1.Ok?
    ensures Mark(w, c).0.Valid() <==> c != LAST_COUNTER
    ensures Mark(Mark(w, c).0, c).1.Err? <==> c != LAST_COUNTER
  {
    assert c + N_BITS >= U64 ==> (c + N_BITS) % U64 == c + N_BITS - U64;
    assert c in Mark(w, c).0.accepted;
  }

  /** Everything accepted so far would be refused now. */
  ghost predicate AllRefused(r: Receiver) {
    forall c :: c in r.log ==> Mark(r.window, c).1.Err?
  }

  lemma InvRefusesAll(r: Receiver)
    requires Inv(r)
    ensures AllRefused(r)
  {
  }

  lemma {:induction false} LastCounterReopens(es: seq<Event>) returns (i: nat)
    requires LAST_COUNTER in Run(es).log
    ensures i <= |es| && !AllRefused(Run(es[..i]))
  {
    var n := |es| - 1;
    var r := Run(es[..n]);
    if LAST_COUNTER in r.log {
      i := LastCounterReopens(es[..n]);
      assert es[..n][..i] == es[..i];
    } else {
      RunKeepsInv(es[..n]);
      i := |es|;
      assert es[..i] == es;
      MarkKeepsValidIff(r.window, LAST_COUNTER);
    }
  }

  /** Over a whole run: every counter once accepted stays refused, at every point
      of the run, if and only if the last counter is never accepted.  Accepting
      it wraps `next` to zero and reopens them all. */
  lemma ReplayRefusedIff(es: seq<Event>)
    ensures (forall i :: 0 <= i <= |es| ==> AllRefused(Run(es[..i]))) <==> LAST_COUNTER !in Run(es).log
  {
    if LAST_COUNTER in Run(es).log {
      var i := LastCounterReopens(es);
    } else {
      forall i | 0 <= i <= |es| ensures AllRefused(Run(es[..i])) {
        LogGrows(es, i);
        RunKeepsInv(es[..i]);
        InvRefusesAll(Run(es[..i]));
      }
    }
  }

  lemma {:induction false} LogGrows(es: seq<Event>, i: nat)
    requires i <= |es|
    ensures forall c :: c in Run(es[..i]).log ==> c in Run(es).log
  {
    if i == |es| {
      assert es[..i] == es;
    } else {
      LogGrows(es[..|es| - 1], i);
      assert es[..|es| - 1][..i] == es[..i];
    }
  }

  /** A counter at or past `next` that both checks accept. */
  lemma Advances(r: Receiver, c: u64)
    requires r.window.next <= c && InReach(r.window, c)
    ensures WillAccept(r.window, c).Ok? && Mark(r.window, c).1.Ok?
    ensures MarkLocked(r, c).window.next == (c + 1) % U64
    ensures MarkLocked(r, c).log == r.log + [c] && MarkLocked(r, c).pending == r.pending
  {
    assert c + N_BITS >= U64 ==> (c + N_BITS) % U64 == c + N_BITS - U64;
  }

  /** A failing run: the last counter, as a first packet, is accepted twice. */
  lemma LastCounterReplayed()
    ensures Run(InTurn([LAST_COUNTER, LAST_COUNTER])).log == [LAST_COUNTER, LAST_COUNTER]
  {
    var c := LAST_COUNTER;
    Advances(InitialReceiver, c);
    Accepts([], c, InitialReceiver);
    assert [] + [c] == [c] && [c] + [c] == [c, c];
    var r1 := MarkLocked(InitialReceiver, c);
    Advances(r1, c);
    Accepts([c], c, r1);
    var cs := [c] + [c];
    assert cs == [LAST_COUNTER, LAST_COUNTER];
    assert Run(InTurn(cs)).log == r1.log + [c];
  }

  /** Another: after the last counter an earlier one is accepted again. */
  lemma EarlierCounterReplayed()
    ensures Run(InTurn([5, LAST_COUNTER, 5])).log == [5, LAST_COUNTER, 5]
  {
    var c := LAST_COUNTER;
    Advances(InitialReceiver, 5);
    Accepts([], 5, InitialReceiver);
    assert [] + [5] == [5] && [5] + [c] == [5, c] && [5, c] + [5] == [5, c, 5];
    var r1 := MarkLocked(InitialReceiver, 5);
    Advances(r1, c);
    Accepts([5], c, r1);
    var r2 := MarkLocked(r1, c);
    Advances(r2, 5);
    Accepts([5, c], 5, r2);
  }

  /** A packet lost: after counter 2^64 - 2 the one before it, unseen and two behind
      `next`, is refused before decryption. */
  lemma LateCounterLost()
    ensures WillAccept(Window(U64 - 1, {U64 - 2}), U64 - 3) == Err(InvalidCounter)
    ensures Run(InTurn([U64 - 2, U64 - 3])).log == [U64 - 2]
  {
    var c, d := U64 - 2, U64 - 3;
    Advances(InitialReceiver, c);
    Accepts([], c, InitialReceiver);
    assert [] + [c] == [c] && [c] + [d] == [c, d];
    var r := MarkLocked(InitialReceiver, c);
    assert (d + N_BITS) % U64 == d + N_BITS - U64;
    Refuses([c], d, r);
  }

  /** One thread checks and marks each counter in turn. */
  function InTurn(cs: seq<u64>): seq<Event> {
    if cs == [] then [] else InTurn(cs[..|cs| - 1]) + [QuickCheck(0, cs[|cs| - 1]), Decrypted(0)]
  }

  lemma RunAppend(es: seq<Event>, e: Event)
    ensures Run(es + [e]) == Step(Run(es), e)
  {
    assert (es + [e])[..|es|] == es;
  }

  lemma InTurnAppend(cs: seq<u64>, c: u64)
    ensures InTurn(cs + [c]) == InTurn(cs) + [QuickCheck(0, c)] + [Decrypted(0)]
  {
    assert (cs + [c])[..|cs|] == cs;
  }

  lemma Accepts(cs: seq<u64>, c: u64, r: Receiver)
    requires Run(InTurn(cs)) == r && r.pending == map[] && WillAccept(r.window, c).Ok? && Mark(r.window, c).1.Ok?
    ensures Run(InTurn(cs + [c])) == MarkLocked(r, c)
  {
    var e := QuickCheck(0, c);
    InTurnAppend(cs, c);
    RunAppend(InTurn(cs), e);
    RunAppend(InTurn(cs) + [e], Decrypted(0));
    assert MarkLocked(r.(pending := map[0 := c]), c) == MarkLocked(r, c).(pending := map[0 := c]);
    assert map[0 := c] - {0} == map[];
  }

  lemma Refuses(cs: seq<u64>, c: u64, r: Receiver)
    requires Run(InTurn(cs)) == r && r.pending == map[] && WillAccept(r.window, c).Err?
    ensures Run(InTurn(cs + [c])) == r
  {
    var e := QuickCheck(0, c);
    InTurnAppend(cs, c);
    RunAppend(InTurn(cs), e);
    RunAppend(InTurn(cs) + [e], Decrypted(0));
  }
}
