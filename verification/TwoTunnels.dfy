/** Two whole tunnels over a network that drops, duplicates and reorders: what one
    hands to its interface is what the other was given to send, and no more often. */
module TwoTunnels {
  import opened Common
  import opened Crypto
  import opened Sessions
  import opened IpPackets
  import opened Tunnel
  import opened TunnelRuns
  import opened Conservation
  import opened TunnelReplay
  import opened Emissions
  import opened SenderCounters
  import opened Wire

  // ---------------------------------------------------------------- counting

  /** What a list of optional things holds, each as often as it occurs. */
  function Somes<T>(s: seq<Option<T>>): multiset<T> {
    if s == [] then multiset{}
    else Somes(s[..|s| - 1]) + if s[|s| - 1].Some? then multiset{s[|s| - 1].value} else multiset{}
  }

  lemma {:induction false} SomesWithout<T>(s: seq<Option<T>>, i: nat)
    requires i < |s| && s[i].Some?
    ensures Somes(s) == Somes(s[i := None]) + multiset{s[i].value}
  {
    var n := |s| - 1;
    if i < n {
      SomesWithout(s[..n], i);
      assert s[i := None][..n] == s[..n][i := None];
    } else {
      assert s[i := None][..n] == s[..n];
    }
  }

  /** If every thing in `xs` comes from a place of its own in `ys`, then `xs` holds
      nothing more often than `ys`. */
  lemma {:induction false} OwnPlacesInclude<T>(xs: seq<Option<T>>, ys: seq<Option<T>>, from: seq<nat>)
    requires |from| == |xs|
    requires forall j :: 0 <= j < |xs| && xs[j].Some? ==> from[j] < |ys| && ys[from[j]] == xs[j]
    requires forall j, k :: 0 <= j < k < |xs| && xs[j].Some? && xs[k].Some? ==> from[j] != from[k]
    ensures Somes(xs) <= Somes(ys)
    decreases |xs|
  {
    if xs != [] {
      var n := |xs| - 1;
      if xs[n].Some? {
        SomesWithout(ys, from[n]);
        OwnPlacesInclude(xs[..n], ys[from[n] := None], from[..n]);
      } else {
        OwnPlacesInclude(xs[..n], ys, from[..n]);
      }
    }
  }

  // ---------------------------------------------------------------- the sender's side

  function ResultAt(c: Suite, t0: Tunn, ms: seq<Moment>, j: nat): TunnResult
    requires j < |ms|
  {
    Call(c, Run(c, t0, ms[..j]), ms[j].op, ms[j].env).1
  }

  /** The packet a call was given. */
  function GivenAt(m: Moment): Option<Bytes> {
    if m.op.Send? then Some(m.op.src) else None
  }

  function Givens(ms: seq<Moment>): seq<Option<Bytes>> {
    if ms == [] then [] else Givens(ms[..|ms| - 1]) + [GivenAt(ms[|ms| - 1])]
  }

  /** The plaintext a call sealed. */
  function SealedAt(c: Suite, t: Tunn, m: Moment): Option<Bytes> {
    if SealedBy(c, t, m).Some? then Some(SealedBy(c, t, m).value.plain) else None
  }

  function PlainAt(c: Suite, t0: Tunn, ms: seq<Moment>, i: nat): Option<Bytes>
    requires i < |ms|
  {
    SealedAt(c, Run(c, t0, ms[..i]), ms[i])
  }

  function Plains(c: Suite, t0: Tunn, ms: seq<Moment>): seq<Option<Bytes>> {
    seq(|ms|, i requires 0 <= i < |ms| => PlainAt(c, t0, ms, i))
  }

  lemma OneLonger<T>(xs: seq<T>, ys: seq<T>)
    requires |xs| == |ys| + 1 && forall i :: 0 <= i < |ys| ==> xs[i] == ys[i]
    ensures xs == ys + [xs[|ys|]]
  {
  }

  lemma PlainsIndex(c: Suite, t0: Tunn, ms: seq<Moment>, i: nat)
    requires i < |ms|
    ensures Plains(c, t0, ms)[i] == PlainAt(c, t0, ms, i)
  {
  }

  lemma PlainsPrefix(c: Suite, t0: Tunn, ms: seq<Moment>, i: nat)
    requires i < |ms| - 1
    ensures Plains(c, t0, ms)[i] == Plains(c, t0, ms[..|ms| - 1])[i]
  {
    PlainsIndex(c, t0, ms, i);
    PlainsIndex(c, t0, ms[..|ms| - 1], i);
    PlainAtPrefix(c, t0, ms, i, |ms| - 1);
  }

  lemma PlainsGrow(c: Suite, t0: Tunn, ms: seq<Moment>)
    requires ms != []
    ensures Plains(c, t0, ms) == Plains(c, t0, ms[..|ms| - 1]) + [PlainAt(c, t0, ms, |ms| - 1)]
  {
    var before := ms[..|ms| - 1];
    var xs, ys := Plains(c, t0, ms), Plains(c, t0, before);
    forall i | 0 <= i < |ys| ensures xs[i] == ys[i] {
      PlainsPrefix(c, t0, ms, i);
    }
    PlainsIndex(c, t0, ms, |ms| - 1);
    OneLonger(xs, ys);
  }

  lemma PlainAtPrefix(c: Suite, t0: Tunn, ms: seq<Moment>, i: nat, n: nat)
    requires i < n <= |ms|
    ensures PlainAt(c, t0, ms[..n], i) == PlainAt(c, t0, ms, i)
  {
    assert ms[..n][..i] == ms[..i];
  }

  lemma SomesAppend<T>(s: seq<Option<T>>, x: Option<T>)
    ensures Somes(s + [x]) == Somes(s) + if x.Some? then multiset{x.value} else multiset{}
  {
    assert (s + [x])[..|s|] == s;
  }

  lemma BookedGiven(c: Suite, l: Ledger, t: Tunn, m: Moment, p: Bytes)
    requires p != []
    ensures Book(c, l, t, m).given[p] == l.given[p] + if GivenAt(m) == Some(p) then 1 else 0
  {
  }

  lemma HandlesSealEmpty(c: Suite, t: Tunn, m: Moment)
    ensures m.op.Handle? && SealedBy(c, t, m).Some? ==> SealedBy(c, t, m).value.plain == []
  {
  }

  /** Apart from keepalives, the ledger counts what was sealed and what was given. */
  lemma {:induction false} LedgerCounts(c: Suite, t0: Tunn, ms: seq<Moment>, p: Bytes)
    requires p != []
    ensures Somes(Plains(c, t0, ms))[p] == multiset(Books(c, t0, ms).sent)[p]
    ensures Somes(Givens(ms))[p] == Books(c, t0, ms).given[p]
  {
    if ms != [] {
      var before, m := ms[..|ms| - 1], ms[|ms| - 1];
      var t, l := Run(c, t0, before), Books(c, t0, before);
      LedgerCounts(c, t0, before, p);
      BookedIsSealed(c, l, t, m);
      BookedGiven(c, l, t, m, p);
      HandlesSealEmpty(c, t, m);
      PlainsGrow(c, t0, ms);
      SomesAppend(Plains(c, t0, before), PlainAt(c, t0, ms, |ms| - 1));
      SomesAppend(Givens(before), GivenAt(m));
    }
  }

  /** No packet is sealed more often than it was given, through queueing, rotation
      and expiry. */
  lemma SealedAtMostGiven(c: Suite, t0: Tunn, ms: seq<Moment>, p: Bytes)
    requires New(c, t0) && Orderly(ms) && p != []
    ensures Somes(Plains(c, t0, ms))[p] <= Somes(Givens(ms))[p]
  {
    LedgerCounts(c, t0, ms, p);
    ConservationOverRuns(c, t0, ms);
  }

  // ---------------------------------------------------------------- the receiver's side

  /** The session that accepts at `j`, if one does. */
  function AcceptingAt(c: Suite, t0: Tunn, ms: seq<Moment>, j: nat): Option<Session>
    requires j < |ms|
  {
    Accepting(c, Run(c, t0, ms[..j]), ms[j].op)
  }

  /** The plaintext accepted at `j`. */
  function AcceptedPlain(c: Suite, t0: Tunn, ms: seq<Moment>, j: nat): Option<Bytes>
    requires j < |ms|
  {
    var s := AcceptingAt(c, t0, ms, j);
    if s.Some? then c.open(s.value.receiver, CounterNonce(ms[j].op.packet.counter), [], ms[j].op.packet.encrypted)
    else None
  }

  /** The IP packet handed to the interface at `j`, before it is cut. */
  function DeliveredAt(c: Suite, t0: Tunn, ms: seq<Moment>, j: nat): Option<Bytes>
    requires j < |ms|
  {
    if ResultAt(c, t0, ms, j).WriteToTunnel? then AcceptedPlain(c, t0, ms, j) else None
  }

  lemma AcceptedOpens(c: Suite, t: Tunn, op: Op)
    ensures Accepting(c, t, op).Some? ==>
              op.Handle? && op.packet.PacketData?
              && c.open(Accepting(c, t, op).value.receiver, CounterNonce(op.packet.counter), [],
                        op.packet.encrypted).Some?
  {
  }

  /** Only a handled data packet is delivered, and it is what it opens to. */
  lemma DeliveryUnwraps(c: Suite, t: Tunn, m: Moment)
    ensures var r := Call(c, t, m.op, m.env).1;
            r.WriteToTunnel? ==>
              && Accepting(c, t, m.op).Some? && m.op.Handle? && m.op.packet.PacketData?
              && var p := m.op.packet;
                 var plain := c.open(Accepting(c, t, m.op).value.receiver, CounterNonce(p.counter), [], p.encrypted);
                 plain.Some? && Unwraps(plain.value, r)
  {
    match m.op
    case Send(src) =>
    case Flush =>
    case Update => UpdateDeliversNothing(c, t, m.env);
    case StartHandshake(force) =>
    case NewKey(_, _) =>
    case Handle(p) =>
      DeliveryIsAccepted(c, t, p, m.env);
      if Accepting(c, t, m.op).Some? {
        ReadUnwraps(c, t, p);
      }
  }

  lemma UpdateDeliversNothing(c: Suite, t: Tunn, e: Env)
    ensures !UpdateTimers(c, t, e).1.WriteToTunnel?
  {
  }

  /** The record of the acceptance at `j`. */
  function AcceptanceAt(c: Suite, t0: Tunn, ms: seq<Moment>, j: nat): Acceptance
    requires j < |ms| && ms[j].op.Handle? && ms[j].op.packet.PacketData?
  {
    var i := ms[j].op.packet.receiverIdx % N_SESSIONS;
    Acceptance(i, Records(c, t0, ms[..j]).epochs[i], ms[j].op.packet.counter)
  }

  lemma AcceptedIsLogged(c: Suite, t0: Tunn, ms: seq<Moment>, j: nat)
    requires j < |ms| && AcceptingAt(c, t0, ms, j).Some?
    ensures ms[j].op.Handle? && ms[j].op.packet.PacketData?
    ensures Records(c, t0, ms[..j + 1]).log == Records(c, t0, ms[..j]).log + [AcceptanceAt(c, t0, ms, j)]
  {
    AcceptedOpens(c, Run(c, t0, ms[..j]), ms[j].op);
    assert ms[..j + 1][..j] == ms[..j] && ms[..j + 1][j] == ms[j];
  }

  /** The log before each call, and after the last. */
  function Logs(c: Suite, t0: Tunn, ms: seq<Moment>): seq<seq<Acceptance>> {
    seq(|ms| + 1, i requires 0 <= i <= |ms| => Records(c, t0, ms[..i]).log)
  }

  ghost predicate KeepsLogged(logs: seq<seq<Acceptance>>, i: nat)
    requires i + 1 < |logs|
  {
    forall x :: x in logs[i] ==> x in logs[i + 1]
  }

  lemma {:induction false} StaysLogged(logs: seq<seq<Acceptance>>, j: nat, k: nat, a: Acceptance)
    requires j <= k < |logs| && a in logs[j]
    requires forall i :: 0 <= i < |logs| - 1 ==> KeepsLogged(logs, i)
    ensures a in logs[k]
  {
    if j < k {
      StaysLogged(logs, j, k - 1, a);
      assert KeepsLogged(logs, k - 1);
    }
  }

  lemma LoggedLater(c: Suite, t0: Tunn, ms: seq<Moment>, j: nat, k: nat, a: Acceptance)
    requires j <= k <= |ms| && a in Logs(c, t0, ms)[j]
    ensures a in Logs(c, t0, ms)[k]
  {
    var logs := Logs(c, t0, ms);
    forall i | 0 <= i < |ms| ensures KeepsLogged(logs, i) {
      LogGrowsByOne(c, t0, ms, i);
    }
    StaysLogged(logs, j, k, a);
  }

  lemma LogGrowsByOne(c: Suite, t0: Tunn, ms: seq<Moment>, k: nat)
    requires k < |ms|
    ensures KeepsLogged(Logs(c, t0, ms), k)
  {
    assert ms[..k + 1][..k] == ms[..k] && ms[..k + 1][k] == ms[k];
    forall a | a in Records(c, t0, ms[..k]).log ensures a in Records(c, t0, ms[..k + 1]).log {
      NoteGrows(c, Records(c, t0, ms[..k]), Run(c, t0, ms[..k]), ms[k], a);
    }
  }

  lemma NoteGrows(c: Suite, r: Record, t: Tunn, m: Moment, a: Acceptance)
    requires a in r.log
    ensures a in Note(c, r, t, m).log
  {
  }

  lemma NeverAcceptedUpTo(c: Suite, t0: Tunn, ms: seq<Moment>, k: nat)
    requires k <= |ms| && LastNeverAccepted(c, t0, ms)
    ensures LastNeverAccepted(c, t0, ms[..k])
  {
    forall i | 0 <= i < k ensures AcceptsBelowLast(c, Run(c, t0, ms[..k][..i]), ms[..k][i].op) {
      assert ms[..k][..i] == ms[..i];
    }
  }

  lemma NewlyLogged(c: Suite, t0: Tunn, ms: seq<Moment>, k: nat)
    requires New(c, t0) && Orderly(ms) && LastNeverAccepted(c, t0, ms)
    requires k < |ms| && AcceptingAt(c, t0, ms, k).Some?
    ensures ms[k].op.Handle? && ms[k].op.packet.PacketData?
    ensures AcceptanceAt(c, t0, ms, k) !in Records(c, t0, ms[..k]).log
  {
    AcceptedIsLogged(c, t0, ms, k);
    LogDistinctUpTo(c, t0, ms, k + 1);
    LastIsNew(Records(c, t0, ms[..k]).log, AcceptanceAt(c, t0, ms, k));
  }

  /** Two acceptances are never the same. */
  lemma AcceptancesDiffer(c: Suite, t0: Tunn, ms: seq<Moment>, j: nat, k: nat)
    requires New(c, t0) && Orderly(ms) && LastNeverAccepted(c, t0, ms)
    requires j < k < |ms| && AcceptingAt(c, t0, ms, j).Some? && AcceptingAt(c, t0, ms, k).Some?
    ensures ms[j].op.Handle? && ms[j].op.packet.PacketData? && ms[k].op.Handle? && ms[k].op.packet.PacketData?
    ensures AcceptanceAt(c, t0, ms, j) != AcceptanceAt(c, t0, ms, k)
  {
    AcceptedIsLogged(c, t0, ms, j);
    LoggedLater(c, t0, ms, j + 1, k, AcceptanceAt(c, t0, ms, j));
    NewlyLogged(c, t0, ms, k);
  }

  lemma LogDistinctUpTo(c: Suite, t0: Tunn, ms: seq<Moment>, k: nat)
    requires New(c, t0) && Orderly(ms) && LastNeverAccepted(c, t0, ms) && k <= |ms|
    ensures NoDuplicates(Records(c, t0, ms[..k]).log)
  {
    NeverAcceptedUpTo(c, t0, ms, k);
    OrderlyUpTo(ms, k);
    TunnelReplaySafety(c, t0, ms[..k]);
  }

  lemma OrderlyUpTo(ms: seq<Moment>, k: nat)
    requires Orderly(ms) && k <= |ms|
    ensures Orderly(ms[..k])
  {
  }

  lemma LastIsNew<T>(s: seq<T>, x: T)
    requires NoDuplicates(s + [x])
    ensures x !in s
  {
    forall i | 0 <= i < |s| ensures s[i] != x {
      assert (s + [x])[i] == s[i] && (s + [x])[|s|] == x;
    }
  }

  // ---------------------------------------------------------------- between them

  /** The call of the sender at `i` put the packet on the wire. */
  predicate Emits(c: Suite, a0: Tunn, sends: seq<Moment>, i: nat, p: Packet)
    requires i < |sends|
  {
    DataOf(ResultAt(c, a0, sends, i)) == Some(p)
  }

  /** The network: every data packet handled was read from a datagram the other
      side emitted, however often and in whatever order. */
  ghost predicate FromOther(c: Suite, a0: Tunn, sends: seq<Moment>, m: Moment) {
    m.op.Handle? && m.op.packet.PacketData? ==>
      exists i :: 0 <= i < |sends| && Emits(c, a0, sends, i, m.op.packet)
  }

  /** No packet of the run sealed under one key opens under another. */
  ghost predicate KeysApart(c: Suite, a0: Tunn, sends: seq<Moment>, key: Key) {
    forall i :: 0 <= i < |sends| ==> OpensOnlyOwn(c, SealedBy(c, Run(c, a0, sends[..i]), sends[i]), key)
  }

  ghost predicate OpensOnlyOwn(c: Suite, x: Option<Sealing>, key: Key) {
    x.Some? && c.open(key, CounterNonce(x.value.counter), [], x.value.OnTheWire(c).encrypted).Some? ==>
      x.value.key == key
  }

  /** The assumptions on the network and on the keys, for a whole run of the
      receiver. */
  ghost predicate Faithful(c: Suite, a0: Tunn, sends: seq<Moment>, b0: Tunn, recvs: seq<Moment>) {
    forall j :: 0 <= j < |recvs| ==>
      && FromOther(c, a0, sends, recvs[j])
      && (AcceptingAt(c, b0, recvs, j).Some? ==> KeysApart(c, a0, sends, AcceptingAt(c, b0, recvs, j).value.receiver))
  }

  /** Different sessions of the receiver have different receiving keys. */
  ghost predicate OwnKeys(c: Suite, b0: Tunn, recvs: seq<Moment>) {
    forall j, k :: 0 <= j < k < |recvs| && AcceptingAt(c, b0, recvs, j).Some? && AcceptingAt(c, b0, recvs, k).Some? ==>
      KeyOfItsOwn(c, b0, recvs, j, k)
  }

  ghost predicate KeyOfItsOwn(c: Suite, b0: Tunn, recvs: seq<Moment>, j: nat, k: nat)
    requires j < |recvs| && k < |recvs| && AcceptingAt(c, b0, recvs, j).Some? && AcceptingAt(c, b0, recvs, k).Some?
  {
    AcceptingAt(c, b0, recvs, j).value.receiver == AcceptingAt(c, b0, recvs, k).value.receiver ==>
      SameSession(c, b0, recvs, j, k)
  }

  ghost predicate SameSession(c: Suite, b0: Tunn, recvs: seq<Moment>, j: nat, k: nat)
    requires j < |recvs| && k < |recvs|
  {
    && recvs[j].op.Handle? && recvs[j].op.packet.PacketData? && recvs[k].op.Handle? && recvs[k].op.packet.PacketData?
    && var a, b := AcceptanceAt(c, b0, recvs, j), AcceptanceAt(c, b0, recvs, k);
       a.slot == b.slot && a.epoch == b.epoch
  }

  /** An emitted packet that a session accepts opens to what was sealed, under the
      key it was sealed with. */
  lemma AcceptedWasSealed(c: Suite, a0: Tunn, sends: seq<Moment>, i: nat, b: Tunn, op: Op)
    requires c.Lawful() && Orderly(sends) && i < |sends|
    requires op.Handle? && op.packet.PacketData? && Emits(c, a0, sends, i, op.packet)
    requires Accepting(c, b, op).Some? && KeysApart(c, a0, sends, Accepting(c, b, op).value.receiver)
    ensures var x := SealedBy(c, Run(c, a0, sends[..i]), sends[i]);
            var key := Accepting(c, b, op).value.receiver;
            && x.Some? && op.packet == x.value.OnTheWire(c) && x.value.key == key
            && c.open(key, CounterNonce(op.packet.counter), [], op.packet.encrypted) == Some(x.value.plain)
  {
    var t := Run(c, a0, sends[..i]);
    CallEmits(c, t, sends[i]);
    AcceptedOpens(c, b, op);
    assert OpensOnlyOwn(c, SealedBy(c, t, sends[i]), Accepting(c, b, op).value.receiver);
  }

  /** Which call of the sender an acceptance comes from. */
  ghost function Source(c: Suite, a0: Tunn, sends: seq<Moment>, m: Moment): (i: nat)
    ensures m.op.Handle? && m.op.packet.PacketData? && FromOther(c, a0, sends, m) ==>
              i < |sends| && Emits(c, a0, sends, i, m.op.packet)
  {
    if m.op.Handle? && m.op.packet.PacketData? && FromOther(c, a0, sends, m) then
      var i: nat :| i < |sends| && Emits(c, a0, sends, i, m.op.packet);
      i
    else 0
  }

  lemma SourceSealed(c: Suite, a0: Tunn, sends: seq<Moment>, b0: Tunn, recvs: seq<Moment>, j: nat)
    requires c.Lawful() && Orderly(sends) && Faithful(c, a0, sends, b0, recvs)
    requires j < |recvs| && AcceptingAt(c, b0, recvs, j).Some?
    ensures var i := Source(c, a0, sends, recvs[j]);
            && i < |sends| && recvs[j].op.Handle? && recvs[j].op.packet.PacketData?
            && var x := SealedBy(c, Run(c, a0, sends[..i]), sends[i]);
            && x.Some? && recvs[j].op.packet == x.value.OnTheWire(c)
            && x.value.key == AcceptingAt(c, b0, recvs, j).value.receiver
            && AcceptedPlain(c, b0, recvs, j) == Some(x.value.plain)
  {
    var b := Run(c, b0, recvs[..j]);
    AcceptedOpens(c, b, recvs[j].op);
    AcceptedWasSealed(c, a0, sends, Source(c, a0, sends, recvs[j]), b, recvs[j].op);
  }

  lemma SourcePlain(c: Suite, a0: Tunn, sends: seq<Moment>, b0: Tunn, recvs: seq<Moment>, j: nat)
    requires c.Lawful() && Orderly(sends) && Faithful(c, a0, sends, b0, recvs)
    requires j < |recvs| && AcceptingAt(c, b0, recvs, j).Some?
    ensures var i := Source(c, a0, sends, recvs[j]);
            i < |sends| && AcceptedPlain(c, b0, recvs, j) == PlainAt(c, a0, sends, i)
  {
    SourceSealed(c, a0, sends, b0, recvs, j);
  }

  /** The sender never gets as far as the last counter. */
  lemma LastIsNeverAccepted(c: Suite, a0: Tunn, sends: seq<Moment>, b0: Tunn, recvs: seq<Moment>)
    requires c.Lawful() && New(c, a0) && Orderly(sends) && |sends| < U64 && Faithful(c, a0, sends, b0, recvs)
    ensures LastNeverAccepted(c, b0, recvs)
  {
    forall j | 0 <= j < |recvs| ensures AcceptsBelowLast(c, Run(c, b0, recvs[..j]), recvs[j].op) {
      if AcceptingAt(c, b0, recvs, j).Some? {
        SourceSealed(c, a0, sends, b0, recvs, j);
        SealedEarly(c, a0, sends, Source(c, a0, sends, recvs[j]));
      }
    }
  }

  lemma SealedEarly(c: Suite, a0: Tunn, sends: seq<Moment>, i: nat)
    requires New(c, a0) && Orderly(sends) && |sends| < U64 && i < |sends|
    ensures SealedLow(c, Run(c, a0, sends[..i]), sends[i], i)
  {
    OrderlyUpTo(sends, i + 1);
    RunKeepsSeals(c, a0, sends[..i + 1]);
    assert sends[..i + 1][..i] == sends[..i] && sends[..i + 1][i] == sends[i];
  }

  /** Two acceptances never come from one emission. */
  lemma SourcesDiffer(c: Suite, a0: Tunn, sends: seq<Moment>, b0: Tunn, recvs: seq<Moment>, j: nat, k: nat)
    requires c.Lawful() && Orderly(sends) && Faithful(c, a0, sends, b0, recvs)
    requires New(c, b0) && Orderly(recvs) && LastNeverAccepted(c, b0, recvs) && OwnKeys(c, b0, recvs)
    requires j < k < |recvs| && AcceptingAt(c, b0, recvs, j).Some? && AcceptingAt(c, b0, recvs, k).Some?
    ensures Source(c, a0, sends, recvs[j]) != Source(c, a0, sends, recvs[k])
  {
    SourceSealed(c, a0, sends, b0, recvs, j);
    SourceSealed(c, a0, sends, b0, recvs, k);
    if Source(c, a0, sends, recvs[j]) == Source(c, a0, sends, recvs[k]) {
      assert KeyOfItsOwn(c, b0, recvs, j, k);
      AcceptancesDiffer(c, b0, recvs, j, k);
      assert false;
    }
  }

  ghost function Accepteds(c: Suite, b0: Tunn, recvs: seq<Moment>): seq<Option<Bytes>> {
    seq(|recvs|, j requires 0 <= j < |recvs| => AcceptedPlain(c, b0, recvs, j))
  }

  ghost function Delivereds(c: Suite, b0: Tunn, recvs: seq<Moment>): seq<Option<Bytes>> {
    seq(|recvs|, j requires 0 <= j < |recvs| => DeliveredAt(c, b0, recvs, j))
  }

  /** Nothing is accepted more often than it was sealed, and what is delivered is
      among it. */
  lemma AcceptedAtMostSealed(c: Suite, a0: Tunn, sends: seq<Moment>, b0: Tunn, recvs: seq<Moment>,
                             xs: seq<Option<Bytes>>)
    requires c.Lawful() && Orderly(sends) && Faithful(c, a0, sends, b0, recvs)
    requires New(c, b0) && Orderly(recvs) && LastNeverAccepted(c, b0, recvs) && OwnKeys(c, b0, recvs)
    requires |xs| == |recvs|
    requires forall j :: 0 <= j < |recvs| && xs[j].Some? ==>
               AcceptingAt(c, b0, recvs, j).Some? && xs[j] == AcceptedPlain(c, b0, recvs, j)
    ensures Somes(xs) <= Somes(Plains(c, a0, sends))
  {
    var from := Sources(c, a0, sends, recvs);
    forall j | 0 <= j < |xs| && xs[j].Some?
      ensures from[j] < |Plains(c, a0, sends)| && Plains(c, a0, sends)[from[j]] == xs[j]
    {
      SourcePlace(c, a0, sends, b0, recvs, j);
    }
    forall j, k | 0 <= j < k < |xs| && xs[j].Some? && xs[k].Some? ensures from[j] != from[k] {
      SourcesDiffer(c, a0, sends, b0, recvs, j, k);
    }
    OwnPlacesInclude(xs, Plains(c, a0, sends), from);
  }

  ghost function Sources(c: Suite, a0: Tunn, sends: seq<Moment>, recvs: seq<Moment>): seq<nat> {
    seq(|recvs|, j requires 0 <= j < |recvs| => Source(c, a0, sends, recvs[j]))
  }

  lemma SourcePlace(c: Suite, a0: Tunn, sends: seq<Moment>, b0: Tunn, recvs: seq<Moment>, j: nat)
    requires c.Lawful() && Orderly(sends) && Faithful(c, a0, sends, b0, recvs)
    requires j < |recvs| && AcceptingAt(c, b0, recvs, j).Some?
    ensures var i := Sources(c, a0, sends, recvs)[j];
            i < |Plains(c, a0, sends)| && Plains(c, a0, sends)[i] == AcceptedPlain(c, b0, recvs, j)
  {
    SourcePlain(c, a0, sends, b0, recvs, j);
    PlainsIndex(c, a0, sends, Source(c, a0, sends, recvs[j]));
  }

  /** End to end over two whole runs, through all rekeying, retransmission, queueing
      and expiry on both sides: everything the receiver hands to its interface is a
      packet the sender was given, cut to the length it claims; no packet is
      delivered more often than it was given; no session of either side uses a
      counter twice. */
  lemma TunnelsEndToEnd(c: Suite, a0: Tunn, sends: seq<Moment>, b0: Tunn, recvs: seq<Moment>)
    requires c.Lawful() && New(c, a0) && Orderly(sends) && New(c, b0) && Orderly(recvs) && |sends| < U64
    requires Faithful(c, a0, sends, b0, recvs) && OwnKeys(c, b0, recvs)
    ensures forall j :: 0 <= j < |recvs| && ResultAt(c, b0, recvs, j).WriteToTunnel? ==>
              && DeliveredAt(c, b0, recvs, j).Some?
              && Unwraps(DeliveredAt(c, b0, recvs, j).value, ResultAt(c, b0, recvs, j))
    ensures Somes(Delivereds(c, b0, recvs)) <= Somes(Givens(sends))
    ensures Somes(Accepteds(c, b0, recvs)) <= Somes(Plains(c, a0, sends))
    ensures NoDuplicates(Seals(c, a0, sends)) && NoDuplicates(Records(c, b0, recvs).log)
  {
    LastIsNeverAccepted(c, a0, sends, b0, recvs);
    TunnelReplaySafety(c, b0, recvs);
    SendingCountersDistinct(c, a0, sends);
    DeliveredUnwrap(c, b0, recvs);
    AcceptedAtMostSealed(c, a0, sends, b0, recvs, Accepteds(c, b0, recvs));
    AcceptedAtMostSealed(c, a0, sends, b0, recvs, Delivereds(c, b0, recvs));
    DeliveredAtMostGiven(c, a0, sends, Delivereds(c, b0, recvs));
  }

  lemma DeliveredUnwrap(c: Suite, b0: Tunn, recvs: seq<Moment>)
    ensures forall j :: 0 <= j < |recvs| && ResultAt(c, b0, recvs, j).WriteToTunnel? ==>
              && AcceptingAt(c, b0, recvs, j).Some?
              && DeliveredAt(c, b0, recvs, j).Some?
              && Unwraps(DeliveredAt(c, b0, recvs, j).value, ResultAt(c, b0, recvs, j))
    ensures forall j :: 0 <= j < |recvs| && Delivereds(c, b0, recvs)[j].Some? ==>
              Delivereds(c, b0, recvs)[j].value != []
  {
    forall j | 0 <= j < |recvs| && ResultAt(c, b0, recvs, j).WriteToTunnel?
      ensures AcceptingAt(c, b0, recvs, j).Some?
      ensures DeliveredAt(c, b0, recvs, j).Some?
              && Unwraps(DeliveredAt(c, b0, recvs, j).value, ResultAt(c, b0, recvs, j))
    {
      DeliveryUnwraps(c, Run(c, b0, recvs[..j]), recvs[j]);
    }
  }

  lemma DeliveredAtMostGiven(c: Suite, a0: Tunn, sends: seq<Moment>, xs: seq<Option<Bytes>>)
    requires New(c, a0) && Orderly(sends) && Somes(xs) <= Somes(Plains(c, a0, sends))
    requires forall j :: 0 <= j < |xs| && xs[j].Some? ==> xs[j].value != []
    ensures Somes(xs) <= Somes(Givens(sends))
  {
    NoneEmpty(xs);
    var sealed, given := Somes(Plains(c, a0, sends)), Somes(Givens(sends));
    forall p | p != [] ensures sealed[p] <= given[p] {
      SealedAtMostGiven(c, a0, sends, p);
    }
    Included(Somes(xs), sealed, given);
  }

  lemma Included(xs: multiset<Bytes>, ys: multiset<Bytes>, zs: multiset<Bytes>)
    requires xs <= ys && xs[[]] == 0 && forall p :: p != [] ==> ys[p] <= zs[p]
    ensures xs <= zs
  {
    forall p ensures xs[p] <= zs[p] {
      assert xs[p] <= ys[p];
    }
  }

  lemma {:induction false} NoneEmpty(xs: seq<Option<Bytes>>)
    requires forall j :: 0 <= j < |xs| && xs[j].Some? ==> xs[j].value != []
    ensures Somes(xs)[[]] == 0
  {
    if xs != [] {
      NoneEmpty(xs[..|xs| - 1]);
    }
  }
}
