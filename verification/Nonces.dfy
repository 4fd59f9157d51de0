/** Nonces on the wire: the bytes of a data datagram are sealed under the counter
    they carry, and no session seals twice under one nonce. */
module Nonces {
  import opened Common
  import opened Crypto
  import opened Sessions
  import opened Tunnel
  import opened TunnelRuns
  import opened Emissions
  import opened SenderCounters
  import opened Wire

  /** The nonce of a datagram: four zero bytes, then its counter bytes. */
  function WireNonce(d: Bytes): Nonce
    requires |d| >= 16
  {
    [0, 0, 0, 0] + d[8..16]
  }

  lemma NoncesDiffer(a: u64, b: u64)
    requires a != b
    ensures CounterNonce(a) != CounterNonce(b)
  {
    LeRoundTrip64(a);
    LeRoundTrip64(b);
    assert CounterNonce(a)[4..] == Le(a, 8) && CounterNonce(b)[4..] == Le(b, 8);
  }

  /** The datagram of a packet: type, the peer's index, the counter, and the packet
      sealed under that counter's nonce. */
  lemma SealedUnderCounter(c: Suite, s: Session, src: Bytes)
    ensures var d := FormatPacketData(c, s, src).1;
            && |d| >= 16 && d[..4] == [4, 0, 0, 0]
            && FromLe(d[4..8]) == s.sendingIndex && FromLe(d[8..16]) == s.sendingKeyCounter
            && d[16..] == c.seal(s.sender, WireNonce(d), [], src)
  {
    var counter := s.sendingKeyCounter;
    SmallLe(4);
    LeRoundTrip32(s.sendingIndex);
    LeRoundTrip64(counter);
    DataLayout(Le(DATA, 4), Le(s.sendingIndex, 4), Le(counter, 8), c.seal(s.sender, CounterNonce(counter), [], src));
    assert Zeros(4) == [0, 0, 0, 0];
  }

  /** What a session accepts, on the bytes: its own index, a counter neither too far
      back nor seen, and a ciphertext that opens under that counter's nonce; and what
      it answers to anything else. */
  lemma OpenedUnderCounter(c: Suite, s: Session, d: Bytes)
    requires |d| >= 32 && d[..4] == [4, 0, 0, 0]
    ensures var p := ParseIncomingPacket(d);
            && p.Ok? && p.value.PacketData?
            && var r := ReceivePacketData(c, s, p.value).1;
               var n := FromLe(d[8..16]);
               var plain := c.open(s.receiver, WireNonce(d), [], d[16..]);
               && (r.Ok? <==>
                     && FromLe(d[4..8]) == s.receivingIndex
                     && (n + 1024) % U64 >= s.window.next && (n < s.window.next ==> n !in s.window.accepted)
                     && plain.Some?)
               && (r.Ok? ==> r.value == plain.value)
               && (r.Err? ==>
                     r.error == if FromLe(d[4..8]) != s.receivingIndex then WrongIndex
                                else if n < s.window.next && (n + 1024) % U64 < s.window.next then InvalidCounter
                                else if n < s.window.next && n in s.window.accepted then DuplicateCounter
                                else if plain.None? then InvalidAeadTag
                                else InvalidCounter)
  {
    ParsesIff(d);
    LeOfFrom(d[8..16]);
    assert Zeros(4) == [0, 0, 0, 0];
  }

  /** The data datagram of a call is sealed under the nonce it shows, with the key
      and counter the call drew. */
  lemma EmittedUnderCounter(c: Suite, t: Tunn, m: Moment)
    requires c.Lawful() && m.env.dstLen >= HANDSHAKE_INIT_SZ && SealedBy(c, t, m).Some?
    ensures var (x, r) := (SealedBy(c, t, m).value, Call(c, t, m.op, m.env).1);
            && r.WriteToNetwork? && |r.datagram| >= 16
            && FromLe(r.datagram[8..16]) == x.counter && FromLe(r.datagram[4..8]) == x.index
            && r.datagram[16..] == c.seal(x.key, WireNonce(r.datagram), [], x.plain)
  {
    CallEmits(c, t, m);
    var (x, d) := (SealedBy(c, t, m).value, Call(c, t, m.op, m.env).1.datagram);
    EncodeParse(d);
    EncodedBytes(x.OnTheWire(c));
    LeOfFrom(d[8..16]);
    assert d == d[..|d|];
    assert Zeros(4) == [0, 0, 0, 0];
  }

  /** Over every run of fewer than 2^64 calls, two packets sealed by one session the
      ring ever held are sealed under different nonces. */
  lemma NoncesNeverRepeat(c: Suite, t0: Tunn, ms: seq<Moment>)
    requires New(c, t0) && Orderly(ms) && |ms| < U64
    ensures var seals := Seals(c, t0, ms);
            forall i, j ::
              0 <= i < j < |seals| && seals[i].slot == seals[j].slot && seals[i].epoch == seals[j].epoch ==>
              CounterNonce(seals[i].counter) != CounterNonce(seals[j].counter)
  {
    SendingCountersDistinct(c, t0, ms);
    var seals := Seals(c, t0, ms);
    forall i, j | 0 <= i < j < |seals| && seals[i].slot == seals[j].slot && seals[i].epoch == seals[j].epoch
      ensures CounterNonce(seals[i].counter) != CounterNonce(seals[j].counter)
    {
      NoncesDiffer(seals[i].counter, seals[j].counter);
    }
  }
}
