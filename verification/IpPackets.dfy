/** What a tunnel does with an opened packet, on the bytes of the IP header
    (noise/mod.rs, `validate_decapsulated_packet`). */
module IpPackets {
  import opened Common
  import opened Crypto
  import opened Sessions
  import opened Tunnel
  import opened Wire

  /** Two bytes, the more significant first. */
  function TwoBytes(hi: int, lo: int): int {
    256 * hi + lo
  }

  /** An opened packet in the interface's terms: nothing for a keepalive; an IPv4 or
      IPv6 packet cut to the length in its header, with the source address in it;
      an error for anything else. */
  function Unwrapped(q: Bytes): TunnResult {
    if q == [] then Done
    else if 64 <= q[0] < 80 && |q| >= 20 && TwoBytes(q[2], q[3]) <= |q| then
      WriteToTunnel(q[..TwoBytes(q[2], q[3])], V4(q[12..16]))
    else if 96 <= q[0] < 112 && |q| >= 40 && TwoBytes(q[4], q[5]) + 40 <= |q| then
      WriteToTunnel(q[..TwoBytes(q[4], q[5]) + 40], V6(q[8..24]))
    else Error(InvalidPacket)
  }

  lemma FromTwoBytes(b: Bytes)
    requires |b| == 2
    ensures FromBe(b) == TwoBytes(b[0], b[1])
  {
    assert FromBe(b[..1]) == 256 * FromBe(b[..1][..0]) + b[0];
  }

  /** The check of an opened packet says what its header bytes say, and only a
      delivered one is counted. */
  lemma ValidatedByBytes(t: Tunn, q: Bytes)
    ensures ValidateDecapsulatedPacket(t, q).1 == Unwrapped(q)
    ensures var r := Unwrapped(q);
            ValidateDecapsulatedPacket(t, q).0 ==
            if r.WriteToTunnel? then
              t.(timers := t.timers.Tick(TimeLastDataPacketReceived), rxBytes := t.rxBytes + |r.packet|)
            else t
  {
    if |q| >= 20 {
      FromTwoBytes(q[2..4]);
      FromTwoBytes(q[4..6]);
    }
  }

  /** A data packet a session accepts is answered by what it opens to; one for an
      empty slot, or refused by its session, changes nothing. */
  lemma ReadUnwraps(c: Suite, b: Tunn, m: Packet)
    requires m.PacketData?
    ensures match b.sessions[m.receiverIdx % N_SESSIONS]
            case None => HandleData(c, b, m) == (b, Error(NoCurrentSession))
            case Some(s) =>
              var r := ReceivePacketData(c, s, m).1;
              if r.Ok? then HandleData(c, b, m).1 == Unwrapped(r.value) else HandleData(c, b, m) == (b, Error(r.error))
  {
    var slot := m.receiverIdx % N_SESSIONS;
    if b.sessions[slot].Some? {
      var (s, r) := ReceivePacketData(c, b.sessions[slot].value, m);
      if r.Ok? {
        var b1 := SetCurrentSession(b.(sessions := b.sessions[slot := Some(s)]), m.receiverIdx);
        ValidatedByBytes(b1.Ticked(TimeLastPacketReceived), r.value);
      }
    }
  }

  /** The IP packet `q` goes to the interface as `r`. */
  predicate Unwraps(q: Bytes, r: TunnResult) {
    r.WriteToTunnel? && r == Unwrapped(q)
  }
}
