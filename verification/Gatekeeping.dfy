/** Which datagrams reach a tunnel (noise/mod.rs, `decapsulate`, with
    noise/rate_limiter.rs, `verify_packet`). */
module Gatekeeping {
  import opened Common
  import opened Crypto
  import opened NoisePattern
  import opened RateLimiters
  import opened Tunnel
  import opened Tunnels
  import opened Wire

  /** A datagram laid out as a first or second handshake message. */
  predicate HandshakeBytes(d: Bytes) {
    (|d| == 148 && d[..4] == [1, 0, 0, 0]) || (|d| == 92 && d[..4] == [2, 0, 0, 0])
  }

  predicate OtherBytes(d: Bytes) {
    (|d| == 64 && d[..4] == [3, 0, 0, 0]) || (|d| >= 32 && d[..4] == [4, 0, 0, 0])
  }

  /** The limiter lets a datagram through. */
  predicate Admits(c: Suite, l: Limiter, addr: Option<IpAddr>, d: Bytes, clock: nat) {
    OtherBytes(d) || (HandshakeBytes(d) && FirstMac(c, l, d) && (l.count < l.limit || SecondMac(c, l, addr, d, clock)))
  }

  /** The tunnel sees exactly the datagrams that are admitted, as the packets they
      parse to.  Any other leaves it as it was: refused for its bytes, for its first
      MAC, for want of a return address, or answered with a cookie. */
  lemma OnlyAdmittedReaches(c: Suite, t: Tunn, l: Limiter, addr: Option<IpAddr>, d: Bytes, e: Env, clock: nat)
    requires d != []
    ensures var (t', l', r) := Decapsulate(c, t, l, addr, d, e, clock);
            if Admits(c, l, addr, d, clock) then
              ParseIncomingPacket(d).Ok? && (t', r) == HandleVerifiedPacket(c, t, ParseIncomingPacket(d).value, e)
            else
              && t' == t
              && if !HandshakeBytes(d) then r == Error(InvalidPacket) && l' == l
                 else if !FirstMac(c, l, d) then r == Error(InvalidMac) && l' == l
                 else if addr.None? then r == Error(UnderLoad)
                 else r.WriteToNetwork? && |r.datagram| >= 4 && r.datagram[..4] == [3, 0, 0, 0]
  {
    ParsesIff(d);
    if HandshakeBytes(d) {
      PassesIff(c, l, addr, d, clock, COOKIE_REPLY_SZ);
      if FirstMac(c, l, d) && addr.Some? && !Admits(c, l, addr, d, clock) {
        RefusedIsAnswered(c, l, addr.value, d, clock);
      }
    } else {
      UncheckedPasses(c, l, addr, d, clock, COOKIE_REPLY_SZ);
    }
  }

  /** A tunnel's own limiter lets ten messages a second through and guards the
      tunnel's own key. */
  lemma OwnLimiterIs(c: Suite, pub: Key, random: Randomness)
    ensures var l := OwnLimiter(c, pub, random);
            && l.limit == 10 && l.count == 0 && l.startTime == l.lastReset == random.clock
            && l.mac1Key == c.hash(Ascii("mac1----") + pub) && l.cookieKey == c.hash(Ascii("cookie--") + pub)
  {
    LabelBytes();
  }

  lemma RefusedIsAnswered(c: Suite, l: Limiter, addr: IpAddr, d: Bytes, clock: nat)
    requires HandshakeBytes(d) && FirstMac(c, l, d) && l.count >= l.limit && !SecondMac(c, l, Some(addr), d, clock)
    ensures var v := VerifyPacket(c, l, Some(addr), d, clock, COOKIE_REPLY_SZ).1;
            v.Reply? && |v.datagram| >= 4 && v.datagram[..4] == [3, 0, 0, 0]
  {
    ParsesIff(d);
    PassesIff(c, l, Some(addr), d, clock, COOKIE_REPLY_SZ);
    SmallLe(3);
  }
}
