/** The handshake rate limiter and its cookies (noise/rate_limiter.rs; section
    5.4.7 of the WireGuard paper).  Times are nanoseconds on the program's clock. */
module RateLimiters {
  import opened Common
  import opened Crypto
  import opened Noise
  import opened Timestamps
  import opened Wire

  const COOKIE_REFRESH: nat := 128
  const RESET_PERIOD: nat := 1

  datatype Limiter = Limiter(
    nonceKey: Key,
    secretKey: Mac,
    startTime: nat,
    nonceCtr: u64,
    mac1Key: Key,
    cookieKey: Key,
    limit: u64,
    count: u64,
    lastReset: nat)

  function NewLimiter(c: Suite, pub: Key, limit: u64, nonceKey: Key, secretKey: Mac, now: nat): Limiter {
    Limiter(nonceKey, secretKey, now, 0, c.Hash2(LABEL_MAC1, pub), c.Hash2(LABEL_COOKIE, pub), limit, 0, now)
  }

  /** `Instant::duration_since(..).as_secs()`: an earlier reading counts as zero. */
  function SecsSince(now: nat, earlier: nat): nat {
    if now < earlier then 0 else (now - earlier) / NANOS
  }

  /** `reset_count`, with the time read before the lock is taken. */
  function ResetCount(r: Limiter, read: nat): Limiter {
    if SecsSince(read, r.lastReset) >= RESET_PERIOD then r.(count := 0, lastReset := read) else r
  }

  function AddrBytes(addr: IpAddr): Octets16 {
    match addr
    case V4(a) => a + Zeros(12)
    case V6(a) => a
  }

  /** The number of the current 128-second secret. */
  function CookiePeriod(r: Limiter, now: nat): u64 {
    SecsSince(now, r.startTime) / COOKIE_REFRESH % U64
  }

  /** What the cookie of an address is computed from. */
  function CookieInput(r: Limiter, addr: IpAddr, now: nat): Bytes {
    Le(CookiePeriod(r, now), 8) + AddrBytes(addr)
  }

  function CurrentCookie(c: Suite, r: Limiter, addr: IpAddr, now: nat): Mac {
    c.mac16(r.secretKey, CookieInput(r, addr, now))
  }

  /** `is_under_load`: one atomic increment. */
  function CountOne(r: Limiter): (Limiter, bool) {
    (r.(count := (r.count + 1) % U64), r.count >= r.limit)
  }

  function DrawNonce(c: Suite, r: Limiter): (Limiter, XNonce) {
    (r.(nonceCtr := (r.nonceCtr + 1) % U64), c.mac24(r.nonceKey, Le(r.nonceCtr, 8)))
  }

  function FormatCookieReply(c: Suite, r: Limiter, idx: u32, cookie: Mac, mac1: Bytes, dstLen: nat)
    : (Limiter, Result<Bytes>)
  {
    if dstLen < COOKIE_REPLY_SZ then (r, Err(DestinationBufferTooSmall))
    else
      var (r', nonce) := DrawNonce(c, r);
      (r', Ok(Encode(PacketCookieReply(idx, nonce, c.xseal(r.cookieKey, nonce, mac1, cookie)))))
  }

  datatype Verdict = Pass(packet: Packet) | Reply(datagram: Bytes) | Refuse(error: WireGuardError)

  /** Only handshake messages are checked; everything else that parses passes. */
  predicate Checked(p: Packet) {
    p.HandshakeInit? || p.HandshakeResponse?
  }

  function VerifyPacket(c: Suite, r: Limiter, addr: Option<IpAddr>, src: Bytes, now: nat, dstLen: nat)
    : (Limiter, Verdict)
  {
    match ParseIncomingPacket(src)
    case Err(e) => (r, Refuse(e))
    case Ok(p) =>
      if !Checked(p) then (r, Pass(p))
      else
        var n := |src|;
        var msg, mac1, mac2 := src[..n - 32], src[n - 32..n - 16], src[n - 16..];
        if c.mac16(r.mac1Key, msg) != mac1 then (r, Refuse(InvalidMac))
        else
          var (r1, loaded) := CountOne(r);
          if !loaded then (r1, Pass(p))
          else if addr.None? then (r1, Refuse(UnderLoad))
          else
            var cookie := CurrentCookie(c, r1, addr.value, now);
            if c.mac16(cookie, msg + mac1) == mac2 then (r1, Pass(p))
            else
              var (r2, reply) := FormatCookieReply(c, r1, p.senderIdx, cookie, mac1, dstLen);
              (r2, if reply.Ok? then Reply(reply.value) else Refuse(reply.error))
  }

  /** The limiter object; its two counters are atomic and the reset time is under
      a lock, so each method below is one step of an interleaving. */
  class RateLimiter {
    const nonceKey: Key
    const secretKey: Mac
    const startTime: nat
    const mac1Key: Key
    const cookieKey: Key
    const limit: u64
    var nonceCtr: u64
    var count: u64
    var lastReset: nat

    function Model(): Limiter
      reads this
    {
      Limiter(nonceKey, secretKey, startTime, nonceCtr, mac1Key, cookieKey, limit, count, lastReset)
    }

    constructor (c: Suite, pub: Key, limit: u64, nonceKey: Key, secretKey: Mac, now: nat)
      ensures Model() == NewLimiter(c, pub, limit, nonceKey, secretKey, now)
    {
      this.nonceKey, this.secretKey, this.limit := nonceKey, secretKey, limit;
      startTime, lastReset := now, now;
      nonceCtr, count := 0, 0;
      mac1Key, cookieKey := c.Hash2(LABEL_MAC1, pub), c.Hash2(LABEL_COOKIE, pub);
    }

    method Reset(read: nat)
      modifies this`count, this`lastReset
      ensures Model() == ResetCount(old(Model()), read)
    {
      if SecsSince(read, lastReset) >= RESET_PERIOD {
        count := 0;
        lastReset := read;
      }
    }

    method IsUnderLoad() returns (loaded: bool)
      modifies this`count
      ensures (Model(), loaded) == CountOne(old(Model()))
    {
      var before := count;
      count := (count + 1) % U64;
      loaded := before >= limit;
    }

    method Nonce(c: Suite) returns (nonce: XNonce)
      modifies this`nonceCtr
      ensures (Model(), nonce) == DrawNonce(c, old(Model()))
    {
      var ctr := nonceCtr;
      nonceCtr := (nonceCtr + 1) % U64;
      nonce := c.mac24(nonceKey, Le(ctr, 8));
    }

    method CookieReply(c: Suite, idx: u32, cookie: Mac, mac1: Bytes, dstLen: nat) returns (r: Result<Bytes>)
      modifies this`nonceCtr
      ensures (Model(), r) == FormatCookieReply(c, old(Model()), idx, cookie, mac1, dstLen)
    {
      if dstLen < COOKIE_REPLY_SZ {
        return Err(DestinationBufferTooSmall);
      }
      var nonce := Nonce(c);
      var encrypted := c.xseal(cookieKey, nonce, mac1, cookie);
      r := Ok(Le(COOKIE_REPLY, 4) + Le(idx, 4) + nonce + encrypted);
    }

    method Verify(c: Suite, addr: Option<IpAddr>, src: Bytes, now: nat, dstLen: nat) returns (v: Verdict)
      modifies this`count, this`nonceCtr
      ensures (Model(), v) == VerifyPacket(c, old(Model()), addr, src, now, dstLen)
    {
      var parsed := ParseIncomingPacket(src);
      if parsed.Err? {
        return Refuse(parsed.error);
      }
      var p := parsed.value;
      if p.HandshakeInit? || p.HandshakeResponse? {
        var n := |src|;
        var msg, mac1, mac2 := src[..n - 32], src[n - 32..n - 16], src[n - 16..];
        if c.mac16(mac1Key, msg) != mac1 {
          return Refuse(InvalidMac);
        }
        var loaded := IsUnderLoad();
        if loaded {
          if addr.None? {
            return Refuse(UnderLoad);
          }
          var cookie := CurrentCookie(c, Model(), addr.value, now);
          if c.mac16(cookie, msg + mac1) != mac2 {
            var reply := CookieReply(c, p.senderIdx, cookie, mac1, dstLen);
            if reply.Err? {
              return Refuse(reply.error);
            }
            return Reply(reply.value);
          }
        }
      }
      v := Pass(p);
    }
  }

  // ---------------------------------------------------------------- cookies

  /** The limiter guards the party whose public key the handshake is configured
      with. */
  predicate Guards(c: Suite, r: Limiter, h: Handshake) {
    r.mac1Key == h.params.sendingMac1Key && r.cookieKey == h.params.cookieKey
  }

  /** `d` is the handshake message last formatted: the MAC in it and its sender
      index are the ones remembered. */
  predicate LastFormatted(h: Handshake, m: Packet, d: Bytes) {
    && Checked(m) && |d| == |Encode(m)| + 32
    && d[..|d| - 32] == Encode(m)
    && h.cookies.lastMac1 == Some(d[|d| - 32..|d| - 16])
    && h.cookies.index == m.senderIdx
  }

  lemma MacsAreLastFormatted(c: Suite, h: Handshake, m: Packet)
    requires Checked(m)
    ensures var (h', d) := AppendMacs(c, h, m.senderIdx, Encode(m)); LastFormatted(h', m, d)
  {
    var (h', d) := AppendMacs(c, h, m.senderIdx, Encode(m));
    var mac1: Bytes := c.mac16(h.params.sendingMac1Key, Encode(m));
    assert d[..|d| - 32] == Encode(m) && d[|d| - 32..|d| - 16] == mac1;
  }

  /** A message formatted by the configured peer passes the first MAC check, and
      under load either passes or draws a reply that its sender accepts, storing
      exactly the cookie the limiter holds for that address and time. */
  lemma CookieReplyAccepted(c: Suite, r: Limiter, h: Handshake, m: Packet, d: Bytes, addr: IpAddr, now: nat)
    requires c.Lawful() && Guards(c, r, h) && WellSized(m) && LastFormatted(h, m, d)
    requires c.mac16(h.params.sendingMac1Key, Encode(m)) == d[|d| - 32..|d| - 16]
    ensures var (r', v) := VerifyPacket(c, r, Some(addr), d, now, COOKIE_REPLY_SZ);
            && v != Refuse(InvalidMac)
            && (r.count < r.limit ==> v == Pass(m))
            && (v == Pass(m) || v.Reply?)
            && (v.Reply? ==>
                  && ParseIncomingPacket(v.datagram).Ok?
                  && ParseIncomingPacket(v.datagram).value.PacketCookieReply?
                  && ReceiveCookieReply(c, h, ParseIncomingPacket(v.datagram).value) ==
                     (h.(cookies := h.cookies.(writeCookie := Some(CurrentCookie(c, r, addr, now)))), Ok(())))
  {
    assert d == Encode(m) + d[|d| - 32..];
    ParseEncode(m, d[|d| - 32..]);
    var (r1, loaded) := CountOne(r);
    var cookie := CurrentCookie(c, r1, addr, now);
    var (r2, nonce) := DrawNonce(c, r1);
    ParseCookieReply(PacketCookieReply(m.senderIdx, nonce, c.xseal(r.cookieKey, nonce, d[|d| - 32..|d| - 16], cookie)));
  }

  /** With that cookie stored, the next handshake message passes at any load, from
      the same address and within the same 128-second period. */
  lemma CookieHolderPasses(c: Suite, r: Limiter, h: Handshake, m: Packet, addr: IpAddr, now: nat)
    requires c.Lawful() && Guards(c, r, h) && WellSized(m) && Checked(m)
    requires h.cookies.writeCookie == Some(CurrentCookie(c, r, addr, now))
    ensures VerifyPacket(c, r, Some(addr), AppendMacs(c, h, m.senderIdx, Encode(m)).1, now, COOKIE_REPLY_SZ).1 ==
            Pass(m)
  {
    var mac1: Bytes := c.mac16(h.params.sendingMac1Key, Encode(m));
    var mac2: Bytes := c.mac16(h.cookies.writeCookie.value, Encode(m) + mac1);
    var d := Encode(m) + (mac1 + mac2);
    ParseEncode(m, mac1 + mac2);
    assert d[..|d| - 32] == Encode(m) && d[|d| - 32..|d| - 16] == mac1 && d[|d| - 16..] == mac2;
    BothMacsPass(c, r, m, d, addr, now);
  }

  /** What the limiter asks of a message that is to pass at any load. */
  lemma BothMacsPass(c: Suite, r: Limiter, m: Packet, d: Bytes, addr: IpAddr, now: nat)
    requires ParseIncomingPacket(d) == Ok(m) && Checked(m) && |d| >= 32
    requires c.mac16(r.mac1Key, d[..|d| - 32]) == d[|d| - 32..|d| - 16]
    requires c.mac16(CurrentCookie(c, r, addr, now), d[..|d| - 32] + d[|d| - 32..|d| - 16]) == d[|d| - 16..]
    ensures VerifyPacket(c, r, Some(addr), d, now, COOKIE_REPLY_SZ).1 == Pass(m)
  {
    assert CurrentCookie(c, CountOne(r).0, addr, now) == CurrentCookie(c, r, addr, now);
  }

  /** The limiter fields a cookie depends on. */
  predicate SameSecrets(r: Limiter, r': Limiter) {
    r'.secretKey == r.secretKey && r'.startTime == r.startTime && r'.mac1Key == r.mac1Key && r'.cookieKey == r.cookieKey
  }

  /** Cookie round trip, across the two modules: formatting a handshake message,
      drawing a cookie reply for it at time `t1`, accepting the reply, and then
      formatting any further handshake message (an initiation or a response, `m2`)
      makes that message pass at time `t2`, whatever the load has become. */
  lemma CookieRoundTrip(c: Suite, r1: Limiter, r2: Limiter, h0: Handshake, m1: Packet, m2: Packet, addr: IpAddr,
                        t1: nat, t2: nat)
    requires c.Lawful() && Guards(c, r1, h0) && SameSecrets(r1, r2)
    requires Checked(m1) && WellSized(m1) && Checked(m2) && WellSized(m2)
    requires CookiePeriod(r1, t1) == CookiePeriod(r1, t2)
    ensures var (h1, d1) := AppendMacs(c, h0, m1.senderIdx, Encode(m1));
            var v := VerifyPacket(c, r1, Some(addr), d1, t1, COOKIE_REPLY_SZ).1;
            v.Reply? ==>
              && ParseIncomingPacket(v.datagram).Ok?
              && ParseIncomingPacket(v.datagram).value.PacketCookieReply?
              && var (h2, ok) := ReceiveCookieReply(c, h1, ParseIncomingPacket(v.datagram).value);
                 && ok.Ok?
                 && VerifyPacket(c, r2, Some(addr), AppendMacs(c, h2, m2.senderIdx, Encode(m2)).1, t2,
                                 COOKIE_REPLY_SZ).1 == Pass(m2)
  {
    var (h1, d1) := AppendMacs(c, h0, m1.senderIdx, Encode(m1));
    MacsAreLastFormatted(c, h0, m1);
    CookieReplyAccepted(c, r1, h1, m1, d1, addr, t1);
    var h2 := h1.(cookies := h1.cookies.(writeCookie := Some(CurrentCookie(c, r1, addr, t1))));
    CookieHolderPasses(c, r2, h2, m2, addr, t2);
  }

  // ---------------------------------------------------------------- what passes

  /** The first MAC covers everything before it. */
  predicate FirstMac(c: Suite, r: Limiter, d: Bytes) {
    |d| >= 32 && d[|d| - 32..|d| - 16] == c.mac16(r.mac1Key, d[..|d| - 32])
  }

  /** The second covers everything before it, keyed with the cookie of the address
      at the time. */
  predicate SecondMac(c: Suite, r: Limiter, addr: Option<IpAddr>, d: Bytes, now: nat) {
    && |d| >= 16 && addr.Some?
    && d[|d| - 16..] == c.mac16(c.mac16(r.secretKey, CookieInput(r, addr.value, now)), d[..|d| - 16])
  }

  /** What a handshake message must carry: it passes exactly with a good first MAC
      and, once the second's messages are used up, a good second one.  A bad first
      MAC costs the limiter nothing. */
  lemma PassesIff(c: Suite, r: Limiter, addr: Option<IpAddr>, d: Bytes, now: nat, dstLen: nat)
    requires ParseIncomingPacket(d).Ok? && Checked(ParseIncomingPacket(d).value)
    ensures var (r', v) := VerifyPacket(c, r, addr, d, now, dstLen);
            && (v.Pass? <==> FirstMac(c, r, d) && (r.count < r.limit || SecondMac(c, r, addr, d, now)))
            && (v == Refuse(InvalidMac) <==> !FirstMac(c, r, d))
            && (!FirstMac(c, r, d) ==> r' == r)
            && (FirstMac(c, r, d) ==> r'.count == (r.count + 1) % U64)
            && (FirstMac(c, r, d) && r.count >= r.limit && addr.None? ==> v == Refuse(UnderLoad))
            && (v.Pass? ==> v.packet == ParseIncomingPacket(d).value && r' == r.(count := r'.count))
  {
    EncodeParse(d);
    assert d[..|d| - 32] + d[|d| - 32..|d| - 16] == d[..|d| - 16];
    if addr.Some? {
      assert CurrentCookie(c, CountOne(r).0, addr.value, now) == CurrentCookie(c, r, addr.value, now);
    }
  }

  /** Anything else that parses passes unchecked, and anything that does not is
      refused; neither counts. */
  lemma UncheckedPasses(c: Suite, r: Limiter, addr: Option<IpAddr>, d: Bytes, now: nat, dstLen: nat)
    requires ParseIncomingPacket(d).Ok? ==> !Checked(ParseIncomingPacket(d).value)
    ensures var (r', v) := VerifyPacket(c, r, addr, d, now, dstLen);
            && r' == r
            && if (|d| == 64 && d[..4] == [3, 0, 0, 0]) || (|d| >= 32 && d[..4] == [4, 0, 0, 0]) then
                 v.Pass? && Ok(v.packet) == ParseIncomingPacket(d)
               else v == Refuse(InvalidPacket)
  {
    ParsesIff(d);
  }

  /** Two addresses of different families whose sixteen bytes coincide: the v4
      octets followed by zeros. */
  predicate PaddingOverlap(a: IpAddr, b: IpAddr) {
    a.V4? && b.V6? && b.octets16 == a.octets4 + [0, 0, 0, 0, 0, 0, 0, 0, 0, 0, 0, 0]
  }

  /** They are the period's eight bytes and the address, a v4 one filled up with
      zeros. */
  lemma CookieInputBytes(r: Limiter, addr: IpAddr, now: nat)
    ensures var b := CookieInput(r, addr, now);
            && |b| == 24 && FromLe(b[..8]) == CookiePeriod(r, now)
            && (addr.V4? ==> b[8..] == addr.octets4 + [0, 0, 0, 0, 0, 0, 0, 0, 0, 0, 0, 0])
            && (addr.V6? ==> b[8..] == addr.octets16)
  {
    LeRoundTrip64(CookiePeriod(r, now));
    assert CookieInput(r, addr, now)[..8] == Le(CookiePeriod(r, now), 8);
    assert Zeros(12) == [0, 0, 0, 0, 0, 0, 0, 0, 0, 0, 0, 0];
  }

  /** The bytes under a cookie fix the period and the address, but for the one
      overlap of the two families. */
  lemma CookieInputsAgreeIff(r: Limiter, a: IpAddr, b: IpAddr, t1: nat, t2: nat)
    ensures CookieInput(r, a, t1) == CookieInput(r, b, t2) <==>
            CookiePeriod(r, t1) == CookiePeriod(r, t2) && (a == b || PaddingOverlap(a, b) || PaddingOverlap(b, a))
  {
    var x, y := CookieInput(r, a, t1), CookieInput(r, b, t2);
    LeRoundTrip64(CookiePeriod(r, t1));
    LeRoundTrip64(CookiePeriod(r, t2));
    assert x[..8] == Le(CookiePeriod(r, t1), 8) && y[..8] == Le(CookiePeriod(r, t2), 8);
    assert x[8..] == AddrBytes(a) && y[8..] == AddrBytes(b);
    assert Zeros(12) == [0, 0, 0, 0, 0, 0, 0, 0, 0, 0, 0, 0];
    assert a.V4? ==> AddrBytes(a)[..4] == a.octets4;
    assert b.V4? ==> AddrBytes(b)[..4] == b.octets4;
  }

  /** A cookie's period is 128 seconds of the limiter's life, until 2^64 of them
      have passed. */
  lemma PeriodBounds(r: Limiter, now: nat)
    requires r.startTime <= now < r.startTime + U64 * 128_000_000_000
    ensures var k := CookiePeriod(r, now);
            r.startTime + k * 128_000_000_000 <= now < r.startTime + (k + 1) * 128_000_000_000
  {
    var d := now - r.startTime;
    assert d / 1_000_000_000 / 128 == d / 128_000_000_000;
  }

  /** The count is cleared exactly when a second has passed since the last time. */
  lemma ResetIff(r: Limiter, read: nat)
    ensures ResetCount(r, read) ==
            if read >= r.lastReset + 1_000_000_000 then r.(count := 0, lastReset := read) else r
  {
  }

  /** The nonce of a cookie reply is computed from the counter's own eight bytes. */
  lemma NonceFollowsCounter(c: Suite, r: Limiter, b: Bytes)
    requires |b| == 8 && FromLe(b) == r.nonceCtr
    ensures DrawNonce(c, r) == (r.(nonceCtr := (r.nonceCtr + 1) % U64), c.mac24(r.nonceKey, b))
  {
    LeOfFrom(b);
  }

  /** Both MACs lie at the end of a formatted handshake message; without a cookie
      the second is zero.  The first is remembered, and the cookie kept. */
  lemma FormattedMacs(c: Suite, h: Handshake, index: u32, body: Bytes)
    ensures var (h', d) := AppendMacs(c, h, index, body);
            && |d| == |body| + 32 && d[..|body|] == body
            && h' == h.(cookies := Cookies(Some(d[|body|..|body| + 16]), index, h.cookies.writeCookie))
            && d[|body|..|body| + 16] == c.mac16(h.params.sendingMac1Key, body)
            && d[|body| + 16..] ==
               (if h.cookies.writeCookie.Some? then c.mac16(h.cookies.writeCookie.value, d[..|body| + 16])
                else Zeros(16))
  {
    var mac1: Bytes := c.mac16(h.params.sendingMac1Key, body);
    var d := AppendMacs(c, h, index, body).1;
    assert d[..|body| + 16] == body + mac1;
  }

  /** A limiter made for a public key guards the handshakes configured with it. */
  lemma MadeForKeyGuards(c: Suite, priv: Key, pub: Key, index: u32, psk: Option<Key>, limit: u64, nonceKey: Key,
                         secretKey: Mac, now: nat)
    ensures Guards(c, NewLimiter(c, pub, limit, nonceKey, secretKey, now),
                   NewHandshake(c, priv, c.pub(priv), pub, index, psk))
    ensures var r := NewLimiter(c, pub, limit, nonceKey, secretKey, now);
            r.count == r.nonceCtr == 0 && r.limit == limit && r.startTime == r.lastReset == now
  {
  }

  /** A cookie reply on the wire: the sender index it answers, the nonce drawn, and
      the cookie sealed to the MAC of the message it answers. */
  lemma CookieReplyBytes(c: Suite, r: Limiter, idx: u32, cookie: Mac, mac1: Bytes, dstLen: nat)
    requires dstLen >= 64
    ensures var (r', d) := FormatCookieReply(c, r, idx, cookie, mac1, dstLen);
            && r' == r.(nonceCtr := (r.nonceCtr + 1) % U64)
            && d.Ok? && |d.value| >= 32 && d.value[..4] == [3, 0, 0, 0] && FromLe(d.value[4..8]) == idx
            && d.value[8..32] == DrawNonce(c, r).1
            && d.value[32..] == c.xseal(r.cookieKey, d.value[8..32], mac1, cookie)
  {
    var nonce: Bytes := DrawNonce(c, r).1;
    var d := FormatCookieReply(c, r, idx, cookie, mac1, dstLen).1.value;
    SmallLe(3);
    LeRoundTrip32(idx);
    assert d[4..8] == Le(idx, 4) && d[8..32] == nonce;
  }

  /** A cookie is taken exactly from a reply to the last message sent, sealed to its
      first MAC; anything else changes nothing. */
  lemma CookieTakenIff(c: Suite, h: Handshake, m: Packet)
    requires m.PacketCookieReply?
    ensures var (h', r) := ReceiveCookieReply(c, h, m);
            && (r.Ok? <==>
                  && h.cookies.lastMac1.Some? && m.receiverIdx == h.cookies.index
                  && var cookie := c.xopen(h.params.cookieKey, m.nonce, h.cookies.lastMac1.value, m.encryptedCookie);
                     cookie.Some? && |cookie.value| == 16)
            && (r.Err? ==> h' == h)
            && (r.Ok? ==>
                  h'.cookies.writeCookie ==
                  c.xopen(h.params.cookieKey, m.nonce, h.cookies.lastMac1.value, m.encryptedCookie))
            && h' == h.(cookies := h.cookies.(writeCookie := h'.cookies.writeCookie))
  {
  }
}
