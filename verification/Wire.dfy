/** The wire format (noise/mod.rs, `parse_incoming_packet`, and the layouts the
    `format_*` functions write). */
module Wire {
  import opened Common
  import opened Crypto

  const HANDSHAKE_INIT: nat := 1
  const HANDSHAKE_RESP: nat := 2
  const COOKIE_REPLY: nat := 3
  const DATA: nat := 4

  const HANDSHAKE_INIT_SZ: nat := 148
  const HANDSHAKE_RESP_SZ: nat := 92
  const COOKIE_REPLY_SZ: nat := 64
  const DATA_OVERHEAD_SZ: nat := 32

  datatype Packet =
    | HandshakeInit(senderIdx: u32, ephemeral: Key, encryptedStatic: Bytes, encryptedTimestamp: Bytes)
    | HandshakeResponse(senderIdx: u32, receiverIdx: u32, ephemeral: Key, encryptedNothing: Bytes)
    | PacketCookieReply(receiverIdx: u32, nonce: XNonce, encryptedCookie: Bytes)
    | PacketData(receiverIdx: u32, counter: u64, encrypted: Bytes)

  function U32At(src: Bytes, off: nat): (n: u32)
    requires off + 4 <= |src|
  {
    PowersOf256();
    FromLe(src[off..off + 4])
  }

  function U64At(src: Bytes, off: nat): (n: u64)
    requires off + 8 <= |src|
  {
    PowersOf256();
    FromLe(src[off..off + 8])
  }

  function ParseIncomingPacket(src: Bytes): Result<Packet> {
    if |src| < 4 then Err(InvalidPacket)
    else
      var kind := U32At(src, 0);
      if kind == HANDSHAKE_INIT && |src| == HANDSHAKE_INIT_SZ then
        Ok(HandshakeInit(U32At(src, 4), src[8..40], src[40..88], src[88..116]))
      else if kind == HANDSHAKE_RESP && |src| == HANDSHAKE_RESP_SZ then
        Ok(HandshakeResponse(U32At(src, 4), U32At(src, 8), src[12..44], src[44..60]))
      else if kind == COOKIE_REPLY && |src| == COOKIE_REPLY_SZ then
        Ok(PacketCookieReply(U32At(src, 4), src[8..32], src[32..64]))
      else if kind == DATA && |src| >= DATA_OVERHEAD_SZ then
        Ok(PacketData(U32At(src, 4), U64At(src, 8), src[16..]))
      else
        Err(InvalidPacket)
  }

  /** The bytes of a packet as the formatting code lays them out; handshake
      messages without their two trailing MACs. */
  function Encode(p: Packet): Bytes {
    match p
    case HandshakeInit(s, e, es, et) => Le(HANDSHAKE_INIT, 4) + Le(s, 4) + e + es + et
    case HandshakeResponse(s, r, e, en) => Le(HANDSHAKE_RESP, 4) + Le(s, 4) + Le(r, 4) + e + en
    case PacketCookieReply(r, n, ec) => Le(COOKIE_REPLY, 4) + Le(r, 4) + n + ec
    case PacketData(r, c, d) => Le(DATA, 4) + Le(r, 4) + Le(c, 8) + d
  }

  /** The ciphertext lengths each kind of packet carries. */
  predicate WellSized(p: Packet) {
    match p
    case HandshakeInit(_, _, es, et) => |es| == 48 && |et| == 28
    case HandshakeResponse(_, _, _, en) => |en| == 16
    case PacketCookieReply(_, _, ec) => |ec| == 32
    case PacketData(_, _, d) => |d| >= 16
  }

  /** What follows the encoded packet: two MACs on handshake messages. */
  function TrailerSize(p: Packet): nat {
    if p.HandshakeInit? || p.HandshakeResponse? then 32 else 0
  }

  lemma KindRoundTrip(kind: nat, src: Bytes)
    requires |src| >= 4 && src[0..4] == Le(kind, 4) && kind <= 4
    ensures U32At(src, 0) == kind
  {
    LeRoundTrip32(kind);
  }

  lemma InitLayout(k: Bytes, s: Bytes, e: Bytes, es: Bytes, et: Bytes, t: Bytes)
    requires |k| == |s| == 4 && |e| == |t| == 32 && |es| == 48 && |et| == 28
    ensures var src := k + s + e + es + et + t;
            && |src| == 148 && src[0..4] == k && src[4..8] == s
            && src[8..40] == e && src[40..88] == es && src[88..116] == et
  {
  }

  lemma RespLayout(k: Bytes, s: Bytes, r: Bytes, e: Bytes, en: Bytes, t: Bytes)
    requires |k| == |s| == |r| == 4 && |e| == |t| == 32 && |en| == 16
    ensures var src := k + s + r + e + en + t;
            |src| == 92 && src[0..4] == k && src[4..8] == s && src[8..12] == r && src[12..44] == e && src[44..60] == en
  {
  }

  lemma CookieLayout(k: Bytes, r: Bytes, n: Bytes, ec: Bytes)
    requires |k| == |r| == 4 && |n| == 24 && |ec| == 32
    ensures var src := k + r + n + ec;
            |src| == 64 && src[0..4] == k && src[4..8] == r && src[8..32] == n && src[32..64] == ec
  {
  }

  lemma DataLayout(k: Bytes, r: Bytes, c: Bytes, d: Bytes)
    requires |k| == |r| == 4 && |c| == 8
    ensures var src := k + r + c + d;
            |src| == 16 + |d| && src[0..4] == k && src[4..8] == r && src[8..16] == c && src[16..] == d
  {
  }

  lemma ParseInit(p: Packet, trailer: Bytes)
    requires p.HandshakeInit? && WellSized(p) && |trailer| == 32
    ensures ParseIncomingPacket(Encode(p) + trailer) == Ok(p)
  {
    InitLayout(Le(HANDSHAKE_INIT, 4), Le(p.senderIdx, 4), p.ephemeral, p.encryptedStatic, p.encryptedTimestamp,
               trailer);
    KindRoundTrip(HANDSHAKE_INIT, Encode(p) + trailer);
    LeRoundTrip32(p.senderIdx);
  }

  lemma ParseResponse(p: Packet, trailer: Bytes)
    requires p.HandshakeResponse? && WellSized(p) && |trailer| == 32
    ensures ParseIncomingPacket(Encode(p) + trailer) == Ok(p)
  {
    RespLayout(Le(HANDSHAKE_RESP, 4), Le(p.senderIdx, 4), Le(p.receiverIdx, 4), p.ephemeral, p.encryptedNothing,
               trailer);
    KindRoundTrip(HANDSHAKE_RESP, Encode(p) + trailer);
    LeRoundTrip32(p.senderIdx);
    LeRoundTrip32(p.receiverIdx);
  }

  lemma ParseCookieReply(p: Packet)
    requires p.PacketCookieReply? && WellSized(p)
    ensures ParseIncomingPacket(Encode(p)) == Ok(p)
  {
    CookieLayout(Le(COOKIE_REPLY, 4), Le(p.receiverIdx, 4), p.nonce, p.encryptedCookie);
    KindRoundTrip(COOKIE_REPLY, Encode(p));
    LeRoundTrip32(p.receiverIdx);
  }

  lemma ParseData(p: Packet)
    requires p.PacketData? && WellSized(p)
    ensures ParseIncomingPacket(Encode(p)) == Ok(p)
  {
    DataLayout(Le(DATA, 4), Le(p.receiverIdx, 4), Le(p.counter, 8), p.encrypted);
    KindRoundTrip(DATA, Encode(p));
    LeRoundTrip32(p.receiverIdx);
    LeRoundTrip64(p.counter);
  }

  /** Parsing undoes formatting, whatever the MACs are. */
  lemma ParseEncode(p: Packet, trailer: Bytes)
    requires WellSized(p) && |trailer| == TrailerSize(p)
    ensures ParseIncomingPacket(Encode(p) + trailer) == Ok(p)
  {
    match p
    case HandshakeInit(_, _, _, _) => ParseInit(p, trailer);
    case HandshakeResponse(_, _, _, _) => ParseResponse(p, trailer);
    case PacketCookieReply(_, _, _) =>
      ParseCookieReply(p);
      assert Encode(p) + trailer == Encode(p);
    case PacketData(_, _, _) =>
      ParseData(p);
      assert Encode(p) + trailer == Encode(p);
  }

  lemma {:induction false} LeOfFrom(b: Bytes)
    ensures Le(FromLe(b), |b|) == b
  {
    if b != [] {
      LeOfFrom(b[1..]);
    }
  }

  lemma Pieces(src: Bytes, i: nat, j: nat)
    requires i <= j <= |src|
    ensures src[..i] + src[i..j] == src[..j]
  {
  }

  /** Every datagram that parses is the encoding of what it parses to: no two
      layouts overlap and no bytes are ignored but the MACs. */
  lemma EncodeParse(src: Bytes)
    requires ParseIncomingPacket(src).Ok?
    ensures var p := ParseIncomingPacket(src).value;
            WellSized(p) && |src| == |Encode(p)| + TrailerSize(p) && Encode(p) == src[..|Encode(p)|]
  {
    LeOfFrom(src[0..4]);
    LeOfFrom(src[4..8]);
    assert src[..4] == src[0..4];
    Pieces(src, 4, 8);
    match ParseIncomingPacket(src).value
    case HandshakeInit(_, _, _, _) =>
      Pieces(src, 8, 40);
      Pieces(src, 40, 88);
      Pieces(src, 88, 116);
    case HandshakeResponse(_, _, _, _) =>
      LeOfFrom(src[8..12]);
      Pieces(src, 8, 12);
      Pieces(src, 12, 44);
      Pieces(src, 44, 60);
    case PacketCookieReply(_, _, _) =>
      Pieces(src, 8, 32);
      Pieces(src, 32, 64);
    case PacketData(_, _, _) =>
      LeOfFrom(src[8..16]);
      Pieces(src, 8, 16);
      Pieces(src, 16, |src|);
  }

  // ---------------------------------------------------------------- bytes and offsets

  lemma SmallLe(k: byte)
    ensures Le(k, 4) == [k, 0, 0, 0]
  {
    assert k / 256 == 0;
    assert Le(0, 1) == [0];
    assert Le(0, 2) == [0, 0];
    assert Le(0, 3) == [0, 0, 0];
  }

  /** Where each field of a packet lies, in bytes from the start. */
  lemma EncodedBytes(p: Packet)
    requires WellSized(p)
    ensures var d := Encode(p);
            match p
            case HandshakeInit(s, e, es, et) =>
              && |d| == 116 && d[..4] == [1, 0, 0, 0] && FromLe(d[4..8]) == s
              && d[8..40] == e && d[40..88] == es && d[88..] == et
            case HandshakeResponse(s, r, e, en) =>
              && |d| == 60 && d[..4] == [2, 0, 0, 0] && FromLe(d[4..8]) == s && FromLe(d[8..12]) == r
              && d[12..44] == e && d[44..] == en
            case PacketCookieReply(r, n, ec) =>
              |d| == 64 && d[..4] == [3, 0, 0, 0] && FromLe(d[4..8]) == r && d[8..32] == n && d[32..] == ec
            case PacketData(r, c, x) =>
              && |d| == 16 + |x| && d[..4] == [4, 0, 0, 0] && FromLe(d[4..8]) == r && FromLe(d[8..16]) == c
              && d[16..] == x
  {
    match p
    case HandshakeInit(s, e, es, et) =>
      SmallLe(1);
      LeRoundTrip32(s);
      InitFields(Le(1, 4), Le(s, 4), e, es, et);
    case HandshakeResponse(s, r, e, en) =>
      SmallLe(2);
      LeRoundTrip32(s);
      LeRoundTrip32(r);
      ResponseFields(Le(2, 4), Le(s, 4), Le(r, 4), e, en);
    case PacketCookieReply(r, n, ec) =>
      SmallLe(3);
      LeRoundTrip32(r);
      CookieLayout(Le(3, 4), Le(r, 4), n, ec);
      SameEnds(Encode(p), 4, 32);
    case PacketData(r, c, x) =>
      SmallLe(4);
      LeRoundTrip32(r);
      LeRoundTrip64(c);
      DataLayout(Le(4, 4), Le(r, 4), Le(c, 8), x);
      SameEnds(Encode(p), 4, 16);
  }

  lemma SameEnds(d: Bytes, i: nat, j: nat)
    requires i <= |d| && j <= |d|
    ensures d[..i] == d[0..i] && d[j..] == d[j..|d|]
  {
  }

  lemma InitFields(k: Bytes, s: Bytes, e: Bytes, es: Bytes, et: Bytes)
    requires |k| == |s| == 4 && |e| == 32 && |es| == 48 && |et| == 28
    ensures var d := k + s + e + es + et;
            |d| == 116 && d[..4] == k && d[4..8] == s && d[8..40] == e && d[40..88] == es && d[88..] == et
  {
  }

  lemma ResponseFields(k: Bytes, s: Bytes, r: Bytes, e: Bytes, en: Bytes)
    requires |k| == |s| == |r| == 4 && |e| == 32 && |en| == 16
    ensures var d := k + s + r + e + en;
            |d| == 60 && d[..4] == k && d[4..8] == s && d[8..12] == r && d[12..44] == e && d[44..] == en
  {
  }

  lemma KindBytes(d: Bytes, k: byte)
    requires |d| >= 4
    ensures U32At(d, 0) == k <==> d[..4] == [k, 0, 0, 0]
  {
    SmallLe(k);
    LeRoundTrip32(k);
    LeOfFrom(d[0..4]);
    assert d[..4] == d[0..4];
  }

  /** Which datagrams parse, and as what: the first four bytes and the length
      decide. */
  lemma ParsesIff(d: Bytes)
    ensures var r := ParseIncomingPacket(d);
            && (r.Ok? && r.value.HandshakeInit? <==> |d| == 148 && d[..4] == [1, 0, 0, 0])
            && (r.Ok? && r.value.HandshakeResponse? <==> |d| == 92 && d[..4] == [2, 0, 0, 0])
            && (r.Ok? && r.value.PacketCookieReply? <==> |d| == 64 && d[..4] == [3, 0, 0, 0])
            && (r.Ok? && r.value.PacketData? <==> |d| >= 32 && d[..4] == [4, 0, 0, 0])
            && (r.Err? ==> r.error == InvalidPacket)
  {
    if |d| >= 4 {
      KindBytes(d, 1);
      KindBytes(d, 2);
      KindBytes(d, 3);
      KindBytes(d, 4);
    }
  }
}
