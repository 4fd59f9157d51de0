/** A session: one pair of transport keys with its counters
    (noise/session.rs, `Session`). */
module Sessions {
  import opened Common
  import opened Crypto
  import opened Replay
  import opened Wire

  datatype Session = Session(
    receivingIndex: u32,
    sendingIndex: u32,
    receiver: Key,
    sender: Key,
    sendingKeyCounter: u64,
    window: Window,
    receiveCnt: u64)

  function NewSession(localIndex: u32, peerIndex: u32, receivingKey: Key, sendingKey: Key): Session {
    Session(localIndex, peerIndex, receivingKey, sendingKey, 0, EmptyWindow, 0)
  }

  /** The datagram `format_packet_data` writes for the counter it draws. */
  function DataPacket(c: Suite, s: Session, counter: u64, src: Bytes): Packet {
    PacketData(s.sendingIndex, counter, c.seal(s.sender, CounterNonce(counter), [], src))
  }

  function FormatPacketData(c: Suite, s: Session, src: Bytes): (Session, Bytes) {
    (s.(sendingKeyCounter := (s.sendingKeyCounter + 1) % U64), Encode(DataPacket(c, s, s.sendingKeyCounter, src)))
  }

  /** The part of `receive_packet_data` before the second lock: index check,
      quick check, decryption. */
  function DecryptPacketData(c: Suite, s: Session, p: Packet): Result<Bytes>
    requires p.PacketData?
  {
    if p.receiverIdx != s.receivingIndex then Err(WrongIndex)
    else if WillAccept(s.window, p.counter).Err? then Err(WillAccept(s.window, p.counter).error)
    else
      match c.open(s.receiver, CounterNonce(p.counter), [], p.encrypted)
      case None => Err(InvalidAeadTag)
      case Some(plain) => Ok(plain)
  }

  /** `receiving_counter_mark`. */
  function MarkReceived(s: Session, counter: u64): (Session, Result<()>) {
    var (w, r) := Mark(s.window, counter);
    if r.Ok? then (s.(window := w, receiveCnt := (s.receiveCnt + 1) % U64), r) else (s, r)
  }

  function ReceivePacketData(c: Suite, s: Session, p: Packet): (Session, Result<Bytes>)
    requires p.PacketData?
  {
    var plain := DecryptPacketData(c, s, p);
    if plain.Err? then (s, plain)
    else
      var (s', r) := MarkReceived(s, p.counter);
      (s', if r.Err? then Err(r.error) else plain)
  }

  /** The keys and indices of two sessions cross: what either sends, the other
      can receive. */
  predicate Crossed(a: Session, b: Session) {
    && a.sender == b.receiver
    && a.receiver == b.sender
    && a.sendingIndex == b.receivingIndex
    && a.receivingIndex == b.sendingIndex
  }

  /** A session object: the counters live in place, the bitmap validator included. */
  class LiveSession {
    const receivingIndex: u32
    const sendingIndex: u32
    const receiver: Key
    const sender: Key
    var sendingKeyCounter: u64
    const validator: CounterValidator

    ghost predicate Valid()
      reads this, validator, validator.bitmap
    {
      validator.Valid()
    }

    ghost function Model(): Session
      reads this, validator
    {
      Session(receivingIndex, sendingIndex, receiver, sender, sendingKeyCounter, validator.Model(),
              validator.receiveCnt)
    }

    constructor (localIndex: u32, peerIndex: u32, receivingKey: Key, sendingKey: Key)
      ensures Valid() && fresh(validator) && fresh(validator.bitmap)
      ensures Model() == NewSession(localIndex, peerIndex, receivingKey, sendingKey)
    {
      receivingIndex, sendingIndex, receiver, sender := localIndex, peerIndex, receivingKey, sendingKey;
      sendingKeyCounter := 0;
      validator := new CounterValidator();
    }

    /** The caller must offer a buffer of at least the packet plus 32 bytes; the
        program stops otherwise. */
    method Format(c: Suite, src: Bytes, dstLen: nat) returns (datagram: Bytes)
      requires dstLen >= |src| + DATA_OVERHEAD_SZ
      modifies this`sendingKeyCounter
      ensures (Model(), datagram) == FormatPacketData(c, old(Model()), src)
    {
      var counter := sendingKeyCounter;
      sendingKeyCounter := (sendingKeyCounter + 1) % U64;
      var header := Le(DATA, 4) + Le(sendingIndex, 4) + Le(counter, 8);
      datagram := header + c.seal(sender, CounterNonce(counter), [], src);
    }

    method Receive(c: Suite, p: Packet, dstLen: nat) returns (r: Result<Bytes>)
      requires Valid() && p.PacketData? && dstLen >= |p.encrypted|
      modifies validator, validator.bitmap
      ensures Valid() && (Model(), r) == ReceivePacketData(c, old(Model()), p)
    {
      if p.receiverIdx != receivingIndex {
        return Err(WrongIndex);
      }
      var quick := validator.WillAcceptCounter(p.counter);
      if quick.Err? {
        return Err(quick.error);
      }
      var plain := c.open(receiver, CounterNonce(p.counter), [], p.encrypted);
      if plain.None? {
        return Err(InvalidAeadTag);
      }
      var marked := validator.MarkDidReceive(p.counter);
      if marked.Err? {
        return Err(marked.error);
      }
      validator.receiveCnt := (validator.receiveCnt + 1) % U64;
      return Ok(plain.value);
    }

    /** Packets expected and received so far. */
    function CurrentPacketCnt(): (cnt: (u64, u64))
      reads this, validator
      ensures cnt == (Model().window.next, Model().receiveCnt)
    {
      (validator.next, validator.receiveCnt)
    }
  }
}
