/** The ring of sessions as objects: eight slots, each with a session, its counter
    validator and its bitmap, no two of them shared (noise/mod.rs, `Tunn.sessions`). */
module SessionRings {
  import opened Common
  import opened Crypto
  import opened Sessions
  import opened Tunnel
  import opened Wire
  import opened Loss

  class SessionRing {
    const slots: array<LiveSession?>
    /** The ring of values this object stands for. */
    ghost var model: Ring
    /** The slot each object of the ring belongs to, so no two slots share any. */
    ghost var home: map<object, nat>

    ghost predicate Valid()
      reads this, slots, home.Keys
    {
      && slots.Length == N_SESSIONS
      && this !in home && slots !in home
      && forall i :: 0 <= i < N_SESSIONS ==> SlotValid(i)
    }

    ghost predicate SlotValid(i: nat)
      requires slots.Length == N_SESSIONS && i < N_SESSIONS
      reads this, slots, home.Keys
    {
      var s := slots[i];
      if s == null then model[i] == None
      else
        && s in home && s.validator in home && s.validator.bitmap in home
        && home[s] == home[s.validator] == home[s.validator.bitmap] == i
        && s.Valid() && model[i] == Some(s.Model())
    }

    constructor ()
      ensures Valid() && fresh(slots) && home == map[] && model == EmptyRing
    {
      slots := new LiveSession?[N_SESSIONS](_ => null);
      home, model := map[], EmptyRing;
    }

    /** A new session takes the slot; the one it replaces is let go. */
    method Create(i: nat, localIndex: u32, peerIndex: u32, receiver: Key, sender: Key)
      requires Valid() && i < N_SESSIONS
      modifies this, slots
      ensures Valid() && fresh(home.Keys - old(home.Keys))
      ensures model == old(model)[i := Some(NewSession(localIndex, peerIndex, receiver, sender))]
      ensures slots[i] != null && fresh(slots[i])
    {
      var s := new LiveSession(localIndex, peerIndex, receiver, sender);
      slots[i] := s;
      home := home[s := i][s.validator := i][s.validator.bitmap := i];
      model := model[i := Some(s.Model())];
      forall j | 0 <= j < N_SESSIONS ensures SlotValid(j) {
        assert old(SlotValid(j));
      }
    }

    method Drop(i: nat)
      requires Valid() && i < N_SESSIONS
      modifies this`model, slots
      ensures Valid() && model == old(model)[i := None]
    {
      slots[i] := null;
      model := model[i := None];
      forall j | 0 <= j < N_SESSIONS ensures SlotValid(j) {
        assert old(SlotValid(j));
      }
    }

    /** Every slot is emptied. */
    method Clear()
      requires Valid()
      modifies this`model, slots
      ensures Valid() && model == EmptyRing
    {
      for i := 0 to N_SESSIONS
        invariant Valid()
        invariant forall j :: 0 <= j < i ==> model[j] == None
      {
        Drop(i);
      }
    }

    /** Format a packet on the session in a slot; no other slot changes. */
    method Format(i: nat, c: Suite, src: Bytes, dstLen: nat) returns (datagram: Bytes)
      requires Valid() && i < N_SESSIONS && slots[i] != null && dstLen >= |src| + DATA_OVERHEAD_SZ
      modifies this`model, slots[i]
      ensures Valid() && old(model)[i].Some?
      ensures datagram == FormatPacketData(c, old(model)[i].value, src).1
      ensures model == old(model)[i := Some(FormatPacketData(c, old(model)[i].value, src).0)]
    {
      assert SlotValid(i);
      datagram := slots[i].Format(c, src, dstLen);
      model := model[i := Some(slots[i].Model())];
      forall j | 0 <= j < N_SESSIONS ensures SlotValid(j) {
        assert old(SlotValid(j));
      }
    }

    /** Receive a packet on the session in a slot: its bitmap is updated in place and
        no other slot's is. */
    method Receive(i: nat, c: Suite, m: Packet, dstLen: nat) returns (r: Result<Bytes>)
      requires Valid() && i < N_SESSIONS && slots[i] != null && m.PacketData? && dstLen >= |m.encrypted|
      modifies this`model, slots[i].validator, slots[i].validator.bitmap
      ensures Valid() && old(model)[i].Some?
      ensures r == ReceivePacketData(c, old(model)[i].value, m).1 && (r.Err? ==> model == old(model))
      ensures model == old(model)[i := Some(ReceivePacketData(c, old(model)[i].value, m).0)]
    {
      assert SlotValid(i);
      r := slots[i].Receive(c, m, dstLen);
      model := model[i := Some(slots[i].Model())];
      forall j | 0 <= j < N_SESSIONS ensures SlotValid(j) {
        assert old(SlotValid(j));
      }
    }

    /** Is there a session in the slot? */
    predicate Live(i: nat)
      requires Valid() && i < N_SESSIONS
      reads this, slots, home.Keys
      ensures Live(i) <==> model[i].Some?
      ensures slots[i] != null && Live(i) ==> {slots[i], slots[i].validator, slots[i].validator.bitmap} <= home.Keys
    {
      assert SlotValid(i);
      slots[i] != null
    }

    /** What `current_packet_cnt` tells of a slot, as a loss. */
    function LossAt(i: nat): (l: Option<real>)
      requires Valid() && i < N_SESSIONS
      reads this, slots, home.Keys
      ensures l == if model[i].None? then None else Some(LossOf(model[i].value))
    {
      assert SlotValid(i);
      if slots[i] == null then None
      else
        var (expected, received) := slots[i].CurrentPacketCnt();
        Some(if expected == 0 then 0.0 else 1.0 - received as real / expected as real)
    }

    /** The weighted mean of the losses, newest session first. */
    method EstimateLoss(current: nat) returns (loss: real)
      requires Valid()
      ensures loss == EstimatedLoss(model, current)
    {
      var weight, curAvg, totalWeight := 9.0, 0.0, 0.0;
      ghost var ls := [];
      for i := 0 to N_SESSIONS
        invariant ls == Losses(model, current, i)
        invariant curAvg == WeightedSum(ls) && totalWeight == TotalWeight(|ls|) && weight == Weight(|ls|)
      {
        var l := LossAt(Visited(current, i));
        if l.Some? {
          curAvg := curAvg + Weighted(l.value, weight);
          totalWeight := totalWeight + weight;
          weight := weight / 3.0;
          SumAppend(ls, l.value);
          ls := ls + [l.value];
        }
      }
      loss := if totalWeight == 0.0 then 0.0 else curAvg / totalWeight;
    }
  }
}
