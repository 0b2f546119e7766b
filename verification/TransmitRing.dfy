/** The e1000 transmit ring.

    `e1000_start_xmit` copies a frame into the buffer slot of the tail descriptor and moves
    the tail (TDT); the device, in its own time, sends the frame of the head descriptor and
    moves the head (TDH).  The run theorems range over every interleaving of the two.
 */
module TransmitRing {
  import opened MaskedRegister

  const NB_SND_DESC: nat := 256
  const BUF_SIZE_BY_DESC: nat := 2048
  const SEND_BUFF: nat := 524288 // BUF_SIZE_BY_DESC * NB_SND_DESC, already a multiple of 4096

  // Bits of the descriptor's command byte, and of its status byte.
  const TX_EOP: nat := 0
  const TX_RS: nat := 3
  const TX_COMMAND: Byte := 0x0B // TX_EOP | TX_IFCS | TX_RS
  const DD: Byte := 0x01

  type Frame = seq<Byte>

  datatype Skb = Skb(nrFrags: nat, data: Frame)

  /** address is the offset of the slot inside the DMA buffer; length is a uint16_t. */
  datatype Desc = Desc(address: nat, length: nat, command: Byte, status: Byte)

  /** What driver and device share, and what the device remembers: the bytes of the frame it
      is putting together until it meets an end-of-packet descriptor. */
  datatype Ring = Ring(desc: seq<Desc>, buff: seq<Byte>, tdh: nat, tdt: nat, partial: Frame)

  ghost predicate WellFormed(r: Ring) {
    && |r.desc| == NB_SND_DESC && |r.buff| == SEND_BUFF
    && r.tdh < NB_SND_DESC && r.tdt < NB_SND_DESC
    && forall i :: 0 <= i < NB_SND_DESC ==>
         r.desc[i].address == i * BUF_SIZE_BY_DESC && r.desc[i].address + r.desc[i].length <= SEND_BUFF
  }

  function InitialRing(buff: seq<Byte>): Ring {
    Ring(seq(NB_SND_DESC, (i: nat) => Desc(i * BUF_SIZE_BY_DESC, 0, 0, 0)), buff, 0, 0, [])
  }

  /** The k-th descriptor from the head, going round. */
  function Slot(r: Ring, k: nat): nat
    requires r.tdh < NB_SND_DESC && k < NB_SND_DESC
  {
    if r.tdh + k < NB_SND_DESC then r.tdh + k else r.tdh + k - NB_SND_DESC
  }

  /** Descriptors the device has still to send: from the head round to the tail. */
  function Pending(r: Ring): (n: nat)
    requires r.tdh < NB_SND_DESC && r.tdt < NB_SND_DESC
    ensures n < NB_SND_DESC && n == (r.tdt - r.tdh) % NB_SND_DESC
  {
    if r.tdh <= r.tdt then r.tdt - r.tdh else r.tdt + NB_SND_DESC - r.tdh
  }

  function Inc(i: nat): (j: nat)
    requires i < NB_SND_DESC
    ensures j == if i == NB_SND_DESC - 1 then 0 else i + 1
  {
    (i + 1) % NB_SND_DESC
  }

  function FrameAt(r: Ring, i: nat): Frame
    requires WellFormed(r) && i < NB_SND_DESC
  {
    r.buff[r.desc[i].address .. r.desc[i].address + r.desc[i].length]
  }

  function Overwrite(buff: seq<Byte>, at: nat, data: seq<Byte>): seq<Byte>
    requires at + |data| <= |buff|
  {
    buff[..at] + data + buff[at + |data|..]
  }

  /** memcpy to this slot stays inside the DMA buffer. */
  predicate FitsAt(tail: nat, data: Frame) {
    tail * BUF_SIZE_BY_DESC + |data| <= SEND_BUFF
  }

  predicate FitsBuffer(r: Ring, data: Frame) {
    FitsAt(r.tdt, data)
  }

  /** The bytes of a frame that land in the buffer; what memcpy writes behind it is not modelled. */
  function Inside(tail: nat, data: Frame): Frame
    requires tail < NB_SND_DESC
  {
    if FitsAt(tail, data) then data else data[..SEND_BUFF - tail * BUF_SIZE_BY_DESC]
  }

  /** What `e1000_start_xmit` does: a fragmented packet is dropped, any other goes to the tail. */
  function AfterXmit(r: Ring, skb: Skb): Ring
    requires WellFormed(r)
  {
    if skb.nrFrags != 0 then r
    else
      r.(buff := Overwrite(r.buff, r.tdt * BUF_SIZE_BY_DESC, Inside(r.tdt, skb.data)),
         desc := r.desc[r.tdt := Desc(r.desc[r.tdt].address, |skb.data| % 65536, TX_COMMAND, 0)],
         tdt := Inc(r.tdt))
  }

  /** One device step: nothing while head and tail meet, else consume the head descriptor. */
  function Fetch(r: Ring): (Ring, seq<Frame>)
    requires WellFormed(r)
  {
    if r.tdh == r.tdt then (r, [])
    else
      var d := r.desc[r.tdh];
      var whole := r.partial + FrameAt(r, r.tdh);
      var status := if Bit(d.command, TX_RS) then DD else d.status;
      var r' := r.(desc := r.desc[r.tdh := d.(status := status)], tdh := Inc(r.tdh));
      if Bit(d.command, TX_EOP) then (r'.(partial := []), [whole]) else (r'.(partial := whole), [])
  }

  // ---- Runs ----

  /** The ring with two histories: frames accepted from the kernel, frames put on the wire. */
  datatype System = System(ring: Ring, accepted: seq<Frame>, emitted: seq<Frame>)

  datatype Step = Xmit(skb: Skb) | DeviceFetch

  /** No run leaves the ring well formed without these two limits, which the code does not test. */
  ghost predicate Admissible(r: Ring, step: Step)
    requires WellFormed(r)
  {
    step.Xmit? && step.skb.nrFrags == 0 ==>
      |step.skb.data| <= BUF_SIZE_BY_DESC && Pending(r) < NB_SND_DESC - 1
  }

  ghost function Next(s: System, step: Step): System
    requires WellFormed(s.ring) && Admissible(s.ring, step)
  {
    match step
    case Xmit(skb) =>
      System(AfterXmit(s.ring, skb), if skb.nrFrags == 0 then s.accepted + [skb.data] else s.accepted, s.emitted)
    case DeviceFetch =>
      var (r, out) := Fetch(s.ring);
      System(r, s.accepted, s.emitted + out)
  }

  /** s leads to t by the given steps, each admissible when it is taken. */
  ghost predicate Reaches(s: System, steps: seq<Step>, t: System)
    decreases |steps|
  {
    if steps == [] then s == t
    else
      WellFormed(s.ring) && Admissible(s.ring, steps[0]) && Reaches(Next(s, steps[0]), steps[1..], t)
  }

  // The pending slots hold, in order, the frames accepted and not yet emitted.
  ghost predicate Queued(s: System, k: nat)
    requires WellFormed(s.ring) && k < Pending(s.ring) && |s.accepted| == |s.emitted| + Pending(s.ring)
  {
    var d := s.ring.desc[Slot(s.ring, k)];
    && d.length <= BUF_SIZE_BY_DESC && d.command == TX_COMMAND && d.status == 0
    && FrameAt(s.ring, Slot(s.ring, k)) == s.accepted[|s.emitted| + k]
  }

  ghost predicate IsFifo(s: System) {
    && WellFormed(s.ring) && s.ring.partial == []
    && |s.accepted| == |s.emitted| + Pending(s.ring)
    && s.emitted == s.accepted[..|s.emitted|]
    && forall k: nat :: k < Pending(s.ring) ==> Queued(s, k)
  }

  ghost function InitialSystem(buff: seq<Byte>): System {
    System(InitialRing(buff), [], [])
  }

  lemma InitialIsFifo(buff: seq<Byte>)
    requires |buff| == SEND_BUFF
    ensures IsFifo(InitialSystem(buff))
  {
  }

  /** What is not on the wire yet is what the ring holds. */
  lemma RestIsPending(s: System)
    requires IsFifo(s)
    ensures s.accepted == s.emitted + s.accepted[|s.accepted| - Pending(s.ring)..]
  {
  }

  lemma OverwriteSlice(buff: seq<Byte>, at: nat, data: seq<Byte>, lo: nat, hi: nat)
    requires at + |data| <= |buff| && lo <= hi <= |buff|
    requires hi <= at || at + |data| <= lo
    ensures Overwrite(buff, at, data)[lo..hi] == buff[lo..hi]
    ensures Overwrite(buff, at, data)[at .. at + |data|] == data
  {
  }

  lemma XmitKeepsShape(r: Ring, skb: Skb)
    requires WellFormed(r) && (skb.nrFrags == 0 ==> FitsBuffer(r, skb.data))
    ensures WellFormed(AfterXmit(r, skb))
  {
  }

  /** Writing the tail slot leaves the bytes of every other slot alone. */
  lemma OtherSlotsUndisturbed(r: Ring, skb: Skb, i: nat)
    requires WellFormed(r) && skb.nrFrags == 0 && |skb.data| <= BUF_SIZE_BY_DESC
    requires i < NB_SND_DESC && i != r.tdt && r.desc[i].length <= BUF_SIZE_BY_DESC
    ensures FitsBuffer(r, skb.data) && WellFormed(AfterXmit(r, skb))
    ensures FrameAt(AfterXmit(r, skb), i) == FrameAt(r, i)
  {
    XmitKeepsShape(r, skb);
    OverwriteSlice(r.buff, r.tdt * BUF_SIZE_BY_DESC, skb.data,
                   r.desc[i].address, r.desc[i].address + r.desc[i].length);
  }

  lemma TailSlotHolds(r: Ring, skb: Skb)
    requires WellFormed(r) && skb.nrFrags == 0 && |skb.data| < 65536 && FitsBuffer(r, skb.data)
    ensures WellFormed(AfterXmit(r, skb)) && FrameAt(AfterXmit(r, skb), r.tdt) == skb.data
  {
    XmitKeepsShape(r, skb);
    OverwriteSlice(r.buff, r.tdt * BUF_SIZE_BY_DESC, skb.data, 0, 0);
  }

  lemma XmitQueuesLast(s: System, skb: Skb)
    requires IsFifo(s) && Admissible(s.ring, Xmit(skb)) && skb.nrFrags == 0
    ensures WellFormed(AfterXmit(s.ring, skb)) && Pending(AfterXmit(s.ring, skb)) == Pending(s.ring) + 1
    ensures Queued(Next(s, Xmit(skb)), Pending(s.ring))
  {
    TailSlotHolds(s.ring, skb);
    assert Slot(s.ring, Pending(s.ring)) == s.ring.tdt;
  }

  lemma XmitKeepsQueued(s: System, skb: Skb, k: nat)
    requires IsFifo(s) && Admissible(s.ring, Xmit(skb)) && skb.nrFrags == 0 && k < Pending(s.ring)
    ensures WellFormed(AfterXmit(s.ring, skb)) && Pending(AfterXmit(s.ring, skb)) == Pending(s.ring) + 1
    ensures Queued(Next(s, Xmit(skb)), k)
  {
    assert Queued(s, k);
    assert Slot(s.ring, k) != s.ring.tdt;
    OtherSlotsUndisturbed(s.ring, skb, Slot(s.ring, k));
  }

  lemma XmitKeepsFifo(s: System, skb: Skb)
    requires IsFifo(s) && Admissible(s.ring, Xmit(skb))
    ensures IsFifo(Next(s, Xmit(skb))) && (skb.nrFrags != 0 ==> Next(s, Xmit(skb)) == s)
  {
    if skb.nrFrags == 0 {
      var t := Next(s, Xmit(skb));
      XmitKeepsShape(s.ring, skb);
      assert Pending(t.ring) == Pending(s.ring) + 1;
      forall k: nat | k < Pending(t.ring)
        ensures Queued(t, k)
      {
        if k < Pending(s.ring) {
          XmitKeepsQueued(s, skb, k);
        } else {
          XmitQueuesLast(s, skb);
        }
      }
    }
  }

  lemma FetchKeepsFrames(r: Ring, i: nat)
    requires WellFormed(r) && i < NB_SND_DESC
    ensures WellFormed(Fetch(r).0) && FrameAt(Fetch(r).0, i) == FrameAt(r, i)
  {
  }

  lemma FetchEmits(s: System)
    requires IsFifo(s) && s.ring.tdh != s.ring.tdt
    ensures Next(s, DeviceFetch).emitted == s.emitted + [s.accepted[|s.emitted|]]
    ensures Next(s, DeviceFetch).ring.partial == []
  {
    assert Queued(s, 0);
    assert Bit(TX_COMMAND, TX_EOP);
    assert s.ring.partial + FrameAt(s.ring, s.ring.tdh) == s.accepted[|s.emitted|];
  }

  lemma FetchKeepsFifo(s: System)
    requires IsFifo(s)
    ensures IsFifo(Next(s, DeviceFetch))
  {
    if s.ring.tdh != s.ring.tdt {
      var t := Next(s, DeviceFetch);
      FetchKeepsFrames(s.ring, 0);
      FetchEmits(s);
      forall k: nat | k < Pending(t.ring)
        ensures Queued(t, k)
      {
        assert Queued(s, k + 1);
        assert Slot(t.ring, k) == Slot(s.ring, k + 1);
        FetchKeepsFrames(s.ring, Slot(s.ring, k + 1));
      }
    }
  }

  /** The command byte asks for the end of the packet, the checksum and a report, and for nothing else. */
  lemma CommandBits(i: nat)
    ensures Bit(TX_COMMAND, i) <==> i in {0, 1, 3}
  {
    if i >= 4 {
      assert Pow2(4) == 16;
      NoBitAbove(TX_COMMAND, 4, i);
    } else {
      assert Bit(11, 0) && Bit(11, 1) && !Bit(11, 2) && Bit(11, 3);
    }
  }

  /** The driver asks for status: a sent descriptor reports so, and until then it does not. */
  lemma StatusTellsSent(s: System)
    requires IsFifo(s) && s.ring.tdh != s.ring.tdt
    ensures s.ring.desc[s.ring.tdh].status == 0 && Fetch(s.ring).0.desc[s.ring.tdh].status == DD
  {
    assert Queued(s, 0);
    assert Bit(TX_COMMAND, TX_RS);
  }

  /** Every interleaving refines a FIFO: what is on the wire is a prefix of what was accepted, byte
      for byte, and the rest is exactly the (TDT - TDH) mod 256 frames waiting in the ring. */
  lemma {:induction false} EveryRunIsFifo(s: System, steps: seq<Step>, t: System)
    requires IsFifo(s) && Reaches(s, steps, t)
    ensures IsFifo(t)
    decreases |steps|
  {
    if steps != [] {
      match steps[0] {
        case Xmit(skb) => XmitKeepsFifo(s, skb);
        case DeviceFetch => FetchKeepsFifo(s);
      }
      EveryRunIsFifo(Next(s, steps[0]), steps[1..], t);
    }
  }

  lemma TransmitRefinesFifo(buff: seq<Byte>, steps: seq<Step>, t: System)
    requires |buff| == SEND_BUFF && Reaches(InitialSystem(buff), steps, t)
    ensures t.emitted <= t.accepted
    ensures WellFormed(t.ring) && |t.accepted| - |t.emitted| == Pending(t.ring)
  {
    InitialIsFifo(buff);
    EveryRunIsFifo(InitialSystem(buff), steps, t);
  }

  function Fetches(n: nat): seq<Step> {
    seq(n, _ => DeviceFetch)
  }

  /** And nothing is ever stuck: left alone for Pending steps, the device sends all of it. */
  lemma {:induction false} DeviceDrains(s: System) returns (t: System)
    requires IsFifo(s)
    ensures Reaches(s, Fetches(Pending(s.ring)), t)
    ensures t.emitted == t.accepted == s.accepted
    decreases Pending(s.ring)
  {
    if Pending(s.ring) == 0 {
      t := s;
    } else {
      FetchKeepsFifo(s);
      assert Queued(s, 0);
      var n := Next(s, DeviceFetch);
      t := DeviceDrains(n);
      assert Fetches(Pending(s.ring))[1..] == Fetches(Pending(n.ring));
    }
  }

  // ---- The two limits are exact ----

  /** One more frame joins the queue exactly when fewer than 255 are waiting.  With 255 waiting the
      tail meets the head, and the device takes all 256 frames for an empty ring. */
  lemma AcceptedIffNotFull(r: Ring, skb: Skb)
    requires WellFormed(r) && skb.nrFrags == 0 && FitsBuffer(r, skb.data)
    ensures Pending(AfterXmit(r, skb)) == Pending(r) + 1 <==> Pending(r) < NB_SND_DESC - 1
    ensures Pending(r) == NB_SND_DESC - 1 ==> Pending(AfterXmit(r, skb)) == 0
  {
  }

  ghost function Sent(s: System, skb: Skb): System
    requires WellFormed(s.ring)
  {
    System(AfterXmit(s.ring, skb), s.accepted + [skb.data], s.emitted)
  }

  /** Together: a transmission keeps the ring a queue if and only if the frame fits a slot and fewer than
      255 are waiting. */
  lemma KeepsFifoIff(s: System, skb: Skb)
    requires IsFifo(s) && skb.nrFrags == 0 && FitsBuffer(s.ring, skb.data)
    ensures IsFifo(Sent(s, skb)) <==> |skb.data| <= BUF_SIZE_BY_DESC && Pending(s.ring) < NB_SND_DESC - 1
  {
    AcceptedIffNotFull(s.ring, skb);
    if Pending(s.ring) < NB_SND_DESC - 1 {
      if |skb.data| <= BUF_SIZE_BY_DESC {
        XmitKeepsFifo(s, skb);
      }
      if IsFifo(Sent(s, skb)) {
        QueuedFits(s, skb);
      }
    }
  }

  lemma QueuedFits(s: System, skb: Skb)
    requires IsFifo(s) && skb.nrFrags == 0 && FitsBuffer(s.ring, skb.data)
    requires Pending(s.ring) < NB_SND_DESC - 1 && IsFifo(Sent(s, skb))
    ensures |skb.data| <= BUF_SIZE_BY_DESC
  {
    var t, n := Sent(s, skb), Pending(s.ring);
    assert Queued(t, n) && Slot(t.ring, n) == s.ring.tdt;
    assert |FrameAt(t.ring, s.ring.tdt)| == |skb.data|;
  }

  /** memcpy stays inside the DMA buffer wherever the tail is exactly when the frame fits a slot. */
  lemma InsideIffFitsSlot(data: Frame)
    ensures (forall tail: nat :: tail < NB_SND_DESC ==> FitsAt(tail, data)) <==> |data| <= BUF_SIZE_BY_DESC
  {
    if |data| > BUF_SIZE_BY_DESC {
      assert !FitsAt(NB_SND_DESC - 1, data);
    }
  }

  /** A frame survives the next transmission, whatever it is, exactly when it fits its slot: a longer one
      runs into the next slot, and from 65536 bytes on its 16-bit length is wrong as well. */
  lemma SurvivesIffFitsSlot(r: Ring, first: Frame)
    requires WellFormed(r) && FitsBuffer(r, first)
    ensures |first| <= BUF_SIZE_BY_DESC <==>
            forall second: Frame :: |second| <= BUF_SIZE_BY_DESC ==>
              FrameAt(SentTwo(r, first, second), r.tdt) == first
  {
    var r1 := AfterXmit(r, Skb(0, first));
    XmitKeepsShape(r, Skb(0, first));
    if |first| <= BUF_SIZE_BY_DESC {
      TailSlotHolds(r, Skb(0, first));
      forall second: Frame | |second| <= BUF_SIZE_BY_DESC
        ensures FrameAt(SentTwo(r, first, second), r.tdt) == first
      {
        OtherSlotsUndisturbed(r1, Skb(0, second), r.tdt);
      }
    } else {
      var other: Byte := if first[BUF_SIZE_BY_DESC] == 0 then 1 else 0;
      var after := SentTwo(r, first, [other]);
      if |first| < 65536 {
        assert FrameAt(after, r.tdt)[BUF_SIZE_BY_DESC] == after.buff[r1.tdt * BUF_SIZE_BY_DESC] == other;
      } else {
        assert |FrameAt(after, r.tdt)| == |first| % 65536 != |first|;
      }
    }
  }

  function SentTwo(r: Ring, first: Frame, second: Frame): (r': Ring)
    requires WellFormed(r) && FitsBuffer(r, first) && |second| <= BUF_SIZE_BY_DESC
    ensures WellFormed(r')
  {
    AfterXmit(AfterXmit(r, Skb(0, first)), Skb(0, second))
  }

  // ---- The driver's code ----

  /** The descriptors and buffers of `data->send`, with the two ring registers. */
  class SendQueue {
    const descriptors: array<Desc>
    const buff: array<Byte>
    var tdh: nat
    var tdt: nat
    var partial: Frame

    ghost function State(): Ring
      reads this, descriptors, buff
    {
      Ring(descriptors[..], buff[..], tdh, tdt, partial)
    }

    /** The transmit half of `init_queue`: clear the descriptors, give each its slot, and set both
        ring registers to 0. */
    constructor (memory: array<Byte>)
      requires memory.Length == SEND_BUFF
      ensures buff == memory && fresh(descriptors)
      ensures State() == InitialRing(memory[..])
      ensures WellFormed(State())
    {
      descriptors := new Desc[NB_SND_DESC](_ => Desc(0, 0, 0, 0));
      buff := memory;
      tdh, tdt, partial := 0, 0, [];
      new;
      for i := 0 to NB_SND_DESC
        invariant forall k :: 0 <= k < i ==> descriptors[k] == Desc(k * BUF_SIZE_BY_DESC, 0, 0, 0)
        invariant forall k :: i <= k < NB_SND_DESC ==> descriptors[k] == Desc(0, 0, 0, 0)
        invariant tdh == tdt == 0 && partial == []
      {
        descriptors[i] := descriptors[i].(address := i * BUF_SIZE_BY_DESC);
      }
      assert descriptors[..] == InitialRing(buff[..]).desc;
    }

    method Memcpy(at: nat, data: Frame)
      requires at + |data| <= buff.Length
      modifies buff
      ensures buff[..] == Overwrite(old(buff[..]), at, data)
    {
      for i := 0 to |data|
        invariant forall j :: 0 <= j < i ==> buff[at + j] == data[j]
        invariant forall j :: 0 <= j < buff.Length && !(at <= j < at + i) ==> buff[j] == old(buff[j])
      {
        buff[at + i] := data[i];
      }
      assert buff[..] == Overwrite(old(buff[..]), at, data);
    }

    /** outside: how many bytes memcpy wrote past the end of the DMA buffer. */
    method StartXmit(skb: Skb) returns (outside: nat)
      requires WellFormed(State())
      modifies this, descriptors, buff
      ensures State() == AfterXmit(old(State()), skb)
      ensures outside == if skb.nrFrags != 0 then 0 else |skb.data| - |Inside(old(tdt), skb.data)|
    {
      outside := 0;
      if skb.nrFrags != 0 {
        return;
      }
      var tail := tdt;
      var inside := Inside(tail, skb.data);
      outside := |skb.data| - |inside|;
      Memcpy(tail * BUF_SIZE_BY_DESC, inside);
      descriptors[tail] := descriptors[tail].(length := |skb.data| % 65536);
      descriptors[tail] := descriptors[tail].(command := TX_COMMAND);
      descriptors[tail] := descriptors[tail].(status := 0);
      tail := Inc(tail);
      tdt := tail;
    }
  }
}
