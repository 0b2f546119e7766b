/** The e1000 receive ring.

    The device owns the descriptors from its head (RDH) up to the tail (RDT) and fills them in
    order; `e1000_read` takes the descriptor after the tail and gives it back by moving the
    tail onto it.  The driver never clears a descriptor's status byte, so a descriptor that was
    filled once looks full for ever: that is what the last two lemmas are about.

    `init_queue` allocates the receive buffers with the size of the descriptors, so slots are
    modelled as whole frames here; `E1000Lifetime.RecvSlotAllocatedIff` says which slots exist.
 */
module ReceiveRing {
  import opened MaskedRegister

  const NB_RCV_DESC: nat := 256
  const RX_EOP: nat := 1      // bit number
  const RX_DONE: Byte := 0x03 // DD | EOP, written by the device with the frame

  type Frame = seq<Byte>

  datatype Desc = Desc(frame: Frame, status: Byte)

  datatype Ring = Ring(desc: seq<Desc>, rdh: nat, rdt: nat)

  ghost predicate WellFormed(r: Ring) {
    |r.desc| == NB_RCV_DESC && r.rdh < NB_RCV_DESC && r.rdt < NB_RCV_DESC
  }

  function InitialRing(): Ring {
    Ring(seq(NB_RCV_DESC, _ => Desc([], 0)), 0, NB_RCV_DESC - 1)
  }

  function Inc(i: nat): (j: nat)
    requires i < NB_RCV_DESC
    ensures j == if i == NB_RCV_DESC - 1 then 0 else i + 1
  {
    (i + 1) % NB_RCV_DESC
  }

  /** The device may write slot i: it lies on the way from the head to the tail. */
  predicate DeviceOwns(r: Ring, i: nat)
    requires WellFormed(r)
  {
    if r.rdh <= r.rdt then r.rdh <= i < r.rdt else r.rdh <= i < NB_RCV_DESC || i < r.rdt
  }

  /** A frame arrives: dropped while head and tail meet, else stored at the head. */
  function Fill(r: Ring, frame: Frame): Ring
    requires WellFormed(r)
  {
    if r.rdh == r.rdt then r
    else r.(desc := r.desc[r.rdh := Desc(frame, RX_DONE)], rdh := Inc(r.rdh))
  }

  datatype Option<T> = None | Some(value: T)

  /** What `e1000_read` does; skbOk is whether dev_alloc_skb succeeds. */
  function AfterRead(r: Ring, skbOk: bool): (Ring, Option<Frame>)
    requires WellFormed(r)
  {
    var tail := Inc(r.rdt);
    if !Bit(r.desc[tail].status, RX_EOP) || !skbOk then (r, None)
    else (r.(rdt := tail), Some(r.desc[tail].frame))
  }

  // ---- Runs ----

  /** received: frames the device stored, and written: the slot each went to; delivered: frames handed
      to netif_rx. */
  datatype System = System(ring: Ring, received: seq<Frame>, delivered: seq<Frame>, written: seq<nat>)

  datatype Step = Arrive(frame: Frame) | Read(skbOk: bool)

  ghost predicate Fresh(s: System) {
    |s.delivered| < |s.received|
  }

  ghost predicate Admissible(s: System, step: Step) {
    step.Read? ==> Fresh(s)
  }

  ghost function Next(s: System, step: Step): System
    requires WellFormed(s.ring)
  {
    match step
    case Arrive(frame) =>
      if s.ring.rdh == s.ring.rdt then s
      else s.(ring := Fill(s.ring, frame), received := s.received + [frame], written := s.written + [s.ring.rdh])
    case Read(skbOk) =>
      var (r, out) := AfterRead(s.ring, skbOk);
      s.(ring := r, delivered := if out.Some? then s.delivered + [out.value] else s.delivered)
  }

  ghost predicate Reaches(s: System, steps: seq<Step>, t: System)
    decreases |steps|
  {
    if steps == [] then s == t
    else WellFormed(s.ring) && Admissible(s, steps[0]) && Reaches(Next(s, steps[0]), steps[1..], t)
  }

  /** The next slot to read after k further reads. */
  function SlotAhead(r: Ring, k: nat): (i: nat)
    requires WellFormed(r) && k < NB_RCV_DESC
  {
    if r.rdt + 1 + k < NB_RCV_DESC then r.rdt + 1 + k else r.rdt + 1 + k - NB_RCV_DESC
  }

  ghost predicate Stored(s: System, k: nat)
    requires WellFormed(s.ring) && k < NB_RCV_DESC && |s.delivered| + k < |s.received|
  {
    s.ring.desc[SlotAhead(s.ring, k)] == Desc(s.received[|s.delivered| + k], RX_DONE)
  }

  ghost predicate InOrder(s: System) {
    && WellFormed(s.ring)
    && s.delivered <= s.received
    && |s.received| - |s.delivered| < NB_RCV_DESC
    && s.ring.rdh == SlotAhead(s.ring, |s.received| - |s.delivered|)
    && (forall k: nat :: k < |s.received| - |s.delivered| ==> Stored(s, k))
    && SlotsRemember(s.ring.desc, s.ring.rdh, s.received)
    && |s.written| == |s.received|
    && (forall k :: 0 <= k < |s.written| ==> s.written[k] == k % NB_RCV_DESC)
  }

  /** Of the first n frames, the last one that went to slot i. */
  function LastFill(i: nat, n: nat): (j: nat)
    requires i < NB_RCV_DESC && i < n
    ensures i <= j < n && n - NB_RCV_DESC <= j
  {
    assert (n - 1 - i) % NB_RCV_DESC <= n - 1 - i;
    n - 1 - (n - 1 - i) % NB_RCV_DESC
  }

  lemma LastFillStep(i: nat, n: nat)
    requires i < NB_RCV_DESC
    ensures i == n % NB_RCV_DESC ==> i <= n && LastFill(i, n + 1) == n
    ensures i != n % NB_RCV_DESC ==> (i < n + 1 <==> i < n) && (i < n ==> LastFill(i, n + 1) == LastFill(i, n))
  {
    if i < n {
      Remainders(n - 1 - i);
    }
  }

  lemma Remainders(d: nat)
    ensures (d + 1) % NB_RCV_DESC == if d % NB_RCV_DESC == NB_RCV_DESC - 1 then 0 else d % NB_RCV_DESC + 1
  {
  }

  lemma LastFillAtHead(n: nat)
    requires n >= NB_RCV_DESC
    ensures LastFill(n % NB_RCV_DESC, n) == n - NB_RCV_DESC
  {
    assert (n - 1 - n % NB_RCV_DESC) % NB_RCV_DESC == NB_RCV_DESC - 1;
  }

  /** What the slots hold: the initial status until they are first filled, then for ever the mark
      of a full descriptor, with the last frame the device put there. */
  ghost predicate SlotsRemember(desc: seq<Desc>, rdh: nat, received: seq<Frame>)
    requires |desc| == NB_RCV_DESC
  {
    && rdh == |received| % NB_RCV_DESC
    && forall i :: 0 <= i < NB_RCV_DESC ==> Remembers(desc[i], i, received)
  }

  ghost predicate Remembers(d: Desc, i: nat, received: seq<Frame>)
    requires i < NB_RCV_DESC
  {
    if i < |received| then d == Desc(received[LastFill(i, |received|)], RX_DONE) else d.status == 0
  }

  ghost function InitialSystem(): System {
    System(InitialRing(), [], [], [])
  }

  lemma InitialInOrder()
    ensures InOrder(InitialSystem())
  {
  }

  /** While something is unread, the slot `e1000_read` looks at is not the device's. */
  lemma ReadSlotIsDrivers(s: System)
    requires InOrder(s) && Fresh(s)
    ensures !DeviceOwns(s.ring, Inc(s.ring.rdt))
  {
  }

  /** A read with something unread delivers the oldest unread frame and nothing else. */
  lemma ReadDelivers(s: System)
    requires InOrder(s) && Fresh(s)
    ensures Next(s, Read(true)) ==
            s.(ring := s.ring.(rdt := Inc(s.ring.rdt)), delivered := s.delivered + [s.received[|s.delivered|]])
    ensures Next(s, Read(false)) == s
  {
    assert Stored(s, 0);
    assert Bit(RX_DONE, RX_EOP);
  }

  /** On any ring at all a read hands up the frame after the tail, and moves the tail onto it, if and only if
      its end-of-packet bit, bit 1 of the status, is set and there is an skb; else it changes nothing. */
  lemma ReadIffEndOfPacket(r: Ring, skbOk: bool)
    requires WellFormed(r)
    ensures var next := (r.rdt + 1) % 256; var (t, out) := AfterRead(r, skbOk);
            if Bit(r.desc[next].status, 1) && skbOk
            then out == Some(r.desc[next].frame) && t == r.(rdt := next)
            else out == None && t == r
  {
  }

  lemma ReadKeepsOrder(s: System, skbOk: bool)
    requires InOrder(s) && Fresh(s)
    ensures InOrder(Next(s, Read(skbOk)))
  {
    ReadDelivers(s);
    var t := s.(ring := s.ring.(rdt := Inc(s.ring.rdt)), delivered := s.delivered + [s.received[|s.delivered|]]);
    forall k: nat | k < |t.received| - |t.delivered|
      ensures Stored(t, k)
    {
      assert Stored(s, k + 1);
      assert SlotAhead(t.ring, k) == SlotAhead(s.ring, k + 1);
    }
    assert SlotAhead(t.ring, |t.received| - |t.delivered|) == SlotAhead(s.ring, |s.received| - |s.delivered|);
    assert InOrder(t);
  }

  lemma FillIsRemembered(r: Ring, received: seq<Frame>, frame: Frame)
    requires WellFormed(r) && r.rdh != r.rdt && SlotsRemember(r.desc, r.rdh, received)
    ensures SlotsRemember(Fill(r, frame).desc, Fill(r, frame).rdh, received + [frame])
  {
    var n := |received|;
    assert (n + 1) % NB_RCV_DESC == Inc(n % NB_RCV_DESC);
    forall i | 0 <= i < NB_RCV_DESC
      ensures Remembers(Fill(r, frame).desc[i], i, received + [frame])
    {
      assert Remembers(r.desc[i], i, received);
      LastFillStep(i, n);
    }
  }

  lemma FillStores(s: System, frame: Frame, k: nat)
    requires InOrder(s) && s.ring.rdh != s.ring.rdt && k <= |s.received| - |s.delivered|
    ensures k < NB_RCV_DESC && WellFormed(Fill(s.ring, frame)) && Stored(Next(s, Arrive(frame)), k)
  {
    if k < |s.received| - |s.delivered| {
      assert Stored(s, k);
      assert SlotAhead(s.ring, k) != s.ring.rdh;
    }
  }

  lemma ArriveKeepsOrder(s: System, frame: Frame)
    requires InOrder(s)
    ensures InOrder(Next(s, Arrive(frame)))
  {
    if s.ring.rdh != s.ring.rdt {
      var t := Next(s, Arrive(frame));
      assert |t.received| - |t.delivered| == |s.received| - |s.delivered| + 1;
      FillIsRemembered(s.ring, s.received, frame);
      forall k: nat | k < |t.received| - |t.delivered|
        ensures Stored(t, k)
      {
        FillStores(s, frame, k);
      }
    }
  }

  /** Over every run that reads only what has arrived, frames are delivered in order, none twice and
      none skipped, at most 255 wait, and the slot read is never the device's. */
  lemma {:induction false} EveryRunInOrder(s: System, steps: seq<Step>, t: System)
    requires InOrder(s) && Reaches(s, steps, t)
    ensures InOrder(t)
    decreases |steps|
  {
    if steps != [] {
      match steps[0] {
        case Arrive(frame) => ArriveKeepsOrder(s, frame);
        case Read(skbOk) => ReadKeepsOrder(s, skbOk);
      }
      EveryRunInOrder(Next(s, steps[0]), steps[1..], t);
    }
  }

  lemma ReceiveInOrder(steps: seq<Step>, t: System)
    requires Reaches(InitialSystem(), steps, t)
    ensures t.delivered <= t.received
    ensures |t.received| - |t.delivered| <= NB_RCV_DESC - 1
    ensures WellFormed(t.ring) && (Fresh(t) ==> !DeviceOwns(t.ring, Inc(t.ring.rdt)))
  {
    InitialInOrder();
    EveryRunInOrder(InitialSystem(), steps, t);
    if Fresh(t) {
      ReadSlotIsDrivers(t);
    }
  }

  /** The device drops a frame exactly when 255 frames are unread. */
  lemma DropsIffFull(s: System, frame: Frame)
    requires InOrder(s)
    ensures Next(s, Arrive(frame)).received == s.received <==> |s.received| - |s.delivered| == NB_RCV_DESC - 1
  {
    assert |s.received + [frame]| != |s.received|;
  }

  /** Reading with nothing unread is harmless exactly during the first lap of the ring.  Later the
      stale end-of-packet bit makes the driver hand up, again, the frame of 256 frames ago. */
  lemma EmptyReadHarmlessIffFirstLap(s: System)
    requires InOrder(s) && !Fresh(s)
    ensures Next(s, Read(true)) == s <==> |s.received| < NB_RCV_DESC
    ensures |s.received| >= NB_RCV_DESC ==>
              Next(s, Read(true)).delivered == s.received + [s.received[|s.received| - NB_RCV_DESC]]
  {
    var n := |s.received|;
    assert Bit(RX_DONE, RX_EOP) && !Bit(0, RX_EOP);
    assert Inc(s.ring.rdt) == s.ring.rdh == n % NB_RCV_DESC;
    assert Remembers(s.ring.desc[s.ring.rdh], s.ring.rdh, s.received);
    if n >= NB_RCV_DESC {
      LastFillAtHead(n);
    } else {
      assert s.ring.rdh == n;
    }
  }

  // ---- The driver's code ----

  class RecvQueue {
    const descriptors: array<Desc>
    var rdh: nat
    var rdt: nat

    ghost function State(): Ring
      reads this, descriptors
    {
      Ring(descriptors[..], rdh, rdt)
    }

    /** The receive half of `init_queue`. */
    constructor ()
      ensures State() == InitialRing() && fresh(descriptors)
    {
      descriptors := new Desc[NB_RCV_DESC](_ => Desc([], 0));
      rdh, rdt := 0, NB_RCV_DESC - 1;
      new;
      assert descriptors[..] == InitialRing().desc;
    }

    method Read(skbOk: bool) returns (delivered: Option<Frame>)
      requires WellFormed(State())
      modifies this
      ensures (State(), delivered) == AfterRead(old(State()), skbOk)
    {
      var tail := rdt;
      tail := Inc(tail);
      var desc := descriptors[tail];
      if !Bit(desc.status, RX_EOP) {
        return None;
      }
      if !skbOk {
        return None;
      }
      delivered := Some(desc.frame);
      rdt := tail;
    }
  }
}
