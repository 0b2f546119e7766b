/** The whole e1000 driver against the device and the kernel.

    Opens and closes, transmissions, reads, device fetches and fills, interrupts, handler and tasklet
    runs are interleaved freely here; the invariants of the parts hold together in every reachable
    state.  The memory that the device's registers name is live whenever the device may use it; how
    much of the receive slots lies inside that memory is what FillsInsideIff is about.
 */
module E1000System {
  import opened MaskedRegister
  import Life = E1000Lifetime
  import Tx = TransmitRing
  import Rx = ReceiveRing
  import Irq = Interrupts

  /** The rings are those of the memory last named to the device; the past ones, each as it was when the
      next took its place, are kept for the histories in them. */
  datatype State = State(life: Life.Sys, tx: Tx.System, rx: Rx.System, irq: Irq.System,
                         txPast: seq<Tx.System>, rxPast: seq<Rx.System>)

  datatype Step =
    | Open(answers: Life.Answers, buff: seq<Byte>) // buff: the contents of the send buffers when allocated
    | Close
    | Xmit(skb: Tx.Skb)
    | DeviceFetch
    | Arrive(frame: Rx.Frame)
    | Read(skbOk: bool)
    | Raise(causes: nat)
    | Handler
    | Tasklet

  predicate Transmitting(s: State) {
    Bit(Life.Reg(s.life.hw, Life.TCTL_REG), Life.ENABLE)
  }

  predicate Receiving(s: State) {
    Bit(Life.Reg(s.life.hw, Life.RCTL_REG), Life.ENABLE)
  }

  /** The kernel calls an interface that is up; the device works when enabled; and the two limits the
      code does not check, ring space and frame size, and reads only of what arrived. */
  ghost predicate Possible(s: State, step: Step) {
    match step
    case Open(a, buff) => Life.Possible(s.life, Life.Open(a)) && |buff| == Tx.SEND_BUFF
    case Close => Life.Possible(s.life, Life.Close)
    case Xmit(skb) => s.life.up && Tx.WellFormed(s.tx.ring) && Tx.Admissible(s.tx.ring, Tx.Xmit(skb))
    case DeviceFetch => Transmitting(s) && Tx.WellFormed(s.tx.ring)
    case Arrive(_) => Receiving(s) && Rx.WellFormed(s.rx.ring)
    case Read(_) => s.life.up && Rx.WellFormed(s.rx.ring) && Rx.Fresh(s.rx)
    case Raise(_) => true
    case Handler => Irq.Enabled(s.irq, Irq.Handler)
    case Tasklet => Irq.Enabled(s.irq, Irq.Tasklet)
  }

  ghost function Next(s: State, step: Step): State
    requires Possible(s, step)
  {
    match step
    case Open(a, buff) =>
      // each half of init_queue that gets its memory starts a new ring
      var newTx, newRx := Life.QueuesOk(a), a.maskOk && Life.RecvOk(a);
      State(Life.Next(s.life, Life.Open(a)),
            if newTx then Tx.InitialSystem(buff) else s.tx,
            if newRx then Rx.InitialSystem() else s.rx,
            if Life.QueuesOk(a) then Irq.Next(s.irq, Irq.Init(a.irqOk)) else s.irq,
            if newTx then s.txPast + [s.tx] else s.txPast,
            if newRx then s.rxPast + [s.rx] else s.rxPast)
    case Close => s.(life := Life.Next(s.life, Life.Close), irq := Irq.Next(s.irq, Irq.Uninit))
    case Xmit(skb) => s.(tx := Tx.Next(s.tx, Tx.Xmit(skb)))
    case DeviceFetch => s.(tx := Tx.Next(s.tx, Tx.DeviceFetch))
    case Arrive(frame) => s.(rx := Rx.Next(s.rx, Rx.Arrive(frame)))
    case Read(skbOk) => s.(rx := Rx.Next(s.rx, Rx.Read(skbOk)))
    case Raise(causes) => s.(irq := Irq.Next(s.irq, Irq.Raise(causes)))
    case Handler => s.(irq := Irq.Next(s.irq, Irq.Handler))
    case Tasklet => s.(irq := Irq.Next(s.irq, Irq.Tasklet))
  }

  ghost predicate Reaches(s: State, steps: seq<Step>, t: State)
    decreases |steps|
  {
    if steps == [] then s == t else Possible(s, steps[0]) && Reaches(Next(s, steps[0]), steps[1..], t)
  }

  ghost predicate Inv(s: State) {
    && Life.Inv(s.life) && RingsInv(s) && Irq.Accounted(s.irq)
    && s.irq.state.registered == s.life.hw.irq && s.irq.state.enabled == s.life.hw.tasklet
  }

  ghost predicate RingsInv(s: State) {
    && Tx.IsFifo(s.tx) && Rx.InOrder(s.rx)
    && (forall k :: 0 <= k < |s.txPast| ==> Tx.IsFifo(s.txPast[k]))
    && (forall k :: 0 <= k < |s.rxPast| ==> Rx.InOrder(s.rxPast[k]))
  }

  ghost predicate Initial(s: State) {
    && Life.Initial(s.life) && Tx.IsFifo(s.tx) && Rx.InOrder(s.rx) && Irq.Initial(s.irq)
    && s.txPast == [] && s.rxPast == []
  }

  lemma OpenKeepsInv(s: State, a: Life.Answers, buff: seq<Byte>)
    requires Inv(s) && Possible(s, Open(a, buff))
    ensures Inv(Next(s, Open(a, buff)))
  {
    Life.OpenKeepsInv(s.life, a);
    OpenKeepsRings(s, a, buff);
    if Life.QueuesOk(a) {
      Irq.StepAccounts(s.irq, Irq.Init(a.irqOk));
    }
  }

  lemma OpenKeepsRings(s: State, a: Life.Answers, buff: seq<Byte>)
    requires Inv(s) && Possible(s, Open(a, buff))
    ensures RingsInv(Next(s, Open(a, buff)))
  {
    OpenKeepsTx(s, a, buff);
    OpenKeepsRx(s, a, buff);
  }

  lemma OpenKeepsTx(s: State, a: Life.Answers, buff: seq<Byte>)
    requires RingsInv(s) && Possible(s, Open(a, buff))
    ensures var t := Next(s, Open(a, buff));
            Tx.IsFifo(t.tx) && forall k :: 0 <= k < |t.txPast| ==> Tx.IsFifo(t.txPast[k])
  {
    Tx.InitialIsFifo(buff);
  }

  lemma OpenKeepsRx(s: State, a: Life.Answers, buff: seq<Byte>)
    requires RingsInv(s) && Possible(s, Open(a, buff))
    ensures var t := Next(s, Open(a, buff));
            Rx.InOrder(t.rx) && forall k :: 0 <= k < |t.rxPast| ==> Rx.InOrder(t.rxPast[k])
  {
    Rx.InitialInOrder();
  }

  lemma CloseKeepsInv(s: State)
    requires Inv(s) && Possible(s, Close)
    ensures Inv(Next(s, Close)) && Life.Off(Next(s, Close).life.hw)
  {
    Life.CloseKeepsInv(s.life);
    Irq.StepAccounts(s.irq, Irq.Uninit);
  }

  lemma StepKeepsInv(s: State, step: Step)
    requires Inv(s) && Possible(s, step)
    ensures Inv(Next(s, step))
  {
    match step {
      case Open(a, buff) => OpenKeepsInv(s, a, buff);
      case Close => CloseKeepsInv(s);
      case Xmit(skb) => Tx.XmitKeepsFifo(s.tx, skb);
      case DeviceFetch => Tx.FetchKeepsFifo(s.tx);
      case Arrive(frame) => Rx.ArriveKeepsOrder(s.rx, frame);
      case Read(skbOk) => Rx.ReadKeepsOrder(s.rx, skbOk);
      case Raise(causes) => Irq.StepAccounts(s.irq, Irq.Raise(causes));
      case Handler => Irq.StepAccounts(s.irq, Irq.Handler);
      case Tasklet => Irq.StepAccounts(s.irq, Irq.Tasklet);
    }
  }

  lemma {:induction false} RunKeepsInv(s: State, steps: seq<Step>, t: State)
    requires Inv(s) && Reaches(s, steps, t)
    ensures Inv(t)
    decreases |steps|
  {
    if steps != [] {
      StepKeepsInv(s, steps[0]);
      RunKeepsInv(Next(s, steps[0]), steps[1..], t);
    }
  }

  /** In every reachable state of the whole system: a device that may transmit or receive has live rings
      and buffers behind its base registers; frames leave and arrive in order; every interrupt cause read
      is answered or waits; and an interface that is up has a device that is working, a registered
      handler and an enabled tasklet. */
  lemma WholeDriverSafe(s: State, steps: seq<Step>, t: State)
    requires Initial(s) && Reaches(s, steps, t)
    ensures Transmitting(t) ==> Life.Backed(t.life.hw, Life.Reg(t.life.hw, Life.TDBAL_REG))
    ensures Receiving(t) ==> Life.Backed(t.life.hw, Life.Reg(t.life.hw, Life.RDBAL_REG))
    ensures t.tx.emitted <= t.tx.accepted && t.rx.delivered <= t.rx.received && Irq.Accounted(t.irq)
    ensures t.life.up ==> Transmitting(t) && Receiving(t)
    ensures t.irq.state.registered == t.life.up && (t.life.up ==> t.irq.state.enabled)
  {
    RunKeepsInv(s, steps, t);
  }

  // ---- Interrupts over opens and closes ----

  /** No open that gets as far as the tasklet finds causes waiting. */
  ghost predicate CleanOpens(s: State, steps: seq<Step>)
    requires PossibleRun(s, steps)
    decreases |steps|
  {
    steps == []
    || ((steps[0].Open? && Life.QueuesOk(steps[0].answers) ==> s.irq.state.waiting == 0)
        && CleanOpens(Next(s, steps[0]), steps[1..]))
  }

  ghost predicate PromisedThroughout(s: State, steps: seq<Step>)
    requires PossibleRun(s, steps)
    decreases |steps|
  {
    Irq.Promised(s.irq) && (steps == [] || PromisedThroughout(Next(s, steps[0]), steps[1..]))
  }

  ghost predicate PossibleRun(s: State, steps: seq<Step>)
    decreases |steps|
  {
    steps == [] || (Possible(s, steps[0]) && PossibleRun(Next(s, steps[0]), steps[1..]))
  }

  lemma PromiseStep(s: State, step: Step)
    requires Inv(s) && Possible(s, step) && Irq.Promised(s.irq)
    ensures Irq.Promised(Next(s, step).irq) <==>
            (step.Open? && Life.QueuesOk(step.answers) ==> s.irq.state.waiting == 0)
  {
    match step {
      case Handler => Irq.PromiseStep(s.irq, Irq.Handler);
      case Tasklet => Irq.PromiseStep(s.irq, Irq.Tasklet);
      case _ =>
    }
  }

  /** Over every run of the driver, waiting causes always find the tasklet scheduled if and only if no
      open finds causes waiting. */
  lemma {:induction false} CausesPromisedIff(s: State, steps: seq<Step>)
    requires Inv(s) && Irq.Promised(s.irq) && PossibleRun(s, steps)
    ensures PromisedThroughout(s, steps) <==> CleanOpens(s, steps)
    decreases |steps|
  {
    if steps != [] {
      PromiseStep(s, steps[0]);
      StepKeepsInv(s, steps[0]);
      if Irq.Promised(Next(s, steps[0]).irq) {
        CausesPromisedIff(Next(s, steps[0]), steps[1..]);
      }
    }
  }

  /** A close followed by an open: what the handler had noted will be answered only if it had been already. */
  lemma ReopenKeepsPromiseIff(s: State, a: Life.Answers, buff: seq<Byte>)
    requires Inv(s) && s.life.up && Possible(Next(s, Close), Open(a, buff)) && Life.QueuesOk(a)
    ensures var t := Next(Next(s, Close), Open(a, buff));
            && t.irq.state.waiting == s.irq.state.waiting && !t.irq.state.scheduled
            && (Irq.Promised(t.irq) <==> s.irq.state.waiting == 0)
  {
    var m := Next(s, Close);
    assert m.irq.state == Irq.AfterUninit(s.irq.state);
    OpenRestartsTasklet(m, a, buff);
  }

  lemma OpenRestartsTasklet(s: State, a: Life.Answers, buff: seq<Byte>)
    requires Possible(s, Open(a, buff)) && Life.QueuesOk(a)
    ensures Next(s, Open(a, buff)).irq.state == Irq.AfterInit(s.irq.state, a.irqOk)
  {
  }

  // ---- Sessions ----

  /** Every ring the card ever had put a prefix of its frames on the wire, in order, and the frames it was
      dropped with are the ones pending then; every receive ring delivered a prefix of its frames. */
  lemma EverySessionInOrder(s: State, steps: seq<Step>, t: State, k: nat)
    requires Initial(s) && Reaches(s, steps, t)
    ensures k < |t.txPast| ==>
              && t.txPast[k].emitted <= t.txPast[k].accepted && Tx.WellFormed(t.txPast[k].ring)
              && |t.txPast[k].accepted| - |t.txPast[k].emitted| == Tx.Pending(t.txPast[k].ring)
    ensures k < |t.rxPast| ==> t.rxPast[k].delivered <= t.rxPast[k].received
  {
    RunKeepsInv(s, steps, t);
  }

  predicate NewSendRing(step: Step) {
    step.Open? && Life.QueuesOk(step.answers)
  }

  predicate NewRecvRing(step: Step) {
    step.Open? && step.answers.maskOk && Life.RecvOk(step.answers)
  }

  /** Down, with the device disabled: nothing works on the rings. */
  ghost predicate Down(s: State) {
    Inv(s) && !s.life.up && Life.Off(s.life.hw)
  }

  lemma DownStep(s: State, step: Step)
    requires Down(s) && Possible(s, step) && !NewSendRing(step)
    ensures Down(Next(s, step)) && Next(s, step).tx == s.tx && Next(s, step).txPast == s.txPast
    ensures !NewRecvRing(step) ==> Next(s, step).rx == s.rx && Next(s, step).rxPast == s.rxPast
  {
    StepKeepsInv(s, step);
    if step.Open? {
      Life.OpenKeepsInv(s.life, step.answers);
    }
  }

  /** A card that is down and disabled does nothing to its rings until an open gives it new ones. */
  lemma {:induction false} DownIsFrozen(s: State, steps: seq<Step>, t: State)
    requires Down(s) && Reaches(s, steps, t)
    requires forall k :: 0 <= k < |steps| ==> !NewSendRing(steps[k])
    ensures Down(t) && t.tx == s.tx && t.txPast == s.txPast
    ensures (forall k :: 0 <= k < |steps| ==> !NewRecvRing(steps[k])) ==> t.rx == s.rx && t.rxPast == s.rxPast
    decreases |steps|
  {
    if steps != [] {
      assert !NewSendRing(steps[0]);
      DownStep(s, steps[0]);
      DownIsFrozen(Next(s, steps[0]), steps[1..], t);
    }
  }

  lemma CloseIsDown(s: State)
    requires Inv(s) && s.life.up
    ensures Down(Next(s, Close)) && Next(s, Close).tx == s.tx && Next(s, Close).txPast == s.txPast
  {
    CloseKeepsInv(s);
  }

  /** A close loses exactly the frames still pending: until an open gets new memory, whatever opens fail
      before, the transmit ring stays as the close found it. */
  lemma CloseLosesPending(s: State, m: State, steps: seq<Step>, t: State)
    requires Inv(s) && s.life.up && m == Next(s, Close) && Reaches(m, steps, t)
    requires forall k :: 0 <= k < |steps| ==> !NewSendRing(steps[k])
    ensures t.tx == s.tx && t.txPast == s.txPast && !Transmitting(t)
    ensures t.tx.accepted == t.tx.emitted + t.tx.accepted[|t.tx.accepted| - Tx.Pending(s.tx.ring)..]
  {
    CloseIsDown(s);
    Tx.RestIsPending(s.tx);
    DownIsFrozen(m, steps, t);
  }

  /** That open files it away and starts with an empty one. */
  lemma OpenStartsRing(s: State, a: Life.Answers, buff: seq<Byte>)
    requires Possible(s, Open(a, buff)) && Life.QueuesOk(a)
    ensures var u := Next(s, Open(a, buff));
            u.txPast == s.txPast + [s.tx] && u.tx.accepted == [] && u.tx.emitted == []
  {
  }

  // ---- Receive slots ----

  predicate SlotAllocated(i: nat) {
    (i + 1) * Life.BUF_SIZE_BY_DESC <= Life.RECV_SIZE_BUFF
  }

  /** A slot that is not allocated lies wholly outside the memory. */
  lemma SlotInsideOrOutside(i: nat)
    ensures SlotAllocated(i) <==> i < 2
    ensures !SlotAllocated(i) ==> i * Life.BUF_SIZE_BY_DESC >= Life.RECV_SIZE_BUFF
  {
  }

  lemma SlotsInsideIff(written: seq<nat>)
    requires forall k :: 0 <= k < |written| ==> written[k] == k % Rx.NB_RCV_DESC
    ensures (forall k :: 0 <= k < |written| ==> SlotAllocated(written[k])) <==> |written| <= 2
  {
    if |written| > 2 {
      SlotInsideOrOutside(written[2]);
    } else {
      SlotInsideOrOutside(0);
      SlotInsideOrOutside(1);
    }
  }

  /** In every reachable state the device has filled only allocated slots of the current receive ring if
      and only if it has stored at most two frames there. */
  lemma FillsInsideIff(s: State, steps: seq<Step>, t: State)
    requires Initial(s) && Reaches(s, steps, t)
    ensures (forall k :: 0 <= k < |t.rx.written| ==> SlotAllocated(t.rx.written[k])) <==> |t.rx.received| <= 2
  {
    RunKeepsInv(s, steps, t);
    SlotsInsideIff(t.rx.written);
  }

  // ---- Registers ----

  /** A successful open starts both rings where the device's registers say they are. */
  lemma RegistersMatchRings(s: State, a: Life.Answers, buff: seq<Byte>)
    requires Possible(s, Open(a, buff)) && Life.OpenOk(a)
    ensures var t := Next(s, Open(a, buff));
            && Life.Reg(t.life.hw, Life.TDH_REG) == t.tx.ring.tdh && Life.Reg(t.life.hw, Life.TDT_REG) == t.tx.ring.tdt
            && Life.Reg(t.life.hw, Life.RDH_REG) == t.rx.ring.rdh && Life.Reg(t.life.hw, Life.RDT_REG) == t.rx.ring.rdt
  {
    Life.OpenProgramsRings(s.life.hw, a);
  }

  /** The interrupt causes that open enables are exactly those the tasklet answers. */
  lemma EnabledCausesAreAnswered(i: nat)
    ensures Bit(Life.IMS_CAUSES, i) <==> exists kind :: Irq.Asks(Pow2(i), kind)
  {
    if i >= 8 {
      assert Pow2(8) == 256;
      NoBitAbove(0xC7, 8, i);
    } else {
      assert Bit(0xC7, 0) && Bit(0xC7, 1) && Bit(0xC7, 2) && !Bit(0xC7, 3);
      assert !Bit(0xC7, 4) && !Bit(0xC7, 5) && Bit(0xC7, 6) && Bit(0xC7, 7);
    }
    ShiftedOne(i, Irq.IMS_TXDW);
    ShiftedOne(i, Irq.IMS_TXQE);
    ShiftedOne(i, Irq.IMS_LSC);
    ShiftedOne(i, Irq.IMS_RX0);
    ShiftedOne(i, Irq.IMS_RXT0);
    if i in {0, 1} {
      assert Irq.Asks(Pow2(i), Irq.PacketSent);
    } else if i == 2 {
      assert Irq.Asks(Pow2(i), Irq.LinkChanged);
    } else if i in {6, 7} {
      assert Irq.Asks(Pow2(i), Irq.PacketReceived);
    }
  }

  function Fetches(n: nat): seq<Step> {
    seq(n, _ => DeviceFetch)
  }

  lemma {:induction false} FetchesLift(s: State, n: nat, tx: Tx.System)
    requires Transmitting(s) && Tx.Reaches(s.tx, Tx.Fetches(n), tx)
    ensures Reaches(s, Fetches(n), s.(tx := tx))
    decreases n
  {
    if n > 0 {
      assert Tx.Fetches(n)[0] == Tx.DeviceFetch && Fetches(n)[0] == DeviceFetch;
      assert Tx.Fetches(n)[1..] == Tx.Fetches(n - 1) && Fetches(n)[1..] == Fetches(n - 1);
      FetchesLift(Next(s, DeviceFetch), n - 1, tx);
    }
  }

  /** And from every reachable state in which the interface is up, the device can send all that the
      kernel handed over, just by going on. */
  lemma EverythingCanBeSent(s: State, steps: seq<Step>, t: State) returns (u: State)
    requires Initial(s) && Reaches(s, steps, t) && t.life.up
    ensures Tx.WellFormed(t.tx.ring) && Reaches(t, Fetches(Tx.Pending(t.tx.ring)), u)
    ensures u.tx.emitted == u.tx.accepted == t.tx.accepted
  {
    RunKeepsInv(s, steps, t);
    var tx := Tx.DeviceDrains(t.tx);
    FetchesLift(t, Tx.Pending(t.tx.ring), tx);
    u := t.(tx := tx);
  }
}
