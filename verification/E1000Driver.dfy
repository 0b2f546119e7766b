/** `e1000_open` and `e1000_close` as the driver runs them, one register access after the other.

    Every access to the device or the allocator goes through Issue, which logs it; the state of the
    device is what the log leads to.  The methods are proved to log exactly the operations that the
    run theorems of E1000Lifetime are about.
 */
module E1000Driver {
  import opened MaskedRegister
  import opened E1000Lifetime
  import opened MacAddress

  datatype Status = Ok | MaskError | NoMemory | IrqError

  function QueueStatus(a: Answers): Status {
    if !a.maskOk then MaskError else if !RecvOk(a) || !SendOk(a) then NoMemory else Ok
  }

  function OpenStatus(a: Answers): Status {
    if QueueStatus(a) != Ok then QueueStatus(a) else if !a.irqOk then IrqError else Ok
  }

  lemma OpenStatusOk(a: Answers)
    ensures OpenStatus(a) == Ok <==> OpenOk(a)
  {
  }

  /** And otherwise which kernel call refused. */
  lemma StatusTellsFailure(a: Answers)
    ensures var status := OpenStatus(a);
            && (status == MaskError <==> !a.maskOk)
            && (status == NoMemory <==>
                  a.maskOk && (a.recvDesc.None? || a.recvBuff.None? || a.sendDesc.None? || a.sendBuff.None?))
            && (status == IrqError <==> QueuesOk(a) && !a.irqOk)
  {
  }

  lemma Regroup(l0: seq<Op>, x: seq<Op>, l1: seq<Op>, y: seq<Op>, l2: seq<Op>, z: seq<Op>, l3: seq<Op>)
    requires l1 == l0 + x && l2 == l1 + y && l3 == l2 + z
    ensures l3 == l0 + (x + y + z)
  {
  }

  class E1000 {
    const start: Hw
    var log: seq<Op>
    var dma: Dma
    const mac: array<Byte>

    /** The device as the accesses so far have left it. */
    ghost function Device(): Hw
      reads this
    {
      Replay(start, log)
    }

    constructor (device: Hw)
      ensures start == device && log == [] && fresh(mac) && mac.Length == MAX_ADDR_LEN
    {
      start, log := device, [];
      dma := Dma(0, 0, 0, 0);
      mac := new Byte[MAX_ADDR_LEN];
    }

    method Issue(op: Op)
      modifies this`log
      ensures log == old(log) + [op]
    {
      log := log + [op];
    }

    method InitControl()
      modifies this`log
      ensures log == old(log) + ControlOps()
    {
      Issue(SetPreserve(CTRL_REG, SpeedDetection()));
      Issue(UnsetPreserve(CTRL_REG, Pow2(CTRL_LRST)));
      Issue(UnsetPreserve(CTRL_REG, Pow2(CTRL_PHYRST)));
      Issue(UnsetPreserve(CTRL_REG, Pow2(CTRL_ILOS)));
      assert log == old(log) + ControlOps()[..4];
      Issue(Write(FCAL_REG, 0));
      Issue(Write(FCAH_REG, 0));
      Issue(Write(FCT_REG, 0));
      Issue(Write(FCTTV_REG, 0));
      assert log == old(log) + ControlOps()[..8];
      Issue(UnsetPreserve(CTRL_REG, Pow2(CTRL_VMDE)));
    }

    method ClearMta()
      modifies this`log
      ensures log == old(log) + MtaOps(128)
    {
      for i := 0 to 128
        invariant log == old(log) + MtaOps(i)
      {
        Issue(Write(MTA_REG + i, 0));
        assert MtaOps(i) + [Write(MTA_REG + i, 0)] == MtaOps(i + 1);
      }
    }

    /** The byte loop of `e1000_set_mac_address`: request an EEPROM word, poll, split it. */
    method ReadAddress(eeprom: nat -> Answer, ghost w: Words)
      requires mac.Length == MAX_ADDR_LEN && Holding(eeprom, w)
      modifies this`log, mac
      ensures log == old(log) + EepromOps(3) && mac[..6] == AddressBytes(w)
    {
      for i := 0 to 3
        invariant log == old(log) + EepromOps(i)
        invariant forall k :: 0 <= k < i ==> Holds(mac[2 * k], mac[2 * k + 1], Word(w, k))
      {
        var request := Request(i);
        Issue(Write(EEPROM_READ, request));
        assert EepromOps(i) + [Write(EEPROM_READ, request)] == EepromOps(i + 1);
        assert DeviceAnswer(eeprom(request)) && eeprom(request).word == Word(w, i);
        var tmp := ReadEeprom(eeprom(request));
        SignDoesNotMatter(Word(w, i), tmp);
        mac[2 * i] := tmp % 256;           // tmp & 0xFF
        mac[2 * i + 1] := tmp / 256 % 256; // (tmp & 0xFF00) >> 8
      }
      assert Holds(mac[2 * 0], mac[2 * 0 + 1], Word(w, 0));
      assert Holds(mac[2 * 1], mac[2 * 1 + 1], Word(w, 1));
      assert Holds(mac[2 * 2], mac[2 * 2 + 1], Word(w, 2));
    }

    method SetMacAddress(eeprom: nat -> Answer, ghost w: Words)
      requires mac.Length == MAX_ADDR_LEN && Holding(eeprom, w)
      modifies this`log, mac
      ensures log == old(log) + MacOps(w) && mac[..6] == AddressBytes(w)
    {
      ReadAddress(eeprom, w);
      assert forall k :: 0 <= k < 6 ==> mac[k] == AddressBytes(w)[k];
      Issue(Write(RAL_REG, Load16(mac[0], mac[1]) + 0x10000 * Load16(mac[2], mac[3])));
      Issue(Write(RAH_REG, Load16(mac[4], mac[5])));
      Issue(SetPreserve(RAH_REG, Pow2(E1000Lifetime.RAH_AV)));
      Issue(SetPreserve(RCTL_REG, Pow2(RCTL_MPE)));
    }

    method InitRecv(desc: Address, buff: Address)
      modifies this`log
      ensures log == old(log) + RecvOps(desc, buff)
    {
      Issue(PointSlots(desc, buff));
      Issue(Write(RDBAL_REG, desc));
      assert log == old(log) + NameRingOps(RDBAL_REG, desc, buff);
      Issue(Write(RDBAH_REG, 0));
      Issue(Write(RDLEN_REG, RECV_SIZE_DESC));
      Issue(Write(RDH_REG, 0));
      Issue(Write(RDT_REG, NB_RCV_DESC - 1));
      Issue(UnsetPreserve(RCTL_REG, RCTL_BSIZE));
      Issue(UnsetPreserve(RCTL_REG, Pow2(RCTL_BSEX)));
    }

    method InitSend(desc: Address, buff: Address)
      modifies this`log
      ensures log == old(log) + (SendOps(desc, buff) + EnableOps())
    {
      Issue(PointSlots(desc, buff));
      Issue(Write(TDBAL_REG, desc));
      Issue(Write(TDBAH_REG, 0));
      Issue(Write(TDLEN_REG, SEND_SIZE_DESC));
      Issue(Write(TDH_REG, 0));
      Issue(Write(TDT_REG, 0));
      assert log == old(log) + SendOps(desc, buff);
      Issue(SetPreserve(TCTL_REG, Or(Or(Pow2(ENABLE), Pow2(TCTL_PAD_PACK)), TCTL_CT)));
      Issue(SetPreserve(RCTL_REG, Pow2(ENABLE)));
    }

    /** dma_alloc_coherent, twice: descriptors and buffers; a failure leaves the handle as it was. */
    method Allocate(desc: Option<Address>, buff: Option<Address>, ds: Address, bs: Address)
        returns (d: Address, b: Address)
      modifies this`log
      ensures log == old(log) + AllocOps(desc, buff)
      ensures d == GetOr(desc, ds) && b == GetOr(buff, bs)
    {
      d, b := ds, bs;
      if desc.Some? {
        Issue(DmaAlloc(desc.value));
        d := desc.value;
      }
      if buff.Some? {
        Issue(DmaAlloc(buff.value));
        b := buff.value;
      }
    }

    method InitSendQueue(a: Answers) returns (err: Status)
      modifies this`log, this`dma
      ensures log == old(log) + SendPartOps(a)
      ensures dma == old(dma).(sendDesc := GetOr(a.sendDesc, old(dma).sendDesc),
                               sendBuff := GetOr(a.sendBuff, old(dma).sendBuff))
      ensures err == if SendOk(a) then Ok else NoMemory
    {
      var d, b := Allocate(a.sendDesc, a.sendBuff, dma.sendDesc, dma.sendBuff);
      dma := dma.(sendDesc := d, sendBuff := b);
      if a.sendDesc.None? || a.sendBuff.None? {
        return NoMemory;
      }
      InitSend(d, b);
      return Ok;
    }

    method InitQueue(a: Answers) returns (err: Status)
      modifies this`log, this`dma
      ensures log == old(log) + QueueOps(a) && dma == NewDma(old(dma), a)
      ensures err == QueueStatus(a)
    {
      if !a.maskOk {
        return MaskError;
      }
      var d, b := Allocate(a.recvDesc, a.recvBuff, dma.recvDesc, dma.recvBuff);
      dma := dma.(recvDesc := d, recvBuff := b);
      if a.recvDesc.None? || a.recvBuff.None? {
        return NoMemory;
      }
      InitRecv(d, b);
      err := InitSendQueue(a);
    }

    /** `init_hw` up to the queues. */
    method SetUp(eeprom: nat -> Answer, ghost w: Words)
      requires mac.Length == MAX_ADDR_LEN && Holding(eeprom, w)
      modifies this`log, mac
      ensures log == old(log) + (ControlOps() + MtaOps(128) + MacOps(w)) && mac[..6] == AddressBytes(w)
    {
      InitControl();
      ghost var control := log;
      ClearMta();
      ghost var mta := log;
      SetMacAddress(eeprom, w);
      Regroup(old(log), ControlOps(), control, MtaOps(128), mta, MacOps(w), log);
    }

    method InitInterrupt(irqOk: bool) returns (err: Status)
      modifies this`log
      ensures log == old(log) + if irqOk then [TaskletInit, RequestIrq, Write(IMS_REG, IMS_CAUSES)] else [TaskletInit]
      ensures err == if irqOk then Ok else IrqError
    {
      Issue(TaskletInit);
      if !irqOk {
        return IrqError;
      }
      Issue(RequestIrq);
      Issue(Write(IMS_REG, IMS_CAUSES));
      return Ok;
    }

    method Open(a: Answers, eeprom: nat -> Answer) returns (err: Status)
      requires mac.Length == MAX_ADDR_LEN && Holding(eeprom, a.words)
      modifies this, mac
      ensures log == old(log) + OpenOps(a) && dma == NewDma(old(dma), a)
      ensures err == OpenStatus(a)
    {
      SetUp(eeprom, a.words);
      ghost var setUp := log;
      err := InitQueue(a);
      ghost var queues := log;
      OpenStatusOk(a);
      if err == Ok {
        err := InitInterrupt(a.irqOk);
      }
      assert log == queues + InterruptOps(a);
      Regroup(old(log), ControlOps() + MtaOps(128) + MacOps(a.words), setUp, QueueOps(a), queues, InterruptOps(a), log);
    }

    method Close()
      modifies this`log
      ensures log == old(log) + CloseOps(dma)
    {
      Issue(FreeIrq);
      Issue(TaskletDisable);
      Issue(UnsetPreserve(RCTL_REG, Pow2(ENABLE)));
      Issue(UnsetPreserve(TCTL_REG, Pow2(ENABLE)));
      assert log == old(log) + (UninitOps() + DisableOps());
      Issue(DmaFree(dma.recvDesc));
      Issue(DmaFree(dma.recvBuff));
      Issue(DmaFree(dma.sendDesc));
      Issue(DmaFree(dma.sendBuff));
      Issue(Write(CTRL_REG, Pow2(CTRL_RST)));
    }
  }
}
