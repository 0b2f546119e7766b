/** DMA memory against the device's enable bits, over every run of open and close.

    `e1000_open` allocates descriptor and buffer memory, tells the device where it is and then
    enables it; `e1000_close` disables the device and frees the memory.  An open can fail half
    way, and is then retried: it frees nothing and switches nothing off.  A run is flattened
    into the register writes, allocations and frees it makes, so that "at every step" means
    between any two of them.
 */
module E1000Lifetime {
  import opened MaskedRegister
  import MacAddress

  // Register offsets (e1000.h).
  const CTRL_REG: nat := 0x00000
  const EEPROM_READ: nat := 0x00014
  const FCAL_REG: nat := 0x00028
  const FCAH_REG: nat := 0x0002c
  const FCT_REG: nat := 0x00030
  const IMS_REG: nat := 0x000D0
  const RCTL_REG: nat := 0x00100
  const FCTTV_REG: nat := 0x00170
  const TCTL_REG: nat := 0x00400
  const RDBAL_REG: nat := 0x02800
  const RDBAH_REG: nat := 0x02804
  const RDLEN_REG: nat := 0x02808
  const RDH_REG: nat := 0x02810
  const RDT_REG: nat := 0x02818
  const TDBAL_REG: nat := 0x03800
  const TDBAH_REG: nat := 0x03804
  const TDLEN_REG: nat := 0x03808
  const TDH_REG: nat := 0x03810
  const TDT_REG: nat := 0x03818
  const MTA_REG: nat := 0x05200
  const RAL_REG: nat := 0x05400
  const RAH_REG: nat := 0x05404

  // Bit numbers.
  const CTRL_LRST: nat := 3
  const CTRL_ASDE: nat := 5
  const CTRL_SLU: nat := 6
  const CTRL_ILOS: nat := 7
  const CTRL_RST: nat := 26
  const CTRL_VMDE: nat := 30
  const CTRL_PHYRST: nat := 31
  const ENABLE: nat := 1 // in RCTL and in TCTL
  const TCTL_PAD_PACK: nat := 3
  const RCTL_MPE: nat := 4
  const RCTL_BSEX: nat := 25
  const RAH_AV: nat := 31

  const RCTL_BSIZE: nat := 0x30000
  const TCTL_CT: nat := 0xF0
  const IMS_CAUSES: nat := 0xC7 // TXDW | TXQE | LSC | RX0 | RXT0

  const NB_RCV_DESC: nat := 256
  const NB_SND_DESC: nat := 256
  const BUF_SIZE_BY_DESC: nat := 2048
  const SIZEOF_RECV_DESC: nat := 16
  const SIZEOF_SEND_DESC: nat := 20 // four-byte aligned, with the reserved byte commented out

  type Address = nat

  datatype Option<T> = None | Some(value: T)

  /** The device's registers, the live DMA allocations, for each descriptor region the buffer region its
      descriptors point into, and what the kernel holds for the card: the registered handler, and the
      tasklet, initialised and not disabled. */
  datatype Hw = Hw(regs: map<nat, nat>, live: set<Address>, slots: map<Address, Address>, irq: bool, tasklet: bool)

  datatype Op =
    | Write(reg: nat, value: nat)
    | SetPreserve(reg: nat, bits: nat)
    | UnsetPreserve(reg: nat, bits: nat)
    | DmaAlloc(addr: Address)
    | DmaFree(addr: Address)
    | PointSlots(desc: Address, buff: Address)
    | TaskletInit
    | RequestIrq
    | FreeIrq
    | TaskletDisable

  function Reg(h: Hw, reg: nat): nat {
    if reg in h.regs then h.regs[reg] else 0
  }

  /** A store; setting the reset bit of CTRL returns every register to its default. */
  function Store(h: Hw, reg: nat, value: nat): Hw {
    if reg == CTRL_REG && Bit(value, CTRL_RST) then h.(regs := map[]) else h.(regs := h.regs[reg := value])
  }

  function Exec(h: Hw, op: Op): Hw {
    match op
    case Write(reg, value) => Store(h, reg, value)
    case SetPreserve(reg, bits) => Store(h, reg, Or(Reg(h, reg), bits))
    case UnsetPreserve(reg, bits) => Store(h, reg, AndNot(Reg(h, reg), bits))
    case DmaAlloc(a) => h.(live := h.live + {a}, slots := h.slots - {a})
    case DmaFree(a) => h.(live := h.live - {a})
    case PointSlots(d, b) => h.(slots := h.slots[d := b])
    case TaskletInit => h.(tasklet := true)
    case RequestIrq => h.(irq := true)
    case FreeIrq => h.(irq := false)
    case TaskletDisable => h.(tasklet := false)
  }

  function Replay(h: Hw, ops: seq<Op>): Hw
    decreases |ops|
  {
    if ops == [] then h else Replay(Exec(h, ops[0]), ops[1..])
  }

  // ---- Safety ----

  /** The ring at this base may be used: it and the buffers behind it are live. */
  ghost predicate Backed(h: Hw, base: Address) {
    base in h.live && base in h.slots && h.slots[base] in h.live
  }

  /** If the device may receive (or transmit), what RDBAL (or TDBAL) names is live memory. */
  ghost predicate Safe(h: Hw) {
    && (Bit(Reg(h, RCTL_REG), ENABLE) ==> Backed(h, Reg(h, RDBAL_REG)))
    && (Bit(Reg(h, TCTL_REG), ENABLE) ==> Backed(h, Reg(h, TDBAL_REG)))
  }

  /** Memory comes from the allocator and goes back to it once, and so does the interrupt line. */
  ghost predicate Lawful(h: Hw, op: Op) {
    && (op.DmaAlloc? ==> op.addr !in h.live) && (op.DmaFree? ==> op.addr in h.live)
    && (op.RequestIrq? ==> !h.irq) && (op.FreeIrq? ==> h.irq)
  }

  /** ops lead from h to h', safe before, after and between them, and each of them lawful. */
  ghost predicate SafeRun(h: Hw, ops: seq<Op>, h': Hw)
    decreases |ops|
  {
    && Safe(h)
    && if ops == [] then h == h' else Lawful(h, ops[0]) && SafeRun(Exec(h, ops[0]), ops[1..], h')
  }

  lemma {:induction false} SafeConcat(h: Hw, xs: seq<Op>, m: Hw, ys: seq<Op>, n: Hw)
    requires SafeRun(h, xs, m) && SafeRun(m, ys, n)
    ensures SafeRun(h, xs + ys, n)
    decreases |xs|
  {
    if xs == [] {
      assert xs + ys == ys;
    } else {
      SafeConcat(Exec(h, xs[0]), xs[1..], m, ys, n);
      assert (xs + ys)[1..] == xs[1..] + ys;
    }
  }

  lemma SafeOne(h: Hw, op: Op)
    requires Safe(h) && Lawful(h, op) && Safe(Exec(h, op))
    ensures SafeRun(h, [op], Exec(h, op))
  {
    assert [op][1..] == [];
  }

  lemma SafeTwo(h: Hw, op: Op, op': Op)
    requires Safe(h) && Lawful(h, op) && Safe(Exec(h, op))
    requires Lawful(Exec(h, op), op') && Safe(Exec(Exec(h, op), op'))
    ensures SafeRun(h, [op, op'], Exec(Exec(h, op), op'))
  {
    SafeOne(Exec(h, op), op');
    assert [op, op'][1..] == [op'];
  }

  /** SafeRun in full: Safe holds after every prefix of ops. */
  lemma {:induction false} SafeAtEveryStep(h: Hw, ops: seq<Op>, h': Hw, k: nat)
    requires SafeRun(h, ops, h') && k <= |ops|
    ensures Safe(Replay(h, ops[..k]))
    ensures k < |ops| ==> Lawful(Replay(h, ops[..k]), ops[k])
    ensures Replay(h, ops) == h'
    decreases |ops|
  {
    if ops == [] {
      assert ops[..k] == [];
    } else {
      SafeAtEveryStep(Exec(h, ops[0]), ops[1..], h', if k == 0 then 0 else k - 1);
      if k > 0 {
        assert ops[..k][1..] == ops[1..][..k - 1];
      }
    }
  }

  // ---- Steps that cannot matter ----

  /** Does not touch memory, the enable bits or the base registers, except by a reset. */
  ghost predicate Quiet(op: Op) {
    match op
    case Write(reg, _) => reg !in {RCTL_REG, TCTL_REG, RDBAL_REG, TDBAL_REG}
    case SetPreserve(reg, bits) =>
      reg !in {RDBAL_REG, TDBAL_REG} && (reg in {RCTL_REG, TCTL_REG} ==> !Bit(bits, ENABLE))
    case UnsetPreserve(reg, bits) =>
      reg !in {RDBAL_REG, TDBAL_REG} && (reg in {RCTL_REG, TCTL_REG} ==> !Bit(bits, ENABLE))
    case _ => false
  }

  /** h' allows the device no more than h does. */
  ghost predicate NoMoreAccess(h: Hw, h': Hw) {
    && h'.live == h.live && h'.slots == h.slots
    && (Bit(Reg(h', RCTL_REG), ENABLE) ==> Bit(Reg(h, RCTL_REG), ENABLE) && Reg(h', RDBAL_REG) == Reg(h, RDBAL_REG))
    && (Bit(Reg(h', TCTL_REG), ENABLE) ==> Bit(Reg(h, TCTL_REG), ENABLE) && Reg(h', TDBAL_REG) == Reg(h, TDBAL_REG))
  }

  lemma QuietStep(h: Hw, op: Op)
    requires Quiet(op)
    ensures NoMoreAccess(h, Exec(h, op))
  {
    match op {
      case Write(reg, value) => QuietStore(h, reg, value);
      case SetPreserve(reg, bits) =>
        OrBit(Reg(h, reg), bits, ENABLE);
        QuietStore(h, reg, Or(Reg(h, reg), bits));
      case UnsetPreserve(reg, bits) =>
        AndNotBit(Reg(h, reg), bits, ENABLE);
        QuietStore(h, reg, AndNot(Reg(h, reg), bits));
    }
  }

  lemma QuietStore(h: Hw, reg: nat, value: nat)
    requires reg !in {RDBAL_REG, TDBAL_REG}
    requires reg in {RCTL_REG, TCTL_REG} && Bit(value, ENABLE) ==> Bit(Reg(h, reg), ENABLE)
    ensures NoMoreAccess(h, Store(h, reg, value))
  {
    ZeroBit(ENABLE);
  }

  lemma {:induction false} QuietSafe(h: Hw, ops: seq<Op>) returns (h': Hw)
    requires Safe(h) && forall k :: 0 <= k < |ops| ==> Quiet(ops[k])
    ensures SafeRun(h, ops, h') && NoMoreAccess(h, h')
    ensures forall reg :: (forall k :: 0 <= k < |ops| ==> KeepsReg(ops[k], reg)) ==> Reg(h', reg) == Reg(h, reg)
    decreases |ops|
  {
    h' := h;
    if ops != [] {
      QuietStep(h, ops[0]);
      h' := QuietSafe(Exec(h, ops[0]), ops[1..]);
    }
  }

  ghost predicate KeepsReg(op: Op, reg: nat) {
    (op.Write? || op.SetPreserve? || op.UnsetPreserve?) ==> op.reg != reg && op.reg != CTRL_REG
  }

  // ---- What open and close do ----

  /** How kernel and device answer one open: dma_set_mask, the four allocations, request_irq, and the
      three words of the MAC address. */
  datatype Answers = Answers(maskOk: bool, recvDesc: Option<Address>, recvBuff: Option<Address>,
                             sendDesc: Option<Address>, sendBuff: Option<Address>, irqOk: bool,
                             words: MacAddress.Words)

  datatype Dma = Dma(recvDesc: Address, recvBuff: Address, sendDesc: Address, sendBuff: Address)

  function Align4096(n: nat): nat { (n + 4095) / 4096 * 4096 }

  const RECV_SIZE_DESC: nat := Align4096(SIZEOF_RECV_DESC * NB_RCV_DESC)
  const RECV_SIZE_BUFF: nat := Align4096(RECV_SIZE_DESC)
  const SEND_SIZE_DESC: nat := Align4096(SIZEOF_SEND_DESC * NB_SND_DESC)
  const SEND_SIZE_BUFF: nat := Align4096(BUF_SIZE_BY_DESC * NB_SND_DESC)

  function ControlOps(): seq<Op> {
    [SetPreserve(CTRL_REG, SpeedDetection()),
     UnsetPreserve(CTRL_REG, Pow2(CTRL_LRST)),
     UnsetPreserve(CTRL_REG, Pow2(CTRL_PHYRST)),
     UnsetPreserve(CTRL_REG, Pow2(CTRL_ILOS)),
     Write(FCAL_REG, 0), Write(FCAH_REG, 0), Write(FCT_REG, 0), Write(FCTTV_REG, 0),
     UnsetPreserve(CTRL_REG, Pow2(CTRL_VMDE))]
  }

  function MtaOps(n: nat): seq<Op> {
    seq(n, (i: nat) => Write(MTA_REG + i, 0))
  }

  function EepromOps(n: nat): seq<Op> {
    seq(n, (i: nat) => Write(EEPROM_READ, MacAddress.Request(i)))
  }

  function AddressOps(w: MacAddress.Words): seq<Op> {
    [Write(RAL_REG, MacAddress.Ral(w)), Write(RAH_REG, w.w2), SetPreserve(RAH_REG, Pow2(RAH_AV)),
     SetPreserve(RCTL_REG, Pow2(RCTL_MPE))]
  }

  function MacOps(w: MacAddress.Words): seq<Op> {
    EepromOps(3) + AddressOps(w)
  }

  function AllocOps(a: Option<Address>, b: Option<Address>): seq<Op> {
    (if a.Some? then [DmaAlloc(a.value)] else []) + (if b.Some? then [DmaAlloc(b.value)] else [])
  }

  // The loop that gives each descriptor its buffer, then the base register.
  function NameRingOps(base: nat, desc: Address, buff: Address): seq<Op> {
    [PointSlots(desc, buff), Write(base, desc)]
  }

  function RecvRestOps(): seq<Op> {
    [Write(RDBAH_REG, 0), Write(RDLEN_REG, RECV_SIZE_DESC), Write(RDH_REG, 0), Write(RDT_REG, NB_RCV_DESC - 1),
     UnsetPreserve(RCTL_REG, RCTL_BSIZE), UnsetPreserve(RCTL_REG, Pow2(RCTL_BSEX))]
  }

  function SendRestOps(): seq<Op> {
    [Write(TDBAH_REG, 0), Write(TDLEN_REG, SEND_SIZE_DESC), Write(TDH_REG, 0), Write(TDT_REG, 0)]
  }

  function RecvOps(desc: Address, buff: Address): seq<Op> {
    NameRingOps(RDBAL_REG, desc, buff) + RecvRestOps()
  }

  function SendOps(desc: Address, buff: Address): seq<Op> {
    NameRingOps(TDBAL_REG, desc, buff) + SendRestOps()
  }

  function EnableOps(): seq<Op> {
    [SetPreserve(TCTL_REG, Or(Or(Pow2(ENABLE), Pow2(TCTL_PAD_PACK)), TCTL_CT)),
     SetPreserve(RCTL_REG, Pow2(ENABLE))]
  }

  predicate RecvOk(a: Answers) { a.recvDesc.Some? && a.recvBuff.Some? }

  predicate SendOk(a: Answers) { a.sendDesc.Some? && a.sendBuff.Some? }

  function SendPartOps(a: Answers): seq<Op> {
    AllocOps(a.sendDesc, a.sendBuff)
    + if SendOk(a) then SendOps(a.sendDesc.value, a.sendBuff.value) + EnableOps() else []
  }

  function QueueOps(a: Answers): seq<Op> {
    if !a.maskOk then []
    else
      AllocOps(a.recvDesc, a.recvBuff)
      + if RecvOk(a) then RecvOps(a.recvDesc.value, a.recvBuff.value) + SendPartOps(a) else []
  }

  predicate QueuesOk(a: Answers) { a.maskOk && RecvOk(a) && SendOk(a) }

  predicate OpenOk(a: Answers) { QueuesOk(a) && a.irqOk }

  function InterruptOps(a: Answers): seq<Op> {
    if !QueuesOk(a) then []
    else if !a.irqOk then [TaskletInit]
    else [TaskletInit, RequestIrq, Write(IMS_REG, IMS_CAUSES)]
  }

  function OpenOps(a: Answers): seq<Op> {
    ControlOps() + MtaOps(128) + MacOps(a.words) + QueueOps(a) + InterruptOps(a)
  }

  function UninitOps(): seq<Op> { [FreeIrq, TaskletDisable] }

  function DisableOps(): seq<Op> {
    [UnsetPreserve(RCTL_REG, Pow2(ENABLE)), UnsetPreserve(TCTL_REG, Pow2(ENABLE))]
  }

  function FreeOps(d: Dma): seq<Op> {
    [DmaFree(d.recvDesc), DmaFree(d.recvBuff)] + [DmaFree(d.sendDesc), DmaFree(d.sendBuff)]
  }

  function CloseOps(d: Dma): seq<Op> {
    UninitOps() + DisableOps() + FreeOps(d) + [Write(CTRL_REG, Pow2(CTRL_RST))]
  }

  /** What one open has allocated when it returns, whether or not it succeeds. */
  function Taken(a: Answers): set<Address> {
    if !a.maskOk then {}
    else
      OptionSet(a.recvDesc) + OptionSet(a.recvBuff)
      + if RecvOk(a) then OptionSet(a.sendDesc) + OptionSet(a.sendBuff) else {}
  }

  /** That is: nothing without the DMA mask, then what is granted of the receive memory, and only if that
      is complete what is granted of the transmit memory. */
  lemma TakenMeans(a: Answers, x: Address)
    ensures x in Taken(a) <==>
            && a.maskOk
            && (|| a.recvDesc == Some(x) || a.recvBuff == Some(x)
                || (a.recvDesc.Some? && a.recvBuff.Some? && (a.sendDesc == Some(x) || a.sendBuff == Some(x))))
  {
  }

  function OptionSet(a: Option<Address>): set<Address> {
    if a.Some? then {a.value} else {}
  }

  /** The allocator hands out memory that is not in use. */
  ghost predicate FreshAnswers(live: set<Address>, a: Answers) {
    && OptionSet(a.recvDesc) !! OptionSet(a.recvBuff) !! OptionSet(a.sendDesc) !! OptionSet(a.sendBuff)
    && (OptionSet(a.recvDesc) + OptionSet(a.recvBuff) + OptionSet(a.sendDesc) + OptionSet(a.sendBuff)) !! live
  }

  // ---- Each part of open and close is safe throughout ----

  lemma SetUpSafe(h: Hw, w: MacAddress.Words) returns (h': Hw)
    requires Safe(h)
    ensures SafeRun(h, ControlOps() + MtaOps(128) + MacOps(w), h') && NoMoreAccess(h, h')
  {
    ShiftedOne(RCTL_MPE, ENABLE);
    h' := QuietSafe(h, ControlOps() + MtaOps(128) + MacOps(w));
  }

  // Fresh memory takes nothing away from the rings in use.
  ghost predicate Grown(h: Hw, taken: set<Address>, h': Hw) {
    && h'.regs == h.regs && h'.live == h.live + taken
    && forall d :: d in h.slots && d !in taken ==> d in h'.slots && h'.slots[d] == h.slots[d]
  }

  lemma AllocOneSafe(h: Hw, a: Option<Address>) returns (h': Hw)
    requires Safe(h) && OptionSet(a) !! h.live
    ensures SafeRun(h, if a.Some? then [DmaAlloc(a.value)] else [], h') && Grown(h, OptionSet(a), h')
  {
    if a.Some? {
      h' := Exec(h, DmaAlloc(a.value));
      SafeOne(h, DmaAlloc(a.value));
    } else {
      h' := h;
    }
  }

  lemma AllocSafe(h: Hw, a: Option<Address>, b: Option<Address>) returns (h': Hw)
    requires Safe(h) && OptionSet(a) !! OptionSet(b) && OptionSet(a) !! h.live && OptionSet(b) !! h.live
    ensures SafeRun(h, AllocOps(a, b), h') && Grown(h, OptionSet(a) + OptionSet(b), h') && Safe(h')
  {
    var m := AllocOneSafe(h, a);
    EndsSafe(h, if a.Some? then [DmaAlloc(a.value)] else [], m);
    h' := AllocOneSafe(m, b);
    EndsSafe(m, if b.Some? then [DmaAlloc(b.value)] else [], h');
    SafeConcat(h, if a.Some? then [DmaAlloc(a.value)] else [], m, if b.Some? then [DmaAlloc(b.value)] else [], h');
  }

  lemma {:induction false} EndsSafe(h: Hw, ops: seq<Op>, h': Hw)
    requires SafeRun(h, ops, h')
    ensures Safe(h')
    decreases |ops|
  {
    if ops != [] {
      EndsSafe(Exec(h, ops[0]), ops[1..], h');
    }
  }

  lemma PointSlotsSafe(h: Hw, desc: Address, buff: Address)
    requires Safe(h) && desc in h.live && buff in h.live
    ensures Safe(Exec(h, PointSlots(desc, buff)))
  {
  }

  lemma NameRingSafe(h: Hw, base: nat, desc: Address, buff: Address) returns (h': Hw)
    requires Safe(h) && base in {RDBAL_REG, TDBAL_REG} && desc in h.live && buff in h.live
    ensures SafeRun(h, NameRingOps(base, desc, buff), h') && Safe(h')
    ensures h' == h.(regs := h.regs[base := desc], slots := h.slots[desc := buff])
  {
    h' := h.(regs := h.regs[base := desc], slots := h.slots[desc := buff]);
    var m := Exec(h, PointSlots(desc, buff));
    PointSlotsSafe(h, desc, buff);
    assert Safe(Exec(m, Write(base, desc)));
    SafeTwo(h, PointSlots(desc, buff), Write(base, desc));
  }

  lemma RecvRestQuiet()
    ensures forall k :: 0 <= k < |RecvRestOps()| ==> Quiet(RecvRestOps()[k]) && KeepsReg(RecvRestOps()[k], RDBAL_REG)
  {
    ShiftedOne(RCTL_BSEX, ENABLE);
    assert !Bit(RCTL_BSIZE, ENABLE);
  }

  lemma RecvSafe(h: Hw, desc: Address, buff: Address) returns (h': Hw)
    requires Safe(h) && desc in h.live && buff in h.live
    ensures SafeRun(h, RecvOps(desc, buff), h') && Safe(h')
    ensures h'.live == h.live && h'.slots == h.slots[desc := buff] && Reg(h', RDBAL_REG) == desc
    ensures Off(h) ==> Off(h')
  {
    var m := NameRingSafe(h, RDBAL_REG, desc, buff);
    RecvRestQuiet();
    h' := QuietSafe(m, RecvRestOps());
    EndsSafe(m, RecvRestOps(), h');
    SafeConcat(h, NameRingOps(RDBAL_REG, desc, buff), m, RecvRestOps(), h');
  }

  lemma SendSafe(h: Hw, desc: Address, buff: Address) returns (h': Hw)
    requires Safe(h) && desc in h.live && buff in h.live
    ensures SafeRun(h, SendOps(desc, buff), h') && Safe(h')
    ensures h'.live == h.live && h'.slots == h.slots[desc := buff]
    ensures Reg(h', TDBAL_REG) == desc && Reg(h', RDBAL_REG) == Reg(h, RDBAL_REG)
  {
    var m := NameRingSafe(h, TDBAL_REG, desc, buff);
    h' := QuietSafe(m, SendRestOps());
    EndsSafe(m, SendRestOps(), h');
    SafeConcat(h, NameRingOps(TDBAL_REG, desc, buff), m, SendRestOps(), h');
  }

  ghost predicate On(h: Hw) {
    Bit(Reg(h, RCTL_REG), ENABLE) && Bit(Reg(h, TCTL_REG), ENABLE)
  }

  ghost predicate Off(h: Hw) {
    !Bit(Reg(h, RCTL_REG), ENABLE) && !Bit(Reg(h, TCTL_REG), ENABLE)
  }

  lemma EnableSafe(h: Hw) returns (h': Hw)
    requires Safe(h) && Backed(h, Reg(h, RDBAL_REG)) && Backed(h, Reg(h, TDBAL_REG))
    ensures SafeRun(h, EnableOps(), h') && h'.live == h.live && On(h')
  {
    var tx, rx := EnableOps()[0], EnableOps()[1];
    var m := Exec(h, tx);
    h' := Exec(m, rx);
    SafeTwo(h, tx, rx);
    ShiftedOne(ENABLE, ENABLE);
    OrBit(Reg(m, RCTL_REG), Pow2(ENABLE), ENABLE);
    OrBit(Pow2(ENABLE), Pow2(TCTL_PAD_PACK), ENABLE);
    OrBit(Or(Pow2(ENABLE), Pow2(TCTL_PAD_PACK)), TCTL_CT, ENABLE);
    OrBit(Reg(h, TCTL_REG), tx.bits, ENABLE);
  }

  lemma SendPartSafe(h: Hw, a: Answers) returns (h': Hw)
    requires Safe(h) && Backed(h, Reg(h, RDBAL_REG))
    requires OptionSet(a.sendDesc) !! OptionSet(a.sendBuff)
    requires OptionSet(a.sendDesc) !! h.live && OptionSet(a.sendBuff) !! h.live
    ensures SafeRun(h, SendPartOps(a), h')
    ensures h'.live == h.live + (OptionSet(a.sendDesc) + OptionSet(a.sendBuff))
    ensures if SendOk(a) then On(h') else Off(h) ==> Off(h')
  {
    var alloc := AllocOps(a.sendDesc, a.sendBuff);
    var m := AllocSafe(h, a.sendDesc, a.sendBuff);
    if SendOk(a) {
      var (d, b) := (a.sendDesc.value, a.sendBuff.value);
      var n := SendSafe(m, d, b);
      h' := EnableSafe(n);
      SafeConcat(m, SendOps(d, b), n, EnableOps(), h');
      SafeConcat(h, alloc, m, SendOps(d, b) + EnableOps(), h');
    } else {
      h' := m;
      assert SendPartOps(a) == alloc;
    }
  }

  lemma QueueSafe(h: Hw, a: Answers) returns (h': Hw)
    requires Safe(h) && FreshAnswers(h.live, a)
    ensures SafeRun(h, QueueOps(a), h') && h'.live == h.live + Taken(a)
    ensures if QueuesOk(a) then On(h') else Off(h) ==> Off(h')
  {
    if !a.maskOk {
      h' := h;
    } else {
      var alloc := AllocOps(a.recvDesc, a.recvBuff);
      var m := AllocSafe(h, a.recvDesc, a.recvBuff);
      if RecvOk(a) {
        var recv := RecvOps(a.recvDesc.value, a.recvBuff.value);
        var n := RecvSafe(m, a.recvDesc.value, a.recvBuff.value);
        h' := SendPartSafe(n, a);
        SafeConcat(m, recv, n, SendPartOps(a), h');
        SafeConcat(h, alloc, m, recv + SendPartOps(a), h');
      } else {
        h' := m;
        assert QueueOps(a) == alloc;
      }
    }
  }

  // ---- The interrupt line ----

  ghost predicate KeepsIrq(ops: seq<Op>) {
    forall k :: 0 <= k < |ops| ==> !ops[k].TaskletInit? && !ops[k].RequestIrq? && !ops[k].FreeIrq? && !ops[k].TaskletDisable?
  }

  lemma {:induction false} IrqKept(h: Hw, ops: seq<Op>)
    requires KeepsIrq(ops)
    ensures Replay(h, ops).irq == h.irq && Replay(h, ops).tasklet == h.tasklet
    decreases |ops|
  {
    if ops != [] {
      IrqKept(Exec(h, ops[0]), ops[1..]);
    }
  }

  lemma QueueKeepsIrq(a: Answers)
    ensures KeepsIrq(QueueOps(a))
  {
    assert KeepsIrq(AllocOps(a.recvDesc, a.recvBuff)) && KeepsIrq(AllocOps(a.sendDesc, a.sendBuff));
    assert KeepsIrq(EnableOps());
    if SendOk(a) {
      assert KeepsIrq(SendOps(a.sendDesc.value, a.sendBuff.value));
    }
    assert KeepsIrq(SendPartOps(a));
    if RecvOk(a) {
      assert KeepsIrq(RecvOps(a.recvDesc.value, a.recvBuff.value));
    }
  }

  lemma InterruptSafe(h: Hw, a: Answers) returns (h': Hw)
    requires Safe(h) && !h.irq
    ensures SafeRun(h, InterruptOps(a), h') && h'.live == h.live && (On(h) ==> On(h')) && (Off(h) ==> Off(h'))
    ensures h'.irq == OpenOk(a) && h'.tasklet == (h.tasklet || QueuesOk(a))
  {
    h' := h;
    if QueuesOk(a) {
      var m := Exec(h, TaskletInit);
      SafeOne(h, TaskletInit);
      h' := m;
      if a.irqOk {
        var ims := Write(IMS_REG, IMS_CAUSES);
        h' := Exec(Exec(m, RequestIrq), ims);
        SafeTwo(m, RequestIrq, ims);
        assert [TaskletInit] + [RequestIrq, ims] == InterruptOps(a);
        SafeConcat(h, [TaskletInit], m, [RequestIrq, ims], h');
      }
    }
  }

  /** One open, from any safe state and whatever the kernel answers, is safe at every step. */
  lemma OpenSafe(h: Hw, a: Answers) returns (h': Hw)
    requires Safe(h) && FreshAnswers(h.live, a) && !h.irq
    ensures SafeRun(h, OpenOps(a), h') && h'.live == h.live + Taken(a)
    ensures if QueuesOk(a) then On(h') else Off(h) ==> Off(h')
    ensures h'.irq == OpenOk(a) && h'.tasklet == (h.tasklet || QueuesOk(a))
  {
    var setUp := ControlOps() + MtaOps(128) + MacOps(a.words);
    var m := SetUpSafe(h, a.words);
    EndsSafe(h, setUp, m);
    var n := QueueSafe(m, a);
    EndsSafe(m, QueueOps(a), n);
    SafeConcat(h, setUp, m, QueueOps(a), n);
    SetUpKeepsIrq(a.words);
    IrqAfter(h, setUp, m);
    QueueKeepsIrq(a);
    IrqAfter(m, QueueOps(a), n);
    h' := InterruptSafe(n, a);
    SafeConcat(h, setUp + QueueOps(a), n, InterruptOps(a), h');
  }

  lemma SetUpKeepsIrq(w: MacAddress.Words)
    ensures KeepsIrq(ControlOps() + MtaOps(128) + MacOps(w))
  {
  }

  lemma IrqAfter(h: Hw, ops: seq<Op>, n: Hw)
    requires SafeRun(h, ops, n) && KeepsIrq(ops)
    ensures SameIrq(h, n)
  {
    SafeAtEveryStep(h, ops, n, 0);
    IrqKept(h, ops);
  }

  // Nothing changed in the interrupt line.
  ghost predicate SameIrq(h: Hw, h': Hw) {
    h'.irq == h.irq && h'.tasklet == h.tasklet
  }

  lemma DisableSafe(h: Hw) returns (h': Hw)
    requires Safe(h)
    ensures SafeRun(h, DisableOps(), h') && Off(h') && h'.live == h.live && SameIrq(h, h')
  {
    var rx, tx := DisableOps()[0], DisableOps()[1];
    h' := Exec(Exec(h, rx), tx);
    ShiftedOne(ENABLE, ENABLE);
    AndNotBit(Reg(h, RCTL_REG), Pow2(ENABLE), ENABLE);
    AndNotBit(Reg(h, TCTL_REG), Pow2(ENABLE), ENABLE);
    SafeTwo(h, rx, tx);
  }

  function DmaSet(d: Dma): set<Address> {
    {d.recvDesc, d.recvBuff, d.sendDesc, d.sendBuff}
  }

  ghost predicate Distinct(d: Dma) {
    && d.recvDesc !in {d.recvBuff, d.sendDesc, d.sendBuff}
    && d.recvBuff !in {d.sendDesc, d.sendBuff} && d.sendDesc != d.sendBuff
  }

  lemma FreeTwoSafe(h: Hw, a: Address, b: Address) returns (h': Hw)
    requires Off(h) && a in h.live && b in h.live && a != b
    ensures SafeRun(h, [DmaFree(a), DmaFree(b)], h') && Off(h') && h'.live == h.live - {a, b} && SameIrq(h, h')
  {
    h' := Exec(Exec(h, DmaFree(a)), DmaFree(b));
    SafeTwo(h, DmaFree(a), DmaFree(b));
  }

  lemma UninitSafe(h: Hw) returns (h': Hw)
    requires Safe(h) && h.irq
    ensures SafeRun(h, UninitOps(), h') && h' == h.(irq := false, tasklet := false) && Safe(h')
  {
    h' := h.(irq := false, tasklet := false);
    SafeTwo(h, FreeIrq, TaskletDisable);
  }

  lemma CloseSafe(h: Hw, d: Dma) returns (h': Hw)
    requires Safe(h) && DmaSet(d) <= h.live && Distinct(d) && h.irq
    ensures SafeRun(h, CloseOps(d), h') && h'.live == h.live - DmaSet(d)
    ensures Off(h') && !h'.irq && !h'.tasklet && h'.regs == map[]
  {
    var l := UninitSafe(h);
    var m := DisableSafe(l);
    SafeConcat(h, UninitOps(), l, DisableOps(), m);
    var n := FreeTwoSafe(m, d.recvDesc, d.recvBuff);
    var o := FreeTwoSafe(n, d.sendDesc, d.sendBuff);
    SafeConcat(m, [DmaFree(d.recvDesc), DmaFree(d.recvBuff)], n, [DmaFree(d.sendDesc), DmaFree(d.sendBuff)], o);
    SafeConcat(h, UninitOps() + DisableOps(), m, FreeOps(d), o);
    h' := ResetSafe(o);
    SafeConcat(h, UninitOps() + DisableOps() + FreeOps(d), o, [Write(CTRL_REG, Pow2(CTRL_RST))], h');
  }

  lemma ResetSafe(h: Hw) returns (h': Hw)
    requires Safe(h)
    ensures SafeRun(h, [Write(CTRL_REG, Pow2(CTRL_RST))], h') && h' == h.(regs := map[]) && Off(h')
  {
    ZeroBit(ENABLE);
    ShiftedOne(CTRL_RST, CTRL_RST);
    h' := h.(regs := map[]);
    SafeOne(h, Write(CTRL_REG, Pow2(CTRL_RST)));
  }

  // ---- Runs ----

  /** The driver between calls; leaked: what failed opens allocated and nobody can free any more. */
  datatype Sys = Sys(hw: Hw, dma: Dma, up: bool, leaked: set<Address>)

  datatype Call = Open(answers: Answers) | Close

  /** The network core opens a device that is down and closes one that is up. */
  ghost predicate Possible(s: Sys, c: Call) {
    match c
    case Open(a) => !s.up && FreshAnswers(s.hw.live, a)
    case Close => s.up
  }

  function NewDma(d: Dma, a: Answers): Dma {
    if !a.maskOk then d
    else
      var d' := Dma(GetOr(a.recvDesc, d.recvDesc), GetOr(a.recvBuff, d.recvBuff), d.sendDesc, d.sendBuff);
      if RecvOk(a) then d'.(sendDesc := GetOr(a.sendDesc, d.sendDesc), sendBuff := GetOr(a.sendBuff, d.sendBuff))
      else d'
  }

  function GetOr(a: Option<Address>, default: Address): Address {
    if a.Some? then a.value else default
  }

  function CallOps(s: Sys, c: Call): seq<Op> {
    match c
    case Open(a) => OpenOps(a)
    case Close => CloseOps(s.dma)
  }

  function Next(s: Sys, c: Call): Sys {
    var hw := Replay(s.hw, CallOps(s, c));
    match c
    case Open(a) => Sys(hw, NewDma(s.dma, a), OpenOk(a), if OpenOk(a) then s.leaked else s.leaked + Taken(a))
    case Close => Sys(hw, s.dma, false, s.leaked)
  }

  ghost predicate PossibleRun(s: Sys, calls: seq<Call>)
    decreases |calls|
  {
    calls == [] || (Possible(s, calls[0]) && PossibleRun(Next(s, calls[0]), calls[1..]))
  }

  /** All the hardware operations of a run, in order, and the state it ends in. */
  function RunOps(s: Sys, calls: seq<Call>): seq<Op>
    decreases |calls|
  {
    if calls == [] then [] else CallOps(s, calls[0]) + RunOps(Next(s, calls[0]), calls[1..])
  }

  function Final(s: Sys, calls: seq<Call>): Sys
    decreases |calls|
  {
    if calls == [] then s else Final(Next(s, calls[0]), calls[1..])
  }

  ghost predicate Inv(s: Sys) {
    && Safe(s.hw)
    && s.hw.live == s.leaked + (if s.up then DmaSet(s.dma) else {})
    && s.hw.irq == s.up
    && (s.up ==> s.hw.tasklet && On(s.hw) && Distinct(s.dma) && DmaSet(s.dma) !! s.leaked)
  }

  lemma OpenKeepsInv(s: Sys, a: Answers)
    requires Inv(s) && Possible(s, Open(a))
    ensures SafeRun(s.hw, OpenOps(a), Next(s, Open(a)).hw) && Inv(Next(s, Open(a)))
    ensures Next(s, Open(a)).hw.tasklet == (s.hw.tasklet || QueuesOk(a))
    ensures !QueuesOk(a) && Off(s.hw) ==> Off(Next(s, Open(a)).hw)
  {
    var hw := OpenSafe(s.hw, a);
    EndsSafe(s.hw, OpenOps(a), hw);
    SafeAtEveryStep(s.hw, OpenOps(a), hw, 0);
    if OpenOk(a) {
      OpenTakesDma(s.dma, a);
    }
  }

  lemma OpenTakesDma(d: Dma, a: Answers)
    requires OpenOk(a)
    ensures Taken(a) == DmaSet(NewDma(d, a))
    ensures NewDma(d, a) == Dma(a.recvDesc.value, a.recvBuff.value, a.sendDesc.value, a.sendBuff.value)
  {
  }

  lemma CloseKeepsInv(s: Sys)
    requires Inv(s) && s.up
    ensures SafeRun(s.hw, CloseOps(s.dma), Next(s, Close).hw) && Inv(Next(s, Close))
    ensures Off(Next(s, Close).hw) && !Next(s, Close).hw.tasklet && Next(s, Close).hw.regs == map[]
  {
    var hw := CloseSafe(s.hw, s.dma);
    EndsSafe(s.hw, CloseOps(s.dma), hw);
    SafeAtEveryStep(s.hw, CloseOps(s.dma), hw, 0);
  }

  lemma {:induction false} RunKeepsInv(s: Sys, calls: seq<Call>)
    requires Inv(s) && PossibleRun(s, calls)
    ensures SafeRun(s.hw, RunOps(s, calls), Final(s, calls).hw) && Inv(Final(s, calls))
    decreases |calls|
  {
    if calls != [] {
      var t := Next(s, calls[0]);
      match calls[0] {
        case Open(a) => OpenKeepsInv(s, a);
        case Close => CloseKeepsInv(s);
      }
      RunKeepsInv(t, calls[1..]);
      SafeConcat(s.hw, CallOps(s, calls[0]), t.hw, RunOps(t, calls[1..]), Final(t, calls[1..]).hw);
    }
  }

  /** The device as the driver finds it: disabled, with no memory of ours. */
  ghost predicate Initial(s: Sys) {
    Off(s.hw) && s.hw.live == {} && !s.hw.irq && !s.hw.tasklet && !s.up && s.leaked == {}
  }

  /** Enabled implies live, after the k-th operation of any run of opens and closes, whichever opens
      fail and wherever; memory is allocated only when free and freed only when live, and the interrupt
      line is requested only when free and freed only when held. */
  lemma EnabledImpliesLive(s: Sys, calls: seq<Call>, k: nat)
    requires Initial(s) && PossibleRun(s, calls) && k <= |RunOps(s, calls)|
    ensures Safe(Replay(s.hw, RunOps(s, calls)[..k]))
    ensures k < |RunOps(s, calls)| ==> Lawful(Replay(s.hw, RunOps(s, calls)[..k]), RunOps(s, calls)[k])
  {
    RunKeepsInv(s, calls);
    SafeAtEveryStep(s.hw, RunOps(s, calls), Final(s, calls).hw, k);
  }

  ghost predicate LeaksNothing(calls: seq<Call>) {
    forall k :: 0 <= k < |calls| && calls[k].Open? && !OpenOk(calls[k].answers) ==> Taken(calls[k].answers) == {}
  }

  lemma {:induction false} LeakedIffFailed(s: Sys, calls: seq<Call>)
    ensures Final(s, calls).leaked == {} <==> s.leaked == {} && LeaksNothing(calls)
    decreases |calls|
  {
    if calls != [] {
      LeakedIffFailed(Next(s, calls[0]), calls[1..]);
      assert LeaksNothing(calls) <==>
             (calls[0].Open? && !OpenOk(calls[0].answers) ==> Taken(calls[0].answers) == {}) && LeaksNothing(calls[1..])
      by {
        assert forall k :: 0 <= k < |calls| - 1 ==> calls[1..][k] == calls[k + 1];
        assert forall k :: 1 <= k < |calls| ==> calls[k] == calls[1..][k - 1];
      }
    }
  }

  /** Memory is all given back when the device ends down exactly if no open failed after allocating. */
  lemma AllFreedIffNoLateFailure(s: Sys, calls: seq<Call>)
    requires Initial(s) && PossibleRun(s, calls) && !Final(s, calls).up
    ensures Final(s, calls).hw.live == {} <==> LeaksNothing(calls)
  {
    RunKeepsInv(s, calls);
    LeakedIffFailed(s, calls);
  }

  // ---- The CTRL register, and the extent of the slots ----

  function UpdateOf(op: Op, reg: nat): seq<Update> {
    if op.SetPreserve? && op.reg == reg then [Update(op.bits, op.bits)]
    else if op.UnsetPreserve? && op.reg == reg then [Update(op.bits, 0)]
    else []
  }

  /** A register follows the field updates made to it, short of a reset or a plain store: from value c
      with updates us done, ops lead to the value that all the updates together give. */
  ghost predicate Follows(c: nat, us: seq<Update>, h: Hw, reg: nat) {
    Reg(h, reg) == Run(c, us) && !Bit(Reg(h, CTRL_REG), CTRL_RST)
  }

  // No reset, and no plain store to reg.
  ghost predicate Masked(op: Op, reg: nat) {
    && (op.Write? ==> op.reg !in {reg, CTRL_REG})
    && (op.SetPreserve? && op.reg == CTRL_REG ==> !Bit(op.bits, CTRL_RST))
  }

  lemma FollowsStep(c: nat, us: seq<Update>, h: Hw, op: Op, reg: nat)
    requires Follows(c, us, h, reg) && Masked(op, reg)
    ensures Follows(c, us + UpdateOf(op, reg), Exec(h, op), reg)
  {
    var us' := us + UpdateOf(op, reg);
    if op.SetPreserve? {
      OrBit(Reg(h, op.reg), op.bits, CTRL_RST);
    } else if op.UnsetPreserve? {
      AndNotBit(Reg(h, op.reg), op.bits, CTRL_RST);
    }
    if UpdateOf(op, reg) == [] {
      assert us' == us;
    } else {
      assert us'[..|us|] == us;
    }
  }

  function UpdatesOf(ops: seq<Op>, reg: nat): seq<Update> {
    if ops == [] then [] else UpdateOf(ops[0], reg) + UpdatesOf(ops[1..], reg)
  }

  lemma {:induction false} RegisterFollowsUpdates(c: nat, us: seq<Update>, h: Hw, ops: seq<Op>, reg: nat)
    requires Follows(c, us, h, reg) && forall k :: 0 <= k < |ops| ==> Masked(ops[k], reg)
    ensures Follows(c, us + UpdatesOf(ops, reg), Replay(h, ops), reg)
    decreases |ops|
  {
    if ops == [] {
      assert us + UpdatesOf(ops, reg) == us;
    } else {
      var u, rest := UpdateOf(ops[0], reg), UpdatesOf(ops[1..], reg);
      FollowsStep(c, us, h, ops[0], reg);
      RegisterFollowsUpdates(c, us + u, Exec(h, ops[0]), ops[1..], reg);
      Reassociate(us, u, rest);
    }
  }

  lemma Reassociate(xs: seq<Update>, ys: seq<Update>, zs: seq<Update>)
    ensures xs + ys + zs == xs + (ys + zs)
  {
  }

  function SpeedDetection(): nat {
    Or(Pow2(CTRL_ASDE), Pow2(CTRL_SLU))
  }

  function ControlUpdates(): seq<Update> {
    [Update(SpeedDetection(), SpeedDetection()), Update(Pow2(CTRL_LRST), 0), Update(Pow2(CTRL_PHYRST), 0),
     Update(Pow2(CTRL_ILOS), 0), Update(Pow2(CTRL_VMDE), 0)]
  }

  lemma ControlMasks(i: nat)
    ensures Bit(SpeedDetection(), i) <==> i == CTRL_ASDE || i == CTRL_SLU
    ensures Bit(Pow2(CTRL_LRST), i) <==> i == CTRL_LRST
    ensures Bit(Pow2(CTRL_PHYRST), i) <==> i == CTRL_PHYRST
    ensures Bit(Pow2(CTRL_ILOS), i) <==> i == CTRL_ILOS
    ensures Bit(Pow2(CTRL_VMDE), i) <==> i == CTRL_VMDE
  {
    ShiftedOne(CTRL_ASDE, i);
    ShiftedOne(CTRL_SLU, i);
    OrBit(Pow2(CTRL_ASDE), Pow2(CTRL_SLU), i);
    ShiftedOne(CTRL_LRST, i);
    ShiftedOne(CTRL_PHYRST, i);
    ShiftedOne(CTRL_ILOS, i);
    ShiftedOne(CTRL_VMDE, i);
  }

  lemma ControlOpsUpdates()
    ensures UpdatesOf(ControlOps(), CTRL_REG) == ControlUpdates()
  {
    var ops, us := ControlOps(), ControlUpdates();
    assert UpdatesOf(ops[9..], CTRL_REG) == [];
    UpdatesFrom(ops, 8, CTRL_REG);
    assert UpdatesOf(ops[8..], CTRL_REG) == us[4..];
    UpdatesFrom(ops, 7, CTRL_REG);
    UpdatesFrom(ops, 6, CTRL_REG);
    UpdatesFrom(ops, 5, CTRL_REG);
    UpdatesFrom(ops, 4, CTRL_REG);
    assert UpdatesOf(ops[4..], CTRL_REG) == us[4..];
    UpdatesFrom(ops, 3, CTRL_REG);
    assert UpdatesOf(ops[3..], CTRL_REG) == us[3..];
    UpdatesFrom(ops, 2, CTRL_REG);
    assert UpdatesOf(ops[2..], CTRL_REG) == us[2..];
    UpdatesFrom(ops, 1, CTRL_REG);
    assert UpdatesOf(ops[1..], CTRL_REG) == us[1..];
    assert us == [us[0]] + us[1..];
  }

  lemma UpdatesFrom(ops: seq<Op>, k: nat, reg: nat)
    requires k < |ops|
    ensures UpdatesOf(ops[k..], reg) == UpdateOf(ops[k], reg) + UpdatesOf(ops[k + 1..], reg)
  {
    assert ops[k..][1..] == ops[k + 1..];
  }

  lemma ControlUpdatesInMask()
    ensures AllInMask(ControlUpdates()) && PairwiseDisjoint(ControlUpdates())
  {
    var us := ControlUpdates();
    forall k | 0 <= k < |us|
      ensures InMask(us[k])
    {
      forall i: nat
        ensures Bit(us[k].value, i) ==> Bit(us[k].mask, i)
      {
        ZeroBit(i);
      }
    }
    forall j, k, i: nat | 0 <= j < k < |us|
      ensures !(Bit(us[j].mask, i) && Bit(us[k].mask, i))
    {
      ControlMasks(i);
      assert k == 1 || k == 2 || k == 3 || k == 4;
    }
  }

  /** `init_hw` leaves CTRL with speed detection and link-up set, the reset, signal-loss and VLAN bits
      clear, and every other bit as it was. */
  lemma ControlRegister(h: Hw, i: nat)
    requires !Bit(Reg(h, CTRL_REG), CTRL_RST)
    ensures Bit(Reg(Replay(h, ControlOps()), CTRL_REG), i) ==
            if i in {5, 6} then true else if i in {3, 7, 30, 31} then false else Bit(Reg(h, CTRL_REG), i)
  {
    var us, c := ControlUpdates(), Reg(h, CTRL_REG);
    ControlMasks(CTRL_RST);
    assert forall k :: 0 <= k < |ControlOps()| ==> Masked(ControlOps()[k], CTRL_REG);
    RegisterFollowsUpdates(c, [], h, ControlOps(), CTRL_REG);
    ControlOpsUpdates();
    assert [] + us == us;
    ControlBits(c, i);
  }

  lemma ControlBits(c: nat, i: nat)
    ensures Bit(Run(c, ControlUpdates()), i) ==
            if i in {CTRL_ASDE, CTRL_SLU} then true
            else if i in {CTRL_LRST, CTRL_PHYRST, CTRL_ILOS, CTRL_VMDE} then false
            else Bit(c, i)
  {
    var us := ControlUpdates();
    ControlUpdatesInMask();
    LastWriterPerBit(c, us, i);
    ControlMasks(i);
    ZeroBit(i);
    var k := WrittenOrUntouched(us, i);
    if LastWriter(us, i, k) {
      assert k == 0 || k == 1 || k == 2 || k == 3 || k == 4;
    } else {
      assert !Bit(us[0].mask, i) && !Bit(us[1].mask, i) && !Bit(us[2].mask, i) && !Bit(us[3].mask, i) && !Bit(us[4].mask, i);
    }
  }

  /** The order of those calls does not matter. */
  lemma ControlAnyOrder(c: nat, vs: seq<Update>)
    requires SameUpdates(ControlUpdates(), vs)
    ensures Run(c, vs) == Run(c, ControlUpdates())
  {
    ControlUpdatesInMask();
    DisjointUpdatesCommute(c, ControlUpdates(), vs);
  }

  lemma {:induction false} RegKept(h: Hw, ops: seq<Op>, reg: nat)
    requires forall k :: 0 <= k < |ops| ==> KeepsReg(ops[k], reg)
    ensures Reg(Replay(h, ops), reg) == Reg(h, reg)
    decreases |ops|
  {
    if ops != [] {
      RegKept(Exec(h, ops[0]), ops[1..], reg);
    }
  }

  lemma {:induction false} ReplayConcat(h: Hw, xs: seq<Op>, ys: seq<Op>)
    ensures Replay(h, xs + ys) == Replay(Replay(h, xs), ys)
    decreases |xs|
  {
    if xs == [] {
      assert xs + ys == ys;
    } else {
      ReplayConcat(Exec(h, xs[0]), xs[1..], ys);
      assert (xs + ys)[1..] == xs[1..] + ys;
    }
  }

  lemma AddressWritten(h: Hw, w: MacAddress.Words)
    ensures var h' := Replay(h, AddressOps(w));
            Reg(h', RAL_REG) == MacAddress.Ral(w) && Reg(h', RAH_REG) == MacAddress.Rah(w)
  {
    var ops := AddressOps(w);
    assert ops[1..][1..] == ops[2..] && ops[2..][1..] == ops[3..] && ops[3..][1..] == [];
    var h1 := Exec(h, ops[0]);
    var h2 := Exec(h1, ops[1]);
    var h3 := Exec(h2, ops[2]);
    assert Replay(h, ops) == Replay(h1, ops[1..]) == Replay(h2, ops[2..]) == Replay(h3, ops[3..]) == Exec(h3, ops[3]);
    MacAddress.ValidBit(w.w2);
  }

  /** Whatever else open does, and even if it then fails, the device ends with the EEPROM's six address
      bytes in its receive-address registers, marked valid. */
  lemma OpenProgramsAddress(h: Hw, a: Answers)
    ensures var h' := Replay(h, OpenOps(a));
            MacAddress.Decode(Reg(h', RAL_REG), Reg(h', RAH_REG)) == (MacAddress.AddressBytes(a.words), true)
  {
    var before, rest := ControlOps() + MtaOps(128) + EepromOps(3), QueueOps(a) + InterruptOps(a);
    AddressParts(a);
    ReplayConcat(h, before, AddressOps(a.words) + rest);
    var m := Replay(h, before);
    ReplayConcat(m, AddressOps(a.words), rest);
    AddressWritten(m, a.words);
    RestKeepsAddress(a);
    RegKept(Replay(m, AddressOps(a.words)), rest, RAL_REG);
    RegKept(Replay(m, AddressOps(a.words)), rest, RAH_REG);
    MacAddress.DeviceSeesAddress(a.words);
  }

  lemma AddressParts(a: Answers)
    ensures OpenOps(a) ==
            ControlOps() + MtaOps(128) + EepromOps(3) + (AddressOps(a.words) + (QueueOps(a) + InterruptOps(a)))
  {
  }

  ghost predicate KeepsAddress(ops: seq<Op>) {
    forall k :: 0 <= k < |ops| ==> KeepsReg(ops[k], RAL_REG) && KeepsReg(ops[k], RAH_REG)
  }

  lemma RestKeepsAddress(a: Answers)
    ensures KeepsAddress(QueueOps(a) + InterruptOps(a))
  {
    assert KeepsAddress(InterruptOps(a)) && KeepsAddress(EnableOps());
    assert KeepsAddress(AllocOps(a.recvDesc, a.recvBuff)) && KeepsAddress(AllocOps(a.sendDesc, a.sendBuff));
    if SendOk(a) {
      assert KeepsAddress(SendOps(a.sendDesc.value, a.sendBuff.value));
    }
    assert KeepsAddress(SendPartOps(a));
    if RecvOk(a) {
      assert KeepsAddress(RecvOps(a.recvDesc.value, a.recvBuff.value));
    }
  }

  // ---- The ring registers ----

  /** What init_queue writes to the ring registers, as the device holds it after a successful open. */
  ghost predicate RingsProgrammed(h: Hw, a: Answers)
    requires QueuesOk(a)
  {
    && Reg(h, RDBAL_REG) == a.recvDesc.value && Reg(h, TDBAL_REG) == a.sendDesc.value
    && Reg(h, RDBAH_REG) == 0 && Reg(h, TDBAH_REG) == 0
    && Reg(h, RDLEN_REG) == RECV_SIZE_DESC && Reg(h, TDLEN_REG) == SEND_SIZE_DESC
    && Reg(h, RDH_REG) == 0 && Reg(h, RDT_REG) == NB_RCV_DESC - 1
    && Reg(h, TDH_REG) == 0 && Reg(h, TDT_REG) == 0
  }

  // The last plain store to reg is at position k: nothing after it touches reg.
  lemma LastStore(h: Hw, ops: seq<Op>, k: nat, reg: nat)
    requires k < |ops| && ops[k].Write? && ops[k].reg == reg != CTRL_REG
    requires forall j :: k < j < |ops| ==> KeepsReg(ops[j], reg)
    ensures Reg(Replay(h, ops), reg) == ops[k].value
  {
    var xs, ys := ops[..k], ops[k..];
    assert ops == xs + ys;
    ReplayConcat(h, xs, ys);
    RegKept(Exec(Replay(h, xs), ys[0]), ys[1..], reg);
  }

  lemma RecvRegisters(h: Hw, desc: Address, buff: Address)
    ensures var h' := Replay(h, RecvOps(desc, buff));
            && Reg(h', RDBAL_REG) == desc && Reg(h', RDBAH_REG) == 0 && Reg(h', RDLEN_REG) == RECV_SIZE_DESC
            && Reg(h', RDH_REG) == 0 && Reg(h', RDT_REG) == NB_RCV_DESC - 1
  {
    var ops := RecvOps(desc, buff);
    LastStore(h, ops, 1, RDBAL_REG);
    LastStore(h, ops, 2, RDBAH_REG);
    LastStore(h, ops, 3, RDLEN_REG);
    LastStore(h, ops, 4, RDH_REG);
    LastStore(h, ops, 5, RDT_REG);
  }

  lemma SendRegisters(h: Hw, desc: Address, buff: Address)
    ensures var h' := Replay(h, SendOps(desc, buff));
            && Reg(h', TDBAL_REG) == desc && Reg(h', TDBAH_REG) == 0 && Reg(h', TDLEN_REG) == SEND_SIZE_DESC
            && Reg(h', TDH_REG) == 0 && Reg(h', TDT_REG) == 0
  {
    var ops := SendOps(desc, buff);
    LastStore(h, ops, 1, TDBAL_REG);
    LastStore(h, ops, 2, TDBAH_REG);
    LastStore(h, ops, 3, TDLEN_REG);
    LastStore(h, ops, 4, TDH_REG);
    LastStore(h, ops, 5, TDT_REG);
  }

  const RECV_REGS: set<nat> := {RDBAL_REG, RDBAH_REG, RDLEN_REG, RDH_REG, RDT_REG}
  const SEND_REGS: set<nat> := {TDBAL_REG, TDBAH_REG, TDLEN_REG, TDH_REG, TDT_REG}

  ghost predicate KeepsRegs(ops: seq<Op>, regs: set<nat>) {
    forall k, reg :: 0 <= k < |ops| && reg in regs ==> KeepsReg(ops[k], reg)
  }

  lemma RegsKept(h: Hw, ops: seq<Op>, regs: set<nat>)
    requires KeepsRegs(ops, regs)
    ensures forall reg :: reg in regs ==> Reg(Replay(h, ops), reg) == Reg(h, reg)
  {
    forall reg | reg in regs
      ensures Reg(Replay(h, ops), reg) == Reg(h, reg)
    {
      RegKept(h, ops, reg);
    }
  }

  lemma SendKeepsRecvRegs(a: Answers)
    requires OpenOk(a)
    ensures KeepsRegs(AllocOps(a.sendDesc, a.sendBuff) + SendOps(a.sendDesc.value, a.sendBuff.value), RECV_REGS)
  {
  }

  lemma RestKeepsRings(a: Answers)
    ensures KeepsRegs(EnableOps() + InterruptOps(a), RECV_REGS + SEND_REGS)
  {
  }

  lemma SendPartRegisters(h: Hw, a: Answers)
    requires OpenOk(a)
    ensures var h' := Replay(h, AllocOps(a.sendDesc, a.sendBuff) + SendOps(a.sendDesc.value, a.sendBuff.value));
            && (forall reg :: reg in RECV_REGS ==> Reg(h', reg) == Reg(h, reg))
            && Reg(h', TDBAL_REG) == a.sendDesc.value && Reg(h', TDBAH_REG) == 0 && Reg(h', TDLEN_REG) == SEND_SIZE_DESC
            && Reg(h', TDH_REG) == 0 && Reg(h', TDT_REG) == 0
  {
    var alloc, send := AllocOps(a.sendDesc, a.sendBuff), SendOps(a.sendDesc.value, a.sendBuff.value);
    ReplayConcat(h, alloc, send);
    SendRegisters(Replay(h, alloc), a.sendDesc.value, a.sendBuff.value);
    SendKeepsRecvRegs(a);
    RegsKept(h, alloc + send, RECV_REGS);
  }

  /** After a successful open the device holds the rings' places, sizes and both ends as init_queue wrote
      them, and the interrupt causes that init_interrupt asked for. */
  lemma OpenProgramsRings(h: Hw, a: Answers)
    requires OpenOk(a)
    ensures RingsProgrammed(Replay(h, OpenOps(a)), a) && Reg(Replay(h, OpenOps(a)), IMS_REG) == IMS_CAUSES
  {
    var setUp := ControlOps() + MtaOps(128) + MacOps(a.words) + AllocOps(a.recvDesc, a.recvBuff);
    var recv := RecvOps(a.recvDesc.value, a.recvBuff.value);
    var send := AllocOps(a.sendDesc, a.sendBuff) + SendOps(a.sendDesc.value, a.sendBuff.value);
    var rest := EnableOps() + InterruptOps(a);
    OpenParts(a);
    var h1 := Replay(h, setUp);
    var h2 := Replay(h1, recv);
    var h3 := Replay(h2, send);
    ReplayConcat(h, setUp, recv + (send + rest));
    ReplayConcat(h1, recv, send + rest);
    ReplayConcat(h2, send, rest);
    RecvRegisters(h1, a.recvDesc.value, a.recvBuff.value);
    SendPartRegisters(h2, a);
    RestKeepsRings(a);
    RegsKept(h3, rest, RECV_REGS + SEND_REGS);
    LastStore(h3, rest, 4, IMS_REG);
  }

  lemma OpenParts(a: Answers)
    requires OpenOk(a)
    ensures OpenOps(a) ==
            ControlOps() + MtaOps(128) + MacOps(a.words) + AllocOps(a.recvDesc, a.recvBuff)
            + (RecvOps(a.recvDesc.value, a.recvBuff.value)
               + (AllocOps(a.sendDesc, a.sendBuff) + SendOps(a.sendDesc.value, a.sendBuff.value)
                  + (EnableOps() + InterruptOps(a))))
  {
  }

  /** The four sizes that init_queue computes, in bytes. */
  lemma QueueSizes()
    ensures RECV_SIZE_DESC == 4096 && RECV_SIZE_BUFF == 4096 && SEND_SIZE_DESC == 8192 && SEND_SIZE_BUFF == 524288
  {
  }

  /** Every send slot lies inside the allocation made for it. */
  lemma SendSlotAllocated(i: nat)
    requires i < NB_SND_DESC
    ensures (i + 1) * BUF_SIZE_BY_DESC <= SEND_SIZE_BUFF
  {
  }

  /** The size of the receive buffers is computed from that of the descriptors, one page: only the
      first two of the 256 slots the descriptors point to were allocated. */
  lemma RecvSlotAllocatedIff(i: nat)
    requires i < NB_RCV_DESC
    ensures (i + 1) * BUF_SIZE_BY_DESC <= RECV_SIZE_BUFF <==> i < 2
  {
  }
}
