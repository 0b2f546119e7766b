/** What open and close leave in the device's registers and descriptors, besides the rings and the
    address: control bits, flow control, the multicast table, and which buffers the descriptors name.
 */
module E1000Registers {
  import opened MaskedRegister
  import opened E1000Lifetime
  import MacAddress

  // ---- The two control registers ----

  lemma {:induction false} UpdatesConcat(xs: seq<Op>, ys: seq<Op>, reg: nat)
    ensures UpdatesOf(xs + ys, reg) == UpdatesOf(xs, reg) + UpdatesOf(ys, reg)
    decreases |xs|
  {
    if xs == [] {
      assert xs + ys == ys;
    } else {
      UpdatesConcat(xs[1..], ys, reg);
      assert (xs + ys)[1..] == xs[1..] + ys;
      Reassociate(UpdateOf(xs[0], reg), UpdatesOf(xs[1..], reg), UpdatesOf(ys, reg));
    }
  }

  /** The operations reset nothing, and what they do to reg is these updates. */
  ghost predicate Does(ops: seq<Op>, reg: nat, us: seq<Update>) {
    (forall k :: 0 <= k < |ops| ==> Masked(ops[k], reg)) && UpdatesOf(ops, reg) == us
  }

  lemma DoesConcat(xs: seq<Op>, ys: seq<Op>, reg: nat, us: seq<Update>, vs: seq<Update>)
    requires Does(xs, reg, us) && Does(ys, reg, vs)
    ensures Does(xs + ys, reg, us + vs)
  {
    UpdatesConcat(xs, ys, reg);
  }

  lemma DoesOne(op: Op, reg: nat)
    requires Masked(op, reg)
    ensures Does([op], reg, UpdateOf(op, reg))
  {
    assert [op][1..] == [];
  }

  /** Nothing here resets the device or touches reg. */
  ghost predicate Leaves(ops: seq<Op>, reg: nat) {
    forall k :: 0 <= k < |ops| ==> Masked(ops[k], reg) && UpdateOf(ops[k], reg) == []
  }

  lemma {:induction false} LeavesDoes(ops: seq<Op>, reg: nat)
    requires Leaves(ops, reg)
    ensures Does(ops, reg, [])
    decreases |ops|
  {
    if ops != [] {
      LeavesDoes(ops[1..], reg);
    }
  }

  function ReceiveUpdates(): seq<Update> {
    [Update(Pow2(RCTL_MPE), Pow2(RCTL_MPE)), Update(RCTL_BSIZE, 0), Update(Pow2(RCTL_BSEX), 0),
     Update(Pow2(ENABLE), Pow2(ENABLE))]
  }

  function TransmitUpdates(): seq<Update> {
    [Update(EnableOps()[0].bits, EnableOps()[0].bits)]
  }

  lemma ControlLeaves(reg: nat)
    requires reg in {RCTL_REG, TCTL_REG}
    ensures Does(ControlOps(), reg, [])
  {
    ControlMasks(CTRL_RST);
    LeavesDoes(ControlOps(), reg);
  }

  lemma LoopsLeave(reg: nat)
    requires reg in {RCTL_REG, TCTL_REG}
    ensures Does(MtaOps(128), reg, []) && Does(EepromOps(3), reg, [])
  {
    MtaLeaves(reg);
    assert forall k :: 0 <= k < |EepromOps(3)| ==> EepromOps(3)[k].Write? && EepromOps(3)[k].reg == EEPROM_READ;
    LeavesDoes(EepromOps(3), reg);
  }

  lemma MtaLeaves(reg: nat)
    requires reg < MTA_REG && reg != CTRL_REG
    ensures Does(MtaOps(128), reg, [])
  {
    var ops := MtaOps(128);
    assert forall k :: 0 <= k < |ops| ==> ops[k] == Write(MTA_REG + k, 0);
    LeavesDoes(ops, reg);
  }

  lemma AddressUpdates(w: MacAddress.Words)
    ensures Does(AddressOps(w), RCTL_REG, [ReceiveUpdates()[0]]) && Does(AddressOps(w), TCTL_REG, [])
  {
    var first, last := AddressOps(w)[..3], SetPreserve(RCTL_REG, Pow2(RCTL_MPE));
    assert AddressOps(w) == first + [last];
    LeavesDoes(first, RCTL_REG);
    DoesOne(last, RCTL_REG);
    DoesConcat(first, [last], RCTL_REG, [], [ReceiveUpdates()[0]]);
    LeavesDoes(AddressOps(w), TCTL_REG);
  }

  lemma RecvUpdates(desc: Address, buff: Address)
    ensures Does(RecvOps(desc, buff), RCTL_REG, [ReceiveUpdates()[1]] + [ReceiveUpdates()[2]])
    ensures Does(RecvOps(desc, buff), TCTL_REG, [])
  {
    var us := ReceiveUpdates();
    var first := NameRingOps(RDBAL_REG, desc, buff) + RecvRestOps()[..4];
    var size, more := UnsetPreserve(RCTL_REG, RCTL_BSIZE), UnsetPreserve(RCTL_REG, Pow2(RCTL_BSEX));
    assert RecvOps(desc, buff) == first + [size] + [more];
    LeavesDoes(first, RCTL_REG);
    LeavesDoes(first, TCTL_REG);
    SizeUpdates(first, size, more);
  }

  lemma SizeUpdates(first: seq<Op>, size: Op, more: Op)
    requires Does(first, RCTL_REG, []) && Does(first, TCTL_REG, [])
    requires size == UnsetPreserve(RCTL_REG, RCTL_BSIZE) && more == UnsetPreserve(RCTL_REG, Pow2(RCTL_BSEX))
    ensures Does(first + [size] + [more], RCTL_REG, [ReceiveUpdates()[1]] + [ReceiveUpdates()[2]])
    ensures Does(first + [size] + [more], TCTL_REG, [])
  {
    var us := ReceiveUpdates();
    DoesOne(size, RCTL_REG);
    DoesOne(more, RCTL_REG);
    DoesConcat(first, [size], RCTL_REG, [], [us[1]]);
    assert [] + [us[1]] == [us[1]];
    DoesConcat(first + [size], [more], RCTL_REG, [us[1]], [us[2]]);
    DoesOne(size, TCTL_REG);
    DoesOne(more, TCTL_REG);
    DoesConcat(first, [size], TCTL_REG, [], []);
    DoesConcat(first + [size], [more], TCTL_REG, [], []);
  }

  lemma SendLeaves(a: Answers, reg: nat)
    requires OpenOk(a) && reg in {RCTL_REG, TCTL_REG}
    ensures Does(AllocOps(a.recvDesc, a.recvBuff), reg, []) && Does(AllocOps(a.sendDesc, a.sendBuff), reg, [])
    ensures Does(SendOps(a.sendDesc.value, a.sendBuff.value), reg, []) && Does(InterruptOps(a), reg, [])
  {
    LeavesDoes(AllocOps(a.recvDesc, a.recvBuff), reg);
    LeavesDoes(AllocOps(a.sendDesc, a.sendBuff), reg);
    LeavesDoes(SendOps(a.sendDesc.value, a.sendBuff.value), reg);
    LeavesDoes(InterruptOps(a), reg);
  }

  lemma EnableUpdates()
    ensures Does(EnableOps(), RCTL_REG, [ReceiveUpdates()[3]]) && Does(EnableOps(), TCTL_REG, TransmitUpdates())
  {
    var tx, rx := EnableOps()[0], EnableOps()[1];
    assert EnableOps() == [tx] + [rx];
    DoesOne(tx, RCTL_REG);
    DoesOne(rx, RCTL_REG);
    DoesConcat([tx], [rx], RCTL_REG, [], [ReceiveUpdates()[3]]);
    DoesOne(tx, TCTL_REG);
    DoesOne(rx, TCTL_REG);
    DoesConcat([tx], [rx], TCTL_REG, TransmitUpdates(), []);
  }

  /** Ten parts, of which three may update the register. */
  lemma TenParts(o1: seq<Op>, o2: seq<Op>, o3: seq<Op>, o4: seq<Op>, o5: seq<Op>, o6: seq<Op>, o7: seq<Op>, o8: seq<Op>,
                 o9: seq<Op>, o10: seq<Op>, reg: nat, x: seq<Update>, y: seq<Update>, z: seq<Update>)
    requires Does(o1, reg, []) && Does(o2, reg, []) && Does(o3, reg, []) && Does(o4, reg, x) && Does(o5, reg, [])
    requires Does(o6, reg, y) && Does(o7, reg, []) && Does(o8, reg, []) && Does(o9, reg, z) && Does(o10, reg, [])
    ensures Does(o1 + o2 + (o3 + o4) + o5 + (o6 + (o7 + o8 + (o9 + o10))), reg, x + (y + z))
  {
    DoesConcat(o1, o2, reg, [], []);
    DoesConcat(o3, o4, reg, [], x);
    DoesConcat(o1 + o2, o3 + o4, reg, [] + [], [] + x);
    DoesConcat(o1 + o2 + (o3 + o4), o5, reg, [] + [] + ([] + x), []);
    DoesConcat(o9, o10, reg, z, []);
    DoesConcat(o7, o8, reg, [], []);
    DoesConcat(o7 + o8, o9 + o10, reg, [] + [], z + []);
    DoesConcat(o6, o7 + o8 + (o9 + o10), reg, y, [] + [] + (z + []));
    DoesConcat(o1 + o2 + (o3 + o4) + o5, o6 + (o7 + o8 + (o9 + o10)), reg,
               [] + [] + ([] + x) + [], y + ([] + [] + (z + [])));
    assert [] + [] + ([] + x) + [] == x && y + ([] + [] + (z + [])) == y + z;
  }

  lemma OpenDoes(a: Answers, reg: nat, x: seq<Update>, y: seq<Update>, z: seq<Update>)
    requires OpenOk(a) && reg in {RCTL_REG, TCTL_REG}
    requires Does(AddressOps(a.words), reg, x) && Does(RecvOps(a.recvDesc.value, a.recvBuff.value), reg, y)
    requires Does(EnableOps(), reg, z)
    ensures Does(OpenOps(a), reg, x + (y + z))
  {
    ControlLeaves(reg);
    LoopsLeave(reg);
    SendLeaves(a, reg);
    OpenParts(a);
    TenParts(ControlOps(), MtaOps(128), EepromOps(3), AddressOps(a.words), AllocOps(a.recvDesc, a.recvBuff),
             RecvOps(a.recvDesc.value, a.recvBuff.value), AllocOps(a.sendDesc, a.sendBuff),
             SendOps(a.sendDesc.value, a.sendBuff.value), EnableOps(), InterruptOps(a), reg, x, y, z);
  }

  lemma FollowsAll(h: Hw, ops: seq<Op>, reg: nat, us: seq<Update>)
    requires Does(ops, reg, us) && !Bit(Reg(h, CTRL_REG), CTRL_RST)
    ensures Reg(Replay(h, ops), reg) == Run(Reg(h, reg), us)
  {
    RegisterFollowsUpdates(Reg(h, reg), [], h, ops, reg);
    assert [] + us == us;
  }

  lemma FourUpdates(us: seq<Update>)
    requires |us| == 4
    ensures [us[0]] + ([us[1]] + [us[2]] + [us[3]]) == us
  {
  }

  lemma ReceiveFollows(h: Hw, a: Answers)
    requires OpenOk(a) && !Bit(Reg(h, CTRL_REG), CTRL_RST)
    ensures Reg(Replay(h, OpenOps(a)), RCTL_REG) == Run(Reg(h, RCTL_REG), ReceiveUpdates())
  {
    var us := ReceiveUpdates();
    AddressUpdates(a.words);
    RecvUpdates(a.recvDesc.value, a.recvBuff.value);
    EnableUpdates();
    OpenDoes(a, RCTL_REG, [us[0]], [us[1]] + [us[2]], [us[3]]);
    FourUpdates(us);
    FollowsAll(h, OpenOps(a), RCTL_REG, us);
  }

  lemma TransmitFollows(h: Hw, a: Answers)
    requires OpenOk(a) && !Bit(Reg(h, CTRL_REG), CTRL_RST)
    ensures Reg(Replay(h, OpenOps(a)), TCTL_REG) == Run(Reg(h, TCTL_REG), TransmitUpdates())
  {
    var us := TransmitUpdates();
    AddressUpdates(a.words);
    RecvUpdates(a.recvDesc.value, a.recvBuff.value);
    EnableUpdates();
    OpenDoes(a, TCTL_REG, [], [], us);
    assert [] + ([] + us) == us;
    FollowsAll(h, OpenOps(a), TCTL_REG, us);
  }

  lemma ReceiveBits(c: nat, i: nat)
    ensures Bit(Run(c, ReceiveUpdates()), i) == if i in {1, 4} then true else if i in {16, 17, 25} then false else Bit(c, i)
  {
    RunFour(c, ReceiveUpdates());
    var r1 := Field(c, Pow2(4), Pow2(4));
    var r2 := Field(r1, RCTL_BSIZE, 0);
    var r3 := Field(r2, Pow2(25), 0);
    FieldBit(c, Pow2(4), Pow2(4), i);
    FieldBit(r1, RCTL_BSIZE, 0, i);
    FieldBit(r2, Pow2(25), 0, i);
    FieldBit(r3, Pow2(1), Pow2(1), i);
    ShiftedOne(4, i);
    ShiftedOne(25, i);
    ShiftedOne(1, i);
    ZeroBit(i);
    SizeBits(i);
  }

  lemma RunFour(c: nat, us: seq<Update>)
    requires |us| == 4
    ensures var r1 := Field(c, us[0].mask, us[0].value);
            var r2 := Field(r1, us[1].mask, us[1].value);
            var r3 := Field(r2, us[2].mask, us[2].value);
            Run(c, us) == Field(r3, us[3].mask, us[3].value)
  {
    var u1, u2, u3 := us[..1], us[..2], us[..3];
    assert u3[..2] == u2 && u2[..1] == u1 && u1[..0] == [];
    assert Run(c, u1) == Field(c, us[0].mask, us[0].value);
    assert Run(c, u2) == Field(Run(c, u1), us[1].mask, us[1].value);
    assert Run(c, u3) == Field(Run(c, u2), us[2].mask, us[2].value);
  }

  lemma SizeBits(i: nat)
    ensures Bit(RCTL_BSIZE, i) <==> i in {16, 17}
  {
    assert Pow2(8) == 256;
    assert Pow2(16) == 65536 && Pow2(17) == 131072;
    OrAbove(Pow2(16), 17);
    OrBit(Pow2(16), Pow2(17), i);
    ShiftedOne(16, i);
    ShiftedOne(17, i);
  }

  lemma TransmitBits(c: nat, i: nat)
    ensures Bit(Run(c, TransmitUpdates()), i) <==> i in {1, 3, 4, 5, 6, 7} || Bit(c, i)
  {
    var bits := EnableOps()[0].bits;
    assert TransmitUpdates()[..0] == [];
    FieldBit(c, bits, bits, i);
    OrBit(Or(Pow2(1), Pow2(3)), 0xF0, i);
    OrBit(Pow2(1), Pow2(3), i);
    ShiftedOne(1, i);
    ShiftedOne(3, i);
    CollisionBits(i);
  }

  lemma CollisionBits(i: nat)
    ensures Bit(0xF0, i) <==> 4 <= i < 8
  {
    if i >= 8 {
      assert Pow2(8) == 256;
      NoBitAbove(0xF0, 8, i);
    } else {
      assert !Bit(0xF0, 0) && !Bit(0xF0, 1) && !Bit(0xF0, 2) && !Bit(0xF0, 3);
      assert Bit(0xF0, 4) && Bit(0xF0, 5) && Bit(0xF0, 6) && Bit(0xF0, 7);
    }
  }

  /** After a successful open: receiving enabled, multicast promiscuous, 2048-byte buffers (BSIZE and BSEX
      clear); transmitting enabled, with padding and the collision threshold; every other bit of RCTL
      and TCTL as it was. */
  lemma OpenSetsControl(h: Hw, a: Answers, i: nat)
    requires OpenOk(a) && !Bit(Reg(h, CTRL_REG), CTRL_RST)
    ensures var h' := Replay(h, OpenOps(a));
            && Bit(Reg(h', RCTL_REG), i) ==
                 (if i in {1, 4} then true else if i in {16, 17, 25} then false else Bit(Reg(h, RCTL_REG), i))
            && (Bit(Reg(h', TCTL_REG), i) <==> i in {1, 3, 4, 5, 6, 7} || Bit(Reg(h, TCTL_REG), i))
  {
    ReceiveFollows(h, a);
    ReceiveBits(Reg(h, RCTL_REG), i);
    TransmitFollows(h, a);
    TransmitBits(Reg(h, TCTL_REG), i);
  }

  /** The reset bit clears itself, so that precondition holds of every state operations lead to. */
  lemma {:induction false} ResetBitClears(h: Hw, ops: seq<Op>)
    requires !Bit(Reg(h, CTRL_REG), CTRL_RST)
    ensures !Bit(Reg(Replay(h, ops), CTRL_REG), CTRL_RST)
    decreases |ops|
  {
    if ops != [] {
      ZeroBit(CTRL_RST);
      ResetBitClears(Exec(h, ops[0]), ops[1..]);
    }
  }

  // ---- Cleared registers ----

  ghost predicate Cleared(reg: nat) {
    reg in {FCAL_REG, FCAH_REG, FCT_REG, FCTTV_REG} || MTA_REG <= reg < MTA_REG + 128
  }

  ghost predicate Keeps(ops: seq<Op>, reg: nat) {
    forall k :: 0 <= k < |ops| ==> KeepsReg(ops[k], reg)
  }

  lemma KeepsConcat(xs: seq<Op>, ys: seq<Op>, reg: nat)
    requires Keeps(xs, reg) && Keeps(ys, reg)
    ensures Keeps(xs + ys, reg)
  {
  }

  lemma PartsKeep(a: Answers, reg: nat)
    requires Cleared(reg)
    ensures Keeps(EepromOps(3), reg) && Keeps(AddressOps(a.words), reg) && Keeps(EnableOps(), reg)
    ensures Keeps(AllocOps(a.recvDesc, a.recvBuff), reg) && Keeps(AllocOps(a.sendDesc, a.sendBuff), reg)
    ensures Keeps(InterruptOps(a), reg)
  {
  }

  lemma RingsKeep(desc: Address, buff: Address, reg: nat)
    requires Cleared(reg)
    ensures Keeps(RecvOps(desc, buff), reg) && Keeps(SendOps(desc, buff), reg)
  {
    KeepsConcat(NameRingOps(RDBAL_REG, desc, buff), RecvRestOps(), reg);
    KeepsConcat(NameRingOps(TDBAL_REG, desc, buff), SendRestOps(), reg);
  }

  lemma RestLeaves(a: Answers, reg: nat)
    requires Cleared(reg)
    ensures Keeps(MacOps(a.words), reg) && Keeps(QueueOps(a), reg) && Keeps(InterruptOps(a), reg)
  {
    PartsKeep(a, reg);
    KeepsConcat(EepromOps(3), AddressOps(a.words), reg);
    var send := SendPartOps(a);
    if SendOk(a) {
      RingsKeep(a.sendDesc.value, a.sendBuff.value, reg);
      KeepsConcat(SendOps(a.sendDesc.value, a.sendBuff.value), EnableOps(), reg);
      KeepsConcat(AllocOps(a.sendDesc, a.sendBuff), SendOps(a.sendDesc.value, a.sendBuff.value) + EnableOps(), reg);
    } else {
      assert send == AllocOps(a.sendDesc, a.sendBuff);
    }
    if RecvOk(a) {
      RingsKeep(a.recvDesc.value, a.recvBuff.value, reg);
      KeepsConcat(RecvOps(a.recvDesc.value, a.recvBuff.value), send, reg);
      KeepsConcat(AllocOps(a.recvDesc, a.recvBuff), RecvOps(a.recvDesc.value, a.recvBuff.value) + send, reg);
    } else {
      assert AllocOps(a.recvDesc, a.recvBuff) + [] == AllocOps(a.recvDesc, a.recvBuff);
    }
  }

  lemma AfterSetUp(h: Hw, a: Answers, reg: nat)
    requires Cleared(reg)
    ensures Reg(Replay(h, OpenOps(a)), reg) == Reg(Replay(h, ControlOps() + MtaOps(128)), reg)
  {
    var first, mac, queue, irq := ControlOps() + MtaOps(128), MacOps(a.words), QueueOps(a), InterruptOps(a);
    RestLeaves(a, reg);
    ReplayConcat(h, first + mac + queue, irq);
    ReplayConcat(h, first + mac, queue);
    ReplayConcat(h, first, mac);
    RegKept(Replay(h, first), mac, reg);
    RegKept(Replay(h, first + mac), queue, reg);
    RegKept(Replay(h, first + mac + queue), irq, reg);
  }

  /** Every open, successful or not, clears the multicast table. */
  lemma OpenClearsMulticast(h: Hw, a: Answers, i: nat)
    requires i < 128
    ensures Reg(Replay(h, OpenOps(a)), MTA_REG + i) == 0
  {
    var reg := MTA_REG + i;
    AfterSetUp(h, a, reg);
    MulticastStores(h, ControlOps(), MtaOps(128), i, reg);
  }

  lemma MulticastStores(h: Hw, first: seq<Op>, ops: seq<Op>, i: nat, reg: nat)
    requires |ops| == 128 && i < 128 && reg == MTA_REG + i
    requires forall j :: 0 <= j < |ops| ==> ops[j] == Write(MTA_REG + j, 0)
    ensures Reg(Replay(h, first + ops), reg) == 0
  {
    ReplayConcat(h, first, ops);
    LastStore(Replay(h, first), ops, i, reg);
  }

  /** And it switches flow control off. */
  lemma OpenClearsFlowControl(h: Hw, a: Answers, reg: nat)
    requires reg in {FCAL_REG, FCAH_REG, FCT_REG, FCTTV_REG} && !Bit(Reg(h, CTRL_REG), CTRL_RST)
    ensures Reg(Replay(h, OpenOps(a)), reg) == 0
  {
    AfterSetUp(h, a, reg);
    FlowStores(h, reg);
    ResetBitClears(h, FlowOps());
    ControlParts(h);
    FlowKept(Replay(h, FlowOps()), reg);
  }

  lemma ControlParts(h: Hw)
    ensures Replay(h, ControlOps() + MtaOps(128)) ==
            Replay(Replay(h, FlowOps()), [UnsetPreserve(CTRL_REG, Pow2(CTRL_VMDE))] + MtaOps(128))
  {
    var vmde := [UnsetPreserve(CTRL_REG, Pow2(CTRL_VMDE))];
    assert ControlOps() == FlowOps() + vmde;
    assert FlowOps() + vmde + MtaOps(128) == FlowOps() + (vmde + MtaOps(128));
    ReplayConcat(h, FlowOps(), vmde + MtaOps(128));
  }

  lemma FlowKept(m: Hw, reg: nat)
    requires reg in {FCAL_REG, FCAH_REG, FCT_REG, FCTTV_REG} && !Bit(Reg(m, CTRL_REG), CTRL_RST)
    ensures Reg(Replay(m, [UnsetPreserve(CTRL_REG, Pow2(CTRL_VMDE))] + MtaOps(128)), reg) == Reg(m, reg)
  {
    var vmde := UnsetPreserve(CTRL_REG, Pow2(CTRL_VMDE));
    DoesOne(vmde, reg);
    MtaLeaves(reg);
    DoesConcat([vmde], MtaOps(128), reg, [], []);
    FollowsAll(m, [vmde] + MtaOps(128), reg, []);
  }

  // The first eight operations of ControlOps.
  function FlowOps(): seq<Op> {
    [SetPreserve(CTRL_REG, SpeedDetection()), UnsetPreserve(CTRL_REG, Pow2(CTRL_LRST)),
     UnsetPreserve(CTRL_REG, Pow2(CTRL_PHYRST)), UnsetPreserve(CTRL_REG, Pow2(CTRL_ILOS)),
     Write(FCAL_REG, 0), Write(FCAH_REG, 0), Write(FCT_REG, 0), Write(FCTTV_REG, 0)]
  }

  lemma FlowStores(h: Hw, reg: nat)
    requires reg in {FCAL_REG, FCAH_REG, FCT_REG, FCTTV_REG}
    ensures Reg(Replay(h, FlowOps()), reg) == 0
  {
    var k := if reg == FCAL_REG then 4 else if reg == FCAH_REG then 5 else if reg == FCT_REG then 6 else 7;
    LastStore(h, FlowOps(), k, reg);
  }

  /** The three EEPROM requests: words 0, 1 and 2, each with the start bit. */
  lemma EepromRequests()
    ensures EepromOps(3) == [Write(0x14, 0x001), Write(0x14, 0x101), Write(0x14, 0x201)]
  {
  }

  // ---- The descriptors ----

  ghost predicate KeepsSlots(ops: seq<Op>) {
    forall k :: 0 <= k < |ops| ==> !ops[k].PointSlots? && !ops[k].DmaAlloc?
  }

  lemma {:induction false} SlotsKept(h: Hw, ops: seq<Op>)
    requires KeepsSlots(ops)
    ensures Replay(h, ops).slots == h.slots
    decreases |ops|
  {
    if ops != [] {
      SlotsKept(Exec(h, ops[0]), ops[1..]);
    }
  }

  lemma RecvSlots(h: Hw, desc: Address, buff: Address)
    ensures Replay(h, RecvOps(desc, buff)).slots == h.slots[desc := buff]
  {
    var ops := RecvOps(desc, buff);
    assert KeepsSlots(ops[1..]);
    SlotsKept(Exec(h, ops[0]), ops[1..]);
  }

  lemma SendSlots(h: Hw, desc: Address, buff: Address)
    ensures Replay(h, SendOps(desc, buff)).slots == h.slots[desc := buff]
  {
    var ops := SendOps(desc, buff);
    assert KeepsSlots(ops[1..]);
    SlotsKept(Exec(h, ops[0]), ops[1..]);
  }

  lemma AllocSlots(h: Hw, a: Address, b: Address)
    ensures Replay(h, AllocOps(Some(a), Some(b))).slots == h.slots - {a} - {b}
  {
    var x, y := [DmaAlloc(a)], [DmaAlloc(b)];
    ReplayConcat(h, x, y);
    assert x[1..] == [] && y[1..] == [];
    assert Replay(h, x) == Exec(h, DmaAlloc(a));
    assert Replay(Exec(h, DmaAlloc(a)), y) == Exec(Exec(h, DmaAlloc(a)), DmaAlloc(b));
  }

  /** Each ring's descriptors point into its own buffers. */
  ghost predicate Pointed(h: Hw, d: Dma) {
    && d.recvDesc in h.slots && h.slots[d.recvDesc] == d.recvBuff
    && d.sendDesc in h.slots && h.slots[d.sendDesc] == d.sendBuff
  }

  lemma OpenPointsSlots(h: Hw, a: Answers)
    requires OpenOk(a) && FreshAnswers(h.live, a)
    ensures Pointed(Replay(h, OpenOps(a)),
                    Dma(a.recvDesc.value, a.recvBuff.value, a.sendDesc.value, a.sendBuff.value))
  {
    var setUp := ControlOps() + MtaOps(128) + MacOps(a.words) + AllocOps(a.recvDesc, a.recvBuff);
    OpenParts(a);
    EndKeepsSlots(a);
    PointedAtEnd(h, setUp, a.recvDesc.value, a.recvBuff.value, a.sendDesc.value, a.sendBuff.value,
                 EnableOps() + InterruptOps(a));
  }

  lemma EndKeepsSlots(a: Answers)
    ensures KeepsSlots(EnableOps() + InterruptOps(a))
  {
  }

  lemma PointedAtEnd(h: Hw, first: seq<Op>, rd: Address, rb: Address, sd: Address, sb: Address, last: seq<Op>)
    requires rd !in {sd, sb} && KeepsSlots(last)
    ensures Pointed(Replay(h, first + (RecvOps(rd, rb) + (AllocOps(Some(sd), Some(sb)) + SendOps(sd, sb) + last))),
                    Dma(rd, rb, sd, sb))
  {
    var recv, alloc, send := RecvOps(rd, rb), AllocOps(Some(sd), Some(sb)), SendOps(sd, sb);
    FiveParts(h, first, recv, alloc, send, last);
    RingsPointed(Replay(h, first), rd, rb, sd, sb);
    SlotsKept(Replay(Replay(Replay(Replay(h, first), recv), alloc), send), last);
  }

  lemma RingsPointed(h: Hw, rd: Address, rb: Address, sd: Address, sb: Address)
    requires rd !in {sd, sb}
    ensures Pointed(Replay(Replay(Replay(h, RecvOps(rd, rb)), AllocOps(Some(sd), Some(sb))), SendOps(sd, sb)), Dma(rd, rb, sd, sb))
  {
    var h2 := Replay(h, RecvOps(rd, rb));
    RecvSlots(h, rd, rb);
    AllocSlots(h2, sd, sb);
    SendSlots(Replay(h2, AllocOps(Some(sd), Some(sb))), sd, sb);
  }

  lemma FiveParts(h: Hw, o1: seq<Op>, o2: seq<Op>, o3: seq<Op>, o4: seq<Op>, o5: seq<Op>)
    ensures Replay(h, o1 + (o2 + (o3 + o4 + o5))) == Replay(Replay(Replay(Replay(Replay(h, o1), o2), o3), o4), o5)
  {
    var h2 := Replay(Replay(h, o1), o2);
    ReplayConcat(h, o1, o2 + (o3 + o4 + o5));
    ReplayConcat(Replay(h, o1), o2, o3 + o4 + o5);
    ReplayConcat(h2, o3 + o4, o5);
    ReplayConcat(h2, o3, o4);
  }

  /** The base registers name the rings that the driver will free, and those the right buffers. */
  ghost predicate Named(s: Sys) {
    Reg(s.hw, RDBAL_REG) == s.dma.recvDesc && Reg(s.hw, TDBAL_REG) == s.dma.sendDesc && Pointed(s.hw, s.dma)
  }

  lemma OpenNames(s: Sys, a: Answers)
    requires Possible(s, Open(a)) && OpenOk(a)
    ensures Named(Next(s, Open(a)))
  {
    OpenTakesDma(s.dma, a);
    OpenProgramsRings(s.hw, a);
    OpenPointsSlots(s.hw, a);
  }

  /** Over every run of opens and closes, whatever fails: while the interface is up the device works on the
      very memory that close will free. */
  lemma {:induction false} NamedWhileUp(s: Sys, calls: seq<Call>)
    requires PossibleRun(s, calls) && (s.up ==> Named(s))
    ensures Final(s, calls).up ==> Named(Final(s, calls))
    decreases |calls|
  {
    if calls != [] {
      if calls[0].Open? && OpenOk(calls[0].answers) {
        OpenNames(s, calls[0].answers);
      }
      NamedWhileUp(Next(s, calls[0]), calls[1..]);
    }
  }

  /** A close leaves every register at its default. */
  lemma CloseResets(h: Hw, d: Dma)
    ensures Replay(h, CloseOps(d)).regs == map[]
  {
    var reset := [Write(CTRL_REG, Pow2(CTRL_RST))];
    ReplayConcat(h, UninitOps() + DisableOps() + FreeOps(d), reset);
    assert reset[1..] == [];
    ShiftedOne(CTRL_RST, CTRL_RST);
  }
}
