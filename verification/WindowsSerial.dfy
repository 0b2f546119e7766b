/** The Windows serial driver's UART layer (uart.c) and its polled transmit loop (write.c).

    Unlike the Linux driver this one tests the right bit of LSR before each byte, so here the flow
    control is proved: whatever the line does meanwhile, no byte finds THR full.
 */
module WindowsSerial {
  import opened MaskedRegister
  import opened Uart

  const BASE_BAUDRATE: int := 115200
  const LCR_SB: Byte := 0x04
  const LCR_PAR: Byte := 0x08
  const LCR_EVN: Byte := 0x10
  const DLAB_MASK: Byte := 0x80
  const MCR_DTR: Byte := 0x01
  const MCR_RTS: Byte := 0x02
  const MCR_AO2: Byte := 0x08

  /** `UartSetBit`: set or clear the bits of a mask. */
  function SetBit(p: Port, reg: nat, bit: Byte, value: bool): Port {
    var (q, prev) := Inb(p, reg);
    Outb(q, reg, FieldByte(prev, bit, if value then bit else 0))
  }

  /** Integer division in C cuts towards zero. */
  function CDiv(a: int, b: int): int
    requires b != 0
  {
    if b > 0 then if a >= 0 then a / b else -(-a / b)
    else if a >= 0 then -(a / -b) else -a / -b
  }

  function Divisor(baudrate: int): int
    requires baudrate != 0
  {
    CDiv(BASE_BAUDRATE, baudrate)
  }

  // The casts to UCHAR, and the arithmetic shift by 8.
  function LowByte(n: int): Byte { n % 256 }

  function HighByte(n: int): Byte { n / 256 % 256 }

  /** Rate 0 is not rejected: the division faults after the first register access. */
  function AfterSetBaudrate(p: Port, baudrate: int): Port {
    var p0 := SetBit(p, MCR, MCR_AO2, false);
    if baudrate == 0 then p0
    else
      var d := Divisor(baudrate);
      var p1 := SetBit(p0, LCR, DLAB_MASK, true);
      SetBit(Outb(Outb(p1, DATA, LowByte(d)), IER, HighByte(d)), LCR, DLAB_MASK, false)
  }

  function ModeValue(dataBits: int, stopBits: int, parity: bool, odd: bool): Byte
    requires 5 <= dataBits <= 8 && 1 <= stopBits <= 2
  {
    dataBits - 5 + (if stopBits == 1 then 0 else 4) + (if parity then if odd then 8 else 24 else 0)
  }

  function AfterSetMode(p: Port, dataBits: int, stopBits: int, parity: bool, odd: bool): (Port, int) {
    if !(5 <= dataBits <= 8) then (p, -1)
    else if !(1 <= stopBits <= 2) then (p, -2)
    else (Outb(p, LCR, ModeValue(dataBits, stopBits, parity, odd)), 0)
  }

  function AfterInit(p: Port): Port {
    var p1 := AfterSetBaudrate(p, 115200);
    var p2 := AfterSetMode(p1, 8, 1, false, false).0;
    SetBit(SetBit(p2, MCR, MCR_DTR, true), MCR, MCR_RTS, true)
  }

  // ---- Registers ----

  ghost predicate NoData(u: Uart, v: Uart) {
    v.sent == u.sent && v.lost == u.lost && v.taken == u.taken
  }

  lemma SetBitLcr(p: Port, bit: Byte, value: bool)
    ensures var u := SetBit(p, LCR, bit, value).uart;
            u.ctl == p.uart.ctl.(lcr := FieldByte(p.uart.ctl.lcr, bit, if value then bit else 0)) && NoData(p.uart, u)
  {
  }

  lemma SetBitMcr(p: Port, bit: Byte, value: bool)
    ensures var u := SetBit(p, MCR, bit, value).uart;
            u.ctl == p.uart.ctl.(mcr := FieldByte(p.uart.ctl.mcr, bit, if value then bit else 0)) && NoData(p.uart, u)
  {
  }

  /** v is u with divisor d in the latch, in data mode, and with no byte sent or taken. */
  ghost predicate RateSet(u: Uart, v: Uart, d: int) {
    && NoData(u, v) && !Dlab(v.ctl)
    && v.ctl == u.ctl.(dll := LowByte(d), dlm := HighByte(d), mcr := FieldByte(u.ctl.mcr, MCR_AO2, 0),
                       lcr := FieldByte(FieldByte(u.ctl.lcr, DLAB_MASK, DLAB_MASK), DLAB_MASK, 0))
  }

  /** `UartSetBaudrate` loads the latch, never sends or takes a byte, and leaves data mode. */
  lemma SetBaudrateLaw(p: Port, baudrate: int)
    requires baudrate != 0
    ensures RateSet(p.uart, AfterSetBaudrate(p, baudrate).uart, Divisor(baudrate))
  {
    var d := Divisor(baudrate);
    var p0 := SetBit(p, MCR, MCR_AO2, false);
    SetBitMcr(p, MCR_AO2, false);
    var p1 := SetBit(p0, LCR, DLAB_MASK, true);
    SetBitLcr(p0, DLAB_MASK, true);
    LatchMode(p.uart.ctl.lcr);
    var p2 := Outb(Outb(p1, DATA, LowByte(d)), IER, HighByte(d));
    SetBitLcr(p2, DLAB_MASK, false);
    LatchMode(p2.uart.ctl.lcr);
  }

  /** At rate 0 only AO2 has been cleared when the division faults. */
  lemma ZeroRateLaw(p: Port, i: nat)
    ensures var u := AfterSetBaudrate(p, 0).uart;
            && NoData(p.uart, u) && u.ctl == p.uart.ctl.(mcr := u.ctl.mcr)
            && Bit(u.ctl.mcr, i) == (i != 3 && Bit(p.uart.ctl.mcr, i))
  {
    SetBitMcr(p, MCR_AO2, false);
    FieldBit(p.uart.ctl.mcr, 8, 0, i);
    assert Pow2(3) == 8;
    ShiftedOne(3, i);
    ZeroBit(i);
  }

  /** The line settings survive a change of baud rate. */
  lemma SetBaudrateKeepsLine(p: Port, baudrate: int, i: nat)
    requires baudrate != 0 && i != LCR_DLAB
    ensures Bit(AfterSetBaudrate(p, baudrate).uart.ctl.lcr, i) == Bit(p.uart.ctl.lcr, i)
  {
    SetBaudrateLaw(p, baudrate);
    var lcr := p.uart.ctl.lcr;
    FieldBit(lcr, 0x80, 0x80, i);
    FieldBit(Field(lcr, 0x80, 0x80), 0x80, 0, i);
    assert Pow2(7) == 0x80;
    ShiftedOne(7, i);
    ZeroBit(i);
  }

  function LatchValue(u: Uart): nat {
    Combine(u.ctl.dlm, u.ctl.dll)
  }

  function Combine(dlm: nat, dll: nat): nat { 256 * dlm + dll }

  lemma BytesOf(n: int)
    ensures Combine(HighByte(n), LowByte(n)) == n % 65536
    ensures n % 65536 == n <==> 0 <= n < 65536
  {
    var q := n / 65536;
    assert n / 256 == 256 * q + n / 256 % 256;
    assert n == 65536 * q + 256 * (n / 256 % 256) + n % 256;
  }

  lemma LatchLaw(p: Port, baudrate: int)
    requires baudrate != 0
    ensures LatchValue(AfterSetBaudrate(p, baudrate).uart) == Divisor(baudrate) % 65536
    ensures Divisor(baudrate) == if baudrate > 0 then 115200 / baudrate else -(115200 / -baudrate)
  {
    SetBaudrateLaw(p, baudrate);
    BytesOf(Divisor(baudrate));
  }

  lemma FitsLatchIff(baudrate: int)
    requires baudrate != 0
    ensures 0 <= Divisor(baudrate) < 65536 <==> baudrate >= 2 || baudrate < -BASE_BAUDRATE
  {
    if baudrate > 0 {
      DivisorRange(baudrate);
    } else {
      DivisorRange(-baudrate);
      NegativeDivisor(-baudrate);
    }
  }

  /** The latch holds the divisor itself for every rate from 2 up, and below that only where the
      quotient is 0; at 1 baud it needs 17 bits. */
  lemma LatchExactIff(p: Port, baudrate: int)
    requires baudrate != 0
    ensures LatchValue(AfterSetBaudrate(p, baudrate).uart) == Divisor(baudrate) <==>
            baudrate >= 2 || baudrate < -BASE_BAUDRATE
  {
    LatchLaw(p, baudrate);
    BytesOf(Divisor(baudrate));
    FitsLatchIff(baudrate);
  }

  lemma DivisorRange(b: int)
    requires b > 0
    ensures var d := BASE_BAUDRATE / b; 0 <= d && d * b <= BASE_BAUDRATE < (d + 1) * b && (d < 65536 <==> b >= 2)
  {
    var d := BASE_BAUDRATE / b;
    assert BASE_BAUDRATE == b * d + BASE_BAUDRATE % b;
    assert (d + 1) * b == d * b + b;
    if b >= 2 {
      assert d * b >= d * 2 by { Product(d, b); }
    } else {
      assert d == BASE_BAUDRATE;
    }
  }

  lemma Product(d: int, b: int)
    requires d >= 0 && b >= 2
    ensures d * b >= d * 2
  {
  }

  lemma NegativeDivisor(b: int)
    requires b > 0
    ensures BASE_BAUDRATE / b == 0 <==> b > BASE_BAUDRATE
  {
    DivisorRange(b);
    var d := BASE_BAUDRATE / b;
    if d >= 1 {
      assert d * b >= b by { Product1(d, b); }
    }
  }

  lemma Product1(d: int, b: int)
    requires d >= 1 && b >= 0
    ensures d * b >= b
  {
  }

  predicate InBounds(d: int, b: int) {
    d >= 1 && d * b <= BASE_BAUDRATE < (d + 1) * b
  }

  /** For a usable rate b the hardware runs at 115200 / d, which is at least b and under b * (d + 1) / d. */
  lemma RateBounds(p: Port, b: int)
    requires 2 <= b <= BASE_BAUDRATE
    ensures InBounds(LatchValue(AfterSetBaudrate(p, b).uart), b)
  {
    LatchExactIff(p, b);
    DivisorBounds(b);
  }

  lemma DivisorBounds(b: int)
    requires 2 <= b <= BASE_BAUDRATE
    ensures InBounds(Divisor(b), b)
  {
    DivisorRange(b);
    NegativeDivisor(b);
  }

  // ---- Line settings ----

  datatype Parity = NoParity | Odd | Even

  datatype Mode = Mode(dataBits: int, stopBits: int, parity: Parity, brk: bool, dlab: bool)

  /** How the UART reads LCR. */
  function Decode(lcr: Byte): Mode {
    Mode(lcr % 4 + 5, if Bit(lcr, 2) then 2 else 1,
         if !Bit(lcr, 3) then NoParity else if Bit(lcr, 4) then Even else Odd, Bit(lcr, 6), Bit(lcr, 7))
  }

  /** For all arguments `UartSetMode` either rejects, leaving the device alone, or programs exactly
      the mode it was asked for, with break and DLAB clear. */
  lemma SetModeRoundTrip(p: Port, dataBits: int, stopBits: int, parity: bool, odd: bool)
    ensures var (q, ret) := AfterSetMode(p, dataBits, stopBits, parity, odd);
            && (ret == 0 <==> 5 <= dataBits <= 8 && 1 <= stopBits <= 2)
            && (ret == -1 <==> !(5 <= dataBits <= 8))
            && (ret != 0 ==> q == p)
            && (ret == 0 ==>
                  && q.uart.ctl == p.uart.ctl.(lcr := q.uart.ctl.lcr) && NoData(p.uart, q.uart)
                  && Decode(q.uart.ctl.lcr) ==
                     Mode(dataBits, stopBits, if !parity then NoParity else if odd then Odd else Even, false, false))
  {
    if 5 <= dataBits <= 8 && 1 <= stopBits <= 2 {
      ModeBits(dataBits - 5, if stopBits == 1 then 0 else 1, if parity then 1 else 0, if parity && !odd then 1 else 0);
    }
  }

  lemma ModeBits(d: nat, s: nat, par: nat, evn: nat)
    requires d < 4 && s < 2 && par < 2 && evn < 2
    ensures var v := d + 4 * s + 8 * par + 16 * evn;
            && v % 4 == d && (Bit(v, 2) <==> s == 1) && (Bit(v, 3) <==> par == 1) && (Bit(v, 4) <==> evn == 1)
            && !Bit(v, 6) && !Bit(v, 7)
  {
    var v := d + 4 * s + 8 * par + 16 * evn;
    assert v / 2 / 2 == s + 2 * par + 4 * evn;
    assert v / 2 / 2 / 2 == par + 2 * evn;
    assert v / 2 / 2 / 2 / 2 == evn;
    assert v / 2 / 2 / 2 / 2 / 2 == 0;
    assert Bit(v, 2) <==> v / 2 / 2 % 2 == 1;
    assert Bit(v, 3) <==> v / 2 / 2 / 2 % 2 == 1;
    assert Bit(v, 4) <==> v / 2 / 2 / 2 / 2 % 2 == 1;
    assert Bit(v, 6) <==> v / 2 / 2 / 2 / 2 / 2 / 2 % 2 == 1;
    assert Bit(v, 7) <==> v / 2 / 2 / 2 / 2 / 2 / 2 / 2 % 2 == 1;
  }

  function ModemValue(mcr: Byte): Byte {
    FieldByte(FieldByte(FieldByte(mcr, MCR_AO2, 0), MCR_DTR, MCR_DTR), MCR_RTS, MCR_RTS)
  }

  lemma FastestDivisor()
    ensures Divisor(115200) == 1
  {
  }

  lemma FastestRate(p: Port)
    ensures RateSet(p.uart, AfterSetBaudrate(p, 115200).uart, 1)
  {
    FastestDivisor();
    SetBaudrateLaw(p, 115200);
  }

  lemma RaiseModemLines(p: Port)
    ensures var u := SetBit(SetBit(p, MCR, MCR_DTR, true), MCR, MCR_RTS, true).uart;
            && NoData(p.uart, u)
            && u.ctl == p.uart.ctl.(mcr := FieldByte(FieldByte(p.uart.ctl.mcr, MCR_DTR, MCR_DTR), MCR_RTS, MCR_RTS))
  {
    SetBitMcr(p, MCR_DTR, true);
    SetBitMcr(SetBit(p, MCR, MCR_DTR, true), MCR_RTS, true);
  }

  lemma LineAndModem(p: Port)
    ensures var u := SetBit(SetBit(AfterSetMode(p, 8, 1, false, false).0, MCR, MCR_DTR, true), MCR, MCR_RTS, true).uart;
            && NoData(p.uart, u)
            && u.ctl == p.uart.ctl.(lcr := 3, mcr := FieldByte(FieldByte(p.uart.ctl.mcr, MCR_DTR, MCR_DTR), MCR_RTS, MCR_RTS))
  {
    RaiseModemLines(AfterSetMode(p, 8, 1, false, false).0);
  }

  lemma UnitRate(u: Uart, v: Uart)
    requires RateSet(u, v, 1)
    ensures NoData(u, v) && v.ctl.dll == 1 && v.ctl.dlm == 0 && v.ctl.mcr == FieldByte(u.ctl.mcr, MCR_AO2, 0)
  {
  }

  lemma InitRegisters(p: Port)
    ensures var u := AfterInit(p).uart;
            NoData(p.uart, u) && u.ctl.dll == 1 && u.ctl.dlm == 0 && u.ctl.lcr == 3 && u.ctl.mcr == ModemValue(p.uart.ctl.mcr)
  {
    var q := AfterSetBaudrate(p, 115200);
    FastestRate(p);
    UnitRate(p.uart, q.uart);
    LineAndModem(q);
  }

  /** `UartInit` from any register contents: 115200 baud, 8N1, DTR and RTS on, AO2 off, the other
      modem bits untouched, and no byte sent or taken. */
  lemma InitLaw(p: Port, i: nat)
    ensures var u := AfterInit(p).uart;
            && NoData(p.uart, u) && LatchValue(u) == 1 && u.ctl.lcr == 3 && !Dlab(u.ctl)
            && Bit(u.ctl.mcr, i) == if i in {0, 1} then true else if i == 3 then false else Bit(p.uart.ctl.mcr, i)
  {
    InitRegisters(p);
    LatchMode(3);
    ModemBits(p.uart.ctl.mcr, i);
  }

  lemma ModemBits(mcr: Byte, i: nat)
    ensures Bit(ModemValue(mcr), i) == if i in {0, 1} then true else if i == 3 then false else Bit(mcr, i)
  {
    assert Pow2(0) == 1 && Pow2(1) == 2 && Pow2(3) == 8;
    ShiftedOne(0, i);
    ShiftedOne(1, i);
    ShiftedOne(3, i);
    ZeroBit(i);
    FieldBit(mcr, 8, 0, i);
    FieldBit(Field(mcr, 8, 0), 1, 1, i);
    FieldBit(Field(Field(mcr, 8, 0), 1, 1), 2, 2, i);
  }

  // ---- Polled transmit ----

  /** The inner loop: until LSR reports THR empty. */
  function WaitEmpty(p: Port): (w: (Port, bool))
    ensures EnvOnly(p.uart, w.0.uart)
    ensures if w.1 then w.0.uart.thr == [] else w.0.uart.thr != [] && w.0.env == []
    decreases |p.env|
  {
    LineStatusBits(Settle(p).uart);
    var (q, status) := Inb(p, LSR);
    if Bit(status, LSR_THR_EMPTY) then (q, true)
    else if p.env == [] then (q, false)
    else WaitEmpty(q)
  }

  /** How many bytes the line will yet take. */
  function Drains(es: seq<EnvStep>): nat {
    if es == [] then 0 else (if es[0].Drain? then 1 else 0) + Drains(es[1..])
  }

  function AllDrains(env: seq<seq<EnvStep>>): nat {
    if env == [] then 0 else Drains(env[0]) + AllDrains(env[1..])
  }

  lemma {:induction false} EnvDrains(u: Uart, es: seq<EnvStep>)
    ensures |AfterEnvs(u, es).thr| == if |u.thr| > Drains(es) then |u.thr| - Drains(es) else 0
    decreases |es|
  {
    if es != [] {
      EnvDrains(AfterEnv(u, es[0]), es[1..]);
    }
  }

  /** The wait ends if and only if the line takes what is in THR before the schedule ends. */
  lemma {:induction false} WaitEndsIff(p: Port)
    ensures WaitEmpty(p).1 <==> AllDrains(p.env) >= |p.uart.thr|
    decreases |p.env|
  {
    LineStatusBits(Settle(p).uart);
    if p.env != [] {
      EnvDrains(p.uart, p.env[0]);
      var q := Inb(p, LSR).0;
      if q.uart.thr != [] {
        WaitEndsIff(q);
      }
    }
  }

  /** The outer loop from byte n; the last component says whether it got to the end. */
  function PolledWrite(p: Port, data: seq<Byte>, n: nat): (w: (Port, nat, bool))
    requires n <= |data|
    ensures n <= w.1 <= |data| && (w.2 ==> w.1 == |data|)
    ensures !w.2 ==> w.0.env == [] && w.0.uart.thr != []
    decreases |data| - n
  {
    if n == |data| then (p, n, true)
    else
      var (q, ready) := WaitEmpty(p);
      if !ready then (q, n, false) else PolledWrite(Outb(q, DATA, data[n]), data, n + 1)
  }

  /** A byte written while THR is empty goes into THR, whatever the line does just before. */
  lemma WriteToEmpty(q: Port, b: Byte)
    requires !Dlab(q.uart.ctl) && q.uart.thr == []
    ensures var u := Outb(q, DATA, b).uart;
            && u.ctl == q.uart.ctl && u.taken == q.uart.taken && u.lost == q.uart.lost
            && u.sent == q.uart.sent + [b] && (LineOk(q.uart) ==> LineOk(u))
  {
    SettleConserves(q);
    var s := Settle(q).uart;
    assert s.thr == [] && [] + [b] == [b] && s.wire + [] == s.wire;
  }

  lemma {:induction false} WaitConserves(p: Port)
    ensures Conserved(p.uart, WaitEmpty(p).0.uart)
    decreases |p.env|
  {
    InbConserves(p, LSR);
    var (q, status) := Inb(p, LSR);
    if !Bit(status, LSR_THR_EMPTY) && p.env != [] {
      WaitConserves(q);
    }
  }

  /** Polled transmit loses nothing: no byte finds THR full, what is on the wire and in THR is always
      what was written, in order, and a finished request reports all of it. */
  lemma {:induction false} PolledWriteLaw(p: Port, data: seq<Byte>, n: nat)
    requires !Dlab(p.uart.ctl) && n <= |data|
    ensures var (q, m, done) := PolledWrite(p, data, n);
            && q.uart.ctl == p.uart.ctl && q.uart.taken == p.uart.taken && q.uart.lost == p.uart.lost
            && q.uart.sent == p.uart.sent + data[n..m] && (LineOk(p.uart) ==> LineOk(q.uart))
    decreases |data| - n
  {
    if n < |data| {
      WaitConserves(p);
      var (q, ready) := WaitEmpty(p);
      if ready {
        WriteToEmpty(q, data[n]);
        var r := Outb(q, DATA, data[n]);
        PolledWriteLaw(r, data, n + 1);
        TakeOne(p.uart.sent, data, n, PolledWrite(r, data, n + 1).1);
      }
    }
  }

  lemma TakeOne(x: seq<Byte>, data: seq<Byte>, n: nat, m: nat)
    requires n < m <= |data|
    ensures x + [data[n]] + data[n + 1..m] == x + data[n..m]
  {
  }

  // ---- Runs ----

  datatype Call =
    | SetBaudrate(baudrate: int)
    | SetMode(dataBits: int, stopBits: int, parity: bool, odd: bool)
    | WriteRequest(data: seq<Byte>)

  function After(p: Port, c: Call): Port {
    match c
    case SetBaudrate(b) => AfterSetBaudrate(p, b)
    case SetMode(d, s, parity, odd) => AfterSetMode(p, d, s, parity, odd).0
    case WriteRequest(data) => PolledWrite(p, data, 0).0
  }

  function Written(p: Port, c: Call): seq<Byte> {
    if c.WriteRequest? then c.data[..PolledWrite(p, c.data, 0).1] else []
  }

  function Final(p: Port, calls: seq<Call>): Port
    decreases |calls|
  {
    if calls == [] then p else Final(After(p, calls[0]), calls[1..])
  }

  function AllWritten(p: Port, calls: seq<Call>): seq<Byte>
    decreases |calls|
  {
    if calls == [] then [] else Written(p, calls[0]) + AllWritten(After(p, calls[0]), calls[1..])
  }

  lemma SetBitConserves(p: Port, reg: nat, bit: Byte, value: bool)
    requires reg in {LCR, MCR}
    ensures Conserved(p.uart, SetBit(p, reg, bit, value).uart)
  {
    InbConserves(p, reg);
    var (q, prev) := Inb(p, reg);
    OutbConserves(q, reg, FieldByte(prev, bit, if value then bit else 0));
  }

  lemma SetBaudrateConserves(p: Port, baudrate: int)
    ensures Conserved(p.uart, AfterSetBaudrate(p, baudrate).uart)
  {
    var p0 := SetBit(p, MCR, MCR_AO2, false);
    SetBitConserves(p, MCR, MCR_AO2, false);
    if baudrate != 0 {
      var d := Divisor(baudrate);
      var p1 := SetBit(p0, LCR, DLAB_MASK, true);
      SetBitConserves(p0, LCR, DLAB_MASK, true);
      SetBitLcr(p0, DLAB_MASK, true);
      LatchMode(p0.uart.ctl.lcr);
      OutbConserves(p1, DATA, LowByte(d));
      var p2 := Outb(p1, DATA, LowByte(d));
      OutbConserves(p2, IER, HighByte(d));
      SetBitConserves(Outb(p2, IER, HighByte(d)), LCR, DLAB_MASK, false);
    }
  }

  ghost predicate Effect(u: Uart, written: seq<Byte>, v: Uart) {
    && !Dlab(v.ctl) && v.lost == u.lost && v.taken == u.taken && v.sent == u.sent + written
    && (LineOk(u) ==> LineOk(v))
  }

  lemma CallLaw(p: Port, c: Call)
    requires !Dlab(p.uart.ctl)
    ensures Effect(p.uart, Written(p, c), After(p, c).uart)
  {
    assert p.uart.sent + [] == p.uart.sent;
    match c {
      case SetBaudrate(b) =>
        SetBaudrateConserves(p, b);
        if b == 0 {
          SetBitMcr(p, MCR_AO2, false);
        } else {
          SetBaudrateLaw(p, b);
        }
      case SetMode(d, s, parity, odd) => SetModeEffect(p, d, s, parity, odd);
      case WriteRequest(data) => PolledWriteLaw(p, data, 0);
    }
  }

  lemma SetModeEffect(p: Port, d: int, s: int, parity: bool, odd: bool)
    requires !Dlab(p.uart.ctl)
    ensures Effect(p.uart, [], AfterSetMode(p, d, s, parity, odd).0.uart)
  {
    assert p.uart.sent + [] == p.uart.sent;
    SetModeRoundTrip(p, d, s, parity, odd);
    if 5 <= d <= 8 && 1 <= s <= 2 {
      OutbConserves(p, LCR, ModeValue(d, s, parity, odd));
    }
  }

  /** Over any run of calls after UartInit, DLAB is clear between calls, no byte is lost, and wire plus
      THR is exactly the data of the write requests, in order. */
  lemma {:induction false} NothingLost(p: Port, calls: seq<Call>)
    requires !Dlab(p.uart.ctl)
    ensures Effect(p.uart, AllWritten(p, calls), Final(p, calls).uart)
    decreases |calls|
  {
    if calls == [] {
      assert p.uart.sent + [] == p.uart.sent;
    } else {
      CallLaw(p, calls[0]);
      var q := After(p, calls[0]);
      NothingLost(q, calls[1..]);
      EffectTrans(p.uart, Written(p, calls[0]), q.uart, AllWritten(q, calls[1..]), Final(q, calls[1..]).uart);
    }
  }

  lemma EffectTrans(u: Uart, x: seq<Byte>, v: Uart, y: seq<Byte>, w: Uart)
    requires Effect(u, x, v) && Effect(v, y, w)
    ensures Effect(u, x + y, w)
  {
    assert u.sent + x + y == u.sent + (x + y);
  }

  lemma InitConserves(p: Port)
    ensures LineOk(p.uart) ==> LineOk(AfterInit(p).uart)
  {
    var p1 := AfterSetBaudrate(p, 115200);
    SetBaudrateConserves(p, 115200);
    OutbConserves(p1, LCR, ModeValue(8, 1, false, false));
    var p2 := AfterSetMode(p1, 8, 1, false, false).0;
    SetBitConserves(p2, MCR, MCR_DTR, true);
    SetBitConserves(SetBit(p2, MCR, MCR_DTR, true), MCR, MCR_RTS, true);
  }

  /** From any register contents, after UartInit: what was on the line, then the data of the requests. */
  lemma WireCarriesRequests(p: Port, calls: seq<Call>)
    requires LineOk(p.uart)
    ensures var q := AfterInit(p); var u := Final(q, calls).uart;
            u.wire + u.thr == p.uart.wire + p.uart.thr + AllWritten(q, calls) && u.lost == p.uart.lost
  {
    InitLaw(p, 0);
    InitConserves(p);
    NothingLost(AfterInit(p), calls);
  }

  /** The catch-all request handler writes a 'B' without looking. */
  function AfterDefaults(p: Port, n: nat): Port
    decreases n
  {
    if n == 0 then p else AfterDefaults(Outb(p, DATA, 66), n - 1)
  }

  /** So of n such requests, those beyond the room in THR are lost if nothing drains meanwhile, and never
      more than those. */
  lemma {:induction false} DefaultRequestsLose(p: Port, n: nat)
    requires !Dlab(p.uart.ctl)
    ensures var lost := |AfterDefaults(p, n).uart.lost| - |p.uart.lost|;
            var excess := if n > Room(p.uart) then n - Room(p.uart) else 0;
            lost <= excess && (p.env == [] ==> lost == excess)
    ensures AfterDefaults(p, n).uart.sent == p.uart.sent + seq(n, _ => 66)
    decreases n
  {
    if n > 0 {
      var u := Settle(p).uart;
      var q := Outb(p, DATA, 66);
      assert q.uart.ctl == p.uart.ctl && Room(u) >= Room(p.uart);
      DefaultRequestsLose(q, n - 1);
      assert seq(n, _ => 66 as Byte) == [66] + seq(n - 1, _ => 66 as Byte);
    }
  }

  // ---- The driver's code ----

  class MySerial {
    var port: Port

    constructor (device: Port)
      ensures port == device
    {
      port := device;
    }

    method UartReadRegister(reg: nat) returns (v: Byte)
      modifies this
      ensures (port, v) == Inb(old(port), reg)
    {
      var r := Inb(port, reg);
      port, v := r.0, r.1;
    }

    method UartWriteRegister(reg: nat, value: Byte)
      modifies this
      ensures port == Outb(old(port), reg, value)
    {
      port := Outb(port, reg, value);
    }

    method UartSetBit(reg: nat, bit: Byte, value: bool)
      modifies this
      ensures port == SetBit(old(port), reg, bit, value)
    {
      var prev := UartReadRegister(reg);
      var newValue := FieldByte(prev, bit, if value then bit else 0);
      UartWriteRegister(reg, newValue);
    }

    /** crashed: the division by zero traps. */
    method UartSetBaudrate(baudrate: int) returns (crashed: bool)
      modifies this
      ensures port == AfterSetBaudrate(old(port), baudrate) && crashed == (baudrate == 0)
    {
      UartSetBit(MCR, MCR_AO2, false);
      if baudrate == 0 {
        return true;
      }
      var divisor := CDiv(BASE_BAUDRATE, baudrate);
      UartSetBit(LCR, DLAB_MASK, true);
      UartWriteRegister(DATA, LowByte(divisor));
      UartWriteRegister(IER, HighByte(divisor));
      UartSetBit(LCR, DLAB_MASK, false);
      return false;
    }

    method UartSetMode(dataBits: int, stopBits: int, parity: bool, odd: bool) returns (ret: int)
      modifies this
      ensures (port, ret) == AfterSetMode(old(port), dataBits, stopBits, parity, odd)
    {
      if !(dataBits >= 5 && dataBits <= 8) {
        return -1;
      }
      var value: int := dataBits - 5;
      if !(stopBits >= 1 && stopBits <= 2) {
        return -2;
      }
      if stopBits != 1 {
        value := value + LCR_SB;
      }
      if parity {
        value := value + LCR_PAR;
        if !odd {
          value := value + LCR_EVN;
        }
      }
      UartWriteRegister(LCR, value);
      return 0;
    }

    method UartInit()
      modifies this
      ensures port == AfterInit(old(port))
    {
      var crashed := UartSetBaudrate(115200);
      var ret := UartSetMode(8, 1, false, false);
      UartSetBit(MCR, MCR_DTR, true);
      UartSetBit(MCR, MCR_RTS, true);
    }

    method WaitForRoom() returns (ready: bool)
      modifies this
      ensures (port, ready) == WaitEmpty(old(port))
    {
      var more := port.env != [];
      var status := UartReadRegister(LSR);
      while !Bit(status, LSR_THR_EMPTY)
        invariant WaitEmpty(old(port)) ==
            if Bit(status, LSR_THR_EMPTY) then (port, true) else if more then WaitEmpty(port) else (port, false)
        decreases more, |port.env|
      {
        if !more {
          return false;
        }
        more := port.env != [];
        status := UartReadRegister(LSR);
      }
      return true;
    }

    /** `EvtIoWrite` once it has its buffer: complete when done, and then i is the count it reports. */
    method EvtIoWrite(buffer: seq<Byte>) returns (i: nat, complete: bool)
      modifies this
      ensures (port, i, complete) == PolledWrite(old(port), buffer, 0)
    {
      i := 0;
      while i < |buffer|
        invariant i <= |buffer| && PolledWrite(old(port), buffer, 0) == PolledWrite(port, buffer, i)
      {
        var ready := WaitForRoom();
        if !ready {
          return i, false;
        }
        UartWriteRegister(DATA, buffer[i]);
        i := i + 1;
      }
      complete := true;
    }
  }
}
