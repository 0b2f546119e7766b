/** A 16550-style UART as a driver meets it: eight ports, the first two of them banked by the DLAB
    bit of LCR, and an environment that delivers and drains bytes in its own time.

    What a write to port 0 does depends on every earlier write to LCR, so the model keeps apart
    the control registers, which only the driver changes, and the line, which both sides do.
 */
module Uart {
  import opened MaskedRegister

  const DATA: nat := 0 // RBR, THR, or DLL when DLAB is set
  const IER: nat := 1  // or DLM when DLAB is set
  const FCR: nat := 2  // IIR when read
  const LCR: nat := 3
  const MCR: nat := 4
  const LSR: nat := 5
  const MSR: nat := 6
  const SCR: nat := 7

  // Bit numbers.
  const LCR_DLAB: nat := 7
  const LSR_DATA_AVAILABLE: nat := 0
  const LSR_THR_EMPTY: nat := 5
  const FCR_ENABLE: nat := 0
  const FCR_CLEAR_RCV: nat := 1
  const FCR_CLEAR_TR: nat := 2

  datatype Ctl = Ctl(dll: Byte, dlm: Byte, ier: Byte, fcr: Byte, lcr: Byte, mcr: Byte, scr: Byte)

  /** Status that the hardware reports and no driver here relies on. */
  datatype Noise = Noise(lineErrors: nat, idle: bool, fifoError: bool, iir: Byte, msr: Byte)

  /** rx: received, not yet read; thr: written, not yet sent; wire: sent.  The other four are
      histories: all bytes that arrived, that the driver read from RBR, that it wrote to THR, and
      those of them that found THR full. */
  datatype Uart = Uart(ctl: Ctl, noise: Noise, rx: seq<Byte>, thr: seq<Byte>, wire: seq<Byte>,
                       arrived: seq<Byte>, taken: seq<Byte>, sent: seq<Byte>, lost: seq<Byte>)

  datatype EnvStep = Arrive(b: Byte) | Drain | Report(noise: Noise)

  /** The device with the environment's future: env[i] happens just before the i-th next access. */
  datatype Port = Port(uart: Uart, env: seq<seq<EnvStep>>)

  predicate Dlab(c: Ctl) {
    Bit(c.lcr, LCR_DLAB)
  }

  /** No received byte is lost or repeated; no written byte is lost or repeated. */
  ghost predicate StreamOk(u: Uart) {
    u.arrived == u.taken + u.rx
  }

  ghost predicate LineOk(u: Uart) {
    u.sent == u.wire + u.thr
  }

  function AfterEnv(u: Uart, e: EnvStep): Uart {
    match e
    case Arrive(b) => u.(rx := u.rx + [b], arrived := u.arrived + [b])
    case Drain => if u.thr == [] then u else u.(thr := u.thr[1..], wire := u.wire + [u.thr[0]])
    case Report(n) => u.(noise := n)
  }

  /** What the environment cannot do: touch the registers or the driver's histories, take back a
      received byte, or refill THR. */
  ghost predicate EnvOnly(u: Uart, v: Uart) {
    && v.ctl == u.ctl && v.taken == u.taken && v.sent == u.sent && v.lost == u.lost
    && (u.rx != [] ==> v.rx != []) && |v.thr| <= |u.thr|
  }

  function AfterEnvs(u: Uart, es: seq<EnvStep>): (v: Uart)
    ensures EnvOnly(u, v)
    decreases |es|
  {
    if es == [] then u else
      assert EnvOnly(u, AfterEnv(u, es[0]));
      AfterEnvs(AfterEnv(u, es[0]), es[1..])
  }

  function Settle(p: Port): (q: Port)
    ensures EnvOnly(p.uart, q.uart)
    ensures q.env == if p.env == [] then [] else p.env[1..]
  {
    if p.env == [] then p else Port(AfterEnvs(p.uart, p.env[0]), p.env[1..])
  }

  function LineStatus(u: Uart): Byte {
    (if u.rx != [] then 1 else 0) + 2 * (u.noise.lineErrors % 16)
    + (if u.thr == [] then if u.noise.idle then 96 else 32 else 0) + (if u.noise.fifoError then 128 else 0)
  }

  lemma LineStatusBits(u: Uart)
    ensures Bit(LineStatus(u), LSR_DATA_AVAILABLE) <==> u.rx != []
    ensures Bit(LineStatus(u), LSR_THR_EMPTY) <==> u.thr == []
  {
    var e := u.noise.lineErrors % 16;
    StatusBits(if u.rx != [] then 1 else 0, e, if u.thr == [] then if u.noise.idle then 3 else 1 else 0,
               if u.noise.fifoError then 1 else 0);
  }

  lemma StatusBits(d: nat, e: nat, t: nat, f: nat)
    requires d < 2 && e < 16 && t < 4 && f < 2
    ensures var s := d + 2 * e + 32 * t + 128 * f;
            (Bit(s, 0) <==> d == 1) && (Bit(s, 5) <==> t % 2 == 1)
  {
    var s := d + 2 * e + 32 * t + 128 * f;
    assert s / 32 == t + 4 * f;
    assert Bit(s, 5) <==> s / 2 / 2 / 2 / 2 / 2 % 2 == 1;
    assert s / 2 / 2 / 2 / 2 / 2 == s / 32;
  }

  /** The banked register file. */
  function CtlWrite(c: Ctl, port: nat, v: Byte): Ctl {
    if port == DATA then if Dlab(c) then c.(dll := v) else c
    else if port == IER then if Dlab(c) then c.(dlm := v) else c.(ier := v)
    else if port == FCR then c.(fcr := v)
    else if port == LCR then c.(lcr := v)
    else if port == MCR then c.(mcr := v)
    else if port == SCR then c.(scr := v)
    else c
  }

  function ReadValue(u: Uart, port: nat): Byte {
    if port == DATA then if Dlab(u.ctl) then u.ctl.dll else if u.rx == [] then 0 else u.rx[0]
    else if port == IER then if Dlab(u.ctl) then u.ctl.dlm else u.ctl.ier
    else if port == FCR then u.noise.iir
    else if port == LCR then u.ctl.lcr
    else if port == MCR then u.ctl.mcr
    else if port == LSR then LineStatus(u)
    else if port == MSR then u.noise.msr
    else u.ctl.scr
  }

  /** Reading RBR consumes a byte; no other read changes anything. */
  function ReadEffect(u: Uart, port: nat): Uart {
    if port == DATA && !Dlab(u.ctl) && u.rx != [] then u.(rx := u.rx[1..], taken := u.taken + [u.rx[0]]) else u
  }

  function Depth(c: Ctl): nat {
    if Bit(c.fcr, FCR_ENABLE) then 16 else 1
  }

  /** The room left in THR. */
  function Room(u: Uart): nat {
    if |u.thr| < Depth(u.ctl) then Depth(u.ctl) - |u.thr| else 0
  }

  /** THR takes a byte if it has room; changing the FIFO mode, or asking for it, empties the FIFOs. */
  function WriteEffect(u: Uart, port: nat, v: Byte): Uart {
    var u' := u.(ctl := CtlWrite(u.ctl, port, v));
    if port == DATA && !Dlab(u.ctl) then
      if |u.thr| < Depth(u.ctl) then u'.(sent := u.sent + [v], thr := u.thr + [v])
      else u'.(sent := u.sent + [v], lost := u.lost + [v])
    else if port == FCR then
      var switch := Bit(v, FCR_ENABLE) != Bit(u.ctl.fcr, FCR_ENABLE);
      u'.(rx := if switch || Bit(v, FCR_CLEAR_RCV) then [] else u.rx,
          thr := if switch || Bit(v, FCR_CLEAR_TR) then [] else u.thr)
    else u'
  }

  function Inb(p: Port, port: nat): (r: (Port, Byte))
    ensures r.0.uart.ctl == p.uart.ctl && r.0.uart.sent == p.uart.sent && r.0.uart.lost == p.uart.lost
    ensures port != DATA || Dlab(p.uart.ctl) ==> EnvOnly(p.uart, r.0.uart)
  {
    var q := Settle(p);
    (q.(uart := ReadEffect(q.uart, port)), ReadValue(q.uart, port))
  }

  function Outb(p: Port, port: nat, v: Byte): (q: Port)
    ensures q.uart.ctl == CtlWrite(p.uart.ctl, port, v)
    ensures q.uart.taken == p.uart.taken
    ensures port != DATA || Dlab(p.uart.ctl) ==> q.uart.sent == p.uart.sent && q.uart.lost == p.uart.lost
    ensures port == DATA && !Dlab(p.uart.ctl) ==> q.uart.sent == p.uart.sent + [v]
  {
    var q := Settle(p);
    q.(uart := WriteEffect(q.uart, port, v))
  }

  lemma {:induction false} EnvKeepsOldest(u: Uart, es: seq<EnvStep>)
    requires u.rx != []
    ensures AfterEnvs(u, es).rx != [] && AfterEnvs(u, es).rx[0] == u.rx[0]
    decreases |es|
  {
    if es != [] {
      EnvKeepsOldest(AfterEnv(u, es[0]), es[1..]);
    }
  }

  /** The byte that waits longest stays the next one to be read. */
  lemma KeepsOldest(p: Port)
    ensures p.uart.rx != [] ==> Settle(p).uart.rx != [] && Settle(p).uart.rx[0] == p.uart.rx[0]
  {
    if p.uart.rx != [] && p.env != [] {
      EnvKeepsOldest(p.uart, p.env[0]);
    }
  }

  // ---- Conservation ----

  ghost predicate Conserved(u: Uart, v: Uart) {
    (StreamOk(u) ==> StreamOk(v)) && (LineOk(u) ==> LineOk(v))
  }

  lemma {:induction false} EnvConserves(u: Uart, es: seq<EnvStep>)
    ensures Conserved(u, AfterEnvs(u, es))
    decreases |es|
  {
    if es != [] {
      EnvStepConserves(u, es[0]);
      EnvConserves(AfterEnv(u, es[0]), es[1..]);
    }
  }

  lemma EnvStepConserves(u: Uart, e: EnvStep)
    ensures Conserved(u, AfterEnv(u, e))
  {
    if e.Arrive? {
      assert u.taken + u.rx + [e.b] == u.taken + (u.rx + [e.b]);
    } else if e.Drain? && u.thr != [] {
      assert u.wire + u.thr == u.wire + [u.thr[0]] + u.thr[1..];
    }
  }

  lemma SettleConserves(p: Port)
    ensures Conserved(p.uart, Settle(p).uart)
  {
    if p.env != [] {
      EnvConserves(p.uart, p.env[0]);
    }
  }

  /** No read loses a byte. */
  lemma InbConserves(p: Port, port: nat)
    ensures Conserved(p.uart, Inb(p, port).0.uart)
  {
    SettleConserves(p);
    var u := Settle(p).uart;
    if u.rx != [] {
      assert u.taken + u.rx == u.taken + [u.rx[0]] + u.rx[1..];
    }
  }

  /** No write loses a received byte, unless it makes the FIFOs change mode or empty themselves. */
  lemma OutbConserves(p: Port, port: nat, v: Byte)
    requires port == FCR ==> v == 1 && Bit(p.uart.ctl.fcr, FCR_ENABLE)
    ensures StreamOk(p.uart) ==> StreamOk(Outb(p, port, v).uart)
    ensures port != DATA || Dlab(p.uart.ctl) ==> Conserved(p.uart, Outb(p, port, v).uart)
  {
    SettleConserves(p);
    assert Bit(1, FCR_ENABLE) && !Bit(1, FCR_CLEAR_RCV) && !Bit(1, FCR_CLEAR_TR);
  }

  // ---- DLAB ----

  lemma LatchMode(lcr: Byte)
    ensures Bit(FieldByte(lcr, 0x80, 0x80), LCR_DLAB) && !Bit(FieldByte(lcr, 0x80, 0), LCR_DLAB)
    ensures Bit(lcr, LCR_DLAB) <==> lcr >= 128
  {
    FieldBit(lcr, 0x80, 0x80, LCR_DLAB);
    FieldBit(lcr, 0x80, 0, LCR_DLAB);
    assert Bit(0x80, 7) && !Bit(0, 7);
    assert Bit(lcr, 7) <==> lcr / 2 / 2 / 2 / 2 / 2 / 2 / 2 % 2 == 1;
  }
}
