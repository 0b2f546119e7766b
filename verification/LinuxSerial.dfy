/** The Linux polling serial driver (rs232.c) on the banked UART.

    The functions say what each call does to the port; the class at the end is the driver's code,
    proved to do just that.  The environment moves before every port access, so a run of calls
    ranges over every interleaving; a call whose poll outlasts the given environment is Stuck.
 */
module LinuxSerial {
  import opened MaskedRegister
  import opened Uart

  const LCR_WDL: Byte := 0x03
  const DLAB_MASK: Byte := 0x80
  const DLL_9600: Byte := 0x0c
  const DLM_9600: Byte := 0x00
  const LINE_7N1: Byte := 0x02 // LCR_7_BIT_WORD, one stop bit, no parity, no break, data mode

  /** `setreg`: read, replace the bits under the mask, write. */
  function Setreg(p: Port, value: Byte, mask: Byte, port: nat): Port {
    var (q, reg) := Inb(p, port);
    Outb(q, port, FieldByte(reg, mask, value))
  }

  datatype Result =
    | Done(ret: int)
    | Bytes(data: seq<Byte>)     // a read returned these
    | Faulted(data: seq<Byte>)   // a read consumed these, then could not copy them out
    | BadUserMemory
    | NoMemory
    | NotPermitted
    | InvalidCommand
    | Stuck

  datatype Call =
    | Open
    | Read(size: nat, mallocOk: bool, copyOk: bool)
    | Write(data: seq<Byte>, mallocOk: bool, copyOk: bool)
    | BaudSet(arg: int, capable: bool)
    | WordLengthSet(arg: int, capable: bool)
    | BaudGet
    | ConfSet(wl: int, div: int, capable: bool)
    | OtherIoctl

  // ---- What each call does ----

  function SetLatchMode(p: Port): Port { Setreg(p, 0x80, DLAB_MASK, LCR) }

  function SetDataMode(p: Port): Port { Setreg(p, 0, DLAB_MASK, LCR) }

  function OpenLatch(p: Port): Port {
    var p1 := Inb(SetLatchMode(p), LCR).0;
    var p2 := Inb(Outb(p1, DATA, DLL_9600), DATA).0;
    Inb(Outb(p2, IER, DLM_9600), IER).0
  }

  function AfterOpen(p: Port): Port {
    var p1 := Inb(Setreg(OpenLatch(p), LINE_7N1, 0xff, LCR), LCR).0;
    var p2 := Inb(Setreg(p1, 0x01, 0xff, FCR), FCR).0;
    Outb(p2, IER, 0)
  }

  /** The poll before a read: until LSR reports data. */
  function WaitData(p: Port): (Port, bool)
    decreases |p.env|
  {
    var (q, status) := Inb(p, LSR);
    if Bit(status, LSR_DATA_AVAILABLE) then (q, true)
    else if p.env == [] then (q, false)
    else WaitData(q)
  }

  /** The copy loop of a read, with the bytes got so far. */
  function Fill(p: Port, room: nat, got: seq<Byte>): (f: (Port, seq<Byte>))
    ensures got <= f.1 && |f.1| <= |got| + room
    ensures f.0.uart.ctl == p.uart.ctl && f.0.uart.sent == p.uart.sent && f.0.uart.lost == p.uart.lost
    ensures !Dlab(p.uart.ctl) ==> f.0.uart.taken == p.uart.taken + f.1[|got|..]
    decreases room
  {
    if room == 0 then (p, got)
    else
      var (q, status) := Inb(p, LSR);
      ReadOne(p);
      if !Bit(status, LSR_DATA_AVAILABLE) then (q, got)
      else
        var (r, b) := Inb(q, DATA);
        Fill(r, room - 1, got + [b])
  }

  function AfterRead(p: Port, size: nat, mallocOk: bool, copyOk: bool): (Port, Result) {
    if !mallocOk then (p, NoMemory)
    else
      var (q, ready) := WaitData(p);
      if !ready then (q, Stuck)
      else
        var (r, data) := Fill(q, size, []);
        (r, if copyOk then Bytes(data) else Faulted(data))
  }

  /** The poll before a write tests `inb(LSR) && LSR_THR_IDL`: any nonzero status will do. */
  function WaitLine(p: Port): (Port, bool)
    decreases |p.env|
  {
    var (q, status) := Inb(p, LSR);
    if status != 0 then (q, true)
    else if p.env == [] then (q, false)
    else WaitLine(q)
  }

  /** The transmit loop from the n-th byte, with the same test: it stops early when LSR reads 0. */
  function Send(p: Port, data: seq<Byte>, n: nat): (f: (Port, nat))
    requires n <= |data|
    ensures n <= f.1 <= |data|
    ensures !Dlab(p.uart.ctl) ==>
              f.0.uart.ctl == p.uart.ctl && f.0.uart.taken == p.uart.taken && f.0.uart.sent == p.uart.sent + data[n..f.1]
    decreases |data| - n
  {
    if n == |data| then (p, n)
    else
      var (q, status) := Inb(p, LSR);
      SendOne(p, data[n]);
      if status == 0 then (q, n) else Send(Outb(q, DATA, data[n]), data, n + 1)
  }

  function AfterWrite(p: Port, data: seq<Byte>, mallocOk: bool, copyOk: bool): (Port, Result) {
    if !mallocOk then (p, NoMemory)
    else if !copyOk then (p, BadUserMemory)
    else
      var (q, ready) := WaitLine(p);
      if !ready then (q, Stuck) else var (r, n) := Send(q, data, 0); (r, Done(n))
  }

  // `arg & 0x00FF`, and `(arg & 0xFF00) >> 4` cut to a byte by outb.
  function LowByte(arg: int): Byte { arg % 256 }

  function DlmByte(arg: int): Byte { arg / 256 % 256 * 16 % 256 }

  function AfterLatch(p: Port, dll: Byte, dlm: Byte): Port {
    SetDataMode(Outb(Outb(SetLatchMode(p), DATA, dll), IER, dlm))
  }

  function AfterBaudSet(p: Port, arg: int): Port {
    AfterLatch(p, LowByte(arg), DlmByte(arg))
  }

  function AfterBaudGet(p: Port): (Port, int) {
    var (p1, dlm) := Inb(SetLatchMode(p), IER);
    var (p2, dll) := Inb(p1, DATA);
    (SetDataMode(p2), Latch12(dlm, dll))
  }

  // `retval <<= 4; retval += ...`
  function Latch12(dlm: nat, dll: nat): nat { dlm * 16 + dll }

  function AfterIoctl(p: Port, c: Call): (Port, Result)
    requires !c.Open? && !c.Read? && !c.Write?
  {
    match c
    case BaudSet(arg, capable) => if !capable then (p, NotPermitted) else (AfterBaudSet(p, arg), Done(0))
    case WordLengthSet(arg, capable) =>
      if !capable then (p, NotPermitted) else (Setreg(p, LowByte(arg), LCR_WDL, LCR), Done(0))
    case BaudGet => var (q, ret) := AfterBaudGet(p); (q, Done(ret))
    case ConfSet(wl, div, capable) =>
      // no break: the settings are made and the call then reports an invalid command
      if !capable then (p, NotPermitted)
      else (AfterBaudSet(Setreg(p, LowByte(wl), LCR_WDL, LCR), div), InvalidCommand)
    case OtherIoctl => (p, InvalidCommand)
  }

  function After(p: Port, c: Call): (Port, Result) {
    match c
    case Open => (AfterOpen(p), Done(0))
    case Read(size, mallocOk, copyOk) => AfterRead(p, size, mallocOk, copyOk)
    case Write(data, mallocOk, copyOk) => AfterWrite(p, data, mallocOk, copyOk)
    case _ => AfterIoctl(p, c)
  }

  // ---- One call ----

  /** Data mode, FIFOs on: how open leaves the device. */
  ghost predicate Ready(u: Uart) {
    !Dlab(u.ctl) && Bit(u.ctl.fcr, FCR_ENABLE)
  }

  /** No byte goes out to THR or in from RBR, and no received byte is dropped. */
  ghost predicate NoData(u: Uart, v: Uart) {
    v.sent == u.sent && v.lost == u.lost && v.taken == u.taken
  }

  lemma SetregLcr(p: Port, value: Byte, mask: Byte)
    ensures var q := Setreg(p, value, mask, LCR);
            && q.uart.ctl == p.uart.ctl.(lcr := FieldByte(p.uart.ctl.lcr, mask, value))
            && NoData(p.uart, q.uart)
  {
  }

  /** What `outb` finds in latch mode is the divisor latch, whatever was in LCR before. */
  lemma WriteLatch(p: Port, dll: Byte, dlm: Byte)
    requires Dlab(p.uart.ctl)
    ensures var q := Outb(Outb(p, DATA, dll), IER, dlm);
            && q.uart.ctl == p.uart.ctl.(dll := dll, dlm := dlm)
            && NoData(p.uart, q.uart)
  {
  }

  lemma BaudSetLaw(p: Port, arg: int)
    ensures var q := AfterBaudSet(p, arg);
            && !Dlab(q.uart.ctl) && NoData(p.uart, q.uart)
            && q.uart.ctl == p.uart.ctl.(dll := LowByte(arg), dlm := DlmByte(arg), lcr := q.uart.ctl.lcr)
  {
    LatchLaw(p, LowByte(arg), DlmByte(arg));
  }

  lemma LatchLaw(p: Port, dll: Byte, dlm: Byte)
    ensures var q := AfterLatch(p, dll, dlm);
            && !Dlab(q.uart.ctl) && NoData(p.uart, q.uart)
            && q.uart.ctl == p.uart.ctl.(dll := dll, dlm := dlm, lcr := q.uart.ctl.lcr)
  {
    var p1 := SetLatchMode(p);
    SetregLcr(p, 0x80, DLAB_MASK);
    LatchMode(p.uart.ctl.lcr);
    WriteLatch(p1, dll, dlm);
    var p2 := Outb(Outb(p1, DATA, dll), IER, dlm);
    SetregLcr(p2, 0, DLAB_MASK);
    LatchMode(p2.uart.ctl.lcr);
  }

  lemma BaudGetLaw(p: Port)
    ensures var (q, ret) := AfterBaudGet(p);
            && ret == Latch12(p.uart.ctl.dlm, p.uart.ctl.dll)
            && !Dlab(q.uart.ctl) && NoData(p.uart, q.uart)
            && q.uart.ctl == p.uart.ctl.(lcr := q.uart.ctl.lcr)
  {
    var p1 := SetLatchMode(p);
    SetregLcr(p, 0x80, DLAB_MASK);
    LatchMode(p.uart.ctl.lcr);
    var p2 := Inb(Inb(p1, IER).0, DATA).0;
    SetregLcr(p2, 0, DLAB_MASK);
    LatchMode(p2.uart.ctl.lcr);
  }

  /** Open programs 9600 baud and leaves data mode, from any register contents, without transmitting
      or consuming a byte: its debug output reads port 0 only while that is the latch. */
  lemma OpenLaw(p: Port)
    ensures var q := AfterOpen(p);
            && NoData(p.uart, q.uart)
            && q.uart.ctl == Ctl(12, 0, 0, 1, 2, p.uart.ctl.mcr, p.uart.ctl.scr)
            && Ready(q.uart)
  {
    OpenLatchLaw(p);
    OpenLineLaw(OpenLatch(p));
  }

  lemma OpenLatchLaw(p: Port)
    ensures var q := OpenLatch(p);
            && Dlab(q.uart.ctl) && NoData(p.uart, q.uart)
            && q.uart.ctl == p.uart.ctl.(dll := DLL_9600, dlm := DLM_9600, lcr := q.uart.ctl.lcr)
  {
    SetregLcr(p, 0x80, DLAB_MASK);
    LatchMode(p.uart.ctl.lcr);
  }

  lemma WholeByte(reg: Byte, value: Byte)
    ensures FieldByte(reg, 0xff, value) == value
  {
    assert Pow2(8) == 256;
    FieldWhole(reg, value, 8);
  }

  lemma OpenLineLaw(p: Port)
    ensures var p1 := Inb(Setreg(p, LINE_7N1, 0xff, LCR), LCR).0;
            var q := Outb(Inb(Setreg(p1, 0x01, 0xff, FCR), FCR).0, IER, 0);
            && NoData(p.uart, q.uart) && Ready(q.uart)
            && q.uart.ctl == p.uart.ctl.(lcr := LINE_7N1, fcr := 1, ier := 0)
  {
    SetregLcr(p, LINE_7N1, 0xff);
    WholeByte(p.uart.ctl.lcr, LINE_7N1);
    LatchMode(LINE_7N1);
    var p1 := Inb(Setreg(p, LINE_7N1, 0xff, LCR), LCR).0;
    FifoLaw(p1);
  }

  lemma FifoLaw(p: Port)
    ensures var q := Setreg(p, 0x01, 0xff, FCR);
            && NoData(p.uart, q.uart) && q.uart.ctl == p.uart.ctl.(fcr := 1) && Bit(q.uart.ctl.fcr, FCR_ENABLE)
  {
    var (p1, reg) := Inb(p, FCR);
    WholeByte(reg, 1);
    assert Bit(1, FCR_ENABLE) && !Bit(1, FCR_CLEAR_RCV) && !Bit(1, FCR_CLEAR_TR);
  }

  // ---- Reads consume the stream ----

  lemma PollLaw(p: Port)
    ensures var (q, status) := Inb(p, LSR);
            EnvOnly(p.uart, q.uart) && (Bit(status, LSR_DATA_AVAILABLE) <==> q.uart.rx != [])
  {
    LineStatusBits(Settle(p).uart);
  }

  lemma {:induction false} WaitDataLaw(p: Port)
    ensures var (q, ready) := WaitData(p);
            EnvOnly(p.uart, q.uart) && if ready then q.uart.rx != [] else q.uart.rx == [] && q.env == []
    decreases |p.env|
  {
    PollLaw(p);
    var (r, status) := Inb(p, LSR);
    if !Bit(status, LSR_DATA_AVAILABLE) && p.env != [] {
      WaitDataLaw(r);
      EnvOnlyTrans(p.uart, r.uart, WaitData(r).0.uart);
    }
  }

  lemma EnvOnlyTrans(u: Uart, v: Uart, w: Uart)
    requires EnvOnly(u, v) && EnvOnly(v, w)
    ensures EnvOnly(u, w)
  {
  }

  /** With a byte already there the loop reads at least one. */
  lemma FillSome(p: Port, room: nat)
    requires !Dlab(p.uart.ctl) && room > 0 && p.uart.rx != []
    ensures Fill(p, room, []).1 != []
  {
    ReadOne(p);
  }

  /** One round of the copy loop. */
  lemma ReadOne(p: Port)
    ensures var (q, status) := Inb(p, LSR);
            var (r, b) := Inb(q, DATA);
            && (p.uart.rx != [] ==> Bit(status, LSR_DATA_AVAILABLE))
            && (Bit(status, LSR_DATA_AVAILABLE) <==> q.uart.rx != [])
            && (Bit(status, LSR_DATA_AVAILABLE) && !Dlab(p.uart.ctl) ==> r.uart.taken == p.uart.taken + [b])
  {
    PollLaw(p);
  }

  lemma {:induction false} FillStopsWhenEmpty(p: Port, room: nat, got: seq<Byte>)
    ensures |Fill(p, room, got).1| < |got| + room ==> Fill(p, room, got).0.uart.rx == []
    decreases room
  {
    if room > 0 {
      ReadOne(p);
      var (q, status) := Inb(p, LSR);
      if Bit(status, LSR_DATA_AVAILABLE) {
        var (r, b) := Inb(q, DATA);
        FillStopsWhenEmpty(r, room - 1, got + [b]);
      }
    }
  }

  /** A read of size >= 1 that ends takes between 1 and size bytes from RBR, the next ones of the received
      stream, whether or not it can then hand them out. */
  lemma ReadLaw(p: Port, size: nat, mallocOk: bool, copyOk: bool)
    requires !Dlab(p.uart.ctl)
    ensures var (q, result) := AfterRead(p, size, mallocOk, copyOk);
            && q.uart.ctl == p.uart.ctl && q.uart.sent == p.uart.sent && q.uart.lost == p.uart.lost
            && q.uart.taken == p.uart.taken + Consumed(result)
            && Consumed(result) == (if result.Bytes? || result.Faulted? then result.data else [])
            && (result.Bytes? || result.Faulted? ==> |result.data| <= size && (size >= 1 ==> |result.data| >= 1))
  {
    if mallocOk {
      WaitDataLaw(p);
      var q := WaitData(p).0;
      if WaitData(p).1 && size > 0 {
        FillSome(q, size);
      }
    }
  }

  function Consumed(r: Result): seq<Byte> {
    if r.Bytes? || r.Faulted? then r.data else []
  }

  // ---- What a read returns ----

  /** Some byte is still to come. */
  ghost predicate MoreArrives(env: seq<seq<EnvStep>>) {
    exists k, j :: 0 <= k < |env| && 0 <= j < |env[k]| && env[k][j].Arrive?
  }

  lemma {:induction false} EnvArrives(u: Uart, es: seq<EnvStep>)
    ensures AfterEnvs(u, es).rx != [] <==> u.rx != [] || exists j :: 0 <= j < |es| && es[j].Arrive?
    decreases |es|
  {
    if es != [] {
      EnvArrives(AfterEnv(u, es[0]), es[1..]);
      assert forall j :: 0 <= j < |es| - 1 ==> es[1..][j] == es[j + 1];
      assert forall j :: 1 <= j < |es| ==> es[j] == es[1..][j - 1];
    }
  }

  lemma MoreArrivesTail(env: seq<seq<EnvStep>>)
    requires env != []
    ensures MoreArrives(env) <==> (exists j :: 0 <= j < |env[0]| && env[0][j].Arrive?) || MoreArrives(env[1..])
  {
    if k, j :| 0 <= k < |env| && 0 <= j < |env[k]| && env[k][j].Arrive? {
      if k > 0 {
        assert env[1..][k - 1] == env[k];
      }
    }
    if k, j :| 0 <= k < |env[1..]| && 0 <= j < |env[1..][k]| && env[1..][k][j].Arrive? {
      assert env[k + 1] == env[1..][k];
    }
  }

  /** The poll before a read ends if and only if a byte waits or is still to come. */
  lemma {:induction false} PollEndsIff(p: Port)
    ensures WaitData(p).1 <==> p.uart.rx != [] || MoreArrives(p.env)
    decreases |p.env|
  {
    PollLaw(p);
    var q := Inb(p, LSR).0;
    if p.env != [] {
      EnvArrives(p.uart, p.env[0]);
      MoreArrivesTail(p.env);
      if q.uart.rx == [] {
        PollEndsIff(q);
      }
    }
  }

  /** How a read ends: without memory at once; else stuck exactly when no byte waits and none is to come;
      else with its bytes if they can be copied out and with a fault if not.  Fewer bytes than asked for
      mean that no more were waiting. */
  lemma ReadOutcome(p: Port, size: nat, mallocOk: bool, copyOk: bool)
    ensures var (q, result) := AfterRead(p, size, mallocOk, copyOk);
            && (result == NoMemory <==> !mallocOk) && (!mallocOk ==> q == p)
            && (result == Stuck <==> mallocOk && p.uart.rx == [] && !MoreArrives(p.env))
            && (result.Bytes? <==> copyOk && PollEnds(p, mallocOk))
            && (result.Faulted? <==> !copyOk && PollEnds(p, mallocOk))
            && (|Consumed(result)| < size && PollEnds(p, mallocOk) ==> q.uart.rx == [])
  {
    PollEndsIff(p);
    WaitDataLaw(p);
    FillStopsWhenEmpty(WaitData(p).0, size, []);
  }

  ghost predicate PollEnds(p: Port, mallocOk: bool) {
    mallocOk && (p.uart.rx != [] || MoreArrives(p.env))
  }

  /** What the caller got. */
  function Delivered(r: Result): seq<Byte> {
    if r.Bytes? then r.data else []
  }

  /** A read that gets bytes and cannot copy them out: it has room for one, memory, a byte to read, and
      bad user memory. */
  ghost predicate Drops(p: Port, c: Call) {
    c.Read? && c.size >= 1 && !c.copyOk && PollEnds(p, c.mallocOk)
  }

  lemma DeliversUnlessDrops(p: Port, c: Call)
    requires Ready(p.uart)
    ensures var r := After(p, c).1;
            if Drops(p, c) then |Delivered(r)| < |Consumed(r)| else Delivered(r) == Consumed(r)
  {
    match c {
      case Read(size, mallocOk, copyOk) =>
        ReadOutcome(p, size, mallocOk, copyOk);
        ReadLaw(p, size, mallocOk, copyOk);
      case _ =>
    }
  }

  // ---- Writes ----

  lemma {:induction false} WaitLineLaw(p: Port)
    ensures var (q, ready) := WaitLine(p);
            EnvOnly(p.uart, q.uart) && if ready then LineStatus(q.uart) != 0 else LineStatus(q.uart) == 0 && q.env == []
    decreases |p.env|
  {
    var (q, status) := Inb(p, LSR);
    if status == 0 && p.env != [] {
      WaitLineLaw(q);
      EnvOnlyTrans(p.uart, q.uart, WaitLine(q).0.uart);
    }
  }

  /** One round of the transmit loop. */
  lemma SendOne(p: Port, b: Byte)
    ensures var q := Inb(p, LSR).0; var r := Outb(q, DATA, b);
            && q.uart.ctl == p.uart.ctl && q.uart.taken == p.uart.taken && q.uart.sent == p.uart.sent
            && (!Dlab(p.uart.ctl) ==>
                  r.uart.ctl == p.uart.ctl && r.uart.taken == p.uart.taken && r.uart.sent == p.uart.sent + [b])
  {
  }

  function Transmitted(c: Call, r: Result): seq<Byte> {
    if c.Write? && r.Done? && 0 <= r.ret <= |c.data| then c.data[..r.ret] else []
  }

  lemma WriteLaw(p: Port, data: seq<Byte>, mallocOk: bool, copyOk: bool)
    requires !Dlab(p.uart.ctl)
    ensures var (q, result) := AfterWrite(p, data, mallocOk, copyOk);
            && q.uart.ctl == p.uart.ctl && q.uart.taken == p.uart.taken
            && q.uart.sent == p.uart.sent + Transmitted(Write(data, mallocOk, copyOk), result)
            && q.uart.sent == p.uart.sent + (if result.Done? && 0 <= result.ret <= |data| then data[..result.ret] else [])
            && Consumed(result) == []
  {
    if mallocOk && copyOk {
      WaitLineLaw(p);
    }
  }

  lemma {:induction false} SendStopsAtZero(p: Port, data: seq<Byte>, n: nat)
    requires n <= |data|
    ensures Send(p, data, n).1 < |data| ==> LineStatus(Send(p, data, n).0.uart) == 0
    decreases |data| - n
  {
    if n < |data| {
      var (q, status) := Inb(p, LSR);
      if status != 0 {
        SendStopsAtZero(Outb(q, DATA, data[n]), data, n + 1);
      }
    }
  }

  /** How a write ends: refused with the port untouched, stuck while LSR reads 0 to the end, or with the
      number of bytes written; and it stops short only when LSR reads 0. */
  lemma WriteOutcome(p: Port, data: seq<Byte>, mallocOk: bool, copyOk: bool)
    ensures var (q, result) := AfterWrite(p, data, mallocOk, copyOk);
            && (result == NoMemory <==> !mallocOk)
            && (result == BadUserMemory <==> mallocOk && !copyOk)
            && (!mallocOk || !copyOk ==> q == p)
            && (mallocOk && copyOk ==> result == Stuck || (result.Done? && 0 <= result.ret <= |data|))
            && (result == Stuck ==> q.env == [] && LineStatus(q.uart) == 0)
            && (result.Done? && result.ret < |data| ==> LineStatus(q.uart) == 0)
  {
    if mallocOk && copyOk {
      WaitLineLaw(p);
      SendStopsAtZero(WaitLine(p).0, data, 0);
    }
  }

  // ---- No call loses a received byte ----

  ghost predicate StreamKept(u: Uart, v: Uart) {
    StreamOk(u) ==> StreamOk(v)
  }

  lemma SetregKeepsStream(p: Port, value: Byte, mask: Byte)
    ensures StreamKept(p.uart, Setreg(p, value, mask, LCR).uart)
  {
    var (q, reg) := Inb(p, LCR);
    InbConserves(p, LCR);
    OutbConserves(q, LCR, FieldByte(reg, mask, value));
  }

  lemma BaudSetKeepsStream(p: Port, arg: int)
    ensures StreamKept(p.uart, AfterBaudSet(p, arg).uart)
  {
    var p1 := SetLatchMode(p);
    var p2 := Outb(p1, DATA, LowByte(arg));
    SetregKeepsStream(p, 0x80, DLAB_MASK);
    OutbConserves(p1, DATA, LowByte(arg));
    OutbConserves(p2, IER, DlmByte(arg));
    SetregKeepsStream(Outb(p2, IER, DlmByte(arg)), 0, DLAB_MASK);
  }

  lemma BaudGetKeepsStream(p: Port)
    ensures StreamKept(p.uart, AfterBaudGet(p).0.uart)
  {
    var p1 := SetLatchMode(p);
    var p2 := Inb(p1, IER).0;
    SetregKeepsStream(p, 0x80, DLAB_MASK);
    InbConserves(p1, IER);
    InbConserves(p2, DATA);
    SetregKeepsStream(Inb(p2, DATA).0, 0, DLAB_MASK);
  }

  lemma OpenLatchKeepsStream(p: Port)
    ensures StreamKept(p.uart, OpenLatch(p).uart)
  {
    var p0 := SetLatchMode(p);
    var p1 := Inb(p0, LCR).0;
    var p2 := Outb(p1, DATA, DLL_9600);
    var p3 := Inb(p2, DATA).0;
    var p4 := Outb(p3, IER, DLM_9600);
    SetregKeepsStream(p, 0x80, DLAB_MASK);
    InbConserves(p0, LCR);
    OutbConserves(p1, DATA, DLL_9600);
    InbConserves(p2, DATA);
    OutbConserves(p3, IER, DLM_9600);
    InbConserves(p4, IER);
  }

  lemma OpenKeepsStream(p: Port)
    requires Bit(p.uart.ctl.fcr, FCR_ENABLE)
    ensures StreamKept(p.uart, AfterOpen(p).uart)
  {
    OpenLatchLaw(p);
    OpenLatchKeepsStream(p);
    var p1 := Setreg(OpenLatch(p), LINE_7N1, 0xff, LCR);
    SetregLcr(OpenLatch(p), LINE_7N1, 0xff);
    SetregKeepsStream(OpenLatch(p), LINE_7N1, 0xff);
    var p2 := Inb(p1, LCR).0;
    InbConserves(p1, LCR);
    var (p3, iir) := Inb(p2, FCR);
    InbConserves(p2, FCR);
    WholeByte(iir, 1);
    OutbConserves(p3, FCR, 1);
    var p4 := Outb(p3, FCR, 1);
    InbConserves(p4, FCR);
    OutbConserves(Inb(p4, FCR).0, IER, 0);
  }

  lemma {:induction false} WaitDataKeepsStream(p: Port)
    ensures StreamKept(p.uart, WaitData(p).0.uart)
    decreases |p.env|
  {
    InbConserves(p, LSR);
    var (q, status) := Inb(p, LSR);
    if !Bit(status, LSR_DATA_AVAILABLE) && p.env != [] {
      WaitDataKeepsStream(q);
    }
  }

  lemma {:induction false} FillKeepsStream(p: Port, room: nat, got: seq<Byte>)
    ensures StreamKept(p.uart, Fill(p, room, got).0.uart)
    decreases room
  {
    if room > 0 {
      InbConserves(p, LSR);
      var (q, status) := Inb(p, LSR);
      if Bit(status, LSR_DATA_AVAILABLE) {
        InbConserves(q, DATA);
        var (r, b) := Inb(q, DATA);
        FillKeepsStream(r, room - 1, got + [b]);
      }
    }
  }

  lemma {:induction false} WaitLineKeepsStream(p: Port)
    ensures StreamKept(p.uart, WaitLine(p).0.uart)
    decreases |p.env|
  {
    InbConserves(p, LSR);
    var (q, status) := Inb(p, LSR);
    if status == 0 && p.env != [] {
      WaitLineKeepsStream(q);
    }
  }

  lemma {:induction false} SendKeepsStream(p: Port, data: seq<Byte>, n: nat)
    requires n <= |data|
    ensures StreamKept(p.uart, Send(p, data, n).0.uart)
    decreases |data| - n
  {
    if n < |data| {
      InbConserves(p, LSR);
      var (q, status) := Inb(p, LSR);
      if status != 0 {
        OutbConserves(q, DATA, data[n]);
        SendKeepsStream(Outb(q, DATA, data[n]), data, n + 1);
      }
    }
  }

  lemma IoctlKeepsStream(p: Port, c: Call)
    requires !c.Open? && !c.Read? && !c.Write?
    ensures StreamKept(p.uart, AfterIoctl(p, c).0.uart)
  {
    match c {
      case BaudSet(arg, _) => BaudSetKeepsStream(p, arg);
      case WordLengthSet(arg, _) => SetregKeepsStream(p, LowByte(arg), LCR_WDL);
      case BaudGet => BaudGetKeepsStream(p);
      case ConfSet(wl, div, _) =>
        SetregKeepsStream(p, LowByte(wl), LCR_WDL);
        BaudSetKeepsStream(Setreg(p, LowByte(wl), LCR_WDL, LCR), div);
      case OtherIoctl =>
    }
  }

  lemma CallKeepsStream(p: Port, c: Call)
    requires Bit(p.uart.ctl.fcr, FCR_ENABLE)
    ensures StreamKept(p.uart, After(p, c).0.uart)
  {
    match c {
      case Open => OpenKeepsStream(p);
      case Read(size, _, _) =>
        WaitDataKeepsStream(p);
        FillKeepsStream(WaitData(p).0, size, []);
      case Write(data, _, _) =>
        WaitLineKeepsStream(p);
        SendKeepsStream(WaitLine(p).0, data, 0);
      case _ => IoctlKeepsStream(p, c);
    }
  }

  // ---- Whole runs ----

  /** The divisor latch after a call. */
  function LatchAfter(latch: (Byte, Byte), c: Call): (Byte, Byte) {
    match c
    case Open => (DLL_9600, DLM_9600)
    case BaudSet(arg, true) => (LowByte(arg), DlmByte(arg))
    case ConfSet(_, div, true) => (LowByte(div), DlmByte(div))
    case _ => latch
  }

  function Latch(u: Uart): (Byte, Byte) { (u.ctl.dll, u.ctl.dlm) }

  /** A word-length argument that fits LCR_WDL does not reach the DLAB bit. */
  predicate Fits(c: Call) {
    c.WordLengthSet? && c.capable ==> LowByte(c.arg) < 128
  }

  /** What a call may do to the device, by what it returned. */
  ghost predicate Effect(u: Uart, c: Call, v: Uart, result: Result) {
    && Ready(v)
    && v.sent == u.sent + Transmitted(c, result)
    && v.taken == u.taken + Consumed(result)
    && Latch(v) == LatchAfter(Latch(u), c)
  }

  lemma IoctlLaw(p: Port, c: Call)
    requires Ready(p.uart) && Fits(c) && !c.Open? && !c.Read? && !c.Write?
    ensures var (q, _) := AfterIoctl(p, c);
            && Ready(q.uart)
            && NoData(p.uart, q.uart) && Latch(q.uart) == LatchAfter(Latch(p.uart), c)
  {
    match c {
      case BaudSet(arg, _) => BaudSetLaw(p, arg);
      case WordLengthSet(arg, capable) =>
        SetregLcr(p, LowByte(arg), LCR_WDL);
        WordLengthBit(p.uart.ctl.lcr, arg);
      case BaudGet => BaudGetLaw(p);
      case ConfSet(wl, div, _) =>
        SetregLcr(p, LowByte(wl), LCR_WDL);
        BaudSetLaw(Setreg(p, LowByte(wl), LCR_WDL, LCR), div);
      case OtherIoctl =>
    }
  }

  /** The setting commands need CAP_SYS_RAWIO. */
  predicate Refused(c: Call) {
    (c.BaudSet? || c.WordLengthSet? || c.ConfSet?) && !c.capable
  }

  /** What an ioctl returns: not permitted, with the port untouched, exactly when the capability is needed
      and missing; the latch for BAUDRATEGET; an error for CONFSET, though it is carried out, and for
      an unknown command, which is not. */
  lemma IoctlOutcome(p: Port, c: Call)
    requires !c.Open? && !c.Read? && !c.Write?
    ensures var (q, result) := AfterIoctl(p, c);
            && (result == NotPermitted <==> Refused(c)) && (Refused(c) || c.OtherIoctl? ==> q == p)
            && ((c.BaudSet? || c.WordLengthSet?) && !Refused(c) ==> result == Done(0))
            && (c.BaudGet? ==> result == Done(16 * p.uart.ctl.dlm + p.uart.ctl.dll))
            && ((c.ConfSet? && !Refused(c)) || c.OtherIoctl? ==> result == InvalidCommand)
  {
    if c.BaudGet? {
      BaudGetLaw(p);
    }
  }

  lemma OpenEffect(p: Port)
    requires Ready(p.uart)
    ensures Effect(p.uart, Open, AfterOpen(p).uart, Done(0))
  {
    OpenLaw(p);
    NoDataEffect(p.uart, Open, AfterOpen(p).uart, Done(0));
  }

  lemma NoDataEffect(u: Uart, c: Call, v: Uart, result: Result)
    requires Ready(v) && NoData(u, v) && Latch(v) == LatchAfter(Latch(u), c)
    requires Transmitted(c, result) == [] && Consumed(result) == []
    ensures Effect(u, c, v, result)
  {
    assert u.sent + [] == u.sent && u.taken + [] == u.taken;
  }

  lemma ReadEffectLaw(p: Port, size: nat, mallocOk: bool, copyOk: bool)
    requires Ready(p.uart)
    ensures var (q, result) := AfterRead(p, size, mallocOk, copyOk);
            Effect(p.uart, Read(size, mallocOk, copyOk), q.uart, result)
  {
    ReadLaw(p, size, mallocOk, copyOk);
    assert p.uart.sent + [] == p.uart.sent;
  }

  lemma WriteEffectLaw(p: Port, data: seq<Byte>, mallocOk: bool, copyOk: bool)
    requires Ready(p.uart)
    ensures var (q, result) := AfterWrite(p, data, mallocOk, copyOk);
            Effect(p.uart, Write(data, mallocOk, copyOk), q.uart, result)
  {
    WriteLaw(p, data, mallocOk, copyOk);
    assert p.uart.taken + [] == p.uart.taken;
  }

  lemma IoctlEffect(p: Port, c: Call)
    requires Ready(p.uart) && Fits(c) && !c.Open? && !c.Read? && !c.Write?
    ensures Effect(p.uart, c, AfterIoctl(p, c).0.uart, AfterIoctl(p, c).1)
  {
    IoctlLaw(p, c);
    NoDataEffect(p.uart, c, AfterIoctl(p, c).0.uart, AfterIoctl(p, c).1);
  }

  lemma CallLaw(p: Port, c: Call)
    requires Ready(p.uart) && Fits(c)
    ensures Effect(p.uart, c, After(p, c).0.uart, After(p, c).1)
  {
    match c {
      case Open => OpenEffect(p);
      case Read(size, mallocOk, copyOk) => ReadEffectLaw(p, size, mallocOk, copyOk);
      case Write(data, mallocOk, copyOk) => WriteEffectLaw(p, data, mallocOk, copyOk);
      case _ => IoctlEffect(p, c);
    }
  }

  lemma WordLengthBit(lcr: Byte, arg: int)
    ensures Bit(FieldByte(lcr, LCR_WDL, LowByte(arg)), LCR_DLAB) <==> Bit(lcr, LCR_DLAB) || LowByte(arg) >= 128
  {
    FieldBit(lcr, LCR_WDL, LowByte(arg), LCR_DLAB);
    LatchMode(LowByte(arg));
    assert !Bit(3, 7);
  }

  function Final(p: Port, calls: seq<Call>): Port
    decreases |calls|
  {
    if calls == [] then p else Final(After(p, calls[0]).0, calls[1..])
  }

  /** The bytes that the calls of a run transmitted and consumed, by what they returned. */
  function AllTransmitted(p: Port, calls: seq<Call>): seq<Byte>
    decreases |calls|
  {
    if calls == [] then []
    else var (q, r) := After(p, calls[0]); Transmitted(calls[0], r) + AllTransmitted(q, calls[1..])
  }

  function AllConsumed(p: Port, calls: seq<Call>): seq<Byte>
    decreases |calls|
  {
    if calls == [] then []
    else var (q, r) := After(p, calls[0]); Consumed(r) + AllConsumed(q, calls[1..])
  }

  function FinalLatch(latch: (Byte, Byte), calls: seq<Call>): (Byte, Byte)
    decreases |calls|
  {
    if calls == [] then latch else FinalLatch(LatchAfter(latch, calls[0]), calls[1..])
  }

  /** DLAB discipline: over any run of calls, whatever the line does meanwhile, DLAB is clear between
      calls; the bytes that reached THR are exactly the data that writes report written; the bytes
      taken from RBR are exactly the data of the reads, in the order of the received stream, with
      none lost; and the divisor is the one last set by open, BAUDRATESET or CONFSET. */
  lemma {:induction false} DlabDiscipline(p: Port, calls: seq<Call>)
    requires Ready(p.uart) && forall k :: 0 <= k < |calls| ==> Fits(calls[k])
    ensures var u := Final(p, calls).uart;
            && Ready(u) && StreamKept(p.uart, u)
            && u.sent == p.uart.sent + AllTransmitted(p, calls)
            && u.taken == p.uart.taken + AllConsumed(p, calls)
            && Latch(u) == FinalLatch(Latch(p.uart), calls)
    decreases |calls|
  {
    if calls != [] {
      var (q, r) := After(p, calls[0]);
      CallLaw(p, calls[0]);
      CallKeepsStream(p, calls[0]);
      DlabDiscipline(q, calls[1..]);
      Assoc(p.uart.sent, Transmitted(calls[0], r), AllTransmitted(q, calls[1..]));
      Assoc(p.uart.taken, Consumed(r), AllConsumed(q, calls[1..]));
    }
  }

  lemma Assoc(x: seq<Byte>, y: seq<Byte>, z: seq<Byte>)
    ensures x + y + z == x + (y + z)
  {
  }

  /** The same from any register contents at all, once the device has been opened. */
  lemma AfterFirstOpen(p: Port, calls: seq<Call>)
    requires forall k :: 0 <= k < |calls| ==> Fits(calls[k])
    ensures var q := AfterOpen(p); var u := Final(q, calls).uart;
            && !Dlab(u.ctl) && StreamKept(q.uart, u)
            && u.sent == p.uart.sent + AllTransmitted(q, calls)
            && u.taken == p.uart.taken + AllConsumed(q, calls)
            && Latch(u) == FinalLatch((DLL_9600, DLM_9600), calls)
  {
    OpenLaw(p);
    DlabDiscipline(AfterOpen(p), calls);
  }

  /** In particular, from a device that starts with nothing read, what arrived is what the reads took,
      call after call, followed by what still waits. */
  lemma ReadsAreTheStream(p: Port, calls: seq<Call>)
    requires Ready(p.uart) && p.uart.taken == [] && StreamOk(p.uart)
    requires forall k :: 0 <= k < |calls| ==> Fits(calls[k])
    ensures Final(p, calls).uart.arrived == AllConsumed(p, calls) + Final(p, calls).uart.rx
  {
    DlabDiscipline(p, calls);
    StreamFromEmpty(p.uart, Final(p, calls).uart, AllConsumed(p, calls));
  }

  lemma StreamFromEmpty(u: Uart, v: Uart, consumed: seq<Byte>)
    requires u.taken == [] && StreamOk(u) && StreamKept(u, v) && v.taken == u.taken + consumed
    ensures v.arrived == consumed + v.rx
  {
    assert [] + consumed == consumed;
  }

  // ---- Line settings ----

  /** LCR after DLAB has been set and cleared. */
  function Cleared(lcr: Byte): Byte {
    FieldByte(FieldByte(lcr, DLAB_MASK, 0x80), DLAB_MASK, 0)
  }

  /** The rest of it is left. */
  lemma ClearedBits(lcr: Byte, i: nat)
    ensures Bit(Cleared(lcr), i) == (i != LCR_DLAB && Bit(lcr, i))
  {
    FieldBit(lcr, 0x80, 0x80, i);
    FieldBit(Field(lcr, 0x80, 0x80), 0x80, 0, i);
    assert Pow2(7) == 0x80;
    ShiftedOne(7, i);
    ZeroBit(i);
  }

  lemma ClearedAlready(lcr: Byte)
    requires !Bit(lcr, LCR_DLAB)
    ensures Cleared(lcr) == lcr
  {
    forall i: nat
      ensures Bit(Cleared(lcr), i) == Bit(lcr, i)
    {
      ClearedBits(lcr, i);
    }
    SameBits(Cleared(lcr), lcr);
  }

  /** LCR after a call, by its arguments.  A word length is or-ed in above its two bits. */
  function LcrAfter(lcr: Byte, c: Call): Byte {
    match c
    case Open => LINE_7N1
    case WordLengthSet(arg, true) => FieldByte(lcr, LCR_WDL, LowByte(arg))
    case ConfSet(wl, _, true) => Cleared(FieldByte(lcr, LCR_WDL, LowByte(wl)))
    case _ => lcr
  }

  function FinalLcr(lcr: Byte, calls: seq<Call>): Byte
    decreases |calls|
  {
    if calls == [] then lcr else FinalLcr(LcrAfter(lcr, calls[0]), calls[1..])
  }

  lemma LatchLine(p: Port, dll: Byte, dlm: Byte)
    ensures AfterLatch(p, dll, dlm).uart.ctl.lcr == Cleared(p.uart.ctl.lcr)
  {
    var p1 := SetLatchMode(p);
    SetregLcr(p, 0x80, DLAB_MASK);
    var p2 := Outb(Outb(p1, DATA, dll), IER, dlm);
    SetregLcr(p2, 0, DLAB_MASK);
  }

  lemma BaudSetLine(p: Port, arg: int)
    ensures AfterBaudSet(p, arg).uart.ctl.lcr == Cleared(p.uart.ctl.lcr)
  {
    LatchLine(p, LowByte(arg), DlmByte(arg));
  }

  lemma BaudGetLine(p: Port)
    ensures AfterBaudGet(p).0.uart.ctl.lcr == Cleared(p.uart.ctl.lcr)
  {
    var p1 := SetLatchMode(p);
    SetregLcr(p, 0x80, DLAB_MASK);
    LatchMode(p.uart.ctl.lcr);
    var p2 := Inb(Inb(p1, IER).0, DATA).0;
    SetregLcr(p2, 0, DLAB_MASK);
  }

  lemma CallLine(p: Port, c: Call)
    requires Ready(p.uart) && Fits(c)
    ensures After(p, c).0.uart.ctl.lcr == LcrAfter(p.uart.ctl.lcr, c)
  {
    ClearedAlready(p.uart.ctl.lcr);
    match c {
      case Open => OpenLaw(p);
      case Read(size, mallocOk, copyOk) => ReadLaw(p, size, mallocOk, copyOk);
      case Write(data, mallocOk, copyOk) => WriteLaw(p, data, mallocOk, copyOk);
      case _ => IoctlLine(p, c);
    }
  }

  lemma BaudSetCallLine(p: Port, arg: int, capable: bool)
    requires Cleared(p.uart.ctl.lcr) == p.uart.ctl.lcr
    ensures AfterIoctl(p, BaudSet(arg, capable)).0.uart.ctl.lcr == p.uart.ctl.lcr
  {
    BaudSetLine(p, arg);
  }

  lemma WordLengthCallLine(p: Port, arg: int, capable: bool)
    ensures AfterIoctl(p, WordLengthSet(arg, capable)).0.uart.ctl.lcr == LcrAfter(p.uart.ctl.lcr, WordLengthSet(arg, capable))
  {
    WordLengthLine(p, arg);
  }

  lemma BaudGetCallLine(p: Port)
    requires Cleared(p.uart.ctl.lcr) == p.uart.ctl.lcr
    ensures AfterIoctl(p, BaudGet).0.uart.ctl.lcr == p.uart.ctl.lcr
  {
    BaudGetLine(p);
  }

  lemma ConfSetCallLine(p: Port, wl: int, div: int, capable: bool)
    ensures AfterIoctl(p, ConfSet(wl, div, capable)).0.uart.ctl.lcr == LcrAfter(p.uart.ctl.lcr, ConfSet(wl, div, capable))
  {
    ConfSetLine(p, wl, div);
  }

  lemma IoctlLine(p: Port, c: Call)
    requires Cleared(p.uart.ctl.lcr) == p.uart.ctl.lcr && !c.Open? && !c.Read? && !c.Write?
    ensures AfterIoctl(p, c).0.uart.ctl.lcr == LcrAfter(p.uart.ctl.lcr, c)
  {
    match c {
      case BaudSet(arg, capable) => BaudSetCallLine(p, arg, capable);
      case WordLengthSet(arg, capable) => WordLengthCallLine(p, arg, capable);
      case BaudGet => BaudGetCallLine(p);
      case ConfSet(wl, div, capable) => ConfSetCallLine(p, wl, div, capable);
      case OtherIoctl =>
    }
  }

  lemma WordLengthLine(p: Port, arg: int)
    ensures Setreg(p, LowByte(arg), LCR_WDL, LCR).uart.ctl.lcr == FieldByte(p.uart.ctl.lcr, LCR_WDL, LowByte(arg))
  {
    SetregLcr(p, LowByte(arg), LCR_WDL);
  }

  lemma ConfSetLine(p: Port, wl: int, div: int)
    ensures AfterBaudSet(Setreg(p, LowByte(wl), LCR_WDL, LCR), div).uart.ctl.lcr ==
            Cleared(FieldByte(p.uart.ctl.lcr, LCR_WDL, LowByte(wl)))
  {
    WordLengthLine(p, wl);
    BaudSetLine(Setreg(p, LowByte(wl), LCR_WDL, LCR), div);
  }

  /** Over any run the line settings are those of open and of the word lengths set since: reads, writes and
      the divisor commands leave them alone. */
  lemma {:induction false} LineSettingsFollow(p: Port, calls: seq<Call>)
    requires Ready(p.uart) && forall k :: 0 <= k < |calls| ==> Fits(calls[k])
    ensures Final(p, calls).uart.ctl.lcr == FinalLcr(p.uart.ctl.lcr, calls)
    decreases |calls|
  {
    if calls != [] {
      CallLine(p, calls[0]);
      CallLaw(p, calls[0]);
      LineSettingsFollow(After(p, calls[0]).0, calls[1..]);
    }
  }

  /** WORDLENGTHSET: the word length is the one asked for, and the other settings stay, unless the argument
      has more than two bits. */
  lemma WordLengthCallBits(p: Port, arg: int, i: nat)
    ensures Bit(After(p, WordLengthSet(arg, true)).0.uart.ctl.lcr, i) ==
            (Bit(arg % 256, i) || (i >= 2 && Bit(p.uart.ctl.lcr, i)))
  {
    WordLengthCallLine(p, arg, true);
    WordLengthBits(p.uart.ctl.lcr, arg, i);
  }

  /** CONFSET does the same, clears DLAB, and sets the divisor. */
  lemma ConfSetCallBits(p: Port, wl: int, div: int, i: nat)
    ensures var q := After(p, ConfSet(wl, div, true)).0;
            Bit(q.uart.ctl.lcr, i) == (i != 7 && (Bit(wl % 256, i) || (i >= 2 && Bit(p.uart.ctl.lcr, i))))
    ensures After(After(p, ConfSet(wl, div, true)).0, BaudGet).1 == Done(div % 4096)
  {
    ConfSetCallLine(p, wl, div, true);
    WordLengthBits(p.uart.ctl.lcr, wl, i);
    ClearedBits(FieldByte(p.uart.ctl.lcr, LCR_WDL, LowByte(wl)), i);
    ConfRoundTrip(p, wl, div);
  }

  lemma ConfRoundTrip(p: Port, wl: int, div: int)
    ensures After(After(p, ConfSet(wl, div, true)).0, BaudGet).1 == Done(div % 4096)
  {
    LatchRoundTrip(Setreg(p, LowByte(wl), LCR_WDL, LCR), div);
  }

  /** The bits of the register value. */
  lemma WordLengthBits(lcr: Byte, arg: int, i: nat)
    ensures Bit(FieldByte(lcr, LCR_WDL, LowByte(arg)), i) ==
            (Bit(LowByte(arg), i) || (i >= 2 && Bit(lcr, i)))
  {
    FieldBit(lcr, LCR_WDL, LowByte(arg), i);
    assert Pow2(2) == 4;
    if i >= 2 {
      NoBitAbove(3, 2, i);
    } else {
      assert Bit(3, 0) && Bit(3, 1);
    }
  }

  // ---- What the callers get ----

  /** The bytes that the calls of a run handed to their callers. */
  function AllDelivered(p: Port, calls: seq<Call>): seq<Byte>
    decreases |calls|
  {
    if calls == [] then []
    else var (q, r) := After(p, calls[0]); Delivered(r) + AllDelivered(q, calls[1..])
  }

  ghost predicate NeverDrops(p: Port, calls: seq<Call>)
    decreases |calls|
  {
    calls == [] || (!Drops(p, calls[0]) && NeverDrops(After(p, calls[0]).0, calls[1..]))
  }

  lemma {:induction false} DeliveredIffNeverDrops(p: Port, calls: seq<Call>)
    requires Ready(p.uart) && forall k :: 0 <= k < |calls| ==> Fits(calls[k])
    ensures NeverDrops(p, calls) ==> AllDelivered(p, calls) == AllConsumed(p, calls)
    ensures |AllDelivered(p, calls)| <= |AllConsumed(p, calls)|
    ensures !NeverDrops(p, calls) ==> |AllDelivered(p, calls)| < |AllConsumed(p, calls)|
    decreases |calls|
  {
    if calls != [] {
      DeliversUnlessDrops(p, calls[0]);
      CallLaw(p, calls[0]);
      DeliveredIffNeverDrops(After(p, calls[0]).0, calls[1..]);
    }
  }

  /** The callers of a run get the received stream, up to what still waits, if and only if no read that had
      memory, room and a byte to read was given bad user memory. */
  lemma DeliveredStreamIff(p: Port, calls: seq<Call>)
    requires Ready(p.uart) && p.uart.taken == [] && StreamOk(p.uart)
    requires forall k :: 0 <= k < |calls| ==> Fits(calls[k])
    ensures Final(p, calls).uart.arrived == AllDelivered(p, calls) + Final(p, calls).uart.rx
            <==> NeverDrops(p, calls)
  {
    ReadsAreTheStream(p, calls);
    DeliveredIffNeverDrops(p, calls);
    SameFront(AllDelivered(p, calls), AllConsumed(p, calls), Final(p, calls).uart.rx);
  }

  lemma SameFront(x: seq<Byte>, y: seq<Byte>, z: seq<Byte>)
    ensures x + z == y + z ==> |x| == |y|
  {
    if x + z == y + z {
      assert |x + z| == |y + z|;
    }
  }

  // ---- What the limits are worth ----

  /** WORDLENGTHSET leaves data mode exactly when bit 7 of its argument is clear. */
  lemma WordLengthKeepsDataModeIff(p: Port, arg: int)
    requires Ready(p.uart)
    ensures Ready(After(p, WordLengthSet(arg, true)).0.uart) <==> Fits(WordLengthSet(arg, true))
  {
    SetregLcr(p, LowByte(arg), LCR_WDL);
    WordLengthBit(p.uart.ctl.lcr, arg);
  }

  /** One round of either loop in latch mode. */
  lemma DivertedRound(p: Port, b: Byte)
    requires Dlab(p.uart.ctl)
    ensures var q := Inb(p, LSR).0; var r := Outb(q, DATA, b);
            && NoData(p.uart, q.uart) && q.uart.ctl == p.uart.ctl
            && NoData(p.uart, r.uart) && r.uart.ctl == p.uart.ctl.(dll := b)
    ensures var (r, x) := Inb(Inb(p, LSR).0, DATA);
            NoData(p.uart, r.uart) && r.uart.ctl == p.uart.ctl && x == p.uart.ctl.dll
  {
  }

  lemma {:induction false} SendDiverted(p: Port, data: seq<Byte>, n: nat)
    requires Dlab(p.uart.ctl) && n <= |data|
    ensures var (q, k) := Send(p, data, n);
            && NoData(p.uart, q.uart)
            && q.uart.ctl == p.uart.ctl.(dll := if k == n then p.uart.ctl.dll else data[k - 1])
    decreases |data| - n
  {
    if n < |data| {
      var (q, status) := Inb(p, LSR);
      DivertedRound(p, data[n]);
      if status != 0 {
        SendDiverted(Outb(q, DATA, data[n]), data, n + 1);
      }
    }
  }

  ghost predicate AllAre(xs: seq<Byte>, b: Byte) {
    forall k :: 0 <= k < |xs| ==> xs[k] == b
  }

  lemma OneMoreIs(xs: seq<Byte>, b: Byte)
    requires AllAre(xs, b)
    ensures AllAre(xs + [b], b)
  {
  }

  lemma {:induction false} FillDiverted(p: Port, room: nat, got: seq<Byte>)
    requires Dlab(p.uart.ctl) && AllAre(got, p.uart.ctl.dll)
    ensures var (q, data) := Fill(p, room, got);
            NoData(p.uart, q.uart) && AllAre(data, p.uart.ctl.dll)
    decreases room
  {
    if room > 0 {
      var (q, status) := Inb(p, LSR);
      DivertedRound(p, 0);
      if Bit(status, LSR_DATA_AVAILABLE) {
        var (r, b) := Inb(q, DATA);
        OneMoreIs(got, b);
        FillDiverted(r, room - 1, got + [b]);
      }
    }
  }

  /** Once it has not, no byte of a write is ever sent, though it reports them written: the last of them
      is now the low byte of the divisor. */
  lemma StrayDlabDivertsData(p: Port, data: seq<Byte>, mallocOk: bool, copyOk: bool)
    requires Dlab(p.uart.ctl)
    ensures var (q, result) := AfterWrite(p, data, mallocOk, copyOk);
            && NoData(p.uart, q.uart)
            && (result.Done? ==> 0 <= result.ret <= |data|)
            && q.uart.ctl == p.uart.ctl.(dll := if result.Done? && result.ret > 0 then data[result.ret - 1]
                                                else p.uart.ctl.dll)
  {
    if mallocOk && copyOk {
      WaitLineLaw(p);
      SendDiverted(WaitLine(p).0, data, 0);
    }
  }

  /** And a read returns copies of that byte, and takes nothing from the received stream. */
  lemma StrayDlabFakesData(p: Port, size: nat, mallocOk: bool, copyOk: bool)
    requires Dlab(p.uart.ctl)
    ensures var (q, result) := AfterRead(p, size, mallocOk, copyOk);
            && NoData(p.uart, q.uart)
            && AllAre(Consumed(result), p.uart.ctl.dll)
  {
    if mallocOk {
      WaitDataLaw(p);
      FillDiverted(WaitData(p).0, size, []);
    }
  }

  // ---- Overruns ----

  /** Some bit of LSR other than the two about THR is set. */
  predicate Pending(u: Uart) {
    u.rx != [] || u.noise.lineErrors % 16 != 0 || u.noise.fifoError
  }

  /** Whatever the line does, data that fits the FIFO is not lost. */
  lemma {:induction false} SendWithRoom(p: Port, data: seq<Byte>, n: nat)
    requires Ready(p.uart) && n <= |data| && |data| - n <= Room(p.uart)
    ensures Send(p, data, n).0.uart.lost == p.uart.lost
    ensures LineOk(p.uart) ==> LineOk(Send(p, data, n).0.uart)
    decreases |data| - n
  {
    if n < |data| {
      var (q, status) := Inb(p, LSR);
      InbConserves(p, LSR);
      if status != 0 {
        PutWithRoom(q, data[n]);
        SendWithRoom(Outb(q, DATA, data[n]), data, n + 1);
      }
    }
  }

  lemma PutWithRoom(p: Port, b: Byte)
    requires Ready(p.uart) && Room(p.uart) > 0
    ensures var q := Outb(p, DATA, b);
            && q.uart.lost == p.uart.lost && Room(q.uart) >= Room(p.uart) - 1
            && (LineOk(p.uart) ==> LineOk(q.uart))
  {
    SettleConserves(p);
    var u := Settle(p).uart;
    Assoc(u.wire, u.thr, [b]);
  }

  lemma WriteWithRoom(p: Port, data: seq<Byte>, mallocOk: bool, copyOk: bool)
    requires Ready(p.uart) && |data| <= Room(p.uart)
    ensures var q := AfterWrite(p, data, mallocOk, copyOk).0;
            q.uart.lost == p.uart.lost && (LineOk(p.uart) ==> LineOk(q.uart))
  {
    if mallocOk && copyOk {
      WaitLineLaw(p);
      WaitLineConserves(p);
      if WaitLine(p).1 {
        SendWithRoom(WaitLine(p).0, data, 0);
      }
    }
  }

  lemma {:induction false} WaitLineConserves(p: Port)
    ensures LineOk(p.uart) ==> LineOk(WaitLine(p).0.uart)
    decreases |p.env|
  {
    InbConserves(p, LSR);
    var (q, status) := Inb(p, LSR);
    if status == 0 && p.env != [] {
      WaitLineConserves(q);
    }
  }

  /** On a silent line with a pending status the loop never looks at THR: it writes everything, and what
      the FIFO has no room for is lost. */
  lemma {:induction false} SilentSend(p: Port, data: seq<Byte>, n: nat)
    requires Ready(p.uart) && p.env == [] && Pending(p.uart) && n <= |data|
    ensures var (q, k) := Send(p, data, n);
            && k == |data|
            && q.uart.lost == p.uart.lost + data[if n + Room(p.uart) <= |data| then n + Room(p.uart) else |data|..]
    decreases |data| - n
  {
    if n < |data| {
      var q := Outb(p, DATA, data[n]);
      assert LineStatus(p.uart) != 0;
      SilentSend(q, data, n + 1);
      if Room(p.uart) == 0 {
        assert data[n..] == [data[n]] + data[n + 1..];
        Assoc(p.uart.lost, [data[n]], data[n + 1..]);
      }
    }
  }

  /** With no pending status it stops as soon as THR is not empty. */
  lemma SilentIdleSend(p: Port, data: seq<Byte>)
    requires Ready(p.uart) && p.env == [] && !Pending(p.uart) && p.uart.thr == []
    ensures var (q, k) := Send(p, data, 0);
            k == (if data == [] then 0 else 1) && q.uart.lost == p.uart.lost
  {
    if data != [] {
      assert LineStatus(p.uart) != 0;
      var q := Outb(p, DATA, data[0]);
      assert LineStatus(q.uart) == 0;
      assert Send(q, data, 1) == (q, 1);
    }
  }

  /** The write loop does not wait for room, so what a write does on a silent line depends on what else
      LSR reports.  With a received byte or an error pending all the data is written, and none of it is
      lost if and only if it fits the FIFO; with nothing pending it writes one byte and stops, or polls
      for ever if THR was not empty, and loses nothing. */
  lemma WriteOverrunsIffFull(p: Port, data: seq<Byte>)
    requires Ready(p.uart) && p.env == []
    ensures var (q, result) := AfterWrite(p, data, true, true);
            if Pending(p.uart) then
              result == Done(|data|) && (q.uart.lost == p.uart.lost <==> |data| <= Room(p.uart))
            else
              && q.uart.lost == p.uart.lost
              && result == if p.uart.thr != [] then Stuck else Done(if data == [] then 0 else 1)
  {
    if Pending(p.uart) {
      assert LineStatus(p.uart) != 0;
      assert WaitLine(p) == (p, true);
      SilentSend(p, data, 0);
    } else if p.uart.thr == [] {
      assert LineStatus(p.uart) != 0;
      assert WaitLine(p) == (p, true);
      SilentIdleSend(p, data);
    } else {
      assert LineStatus(p.uart) == 0;
    }
  }

  // ---- The divisor ----

  /** The high byte is shifted by 4 both ways, so the driver reads back 12 bits of what it was given. */
  lemma BaudRoundTrip(p: Port, arg: int)
    ensures After(After(p, BaudSet(arg, true)).0, BaudGet).1 == Done(arg % 4096)
  {
    LatchRoundTrip(p, arg);
  }

  lemma LatchRoundTrip(p: Port, arg: int)
    ensures After(AfterBaudSet(p, arg), BaudGet).1 == Done(arg % 4096)
  {
    BaudSetLaw(p, arg);
    LatchReadBack(AfterBaudSet(p, arg), LowByte(arg), DlmByte(arg));
    ReadBack(arg);
  }

  lemma LatchReadBack(q: Port, dll: Byte, dlm: Byte)
    requires Latch(q.uart) == (dll, dlm)
    ensures After(q, BaudGet).1 == Done(16 * dlm + dll)
  {
    IoctlOutcome(q, BaudGet);
  }

  lemma ReadBack(arg: int)
    ensures 16 * DlmByte(arg) + LowByte(arg) == arg % 4096
  {
    SplitArgument(arg);
    LatchArithmetic(arg / 256 % 256, arg % 256);
  }

  /** After any run BAUDRATEGET returns the divisor last set by open, BAUDRATESET or CONFSET. */
  lemma BaudGetAfterRun(p: Port, calls: seq<Call>)
    requires Ready(p.uart) && forall k :: 0 <= k < |calls| ==> Fits(calls[k])
    ensures var (dll, dlm) := FinalLatch(Latch(p.uart), calls);
            After(Final(p, calls), BaudGet).1 == Done(16 * dlm + dll)
  {
    DlabDiscipline(p, calls);
    var (dll, dlm) := FinalLatch(Latch(p.uart), calls);
    LatchReadBack(Final(p, calls), dll, dlm);
  }

  /** Right after open that is 12, for 9600 baud. */
  lemma BaudAfterOpen(p: Port)
    ensures After(After(p, Open).0, BaudGet).1 == Done(12)
  {
    OpenLaw(p);
    LatchReadBack(AfterOpen(p), 12, 0);
  }

  lemma SplitArgument(arg: int)
    ensures arg % 4096 == arg / 256 % 256 % 16 * 256 + arg % 256
    ensures arg % 65536 == 256 * (arg / 256 % 256) + arg % 256
  {
    var a := arg / 256;
    SplitHigh(a / 256, a % 256, arg % 256);
  }

  lemma SplitHigh(q: int, h: int, l: int)
    requires 0 <= h < 256 && 0 <= l < 256
    ensures (65536 * q + 256 * h + l) % 65536 == 256 * h + l
    ensures (65536 * q + 256 * h + l) % 4096 == h % 16 * 256 + l
  {
    Remainder65536(q, 256 * h + l);
    Remainder4096(16 * q + h / 16, h % 16 * 256 + l);
  }

  lemma Remainder65536(q: int, r: int)
    requires 0 <= r < 65536
    ensures (65536 * q + r) % 65536 == r
  {
  }

  lemma Remainder4096(q: int, r: int)
    requires 0 <= r < 4096
    ensures (4096 * q + r) % 4096 == r
  {
  }

  lemma LatchArithmetic(h: Byte, l: Byte)
    ensures Latch12(h * 16 % 256, l) == h % 16 * 256 + l
    ensures 256 * (h * 16 % 256) + l == 256 * h + l <==> h == 0
  {
    ShiftedNibble(h / 16, h % 16);
  }

  lemma ShiftedNibble(g: int, k: int)
    requires 0 <= g < 16 && 0 <= k < 16
    ensures (16 * g + k) * 16 % 256 == 16 * k
    ensures 16 * k == 16 * g + k <==> g == 0 && k == 0
  {
    assert (16 * g + k) * 16 == 256 * g + 16 * k;
  }

  function HardwareDivisor(u: Uart): nat {
    Combine(u.ctl.dlm, u.ctl.dll)
  }

  function Combine(dlm: nat, dll: nat): nat { 256 * dlm + dll }

  /** But the hardware divides by what was asked for only when the high byte is zero. */
  lemma DivisorRightIff(p: Port, arg: int)
    ensures HardwareDivisor(AfterBaudSet(p, arg).uart) == arg % 65536 <==> arg / 256 % 256 == 0
  {
    BaudSetLaw(p, arg);
    SplitArgument(arg);
    LatchArithmetic(arg / 256 % 256, arg % 256);
  }

  // ---- The driver's code ----

  class Rs232 {
    var port: Port

    constructor (device: Port)
      ensures port == device
    {
      port := device;
    }

    method In(offset: nat) returns (v: Byte)
      modifies this
      ensures (port, v) == Inb(old(port), offset)
    {
      var r := Inb(port, offset);
      port, v := r.0, r.1;
    }

    method Out(v: Byte, offset: nat)
      modifies this
      ensures port == Outb(old(port), offset, v)
    {
      port := Outb(port, offset, v);
    }

    method SetReg(value: Byte, mask: Byte, offset: nat)
      modifies this
      ensures port == Setreg(old(port), value, mask, offset)
    {
      var reg := In(offset);
      var newReg := FieldByte(reg, mask, value);
      Out(newReg, offset);
    }

    method PollData() returns (ready: bool)
      modifies this
      ensures (port, ready) == WaitData(old(port))
    {
      var more := port.env != [];
      var status := In(LSR);
      while !Bit(status, LSR_DATA_AVAILABLE)
        invariant WaitData(old(port)) ==
            if Bit(status, LSR_DATA_AVAILABLE) then (port, true) else if more then WaitData(port) else (port, false)
        decreases more, |port.env|
      {
        if !more {
          return false;
        }
        more := port.env != [];
        status := In(LSR);
      }
      return true;
    }

    /** One round of the copy loop: poll, and read a byte if there is one. */
    method ReadRound(ghost room: nat, ghost got: seq<Byte>) returns (some: bool, b: Byte)
      requires room > 0
      modifies this
      ensures Fill(old(port), room, got) == if some then Fill(port, room - 1, got + [b]) else (port, got)
    {
      b := 0;
      var status := In(LSR);
      some := Bit(status, LSR_DATA_AVAILABLE);
      if some {
        b := In(DATA);
      }
    }

    /** The same, into the kernel buffer. */
    method FillOne(kbuff: array<Byte>, cnt: nat, ghost room: nat) returns (some: bool)
      requires room > 0 && cnt < kbuff.Length
      modifies this, kbuff
      ensures Fill(old(port), room, old(kbuff[..cnt])) ==
                if some then Fill(port, room - 1, kbuff[..cnt + 1]) else (port, kbuff[..cnt])
    {
      ghost var got := kbuff[..cnt];
      var b;
      some, b := ReadRound(room, got);
      if some {
        kbuff[cnt] := b;
        assert kbuff[..cnt + 1] == got + [b];
      }
    }

    /** The copy loop, into a kernel buffer of size + 1 bytes. */
    method FillBuffer(kbuff: array<Byte>, size: nat) returns (cnt: nat)
      requires kbuff.Length == size + 1
      modifies this, kbuff
      ensures cnt <= size && (port, kbuff[..cnt]) == Fill(old(port), size, [])
    {
      cnt := 0;
      assert kbuff[..0] == [];
      ghost var filled := Fill(port, size, []);
      while cnt < size
        invariant 0 <= cnt <= size && filled == Fill(port, size - cnt, kbuff[..cnt])
      {
        var some := FillOne(kbuff, cnt, size - cnt);
        if !some {
          return;
        }
        cnt := cnt + 1;
      }
    }

    method ReadCall(size: nat, mallocOk: bool, copyOk: bool) returns (result: Result)
      modifies this
      ensures (port, result) == AfterRead(old(port), size, mallocOk, copyOk)
    {
      if !mallocOk {
        return NoMemory;
      }
      var kbuff := new Byte[size + 1];
      var ready := PollData();
      if !ready {
        return Stuck;
      }
      var cnt := FillBuffer(kbuff, size);
      ghost var data := kbuff[..cnt];
      kbuff[cnt] := 0;
      assert kbuff[..cnt] == data;
      result := if copyOk then Bytes(kbuff[..cnt]) else Faulted(kbuff[..cnt]);
    }

    method PollLine() returns (ready: bool)
      modifies this
      ensures (port, ready) == WaitLine(old(port))
    {
      var more := port.env != [];
      var status := In(LSR);
      while status == 0
        invariant WaitLine(old(port)) ==
            if status != 0 then (port, true) else if more then WaitLine(port) else (port, false)
        decreases more, |port.env|
      {
        if !more {
          return false;
        }
        more := port.env != [];
        status := In(LSR);
      }
      return true;
    }

    method WriteCall(kbuff: seq<Byte>, mallocOk: bool, copyOk: bool) returns (result: Result)
      modifies this
      ensures (port, result) == AfterWrite(old(port), kbuff, mallocOk, copyOk)
    {
      if !mallocOk {
        return NoMemory;
      }
      if !copyOk {
        return BadUserMemory;
      }
      var ready := PollLine();
      if !ready {
        return Stuck;
      }
      var cnt := SendAll(kbuff);
      result := Done(cnt);
    }

    method SendAll(kbuff: seq<Byte>) returns (cnt: nat)
      modifies this
      ensures (port, cnt) == Send(old(port), kbuff, 0)
    {
      cnt := 0;
      while cnt < |kbuff|
        invariant cnt <= |kbuff| && Send(old(port), kbuff, 0) == Send(port, kbuff, cnt)
      {
        var status := In(LSR);
        if status == 0 {
          return;
        }
        Out(kbuff[cnt], DATA);
        cnt := cnt + 1;
      }
    }

    method OpenCall()
      modifies this
      ensures port == AfterOpen(old(port))
    {
      SetReg(0x80, DLAB_MASK, LCR);
      var lcr := In(LCR);
      Out(DLL_9600, DATA);
      var dll := In(DATA);
      Out(DLM_9600, IER);
      var dlm := In(IER);
      SetReg(LINE_7N1, 0xff, LCR);
      lcr := In(LCR);
      SetReg(0x01, 0xff, FCR);
      var fcr := In(FCR);
      Out(0, IER);
    }

    method SetBaud(arg: int)
      modifies this
      ensures port == AfterBaudSet(old(port), arg)
    {
      SetReg(0x80, DLAB_MASK, LCR);
      Out(LowByte(arg), DATA);
      Out(DlmByte(arg), IER);
      SetReg(0, DLAB_MASK, LCR);
    }

    method GetBaud() returns (retval: int)
      modifies this
      ensures (port, retval) == AfterBaudGet(old(port))
    {
      SetReg(0x80, DLAB_MASK, LCR);
      retval := In(IER);
      retval := retval * 16;
      var dll := In(DATA);
      retval := retval + dll;
      SetReg(0, DLAB_MASK, LCR);
    }

    method IoctlCall(c: Call) returns (result: Result)
      requires !c.Open? && !c.Read? && !c.Write?
      modifies this
      ensures (port, result) == AfterIoctl(old(port), c)
    {
      match c {
        case BaudSet(arg, capable) =>
          if !capable {
            return NotPermitted;
          }
          SetBaud(arg);
          return Done(0);
        case WordLengthSet(arg, capable) =>
          if !capable {
            return NotPermitted;
          }
          SetReg(LowByte(arg), LCR_WDL, LCR);
          return Done(0);
        case BaudGet =>
          var retval := GetBaud();
          return Done(retval);
        case ConfSet(wl, div, capable) =>
          if !capable {
            return NotPermitted;
          }
          SetReg(LowByte(wl), LCR_WDL, LCR);
          SetBaud(div);
          return InvalidCommand;
        case OtherIoctl =>
          return InvalidCommand;
      }
    }
  }
}
