/** The Windows driver's receive buffer: a queue kept at the front of a fixed array.

    The reader thread stores each byte it takes from RBR at the end; `EvtIoRead` hands out a prefix
    and moves the rest down, both under the lock, so each is one step here.  Two things lose bytes:
    the thread empties a full buffer to make room, and a read that cannot be copied to the caller
    has removed its bytes all the same.  NothingLostIff says that nothing else does.
 */
module ReadBuffer {
  import opened MaskedRegister
  import opened Uart

  const MAX_LEN: nat := 4096

  datatype Buffer = Buffer(data: seq<Byte>, len: nat)

  ghost predicate Valid(b: Buffer) {
    |b.data| == MAX_LEN && b.len <= MAX_LEN
  }

  function Queue(b: Buffer): seq<Byte>
    requires Valid(b)
  {
    b.data[..b.len]
  }

  function Min(a: nat, b: nat): nat {
    if a >= b then b else a
  }

  /** memmove(buf, buf + k, MAX - k): the top k bytes stay behind. */
  function MovedDown(data: seq<Byte>, k: nat): seq<Byte>
    requires k <= |data|
  {
    data[k..] + data[|data| - k..]
  }

  /** How a request ends: refused, completed with its bytes, or completed with an error status. */
  datatype Completion = NoMemory | Delivered(bytes: seq<Byte>) | CopyFailed(bytes: seq<Byte>)

  function AfterRead(b: Buffer, length: nat, memoryOk: bool, copyOk: bool): (Buffer, Completion)
    requires Valid(b)
  {
    if !memoryOk then (b, NoMemory)
    else
      var n := Min(b.len, length);
      (Buffer(MovedDown(b.data, n), b.len - n), if copyOk then Delivered(b.data[..n]) else CopyFailed(b.data[..n]))
  }

  /** What the reader thread does with a byte: a full buffer is emptied first. */
  function AfterStore(b: Buffer, x: Byte): Buffer
    requires Valid(b)
  {
    var n := if b.len >= MAX_LEN then 0 else b.len;
    Buffer(b.data[n := x], n + 1)
  }

  /** One round of the thread's loop: a byte waiting in the UART goes into the buffer. */
  function AfterRound(p: Port, b: Buffer): (Port, Buffer)
    requires Valid(b)
  {
    var (q, status) := Inb(p, LSR);
    if !Bit(status, LSR_DATA_AVAILABLE) then (q, b)
    else var (r, x) := Inb(q, DATA); (r, AfterStore(b, x))
  }

  // ---- One step ----

  /** A read takes a prefix off the queue, of the length asked for or all there is. */
  lemma ReadTakesPrefix(b: Buffer, length: nat, memoryOk: bool, copyOk: bool)
    requires Valid(b)
    ensures var (c, done) := AfterRead(b, length, memoryOk, copyOk);
            && Valid(c)
            && Queue(b) == Removed(done) + Queue(c)
            && (memoryOk ==> |Removed(done)| == if |Queue(b)| <= length then |Queue(b)| else length)
            && (done.NoMemory? <==> !memoryOk) && (done.Delivered? <==> memoryOk && copyOk)
  {
    if memoryOk {
      var n := Min(b.len, length);
      var moved := MovedDown(b.data, n);
      assert moved[..b.len - n] == b.data[n..b.len];
      assert b.data[..b.len] == b.data[..n] + b.data[n..b.len];
    }
  }

  function Removed(c: Completion): seq<Byte> {
    if c.NoMemory? then [] else c.bytes
  }

  /** A store adds the byte at the end, unless the buffer is full: then it alone is left. */
  lemma StoreAppends(b: Buffer, x: Byte)
    requires Valid(b)
    ensures var c := AfterStore(b, x);
            Valid(c) && Queue(c) == if |Queue(b)| == 4096 then [x] else Queue(b) + [x]
  {
    var c := AfterStore(b, x);
    assert b.len < MAX_LEN ==> c.data[..b.len] == b.data[..b.len];
  }

  /** In data mode the thread stores exactly the bytes it takes from the received stream. */
  lemma RoundStoresTaken(p: Port, b: Buffer)
    requires Valid(b) && !Dlab(p.uart.ctl)
    ensures var (q, c) := AfterRound(p, b);
            || (q.uart.taken == p.uart.taken && c == b)
            || (exists x :: q.uart.taken == p.uart.taken + [x] && c == AfterStore(b, x))
    ensures p.uart.rx != [] ==> AfterRound(p, b).0.uart.taken == p.uart.taken + [p.uart.rx[0]]
  {
    var u := Settle(p).uart;
    LineStatusBits(u);
    KeepsOldest(p);
    if u.rx != [] {
      var q := Inb(p, LSR).0;
      var (r, x) := Inb(q, DATA);
      KeepsOldest(q);
      assert r.uart.taken == p.uart.taken + [x];
    }
  }

  // ---- Runs ----

  datatype Step = Store(x: Byte) | Read(length: nat, memoryOk: bool, copyOk: bool)

  /** stored: all bytes the thread took from RBR; gone: those that have left the buffer, by a read or
      because it was emptied; delivered: those that reached a caller. */
  datatype System = System(buffer: Buffer, stored: seq<Byte>, gone: seq<Byte>, delivered: seq<Byte>)

  function Next(s: System, step: Step): System
    requires Valid(s.buffer)
  {
    match step
    case Store(x) =>
      s.(buffer := AfterStore(s.buffer, x), stored := s.stored + [x],
         gone := if s.buffer.len >= MAX_LEN then s.gone + Queue(s.buffer) else s.gone)
    case Read(length, memoryOk, copyOk) =>
      var (b, done) := AfterRead(s.buffer, length, memoryOk, copyOk);
      s.(buffer := b, gone := s.gone + Removed(done),
         delivered := if done.Delivered? then s.delivered + done.bytes else s.delivered)
  }

  /** The two ways to lose bytes: a copy that fails with bytes in hand, and a byte for a full buffer. */
  predicate Loses(s: System, step: Step) {
    match step
    case Store(_) => s.buffer.len == MAX_LEN
    case Read(length, memoryOk, copyOk) => memoryOk && !copyOk && s.buffer.len > 0 && length > 0
  }

  ghost predicate Reaches(s: System, steps: seq<Step>, t: System)
    decreases |steps|
  {
    if steps == [] then s == t else Valid(s.buffer) && Reaches(Next(s, steps[0]), steps[1..], t)
  }

  ghost predicate NeverLoses(s: System, steps: seq<Step>)
    decreases |steps|
  {
    steps == [] || (Valid(s.buffer) && !Loses(s, steps[0]) && NeverLoses(Next(s, steps[0]), steps[1..]))
  }

  ghost predicate IsQueue(s: System) {
    Valid(s.buffer) && s.stored == s.gone + Queue(s.buffer)
  }

  lemma StepIsQueue(s: System, step: Step)
    requires IsQueue(s)
    ensures IsQueue(Next(s, step))
  {
    var q := Queue(s.buffer);
    match step {
      case Store(x) =>
        StoreAppends(s.buffer, x);
        assert s.gone + q + [x] == s.gone + (q + [x]);
      case Read(length, memoryOk, copyOk) =>
        ReadTakesPrefix(s.buffer, length, memoryOk, copyOk);
        var (b, done) := AfterRead(s.buffer, length, memoryOk, copyOk);
        assert s.gone + (Removed(done) + Queue(b)) == s.gone + Removed(done) + Queue(b);
    }
  }

  /** Every run refines a queue: what was stored is what has left, in order, then what is there. */
  lemma {:induction false} RefinesQueue(s: System, steps: seq<Step>, t: System)
    requires IsQueue(s) && Reaches(s, steps, t)
    ensures IsQueue(t)
    decreases |steps|
  {
    if steps != [] {
      StepIsQueue(s, steps[0]);
      RefinesQueue(Next(s, steps[0]), steps[1..], t);
    }
  }

  function Lost(s: System): int {
    |s.gone| - |s.delivered|
  }

  /** The number of bytes gone and not delivered never shrinks, and grows exactly on a losing step. */
  lemma StepLoses(s: System, step: Step)
    requires Valid(s.buffer)
    ensures var t := Next(s, step);
            && Lost(t) >= Lost(s) && (Lost(t) == Lost(s) <==> !Loses(s, step))
            && (s.delivered == s.gone && !Loses(s, step) ==> t.delivered == t.gone)
  {
    if step.Read? {
      ReadTakesPrefix(s.buffer, step.length, step.memoryOk, step.copyOk);
    }
  }

  lemma {:induction false} DeliveredIffNeverLoses(s: System, steps: seq<Step>, t: System)
    requires IsQueue(s) && Reaches(s, steps, t)
    ensures Lost(s) <= Lost(t) && (Lost(t) == Lost(s) <==> NeverLoses(s, steps))
    ensures s.delivered == s.gone && NeverLoses(s, steps) ==> t.delivered == t.gone
    decreases |steps|
  {
    if steps != [] {
      StepIsQueue(s, steps[0]);
      StepLoses(s, steps[0]);
      DeliveredIffNeverLoses(Next(s, steps[0]), steps[1..], t);
    }
  }

  ghost predicate Initial(s: System) {
    Valid(s.buffer) && s.buffer.len == 0 && s.stored == [] && s.gone == [] && s.delivered == []
  }

  /** What callers were given, followed by what is left, is everything taken from the line if and only if
      no copy failed with bytes in hand and no byte met a full buffer. */
  lemma NothingLostIff(s: System, steps: seq<Step>, t: System)
    requires Initial(s) && Reaches(s, steps, t)
    ensures Valid(t.buffer)
    ensures t.delivered + Queue(t.buffer) == t.stored <==> NeverLoses(s, steps)
  {
    RefinesQueue(s, steps, t);
    DeliveredIffNeverLoses(s, steps, t);
    var q := Queue(t.buffer);
    if t.delivered + q == t.gone + q {
      assert |t.delivered| == |t.gone|;
    }
  }

  // ---- Overflow ----

  function Stores(xs: seq<Byte>): seq<Step> {
    seq(|xs|, i requires 0 <= i < |xs| => Store(xs[i]))
  }

  /** Bytes that come while there is room just queue up. */
  lemma {:induction false} StoresQueueUp(s: System, xs: seq<Byte>) returns (t: System)
    requires Valid(s.buffer) && s.buffer.len + |xs| <= MAX_LEN
    ensures Reaches(s, Stores(xs), t) && Valid(t.buffer)
    ensures Queue(t.buffer) == Queue(s.buffer) + xs && t.delivered == s.delivered
    decreases |xs|
  {
    if xs == [] {
      t := s;
    } else {
      StoreAppends(s.buffer, xs[0]);
      t := StoresQueueUp(Next(s, Store(xs[0])), xs[1..]);
      assert Stores(xs)[1..] == Stores(xs[1..]);
      assert Queue(s.buffer) + [xs[0]] + xs[1..] == Queue(s.buffer) + xs;
    }
  }

  lemma {:induction false} ReachesConcat(s: System, xs: seq<Step>, m: System, ys: seq<Step>, t: System)
    requires Reaches(s, xs, m) && Reaches(m, ys, t)
    ensures Reaches(s, xs + ys, t)
    decreases |xs|
  {
    if xs == [] {
      assert xs + ys == ys;
    } else {
      ReachesConcat(Next(s, xs[0]), xs[1..], m, ys, t);
      assert (xs + ys)[1..] == xs[1..] + ys;
    }
  }

  /** With no read in between, the 4097th byte costs the 4096 before it. */
  lemma OverflowLosesAll(s: System, xs: seq<Byte>, x: Byte) returns (t: System)
    requires Initial(s) && |xs| == 4096
    ensures Reaches(s, Stores(xs) + [Store(x)], t)
    ensures Valid(t.buffer) && Queue(t.buffer) == [x] && t.delivered == []
  {
    var m := StoresQueueUp(s, xs);
    t := Next(m, Store(x));
    StoreAppends(m.buffer, x);
    var last := [Store(x)];
    assert last[1..] == [];
    ReachesConcat(s, Stores(xs), m, last, t);
  }

  // ---- The driver's code ----

  class DeviceExtension {
    const readBuffer: array<Byte>
    var readBufferLength: nat

    ghost function Abs(): Buffer
      reads this, readBuffer
    {
      Buffer(readBuffer[..], readBufferLength)
    }

    constructor ()
      ensures Valid(Abs()) && readBufferLength == 0 && fresh(readBuffer)
    {
      readBuffer := new Byte[MAX_LEN];
      readBufferLength := 0;
    }

    /** An overlapping move towards lower addresses, lowest byte first. */
    method MemmoveDown(k: nat)
      requires k <= readBuffer.Length
      modifies readBuffer
      ensures readBuffer[..] == MovedDown(old(readBuffer[..]), k)
    {
      var n := readBuffer.Length - k;
      for i := 0 to n
        invariant forall j :: 0 <= j < i ==> readBuffer[j] == old(readBuffer[j + k])
        invariant forall j :: i <= j < readBuffer.Length ==> readBuffer[j] == old(readBuffer[j])
      {
        readBuffer[i] := readBuffer[i + k];
      }
      assert readBuffer[..] == MovedDown(old(readBuffer[..]), k);
    }

    /** What the thread does under the lock. */
    method StoreByte(x: Byte)
      requires Valid(Abs())
      modifies this, readBuffer
      ensures Abs() == AfterStore(old(Abs()), x)
    {
      if readBufferLength >= MAX_LEN {
        readBufferLength := 0;
      }
      readBuffer[readBufferLength] := x;
      readBufferLength := readBufferLength + 1;
    }

    method EvtIoRead(length: nat, memoryOk: bool, copyOk: bool) returns (done: Completion)
      requires Valid(Abs())
      modifies this, readBuffer
      ensures (Abs(), done) == AfterRead(old(Abs()), length, memoryOk, copyOk)
    {
      if !memoryOk {
        return NoMemory;
      }
      var finalLength := if readBufferLength >= length then length else readBufferLength;
      var bytes := readBuffer[..finalLength];
      assert bytes == old(readBuffer[..])[..finalLength];
      readBufferLength := readBufferLength - finalLength;
      MemmoveDown(finalLength);
      done := if copyOk then Delivered(bytes) else CopyFailed(bytes);
    }
  }
}
