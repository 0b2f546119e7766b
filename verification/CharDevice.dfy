/** The Linux character device that stores a string: writes replace it, reads give it back, and
    ioctls query or change the buffer size and flush it.

    The code trusts its fields: a resize frees the buffer first and forgets nothing else, so a
    later access can leave the allocation.  Such an access is a Crash here.
 */
module CharDevice {
  import opened MaskedRegister

  datatype Option<T> = None | Some(value: T)

  /** buffer: the kmalloc'ed memory, None when the pointer is null; size and tsize are C ints. */
  datatype Dev = Dev(buffer: Option<seq<Byte>>, size: int, tsize: int)

  datatype Result = Ret(n: int) | Data(bytes: seq<Byte>) | Fault | NoMemory | NotPermitted | Invalid | Crash

  datatype Op =
    | Open
    | Read(n: nat, copyOk: bool)
    | Write(data: seq<Byte>, readable: nat) // readable: bytes of the user's memory before it faults
    | GetSize
    | SetSize(arg: nat, memory: Option<seq<Byte>>) // memory: what kmalloc returns, uninitialised
    | Flush(capable: bool)
    | BadCommand

  /** An int converted to size_t, and an unsigned value cut to an int. */
  function Unsigned(i: int): int { i % 0x1_0000_0000_0000_0000 }

  function Int32(n: int): int { (n + 0x8000_0000) % 0x1_0000_0000 - 0x8000_0000 }

  /** `sizeof(char) * new_size + 1`, in size_t. */
  function RequestSize(newSize: int): int { Unsigned(newSize + 1) }

  ghost predicate KernelOp(op: Op) {
    match op
    case SetSize(arg, memory) => memory.Some? ==> |memory.value| == RequestSize(Int32(arg))
    case Write(data, _) => |data| < 0x1_0000_0000_0000_0000
    case _ => true
  }

  function AfterRead(d: Dev, n: nat, copyOk: bool): Result {
    var m := if n > Unsigned(d.size) then Unsigned(d.size) else n;
    if d.buffer.None? || m > |d.buffer.value| then Crash
    else if !copyOk then Fault
    else Data(d.buffer.value[..m])
  }

  function AfterWrite(d: Dev, data: seq<Byte>, readable: nat): (Dev, Result) {
    var copied := if readable < |data| then readable else |data|;
    if |data| > Unsigned(d.tsize) then (d, Fault)
    else if d.buffer.None? || copied > |d.buffer.value| then (d, Crash)
    else
      var buffer := data[..copied] + d.buffer.value[copied..];
      if copied < |data| then (d.(buffer := Some(buffer)), Fault)
      else if |data| >= |buffer| then (d.(buffer := Some(buffer)), Crash)
      else (Dev(Some(buffer[|data| := 0]), Int32(|data|), d.tsize), Ret(|data|))
  }

  function AfterSetSize(d: Dev, arg: nat, memory: Option<seq<Byte>>): (Dev, Result) {
    if memory.None? then (d.(buffer := None), NoMemory)
    else (Dev(memory, d.size, Int32(arg)), Ret(0))
  }

  function After(d: Dev, op: Op): (Dev, Result) {
    match op
    case Open => (d, Ret(0))
    case Read(n, copyOk) => (d, AfterRead(d, n, copyOk))
    case Write(data, readable) => AfterWrite(d, data, readable)
    case GetSize => (d, Ret(d.tsize))
    case SetSize(arg, memory) => AfterSetSize(d, arg, memory)
    case Flush(capable) => if capable then (d.(size := 0), Ret(0)) else (d, NotPermitted)
    case BadCommand => (d, Invalid)
  }

  /** The device as `my_driver_init` sets it up. */
  function Initial(memory: seq<Byte>): Dev
    requires |memory| == 43
  {
    Dev(Some(memory), 0, 42)
  }

  // ---- Memory safety ----

  ghost predicate Safe(d: Dev) {
    d.buffer.Some? && 0 <= d.size <= d.tsize < |d.buffer.value| && d.tsize < 0x8000_0000
  }

  /** A resize keeps the device safe exactly when the memory is granted and holds what is stored. */
  lemma ResizeSafeIff(d: Dev, arg: nat, memory: Option<seq<Byte>>)
    requires Safe(d) && KernelOp(SetSize(arg, memory))
    ensures Safe(AfterSetSize(d, arg, memory).0) <==> memory.Some? && Int32(arg) >= d.size
  {
  }

  /** The condition under which a resize is harmless, as the caller can see it. */
  predicate Fits(d: Dev, op: Op) {
    op.SetSize? ==> op.memory.Some? && Int32(op.arg) >= d.size
  }

  lemma StepSafe(d: Dev, op: Op)
    requires Safe(d) && KernelOp(op) && Fits(d, op)
    ensures Safe(After(d, op).0) && After(d, op).1 != Crash
  {
    if op.SetSize? {
      ResizeSafeIff(d, op.arg, op.memory);
    }
  }

  function Final(d: Dev, ops: seq<Op>): Dev
    decreases |ops|
  {
    if ops == [] then d else Final(After(d, ops[0]).0, ops[1..])
  }

  ghost predicate FitsThroughout(d: Dev, ops: seq<Op>)
    decreases |ops|
  {
    ops == [] || (KernelOp(ops[0]) && Fits(d, ops[0]) && FitsThroughout(After(d, ops[0]).0, ops[1..]))
  }

  /** Over every run whose resizes fit, size <= tsize < capacity always, and no access crashes. */
  lemma {:induction false} AlwaysSafe(d: Dev, ops: seq<Op>, op: Op)
    requires Safe(d) && FitsThroughout(d, ops)
    ensures Safe(Final(d, ops))
    ensures KernelOp(op) && Fits(Final(d, ops), op) ==> After(Final(d, ops), op).1 != Crash
    decreases |ops|
  {
    if ops == [] {
      if KernelOp(op) && Fits(d, op) {
        StepSafe(d, op);
      }
    } else {
      StepSafe(d, ops[0]);
      AlwaysSafe(After(d, ops[0]).0, ops[1..], op);
    }
  }

  // ---- The stored string ----

  function Content(d: Dev): seq<Byte>
    requires Safe(d)
  {
    d.buffer.value[..d.size]
  }

  function Min(a: nat, b: nat): nat { if a < b then a else b }

  /** What a user of the device can know about it. */
  datatype Text = Text(content: seq<Byte>, tsize: int)

  function TextOf(d: Dev): Text
    requires Safe(d)
  {
    Text(Content(d), d.tsize)
  }

  /** What an operation does to the stored string.  A write whose source faults after k bytes reports a
      fault and has overwritten the first k of them; a resize leaves as much uninitialised memory. */
  function Stored(s: Text, op: Op): Text {
    match op
    case Write(data, readable) =>
      if |data| > s.tsize then s
      else if readable >= |data| then s.(content := data)
      else var m := Min(readable, |s.content|); s.(content := data[..m] + s.content[m..])
    case SetSize(arg, memory) =>
      if memory.Some? && |s.content| <= |memory.value| then Text(memory.value[..|s.content|], Int32(arg)) else s
    case Flush(capable) => if capable then s.(content := []) else s
    case _ => s
  }

  function Prefix(content: seq<Byte>, n: nat): seq<Byte> {
    if n > |content| then content else content[..n]
  }

  lemma WriteStores(d: Dev, data: seq<Byte>, readable: nat)
    requires Safe(d) && KernelOp(Write(data, readable))
    ensures var (e, r) := AfterWrite(d, data, readable);
            && Safe(e) && TextOf(e) == Stored(TextOf(d), Write(data, readable))
            && r == if |data| <= d.tsize && readable >= |data| then Ret(|data|) else Fault
  {
    StepSafe(d, Write(data, readable));
    var e := AfterWrite(d, data, readable).0;
    if |data| <= d.tsize {
      if readable >= |data| {
        assert e.buffer.value[..e.size] == data;
      } else {
        var m := Min(readable, d.size);
        assert e.buffer.value[..d.size] == data[..m] + d.buffer.value[..d.size][m..];
      }
    }
  }

  lemma StepStores(d: Dev, op: Op)
    requires Safe(d) && KernelOp(op) && Fits(d, op)
    ensures var (e, r) := After(d, op);
            && Safe(e) && TextOf(e) == Stored(TextOf(d), op)
            && (op.Read? && op.copyOk ==> r == Data(Prefix(Content(d), op.n)))
            && (op.Write? ==> (r == Fault <==> |op.data| > d.tsize || op.readable < |op.data|))
  {
    StepSafe(d, op);
    if op.Write? {
      WriteStores(d, op.data, op.readable);
    }
    if op.Read? && op.copyOk {
      assert d.buffer.value[..d.size][..Min(op.n, d.size)] == d.buffer.value[..Min(op.n, d.size)];
    }
  }

  /** What each operation returns. */
  lemma StepReturns(d: Dev, op: Op)
    requires Safe(d) && KernelOp(op)
    ensures var r := After(d, op).1;
            match op
            case Open => r == Ret(0)
            case Read(n, copyOk) =>
              r == if !copyOk then Fault else Data(if n >= d.size then Content(d) else Content(d)[..n])
            case Write(data, readable) => r == if |data| <= d.tsize && readable >= |data| then Ret(|data|) else Fault
            case GetSize => r == Ret(d.tsize)
            case SetSize(_, memory) => r == if memory.Some? then Ret(0) else NoMemory
            case Flush(capable) => r == if capable then Ret(0) else NotPermitted
            case BadCommand => r == Invalid
    ensures op.Write? && After(d, op).1.Ret? ==>
              var b := After(d, op).0.buffer; b.Some? && |op.data| < |b.value| && b.value[|op.data|] == 0
  {
    match op {
      case Write(data, readable) => WriteStores(d, data, readable);
      case Read(n, copyOk) => StepStores(d, op);
      case _ =>
    }
  }

  /** A resize that gets no memory leaves no buffer and the old sizes: every read and every write that is
      not too long then follows a null pointer. */
  lemma RefusedResizeCrashes(d: Dev, arg: nat, n: nat, copyOk: bool, data: seq<Byte>, readable: nat)
    requires Safe(d)
    ensures var e := AfterSetSize(d, arg, None).0;
            && e == d.(buffer := None) && AfterRead(e, n, copyOk) == Crash
            && AfterWrite(e, data, readable).1 == if |data| > d.tsize then Fault else Crash
  {
  }

  function StoredBy(s: Text, ops: seq<Op>): Text
    decreases |ops|
  {
    if ops == [] then s else StoredBy(Stored(s, ops[0]), ops[1..])
  }

  /** Over every run whose resizes fit the device is a string variable: it holds the last string accepted,
      overwritten as far as later faulting writes got, nothing after a flush, the new memory after a
      resize; and a read of n returns the first n bytes of it, across any number of opens. */
  lemma {:induction false} DeviceStoresString(d: Dev, ops: seq<Op>, n: nat)
    requires Safe(d) && FitsThroughout(d, ops)
    ensures Safe(Final(d, ops)) && TextOf(Final(d, ops)) == StoredBy(TextOf(d), ops)
    ensures AfterRead(Final(d, ops), n, true) == Data(Prefix(StoredBy(TextOf(d), ops).content, n))
    decreases |ops|
  {
    if ops == [] {
      StepStores(d, Read(n, true));
    } else {
      StepStores(d, ops[0]);
      DeviceStoresString(After(d, ops[0]).0, ops[1..], n);
    }
  }

  /** Nothing here touches the stored string: opens, reads, queries, refused flushes, over-long writes. */
  predicate Harmless(d: Dev, op: Op) {
    op.Open? || op.Read? || op.GetSize? || op.BadCommand? || (op.Flush? && !op.capable)
    || (op.Write? && |op.data| > d.tsize)
  }

  lemma {:induction false} HarmlessRun(d: Dev, ops: seq<Op>)
    requires Safe(d) && forall k :: 0 <= k < |ops| ==> KernelOp(ops[k]) && Harmless(d, ops[k])
    ensures FitsThroughout(d, ops) && StoredBy(TextOf(d), ops) == TextOf(d)
    decreases |ops|
  {
    if ops != [] {
      assert KernelOp(ops[0]) && Harmless(d, ops[0]);
      HarmlessRun(d, ops[1..]);
    }
  }

  /** Stored content persists: after a successful write of s, any run of harmless operations later, every
      read of n returns s[..min(n, |s|)]. */
  lemma ContentPersists(d: Dev, s: seq<Byte>, ops: seq<Op>, n: nat)
    requires Safe(d) && |s| <= d.tsize && forall k :: 0 <= k < |ops| ==> KernelOp(ops[k]) && Harmless(d, ops[k])
    ensures AfterRead(Final(AfterWrite(d, s, |s|).0, ops), n, true) == Data(if n > |s| then s else s[..n])
  {
    WrittenPersists(d, s, ops, n);
  }

  lemma WrittenPersists(d: Dev, s: seq<Byte>, ops: seq<Op>, n: nat)
    requires Safe(d) && |s| <= d.tsize && forall k :: 0 <= k < |ops| ==> KernelOp(ops[k]) && Harmless(d, ops[k])
    ensures AfterRead(Final(AfterWrite(d, s, |s|).0, ops), n, true) == Data(Prefix(s, n))
  {
    WriteStores(d, s, |s|);
    var e := AfterWrite(d, s, |s|).0;
    HarmlessRun(e, ops);
    DeviceStoresString(e, ops, n);
  }

  /** A write that reports a fault leaves the stored string alone if and only if it was refused for its
      length, or the bytes it copied before the fault are the ones already there. */
  lemma FaultingWriteHarmlessIff(d: Dev, data: seq<Byte>, readable: nat)
    requires Safe(d) && KernelOp(Write(data, readable)) && (|data| > d.tsize || readable < |data|)
    ensures var (e, r) := AfterWrite(d, data, readable);
            var k := if readable < |data| then readable else |data|;
            var m := if k < d.size then k else d.size;
            && r == Fault && Safe(e)
            && Content(e) == (if |data| > d.tsize then Content(d) else data[..m] + Content(d)[m..])
            && (Content(e) == Content(d) <==> |data| > d.tsize || data[..m] == Content(d)[..m])
  {
    WriteStores(d, data, readable);
    var e := AfterWrite(d, data, readable).0;
    var m := Min(Min(readable, |data|), d.size);
    if |data| <= d.tsize {
      assert Content(e)[..m] == data[..m];
      assert Content(d) == Content(d)[..m] + Content(d)[m..];
    }
  }

  /** A permitted flush empties the string, a refused one leaves it. */
  lemma FlushEmpties(d: Dev, n: nat)
    requires Safe(d)
    ensures After(d, Flush(true)).1 == Ret(0) && AfterRead(After(d, Flush(true)).0, n, true) == Data([])
    ensures After(d, Flush(false)) == (d, NotPermitted)
  {
  }

  /** The size asked for is the size reported, for what fits an int. */
  lemma SizeRoundTrip(d: Dev, arg: nat, memory: seq<Byte>)
    requires arg < 0x8000_0000
    ensures After(After(d, SetSize(arg, Some(memory))).0, GetSize).1 == Ret(arg)
  {
  }

  /** For instance: the call fails, and the string is a different one. */
  lemma HalfWriteChangesString(memory: seq<Byte>)
    requires |memory| == 43
    ensures var d := AfterWrite(Initial(memory), [1], 1).0; var (e, r) := AfterWrite(d, [2, 2], 1);
            r == Fault && AfterRead(d, 1, true) == Data([1]) && AfterRead(e, 1, true) == Data([2])
  {
  }

  /** A resize keeps the stored string, whatever the new memory held, only when there is none. */
  lemma ResizeKeepsStringIff(d: Dev, arg: nat)
    requires Safe(d) && Int32(arg) >= d.size
    ensures (forall memory: seq<Byte> :: |memory| == RequestSize(Int32(arg)) ==>
               var e := AfterSetSize(d, arg, Some(memory)).0; Safe(e) && Content(e) == Content(d))
            <==> d.size == 0
  {
    if d.size > 0 {
      var x: Byte := if d.buffer.value[0] == 0 then 1 else 0;
      var other := seq(RequestSize(Int32(arg)), _ => x);
      var e := AfterSetSize(d, arg, Some(other)).0;
      assert e.buffer.value[..e.size][0] != d.buffer.value[..d.size][0];
    }
  }

  /** A shrinking resize followed by a read leaves the buffer. */
  lemma ShrinkThenReadCrashes(d: Dev, memory: seq<Byte>)
    requires Safe(d) && d.size >= 2 && |memory| == 1
    ensures AfterSetSize(d, 0, Some(memory)).1 == Ret(0)
    ensures AfterRead(AfterSetSize(d, 0, Some(memory)).0, d.size, true) == Crash
  {
  }

  // ---- The driver's code ----

  class MyDev {
    var buffer: array?<Byte>
    var size: int
    var tsize: int
    ghost var live: set<array?<Byte>> // kmalloc'ed and not yet freed

    /** The device holds its buffer and nothing else. */
    ghost predicate NoLeak()
      reads this
    {
      live == if buffer == null then {} else {buffer}
    }

    ghost function Abs(): Dev
      reads this, buffer
    {
      Dev(if buffer == null then None else Some(buffer[..]), size, tsize)
    }

    constructor (memory: array<Byte>)
      requires memory.Length == 43
      ensures buffer == memory && Abs() == Initial(memory[..]) && Safe(Abs()) && NoLeak()
    {
      buffer := memory;
      size := 0;
      tsize := 42;
      live := {memory};
    }

    method ReadCall(n: nat, copyOk: bool) returns (r: Result)
      ensures r == AfterRead(Abs(), n, copyOk)
    {
      var m := n;
      if m > Unsigned(size) {
        m := Unsigned(size);
      }
      if buffer == null || m > buffer.Length {
        return Crash;
      }
      if !copyOk {
        return Fault;
      }
      return Data(buffer[..m]);
    }

    method WriteCall(data: seq<Byte>, readable: nat) returns (r: Result)
      modifies this, buffer
      ensures (Abs(), r) == AfterWrite(old(Abs()), data, readable)
      ensures buffer == old(buffer) && live == old(live)
    {
      if |data| > Unsigned(tsize) {
        return Fault;
      }
      var copied := if readable < |data| then readable else |data|;
      if buffer == null || copied > buffer.Length {
        return Crash;
      }
      for i := 0 to copied
        invariant buffer == old(buffer) && buffer != null && size == old(size) && tsize == old(tsize) && live == old(live)
        invariant forall j :: 0 <= j < i ==> buffer[j] == data[j]
        invariant forall j :: i <= j < buffer.Length ==> buffer[j] == old(buffer[j])
      {
        buffer[i] := data[i];
      }
      assert buffer[..] == data[..copied] + old(buffer[..])[copied..];
      if copied < |data| {
        return Fault;
      }
      if |data| >= buffer.Length {
        return Crash;
      }
      size := Int32(|data|);
      buffer[|data|] := 0;
      return Ret(|data|);
    }

    /** `my_device_set_size`: the old buffer is freed whatever kmalloc answers; memory is that answer. */
    method SetSizeCall(arg: nat, memory: array?<Byte>) returns (r: Result)
      requires memory !in live
      modifies this
      ensures (Abs(), r) == AfterSetSize(old(Abs()), arg, if memory == null then None else Some(memory[..]))
      ensures buffer == memory && live == old(live) - {old(buffer)} + (if memory == null then {} else {memory})
      ensures old(NoLeak()) ==> NoLeak()
    {
      live := live - {buffer}; // kfree
      buffer := memory;
      if buffer == null {
        return NoMemory;
      }
      live := live + {memory};
      tsize := Int32(arg);
      return Ret(0);
    }

    method FlushCall(capable: bool) returns (r: Result)
      modifies this
      ensures (Abs(), r) == After(old(Abs()), Flush(capable)) && buffer == old(buffer) && live == old(live)
    {
      if !capable {
        return NotPermitted;
      }
      size := 0;
      return Ret(0);
    }
  }
}
