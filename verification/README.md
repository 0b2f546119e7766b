# Rathaxes reference drivers, modelled and proved in Dafny

The Rathaxes repository documents operating systems through small hand-written reference drivers,
which are state machines running against concurrent hardware, and ships a compiler front end with
an option parser. This project models those drivers and proves what they keep over whole runs.

| file | models |
|---|---|
| `MaskedRegister.dfy` | read-modify-write of register fields, shared by all drivers |
| `TransmitRing.dfy`, `ReceiveRing.dfy` | the e1000 descriptor rings, driver against device |
| `E1000Lifetime.dfy` | e1000 open and close as runs of register writes, allocations, frees and interrupt set-up |
| `E1000Registers.dfy` | what open and close leave in the registers and descriptors |
| `E1000Driver.dfy` | the code of open and close, refining those runs |
| `Interrupts.dfy` | ICR, `waiting_intr`, handler and tasklet, over opens and closes |
| `MacAddress.dfy` | EEPROM polling and the address registers |
| `E1000System.dfy` | all e1000 parts together, freely interleaved |
| `Uart.dfy` | a banked 16550-style register file with an environment |
| `LinuxSerial.dfy`, `WindowsSerial.dfy` | the two polling serial drivers on it |
| `ParallelWriters.dfy` | Windows write requests dispatched in parallel |
| `ReadBuffer.dfy` | the Windows receive buffer as a queue |
| `Ac97.dfy` | AC'97 probe and remove, with every failure path |
| `CharDevice.dfy` | the Linux character device that stores a string |
| `GenerateOptions.dfy` | the `/o` option pass of `rathaxes generate` |

Each imperative part has two layers. Specification functions say what a call does to a value of the
state, and the run theorems are lemmas about those functions. Classes with the driver's own fields,
arrays and loops carry the code, and each method is proved equal to its specification function.

The outside world is always a parameter. Kernel calls that can fail are answered by arguments
(`Answers`, `Faults`, `mallocOk`, `copyOk`). The serial line is a schedule: `Port.env` lists what
arrives and drains before each port access, so a statement about every `Port` is one about every
interleaving. A busy-wait that outlasts the schedule ends in `Stuck`. The devices follow Intel's
PCI/PCI-X Family of Gigabit Ethernet Controllers Software Developer's Manual (sections 3.2.3, 3.4
and 14.3) and the 16550 data sheet.

The Windows driver's `device.c` is not UTF-8 text. Rows about its reader thread and its queues cite the
files that declare or share the same fields and give the lines of `device.c` in words.

## Where the code does not do what one would expect

These are properties that turned out to hold only under a condition. Each has a lemma with the exact
condition.

- The transmit path has no ring-full test: the 256th pending frame makes the ring look empty
  (`AcceptedIffNotFull`). It has no length test either: a frame longer than its slot is damaged by
  the next one (`SurvivesIffFitsSlot`), and can be copied past the end of the buffer
  (`InsideIffFitsSlot`). `KeepsFifoIff` puts the limits together.
- The receive path never clears a descriptor's status, so a read with nothing unread repeats the
  frame of 256 frames ago after the first lap (`EmptyReadHarmlessIffFirstLap`).
- The receive buffers get the size of the descriptors: only slots 0 and 1 are inside the allocation, so
  the third frame after an open goes outside it (`FillsInsideIff`).
- An open that fails after allocating leaks that memory (`AllFreedIffNoLateFailure`).
- Close drops the frames still pending (`CloseLosesPending`).
- Open initialises the tasklet and leaves `waiting_intr` alone, so causes noted before a close are not
  answered after the next open until another interrupt comes (`ReopenStrandsCauses`,
  `CausesPromisedIff`).
- The tasklet tests and clears `waiting_intr` in separate steps (`WindowLosesUnlessKnown`).
- A word-length argument with bit 7 set leaves the Linux UART in latch mode
  (`WordLengthKeepsDataModeIff`); the write poll uses `&&` where `&` was meant
  (`WriteOverrunsIffFull`); a read that cannot copy its bytes out has taken them all the same
  (`DeliveredStreamIff`); the high divisor byte is shifted by 4 (`DivisorRightIff`).
- CONFSET lacks a break, so it makes its settings and then returns an error. A comment in
  `rs232_open` says 8 data bits at 115200 baud; the code programs the 7-bit pattern and 9600 baud. The
  model follows the code.
- The Windows reader thread empties a full buffer to store one more byte (`OverflowLosesAll`), and a
  read whose copy fails drops its bytes (`NothingLostIff`). Parallel write requests can overrun THR
  (`LossFreeIffDeepEnough`), and the catch-all handler writes without polling (`DefaultRequestsLose`).
- AC'97 device slots are never given back (`SlotsAreNotReused`).
- A write to the character device whose source faults half way reports a fault and has overwritten the
  front of the stored string (`FaultingWriteHarmlessIff`). A resize frees the buffer first, keeps the
  old size (`ResizeSafeIff`) and leaves uninitialised memory as the content (`ResizeKeepsStringIff`).

## Model

| member | source | states |
|---|---|---|
| MaskedRegister.FieldBit | doc/systems/linux/rs232_polling/rs232.c:194-227 | each bit of `(~mask & reg) \| value`, for words of any width |
| MaskedRegister.LastWriterPerBit | doc/systems/linux/rs232_polling/rs232.c:194-227 | after any sequence of in-mask updates each bit equals the value from the last update covering it, else its old value |
| MaskedRegister.DisjointUpdatesCommute | doc/systems/e1000/Linux/e1000_reg_primitive.h:16-38 | updates of disjoint fields give the same word in any order and with repetitions |
| MaskedRegister.FieldUpdateIffInMask | doc/systems/linux/rs232_polling/rs232.c:194-207 | the expression is a field update for every old word if and only if the value lies in the mask |
| MaskedRegister.OrBit | doc/systems/e1000/Linux/e1000_reg_primitive.h:16-23 | set-preserve ors the bits in |
| MaskedRegister.AndNotBit | doc/systems/e1000/Linux/e1000_reg_primitive.h:31-38 | unset-preserve clears the bits and no others |
| TransmitRing.EveryRunIsFifo | doc/systems/e1000/Linux/mod.c:193-225 | every interleaving of transmissions and device fetches keeps the FIFO invariant: emitted frames, then the pending slots in order, are the accepted frames |
| TransmitRing.TransmitRefinesFifo | doc/systems/e1000/Linux/mod.c:193-225 | from init_queue's state: emitted is a prefix of accepted, byte for byte, and the difference is (TDT - TDH) mod 256 |
| TransmitRing.Pending | doc/systems/e1000/Linux/mod.c:455-459 | the frames between head and tail number (TDT - TDH) mod 256, fewer than 256 |
| TransmitRing.OtherSlotsUndisturbed | doc/systems/e1000/Linux/mod.c:211-217 | filling the tail slot changes no byte of any other slot |
| TransmitRing.TailSlotHolds | doc/systems/e1000/Linux/mod.c:211-217 | the tail descriptor then describes exactly the frame's bytes |
| TransmitRing.DeviceDrains | doc/systems/e1000/Linux/mod.c:209-221 | left alone for Pending steps the device emits everything accepted |
| TransmitRing.StatusTellsSent | doc/systems/e1000/Linux/mod.c:216-217 | a waiting descriptor has a clear status, and its fetch reports completion there |
| TransmitRing.CommandBits | doc/systems/e1000/Linux/mod.c:216-217 | the command byte has exactly the end-of-packet, checksum and report bits, 0, 1 and 3 |
| TransmitRing.AcceptedIffNotFull | doc/systems/e1000/Linux/mod.c:209-221 | a transmission adds one pending frame if and only if fewer than 255 are pending; at 255 the ring becomes empty |
| TransmitRing.SurvivesIffFitsSlot | doc/systems/e1000/Linux/mod.c:212-215 | a frame survives the next transmission, whatever it is, if and only if it is at most 2048 bytes |
| TransmitRing.KeepsFifoIff | doc/systems/e1000/Linux/mod.c:209-221 | with nothing checked, a transmission inside the buffer keeps the FIFO invariant if and only if the frame is at most 2048 bytes and fewer than 255 are pending |
| TransmitRing.InsideIffFitsSlot | doc/systems/e1000/Linux/mod.c:212 | the copy stays inside the DMA buffer for every position of the tail if and only if the frame is at most 2048 bytes |
| TransmitRing.SendQueue.constructor | doc/systems/e1000/Linux/mod.c:449-459 | clearing the descriptors, the address loop and TDH = TDT = 0 give the initial ring |
| TransmitRing.SendQueue.Memcpy | doc/systems/e1000/Linux/mod.c:212 | the copy replaces exactly the bytes at its target |
| TransmitRing.SendQueue.StartXmit | doc/systems/e1000/Linux/mod.c:193-225 | the code, on arrays: fragmented packets dropped, others put at the tail, tail moved modulo 256, and the number of bytes copied past the end of the buffer |
| ReceiveRing.EveryRunInOrder | doc/systems/e1000/Linux/mod.c:227-272 | every run of arrivals and reads of what has arrived keeps the ring in order |
| ReceiveRing.ReceiveInOrder | doc/systems/e1000/Linux/mod.c:227-272 | from init_queue's state: delivered is a prefix of received, at most 255 wait, and the slot read is never the device's |
| ReceiveRing.ReadDelivers | doc/systems/e1000/Linux/mod.c:237-271 | a read delivers the oldest unread frame and moves RDT onto its slot; without an skb nothing changes |
| ReceiveRing.ReadIffEndOfPacket | doc/systems/e1000/Linux/mod.c:237-271 | on any ring a read hands up the frame after the tail, and moves the tail onto it, if and only if bit 1 of its status is set and there is an skb; else it changes nothing |
| ReceiveRing.ReadSlotIsDrivers | doc/systems/e1000/Linux/mod.c:237-239 | the slot after the tail is outside the device's range while something is unread |
| ReceiveRing.DropsIffFull | doc/systems/e1000/Linux/mod.c:415-423 | the device drops a frame if and only if 255 are unread |
| ReceiveRing.EmptyReadHarmlessIffFirstLap | doc/systems/e1000/Linux/mod.c:246-250 | reading with nothing unread changes nothing if and only if fewer than 256 frames were ever received; later it repeats the frame of 256 frames ago |
| ReceiveRing.RecvQueue.constructor | doc/systems/e1000/Linux/mod.c:412-423 | cleared descriptors, RDH = 0 and RDT = 255 |
| ReceiveRing.RecvQueue.Read | doc/systems/e1000/Linux/mod.c:227-272 | the code of e1000_read |
| E1000Lifetime.EnabledImpliesLive | doc/systems/e1000/Linux/mod.c:129-191 | between any two operations of any run of opens and closes, whichever opens fail and where: an enabled ring's descriptors and buffers are live; allocations are fresh and frees are of live memory; the interrupt line is requested when free and freed when held |
| E1000Lifetime.RunKeepsInv | doc/systems/e1000/Linux/mod.c:353-373 | what is live is the memory of the current open and of failed ones; the interrupt line is held if and only if the interface is up, and then the device is enabled |
| E1000Lifetime.OpenSafe | doc/systems/e1000/Linux/mod.c:274-363 | one open is safe at every step from any safe state, for every combination of kernel answers |
| E1000Lifetime.QueueSafe | doc/systems/e1000/Linux/mod.c:375-470 | init_queue is safe at every step and allocates exactly what the answers granted before the first refusal |
| E1000Lifetime.TakenMeans | doc/systems/e1000/Linux/mod.c:380-447 | what an open allocates: nothing without the DMA mask, the receive memory granted, and the transmit memory granted only if the receive memory is complete |
| E1000Lifetime.EnableSafe | doc/systems/e1000/Linux/mod.c:461-465 | enabling is safe once both base registers name backed rings, and does enable |
| E1000Lifetime.InterruptSafe | doc/systems/e1000/Linux/mod.c:154-182 | init_interrupt holds the interrupt line afterwards if and only if it was granted, and enables the tasklet either way |
| E1000Lifetime.CloseSafe | doc/systems/e1000/Linux/mod.c:365-373 | close gives back the interrupt line, disables the tasklet and the device, frees the four live regions once each, then resets, safe throughout |
| E1000Lifetime.SafeAtEveryStep | doc/systems/e1000/Linux/mod.c:129-152 | safety holds after every prefix of a safe run |
| E1000Lifetime.AllFreedIffNoLateFailure | doc/systems/e1000/Linux/mod.c:409-410 | a run that ends down has given everything back if and only if no open failed after allocating |
| E1000Lifetime.RegisterFollowsUpdates | doc/systems/e1000/Linux/e1000_reg_primitive.h:16-38 | short of a reset or a store, a register's value is that of the field updates made to it |
| E1000Lifetime.ControlRegister | doc/systems/e1000/Linux/mod.c:295-324 | init_hw sets ASDE and SLU, clears LRST, PHYRST, ILOS and VMDE, and keeps every other CTRL bit |
| E1000Lifetime.ControlAnyOrder | doc/systems/e1000/Linux/mod.c:295-324 | the order of those calls does not matter |
| E1000Lifetime.OpenProgramsAddress | doc/systems/e1000/Linux/mod.c:527-541 | after open, successful or not, RAL and RAH decode to the six EEPROM bytes, valid |
| E1000Lifetime.OpenProgramsRings | doc/systems/e1000/Linux/mod.c:418-459 | after a successful open the device holds base, length, head and tail of both rings, and the interrupt mask |
| E1000Lifetime.SendSlotAllocated | doc/systems/e1000/Linux/mod.c:439-453 | every send slot lies inside its allocation |
| E1000Lifetime.QueueSizes | doc/systems/e1000/Linux/mod.c:388-442 | the four sizes of init_queue in bytes: 4096, 4096, 8192 and 524288 |
| E1000Lifetime.RecvSlotAllocatedIff | doc/systems/e1000/Linux/mod.c:400-416 | a receive slot lies inside its allocation if and only if it is slot 0 or 1 |
| E1000Registers.OpenSetsControl | doc/systems/e1000/Linux/mod.c:425-465 | after a successful open, bit by bit: RCTL has EN and MPE set and the three size bits clear, TCTL has EN, PSP and the collision threshold set, and all other bits are as before |
| E1000Registers.OpenClearsMulticast | doc/systems/e1000/Linux/mod.c:330-331 | every open, successful or not, leaves the 128 multicast registers zero |
| E1000Registers.OpenClearsFlowControl | doc/systems/e1000/Linux/mod.c:315-318 | and the four flow-control registers zero |
| E1000Registers.EepromRequests | doc/systems/e1000/Linux/mod.c:533-537 | the three words requested are 0, 1 and 2, each with the start bit |
| E1000Registers.OpenPointsSlots | doc/systems/e1000/Linux/mod.c:412-454 | after a successful open the descriptors of each ring point into the buffers allocated for that ring |
| E1000Registers.NamedWhileUp | doc/systems/e1000/Linux/mod.c:129-152 | over every run, while the interface is up the base registers name the rings, and those the buffers, that close will free |
| E1000Registers.CloseResets | doc/systems/e1000/Linux/mod.c:365-373 | after a close every register has its default value |
| E1000Driver.E1000.Open | doc/systems/e1000/Linux/mod.c:129-144 | the code of open performs exactly the operations of OpenOps, tasklet and interrupt set-up included, updates the DMA handles and returns the status |
| E1000Driver.E1000.InitInterrupt | doc/systems/e1000/Linux/mod.c:154-182 | the code of init_interrupt |
| E1000Driver.E1000.InitQueue | doc/systems/e1000/Linux/mod.c:375-470 | the code of init_queue, with its two early returns |
| E1000Driver.E1000.InitControl | doc/systems/e1000/Linux/mod.c:295-324 | the CTRL and flow-control writes of init_hw |
| E1000Driver.E1000.ClearMta | doc/systems/e1000/Linux/mod.c:330-331 | the MTA loop |
| E1000Driver.E1000.ReadAddress | doc/systems/e1000/Linux/mod.c:533-537 | the loop requests words 0, 1 and 2 in turn and fills mac_address with them, low byte first |
| E1000Driver.E1000.SetMacAddress | doc/systems/e1000/Linux/mod.c:527-548 | reads the address and programs RAL, RAH, the valid bit and MPE |
| E1000Driver.E1000.Close | doc/systems/e1000/Linux/mod.c:365-373 | the code of close performs exactly the operations of CloseOps, from free_irq to the reset |
| E1000Driver.OpenStatusOk | doc/systems/e1000/Linux/mod.c:353-361 | open reports success if and only if the mask, all four allocations and the interrupt were granted |
| E1000Driver.StatusTellsFailure | doc/systems/e1000/Linux/mod.c:353-361 | and otherwise it tells which of mask, memory and interrupt was refused |
| MacAddress.ReadEeprom | doc/systems/e1000/Linux/e1000.h:138-146 | the polling loop returns the word, sign-extended by the arithmetic shift |
| MacAddress.SignDoesNotMatter | doc/systems/e1000/Linux/mod.c:535-536 | the two byte masks recover the word's bytes whatever its sign |
| MacAddress.DeviceSeesAddress | doc/systems/e1000/Linux/mod.c:539-541 | decoding RAL and RAH gives the six address bytes and the valid bit |
| Interrupts.CausesConserved | doc/systems/e1000/Linux/mod.c:74-191 | over every run, opens and closes included: the causes read are those of the finished tasklet runs followed by those in waiting_intr, and each run acted on exactly the kinds reported to it |
| Interrupts.NoCauseLost | doc/systems/e1000/Linux/mod.c:74-127 | a cause bit was read if and only if it was answered or is waiting; with no open finding causes waiting, a nonzero word has the tasklet scheduled |
| Interrupts.PromisedIff | doc/systems/e1000/Linux/mod.c:154-191 | a nonzero waiting_intr always has the tasklet scheduled if and only if every open of the run finds the word zero |
| Interrupts.PromiseStep | doc/systems/e1000/Linux/mod.c:154-191 | step by step: an open breaks that exactly when causes wait, and only a handler that reads another cause restores it |
| Interrupts.ReopenStrandsCauses | doc/systems/e1000/Linux/mod.c:154-191 | a concrete run: open, cause, handler, close, open leaves the cause in the word with nothing scheduled |
| Interrupts.TaskletAnswers | doc/systems/e1000/Linux/mod.c:109-126 | a tasklet run answers each kind of event reported since the last run, and no other |
| Interrupts.TaskletActions | doc/systems/e1000/Linux/mod.c:109-126 | for every word, by bit number: a received packet is reported for bits 6 and 7, a sent one for bits 0 and 1, the link for bit 2; the word is then zero |
| Interrupts.WindowLosesUnlessKnown | doc/systems/e1000/Linux/mod.c:112-126 | a handler that runs after j of the tasklet's tests loses nothing if and only if the kinds it reads and the tasklet has tested for are being answered |
| Interrupts.InterruptedActions | doc/systems/e1000/Linux/mod.c:112-126 | the tests come in the order received, sent, link, and a test sees the new causes if and only if the handler came before it |
| Interrupts.WindowLosesAPacket | doc/systems/e1000/Linux/mod.c:112-126 | a concrete loss at every position after the first test |
| Interrupts.Adapter.Handle | doc/systems/e1000/Linux/mod.c:74-96 | the handler's code |
| Interrupts.Adapter.IntrTask | doc/systems/e1000/Linux/mod.c:98-127 | the tasklet's code |
| Interrupts.Adapter.InitInterrupt | doc/systems/e1000/Linux/mod.c:154-182 | what init_interrupt does to tasklet and handler |
| Interrupts.Adapter.UninitInterrupt | doc/systems/e1000/Linux/mod.c:184-191 | what uninit_interrupt does to them |
| E1000System.WholeDriverSafe | doc/systems/e1000/Linux/mod.c:74-373 | in every reachable state of all parts interleaved: enabled rings are backed by live memory, the frames of the current rings go out and come in in order, every cause read is answered or waits, and an interface that is up is enabled, with its handler registered and its tasklet enabled |
| E1000System.CausesPromisedIff | doc/systems/e1000/Linux/mod.c:74-191 | over every run of the whole driver a nonzero waiting_intr always has the tasklet scheduled if and only if no open finds causes waiting |
| E1000System.ReopenKeepsPromiseIff | doc/systems/e1000/Linux/mod.c:154-191 | across one close and open the word is kept and the tasklet unscheduled, so the promise survives if and only if the word was zero |
| E1000System.EverySessionInOrder | doc/systems/e1000/Linux/mod.c:129-272 | for every ring the card ever had: emitted is a prefix of accepted, short of it by the frames pending at the end; delivered is a prefix of received |
| E1000System.CloseLosesPending | doc/systems/e1000/Linux/mod.c:146-152 | from a close to the next open that gets its memory nothing is sent: the frames lost are exactly those pending at the close |
| E1000System.FillsInsideIff | doc/systems/e1000/Linux/mod.c:400-416 | in every reachable state the device has filled only allocated receive slots of the current ring if and only if it has stored at most two frames there |
| E1000System.RegistersMatchRings | doc/systems/e1000/Linux/mod.c:418-459 | a successful open starts both ring models at the heads and tails in the device's registers (not at the lengths: TDLEN is 8192 bytes, see Left out) |
| E1000System.EnabledCausesAreAnswered | doc/systems/e1000/Linux/mod.c:170-175 | the causes enabled at open are exactly those the tasklet answers |
| E1000System.EverythingCanBeSent | doc/systems/e1000/Linux/mod.c:129-225 | whenever the interface is up the device can go on to send all accepted frames |
| Uart.AfterEnvs | doc/systems/linux/rs232_polling/rs232_define.h:4-36 | the line changes no control register and no history of the driver, takes back no received byte and fills no transmitter |
| Uart.Inb | doc/systems/windows/rs232_polling/MySerial/uart.h:13-51 | a port read changes nothing, except that RBR in data mode is consumed |
| Uart.Outb | doc/systems/windows/rs232_polling/MySerial/uart.h:13-51 | a port write goes to the banked register; THR receives it only at port 0 in data mode |
| Uart.LineStatusBits | doc/systems/linux/rs232_polling/rs232_define.h:28-36 | the data-available and transmitter-empty bits tell the truth whatever the other bits are |
| Uart.InbConserves | doc/systems/linux/rs232_polling/rs232.c:26-48 | no port read loses a received or a written byte |
| Uart.OutbConserves | doc/systems/linux/rs232_polling/rs232.c:183 | no port write loses a received byte unless it changes the FIFO mode |
| LinuxSerial.DlabDiscipline | doc/systems/linux/rs232_polling/rs232.c:99-191 | over any run of calls: DLAB clear between calls, THR got exactly the data reported written, what was taken from RBR is what the reads took, delivered or not, in the order of the stream, and the divisor is the one last set |
| LinuxSerial.AfterFirstOpen | doc/systems/linux/rs232_polling/rs232.c:153-191 | the same after an open from any register contents |
| LinuxSerial.ReadsAreTheStream | doc/systems/linux/rs232_polling/rs232.c:26-48 | what arrived is what the reads took from RBR, delivered or not, followed by what waits |
| LinuxSerial.DeliveredStreamIff | doc/systems/linux/rs232_polling/rs232.c:37-48 | what arrived is what the callers of the run were given, followed by what waits, if and only if no read that had memory, room for a byte and a byte to read was given bad user memory |
| LinuxSerial.CallLaw | doc/systems/linux/rs232_polling/rs232.c:99-151 | one call: what it transmits, consumes and does to the divisor, by what it returned |
| LinuxSerial.OpenLaw | doc/systems/linux/rs232_polling/rs232.c:153-191 | open leaves divisor 12, LCR 2, FCR 1, IER 0 and data mode, without transmitting or consuming, counting the reads inside its debug output |
| LinuxSerial.ReadLaw | doc/systems/linux/rs232_polling/rs232.c:11-49 | a read of size at least 1 that ends, delivered or faulted, takes between 1 and size bytes, the next of the stream |
| LinuxSerial.ReadOutcome | doc/systems/linux/rs232_polling/rs232.c:11-49 | how a read ends, by its arguments and the line: no memory; stuck if and only if no byte waits or comes; else its bytes if and only if the copy succeeds, and a fault if and only if it fails; fewer than asked for only when no more wait |
| LinuxSerial.PollEndsIff | doc/systems/linux/rs232_polling/rs232.c:28-29 | the poll ends if and only if a byte waits or is still to come |
| LinuxSerial.WriteOutcome | doc/systems/linux/rs232_polling/rs232.c:53-93 | how a write ends: each refusal with the port untouched, stuck or short only when LSR reads 0 |
| LinuxSerial.IoctlOutcome | doc/systems/linux/rs232_polling/rs232.c:99-151 | what each command returns, and that a refused or unknown one leaves the port untouched |
| LinuxSerial.LineSettingsFollow | doc/systems/linux/rs232_polling/rs232.c:99-191 | over any run LCR is that of open and of the word lengths set since; reads, writes and divisor commands leave it alone |
| LinuxSerial.WordLengthCallBits | doc/systems/linux/rs232_polling/rs232.c:119-124 | LCR after WORDLENGTHSET, bit by bit |
| LinuxSerial.ConfSetCallBits | doc/systems/linux/rs232_polling/rs232.c:133-147 | LCR after CONFSET, bit by bit, and the divisor read back |
| LinuxSerial.Fill | doc/systems/linux/rs232_polling/rs232.c:30-35 | the copy loop takes from RBR exactly what it stores, at most the room there is, and sends nothing |
| LinuxSerial.Send | doc/systems/linux/rs232_polling/rs232.c:84-89 | the transmit loop writes to THR exactly the bytes it counts |
| LinuxSerial.CallKeepsStream | doc/systems/linux/rs232_polling/rs232.c:11-191 | no call makes a received byte disappear other than by reading it from RBR |
| LinuxSerial.WordLengthKeepsDataModeIff | doc/systems/linux/rs232_polling/rs232.c:119-124 | WORDLENGTHSET keeps data mode if and only if bit 7 of its argument is clear |
| LinuxSerial.StrayDlabDivertsData | doc/systems/linux/rs232_polling/rs232.c:82-89 | otherwise, whatever is written and whatever the line does, no byte is sent or lost, and the last one counted is now the low divisor byte |
| LinuxSerial.StrayDlabFakesData | doc/systems/linux/rs232_polling/rs232.c:26-48 | and a read returns copies of the low divisor byte and takes nothing from the stream |
| LinuxSerial.WriteOverrunsIffFull | doc/systems/linux/rs232_polling/rs232.c:82-89 | on a silent line, for all data and every status: with received data or an error pending everything is written and none of it lost if and only if it fits the FIFO; otherwise one byte is written, or the poll never ends, and nothing is lost |
| LinuxSerial.WriteWithRoom | doc/systems/linux/rs232_polling/rs232.c:82-89 | whatever the line does, data that fits the room in the FIFO is not lost |
| LinuxSerial.BaudRoundTrip | doc/systems/linux/rs232_polling/rs232.c:110-132 | the call BAUDRATEGET after BAUDRATESET of d returns d mod 4096, for every d |
| LinuxSerial.BaudGetAfterRun | doc/systems/linux/rs232_polling/rs232.c:125-132 | after any run BAUDRATEGET returns the divisor last set by open, BAUDRATESET or CONFSET, in that form |
| LinuxSerial.BaudAfterOpen | doc/systems/linux/rs232_polling/rs232.c:153-191 | right after open it returns 12 |
| LinuxSerial.DivisorRightIff | doc/systems/linux/rs232_polling/rs232.c:114-117 | the hardware divisor is d mod 65536 if and only if bits 8 to 15 of d are zero |
| LinuxSerial.Rs232.SetReg | doc/systems/linux/rs232_polling/rs232.c:209-227 | setreg's code |
| LinuxSerial.Rs232.PollData | doc/systems/linux/rs232_polling/rs232.c:28-29 | the blocking poll of a read |
| LinuxSerial.Rs232.FillBuffer | doc/systems/linux/rs232_polling/rs232.c:30-35 | the copy loop into the kernel buffer |
| LinuxSerial.Rs232.ReadCall | doc/systems/linux/rs232_polling/rs232.c:11-49 | rs232_read's code with its failure returns |
| LinuxSerial.Rs232.WriteCall | doc/systems/linux/rs232_polling/rs232.c:53-93 | rs232_write's code |
| LinuxSerial.Rs232.SendAll | doc/systems/linux/rs232_polling/rs232.c:84-89 | the transmit loop |
| LinuxSerial.Rs232.OpenCall | doc/systems/linux/rs232_polling/rs232.c:153-191 | rs232_open's code, with the port reads of its debug lines |
| LinuxSerial.Rs232.IoctlCall | doc/systems/linux/rs232_polling/rs232.c:99-151 | rs232_ioctl's code, with the fall-through of CONFSET |
| WindowsSerial.PolledWriteLaw | doc/systems/windows/rs232_polling/MySerial/write.c:31-39 | for every interleaving with the line: no byte finds THR full, wire plus THR is what was written, in order |
| WindowsSerial.PolledWrite | doc/systems/windows/rs232_polling/MySerial/write.c:33-39 | a finished request reports the whole buffer, and one is unfinished only when the schedule has ended with THR still full |
| WindowsSerial.WaitEmpty | doc/systems/windows/rs232_polling/MySerial/write.c:35 | the wait ends with THR empty, or with the schedule over and THR not empty |
| WindowsSerial.WaitEndsIff | doc/systems/windows/rs232_polling/MySerial/write.c:35 | the wait ends if and only if the line still takes as many bytes as THR holds |
| WindowsSerial.NothingLost | doc/systems/windows/rs232_polling/MySerial/write.c:31-39 | over any run of baud, mode and write calls, one after the other: DLAB clear between calls, nothing lost, THR got exactly the data of the requests |
| WindowsSerial.WireCarriesRequests | doc/systems/windows/rs232_polling/MySerial/uart.c:5-12 | after UartInit from any register contents the line carries exactly the data of the requests, one after the other |
| WindowsSerial.DefaultRequestsLose | doc/systems/windows/rs232_polling/MySerial/read.c:50-73 | of n catch-all requests in a row, each a byte 66, those beyond the room in THR are lost if nothing drains meanwhile, and never more |
| ParallelWriters.LossFreeIffDeepEnough | doc/systems/windows/rs232_polling/MySerial/write.c:31-39 | requests being dispatched in parallel (device.c, line 151): every interleaving of n parallel write requests is free of loss if and only if n is at most the depth of THR, 16 or 1 |
| ParallelWriters.FewLoseNothing | doc/systems/windows/rs232_polling/MySerial/write.c:31-39 | for so many requests, over every interleaving, wire plus THR stays what was written |
| ParallelWriters.TooManyLose | doc/systems/windows/rs232_polling/MySerial/write.c:31-39 | for more, from any state of the line, a run that loses a byte |
| WindowsSerial.SetBaudrateLaw | doc/systems/windows/rs232_polling/MySerial/uart.c:58-74 | loads the latch, clears AO2, leaves data mode, and sends and takes no byte |
| WindowsSerial.ZeroRateLaw | doc/systems/windows/rs232_polling/MySerial/uart.c:58-66 | at rate 0 only AO2 has been cleared when the division traps |
| WindowsSerial.LatchLaw | doc/systems/windows/rs232_polling/MySerial/uart.c:66-71 | the latch gets the low 16 bits of 115200 divided by the rate, cut towards zero for negative rates |
| WindowsSerial.SetBaudrateKeepsLine | doc/systems/windows/rs232_polling/MySerial/uart.c:58-74 | every LCR bit but DLAB is unchanged |
| WindowsSerial.LatchExactIff | doc/systems/windows/rs232_polling/MySerial/uart.c:66-71 | for every nonzero rate the latch holds the quotient itself if and only if the rate is at least 2 or below -115200 |
| WindowsSerial.RateBounds | doc/systems/windows/rs232_polling/MySerial/uart.c:66-71 | for 2 <= b <= 115200 the latch d satisfies d*b <= 115200 < (d+1)*b |
| WindowsSerial.SetModeRoundTrip | doc/systems/windows/rs232_polling/MySerial/uart.c:77-104 | for all arguments: rejected with the device untouched, or LCR decodes to the mode asked for, break and DLAB clear |
| WindowsSerial.InitLaw | doc/systems/windows/rs232_polling/MySerial/uart.c:5-12 | from any register contents: latch 1, LCR 3, DTR and RTS set, AO2 clear, other MCR bits kept, no byte moved |
| WindowsSerial.MySerial.UartSetBit | doc/systems/windows/rs232_polling/MySerial/uart.c:40-48 | the code |
| WindowsSerial.MySerial.UartSetBaudrate | doc/systems/windows/rs232_polling/MySerial/uart.c:58-74 | the code; rate 0 traps at the division, after AO2 is cleared |
| WindowsSerial.MySerial.UartSetMode | doc/systems/windows/rs232_polling/MySerial/uart.c:77-104 | the code, with its two error returns |
| WindowsSerial.MySerial.UartInit | doc/systems/windows/rs232_polling/MySerial/uart.c:5-12 | the code |
| WindowsSerial.MySerial.EvtIoWrite | doc/systems/windows/rs232_polling/MySerial/write.c:31-39 | the nested polling and transmit loops |
| ReadBuffer.RefinesQueue | doc/systems/windows/rs232_polling/MySerial/read.c:22-36 | over every run the bytes stored are those gone, by reads or by overflow, in order, then those left |
| ReadBuffer.NothingLostIff | doc/systems/windows/rs232_polling/MySerial/read.c:26-35 | bytes delivered followed by bytes left are all bytes taken from RBR if and only if no copy failed with bytes in hand and no byte met a full buffer (the thread: device.c, lines 13-37) |
| ReadBuffer.ReadTakesPrefix | doc/systems/windows/rs232_polling/MySerial/read.c:26-46 | one read removes a prefix of the length asked for, or all there is, and completes with it if and only if memory and copy were fine |
| ReadBuffer.StoreAppends | doc/systems/windows/rs232_polling/MySerial/device.h:14-25 | the thread puts its byte at the end of the queue, or leaves it alone in it when 4096 were there (device.c, lines 29-33) |
| ReadBuffer.OverflowLosesAll | doc/systems/windows/rs232_polling/MySerial/device.h:14-25 | with no read in between the 4097th byte costs the 4096 before it (device.c, lines 29-33) |
| ReadBuffer.RoundStoresTaken | doc/systems/windows/rs232_polling/MySerial/device.h:14-25 | a round of the thread stores exactly the byte it takes from the received stream, the oldest (device.c, lines 13-37) |
| ReadBuffer.DeviceExtension.StoreByte | doc/systems/windows/rs232_polling/MySerial/device.h:14-25 | the code under the lock, on the array (device.c, lines 29-33) |
| ReadBuffer.DeviceExtension.MemmoveDown | doc/systems/windows/rs232_polling/MySerial/read.c:32 | the overlapping move, in place |
| ReadBuffer.DeviceExtension.EvtIoRead | doc/systems/windows/rs232_polling/MySerial/read.c:18-46 | the code, on the array |
| Ac97.ResourcesConserved | doc/systems/linux/ac97/rtx_ac97.c:54-173 | after any run with any failures: enables minus disables, live cards, live chips and bound devices are equal in number; each device is enabled once or not; each chip is live or freed exactly once; dev_idx in bounds |
| Ac97.AllGivenBack | doc/systems/linux/ac97/rtx_ac97.c:168-173 | in every reachable state with nothing bound there is no card, no chip and no enable left |
| Ac97.RemoveTakesAll | doc/systems/linux/ac97/rtx_ac97.c:168-173 | a remove takes the device's card, chip, enable and binding away, frees the chip once, and leaves every other device's as they were |
| Ac97.RemoveUndoesProbe | doc/systems/linux/ac97/rtx_ac97.c:113-173 | probe then remove leaves nothing but the slot used and the chip freed |
| Ac97.RemovingAllGivesBack | doc/systems/linux/ac97/rtx_ac97.c:168-173 | from every reachable state removing the bound devices, in as many calls, gives everything back |
| Ac97.ProbeBindsIff | doc/systems/linux/ac97/rtx_ac97.c:113-166 | a device is bound to a new card with a new chip, enabled once, if and only if its slot is free and enabled and no kernel call fails; otherwise no card, chip, binding or enable has changed |
| Ac97.ProbeNamesFailure | doc/systems/linux/ac97/rtx_ac97.c:113-166 | a failing probe reports the first kernel call that failed |
| Ac97.ProbeUsesSlot | doc/systems/linux/ac97/rtx_ac97.c:121-155 | no slot left: nothing happens; a disabled slot is skipped; otherwise the slot is used up by success only |
| Ac97.SlotsAreNotReused | doc/systems/linux/ac97/rtx_ac97.c:116-126 | successes and skips never exceed the slots, and probes fail with no device if and only if they are used up |
| Ac97.IndexCountsSlots | doc/systems/linux/ac97/rtx_ac97.c:116-155 | dev_idx counts successful probes and skipped slots, and nothing else |
| Ac97.ChipUndone | doc/systems/linux/ac97/rtx_ac97.c:81-103 | when the low-level device cannot be made, the chip is freed directly, once, and the card's release finds none |
| Ac97.RegistrationUndone | doc/systems/linux/ac97/rtx_ac97.c:146-163 | when registration fails, releasing the card frees its chip once and undoes the enable |
| Ac97.Driver.ProbeDevice | doc/systems/linux/ac97/rtx_ac97.c:113-166 | the code has, on success and on each failure path, the stated net effect |
| Ac97.Driver.MakeCard | doc/systems/linux/ac97/rtx_ac97.c:128-165 | card creation, our chip and registration, undone on failure |
| Ac97.Driver.Create | doc/systems/linux/ac97/rtx_ac97.c:54-104 | rtx_ac97_create with its cleanup |
| Ac97.Driver.Free | doc/systems/linux/ac97/rtx_ac97.c:34-40 | rtx_ac97_free |
| Ac97.Driver.CardFree | doc/systems/linux/ac97/rtx_ac97.c:42-48 | freeing a card runs its chip's destructor |
| Ac97.Driver.RemoveDevice | doc/systems/linux/ac97/rtx_ac97.c:168-173 | rtx_ac97_remove: the card freed with its chip, the binding cleared |
| CharDevice.DeviceStoresString | doc/systems/linux/chardev/userland_interface.c:1-8 | over every run whose resizes fit, the device is a string variable: the last accepted string, overwritten as far as later faulting writes got, empty after a flush, the new memory after a resize; and a read of n gives its first n bytes |
| CharDevice.ContentPersists | doc/systems/linux/chardev/userland_interface.c:71-127 | after a write of s, through any opens, reads, queries, over-long writes and refused flushes, a read of n returns s[..min(n, \|s\|)] |
| CharDevice.AlwaysSafe | doc/systems/linux/chardev/userland_interface.c:58-115 | over every run whose resizes succeed with at least the stored size: size <= tsize < capacity, and no access leaves the buffer |
| CharDevice.ResizeSafeIff | doc/systems/linux/chardev/userland_interface.c:58-69 | a resize keeps that invariant if and only if the memory is granted and the new size is at least the stored size |
| CharDevice.ShrinkThenReadCrashes | doc/systems/linux/chardev/userland_interface.c:58-90 | a concrete failing resize |
| CharDevice.StepStores | doc/systems/linux/chardev/userland_interface.c:58-115 | one operation: stored string and size limit afterwards, what a read returns, and when a write faults |
| CharDevice.StepReturns | doc/systems/linux/chardev/userland_interface.c:30-127 | what every operation returns, and that a successful write is followed by a zero byte |
| CharDevice.FlushEmpties | doc/systems/linux/chardev/userland_interface.c:45-50 | after a permitted flush every read returns nothing; a refused one changes nothing |
| CharDevice.SizeRoundTrip | doc/systems/linux/chardev/userland_interface.c:39-44 | the size reported is the size last set, for what fits an int |
| CharDevice.RefusedResizeCrashes | doc/systems/linux/chardev/userland_interface.c:58-69 | after a resize without memory every read and every write within the old size follows a null pointer |
| CharDevice.FaultingWriteHarmlessIff | doc/systems/linux/chardev/userland_interface.c:100-110 | a write that faults leaves exactly the bytes copied over the front of the string; that is the old string if and only if it was refused for its length or the bytes are those already there |
| CharDevice.HalfWriteChangesString | doc/systems/linux/chardev/userland_interface.c:105-110 | a concrete faulting write that changes it |
| CharDevice.ResizeKeepsStringIff | doc/systems/linux/chardev/userland_interface.c:58-69 | a resize keeps the stored string for every content of the new memory if and only if the string is empty |
| CharDevice.MyDev.constructor | doc/systems/linux/chardev/userland_interface.c:134-142 | the initial device |
| CharDevice.MyDev.ReadCall | doc/systems/linux/chardev/userland_interface.c:71-90 | the code, with the unsigned comparison |
| CharDevice.MyDev.WriteCall | doc/systems/linux/chardev/userland_interface.c:92-115 | the code, in place |
| CharDevice.MyDev.SetSizeCall | doc/systems/linux/chardev/userland_interface.c:58-69 | the code, with the old buffer freed and the new one the only one held |
| CharDevice.MyDev.FlushCall | doc/systems/linux/chardev/userland_interface.c:45-50 | the code |
| GenerateOptions.ParseOptions | rathaxes/compiler/rathaxes.cws:44-68 | succeeds if and only if every /o has a value not starting with a slash; then leaves the list without its pairs, in order, and the last pair's value |
| GenerateOptions.WellFormedMeans | rathaxes/compiler/rathaxes.cws:51-60 | the condition in full: each /o is followed by an argument that is empty or begins with another character than a slash |
| GenerateOptions.PairMayStandAnywhere | rathaxes/compiler/rathaxes.cws:94-101 | inserting a pair between whole arguments does not change what is left |
| GenerateOptions.TargetAndInputFixed | rathaxes/compiler/rathaxes.cws:94-101 | so the element at each position of what is left, target system and input file among them, is the same wherever a pair stands |
| GenerateOptions.LastPairWins | rathaxes/compiler/rathaxes.cws:51-58 | with several pairs the last names the output |
| GenerateOptions.RemoveElement | rathaxes/compiler/rathaxes.cws:66-67 | removal by key keeps the order of the rest |

## Left out

- Text output (printk, KdPrint, e1000_print_status): it has no effect on state; port reads made inside debug lines are modelled.
- Kernel and framework registration (cdev, PCI driver tables, WDF queues, ALSA internals): foreign code, represented by its answers.
- The byte layout of the transmit descriptor: descriptors are records; the struct in e1000.h is not the 16 bytes the device expects, and TDLEN, 8192 bytes, makes 512 of those where the driver's tail wraps at 256. The ring theorems are for a device that steps as the driver does.
- Receive buffers as bytes: slots hold whole frames, because most of them lie outside the allocation (RecvSlotAllocatedIff).
- E1000System.WholeDriverSafe: each open and close is one step there, so what a device already enabled by a failed open does between two register writes of a retry is covered for memory safety only (EnabledImpliesLive).
- Liveness of busy-wait loops: it needs a fairness assumption on the hardware; a poll ends with the schedule.
- Receiver overrun in the UART: the receive queue is unbounded, so the stream theorems are for schedules without overrun.
- TransmitRing.SendQueue.StartXmit: counts the bytes copied past the end of the DMA buffer and does not model what they overwrite there.
- WindowsSerial.NothingLost: does not cover requests running in parallel; ParallelWriters.LossFreeIffDeepEnough does, for the loss of bytes and not for the order between requests.
- WindowsSerial.WireCarriesRequests: the same.
- What happens after a division by a baud rate of 0: the run theorems let the run go on, the machine stops.
- EvtIoWrite's early return when the request has no memory: it touches nothing.
- The copy of uninitialised kernel memory past the bytes read in rs232_read: only the bytes counted in the return value are modelled.
- probe, register_hw and remove of the e1000 driver: straight-line registration.
- OpenBSD drivers, hello modules, Windows pnp.c and ioctl.c: stubs or constant replies.
- The compiler passes called from rathaxes.cws: their sources are not part of this model.
