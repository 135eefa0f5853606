# Verified model of the megaTinyCore serial driver, pin interrupts, bootloader and tone

A Dafny model of the interrupt-driven and byte-level parts of the megaTinyCore Arduino core for tinyAVR, with proofs of
what they keep over every run. `dafny verify dfyconfig.toml` checks all of it.

- **Assembly against C.** `Avr.dfy` gives meaning to the instructions that the core's hand-written interrupt routines use
  (AVR Instruction Set Manual, DS40002198, entries of the same names), one instruction at a time with a program counter.
  `SerialDre`, `SerialRxc`, `SerialTxc`, `PinIsr` and `PinIsrEarly` hold the routines instruction by instruction and prove that each does what its
  C form does and restores the interrupted program; `SerialRegisters` says what that is bit for bit. `SerialObject` is the layout of a `HardwareSerial` object and the C handlers on memory.
- **The transmitter as a protocol.** `SerialTx` is a machine of small steps: the foreground program makes one access to a shared
  index or register a step; DRE, TXC and RXC handlers run to completion between any two of them (RXC before DRE before TXC); a
  clock moves bytes from data register to shift register to wire. Its histories (asked, accepted, wire, heard) state what the driver is for.
  `SerialPort` is the class, in the form of the source, with arbitrary interference between its accesses. `SerialLink` closes the chain
  from assembly over C on memory to the steps of the protocol.
- **The receiver.** `SerialRx` and `SerialReceiver`, in the same two forms; `SerialStatus` for the error record.
- **Pin interrupts.** `PinInterrupts` is attach and detach; `PinLoop` the dispatcher's loop in C and in assembly, `PinIsr`
  and `PinIsrEarly` its late-clear and early-clear forms from vector to RETI, `PinHandlers` dispatch to handlers that attach and detach.
- **Optiboot.** `Optiboot` is what one received byte makes the command loop do, `OptibootRuns` what it does with whole streams
  (STK500 version 1, Atmel application note AVR061), `OptibootImage` and `OptibootBytes` programming and reading back, `OptibootLoop` the loop with getch, putch,
  getNch and verifySpace as written, `OptibootReset` the decision on the reset flags.
- **Tone, begin and baud rate.** `Tone`, `TonePlayer`, `SerialBegin`, `Baud`; `Ring` and `Bits` are shared.

Granularity and limits of the transmitter, written out in `SerialTx.Timely` and shown to be needed in `SerialTxLimits`:

1. Inside the publish window, between storing the head (UART.cpp:804) and setting DREIE (805-814), DRE does not drain the ring. The first
   activation in the window is always harmless (`FirstActivationIsHarmless`); a second one needs the window to last for a frame.
   `WindowLimit` shows that the limit is exact, `SentTwice` what follows beyond it, `SecondActivationIsReachable` calls that get there.
2. Clearing TXCIF and the store to TXDATAL count as one step with respect to the end of the last frame; in half duplex the CTRLA write between
   them does, too. `StartLimit` shows that this is exact at both points, `FlushTooEarly` and, in half duplex, `OwnByteIsHeard` what follows
   otherwise, `LateStoreIsReachable` and `LateSwitchIsReachable` calls that get there.
3. An echo is in the receive FIFO no later than TXCIF is set.

Findings where code and documentation part:

- tone: a half period of exactly 0x10000 clock cycles selects the divided clock with a shift count of -1, which C does not define
  (`Tone.StumblesExactly`). No frequency has it at the clocks that boards.txt offers; it takes one such as 2^24 Hz. Frequencies below about
  clock / 0x1000202 come out too high (`Tone.AccurateFrequencies`).
- tone: if the last interrupt of the tone before is pending as tone stops the timer, it erases the divided clock just selected, and the new tone is
  an octave high (`TonePlayer.PendingIsBefore`, `TwoCallsAnOctaveHigh`). The comment at Tone.cpp:211-212 calls this interrupt no problem.
- tone: a tone of N toggles is toggled N + 1 times (the pin is then set LOW), and the count is wrong when frequency times duration does not fit in 32 bits.
- Optiboot: PROG_PAGE and READ_PAGE leave a mapped address behind, so that the automatic increment of AVR061 cannot be used across commands
  (`OptibootImage.AddressDoesNotCarryOver`, `AddressIsNotThereToReadOn`).
- attachInterrupt to a pin that already interrupts stores the entry in two bytes with interrupts on (`PinInterrupts.MixedExactly`); detachInterrupt
  computes the address of the pending flag right for port A only (`FlagClearedExactly`).
- write's `_state |= 1` is a load and a store with interrupts on: errors that RXC notes in between are overwritten and never reported
  (`SerialStatus.LostInWrite`, `ReportMisses`). getStatus likewise clears errors noted while it runs (`SerialStatus.ErrorsInBetween`).
- Optiboot: a brown-out alone starts the application at once; only power-on, external, software and UPDI resets start a session.

## Model

| member | source | states |
|---|---|---|
| `SerialDre.DreInterrupt` | megaavr/cores/megatinycore/UART.cpp:303-388 | The DRE interrupt in assembly, from its vector to RETI, for every object address, buffer sizes of 16 to 256 and state: memory and registers are what the C handler makes of them (store order included), and every CPU register, SREG and the stack are as they were |
| `SerialDre.PollDre` | megaavr/cores/megatinycore/UART.cpp:314-374 | The same code entered by the poll with T clear: the effect of the C handler, out by the poll's exit, with Y, the stack and every register that the poll does not declare clobbered intact |
| `SerialDre.BrtsDisplacement` | megaavr/cores/megatinycore/UART.cpp:369-375 | The hand-counted `brts` skips exactly the jump behind it, of two words or of one |
| `SerialRxc.RxcInterrupt` | megaavr/cores/megatinycore/UART.cpp:173-254 | The RXC interrupt in assembly on all its three paths, with and without the start-frame workaround: the ring and head of the C handler, the errors collected in `_state`, everything else restored |
| `SerialRxc.StateBits` | megaavr/cores/megatinycore/UART.cpp:194-198 | Bit by bit: overflow, framing and parity bits enter `_state` one place up, bit 6 is set exactly when a byte without parity error meets a full ring, the other bits stay |
| `SerialTxc.TxcInterrupt` | megaavr/cores/megatinycore/UART.cpp:90-128 | The TXC interrupt in assembly does what its C form does for any number of frames waiting, ends, and restores everything |
| `SerialTxc.LoopRuns` | megaavr/cores/megatinycore/UART.cpp:102-106 | However many frames wait, the flush loop ends with none |
| `SerialTxc.SwitchOrder` | megaavr/cores/megatinycore/UART0.cpp:78-80 | Turning TXCIE off before RXCIE on gives the CTRLA that the opposite order of the C form gives |
| `SerialRegisters.DreRegisters` | megaavr/cores/megatinycore/UART.cpp:303-388 | The world after the DRE interrupt, outright: the byte at the tail in TXDATAL, TXCIF clear before it, bit 5 of CTRLA clear if it was the last one, the tail its successor, and every other bit, register and byte of memory unchanged; the stores in order |
| `SerialRegisters.PollRegisters` | megaavr/cores/megatinycore/UART.cpp:314-374 | The same after the entry by the poll |
| `SerialRegisters.TxcRegisters` | megaavr/cores/megatinycore/UART.cpp:90-128 | After the TXC interrupt: FIFO empty, bit 7 of CTRLA set, bit 6 clear, everything else unchanged |
| `SerialRegisters.RxcRegisters` | megaavr/cores/megatinycore/UART.cpp:173-254 | After the RXC interrupt: one frame taken, its byte stored at the head unless it has a parity error or the ring is full, its errors added to `_state` bit by bit, bit 4 of CTRLB clear exactly with the workaround, everything else unchanged |
| `SerialObject.NextIsSuccessor` | megaavr/cores/megatinycore/UART.cpp:413-413 | `(i + 1) & (SIZE - 1)` is the successor modulo the size for each supported size |
| `SerialLink.DreHandler` | megaavr/cores/megatinycore/UART.cpp:392-421 | The C handler on memory, seen as ring and USART, is the DRE step of the protocol machine |
| `SerialLink.TxcHandler` | megaavr/cores/megatinycore/UART0.cpp:70-82 | The C transmit-complete handler on registers is the TXC step |
| `SerialLink.RxcHandler` | megaavr/cores/megatinycore/UART.cpp:261-285 | The C receive handler on memory is the RXC step of the receiver |
| `SerialLink.DreAssembly` | megaavr/cores/megatinycore/UART.cpp:303-388 | End to end: the DRE assembly takes memory that holds a protocol state to memory that holds the state after the DRE step |
| `SerialLink.PollAssembly` | megaavr/cores/megatinycore/UART.cpp:314-374 | End to end for the entry by the poll |
| `SerialLink.TxcAssembly` | megaavr/cores/megatinycore/UART.cpp:90-128 | End to end for the TXC assembly |
| `SerialLink.RxcAssembly` | megaavr/cores/megatinycore/UART.cpp:173-254 | End to end for the RXC assembly, with or without the start-frame workaround |
| `SerialTx.StepKeeps` | megaavr/cores/megatinycore/UART.cpp:392-479 | Every step of the interleaving (an access of the foreground program, an interrupt, a hardware clock) keeps the whole invariant: conservation, DREIE, TXCIF, the half-duplex switch |
| `SerialTx.RunKeeps` | megaavr/cores/megatinycore/UART.cpp:392-479 | ... and so it holds at every point of every run from a clean start |
| `SerialTx.NothingIsLost` | megaavr/cores/megatinycore/UART.cpp:761-816 | In every run: what write was asked to send == wire ++ shift register ++ data register ++ ring ++ the byte in write's hand, in this order, short cut or not |
| `SerialTx.DreNeverFindsTheRingEmpty` | megaavr/cores/megatinycore/UART.cpp:396-420 | In every run the DRE handler, which does not check, runs only on a ring that is not empty, and outside of the publish window DREIE is on if and only if bytes wait |
| `SerialTx.FlushHasSentAll` | megaavr/cores/megatinycore/UART.cpp:730-758 | In every run, when flush leaves its loop every byte ever written is on the wire |
| `SerialTx.LeavingMeansSent` | megaavr/cores/megatinycore/UART.cpp:749-757 | The step that leaves flush finds ring, data register and shift register empty |
| `SerialTx.OwnBytesAreNeverHeard` | megaavr/cores/megatinycore/UART.cpp:768-778 | Half duplex, every run: exactly one of RXCIE and TXCIE is on, and no byte this port sent is ever taken by RXC |
| `SerialTx.TickKeeps` | megaavr/cores/megatinycore/UART.cpp:407-411 | A hardware clock keeps the invariant: bytes move from data to shift register to wire, TXCIF rises only when both are empty |
| `SerialTx.DreConserves` | megaavr/cores/megatinycore/UART.cpp:405-420 | The DRE handler moves the first waiting byte and nothing else |
| `SerialTx.DreKeeps` | megaavr/cores/megatinycore/UART.cpp:392-421 | ... and keeps the invariant wherever it may run |
| `SerialTx.EventsOnlyTake` | megaavr/cores/megatinycore/UART.cpp:392-421 | No interrupt or clock ever adds a byte to the ring |
| `SerialTx.FramesAreTaken` | megaavr/cores/megatinycore/UART.cpp:261-285 | RXC takes one frame, the first one; only the transmit-complete handler drops any |
| `SerialTx.PollKeeps` | megaavr/cores/megatinycore/UART.cpp:425-479 | Polling keeps it, with interrupts on or off |
| `SerialTx.ShortCutKeeps` | megaavr/cores/megatinycore/UART.cpp:767-795 | The accesses of write's short cut keep it |
| `SerialTx.PutConserves` | megaavr/cores/megatinycore/UART.cpp:803-803 | Writing the slot at the head changes nothing that waits |
| `SerialTx.PublishConserves` | megaavr/cores/megatinycore/UART.cpp:804-804 | Advancing the head appends exactly the byte in hand |
| `SerialTx.WindowKeeps` | megaavr/cores/megatinycore/UART.cpp:805-814 | The accesses between publication and DREIE keep it |
| `SerialTx.FlushKeeps` | megaavr/cores/megatinycore/UART.cpp:734-749 | The tests of flush keep it |
| `SerialTx.WaitingNeverLosesGround` | megaavr/cores/megatinycore/UART.cpp:749-754 | While write waits for room or flush for the end, no step of any kind adds work |
| `SerialTx.WaitingCanAlwaysGoOn` | megaavr/cores/megatinycore/UART.cpp:425-448 | ... and while work is left, the step that depends on where the bytes are (DRE, poll or clock) removes some |
| `SerialTx.PollGoesOn` | megaavr/cores/megatinycore/UART.cpp:425-448 | After a poll either interrupts will go on, or a byte is in the data register, or none waits |
| `SerialTx.NoWorkMeansAllSent` | megaavr/cores/megatinycore/UART.cpp:749-757 | No work is left exactly when everything is on the wire |
| `SerialTx.NothingLeftEndsFlush` | megaavr/cores/megatinycore/UART.cpp:749-757 | With no work left flush returns in two accesses |
| `SerialTxLimits.WindowLimit` | megaavr/cores/megatinycore/UART.cpp:804-814 | At every state of the invariant a DRE activation inside the publish window is harmless if and only if two bytes wait |
| `SerialTxLimits.FirstActivationIsHarmless` | megaavr/cores/megatinycore/UART.cpp:804-814 | If DREIE is on as the head is stored, two bytes wait from then on: the first activation in the window is always harmless, whether the data register was free before or becomes free inside |
| `SerialTxLimits.SentTwice` | megaavr/cores/megatinycore/UART.cpp:396-420 | What a second activation leads to: write returns, and as soon as the data register is free the handler runs on the empty ring; one byte more than asked for is on its way, the ring counts a full load of sent bytes as waiting, and DREIE stays on |
| `SerialTxLimits.DreOnAnEmptyRing` | megaavr/cores/megatinycore/UART.cpp:396-405 | The handler on an empty ring sends the stale byte at the tail behind everything asked for and makes the ring look full |
| `SerialTxLimits.SecondActivationIsReachable` | megaavr/cores/megatinycore/UART.cpp:761-816 | For every ring of four or more bytes and every frame length, four calls of write reach such a state by timely steps, the last call held up for two frames between the head and DREIE |
| `SerialTxLimits.StartLimit` | megaavr/cores/megatinycore/UART.cpp:768-778 | A clock between clearing TXCIF and the store, before or after the CTRLA write of half duplex, is harmless if and only if it does not complete the last frame |
| `SerialTxLimits.FlushTooEarly` | megaavr/cores/megatinycore/UART.cpp:768-778 | If it does, flush returns with the byte still in the data register |
| `SerialTxLimits.ListensTooEarly` | megaavr/cores/megatinycore/UART.cpp:90-128 | ... and in half duplex with interrupts on TXC runs before the store and turns the receiver on |
| `SerialTxLimits.OwnByteIsHeard` | megaavr/cores/megatinycore/UART.cpp:768-778 | ... so that one frame later RXC takes the port's own byte |
| `SerialTxLimits.LateStoreIsReachable` | megaavr/cores/megatinycore/UART.cpp:761-795 | Three calls of write reach the state that these lemmas speak of at the store, in either duplex mode |
| `SerialTxLimits.LateSwitchIsReachable` | megaavr/cores/megatinycore/UART.cpp:768-778 | ... and at the CTRLA write of half duplex |
| `SerialPort.HardwareSerial.TxDataEmptyIrq` | megaavr/cores/megatinycore/UART.cpp:392-421 | The handler as written, in place: the DRE step |
| `SerialPort.HardwareSerial.PollTxDataEmpty` | megaavr/cores/megatinycore/UART.cpp:425-479 | The poll as written: the DRE step, DREIE off, or nothing |
| `SerialPort.HardwareSerial.TransmitComplete` | megaavr/cores/megatinycore/UART0.cpp:70-82 | The TXC handler with its loop: the TXC step |
| `SerialPort.HardwareSerial.Happens` | megaavr/cores/megatinycore/UART.cpp:392-479 | One interrupt or hardware event is one step of the machine |
| `SerialPort.HardwareSerial.Interfere` | megaavr/cores/megatinycore/UART.cpp:425-479 | Any number of them keeps the invariant, leaves the foreground program's data alone and adds no work |
| `SerialPort.HardwareSerial.Write` | megaavr/cores/megatinycore/UART.cpp:761-816 | write, with interference between any two accesses: terminates, and the byte is accepted after all earlier ones |
| `SerialPort.HardwareSerial.NothingWaits` | megaavr/cores/megatinycore/UART.cpp:767-767 | The condition of the short cut, evaluated access by access |
| `SerialPort.HardwareSerial.StoreAtOnce` | megaavr/cores/megatinycore/UART.cpp:768-795 | The short cut in full and half duplex |
| `SerialPort.HardwareSerial.StoreData` | megaavr/cores/megatinycore/UART.cpp:778-778 | The store to TXDATAL is the step that accepts the byte |
| `SerialPort.HardwareSerial.StoreInRing` | megaavr/cores/megatinycore/UART.cpp:796-815 | The buffered path |
| `SerialPort.HardwareSerial.AwaitRoom` | megaavr/cores/megatinycore/UART.cpp:800-802 | The wait on a full ring ends, with interrupts enabled or not |
| `SerialPort.HardwareSerial.Enqueue` | megaavr/cores/megatinycore/UART.cpp:803-814 | Slot, head, DREIE, in this order |
| `SerialPort.HardwareSerial.AdvanceHead` | megaavr/cores/megatinycore/UART.cpp:804-804 | The store to the head is the step that accepts the byte |
| `SerialPort.HardwareSerial.EnableSending` | megaavr/cores/megatinycore/UART.cpp:805-814 | DREIE on, and in half duplex the receiver off |
| `SerialPort.HardwareSerial.Flush` | megaavr/cores/megatinycore/UART.cpp:730-758 | flush terminates for any interference and on return everything asked for is on the wire |
| `SerialPort.HardwareSerial.FlushWritten` | megaavr/cores/megatinycore/UART.cpp:749-755 | Its loop |
| `SerialPort.HardwareSerial.TimePasses` | megaavr/cores/megatinycore/UART.cpp:749-755 | What each turn of a wait loop assumes of time: an interrupt that can run does, or a clock goes by |
| `SerialPort.HardwareSerial.End` | megaavr/cores/megatinycore/UART.cpp:676-691 | end disables the USART only after everything is on the wire |
| `SerialPort.HardwareSerial.Begin` | megaavr/cores/megatinycore/UART.cpp:545-605 | begin of a closed port: the receiver's interrupt on, half duplex recorded |
| `SerialPort.HardwareSerial.AvailableForWrite` | megaavr/cores/megatinycore/UART.cpp:716-728 | The free places of the ring at some moment during the call: between those at the call and those at the return, as DRE may run between the two reads |
| `SerialPort.HardwareSerial.SetInterrupts` | megaavr/cores/megatinycore/UART.cpp:425-436 | The program turns interrupts off and on between its calls, a step of the machine; with them off the polls send |
| `Ring.MaskIsNext` | megaavr/cores/megatinycore/UART.cpp:413-413 | The masked increment is the next index for every power of two |
| `Ring.ContentsLength` | megaavr/cores/megatinycore/UART.cpp:796-800 | Empty is head == tail, full is head one behind tail, at SIZE - 1 bytes |
| `Ring.Push` | megaavr/cores/megatinycore/UART.cpp:803-804 | Store and advance append one byte |
| `Ring.Pop` | megaavr/cores/megatinycore/UART.cpp:405-420 | Advancing the tail takes the first byte |
| `SerialRx.RxcAppends` | megaavr/cores/megatinycore/UART.cpp:261-285 | RXC stores exactly the bytes without parity error that find room, behind the others, and never touches an unread slot |
| `SerialRx.RunKeeps` | megaavr/cores/megatinycore/UART.cpp:697-714 | Every interleaving of RXC with the single accesses of read and peek keeps the ring and what the program has read of it valid |
| `SerialRx.DeliveredInOrder` | megaavr/cores/megatinycore/UART.cpp:705-714 | In every run: bytes delivered ++ bytes waiting == bytes stored, at most SIZE - 1 waiting |
| `SerialRx.AnswersAreTheOldest` | megaavr/cores/megatinycore/UART.cpp:697-714 | A byte that read or peek answers is the oldest undelivered one; only read delivers it |
| `SerialRx.CountOf` | megaavr/cores/megatinycore/UART.cpp:693-695 | The masked difference of available is the number of bytes waiting |
| `SerialReceiver.Receiver.RxCompleteIrq` | megaavr/cores/megatinycore/UART.cpp:261-285 | The C handler in place is the RXC step |
| `SerialReceiver.Receiver.Read` | megaavr/cores/megatinycore/UART.cpp:705-714 | read under interference: the first waiting byte, delivered once; -1 only if none waited at the call |
| `SerialReceiver.Receiver.Deliver` | megaavr/cores/megatinycore/UART.cpp:709-712 | Its three accesses to buffer and tail |
| `SerialReceiver.Receiver.Peek` | megaavr/cores/megatinycore/UART.cpp:697-703 | peek: the same byte, not delivered |
| `SerialReceiver.Receiver.Available` | megaavr/cores/megatinycore/UART.cpp:693-695 | A count between that at the call and that at the return |
| `SerialStatus.ReportsWhatIsNew` | megaavr/cores/megatinycore/HardwareSerial.h:461-476 | getStatus reports an error if and only if one of its kind was received since the last report outside of the load and store of a write, and the autobaud state beside it |
| `SerialStatus.StateBits` | megaavr/cores/megatinycore/UART.cpp:194-198 | A bit of `_state` is set exactly while such an error is unreported, whatever writes and reports are interleaved |
| `SerialStatus.LowStateBits` | megaavr/cores/megatinycore/HardwareSerial.h:404-417 | Bit 0 is set exactly once the port was written to, bit 1 stays as begin left it, whatever is reported or received |
| `SerialStatus.NoneAfterReport` | megaavr/cores/megatinycore/HardwareSerial.h:415-415 | No error bit survives a report |
| `SerialStatus.LostInWrite` | megaavr/cores/megatinycore/UART.cpp:762-762 | What an interrupted `_state /= 1` loses: a bit is other than with RXC before the load if and only if RXC found an error of its kind in between and none was on record |
| `SerialStatus.ReportMisses` | megaavr/cores/megatinycore/UART.cpp:762-762 | So the report is wrong about errors since the last one if and only if all of the kind came inside of writes |
| `SerialStatus.NothingInside` | megaavr/cores/megatinycore/UART.cpp:762-762 | ... which cannot be if RXC interrupts no write at that point |
| `SerialStatus.ParityErrorIsMissed` | megaavr/cores/megatinycore/UART.cpp:762-762 | An input: one write, one parity error inside of it, never reported |
| `SerialStatus.Port.RecordWrite` | megaavr/cores/megatinycore/UART.cpp:762-762 | The load and the store in place, with RXC between them: bit 0 is set, the others are as loaded |
| `SerialStatus.Port.Note` | megaavr/cores/megatinycore/UART.cpp:194-198 | RXC's change of the record |
| `SerialStatus.RxcNotes` | megaavr/cores/megatinycore/UART.cpp:194-198 | The record modelled here is the one the RXC assembly writes |
| `SerialStatus.AutobaudBits` | megaavr/cores/megatinycore/HardwareSerial.h:465-474 | The two autobaud bits, from CTRLB and STATUS |
| `SerialStatus.Port.GetStatus` | megaavr/cores/megatinycore/HardwareSerial.h:404-417 | getStatus in place with RXC between its two reads of `_state`: the report of the first read, everything noted by then cleared and the two low bits kept, ISFIF cleared exactly after a bad sync |
| `SerialStatus.ErrorsInBetween` | megaavr/cores/megatinycore/HardwareSerial.h:404-417 | What RXC notes between the two reads is cleared unreported: lost exactly for the kinds that the answer does not show |
| `PinIsr.AttachedIsr` | megaavr/cores/megatinycore/WInterrupts.c:113-200 | The dispatcher in assembly for every port, flag byte and table: the same handlers in the same order with the same effect as the old C loop, flags cleared, the interrupted context restored, given handlers that keep the ABI; its loads are exactly the table pointer, the flags and the entries of the set flags |
| `PinIsr.FlagsReadAreCleared` | megaavr/cores/megatinycore/WInterrupts.c:167-170 | At the end exactly the flags read on entry are cleared: a pin that changes again meanwhile is not called again |
| `PinIsr.OnlyFlagsAreCleared` | megaavr/cores/megatinycore/WInterrupts.c:167-170 | Apart from that the world is as the handlers left it |
| `PinIsrEarly.AttachedIsr` | megaavr/cores/megatinycore/WInterrupts.c:203-282 | The early-clear form of the dispatcher: flags written back first, the same calls and the same loads, RAMPZ and the rest restored |
| `PinIsrEarly.FlagsRaisedSinceAreKept` | megaavr/cores/megatinycore/WInterrupts.c:238-239 | In this form no flag is cleared after the first handler runs |
| `PinIsrEarly.RampzIsRestored` | megaavr/cores/megatinycore/WInterrupts.c:203-282 | RAMPZ is what it was at the interrupt; apart from it the world is as the handlers left it |
| `PinLoop.LoopRuns` | megaavr/cores/megatinycore/WInterrupts.c:154-167 | The shifting loop from any bit on equals the C loop from there and ends past the last flag; its loads, in order, are exactly the entries of the set flags |
| `PinLoop.EntriesReadAre` | megaavr/cores/megatinycore/WInterrupts.c:154-167 | A byte of the table is loaded if and only if it belongs to an entry whose flag is set |
| `PinLoop.NoEntryPastTheLastFlag` | megaavr/cores/megatinycore/WInterrupts.c:158-158 | ... so none at or past the place where the shifted flags are zero |
| `PinLoop.IsrLoadsAre` | megaavr/cores/megatinycore/WInterrupts.c:113-200 | Of the whole dispatcher: outside of I/O and of the pointer to the table only such bytes are loaded |
| `PinLoop.CallsAreTheSetHandlers` | megaavr/cores/megatinycore/WInterrupts.c:480-510 | The calls are exactly the non-null handlers of the set flags, once each, in ascending order |
| `PinLoop.BrcsDisplacement` | megaavr/cores/megatinycore/WInterrupts.c:157-161 | The hand-counted `brcs` skips exactly three instructions |
| `PinLoop.NothingLeft` | megaavr/cores/megatinycore/WInterrupts.c:158-158 | Leaving the loop when the shifted flags are zero skips nothing |
| `PinInterrupts.Dispatcher.AttachInterrupt` | megaavr/cores/megatinycore/WInterrupts.c:78-111 | attachInterrupt in place: the entry and then only the ISC bits of that pin, so that the pin raises its flag on just the levels the mode stands for; or nothing. No pin ever interrupts without a function |
| `PinInterrupts.Dispatcher.DetachInterrupt` | megaavr/cores/megatinycore/WInterrupts.c:286-297 | detachInterrupt: the ISC bits first, the write to the computed flag address, the entry last |
| `PinInterrupts.Dispatcher.SetEntry` | megaavr/cores/megatinycore/WInterrupts.c:102-102 | The entry in two byte stores with interrupts on, in either order: after the second one the table holds the function attached most recently |
| `PinInterrupts.Dispatcher.StoreOneByte` | megaavr/cores/megatinycore/WInterrupts.c:102-102 | Between the two stores the entry of this pin is the mixture of both functions, and everything else is valid |
| `PinInterrupts.Dispatcher.StoreOtherByte` | megaavr/cores/megatinycore/WInterrupts.c:102-102 | The second store completes it, for attach and detach |
| `PinInterrupts.MixedExactly` | megaavr/cores/megatinycore/WInterrupts.c:102-102 | The mixture is the old or the new function if and only if these share a byte |
| `PinInterrupts.EntryIsCalled` | megaavr/cores/megatinycore/WInterrupts.c:154-167 | A pin that interrupts between the stores calls what the entry holds, the mixture |
| `PinInterrupts.FlagClearedExactly` | megaavr/cores/megatinycore/WInterrupts.c:295-295 | Of the flags of its port a detach clears that of its pin if that is port A, and none if it is another port |
| `PinInterrupts.Dispatcher.SetIsc` | megaavr/cores/megatinycore/WInterrupts.c:104-109 | Only the ISC field changes, and only where there is a function |
| `PinInterrupts.Dispatcher.SenseOff` | megaavr/cores/megatinycore/WInterrupts.c:294-294 | The pin no longer interrupts; the other bits stay |
| `PinInterrupts.Dispatcher.ClearEntry` | megaavr/cores/megatinycore/WInterrupts.c:296-296 | The entry is cleared, in two byte stores, when the pin no longer interrupts |
| `PinInterrupts.Dispatcher.ClearFlag` | megaavr/cores/megatinycore/WInterrupts.c:295-295 | The write to the flag register, at 16 * port + 3 |
| `PinInterrupts.Dispatcher.EnablePort` | megaavr/cores/megatinycore/WInterrupts_PA.c:12-14 | Installing the table of a port changes no entry |
| `PinInterrupts.IscReplaced` | megaavr/cores/megatinycore/WInterrupts.c:107-108 | `& 0xF8`, `/ mode` replaces exactly the low three bits |
| `PinInterrupts.ModeSelects` | megaavr/cores/megatinycore/WInterrupts.c:84-98 | CHANGE raises the flag on any change of level, RISING on a rise, FALLING on a fall, LOW while the level is low, and on nothing else |
| `PinInterrupts.InterruptingExactly` | megaavr/cores/megatinycore/WInterrupts.c:84-98 | The ISC values for which a pin counts as interrupting are those that raise the flag on some levels |
| `PinInterrupts.DispatchCallsTheAttached` | megaavr/cores/megatinycore/WInterrupts.c:480-510 | With the table that any history of attach and detach left, dispatch calls exactly the functions attached last and not detached since |
| `PinInterrupts.AssemblyCallsTheAttached` | megaavr/cores/megatinycore/WInterrupts_PA.c:22-32 | The same of the assembly, from the port's vector, with the loads it makes |
| `PinInterrupts.EarlyAssemblyCallsTheAttached` | megaavr/cores/megatinycore/WInterrupts.c:203-282 | ... and of its early-clear form |
| `PinInterrupts.DetachedIsNotCalled` | megaavr/cores/megatinycore/WInterrupts.c:286-297 | After a detach and until the next attach to that pin nothing is called for it |
| `PinHandlers.LoopFollows` | megaavr/cores/megatinycore/WInterrupts.c:480-510 | Handlers that attach and detach: the dispatcher calls for each set flag the function attached at its turn, and leaves the table as the whole history says |
| `PinHandlers.AssemblyFollows` | megaavr/cores/megatinycore/WInterrupts.c:113-200 | The same of the assembly from vector to RETI |
| `PinHandlers.EarlyAssemblyFollows` | megaavr/cores/megatinycore/WInterrupts.c:203-282 | ... and of its early-clear form |
| `PinHandlers.NoActs` | megaavr/cores/megatinycore/WInterrupts.c:480-510 | With handlers that do neither these are the functions attached as the dispatch begins |
| `PinHandlers.OneShotIsCalledOnce` | megaavr/cores/megatinycore/WInterrupts.c:286-297 | A handler that detaches its own pin is called by one dispatch and by no later one |
| `OptibootRuns.EveryStreamDecodes` | megaavr/bootloaders/optiboot_x/optiboot_x.c:451-559 | Whatever bytes arrive, they are the encoding of the commands carried out so far followed by the beginning of one more; a loop that has stopped had carried out those at the beginning |
| `OptibootRuns.EveryListIsCarriedOut` | megaavr/bootloaders/optiboot_x/optiboot_x.c:451-559 | From the encoding of any list of well-formed commands the loop recovers exactly that list and sends INSYNC, payload and OK for each in order, if and only if every address that the list goes through, computed from the commands alone, is mapped; otherwise it goes astray |
| `OptibootRuns.ListStays` | megaavr/bootloaders/optiboot_x/optiboot_x.c:496-541 | A list goes astray if and only if one of its addresses is not mapped |
| `OptibootRuns.CommandRuns` | megaavr/bootloaders/optiboot_x/optiboot_x.c:455-557 | One encoded command, byte by byte, is one command as a whole |
| `OptibootRuns.ExecReplies` | megaavr/bootloaders/optiboot_x/optiboot_x.c:455-558 | The reply of each command that stays inside the mapped memories, and where it leaves the address; any other one goes astray |
| `OptibootRuns.OnlyVerifiedPagesOfFlashChange` | megaavr/bootloaders/optiboot_x/optiboot_x.c:510-521 | A byte of flash changes only when the terminator of a PROG_PAGE has been verified, and only in the page stored to last |
| `OptibootRuns.OnlyStoredBytesOfEepromChange` | megaavr/bootloaders/optiboot_x/optiboot_x.c:510-521 | A byte of EEPROM only then, and only if it was stored |
| `OptibootRuns.NothingAfterAMissingTerminator` | megaavr/bootloaders/optiboot_x/optiboot_x.c:591-598 | After a missing terminator there is no output, no change and no further command, but a shorter watchdog period |
| `OptibootImage.WhatWasProgrammedIsReadBack` | megaavr/bootloaders/optiboot_x/optiboot_x.c:479-541 | Any image of whole pages: after its programming stream flash is the image over what it was and EEPROM is unchanged, and the reading stream is answered with the image |
| `OptibootBytes.EepromIsWrittenAndReadBack` | megaavr/bootloaders/optiboot_x/optiboot_x.c:479-541 | Byte for byte on the line: LOAD_ADDRESS and PROG_PAGE for EEPROM with any data inside one of its pages write just these bytes there, and LOAD_ADDRESS and READ_PAGE reply them |
| `OptibootBytes.FlashIsWrittenAndReadBack` | megaavr/bootloaders/optiboot_x/optiboot_x.c:479-541 | The same for flash: the rest of the page is erased, no other page changes |
| `OptibootBytes.ParameterIsAnswered` | megaavr/bootloaders/optiboot_x/optiboot_x.c:455-472 | GET_PARAMETER: minor and major version by their codes, 3 for any other |
| `OptibootBytes.SignatureIsAnswered` | megaavr/bootloaders/optiboot_x/optiboot_x.c:543-549 | READ_SIGN: the three signature bytes in order |
| `OptibootBytes.IgnoredAreAnswered` | megaavr/bootloaders/optiboot_x/optiboot_x.c:473-495 | SET_DEVICE takes 20 bytes, SET_DEVICE_EXT 5 and UNIVERSAL 4, which alone replies a zero |
| `OptibootBytes.LeavingIsAnswered` | megaavr/bootloaders/optiboot_x/optiboot_x.c:550-554 | LEAVE_PROGMODE replies and shortens the watchdog period |
| `OptibootBytes.OthersAreAnswered` | megaavr/bootloaders/optiboot_x/optiboot_x.c:555-557 | An unknown code replies and does nothing |
| `OptibootBytes.AddressIsAnswered` | megaavr/bootloaders/optiboot_x/optiboot_x.c:479-487 | LOAD_ADDRESS sets the address, low byte first, and nothing else |
| `OptibootBytes.CountExactly` | megaavr/bootloaders/optiboot_x/optiboot_x.c:510-512 | The number of bytes of a page command: the length in 8 or 16 bits, zero standing for the whole range |
| `OptibootImage.ImageIsProgrammed` | megaavr/bootloaders/optiboot_x/optiboot_x.c:496-521 | The programming half: pages not addressed stay |
| `OptibootImage.ImageIsRead` | megaavr/bootloaders/optiboot_x/optiboot_x.c:523-541 | The reading half: memory is untouched |
| `OptibootImage.PageIsProgrammed` | megaavr/bootloaders/optiboot_x/optiboot_x.c:479-521 | One page |
| `OptibootImage.AddressDoesNotCarryOver` | megaavr/bootloaders/optiboot_x/optiboot_x.c:504-508 | Without a LOAD_ADDRESS before each page the next PROG_PAGE points below flash |
| `OptibootImage.AddressIsNotThereToReadOn` | megaavr/bootloaders/optiboot_x/optiboot_x.c:529-541 | ... and the next READ_PAGE does |
| `OptibootLoop.Loader.Serve` | megaavr/bootloaders/optiboot_x/optiboot_x.c:451-560 | The forever loop in place: on any input it does what the byte machine does with all of it |
| `OptibootLoop.Loader.Dispatch` | megaavr/bootloaders/optiboot_x/optiboot_x.c:455-557 | The chain of comparisons |
| `OptibootLoop.Loader.Getch` | megaavr/bootloaders/optiboot_x/optiboot_x.c:568-582 | One byte received |
| `OptibootLoop.Loader.VerifySpace` | megaavr/bootloaders/optiboot_x/optiboot_x.c:591-598 | INSYNC after a terminator, the endless loop otherwise |
| `OptibootLoop.Loader.GetNch` | megaavr/bootloaders/optiboot_x/optiboot_x.c:584-589 | The bytes of an ignored command |
| `OptibootLoop.Loader.StoreBytes` | megaavr/bootloaders/optiboot_x/optiboot_x.c:510-512 | The do-while loop that fills the page buffer, with its length of 8 or 16 bits |
| `OptibootLoop.Loader.ProgramPage` | megaavr/bootloaders/optiboot_x/optiboot_x.c:496-521 | PROG_PAGE |
| `OptibootLoop.Loader.SendBytes` | megaavr/bootloaders/optiboot_x/optiboot_x.c:538-540 | The do-while loop that sends memory |
| `OptibootLoop.Loader.LoadAddressBytes` | megaavr/bootloaders/optiboot_x/optiboot_x.c:479-487 | LOAD_ADDRESS, low byte first |
| `OptibootReset.WhatStarts` | megaavr/bootloaders/optiboot_x/optiboot_x.c:380-397 | Exactly which reset causes start the application, which a bootloader session, which a software reset |
| `OptibootReset.EveryHistoryIsSound` | megaavr/bootloaders/optiboot_x/optiboot_x.c:380-427 | Over every history of resets: the application runs with RSTFR cleared, a cause in GPIOR0 and the watchdog off; a session never with the watchdog flag and always with the watchdog on |
| `OptibootReset.SessionKeepsTheFlags` | megaavr/bootloaders/optiboot_x/optiboot_x.c:380-427 | A session leaves RSTFR as found, an application finds it cleared and in GPIOR0 what it held |
| `OptibootReset.ApplicationIsToldTheCauses` | megaavr/bootloaders/optiboot_x/optiboot_x.c:380-427 | Over every history: the application is told in GPIOR0 exactly the causes of the resets since it was started last, and until then RSTFR holds them |
| `OptibootReset.WatchdogStartsTheApplication` | megaavr/bootloaders/optiboot_x/optiboot_x.c:387-397 | The watchdog ends every session in the application |
| `OptibootReset.TwoResetsAtMost` | megaavr/bootloaders/optiboot_x/optiboot_x.c:381-427 | With a silent host the application runs after at most two further resets |
| `OptibootReset.Registers.Enter` | megaavr/bootloaders/optiboot_x/optiboot_x.c:380-427 | The decision in place |
| `Tone.Search` | megaavr/cores/megatinycore/Tone.cpp:207-234 | The prescaler loop as written |
| `Tone.AccurateExactly` | megaavr/cores/megatinycore/Tone.cpp:207-234 | The time between toggles is at most the half period asked for and less than 1/32768 short of it if and only if the half period is at least 1, at most 0x800100 and not exactly 0x10000 |
| `Tone.ShortOnesAreExact` | megaavr/cores/megatinycore/Tone.cpp:207-234 | Half periods below 0x10000 come out exactly, from the undivided clock |
| `Tone.TheOddOnes` | megaavr/cores/megatinycore/Tone.cpp:207-234 | What half periods of 0 and of 0x10000 are turned into |
| `Tone.AccurateFrequencies` | megaavr/cores/megatinycore/Tone.cpp:207-234 | The same over clock and frequency: accurate if and only if 2 f <= clock < 0x1000202 f and not 0x20000 f <= clock < 0x20002 f |
| `Tone.StumblesExactly` | megaavr/cores/megatinycore/Tone.cpp:209-228 | Some frequency has an undefined shift at a clock if and only if clock % 0x20000 < 2 * (clock / 0x20000) |
| `Tone.CoreClocksDoNotStumble` | megaavr/boards.txt:281-357 | At none of the clocks the core can be built for is there one |
| `Tone.BinaryClockStumbles` | megaavr/cores/megatinycore/Tone.cpp:209-228 | At 2^24 Hz there is: 128 Hz |
| `Tone.SettingIsInRange` | megaavr/cores/megatinycore/Tone.cpp:213-234 | The compare value always fits in 16 bits; the shift count is in 0..6 except for a half period of exactly 0x10000 |
| `Tone.TicksOf` | megaavr/cores/megatinycore/Tone.cpp:213-234 | The time reached, and its maximum |
| `Tone.OneHertzAtTwentyMegahertz` | megaavr/cores/megatinycore/Tone.cpp:207-234 | A case that is out of reach |
| `TonePlayer.ToneEnds` | megaavr/cores/megatinycore/Tone.cpp:313-328 | With toggle count N the tone stops after exactly (N + 1) * c interrupts, having toggled its pin exactly N + 1 times |
| `TonePlayer.EndlessToneGoesOn` | megaavr/cores/megatinycore/Tone.cpp:313-328 | With a negative count it never stops by itself |
| `TonePlayer.PlayStarts` | megaavr/cores/megatinycore/Tone.cpp:254-262 | What tone leaves for the interrupt: count, prescaler and compare value of the search; the clock selection, too, unless a pending interrupt has erased it |
| `TonePlayer.PlayedInTune` | megaavr/cores/megatinycore/Tone.cpp:206-263 | For every clock and frequency in range the time between toggles that tone leaves to timer and interrupt fits the frequency: 2 f T <= clock, and short of it by less than 1/32768 and one cycle a toggle |
| `TonePlayer.ZeroEndsTheTone` | megaavr/cores/megatinycore/Tone.cpp:162-175 | A tone of frequency 0 ends the tone of that pin LOW and for good, and does nothing to any other |
| `TonePlayer.NoPinNoTone` | megaavr/cores/megatinycore/Tone.cpp:176-178 | A number that is no pin changes nothing |
| `TonePlayer.LevelAtTheStart` | megaavr/cores/megatinycore/Tone.cpp:238-252 | A new tone on the pin that plays goes on from its level; another pin begins LOW and the one before ends LOW |
| `TonePlayer.PendingIsBefore` | megaavr/cores/megatinycore/Tone.cpp:211-263 | An interrupt pending as tone stops the timer is as good as taken before the call if and only if it is not the last one of the old tone or the new tone needs no divided clock |
| `TonePlayer.AnOctaveHigh` | megaavr/cores/megatinycore/Tone.cpp:285-309 | Otherwise disableTimer erases the clock selection and the new tone has half the period |
| `TonePlayer.LastInterrupt` | megaavr/cores/megatinycore/Tone.cpp:313-328 | Every tone with a duration comes to that last interrupt, one before its end |
| `TonePlayer.TwoCallsAnOctaveHigh` | megaavr/cores/megatinycore/Tone.cpp:211-263 | So any tone with a duration and a second one that needs the divided clock, made as the last interrupt is due, end in a tone an octave high |
| `TonePlayer.HundredHertzAtTwoHundred` | megaavr/cores/megatinycore/Tone.cpp:211-263 | At 20 MHz 1000 Hz for 100 ms and then 100 Hz: 50000 cycles in place of 100000 |
| `TonePlayer.LevelsFollowTheCount` | megaavr/cores/megatinycore/Tone.cpp:313-317 | Every toggle counted changes the level of the tone's pin, and no other pin's |
| `TonePlayer.TogglesComeEvenly` | megaavr/cores/megatinycore/Tone.cpp:313-317 | After n interrupts of a tone that runs there were n / c toggles |
| `TonePlayer.SilenceEndsTheTone` | megaavr/cores/megatinycore/Tone.cpp:273-309 | noTone for the pin that plays ends the tone for good, LOW; for another pin it changes nothing |
| `TonePlayer.CountIsRight` | megaavr/cores/megatinycore/Tone.cpp:191-205 | The toggle count is two a period if and only if frequency times duration fits in 32 bits, and negative without a duration |
| `TonePlayer.OldPinsAreLow` | megaavr/cores/megatinycore/Tone.cpp:238-309 | Over every history of tone, noTone and interrupts every formerly used pin is LOW and pins never used are untouched |
| `TonePlayer.AfterIsSafe` | megaavr/cores/megatinycore/Tone.cpp:159-328 | Each call and interrupt keeps that |
| `TonePlayer.ToneTimer.PlayOn` | megaavr/cores/megatinycore/Tone.cpp:159-264 | tone in place, with or without an interrupt pending as it stops the timer, at frequency 0 and for numbers that are no pin |
| `TonePlayer.ToneTimer.NoToneOn` | megaavr/cores/megatinycore/Tone.cpp:273-282 | noTone in place |
| `TonePlayer.ToneTimer.DisableTimer` | megaavr/cores/megatinycore/Tone.cpp:293-309 | disableTimer in place: the pin ends LOW |
| `TonePlayer.ToneTimer.TimerInterrupt` | megaavr/cores/megatinycore/Tone.cpp:313-328 | The timer interrupt in place, its count decremented in 8 bits |
| `SerialBegin.Begin` | megaavr/cores/megatinycore/UART.cpp:558-603 | The option byte as begin turns it into CTRLA, CTRLB and the half-duplex bit, every bit of the three: RXCIE on exactly with the receiver, TXCIE and DREIE off, half duplex only with the receiver's interrupt on |
| `SerialBegin.HalfExactly` | megaavr/cores/megatinycore/UART.cpp:580-584 | Half duplex is recorded exactly for loop back and open drain with both directions enabled |
| `SerialBegin.CtrlBBits` | megaavr/cores/megatinycore/UART.cpp:560-573 | CTRLB bit by bit |
| `SerialBegin.CtrlABits` | megaavr/cores/megatinycore/UART.cpp:576-603 | CTRLA bit by bit |
| `Baud.SetBaud` | megaavr/cores/megatinycore/UART.cpp:561-567 | The rate computation as written; for clock / 16384 < baud <= clock / 8 the port runs at the rate asked for |
| `Baud.DoubleSpeedExactly` | megaavr/cores/megatinycore/UART.cpp:561-564 | Double speed is chosen exactly when the normal divisor would be below 64 |
| `Baud.DivisorIsExact` | megaavr/cores/megatinycore/UART.cpp:561-567 | For clock / 16384 < baud <= clock / 8 the register holds the divisor in 64..65535, B * b <= 4 * clock < (B + 1) * b |
| `Baud.RateIsRight` | megaavr/cores/megatinycore/UART.cpp:561-567 | On that range, in terms of the rate asked for: S B (baud - 1) <= 64 clock < S (B + 1) baud, with S samples a bit, 16 or 8 at double speed |
| `Baud.OutOfRange` | megaavr/cores/megatinycore/UART.cpp:561-567 | Faster rates get the fastest setting, slower ones what 16 bits leave of the divisor |
| `Baud.DivisorIsExactOnly` | megaavr/cores/megatinycore/UART.cpp:565-567 | ... and it holds the divisor only if that is in 64..65535 |

## Left out

- Cycle counts, RETI's return address and interrupt nesting; the stack of the AVR is kept apart from data memory.
- The debug bit 0x1F that the ISR stubs clear is carried along and not interpreted.
- `_do_txc` with USE_ASM_TXC == 1, which addresses the USART without the object: the same loop on other registers.
- Pin dispatch on a port whose table was never installed: the assembly tests X, not the table pointer, so an installed table is required.
- A handler that attaches or detaches the pin that the foreground program is inside of attaching or detaching.
- PinIsr.AttachedIsr, PinIsrEarly.AttachedIsr: what the called functions load is not recorded, nor are `in` and `pop` counted as loads.
- PinInterrupts.Dispatcher.DetachInterrupt: requires a port whose table is installed, because the code stores through the table pointer unchecked.
- SerialTx.RunKeeps: within the limits on timing above; the foreground program turns interrupts on or off between calls, and an interrupt handler that calls write counts as foreground with interrupts off.
- SerialPort.HardwareSerial.Write: waits for room under the assumption of `TimePasses`, that in each turn of the loop an interrupt that can run does or a clock goes by.
- SerialPort.HardwareSerial.Flush: under the same assumption.
- Writing from a handler while the foreground program is inside write, which the code declares unsupported.
- SerialPort.HardwareSerial.Begin: takes the receiver to be enabled, and a port that is closed; `SERIAL_TX_ONLY` and its like are not modelled.
- Two calls of begin in a row; the unread bytes that end drops; character size, parity, pins, RS485, IRCOM, autobaud and the other registers of begin.
- SerialStatus.Port.GetStatus: the read and the write of `_state &= 0x03` are one step; RXC between them changes only bits that the write clears.
- printHex, pins, swap, getPin and the pin tables: finite tables and formatting.
- OptibootRuns.EveryListIsCarriedOut: stops at an access outside of mapped flash and EEPROM, where loads and stores would hit RAM and I/O registers.
- LEDs, RS485, the second vector do_nvmctrl and the self-description of large builds of Optiboot.
- The page buffer is modelled as filled by offset and committed to the page stored to last, erased flash as 0xFF, EEPROM as written byte by byte.
- TonePlayer.ToneTimer.PlayOn: is called with interrupts on; with interrupts off a pending interrupt would wait for the end of the call.
- tone: noTone(NOT_A_PIN), pins changed by other code, SUPPORT_LONG_TONES and the restoration of PWM.
- millis and micros, digital and analog functions, the Wire, SPI and other libraries, and the upload tools.
