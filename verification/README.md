# The VICE core: alarms, the ACIA, the 65816 and the 6510

A Dafny model of four parts of VICE, the Versatile Commodore Emulator, with proofs about them.

**The alarm scheduler** (`alarm.h`, `alarm.c`; `AlarmSpec.dfy`, `Alarm.dfy`). The context is a class with the
source's fields: the unsorted array of pending alarms, the back-pointers, the cached minimum and its index, the
doubly linked list of all alarms. What a caller relies on is a *schedule*, a map from alarms to clocks, and every
method is proved to do to the schedule what its specification says, also over any sequence of creating, destroying,
setting and unsetting. The loop `while (CLK >= next) dispatch`, with callbacks that make alarm calls of their own and
a clock that may go on behind each of them, is proved to end and to serve exactly the due alarms, in order, with the
right offsets.

**The 6551 ACIA** (`aciacore.c`; `Acia*.dfy`). The chip is a state machine on values (`AciaSpec`), a class with the
source's fields refines it (`Acia`), and a log of what the program and the line see is attached to every state. An
observer who only sees the log keeps a one-place transmit slot, a one-place receive buffer and an interrupt flag;
the chip is proved to agree with that observer in every run, and what is sent, lost, received and discarded is read
off the log. The class has two alarms in an alarm context of the first part and calls its `Set` and `Unset`; what the
state machine calls the pending transmit and receive alarms is what that context has for them. `AciaAlarms` runs the
dispatch loop of the CPU over the chip's two callbacks and those of any other devices.

**The 65816** (`65816core.c`; `Wdc65816`, `BlockMove`, `Interrupts65816`, `InterruptedMove`, `Stack65816`,
`Modes65816`, `Addressing65816`, `Effects65816`, `Places65816`, `Processor65816`). Block moves that re-execute one
instruction, with interrupts in between; interrupts and returns; the mode invariant over all opcodes; pairs of stack
instructions that do or do not undo each other; the addressing modes of STA and LDA. `Processor65816` holds the code
that updates registers and memory in place.

**The 6510 and the arithmetic that the cores share** (`6510core.c`, `6510dtvcore.c`, `65c02core.c`;
`StatusRegister`, `Mos6510`, `Processor6510`, `Subroutines6510`, `Opcodes6510`, `Core6510`, `CoreDtv`,
`CoreAgreement`, `OpcodeLaws`, `Effects6510`, `Encoding6510`, `Decimal`, `DecimalChains`). Decimal addition and
subtraction of numbers of any length on every core, nested subroutines on a stack that wraps, and the agreement of the
two 6510 cores on every program.

**What every step does.** `AciaEffects` and `AciaTraffic`, `Effects65816` and `Places65816`, `Effects6510` and
`Encoding6510` say of each event and each instruction, in terms of register bits, vectors, operand bytes, addresses and
opcodes written out, what it changes, where it goes and that it changes nothing else. The methods and the theorems over
runs are about the same functions, so that what they say is said about these effects.

Words and bytes are integers; truncation to a register's width is written out (`Low8`, `Low16`). Memory is plain
RAM. The device callbacks, the serial device, the modem lines and the arrival of interrupts are arguments of the
steps or events of a run, so that the theorems quantify over them.

Where documentation and code differ, or a natural property fails, the code is followed:

- A byte accepted for sending while RTS is dropped can go out within cycles of the one before
  (`DroppingRtsDefeatsPacing`). `Paced` has the condition on runs under which the character time is kept, `CalmIff`
  says when an event may fail to meet it, and `HoldIff` how soon a byte can go out from any state at all.
- In emulation mode JSL/RTL, JSR (a,X)/RTS and PHD/PLD step the stack pointer out of page one and confine it only
  afterwards: each pair is proved to work exactly from certain stack pointers on (`LongCallReturns`,
  `IndexedCallReturns`, `DirectPageRestored`).
- The decimal SBC of the 65C02 differs from that of the other cores for some operand digits above nine
  (`SbcCmos` says exactly when).
- RTI in emulation mode returns to bank zero whatever bank was interrupted (`InterruptReturns`).
- A block move is not always a memmove: `MemmoveIff` says exactly when it is, and `OverlapFills` that in the other
  direction it repeats the head of the range.

## Model

| member | source | states |
|---|---|---|
| Basics.LowIsRemainder | vice/src/65816core.c:1348 | truncation by cases is the remainder that C's masks compute |
| AlarmSpec.NoRepeatsIff | vice/src/alarm.h:59-66 | the slots of a table hold distinct alarms iff the recursive definition says so |
| AlarmSpec.MeaningAt | vice/src/alarm.h:51-87 | in a table without repeats every slot's alarm is scheduled at the slot's clock |
| AlarmSpec.AppendMeaning | vice/src/alarm.h:146-172 | appending a slot schedules one more alarm and no other changes |
| AlarmSpec.UpdateMeaning | vice/src/alarm.h:173-183 | writing a slot's clock moves that alarm and no other |
| AlarmSpec.RemoveMeaning | vice/src/alarm.c:167-207 | moving the last slot into the gap unschedules one alarm and no other |
| AlarmSpec.CacheIsNext | vice/src/alarm.h:110-129 | the cached clock and index are the minimum of the schedule, `CLOCK_MAX` when empty |
| AlarmSpec.NextUnique | vice/src/alarm.h:105-108 | the schedule determines the cached clock |
| AlarmSpec.ApplyAllEffect | vice/src/alarm.h:131-185 | a sequence of calls leaves an alarm it names absent or at a clock it asked for, every other alarm alone |
| AlarmSpec.CallbackLeavesDue | vice/src/6510core.c:130-134 | a callback that runs at a clock brings nothing to one before: what is due at entry after it was so before it |
| AlarmSpec.CallbackShrinksDue | vice/src/6510core.c:130-134 | one dispatch strictly shrinks the set of due alarms: the measure of the loop |
| AlarmSpec.ExtendDispatched | vice/src/6510core.c:130-134 | one more dispatch of the next due alarm, the clock having gone on or not, extends a run of the loop |
| AlarmSpec.StillDue | vice/src/6510core.c:130-134 | an alarm still due at the clock of entry was due at the start, at that clock, and has not been served |
| AlarmSpec.NothingEarlier | vice/src/alarm.h:131-144 | whatever is pending during the loop is scheduled no earlier than anything served |
| AlarmSpec.ServedInOrder | vice/src/alarm.h:131-144 | scheduled clocks never decrease, however the clock goes on; what is served as scheduled up to the clock of entry was so at the start, and is served once |
| AlarmSpec.DueUntilServed | vice/src/6510core.c:130-134 | a due alarm that only its own callback names stays due until it is served as scheduled at entry |
| AlarmSpec.ServesExactlyTheDue | vice/src/6510core.c:130-134 | if no callback names another due alarm, the alarms due at entry are served first, each once, and no others at all when the clock stands still |
| AlarmSpec.OthersUntouched | vice/src/6510core.c:130-134 | an alarm that is not served and that no callback names keeps its clock |
| Alarms.AlarmContext.constructor | vice/src/alarm.c:49-57 | a new context is valid, with an empty list and an empty schedule |
| Alarms.AlarmContext.UpdateNextPending | vice/src/alarm.h:110-129 | the scan finds the minimum clock and the last slot that holds it; on an empty table the index stays as it was |
| Alarms.AlarmContext.Append | vice/src/alarm.h:154-165 | the new slot is behind the others and the back-pointer points at it |
| Alarms.AlarmContext.Add | vice/src/alarm.h:150-172 | a set of an alarm that is not pending appends a slot, or changes nothing when the table is full |
| Alarms.AlarmContext.Move | vice/src/alarm.h:173-183 | a set of a pending alarm changes its slot only, and the cache with it |
| Alarms.AlarmContext.Set | vice/src/alarm.h:146-185 | `alarm_set` refines the update of the schedule: full table and pending alarms included |
| Alarms.AlarmContext.CloseGap | vice/src/alarm.c:181-196 | swap-with-last: the last slot fills the gap, the back-pointers stay exact |
| Alarms.AlarmContext.Remove | vice/src/alarm.c:178-205 | the slot is removed, the alarm is no longer pending, and the cache is right again |
| Alarms.AlarmContext.Unset | vice/src/alarm.c:167-207 | `alarm_unset` refines removal from the schedule, pending or not |
| Alarms.AlarmContext.HasRoom | vice/src/alarm.h:154-163 | a context with no more alarms than slots has room for each of them, so the full table is not met |
| Alarms.AlarmContext.Link | vice/src/alarm.c:105-125 | the alarm becomes the head of a well-formed doubly linked list |
| Alarms.AlarmContext.Unlink | vice/src/alarm.c:148-160 | the list loses exactly one alarm and keeps the order of the others |
| Alarms.AlarmContext.New | vice/src/alarm.c:127-137 | a fresh alarm, not pending, heads the list; the schedule does not change |
| Alarms.AlarmContext.Discard | vice/src/alarm.c:139-165 | the alarm leaves list, schedule and live set and is freed |
| Alarms.AlarmContext.Destroy | vice/src/alarm.c:139-165 | `alarm_destroy` of any live alarm keeps the context valid and the others in order; of none it does nothing |
| Alarms.AlarmContext.DestroyHead | vice/src/alarm.c:63-72 | one step of the destroying walk frees the head and goes on to the next |
| Alarms.AlarmContext.DestroyAll | vice/src/alarm.c:59-77 | the walk of `alarm_context_destroy` ends having freed each alarm once, in list order |
| Alarms.AlarmContext.Run | vice/src/alarm.h:146-185 | any sequence of sets and unsets refines the same sequence on the schedule |
| Alarms.AlarmContext.Serve | vice/src/alarm.c:105-207 | after any sequence of new, destroy, set and unset the list is well-formed and holds all alarms but the destroyed ones, in order; each of these is freed once, and the table has seen exactly the calls asked for |
| Alarms.AlarmContext.NextPendingClk | vice/src/alarm.h:105-108 | the answer is the least scheduled clock |
| Alarms.AlarmContext.Dispatch | vice/src/alarm.h:131-144 | the dispatched alarm is scheduled first of all, and the offset is its lateness |
| Alarms.AlarmContext.Round | vice/src/alarm.h:131-144 | one turn of the loop serves the next due alarm, applies its callback's calls and shrinks the due set |
| Alarms.AlarmContext.ProcessAlarms | vice/src/6510core.c:130-134 | with a clock that may go on behind each dispatch, up to a limit, the loop ends with nothing due, having been a run in the sense of the lemmas above, each callback dispatched at the clock of its turn |
| Alarms.WithoutElements | vice/src/alarm.c:148-160 | a list without one of its alarms holds all the others once |
| AciaRate.Bps | vice/src/aciacore.c:347-372 | the line speed lies between 10 and 230400 bits per second in every mode |
| AciaRate.TicksFor | vice/src/aciacore.c:374-420 | the ticks per character are at least what seven bits take at the highest speed, less one, and at most two seconds, for any clock of 230400 Hz or more |
| AciaRuns.MirrorStep | vice/src/aciacore.c:935-1272 | every event keeps the active flags, the alarm clocks, the transmit state, the mask and the interrupt line in step |
| AciaRuns.MirrorAlways | vice/src/aciacore.c:374-435 | over every run of the state machine: TX active iff its alarm is pending, at its clock; RX active implies pending, at its clock; DR_WRITTEN implies not empty |
| AciaRuns.LinesAlways | vice/src/aciacore.c:596-661 | over every run RTS and DTR are driven as the command register says, and the receiver is on exactly with RTS |
| AciaRuns.AttendedStep | vice/src/aciacore.c:1000-1023 | a device that is open has DTR on, unless it is one that is never closed: every event keeps it so |
| AciaRuns.ReadReturns | vice/src/aciacore.c:1057-1105 | what a read returns is what the log records and what a read-modify-write instruction writes back |
| AciaRuns.CallbacksServeThemselves | vice/src/aciacore.c:1162-1272 | each callback leaves the other alarm alone and its own unset or one character time ahead |
| AciaRuns.OrphanedRxAlarm | vice/src/aciacore.c:596-661 | a receive alarm left pending when RTS goes off is gone after its next firing, unless RTS comes back first |
| AciaObserver.RefineStep | vice/src/aciacore.c:935-1272 | every event keeps the chip in agreement with an observer of the log |
| AciaObserver.RefinesAlways | vice/src/aciacore.c:677-714 | over every run from reset, status, data and interrupt bits are what the observer expects |
| AciaLog.SentFromWrites | vice/src/aciacore.c:1162-1199 | a byte sent is the last byte written before, masked; no two sends stem from one write, and they keep the order of the writes |
| AciaLog.OwedMeans | vice/src/aciacore.c:955-971 | the transmit-empty bit is off iff a write was accepted and no byte was sent and no hardware reset came since |
| AciaLog.OccupantIsFirstFetch | vice/src/aciacore.c:1225-1272 | the byte in the receive buffer is the first one fetched since the buffer was last cleared |
| AciaLog.ReadFromFetches | vice/src/aciacore.c:1057-1105 | a byte read with the full bit set is a fetched one, masked, each read from another fetch |
| AciaLog.Conservation | vice/src/aciacore.c:1225-1272 | bytes fetched = read + discarded + dropped by a reset + the one in the buffer |
| AciaLog.OverrunMeans | vice/src/aciacore.c:1231-1263 | the overrun bit is on iff a byte was discarded since the last data read or reset, and then the buffer is full |
| AciaLog.IrqMeans | vice/src/aciacore.c:534-560 | the interrupt bit is on iff there was a cause since it was last read or the chip reset |
| AciaLog.TransmissionAlways | vice/src/aciacore.c:955-1199 | over every run, the bytes sent are a subsequence of the bytes written, at strictly increasing positions |
| AciaLog.ReceptionAlways | vice/src/aciacore.c:1068-1263 | over every run, conservation, and the meaning of the full and overrun bits |
| AciaEffects.CommandBits | vice/src/acia.h:78-85 | bit 0 of the command register is DTR, bit 1 disables receive interrupts, bits 3 and 2 are RTS off at 00 and transmit interrupts at 01 |
| AciaEffects.MaskMeans | vice/src/aciacore.c:382-404 | of a byte as many low bits survive as bits 6 and 5 of the control register say: 8, 7, 6 or 5 |
| AciaEffects.RegisterBits | vice/src/aciacore.c:948-954 | a register is selected by the two low address bits, with a Turbo232 by the three low ones |
| AciaEffects.StatusBits | vice/src/acia.h:55-62 | the status register, bit by bit |
| AciaEffects.ReceiveAlarm | vice/src/aciacore.c:1225-1272 | the receive alarm takes a byte iff the device is open and has one, into an empty buffer, else it is discarded and overrun set; full is set, an interrupt raised iff bit 1 of the command register is off; everything else stays |
| AciaEffects.TransmitAlarm | vice/src/aciacore.c:1162-1199 | the transmit alarm sends a waiting byte to an open device, else loses it, raises an interrupt iff bits 3 and 2 are 01, and is set again iff there is more to do |
| AciaEffects.DataWritten | vice/src/aciacore.c:955-971 | a written byte waits to be sent iff DTR is on; the alarm is set for the next cycle unless it is set |
| AciaEffects.StatusWritten | vice/src/aciacore.c:972-995 | a programmed reset, field by field |
| AciaEffects.ControlWritten | vice/src/aciacore.c:996-999 | the control register sets speed and mask and puts off the receive alarm, nothing else |
| AciaEffects.ExtendedControlWritten | vice/src/aciacore.c:1024-1029 | the extended control register does so iff the four low bits of the control register are zero |
| AciaEffects.CommandWritten | vice/src/aciacore.c:1000-1023 | the command register opens and closes the device and drives the lines, by its bits |
| AciaEffects.CommandAndReceiver | vice/src/aciacore.c:596-661 | after it the receiver is on iff RTS is; when its alarm is set anew, and when it stays |
| AciaEffects.CommandAndTransmitter | vice/src/aciacore.c:596-661 | after it the transmit alarm is set, stays or is gone, and a waiting byte is forgotten, by bits, device and what was before |
| AciaEffects.ModifiedInTwoWrites | vice/src/aciacore.c:941-946 | a read-modify-write instruction is two writes, the byte read last going back one cycle earlier |
| AciaEffects.DataReadOut | vice/src/aciacore.c:1069-1073 | reading the data register returns the buffer and clears full and the error bits |
| AciaEffects.StatusReadOut | vice/src/aciacore.c:534-590 | reading the status register shows DCD and DSR of an open device, inverted, as the machine routes them, and acknowledges the interrupt |
| AciaEffects.RegistersReadOut | vice/src/aciacore.c:1083-1098 | the other registers read as written; the extended one with its flag, the undefined ones as 0xff |
| AciaEffects.ResetOut | vice/src/aciacore.c:677-714 | a hardware reset, field by field |
| AciaEffects.FrameMeans | vice/src/aciacore.c:411-413 | a character is a start bit, the data bits, a parity bit and one or two stop bits |
| AciaEffects.SpeedsAreDivided | vice/src/aciacore.c:201-204 | the speeds of the table are 115200 divided by whole numbers, to the cent |
| AciaEffects.CardSpeeds | vice/src/aciacore.c:347-372 | SwiftLink and Turbo232 double them, and the Turbo232's own speeds halve from 230400 on |
| AciaEffects.TicksMean | vice/src/aciacore.c:419 | a character takes as many whole ticks as its bits take at that speed |
| AciaEffects.RateMeans | vice/src/aciacore.c:374-420 | these are the ticks of a machine's register settings in `MachinesAreSlow` |
| AciaTraffic.WordLengthAlways | vice/src/aciacore.c:382-404 | over every run the mask in force is that of the word length programmed |
| AciaTraffic.TrafficAlways | vice/src/aciacore.c:1162-1272 | over every run: the bytes fetched are those offered to an open device, in order; the bytes sent those waiting at a transmit alarm with the device open; causes for an interrupt as the command register lets them through |
| AciaPacing.SpacedStep | vice/src/aciacore.c:955-1199 | an event that does not cancel the pending transmit alarm of an open device keeps sends a character time apart |
| AciaPacing.Paced | vice/src/aciacore.c:1162-1199 | in a run without resets in which no write cancels the pending transmit alarm of an open device, any two sends are at least the ticks of the first apart |
| AciaEarliest.MachinesAreSlow | vice/src/aciacore.c:374-420 | at 921600 Hz or more a character takes longer than two writes that are up to 13 cycles apart |
| AciaEarliest.EarliestStep | vice/src/aciacore.c:955-1199 | no event of a calm run brings the earliest clock of the next send forward, and the alarm that sends does not come before it |
| AciaEarliest.HoldIff | vice/src/aciacore.c:955-1199 | in every reachable state: calm runs send nothing before a clock iff that is at most the earliest one, which device, DTR, waiting byte, alarm and the gap between writes determine |
| AciaEarliest.ReadEstablishes | vice/src/aciacore.c:1057-1099 | a read-modify-write instruction has read the command register before it writes it back |
| AciaEarliest.CalmIff | vice/src/aciacore.c:941-1023 | after any run, with a transmit alarm of an open device pending, for any access, reset or alarm: nothing goes out before that alarm, however a calm run goes on, iff the event is calm, or the alarm is no more than one write and a cycle ahead of a command that leaves DTR on, two writes and a cycle ahead of anything else |
| AciaEarliest.DroppingRtsDefeatsPacing | vice/src/aciacore.c:596-661 | a legal run, its writes any number of cycles apart, in which RTS is dropped and the next byte goes out one write and two cycles after the last |
| AciaChip.InitAcia | vice/src/aciacore.c:663-674 | `myacia_init` creates the two alarms at the head of the context's list, neither pending, and nobody else's alarms change |
| AciaChip.Acia.StartTx | vice/src/aciacore.c:630-634 | the transmit alarm is set in the context, flag and clock with it, and no other alarm moves |
| AciaChip.Acia.StopTx | vice/src/aciacore.c:605-613 | the transmit alarm is unset in the context, the flag with it, and no other alarm moves |
| AciaChip.Acia.SetAciaTicks | vice/src/aciacore.c:374-435 | updating fields in place and calling `alarm_set`, `set_acia_ticks` takes chip and context to the state that `AciaSpec.SetTicks` says |
| AciaChip.Acia.SetHandshakeLines | vice/src/aciacore.c:596-661 | `acia_set_handshake_lines` in place refines `AciaSpec.SetHandshake`: RTS, DTR and the alarms set and unset in the context |
| AciaChip.Acia.StoreData | vice/src/aciacore.c:955-971 | a data register write in place refines `AciaSpec.WriteData` |
| AciaChip.Acia.StoreStatus | vice/src/aciacore.c:972-995 | a status register write in place refines the programmed reset |
| AciaChip.Acia.StoreCtrl | vice/src/aciacore.c:996-999 | a control register write in place refines `AciaSpec.WriteCtrl` |
| AciaChip.Acia.StoreCmd | vice/src/aciacore.c:1000-1023 | a command register write in place refines `AciaSpec.WriteCmd`, opening and closing the device included |
| AciaChip.Acia.StoreByte | vice/src/aciacore.c:935-1030 | `myacia_store` in place refines `AciaSpec.Store`, the write-back of read-modify-write instructions included |
| AciaChip.Acia.GetStatus | vice/src/aciacore.c:534-560 | `acia_get_status` in place returns the status register and takes DSR and DCD from the modem lines |
| AciaChip.Acia.ReadByte | vice/src/aciacore.c:1057-1105 | `myacia_read` in place returns the register and refines `AciaSpec.Read` |
| AciaChip.Acia.IntTx | vice/src/aciacore.c:1162-1199 | `int_acia_tx` in place refines `AciaSpec.FireTx`, which `TransmitAlarm` and `TrafficAlways` say field by field; the alarm is set again or unset in the context |
| AciaChip.Acia.IntRx | vice/src/aciacore.c:1225-1272 | `int_acia_rx` in place refines `AciaSpec.FireRx`, which `ReceiveAlarm` and `TrafficAlways` say field by field; the alarm is set again or unset in the context |
| AciaChip.Acia.ResetChip | vice/src/aciacore.c:677-714 | `myacia_reset` in place refines `AciaSpec.Reset`, both alarms unset in the context |
| AciaChip.Acia.Play | vice/src/aciacore.c:935-1272 | any run of accesses, alarms and resets takes chip and context where the state machine says, and touches nobody else's alarms |
| AciaChip.Acia.PlayFromReset | vice/src/aciacore.c:374-435 | after any run from reset, TX active iff the context has the alarm, at `alarm_clk_tx`; RX active implies that it has the other, at `alarm_clk_rx` |
| AciaAlarms.OneCall | vice/src/alarm.h:146-185 | one alarm call puts the chip's alarm where it should be, touches no other, and is one the dispatch loop accepts |
| AciaAlarms.TxCallback | vice/src/aciacore.c:1162-1199 | the transmit callback meets the contract of the dispatch loop and leaves schedule and chip in step |
| AciaAlarms.RxCallback | vice/src/aciacore.c:1225-1272 | the receive callback meets the contract of the dispatch loop and leaves schedule and chip in step |
| AciaAlarms.Round | vice/src/alarm.h:131-144 | one dispatch with the callback run, the chip's or another device's: chip and schedule take the same step |
| AciaAlarms.ProcessAlarms | vice/src/6510core.c:130-134 | the dispatch loop over the chip's callbacks and other devices', with a clock that may go on, ends with nothing due, having taken chip and context through a legal run; each of the two alarms is served as scheduled at entry iff it was due, and once; flags and context stay in step |
| StatusRegister.FlagsRoundTrip | vice/src/65816core.c:216-235 | packing the flags into a byte and unpacking them is the identity |
| StatusRegister.ByteRoundTrip | vice/src/65816core.c:216-235 | unpacking a byte and packing it is the identity |
| StatusRegister.BitsAreFlags | vice/src/65816core.c:216-235 | N, V, M, X, D, I, Z and C are bits 7 to 0 of the packed status |
| Wdc65816.StatusLoaded | vice/src/65816core.c:216-220 | loading a packed status makes the lazy flags observable as packed, and `reg_p` keeps neither |
| Wdc65816.BelowAbove | vice/src/65816core.c:317-331 | a pull undoes a push of the stack pointer, in page one in emulation mode |
| BlockMove.MovesState | vice/src/65816core.c:1928-1955 | after k executions the count is down by k, the indices are k steps on, k bytes are copied, the program counter has not moved |
| BlockMove.MoveRuns | vice/src/65816core.c:1928-1959 | a move with C = n is executed n + 1 times and ends with C = 0xffff, indices advanced in their width, DBR = destination bank, PC + 3 and nothing else changed |
| BlockMove.MoveAdvances | vice/src/65816core.c:1928-1955 | while a move is under way the opcode is still found, and one execution takes it a step further or finishes it |
| BlockMove.IndexShift | vice/src/65816core.c:1947-1952 | source and destination index keep their distance modulo the width |
| BlockMove.SafeMoveIsMemmove | vice/src/65816core.c:1928-1959 | if no source byte is overwritten before it is read, the move is a memmove, wrapping indices included |
| BlockMove.IndexPlain | vice/src/65816core.c:1947-1952 | without wrapping the indices are plain sums and differences |
| BlockMove.FirstByteLost | vice/src/65816core.c:1943-1945 | what the first destination byte held makes no difference after the first execution, unless it is its own source |
| BlockMove.MemmoveIff | vice/src/65816core.c:1928-1959 | for any count, wrapping or not: the move is a memmove iff the banks differ, or it is onto itself, or the count is at most the steps from the source index to the destination index |
| BlockMove.NoWrapIff | vice/src/65816core.c:1957-1959 | within a bank and without wrap: iff MVN goes downwards, MVP upwards, or the ranges do not meet |
| BlockMove.OverlapFills | vice/src/65816core.c:1957 | MVN upwards and MVP downwards onto a range d bytes into its source repeat the first d bytes |
| Interrupts65816.EntrySaves | vice/src/65816core.c:1727-1757 | an interrupt saves place and status in the frame, writes no other byte and changes no other register |
| Effects65816.InterruptGoes | vice/src/65816core.c:1727-1757 | IRQ, NMI, BRK and COP go to the word at 0xfffe, 0xfffa, 0xfffe, 0xfff4 in emulation mode and at 0xffee, 0xffea, 0xffe6, 0xffe4 in native mode, as it is once the frame is pushed, in bank zero |
| Effects65816.EventsAre | vice/src/65816core.c:1534-1757 | IRQ and NMI of a run are interrupts with these vectors, BRK and COP such from two bytes further |
| Effects65816.HandlerAtVector | vice/src/65816core.c:1961-1991 | that is the word that was there before if the frame is away from the vectors, BRK and COP included |
| Effects65816.VectorsAway | vice/src/65816core.c:317-326 | which it always is in emulation mode |
| Effects65816.InterruptFlags | vice/src/65816core.c:1534-1562 | an interrupt changes I, D and, in emulation mode, the B bit, which tells BRK and COP from the rest |
| Effects65816.ResetGoes | vice/src/65816core.c:2186-2218 | a reset goes to the word at 0xfffc, in emulation mode, SP three down in page one, and what it does to each register |
| Interrupts65816.RtiRestores | vice/src/65816core.c:2220-2244 | RTI takes place, mode and flags from a frame, narrowing the index registers if need be |
| Interrupts65816.InterruptReturns | vice/src/65816core.c:1961-1991 | RTI after IRQ or NMI and any handler that keeps frame, X, Y and SP restores PC, PBR, SP, X, Y and all flags; in emulation mode up to bits 4 and 5 and the bank |
| Interrupts65816.SoftwareInterruptReturns | vice/src/65816core.c:1534-1562 | the same after BRK and COP, two bytes further |
| InterruptedMove.MoveMidway | vice/src/65816core.c:1928-1955 | one execution in the middle of a move depends on the guarded bytes only |
| InterruptedMove.ServiceSame | vice/src/65816core.c:2220-2244 | a handler that keeps C, X, Y, SP and the guarded bytes returns to an indistinguishable state |
| InterruptedMove.InStep | vice/src/65816core.c:1727-1757 | after any interleaving of executions and interrupts the run is where the uninterrupted move is after as many executions |
| InterruptedMove.InterruptedMoveCompletes | vice/src/65816core.c:1928-1955 | a native-mode move interrupted any number of times ends with the registers of the uninterrupted one and the same destination |
| Effects65816.MoveMeans | vice/src/65816core.c:1928-1955 | one execution of MVN or MVP: from X in the bank that the second operand byte names to Y in the bank of the first, X, Y, C, DBR and PC with it |
| Effects65816.MoveArrives | vice/src/65816core.c:1957-1959 | a whole move in the harmless direction or between banks: every byte is at its place, given by the operand bytes and the indices |
| Effects65816.JsrGoes | vice/src/65816core.c:1831-1843 | JSR goes to the word behind the opcode, pushes the address of its last byte, high byte first, and writes nothing else |
| Effects65816.JsrIndXGoes | vice/src/65816core.c:1845-1862 | JSR (a,X) goes to the word in the table in the program bank that operand and X point at |
| Effects65816.JsrIndXStores | vice/src/65816core.c:1845-1862 | it pushes like JSR, the first byte unconfined, and writes nothing else |
| Effects65816.JslGoes | vice/src/65816core.c:1864-1882 | JSL goes to the 24-bit address behind the opcode, its bank read after the first push |
| Effects65816.JslStores | vice/src/65816core.c:1864-1882 | it writes its bank and the address of its last byte below SP, and no other byte |
| Effects65816.RtsGoes | vice/src/65816core.c:2265-2276 | RTS goes behind the word above SP |
| Effects65816.RtlGoes | vice/src/65816core.c:2246-2263 | RTL takes word and bank from the three bytes above SP, unconfined |
| Stack65816.JsrRts | vice/src/65816core.c:1831-1843 | RTS after JSR returns behind the call, stack wrap included |
| Stack65816.JslFrame | vice/src/65816core.c:1864-1882 | JSL writes its three bytes downwards from SP, leaving page one if need be, and confines SP at the end |
| Stack65816.LongCallReturns | vice/src/65816core.c:2246-2263 | RTL returns from JSL for every callee iff, in emulation mode, SP was at least 0x103 |
| Stack65816.IndexedCallReturns | vice/src/65816core.c:1845-1862 | RTS returns from JSR (a,X) for every callee iff, in emulation mode, SP was at least 0x101 |
| Stack65816.DirectPageRestored | vice/src/65816core.c:2059-2115 | PLD restores what PHD saved iff, in emulation mode, SP was at least 0x102 |
| Stack65816.StatusRestored | vice/src/65816core.c:2071-2127 | PLP after PHP restores every observable flag, up to bits 4 and 5 in emulation mode |
| Stack65816.AccumulatorRestored | vice/src/65816core.c:2048-2093 | PLA restores what PHA saved, in either width, and N and Z speak of it |
| Stack65816.IndexRestored | vice/src/65816core.c:2080-2142 | PLX and PLY restore what PHX and PHY saved, in either width |
| Stack65816.BankRestored | vice/src/65816core.c:2057-2099 | PLB restores the bank that PHB or PHK pushed |
| Stack65816.PeaPulled | vice/src/65816core.c:2001-2012 | the word that PEA pushes is its operand |
| Stack65816.PerPulled | vice/src/65816core.c:2031-2046 | the word that PER pushes is its operand relative to the next instruction |
| Stack65816.PeiPulled | vice/src/65816core.c:2014-2029 | the word that PEI pushes is the one its operand points at in the direct page, with bank-zero wrap |
| Stack65816.RepSepMeans | vice/src/65816core.c:2144-2184 | REP and SEP change exactly the named flags of the packed status, M and X in native mode only |
| Stack65816.XceSwaps | vice/src/65816core.c:2525-2545 | XCE swaps the carry and the mode, and two of them lose only what emulation mode cannot keep |
| Effects65816.PeaStores | vice/src/65816core.c:2001-2012 | PEA pushes the word behind the opcode |
| Effects65816.PeiStores | vice/src/65816core.c:2014-2029 | PEI pushes the word its operand points at in the direct page |
| Effects65816.PerStores | vice/src/65816core.c:2031-2046 | PER pushes its operand counted from the next instruction |
| Effects65816.PhdStores | vice/src/65816core.c:2059-2067 | PHD pushes the direct page register, the first byte unconfined |
| Effects65816.PhaStores | vice/src/65816core.c:2048-2055 | PHA pushes one byte or two, as wide as the accumulator |
| Effects65816.IndexStores | vice/src/65816core.c:2080-2082 | PHX and PHY push one byte or two, as wide as the index registers |
| Effects65816.BankStores | vice/src/65816core.c:2057-2069 | PHB and PHK push a bank |
| Effects65816.PhpStores | vice/src/65816core.c:2071-2078 | PHP pushes the status, bit by bit |
| Effects65816.PlaTakes | vice/src/65816core.c:2084-2093 | PLA takes A or C, with N and Z, and keeps the high byte of C when it takes A |
| Effects65816.IndexTakes | vice/src/65816core.c:2129-2142 | PLX and PLY take the register, with N and Z |
| Effects65816.BankTakes | vice/src/65816core.c:2095-2099 | PLB takes the data bank, with N and Z |
| Effects65816.DirectPageTakes | vice/src/65816core.c:2101-2115 | PLD takes the direct page register from the word above SP, unconfined |
| Effects65816.FlagsTaken | vice/src/65816core.c:2117-2127 | PLP takes each flag from its bit; with X on the index registers lose their high bytes |
| Effects65816.RepSepNarrows | vice/src/65816core.c:2144-2182 | REP and SEP change no register but the flags, save that SEP with bit 4 narrows X and Y in native mode |
| Effects65816.XceChanges | vice/src/65816core.c:2525-2545 | XCE each way, register by register |
| Effects65816.IndexGets | vice/src/65816core.c:1681-1704 | what X or Y get from LDX, LDY, INX, INY, DEX, DEY and the transfers, in their width |
| Effects65816.IndexKeeps | vice/src/65816core.c:2361-2386 | which register each of them changes, that nothing else changes, and that N and Z speak of it |
| Effects65816.StackPointerGets | vice/src/65816core.c:2396-2471 | TCS and TXS set SP, confined to page one in emulation mode |
| Modes65816.CallKeepsMode | vice/src/65816core.c:1831-1882 | calls, returns and software interrupts keep the mode invariant |
| Modes65816.PushKeepsMode | vice/src/65816core.c:2001-2082 | the pushes keep it, also those that leave page one on the way |
| Modes65816.PullKeepsMode | vice/src/65816core.c:2084-2142 | the pulls keep it |
| Modes65816.IndexKeepsMode | vice/src/65816core.c:1886-1904 | the instructions on index registers keep it, also TXY and TYX, which do not mask |
| Modes65816.ModeKeepsMode | vice/src/65816core.c:2525-2545 | XCE, REP, SEP, TXS, TCS and the block moves keep it |
| Modes65816.StepKeepsMode | vice/src/65816core.c:2607-3645 | every opcode, IRQ, NMI and reset keeps it |
| Modes65816.ModeAlways | vice/src/65816core.c:232-233 | in every reachable state: emulation mode implies SP in page one; emulation mode or X implies X, Y below 0x100; `reg_p` holds neither N nor Z |
| Modes65816.StepsUndone | vice/src/65816core.c:1681-1701 | in well-formed states INX and DEX, DEY and INY undo each other in either width |
| Modes65816.TransfersNeedNoMask | vice/src/65816core.c:2473-2491 | in every reachable state TXY and TYX, which do not mask, leave what masking transfers would |
| Modes65816.StackPointerBack | vice/src/65816core.c:2445-2471 | TXS after TSX restores SP, except for its high byte with short index registers in native mode |
| Addressing65816.StoreMeetsLoad | vice/src/65816core.c:694-767 | the addresses that the store and the load branches compute are the same |
| Addressing65816.StaWrites | vice/src/65816core.c:2345-2346 | STA writes the accumulator's one or two bytes and no other, from the address that `StoreAddress` names; `Places65816` says which that is in every mode |
| Addressing65816.LdaAfterSta | vice/src/65816core.c:452-1230 | LDA in the same mode and registers gets back what STA stored, bank-zero and 24-bit wrap included, unless the pointer was hit |
| Places65816.DirectPlaces | vice/src/65816core.c:452-562 | `d`, `d,X` and `d,S`: STA writes and LDA reads in bank zero, the direct page register or SP plus the operand; `d,X` in the page in emulation mode with an aligned direct page |
| Places65816.AbsolutePlace | vice/src/65816core.c:846-875 | `a`: the word behind the opcode in the data bank |
| Places65816.AbsoluteXPlace | vice/src/65816core.c:962-1010 | `a,X`: X further, modulo 2 to the 24 |
| Places65816.AbsoluteYPlace | vice/src/65816core.c:1020-1023 | `a,Y`: Y further, likewise |
| Places65816.LongPlace | vice/src/65816core.c:1089-1121 | `al`: the three bytes behind the opcode, the last one the bank |
| Places65816.LongXPlace | vice/src/65816core.c:1126-1158 | `al,X`: X further, modulo 2 to the 24 |
| Places65816.IndirectPlace | vice/src/65816core.c:600-640 | `(d)`: what the pointer in the direct page points at in the data bank |
| Places65816.IndirectXPlace | vice/src/65816core.c:645-690 | `(d,X)`: the pointer X further, in the page in emulation mode with an aligned direct page |
| Places65816.IndirectYPlace | vice/src/65816core.c:694-767 | `(d),Y`: Y further than the pointer points, modulo 2 to the 24 |
| Places65816.IndirectLongPlace | vice/src/65816core.c:772-803 | `[d]`: what the three-byte pointer points at |
| Places65816.IndirectLongYPlace | vice/src/65816core.c:808-841 | `[d],Y`: Y further, modulo 2 to the 24 |
| Places65816.StackIndirectPlace | vice/src/65816core.c:1196-1228 | `(d,S),Y`: Y further than the pointer on the stack points in the data bank |
| Addressing65816.DirectPageConfined | vice/src/65816core.c:519-690 | with an aligned direct page in emulation mode, the 6502's modes wrap in the page and the long modes do not |
| Processor65816.Processor.Push | vice/src/65816core.c:317-326 | PUSH on the memory array refines `Wdc65816.Push`: one byte stored, SP down, confined in emulation mode |
| Processor65816.Processor.Pull | vice/src/65816core.c:329-331 | PULL refines `Wdc65816.PullSp` and returns the byte it points at |
| Processor65816.Processor.PackStatus | vice/src/65816core.c:229-235 | both packings of the status agree with the flags as `Wdc65816.Status` has them |
| Processor65816.Processor.Interrupt | vice/src/65816core.c:1727-1757 | IRQ and NMI in place refine `Wdc65816.Interrupt`, of which `InterruptGoes` says where it goes, `EntrySaves` what it saves and `InterruptReturns` how it is undone |
| Processor65816.Processor.SoftwareInterrupt | vice/src/65816core.c:1534-1562 | BRK and COP in place refine `Wdc65816.SoftwareInterrupt`, which `HandlerAtVector` and `SoftwareInterruptReturns` are about |
| Processor65816.Processor.Rti | vice/src/65816core.c:2220-2244 | RTI in place refines `Wdc65816.Rti`, of which `RtiRestores` speaks |
| Processor65816.Processor.Jsl | vice/src/65816core.c:1864-1882 | JSL in place refines `Stack65816.Jsl`, bank fetched after the first push: where it goes is in `JslGoes`, what it writes in `JslStores` |
| Processor65816.Processor.Rtl | vice/src/65816core.c:2246-2263 | RTL in place refines `Stack65816.Rtl`, SP confined after three steps (`RtlGoes`) |
| Processor65816.Processor.Plp | vice/src/65816core.c:2117-2127 | PLP in place refines `Stack65816.Plp` (`FlagsTaken`) |
| Processor65816.Processor.Xce | vice/src/65816core.c:2525-2545 | XCE in place refines `Stack65816.Xce`, of which `XceSwaps` speaks |
| Processor65816.Processor.RepSep | vice/src/65816core.c:2144-2182 | REP and SEP in place refine `Stack65816.RepSep`, of which `RepSepMeans` speaks |
| Processor65816.Processor.Move | vice/src/65816core.c:1928-1955 | one execution of MVN or MVP in place refines `BlockMove.Move` |
| Processor65816.Processor.RunMove | vice/src/65816core.c:1928-1959 | with opcode 0x54 upwards and 0x44 downwards: re-executing until the program counter moves ends, in the state that `MoveRuns` and `MoveArrives` describe |
| Decimal.Accumulator.AdcNmos | vice/src/6510core.c:752-785 | the 6510's decimal ADC is the digit-wise sum, for all inputs |
| Decimal.Accumulator.AdcCmos | vice/src/65c02core.c:543-575 | the 65C02's decimal ADC is the same sum |
| Decimal.Accumulator.AdcWdc | vice/src/65816core.c:1365-1391 | the 65816's 8-bit decimal ADC is the same sum |
| Decimal.Accumulator.SbcNmos | vice/src/6510core.c:1628-1657 | the 6510's decimal SBC is the digit-wise difference, for all inputs |
| Decimal.Accumulator.SbcWdc | vice/src/65816core.c:2278-2300 | the 65816's 8-bit decimal SBC is the same difference |
| Decimal.Accumulator.SbcCmos | vice/src/65c02core.c:1206-1229 | the 65C02's decimal SBC leaves the same difference iff the low digit falls by ten at most, else one borrow more; the carry is always the same |
| Decimal.LongAccumulator.Adc | vice/src/65816core.c:1392-1424 | the 16-bit decimal ADC is two 8-bit ones, the carry going on, for all inputs |
| DecimalChains.CoresAreDecimal | vice/src/65c02core.c:543-575 | on decimal digits the addition and both subtractions are correct digit by digit |
| DecimalChains.ChainAdds | vice/src/6510core.c:752-785 | n ADCs yield the digits of the sum, and the carry what does not fit into 100 to the n |
| DecimalChains.ChainAddsModulo | vice/src/6510core.c:752-785 | in other words, remainder and quotient by 100 to the n |
| DecimalChains.ChainSubtracts | vice/src/6510core.c:1628-1657 | n SBCs yield the digits of the difference modulo 100 to the n, the carry set iff nothing is borrowed |
| DecimalChains.AddThenSubtract | vice/src/65816core.c:2278-2300 | adding and then subtracting is the identity, on any two of the cores, also when the sum does not fit |
| DecimalChains.WideChainIsChain | vice/src/65816core.c:1392-1424 | whatever the digits, adding words two bytes at a time is a chain on their bytes; `LongAdcChain` applies it to the code |
| DecimalChains.AdcChain | vice/src/6510core.c:752-785 | n calls of the ADC code of any of the three cores leave the digits of the sum and its carry |
| DecimalChains.SbcChain | vice/src/65c02core.c:1206-1229 | n calls of the SBC code of any of the three cores leave the digits of the difference and its borrow |
| DecimalChains.LongAdcChain | vice/src/65816core.c:1392-1424 | n calls of the 16-bit ADC code leave what 2n 8-bit ones on the same bytes leave, whatever the digits |
| Mos6510.StatusLoaded | vice/src/6510core.c:201-215 | loading a packed status on the 6510 |
| Mos6510.InterruptFrame | vice/src/6510core.c:447-470 | an interrupt writes its three bytes and nothing else |
| Mos6510.InterruptReturns | vice/src/6510core.c:1581-1593 | RTI after IRQ, NMI or BRK restores PC, SP, the registers and all flags up to the unused bit and the break bit |
| Effects6510.InterruptGoes | vice/src/6510core.c:447-470 | IRQ and BRK go to the word at 0xfffe, with an NMI pending to that at 0xfffa, as it is once the frame is pushed; SP, I and the break bit |
| Effects6510.HandlerAtVector | vice/src/6510core.c:957-997 | which is the word that was there before |
| Effects6510.RtiGoes | vice/src/6510core.c:1581-1593 | RTI takes each flag from its bit and the program counter from the word above |
| Effects6510.JsrGoes | vice/src/6510core.c:1243-1260 | JSR goes to the word behind the opcode, its high byte read after the pushes, pushes the address of its last byte, high byte first, and writes nothing else |
| Effects6510.RtsGoes | vice/src/6510core.c:1595-1608 | RTS goes behind the word above SP |
| Effects6510.PushesStore | vice/src/6510core.c:1391-1403 | PHA and PHP store one byte at SP, PHP the status with bits 4 and 5 on |
| Effects6510.StatusBits | vice/src/6510core.c:201-215 | the packed status of the 6510, bit by bit |
| Effects6510.PullsTake | vice/src/6510core.c:1405-1430 | PLA takes A with N and Z, PLP each flag from its bit |
| Processor6510.Processor.Push | vice/src/6510core.c:362 | PUSH on the memory array refines `Mos6510.Push`: one byte stored in page one, SP down and wrapping |
| Processor6510.Processor.Pull | vice/src/6510core.c:365 | PULL refines `Mos6510.PullSp` and returns the byte it points at |
| Processor6510.Processor.Php | vice/src/6510core.c:1398-1403 | PHP in place refines `Mos6510.Php`: the packed status with the break bit (`PushesStore`) |
| Processor6510.Processor.Plp | vice/src/6510core.c:1417-1430 | PLP in place refines `Mos6510.Plp` (`PullsTake`) |
| Processor6510.Processor.Jsr | vice/src/6510core.c:1243-1260 | JSR in place refines `Mos6510.Jsr`, the target read after the pushes (`Effects6510.JsrGoes`) |
| Processor6510.Processor.Rts | vice/src/6510core.c:1595-1608 | RTS in place refines `Mos6510.Rts`, of which `CallReturns` and `NestedReturns` speak |
| Processor6510.Processor.Interrupt | vice/src/6510core.c:447-470 | IRQ and NMI in place refine `Mos6510.Interrupt`, of which `Effects6510.InterruptGoes` and `InterruptReturns` speak |
| Processor6510.Processor.Brk | vice/src/6510core.c:957-997 | BRK in place refines `Mos6510.Brk`; `Effects6510.HandlerAtVector` says where it goes |
| Processor6510.Processor.Rti | vice/src/6510core.c:1581-1593 | RTI in place refines `Mos6510.Rti` (`RtiGoes`) |
| Subroutines6510.ExecBalanced | vice/src/6510core.c:362-365 | any nesting of JSR/RTS, PHA/PLA and interrupts that needs at most 256 bytes leaves SP and the rest of the page alone |
| Subroutines6510.CallReturns | vice/src/6510core.c:1243-1260 | a call returns behind itself, from any SP, as long as it and what is nested in it need at most 256 bytes |
| Subroutines6510.NestedReturns | vice/src/6510core.c:1595-1608 | calls within calls return in reverse order, each to its address + 3, if fewer than 128 returns came before; else where the return 128 before went |
| Subroutines6510.OldestOverwritten | vice/src/6510core.c:362-365 | with 129 calls open the outermost returns behind the innermost |
| OpcodeLaws.AddMeans | vice/src/6510core.c:777-782 | binary ADC: accumulator and carry are the sum, V says that the signed sum does not fit |
| OpcodeLaws.SubtractMeans | vice/src/6510core.c:1649-1654 | binary SBC: accumulator and carry are the difference and its borrow, V says that the signed difference does not fit |
| OpcodeLaws.DecimalMeans | vice/src/6510core.c:760-776 | on decimal digits ADC and SBC in decimal mode leave the digits of the sum and the difference, the carry for what does not fit; Z is about the binary sum |
| OpcodeLaws.AddedDigits | vice/src/6510core.c:756-776 | on any bytes: decimal ADC digit by digit, digits above nine included |
| OpcodeLaws.SubtractedDigits | vice/src/6510core.c:1632-1648 | on any bytes: decimal SBC digit by digit |
| OpcodeLaws.DecimalFlags | vice/src/6510core.c:764-770 | N and V of the decimal ADC are those of the high digits before their adjustment |
| OpcodeLaws.BinaryFlags | vice/src/6510core.c:1632-1654 | the flags of the decimal SBC are those of the binary one |
| OpcodeLaws.AddThenSubtract | vice/src/6510core.c:1628-1657 | binary SBC undoes ADC, carry included |
| OpcodeLaws.CompareMeans | vice/src/6510core.c:1026-1057 | the unsigned difference of CMP, CPX and CPY below 0x100 means greater or equal, Z equal; C, N and Z are those that SEC and a binary SBC leave |
| OpcodeLaws.BitwiseMeans | vice/src/6510core.c:796-803 | the operations of AND and ORA work bit by bit |
| OpcodeLaws.XorMeans | vice/src/6510core.c:1125-1132 | the operation of EOR is on where the bits differ |
| OpcodeLaws.EorTwice | vice/src/6510core.c:1125-1132 | EOR twice with the same operand restores A |
| OpcodeLaws.TestBitsMeans | vice/src/6510core.c:924-934 | BIT: N and V are bits 7 and 6 of the operand, Z says that it has no bit in common with A |
| OpcodeLaws.BranchMeans | vice/src/6510core.c:937-954 | a taken branch goes the signed distance of its operand from the next instruction, modulo 2 to the 16 |
| OpcodeLaws.RotateBack | vice/src/6510core.c:1490-1528 | ROL A and ROR A are inverse on accumulator and carry |
| OpcodeLaws.RotateBackInMemory | vice/src/6510core.c:1474-1518 | ROR of what ROL has written gives back the byte and the carry |
| OpcodeLaws.AndRotateMeans | vice/src/6510core.c:855-886 | binary ARR is AND and ROR A, with C bit 6 of the result and V the difference of bits 6 and 5 |
| OpcodeLaws.AndRotateDecimalFlags | vice/src/6510core.c:858-872 | decimal ARR: N is the old carry, Z speaks of the rotated byte, V says whether bit 6 changed |
| OpcodeLaws.AndRotateDecimal | vice/src/6510core.c:863-879 | decimal ARR adjusts each digit by six if that of the AND exceeds five, its low bit counted twice, and sets C by the high one |
| OpcodeLaws.Combined | vice/src/6510core.c:1059-1810 | SLO, RLA, SRE, RRA, DCP and ISB leave what the two documented instructions in their names leave in a row |
| Effects6510.PlainAddresses | vice/src/6510core.c:543-620 | the addresses of the modes without pointer, modulo 256 in page zero and modulo 2 to the 16 elsewhere |
| Effects6510.PointerAddresses | vice/src/6510core.c:575-605 | `(d,X)` and `(d),Y`: where the pointer is, its wrap in page zero, and where it leads |
| Effects6510.ReadsThere | vice/src/6510core.c:2352-3366 | an instruction that reads takes the byte at its address and moves on by its length |
| Effects6510.ModifiesThere | vice/src/6510core.c:888-902 | one that modifies changes that byte of memory and no other |
| Effects6510.WritesThere | vice/src/6510core.c:1833-1851 | a store writes its register there, SAX what A and X have in common, and nothing else |
| Effects6510.LoadMeans | vice/src/6510core.c:1272-1306 | LDA, LDX, LDY and LAX, which register and that N and Z speak of it; NOP with an operand does nothing |
| Effects6510.LogicMeans | vice/src/6510core.c:796-803 | AND, ORA and EOR bit by bit, A, N and Z and nothing else |
| Effects6510.ComparesWhich | vice/src/6510core.c:1026-1057 | CMP, CPX and CPY compare A, X and Y |
| Effects6510.BitMeans | vice/src/6510core.c:924-935 | BIT by the bits of the operand |
| Effects6510.SumsMean | vice/src/6510core.c:777-785 | ADC and SBC of A, operand and carry, in the mode the D flag says |
| Effects6510.LasMeans | vice/src/6510core.c:1262-1270 | LAS puts SP and the operand, bit by bit, into A, X and SP |
| Effects6510.AncAsrMean | vice/src/6510core.c:787-794 | ANC is AND with N in C, ASR is AND and LSR A |
| Effects6510.UnstableMean | vice/src/6510core.c:845-853 | ANE and LXA bit by bit, with the bits of A that read as one |
| Effects6510.SbxMeans | vice/src/6510core.c:1659-1670 | SBX subtracts from A AND X without borrow, into X |
| Effects6510.ShiftsLeft | vice/src/6510core.c:888-912 | ASL and ROL as doubling, bit 7 into the carry |
| Effects6510.ShiftsRight | vice/src/6510core.c:1307-1332 | LSR and ROR as halving, bit 0 into the carry |
| Effects6510.CountsMean | vice/src/6510core.c:1096-1147 | INC and DEC modulo 256, the carry kept |
| Effects6510.ShiftsOfA | vice/src/6510core.c:904-912 | ASL A and LSR A do to A what they do to a byte in memory |
| Effects6510.RotationsOfA | vice/src/6510core.c:1490-1528 | so do ROL A and ROR A |
| Effects6510.TransfersMean | vice/src/6510core.c:1896-1915 | TAX, TAY and TSX by register and flag |
| Effects6510.TransfersBackMean | vice/src/6510core.c:1917-1935 | TXA, TYA and TXS, which leaves the flags alone |
| Effects6510.IndexCounts | vice/src/6510core.c:1111-1154 | INX and DEX modulo 256, by register and flag |
| Effects6510.IndexCountsY | vice/src/6510core.c:1118-1161 | INY and DEY likewise |
| Effects6510.FlagsMean | vice/src/6510core.c:999-1024 | CLC, SEC, CLI, SEI, CLD, SED and CLV change their bit of the packed status and nothing else |
| Effects6510.JumpsGo | vice/src/6510core.c:1221-1241 | JMP goes to its operand, JMP (a) to the word there, whose high byte does not leave the page |
| Effects6510.BranchesOn | vice/src/6510core.c:937-954 | which bit of the packed status each branch looks at |
| Effects6510.ShaWrites | vice/src/6510core.c:1693-1719 | SHA stores the register AND the high byte of the base plus one, which also becomes the page when the index carries |
| Effects6510.ShxShyWrite | vice/src/6510core.c:1721-1737 | SHX and SHY likewise |
| Effects6510.ShsWrites | vice/src/6510core.c:1739-1746 | SHS is SHA and sets SP |
| Encoding6510.DecodesByFields | vice/src/6510core.c:2352-3366 | every opcode of the switch follows its fields: operation, mode and group |
| Encoding6510.CombinedByFields | vice/src/6510core.c:2352-3366 | an undocumented opcode with both group bits set combines the two instructions before it, in the sense of `Combined` |
| Encoding6510.SharedControl | vice/src/65816core.c:2607-3645 | the 65816 has the 6510's stack, index and transfer instructions of the control group under the same opcodes |
| Encoding6510.SharedShift | vice/src/65816core.c:2607-3645 | and those of the group of the shifts |
| Encoding6510.OwnOpcodes | vice/src/65816core.c:2607-3645 | all its other opcodes of this kind, one by one |
| CoreAgreement.DecodersAgree | vice/src/6510dtvcore.c:1798-2743 | both cores' switches name the same operation and mode for every opcode |
| CoreAgreement.AddressesAgree | vice/src/6510dtvcore.c:458-714 | the two cores compute the same effective addresses, page-zero wrap included |
| CoreAgreement.ReadsAgree | vice/src/6510dtvcore.c:733-1320 | the instructions that read leave the same registers and flags, those that `Effects6510` says for the first core: `LogicMeans`, `LoadMeans`, `ComparesWhich` and the rest |
| CoreAgreement.ModificationsAgree | vice/src/6510dtvcore.c:1361-1625 | the documented and undocumented read-modify-write instructions do |
| CoreAgreement.ModifyAgrees | vice/src/6510core.c:855-1560 | writing the old value back before or after the modification makes no difference |
| CoreAgreement.HighsAgree | vice/src/6510core.c:665-710 | SHA, SHX, SHY and SHS store the same byte at the same address, carry into the page included |
| CoreAgreement.ImpliedAgree | vice/src/6510dtvcore.c:1361-1480 | the instructions without a memory operand agree, also ROL A and RTS, which are written differently |
| CoreAgreement.StepsAgree | vice/src/6510core.c:2352-3366 | one instruction leaves both cores in the same state |
| CoreAgreement.CoresAgree | vice/src/6510dtvcore.c:1798-2743 | any program without BRK and jamming opcodes takes both cores through the same states |

## Left out

- AciaRate.TicksFor: is in exact reals, as all of `set_acia_ticks` and `get_acia_bps`, where the source uses doubles; the runs take the ticks of each register setting from an arbitrary positive function.
- AciaChip.Acia: its context has no more alarms than the table has slots, and the CPU clock stays 2 to the 31 cycles below the end of the 64-bit clock; what the chip does when `alarm_set` finds the table full is not modelled.
- AciaEarliest.HoldIff: takes a character to last longer than two writes are apart (`MachinesAreSlow`), which for a gap of zero it always does.
- AciaEarliest.CalmIff: the same, and it takes a read-modify-write instruction to have read the command register before it writes it back.
- AciaRuns.MirrorStep, AciaRuns.MirrorAlways: speak of the state machine, whose pending alarms are fields; `PlayFromReset` has the property for the alarm context.
- `acia_set_irq`, `acia_set_mode`, resources, command line, log and dump output, and snapshots: configuration or input and output. The mode, the device and the presence of an interrupt line are constants of a run.
- The names of alarms and contexts, the data pointer of callbacks, and the log message about a full table.
- `alarm_context_time_warp`, which moves the sentinel of an empty context.
- Callbacks of the dispatch loop are sequences of set and unset calls, chosen anew for each dispatch; they do not create or destroy alarms.
- Modes65816.StepKeepsMode: lets the opcodes that touch neither stack pointer, index registers nor mode do anything else at all.
- Modes65816.ModeAlways: takes what the other opcodes do to the accumulator, the data, the flags other than M and X and the program counter from the event, so that it covers more states than are reachable.
- Processor65816.Processor: the methods are those of the stack, the interrupts, the mode switches and the block move; loads, stores, index registers and the addressing modes of the 65816 are modelled on values, so that the order of their bus accesses is not captured.
- CoreAgreement.CoresAgree: both cores are modelled on values, with the macros that the two files share word for word written once; the order of dummy accesses and the cycle counts are not captured.
- CoreAgreement.ReadsAgree: ADC, SBC, BIT, ARR and the compares are among the shared macros, so that for them the agreement is by definition; what they compute is in `OpcodeLaws`.
- CoreAgreement.ImpliedAgree: PHA, PHP, PLP, RTI, JSR and the jumps are among the shared macros.
- CoreAgreement.StepsAgree: agrees on the shared macros because they are written once.
- InterruptedMove.InterruptedMoveCompletes: says nothing about the direct page register, which a handler may change.
- Decimal.Accumulator: the N, V and Z flags in decimal mode are left out on the 65C02 and the 65816; `Opcodes6510` has them for the 6510.
- The 16-bit decimal SBC of the 65816, which reads the 8-bit accumulator where it should read the 16-bit one, and the overflow flag of its 16-bit decimal ADC.
- The logical, shift and compare instructions of the 65816.
- ROM traps, the monitor, profiling, DMA, WAI and STP, the RDY-dependent forms of ANE and LXA, C64DTV and drive-CPU variants, and the interrupt delay rules: an interrupt may come between any two instructions.
- Interrupt vectors rerouted by the SuperCPU (`LOAD_INT_ADDR` of scpu64cpu.c).
- Cycle counts and clock arithmetic of the processors.
- A program counter beyond 0xffff, which the 6510 sources keep in a wider variable: it is 16 bits here.
