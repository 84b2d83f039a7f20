# Verified model of the HIL bench

This project models five parts of the hardware-in-the-loop bench and proves what they are
relied on for.

* **The Pico LTC6811 chain emulator** (`tools/pico_ltc_emulator`): the firmware's polled SPI
  service loop with its prebuilt response cache, selector snoop and command statistics, its
  table-driven PEC15, its USB line protocol, and the Python client that speaks it.
  `Pec15`, `CellChain`, `Encoding`, `Responses`, `CmdStats`, `Firmware`, `EmulatorDevice`,
  `Transactions`, `Serving`, `Falls`, `Seams`, `Guarantees`, `Witnesses`, `Numerals`,
  `UsbCommand`, `HostClient`, `EndToEnd`.
* **The CAN bootloader host** (`tools/flash.py`), as a protocol run against an arbitrary bus.
  `Bootloader`, `FlashRuns`.
* **The relay expander and the broker threads that share it** (`tools/tca9555.py`,
  `broker/bus.py`, `broker/fake_bus.py`). `RelayExpander`, `Broker`.
* **Bench arbitration**: the flasher's carrier isolation (`tools/flash_dut.py`) and the
  watchdog and recovery ladder under the bench lock (`tools/bench.py`). `FlashDut`, `BenchLock`.
* **The CAN tracer** (`dashboard/can_tracer.py`). `CanTracer`, `TracerRuns`.

Code that changes things step by step is modelled by classes and methods with loops, each
proved against a function on values; the statements about whole runs are lemmas about those
functions. `dafny verify dfyconfig.toml` checks everything.

## How the pieces are modelled

**Emulator.** The firmware's static variables are one record, `Firmware.Fw`; one call of the
service loop is one step. A run is any interleaving of chip-select edges, clocked bytes,
service passes and host commands (`Transactions.Event`). `Always` holds in every run whatever
the environment does: the cache is the direct function of cell state and selector, an opcode is
decoded from two bytes, and the statistics are those of the transactions closed so far.

What the master is promised in one transaction (`Falls.Honoured`: its own opcode decoded before
any data, its own response, four pad bytes first) is not true of every run. `Falls.PromiseKeptIff`
gives the exact condition, for every reachable state and over everything that can be clocked and
every timing of passes: the promise is kept if and only if, when the line falls, no opcode is
decoded, no byte is in the decoder's window or in the receive FIFO, and the transmit FIFO holds
the pad. `Falls.PromiseKeptUnlessStray` ties that to the bus: if every high gap is seen by a pass,
it is so if and only if no low pulse that no pass saw has clocked a byte since the last rise was
noticed. A pulse of two bytes and a pulse of one byte are shown as failing runs
(`Witnesses.UnseenPulse`, `Witnesses.UnseenByte`). The claims about bytes on the wire
(`Guarantees`) are made of every transaction that falls with nothing left over.

A command that arms the selector snoop while RDAUXA is the current buffer can have its buffer
rebuilt under the pump. `Serving.Due` is the data it then streams, old before the seam and new
after it, and `Guarantees.ChunkVerdict` says for every opcode exactly which chunks pass.
`EndToEnd.MixedChunkFails` is a run from power-up in which an unstopped chunk fails.

**PEC.** Message bits are sequences of booleans, and the reference is long division by the
generator polynomial. The firmware's unmasked 16-bit register is compared with it bit by bit.

**Bootloader host.** The bus answers each deadline test, each receive and each send from fixed
but arbitrary scripts, so a proof about `Flash` is a proof about every bus. The log pairs every
frame sent with everything heard before the next one; all claims are read off that log. The CRC
is a parameter.

**Broker.** A driver call is a script of bus transactions (`RelayExpander.Next`). The driver's
methods are proved to carry out that script, and the broker's threads interleave between any
two transactions of it. A transaction may fail, and a failed call leaves what it had already
written. The same machine with the lock taken away loses an update (`UnlockedLosesUpdate`).

**Flasher.** A broker call may be refused, may fail after it took effect, or may succeed; each
subprocess may raise. A run is treated as the only user of the relay port, as the holder of the
bench lock is.

**Bench lock.** A run of the bench is a log of what the processes did. Each process follows its
program, may die anywhere, and the lock admits one holder. The result of a health check is
arbitrary. What the recovery steps leave behind (`BenchLock.Rig`) is stated for steps that succeed:
unloading the CAN driver takes its links down, loading a loaded driver does nothing, and links
come up only on a driver.

**Tracer.** Numbering, keeping and fanning out a frame are three separate steps of a reader
thread. There is one reader per bus, as there is when the interface names differ and `start` is
called once.

## Where the code and its comments differ

The model follows the code.

* Opcodes that are not read commands are said to answer 0xFF
  (tools/pico_ltc_emulator/firmware/src/ltc6811_emu.c:14-16); the code streams the last read
  command's buffer, with PECs as valid as a read's: `Guarantees.UnknownCommandsStreamTheLastRead`.
* The selector snoop arms for eleven opcodes, not only WRCOMM: `Firmware.ArmsSnoop`.
* The `lost` counter counts transactions, not distinct commands: `CmdStats.StatsAccount`.
* Bytes drained at the rising edge are not counted in the recorded length:
  `Guarantees.ClosePublishes` counts the bytes the main drain saw.
* A subscriber whose queue is full is removed; its oldest frame is not dropped:
  `TracerRuns.SubscriberSeesARun`.
* The check after flashing looks at the status only, not at size or version: `FlashRuns.SuccessMeans`.
* The relay snapshot is read from the input register, so putting it back restores the output
  register exactly when the outside agrees with it on every pin that was an input, and the pins
  stay outputs: `FlashDut.Bench.Flash`; `FlashDut.PowerOnIsNotRestored` is a case where it does not.
* A `write_pin` to pin 8 or above is dropped by the expander and kept by the in-memory backend:
  `Broker.AgreesWithFake`.

## Model

| member | source | states |
|---|---|---|
| Pec15.CrcIsRemainder | tools/pico_ltc_emulator/firmware/src/pec15.c:12-38 | For every register and message, the bit-at-a-time step computes the remainder of polynomial long division |
| Pec15.CrcConcat | tools/pico_ltc_emulator/firmware/src/pec15.c:27-38 | Processing a concatenation is processing its parts in turn |
| Pec15.CrcLinear | tools/pico_ltc_emulator/firmware/src/pec15.c:27-38 | The register is linear in seed and message together |
| Pec15.NonzeroSurvives | tools/pico_ltc_emulator/firmware/src/pec15.c:12-25 | The zero step is injective: a nonzero register never becomes zero by shifting |
| Pec15.TableStep | tools/pico_ltc_emulator/firmware/src/pec15.c:32-35 | One table lookup equals eight bit steps, for every register and byte |
| Pec15.RawStepIsZeroStep | tools/pico_ltc_emulator/firmware/src/pec15.c:15-21 | The table builder's 16-bit shift-and-xor is the 15-bit step; bit 15 never reaches the low fifteen |
| Pec15.TableLookup | tools/pico_ltc_emulator/firmware/src/pec15.c:32-35 | The unmasked 16-bit update has the right low fifteen bits whatever bit 15 held |
| Pec15.Crc15.InitTable | tools/pico_ltc_emulator/firmware/src/pec15.c:12-25 | Every entry is the register after its index, seven places up, has taken eight zero bits |
| Pec15.Crc15.Compute | tools/pico_ltc_emulator/firmware/src/pec15.c:27-38 | The result is twice the remainder of the seeded message, for every byte sequence |
| Pec15.Crc15.Append | tools/pico_ltc_emulator/firmware/src/pec15.c:40-44 | The two bytes written are the trailer, high byte first; nothing else changes |
| Pec15.FramedAccepted | tools/pico_ltc_emulator/firmware/src/pec15.c:40-44 | A message followed by its own trailer is accepted |
| Pec15.ResidueIsZero | tools/pico_ltc_emulator/firmware/src/pec15.c:27-44 | Recomputing over a message and its trailer leaves zero |
| Pec15.AcceptedIsEven | tools/pico_ltc_emulator/firmware/src/pec15.c:37-43 | An accepted frame ends in an even byte |
| Pec15.BurstDetected | tools/pico_ltc_emulator/firmware/src/pec15.c:27-44 | A nonzero error within fifteen consecutive bits, at any place in a frame of any length, is rejected |
| Pec15.ByteErrorDetected | tools/pico_ltc_emulator/firmware/src/pec15.c:27-44 | A frame with one byte changed is rejected |
| Pec15.SixteenVisible | tools/pico_ltc_emulator/firmware/src/pec15.c:27-38 | A sixteen-bit error leaves the register empty only if it is the generator itself |
| Pec15.TrailerTells | tools/pico_ltc_emulator/firmware/src/pec15.c:40-44 | Two messages have the same trailer exactly when they leave the same register |
| CellChain.CellState.Reset | tools/pico_ltc_emulator/firmware/src/cell_state.c:5-14 | Every cell and sensor holds its default |
| CellChain.CellState.SetCell | tools/pico_ltc_emulator/firmware/src/cell_state.c:16-19 | Changes that cell alone; an index out of range changes nothing |
| CellChain.CellState.SetTemp | tools/pico_ltc_emulator/firmware/src/cell_state.c:21-24 | Changes that sensor alone; an index out of range changes nothing |
| CellChain.CellState.SetAllCells | tools/pico_ltc_emulator/firmware/src/cell_state.c:26-32 | Every cell holds the value, temperatures as they were |
| CellChain.CellState.SetAllTemps | tools/pico_ltc_emulator/firmware/src/cell_state.c:34-40 | Every sensor holds the value, cells as they were |
| Encoding.MvToLtc | tools/pico_ltc_emulator/firmware/src/ltc6811_emu.c:120-124 | Ten times the millivolts, saturated at 65535 |
| Encoding.WholeDegreeExact | tools/pico_ltc_emulator/firmware/src/ltc6811_emu.c:152-167 | For any table, a whole degree gives the table entry |
| Encoding.StrictlyFalling | tools/pico_ltc_emulator/firmware/src/ltc6811_emu.c:152-167 | For any table falling by at least ten a step, interpolation with truncating division falls strictly between its ends |
| Encoding.WithinTable | tools/pico_ltc_emulator/firmware/src/ltc6811_emu.c:152-167 | The result stays between the ends of the table |
| Encoding.NtcTableFalls | tools/pico_ltc_emulator/firmware/src/ntc_aux_table.h:13-38 | The 181 entries, one per degree from -55 to 125, fall from 29654 to 1372 by at least ten a step |
| Encoding.DcToLtcFalls | tools/pico_ltc_emulator/firmware/src/ltc6811_emu.c:152-167 | Strictly decreasing from -55.0 to 125.0 degrees |
| Encoding.DcToLtcClamps | tools/pico_ltc_emulator/firmware/src/ltc6811_emu.c:157-158 | The table's ends outside the range, and its entries at whole degrees |
| Encoding.DcRoundTrip | tools/pico_ltc_emulator/firmware/src/ltc6811_emu.c:150-167 | A decoder recovers the seeded tenth of a degree |
| Responses.PartialRebuildSuffices | tools/pico_ltc_emulator/firmware/src/ltc6811_emu.c:710-734 | Rebuilding RDAUXA alone after a selector change equals rebuilding all six buffers |
| Responses.ChunksIgnoreSelector | tools/pico_ltc_emulator/firmware/src/ltc6811_emu.c:306-350 | No buffer but RDAUXA depends on the selector |
| Responses.ChunkAt | tools/pico_ltc_emulator/firmware/src/ltc6811_emu.c:435-451 | Chip k's eight bytes stand at offset 8k of the data |
| Responses.FieldsOfChunk | tools/pico_ltc_emulator/firmware/src/ltc6811_emu.c:306-350 | Decoding a chunk gives back its three registers |
| Responses.ChunkAccepted | tools/pico_ltc_emulator/firmware/src/ltc6811_emu.c:306-350 | Every chunk passes the PEC check |
| Responses.SilenceRejected | tools/pico_ltc_emulator/firmware/src/ltc6811_emu.c:109-116 | A chunk ending in 0xFF fails it |
| Responses.ResponseBuilder.BuildRdcvChunk | tools/pico_ltc_emulator/firmware/src/ltc6811_emu.c:306-314 | Writes the direct chunk of three cells with its PEC |
| Responses.ResponseBuilder.BuildRdauxChunk | tools/pico_ltc_emulator/firmware/src/ltc6811_emu.c:318-350 | Writes the direct chunk of the auxiliary registers with its PEC |
| Responses.ResponseBuilder.BuildOne | tools/pico_ltc_emulator/firmware/src/ltc6811_emu.c:435-451 | Returns pad and ten chunks, as the direct function gives them |
| Responses.ResponseBuilder.RebuildAll | tools/pico_ltc_emulator/firmware/src/ltc6811_emu.c:453-464 | Returns all six responses as the direct function gives them |
| CmdStats.RecordClosed | tools/pico_ltc_emulator/firmware/src/ltc6811_emu.c:396-412 | The scan updates the command's entry, else claims one, else counts a loss |
| CmdStats.StatsAccount | tools/pico_ltc_emulator/firmware/src/ltc6811_emu.c:396-431 | After any history: at most 24 distinct entries, exact counts modulo 2^32, true last, minimum and maximum lengths, and `lost` the number of transactions without an entry |
| CmdStats.CountsConserved | tools/pico_ltc_emulator/firmware/src/ltc6811_emu.c:396-412 | Counts and `lost` add up to the number of transactions, until a counter can wrap |
| Firmware.OpcodeIsElevenBits | tools/pico_ltc_emulator/firmware/src/ltc6811_emu.c:751-755 | A decoded opcode is never mistaken for "nothing decoded" |
| Firmware.ReadsDoNotArm | tools/pico_ltc_emulator/firmware/src/ltc6811_emu.c:517-563 | No read command arms the snoop |
| Firmware.ReadOpcodes | tools/pico_ltc_emulator/firmware/src/ltc6811_emu.c:541-552 | 0x004, 0x006, 0x008, 0x00A, 0x00C and 0x00E select buffers 0 to 5, and no other number selects one |
| Firmware.OpcodeSplits | tools/pico_ltc_emulator/firmware/src/ltc6811_emu.c:751-752 | An opcode is three bits of the first byte and all of the second |
| Firmware.StoppedBit | tools/pico_ltc_emulator/firmware/src/ltc6811_emu.c:109-116 | Bits 1, 2, 4, 8 and 16 of the mask, as a number, stop modules 0 to 4 |
| Firmware.StreamByte | tools/pico_ltc_emulator/firmware/src/ltc6811_emu.c:670-687 | Byte i of the data is 0xFF if the mask has module i / 16 in it, and the buffer's own byte if not |
| EmulatorDevice.Emulator.ParseCommand | tools/pico_ltc_emulator/firmware/src/ltc6811_emu.c:517-563 | Six numbers select their buffers and every other opcode keeps the old one; eleven numbers arm the snoop |
| EmulatorDevice.Emulator.SnoopSelector | tools/pico_ltc_emulator/firmware/src/ltc6811_emu.c:710-734 | Moves the selector and rebuilds RDAUXA, on a real selector write only |
| EmulatorDevice.Emulator.NoteByte | tools/pico_ltc_emulator/firmware/src/ltc6811_emu.c:693-699 | Counts the byte in sixteen bits and appends it to a snapshot of at most 84 |
| EmulatorDevice.Emulator.FrameByte | tools/pico_ltc_emulator/firmware/src/ltc6811_emu.c:735-772 | Windows of four; the opcode is decoded at the second byte, or at the fourth if it was not |
| EmulatorDevice.Emulator.Receive | tools/pico_ltc_emulator/firmware/src/ltc6811_emu.c:692-773 | One turn of the drain loop: note, snoop, window and decode, in that order |
| EmulatorDevice.Emulator.DrainRx | tools/pico_ltc_emulator/firmware/src/ltc6811_emu.c:692-773 | The drain loop is the fold of one-byte steps over the receive FIFO |
| EmulatorDevice.Emulator.PumpTx | tools/pico_ltc_emulator/firmware/src/ltc6811_emu.c:657-688 | Appends the next stretch of the stop-masked stream, as much as the FIFO takes |
| EmulatorDevice.Emulator.DrainTail | tools/pico_ltc_emulator/firmware/src/ltc6811_emu.c:587-594 | Tail bytes reach the snapshot only; the length counted is unchanged |
| EmulatorDevice.Emulator.PreloadPad | tools/pico_ltc_emulator/firmware/src/ltc6811_emu.c:617-641 | The transmit FIFO holds exactly the pad |
| EmulatorDevice.Emulator.OnCsRise | tools/pico_ltc_emulator/firmware/src/ltc6811_emu.c:583-654 | Records, publishes both snapshots, resets the transaction and preloads the pad |
| EmulatorDevice.Emulator.ServiceOnce | tools/pico_ltc_emulator/firmware/src/ltc6811_emu.c:566-774 | One pass is the service function on statics and FIFOs |
| EmulatorDevice.Emulator.ChangeCells | tools/pico_ltc_emulator/firmware/src/usb_cmd.c:84-142 | What a host command does to the cell state, and nothing else |
| EmulatorDevice.Emulator.Refresh | tools/pico_ltc_emulator/firmware/src/ltc6811_emu.c:462-464 | The cache becomes the direct function of cell state and selector |
| EmulatorDevice.Emulator.Execute | tools/pico_ltc_emulator/firmware/src/usb_cmd.c:84-166 | A host command's effect on cell state, cache, stop mask and statistics |
| Transactions.EveryRun | tools/pico_ltc_emulator/firmware/src/ltc6811_emu.c:566-774 | In every run: the cache is the direct function of cell state and selector, and the statistics are those of the transactions closed |
| Transactions.LateDecodeUnreachable | tools/pico_ltc_emulator/firmware/src/ltc6811_emu.c:765-772 | After any run whatever the next pass takes the late four-byte decode zero times |
| Transactions.EveryRunConserves | tools/pico_ltc_emulator/firmware/src/ltc6811_emu.c:396-431 | In every run counts and `lost` add up to the decoded transactions closed since reset, until a counter can wrap |
| Transactions.CurrentIsLastRead | tools/pico_ltc_emulator/firmware/src/ltc6811_emu.c:517-563 | In every run the buffer streamed from is that of the last read command decoded, RDCVA if there was none |
| Transactions.EveryRunAccounts | tools/pico_ltc_emulator/firmware/src/ltc6811_emu.c:396-431 | In every run the statistics account exactly for the decoded transactions closed since reset |
| Serving.DrainTracks | tools/pico_ltc_emulator/firmware/src/ltc6811_emu.c:692-773 | The decoder's state is a function of the bytes drained; an opcode is decoded exactly once, at the second byte |
| Serving.DrainStreams | tools/pico_ltc_emulator/firmware/src/ltc6811_emu.c:692-773 | Draining keeps what was pushed; the sixth byte of an arming command puts the seam where the pump stands |
| Serving.PumpStreams | tools/pico_ltc_emulator/firmware/src/ltc6811_emu.c:657-688 | The pump appends the next stretch of the data due, old before the seam and new after it |
| Serving.ServedOn | tools/pico_ltc_emulator/firmware/src/ltc6811_emu.c:566-774 | From a fall with nothing left over, every continuation keeps the account of decoder, selector, FIFOs and data |
| Falls.PromiseKeptIff | tools/pico_ltc_emulator/firmware/src/ltc6811_emu.c:583-773 | Own opcode before data, decoded exactly once, own response and four pad bytes, over every continuation, if and only if nothing was left over when the line fell |
| Falls.BreakerBreaks | tools/pico_ltc_emulator/firmware/src/ltc6811_emu.c:583-773 | For each way something can be left over, a continuation that breaks the promise |
| Falls.GapRun | tools/pico_ltc_emulator/firmware/src/ltc6811_emu.c:583-655 | In every run whose high gaps are sampled: what the device holds at each level of the line |
| Falls.PromiseKeptUnlessStray | tools/pico_ltc_emulator/firmware/src/ltc6811_emu.c:583-655 | If every high gap is sampled, the promise is kept if and only if no unseen low pulse has clocked a byte since the last noticed rise |
| Falls.SampledRun | tools/pico_ltc_emulator/firmware/src/ltc6811_emu.c:566-774 | If every level of the line is sampled, every transaction's promise is kept |
| Seams.SewnChunk | tools/pico_ltc_emulator/firmware/src/ltc6811_emu.c:306-350 | A chunk begun from one buffer and ended from another passes if and only if the two agree before the seam or after it |
| Seams.MixedAuxChunk | tools/pico_ltc_emulator/firmware/src/ltc6811_emu.c:318-339 | With the seam between AUX1 and the PEC it passes if and only if AUX1 is the same under both selectors |
| Guarantees.ReadTransaction | tools/pico_ltc_emulator/firmware/src/ltc6811_emu.c:566-774 | No data before this transaction's own opcode, decoded once; at most 80 bytes; after 0x004 to 0x00E the data is an in-order prefix of buffer 0 to 5, stop-masked |
| Guarantees.PadThenData | tools/pico_ltc_emulator/firmware/src/ltc6811_emu.c:627-641 | In every transaction the master sees what the FIFO held at the fall, then the data; four 0xFF bytes first exactly if the FIFO held them |
| Guarantees.ChunkVerdict | tools/pico_ltc_emulator/firmware/src/ltc6811_emu.c:670-687 | For every opcode, a complete chunk passes the PEC check if and only if its module's stop bit is clear and no seam shows in it |
| Guarantees.MostlySeamless | tools/pico_ltc_emulator/firmware/src/ltc6811_emu.c:710-734 | A seam can show in one chunk only, of RDAUXA only, and only if the selector moved |
| Guarantees.UnknownCommandsStreamTheLastRead | tools/pico_ltc_emulator/firmware/src/ltc6811_emu.c:517-563 | Every opcode that is no read command streams the chunks of the last read command decoded in the run, and they pass under the same condition |
| Guarantees.ReadChunk | tools/pico_ltc_emulator/firmware/src/ltc6811_emu.c:670-687 | After each of the six numbers a complete chunk passes exactly if its module is not stopped, and then it is the chip's chunk of that buffer |
| Guarantees.CellReading | tools/pico_ltc_emulator/firmware/src/ltc6811_emu.c:306-314 | 0x004, 0x006, 0x008 and 0x00A give cells 0..2, 3..5, 6..8 and 9..11 of each chip at their wire offsets, low byte first, as min(10 mV, 65535), in every chunk that passes |
| Guarantees.AuxReading | tools/pico_ltc_emulator/firmware/src/ltc6811_emu.c:318-339 | 0x00C gives the selected sensor's temperature and those of sensors 1 and 2, at their wire offsets |
| Guarantees.AuxBReading | tools/pico_ltc_emulator/firmware/src/ltc6811_emu.c:340-348 | 0x00E gives the temperatures of sensors 3 and 4, and 30000 |
| Guarantees.SelectorFollows | tools/pico_ltc_emulator/firmware/src/ltc6811_emu.c:517-537 | The selector moves to the channel written in this transaction after each of eleven numbers and after no other |
| Guarantees.ClosePublishes | tools/pico_ltc_emulator/firmware/src/ltc6811_emu.c:583-654 | Closing publishes what was pushed, counts the transaction exactly if decoded, and leaves nothing over |
| Witnesses.UnseenPulse | tools/pico_ltc_emulator/firmware/src/ltc6811_emu.c:583-688 | An unsampled low pulse of two bytes makes the next transaction push data before any byte of its own |
| Witnesses.UnseenByte | tools/pico_ltc_emulator/firmware/src/ltc6811_emu.c:583-755 | One of a single byte is decoded together with the next transaction's first byte, and data follows |
| Witnesses.SelectorMovesMidChunk | tools/pico_ltc_emulator/firmware/src/ltc6811_emu.c:657-734 | After any idle run whose last read was RDAUXA, a WRCOMM that moves the selector two bytes into the second chip's chunk: it passes if and only if the two temperatures read the same |
| EndToEnd.MixedChunkFails | tools/pico_ltc_emulator/firmware/src/ltc6811_emu.c:657-734 | From power-up, a run whose complete, unstopped chunk fails the PEC check |
| Numerals.DecimalRoundTrip | tools/pico_ltc_emulator/firmware/src/usb_cmd.c:49-54 | Base-0 parsing recovers every printed integer in range, and clamps the others |
| Numerals.HexRoundTrip | tools/pico_ltc_emulator/firmware/src/usb_cmd.c:49-54 | It recovers every mask printed as 0x and two digits |
| Numerals.BaseZero | tools/pico_ltc_emulator/firmware/src/usb_cmd.c:47-54 | 0x1f is 31, 010 is 8, -7 is -7 |
| Numerals.OnlyDigits | tools/pico_ltc_emulator/firmware/src/usb_cmd.c:49-54 | Nothing, a letter, or a digit with a letter after it is no number |
| UsbCommand.BufferBounded | tools/pico_ltc_emulator/firmware/src/usb_cmd.c:292-324 | On arbitrary bytes the line buffer never exceeds 95 characters |
| UsbCommand.LinesRoundTrip | tools/pico_ltc_emulator/firmware/src/usb_cmd.c:292-324 | Any stream of lines of at most 95 characters is dispatched as exactly those lines |
| UsbCommand.Tokenize | tools/pico_ltc_emulator/firmware/src/usb_cmd.c:34-45 | The scan leaves pointers to the first eight words, each cut off in place by a NUL |
| UsbCommand.TokensOfJoined | tools/pico_ltc_emulator/firmware/src/usb_cmd.c:34-45 | Tokenizing words joined by spaces gives the words |
| UsbCommand.SameName | tools/pico_ltc_emulator/firmware/src/usb_cmd.c:254-261 | True exactly when the upper-cased word is the name |
| UsbCommand.Decide | tools/pico_ltc_emulator/firmware/src/usb_cmd.c:263-285 | The comparisons in order find the command the line stands for |
| UsbCommand.ReceivedIsAssembled | tools/pico_ltc_emulator/firmware/src/usb_cmd.c:292-324 | Byte-at-a-time service is assembling lines and obeying each |
| UsbCommand.LinesObeyed | tools/pico_ltc_emulator/firmware/src/usb_cmd.c:263-324 | Lines sent are lines obeyed, in order |
| UsbCommand.Console.ServiceUsb | tools/pico_ltc_emulator/firmware/src/usb_cmd.c:292-324 | One call takes at most one character and does what the link function says |
| UsbCommand.Console.EndLine | tools/pico_ltc_emulator/firmware/src/usb_cmd.c:311-315 | The terminated line changes the emulator as its command does, or not at all |
| UsbCommand.Console.Dispatch | tools/pico_ltc_emulator/firmware/src/usb_cmd.c:263-285 | The verdict is that of the words of the line |
| HostClient.SetCellObeyed | tools/pico_ltc_emulator/host/pico_ltc_client.py:157-158 | The printed SET_CELL is accepted exactly when its arguments are in range, with those arguments |
| HostClient.SetTempObeyed | tools/pico_ltc_emulator/host/pico_ltc_client.py:160-161 | The same for SET_TEMP |
| HostClient.SetAllObeyed | tools/pico_ltc_emulator/host/pico_ltc_client.py:163-167 | The same for SET_ALL_CELLS and SET_ALL_TEMPS |
| HostClient.StopReplyObeyed | tools/pico_ltc_emulator/host/pico_ltc_client.py:176-186 | Every mask the client accepts is set |
| HostClient.SentIsObeyed | tools/pico_ltc_emulator/host/pico_ltc_client.py:121-131 | A line sent is the line obeyed |
| HostClient.ModuleCellToChain | tools/pico_ltc_emulator/host/pico_ltc_client.py:215-224 | Defined exactly for modules 0..4 and cells 0..18; chips 2m and 2m+1, nine cells on the first and the count going on with ten on the second |
| HostClient.ChainSplitInjective | tools/pico_ltc_emulator/host/pico_ltc_client.py:215-224 | No two module cells share a chip input |
| HostClient.VoltageInjection | tools/pico_ltc_emulator/host/pico_ltc_client.py:226-229 | Of what the AMS decodes of all modules, chip by chip and register by register, exactly entry c of module m becomes min(10 mV, 65535) |
| HostClient.VoltageRefused | tools/pico_ltc_emulator/host/pico_ltc_client.py:226-229 | A voltage outside sixteen bits changes nothing |
| HostClient.SelectorRoundTrip | tools/pico_ltc_emulator/firmware/src/ltc6811_emu.c:700-721 | Snooping an encoded selector payload recovers any channel 0..31 |
| HostClient.SelectedReading | tools/pico_ltc_emulator/firmware/src/ltc6811_emu.c:692-773 | After the first six bytes of a selecting WRCOMM, AUX1 of every chip is that channel's temperature |
| HostClient.TemperatureInjection | tools/pico_ltc_emulator/host/pico_ltc_client.py:231-253 | After an injection and a selecting WRCOMM for channel 0..9 or 16..25, in sensor order, AUX1 of chip 2m carries the injected temperature for exactly that module and sensor |
| EndToEnd.TransactionIsRun | tools/pico_ltc_emulator/firmware/src/ltc6811_emu.c:566-774 | A transaction after a run is a run |
| EndToEnd.VoltageOnTheWire | tools/pico_ltc_emulator/host/pico_ltc_client.py:226-229 | From the client's bytes to the four voltage reads on the bus: the lists the master decodes are the earlier ones with entry c of module m replaced |
| EndToEnd.TemperatureOnTheWire | tools/pico_ltc_emulator/host/pico_ltc_client.py:231-253 | From the client's bytes over the selecting WRCOMM to the read of RDAUXA: the injected temperature for that module and sensor, the earlier one for every other |
| EndToEnd.SilenceOnTheWire | tools/pico_ltc_emulator/host/pico_ltc_client.py:176-186 | After the client's STOP_REPLY n, a complete chunk of chip k in any read passes if and only if bit k / 2 of n is 0 |
| EndToEnd.SetAllMeans | tools/pico_ltc_emulator/host/pico_ltc_client.py:163-167 | SET_ALL_CELLS sets every cell and no sensor, SET_ALL_TEMPS every sensor and no cell |
| EndToEnd.ResetStateMeans | tools/pico_ltc_emulator/firmware/src/usb_cmd.c:136-142 | RESET_STATE: 3750 mV and 25.0 degrees everywhere, no module stopped; statistics and selector stay |
| EndToEnd.ResumeAllMeans | tools/pico_ltc_emulator/firmware/src/usb_cmd.c:163-166 | RESUME_ALL: no module stopped, and nothing else |
| EndToEnd.StatsResetMeans | tools/pico_ltc_emulator/firmware/src/ltc6811_emu.c:428-431 | STATS_CMDS_RESET: no entries and no losses, and nothing else |
| Bootloader.ForeignFramesIgnored | tools/flash.py:87-104 | Frames that answer something else change no verdict, wherever they fall |
| Bootloader.OnlyTheBootloaderAnswers | tools/flash.py:96-103 | A frame from another id than 0x22, too short or for another command decides nothing |
| Bootloader.TheBootloaderAnswers | tools/flash.py:96-103 | The first frame from 0x22 with the command's number and a second byte decides |
| Bootloader.FramesByBytes | tools/flash.py:32-48 | The frames by their ids and bytes |
| Bootloader.InfoRoundTrip | tools/flash.py:136-152 | A description encoded with its size and version, low bytes first, is read as that size and version, whatever else is heard |
| Bootloader.SettingCarries | tools/flash.py:183-189 | A setting is eight bytes that carry the command and, little-endian, the value |
| Bootloader.Bus.WaitAck | tools/flash.py:87-104 | Returns the first answer heard, or nothing if none was |
| Bootloader.Bus.Command | tools/flash.py:107-115 | One command sent; true exactly when its first answer carries 0 |
| Bootloader.Bus.Ping | tools/flash.py:121-124 | One ping; true exactly when anything answered it |
| Bootloader.Bus.GetInfo | tools/flash.py:127-154 | Status, size and version as the bytes of the first answer spell them |
| Bootloader.Bus.SetMetadata | tools/flash.py:171-198 | Size, CRC and version in order, each only after the one before was acknowledged with 0; raises at a value that does not fit |
| Bootloader.Bus.WriteData | tools/flash.py:201-238 | The image's frames in order, each only after the one before was acknowledged with 0; true exactly when all were |
| Bootloader.Bus.Jump | tools/flash.py:256-269 | True unless an answer carries an error |
| Bootloader.Bus.RemoteEnter | tools/flash.py:272-308 | One request to the application, then pings until one is answered |
| Bootloader.Bus.Greet | tools/flash.py:352-360 | A ping, and the detour through the application only if nothing answered |
| Bootloader.Bus.Program | tools/flash.py:376-397 | Steps 3 to 7 are an acknowledged prefix of the plan, complete exactly on success |
| Bootloader.Bus.Body | tools/flash.py:351-408 | The log is greeting, inquiry, programming and jump, each stage only if the one before allows it; it raises only if the bus did or a value does not fit |
| Bootloader.Flash | tools/flash.py:314-411 | For every bus, file, version and force flag: the log is a session with that verdict, an empty or missing file sends nothing, the bus is always shut |
| FlashRuns.WriteOnlyWhenDescribed | tools/flash.py:157-238 | No WRITE_DATA before ERASE and all three settings were acknowledged with 0; it is the next chunk and all before it were acknowledged |
| FlashRuns.FinishOnlyWhenWritten | tools/flash.py:241-253 | FINISH only after the whole image was acknowledged |
| FlashRuns.JumpOnlyWhenVerified | tools/flash.py:392-405 | JUMP is the last frame, after FINISH and a later GET_INFO gave 0 |
| FlashRuns.SuccessMeans | tools/flash.py:362-408 | True is the skip, with nothing erased, written or started and an answer whose own bytes carry status 0 and this version, or the complete acknowledged sequence |
| FlashRuns.SkipDecides | tools/flash.py:362-374 | An unforced run stops at the inquiry if and only if the answer's bytes say that this version, not 0, is installed |
| FlashRuns.JumpDecides | tools/flash.py:256-269 | After JUMP, silence and status 0 are success and any other status is failure |
| FlashRuns.FailureMeans | tools/flash.py:351-405 | False has a cause on the wire: nobody answered, or the last command was not acknowledged with 0 |
| FlashRuns.FramesCarryImage | tools/flash.py:201-238 | ceil(n/7) eight-byte frames that spell the image followed only by 0xFF |
| FlashRuns.ImageOnTheWire | tools/flash.py:201-238 | In every run the chunks sent are a prefix of those frames, and all of them once FINISH is sent |
| RelayExpander.Tca9555.WritePin | tools/tca9555.py:76-84 | The read-modify-write carries out its script, with either transaction failing or the pin negative |
| RelayExpander.Tca9555.WritePort | tools/tca9555.py:71-74 | Writes the low byte to the addressed output register |
| RelayExpander.Tca9555.WriteAll | tools/tca9555.py:86-89 | Writes both output registers; a failure in between leaves the first written |
| RelayExpander.Tca9555.SetDirection | tools/tca9555.py:45-51 | Writes the low byte to the addressed config register |
| RelayExpander.Tca9555.SetAll | tools/tca9555.py:57-65 | Writes both config registers; a failure in between leaves the first written |
| RelayExpander.Tca9555.ReadPort | tools/tca9555.py:95-98 | Returns the sensed pins and changes nothing |
| RelayExpander.Tca9555.GetDirection | tools/tca9555.py:53-55 | Returns the config register and changes nothing |
| RelayExpander.PinWriteIsLocal | tools/tca9555.py:76-84 | A pin write changes its own bit, if the register has it, and nothing else; one that raises changes nothing |
| RelayExpander.SensedIsOutput | tools/tca9555.py:95-98 | Reading a port gives the output register if and only if the outside agrees on every input pin |
| RelayExpander.DirectionMeans | tools/tca9555.py:53-65 | All inputs: a port reads the outside; all outputs: it reads back what was written; and the direction reads back |
| Broker.EveryInterleavingIsSerial | broker/bus.py:590-603 | Every interleaving of any number of threads equals the finished calls run one after another in lock order, with the same results |
| Broker.InsideHoldsLock | broker/bus.py:590-603 | A thread past the lock is the one that holds it |
| Broker.NoUpdateLost | broker/bus.py:590-603 | Once the lock is free each output bit is what the last call to address it asked for |
| Broker.AgreesWithFake | broker/fake_bus.py:180-212 | A call leaves what the atomic backend leaves if and only if it does not set a pin above 7; reads agree exactly when the outside agrees on input pins |
| Broker.RefinesFake | broker/fake_bus.py:200-212 | Without faults and with pins 0..7 every interleaving ends where the atomic operations end in lock order |
| Broker.UnlockedLosesUpdate | tools/tca9555.py:76-84 | Without the lock two successful pin writes can lose one |
| FlashDut.OtherDutSlots | tools/flash_dut.py:182-192 | Exactly the occupied slots other than the target, sorted |
| FlashDut.BenchOneDarkens | tools/flash_dut.py:188-192 | On bench-01, flashing slot 2 darkens slot 4 and flashing slot 4 darkens slot 2, and nothing else |
| FlashDut.ContainsMeans | tools/flash_dut.py:313-319 | A text contains exactly what can be cut out of it |
| FlashDut.ApplessInAnyCase | tools/flash_dut.py:313 | The exception is found in any case, anywhere in the row |
| FlashDut.RowMeans | tools/flash_dut.py:280-281 | A row is blanks, then 0, then x in either case |
| FlashDut.AtLeastOrders | tools/flash_dut.py:82-85 | Versions are totally ordered by their first, then second, then third number |
| FlashDut.OneRow | tools/flash_dut.py:280-292 | One row is found exactly when one line starts with 0x after blanks |
| FlashDut.Bench.Isolate | tools/flash_dut.py:240-249 | Every other DUT's bit 0, the target's 1, all other bits as they were; pins stay outputs |
| FlashDut.Bench.Commands | tools/flash_dut.py:263-345 | Trigger, discover, write in that order, the write only after exactly one row passed the identity rule |
| FlashDut.Bench.Attempt | tools/flash_dut.py:230-345 | Whatever fails, every command issued found the relays isolated, the pins outputs and the current at its floor |
| FlashDut.Bench.Guard | tools/flash_dut.py:230-370 | However the attempt ends, a requested restore writes the snapshot last; without one a success leaves the bench isolated |
| FlashDut.Bench.Flash | tools/flash_dut.py:195-372 | For every descriptor, port value and failure: commands guarded; a dry run touches nothing; a requested restore makes the snapshot the last value written, which is what the relays were if and only if the outside agreed on every input pin; otherwise the bench is left isolated |
| FlashDut.OnlyTargetPowered | tools/flash_dut.py:23-33 | At each command no other DUT slot is powered, and the target is exactly when its slot has a relay bit |
| FlashDut.PowerOnIsNotRestored | tools/flash_dut.py:237-238 | From power-on with the pins low the snapshot differs from the output register |
| BenchLock.RecoveryHoldsLock | tools/bench.py:601-615 | Over all interleavings every recovery step is taken by the lock holder |
| BenchLock.NoRecoveryDuringRun | tools/bench.py:601-615 | From taking the lock until leaving or dying, nobody else recovers anything |
| BenchLock.WhoWaits | tools/bench.py:640-683 | A watchdog can always go on; any other process is held up exactly while it wants a taken lock |
| BenchLock.WatchdogLivesOneLife | tools/bench.py:671-707 | A watchdog's deeds are a prefix of one of its lives: recovery only after a failing check under the lock, level 2 only after a failing check following level 1 |
| BenchLock.LifeIsPossible | tools/bench.py:671-707 | Each of those lives is one the program can live to its end |
| BenchLock.RunnerOnlySetsExitCode | tools/bench.py:656-669 | Changing runner states changes exit codes and nothing else, in any interleaving |
| BenchLock.LevelTwoRebuilds | tools/bench.py:576-598 | From every state of the bench, level 2 leaves the driver loaded after the reset, the links up on that driver and the broker restarted after all of it |
| BenchLock.LevelOneRestartsBroker | tools/bench.py:587-591 | Level 1 restarts the broker and touches nothing else |
| BenchLock.Watch.Recover | tools/bench.py:576-598 | The steps of the level's ladder, and what they leave: a rebuilt bench after level 2, a fresh broker alone after level 1 |
| BenchLock.Watch.RunLadder | tools/bench.py:699-707 | Level 1, a check, level 2 only if it failed, a check; if it failed the bench is rebuilt |
| BenchLock.Watch.Run | tools/bench.py:633-707 | The watchdog program lives exactly the life its answers give, with that exit code |
| CanTracer.Tracer.Fan | dashboard/can_tracer.py:234-245 | Every subscriber with room gets the frame; every full one is removed and gets nothing |
| CanTracer.Tracer.Number | dashboard/can_tracer.py:216-220 | A number that no frame in any history or queue has |
| CanTracer.Tracer.Keep | dashboard/can_tracer.py:232 | Appending and dropping the oldest leaves the last `history_per_bus` frames; other histories are unchanged |
| CanTracer.Tracer.NewQueue | dashboard/can_tracer.py:160-164 | A queue nobody had before, empty and subscribed last; every other queue as it was |
| CanTracer.Tracer.Drop | dashboard/can_tracer.py:166-171 | The queue is not subscribed, whether or not it was; everybody else stays and no queue changes |
| CanTracer.RemoveFirst | dashboard/can_tracer.py:168-171 | The loop removes the first occurrence, or nothing |
| CanTracer.PushKeepsLast | dashboard/can_tracer.py:133-135 | Appending to the last n of a sequence gives the last n of the longer one |
| TracerRuns.EveryRun | dashboard/can_tracer.py:187-245 | The accounts of numbers, histories and subscriptions hold in every interleaving |
| TracerRuns.SubscriberSeesARun | dashboard/can_tracer.py:234-245 | What a subscriber was given is the gap-free run of the fan-out order from its subscription to now, its first overflow or its leaving |
| TracerRuns.OverflowNeedsAFullQueue | dashboard/can_tracer.py:238-245 | A subscriber is cut off for overflow only with its bound of frames waiting |
| TracerRuns.NumbersRise | dashboard/can_tracer.py:216-218 | Numbers are globally unique and rise strictly along each bus; a bus's frames are fanned out in order |
| TracerRuns.HistoryIsLast | dashboard/can_tracer.py:232 | Each history is the last n frames of its bus, but for at most one still in its reader's hand |

## Left out

- PIO, DMA and GPIO set-up, bit timing, the TX-stall counter and the counters of `g_ltc_stats`: electrical facts and display; a byte that arrives at a full receive FIFO is dropped in the model.
- One service pass is one step: bytes clocked while a pass runs are seen by the next one. The PIO restart is taken to leave no residual byte.
- The response pool, the snapshot buffers and the receive window are sequences held in one record rather than static C arrays; their contents are modelled exactly, aliasing of `current_response` is an index.
- STATUS, DUMP and STATS_CMDS text: only that these commands change nothing the emulator streams. BSL reboots the board, which ends a run.
- Replies to the host, and the serial port's own errors.
- Unicode: blanks and lower case in a discovery's output are the ASCII ones.
- Negative port values and masks of the expander calls: values are sets of bit positions. Ports other than 0 and 1 of the in-memory backend, which has no second-port fallback.
- `_op_count`, the other drivers behind the broker, and the RPC layer.
- Recovery steps that fail: the ladder goes on past them, and what the bench then looks like is for the check that follows.
- Other broker clients writing the relay port during a flash: a run is the only one, as the lock holder is.
- Descriptor and profile loading, the `can-flasher` subprocess and its output beyond node rows, the seconds slept, evidence capture.
- The bootloader's own behaviour and `zlib.crc32`. An acknowledgement names a command, not a chunk, so "acknowledged" means that a matching frame was heard after the send.
- The merged, time-sorted view of `recent`, frame decoding and formatting, socket errors.
- The AMS and VCU message maps, the simulators, the dashboard and the hardware test blocks: small codecs, user interface, or firmware that is not in this repository.
