/**
 One pass of the polled SPI service loop of
 tools/pico_ltc_emulator/firmware/src/ltc6811_emu.c, as a function on the firmware's
 static variables and its two hardware FIFOs.
 */
module Firmware {
  import opened Wrappers
  import opened CellChain
  import opened Pec15
  import opened Responses
  import opened CmdStats

  /** tx_snap_cmd_recorded before any opcode of the transaction was decoded. */
  const NO_CMD: Word := 0xFFFF
  const FIFO_DEPTH := 8

  /** What the service loop keeps for the transaction in progress. */
  datatype Xact = Xact(
    parsed: bool,              // cmd_parsed_this_xact
    armed: bool,               // is_wrcomm_xact
    cmd: Word,                 // tx_snap_cmd_recorded
    rxBuf: seq<Byte>,          // rx_buf[..rx_idx]
    rxSnap: seq<Byte>,         // rx_snap[..rx_snap_idx]
    rxCount: U16,              // xact_rx_count
    txSnap: seq<Byte>,         // tx_snap[..tx_snap_idx]
    dataIdx: nat               // tx_data_idx
  )

  const FRESH := Xact(false, false, NO_CMD, [], [], 0, [], 0)

  datatype Fw = Fw(
    pool: seq<seq<Byte>>,      // response_pool
    current: nat,              // current_response, as an index into the pool
    stopMask: Byte,            // g_stop_module_mask
    selector: Channel,         // g_adg731_ch
    initDone: bool,            // response_init_done
    csWasLow: bool,
    stats: Stats,
    txPublished: seq<Byte>,
    txPublishedCmd: Word,
    rxPublished: seq<Byte>,
    x: Xact
  )

  predicate SoundXact(x: Xact) {
    && |x.rxBuf| < 4
    && x.dataIdx <= DATA_LEN
    && |x.txSnap| <= RESPONSE_LEN
    && |x.rxSnap| <= RESPONSE_LEN
  }

  predicate SoundPool(pool: seq<seq<Byte>>) {
    |pool| == SLOTS && forall s :: 0 <= s < SLOTS ==> |pool[s]| == RESPONSE_LEN
  }

  predicate Sound(f: Fw) {
    SoundPool(f.pool) && f.current < SLOTS && SoundXact(f.x)
  }

  // ----- Opcodes --------------------------------------------------------------

  function Opcode(b0: Byte, b1: Byte): Word {
    (((b0 & 0x07) as Word) << 8) | (b1 as Word)
  }

  lemma OpcodeIsElevenBits(b0: Byte, b1: Byte)
    ensures Opcode(b0, b1) <= 0x7FF && Opcode(b0, b1) != NO_CMD
  {
    assert (b0 & 0x07) as Word <= 0x07;
  }

  /** The buffer a read command streams from; every other opcode leaves the old one. */
  function ReadSlot(cmd: Word): (s: Option<nat>)
    ensures s.Some? ==> s.value < SLOTS
  {
    if cmd == 0x004 then Some(RDCVA)
    else if cmd == 0x006 then Some(RDCVB)
    else if cmd == 0x008 then Some(RDCVC)
    else if cmd == 0x00A then Some(RDCVD)
    else if cmd == 0x00C then Some(RDAUXA)
    else if cmd == 0x00E then Some(RDAUXB)
    else None
  }

  /** The six read commands, by their numbers, and no others. */
  lemma ReadOpcodes(cmd: Word)
    ensures forall slot | 0 <= slot < 6 :: ReadSlot([0x004, 0x006, 0x008, 0x00A, 0x00C, 0x00E][slot]) == Some(slot)
    ensures ReadSlot(cmd).Some? <==> cmd in {0x004, 0x006, 0x008, 0x00A, 0x00C, 0x00E}
  {
    var ops: seq<Word> := [0x004, 0x006, 0x008, 0x00A, 0x00C, 0x00E];
    assert ReadSlot(ops[0]) == Some(0) && ReadSlot(ops[1]) == Some(1) && ReadSlot(ops[2]) == Some(2);
    assert ReadSlot(ops[3]) == Some(3) && ReadSlot(ops[4]) == Some(4) && ReadSlot(ops[5]) == Some(5);
  }

  /** An opcode is three bits of the first byte and all of the second. */
  lemma OpcodeSplits(b0: Byte, b1: Byte)
    ensures Opcode(b0, b1) >> 8 == (b0 & 0x07) as Word
    ensures Opcode(b0, b1) & 0x00FF == b1 as Word
  {
  }

  /** The case labels that fall through to WRCOMM and arm the selector snoop. */
  predicate ArmsSnoop(cmd: Word) {
    || cmd == 0x001 || cmd == 0x002 || cmd == 0x010 || cmd == 0x012
    || cmd == 0x014 || cmd == 0x016 || cmd == 0x024 || cmd == 0x026
    || cmd == 0x02C || cmd == 0x714 || cmd == 0x721
  }

  lemma ReadsDoNotArm(cmd: Word)
    ensures ReadSlot(cmd).Some? ==> !ArmsSnoop(cmd)
  {
  }

  /** parse_ltc_cmd's effect on current_response. */
  function CurrentAfter(current: nat, cmd: Word): nat {
    if ReadSlot(cmd).Some? then ReadSlot(cmd).value else current
  }

  // ----- The selector snoop ---------------------------------------------------

  predicate IsSelectorWrite(p0: Byte) {
    (p0 >> 4) & 0x0F == 0x8
  }

  function SelectorOf(p0: Byte, p1: Byte): Channel {
    var data := ((p0 & 0x0F) << 4) | ((p1 >> 4) & 0x0F);
    ((data >> 1) & 0x1F) as int
  }

  /** Whether the byte just noted completes a selector write that changes the selector. */
  predicate SelectorMoves(sel: Channel, x: Xact) {
    && x.armed
    && |x.rxSnap| == 6
    && IsSelectorWrite(x.rxSnap[4])
    && SelectorOf(x.rxSnap[4], x.rxSnap[5]) != sel
  }

  /** The snoop: move the selector and rebuild RDAUXA, and nothing else. */
  function Snooped(c: Chain, f: Fw, x: Xact): (g: Fw)
    requires WellFormed(c) && SoundPool(f.pool)
    ensures SoundPool(g.pool)
  {
    if SelectorMoves(f.selector, x) then
      var ch := SelectorOf(x.rxSnap[4], x.rxSnap[5]);
      f.(selector := ch, pool := f.pool[RDAUXA := Response(c, ch, RDAUXA)])
    else f
  }

  // ----- Receiving ------------------------------------------------------------

  function Capture(snap: seq<Byte>, b: Byte): seq<Byte> {
    if |snap| < RESPONSE_LEN then snap + [b] else snap
  }

  /** xact_rx_count is a 16-bit counter. */
  function CountedUp(n: U16): U16 {
    (n + 1) % 0x1_0000
  }

  function Noted(x: Xact, b: Byte): Xact {
    x.(rxCount := CountedUp(x.rxCount), rxSnap := Capture(x.rxSnap, b))
  }

  /** The opcode is decoded when the window holds two bytes. */
  predicate EarlyDecode(x: Xact, window: seq<Byte>) {
    |window| == 2 && !x.parsed
  }

  /** The fallback: a full window and still nothing decoded. */
  predicate LateDecode(x: Xact, window: seq<Byte>) {
    |window| == 4 && !x.parsed
  }

  predicate DecodesAt(x: Xact, window: seq<Byte>) {
    EarlyDecode(x, window) || LateDecode(x, window)
  }

  function WindowOpcode(window: seq<Byte>): Word
    requires |window| >= 2
  {
    Opcode(window[0], window[1])
  }

  function Windowed(x: Xact, window: seq<Byte>): Xact {
    var rxBuf := if |window| < 4 then window else [];
    if DecodesAt(x, window) then
      var cmd := WindowOpcode(window);
      x.(rxBuf := rxBuf, parsed := true, armed := x.armed || ArmsSnoop(cmd), cmd := cmd)
    else x.(rxBuf := rxBuf)
  }

  /** The body of the drain loop: note, snoop, window and decode. */
  function RxByte(c: Chain, f: Fw, b: Byte): (g: Fw)
    requires WellFormed(c) && Sound(f)
    ensures Sound(g)
  {
    var x := Noted(f.x, b);
    var window := x.rxBuf + [b];
    var g := Snooped(c, f, x);
    g.(x := Windowed(x, window),
       current := if DecodesAt(x, window) then CurrentAfter(g.current, WindowOpcode(window)) else g.current)
  }

  function Drain(c: Chain, f: Fw, bytes: seq<Byte>): (g: Fw)
    requires WellFormed(c) && Sound(f)
    ensures Sound(g)
    decreases |bytes|
  {
    if bytes == [] then f else Drain(c, RxByte(c, f, bytes[0]), bytes[1..])
  }

  // ----- Transmitting ---------------------------------------------------------

  /** Bit `unit` of the stop mask: whether that AMS module is silenced. */
  predicate Stopped(mask: Byte, unit: nat) {
    if unit == 0 then mask & 0x01 != 0
    else if unit == 1 then mask & 0x02 != 0
    else if unit == 2 then mask & 0x04 != 0
    else if unit == 3 then mask & 0x08 != 0
    else if unit == 4 then mask & 0x10 != 0
    else false
  }

  function Pow2(k: nat): (p: nat)
    ensures p > 0
  {
    if k == 0 then 1 else 2 * Pow2(k - 1)
  }

  /** Bit `unit` of the mask, as a number: 1, 2, 4, 8 and 16 stand for modules 0 to 4. */
  lemma StoppedBit(mask: Byte, n: nat, unit: nat)
    requires n <= 0x1F && mask == n as Byte && unit < 5
    ensures Stopped(mask, unit) <==> (n / Pow2(unit)) % 2 == 1
  {
    hide Stopped;
    if n < 8 {
      StoppedBitIn(mask, n, unit, 0);
    } else if n < 16 {
      StoppedBitIn(mask, n, unit, 8);
    } else if n < 24 {
      StoppedBitIn(mask, n, unit, 16);
    } else {
      StoppedBitIn(mask, n, unit, 24);
    }
  }

  lemma StoppedBitIn(mask: Byte, n: nat, unit: nat, lo: nat)
    requires n <= 0x1F && mask == n as Byte && unit < 5 && lo <= n < lo + 8
    requires lo == 0 || lo == 8 || lo == 16 || lo == 24
    ensures Stopped(mask, unit) <==> (n / Pow2(unit)) % 2 == 1
  {
    assert Pow2(0) == 1 && Pow2(1) == 2 && Pow2(2) == 4 && Pow2(3) == 8 && Pow2(4) == 16;
    hide Pow2;
    var k := n - lo;
    assert k == 0 || k == 1 || k == 2 || k == 3 || k == 4 || k == 5 || k == 6 || k == 7;
  }

  /** maybe_suppress_data: two chips, sixteen bytes, per module. */
  function Suppress(mask: Byte, b: Byte, idx: nat): Byte {
    if Stopped(mask, idx / 8 / 2) then 0xFF else b
  }

  function Suppressed(mask: Byte, data: seq<Byte>): (r: seq<Byte>)
    ensures |r| == |data|
    ensures forall i :: 0 <= i < |r| ==> r[i] == Suppress(mask, data[i], i)
  {
    seq(|data|, i requires 0 <= i < |data| => Suppress(mask, data[i], i))
  }

  /** The data section the pump streams from. */
  function Stream(f: Fw): (data: seq<Byte>)
    requires Sound(f)
    ensures |data| == DATA_LEN
  {
    Suppressed(f.stopMask, f.pool[f.current][PAD_LEN..])
  }

  /** Byte i of the stream is 0xFF if the mask, as a number, has module i / 16 in it, and the
      buffer's own byte, behind its four pad bytes, if not. */
  lemma StreamByte(f: Fw, n: nat, i: nat)
    requires Sound(f) && n <= 0x1F && f.stopMask == n as Byte && i < 80
    ensures Stream(f)[i] == if (n / Pow2(i / 16)) % 2 == 1 then 0xFF else f.pool[f.current][4 + i]
  {
    hide Stopped;
    assert i / 8 / 2 == i / 16;
    StoppedBit(f.stopMask, n, i / 16);
  }

  /** How many bytes the pump moves: until the FIFO is full or the data runs out. */
  function PumpCount(x: Xact, queued: nat): (n: nat)
    requires x.dataIdx <= DATA_LEN && queued <= FIFO_DEPTH
    ensures n <= DATA_LEN - x.dataIdx && n <= FIFO_DEPTH - queued
  {
    if !x.parsed then 0
    else if DATA_LEN - x.dataIdx < FIFO_DEPTH - queued then DATA_LEN - x.dataIdx
    else FIFO_DEPTH - queued
  }

  /** The bytes one pump appends to a FIFO that already holds `queued` bytes. */
  function PumpBytes(f: Fw, queued: nat): (bytes: seq<Byte>)
    requires Sound(f) && queued <= FIFO_DEPTH
    ensures |bytes| == PumpCount(f.x, queued)
  {
    Stream(f)[f.x.dataIdx..f.x.dataIdx + PumpCount(f.x, queued)]
  }

  function CaptureAll(snap: seq<Byte>, bytes: seq<Byte>): (r: seq<Byte>)
    requires |snap| <= RESPONSE_LEN
    ensures |r| <= RESPONSE_LEN
    ensures |snap| + |bytes| <= RESPONSE_LEN ==> r == snap + bytes
  {
    var n := RESPONSE_LEN - |snap|;
    if |bytes| <= n then snap + bytes else snap + bytes[..n]
  }

  function Pumped(x: Xact, bytes: seq<Byte>): (y: Xact)
    requires SoundXact(x) && x.dataIdx + |bytes| <= DATA_LEN
    ensures SoundXact(y)
  {
    x.(txSnap := CaptureAll(x.txSnap, bytes), dataIdx := x.dataIdx + |bytes|)
  }

  // ----- Chip select rising ---------------------------------------------------

  /** The transaction boundary; `tail` is what was still in the receive FIFO. */
  function CsRise(f: Fw, tail: seq<Byte>): (g: Fw)
    requires Sound(f)
    ensures Sound(g)
  {
    f.(stats := if f.x.cmd != NO_CMD then Record(f.stats, f.x.cmd, f.x.rxCount) else f.stats,
       txPublished := f.x.txSnap,
       txPublishedCmd := f.x.cmd,
       rxPublished := CaptureAll(f.x.rxSnap, tail),
       x := FRESH)
  }

  // ----- The whole pass -------------------------------------------------------

  /** The firmware's statics and the two PIO FIFOs. */
  datatype Device = Device(fw: Fw, txFifo: seq<Byte>, rxFifo: seq<Byte>)

  predicate SoundDevice(d: Device) {
    Sound(d.fw) && |d.txFifo| <= FIFO_DEPTH
  }

  function Init(c: Chain, f: Fw): (g: Fw)
    requires WellFormed(c) && Sound(f)
    ensures Sound(g)
  {
    if f.initDone then f
    else f.(pool := AllResponses(c, f.selector), current := RDCVA, initDone := true)
  }

  /** Close the transaction if the chip-select line was low and is now high. */
  function EdgeSeen(d: Device, csHigh: bool): (e: Device)
    requires SoundDevice(d)
    ensures SoundDevice(e)
  {
    var closed := if d.fw.csWasLow && csHigh then Device(CsRise(d.fw, d.rxFifo), Pad(), []) else d;
    closed.(fw := closed.fw.(csWasLow := !csHigh))
  }

  function PumpDevice(d: Device): (e: Device)
    requires SoundDevice(d)
    ensures SoundDevice(e)
  {
    var bytes := PumpBytes(d.fw, |d.txFifo|);
    Device(d.fw.(x := Pumped(d.fw.x, bytes)), d.txFifo + bytes, d.rxFifo)
  }

  /** Everything before the receive drain. */
  function BeforeDrain(c: Chain, d: Device, csHigh: bool): (e: Device)
    requires WellFormed(c) && SoundDevice(d)
    ensures SoundDevice(e)
  {
    var e := EdgeSeen(d.(fw := Init(c, d.fw)), csHigh);
    if !csHigh then PumpDevice(e) else e
  }

  function Service(c: Chain, d: Device, csHigh: bool): (e: Device)
    requires WellFormed(c) && SoundDevice(d)
    ensures SoundDevice(e)
  {
    var e := BeforeDrain(c, d, csHigh);
    Device(Drain(c, e.fw, e.rxFifo), e.txFifo, [])
  }

  function BootChain(): (c: Chain)
    ensures WellFormed(c)
  {
    Uniform(DEFAULT_CELL_MV, DEFAULT_TEMP_DC)
  }

  function BootFw(): (f: Fw)
    ensures Sound(f)
  {
    Fw(AllResponses(BootChain(), 0), RDCVA, 0, 0, false, false, NO_STATS, [], NO_CMD, [], FRESH)
  }

  /** The state ltc6811_emu_init leaves behind, after cell_state_reset. */
  function Boot(): (d: Device)
    ensures SoundDevice(d)
  {
    Device(BootFw(), Pad(), [])
  }

  // ----- Host commands --------------------------------------------------------

  datatype HostCommand =
    | SetCell(ltc: nat, cell: nat, mV: U16)
    | SetTemp(chip: nat, sensor: nat, dC: I16)
    | SetAllCells(allMv: U16)
    | SetAllTemps(allDc: I16)
    | ResetState
    | StopReply(mask: Byte)
    | ResumeAll
    | StatsReset
    | Query

  /** What a command does to g_state. */
  function ApplyChain(c: Chain, cmd: HostCommand): (d: Chain)
    requires WellFormed(c)
    ensures WellFormed(d)
  {
    match cmd
    case SetCell(ltc, cell, mV) => WithCell(c, ltc, cell, mV)
    case SetTemp(ltc, sensor, dC) => WithTemp(c, ltc, sensor, dC)
    case SetAllCells(mV) => c.(cellMv := Uniform(mV, DEFAULT_TEMP_DC).cellMv)
    case SetAllTemps(dC) => c.(tempDc := Uniform(DEFAULT_CELL_MV, dC).tempDc)
    case ResetState => Uniform(DEFAULT_CELL_MV, DEFAULT_TEMP_DC)
    case _ => c
  }

  predicate Refreshes(cmd: HostCommand) {
    cmd.SetCell? || cmd.SetTemp? || cmd.SetAllCells? || cmd.SetAllTemps? || cmd.ResetState?
  }

  /** What a command does to the stop mask and the statistics. */
  function Flagged(f: Fw, cmd: HostCommand): (g: Fw)
    ensures g == f.(stopMask := g.stopMask, stats := g.stats)
  {
    match cmd
    case ResetState => f.(stopMask := 0)
    case StopReply(mask) => f.(stopMask := mask & 0x1F)
    case ResumeAll => f.(stopMask := 0)
    case StatsReset => f.(stats := NO_STATS)
    case _ => f
  }

  /** What a command does to the emulator, given g_state after it. */
  function Apply(d: Chain, f: Fw, cmd: HostCommand): (g: Fw)
    requires WellFormed(d) && Sound(f)
    ensures Sound(g)
  {
    Flagged(if Refreshes(cmd) then f.(pool := AllResponses(d, f.selector)) else f, cmd)
  }
}
