/**
 From a call on the host to the register the bus master decodes: the bytes the client writes to
 the serial port, the host commands they cause, and the transactions that follow on the bus.
 */
module EndToEnd {
  import opened Wrappers
  import opened CellChain
  import opened Encoding
  import opened Pec15
  import opened Responses
  import opened CmdStats
  import opened Firmware
  import opened Transactions
  import opened Serving
  import opened Falls
  import opened Guarantees
  import opened Witnesses
  import opened UsbCommand
  import opened HostClient
  import Numerals

  // ----- Serial bytes as events -----------------------------------------------

  function LineEvents(line: string): seq<Event> {
    match LineVerdict(line)
    case Accepted(cmd) => [Host(cmd)]
    case _ => []
  }

  /** The events that a stream of serial bytes causes, starting on an empty line. */
  function UsbEvents(bytes: string): seq<Event> {
    AllLineEvents(Assemble("", bytes).1)
  }

  function AllLineEvents(lines: seq<string>): seq<Event> {
    if lines == [] then [] else LineEvents(lines[0]) + AllLineEvents(lines[1..])
  }

  /** A run, and then one line from the client. */
  function Told(es: seq<Event>, line: string): seq<Event> {
    es + UsbEvents(Transmitted([line]))
  }

  lemma OneLine(line: string)
    requires Sendable(line)
    ensures UsbEvents(Transmitted([line])) == LineEvents(line)
  {
    hide LineEvents, Assemble;
    LinesRoundTrip([line]);
    assert [line][1..] == [] && AllLineEvents([]) == [];
    assert AllLineEvents([line]) == LineEvents(line) + [];
  }

  // ----- Runs end to end ------------------------------------------------------

  lemma {:induction false} RunConcat(b: Bus, es: seq<Event>, more: seq<Event>)
    requires SoundBus(b)
    ensures Run(b, es + more) == Run(Run(b, es), more)
    decreases |more|
  {
    hide Step;
    if more == [] {
      assert es + more == es;
    } else {
      var n := |more| - 1;
      assert (es + more)[..|es| + n] == es + more[..n];
      RunConcat(b, es, more[..n]);
    }
  }

  /** A transaction is a run like any other. */
  lemma TransactionIsRun(es: seq<Event>, cs: seq<Event>)
    ensures Transaction(es, cs) == Run(POWER_UP, es + [Fall] + cs)
  {
    RunConcat(POWER_UP, es + [Fall], cs);
    RunStep(POWER_UP, es, Fall);
  }

  lemma HostKeepsIdle(es: seq<Event>, cmd: HostCommand)
    requires NothingLeft(Run(POWER_UP, es).dev)
    ensures var b, r := Run(POWER_UP, es), Run(POWER_UP, es + [Host(cmd)]);
      NothingLeft(r.dev) && r.chain == ApplyChain(b.chain, cmd) && r.dev.fw == Apply(r.chain, b.dev.fw, cmd)
  {
    RunStep(POWER_UP, es, Host(cmd));
    hide Run, ApplyChain, AllResponses, Pad;
  }

  // ----- Voltages -------------------------------------------------------------

  /** Four complete voltage reads that the master might make next, each chunk passing its PEC check. */
  predicate VoltageReads(es: seq<Event>, cs: seq<seq<Event>>) {
    && |cs| == 4
    && forall s | 0 <= s < 4 ::
      var t := Transaction(es, cs[s]);
      && Continues(cs[s]) && |t.mosi| >= 2 && MasterOpcode(t) == [0x004, 0x006, 0x008, 0x00A][s]
      && |t.pushed| == 80 && forall k | 0 <= k < 10 :: Accepts(t.pushed[8 * k..8 * k + 8])
  }

  /** Their data. */
  function Decoded(es: seq<Event>, cs: seq<seq<Event>>): (groups: seq<seq<Byte>>)
    requires VoltageReads(es, cs)
    ensures |groups| == 4 && forall s | 0 <= s < 4 :: |groups[s]| == 80 && groups[s] == Transaction(es, cs[s]).pushed
  {
    [Transaction(es, cs[0]).pushed, Transaction(es, cs[1]).pushed, Transaction(es, cs[2]).pushed, Transaction(es, cs[3]).pushed]
  }

  lemma RegisterRead(es: seq<Event>, cs: seq<seq<Event>>, chip: nat, k: nat)
    requires NothingLeft(Run(POWER_UP, es).dev) && VoltageReads(es, cs) && chip < 10 && k < 12
    ensures VoltageRegister(Decoded(es, cs), chip, k) == Tenths(Run(POWER_UP, es).chain.cellMv[chip][k])
  {
    hide Run, Transaction, NothingLeft, Opcode, WireValue, Continues, POWER_UP, Accepts;
    PowerUpSound();
    var slot := k / 3;
    CellReading(es, cs[slot], chip, k % 3, slot);
    ChainKept(es, cs[slot]);
    assert 3 * slot + k % 3 == k;
  }

  lemma ModuleRead(es: seq<Event>, cs: seq<seq<Event>>, m: nat)
    requires NothingLeft(Run(POWER_UP, es).dev) && VoltageReads(es, cs) && m < 5
    ensures ModuleVoltages(Decoded(es, cs), m) == HeldVoltages(Run(POWER_UP, es).chain, m)
  {
    hide Run, Decoded, NothingLeft, VoltageReads, VoltageRegister, POWER_UP, Tenths;
    PowerUpSound();
    var groups, c := Decoded(es, cs), Run(POWER_UP, es).chain;
    forall i | 0 <= i < 19 ensures ModuleVoltages(groups, m)[i] == HeldVoltages(c, m)[i] {
      var chip, k := if i < 9 then 2 * m else 2 * m + 1, if i < 9 then i else i - 9;
      RegisterRead(es, cs, chip, k);
      assert ModuleVoltages(groups, m)[i] == VoltageRegister(groups, chip, k);
      assert HeldVoltages(c, m)[i] == Tenths(c.cellMv[chip][k]);
    }
  }

  /**
   The client sets a module cell. What the master decodes of any module from its next voltage reads is
   what it would have decoded before, with that entry of that module's list replaced.
   */
  lemma VoltageOnTheWire(es: seq<Event>, m: int, c: int, mV: int, before: seq<seq<Event>>, after: seq<seq<Event>>, m': nat)
    requires NothingLeft(Run(POWER_UP, es).dev)
    requires 0 <= m < 5 && 0 <= c < 19 && 0 <= mV <= 0xFFFF && m' < 5
    requires VoltageReads(es, before)
    requires VoltageReads(Told(es, SetModuleCellLine(m, c, mV)), after)
    ensures var told := Told(es, SetModuleCellLine(m, c, mV));
      ModuleVoltages(Decoded(told, after), m') ==
        if m' == m then ModuleVoltages(Decoded(es, before), m')[c := Min(10 * mV, 0xFFFF)]
        else ModuleVoltages(Decoded(es, before), m')
  {
    hide Run, UsbEvents, NothingLeft, SetModuleCellLine, Decoded, VoltageReads, ModuleVoltages, HeldVoltages, POWER_UP, WithCell;
    PowerUpSound();
    var told := Told(es, SetModuleCellLine(m, c, mV));
    SetModuleCellEvents(m, c, mV);
    var to := ModuleCellToChain(m, c).value;
    HostKeepsIdle(es, SetCell(to.0, to.1, mV));
    ModuleRead(es, before, m');
    ModuleRead(told, after, m');
    HeldAfter(Run(POWER_UP, es).chain, m, c, mV, m');
  }

  lemma SetModuleCellEvents(m: int, c: int, mV: int)
    requires ModuleCellToChain(m, c).Some? && 0 <= mV <= 0xFFFF
    ensures var to := ModuleCellToChain(m, c).value;
      forall es :: Told(es, SetModuleCellLine(m, c, mV)) == es + [Host(SetCell(to.0, to.1, mV))]
  {
    hide LineVerdict, SetCellLine, Sendable, UsbEvents;
    var to := ModuleCellToChain(m, c).value;
    CellLineSendable(to.0, to.1, mV);
    SetCellObeyed(to.0, to.1, mV);
    OneLine(SetCellLine(to.0, to.1, mV));
  }

  lemma ChainKept(es: seq<Event>, cs: seq<Event>)
    requires Continues(cs)
    ensures Transaction(es, cs).chain == Run(POWER_UP, es).chain
  {
    EveryRun(es);
    BaseKept(Run(POWER_UP, es), cs);
  }

  // ----- Temperatures ---------------------------------------------------------

  /** A transaction that a pass saw, closed and noticed. */
  function Finished(es: seq<Event>, cs: seq<Event>): seq<Event> {
    es + [Fall] + cs + [Rise, Event.Service]
  }

  lemma FinishedRun(es: seq<Event>, cs: seq<Event>)
    requires NothingLeft(Run(POWER_UP, es).dev) && Continues(cs) && Transaction(es, cs).sampled
    ensures var b, r := Transaction(es, cs), Run(POWER_UP, Finished(es, cs));
      && NothingLeft(r.dev) && r.chain == b.chain && r.dev.fw.selector == b.dev.fw.selector
      && r.dev.fw.current == b.dev.fw.current && r.dev.fw.stopMask == b.dev.fw.stopMask
  {
    hide Run, NothingLeft, Served, Always, POWER_UP, Low16, Opcode, SoundBus, Step, Fallen;
    PowerUpSound();
    FinishedIsSteps(es, cs);
    ClosePublishes(es, cs);
    TransactionServed(es, cs);
    EveryRun(es);
    SampledLow(Run(POWER_UP, es), cs);
    CloseKeepsSelector(Transaction(es, cs));
  }

  lemma FinishedIsSteps(es: seq<Event>, cs: seq<Event>)
    ensures Run(POWER_UP, Finished(es, cs)) == Step(Step(Transaction(es, cs), Rise), Event.Service)
  {
    hide Run, Step, POWER_UP, Transaction, SoundBus;
    PowerUpSound();
    var all := es + [Fall] + cs;
    TransactionIsRun(es, cs);
    RunStep(POWER_UP, all, Rise);
    RunStep(POWER_UP, all + [Rise], Event.Service);
    assert all + [Rise] + [Event.Service] == Finished(es, cs);
  }

  lemma CloseKeepsSelector(b: Bus)
    requires Always(b) && Served(b) && b.dev.fw.csWasLow
    ensures var r := Step(Step(b, Rise), Event.Service);
      && r.chain == b.chain && r.dev.fw.selector == b.dev.fw.selector
      && r.dev.fw.current == b.dev.fw.current && r.dev.fw.stopMask == b.dev.fw.stopMask
  {
    hide AllResponses, RecordAll, Record, CaptureAll, Pad, Streamed, FirstEight, Tracks, OpcodesOf, DecodedInTime;
    var c := b.(high := true, sampled := false);
    var e := BeforeDrain(c.chain, c.dev, true);
    assert e.rxFifo == [] && Drain(c.chain, e.fw, []) == e.fw;
  }

  /**
   The client sets a module's sensor; a WRCOMM then selects a channel; then a read of RDAUXA, if the
   chip's chunk passes its PEC check, gives the injected temperature for that module and sensor, and
   the earlier one for every other.
   */
  lemma TemperatureOnTheWire(es: seq<Event>, m: nat, sensor: nat, dC: I16, m': nat, other: nat,
                             ch: Byte, fcom: Byte, pec: (Byte, Byte),
                             cs: seq<Event>, cs': seq<Event>, selecting: Bus, t: Bus)
    requires NothingLeft(Run(POWER_UP, es).dev) && Continues(cs) && Continues(cs')
    requires m < 5 && sensor < 20 && m' < 5 && other < 20
    requires selecting == Transaction(Told(es, SetModuleTempLine(m, sensor, dC)), cs)
    requires selecting.sampled && |selecting.got| >= 6
    requires ch < 32 && fcom < 16 && ch as int == CHANNEL_MAP[other] && SelectBytes(ch, fcom, pec) <= selecting.mosi
    requires t == Transaction(Finished(Told(es, SetModuleTempLine(m, sensor, dC)), cs), cs')
    requires |t.mosi| >= 2 && MasterOpcode(t) == 0x00C
    requires 8 * (2 * m') + 8 <= |t.pushed| && Accepts(t.pushed[8 * (2 * m')..8 * (2 * m') + 8])
    ensures var earlier := Run(POWER_UP, es).chain.tempDc[2 * m'][CHANNEL_MAP[other]];
      WireValue(t.pushed, 8 * (2 * m')) == DcToLtc(if m' == m && other == sensor then dC else earlier)
  {
    hide Run, Transaction, UsbEvents, NothingLeft, SetModuleTempLine, Opcode, Accepts, WireValue, Continues, POWER_UP, SelectBytes, Finished, DcToLtc, CHANNEL_MAP, ChannelOf;
    PowerUpSound();
    var told := Told(es, SetModuleTempLine(m, sensor, dC));
    var done := Finished(told, cs);
    SetModuleTempEvents(m, sensor, dC);
    HostKeepsIdle(es, SetTemp(2 * m, ChannelOf(sensor), dC));
    ChainKept(told, cs);
    FinishedRun(told, cs);
    Selected(told, cs, ch, fcom, pec);
    ChainKept(done, cs');
    AuxReading(done, cs', 2 * m');
    ReadKeepsSelector(done, cs');
    TempAfter(Run(POWER_UP, es).chain, m, sensor, dC, m', other);
  }

  /** Setting one module's sensor changes what one channel of one chip holds. */
  lemma TempAfter(c: Chain, m: nat, sensor: nat, dC: I16, m': nat, other: nat)
    requires WellFormed(c) && m < 5 && sensor < 20 && m' < 5 && other < 20
    ensures WithTemp(c, 2 * m, ChannelOf(sensor), dC).tempDc[2 * m'][CHANNEL_MAP[other]] ==
      if m' == m && other == sensor then dC else c.tempDc[2 * m'][CHANNEL_MAP[other]]
  {
    ChannelsAgree(other);
    if other != sensor && ChannelOf(other) == ChannelOf(sensor) { ChannelsDistinct(other, sensor); }
  }

  lemma SetModuleTempEvents(m: nat, sensor: nat, dC: I16)
    requires m < MODULES && sensor < 20
    ensures forall es :: Told(es, SetModuleTempLine(m, sensor, dC)) == es + [Host(SetTemp(2 * m, ChannelOf(sensor), dC))]
  {
    hide LineVerdict, SetTempLine, Sendable, UsbEvents;
    TempLineSendable(2 * m, ChannelOf(sensor), dC);
    SetTempObeyed(2 * m, ChannelOf(sensor), dC);
    OneLine(SetTempLine(2 * m, ChannelOf(sensor), dC));
  }

  /** The bytes of a selecting WRCOMM leave the selector at their channel. */
  lemma Selected(es: seq<Event>, cs: seq<Event>, ch: Byte, fcom: Byte, pec: (Byte, Byte))
    requires NothingLeft(Run(POWER_UP, es).dev) && Continues(cs) && ch < 32 && fcom < 16
    requires var t := Transaction(es, cs); |t.got| >= 6 && SelectBytes(ch, fcom, pec) <= t.mosi
    ensures Transaction(es, cs).dev.fw.selector == ch as int
  {
    SelectorFollows(es, cs);
    hide Run, Transaction, NothingLeft, SelectorOf, SelectPayload;
    SelectorRoundTrip(ch, fcom);
    var bytes, mosi := SelectBytes(ch, fcom, pec), Transaction(es, cs).mosi;
    assert forall i | 0 <= i < 6 :: mosi[i] == bytes[i];
    assert Opcode(0x07, 0x21) == 0x721;
  }

  lemma ReadKeepsSelector(es: seq<Event>, cs: seq<Event>)
    requires NothingLeft(Run(POWER_UP, es).dev) && Continues(cs)
    requires |Transaction(es, cs).mosi| >= 2 && MasterOpcode(Transaction(es, cs)) == 0x00C
    ensures Transaction(es, cs).dev.fw.selector == Run(POWER_UP, es).dev.fw.selector
  {
    SelectorFollows(es, cs);
    hide Run, Transaction, NothingLeft, IsSelectorWrite, SelectorOf, Opcode;
  }

  // ----- Silence ---------------------------------------------------------------

  lemma StopLineSendable(n: nat)
    requires n <= 0x1F
    ensures Sendable(StopReplyLine(n))
  {
    HexPrintable(n);
    KeywordsPrintable();
    assert |Numerals.HexByte(n)| == 4;
    hide Numerals.HexByte;
    TwoWordLine("STOP_REPLY", Numerals.HexByte(n));
  }

  lemma TwoWordLine(a: string, b: string)
    requires a != "" && b != "" && Printable(a) && Printable(b) && |a| + |b| < 90
    ensures Sendable(Joined([a, b]))
  {
    var s := Joined([a, b]);
    assert [a, b][1..] == [b] && Joined([b]) == b;
    assert s == a + " " + b;
    assert forall i | 0 <= i < |s| :: s[i] == if i < |a| then a[i] else if i == |a| then ' ' else b[i - |a| - 1];
  }

  lemma StopReplyEvents(n: nat)
    requires n <= 0x1F
    ensures forall es :: Told(es, StopReplyLine(n)) == es + [Host(StopReply(n as Byte))]
  {
    hide LineVerdict, StopReplyLine, Sendable, UsbEvents;
    StopLineSendable(n);
    StopReplyObeyed(n);
    OneLine(StopReplyLine(n));
  }

  /**
   The client stops modules by number. In the next read, of voltages or temperatures, a complete chunk
   of chip k passes the PEC check if and only if bit k / 2 of that number is 0.
   */
  lemma SilenceOnTheWire(es: seq<Event>, n: nat, cs: seq<Event>, k: nat, t: Bus)
    requires NothingLeft(Run(POWER_UP, es).dev) && Continues(cs) && n <= 0x1F && k < 10
    requires t == Transaction(Told(es, StopReplyLine(n)), cs)
    requires |t.mosi| >= 2 && MasterOpcode(t) in {0x004, 0x006, 0x008, 0x00A, 0x00C, 0x00E}
    requires 8 * k + 8 <= |t.pushed|
    ensures Accepts(t.pushed[8 * k..8 * k + 8]) <==> (n / Pow2(k / 2)) % 2 == 0
  {
    hide Run, Transaction, NothingLeft, StopReplyLine, Opcode, Stopped, Accepts, Continues, POWER_UP, SoundBus, Told;
    PowerUpSound();
    var told := Told(es, StopReplyLine(n));
    StopReplyEvents(n);
    HostKeepsIdle(es, StopReply(n as Byte));
    KeptThrough(told, cs);
    var slot := SlotOf(MasterOpcode(t));
    ReadChunk(told, cs, k, slot);
    FiveBits(n);
    StoppedBit(n as Byte, n, k / 2);
  }

  lemma FiveBits(n: nat)
    requires n <= 0x1F
    ensures (n as Byte) & 0x1F == n as Byte
  {
    ByteRoundTrip(n);
    assert (n as Byte) <= 0x1F;
  }

  lemma SlotOf(op: Word) returns (slot: nat)
    requires op in {0x004, 0x006, 0x008, 0x00A, 0x00C, 0x00E}
    ensures slot < 6 && op == [0x004, 0x006, 0x008, 0x00A, 0x00C, 0x00E][slot]
  {
    slot := if op == 0x004 then 0 else if op == 0x006 then 1 else if op == 0x008 then 2
      else if op == 0x00A then 3 else if op == 0x00C then 4 else 5;
  }

  // ----- Setting everything ----------------------------------------------------

  lemma SetAllEvents(n: int)
    ensures 0 <= n <= 0xFFFF ==> forall es :: Told(es, SetAllCellsLine(n)) == es + [Host(SetAllCells(n))]
    ensures -0x8000 <= n <= 0x7FFF ==> forall es :: Told(es, SetAllTempsLine(n)) == es + [Host(SetAllTemps(n))]
  {
    if -0x8000 <= n <= 0xFFFF {
      SetAllObeyed(n);
      DecimalPrintable(n);
      DecimalFits(n);
      KeywordsPrintable();
      assert Numerals.Decimal(n) != "" by { DecimalFits(n); }
      hide LineVerdict, UsbEvents, Numerals.Decimal, Sendable, Printable;
      TwoWordLine("SET_ALL_CELLS", Numerals.Decimal(n));
      TwoWordLine("SET_ALL_TEMPS", Numerals.Decimal(n));
      OneLine(SetAllCellsLine(n));
      OneLine(SetAllTempsLine(n));
    }
  }

  /** SET_ALL_CELLS: every cell of every chip; SET_ALL_TEMPS: every sensor; and not the other. */
  lemma SetAllMeans(es: seq<Event>, n: int)
    requires NothingLeft(Run(POWER_UP, es).dev)
    ensures 0 <= n <= 0xFFFF ==>
      var b, r := Run(POWER_UP, es), Run(POWER_UP, Told(es, SetAllCellsLine(n)));
      r.chain.tempDc == b.chain.tempDc && forall chip, k | 0 <= chip < 10 && 0 <= k < 12 :: r.chain.cellMv[chip][k] == n
    ensures -0x8000 <= n <= 0x7FFF ==>
      var b, r := Run(POWER_UP, es), Run(POWER_UP, Told(es, SetAllTempsLine(n)));
      r.chain.cellMv == b.chain.cellMv && forall chip, k | 0 <= chip < 10 && 0 <= k < 32 :: r.chain.tempDc[chip][k] == n
  {
    hide Run, Told, NothingLeft, POWER_UP, AllResponses, SetAllCellsLine, SetAllTempsLine;
    PowerUpSound();
    SetAllEvents(n);
    if 0 <= n <= 0xFFFF { HostKeepsIdle(es, SetAllCells(n)); }
    if -0x8000 <= n <= 0x7FFF { HostKeepsIdle(es, SetAllTemps(n)); }
  }

  // ----- The lines without arguments ------------------------------------------

  /** A line of one word is that word's command. */
  lemma KeywordEvents(word: string, cmd: HostCommand)
    requires word != "" && |word| < 90 && Printable(word) && Interpret([word]) == Accepted(cmd)
    ensures forall es :: Told(es, word) == es + [Host(cmd)]
  {
    assert Sendable(word);
    hide CString, Tokens, Upper, Printable, Sendable, UsbEvents, Interpret;
    assert Joined([word]) == word;
    WordsRecovered([word]);
    OneLine(word);
  }

  lemma ResetWord()
    ensures Interpret(["RESET_STATE"]) == Accepted(ResetState)
  {
    UpperKeyword("RESET_STATE");
  }

  lemma ResumeWord()
    ensures Interpret(["RESUME_ALL"]) == Accepted(ResumeAll)
  {
    UpperKeyword("RESUME_ALL");
  }

  lemma StatsWord()
    ensures Interpret(["STATS_CMDS_RESET"]) == Accepted(StatsReset)
  {
    UpperKeyword("STATS_CMDS_RESET");
  }

  /** RESET_STATE: every cell at 3750 mV, every sensor at 25.0 degrees, no module stopped; the
      statistics and the selector stay. */
  lemma ResetStateMeans(es: seq<Event>)
    requires NothingLeft(Run(POWER_UP, es).dev)
    ensures var b, r := Run(POWER_UP, es), Run(POWER_UP, Told(es, "RESET_STATE"));
      && (forall chip, k | 0 <= chip < 10 && 0 <= k < 12 :: r.chain.cellMv[chip][k] == 3750)
      && (forall chip, k | 0 <= chip < 10 && 0 <= k < 32 :: r.chain.tempDc[chip][k] == 250)
      && r.dev.fw.stopMask == 0 && r.dev.fw.stats == b.dev.fw.stats && r.dev.fw.selector == b.dev.fw.selector
  {
    hide Run, Told, NothingLeft, POWER_UP, AllResponses, Interpret;
    PowerUpSound();
    ResetWord();
    KeywordEvents("RESET_STATE", ResetState);
    HostKeepsIdle(es, ResetState);
  }

  /** RESUME_ALL: no module stopped, and nothing else. */
  lemma ResumeAllMeans(es: seq<Event>)
    requires NothingLeft(Run(POWER_UP, es).dev)
    ensures var b, r := Run(POWER_UP, es), Run(POWER_UP, Told(es, "RESUME_ALL"));
      r.chain == b.chain && r.dev.fw == b.dev.fw.(stopMask := 0)
  {
    hide Run, Told, NothingLeft, POWER_UP, AllResponses, Interpret;
    PowerUpSound();
    ResumeWord();
    KeywordEvents("RESUME_ALL", ResumeAll);
    HostKeepsIdle(es, ResumeAll);
  }

  /** STATS_CMDS_RESET: no entries and no losses, and nothing else. */
  lemma StatsResetMeans(es: seq<Event>)
    requires NothingLeft(Run(POWER_UP, es).dev)
    ensures var b, r := Run(POWER_UP, es), Run(POWER_UP, Told(es, "STATS_CMDS_RESET"));
      r.chain == b.chain && r.dev.fw == b.dev.fw.(stats := Stats([], 0))
  {
    hide Run, Told, NothingLeft, POWER_UP, AllResponses, Interpret;
    PowerUpSound();
    StatsWord();
    KeywordEvents("STATS_CMDS_RESET", StatsReset);
    HostKeepsIdle(es, StatsReset);
  }

  // ----- A run with a chunk that fails ----------------------------------------

  lemma {:induction false} DrainKeepsMask(c: Chain, f: Fw, bytes: seq<Byte>)
    requires WellFormed(c) && Sound(f)
    ensures Drain(c, f, bytes).stopMask == f.stopMask
    decreases |bytes|
  {
    hide AllResponses, Response, Windowed, DecodesAt, SelectorMoves;
    if bytes != [] {
      DrainKeepsMask(c, RxByte(c, f, bytes[0]), bytes[1..]);
    }
  }

  lemma StepKeepsMask(b: Bus, e: Event)
    requires SoundBus(b) && (e.Clock? || e.Service?)
    ensures Step(b, e).dev.fw.stopMask == b.dev.fw.stopMask
  {
    hide AllResponses, Drain, Record, CaptureAll, PumpBytes, ServiceOpcodes;
    if e.Service? {
      var d := BeforeDrain(b.chain, b.dev, b.high);
      DrainKeepsMask(b.chain, d.fw, d.rxFifo);
    }
  }

  lemma {:induction false} MaskKept(b: Bus, cs: seq<Event>)
    requires SoundBus(b) && Continues(cs)
    ensures Run(Fallen(b), cs).dev.fw.stopMask == b.dev.fw.stopMask
    decreases |cs|
  {
    hide Step;
    if cs != [] {
      var n := |cs| - 1;
      MaskKept(b, cs[..n]);
      StepKeepsMask(Run(Fallen(b), cs[..n]), cs[n]);
    }
  }

  /** The second chip's sensor on channel 1 set to 90.0 degrees, the others as at power-up. */
  const WARMED: seq<Event> := [Host(SetTemp(1, 1, 900))]

  /** A read of RDAUXA, cut off after its opcode. */
  const READ: seq<Event> := [Clock(0x00), Clock(0x0C), Event.Service]

  lemma Warmed()
    ensures var b := Run(POWER_UP, WARMED);
      && NothingLeft(b.dev) && b.dev.fw.selector == 0 && b.dev.fw.stopMask == 0
      && b.chain.tempDc[1][0] == 250 && b.chain.tempDc[1][1] == 900
  {
    hide AllResponses;
    RunNone(POWER_UP);
    assert [] + WARMED == WARMED;
    HostKeepsIdle([], SetTemp(1, 1, 900));
  }

  lemma ReadTally()
    ensures Continues(READ) && READ[..2] + [Event.Service] == READ
    ensures TalliedAll(Tally(4, 0, 0, 0, 0), READ) == Tally(2, 0, 2, 0, 0)
    ensures Clocks(READ) == [0x00, 0x0C]
  {
    hide TalliedAll, Clocks;
    assert READ[0..] == READ && READ[3..] == [];
    TallyDown(Tally(4, 0, 0, 0, 0), READ, 0);
    TallyDown(Tally(3, 1, 0, 0, 0), READ, 1);
    TallyDown(Tally(2, 2, 0, 0, 0), READ, 2);
    TallyEnd(Tally(2, 0, 2, 0, 0));
    assert Clocks([]) == [] by { NoClocks(); }
  }

  lemma NoClocks()
    ensures Clocks([]) == []
  {
  }

  /** Any idle run, followed by that read, leaves RDAUXA the current buffer. */
  lemma ReadSelectsAux(es: seq<Event>)
    requires NothingLeft(Run(POWER_UP, es).dev)
    ensures var t := Transaction(es, READ);
      && t.sampled && t.dev.fw.current == RDAUXA && |t.got| == 2
  {
    hide POWER_UP, Run, Transaction, TalliedAll, Clocks, NothingLeft, Served, Always, Step, Honoured, Continues;
    ReadTally();
    StartTally(es);
    TallyRun(es, [], READ);
    assert [] + READ == READ && [] + Clocks(READ) == Clocks(READ);
    TransactionServed(es, READ);
    var t := Transaction(es, READ);
    ServedIsHonoured(t);
    AuxDecoded(t);
    TransactionStep(es, READ[..2], Event.Service);
    PassSamples(Transaction(es, READ[..2]));
    assert t.sampled by { StepIsPass(Transaction(es, READ[..2])); }
  }

  lemma StepIsPass(b: Bus)
    requires SoundBus(b)
    ensures Step(b, Event.Service).sampled
  {
    PassSamples(b);
  }

  lemma AuxDecoded(b: Bus)
    requires SoundBus(b) && Served(b) && b.mosi == [0x00, 0x0C] && |b.got| == 2
    ensures b.dev.fw.current == RDAUXA
  {
    OpcodeHeard(b);
    assert Opcode(0x00, 0x0C) == 0x00C;
    hide Opcode, Streamed, Tracks, FirstEight, Pad, SelectorAfter, OpcodesOf;
  }

  /** From power-up: warm one sensor, read RDAUXA, select that sensor's channel. The second chip's
      chunk is then complete, its module is not stopped, and it fails the master's PEC check. */
  lemma MixedChunkFails()
    ensures var es := Finished(WARMED, READ); var b := Transaction(es, MID_CHUNK);
      && NothingLeft(Run(POWER_UP, es).dev)
      && |b.pushed| == 16 && !Stopped(b.dev.fw.stopMask, 0)
      && !Accepts(b.pushed[8..16])
  {
    hide POWER_UP, Run, Transaction, NothingLeft, Accepts, Finished, DcToLtc, RunOpcodes, LastRead, SoundBus;
    PowerUpSound();
    Warmed();
    ReadTally();
    ReadSelectsAux(WARMED);
    FinishedRun(WARMED, READ);
    var es := Finished(WARMED, READ);
    KeptThrough(WARMED, READ);
    SelectorFollows(WARMED, READ);
    CurrentIsLastRead(es);
    MidChunkBytes();
    KeptThrough(es, MID_CHUNK);
    assert !Stopped(0, 0);
    SelectorMovesMidChunk(es);
    DcToLtcFalls(250, 900);
  }

  lemma KeptThrough(es: seq<Event>, cs: seq<Event>)
    requires Continues(cs)
    ensures var b, t := Run(POWER_UP, es), Transaction(es, cs);
      t.dev.fw.stopMask == b.dev.fw.stopMask && t.chain == b.chain
  {
    hide Always;
    MaskKept(Run(POWER_UP, es), cs);
    ChainKept(es, cs);
  }
}
