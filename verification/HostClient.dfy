/**
 The Python client (tools/pico_ltc_emulator/host/pico_ltc_client.py) and what reaches the
 wire: from a call on the host to the register value the bus master decodes.
 */
module HostClient {
  import opened Wrappers
  import opened CellChain
  import opened Encoding
  import opened Pec15
  import opened Responses
  import opened Firmware
  import opened Transactions
  import opened Serving
  import opened Guarantees
  import opened UsbCommand
  import Numerals

  const CELLS_PER_LTC_UPPER := 9
  const CELLS_PER_MODULE := 19
  const MODULES := 5

  // ----- Formatting -----------------------------------------------------------

  function SetCellLine(m: int, c: int, mV: int): string {
    Joined(["SET_CELL", Numerals.Decimal(m), Numerals.Decimal(c), Numerals.Decimal(mV)])
  }

  function SetTempLine(m: int, s: int, dC: int): string {
    Joined(["SET_TEMP", Numerals.Decimal(m), Numerals.Decimal(s), Numerals.Decimal(dC)])
  }

  function SetAllCellsLine(mV: int): string {
    Joined(["SET_ALL_CELLS", Numerals.Decimal(mV)])
  }

  function SetAllTempsLine(dC: int): string {
    Joined(["SET_ALL_TEMPS", Numerals.Decimal(dC)])
  }

  /** The client refuses masks outside 0..0x1F before formatting. */
  function StopReplyLine(mask: nat): string
    requires mask <= 0x1F
  {
    Joined(["STOP_REPLY", Numerals.HexByte(mask)])
  }

  // ----- Every formatted argument is recovered --------------------------------

  predicate Printable(s: string) {
    forall i :: 0 <= i < |s| ==> 32 as char < s[i] <= 126 as char
  }

  lemma PrintableIsWord(t: string)
    requires t != "" && Printable(t)
    ensures IsWord(t) && NUL !in t
  {
  }

  lemma DecimalPrintable(n: int)
    ensures Printable(Numerals.Decimal(n))
  {
    if n < 0 {
      Numerals.DecimalNatShape(-n);
    } else {
      Numerals.DecimalNatShape(n);
    }
  }

  lemma {:induction false} NoNulCString(s: string)
    requires NUL !in s
    ensures CString(s) == s
    decreases |s|
  {
    if s != "" {
      assert s[0] != NUL;
      assert forall c :: c in s[1..] ==> c in s;
      NoNulCString(s[1..]);
    }
  }

  lemma {:induction false} JoinedNoNul(ts: seq<string>)
    requires forall i :: 0 <= i < |ts| ==> NUL !in ts[i]
    ensures NUL !in Joined(ts)
    decreases |ts|
  {
    if |ts| > 1 {
      JoinedNoNul(ts[1..]);
      assert NUL !in ts[0];
    }
  }

  /** The firmware tokenizes a line back into the words it was joined from. */
  lemma WordsRecovered(ts: seq<string>)
    requires |ts| <= MAX_ARGS && forall i :: 0 <= i < |ts| ==> ts[i] != "" && Printable(ts[i])
    ensures Tokens(CString(Joined(ts)), MAX_ARGS) == ts
  {
    hide Printable, Tokens, Joined, CString;
    forall i | 0 <= i < |ts|
      ensures IsWord(ts[i]) && NUL !in ts[i]
    {
      PrintableIsWord(ts[i]);
    }
    JoinedNoNul(ts);
    NoNulCString(Joined(ts));
    TokensOfJoined(ts, MAX_ARGS);
  }

  lemma KeywordsPrintable()
    ensures Printable("SET_CELL") && Printable("SET_TEMP") && Printable("STOP_REPLY")
    ensures Printable("SET_ALL_CELLS") && Printable("SET_ALL_TEMPS")
  {
  }

  lemma UpperKeyword(s: string)
    requires forall i :: 0 <= i < |s| ==> !('a' <= s[i] <= 'z')
    ensures Upper(s) == s
  {
  }

  predicate CellArgs(m: int, c: int, mV: int) {
    0 <= m < CHAIN_LEN && 0 <= c < CELLS_PER_LTC && 0 <= mV <= 0xFFFF
  }

  predicate TempArgs(m: int, s: int, dC: int) {
    0 <= m < CHAIN_LEN && 0 <= s < AUX_PER_LTC && -0x8000 <= dC <= 0x7FFF
  }

  /** SET_CELL is obeyed exactly when its three integers are in range. */
  lemma SetCellObeyed(m: int, c: int, mV: int)
    ensures LineVerdict(SetCellLine(m, c, mV)) ==
      (if CellArgs(m, c, mV) then Accepted(SetCell(m, c, mV)) else Refused)
  {
    hide Joined, Tokens, CString, Printable, Numerals.ParseInt, Numerals.Decimal;
    KeywordsPrintable();
    DecimalPrintable(m);
    DecimalPrintable(c);
    DecimalPrintable(mV);
    WordsRecovered(["SET_CELL", Numerals.Decimal(m), Numerals.Decimal(c), Numerals.Decimal(mV)]);
    UpperKeyword("SET_CELL");
    Numerals.DecimalRoundTrip(m);
    Numerals.DecimalRoundTrip(c);
    Numerals.DecimalRoundTrip(mV);
  }

  lemma SetTempObeyed(m: int, s: int, dC: int)
    ensures LineVerdict(SetTempLine(m, s, dC)) ==
      (if TempArgs(m, s, dC) then Accepted(SetTemp(m, s, dC)) else Refused)
  {
    hide Joined, Tokens, CString, Printable, Numerals.ParseInt, Numerals.Decimal;
    KeywordsPrintable();
    DecimalPrintable(m);
    DecimalPrintable(s);
    DecimalPrintable(dC);
    WordsRecovered(["SET_TEMP", Numerals.Decimal(m), Numerals.Decimal(s), Numerals.Decimal(dC)]);
    UpperKeyword("SET_TEMP");
    Numerals.DecimalRoundTrip(m);
    Numerals.DecimalRoundTrip(s);
    Numerals.DecimalRoundTrip(dC);
  }

  lemma SetAllObeyed(n: int)
    ensures LineVerdict(SetAllCellsLine(n)) ==
      (if 0 <= n <= 0xFFFF then Accepted(SetAllCells(n)) else Refused)
    ensures LineVerdict(SetAllTempsLine(n)) ==
      (if -0x8000 <= n <= 0x7FFF then Accepted(SetAllTemps(n)) else Refused)
  {
    hide Joined, Tokens, CString, Printable, Numerals.ParseInt, Numerals.Decimal;
    KeywordsPrintable();
    DecimalPrintable(n);
    Numerals.DecimalRoundTrip(n);
    WordsRecovered(["SET_ALL_CELLS", Numerals.Decimal(n)]);
    UpperKeyword("SET_ALL_CELLS");
    WordsRecovered(["SET_ALL_TEMPS", Numerals.Decimal(n)]);
    UpperKeyword("SET_ALL_TEMPS");
  }

  lemma HexPrintable(n: nat)
    requires n < 256
    ensures Printable(Numerals.HexByte(n))
  {
  }

  lemma StopReplyObeyed(mask: nat)
    requires mask <= 0x1F
    ensures LineVerdict(StopReplyLine(mask)) == Accepted(StopReply(mask as Byte))
  {
    hide Joined, Tokens, CString, Printable, Numerals.ParseInt, Numerals.HexByte;
    KeywordsPrintable();
    HexPrintable(mask);
    Numerals.HexRoundTrip(mask);
    WordsRecovered(["STOP_REPLY", Numerals.HexByte(mask)]);
    UpperKeyword("STOP_REPLY");
  }

  // ----- Sending --------------------------------------------------------------

  /** Words and single spaces: nothing the line assembler would act on. */
  predicate Quiet(s: string) {
    forall i :: 0 <= i < |s| ==> 32 as char <= s[i] <= 126 as char
  }

  lemma {:induction false} JoinedQuiet(ts: seq<string>)
    requires forall i :: 0 <= i < |ts| ==> Printable(ts[i])
    ensures Quiet(Joined(ts))
    decreases |ts|
  {
    if |ts| > 1 {
      JoinedQuiet(ts[1..]);
      assert Printable(ts[0]);
    }
  }

  lemma FourWordLine(a: string, b: string, c: string, d: string)
    requires |a| + |b| + |c| + |d| + 3 < LINE_MAX
    requires Printable(a) && Printable(b) && Printable(c) && Printable(d)
    ensures Sendable(Joined([a, b, c, d]))
  {
    hide Printable;
    var ts := [a, b, c, d];
    JoinedQuiet(ts);
    assert ts[1..] == [b, c, d] && [b, c, d][1..] == [c, d] && [c, d][1..] == [d];
    assert Joined([d]) == d && |Joined([c, d])| == |c| + 1 + |d|;
    assert |Joined([b, c, d])| == |b| + 1 + |Joined([c, d])|;
  }

  lemma DecimalFits(n: int)
    requires -100000 < n < 100000
    ensures |Numerals.Decimal(n)| <= 6
  {
    if n < 0 {
      Numerals.DecimalShort(-n);
    } else {
      Numerals.DecimalShort(n);
    }
  }

  lemma CellLineSendable(m: int, c: int, mV: int)
    requires CellArgs(m, c, mV)
    ensures Sendable(SetCellLine(m, c, mV))
  {
    hide Joined, Printable, Numerals.Decimal;
    KeywordsPrintable();
    DecimalPrintable(m); DecimalPrintable(c); DecimalPrintable(mV);
    DecimalFits(m); DecimalFits(c); DecimalFits(mV);
    FourWordLine("SET_CELL", Numerals.Decimal(m), Numerals.Decimal(c), Numerals.Decimal(mV));
  }

  lemma TempLineSendable(m: int, s: int, dC: int)
    requires TempArgs(m, s, dC)
    ensures Sendable(SetTempLine(m, s, dC))
  {
    hide Joined, Printable, Numerals.Decimal;
    KeywordsPrintable();
    DecimalPrintable(m); DecimalPrintable(s); DecimalPrintable(dC);
    DecimalFits(m); DecimalFits(s); DecimalFits(dC);
    FourWordLine("SET_TEMP", Numerals.Decimal(m), Numerals.Decimal(s), Numerals.Decimal(dC));
  }

  /** The firmware after the client has sent one line. */
  function Sent(l: Link, line: string): (r: Link)
    requires SoundLink(l)
    ensures SoundLink(r)
  {
    ReceivedAll(l, Transmitted([line]))
  }

  lemma SentIsObeyed(l: Link, line: string)
    requires SoundLink(l) && l.buf == "" && Sendable(line)
    ensures Sent(l, line) == Obeyed(l, line)
  {
    hide ReceivedAll, ObeyedAll, Obeyed;
    LinesObeyed(l, [line]);
    OneObeyed(l, line);
  }

  // ----- Voltage injection ----------------------------------------------------

  /** _module_cell_to_chain: nine cells on the upper chip, ten on the lower; None raises. */
  function ModuleCellToChain(m: int, cell: int): (r: Option<(nat, nat)>)
    ensures r.Some? <==> 0 <= m < MODULES && 0 <= cell < CELLS_PER_MODULE
    ensures r.Some? ==> r.value.0 < CHAIN_LEN && r.value.1 < CELLS_PER_LTC
    // chips 2m and 2m+1; nine cells on the first, and the count goes on with ten on the second
    ensures r.Some? ==>
      var (chip, input) := r.value;
      chip / 2 == m && cell == 9 * (chip % 2) + input && (chip % 2 == 0 ==> input < 9)
  {
    if !(0 <= m < MODULES) || !(0 <= cell < CELLS_PER_MODULE) then None
    else if cell < CELLS_PER_LTC_UPPER then Some((2 * m, cell))
    else Some((2 * m + 1, cell - CELLS_PER_LTC_UPPER))
  }

  /** No two module cells share a chip input. */
  lemma ChainSplitInjective(m: int, c: int, m': int, c': int)
    requires ModuleCellToChain(m, c).Some? && ModuleCellToChain(m, c) == ModuleCellToChain(m', c')
    ensures m == m' && c == c'
  {
  }

  // The AMS's own view of a module, from the data of its four voltage reads.

  /** Register k of a chip: three to a read, eight bytes to a chip. */
  function VoltageRegister(groups: seq<seq<Byte>>, chip: nat, k: nat): int
    requires |groups| == 4 && (forall s :: 0 <= s < 4 ==> |groups[s]| == 80) && chip < 10 && k < 12
  {
    WireValue(groups[k / 3], 8 * chip + 2 * (k % 3))
  }

  /** Nineteen cells: the first nine registers of chip 2m, then the first ten of chip 2m+1. */
  function ModuleVoltages(groups: seq<seq<Byte>>, m: nat): (v: seq<int>)
    requires |groups| == 4 && (forall s :: 0 <= s < 4 ==> |groups[s]| == 80) && m < 5
    ensures |v| == 19
  {
    seq(19, i requires 0 <= i < 19 =>
      if i < 9 then VoltageRegister(groups, 2 * m, i) else VoltageRegister(groups, 2 * m + 1, i - 9))
  }

  /** The data sections of the four voltage buffers, behind their pad. */
  function VoltageData(pool: seq<seq<Byte>>): (groups: seq<seq<Byte>>)
    requires SoundPool(pool)
    ensures |groups| == 4 && forall s :: 0 <= s < 4 ==> |groups[s]| == 80 && groups[s] == pool[s][4..]
  {
    [pool[0][4..], pool[1][4..], pool[2][4..], pool[3][4..]]
  }

  /** What a chain's module holds, in the same order and the same units. */
  function HeldVoltages(c: Chain, m: nat): (v: seq<int>)
    requires WellFormed(c) && m < 5
    ensures |v| == 19
  {
    seq(19, i requires 0 <= i < 19 =>
      Tenths(if i < 9 then c.cellMv[2 * m][i] else c.cellMv[2 * m + 1][i - 9]))
  }

  function Tenths(mV: U16): int { Min(10 * (mV as int), 0xFFFF) }

  lemma PoolChunk(c: Chain, sel: Channel, slot: nat, ltc: nat)
    requires WellFormed(c) && slot < SLOTS && ltc < CHAIN_LEN
    ensures Response(c, sel, slot)[PAD_LEN + 8 * ltc..PAD_LEN + 8 * ltc + 8] == Chunk(c, sel, slot, ltc)
  {
    hide Chunks, Chunk, Pad;
    ChunkAt(c, sel, slot, CHAIN_LEN, ltc);
    var r, d := Response(c, sel, slot), Data(c, sel, slot);
    assert r[PAD_LEN + 8 * ltc..PAD_LEN + 8 * ltc + 8] == d[8 * ltc..8 * ltc + 8];
  }

  lemma VoltageRegisterIs(c: Chain, sel: Channel, ltc: nat, k: nat)
    requires WellFormed(c) && ltc < 10 && k < 12
    ensures VoltageRegister(VoltageData(AllResponses(c, sel)), ltc, k) == MvToLtc(c.cellMv[ltc][k])
  {
    hide Response, ChunkOf, Field, MvToLtc, WireValue;
    var slot := k / 3;
    var data := Response(c, sel, slot)[4..];
    PoolChunk(c, sel, slot, ltc);
    FieldsOfChunk(Registers(c, sel, slot, ltc));
    assert data[8 * ltc..8 * ltc + 8] == Response(c, sel, slot)[4 + 8 * ltc..4 + 8 * ltc + 8];
    FieldOnTheWire(data, ltc, k % 3);
    assert k == slot * 3 + k % 3;
  }

  lemma VoltagesAreHeld(c: Chain, sel: Channel, m: nat)
    requires WellFormed(c) && m < 5
    ensures ModuleVoltages(VoltageData(AllResponses(c, sel)), m) == HeldVoltages(c, m)
  {
    hide AllResponses, VoltageRegister, VoltageData;
    var groups := VoltageData(AllResponses(c, sel));
    forall i | 0 <= i < 19 ensures ModuleVoltages(groups, m)[i] == HeldVoltages(c, m)[i] {
      var chip, k := if i < 9 then 2 * m else 2 * m + 1, if i < 9 then i else i - 9;
      VoltageRegisterIs(c, sel, chip, k);
      TenTimes(c.cellMv[chip][k]);
      assert ModuleVoltages(groups, m)[i] == VoltageRegister(groups, chip, k);
      assert HeldVoltages(c, m)[i] == Tenths(c.cellMv[chip][k]);
    }
  }

  /** Setting one module cell changes one entry of one module's list. */
  lemma HeldAfter(c: Chain, m: int, cell: int, mV: U16, m': nat)
    requires WellFormed(c) && ModuleCellToChain(m, cell).Some? && m' < 5
    ensures var at := ModuleCellToChain(m, cell).value;
      HeldVoltages(WithCell(c, at.0, at.1, mV), m') ==
        if m' == m then HeldVoltages(c, m')[cell := Tenths(mV)] else HeldVoltages(c, m')
  {
    var at := ModuleCellToChain(m, cell).value;
    var d := WithCell(c, at.0, at.1, mV);
    forall i | 0 <= i < 19
      ensures HeldVoltages(d, m')[i] == if m' == m && i == cell then Tenths(mV) else HeldVoltages(c, m')[i]
    {
      var chip, k := if i < 9 then 2 * m' else 2 * m' + 1, if i < 9 then i else i - 9;
      assert d.cellMv[chip][k] == if (chip, k) == at then mV else c.cellMv[chip][k];
      assert (chip, k) == at <==> m' == m && i == cell;
    }
  }

  predicate Cached(l: Link)
    requires SoundLink(l)
  {
    l.fw.pool == AllResponses(l.chain, l.fw.selector)
  }

  function SetModuleCellLine(m: int, c: int, mV: int): string
    requires ModuleCellToChain(m, c).Some?
  {
    var at := ModuleCellToChain(m, c).value;
    SetCellLine(at.0, at.1, mV)
  }

  lemma SetModuleCellEffect(l: Link, m: int, c: int, mV: int)
    requires SoundLink(l) && l.buf == "" && Cached(l)
    requires ModuleCellToChain(m, c).Some? && 0 <= mV <= 0xFFFF
    ensures var at := ModuleCellToChain(m, c).value; var r := Sent(l, SetModuleCellLine(m, c, mV));
      r.chain == WithCell(l.chain, at.0, at.1, mV) && Cached(r)
  {
    hide ReceivedAll, AllResponses, LineVerdict, SetCellLine, Sendable;
    var at := ModuleCellToChain(m, c).value;
    CellLineSendable(at.0, at.1, mV);
    SetCellObeyed(at.0, at.1, mV);
    SentIsObeyed(l, SetCellLine(at.0, at.1, mV));
  }

  /**
   Injecting a voltage through the client changes that entry of that module's list to ten times the
   millivolts, saturated, and nothing else the AMS decodes of any module.
   */
  lemma VoltageInjection(l: Link, m: int, c: int, mV: int, m': nat)
    requires SoundLink(l) && l.buf == "" && Cached(l)
    requires 0 <= m < 5 && 0 <= c < 19 && 0 <= mV <= 0xFFFF && m' < 5
    ensures var r := Sent(l, SetModuleCellLine(m, c, mV));
      ModuleVoltages(VoltageData(r.fw.pool), m') ==
        if m' == m then ModuleVoltages(VoltageData(l.fw.pool), m')[c := Min(10 * mV, 0xFFFF)]
        else ModuleVoltages(VoltageData(l.fw.pool), m')
  {
    hide AllResponses, Sent, SetCellLine, VoltageData, ModuleVoltages, HeldVoltages, WithCell;
    SetModuleCellEffect(l, m, c, mV);
    var r := Sent(l, SetModuleCellLine(m, c, mV));
    VoltagesAreHeld(l.chain, l.fw.selector, m');
    VoltagesAreHeld(r.chain, r.fw.selector, m');
    HeldAfter(l.chain, m, c, mV, m');
  }

  /** A voltage the firmware cannot hold is refused and changes nothing. */
  lemma VoltageRefused(l: Link, m: int, c: int, mV: int)
    requires SoundLink(l) && l.buf == ""
    requires ModuleCellToChain(m, c).Some? && !(0 <= mV <= 0xFFFF) && Sendable(SetModuleCellLine(m, c, mV))
    ensures Sent(l, SetModuleCellLine(m, c, mV)) == l
  {
    hide ReceivedAll, LineVerdict, SetCellLine, Sendable;
    var at := ModuleCellToChain(m, c).value;
    SetCellObeyed(at.0, at.1, mV);
    SentIsObeyed(l, SetCellLine(at.0, at.1, mV));
  }

  // ----- Temperature injection ------------------------------------------------

  /** The ADG731 channel of sensor position 0..19. */
  function ChannelOf(sensor: nat): Channel
    requires sensor < 20
  {
    if sensor < 10 then sensor else sensor + 6
  }

  /** The channels in the order of the AMS's own map: 0..9 and 16..25. */
  const CHANNEL_MAP: seq<Channel> := [0, 1, 2, 3, 4, 5, 6, 7, 8, 9, 16, 17, 18, 19, 20, 21, 22, 23, 24, 25]

  lemma ChannelsAgree(sensor: nat)
    requires sensor < 20
    ensures ChannelOf(sensor) == CHANNEL_MAP[sensor]
  {
  }

  lemma ChannelsDistinct(s: nat, t: nat)
    requires s < 20 && t < 20 && ChannelOf(s) == ChannelOf(t)
    ensures s == t
  {
  }

  /** The AMS's selector payload: two nibbles of data between the control nibbles. */
  function SelectPayload(ch: Byte, fcom: Byte): (Byte, Byte)
    requires ch < 32 && fcom < 16
  {
    var data := 0x80 | (ch << 1);
    (0x80 | (data >> 4), ((data & 0x0F) << 4) | fcom)
  }

  /** Snooping an encoded selector recovers the channel. */
  lemma SelectorRoundTrip(ch: Byte, fcom: Byte)
    requires ch < 32 && fcom < 16
    ensures var p := SelectPayload(ch, fcom);
      IsSelectorWrite(p.0) && SelectorOf(p.0, p.1) == ch as int
  {
    var p := SelectPayload(ch, fcom);
    var data := ((p.0 & 0x0F) << 4) | ((p.1 >> 4) & 0x0F);
    assert (data >> 1) & 0x1F == ch;
  }

  function Aux1Register(pool: seq<seq<Byte>>, ltc: nat): int
    requires SoundPool(pool) && ltc < CHAIN_LEN
  {
    WireValue(pool[RDAUXA], 4 + 8 * ltc)
  }

  lemma Aux1Is(c: Chain, sel: Channel, ltc: nat)
    requires WellFormed(c) && ltc < CHAIN_LEN
    ensures Aux1Register(AllResponses(c, sel), ltc) == DcToLtc(c.tempDc[ltc][sel])
  {
    hide Response, ChunkOf, DcToLtc;
    PoolChunk(c, sel, RDAUXA, ltc);
    FieldsOfChunk(Registers(c, sel, RDAUXA, ltc));
    var r := Response(c, sel, RDAUXA);
    assert r[4 + 8 * ltc..4 + 8 * ltc + 8][0] == r[4 + 8 * ltc] && r[4 + 8 * ltc..4 + 8 * ltc + 8][1] == r[4 + 8 * ltc + 1];
  }

  function SetModuleTempLine(m: nat, sensor: nat, dC: int): string
    requires m < MODULES && sensor < 20
  {
    SetTempLine(2 * m, ChannelOf(sensor), dC)
  }

  lemma SetModuleTempEffect(l: Link, m: nat, sensor: nat, dC: I16)
    requires SoundLink(l) && l.buf == "" && Cached(l) && m < MODULES && sensor < 20
    ensures var r := Sent(l, SetModuleTempLine(m, sensor, dC));
      r.chain == WithTemp(l.chain, 2 * m, ChannelOf(sensor), dC) && Cached(r) && r.fw.x == l.fw.x
  {
    hide ReceivedAll, AllResponses, LineVerdict, SetTempLine, Sendable;
    TempLineSendable(2 * m, ChannelOf(sensor), dC);
    SetTempObeyed(2 * m, ChannelOf(sensor), dC);
    SentIsObeyed(l, SetTempLine(2 * m, ChannelOf(sensor), dC));
  }

  /** The first six bytes of a WRCOMM that selects a channel: opcode, its PEC, the payload. */
  function SelectBytes(ch: Byte, fcom: Byte, pec: (Byte, Byte)): seq<Byte>
    requires ch < 32 && fcom < 16
  {
    [0x07, 0x21, pec.0, pec.1, SelectPayload(ch, fcom).0, SelectPayload(ch, fcom).1]
  }

  /** Once a WRCOMM has gone by, AUX1 of every chip is the temperature of the channel it chose. */
  lemma SelectedReading(c: Chain, f: Fw, ch: Byte, fcom: Byte, pec: (Byte, Byte), ltc: nat)
    requires WellFormed(c) && Sound(f) && CacheAgrees(c, f) && f.x == FRESH
    requires ch < 32 && fcom < 16 && ltc < CHAIN_LEN
    ensures var g := Drain(c, f, SelectBytes(ch, fcom, pec));
      && g.selector == ch as int
      && Aux1Register(g.pool, ltc) == DcToLtc(c.tempDc[ltc][ch as int])
  {
    hide Drain, AllResponses, Sound, Aux1Register, DcToLtc, SelectBytes, SelectorAfter, Tracks;
    var bytes := SelectBytes(ch, fcom, pec);
    var g := Drain(c, f, bytes);
    FreshTracks();
    FreshFollows(f);
    DrainTracks(c, f, Base(f.selector, f.current, 0), [], bytes);
    DrainAlways(c, f, bytes);
    assert [] + bytes == bytes;
    SelectBytesSelect(ch, fcom, pec, f.selector);
    Aux1Is(c, g.selector, ltc);
  }

  lemma SelectBytesSelect(ch: Byte, fcom: Byte, pec: (Byte, Byte), before: Channel)
    requires ch < 32 && fcom < 16
    ensures SelectorAfter(before, SelectBytes(ch, fcom, pec)) == ch as int
  {
    hide IsSelectorWrite, SelectorOf, SelectPayload;
    SelectorRoundTrip(ch, fcom);
    assert Opcode(0x07, 0x21) == 0x721;
  }

  /**
   After an injection, a WRCOMM selecting a channel makes AUX1 of each module's upper chip carry
   the injected temperature if module and sensor match, and the earlier one otherwise.
   */
  lemma TemperatureInjection(l: Link, m: nat, sensor: nat, dC: I16, m': nat, other: nat,
                             ch: Byte, fcom: Byte, pec: (Byte, Byte))
    requires SoundLink(l) && l.buf == "" && Cached(l) && l.fw.x == FRESH
    requires m < MODULES && sensor < 20 && m' < MODULES && other < 20
    requires ch < 32 && fcom < 16 && ch as int == CHANNEL_MAP[other]
    ensures var r := Sent(l, SetModuleTempLine(m, sensor, dC));
      var g := Drain(r.chain, r.fw, SelectBytes(ch, fcom, pec));
      Aux1Register(g.pool, 2 * m') ==
        DcToLtc(if m' == m && other == sensor then dC else l.chain.tempDc[2 * m'][CHANNEL_MAP[other]])
  {
    ChannelsAgree(sensor);
    ChannelsAgree(other);
    hide CHANNEL_MAP, AllResponses, Sent, Aux1Register, SetTempLine, DcToLtc, Drain, SelectBytes;
    SetModuleTempEffect(l, m, sensor, dC);
    var r := Sent(l, SetModuleTempLine(m, sensor, dC));
    SelectedReading(r.chain, r.fw, ch, fcom, pec, 2 * m');
    if other != sensor && ChannelOf(other) == ChannelOf(sensor) {
      ChannelsDistinct(other, sensor);
    }
  }
}
