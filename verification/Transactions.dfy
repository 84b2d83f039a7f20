/**
 The emulator on the bus: every interleaving of master clocks, chip-select edges, service
 passes and host commands, and what the master can rely on in all of them.
 */
module Transactions {
  import opened Wrappers
  import opened CellChain
  import opened Pec15
  import opened Responses
  import opened CmdStats
  import opened Firmware

  /** The device, the bus lines, and a monitor that records what happened. */
  datatype Bus = Bus(
    chain: Chain,
    dev: Device,
    high: bool,                // the chip-select line
    sampled: bool,             // whether a service pass has seen the line at this level
    mosi: seq<Byte>,           // bytes the master clocked since the line fell
    got: seq<Byte>,            // bytes the drain loop handed to the decoder since then
    miso: seq<Byte>,           // bytes pulled from the transmit FIFO since then
    pushed: seq<Byte>,         // data bytes pushed to the transmit FIFO since then
    opcodes: seq<Word>,        // opcodes decoded since then
    base: Base,                // what the transaction found, and its seam
    closed: seq<Closed>        // decoded transactions closed since the statistics were reset
  )

  /**
   The selector and the buffer when the line fell, and how many data bytes had been pushed
   when the sixth byte was drained, which is when the selector can move.
   */
  datatype Base = Base(selector: Channel, current: nat, seam: nat)

  datatype Event =
    | Fall
    | Rise
    | Clock(b: Byte)
    | Service
    | Host(cmd: HostCommand)

  predicate SoundBus(b: Bus) {
    WellFormed(b.chain) && SoundDevice(b.dev)
  }

  const POWER_UP :=
    Bus(BootChain(), Boot(), true, true, [], [], [], [], [], Base(0, RDCVA, 0), [])

  // ----- Steps ----------------------------------------------------------------

  /** The opcodes the drain decodes, in order. */
  function DrainOpcodes(c: Chain, f: Fw, bytes: seq<Byte>): seq<Word>
    requires WellFormed(c) && Sound(f)
    decreases |bytes|
  {
    if bytes == [] then []
    else
      var window := f.x.rxBuf + [bytes[0]];
      (if DecodesAt(Noted(f.x, bytes[0]), window) then [WindowOpcode(window)] else [])
      + DrainOpcodes(c, RxByte(c, f, bytes[0]), bytes[1..])
  }

  /** How often the drain falls back on the four-byte window. */
  function LateDecodes(c: Chain, f: Fw, bytes: seq<Byte>): nat
    requires WellFormed(c) && Sound(f)
    decreases |bytes|
  {
    if bytes == [] then 0
    else
      (if LateDecode(Noted(f.x, bytes[0]), f.x.rxBuf + [bytes[0]]) then 1 else 0)
      + LateDecodes(c, RxByte(c, f, bytes[0]), bytes[1..])
  }

  function Clocked(b: Bus, byte: Byte): (r: Bus)
    requires SoundBus(b)
    ensures SoundBus(r)
  {
    var d := b.dev;
    b.(dev := Device(d.fw,
                     if d.txFifo == [] then [] else d.txFifo[1..],
                     if |d.rxFifo| < FIFO_DEPTH then d.rxFifo + [byte] else d.rxFifo),
       miso := if d.txFifo == [] then b.miso else b.miso + [d.txFifo[0]],
       mosi := b.mosi + [byte])
  }

  /** The data bytes a service pass pushes. */
  function ServicePushes(b: Bus): seq<Byte>
    requires SoundBus(b)
  {
    if b.high then []
    else
      var e := EdgeSeen(b.dev.(fw := Init(b.chain, b.dev.fw)), b.high);
      PumpBytes(e.fw, |e.txFifo|)
  }

  function ServiceCloses(b: Bus): seq<Closed> {
    var f := b.dev.fw;
    if f.csWasLow && b.high && f.x.cmd != NO_CMD then [Closed(f.x.cmd, f.x.rxCount)] else []
  }

  /** The opcodes a service pass decodes. */
  function ServiceOpcodes(b: Bus): seq<Word>
    requires SoundBus(b)
  {
    var e := BeforeDrain(b.chain, b.dev, b.high);
    DrainOpcodes(b.chain, e.fw, e.rxFifo)
  }

  function SeamAfter(seam: nat, before: nat, after: nat, pushed: nat): nat {
    if before < 6 <= after then pushed else seam
  }

  function Serviced(b: Bus): (r: Bus)
    requires SoundBus(b)
    ensures SoundBus(r)
  {
    var e, pushed := BeforeDrain(b.chain, b.dev, b.high), b.pushed + ServicePushes(b);
    b.(dev := Firmware.Service(b.chain, b.dev, b.high),
       sampled := true,
       got := b.got + e.rxFifo,
       pushed := pushed,
       opcodes := b.opcodes + ServiceOpcodes(b),
       base := b.base.(seam := SeamAfter(b.base.seam, |b.got|, |b.got + e.rxFifo|, |pushed|)),
       closed := b.closed + ServiceCloses(b))
  }

  function Hosted(b: Bus, cmd: HostCommand): (r: Bus)
    requires SoundBus(b)
    ensures SoundBus(r)
  {
    var c := ApplyChain(b.chain, cmd);
    b.(chain := c,
       dev := b.dev.(fw := Apply(c, b.dev.fw, cmd)),
       closed := if cmd.StatsReset? then [] else b.closed)
  }

  function Fallen(b: Bus): Bus {
    b.(high := false, sampled := false, mosi := [], got := [], miso := [], pushed := [],
       opcodes := [], base := Base(b.dev.fw.selector, b.dev.fw.current, 0))
  }

  function Step(b: Bus, e: Event): (r: Bus)
    requires SoundBus(b)
    ensures SoundBus(r)
  {
    match e
    case Fall => Fallen(b)
    case Rise => b.(high := true, sampled := false)
    case Clock(byte) => Clocked(b, byte)
    case Service => Serviced(b)
    case Host(cmd) => Hosted(b, cmd)
  }

  /** Lines toggle, the master clocks only while selecting, USB is served only while idle. */
  predicate Possible(b: Bus, e: Event) {
    match e
    case Fall => b.high
    case Rise => !b.high
    case Clock(_) => !b.high
    case Service => true
    case Host(_) => b.high
  }

  function Run(b: Bus, es: seq<Event>): (r: Bus)
    requires SoundBus(b)
    ensures SoundBus(r)
    decreases |es|
  {
    if es == [] then b else Step(Run(b, es[..|es| - 1]), es[|es| - 1])
  }

  lemma PowerUpSound()
    ensures SoundBus(POWER_UP)
  {
  }

  lemma RunNone(b: Bus)
    requires SoundBus(b)
    ensures Run(b, []) == b
  {
  }

  lemma RunStep(b: Bus, cs: seq<Event>, e: Event)
    requires SoundBus(b)
    ensures Run(b, cs + [e]) == Step(Run(b, cs), e)
  {
    hide Step;
    assert (cs + [e])[..|cs|] == cs;
  }

  // ----- In every run, whatever the environment does --------------------------

  /** The response cache is the direct function of chain state and selector. */
  predicate CacheAgrees(c: Chain, f: Fw)
    requires WellFormed(c)
  {
    f.pool == AllResponses(c, f.selector)
  }

  /** A transaction that has received `got`, at most one byte, and nothing else. */
  function Begun(got: seq<Byte>): Xact {
    FRESH.(rxCount := |got| % 0x1_0000, rxSnap := got, rxBuf := got)
  }

  /** Until the opcode is decoded at most one byte has come in, and nothing has gone out. */
  predicate DecodedInTime(x: Xact) {
    !x.parsed ==> |x.rxBuf| <= 1 && x == Begun(x.rxBuf)
  }

  predicate Always(b: Bus) {
    && SoundBus(b)
    && CacheAgrees(b.chain, b.dev.fw)
    && DecodedInTime(b.dev.fw.x)
    && b.dev.fw.stats == RecordAll(b.closed)
    && (!b.dev.fw.initDone ==> b.dev.fw.current == RDCVA)
  }

  lemma SnoopKeepsCache(c: Chain, f: Fw, x: Xact)
    requires WellFormed(c) && SoundPool(f.pool) && CacheAgrees(c, f)
    ensures CacheAgrees(c, Snooped(c, f, x))
  {
    hide AllResponses, Response;
    if SelectorMoves(f.selector, x) {
      PartialRebuildSuffices(c, f.selector, SelectorOf(x.rxSnap[4], x.rxSnap[5]));
    }
  }

  lemma RxByteAlways(c: Chain, f: Fw, b: Byte)
    requires WellFormed(c) && Sound(f) && CacheAgrees(c, f) && DecodedInTime(f.x)
    ensures var g := RxByte(c, f, b);
      && CacheAgrees(c, g) && DecodedInTime(g.x)
      && g.stats == f.stats && g.csWasLow == f.csWasLow && g.initDone == f.initDone
    ensures !LateDecode(Noted(f.x, b), f.x.rxBuf + [b])
  {
    hide AllResponses, Response, Opcode, CurrentAfter, ArmsSnoop, SelectorMoves;
    SnoopKeepsCache(c, f, Noted(f.x, b));
  }

  lemma {:induction false} DrainAlways(c: Chain, f: Fw, bytes: seq<Byte>)
    requires WellFormed(c) && Sound(f) && CacheAgrees(c, f) && DecodedInTime(f.x)
    ensures var g := Drain(c, f, bytes);
      && CacheAgrees(c, g) && DecodedInTime(g.x)
      && g.stats == f.stats && g.csWasLow == f.csWasLow && g.initDone == f.initDone
    ensures LateDecodes(c, f, bytes) == 0
    decreases |bytes|
  {
    hide RxByte, CacheAgrees, DecodedInTime, LateDecode;
    if bytes != [] {
      RxByteAlways(c, f, bytes[0]);
      DrainAlways(c, RxByte(c, f, bytes[0]), bytes[1..]);
    }
  }

  /** What the drain finds when it starts, line high or low. */
  lemma BeforeDrainAlways(b: Bus)
    requires Always(b)
    ensures var e := BeforeDrain(b.chain, b.dev, b.high);
      CacheAgrees(b.chain, e.fw) && DecodedInTime(e.fw.x) && e.fw.initDone && e.fw.current == b.dev.fw.current
  {
    hide AllResponses, Stream, Record, RecordAll;
  }

  lemma RecordOneMore(h: seq<Closed>, c: Closed)
    ensures RecordAll(h + [c]) == Record(RecordAll(h), c.cmd, c.len)
  {
    assert (h + [c])[..|h|] == h;
  }

  lemma ServicedAlways(b: Bus)
    requires Always(b)
    ensures Always(Serviced(b))
  {
    hide AllResponses, Drain, PumpBytes, Record, RecordAll;
    var e := BeforeDrain(b.chain, b.dev, b.high);
    BeforeDrainAlways(b);
    assert e.fw.stats == RecordAll(b.closed + ServiceCloses(b)) by {
      var f := b.dev.fw;
      if ServiceCloses(b) != [] {
        RecordOneMore(b.closed, Closed(f.x.cmd, f.x.rxCount));
      } else {
        assert b.closed + [] == b.closed;
      }
    }
    DrainAlways(b.chain, e.fw, e.rxFifo);
  }

  lemma HostedAlways(b: Bus, cmd: HostCommand)
    requires Always(b)
    ensures Always(Hosted(b, cmd))
  {
    hide AllResponses, WithCell, WithTemp, Uniform, RecordAll;
    if cmd.StatsReset? {
      assert RecordAll([]) == NO_STATS by { NothingRecorded(); }
    }
  }

  lemma NothingRecorded()
    ensures RecordAll([]) == NO_STATS
  {
  }

  lemma StepAlways(b: Bus, e: Event)
    requires Always(b)
    ensures Always(Step(b, e))
  {
    hide AllResponses, Hosted, Serviced;
    match e {
      case Service => ServicedAlways(b);
      case Host(cmd) => HostedAlways(b, cmd);
      case _ =>
    }
  }

  /** Every run from power-up, with any sampling and any host traffic. */
  lemma {:induction false} EveryRun(es: seq<Event>)
    ensures Always(Run(POWER_UP, es))
    decreases |es|
  {
    if es != [] {
      EveryRun(es[..|es| - 1]);
      StepAlways(Run(POWER_UP, es[..|es| - 1]), es[|es| - 1]);
    }
  }

  /** The statistics account exactly for the decoded transactions closed so far. */
  lemma EveryRunAccounts(es: seq<Event>)
    ensures var b := Run(POWER_UP, es); Accounts(b.dev.fw.stats, b.closed)
  {
    EveryRun(es);
    StatsAccount(Run(POWER_UP, es).closed);
  }

  /** Counts and losses add up to the transactions closed, until a counter can wrap. */
  lemma EveryRunConserves(es: seq<Event>)
    requires |Run(POWER_UP, es).closed| < U32_RANGE
    ensures var b := Run(POWER_UP, es); SumCounts(b.dev.fw.stats.entries) + b.dev.fw.stats.lost == |b.closed|
  {
    EveryRun(es);
    CountsConserved(Run(POWER_UP, es).closed);
  }

  /** After any run whatever, the next pass does not fall back on the four-byte window. */
  lemma LateDecodeUnreachable(es: seq<Event>)
    ensures var b := Run(POWER_UP, es); var e := BeforeDrain(b.chain, b.dev, b.high);
      LateDecodes(b.chain, e.fw, e.rxFifo) == 0
  {
    hide Run, Drain, LateDecodes, BeforeDrain;
    EveryRun(es);
    var b := Run(POWER_UP, es);
    BeforeDrainAlways(b);
    DrainAlways(b.chain, BeforeDrain(b.chain, b.dev, b.high).fw, BeforeDrain(b.chain, b.dev, b.high).rxFifo);
  }

  // ----- Which buffer is streamed ---------------------------------------------

  /** The buffer of the last read command among the opcodes, or `none`. */
  function LastRead(ops: seq<Word>, none: nat): nat {
    if ops == [] then none
    else
      var n := |ops| - 1;
      if ReadSlot(ops[n]).Some? then ReadSlot(ops[n]).value else LastRead(ops[..n], none)
  }

  lemma {:induction false} LastReadConcat(a: seq<Word>, b: seq<Word>, none: nat)
    ensures LastRead(a + b, none) == LastRead(b, LastRead(a, none))
    decreases |b|
  {
    hide ReadSlot;
    if b == [] {
      assert a + b == a;
    } else {
      var n := |b| - 1;
      assert (a + b)[..|a| + n] == a + b[..n];
      LastReadConcat(a, b[..n], none);
    }
  }

  lemma {:induction false} DrainSelects(c: Chain, f: Fw, bytes: seq<Byte>)
    requires WellFormed(c) && Sound(f)
    ensures Drain(c, f, bytes).current == LastRead(DrainOpcodes(c, f, bytes), f.current)
    decreases |bytes|
  {
    hide AllResponses, Response, Opcode, ReadSlot, ArmsSnoop;
    if bytes != [] {
      var g := RxByte(c, f, bytes[0]);
      var window := f.x.rxBuf + [bytes[0]];
      var first := if DecodesAt(Noted(f.x, bytes[0]), window) then [WindowOpcode(window)] else [];
      DrainSelects(c, g, bytes[1..]);
      LastReadConcat(first, DrainOpcodes(c, g, bytes[1..]), f.current);
      assert g.current == LastRead(first, f.current) by { OneSelects(c, f, bytes[0], first); }
    }
  }

  lemma OneSelects(c: Chain, f: Fw, b: Byte, first: seq<Word>)
    requires WellFormed(c) && Sound(f)
    requires var window := f.x.rxBuf + [b];
      first == if DecodesAt(Noted(f.x, b), window) then [WindowOpcode(window)] else []
    ensures RxByte(c, f, b).current == LastRead(first, f.current)
  {
    hide Response, SelectorMoves, DecodesAt, Windowed;
  }

  /** Every opcode decoded in a run. */
  function RunOpcodes(es: seq<Event>): seq<Word>
    decreases |es|
  {
    if es == [] then []
    else
      var n := |es| - 1;
      RunOpcodes(es[..n]) + if es[n].Service? then ServiceOpcodes(Run(POWER_UP, es[..n])) else []
  }

  /** In every run the buffer streamed from is that of the last read command decoded. */
  lemma {:induction false} CurrentIsLastRead(es: seq<Event>)
    ensures Run(POWER_UP, es).dev.fw.current == LastRead(RunOpcodes(es), RDCVA)
    decreases |es|
  {
    if es != [] {
      var n := |es| - 1;
      var b := Run(POWER_UP, es[..n]);
      CurrentIsLastRead(es[..n]);
      EveryRun(es[..n]);
      StepSelects(b, es[n]);
      LastReadConcat(RunOpcodes(es[..n]), if es[n].Service? then ServiceOpcodes(b) else [], RDCVA);
    }
  }

  lemma StepSelects(b: Bus, e: Event)
    requires Always(b)
    ensures Step(b, e).dev.fw.current == LastRead(if e.Service? then ServiceOpcodes(b) else [], b.dev.fw.current)
  {
    hide BeforeDrain, Drain, DrainOpcodes, ApplyChain, AllResponses, RecordAll;
    if e.Service? {
      BeforeDrainAlways(b);
      DrainSelects(b.chain, BeforeDrain(b.chain, b.dev, b.high).fw, BeforeDrain(b.chain, b.dev, b.high).rxFifo);
    }
  }
}
