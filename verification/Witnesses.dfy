/**
 Runs in which a promise is broken: low pulses that no pass saw, of two bytes and of one, and a
 selector that moves in the middle of a chunk.
 */
module Witnesses {
  import opened Wrappers
  import opened CellChain
  import opened Encoding
  import opened Pec15
  import opened Responses
  import opened CmdStats
  import opened Firmware
  import opened Transactions
  import opened Serving
  import opened Falls
  import opened Seams
  import opened Guarantees

  // ----- A pulse slips between two passes -------------------------------------

  /** The next pass, line high, only drains what the unseen pulse left in the receive FIFO. */
  lemma UnseenBytesDrained(b: Bus, bytes: seq<Byte>)
    requires SoundBus(b) && b.high && b.dev.fw.initDone && !b.dev.fw.csWasLow
    requires b.dev.fw.x == FRESH && b.dev.rxFifo == bytes
    ensures var r := Serviced(b);
      && Tracks(r.dev.fw.x, bytes) && r.dev.fw.x.dataIdx == 0
      && r.dev.txFifo == b.dev.txFifo && r.dev.rxFifo == []
      && r.dev.fw.initDone && r.high
  {
    hide Drain, AllResponses, Tracks, ServiceOpcodes;
    var f := b.dev.fw;
    var e := BeforeDrain(b.chain, b.dev, true);
    assert e.fw == f.(csWasLow := false) && e.rxFifo == bytes;
    FreshTracks();
    FreshFollows(e.fw);
    DrainTracks(b.chain, e.fw, Base(e.fw.selector, e.fw.current, 0), [], bytes);
    assert [] + bytes == bytes;
  }

  /** A pass that finds an opcode decoded, the line low and nothing received fills the FIFO. */
  lemma StalePassPushes(b: Bus)
    requires SoundBus(b) && !b.high && b.dev.fw.initDone && b.dev.rxFifo == []
    requires b.dev.fw.x.parsed && b.dev.fw.x.dataIdx == 0 && b.pushed == [] && |b.dev.txFifo| == 2
    ensures var r := Serviced(b); |r.pushed| == 6 && r.opcodes == b.opcodes && r.mosi == b.mosi
  {
    hide Drain, AllResponses, CaptureAll, Stream;
    var e := BeforeDrain(b.chain, b.dev, false);
    assert e.rxFifo == [] && DrainOpcodes(b.chain, e.fw, []) == [];
    AllKept(b.opcodes);
  }

  lemma AllKept(ops: seq<Word>)
    ensures ops + [] == ops
  {
  }

  /** A two-byte transaction that no pass sees low leaves its opcode decoded, and the next
      transaction gets data before its own first byte is clocked. */
  lemma UnseenPulse(b0: Bus, p: Byte, q: Byte)
    requires SoundBus(b0) && b0.high && b0.dev.fw.initDone && !b0.dev.fw.csWasLow
    requires b0.dev.fw.x == FRESH && b0.dev.txFifo == Pad() && b0.dev.rxFifo == []
    ensures
      var pulsed := Step(Step(Step(Step(b0, Fall), Clock(p)), Clock(q)), Rise);
      var b := Step(Step(Step(pulsed, Event.Service), Fall), Event.Service);
      b.mosi == [] && b.opcodes == [] && |b.pushed| == 6
  {
    hide Serviced, Tracks, Clocked;
    TwoClocks(b0, p, q);
    var b4 := Clocked(Clocked(Fallen(b0), p), q).(high := true, sampled := false);
    UnseenBytesDrained(b4, [p, q]);
    var b5 := Serviced(b4);
    assert b5.dev.fw.x.parsed by { TwoTracked(b5.dev.fw.x, p, q); }
    StalePassPushes(Fallen(b5));
  }

  lemma TwoClocks(b: Bus, p: Byte, q: Byte)
    requires SoundBus(b) && b.dev.rxFifo == [] && |b.dev.txFifo| == 4
    ensures var r := Clocked(Clocked(Fallen(b), p), q);
      SoundBus(r) && r.dev.fw == b.dev.fw && r.dev.rxFifo == [p, q] && |r.dev.txFifo| == 2
  {
  }

  lemma TwoTracked(x: Xact, p: Byte, q: Byte)
    requires Tracks(x, [p, q])
    ensures x.parsed
  {
    hide Opcode, ArmsSnoop;
  }

  /** A one-byte pulse that no pass sees low is taken for the first half of the next transaction's
      opcode, and that transaction gets data with one byte of its own clocked. */
  lemma UnseenByte(b0: Bus, p: Byte, q: Byte)
    requires SoundBus(b0) && b0.high && b0.dev.fw.initDone && !b0.dev.fw.csWasLow
    requires b0.dev.fw.x == FRESH && b0.dev.txFifo == Pad() && b0.dev.rxFifo == []
    ensures
      var pulsed := Step(Step(Step(b0, Fall), Clock(p)), Rise);
      var b := Step(Step(Step(Step(Step(pulsed, Event.Service), Fall), Clock(q)), Event.Service), Event.Service);
      b.mosi == [q] && b.opcodes == [Opcode(p, q)] && |b.pushed| == 6
  {
    hide Serviced, Tracks, Opcode, Clocked;
    OneClock(b0, p);
    var b3 := Clocked(Fallen(b0), p).(high := true, sampled := false);
    UnseenBytesDrained(b3, [p]);
    var b4 := Serviced(b3);
    OneClock(b4, q);
    HalfOpcodeCompleted(Clocked(Fallen(b4), q), p, q);
    StalePassPushes(Serviced(Clocked(Fallen(b4), q)));
  }

  lemma OneClock(b: Bus, byte: Byte)
    requires SoundBus(b) && b.dev.rxFifo == [] && b.dev.txFifo != []
    ensures var r := Clocked(Fallen(b), byte);
      && r.dev.fw == b.dev.fw && r.dev.rxFifo == [byte] && |r.dev.txFifo| == |b.dev.txFifo| - 1
      && r.mosi == [byte] && r.opcodes == [] && r.pushed == [] && !r.high
  {
  }

  /** The pass that drains `q` after a stale `p` decodes the two together. */
  lemma HalfOpcodeCompleted(b: Bus, p: Byte, q: Byte)
    requires SoundBus(b) && !b.high && b.dev.fw.initDone && b.pushed == [] && b.opcodes == []
    requires Tracks(b.dev.fw.x, [p]) && b.dev.fw.x.dataIdx == 0 && b.dev.rxFifo == [q]
    ensures var r := Serviced(b);
      && SoundBus(r) && !r.high && r.dev.fw.initDone && r.dev.rxFifo == [] && r.mosi == b.mosi
      && r.dev.fw.x.parsed && r.dev.fw.x.dataIdx == 0 && r.pushed == [] && r.dev.txFifo == b.dev.txFifo
      && r.opcodes == [Opcode(p, q)]
  {
    hide Drain, DrainOpcodes, AllResponses, Opcode, ArmsSnoop, CaptureAll, Stream;
    var f := b.dev.fw;
    var e := BeforeDrain(b.chain, b.dev, false);
    assert !f.x.parsed && ServicePushes(b) == [];
    assert f.x.txSnap + [] == f.x.txSnap;
    assert e.fw == f.(csWasLow := true) && e.rxFifo == [q] && e.txFifo == b.dev.txFifo;
    var base := Base(f.selector, f.current, 0);
    DrainTracks(b.chain, e.fw, base, [p], [q]);
    assert [p] + [q] == [p, q];
    assert OpcodesOf([p]) == [] && OpcodesOf([p, q]) == [Opcode(p, q)];
    assert [] + DrainOpcodes(b.chain, e.fw, [q]) == DrainOpcodes(b.chain, e.fw, [q]);
  }

  // ----- A selector moves in the middle of a chunk ----------------------------

  /** How full the FIFOs are and how far the transaction has come. */
  datatype Tally = Tally(tx: nat, rx: nat, got: nat, pushed: nat, seam: nat)

  function TallyOf(b: Bus): Tally {
    Tally(|b.dev.txFifo|, |b.dev.rxFifo|, |b.got|, |b.pushed|, b.base.seam)
  }

  function Tallied(y: Tally, e: Event): Tally {
    match e
    case Clock(_) => y.(tx := if y.tx == 0 then 0 else y.tx - 1, rx := if y.rx < FIFO_DEPTH then y.rx + 1 else y.rx)
    case Service =>
      var room, left := if y.tx < FIFO_DEPTH then FIFO_DEPTH - y.tx else 0, if y.pushed < DATA_LEN then DATA_LEN - y.pushed else 0;
      var n := if y.got < 2 then 0 else if left < room then left else room;
      Tally(y.tx + n, 0, y.got + y.rx, y.pushed + n, SeamAfter(y.seam, y.got, y.got + y.rx, y.pushed + n))
    case _ => y
  }

  lemma TallyStep(b: Bus, e: Event)
    requires Always(b) && Served(b) && !b.high && (e.Clock? || e.Service?)
    ensures TallyOf(Step(b, e)) == Tallied(TallyOf(b), e)
  {
    hide AllResponses, RecordAll, DecodedInTime, Drain, Stream, CaptureAll, FollowsBase, Due, FirstEight, Pad, ServiceOpcodes, OpcodesOf, Opcode, WindowOf, SnapOf;
    if e.Service? {
      PumpServed(b);
    }
  }

  function TalliedAll(y: Tally, cs: seq<Event>): Tally
    decreases |cs|
  {
    if cs == [] then y else TalliedAll(Tallied(y, cs[0]), cs[1..])
  }

  function Clocks(cs: seq<Event>): seq<Byte> {
    if cs == [] then [] else (if cs[0].Clock? then [cs[0].b] else []) + Clocks(cs[1..])
  }

  lemma {:induction false} TallyRun(es: seq<Event>, done: seq<Event>, cs: seq<Event>)
    requires NothingLeft(Run(POWER_UP, es).dev) && Continues(done) && Continues(cs)
    ensures TallyOf(Transaction(es, done + cs)) == TalliedAll(TallyOf(Transaction(es, done)), cs)
    ensures Transaction(es, done + cs).mosi == Transaction(es, done).mosi + Clocks(cs)
    decreases |cs|
  {
    hide NothingLeft, POWER_UP, Tallied, TallyOf, Transaction, Run;
    if cs == [] {
      assert done + cs == done;
      assert Transaction(es, done).mosi + [] == Transaction(es, done).mosi;
    } else {
      var next := done + [cs[0]];
      TallyNext(es, done, cs[0]);
      TallyRun(es, next, cs[1..]);
      assert next + cs[1..] == done + cs;
      Gathered(Transaction(es, done).mosi, if cs[0].Clock? then [cs[0].b] else [], Clocks(cs[1..]));
    }
  }

  lemma Gathered(a: seq<Byte>, b: seq<Byte>, c: seq<Byte>)
    ensures (a + b) + c == a + (b + c)
  {
  }

  lemma TransactionStep(es: seq<Event>, done: seq<Event>, e: Event)
    ensures Transaction(es, done + [e]) == Step(Transaction(es, done), e)
  {
    RunStep(Fallen(Run(POWER_UP, es)), done, e);
  }

  lemma TallyNext(es: seq<Event>, done: seq<Event>, e: Event)
    requires NothingLeft(Run(POWER_UP, es).dev) && Continues(done) && (e.Clock? || e.Service?)
    ensures TallyOf(Transaction(es, done + [e])) == Tallied(TallyOf(Transaction(es, done)), e)
    ensures Transaction(es, done + [e]).mosi == Transaction(es, done).mosi + if e.Clock? then [e.b] else []
  {
    hide POWER_UP, Run, Transaction, Always, Served, NothingLeft, Step;
    TransactionServed(es, done);
    TransactionStep(es, done, e);
    TallyStep(Transaction(es, done), e);
    StepMosi(Transaction(es, done), e);
  }

  lemma StepMosi(b: Bus, e: Event)
    requires SoundBus(b) && (e.Clock? || e.Service?)
    ensures Step(b, e).mosi == b.mosi + if e.Clock? then [e.b] else []
  {
    hide ServiceOpcodes, ServicePushes, Firmware.Service, BeforeDrain;
  }

  /** A WRCOMM that selects channel 1, clocked and serviced so that ten data bytes have been pushed
      when its sixth byte is drained, and sixteen at the end. */
  const MID_CHUNK: seq<Event> := [
    Clock(0x07), Clock(0x21), Event.Service, Event.Service,
    Clock(0), Clock(0), Clock(0x88), Clock(0x29), Event.Service,
    Clock(0), Clock(0), Clock(0), Clock(0), Clock(0), Clock(0), Event.Service
  ]

  lemma TallyDown(y: Tally, cs: seq<Event>, i: nat)
    requires i < |cs|
    ensures TalliedAll(y, cs[i..]) == TalliedAll(Tallied(y, cs[i]), cs[i + 1..])
    ensures Clocks(cs[i..]) == (if cs[i].Clock? then [cs[i].b] else []) + Clocks(cs[i + 1..])
  {
    hide Tallied;
    assert cs[i..][1..] == cs[i + 1..] && cs[i..][0] == cs[i];
  }

  lemma TallyEnd(y: Tally)
    ensures TalliedAll(y, []) == y
  {
  }

  lemma MidChunkTally()
    ensures TalliedAll(Tally(4, 0, 0, 0, 0), MID_CHUNK) == Tally(8, 0, 12, 16, 10)
  {
    hide Clocks, TalliedAll;
    assert MID_CHUNK[0..] == MID_CHUNK;
    TallyDown(Tally(4, 0, 0, 0, 0), MID_CHUNK, 0);
    TallyDown(Tally(3, 1, 0, 0, 0), MID_CHUNK, 1);
    TallyDown(Tally(2, 2, 0, 0, 0), MID_CHUNK, 2);
    TallyDown(Tally(2, 0, 2, 0, 0), MID_CHUNK, 3);
    TallyDown(Tally(8, 0, 2, 6, 0), MID_CHUNK, 4);
    TallyDown(Tally(7, 1, 2, 6, 0), MID_CHUNK, 5);
    TallyDown(Tally(6, 2, 2, 6, 0), MID_CHUNK, 6);
    TallyDown(Tally(5, 3, 2, 6, 0), MID_CHUNK, 7);
    TallyDown(Tally(4, 4, 2, 6, 0), MID_CHUNK, 8);
    MidChunkRest();
  }

  lemma MidChunkRest()
    ensures TalliedAll(Tally(8, 0, 6, 10, 10), MID_CHUNK[9..]) == Tally(8, 0, 12, 16, 10)
  {
    hide Clocks, TalliedAll;
    TallyDown(Tally(8, 0, 6, 10, 10), MID_CHUNK, 9);
    TallyDown(Tally(7, 1, 6, 10, 10), MID_CHUNK, 10);
    TallyDown(Tally(6, 2, 6, 10, 10), MID_CHUNK, 11);
    TallyDown(Tally(5, 3, 6, 10, 10), MID_CHUNK, 12);
    TallyDown(Tally(4, 4, 6, 10, 10), MID_CHUNK, 13);
    TallyDown(Tally(3, 5, 6, 10, 10), MID_CHUNK, 14);
    TallyDown(Tally(2, 6, 6, 10, 10), MID_CHUNK, 15);
    assert MID_CHUNK[16..] == [];
    TallyEnd(Tally(8, 0, 12, 16, 10));
  }

  lemma MidChunkBytes()
    ensures Continues(MID_CHUNK)
    ensures |Clocks(MID_CHUNK)| >= 6 && Clocks(MID_CHUNK)[..6] == [0x07, 0x21, 0, 0, 0x88, 0x29]
  {
    hide Clocks, TalliedAll, Tallied;
    var y, rest := Tally(0, 0, 0, 0, 0), Clocks(MID_CHUNK[8..]);
    MidChunkPayload();
    TallyDown(y, MID_CHUNK, 3);
    TallyDown(y, MID_CHUNK, 2);
    TallyDown(y, MID_CHUNK, 1);
    TallyDown(y, MID_CHUNK, 0);
    assert MID_CHUNK[0..] == MID_CHUNK;
    assert Clocks(MID_CHUNK) == [0x07, 0x21, 0, 0, 0x88, 0x29] + rest;
  }

  lemma MidChunkPayload()
    ensures Clocks(MID_CHUNK[4..]) == [0, 0, 0x88, 0x29] + Clocks(MID_CHUNK[8..])
  {
    hide Clocks, TalliedAll, Tallied;
    var y := Tally(0, 0, 0, 0, 0);
    TallyDown(y, MID_CHUNK, 7);
    TallyDown(y, MID_CHUNK, 6);
    TallyDown(y, MID_CHUNK, 5);
    TallyDown(y, MID_CHUNK, 4);
  }

  lemma SelectsOne()
    ensures Opcode(0x07, 0x21) == 0x721 && IsSelectorWrite(0x88) && SelectorOf(0x88, 0x29) == 1
  {
  }

  /** The witness is a WRCOMM, so it keeps the buffer and moves the selector to channel 1. */
  lemma MidChunkMoves(b: Bus)
    requires SoundBus(b) && Served(b) && Honoured(b) && |b.got| >= 6 && b.pushed != []
    requires |b.mosi| >= 6 && b.mosi[..6] == [0x07, 0x21, 0, 0, 0x88, 0x29]
    ensures b.dev.fw.selector == 1 && b.dev.fw.current == b.base.current
  {
    hide Opcode, IsSelectorWrite, SelectorOf, Served, Honoured, SoundBus;
    assert b.mosi[0] == b.mosi[..6][0] && b.mosi[1] == b.mosi[..6][1] && b.mosi[4] == b.mosi[..6][4] && b.mosi[5] == b.mosi[..6][5];
    SelectsOne();
    SelectorServed(b);
    OtherKeepsBuffer(b);
  }

  /** The second chip's chunk when the selector moved to channel 1 two bytes into it. */
  lemma MidChunkVerdict(b: Bus)
    requires SoundBus(b) && Served(b) && Honoured(b)
    requires TallyOf(b) == Tally(8, 0, 12, 16, 10) && b.base.current == RDAUXA
    requires |b.mosi| >= 6 && b.mosi[..6] == [0x07, 0x21, 0, 0, 0x88, 0x29]
    requires !Stopped(b.dev.fw.stopMask, 0)
    ensures Accepts(b.pushed[8..16]) <==> DcToLtc(b.chain.tempDc[1][b.base.selector]) == DcToLtc(b.chain.tempDc[1][1])
  {
    hide Served, Honoured, Stopped, Accepts, Chunk, DcToLtc, Sewn;
    MidChunkMoves(b);
    ChunkIs(b, 1);
    MixedAuxChunk(b.chain, b.base.selector, 1, 1, 2);
  }

  /**
   If the last read command was RDAUXA, then in this transaction the second chip's chunk is begun
   before the selector moves and ended after: unstopped, it passes the PEC check if and only if
   its temperature reads the same on both channels.
   */
  lemma SelectorMovesMidChunk(es: seq<Event>)
    requires NothingLeft(Run(POWER_UP, es).dev) && LastRead(RunOpcodes(es), RDCVA) == RDAUXA
    requires !Stopped(Transaction(es, MID_CHUNK).dev.fw.stopMask, 0)
    ensures var b := Transaction(es, MID_CHUNK); var temps := b.chain.tempDc[1];
      && |b.pushed| == 16
      && (Accepts(b.pushed[8..16]) <==> DcToLtc(temps[Run(POWER_UP, es).dev.fw.selector]) == DcToLtc(temps[1]))
  {
    hide POWER_UP, Run, Transaction, Continues, TalliedAll, Clocks, Accepts, DcToLtc, Stopped, Honoured, Served, Always, NothingLeft, RunOpcodes, LastRead;
    MidChunkTally();
    MidChunkBytes();
    StartTally(es);
    TransactionServed(es, MID_CHUNK);
    TallyRun(es, [], MID_CHUNK);
    assert [] + MID_CHUNK == MID_CHUNK;
    var b := Transaction(es, MID_CHUNK);
    assert [] + Clocks(MID_CHUNK) == Clocks(MID_CHUNK);
    FoundAtFall(es, MID_CHUNK);
    ServedIsHonoured(b);
    MidChunkVerdict(b);
  }

  /** What the transaction found is what the run left. */
  lemma FoundAtFall(es: seq<Event>, cs: seq<Event>)
    requires Continues(cs)
    ensures var b, t := Run(POWER_UP, es), Transaction(es, cs);
      && t.base.selector == b.dev.fw.selector && t.base.current == LastRead(RunOpcodes(es), RDCVA) && t.chain == b.chain
  {
    hide LastRead, RunOpcodes;
    EveryRun(es);
    CurrentIsLastRead(es);
    BaseKept(Run(POWER_UP, es), cs);
  }

  lemma StartTally(es: seq<Event>)
    requires NothingLeft(Run(POWER_UP, es).dev)
    ensures TallyOf(Transaction(es, [])) == Tally(4, 0, 0, 0, 0) && Transaction(es, []).mosi == [] && Continues([])
  {
  }
}
