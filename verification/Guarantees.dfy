/**
 What the bus master can rely on in a transaction that starts with nothing left over, whatever
 is clocked and whenever passes run; and what it gets when something was left over.
 */
module Guarantees {
  import opened Wrappers
  import opened CellChain
  import opened Encoding
  import opened Pec15
  import opened Responses
  import opened CmdStats
  import opened Firmware
  import opened Transactions
  import opened Serving
  import opened Falls
  import opened Seams

  /**
   While the line is low: no data byte is pushed before the opcode is decoded, the opcode is
   decoded once, from this transaction's own first two bytes, and a read command's data is an
   in-order prefix of the response computed directly from chain state and selector.
   `Falls.PromiseKeptIff` shows that the condition on the fall is the exact one.
   */
  lemma ReadTransaction(es: seq<Event>, cs: seq<Event>)
    requires NothingLeft(Run(POWER_UP, es).dev) && Continues(cs)
    ensures var b := Transaction(es, cs);
      && (b.pushed != [] ==> |b.mosi| >= 2 && b.opcodes == [MasterOpcode(b)])
      && |b.opcodes| == (if |b.got| >= 2 then 1 else 0)
      && |b.pushed| <= 80
    ensures var b := Transaction(es, cs);
      |b.mosi| >= 2 ==>
        forall slot | 0 <= slot < 6 && MasterOpcode(b) == [0x004, 0x006, 0x008, 0x00A, 0x00C, 0x00E][slot] ::
          b.pushed <= Masked(b.chain, b.dev.fw.stopMask, b.dev.fw.selector, slot)
  {
    TransactionServed(es, cs);
    var b := Transaction(es, cs);
    ServedIsHonoured(b);
    ReadOpcodes(0);
    hide Run, Opcode, ReadSlot, Masked, Pad, AllResponses, Tracks, FollowsBase, Due, RecordAll;
  }

  // ----- Pad and order --------------------------------------------------------

  lemma {:induction false} FifoInOrder(b: Bus, cs: seq<Event>)
    requires SoundBus(b) && Continues(cs)
    ensures var t := Run(Fallen(b), cs); !t.high && t.miso + t.dev.txFifo == b.dev.txFifo + t.pushed
    decreases |cs|
  {
    hide Clocked, Serviced;
    if cs == [] {
      assert b.dev.txFifo + [] == b.dev.txFifo == [] + b.dev.txFifo;
    } else {
      var n := |cs| - 1;
      FifoInOrder(b, cs[..n]);
      StepInOrder(Run(Fallen(b), cs[..n]), cs[n], b.dev.txFifo);
    }
  }

  lemma StepInOrder(t: Bus, e: Event, start: seq<Byte>)
    requires SoundBus(t) && !t.high && (e.Clock? || e.Service?) && t.miso + t.dev.txFifo == start + t.pushed
    ensures var r := Step(t, e); !r.high && r.miso + r.dev.txFifo == start + r.pushed
  {
    hide AllResponses, Drain, PumpBytes, CaptureAll, ServiceOpcodes;
    if e.Clock? {
      if t.dev.txFifo != [] { ClockKeepsOrder(t.miso, t.dev.txFifo); }
    } else {
      Append(t.miso, t.dev.txFifo, start, t.pushed, ServicePushes(t));
    }
  }

  /** In every transaction the master sees what the FIFO held at the fall, then the data; so it sees
      exactly four 0xFF bytes first if and only if that is what the FIFO held. */
  lemma PadThenData(es: seq<Event>, cs: seq<Event>)
    requires Continues(cs)
    ensures var b, t := Run(POWER_UP, es), Transaction(es, cs);
      && t.miso + t.dev.txFifo == b.dev.txFifo + t.pushed
      && (t.miso + t.dev.txFifo == Pad() + t.pushed <==> b.dev.txFifo == Pad())
  {
    var b := Run(POWER_UP, es);
    FifoInOrder(b, cs);
    hide Run, Pad;
    CancelRight(b.dev.txFifo, Pad(), Transaction(es, cs).pushed);
  }

  lemma CancelRight(a: seq<Byte>, b: seq<Byte>, c: seq<Byte>)
    ensures a + c == b + c <==> a == b
  {
    if a + c == b + c {
      assert |a + c| == |a| + |c| && |b + c| == |b| + |c|;
      assert (a + c)[..|a|] == a && (b + c)[..|b|] == b;
    }
  }

  // ----- Chunks ---------------------------------------------------------------

  /** How much of chunk k comes from before the seam. */
  function Cut(b: Bus, k: nat): (j: nat)
    ensures j <= 8
  {
    var seam := SeamOf(b.base, b.got);
    if seam <= 8 * k then 0 else if seam >= 8 * k + 8 then 8 else seam - 8 * k
  }

  /** Chip k's answer from the buffer as the transaction found it, and as it is now. */
  function Before(b: Bus, k: nat): (chunk: seq<Byte>)
    requires SoundBus(b) && k < CHAIN_LEN
    ensures |chunk| == 8
  {
    Chunk(b.chain, b.base.selector, b.dev.fw.current, k)
  }

  function Now(b: Bus, k: nat): (chunk: seq<Byte>)
    requires SoundBus(b) && k < CHAIN_LEN
    ensures |chunk| == 8
  {
    Chunk(b.chain, b.dev.fw.selector, b.dev.fw.current, k)
  }

  lemma SewnSlice(a: seq<Byte>, b: seq<Byte>, seam: nat, k: nat, j: nat)
    requires |a| == |b| && seam <= |a| && 8 * k + 8 <= |a|
    requires j == if seam <= 8 * k then 0 else if seam >= 8 * k + 8 then 8 else seam - 8 * k
    ensures Sewn(a, b, seam)[8 * k..8 * k + 8] == Sewn(a[8 * k..8 * k + 8], b[8 * k..8 * k + 8], j)
  {
  }

  lemma MaskedChunk(c: Chain, mask: Byte, sel: Channel, slot: nat, k: nat)
    requires WellFormed(c) && slot < SLOTS && k < CHAIN_LEN
    ensures var chunk := Masked(c, mask, sel, slot)[8 * k..8 * k + 8];
      if Stopped(mask, k / 2) then forall i :: 0 <= i < 8 ==> chunk[i] == 0xFF
      else chunk == Chunk(c, sel, slot, k)
  {
    hide Stopped, Chunks, Chunk;
    var data := Data(c, sel, slot);
    var chunk := Masked(c, mask, sel, slot)[8 * k..8 * k + 8];
    ChunkAt(c, sel, slot, CHAIN_LEN, k);
    forall i | 0 <= i < 8
      ensures chunk[i] == (if Stopped(mask, k / 2) then 0xFF else data[8 * k + i])
    {
      assert (8 * k + i) / 8 == k;
    }
  }

  /** A complete chunk is silence, or its beginning from before the seam and its end from after. */
  lemma ChunkIs(b: Bus, k: nat)
    requires SoundBus(b) && Served(b) && k < CHAIN_LEN && 8 * k + 8 <= |b.pushed|
    ensures var chunk := b.pushed[8 * k..8 * k + 8];
      if Stopped(b.dev.fw.stopMask, k / 2) then chunk[7] == 0xFF
      else chunk == Sewn(Before(b, k), Now(b, k), Cut(b, k))
  {
    hide Stopped, Masked, Chunk, Opcode, ArmsSnoop, CurrentAfter, SelectorAfter, FirstEight, WindowOf, SnapOf;
    var f := b.dev.fw;
    var x, y := Masked(b.chain, f.stopMask, b.base.selector, f.current), Masked(b.chain, f.stopMask, f.selector, f.current);
    var seam := SeamOf(b.base, b.got);
    MaskedChunk(b.chain, f.stopMask, b.base.selector, f.current, k);
    MaskedChunk(b.chain, f.stopMask, f.selector, f.current, k);
    SewnSlice(x, y, seam, k, Cut(b, k));
    assert b.pushed[8 * k..8 * k + 8] == Sewn(x, y, seam)[8 * k..8 * k + 8];
  }

  /**
   For every opcode whatever: a complete chunk passes the master's PEC check if and only if its
   module is not stopped and the selector has not moved visibly inside it.
   */
  lemma ChunkVerdict(es: seq<Event>, cs: seq<Event>, k: nat)
    requires NothingLeft(Run(POWER_UP, es).dev) && Continues(cs)
    requires k < CHAIN_LEN && 8 * k + 8 <= |Transaction(es, cs).pushed|
    ensures var b := Transaction(es, cs);
      Accepts(b.pushed[8 * k..8 * k + 8]) <==>
        !Stopped(b.dev.fw.stopMask, k / 2) && Seamless(Before(b, k), Now(b, k), Cut(b, k))
  {
    TransactionServed(es, cs);
    var b := Transaction(es, cs);
    hide Run, Stopped, Accepts, Chunk, Served, Always, Seamless;
    ChunkIs(b, k);
    if Stopped(b.dev.fw.stopMask, k / 2) {
      SilenceRejected(b.pushed[8 * k..8 * k + 8]);
    } else {
      SewnChunk(b.chain, b.base.selector, b.dev.fw.selector, b.dev.fw.current, k, Cut(b, k));
    }
  }

  /** The seam can show in one chunk only, in RDAUXA only, and only if the selector moved. */
  lemma MostlySeamless(b: Bus, k: nat)
    requires SoundBus(b) && k < CHAIN_LEN
    requires b.dev.fw.current != RDAUXA || b.dev.fw.selector == b.base.selector
      || SeamOf(b.base, b.got) <= 8 * k || SeamOf(b.base, b.got) >= 8 * k + 8
    ensures Seamless(Before(b, k), Now(b, k), Cut(b, k))
  {
    hide ChunkOf, MvToLtc, DcToLtc;
    var x, y := Before(b, k), Now(b, k);
    if b.dev.fw.current != RDAUXA {
      assert Registers(b.chain, b.base.selector, b.dev.fw.current, k) == Registers(b.chain, b.dev.fw.selector, b.dev.fw.current, k);
    }
    assert x[..0] == y[..0] && x[8..] == y[8..];
  }

  lemma {:induction false} BaseKept(b: Bus, cs: seq<Event>)
    requires SoundBus(b) && Continues(cs)
    ensures var t := Run(Fallen(b), cs);
      && t.base.selector == b.dev.fw.selector && t.base.current == b.dev.fw.current
      && t.chain == b.chain
    decreases |cs|
  {
    hide ServiceOpcodes, ServicePushes, ServiceCloses, Firmware.Service, BeforeDrain;
    if cs != [] {
      BaseKept(b, cs[..|cs| - 1]);
    }
  }

  /**
   An opcode that is no read command streams the buffer of the last read command decoded in the
   run, RDCVA if there was none, and its chunks pass under the same condition as a read's.
   */
  lemma UnknownCommandsStreamTheLastRead(es: seq<Event>, cs: seq<Event>, k: nat)
    requires NothingLeft(Run(POWER_UP, es).dev) && Continues(cs)
    requires var b := Transaction(es, cs);
      && k < CHAIN_LEN && 8 * k + 8 <= |b.pushed|
      && |b.mosi| >= 2 && MasterOpcode(b) !in {0x004, 0x006, 0x008, 0x00A, 0x00C, 0x00E}
    ensures var b := Transaction(es, cs); var slot := LastRead(RunOpcodes(es), RDCVA);
      var chunk := b.pushed[8 * k..8 * k + 8];
      && slot < SLOTS
      && (Accepts(chunk) <==> !Stopped(b.dev.fw.stopMask, k / 2) && Seamless(Before(b, k), Now(b, k), Cut(b, k)))
      && (!Stopped(b.dev.fw.stopMask, k / 2) ==>
            chunk == Sewn(Chunk(b.chain, Run(POWER_UP, es).dev.fw.selector, slot, k),
                          Chunk(b.chain, b.dev.fw.selector, slot, k), Cut(b, k)))
  {
    TransactionServed(es, cs);
    EveryRun(es);
    CurrentIsLastRead(es);
    ChunkVerdict(es, cs, k);
    var b := Transaction(es, cs);
    BaseKept(Run(POWER_UP, es), cs);
    ServedIsHonoured(b);
    ReadOpcodes(MasterOpcode(b));
    hide Run, RunOpcodes, LastRead, Accepts, Chunk, Stopped, Seamless, Cut, Opcode, ReadSlot, Always, SelectorAfter, Streamed, FirstEight, Pad, OwnResponse;
    OtherKeepsBuffer(b);
    ChunkIs(b, k);
  }

  lemma OtherKeepsBuffer(b: Bus)
    requires SoundBus(b) && Served(b) && Honoured(b) && b.pushed != []
    requires |b.mosi| >= 2 && ReadSlot(MasterOpcode(b)).None?
    ensures b.dev.fw.current == b.base.current
  {
    hide Opcode, ReadSlot, SelectorAfter, Streamed, FirstEight, Pad, OwnResponse, Tracks;
  }

  // ----- Readings -------------------------------------------------------------

  /** A read command's chunk is silence that fails the PEC check, or the direct one that passes it. */
  lemma ReadChunk(es: seq<Event>, cs: seq<Event>, k: nat, slot: nat)
    requires NothingLeft(Run(POWER_UP, es).dev) && Continues(cs) && slot < 6
    requires var b := Transaction(es, cs);
      && k < CHAIN_LEN && 8 * k + 8 <= |b.pushed|
      && |b.mosi| >= 2 && MasterOpcode(b) == [0x004, 0x006, 0x008, 0x00A, 0x00C, 0x00E][slot]
    ensures var b := Transaction(es, cs); var chunk := b.pushed[8 * k..8 * k + 8];
      && (Accepts(chunk) <==> !Stopped(b.dev.fw.stopMask, k / 2))
      && (Accepts(chunk) ==> chunk == Chunk(b.chain, b.dev.fw.selector, slot, k))
  {
    TransactionServed(es, cs);
    ServedIsHonoured(Transaction(es, cs));
    ReadOpcodes(0);
    hide Run, Transaction, Served, Always, OwnResponse, OwnOpcode, OpcodeFirst, PadFirst, Chunk, Stopped, ReadSlot, Opcode, Accepts;
    ReadChunkOf(Transaction(es, cs), k, slot);
  }

  lemma ReadChunkOf(b: Bus, k: nat, slot: nat)
    requires SoundBus(b) && OwnResponse(b)
    requires k < CHAIN_LEN && 8 * k + 8 <= |b.pushed|
    requires |b.mosi| >= 2 && ReadSlot(MasterOpcode(b)) == Some(slot)
    ensures var chunk := b.pushed[8 * k..8 * k + 8];
      && (Accepts(chunk) <==> !Stopped(b.dev.fw.stopMask, k / 2))
      && (Accepts(chunk) ==> chunk == Chunk(b.chain, b.dev.fw.selector, slot, k))
  {
    hide Masked, Chunk, Stopped, ReadSlot, Opcode, Pad, Accepts;
    MaskedChunk(b.chain, b.dev.fw.stopMask, b.dev.fw.selector, slot, k);
    SliceOfPrefix(b.pushed, Masked(b.chain, b.dev.fw.stopMask, b.dev.fw.selector, slot), 8 * k);
    var chunk := b.pushed[8 * k..8 * k + 8];
    if Stopped(b.dev.fw.stopMask, k / 2) {
      SilenceRejected(chunk);
    } else {
      ChunkOfAccepted(b.chain, b.dev.fw.selector, slot, k);
    }
  }

  lemma ChunkOfAccepted(c: Chain, sel: Channel, slot: nat, ltc: nat)
    requires WellFormed(c) && slot < SLOTS && ltc < CHAIN_LEN
    ensures Accepts(Chunk(c, sel, slot, ltc))
  {
    hide Registers, Accepts, ChunkOf;
    ChunkAccepted(Registers(c, sel, slot, ltc));
  }

  lemma SliceOfPrefix(a: seq<Byte>, b: seq<Byte>, at: nat)
    requires a <= b && at + 8 <= |a|
    ensures a[at..at + 8] == b[at..at + 8]
  {
  }

  lemma CellField(c: Chain, sel: Channel, slot: nat, k: nat, i: nat)
    requires WellFormed(c) && slot < RDAUXA && k < CHAIN_LEN && i < 3
    ensures var mV: int := c.cellMv[k][3 * slot + i]; Field(Chunk(c, sel, slot, k), i) == Min(10 * mV, 0xFFFF)
  {
    hide ChunkOf, Field, MvToLtc, DcToLtc;
    var r := Registers(c, sel, slot, k);
    FieldsOfChunk(r);
    assert 3 * slot == slot * 3;
    var mV := c.cellMv[k][3 * slot + i];
    assert Field(ChunkOf(r), i) == MvToLtc(mV);
    TenTimes(mV);
  }

  lemma TenTimes(mV: U16)
    ensures MvToLtc(mV) == Min(10 * (mV as int), 0xFFFF)
  {
  }

  /** Sixteen bits at a wire offset, low byte first. */
  function WireValue(data: seq<Byte>, at: nat): int
    requires at + 2 <= |data|
  {
    data[at] as int + 256 * (data[at + 1] as int)
  }

  lemma FieldOnTheWire(data: seq<Byte>, k: nat, i: nat)
    requires 8 * k + 8 <= |data| && i < 3
    ensures WireValue(data, 8 * k + 2 * i) == Field(data[8 * k..8 * k + 8], i)
  {
    var chunk := data[8 * k..8 * k + 8];
    assert chunk[2 * i] == data[8 * k + 2 * i] && chunk[2 * i + 1] == data[8 * k + 2 * i + 1];
  }

  /**
   Voltages as the master reads them: the commands 0x004, 0x006, 0x008 and 0x00A give cells 0..2, 3..5,
   6..8 and 9..11 of each chip, in every chunk that passes the PEC check.
   */
  lemma CellReading(es: seq<Event>, cs: seq<Event>, k: nat, i: nat, slot: nat)
    requires NothingLeft(Run(POWER_UP, es).dev) && Continues(cs) && i < 3 && slot < 4
    requires var b := Transaction(es, cs);
      && k < 10 && 8 * k + 8 <= |b.pushed| && Accepts(b.pushed[8 * k..8 * k + 8])
      && |b.mosi| >= 2 && MasterOpcode(b) == [0x004, 0x006, 0x008, 0x00A][slot]
    ensures var b := Transaction(es, cs);
      var mV: int := b.chain.cellMv[k][3 * slot + i];
      WireValue(b.pushed, 8 * k + 2 * i) == Min(10 * mV, 0xFFFF)
  {
    hide Run, Transaction, Chunk, Stopped, ReadSlot, Opcode, Field, Accepts, WireValue;
    ReadChunk(es, cs, k, slot);
    var b := Transaction(es, cs);
    FieldOnTheWire(b.pushed, k, i);
    CellField(b.chain, b.dev.fw.selector, slot, k, i);
  }

  /** The command 0x00C gives the temperature of the sensor the multiplexer points at, and those of
      sensors 1 and 2. */
  lemma AuxReading(es: seq<Event>, cs: seq<Event>, k: nat)
    requires NothingLeft(Run(POWER_UP, es).dev) && Continues(cs)
    requires var b := Transaction(es, cs);
      && k < 10 && 8 * k + 8 <= |b.pushed| && Accepts(b.pushed[8 * k..8 * k + 8])
      && |b.mosi| >= 2 && MasterOpcode(b) == 0x00C
    ensures var b := Transaction(es, cs); var temps := b.chain.tempDc[k];
      && WireValue(b.pushed, 8 * k) == DcToLtc(temps[b.dev.fw.selector])
      && WireValue(b.pushed, 8 * k + 2) == DcToLtc(temps[1])
      && WireValue(b.pushed, 8 * k + 4) == DcToLtc(temps[2])
  {
    hide Run, Transaction, ChunkOf, Stopped, Opcode, Field, DcToLtc, Accepts, WireValue;
    ReadChunk(es, cs, k, 4);
    var b := Transaction(es, cs);
    AllOnTheWire(b.pushed, k);
    FieldsOfChunk(Registers(b.chain, b.dev.fw.selector, 4, k));
  }

  /** The command 0x00E gives the temperatures of sensors 3 and 4, and a reference of 3.0 volts. */
  lemma AuxBReading(es: seq<Event>, cs: seq<Event>, k: nat)
    requires NothingLeft(Run(POWER_UP, es).dev) && Continues(cs)
    requires var b := Transaction(es, cs);
      && k < 10 && 8 * k + 8 <= |b.pushed| && Accepts(b.pushed[8 * k..8 * k + 8])
      && |b.mosi| >= 2 && MasterOpcode(b) == 0x00E
    ensures var b := Transaction(es, cs); var temps := b.chain.tempDc[k];
      && WireValue(b.pushed, 8 * k) == DcToLtc(temps[3])
      && WireValue(b.pushed, 8 * k + 2) == DcToLtc(temps[4])
      && WireValue(b.pushed, 8 * k + 4) == 30000
  {
    hide Run, Transaction, ChunkOf, Stopped, Opcode, Field, DcToLtc, Accepts, WireValue;
    ReadChunk(es, cs, k, 5);
    var b := Transaction(es, cs);
    AllOnTheWire(b.pushed, k);
    FieldsOfChunk(Registers(b.chain, b.dev.fw.selector, 5, k));
  }

  lemma AllOnTheWire(data: seq<Byte>, k: nat)
    requires 8 * k + 8 <= |data|
    ensures var chunk := data[8 * k..8 * k + 8];
      WireValue(data, 8 * k) == Field(chunk, 0) && WireValue(data, 8 * k + 2) == Field(chunk, 1) && WireValue(data, 8 * k + 4) == Field(chunk, 2)
  {
    FieldOnTheWire(data, k, 0);
    FieldOnTheWire(data, k, 1);
    FieldOnTheWire(data, k, 2);
  }

  /** The selector moves to the channel in the payload of the first chip, if its control nibble is 8,
      after each of eleven commands and after no other. */
  lemma SelectorFollows(es: seq<Event>, cs: seq<Event>)
    requires NothingLeft(Run(POWER_UP, es).dev) && Continues(cs)
    ensures var b := Transaction(es, cs);
      && (|b.got| >= 6 ==> |b.mosi| >= 6)
      && b.dev.fw.selector ==
        (if && |b.got| >= 6 && b.mosi[4] >> 4 == 0x8
            && MasterOpcode(b) in {0x001, 0x002, 0x010, 0x012, 0x014, 0x016, 0x024, 0x026, 0x02C, 0x714, 0x721}
         then SelectorOf(b.mosi[4], b.mosi[5]) else Run(POWER_UP, es).dev.fw.selector)
  {
    TransactionServed(es, cs);
    EveryRun(es);
    BaseKept(Run(POWER_UP, es), cs);
    var b := Transaction(es, cs);
    assert |b.mosi| >= 6 ==> IsSelectorWrite(b.mosi[4]) == (b.mosi[4] >> 4 == 0x8);
    hide Run, Transaction, Served, Always, Opcode, IsSelectorWrite, SelectorOf;
    SelectorServed(b);
  }

  lemma SelectorServed(b: Bus)
    requires SoundBus(b) && Served(b)
    ensures |b.got| >= 6 ==> |b.mosi| >= 6
    ensures b.dev.fw.selector ==
      (if |b.got| >= 6 && ArmsSnoop(MasterOpcode(b)) && IsSelectorWrite(b.mosi[4])
       then SelectorOf(b.mosi[4], b.mosi[5]) else b.base.selector)
  {
    hide Opcode, ArmsSnoop, Streamed, Tracks, Pad, IsSelectorWrite, SelectorOf;
    var w := b.got + b.dev.rxFifo;
    if |b.got| >= 6 {
      assert forall i :: 0 <= i < 6 ==> FirstEight(w)[i] == b.got[i];
      assert |FirstEight(b.mosi)| == |FirstEight(w)| >= 6;
      assert forall i :: 0 <= i < 6 ==> FirstEight(b.mosi)[i] == b.mosi[i];
    }
  }

  // ----- Closing --------------------------------------------------------------

  lemma {:induction false} SampledLow(b: Bus, cs: seq<Event>)
    requires Always(b) && Continues(cs)
    ensures var t := Run(Fallen(b), cs); Always(t) && !t.high && (t.sampled ==> t.dev.fw.csWasLow)
    decreases |cs|
  {
    if cs == [] {
      FallAlways(b);
    } else {
      hide Always;
      var t := Run(Fallen(b), cs[..|cs| - 1]);
      SampledLow(b, cs[..|cs| - 1]);
      StepAlways(t, cs[|cs| - 1]);
      StepKeepsFlag(t, cs[|cs| - 1]);
    }
  }

  /** Closing a transaction that a pass saw publishes exactly what was pushed, counts it if it was
      decoded, and leaves nothing over. */
  lemma ClosePublishes(es: seq<Event>, cs: seq<Event>)
    requires NothingLeft(Run(POWER_UP, es).dev) && Continues(cs) && Transaction(es, cs).sampled
    ensures var b := Transaction(es, cs); var r := Step(Step(b, Rise), Event.Service);
      && r.dev.fw.txPublished == b.pushed
      && NothingLeft(r.dev)
      && r.closed == b.closed + (if |b.got| >= 2
                                 then [Closed(Opcode(b.got[0], b.got[1]), Low16(|b.got|))] else [])
  {
    hide Run, POWER_UP, Served, Always, NothingLeft, Serviced, SoundBus, Fallen, Opcode, Low16;
    PowerUpSound();
    TransactionServed(es, cs);
    EveryRun(es);
    SampledLow(Run(POWER_UP, es), cs);
    CloseServed(Transaction(es, cs));
  }

  lemma CloseServed(b: Bus)
    requires Always(b) && Served(b) && b.dev.fw.csWasLow
    ensures var r := Serviced(b.(high := true, sampled := false));
      && r.dev.fw.txPublished == b.pushed
      && NothingLeft(r.dev)
      && r.closed == b.closed + (if |b.got| >= 2
                                 then [Closed(Opcode(b.got[0], b.got[1]), Low16(|b.got|))] else [])
  {
    var c := b.(high := true, sampled := false);
    StepAlways(b, Rise);
    HighPass(c, false);
    ServiceHighPublishes(c);
    hide Opcode, ArmsSnoop, AllResponses, RecordAll, FollowsBase, Due, Low16, Pad, Serviced, FirstEight, NothingLeft;
    if |b.got| >= 2 {
      OpcodeIsElevenBits(b.got[0], b.got[1]);
    }
  }

  lemma ServiceHighPublishes(b: Bus)
    requires SoundBus(b) && b.high && b.dev.fw.csWasLow
    ensures Serviced(b).dev.fw.txPublished == b.dev.fw.x.txSnap
    ensures Serviced(b).closed == b.closed + ServiceCloses(b)
  {
    hide AllResponses, Record, CaptureAll, Pad;
  }
}
