/**
 The emulator as the firmware runs it: statics and g_state updated in place, loops over
 the FIFOs, buffers rebuilt where they stand. Each method is tied to its function in
 Firmware.
 */
module EmulatorDevice {
  import opened Wrappers
  import opened CellChain
  import opened Pec15
  import opened Responses
  import opened CmdStats
  import opened Firmware

  class Emulator {
    const cells: CellState
    const builder: ResponseBuilder
    var fw: Fw                 // the file's static variables
    var txFifo: seq<Byte>
    var rxFifo: seq<Byte>

    ghost predicate Valid()
      reads this, builder.crc, builder.crc.table
    {
      cells.Valid() && builder.Valid() && SoundDevice(Value())
    }

    ghost function Value(): Device
      reads this
    {
      Device(fw, txFifo, rxFifo)
    }

    /** Power-up: cell_state_reset and then ltc6811_emu_init. */
    constructor ()
      ensures Valid() && Value() == Boot() && cells.Value() == BootChain()
      ensures fresh(builder.crc) && fresh(builder.crc.table)
      ensures fresh(cells.cellMv) && fresh(cells.tempDc)
    {
      cells := new CellState();
      builder := new ResponseBuilder();
      fw := BootFw();
      txFifo, rxFifo := Pad(), [];
      new;
      cells.Reset();
      var pool := builder.RebuildAll(cells, 0);
      fw := fw.(pool := pool);
    }

    /** parse_ltc_cmd. */
    method ParseCommand(cmd: Word)
      requires Valid()
      modifies this`fw
      ensures Valid()
      ensures fw == old(fw).(current := CurrentAfter(old(fw).current, cmd),
                             x := old(fw).x.(parsed := true, armed := old(fw).x.armed || ArmsSnoop(cmd), cmd := cmd))
      // six numbers select a buffer, four of voltages and two of temperatures, and no other does
      ensures forall slot | 0 <= slot < 6 :: cmd == [0x004, 0x006, 0x008, 0x00A, 0x00C, 0x00E][slot] ==> fw.current == slot
      ensures cmd !in {0x004, 0x006, 0x008, 0x00A, 0x00C, 0x00E} ==> fw.current == old(fw).current
      ensures fw.x.armed ==
        (old(fw).x.armed || cmd in {0x001, 0x002, 0x010, 0x012, 0x014, 0x016, 0x024, 0x026, 0x02C, 0x714, 0x721})
    {
      ReadOpcodes(cmd);
      var x := fw.x.(cmd := cmd, parsed := true);
      if cmd == 0x001 || cmd == 0x002 || cmd == 0x010 || cmd == 0x012 || cmd == 0x014 || cmd == 0x016
        || cmd == 0x024 || cmd == 0x026 || cmd == 0x02C || cmd == 0x714 || cmd == 0x721 {
        x := x.(armed := true);
      } else if cmd == 0x004 {
        fw := fw.(current := RDCVA);
      } else if cmd == 0x006 {
        fw := fw.(current := RDCVB);
      } else if cmd == 0x008 {
        fw := fw.(current := RDCVC);
      } else if cmd == 0x00A {
        fw := fw.(current := RDCVD);
      } else if cmd == 0x00C {
        fw := fw.(current := RDAUXA);
      } else if cmd == 0x00E {
        fw := fw.(current := RDAUXB);
      }
      fw := fw.(x := x);
    }

    /** The WRCOMM payload snoop, rebuilding RDAUXA alone when the selector moves. */
    method SnoopSelector()
      requires Valid()
      modifies this`fw, builder.crc, builder.crc.table
      ensures Valid() && fw == Snooped(cells.Value(), old(fw), old(fw).x)
    {
      hide Response;
      var snap := fw.x.rxSnap;
      if fw.x.armed && |snap| == 6 {
        if IsSelectorWrite(snap[4]) {
          var ch := SelectorOf(snap[4], snap[5]);
          if ch != fw.selector {
            fw := fw.(selector := ch);
            var response := builder.BuildOne(cells, ch, RDAUXA);
            fw := fw.(pool := fw.pool[RDAUXA := response]);
          }
        }
      }
    }

    /** The body of the receive drain. */
    method Receive(b: Byte)
      requires Valid()
      modifies this`fw, builder.crc, builder.crc.table
      ensures Valid() && fw == RxByte(cells.Value(), old(fw), b)
    {
      hide Snooped, Noted, Windowed, DecodesAt, CurrentAfter, WindowOpcode;
      ghost var f := fw;
      NoteByte(b);
      SnoopKeepsXact(cells.Value(), f, fw.x);
      SnoopSelector();
      FrameByte(b);
    }

    method NoteByte(b: Byte)
      requires Valid()
      modifies this`fw
      ensures Valid() && fw == old(fw).(x := Noted(old(fw).x, b))
    {
      var x := fw.x;
      x := x.(rxCount := (x.rxCount + 1) % 0x1_0000);
      if |x.rxSnap| < RESPONSE_LEN {
        x := x.(rxSnap := x.rxSnap + [b]);
      }
      fw := fw.(x := x);
    }

    /** Window the byte; decode at two bytes or, were that missed, at four. */
    method FrameByte(b: Byte)
      requires Valid()
      modifies this`fw
      ensures Valid()
      ensures var x, window := old(fw).x, old(fw).x.rxBuf + [b];
        fw == old(fw).(x := Windowed(x, window),
                       current := if DecodesAt(x, window) then CurrentAfter(old(fw).current, WindowOpcode(window))
                                  else old(fw).current)
    {
      hide Opcode, CurrentAfter, ArmsSnoop;
      var window := fw.x.rxBuf + [b];
      if |window| == 2 && !fw.x.parsed {
        ParseCommand(Opcode(window[0], window[1]));
      }
      if |window| < 4 {
        fw := fw.(x := fw.x.(rxBuf := window));
        return;
      }
      fw := fw.(x := fw.x.(rxBuf := []));
      if !fw.x.parsed {
        ParseCommand(Opcode(window[0], window[1]));
      }
    }

    /** Drain what the master clocked in. */
    method DrainRx()
      requires Valid()
      modifies this`fw, this`rxFifo, builder.crc, builder.crc.table
      ensures Valid() && rxFifo == []
      ensures fw == Drain(cells.Value(), old(fw), old(rxFifo))
    {
      hide RxByte;
      ghost var c := cells.Value();
      while rxFifo != []
        invariant Valid() && cells.Value() == c
        invariant Drain(c, fw, rxFifo) == Drain(c, old(fw), old(rxFifo))
        decreases |rxFifo|
      {
        var b := rxFifo[0];
        rxFifo := rxFifo[1..];
        Receive(b);
      }
    }

    /** Push data until the transmit FIFO is full, the data ends, or nothing is decoded. */
    method PumpTx()
      requires Valid()
      modifies this`fw, this`txFifo
      ensures Valid() && Value() == PumpDevice(old(Value()))
    {
      hide Suppress, CaptureAll, Pumped, Stream;
      ghost var f, q := fw, |txFifo|;
      ghost var data, start := Stream(f), f.x.dataIdx;
      var x := fw.x;
      PumpNone(f);
      while |txFifo| < FIFO_DEPTH && x.dataIdx < DATA_LEN
        invariant start <= x.dataIdx <= start + PumpCount(f.x, q)
        invariant txFifo == old(txFifo) + data[start..x.dataIdx]
        invariant x == Pumped(f.x, data[start..x.dataIdx])
        invariant fw == f && |txFifo| <= FIFO_DEPTH && x.parsed == f.x.parsed
        decreases DATA_LEN - x.dataIdx
      {
        if !x.parsed {
          break;
        }
        var b := Suppress(fw.stopMask, fw.pool[fw.current][PAD_LEN + x.dataIdx], x.dataIdx);
        PumpOneMore(f, x.dataIdx);
        txFifo := txFifo + [b];
        if |x.txSnap| < RESPONSE_LEN {
          x := x.(txSnap := x.txSnap + [b]);
        }
        x := x.(dataIdx := x.dataIdx + 1);
      }
      fw := fw.(x := x);
    }

    /** Receive bytes that arrived after the last drain go to the snapshot only. */
    method DrainTail() returns (snap: seq<Byte>)
      requires Valid()
      modifies this`rxFifo
      ensures Valid() && rxFifo == []
      ensures snap == CaptureAll(fw.x.rxSnap, old(rxFifo))
    {
      ghost var done: seq<Byte> := [];
      snap := fw.x.rxSnap;
      while rxFifo != []
        invariant Valid()
        invariant done + rxFifo == old(rxFifo)
        invariant snap == CaptureAll(fw.x.rxSnap, done)
        decreases |rxFifo|
      {
        var tail := rxFifo[0];
        rxFifo := rxFifo[1..];
        CaptureOneMore(fw.x.rxSnap, done, tail);
        done := done + [tail];
        if |snap| < RESPONSE_LEN {
          snap := snap + [tail];
        }
      }
      assert done == old(rxFifo);
    }

    method PreloadPad()
      requires Valid()
      modifies this`txFifo
      ensures Valid() && txFifo == Pad()
    {
      txFifo := [];
      var i := 0;
      while i < PAD_LEN
        invariant 0 <= i <= PAD_LEN
        invariant txFifo == Pad()[..i]
      {
        txFifo := txFifo + [0xFF];
        i := i + 1;
      }
      assert Pad()[..PAD_LEN] == Pad();
    }

    /** Transaction boundary: publish, count, clear the FIFOs and preload the pad. */
    method OnCsRise()
      requires Valid()
      modifies this
      ensures Valid() && rxFifo == [] && txFifo == Pad()
      ensures fw == CsRise(old(fw), old(rxFifo))
    {
      hide Record, CaptureAll, Pad;
      var x := fw.x;
      var snap := DrainTail();
      if x.cmd != NO_CMD {
        var stats := RecordClosed(fw.stats, x.cmd, x.rxCount);
        fw := fw.(stats := stats);
      }
      fw := fw.(txPublished := x.txSnap, txPublishedCmd := x.cmd, rxPublished := snap);
      PreloadPad();
      fw := fw.(x := FRESH);
    }

    /** ltc6811_emu_service, with the chip-select level it samples. */
    method ServiceOnce(csHigh: bool)
      requires Valid()
      modifies this, builder.crc, builder.crc.table
      ensures Valid() && Value() == Service(cells.Value(), old(Value()), csHigh)
    {
      hide CsRise, PumpDevice, Drain, AllResponses, SoundXact;
      if !fw.initDone {
        var pool := builder.RebuildAll(cells, fw.selector);
        fw := fw.(pool := pool, current := RDCVA, initDone := true);
      }
      if fw.csWasLow && csHigh {
        OnCsRise();
      }
      fw := fw.(csWasLow := !csHigh);
      if !csHigh {
        PumpTx();
      }
      DrainRx();
    }

    /** What a handler does to the cell state. */
    method ChangeCells(cmd: HostCommand)
      requires Valid()
      modifies cells.cellMv, cells.tempDc
      ensures Valid()
      ensures cells.Value() == ApplyChain(old(cells.Value()), cmd)
    {
      hide WithCell, WithTemp, Uniform;
      match cmd {
        case SetCell(ltc, cell, mV) => cells.SetCell(ltc, cell, mV);
        case SetTemp(ltc, sensor, dC) => cells.SetTemp(ltc, sensor, dC);
        case SetAllCells(mV) => cells.SetAllCells(mV);
        case SetAllTemps(dC) => cells.SetAllTemps(dC);
        case ResetState => cells.Reset();
        case _ =>
      }
    }

    /** ltc6811_emu_refresh_responses. */
    method Refresh()
      requires Valid()
      modifies this`fw, builder.crc, builder.crc.table
      ensures Valid()
      ensures fw == old(fw).(pool := AllResponses(cells.Value(), old(fw).selector))
    {
      hide AllResponses;
      var pool := builder.RebuildAll(cells, fw.selector);
      fw := fw.(pool := pool);
    }

    /** A host command handler, once its arguments have been validated. */
    method Execute(cmd: HostCommand)
      requires Valid()
      modifies this`fw, builder.crc, builder.crc.table, cells.cellMv, cells.tempDc
      ensures Valid()
      ensures cells.Value() == ApplyChain(old(cells.Value()), cmd)
      ensures fw == Apply(cells.Value(), old(fw), cmd)
    {
      hide AllResponses, ApplyChain, Flagged, Refreshes;
      ChangeCells(cmd);
      if Refreshes(cmd) {
        Refresh();
      }
      SetFlags(cmd);
    }

    method SetFlags(cmd: HostCommand)
      requires Valid()
      modifies this`fw
      ensures Valid() && fw == Flagged(old(fw), cmd)
    {
      match cmd {
        case ResetState => fw := fw.(stopMask := 0);
        case StopReply(mask) => fw := fw.(stopMask := mask & 0x1F);
        case ResumeAll => fw := fw.(stopMask := 0);
        case StatsReset => fw := fw.(stats := NO_STATS);
        case _ =>
      }
    }
  }

  lemma SnoopKeepsXact(c: Chain, f: Fw, x: Xact)
    requires WellFormed(c) && SoundPool(f.pool)
    ensures Snooped(c, f.(x := x), x) == Snooped(c, f, x).(x := x)
  {
  }

  lemma PumpNone(f: Fw)
    requires Sound(f)
    ensures Stream(f)[f.x.dataIdx..f.x.dataIdx] == [] && Pumped(f.x, []) == f.x
  {
    assert f.x.txSnap + [] == f.x.txSnap;
  }

  /** One turn of the pump loop. */
  lemma PumpOneMore(f: Fw, k: nat)
    requires Sound(f) && f.x.dataIdx <= k < DATA_LEN
    ensures var bytes, b := Stream(f)[f.x.dataIdx..k], Suppress(f.stopMask, f.pool[f.current][PAD_LEN + k], k);
      && Stream(f)[f.x.dataIdx..k + 1] == bytes + [b]
      && var x := Pumped(f.x, bytes);
         Pumped(f.x, bytes + [b]) == x.(txSnap := Capture(x.txSnap, b), dataIdx := k + 1)
  {
    hide Suppress;
    var data := Stream(f);
    var bytes, b := data[f.x.dataIdx..k], Suppress(f.stopMask, f.pool[f.current][PAD_LEN + k], k);
    assert data[k] == b;
    CaptureOneMore(f.x.txSnap, bytes, b);
  }

  lemma CaptureOneMore(snap: seq<Byte>, bytes: seq<Byte>, b: Byte)
    requires |snap| <= RESPONSE_LEN
    ensures CaptureAll(snap, bytes + [b]) == Capture(CaptureAll(snap, bytes), b)
  {
    var n := RESPONSE_LEN - |snap|;
    if |bytes| >= n {
      assert (bytes + [b])[..n] == bytes[..n];
    }
  }
}
