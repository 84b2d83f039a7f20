/**
 What a falling chip-select line promises the master, exactly when the promise is kept, and
 which behaviour of the bus makes it so. A promise can only be broken by something left over
 in the device when the line falls; and if every high gap is sampled, something is left over
 exactly when a low pulse that no pass saw has clocked a byte since the last rise was noticed.
 */
module Falls {
  import opened Wrappers
  import opened CellChain
  import opened Pec15
  import opened Responses
  import opened CmdStats
  import opened Firmware
  import opened Transactions
  import opened Serving

  // ----- The promise ----------------------------------------------------------

  /** The opcode the master has clocked out in this transaction. */
  function MasterOpcode(b: Bus): Word
    requires |b.mosi| >= 2
  {
    Opcode(b.mosi[0], b.mosi[1])
  }

  /** No opcode but this transaction's own is decoded, and once its two bytes have been drained, it is. */
  predicate OwnOpcode(b: Bus) {
    && (b.opcodes != [] ==> |b.mosi| >= 2 && b.opcodes == [MasterOpcode(b)])
    && (|b.got| >= 2 ==> b.opcodes != [])
  }

  /** No data byte is pushed before the opcode is decoded. */
  predicate OpcodeFirst(b: Bus) {
    b.pushed != [] ==> b.opcodes != []
  }

  /** A read command's data is an in-order prefix of that command's own response. */
  predicate OwnResponse(b: Bus)
    requires SoundBus(b)
  {
    |b.mosi| >= 2 && ReadSlot(MasterOpcode(b)).Some? ==>
      b.pushed <= Masked(b.chain, b.dev.fw.stopMask, b.dev.fw.selector, ReadSlot(MasterOpcode(b)).value)
  }

  /** The master sees exactly four 0xFF bytes, then the data. */
  predicate PadFirst(b: Bus) {
    b.miso + b.dev.txFifo == Pad() + b.pushed
  }

  predicate Honoured(b: Bus)
    requires SoundBus(b)
  {
    OwnOpcode(b) && OpcodeFirst(b) && OwnResponse(b) && PadFirst(b)
  }

  /** If the line falls now, the promise is kept whatever is clocked and whenever passes run. */
  ghost predicate KeepsPromise(b: Bus)
    requires SoundBus(b)
  {
    forall cs | Continues(cs) :: Honoured(Run(Fallen(b), cs))
  }

  // ----- Kept when nothing is left over ---------------------------------------

  lemma OpcodeHeard(b: Bus)
    requires SoundBus(b) && Served(b) && |b.got| >= 2
    ensures |b.mosi| >= 2 && Opcode(b.got[0], b.got[1]) == MasterOpcode(b)
  {
    hide Opcode, Tracks, FollowsBase, Streamed, Pad, OpcodesOf;
    var w := b.got + b.dev.rxFifo;
    assert FirstEight(w)[0] == b.got[0] && FirstEight(w)[1] == b.got[1];
    assert FirstEight(b.mosi)[0] == b.mosi[0] && FirstEight(b.mosi)[1] == b.mosi[1];
  }

  /** A read command moves no selector, so its data comes from one buffer. */
  lemma ReadIsSeamless(b: Bus)
    requires SoundBus(b) && Served(b) && |b.got| >= 2 && !ArmsSnoop(Opcode(b.got[0], b.got[1]))
    ensures b.dev.fw.selector == b.base.selector
    ensures b.pushed == Masked(b.chain, b.dev.fw.stopMask, b.dev.fw.selector, b.dev.fw.current)[..|b.pushed|]
  {
    hide Opcode, ArmsSnoop, CurrentAfter, IsSelectorWrite, SelectorOf, Masked, Pad, FirstEight, WindowOf, SnapOf;
    var a := Masked(b.chain, b.dev.fw.stopMask, b.dev.fw.selector, b.dev.fw.current);
    assert Sewn(a, a, SeamOf(b.base, b.got)) == a;
  }

  lemma ServedIsHonoured(b: Bus)
    requires Always(b) && Served(b)
    ensures Honoured(b)
  {
    hide Opcode, ReadSlot, ArmsSnoop, Masked, Pad, AllResponses, SelectorAfter, RecordAll, Due, FirstEight;
    if |b.got| >= 2 {
      OpcodeHeard(b);
      var op := MasterOpcode(b);
      ReadsDoNotArm(op);
      if ReadSlot(op).Some? {
        ReadIsSeamless(b);
        assert b.dev.fw.current == ReadSlot(op).value;
      }
    }
  }

  // ----- Broken otherwise -----------------------------------------------------

  lemma {:induction false} NothingMoreDecoded(c: Chain, f: Fw, bytes: seq<Byte>)
    requires WellFormed(c) && Sound(f) && f.x.parsed
    ensures DrainOpcodes(c, f, bytes) == []
    decreases |bytes|
  {
    hide AllResponses, Response, Snooped, Opcode;
    if bytes != [] {
      NothingMoreDecoded(c, RxByte(c, f, bytes[0]), bytes[1..]);
    }
  }

  /** Two undecoded bytes, wherever they come from, are decoded. */
  lemma TwoBytesDecoded(c: Chain, f: Fw, bytes: seq<Byte>)
    requires WellFormed(c) && Sound(f) && !f.x.parsed && DecodedInTime(f.x)
    requires |f.x.rxBuf| + |bytes| >= 2
    ensures DrainOpcodes(c, f, bytes) != []
  {
    hide AllResponses, Response, Snooped, Opcode, ArmsSnoop;
    if f.x.rxBuf == [] {
      var g := RxByte(c, f, bytes[0]);
      assert g.x.rxBuf == [bytes[0]] && !g.x.parsed;
      assert DecodesAt(Noted(g.x, bytes[1..][0]), g.x.rxBuf + [bytes[1..][0]]);
    }
  }

  /** A continuation that breaks the promise. */
  function Breaker(d: Device): seq<Event> {
    if d.txFifo != Pad() then []
    else if d.fw.x.parsed then [Clock(0), Clock(0), Event.Service]
    else [Clock(0), Event.Service]
  }

  /** A pass that sees the line low drains the receive FIFO from where the decoder stands. */
  lemma LowPassDrains(b: Bus)
    requires Always(b) && !b.high
    ensures var e := BeforeDrain(b.chain, b.dev, false);
      && e.rxFifo == b.dev.rxFifo && e.fw.x.parsed == b.dev.fw.x.parsed
      && (!b.dev.fw.x.parsed ==> e.fw.x == b.dev.fw.x)
  {
    hide AllResponses, Stream, RecordAll, DecodedInTime;
  }

  lemma ParsedStaysDeaf(b: Bus)
    requires Always(b) && !b.high && b.dev.fw.x.parsed && b.opcodes == [] && |b.dev.rxFifo| >= 2
    ensures !OwnOpcode(Serviced(b))
  {
    hide AllResponses, RecordAll, DecodedInTime, Drain, BeforeDrain, ServicePushes, Opcode;
    LowPassDrains(b);
    var e := BeforeDrain(b.chain, b.dev, false);
    NothingMoreDecoded(b.chain, e.fw, e.rxFifo);
    assert |(b.got + e.rxFifo)| >= 2;
  }

  lemma StaleByteDecoded(b: Bus)
    requires Always(b) && !b.high && !b.dev.fw.x.parsed && |b.mosi| == 1
    requires |b.dev.fw.x.rxBuf| + |b.dev.rxFifo| >= 2
    ensures !OwnOpcode(Serviced(b))
  {
    hide AllResponses, RecordAll, Drain, BeforeDrain, ServicePushes, Opcode;
    LowPassDrains(b);
    var e := BeforeDrain(b.chain, b.dev, false);
    TwoBytesDecoded(b.chain, e.fw, e.rxFifo);
    assert |b.opcodes + ServiceOpcodes(b)| > 0;
  }

  lemma ShortPadBreaks(b: Bus)
    requires SoundBus(b) && b.dev.txFifo != Pad()
    ensures !Honoured(Run(Fallen(b), []))
  {
    var f := Fallen(b);
    NoConcat(b.dev.txFifo, Pad());
    hide Pad, Opcode, Masked;
    assert Run(f, []) == f && !PadFirst(f);
  }

  lemma NoConcat(a: seq<Byte>, b: seq<Byte>)
    ensures [] + a == a && b + [] == b
  {
  }

  lemma StaleDecodeBreaks(b: Bus)
    requires Always(b) && b.dev.fw.x.parsed
    ensures !Honoured(Run(Fallen(b), [Clock(0), Clock(0), Event.Service]))
  {
    hide Always, Clocked, Serviced, Run, Fallen, OwnOpcode, OwnResponse, OpcodeFirst, PadFirst, SoundBus;
    FallAlways(b);
    var f := Fallen(b);
    var c := Clocked(Clocked(f, 0), 0);
    TwoZerosClocked(b);
    StepAlways(f, Clock(0));
    StepAlways(Clocked(f, 0), Clock(0));
    RunNone(f);
    RunStep(f, [], Clock(0));
    RunStep(f, [Clock(0)], Clock(0));
    RunStep(f, [Clock(0), Clock(0)], Event.Service);
    assert [] + [Clock(0)] == [Clock(0)] && [Clock(0)] + [Clock(0)] == [Clock(0), Clock(0)];
    assert [Clock(0), Clock(0)] + [Event.Service] == [Clock(0), Clock(0), Event.Service];
    ParsedStaysDeaf(c);
  }

  lemma TwoZerosClocked(b: Bus)
    requires Always(b)
    ensures var c := Clocked(Clocked(Fallen(b), 0), 0);
      c.dev.fw == b.dev.fw && c.opcodes == [] && |c.dev.rxFifo| >= 2 && !c.high
  {
    hide AllResponses, RecordAll, DecodedInTime;
  }

  lemma StaleByteBreaks(b: Bus)
    requires Always(b) && !b.dev.fw.x.parsed && |b.dev.fw.x.rxBuf| + |b.dev.rxFifo| >= 1
    ensures !Honoured(Run(Fallen(b), [Clock(0), Event.Service]))
  {
    hide RecordAll, AllResponses, Serviced, Opcode, Pad, DecodedInTime, Masked;
    var f := Fallen(b);
    FallAlways(b);
    var c1 := Clocked(f, 0);
    StepAlways(f, Clock(0));
    assert Run(f, []) == f;
    RunStep(f, [], Clock(0));
    RunStep(f, [Clock(0)], Event.Service);
    assert [Clock(0)] + [Event.Service] == [Clock(0), Event.Service];
    StaleByteDecoded(c1);
  }

  lemma BreakerBreaks(b: Bus)
    requires Always(b) && !NothingLeft(b.dev)
    ensures Continues(Breaker(b.dev)) && !Honoured(Run(Fallen(b), Breaker(b.dev)))
  {
    assert SoundBus(b);
    hide Always, Honoured, Pad, Run;
    if b.dev.txFifo != Pad() {
      ShortPadBreaks(b);
    } else if b.dev.fw.x.parsed {
      StaleDecodeBreaks(b);
    } else {
      StaleByteBreaks(b);
    }
  }

  lemma PromiseKeptAt(b: Bus)
    requires Always(b)
    ensures KeepsPromise(b) <==> NothingLeft(b.dev)
  {
    assert SoundBus(Fallen(b));
    hide Always, Honoured, NothingLeft, Breaker;
    if NothingLeft(b.dev) {
      forall cs | Continues(cs) ensures Honoured(Run(Fallen(b), cs)) {
        ServedOn(b, cs);
        ServedIsHonoured(Run(Fallen(b), cs));
      }
    } else {
      BreakerBreaks(b);
    }
  }

  /** After every run whatever: if the line falls now, the promise is kept over every continuation if
      and only if nothing is left over. */
  lemma PromiseKeptIff(es: seq<Event>)
    ensures KeepsPromise(Run(POWER_UP, es)) <==> NothingLeft(Run(POWER_UP, es).dev)
  {
    hide Run, POWER_UP, KeepsPromise, NothingLeft, Always, SoundBus;
    PowerUpSound();
    EveryRun(es);
    PromiseKeptAt(Run(POWER_UP, es));
  }

  // ----- The bus --------------------------------------------------------------

  /** Whether the last service pass saw the line low. */
  predicate SawLow(es: seq<Event>)
    decreases |es|
  {
    es != [] &&
    var n := |es| - 1;
    if es[n].Service? then !Run(POWER_UP, es[..n]).high else SawLow(es[..n])
  }

  /** A low pulse that no pass saw has clocked a byte since a pass last noticed a rise. */
  predicate Stray(es: seq<Event>)
    decreases |es|
  {
    es != [] &&
    var n := |es| - 1; var b := Run(POWER_UP, es[..n]);
    match es[n]
    case Rise => (!b.sampled && b.mosi != []) || Stray(es[..n])
    case Service => !(b.high && SawLow(es[..n])) && Stray(es[..n])
    case _ => Stray(es[..n])
  }

  /** Every high gap is seen by a pass. */
  predicate GapsSampled(es: seq<Event>)
    decreases |es|
  {
    es == [] ||
    var n := |es| - 1; var b := Run(POWER_UP, es[..n]);
    GapsSampled(es[..n]) && Possible(b, es[n]) && (es[n].Fall? ==> b.sampled)
  }

  /** Every low pulse is seen by a pass too. */
  predicate PulsesSampled(es: seq<Event>)
    decreases |es|
  {
    es == [] ||
    var n := |es| - 1;
    PulsesSampled(es[..n]) && (es[n].Rise? ==> Run(POWER_UP, es[..n]).sampled)
  }

  lemma {:induction false} SawLowIsFlag(es: seq<Event>)
    ensures Run(POWER_UP, es).dev.fw.csWasLow == SawLow(es)
    decreases |es|
  {
    if es != [] {
      var n := |es| - 1;
      SawLowIsFlag(es[..n]);
      EveryRun(es[..n]);
      StepKeepsFlag(Run(POWER_UP, es[..n]), es[n]);
    }
  }

  lemma StepKeepsFlag(b: Bus, e: Event)
    requires Always(b)
    ensures Step(b, e).dev.fw.csWasLow == if e.Service? then !b.high else b.dev.fw.csWasLow
  {
    hide AllResponses, RecordAll, DecodedInTime, Drain, ApplyChain, Stream, Record, CaptureAll;
    if e.Service? {
      BeforeDrainAlways(b);
      var d := BeforeDrain(b.chain, b.dev, b.high);
      DrainAlways(b.chain, d.fw, d.rxFifo);
    }
  }

  /** Either nothing is left over, or the pad is no longer whole. */
  predicate Quiet(d: Device, stray: bool) {
    if stray then |d.txFifo| < PAD_LEN else NothingLeft(d)
  }

  predicate GapState(b: Bus, stray: bool) {
    var low := b.dev.fw.csWasLow;
    if b.high then (b.sampled ==> !low) && (!low ==> Quiet(b.dev, stray))
    else if b.sampled then low
    else !low && Quiet(b.dev, stray || b.mosi != [])
  }

  /** A pass that notices a rise clears everything; one that sees no rise leaves a quiet device alone. */
  lemma HighPass(b: Bus, stray: bool)
    requires Always(b) && b.high && (!b.dev.fw.csWasLow ==> Quiet(b.dev, stray))
    ensures var r := Serviced(b);
      !r.dev.fw.csWasLow && Quiet(r.dev, !b.dev.fw.csWasLow && stray)
  {
    hide AllResponses, RecordAll, Drain, Record, CaptureAll, Pad;
    StepKeepsFlag(b, Event.Service);
    var e := BeforeDrain(b.chain, b.dev, true);
    if b.dev.fw.csWasLow || !stray {
      assert NothingLeft(e);
      assert Drain(b.chain, e.fw, []) == e.fw by { NothingDrained(b.chain, e.fw); }
    }
  }

  lemma NothingDrained(c: Chain, f: Fw)
    requires WellFormed(c) && Sound(f)
    ensures Drain(c, f, []) == f
  {
  }

  lemma GapStep(b: Bus, stray: bool, e: Event)
    requires Always(b) && GapState(b, stray) && Possible(b, e) && (e.Fall? ==> b.sampled)
    ensures GapState(Step(b, e),
      match e
      case Rise => (!b.sampled && b.mosi != []) || stray
      case Service => !(b.high && b.dev.fw.csWasLow) && stray
      case _ => stray)
  {
    assert SoundBus(b);
    hide Always, Serviced, Pad, ApplyChain, AllResponses;
    match e {
      case Service =>
        StepKeepsFlag(b, e);
        if b.high {
          HighPass(b, stray);
          assert Serviced(b).high && Serviced(b).sampled by { PassSamples(b); }
        } else {
          assert !Serviced(b).high && Serviced(b).sampled by { PassSamples(b); }
        }
      case Host(cmd) => StepKeepsFlag(b, e);
      case _ =>
    }
  }

  lemma PassSamples(b: Bus)
    requires SoundBus(b)
    ensures Serviced(b).high == b.high && Serviced(b).sampled
  {
  }

  lemma {:induction false} GapRun(es: seq<Event>)
    requires GapsSampled(es)
    ensures GapState(Run(POWER_UP, es), Stray(es))
    decreases |es|
  {
    hide GapState, Step, Possible;
    if es == [] {
      assert GapState(POWER_UP, false) by { PowerUpQuiet(); }
    } else {
      var n := |es| - 1;
      GapRun(es[..n]);
      EveryRun(es[..n]);
      SawLowIsFlag(es[..n]);
      GapStep(Run(POWER_UP, es[..n]), Stray(es[..n]), es[n]);
    }
  }

  lemma PowerUpQuiet()
    ensures GapState(POWER_UP, false)
  {
    hide AllResponses;
  }

  /** If every high gap is sampled, the next transaction's promise is kept if and only if no low
      pulse has slipped by with a byte since the last rise was noticed. */
  lemma PromiseKeptUnlessStray(es: seq<Event>)
    requires GapsSampled(es) && Run(POWER_UP, es).high && Run(POWER_UP, es).sampled
    ensures NothingLeft(Run(POWER_UP, es).dev) <==> !Stray(es)
    ensures KeepsPromise(Run(POWER_UP, es)) <==> !Stray(es)
  {
    GapRun(es);
    EveryRun(es);
    PromiseKeptIff(es);
    hide Run, Always, KeepsPromise;
  }

  /** If every level of the line is sampled, no pulse slips by and every promise is kept. */
  lemma {:induction false} NeverStray(es: seq<Event>)
    requires PulsesSampled(es)
    ensures !Stray(es)
    decreases |es|
  {
    if es != [] {
      NeverStray(es[..|es| - 1]);
    }
  }

  lemma SampledRun(es: seq<Event>)
    requires GapsSampled(es) && PulsesSampled(es) && Run(POWER_UP, es).high && Run(POWER_UP, es).sampled
    ensures KeepsPromise(Run(POWER_UP, es))
  {
    NeverStray(es);
    PromiseKeptUnlessStray(es);
  }
}
