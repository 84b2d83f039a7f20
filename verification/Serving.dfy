/**
 One transaction, from the fall of chip select on: what the decoder, the selector and the
 two FIFOs hold as a function of the bytes clocked and drained, and the data that is due.
 */
module Serving {
  import opened Wrappers
  import opened CellChain
  import opened Pec15
  import opened Responses
  import opened CmdStats
  import opened Firmware
  import opened Transactions

  function FirstEight(s: seq<Byte>): seq<Byte> {
    if |s| <= FIFO_DEPTH then s else s[..FIFO_DEPTH]
  }

  /** The selector after the drained bytes: a selector write in an arming command moves it. */
  function SelectorAfter(sel: Channel, got: seq<Byte>): Channel {
    if |got| >= 6 && ArmsSnoop(Opcode(got[0], got[1])) && IsSelectorWrite(got[4]) then SelectorOf(got[4], got[5])
    else sel
  }

  function Low16(n: nat): U16 {
    n % 0x1_0000
  }

  /** The incomplete group of four at the end. */
  function WindowOf(got: seq<Byte>): seq<Byte> {
    got[|got| - |got| % 4..]
  }

  function SnapOf(got: seq<Byte>): seq<Byte> {
    if |got| <= RESPONSE_LEN then got else got[..RESPONSE_LEN]
  }

  /** The decoder's state is a function of the bytes drained in this transaction. */
  predicate Tracks(x: Xact, got: seq<Byte>) {
    && x.rxSnap == SnapOf(got)
    && x.rxCount == Low16(|got|)
    && x.rxBuf == WindowOf(got)
    && x.parsed == (|got| >= 2)
    && x.cmd == (if |got| >= 2 then Opcode(got[0], got[1]) else NO_CMD)
    && x.armed == (|got| >= 2 && ArmsSnoop(Opcode(got[0], got[1])))
  }

  predicate FollowsBase(f: Fw, base: Base, got: seq<Byte>) {
    && f.selector == SelectorAfter(base.selector, got)
    && f.current == (if |got| >= 2 then CurrentAfter(base.current, Opcode(got[0], got[1])) else base.current)
  }

  lemma WindowGrows(got: seq<Byte>, b: Byte)
    ensures var n, window, next := |got|, WindowOf(got) + [b], got + [b];
      && |window| == n % 4 + 1
      && WindowOf(next) == (if |window| < 4 then window else [])
      && (n < 4 ==> window == next)
  {
    var n, next := |got|, got + [b];
    QuarterStep(n);
    var k := n - n % 4;
    assert got[k..] + [b] == next[k..];
    if n % 4 == 3 {
      assert next[n + 1..] == [];
    }
  }

  lemma QuarterStep(n: nat)
    ensures n % 4 == 3 ==> (n + 1) % 4 == 0
    ensures n % 4 != 3 ==> (n + 1) % 4 == n % 4 + 1
    ensures n < 4 ==> n % 4 == n
  {
  }

  lemma SnapGrows(got: seq<Byte>, b: Byte)
    ensures Capture(SnapOf(got), b) == SnapOf(got + [b])
  {
    if |got| >= RESPONSE_LEN {
      assert (got + [b])[..RESPONSE_LEN] == got[..RESPONSE_LEN];
    }
  }

  lemma CountGrows(n: nat)
    ensures CountedUp(Low16(n)) == Low16(n + 1)
  {
  }

  lemma TracksNext(x: Xact, got: seq<Byte>, b: Byte)
    requires Tracks(x, got)
    ensures Tracks(Windowed(Noted(x, b), x.rxBuf + [b]), got + [b])
    ensures DecodesAt(Noted(x, b), x.rxBuf + [b]) <==> |got| == 1
  {
    WindowGrows(got, b);
    OpcodeNext(x, got, b);
    SnapGrows(got, b);
    CountGrows(|got|);
    hide Opcode, ArmsSnoop, Capture, CountedUp, Low16, DecodesAt, WindowOf, SnapOf, WindowOpcode;
  }

  /** The second byte decodes the opcode, and no later byte does. */
  lemma OpcodeNext(x: Xact, got: seq<Byte>, b: Byte)
    requires Tracks(x, got)
    ensures DecodesAt(Noted(x, b), x.rxBuf + [b]) <==> |got| == 1
    ensures var y, next := Windowed(Noted(x, b), x.rxBuf + [b]), got + [b];
      && y.parsed == (|next| >= 2)
      && y.cmd == (if |next| >= 2 then Opcode(next[0], next[1]) else NO_CMD)
      && y.armed == (|next| >= 2 && ArmsSnoop(Opcode(next[0], next[1])))
  {
    hide Opcode, ArmsSnoop, Capture, CountedUp, Low16, WindowOf, SnapOf;
    WindowGrows(got, b);
    QuarterStep(|got|);
    if |got| == 1 {
      assert x.rxBuf + [b] == got + [b];
    }
  }

  /** The opcodes decoded from the bytes of one transaction. */
  function OpcodesOf(got: seq<Byte>): seq<Word> {
    if |got| >= 2 then [Opcode(got[0], got[1])] else []
  }

  lemma OpcodesNext(x: Xact, got: seq<Byte>, b: Byte)
    requires Tracks(x, got)
    ensures var window := x.rxBuf + [b];
      OpcodesOf(got) + (if DecodesAt(Noted(x, b), window) then [WindowOpcode(window)] else []) == OpcodesOf(got + [b])
  {
    OpcodeNext(x, got, b);
    WindowGrows(got, b);
    hide Opcode, Tracks, DecodesAt, WindowOf;
    assert x.rxBuf == WindowOf(got) by { WindowTracked(x, got); }
    var next := got + [b];
    assert |got| >= 2 ==> next[0] == got[0] && next[1] == got[1];
  }

  lemma WindowTracked(x: Xact, got: seq<Byte>)
    requires Tracks(x, got)
    ensures x.rxBuf == WindowOf(got)
  {
  }

  lemma SelectorNext(c: Chain, f: Fw, sel: Channel, got: seq<Byte>, b: Byte)
    requires WellFormed(c) && SoundPool(f.pool) && Tracks(f.x, got) && f.selector == SelectorAfter(sel, got)
    ensures Snooped(c, f, Noted(f.x, b)).selector == SelectorAfter(sel, got + [b])
  {
    hide Opcode, ArmsSnoop, Response, IsSelectorWrite, SelectorOf;
    var x, next := Noted(f.x, b), got + [b];
    assert |got| >= 2 ==> next[0] == got[0] && next[1] == got[1];
    if |got| == 5 {
      assert x.rxSnap == next;
    } else {
      assert |x.rxSnap| != 6;
      if |got| >= 6 {
        assert next[4] == got[4] && next[5] == got[5];
      }
    }
  }

  lemma SnoopedKeeps(c: Chain, f: Fw, x: Xact)
    requires WellFormed(c) && SoundPool(f.pool)
    ensures var g := Snooped(c, f, x);
      g.stopMask == f.stopMask && g.initDone == f.initDone && g.current == f.current
  {
    hide SelectorMoves, Response;
  }

  lemma FollowsNext(c: Chain, f: Fw, base: Base, got: seq<Byte>, b: Byte)
    requires WellFormed(c) && Sound(f) && Tracks(f.x, got) && FollowsBase(f, base, got)
    ensures FollowsBase(RxByte(c, f, b), base, got + [b])
    ensures var g := RxByte(c, f, b);
      && g.stopMask == f.stopMask && g.initDone == f.initDone
      && g.x.txSnap == f.x.txSnap && g.x.dataIdx == f.x.dataIdx
  {
    SelectorNext(c, f, base.selector, got, b);
    SnoopedKeeps(c, f, Noted(f.x, b));
    TracksNext(f.x, got, b);
    WindowGrows(got, b);
    hide Opcode, CurrentAfter, Snooped, SelectorAfter, ArmsSnoop;
    var next := got + [b];
    assert |got| >= 2 ==> next[0] == got[0] && next[1] == got[1];
  }

  /** The drain loop as a whole, in terms of the bytes it consumed. */
  lemma {:induction false} DrainTracks(c: Chain, f: Fw, base: Base, got: seq<Byte>, bytes: seq<Byte>)
    requires WellFormed(c) && Sound(f) && Tracks(f.x, got) && FollowsBase(f, base, got)
    ensures var g := Drain(c, f, bytes);
      && Tracks(g.x, got + bytes) && FollowsBase(g, base, got + bytes)
      && g.stopMask == f.stopMask && g.initDone == f.initDone
      && g.x.txSnap == f.x.txSnap && g.x.dataIdx == f.x.dataIdx
    ensures OpcodesOf(got) + DrainOpcodes(c, f, bytes) == OpcodesOf(got + bytes)
    decreases |bytes|
  {
    hide RxByte, Tracks, FollowsBase, DecodesAt, OpcodesOf;
    if bytes == [] {
      assert got + bytes == got;
    } else {
      var b, rest := bytes[0], bytes[1..];
      OpcodesNext(f.x, got, b);
      FollowsNext(c, f, base, got, b);
      TracksNext(f.x, got, b);
      assert Tracks(RxByte(c, f, b).x, got + [b]) by { RxByteWindows(c, f, b); }
      DrainTracks(c, RxByte(c, f, b), base, got + [b], rest);
      assert (got + [b]) + rest == got + bytes;
    }
  }

  lemma RxByteWindows(c: Chain, f: Fw, b: Byte)
    requires WellFormed(c) && Sound(f)
    ensures RxByte(c, f, b).x == Windowed(Noted(f.x, b), f.x.rxBuf + [b])
  {
    hide Snooped, Windowed;
  }

  // ----- The data due ---------------------------------------------------------

  /** A response's data section as the stop mask lets it through. */
  function Masked(c: Chain, mask: Byte, sel: Channel, slot: nat): (data: seq<Byte>)
    requires WellFormed(c) && slot < SLOTS
    ensures |data| == DATA_LEN
  {
    Suppressed(mask, Data(c, sel, slot))
  }

  /** The beginning of one and the rest of the other. */
  function Sewn(a: seq<Byte>, b: seq<Byte>, seam: nat): (s: seq<Byte>)
    requires |a| == |b| && seam <= |a|
    ensures |s| == |a|
  {
    a[..seam] + b[seam..]
  }

  /** Where the buffer changes under the pump: not before the sixth byte is drained. */
  function SeamOf(base: Base, got: seq<Byte>): nat {
    if |got| >= 6 then base.seam else DATA_LEN
  }

  /** The data of this transaction: its buffer as it was, and past the seam as it is now. */
  function Due(c: Chain, f: Fw, base: Base, got: seq<Byte>): (data: seq<Byte>)
    requires WellFormed(c) && Sound(f) && SeamOf(base, got) <= DATA_LEN
    ensures |data| == DATA_LEN
  {
    Sewn(Masked(c, f.stopMask, base.selector, f.current), Masked(c, f.stopMask, f.selector, f.current), SeamOf(base, got))
  }

  /** What has been pushed is a prefix of the data due. */
  predicate Streamed(c: Chain, f: Fw, base: Base, got: seq<Byte>, pushed: seq<Byte>)
    requires WellFormed(c) && Sound(f)
  {
    && f.x.txSnap == pushed
    && f.x.dataIdx == |pushed|
    && base.seam <= |pushed|
    && (!f.x.parsed ==> pushed == [])
    && (f.x.parsed ==> pushed == Due(c, f, base, got)[..|pushed|])
  }

  lemma StreamIsMasked(c: Chain, f: Fw)
    requires WellFormed(c) && Sound(f) && CacheAgrees(c, f)
    ensures Stream(f) == Masked(c, f.stopMask, f.selector, f.current)
  {
    hide Data, Pad, Suppress;
    var r := Response(c, f.selector, f.current);
    assert r[PAD_LEN..] == Data(c, f.selector, f.current);
  }

  lemma SewnGrows(a: seq<Byte>, b: seq<Byte>, seam: nat, n: nat, m: nat)
    requires |a| == |b| && seam <= |a| && n + m <= |a| && (seam <= n || a == b)
    ensures Sewn(a, b, seam)[..n + m] == Sewn(a, b, seam)[..n] + b[n..n + m]
  {
    var s := Sewn(a, b, seam);
    assert s[n..n + m] == b[n..n + m];
    assert s[..n + m] == s[..n] + s[n..n + m];
  }

  lemma PumpStreams(c: Chain, f: Fw, base: Base, got: seq<Byte>, pushed: seq<Byte>, queued: nat)
    requires WellFormed(c) && Sound(f) && queued <= FIFO_DEPTH && CacheAgrees(c, f)
    requires FollowsBase(f, base, got) && Streamed(c, f, base, got, pushed)
    ensures var bytes := PumpBytes(f, queued);
      Streamed(c, f.(x := Pumped(f.x, bytes)), base, got, pushed + bytes)
  {
    hide Masked, Sewn, Stream, AllResponses, Opcode, ArmsSnoop, CurrentAfter, IsSelectorWrite, SelectorOf;
    var bytes := PumpBytes(f, queued);
    if f.x.parsed {
      StreamIsMasked(c, f);
      var a, b := Masked(c, f.stopMask, base.selector, f.current), Masked(c, f.stopMask, f.selector, f.current);
      SewnGrows(a, b, SeamOf(base, got), |pushed|, |bytes|);
    } else {
      assert bytes == [] && pushed + bytes == pushed;
    }
  }

  /** Draining keeps what was pushed; the sixth byte puts the seam where the pump stands. */
  lemma DrainStreams(c: Chain, f: Fw, base: Base, got: seq<Byte>, bytes: seq<Byte>, pushed: seq<Byte>)
    requires WellFormed(c) && Sound(f)
    requires Tracks(f.x, got) && FollowsBase(f, base, got) && Streamed(c, f, base, got, pushed)
    ensures var seam := SeamAfter(base.seam, |got|, |got + bytes|, |pushed|);
      Streamed(c, Drain(c, f, bytes), base.(seam := seam), got + bytes, pushed)
  {
    hide Drain, Masked, Opcode, ArmsSnoop, CurrentAfter, IsSelectorWrite, SelectorOf, SnapOf, WindowOf, Low16;
    var g, all := Drain(c, f, bytes), got + bytes;
    DrainTracks(c, f, base, got, bytes);
    if |got| >= 2 {
      assert all[0] == got[0] && all[1] == got[1];
      assert g.current == f.current && g.x.parsed;
      var a := Masked(c, f.stopMask, base.selector, f.current);
      if |got| >= 6 {
        assert all[4] == got[4] && all[5] == got[5];
        assert g.selector == f.selector;
      } else {
        assert f.selector == base.selector;
        assert Sewn(a, a, DATA_LEN) == a;
        if |all| < 6 {
          assert g.selector == base.selector;
        }
      }
    }
  }

  // ----- The account of a transaction -----------------------------------------

  /** Nothing of an earlier transaction is left over. */
  predicate NothingLeft(d: Device) {
    !d.fw.x.parsed && d.fw.x.rxBuf == [] && d.txFifo == Pad() && d.rxFifo == []
  }

  predicate Served(b: Bus)
    requires SoundBus(b)
  {
    var f := b.dev.fw;
    && Tracks(f.x, b.got)
    && FollowsBase(f, b.base, b.got)
    && Streamed(b.chain, f, b.base, b.got, b.pushed)
    && FirstEight(b.got + b.dev.rxFifo) == FirstEight(b.mosi)
    && b.miso + b.dev.txFifo == Pad() + b.pushed
    && b.opcodes == OpcodesOf(b.got)
    && (!f.initDone ==> b.got == [] && b.base.current == RDCVA)
  }

  lemma FallServed(b: Bus)
    requires Always(b) && NothingLeft(b.dev)
    ensures Served(Fallen(b))
  {
    hide AllResponses, RecordAll, Masked, Pad, FirstEight, Tracks;
    assert b.dev.fw.x == FRESH;
    FreshTracks();
    NothingYet(Pad());
  }

  lemma FreshTracks()
    ensures Tracks(FRESH, [])
  {
  }

  lemma FreshFollows(f: Fw)
    ensures FollowsBase(f, Base(f.selector, f.current, 0), [])
  {
  }

  lemma NothingYet(pad: seq<Byte>)
    ensures [] + pad == pad + []
    ensures FirstEight([] + []) == FirstEight([])
  {
  }

  lemma ClockKeepsFirstEight(got: seq<Byte>, fifo: seq<Byte>, mosi: seq<Byte>, b: Byte)
    requires FirstEight(got + fifo) == FirstEight(mosi)
    ensures FirstEight(got + (if |fifo| < FIFO_DEPTH then fifo + [b] else fifo)) == FirstEight(mosi + [b])
  {
    var w := got + fifo;
    if |fifo| < FIFO_DEPTH {
      assert got + (fifo + [b]) == w + [b];
      if |w| < FIFO_DEPTH {
        assert w == mosi;
      } else {
        assert (w + [b])[..FIFO_DEPTH] == w[..FIFO_DEPTH];
        assert (mosi + [b])[..FIFO_DEPTH] == mosi[..FIFO_DEPTH];
      }
    } else {
      assert (mosi + [b])[..FIFO_DEPTH] == mosi[..FIFO_DEPTH];
    }
  }

  lemma ClockKeepsOrder(miso: seq<Byte>, fifo: seq<Byte>)
    requires fifo != []
    ensures (miso + [fifo[0]]) + fifo[1..] == miso + fifo
  {
  }

  lemma ClockServed(b: Bus, byte: Byte)
    requires SoundBus(b) && Served(b)
    ensures Served(Clocked(b, byte))
  {
    ClockKeepsFirstEight(b.got, b.dev.rxFifo, b.mosi, byte);
    if b.dev.txFifo != [] {
      ClockKeepsOrder(b.miso, b.dev.txFifo);
    }
    hide Tracks, FollowsBase, Streamed, FirstEight, Pad;
  }

  /** Before the drain of a pass that sees the line low, the pump has streamed. */
  lemma PumpServed(b: Bus)
    requires Always(b) && Served(b) && !b.high
    ensures var e := BeforeDrain(b.chain, b.dev, false); var pushed := b.pushed + ServicePushes(b);
      && e.rxFifo == b.dev.rxFifo && e.fw.initDone
      && Tracks(e.fw.x, b.got) && FollowsBase(e.fw, b.base, b.got)
      && Streamed(b.chain, e.fw, b.base, b.got, pushed)
      && b.miso + e.txFifo == Pad() + pushed
  {
    hide AllResponses, Masked, Opcode, ArmsSnoop, CurrentAfter, SelectorAfter, CaptureAll, Pad, RecordAll, Due, DecodedInTime;
    var f := b.dev.fw;
    var e0 := EdgeSeen(b.dev.(fw := Init(b.chain, f)), false);
    assert e0.fw == f.(initDone := true, csWasLow := true);
    StreamedUnmoved(b.chain, f, b.base, b.got, b.pushed);
    hide Streamed, Tracks;
    PumpStreams(b.chain, e0.fw, b.base, b.got, b.pushed, |e0.txFifo|);
    Append(b.miso, b.dev.txFifo, Pad(), b.pushed, ServicePushes(b));
    assert Tracks(Pumped(e0.fw.x, ServicePushes(b)), b.got) by { PumpTracks(e0.fw.x, b.got, ServicePushes(b)); }
  }

  lemma Append(a: seq<Byte>, b: seq<Byte>, c: seq<Byte>, d: seq<Byte>, more: seq<Byte>)
    requires a + b == c + d
    ensures a + (b + more) == c + (d + more)
  {
    assert a + (b + more) == (a + b) + more;
    assert c + (d + more) == (c + d) + more;
  }

  lemma PumpTracks(x: Xact, got: seq<Byte>, bytes: seq<Byte>)
    requires SoundXact(x) && x.dataIdx + |bytes| <= DATA_LEN && Tracks(x, got)
    ensures Tracks(Pumped(x, bytes), got)
  {
    hide Opcode, ArmsSnoop, WindowOf, SnapOf, Low16, CaptureAll;
  }

  lemma StreamedUnmoved(c: Chain, f: Fw, base: Base, got: seq<Byte>, pushed: seq<Byte>)
    requires WellFormed(c) && Sound(f) && Streamed(c, f, base, got, pushed)
    ensures Streamed(c, f.(initDone := true, csWasLow := true), base, got, pushed)
  {
    hide Masked;
  }

  lemma ServiceServed(b: Bus)
    requires Always(b) && Served(b) && !b.high
    ensures Served(Serviced(b))
  {
    PumpServed(b);
    var e, pushed := BeforeDrain(b.chain, b.dev, false), b.pushed + ServicePushes(b);
    DrainTracks(b.chain, e.fw, b.base, b.got, e.rxFifo);
    DrainStreams(b.chain, e.fw, b.base, b.got, e.rxFifo, pushed);
    hide Always, Drain, BeforeDrain, Tracks, Streamed, ServicePushes, FirstEight, Pad, DrainOpcodes, SelectorAfter, CurrentAfter, OpcodesOf;
    AllDrained(b.got + e.rxFifo);
  }

  lemma AllDrained(got: seq<Byte>)
    ensures got + [] == got
  {
  }

  // ----- Every continuation ---------------------------------------------------

  /** What can happen while the line is low. */
  predicate Continues(cs: seq<Event>) {
    forall i | 0 <= i < |cs| :: cs[i].Clock? || cs[i].Service?
  }

  /** The transaction that starts when the line falls after a run `es`, and goes on with `cs`. */
  function Transaction(es: seq<Event>, cs: seq<Event>): (b: Bus)
    ensures SoundBus(b)
  {
    Run(Fallen(Run(POWER_UP, es)), cs)
  }

  /** Whatever is clocked and whenever a pass runs, the account is kept. */
  lemma {:induction false} ServedOn(b: Bus, cs: seq<Event>)
    requires Always(b) && NothingLeft(b.dev) && Continues(cs)
    ensures var t := Run(Fallen(b), cs); Always(t) && Served(t) && !t.high
    decreases |cs|
  {
    hide Always, Served, NothingLeft, Step, Run, Fallen, SoundBus;
    FallAlways(b);
    if cs == [] {
      FallServed(b);
      RunNone(Fallen(b));
    } else {
      var n := |cs| - 1;
      ServedOn(b, cs[..n]);
      assert cs[..n] + [cs[n]] == cs;
      RunStep(Fallen(b), cs[..n], cs[n]);
      StepAlways(Run(Fallen(b), cs[..n]), cs[n]);
      StepServed(Run(Fallen(b), cs[..n]), cs[n]);
    }
  }

  lemma FallAlways(b: Bus)
    requires Always(b)
    ensures Always(Fallen(b)) && SoundBus(Fallen(b)) && !Fallen(b).high
  {
  }

  lemma StepServed(t: Bus, e: Event)
    requires Always(t) && Served(t) && !t.high && (e.Clock? || e.Service?)
    ensures Served(Step(t, e)) && !Step(t, e).high
  {
    assert SoundBus(t);
    hide Always, Served;
    if e.Clock? {
      ClockServed(t, e.b);
    } else {
      ServiceServed(t);
    }
  }

  lemma TransactionServed(es: seq<Event>, cs: seq<Event>)
    requires NothingLeft(Run(POWER_UP, es).dev) && Continues(cs)
    ensures var t := Transaction(es, cs); Always(t) && Served(t) && !t.high
  {
    EveryRun(es);
    ServedOn(Run(POWER_UP, es), cs);
  }
}
