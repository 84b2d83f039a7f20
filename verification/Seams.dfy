/**
 Chunks that begin in one buffer and end in another. The selector snoop rebuilds RDAUXA under
 the pump's feet, so one chunk of a transaction may be half old and half new; this says exactly
 when such a chunk still passes the master's PEC check.
 */
module Seams {
  import opened CellChain
  import opened Encoding
  import opened Pec15
  import opened Responses
  import opened Firmware
  import opened Serving

  /** The two agree up to the seam, or from it on, so the seam does not show. */
  predicate Seamless(a: seq<Byte>, b: seq<Byte>, seam: nat)
    requires |a| == |b| && seam <= |a|
  {
    a[..seam] == b[..seam] || a[seam..] == b[seam..]
  }

  lemma SeamlessIsWhole(a: seq<Byte>, b: seq<Byte>, seam: nat)
    requires |a| == |b| && seam <= |a|
    ensures Seamless(a, b, seam) <==> Sewn(a, b, seam) == b || Sewn(a, b, seam) == a
  {
    var s := Sewn(a, b, seam);
    assert s[..seam] == a[..seam] && s[seam..] == b[seam..];
    assert a == a[..seam] + a[seam..] && b == b[..seam] + b[seam..];
  }

  /** Two frames whose messages differ in their first two bytes only. */
  lemma SewnFrames(p: seq<Byte>, q: seq<Byte>, seam: nat)
    requires |p| == |q| == 6 && p[2..] == q[2..] && seam <= 8
    ensures Accepts(Sewn(Framed(p), Framed(q), seam)) <==> Seamless(Framed(p), Framed(q), seam)
  {
    hide Accepts, Trailer;
    var a, b := Framed(p), Framed(q);
    FramedAccepted(p);
    FramedAccepted(q);
    SeamlessIsWhole(a, b, seam);
    if !Seamless(a, b, seam) {
      SeamShows(p, q, seam);
    }
  }

  lemma SeamShows(p: seq<Byte>, q: seq<Byte>, seam: nat)
    requires |p| == |q| == 6 && p[2..] == q[2..] && seam <= 8
    requires !Seamless(Framed(p), Framed(q), seam) && Accepts(Framed(p)) && Accepts(Framed(q))
    ensures !Accepts(Sewn(Framed(p), Framed(q), seam))
  {
    hide Accepts, Trailer;
    var a, b := Framed(p), Framed(q);
    assert a[..0] == b[..0] && a[8..] == b[8..];
    if seam == 1 {
      assert b == [] + [b[0]] + b[1..];
      assert Sewn(a, b, 1) == [] + [a[0]] + b[1..];
      ByteErrorDetected([], b[0], a[0], b[1..]);
    } else if seam == 7 {
      assert a == a[..7] + [a[7]] + [];
      assert Sewn(a, b, 7) == a[..7] + [b[7]] + [];
      ByteErrorDetected(a[..7], a[7], b[7], []);
    } else {
      SeamInside(p, q, seam);
    }
  }

  /** Past the differing bytes the message is the first one's and the trailer the second one's. */
  lemma SeamInside(p: seq<Byte>, q: seq<Byte>, seam: nat)
    requires |p| == |q| == 6 && p[2..] == q[2..] && 2 <= seam <= 6
    ensures Accepts(Sewn(Framed(p), Framed(q), seam)) <==> Trailer(p) == Trailer(q)
    ensures Framed(p)[seam..] == Framed(q)[seam..] <==> Trailer(p) == Trailer(q)
  {
    hide Trailer;
    var s := Sewn(Framed(p), Framed(q), seam);
    assert forall i | 2 <= i < 6 :: p[i] == p[2..][i - 2] && q[i] == q[2..][i - 2];
    assert s[..6] == p;
    assert s[6..] == Trailer(q);
    TailOfFrame(p, seam);
    TailOfFrame(q, seam);
    assert p[seam..] == q[seam..];
  }

  lemma TailOfFrame(p: seq<Byte>, seam: nat)
    requires |p| == 6 && seam <= 6
    ensures Framed(p)[seam..] == p[seam..] + Trailer(p)
  {
  }

  // ----- Chunks ---------------------------------------------------------------

  /** A chunk of any slot, begun under one selector and ended under another. */
  lemma SewnChunk(c: Chain, s1: Channel, s2: Channel, slot: nat, ltc: nat, seam: nat)
    requires WellFormed(c) && slot < SLOTS && ltc < CHAIN_LEN && seam <= 8
    ensures var a, b := Chunk(c, s1, slot, ltc), Chunk(c, s2, slot, ltc);
      Accepts(Sewn(a, b, seam)) <==> Seamless(a, b, seam)
  {
    hide Accepts, Trailer, LittleEndian, MvToLtc, DcToLtc;
    var r1, r2 := Registers(c, s1, slot, ltc), Registers(c, s2, slot, ltc);
    var p, q := Payload(r1.0, r1.1, r1.2), Payload(r2.0, r2.1, r2.2);
    assert p[2..] == q[2..] by { PayloadTail(r1, r2); }
    SewnFrames(p, q, seam);
  }

  lemma PayloadTail(r1: (U16, U16, U16), r2: (U16, U16, U16))
    requires r1.1 == r2.1 && r1.2 == r2.2
    ensures Payload(r1.0, r1.1, r1.2)[2..] == Payload(r2.0, r2.1, r2.2)[2..]
  {
    hide LittleEndian;
    assert Payload(r1.0, r1.1, r1.2)[2..] == LittleEndian(r1.1) + LittleEndian(r1.2);
    assert Payload(r2.0, r2.1, r2.2)[2..] == LittleEndian(r2.1) + LittleEndian(r2.2);
  }

  /** Values below 0x8000 never differ by the generator, so different ones have different PECs. */
  lemma PecTellsApart(a: U16, b: U16, y: U16, z: U16)
    requires a < 0x8000 && b < 0x8000 && a != b
    ensures Trailer(Payload(a, y, z)) != Trailer(Payload(b, y, z))
  {
    var x, w, rest := ValueBits(a), ValueBits(b), Bits(LittleEndian(y) + LittleEndian(z));
    PayloadBits(a, y, z);
    PayloadBits(b, y, z);
    ValueOfBits(a, b);
    TopBitClear(a);
    TopBitClear(b);
    hide LittleEndian, Crc, Bits, ByteBits, ValueBits, Payload, Trailer;
    assert !Xor(x, w)[8];
    TrailersDiffer(x, w, rest);
    TrailerTells(Payload(a, y, z), Payload(b, y, z));
  }

  /** A register value as it goes out: low byte first, high bits first. */
  function ValueBits(v: U16): (bits: seq<bool>)
    ensures |bits| == 16
  {
    ByteBits(LittleEndian(v)[0]) + ByteBits(LittleEndian(v)[1])
  }

  lemma ValueOfBits(a: U16, b: U16)
    ensures ValueBits(a) == ValueBits(b) ==> a == b
  {
    hide LittleEndian, ByteBits, ByteOf, Value16;
    var u, v := LittleEndian(a), LittleEndian(b);
    var x, w := ValueBits(a), ValueBits(b);
    assert x[..8] == ByteBits(u[0]) && x[8..] == ByteBits(u[1]);
    assert w[..8] == ByteBits(v[0]) && w[8..] == ByteBits(v[1]);
    ByteOfBits(u[0]); ByteOfBits(v[0]); ByteOfBits(u[1]); ByteOfBits(v[1]);
    LittleEndianRoundTrip(a); LittleEndianRoundTrip(b);
  }

  lemma PayloadBits(a: U16, y: U16, z: U16)
    ensures Bits(Payload(a, y, z)) ==
      ValueBits(a) + Bits(LittleEndian(y) + LittleEndian(z))
  {
    hide LittleEndian, ByteBits;
    var u, tail := LittleEndian(a), LittleEndian(y) + LittleEndian(z);
    assert Payload(a, y, z) == u + tail;
    BitsConcat(u, tail);
    assert u == [u[0]] + [u[1]] && [u[0]] == [] + [u[0]];
    BitsAppend([u[0]], u[1]);
    BitsAppend([], u[0]);
    assert Bits([]) == [];
    assert [] + ByteBits(u[0]) == ByteBits(u[0]);
  }

  lemma TopBitClear(v: U16)
    requires v < 0x8000
    ensures !ValueBits(v)[8]
  {
    hide ToByte;
    ByteRoundTrip(v / 256);
    SmallByte(LittleEndian(v)[1]);
  }

  lemma SmallByte(b: Byte)
    requires b as int < 128
    ensures !ByteBits(b)[0]
  {
    assert b < 0x80;
  }

  /** AUX1 from before the seam with the PEC from after it passes only if AUX1 did not change. */
  lemma MixedAuxChunk(c: Chain, s1: Channel, s2: Channel, ltc: nat, seam: nat)
    requires WellFormed(c) && ltc < CHAIN_LEN && 2 <= seam <= 6
    ensures Accepts(Sewn(Chunk(c, s1, RDAUXA, ltc), Chunk(c, s2, RDAUXA, ltc), seam))
      <==> DcToLtc(c.tempDc[ltc][s1]) == DcToLtc(c.tempDc[ltc][s2])
  {
    hide Accepts, Trailer, LittleEndian, DcToLtc;
    var r1, r2 := Registers(c, s1, RDAUXA, ltc), Registers(c, s2, RDAUXA, ltc);
    PayloadTail(r1, r2);
    SeamInside(Payload(r1.0, r1.1, r1.2), Payload(r2.0, r2.1, r2.2), seam);
    if r1.0 != r2.0 {
      PecTellsApart(r1.0, r2.0, r1.1, r1.2);
    }
  }
}
