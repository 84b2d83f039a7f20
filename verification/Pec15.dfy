/**
 PEC15, the CRC-15 that protects every LTC68xx frame
 (tools/pico_ltc_emulator/firmware/src/pec15.c).

 Three descriptions of the same remainder meet here: polynomial long division over a
 sequence of bits, a 15-bit register shifted one bit at a time, and the table-driven,
 byte-at-a-time code of the firmware with its unmasked 16-bit remainder.
 */
module Pec15 {

  type Byte = bv8
  type Word = bv16

  // ----- Bits -----------------------------------------------------------------

  function Zeros(n: nat): (z: seq<bool>)
    ensures |z| == n && forall i :: 0 <= i < n ==> !z[i]
  {
    seq(n, i => false)
  }

  function Xor(a: seq<bool>, b: seq<bool>): (c: seq<bool>)
    requires |a| == |b|
    ensures |c| == |a| && forall i :: 0 <= i < |c| ==> c[i] == (a[i] != b[i])
  {
    seq(|a|, i requires 0 <= i < |a| => a[i] != b[i])
  }

  /** A bit position as a shift amount. */
  function Place(k: nat): (p: Word)
    requires k < 16
    ensures p < 16
  {
    if k == 0 then 0
    else if k == 1 then 1
    else if k == 2 then 2
    else if k == 3 then 3
    else if k == 4 then 4
    else if k == 5 then 5
    else if k == 6 then 6
    else if k == 7 then 7
    else if k == 8 then 8
    else if k == 9 then 9
    else if k == 10 then 10
    else if k == 11 then 11
    else if k == 12 then 12
    else if k == 13 then 13
    else if k == 14 then 14
    else 15
  }

  predicate On(w: Word, p: Word)
    requires p < 16
  {
    (w >> p) & 1 == 1
  }

  /** Whether bit k of the word, counted from the least significant, is set. */
  predicate Bit(w: Word, k: nat)
    requires k < 16
  {
    On(w, Place(k))
  }

  /** The n low bits of a word, most significant first. */
  function LowBits(w: Word, n: nat): (bits: seq<bool>)
    requires n <= 16
    ensures |bits| == n && forall i :: 0 <= i < n ==> bits[i] == Bit(w, n - 1 - i)
  {
    seq(n, i requires 0 <= i < n => Bit(w, n - 1 - i))
  }

  function ByteBits(d: Byte): (bits: seq<bool>)
    ensures |bits| == 8
  {
    LowBits(d as Word, 8)
  }

  /** The CRC register inside a 16-bit word; bit 15 is ignored. */
  function RegisterBits(w: Word): (bits: seq<bool>)
    ensures |bits| == 15
  {
    LowBits(w, 15)
  }

  function WordBits(w: Word): (bits: seq<bool>)
    ensures |bits| == 16
  {
    LowBits(w, 16)
  }

  function ByteOf(b: seq<bool>): Byte
    requires |b| == 8
  {
    (if b[0] then 0x80 else 0) | (if b[1] then 0x40 else 0) |
    (if b[2] then 0x20 else 0) | (if b[3] then 0x10 else 0) |
    (if b[4] then 0x08 else 0) | (if b[5] then 0x04 else 0) |
    (if b[6] then 0x02 else 0) | (if b[7] then 0x01 else 0)
  }

  lemma PackedByte(d: Byte, b: seq<bool>)
    requires |b| == 8
    requires b[0] == On(d as Word, 7) && b[1] == On(d as Word, 6)
    requires b[2] == On(d as Word, 5) && b[3] == On(d as Word, 4)
    requires b[4] == On(d as Word, 3) && b[5] == On(d as Word, 2)
    requires b[6] == On(d as Word, 1) && b[7] == On(d as Word, 0)
    ensures ByteOf(b) == d
  {
    assert d == (d & 0x80) | (d & 0x40) | (d & 0x20) | (d & 0x10) |
                (d & 0x08) | (d & 0x04) | (d & 0x02) | (d & 0x01);
    assert (if On(d as Word, 7) then 0x80 else 0) == d & 0x80;
    assert (if On(d as Word, 6) then 0x40 else 0) == d & 0x40;
    assert (if On(d as Word, 5) then 0x20 else 0) == d & 0x20;
    assert (if On(d as Word, 4) then 0x10 else 0) == d & 0x10;
    assert (if On(d as Word, 3) then 0x08 else 0) == d & 0x08;
    assert (if On(d as Word, 2) then 0x04 else 0) == d & 0x04;
    assert (if On(d as Word, 1) then 0x02 else 0) == d & 0x02;
    assert (if On(d as Word, 0) then 0x01 else 0) == d & 0x01;
    hide On;
  }

  lemma ByteOfBits(d: Byte)
    ensures ByteOf(ByteBits(d)) == d
  {
    hide On, ByteOf;
    PackedByte(d, ByteBits(d));
  }

  lemma UnpackedByte(b: seq<bool>)
    requires |b| == 8
    ensures var w := ByteOf(b) as Word;
      && On(w, 7) == b[0] && On(w, 6) == b[1] && On(w, 5) == b[2] && On(w, 4) == b[3]
      && On(w, 3) == b[4] && On(w, 2) == b[5] && On(w, 1) == b[6] && On(w, 0) == b[7]
  {
  }

  lemma BitsOfByte(b: seq<bool>)
    requires |b| == 8
    ensures ByteBits(ByteOf(b)) == b
  {
    hide On, ByteOf, LowBits;
    UnpackedByte(b);
    var c := ByteBits(ByteOf(b));
    assert c[0] == b[0] && c[1] == b[1] && c[2] == b[2] && c[3] == b[3];
    assert c[4] == b[4] && c[5] == b[5] && c[6] == b[6] && c[7] == b[7];
  }

  function Bits(data: seq<Byte>): (bits: seq<bool>)
    ensures |bits| == 8 * |data|
  {
    if data == [] then [] else Bits(data[..|data| - 1]) + ByteBits(data[|data| - 1])
  }

  lemma BitsAppend(data: seq<Byte>, d: Byte)
    ensures Bits(data + [d]) == Bits(data) + ByteBits(d)
  {
    assert (data + [d])[..|data|] == data;
  }

  // ----- Polynomial long division ---------------------------------------------

  /** x^15 + x^14 + x^10 + x^8 + x^7 + x^4 + x^3 + 1, highest power first. */
  const GENERATOR: seq<bool> :=
    [true, true, false, false, false, true, false, true,
     true, false, false, true, true, false, false, true]

  /** Adds b to the leading coefficients of a. */
  function AddLeading(a: seq<bool>, b: seq<bool>): (c: seq<bool>)
    requires |b| <= |a|
    ensures |c| == |a|
  {
    Xor(a[..|b|], b) + a[|b|..]
  }

  /** Schoolbook division: cancel the leading coefficient until fewer than 16 are left. */
  function Remainder(dividend: seq<bool>): (r: seq<bool>)
    ensures |dividend| >= 15 ==> |r| == 15
    decreases |dividend|
  {
    if |dividend| <= 15 then dividend
    else Remainder((if dividend[0] then AddLeading(dividend, GENERATOR) else dividend)[1..])
  }

  // ----- The 15-bit register --------------------------------------------------

  predicate Register(r: seq<bool>) {
    |r| == 15
  }

  /** The datasheet's seed, 16. */
  const SEED: seq<bool> :=
    [false, false, false, false, false, false, false, false, false, false,
     true, false, false, false, false]

  /** Shifts a zero in, subtracting the generator when a one falls out. */
  function ZeroStep(r: seq<bool>): (s: seq<bool>)
    requires Register(r)
    ensures Register(s)
    ensures forall i :: 0 <= i < 15 ==>
      s[i] == ((i < 14 && r[i + 1]) != (r[0] && GENERATOR[i + 1]))
  {
    seq(15, i requires 0 <= i < 15 => (i < 14 && r[i + 1]) != (r[0] && GENERATOR[i + 1]))
  }

  function BitStep(r: seq<bool>, b: bool): seq<bool>
    requires Register(r)
  {
    ZeroStep(r[0 := r[0] != b])
  }

  /** The register after the bits, most significant first, have been shifted in. */
  function Crc(r: seq<bool>, bits: seq<bool>): (s: seq<bool>)
    requires Register(r)
    ensures Register(s)
    decreases |bits|
  {
    if bits == [] then r else Crc(BitStep(r, bits[0]), bits[1..])
  }

  /** The register is the remainder of the seeded message times x^15. */
  lemma {:induction false} CrcIsRemainder(r: seq<bool>, bits: seq<bool>)
    requires Register(r)
    ensures Crc(r, bits) == Remainder(AddLeading(bits + Zeros(15), r))
    decreases |bits|
  {
    var m := bits + Zeros(15);
    var d := AddLeading(m, r);
    if bits == [] {
      assert d == r;
    } else {
      DivisionStep(r, bits);
      CrcIsRemainder(BitStep(r, bits[0]), bits[1..]);
    }
  }

  /** Cancelling the leading coefficient is one step of the register. */
  lemma DivisionStep(r: seq<bool>, bits: seq<bool>)
    requires Register(r) && bits != []
    ensures var d := AddLeading(bits + Zeros(15), r);
      (if d[0] then AddLeading(d, GENERATOR) else d)[1..] == AddLeading(bits[1..] + Zeros(15), BitStep(r, bits[0]))
  {
    var m, s := bits + Zeros(15), BitStep(r, bits[0]);
    var d, rest := AddLeading(m, r), AddLeading(bits[1..] + Zeros(15), s);
    var next := (if d[0] then AddLeading(d, GENERATOR) else d)[1..];
    assert d[0] == (m[0] != r[0]) && m[0] == bits[0];
    forall i | 0 <= i < |rest|
      ensures next[i] == rest[i]
    {
      assert d[i + 1] == (if i < 14 then m[i + 1] != r[i + 1] else m[i + 1]);
      assert next[i] == (if d[0] && i < 15 then d[i + 1] != GENERATOR[i + 1] else d[i + 1]);
      assert i < 15 ==> s[i] == ((i < 14 && r[i + 1]) != (d[0] && GENERATOR[i + 1]));
      assert rest[i] == (if i < 15 then m[i + 1] != s[i] else m[i + 1]);
    }
  }

  /** The message polynomial, with the seed added at its head, times x^15. */
  function Seeded(data: seq<Byte>): seq<bool> {
    AddLeading(Bits(data) + Zeros(15), SEED)
  }

  lemma {:induction false} CrcConcat(r: seq<bool>, a: seq<bool>, b: seq<bool>)
    requires Register(r)
    ensures Crc(r, a + b) == Crc(Crc(r, a), b)
    decreases |a|
  {
    if a == [] {
      assert a + b == b;
    } else {
      assert (a + b)[1..] == a[1..] + b;
      CrcConcat(BitStep(r, a[0]), a[1..], b);
    }
  }

  /** Errors propagate on their own: the register is linear in state and message. */
  lemma {:induction false} CrcLinear(r: seq<bool>, s: seq<bool>, a: seq<bool>, e: seq<bool>)
    requires Register(r) && Register(s) && |a| == |e|
    ensures Crc(Xor(r, s), Xor(a, e)) == Xor(Crc(r, a), Crc(s, e))
    decreases |a|
  {
    if a != [] {
      assert BitStep(Xor(r, s), Xor(a, e)[0]) == Xor(BitStep(r, a[0]), BitStep(s, e[0]));
      assert Xor(a, e)[1..] == Xor(a[1..], e[1..]);
      CrcLinear(BitStep(r, a[0]), BitStep(s, e[0]), a[1..], e[1..]);
    }
  }

  lemma {:induction false} CrcOfZeros(n: nat)
    ensures Crc(Zeros(15), Zeros(n)) == Zeros(15)
    decreases n
  {
    if n != 0 {
      assert BitStep(Zeros(15), false) == Zeros(15);
      assert Zeros(n)[1..] == Zeros(n - 1);
      CrcOfZeros(n - 1);
    }
  }

  /** A nonzero register never dies out: the generator has a constant term. */
  lemma {:induction false} NonzeroSurvives(r: seq<bool>, n: nat)
    requires Register(r) && r != Zeros(15)
    ensures Crc(r, Zeros(n)) != Zeros(15)
    decreases n
  {
    if n != 0 {
      var s := BitStep(r, false);
      assert r[0 := r[0] != false] == r;
      var i :| 0 <= i < 15 && r[i];
      assert if r[0] then s[14] else s[i - 1];
      assert Zeros(n)[1..] == Zeros(n - 1);
      NonzeroSurvives(s, n - 1);
    }
  }

  /** Shifting a register's own bits into it cancels them one by one. */
  lemma {:induction false} CrcOfOwnBits(r: seq<bool>, n: nat)
    requires Register(r) && n <= 15
    ensures Crc(r, r[..n]) == r[n..] + Zeros(n)
    decreases n
  {
    if n == 0 {
      assert r[..0] == [] && r[0..] + Zeros(0) == r;
    } else {
      assert r[..n] == r[..n - 1] + [r[n - 1]];
      CrcOfOwnBits(r, n - 1);
      CrcConcat(r, r[..n - 1], [r[n - 1]]);
      var s := r[n - 1..] + Zeros(n - 1);
      assert s[0] == r[n - 1];
      assert Crc(s, [r[n - 1]]) == BitStep(s, r[n - 1]);
      assert BitStep(s, s[0]) == s[1..] + [false];
      assert s[1..] + [false] == r[n..] + Zeros(n);
    }
  }

  /** Bits can be added to the front of the register and shifted through afterwards. */
  lemma {:induction false} CrcAddsUpFront(r: seq<bool>, bits: seq<bool>)
    requires Register(r) && |bits| <= 15
    ensures Crc(r, bits) == Crc(AddLeading(r, bits), Zeros(|bits|))
    decreases |bits|
  {
    var n := |bits|;
    if n == 0 {
      assert AddLeading(r, bits) == r && Zeros(0) == [];
    } else {
      var s := AddLeading(r, bits);
      assert BitStep(s, false) == AddLeading(BitStep(r, bits[0]), bits[1..]);
      assert Zeros(n)[1..] == Zeros(n - 1);
      CrcAddsUpFront(BitStep(r, bits[0]), bits[1..]);
    }
  }

  /** Leading zeros of the register shift out for free. */
  lemma {:induction false} LeadingZerosShiftOut(r: seq<bool>, n: nat)
    requires Register(r) && n <= 15 && r[..n] == Zeros(n)
    ensures Crc(r, Zeros(n)) == r[n..] + Zeros(n)
    decreases n
  {
    CrcOfOwnBits(r, n);
  }

  // ----- The table ------------------------------------------------------------

  function TableBits(a: seq<bool>): seq<bool>
    requires |a| == 8
  {
    Crc(a + Zeros(7), Zeros(8))
  }

  /** One table look-up advances the register by eight message bits. */
  lemma TableStep(r: seq<bool>, d: seq<bool>)
    requires Register(r) && |d| == 8
    ensures Crc(r, d) == Xor(r[8..] + Zeros(8), TableBits(Xor(r[..8], d)))
  {
    var a := Xor(r[..8], d);
    var lo, hi := Zeros(8) + r[8..], a + Zeros(7);
    CrcAddsUpFront(r, d);
    assert AddLeading(r, d) == Xor(lo, hi);
    assert Xor(Zeros(8), Zeros(8)) == Zeros(8);
    CrcLinear(lo, hi, Zeros(8), Zeros(8));
    LeadingZerosShiftOut(lo, 8);
    assert lo[8..] == r[8..];
  }

  // ----- Frames ---------------------------------------------------------------

  /** The two bytes that follow the data: the remainder and a zero stuffing bit. */
  function Trailer(data: seq<Byte>): (t: seq<Byte>)
    ensures |t| == 2
  {
    var c := Crc(SEED, Bits(data));
    [ByteOf(c[..8]), ByteOf(c[8..] + [false])]
  }

  function Framed(data: seq<Byte>): (f: seq<Byte>)
    ensures |f| == |data| + 2
  {
    data + Trailer(data)
  }

  /** What the bus master does with a received frame: recompute and compare. */
  predicate Accepts(frame: seq<Byte>) {
    2 <= |frame| && frame[|frame| - 2..] == Trailer(frame[..|frame| - 2])
  }

  lemma FramedAccepted(data: seq<Byte>)
    ensures Accepts(Framed(data))
  {
    var f := Framed(data);
    assert f[..|f| - 2] == data && f[|f| - 2..] == Trailer(data);
  }

  lemma TrailerBits(data: seq<Byte>)
    ensures var t := Trailer(data);
      ByteBits(t[0]) + ByteBits(t[1]) == Crc(SEED, Bits(data)) + [false]
  {
    var c := Crc(SEED, Bits(data));
    BitsOfByte(c[..8]);
    BitsOfByte(c[8..] + [false]);
  }

  lemma FramedBits(data: seq<Byte>)
    ensures Bits(Framed(data)) == Bits(data) + (Crc(SEED, Bits(data)) + [false])
  {
    var t := Trailer(data);
    TrailerBits(data);
    BitsAppend(data, t[0]);
    BitsAppend(data + [t[0]], t[1]);
    assert Framed(data) == (data + [t[0]]) + [t[1]];
  }

  /** The trailer holds the whole register. */
  lemma TrailerTells(a: seq<Byte>, b: seq<Byte>)
    ensures Trailer(a) == Trailer(b) <==> Crc(SEED, Bits(a)) == Crc(SEED, Bits(b))
  {
    hide Crc, Bits, ByteBits;
    var m, n := Crc(SEED, Bits(a)), Crc(SEED, Bits(b));
    TrailerBits(a);
    TrailerBits(b);
    assert (m + [false])[..15] == m && (n + [false])[..15] == n;
  }

  /** Running the register over a frame and its trailer leaves it empty. */
  lemma ResidueIsZero(data: seq<Byte>)
    ensures Crc(SEED, Bits(Framed(data))) == Zeros(15)
  {
    var m := Bits(data);
    var c := Crc(SEED, m);
    FramedBits(data);
    CrcConcat(SEED, m, c + [false]);
    CrcConcat(c, c, [false]);
    assert c[..15] == c;
    CrcOfOwnBits(c, 15);
    assert c[15..] + Zeros(15) == Zeros(15);
    CrcOfZeros(1);
    assert Zeros(1) == [false];
  }

  lemma AcceptedResidue(frame: seq<Byte>)
    requires Accepts(frame)
    ensures Crc(SEED, Bits(frame)) == Zeros(15)
  {
    var data := frame[..|frame| - 2];
    assert frame == Framed(data);
    ResidueIsZero(data);
  }

  /** The last bit of an accepted frame is clear, so a frame ending in 0xFF never is. */
  lemma AcceptedIsEven(frame: seq<Byte>)
    requires Accepts(frame)
    ensures frame[|frame| - 1] & 1 == 0
  {
    var data := frame[..|frame| - 2];
    TrailerBits(data);
    var t := Trailer(data);
    assert frame[|frame| - 1] == t[1];
    assert (ByteBits(t[0]) + ByteBits(t[1]))[15] == ByteBits(t[1])[7];
  }

  // ----- Burst errors ---------------------------------------------------------

  /** The two frames differ, and only in bits of the window of 15 starting at `at`. */
  predicate BurstApart(a: seq<bool>, b: seq<bool>, at: nat) {
    && |a| == |b|
    && a != b
    && forall i :: 0 <= i < |a| && (i < at || at + 15 <= i) ==> a[i] == b[i]
  }

  /** A one shifted into an empty register is still visible 15 bits later. */
  lemma {:induction false} WindowVisible(e: seq<bool>)
    requires |e| <= 15 && e != Zeros(|e|)
    ensures Crc(Zeros(15), e) != Zeros(15)
  {
    CrcAddsUpFront(Zeros(15), e);
    var r := AddLeading(Zeros(15), e);
    var i :| 0 <= i < |e| && e[i];
    assert r[i];
    NonzeroSurvives(r, |e|);
  }

  /** Only bits of the 15-bit window starting at `at` may be set. */
  predicate WithinWindow(e: seq<bool>, at: nat) {
    forall i :: 0 <= i < |e| && (i < at || at + 15 <= i) ==> !e[i]
  }

  lemma ClearAround(e: seq<bool>, at: nat, end: nat)
    requires WithinWindow(e, at) && at <= end <= |e| && (end == |e| || at + 15 <= end)
    ensures e[..at] == Zeros(at) && e[end..] == Zeros(|e| - end)
  {
  }

  lemma SplitAround(e: seq<bool>, at: nat, end: nat)
    requires at <= end <= |e|
    ensures e == e[..at] + (e[at..end] + e[end..])
  {
  }

  lemma BurstShape(e: seq<bool>, at: nat) returns (win: seq<bool>, tail: nat)
    requires e != Zeros(|e|) && WithinWindow(e, at)
    ensures |win| <= 15 && win != Zeros(|win|)
    ensures e == Zeros(at) + (win + Zeros(tail))
  {
    var i :| 0 <= i < |e| && e[i];
    var end := if at + 15 <= |e| then at + 15 else |e|;
    ClearAround(e, at, end);
    hide WithinWindow;
    win, tail := e[at..end], |e| - end;
    assert win[i - at];
    SplitAround(e, at, end);
  }

  lemma BurstVisible(e: seq<bool>, at: nat)
    requires e != Zeros(|e|) && WithinWindow(e, at)
    ensures Crc(Zeros(15), e) != Zeros(15)
  {
    hide Crc;
    var win, tail := BurstShape(e, at);
    CrcOfZeros(at);
    CrcConcat(Zeros(15), Zeros(at), win + Zeros(tail));
    CrcConcat(Zeros(15), win, Zeros(tail));
    WindowVisible(win);
    NonzeroSurvives(Crc(Zeros(15), win), tail);
  }

  lemma BurstChangesRegister(a: seq<bool>, b: seq<bool>, at: nat)
    requires BurstApart(a, b, at)
    ensures Crc(SEED, a) != Crc(SEED, b)
  {
    hide Crc;
    var e := Xor(a, b);
    var i :| 0 <= i < |a| && a[i] != b[i];
    assert e[i];
    BurstVisible(e, at);
    CrcLinear(SEED, Zeros(15), a, e);
    assert Xor(SEED, Zeros(15)) == SEED;
    assert Xor(a, e) == b;
    var x, y := Crc(SEED, a), Crc(Zeros(15), e);
    var k :| 0 <= k < 15 && y[k];
    assert Xor(x, y)[k] != x[k];
  }

  /** Every error burst of up to 15 bits, anywhere in data or trailer, is detected. */
  lemma BurstDetected(sent: seq<Byte>, received: seq<Byte>, at: nat)
    requires Accepts(sent)
    requires BurstApart(Bits(sent), Bits(received), at)
    ensures !Accepts(received)
  {
    AcceptedResidue(sent);
    BurstChangesRegister(Bits(sent), Bits(received), at);
    if Accepts(received) {
      AcceptedResidue(received);
    }
  }

  lemma {:induction false} BitsConcat(a: seq<Byte>, b: seq<Byte>)
    ensures Bits(a + b) == Bits(a) + Bits(b)
    decreases |b|
  {
    if b == [] {
      assert a + b == a;
    } else {
      var n := |b| - 1;
      assert a + b == (a + b[..n]) + [b[n]];
      BitsAppend(a + b[..n], b[n]);
      BitsConcat(a, b[..n]);
    }
  }

  /** A frame with one byte changed is rejected. */
  lemma ByteErrorDetected(before: seq<Byte>, d: Byte, e: Byte, after: seq<Byte>)
    requires d != e && Accepts(before + [d] + after)
    ensures !Accepts(before + [e] + after)
  {
    hide Accepts, Bits;
    var a, b := before + [d] + after, before + [e] + after;
    BitsAround(before, d, after);
    BitsAround(before, e, after);
    if ByteBits(d) == ByteBits(e) {
      ByteOfBits(d);
      ByteOfBits(e);
      assert false;
    }
    var i :| 0 <= i < 8 && ByteBits(d)[i] != ByteBits(e)[i];
    assert Bits(a)[|Bits(before)| + i] != Bits(b)[|Bits(before)| + i];
    BurstDetected(a, b, |Bits(before)|);
  }

  lemma BitsAround(before: seq<Byte>, d: Byte, after: seq<Byte>)
    ensures Bits(before + [d] + after) == Bits(before) + ByteBits(d) + Bits(after)
  {
    BitsConcat(before + [d], after);
    BitsAppend(before, d);
  }

  /** Sixteen bits leave the register empty only if they are zero or the generator itself. */
  lemma SixteenVisible(e: seq<bool>)
    requires |e| == 16 && e != Zeros(16) && e != GENERATOR
    ensures Crc(Zeros(15), e) != Zeros(15)
  {
    var rest := e[1..];
    if e[0] {
      LeadingOne();
      var i :| 0 <= i < 16 && e[i] != GENERATOR[i];
      FifteenApart(GENERATOR[1..], rest, i - 1);
    } else {
      CrcOfZeros(1);
      assert Zeros(1) == [false] && Crc(Zeros(15), [false]) == BitStep(Zeros(15), false);
      var i :| 0 <= i < 16 && e[i];
      assert rest[i - 1];
      WindowVisible(rest);
    }
  }

  lemma LeadingOne()
    ensures BitStep(Zeros(15), true) == GENERATOR[1..]
  {
  }

  /** A register that fifteen bits do not cancel stays nonzero. */
  lemma FifteenApart(r: seq<bool>, bits: seq<bool>, i: nat)
    requires Register(r) && |bits| == 15 && i < 15 && r[i] != bits[i]
    ensures Crc(r, bits) != Zeros(15)
  {
    hide Crc;
    CrcAddsUpFront(r, bits);
    assert AddLeading(r, bits)[i];
    NonzeroSurvives(AddLeading(r, bits), 15);
  }

  /** Two messages that differ only in their first two bytes have different trailers, unless
      they differ by the generator. */
  lemma TrailersDiffer(a: seq<bool>, b: seq<bool>, rest: seq<bool>)
    requires |a| == |b| == 16 && a != b && Xor(a, b) != GENERATOR
    ensures Crc(SEED, a + rest) != Crc(SEED, b + rest)
  {
    hide Crc;
    var e, n := Xor(a, b), |rest|;
    var i :| 0 <= i < 16 && a[i] != b[i];
    assert e[i];
    SixteenVisible(e);
    CrcConcat(Zeros(15), e, Zeros(n));
    NonzeroSurvives(Crc(Zeros(15), e), n);
    CrcLinear(SEED, Zeros(15), a + rest, e + Zeros(n));
    assert Xor(SEED, Zeros(15)) == SEED;
    assert Xor(a + rest, e + Zeros(n)) == b + rest;
    var x, y := Crc(SEED, a + rest), Crc(Zeros(15), e + Zeros(n));
    var k :| 0 <= k < 15 && y[k];
    assert Xor(x, y)[k] != x[k];
  }

  // ----- The firmware ---------------------------------------------------------

  /** One turn of the table-building loop, on the unmasked 16-bit remainder. */
  function RawStep(r: Word): Word {
    if r & 0x4000 != 0 then (r << 1) ^ 0x4599 else r << 1
  }

  lemma PlaceShifts(k: nat)
    requires k < 16
    ensures (1 <= k) == (1 <= Place(k)) && (1 <= k ==> Place(k) - 1 == Place(k - 1))
    ensures (7 <= k) == (7 <= Place(k)) && (7 <= k ==> Place(k) - 7 == Place(k - 7))
    ensures (8 <= k) == (8 <= Place(k)) && (8 <= k ==> Place(k) - 8 == Place(k - 8))
    ensures (k < 15) == (Place(k) < 15)
    ensures k < 8 ==> Place(k) + 7 == Place(k + 7) && Place(k) + 8 == Place(k + 8)
  {
  }

  lemma GeneratorBits(k: nat)
    requires k < 15
    ensures Bit(0x4599, k) == GENERATOR[15 - k]
  {
    assert On(0x4599, 14) && !On(0x4599, 13) && !On(0x4599, 12) && !On(0x4599, 11);
    assert On(0x4599, 10) && !On(0x4599, 9) && On(0x4599, 8) && On(0x4599, 7);
    assert !On(0x4599, 6) && !On(0x4599, 5) && On(0x4599, 4) && On(0x4599, 3);
    assert !On(0x4599, 2) && !On(0x4599, 1) && On(0x4599, 0);
    hide On;
  }

  lemma XorOn(a: Word, b: Word, p: Word)
    requires p < 16
    ensures On(a ^ b, p) == (On(a, p) != On(b, p))
  {
  }

  lemma XorBit(a: Word, b: Word, k: nat)
    requires k < 16
    ensures Bit(a ^ b, k) == (Bit(a, k) != Bit(b, k))
  {
    hide On, Place;
    XorOn(a, b, Place(k));
  }

  lemma ShiftOn(r: Word, p: Word)
    requires p < 16
    ensures On(r << 1, p) == (1 <= p && On(r, p - 1))
    ensures On(r << 7, p) == (7 <= p && On(r, p - 7))
    ensures On(r << 8, p) == (8 <= p && On(r, p - 8))
    ensures p < 8 ==> On(r >> 7, p) == On(r, p + 7) && On(r >> 8, p) == On(r, p + 8)
  {
  }

  lemma ShiftBit(r: Word, k: nat)
    requires k < 16
    ensures Bit(r << 1, k) == (1 <= k && Bit(r, k - 1))
    ensures Bit(r << 7, k) == (7 <= k && Bit(r, k - 7))
    ensures Bit(r << 8, k) == (8 <= k && Bit(r, k - 8))
    ensures k < 8 ==> Bit(r >> 7, k) == Bit(r, k + 7) && Bit(r >> 8, k) == Bit(r, k + 8)
  {
    hide On, Place;
    PlaceShifts(k);
    ShiftOn(r, Place(k));
  }

  lemma MaskOn(w: Word, p: Word)
    requires p < 16
    ensures p < 15 ==> On(w & 0x7FFF, p) == On(w, p)
    ensures p < 8 ==> On(w & 0xFF, p) == On(w, p)
    ensures On(w & 0xFFFE, p) == (1 <= p && On(w, p))
  {
  }

  lemma MaskBit(w: Word, k: nat)
    requires k < 16
    ensures k < 15 ==> Bit(w & 0x7FFF, k) == Bit(w, k)
    ensures k < 8 ==> Bit(w & 0xFF, k) == Bit(w, k)
    ensures Bit(w & 0xFFFE, k) == (1 <= k && Bit(w, k))
  {
    hide On, Place;
    PlaceShifts(k);
    MaskOn(w, Place(k));
  }

  lemma TestedBit(r: Word)
    ensures (r & 0x4000 != 0) == Bit(r, 14)
  {
    assert Place(14) == 14;
  }

  lemma RawStepBit(r: Word, k: nat)
    requires k < 15
    ensures Bit(RawStep(r), k) == ((1 <= k && Bit(r, k - 1)) != (Bit(r, 14) && Bit(0x4599, k)))
  {
    hide Bit;
    TestedBit(r);
    ShiftBit(r, k);
    XorBit(r << 1, 0x4599, k);
  }

  lemma RawStepIsZeroStep(r: Word)
    ensures RegisterBits(RawStep(r)) == ZeroStep(RegisterBits(r))
  {
    hide Bit, RawStep;
    forall i | 0 <= i < 15
      ensures RegisterBits(RawStep(r))[i] == ZeroStep(RegisterBits(r))[i]
    {
      RawStepBit(r, 14 - i);
      GeneratorBits(14 - i);
    }
  }

  lemma RegisterOfXor(a: Word, b: Word)
    ensures RegisterBits(a ^ b) == Xor(RegisterBits(a), RegisterBits(b))
  {
    hide Bit;
    forall i | 0 <= i < 15
      ensures RegisterBits(a ^ b)[i] == Xor(RegisterBits(a), RegisterBits(b))[i]
    {
      XorBit(a, b, 14 - i);
    }
  }

  lemma RegisterOfShift(r: Word)
    ensures RegisterBits(r << 8) == RegisterBits(r)[8..] + Zeros(8)
  {
    hide Bit;
    forall i | 0 <= i < 15
      ensures RegisterBits(r << 8)[i] == (RegisterBits(r)[8..] + Zeros(8))[i]
    {
      ShiftBit(r, 14 - i);
    }
  }

  lemma RegisterOfMask(r: Word)
    ensures RegisterBits(r & 0x7FFF) == RegisterBits(r)
  {
    hide Bit;
    forall i | 0 <= i < 15
      ensures RegisterBits(r & 0x7FFF)[i] == RegisterBits(r)[i]
    {
      MaskBit(r, 14 - i);
    }
  }

  lemma IndexBits(a: Byte)
    ensures RegisterBits((a as Word) << 7) == ByteBits(a) + Zeros(7)
  {
    hide Bit;
    var w := a as Word;
    forall i | 0 <= i < 15
      ensures RegisterBits(w << 7)[i] == (ByteBits(a) + Zeros(7))[i]
    {
      ShiftBit(w, 14 - i);
    }
  }

  function TableIndex(r: Word, d: Byte): Byte {
    (((r >> 7) ^ (d as Word)) & 0xFF) as Byte
  }

  lemma NarrowWiden(x: Word)
    ensures (x & 0xFF) as Byte as Word == x & 0xFF
  {
  }

  lemma LowByteBits(x: Word)
    ensures ByteBits((x & 0xFF) as Byte) == LowBits(x, 8)
  {
    hide Bit;
    NarrowWiden(x);
    forall i | 0 <= i < 8
      ensures LowBits(x & 0xFF, 8)[i] == LowBits(x, 8)[i]
    {
      MaskBit(x, 7 - i);
    }
  }

  lemma XorShiftBits(r: Word, w: Word)
    ensures LowBits((r >> 7) ^ w, 8) == Xor(RegisterBits(r)[..8], LowBits(w, 8))
  {
    hide Bit, LowBits;
    var x, y := LowBits((r >> 7) ^ w, 8), LowBits(w, 8);
    var z := LowBits(r, 15);
    forall i | 0 <= i < 8
      ensures x[i] == (z[i] != y[i])
    {
      XorBit(r >> 7, w, 7 - i);
      ShiftBit(r, 7 - i);
    }
  }

  lemma TableIndexBits(r: Word, d: Byte)
    ensures ByteBits(TableIndex(r, d)) == Xor(RegisterBits(r)[..8], ByteBits(d))
  {
    hide LowBits;
    LowByteBits((r >> 7) ^ (d as Word));
    XorShiftBits(r, d as Word);
  }

  lemma FinalShift(r: Word)
    ensures WordBits((r << 1) & 0xFFFE) == RegisterBits(r) + [false]
  {
    hide Bit;
    forall i | 0 <= i < 16
      ensures WordBits((r << 1) & 0xFFFE)[i] == (RegisterBits(r) + [false])[i]
    {
      MaskBit(r << 1, 15 - i);
      ShiftBit(r, 15 - i);
    }
  }

  lemma WordHalves(w: Word)
    ensures ByteBits(((w >> 8) & 0xFF) as Byte) == WordBits(w)[..8]
    ensures ByteBits((w & 0xFF) as Byte) == WordBits(w)[8..]
  {
    hide Bit;
    LowByteBits(w >> 8);
    LowByteBits(w);
    hide ByteBits;
    forall i | 0 <= i < 8
      ensures LowBits(w >> 8, 8)[i] == WordBits(w)[i]
    {
      ShiftBit(w, 7 - i);
    }
    assert LowBits(w, 8) == WordBits(w)[8..];
  }

  lemma {:induction false} ZerosPeel(r: seq<bool>, n: nat)
    requires Register(r)
    ensures Crc(r, Zeros(n + 1)) == ZeroStep(Crc(r, Zeros(n)))
  {
    assert Zeros(n + 1) == Zeros(n) + [false];
    CrcConcat(r, Zeros(n), [false]);
    var s := Crc(r, Zeros(n));
    assert s[0 := s[0] != false] == s;
  }

  lemma CrcOfNothing(r: seq<bool>)
    requires Register(r)
    ensures Crc(r, Zeros(0)) == r
  {
  }

  lemma CrcOfNoData()
    ensures Crc(SEED, Bits([])) == SEED
  {
  }

  lemma WidenIndex(i: nat)
    requires i < 256
    ensures (i as Byte) as Word == i as Word
  {
  }

  lemma SeedBits()
    ensures RegisterBits(16) == SEED
  {
    assert On(16, 4);
    assert !On(16, 14) && !On(16, 13) && !On(16, 12) && !On(16, 11) && !On(16, 10);
    assert !On(16, 9) && !On(16, 8) && !On(16, 7) && !On(16, 6) && !On(16, 5);
    assert !On(16, 3) && !On(16, 2) && !On(16, 1) && !On(16, 0);
    hide On;
  }

  predicate IsEntry(a: Byte, w: Word) {
    RegisterBits(w) == TableBits(ByteBits(a))
  }

  lemma IndexRoundTrip(a: Byte)
    ensures (a as int) as Byte == a
  {
  }

  /** The firmware's whole loop body: look up, shift, combine. */
  lemma TableLookup(r: Word, d: Byte, entry: Word)
    requires IsEntry(TableIndex(r, d), entry)
    ensures RegisterBits((r << 8) ^ entry) == Crc(RegisterBits(r), ByteBits(d))
  {
    hide Crc, ByteBits, RegisterBits, TableBits, TableIndex;
    TableIndexBits(r, d);
    TableStep(RegisterBits(r), ByteBits(d));
    RegisterOfShift(r);
    RegisterOfXor(r << 8, entry);
  }

  lemma CrcAppendByte(data: seq<Byte>, d: Byte)
    ensures Crc(SEED, Bits(data + [d])) == Crc(Crc(SEED, Bits(data)), ByteBits(d))
  {
    BitsAppend(data, d);
    CrcConcat(SEED, Bits(data), ByteBits(d));
  }

  class Crc15 {
    const table: array<Word>
    var ready: bool

    ghost predicate Valid()
      reads this, table
    {
      && table.Length == 256
      && (ready ==> forall i :: 0 <= i < 256 ==> IsEntry(i as Byte, table[i]))
    }

    constructor ()
      ensures Valid() && !ready && fresh(table)
    {
      table := new Word[256];
      ready := false;
    }

    /** Eight turns of the shift loop, on a remainder whose bit 15 is never cleaned up. */
    static method Entry(i: nat) returns (entry: Word)
      requires i < 256
      ensures IsEntry(i as Byte, entry)
    {
      hide Crc, ZeroStep, ByteBits, RegisterBits;
      var remainder := (i as Word) << 7;
      ghost var start := ByteBits(i as Byte) + Zeros(7);
      WidenIndex(i);
      IndexBits(i as Byte);
      CrcOfNothing(start);
      var bit := 0;
      while bit < 8
        invariant 0 <= bit <= 8
        invariant RegisterBits(remainder) == Crc(start, Zeros(bit))
      {
        RawStepIsZeroStep(remainder);
        ZerosPeel(start, bit);
        if remainder & 0x4000 != 0 {
          remainder := (remainder << 1) ^ 0x4599;
        } else {
          remainder := remainder << 1;
        }
        bit := bit + 1;
      }
      RegisterOfMask(remainder);
      entry := remainder & 0x7FFF;
    }

    method InitTable()
      requires Valid()
      modifies this, table
      ensures Valid() && ready
    {
      hide IsEntry;
      var i := 0;
      while i < 256
        invariant 0 <= i <= 256
        invariant forall j :: 0 <= j < i ==> IsEntry(j as Byte, table[j])
        modifies table
      {
        table[i] := Entry(i);
        i := i + 1;
      }
      ready := true;
    }

    /** The wire word holds the long-division remainder of the message, then a zero. */
    method Compute(data: array<Byte>, len: nat) returns (pec: Word)
      requires Valid() && len <= data.Length && data as object != table
      modifies this, table
      ensures Valid()
      ensures WordBits(pec) == Remainder(Seeded(data[..len])) + [false]
      ensures WordBits(pec) == Crc(SEED, Bits(data[..len])) + [false]
    {
      hide Crc, Bits, ByteBits, RegisterBits, IsEntry, TableIndex;
      SeedBits();
      if !ready {
        InitTable();
      }
      var remainder: Word := 16;
      var i := 0;
      assert data[..0] == [];
      CrcOfNoData();
      while i < len
        invariant 0 <= i <= len
        invariant RegisterBits(remainder) == Crc(SEED, Bits(data[..i]))
        modifies {}
      {
        var d := data[i];
        var addr := TableIndex(remainder, d);
        IndexRoundTrip(addr);
        TableLookup(remainder, d, table[addr as int]);
        assert data[..i + 1] == data[..i] + [d];
        CrcAppendByte(data[..i], d);
        remainder := (remainder << 8) ^ table[addr as int];
        i := i + 1;
      }
      FinalShift(remainder);
      assert i == len;
      CrcIsRemainder(SEED, Bits(data[..len]));
      pec := (remainder << 1) & 0xFFFE;
    }

    method Append(data: array<Byte>, len: nat)
      requires Valid() && len + 2 <= data.Length && data as object != table
      modifies this, table, data
      ensures Valid()
      ensures data[..len + 2] == Framed(old(data[..len]))
      ensures data[len + 2..] == old(data[len + 2..])
    {
      var pec := Compute(data, len);
      var c := Crc(SEED, Bits(data[..len]));
      WordHalves(pec);
      ByteOfBits(((pec >> 8) & 0xFF) as Byte);
      ByteOfBits((pec & 0xFF) as Byte);
      assert (c + [false])[..8] == c[..8] && (c + [false])[8..] == c[8..] + [false];
      data[len] := ((pec >> 8) & 0xFF) as Byte;
      data[len + 1] := (pec & 0xFF) as Byte;
      assert data[..len + 2] == data[..len] + [data[len], data[len + 1]];
    }
  }
}
