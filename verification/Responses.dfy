/**
 The prebuilt read responses of tools/pico_ltc_emulator/firmware/src/ltc6811_emu.c: six
 84-byte buffers, each four pad bytes and then one PEC-framed 8-byte chunk per chip.
 */
module Responses {
  import opened CellChain
  import opened Encoding
  import opened Pec15

  const PAD_LEN := 4
  const DATA_LEN := 80
  const RESPONSE_LEN := 84

  /** Indices into response_pool. */
  const RDCVA := 0
  const RDCVB := 1
  const RDCVC := 2
  const RDCVD := 3
  const RDAUXA := 4
  const RDAUXB := 5
  const SLOTS := 6

  // ----- Bytes ----------------------------------------------------------------

  function ToByte(n: int): Byte
    requires 0 <= n < 256
  {
    n as Byte
  }

  function LittleEndian(v: U16): (b: seq<Byte>)
    ensures |b| == 2
  {
    [ToByte(v % 256), ToByte(v / 256)]
  }

  function Value16(lo: Byte, hi: Byte): int {
    lo as int + 256 * (hi as int)
  }

  lemma Successor(b: Byte)
    requires b != 0xFF
    ensures (b + 1) as int == b as int + 1
  {
  }

  /** The byte reached by counting up from zero. */
  ghost function Counted(n: nat): (b: Byte)
    requires n < 256
    ensures b as int == n
  {
    if n == 0 then 0
    else
      assert (0xFF as Byte) as int == 255;
      Successor(Counted(n - 1));
      Counted(n - 1) + 1
  }

  lemma ByteRoundTrip(n: int)
    requires 0 <= n < 256
    ensures ToByte(n) as int == n
  {
    var b := Counted(n);
    assert (b as int) as Byte == b;
  }

  lemma LittleEndianRoundTrip(v: U16)
    ensures Value16(LittleEndian(v)[0], LittleEndian(v)[1]) == v
  {
    hide ToByte;
    ByteRoundTrip(v % 256);
    ByteRoundTrip(v / 256);
  }

  // ----- The direct function of chain state and selector ----------------------

  /** Three register values, little-endian. */
  function Payload(a: U16, b: U16, c: U16): (p: seq<Byte>)
    ensures |p| == 6
  {
    LittleEndian(a) + LittleEndian(b) + LittleEndian(c)
  }

  /** The three registers chip `ltc` reports for a slot. */
  function Registers(c: Chain, sel: Channel, slot: nat, ltc: nat): (U16, U16, U16)
    requires WellFormed(c) && slot < SLOTS && ltc < CHAIN_LEN
  {
    if slot < RDAUXA then
      (MvToLtc(c.cellMv[ltc][slot * 3]), MvToLtc(c.cellMv[ltc][slot * 3 + 1]), MvToLtc(c.cellMv[ltc][slot * 3 + 2]))
    else if slot == RDAUXA then
      (DcToLtc(c.tempDc[ltc][sel]), DcToLtc(c.tempDc[ltc][1]), DcToLtc(c.tempDc[ltc][2]))
    else
      (DcToLtc(c.tempDc[ltc][3]), DcToLtc(c.tempDc[ltc][4]), 30000)
  }

  function ChunkOf(regs: (U16, U16, U16)): (chunk: seq<Byte>)
    ensures |chunk| == 8
  {
    Framed(Payload(regs.0, regs.1, regs.2))
  }

  function Chunk(c: Chain, sel: Channel, slot: nat, ltc: nat): (chunk: seq<Byte>)
    requires WellFormed(c) && slot < SLOTS && ltc < CHAIN_LEN
    ensures |chunk| == 8
  {
    ChunkOf(Registers(c, sel, slot, ltc))
  }

  /** The chunks of the first n chips. */
  function Chunks(c: Chain, sel: Channel, slot: nat, n: nat): (data: seq<Byte>)
    requires WellFormed(c) && slot < SLOTS && n <= CHAIN_LEN
    ensures |data| == 8 * n
  {
    if n == 0 then [] else Chunks(c, sel, slot, n - 1) + Chunk(c, sel, slot, n - 1)
  }

  function Data(c: Chain, sel: Channel, slot: nat): (data: seq<Byte>)
    requires WellFormed(c) && slot < SLOTS
    ensures |data| == DATA_LEN
  {
    Chunks(c, sel, slot, CHAIN_LEN)
  }

  function Pad(): (p: seq<Byte>)
    ensures |p| == PAD_LEN
  {
    [0xFF, 0xFF, 0xFF, 0xFF]
  }

  function Response(c: Chain, sel: Channel, slot: nat): (r: seq<Byte>)
    requires WellFormed(c) && slot < SLOTS
    ensures |r| == RESPONSE_LEN
  {
    Pad() + Data(c, sel, slot)
  }

  lemma AppendChunk(c: Chain, sel: Channel, slot: nat, n: nat)
    requires WellFormed(c) && slot < SLOTS && n < CHAIN_LEN
    ensures (Pad() + Chunks(c, sel, slot, n)) + Chunk(c, sel, slot, n) == Pad() + Chunks(c, sel, slot, n + 1)
  {
    hide Chunk;
  }

  function AllResponses(c: Chain, sel: Channel): (pool: seq<seq<Byte>>)
    requires WellFormed(c)
    ensures |pool| == SLOTS
    ensures forall s :: 0 <= s < SLOTS ==> pool[s] == Response(c, sel, s)
  {
    seq(SLOTS, s requires 0 <= s < SLOTS => Response(c, sel, s))
  }

  // ----- What depends on the selector -----------------------------------------

  lemma {:induction false} ChunksIgnoreSelector(c: Chain, s1: Channel, s2: Channel, slot: nat, n: nat)
    requires WellFormed(c) && slot < SLOTS && slot != RDAUXA && n <= CHAIN_LEN
    ensures Chunks(c, s1, slot, n) == Chunks(c, s2, slot, n)
    decreases n
  {
    hide ChunkOf;
    if n != 0 {
      ChunksIgnoreSelector(c, s1, s2, slot, n - 1);
      assert Registers(c, s1, slot, n - 1) == Registers(c, s2, slot, n - 1);
    }
  }

  /** Rebuilding RDAUXA alone after a selector change is as good as rebuilding all six. */
  lemma PartialRebuildSuffices(c: Chain, s1: Channel, s2: Channel)
    requires WellFormed(c)
    ensures AllResponses(c, s1)[RDAUXA := Response(c, s2, RDAUXA)] == AllResponses(c, s2)
  {
    hide Chunks;
    forall slot | 0 <= slot < SLOTS && slot != RDAUXA
      ensures Response(c, s1, slot) == Response(c, s2, slot)
    {
      ChunksIgnoreSelector(c, s1, s2, slot, CHAIN_LEN);
    }
  }

  // ----- The reader's side ----------------------------------------------------

  lemma {:induction false} ChunkAt(c: Chain, sel: Channel, slot: nat, n: nat, ltc: nat)
    requires WellFormed(c) && slot < SLOTS && ltc < n <= CHAIN_LEN
    ensures Chunks(c, sel, slot, n)[8 * ltc..8 * ltc + 8] == Chunk(c, sel, slot, ltc)
    decreases n
  {
    hide Chunk;
    if ltc < n - 1 {
      ChunkAt(c, sel, slot, n - 1, ltc);
      assert Chunks(c, sel, slot, n)[..8 * (n - 1)] == Chunks(c, sel, slot, n - 1);
    }
  }

  /** Field i (0..2) of an 8-byte chunk as the bus master decodes it. */
  function Field(chunk: seq<Byte>, i: nat): int
    requires |chunk| == 8 && i < 3
  {
    Value16(chunk[2 * i], chunk[2 * i + 1])
  }

  lemma FieldsOfChunk(regs: (U16, U16, U16))
    ensures Field(ChunkOf(regs), 0) == regs.0
    ensures Field(ChunkOf(regs), 1) == regs.1
    ensures Field(ChunkOf(regs), 2) == regs.2
  {
    hide LittleEndian, Value16, Trailer;
    LittleEndianRoundTrip(regs.0);
    LittleEndianRoundTrip(regs.1);
    LittleEndianRoundTrip(regs.2);
    var chunk := ChunkOf(regs);
    var p := Payload(regs.0, regs.1, regs.2);
    assert chunk[..6] == p;
    assert forall k :: 0 <= k < 6 ==> chunk[k] == p[k];
  }

  lemma ChunkAccepted(regs: (U16, U16, U16))
    ensures Accepts(ChunkOf(regs))
  {
    FramedAccepted(Payload(regs.0, regs.1, regs.2));
  }

  /** Eight 0xFF bytes are never a valid frame: a PEC word is always even. */
  lemma SilenceRejected(chunk: seq<Byte>)
    requires |chunk| == 8 && chunk[7] == 0xFF
    ensures !Accepts(chunk)
  {
    if Accepts(chunk) {
      AcceptedIsEven(chunk);
    }
  }

  // ----- The firmware's builders ----------------------------------------------

  /** The response builders and the CRC table they share. */
  class ResponseBuilder {
    const crc: Crc15

    ghost predicate Valid()
      reads crc, crc.table
    {
      crc.Valid()
    }

    constructor ()
      ensures Valid() && fresh(crc) && fresh(crc.table)
    {
      crc := new Crc15();
    }

    static method PutWord(out: array<Byte>, at: nat, v: U16)
      requires at + 2 <= out.Length
      modifies out
      ensures out[..] == old(out[..at]) + LittleEndian(v) + old(out[at + 2..])
    {
      out[at] := ToByte(v % 256);
      out[at + 1] := ToByte(v / 256);
      assert out[..] == out[..at] + [out[at], out[at + 1]] + out[at + 2..];
    }

    method BuildRdcvChunk(cells: CellState, ghost sel: Channel, ltc: nat, group: nat, out: array<Byte>)
      requires Valid() && cells.Valid() && ltc < CHAIN_LEN && group < RDAUXA
      requires out.Length == 8 && out as object != crc.table
      modifies crc, crc.table, out
      ensures Valid()
      ensures out[..] == Chunk(cells.Value(), sel, group, ltc)
    {
      hide LittleEndian, Framed;
      ghost var regs := Registers(cells.Value(), sel, group, ltc);
      PutWord(out, 0, MvToLtc(cells.cellMv[ltc, group * 3]));
      PutWord(out, 2, MvToLtc(cells.cellMv[ltc, group * 3 + 1]));
      PutWord(out, 4, MvToLtc(cells.cellMv[ltc, group * 3 + 2]));
      assert out[..6] == Payload(regs.0, regs.1, regs.2);
      crc.Append(out, 6);
      assert out[..] == out[..8];
    }

    method BuildRdauxChunk(cells: CellState, sel: Channel, ltc: nat, group: nat, out: array<Byte>)
      requires Valid() && cells.Valid() && ltc < CHAIN_LEN && group < 2
      requires out.Length == 8 && out as object != crc.table
      modifies crc, crc.table, out
      ensures Valid()
      ensures out[..] == Chunk(cells.Value(), sel, RDAUXA + group, ltc)
    {
      hide LittleEndian, Framed, DcToLtc;
      ghost var regs := Registers(cells.Value(), sel, RDAUXA + group, ltc);
      if group == 0 {
        PutWord(out, 0, DcToLtc(cells.tempDc[ltc, sel]));
        PutWord(out, 2, DcToLtc(cells.tempDc[ltc, 1]));
        PutWord(out, 4, DcToLtc(cells.tempDc[ltc, 2]));
      } else {
        PutWord(out, 0, DcToLtc(cells.tempDc[ltc, 3]));
        PutWord(out, 2, DcToLtc(cells.tempDc[ltc, 4]));
        PutWord(out, 4, 30000);
      }
      assert out[..6] == Payload(regs.0, regs.1, regs.2);
      crc.Append(out, 6);
      assert out[..] == out[..8];
    }

    method BuildChunk(cells: CellState, sel: Channel, slot: nat, ltc: nat, out: array<Byte>)
      requires Valid() && cells.Valid() && ltc < CHAIN_LEN && slot < SLOTS
      requires out.Length == 8 && out as object != crc.table
      modifies crc, crc.table, out
      ensures Valid()
      ensures out[..] == Chunk(cells.Value(), sel, slot, ltc)
    {
      hide Chunk;
      if slot < RDAUXA {
        BuildRdcvChunk(cells, sel, ltc, slot, out);
      } else {
        BuildRdauxChunk(cells, sel, ltc, slot - RDAUXA, out);
      }
    }

    /** build_one_response: fills the slot's buffer in place. */
    method BuildOne(cells: CellState, sel: Channel, slot: nat) returns (response: seq<Byte>)
      requires Valid() && cells.Valid() && slot < SLOTS
      modifies crc, crc.table
      ensures Valid()
      ensures response == Response(cells.Value(), sel, slot)
    {
      hide Chunk, WellFormed;
      var buf := new Byte[RESPONSE_LEN];
      buf[0], buf[1], buf[2], buf[3] := 0xFF, 0xFF, 0xFF, 0xFF;
      var chunk := new Byte[8];
      ghost var c := cells.Value();
      assert buf[..4] == Pad() + Chunks(c, sel, slot, 0);
      hide Chunks, Pad;
      var ltc := 0;
      while ltc < CHAIN_LEN
        invariant 0 <= ltc <= CHAIN_LEN
        invariant Valid() && cells.Value() == c
        invariant buf[..PAD_LEN + ltc * 8] == Pad() + Chunks(c, sel, slot, ltc)
        modifies crc, crc.table, buf, chunk
      {
        BuildChunk(cells, sel, slot, ltc, chunk);
        CopyChunk(chunk, buf, PAD_LEN + ltc * 8);
        AppendChunk(c, sel, slot, ltc);
        ltc := ltc + 1;
      }
      assert buf[..] == buf[..RESPONSE_LEN];
      response := buf[..];
    }

    static method CopyChunk(chunk: array<Byte>, buf: array<Byte>, at: nat)
      requires chunk.Length == 8 && at + 8 <= buf.Length && chunk != buf
      modifies buf
      ensures buf[..at + 8] == old(buf[..at]) + chunk[..]
    {
      var i := 0;
      while i < 8
        invariant 0 <= i <= 8
        invariant buf[..at + i] == old(buf[..at]) + chunk[..i]
      {
        buf[at + i] := chunk[i];
        assert buf[..at + i + 1] == buf[..at + i] + [chunk[i]];
        i := i + 1;
      }
      assert chunk[..8] == chunk[..];
    }

    method RebuildAll(cells: CellState, sel: Channel) returns (pool: seq<seq<Byte>>)
      requires Valid() && cells.Valid()
      modifies crc, crc.table
      ensures Valid()
      ensures pool == AllResponses(cells.Value(), sel)
    {
      hide Response;
      var a := BuildOne(cells, sel, RDCVA);
      var b := BuildOne(cells, sel, RDCVB);
      var c := BuildOne(cells, sel, RDCVC);
      var d := BuildOne(cells, sel, RDCVD);
      var x := BuildOne(cells, sel, RDAUXA);
      var y := BuildOne(cells, sel, RDAUXB);
      pool := [a, b, c, d, x, y];
    }
  }
}
