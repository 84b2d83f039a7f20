/**
 The simulated battery chain (tools/pico_ltc_emulator/firmware/src/cell_state.c) and the
 two encoders that turn its voltages and temperatures into LTC6811 register values.
 */
module CellChain {

  const CHAIN_LEN := 10
  const CELLS_PER_LTC := 12
  const AUX_PER_LTC := 32
  const DEFAULT_CELL_MV: U16 := 3750
  const DEFAULT_TEMP_DC: I16 := 250

  type U16 = x: int | 0 <= x < 0x1_0000
  type I16 = x: int | -0x8000 <= x < 0x8000
  type Channel = x: int | 0 <= x < AUX_PER_LTC

  /** The contents of g_state: per chip, 12 cell voltages and 32 sensor temperatures. */
  datatype Chain = Chain(cellMv: seq<seq<U16>>, tempDc: seq<seq<I16>>)

  predicate WellFormed(c: Chain) {
    && |c.cellMv| == CHAIN_LEN
    && |c.tempDc| == CHAIN_LEN
    && (forall i :: 0 <= i < CHAIN_LEN ==> |c.cellMv[i]| == CELLS_PER_LTC)
    && (forall i :: 0 <= i < CHAIN_LEN ==> |c.tempDc[i]| == AUX_PER_LTC)
  }

  function Uniform(mV: U16, dC: I16): (c: Chain)
    ensures WellFormed(c)
  {
    Chain(seq(CHAIN_LEN, i => seq(CELLS_PER_LTC, j => mV)),
          seq(CHAIN_LEN, i => seq(AUX_PER_LTC, j => dC)))
  }

  /** Out-of-range indices are ignored, as the guarded store does. */
  function WithCell(c: Chain, ltc: nat, cell: nat, mV: U16): (r: Chain)
    requires WellFormed(c)
    ensures WellFormed(r)
  {
    if ltc >= CHAIN_LEN || cell >= CELLS_PER_LTC then c
    else
      var row: seq<U16> := c.cellMv[ltc][cell := mV];
      c.(cellMv := c.cellMv[ltc := row])
  }

  function WithTemp(c: Chain, ltc: nat, sensor: nat, dC: I16): (r: Chain)
    requires WellFormed(c)
    ensures WellFormed(r)
  {
    if ltc >= CHAIN_LEN || sensor >= AUX_PER_LTC then c
    else
      var row: seq<I16> := c.tempDc[ltc][sensor := dC];
      c.(tempDc := c.tempDc[ltc := row])
  }

  /** The global g_state, updated in place by the host commands. */
  class CellState {
    const cellMv: array2<U16>
    const tempDc: array2<I16>

    ghost predicate Valid() {
      && cellMv.Length0 == CHAIN_LEN && cellMv.Length1 == CELLS_PER_LTC
      && tempDc.Length0 == CHAIN_LEN && tempDc.Length1 == AUX_PER_LTC
    }

    ghost function Value(): (c: Chain)
      requires Valid()
      reads cellMv, tempDc
      ensures WellFormed(c)
      ensures forall i, j :: 0 <= i < CHAIN_LEN && 0 <= j < CELLS_PER_LTC ==> c.cellMv[i][j] == cellMv[i, j]
      ensures forall i, j :: 0 <= i < CHAIN_LEN && 0 <= j < AUX_PER_LTC ==> c.tempDc[i][j] == tempDc[i, j]
    {
      Chain(seq(CHAIN_LEN, i requires 0 <= i < CHAIN_LEN reads cellMv =>
              seq(CELLS_PER_LTC, j requires 0 <= j < CELLS_PER_LTC reads cellMv => cellMv[i, j])),
            seq(CHAIN_LEN, i requires 0 <= i < CHAIN_LEN reads tempDc =>
              seq(AUX_PER_LTC, j requires 0 <= j < AUX_PER_LTC reads tempDc => tempDc[i, j])))
    }

    constructor ()
      ensures Valid() && fresh(cellMv) && fresh(tempDc)
    {
      cellMv := new U16[CHAIN_LEN, CELLS_PER_LTC];
      tempDc := new I16[CHAIN_LEN, AUX_PER_LTC];
    }

    method Reset()
      requires Valid()
      modifies cellMv, tempDc
      ensures Value() == Uniform(DEFAULT_CELL_MV, DEFAULT_TEMP_DC)
    {
      SetAllCells(DEFAULT_CELL_MV);
      SetAllTemps(DEFAULT_TEMP_DC);
      assert Value().cellMv == Uniform(DEFAULT_CELL_MV, DEFAULT_TEMP_DC).cellMv;
    }

    method SetCell(ltc: nat, cell: nat, mV: U16)
      requires Valid()
      modifies cellMv
      ensures Value() == WithCell(old(Value()), ltc, cell, mV)
    {
      if ltc >= CHAIN_LEN || cell >= CELLS_PER_LTC {
        return;
      }
      cellMv[ltc, cell] := mV;
      assert Value().cellMv[ltc] == old(Value()).cellMv[ltc][cell := mV];
      assert forall i :: 0 <= i < CHAIN_LEN && i != ltc ==> Value().cellMv[i] == old(Value()).cellMv[i];
      assert Value().tempDc == old(Value()).tempDc;
    }

    method SetTemp(ltc: nat, sensor: nat, dC: I16)
      requires Valid()
      modifies tempDc
      ensures Value() == WithTemp(old(Value()), ltc, sensor, dC)
    {
      if ltc >= CHAIN_LEN || sensor >= AUX_PER_LTC {
        return;
      }
      tempDc[ltc, sensor] := dC;
      assert Value().tempDc[ltc] == old(Value()).tempDc[ltc][sensor := dC];
      assert forall i :: 0 <= i < CHAIN_LEN && i != ltc ==> Value().tempDc[i] == old(Value()).tempDc[i];
      assert Value().cellMv == old(Value()).cellMv;
    }

    method SetAllCells(mV: U16)
      requires Valid()
      modifies cellMv
      ensures Value() == old(Value()).(cellMv := Uniform(mV, DEFAULT_TEMP_DC).cellMv)
    {
      var i := 0;
      while i < CHAIN_LEN
        invariant 0 <= i <= CHAIN_LEN
        invariant forall k, j :: 0 <= k < i && 0 <= j < CELLS_PER_LTC ==> cellMv[k, j] == mV
      {
        var c := 0;
        while c < CELLS_PER_LTC
          invariant 0 <= c <= CELLS_PER_LTC
          invariant forall k, j :: 0 <= k < i && 0 <= j < CELLS_PER_LTC ==> cellMv[k, j] == mV
          invariant forall j :: 0 <= j < c ==> cellMv[i, j] == mV
        {
          cellMv[i, c] := mV;
          c := c + 1;
        }
        i := i + 1;
      }
      assert forall k :: 0 <= k < CHAIN_LEN ==> Value().cellMv[k] == seq(CELLS_PER_LTC, j => mV);
      assert Value().tempDc == old(Value()).tempDc;
    }

    method SetAllTemps(dC: I16)
      requires Valid()
      modifies tempDc
      ensures Value() == old(Value()).(tempDc := Uniform(DEFAULT_CELL_MV, dC).tempDc)
    {
      var i := 0;
      while i < CHAIN_LEN
        invariant 0 <= i <= CHAIN_LEN
        invariant forall k, j :: 0 <= k < i && 0 <= j < AUX_PER_LTC ==> tempDc[k, j] == dC
      {
        var a := 0;
        while a < AUX_PER_LTC
          invariant 0 <= a <= AUX_PER_LTC
          invariant forall k, j :: 0 <= k < i && 0 <= j < AUX_PER_LTC ==> tempDc[k, j] == dC
          invariant forall j :: 0 <= j < a ==> tempDc[i, j] == dC
        {
          tempDc[i, a] := dC;
          a := a + 1;
        }
        i := i + 1;
      }
      assert forall k :: 0 <= k < CHAIN_LEN ==> Value().tempDc[k] == seq(AUX_PER_LTC, j => dC);
      assert Value().cellMv == old(Value()).cellMv;
    }
  }
}
