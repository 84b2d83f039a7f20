/**
 Encoders of tools/pico_ltc_emulator/firmware/src/ltc6811_emu.c: cell millivolts and
 deci-degrees into the LTC6811's 100-microvolt register units.
 */
module Encoding {
  import opened CellChain

  function Min(a: int, b: int): int {
    if a < b then a else b
  }

  /** mV_to_ltc: units of 100 microvolts, saturated to 16 bits. */
  function MvToLtc(mV: U16): (v: U16)
    ensures v == Min(10 * mV, 0xFFFF)
  {
    var wide := mV * 10;
    if wide > 0xFFFF then 0xFFFF else wide
  }

  // ----- Interpolation over a falling table -----------------------------------

  /** Division that drops the fraction toward zero, as in section 6.5.5 of ISO/IEC 9899:2011. */
  function TruncDiv(x: int, y: int): int
    requires y > 0
  {
    if x >= 0 then x / y else -((-x) / y)
  }

  predicate FallsByTen(t: seq<int>) {
    forall i :: 0 < i < |t| ==> t[i - 1] - t[i] >= 10
  }

  /** One table entry per degree from minC; d is in tenths of a degree. */
  function Interpolate(t: seq<int>, minC: int, d: int): int
    requires |t| >= 2
  {
    var lo, hi := minC * 10, (minC + |t| - 1) * 10;
    if d <= lo then t[0]
    else if d >= hi then t[|t| - 1]
    else
      var idx := (d - lo) / 10;
      var frac := (d - lo) - idx * 10;
      var a, b := t[idx], t[idx + 1];
      a + TruncDiv((b - a) * frac, 10)
  }

  lemma WholeDegreeExact(t: seq<int>, minC: int, i: nat)
    requires i < |t| && |t| >= 2
    ensures Interpolate(t, minC, (minC + i) * 10) == t[i]
  {
    var lo := minC * 10;
    var d := (minC + i) * 10;
    if lo < d < (minC + |t| - 1) * 10 {
      assert (d - lo) / 10 == i;
      assert (t[i + 1] - t[i]) * 0 == 0;
    }
  }

  /** One tenth of a degree within a step lowers the value, by at most the whole step. */
  lemma FractionFalls(drop: int, f: int)
    requires drop >= 10 && 0 <= f < 10
    ensures TruncDiv(-drop * (f + 1), 10) < TruncDiv(-drop * f, 10)
    ensures -drop <= TruncDiv(-drop * f, 10) <= 0
    ensures TruncDiv(-drop * f, 10) > -drop
  {
    if f == 0 { assert -drop * f == 0; } else
    if f == 1 {} else if f == 2 {} else if f == 3 {} else if f == 4 {} else
    if f == 5 {} else if f == 6 {} else if f == 7 {} else if f == 8 {} else {}
  }

  /** The value strictly inside the table, in terms of the step it falls into. */
  lemma InsideStep(t: seq<int>, minC: int, i: nat, f: nat)
    requires i + 1 < |t| && f < 10
    ensures Interpolate(t, minC, (minC + i) * 10 + f) == t[i] + TruncDiv((t[i + 1] - t[i]) * f, 10)
  {
    var lo := minC * 10;
    var d := (minC + i) * 10 + f;
    if d == lo {
      assert (t[i + 1] - t[i]) * f == 0;
    } else {
      assert d < (minC + |t| - 1) * 10;
      assert (d - lo) / 10 == i;
    }
  }

  lemma OneTenthFalls(t: seq<int>, minC: int, d: int)
    requires |t| >= 2 && FallsByTen(t)
    requires minC * 10 <= d < (minC + |t| - 1) * 10
    ensures Interpolate(t, minC, d + 1) < Interpolate(t, minC, d)
    ensures t[|t| - 1] < Interpolate(t, minC, d)
  {
    var i := (d - minC * 10) / 10;
    var f := (d - minC * 10) % 10;
    assert d == (minC + i) * 10 + f && 0 <= i && i + 1 < |t|;
    var drop := t[i] - t[i + 1];
    assert drop >= 10;
    FractionFalls(drop, f);
    InsideStep(t, minC, i, f);
    assert (t[i + 1] - t[i]) * f == -drop * f;
    LastIsLowest(t, i + 1);
    if f < 9 {
      InsideStep(t, minC, i, f + 1);
      assert (t[i + 1] - t[i]) * (f + 1) == -drop * (f + 1);
    } else {
      WholeDegreeExact(t, minC, i + 1);
    }
  }

  lemma {:induction false} LastIsLowest(t: seq<int>, i: nat)
    requires FallsByTen(t) && i < |t|
    ensures t[|t| - 1] <= t[i] <= t[0]
    decreases |t|
  {
    if i + 1 < |t| {
      var s := t[..|t| - 1];
      LastIsLowest(s, i);
      assert t[|t| - 2] - t[|t| - 1] >= 10;
    } else if i > 0 {
      LastIsLowest(t[..i], i - 1);
      assert t[i - 1] - t[i] >= 10;
    }
  }

  lemma {:induction false} StrictlyFalling(t: seq<int>, minC: int, d: int, e: int)
    requires |t| >= 2 && FallsByTen(t)
    requires minC * 10 <= d < e <= (minC + |t| - 1) * 10
    ensures Interpolate(t, minC, e) < Interpolate(t, minC, d)
    decreases e - d
  {
    OneTenthFalls(t, minC, d);
    if d + 1 < e {
      StrictlyFalling(t, minC, d + 1, e);
    }
  }

  lemma WithinTable(t: seq<int>, minC: int, d: int)
    requires |t| >= 2 && FallsByTen(t)
    ensures t[|t| - 1] <= Interpolate(t, minC, d) <= t[0]
  {
    var lo, hi := minC * 10, (minC + |t| - 1) * 10;
    LastIsLowest(t, 0);
    if lo < d < hi {
      OneTenthFalls(t, minC, d);
      StrictlyFalling(t, minC, lo, d);
    }
  }

  // ----- The fitted thermistor ------------------------------------------------

  const NTC_MIN_C := -55
  const NTC_MAX_C := 125

  const ROW0: seq<int> := [29654, 29637, 29618, 29598, 29577, 29554, 29531, 29506, 29479, 29451]
  const ROW1: seq<int> := [29422, 29391, 29358, 29323, 29286, 29247, 29207, 29164, 29118, 29071]
  const ROW2: seq<int> := [29021, 28968, 28912, 28854, 28793, 28728, 28661, 28590, 28515, 28438]
  const ROW3: seq<int> := [28356, 28270, 28181, 28088, 27990, 27888, 27781, 27670, 27554, 27433]
  const ROW4: seq<int> := [27307, 27177, 27040, 26899, 26752, 26600, 26442, 26278, 26109, 25934]
  const ROW5: seq<int> := [25753, 25566, 25373, 25174, 24969, 24758, 24541, 24318, 24090, 23855]
  const ROW6: seq<int> := [23615, 23369, 23118, 22861, 22599, 22326, 22060, 21783, 21501, 21216]
  const ROW7: seq<int> := [20926, 20632, 20335, 20034, 19730, 19423, 19114, 18802, 18488, 18173]
  const ROW8: seq<int> := [17857, 17539, 17221, 16902, 16583, 16264, 15947, 15630, 15313, 14998]
  const ROW9: seq<int> := [14685, 14374, 14065, 13758, 13454, 13153, 12854, 12560, 12267, 11980]
  const ROW10: seq<int> := [11696, 11416, 11139, 10868, 10601, 10362, 10078, 9824, 9575, 9329]
  const ROW11: seq<int> := [9090, 8856, 8625, 8399, 8177, 7963, 7751, 7543, 7343, 7145]
  const ROW12: seq<int> := [6952, 6765, 6581, 6403, 6229, 6059, 5895, 5732, 5575, 5422]
  const ROW13: seq<int> := [5273, 5128, 4988, 4852, 4718, 4589, 4462, 4340, 4220, 4105]
  const ROW14: seq<int> := [3993, 3883, 3776, 3671, 3572, 3475, 3379, 3288, 3197, 3112]
  const ROW15: seq<int> := [3027, 2944, 2865, 2789, 2713, 2643, 2570, 2503, 2436, 2373]
  const ROW16: seq<int> := [2309, 2249, 2188, 2131, 2074, 2020, 1966, 1916, 1866, 1819]
  const ROW17: seq<int> := [1773, 1726, 1682, 1639, 1600, 1560, 1520, 1480, 1445, 1409]
  const ROW18: seq<int> := [1372]

  // Blocks of rows, so that no proof has to look at all 181 entries at once.
  const BLOCK0: seq<int> := ROW0 + (ROW1 + (ROW2 + (ROW3 + ROW4)))
  const BLOCK1: seq<int> := ROW5 + (ROW6 + (ROW7 + (ROW8 + ROW9)))
  const BLOCK2: seq<int> := ROW10 + (ROW11 + (ROW12 + (ROW13 + ROW14)))
  const BLOCK3: seq<int> := ROW15 + (ROW16 + (ROW17 + ROW18))

  /** k_ntc_aux_100uV: the divider voltage at each whole degree from -55 to 125. */
  const NTC_TABLE: seq<int> := BLOCK0 + (BLOCK1 + (BLOCK2 + BLOCK3))

  lemma JoinFalls(a: seq<int>, b: seq<int>)
    requires a != [] && b != [] && FallsByTen(a) && FallsByTen(b) && a[|a| - 1] - b[0] >= 10
    ensures FallsByTen(a + b)
  {
    forall i | 0 < i < |a + b|
      ensures (a + b)[i - 1] - (a + b)[i] >= 10
    {
      if i > |a| {
        assert b[i - |a| - 1] - b[i - |a|] >= 10;
      }
    }
  }

  lemma Block0Falls()
    ensures |BLOCK0| == 50 && FallsByTen(BLOCK0)
    ensures BLOCK0[0] == ROW0[0] && BLOCK0[|BLOCK0| - 1] == ROW4[|ROW4| - 1]
  {
    JoinFalls(ROW3, ROW4);
    JoinFalls(ROW2, ROW3 + ROW4);
    JoinFalls(ROW1, ROW2 + (ROW3 + ROW4));
    JoinFalls(ROW0, ROW1 + (ROW2 + (ROW3 + ROW4)));
  }

  lemma Block1Falls()
    ensures |BLOCK1| == 50 && FallsByTen(BLOCK1)
    ensures BLOCK1[0] == ROW5[0] && BLOCK1[|BLOCK1| - 1] == ROW9[|ROW9| - 1]
  {
    JoinFalls(ROW8, ROW9);
    JoinFalls(ROW7, ROW8 + ROW9);
    JoinFalls(ROW6, ROW7 + (ROW8 + ROW9));
    JoinFalls(ROW5, ROW6 + (ROW7 + (ROW8 + ROW9)));
  }

  lemma Block2Falls()
    ensures |BLOCK2| == 50 && FallsByTen(BLOCK2)
    ensures BLOCK2[0] == ROW10[0] && BLOCK2[|BLOCK2| - 1] == ROW14[|ROW14| - 1]
  {
    JoinFalls(ROW13, ROW14);
    JoinFalls(ROW12, ROW13 + ROW14);
    JoinFalls(ROW11, ROW12 + (ROW13 + ROW14));
    JoinFalls(ROW10, ROW11 + (ROW12 + (ROW13 + ROW14)));
  }

  lemma Block3Falls()
    ensures |BLOCK3| == 31 && FallsByTen(BLOCK3)
    ensures BLOCK3[0] == ROW15[0] && BLOCK3[|BLOCK3| - 1] == ROW18[|ROW18| - 1]
  {
    JoinFalls(ROW17, ROW18);
    JoinFalls(ROW16, ROW17 + ROW18);
    JoinFalls(ROW15, ROW16 + (ROW17 + ROW18));
  }

  lemma NtcTableFalls()
    ensures |NTC_TABLE| == 181 && NTC_MAX_C == NTC_MIN_C + |NTC_TABLE| - 1
    ensures NTC_TABLE[0] == 29654 && NTC_TABLE[180] == 1372
    ensures FallsByTen(NTC_TABLE)
  {
    hide FallsByTen;
    Block0Falls();
    Block1Falls();
    Block2Falls();
    Block3Falls();
    JoinFalls(BLOCK2, BLOCK3);
    JoinFalls(BLOCK1, BLOCK2 + BLOCK3);
    JoinFalls(BLOCK0, BLOCK1 + (BLOCK2 + BLOCK3));
  }

  /** dC_to_ltc: the divider voltage at d tenths of a degree, clamped to the table. */
  function DcToLtc(dC: I16): (v: U16)
    ensures 1372 <= v <= 29654
  {
    NtcTableFalls();
    WithinTable(NTC_TABLE, NTC_MIN_C, dC);
    Interpolate(NTC_TABLE, NTC_MIN_C, dC)
  }

  /** Between -55.0 and 125.0 degrees every tenth has its own, lower, voltage. */
  lemma DcToLtcFalls(d: I16, e: I16)
    requires NTC_MIN_C * 10 <= d < e <= NTC_MAX_C * 10
    ensures DcToLtc(e) < DcToLtc(d)
  {
    NtcTableFalls();
    StrictlyFalling(NTC_TABLE, NTC_MIN_C, d, e);
  }

  lemma DcToLtcClamps(d: I16)
    ensures d <= -550 ==> DcToLtc(d) == NTC_TABLE[0]
    ensures d >= 1250 ==> DcToLtc(d) == NTC_TABLE[|NTC_TABLE| - 1]
    ensures forall i {:trigger NTC_TABLE[i]} :: 0 <= i < |NTC_TABLE| ==> DcToLtc((NTC_MIN_C + i) * 10) == NTC_TABLE[i]
  {
    NtcTableFalls();
    forall i | 0 <= i < |NTC_TABLE|
      ensures DcToLtc((NTC_MIN_C + i) * 10) == NTC_TABLE[i]
    {
      WholeDegreeExact(NTC_TABLE, NTC_MIN_C, i);
    }
  }

  /** A reader that walks up from the coldest tenth until the voltage is reached. */
  function LtcToDc(v: int, from: I16): (d: I16)
    requires NTC_MIN_C * 10 <= from <= NTC_MAX_C * 10
    decreases NTC_MAX_C * 10 - from
  {
    if DcToLtc(from) <= v || from == NTC_MAX_C * 10 then from else LtcToDc(v, from + 1)
  }

  lemma {:induction false} DcRoundTripFrom(d: I16, from: I16)
    requires NTC_MIN_C * 10 <= from <= d <= NTC_MAX_C * 10
    ensures LtcToDc(DcToLtc(d), from) == d
    decreases d - from
  {
    if from < d {
      DcToLtcFalls(from, d);
      DcRoundTripFrom(d, from + 1);
    }
  }

  /** The seeded tenth of a degree is recovered from its register value. */
  lemma DcRoundTrip(d: I16)
    requires NTC_MIN_C * 10 <= d <= NTC_MAX_C * 10
    ensures LtcToDc(DcToLtc(d), NTC_MIN_C * 10) == d
  {
    DcRoundTripFrom(d, NTC_MIN_C * 10);
  }
}
