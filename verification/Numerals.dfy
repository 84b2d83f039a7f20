/**
 Integers as text: Python's decimal and hexadecimal formatting on the host
 (tools/pico_ltc_emulator/host/pico_ltc_client.py) and strtol with base 0 in the firmware
 (tools/pico_ltc_emulator/firmware/src/usb_cmd.c; section 7.22.1.4 of ISO/IEC 9899:2011).
 */
module Numerals {
  import opened Wrappers

  /** `long` is 32 bits wide on the target. */
  const LONG_MAX := 0x7FFF_FFFF
  const LONG_MIN := -0x8000_0000

  function Clamp(n: int): int {
    if n > LONG_MAX then LONG_MAX else if n < LONG_MIN then LONG_MIN else n
  }

  // ----- Reading --------------------------------------------------------------

  function CharValue(c: char): nat {
    if '0' <= c <= '9' then c as int - '0' as int
    else if 'a' <= c <= 'z' then c as int - 'a' as int + 10
    else if 'A' <= c <= 'Z' then c as int - 'A' as int + 10
    else 36
  }

  predicate IsDigit(c: char, base: nat) {
    CharValue(c) < base
  }

  /** The length of the run of digits at the front. */
  function DigitRun(s: string, base: nat): (n: nat)
    ensures n <= |s|
    ensures forall i :: 0 <= i < n ==> IsDigit(s[i], base)
    ensures n < |s| ==> !IsDigit(s[n], base)
  {
    if s == "" || !IsDigit(s[0], base) then 0 else 1 + DigitRun(s[1..], base)
  }

  function DigitsValue(s: string, base: nat): nat {
    if s == "" then 0
    else DigitsValue(s[..|s| - 1], base) * base + CharValue(s[|s| - 1])
  }

  /** A hexadecimal prefix counts only if a hexadecimal digit follows it. */
  predicate HasHexPrefix(s: string) {
    |s| >= 3 && s[0] == '0' && (s[1] == 'x' || s[1] == 'X') && IsDigit(s[2], 16)
  }

  function BaseOf(s: string): nat {
    if HasHexPrefix(s) then 16 else if s != "" && s[0] == '0' then 8 else 10
  }

  /** How many characters strtol consumes of an unsigned subject, and their value. */
  function Magnitude(s: string): (r: (nat, nat))
    ensures r.0 <= |s|
  {
    var skip := if HasHexPrefix(s) then 2 else 0;
    var n := DigitRun(s[skip..], BaseOf(s));
    (if n == 0 then 0 else skip + n, DigitsValue(s[skip..skip + n], BaseOf(s)))
  }

  function Sign(s: string): nat {
    if s != "" && (s[0] == '-' || s[0] == '+') then 1 else 0
  }

  function Signed(negative: bool, value: nat): int {
    Clamp(if negative then 0 - value else value)
  }

  /** parse_int on an argument token: the value, if strtol consumes all of it. */
  function ParseInt(s: string): Option<int> {
    var k := Sign(s);
    var (used, value) := Magnitude(s[k..]);
    if used == 0 || k + used != |s| then None
    else Some(Signed(s[0] == '-', value))
  }

  // ----- Writing --------------------------------------------------------------

  function DigitChar(d: nat): char
    requires d < 16
  {
    if d < 10 then ('0' as int + d) as char else ('A' as int + d - 10) as char
  }

  lemma DigitCharValue(d: nat)
    requires d < 16
    ensures CharValue(DigitChar(d)) == d
    ensures d < 10 ==> '0' <= DigitChar(d) <= '9'
    ensures DigitChar(d) == '0' <==> d == 0
    ensures DigitChar(d) != '-' && DigitChar(d) != '+' && DigitChar(d) != 'x' && DigitChar(d) != 'X'
  {
  }

  function DecimalNat(n: nat): (s: string)
    ensures s != ""
  {
    if n < 10 then [DigitChar(n)] else DecimalNat(n / 10) + [DigitChar(n % 10)]
  }

  /** str(n) in Python. */
  function Decimal(n: int): (s: string)
    ensures s != ""
  {
    if n < 0 then "-" + DecimalNat(-n) else DecimalNat(n)
  }

  /** f"0x{n:02X}" for one byte. */
  function HexByte(n: nat): (s: string)
    requires n < 256
    ensures s != ""
  {
    "0x" + [DigitChar(n / 16), DigitChar(n % 16)]
  }

  // ----- Round trips ----------------------------------------------------------

  predicate AllDecimal(s: string) {
    forall i :: 0 <= i < |s| ==> '0' <= s[i] <= '9'
  }

  lemma {:induction false} DecimalNatShape(n: nat)
    ensures AllDecimal(DecimalNat(n))
    ensures DecimalNat(n)[0] == '0' <==> n == 0
    ensures DigitsValue(DecimalNat(n), 10) == n
    decreases n
  {
    DigitCharValue(n % 10);
    if n < 10 {
      assert DecimalNat(n) == [DigitChar(n)];
      assert DigitsValue([DigitChar(n)], 10) == DigitsValue([], 10) * 10 + CharValue(DigitChar(n));
    } else {
      DecimalNatShape(n / 10);
      var s, t := DecimalNat(n), DecimalNat(n / 10);
      assert s[..|s| - 1] == t && s[0] == t[0];
    }
  }

  lemma DecimalShort(n: nat)
    requires n < 100000
    ensures |DecimalNat(n)| <= 5
  {
    assert n / 10 / 10 / 10 / 10 < 10;
    assert |DecimalNat(n / 10 / 10 / 10 / 10)| == 1;
    assert |DecimalNat(n / 10 / 10 / 10)| <= 2;
    assert |DecimalNat(n / 10 / 10)| <= 3;
    assert |DecimalNat(n / 10)| <= 4;
  }

  lemma {:induction false} WholeRun(s: string, base: nat)
    requires forall i :: 0 <= i < |s| ==> IsDigit(s[i], base)
    ensures DigitRun(s, base) == |s|
  {
    var n := DigitRun(s, base);
  }

  lemma DecimalMagnitude(n: nat)
    ensures Magnitude(DecimalNat(n)) == (|DecimalNat(n)|, n)
  {
    DecimalNatShape(n);
    var s := DecimalNat(n);
    assert !HasHexPrefix(s);
    assert s[0..] == s;
    if n == 0 {
      assert s == "0";
      WholeRun(s, 8);
      assert DigitsValue("0", 8) == DigitsValue("", 8) * 8 + CharValue('0');
    } else {
      WholeRun(s, 10);
    }
    assert s[0..|s|] == s;
  }

  /** The firmware reads back every integer the host formats in decimal. */
  lemma DecimalRoundTrip(n: int)
    ensures ParseInt(Decimal(n)) == Some(Clamp(n))
  {
    hide DecimalNat, Magnitude, Clamp;
    var s := Decimal(n);
    if n < 0 {
      DecimalMagnitude(-n);
      assert s[1..] == DecimalNat(-n);
    } else {
      DecimalMagnitude(n);
      DecimalNatShape(n);
      assert '0' <= s[0] <= '9';
      assert s[0..] == s;
    }
  }

  /** ... and every mask it formats as a two-digit hexadecimal byte. */
  lemma HexRoundTrip(n: nat)
    requires n < 256
    ensures ParseInt(HexByte(n)) == Some(n)
  {
    var s := HexByte(n);
    DigitCharValue(n / 16);
    DigitCharValue(n % 16);
    var d := s[2..];
    assert d == [DigitChar(n / 16), DigitChar(n % 16)];
    assert HasHexPrefix(s);
    WholeRun(d, 16);
    assert s[2..2 + 2] == d;
    assert d[..1] == [DigitChar(n / 16)];
    assert DigitsValue(d[..1], 16) == DigitsValue("", 16) * 16 + n / 16;
    assert s[0..] == s;
  }

  /** Base 0: a leading 0x is hexadecimal, a leading 0 octal, */
  lemma BaseZero()
    ensures ParseInt("0x1f") == Some(31) && ParseInt("010") == Some(8) && ParseInt("-7") == Some(-7)
  {
    hide Magnitude;
    HexExample();
    OctalExample();
    SevenExample();
    assert "0x1f"[0..] == "0x1f" && "010"[0..] == "010" && "-7"[1..] == "7";
  }

  lemma SevenExample()
    ensures Magnitude("7") == (1, 7)
  {
    WholeRun("7", 10);
    assert "7"[0..] == "7" && "7"[0..1] == "7" && "7"[..0] == "";
  }

  lemma HexExample()
    ensures Magnitude("0x1f") == (4, 31)
  {
    var s := "0x1f";
    assert s[2..] == "1f" && s[2..4] == "1f" && HasHexPrefix(s);
    WholeRun("1f", 16);
    assert DigitsValue("1f", 16) == 31 by { assert "1f"[..1] == "1"; assert DigitsValue("1", 16) == 1; }
  }

  lemma OctalExample()
    ensures Magnitude("010") == (3, 8)
  {
    WholeRun("010", 8);
    assert "010"[..3] == "010" && "010"[..2] == "01" && "01"[..1] == "0";
    assert DigitsValue("0", 8) == 0 && DigitsValue("01", 8) == 1;
  }

  /** and nothing may follow the digits, of which there must be one. */
  lemma OnlyDigits()
    ensures ParseInt("") == None && ParseInt("x") == None && ParseInt("2a") == None
  {
    assert IsDigit('2', 10) && !IsDigit('a', 10) && !IsDigit('x', 10);
    hide DigitRun, DigitsValue, CharValue, IsDigit;
    assert "2a"[0..] == "2a" && "x"[0..] == "x";
    assert Magnitude("2a").0 == 1 && Magnitude("x").0 == 0;
  }

  /** Numbers look the way Python prints them. */
  lemma NumbersAsPrinted()
    ensures Decimal(0) == "0" && Decimal(-550) == "-550" && Decimal(65535) == "65535"
    ensures HexByte(0x1F) == "0x1F" && HexByte(0x04) == "0x04"
  {
    assert DecimalNat(6) == "6" && DecimalNat(65) == "65" && DecimalNat(655) == "655" && DecimalNat(6553) == "6553";
    assert DecimalNat(5) == "5" && DecimalNat(55) == "55" && DecimalNat(550) == "550";
  }
}
