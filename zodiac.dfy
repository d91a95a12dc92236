/**
  Zodiac sign placement and the degree/minute/second text of a longitude
  (`calculate_sign` and `sign_string` of utils.py).
*/
module Zodiac {
  import opened Wrappers
  import opened SwissEph
  import opened PyNumeric

  /** A zodiac sign id, 0 (Aries) to 11 (Pisces). */
  type Sign = s: int | 0 <= s < 12

  /** One record of the signs reference table. */
  datatype SignInfo = SignInfo(name: string, symbol: string, element: string, modality: string)

  /** The signs reference table, keyed by sign id: exactly twelve records. */
  type SignTable = t: seq<SignInfo> | |t| == 12
    witness seq(12, _ => SignInfo("", "", "", ""))

  /**
    `calculate_sign(longitude)` = `int(longitude // 30)`: the index of the
    30-degree block holding the longitude. There is no reduction modulo 12.
  */
  function CalculateSign(lon: real): (s: int)
    ensures s as real * 30.0 <= lon < (s + 1) as real * 30.0
    ensures 0.0 <= lon < 360.0 ==> 0 <= s < 12
  {
    (lon / 30.0).Floor
  }

  /** The sign of a longitude the ephemeris reported. */
  function SignOf(lon: Longitude): Sign
  {
    CalculateSign(lon)
  }

  /** Sign placement is monotone: a larger longitude is never in an earlier block. */
  lemma CalculateSignMonotone(lon1: real, lon2: real)
    requires lon1 <= lon2
    ensures CalculateSign(lon1) <= CalculateSign(lon2)
  {
    var s1, s2 := CalculateSign(lon1), CalculateSign(lon2);
    assert s1 as real * 30.0 <= lon2 < (s2 + 1) as real * 30.0;
  }

  /** Without a reduction modulo 12, the longitude 360 lands in a thirteenth sign. */
  lemma CalculateSignAt360()
    ensures CalculateSign(360.0) == 12
  {
  }

  /** The numbers `sign_string` shows for a longitude. */
  datatype SignPosition = SignPosition(sign: int, deg: int, min: int, sec: int)

  /**
    The breakdown inside `sign_string`: degree-in-sign truncated to whole
    degrees, then whole minutes, then seconds rounded half to even. The shown
    position is within half an arc-second of the longitude, and seconds may
    read 60 after rounding.
  */
  function SignDms(lon: real): (p: SignPosition)
    ensures p.sign == CalculateSign(lon)
    ensures 0 <= p.deg <= 29 && 0 <= p.min <= 59 && 0 <= p.sec <= 60
    ensures -1.0 / 7200.0 <= p.sign as real * 30.0 + p.deg as real + p.min as real / 60.0
                              + p.sec as real / 3600.0 - lon <= 1.0 / 7200.0
  {
    var sign := CalculateSign(lon);
    var degree := lon - sign as real * 30.0;
    var degInt := Trunc(degree);
    var minute := (degree - degInt as real) * 60.0;
    var minInt := Trunc(minute);
    var second := (minute - minInt as real) * 60.0;
    var secInt := RoundHalfEven(second);
    SignPosition(sign, degInt, minInt, secInt)
  }

  /** A longitude just under the end of a sign shows 60 seconds. */
  lemma SignDmsSixtySeconds()
    ensures SignDms(29.0 + 59.0 / 60.0 + 59.75 / 3600.0) == SignPosition(0, 29, 59, 60)
  {
    var lon := 29.0 + 59.0 / 60.0 + 59.75 / 3600.0;
    assert CalculateSign(lon) == 0;
    assert Trunc(lon) == 29;
    assert Trunc((lon - 29.0) * 60.0) == 59;
    assert ((lon - 29.0) * 60.0 - 59.0) * 60.0 == 59.75;
    assert RoundHalfEven(59.75) == 60;
  }

  /** The number a string of decimal digits denotes, most significant first. */
  function DigitsValue(s: string): nat
    requires forall k | 0 <= k < |s| :: '0' <= s[k] <= '9'
  {
    if |s| == 0 then 0 else DigitsValue(s[..|s| - 1]) * 10 + (s[|s| - 1] as nat - '0' as nat)
  }

  /**
    Decimal text of a natural number, as an f-string prints an int: digits
    only, no leading zero, and reading the digits back gives the number.
  */
  function NatToString(n: nat): (r: string)
    ensures |r| >= 1
    ensures forall k | 0 <= k < |r| :: '0' <= r[k] <= '9'
    ensures r[0] != '0' || n == 0
    ensures DigitsValue(r) == n
  {
    var d := ['0' + (n % 10) as char];
    if n < 10 then d
    else
      var r := NatToString(n / 10) + d;
      assert r[..|r| - 1] == NatToString(n / 10);
      r
  }

  /**
    `sign_string(lon)`: the sign symbol followed by whole degrees, minutes and
    rounded seconds. Looking the sign up fails (a KeyError in the source)
    exactly when the longitude lies outside [0, 360).
  */
  function SignString(lon: real, signs: SignTable): (r: Option<string>)
    ensures r.Some? <==> 0.0 <= lon < 360.0
    ensures r.Some? ==> var symbol := signs[CalculateSign(lon)].symbol;
                        |r.value| > |symbol| && r.value[..|symbol|] == symbol
    ensures r.Some? ==> var p := SignDms(lon);
                        r.value == signs[CalculateSign(lon)].symbol + " " + NatToString(p.deg) + "° "
                                   + NatToString(p.min) + "' " + NatToString(p.sec as nat) + "\""
  {
    var p := SignDms(lon);
    if 0 <= p.sign < 12 then
      Some(signs[p.sign].symbol + " " + NatToString(p.deg) + "° " + NatToString(p.min) + "' "
           + NatToString(p.sec as nat) + "\"")
    else
      None
  }
}
