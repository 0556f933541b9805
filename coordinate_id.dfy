/**
 * The identity of a geofence: `lat + '|' + lng`, the decimal renderings of the two
 * coordinates joined by a bar. Coordinates are integers here, so a number is rendered
 * the way JavaScript renders an integer: decimal digits, no leading zeros, a leading
 * minus sign for negatives. `ParseId` is the inverse that shows the id rule loses nothing.
 */
module CoordinateId {
  import opened Wrappers
  import JsArray

  predicate IsDigit(c: char) { '0' <= c <= '9' }

  function DigitChar(d: nat): (c: char)
    requires d < 10
    ensures IsDigit(c)
  {
    (d + '0' as int) as char
  }

  function DigitValue(c: char): (d: nat)
    requires IsDigit(c)
    ensures d < 10 && DigitChar(d) == c
  {
    (c as int - '0' as int)
  }

  /** Decimal digits of `n`, most significant first, without leading zeros. */
  function NatToString(n: nat): (s: string)
    ensures |s| > 0 && (forall i :: 0 <= i < |s| ==> IsDigit(s[i]))
    ensures |s| > 1 ==> s[0] != '0'
  {
    if n < 10 then [DigitChar(n)]
    else NatToString(n / 10) + [DigitChar(n % 10)]
  }

  /** The string JavaScript's `+` produces for an integer operand below 10^21 in magnitude. */
  function NumToString(x: int): (s: string)
    ensures |s| > 0 && '|' !in s
    ensures x >= 0 <==> s[0] != '-'
  {
    if x < 0 then "-" + NatToString(-x) else NatToString(x)
  }

  /**
   * `lat + '|' + lng`, the id `addMarker` gives an element. Its first bar sits right
   * after the latitude's text, so the id splits back into the two coordinates' texts.
   */
  function Id(lat: int, lng: int): (id: string)
    ensures var a := NumToString(lat);
      && JsArray.IndexOf(id, '|') == |a|
      && id[..|a|] == a && id[|a| + 1..] == NumToString(lng)
  {
    var a, b := NumToString(lat), NumToString(lng);
    var id := a + "|" + b;
    assert id[..|a|] == a && id[|a|] == '|';
    assert id[|a| + 1..] == b;
    id
  }

  /** The value of a non-empty string of digits. */
  function DigitsValue(s: string): nat
    requires forall i :: 0 <= i < |s| ==> IsDigit(s[i])
  {
    if s == [] then 0 else DigitsValue(s[..|s| - 1]) * 10 + DigitValue(s[|s| - 1])
  }

  /** An optionally signed decimal integer, or None. */
  function ParseInt(s: string): Option<int>
  {
    if |s| > 0 && s[0] == '-' then
      var digits := s[1..];
      if digits != [] && forall i :: 0 <= i < |digits| ==> IsDigit(digits[i]) then Some(-(DigitsValue(digits) as int)) else None
    else if s != [] && forall i :: 0 <= i < |s| ==> IsDigit(s[i]) then Some(DigitsValue(s) as int)
    else None
  }

  /** Splits an id at its first bar and reads both coordinates back. */
  function ParseId(id: string): Option<(int, int)>
  {
    var bar := JsArray.IndexOf(id, '|');
    if bar < 0 then None
    else match (ParseInt(id[..bar]), ParseInt(id[bar + 1..]))
      case (Some(lat), Some(lng)) => Some((lat, lng))
      case _ => None
  }

  lemma {:induction false} DigitsRoundTrip(n: nat)
    ensures DigitsValue(NatToString(n)) == n
  {
    if n >= 10 {
      var prefix := NatToString(n / 10);
      var s := NatToString(n);
      assert s[..|s| - 1] == prefix;
      DigitsRoundTrip(n / 10);
    }
  }

  /** Reading back the rendering of any integer gives that integer. */
  lemma NumRoundTrip(x: int)
    ensures ParseInt(NumToString(x)) == Some(x)
  {
    var s := NumToString(x);
    if x < 0 {
      var t := NatToString(-x);
      assert s[0] == '-' && s[1..] == t;
      DigitsRoundTrip(-x);
    } else {
      assert IsDigit(s[0]);
      DigitsRoundTrip(x);
    }
  }

  /** The id of a coordinate pair parses back to that pair. */
  lemma IdRoundTrip(lat: int, lng: int)
    ensures ParseId(Id(lat, lng)) == Some((lat, lng))
  {
    NumRoundTrip(lat);
    NumRoundTrip(lng);
  }

  /** Two elements have the same id exactly when they were created at the same coordinates. */
  lemma IdInjective(lat: int, lng: int, lat': int, lng': int)
    ensures Id(lat, lng) == Id(lat', lng') <==> lat == lat' && lng == lng'
  {
    IdRoundTrip(lat, lng);
    IdRoundTrip(lat', lng');
  }
}
