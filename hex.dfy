/** The alpha suffix appended to a `#RRGGBB` colour: `Math.floor(v * 255)` written in base 16
    with lower-case digits (`Number.prototype.toString(16)`) and left-padded with '0' to two
    characters (`String.prototype.padStart(2, '0')`). */
module Hex {

  function HexDigit(d: nat): (c: char)
    requires d < 16
  {
    if d < 10 then ('0' as int + d) as char else ('a' as int + d - 10) as char
  }

  predicate IsHexDigit(c: char)
  {
    '0' <= c <= '9' || 'a' <= c <= 'f'
  }

  function DigitValue(c: char): (d: nat)
    requires IsHexDigit(c)
    ensures d < 16 && HexDigit(d) == c
  {
    if '0' <= c <= '9' then c as int - '0' as int else c as int - 'a' as int + 10
  }

  /** `n.toString(16)`: the shortest base-16 numeral of `n`. */
  function ToHex(n: nat): (s: string)
    ensures 1 <= |s|
    ensures forall i :: 0 <= i < |s| ==> IsHexDigit(s[i])
    ensures n < 16 <==> |s| == 1
    ensures |s| <= 2 <==> n < 256
    decreases n
  {
    if n < 16 then [HexDigit(n)] else ToHex(n / 16) + [HexDigit(n % 16)]
  }

  /** The value of a base-16 numeral: the partner of ToHex. */
  function ParseHex(s: string): nat
    requires forall i :: 0 <= i < |s| ==> IsHexDigit(s[i])
  {
    if s == [] then 0 else ParseHex(s[..|s| - 1]) * 16 + DigitValue(s[|s| - 1])
  }

  lemma {:induction false} ParseToHex(n: nat)
    ensures ParseHex(ToHex(n)) == n
    decreases n
  {
    if n >= 16 {
      var s := ToHex(n / 16);
      assert (s + [HexDigit(n % 16)])[..|s|] == s;
      ParseToHex(n / 16);
    }
  }

  /** `padStart(2, '0')`. */
  function PadStart2(s: string): (r: string)
    ensures |s| < 2 ==> |r| == 2 && r[2 - |s|..] == s && forall i :: 0 <= i < 2 - |s| ==> r[i] == '0'
    ensures |s| >= 2 ==> r == s
  {
    if |s| == 0 then "00" else if |s| == 1 then "0" + s else s
  }

  /** Leading zeros do not change the value of a numeral. */
  lemma {:induction false} ParseLeadingZero(s: string)
    requires forall i :: 0 <= i < |s| ==> IsHexDigit(s[i])
    ensures ParseHex("0" + s) == ParseHex(s)
  {
    if s != [] {
      assert ("0" + s)[..|s|] == "0" + s[..|s| - 1];
      ParseLeadingZero(s[..|s| - 1]);
    }
  }

  /** The alpha suffix for an opacity `v`; the source only ever passes non-negative values. */
  function AlphaHex(v: real): (h: string)
    requires 0.0 <= v
    ensures 2 <= |h|
    ensures forall k :: 0 <= k < |h| ==> IsHexDigit(h[k])
  {
    PadStart2(ToHex((v * 255.0).Floor))
  }

  /** For an opacity in [0, 1] the suffix is exactly two lower-case hex digits whose value is
      floor(v * 255), so it runs from "00" to "ff". */
  lemma AlphaHexIsByte(v: real)
    requires 0.0 <= v <= 1.0
    ensures |AlphaHex(v)| == 2
    ensures forall i :: 0 <= i < 2 ==> IsHexDigit(AlphaHex(v)[i])
    ensures ParseHex(AlphaHex(v)) == (v * 255.0).Floor <= 255
  {
    var n: nat := (v * 255.0).Floor;
    assert n <= 255;
    var s := ToHex(n);
    ParseToHex(n);
    if |s| == 1 {
      ParseLeadingZero(s);
    }
  }

  lemma AlphaHexEnds()
    ensures AlphaHex(0.0) == "00" && AlphaHex(1.0) == "ff"
  {
    assert (1.0 * 255.0).Floor == 255;
    assert ToHex(255) == ToHex(15) + [HexDigit(15)];
  }
}
