/** `get_color` and `get_mark`: an intensity becomes two colour channels,
    serialised as `#FF` followed by the red and blue channels in two-digit
    lower-case hexadecimal. */
module Colour {
  import opened Intensity

  const HexChars: string := "0123456789abcdef"

  function HexDigit(n: nat): char
    requires n < 16
  {
    HexChars[n]
  }

  /** The value of one hexadecimal digit. */
  function DigitValue(c: char): nat
  {
    if '0' <= c <= '9' then c as nat - '0' as nat
    else if 'a' <= c <= 'f' then c as nat - 'a' as nat + 10
    else 0
  }

  /** The hexadecimal digits of `n`, without leading zeros. */
  function HexDigits(n: nat): (s: string)
    ensures 1 <= |s|
    ensures n < 16 ==> |s| == 1
    ensures n < 256 ==> |s| <= 2
    ensures forall i :: 0 <= i < |s| ==> s[i] in HexChars
  {
    if n < 16 then [HexDigit(n)] else HexDigits(n / 16) + [HexDigit(n % 16)]
  }

  /** The number a string of hexadecimal digits denotes. */
  function HexValue(s: string): nat
  {
    if s == [] then 0 else HexValue(s[..|s| - 1]) * 16 + DigitValue(s[|s| - 1])
  }

  /** Reading back the digits gives the number. */
  lemma {:induction false} HexRoundTrip(n: nat)
    ensures HexValue(HexDigits(n)) == n
  {
    if n >= 16 {
      HexRoundTrip(n / 16);
      var s := HexDigits(n);
      assert s[..|s| - 1] == HexDigits(n / 16);
    }
  }

  /** A leading zero does not change the value. */
  lemma {:induction false} LeadingZero(s: string)
    ensures HexValue("0" + s) == HexValue(s)
  {
    if s != [] {
      var t := "0" + s;
      assert t[..|t| - 1] == "0" + s[..|s| - 1];
      LeadingZero(s[..|s| - 1]);
    }
  }

  /** `format(n, '02x')`: at least two characters, zero-padded; a negative
      number gets a minus sign and no padding beyond the width. A channel
      in [0, 255] becomes exactly two hex digits that read back as itself. */
  function Format02x(n: int): (s: string)
    ensures 0 <= n < 256 ==> |s| == 2 && (forall i :: 0 <= i < 2 ==> s[i] in HexChars) && HexValue(s) == n
    ensures n >= 0 ==> HexValue(s) == n
  {
    if n < 0 then "-" + HexDigits(-n)
    else
      var d := HexDigits(n);
      HexRoundTrip(n);
      LeadingZero(d);
      if |d| < 2 then "0" + d else d
  }

  /** `f"#FF{r:02x}{b:02x}"`: for channels that fit a byte, `#FF` followed
      by four hex digits. */
  function Serialise(red: int, blue: int): (s: string)
    ensures 0 <= red < 256 && 0 <= blue < 256 ==>
      |s| == 7 && s[..3] == "#FF" && forall k :: 3 <= k < 7 ==> s[k] in HexChars
  {
    var r, b := Format02x(red), Format02x(blue);
    if 0 <= red < 256 && 0 <= blue < 256 then
      ThreeSlices("#FF", r, b);
      "#FF" + r + b
    else "#FF" + r + b
  }

  /** Channels that fit a byte serialise to `#FF` and four hex digits, from
      which both read back. */
  lemma SerialiseRoundTrip(red: int, blue: int)
    requires 0 <= red < 256 && 0 <= blue < 256
    ensures |Serialise(red, blue)| == 7
    ensures Serialise(red, blue)[..3] == "#FF"
    ensures forall k :: 3 <= k < 7 ==> Serialise(red, blue)[k] in HexChars
    ensures HexValue(Serialise(red, blue)[3..5]) == red
    ensures HexValue(Serialise(red, blue)[5..7]) == blue
  {
    ThreeSlices("#FF", Format02x(red), Format02x(blue));
  }

  /** The pieces of a concatenation of a 3-, a 2- and a 2-character string. */
  lemma ThreeSlices(x: string, r: string, b: string)
    requires |x| == 3 && |r| == 2 && |b| == 2
    ensures |x + r + b| == 7
    ensures (x + r + b)[..3] == x && (x + r + b)[3..5] == r && (x + r + b)[5..7] == b
    ensures forall k :: 3 <= k < 5 ==> (x + r + b)[k] == r[k - 3]
    ensures forall k :: 5 <= k < 7 ==> (x + r + b)[k] == b[k - 5]
  {
  }

  function Min255(x: int): int
  {
    if x < 255 then x else 255
  }

  /** The red and blue channel of the normal highlight: `int(128 + i * 0.5)`,
      at most 255; in [128, 255] for an intensity in [0, 255]. */
  function ColorChannel(i: int): (c: int)
    ensures 0 <= i <= 255 ==> 128 <= c <= 255
  {
    Min255(TruncDiv(256 + i, 2))
  }

  /** The blue channel of the selection mark: `int(64 + i * 0.75)`, at most
      255; in [64, 255] for an intensity in [0, 255]. */
  function MarkBlue(i: int): (c: int)
    ensures 0 <= i <= 255 ==> 64 <= c <= 255
  {
    Min255(TruncDiv(256 + 3 * i, 4))
  }

  /** The red channel of the selection mark: `int(196 + i * 0.25)`, at most
      255; in [196, 255] for an intensity in [0, 255]. */
  function MarkRed(i: int): (c: int)
    ensures 0 <= i <= 255 ==> 196 <= c <= 255
  {
    Min255(TruncDiv(784 + i, 4))
  }

  /** A stronger intensity never gives a paler channel. */
  lemma ChannelsMonotone(i: int, j: int)
    requires 0 <= i <= j <= 255
    ensures ColorChannel(i) <= ColorChannel(j)
    ensures MarkBlue(i) <= MarkBlue(j)
    ensures MarkRed(i) <= MarkRed(j)
  {
    DivMonotone(256 + i, 256 + j, 2);
    DivMonotone(256 + 3 * i, 256 + 3 * j, 4);
    DivMonotone(784 + i, 784 + j, 4);
  }

  /** `get_color`: red and blue both `ColorChannel(i)`. */
  function GetColor(i: int): (s: string)
    ensures 0 <= i <= 255 ==>
      |s| == 7 && s[..3] == "#FF" && (forall k :: 3 <= k < 7 ==> s[k] in HexChars)
      && HexValue(s[3..5]) == ColorChannel(i) && HexValue(s[5..7]) == ColorChannel(i)
  {
    var c := ColorChannel(i);
    if 0 <= i <= 255 then SerialiseRoundTrip(c, c); Serialise(c, c)
    else Serialise(c, c)
  }

  /** `get_mark`: red `MarkRed(i)`, blue `MarkBlue(i)`. */
  function GetMark(i: int): (s: string)
    ensures 0 <= i <= 255 ==>
      |s| == 7 && s[..3] == "#FF" && (forall k :: 3 <= k < 7 ==> s[k] in HexChars)
      && HexValue(s[3..5]) == MarkRed(i) && HexValue(s[5..7]) == MarkBlue(i)
  {
    var r, b := MarkRed(i), MarkBlue(i);
    if 0 <= i <= 255 then SerialiseRoundTrip(r, b); Serialise(r, b)
    else Serialise(r, b)
  }
}
